/** The `handler` of rest.go: a router, interceptors and middleware. A
    request is answered 404 when no route matches its path and 405 when the
    route has no action for its method; otherwise a fresh context is made
    and the interceptors run in order until one of them answers false. When
    all of them let the request through, the context is run with the
    handler's middleware and the action. What the router matched is a
    parameter, as in the doze handler. */
module Rest {
  import opened Wrappers
  import Chain

  /** An interceptor: what it does to the context, then its verdict on the
      request. The context's value bag and writer are shared, so what an
      interceptor does stays done whatever it answers. */
  datatype Interceptor = Interceptor(effects: seq<Chain.Effect>, verdict: Chain.Bag -> bool)

  /** A rest middleware (`func(Context)`): what it does to the context. It
      is handed no `next`, so it cannot stop or resume the chain. */
  datatype Middleware = Middleware(effects: seq<Chain.Effect>)

  /** One interceptor applied to a context: the new context and its answer. */
  function Invoke(i: Interceptor, ctx: Chain.Ctx): (Chain.Ctx, bool) {
    var c := Chain.ApplyAll(ctx, i.effects);
    (c, i.verdict(c.bag))
  }

  /** The interceptors in order, stopping at the first that answers false:
      the context they leave and whether all of them let the request through. */
  function Intercepted(ics: seq<Interceptor>, ctx: Chain.Ctx): (r: (Chain.Ctx, bool))
    ensures r.0.sent == ctx.sent && r.0.acted == ctx.acted
    decreases |ics|
  {
    if ics == [] then (ctx, true)
    else
      var (c, ok) := Invoke(ics[0], ctx);
      if ok then Intercepted(ics[1..], c) else (c, false)
  }

  /** What `ServeHTTP` does with a request. `Proceed` is the context handed
      to `run`, with the middleware and action it carries. */
  datatype Served =
    | NotFound
    | MethodNotAllowed
    | Stopped(ctx: Chain.Ctx)
    | Proceed(ctx: Chain.Ctx, middlewares: seq<Middleware>, action: Chain.Action)

  function Status(s: Served): (code: int)
    requires s.NotFound? || s.MethodNotAllowed?
    ensures s.NotFound? ==> code == 404
    ensures s.MethodNotAllowed? ==> code == 405
  {
    if s.NotFound? then 404 else 405
  }

  /** The answer to a request. */
  function Serve(ics: seq<Interceptor>, mws: seq<Middleware>,
                 matched: Option<map<string, Chain.Action>>, httpMethod: string): Served
  {
    if matched.None? then NotFound
    else if httpMethod !in matched.value then MethodNotAllowed
    else
      var (c, ok) := Intercepted(ics, Chain.FreshCtx);
      if ok then Proceed(c, mws, matched.value[httpMethod]) else Stopped(c)
  }

  class Handler {
    var interceptors: seq<Interceptor>
    var middlewares: seq<Middleware>

    /** `NewHandler`: no interceptors and no middleware. */
    constructor ()
      ensures interceptors == [] && middlewares == []
    {
      interceptors := [];
      middlewares := [];
    }

    /** `Intercept`: the interceptor goes after the earlier ones. */
    method Intercept(i: Interceptor)
      modifies this
      ensures interceptors == old(interceptors) + [i] && middlewares == old(middlewares)
    {
      interceptors := interceptors + [i];
    }

    /** `Use`: the middleware goes after the earlier ones. */
    method Use(m: Middleware)
      modifies this
      ensures middlewares == old(middlewares) + [m] && interceptors == old(interceptors)
    {
      middlewares := middlewares + [m];
    }

    /** `invokeInterceptors`: calls the interceptors in order while they
        answer true. */
    method InvokeInterceptors(ctx: Chain.Ctx) returns (c: Chain.Ctx, result: bool)
      ensures (c, result) == Intercepted(interceptors, ctx)
    {
      c, result := ctx, true;
      var i := 0;
      while i < |interceptors| && result
        invariant 0 <= i <= |interceptors|
        invariant Intercepted(interceptors, ctx) == if result then Intercepted(interceptors[i..], c) else (c, false)
        decreases |interceptors| - i
      {
        assert interceptors[i..][1..] == interceptors[i + 1..];
        c, result := Invoke(interceptors[i], c).0, Invoke(interceptors[i], c).1;
        i := i + 1;
      }
      if result {
        assert interceptors[i..] == [];
      }
    }

    /** `ServeHTTP`. */
    method ServeHTTP(matched: Option<map<string, Chain.Action>>, httpMethod: string) returns (s: Served)
      ensures s == Serve(interceptors, middlewares, matched, httpMethod)
    {
      if matched.None? {
        return NotFound;
      }
      if httpMethod !in matched.value {
        return MethodNotAllowed;
      }
      var action := matched.value[httpMethod];
      var c, ok := InvokeInterceptors(Chain.FreshCtx);
      if !ok {
        return Stopped(c);
      }
      return Proceed(c, middlewares, action);
    }
  }

  /** Running interceptors one list after another is running them as one
      list, except that the second list is not reached once the first stops. */
  lemma {:induction false} InterceptedAppend(a: seq<Interceptor>, b: seq<Interceptor>, ctx: Chain.Ctx)
    ensures Intercepted(a + b, ctx)
            == if Intercepted(a, ctx).1 then Intercepted(b, Intercepted(a, ctx).0) else Intercepted(a, ctx)
    decreases |a|
  {
    if a == [] {
      assert a + b == b;
    } else {
      assert (a + b)[1..] == a[1..] + b;
      var (c, ok) := Invoke(a[0], ctx);
      if ok {
        InterceptedAppend(a[1..], b, c);
      }
    }
  }

  /** Interceptors after the first that answers false are never invoked:
      the outcome is that of the list cut just after it, whatever follows. */
  lemma StopsAtFirstFalse(ics: seq<Interceptor>, k: nat, ctx: Chain.Ctx)
    requires k < |ics|
    requires Intercepted(ics[..k], ctx).1
    requires !Invoke(ics[k], Intercepted(ics[..k], ctx).0).1
    ensures Intercepted(ics, ctx) == (Invoke(ics[k], Intercepted(ics[..k], ctx).0).0, false)
  {
    assert ics == ics[..k] + ([ics[k]] + ics[k + 1..]);
    InterceptedAppend(ics[..k], [ics[k]] + ics[k + 1..], ctx);
  }

  /** The answer is the conjunction of the interceptors' answers, each given
      on the context the earlier ones left. */
  lemma {:induction false} AllAllow(ics: seq<Interceptor>, ctx: Chain.Ctx)
    ensures Intercepted(ics, ctx).1 <==>
              forall k :: 0 <= k < |ics| ==> Intercepted(ics[..k], ctx).1 && Invoke(ics[k], Intercepted(ics[..k], ctx).0).1
    decreases |ics|
  {
    if ics != [] {
      var (c, ok) := Invoke(ics[0], ctx);
      assert ics[..0] == [];
      if ok {
        AllAllow(ics[1..], c);
        forall k | 1 <= k <= |ics|
          ensures Intercepted(ics[..k], ctx) == Intercepted(ics[1..][..k - 1], c)
        {
          assert ics[..k][0] == ics[0];
          assert ics[..k][1..] == ics[1..][..k - 1];
        }
        if Intercepted(ics, ctx).1 {
          forall k | 0 <= k < |ics|
            ensures Intercepted(ics[..k], ctx).1 && Invoke(ics[k], Intercepted(ics[..k], ctx).0).1
          {
            if k > 0 {
              assert ics[k] == ics[1..][k - 1];
            }
          }
        } else {
          var k' :| 0 <= k' < |ics[1..]| && !(Intercepted(ics[1..][..k'], c).1 && Invoke(ics[1..][k'], Intercepted(ics[1..][..k'], c).0).1);
          assert ics[k' + 1] == ics[1..][k'];
          assert !(Intercepted(ics[..k' + 1], ctx).1 && Invoke(ics[k' + 1], Intercepted(ics[..k' + 1], ctx).0).1);
        }
      }
    }
  }

  /** A stopped request has sent nothing and run no action; an accepted one
      is handed a context on which no action has run yet either. */
  lemma StoppedSendsNothing(ics: seq<Interceptor>, mws: seq<Middleware>,
                            matched: Option<map<string, Chain.Action>>, httpMethod: string)
    ensures var s := Serve(ics, mws, matched, httpMethod);
      (s.Stopped? || s.Proceed?) ==> s.ctx.sent == [] && s.ctx.acted == 0
    ensures var s := Serve(ics, mws, matched, httpMethod);
      (s.NotFound? <==> matched.None?)
      && (s.MethodNotAllowed? <==> matched.Some? && httpMethod !in matched.value)
  {
  }
}
