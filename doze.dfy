/** The `Handler` of doze.go: a router and a middleware chain. A request is
    answered 404 when no route matches its path, 405 when the matched route
    has no action for its method, and otherwise by running the chain with
    that action on a fresh context. The router is reached through an
    interface, so what its `Match` found is a parameter: no route, or the
    actions of the matched route by method. */
module Doze {
  import opened Wrappers
  import Http
  import Chain

  /** What `ServeHTTP` does with a request: an `http.Error` with a status,
      or a run of the chain. */
  datatype Served =
    | NotFound
    | MethodNotAllowed
    | Ran(outcome: Chain.Outcome)

  /** The status `http.Error` writes for a refused request. */
  function Status(s: Served): (code: int)
    requires !s.Ran?
    ensures s.NotFound? ==> code == 404
    ensures s.MethodNotAllowed? ==> code == 405
  {
    if s.NotFound? then 404 else 405
  }

  /** The answer to a request, given the middleware of the chain, what the
      router matched and the request method. */
  function Serve(mws: seq<Chain.Middleware>, matched: Option<map<string, Chain.Action>>,
                 httpMethod: string, broken: bool): Served
  {
    if matched.None? then NotFound
    else if httpMethod !in matched.value then MethodNotAllowed
    else Ran(Chain.RunChain(mws, 0, Some(matched.value[httpMethod]), Chain.FreshCtx, broken))
  }

  class Handler {
    const chain: Chain.MiddlewareChain

    /** `NewHandler`: an empty chain with no action. */
    constructor ()
      ensures fresh(chain) && chain.entries == [] && chain.action == None
    {
      chain := new Chain.MiddlewareChain();
    }

    /** `Use`: the middleware joins the end of the chain. */
    method Use(m: Chain.Middleware)
      modifies chain
      ensures chain.entries == old(chain.entries) + [m] && chain.action == old(chain.action)
    {
      chain.Add(m);
    }

    /** `ServeHTTP`: a refused request leaves the chain alone; an accepted
        one stores the method's action on the chain and runs it. */
    method ServeHTTP(matched: Option<map<string, Chain.Action>>, httpMethod: string, broken: bool)
      returns (s: Served)
      modifies chain
      ensures chain.entries == old(chain.entries)
      ensures s == Serve(chain.entries, matched, httpMethod, broken)
      ensures s.Ran? ==> chain.action == Some(matched.value[httpMethod])
      ensures !s.Ran? ==> chain.action == old(chain.action)
    {
      if matched.None? {
        return NotFound;
      }
      if httpMethod !in matched.value {
        return MethodNotAllowed;
      }
      chain.action := Some(matched.value[httpMethod]);
      var o := chain.Run(Chain.FreshCtx, broken);
      return Ran(o);
    }
  }

  /** A refused request runs nothing: 404 exactly when no route matched,
      405 exactly when the route has no action for the method. */
  lemma Refusals(mws: seq<Chain.Middleware>, matched: Option<map<string, Chain.Action>>,
                 httpMethod: string, broken: bool)
    ensures var s := Serve(mws, matched, httpMethod, broken);
      (s.NotFound? <==> matched.None?)
      && (s.MethodNotAllowed? <==> matched.Some? && httpMethod !in matched.value)
      && (!s.Ran? ==> (Status(s) == 404 <==> matched.None?))
  {
  }

  /** An accepted request starts from a fresh context, whose writer counters
      are 0 and 0; with a host writer that does not fail it returns, having
      run the method's action once per way the middleware reach it. */
  lemma AcceptedRuns(mws: seq<Chain.Middleware>, actions: map<string, Chain.Action>, httpMethod: string)
    requires httpMethod in actions
    ensures var s := Serve(mws, Some(actions), httpMethod, false);
      s.Ran? && s.outcome.Done? && s.outcome.ctx.acted == Chain.Runs(mws, 0)
  {
    Chain.NoPanic(mws, 0, Some(actions[httpMethod]), Chain.FreshCtx);
    Chain.ActionRuns(mws, 0, Some(actions[httpMethod]), Chain.FreshCtx, false);
  }
}
