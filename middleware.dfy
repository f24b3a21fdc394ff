/** The middleware chain of middleware.go. Each middleware is a function of
    the request context and a `next` continuation; `buildChain` nests them so
    that the `next` of a middleware runs the rest of the list and the `next`
    of the last one runs the action, whose result, when there is one, is sent.
    A middleware is modelled by what it does, in order: effects on the
    context and calls of `next`. */
module Chain {
  import opened Wrappers
  import Http
  import Text

  /** The request-scoped values `Context.Set` and `Context.Value` use; a
      later `Set` of a key hides the earlier one. */
  type Bag = map<string, int>

  /** `Value(key)` of an integer entry, or 0 when it was never set. */
  function Value(bag: Bag, key: string): int {
    if key in bag then bag[key] else 0
  }

  /** What a middleware or an action can do to the context: set a value
      computed from the bag, write a status code, or write a body for which
      the host reports `n` bytes and an error flag. */
  datatype Effect =
    | Set(key: string, f: Bag -> int)
    | Header(code: int)
    | Body(n: int, failed: bool)

  /** A middleware step: an effect, or a call of `next`. */
  datatype Step = Do(e: Effect) | Next

  datatype Middleware = Middleware(steps: seq<Step>)

  /** What an action returns when it is not nil. */
  datatype Response = Response(status: int, body: string)

  /** An `ActionFunc`: its effects on the context, then its result, which
      may be nil. */
  datatype Action = Action(effects: seq<Effect>, respond: Bag -> Option<Response>)

  /** The context: its value bag, the writer's counters, the responses sent
      and the number of times an action has run. */
  datatype Ctx = Ctx(bag: Bag, writer: Http.Counters, sent: seq<Response>, acted: nat)

  /** A run either returns or panics. */
  datatype Outcome = Done(ctx: Ctx) | Panicked(ctx: Ctx)

  /** A fresh request context. */
  const FreshCtx := Ctx(map[], Http.Fresh, [], 0)

  function Apply(ctx: Ctx, e: Effect): Ctx {
    match e
    case Set(key, f) => ctx.(bag := ctx.bag[key := f(ctx.bag)])
    case Header(code) => ctx.(writer := Http.AfterHeader(ctx.writer, code))
    case Body(n, failed) => ctx.(writer := Http.AfterWrite(ctx.writer, n, failed))
  }

  function ApplyAll(ctx: Ctx, es: seq<Effect>): (c: Ctx)
    ensures c.sent == ctx.sent && c.acted == ctx.acted
    decreases |es|
  {
    if es == [] then ctx else ApplyAll(Apply(ctx, es[0]), es[1..])
  }

  /** Sending a response: its status code, then its body; `broken` is the
      host's writer reporting an error, on which `doAction` panics. */
  function Send(ctx: Ctx, r: Response, broken: bool): (o: Outcome)
    ensures o.ctx.sent == ctx.sent + [r] && o.ctx.acted == ctx.acted
    ensures o.Panicked? <==> broken
  {
    var w := Http.AfterWrite(Http.AfterHeader(ctx.writer, r.status), |r.body|, broken);
    var c := ctx.(writer := w, sent := ctx.sent + [r]);
    if broken then Panicked(c) else Done(c)
  }

  /** `doAction`: runs the action and sends its result only when it is not
      nil. A nil action is a call of a nil function, which panics. */
  function DoAction(action: Option<Action>, ctx: Ctx, broken: bool): (o: Outcome)
    ensures action.None? ==> o == Panicked(ctx)
    ensures action.Some? ==> o.ctx.acted == ctx.acted + 1
    ensures action.Some? && action.value.respond(ApplyAll(ctx, action.value.effects).bag).None? ==>
              o.Done? && o.ctx.sent == ctx.sent
    ensures action.Some? && action.value.respond(ApplyAll(ctx, action.value.effects).bag).Some? ==>
              (o.Panicked? <==> broken)
              && o.ctx.sent == ctx.sent + [action.value.respond(ApplyAll(ctx, action.value.effects).bag).value]
  {
    match action
    case None => Panicked(ctx)
    case Some(a) =>
      var c := ApplyAll(ctx, a.effects).(acted := ctx.acted + 1);
      match a.respond(c.bag)
      case None => Done(c)
      case Some(r) => Send(c, r, broken)
  }

  /** The continuation `buildChain` makes for middleware `k`: with no
      middleware left it runs the action, otherwise middleware `k` runs with
      a `next` that continues at `k + 1`. */
  function RunChain(mws: seq<Middleware>, k: nat, action: Option<Action>, ctx: Ctx, broken: bool): Outcome
    requires k <= |mws|
    decreases |mws| - k, 1, 0
  {
    if k == |mws| then DoAction(action, ctx, broken)
    else Exec(mws, k, 0, action, ctx, broken)
  }

  /** Middleware `k` from its step `j` on. */
  function Exec(mws: seq<Middleware>, k: nat, j: nat, action: Option<Action>, ctx: Ctx, broken: bool): Outcome
    requires k < |mws| && j <= |mws[k].steps|
    decreases |mws| - k, 0, |mws[k].steps| - j
  {
    if j == |mws[k].steps| then Done(ctx)
    else match mws[k].steps[j]
      case Do(e) => Exec(mws, k, j + 1, action, Apply(ctx, e), broken)
      case Next =>
        match RunChain(mws, k + 1, action, ctx, broken)
        case Done(c) => Exec(mws, k, j + 1, action, c, broken)
        case Panicked(c) => Panicked(c)
  }

  /** The number of `next` calls among some steps. */
  function NextCount(steps: seq<Step>): nat {
    if steps == [] then 0 else (if steps[0] == Next then 1 else 0) + NextCount(steps[1..])
  }

  /** How often the action runs when the chain starts at middleware `k`:
      the product of the numbers of `next` calls of the middleware left. */
  function Runs(mws: seq<Middleware>, k: nat): (r: nat)
    requires k <= |mws|
    ensures r == 0 <==> exists i :: k <= i < |mws| && NextCount(mws[i].steps) == 0
    decreases |mws| - k
  {
    if k == |mws| then 1 else NextCount(mws[k].steps) * Runs(mws, k + 1)
  }

  /** A run that returns has run the action once for every way of reaching
      it through `next` calls: never when some middleware does not call
      `next` (it short-circuits the rest), once when every one calls it once,
      and again each time a middleware calls it again, since nothing guards
      against a second call. */
  lemma {:induction false} ActionRuns(mws: seq<Middleware>, k: nat, action: Option<Action>, ctx: Ctx, broken: bool)
    requires k <= |mws|
    ensures RunChain(mws, k, action, ctx, broken).Done? ==>
              RunChain(mws, k, action, ctx, broken).ctx.acted == ctx.acted + Runs(mws, k)
    decreases |mws| - k, 1, 0
  {
    if k < |mws| {
      ExecRuns(mws, k, 0, action, ctx, broken);
      assert mws[k].steps[0..] == mws[k].steps;
    }
  }

  lemma {:induction false} ExecRuns(mws: seq<Middleware>, k: nat, j: nat, action: Option<Action>, ctx: Ctx, broken: bool)
    requires k < |mws| && j <= |mws[k].steps|
    ensures Exec(mws, k, j, action, ctx, broken).Done? ==>
              Exec(mws, k, j, action, ctx, broken).ctx.acted
                == ctx.acted + NextCount(mws[k].steps[j..]) * Runs(mws, k + 1)
    decreases |mws| - k, 0, |mws[k].steps| - j
  {
    var steps := mws[k].steps;
    if j < |steps| {
      assert steps[j..][1..] == steps[j + 1..];
      match steps[j]
      case Do(e) =>
        ExecRuns(mws, k, j + 1, action, Apply(ctx, e), broken);
      case Next =>
        ActionRuns(mws, k + 1, action, ctx, broken);
        match RunChain(mws, k + 1, action, ctx, broken)
        case Done(c) =>
          ExecRuns(mws, k, j + 1, action, c, broken);
          assert NextCount(steps[j..]) == 1 + NextCount(steps[j + 1..]);
        case Panicked(c) =>
    }
  }

  /** The effects among some steps, in order, without the `next` calls. */
  function Effects(steps: seq<Step>): seq<Effect> {
    if steps == [] then [] else (if steps[0].Do? then [steps[0].e] else []) + Effects(steps[1..])
  }

  /** A middleware that does not call `next` short-circuits the chain: the
      run is its own effects and nothing else, so neither the middleware
      after it nor the action runs, and nothing is sent. */
  lemma ShortCircuit(mws: seq<Middleware>, k: nat, action: Option<Action>, ctx: Ctx, broken: bool)
    requires k < |mws| && NextCount(mws[k].steps) == 0
    ensures RunChain(mws, k, action, ctx, broken) == Done(ApplyAll(ctx, Effects(mws[k].steps)))
    ensures RunChain(mws, k, action, ctx, broken).ctx.sent == ctx.sent
    ensures RunChain(mws, k, action, ctx, broken).ctx.acted == ctx.acted
  {
    assert mws[k].steps[0..] == mws[k].steps;
    ExecAlone(mws, k, 0, action, ctx, broken);
  }

  lemma {:induction false} ExecAlone(mws: seq<Middleware>, k: nat, j: nat, action: Option<Action>, ctx: Ctx, broken: bool)
    requires k < |mws| && j <= |mws[k].steps| && NextCount(mws[k].steps[j..]) == 0
    ensures Exec(mws, k, j, action, ctx, broken) == Done(ApplyAll(ctx, Effects(mws[k].steps[j..])))
    decreases |mws[k].steps| - j
  {
    var steps := mws[k].steps;
    if j < |steps| {
      assert steps[j..][1..] == steps[j + 1..];
      assert steps[j..][0] == steps[j];
      assert steps[j].Do?;
      var e := steps[j].e;
      assert Effects(steps[j..]) == [e] + Effects(steps[j + 1..]);
      ExecAlone(mws, k, j + 1, action, Apply(ctx, e), broken);
      assert ([e] + Effects(steps[j + 1..]))[1..] == Effects(steps[j + 1..]);
    } else {
      assert steps[j..] == [];
    }
  }

  /** With an action set and a host writer that does not fail, a run always
      returns: nothing in the chain panics. */
  lemma {:induction false} NoPanic(mws: seq<Middleware>, k: nat, action: Option<Action>, ctx: Ctx)
    requires k <= |mws| && action.Some?
    ensures RunChain(mws, k, action, ctx, false).Done?
    decreases |mws| - k, 1, 0
  {
    if k < |mws| {
      ExecNoPanic(mws, k, 0, action, ctx);
    }
  }

  lemma {:induction false} ExecNoPanic(mws: seq<Middleware>, k: nat, j: nat, action: Option<Action>, ctx: Ctx)
    requires k < |mws| && j <= |mws[k].steps| && action.Some?
    ensures Exec(mws, k, j, action, ctx, false).Done?
    decreases |mws| - k, 0, |mws[k].steps| - j
  {
    if j < |mws[k].steps| {
      match mws[k].steps[j]
      case Do(e) =>
        ExecNoPanic(mws, k, j + 1, action, Apply(ctx, e));
      case Next =>
        NoPanic(mws, k + 1, action, ctx);
        ExecNoPanic(mws, k, j + 1, action, RunChain(mws, k + 1, action, ctx, false).ctx);
    }
  }

  /** With no middleware, `run` is the action itself. */
  lemma EmptyChain(action: Option<Action>, ctx: Ctx, broken: bool)
    ensures RunChain([], 0, action, ctx, broken) == DoAction(action, ctx, broken)
  {
  }

  /** Three middleware that each set a value from the previous one and
      call `next`, and an action that answers with the last value as JSON. */
  const SetOne := Middleware([Do(Set("one", _ => 11)), Next])
  const SetTwo := Middleware([Do(Set("two", b => Value(b, "one") - 2)), Next])
  const SetThree := Middleware([Do(Set("three", b => Value(b, "two") / 3)), Next])
  const Answer := Action([], b => Some(Response(200, "{\"Value\":" + Text.Itoa(Value(b, "three")) + "}")))

  /** The effects of the middleware reach the action in order: 11, then
      11 - 2, then 9 / 3, so the action answers {"Value":3}. */
  lemma OrderedEffects()
    ensures RunChain([SetOne, SetTwo, SetThree], 0, Some(Answer), FreshCtx, false)
            == Done(Ctx(map["one" := 11, "two" := 9, "three" := 3], Http.Counters(11, 200),
                        [Response(200, "{\"Value\":3}")], 1))
  {
    var mws := [SetOne, SetTwo, SetThree];
    var c1 := FreshCtx.(bag := map["one" := 11]);
    var c2 := c1.(bag := map["one" := 11, "two" := 9]);
    var c3 := c2.(bag := map["one" := 11, "two" := 9, "three" := 3]);
    var r := Response(200, "{\"Value\":3}");
    assert Text.Itoa(3) == "3";
    assert Value(c3.bag, "three") == 3;
    assert "{\"Value\":" + "3" + "}" == "{\"Value\":3}";
    assert Answer.respond(c3.bag) == Some(r);
    var c4 := Ctx(c3.bag, Http.Counters(11, 200), [r], 1);
    assert RunChain(mws, 3, Some(Answer), c3, false) == Done(c4);
    assert Exec(mws, 2, 1, Some(Answer), c3, false) == Done(c4);
    assert Value(c2.bag, "two") == 9;
    assert Apply(c2, SetThree.steps[0].e) == c3;
    assert Exec(mws, 2, 0, Some(Answer), c2, false) == Done(c4);
    assert Exec(mws, 1, 1, Some(Answer), c2, false) == Done(c4);
    assert Value(c1.bag, "one") == 11;
    assert Apply(c1, SetTwo.steps[0].e) == c2;
    assert Exec(mws, 1, 0, Some(Answer), c1, false) == Done(c4);
    assert Exec(mws, 0, 1, Some(Answer), c1, false) == Done(c4);
    assert Apply(FreshCtx, SetOne.steps[0].e) == c1;
    assert Exec(mws, 0, 0, Some(Answer), FreshCtx, false) == Done(c4);
  }

  /** The linked list of middleware (`root` and its `next` links) as the
      sequence of its entries, and the action `ServeHTTP` puts in. */
  class MiddlewareChain {
    var entries: seq<Middleware>
    var action: Option<Action>

    /** `new(middlewareChain)`: no middleware and a nil action. */
    constructor ()
      ensures entries == [] && action == None
    {
      entries := [];
      action := None;
    }

    /** `add`: the middleware goes after every earlier one, which stay as
        they were. */
    method Add(m: Middleware)
      modifies this
      ensures entries == old(entries) + [m] && action == old(action)
    {
      entries := entries + [m];
    }

    /** `run`: builds the chain from the first middleware and starts it. */
    method Run(ctx: Ctx, broken: bool) returns (o: Outcome)
      ensures o == RunChain(entries, 0, action, ctx, broken)
    {
      o := RunChain(entries, 0, action, ctx, broken);
    }
  }
}
