/** `parseRouteParams` of router_v2.go and the rune stack it uses: the text
    between matching braces of a template, keyed by the number of slashes
    seen so far. */
module RouteParams {
  import Text

  /** What `pop` and `peek` return for an empty stack. */
  const NoRune: int := -1
  const Open: int := '{' as int

  /** `peek`: the top of the stack, or -1 when it is empty. */
  function Peek(items: seq<int>): (r: int)
    ensures items == [] ==> r == NoRune
    ensures items != [] ==> r == items[|items| - 1]
  {
    if |items| > 0 then items[|items| - 1] else NoRune
  }

  /** The `[]rune` slice that `push` and `pop` update through a pointer. */
  class RuneStack {
    var items: seq<int>

    constructor ()
      ensures items == []
    {
      items := [];
    }

    /** `push`: the item goes on top. */
    method Push(item: int)
      modifies this
      ensures items == old(items) + [item]
    {
      items := items + [item];
    }

    /** `pop`: removes and returns the top, or returns -1 and leaves an empty
        stack empty. */
    method Pop() returns (item: int)
      modifies this
      ensures old(items) == [] ==> item == NoRune && items == []
      ensures old(items) != [] ==> old(items) == items + [item]
    {
      if |items| > 0 {
        item := items[|items| - 1];
        items := items[..|items| - 1];
      } else {
        item := NoRune;
      }
    }
  }

  /** The loop state of `parseRouteParams`: the slash count `chunk`, the brace
      stack, the text collected since the last '{', and the result map. */
  datatype Scan = Scan(chunk: int, stack: seq<int>, param: string, params: map<int, string>)

  /** One iteration of the loop over the template, for the byte `ch`. */
  function Step(s: Scan, ch: char): Scan {
    var chunk := if ch == '/' then s.chunk + 1 else s.chunk;
    var closes := ch == '}' && Peek(s.stack) == Open;
    var params := if closes then s.params[chunk := s.param] else s.params;
    var param := if closes then [] else s.param;
    var stack := if closes then s.stack[..|s.stack| - 1] else s.stack;
    var param' := if Peek(stack) == Open then param + [ch] else param;
    if ch == '{' then Scan(chunk, stack + [Open], if |stack| > 0 then [] else param', params)
    else Scan(chunk, stack, param', params)
  }

  /** The state before the loop. */
  const Start := Scan(0, [], [], map[])

  /** The state after the loop has gone on from `s` over `rest`. */
  function Parse(s: Scan, rest: string): Scan
    decreases |rest|
  {
    if rest == [] then s else Parse(Step(s, rest[0]), rest[1..])
  }

  /** `parseRouteParams` (without its debug printing loop). */
  method ParseRouteParams(route: string) returns (params: map<int, string>)
    ensures params == Parse(Start, route).params
  {
    params := map[];
    var stack := new RuneStack();
    var param: string := [];
    var chunk := 0;
    var i := 0;
    while i < |route|
      invariant 0 <= i <= |route|
      invariant Parse(Scan(chunk, stack.items, param, params), route[i..]) == Parse(Start, route)
    {
      var ch := route[i];
      assert route[i..][0] == ch && route[i..][1..] == route[i + 1..];
      if ch == '/' {
        chunk := chunk + 1;
      }
      if ch == '}' && Peek(stack.items) == Open {
        params := params[chunk := param];
        param := [];
        var _ := stack.Pop();
      }
      if Peek(stack.items) == Open {
        param := param + [ch];
      }
      if ch == '{' {
        if |stack.items| > 0 {
          param := [];
        }
        stack.Push(Open);
      }
      i := i + 1;
    }
  }

  /** The stack only ever holds '{', and the slash count grows by the number
      of slashes read. */
  lemma {:induction false} ParseShape(s: Scan, rest: string)
    requires forall j :: 0 <= j < |s.stack| ==> s.stack[j] == Open
    ensures forall j :: 0 <= j < |Parse(s, rest).stack| ==> Parse(s, rest).stack[j] == Open
    ensures Parse(s, rest).chunk == s.chunk + Text.Count(rest, '/')
    decreases |rest|
  {
    if rest != [] {
      ParseShape(Step(s, rest[0]), rest[1..]);
    }
  }

  /** Every key of the result is a slash count reached along the template:
      from the start, a number between 0 and the number of slashes. */
  lemma {:induction false} KeysAreSlashCounts(s: Scan, rest: string)
    requires 0 <= s.chunk && forall k :: k in s.params ==> 0 <= k <= s.chunk
    ensures forall k :: k in Parse(s, rest).params ==> 0 <= k <= s.chunk + Text.Count(rest, '/')
    decreases |rest|
  {
    if rest != [] {
      KeysAreSlashCounts(Step(s, rest[0]), rest[1..]);
    }
  }

  /** A stretch of template without '{'. */
  predicate NoBrace(t: string) {
    forall j :: 0 <= j < |t| ==> t[j] != '{'
  }

  /** A placeholder name: no '/', '{' or '}'. */
  predicate PlainName(t: string) {
    forall j :: 0 <= j < |t| ==> t[j] !in "/{}"
  }

  /** Outside braces, a stretch without '{' only counts its slashes: nothing
      is collected or recorded. */
  lemma {:induction false} NoBraceNoParams(s: Scan, rest: string)
    requires s.stack == [] && NoBrace(rest)
    ensures Parse(s, rest) == Scan(s.chunk + Text.Count(rest, '/'), [], s.param, s.params)
    decreases |rest|
  {
    if rest != [] {
      assert rest[0] != '{';
      NoBraceNoParams(Step(s, rest[0]), rest[1..]);
    }
  }

  /** Reading "{name}" with an empty stack records `name` under the current
      slash count. */
  lemma {:induction false} Placeholder(s: Scan, name: string)
    requires s.stack == [] && s.param == []
    requires PlainName(name)
    ensures Parse(s, "{" + name + "}") == Scan(s.chunk, [], [], s.params[s.chunk := name])
  {
    var s1 := Scan(s.chunk, [Open], [], s.params);
    assert Step(s, '{') == s1;
    assert Parse(s, "{") == s1 by {
      assert "{"[1..] == [];
    }
    Collect(s1, name);
    assert [] + name == name;
    var s2 := Scan(s.chunk, [Open], name, s.params);
    assert Parse(s2, "}") == Step(s2, '}') by {
      assert "}"[1..] == [];
    }
    ParseConcat(s, "{", name + "}");
    ParseConcat(s1, name, "}");
    assert "{" + name + "}" == "{" + (name + "}");
  }

  /** Inside an open brace, bytes other than '/', '{' and '}' are collected. */
  lemma {:induction false} Collect(s: Scan, name: string)
    requires s.stack == [Open]
    requires PlainName(name)
    ensures Parse(s, name) == Scan(s.chunk, [Open], s.param + name, s.params)
    decreases |name|
  {
    if name == [] {
      assert s.param + name == s.param;
    } else {
      assert name[0] !in "/{}";
      Collect(Step(s, name[0]), name[1..]);
      assert s.param + [name[0]] + name[1..] == s.param + name;
    }
  }

  /** A literal without braces, then a placeholder (as in /users/{id}): the
      name is recorded under the number of slashes in the literal, and the
      scan is back outside braces with nothing collected, so templates made
      of such stretches compose through `ParseConcat`. */
  lemma LiteralThenPlaceholder(s: Scan, p: string, name: string)
    requires s.stack == [] && s.param == []
    requires NoBrace(p)
    requires PlainName(name)
    ensures var c := s.chunk + Text.Count(p, '/');
            Parse(s, p + ("{" + name + "}")) == Scan(c, [], [], s.params[c := name])
  {
    var b := "{" + name + "}";
    var m := Parse(s, p);
    NoBraceNoParams(s, p);
    assert m == Scan(s.chunk + Text.Count(p, '/'), [], [], s.params);
    Placeholder(m, name);
    ParseConcat(s, p, b);
  }

  /** Running over `a + b` is running over `a`, then over `b`. */
  lemma {:induction false} ParseConcat(s: Scan, a: string, b: string)
    ensures Parse(s, a + b) == Parse(Parse(s, a), b)
    decreases |a|
  {
    if a == [] {
      assert a + b == b;
    } else {
      assert (a + b)[0] == a[0] && (a + b)[1..] == a[1..] + b;
      ParseConcat(Step(s, a[0]), a[1..], b);
    }
  }
}
