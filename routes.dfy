/** The routes of route.go: `DozeRoute` with its getters and setters, the
    parameter map `Params` builds from a match, and the reverse routing of
    `Build`, which writes values back into a template. */
module Routes {
  import opened Wrappers
  import Text
  import Template
  import Chain

  /** A snapshot of a route's fields, for stating what a setter keeps. */
  datatype Fields = Fields(name: string, path: string, actions: map<string, Chain.Action>,
                           paramNames: seq<string>, paramValues: seq<string>)

  /** A route: its name, its template path, its action per HTTP method, its
      parameter names in placeholder order and the values of the last match.
      The getters of the source are reads of these fields. */
  class DozeRoute {
    var name: string
    var path: string
    var actions: map<string, Chain.Action>
    var paramNames: seq<string>
    var paramValues: seq<string>

    function State(): Fields
      reads this
    {
      Fields(name, path, actions, paramNames, paramValues)
    }

    /** `NewRoute`: everything empty. */
    constructor ()
      ensures State() == Fields("", "", map[], [], [])
    {
      name := "";
      path := "";
      actions := map[];
      paramNames := [];
      paramValues := [];
    }

    method SetName(n: string)
      modifies this
      ensures State() == old(State()).(name := n)
    {
      name := n;
    }

    method SetPath(p: string)
      modifies this
      ensures State() == old(State()).(path := p)
    {
      path := p;
    }

    method SetActions(a: map<string, Chain.Action>)
      modifies this
      ensures State() == old(State()).(actions := a)
    {
      actions := a;
    }

    method SetParamNames(ns: seq<string>)
      modifies this
      ensures State() == old(State()).(paramNames := ns)
    {
      paramNames := ns;
    }

    method SetParamValues(vs: seq<string>)
      modifies this
      ensures State() == old(State()).(paramValues := vs)
    {
      paramValues := vs;
    }

    /** `Named`: sets the name and returns the route itself, for chaining. */
    method Named(n: string) returns (r: DozeRoute)
      modifies this
      ensures r == this && State() == old(State()).(name := n)
    {
      SetName(n);
      r := this;
    }

    /** `For`: sets the template path and returns the route itself. */
    method For(p: string) returns (r: DozeRoute)
      modifies this
      ensures r == this && State() == old(State()).(path := p)
    {
      SetPath(p);
      r := this;
    }

    /** `With`: the action for `method`; a later call for the same method
        replaces it, other methods keep theirs. */
    method With(httpMethod: string, action: Chain.Action) returns (r: DozeRoute)
      modifies this
      ensures r == this && State() == old(State()).(actions := old(actions)[httpMethod := action])
    {
      var acts := actions;
      acts := acts[httpMethod := action];
      SetActions(acts);
      r := this;
    }

    /** `And`: another name for `With`. */
    method And(httpMethod: string, action: Chain.Action) returns (r: DozeRoute)
      modifies this
      ensures r == this && State() == old(State()).(actions := old(actions)[httpMethod := action])
    {
      r := With(httpMethod, action);
    }

    /** `Params`: every name with its value, as an integer when
        `strconv.Atoi` accepts the text; a later repeat of a name wins. The
        source's comment asks for as many names as values; with fewer names
        the loop indexes past their end. */
    method Params() returns (pv: map<string, ParamValue>)
      requires |paramValues| <= |paramNames|
      ensures pv == ParamsOf(paramNames, paramValues)
    {
      pv := map[];
      var i := 0;
      while i < |paramValues|
        invariant 0 <= i <= |paramValues|
        invariant pv == ParamsOf(paramNames, paramValues[..i])
      {
        var v := paramValues[i];
        pv := pv[paramNames[i] := PStr(v)];
        var n := Text.Atoi(v);
        if n.Some? {
          pv := pv[paramNames[i] := PInt(n.value)];
        }
        assert paramValues[..i + 1][..i] == paramValues[..i];
        i := i + 1;
      }
      assert paramValues[..i] == paramValues;
    }
  }

  /** A parameter value as `Params` stores it. */
  datatype ParamValue = PInt(n: int) | PStr(s: string)

  /** The integer when `strconv.Atoi` reads one, the text otherwise. */
  function Coerce(v: string): ParamValue {
    match Text.Atoi(v)
    case Some(n) => PInt(n)
    case None => PStr(v)
  }

  /** The map `Params` fills, over the values in order. */
  function ParamsOf(names: seq<string>, values: seq<string>): map<string, ParamValue>
    requires |values| <= |names|
  {
    if values == [] then map[]
    else ParamsOf(names, values[..|values| - 1])[names[|values| - 1] := Coerce(values[|values| - 1])]
  }

  /** With distinct names, `Params` maps exactly the names that have a value,
      each to its own value. */
  lemma {:induction false} ParamsZip(names: seq<string>, values: seq<string>)
    requires |values| <= |names|
    requires forall i, j :: 0 <= i < j < |names| ==> names[i] != names[j]
    ensures forall k :: k in ParamsOf(names, values) <==> k in names[..|values|]
    ensures forall i :: 0 <= i < |values| ==> ParamsOf(names, values)[names[i]] == Coerce(values[i])
  {
    if values != [] {
      var n := |values| - 1;
      ParamsZip(names, values[..n]);
      assert names[..n + 1] == names[..n] + [names[n]];
      forall i | 0 <= i < |values|
        ensures ParamsOf(names, values)[names[i]] == Coerce(values[i])
      {
        if i < n {
          assert values[..n][i] == values[i];
        }
      }
    }
  }

  /** Integers come back as integers: the text `strconv.Itoa` writes for
      any 64-bit `int` is read back by `Params` as that integer. */
  lemma CoerceItoa(n: int)
    requires Text.MinInt64 <= n <= Text.MaxInt64
    ensures Coerce(Text.Itoa(n)) == PInt(n)
  {
    Text.AtoiItoa(n);
  }

  /** Text ending in anything but a digit stays text. */
  lemma CoerceText(v: string)
    requires v == [] || !Text.IsDigit(v[|v| - 1])
    ensures Coerce(v) == PStr(v)
  {
  }

  // ---------------------------------------------------------------------
  // Build

  /** A value of the map given to `Build`, by dynamic type. The text of a
      `float64` is carried along, since float formatting is not modelled. */
  datatype Value = VInt(i: int) | VFloat32 | VFloat64(text: string) | VString(s: string) | VOther

  /** What the replacer writes for a value: decimal for `int`, the text for
      `string`, the formatted number for `float64`, and "" for a `float32`
      (its case is empty and does not fall through) and any other type. */
  function ValueText(v: Value): string {
    match v
    case VInt(i) => Text.Itoa(i)
    case VFloat32 => ""
    case VFloat64(t) => t
    case VString(s) => s
    case VOther => ""
  }

  /** `Build`'s errors: the count check, and a run-time panic. */
  datatype BuildError = WrongCount(message: string) | Panic

  function CountMessage(given: nat, required: nat): string {
    "wrong number of parameters: " + Text.Itoa(given) + " given, " + Text.Itoa(required) + " required"
  }

  /** Where a match of `{(p)(?::\w+)?}` at the start of `s` ends: "{p}" or
      "{p:type}" with a type of one or more word bytes. The optional group is
      tried first, and its `\w+` takes the longest run. */
  function KeyMatch(s: string, p: string): (r: Option<nat>)
    ensures r.Some? ==> |p| + 2 <= r.value <= |s| && s[0] == '{' && s[r.value - 1] == '}'
  {
    var j := 1 + |p|;
    if j >= |s| || s[..j] != "{" + p then None
    else if s[j] == ':' && Template.WordRun(s, j + 1) > 0 && j + 1 + Template.WordRun(s, j + 1) < |s|
            && s[j + 1 + Template.WordRun(s, j + 1)] == '}' then
      Some(j + 2 + Template.WordRun(s, j + 1))
    else if s[j] == '}' then Some(j + 1)
    else None
  }

  /** The first alternative, in the order the regular expression lists the
      keys, that matches at the start of `s`. */
  function FirstKeyMatch(s: string, order: seq<string>): (r: Option<nat>)
    ensures r.Some? ==> 2 <= r.value <= |s| && s[0] == '{'
  {
    if order == [] then None
    else match KeyMatch(s, order[0])
      case Some(e) => Some(e)
      case None => FirstKeyMatch(s, order[1..])
  }

  /** The first match is a match of one of the keys, and there is none only
      when no key matches. */
  lemma {:induction false} FirstKeyMatchIs(s: string, order: seq<string>)
    ensures FirstKeyMatch(s, order).Some? ==> exists q :: q in order && KeyMatch(s, q) == FirstKeyMatch(s, order)
    ensures FirstKeyMatch(s, order).None? ==> forall q :: q in order ==> KeyMatch(s, q).None?
  {
    if order != [] {
      FirstKeyMatchIs(s, order[1..]);
      assert forall q :: q in order[1..] ==> q in order;
      assert forall q :: q in order ==> q == order[0] || q in order[1..];
    }
  }

  /** The replacer: the name is the text between '{' and the first ':', or
      between the braces; an unknown name becomes "". `None` stands for the
      panic of slicing a text too short to hold braces; a text that a key
      matched always holds them. */
  function Replacement(str: string, m: map<string, Value>): (r: Option<string>)
    ensures r.Some? <==> |str| >= 2 && Text.Index(str, ':') != 0
    ensures |str| >= 2 && str[0] == '{' ==> r.Some?
  {
    var i := Text.Index(str, ':');
    if i >= 1 then Some(Lookup(str[1..i], m))
    else if i < 0 && |str| >= 2 then Some(Lookup(str[1..|str| - 1], m))
    else None
  }

  /** The text for the value of a name; "" for a name the map lacks. */
  function Lookup(param: string, m: map<string, Value>): (t: string)
    ensures param !in m ==> t == []
  {
    if param in m then ValueText(m[param]) else ""
  }

  /** The replacer's slicing fails on the empty text. */
  lemma ReplacerRejectsEmpty(m: map<string, Value>)
    ensures Replacement("", m) == None
  {
  }

  /** `ReplaceAllStringFunc` with keys in `order`: from left to right, each
      match is replaced and the scan goes on after it; other bytes are kept. */
  function Substitute(s: string, order: seq<string>, m: map<string, Value>): string
    decreases |s|
  {
    if s == [] then []
    else match FirstKeyMatch(s, order)
      case Some(e) => Replacement(s[..e], m).value + Substitute(s[e..], order, m)
      case None => [s[0]] + Substitute(s[1..], order, m)
  }

  /** `Build` as written: the count check, then the substitution. With no
      parameter at all the expression joined from no alternatives is empty;
      it matches the empty text before the first byte, and the replacer
      panics on it. `order` is the order in which the map's keys were
      listed in the expression. */
  function BuildAsWritten(names: seq<string>, path: string, m: map<string, Value>, order: seq<string>)
    : (r: Result<string, BuildError>)
    ensures |names| != |m| ==> r == Err(WrongCount(CountMessage(|m|, |names|)))
    ensures |names| == |m| == 0 ==> r == Err(Panic)
  {
    if |names| != |m| then Err(WrongCount(CountMessage(|m|, |names|)))
    else if |m| == 0 then
      ReplacerRejectsEmpty(m);
      Err(Panic)
    else Ok(Substitute(path, order, m))
  }

  /** `Build` as evidently intended: a route without parameters builds to
      its own path. */
  function Build(names: seq<string>, path: string, m: map<string, Value>, order: seq<string>)
    : (r: Result<string, BuildError>)
    ensures r.Err? <==> |names| != |m|
    ensures r.Err? ==> r.error == WrongCount(CountMessage(|m|, |names|))
    ensures |names| == |m| == 0 ==> r == Ok(path)
  {
    if |names| != |m| then Err(WrongCount(CountMessage(|m|, |names|)))
    else if |m| == 0 then Ok(path)
    else Ok(Substitute(path, order, m))
  }

  /** A key that is a word matches exactly where a placeholder with that
      name starts, and the match covers the placeholder. */
  lemma KeyMatchHole(t: string, q: string)
    requires q != [] && Template.AllWord(q)
    ensures KeyMatch(t, q).Some? <==> Template.PlaceholderAt(t).Some? && Template.PlaceholderAt(t).value.name == q
    ensures KeyMatch(t, q).Some? ==> KeyMatch(t, q).value == |Template.PlaceholderAt(t).value.whole|
  {
    var j := 1 + |q|;
    if KeyMatch(t, q).Some? {
      assert t[1..j] == q;
      Template.NameRun(t, |q|);
    }
    var ph := Template.PlaceholderAt(t);
    if ph.Some? && ph.value.name == q {
      var h := ph.value;
      assert h.whole[..j] == "{" + q;
      assert t[..j] == h.whole[..j];
      assert t[j] == h.whole[j];
      assert t[1..j] == q;
      Template.NameRun(t, |q|);
    }
  }

  /** A placeholder's text names its own value. */
  lemma ReplaceHole(h: Template.Hole, m: map<string, Value>)
    requires Template.HoleOk(h)
    ensures Replacement(h.whole, m) == Some(Lookup(h.name, m))
  {
    var k := |h.name|;
    var pre := "{" + h.name;
    assert ':' !in pre by {
      forall j | 0 <= j < |pre| ensures pre[j] != ':' {
        if j > 0 { assert pre[j] == h.name[j - 1]; }
      }
    }
    if h.tag == [] {
      assert h.whole == pre + "}";
      assert h.whole[1..|h.whole| - 1] == h.name;
    } else {
      assert h.whole == pre + [':'] + (h.tag[1..] + "}");
      Text.IndexAfter(pre, ':', h.tag[1..] + "}");
      assert h.whole[1..k + 1] == h.name;
    }
  }

  /** A byte where no match starts is copied. */
  lemma SubstitutePlain(s: string, order: seq<string>, m: map<string, Value>)
    requires s != [] && FirstKeyMatch(s, order).None?
    ensures Substitute(s, order, m) == [s[0]] + Substitute(s[1..], order, m)
  {
  }

  /** Bytes other than '{' are copied as they are. */
  lemma {:induction false} SubstituteText(p: string, rest: string, order: seq<string>, m: map<string, Value>)
    requires '{' !in p
    ensures Substitute(p + rest, order, m) == p + Substitute(rest, order, m)
    decreases |p|
  {
    if p != [] {
      var s := p + rest;
      assert s[0] == p[0];
      assert s[1..] == p[1..] + rest;
      assert FirstKeyMatch(s, order).None?;
      SubstitutePlain(s, order, m);
      assert '{' !in p[1..] by {
        forall c | c in p[1..] ensures c in p { }
      }
      SubstituteText(p[1..], rest, order, m);
      assert [p[0]] + p[1..] == p;
    } else {
      assert p + rest == rest;
    }
  }

  /** What `Build` is for: a template read as its placeholders, each one
      named in the map replaced by the text of its value, each other one and
      every literal byte kept. */
  function Fill(ps: seq<Template.Piece>, w: map<string, string>): string {
    if ps == [] then []
    else match ps[0]
      case Text(c) => [c] + Fill(ps[1..], w)
      case Open(h) => (if h.name in w then w[h.name] else h.whole) + Fill(ps[1..], w)
      case Group(_) => Fill(ps[1..], w)
  }

  /** The text the replacer writes for each key. */
  function Written(m: map<string, Value>): (w: map<string, string>)
    ensures w.Keys == m.Keys
    ensures forall k :: k in m ==> w[k] == ValueText(m[k])
  {
    map k | k in m :: ValueText(m[k])
  }

  /** Where the substitution finds a match: exactly where a placeholder
      whose name is a key starts, and the match is the placeholder. */
  lemma FirstMatchHole(t: string, order: seq<string>, m: map<string, Value>)
    requires forall q :: q in m ==> q != [] && Template.AllWord(q)
    requires forall q :: q in order <==> q in m
    ensures FirstKeyMatch(t, order) ==
      var ph := Template.PlaceholderAt(t);
      if ph.Some? && ph.value.name in m then Some(|ph.value.whole|) else None
  {
    FirstKeyMatchIs(t, order);
    forall q | q in order ensures
      (KeyMatch(t, q).Some? <==> Template.PlaceholderAt(t).Some? && Template.PlaceholderAt(t).value.name == q) &&
      (KeyMatch(t, q).Some? ==> KeyMatch(t, q).value == |Template.PlaceholderAt(t).value.whole|)
    {
      KeyMatchHole(t, q);
    }
  }

  /** The rest of a placeholder that is not replaced is copied. */
  lemma HoleKept(h: Template.Hole, rest: string, order: seq<string>, m: map<string, Value>)
    requires Template.HoleOk(h)
    ensures Substitute(h.whole[1..] + rest, order, m) == h.whole[1..] + Substitute(rest, order, m)
  {
    var n := |h.whole|;
    assert '{' !in h.whole[1..] by {
      forall j | 1 <= j < n ensures h.whole[j] != '{' {
        if j <= |h.name| {
          assert h.whole[j] == h.name[j - 1];
        } else if j < n - 1 {
          assert h.whole[j] == h.tag[j - 1 - |h.name|];
          assert j - 1 - |h.name| == 0 || h.tag[j - 1 - |h.name|] == h.tag[1..][j - 2 - |h.name|];
        }
      }
    }
    SubstituteText(h.whole[1..], rest, order, m);
  }

  /** A placeholder whose name is a key is replaced by its value's text. */
  lemma SubstituteHole(t: string, h: Template.Hole, order: seq<string>, m: map<string, Value>)
    requires Template.HoleOk(h) && h.name in m
    requires t != [] && FirstKeyMatch(t, order) == Some(|h.whole|) && t[..|h.whole|] == h.whole
    ensures Substitute(t, order, m) == ValueText(m[h.name]) + Substitute(t[|h.whole|..], order, m)
  {
    ReplaceHole(h, m);
  }

  /** The substitution does what it is for: when the keys are names (word
      bytes, as placeholders have) and the expression lists exactly the
      map's keys, it fills the template's placeholders. */
  lemma {:induction false} SubstituteFills(t: string, order: seq<string>, m: map<string, Value>)
    requires forall q :: q in m ==> q != [] && Template.AllWord(q)
    requires forall q :: q in order <==> q in m
    ensures Substitute(t, order, m) == Fill(Template.Pieces(t), Written(m))
    decreases |t|
  {
    if t == [] {
    } else {
      FirstMatchHole(t, order, m);
      var ph := Template.PlaceholderAt(t);
      if ph.Some? {
        var h := ph.value;
        var tail := t[|h.whole|..];
        SubstituteFills(tail, order, m);
        FillHole(t, h, order, m);
      } else {
        SubstitutePlain(t, order, m);
        SubstituteFills(t[1..], order, m);
        var ps := Template.Pieces(t);
        assert ps == [Template.Text(t[0])] + Template.Pieces(t[1..]);
        assert ps[1..] == Template.Pieces(t[1..]);
      }
    }
  }

  /** One placeholder step of `SubstituteFills`. */
  lemma FillHole(t: string, h: Template.Hole, order: seq<string>, m: map<string, Value>)
    requires Template.PlaceholderAt(t) == Some(h)
    requires FirstKeyMatch(t, order) == if h.name in m then Some(|h.whole|) else None
    requires Substitute(t[|h.whole|..], order, m) == Fill(Template.Pieces(t[|h.whole|..]), Written(m))
    ensures Substitute(t, order, m) == Fill(Template.Pieces(t), Written(m))
  {
    Template.PlaceholderAtOk(t);
    var tail := t[|h.whole|..];
    var ps := Template.Pieces(t);
    assert ps == [Template.Open(h)] + Template.Pieces(tail);
    assert ps[1..] == Template.Pieces(tail);
    if h.name in m {
      SubstituteHole(t, h, order, m);
    } else {
      HoleCopied(t, h, order, m);
    }
  }

  /** A placeholder whose name is not a key is copied as it is. */
  lemma HoleCopied(t: string, h: Template.Hole, order: seq<string>, m: map<string, Value>)
    requires Template.HoleOk(h) && |h.whole| <= |t| && t[..|h.whole|] == h.whole
    requires FirstKeyMatch(t, order).None?
    ensures Substitute(t, order, m) == h.whole + Substitute(t[|h.whole|..], order, m)
  {
    var w := h.whole;
    assert t[..|w|] == w;
    assert [t[0]] + w[1..] == w;
    InsideHole(t, h, order, m);
    SubstitutePlain(t, order, m);
  }

  lemma InsideHole(t: string, h: Template.Hole, order: seq<string>, m: map<string, Value>)
    requires Template.HoleOk(h) && |h.whole| <= |t| && t[..|h.whole|] == h.whole
    ensures Substitute(t[1..], order, m) == h.whole[1..] + Substitute(t[|h.whole|..], order, m)
  {
    var w := h.whole;
    var tail := t[|w|..];
    assert t[..|w|] == w;
    assert t[1..] == w[1..] + tail by {
      assert t == t[..|w|] + tail;
    }
    HoleKept(h, tail, order, m);
  }

  /** With no key, no placeholder is replaced and the template is spelled
      out again. */
  lemma {:induction false} FillNothing(ps: seq<Template.Piece>)
    ensures Fill(ps, map[]) == Template.Spell(ps)
  {
    if ps != [] {
      FillNothing(ps[1..]);
    }
  }

  // ---------------------------------------------------------------------
  // Build, then match: the router reads back what `Build` wrote

  /** A placeholder the map can fill so that the route matches again: its
      value writes a non-empty text of its class. */
  predicate Fits(h: Template.Hole, w: map<string, string>) {
    h.name in w && w[h.name] != [] && Template.AllIn(Template.KindOf(h.tag), w[h.name])
  }

  /** The texts written for the placeholders, in order. */
  function Texts(hs: seq<Template.Hole>, w: map<string, string>): (ts: seq<string>)
    requires forall h :: h in hs ==> h.name in w
    ensures |ts| == |hs|
    ensures forall i :: 0 <= i < |hs| ==> ts[i] == w[hs[i].name]
  {
    if hs == [] then [] else [w[hs[0].name]] + Texts(hs[1..], w)
  }

  /** A filled template is matched by its atoms, with the written texts as
      the groups. */
  lemma {:induction false} FillSpans(ps: seq<Template.Piece>, w: map<string, string>, s: string, i: nat, j: nat,
                                     rest: seq<Template.Atom>, g: seq<string>)
    requires forall k :: 0 <= k < |ps| ==> !ps[k].Group? && (ps[k].Open? ==> Fits(ps[k].hole, w))
    requires i + |Fill(ps, w)| <= j <= |s| && s[i..i + |Fill(ps, w)|] == Fill(ps, w)
    requires Template.Spans(rest, s, i + |Fill(ps, w)|, j, g)
    ensures forall h :: h in Template.Holes(ps) ==> h.name in w
    ensures Template.Spans(Template.ToAtoms(ps) + rest, s, i, j, Texts(Template.Holes(ps), w) + g)
    decreases |ps|
  {
    if ps == [] {
      assert Template.ToAtoms(ps) + rest == rest;
      assert Fill(ps, w) == [] && Template.Holes(ps) == [];
      assert Texts(Template.Holes(ps), w) + g == g;
    } else {
      var tl := ps[1..];
      var n := |Fill(ps[..1], w)|;
      FillSplit(ps, w);
      SliceAfter(s, i, Fill(ps[..1], w), Fill(tl, w));
      FillSpans(tl, w, s, i + n, j, rest, g);
      if ps[0].Text? {
        TextPrefix(ps, w, s, i);
        TextCase(ps, w, s, i, j, rest, g);
      } else {
        OpenPrefix(ps, w, s, i);
        OpenCase(ps, w, s, i, j, rest, g);
      }
    }
  }

  /** The text of the first piece, then the rest. */
  lemma FillSplit(ps: seq<Template.Piece>, w: map<string, string>)
    requires ps != []
    ensures Fill(ps, w) == Fill(ps[..1], w) + Fill(ps[1..], w)
  {
    assert ps[..1][1..] == [];
  }

  /** Where `a + b` sits in `s`, `b` sits right after `a`. */
  lemma SliceAfter(s: string, i: nat, a: string, b: string)
    requires i + |a + b| <= |s| && s[i..i + |a + b|] == a + b
    ensures s[i + |a|..i + |a| + |b|] == b
  {
    assert s[i + |a|..i + |a| + |b|] == s[i..i + |a + b|][|a|..];
  }

  /** The atoms after the first piece's. */
  lemma AtomsTail(ps: seq<Template.Piece>, rest: seq<Template.Atom>)
    requires ps != []
    ensures (Template.ToAtoms(ps) + rest)[1..] == Template.ToAtoms(ps[1..]) + rest
  {
  }

  /** A literal piece: its atom matches its byte. */
  lemma TextCase(ps: seq<Template.Piece>, w: map<string, string>, s: string, i: nat, j: nat,
                 rest: seq<Template.Atom>, g: seq<string>)
    requires ps != [] && ps[0].Text?
    requires forall h :: h in Template.Holes(ps[1..]) ==> h.name in w
    requires i < j <= |s| && s[i] == ps[0].c
    requires Template.Spans(Template.ToAtoms(ps[1..]) + rest, s, i + 1, j, Texts(Template.Holes(ps[1..]), w) + g)
    ensures forall h :: h in Template.Holes(ps) ==> h.name in w
    ensures Template.Spans(Template.ToAtoms(ps) + rest, s, i, j, Texts(Template.Holes(ps), w) + g)
  {
    AtomsTail(ps, rest);
    TextGroups(ps, w, g);
    LitStep(Template.ToAtoms(ps) + rest, ps[0].c, s, i, j, Texts(Template.Holes(ps[1..]), w) + g);
  }

  /** A placeholder: its class matches the text written for it. */
  lemma OpenCase(ps: seq<Template.Piece>, w: map<string, string>, s: string, i: nat, j: nat,
                 rest: seq<Template.Atom>, g: seq<string>)
    requires ps != [] && ps[0].Open? && Fits(ps[0].hole, w)
    requires forall h :: h in Template.Holes(ps[1..]) ==> h.name in w
    requires var v := w[ps[0].hole.name];
      i + |v| <= j <= |s| && s[i..i + |v|] == v
      && Template.Spans(Template.ToAtoms(ps[1..]) + rest, s, i + |v|, j, Texts(Template.Holes(ps[1..]), w) + g)
    ensures forall h :: h in Template.Holes(ps) ==> h.name in w
    ensures Template.Spans(Template.ToAtoms(ps) + rest, s, i, j, Texts(Template.Holes(ps), w) + g)
  {
    var atoms, v := Template.ToAtoms(ps) + rest, w[ps[0].hole.name];
    var gt := Texts(Template.Holes(ps[1..]), w) + g;
    AtomsTail(ps, rest);
    OpenGroups(ps, w, g);
    assert Fits(ps[0].hole, w);
    ClassStep(atoms, Template.KindOf(ps[0].hole.tag), s, i, j, v, gt);
  }

  lemma TextGroups(ps: seq<Template.Piece>, w: map<string, string>, g: seq<string>)
    requires ps != [] && ps[0].Text?
    requires forall h :: h in Template.Holes(ps[1..]) ==> h.name in w
    ensures forall h :: h in Template.Holes(ps) ==> h.name in w
    ensures Texts(Template.Holes(ps), w) + g == Texts(Template.Holes(ps[1..]), w) + g
    ensures Template.ToAtoms(ps)[0] == Template.Lit(ps[0].c)
  {
  }

  lemma TextPrefix(ps: seq<Template.Piece>, w: map<string, string>, s: string, i: nat)
    requires ps != [] && ps[0].Text?
    requires Fill(ps, w) == Fill(ps[..1], w) + Fill(ps[1..], w)
    requires i + |Fill(ps, w)| <= |s| && s[i..i + |Fill(ps, w)|] == Fill(ps, w)
    ensures Fill(ps[..1], w) == [ps[0].c]
    ensures i < |s| && s[i] == ps[0].c
  {
    assert s[i] == s[i..i + |Fill(ps, w)|][0];
  }

  lemma OpenGroups(ps: seq<Template.Piece>, w: map<string, string>, g: seq<string>)
    requires ps != [] && ps[0].Open? && ps[0].hole.name in w
    requires forall h :: h in Template.Holes(ps[1..]) ==> h.name in w
    ensures forall h :: h in Template.Holes(ps) ==> h.name in w
    ensures Texts(Template.Holes(ps), w) + g
            == [w[ps[0].hole.name]] + (Texts(Template.Holes(ps[1..]), w) + g)
    ensures Template.ToAtoms(ps)[0] == Template.Class(Template.KindOf(ps[0].hole.tag))
  {
    assert Template.Holes(ps) == [ps[0].hole] + Template.Holes(ps[1..]);
  }

  lemma OpenPrefix(ps: seq<Template.Piece>, w: map<string, string>, s: string, i: nat)
    requires ps != [] && ps[0].Open? && ps[0].hole.name in w
    requires Fill(ps, w) == Fill(ps[..1], w) + Fill(ps[1..], w)
    requires i + |Fill(ps, w)| <= |s| && s[i..i + |Fill(ps, w)|] == Fill(ps, w)
    ensures Fill(ps[..1], w) == w[ps[0].hole.name]
    ensures s[i..i + |Fill(ps[..1], w)|] == Fill(ps[..1], w)
  {
    var v := Fill(ps[..1], w);
    var f := Fill(ps, w);
    assert f[..|v|] == v;
    assert s[i..i + |v|] == s[i..i + |f|][..|v|];
  }

  lemma LitStep(atoms: seq<Template.Atom>, c: char, s: string, i: nat, j: nat, gs: seq<string>)
    requires atoms != [] && atoms[0] == Template.Lit(c)
    requires i < j <= |s| && s[i] == c && Template.Spans(atoms[1..], s, i + 1, j, gs)
    ensures Template.Spans(atoms, s, i, j, gs)
  {
  }

  lemma ClassStep(atoms: seq<Template.Atom>, k: Template.Kind, s: string, i: nat, j: nat, v: string, gt: seq<string>)
    requires atoms != [] && atoms[0] == Template.Class(k)
    requires i + |v| <= j <= |s| && v != [] && s[i..i + |v|] == v
    requires Template.AllIn(k, v)
    requires Template.Spans(atoms[1..], s, i + |v|, j, gt)
    ensures Template.Spans(atoms, s, i, j, [v] + gt)
  {
    assert ([v] + gt)[1..] == gt;
  }

  /** On a route without parameters, `Build` as written panics where the
      corrected one returns the path. */
  lemma StaticRouteBuild(path: string, order: seq<string>)
    ensures BuildAsWritten([], path, map[], order) == Err(Panic)
    ensures Build([], path, map[], order) == Ok(path)
  {
  }

  /** Reverse routing inverts matching: when every placeholder of a
      template (whose placeholders each fill a whole segment) is given a
      value that writes a non-empty text of its class, and the map has one
      key per parameter, `Build` succeeds and the route's expression accepts
      the built path, capturing exactly the written texts in order.  When
      the template has a placeholder, `Build` as written gives the same
      path; when it has none, `Build` as written panics. */
  lemma BuildThenMatch(path: string, m: map<string, Value>, order: seq<string>)
    requires forall q :: q in m ==> q != [] && Template.AllWord(q)
    requires forall q :: q in order <==> q in m
    requires |Template.Holes(Template.Pieces(path))| == |m|
    requires forall k :: 0 <= k < |Template.Pieces(path)| && Template.Pieces(path)[k].Open? ==>
               Fits(Template.Pieces(path)[k].hole, Written(m))
    requires Template.Separated(Template.Compile(path))
    ensures var names := Template.Names(Template.Holes(Template.Pieces(path)));
      Build(names, path, m, order).Ok?
      && (forall h :: h in Template.Holes(Template.Pieces(path)) ==> h.name in Written(m))
      && Template.Accept(Template.Compile(path), Build(names, path, m, order).value)
         == Some(Texts(Template.Holes(Template.Pieces(path)), Written(m)))
    ensures var names := Template.Names(Template.Holes(Template.Pieces(path)));
      (|m| > 0 ==> BuildAsWritten(names, path, m, order) == Build(names, path, m, order))
      && (|m| == 0 ==> BuildAsWritten(names, path, m, order) == Err(Panic))
  {
    var ps := Template.Pieces(path);
    var w := Written(m);
    var f := Fill(ps, w);
    if |m| == 0 {
      assert w == map[];
      FillNothing(ps);
      Template.SpellPieces(path);
    } else {
      SubstituteFills(path, order, m);
    }
    assert Template.Spans([Template.OptSlash], f, |f|, |f|, []);
    assert f[0..|f|] == f;
    FillSpans(ps, w, f, 0, |f|, [Template.OptSlash], []);
    assert Texts(Template.Holes(ps), w) + [] == Texts(Template.Holes(ps), w);
    Template.AcceptExactly(Template.Compile(path), f, Texts(Template.Holes(ps), w));
  }
}
