/** The segment-wise URI matcher of package `rest` (router_util.go, and its
    copy route_util.go, whose `NewRouteUri` inlines the pattern mapper): a
    template and a path are split on '/', `{name:type}` segments of the
    template are typed placeholders, and the two are compared segment by
    segment, recording the text of every accepted placeholder. */
module UriMatch {
  import opened Wrappers
  import Text

  /** The placeholder type tags. */
  const IntParam := "i"
  const AlphaParam := "a"
  const AlphaNumParam := "an"
  /** The tag of `{name}` without a colon; like every unknown tag, it accepts
      anything. */
  const AnythingParam := ""

  datatype Pattern = Pattern(key: string, allowed: string)

  /** A captured placeholder: its name and the path segment it matched. */
  datatype Param = Param(name: string, value: string)

  datatype RouteUri = RouteUri(parts: seq<string>, patterns: map<int, Pattern>)

  /** A template segment is a placeholder when it is wrapped in braces. */
  predicate IsPlaceholder(part: string) {
    |part| > 0 && part[0] == '{' && part[|part| - 1] == '}'
  }

  /** The template text of a placeholder, `{key:allowed}`. */
  function Render(p: Pattern): string {
    "{" + p.key + ":" + p.allowed + "}"
  }

  /** The classification of one template segment: the name is the text
      before the first ':' and the type the text after it; without a ':' the
      whole inner text is the name and the type is empty. */
  function ParsePart(part: string): (r: Option<Pattern>)
    ensures r.Some? <==> IsPlaceholder(part)
  {
    if IsPlaceholder(part) then
      var i := Text.Index(part, ':');
      if i >= 0 then Some(Pattern(part[1..i], part[i + 1..|part| - 1]))
      else Some(Pattern(part[1..|part| - 1], AnythingParam))
    else None
  }

  /** Without a ':' the whole text inside the braces is the name, and the
      type is empty. */
  lemma ParseNoColon(part: string)
    requires IsPlaceholder(part) && ':' !in part
    ensures ParsePart(part) == Some(Pattern(part[1..|part| - 1], AnythingParam))
  {
  }

  /** With a ':' the name is the colon-free text before the first one, and
      name and type written back give the segment. */
  lemma ParseColon(part: string)
    requires IsPlaceholder(part) && ':' in part
    ensures ':' !in ParsePart(part).value.key && Render(ParsePart(part).value) == part
  {
    ColonAt(part, Text.Index(part, ':'));
  }

  /** A placeholder cut at its first ':'. */
  lemma ColonAt(part: string, i: int)
    requires IsPlaceholder(part) && 0 <= i < |part| && part[i] == ':' && ':' !in part[..i]
    ensures 1 <= i <= |part| - 2
    ensures ':' !in part[1..i]
    ensures Render(Pattern(part[1..i], part[i + 1..|part| - 1])) == part
  {
    var n := |part|;
    assert part[..1] == "{" && part[i..i + 1] == ":" && part[n - 1..] == "}";
    assert part == part[..1] + part[1..i] + part[i..i + 1] + part[i + 1..n - 1] + part[n - 1..];
    forall j | 0 <= j < i - 1
      ensures part[1..i][j] != ':'
    {
      assert part[1..i][j] == part[..i][j + 1];
    }
  }

  /** Classifying a written-out placeholder gives it back, as long as its
      name has no ':' (the first ':' ends the name). */
  lemma ParseRender(p: Pattern)
    requires ':' !in p.key
    ensures ParsePart(Render(p)) == Some(p)
  {
    var part := Render(p);
    assert part[1..|part| - 1] == p.key + ":" + p.allowed;
    assert ':' in part by {
      assert part[|p.key| + 1] == ':';
    }
    ParseColon(part);
    var q := ParsePart(part).value;
    assert "{" + q.key + ":" + q.allowed + "}" == "{" + p.key + ":" + p.allowed + "}";
    ColonSplit(q.key, q.allowed, p.key, p.allowed);
  }

  /** Text around a first ':' is determined by where that ':' is. */
  lemma ColonSplit(k1: string, a1: string, k2: string, a2: string)
    requires ':' !in k1 && ':' !in k2
    requires "{" + k1 + ":" + a1 + "}" == "{" + k2 + ":" + a2 + "}"
    ensures k1 == k2 && a1 == a2
  {
    var t := ("{" + k1 + ":" + a1 + "}")[1..];
    assert t == k1 + (":" + a1 + "}") == k2 + (":" + a2 + "}");
    FirstColon(k1, ":" + a1 + "}");
    FirstColon(k2, ":" + a2 + "}");
    assert k1 == t[..|k1|] == k2;
    assert ":" + a1 + "}" == ":" + a2 + "}";
    assert a1 == (":" + a1 + "}")[1..|a1| + 1];
    assert a2 == (":" + a2 + "}")[1..|a2| + 1];
  }

  /** A colon-free prefix ends at the first ':' of the text. */
  lemma FirstColon(k: string, rest: string)
    requires ':' !in k && |rest| > 0 && rest[0] == ':'
    ensures Text.Index(k + rest, ':') == |k|
  {
    var t := k + rest;
    var r := Text.Index(t, ':');
    assert t[|k|] == ':';
    assert forall j :: 0 <= j < |k| ==> t[j] == k[j];
    forall j | 0 <= j < r
      ensures t[j] != ':'
    {
      assert t[..r][j] == t[j];
    }
  }

  /** The patterns of a split template, keyed by segment index. */
  function PatternsOf(parts: seq<string>): map<int, Pattern> {
    map i | 0 <= i < |parts| && ParsePart(parts[i]).Some? :: ParsePart(parts[i]).value
  }

  /** `newRouteUri`: the template split on '/', and its placeholders. */
  function RouteUriOf(path: string): RouteUri {
    var parts := Text.Split(path, '/');
    RouteUri(parts, PatternsOf(parts))
  }

  /** `routePatternMapperFunc` with the callback of `newRouteUri`, which
      stores each placeholder under its segment index (the same loop is
      written inline in `NewRouteUri`). */
  method MapPatterns(parts: seq<string>) returns (patterns: map<int, Pattern>)
    ensures forall i :: i in patterns <==> 0 <= i < |parts| && IsPlaceholder(parts[i])
    ensures forall i :: i in patterns ==> Some(patterns[i]) == ParsePart(parts[i])
  {
    patterns := map[];
    var i := 0;
    while i < |parts|
      invariant 0 <= i <= |parts|
      invariant forall j :: j in patterns <==> 0 <= j < i && IsPlaceholder(parts[j])
      invariant forall j :: j in patterns ==> Some(patterns[j]) == ParsePart(parts[j])
    {
      var part := parts[i];
      if |part| > 0 && part[0] == '{' && part[|part| - 1] == '}' {
        var param := part[1..|part| - 1];
        var pType := AnythingParam;
        var index := Text.Index(part, ':');
        if index >= 0 {
          param := part[1..index];
          pType := part[index + 1..|part| - 1];
        }
        assert Some(Pattern(param, pType)) == ParsePart(part);
        patterns := patterns[i := Pattern(param, pType)];
      }
      i := i + 1;
    }
  }

  /** `newRouteUri` / `NewRouteUri`. */
  method NewRouteUri(path: string) returns (uri: RouteUri)
    ensures uri == RouteUriOf(path)
  {
    var parts := Text.Split(path, '/');
    var patterns := MapPatterns(parts);
    assert patterns == PatternsOf(parts);
    uri := RouteUri(parts, patterns);
  }

  /** The path side of a match: its segments, and the map `match` writes
      the captured placeholders into. */
  class TestUri {
    var parts: seq<string>
    var params: map<int, Param>

    /** `newTestUri` / `NewTestUri`. */
    constructor (path: string)
      ensures parts == Text.Split(path, '/') && params == map[]
    {
      parts := Text.Split(path, '/');
      params := map[];
    }
  }

  /** Whether a placeholder of type `allowed` accepts a path segment: `i`
      needs `strconv.Atoi` to succeed, `a` only letters, `an` only letters or
      digits, and any other tag accepts everything. */
  predicate Accepts(allowed: string, segment: string) {
    if allowed == IntParam then Text.Atoi(segment).Some?
    else if allowed == AlphaParam then Text.AllLetters(segment)
    else if allowed == AlphaNumParam then Text.AllLettersOrDigits(segment)
    else true
  }

  /** Segment `i` of the path agrees with the template: a placeholder's type
      accepts it, or it equals the literal template segment. */
  predicate SegmentOk(route: RouteUri, parts: seq<string>, i: int)
    requires |route.parts| == |parts| && 0 <= i < |parts|
  {
    if i in route.patterns then Accepts(route.patterns[i].allowed, parts[i])
    else route.parts[i] == parts[i]
  }

  /** The first index from `i` on whose segment disagrees, or the number of
      segments when none does. */
  function FirstFail(route: RouteUri, parts: seq<string>, i: nat): (k: nat)
    requires |route.parts| == |parts| && i <= |parts|
    ensures i <= k <= |parts|
    ensures forall j :: i <= j < k ==> SegmentOk(route, parts, j)
    ensures k < |parts| ==> !SegmentOk(route, parts, k)
    decreases |parts| - i
  {
    if i == |parts| || !SegmentOk(route, parts, i) then i else FirstFail(route, parts, i + 1)
  }

  /** The path matches the template. */
  predicate Matches(route: RouteUri, parts: seq<string>) {
    |route.parts| == |parts| && FirstFail(route, parts, 0) == |parts|
  }

  /** The placeholders among the first `n` segments, with the path text. */
  function Captured(route: RouteUri, parts: seq<string>, n: int): map<int, Param>
    requires n <= |parts|
  {
    map i | 0 <= i < n && i in route.patterns :: Param(route.patterns[i].key, parts[i])
  }

  /** `match`: false when the segment counts differ; otherwise the segments
      are checked in order and the first one that disagrees ends the match
      with false. Every placeholder before that point has been recorded in
      `test.params`, and those entries stay even when the match fails. */
  method Match(route: RouteUri, test: TestUri) returns (ok: bool)
    modifies test
    ensures test.parts == old(test.parts)
    ensures ok <==> Matches(route, test.parts)
    ensures |route.parts| != |test.parts| ==> test.params == old(test.params)
    ensures |route.parts| == |test.parts| ==>
              test.params == old(test.params) + Captured(route, test.parts, FirstFail(route, test.parts, 0))
  {
    if |route.parts| != |test.parts| {
      return false;
    }
    var parts := test.parts;
    var i := 0;
    while i < |parts|
      invariant 0 <= i <= |parts| && test.parts == parts
      invariant forall j :: 0 <= j < i ==> SegmentOk(route, parts, j)
      invariant test.params == old(test.params) + Captured(route, parts, i)
    {
      var a := route.parts[i];
      var b := parts[i];
      if i in route.patterns {
        var accepted := CheckSegment(route.patterns[i].allowed, b);
        if !accepted {
          FailsAt(route, parts, i);
          return false;
        }
        CapturedStep(old(test.params), route, parts, i);
        test.params := test.params[i := Param(route.patterns[i].key, b)];
      } else if a != b {
        FailsAt(route, parts, i);
        return false;
      } else {
        CapturedStep(old(test.params), route, parts, i);
      }
      i := i + 1;
    }
    FailsAt(route, parts, i);
    return true;
  }

  /** The type check of one placeholder segment in `match`. */
  method CheckSegment(allowed: string, testPart: string) returns (accepted: bool)
    ensures accepted <==> Accepts(allowed, testPart)
  {
    accepted := true;
    if allowed == IntParam {
      accepted := Text.Atoi(testPart).Some?;
    } else if allowed == AlphaParam {
      accepted := AllOf(testPart, false);
    } else if allowed == AlphaNumParam {
      accepted := AllOf(testPart, true);
    }
  }

  /** When every segment before `i` agrees and segment `i` does not (or
      there is none), the match stops at `i`. */
  lemma FailsAt(route: RouteUri, parts: seq<string>, i: nat)
    requires |route.parts| == |parts| && i <= |parts|
    requires forall j :: 0 <= j < i ==> SegmentOk(route, parts, j)
    requires i < |parts| ==> !SegmentOk(route, parts, i)
    ensures FirstFail(route, parts, 0) == i
  {
  }

  /** One more segment adds its placeholder, if it has one. */
  lemma CapturedStep(params: map<int, Param>, route: RouteUri, parts: seq<string>, i: int)
    requires 0 <= i < |parts|
    ensures i in route.patterns ==>
              params + Captured(route, parts, i + 1)
              == (params + Captured(route, parts, i))[i := Param(route.patterns[i].key, parts[i])]
    ensures i !in route.patterns ==> params + Captured(route, parts, i + 1) == params + Captured(route, parts, i)
  {
    if i in route.patterns {
      assert Captured(route, parts, i + 1) == Captured(route, parts, i)[i := Param(route.patterns[i].key, parts[i])];
    } else {
      assert Captured(route, parts, i + 1) == Captured(route, parts, i);
    }
  }

  /** The rune loops of `match`: every character is a letter, or (with
      `orDigit`) a letter or a digit; the first one that is not ends the loop. */
  method AllOf(s: string, orDigit: bool) returns (ok: bool)
    ensures ok <==> if orDigit then Text.AllLettersOrDigits(s) else Text.AllLetters(s)
  {
    var i := 0;
    while i < |s|
      invariant 0 <= i <= |s|
      invariant forall j :: 0 <= j < i ==> Text.IsLetter(s[j]) || (orDigit && Text.IsDigit(s[j]))
    {
      if !Text.IsLetter(s[i]) && !(orDigit && Text.IsDigit(s[i])) {
        return false;
      }
      i := i + 1;
    }
    return true;
  }

  /** A match is exactly: as many segments, and every one of them agrees. */
  lemma MatchesEverySegment(route: RouteUri, parts: seq<string>)
    ensures Matches(route, parts) <==>
              |route.parts| == |parts| && forall i :: 0 <= i < |parts| ==> SegmentOk(route, parts, i)
  {
  }

  /** An empty segment fails an `i` placeholder (`strconv.Atoi("")` is an
      error) and passes every other type vacuously. */
  lemma EmptySegment(allowed: string)
    ensures Accepts(allowed, "") <==> allowed != IntParam
  {
  }

  /** A template with no placeholder matches exactly the paths equal to it. */
  lemma {:induction false} LiteralTemplate(template: string, path: string)
    requires forall i :: 0 <= i < |Text.Split(template, '/')| ==> !IsPlaceholder(Text.Split(template, '/')[i])
    ensures Matches(RouteUriOf(template), Text.Split(path, '/')) <==> template == path
  {
    var route := RouteUriOf(template);
    var parts := Text.Split(path, '/');
    assert route.patterns == map[];
    if Matches(route, parts) {
      MatchesEverySegment(route, parts);
      assert route.parts == parts by {
        forall i | 0 <= i < |parts|
          ensures route.parts[i] == parts[i]
        {
          assert SegmentOk(route, parts, i);
        }
      }
      Text.JoinSplit(template, '/');
      Text.JoinSplit(path, '/');
    }
    if template == path {
      MatchesEverySegment(route, parts);
    }
  }
}
