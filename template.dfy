/** The route templates of router.go and the regular expressions `initRoute`
    compiles them to. A template such as /people/{id:i}/details/{name} is
    read as the placeholders that `{(\w+)(:\w+)?}` finds (section "pieces"),
    every placeholder is replaced by a character class chosen by its type tag
    (`i` digits, `a` letters, `an` letters or digits, anything else a run of
    non-'/' characters), and "/?" is appended. The compiled expression is a
    list of atoms; Go's leftmost-first regexp semantics on such a list is the
    first success of a greedy backtracking search, which `Run` computes. */
module Template {
  import opened Wrappers
  import Text

  // ---------------------------------------------------------------------
  // Pieces: the placeholders `{(\w+)(:\w+)?}` finds in a template

  /** `\w`: an ASCII letter, digit or underscore. */
  predicate IsWord(c: char) {
    Text.IsLetter(c) || Text.IsDigit(c) || c == '_'
  }

  predicate AllWord(s: string) {
    forall i :: 0 <= i < |s| ==> IsWord(s[i])
  }

  /** A placeholder occurrence: its whole text, its name (the first group)
      and its tag (the second group: ":type", or "" when absent). */
  datatype Hole = Hole(whole: string, name: string, tag: string)

  /** A template read left to right: a literal byte, a placeholder not yet
      replaced, or a character class that replaced one. */
  datatype Piece = Text(c: char) | Open(hole: Hole) | Group(kind: Kind)

  /** The character classes of `regMap`, and `[^/]` for every other tag. */
  datatype Kind = Digits | Letters | Alnum | NotSlash

  /** A well-formed tag: empty, or ':' followed by one or more word bytes. */
  predicate TagOk(tag: string) {
    tag == [] || (|tag| > 1 && tag[0] == ':' && AllWord(tag[1..]))
  }

  /** The text `{name}` or `{name:type}` of a placeholder. */
  predicate HoleOk(h: Hole) {
    h.name != [] && AllWord(h.name) && TagOk(h.tag) && h.whole == "{" + h.name + h.tag + "}"
  }

  /** The length of the run of word bytes of `t` from `i`. */
  function WordRun(t: string, i: nat): (n: nat)
    requires i <= |t|
    ensures i + n <= |t|
    ensures AllWord(t[i..i + n])
    ensures i + n < |t| ==> !IsWord(t[i + n])
    decreases |t| - i
  {
    if i == |t| || !IsWord(t[i]) then 0
    else
      var n := WordRun(t, i + 1);
      assert t[i..i + 1 + n] == [t[i]] + t[i + 1..i + 1 + n];
      1 + n
  }

  /** The match of `{(\w+)(:\w+)?}` that starts the text, if there is one. */
  function PlaceholderAt(t: string): (r: Option<Hole>)
    ensures r.Some? ==> |r.value.whole| <= |t|
  {
    if |t| == 0 || t[0] != '{' then None
    else
      var n := WordRun(t, 1);
      if n == 0 || 1 + n >= |t| then None
      else if t[1 + n] == '}' then Some(Hole(t[..n + 2], t[1..1 + n], t[1 + n..1 + n]))
      else if t[1 + n] == ':' then
        var m := WordRun(t, n + 2);
        if m == 0 || n + 2 + m >= |t| || t[n + 2 + m] != '}' then None
        else Some(Hole(t[..n + 3 + m], t[1..1 + n], t[1 + n..n + 2 + m]))
      else None
  }

  /** What `PlaceholderAt` finds is a well-formed placeholder, and the text
      starts with it. */
  lemma PlaceholderAtOk(t: string)
    requires PlaceholderAt(t).Some?
    ensures HoleOk(PlaceholderAt(t).value)
    ensures t[..|PlaceholderAt(t).value.whole|] == PlaceholderAt(t).value.whole
  {
    var n := WordRun(t, 1);
    if t[1 + n] == '}' {
      BracedOk(t, 1 + n, 1 + n);
    } else {
      BracedOk(t, 1 + n, n + 2 + WordRun(t, n + 2));
    }
  }

  /** A text `{` name tag `}` with a word name ending at `a` and a
      well-formed tag from `a` to the closing brace at `b`. */
  lemma BracedOk(t: string, a: nat, b: nat)
    requires 1 < a <= b < |t| && t[0] == '{' && t[b] == '}'
    requires AllWord(t[1..a]) && TagOk(t[a..b])
    ensures HoleOk(Hole(t[..b + 1], t[1..a], t[a..b]))
    ensures |t[..b + 1]| == b + 1
  {
    BraceSplit(t, a, b);
  }

  /** A text opened by '{' and closed by '}' at `b`, cut at `a`. */
  lemma BraceSplit(t: string, a: nat, b: nat)
    requires 1 <= a <= b < |t| && t[0] == '{' && t[b] == '}'
    ensures t[..b + 1] == "{" + t[1..a] + t[a..b] + "}"
  {
    assert t[..b + 1] == t[..1] + t[1..a] + t[a..b] + t[b..b + 1];
  }

  /** Where the name, the tag and the closing brace of a written-out
      placeholder sit in a text it starts. */
  lemma WholePrefix(h: Hole, rest: string)
    requires HoleOk(h)
    ensures var t, k, g := h.whole + rest, |h.name|, |h.tag|;
      1 + k + g < |t| && t[0] == '{' && t[1..1 + k] == h.name && t[1 + k..1 + k + g] == h.tag
      && t[1 + k + g] == '}' && |h.whole| == k + g + 2 && t[..|h.whole|] == h.whole
      && (g > 0 ==> t[1 + k] == ':' && AllWord(t[k + 2..1 + k + g]))
      && AllWord(t[1..1 + k])
  {
    var t, k, g := h.whole + rest, |h.name|, |h.tag|;
    assert t == "{" + h.name + h.tag + "}" + rest;
    assert t[1..1 + k] == h.name;
    assert t[1 + k..1 + k + g] == h.tag;
    if g > 0 {
      assert t[1 + k] == h.tag[0];
      assert t[1 + k + 1..1 + k + g] == h.tag[1..];
    }
  }

  /** A written-out placeholder is found again, whatever follows it: its
      closing brace ends the match. */
  lemma PlaceholderOfText(h: Hole, rest: string)
    requires HoleOk(h)
    ensures PlaceholderAt(h.whole + rest) == Some(h)
  {
    if h.tag == [] {
      PlainOfText(h, rest);
    } else {
      TaggedOfText(h, rest);
    }
  }

  lemma PlainOfText(h: Hole, rest: string)
    requires HoleOk(h) && h.tag == []
    ensures PlaceholderAt(h.whole + rest) == Some(h)
  {
    var t, k := h.whole + rest, |h.name|;
    WholePrefix(h, rest);
    NameRun(t, k);
    assert t[1 + k..1 + k] == h.tag;
  }

  lemma TaggedOfText(h: Hole, rest: string)
    requires HoleOk(h) && h.tag != []
    ensures PlaceholderAt(h.whole + rest) == Some(h)
  {
    WholePrefix(h, rest);
    TaggedAt(h.whole + rest, 1 + |h.name|, 1 + |h.name| + |h.tag|);
  }

  /** `PlaceholderAt` on a text with a word name ending at `a` in ':' and a
      word type ending at `b` in '}'. */
  lemma TaggedAt(t: string, a: nat, b: nat)
    requires 1 < a && a + 1 < b < |t| && t[0] == '{' && t[a] == ':' && t[b] == '}'
    requires AllWord(t[1..a]) && AllWord(t[a + 1..b])
    ensures PlaceholderAt(t) == Some(Hole(t[..b + 1], t[1..a], t[a..b]))
  {
    WordRunIs(t, 1, a);
    WordRunIs(t, a + 1, b);
    var n, m := a - 1, b - a - 1;
    assert 1 + n == a && n + 2 == a + 1 && n + 2 + m == b && n + 3 + m == b + 1;
  }

  /** The name of a placeholder is a full run of word bytes. */
  lemma NameRun(t: string, k: nat)
    requires 1 + k < |t| && AllWord(t[1..1 + k]) && !IsWord(t[1 + k])
    ensures WordRun(t, 1) == k
  {
    WordRunIs(t, 1, 1 + k);
  }

  /** A run of word bytes ended by a non-word byte is what `WordRun` finds. */
  lemma {:induction false} WordRunIs(t: string, i: nat, j: nat)
    requires i <= j < |t| && AllWord(t[i..j]) && !IsWord(t[j])
    ensures WordRun(t, i) == j - i
    decreases j - i
  {
    if i < j {
      assert t[i] == t[i..j][0];
      assert t[i + 1..j] == t[i..j][1..];
      WordRunIs(t, i + 1, j);
    }
  }

  /** Two placeholders with the same text are the same placeholder. */
  lemma SameWhole(h1: Hole, h2: Hole)
    requires HoleOk(h1) && HoleOk(h2) && h1.whole == h2.whole
    ensures h1 == h2
  {
    PlaceholderOfText(h1, []);
    PlaceholderOfText(h2, []);
    assert h1.whole + [] == h1.whole && h2.whole + [] == h2.whole;
  }

  /** The template read as `regParam.FindAllStringSubmatch` reads it: at each
      position a placeholder if one starts there, otherwise one literal byte. */
  function Pieces(t: string): (ps: seq<Piece>)
    ensures forall j :: 0 <= j < |ps| ==> !ps[j].Group?
    ensures forall j :: 0 <= j < |ps| && ps[j].Open? ==> HoleOk(ps[j].hole)
    decreases |t|
  {
    if t == [] then []
    else match PlaceholderAt(t)
      case Some(h) => PlaceholderAtOk(t); [Open(h)] + Pieces(t[|h.whole|..])
      case None => [Text(t[0])] + Pieces(t[1..])
  }

  /** The text the pieces stand for. */
  function Spell(ps: seq<Piece>): string {
    if ps == [] then []
    else match ps[0]
      case Text(c) => [c] + Spell(ps[1..])
      case Open(h) => h.whole + Spell(ps[1..])
      case Group(_) => Spell(ps[1..])
  }

  /** Reading a template loses nothing: its pieces spell it out again. */
  lemma {:induction false} SpellPieces(t: string)
    ensures Spell(Pieces(t)) == t
    decreases |t|
  {
    if t != [] {
      var r := PlaceholderAt(t);
      if r.Some? {
        var h := r.value;
        var rest := t[|h.whole|..];
        assert Pieces(t) == [Open(h)] + Pieces(rest);
        SpellPieces(rest);
        SpellCons(Open(h), Pieces(rest));
        assert t == t[..|h.whole|] + rest;
      } else {
        assert Pieces(t) == [Text(t[0])] + Pieces(t[1..]);
        SpellPieces(t[1..]);
        SpellCons(Text(t[0]), Pieces(t[1..]));
        assert t == [t[0]] + t[1..];
      }
    }
  }

  lemma SpellCons(p: Piece, ps: seq<Piece>)
    ensures Spell([p] + ps) == Spell([p]) + Spell(ps)
  {
    assert ([p] + ps)[1..] == ps;
    assert [p][1..] == [];
  }

  /** The found placeholders, in order (`toSub`). */
  function Holes(ps: seq<Piece>): seq<Hole> {
    if ps == [] then []
    else if ps[0].Open? then [ps[0].hole] + Holes(ps[1..])
    else Holes(ps[1..])
  }

  /** Every found placeholder is one of the pieces. */
  lemma {:induction false} HoleIsOpen(ps: seq<Piece>, h: Hole)
    requires h in Holes(ps)
    ensures Open(h) in ps
  {
    if ps[0] != Open(h) {
      HoleIsOpen(ps[1..], h);
      assert Open(h) in ps[1..];
    }
  }

  /** The parameter names, in placeholder order. */
  function Names(hs: seq<Hole>): (names: seq<string>)
    ensures |names| == |hs|
    ensures forall i :: 0 <= i < |hs| ==> names[i] == hs[i].name
  {
    if hs == [] then [] else [hs[0].name] + Names(hs[1..])
  }

  /** The class `regMap` gives a tag: `i`, `a` and `an` after the ':', and
      `[^/]` when the tag is missing or unknown. */
  function KindOf(tag: string): (k: Kind)
    ensures k != NotSlash <==> |tag| > 1 && tag[1..] in {"i", "a", "an"}
  {
    if |tag| > 1 && tag[1..] == "i" then Digits
    else if |tag| > 1 && tag[1..] == "a" then Letters
    else if |tag| > 1 && tag[1..] == "an" then Alnum
    else NotSlash
  }

  /** `strings.Replace(regString, whole, regex, -1)`: every occurrence of
      the placeholder text `whole` becomes the class `k`. */
  function Replace(ps: seq<Piece>, whole: string, k: Kind): (qs: seq<Piece>)
    ensures |qs| == |ps|
    ensures forall j :: 0 <= j < |ps| ==>
              qs[j] == if ps[j].Open? && ps[j].hole.whole == whole then Group(k) else ps[j]
  {
    if ps == [] then []
    else [if ps[0].Open? && ps[0].hole.whole == whole then Group(k) else ps[0]]
         + Replace(ps[1..], whole, k)
  }

  // ---------------------------------------------------------------------
  // Atoms: the compiled expression

  /** A literal byte, a greedy one-or-more run of a class (a capture group),
      or the optional trailing '/'. */
  datatype Atom = Lit(c: char) | Class(kind: Kind) | OptSlash

  predicate InClass(k: Kind, c: char) {
    match k
    case Digits => Text.IsDigit(c)
    case Letters => Text.IsLetter(c)
    case Alnum => Text.IsLetter(c) || Text.IsDigit(c)
    case NotSlash => c != '/'
  }

  /** Every byte of `t` is in class `k`. */
  predicate AllIn(k: Kind, t: string) {
    forall q :: 0 <= q < |t| ==> InClass(k, t[q])
  }

  /** Every class leaves out '/', so a group never spans two segments. */
  lemma ClassesExcludeSlash(k: Kind)
    ensures !InClass(k, '/')
  {
  }

  /** The atoms of a template once every placeholder is a class. */
  function ToAtoms(ps: seq<Piece>): (atoms: seq<Atom>)
    ensures |atoms| == |ps|
  {
    if ps == [] then []
    else
      var a := match ps[0]
        case Text(c) => Lit(c)
        case Open(h) => Class(KindOf(h.tag))
        case Group(k) => Class(k);
      [a] + ToAtoms(ps[1..])
  }

  /** The expression `initRoute` compiles a template to: every placeholder
      its class, then "/?". */
  function Compile(t: string): seq<Atom> {
    ToAtoms(Pieces(t)) + [OptSlash]
  }

  /** `initRoute`'s loop over the found placeholders: the names in order,
      and every placeholder text replaced by its class in the expression
      text. Replacing all occurrences of a text at once is the same as
      replacing each placeholder by its own class, because a placeholder's
      text determines its tag. */
  method CompileRoute(path: string) returns (params: seq<string>, regString: seq<Piece>)
    ensures params == Names(Holes(Pieces(path)))
    ensures forall j :: 0 <= j < |regString| ==> !regString[j].Open?
    ensures ToAtoms(regString) + [OptSlash] == Compile(path)
  {
    var pieces := Pieces(path);
    var toSub := Holes(pieces);
    regString := pieces;
    params := [];
    var i := 0;
    while i < |toSub|
      invariant 0 <= i <= |toSub| && |regString| == |pieces|
      invariant params == Names(toSub[..i])
      invariant forall j :: 0 <= j < |pieces| ==>
                  regString[j] == if pieces[j].Open? && pieces[j].hole in toSub[..i]
                                  then Group(KindOf(pieces[j].hole.tag)) else pieces[j]
    {
      var h := toSub[i];
      params := params + [h.name];
      assert toSub[..i + 1] == toSub[..i] + [h];
      NamesAppend(toSub[..i], h);
      HoleIsOpen(pieces, h);
      ReplaceKeeps(pieces, regString, toSub[..i], h);
      regString := Replace(regString, h.whole, KindOf(h.tag));
      i := i + 1;
    }
    assert toSub[..i] == toSub;
    AllHolesFound(pieces);
    ToAtomsSame(regString, pieces);
  }

  /** One turn of `CompileRoute`'s loop: replacing the text of one more
      placeholder turns exactly the pieces that are that placeholder into its
      class. */
  lemma ReplaceKeeps(pieces: seq<Piece>, rs: seq<Piece>, done: seq<Hole>, h: Hole)
    requires |rs| == |pieces| && Open(h) in pieces
    requires forall j :: 0 <= j < |pieces| && pieces[j].Open? ==> HoleOk(pieces[j].hole)
    requires forall j :: 0 <= j < |pieces| ==>
               rs[j] == if pieces[j].Open? && pieces[j].hole in done
                        then Group(KindOf(pieces[j].hole.tag)) else pieces[j]
    ensures forall j :: 0 <= j < |pieces| ==>
              Replace(rs, h.whole, KindOf(h.tag))[j]
              == if pieces[j].Open? && pieces[j].hole in done + [h]
                 then Group(KindOf(pieces[j].hole.tag)) else pieces[j]
  {
    var q :| 0 <= q < |pieces| && pieces[q] == Open(h);
    forall j | 0 <= j < |pieces| && pieces[j].Open? && pieces[j].hole.whole == h.whole
      ensures pieces[j].hole == h
    {
      SameWhole(pieces[j].hole, h);
    }
  }

  lemma NamesAppend(hs: seq<Hole>, h: Hole)
    ensures Names(hs + [h]) == Names(hs) + [h.name]
  {
  }

  /** Every placeholder piece is among the found placeholders. */
  lemma {:induction false} AllHolesFound(ps: seq<Piece>)
    ensures forall j :: 0 <= j < |ps| && ps[j].Open? ==> ps[j].hole in Holes(ps)
  {
    if ps != [] {
      AllHolesFound(ps[1..]);
      forall j | 0 <= j < |ps| && ps[j].Open?
        ensures ps[j].hole in Holes(ps)
      {
        if j > 0 {
          assert ps[1..][j - 1] == ps[j];
        }
      }
    }
  }

  /** Pieces that agree up to replacing placeholders by their own classes
      give the same atoms. */
  lemma {:induction false} ToAtomsSame(qs: seq<Piece>, ps: seq<Piece>)
    requires |qs| == |ps|
    requires forall j :: 0 <= j < |ps| ==>
               qs[j] == if ps[j].Open? then Group(KindOf(ps[j].hole.tag)) else ps[j]
    ensures ToAtoms(qs) == ToAtoms(ps)
  {
    if ps != [] {
      ToAtomsSame(qs[1..], ps[1..]);
    }
  }

  /** The number of capture groups of an expression. */
  function GroupCount(atoms: seq<Atom>): nat {
    if atoms == [] then 0 else (if atoms[0].Class? then 1 else 0) + GroupCount(atoms[1..])
  }

  /** A compiled template has one capture group per parameter name. */
  lemma {:induction false} GroupsMatchNames(ps: seq<Piece>)
    requires forall j :: 0 <= j < |ps| ==> !ps[j].Group?
    ensures GroupCount(ToAtoms(ps)) == |Holes(ps)|
  {
    if ps != [] {
      GroupsMatchNames(ps[1..]);
      assert ToAtoms(ps)[1..] == ToAtoms(ps[1..]);
    }
  }

  lemma {:induction false} GroupCountAppend(a: seq<Atom>, b: seq<Atom>)
    ensures GroupCount(a + b) == GroupCount(a) + GroupCount(b)
  {
    if a != [] {
      assert (a + b)[1..] == a[1..] + b;
      assert (a + b)[0] == a[0];
      GroupCountAppend(a[1..], b);
    } else {
      assert a + b == b;
    }
  }

  /** The expression of a template has one group per placeholder found. */
  lemma CompiledGroups(t: string)
    ensures GroupCount(Compile(t)) == |Names(Holes(Pieces(t)))|
  {
    GroupsMatchNames(Pieces(t));
    GroupCountAppend(ToAtoms(Pieces(t)), [OptSlash]);
  }

  // ---------------------------------------------------------------------
  // Matching

  /** The end of a match and the text of its groups, in order. */
  datatype Hit = Hit(end: nat, groups: seq<string>)

  /** The length of the run of class `k` bytes of `s` from `i`. */
  function ClassRun(k: Kind, s: string, i: nat): (n: nat)
    requires i <= |s|
    ensures i + n <= |s|
    ensures forall j :: i <= j < i + n ==> InClass(k, s[j])
    ensures i + n < |s| ==> !InClass(k, s[i + n])
    decreases |s| - i
  {
    if i == |s| || !InClass(k, s[i]) then 0 else 1 + ClassRun(k, s, i + 1)
  }

  /** The first match of `atoms` at position `i` of `s` in the order a
      backtracking search tries them: a class first takes its longest run
      and gives back one byte at a time; "/?" first takes the '/'. */
  function Run(atoms: seq<Atom>, s: string, i: nat): Option<Hit>
    requires i <= |s|
    decreases |atoms|, |s| + 1
  {
    if atoms == [] then Some(Hit(i, []))
    else match atoms[0]
      case Lit(c) => if i < |s| && s[i] == c then Run(atoms[1..], s, i + 1) else None
      case OptSlash =>
        if i < |s| && s[i] == '/' && Run(atoms[1..], s, i + 1).Some? then Run(atoms[1..], s, i + 1)
        else Run(atoms[1..], s, i)
      case Class(k) => Try(atoms[1..], k, s, i, ClassRun(k, s, i))
  }

  /** A class run of `len` bytes from `i` followed by a match of `rest`,
      trying shorter runs when that fails. */
  function Try(rest: seq<Atom>, k: Kind, s: string, i: nat, len: nat): Option<Hit>
    requires i + len <= |s|
    decreases |rest| + 1, len
  {
    if len == 0 then None
    else match Run(rest, s, i + len)
      case Some(h) => Some(Hit(h.end, [s[i..i + len]] + h.groups))
      case None => Try(rest, k, s, i, len - 1)
  }

  /** `atoms` match `s[i..j]` exactly, with these group texts: the
      reference meaning of the expression. */
  predicate Spans(atoms: seq<Atom>, s: string, i: nat, j: nat, groups: seq<string>)
    requires i <= j <= |s|
    decreases |atoms|
  {
    if atoms == [] then i == j && groups == []
    else match atoms[0]
      case Lit(c) => i < j && s[i] == c && Spans(atoms[1..], s, i + 1, j, groups)
      case OptSlash =>
        (i < j && s[i] == '/' && Spans(atoms[1..], s, i + 1, j, groups)) || Spans(atoms[1..], s, i, j, groups)
      case Class(k) =>
        groups != [] && 0 < |groups[0]| <= j - i && s[i..i + |groups[0]|] == groups[0]
        && AllIn(k, groups[0])
        && Spans(atoms[1..], s, i + |groups[0]|, j, groups[1..])
  }

  /** `FindStringSubmatch(test)` found a match and `matches[0] == test`: the
      groups of that first match when it covers the whole path. */
  function Accept(atoms: seq<Atom>, s: string): Option<seq<string>> {
    match Run(atoms, s, 0)
    case Some(h) => if h.end == |s| then Some(h.groups) else None
    case None => None
  }

  /** Whatever the search returns is a real match. */
  lemma {:induction false} RunSound(atoms: seq<Atom>, s: string, i: nat)
    requires i <= |s|
    ensures Run(atoms, s, i).Some? ==>
              i <= Run(atoms, s, i).value.end <= |s|
              && Spans(atoms, s, i, Run(atoms, s, i).value.end, Run(atoms, s, i).value.groups)
    decreases |atoms|, |s| + 1
  {
    if atoms != [] {
      match atoms[0]
      case Lit(c) =>
        if i < |s| && s[i] == c {
          RunSound(atoms[1..], s, i + 1);
        }
      case OptSlash =>
        if i < |s| {
          RunSound(atoms[1..], s, i + 1);
        }
        RunSound(atoms[1..], s, i);
      case Class(k) =>
        TrySound(atoms[1..], k, s, i, ClassRun(k, s, i));
    }
  }

  lemma {:induction false} TrySound(rest: seq<Atom>, k: Kind, s: string, i: nat, len: nat)
    requires i + len <= |s|
    requires forall q :: i <= q < i + len ==> InClass(k, s[q])
    ensures Try(rest, k, s, i, len).Some? ==>
              i <= Try(rest, k, s, i, len).value.end <= |s|
              && Spans([Class(k)] + rest, s, i, Try(rest, k, s, i, len).value.end, Try(rest, k, s, i, len).value.groups)
    decreases |rest| + 1, len
  {
    if len > 0 {
      RunSound(rest, s, i + len);
      TrySound(rest, k, s, i, len - 1);
      match Run(rest, s, i + len)
      case Some(h) =>
        var g := s[i..i + len];
        assert ([Class(k)] + rest)[1..] == rest;
        assert ([g] + h.groups)[0] == g && ([g] + h.groups)[1..] == h.groups;
        assert forall q :: 0 <= q < |g| ==> g[q] == s[i + q];
      case None =>
    }
  }

  /** An accepted path is matched by the expression as a whole. */
  lemma AcceptSound(atoms: seq<Atom>, s: string)
    ensures Accept(atoms, s).Some? ==> Spans(atoms, s, 0, |s|, Accept(atoms, s).value)
  {
    RunSound(atoms, s, 0);
  }

  /** A match has one group text per class atom. */
  lemma {:induction false} SpansGroups(atoms: seq<Atom>, s: string, i: nat, j: nat, groups: seq<string>)
    requires i <= j <= |s| && Spans(atoms, s, i, j, groups)
    ensures |groups| == GroupCount(atoms)
    decreases |atoms|
  {
    if atoms != [] {
      match atoms[0]
      case Lit(c) => SpansGroups(atoms[1..], s, i + 1, j, groups);
      case OptSlash =>
        if i < j && s[i] == '/' && Spans(atoms[1..], s, i + 1, j, groups) {
          SpansGroups(atoms[1..], s, i + 1, j, groups);
        } else {
          SpansGroups(atoms[1..], s, i, j, groups);
        }
      case Class(k) => SpansGroups(atoms[1..], s, i + |groups[0]|, j, groups[1..]);
    }
  }

  /** Every class is followed by a literal '/' or closes the expression
      (possibly before the final "/?"), and "/?" only comes last: the shape
      of templates whose placeholders each fill a whole segment. */
  predicate Separated(atoms: seq<Atom>) {
    (forall j :: 0 <= j < |atoms| && atoms[j].Class? ==>
       j + 1 == |atoms| || atoms[j + 1] == Lit('/') || (atoms[j + 1] == OptSlash && j + 2 == |atoms|))
    && (forall j :: 0 <= j < |atoms| && atoms[j] == OptSlash ==> j + 1 == |atoms|)
  }

  /** For such expressions the search is complete: whenever the path as a
      whole is a match, the search accepts it, with exactly those groups. */
  lemma {:induction false} RunComplete(atoms: seq<Atom>, s: string, i: nat, groups: seq<string>)
    requires i <= |s| && Separated(atoms) && Spans(atoms, s, i, |s|, groups)
    ensures Run(atoms, s, i) == Some(Hit(|s|, groups))
    decreases |atoms|
  {
    if atoms != [] {
      assert Separated(atoms[1..]) by {
        forall j | 0 <= j < |atoms[1..]| ensures atoms[1..][j] == atoms[j + 1] { }
      }
      match atoms[0]
      case Lit(c) =>
        RunComplete(atoms[1..], s, i + 1, groups);
      case OptSlash =>
        assert atoms[1..] == [];
        if i < |s| && s[i] == '/' {
          assert Spans(atoms[1..], s, i + 1, |s|, groups);
        }
      case Class(k) =>
        var g := groups[0];
        var n := ClassRun(k, s, i);
        assert forall q :: i <= q < i + |g| ==> InClass(k, s[q]) by {
          forall q | i <= q < i + |g| ensures InClass(k, s[q]) {
            assert s[q] == g[q - i];
          }
        }
        assert |g| <= n;
        RunStopsThere(atoms[1..], k, s, i, |g|, groups[1..]);
        assert |g| == n;
        RunComplete(atoms[1..], s, i + n, groups[1..]);
        assert [s[i..i + n]] + groups[1..] == groups;
    }
  }

  /** In a separated expression, what follows a class cannot start with a
      byte of that class, so a matching group is the class's whole run. */
  lemma RunStopsThere(rest: seq<Atom>, k: Kind, s: string, i: nat, len: nat, groups: seq<string>)
    requires i + len <= |s|
    requires rest == [] || rest[0] == Lit('/') || rest == [OptSlash]
    requires Spans(rest, s, i + len, |s|, groups)
    ensures i + len == |s| || !InClass(k, s[i + len])
  {
    if rest != [] && i + len < |s| {
      if rest[0] == OptSlash {
        assert rest[1..] == [];
      }
    }
  }

  /** The two directions together: on a separated expression the router
      accepts a path exactly when the expression matches all of it, and then
      reports that match's groups. */
  lemma AcceptExactly(atoms: seq<Atom>, s: string, groups: seq<string>)
    requires Separated(atoms)
    ensures Accept(atoms, s) == Some(groups) <==> Spans(atoms, s, 0, |s|, groups)
  {
    AcceptSound(atoms, s);
    if Spans(atoms, s, 0, |s|, groups) {
      RunComplete(atoms, s, 0, groups);
    }
  }

  /** A match of a template's expression captures one value per parameter
      name, so the names and the values of a matched route pair up. */
  lemma AcceptedGroups(t: string, s: string)
    ensures Accept(Compile(t), s).Some? ==> |Accept(Compile(t), s).value| == |Names(Holes(Pieces(t)))|
  {
    if Accept(Compile(t), s).Some? {
      AcceptSound(Compile(t), s);
      SpansGroups(Compile(t), s, 0, |s|, Accept(Compile(t), s).value);
      CompiledGroups(t);
    }
  }
}
