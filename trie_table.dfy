/** Two route tables from router_v2_test.go, written out node by node: the
    templates /foo, and the first three templates under /f.  The `Built`
    lemmas show that `insert` produces exactly these arenas; the remaining
    lemmas give the outcome of the corrected `search` on the test keys, and
    show that `search` as written reaches the same outcome on each of them. */
module TrieTable {
  import opened Wrappers
  import opened Trie
  import TrieFacts
  import Text

  /** A child array holding the given (byte, node) links and nothing else. */
  function Kids(links: seq<(char, nat)>): (r: seq<Option<nat>>)
    requires forall j :: 0 <= j < |links| ==> InRange(links[j].0)
    ensures |r| == MaxSize
  {
    if links == [] then seq(MaxSize, _ => None)
    else Kids(links[..|links| - 1])[Slot(links[|links| - 1].0) := Some(links[|links| - 1].1)]
  }

  /** An interior node: not a leaf, no route. */
  function Inner<V>(links: seq<(char, nat)>): Node<V>
    requires forall j :: 0 <= j < |links| ==> InRange(links[j].0)
  {
    Node(Kids(links), false, false, None)
  }

  /** A leaf holding `v`; its `hasChildren` flag is still the one computed
      when it became a leaf, before any child was added. */
  function Leaf<V>(links: seq<(char, nat)>, v: V): Node<V>
    requires forall j :: 0 <= j < |links| ==> InRange(links[j].0)
  {
    Node(Kids(links), false, true, Some(v))
  }

  // Template: /foo
  function Foo<V>(v: V): seq<Node<V>> {
    [Inner([('/', 1)]), Inner([('f', 2)]), Inner([('o', 3)]), Inner([('o', 4)]), Leaf([], v)]
  }

  // Templates: /f/*
  function F1<V>(a: V): seq<Node<V>> {
    [Inner([('/', 1)]), Inner([('f', 2)]), Inner([('/', 3)]), Inner([('*', 4)]), Leaf([], a)]
  }

  // Templates: /f/*, /f/*/b/c
  function F2<V>(a: V, b: V): seq<Node<V>> {
    [Inner([('/', 1)]), Inner([('f', 2)]), Inner([('/', 3)]), Inner([('*', 4)]), Leaf([('/', 5)], a),
     Inner([('b', 6)]), Inner([('/', 7)]), Inner([('c', 8)]), Leaf([], b)]
  }

  // Templates: /f/*, /f/*/b/c, /f/</b/c/<
  function F3<V>(a: V, b: V, c: V): seq<Node<V>> {
    [Inner([('/', 1)]), Inner([('f', 2)]), Inner([('/', 3)]), Inner([('*', 4), ('<', 9)]), Leaf([('/', 5)], a),
     Inner([('b', 6)]), Inner([('/', 7)]), Inner([('c', 8)]), Leaf([], b),
     Inner([('/', 10)]), Inner([('b', 11)]), Inner([('/', 12)]), Inner([('c', 13)]), Inner([('/', 14)]),
     Inner([('<', 15)]), Leaf([], c)]
  }

  /** The nodes `insert` allocates below a fresh node at index `n` for the
      rest `s` of a template: one interior node per byte, then the leaf. */
  function Chain<V>(n: nat, s: string, v: V): (r: seq<Node<V>>)
    requires AllInRange(s)
    ensures |r| == |s| + 1
    decreases |s|
  {
    if s == [] then [Leaf([], v)] else [Inner([(s[0], n + 1)])] + Chain(n + 1, s[1..], v)
  }

  /** Inserting below the last node of the arena, a fresh one, appends a chain. */
  lemma {:induction false} InsertFresh<V>(nodes: seq<Node<V>>, s: string, v: V)
    requires WellFormed(nodes) && AllInRange(s) && nodes[|nodes| - 1] == NewNode()
    ensures Inserted(nodes, |nodes| - 1, s, v) == nodes[..|nodes| - 1] + Chain(|nodes| - 1, s, v)
    decreases |s|
  {
    var n := |nodes| - 1;
    if s == [] {
      assert Kids([]) == NewNode<V>().children;
    } else {
      var c := Slot(s[0]);
      var grown := nodes[n := nodes[n].(children := nodes[n].children[c := Some(|nodes|)])] + [NewNode()];
      assert WellFormed(grown) by {
        forall i | 0 <= i < |grown| ensures NodeOk(grown[i], i, |grown|) {
          if i < n {
            assert grown[i] == nodes[i];
          }
        }
      }
      InsertFresh(grown, s[1..], v);
      var links := [(s[0], n + 1)];
      assert links[..|links| - 1] == [];
      assert Kids(links) == Kids([])[c := Some(n + 1)];
      assert grown[n] == Inner(links);
      assert grown[..n] == nodes[..n];
    }
  }

  /** Inserting `p + s` first follows the existing path `p`. */
  lemma {:induction false} InsertFollows<V>(nodes: seq<Node<V>>, n: nat, p: string, s: string, v: V)
    requires WellFormed(nodes) && n < |nodes| && AllInRange(p) && AllInRange(s)
    requires Walk(nodes, n, p).Some?
    ensures AllInRange(p + s)
    ensures Inserted(nodes, n, p + s, v) == Inserted(nodes, Walk(nodes, n, p).value, s, v)
    decreases |p|
  {
    if p == [] {
      assert p + s == s;
    } else {
      assert (p + s)[0] == p[0] && (p + s)[1..] == p[1..] + s;
      InsertFollows(nodes, nodes[n].children[Slot(p[0])].value, p[1..], s, v);
    }
  }

  /** Inserting `s` at a node without a child for its first byte grows a
      fresh chain for the rest of `s`. */
  lemma InsertBranches<V>(nodes: seq<Node<V>>, m: nat, s: string, v: V)
    requires WellFormed(nodes) && m < |nodes| && AllInRange(s) && s != []
    requires nodes[m].children[Slot(s[0])].None?
    ensures Inserted(nodes, m, s, v)
      == nodes[m := nodes[m].(children := nodes[m].children[Slot(s[0]) := Some(|nodes|)])] + Chain(|nodes|, s[1..], v)
  {
    var c := Slot(s[0]);
    var grown := nodes[m := nodes[m].(children := nodes[m].children[c := Some(|nodes|)])] + [NewNode()];
    assert WellFormed(grown) by {
      forall i | 0 <= i < |grown| ensures NodeOk(grown[i], i, |grown|) {
        if i < |nodes| && i != m {
          assert grown[i] == nodes[i];
        }
      }
    }
    InsertFresh(grown, s[1..], v);
    assert grown[..|nodes|] == nodes[m := nodes[m].(children := nodes[m].children[c := Some(|nodes|)])];
  }

  /** Inserting `p + s`, where `p` leads to a node `m` with no child for the
      first byte of `s`, links a fresh chain for `s` below `m`. */
  lemma InsertGrows<V>(nodes: seq<Node<V>>, p: string, m: nat, s: string, v: V, r: seq<Node<V>>)
    requires WellFormed(nodes) && AllInRange(p) && AllInRange(s) && s != []
    requires Walk(nodes, 0, p) == Some(m) && nodes[m].children[Slot(s[0])].None?
    requires r == nodes[m := nodes[m].(children := nodes[m].children[Slot(s[0]) := Some(|nodes|)])] + Chain(|nodes|, s[1..], v)
    ensures AllInRange(p + s) && Inserted(nodes, 0, p + s, v) == r
  {
    InsertFollows(nodes, 0, p, s, v);
    InsertBranches(nodes, m, s, v);
  }

  lemma Built1<V>(a: V)
    ensures WellFormed(F1(a)) && Inserted([NewNode()], 0, "/f/*", a) == F1(a)
  {}

  lemma Built2<V>(a: V, b: V)
    ensures WellFormed(F1(a)) && WellFormed(F2(a, b))
    ensures Inserted(F1(a), 0, "/f/*/b/c", b) == F2(a, b)
  {
    Built1(a);
  }

  lemma Built3<V>(a: V, b: V, c: V)
    ensures WellFormed(F2(a, b)) && WellFormed(F3(a, b, c))
    ensures Inserted(F2(a, b), 0, "/f/</b/c/<", c) == F3(a, b, c)
  {
    Built2(a, b);
    Shape3(a, b, c);
    assert "/f/" + "</b/c/<" == "/f/</b/c/<";
    InsertGrows(F2(a, b), "/f/", 3, "</b/c/<", c, F3(a, b, c));
  }

  lemma Shape3<V>(a: V, b: V, c: V)
    requires WellFormed(F2(a, b))
    ensures Walk(F2(a, b), 0, "/f/") == Some(3) && F2(a, b)[3].children[Slot('<')].None?
    ensures F3(a, b, c) == F2(a, b)[3 := F2(a, b)[3].(children := F2(a, b)[3].children[Slot('<') := Some(9)])] + Chain(9, "/b/c/<", c)
  {}

  lemma WellFormed3<V>(a: V, b: V, c: V)
    ensures WellFormed(F3(a, b, c))
  {
    Built3(a, b, c);
  }

  // Each search below is cut into steps: the literal prefix /f/ (ScanFollows),
  // the skipped segment (ScanSkips), and the typed branches tried at its end.

  /** The shape of a table at /f/: the literal path /f/ leads to node 3,
      an interior node whose only children are typed slots. */
  predicate TypedBelowF<V>(t: seq<Node<V>>) {
    WellFormed(t) && AllInRange("/f/") && Walk(t, 0, "/f/") == Some(3) && !t[3].isLeaf
    && forall ch :: InRange(ch) && ch != '*' && ch != '<' ==> t[3].children[Slot(ch)].None?
  }

  /** Below /f/ only the WILDCARD and INT slots are used. */
  lemma TypedSlotsOnly<V>(a: V, b: V, c: V)
    ensures TypedBelowF(F3(a, b, c))
  {
    WellFormed3(a, b, c);
  }

  /** The scan of a key up to the end of its third segment, which holds no
      '*' or '<': the typed branches are tried there. */
  lemma ToSegmentEnd<V>(t: seq<Node<V>>, key: string, j: nat)
    requires TypedBelowF(t)
    requires 3 < j <= |key| && key[..3] == "/f/" && AllInRange(key)
    requires forall m :: 3 <= m < j ==> key[m] !in "/$*<"
    ensures ScanFrom(t, key, 0, 0, false, true, true)
         == ScanFrom(t, key, j, 3, true, Text.AllDigits(key[3..j]), Text.AllLetters(key[3..j]))
    ensures ScanAsWritten(t, key, 0, 0, false, true, true)
         == ScanAsWritten(t, key, j, 3, true, Text.AllDigits(key[3..j]), Text.AllLetters(key[3..j]))
  {
    assert key[0..3] == "/f/";
    TrieFacts.ScanFollows(t, key, 0, 0, "/f/", true, true);
    TrieFacts.ScanSkips(t, key, 3, j, 3, false, true, true);
  }

  /** Below the INT child of /f/ the literal path /b/c/ leads to node 14,
      whose only child is another INT slot. */
  lemma IntTailShape<V>(a: V, b: V, c: V)
    ensures WellFormed(F3(a, b, c))
    ensures Walk(F3(a, b, c), 9, "/b/c/") == Some(14)
    ensures forall ch :: InRange(ch) && ch != '<' ==> F3(a, b, c)[14].children[Slot(ch)].None?
    ensures !F3(a, b, c)[14].isLeaf
  {
    WellFormed3(a, b, c);
  }

  /** The bytes 4321 lie in range, are no '/', '$' or '<', and are digits. */
  lemma TailDigits(rest: string)
    requires rest == "/b/c/4321"
    ensures AllInRange(rest) && rest[0..5] == "/b/c/" && rest[5..9] == "4321"
    ensures forall m :: 5 <= m < 9 ==> InRange(rest[m]) && rest[m] != '/' && rest[m] != End && rest[m] != '<'
    ensures Text.AllDigits(rest[5..9]) && !Text.AllLetters(rest[5..9])
  {
    assert !Text.IsLetter(rest[5]);
  }

  lemma IntTailWalk<V>(a: V, b: V, c: V)
    ensures WellFormed(F3(a, b, c))
    ensures ScanFrom(F3(a, b, c), "/b/c/4321", 0, 9, false, true, true)
         == ScanFrom(F3(a, b, c), "/b/c/4321", 9, 14, true, true, false)
    ensures ScanAsWritten(F3(a, b, c), "/b/c/4321", 0, 9, false, true, true)
         == ScanAsWritten(F3(a, b, c), "/b/c/4321", 9, 14, true, true, false)
  {
    IntTailShape(a, b, c);
    var t, rest := F3(a, b, c), "/b/c/4321";
    TailDigits(rest);
    TrieFacts.ScanFollows(t, rest, 0, 9, "/b/c/", true, true);
    TrieFacts.ScanSkips(t, rest, 5, 9, 14, false, true, true);
  }

  lemma IntTailEnd<V>(a: V, b: V, c: V)
    ensures WellFormed(F3(a, b, c))
    ensures ScanFrom(F3(a, b, c), "/b/c/4321", 9, 14, true, true, false) == Some(15)
    ensures ScanAsWritten(F3(a, b, c), "/b/c/4321", 9, 14, true, true, false) == Some(15)
  {
    WellFormed3(a, b, c);
    var t := F3(a, b, c);
    assert t[14].children[IntSlot] == Some(15);
    assert t[14].children[WildcardSlot] == None;
    assert Found(t, 15, []) == Some(15);
    assert FoundAsWritten(t, 15, []) == Some(15);
  }

  /** Below the INT child of /f/, the rest /b/c/4321 of a key reaches the
      leaf of /f/</b/c/< through a second INT branch. */
  lemma IntTail<V>(a: V, b: V, c: V)
    ensures WellFormed(F3(a, b, c)) && Found(F3(a, b, c), 9, "/b/c/4321") == Some(15)
    ensures FoundAsWritten(F3(a, b, c), 9, "/b/c/4321") == Some(15)
  {
    IntTailWalk(a, b, c);
    IntTailEnd(a, b, c);
  }

  lemma IntBranchStep<V>(a: V, b: V, c: V)
    ensures WellFormed(F3(a, b, c))
    ensures ScanFrom(F3(a, b, c), "/f/1234/b/c/4321", 7, 3, true, true, false) == Some(15)
    ensures ScanAsWritten(F3(a, b, c), "/f/1234/b/c/4321", 7, 3, true, true, false) == Some(15)
  {
    IntTail(a, b, c);
    var t, key := F3(a, b, c), "/f/1234/b/c/4321";
    assert key[7..] == "/b/c/4321";
    assert t[3].children[IntSlot] == Some(9);
  }

  /** A test key /f/ + w + tail, cut where `search` needs it. */
  lemma SplitKey(key: string, w: string, tail: string)
    requires key == "/f/" + w + tail && |w| == 4 && AllInRange(w) && AllInRange(tail)
    ensures |key| == 7 + |tail| && key[..3] == "/f/" && key[3..7] == w && key[7..] == tail && AllInRange(key)
  {
  }

  /** The routes held by the three leaves of the table. */
  lemma LeafValues<V>(a: V, b: V, c: V)
    ensures |F3(a, b, c)| == 16
    ensures F3(a, b, c)[4].value == Some(a) && F3(a, b, c)[8].value == Some(b) && F3(a, b, c)[15].value == Some(c)
  {
  }

  /** router_v2_test.go: /f/1234/b/c/4321 matches, through the INT branches
      of /f/</b/c/<. */
  lemma IntBranchFirst<V>(a: V, b: V, c: V)
    ensures WellFormed(F3(a, b, c)) && Lookup(F3(a, b, c), "/f/1234/b/c/4321") == Some(c)
    ensures FoundAsWritten(F3(a, b, c), 0, "/f/1234/b/c/4321") == Found(F3(a, b, c), 0, "/f/1234/b/c/4321")
  {
    TypedSlotsOnly(a, b, c);
    IntBranchStep(a, b, c);
    BranchOutcome(F3(a, b, c), "/f/1234/b/c/4321", "1234", "/b/c/4321", Some(15));
    LeafValues(a, b, c);
  }

  /** Below the WILDCARD child of /f/, the leaf of the second template has
      no children left for a further segment. */
  lemma WildcardTailTooLong<V>(a: V, b: V, c: V)
    ensures WellFormed(F3(a, b, c)) && Found(F3(a, b, c), 4, "/b/c/4321") == None
    ensures FoundAsWritten(F3(a, b, c), 4, "/b/c/4321") == None
  {
    WildcardBelow(a, b, c);
    LeafEnds(a, b, c);
    var t, rest := F3(a, b, c), "/b/c/4321";
    assert rest[0..4] == "/b/c" && rest[4] == '/';
    TrieFacts.ScanFollows(t, rest, 0, 4, "/b/c", true, true);
    LeafStops(t, rest, 4, 8);
  }

  /** The leaf of the second template has no children and never had any. */
  lemma LeafEnds<V>(a: V, b: V, c: V)
    ensures |F3(a, b, c)| == 16 && !F3(a, b, c)[8].hasChildren && F3(a, b, c)[8].isLeaf
    ensures F3(a, b, c)[8].children[Slot('/')].None?
  {
  }

  /** A byte with no child under a leaf that never had children ends the
      search with no match. */
  lemma LeafStops<V>(t: seq<Node<V>>, key: string, i: nat, node: nat)
    requires WellFormed(t) && node < |t| && AllInRange(key) && i < |key| && key[i] != End
    requires t[node].children[Slot(key[i])].None? && !t[node].hasChildren && t[node].isLeaf
    ensures ScanFrom(t, key, i, node, false, true, true) == None
    ensures ScanAsWritten(t, key, i, node, false, true, true) == None
  {
  }

  /** Bytes of a segment spelled by `w`, free of '/', '$', '*' and '<'. */
  lemma SegmentFree(key: string, j: nat, w: string)
    requires 3 <= j <= |key| && key[3..j] == w
    requires forall m :: 0 <= m < |w| ==> w[m] !in "/$*<"
    ensures forall m :: 3 <= m < j ==> key[m] !in "/$*<"
  {
    forall m | 3 <= m < j
      ensures key[m] !in "/$*<"
    {
      assert key[m] == w[m - 3];
    }
  }

  /** "1234" is all digits and "asdf" all letters, and neither is both. */
  lemma SegmentClass(key: string, w: string)
    requires 7 <= |key| && key[3..7] == w && (w == "1234" || w == "asdf")
    ensures Text.AllDigits(key[3..7]) <==> w == "1234"
    ensures Text.AllLetters(key[3..7]) <==> w == "asdf"
  {
    assert key[3] == w[0];
  }

  /** The scan of a key /f/1234... or /f/asdf... up to the end of its
      third segment, where the typed branches are tried. */
  lemma SkipDigits<V>(t: seq<Node<V>>, key: string)
    requires TypedBelowF(t)
    requires 7 <= |key| && key[..3] == "/f/" && key[3..7] == "1234" && AllInRange(key)
    ensures ScanFrom(t, key, 0, 0, false, true, true) == ScanFrom(t, key, 7, 3, true, true, false)
    ensures ScanAsWritten(t, key, 0, 0, false, true, true) == ScanAsWritten(t, key, 7, 3, true, true, false)
  {
    SegmentFree(key, 7, "1234");
    SegmentClass(key, "1234");
    ToSegmentEnd(t, key, 7);
  }

  lemma SkipLetters<V>(t: seq<Node<V>>, key: string)
    requires TypedBelowF(t)
    requires 7 <= |key| && key[..3] == "/f/" && key[3..7] == "asdf" && AllInRange(key)
    ensures ScanFrom(t, key, 0, 0, false, true, true) == ScanFrom(t, key, 7, 3, true, false, true)
    ensures ScanAsWritten(t, key, 0, 0, false, true, true) == ScanAsWritten(t, key, 7, 3, true, false, true)
  {
    SegmentFree(key, 7, "asdf");
    SegmentClass(key, "asdf");
    ToSegmentEnd(t, key, 7);
  }

  /** A key /f/ + w + tail whose third segment w is 1234 or asdf: the
      search, corrected or as written, comes down to the typed branches
      tried at the end of w. */
  lemma BranchOutcome<V>(t: seq<Node<V>>, key: string, w: string, tail: string, r: Option<nat>)
    requires TypedBelowF(t) && (w == "1234" || w == "asdf") && AllInRange(tail)
    requires key == "/f/" + w + tail
    requires ScanFrom(t, key, 7, 3, true, w == "1234", w == "asdf") == r
    requires ScanAsWritten(t, key, 7, 3, true, w == "1234", w == "asdf") == r
    ensures AllInRange(key) && Found(t, 0, key) == r && FoundAsWritten(t, 0, key) == r
  {
    SplitKey(key, w, tail);
    if w == "1234" {
      SkipDigits(t, key);
    } else {
      SkipLetters(t, key);
    }
  }

  lemma LettersSkipIntStep<V>(a: V, b: V, c: V)
    ensures WellFormed(F3(a, b, c))
    ensures ScanFrom(F3(a, b, c), "/f/asdf/b/c/4321", 7, 3, true, false, true) == None
    ensures ScanAsWritten(F3(a, b, c), "/f/asdf/b/c/4321", 7, 3, true, false, true) == None
  {
    WildcardTailTooLong(a, b, c);
    var t, key := F3(a, b, c), "/f/asdf/b/c/4321";
    assert key[7..] == "/b/c/4321";
    assert t[3].children[AlphaSlot] == None && t[3].children[WildcardSlot] == Some(4);
  }

  /** router_v2_test.go: /f/asdf/b/c/4321 does not match: letters rule out
      the INT branch, and the WILDCARD branch ends one segment short. */
  lemma LettersSkipInt<V>(a: V, b: V, c: V)
    ensures WellFormed(F3(a, b, c)) && Lookup(F3(a, b, c), "/f/asdf/b/c/4321") == None
    ensures FoundAsWritten(F3(a, b, c), 0, "/f/asdf/b/c/4321") == None
  {
    TypedSlotsOnly(a, b, c);
    LettersSkipIntStep(a, b, c);
    BranchOutcome(F3(a, b, c), "/f/asdf/b/c/4321", "asdf", "/b/c/4321", None);
  }

  lemma BacktrackStep<V>(a: V, b: V, c: V)
    ensures WellFormed(F3(a, b, c))
    ensures ScanFrom(F3(a, b, c), "/f/1234", 7, 3, true, true, false) == Some(4)
    ensures ScanAsWritten(F3(a, b, c), "/f/1234", 7, 3, true, true, false) == Some(4)
  {
    WellFormed3(a, b, c);
    var t, key := F3(a, b, c), "/f/1234";
    assert key[7..] == [];
    assert t[3].children[IntSlot] == Some(9) && t[3].children[WildcardSlot] == Some(4);
    assert Found(t, 9, []) == None && FoundAsWritten(t, 9, []) == None;
    assert Found(t, 4, []) == Some(4) && FoundAsWritten(t, 4, []) == Some(4);
  }

  /** router_v2_test.go: /f/1234 matches the first template: the INT branch
      is tried first, fails (its node is no leaf), and the search backtracks
      to WILDCARD. */
  lemma BacktrackToWildcard<V>(a: V, b: V, c: V, key: string)
    requires key == "/f/1234"
    ensures WellFormed(F3(a, b, c)) && AllInRange(key) && Lookup(F3(a, b, c), key) == Some(a)
    ensures FoundAsWritten(F3(a, b, c), 0, key) == Found(F3(a, b, c), 0, key)
  {
    TypedSlotsOnly(a, b, c);
    BacktrackStep(a, b, c);
    BranchOutcome(F3(a, b, c), key, "1234", "", Some(4));
    LeafValues(a, b, c);
  }

  /** A key that walks literal children to a node without a '$' child
      is found exactly when that node is a leaf. */
  lemma LiteralFound<V>(t: seq<Node<V>>, node: nat, key: string)
    requires WellFormed(t) && node < |t| && AllInRange(key)
    requires Walk(t, node, key).Some? && t[Walk(t, node, key).value].children[Slot(End)].None?
    ensures Found(t, node, key) == if t[Walk(t, node, key).value].isLeaf then Some(Walk(t, node, key).value) else None
    ensures FoundAsWritten(t, node, key) == Found(t, node, key)
  {
    assert key[0..] == key;
    TrieFacts.LiteralKeyDecides(t, key, 0, node, true, true);
  }

  /** The typed children of /f/: INT at node 9, WILDCARD at node 4, no ALPHA. */
  lemma BranchSlots<V>(a: V, b: V, c: V)
    ensures WellFormed(F3(a, b, c))
    ensures F3(a, b, c)[3].children[IntSlot] == Some(9) && F3(a, b, c)[3].children[AlphaSlot] == None
    ensures F3(a, b, c)[3].children[WildcardSlot] == Some(4)
  {
    WellFormed3(a, b, c);
  }

  /** Below the WILDCARD child, /b stops at an interior node and /b/c at the
      leaf of the second template. */
  lemma WildcardBelow<V>(a: V, b: V, c: V)
    ensures WellFormed(F3(a, b, c)) && AllInRange("/b") && AllInRange("/b/c")
    ensures Walk(F3(a, b, c), 4, "/b") == Some(6) && !F3(a, b, c)[6].isLeaf
    ensures F3(a, b, c)[6].children[Slot(End)].None?
    ensures Walk(F3(a, b, c), 4, "/b/c") == Some(8) && F3(a, b, c)[8].isLeaf
    ensures F3(a, b, c)[8].children[Slot(End)].None?
  {
    WellFormed3(a, b, c);
  }

  /** Below the INT child, /b stops at an interior node. */
  lemma IntBelow<V>(a: V, b: V, c: V)
    ensures WellFormed(F3(a, b, c)) && AllInRange("/b")
    ensures Walk(F3(a, b, c), 9, "/b") == Some(11) && !F3(a, b, c)[11].isLeaf
    ensures F3(a, b, c)[11].children[Slot(End)].None?
  {
    WellFormed3(a, b, c);
  }

  lemma AllBranchesFailStep<V>(a: V, b: V, c: V)
    ensures WellFormed(F3(a, b, c))
    ensures ScanFrom(F3(a, b, c), "/f/1234/b", 7, 3, true, true, false) == None
    ensures ScanAsWritten(F3(a, b, c), "/f/1234/b", 7, 3, true, true, false) == None
  {
    BranchSlots(a, b, c);
    WildcardBelow(a, b, c);
    IntBelow(a, b, c);
    var t, key := F3(a, b, c), "/f/1234/b";
    assert key[7..] == "/b" && key[7] == '/';
    LiteralFound(t, 9, "/b");
    LiteralFound(t, 4, "/b");
  }

  /** router_v2_test.go: /f/1234/b does not match: both typed branches are
      tried and both stop at an interior node. */
  lemma AllBranchesFail<V>(a: V, b: V, c: V)
    ensures WellFormed(F3(a, b, c)) && Lookup(F3(a, b, c), "/f/1234/b") == None
    ensures FoundAsWritten(F3(a, b, c), 0, "/f/1234/b") == None
  {
    TypedSlotsOnly(a, b, c);
    AllBranchesFailStep(a, b, c);
    BranchOutcome(F3(a, b, c), "/f/1234/b", "1234", "/b", None);
  }

  lemma WildcardOneSegmentStep<V>(a: V, b: V, c: V)
    ensures WellFormed(F3(a, b, c))
    ensures ScanFrom(F3(a, b, c), "/f/asdf/b/c", 7, 3, true, false, true) == Some(8)
    ensures ScanAsWritten(F3(a, b, c), "/f/asdf/b/c", 7, 3, true, false, true) == Some(8)
  {
    BranchSlots(a, b, c);
    WildcardBelow(a, b, c);
    var t, key := F3(a, b, c), "/f/asdf/b/c";
    assert key[7..] == "/b/c" && key[7] == '/';
    LiteralFound(t, 4, "/b/c");
  }

  /** router_v2_test.go: /f/asdf/b/c matches the second template through
      WILDCARD. */
  lemma WildcardOneSegment<V>(a: V, b: V, c: V, key: string)
    requires key == "/f/asdf/b/c"
    ensures WellFormed(F3(a, b, c)) && AllInRange(key) && Lookup(F3(a, b, c), key) == Some(b)
    ensures FoundAsWritten(F3(a, b, c), 0, key) == Found(F3(a, b, c), 0, key)
  {
    TypedSlotsOnly(a, b, c);
    WildcardOneSegmentStep(a, b, c);
    BranchOutcome(F3(a, b, c), key, "asdf", "/b/c", Some(8));
    LeafValues(a, b, c);
  }

  lemma BuiltFoo<V>(v: V)
    ensures WellFormed(Foo(v)) && Inserted([NewNode()], 0, "/foo", v) == Foo(v)
  {}

  /** router_v2_test.go: with /foo registered, /foo matches and its strict
      prefix /fo does not. */
  lemma PrefixDoesNotMatch<V>(v: V)
    ensures WellFormed(Foo(v))
    ensures Lookup(Foo(v), "/foo") == Some(v) && Lookup(Foo(v), "/fo") == None
    ensures FoundAsWritten(Foo(v), 0, "/foo") == Found(Foo(v), 0, "/foo") && FoundAsWritten(Foo(v), 0, "/fo") == None
  {
    BuiltFoo(v);
  }

  /** As written, `search` skips the stray byte 'x', finds no typed branch
      at the segment end, and carries on from the same node: /xfoo reaches
      the leaf of /foo.  So does /fxoo, whose skipped 'x' is followed by
      literal bytes that the skipping state still walks. */
  lemma StrayByteMatchesAsWritten<V>(v: V)
    ensures WellFormed(Foo(v))
    ensures FoundAsWritten(Foo(v), 0, "/xfoo") == Some(4) && FoundAsWritten(Foo(v), 0, "/fxoo") == Some(4)
  {
    BuiltFoo(v);
  }

  /** Corrected, /xfoo does not match /foo (and neither does /fxoo). */
  lemma StrayByteRejected<V>(v: V)
    ensures WellFormed(Foo(v))
    ensures Found(Foo(v), 0, "/xfoo") == None && Found(Foo(v), 0, "/fxoo") == None
  {
    BuiltFoo(v);
  }
}
