/** Properties of the byte trie of router_v2.go: what `insert` changes, when
    `search` succeeds, and the behaviour of the source's test table. */
module TrieFacts {
  import opened Wrappers
  import opened Trie
  import Text

  /** Slot `k` is used by no node of the arena. */
  predicate SlotFree<V>(nodes: seq<Node<V>>, k: nat)
    requires WellFormed(nodes) && k < MaxSize
  {
    forall j :: 0 <= j < |nodes| ==> nodes[j].children[k].None?
  }

  /** After `insert(n, _, s, v)` the bytes of `s` lead from `n` to a leaf
      holding `v`; no other node changes its leaf flag or value, fresh nodes
      are not leaves, and every existing child link is kept. */
  lemma {:induction false} InsertReachesLeaf<V>(nodes: seq<Node<V>>, n: nat, s: string, v: V) returns (t: nat)
    requires WellFormed(nodes) && n < |nodes| && AllInRange(s)
    ensures var r := Inserted(nodes, n, s, v);
      && t < |r| && Walk(r, n, s) == Some(t) && r[t].isLeaf && r[t].value == Some(v)
      && (forall j :: 0 <= j < |nodes| && j != t ==> r[j].isLeaf == nodes[j].isLeaf && r[j].value == nodes[j].value)
      && (forall j :: |nodes| <= j < |r| && j != t ==> !r[j].isLeaf && r[j].value == None)
      && (forall j, k :: 0 <= j < |nodes| && 0 <= k < MaxSize && nodes[j].children[k].Some? ==>
            r[j].children[k] == nodes[j].children[k])
    decreases |s|
  {
    var r := Inserted(nodes, n, s, v);
    if s == [] {
      t := n;
    } else {
      var c := Slot(s[0]);
      match nodes[n].children[c]
      case Some(k) =>
        t := InsertReachesLeaf(nodes, k, s[1..], v);
      case None =>
        var grown := nodes[n := nodes[n].(children := nodes[n].children[c := Some(|nodes|)])] + [NewNode()];
        assert WellFormed(grown) by {
          forall i | 0 <= i < |grown| ensures NodeOk(grown[i], i, |grown|) {
            if i < |nodes| && i != n {
              assert grown[i] == nodes[i];
            }
          }
        }
        t := InsertReachesLeaf(grown, |nodes|, s[1..], v);
        assert r[n].children[c] == grown[n].children[c];
    }
  }

  /** `insert` only adds child links, so every walk through the old arena is
      still a walk through the new one. */
  lemma {:induction false} WalkKept<V>(nodes: seq<Node<V>>, r: seq<Node<V>>, a: nat, p: string)
    requires WellFormed(nodes) && WellFormed(r) && |nodes| <= |r| && a < |nodes| && AllInRange(p)
    requires forall j, k :: 0 <= j < |nodes| && 0 <= k < MaxSize && nodes[j].children[k].Some? ==>
               r[j].children[k] == nodes[j].children[k]
    requires Walk(nodes, a, p).Some?
    ensures Walk(r, a, p) == Walk(nodes, a, p)
    decreases |p|
  {
    if p != [] {
      WalkKept(nodes, r, nodes[a].children[Slot(p[0])].value, p[1..]);
    }
  }

  /** A slot that no node uses, and that no byte of `s` addresses, is still
      unused after inserting `s`: typed branches appear only through templates
      that contain '<', '>' or '*'. */
  lemma {:induction false} InsertKeepsSlotFree<V>(nodes: seq<Node<V>>, n: nat, s: string, v: V, k: nat)
    requires WellFormed(nodes) && n < |nodes| && AllInRange(s) && k < MaxSize
    requires SlotFree(nodes, k)
    requires forall m :: 0 <= m < |s| ==> Slot(s[m]) != k
    ensures SlotFree(Inserted(nodes, n, s, v), k)
    decreases |s|
  {
    if s != [] {
      var c := Slot(s[0]);
      match nodes[n].children[c]
      case Some(child) =>
        InsertKeepsSlotFree(nodes, child, s[1..], v, k);
      case None =>
        var grown := nodes[n := nodes[n].(children := nodes[n].children[c := Some(|nodes|)])] + [NewNode()];
        assert WellFormed(grown) by {
          forall i | 0 <= i < |grown| ensures NodeOk(grown[i], i, |grown|) {
            if i < |nodes| && i != n {
              assert grown[i] == nodes[i];
            }
          }
        }
        assert SlotFree(grown, k) by {
          forall j | 0 <= j < |grown| ensures grown[j].children[k].None? {
            if j < |nodes| && j != n {
              assert grown[j] == nodes[j];
            }
          }
        }
        InsertKeepsSlotFree(grown, |nodes|, s[1..], v, k);
    }
  }

  /** A key whose bytes all follow literal children ends at the node it walks
      to: the search succeeds exactly when that node is a leaf (given that the
      node has no '$' child for the end sentinel to follow). */
  lemma {:induction false} LiteralKeyDecides<V>(nodes: seq<Node<V>>, key: string, i: nat, node: nat, isInt: bool, isAlpha: bool)
    requires WellFormed(nodes) && node < |nodes| && AllInRange(key) && i <= |key|
    requires Walk(nodes, node, key[i..]).Some?
    requires nodes[Walk(nodes, node, key[i..]).value].children[Slot(End)].None?
    ensures var n := Walk(nodes, node, key[i..]).value;
      ScanFrom(nodes, key, i, node, false, isInt, isAlpha) == if nodes[n].isLeaf then Some(n) else None
    ensures var n := Walk(nodes, node, key[i..]).value;
      ScanAsWritten(nodes, key, i, node, false, isInt, isAlpha) == if nodes[n].isLeaf then Some(n) else None
    decreases |key| - i
  {
    if i < |key| {
      assert key[i..][0] == key[i] && key[i..][1..] == key[i + 1..];
      LiteralKeyDecides(nodes, key, i + 1, nodes[node].children[Slot(key[i])].value, isInt, isAlpha);
    } else {
      assert key[i..] == [];
    }
  }

  /** A trie built only from literal templates: no node has a '$', '<', '>'
      or '*' child. */
  predicate LiteralOnly<V>(nodes: seq<Node<V>>)
    requires WellFormed(nodes)
  {
    SlotFree(nodes, Slot(End)) && SlotFree(nodes, IntSlot) && SlotFree(nodes, AlphaSlot) && SlotFree(nodes, WildcardSlot)
  }

  /** In a literal-only trie, once the corrected search starts skipping bytes
      it cannot succeed. */
  lemma {:induction false} SkippingFails<V>(nodes: seq<Node<V>>, key: string, i: nat, node: nat, isInt: bool, isAlpha: bool)
    requires WellFormed(nodes) && LiteralOnly(nodes) && node < |nodes| && AllInRange(key)
    requires 0 < i <= |key|
    ensures ScanFrom(nodes, key, i, node, true, isInt, isAlpha) == None
    decreases |key| - i
  {
    var ch := if i < |key| then key[i] else End;
    if Slot(ch) == SlashSlot || ch == End {
    } else if nodes[node].children[Slot(ch)].Some? {
      if i + 1 <= |key| {
        SkippingFails(nodes, key, i + 1, nodes[node].children[Slot(ch)].value, isInt, isAlpha);
      }
    } else if i + 1 <= |key| {
      SkippingFails(nodes, key, i + 1, node, Text.IsDigit(ch) && isInt, isAlpha && Text.IsLetter(ch));
    }
  }

  /** Outside a skipped segment, `search` follows literal children: a stretch
      `p` of the key that is a path below `node` is walked byte by byte. */
  lemma {:induction false} ScanFollows<V>(nodes: seq<Node<V>>, key: string, i: nat, node: nat, p: string, isInt: bool, isAlpha: bool)
    requires WellFormed(nodes) && node < |nodes| && AllInRange(key) && AllInRange(p)
    requires i + |p| <= |key| && key[i..i + |p|] == p
    requires Walk(nodes, node, p).Some?
    ensures ScanFrom(nodes, key, i, node, false, isInt, isAlpha)
         == ScanFrom(nodes, key, i + |p|, Walk(nodes, node, p).value, false, isInt, isAlpha)
    ensures ScanAsWritten(nodes, key, i, node, false, isInt, isAlpha)
         == ScanAsWritten(nodes, key, i + |p|, Walk(nodes, node, p).value, false, isInt, isAlpha)
    decreases |p|
  {
    if p != [] {
      assert key[i] == p[0];
      assert key[i + 1..i + |p|] == p[1..];
      ScanFollows(nodes, key, i + 1, nodes[node].children[Slot(p[0])].value, p[1..], isInt, isAlpha);
    }
  }

  /** Bytes of one segment that have no literal child below `node` are
      skipped, and the skip records whether they were all digits and all
      letters. */
  lemma {:induction false} ScanSkips<V>(nodes: seq<Node<V>>, key: string, i: nat, j: nat, node: nat,
                                        consuming: bool, isInt: bool, isAlpha: bool)
    requires WellFormed(nodes) && node < |nodes| && AllInRange(key) && i < j <= |key|
    requires consuming ==> 0 < i
    requires nodes[node].hasChildren || !nodes[node].isLeaf
    requires forall m :: i <= m < j ==> key[m] != '/' && key[m] != End && nodes[node].children[Slot(key[m])].None?
    ensures ScanFrom(nodes, key, i, node, consuming, isInt, isAlpha)
         == ScanFrom(nodes, key, j, node, true, isInt && Text.AllDigits(key[i..j]), isAlpha && Text.AllLetters(key[i..j]))
    ensures ScanAsWritten(nodes, key, i, node, consuming, isInt, isAlpha)
         == ScanAsWritten(nodes, key, j, node, true, isInt && Text.AllDigits(key[i..j]), isAlpha && Text.AllLetters(key[i..j]))
    decreases j - i
  {
    var isInt', isAlpha' := isInt && Text.IsDigit(key[i]), isAlpha && Text.IsLetter(key[i]);
    if i + 1 < j {
      ScanSkips(nodes, key, i + 1, j, node, true, isInt', isAlpha');
      assert key[i..j] == [key[i]] + key[i + 1..j];
      assert Text.AllDigits(key[i..j]) == (Text.IsDigit(key[i]) && Text.AllDigits(key[i + 1..j]));
      assert Text.AllLetters(key[i..j]) == (Text.IsLetter(key[i]) && Text.AllLetters(key[i + 1..j]));
    } else {
      assert key[i..j] == [key[i]];
    }
  }

  /** In a literal-only trie the corrected search from a non-skipping state
      decides by the literal walk alone. */
  lemma {:induction false} LiteralScan<V>(nodes: seq<Node<V>>, key: string, i: nat, node: nat, isInt: bool, isAlpha: bool)
    requires WellFormed(nodes) && LiteralOnly(nodes) && node < |nodes| && AllInRange(key) && i <= |key|
    ensures ScanFrom(nodes, key, i, node, false, isInt, isAlpha)
         == match Walk(nodes, node, key[i..])
            case Some(m) => (if nodes[m].isLeaf then Some(m) else None)
            case None => None
    decreases |key| - i
  {
    if i == |key| {
      assert key[i..] == [];
    } else {
      assert key[i..][0] == key[i] && key[i..][1..] == key[i + 1..];
      match nodes[node].children[Slot(key[i])]
      case Some(k) =>
        LiteralScan(nodes, key, i + 1, k, isInt, isAlpha);
      case None =>
        if key[i] == End || nodes[node].hasChildren || !nodes[node].isLeaf {
          SkippingFails(nodes, key, i + 1, node, isInt && Text.IsDigit(key[i]), isAlpha && Text.IsLetter(key[i]));
        }
    }
  }

  /** With only literal templates registered, a key matches exactly when its
      bytes spell a path from the root to a leaf, and it matches that leaf:
      neither a strict prefix nor an extension of a route matches it. */
  lemma LiteralMatch<V>(nodes: seq<Node<V>>, key: string)
    requires WellFormed(nodes) && LiteralOnly(nodes) && AllInRange(key)
    ensures Found(nodes, 0, key).Some? <==> Walk(nodes, 0, key).Some? && nodes[Walk(nodes, 0, key).value].isLeaf
    ensures Found(nodes, 0, key).Some? ==> Found(nodes, 0, key) == Walk(nodes, 0, key)
  {
    LiteralScan(nodes, key, 0, 0, true, true);
    assert key[0..] == key;
  }

  /** A template free of '$', '<', '>' and '*'. */
  predicate Literal(s: string) {
    AllInRange(s) && forall m :: 0 <= m < |s| ==> s[m] !in {End, '<', '>', '*'}
  }

  /** Registering a literal template in a literal-only trie keeps it literal
      only, and the template then looks up the route just registered;
      registering it again overwrites that route. */
  lemma InsertThenLookup<V>(nodes: seq<Node<V>>, s: string, v: V)
    requires WellFormed(nodes) && LiteralOnly(nodes) && Literal(s)
    ensures var r := Inserted(nodes, 0, s, v); LiteralOnly(r) && Lookup(r, s) == Some(v)
    ensures var r := Inserted(nodes, 0, s, v); WellFormed(r) && FoundAsWritten(r, 0, s) == Found(r, 0, s)
  {
    var r := Inserted(nodes, 0, s, v);
    var t := InsertReachesLeaf(nodes, 0, s, v);
    InsertKeepsSlotFree(nodes, 0, s, v, Slot(End));
    InsertKeepsSlotFree(nodes, 0, s, v, IntSlot);
    InsertKeepsSlotFree(nodes, 0, s, v, AlphaSlot);
    InsertKeepsSlotFree(nodes, 0, s, v, WildcardSlot);
    LiteralMatch(r, s);
    assert s[0..] == s;
    LiteralKeyDecides(r, s, 0, 0, true, true);
  }

  /** Every key the corrected search accepts is accepted by `search` as
      written: the two differ only where the corrected one gives up on a
      skipped segment that no typed branch takes, and where the typed
      branches are tried the source returns the first one that matches.
      The converse fails (see `TrieTable.StrayByteMatchesAsWritten`). */
  lemma {:induction false} ScanAcceptsMore<V>(nodes: seq<Node<V>>, key: string, i: nat, node: nat,
                                              consuming: bool, isInt: bool, isAlpha: bool)
    requires WellFormed(nodes) && node < |nodes| && AllInRange(key) && i <= |key| + 1
    requires consuming ==> 0 < i
    ensures ScanFrom(nodes, key, i, node, consuming, isInt, isAlpha).Some?
        ==> ScanAsWritten(nodes, key, i, node, consuming, isInt, isAlpha).Some?
    decreases |key|, |key| + 1 - i
  {
    if i < |key| + 1 {
      var ch := if i < |key| then key[i] else End;
      var n := nodes[node];
      if consuming && (Slot(ch) == SlashSlot || ch == End) {
        var skey := key[i..];
        if isInt && n.children[IntSlot].Some? {
          FoundAcceptsMore(nodes, n.children[IntSlot].value, skey);
        }
        if isAlpha && n.children[AlphaSlot].Some? {
          FoundAcceptsMore(nodes, n.children[AlphaSlot].value, skey);
        }
        if n.children[WildcardSlot].Some? {
          FoundAcceptsMore(nodes, n.children[WildcardSlot].value, skey);
        }
      } else if n.children[Slot(ch)].Some? {
        ScanAcceptsMore(nodes, key, i + 1, n.children[Slot(ch)].value, consuming, isInt, isAlpha);
      } else if ch == End || n.hasChildren || !n.isLeaf {
        ScanAcceptsMore(nodes, key, i + 1, node, true, isInt && Text.IsDigit(ch), isAlpha && Text.IsLetter(ch));
      }
    }
  }

  lemma {:induction false} FoundAcceptsMore<V>(nodes: seq<Node<V>>, node: nat, key: string)
    requires WellFormed(nodes) && node < |nodes| && AllInRange(key)
    ensures Found(nodes, node, key).Some? ==> FoundAsWritten(nodes, node, key).Some?
    decreases |key|, |key| + 2
  {
    ScanAcceptsMore(nodes, key, 0, node, false, true, true);
  }
}
