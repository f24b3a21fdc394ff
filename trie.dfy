/** The byte-trie router of router_v2.go.

    Every node has 87 child slots, one per byte from '$' to 'z' (slot = byte
    minus '$').  Templates are inserted byte by byte; the bytes '<', '>' and
    '*' are ordinary template bytes whose slots double as the INT, ALPHA and
    WILDCARD branches that `search` backtracks into.  Go's node pointers are
    modelled as indices into the router's arena of nodes (`RouterV2.nodes`),
    the root being index 0. */
module Trie {
  import opened Wrappers
  import Text

  const MaxSize: nat := 87
  /** The end sentinel `search` appends to every key. */
  const End: char := '$'
  const IntSlot: nat := ('<' as int) - ('$' as int)
  const AlphaSlot: nat := ('>' as int) - ('$' as int)
  const WildcardSlot: nat := ('*' as int) - ('$' as int)
  const SlashSlot: nat := ('/' as int) - ('$' as int)

  /** Bytes that have a child slot; any other byte makes Go index out of range. */
  predicate InRange(c: char) { End <= c <= 'z' }

  predicate AllInRange(s: string) { forall i :: 0 <= i < |s| ==> InRange(s[i]) }

  function Slot(c: char): (k: nat)
    requires InRange(c)
    ensures k < MaxSize
  {
    (c as int) - (End as int)
  }

  datatype Node<V> = Node(children: seq<Option<nat>>, hasChildren: bool, isLeaf: bool, value: Option<V>)

  /** `NewNodeV2`: no children, not a leaf, no route. */
  function NewNode<V>(): Node<V> {
    Node(seq(MaxSize, _ => None), false, false, None)
  }

  /** Node `n`, stored at `index`, has 87 slots, holds a route exactly when
      it is a leaf, and every child is stored after it and inside the arena. */
  predicate NodeOk<V>(n: Node<V>, index: nat, bound: nat) {
    |n.children| == MaxSize && (n.isLeaf <==> n.value.Some?) &&
    forall j :: 0 <= j < MaxSize ==> n.children[j].Some? ==> index < n.children[j].value < bound
  }

  /** A well-formed arena: every node is `NodeOk`.  Children always follow
      their parent, so the arena is a tree (a forest) and walks terminate. */
  predicate WellFormed<V>(nodes: seq<Node<V>>) {
    |nodes| > 0 && forall i :: 0 <= i < |nodes| ==> NodeOk(nodes[i], i, |nodes|)
  }

  /** No child slot is occupied: the condition `isEmpty` decides. */
  predicate NoChildren(children: seq<Option<nat>>) {
    forall j :: 0 <= j < |children| ==> children[j].None?
  }

  /** `isEmpty`: scans the slots and stops at the first occupied one. */
  method IsEmpty(children: seq<Option<nat>>) returns (empty: bool)
    ensures empty <==> NoChildren(children)
  {
    var j := 0;
    while j < |children|
      invariant 0 <= j <= |children|
      invariant forall k :: 0 <= k < j ==> children[k].None?
    {
      if children[j].Some? {
        return false;
      }
      j := j + 1;
    }
    return true;
  }

  /** The node reached from `n` by following the literal slots of `s`, if any. */
  function Walk<V>(nodes: seq<Node<V>>, n: nat, s: string): (r: Option<nat>)
    requires WellFormed(nodes) && n < |nodes| && AllInRange(s)
    ensures r.Some? ==> n <= r.value < |nodes|
    ensures r.Some? && s != [] ==> n < r.value
    decreases |s|
  {
    if s == [] then Some(n)
    else
      match nodes[n].children[Slot(s[0])]
      case None => None
      case Some(k) => Walk(nodes, k, s[1..])
  }

  /** The arena after `insert(n, _, s, v)`: missing children along `s` are
      allocated at the end of the arena, and the node reached is marked a leaf
      holding `v`, its `hasChildren` flag refreshed. */
  function Inserted<V>(nodes: seq<Node<V>>, n: nat, s: string, v: V): (r: seq<Node<V>>)
    requires WellFormed(nodes) && n < |nodes| && AllInRange(s)
    ensures WellFormed(r) && |r| >= |nodes|
    decreases |s|
  {
    if s == [] then
      nodes[n := nodes[n].(hasChildren := !NoChildren(nodes[n].children), isLeaf := true, value := Some(v))]
    else
      var c := Slot(s[0]);
      match nodes[n].children[c]
      case Some(k) => Inserted(nodes, k, s[1..], v)
      case None =>
        var grown := nodes[n := nodes[n].(children := nodes[n].children[c := Some(|nodes|)])] + [NewNode()];
        Inserted(grown, |nodes|, s[1..], v)
  }

  /** One step of the byte loop of `search`, as written in the source.  `key`
      is the key without its sentinel; index `|key|` stands for the appended
      '$'.  `consuming` is set while bytes without a literal child are being
      skipped, `isInt`/`isAlpha` record whether all of them were digits/letters. */
  function ScanAsWritten<V>(nodes: seq<Node<V>>, key: string, i: nat, node: nat,
                            consuming: bool, isInt: bool, isAlpha: bool): (r: Option<nat>)
    requires WellFormed(nodes) && node < |nodes| && AllInRange(key) && i <= |key| + 1
    requires consuming ==> 0 < i
    ensures r.Some? ==> r.value < |nodes| && nodes[r.value].isLeaf
    decreases |key|, |key| + 1 - i
  {
    if i == |key| + 1 then (if nodes[node].isLeaf then Some(node) else None)
    else
      var ch := if i < |key| then key[i] else End;
      var n := nodes[node];
      if consuming && (Slot(ch) == SlashSlot || ch == End) then
        var skey := key[i..];
        var ri := if isInt && n.children[IntSlot].Some? then Some(FoundAsWritten(nodes, n.children[IntSlot].value, skey)) else None;
        var ra := if isAlpha && n.children[AlphaSlot].Some? then Some(FoundAsWritten(nodes, n.children[AlphaSlot].value, skey)) else None;
        var rw := if n.children[WildcardSlot].Some? then Some(FoundAsWritten(nodes, n.children[WildcardSlot].value, skey)) else None;
        if ri.Some? && ri.value.Some? then ri.value
        else if ra.Some? && ra.value.Some? then ra.value
        else if rw.Some? && rw.value.Some? then rw.value
        else if ri.Some? || ra.Some? || rw.Some? then None
        // no typed branch to try: the loop goes on from the same node
        else ScanAsWritten(nodes, key, i + 1, node, false, isInt, isAlpha)
      else if n.children[Slot(ch)].Some? then
        ScanAsWritten(nodes, key, i + 1, n.children[Slot(ch)].value, consuming, isInt, isAlpha)
      else if ch != End && !n.hasChildren && n.isLeaf then None
      else ScanAsWritten(nodes, key, i + 1, node, true, isInt && Text.IsDigit(ch), isAlpha && Text.IsLetter(ch))
  }

  /** `search(node, key)` as written in the source. */
  function FoundAsWritten<V>(nodes: seq<Node<V>>, node: nat, key: string): (r: Option<nat>)
    requires WellFormed(nodes) && node < |nodes| && AllInRange(key)
    ensures r.Some? ==> r.value < |nodes| && nodes[r.value].isLeaf
    decreases |key|, |key| + 2
  {
    ScanAsWritten(nodes, key, 0, node, false, true, true)
  }

  /** One step of the byte loop of `search`, corrected: a skipped segment that
      no typed branch accepts is a mismatch, where the source goes on walking
      from the node at which the skipping began. */
  function ScanFrom<V>(nodes: seq<Node<V>>, key: string, i: nat, node: nat,
                   consuming: bool, isInt: bool, isAlpha: bool): (r: Option<nat>)
    requires WellFormed(nodes) && node < |nodes| && AllInRange(key) && i <= |key| + 1
    requires consuming ==> 0 < i
    ensures r.Some? ==> r.value < |nodes| && nodes[r.value].isLeaf
    decreases |key|, |key| + 1 - i
  {
    if i == |key| + 1 then (if nodes[node].isLeaf then Some(node) else None)
    else
      var ch := if i < |key| then key[i] else End;
      var n := nodes[node];
      if consuming && (Slot(ch) == SlashSlot || ch == End) then
        var skey := key[i..];
        var ri := if isInt && n.children[IntSlot].Some? then Found(nodes, n.children[IntSlot].value, skey) else None;
        var ra := if isAlpha && n.children[AlphaSlot].Some? then Found(nodes, n.children[AlphaSlot].value, skey) else None;
        var rw := if n.children[WildcardSlot].Some? then Found(nodes, n.children[WildcardSlot].value, skey) else None;
        if ri.Some? then ri else if ra.Some? then ra else rw
      else if n.children[Slot(ch)].Some? then
        ScanFrom(nodes, key, i + 1, n.children[Slot(ch)].value, consuming, isInt, isAlpha)
      else if ch != End && !n.hasChildren && n.isLeaf then None
      else ScanFrom(nodes, key, i + 1, node, true, isInt && Text.IsDigit(ch), isAlpha && Text.IsLetter(ch))
  }

  /** `search(node, key)`, corrected as in `ScanFrom`. */
  function Found<V>(nodes: seq<Node<V>>, node: nat, key: string): (r: Option<nat>)
    requires WellFormed(nodes) && node < |nodes| && AllInRange(key)
    ensures r.Some? ==> r.value < |nodes| && nodes[r.value].isLeaf
    decreases |key|, |key| + 2
  {
    ScanFrom(nodes, key, 0, node, false, true, true)
  }

  /** The route stored at the leaf that the corrected `search` finds for
      `key` from the root. */
  function Lookup<V>(nodes: seq<Node<V>>, key: string): Option<V>
    requires WellFormed(nodes) && AllInRange(key)
  {
    match Found(nodes, 0, key)
    case None => None
    case Some(n) => nodes[n].value
  }

  /** `routerV2`: the trie's node arena, root at index 0.  (The `routes` map
      keyed by an MD5 of the path and the `wildcards` map are not modelled.) */
  class RouterV2<V> {
    var nodes: seq<Node<V>>

    ghost predicate Valid()
      reads this
    {
      WellFormed(nodes)
    }

    /** `NewRouterV2`: a lone root node. */
    constructor ()
      ensures Valid() && nodes == [NewNode()]
    {
      nodes := [NewNode()];
    }

    /** `insert(root, _, s, v)`, as called by `GET(s, ...)`. */
    method Insert(s: string, v: V)
      requires Valid() && AllInRange(s)
      modifies this
      ensures Valid()
      ensures nodes == Inserted(old(nodes), 0, s, v)
    {
      var node: nat := 0;
      var i := 0;
      while i < |s|
        invariant WellFormed(nodes) && 0 <= i <= |s| && node < |nodes|
        invariant Inserted(nodes, node, s[i..], v) == Inserted(old(nodes), 0, s, v)
      {
        var c := Slot(s[i]);
        assert s[i..][0] == s[i] && s[i..][1..] == s[i + 1..];
        if nodes[node].children[c].None? {
          nodes := nodes[node := nodes[node].(children := nodes[node].children[c := Some(|nodes|)])] + [NewNode()];
        }
        node := nodes[node].children[c].value;
        i := i + 1;
      }
      var empty := IsEmpty(nodes[node].children);
      nodes := nodes[node := nodes[node].(hasChildren := !empty, isLeaf := true, value := Some(v))];
    }

    /** `search(node, key)`: the byte loop, recursing on the rest of the key
        whenever a skipped segment ends at a node with typed branches. */
    method Search(node: nat, key: string) returns (r: Option<nat>)
      requires Valid() && node < |nodes| && AllInRange(key)
      ensures r == Found(nodes, node, key)
      ensures r.Some? ==> r.value < |nodes| && nodes[r.value].isLeaf
      decreases |key|
    {
      var cur: nat, i: nat := node, 0;
      var consuming, isInt, isAlpha := false, true, true;
      while i <= |key|
        invariant 0 <= i <= |key| + 1 && cur < |nodes| && (consuming ==> 0 < i)
        invariant ScanFrom(nodes, key, i, cur, consuming, isInt, isAlpha) == Found(nodes, node, key)
      {
        var ch := if i < |key| then key[i] else End;
        var c := Slot(ch);
        if consuming && (c == SlashSlot || ch == End) {
          var skey := key[i..];
          if isInt && nodes[cur].children[IntSlot].Some? {
            r := Search(nodes[cur].children[IntSlot].value, skey);
            if r.Some? {
              return;
            }
          }
          if isAlpha && nodes[cur].children[AlphaSlot].Some? {
            r := Search(nodes[cur].children[AlphaSlot].value, skey);
            if r.Some? {
              return;
            }
          }
          if nodes[cur].children[WildcardSlot].Some? {
            r := Search(nodes[cur].children[WildcardSlot].value, skey);
            if r.Some? {
              return;
            }
          }
          return None;
        } else if nodes[cur].children[c].Some? {
          cur := nodes[cur].children[c].value;
        } else {
          if ch != End && !nodes[cur].hasChildren && nodes[cur].isLeaf {
            return None;
          }
          consuming := true;
          isInt := isInt && Text.IsDigit(ch);
          isAlpha := isAlpha && Text.IsLetter(ch);
        }
        i := i + 1;
      }
      r := if nodes[cur].isLeaf then Some(cur) else None;
    }

    /** `routerV2.Match`: the route stored at the leaf `search` finds from the
        root, and whether there was one. */
    method Match(test: string) returns (route: Option<V>, matched: bool)
      requires Valid() && AllInRange(test)
      ensures matched <==> Found(nodes, 0, test).Some?
      ensures matched <==> route.Some?
      ensures route == Lookup(nodes, test)
    {
      var node := Search(0, test);
      if node.Some? {
        return nodes[node.value].value, true;
      }
      return None, false;
    }
  }
}
