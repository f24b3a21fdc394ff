/** The `Key` cursor of router_v2.go: a string with a position, and the
    value-returning helpers that move the position or edit the string.
    Indices are bytes; the source's runes are taken to be single bytes. */
module TrieKey {

  datatype Key = Key(keyPos: int, val: string)

  /** `Consume`: drops the byte under the cursor, which stays put. */
  function Consume(k: Key): (r: Key)
    requires 0 <= k.keyPos < |k.val|
    ensures r.keyPos == k.keyPos && |r.val| == |k.val| - 1
    ensures forall i :: 0 <= i < |r.val| ==> r.val[i] == if i < k.keyPos then k.val[i] else k.val[i + 1]
  {
    Key(k.keyPos, k.val[..k.keyPos] + k.val[k.keyPos + 1..])
  }

  /** `Append`: adds a byte at the end and advances the cursor. */
  function Append(k: Key, ch: char): (r: Key)
    ensures r.keyPos == k.keyPos + 1 && |r.val| == |k.val| + 1
    ensures r.val[..|k.val|] == k.val && r.val[|k.val|] == ch
  {
    Key(k.keyPos + 1, k.val + [ch])
  }

  /** `InsertAt`: overwrites the byte at `index`; length and cursor stay. */
  function InsertAt(k: Key, ch: char, index: int): (r: Key)
    requires 0 <= index < |k.val|
    ensures r.keyPos == k.keyPos && |r.val| == |k.val| && r.val[index] == ch
    ensures forall i :: 0 <= i < |k.val| && i != index ==> r.val[i] == k.val[i]
  {
    Key(k.keyPos, k.val[..index] + [ch] + k.val[index + 1..])
  }

  /** `Next`: advances the cursor over an unchanged string. */
  function Next(k: Key): (r: Key)
    ensures r.val == k.val && r.keyPos == k.keyPos + 1
  {
    Key(k.keyPos + 1, k.val)
  }

  /** `Current`: the byte under the cursor. */
  function Current(k: Key): char
    requires 0 <= k.keyPos < |k.val|
  {
    k.val[k.keyPos]
  }

  /** `HasNext`: the cursor is before the end of the string. */
  predicate HasNext(k: Key) {
    k.keyPos < |k.val|
  }

  /** Overwriting the byte under the cursor is what `Current` then reads, and
      overwriting it with the byte already there changes nothing. */
  lemma InsertAtCurrent(k: Key, ch: char)
    requires 0 <= k.keyPos < |k.val|
    ensures Current(InsertAt(k, ch, k.keyPos)) == ch
    ensures InsertAt(k, Current(k), k.keyPos) == k
  {
    assert k.val[..k.keyPos] + [k.val[k.keyPos]] + k.val[k.keyPos + 1..] == k.val;
  }

  /** Consuming the byte under the cursor brings its successor under it and
      leaves the rest of the string from the cursor on shifted by one. */
  lemma ConsumeShifts(k: Key)
    requires 0 <= k.keyPos < |k.val| - 1
    ensures Current(Consume(k)) == k.val[k.keyPos + 1]
    ensures Consume(k).val[k.keyPos..] == k.val[k.keyPos + 1..]
  {
  }

  /** A cursor that starts at 0 and takes `n` steps with `Next` reads the
      string in order: it is before the end exactly while `n < |val|`. */
  lemma {:induction false} NextWalks(k: Key, n: nat)
    requires k.keyPos == 0
    ensures Steps(k, n) == Key(n, k.val)
    ensures HasNext(Steps(k, n)) <==> n < |k.val|
  {
    if n > 0 {
      NextWalks(k, n - 1);
    }
  }

  /** `n` applications of `Next`. */
  function Steps(k: Key, n: nat): Key {
    if n == 0 then k else Next(Steps(k, n - 1))
  }

  /** Appending to a key whose cursor is at the end keeps it at the end, and
      the appended byte is the last one. */
  lemma AppendAtEnd(k: Key, ch: char)
    requires k.keyPos == |k.val|
    ensures Append(k, ch).keyPos == |Append(k, ch).val| && !HasNext(Append(k, ch))
    ensures Current(Key(k.keyPos, Append(k, ch).val)) == ch
  {
  }
}
