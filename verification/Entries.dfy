/** The typed property list every registry is built from, and the per-property
    tables (values, subscriptions, sequence records) laid out over it. */
module Entries {

  datatype Option<+T> = None | Some(value: T)

  /** A property value. Only equality matters to the protocol, and it must be reflexive. */
  type Value = int

  /** Number of entries of each type, in the order Int8, Int16, Int32, Int64, Uint8,
      Uint16, Uint32, Uint64, Float, Double, Bool, String. */
  const ENTRY_COUNTS: seq<nat> := [0, 10, 8, 0, 16, 8, 0, 0, 1, 0, 8, 1]

  const BOOL: nat := 10
  const STRING: nat := 11

  datatype Key = Key(typ: nat, property: nat)

  /** The control property that makes a lossy dropper forget everything. */
  const CTRL_RESET_SEQ_NUMBERS: Key := Key(BOOL, 7)

  /** What the receive callback checks before it looks at an entry. */
  predicate InRange(k: Key) {
    k.typ < |ENTRY_COUNTS| && k.property < ENTRY_COUNTS[k.typ]
  }

  /** One cell for each property. */
  predicate Shaped<T>(m: seq<seq<T>>) {
    |m| == |ENTRY_COUNTS| && forall t :: 0 <= t < |m| ==> |m[t]| == ENTRY_COUNTS[t]
  }

  function At<T>(m: seq<seq<T>>, k: Key): T
    requires Shaped(m) && InRange(k)
  {
    m[k.typ][k.property]
  }

  function Put<T>(m: seq<seq<T>>, k: Key, x: T): (r: seq<seq<T>>)
    requires Shaped(m) && InRange(k)
    ensures Shaped(r)
    ensures forall j :: InRange(j) ==> At(r, j) == if j == k then x else At(m, j)
  {
    m[k.typ := m[k.typ][k.property := x]]
  }

  /** Two tables are the same as soon as they agree on every property. */
  lemma SameTable<T>(m: seq<seq<T>>, n: seq<seq<T>>)
    requires Shaped(m) && Shaped(n)
    requires forall k :: InRange(k) ==> At(m, k) == At(n, k)
    ensures m == n
  {
    forall t | 0 <= t < |m| ensures m[t] == n[t] {
      forall p | 0 <= p < |m[t]| ensures m[t][p] == n[t][p] {
        assert At(m, Key(t, p)) == At(n, Key(t, p));
      }
    }
  }

  /** The table with property k blanked out. */
  ghost function Besides(m: seq<seq<Value>>, k: Key): seq<seq<Value>> {
    if Shaped(m) && InRange(k) then Put(m, k, 0) else m
  }

  /** Writing k changes nothing besides k. */
  lemma PutBesides(m: seq<seq<Value>>, k: Key, v: Value)
    requires Shaped(m) && InRange(k)
    ensures Besides(Put(m, k, v), k) == Besides(m, k)
  {
    SameTable(Besides(Put(m, k, v), k), Besides(m, k));
  }

  /** What agreeing besides k means: the same value for every other property. */
  lemma SameBesides(m: seq<seq<Value>>, n: seq<seq<Value>>, k: Key, j: Key)
    requires Shaped(m) && Shaped(n) && InRange(k) && InRange(j) && j != k
    requires Besides(m, k) == Besides(n, k)
    ensures At(m, j) == At(n, j)
  {
    assert At(Besides(m, k), j) == At(Besides(n, k), j);
  }
}
