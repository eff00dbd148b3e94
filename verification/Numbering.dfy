/** The flat numbering of (type, property) pairs. Every result holds for any
    table of entry counts, zero counts included. */
module Numbering {
  import opened Entries

  /** Number of entries of all types below t. */
  function Before(counts: seq<nat>, t: nat): nat
    requires t <= |counts|
  {
    if t == 0 then 0 else Before(counts, t - 1) + counts[t - 1]
  }

  ghost function Total(counts: seq<nat>): nat { Before(counts, |counts|) }

  ghost predicate ValidPair(counts: seq<nat>, k: Key) {
    k.typ < |counts| && k.property < counts[k.typ]
  }

  lemma {:induction false} BeforeMonotone(counts: seq<nat>, t: nat, u: nat)
    requires t <= u <= |counts|
    ensures Before(counts, t) <= Before(counts, u)
    ensures t < u ==> Before(counts, t) + counts[t] <= Before(counts, u)
    decreases u - t
  {
    if t < u {
      BeforeMonotone(counts, t + 1, u);
    }
  }

  /** k is the pair number i names: i falls into the block of k's type, at offset property. */
  ghost predicate Names(counts: seq<nat>, i: int, k: Key) {
    ValidPair(counts, k) && i == Before(counts, k.typ) + k.property
  }

  ghost predicate HasPair(counts: seq<nat>, i: int) {
    exists k :: Names(counts, i, k)
  }

  /** property is the offset of number i inside the block it falls into. */
  ghost predicate IsOffset(counts: seq<nat>, i: int, property: int) {
    property >= 0 && exists typ: nat :: Names(counts, i, Key(typ, property))
  }

  method GetFullEntryCount(counts: seq<nat>) returns (total: nat)
    ensures total == Total(counts)
  {
    total := 0;
    for i := 0 to |counts|
      invariant total == Before(counts, i)
    {
      total := total + counts[i];
    }
  }

  /** The search subtracts block sizes until it overshoots. The table is read only inside
      its bounds; negative numbers give the first type. */
  method GetTypeFromContinuousNumber(counts: seq<nat>, n: int) returns (typ: nat)
    requires |counts| > 0 && n < Total(counts)
    ensures typ < |counts|
    ensures n < 0 ==> typ == 0
    ensures n >= 0 ==> Before(counts, typ) <= n < Before(counts, typ) + counts[typ]
  {
    var i := n;
    typ := 0;
    while i >= 0
      invariant typ < |counts|
      invariant n < 0 ==> typ == 0 && i < 0
      invariant i >= 0 ==> i == n - Before(counts, typ)
      invariant n >= 0 && i < 0 ==> Before(counts, typ) <= n < Before(counts, typ) + counts[typ]
      decreases i >= 0, |counts| - typ
    {
      assert typ + 1 == |counts| ==> Total(counts) == Before(counts, typ) + counts[typ];
      i := i - counts[typ];
      if i >= 0 {
        typ := typ + 1;
      }
    }
  }

  /** Offset of n inside its type's block. */
  method NormalizeContinuousNumber(counts: seq<nat>, n: int) returns (property: int)
    requires |counts| > 0 && n < Total(counts)
    ensures n < 0 ==> property == n
    ensures n >= 0 ==> IsOffset(counts, n, property)
  {
    property := n;
    var typ := GetTypeFromContinuousNumber(counts, n);
    for t := 0 to typ
      invariant property == n - Before(counts, t)
    {
      property := property - counts[t];
    }
    assert n >= 0 ==> Names(counts, n, Key(typ, property));
  }

  /** The upward search finds the pair's number, and never leaves the table on the way. */
  method GetContinuousNumberFromPropertyType(counts: seq<nat>, k: Key) returns (i: nat)
    requires ValidPair(counts, k)
    ensures Names(counts, i, k)
  {
    ghost var goal := Before(counts, k.typ) + k.property;
    BeforeMonotone(counts, k.typ, |counts|);
    i := 0;
    while true
      invariant i <= goal < Total(counts)
      decreases goal - i
    {
      var property := NormalizeContinuousNumber(counts, i);
      var typ := GetTypeFromContinuousNumber(counts, i);
      NamedOnce(counts, i, typ, property);
      if k.property == property && k.typ == typ {
        return;
      }
      assert i == goal ==> Names(counts, i, k);
      NamesUnique(counts, i, Key(typ, property), if i == goal then k else Key(typ, property));
      i := i + 1;
    }
  }

  /** A number names at most one pair. */
  lemma NamesUnique(counts: seq<nat>, i: int, k: Key, j: Key)
    requires Names(counts, i, k) && Names(counts, i, j)
    ensures k == j
  {
    if k.typ < j.typ {
      BeforeMonotone(counts, k.typ, j.typ);
    } else if j.typ < k.typ {
      BeforeMonotone(counts, j.typ, k.typ);
    }
  }

  /** If the offset was computed for some type, it was computed for the type whose block holds i. */
  lemma NamedOnce(counts: seq<nat>, i: nat, typ: nat, property: int)
    requires typ < |counts| && Before(counts, typ) <= i < Before(counts, typ) + counts[typ]
    requires IsOffset(counts, i, property)
    ensures property >= 0 && Names(counts, i, Key(typ, property))
  {
    var other: nat :| Names(counts, i, Key(other, property));
    NamesUnique(counts, i, Key(other, property), Key(typ, i - Before(counts, typ)));
  }

  /** Every number below the total names a pair. */
  lemma {:induction false} EveryNumberNames(counts: seq<nat>, i: nat, upTo: nat)
    requires upTo <= |counts| && i < Before(counts, upTo)
    ensures HasPair(counts, i)
  {
    if i < Before(counts, upTo - 1) {
      EveryNumberNames(counts, i, upTo - 1);
    } else {
      assert Names(counts, i, Key(upTo - 1, i - Before(counts, upTo - 1)));
    }
  }

  /** Nested-loop order: by type, then by property. */
  ghost predicate Precedes(k: Key, j: Key) {
    k.typ < j.typ || (k.typ == j.typ && k.property < j.property)
  }

  /** The numbering is an order isomorphism between [0, total) and the valid pairs. */
  lemma NumberingIsBijection(counts: seq<nat>)
    ensures forall i :: 0 <= i < Total(counts) ==> HasPair(counts, i)
    ensures forall k :: ValidPair(counts, k) ==>
              exists i :: 0 <= i < Total(counts) && Names(counts, i, k)
    ensures forall i, j, k, l :: Names(counts, i, k) && Names(counts, j, l) ==>
              (i < j <==> Precedes(k, l))
  {
    forall i | 0 <= i < Total(counts) ensures HasPair(counts, i) {
      EveryNumberNames(counts, i, |counts|);
    }
    forall k | ValidPair(counts, k)
      ensures exists i :: 0 <= i < Total(counts) && Names(counts, i, k)
    {
      BeforeMonotone(counts, k.typ, |counts|);
      assert Names(counts, Before(counts, k.typ) + k.property, k);
    }
    forall i, j, k, l | Names(counts, i, k) && Names(counts, j, l)
      ensures i < j <==> Precedes(k, l)
    {
      if k.typ < l.typ {
        BeforeMonotone(counts, k.typ, l.typ);
      } else if l.typ < k.typ {
        BeforeMonotone(counts, l.typ, k.typ);
      }
    }
  }

  /** The nested loops of initDefaults: the i-th visit is to the pair that number i names, and
      every pair is visited once. */
  method InitDefaultsOrder(counts: seq<nat>) returns (visited: seq<Key>)
    ensures |visited| == Total(counts)
    ensures forall i :: 0 <= i < |visited| ==> Names(counts, i, visited[i])
  {
    visited := [];
    for typ := 0 to |counts|
      invariant |visited| == Before(counts, typ)
      invariant forall i :: 0 <= i < |visited| ==> Names(counts, i, visited[i])
    {
      for property := 0 to counts[typ]
        invariant |visited| == Before(counts, typ) + property
        invariant forall i :: 0 <= i < |visited| ==> Names(counts, i, visited[i])
      {
        visited := visited + [Key(typ, property)];
      }
    }
  }
}
