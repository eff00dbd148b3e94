/** How many UPDATEs one write costs. */
module MessageCount {
  import opened Entries
  import opened Propagation
  import opened Spreading

  ghost function Sends(trace: seq<Event>): nat {
    if trace == [] then 0
    else Sends(trace[..|trace| - 1]) + if trace[|trace| - 1].Sent? then 1 else 0
  }

  lemma SendsOne(trace: seq<Event>, a: nat)
    ensures Sends(trace + [Sent(a)]) == Sends(trace) + 1
  {
    assert (trace + [Sent(a)])[..|trace|] == trace;
  }

  lemma {:induction false} SendsNone(trace: seq<Event>, events: seq<Event>)
    requires forall i :: 0 <= i < |events| ==> events[i].Notified?
    ensures Sends(trace + events) == Sends(trace)
  {
    var all := trace + events;
    if events == [] {
      assert all == trace;
    } else {
      assert all[..|all| - 1] == trace + events[..|events| - 1];
      SendsNone(trace, events[..|events| - 1]);
    }
  }

  /** The registries that took v, and the adapters they own. */
  ghost function Changed(s: State, s': State, v: Value): set<nat> {
    set i: nat | i < |s.vals| && Took(s, s', i, v)
  }

  ghost function Movers(w: Wiring, s: State, s': State, v: Value): set<nat> {
    set a: nat | a < |w.owner| && Took(s, s', w.owner[a], v)
  }

  ghost function Own(w: Wiring, r: nat): set<nat> {
    set a: nat | a < |w.owner| && w.owner[a] == r
  }

  /** The adapters among these that will send. */
  ghost function Open(w: Wiring, s: State, slots: seq<Slot>): set<nat>
    requires WellFormed(w, s)
  {
    set a: nat | a < |w.owner| && Live(a) in slots && s.accept[a]
  }

  /** Between the two states: one UPDATE for every adapter of a changed registry, less one for
      every changed registry, plus extra. */
  ghost predicate Balance(w: Wiring, s: State, s': State, v: Value, extra: nat) {
    Sends(s'.trace) + |Changed(s, s', v)| == Sends(s.trace) + |Movers(w, s, s', v)| + extra
  }

  lemma MovesAdd(w: Wiring, s: State, s1: State, s': State, v: Value)
    requires |s.vals| == |s1.vals| == |s'.vals|
    requires Advances(s.vals, s1.vals, v) && Advances(s1.vals, s'.vals, v)
    ensures |Changed(s, s', v)| == |Changed(s, s1, v)| + |Changed(s1, s', v)|
    ensures |Movers(w, s, s', v)| == |Movers(w, s, s1, v)| + |Movers(w, s1, s', v)|
  {
    assert Changed(s, s', v) == Changed(s, s1, v) + Changed(s1, s', v);
    assert Changed(s, s1, v) !! Changed(s1, s', v);
    assert Movers(w, s, s', v) == Movers(w, s, s1, v) + Movers(w, s1, s', v);
    assert Movers(w, s, s1, v) !! Movers(w, s1, s', v);
  }

  lemma BalanceAdds(w: Wiring, s: State, s1: State, s': State, v: Value, x: nat, y: nat)
    requires |s.vals| == |s1.vals| == |s'.vals|
    requires Advances(s.vals, s1.vals, v) && Advances(s1.vals, s'.vals, v)
    requires Balance(w, s, s1, v, x) && Balance(w, s1, s', v, y)
    ensures Balance(w, s, s', v, x + y)
  {
    MovesAdd(w, s, s1, s', v);
  }

  /** Only values and the number of sends count. */
  lemma BalanceCarries(w: Wiring, s: State, s': State, t: State, t': State, v: Value, x: nat, more: nat)
    requires Balance(w, s, s', v, x) && t.vals == s.vals && t'.vals == s'.vals
    requires Sends(s'.trace) - Sends(s.trace) + more == Sends(t'.trace) - Sends(t.trace)
    ensures Balance(w, t, t', v, x + more)
  {
    assert Changed(s, s', v) == Changed(t, t', v) && Movers(w, s, s', v) == Movers(w, t, t', v);
  }

  lemma NothingMoves(w: Wiring, s: State, s': State, v: Value)
    requires s'.vals == s.vals && Sends(s'.trace) >= Sends(s.trace)
    ensures Balance(w, s, s', v, Sends(s'.trace) - Sends(s.trace))
  {
    assert Changed(s, s', v) == {} && Movers(w, s, s', v) == {};
  }

  /** Storing v in registry r: its adapters have yet to send. */
  lemma StoreMoves(w: Wiring, s: State, r: nat, v: Value)
    requires WellFormed(w, s) && r < |s.vals| && s.vals[r] != v
    ensures var stored := Stored(w, s, r, v);
            |Changed(s, stored, v)| == 1 && Movers(w, s, stored, v) == Own(w, r)
  {
    var stored := Stored(w, s, r, v);
    assert Changed(s, stored, v) == {r};
  }

  /** The part of the network the count is about: every adapter of a registry in C is subscribed,
      registered once, and leads to a registry in C. */
  ghost predicate Complete(w: Wiring, s: State, C: set<nat>)
    requires WellFormed(w, s)
  {
    && Paired(w, s) && NoDrops(w)
    && (forall a: nat :: a < |w.owner| && w.owner[a] in C ==>
          w.subscribed[a] && Live(a) in s.slots[w.owner[a]] && w.owner[Other(w, a)] in C)
    && (forall r: nat :: r < |s.slots| && r in C ==> OnceEach(s.slots[r]))
  }

  /** Where an adapter leads; an adapter that is not wired leads nowhere. */
  ghost function Other(w: Wiring, a: nat): nat
  {
    if a < |w.target| && w.target[a].Some? then w.target[a].value else a
  }

  /** Apart from the adapter that is bringing the change, only adapters of registries already at
      v are suppressed. */
  ghost predicate SuppressedSettled(w: Wiring, s: State, v: Value, bringer: Option<nat>)
    requires WellFormed(w, s)
  {
    forall a: nat :: a < |w.owner| && !s.accept[a] && bringer != Some(a) ==> s.vals[w.owner[a]] == v
  }

  ghost predicate Countable(w: Wiring, s: State, v: Value, bringer: Option<nat>, C: set<nat>)
    requires WellFormed(w, s)
  {
    Complete(w, s, C) && EchoesOnly(w, s, v) && SuppressedSettled(w, s, v, bringer)
  }

  lemma CountableStays(w: Wiring, s: State, s': State, v: Value, r: int, rest: seq<Slot>, C: set<nat>)
    requires WellFormed(w, s) && Progress(w, s, s', v, r) && Countable(w, s, v, None, C)
    requires s'.accept == s.accept && Ready(w, s, rest)
    ensures Countable(w, s', v, None, C) && Ready(w, s', rest) && Open(w, s', rest) == Open(w, s, rest)
  {
    EdgesStay(w, s, s', v, r);
  }

  /** While a's peer is being written, that peer is the one bringing the change. */
  lemma CountableAtPeer(w: Wiring, s: State, a: nat, v: Value, C: set<nat>)
    requires WellFormed(w, s) && a < |w.owner| && s.vals[w.owner[a]] == v
    requires Countable(w, s, v, None, C) && Delivers(w, s, a)
    ensures Countable(w, AtPeer(w, s, a), v, w.target[a], C)
  {
  }

  /** The adapters of a registry about to forward are open, but for the one bringing the change. */
  lemma OpenAtStart(w: Wiring, s: State, r: nat, v: Value, bringer: Option<nat>, C: set<nat>)
    requires WellFormed(w, s) && Complete(w, s, C) && r < |s.vals| && r in C && s.vals[r] != v
    requires SuppressedSettled(w, s, v, bringer)
    requires bringer.Some? ==>
               bringer.value < |w.owner| && w.owner[bringer.value] == r && !s.accept[bringer.value]
    ensures |Own(w, r)| == |Open(w, s, s.slots[r])| + if bringer.Some? then 1 else 0
  {
    if bringer.Some? {
      assert Own(w, r) == Open(w, s, s.slots[r]) + {bringer.value};
    } else {
      assert Own(w, r) == Open(w, s, s.slots[r]);
    }
  }

  lemma OpenStep(w: Wiring, s: State, slots: seq<Slot>)
    requires WellFormed(w, s) && slots != [] && OnceEach(slots)
    ensures |Open(w, s, slots)| == |Open(w, s, slots[1..])|
              + if slots[0].Live? && slots[0].adapter < |w.owner| && s.accept[slots[0].adapter] then 1 else 0
  {
    var rest := Open(w, s, slots[1..]);
    assert slots == [slots[0]] + slots[1..];
    if slots[0].Live? && slots[0].adapter < |w.owner| && s.accept[slots[0].adapter] {
      assert Open(w, s, slots) == rest + {slots[0].adapter};
      assert slots[0] !in slots[1..];
    } else {
      assert Open(w, s, slots) == rest;
    }
  }

  /** Every changed registry sends on all its adapters but the one that brought the change. */
  lemma {:induction false} SetCounts(w: Wiring, s: State, r: nat, v: Value, bringer: Option<nat>,
                                     C: set<nat>)
    requires WellFormed(w, s) && r < |s.vals| && r in C && Countable(w, s, v, bringer, C)
    requires bringer.Some? ==>
               bringer.value < |w.owner| && w.owner[bringer.value] == r && !s.accept[bringer.value]
    ensures Balance(w, s, SetRegistry(w, s, r, v), v, if s.vals[r] != v && bringer.None? then 1 else 0)
    decreases Pending(s.vals, v), 0, 0
  {
    if s.vals[r] == v {
      NothingMoves(w, s, s, v);
    } else {
      var stored := Stored(w, s, r, v);
      PendingShrinks(s.vals, stored.vals, v);
      assert stored.slots[r][0..] == s.slots[r];
      var done := Forward(w, stored, r, 0, v);
      assert Countable(w, stored, v, None, C);
      ForwardCounts(w, stored, r, 0, v, C);
      MovesAdd(w, s, stored, done, v);
      StoreMoves(w, s, r, v);
      OpenAtStart(w, s, r, v, bringer, C);
      assert Open(w, s, s.slots[r]) == Open(w, stored, s.slots[r]);
      assert Balance(w, s, done, v, if bringer.None? then 1 else 0);
      SendsNone(done.trace, seq(w.receivers[r], j requires 0 <= j => Notified(r, j, done.vals[r])));
      BalanceCarries(w, s, done, s, Notify(w, done, r), v, if bringer.None? then 1 else 0, 0);
    }
  }

  lemma {:induction false} ForwardCounts(w: Wiring, s: State, r: nat, it: nat, v: Value, C: set<nat>)
    requires WellFormed(w, s) && r < |s.vals| && r in C && s.vals[r] == v && it <= |s.slots[r]|
    requires Countable(w, s, v, None, C)
    requires Ready(w, s, s.slots[r][it..])
    ensures Balance(w, s, Forward(w, s, r, it, v), v, |Open(w, s, s.slots[r][it..])|)
    decreases Pending(s.vals, v), 3, |s.slots[r]| - it
  {
    var rest := s.slots[r][it..];
    if it == |s.slots[r]| {
      NothingMoves(w, s, s, v);
      assert Open(w, s, rest) == {};
    } else {
      var next := if s.slots[r][it].Live? then it + 1 else it;
      RestComesNext(w, s, r, it, v);
      ServeLeavesOpen(w, s, r, it, v, C);
      var s1 := Serve(w, s, r, it, v);
      ForwardCounts(w, s1, r, next, v, C);
      BalanceAdds(w, s, s1, Forward(w, s1, r, next, v), v, |Open(w, s, rest)| - |Open(w, s1, rest[1..])|,
                  |Open(w, s1, rest[1..])|);
    }
  }

  lemma {:induction false} ServeLeavesOpen(w: Wiring, s: State, r: nat, it: nat, v: Value, C: set<nat>)
    requires WellFormed(w, s) && r < |s.vals| && r in C && s.vals[r] == v && it < |s.slots[r]|
    requires Countable(w, s, v, None, C) && Ready(w, s, s.slots[r][it..])
    ensures var s1, rest := Serve(w, s, r, it, v), s.slots[r][it..];
            Countable(w, s1, v, None, C) && Ready(w, s1, rest[1..])
            && |Open(w, s1, rest[1..])| <= |Open(w, s, rest)|
            && Balance(w, s, s1, v, |Open(w, s, rest)| - |Open(w, s1, rest[1..])|)
    decreases Pending(s.vals, v), 2, 2
  {
    var rest := s.slots[r][it..];
    OpenStep(w, s, rest);
    ServeCounts(w, s, r, it, v, C);
    CountableStays(w, s, Serve(w, s, r, it, v), v, r, rest[1..], C);
  }

  lemma {:induction false} ServeCounts(w: Wiring, s: State, r: nat, it: nat, v: Value, C: set<nat>)
    requires WellFormed(w, s) && r < |s.vals| && r in C && s.vals[r] == v && it < |s.slots[r]|
    requires Countable(w, s, v, None, C) && Ready(w, s, s.slots[r][it..])
    ensures Serve(w, s, r, it, v).accept == s.accept
    ensures Balance(w, s, Serve(w, s, r, it, v), v,
                    if s.slots[r][it].Live? && s.accept[s.slots[r][it].adapter] then 1 else 0)
    decreases Pending(s.vals, v), 2, 1
  {
    assert s.slots[r][it] in s.slots[r][it..];
    if s.slots[r][it].Live? {
      SendCounts(w, s, s.slots[r][it].adapter, v, C);
      SendSpreads(w, s, s.slots[r][it].adapter, v);
    } else {
      NothingMoves(w, s, Serve(w, s, r, it, v), v);
    }
  }

  lemma {:induction false} SendCounts(w: Wiring, s: State, a: nat, v: Value, C: set<nat>)
    requires WellFormed(w, s) && a < |w.owner| && w.owner[a] in C && s.vals[w.owner[a]] == v
    requires Countable(w, s, v, None, C)
    requires PeerAccepts(w, s, a)
    ensures Balance(w, s, Send(w, s, a, v), v, if s.accept[a] then 1 else 0)
    decreases Pending(s.vals, v), 2, 0
  {
    SendUnfolds(w, s, a, v);
    SendsOne(s.trace, a);
    var s' := Send(w, s, a, v);
    if Delivers(w, s, a) {
      var b := w.target[a].value;
      var s1 := AtPeer(w, s, a);
      assert Other(w, a) == b && w.owner[b] in C;
      CountableAtPeer(w, s, a, v, C);
      SetCounts(w, s1, w.owner[b], v, Some(b), C);
      var s2 := SetRegistry(w, s1, w.owner[b], v);
      assert Balance(w, s1, s2, v, 0);
      BalanceCarries(w, s1, s2, s, s', v, 0, 1);
    } else {
      NothingMoves(w, s, s', v);
    }
  }

  // ---------------------------------------------------------------- links

  ghost function Component(w: Wiring, s: State, r: nat): set<nat> {
    set x: nat | x < |s.vals| && Connected(w, s, r, x)
  }

  /** A link inside the component, named by its lower-numbered end. */
  ghost function Links(w: Wiring, C: set<nat>): set<nat>
    requires |w.target| == |w.owner|
  {
    set a: nat | a < |w.owner| && w.owner[a] in C && w.target[a].Some? && a < w.target[a].value
  }

  /** A set is as large as its image under a map that can be undone. */
  lemma {:induction false} SameSize(A: set<nat>, B: set<nat>, f: nat -> nat)
    requires forall a :: a in A ==> f(a) in B && f(f(a)) == a
    requires forall b :: b in B ==> f(b) in A && f(f(b)) == b
    ensures |A| == |B|
  {
    if A == {} {
      assert B == {};
    } else {
      var a :| a in A;
      SameSize(A - {a}, B - {f(a)}, f);
    }
  }

  /** Two ends for each link. */
  lemma TwoEndsPerLink(w: Wiring, s: State, C: set<nat>)
    requires WellFormed(w, s) && Paired(w, s)
    requires forall a: nat :: a < |w.owner| && w.owner[a] in C ==>
               w.target[a].Some? && w.target[a].value != a && w.owner[w.target[a].value] in C
    ensures |set a: nat | a < |w.owner| && w.owner[a] in C| == 2 * |Links(w, C)|
  {
    var ends := set a: nat | a < |w.owner| && w.owner[a] in C;
    var upper := ends - Links(w, C);
    SameSize(Links(w, C), upper, a => Other(w, a));
    assert ends == Links(w, C) + upper;
  }

  /** The adapters of the registries in C are wired to other adapters, subscribed, and registered
      once with the registry they own. */
  ghost predicate FullyLinked(w: Wiring, s: State, C: set<nat>)
    requires WellFormed(w, s)
  {
    && (forall a: nat :: a < |w.owner| && w.owner[a] in C ==>
          w.subscribed[a] && w.target[a].Some? && w.target[a].value != a && Live(a) in s.slots[w.owner[a]])
    && (forall r: nat :: r < |s.slots| && r in C ==> OnceEach(s.slots[r]))
  }

  /** Linked registries of a component belong to it. */
  lemma ComponentIsLinked(w: Wiring, s: State, r: nat)
    requires WellFormed(w, s) && FullyLinked(w, s, Component(w, s, r))
    ensures var C := Component(w, s, r);
            forall a: nat :: a < |w.owner| && w.owner[a] in C ==> w.owner[w.target[a].value] in C
  {
    var C := Component(w, s, r);
    forall a: nat | a < |w.owner| && w.owner[a] in C ensures w.owner[w.target[a].value] in C {
      assert Live(a) in s.slots[w.owner[a]] && Carries(w, a);
      assert Edge(w, s, w.owner[a], PeerOf(w, a));
      ConnectedExtends(w, s, r, w.owner[a], PeerOf(w, a));
    }
  }

  /** A write that changes something changes exactly the component. */
  lemma ComponentChanges(w: Wiring, s: State, r: nat, v: Value)
    requires WellFormed(w, s) && Paired(w, s) && AllAccept(s) && NoDrops(w) && AgreeingWith(w, s, r)
    requires r < |s.vals| && s.vals[r] != v
    ensures var (s', C) := (SetRegistry(w, s, r, v), Component(w, s, r));
            r in C && Changed(s, s', v) == C
            && Movers(w, s, s', v) == set a: nat | a < |w.owner| && w.owner[a] in C
  {
    var s', C := SetRegistry(w, s, r, v), Component(w, s, r);
    assert r in C by {
      assert Chain(w, s, [r]) && [r][0] == r && [r][|[r]| - 1] == r;
    }
    forall x: nat | x < |s.vals| ensures x in C <==> Took(s, s', x, v) {
      ConvergedValue(w, s, r, v, x);
      if Connected(w, s, r, x) {
        ConnectedAgree(w, s, r, x);
      }
    }
  }

  /** The exact price of a write that changes something in an agreeing component: one with n
      registries and L links exchanges 2L - n + 1 UPDATEs, on every topology and whatever the rest
      of the network looks like. */
  lemma ExactMessageCount(w: Wiring, s: State, r: nat, v: Value)
    requires WellFormed(w, s) && Paired(w, s) && AllAccept(s) && NoDrops(w)
    requires FullyLinked(w, s, Component(w, s, r)) && AgreeingWith(w, s, r)
    requires r < |s.vals| && s.vals[r] != v
    ensures var C := Component(w, s, r);
            Sends(SetRegistry(w, s, r, v).trace)
            == Sends(s.trace) + 2 * |Links(w, C)| - |C| + 1
  {
    var C := Component(w, s, r);
    ComponentIsLinked(w, s, r);
    ComponentChanges(w, s, r, v);
    assert Countable(w, s, v, None, C);
    SetCounts(w, s, r, v, None, C);
    TwoEndsPerLink(w, s, C);
  }
}
