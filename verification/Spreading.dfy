/** What one write does to a network: where it arrives, who is told, which flags survive. */
module Spreading {
  import opened Entries
  import opened Propagation

  /** Registry i took the value between the two states. */
  ghost predicate Took(s: State, s': State, i: nat, v: Value) {
    i < |s.vals| == |s'.vals| && s.vals[i] != v && s'.vals[i] == v
  }

  // ---------------------------------------------------------------- one send

  /** Adapter a sends, and its peer b does not drop. */
  ghost predicate Delivers(w: Wiring, s: State, a: nat)
    requires WellFormed(w, s) && a < |w.owner|
  {
    s.accept[a] && w.subscribed[a] && w.target[a].Some? && !w.verdict(|s.trace|)
  }

  /** The state in which the peer's registry is written. */
  ghost function AtPeer(w: Wiring, s: State, a: nat): (s1: State)
    requires WellFormed(w, s) && a < |w.owner| && Delivers(w, s, a)
    ensures WellFormed(w, s1)
  {
    Suppressed(w, Logged(w, s, Sent(a)), w.target[a].value)
  }

  /** One send seen from outside: the peer's registry is written between closing and
      reopening the peer's flag; a send that is not delivered moves no value and no flag. */
  lemma SendUnfolds(w: Wiring, s: State, a: nat, v: Value)
    requires WellFormed(w, s) && a < |w.owner|
    ensures !Delivers(w, s, a) ==>
              Send(w, s, a, v).vals == s.vals && Send(w, s, a, v).accept == s.accept
    ensures Delivers(w, s, a) ==>
              var b := w.target[a].value;
              Send(w, s, a, v) == Accepting(w, SetRegistry(w, AtPeer(w, s, a), w.owner[b], v), b, true)
  {
    if Delivers(w, s, a) {
      var b := w.target[a].value;
      assert Send(w, s, a, v) == Receive(w, Logged(w, s, Sent(a)), b, v, |s.trace|);
    }
  }

  // ---------------------------------------------------------------- receivers

  lemma {:induction false} NotifiedOnceEach(n: nat, r: nat, x: Value, e: Event)
    ensures multiset(seq(n, j requires 0 <= j => Notified(r, j, x)))[e]
         == if e.Notified? && e.registry == r && e.receiver < n && e.seen == x then 1 else 0
  {
    var events := seq(n, j requires 0 <= j => Notified(r, j, x));
    if n > 0 {
      NotifiedOnceEach(n - 1, r, x, e);
      assert events == seq(n - 1, j requires 0 <= j => Notified(r, j, x)) + [Notified(r, n - 1, x)];
    }
  }

  /** By how much the number of calls of receiver j of registry i that saw x must grow. */
  ghost function Told(w: Wiring, s: State, s': State, v: Value, i: nat, j: nat, x: Value): nat
    requires i < |w.receivers|
  {
    if Took(s, s', i, v) && j < w.receivers[i] && x == v then 1 else 0
  }

  lemma ToldAdds(w: Wiring, s: State, s1: State, s': State, v: Value, i: nat, j: nat, x: Value)
    requires i < |w.receivers| && |s.vals| == |s1.vals| == |s'.vals|
    requires Advances(s.vals, s1.vals, v) && Advances(s1.vals, s'.vals, v)
    ensures Told(w, s, s', v, i, j, x) == Told(w, s, s1, v, i, j, x) + Told(w, s1, s', v, i, j, x)
  {
  }

  /** On every topology, for arbitrary starting values, subscriptions, flags, expired adapters and
      drop decisions: a receiver is called exactly once if its registry changed and saw the new
      value, and not at all otherwise. So every registry changes at most once. */
  lemma {:induction false} ReceiversCalledOnce(w: Wiring, s: State, r: nat, v: Value,
                                               i: nat, j: nat, x: Value)
    requires WellFormed(w, s) && r < |s.vals| && i < |s.vals|
    ensures var s' := SetRegistry(w, s, r, v);
            multiset(s'.trace)[Notified(i, j, x)]
            == multiset(s.trace)[Notified(i, j, x)] + Told(w, s, s', v, i, j, x)
    decreases Pending(s.vals, v), 0, 0
  {
    if s.vals[r] != v {
      var stored := Stored(w, s, r, v);
      PendingShrinks(s.vals, stored.vals, v);
      var done := Forward(w, stored, r, 0, v);
      ForwardTells(w, stored, r, 0, v, i, j, x);
      NotifiedOnceEach(w.receivers[r], r, v, Notified(i, j, x));
    }
  }

  lemma {:induction false} ForwardTells(w: Wiring, s: State, r: nat, it: nat, v: Value,
                                        i: nat, j: nat, x: Value)
    requires WellFormed(w, s) && r < |s.vals| && s.vals[r] == v && it <= |s.slots[r]|
    requires i < |s.vals|
    ensures var s' := Forward(w, s, r, it, v);
            multiset(s'.trace)[Notified(i, j, x)]
            == multiset(s.trace)[Notified(i, j, x)] + Told(w, s, s', v, i, j, x)
    decreases Pending(s.vals, v), 3, |s.slots[r]| - it
  {
    if it < |s.slots[r]| {
      var s1 := Serve(w, s, r, it, v);
      var next := if s.slots[r][it].Live? then it + 1 else it;
      if s.slots[r][it].Live? {
        SendTells(w, s, s.slots[r][it].adapter, v, i, j, x);
      }
      RestComesNext(w, s, r, it, v);
      ForwardTells(w, s1, r, next, v, i, j, x);
      ToldAdds(w, s, s1, Forward(w, s1, r, next, v), v, i, j, x);
    }
  }

  lemma {:induction false} SendTells(w: Wiring, s: State, a: nat, v: Value, i: nat, j: nat, x: Value)
    requires WellFormed(w, s) && a < |w.owner| && i < |s.vals|
    ensures var s' := Send(w, s, a, v);
            multiset(s'.trace)[Notified(i, j, x)]
            == multiset(s.trace)[Notified(i, j, x)] + Told(w, s, s', v, i, j, x)
    decreases Pending(s.vals, v), 2, 0
  {
    SendUnfolds(w, s, a, v);
    if Delivers(w, s, a) {
      ReceiversCalledOnce(w, AtPeer(w, s, a), w.owner[w.target[a].value], v, i, j, x);
    }
  }

  // ---------------------------------------------------------------- the adapter lists

  /** The list without its expired entries. */
  ghost function LiveOnes(slots: seq<Slot>): seq<Slot> {
    if slots == [] then [] else (if slots[0].Live? then [slots[0]] else []) + LiveOnes(slots[1..])
  }

  /** What becomes of registry x's list between the two states. */
  ghost predicate Pruning(s: State, s': State, v: Value, x: nat) {
    x < |s.slots| == |s'.slots|
    && s'.slots[x] == if Took(s, s', x, v) then LiveOnes(s.slots[x]) else s.slots[x]
  }

  lemma PruningAdds(s: State, s1: State, s': State, v: Value, x: nat)
    requires |s.vals| == |s1.vals| == |s'.vals|
    requires Advances(s.vals, s1.vals, v) && Advances(s1.vals, s'.vals, v)
    requires Pruning(s, s1, v, x) && Pruning(s1, s', v, x)
    ensures Pruning(s, s', v, x)
  {
  }

  /** On every topology and for any flags and drop decisions: a registry that changed has lost its
      expired adapters and kept the others in their order; every other list is as it was. */
  lemma {:induction false} PrunesExpired(w: Wiring, s: State, r: nat, v: Value, x: nat)
    requires WellFormed(w, s) && r < |s.vals| && x < |s.vals|
    ensures Pruning(s, SetRegistry(w, s, r, v), v, x)
    decreases Pending(s.vals, v), 0, 0
  {
    if s.vals[r] != v {
      var stored := Stored(w, s, r, v);
      PendingShrinks(s.vals, stored.vals, v);
      if x == r {
        ForwardPrunesOwn(w, stored, r, 0, v);
        assert s.slots[r][..0] == [] && s.slots[r][0..] == s.slots[r];
      } else {
        ForwardPrunes(w, stored, r, 0, v, x);
      }
    }
  }

  lemma {:induction false} ForwardPrunesOwn(w: Wiring, s: State, r: nat, it: nat, v: Value)
    requires WellFormed(w, s) && r < |s.vals| && s.vals[r] == v && it <= |s.slots[r]|
    ensures Forward(w, s, r, it, v).slots[r] == s.slots[r][..it] + LiveOnes(s.slots[r][it..])
    decreases Pending(s.vals, v), 3, |s.slots[r]| - it
  {
    var slots := s.slots[r];
    if it == |slots| {
      assert slots[..it] + [] == slots;
    } else {
      RestComesNext(w, s, r, it, v);
      var next := if slots[it].Live? then it + 1 else it;
      ForwardPrunesOwn(w, Serve(w, s, r, it, v), r, next, v);
      HeadOfLiveOnes(slots, it);
      assert Erase(slots, it)[..it] == slots[..it] || slots[it].Live?;
    }
  }

  lemma HeadOfLiveOnes(slots: seq<Slot>, it: nat)
    requires it < |slots|
    ensures slots[..it] + LiveOnes(slots[it..])
         == (if slots[it].Live? then slots[..it + 1] else slots[..it]) + LiveOnes(slots[it + 1..])
  {
    assert slots[it..][1..] == slots[it + 1..];
    assert slots[..it + 1] == slots[..it] + [slots[it]];
  }

  lemma {:induction false} ForwardPrunes(w: Wiring, s: State, r: nat, it: nat, v: Value, x: nat)
    requires WellFormed(w, s) && r < |s.vals| && s.vals[r] == v && it <= |s.slots[r]|
    requires x < |s.vals| && x != r
    ensures Pruning(s, Forward(w, s, r, it, v), v, x)
    decreases Pending(s.vals, v), 3, |s.slots[r]| - it
  {
    if it < |s.slots[r]| {
      var s1 := Serve(w, s, r, it, v);
      if s.slots[r][it].Live? {
        SendPrunes(w, s, s.slots[r][it].adapter, v, x);
      }
      RestComesNext(w, s, r, it, v);
      ForwardPrunes(w, s1, r, if s.slots[r][it].Live? then it + 1 else it, v, x);
      PruningAdds(s, s1, Forward(w, s, r, it, v), v, x);
    }
  }

  lemma {:induction false} SendPrunes(w: Wiring, s: State, a: nat, v: Value, x: nat)
    requires WellFormed(w, s) && a < |w.owner| && x < |s.vals|
    ensures Pruning(s, Send(w, s, a, v), v, x)
    decreases Pending(s.vals, v), 2, 0
  {
    SendUnfolds(w, s, a, v);
    if Delivers(w, s, a) {
      PrunesExpired(w, AtPeer(w, s, a), w.owner[w.target[a].value], v, x);
    }
  }

  // ---------------------------------------------------------------- the update flags

  /** An UPDATE sent as event from or later arrived at adapter b and was not dropped. */
  ghost predicate Arrived(w: Wiring, trace: seq<Event>, from: nat, b: nat) {
    exists n: nat :: from <= n < |trace| && ArrivesAt(w, trace[n], b) && !w.verdict(n)
  }

  ghost predicate ArrivesAt(w: Wiring, e: Event, b: nat) {
    e.Sent? && e.adapter < |w.target| && w.target[e.adapter] == Some(b)
  }

  /** The trace has only grown, and each of b's flags was raised exactly if something arrived at b. */
  ghost predicate FlagsArrivals(w: Wiring, s: State, s': State, b: nat) {
    && s.trace <= s'.trace && b < |s.hadUpdate| == |s'.hadUpdate| == |s.accept| == |s'.accept|
    && (s'.hadUpdate[b] <==> s.hadUpdate[b] || Arrived(w, s'.trace, |s.trace|, b))
    && (s'.accept[b] <==> s.accept[b] || Arrived(w, s'.trace, |s.trace|, b))
  }

  lemma ArrivalsAdd(w: Wiring, s: State, s1: State, s': State, b: nat)
    requires FlagsArrivals(w, s, s1, b) && FlagsArrivals(w, s1, s', b)
    ensures FlagsArrivals(w, s, s', b)
  {
    forall n: nat | n < |s1.trace| ensures s1.trace[n] == s'.trace[n] {}
  }

  /** Only receivers are told after the forwarding: nothing arrives by that. */
  lemma NothingArrives(w: Wiring, s: State, s': State, b: nat)
    requires s'.hadUpdate == s.hadUpdate && s'.accept == s.accept && s.trace <= s'.trace
    requires b < |s.hadUpdate| == |s.accept|
    requires forall n :: |s.trace| <= n < |s'.trace| ==> !ArrivesAt(w, s'.trace[n], b) || w.verdict(n)
    ensures FlagsArrivals(w, s, s', b)
  {
  }

  /** On every topology and for any flags and drop decisions: hadUpdate is raised at exactly the
      adapters at which an UPDATE arrived that was not dropped; these accept afterwards, whatever
      they did before, and the others keep their accept flag. */
  lemma {:induction false} HadUpdateIffArrived(w: Wiring, s: State, r: nat, v: Value, b: nat)
    requires WellFormed(w, s) && r < |s.vals| && b < |w.owner|
    ensures FlagsArrivals(w, s, SetRegistry(w, s, r, v), b)
    decreases Pending(s.vals, v), 0, 0
  {
    if s.vals[r] != v {
      var stored := Stored(w, s, r, v);
      PendingShrinks(s.vals, stored.vals, v);
      ForwardFlags(w, stored, r, 0, v, b);
      var done := Forward(w, stored, r, 0, v);
      NothingArrives(w, done, Notify(w, done, r), b);
      ArrivalsAdd(w, stored, done, Notify(w, done, r), b);
    }
  }

  lemma {:induction false} ForwardFlags(w: Wiring, s: State, r: nat, it: nat, v: Value, b: nat)
    requires WellFormed(w, s) && r < |s.vals| && s.vals[r] == v && it <= |s.slots[r]| && b < |w.owner|
    ensures FlagsArrivals(w, s, Forward(w, s, r, it, v), b)
    decreases Pending(s.vals, v), 3, |s.slots[r]| - it
  {
    if it < |s.slots[r]| {
      var s1 := Serve(w, s, r, it, v);
      var next := if s.slots[r][it].Live? then it + 1 else it;
      if s.slots[r][it].Live? {
        SendFlags(w, s, s.slots[r][it].adapter, v, b);
      }
      RestComesNext(w, s, r, it, v);
      ForwardFlags(w, s1, r, next, v, b);
      ArrivalsAdd(w, s, s1, Forward(w, s1, r, next, v), b);
    }
  }

  lemma {:induction false} SendFlags(w: Wiring, s: State, a: nat, v: Value, b: nat)
    requires WellFormed(w, s) && a < |w.owner| && b < |w.owner|
    ensures FlagsArrivals(w, s, Send(w, s, a, v), b)
    decreases Pending(s.vals, v), 2, 0
  {
    SendUnfolds(w, s, a, v);
    var s' := Send(w, s, a, v);
    if Delivers(w, s, a) {
      var s1 := AtPeer(w, s, a);
      var c := w.target[a].value;
      HadUpdateIffArrived(w, s1, w.owner[c], v, b);
      var s2 := SetRegistry(w, s1, w.owner[c], v);
      assert s2.trace[|s.trace|] == s1.trace[|s.trace|] == Sent(a);
      if b == c {
        assert ArrivesAt(w, s'.trace[|s.trace|], b);
      } else {
        NothingArrives(w, s, s1.(accept := s.accept, hadUpdate := s.hadUpdate), b);
        assert FlagsArrivals(w, s, s1, b);
        ArrivalsAdd(w, s, s1, s2, b);
      }
    } else {
      NothingArrives(w, s, s', b);
    }
  }

  // ---------------------------------------------------------------- edges, flags, closure

  /** An adapter that has somewhere to send the property. */
  ghost predicate Carries(w: Wiring, a: nat) {
    a < |w.owner| == |w.target| == |w.subscribed| && w.subscribed[a] && w.target[a].Some?
    && w.target[a].value < |w.owner|
  }

  ghost function PeerOf(w: Wiring, a: nat): nat
    requires Carries(w, a)
  {
    w.owner[w.target[a].value]
  }

  /** Registry x has a live, subscribed adapter that leads to registry y. */
  ghost predicate Edge(w: Wiring, s: State, x: nat, y: nat) {
    x < |s.slots| && exists a: nat :: Live(a) in s.slots[x] && Carries(w, a) && PeerOf(w, a) == y
  }

  /** Adapters are wired in pairs, and registered at the registry they own. */
  ghost predicate Paired(w: Wiring, s: State)
    requires WellFormed(w, s)
  {
    && (forall a: nat :: a < |w.owner| && w.target[a].Some? ==> w.target[w.target[a].value] == Some(a))
    && (forall r: nat, a: nat :: r < |s.slots| && Live(a) in s.slots[r] ==> w.owner[a] == r)
  }

  /** An adapter is suppressed only while the registry behind it already holds v. */
  ghost predicate EchoesOnly(w: Wiring, s: State, v: Value)
    requires WellFormed(w, s)
  {
    forall a: nat :: a < |w.owner| && !s.accept[a] && w.target[a].Some?
                     ==> s.vals[w.owner[w.target[a].value]] == v
  }

  ghost predicate PeerAccepts(w: Wiring, s: State, a: nat)
    requires WellFormed(w, s) && a < |w.owner|
  {
    w.target[a].Some? ==> s.accept[w.target[a].value]
  }

  ghost predicate NoDrops(w: Wiring) { forall k :: !w.verdict(k) }

  /** Every registry that took v has all the registries its edges lead to at v. */
  ghost predicate NeighboursFollow(w: Wiring, s: State, s': State, v: Value)
    requires |s'.vals| == |s.vals|
  {
    forall x: nat, y: nat :: Took(s, s', x, v) && Edge(w, s, x, y) && y < |s.vals| ==> s'.vals[y] == v
  }

  lemma EdgesStay(w: Wiring, s: State, s': State, v: Value, r: int)
    requires WellFormed(w, s) && Progress(w, s, s', v, r)
    ensures forall x: nat, y: nat :: Edge(w, s, x, y) <==> Edge(w, s', x, y)
    ensures Paired(w, s) ==> Paired(w, s')
  {
    forall x: nat, y: nat ensures Edge(w, s, x, y) <==> Edge(w, s', x, y) {
      if Edge(w, s, x, y) {
        var a: nat :| Live(a) in s.slots[x] && Carries(w, a) && PeerOf(w, a) == y;
        assert Live(a) in s'.slots[x];
      }
      if Edge(w, s', x, y) {
        var a: nat :| Live(a) in s'.slots[x] && Carries(w, a) && PeerOf(w, a) == y;
        assert Live(a) in s.slots[x];
      }
    }
  }

  /** A suppressed adapter always leads to a registry that is already at v. Hence a write hands
      every accept flag back as it found it, and if nothing is dropped, each registry that
      changed leaves all its neighbours at v. */
  lemma {:induction false} SetSpreads(w: Wiring, s: State, r: nat, v: Value)
    requires WellFormed(w, s) && r < |s.vals| && Paired(w, s) && EchoesOnly(w, s, v)
    ensures var s' := SetRegistry(w, s, r, v);
            s'.accept == s.accept && (NoDrops(w) ==> NeighboursFollow(w, s, s', v))
    decreases Pending(s.vals, v), 0, 0
  {
    if s.vals[r] != v {
      var stored := Stored(w, s, r, v);
      PendingShrinks(s.vals, stored.vals, v);
      assert stored.slots[r][0..] == s.slots[r];
      ForwardSpreads(w, stored, r, 0, v);
      var done := Forward(w, stored, r, 0, v);
      if NoDrops(w) {
        forall x: nat, y: nat | Took(s, done, x, v) && Edge(w, s, x, y) && y < |s.vals|
          ensures done.vals[y] == v
        {
          if x == r {
            var a: nat :| Live(a) in s.slots[x] && Carries(w, a) && PeerOf(w, a) == y;
          } else {
            assert Took(stored, done, x, v) && Edge(w, stored, x, y);
          }
        }
      }
    }
  }

  /** All registries behind these adapters are at v. */
  ghost predicate Covered(w: Wiring, s: State, slots: seq<Slot>, v: Value)
    requires WellFormed(w, s)
  {
    forall a: nat :: Live(a) in slots && Carries(w, a) ==> s.vals[PeerOf(w, a)] == v
  }

  /** The adapters still to be served have peers that accept. */
  ghost predicate Ready(w: Wiring, s: State, slots: seq<Slot>)
    requires WellFormed(w, s)
  {
    forall a: nat :: a < |w.owner| && Live(a) in slots ==> PeerAccepts(w, s, a)
  }

  lemma {:induction false} ForwardSpreads(w: Wiring, s: State, r: nat, it: nat, v: Value)
    requires WellFormed(w, s) && r < |s.vals| && s.vals[r] == v && it <= |s.slots[r]|
    requires Paired(w, s) && EchoesOnly(w, s, v) && Ready(w, s, s.slots[r][it..])
    ensures var s' := Forward(w, s, r, it, v);
            s'.accept == s.accept
            && (NoDrops(w) ==> NeighboursFollow(w, s, s', v) && Covered(w, s', s.slots[r][it..], v))
    decreases Pending(s.vals, v), 3, |s.slots[r]| - it
  {
    if it < |s.slots[r]| {
      var s1 := Serve(w, s, r, it, v);
      var next := if s.slots[r][it].Live? then it + 1 else it;
      ServeSpreads(w, s, r, it, v);
      RestComesNext(w, s, r, it, v);
      EdgesStay(w, s, s1, v, r);
      ForwardSpreads(w, s1, r, next, v);
      if NoDrops(w) {
        NeighboursCompose(w, s, s1, Forward(w, s1, r, next, v), v);
      }
    }
  }

  lemma {:induction false} ServeSpreads(w: Wiring, s: State, r: nat, it: nat, v: Value)
    requires WellFormed(w, s) && r < |s.vals| && s.vals[r] == v && it < |s.slots[r]|
    requires Paired(w, s) && EchoesOnly(w, s, v) && Ready(w, s, s.slots[r][it..])
    ensures var s1 := Serve(w, s, r, it, v);
            s1.accept == s.accept
            && (NoDrops(w) ==> NeighboursFollow(w, s, s1, v) && Covered(w, s1, [s.slots[r][it]], v))
    decreases Pending(s.vals, v), 2, 1
  {
    if s.slots[r][it].Live? {
      assert s.slots[r][it] in s.slots[r][it..];
      SendSpreads(w, s, s.slots[r][it].adapter, v);
    }
  }

  lemma {:induction false} SendSpreads(w: Wiring, s: State, a: nat, v: Value)
    requires WellFormed(w, s) && a < |w.owner| && s.vals[w.owner[a]] == v
    requires Paired(w, s) && EchoesOnly(w, s, v) && PeerAccepts(w, s, a)
    ensures var s' := Send(w, s, a, v);
            s'.accept == s.accept
            && (NoDrops(w) ==>
                  NeighboursFollow(w, s, s', v) && (Carries(w, a) ==> s'.vals[PeerOf(w, a)] == v))
    decreases Pending(s.vals, v), 2, 0
  {
    SendUnfolds(w, s, a, v);
    if Delivers(w, s, a) {
      var b := w.target[a].value;
      var s1 := AtPeer(w, s, a);
      SetSpreads(w, s1, w.owner[b], v);
      var s2 := SetRegistry(w, s1, w.owner[b], v);
      assert s2.accept[b := true] == s.accept;
      if NoDrops(w) {
        forall x: nat, y: nat | Took(s, s2, x, v) && Edge(w, s, x, y) && y < |s.vals|
          ensures s2.vals[y] == v
        {
          assert Took(s1, s2, x, v) && Edge(w, s1, x, y);
        }
      }
    }
  }

  lemma NeighboursCompose(w: Wiring, s: State, s1: State, s': State, v: Value)
    requires |s.vals| == |s1.vals| == |s'.vals|
    requires Advances(s.vals, s1.vals, v) && Advances(s1.vals, s'.vals, v)
    requires NeighboursFollow(w, s, s1, v) && NeighboursFollow(w, s1, s', v)
    requires forall x: nat, y: nat :: Edge(w, s, x, y) <==> Edge(w, s1, x, y)
    ensures NeighboursFollow(w, s, s', v)
  {
    forall x: nat, y: nat | Took(s, s', x, v) && Edge(w, s, x, y) && y < |s.vals|
      ensures s'.vals[y] == v
    {
      assert Took(s, s1, x, v) || Took(s1, s', x, v);
    }
  }

  // ---------------------------------------------------------------- containment

  /** No edge leaves the set between registries that do not hold v yet. */
  ghost predicate Closed(w: Wiring, s: State, S: set<nat>, v: Value) {
    forall x: nat, y: nat ::
      (x in S && x < |s.vals| && s.vals[x] != v && Edge(w, s, x, y) && y < |s.vals| && s.vals[y] != v)
      ==> y in S
  }

  ghost predicate Stays(s: State, s': State, S: set<nat>, v: Value) {
    forall i: nat :: Took(s, s', i, v) ==> i in S
  }

  /** Whatever the flags, subscriptions and drop decisions, a write never leaves a closed set. */
  lemma {:induction false} SetIsContained(w: Wiring, s: State, r: nat, v: Value, S: set<nat>)
    requires WellFormed(w, s) && r < |s.vals| && r in S && Closed(w, s, S, v)
    ensures Stays(s, SetRegistry(w, s, r, v), S, v)
    decreases Pending(s.vals, v), 0, 0
  {
    if s.vals[r] != v {
      var stored := Stored(w, s, r, v);
      PendingShrinks(s.vals, stored.vals, v);
      forall x: nat, y: nat ensures Edge(w, stored, x, y) <==> Edge(w, s, x, y) {}
      forall a: nat | Live(a) in stored.slots[r] && Carries(w, a)
        ensures PeerOf(w, a) in S || stored.vals[PeerOf(w, a)] == v
      {
        assert Edge(w, s, r, PeerOf(w, a));
      }
      ForwardIsContained(w, stored, r, 0, v, S);
      var s' := SetRegistry(w, s, r, v);
      forall i: nat | Took(s, s', i, v) ensures i in S {
        assert i == r || Took(stored, s', i, v);
      }
    }
  }

  lemma {:induction false} ForwardIsContained(w: Wiring, s: State, r: nat, it: nat, v: Value,
                                              S: set<nat>)
    requires WellFormed(w, s) && r < |s.vals| && s.vals[r] == v && it <= |s.slots[r]|
    requires Closed(w, s, S, v)
    requires forall a: nat :: Live(a) in s.slots[r] && Carries(w, a)
                              ==> PeerOf(w, a) in S || s.vals[PeerOf(w, a)] == v
    ensures Stays(s, Forward(w, s, r, it, v), S, v)
    decreases Pending(s.vals, v), 3, |s.slots[r]| - it
  {
    if it < |s.slots[r]| {
      RestComesNext(w, s, r, it, v);
      ServeIsContained(w, s, r, it, v, S);
      var s1 := Serve(w, s, r, it, v);
      ForwardIsContained(w, s1, r, if s.slots[r][it].Live? then it + 1 else it, v, S);
      var s' := Forward(w, s, r, it, v);
      forall i: nat | Took(s, s', i, v) ensures i in S {
        assert Took(s, s1, i, v) || Took(s1, s', i, v);
      }
    }
  }

  lemma {:induction false} ServeIsContained(w: Wiring, s: State, r: nat, it: nat, v: Value, S: set<nat>)
    requires WellFormed(w, s) && r < |s.vals| && s.vals[r] == v && it < |s.slots[r]|
    requires Closed(w, s, S, v)
    requires forall a: nat :: Live(a) in s.slots[r] && Carries(w, a)
                              ==> PeerOf(w, a) in S || s.vals[PeerOf(w, a)] == v
    ensures var s1 := Serve(w, s, r, it, v);
            Stays(s, s1, S, v) && Closed(w, s1, S, v)
            && forall a: nat :: Live(a) in s1.slots[r] && Carries(w, a)
                                ==> PeerOf(w, a) in S || s1.vals[PeerOf(w, a)] == v
    decreases Pending(s.vals, v), 2, 1
  {
    if s.slots[r][it].Live? {
      assert s.slots[r][it] in s.slots[r];
      SendIsContained(w, s, s.slots[r][it].adapter, v, S);
    }
    EdgesStay(w, s, Serve(w, s, r, it, v), v, r);
  }

  lemma {:induction false} SendIsContained(w: Wiring, s: State, a: nat, v: Value, S: set<nat>)
    requires WellFormed(w, s) && a < |w.owner| && Closed(w, s, S, v)
    requires Carries(w, a) ==> PeerOf(w, a) in S || s.vals[PeerOf(w, a)] == v
    ensures Stays(s, Send(w, s, a, v), S, v)
    decreases Pending(s.vals, v), 2, 0
  {
    SendUnfolds(w, s, a, v);
    if Delivers(w, s, a) {
      var b := w.target[a].value;
      var s1 := AtPeer(w, s, a);
      var s2 := SetRegistry(w, s1, w.owner[b], v);
      if s.vals[w.owner[b]] != v {
        forall x: nat, y: nat ensures Edge(w, s1, x, y) <==> Edge(w, s, x, y) {}
        SetIsContained(w, s1, w.owner[b], v, S);
      }
      forall i: nat | Took(s, s2, i, v) ensures i in S {
        assert Took(s1, s2, i, v);
      }
    }
  }

  // ---------------------------------------------------------------- the exact reach of a write

  /** A walk along edges through registries that do not hold v yet. */
  ghost predicate Walk(w: Wiring, s: State, p: seq<nat>, v: Value) {
    p != []
    && (forall i :: 0 <= i < |p| ==> p[i] < |s.vals| && s.vals[p[i]] != v)
    && (forall i :: 0 <= i < |p| - 1 ==> Edge(w, s, p[i], p[i + 1]))
  }

  ghost predicate Reaches(w: Wiring, s: State, x: nat, y: nat, v: Value) {
    exists p :: Walk(w, s, p, v) && p[0] == x && p[|p| - 1] == y
  }

  ghost predicate AllAccept(s: State) { forall a :: 0 <= a < |s.accept| ==> s.accept[a] }

  lemma {:induction false} WalkIsTaken(w: Wiring, s: State, s': State, p: seq<nat>, v: Value)
    requires |s'.vals| == |s.vals| && NeighboursFollow(w, s, s', v)
    requires Walk(w, s, p, v) && s'.vals[p[0]] == v
    ensures s'.vals[p[|p| - 1]] == v
  {
    if |p| > 1 {
      var front := p[..|p| - 1];
      assert Walk(w, s, front, v) by {
        forall i | 0 <= i < |front| - 1 ensures Edge(w, s, front[i], front[i + 1]) {
          assert Edge(w, s, p[i], p[i + 1]);
        }
      }
      WalkIsTaken(w, s, s', front, v);
      assert Took(s, s', p[|p| - 2], v) && Edge(w, s, p[|p| - 2], p[|p| - 2 + 1]);
    }
  }

  ghost function ReachSet(w: Wiring, s: State, r: nat, v: Value): set<nat> {
    set y: nat | y < |s.vals| && Reaches(w, s, r, y, v)
  }

  lemma ReachSetIsClosed(w: Wiring, s: State, r: nat, v: Value)
    ensures Closed(w, s, ReachSet(w, s, r, v), v)
  {
    forall x: nat, y: nat | x in ReachSet(w, s, r, v) && s.vals[x] != v && Edge(w, s, x, y)
                            && y < |s.vals| && s.vals[y] != v
      ensures y in ReachSet(w, s, r, v)
    {
      var p :| Walk(w, s, p, v) && p[0] == r && p[|p| - 1] == x;
      var q := p + [y];
      assert forall i :: 0 <= i < |q| - 1 ==> Edge(w, s, q[i], q[i + 1]);
      assert Walk(w, s, q, v) && q[0] == r && q[|q| - 1] == y;
    }
  }

  /** With all adapters accepting and nothing dropped, on any topology and from any values:
      a write changes exactly the registries that can be reached from its origin along live,
      subscribed adapters without passing a registry that already holds the value. */
  lemma ReachIsExact(w: Wiring, s: State, r: nat, v: Value, x: nat)
    requires WellFormed(w, s) && Paired(w, s) && AllAccept(s) && NoDrops(w)
    requires r < |s.vals| && x < |s.vals|
    ensures SetRegistry(w, s, r, v).vals[x] == if Reaches(w, s, r, x, v) then v else s.vals[x]
  {
    var s' := SetRegistry(w, s, r, v);
    SetSpreads(w, s, r, v);
    if Reaches(w, s, r, x, v) {
      var p :| Walk(w, s, p, v) && p[0] == r && p[|p| - 1] == x;
      WalkIsTaken(w, s, s', p, v);
    } else if s.vals[r] != v {
      var S := ReachSet(w, s, r, v);
      ReachSetIsClosed(w, s, r, v);
      assert Walk(w, s, [r], v) && [r][0] == r && [r][|[r]| - 1] == r;
      SetIsContained(w, s, r, v, S);
      assert !Took(s, s', x, v);
    }
  }

  // ---------------------------------------------------------------- convergence

  ghost predicate AllSubscribed(w: Wiring) {
    forall a :: 0 <= a < |w.subscribed| ==> w.subscribed[a]
  }

  /** Linked registries hold the same value. */
  ghost predicate Agreeing(w: Wiring, s: State) {
    forall x: nat, y: nat :: Edge(w, s, x, y) && x < |s.vals| && y < |s.vals| ==> s.vals[x] == s.vals[y]
  }

  /** Both ends of every link are live and registered. */
  ghost predicate TwoWay(w: Wiring, s: State)
    requires WellFormed(w, s)
  {
    forall a: nat :: a < |w.owner| && w.target[a].Some? && Live(a) in s.slots[w.owner[a]]
                     ==> Live(w.target[a].value) in s.slots[w.owner[w.target[a].value]]
  }

  lemma EdgesAreTwoWay(w: Wiring, s: State)
    requires WellFormed(w, s) && Paired(w, s) && TwoWay(w, s) && AllSubscribed(w)
    ensures forall x: nat, y: nat :: Edge(w, s, x, y) ==> Edge(w, s, y, x)
  {
    forall x: nat, y: nat | Edge(w, s, x, y) ensures Edge(w, s, y, x) {
      var a: nat :| Live(a) in s.slots[x] && Carries(w, a) && PeerOf(w, a) == y;
      var b := w.target[a].value;
      assert Live(b) in s.slots[y] && Carries(w, b) && PeerOf(w, b) == x;
    }
  }

  ghost predicate Chain(w: Wiring, s: State, p: seq<nat>) {
    p != [] && (forall i :: 0 <= i < |p| ==> p[i] < |s.vals|)
    && (forall i :: 0 <= i < |p| - 1 ==> Edge(w, s, p[i], p[i + 1]))
  }

  ghost predicate Connected(w: Wiring, s: State, x: nat, y: nat) {
    exists p :: Chain(w, s, p) && p[0] == x && p[|p| - 1] == y
  }

  /** Linked registries that can be reached from r hold the same value. */
  ghost predicate AgreeingWith(w: Wiring, s: State, r: nat) {
    forall x: nat, y: nat ::
      Connected(w, s, r, x) && Edge(w, s, x, y) && x < |s.vals| && y < |s.vals| ==> s.vals[x] == s.vals[y]
  }

  lemma {:induction false} ChainAgrees(w: Wiring, s: State, p: seq<nat>, i: nat)
    requires Chain(w, s, p) && AgreeingWith(w, s, p[0]) && i < |p|
    ensures s.vals[p[i]] == s.vals[p[0]]
  {
    if i > 0 {
      ChainAgrees(w, s, p, i - 1);
      assert Chain(w, s, p[..i]) && p[..i][0] == p[0] && p[..i][|p[..i]| - 1] == p[i - 1];
      assert Connected(w, s, p[0], p[i - 1]);
      assert Edge(w, s, p[i - 1], p[i - 1 + 1]);
    }
  }

  lemma ReachedIffConnected(w: Wiring, s: State, r: nat, v: Value, x: nat)
    requires AgreeingWith(w, s, r) && r < |s.vals| && s.vals[r] != v
    ensures Reaches(w, s, r, x, v) <==> Connected(w, s, r, x)
  {
    if Connected(w, s, r, x) {
      var p :| Chain(w, s, p) && p[0] == r && p[|p| - 1] == x;
      forall i: nat | i < |p| ensures s.vals[p[i]] == s.vals[r] {
        ChainAgrees(w, s, p, i);
      }
      assert Walk(w, s, p, v);
    }
    if Reaches(w, s, r, x, v) {
      var p :| Walk(w, s, p, v) && p[0] == r && p[|p| - 1] == x;
      assert Chain(w, s, p);
    }
  }

  lemma ConnectedAgree(w: Wiring, s: State, r: nat, x: nat)
    requires AgreeingWith(w, s, r) && Connected(w, s, r, x)
    ensures r < |s.vals| && x < |s.vals| && s.vals[x] == s.vals[r]
  {
    var p :| Chain(w, s, p) && p[0] == r && p[|p| - 1] == x;
    ChainAgrees(w, s, p, |p| - 1);
  }

  lemma ConvergedValue(w: Wiring, s: State, r: nat, v: Value, x: nat)
    requires WellFormed(w, s) && Paired(w, s) && AllAccept(s) && NoDrops(w)
    requires AgreeingWith(w, s, r) && r < |s.vals| && x < |s.vals|
    ensures SetRegistry(w, s, r, v).vals[x] == if Connected(w, s, r, x) then v else s.vals[x]
  {
    ReachIsExact(w, s, r, v, x);
    if s.vals[r] != v {
      ReachedIffConnected(w, s, r, v, x);
    } else if Connected(w, s, r, x) {
      ConnectedAgree(w, s, r, x);
    }
  }

  /** In a network that agreed before, one write leaves every registry connected to its origin
      at the new value and every other registry as it was; every accept flag is true again and
      the network agrees again. */
  lemma Convergence(w: Wiring, s: State, r: nat, v: Value)
    requires WellFormed(w, s) && Paired(w, s) && AllAccept(s) && NoDrops(w)
    requires TwoWay(w, s) && AllSubscribed(w) && Agreeing(w, s) && r < |s.vals|
    ensures var s' := SetRegistry(w, s, r, v);
            && (forall x: nat :: x < |s.vals| ==>
                  s'.vals[x] == if Connected(w, s, r, x) then v else s.vals[x])
            && AllAccept(s') && Agreeing(w, s')
  {
    var s' := SetRegistry(w, s, r, v);
    assert s'.accept == s.accept by { SetSpreads(w, s, r, v); }
    forall x: nat | x < |s.vals|
      ensures s'.vals[x] == if Connected(w, s, r, x) then v else s.vals[x]
    {
      ConvergedValue(w, s, r, v, x);
    }
    assert Agreeing(w, s') by {
      EdgesAreTwoWay(w, s);
      StillAgrees(w, s, s', r, v);
    }
  }

  lemma StillAgrees(w: Wiring, s: State, s': State, r: nat, v: Value)
    requires WellFormed(w, s) && Progress(w, s, s', v, -1) && Agreeing(w, s) && r < |s.vals|
    requires forall x: nat :: x < |s.vals| ==>
               s'.vals[x] == if Connected(w, s, r, x) then v else s.vals[x]
    requires forall x: nat, y: nat :: Edge(w, s, x, y) ==> Edge(w, s, y, x)
    ensures Agreeing(w, s')
  {
    EdgesStay(w, s, s', v, -1);
    forall x: nat, y: nat | Edge(w, s', x, y) && x < |s'.vals| && y < |s'.vals|
      ensures s'.vals[x] == s'.vals[y]
    {
      assert Edge(w, s, x, y) && Edge(w, s, y, x);
      if Connected(w, s, r, x) {
        ConnectedExtends(w, s, r, x, y);
      } else if Connected(w, s, r, y) {
        ConnectedExtends(w, s, r, y, x);
      }
    }
  }

  lemma ConnectedExtends(w: Wiring, s: State, x: nat, y: nat, z: nat)
    requires Connected(w, s, x, y) && Edge(w, s, y, z) && z < |s.vals|
    ensures Connected(w, s, x, z)
  {
    var p :| Chain(w, s, p) && p[0] == x && p[|p| - 1] == y;
    var q := p + [z];
    assert forall i :: 0 <= i < |q| - 1 ==> Edge(w, s, q[i], q[i + 1]);
    assert Chain(w, s, q) && q[0] == x && q[|q| - 1] == z;
  }
}
