/** In which order one write makes itself seen: what each registry sends and when it tells its
    receivers, for any topology, flags, subscriptions, expired adapters and drop decisions. */
module EventOrder {
  import opened Entries
  import opened Propagation
  import opened Spreading

  ghost predicate SentBy(w: Wiring, e: Event, x: nat) {
    e.Sent? && e.adapter < |w.owner| && w.owner[e.adapter] == x
  }

  ghost predicate TellsOf(e: Event, x: nat) { e.Notified? && e.registry == x }

  /** From event from on, registry x neither sends nor tells its receivers. */
  ghost predicate Silent(w: Wiring, t: seq<Event>, from: nat, x: nat) {
    forall n: nat :: from <= n < |t| ==> !SentBy(w, t[n], x) && !TellsOf(t[n], x)
  }

  /** From event from on, all that x sends comes before it tells any receiver, and the receivers
      are told in the order in which they are registered. */
  ghost predicate InOrder(w: Wiring, t: seq<Event>, from: nat, x: nat) {
    && (forall p: nat, q: nat ::
          from <= p < |t| && from <= q < |t| && SentBy(w, t[p], x) && TellsOf(t[q], x) ==> p < q)
    && (forall p: nat, q: nat ::
          from <= p < q < |t| && TellsOf(t[p], x) && TellsOf(t[q], x) ==> t[p].receiver < t[q].receiver)
  }

  /** Event n is an UPDATE that arrives at an adapter of registry x and is not dropped. */
  ghost predicate ReachesRegistry(w: Wiring, t: seq<Event>, n: nat, x: nat) {
    n < |t| && t[n].Sent? && t[n].adapter < |w.target| && w.target[t[n].adapter].Some?
    && w.target[t[n].adapter].value < |w.owner| && w.owner[w.target[t[n].adapter].value] == x
    && !w.verdict(n)
  }

  ghost predicate ArrivedTo(w: Wiring, t: seq<Event>, from: nat, x: nat) {
    exists n: nat :: from <= n < |t| && ReachesRegistry(w, t, n, x)
  }

  /** Live adapters are registered with the registry they own. */
  ghost predicate Registered(w: Wiring, s: State)
    requires WellFormed(w, s)
  {
    forall r: nat, a: nat :: r < |s.slots| && Live(a) in s.slots[r] ==> w.owner[a] == r
  }

  /** A stretch of the spreading in which x is written only by its adapters, not directly: x makes
      itself seen only if it changed, in order; and it changed exactly if an UPDATE arrived. */
  ghost predicate Passes(w: Wiring, s: State, s': State, v: Value, x: nat) {
    && s.trace <= s'.trace && x < |s.vals| == |s'.vals|
    && (!Took(s, s', x, v) ==> Silent(w, s'.trace, |s.trace|, x))
    && InOrder(w, s'.trace, |s.trace|, x)
    && (s.vals[x] != v ==> (s'.vals[x] == v <==> ArrivedTo(w, s'.trace, |s.trace|, x)))
  }

  lemma SilentIsInOrder(w: Wiring, t: seq<Event>, from: nat, x: nat)
    requires Silent(w, t, from, x)
    ensures InOrder(w, t, from, x)
  {
  }

  lemma SilentAdds(w: Wiring, t: seq<Event>, u: seq<Event>, from: nat, x: nat)
    requires from <= |t| && t <= u
    ensures Silent(w, u, from, x) <==> Silent(w, t, from, x) && Silent(w, u, |t|, x)
  {
    forall n: nat | n < |t| ensures t[n] == u[n] {}
    if Silent(w, u, from, x) {
      forall n: nat | from <= n < |t| ensures !SentBy(w, t[n], x) && !TellsOf(t[n], x) {
        assert !SentBy(w, u[n], x) && !TellsOf(u[n], x);
      }
    }
    if Silent(w, t, from, x) && Silent(w, u, |t|, x) {
      forall n: nat | from <= n < |u| ensures !SentBy(w, u[n], x) && !TellsOf(u[n], x) {
        if n < |t| {
          assert !SentBy(w, t[n], x) && !TellsOf(t[n], x);
        }
      }
    }
  }

  lemma ArrivedAdds(w: Wiring, t: seq<Event>, u: seq<Event>, from: nat, x: nat)
    requires from <= |t| && t <= u
    ensures ArrivedTo(w, u, from, x) <==> ArrivedTo(w, t, from, x) || ArrivedTo(w, u, |t|, x)
  {
    forall n: nat | n < |t| ensures ReachesRegistry(w, u, n, x) <==> ReachesRegistry(w, t, n, x) {
      assert t[n] == u[n];
    }
  }

  /** Nothing seen of x in one of two parts: the order is that of the other. */
  lemma InOrderThenSilent(w: Wiring, t: seq<Event>, u: seq<Event>, from: nat, x: nat)
    requires from <= |t| && t <= u && InOrder(w, t, from, x) && Silent(w, u, |t|, x)
    ensures InOrder(w, u, from, x)
  {
    forall n: nat | n < |t| ensures t[n] == u[n] {}
  }

  lemma SilentThenInOrder(w: Wiring, t: seq<Event>, u: seq<Event>, from: nat, x: nat)
    requires from <= |t| && t <= u && Silent(w, t, from, x) && InOrder(w, u, |t|, x)
    ensures InOrder(w, u, from, x)
  {
    forall n: nat | n < |t| ensures t[n] == u[n] {}
    forall n: nat | from <= n < |t| ensures !SentBy(w, u[n], x) && !TellsOf(u[n], x) {
      assert !SentBy(w, t[n], x) && !TellsOf(t[n], x);
    }
  }

  lemma PassesAdds(w: Wiring, s: State, s1: State, s': State, v: Value, x: nat)
    requires Passes(w, s, s1, v, x) && Passes(w, s1, s', v, x)
    requires Advances(s.vals, s1.vals, v) && Advances(s1.vals, s'.vals, v)
    ensures Passes(w, s, s', v, x)
  {
    SilentAdds(w, s1.trace, s'.trace, |s.trace|, x);
    ArrivedAdds(w, s1.trace, s'.trace, |s.trace|, x);
    if Took(s, s1, x, v) {
      assert !Took(s1, s', x, v);
      InOrderThenSilent(w, s1.trace, s'.trace, |s.trace|, x);
    } else {
      SilentThenInOrder(w, s1.trace, s'.trace, |s.trace|, x);
    }
  }

  lemma NothingPasses(w: Wiring, s: State, v: Value, x: nat)
    requires x < |s.vals|
    ensures Passes(w, s, s, v, x)
  {
  }

  // ---------------------------------------------------------------- order and arrival

  lemma {:induction false} SetPasses(w: Wiring, s: State, r: nat, v: Value, x: nat)
    requires WellFormed(w, s) && Registered(w, s) && r < |s.vals| && x < |s.vals| && x != r
    ensures Passes(w, s, SetRegistry(w, s, r, v), v, x)
    decreases Pending(s.vals, v), 0, 1
  {
    if s.vals[r] == v {
      NothingPasses(w, s, v, x);
    } else {
      var stored := Stored(w, s, r, v);
      PendingShrinks(s.vals, stored.vals, v);
      ForwardPasses(w, stored, r, 0, v, x);
      var done := Forward(w, stored, r, 0, v);
      OthersAreTold(w, done, r, x);
      var s' := Notify(w, done, r);
      assert Passes(w, done, s', v, x) by {
        SilentIsInOrder(w, s'.trace, |done.trace|, x);
        NotificationsDoNotArrive(w, done, r, x);
      }
      PassesAdds(w, stored, done, s', v, x);
    }
  }

  lemma OthersAreTold(w: Wiring, s: State, r: nat, x: nat)
    requires WellFormed(w, s) && r < |s.vals| && x != r
    ensures Silent(w, Notify(w, s, r).trace, |s.trace|, x)
  {
  }

  lemma NotificationsDoNotArrive(w: Wiring, s: State, r: nat, x: nat)
    requires WellFormed(w, s) && r < |s.vals|
    ensures !ArrivedTo(w, Notify(w, s, r).trace, |s.trace|, x)
  {
  }

  lemma {:induction false} ForwardPasses(w: Wiring, s: State, r: nat, it: nat, v: Value, x: nat)
    requires WellFormed(w, s) && Registered(w, s) && r < |s.vals| && s.vals[r] == v && it <= |s.slots[r]|
    requires x < |s.vals| && x != r
    ensures Passes(w, s, Forward(w, s, r, it, v), v, x)
    decreases Pending(s.vals, v), 3, |s.slots[r]| - it
  {
    if it == |s.slots[r]| {
      NothingPasses(w, s, v, x);
    } else {
      var s1 := Serve(w, s, r, it, v);
      var next := if s.slots[r][it].Live? then it + 1 else it;
      if s.slots[r][it].Live? {
        assert s.slots[r][it] in s.slots[r];
        SendPasses(w, s, s.slots[r][it].adapter, v, x);
      } else {
        assert s1.trace == s.trace && s1.vals == s.vals;
        NothingPasses(w, s, v, x);
      }
      RestComesNext(w, s, r, it, v);
      ForwardPasses(w, s1, r, next, v, x);
      PassesAdds(w, s, s1, Forward(w, s1, r, next, v), v, x);
    }
  }

  lemma {:induction false} SendPasses(w: Wiring, s: State, a: nat, v: Value, x: nat)
    requires WellFormed(w, s) && Registered(w, s) && a < |w.owner| && x < |s.vals| && x != w.owner[a]
    ensures Passes(w, s, Send(w, s, a, v), v, x)
    decreases Pending(s.vals, v), 2, 1
  {
    if !Delivers(w, s, a) {
      UndeliveredPasses(w, s, a, v, x);
    } else if w.owner[w.target[a].value] == x {
      PeerPasses(w, s, a, v);
    } else {
      SendUnfolds(w, s, a, v);
      var s1, y := AtPeer(w, s, a), w.owner[w.target[a].value];
      SetPasses(w, s1, y, v, x);
      PassesLater(w, s, s1, SetRegistry(w, s1, y, v), v, x);
    }
  }

  lemma UndeliveredPasses(w: Wiring, s: State, a: nat, v: Value, x: nat)
    requires WellFormed(w, s) && a < |w.owner| && x < |s.vals| && x != w.owner[a] && !Delivers(w, s, a)
    ensures Passes(w, s, Send(w, s, a, v), v, x)
  {
    var s' := Send(w, s, a, v);
    SendUnfolds(w, s, a, v);
    SilentIsInOrder(w, s'.trace, |s.trace|, x);
  }

  lemma {:induction false} PeerPasses(w: Wiring, s: State, a: nat, v: Value)
    requires WellFormed(w, s) && Registered(w, s) && a < |w.owner| && Delivers(w, s, a)
    requires w.owner[w.target[a].value] != w.owner[a]
    ensures Passes(w, s, Send(w, s, a, v), v, w.owner[w.target[a].value])
    decreases Pending(s.vals, v), 2, 0
  {
    SendUnfolds(w, s, a, v);
    var s1, x, t := AtPeer(w, s, a), w.owner[w.target[a].value], Send(w, s, a, v).trace;
    SetInOrder(w, s1, x, v);
    SilentThenInOrder(w, s1.trace, t, |s.trace|, x);
    assert t[|s.trace|] == s1.trace[|s.trace|] == Sent(a);
    assert ReachesRegistry(w, t, |s.trace|, x);
  }

  lemma PassesLater(w: Wiring, s: State, s1: State, s': State, v: Value, x: nat)
    requires s1.vals == s.vals && s.trace <= s1.trace && Passes(w, s1, s', v, x)
    requires Silent(w, s1.trace, |s.trace|, x) && !ArrivedTo(w, s1.trace, |s.trace|, x)
    ensures Passes(w, s, s', v, x)
  {
    SilentAdds(w, s1.trace, s'.trace, |s.trace|, x);
    SilentThenInOrder(w, s1.trace, s'.trace, |s.trace|, x);
    ArrivedAdds(w, s1.trace, s'.trace, |s.trace|, x);
  }

  /** The registry that is written itself: its adapters are served first, then it tells. */
  lemma {:induction false} SetInOrder(w: Wiring, s: State, r: nat, v: Value)
    requires WellFormed(w, s) && Registered(w, s) && r < |s.vals|
    ensures var s' := SetRegistry(w, s, r, v);
            s.trace <= s'.trace && InOrder(w, s'.trace, |s.trace|, r)
    decreases Pending(s.vals, v), 0, 0
  {
    if s.vals[r] != v {
      var stored := Stored(w, s, r, v);
      PendingShrinks(s.vals, stored.vals, v);
      ForwardTellsNobody(w, stored, r, 0, v);
      var t := Forward(w, stored, r, 0, v).trace;
      var u := SetRegistry(w, s, r, v).trace;
      forall n: nat | |s.trace| <= n < |u| ensures TellsOf(u[n], r) <==> n >= |t| {
        if n < |t| {
          assert u[n] == t[n] && !TellsOf(t[n], r);
        } else {
          assert u[n] == Notified(r, n - |t|, v);
        }
      }
      forall n: nat | |t| <= n < |u| ensures u[n] == Notified(r, n - |t|, v) {}
    }
  }

  ghost predicate TellsNobody(t: seq<Event>, from: nat, x: nat) {
    forall n: nat :: from <= n < |t| ==> !TellsOf(t[n], x)
  }

  lemma TellsNobodyAdds(t: seq<Event>, u: seq<Event>, from: nat, x: nat)
    requires from <= |t| && t <= u && TellsNobody(t, from, x) && TellsNobody(u, |t|, x)
    ensures TellsNobody(u, from, x)
  {
    forall n: nat | n < |t| ensures t[n] == u[n] {}
  }

  /** While a registry serves its adapters, none of its receivers is told. */
  lemma {:induction false} ForwardTellsNobody(w: Wiring, s: State, r: nat, it: nat, v: Value)
    requires WellFormed(w, s) && Registered(w, s) && r < |s.vals| && s.vals[r] == v && it <= |s.slots[r]|
    ensures var t := Forward(w, s, r, it, v).trace; s.trace <= t && TellsNobody(t, |s.trace|, r)
    decreases Pending(s.vals, v), 3, |s.slots[r]| - it
  {
    if it < |s.slots[r]| {
      var s1 := Serve(w, s, r, it, v);
      ServeTellsNobody(w, s, r, it, v);
      RestComesNext(w, s, r, it, v);
      ForwardTellsNobody(w, s1, r, if s.slots[r][it].Live? then it + 1 else it, v);
      TellsNobodyAdds(s1.trace, Forward(w, s, r, it, v).trace, |s.trace|, r);
    }
  }

  lemma {:induction false} ServeTellsNobody(w: Wiring, s: State, r: nat, it: nat, v: Value)
    requires WellFormed(w, s) && Registered(w, s) && r < |s.vals| && s.vals[r] == v && it < |s.slots[r]|
    ensures var t := Serve(w, s, r, it, v).trace; s.trace <= t && TellsNobody(t, |s.trace|, r)
    decreases Pending(s.vals, v), 2, 1
  {
    if s.slots[r][it].Live? {
      assert s.slots[r][it] in s.slots[r];
      SendsItsOwn(w, s, s.slots[r][it].adapter, v);
    }
  }

  /** While a registry at v sends on one adapter, that one UPDATE is all that is seen of it; it is
      sent exactly if the adapter accepts and is subscribed, whether or not it will be dropped. */
  lemma {:induction false} SendsItsOwn(w: Wiring, s: State, a: nat, v: Value)
    requires WellFormed(w, s) && Registered(w, s) && a < |w.owner| && s.vals[w.owner[a]] == v
    ensures var t := Send(w, s, a, v).trace;
            if s.accept[a] && w.subscribed[a] then
              s.trace + [Sent(a)] <= t && Silent(w, t, |s.trace| + 1, w.owner[a])
            else t == s.trace
    decreases Pending(s.vals, v), 2, 0
  {
    SendUnfolds(w, s, a, v);
    if Delivers(w, s, a) {
      var s1 := AtPeer(w, s, a);
      var y := w.owner[w.target[a].value];
      if y != w.owner[a] {
        SetPasses(w, s1, y, v, w.owner[a]);
      }
    }
  }

  /** Every registry that a write changes sends on its adapters first and then tells its receivers,
      in the order of their registration; the others neither send nor tell. */
  lemma SendsThenTells(w: Wiring, s: State, r: nat, v: Value, x: nat)
    requires WellFormed(w, s) && Registered(w, s) && r < |s.vals| && x < |s.vals|
    ensures var s' := SetRegistry(w, s, r, v);
            && s.trace <= s'.trace && InOrder(w, s'.trace, |s.trace|, x)
            && (!Took(s, s', x, v) ==> Silent(w, s'.trace, |s.trace|, x))
  {
    if x == r {
      SetInOrder(w, s, r, v);
    } else {
      SetPasses(w, s, r, v, x);
    }
  }

  /** Whatever else happens, an UPDATE that is not dropped leaves the registry it reaches at v; and
      a registry other than the origin changes only by such an UPDATE. */
  lemma UndroppedArrives(w: Wiring, s: State, r: nat, v: Value, x: nat)
    requires WellFormed(w, s) && Registered(w, s) && r < |s.vals| && x < |s.vals|
    ensures var s' := SetRegistry(w, s, r, v);
            && (ArrivedTo(w, s'.trace, |s.trace|, x) ==> s'.vals[x] == v)
            && (x != r && Took(s, s', x, v) ==> ArrivedTo(w, s'.trace, |s.trace|, x))
  {
    if x != r {
      SetPasses(w, s, r, v, x);
    }
  }

  // ---------------------------------------------------------------- one UPDATE for each adapter

  /** How often adapter a has sent. */
  ghost function TimesSent(t: seq<Event>, a: nat): nat { multiset(t)[Sent(a)] }

  lemma NotSentSince(w: Wiring, t: seq<Event>, u: seq<Event>, a: nat)
    requires t <= u && a < |w.owner| && Silent(w, u, |t|, w.owner[a])
    ensures TimesSent(u, a) == TimesSent(t, a)
  {
    var more := u[|t|..];
    assert u == t + more;
    forall i | 0 <= i < |more| ensures more[i] != Sent(a) {
      assert more[i] == u[|t| + i];
    }
    assert Sent(a) !in multiset(more);
  }

  /** Serving one adapter of a registry at v: only that adapter sends. */
  lemma ServedOnce(w: Wiring, s: State, c: nat, v: Value, a: nat)
    requires WellFormed(w, s) && Registered(w, s) && c < |w.owner| && a < |w.owner|
    requires w.owner[a] == w.owner[c] && s.vals[w.owner[c]] == v
    ensures TimesSent(Send(w, s, c, v).trace, a)
         == TimesSent(s.trace, a) + if a == c && s.accept[c] && w.subscribed[c] then 1 else 0
  {
    SendsItsOwn(w, s, c, v);
    if s.accept[c] && w.subscribed[c] {
      NotSentSince(w, s.trace + [Sent(c)], Send(w, s, c, v).trace, a);
    }
  }

  lemma ArrivedWithin(w: Wiring, t: seq<Event>, u: seq<Event>, from: nat, a: nat)
    requires from <= |t| && t <= u
    ensures Arrived(w, u, from, a) <==> Arrived(w, t, from, a) || Arrived(w, u, |t|, a)
  {
    forall n: nat | n < |t| ensures t[n] == u[n] {}
  }

  /** The loop of a registry over its adapters: an adapter that accepts from the start, or that
      nothing reaches meanwhile, sends once if it is in the list, subscribed and accepting. */
  lemma {:induction false} ForwardSendsOnce(w: Wiring, s: State, r: nat, it: nat, v: Value, a: nat)
    requires WellFormed(w, s) && Registered(w, s) && r < |s.vals| && s.vals[r] == v && it <= |s.slots[r]|
    requires a < |w.owner| && w.owner[a] == r && OnceEach(s.slots[r])
    requires s.accept[a] || !Arrived(w, Forward(w, s, r, it, v).trace, |s.trace|, a)
    ensures TimesSent(Forward(w, s, r, it, v).trace, a)
         == TimesSent(s.trace, a)
            + if Live(a) in s.slots[r][it..] && w.subscribed[a] && s.accept[a] then 1 else 0
    decreases Pending(s.vals, v), 3, |s.slots[r]| - it
  {
    if it < |s.slots[r]| {
      var s1 := Serve(w, s, r, it, v);
      var next := if s.slots[r][it].Live? then it + 1 else it;
      RestComesNext(w, s, r, it, v);
      ServeCountsOwn(w, s, r, it, v, a);
      ForwardFlags(w, s1, r, next, v, a);
      ArrivedWithin(w, s1.trace, Forward(w, s1, r, next, v).trace, |s.trace|, a);
      ForwardSendsOnce(w, s1, r, next, v, a);
      NotListedTwice(s.slots[r], it, a);
    }
  }

  lemma NotListedTwice(slots: seq<Slot>, it: nat, a: nat)
    requires it < |slots| && OnceEach(slots)
    ensures Live(a) in slots[it..] <==> slots[it] == Live(a) || Live(a) in slots[it + 1..]
    ensures slots[it] == Live(a) ==> Live(a) !in slots[it + 1..]
  {
    assert slots[it..] == [slots[it]] + slots[it + 1..];
  }

  lemma ServeCountsOwn(w: Wiring, s: State, r: nat, it: nat, v: Value, a: nat)
    requires WellFormed(w, s) && Registered(w, s) && r < |s.vals| && s.vals[r] == v && it < |s.slots[r]|
    requires a < |w.owner| && w.owner[a] == r
    ensures var s1 := Serve(w, s, r, it, v);
            && TimesSent(s1.trace, a)
               == TimesSent(s.trace, a)
                  + (if s.slots[r][it] == Live(a) && w.subscribed[a] && s.accept[a] then 1 else 0)
            && s.trace <= s1.trace
            && (s1.accept[a] <==> s.accept[a] || Arrived(w, s1.trace, |s.trace|, a))
  {
    if s.slots[r][it].Live? {
      assert s.slots[r][it] in s.slots[r];
      ServedOnce(w, s, s.slots[r][it].adapter, v, a);
      SendFlags(w, s, s.slots[r][it].adapter, v, a);
    }
  }

  /** A registry that is written itself. */
  lemma SetSendsOnce(w: Wiring, s: State, r: nat, v: Value, a: nat)
    requires WellFormed(w, s) && Registered(w, s) && r < |s.vals| && s.vals[r] != v
    requires a < |w.owner| && w.owner[a] == r && OnceEach(s.slots[r])
    requires s.accept[a] || !Arrived(w, SetRegistry(w, s, r, v).trace, |s.trace|, a)
    ensures TimesSent(SetRegistry(w, s, r, v).trace, a)
         == TimesSent(s.trace, a) + if Live(a) in s.slots[r] && w.subscribed[a] && s.accept[a] then 1 else 0
    decreases Pending(s.vals, v), 0, 0
  {
    var stored := Stored(w, s, r, v);
    var done := Forward(w, stored, r, 0, v);
    var s' := Notify(w, done, r);
    assert s.slots[r][0..] == s.slots[r];
    ForwardFlags(w, stored, r, 0, v, a);
    ArrivedWithin(w, done.trace, s'.trace, |s.trace|, a);
    ForwardSendsOnce(w, stored, r, 0, v, a);
    NotificationsAreNotSent(w, done, r, a);
  }

  lemma NotificationsAreNotSent(w: Wiring, s: State, r: nat, a: nat)
    requires WellFormed(w, s) && r < |s.vals|
    ensures TimesSent(Notify(w, s, r).trace, a) == TimesSent(s.trace, a)
  {
    var more := seq(w.receivers[r], j requires 0 <= j => Notified(r, j, s.vals[r]));
    assert Sent(a) !in multiset(more);
  }

  /** Adapter a brought the change to its registry: of all adapters of that registry it is the one
      at which the first UPDATE arrived that was not dropped. */
  ghost predicate BroughtBy(w: Wiring, t: seq<Event>, from: nat, a: nat)
    requires a < |w.owner|
  {
    exists n: nat :: from <= n < |t| && ArrivesAt(w, t[n], a) && FirstToReach(w, t, from, n, w.owner[a])
  }

  ghost predicate FirstToReach(w: Wiring, t: seq<Event>, from: nat, n: nat, x: nat) {
    ReachesRegistry(w, t, n, x) && forall m: nat :: from <= m < n ==> !ReachesRegistry(w, t, m, x)
  }

  /** In this stretch a sends once if its registry changed, unless a brought the change. */
  ghost predicate SendsIfChanged(w: Wiring, s: State, s': State, v: Value, a: nat)
    requires a < |w.owner| == |w.subscribed| && w.owner[a] < |s.slots|
  {
    TimesSent(s'.trace, a)
    == TimesSent(s.trace, a)
       + if Took(s, s', w.owner[a], v) && Live(a) in s.slots[w.owner[a]] && w.subscribed[a]
            && !BroughtBy(w, s'.trace, |s.trace|, a) then 1 else 0
  }

  lemma SameReach(w: Wiring, t: seq<Event>, u: seq<Event>, x: nat)
    requires t <= u
    ensures forall n: nat :: n < |t| ==> (ReachesRegistry(w, u, n, x) <==> ReachesRegistry(w, t, n, x))
  {
    forall n: nat | n < |t| ensures t[n] == u[n] {}
  }

  /** Who brought the change is settled by the part in which the first UPDATE arrived. */
  lemma BroughtEarlier(w: Wiring, t: seq<Event>, u: seq<Event>, from: nat, a: nat)
    requires from <= |t| && t <= u && a < |w.owner| && ArrivedTo(w, t, from, w.owner[a])
    ensures BroughtBy(w, u, from, a) <==> BroughtBy(w, t, from, a)
  {
    var x := w.owner[a];
    SameReach(w, t, u, x);
    if BroughtBy(w, u, from, a) {
      var n: nat :| from <= n < |u| && ArrivesAt(w, u[n], a) && FirstToReach(w, u, from, n, x);
      var m: nat :| from <= m < |t| && ReachesRegistry(w, t, m, x);
      assert ReachesRegistry(w, u, m, x);
      assert n <= m && t[n] == u[n] && FirstToReach(w, t, from, n, x);
    }
    if BroughtBy(w, t, from, a) {
      var n: nat :| from <= n < |t| && ArrivesAt(w, t[n], a) && FirstToReach(w, t, from, n, x);
      assert t[n] == u[n] && FirstToReach(w, u, from, n, x);
    }
  }

  lemma BroughtLater(w: Wiring, t: seq<Event>, u: seq<Event>, from: nat, a: nat)
    requires from <= |t| && t <= u && a < |w.owner| && !ArrivedTo(w, t, from, w.owner[a])
    ensures BroughtBy(w, u, from, a) <==> BroughtBy(w, u, |t|, a)
  {
    var x := w.owner[a];
    SameReach(w, t, u, x);
    if BroughtBy(w, u, from, a) {
      var n: nat :| from <= n < |u| && ArrivesAt(w, u[n], a) && FirstToReach(w, u, from, n, x);
      assert n >= |t| && FirstToReach(w, u, |t|, n, x);
    }
    if BroughtBy(w, u, |t|, a) {
      var n: nat :| |t| <= n < |u| && ArrivesAt(w, u[n], a) && FirstToReach(w, u, |t|, n, x);
      assert FirstToReach(w, u, from, n, x);
    }
  }

  lemma SendsIfChangedAdds(w: Wiring, s: State, s1: State, s': State, v: Value, a: nat)
    requires a < |w.owner| == |w.subscribed| && w.owner[a] < |s.slots| == |s1.slots|
    requires Live(a) in s1.slots[w.owner[a]] <==> Live(a) in s.slots[w.owner[a]]
    requires Advances(s.vals, s1.vals, v) && Advances(s1.vals, s'.vals, v)
    requires Passes(w, s, s1, v, w.owner[a]) && Passes(w, s1, s', v, w.owner[a])
    requires SendsIfChanged(w, s, s1, v, a) && SendsIfChanged(w, s1, s', v, a)
    ensures SendsIfChanged(w, s, s', v, a)
  {
    if Took(s, s1, w.owner[a], v) {
      BroughtEarlier(w, s1.trace, s'.trace, |s.trace|, a);
    } else if Took(s1, s', w.owner[a], v) {
      BroughtLater(w, s1.trace, s'.trace, |s.trace|, a);
    }
  }

  lemma {:induction false} SetSendsIfChanged(w: Wiring, s: State, r: nat, v: Value, a: nat)
    requires WellFormed(w, s) && Paired(w, s) && r < |s.vals| && a < |w.owner| && s.accept[a]
    requires w.owner[a] != r && OnceEach(s.slots[w.owner[a]])
    ensures SendsIfChanged(w, s, SetRegistry(w, s, r, v), v, a)
    decreases Pending(s.vals, v), 0, 0
  {
    if s.vals[r] != v {
      var stored := Stored(w, s, r, v);
      PendingShrinks(s.vals, stored.vals, v);
      ForwardSendsIfChanged(w, stored, r, 0, v, a);
      var done := Forward(w, stored, r, 0, v);
      var s' := Notify(w, done, r);
      ForwardPasses(w, stored, r, 0, v, w.owner[a]);
      NotificationsAreNotSent(w, done, r, a);
      NotificationsDoNotArrive(w, done, r, w.owner[a]);
      if ArrivedTo(w, done.trace, |s.trace|, w.owner[a]) {
        BroughtEarlier(w, done.trace, s'.trace, |s.trace|, a);
      }
    }
  }

  lemma {:induction false} ForwardSendsIfChanged(w: Wiring, s: State, r: nat, it: nat, v: Value, a: nat)
    requires WellFormed(w, s) && Paired(w, s) && r < |s.vals| && s.vals[r] == v && it <= |s.slots[r]|
    requires a < |w.owner| && s.accept[a] && w.owner[a] != r && OnceEach(s.slots[w.owner[a]])
    ensures SendsIfChanged(w, s, Forward(w, s, r, it, v), v, a)
    decreases Pending(s.vals, v), 3, |s.slots[r]| - it
  {
    if it < |s.slots[r]| {
      var s1 := Serve(w, s, r, it, v);
      var next := if s.slots[r][it].Live? then it + 1 else it;
      if s.slots[r][it].Live? {
        assert s.slots[r][it] in s.slots[r];
        SendSendsIfChanged(w, s, s.slots[r][it].adapter, v, a);
        SendPasses(w, s, s.slots[r][it].adapter, v, w.owner[a]);
        SendFlags(w, s, s.slots[r][it].adapter, v, a);
      } else {
        assert s1.trace == s.trace && s1.vals == s.vals && s1.accept == s.accept;
        NothingPasses(w, s, v, w.owner[a]);
      }
      RestComesNext(w, s, r, it, v);
      ForwardSendsIfChanged(w, s1, r, next, v, a);
      ForwardPasses(w, s1, r, next, v, w.owner[a]);
      SendsIfChangedAdds(w, s, s1, Forward(w, s1, r, next, v), v, a);
    }
  }

  lemma {:induction false} SendSendsIfChanged(w: Wiring, s: State, c: nat, v: Value, a: nat)
    requires WellFormed(w, s) && Paired(w, s) && c < |w.owner| && s.vals[w.owner[c]] == v
    requires a < |w.owner| && s.accept[a] && w.owner[a] != w.owner[c] && OnceEach(s.slots[w.owner[a]])
    ensures SendsIfChanged(w, s, Send(w, s, c, v), v, a)
    decreases Pending(s.vals, v), 2, 0
  {
    SendUnfolds(w, s, c, v);
    if Delivers(w, s, c) {
      var y, x := w.owner[w.target[c].value], w.owner[a];
      var s1 := AtPeer(w, s, c);
      assert TimesSent(s1.trace, a) == TimesSent(s.trace, a);
      if y != x {
        SetSendsIfChanged(w, s1, y, v, a);
        SetPasses(w, s1, y, v, x);
        assert !ArrivedTo(w, s1.trace, |s.trace|, x);
        BroughtLater(w, s1.trace, SetRegistry(w, s1, y, v).trace, |s.trace|, a);
      } else if s.vals[x] != v {
        PeerSendsIfChanged(w, s, c, v, a);
      }
    }
  }

  /** The peer's registry is written: its adapters send, but for the one that is written through. */
  lemma PeerSendsIfChanged(w: Wiring, s: State, c: nat, v: Value, a: nat)
    requires WellFormed(w, s) && Paired(w, s) && c < |w.owner| && s.vals[w.owner[c]] == v
    requires a < |w.owner| && s.accept[a] && w.owner[a] != w.owner[c] && OnceEach(s.slots[w.owner[a]])
    requires Delivers(w, s, c) && w.owner[w.target[c].value] == w.owner[a] && s.vals[w.owner[a]] != v
    ensures SendsIfChanged(w, s, Send(w, s, c, v), v, a)
    decreases Pending(s.vals, v), 1
  {
    var s1 := AtPeer(w, s, c);
    assert TimesSent(s1.trace, a) == TimesSent(s.trace, a);
    if a == w.target[c].value {
      BringerIsNotAnswered(w, s, c, v, a);
    }
    SetSendsOnce(w, s1, w.owner[a], v, a);
    SetInOrder(w, s1, w.owner[a], v);
    SendUnfolds(w, s, c, v);
    ReachedFirst(w, s, c, v, a);
  }

  /** While a registry is written by c, no other UPDATE of c arrives. */
  lemma BringerIsNotAnswered(w: Wiring, s: State, c: nat, v: Value, a: nat)
    requires WellFormed(w, s) && Paired(w, s) && c < |w.owner| && s.vals[w.owner[c]] == v && Delivers(w, s, c)
    requires w.owner[w.target[c].value] != w.owner[c] && a == w.target[c].value
    ensures var s1 := AtPeer(w, s, c);
            !Arrived(w, SetRegistry(w, s1, w.owner[a], v).trace, |s1.trace|, a)
    decreases Pending(s.vals, v), 1
  {
    var s1 := AtPeer(w, s, c);
    SetPasses(w, s1, w.owner[a], v, w.owner[c]);
  }

  lemma ReachedFirst(w: Wiring, s: State, c: nat, v: Value, a: nat)
    requires WellFormed(w, s) && c < |w.owner| && a < |w.owner| && Delivers(w, s, c)
    requires w.owner[w.target[c].value] == w.owner[a]
    requires AtPeer(w, s, c).trace <= Send(w, s, c, v).trace
    ensures BroughtBy(w, Send(w, s, c, v).trace, |s.trace|, a) <==> a == w.target[c].value
  {
    var t := Send(w, s, c, v).trace;
    assert t[|s.trace|] == AtPeer(w, s, c).trace[|s.trace|] == Sent(c);
    assert FirstToReach(w, t, |s.trace|, |s.trace|, w.owner[a]);
  }

  /** For any flags of the others, any subscriptions and any drop decisions: an adapter that
      accepts, is live and subscribed sends exactly one UPDATE if its registry changed, whether or
      not that UPDATE is dropped, and none otherwise; only the adapter that brought the change to
      its registry sends none. */
  lemma EveryAdapterSendsOnce(w: Wiring, s: State, r: nat, v: Value, a: nat)
    requires WellFormed(w, s) && Paired(w, s) && r < |s.vals| && a < |w.owner| && s.accept[a]
    requires OnceEach(s.slots[w.owner[a]])
    ensures var s' := SetRegistry(w, s, r, v);
            TimesSent(s'.trace, a)
            == TimesSent(s.trace, a)
               + if Took(s, s', w.owner[a], v) && Live(a) in s.slots[w.owner[a]] && w.subscribed[a]
                    && !(w.owner[a] != r && BroughtBy(w, s'.trace, |s.trace|, a)) then 1 else 0
  {
    if w.owner[a] != r {
      SetSendsIfChanged(w, s, r, v, a);
    } else if s.vals[r] != v {
      SetSendsOnce(w, s, r, v, a);
    }
  }
}
