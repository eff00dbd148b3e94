/** One write of one property, spreading through a network of registries when every sent entry
    is delivered at once, nested inside the sending call. Registries and adapters are numbered;
    the network may have any shape, cycles, parallel links and loops included. */
module Propagation {
  import opened Entries

  /** A registered adapter: a weak pointer that can be locked, or one that has expired. */
  datatype Slot = Live(adapter: nat) | Expired

  /** What the network does that can be seen from outside. */
  datatype Event =
    | Sent(adapter: nat)
    | Notified(registry: nat, receiver: nat, seen: Value)

  /** What does not change while a write spreads: who owns each adapter, where its entries
      arrive, how many receivers each registry has, which adapters are subscribed to the
      property, and the peer's drop decision for the entry sent as the k-th event. */
  datatype Wiring = Wiring(
    owner: seq<nat>,
    target: seq<Option<nat>>,
    receivers: seq<nat>,
    subscribed: seq<bool>,
    verdict: nat -> bool)

  datatype State = State(
    vals: seq<Value>,
    slots: seq<seq<Slot>>,
    accept: seq<bool>,
    hadUpdate: seq<bool>,
    trace: seq<Event>)

  ghost predicate WellFormed(w: Wiring, s: State) {
    && |s.slots| == |w.receivers| == |s.vals|
    && |w.target| == |w.subscribed| == |s.accept| == |s.hadUpdate| == |w.owner|
    && (forall a :: 0 <= a < |w.owner| ==> w.owner[a] < |s.vals|)
    && (forall a :: 0 <= a < |w.owner| && w.target[a].Some? ==> w.target[a].value < |w.owner|)
    && (forall r: nat, a: nat :: r < |s.slots| && Live(a) in s.slots[r] ==> a < |w.owner|)
  }

  // ---------------------------------------------------------------- termination

  /** Number of registries that do not hold v yet. */
  function Pending(vals: seq<Value>, v: Value): nat {
    if vals == [] then 0
    else Pending(vals[..|vals| - 1], v) + if vals[|vals| - 1] == v then 0 else 1
  }

  /** after differs from before only in registries that took v. */
  ghost predicate Advances(before: seq<Value>, after: seq<Value>, v: Value) {
    |after| == |before|
    && forall i :: 0 <= i < |before| ==> after[i] == before[i] || after[i] == v
  }

  lemma {:induction false} PendingShrinks(before: seq<Value>, after: seq<Value>, v: Value)
    requires Advances(before, after, v)
    ensures Pending(after, v) <= Pending(before, v)
    ensures (exists i :: 0 <= i < |before| && before[i] != v && after[i] == v)
            ==> Pending(after, v) < Pending(before, v)
  {
    if before != [] {
      PendingShrinks(before[..|before| - 1], after[..|after| - 1], v);
    }
  }

  /** No adapter is registered twice. */
  ghost predicate OnceEach(slots: seq<Slot>) {
    forall i, j :: 0 <= i < j < |slots| && slots[i].Live? ==> slots[i] != slots[j]
  }

  /** What every step keeps: registries already at v keep their adapter list (so no list is
      changed under the loop that walks it), pruning removes expired entries only, and events
      are only added. The walked list of registry r itself is exempt. */
  ghost predicate Progress(w: Wiring, s: State, s': State, v: Value, r: int)
    requires WellFormed(w, s)
  {
    && WellFormed(w, s')
    && Advances(s.vals, s'.vals, v)
    && |s'.accept| == |s.accept|
    && (forall i :: 0 <= i < |s.vals| && i != r && s.vals[i] == v ==> s'.slots[i] == s.slots[i])
    && (forall i: nat, a: nat :: i < |s.vals| ==> (Live(a) in s'.slots[i] <==> Live(a) in s.slots[i]))
    && (forall i: nat :: i < |s.vals| && OnceEach(s.slots[i]) ==> OnceEach(s'.slots[i]))
  }

  // ---------------------------------------------------------------- the code

  function Erase<T>(s: seq<T>, i: nat): seq<T>
    requires i < |s|
  {
    s[..i] + s[i + 1..]
  }

  /** The elementary steps. */
  function Stored(w: Wiring, s: State, r: nat, v: Value): (s': State)
    requires WellFormed(w, s) && r < |s.vals|
    ensures Progress(w, s, s', v, -1)
  {
    s.(vals := s.vals[r := v])
  }

  function Logged(w: Wiring, s: State, e: Event): (s': State)
    requires WellFormed(w, s)
    ensures WellFormed(w, s')
  {
    s.(trace := s.trace + [e])
  }

  function Suppressed(w: Wiring, s: State, b: nat): (s': State)
    requires WellFormed(w, s) && b < |w.owner|
    ensures WellFormed(w, s')
  {
    s.(hadUpdate := s.hadUpdate[b := true], accept := s.accept[b := false])
  }

  function Accepting(w: Wiring, s: State, b: nat, accept: bool): (s': State)
    requires WellFormed(w, s) && b < |w.owner|
    ensures WellFormed(w, s')
  {
    s.(accept := s.accept[b := accept])
  }

  /** Registry::set. */
  function SetRegistry(w: Wiring, s: State, r: nat, v: Value): (s': State)
    requires WellFormed(w, s) && r < |s.vals|
    ensures Progress(w, s, s', v, -1) && s'.vals[r] == v
    decreases Pending(s.vals, v), 0, 0
  {
    if s.vals[r] == v then s
    else
      PendingShrinks(s.vals, s.vals[r := v], v);
      Notify(w, Forward(w, Stored(w, s, r, v), r, 0, v), r)
  }

  /** The loop over m_adapters, which erases expired entries as it goes. */
  function Forward(w: Wiring, s: State, r: nat, it: nat, v: Value): (s': State)
    requires WellFormed(w, s) && r < |s.vals| && s.vals[r] == v && it <= |s.slots[r]|
    ensures Progress(w, s, s', v, r)
    decreases Pending(s.vals, v), 3, |s.slots[r]| - it
  {
    if it == |s.slots[r]| then s
    else
      var s1 := Serve(w, s, r, it, v);
      PendingShrinks(s.vals, s1.vals, v);
      Forward(w, s1, r, if s.slots[r][it].Live? then it + 1 else it, v)
  }

  /** One entry of the list: a live adapter is set, an expired one is erased. */
  function Serve(w: Wiring, s: State, r: nat, it: nat, v: Value): (s1: State)
    requires WellFormed(w, s) && r < |s.vals| && s.vals[r] == v && it < |s.slots[r]|
    ensures Progress(w, s, s1, v, r)
    ensures s.slots[r][it].Live? ==> s1.slots[r] == s.slots[r]
    ensures s.slots[r][it].Expired? ==> s1.slots[r] == Erase(s.slots[r], it)
    decreases Pending(s.vals, v), 2, 1
  {
    match s.slots[r][it]
    case Live(a) => Send(w, s, a, v)
    case Expired => Pruned(w, s, r, it, v)
  }

  /** Whichever entry was served, the rest of the list comes next. */
  lemma RestComesNext(w: Wiring, s: State, r: nat, it: nat, v: Value)
    requires WellFormed(w, s) && r < |s.vals| && s.vals[r] == v && it < |s.slots[r]|
    ensures var s1 := Serve(w, s, r, it, v);
            var next := if s.slots[r][it].Live? then it + 1 else it;
            && Forward(w, s, r, it, v) == Forward(w, s1, r, next, v)
            && s1.slots[r][next..] == s.slots[r][it + 1..]
            && s.slots[r][it..] == [s.slots[r][it]] + s.slots[r][it + 1..]
            && |s1.slots[r]| - next < |s.slots[r]| - it
            && Pending(s1.vals, v) <= Pending(s.vals, v)
  {
    PendingShrinks(s.vals, Serve(w, s, r, it, v).vals, v);
  }

  /** An expired entry is erased from the list being walked. */
  function Pruned(w: Wiring, s: State, r: nat, it: nat, ghost v: Value): (s': State)
    requires WellFormed(w, s) && r < |s.vals| && it < |s.slots[r]| && s.slots[r][it].Expired?
    ensures Progress(w, s, s', v, r) && s'.slots[r] == Erase(s.slots[r], it)
  {
    var kept := Erase(s.slots[r], it);
    assert forall b :: Live(b) in kept <==> Live(b) in s.slots[r];
    s.(slots := s.slots[r := kept])
  }

  /** The loop over m_receivers. */
  function Notify(w: Wiring, s: State, r: nat): (s': State)
    requires WellFormed(w, s) && r < |s.vals|
    ensures WellFormed(w, s')
  {
    s.(trace := s.trace + seq(w.receivers[r], j requires 0 <= j => Notified(r, j, s.vals[r])))
  }

  /** LiteCommAdapter::set, with the entry delivered before the call returns. */
  function Send(w: Wiring, s: State, a: nat, v: Value): (s': State)
    requires WellFormed(w, s) && a < |w.owner|
    ensures Progress(w, s, s', v, -1)
    decreases Pending(s.vals, v), 2, 0
  {
    if !s.accept[a] || !w.subscribed[a] then s
    else
      var s1 := Logged(w, s, Sent(a));
      match w.target[a]
      case None => s1
      case Some(b) => Receive(w, s1, b, v, |s.trace|)
  }

  /** The receive callback of adapter b for the UPDATE that was event k. */
  function Receive(w: Wiring, s: State, b: nat, v: Value, k: nat): (s': State)
    requires WellFormed(w, s) && b < |w.owner|
    ensures Progress(w, s, s', v, -1)
    decreases Pending(s.vals, v), 1, 0
  {
    if w.verdict(k) then s
    else
      Accepting(w, SetRegistry(w, Suppressed(w, s, b), w.owner[b], v), b, true)
  }
}
