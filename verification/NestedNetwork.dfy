/** The mutable objects behind Propagation: registries and adapters that call each other, with
    every entry handed to the peer's receive callback before the sending call returns. */
module NestedNetwork {
  import opened Entries
  import opened Propagation
  import opened Spreading

  datatype WeakPtr = Locks(adapter: Adapter) | Gone

  datatype Status = Ok | NotAccepted | NotSubscribed

  /** What is outside: the wire, the receivers, and the drop decision for the entry that is sent
      as the n-th event. */
  class Journal {
    var trace: seq<Event>
    const verdict: nat -> bool

    constructor (verdict: nat -> bool)
      ensures trace == [] && this.verdict == verdict
    {
      this.verdict := verdict;
      trace := [];
    }

    method Append(e: Event)
      modifies this
      ensures trace == old(trace) + [e]
    {
      trace := trace + [e];
    }
  }

  /** All objects of one network, by number, with what must not move while one property is
      written: every registry's values besides that property, and every subscription map. */
  datatype World = World(
    regs: seq<Registry>,
    ads: seq<Adapter>,
    journal: Journal,
    besides: seq<seq<seq<Value>>>,
    subscriptions: seq<seq<seq<bool>>>)

  ghost predicate SlotMatches(world: World, p: WeakPtr, slot: Slot) {
    match p
    case Gone => slot == Expired
    case Locks(a) => slot == Live(a.id) && a.id < |world.ads| && world.ads[a.id] == a
  }

  ghost predicate RegistryIs(world: World, k: Key, i: nat, val: Value, slots: seq<Slot>, receivers: nat)
    requires i < |world.regs| == |world.besides| && InRange(k)
    reads world.regs[i]
  {
    var r := world.regs[i];
    && r.id == i && r.journal == world.journal && r.receivers == receivers
    && Shaped(r.values) && At(r.values, k) == val && Besides(r.values, k) == world.besides[i]
    && |r.adapters| == |slots|
    && forall j :: 0 <= j < |r.adapters| ==> SlotMatches(world, r.adapters[j], slots[j])
  }

  ghost predicate AdapterIs(world: World, k: Key, w: Wiring, i: nat, accept: bool, hadUpdate: bool)
    requires i < |world.ads| == |world.subscriptions| == |w.owner| == |w.target| == |w.subscribed|
    requires InRange(k)
    reads world.ads[i]
  {
    var a := world.ads[i];
    && a.id == i && a.journal == world.journal
    && w.owner[i] < |world.regs| && a.registry == world.regs[w.owner[i]]
    && (if a.target == null then w.target[i] == None
        else w.target[i] == Some(a.target.id) && a.target.id < |world.ads|
             && world.ads[a.target.id] == a.target)
    && a.subscriptions == world.subscriptions[i]
    && Shaped(a.subscriptions) && At(a.subscriptions, k) == w.subscribed[i]
    && a.acceptProperty == accept && a.hadUpdate == hadUpdate
  }

  ghost predicate RegistriesMatch(world: World, k: Key, vals: seq<Value>, slots: seq<seq<Slot>>,
                                  receivers: seq<nat>)
    reads world.regs
  {
    InRange(k) && |vals| == |slots| == |receivers| == |world.besides| == |world.regs|
    && forall i {:trigger world.regs[i]} :: 0 <= i < |world.regs|
         ==> RegistryIs(world, k, i, vals[i], slots[i], receivers[i])
  }

  ghost predicate AdaptersMatch(world: World, k: Key, w: Wiring, accept: seq<bool>, hadUpdate: seq<bool>)
    reads world.ads
  {
    InRange(k) && |accept| == |hadUpdate| == |w.owner| == |w.target| == |w.subscribed| == |world.ads|
    && |world.subscriptions| == |world.ads|
    && forall i {:trigger world.ads[i]} :: 0 <= i < |world.ads|
         ==> AdapterIs(world, k, w, i, accept[i], hadUpdate[i])
  }

  /** The objects hold exactly what the numbered network says about property k, and the rest of
      every value table and every subscription map is as recorded. */
  ghost predicate Matches(world: World, k: Key, w: Wiring, s: State)
    reads world.regs, world.ads, world.journal
  {
    && k.typ != STRING && WellFormed(w, s)
    && world.journal.trace == s.trace && world.journal.verdict == w.verdict
    && RegistriesMatch(world, k, s.vals, s.slots, w.receivers)
    && AdaptersMatch(world, k, w, s.accept, s.hadUpdate)
  }

  ghost predicate Known(world: World, a: Adapter) {
    a.id < |world.ads| && world.ads[a.id] == a
  }

  /** What it takes for a set of objects to be a network: everything numbered, and nothing that
      refers to an object outside. */
  ghost predicate WiredUp(world: World)
    reads world.regs, world.ads
  {
    && |world.besides| == |world.regs| && |world.subscriptions| == |world.ads|
    && (forall i {:trigger world.regs[i]} :: 0 <= i < |world.regs| ==>
          var r := world.regs[i];
          r.id == i && r.journal == world.journal && Shaped(r.values)
          && forall j :: 0 <= j < |r.adapters| && r.adapters[j].Locks? ==> Known(world, r.adapters[j].adapter))
    && (forall i {:trigger world.ads[i]} :: 0 <= i < |world.ads| ==>
          var a := world.ads[i];
          a.id == i && a.journal == world.journal && Shaped(a.subscriptions)
          && a.registry.id < |world.regs| && world.regs[a.registry.id] == a.registry
          && (a.target != null ==> Known(world, a.target))
          && a.subscriptions == world.subscriptions[i])
  }

  ghost function SlotOf(p: WeakPtr): Slot {
    match p case Gone => Expired case Locks(a) => Live(a.id)
  }

  ghost function SlotsOf(ps: seq<WeakPtr>): seq<Slot> {
    seq(|ps|, j requires 0 <= j < |ps| => SlotOf(ps[j]))
  }

  ghost function WiringOf(world: World, k: Key): (w: Wiring)
    requires WiredUp(world) && InRange(k)
    reads world.regs, world.ads
    ensures |w.owner| == |w.target| == |w.subscribed| == |world.ads| && |w.receivers| == |world.regs|
    ensures forall i :: 0 <= i < |world.ads| ==> w.owner[i] < |world.regs|
    ensures forall i :: 0 <= i < |world.ads| && w.target[i].Some? ==> w.target[i].value < |world.ads|
  {
    var m := |world.ads|;
    Wiring(
      seq(m, i requires 0 <= i < m reads world.ads => world.ads[i].registry.id),
      seq(m, i requires 0 <= i < m reads world.ads =>
        if world.ads[i].target == null then None else Some(world.ads[i].target.id)),
      seq(|world.regs|, i requires 0 <= i < |world.regs| reads world.regs => world.regs[i].receivers),
      seq(m, i requires 0 <= i < m && Shaped(world.ads[i].subscriptions) reads world.ads =>
        At(world.ads[i].subscriptions, k)),
      world.journal.verdict)
  }

  ghost function StateOf(world: World, k: Key): (s: State)
    requires WiredUp(world) && InRange(k)
    reads world.regs, world.ads, world.journal
    ensures |s.vals| == |s.slots| == |world.regs| && |s.accept| == |s.hadUpdate| == |world.ads|
    ensures forall r: nat, a: nat :: r < |s.slots| && Live(a) in s.slots[r] ==> a < |world.ads|
  {
    var n, m := |world.regs|, |world.ads|;
    var slots := seq(n, i requires 0 <= i < n reads world.regs => SlotsOf(world.regs[i].adapters));
    LiveSlotsAreKnown(world, slots);
    State(
      seq(n, i requires 0 <= i < n && Shaped(world.regs[i].values) reads world.regs =>
        At(world.regs[i].values, k)),
      slots,
      seq(m, i requires 0 <= i < m reads world.ads => world.ads[i].acceptProperty),
      seq(m, i requires 0 <= i < m reads world.ads => world.ads[i].hadUpdate),
      world.journal.trace)
  }

  lemma LiveSlotsAreKnown(world: World, slots: seq<seq<Slot>>)
    requires WiredUp(world) && |slots| == |world.regs|
    requires forall i :: 0 <= i < |slots| ==> slots[i] == SlotsOf(world.regs[i].adapters)
    ensures forall r: nat, a: nat :: r < |slots| && Live(a) in slots[r] ==> a < |world.ads|
  {
    forall r: nat, a: nat | r < |slots| && Live(a) in slots[r] ensures a < |world.ads| {
      var j :| 0 <= j < |slots[r]| && slots[r][j] == Live(a);
      assert Known(world, world.regs[r].adapters[j].adapter);
    }
  }

  /** Every network of objects is a numbered network, for every property. */
  lemma NetworksAreNumbered(world: World, k: Key)
    requires WiredUp(world) && InRange(k) && k.typ != STRING
    requires forall i :: 0 <= i < |world.regs| ==> world.besides[i] == Besides(world.regs[i].values, k)
    ensures Matches(world, k, WiringOf(world, k), StateOf(world, k))
  {
    var w, s := WiringOf(world, k), StateOf(world, k);
    forall i | 0 <= i < |world.regs| ensures RegistryIs(world, k, i, s.vals[i], s.slots[i], w.receivers[i]) {
      SlotsMatch(world, world.regs[i].adapters);
    }
    forall i | 0 <= i < |world.ads| ensures AdapterIs(world, k, w, i, s.accept[i], s.hadUpdate[i]) {}
  }

  lemma SlotsMatch(world: World, ps: seq<WeakPtr>)
    requires forall j :: 0 <= j < |ps| && ps[j].Locks? ==> Known(world, ps[j].adapter)
    ensures forall j :: 0 <= j < |ps| ==> SlotMatches(world, ps[j], SlotsOf(ps)[j])
  {
  }

  /** The objects after Registry::set in a network that agreed on k: every registry connected to
      the origin holds v, every other value of every registry is as recorded before the call,
      every adapter accepts again, and the registries at both ends of a link agree on k. */
  lemma NetworkConverged(world: World, k: Key, w: Wiring, s: State, r: nat, v: Value)
    requires WellFormed(w, s) && Paired(w, s) && AllAccept(s) && NoDrops(w)
    requires TwoWay(w, s) && AllSubscribed(w) && Agreeing(w, s) && r < |s.vals|
    requires Matches(world, k, w, SetRegistry(w, s, r, v))
    ensures forall i: nat :: i < |world.regs| ==>
              Shaped(world.regs[i].values)
              && At(world.regs[i].values, k) == (if Connected(w, s, r, i) then v else s.vals[i])
              && Besides(world.regs[i].values, k) == world.besides[i]
    ensures forall i: nat :: i < |world.ads| ==> world.ads[i].acceptProperty
    ensures forall a: nat :: a < |world.ads| && world.ads[a].target != null
              && Live(a) in s.slots[w.owner[a]]
              ==> At(world.ads[a].registry.values, k) == At(world.ads[a].target.registry.values, k)
  {
    var s' := SetRegistry(w, s, r, v);
    Convergence(w, s, r, v);
    forall i: nat | i < |world.regs|
      ensures Shaped(world.regs[i].values)
              && At(world.regs[i].values, k) == (if Connected(w, s, r, i) then v else s.vals[i])
              && Besides(world.regs[i].values, k) == world.besides[i]
    {
      assert RegistryIs(world, k, i, s'.vals[i], s'.slots[i], w.receivers[i]);
    }
    forall a: nat | a < |world.ads| && world.ads[a].target != null && Live(a) in s.slots[w.owner[a]]
      ensures At(world.ads[a].registry.values, k) == At(world.ads[a].target.registry.values, k)
    {
      AgreeingEnds(world, k, w, s', a);
    }
  }

  lemma AgreeingEnds(world: World, k: Key, w: Wiring, s: State, a: nat)
    requires Matches(world, k, w, s) && Agreeing(w, s) && AllSubscribed(w)
    requires a < |world.ads| && world.ads[a].target != null && Live(a) in s.slots[w.owner[a]]
    ensures Shaped(world.ads[a].registry.values) && Shaped(world.ads[a].target.registry.values)
    ensures At(world.ads[a].registry.values, k) == At(world.ads[a].target.registry.values, k)
  {
    var x := w.owner[a];
    var b := world.ads[a].target.id;
    assert AdapterIs(world, k, w, a, s.accept[a], s.hadUpdate[a]);
    assert AdapterIs(world, k, w, b, s.accept[b], s.hadUpdate[b]);
    assert Carries(w, a) && PeerOf(w, a) == w.owner[b];
    assert Edge(w, s, x, w.owner[b]);
    assert RegistryIs(world, k, x, s.vals[x], s.slots[x], w.receivers[x]);
    assert RegistryIs(world, k, w.owner[b], s.vals[w.owner[b]], s.slots[w.owner[b]], w.receivers[w.owner[b]]);
  }

  lemma ErasedSlotsMatch(world: World, ps: seq<WeakPtr>, slots: seq<Slot>, it: nat)
    requires |ps| == |slots| && it < |ps|
    requires forall j :: 0 <= j < |ps| ==> SlotMatches(world, ps[j], slots[j])
    ensures |Erase(ps, it)| == |Erase(slots, it)|
    ensures forall j :: 0 <= j < |Erase(ps, it)| ==> SlotMatches(world, Erase(ps, it)[j], Erase(slots, it)[j])
  {
  }

  class Registry {
    const id: nat
    const journal: Journal
    var values: seq<seq<Value>>
    var adapters: seq<WeakPtr>
    var receivers: nat

    constructor (id: nat, journal: Journal, values: seq<seq<Value>>)
      ensures this.id == id && this.journal == journal && this.values == values
      ensures adapters == [] && receivers == 0
    {
      this.id, this.journal, this.values := id, journal, values;
      adapters, receivers := [], 0;
    }

    /** initDefaults, as the constructor calls it: nobody is registered yet, so every set only
        stores. String properties are passed over. */
    method InitDefaults(defaults: seq<seq<Value>>)
      requires Shaped(values) && Shaped(defaults) && adapters == [] && receivers == 0
      modifies this`values
      ensures Shaped(values)
      ensures forall k :: InRange(k) ==>
                At(values, k) == if k.typ == STRING then old(At(values, k)) else At(defaults, k)
    {
      for typ := 0 to |ENTRY_COUNTS|
        invariant Shaped(values)
        invariant forall k :: InRange(k) ==>
                    At(values, k) == if k.typ < typ && k.typ != STRING then At(defaults, k) else old(At(values, k))
      {
        for property := 0 to ENTRY_COUNTS[typ]
          invariant Shaped(values)
          invariant forall k :: InRange(k) ==>
                      At(values, k) == if (k.typ < typ || (k.typ == typ && k.property < property)) && k.typ != STRING
                                       then At(defaults, k) else old(At(values, k))
        {
          var k := Key(typ, property);
          if typ != STRING && At(values, k) != At(defaults, k) {
            values := Put(values, k, At(defaults, k));
          }
        }
      }
    }

    method RegisterAdapter(a: Adapter)
      modifies this`adapters
      ensures adapters == old(adapters) + [Locks(a)]
    {
      adapters := adapters + [Locks(a)];
    }

    /** Registry::set does to the objects exactly what SetRegistry does to the numbered network. */
    method Set(k: Key, v: Value, ghost world: World, ghost w: Wiring, ghost s: State)
      requires Matches(world, k, w, s)
      requires id < |world.regs| && world.regs[id] == this
      modifies world.regs, world.ads, world.journal
      ensures Matches(world, k, w, SetRegistry(w, s, id, v))
      decreases Pending(s.vals, v), 0, 0
    {
      assert world.regs[id] == this;
      if At(values, k) == v {
        return;
      }
      StoreValue(k, v, world, w, s);
      PendingShrinks(s.vals, Stored(w, s, id, v).vals, v);
      ForwardToAdapters(k, v, world, w, Stored(w, s, id, v));
      TellReceivers(k, world, w, Forward(w, Stored(w, s, id, v), id, 0, v));
    }

    method StoreValue(k: Key, v: Value, ghost world: World, ghost w: Wiring, ghost s: State)
      requires Matches(world, k, w, s)
      requires id < |world.regs| && world.regs[id] == this
      modifies this`values
      ensures Matches(world, k, w, Stored(w, s, id, v))
    {
      ghost var vals := s.vals[id := v];
      PutBesides(values, k, v);
      values := Put(values, k, v);
      forall i | 0 <= i < |world.regs|
        ensures RegistryIs(world, k, i, vals[i], s.slots[i], w.receivers[i])
      {
        assert i != id ==> world.regs[i] != this;
      }
      assert AdaptersMatch(world, k, w, s.accept, s.hadUpdate);
    }

    /** The loop over m_adapters. */
    method ForwardToAdapters(k: Key, v: Value, ghost world: World, ghost w: Wiring, ghost s: State)
      requires Matches(world, k, w, s)
      requires id < |world.regs| && world.regs[id] == this && s.vals[id] == v
      modifies world.regs, world.ads, world.journal
      ensures Matches(world, k, w, Forward(w, s, id, 0, v))
      decreases Pending(s.vals, v), 3, 0
    {
      ghost var cur := s;
      var it := 0;
      assert world.regs[id] == this;
      while it < |adapters|
        invariant Matches(world, k, w, cur)
        invariant |cur.vals| == |s.vals| && cur.vals[id] == v && it <= |adapters| == |cur.slots[id]|
        invariant Pending(cur.vals, v) <= Pending(s.vals, v)
        invariant Forward(w, cur, id, it, v) == Forward(w, s, id, 0, v)
        decreases |adapters| - it
      {
        RestComesNext(w, cur, id, it, v);
        ghost var next := Serve(w, cur, id, it, v);
        it := ServeEntry(k, v, it, world, w, cur);
        cur := next;
        assert world.regs[id] == this;
      }
    }

    /** One turn of that loop: set a live adapter and move on, or erase an expired one. */
    method ServeEntry(k: Key, v: Value, it: nat, ghost world: World, ghost w: Wiring, ghost s: State)
      returns (next: nat)
      requires Matches(world, k, w, s)
      requires id < |world.regs| && world.regs[id] == this && s.vals[id] == v && it < |s.slots[id]|
      modifies world.regs, world.ads, world.journal
      ensures Matches(world, k, w, Serve(w, s, id, it, v))
      ensures next == if s.slots[id][it].Live? then it + 1 else it
      decreases Pending(s.vals, v), 2, 1
    {
      assert world.regs[id] == this && SlotMatches(world, adapters[it], s.slots[id][it]);
      match adapters[it]
      case Locks(a) =>
        var status := a.Set(k, v, world, w, s);
        next := it + 1;
      case Gone =>
        EraseEntry(k, v, it, world, w, s);
        next := it;
    }

    method EraseEntry(k: Key, ghost v: Value, it: nat, ghost world: World, ghost w: Wiring, ghost s: State)
      requires Matches(world, k, w, s)
      requires id < |world.regs| && world.regs[id] == this
      requires it < |s.slots[id]| && s.slots[id][it].Expired?
      modifies this`adapters
      ensures Matches(world, k, w, Pruned(w, s, id, it, v))
    {
      ghost var slots := Erase(s.slots[id], it);
      assert RegistryIs(world, k, id, s.vals[id], s.slots[id], w.receivers[id]);
      ErasedSlotsMatch(world, adapters, s.slots[id], it);
      adapters := Erase(adapters, it);
      forall i | 0 <= i < |world.regs|
        ensures RegistryIs(world, k, i, s.vals[i], s.slots[id := slots][i], w.receivers[i])
      {
        assert i != id ==> world.regs[i] != this;
      }
      forall i | 0 <= i < |world.ads| ensures AdapterIs(world, k, w, i, s.accept[i], s.hadUpdate[i]) {}
    }

    /** The loop over m_receivers. */
    method TellReceivers(k: Key, ghost world: World, ghost w: Wiring, ghost s: State)
      requires Matches(world, k, w, s)
      requires id < |world.regs| && world.regs[id] == this
      modifies world.journal
      ensures Matches(world, k, w, Notify(w, s, id))
    {
      assert world.regs[id] == this;
      ghost var x := s.vals[id];
      ghost var told := [];
      for j := 0 to receivers
        invariant told == seq(j, n requires 0 <= n => Notified(id, n, x))
        invariant Matches(world, k, w, s.(trace := s.trace + told))
      {
        assert world.regs[id] == this;
        journal.Append(Notified(id, j, At(values, k)));
        assert s.trace + (told + [Notified(id, j, x)]) == s.trace + told + [Notified(id, j, x)];
        told := told + [Notified(id, j, x)];
      }
    }
  }

  class Adapter {
    const id: nat
    const registry: Registry
    const journal: Journal
    var target: Adapter?
    var acceptProperty: bool
    var hadUpdate: bool
    var subscriptions: seq<seq<bool>>

    constructor (id: nat, registry: Registry, journal: Journal, subscribed: bool)
      ensures this.id == id && this.registry == registry && this.journal == journal
      ensures target == null && acceptProperty && !hadUpdate
      ensures Shaped(subscriptions)
      ensures forall k :: InRange(k) ==> At(subscriptions, k) == subscribed
    {
      this.id, this.registry, this.journal := id, registry, journal;
      target, acceptProperty, hadUpdate := null, true, false;
      subscriptions := seq(|ENTRY_COUNTS|, t requires 0 <= t < |ENTRY_COUNTS| =>
                         seq(ENTRY_COUNTS[t], p => subscribed));
    }

    /** LiteCommAdapter::set, with the transmit callback of a directly wired peer. */
    method Set(k: Key, v: Value, ghost world: World, ghost w: Wiring, ghost s: State)
      returns (status: Status)
      requires Matches(world, k, w, s)
      requires id < |world.ads| && world.ads[id] == this
      modifies world.regs, world.ads, world.journal
      ensures Matches(world, k, w, Send(w, s, id, v))
      ensures status == if !s.accept[id] then NotAccepted
                        else if !w.subscribed[id] then NotSubscribed else Ok
      decreases Pending(s.vals, v), 2, 0
    {
      assert world.ads[id] == this;
      if !acceptProperty {
        return NotAccepted;
      }
      if !At(subscriptions, k) {
        return NotSubscribed;
      }
      var n := |journal.trace|;
      journal.Append(Sent(id));
      if target != null {
        target.ReceiveUpdate(k, v, n, world, w, Logged(w, s, Sent(id)));
      }
      return Ok;
    }

    /** The receive callback for an UPDATE of an existing property. */
    method ReceiveUpdate(k: Key, v: Value, n: nat, ghost world: World, ghost w: Wiring, ghost s: State)
      requires Matches(world, k, w, s)
      requires id < |world.ads| && world.ads[id] == this
      modifies world.regs, world.ads, world.journal
      ensures Matches(world, k, w, Receive(w, s, id, v, n))
      decreases Pending(s.vals, v), 1, 0
    {
      assert world.ads[id] == this;
      if journal.verdict(n) {
        return;
      }
      BeginUpdate(k, world, w, s);
      registry.Set(k, v, world, w, Suppressed(w, s, id));
      SetAcceptProperty(true, k, world, w, SetRegistry(w, Suppressed(w, s, id), w.owner[id], v));
    }

    method BeginUpdate(k: Key, ghost world: World, ghost w: Wiring, ghost s: State)
      requires Matches(world, k, w, s)
      requires id < |world.ads| && world.ads[id] == this
      modifies this`hadUpdate, this`acceptProperty
      ensures Matches(world, k, w, Suppressed(w, s, id))
    {
      ghost var s1 := Suppressed(w, s, id);
      hadUpdate := true;
      acceptProperty := false;
      forall i | 0 <= i < |world.ads| ensures AdapterIs(world, k, w, i, s1.accept[i], s1.hadUpdate[i]) {
        assert i != id ==> world.ads[i] != this;
      }
      assert RegistriesMatch(world, k, s.vals, s.slots, w.receivers);
    }

    method SetAcceptProperty(accept: bool, k: Key, ghost world: World, ghost w: Wiring, ghost s: State)
      requires Matches(world, k, w, s)
      requires id < |world.ads| && world.ads[id] == this
      modifies this`acceptProperty
      ensures Matches(world, k, w, Accepting(w, s, id, accept))
    {
      ghost var flags := s.accept[id := accept];
      acceptProperty := accept;
      forall i | 0 <= i < |world.ads| ensures AdapterIs(world, k, w, i, flags[i], s.hadUpdate[i]) {
        assert i != id ==> world.ads[i] != this;
      }
      assert RegistriesMatch(world, k, s.vals, s.slots, w.receivers);
    }
  }
}
