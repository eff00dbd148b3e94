/** From the wire to the database: one adapter, one receiving thread, a policy that was started. */
module EventLog {
  import opened Entries
  import E = Endpoint
  import P = Persistency

  /** A message that was in range and not dropped, and what the registry held for its property
      when the message had been handled. */
  datatype Handled = Handled(m: E.Entry, stored: Value)

  /** The endpoint, the policy, and the messages handled so far. */
  datatype Rig = Rig(end: E.End, sys: P.System, handled: seq<Handled>)

  datatype Event = Handle(m: E.Entry, drop: bool) | Policy(st: P.Step)

  /** The row pushed at the end of the receive callback. */
  function RowFor(end: E.End, m: E.Entry, adapterId: int): P.Record
    requires E.Proper(end) && InRange(m.key)
  {
    P.Record(adapterId % 0x1_0000, m.key, At(end.values, m.key))
  }

  /** The receiving thread takes a message only between pushes; a message that is out of range or
      dropped ends there. */
  function Do(r: Rig, adapterId: int, trigger: int, ev: Event): (r': Rig)
    requires E.Proper(r.end)
    ensures E.Proper(r'.end)
  {
    match ev
    case Policy(st) => r.(sys := P.Next(r.sys, trigger, st))
    case Handle(m, drop) =>
      if |r.sys.producers| != 1 || !r.sys.producers[0].Idle? || !InRange(m.key) || (m.kind.Update? && drop)
      then r
      else
        var end := E.Receive(r.end, m).end;
        Rig(end, P.Next(r.sys, trigger, P.CheckStop(0, RowFor(end, m, adapterId))),
            r.handled + [Handled(m, At(end.values, m.key))])
  }

  ghost function Run(r: Rig, adapterId: int, trigger: int, evs: seq<Event>): (r': Rig)
    requires E.Proper(r.end)
    ensures E.Proper(r'.end)
  {
    if evs == [] then r
    else Do(Run(r, adapterId, trigger, evs[..|evs| - 1]), adapterId, trigger, evs[|evs| - 1])
  }

  /** Only the receiving thread pushes, and nobody stops the policy. */
  ghost predicate Undisturbed(evs: seq<Event>) {
    forall i :: 0 <= i < |evs| && evs[i].Policy? ==> !evs[i].st.CheckStop? && !evs[i].st.RequestStop?
  }

  /** The row of a message: the value stored when it was handled, which for an UPDATE is the one
      that was received. */
  ghost predicate RowMatches(row: P.Record, h: Handled, adapterId: int) {
    row.clientId == adapterId % 0x1_0000 && row.key == h.m.key && row.value == h.stored
    && (h.m.kind.Update? && h.m.key.typ != STRING ==> row.value == h.m.value)
  }

  ghost function InFlight(s: P.System): seq<P.Record> {
    if |s.producers| == 1 && s.producers[0].Holding? then [s.producers[0].r] else []
  }

  ghost predicate Recorded(r: Rig, adapterId: int) {
    var rows := r.sys.history + InFlight(r.sys);
    && !r.sys.core.stop && r.sys.controller.Free? && |r.sys.producers| == 1
    && P.Conserved(r.sys)
    && |rows| == |r.handled|
    && forall j :: 0 <= j < |rows| ==> RowMatches(rows[j], r.handled[j], adapterId)
  }

  /** A policy that has just been enabled, with one producer thread. */
  ghost function Started(end: E.End, trigger: int): Rig {
    Rig(end, P.Next(P.Fresh(1), trigger, P.Enable), [])
  }

  lemma ReceivedValue(e: E.End, m: E.Entry)
    requires E.Proper(e) && InRange(m.key) && m.kind.Update? && m.key.typ != STRING
    ensures At(E.Receive(e, m).end.values, m.key) == m.value
  {
  }

  lemma HandleRecords(r: Rig, adapterId: int, trigger: int, m: E.Entry, drop: bool)
    requires E.Proper(r.end) && Recorded(r, adapterId)
    ensures Recorded(Do(r, adapterId, trigger, Handle(m, drop)), adapterId)
  {
    var r' := Do(r, adapterId, trigger, Handle(m, drop));
    if r' != r && m.kind.Update? && m.key.typ != STRING {
      ReceivedValue(r.end, m);
    }
  }

  /** A push moves the row from the thread into the history; no other step touches either. */
  lemma RowsStay(s: P.System, trigger: int, st: P.Step)
    requires |s.producers| == 1 && !s.core.stop && s.controller.Free?
    requires !st.CheckStop? && !st.RequestStop?
    ensures var s' := P.Next(s, trigger, st);
            && |s'.producers| == 1 && !s'.core.stop && s'.controller.Free?
            && s'.history + InFlight(s') == s.history + InFlight(s)
  {
  }

  lemma PolicyRecords(r: Rig, adapterId: int, trigger: int, st: P.Step)
    requires E.Proper(r.end) && Recorded(r, adapterId) && !st.CheckStop? && !st.RequestStop?
    ensures Recorded(Do(r, adapterId, trigger, Policy(st)), adapterId)
  {
    P.StepConserves(r.sys, trigger, st);
    RowsStay(r.sys, trigger, st);
  }

  lemma {:induction false} AlwaysRecorded(end: E.End, adapterId: int, trigger: int, evs: seq<Event>)
    requires E.Proper(end) && Undisturbed(evs)
    ensures Recorded(Run(Started(end, trigger), adapterId, trigger, evs), adapterId)
  {
    if evs != [] {
      AlwaysRecorded(end, adapterId, trigger, evs[..|evs| - 1]);
      var mid := Run(Started(end, trigger), adapterId, trigger, evs[..|evs| - 1]);
      match evs[|evs| - 1]
      case Handle(m, drop) => HandleRecords(mid, adapterId, trigger, m, drop);
      case Policy(st) => PolicyRecords(mid, adapterId, trigger, st);
    }
  }

  /** The rows ever inserted are a prefix of the messages handled, one row each and in order; each
      carries the value stored when its message was handled, the row of an UPDATE the value that
      was received. */
  lemma EndToEndLog(end: E.End, adapterId: int, trigger: int, evs: seq<Event>)
    requires E.Proper(end) && Undisturbed(evs)
    ensures var r := Run(Started(end, trigger), adapterId, trigger, evs);
            var rows := P.Rows(r.sys.core.log);
            |rows| <= |r.handled|
            && forall j :: 0 <= j < |rows| ==> RowMatches(rows[j], r.handled[j], adapterId)
  {
    AlwaysRecorded(end, adapterId, trigger, evs);
    var r := Run(Started(end, trigger), adapterId, trigger, evs);
    var rows := P.Rows(r.sys.core.log);
    assert rows + (P.Hand(r.sys.worker) + r.sys.core.queue) == r.sys.history;
    forall j | 0 <= j < |rows| ensures RowMatches(rows[j], r.handled[j], adapterId) {
      assert rows[j] == (r.sys.history + InFlight(r.sys))[j];
    }
  }

  // ---------------------------------------------------------------- which messages are handled

  /** The entries of a sequence of events that get past the bounds check and the dropper policy,
      and find the receiving thread between two pushes. */
  ghost function Accepted(r: Rig, adapterId: int, trigger: int, evs: seq<Event>): seq<E.Entry>
    requires E.Proper(r.end)
  {
    if evs == [] then []
    else
      var front, ev := evs[..|evs| - 1], evs[|evs| - 1];
      var busy := Run(r, adapterId, trigger, front).sys.producers != [P.Idle];
      Accepted(r, adapterId, trigger, front)
      + if ev.Handle? && !busy && InRange(ev.m.key) && !(ev.m.kind == E.Update && ev.drop) then [ev.m] else []
  }

  /** An endpoint that receives these entries one after the other. */
  ghost function Receives(end: E.End, ms: seq<E.Entry>): (end': E.End)
    requires E.Proper(end)
    ensures E.Proper(end')
  {
    if ms == [] then end else E.Receive(Receives(end, ms[..|ms| - 1]), ms[|ms| - 1]).end
  }

  /** The log of what was handled says the truth: exactly these entries, with the values that an
      endpoint receiving just them would hold. */
  ghost predicate Faithful(end: E.End, hs: seq<Handled>, ms: seq<E.Entry>)
    requires E.Proper(end)
  {
    |hs| == |ms| && forall j :: 0 <= j < |ms| ==>
      hs[j].m == ms[j] && InRange(ms[j].key)
      && hs[j].stored == At(Receives(end, ms[..j + 1]).values, ms[j].key)
  }

  lemma FaithfulAppend(end: E.End, hs: seq<Handled>, ms: seq<E.Entry>, m: E.Entry)
    requires E.Proper(end) && Faithful(end, hs, ms) && InRange(m.key)
    ensures Receives(end, ms + [m]) == E.Receive(Receives(end, ms), m).end
    ensures Faithful(end, hs + [Handled(m, At(Receives(end, ms + [m]).values, m.key))], ms + [m])
  {
    var all := ms + [m];
    assert all[..|ms|] == ms && all[..|ms| + 1] == all;
    forall j | 0 <= j < |ms| ensures all[j] == ms[j] && all[..j + 1] == ms[..j + 1] {}
  }

  /** In every undisturbed run: what has been handled is every entry that was accepted, of every
      kind, in order, and the endpoint is what these entries alone make of it. */
  lemma {:induction false} HandlesWhatItAccepts(end: E.End, adapterId: int, trigger: int, evs: seq<Event>)
    requires E.Proper(end) && Undisturbed(evs)
    ensures var r0 := Started(end, trigger);
            var (r, ms) := (Run(r0, adapterId, trigger, evs), Accepted(r0, adapterId, trigger, evs));
            Faithful(end, r.handled, ms) && r.end == Receives(end, ms)
  {
    if evs != [] {
      var front, ev := evs[..|evs| - 1], evs[|evs| - 1];
      var r0 := Started(end, trigger);
      HandlesWhatItAccepts(end, adapterId, trigger, front);
      AlwaysRecorded(end, adapterId, trigger, front);
      var ms := Accepted(r0, adapterId, trigger, front);
      if Accepted(r0, adapterId, trigger, evs) == ms {
        StaysAsItIs(Run(r0, adapterId, trigger, front), adapterId, trigger, ev);
      } else {
        FaithfulAppend(end, Run(r0, adapterId, trigger, front).handled, ms, ev.m);
      }
    }
  }

  /** Anything else than an accepted entry is not handled and does not touch the endpoint. */
  lemma StaysAsItIs(r: Rig, adapterId: int, trigger: int, ev: Event)
    requires E.Proper(r.end) && Recorded(r, adapterId)
    requires ev.Handle? && r.sys.producers == [P.Idle] && InRange(ev.m.key) ==> ev.m.kind == E.Update && ev.drop
    ensures Do(r, adapterId, trigger, ev).end == r.end && Do(r, adapterId, trigger, ev).handled == r.handled
  {
    assert r.sys.producers == [r.sys.producers[0]];
  }

  /** From the wire to the database in one statement: row j is what the j-th accepted entry left in
      an endpoint that received just the first j + 1 of them. */
  lemma RowsAreWhatWasReceived(end: E.End, adapterId: int, trigger: int, evs: seq<Event>)
    requires E.Proper(end) && Undisturbed(evs)
    ensures var r0 := Started(end, trigger);
            var rows := P.Rows(Run(r0, adapterId, trigger, evs).sys.core.log);
            var ms := Accepted(r0, adapterId, trigger, evs);
            |rows| <= |ms| && forall j :: 0 <= j < |rows| ==>
              InRange(ms[j].key)
              && rows[j] == P.Record(adapterId % 0x1_0000, ms[j].key,
                                     At(Receives(end, ms[..j + 1]).values, ms[j].key))
  {
    EndToEndLog(end, adapterId, trigger, evs);
    HandlesWhatItAccepts(end, adapterId, trigger, evs);
  }
}
