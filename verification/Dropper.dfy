/** The lossy dropper: a sequence-number filter per property that mixes an unsigned
    16-bit comparison, a signed 16-bit distance, adapter switching and a global reset. */
module Dropper {
  import opened Entries

  type U16 = n: nat | n < 0x1_0000

  datatype Record = Record(mark: U16, adapterId: U16)

  const FRESH := Record(0, 0)

  /** static_cast<int16_t> of an unsigned 16-bit number. */
  function Signed16(n: U16): int {
    if n < 0x8000 then n else n - 0x1_0000
  }

  /** Narrowing an int into a uint16_t field. */
  function Narrow(id: int): U16 { id % 0x1_0000 }

  function Abs(x: int): nat { if x < 0 then -x else x }

  datatype Verdict = Verdict(drop: bool, record: Record)

  /** The decision for number n from adapter id against one record, and the record left behind. */
  function Judge(r: Record, n: U16, id: int): Verdict {
    if n >= r.mark then Verdict(false, r.(mark := n))
    else if Abs(Signed16(n) - Signed16(r.mark)) > 50 then Verdict(false, r.(mark := 0))
    else if r.adapterId != id then Verdict(false, Record(n, Narrow(id)))
    else Verdict(true, r)
  }

  predicate SameHalf(n: U16, m: U16) { n < 0x8000 <==> m < 0x8000 }

  /** Late by at most 50 without crossing a half boundary, or early by at most 50 across the
      wrap from 65535 to 0. */
  predicate InDropArc(n: U16, mark: U16) {
    n < mark && if SameHalf(n, mark) then mark - n <= 50 else n + 0x1_0000 - mark <= 50
  }

  /** The closed form of the filter, and what a refusal leaves behind. */
  lemma DropSet(r: Record, n: U16, id: int)
    ensures Judge(r, n, id).drop <==> id == r.adapterId && InDropArc(n, r.mark)
    ensures Judge(r, n, id).drop ==> Judge(r, n, id).record == r
    ensures !Judge(r, n, id).drop ==> Judge(r, n, id).record.mark in {n, 0}
  {
  }

  /** The record an accepted number leaves behind. */
  lemma AcceptedRecord(r: Record, n: U16, id: int)
    ensures n >= r.mark ==>
              Judge(r, n, id) == Verdict(false, Record(n, r.adapterId))
    ensures n < r.mark && !InDropArc(n, r.mark) ==>
              Judge(r, n, id) == Verdict(false, Record(0, r.adapterId))
    ensures InDropArc(n, r.mark) && id != r.adapterId ==>
              Judge(r, n, id) == Verdict(false, Record(n, id % 0x1_0000))
  {
  }

  // ---------------------------------------------------------------- the policy object

  datatype Message = Message(key: Key, number: U16, adapterId: int)

  function AllFresh(): (m: seq<seq<Record>>)
    ensures Shaped(m) && forall k :: InRange(k) ==> At(m, k) == FRESH
  {
    seq(|ENTRY_COUNTS|, t requires 0 <= t < |ENTRY_COUNTS| => seq(ENTRY_COUNTS[t], p => FRESH))
  }

  /** The records left by one message. */
  function Filtered(records: seq<seq<Record>>, m: Message): (r: seq<seq<Record>>)
    requires Shaped(records) && InRange(m.key)
    ensures Shaped(r)
  {
    if m.key == CTRL_RESET_SEQ_NUMBERS then AllFresh()
    else Put(records, m.key, Judge(At(records, m.key), m.number, m.adapterId).record)
  }

  predicate Drops(records: seq<seq<Record>>, m: Message)
    requires Shaped(records) && InRange(m.key)
  {
    m.key == CTRL_RESET_SEQ_NUMBERS || Judge(At(records, m.key), m.number, m.adapterId).drop
  }

  class LossyPolicy {
    var records: seq<seq<Record>>

    constructor ()
      ensures records == AllFresh()
    {
      records := AllFresh();
    }

    method ShouldBeDropped(reliable: bool, typ: nat, property: nat, number: U16, adapterId: int)
      returns (drop: bool)
      requires Shaped(records) && InRange(Key(typ, property))
      modifies this
      ensures drop == old(Drops(records, Message(Key(typ, property), number, adapterId)))
      ensures records == old(Filtered(records, Message(Key(typ, property), number, adapterId)))
    {
      var k := Key(typ, property);
      var entry := At(records, k);
      if typ == BOOL && property == CTRL_RESET_SEQ_NUMBERS.property {
        ResetAll();
        return true;
      }
      if number >= entry.mark {
        records := Put(records, k, entry.(mark := number));
        return false;
      } else if Abs(Signed16(number) - Signed16(entry.mark)) > 50 {
        records := Put(records, k, entry.(mark := 0));
        return false;
      } else if entry.adapterId != adapterId {
        records := Put(records, k, Record(number, Narrow(adapterId)));
        return false;
      } else {
        SameTable(records, Put(records, k, entry));
        return true;
      }
    }

    /** The nested reset loop over all records of all types. */
    method ResetAll()
      requires Shaped(records)
      modifies this
      ensures records == AllFresh()
    {
      for t := 0 to |ENTRY_COUNTS|
        invariant Shaped(records)
        invariant forall k :: InRange(k) && k.typ < t ==> At(records, k) == FRESH
      {
        for p := 0 to ENTRY_COUNTS[t]
          invariant Shaped(records)
          invariant forall k :: InRange(k) && (k.typ < t || (k.typ == t && k.property < p))
                      ==> At(records, k) == FRESH
        {
          records := Put(records, Key(t, p), FRESH);
        }
      }
      SameTable(records, AllFresh());
    }
  }

  // ---------------------------------------------------------------- streams of messages

  function Front<T>(s: seq<T>): seq<T>
    requires s != []
  {
    s[..|s| - 1]
  }

  function Last<T>(s: seq<T>): T
    requires s != []
  {
    s[|s| - 1]
  }

  ghost predicate Handled(ms: seq<Message>) { forall i :: 0 <= i < |ms| ==> InRange(ms[i].key) }

  ghost function After(records: seq<seq<Record>>, ms: seq<Message>): (r: seq<seq<Record>>)
    requires Shaped(records) && Handled(ms)
    ensures Shaped(r)
  {
    if ms == [] then records else Filtered(After(records, Front(ms)), Last(ms))
  }

  /** All decisions, in order. */
  ghost function Decisions(records: seq<seq<Record>>, ms: seq<Message>): seq<bool>
    requires Shaped(records) && Handled(ms)
  {
    if ms == [] then []
    else Decisions(records, Front(ms)) + [Drops(After(records, Front(ms)), Last(ms))]
  }

  /** The decisions taken on the messages of one property. */
  ghost function DecisionsFor(records: seq<seq<Record>>, ms: seq<Message>, k: Key): seq<bool>
    requires Shaped(records) && Handled(ms)
  {
    if ms == [] then []
    else DecisionsFor(records, Front(ms), k)
         + if Last(ms).key == k then [Drops(After(records, Front(ms)), Last(ms))] else []
  }

  /** What one record can see of a stream: its own numbers, and resets. */
  datatype Tick = Number(n: U16, id: int) | Reset

  ghost function Project(ms: seq<Message>, k: Key): seq<Tick> {
    if ms == [] then []
    else Project(Front(ms), k)
         + if Last(ms).key == k then [Number(Last(ms).number, Last(ms).adapterId)]
           else if Last(ms).key == CTRL_RESET_SEQ_NUMBERS then [Reset]
           else []
  }

  ghost function KeyAfter(r: Record, ts: seq<Tick>): Record {
    if ts == [] then r
    else match Last(ts)
         case Number(n, id) => Judge(KeyAfter(r, Front(ts)), n, id).record
         case Reset => FRESH
  }

  ghost function KeyDecisions(r: Record, ts: seq<Tick>): seq<bool> {
    if ts == [] then []
    else KeyDecisions(r, Front(ts))
         + match Last(ts)
           case Number(n, id) => [Judge(KeyAfter(r, Front(ts)), n, id).drop]
           case Reset => []
  }

  /** Traffic on other properties never changes a decision: each property is filtered by its
      own record, of which it sees only its own messages and the resets. */
  lemma {:induction false} NonInterference(records: seq<seq<Record>>, ms: seq<Message>, k: Key)
    requires Shaped(records) && Handled(ms) && InRange(k) && k != CTRL_RESET_SEQ_NUMBERS
    ensures DecisionsFor(records, ms, k) == KeyDecisions(At(records, k), Project(ms, k))
    ensures At(After(records, ms), k) == KeyAfter(At(records, k), Project(ms, k))
  {
    if ms != [] {
      NonInterference(records, Front(ms), k);
      var ts := Project(ms, k);
      if Last(ms).key == k || Last(ms).key == CTRL_RESET_SEQ_NUMBERS {
        assert Front(ts) == Project(Front(ms), k);
      } else {
        assert ts == Project(Front(ms), k);
      }
    }
  }

  lemma FrontOfSplit(pre: seq<Message>, reset: Message, post: seq<Message>)
    requires post != []
    ensures Front(pre + [reset] + post) == pre + [reset] + Front(post)
    ensures Last(pre + [reset] + post) == Last(post)
  {
  }

  lemma {:induction false} RecordsAfterReset(records: seq<seq<Record>>, pre: seq<Message>, reset: Message,
                                             post: seq<Message>)
    requires Shaped(records) && Handled(pre) && Handled(post)
    requires reset.key == CTRL_RESET_SEQ_NUMBERS
    ensures Handled(pre + [reset] + post)
    ensures After(records, pre + [reset] + post) == After(AllFresh(), post)
  {
    if post == [] {
      assert pre + [reset] + post == pre + [reset] && Front(pre + [reset]) == pre;
    } else {
      RecordsAfterReset(records, pre, reset, Front(post));
      FrontOfSplit(pre, reset, post);
    }
  }

  /** A reset is itself refused, and from there on the policy decides as a newly built one
      would on the rest of the stream, whatever came before. */
  lemma {:induction false} Forgetting(records: seq<seq<Record>>, pre: seq<Message>, reset: Message,
                                      post: seq<Message>)
    requires Shaped(records) && Handled(pre) && Handled(post)
    requires reset.key == CTRL_RESET_SEQ_NUMBERS
    ensures Handled(pre + [reset] + post)
    ensures Decisions(records, pre + [reset] + post)
         == Decisions(records, pre) + [true] + Decisions(AllFresh(), post)
  {
    var all := pre + [reset] + post;
    RecordsAfterReset(records, pre, reset, post);
    if post == [] {
      assert all == pre + [reset] && Front(all) == pre;
    } else {
      FrontOfSplit(pre, reset, post);
      RecordsAfterReset(records, pre, reset, Front(post));
      Forgetting(records, pre, reset, Front(post));
      assert Decisions(records, all) == Decisions(records, pre + [reset] + Front(post))
          + [Drops(After(AllFresh(), Front(post)), Last(post))];
    }
  }

  // ---------------------------------------------------------------- jumping back

  /** n lies behind the mark, but not so close that it is refused. */
  predicate JumpsBack(n: U16, mark: U16) { n < mark && !InDropArc(n, mark) }

  lemma AfterAppend(records: seq<seq<Record>>, ms: seq<Message>, m: Message)
    requires Shaped(records) && Handled(ms) && InRange(m.key)
    ensures Handled(ms + [m]) && After(records, ms + [m]) == Filtered(After(records, ms), m)
  {
    assert Front(ms + [m]) == ms && Last(ms + [m]) == m;
  }

  /** Other properties and resets leave a mark of 0 alone. */
  lemma {:induction false} OthersKeepZero(records: seq<seq<Record>>, ms: seq<Message>, k: Key)
    requires Shaped(records) && Handled(ms) && InRange(k) && At(records, k).mark == 0
    requires forall i :: 0 <= i < |ms| ==> ms[i].key != k
    ensures At(After(records, ms), k).mark == 0
  {
    if ms != [] {
      OthersKeepZero(records, Front(ms), k);
    }
  }

  lemma {:induction false} AfterConcat(records: seq<seq<Record>>, ms: seq<Message>, more: seq<Message>)
    requires Shaped(records) && Handled(ms) && Handled(more)
    ensures Handled(ms + more) && After(records, ms + more) == After(After(records, ms), more)
  {
    if more == [] {
      assert ms + more == ms;
    } else {
      assert Front(ms + more) == ms + Front(more) && Last(ms + more) == Last(more);
      AfterConcat(records, ms, Front(more));
    }
  }

  /** After a jump back, which is accepted, the next message of the property is accepted whatever
      its number and sender, and whatever comes in between for other properties. */
  lemma JumpBackForgives(records: seq<seq<Record>>, ms: seq<Message>, jump: Message,
                         between: seq<Message>, next: Message)
    requires Shaped(records) && Handled(ms) && Handled(between) && InRange(jump.key)
    requires jump.key == next.key != CTRL_RESET_SEQ_NUMBERS
    requires forall i :: 0 <= i < |between| ==> between[i].key != jump.key
    requires JumpsBack(jump.number, At(After(records, ms), jump.key).mark)
    ensures Handled(ms + [jump] + between)
    ensures !Drops(After(records, ms), jump)
    ensures !Drops(After(records, ms + [jump] + between), next)
  {
    var before := After(records, ms);
    AcceptedRecord(At(before, jump.key), jump.number, jump.adapterId);
    AfterAppend(records, ms, jump);
    AfterConcat(records, ms + [jump], between);
    OthersKeepZero(After(records, ms + [jump]), between, jump.key);
  }

  // ---------------------------------------------------------------- bounded starvation

  ghost function Numbers(ts: seq<Tick>): nat {
    if ts == [] then 0 else Numbers(Front(ts)) + if Last(ts).Number? then 1 else 0
  }

  /** The numbers count up by one modulo 2^16 from n, across any resets. */
  ghost predicate CountsFrom(ts: seq<Tick>, n: U16) {
    ts == [] || (CountsFrom(Front(ts), n)
                 && (Last(ts).Number? ==> Last(ts).n == (n + Numbers(Front(ts))) % 0x1_0000))
  }

  /** How many more consecutive numbers from n on a record with this mark can refuse. */
  ghost function Room(mark: U16, n: U16): nat {
    if !InDropArc(n, mark) then 0
    else if SameHalf(n, mark) then mark - n else mark - 65485 - n
  }

  lemma RoomShrinks(mark: U16, n: U16)
    requires InDropArc(n, mark)
    ensures 1 <= Room(mark, n) <= 50
    ensures Room(mark, (n + 1) % 0x1_0000) < Room(mark, n)
  {
  }

  ghost predicate AllTrue(ds: seq<bool>) { forall i :: 0 <= i < |ds| ==> ds[i] }

  lemma RefusalTakesRoom(r: Record, n: U16, sent: nat, id: int)
    requires Judge(r, (n + sent) % 0x1_0000, id).drop
    ensures Judge(r, (n + sent) % 0x1_0000, id).record == r
    ensures Room(r.mark, (n + sent + 1) % 0x1_0000) < Room(r.mark, (n + sent) % 0x1_0000)
  {
    DropSet(r, (n + sent) % 0x1_0000, id);
    RoomShrinks(r.mark, (n + sent) % 0x1_0000);
    assert (n + sent + 1) % 0x1_0000 == ((n + sent) % 0x1_0000 + 1) % 0x1_0000;
  }

  lemma LastDecision(r: Record, ts: seq<Tick>)
    requires ts != [] && Last(ts).Number? && AllTrue(KeyDecisions(r, ts))
    ensures AllTrue(KeyDecisions(r, Front(ts)))
    ensures Judge(KeyAfter(r, Front(ts)), Last(ts).n, Last(ts).id).drop
    ensures |KeyDecisions(r, ts)| == |KeyDecisions(r, Front(ts))| + 1
  {
    var before := KeyDecisions(r, Front(ts));
    assert forall i :: 0 <= i < |before| ==> before[i] == KeyDecisions(r, ts)[i];
    assert KeyDecisions(r, ts)[|before|];
  }

  lemma {:induction false} RefusalsUseUpRoom(r: Record, ts: seq<Tick>, n: U16)
    requires CountsFrom(ts, n) && AllTrue(KeyDecisions(r, ts))
    ensures Numbers(ts) + Room(KeyAfter(r, ts).mark, (n + Numbers(ts)) % 0x1_0000) <= Room(r.mark, n)
    ensures |KeyDecisions(r, ts)| == Numbers(ts)
  {
    if ts != [] && Last(ts).Number? {
      LastDecision(r, ts);
      RefusalsUseUpRoom(r, Front(ts), n);
      RefusalTakesRoom(KeyAfter(r, Front(ts)), n, Numbers(Front(ts)), Last(ts).id);
    } else if ts != [] {
      assert KeyDecisions(r, ts) == KeyDecisions(r, Front(ts));
      RefusalsUseUpRoom(r, Front(ts), n);
    }
  }

  /** From any state, a sender that steps its number by one modulo 2^16 never has more than 50
      messages in a row refused, whatever adapters, other properties and resets interleave. */
  lemma BoundedStarvation(records: seq<seq<Record>>, ms: seq<Message>, k: Key, n: U16)
    requires Shaped(records) && Handled(ms) && InRange(k) && k != CTRL_RESET_SEQ_NUMBERS
    requires CountsFrom(Project(ms, k), n)
    requires |DecisionsFor(records, ms, k)| > 50
    ensures exists i :: 0 <= i < |DecisionsFor(records, ms, k)| && !DecisionsFor(records, ms, k)[i]
  {
    NonInterference(records, ms, k);
    if AllTrue(DecisionsFor(records, ms, k)) {
      RefusalsUseUpRoom(At(records, k), Project(ms, k), n);
      if InDropArc(n, At(records, k).mark) {
        RoomShrinks(At(records, k).mark, n);
      }
      assert false;
    }
  }

  /** The bound is attained: the 50 numbers below the mark, sent in order, are all refused. */
  lemma {:induction false} StarvationBoundIsTight(r: Record, j: nat)
    requires 50 <= r.mark < 0x8000 && j <= 50
    ensures var ds := KeyDecisions(r, Replay(r, j)); |ds| == j && AllTrue(ds)
    ensures KeyAfter(r, Replay(r, j)) == r
    ensures Numbers(Replay(r, j)) == j && CountsFrom(Replay(r, j), r.mark - 50)
  {
    if j > 0 {
      StarvationBoundIsTight(r, j - 1);
      assert Front(Replay(r, j)) == Replay(r, j - 1);
      assert Last(Replay(r, j)) == Number(r.mark - 50 + (j - 1), r.adapterId);
      DropSet(r, r.mark - 50 + (j - 1), r.adapterId);
    }
  }

  ghost function Replay(r: Record, j: nat): seq<Tick>
    requires 50 <= r.mark && j <= 50
  {
    seq(j, i requires 0 <= i < j => Number(r.mark - 50 + i, r.adapterId))
  }

  // ---------------------------------------------------------------- exact loss over wraparounds

  /** The first j messages of a sender that counts 0, 1, 2, ... modulo 2^16. */
  ghost function Sender(id: int, j: nat): seq<Tick> {
    seq(j, i requires 0 <= i => Number(i % 0x1_0000, id))
  }

  ghost function Lost(ds: seq<bool>): nat {
    if ds == [] then 0 else Lost(Front(ds)) + if Last(ds) then 1 else 0
  }

  /** Numbers of the first round(s) that are never refused: a record that has not yet taken
      over the sender's id lets the first wrap pass. */
  ghost function FreeRounds(id: int): nat { if id == 0 then 1 else 2 }

  ghost function ExpectedLoss(id: int, j: nat): nat {
    var q, r := j / 0x1_0000, j % 0x1_0000;
    if q < FreeRounds(id) then 0 else 50 * (q - FreeRounds(id)) + if r < 50 then r else 50
  }

  ghost function ExpectedRecord(id: U16, j: nat): Record {
    var q, r := j / 0x1_0000, j % 0x1_0000;
    var owner: U16 := if j <= 0x1_0000 then 0 else id;
    if j == 0 then FRESH
    else if r == 0 then Record(0xFFFF, owner)
    else if q < FreeRounds(id) then Record(r - 1, owner)
    else if r <= 50 then Record(0xFFFF, owner)
    else if r == 51 then Record(0, owner)
    else Record(r - 1, owner)
  }

  lemma {:induction false} SenderStep(id: int, j: nat)
    requires j > 0
    ensures Front(Sender(id, j)) == Sender(id, j - 1)
    ensures Last(Sender(id, j)) == Number((j - 1) % 0x1_0000, id)
  {
    assert Front(Sender(id, j)) == Sender(id, j - 1);
  }

  lemma DivStep(j: nat)
    requires j > 0
    ensures (j - 1) % 0x1_0000 == (if j % 0x1_0000 == 0 then 0xFFFF else j % 0x1_0000 - 1)
    ensures (j - 1) / 0x1_0000 == (if j % 0x1_0000 == 0 then j / 0x1_0000 - 1 else j / 0x1_0000)
  {
  }

  /** One message later the expected record and loss are what the filter makes of it. */
  lemma ExpectedStep(id: U16, j: nat)
    requires j > 0
    ensures var v := Judge(ExpectedRecord(id, j - 1), (j - 1) % 0x1_0000, id);
            v.record == ExpectedRecord(id, j)
            && ExpectedLoss(id, j) == ExpectedLoss(id, j - 1) + if v.drop then 1 else 0
  {
    DivStep(j);
  }

  /** A counting sender on a fresh record whose id is the record's loses nothing in the first
      65536 messages; after 65536*q + r messages it has lost exactly 50*(q-1) + min(r, 50).
      A sender with another 16-bit id is spared one more wrap. */
  lemma {:induction false} ExactLoss(id: U16, j: nat)
    ensures KeyAfter(FRESH, Sender(id, j)) == ExpectedRecord(id, j)
    ensures Lost(KeyDecisions(FRESH, Sender(id, j))) == ExpectedLoss(id, j)
  {
    if j > 0 {
      ExactLoss(id, j - 1);
      SenderStep(id, j);
      ExpectedStep(id, j);
      var ds := KeyDecisions(FRESH, Sender(id, j));
      assert Front(ds) == KeyDecisions(FRESH, Sender(id, j - 1));
    }
  }

  /** An adapter id that does not fit the 16-bit field never matches it, so nothing is lost. */
  lemma {:induction false} WideIdsLoseNothing(r: Record, ts: seq<Tick>)
    requires forall i :: 0 <= i < |ts| && ts[i].Number? ==> !(0 <= ts[i].id < 0x1_0000)
    ensures Lost(KeyDecisions(r, ts)) == 0
  {
    if ts != [] {
      WideIdsLoseNothing(r, Front(ts));
      var ds := KeyDecisions(r, ts);
      assert Last(ts).Reset? ==> ds == KeyDecisions(r, Front(ts));
      if Last(ts).Number? {
        assert Front(ds) == KeyDecisions(r, Front(ts));
        DropSet(KeyAfter(r, Front(ts)), Last(ts).n, Last(ts).id);
      }
    }
  }

  // ---------------------------------------------------------------- reordering

  /** What a registry behind the filter ends with, and the record, when numbers ns arrive in
      this order from adapter id, number n carrying value val(n). */
  ghost function Delivered(r: Record, current: Value, ns: seq<U16>, id: int, val: U16 -> Value)
    : (Record, Value)
  {
    if ns == [] then (r, current)
    else
      var (mid, x) := Delivered(r, current, Front(ns), id, val);
      var j := Judge(mid, Last(ns), id);
      (j.record, if j.drop then x else val(Last(ns)))
  }

  ghost function RunningMax(mark: U16, ns: seq<U16>): U16 {
    if ns == [] then mark
    else var m := RunningMax(mark, Front(ns)); if Last(ns) > m then Last(ns) else m
  }

  /** A batch the filter can reorder: inside one half, spanning at most 50. */
  ghost predicate Batch(ns: seq<U16>, lo: U16, hi: U16) {
    SameHalf(lo, hi) && hi - lo <= 50 && forall i :: 0 <= i < |ns| ==> lo <= ns[i] <= hi
  }

  lemma {:induction false} RunningMaxBounds(mark: U16, ns: seq<U16>)
    ensures mark <= RunningMax(mark, ns)
    ensures RunningMax(mark, ns) == mark || RunningMax(mark, ns) in ns
    ensures forall i :: 0 <= i < |ns| ==> ns[i] <= RunningMax(mark, ns)
  {
    if ns != [] {
      RunningMaxBounds(mark, Front(ns));
      forall i | 0 <= i < |ns| ensures ns[i] <= RunningMax(mark, ns) {
        assert i < |ns| - 1 ==> ns[i] == Front(ns)[i];
      }
      assert RunningMax(mark, ns) == Last(ns) || RunningMax(mark, ns) == RunningMax(mark, Front(ns));
      assert forall x :: x in Front(ns) ==> x in ns;
    }
  }

  lemma {:induction false} MarkIsRunningMaximum(r: Record, current: Value, ns: seq<U16>, id: int,
                                                val: U16 -> Value, lo: U16, hi: U16)
    requires Batch(ns, lo, hi) && r.mark <= hi && r.adapterId == id
    ensures var (r', x) := Delivered(r, current, ns, id, val);
            r' == Record(RunningMax(r.mark, ns), r.adapterId)
            && x == (if RunningMax(r.mark, ns) in ns then val(RunningMax(r.mark, ns)) else current)
  {
    if ns != [] {
      FrontIsBatch(ns, lo, hi);
      MarkIsRunningMaximum(r, current, Front(ns), id, val, lo, hi);
      RunningMaxBounds(r.mark, Front(ns));
      DropSet(Record(RunningMax(r.mark, Front(ns)), r.adapterId), Last(ns), id);
      assert ns == Front(ns) + [Last(ns)];
    }
  }

  lemma FrontIsBatch(ns: seq<U16>, lo: U16, hi: U16)
    requires Batch(ns, lo, hi) && ns != []
    ensures Batch(Front(ns), lo, hi) && lo <= Last(ns) <= hi
  {
    assert Last(ns) == ns[|ns| - 1];
    assert forall i :: 0 <= i < |ns| - 1 ==> Front(ns)[i] == ns[i];
  }

  /** On a batch the filter is "keep iff at least everything kept so far". */
  lemma KeepsRunningMaximum(r: Record, current: Value, ns: seq<U16>, id: int,
                            val: U16 -> Value, lo: U16, hi: U16)
    requires Batch(ns, lo, hi) && r.mark <= hi && r.adapterId == id
    ensures var (r', x) := Delivered(r, current, ns, id, val);
            r' == Record(RunningMax(r.mark, ns), r.adapterId)
            && x == (if RunningMax(r.mark, ns) in ns then val(RunningMax(r.mark, ns)) else current)
    ensures ns != [] ==>
              (Judge(Delivered(r, current, Front(ns), id, val).0, Last(ns), id).drop
               <==> Last(ns) < RunningMax(r.mark, Front(ns)))
  {
    MarkIsRunningMaximum(r, current, ns, id, val, lo, hi);
    if ns != [] {
      FrontIsBatch(ns, lo, hi);
      MarkIsRunningMaximum(r, current, Front(ns), id, val, lo, hi);
      RunningMaxBounds(r.mark, Front(ns));
      DropSet(Record(RunningMax(r.mark, Front(ns)), r.adapterId), Last(ns), id);
    }
  }

  /** Order independence: any two arrivals, with any repetitions, of the same batch of numbers
      leave the registry at the value with the highest number, and the same record. */
  lemma OrderIndependence(r: Record, current: Value, ns: seq<U16>, ms: seq<U16>, id: int,
                          val: U16 -> Value, lo: U16, hi: U16)
    requires Batch(ns, lo, hi) && Batch(ms, lo, hi) && hi in ns && hi in ms
    requires r.mark <= hi && r.adapterId == id
    ensures Delivered(r, current, ns, id, val) == (Record(hi, r.adapterId), val(hi))
    ensures Delivered(r, current, ns, id, val) == Delivered(r, current, ms, id, val)
  {
    HighestWins(r, current, ns, id, val, lo, hi);
    HighestWins(r, current, ms, id, val, lo, hi);
  }

  lemma HighestWins(r: Record, current: Value, ns: seq<U16>, id: int,
                    val: U16 -> Value, lo: U16, hi: U16)
    requires Batch(ns, lo, hi) && hi in ns && r.mark <= hi && r.adapterId == id
    ensures Delivered(r, current, ns, id, val) == (Record(hi, r.adapterId), val(hi))
  {
    KeepsRunningMaximum(r, current, ns, id, val, lo, hi);
    RunningMaxBounds(r.mark, ns);
    var i :| 0 <= i < |ns| && ns[i] == hi;
    assert RunningMax(r.mark, ns) == hi;
  }

  lemma TakesNewer(r: Record, current: Value, n: U16, id: int, val: U16 -> Value)
    requires r.mark <= n
    ensures Delivered(r, current, [n], id, val) == (Record(n, r.adapterId), val(n))
  {
    var ns: seq<U16> := [n];
    assert Front(ns) == [] && Last(ns) == n;
    assert Delivered(r, current, Front(ns), id, val) == (r, current);
  }

  /** Which pairs may overtake each other: with different values and a record not ahead of
      them, both orders end at the newer value exactly when the older number lies in the drop
      arc of the newer one. A span of 51, or the step from 32767 to 32768, is too much. */
  lemma OvertakingIsHarmlessIff(r: Record, current: Value, lo: U16, hi: U16, id: int,
                                val: U16 -> Value)
    requires r.mark <= lo < hi && r.adapterId == id && val(lo) != val(hi)
    ensures Delivered(r, current, [lo, hi], id, val).1 == val(hi)
    ensures Delivered(r, current, [hi, lo], id, val).1 == val(hi) <==> InDropArc(lo, hi)
  {
    TakesNewer(r, current, lo, id, val);
    TakesNewer(r, current, hi, id, val);
    assert Front([lo, hi]) == [lo] && Front([hi, lo]) == [hi];
    DropSet(Record(hi, r.adapterId), lo, id);
  }
}
