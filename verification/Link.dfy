/** Two endpoints joined by two FIFO channels, taking steps in any order. */
module Link {
  import opened Entries
  import opened Endpoint

  datatype Side = A | B

  datatype Sys = Sys(a: End, b: End, ab: seq<Entry>, ba: seq<Entry>)

  datatype Step = Call(side: Side, c: Command) | Deliver(to: Side)

  predicate ProperSys(s: Sys) { Proper(s.a) && Proper(s.b) }

  predicate ValidStep(st: Step) { st.Call? ==> InRange(st.c.key) }

  function Do(s: Sys, st: Step): (t: Sys)
    requires ProperSys(s) && ValidStep(st)
    ensures ProperSys(t)
  {
    match st
    case Call(A, c) => var o := Obey(s.a, c); s.(a := o.end, ab := s.ab + o.sent)
    case Call(B, c) => var o := Obey(s.b, c); s.(b := o.end, ba := s.ba + o.sent)
    case Deliver(A) =>
      if s.ba == [] then s
      else var o := Receive(s.a, s.ba[0]); s.(a := o.end, ba := s.ba[1..], ab := s.ab + o.sent)
    case Deliver(B) =>
      if s.ab == [] then s
      else var o := Receive(s.b, s.ab[0]); s.(b := o.end, ab := s.ab[1..], ba := s.ba + o.sent)
  }

  predicate ValidSteps(steps: seq<Step>) {
    forall i :: 0 <= i < |steps| ==> ValidStep(steps[i])
  }

  ghost function Run(s: Sys, steps: seq<Step>): (t: Sys)
    requires ProperSys(s) && ValidSteps(steps)
    ensures ProperSys(t)
  {
    if steps == [] then s else Do(Run(s, steps[..|steps| - 1]), steps[|steps| - 1])
  }

  // ---------------------------------------------------------------- the subscription mirror

  ghost function Control(subs: seq<seq<bool>>, m: Entry): (r: seq<seq<bool>>)
    requires Shaped(subs)
    ensures Shaped(r)
  {
    if InRange(m.key) && m.kind == Subscribe then Put(subs, m.key, true)
    else if InRange(m.key) && m.kind == Unsubscribe then Put(subs, m.key, false)
    else subs
  }

  /** The subscriptions once every control message in the channel has been handled. */
  ghost function Settle(subs: seq<seq<bool>>, ch: seq<Entry>): (r: seq<seq<bool>>)
    requires Shaped(subs)
    ensures Shaped(r)
  {
    if ch == [] then subs else Control(Settle(subs, ch[..|ch| - 1]), ch[|ch| - 1])
  }

  lemma {:induction false} SettleHead(subs: seq<seq<bool>>, ch: seq<Entry>)
    requires Shaped(subs) && ch != []
    ensures Settle(Control(subs, ch[0]), ch[1..]) == Settle(subs, ch)
  {
    var front := ch[..|ch| - 1];
    if |ch| == 1 {
      assert front == [] && ch[1..] == [];
    } else {
      SettleHead(subs, front);
      assert ch[1..][..|ch| - 2] == front[1..];
    }
  }

  lemma SettleOne(subs: seq<seq<bool>>, ch: seq<Entry>, m: Entry)
    requires Shaped(subs)
    ensures Settle(subs, ch + [m]) == Control(Settle(subs, ch), m)
  {
    assert (ch + [m])[..|ch|] == ch;
  }

  /** Whatever an endpoint does, a table that mirrors its remote subscriptions through the
      channel still mirrors them. */
  lemma ObeyKeepsMirror(e: End, c: Command, subs: seq<seq<bool>>, ch: seq<Entry>)
    requires Proper(e) && InRange(c.key) && Shaped(subs) && Settle(subs, ch) == e.subsRemote
    ensures Settle(subs, ch + Obey(e, c).sent) == Obey(e, c).end.subsRemote
    ensures Obey(e, c).end.subs == e.subs
  {
    match c
    case Write(k, v) => UpdatesDoNotControl(subs, ch, RegistrySet(e, k, v).sent);
    case SubscribeTo(k) => MirrorsControl(subs, ch, e.subsRemote, k, Subscribe);
    case UnsubscribeFrom(k) => MirrorsControl(subs, ch, e.subsRemote, k, Unsubscribe);
    case Ask(k) => MirrorsControl(subs, ch, e.subsRemote, k, Request);
  }

  lemma MirrorsControl(subs: seq<seq<bool>>, ch: seq<Entry>, remote: seq<seq<bool>>, k: Key, kind: Kind)
    requires Shaped(subs) && Settle(subs, ch) == remote && InRange(k)
    ensures Settle(subs, ch + [Entry(kind, k, 0)])
         == match kind
            case Subscribe => Put(remote, k, true)
            case Unsubscribe => Put(remote, k, false)
            case _ => remote
  {
    SettleOne(subs, ch, Entry(kind, k, 0));
  }

  lemma UpdatesDoNotControl(subs: seq<seq<bool>>, ch: seq<Entry>, sent: seq<Entry>)
    requires Shaped(subs) && OnlyUpdates(sent)
    ensures Settle(subs, ch + sent) == Settle(subs, ch)
  {
    if sent == [] {
      assert ch + sent == ch;
    } else {
      SettleOne(subs, ch, sent[0]);
      assert ch + sent == ch + [sent[0]];
      assert Control(Settle(subs, ch), sent[0]) == Settle(subs, ch);
    }
  }

  lemma ReceiveKeepsMirror(e: End, m: Entry, subs: seq<seq<bool>>, ch: seq<Entry>)
    requires Proper(e) && Shaped(subs) && Settle(subs, ch) == e.subsRemote
    ensures Settle(subs, ch + Receive(e, m).sent) == Receive(e, m).end.subsRemote
  {
    UpdatesDoNotControl(subs, ch, Receive(e, m).sent);
  }

  lemma ReceiveControls(e: End, m: Entry)
    requires Proper(e)
    ensures Receive(e, m).end.subs == Control(e.subs, m)
  {
  }

  /** Each side's picture of its own subscriptions at the peer is the peer's table after the
      messages in flight. */
  ghost predicate Mirrored(s: Sys)
    requires ProperSys(s)
  {
    Settle(s.a.subs, s.ba) == s.b.subsRemote && Settle(s.b.subs, s.ab) == s.a.subsRemote
  }

  lemma {:induction false} SubscriptionMirror(s: Sys, steps: seq<Step>)
    requires ProperSys(s) && Mirrored(s) && ValidSteps(steps)
    ensures Mirrored(Run(s, steps))
  {
    if steps != [] {
      var mid := Run(s, steps[..|steps| - 1]);
      SubscriptionMirror(s, steps[..|steps| - 1]);
      match steps[|steps| - 1]
      case Call(A, c) => ObeyKeepsMirror(mid.a, c, mid.b.subs, mid.ab);
      case Call(B, c) => ObeyKeepsMirror(mid.b, c, mid.a.subs, mid.ba);
      case Deliver(A) =>
        if mid.ba != [] {
          ReceiveKeepsMirror(mid.a, mid.ba[0], mid.b.subs, mid.ab);
          ReceiveControls(mid.a, mid.ba[0]);
          SettleHead(mid.a.subs, mid.ba);
        }
      case Deliver(B) =>
        if mid.ab != [] {
          ReceiveKeepsMirror(mid.b, mid.ab[0], mid.a.subs, mid.ba);
          ReceiveControls(mid.b, mid.ab[0]);
          SettleHead(mid.b.subs, mid.ab);
        }
    }
  }

  /** Two fresh endpoints built with no subscriptions. */
  ghost predicate Unsubscribed(e: End) {
    Proper(e) && forall k :: InRange(k) ==> !At(e.subs, k) && !At(e.subsRemote, k)
  }

  /** From fresh endpoints, in every run of any steps on any properties: with an empty channel
      the publisher's table is the subscriber's. */
  lemma TablesAgreeWhenDrained(s: Sys, steps: seq<Step>)
    requires Unsubscribed(s.a) && Unsubscribed(s.b) && s.ab == [] && s.ba == [] && ValidSteps(steps)
    ensures var t := Run(s, steps);
            (t.ba == [] ==> t.a.subs == t.b.subsRemote) && (t.ab == [] ==> t.b.subs == t.a.subsRemote)
  {
    SameTable(s.a.subs, s.b.subsRemote);
    SameTable(s.b.subs, s.a.subsRemote);
    SubscriptionMirror(s, steps);
  }

  // ---------------------------------------------------------------- the update flag

  ghost function Channel(s: Sys, to: Side): seq<Entry> { if to == A then s.ba else s.ab }

  ghost function EndOf(s: Sys, side: Side): End { if side == A then s.a else s.b }

  /** The step hands this side an UPDATE of an existing property. */
  ghost predicate HandsUpdate(s: Sys, st: Step, side: Side) {
    var ch := Channel(s, side);
    st == Deliver(side) && ch != [] && ch[0].kind == Update && InRange(ch[0].key)
  }

  /** Some step of the run does so. */
  ghost predicate UpdateHanded(s: Sys, steps: seq<Step>, side: Side)
    requires ProperSys(s) && ValidSteps(steps)
  {
    steps != [] && (UpdateHanded(s, steps[..|steps| - 1], side)
                    || HandsUpdate(Run(s, steps[..|steps| - 1]), steps[|steps| - 1], side))
  }

  lemma CallKeepsFlag(e: End, c: Command)
    requires Proper(e) && InRange(c.key)
    ensures Obey(e, c).end.hadUpdate == e.hadUpdate
  {
  }

  /** An UPDATE in range also leaves the adapter accepting, whatever it did before. */
  lemma ReceiptRaisesFlag(e: End, m: Entry)
    requires Proper(e)
    ensures Receive(e, m).end.accept <==> e.accept || (m.kind == Update && InRange(m.key))
    ensures Receive(e, m).end.hadUpdate <==> e.hadUpdate || (m.kind == Update && InRange(m.key))
  {
  }

  lemma OneStepFlags(s: Sys, st: Step, side: Side)
    requires ProperSys(s) && ValidStep(st)
    ensures EndOf(Do(s, st), side).hadUpdate <==> EndOf(s, side).hadUpdate || HandsUpdate(s, st, side)
  {
    match st
    case Call(caller, c) => CallKeepsFlag(EndOf(s, caller), c);
    case Deliver(to) =>
      if Channel(s, to) != [] {
        ReceiptRaisesFlag(EndOf(s, to), Channel(s, to)[0]);
      }
  }

  /** In every run hadUpdate is raised at a side exactly if an UPDATE in range was delivered to it. */
  lemma {:induction false} HadUpdateIffDelivered(s: Sys, steps: seq<Step>, side: Side)
    requires ProperSys(s) && ValidSteps(steps)
    ensures EndOf(Run(s, steps), side).hadUpdate <==> EndOf(s, side).hadUpdate || UpdateHanded(s, steps, side)
  {
    if steps != [] {
      HadUpdateIffDelivered(s, steps[..|steps| - 1], side);
      OneStepFlags(Run(s, steps[..|steps| - 1]), steps[|steps| - 1], side);
    }
  }

  // ---------------------------------------------------------------- what does not travel

  /** Entries out of range and entries of unknown kinds change nothing and are not answered. */
  lemma IgnoredEntries(e: End, m: Entry)
    requires Proper(e) && (!InRange(m.key) || m.kind == Other)
    ensures Receive(e, m) == Out(e, [])
  {
  }

  /** String properties are stored locally, but no UPDATE of one is ever sent, and a received one
      leaves the stored value alone. */
  lemma StringsStayLocal(e: End, m: Entry, k: Key, v: Value)
    requires Proper(e) && InRange(k) && k.typ == STRING
    ensures At(Receive(e, m).end.values, k) == At(e.values, k)
    ensures forall i :: 0 <= i < |Receive(e, m).sent| ==> Receive(e, m).sent[i].key != k
    ensures Obey(e, Write(k, v)) == Out(e.(values := Put(e.values, k, v)), [])
  {
    if At(e.values, k) == v {
      SameTable(e.values, Put(e.values, k, v));
    }
  }

  // ---------------------------------------------------------------- one property on the wire

  /** The values of the UPDATEs of k in a channel. */
  ghost function UpdatesOf(ch: seq<Entry>, k: Key): seq<Value> {
    if ch == [] then []
    else UpdatesOf(ch[..|ch| - 1], k)
         + if ch[|ch| - 1].kind == Update && ch[|ch| - 1].key == k then [ch[|ch| - 1].value] else []
  }

  ghost predicate NoneOf(ch: seq<Entry>, kind: Kind, k: Key) {
    forall i :: 0 <= i < |ch| ==> !(ch[i].kind == kind && ch[i].key == k)
  }

  lemma {:induction false} UpdatesHead(ch: seq<Entry>, k: Key)
    requires ch != []
    ensures UpdatesOf(ch, k)
         == (if ch[0].kind == Update && ch[0].key == k then [ch[0].value] else []) + UpdatesOf(ch[1..], k)
  {
    if |ch| > 1 {
      UpdatesHead(ch[..|ch| - 1], k);
      assert ch[1..][..|ch| - 2] == ch[..|ch| - 1][1..];
    } else {
      assert ch[..0] == [] && ch[1..] == [];
    }
  }

  lemma UpdatesAppend(ch: seq<Entry>, sent: seq<Entry>, k: Key)
    requires |sent| <= 1
    ensures UpdatesOf(ch + sent, k) == UpdatesOf(ch, k) + UpdatesOf(sent, k)
  {
    if sent == [] {
      assert ch + sent == ch;
    } else {
      assert (ch + sent)[..|ch|] == ch && sent[..0] == [];
      assert UpdatesOf(sent[..0], k) == [];
    }
  }

  ghost function LastOr(us: seq<Value>, d: Value): Value {
    if us == [] then d else us[|us| - 1]
  }

  /** Receiving, as far as one numeric property goes. */
  lemma ReceiveOn(e: End, m: Entry, k: Key)
    requires Proper(e) && e.accept && InRange(k) && k.typ != STRING
    ensures var o := Receive(e, m);
            && o.end.accept && |o.sent| <= 1
            && At(o.end.values, k) == (if m.kind == Update && m.key == k then m.value else At(e.values, k))
            && At(o.end.subs, k) == At(Control(e.subs, m), k)
            && UpdatesOf(o.sent, k)
               == (if m.kind == Request && m.key == k && At(e.subs, k) then [At(e.values, k)] else [])
            && forall i :: 0 <= i < |o.sent| ==> o.sent[i].kind == Update
  {
    var o := Receive(e, m);
    UpdatesOne(o.sent, k);
  }

  lemma UpdatesOne(sent: seq<Entry>, k: Key)
    requires |sent| <= 1
    ensures UpdatesOf(sent, k)
         == if sent != [] && sent[0].kind == Update && sent[0].key == k then [sent[0].value] else []
  {
    if sent != [] {
      UpdatesHead(sent, k);
      assert sent[1..] == [];
    }
  }

  /** A local call, as far as one numeric property goes. */
  lemma ObeyOn(e: End, c: Command, k: Key)
    requires Proper(e) && e.accept && InRange(c.key) && InRange(k) && k.typ != STRING
    ensures var o := Obey(e, c);
            var writes := c.Write? && c.key == k && c.value != At(e.values, k);
            && o.end.accept && o.end.subs == e.subs && |o.sent| <= 1
            && At(o.end.values, k) == (if writes then c.value else At(e.values, k))
            && UpdatesOf(o.sent, k) == (if writes && At(e.subs, k) then [c.value] else [])
            && (c.Write? ==> forall i :: 0 <= i < |o.sent| ==> o.sent[i].kind == Update)
            && (c.SubscribeTo? ==> o.sent == [Entry(Subscribe, c.key, 0)])
            && (c.UnsubscribeFrom? ==> o.sent == [Entry(Unsubscribe, c.key, 0)])
            && (c.Ask? ==> o.sent == [Entry(Request, c.key, 0)])
  {
    var o := Obey(e, c);
    UpdatesOne(o.sent, k);
  }
}
