/** A publisher A and a reader B over a link, and one numeric property k that B does not write. */
module Synchronisation {
  import opened Entries
  import opened Endpoint
  import opened Link

  /** What the publisher itself may do with k besides writing it. */
  datatype Policy = Policy(mayAsk: bool, maySubscribe: bool)

  /** The reader neither writes nor unsubscribes k; the publisher keeps to its policy. */
  ghost predicate Allowed(st: Step, k: Key, pol: Policy) {
    ValidStep(st)
    && !(st.Call? && st.side == B && st.c.Write? && st.c.key == k)
    && !(st.Call? && st.side == B && st.c.UnsubscribeFrom? && st.c.key == k)
    && (st.Call? && st.side == A && st.c.Ask? && st.c.key == k ==> pol.mayAsk)
    && (st.Call? && st.side == A && st.c.SubscribeTo? && st.c.key == k ==> pol.maySubscribe)
  }

  ghost predicate AllAllowed(steps: seq<Step>, k: Key, pol: Policy) {
    forall i :: 0 <= i < |steps| ==> Allowed(steps[i], k, pol)
  }

  ghost predicate Numeric(k: Key) { InRange(k) && k.typ != STRING }

  /** A REQUEST for k on its way to the reader will find it subscribed. */
  ghost predicate WillAnswer(subs: seq<seq<bool>>, ch: seq<Entry>, k: Key)
    requires Shaped(subs) && InRange(k)
  {
    ch != [] && (WillAnswer(subs, ch[..|ch| - 1], k)
                 || (Asks(ch[|ch| - 1], k) && At(Settle(subs, ch[..|ch| - 1]), k)))
  }

  predicate Asks(m: Entry, k: Key) { m.kind == Request && m.key == k }

  /** The publisher can send a REQUEST for k that will find the reader subscribed: it may ask, and
      the reader is subscribed once everything in flight is handled (sub), or may be later. */
  predicate CanProvoke(pol: Policy, sub: bool) { pol.mayAsk && (pol.maySubscribe || sub) }

  /** The reader has no occasion to answer, now or later. */
  ghost predicate NoAnswers(s: Sys, k: Key, pol: Policy)
    requires ProperSys(s) && Numeric(k)
  {
    s.a.accept && s.b.accept && !WillAnswer(s.b.subs, s.ab, k)
    && !CanProvoke(pol, At(Settle(s.b.subs, s.ab), k))
  }

  lemma WillAnswerAppend(subs: seq<seq<bool>>, ch: seq<Entry>, sent: seq<Entry>, k: Key)
    requires Shaped(subs) && InRange(k) && |sent| <= 1
    ensures WillAnswer(subs, ch + sent, k)
            <==> WillAnswer(subs, ch, k) || (sent != [] && Asks(sent[0], k) && At(Settle(subs, ch), k))
    ensures Settle(subs, ch + sent) == if sent == [] then Settle(subs, ch) else Control(Settle(subs, ch), sent[0])
  {
    if sent == [] {
      assert ch + sent == ch;
    } else {
      assert ch + sent == ch + [sent[0]] && (ch + sent)[..|ch|] == ch;
      SettleOne(subs, ch, sent[0]);
    }
  }

  lemma {:induction false} WillAnswerHead(subs: seq<seq<bool>>, ch: seq<Entry>, k: Key)
    requires Shaped(subs) && InRange(k) && ch != []
    ensures WillAnswer(subs, ch, k)
            <==> (Asks(ch[0], k) && At(subs, k)) || WillAnswer(Control(subs, ch[0]), ch[1..], k)
  {
    var front := ch[..|ch| - 1];
    if |ch| == 1 {
      assert front == [] && ch[1..] == [];
    } else {
      WillAnswerHead(subs, front, k);
      SettleHead(subs, front);
      assert ch[1..][..|ch| - 2] == front[1..];
    }
  }

  /** Nor has it answered before: no UPDATE of k is on its way to the publisher. */
  ghost predicate Quiet(s: Sys, k: Key, pol: Policy)
    requires ProperSys(s) && Numeric(k)
  {
    NoAnswers(s, k, pol) && NoneOf(s.ba, Update, k)
  }

  lemma NoneAppend(ch: seq<Entry>, sent: seq<Entry>, kind: Kind, k: Key)
    ensures NoneOf(ch + sent, kind, k) <==> NoneOf(ch, kind, k) && NoneOf(sent, kind, k)
  {
    assert NoneOf(ch + sent, kind, k) ==> NoneOf(ch, kind, k) by {
      assert forall i :: 0 <= i < |ch| ==> (ch + sent)[i] == ch[i];
    }
    assert NoneOf(ch + sent, kind, k) ==> NoneOf(sent, kind, k) by {
      assert forall i :: 0 <= i < |sent| ==> (ch + sent)[|ch| + i] == sent[i];
    }
  }

  lemma NoneMeansNoUpdates(ch: seq<Entry>, k: Key)
    requires |ch| <= 1
    ensures NoneOf(ch, Update, k) <==> UpdatesOf(ch, k) == []
  {
    UpdatesOne(ch, k);
  }

  lemma NoAnswersOnCall(s: Sys, side: Side, c: Command, k: Key, pol: Policy)
    requires ProperSys(s) && Numeric(k) && NoAnswers(s, k, pol) && Allowed(Call(side, c), k, pol)
    ensures NoAnswers(Do(s, Call(side, c)), k, pol)
    ensures side == B ==> NoneOf(Obey(s.b, c).sent, Update, k)
  {
    match side
    case A =>
      ObeyOn(s.a, c, k);
      WillAnswerAppend(s.b.subs, s.ab, Obey(s.a, c).sent, k);
    case B =>
      ObeyOn(s.b, c, k);
      NoneMeansNoUpdates(Obey(s.b, c).sent, k);
  }

  lemma UpdatesDoNotAsk(subs: seq<seq<bool>>, ch: seq<Entry>, sent: seq<Entry>, k: Key)
    requires Shaped(subs) && InRange(k) && OnlyUpdates(sent)
    ensures WillAnswer(subs, ch + sent, k) <==> WillAnswer(subs, ch, k)
    ensures Settle(subs, ch + sent) == Settle(subs, ch)
  {
    WillAnswerAppend(subs, ch, sent, k);
    UpdatesDoNotControl(subs, ch, sent);
  }

  lemma NoAnswersAtPublisher(s: Sys, k: Key, pol: Policy)
    requires ProperSys(s) && Numeric(k) && NoAnswers(s, k, pol) && s.ba != []
    ensures NoAnswers(Do(s, Deliver(A)), k, pol)
  {
    ReceiveOn(s.a, s.ba[0], k);
    UpdatesDoNotAsk(s.b.subs, s.ab, Receive(s.a, s.ba[0]).sent, k);
  }

  lemma NoAnswersAtReader(s: Sys, k: Key, pol: Policy)
    requires ProperSys(s) && Numeric(k) && NoAnswers(s, k, pol) && s.ab != []
    ensures NoAnswers(Do(s, Deliver(B)), k, pol) && NoneOf(Receive(s.b, s.ab[0]).sent, Update, k)
  {
    ReceiveOn(s.b, s.ab[0], k);
    ReceiveControls(s.b, s.ab[0]);
    WillAnswerHead(s.b.subs, s.ab, k);
    SettleHead(s.b.subs, s.ab);
    NoneMeansNoUpdates(Receive(s.b, s.ab[0]).sent, k);
  }

  lemma NoAnswersOnDelivery(s: Sys, to: Side, k: Key, pol: Policy)
    requires ProperSys(s) && Numeric(k) && NoAnswers(s, k, pol)
    ensures NoAnswers(Do(s, Deliver(to)), k, pol)
    ensures to == B && s.ab != [] ==> NoneOf(Receive(s.b, s.ab[0]).sent, Update, k)
  {
    if to == A && s.ba != [] {
      NoAnswersAtPublisher(s, k, pol);
    }
    if to == B && s.ab != [] {
      NoAnswersAtReader(s, k, pol);
    }
  }

  lemma NoneTail(ch: seq<Entry>, kind: Kind, k: Key)
    requires ch != []
    ensures NoneOf(ch, kind, k) <==> !(ch[0].kind == kind && ch[0].key == k) && NoneOf(ch[1..], kind, k)
  {
    assert [ch[0]] + ch[1..] == ch;
    NoneAppend([ch[0]], ch[1..], kind, k);
    assert NoneOf([ch[0]], kind, k) <==> !(ch[0].kind == kind && ch[0].key == k) by {
      assert [ch[0]][0] == ch[0];
    }
  }

  lemma NoAnswersStep(s: Sys, st: Step, k: Key, pol: Policy)
    requires ProperSys(s) && Numeric(k) && NoAnswers(s, k, pol) && Allowed(st, k, pol)
    ensures NoAnswers(Do(s, st), k, pol)
  {
    match st
    case Call(side, c) => NoAnswersOnCall(s, side, c, k, pol);
    case Deliver(to) => NoAnswersOnDelivery(s, to, k, pol);
  }

  /** While the reader has no occasion to answer, it puts no UPDATE of k on the wire. */
  lemma QuietStep(s: Sys, st: Step, k: Key, pol: Policy)
    requires ProperSys(s) && Numeric(k) && Quiet(s, k, pol) && Allowed(st, k, pol)
    ensures Quiet(Do(s, st), k, pol)
  {
    match st
    case Call(side, c) =>
      NoAnswersOnCall(s, side, c, k, pol);
      if side == B {
        NoneAppend(s.ba, Obey(s.b, c).sent, Update, k);
      }
    case Deliver(A) =>
      NoAnswersOnDelivery(s, A, k, pol);
      if s.ba != [] {
        NoneTail(s.ba, Update, k);
      }
    case Deliver(B) =>
      NoAnswersOnDelivery(s, B, k, pol);
      if s.ab != [] {
        NoneAppend(s.ba, Receive(s.b, s.ab[0]).sent, Update, k);
      }
  }

  // ---------------------------------------------------------------- what a step does to k

  /** Everything about k that a step of a quiet system can do: the publisher's value and the
      UPDATEs in flight change together, and the reader takes UPDATEs from the front. */
  datatype Effect = Nothing | Published(v: Value) | Answered | Took(v: Value)

  ghost predicate HasEffect(s: Sys, t: Sys, k: Key, e: Effect)
    requires ProperSys(s) && ProperSys(t) && Numeric(k)
  {
    var (us, us') := (UpdatesOf(s.ab, k), UpdatesOf(t.ab, k));
    var (va, va') := (At(s.a.values, k), At(t.a.values, k));
    var (vb, vb') := (At(s.b.values, k), At(t.b.values, k));
    match e
    case Nothing => us' == us && va' == va && vb' == vb
    case Published(v) => v != va && va' == v && vb' == vb && us' == us + [v]
    case Answered => us' == us + [va] && va' == va && vb' == vb
    case Took(v) => us == [v] + us' && vb' == v && va' == va
  }

  lemma StepEffect(s: Sys, st: Step, k: Key, pol: Policy) returns (e: Effect)
    requires ProperSys(s) && Numeric(k) && Quiet(s, k, pol) && Allowed(st, k, pol)
    requires At(s.a.subs, k)
    ensures HasEffect(s, Do(s, st), k, e)
    ensures e.Answered? ==> st == Deliver(A) && s.ba != [] && s.ba[0].kind == Request && s.ba[0].key == k
  {
    e := Nothing;
    match st
    case Call(A, c) =>
      ObeyOn(s.a, c, k);
      UpdatesAppend(s.ab, Obey(s.a, c).sent, k);
      if c.Write? && c.key == k && c.value != At(s.a.values, k) {
        e := Published(c.value);
      }
    case Call(B, c) =>
      ObeyOn(s.b, c, k);
    case Deliver(A) =>
      if s.ba != [] {
        ReceiveOn(s.a, s.ba[0], k);
        UpdatesAppend(s.ab, Receive(s.a, s.ba[0]).sent, k);
        if s.ba[0].kind == Request && s.ba[0].key == k {
          e := Answered;
        }
      }
    case Deliver(B) =>
      if s.ab != [] {
        ReceiveOn(s.b, s.ab[0], k);
        UpdatesHead(s.ab, k);
        if s.ab[0].kind == Update && s.ab[0].key == k {
          e := Took(s.ab[0].value);
        }
      }
  }

  // ---------------------------------------------------------------- subscribe, then request

  /** The publisher is subscribed for good, and the last value in flight is its own. */
  ghost predicate InSync(s: Sys, k: Key)
    requires ProperSys(s) && Numeric(k)
  {
    Subscribed(s, k) && LastOr(UpdatesOf(s.ab, k), At(s.b.values, k)) == At(s.a.values, k)
  }

  /** The i-th entry on its way to the publisher is a REQUEST for k that will find it subscribed,
      and neither an UNSUBSCRIBE nor an UPDATE of k follows. */
  ghost predicate AnswerComing(subs: seq<seq<bool>>, ba: seq<Entry>, k: Key, i: int)
    requires Shaped(subs) && InRange(k)
  {
    0 <= i < |ba| && ba[i].kind == Request && ba[i].key == k
    && At(Settle(subs, ba[..i]), k) && NoneOf(ba[i..], Unsubscribe, k) && NoneOf(ba[i..], Update, k)
  }

  ghost predicate Pending(s: Sys, k: Key)
    requires ProperSys(s) && InRange(k)
  {
    exists i :: AnswerComing(s.a.subs, s.ba, k, i)
  }

  lemma PendingGrows(subs: seq<seq<bool>>, ba: seq<Entry>, sent: seq<Entry>, k: Key, i: int)
    requires Shaped(subs) && InRange(k) && AnswerComing(subs, ba, k, i)
    requires NoneOf(sent, Unsubscribe, k) && NoneOf(sent, Update, k)
    ensures AnswerComing(subs, ba + sent, k, i)
  {
    assert (ba + sent)[..i] == ba[..i] && (ba + sent)[i..] == ba[i..] + sent;
    NoneAppend(ba[i..], sent, Unsubscribe, k);
    NoneAppend(ba[i..], sent, Update, k);
  }

  lemma PendingAdvances(subs: seq<seq<bool>>, ba: seq<Entry>, k: Key, i: int)
    requires Shaped(subs) && InRange(k) && AnswerComing(subs, ba, k, i) && i > 0
    ensures AnswerComing(Control(subs, ba[0]), ba[1..], k, i - 1)
  {
    assert ba[..i][1..] == ba[1..][..i - 1] && ba[..i][0] == ba[0];
    SettleHead(subs, ba[..i]);
    assert ba[1..][i - 1..] == ba[i..];
  }

  lemma KeepsSync(s: Sys, st: Step, k: Key, pol: Policy)
    requires ProperSys(s) && Numeric(k) && Quiet(s, k, pol) && Allowed(st, k, pol) && InSync(s, k)
    ensures InSync(Do(s, st), k)
  {
    StaysSubscribed(s, st, k, pol);
    var e := StepEffect(s, st, k, pol);
  }

  ghost predicate Subscribed(s: Sys, k: Key)
    requires ProperSys(s) && Numeric(k)
  {
    At(s.a.subs, k) && NoneOf(s.ba, Unsubscribe, k)
  }

  lemma StaysSubscribed(s: Sys, st: Step, k: Key, pol: Policy)
    requires ProperSys(s) && Numeric(k) && Quiet(s, k, pol) && Allowed(st, k, pol) && Subscribed(s, k)
    ensures Subscribed(Do(s, st), k)
  {
    match st
    case Call(side, c) =>
      StaysSubscribedOnCall(s, side, c, k, pol);
    case Deliver(A) =>
      if s.ba != [] {
        ReceiveControls(s.a, s.ba[0]);
        assert forall i :: 0 <= i < |s.ba| - 1 ==> s.ba[1..][i] == s.ba[i + 1];
      }
    case Deliver(B) =>
      if s.ab != [] {
        NoneAppend(s.ba, Receive(s.b, s.ab[0]).sent, Unsubscribe, k);
      }
  }

  lemma StaysSubscribedOnCall(s: Sys, side: Side, c: Command, k: Key, pol: Policy)
    requires ProperSys(s) && Numeric(k) && Quiet(s, k, pol) && Allowed(Call(side, c), k, pol) && Subscribed(s, k)
    ensures Subscribed(Do(s, Call(side, c)), k)
  {
    if side == A {
      ObeyOn(s.a, c, k);
    } else {
      ObeyOn(s.b, c, k);
      NoneAppend(s.ba, Obey(s.b, c).sent, Unsubscribe, k);
    }
  }

  /** Handling the awaited REQUEST puts the publisher's value last in flight. */
  lemma AnswerGiven(s: Sys, k: Key, pol: Policy)
    requires ProperSys(s) && Numeric(k) && NoAnswers(s, k, pol) && AnswerComing(s.a.subs, s.ba, k, 0)
    ensures InSync(Do(s, Deliver(A)), k) && Quiet(Do(s, Deliver(A)), k, pol)
  {
    assert s.ba[..0] == [] && s.ba[0..] == s.ba;
    NoAnswersOnDelivery(s, A, k, pol);
    NoneTail(s.ba, Update, k);
    NoneTail(s.ba, Unsubscribe, k);
    ReceiveOn(s.a, s.ba[0], k);
    UpdatesAppend(s.ab, Receive(s.a, s.ba[0]).sent, k);
  }

  lemma PendingOrSync(s: Sys, st: Step, k: Key, pol: Policy)
    requires ProperSys(s) && Numeric(k) && NoAnswers(s, k, pol) && Allowed(st, k, pol) && Pending(s, k)
    ensures Pending(Do(s, st), k) || (Quiet(Do(s, st), k, pol) && InSync(Do(s, st), k))
  {
    var i :| AnswerComing(s.a.subs, s.ba, k, i);
    match st
    case Call(A, c) =>
      ObeyOn(s.a, c, k);
      assert AnswerComing(Do(s, st).a.subs, Do(s, st).ba, k, i);
    case Call(B, c) =>
      ObeyOn(s.b, c, k);
      NoAnswersOnCall(s, B, c, k, pol);
      PendingGrows(s.a.subs, s.ba, Obey(s.b, c).sent, k, i);
    case Deliver(A) =>
      ReceiveControls(s.a, s.ba[0]);
      if i > 0 {
        PendingAdvances(s.a.subs, s.ba, k, i);
      } else {
        AnswerGiven(s, k, pol);
      }
    case Deliver(B) =>
      if s.ab != [] {
        ReceiveOn(s.b, s.ab[0], k);
        NoAnswersOnDelivery(s, B, k, pol);
        PendingGrows(s.a.subs, s.ba, Receive(s.b, s.ab[0]).sent, k, i);
      } else {
        assert AnswerComing(Do(s, st).a.subs, Do(s, st).ba, k, i);
      }
  }

  /** The reader subscribes, then requests. */
  ghost function Handshake(s: Sys, k: Key): (t: Sys)
    requires ProperSys(s) && InRange(k)
    ensures ProperSys(t)
  {
    Do(Do(s, Call(B, SubscribeTo(k))), Call(B, Ask(k)))
  }

  lemma HandshakeIsPending(s: Sys, k: Key, pol: Policy)
    requires ProperSys(s) && Numeric(k) && NoAnswers(s, k, pol)
    ensures NoAnswers(Handshake(s, k), k, pol) && Pending(Handshake(s, k), k)
  {
    NoAnswersStep(s, Call(B, SubscribeTo(k)), k, pol);
    NoAnswersStep(Do(s, Call(B, SubscribeTo(k))), Call(B, Ask(k)), k, pol);
    var t := Handshake(s, k);
    var i := |s.ba| + 1;
    assert t.ba[..i] == s.ba + [Entry(Subscribe, k, 0)] && t.ba[i..] == [Entry(Request, k, 0)];
    SettleOne(s.a.subs, s.ba, Entry(Subscribe, k, 0));
    assert AnswerComing(t.a.subs, t.ba, k, i);
  }

  lemma {:induction false} HandshakeHolds(s: Sys, k: Key, pol: Policy, steps: seq<Step>)
    requires ProperSys(s) && Numeric(k) && NoAnswers(s, k, pol) && AllAllowed(steps, k, pol)
    ensures ValidSteps(steps)
    ensures var t := Run(Handshake(s, k), steps);
            NoAnswers(t, k, pol) && (Pending(t, k) || (Quiet(t, k, pol) && InSync(t, k)))
  {
    assert forall i :: 0 <= i < |steps| ==> Allowed(steps[i], k, pol);
    if steps == [] {
      HandshakeIsPending(s, k, pol);
    } else {
      var front, st := steps[..|steps| - 1], steps[|steps| - 1];
      HandshakeHolds(s, k, pol, front);
      var mid := Run(Handshake(s, k), front);
      NoAnswersStep(mid, st, k, pol);
      if Pending(mid, k) {
        PendingOrSync(mid, st, k, pol);
      } else {
        QuietStep(mid, st, k, pol);
        KeepsSync(mid, st, k, pol);
      }
    }
  }

  /** From any starting values, with anything in flight and under any interleaving: once the
      reader has subscribed and then requested k, and no REQUEST for k is under way any more, the
      last UPDATE in flight carries the publisher's current value; so with no UPDATE of k in
      flight the two registries are equal. Needed is only that no REQUEST for k that is in flight,
      or that the publisher may still send, finds the reader subscribed to k. */
  lemma SubscribeThenRequestSynchronises(s: Sys, k: Key, pol: Policy, steps: seq<Step>)
    requires ProperSys(s) && Numeric(k) && s.a.accept && s.b.accept && AllAllowed(steps, k, pol)
    requires !WillAnswer(s.b.subs, s.ab, k)
    requires !(pol.mayAsk && (pol.maySubscribe || At(Settle(s.b.subs, s.ab), k)))
    ensures ValidSteps(steps)
    ensures var t := Run(Handshake(s, k), steps);
            NoneOf(t.ba, Request, k) ==>
              && LastOr(UpdatesOf(t.ab, k), At(t.b.values, k)) == At(t.a.values, k)
              && (UpdatesOf(t.ab, k) == [] ==> At(t.b.values, k) == At(t.a.values, k))
  {
    HandshakeHolds(s, k, pol, steps);
  }

  // ---------------------------------------------------------------- the reader's history

  /** The values k takes at one side in the course of a run. */
  ghost function History(s: Sys, steps: seq<Step>, side: Side, k: Key): seq<Value>
    requires ProperSys(s) && ValidSteps(steps) && InRange(k)
  {
    if steps == [] then []
    else
      var front := steps[..|steps| - 1];
      var (t, t') := (Run(s, front), Run(s, steps));
      var (x, y) := if side == A then (At(t.a.values, k), At(t'.a.values, k))
                    else (At(t.b.values, k), At(t'.b.values, k));
      History(s, front, side, k) + if x == y then [] else [y]
  }

  /** The changes that delivering us to a registry holding cur will make. */
  ghost function Effective(cur: Value, us: seq<Value>): seq<Value>
    decreases |us|
  {
    if us == [] then []
    else (if us[0] == cur then [] else [us[0]]) + Effective(us[0], us[1..])
  }

  lemma {:induction false} EffectiveAppend(cur: Value, us: seq<Value>, x: Value)
    ensures Effective(cur, us + [x]) == Effective(cur, us) + if x == LastOr(us, cur) then [] else [x]
    decreases |us|
  {
    if us == [] {
      assert us + [x] == [x] && [x][1..] == [];
    } else {
      EffectiveAppend(us[0], us[1..], x);
      assert (us + [x])[1..] == us[1..] + [x];
    }
  }

  /** At every point of every run the reader's history, continued by what the UPDATEs in flight
      will still change, is the writer's history. So the reader's is a prefix of the writer's,
      nothing skipped, repeated or reordered; and no UPDATE of k travels back. */
  lemma {:induction false} TracePrefix(s: Sys, k: Key, pol: Policy, steps: seq<Step>)
    requires ProperSys(s) && Numeric(k) && Quiet(s, k, pol) && Subscribed(s, k)
    requires UpdatesOf(s.ab, k) == [] && At(s.a.values, k) == At(s.b.values, k)
    requires AllAllowed(steps, k, pol)
    ensures ValidSteps(steps)
    ensures var t := Run(s, steps);
            && Quiet(t, k, pol) && InSync(t, k)
            && History(s, steps, B, k) + Effective(At(t.b.values, k), UpdatesOf(t.ab, k))
               == History(s, steps, A, k)
            && History(s, steps, B, k) <= History(s, steps, A, k)
            && NoneOf(t.ba, Update, k)
  {
    assert forall i :: 0 <= i < |steps| ==> Allowed(steps[i], k, pol);
    if steps != [] {
      var front := steps[..|steps| - 1];
      var st := steps[|steps| - 1];
      TracePrefix(s, k, pol, front);
      var mid := Run(s, front);
      QuietStep(mid, st, k, pol);
      KeepsSync(mid, st, k, pol);
      var e := StepEffect(mid, st, k, pol);
      HistoryStep(mid, Do(mid, st), k, e, History(s, front, A, k), History(s, front, B, k));
    }
  }

  lemma HistoryStep(s: Sys, t: Sys, k: Key, e: Effect, ha: seq<Value>, hb: seq<Value>)
    requires ProperSys(s) && ProperSys(t) && Numeric(k) && InSync(s, k) && HasEffect(s, t, k, e)
    requires hb + Effective(At(s.b.values, k), UpdatesOf(s.ab, k)) == ha
    ensures var ha' := ha + if At(s.a.values, k) == At(t.a.values, k) then [] else [At(t.a.values, k)];
            var hb' := hb + if At(s.b.values, k) == At(t.b.values, k) then [] else [At(t.b.values, k)];
            hb' + Effective(At(t.b.values, k), UpdatesOf(t.ab, k)) == ha'
  {
    var us, cur := UpdatesOf(s.ab, k), At(s.b.values, k);
    match e
    case Nothing =>
    case Published(v) => EffectiveAppend(cur, us, v);
    case Answered => EffectiveAppend(cur, us, At(s.a.values, k));
    case Took(v) =>
      assert us[0] == v && us[1..] == UpdatesOf(t.ab, k);
  }

  ghost predicate NeverAsks(steps: seq<Step>, k: Key) {
    forall i :: 0 <= i < |steps| ==> steps[i] != Call(B, Ask(k))
  }

  /** If the reader does not request k either, the UPDATEs in flight are exactly the part of the
      writer's history the reader has not seen yet. */
  lemma {:induction false} InFlightIsMissingSuffix(s: Sys, k: Key, pol: Policy, steps: seq<Step>)
    requires ProperSys(s) && Numeric(k) && Quiet(s, k, pol) && Subscribed(s, k)
    requires UpdatesOf(s.ab, k) == [] && At(s.a.values, k) == At(s.b.values, k)
    requires AllAllowed(steps, k, pol)
    requires NoneOf(s.ba, Request, k)
    requires NeverAsks(steps, k)
    ensures ValidSteps(steps)
    ensures var t := Run(s, steps);
            && History(s, steps, B, k) + UpdatesOf(t.ab, k) == History(s, steps, A, k)
            && Effective(At(t.b.values, k), UpdatesOf(t.ab, k)) == UpdatesOf(t.ab, k)
            && NoneOf(t.ba, Request, k)
  {
    assert forall i :: 0 <= i < |steps| ==> Allowed(steps[i], k, pol);
    TracePrefix(s, k, pol, steps);
    if steps != [] {
      var front := steps[..|steps| - 1];
      var st := steps[|steps| - 1];
      InFlightIsMissingSuffix(s, k, pol, front);
      TracePrefix(s, k, pol, front);
      var mid := Run(s, front);
      var e := StepEffect(mid, st, k, pol);
      NoRequestStep(mid, st, k, pol);
      var us, cur := UpdatesOf(mid.ab, k), At(mid.b.values, k);
      match e
      case Nothing =>
      case Published(v) => EffectiveAppend(cur, us, v);
      case Answered =>
      case Took(v) => NoStutterTail(cur, us);
    }
  }

  lemma {:induction false} EffectiveShorter(cur: Value, us: seq<Value>)
    ensures |Effective(cur, us)| <= |us|
    decreases |us|
  {
    if us != [] {
      EffectiveShorter(us[0], us[1..]);
    }
  }

  lemma NoStutterTail(cur: Value, us: seq<Value>)
    requires us != [] && Effective(cur, us) == us
    ensures us[0] != cur && Effective(us[0], us[1..]) == us[1..]
  {
    EffectiveShorter(us[0], us[1..]);
    assert us == [us[0]] + us[1..];
  }

  lemma NoRequestDelivery(s: Sys, st: Step, k: Key)
    requires ProperSys(s) && Numeric(k) && NoneOf(s.ba, Request, k) && st.Deliver?
    ensures NoneOf(Do(s, st).ba, Request, k)
  {
    if st.to == A && s.ba != [] {
      assert forall i :: 0 <= i < |s.ba| - 1 ==> s.ba[1..][i] == s.ba[i + 1];
    } else if st.to == B && s.ab != [] {
      NoneAppend(s.ba, Receive(s.b, s.ab[0]).sent, Request, k);
    }
  }

  lemma NoRequestStep(s: Sys, st: Step, k: Key, pol: Policy)
    requires ProperSys(s) && Numeric(k) && Quiet(s, k, pol) && Allowed(st, k, pol)
    requires NoneOf(s.ba, Request, k) && st != Call(B, Ask(k))
    ensures NoneOf(Do(s, st).ba, Request, k)
  {
    if st.Deliver? {
      NoRequestDelivery(s, st, k);
    } else if st.side == B {
      ObeyOn(s.b, st.c, k);
      NoneAppend(s.ba, Obey(s.b, st.c).sent, Request, k);
    }
  }
}
