/** Where the promises of Synchronisation end: a reader's answer that crosses a newer value of the
    publisher, and the exact conditions under which no run contains one. */
module CrossedAnswer {
  import opened Entries
  import opened Endpoint
  import opened Link
  import opened Synchronisation

  /** Any two accepting endpoints, with any values and subscriptions and anything in flight: due
      if a REQUEST for k in flight will find the reader subscribed, and sub if the reader is
      subscribed once everything in flight is handled. */
  ghost predicate Starts(s: Sys, k: Key, due: bool, sub: bool) {
    ProperSys(s) && Numeric(k) && s.a.accept && s.b.accept
    && (WillAnswer(s.b.subs, s.ab, k) <==> due) && (At(Settle(s.b.subs, s.ab), k) <==> sub)
  }

  // ---------------------------------------------------------------- following one property

  /** What a run has done to k: both values, whether each side is subscribed, both channels, and
      both histories. */
  datatype View = View(
    va: Value, vb: Value, sa: bool, sb: bool, ab: seq<Entry>, ba: seq<Entry>,
    ha: seq<Value>, hb: seq<Value>)

  ghost predicate Looks(s: Sys, k: Key, v: View)
    requires Numeric(k)
  {
    ProperSys(s) && s.a.accept && s.b.accept && s.ab == v.ab && s.ba == v.ba
    && At(s.a.values, k) == v.va && At(s.b.values, k) == v.vb
    && At(s.a.subs, k) == v.sa && At(s.b.subs, k) == v.sb
  }

  ghost predicate Shows(s: Sys, steps: seq<Step>, k: Key, v: View)
    requires Numeric(k)
  {
    ProperSys(s) && ValidSteps(steps) && Looks(Run(s, steps), k, v)
    && History(s, steps, A, k) == v.ha && History(s, steps, B, k) == v.hb
  }

  /** The steps the failing runs are made of. */
  ghost predicate Follows(v: View, st: Step, k: Key) {
    match st
    case Call(side, c) => side == A && c.key == k && !c.UnsubscribeFrom?
    case Deliver(A) => v.ba != [] && v.ba[0].key == k
    case Deliver(B) => v.ab != [] && v.ab[0].key == k
  }

  ghost function Change(x: Value, y: Value): seq<Value> { if x == y then [] else [y] }

  ghost function Incoming(m: Entry, x: Value): Value { if m.kind == Update then m.value else x }

  ghost function StaysOn(m: Entry, subscribed: bool): bool {
    m.kind == Subscribe || (subscribed && m.kind != Unsubscribe)
  }

  ghost function AnswerTo(m: Entry, k: Key, x: Value, subscribed: bool): seq<Entry> {
    if m.kind == Request && subscribed then [Entry(Update, k, x)] else []
  }

  ghost function NextView(v: View, st: Step, k: Key): View
    requires Follows(v, st, k)
  {
    match st
    case Call(_, Write(_, x)) =>
      v.(va := x, ha := v.ha + Change(v.va, x),
         ab := v.ab + if x != v.va && v.sa then [Entry(Update, k, x)] else [])
    case Call(_, SubscribeTo(_)) => v.(ab := v.ab + [Entry(Subscribe, k, 0)])
    case Call(_, _) => v.(ab := v.ab + [Entry(Request, k, 0)])
    case Deliver(A) =>
      var m := v.ba[0];
      v.(va := Incoming(m, v.va), ha := v.ha + Change(v.va, Incoming(m, v.va)),
         sa := StaysOn(m, v.sa), ab := v.ab + AnswerTo(m, k, v.va, v.sa), ba := v.ba[1..])
    case Deliver(B) =>
      var m := v.ab[0];
      v.(vb := Incoming(m, v.vb), hb := v.hb + Change(v.vb, Incoming(m, v.vb)),
         sb := StaysOn(m, v.sb), ba := v.ba + AnswerTo(m, k, v.vb, v.sb), ab := v.ab[1..])
  }

  lemma ReceivesExactly(e: End, m: Entry, k: Key)
    requires Proper(e) && e.accept && Numeric(k) && m.key == k
    ensures Receive(e, m).sent == AnswerTo(m, k, At(e.values, k), At(e.subs, k))
  {
  }

  lemma NextLooks(s: Sys, st: Step, k: Key, v: View)
    requires Numeric(k) && Looks(s, k, v) && Follows(v, st, k)
    ensures Looks(Do(s, st), k, NextView(v, st, k))
  {
    match st
    case Call(_, c) =>
      ObeyOn(s.a, c, k);
    case Deliver(A) =>
      ReceiveOn(s.a, s.ba[0], k);
      ReceivesExactly(s.a, s.ba[0], k);
    case Deliver(B) =>
      ReceiveOn(s.b, s.ab[0], k);
      ReceivesExactly(s.b, s.ab[0], k);
  }

  lemma OneStepMore(s: Sys, steps: seq<Step>, st: Step, k: Key)
    requires ProperSys(s) && ValidSteps(steps) && ValidStep(st) && Numeric(k)
    ensures var (t, all) := (Run(s, steps), steps + [st]);
            && ValidSteps(all) && Run(s, all) == Do(t, st)
            && History(s, all, A, k) == History(s, steps, A, k) + Change(At(t.a.values, k), At(Do(t, st).a.values, k))
            && History(s, all, B, k) == History(s, steps, B, k) + Change(At(t.b.values, k), At(Do(t, st).b.values, k))
  {
    var all := steps + [st];
    assert all[..|all| - 1] == steps && all[|all| - 1] == st;
  }

  lemma NextChanges(v: View, st: Step, k: Key)
    requires Follows(v, st, k)
    ensures var next := NextView(v, st, k);
            next.ha == v.ha + Change(v.va, next.va) && next.hb == v.hb + Change(v.vb, next.vb)
  {
  }

  lemma NextShows(s: Sys, steps: seq<Step>, st: Step, k: Key, v: View)
    requires Numeric(k) && Shows(s, steps, k, v) && Follows(v, st, k)
    ensures Shows(s, steps + [st], k, NextView(v, st, k))
  {
    OneStepMore(s, steps, st, k);
    NextLooks(Run(s, steps), st, k, v);
    NextChanges(v, st, k);
  }

  // ---------------------------------------------------------------- the failing runs

  ghost function Everywhere<T>(x: T): (m: seq<seq<T>>)
    ensures Shaped(m) && forall k :: InRange(k) ==> At(m, k) == x
  {
    seq(|ENTRY_COUNTS|, t requires 0 <= t < |ENTRY_COUNTS| => seq(ENTRY_COUNTS[t], p => x))
  }

  /** Two endpoints with all values 0 and a subscribed publisher, or not. An answer may be due: a
      REQUEST is in flight to a subscribed reader, with an UNSUBSCRIBE behind it if the reader is
      to end unsubscribed. */
  ghost function Origin(k: Key, subA: bool, due: bool, sub: bool): (s: Sys)
    ensures ProperSys(s)
  {
    Sys(End(Everywhere(0), true, false, Everywhere(subA), Everywhere(false)),
        End(Everywhere(0), true, false, Everywhere(due || sub), Everywhere(false)),
        if due then [Entry(Request, k, 0)] + Rest(k, sub) else [], [])
  }

  ghost function Rest(k: Key, sub: bool): seq<Entry> {
    if sub then [] else [Entry(Unsubscribe, k, 0)]
  }

  lemma OriginStarts(k: Key, subA: bool, due: bool, sub: bool)
    requires Numeric(k)
    ensures Starts(Origin(k, subA, due, sub), k, due, sub)
  {
    var s := Origin(k, subA, due, sub);
    var request := [Entry(Request, k, 0)];
    assert WillAnswer(s.b.subs, [], k) == false && Settle(s.b.subs, []) == s.b.subs;
    if due {
      WillAnswerAppend(s.b.subs, [], request, k);
      assert [] + request == request;
      WillAnswerAppend(s.b.subs, request, Rest(k, sub), k);
    }
  }

  /** With no answer due, the publisher subscribes unless the reader is subscribed, and asks. */
  ghost function Provoke(k: Key, due: bool, sub: bool): seq<Step> {
    if due then [] else (if sub then [] else [Call(A, SubscribeTo(k)), Deliver(B)]) + [Call(A, Ask(k))]
  }

  /** A subscribed reader is to handle a REQUEST, and then the rest. */
  ghost function AboutToAnswer(k: Key, due: bool, sub: bool): View {
    if due then View(0, 0, true, true, [Entry(Request, k, 0)] + Rest(k, sub), [], [], [])
    else View(0, 0, true, true, [Entry(Request, k, 0)], [], [], [])
  }

  lemma Provoked(s: Sys, p: seq<Step>, k: Key, due: bool, sub: bool)
    requires Numeric(k)
    requires Shows(s, p, k, if due then AboutToAnswer(k, due, sub) else View(0, 0, true, sub, [], [], [], []))
    ensures Shows(s, p + Provoke(k, due, sub), k, AboutToAnswer(k, due, sub))
  {
    if due {
      assert p + [] == p;
    } else if sub {
      NextShows(s, p, Call(A, Ask(k)), k, View(0, 0, true, true, [], [], [], []));
      assert p + [Call(A, Ask(k))] == p + Provoke(k, due, sub);
    } else {
      var p1, v := p + [Call(A, SubscribeTo(k))], View(0, 0, true, false, [], [], [], []);
      NextShows(s, p, Call(A, SubscribeTo(k)), k, v);
      NextShows(s, p1, Deliver(B), k, v.(ab := [Entry(Subscribe, k, 0)]));
      NextShows(s, p1 + [Deliver(B)], Call(A, Ask(k)), k, View(0, 0, true, true, [], [], [], []));
      assert p1 + [Deliver(B)] + [Call(A, Ask(k))] == p + Provoke(k, due, sub);
    }
  }

  /** The publisher changes the value; the reader answers the REQUEST with the old one. */
  ghost function ChangeAndAnswer(k: Key): seq<Step> {
    [Call(A, Write(k, 1)), Deliver(B)]
  }

  /** The reader has answered with 0; rest and the publisher's 1 are on their way to it. */
  ghost function Stale(k: Key, rest: seq<Entry>): View {
    View(1, 0, true, true, rest + [Entry(Update, k, 1)], [Entry(Update, k, 0)], [1], [])
  }

  /** The publisher's 1 is queued behind the REQUEST and the rest. */
  ghost function Asked(k: Key, rest: seq<Entry>): View {
    View(1, 0, true, true, [Entry(Request, k, 0)] + (rest + [Entry(Update, k, 1)]), [], [1], [])
  }

  lemma WriteView(k: Key, rest: seq<Entry>)
    ensures NextView(View(0, 0, true, true, [Entry(Request, k, 0)] + rest, [], [], []), Call(A, Write(k, 1)), k)
         == Asked(k, rest)
  {
    var request, news := [Entry(Request, k, 0)], [Entry(Update, k, 1)];
    assert request + rest + news == request + (rest + news);
  }

  lemma AnswerView(k: Key, rest: seq<Entry>)
    ensures NextView(Asked(k, rest), Deliver(B), k) == Stale(k, rest)
  {
    assert Asked(k, rest).ab[1..] == rest + [Entry(Update, k, 1)];
  }

  lemma StaleAnswer(s: Sys, p: seq<Step>, k: Key, rest: seq<Entry>)
    requires Numeric(k)
    requires Shows(s, p, k, View(0, 0, true, true, [Entry(Request, k, 0)] + rest, [], [], []))
    ensures Shows(s, p + ChangeAndAnswer(k), k, Stale(k, rest))
  {
    WriteView(k, rest);
    NextShows(s, p, Call(A, Write(k, 1)), k, View(0, 0, true, true, [Entry(Request, k, 0)] + rest, [], [], []));
    AnswerView(k, rest);
    NextShows(s, p + [Call(A, Write(k, 1))], Deliver(B), k, Asked(k, rest));
    assert p + [Call(A, Write(k, 1))] + [Deliver(B)] == p + ChangeAndAnswer(k);
  }

  /** The first entry of the rest is handled: it unsubscribes the reader, or tells it the 0 it has. */
  lemma RestHandled(s: Sys, p: seq<Step>, k: Key, m: Entry, rest: seq<Entry>, sb: bool)
    requires Numeric(k) && m in {Entry(Unsubscribe, k, 0), Entry(Update, k, 0)}
    requires Shows(s, p, k, Stale(k, [m] + rest).(sb := sb))
    ensures Shows(s, p + [Deliver(B)], k, Stale(k, rest).(sb := sb && m.kind == Update))
  {
    var v := Stale(k, [m] + rest).(sb := sb);
    NextShows(s, p, Deliver(B), k, v);
    assert v.ab[1..] == Stale(k, rest).ab;
    assert v.ba + [] == v.ba;
  }

  /** As many deliveries to the reader. */
  ghost function Handle(n: nat): seq<Step> { seq(n, i => Deliver(B)) }

  lemma UnsubscribeHandled(s: Sys, p: seq<Step>, k: Key)
    requires Numeric(k) && Shows(s, p, k, Stale(k, [Entry(Unsubscribe, k, 0)]))
    ensures Shows(s, p + Handle(1), k, Stale(k, []).(sb := false))
  {
    assert [Entry(Unsubscribe, k, 0)] + [] == [Entry(Unsubscribe, k, 0)];
    RestHandled(s, p, k, Entry(Unsubscribe, k, 0), [], true);
    assert Handle(1) == [Deliver(B)];
  }

  lemma AnswerHandled(s: Sys, p: seq<Step>, k: Key, sb: bool)
    requires Numeric(k) && Shows(s, p, k, Stale(k, [Entry(Update, k, 0)]).(sb := sb))
    ensures Shows(s, p + Handle(1), k, Stale(k, []).(sb := sb))
  {
    assert [Entry(Update, k, 0)] + [] == [Entry(Update, k, 0)];
    RestHandled(s, p, k, Entry(Update, k, 0), [], sb);
    assert Handle(1) == [Deliver(B)];
  }

  lemma BothHandled(s: Sys, p: seq<Step>, k: Key)
    requires Numeric(k) && Shows(s, p, k, Stale(k, [Entry(Unsubscribe, k, 0), Entry(Update, k, 0)]))
    ensures Shows(s, p + Handle(2), k, Stale(k, []).(sb := false))
  {
    var first, second := Entry(Unsubscribe, k, 0), Entry(Update, k, 0);
    assert [first] + [second] == [first, second];
    RestHandled(s, p, k, first, [second], true);
    AnswerHandled(s, p + [Deliver(B)], k, false);
    assert p + [Deliver(B)] + Handle(1) == p + Handle(2);
  }

  /** The new value and the stale answer cross. */
  const CROSS: seq<Step> := [Deliver(B), Deliver(A)]

  /** Everything delivered, the publisher back at 0, the reader at 1. */
  ghost function Crossed(sb: bool): View { View(0, 1, true, sb, [], [], [1, 0], [1]) }

  lemma Crossing(s: Sys, p: seq<Step>, k: Key, sb: bool)
    requires Numeric(k) && Shows(s, p, k, Stale(k, []).(sb := sb))
    ensures Shows(s, p + CROSS, k, Crossed(sb))
  {
    var v0 := Stale(k, []).(sb := sb);
    assert v0.ab == [Entry(Update, k, 1)];
    NextShows(s, p, Deliver(B), k, v0);
    var v1 := v0.(vb := 1, ab := [], hb := [1]);
    assert NextView(v0, Deliver(B), k) == v1;
    NextShows(s, p + [Deliver(B)], Deliver(A), k, v1);
    assert NextView(v1, Deliver(A), k) == Crossed(sb);
    assert p + [Deliver(B)] + [Deliver(A)] == p + CROSS;
  }

  /** The publisher's next value arrives. */
  ghost function ChangeAgain(k: Key): seq<Step> {
    [Call(A, Write(k, 2)), Deliver(B)]
  }

  ghost function Strayed(sb: bool): View { View(2, 2, true, sb, [], [], [1, 0, 2], [1, 2]) }

  lemma NextValueArrives(s: Sys, p: seq<Step>, k: Key, sb: bool)
    requires Numeric(k) && Shows(s, p, k, Crossed(sb))
    ensures Shows(s, p + ChangeAgain(k), k, Strayed(sb))
  {
    NextShows(s, p, Call(A, Write(k, 2)), k, Crossed(sb));
    var v := Crossed(sb).(va := 2, ab := [Entry(Update, k, 2)], ha := [1, 0, 2]);
    assert [1, 0] + [2] == [1, 0, 2] && [] + [Entry(Update, k, 2)] == [Entry(Update, k, 2)];
    assert NextView(Crossed(sb), Call(A, Write(k, 2)), k) == v;
    NextShows(s, p + [Call(A, Write(k, 2))], Deliver(B), k, v);
    assert [1] + [2] == [1, 2] && v.ab[1..] == [];
    assert NextView(v, Deliver(B), k) == Strayed(sb);
    assert p + [Call(A, Write(k, 2))] + [Deliver(B)] == p + ChangeAgain(k);
  }

  lemma NothingYet(s: Sys, k: Key, v: View)
    requires Numeric(k) && Looks(s, k, v) && v.ha == v.hb == []
    ensures Shows(s, [], k, v)
  {
  }

  // ---------------------------------------------------------------- when the handshake is enough

  /** The publisher handles the handshake; with no REQUEST before it, the reader takes the
      publisher's answer. */
  ghost function Answered(due: bool): seq<Step> {
    [Deliver(A), Deliver(A)] + if due then [] else [Deliver(B)]
  }

  /** After the handshake the reader's answer to the publisher's own request for k crosses the
      publisher's new value, and overwrites it. */
  ghost function FailingRun(k: Key, due: bool, sub: bool): seq<Step> {
    Answered(due) + Provoke(k, due, sub) + ChangeAndAnswer(k)
    + Handle((if due then 1 else 0) + if due && !sub then 1 else 0) + CROSS
  }

  lemma PublisherAnswers(k: Key, due: bool, sub: bool)
    requires Numeric(k)
    ensures var s0 := Origin(k, false, due, sub);
            Shows(Handshake(s0, k), [Deliver(A), Deliver(A)], k,
                  View(0, 0, true, due || sub, s0.ab + [Entry(Update, k, 0)], [], [], []))
  {
    var s0 := Origin(k, false, due, sub);
    var s := Handshake(s0, k);
    var subscribe, request := Entry(Subscribe, k, 0), Entry(Request, k, 0);
    var v0 := View(0, 0, false, due || sub, s0.ab, [subscribe, request], [], []);
    NothingYet(s, k, v0);
    NextShows(s, [], Deliver(A), k, v0);
    var v1 := v0.(sa := true, ba := [request]);
    assert s0.ab + [] == s0.ab;
    assert NextView(v0, Deliver(A), k) == v1 && [] + [Deliver(A)] == [Deliver(A)];
    NextShows(s, [Deliver(A)], Deliver(A), k, v1);
    assert NextView(v1, Deliver(A), k) == v1.(ba := [], ab := s0.ab + [Entry(Update, k, 0)]);
    assert [Deliver(A)] + [Deliver(A)] == [Deliver(A), Deliver(A)];
  }

  lemma FailingWithoutDue(k: Key, sub: bool)
    requires Numeric(k)
    ensures Shows(Handshake(Origin(k, false, false, sub), k), FailingRun(k, false, sub), k, Crossed(true))
  {
    var s := Handshake(Origin(k, false, false, sub), k);
    PublisherAnswers(k, false, sub);
    assert Origin(k, false, false, sub).ab + [Entry(Update, k, 0)] == [Entry(Update, k, 0)];
    var v := View(0, 0, true, sub, [Entry(Update, k, 0)], [], [], []);
    NextShows(s, [Deliver(A), Deliver(A)], Deliver(B), k, v);
    assert NextView(v, Deliver(B), k) == View(0, 0, true, sub, [], [], [], []);
    var p1 := Answered(false);
    assert [Deliver(A), Deliver(A)] + [Deliver(B)] == p1;
    Provoked(s, p1, k, false, sub);
    var p2 := p1 + Provoke(k, false, sub);
    assert [Entry(Request, k, 0)] + [] == [Entry(Request, k, 0)];
    StaleAnswer(s, p2, k, []);
    var p3 := p2 + ChangeAndAnswer(k);
    assert p3 + Handle(0) == p3 && Stale(k, []).(sb := true) == Stale(k, []);
    Crossing(s, p3, k, true);
  }

  lemma FailingWithDue(k: Key, sub: bool)
    requires Numeric(k)
    ensures Shows(Handshake(Origin(k, false, true, sub), k), FailingRun(k, true, sub), k, Crossed(sub))
  {
    var s := Handshake(Origin(k, false, true, sub), k);
    var rest := Rest(k, sub) + [Entry(Update, k, 0)];
    PublisherAnswers(k, true, sub);
    assert Origin(k, false, true, sub).ab + [Entry(Update, k, 0)] == [Entry(Request, k, 0)] + rest;
    var p1 := Answered(true);
    assert [Deliver(A), Deliver(A)] + [] == [Deliver(A), Deliver(A)] && p1 + Provoke(k, true, sub) == p1;
    StaleAnswer(s, p1, k, rest);
    var p2 := p1 + ChangeAndAnswer(k);
    if sub {
      assert rest == [Entry(Update, k, 0)] && Stale(k, rest).(sb := true) == Stale(k, rest);
      AnswerHandled(s, p2, k, true);
      Crossing(s, p2 + Handle(1), k, true);
    } else {
      assert rest == [Entry(Unsubscribe, k, 0), Entry(Update, k, 0)];
      BothHandled(s, p2, k);
      Crossing(s, p2 + Handle(2), k, false);
    }
  }

  /** The reader ends equal to the publisher whenever everything has been delivered. */
  ghost predicate EndsEqual(s: Sys, k: Key, steps: seq<Step>) {
    ProperSys(s) && Numeric(k) && ValidSteps(steps) &&
    var t := Run(Handshake(s, k), steps);
    t.ab == [] && t.ba == [] ==> At(t.b.values, k) == At(t.a.values, k)
  }

  lemma FailingRunDiverges(k: Key, due: bool, sub: bool)
    requires Numeric(k)
    ensures !EndsEqual(Origin(k, false, due, sub), k, FailingRun(k, due, sub))
  {
    if due {
      FailingWithDue(k, sub);
    } else {
      FailingWithoutDue(k, sub);
    }
  }

  lemma FailingRunIsAllowed(k: Key, pol: Policy, due: bool, sub: bool)
    requires Numeric(k) && (due || CanProvoke(pol, sub))
    ensures AllAllowed(FailingRun(k, due, sub), k, pol)
  {
  }

  ghost predicate Synchronises(k: Key, pol: Policy, due: bool, sub: bool) {
    forall s, steps :: Starts(s, k, due, sub) && AllAllowed(steps, k, pol) ==> EndsEqual(s, k, steps)
  }

  /** A reader that neither writes nor unsubscribes k is not enough. The handshake synchronises in
      every run exactly when the reader has no occasion to answer: none is due at the start, and
      the publisher does not both ask for k and have the reader subscribed to it. */
  lemma SynchronisesIff(k: Key, pol: Policy, due: bool, sub: bool)
    requires Numeric(k)
    ensures Synchronises(k, pol, due, sub) <==> !due && !(pol.mayAsk && (pol.maySubscribe || sub))
  {
    if due || CanProvoke(pol, sub) {
      OriginStarts(k, false, due, sub);
      FailingRunDiverges(k, due, sub);
      FailingRunIsAllowed(k, pol, due, sub);
    } else {
      forall s, steps | Starts(s, k, due, sub) && AllAllowed(steps, k, pol) ensures EndsEqual(s, k, steps) {
        SubscribeThenRequestSynchronises(s, k, pol, steps);
        if Run(Handshake(s, k), steps).ab == [] {
          assert UpdatesOf([], k) == [];
        }
      }
    }
  }

  // ---------------------------------------------------------------- when the reader follows

  /** The publisher is subscribed, the two sides agree, and no UPDATE of k is in flight. */
  ghost predicate Together(s: Sys, k: Key, due: bool, sub: bool) {
    Starts(s, k, due, sub) && Subscribed(s, k) && UpdatesOf(s.ab, k) == [] && NoneOf(s.ba, Update, k)
    && At(s.a.values, k) == At(s.b.values, k)
  }

  ghost predicate NothingBack(s: Sys, k: Key, steps: seq<Step>) {
    ProperSys(s) && ValidSteps(steps) && NoneOf(Run(s, steps).ba, Update, k)
  }

  ghost predicate IsPrefix(s: Sys, k: Key, steps: seq<Step>) {
    ProperSys(s) && ValidSteps(steps) && Numeric(k) && History(s, steps, B, k) <= History(s, steps, A, k)
  }

  /** The reader's changes, continued by the UPDATEs in flight, are the publisher's changes. */
  ghost predicate InFlightIsRest(s: Sys, k: Key, steps: seq<Step>) {
    ProperSys(s) && ValidSteps(steps) && Numeric(k)
    && History(s, steps, B, k) + UpdatesOf(Run(s, steps).ab, k) == History(s, steps, A, k)
  }

  ghost predicate NeverAnswers(k: Key, pol: Policy, due: bool, sub: bool) {
    forall s, steps :: Together(s, k, due, sub) && AllAllowed(steps, k, pol) ==> NothingBack(s, k, steps)
  }

  ghost predicate AlwaysPrefix(k: Key, pol: Policy, due: bool, sub: bool) {
    forall s, steps :: Together(s, k, due, sub) && AllAllowed(steps, k, pol) ==> IsPrefix(s, k, steps)
  }

  ghost predicate AlwaysRest(k: Key, pol: Policy, due: bool, sub: bool) {
    forall s, steps ::
      Together(s, k, due, sub) && NoneOf(s.ba, Request, k) && AllAllowed(steps, k, pol) && NeverAsks(steps, k)
      ==> InFlightIsRest(s, k, steps)
  }

  ghost function AnsweringRun(k: Key, due: bool, sub: bool): seq<Step> {
    Provoke(k, due, sub) + ChangeAndAnswer(k)
  }

  ghost function CrossingRun(k: Key, due: bool, sub: bool): seq<Step> {
    AnsweringRun(k, due, sub) + Handle(if due && !sub then 1 else 0) + CROSS
  }

  ghost function StrayingRun(k: Key, due: bool, sub: bool): seq<Step> {
    CrossingRun(k, due, sub) + ChangeAgain(k)
  }

  ghost function LeftOver(k: Key, due: bool, sub: bool): seq<Entry> {
    if due then Rest(k, sub) else []
  }

  lemma AnsweringRunAnswers(k: Key, due: bool, sub: bool)
    requires Numeric(k)
    ensures Shows(Origin(k, true, due, sub), AnsweringRun(k, due, sub), k, Stale(k, LeftOver(k, due, sub)))
  {
    var s := Origin(k, true, due, sub);
    NothingYet(s, k, if due then AboutToAnswer(k, due, sub) else View(0, 0, true, sub, [], [], [], []));
    Provoked(s, [], k, due, sub);
    assert [] + Provoke(k, due, sub) == Provoke(k, due, sub);
    assert [Entry(Request, k, 0)] + [] == [Entry(Request, k, 0)];
    StaleAnswer(s, Provoke(k, due, sub), k, LeftOver(k, due, sub));
  }

  lemma CrossingRunCrosses(k: Key, due: bool, sub: bool)
    requires Numeric(k)
    ensures Shows(Origin(k, true, due, sub), CrossingRun(k, due, sub), k, Crossed(!due || sub))
  {
    var s, p := Origin(k, true, due, sub), AnsweringRun(k, due, sub);
    AnsweringRunAnswers(k, due, sub);
    if due && !sub {
      UnsubscribeHandled(s, p, k);
      Crossing(s, p + Handle(1), k, false);
    } else {
      assert p + Handle(0) == p && Stale(k, []).(sb := true) == Stale(k, []);
      Crossing(s, p, k, true);
    }
  }

  lemma OriginIsTogether(k: Key, due: bool, sub: bool)
    requires Numeric(k)
    ensures Together(Origin(k, true, due, sub), k, due, sub)
  {
    var s := Origin(k, true, due, sub);
    OriginStarts(k, true, due, sub);
    assert UpdatesOf([], k) == [];
    if due {
      UpdatesAppend([Entry(Request, k, 0)], Rest(k, sub), k);
      UpdatesOne([Entry(Request, k, 0)], k);
      UpdatesOne(Rest(k, sub), k);
    }
  }

  lemma StrayingRunIsAllowed(k: Key, pol: Policy, due: bool, sub: bool)
    requires Numeric(k) && (due || CanProvoke(pol, sub))
    ensures AllAllowed(AnsweringRun(k, due, sub), k, pol) && AllAllowed(CrossingRun(k, due, sub), k, pol)
    ensures AllAllowed(StrayingRun(k, due, sub), k, pol)
    ensures NeverAsks(CrossingRun(k, due, sub), k)
  {
  }

  lemma AnswerSeen(s: Sys, steps: seq<Step>, k: Key, v: View)
    requires Numeric(k) && Shows(s, steps, k, v) && v.ba == [Entry(Update, k, 0)]
    ensures !NothingBack(s, k, steps)
  {
    assert Run(s, steps).ba[0] == Entry(Update, k, 0);
  }

  lemma OtherHistorySeen(s: Sys, steps: seq<Step>, k: Key, v: View)
    requires Numeric(k) && Shows(s, steps, k, v) && !(v.hb <= v.ha)
    ensures !IsPrefix(s, k, steps)
  {
  }

  lemma MissedChangeSeen(s: Sys, steps: seq<Step>, k: Key, v: View)
    requires Numeric(k) && Shows(s, steps, k, v) && v.ab == [] && v.hb != v.ha
    ensures !InFlightIsRest(s, k, steps)
  {
    assert UpdatesOf(v.ab, k) == [] && v.hb + [] == v.hb;
  }

  /** First an UPDATE is under way from the reader; then nothing is in flight but the reader has
      missed a change; and then its history is [1, 2] where the publisher's is [1, 0, 2]. */
  lemma StrayingRunFails(k: Key, due: bool, sub: bool)
    requires Numeric(k)
    ensures var s := Origin(k, true, due, sub);
            && !NothingBack(s, k, AnsweringRun(k, due, sub))
            && !InFlightIsRest(s, k, CrossingRun(k, due, sub))
            && !IsPrefix(s, k, StrayingRun(k, due, sub))
  {
    var s, sb := Origin(k, true, due, sub), !due || sub;
    AnsweringRunAnswers(k, due, sub);
    AnswerSeen(s, AnsweringRun(k, due, sub), k, Stale(k, LeftOver(k, due, sub)));
    CrossingRunCrosses(k, due, sub);
    MissedChangeSeen(s, CrossingRun(k, due, sub), k, Crossed(sb));
    NextValueArrives(s, CrossingRun(k, due, sub), k, sb);
    assert Strayed(sb).hb[1] != Strayed(sb).ha[1];
    OtherHistorySeen(s, StrayingRun(k, due, sub), k, Strayed(sb));
  }

  lemma ReaderFollows(k: Key, pol: Policy, due: bool, sub: bool)
    requires Numeric(k) && !due && !CanProvoke(pol, sub)
    ensures NeverAnswers(k, pol, due, sub) && AlwaysPrefix(k, pol, due, sub) && AlwaysRest(k, pol, due, sub)
  {
    forall s, steps | Together(s, k, due, sub) && AllAllowed(steps, k, pol)
      ensures NothingBack(s, k, steps) && IsPrefix(s, k, steps)
    {
      TracePrefix(s, k, pol, steps);
    }
    forall s, steps | Together(s, k, due, sub) && NoneOf(s.ba, Request, k)
                      && AllAllowed(steps, k, pol) && NeverAsks(steps, k)
      ensures InFlightIsRest(s, k, steps)
    {
      InFlightIsMissingSuffix(s, k, pol, steps);
    }
  }

  /** Three promises about a publisher and a reader that start in agreement: no UPDATE of k ever
      travels back; the reader's history is always a prefix of the publisher's; and, if the reader
      does not ask, the UPDATEs in flight are what is missing. Each holds in every run exactly
      when the reader has no occasion to answer. */
  lemma ReaderFollowsIff(k: Key, pol: Policy, due: bool, sub: bool)
    requires Numeric(k)
    ensures NeverAnswers(k, pol, due, sub) <==> !due && !(pol.mayAsk && (pol.maySubscribe || sub))
    ensures AlwaysPrefix(k, pol, due, sub) <==> !due && !(pol.mayAsk && (pol.maySubscribe || sub))
    ensures AlwaysRest(k, pol, due, sub) <==> !due && !(pol.mayAsk && (pol.maySubscribe || sub))
  {
    if due || CanProvoke(pol, sub) {
      OriginIsTogether(k, due, sub);
      StrayingRunIsAllowed(k, pol, due, sub);
      StrayingRunFails(k, due, sub);
    } else {
      ReaderFollows(k, pol, due, sub);
    }
  }
}
