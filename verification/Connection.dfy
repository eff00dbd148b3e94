/** Two adapter objects wired to each other, each handing its queued entries to the other's receive
    callback; they do exactly what the steps of Link do, so its results hold of the objects. */
module Connection {
  import opened Entries
  import opened Endpoint
  import opened Link
  import opened Synchronisation

  class Pair {
    const a: QueuedAdapter
    const b: QueuedAdapter

    ghost predicate Valid()
      reads a, b
    {
      a != b && a.Valid() && b.Valid()
    }

    ghost function State(): (s: Sys)
      requires Valid()
      reads a, b
      ensures ProperSys(s)
    {
      Sys(a.State(), b.State(), a.outbox, b.outbox)
    }

    constructor (a: QueuedAdapter, b: QueuedAdapter)
      requires a != b && a.Valid() && b.Valid()
      ensures this.a == a && this.b == b && Valid()
    {
      this.a, this.b := a, b;
    }

    /** One step of either adapter, with the default policy, which drops nothing. */
    method Perform(st: Step)
      requires Valid() && ValidStep(st)
      modifies a, b
      ensures Valid() && State() == old(Do(State(), st))
    {
      match st
      case Call(A, c) => Command(a, c);
      case Call(B, c) => Command(b, c);
      case Deliver(A) => Transmit(b, a);
      case Deliver(B) => Transmit(a, b);
    }

    method Command(x: QueuedAdapter, c: Endpoint.Command)
      requires x.Valid() && InRange(c.key)
      modifies x
      ensures x.Valid() && x.State() == old(Obey(x.State(), c).end)
      ensures x.outbox == old(x.outbox + Obey(x.State(), c).sent)
    {
      match c
      case Write(k, v) => x.WriteRegistry(k, v);
      case SubscribeTo(k) => x.SubscribeAt(k);
      case UnsubscribeFrom(k) => x.UnsubscribeAt(k);
      case Ask(k) => x.RequestAt(k);
    }

    method Transmit(x: QueuedAdapter, y: QueuedAdapter)
      requires x != y && x.Valid() && y.Valid()
      modifies x, y
      ensures x.Valid() && y.Valid() && x.State() == old(x.State())
      ensures old(x.outbox) == [] ==>
                x.outbox == [] && y.State() == old(y.State()) && y.outbox == old(y.outbox)
      ensures old(x.outbox) != [] ==>
                x.outbox == old(x.outbox[1..])
                && y.State() == old(Receive(y.State(), x.outbox[0]).end)
                && y.outbox == old(y.outbox + Receive(y.State(), x.outbox[0]).sent)
    {
      if x.outbox != [] {
        var m := x.TakeFromOutbox();
        y.ReceiveEntry(m, false);
      }
    }
  }

  /** The objects after any run from fresh adapters: with nothing on the way to one of them, its
      subscriptions are the other's remote subscriptions, for every property. */
  lemma ObjectsMirror(p: Pair, s: Sys, steps: seq<Step>)
    requires p.Valid() && ValidSteps(steps)
    requires Unsubscribed(s.a) && Unsubscribed(s.b) && s.ab == [] && s.ba == []
    requires p.State() == Run(s, steps)
    ensures p.b.outbox == [] ==> p.a.subscriptions == p.b.subscriptionsRemote
    ensures p.a.outbox == [] ==> p.b.subscriptions == p.a.subscriptionsRemote
  {
    TablesAgreeWhenDrained(s, steps);
  }

  /** The objects after a handshake and any run in which the reader has no occasion to answer: with
      no request and no update of k in flight, both registries hold the same value. */
  lemma ObjectsSynchronise(p: Pair, s: Sys, k: Key, pol: Policy, steps: seq<Step>)
    requires p.Valid() && ProperSys(s) && Numeric(k) && NoAnswers(s, k, pol)
    requires AllAllowed(steps, k, pol) && ValidSteps(steps)
    requires p.State() == Run(Handshake(s, k), steps)
    requires NoneOf(p.b.outbox, Request, k) && NoneOf(p.a.outbox, Update, k)
    ensures At(p.b.values, k) == At(p.a.values, k)
  {
    SubscribeThenRequestSynchronises(s, k, pol, steps);
    NoneHasNoUpdates(p.a.outbox, k);
  }

  lemma {:induction false} NoneHasNoUpdates(ch: seq<Entry>, k: Key)
    requires NoneOf(ch, Update, k)
    ensures UpdatesOf(ch, k) == []
  {
    if ch != [] {
      NoneHasNoUpdates(ch[..|ch| - 1], k);
    }
  }
}
