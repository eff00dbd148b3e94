/** One registry with one adapter, sending into a queue: everything an endpoint does on a local
    call and on each kind of received entry. */
module Endpoint {
  import opened Entries

  /** Other stands for the message types the receive callback does not know. */
  datatype Kind = Update | Request | Subscribe | Unsubscribe | Other

  datatype Entry = Entry(kind: Kind, key: Key, value: Value)

  datatype End = End(
    values: seq<seq<Value>>,
    accept: bool,
    hadUpdate: bool,
    subs: seq<seq<bool>>,
    subsRemote: seq<seq<bool>>)

  predicate Proper(e: End) {
    Shaped(e.values) && Shaped(e.subs) && Shaped(e.subsRemote)
  }

  /** An endpoint after a call, and what the call put on the wire. */
  datatype Out = Out(end: End, sent: seq<Entry>)

  /** At most one entry, and no control message. */
  predicate OnlyUpdates(sent: seq<Entry>) {
    sent == [] || (|sent| == 1 && sent[0].kind == Update)
  }

  /** LiteCommAdapter::set; string transmission is not implemented and sends nothing. */
  function AdapterSet(e: End, k: Key, v: Value): (o: Out)
    requires Proper(e) && InRange(k)
    ensures OnlyUpdates(o.sent)
  {
    if k.typ == STRING || !e.accept || !At(e.subs, k) then Out(e, []) else Out(e, [Entry(Update, k, v)])
  }

  function RegistrySet(e: End, k: Key, v: Value): (o: Out)
    requires Proper(e) && InRange(k)
    ensures OnlyUpdates(o.sent) && o.end.subs == e.subs && o.end.subsRemote == e.subsRemote
  {
    if At(e.values, k) == v then Out(e, []) else AdapterSet(e.(values := Put(e.values, k, v)), k, v)
  }

  /** The receive callback. */
  function Receive(e: End, m: Entry): (o: Out)
    requires Proper(e)
    ensures Proper(o.end) && OnlyUpdates(o.sent) && o.end.subsRemote == e.subsRemote
  {
    if !InRange(m.key) then Out(e, [])
    else match m.kind
      case Update =>
        var e1 := e.(hadUpdate := true, accept := false);
        var o := if m.key.typ == STRING then Out(e1, []) else RegistrySet(e1, m.key, m.value);
        o.(end := o.end.(accept := true))
      case Request => AdapterSet(e, m.key, At(e.values, m.key))
      case Subscribe => Out(e.(subs := Put(e.subs, m.key, true)), [])
      case Unsubscribe => Out(e.(subs := Put(e.subs, m.key, false)), [])
      case Other => Out(e, [])
  }

  /** A call made at this endpoint. */
  datatype Command = Write(key: Key, value: Value) | SubscribeTo(key: Key) | UnsubscribeFrom(key: Key) | Ask(key: Key)

  function Obey(e: End, c: Command): (o: Out)
    requires Proper(e) && InRange(c.key)
    ensures Proper(o.end)
  {
    match c
    case Write(k, v) => RegistrySet(e, k, v)
    case SubscribeTo(k) => Out(e.(subsRemote := Put(e.subsRemote, k, true)), [Entry(Subscribe, k, 0)])
    case UnsubscribeFrom(k) => Out(e.(subsRemote := Put(e.subsRemote, k, false)), [Entry(Unsubscribe, k, 0)])
    case Ask(k) => Out(e, [Entry(Request, k, 0)])
  }

  /** The endpoint as an object; outbox is the channel to the peer. */
  class QueuedAdapter {
    var values: seq<seq<Value>>
    var acceptProperty: bool
    var hadUpdate: bool
    var subscriptions: seq<seq<bool>>
    var subscriptionsRemote: seq<seq<bool>>
    var outbox: seq<Entry>

    ghost function State(): End
      reads this
    {
      End(values, acceptProperty, hadUpdate, subscriptions, subscriptionsRemote)
    }

    ghost predicate Valid()
      reads this
    {
      Proper(State())
    }

    /** The call left the endpoint and the outbox as o says. */
    twostate predicate Became(o: Out)
      reads this
    {
      State() == o.end && outbox == old(outbox) + o.sent
    }

    constructor (values: seq<seq<Value>>, subscribed: bool)
      requires Shaped(values)
      ensures Valid() && outbox == [] && this.values == values && acceptProperty && !hadUpdate
      ensures forall k :: InRange(k) ==>
                At(subscriptions, k) == subscribed && !At(subscriptionsRemote, k)
    {
      this.values := values;
      acceptProperty, hadUpdate, outbox := true, false, [];
      subscriptions := seq(|ENTRY_COUNTS|, t requires 0 <= t < |ENTRY_COUNTS| =>
                         seq(ENTRY_COUNTS[t], p => subscribed));
      subscriptionsRemote := seq(|ENTRY_COUNTS|, t requires 0 <= t < |ENTRY_COUNTS| =>
                               seq(ENTRY_COUNTS[t], p => false));
    }

    method Set(k: Key, v: Value)
      requires Valid() && InRange(k)
      modifies this`outbox
      ensures Valid() && Became(old(AdapterSet(State(), k, v)))
    {
      if k.typ == STRING {
        return;
      }
      if !acceptProperty {
        return;
      }
      if !At(subscriptions, k) {
        return;
      }
      outbox := outbox + [Entry(Update, k, v)];
    }

    method SetBack(k: Key)
      requires Valid() && InRange(k)
      modifies this`outbox
      ensures Valid() && Became(old(AdapterSet(State(), k, At(values, k))))
    {
      Set(k, At(values, k));
    }

    /** Registry::set of the registry this adapter is registered with. */
    method WriteRegistry(k: Key, v: Value)
      requires Valid() && InRange(k)
      modifies this`values, this`outbox
      ensures Valid() && Became(old(Obey(State(), Write(k, v))))
    {
      if At(values, k) == v {
        return;
      }
      values := Put(values, k, v);
      Set(k, v);
    }

    method SubscribeAt(k: Key)
      requires Valid() && InRange(k)
      modifies this`subscriptionsRemote, this`outbox
      ensures Valid() && Became(old(Obey(State(), SubscribeTo(k))))
    {
      subscriptionsRemote := Put(subscriptionsRemote, k, true);
      SendControl(Subscribe, k);
    }

    method UnsubscribeAt(k: Key)
      requires Valid() && InRange(k)
      modifies this`subscriptionsRemote, this`outbox
      ensures Valid() && Became(old(Obey(State(), UnsubscribeFrom(k))))
    {
      subscriptionsRemote := Put(subscriptionsRemote, k, false);
      SendControl(Unsubscribe, k);
    }

    method RequestAt(k: Key)
      requires Valid() && InRange(k)
      modifies this`outbox
      ensures Valid() && Became(old(Obey(State(), Ask(k))))
    {
      SendControl(Request, k);
    }

    /** The oldest entry leaves the outbox. */
    method TakeFromOutbox() returns (m: Entry)
      requires Valid() && outbox != []
      modifies this`outbox
      ensures Valid() && m == old(outbox[0]) && outbox == old(outbox[1..]) && State() == old(State())
    {
      m := outbox[0];
      outbox := outbox[1..];
    }

    method SendControl(kind: Kind, k: Key)
      modifies this`outbox
      ensures outbox == old(outbox) + [Entry(kind, k, 0)]
    {
      outbox := outbox + [Entry(kind, k, 0)];
    }

    /** The receive callback; drop is what the dropper policy says about the entry if it is asked. */
    method ReceiveEntry(m: Entry, drop: bool)
      requires Valid()
      modifies this
      ensures Valid()
      ensures Became(old(if m.kind == Update && drop then Out(State(), []) else Receive(State(), m)))
    {
      if !InRange(m.key) {
        return;
      }
      match m.kind
      case Update =>
        if drop {
          return;
        }
        hadUpdate := true;
        acceptProperty := false;
        if m.key.typ != STRING {
          WriteRegistry(m.key, m.value);
        }
        acceptProperty := true;
      case Request =>
        SetBack(m.key);
      case Subscribe =>
        subscriptions := Put(subscriptions, m.key, true);
      case Unsubscribe =>
        subscriptions := Put(subscriptions, m.key, false);
      case Other =>
    }
  }
}
