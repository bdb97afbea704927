/** Consumers of the delivery service (internal/delivery): registering, settling, disconnecting. */
module Consumers {
  import opened Wrappers
  import opened Ranging
  import opened Broker
  import opened Queues
  import opened Stores
  import opened Delivery

  datatype Semantics = Unspecified | AtMostOnce | AtLeastOnce | OtherSemantics

  // ---------------------------------------------------------------- as values

  function NewConsumer(id: string, address: string, prefetch: nat, sem: Semantics): Result<Consumer, DeliveryError> {
    if id == "" || address == "" then Err(ConsumerRequired)
    else if prefetch > 65535 then Err(PrefetchTooLarge)
    else if sem == OtherSemantics then Err(InvalidSemantics)
    else Ok(Consumer(id, address, if prefetch == 0 then 1 else prefetch, map[], sem == AtMostOnce, true))
  }

  function Registered(s: State, id: string, address: string, prefetch: nat, sem: Semantics): (State, Result<Consumer, DeliveryError>) {
    if address !in s.addresses then (s, Err(AddressNotFound))
    else match NewConsumer(id, address, prefetch, sem)
      case Err(e) => (s, Err(e))
      case Ok(c) => (s.(consumers := s.consumers[id := c]), Ok(c))
  }

  ghost predicate Unsettled(deliveries: map<int, Id>, k: Id) {
    exists d :: d in deliveries && deliveries[d] == k
  }

  /** A delivery that was under way is given back. */
  function GivenBack(m: Message): Message {
    m.(state := Released, redelivered := true)
  }

  /** A consumer that is gone: disconnected, without credit and without unsettled deliveries. */
  function Idle(c: Consumer): Consumer {
    c.(connected := false, credit := 0, unsettled := map[])
  }

  /** What a disposition makes of a message. */
  function Disposed(s: State, m: Message, outcome: MessageState): Result<Message, DeliveryError> {
    match outcome
    case Accepted => Ok(m.(state := Accepted))
    case Released => Ok(GivenBack(m))
    case Rejected => if m.address in s.addresses then Ok(Buried(s.addresses, m, "rejected")) else Err(AddressNotFound)
    case _ => Err(UnsupportedOutcome)
  }

  function Settled(s: State, consumer: string, delivery: int, outcome: MessageState): (State, Result<(), DeliveryError>) {
    if consumer !in s.consumers then (s, Err(ConsumerNotFound))
    else
      var c := s.consumers[consumer];
      if delivery !in c.unsettled then (s, Err(DeliveryNotFound))
      else if c.unsettled[delivery] !in s.messages then (s, Err(Storage(NotFound)))
      else match Disposed(s, s.messages[c.unsettled[delivery]], outcome)
        case Err(e) => (s, Err(e))
        case Ok(m) => (s.(messages := s.messages[c.unsettled[delivery] := m]), Ok(()))
  }

  /** The consumer is gone and everything it held is given back. */
  ghost function Left(s: State, consumer: string): State {
    if consumer !in s.consumers then s
    else
      var c := s.consumers[consumer];
      s.(messages := map k | k in s.messages ::
                       if Unsettled(c.unsettled, k) then GivenBack(s.messages[k]) else s.messages[k],
         consumers := s.consumers[consumer := Idle(c)])
  }

  /** Everything is stored under its own id. */
  ghost predicate KeyedById(s: State) {
    && (forall k :: k in s.messages ==> s.messages[k].id == k)
    && (forall c :: c in s.consumers ==> s.consumers[c].id == c)
  }

  /** A new consumer: its credit is the prefetch it asked for, at least one and at most 65535; what is refused. */
  lemma {:induction false} RegisteredExactly(s: State, id: string, address: string, prefetch: nat, sem: Semantics)
    ensures var (t, r) := Registered(s, id, address, prefetch, sem);
            && (r.Ok? <==> address in s.addresses && id != "" && address != "" && prefetch <= 65535 && sem != OtherSemantics)
            && (r.Err? ==> t == s)
            && (r.Ok? ==>
                  && t == s.(consumers := t.consumers) && id in t.consumers && t.consumers[id] == r.value
                  && (forall c :: c != id ==>
                        (c in t.consumers <==> c in s.consumers) && (c in s.consumers ==> t.consumers[c] == s.consumers[c]))
                  && r.value.id == id && r.value.address == address && r.value.connected && r.value.unsettled == map[]
                  && (prefetch > 0 ==> r.value.credit == prefetch) && (prefetch == 0 ==> r.value.credit == 1)
                  && (r.value.atMostOnce <==> sem == AtMostOnce))
  {}

  /** What a settlement does to the message it is about; it touches no other. */
  lemma {:induction false} SettledExactly(s: State, consumer: string, delivery: int, outcome: MessageState)
    requires consumer in s.consumers && delivery in s.consumers[consumer].unsettled
    requires s.consumers[consumer].unsettled[delivery] in s.messages
    ensures var (t, r) := Settled(s, consumer, delivery, outcome);
            var k := s.consumers[consumer].unsettled[delivery];
            && k in t.messages && t == s.(messages := s.messages[k := t.messages[k]])
            && var m, n := s.messages[k], t.messages[k];
               && (outcome == Accepted ==> r.Ok? && n == m.(state := Accepted))
               && (outcome == Released ==> r.Ok? && n == m.(state := Released, redelivered := true))
               && (outcome == Rejected && m.address in s.addresses ==>
                     && r.Ok? && REASON in n.headers && n.headers[REASON] == "rejected"
                     && ORIGIN in n.headers && n.headers[ORIGIN] == m.address
                     && (n.state == DeadLettered || n.state == Available))
               && (outcome != Accepted && outcome != Released && outcome != Rejected ==> r.Err? && n == m)
  {}

  /** Disconnecting gives back exactly what the consumer held and takes its credit away; nothing else changes. */
  lemma {:induction false} LeftExactly(s: State, consumer: string, k: Id)
    requires consumer in s.consumers && k in s.messages
    ensures var t := Left(s, consumer);
            && k in t.messages && consumer in t.consumers
            && t.messages[k] == (if exists d :: d in s.consumers[consumer].unsettled && s.consumers[consumer].unsettled[d] == k
                                 then s.messages[k].(state := Released, redelivered := true) else s.messages[k])
            && !t.consumers[consumer].connected && t.consumers[consumer].credit == 0
            && t.consumers[consumer].unsettled == map[]
            && t == s.(messages := t.messages, consumers := t.consumers)
            && (forall c :: c != consumer && c in s.consumers ==> c in t.consumers && t.consumers[c] == s.consumers[c])
  {}

  // ---------------------------------------------------------------- quiet calls

  /** Only consumers changed, and none holds anything. */
  lemma {:induction false} ConsumersIsQuiet(s: State, t: State)
    requires Sound(s) && Isolated(s) && t == s.(consumers := t.consumers)
    requires forall c :: c in t.consumers ==> t.consumers[c].id == c && t.consumers[c].unsettled == map[]
    ensures Quiet(s, t)
  {
    hide HasOrigin;
    forall k | k in t.messages
      ensures MessageSound(t, k) && OutOfReach(t.messages[k])
    {
      assert MessageSound(s, k) && OutOfReach(s.messages[k]);
    }
  }

  /** In a sound state consumers hold nothing, so there is nothing to settle and nothing to give back. */
  lemma {:induction false} NothingHeld(s: State, consumer: string, delivery: int, outcome: MessageState)
    requires Sound(s)
    ensures Settled(s, consumer, delivery, outcome).0 == s
    ensures Left(s, consumer) ==
            if consumer in s.consumers then s.(consumers := s.consumers[consumer := Idle(s.consumers[consumer])]) else s
  {
    if consumer in s.consumers {
      assert s.consumers[consumer].unsettled == map[];
      assert Left(s, consumer).messages == s.messages;
    }
  }

  lemma {:induction false} LeftIsQuiet(s: State, consumer: string)
    requires Sound(s) && Isolated(s)
    ensures Quiet(s, Left(s, consumer))
  {
    hide HasOrigin, Isolated, Quiet, Left;
    NothingHeld(s, consumer, 0, Accepted);
    ConsumersIsQuiet(s, Left(s, consumer));
  }

  lemma {:induction false} RegisteredIsQuiet(s: State, id: string, address: string, prefetch: nat, sem: Semantics)
    requires Sound(s) && Isolated(s)
    ensures Quiet(s, Registered(s, id, address, prefetch, sem).0)
  {
    hide HasOrigin, Isolated, Quiet;
    ConsumersIsQuiet(s, Registered(s, id, address, prefetch, sem).0);
  }

  // ---------------------------------------------------------------- as it runs

  method Register(store: Store, id: string, address: string, prefetch: nat, sem: Semantics)
    returns (r: Result<Consumer, DeliveryError>)
    modifies store`consumers
    ensures (store.View(), r) == Registered(old(store.View()), id, address, prefetch, sem)
  {
    if address !in store.addresses {
      return Err(AddressNotFound);
    }
    var c :- NewConsumer(id, address, prefetch, sem);
    store.consumers := store.consumers[c.id := c];
    r := Ok(c);
  }

  method Settle(service: Service, consumer: string, delivery: int, outcome: MessageState)
    returns (r: Result<(), DeliveryError>)
    requires KeyedById(service.store.View())
    modifies service.store`messages, service.store`consumers
    ensures (service.store.View(), r) == Settled(old(service.store.View()), consumer, delivery, outcome)
  {
    var store := service.store;
    ghost var s := store.View();
    if consumer !in store.consumers {
      return Err(ConsumerNotFound);
    }
    var c := store.consumers[consumer];
    if delivery !in c.unsettled {
      return Err(DeliveryNotFound);
    }
    var k := c.unsettled[delivery];
    if k !in store.messages {
      return Err(Storage(NotFound));
    }
    var m := store.messages[k];
    match outcome {
      case Accepted =>
        m := m.(state := Accepted);
      case Released =>
        m := m.(state := Released);
        m := m.(redelivered := true);
      case Rejected =>
        var d := service.DeadLetter(m, "rejected");
        if d.Err? {
          return Err(d.error);
        }
        m := store.messages[k];
      case _ =>
        return Err(UnsupportedOutcome);
    }
    if m.state != DeadLettered {
      var u := store.Update(m);  // cannot fail: the message is there
    }
    store.consumers := store.consumers[c.id := c];
    assert store.consumers == s.consumers && store.messages == s.messages[k := m];
    r := Ok(());
  }

  method Disconnect(store: Store, consumer: string) returns (r: Result<(), DeliveryError>)
    requires KeyedById(store.View())
    modifies store`messages, store`consumers
    ensures store.View() == Left(old(store.View()), consumer)
    ensures r == if consumer in old(store.consumers) then Ok(()) else Err(ConsumerNotFound)
  {
    hide Unsettled;
    ghost var s := store.View();
    if consumer !in store.consumers {
      return Err(ConsumerNotFound);
    }
    var c := store.consumers[consumer];
    store.messages := GiveBack(store.messages, c.unsettled);
    store.consumers := store.consumers[c.id := c.(unsettled := map[], connected := false, credit := 0)];
    assert store.messages == Left(s, consumer).messages;
    r := Ok(());
  }

  /** The loop over a consumer's unsettled deliveries. */
  method GiveBack(messages: map<Id, Message>, unsettled: map<int, Id>) returns (m: map<Id, Message>)
    ensures m.Keys == messages.Keys
    ensures forall k :: k in messages ==> m[k] == if Unsettled(unsettled, k) then GivenBack(messages[k]) else messages[k]
  {
    hide Distinct;
    var order := Range(unsettled.Keys);
    m := messages;
    for i := 0 to |order|
      invariant m.Keys == messages.Keys
      invariant forall k :: k in messages ==>
                  m[k] == if Reached(unsettled, order, i, k) then GivenBack(messages[k]) else messages[k]
    {
      var id := unsettled[order[i]];
      forall k
        ensures Reached(unsettled, order, i + 1, k) <==> Reached(unsettled, order, i, k) || k == id
      {}
      if id in m {
        m := m[id := GivenBack(m[id])];
      }
    }
    forall k {
      ReachedAll(unsettled, order, k);
    }
  }

  /** The message is among the first n of these deliveries. */
  ghost predicate Reached(unsettled: map<int, Id>, order: seq<int>, n: nat, k: Id)
    requires n <= |order|
  {
    exists j :: 0 <= j < n && order[j] in unsettled && unsettled[order[j]] == k
  }

  lemma {:induction false} ReachedAll(unsettled: map<int, Id>, order: seq<int>, k: Id)
    requires forall d :: d in order <==> d in unsettled
    ensures Unsettled(unsettled, k) <==> Reached(unsettled, order, |order|, k)
  {
    if Unsettled(unsettled, k) {
      var d :| d in unsettled && unsettled[d] == k;
      var j :| 0 <= j < |order| && order[j] == d;
      assert Reached(unsettled, order, |order|, k);
    }
    if Reached(unsettled, order, |order|, k) {
      var j :| 0 <= j < |order| && order[j] in unsettled && unsettled[order[j]] == k;
      var d := order[j];
      assert Unsettled(unsettled, k);
    }
  }
}
