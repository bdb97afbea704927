/** Publishing, staging, committing and trimming messages (internal/delivery/application/service.go). */
module Delivery {
  import opened Wrappers
  import opened Bytes
  import opened Matcher
  import opened Addresses
  import R = Router
  import opened Broker
  import opened Queues
  import opened Stores

  datatype DeliveryError =
    | AddressNotFound
    | IngressPaused
    | Unroutable
    | NoRoute
    | AddressRequired
    | BodyRequired
    | PriorityRange
    | NotStaged
    | TransactionRequired
    | Storage(error: StoreError)
    | ConsumerNotFound
    | CreditExhausted
    | NothingAvailable
    | MessageExpired
    | Disconnected
    | DeliveryNotFound
    | UnsupportedOutcome
    | ConsumerRequired
    | PrefetchTooLarge
    | InvalidSemantics

  /** A publication request. */
  datatype Publication = Publication(
    address: string,
    routingKey: string,
    headers: map<string, string>,
    body: bytes,
    priority: int,
    ttl: int,
    tx: Option<Id>)

  function NewMessage(id: Id, p: Publication, now: int): Result<Message, DeliveryError> {
    if p.address == "" then Err(AddressRequired)
    else if p.body == [] then Err(BodyRequired)
    else if p.priority < 0 || p.priority > 9 then Err(PriorityRange)
    else Ok(Message(id, p.address, p.routingKey, p.headers, p.body, p.priority, now,
                    if p.ttl > 0 then Some(now + p.ttl) else None,
                    Available, 0, false, p.tx, -1))
  }

  /** A staged message made visible. */
  function Cleared(m: Message): Message {
    m.(state := Available, tx := None)
  }

  /** The message is as it was, or was ready and has been dead-lettered since, perhaps more than once. */
  predicate Descends(m: Message, n: Message) {
    || n == m
    || (&& m.state == Available
        && n == m.(address := n.address, headers := n.headers, state := n.state, expiresAt := n.expiresAt)
        && REASON in n.headers && n.headers[REASON] == "max-length" && ORIGIN in n.headers
        && (n.expiresAt == m.expiresAt || n.expiresAt == None)
        && (n.state == DeadLettered || (n.state == Available && n.expiresAt == None)))
  }

  lemma {:induction false} TrimmedDescends(s: State, t: State, victims: set<Id>)
    requires Sound(s) && Trimmed(s, t, victims)
    requires forall k :: k in victims ==> k in s.messages && s.messages[k].state == Available
    ensures forall k :: k in s.messages ==> k in t.messages && Descends(s.messages[k], t.messages[k])
  {
    forall k | k in s.messages
      ensures k in t.messages && Descends(s.messages[k], t.messages[k])
    {
      assert MessageSound(s, k);
    }
  }

  // ---------------------------------------------------------------- new messages in the store

  /** The messages in `out` were added, each under a new id, with its body appended to the log. */
  ghost predicate Added(s: State, t: State, out: seq<Message>) {
    && t == s.(messages := t.messages, log := t.log, minted := t.minted)
    && t.minted >= s.minted + |out|
    && |t.log| == |s.log| + |out| && s.log <= t.log
    && (forall k :: k in s.messages ==> k in t.messages && t.messages[k] == s.messages[k])
    && (forall k :: k in t.messages && k !in s.messages ==> s.minted <= k < s.minted + |out|)
    && (forall i :: 0 <= i < |out| ==>
          && out[i].id == s.minted + i && out[i].logOffset == |s.log| + i && t.log[|s.log| + i] == out[i].body
          && out[i].id in t.messages && t.messages[out[i].id] == out[i])
  }

  lemma {:induction false} AddedIsSound(s: State, t: State, out: seq<Message>)
    requires Sound(s) && Added(s, t, out)
    requires forall i :: 0 <= i < |out| ==> out[i].address in s.addresses
    ensures Sound(t)
    ensures Isolated(s) && (forall i :: 0 <= i < |out| ==> OutOfReach(out[i])) ==> Quiet(s, t)
  {
    hide Isolated, OutOfReach;
    forall k | k in t.messages
      ensures MessageSound(t, k)
    {
      if k in s.messages {
        assert MessageSound(s, k);
      } else {
        assert out[k - s.minted].id == k;
      }
    }
    if Isolated(s) && forall i :: 0 <= i < |out| ==> OutOfReach(out[i]) {
      AddedIsolates(s, t, out);
    }
  }

  lemma {:induction false} AddedIsolates(s: State, t: State, out: seq<Message>)
    requires Isolated(s) && Added(s, t, out) && forall i :: 0 <= i < |out| ==> OutOfReach(out[i])
    ensures Isolated(t)
  {
    hide OutOfReach;
    forall k | k in t.messages
      ensures OutOfReach(t.messages[k])
    {
      if k !in s.messages {
        assert out[k - s.minted].id == k;
      }
    }
  }

  lemma {:induction false} AddedNothing(s: State, minted: Id)
    requires s.minted <= minted
    ensures Added(s, s.(minted := minted), [])
  {}

  lemma {:induction false} AddedOneMore(s: State, t: State, out: seq<Message>, m: Message, u: State)
    requires Added(s, t, out) && t.minted == s.minted + |out|
    requires m.id == t.minted && m.logOffset == |t.log| && t.minted !in t.messages
    requires u == t.(messages := t.messages[m.id := m], log := t.log + [m.body], minted := t.minted + 1)
    ensures Added(s, u, out + [m])
  {}

  /** The messages were stored one after the other; trimming may have dead-lettered ready ones meanwhile. */
  ghost predicate Posted(s: State, t: State, created: seq<Message>) {
    && Sound(t)
    && t == s.(messages := t.messages, log := t.log, minted := t.minted)
    && s.minted + |created| <= t.minted
    && |t.log| == |s.log| + |created| && s.log <= t.log
    && (forall k :: k in s.messages ==> k in t.messages && Descends(s.messages[k], t.messages[k]))
    && (forall k :: k in t.messages && k !in s.messages ==> s.minted <= k < s.minted + |created|)
    && (forall i :: 0 <= i < |created| ==>
          && created[i].id == s.minted + i && t.log[|s.log| + i] == created[i].body
          && created[i].id in t.messages && Descends(created[i], t.messages[created[i].id]))
  }

  /** The state with one more message: its body at the end of the log, the message under a new id. */
  function Stored(t: State, m: Message): State {
    t.(messages := t.messages[m.id := m], log := t.log + [m.body], minted := t.minted + 1)
  }

  /** One route served: the message is stored, ready, and its address trimmed. */
  ghost predicate Filed(t: State, v: State, m: Message) {
    && m.id == t.minted && m.logOffset == |t.log| && m.state == Available
    && exists victims :: Enforced(Stored(t, m), v, m.address, victims)
  }

  /** The messages were filed one after the other, through these states. */
  ghost predicate FiledAll(s: State, created: seq<Message>, via: seq<State>) {
    && |via| == |created| + 1 && via[0] == s
    && forall i :: 0 <= i < |created| ==> Filed(via[i], via[i + 1], created[i])
  }

  /** The addresses of the messages, in order. */
  function Addressed(created: seq<Message>): seq<string> {
    seq(|created|, i requires 0 <= i < |created| => created[i].address)
  }

  /** Filing stores the messages one by one and takes every address through its levels. */
  lemma {:induction false} FiledMeans(s: State, created: seq<Message>, via: seq<State>, n: nat)
    requires Sound(s) && FiledAll(s, created, via) && n <= |created|
    requires forall i :: 0 <= i < |created| ==> created[i].address in s.addresses
    ensures Posted(s, via[n], created[..n]) && via[n].minted == s.minted + n
    ensures AtLevels(s, Addressed(created), n, via[n])
  {
    hide Sound, Enforced, Posted, AtLevels;
    if n == 0 {
      PostedNothing(s);
      StartLevels(s, Addressed(created));
    } else {
      FiledMeans(s, created, via, n - 1);
      var t, v, m := via[n - 1], via[n], created[n - 1];
      PostedParts(s, t, created[..n - 1]);
      assert Filed(t, v, m);
      var victims :| Enforced(Stored(t, m), v, m.address, victims);
      InsertedSound(t, m, Stored(t, m));
      StoredArrives(t, m);
      EnforcedParts(Stored(t, m), v, m.address, victims);
      PostedOneMore(s, t, created[..n - 1], m, Stored(t, m), v, victims);
      assert created[..n] == created[..n - 1] + [m];
      NextLevels(s, Addressed(created), n - 1, t, Stored(t, m), v, m, victims);
    }
  }

  lemma {:induction false} StartLevels(s: State, stops: seq<string>)
    ensures AtLevels(s, stops, 0, s)
  {}

  lemma {:induction false} PostedParts(s: State, t: State, created: seq<Message>)
    requires Posted(s, t, created)
    ensures Sound(t) && t.addresses == s.addresses
  {}

  lemma {:induction false} StoredArrives(t: State, m: Message)
    requires Sound(t) && m.id == t.minted && m.state == Available
    ensures Arrived(t, Stored(t, m), m)
  {
    hide Sound;
    SoundKeys(t);
  }

  lemma {:induction false} EnforcedParts(u: State, v: State, d: string, victims: set<Id>)
    requires Enforced(u, v, d, victims)
    ensures Trimmed(u, v, victims) && v == u.(messages := v.messages)
    ensures forall k :: k in victims ==> k in u.messages && u.messages[k].state == Available
  {}

  lemma {:induction false} FiledOneMore(s: State, created: seq<Message>, via: seq<State>, m: Message, v: State,
                                        victims: set<Id>)
    requires FiledAll(s, created, via)
    requires var t := via[|created|];
             && Sound(t) && m.id == t.minted && m.logOffset == |t.log| && m.state == Available && m.address in t.addresses
             && Enforced(Stored(t, m), v, m.address, victims)
    ensures FiledAll(s, created + [m], via + [v]) && Sound(v)
    ensures v == Stored(via[|created|], m).(messages := v.messages)
  {
    hide Sound, Enforced;
    var t := via[|created|];
    assert Filed(t, v, m);
    InsertedSound(t, m, Stored(t, m));
    EnforcedParts(Stored(t, m), v, m.address, victims);
    TrimmedIsQuiet(Stored(t, m), v, victims);
    forall i | 0 <= i < |created + [m]|
      ensures Filed((via + [v])[i], (via + [v])[i + 1], (created + [m])[i])
    {
      if i < |created| {
        assert Filed(via[i], via[i + 1], created[i]);
      }
    }
  }

  lemma {:induction false} PostedOneMore(s: State, t: State, created: seq<Message>, m: Message, u: State, v: State,
                                         victims: set<Id>)
    requires Posted(s, t, created) && t.minted == s.minted + |created|
    requires m.id == t.minted && m.logOffset == |t.log| && m.address in t.addresses
    requires u == Stored(t, m)
    requires Sound(u) && Trimmed(u, v, victims)
    requires forall k :: k in victims ==> k in u.messages && u.messages[k].state == Available
    ensures Posted(s, v, created + [m])
  {
    hide Sound, Trimmed, Buried, Descends;
    TrimmedIsQuiet(u, v, victims);
    TrimmedDescends(u, v, victims);
    TrimmedFrame(u, v, victims);
    SoundKeys(t);
    forall k | k in t.messages
      ensures k in v.messages && forall n :: Descends(n, t.messages[k]) ==> Descends(n, v.messages[k])
    {
      assert u.messages[k] == t.messages[k];
      forall n | Descends(n, t.messages[k])
        ensures Descends(n, v.messages[k])
      {
        DescendsTrans(n, t.messages[k], v.messages[k]);
      }
    }
  }

  lemma {:induction false} DescendsTrans(m: Message, n: Message, o: Message)
    requires Descends(m, n) && Descends(n, o)
    ensures Descends(m, o)
  {}

  lemma {:induction false} TrimmedFrame(s: State, t: State, victims: set<Id>)
    requires Sound(s) && Trimmed(s, t, victims)
    ensures t == s.(messages := t.messages) && t.messages.Keys == s.messages.Keys
  {}

  lemma {:induction false} PostedMinted(s: State, t: State, created: seq<Message>, minted: Id)
    requires Posted(s, t, created) && t.minted <= minted
    ensures Posted(s, t.(minted := minted), created)
  {
    var u := t.(minted := minted);
    forall k | k in u.messages
      ensures MessageSound(u, k)
    {
      assert MessageSound(t, k);
    }
  }

  /** Publishing is quiet, and keeps staged messages isolated, exactly when it names no transaction. */
  lemma {:induction false} PostedIsolation(s: State, t: State, created: seq<Message>, tx: Option<Id>)
    requires Isolated(s) && Posted(s, t, created)
    requires forall i :: 0 <= i < |created| ==> created[i].tx == tx && created[i].state == Available
    ensures tx.None? || created == [] ==> Quiet(s, t)
    ensures tx.Some? && created != [] ==> !Isolated(t)
  {
    hide Sound, HasOrigin;
    if tx.None? || created == [] {
      forall k | k in t.messages
        ensures OutOfReach(t.messages[k])
        ensures k in s.messages ==> Evolves(s.messages[k], t.messages[k])
      {
        if k in s.messages {
          assert OutOfReach(s.messages[k]);
        } else {
          assert Descends(created[k - s.minted], t.messages[k]);
        }
      }
    } else {
      assert !OutOfReach(t.messages[created[0].id]);
    }
  }

  /** The time to live that a publication gets: its own, or the default of the address. */
  function Ttl(s: State, p: Publication): int
    requires p.address in s.addresses
  {
    if p.ttl == 0 then s.addresses[p.address].defaultTtl else p.ttl
  }

  /** The address takes the publication and these are its routes. */
  ghost predicate Admits(s: State, p: Publication, glob: Glob, routes: seq<R.Route>) {
    && p.address in s.addresses && !s.addresses[p.address].paused
    && routes != []
    && R.IsResolution(s.addresses, s.bindings, p.address, p.routingKey, p.headers, glob, routes)
  }

  function Destinations(routes: seq<R.Route>): seq<string> {
    seq(|routes|, i requires 0 <= i < |routes| => routes[i].destination)
  }

  /** The message that route i of a publication gives rise to, with the id and the log offset it gets. */
  function Draft(s: State, p: Publication, destination: string, now: int, i: nat): Result<Message, DeliveryError>
    requires p.address in s.addresses
  {
    var m :- NewMessage(s.minted + i, p.(address := destination, ttl := Ttl(s, p)), now);
    Ok(m.(logOffset := |s.log| + i))
  }

  /** The messages are the drafts of the first routes, made over by `state`. */
  ghost predicate Drafted(s: State, p: Publication, routes: seq<R.Route>, now: int, state: MessageState, out: seq<Message>)
  {
    && |out| <= |routes| && p.address in s.addresses
    && forall i :: 0 <= i < |out| ==>
         && Draft(s, p, routes[i].destination, now, i).Ok?
         && out[i] == Draft(s, p, routes[i].destination, now, i).value.(state := state)
         && out[i].address in s.addresses
  }

  lemma {:induction false} DraftedNothing(s: State, p: Publication, routes: seq<R.Route>, now: int, state: MessageState)
    requires p.address in s.addresses
    ensures Drafted(s, p, routes, now, state, [])
  {}

  lemma {:induction false} DraftedOneMore(s: State, p: Publication, routes: seq<R.Route>, now: int, state: MessageState,
                                          out: seq<Message>, m: Message)
    requires Drafted(s, p, routes, now, state, out) && |out| < |routes| && routes[|out|].destination in s.addresses
    requires var d := NewMessage(s.minted + |out|, p.(address := routes[|out|].destination, ttl := Ttl(s, p)), now);
             d.Ok? && m == d.value.(state := state, logOffset := |s.log| + |out|)
    ensures Drafted(s, p, routes, now, state, out + [m])
  {
    hide NewMessage;
    MessageFields(s.minted + |out|, p.(address := routes[|out|].destination, ttl := Ttl(s, p)), now);
  }

  /** What the message of a route looks like, and when it cannot be made. */
  lemma {:induction false} DraftFields(s: State, p: Publication, destination: string, now: int, i: nat)
    requires p.address in s.addresses
    ensures var ttl := if p.ttl == 0 then s.addresses[p.address].defaultTtl else p.ttl;
            var r := Draft(s, p, destination, now, i);
            && (r.Ok? <==> destination != "" && p.body != [] && 0 <= p.priority <= 9)
            && (r.Ok? ==>
                  && r.value.id == s.minted + i && r.value.address == destination && r.value.logOffset == |s.log| + i
                  && r.value.routingKey == p.routingKey && r.value.headers == p.headers && r.value.body == p.body
                  && r.value.priority == p.priority && r.value.createdAt == now && r.value.tx == p.tx
                  && r.value.deliveryCount == 0 && !r.value.redelivered && r.value.state == Available
                  && (if ttl > 0 then r.value.expiresAt == Some(now + ttl) else r.value.expiresAt == None))
            && (r.Err? ==> r.error == if destination == "" then AddressRequired
                                      else if p.body == [] then BodyRequired else PriorityRange)
  {}

  /** The publication is refused before anything is stored. */
  ghost predicate Refused(s: State, p: Publication, glob: Glob, e: DeliveryError) {
    match e
    case AddressNotFound => p.address !in s.addresses
    case IngressPaused => p.address in s.addresses && s.addresses[p.address].paused
    case NoRoute =>
      p.address in s.addresses && !s.addresses[p.address].paused && s.addresses[p.address].kind == OtherKind
    case Unroutable =>
      && p.address in s.addresses && !s.addresses[p.address].paused
      && R.IsResolution(s.addresses, s.bindings, p.address, p.routingKey, p.headers, glob, [])
    case _ => false
  }

  /** Route n stops the publication: the message is invalid, or the log refuses its body. */
  ghost predicate Breaks(s: State, p: Publication, routes: seq<R.Route>, now: int, n: nat, e: DeliveryError) {
    && n < |routes| && p.address in s.addresses
    && e == (match Draft(s, p, routes[n].destination, now, n) case Err(why) => why case Ok(_) => Storage(LogFailed))
  }

  /**
   What Publish does: it refuses and changes nothing, or files one message for each route in turn,
   up to the end or to a route that stops it.
   */
  ghost predicate Published(s: State, t: State, p: Publication, glob: Glob, now: int, routes: seq<R.Route>,
                            created: seq<Message>, err: Option<DeliveryError>, via: seq<State>) {
    || (&& err.Some? && Refused(s, p, glob, err.value) && created == [] && via == [s] && t == s)
    || (&& Admits(s, p, glob, routes) && Drafted(s, p, routes, now, Available, created) && FiledAll(s, created, via)
        && match err
           case None => |created| == |routes| && t == via[|created|]
           case Some(e) => && Breaks(s, p, routes, now, |created|, e)
                           && t == via[|created|].(minted := via[|created|].minted + 1))
  }

  /** What Stage does: likewise, but the messages are out of reach and nothing is trimmed. */
  ghost predicate StagedAs(s: State, t: State, p: Publication, glob: Glob, now: int, routes: seq<R.Route>,
                           out: seq<Message>, err: Option<DeliveryError>) {
    if p.tx == None then err == Some(TransactionRequired) && out == [] && t == s
    else
      || (&& err.Some? && Refused(s, p, glob, err.value) && out == [] && t == s)
      || (&& Admits(s, p, glob, routes) && Drafted(s, p, routes, now, Acquired, out) && Added(s, t, out)
          && match err
             case None => |out| == |routes| && t.minted == s.minted + |out|
             case Some(e) => Breaks(s, p, routes, now, |out|, e) && t.minted == s.minted + |out| + 1)
  }

  /**
   What a publication comes to: nothing is lost, each message's body is in the log, every address is
   at its level, and staged messages stay isolated exactly when the publication names no transaction.
   */
  lemma {:induction false} PublishedMeans(s: State, t: State, p: Publication, glob: Glob, now: int, routes: seq<R.Route>,
                                          created: seq<Message>, err: Option<DeliveryError>, via: seq<State>)
    requires Sound(s) && Published(s, t, p, glob, now, routes, created, err, via)
    ensures Posted(s, t, created)
    ensures AtLevels(s, Addressed(created), |created|, t)
    ensures err.None? ==> Addressed(created) == Destinations(routes)
    ensures Isolated(s) && p.tx.None? ==> Quiet(s, t)
    ensures Isolated(s) && created != [] ==> (Isolated(t) <==> p.tx.None?)
  {
    hide Sound, Isolated, Quiet, Posted, AtLevels, Filed, NewMessage, Refused, Admits, Breaks;
    if created == [] && via == [s] && t == s {
      PostedNothing(s);
      StartLevels(s, Addressed(created));
      PostedDrafts(s, t, p, routes, now, created);
    } else {
      FiledMeans(s, created, via, |created|);
      assert created[..|created|] == created;
      var last := via[|created|];
      PostedMinted(s, last, created, t.minted);
      SameLevels(s, Addressed(created), |created|, last, t);
      PostedDrafts(s, t, p, routes, now, created);
    }
    if err.None? {
      DraftedAddresses(s, p, routes, now, created);
    }
  }

  lemma {:induction false} SameLevels(s: State, stops: seq<string>, n: nat, t: State, u: State)
    requires n <= |stops| && AtLevels(s, stops, n, t) && u.addresses == t.addresses && u.messages == t.messages
    ensures AtLevels(s, stops, n, u)
  {
    forall a
      ensures Ready(u, a) == Ready(t, a)
    {}
  }

  lemma {:induction false} DraftedAddresses(s: State, p: Publication, routes: seq<R.Route>, now: int, created: seq<Message>)
    requires |created| == |routes| && Drafted(s, p, routes, now, Available, created)
    ensures Addressed(created) == Destinations(routes)
  {
    hide NewMessage;
    forall i | 0 <= i < |created|
      ensures created[i].address == routes[i].destination
    {
      MessageFields(s.minted + i, p.(address := routes[i].destination, ttl := Ttl(s, p)), now);
    }
  }

  // ---------------------------------------------------------------- expiry, replay, delivery

  predicate ExpiredAt(m: Message, now: int) {
    m.expiresAt.None? || now > m.expiresAt.value
  }

  /** The sweep takes the message: undelivered or given back, and past its time. */
  predicate Due(m: Message, now: int) {
    (m.state == Available || m.state == Released) && ExpiredAt(m, now)
  }

  /** Replay takes the message: dead, or marked with the address it came from. */
  predicate Dead(m: Message) {
    m.state == DeadLettered || m.state == Expired || HasOrigin(m.headers)
  }

  function ReplayTarget(m: Message): string {
    if HasOrigin(m.headers) then m.headers[ORIGIN] else m.address
  }

  /** What replay makes of a dead message; left as it is when there is nowhere open to send it. */
  function Revived(addresses: map<string, Address>, m: Message): Message {
    var target := ReplayTarget(m);
    if target !in addresses || addresses[target].paused then m
    else m.(address := target, state := Available, expiresAt := None, redelivered := true)
  }

  /** The message is the best of the ready ones, and past its time. */
  ghost predicate ExpiredHead(s: State, address: string, k: Id, now: int) {
    && k in Ready(s, address) && ExpiredAt(s.messages[k], now)
    && forall o :: o in Ready(s, address) ==> !Ahead(s.messages[o], s.messages[k])
  }

  /** What delivery to a consumer makes of a message. */
  function Taken(m: Message, atMostOnce: bool): Message {
    m.(state := if atMostOnce then Accepted else Acquired,
       deliveryCount := m.deliveryCount + 1,
       redelivered := m.deliveryCount + 1 > 1)
  }

  /** Why a consumer gets nothing. */
  ghost predicate Undeliverable(s: State, consumer: string, e: DeliveryError) {
    match e
    case ConsumerNotFound => consumer !in s.consumers
    case CreditExhausted => consumer in s.consumers && s.consumers[consumer].credit == 0
    case NothingAvailable => consumer in s.consumers && Ready(s, s.consumers[consumer].address) == {}
    case Disconnected => consumer in s.consumers && !s.consumers[consumer].connected
    case _ => false
  }

  /**
   What Acquire does: it hands out a best ready message that is not past its time, or dead-letters
   one that is, or gives the reason why there is nothing to hand out.
   */
  ghost predicate Dispatched(s: State, t: State, consumer: string, now: int, r: Result<Message, DeliveryError>) {
    match r
    case Ok(m) =>
      && consumer in s.consumers && s.consumers[consumer].credit > 0 && s.consumers[consumer].connected
      && var c := s.consumers[consumer];
      && m.id in Ready(s, c.address) && !ExpiredAt(s.messages[m.id], now)
      && (forall k :: k in Ready(s, c.address) ==> !Ahead(s.messages[k], s.messages[m.id]))
      && 0 <= m.logOffset < |s.log|
      && t == s.(messages := s.messages[m.id := Taken(s.messages[m.id], c.atMostOnce)])
      && m == Taken(s.messages[m.id], c.atMostOnce).(body := s.log[m.logOffset])
    case Err(MessageExpired) =>
      && consumer in s.consumers
      && exists k :: ExpiredHead(s, s.consumers[consumer].address, k, now)
           && t == s.(messages := s.messages[k := Buried(s.addresses, s.messages[k], "ttl-expired")])
    case Err(e) => t == s && Undeliverable(s, consumer, e)
  }

  lemma {:induction false} RefusedDispatch(s: State, consumer: string, now: int, e: DeliveryError)
    requires Sound(s) && Undeliverable(s, consumer, e)
    ensures Dispatched(s, s, consumer, now, Err(e))
    ensures Isolated(s) ==> Quiet(s, s)
  {
    hide Isolated, Quiet, Sound, Ready;
    DispatchedIsQuiet(s, s, consumer, now, Err(e));
  }

  lemma {:induction false} TakenDispatch(s: State, t: State, consumer: string, now: int, k: Id)
    requires Sound(s) && consumer in s.consumers && s.consumers[consumer].credit > 0 && s.consumers[consumer].connected
    requires var c := s.consumers[consumer];
             && k in Ready(s, c.address) && !ExpiredAt(s.messages[k], now)
             && (forall o :: o in Ready(s, c.address) ==> !Ahead(s.messages[o], s.messages[k]))
             && t == s.(messages := s.messages[k := Taken(s.messages[k], c.atMostOnce)])
    ensures 0 <= s.messages[k].logOffset < |s.log|
    ensures Dispatched(s, t, consumer, now,
              Ok(Taken(s.messages[k], s.consumers[consumer].atMostOnce).(body := s.log[s.messages[k].logOffset])))
    ensures Isolated(s) ==> Quiet(s, t)
  {
    hide Isolated, Quiet, Sound, Ahead;
    SoundKeys(s);
    ReadyStored(s, s.consumers[consumer].address, k);
    DispatchedIsQuiet(s, t, consumer, now,
      Ok(Taken(s.messages[k], s.consumers[consumer].atMostOnce).(body := s.log[s.messages[k].logOffset])));
  }

  lemma {:induction false} ExpiredDispatch(s: State, t: State, consumer: string, now: int, m: Message)
    requires Sound(s) && consumer in s.consumers && ExpiredHead(s, s.consumers[consumer].address, m.id, now)
    requires s.messages[m.id] == m && t == s.(messages := s.messages[m.id := Buried(s.addresses, m, "ttl-expired")])
    ensures Dispatched(s, t, consumer, now, Err(MessageExpired))
    ensures Isolated(s) ==> Quiet(s, t)
  {
    hide Isolated, Quiet, Sound, Ready, Buried;
    DispatchedIsQuiet(s, t, consumer, now, Err(MessageExpired));
  }

  lemma {:induction false} DispatchedIsQuiet(s: State, t: State, consumer: string, now: int,
                                             r: Result<Message, DeliveryError>)
    requires Sound(s) && Dispatched(s, t, consumer, now, r)
    ensures Isolated(s) ==> Quiet(s, t)
  {
    hide Isolated, Quiet, Sound, Buried, Ahead, Undeliverable;
    if r.Ok? {
      ReadyStored(s, s.consumers[consumer].address, r.value.id);
      SoundKeys(s);
      OneChangeIsQuiet(s, t);
    } else if r.error == MessageExpired {
      var k :| ExpiredHead(s, s.consumers[consumer].address, k, now)
               && t == s.(messages := s.messages[k := Buried(s.addresses, s.messages[k], "ttl-expired")]);
      SoundKeys(s);
      BuriedElsewhere(s, k, "ttl-expired");
      OneChangeIsQuiet(s, t);
    } else {
      OneChangeIsQuiet(s, s);
    }
  }

  /** Only some messages changed, none of them staged, and each stayed sound: a quiet call. */
  lemma {:induction false} ChangedIsQuiet(s: State, t: State)
    requires Sound(s) && t == s.(messages := t.messages) && t.messages.Keys == s.messages.Keys
    requires forall k :: k in s.messages ==>
               var m, n := s.messages[k], t.messages[k];
               || n == m
               || (&& n.id == m.id && n.tx == m.tx && n.body == m.body && n.logOffset == m.logOffset
                   && n.address in s.addresses && (m.state != Acquired || HasOrigin(m.headers)))
    ensures Sound(t)
    ensures Isolated(s) ==> Quiet(s, t)
  {
    hide HasOrigin;
    forall k | k in t.messages
      ensures MessageSound(t, k)
      ensures Isolated(s) ==> OutOfReach(t.messages[k]) && Evolves(s.messages[k], t.messages[k])
    {
      assert MessageSound(s, k);
      assert Isolated(s) ==> OutOfReach(s.messages[k]);
    }
  }

  /** Every message that was due has been dead-lettered; nothing else changed. */
  ghost predicate Swept(s: State, t: State, now: int) {
    && t == s.(messages := t.messages) && t.messages.Keys == s.messages.Keys
    && forall k :: k in s.messages ==>
         t.messages[k] == if Due(s.messages[k], now) then Buried(s.addresses, s.messages[k], "ttl-expired") else s.messages[k]
  }

  /** The chosen messages were dead and have been replayed; nothing else changed. */
  ghost predicate Replayed(s: State, t: State, chosen: set<Id>) {
    && t == s.(messages := t.messages) && t.messages.Keys == s.messages.Keys
    && (forall k :: k in chosen ==> k in s.messages && Dead(s.messages[k]))
    && forall k :: k in s.messages ==>
         t.messages[k] == if k in chosen then Revived(s.addresses, s.messages[k]) else s.messages[k]
  }

  ghost function DueIds(s: State, now: int): set<Id> {
    set k | k in s.messages && Due(s.messages[k], now)
  }

  ghost function DeadIds(s: State): set<Id> {
    set k | k in s.messages && Dead(s.messages[k])
  }

  lemma {:induction false} DeadExactly(s: State)
    ensures forall k :: k in DeadIds(s) <==>
              && k in s.messages
              && var m := s.messages[k];
              m.state == DeadLettered || m.state == Expired || (ORIGIN in m.headers && m.headers[ORIGIN] != "")
  {}

  /** The address exists and is not paused. */
  predicate Open(addresses: map<string, Address>, name: string) {
    name in addresses && !addresses[name].paused
  }

  /** The chosen messages that have somewhere open to go. */
  ghost function Revivable(s: State, chosen: set<Id>): set<Id> {
    set k | k in s.messages && k in chosen && Open(s.addresses, ReplayTarget(s.messages[k]))
  }

  /** Exactly the messages in `swept` were dead-lettered for their age. */
  ghost predicate SweptOut(s: State, t: State, swept: set<Id>) {
    && t == s.(messages := t.messages) && t.messages.Keys == s.messages.Keys
    && forall k :: k in s.messages ==>
         t.messages[k] == if k in swept then Buried(s.addresses, s.messages[k], "ttl-expired") else s.messages[k]
  }

  /** The ids of those of the first i messages that are due. */
  ghost predicate SweptIds(all: seq<Message>, i: nat, now: int, swept: set<Id>)
    requires i <= |all|
  {
    && (forall k :: k in swept ==> exists j :: 0 <= j < i && all[j].id == k && Due(all[j], now))
    && (forall j :: 0 <= j < i && Due(all[j], now) ==> all[j].id in swept)
  }

  lemma {:induction false} SweptNothing(s: State, all: seq<Message>, now: int)
    ensures SweptOut(s, s, {}) && SweptIds(all, 0, now, {})
  {}

  lemma {:induction false} SweptNext(all: seq<Message>, i: nat, now: int, swept: set<Id>)
    requires i < |all| && DistinctIds(all) && SweptIds(all, i, now, swept)
    ensures all[i].id !in swept
    ensures SweptIds(all, i + 1, now, if Due(all[i], now) then swept + {all[i].id} else swept)
  {
    hide Due;
    var next := if Due(all[i], now) then swept + {all[i].id} else swept;
    forall k | k in next
      ensures exists j :: 0 <= j < i + 1 && all[j].id == k && Due(all[j], now)
    {
      if k in swept {
        var j :| 0 <= j < i && all[j].id == k && Due(all[j], now);
      }
    }
  }

  lemma {:induction false} SweptOneMore(s: State, t: State, swept: set<Id>, m: Message)
    requires Sound(s) && SweptOut(s, t, swept) && m.id in s.messages && s.messages[m.id] == m
    ensures m.id in t.messages && m.address in s.addresses
    ensures SweptOut(s, t.(messages := t.messages[m.id := Buried(s.addresses, m, "ttl-expired")]), swept + {m.id})
  {
    hide Buried;
    assert MessageSound(s, m.id);
  }

  lemma {:induction false} SweptAll(s: State, t: State, all: seq<Message>, now: int, swept: set<Id>)
    requires SweptOut(s, t, swept) && SweptIds(all, |all|, now, swept)
    requires forall m :: m in all ==> m.id in s.messages && s.messages[m.id] == m
    requires forall k :: k in s.messages ==> s.messages[k].id == k && s.messages[k] in all
    ensures Swept(s, t, now) && swept == DueIds(s, now)
  {
    hide Due, Buried;
    forall k
      ensures k in swept <==> k in s.messages && Due(s.messages[k], now)
    {
      if k in swept {
        var j :| 0 <= j < |all| && all[j].id == k && Due(all[j], now);
        assert all[j] in all;
      } else if k in s.messages {
        var j :| 0 <= j < |all| && all[j] == s.messages[k];
      }
    }
  }

  /** All dead messages are chosen, or as many as the limit says. */
  lemma {:induction false} ChosenCount(s: State, all: seq<Message>, dead: seq<Message>, limit: int)
    requires forall m :: m in all ==> m.id in s.messages && s.messages[m.id] == m
    requires forall k :: k in s.messages ==> s.messages[k].id == k && s.messages[k] in all
    requires forall m :: m in dead ==> m in all && Dead(m)
    requires DistinctIds(dead) && (limit > 0 ==> |dead| <= limit)
    requires (limit > 0 && |dead| == limit) || forall m :: m in all && Dead(m) ==> m in dead
    ensures |Ids(dead)| == if 0 < limit < |DeadIds(s)| then limit else |DeadIds(s)|
  {
    hide Dead;
    IdsCount(dead);
    forall k | k in Ids(dead)
      ensures k in DeadIds(s)
    {
      var i :| 0 <= i < |dead| && dead[i].id == k;
      assert dead[i] in dead;
    }
    SubsetCount(Ids(dead), DeadIds(s));
    if !(limit > 0 && |dead| == limit) {
      forall k | k in DeadIds(s)
        ensures k in Ids(dead)
      {
        var i :| 0 <= i < |dead| && dead[i] == s.messages[k];
        assert dead[i].id == k;
      }
      assert Ids(dead) == DeadIds(s);
    }
  }

  lemma SubsetCount(x: set<Id>, y: set<Id>)
    requires x <= y
    ensures |x| <= |y|
  {
    assert y == x + (y - x);
  }

  /** The first i of the dead messages were dealt with. */
  ghost predicate Reviving(s: State, t: State, dead: seq<Message>, i: nat)
    requires i <= |dead|
  {
    && t == s.(messages := t.messages) && t.messages.Keys == s.messages.Keys
    && (forall j :: 0 <= j < |dead| ==> dead[j].id in s.messages && s.messages[dead[j].id] == dead[j] && Dead(dead[j]))
    && DistinctIds(dead)
    && (forall j :: 0 <= j < i ==> t.messages[dead[j].id] == Revived(s.addresses, dead[j]))
    && (forall k :: k in s.messages && k !in Ids(dead[..i]) ==> t.messages[k] == s.messages[k])
  }

  lemma {:induction false} RevivingNothing(s: State, dead: seq<Message>)
    requires DistinctIds(dead)
    requires forall m :: m in dead ==> m.id in s.messages && s.messages[m.id] == m && Dead(m)
    ensures Reviving(s, s, dead, 0) && Revivable(s, Ids(dead[..0])) == {}
  {
    hide Dead;
    assert forall j :: 0 <= j < |dead| ==> dead[j] in dead;
  }

  lemma {:induction false} IdsNext(list: seq<Message>, i: nat)
    requires i < |list| && DistinctIds(list)
    ensures Ids(list[..i + 1]) == Ids(list[..i]) + {list[i].id} && list[i].id !in Ids(list[..i])
  {
    var before, after := list[..i], list[..i + 1];
    assert after == before + [list[i]];
    forall k
      ensures k in Ids(after) <==> k in Ids(before) || k == list[i].id
    {
      if k in Ids(before) {
        var j :| 0 <= j < |before| && before[j].id == k;
        assert after[j].id == k;
      }
      assert after[i].id == list[i].id;
    }
  }

  lemma {:induction false} RevivingNext(s: State, t: State, dead: seq<Message>, i: nat)
    requires i < |dead| && Reviving(s, t, dead, i)
    ensures var m := dead[i];
            var u := t.(messages := t.messages[m.id := Revived(s.addresses, m)]);
            && m.id in t.messages && t.messages[m.id] == m && Reviving(s, u, dead, i + 1)
            && (if Open(s.addresses, ReplayTarget(m))
                then |Revivable(s, Ids(dead[..i + 1]))| == |Revivable(s, Ids(dead[..i]))| + 1
                else u == t && Revivable(s, Ids(dead[..i + 1])) == Revivable(s, Ids(dead[..i])))
  {
    hide Dead, ReplayTarget, Ids;
    IdsNext(dead, i);
    var m := dead[i];
    var u := t.(messages := t.messages[m.id := Revived(s.addresses, m)]);
    assert u.messages.Keys == t.messages.Keys;
    assert Revivable(s, Ids(dead[..i + 1])) ==
           Revivable(s, Ids(dead[..i])) + if Open(s.addresses, ReplayTarget(m)) then {m.id} else {};
    if !Open(s.addresses, ReplayTarget(m)) {
      assert u.messages == t.messages;
    }
  }

  lemma {:induction false} RevivingAll(s: State, t: State, dead: seq<Message>)
    requires Reviving(s, t, dead, |dead|)
    ensures Replayed(s, t, Ids(dead))
  {
    hide Dead, Revived;
    assert dead[..|dead|] == dead;
    forall k | k in Ids(dead)
      ensures k in s.messages && Dead(s.messages[k]) && t.messages[k] == Revived(s.addresses, s.messages[k])
    {
      var j :| 0 <= j < |dead| && dead[j].id == k;
    }
  }

  /**
   A sweep takes exactly the messages that are available or released and have no time to live left,
   and says so in their headers; every other message stays as it is.
   */
  lemma {:induction false} SweptExactly(s: State, t: State, now: int, k: Id)
    requires Sound(s) && Swept(s, t, now) && k in s.messages
    ensures k in t.messages
    ensures var m, n := s.messages[k], t.messages[k];
            if (m.state == Available || m.state == Released) && (m.expiresAt == None || m.expiresAt.value < now)
            then && REASON in n.headers && n.headers[REASON] == "ttl-expired" && ORIGIN in n.headers
                 && n.headers[ORIGIN] == m.address && (n.state == DeadLettered || n.address != m.address)
                 && n.id == m.id && n.tx == m.tx && n.logOffset == m.logOffset
            else n == m
  {
    hide Buried, Sound;
    BuriedElsewhere(s, k, "ttl-expired");
  }

  /**
   Replay takes only dead-lettered and expired messages and those with an origin header; it sends
   them to that origin, or leaves them at their address without one, ready, marked and without a
   time to live, if that address exists and is not paused.  Every other message stays as it is.
   */
  lemma {:induction false} ReplayedExactly(s: State, t: State, chosen: set<Id>, k: Id)
    requires Replayed(s, t, chosen) && k in s.messages
    ensures k in t.messages
    ensures k in chosen ==> var m := s.messages[k];
              m.state == DeadLettered || m.state == Expired || (ORIGIN in m.headers && m.headers[ORIGIN] != "")
    ensures var m, n := s.messages[k], t.messages[k];
            var to := if ORIGIN in m.headers && m.headers[ORIGIN] != "" then m.headers[ORIGIN] else m.address;
            if k in chosen && to in s.addresses && !s.addresses[to].paused
            then n == m.(address := to, state := Available, expiresAt := None, redelivered := true)
            else n == m
  {}

  lemma {:induction false} SweptIsQuiet(s: State, t: State, now: int)
    requires Sound(s) && Swept(s, t, now)
    ensures Sound(t)
    ensures Isolated(s) ==> Quiet(s, t)
  {
    hide Buried, Isolated;
    forall k | k in s.messages && Due(s.messages[k], now)
      ensures var m, n := s.messages[k], t.messages[k];
              n.id == m.id && n.tx == m.tx && n.body == m.body && n.logOffset == m.logOffset && n.address in s.addresses
    {
      BuriedElsewhere(s, k, "ttl-expired");
    }
    ChangedIsQuiet(s, t);
  }

  lemma {:induction false} ReplayedIsQuiet(s: State, t: State, chosen: set<Id>)
    requires Sound(s) && Replayed(s, t, chosen)
    ensures Sound(t)
    ensures Isolated(s) ==> Quiet(s, t)
  {
    hide Isolated, HasOrigin;
    assert forall k :: k in s.messages ==> MessageSound(s, k);
    ChangedIsQuiet(s, t);
  }

  // ---------------------------------------------------------------- the service

  class Service {
    const store: Store
    const glob: Glob

    constructor (store: Store, glob: Glob)
      ensures this.store == store && this.glob == glob
    {
      this.store, this.glob := store, glob;
    }

    method DeadLetter(m: Message, reason: string) returns (r: Result<(), DeliveryError>)
      modifies store`messages
      ensures if m.address !in store.addresses
              then r == Err(AddressNotFound) && store.messages == old(store.messages)
              else if m.id !in old(store.messages)
              then r == Err(Storage(NotFound)) && store.messages == old(store.messages)
              else r == Ok(()) && store.messages == old(store.messages)[m.id := Buried(store.addresses, m, reason)]
    {
      if m.address !in store.addresses {
        return Err(AddressNotFound);
      }
      var a := store.addresses[m.address];
      var msg := m.(headers := m.headers[REASON := reason]);
      msg := msg.(headers := msg.headers[ORIGIN := m.address]);
      msg := msg.(state := DeadLettered);
      if a.deadLetter != "" {
        if a.deadLetter in store.addresses && !store.addresses[a.deadLetter].paused {
          msg := msg.(address := a.deadLetter, state := Available, expiresAt := None);
        }
      }
      var u := store.Update(msg);
      if u.Err? {
        return Err(Storage(u.error));
      }
      r := Ok(());
    }

    /**
     Dead-letters the lowest ranking ready messages until the address is within its maximum length:
     the best ones stay, nothing is lost, and nothing else changes.
     */
    method EnforceMaxLength(name: string) returns (r: Result<(), DeliveryError>, ghost victims: set<Id>)
      requires Sound(store.View())
      modifies store`messages
      ensures name !in store.addresses ==> r == Err(AddressNotFound) && store.View() == old(store.View())
      ensures name in store.addresses ==>
                var s, t, max := old(store.View()), store.View(), store.addresses[name].maxLength;
                && r == Ok(()) && Enforced(s, t, name, victims)
                && Ready(t, name) == Ready(s, name) - victims && WithinMax(t, name)
                && (max == 0 ==> t == s)
                && (max > 0 ==> |Ready(t, name)| == if |Ready(s, name)| <= max then |Ready(s, name)| else max)
    {
      hide Buried, Ready, Ahead, Sound, Trimmed, IsReadyList, Ids, Enforced;
      victims := {};
      ghost var s := store.View();
      TrimNothing(s);
      if name !in store.addresses {
        return Err(AddressNotFound), victims;
      }
      var a := store.addresses[name];
      if a.maxLength == 0 {
        assert Ready(s, name) - {} == Ready(s, name);
        UnlimitedEnforced(s, name);
        return Ok(()), victims;
      }
      SoundKeys(s);
      var ready, list := store.ListReady(name, 0);
      assert list[|list|..] == [];
      while |ready| > a.maxLength
        invariant ready <= list
        invariant |list| <= a.maxLength ==> ready == list
        invariant |list| > a.maxLength ==> |ready| >= a.maxLength
        invariant store.View() == s.(messages := store.messages)
        invariant Trimmed(s, store.View(), Ids(list[|ready|..]))
      {
        var victim := ready[|ready| - 1];
        NextVictim(s, store.View(), name, list, |ready|);
        var d := this.DeadLetter(victim, "max-length");  // cannot fail: the victim and its address are there
        ready := ready[..|ready| - 1];
      }
      victims := Ids(list[|ready|..]);
      TrimEnforces(s, store.View(), name, list, |ready|);
      r := Ok(());
    }

    /** The checks and the routing that Publish and Stage begin with. */
    method Admit(p: Publication) returns (r: Result<seq<R.Route>, DeliveryError>)
      requires Sound(store.View())
      ensures match r
              case Ok(routes) => Admits(store.View(), p, glob, routes)
                                 && forall i :: 0 <= i < |routes| ==> routes[i].destination in store.addresses
              case Err(e) => Refused(store.View(), p, glob, e)
    {
      hide R.IsResolution;
      if p.address !in store.addresses {
        return Err(AddressNotFound);
      }
      if store.addresses[p.address].paused {
        return Err(IngressPaused);
      }
      var routes := R.Resolve(store.addresses, store.bindings, p.address, p.routingKey, p.headers, glob);
      if routes.Err? {
        return Err(NoRoute);
      }
      if |routes.value| == 0 {
        return Err(Unroutable);
      }
      R.RoutesExist(store.addresses, store.bindings, p.address, p.routingKey, p.headers, glob, routes.value);
      r := Ok(routes.value);
    }

    /** One new message: an id, its body in the log, the message in the store. */
    method Insert(p: Publication, state: MessageState, now: int) returns (r: Result<Message, DeliveryError>)
      requires forall k :: k in store.messages ==> k < store.minted
      modifies store`messages, store`log, store`minted
      ensures var s, t := old(store.View()), store.View();
              match r
              case Err(e) =>
                && t == s.(minted := s.minted + 1)
                && e == (match NewMessage(s.minted, p, now) case Err(why) => why case Ok(_) => Storage(LogFailed))
              case Ok(m) =>
                && t == Stored(s, m)
                && NewMessage(s.minted, p, now).Ok?
                && m == NewMessage(s.minted, p, now).value.(state := state, logOffset := |s.log|)
                && m.id == s.minted && m.address == p.address
    {
      hide NewMessage;
      var id := store.Mint();
      MessageFields(id, p, now);
      var draft := NewMessage(id, p, now);
      if draft.Err? {
        return Err(draft.error);
      }
      var msg := draft.value.(state := state);
      var off := store.AppendBody(msg.body);
      if off.Err? {
        return Err(Storage(off.error));
      }
      msg := msg.(logOffset := off.value);
      var put := store.Put(msg);  // cannot conflict: the id is new
      r := Ok(msg);
    }

    /**
     Stores one message per route, out of reach until its transaction commits.  A refusal of the
     log can stop it halfway; what was stored by then stays.
     */
    method Stage(p: Publication, now: int)
      returns (out: seq<Message>, err: Option<DeliveryError>, ghost routes: seq<R.Route>)
      requires Sound(store.View())
      modifies store`messages, store`log, store`minted
      ensures StagedAs(old(store.View()), store.View(), p, glob, now, routes, out, err)
      ensures p.tx.Some? && p.address !in store.addresses ==>
                err == Some(AddressNotFound) && store.View() == old(store.View())
      ensures p.tx.Some? && p.address in store.addresses && store.addresses[p.address].paused ==>
                err == Some(IngressPaused) && store.View() == old(store.View())
      ensures Added(old(store.View()), store.View(), out) && Sound(store.View())
      ensures Isolated(old(store.View())) && !HasOrigin(p.headers) ==> Quiet(old(store.View()), store.View())
    {
      hide Sound, Isolated, Quiet, Added, Admits, NewMessage, Drafted, R.IsResolution;
      ghost var s := store.View();
      out, err, routes := [], None, [];
      AddedNothing(s, s.minted);
      AddedIsSound(s, s, out);
      if p.tx == None {
        return out, Some(TransactionRequired), routes;
      }
      var admitted := Admit(p);
      if admitted.Err? {
        return out, Some(admitted.error), routes;
      }
      routes := admitted.value;
      AdmittedOpen(s, p, glob, routes);
      DraftedNothing(s, p, routes, now, Acquired);
      var ttl := if p.ttl == 0 then store.addresses[p.address].defaultTtl else p.ttl;
      SoundKeys(s);
      for i := 0 to |admitted.value|
        invariant |out| == i && Added(s, store.View(), out)
        invariant store.View() == s.(messages := store.messages, log := store.log, minted := s.minted + i)
        invariant |store.log| == |s.log| + i && forall k :: k in store.messages ==> k < store.minted
        invariant Drafted(s, p, routes, now, Acquired, out)
      {
        ghost var before := store.View();
        var m := Insert(p.(address := admitted.value[i].destination, ttl := ttl), Acquired, now);
        if m.Err? {
          AddedMinted(s, before, out, store.minted);
          DraftsSound(s, store.View(), p, routes, now, out);
          return out, Some(m.error), routes;
        }
        AddedOneMore(s, before, out, m.value, store.View());
        DraftedOneMore(s, p, routes, now, Acquired, out, m.value);
        out := out + [m.value];
      }
      DraftsSound(s, store.View(), p, routes, now, out);
    }

    /** One route of a publication: a new message, and its address trimmed. */
    method File(p: Publication, now: int) returns (r: Result<Message, DeliveryError>, ghost victims: set<Id>)
      requires Sound(store.View()) && p.address in store.addresses
      modifies store`messages, store`log, store`minted
      ensures var s, t := old(store.View()), store.View();
              match r
              case Err(e) =>
                && t == s.(minted := s.minted + 1)
                && e == (match NewMessage(s.minted, p, now) case Err(why) => why case Ok(_) => Storage(LogFailed))
              case Ok(m) =>
                && Enforced(Stored(s, m), t, p.address, victims)
                && NewMessage(s.minted, p, now).Ok?
                && m == NewMessage(s.minted, p, now).value.(state := Available, logOffset := |s.log|)
                && m.id == s.minted && m.address == p.address
    {
      hide Sound, Enforced, NewMessage, Ready;
      ghost var s := store.View();
      SoundKeys(s);
      victims := {};
      r := Insert(p, Available, now);
      if r.Ok? {
        InsertedSound(s, r.value, store.View());
        var e;
        e, victims := EnforceMaxLength(p.address);  // cannot fail: the address exists
      }
    }

    /**
     Stores one message per route and trims each destination.  Without an error there is exactly
     one new message for each route, in order.
     */
    method Publish(p: Publication, now: int)
      returns (created: seq<Message>, err: Option<DeliveryError>, ghost routes: seq<R.Route>, ghost via: seq<State>)
      requires Sound(store.View())
      modifies store`messages, store`log, store`minted
      ensures Published(old(store.View()), store.View(), p, glob, now, routes, created, err, via)
      ensures Posted(old(store.View()), store.View(), created)
      ensures AtLevels(old(store.View()), Addressed(created), |created|, store.View())
      ensures err.None? ==> Addressed(created) == Destinations(routes)
      ensures Isolated(old(store.View())) && p.tx.None? ==> Quiet(old(store.View()), store.View())
      ensures Isolated(old(store.View())) && created != [] ==> (Isolated(store.View()) <==> p.tx.None?)
      ensures p.address !in store.addresses ==> err == Some(AddressNotFound) && store.View() == old(store.View())
      ensures p.address in store.addresses && store.addresses[p.address].paused ==>
                err == Some(IngressPaused) && store.View() == old(store.View())
    {
      hide Sound, Isolated, Quiet, Posted, Enforced, Admits, NewMessage, Ready, AtLevels, FiledAll, Drafted, R.IsResolution;
      ghost var s := store.View();
      created, err, routes, via := [], None, [], [s];
      FiledNothing(s);
      var admitted := Admit(p);
      if admitted.Err? {
        PublishedMeans(s, s, p, glob, now, routes, created, Some(admitted.error), via);
        return created, Some(admitted.error), routes, via;
      }
      routes := admitted.value;
      AdmittedOpen(s, p, glob, routes);
      DraftedNothing(s, p, routes, now, Available);
      var ttl := if p.ttl == 0 then store.addresses[p.address].defaultTtl else p.ttl;
      for i := 0 to |admitted.value|
        invariant |created| == i && |via| == i + 1 && FiledAll(s, created, via) && via[i] == store.View()
        invariant store.View() == s.(messages := store.messages, log := store.log, minted := s.minted + i)
        invariant |store.log| == |s.log| + i && Sound(store.View())
        invariant Drafted(s, p, routes, now, Available, created)
      {
        var m, victims := File(p.(address := admitted.value[i].destination, ttl := ttl), now);
        if m.Err? {
          PublishedMeans(s, store.View(), p, glob, now, routes, created, Some(m.error), via);
          return created, Some(m.error), routes, via;
        }
        FiledOneMore(s, created, via, m.value, store.View(), victims);
        DraftedOneMore(s, p, routes, now, Available, created, m.value);
        created, via := created + [m.value], via + [store.View()];
      }
      PublishedMeans(s, store.View(), p, glob, now, routes, created, None, via);
    }

    /** Makes a staged message visible and trims its address; refuses any other message. */
    method CommitStaged(id: Id) returns (r: Result<(), DeliveryError>, ghost victims: set<Id>)
      requires Sound(store.View())
      modifies store`messages
      ensures var s, t := old(store.View()), store.View();
              if id !in s.messages then r == Err(Storage(NotFound)) && t == s
              else if s.messages[id].state != Acquired || s.messages[id].tx == None then r == Err(NotStaged) && t == s
              else
                && r == Ok(())
                && var u := s.(messages := s.messages[id := Cleared(s.messages[id])]);
                   Sound(u) && Enforced(u, t, s.messages[id].address, victims) && WithinMax(t, s.messages[id].address)
    {
      hide Sound, Enforced, Ready;
      victims := {};
      if id !in store.messages {
        return Err(Storage(NotFound)), victims;
      }
      var m := store.messages[id];
      if m.state != Acquired || m.tx == None {
        return Err(NotStaged), victims;
      }
      ClearedSound(store.View(), id);
      SoundKeys(store.View());
      var n := m.(state := Available);
      n := n.(tx := None);
      var u := store.Update(n);  // cannot fail: the message is there
      r, victims := EnforceMaxLength(n.address);
    }

    /** Removes a staged message; refuses any other. */
    method RollbackStaged(id: Id) returns (r: Result<(), DeliveryError>)
      modifies store`messages
      ensures var s, t := old(store.View()), store.View();
              if id !in s.messages then r == Err(Storage(NotFound)) && t == s
              else if s.messages[id].tx == None then r == Err(NotStaged) && t == s
              else r == Ok(()) && t == s.(messages := s.messages - {id})
    {
      if id !in store.messages {
        return Err(Storage(NotFound));
      }
      if store.messages[id].tx == None {
        return Err(NotStaged);
      }
      var d := store.Delete(id);
      r := Ok(());
    }

    /** Dead-letters every undelivered message past its time, and counts them. */
    method SweepExpired(now: int) returns (n: nat)
      requires Sound(store.View())
      modifies store`messages
      ensures Swept(old(store.View()), store.View(), now) && n == |DueIds(old(store.View()), now)|
      ensures Isolated(old(store.View())) ==> Quiet(old(store.View()), store.View())
    {
      hide Buried, Due, Isolated, Quiet, Sound, Swept, DueIds, SweptOut, SweptIds;
      ghost var s := store.View();
      SoundKeys(s);
      var all := store.All();
      n := 0;
      ghost var swept: set<Id> := {};
      SweptNothing(s, all, now);
      for i := 0 to |all|
        invariant store.View() == s.(messages := store.messages)
        invariant SweptOut(s, store.View(), swept) && SweptIds(all, i, now, swept) && n == |swept|
      {
        var m := all[i];
        SweptNext(all, i, now, swept);
        if Due(m, now) {
          SweptOneMore(s, store.View(), swept, m);
          var d := DeadLetter(m, "ttl-expired");  // cannot fail: the message and its address are there
          n, swept := n + 1, swept + {m.id};
        }
      }
      SweptAll(s, store.View(), all, now, swept);
      SweptIsQuiet(s, store.View(), now);
    }

    /** Sends dead messages back where they came from, as many as the limit allows, and counts those that went. */
    method ReplayDead(limit: int) returns (n: nat, ghost chosen: set<Id>)
      requires Sound(store.View())
      modifies store`messages
      ensures Replayed(old(store.View()), store.View(), chosen) && n == |Revivable(old(store.View()), chosen)|
      ensures var dead := DeadIds(old(store.View()));
              |chosen| == if 0 < limit < |dead| then limit else |dead|
      ensures forall k :: k in DeadIds(old(store.View())) <==>
                && k in old(store.messages)
                && var m := old(store.messages)[k];
                m.state == DeadLettered || m.state == Expired || (ORIGIN in m.headers && m.headers[ORIGIN] != "")
      ensures Isolated(old(store.View())) ==> Quiet(old(store.View()), store.View())
    {
      hide Revived, Dead, Isolated, Quiet, Sound, DeadIds;
      ghost var s := store.View();
      SoundKeys(s);
      var all := store.All();
      var dead: seq<Message> := [];
      for i := 0 to |all|
        invariant forall m :: m in dead ==> m in all[..i] && Dead(m)
        invariant DistinctIds(dead)
        invariant forall j :: 0 <= j < i && Dead(all[j]) ==> all[j] in dead
        invariant limit > 0 ==> |dead| < limit
      {
        if Dead(all[i]) {
          assert forall m :: m in all[..i] ==> m.id != all[i].id;
          dead := dead + [all[i]];
          if limit > 0 && |dead| >= limit {
            break;
          }
        }
      }
      ChosenCount(s, all, dead, limit);
      DeadExactly(s);
      n := Revive(dead);
      chosen := Ids(dead);
    }

    /** The second loop of ReplayDead. */
    method Revive(dead: seq<Message>) returns (n: nat)
      requires Sound(store.View()) && DistinctIds(dead)
      requires forall m :: m in dead ==> m.id in store.messages && store.messages[m.id] == m && Dead(m)
      modifies store`messages
      ensures Replayed(old(store.View()), store.View(), Ids(dead))
      ensures n == |Revivable(old(store.View()), Ids(dead))|
      ensures Isolated(old(store.View())) ==> Quiet(old(store.View()), store.View())
    {
      hide Dead, HasOrigin, Isolated, Quiet, Sound, Reviving, Replayed, Revivable, ReplayTarget;
      ghost var s := store.View();
      n := 0;
      RevivingNothing(s, dead);
      for i := 0 to |dead|
        invariant store.View() == s.(messages := store.messages)
        invariant Reviving(s, store.View(), dead, i) && n == |Revivable(s, Ids(dead[..i]))|
      {
        var m := dead[i];
        RevivingNext(s, store.View(), dead, i);
        var target := ReplayTarget(m);
        if target !in store.addresses || store.addresses[target].paused {
          continue;
        }
        m := m.(address := target, state := Available, expiresAt := None, redelivered := true);
        var u := store.Update(m);
        n := n + 1;
      }
      assert dead[..|dead|] == dead;
      RevivingAll(s, store.View(), dead);
      ReplayedIsQuiet(s, store.View(), Ids(dead));
    }

    /** A best ready message of an address. */
    method Head(address: string) returns (r: Option<Message>)
      requires Sound(store.View())
      ensures match r
              case None => Ready(store.View(), address) == {}
              case Some(m) => && m.id in Ready(store.View(), address) && store.messages[m.id] == m
                              && forall k :: k in Ready(store.View(), address) ==> !Ahead(store.messages[k], m)
    {
      hide Ahead, Sound, IsReadyList, Ready;
      SoundKeys(store.View());
      var ready, full := store.ListReady(address, 1);
      ReadyAreIds(store.View(), address, full);
      if |ready| == 0 {
        assert Ready(store.View(), address) == {};
        return None;
      }
      FirstIsBest(store.View(), address, full);
      r := Some(ready[0]);
    }

    /** Hands the best ready message of the consumer's address to the consumer, with its body from the log. */
    method Acquire(consumer: string, now: int) returns (r: Result<Message, DeliveryError>)
      requires Sound(store.View())
      modifies store`messages
      ensures Dispatched(old(store.View()), store.View(), consumer, now, r)
      ensures Isolated(old(store.View())) ==> Quiet(old(store.View()), store.View())
    {
      hide Isolated, Quiet, Ahead, Buried, Sound, Ready, Dispatched;
      ghost var s := store.View();
      SoundKeys(s);
      if consumer !in store.consumers {
        RefusedDispatch(s, consumer, now, ConsumerNotFound);
        return Err(ConsumerNotFound);
      }
      var c := store.consumers[consumer];
      if c.credit == 0 {
        RefusedDispatch(s, consumer, now, CreditExhausted);
        return Err(CreditExhausted);
      }
      var head := Head(c.address);
      if head == None {
        RefusedDispatch(s, consumer, now, NothingAvailable);
        return Err(NothingAvailable);
      }
      var m := head.value;
      ReadyStored(s, c.address, m.id);
      if ExpiredAt(m, now) {
        var d := DeadLetter(m, "ttl-expired");
        ExpiredDispatch(s, store.View(), consumer, now, m);
        return Err(MessageExpired);
      }
      if !c.connected {
        RefusedDispatch(s, consumer, now, Disconnected);
        return Err(Disconnected);
      }
      m := Taken(m, c.atMostOnce);
      var u := store.Update(m);
      m := m.(body := store.log[m.logOffset]);
      r := Ok(m);
      TakenDispatch(s, store.View(), consumer, now, m.id);
    }
  }

  lemma {:induction false} ReadyStored(s: State, address: string, k: Id)
    requires Sound(s) && k in Ready(s, address)
    ensures k in s.messages && s.messages[k].address in s.addresses && 0 <= s.messages[k].logOffset < |s.log|
  {
    assert MessageSound(s, k);
  }

  lemma {:induction false} OneChangeIsQuiet(s: State, t: State)
    requires Sound(s) && t == s.(messages := t.messages) && t.messages.Keys == s.messages.Keys
    requires forall k :: k in s.messages ==>
               var m, n := s.messages[k], t.messages[k];
               || n == m
               || (&& n.id == m.id && n.tx == m.tx && n.body == m.body && n.logOffset == m.logOffset
                   && n.address in s.addresses && m.state != Acquired)
    ensures Isolated(s) ==> Quiet(s, t)
  {
    hide Sound, Isolated, Quiet;
    ChangedIsQuiet(s, t);
  }

  lemma {:induction false} FirstIsBest(s: State, address: string, list: seq<Message>)
    requires Sound(s) && IsReadyList(s, address, list) && list != []
    ensures list[0].id in Ready(s, address) && s.messages[list[0].id] == list[0]
    ensures forall k :: k in Ready(s, address) ==> !Ahead(s.messages[k], list[0])
  {
    hide Sound;
    assert list[0] in list;
    AheadIsOrder();
    forall k | k in Ready(s, address)
      ensures !Ahead(s.messages[k], list[0])
    {
      var i :| 0 <= i < |list| && list[i] == s.messages[k];
    }
  }

  lemma {:induction false} ClearedSound(s: State, id: Id)
    requires Sound(s) && id in s.messages
    ensures Sound(s.(messages := s.messages[id := Cleared(s.messages[id])]))
    ensures s.messages[id].address in s.addresses
  {
    var u := s.(messages := s.messages[id := Cleared(s.messages[id])]);
    forall k | k in u.messages
      ensures MessageSound(u, k)
    {
      assert MessageSound(s, k);
    }
    assert MessageSound(s, id);
  }

  lemma {:induction false} PostedNothing(s: State)
    requires Sound(s)
    ensures Posted(s, s, [])
  {}

  lemma {:induction false} PostedDrafts(s: State, t: State, p: Publication, routes: seq<R.Route>, now: int, created: seq<Message>)
    requires Posted(s, t, created) && (created == [] || Drafted(s, p, routes, now, Available, created))
    ensures Isolated(s) && p.tx.None? ==> Quiet(s, t)
    ensures Isolated(s) && created != [] ==> (Isolated(t) <==> p.tx.None?)
  {
    hide Isolated, Posted, NewMessage, QuietBut;
    forall i | 0 <= i < |created|
      ensures created[i].tx == p.tx && created[i].state == Available
    {
      MessageFields(s.minted + i, p.(address := routes[i].destination, ttl := Ttl(s, p)), now);
    }
    if Isolated(s) {
      PostedIsolation(s, t, created, p.tx);
      assert Quiet(s, t) ==> Isolated(t) by {
        QuietIsolates(s, t);
      }
    }
  }

  lemma {:induction false} QuietIsolates(s: State, t: State)
    ensures Quiet(s, t) ==> Sound(t) && Isolated(t)
  {}

  lemma {:induction false} InsertedSound(t: State, m: Message, u: State)
    requires Sound(t) && m.id == t.minted && m.logOffset == |t.log| && m.address in t.addresses
    requires u == t.(messages := t.messages[m.id := m], log := t.log + [m.body], minted := t.minted + 1)
    ensures Sound(u)
  {
    hide Sound;
    SoundKeys(t);
    AddedNothing(t, t.minted);
    AddedOneMore(t, t, [], m, u);
    AddedIsSound(t, u, [] + [m]);
  }

  lemma {:induction false} AddedMinted(s: State, t: State, out: seq<Message>, minted: Id)
    requires Added(s, t, out) && t.minted <= minted
    ensures Added(s, t.(minted := minted), out)
  {}

  lemma {:induction false} MessageFields(id: Id, p: Publication, now: int)
    ensures var r := NewMessage(id, p, now);
            r.Ok? ==> && r.value.id == id && r.value.address == p.address && r.value.body == p.body
                      && r.value.state == Available && r.value.tx == p.tx && r.value.headers == p.headers
  {}

  lemma {:induction false} DraftsSound(s: State, t: State, p: Publication, routes: seq<R.Route>, now: int, out: seq<Message>)
    requires Sound(s) && Added(s, t, out) && Drafted(s, p, routes, now, Acquired, out)
    ensures Sound(t)
    ensures Isolated(s) && !HasOrigin(p.headers) ==> Quiet(s, t)
  {
    hide Sound, Isolated, Quiet, Added, NewMessage;
    forall i | 0 <= i < |out|
      ensures !HasOrigin(p.headers) ==> OutOfReach(out[i])
    {
      MessageFields(s.minted + i, p.(address := routes[i].destination, ttl := Ttl(s, p)), now);
    }
    AddedIsSound(s, t, out);
  }

  lemma {:induction false} UnlimitedEnforced(s: State, name: string)
    requires Sound(s) && name in s.addresses && s.addresses[name].maxLength == 0
    ensures Enforced(s, s, name, {}) && WithinMax(s, name)
  {
    hide Sound;
    TrimNothing(s);
  }

  lemma {:induction false} TrimEnforces(s: State, t: State, name: string, list: seq<Message>, n: nat)
    requires Sound(s) && IsReadyList(s, name, list) && n <= |list| && Trimmed(s, t, Ids(list[n..]))
    requires name in s.addresses && n == |list| - Excess(s.addresses, name, |list|)
    ensures Enforced(s, t, name, Ids(list[n..]))
    ensures Ready(t, name) == Ready(s, name) - Ids(list[n..]) && WithinMax(t, name)
    ensures |Ready(s, name)| == |list| && |Ready(t, name)| == n
  {
    hide Sound, Trimmed, Ready, Ids, Ahead;
    assert t.addresses == s.addresses by {
      TrimmedFrame(s, t, Ids(list[n..]));
    }
    TrimKeepsBest(s, t, name, list, n);
    ReadyAreIds(s, name, list);
    VictimsReady(list, n);
    assert DistinctIds(list[n..]);
    IdsCount(list[n..]);
    ReadyKnown(s, name);
  }

  lemma {:induction false} ReadyKnown(s: State, name: string)
    ensures forall k :: k in Ready(s, name) ==> k in s.messages
  {}

  lemma {:induction false} AdmittedOpen(s: State, p: Publication, glob: Glob, routes: seq<R.Route>)
    requires Admits(s, p, glob, routes)
    ensures p.address in s.addresses && !s.addresses[p.address].paused
  {}

  lemma {:induction false} FiledNothing(s: State)
    ensures FiledAll(s, [], [s])
  {}

  lemma {:induction false} VictimsReady(list: seq<Message>, n: nat)
    requires n <= |list|
    ensures Ids(list[n..]) <= Ids(list)
  {
    forall k | k in Ids(list[n..])
      ensures k in Ids(list)
    {
      var j :| 0 <= j < |list| - n && list[n..][j].id == k;
      assert list[n + j].id == k;
    }
  }

  lemma {:induction false} SoundKeys(s: State)
    requires Sound(s)
    ensures forall k :: k in s.messages ==> s.messages[k].id == k < s.minted
  {
    assert forall k :: k in s.messages ==> MessageSound(s, k);
  }

  lemma {:induction false} TrimNothing(s: State)
    requires Sound(s)
    ensures Trimmed(s, s, {}) && Ids([]) == {}
  {
    hide Sound;
  }

  lemma {:induction false} TrimOneMore(s: State, t: State, victims: set<Id>, k: Id)
    requires Sound(s) && Trimmed(s, t, victims) && k in s.messages
    ensures s.messages[k].address in s.addresses && k in t.messages
    ensures var u := t.(messages := t.messages[k := Buried(s.addresses, s.messages[k], "max-length")]);
            Trimmed(s, u, {k} + victims)
  {
    hide Buried;
    assert MessageSound(s, k);
    var u := t.(messages := t.messages[k := Buried(s.addresses, s.messages[k], "max-length")]);
    assert u.messages.Keys == s.messages.Keys;
  }

  /** The last of the remaining ready messages is still as listed, and burying it trims one more. */
  lemma {:induction false} NextVictim(s: State, t: State, name: string, list: seq<Message>, n: nat)
    requires Sound(s) && IsReadyList(s, name, list) && 0 < n <= |list|
    requires Trimmed(s, t, Ids(list[n..]))
    ensures var v := list[n - 1];
            && t.addresses == s.addresses && v.address in s.addresses && v.id in t.messages
            && Trimmed(s, t.(messages := t.messages[v.id := Buried(s.addresses, v, "max-length")]), Ids(list[n - 1..]))
  {
    hide Buried, Ahead, Sound, Ids;
    var v := list[n - 1];
    assert v in list;
    TrimOneMore(s, t, Ids(list[n..]), v.id);
    assert list[n - 1..] == [v] + list[n..];
    IdsOneMore(v, list[n..]);
  }

  lemma {:induction false} IdsOneMore(m: Message, list: seq<Message>)
    ensures Ids([m] + list) == {m.id} + Ids(list)
  {
    forall k
      ensures k in Ids([m] + list) <==> k == m.id || k in Ids(list)
    {
      if k in Ids(list) {
        var i :| 0 <= i < |list| && list[i].id == k;
        assert ([m] + list)[i + 1].id == k;
      }
      assert ([m] + list)[0].id == m.id;
    }
  }
}
