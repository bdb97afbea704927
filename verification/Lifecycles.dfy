/** Deadlines of transactions and the life of a message, over every run of the broker. */
module Lifecycles {
  import opened Wrappers
  import opened Addresses
  import opened Broker
  import opened Queues
  import R = Router
  import D = Delivery
  import T = Transactions
  import C = Consumers
  import A = Administration
  import Restart
  import opened Calls
  import opened BrokerRuns

  // ---------------------------------------------------------------- deadlines

  /** A step keeps the terms on which a transaction was declared. */
  lemma {:induction false} StepKeepsTerms(s: State, u: State, x: Id)
    requires Inv(s) && Step(s, u) && x in s.transactions
    ensures x in u.transactions
    ensures var tx, after := s.transactions[x], u.transactions[x];
            && after.connection == tx.connection && after.createdAt == tx.createdAt && after.expiresAt == tx.expiresAt
  {
    hide QuietBut, Fate;
    assert JournalEntry(s, x);
  }

  /** A transaction declared by this event is under its id for ever, with the deadline it got then. */
  lemma {:induction false} TermsForever(cfg: Config, run: seq<State>, events: seq<Event>, d: nat, i: nat, connection: string)
    requires GoodRun(cfg, run, events) && d < i < |run|
    requires events[d].call == Declare(connection) && connection != ""
    ensures var x := run[d].minted;
            && x in run[i].transactions && run[i].transactions[x].connection == connection
            && run[i].transactions[x].createdAt == events[d].now
            && run[i].transactions[x].expiresAt == Deadline(cfg, events[d].now)
    decreases i
  {
    hide Inv, Step, History;
    RunLength(cfg, run, events);
    if i == d + 1 {
      DeclaredBy(cfg, run, events, d, connection);
    } else {
      TermsForever(cfg, run, events, d, i - 1, connection);
      StepAt(cfg, run, events, i - 1);
      StepKeepsTerms(run[i - 1], run[i], run[d].minted);
    }
  }

  /** The configured time after the declaration, or thirty seconds. */
  function Deadline(cfg: Config, declared: int): int {
    if cfg.ttl > 0 then declared + cfg.ttl else declared + 30_000_000_000
  }

  lemma {:induction false} DeclaredBy(cfg: Config, run: seq<State>, events: seq<Event>, d: nat, connection: string)
    requires GoodRun(cfg, run, events) && d < |events|
    requires events[d].call == Declare(connection) && connection != ""
    ensures var x := run[d].minted;
            && x in run[d + 1].transactions
            && run[d + 1].transactions[x] ==
               Transaction(x, connection, Active, events[d].now, Deadline(cfg, events[d].now), None, [], 1)
  {
    hide Inv, Allowed;
    assert Does(cfg, run[d], events[d], run[d + 1]);
  }

  /**
   A commit makes a declared transaction Committed exactly when it is still active and the deadline
   it got when it was declared is not reached; a late one is timed out, a finished one left alone.
   */
  lemma {:induction false} CommitsExactlyInTime(cfg: Config, run: seq<State>, events: seq<Event>, d: nat, i: nat,
                                                connection: string)
    requires GoodRun(cfg, run, events) && d < i < |events|
    requires events[d].call == Declare(connection) && connection != "" && events[i].call == Commit(run[d].minted)
    ensures var x, now, deadline := run[d].minted, events[i].now, Deadline(cfg, events[d].now);
            && x in run[i].transactions && x in run[i + 1].transactions
            && var tx, after := run[i].transactions[x], run[i + 1].transactions[x];
               && (tx.state == Active && now < deadline <==> tx.state == Active && after.state == Committed)
               && (tx.state == Active && deadline <= now <==> tx.state == Active && after.state == TimedOut)
               && (tx.state == Active ==> after.completedAt == Some(now) && after.operations == tx.operations)
               && (tx.state != Active ==> run[i + 1] == run[i])
  {
    hide Inv, Allowed, T.ShownAll, StagedUnder;
    RunLength(cfg, run, events);
    TermsForever(cfg, run, events, d, i, connection);
    assert Does(cfg, run[i], events[i], run[i + 1]);
    var via :| T.Committing(run[i], run[i + 1], run[d].minted, events[i].now, via);
  }

  /** A sweep times out a declared transaction exactly when it is still active and its deadline is reached. */
  lemma {:induction false} SweepsExactlyTheLate(cfg: Config, run: seq<State>, events: seq<Event>, d: nat, i: nat,
                                                connection: string)
    requires GoodRun(cfg, run, events) && d < i < |events|
    requires events[d].call == Declare(connection) && connection != "" && events[i].call == Sweep
    ensures var x := run[d].minted;
            && x in run[i].transactions && x in run[i + 1].transactions
            && var tx, after := run[i].transactions[x], run[i + 1].transactions[x];
               if tx.state == Active && Deadline(cfg, events[d].now) <= events[i].now
               then after.state == TimedOut && after.completedAt == Some(events[i].now)
               else after == tx
  {
    hide Inv, Allowed, StagedUnder;
    RunLength(cfg, run, events);
    TermsForever(cfg, run, events, d, i, connection);
    assert Does(cfg, run[i], events[i], run[i + 1]);
  }

  /** Nothing is staged under a transaction at or after its deadline. */
  lemma {:induction false} StagesOnlyInTime(cfg: Config, run: seq<State>, events: seq<Event>, d: nat, i: nat,
                                            connection: string, p: D.Publication)
    requires GoodRun(cfg, run, events) && d < i < |events|
    requires events[d].call == Declare(connection) && connection != ""
    requires events[i].call == StagePublish(run[d].minted, p)
    ensures var x := run[d].minted;
            && x in run[i].transactions && x in run[i + 1].transactions
            && var tx, after := run[i].transactions[x], run[i + 1].transactions[x];
               after != tx ==> tx.state == Active && events[i].now < Deadline(cfg, events[d].now)
  {
    hide Inv, Allowed, D.StagedAs;
    RunLength(cfg, run, events);
    TermsForever(cfg, run, events, d, i, connection);
    assert Does(cfg, run[i], events[i], run[i + 1]);
    var routes, kept, err :| T.Staging(run[i], run[i + 1], run[d].minted, p, cfg.glob, events[i].now, routes, kept, err);
  }

  // ---------------------------------------------------------------- delivery

  /**
   A message that is handed out was ready, not past its time, and none ranked before it; it stops
   being ready anywhere.  Its state says whether the consumer still owes an answer, its deliveries
   are counted, and neither anything else of it nor any other message changes.
   */
  lemma {:induction false} HandedOut(s: State, u: State, consumer: string, now: int, m: Message)
    requires Sound(s) && D.Dispatched(s, u, consumer, now, Ok(m))
    ensures consumer in s.consumers && s.consumers[consumer].connected && s.consumers[consumer].credit > 0
    ensures m.id in s.messages && m.id in u.messages
    ensures var was, c := s.messages[m.id], s.consumers[consumer];
            && was.address == c.address && was.state == Available
            && was.expiresAt.Some? && now <= was.expiresAt.value
            && (forall k :: k in s.messages && s.messages[k].address == c.address && s.messages[k].state == Available ==>
                  var o := s.messages[k];
                  o.priority < was.priority || (o.priority == was.priority && was.createdAt <= o.createdAt))
    ensures var was, after := s.messages[m.id], u.messages[m.id];
            && after.state == (if s.consumers[consumer].atMostOnce then Accepted else Acquired)
            && after.deliveryCount == was.deliveryCount + 1
            && (after.redelivered <==> was.deliveryCount > 0)
            && after.(state := was.state, deliveryCount := was.deliveryCount, redelivered := was.redelivered) == was
            && 0 <= was.logOffset < |s.log| && m == after.(body := s.log[was.logOffset])
    ensures forall a :: m.id !in Ready(u, a)
    ensures u == s.(messages := u.messages) && u.messages.Keys == s.messages.Keys
    ensures forall k :: k in s.messages && k != m.id ==> u.messages[k] == s.messages[k]
  {
    hide Sound;
    D.SoundKeys(s);
    forall k | k in s.messages && s.messages[k].address == s.consumers[consumer].address && s.messages[k].state == Available
      ensures !Ahead(s.messages[k], s.messages[m.id])
    {
      assert k in Ready(s, s.consumers[consumer].address);
    }
  }

  /** The event hands the message out. */
  ghost predicate Serves(s: State, u: State, e: Event, k: Id) {
    e.call.Acquire? && exists m :: D.Dispatched(s, u, e.call.consumer, e.now, Ok(m)) && m.id == k
  }

  /** The message can never be handed out again: where it is ready it has no time left to live. */
  predicate Spent(m: Message) {
    m.tx == None && (m.state == Available ==> m.expiresAt == None)
  }

  lemma {:induction false} TransactionCallKeepsSpent(cfg: Config, s: State, e: Event, u: State, k: Id)
    requires Inv(s) && Allowed(e.call) && Does(cfg, s, e, u) && k in s.messages && Spent(s.messages[k])
    requires e.call.Declare? || e.call.StagePublish? || e.call.Commit? || e.call.Rollback? || e.call.Sweep?
    ensures k in u.messages && Spent(u.messages[k])
  {
    hide Inv, HasOrigin, T.Staging, T.Committing, T.Undone;
    match e.call {
      case Declare(_) =>
      case StagePublish(x, p) =>
        var routes, kept, err :| T.Staging(s, u, x, p, cfg.glob, e.now, routes, kept, err);
        StagingKeeps(s, u, x, p, cfg, e.now, routes, kept, err, k);
      case Commit(x) =>
        var via :| T.Committing(s, u, x, e.now, via);
        CommittingKeepsSpent(s, u, x, e.now, via, k);
      case Rollback(x) =>
        if x in s.transactions && s.transactions[x].state == Active {
          UndoneKeeps(s, u, {x}, RolledBack, e.now, k);
        }
      case Sweep =>
        UndoneKeeps(s, u, T.Late(s, e.now), TimedOut, e.now, k);
    }
  }

  lemma {:induction false} StagingKeeps(s: State, u: State, x: Id, p: D.Publication, cfg: Config, now: int,
                                        routes: seq<R.Route>, kept: seq<Message>, err: Option<T.TransactionError>, k: Id)
    requires T.Staging(s, u, x, p, cfg.glob, now, routes, kept, err) && k in s.messages
    ensures k in u.messages && u.messages[k] == s.messages[k]
  {
    hide D.Refused, D.Admits, D.Drafted, D.Breaks;
  }

  /** Undoing active transactions removes no message outside a transaction. */
  lemma {:induction false} UndoneKeeps(s: State, u: State, done: set<Id>, to: TransactionState, now: int, k: Id)
    requires Inv(s) && T.Undone(s, u, done, to, now) && k in s.messages && s.messages[k].tx == None
    requires forall x :: x in done ==> x in s.transactions && s.transactions[x].state == Active
    ensures k in u.messages && u.messages[k] == s.messages[k]
  {
    hide Sound, Isolated, Ended;
    if StagedUnder(s, done, k) {
      var x :| x in done && x in s.transactions && k in s.transactions[x].Staged();
      StagedFate(s, x, k);
      assert false;
    }
  }

  lemma {:induction false} CommittingKeepsSpent(s: State, u: State, x: Id, now: int, via: seq<State>, k: Id)
    requires Inv(s) && T.Committing(s, u, x, now, via) && k in s.messages && Spent(s.messages[k])
    ensures k in u.messages && Spent(u.messages[k])
  {
    hide Inv, T.ShownAll, T.Undone, Finished, AtLevels, Step;
    T.CommittingMeans(s, u, x, now, via);
    if x in s.transactions && s.transactions[x].state == Active {
      if s.transactions[x].expiresAt <= now {
        UndoneKeeps(s, u, {x}, TimedOut, now, k);
      } else {
        NotStaged(s, x, k);
        DescendsSpent(s.messages[k], u.messages[k]);
      }
    }
  }

  lemma {:induction false} NotStaged(s: State, x: Id, k: Id)
    requires Inv(s) && x in s.transactions && s.transactions[x].state == Active && k in s.messages && s.messages[k].tx == None
    ensures k !in s.transactions[x].Staged()
  {
    hide Sound, Isolated;
    StagedFate(s, x, k);
  }

  lemma {:induction false} DescendsSpent(m: Message, n: Message)
    requires D.Descends(m, n) && Spent(m)
    ensures Spent(n)
  {}

  lemma {:induction false} BuriedSpent(s: State, m: Message, reason: string)
    requires Spent(m)
    ensures Spent(Buried(s.addresses, m, reason))
  {}

  lemma {:induction false} DeliveryCallKeepsSpent(cfg: Config, s: State, e: Event, u: State, k: Id)
    requires Sound(s) && Allowed(e.call) && Does(cfg, s, e, u) && k in s.messages && Spent(s.messages[k])
    requires e.call.Publish? || e.call.SweepExpired? || e.call.ReplayDead? || e.call.Acquire?
    ensures k in u.messages && Spent(u.messages[k])
  {
    hide Sound, D.Published, D.Swept, D.Replayed, D.Dispatched, Spent;
    match e.call {
      case Publish(p) =>
        var routes, created, err, via :| D.Published(s, u, p, cfg.glob, e.now, routes, created, err, via);
        PublishedKeepsSpent(cfg, s, u, p, e.now, routes, created, err, via, k);
      case SweepExpired =>
        SweptKeepsSpent(s, u, e.now, k);
      case ReplayDead(limit) =>
        var chosen :| D.Replayed(s, u, chosen) && |chosen| == Limited(limit, |D.DeadIds(s)|);
        ReplayedKeepsSpent(s, u, chosen, k);
      case Acquire(consumer) =>
        var r :| D.Dispatched(s, u, consumer, e.now, r);
        DispatchedKeepsSpent(s, u, consumer, e.now, r, k);
    }
  }

  lemma {:induction false} PublishedKeepsSpent(cfg: Config, s: State, u: State, p: D.Publication, now: int,
                                               routes: seq<R.Route>, created: seq<Message>, err: Option<D.DeliveryError>,
                                               via: seq<State>, k: Id)
    requires Sound(s) && D.Published(s, u, p, cfg.glob, now, routes, created, err, via)
    requires k in s.messages && Spent(s.messages[k])
    ensures k in u.messages && Spent(u.messages[k])
  {
    hide Sound, D.Published, Isolated, Quiet, AtLevels;
    D.PublishedMeans(s, u, p, cfg.glob, now, routes, created, err, via);
    DescendsSpent(s.messages[k], u.messages[k]);
  }

  lemma {:induction false} SweptKeepsSpent(s: State, u: State, now: int, k: Id)
    requires D.Swept(s, u, now) && k in s.messages && Spent(s.messages[k])
    ensures k in u.messages && Spent(u.messages[k])
  {
    hide Buried, D.Due;
    BuriedSpent(s, s.messages[k], "ttl-expired");
  }

  lemma {:induction false} ReplayedKeepsSpent(s: State, u: State, chosen: set<Id>, k: Id)
    requires D.Replayed(s, u, chosen) && k in s.messages && Spent(s.messages[k])
    ensures k in u.messages && Spent(u.messages[k])
  {
    hide D.Dead, D.ReplayTarget;
  }

  lemma {:induction false} DispatchedKeepsSpent(s: State, u: State, consumer: string, now: int,
                                                r: Result<Message, D.DeliveryError>, k: Id)
    requires D.Dispatched(s, u, consumer, now, r) && k in s.messages && Spent(s.messages[k])
    ensures k in u.messages && Spent(u.messages[k])
  {
    hide Buried, Ahead, D.Undeliverable;
    BuriedSpent(s, s.messages[k], "ttl-expired");
  }

  lemma {:induction false} OtherCallKeepsSpent(cfg: Config, s: State, e: Event, u: State, k: Id)
    requires Sound(s) && Does(cfg, s, e, u) && k in s.messages && Spent(s.messages[k])
    requires e.call.Register? || e.call.Settle? || e.call.Disconnect? || e.call.CreateAddress? || e.call.SetPaused?
             || e.call.Bind? || e.call.Reboot?
    ensures k in u.messages && Spent(u.messages[k])
  {
    hide Sound, C.Settled, C.Left, C.Registered, A.Created, A.Paused, A.Bound, Restart.Restored, Spent;
    match e.call {
      case Settle(consumer, delivery, outcome) => C.NothingHeld(s, consumer, delivery, outcome);
      case Disconnect(consumer) => C.NothingHeld(s, consumer, 0, Accepted);
      case Reboot => RestoredKeepsSpent(s, k);
      case Register(id, address, prefetch, sem) => RegisteredFrame(s, id, address, prefetch, sem);
      case CreateAddress(c) => CreatedFrame(s, c);
      case SetPaused(name, paused) => PausedFrame(s, name, paused);
      case Bind(b) => BoundFrame(s, b);
    }
  }

  lemma {:induction false} RestoredKeepsSpent(s: State, k: Id)
    requires k in s.messages && Spent(s.messages[k])
    ensures k in Restart.Restored(s).messages && Spent(Restart.Restored(s).messages[k])
  {
    hide Restart.Held;
  }

  lemma {:induction false} RegisteredFrame(s: State, id: string, address: string, prefetch: nat, sem: C.Semantics)
    ensures C.Registered(s, id, address, prefetch, sem).0.messages == s.messages
  {
    hide C.NewConsumer;
  }

  lemma {:induction false} CreatedFrame(s: State, c: A.Create)
    ensures A.Created(s, c).0.messages == s.messages
  {
    hide A.NewAddress;
  }

  lemma {:induction false} PausedFrame(s: State, name: string, paused: bool)
    ensures A.Paused(s, name, paused).0.messages == s.messages
  {}

  lemma {:induction false} BoundFrame(s: State, b: Binding)
    ensures A.Bound(s, b).0.messages == s.messages
  {}

  lemma {:induction false} SpentForever(cfg: Config, run: seq<State>, events: seq<Event>, i: nat, j: nat, k: Id)
    requires GoodRun(cfg, run, events) && i <= j < |run| && k in run[i].messages && Spent(run[i].messages[k])
    ensures k in run[j].messages && Spent(run[j].messages[k])
    decreases j
  {
    hide Inv, Does, Allowed, Spent;
    if i < j {
      SpentForever(cfg, run, events, i, j - 1, k);
      InvAlways(cfg, run, events, j - 1);
      CallKeepsSpent(cfg, run[j - 1], events[j - 1], run[j], k);
    }
  }

  lemma {:induction false} CallKeepsSpent(cfg: Config, s: State, e: Event, u: State, k: Id)
    requires Inv(s) && Allowed(e.call) && Does(cfg, s, e, u) && k in s.messages && Spent(s.messages[k])
    ensures k in u.messages && Spent(u.messages[k])
  {
    hide Inv, Does, Allowed, Spent, Sound, Isolated, Quiet;
    T.InvParts(s);
    match e.call {
      case Declare(_) => TransactionCallKeepsSpent(cfg, s, e, u, k);
      case StagePublish(_, _) => TransactionCallKeepsSpent(cfg, s, e, u, k);
      case Commit(_) => TransactionCallKeepsSpent(cfg, s, e, u, k);
      case Rollback(_) => TransactionCallKeepsSpent(cfg, s, e, u, k);
      case Sweep => TransactionCallKeepsSpent(cfg, s, e, u, k);
      case Publish(_) => DeliveryCallKeepsSpent(cfg, s, e, u, k);
      case SweepExpired => DeliveryCallKeepsSpent(cfg, s, e, u, k);
      case ReplayDead(_) => DeliveryCallKeepsSpent(cfg, s, e, u, k);
      case Acquire(_) => DeliveryCallKeepsSpent(cfg, s, e, u, k);
      case _ => OtherCallKeepsSpent(cfg, s, e, u, k);
    }
  }

  /**
   No message is ever handed out twice, whatever the consumers, restarts, sweeps and replays in
   between: whatever makes it ready again also takes its time to live away, and a message without
   one counts as expired.
   */
  lemma {:induction false} ServedOnce(cfg: Config, run: seq<State>, events: seq<Event>, i: nat, j: nat, k: Id)
    requires GoodRun(cfg, run, events) && i < j < |events|
    requires Serves(run[i], run[i + 1], events[i], k)
    ensures !Serves(run[j], run[j + 1], events[j], k)
  {
    hide Inv, Does, Allowed, Spent;
    InvAlways(cfg, run, events, i);
    InvAlways(cfg, run, events, j);
    ServedIsSpent(run[i], run[i + 1], events[i], k);
    SpentForever(cfg, run, events, i + 1, j, k);
    SpentIsNotServed(run[j], run[j + 1], events[j], k);
  }

  lemma {:induction false} ServedIsSpent(s: State, u: State, e: Event, k: Id)
    requires Inv(s) && Serves(s, u, e, k)
    ensures k in u.messages && Spent(u.messages[k])
  {
    hide Journal, HasOrigin;
    var m :| D.Dispatched(s, u, e.call.consumer, e.now, Ok(m)) && m.id == k;
    HandedOut(s, u, e.call.consumer, e.now, m);
    assert OutOfReach(s.messages[k]);
  }

  lemma {:induction false} SpentIsNotServed(s: State, u: State, e: Event, k: Id)
    requires Inv(s) && k in s.messages && Spent(s.messages[k])
    ensures !Serves(s, u, e, k)
  {
    hide Journal, Isolated, Ahead;
  }
}
