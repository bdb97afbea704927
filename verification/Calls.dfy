/** The calls that can be made on a broker, what each of them does, and the broker that serves them. */
module Calls {
  import opened Wrappers
  import opened Matcher
  import opened Addresses
  import opened Broker
  import opened Queues
  import opened Stores
  import D = Delivery
  import T = Transactions
  import C = Consumers
  import A = Administration
  import Restart

  datatype Call =
    | Declare(connection: string)
    | StagePublish(x: Id, staged: D.Publication)
    | Commit(x: Id)
    | Rollback(x: Id)
    | Sweep
    | Publish(p: D.Publication)
    | SweepExpired
    | ReplayDead(limit: int)
    | Register(id: string, address: string, prefetch: nat, semantics: C.Semantics)
    | Acquire(consumer: string)
    | Settle(consumer: string, delivery: int, outcome: MessageState)
    | Disconnect(consumer: string)
    | CreateAddress(c: A.Create)
    | SetPaused(name: string, paused: bool)
    | Bind(b: Binding)
    | Reboot

  /** A call at a time. */
  datatype Event = Event(call: Call, now: int)

  /** What a broker is set up with: how name segments match, and how long transactions may last. */
  datatype Config = Config(glob: Glob, ttl: int)

  // ---------------------------------------------------------------- what calls do

  ghost predicate DoesPublish(cfg: Config, s: State, u: State, p: D.Publication, now: int) {
    exists routes, created, err, via :: D.Published(s, u, p, cfg.glob, now, routes, created, err, via)
  }

  ghost predicate DoesStage(cfg: Config, s: State, u: State, x: Id, p: D.Publication, now: int) {
    exists routes, kept, err :: T.Staging(s, u, x, p, cfg.glob, now, routes, kept, err)
  }

  ghost predicate DoesCommit(s: State, u: State, x: Id, now: int) {
    exists via :: T.Committing(s, u, x, now, via)
  }

  ghost predicate DoesReplay(s: State, u: State, limit: int) {
    exists chosen :: D.Replayed(s, u, chosen) && |chosen| == Limited(limit, |D.DeadIds(s)|)
  }

  function Limited(limit: int, n: nat): nat {
    if 0 < limit < n then limit else n
  }

  ghost predicate DoesAcquire(s: State, u: State, consumer: string, now: int) {
    exists r :: D.Dispatched(s, u, consumer, now, r)
  }

  /** The call takes the broker from s to u, by what the code of the call does and nothing else. */
  ghost predicate Does(cfg: Config, s: State, e: Event, u: State) {
    match e.call
    case Declare(connection) => T.Declaring(s, u, connection, e.now, T.Lifetime(cfg.ttl))
    case StagePublish(x, p) => DoesStage(cfg, s, u, x, p, e.now)
    case Commit(x) => DoesCommit(s, u, x, e.now)
    case Rollback(x) => T.RollingBack(s, u, x, e.now)
    case Sweep => T.Undone(s, u, T.Late(s, e.now), TimedOut, e.now)
    case Publish(p) => DoesPublish(cfg, s, u, p, e.now)
    case SweepExpired => D.Swept(s, u, e.now)
    case ReplayDead(limit) => DoesReplay(s, u, limit)
    case Register(id, address, prefetch, sem) => u == C.Registered(s, id, address, prefetch, sem).0
    case Acquire(consumer) => DoesAcquire(s, u, consumer, e.now)
    case Settle(consumer, delivery, outcome) => u == C.Settled(s, consumer, delivery, outcome).0
    case Disconnect(consumer) => u == C.Left(s, consumer)
    case CreateAddress(c) => u == A.Created(s, c).0
    case SetPaused(name, paused) => u == A.Paused(s, name, paused).0
    case Bind(b) => u == A.Bound(s, b).0
    case Reboot => u == Restart.Restored(s)
  }

  /**
   What callers have to observe: a staged publication supplies no origin header, and a publication
   outside a transaction names none.
   */
  predicate Allowed(call: Call) {
    match call
    case StagePublish(_, p) => !HasOrigin(p.headers)
    case Publish(p) => p.tx.None?
    case _ => true
  }

  // ---------------------------------------------------------------- every call is a step

  lemma {:induction false} TransactionCallSteps(cfg: Config, s: State, e: Event, u: State)
    requires Inv(s) && Allowed(e.call) && Does(cfg, s, e, u)
    requires e.call.Declare? || e.call.StagePublish? || e.call.Commit? || e.call.Rollback? || e.call.Sweep?
    ensures Step(s, u)
  {
    hide Inv, Step, HasOrigin, T.Staging, T.Committing, T.Declaring, T.RollingBack, T.Undone;
    match e.call {
      case Declare(connection) => T.DeclaringMeans(s, u, connection, e.now, T.Lifetime(cfg.ttl));
      case StagePublish(x, p) =>
        var routes, kept, err :| T.Staging(s, u, x, p, cfg.glob, e.now, routes, kept, err);
        T.StagingMeans(s, u, x, p, cfg.glob, e.now, routes, kept, err);
      case Commit(x) =>
        var via :| T.Committing(s, u, x, e.now, via);
        T.CommittingMeans(s, u, x, e.now, via);
      case Rollback(x) => T.RollingBackMeans(s, u, x, e.now);
      case Sweep => T.SweptFinishes(s, u, e.now);
    }
  }

  lemma {:induction false} DeliveryCallIsQuiet(cfg: Config, s: State, e: Event, u: State)
    requires Sound(s) && Isolated(s) && Allowed(e.call) && Does(cfg, s, e, u)
    requires e.call.Publish? || e.call.SweepExpired? || e.call.ReplayDead? || e.call.Acquire?
    ensures Quiet(s, u)
  {
    hide Sound, Isolated, Quiet, D.Published, D.Swept, D.Replayed, D.Dispatched;
    match e.call {
      case Publish(p) =>
        var routes, created, err, via :| D.Published(s, u, p, cfg.glob, e.now, routes, created, err, via);
        D.PublishedMeans(s, u, p, cfg.glob, e.now, routes, created, err, via);
      case SweepExpired => D.SweptIsQuiet(s, u, e.now);
      case ReplayDead(limit) =>
        var chosen :| D.Replayed(s, u, chosen) && |chosen| == Limited(limit, |D.DeadIds(s)|);
        D.ReplayedIsQuiet(s, u, chosen);
      case Acquire(consumer) =>
        var r :| D.Dispatched(s, u, consumer, e.now, r);
        D.DispatchedIsQuiet(s, u, consumer, e.now, r);
    }
  }

  lemma {:induction false} OtherCallIsQuiet(cfg: Config, s: State, e: Event, u: State)
    requires Sound(s) && Isolated(s) && Does(cfg, s, e, u)
    requires e.call.Register? || e.call.Settle? || e.call.Disconnect? || e.call.CreateAddress? || e.call.SetPaused?
             || e.call.Bind? || e.call.Reboot?
    ensures Quiet(s, u)
  {
    hide Sound, Isolated, Quiet, C.Registered, C.Settled, C.Left, A.Created, A.Paused, A.Bound, Restart.Restored;
    match e.call {
      case Register(id, address, prefetch, sem) => C.RegisteredIsQuiet(s, id, address, prefetch, sem);
      case Settle(consumer, delivery, outcome) =>
        C.NothingHeld(s, consumer, delivery, outcome);
        QuietSelf(s);
      case Disconnect(consumer) => C.LeftIsQuiet(s, consumer);
      case CreateAddress(c) => A.CreatedIsQuiet(s, c);
      case SetPaused(name, paused) => A.PausedIsQuiet(s, name, paused);
      case Bind(b) => A.BoundIsQuiet(s, b);
      case Reboot => Restart.RestartIsQuiet(s);
    }
  }

  /** Every allowed call from a good state is a step, so it keeps the state good. */
  lemma {:induction false} CallSteps(cfg: Config, s: State, e: Event, u: State)
    requires Inv(s) && Allowed(e.call) && Does(cfg, s, e, u)
    ensures Step(s, u) && Inv(u)
  {
    hide Inv, Does, Allowed, Quiet, Extended, Finished, Declared;
    T.InvParts(s);
    match e.call {
      case Declare(_) => TransactionCallSteps(cfg, s, e, u);
      case StagePublish(_, _) => TransactionCallSteps(cfg, s, e, u);
      case Commit(_) => TransactionCallSteps(cfg, s, e, u);
      case Rollback(_) => TransactionCallSteps(cfg, s, e, u);
      case Sweep => TransactionCallSteps(cfg, s, e, u);
      case Publish(_) => DeliveryCallIsQuiet(cfg, s, e, u);
      case SweepExpired => DeliveryCallIsQuiet(cfg, s, e, u);
      case ReplayDead(_) => DeliveryCallIsQuiet(cfg, s, e, u);
      case Acquire(_) => DeliveryCallIsQuiet(cfg, s, e, u);
      case _ => OtherCallIsQuiet(cfg, s, e, u);
    }
    StepKeepsInv(s, u);
  }

  // ---------------------------------------------------------------- runs of calls

  /** The calls took the broker through these states, one after the other. */
  ghost predicate History(cfg: Config, run: seq<State>, events: seq<Event>) {
    && |run| == |events| + 1
    && forall i :: 0 <= i < |events| ==> Allowed(events[i].call) && Does(cfg, run[i], events[i], run[i + 1])
  }

  lemma {:induction false} HistoryOneMore(cfg: Config, run: seq<State>, events: seq<Event>, n: nat, u: State)
    requires n < |events| && History(cfg, run, events[..n])
    requires Allowed(events[n].call) && Does(cfg, run[n], events[n], u)
    ensures History(cfg, run + [u], events[..n + 1])
  {
    hide Does, Allowed;
    var next := run + [u];
    forall i | 0 <= i < n + 1
      ensures Allowed(events[i].call) && Does(cfg, next[i], events[i], next[i + 1])
    {
      if i < n {
        assert events[..n][i] == events[i];
      }
    }
  }

  // ---------------------------------------------------------------- the broker

  class Node {
    const cfg: Config
    const store: Store
    const delivery: D.Service
    const transactions: T.Service

    ghost predicate Valid() {
      && delivery.store == store && delivery.glob == cfg.glob
      && transactions.store == store && transactions.delivery == delivery
      && transactions.Valid() && transactions.ttl == T.Lifetime(cfg.ttl)
    }

    constructor (cfg: Config)
      ensures this.cfg == cfg && Valid() && fresh(store) && store.View() == EMPTY
    {
      var store := new Store();
      var delivery := new D.Service(store, cfg.glob);
      var transactions := new T.Service(store, delivery, cfg.ttl);
      this.cfg, this.store, this.delivery, this.transactions := cfg, store, delivery, transactions;
    }

    /** Serves the calls that belong to the transaction service. */
    method ServeTransaction(e: Event)
      requires Valid() && Inv(store.View()) && Allowed(e.call)
      requires e.call.Declare? || e.call.StagePublish? || e.call.Commit? || e.call.Rollback? || e.call.Sweep?
      modifies store
      ensures Does(cfg, old(store.View()), e, store.View())
    {
      hide Inv, Step, HasOrigin, T.Staging, T.Committing, T.Declaring, T.Undone, Extended, Quiet, Finished;
      match e.call {
        case Declare(connection) =>
          var r := transactions.Declare(connection, e.now);
        case StagePublish(x, p) =>
          var r, routes, kept := transactions.StagePublish(x, p, e.now);
          assert DoesStage(cfg, old(store.View()), store.View(), x, p, e.now);
        case Commit(x) =>
          var r, via := transactions.Commit(x, e.now);
          assert DoesCommit(old(store.View()), store.View(), x, e.now);
        case Rollback(x) =>
          var r := transactions.Rollback(x, e.now);
        case Sweep =>
          var n := transactions.Sweep(e.now);
      }
    }

    /** Serves the calls that belong to the delivery service. */
    method ServeDelivery(e: Event)
      requires Valid() && Sound(store.View()) && Allowed(e.call)
      requires e.call.Publish? || e.call.SweepExpired? || e.call.ReplayDead? || e.call.Acquire?
      modifies store
      ensures Does(cfg, old(store.View()), e, store.View())
    {
      hide Sound, Isolated, Quiet, D.Published, D.Posted, AtLevels, D.Swept, D.Replayed, D.Dispatched;
      match e.call {
        case Publish(p) =>
          var created, err, routes, via := delivery.Publish(p, e.now);
          assert DoesPublish(cfg, old(store.View()), store.View(), p, e.now);
        case SweepExpired =>
          var n := delivery.SweepExpired(e.now);
        case ReplayDead(limit) =>
          var n, chosen := delivery.ReplayDead(limit);
          assert D.Replayed(old(store.View()), store.View(), chosen);
        case Acquire(consumer) =>
          var r := delivery.Acquire(consumer, e.now);
      }
    }

    /** Serves the calls on consumers. */
    method ServeConsumer(e: Event)
      requires Valid() && C.KeyedById(store.View())
      requires e.call.Register? || e.call.Settle? || e.call.Disconnect?
      modifies store
      ensures Does(cfg, old(store.View()), e, store.View())
    {
      hide C.Registered, C.Settled, C.Left, C.KeyedById;
      match e.call {
        case Register(id, address, prefetch, sem) =>
          var r := C.Register(store, id, address, prefetch, sem);
        case Settle(consumer, d, outcome) =>
          var r := C.Settle(delivery, consumer, d, outcome);
        case Disconnect(consumer) =>
          var r := C.Disconnect(store, consumer);
      }
    }

    /** Serves the calls on addresses and bindings, and restarts. */
    method ServeOther(e: Event)
      requires Valid() && Restart.WellKeyed(store.View())
      requires e.call.CreateAddress? || e.call.SetPaused? || e.call.Bind? || e.call.Reboot?
      modifies store
      ensures Does(cfg, old(store.View()), e, store.View())
    {
      hide A.Created, A.Paused, A.Bound, Restart.Restored, Restart.WellKeyed;
      match e.call {
        case CreateAddress(c) =>
          var r := A.CreateAddress(store, c);
        case SetPaused(name, paused) =>
          var r := A.SetPaused(store, name, paused);
        case Bind(b) =>
          var r := A.Bind(store, b);
        case Reboot =>
          Restart.Reboot(store);
      }
    }

    /** Serves one call. */
    method Serve(e: Event)
      requires Valid() && Inv(store.View()) && Allowed(e.call)
      modifies store
      ensures Does(cfg, old(store.View()), e, store.View()) && Inv(store.View())
    {
      hide Inv, Does, Allowed, Step, Sound, Isolated, Quiet, C.KeyedById, Restart.WellKeyed;
      T.InvParts(store.View());
      KeysKept(store.View());
      match e.call {
        case Declare(_) => ServeTransaction(e);
        case StagePublish(_, _) => ServeTransaction(e);
        case Commit(_) => ServeTransaction(e);
        case Rollback(_) => ServeTransaction(e);
        case Sweep => ServeTransaction(e);
        case Publish(_) => ServeDelivery(e);
        case SweepExpired => ServeDelivery(e);
        case ReplayDead(_) => ServeDelivery(e);
        case Acquire(_) => ServeDelivery(e);
        case Register(_, _, _, _) => ServeConsumer(e);
        case Settle(_, _, _) => ServeConsumer(e);
        case Disconnect(_) => ServeConsumer(e);
        case _ => ServeOther(e);
      }
      CallSteps(cfg, old(store.View()), e, store.View());
    }
  }

  lemma {:induction false} KeysKept(s: State)
    requires Inv(s)
    ensures C.KeyedById(s) && Restart.WellKeyed(s)
  {
    hide Isolated, Fate;
    D.SoundKeys(s);
    T.TransactionKeys(s);
  }

  /**
   Serving any allowed calls, one after the other, from an empty broker: the states in between are
   a history of those calls, and all of them are good.
   */
  method Drive(cfg: Config, events: seq<Event>) returns (node: Node, ghost run: seq<State>)
    requires forall i :: 0 <= i < |events| ==> Allowed(events[i].call)
    ensures node.cfg == cfg && node.Valid()
    ensures History(cfg, run, events) && run[0] == EMPTY && run[|events|] == node.store.View()
    ensures forall n :: 0 <= n < |run| ==> Inv(run[n])
  {
    hide Does, Allowed, Inv, History;
    node := new Node(cfg);
    EmptyInv();
    run := [node.store.View()];
    HistoryStart(cfg, run[0], events);
    for i := 0 to |events|
      invariant node.cfg == cfg && node.Valid() && fresh(node.store)
      invariant |run| == i + 1 && History(cfg, run, events[..i]) && run[0] == EMPTY && run[i] == node.store.View()
      invariant forall n :: 0 <= n < |run| ==> Inv(run[n])
    {
      node.Serve(events[i]);
      HistoryOneMore(cfg, run, events, i, node.store.View());
      run := run + [node.store.View()];
    }
    assert events[..|events|] == events;
  }

  lemma {:induction false} HistoryStart(cfg: Config, s: State, events: seq<Event>)
    ensures History(cfg, [s], events[..0])
  {}
}
