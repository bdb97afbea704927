/** Local transactions over the message store (internal/transaction/application/service.go). */
module Transactions {
  import opened Wrappers
  import opened Ranging
  import opened Sorting
  import opened Matcher
  import R = Router
  import opened Broker
  import opened Queues
  import opened Stores
  import D = Delivery

  datatype TransactionError =
    | ConnectionRequired
    | UnknownTransaction
    | TransactionExpired
    | NotActive
    | Publishing(delivery: D.DeliveryError)
    | Saving(error: StoreError)

  // ---------------------------------------------------------------- committing, as values

  /** The messages in `done` were made visible; ready messages may have been dead-lettered meanwhile. */
  ghost predicate CommittedTo(s: State, t: State, done: set<Id>) {
    && Sound(t)
    && t == s.(messages := t.messages) && t.messages.Keys == s.messages.Keys
    && forall k :: k in s.messages ==>
         D.Descends(if k in done then s.messages[k].(state := Available, tx := None) else s.messages[k], t.messages[k])
  }

  lemma {:induction false} CommittedOneMore(s: State, t: State, done: set<Id>, id: Id, u: State, v: State, victims: set<Id>)
    requires CommittedTo(s, t, done) && id in s.messages && id !in done && s.messages[id].state == Acquired
    requires id in t.messages && u == t.(messages := t.messages[id := D.Cleared(t.messages[id])])
    requires Sound(u) && Trimmed(u, v, victims)
    requires forall k :: k in victims ==> k in u.messages && u.messages[k].state == Available
    ensures CommittedTo(s, v, done + {id})
  {
    hide Sound, Trimmed, Isolated, Quiet;
    D.TrimmedFrame(u, v, victims);
    TrimmedIsQuiet(u, v, victims);
    D.TrimmedDescends(u, v, victims);
    assert t.messages[id] == s.messages[id];
    forall k | k in s.messages
      ensures D.Descends(if k in done + {id} then D.Cleared(s.messages[k]) else s.messages[k], v.messages[k])
    {
      D.DescendsTrans(if k in done + {id} then D.Cleared(s.messages[k]) else s.messages[k], u.messages[k], v.messages[k]);
    }
  }

  /** A commit of all staged messages of an active transaction is quiet but for those, which all become visible. */
  lemma {:induction false} CommittedAll(s: State, t: State, x: Id)
    requires Inv(s) && x in s.transactions && s.transactions[x].state == Active
    requires CommittedTo(s, t, s.transactions[x].Staged())
    ensures QuietBut(s, t, Under(s, {x}))
    ensures forall m :: m in s.transactions[x].Staged() ==> Fate(t, x, Committed, m)
    ensures forall k :: k in s.messages ==> k in t.messages && t.messages[k].logOffset == s.messages[k].logOffset
  {
    hide Sound, HasOrigin;
    var staged := s.transactions[x].Staged();
    UnderOne(s, x);
    forall k | k in t.messages
      ensures OutOfReach(t.messages[k])
      ensures k !in staged ==> Evolves(s.messages[k], t.messages[k])
      ensures t.messages[k].logOffset == s.messages[k].logOffset
    {
      assert OutOfReach(s.messages[k]);
    }
    forall m | m in staged
      ensures Fate(t, x, Committed, m)
    {
      StagedFate(s, x, m);
    }
  }

  lemma {:induction false} UnderOne(s: State, x: Id)
    requires x in s.transactions
    ensures forall k :: StagedUnder(s, {x}, k) <==> k in s.transactions[x].Staged()
  {
    forall k | k in s.transactions[x].Staged()
      ensures StagedUnder(s, {x}, k)
    {
      assert x in {x};
    }
  }

  /** Changing transactions only does not disturb what is said about messages. */
  lemma {:induction false} WithTransactions(s: State, t: State, but: set<Id>, transactions: map<Id, Transaction>)
    requires QuietBut(s, t, but)
    ensures QuietBut(s, t.(transactions := transactions), but)
  {
    var u := t.(transactions := transactions);
    forall k | k in u.messages
      ensures MessageSound(u, k)
    {
      assert MessageSound(t, k);
    }
  }

  lemma {:induction false} CommitFinishes(s: State, t: State, u: State, x: Id, now: int)
    requires Inv(s) && x in s.transactions && s.transactions[x].state == Active
    requires CommittedTo(s, t, s.transactions[x].Staged())
    requires u == t.(transactions := t.transactions[x := s.transactions[x].Completed(Committed, now)])
    ensures Finished(s, u, {x}, Committed, now)
  {
    hide Inv, Sound, QuietBut, Fate, D.Descends, D.Cleared, Under;
    CommittedAll(s, t, x);
    WithTransactions(s, t, Under(s, {x}), u.transactions);
    forall m | m in s.transactions[x].Staged()
      ensures Fate(u, x, Committed, m)
    {
      SameFate(t, u, x, Committed, m);
    }
  }

  lemma SameFate(t: State, u: State, x: Id, state: TransactionState, m: Id)
    requires u.messages == t.messages
    ensures Fate(u, x, state, m) <==> Fate(t, x, state, m)
  {}

  // ---------------------------------------------------------------- rolling back, as values

  /** The transactions in `done` ended, and exactly their staged messages are gone. */
  ghost predicate Undone(s: State, u: State, done: set<Id>, to: TransactionState, now: int) {
    && u == s.(messages := u.messages, transactions := u.transactions)
    && Ended(s, u, done, to, now)
    && (forall k :: k in u.messages ==> k in s.messages && u.messages[k] == s.messages[k])
    && (forall k :: k in s.messages ==> (k in u.messages <==> !StagedUnder(s, done, k)))
  }

  lemma {:induction false} UndoneFinishes(s: State, u: State, done: set<Id>, to: TransactionState, now: int)
    requires Inv(s) && forall x :: x in done ==> x in s.transactions && s.transactions[x].state == Active
    requires Undone(s, u, done, to, now) && (to == RolledBack || to == TimedOut)
    ensures Finished(s, u, done, to, now)
  {
    hide Inv, QuietBut, Ended, Under, StagedUnder;
    UndoneIsQuiet(s, u, done, to, now);
    forall t, m | t in done && m in s.transactions[t].Staged()
      ensures Fate(u, t, to, m)
    {
      assert m !in u.messages by {
        StagedIn(s, done, t, m);
      }
    }
  }

  lemma {:induction false} StagedIn(s: State, done: set<Id>, t: Id, m: Id)
    requires t in done && t in s.transactions && m in s.transactions[t].Staged()
    ensures StagedUnder(s, done, m)
  {}

  lemma {:induction false} UndoneIsQuiet(s: State, u: State, done: set<Id>, to: TransactionState, now: int)
    requires Inv(s) && Undone(s, u, done, to, now)
    ensures QuietBut(s, u, Under(s, done))
  {
    hide HasOrigin, Ended, Journal, StagedUnder;
    forall k | k in u.messages
      ensures MessageSound(u, k) && OutOfReach(u.messages[k])
    {
      assert MessageSound(s, k) && OutOfReach(s.messages[k]);
    }
  }

  /** Undoing one more transaction after others. */
  lemma {:induction false} UndoneOneMore(s: State, u: State, done: set<Id>, x: Id, v: State, to: TransactionState, now: int)
    requires Undone(s, u, done, to, now) && x in s.transactions && x !in done
    requires Undone(u, v, {x}, to, now)
    ensures Undone(s, v, done + {x}, to, now)
  {
    UnderOne(u, x);
    assert u.transactions[x] == s.transactions[x];
    forall k | k in s.messages
      ensures k in v.messages <==> !StagedUnder(s, done + {x}, k)
    {
      UnderMore(s, done, x, k);
    }
  }

  lemma {:induction false} UnderMore(s: State, done: set<Id>, x: Id, k: Id)
    requires x in s.transactions
    ensures StagedUnder(s, done + {x}, k) <==> StagedUnder(s, done, k) || k in s.transactions[x].Staged()
  {
    if StagedUnder(s, done, k) {
      var y :| y in done && y in s.transactions && k in s.transactions[y].Staged();
      assert y in done + {x};
    }
    if k in s.transactions[x].Staged() {
      assert x in done + {x};
    }
  }

  lemma {:induction false} UndoneNone(s: State, to: TransactionState, now: int)
    ensures Undone(s, s, {}, to, now)
  {}

  /** Removing the staged messages of a transaction and closing it undoes it. */
  lemma {:induction false} UndoneOne(s: State, u: State, x: Id, to: TransactionState, now: int)
    requires x in s.transactions
    requires u == s.(messages := s.messages - s.transactions[x].Staged(),
                     transactions := s.transactions[x := s.transactions[x].Completed(to, now)])
    ensures Undone(s, u, {x}, to, now)
  {
    UnderOne(s, x);
  }

  /** The active transactions past their expiry. */
  ghost function Late(s: State, now: int): set<Id> {
    set x | x in s.transactions && s.transactions[x].state == Active && s.transactions[x].expiresAt <= now
  }

  // ---------------------------------------------------------------- operations one by one

  /** A staged message is made visible and its address trimmed. */
  ghost predicate Shown(t: State, v: State, id: Id) {
    id in t.messages && exists victims :: Enforced(Showing(t, id), v, t.messages[id].address, victims)
  }

  /** The state with a staged message made visible. */
  function Showing(t: State, id: Id): State
    requires id in t.messages
  {
    t.(messages := t.messages[id := D.Cleared(t.messages[id])])
  }

  /** The messages of the first n operations were shown one after the other, through these states. */
  ghost predicate ShownAll(s: State, ops: seq<Operation>, n: nat, via: seq<State>) {
    && n <= |ops| && |via| == n + 1 && via[0] == s
    && forall i :: 0 <= i < n ==> Shown(via[i], via[i + 1], ops[i].message)
  }

  lemma {:induction false} ShownOneMore(s: State, ops: seq<Operation>, n: nat, via: seq<State>, v: State)
    requires ShownAll(s, ops, n, via) && n < |ops| && Shown(via[n], v, ops[n].message)
    ensures ShownAll(s, ops, n + 1, via + [v])
  {
    hide Shown;
    forall i | 0 <= i < n + 1
      ensures Shown((via + [v])[i], (via + [v])[i + 1], ops[i].message)
    {
      if i < n {
        assert Shown(via[i], via[i + 1], ops[i].message);
      }
    }
  }

  /** Showing the first n messages of an active transaction commits exactly those, and fills addresses by their levels. */
  lemma {:induction false} ShownMeans(s: State, x: Id, n: nat, via: seq<State>)
    requires Inv(s) && x in s.transactions && s.transactions[x].state == Active
    requires ShownAll(s, s.transactions[x].operations, n, via)
    ensures var ops := s.transactions[x].operations;
            && CommittedTo(s, via[n], UpTo(ops, n))
            && AtLevels(s, Homes(s, ops), n, via[n])
    decreases n
  {
    hide Inv, Sound, Shown, CommittedTo, Fate, Enforced, AtLevels, D.Cleared;
    var ops := s.transactions[x].operations;
    InvParts(s);
    if n == 0 {
      CommittedNothing(s);
      UpToEnds(s.transactions[x]);
      D.StartLevels(s, Homes(s, ops));
    } else {
      assert ShownAll(s, ops, n - 1, via[..n]);
      ShownMeans(s, x, n - 1, via[..n]);
      assert Shown(via[n - 1], via[n], ops[n - 1].message);
      UpToNext(s, x, n - 1);
      ShownNext(s, x, n - 1, via[n - 1], via[n]);
    }
  }

  lemma {:induction false} ShownNext(s: State, x: Id, n: nat, t: State, v: State)
    requires Inv(s) && x in s.transactions && s.transactions[x].state == Active && n < |s.transactions[x].operations|
    requires var ops := s.transactions[x].operations;
             && CommittedTo(s, t, UpTo(ops, n)) && AtLevels(s, Homes(s, ops), n, t) && Shown(t, v, ops[n].message)
    ensures var ops := s.transactions[x].operations;
            && CommittedTo(s, v, UpTo(ops, n + 1)) && AtLevels(s, Homes(s, ops), n + 1, v)
  {
    hide Inv, Sound, CommittedTo, Fate, Enforced, AtLevels, UpTo;
    var ops := s.transactions[x].operations;
    var id := ops[n].message;
    UpToNext(s, x, n);
    ActiveMessage(s, x, id);
    CommittedKeeps(s, t, UpTo(ops, n), id);
    CommittedSound(s, t, UpTo(ops, n));
    D.SoundKeys(t);
    D.ClearedSound(t, id);
    var m := D.Cleared(t.messages[id]);
    var u := Showing(t, id);
    var victims :| Enforced(u, v, m.address, victims);
    D.EnforcedParts(u, v, m.address, victims);
    CommittedOneMore(s, t, UpTo(ops, n), id, u, v, victims);
    NextLevels(s, Homes(s, ops), n, t, u, v, m, victims);
  }

  /** The messages of the first n operations. */
  function UpTo(ops: seq<Operation>, n: nat): set<Id>
    requires n <= |ops|
  {
    set i | 0 <= i < n :: ops[i].message
  }

  lemma {:induction false} UpToNext(s: State, x: Id, n: nat)
    requires Inv(s) && x in s.transactions && n < |s.transactions[x].operations|
    ensures var ops := s.transactions[x].operations;
            && UpTo(ops, n + 1) == UpTo(ops, n) + {ops[n].message}
            && ops[n].message !in UpTo(ops, n)
            && Fate(s, x, s.transactions[x].state, ops[n].message)
  {
    hide Sound, Isolated, Fate;
    assert JournalEntry(s, x);
  }

  lemma UpToEnds(tx: Transaction)
    ensures UpTo(tx.operations, 0) == {} && UpTo(tx.operations, |tx.operations|) == tx.Staged()
  {}

  /** A message staged under an active transaction is there, acquired, and tagged with it. */
  lemma {:induction false} ActiveMessage(s: State, x: Id, m: Id)
    requires Inv(s) && Fate(s, x, Active, m)
    ensures m in s.messages && s.messages[m].state == Acquired && s.messages[m].tx == Some(x)
  {
    hide Sound, HasOrigin;
    assert OutOfReach(s.messages[m]);
  }

  lemma {:induction false} CommittedKeeps(s: State, t: State, done: set<Id>, id: Id)
    requires CommittedTo(s, t, done) && id in s.messages && id !in done && s.messages[id].state == Acquired
    ensures id in t.messages && t.messages[id] == s.messages[id]
  {}

  lemma {:induction false} CommittedNothing(s: State)
    requires Sound(s)
    ensures CommittedTo(s, s, {})
  {
    hide Sound;
  }

  lemma DropMore<T>(m: map<Id, T>, gone: set<Id>, id: Id)
    ensures (m - gone) - {id} == m - (gone + {id})
  {}

  lemma DropNone<T>(m: map<Id, T>)
    ensures m - {} == m
  {}

  // ---------------------------------------------------------------- whole calls, as values

  function ErrorOf<T>(r: Result<T, TransactionError>): Option<TransactionError> {
    match r case Ok(_) => None case Err(e) => Some(e)
  }

  /** What Declare does: a new active transaction, or only a used-up id when no connection is named. */
  ghost predicate Declaring(s: State, u: State, connection: string, now: int, ttl: int) {
    if connection == "" then u == s.(minted := s.minted + 1) else Declared(s, u, connection, now, ttl)
  }

  lemma {:induction false} DeclaringMeans(s: State, u: State, connection: string, now: int, ttl: int)
    requires Inv(s) && Declaring(s, u, connection, now, ttl)
    ensures Step(s, u) && Inv(u)
  {
    hide Inv, Quiet, Extended, Finished;
    if connection == "" {
      MintedIsQuiet(s, u.minted);
    }
    StepKeepsInv(s, u);
  }

  /** What Rollback does: it undoes an active transaction and leaves anything else alone. */
  ghost predicate RollingBack(s: State, u: State, x: Id, now: int) {
    if x in s.transactions && s.transactions[x].state == Active then Undone(s, u, {x}, RolledBack, now) else u == s
  }

  lemma {:induction false} RollingBackMeans(s: State, u: State, x: Id, now: int)
    requires Inv(s) && RollingBack(s, u, x, now)
    ensures Step(s, u) && Inv(u)
  {
    hide Inv, Quiet, Finished, Undone, Extended;
    if u == s {
      InvParts(s);
    } else {
      UndoneFinishes(s, u, {x}, RolledBack, now);
    }
    StepKeepsInv(s, u);
  }

  /**
   What StagePublish does.  A transaction that is unknown or expired is refused at once; a completed
   one only after its messages were stored.  An active one gains one operation per message.
   */
  ghost predicate Staging(s: State, u: State, x: Id, p: D.Publication, glob: Glob, now: int, routes: seq<R.Route>,
                          kept: seq<Message>, err: Option<TransactionError>) {
    if x !in s.transactions then err == Some(UnknownTransaction) && kept == [] && u == s
    else if s.transactions[x].state == Active && s.transactions[x].expiresAt <= now
    then err == Some(TransactionExpired) && kept == [] && u == s
    else
      var t, q := u.(transactions := s.transactions), p.(tx := Some(x));
      match err
      case Some(Publishing(e)) => u == t && D.StagedAs(s, t, q, glob, now, routes, kept, Some(e))
      case Some(NotActive) =>
        s.transactions[x].state != Active && u == t && D.StagedAs(s, t, q, glob, now, routes, kept, None)
      case None =>
        && s.transactions[x].state == Active && D.StagedAs(s, t, q, glob, now, routes, kept, None)
        && u == t.(transactions := s.transactions[x := Journalled(s.transactions[x], Operations(kept))])
      case _ => false
  }

  /** What Commit does: shows message after message and closes the transaction, rolls back, or refuses. */
  ghost predicate Committing(s: State, u: State, x: Id, now: int, via: seq<State>) {
    if x !in s.transactions || s.transactions[x].state != Active then u == s
    else if s.transactions[x].expiresAt <= now then Undone(s, u, {x}, TimedOut, now)
    else
      var tx := s.transactions[x];
      && ShownAll(s, tx.operations, |tx.operations|, via)
      && u == via[|tx.operations|].(transactions := s.transactions[x := tx.Completed(Committed, now)])
  }

  lemma {:induction false} CommittingMeans(s: State, u: State, x: Id, now: int, via: seq<State>)
    requires Inv(s) && Committing(s, u, x, now, via)
    ensures Step(s, u) && Inv(u)
    ensures x in s.transactions && s.transactions[x].state == Active && now < s.transactions[x].expiresAt ==>
              var tx := s.transactions[x];
              && Finished(s, u, {x}, Committed, now)
              && CommittedTo(s, u.(transactions := s.transactions), tx.Staged())
              && AtLevels(s, Homes(s, tx.operations), |tx.operations|, u)
  {
    hide Inv, Quiet, Finished, Undone, CommittedTo, AtLevels, Shown;
    if x !in s.transactions || s.transactions[x].state != Active {
      InvParts(s);
    } else if s.transactions[x].expiresAt <= now {
      UndoneFinishes(s, u, {x}, TimedOut, now);
    } else {
      var tx := s.transactions[x];
      var n := |tx.operations|;
      ShownMeans(s, x, n, via);
      UpToEnds(tx);
      CommittedSound(s, via[n], tx.Staged());
      CommitFinishes(s, via[n], u, x, now);
      D.SameLevels(s, Homes(s, tx.operations), n, via[n], u);
      assert u.(transactions := s.transactions) == via[n];
    }
    StepKeepsInv(s, u);
  }

  lemma {:induction false} ShownBy(t: State, v: State, id: Id, victims: set<Id>)
    requires id in t.messages
    requires Enforced(Showing(t, id), v, t.messages[id].address, victims)
    ensures Shown(t, v, id)
  {}

  /**
   A staging that supplies no origin header keeps all guarantees, whether it is refused or not; one
   that does breaks isolation as soon as it stores a message.
   */
  lemma {:induction false} StagingMeans(s: State, u: State, x: Id, p: D.Publication, glob: Glob, now: int,
                                        routes: seq<R.Route>, kept: seq<Message>, err: Option<TransactionError>)
    requires Inv(s) && Staging(s, u, x, p, glob, now, routes, kept, err)
    ensures Sound(u)
    ensures !HasOrigin(p.headers) ==> Step(s, u) && Inv(u)
    ensures !HasOrigin(p.headers) ==> if err.None? then Extended(s, u, x, Operations(kept)) else Quiet(s, u)
    ensures Inv(u) <==> !HasOrigin(p.headers) || kept == []
  {
    hide Inv, Sound, Quiet, HasOrigin, D.StagedAs, Extended, Step;
    InvParts(s);
    var t := u.(transactions := s.transactions);
    if u != s || err.None? {
      StagedAsMeans(s, t, p.(tx := Some(x)), glob, now, routes, kept, match err case Some(Publishing(e)) => Some(e) case _ => None);
    }
    if err.None? {
      SoundWithTransactions(t, u.transactions);
      if !HasOrigin(p.headers) {
        StagedNew(s, t, p.(tx := Some(x)), routes, now, kept, x, glob);
        StagedExtends(s, t, u, x, kept);
      }
    }
    if !HasOrigin(p.headers) {
      IsStep(s, u, x, Operations(kept));
      StepKeepsInv(s, u);
    } else if kept != [] {
      ForgedIsNotIsolated(s, t, p.(tx := Some(x)), glob, now, routes, kept,
                          match err case Some(Publishing(e)) => Some(e) case _ => None);
      assert !Inv(u) by {
        NotIsolatedNotInv(t, u);
      }
    } else if u != s {
      NothingStaged(s, t, p.(tx := Some(x)), glob, now, routes, match err case Some(Publishing(e)) => Some(e) case _ => None);
      StepKeepsInv(s, u);
    }
  }

  lemma {:induction false} ForgedIsNotIsolated(s: State, t: State, p: D.Publication, glob: Glob, now: int,
                                               routes: seq<R.Route>, kept: seq<Message>, err: Option<D.DeliveryError>)
    requires D.StagedAs(s, t, p, glob, now, routes, kept, err) && HasOrigin(p.headers) && kept != []
    ensures !Isolated(t)
  {
    hide D.Admits, D.Refused, D.Breaks, HasOrigin, D.NewMessage;
    D.MessageFields(s.minted, p.(address := routes[0].destination, ttl := D.Ttl(s, p)), now);
    assert !OutOfReach(t.messages[kept[0].id]);
  }

  lemma {:induction false} NotIsolatedNotInv(t: State, u: State)
    requires !Isolated(t) && u.messages == t.messages
    ensures !Inv(u)
  {
    hide OutOfReach, Sound, Journal;
  }

  /** A staging that stops before its first message only uses up an id. */
  lemma {:induction false} NothingStaged(s: State, t: State, p: D.Publication, glob: Glob, now: int, routes: seq<R.Route>,
                                         err: Option<D.DeliveryError>)
    requires Inv(s) && p.tx.Some? && D.StagedAs(s, t, p, glob, now, routes, [], err)
    ensures err.Some? && Quiet(s, t) && Step(s, t)
  {
    hide Inv, D.Refused, D.Breaks, D.Drafted, Quiet, R.IsResolution;
    if t == s {
      InvParts(s);
    } else {
      assert t.messages == s.messages && t.log == s.log;
      assert t == s.(minted := t.minted);
      MintedIsQuiet(s, t.minted);
    }
  }

  lemma {:induction false} IsStep(s: State, u: State, x: Id, ops: seq<Operation>)
    requires Quiet(s, u) || Extended(s, u, x, ops)
    ensures Step(s, u)
  {}

  // ---------------------------------------------------------------- the service

  /** How long transactions may last: as configured, or thirty seconds. */
  function Lifetime(ttl: int): int {
    if ttl <= 0 then 30_000_000_000 else ttl
  }

  class Service {
    const store: Store
    const delivery: D.Service
    const ttl: int

    ghost predicate Valid() {
      delivery.store == store && ttl > 0
    }

    constructor (store: Store, delivery: D.Service, ttl: int)
      requires delivery.store == store
      ensures this.store == store && this.delivery == delivery && this.ttl == Lifetime(ttl) && Valid()
    {
      this.store, this.delivery, this.ttl := store, delivery, Lifetime(ttl);
    }

    method Declare(connection: string, now: int) returns (r: Result<Transaction, TransactionError>)
      requires Valid() && Inv(store.View())
      modifies store`transactions, store`minted
      ensures Inv(store.View()) && Step(old(store.View()), store.View())
      ensures Declaring(old(store.View()), store.View(), connection, now, ttl)
      ensures if connection == "" then r == Err(ConnectionRequired)
              else r.Ok? && r.value.id in store.transactions && r.value == store.transactions[r.value.id]
    {
      hide Inv, Step;
      ghost var s := store.View();
      TransactionKeys(s);
      var id := store.Mint();
      if connection == "" {
        DeclaringMeans(s, store.View(), connection, now, ttl);
        return Err(ConnectionRequired);
      }
      var tx := NewTransaction(id, connection, now, ttl);
      var c := store.CreateTransaction(tx);  // cannot conflict: the id is new
      DeclaringMeans(s, store.View(), connection, now, ttl);
      r := Ok(tx);
    }

    /**
     Stages a publication under a transaction: one operation in the journal for each message.  A
     completed transaction is refused only after the messages were stored.
     */
    method StagePublish(x: Id, p: D.Publication, now: int)
      returns (r: Result<seq<Message>, TransactionError>, ghost routes: seq<R.Route>, ghost kept: seq<Message>)
      requires Valid() && Inv(store.View())
      modifies store`messages, store`log, store`minted, store`transactions
      ensures Staging(old(store.View()), store.View(), x, p, delivery.glob, now, routes, kept, ErrorOf(r))
      ensures r.Ok? ==> x in store.transactions && Gained(old(store.transactions)[x], store.transactions[x], kept)
      ensures r.Ok? ==> r.value == kept && x in old(store.transactions)
                        && old(store.transactions)[x].state == Active && now < old(store.transactions)[x].expiresAt
      ensures Sound(store.View())
      ensures !HasOrigin(p.headers) ==> Inv(store.View()) && Step(old(store.View()), store.View())
      ensures !HasOrigin(p.headers) && r.Ok? ==> Extended(old(store.View()), store.View(), x, Operations(kept))
      ensures !HasOrigin(p.headers) && r.Err? ==> Quiet(old(store.View()), store.View())
      ensures Inv(store.View()) <==> !HasOrigin(p.headers) || kept == []
    {
      hide Inv, Sound, Quiet, Extended, Step, HasOrigin, D.StagedAs, D.Added, Gained;
      ghost var s := store.View();
      InvParts(s);
      routes, kept := [], [];
      if x !in store.transactions {
        StagingMeans(s, s, x, p, delivery.glob, now, routes, kept, Some(UnknownTransaction));
        return Err(UnknownTransaction), routes, kept;
      }
      var tx := store.transactions[x];
      if tx.Expired(now) {
        StagingMeans(s, s, x, p, delivery.glob, now, routes, kept, Some(TransactionExpired));
        return Err(TransactionExpired), routes, kept;
      }
      var msgs, err;
      msgs, err, routes := delivery.Stage(p.(tx := Some(x)), now);
      kept := msgs;
      ghost var t := store.View();
      AddedFrame(s, t, msgs);
      if err.Some? {
        StagingMeans(s, t, x, p, delivery.glob, now, routes, kept, Some(Publishing(err.value)));
        return Err(Publishing(err.value)), routes, kept;
      }
      StagedSome(s, t, p.(tx := Some(x)), delivery.glob, now, routes, msgs);
      TransactionKeys(s);
      for i := 0 to |msgs|
        invariant tx == Journalled(store.transactions[x], Operations(msgs[..i]))
        invariant store.View() == t && (i > 0 ==> tx.state == Active)
      {
        if tx.state != Active {
          StagingMeans(s, t, x, p, delivery.glob, now, routes, kept, Some(NotActive));
          return Err(NotActive), routes, kept;
        }
        assert Operations(msgs[..i + 1]) == Operations(msgs[..i]) + [Operation(msgs[i].id, msgs[i].address)];
        tx := tx.(operations := tx.operations + [Operation(msgs[i].id, msgs[i].address)], version := tx.version + 1);
      }
      assert msgs[..|msgs|] == msgs;
      var u := store.UpdateTransaction(tx);  // cannot conflict: the version went up
      assert store.View().(transactions := s.transactions) == t;
      StagingMeans(s, store.View(), x, p, delivery.glob, now, routes, kept, None);
      GainedOperations(s.transactions[x], msgs);
      r := Ok(msgs);
    }

    /**
     Makes every message of an active transaction visible and closes it; an expired one is rolled
     back instead; anything else is refused and changes nothing.
     */
    method Commit(x: Id, now: int) returns (r: Result<Transaction, TransactionError>, ghost via: seq<State>)
      requires Valid() && Inv(store.View())
      modifies store`messages, store`transactions
      ensures Committing(old(store.View()), store.View(), x, now, via)
      ensures Inv(store.View()) && Step(old(store.View()), store.View())
      ensures x !in old(store.transactions) ==> r == Err(UnknownTransaction) && store.View() == old(store.View())
      ensures x in old(store.transactions) ==>
                var s, u, tx := old(store.View()), store.View(), old(store.transactions)[x];
                if tx.state != Active then r.Err? && u == s
                else if tx.expiresAt <= now then r == Err(TransactionExpired) && Undone(s, u, {x}, TimedOut, now)
                else
                  && r == Ok(tx.Completed(Committed, now))
                  && Finished(s, u, {x}, Committed, now)
                  && CommittedTo(s, u.(transactions := s.transactions), tx.Staged())
                  && AtLevels(s, Homes(s, tx.operations), |tx.operations|, u)
    {
      hide Inv, Sound, Step, Finished, CommittedTo, Fate, Enforced, Ready, D.Cleared, AtLevels, Shown;
      ghost var s := store.View();
      InvParts(s);
      via := [s];
      if x !in store.transactions {
        CommittingMeans(s, s, x, now, via);
        return Err(UnknownTransaction), via;
      }
      TransactionKeys(s);
      var tx := store.transactions[x];
      if tx.Expired(now) {
        var rb := Undo(tx, TimedOut, now);
        return Err(TransactionExpired), via;
      }
      for i := 0 to |tx.operations|
        invariant store.View() == s.(messages := store.messages) && Sound(store.View())
        invariant ShownAll(s, tx.operations, i, via) && via[i] == store.View()
        invariant i > 0 ==> tx.state == Active
      {
        var id := tx.operations[i].message;
        UpToNext(s, x, i);
        CompletedRefuses(s, x, id);
        if tx.state == Active {
          ShownMeans(s, x, i, via);
          ActiveMessage(s, x, id);
          CommittedKeeps(s, via[i], UpTo(tx.operations, i), id);
        }
        var c, victims := delivery.CommitStaged(id);
        if c.Err? {
          CommittingMeans(s, s, x, now, via);
          return Err(Publishing(c.error)), via;
        }
        assert Shown(via[i], store.View(), id) by {
          ShownBy(via[i], store.View(), id, victims);
        }
        ShownOneMore(s, tx.operations, i, via, store.View());
        via := via + [store.View()];
        ShownMeans(s, x, i + 1, via);
        CommittedSound(s, store.View(), UpTo(tx.operations, i + 1));
      }
      if tx.state != Active {
        CommittingMeans(s, s, x, now, via);
        return Err(NotActive), via;
      }
      ghost var t := store.View();
      tx := tx.Completed(Committed, now);
      var w := store.UpdateTransaction(tx);  // cannot conflict: the version went up
      assert store.View().(transactions := s.transactions) == t;
      CommittingMeans(s, store.View(), x, now, via);
      r := Ok(tx);
    }

    method Rollback(x: Id, now: int) returns (r: Result<Transaction, TransactionError>)
      requires Valid() && Inv(store.View())
      modifies store`messages, store`transactions
      ensures Inv(store.View()) && Step(old(store.View()), store.View())
      ensures x !in old(store.transactions) ==> r == Err(UnknownTransaction) && store.View() == old(store.View())
      ensures x in old(store.transactions) ==>
                var s, u, tx := old(store.View()), store.View(), old(store.transactions)[x];
                if tx.state != Active then r.Err? && u == s
                else r == Ok(tx.Completed(RolledBack, now)) && Undone(s, u, {x}, RolledBack, now)
    {
      hide Inv, Quiet, Declared, Extended, Finished;
      InvParts(store.View());
      if x !in store.transactions {
        return Err(UnknownTransaction);
      }
      TransactionKeys(store.View());
      r := Undo(store.transactions[x], RolledBack, now);
    }

    /** Removes every staged message of an active transaction and closes it; refuses a completed one. */
    method Undo(tx: Transaction, to: TransactionState, now: int) returns (r: Result<Transaction, TransactionError>)
      requires Valid() && Inv(store.View()) && (to == RolledBack || to == TimedOut)
      requires tx.id in store.transactions && store.transactions[tx.id] == tx
      modifies store`messages, store`transactions
      ensures Inv(store.View()) && Step(old(store.View()), store.View())
      ensures var s, u := old(store.View()), store.View();
              if tx.state != Active then r.Err? && u == s
              else r == Ok(tx.Completed(to, now)) && Undone(s, u, {tx.id}, to, now)
                   && Finished(s, u, {tx.id}, to, now)
    {
      hide Inv, Quiet, Declared, Extended, Finished, Fate;
      ghost var s := store.View();
      InvParts(s);
      UpToEnds(tx);
      DropNone(s.messages);
      for i := 0 to |tx.operations|
        invariant store.View() == s.(messages := if tx.state == Active then s.messages - UpTo(tx.operations, i) else s.messages)
      {
        var id := tx.operations[i].message;
        UpToNext(s, tx.id, i);
        CompletedRefuses(s, tx.id, id);
        if tx.state == Active {
          ActiveMessage(s, tx.id, id);
        }
        DropMore(s.messages, UpTo(tx.operations, i), id);
        var e := delivery.RollbackStaged(id);
        if e.Err? && e.error != D.Storage(NotFound) {
          return Err(Publishing(e.error));
        }
      }
      if tx.state != Active {
        return Err(NotActive);
      }
      var done := tx.Completed(to, now);
      var w := store.UpdateTransaction(done);  // cannot conflict: the version went up
      UndoneOne(s, store.View(), tx.id, to, now);
      UndoneFinishes(s, store.View(), {tx.id}, to, now);
      StepKeepsInv(s, store.View());
      r := Ok(done);
    }

    /** Times out every active transaction past its expiry, and no other: afterwards none is left. */
    method Sweep(now: int) returns (n: nat)
      requires Valid() && Inv(store.View())
      modifies store`messages, store`transactions
      ensures Inv(store.View()) && Step(old(store.View()), store.View())
      ensures n == |Late(old(store.View()), now)|
      ensures Undone(old(store.View()), store.View(), Late(old(store.View()), now), TimedOut, now)
      ensures forall x :: x in store.transactions && store.transactions[x].state == Active ==>
                now < store.transactions[x].expiresAt
      ensures forall x :: x in old(store.transactions) ==>
                x in store.transactions && var was, tx := old(store.transactions)[x], store.transactions[x];
                if was.state == Active && was.expiresAt <= now then tx.state == TimedOut && tx.completedAt == Some(now)
                else tx == was
    {
      hide Inv, Step, Undone, Finished, Older, Distinct, Ordered, Sweeping;
      ghost var s := store.View();
      TransactionKeys(s);
      n := 0;
      ghost var done: set<Id> := {};
      var active := store.ListActive();
      SweepStarts(s, active, now);
      for i := 0 to |active|
        invariant Inv(store.View()) && Sweeping(s, store.View(), active, i, done, now) && n == |done|
      {
        var tx := active[i];
        SweepReaches(s, store.View(), active, i, done, now);
        if tx.Expired(now) {
          ghost var u := store.View();
          var rb := Undo(tx, TimedOut, now);  // cannot fail: the transaction is active
          SweepOn(s, u, store.View(), active, i, done, now);
          n, done := n + 1, done + {tx.id};
        }
      }
      SweepEnds(s, store.View(), active, done, now);
      SweptFinishes(s, store.View(), now);
      assert ByTheClock(s, store.View(), now);
    }
  }

  lemma {:induction false} SweptFinishes(s: State, u: State, now: int)
    requires Inv(s) && Undone(s, u, Late(s, now), TimedOut, now)
    ensures Step(s, u)
  {
    hide Inv, Undone, Finished, Quiet;
    UndoneFinishes(s, u, Late(s, now), TimedOut, now);
  }

  /** Exactly the active transactions past their expiry have timed out. */
  ghost predicate ByTheClock(s: State, u: State, now: int) {
    && u.transactions.Keys == s.transactions.Keys
    && forall x :: x in s.transactions ==>
         var was, tx := s.transactions[x], u.transactions[x];
         if was.state == Active && was.expiresAt <= now then tx.state == TimedOut && tx.completedAt == Some(now)
         else tx == was
  }

  /** The first i of the active transactions were looked at, and the late ones among them timed out. */
  ghost predicate Sweeping(s: State, u: State, active: seq<Transaction>, i: nat, done: set<Id>, now: int)
    requires i <= |active|
  {
    && Undone(s, u, done, TimedOut, now)
    && (forall x :: x in s.transactions ==> s.transactions[x].id == x)
    && (forall j, k :: 0 <= j < k < |active| ==> active[j].id != active[k].id)
    && (forall j :: 0 <= j < |active| ==> active[j].id in s.transactions && s.transactions[active[j].id] == active[j])
    && (forall x :: x in s.transactions && s.transactions[x].state == Active ==> s.transactions[x] in active)
    && (forall x :: x in done ==> exists j :: 0 <= j < i && active[j].id == x && active[j].Expired(now))
    && (forall j :: 0 <= j < i && active[j].Expired(now) ==> active[j].id in done)
  }

  lemma {:induction false} SweepStarts(s: State, active: seq<Transaction>, now: int)
    requires forall x :: x in s.transactions ==> s.transactions[x].id == x
    requires forall x :: x in active ==> x.id in s.transactions && s.transactions[x.id] == x
    requires forall x :: x in s.transactions && s.transactions[x].state == Active ==> s.transactions[x] in active
    requires Distinct(active)
    ensures Sweeping(s, s, active, 0, {}, now)
  {
    hide Undone;
    UndoneNone(s, TimedOut, now);
    DistinctById(s, active);
  }

  lemma {:induction false} SweepReaches(s: State, u: State, active: seq<Transaction>, i: nat, done: set<Id>, now: int)
    requires i < |active| && Sweeping(s, u, active, i, done, now)
    ensures var tx := active[i];
            && tx.id !in done && tx.id in u.transactions && u.transactions[tx.id] == tx
            && (!tx.Expired(now) ==> Sweeping(s, u, active, i + 1, done, now))
  {}

  lemma {:induction false} SweepOn(s: State, u: State, v: State, active: seq<Transaction>, i: nat, done: set<Id>, now: int)
    requires i < |active| && Sweeping(s, u, active, i, done, now) && active[i].Expired(now)
    requires Undone(u, v, {active[i].id}, TimedOut, now)
    ensures Sweeping(s, v, active, i + 1, done + {active[i].id}, now)
  {
    hide Undone;
    SweepReaches(s, u, active, i, done, now);
    UndoneOneMore(s, u, done, active[i].id, v, TimedOut, now);
  }

  lemma {:induction false} SweepEnds(s: State, u: State, active: seq<Transaction>, done: set<Id>, now: int)
    requires Sweeping(s, u, active, |active|, done, now)
    ensures done == Late(s, now) && Undone(s, u, done, TimedOut, now)
    ensures ByTheClock(s, u, now)
  {
    hide StagedUnder;
    forall x | x in s.transactions && s.transactions[x].Expired(now)
      ensures x in done
    {
      var j :| 0 <= j < |active| && active[j] == s.transactions[x];
    }
  }

  lemma {:induction false} DistinctById(s: State, list: seq<Transaction>)
    requires Distinct(list)
    requires forall x :: x in list ==> x.id in s.transactions && s.transactions[x.id] == x
    ensures forall i, j :: 0 <= i < j < |list| ==> list[i].id != list[j].id
    ensures forall j :: 0 <= j < |list| ==> list[j].id in s.transactions && s.transactions[list[j].id] == list[j]
  {
    assert forall j :: 0 <= j < |list| ==> list[j] in list;
  }

  /** The addresses where the messages of these operations are stored. */
  ghost function Homes(s: State, ops: seq<Operation>): seq<string> {
    seq(|ops|, i requires 0 <= i < |ops| =>
      if ops[i].message in s.messages then s.messages[ops[i].message].address else "")
  }

  /** The staged messages of a completed transaction are gone, or no longer staged. */
  lemma {:induction false} CompletedRefuses(s: State, x: Id, m: Id)
    requires x in s.transactions && Fate(s, x, s.transactions[x].state, m)
    ensures s.transactions[x].state != Active ==> m !in s.messages || s.messages[m].tx == None
  {}

  lemma {:induction false} CommittedSound(s: State, t: State, done: set<Id>)
    requires CommittedTo(s, t, done)
    ensures Sound(t) && t == s.(messages := t.messages)
  {}

  /** The journal entries of staged messages. */
  function Operations(msgs: seq<Message>): seq<Operation> {
    seq(|msgs|, i requires 0 <= i < |msgs| => Operation(msgs[i].id, msgs[i].address))
  }

  /** The journal of the transaction grew by the id and address of each message, in order, and nothing else of it but the version changed. */
  ghost predicate Gained(was: Transaction, tx: Transaction, kept: seq<Message>) {
    && tx == was.(operations := tx.operations, version := was.version + |kept|)
    && |tx.operations| == |was.operations| + |kept| && was.operations <= tx.operations
    && forall i :: 0 <= i < |kept| ==>
         var op := tx.operations[|was.operations| + i]; op.message == kept[i].id && op.address == kept[i].address
  }

  lemma {:induction false} GainedOperations(tx: Transaction, kept: seq<Message>)
    ensures Gained(tx, Journalled(tx, Operations(kept)), kept)
  {
    var after := tx.operations + Operations(kept);
    forall i | 0 <= i < |kept|
      ensures after[|tx.operations| + i] == Operation(kept[i].id, kept[i].address)
    {
      assert after[|tx.operations| + i] == Operations(kept)[i];
    }
  }

  lemma {:induction false} InvParts(s: State)
    requires Inv(s)
    ensures Sound(s) && Isolated(s) && Quiet(s, s)
  {
    hide Sound, Isolated, Journal;
    QuietSelf(s);
  }

  lemma {:induction false} AddedFrame(s: State, t: State, msgs: seq<Message>)
    requires D.Added(s, t, msgs)
    ensures t.transactions == s.transactions
  {}

  lemma {:induction false} SoundWithTransactions(t: State, transactions: map<Id, Transaction>)
    requires Sound(t)
    ensures Sound(t.(transactions := transactions))
  {
    var u := t.(transactions := transactions);
    forall k | k in u.messages
      ensures MessageSound(u, k)
    {
      assert MessageSound(t, k);
    }
  }

  lemma {:induction false} TransactionKeys(s: State)
    requires Inv(s)
    ensures forall t :: t in s.transactions ==> s.transactions[t].id == t < s.minted
  {
    hide Sound, Isolated, Fate;
    assert forall t :: t in s.transactions ==> JournalEntry(s, t);
  }

  lemma {:induction false} MintedIsQuiet(s: State, minted: Id)
    requires Inv(s) && s.minted <= minted
    ensures Quiet(s, s.(minted := minted))
  {
    hide Journal, HasOrigin;
    var t := s.(minted := minted);
    forall k | k in t.messages
      ensures MessageSound(t, k)
    {
      assert MessageSound(s, k);
    }
  }

  /** What Stage leaves behind for the journal: new messages, each once, tagged with the transaction. */
  lemma {:induction false} StagedNew(s: State, t: State, p: D.Publication, routes: seq<R.Route>, now: int,
                                     msgs: seq<Message>, x: Id, glob: Glob)
    requires D.StagedAs(s, t, p, glob, now, routes, msgs, None) && p.tx == Some(x)
    ensures msgs != [] && t.transactions == s.transactions
    ensures forall i :: 0 <= i < |msgs| ==>
              && msgs[i].id == s.minted + i && msgs[i].id in t.messages && t.messages[msgs[i].id] == msgs[i]
              && msgs[i].tx == Some(x)
  {
    hide D.NewMessage, R.IsResolution;
    forall i | 0 <= i < |msgs|
      ensures msgs[i].tx == Some(x)
    {
      D.MessageFields(s.minted + i, p.(address := routes[i].destination, ttl := D.Ttl(s, p)), now);
    }
  }

  lemma {:induction false} StagedAsMeans(s: State, t: State, p: D.Publication, glob: Glob, now: int, routes: seq<R.Route>,
                                         kept: seq<Message>, err: Option<D.DeliveryError>)
    requires Sound(s) && D.StagedAs(s, t, p, glob, now, routes, kept, err)
    ensures Sound(t)
    ensures Isolated(s) && !HasOrigin(p.headers) ==> Quiet(s, t)
  {
    hide Sound, Isolated, D.Added, D.Admits, D.Refused, D.Breaks, D.Drafted, HasOrigin;
    if t == s {
      if Isolated(s) {
        QuietSelf(s);
      }
    } else {
      D.DraftsSound(s, t, p, routes, now, kept);
    }
  }

  /** A staging without an error stored at least one message. */
  lemma {:induction false} StagedSome(s: State, t: State, p: D.Publication, glob: Glob, now: int, routes: seq<R.Route>,
                                      kept: seq<Message>)
    requires D.StagedAs(s, t, p, glob, now, routes, kept, None)
    ensures kept != []
  {
    hide D.Added, D.Drafted, R.IsResolution;
  }

  lemma {:induction false} StagedExtends(s: State, t: State, u: State, x: Id, msgs: seq<Message>)
    requires Quiet(s, t) && x in s.transactions && s.transactions[x].state == Active
    requires u == t.(transactions := s.transactions[x := Journalled(s.transactions[x], Operations(msgs))])
    requires forall i :: 0 <= i < |msgs| ==>
               && msgs[i].id == s.minted + i && msgs[i].id in t.messages && t.messages[msgs[i].id] == msgs[i]
               && msgs[i].tx == Some(x)
    ensures Extended(s, u, x, Operations(msgs))
  {
    hide QuietBut;
    WithTransactions(s, t, {}, u.transactions);
  }
}
