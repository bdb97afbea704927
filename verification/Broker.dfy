/** The broker's state as values: messages, transactions, consumers, addresses, and the body log. */
module Broker {
  import opened Wrappers
  import opened Bytes
  import opened Addresses

  /** Message and transaction ids come from one counter, so a new id was never used before. */
  type Id = nat

  datatype MessageState = Available | Acquired | Accepted | Released | Rejected | DeadLettered | Expired

  datatype Message = Message(
    id: Id,
    address: string,
    routingKey: string,
    headers: map<string, string>,
    body: bytes,
    priority: int,
    createdAt: int,
    expiresAt: Option<int>,
    state: MessageState,
    deliveryCount: nat,
    redelivered: bool,
    tx: Option<Id>,
    logOffset: int)

  datatype TransactionState = Active | Committed | RolledBack | TimedOut

  /** A publication staged under a transaction. */
  datatype Operation = Operation(message: Id, address: string)

  datatype Transaction = Transaction(
    id: Id,
    connection: string,
    state: TransactionState,
    createdAt: int,
    expiresAt: int,
    completedAt: Option<int>,
    operations: seq<Operation>,
    version: nat)
  {
    predicate Expired(now: int) {
      state == Active && !(now < expiresAt)
    }

    /** The ids of the staged messages. */
    function Staged(): set<Id> {
      set i | 0 <= i < |operations| :: operations[i].message
    }

    function Completed(to: TransactionState, now: int): Transaction {
      this.(state := to, completedAt := Some(now), version := version + 1)
    }
  }

  datatype Consumer = Consumer(
    id: string,
    address: string,
    credit: nat,
    unsettled: map<int, Id>,
    atMostOnce: bool,
    connected: bool)

  datatype State = State(
    addresses: map<string, Address>,
    bindings: map<string, Binding>,
    messages: map<Id, Message>,
    consumers: map<string, Consumer>,
    transactions: map<Id, Transaction>,
    log: seq<bytes>,
    minted: Id)

  const EMPTY := State(map[], map[], map[], map[], map[], [], 0)

  const ORIGIN := "x-original-address"
  const REASON := "x-death-reason"

  predicate HasOrigin(headers: map<string, string>) {
    ORIGIN in headers && headers[ORIGIN] != ""
  }

  // ---------------------------------------------------------------- what holds between calls

  ghost predicate MessageSound(s: State, k: Id)
    requires k in s.messages
  {
    var m := s.messages[k];
    && m.id == k < s.minted
    && m.address in s.addresses
    && 0 <= m.logOffset < |s.log|
    && (m.body == [] || m.body == s.log[m.logOffset])
  }

  /** Everything is stored under its own id, refers to things that exist, and has its body in the log. */
  ghost predicate Sound(s: State) {
    && (forall a :: a in s.addresses ==> s.addresses[a].name == a && s.addresses[a].deadLetter != a)
    && Keyed(s.bindings)
    && (forall c :: c in s.consumers ==> s.consumers[c].id == c && s.consumers[c].unsettled == map[])
    && (forall k :: k in s.messages ==> MessageSound(s, k))
  }

  /** A message that carries a transaction id is out of reach of consumers, trimming and replay. */
  predicate OutOfReach(m: Message) {
    m.tx.Some? ==> m.state == Acquired && !HasOrigin(m.headers)
  }

  ghost predicate Isolated(s: State) {
    forall k :: k in s.messages ==> OutOfReach(s.messages[k])
  }

  /** What has become of a staged message when its transaction is in the given state. */
  ghost predicate Fate(s: State, t: Id, state: TransactionState, m: Id) {
    match state
    case Active => m in s.messages && s.messages[m].tx == Some(t)
    case Committed => m in s.messages && s.messages[m].tx == None
    case RolledBack => m !in s.messages
    case TimedOut => m !in s.messages
  }

  ghost predicate JournalEntry(s: State, t: Id)
    requires t in s.transactions
  {
    var tx := s.transactions[t];
    && tx.id == t < s.minted
    && tx.version == 1 + |tx.operations| + (if tx.state == Active then 0 else 1)
    && (forall i, j :: 0 <= i < j < |tx.operations| ==> tx.operations[i].message != tx.operations[j].message)
    && (forall i :: 0 <= i < |tx.operations| ==>
          tx.operations[i].message < s.minted && Fate(s, t, tx.state, tx.operations[i].message))
  }

  /** Every transaction's journal tells the truth about its messages, all of them. */
  ghost predicate Journal(s: State) {
    forall t :: t in s.transactions ==> JournalEntry(s, t)
  }

  ghost predicate Inv(s: State) {
    Sound(s) && Isolated(s) && Journal(s)
  }

  // ---------------------------------------------------------------- calls that leave transactions alone

  /** The message may change, but not its transaction id nor its place in the log; while it is staged, only its body copy may go. */
  predicate Evolves(m: Message, n: Message) {
    n.tx == m.tx && n.logOffset == m.logOffset && (m.tx.Some? ==> n == m.(body := n.body))
  }

  /** From s to t, outside the messages in `but`, no message is lost and none that is staged changes. */
  ghost predicate QuietBut(s: State, t: State, but: set<Id>) {
    && Sound(t) && Isolated(t)
    && s.minted <= t.minted && s.log <= t.log
    && (forall k :: k in s.messages && k !in but ==> k in t.messages && Evolves(s.messages[k], t.messages[k]))
    && (forall k :: k in t.messages && k !in s.messages ==> s.minted <= k)
  }

  ghost predicate Quiet(s: State, t: State) {
    QuietBut(s, t, {}) && t.transactions == s.transactions
  }

  lemma {:induction false} QuietSelf(s: State)
    requires Sound(s) && Isolated(s)
    ensures Quiet(s, s)
  {
    hide Sound, Isolated;
  }

  /** Fate is out of the hands of quiet calls. */
  lemma {:induction false} QuietKeepsFate(s: State, t: State, but: set<Id>, x: Id, state: TransactionState, m: Id)
    requires QuietBut(s, t, but) && m !in but && m < s.minted && Fate(s, x, state, m)
    ensures Fate(t, x, state, m)
  {
    hide Sound, Isolated;
  }

  /** Calls that leave the transactions alone keep the journal true. */
  lemma {:induction false} QuietKeepsInv(s: State, t: State)
    requires Inv(s) && Quiet(s, t)
    ensures Inv(t)
  {
    hide Sound, Isolated, Fate;
    forall x | x in t.transactions
      ensures JournalEntry(t, x)
    {
      KeepsEntry(s, t, {}, x);
    }
  }

  lemma {:induction false} KeepsEntry(s: State, t: State, but: set<Id>, x: Id)
    requires QuietBut(s, t, but)
    requires x in s.transactions && x in t.transactions && t.transactions[x] == s.transactions[x]
    requires JournalEntry(s, x) && s.transactions[x].Staged() !! but
    ensures JournalEntry(t, x)
  {
    hide Sound, Isolated, Fate;
    var tx := s.transactions[x];
    forall i | 0 <= i < |tx.operations|
      ensures Fate(t, x, tx.state, tx.operations[i].message)
    {
      assert tx.operations[i].message in tx.Staged();
      QuietKeepsFate(s, t, but, x, tx.state, tx.operations[i].message);
    }
  }

  // ---------------------------------------------------------------- calls on transactions

  function NewTransaction(id: Id, connection: string, now: int, ttl: int): Transaction {
    Transaction(id, connection, Active, now, now + ttl, None, [], 1)
  }

  /** A new active transaction appears; nothing else changes. */
  ghost predicate Declared(s: State, u: State, connection: string, now: int, ttl: int) {
    u == s.(transactions := s.transactions[s.minted := NewTransaction(s.minted, connection, now, ttl)],
            minted := s.minted + 1)
  }

  /** An active transaction gains operations, each for a new message staged under it. */
  ghost predicate Extended(s: State, u: State, t: Id, ops: seq<Operation>) {
    && t in s.transactions && s.transactions[t].state == Active
    && QuietBut(s, u, {})
    && u.transactions == s.transactions[t := Journalled(s.transactions[t], ops)]
    && (forall i :: 0 <= i < |ops| ==>
          s.minted <= ops[i].message && ops[i].message in u.messages && u.messages[ops[i].message].tx == Some(t))
    && (forall i, j :: 0 <= i < j < |ops| ==> ops[i].message != ops[j].message)
  }

  /** A transaction with more operations written to its journal, one version for each. */
  function Journalled(tx: Transaction, ops: seq<Operation>): Transaction {
    tx.(operations := tx.operations + ops, version := tx.version + |ops|)
  }

  /** The message is staged under one of these transactions. */
  ghost predicate StagedUnder(s: State, done: set<Id>, k: Id) {
    exists x :: x in done && x in s.transactions && k in s.transactions[x].Staged()
  }

  /** The messages staged under these transactions. */
  ghost function Under(s: State, done: set<Id>): set<Id> {
    set k | k in s.messages && StagedUnder(s, done, k)
  }

  /** Exactly the transactions in `done` have ended. */
  ghost predicate Ended(s: State, u: State, done: set<Id>, to: TransactionState, now: int) {
    && u.transactions.Keys == s.transactions.Keys && done <= s.transactions.Keys
    && forall x :: x in s.transactions ==>
         u.transactions[x] == if x in done then s.transactions[x].Completed(to, now) else s.transactions[x]
  }

  /** Active transactions end, and all their messages meet the fate of that end: all or nothing. */
  ghost predicate Finished(s: State, u: State, done: set<Id>, to: TransactionState, now: int) {
    && to != Active && Ended(s, u, done, to, now)
    && (forall t :: t in done ==> s.transactions[t].state == Active)
    && QuietBut(s, u, Under(s, done))
    && (forall t, m :: t in done && m in s.transactions[t].Staged() ==> Fate(u, t, to, m))
    && (forall k :: k in s.messages && k in u.messages ==> u.messages[k].logOffset == s.messages[k].logOffset)
  }

  /** Two transactions never share a message while one of them is active. */
  lemma {:induction false} StagedApart(s: State, t: Id, x: Id)
    requires Inv(s) && t in s.transactions && x in s.transactions && x != t && s.transactions[t].state == Active
    ensures s.transactions[x].Staged() !! s.transactions[t].Staged()
  {
    hide Sound, Isolated;
    forall m
      ensures !(m in s.transactions[x].Staged() && m in s.transactions[t].Staged())
    {
      StagedFate(s, t, m);
      StagedFate(s, x, m);
    }
  }

  lemma {:induction false} StagedFate(s: State, t: Id, m: Id)
    requires Journal(s) && t in s.transactions
    ensures m in s.transactions[t].Staged() ==> m < s.minted && Fate(s, t, s.transactions[t].state, m)
  {
    assert JournalEntry(s, t);
  }

  lemma {:induction false} DeclaredKeepsInv(s: State, u: State, connection: string, now: int, ttl: int)
    requires Inv(s) && Declared(s, u, connection, now, ttl)
    ensures Inv(u)
  {
    hide Fate;
    forall k | k in u.messages
      ensures MessageSound(u, k)
    {
      assert MessageSound(s, k);
    }
    forall x | x in u.transactions
      ensures JournalEntry(u, x)
    {
      if x != s.minted {
        KeepsEntry(s, u, {}, x);
      }
    }
  }

  lemma {:induction false} ExtendedKeepsInv(s: State, u: State, t: Id, ops: seq<Operation>)
    requires Inv(s) && Extended(s, u, t, ops)
    ensures Inv(u)
  {
    hide Isolated;
    forall x | x in u.transactions
      ensures JournalEntry(u, x)
    {
      assert JournalEntry(s, x);
      if x != t {
        KeepsEntry(s, u, {}, x);
      } else {
        ExtendedEntry(s, u, t, ops);
      }
    }
  }

  lemma {:induction false} ExtendedEntry(s: State, u: State, t: Id, ops: seq<Operation>)
    requires Inv(s) && Extended(s, u, t, ops)
    ensures JournalEntry(u, t)
  {
    hide Isolated;
    assert JournalEntry(s, t);
    var journal, tx := s.transactions[t].operations, u.transactions[t];
    forall i | 0 <= i < |tx.operations|
      ensures tx.operations[i].message < u.minted && Fate(u, t, Active, tx.operations[i].message)
    {
      if i < |journal| {
        QuietKeepsFate(s, u, {}, t, Active, journal[i].message);
      } else {
        assert tx.operations[i] == ops[i - |journal|];
        assert MessageSound(u, tx.operations[i].message);
      }
    }
    forall i, j | 0 <= i < j < |tx.operations|
      ensures tx.operations[i].message != tx.operations[j].message
    {
      if i < |journal| {
        assert journal[i].message < s.minted;
      }
    }
  }

  lemma {:induction false} FinishedKeepsInv(s: State, u: State, done: set<Id>, to: TransactionState, now: int)
    requires Inv(s) && Finished(s, u, done, to, now)
    ensures Inv(u)
  {
    hide Sound, Isolated, Fate;
    forall x | x in u.transactions
      ensures JournalEntry(u, x)
    {
      assert JournalEntry(s, x);
      if x !in done {
        OthersApart(s, done, x);
        KeepsEntry(s, u, Under(s, done), x);
      } else {
        forall i | 0 <= i < |u.transactions[x].operations|
          ensures Fate(u, x, to, u.transactions[x].operations[i].message)
        {
          assert u.transactions[x].operations[i].message in s.transactions[x].Staged();
        }
      }
    }
  }

  lemma {:induction false} OthersApart(s: State, done: set<Id>, x: Id)
    requires Inv(s) && x in s.transactions && x !in done
    requires forall t :: t in done ==> t in s.transactions && s.transactions[t].state == Active
    ensures s.transactions[x].Staged() !! Under(s, done)
  {
    hide Inv;
    forall t | t in done
      ensures s.transactions[x].Staged() !! s.transactions[t].Staged()
    {
      StagedApart(s, t, x);
    }
  }

  // ---------------------------------------------------------------- one call

  /** What any one call may do to a state in which Inv holds. */
  ghost predicate Step(s: State, u: State) {
    || Quiet(s, u)
    || (exists connection, now, ttl :: Declared(s, u, connection, now, ttl))
    || (exists t, ops :: Extended(s, u, t, ops))
    || (exists done, to, now :: Finished(s, u, done, to, now))
  }

  lemma {:induction false} StepKeepsInv(s: State, u: State)
    requires Inv(s) && Step(s, u)
    ensures Inv(u)
  {
    hide Inv, Quiet, Declared, Extended, Finished;
    if Quiet(s, u) {
      QuietKeepsInv(s, u);
    } else if connection, now, ttl :| Declared(s, u, connection, now, ttl) {
      DeclaredKeepsInv(s, u, connection, now, ttl);
    } else if t, ops :| Extended(s, u, t, ops) {
      ExtendedKeepsInv(s, u, t, ops);
    } else {
      var done, to, now :| Finished(s, u, done, to, now);
      FinishedKeepsInv(s, u, done, to, now);
    }
  }

  lemma EmptyInv()
    ensures Inv(EMPTY)
  {}
}
