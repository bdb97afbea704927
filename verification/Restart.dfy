/** Snapshot and restore of the store (internal/storage/infrastructure/snapshot.go): what survives a restart. */
module Restart {
  import opened Wrappers
  import opened Bytes
  import opened Ranging
  import opened Addresses
  import opened Broker
  import opened Stores
  import opened Consumers

  datatype Snapshot = Snapshot(
    version: int,
    addresses: seq<Address>,
    bindings: seq<Binding>,
    messages: seq<Message>,
    consumers: seq<Consumer>,
    transactions: seq<Transaction>)

  // ---------------------------------------------------------------- as values

  /** Some consumer has the message unsettled. */
  ghost predicate Held(consumers: map<string, Consumer>, k: Id) {
    exists c :: c in consumers && Unsettled(consumers[c].unsettled, k)
  }

  /** A message as it is first loaded: not in the hands of a consumer. */
  function Loaded(m: Message): Message {
    if m.state == Acquired && m.tx == None then GivenBack(m) else m
  }

  /** A message after a restart: without its body copy and in nobody's hands. */
  ghost function Back(consumers: map<string, Consumer>, k: Id, m: Message): Message {
    var n := Loaded(m.(body := []));
    if Held(consumers, k) then GivenBack(n) else n
  }

  /** The state after a restart; the log and the id supply live on. */
  ghost function Restored(s: State): State {
    s.(messages := map k | k in s.messages :: Back(s.consumers, k, s.messages[k]),
       consumers := map c | c in s.consumers :: Idle(s.consumers[c]))
  }

  /** Everything in the store is kept under its own id. */
  ghost predicate WellKeyed(s: State) {
    && (forall a :: a in s.addresses ==> s.addresses[a].name == a)
    && Keyed(s.bindings)
    && (forall k :: k in s.messages ==> s.messages[k].id == k)
    && (forall c :: c in s.consumers ==> s.consumers[c].id == c)
    && (forall t :: t in s.transactions ==> s.transactions[t].id == t)
  }

  // ---------------------------------------------------------------- what a restart guarantees

  lemma {:induction false} IdleHoldNothing(consumers: map<string, Consumer>, k: Id)
    requires forall c :: c in consumers ==> consumers[c].unsettled == map[]
    ensures !Held(consumers, k)
  {
    forall c | c in consumers
      ensures !Unsettled(consumers[c].unsettled, k)
    {
      assert consumers[c].unsettled == map[];
    }
  }

  lemma {:induction false} BackTwice(consumers: map<string, Consumer>, idle: map<string, Consumer>, k: Id, m: Message)
    requires !Held(idle, k)
    ensures Back(idle, k, Back(consumers, k, m)) == Back(consumers, k, m)
  {
    hide Held;
  }

  /** A second restart changes nothing more. */
  lemma {:induction false} RestartTwice(s: State)
    ensures Restored(Restored(s)) == Restored(s)
  {
    hide Back;
    var t := Restored(s);
    forall k | k in t.messages
      ensures Back(t.consumers, k, t.messages[k]) == t.messages[k]
    {
      IdleHoldNothing(t.consumers, k);
      BackTwice(s.consumers, t.consumers, k, s.messages[k]);
    }
    assert Restored(t).messages == t.messages;
    assert Restored(t).consumers == t.consumers;
  }

  /** Nothing is left in a consumer's hands: only staged messages are acquired, and no consumer can act. */
  lemma {:induction false} RestartReleases(s: State)
    ensures var t := Restored(s);
            && t.addresses == s.addresses && t.bindings == s.bindings && t.transactions == s.transactions
            && t.messages.Keys == s.messages.Keys
            && (forall k :: k in t.messages && t.messages[k].state == Acquired ==> t.messages[k].tx.Some?)
            && (forall c :: c in t.consumers ==>
                  t.consumers[c].credit == 0 && t.consumers[c].unsettled == map[] && !t.consumers[c].connected)
  {}

  /**
   Over a restart of a sound state a message loses its body copy and, if a consumer had it, is given
   back; nothing else about it changes.  So exactly the same messages are ready at every address.
   */
  lemma {:induction false} RestartKeepsMessages(s: State, a: string)
    requires Sound(s)
    ensures var t := Restored(s);
            forall k :: k in s.messages ==>
              var m, n := s.messages[k], t.messages[k];
              if m.state == Acquired && m.tx == None
              then n == m.(body := [], state := Released, redelivered := true) else n == m.(body := [])
    ensures forall k :: k in s.messages && s.messages[k].address == a && s.messages[k].state == Available <==>
              k in Restored(s).messages && Restored(s).messages[k].address == a && Restored(s).messages[k].state == Available
  {
    hide Held, Sound;
    forall k | k in s.messages
      ensures !Held(s.consumers, k)
    {
      NoneHeld(s, k);
    }
  }

  /** A staged message keeps its state exactly when no consumer holds it; then it loses nothing but its body copy. */
  lemma {:induction false} StagedSurvivesExactlyWhen(s: State, k: Id)
    requires k in s.messages && s.messages[k].tx.Some? && s.messages[k].state == Acquired
    ensures Restored(s).messages[k].state == Acquired <==> !Held(s.consumers, k)
    ensures !Held(s.consumers, k) ==> Restored(s).messages[k] == s.messages[k].(body := [])
  {}

  lemma {:induction false} NoneHeld(s: State, k: Id)
    requires Sound(s)
    ensures !Held(s.consumers, k)
  {
    IdleHoldNothing(s.consumers, k);
  }

  /** A restart is a quiet call: transactions and their staged messages survive it, in every run. */
  lemma {:induction false} RestartIsQuiet(s: State)
    requires Sound(s) && Isolated(s)
    ensures Quiet(s, Restored(s))
  {
    hide HasOrigin, Held, Keyed;
    var t := Restored(s);
    forall k | k in t.messages
      ensures MessageSound(t, k) && OutOfReach(t.messages[k]) && Evolves(s.messages[k], t.messages[k])
    {
      NoneHeld(s, k);
      assert MessageSound(s, k) && OutOfReach(s.messages[k]);
    }
  }

  /**
   A crash restores an earlier snapshot beside a log and an id supply that have moved on: the state
   is as good as the one the snapshot was taken from.
   */
  lemma {:induction false} CrashKeepsInv(s: State, log: seq<bytes>, minted: Id)
    requires Inv(s) && s.log <= log && s.minted <= minted
    ensures Inv(Restored(s).(log := log, minted := minted))
  {
    hide Inv, Quiet, Restored;
    InvGives(s);
    RestartIsQuiet(s);
    QuietKeepsInv(s, Restored(s));
    InvGives(Restored(s));
    RestartFrame(s);
    GrownIsQuiet(Restored(s), log, minted);
    QuietKeepsInv(Restored(s), Restored(s).(log := log, minted := minted));
  }

  lemma {:induction false} InvGives(s: State)
    requires Inv(s)
    ensures Sound(s) && Isolated(s)
  {}

  lemma {:induction false} RestartFrame(s: State)
    ensures Restored(s).log == s.log && Restored(s).minted == s.minted
  {}

  lemma {:induction false} GrownIsQuiet(s: State, log: seq<bytes>, minted: Id)
    requires Sound(s) && Isolated(s) && s.log <= log && s.minted <= minted
    ensures Quiet(s, s.(log := log, minted := minted))
  {
    hide HasOrigin;
    var t := s.(log := log, minted := minted);
    forall k | k in t.messages
      ensures MessageSound(t, k)
    {
      assert MessageSound(s, k);
    }
  }

  // ---------------------------------------------------------------- loading any snapshot

  /** The map that keeps each value of the list under its key; of two with the same key, the later. */
  function ByKey<K(==), T>(list: seq<T>, key: T -> K): map<K, T> {
    if list == [] then map[]
    else ByKey(list[..|list| - 1], key)[key(list[|list| - 1]) := list[|list| - 1]]
  }

  function AddressKey(a: Address): string { a.name }

  function BindingKey(b: Binding): string { b.id }

  function MessageKey(m: Message): Id { m.id }

  function ConsumerKey(c: Consumer): string { c.id }

  function TransactionKey(t: Transaction): Id { t.id }

  /** Some of the first n consumers has the message unsettled. */
  ghost predicate HeldBy(consumers: seq<Consumer>, n: nat, k: Id)
    requires n <= |consumers|
  {
    exists i :: 0 <= i < n && Unsettled(consumers[i].unsettled, k)
  }

  ghost function LoadedMessages(snap: Snapshot): map<Id, Message> {
    var messages := ByKey(snap.messages, MessageKey);
    map k | k in messages ::
      if HeldBy(snap.consumers, |snap.consumers|, k) then GivenBack(Loaded(messages[k])) else Loaded(messages[k])
  }

  ghost function LoadedConsumers(snap: Snapshot): map<string, Consumer> {
    var consumers := ByKey(snap.consumers, ConsumerKey);
    map c | c in consumers :: Idle(consumers[c])
  }

  /** What Restore makes of a store, whatever the snapshot holds; the log and the id supply live on. */
  ghost function LoadedFrom(s: State, snap: Snapshot): State {
    s.(addresses := ByKey(snap.addresses, AddressKey),
       bindings := ByKey(snap.bindings, BindingKey),
       messages := LoadedMessages(snap),
       consumers := LoadedConsumers(snap),
       transactions := ByKey(snap.transactions, TransactionKey))
  }

  lemma {:induction false} ByKeyNext<K, T>(list: seq<T>, key: T -> K, i: nat)
    requires i < |list|
    ensures ByKey(list[..i + 1], key) == ByKey(list[..i], key)[key(list[i]) := list[i]]
  {
    assert list[..i + 1][..i] == list[..i];
  }

  /** A list of a map's values leads back to the map, in whatever order it is. */
  lemma {:induction false} ByKeyOfLists<K, T>(list: seq<T>, key: T -> K, m: map<K, T>)
    requires Lists(list, m, key)
    ensures ByKey(list, key) == m
  {
    ByKeyPart(list, key, m, |list|);
    assert list[..|list|] == list;
    forall k | k in m
      ensures k in ByKey(list, key)
    {
      var j :| 0 <= j < |list| && list[j] == m[k];
    }
  }

  lemma {:induction false} ByKeyPart<K, T>(list: seq<T>, key: T -> K, m: map<K, T>, n: nat)
    requires Lists(list, m, key) && n <= |list|
    ensures forall k :: k in ByKey(list[..n], key) ==> k in m && ByKey(list[..n], key)[k] == m[k]
    ensures forall j :: 0 <= j < n ==> key(list[j]) in ByKey(list[..n], key)
  {
    if n > 0 {
      ByKeyPart(list, key, m, n - 1);
      ByKeyNext(list, key, n - 1);
    }
  }

  /** Loading the snapshot of a state gives the state after a restart, whatever the order of the lists. */
  lemma {:induction false} SnapshotRestores(now: State, snap: Snapshot, s: State)
    requires WellKeyed(s) && IsSnapshot(snap, s)
    ensures LoadedFrom(now, snap) == Restored(s).(log := now.log, minted := now.minted)
  {
    hide Lists, Loaded, GivenBack, Idle, Unsettled, WellKeyed;
    ByKeyOfLists(snap.addresses, AddressKey, s.addresses);
    ByKeyOfLists(snap.bindings, BindingKey, s.bindings);
    ByKeyOfLists(snap.messages, MessageKey, Bodiless(s.messages));
    ByKeyOfLists(snap.consumers, ConsumerKey, s.consumers);
    ByKeyOfLists(snap.transactions, TransactionKey, s.transactions);
    forall k
      ensures HeldBy(snap.consumers, |snap.consumers|, k) <==> Held(s.consumers, k)
    {
      ListedConsumers(snap.consumers, s.consumers, k);
    }
    assert LoadedMessages(snap) == Restored(s).messages;
    assert LoadedConsumers(snap) == Restored(s).consumers;
  }

  lemma {:induction false} ListedConsumers(list: seq<Consumer>, was: map<string, Consumer>, k: Id)
    requires Lists(list, was, ConsumerKey)
    ensures HeldBy(list, |list|, k) <==> Held(was, k)
  {
    hide Unsettled;
    if Held(was, k) {
      var c :| c in was && Unsettled(was[c].unsettled, k);
      var j :| 0 <= j < |list| && list[j] == was[c];
    }
    if HeldBy(list, |list|, k) {
      var i :| 0 <= i < |list| && Unsettled(list[i].unsettled, k);
      assert list[i].id in was;
    }
  }

  // ---------------------------------------------------------------- as it runs

  /** The list holds the values of the map, each once; the map keeps each under its own key. */
  ghost predicate Lists<K, T>(list: seq<T>, m: map<K, T>, key: T -> K) {
    && |list| == |m|
    && (forall i :: 0 <= i < |list| ==> key(list[i]) in m && m[key(list[i])] == list[i])
    && (forall k :: k in m ==> key(m[k]) == k && m[k] in list)
  }

  /** The snapshot holds everything in the state, except the message bodies. */
  ghost predicate IsSnapshot(snap: Snapshot, s: State) {
    && snap.version == 1
    && Lists(snap.addresses, s.addresses, AddressKey)
    && Lists(snap.bindings, s.bindings, BindingKey)
    && Lists(snap.messages, Bodiless(s.messages), MessageKey)
    && Lists(snap.consumers, s.consumers, ConsumerKey)
    && Lists(snap.transactions, s.transactions, TransactionKey)
  }

  ghost function Bodiless(messages: map<Id, Message>): map<Id, Message> {
    map k | k in messages :: messages[k].(body := [])
  }

  /** One loop of Snapshot: the values of a map, in the order the map gives them. */
  method Collect<K(==), T>(m: map<K, T>, key: T -> K) returns (list: seq<T>)
    requires forall k :: k in m ==> key(m[k]) == k
    ensures Lists(list, m, key)
  {
    hide Distinct;
    var order := Range(m.Keys);
    list := [];
    for i := 0 to |order|
      invariant |list| == i && forall j :: 0 <= j < i ==> list[j] == m[order[j]]
    {
      list := list + [m[order[i]]];
    }
    forall k | k in m
      ensures m[k] in list
    {
      var j :| 0 <= j < |order| && order[j] == k;
      assert list[j] == m[k];
    }
  }

  method Take(store: Store) returns (snap: Snapshot)
    requires WellKeyed(store.View())
    ensures IsSnapshot(snap, store.View())
  {
    hide Lists, Keyed;
    BindingsKeyed(store.bindings);
    var addresses := Collect(store.addresses, AddressKey);
    var bindings := Collect(store.bindings, BindingKey);
    var bodiless := map k | k in store.messages :: store.messages[k].(body := []);
    var messages := Collect(bodiless, MessageKey);
    var consumers := Collect(store.consumers, ConsumerKey);
    var transactions := Collect(store.transactions, TransactionKey);
    snap := Snapshot(1, addresses, bindings, messages, consumers, transactions);
  }

  lemma BindingsKeyed(bindings: map<string, Binding>)
    requires Keyed(bindings)
    ensures forall k :: k in bindings ==> bindings[k].id == k
  {}

  /** One loop of Restore. */
  method Rebuild<K(==), T>(list: seq<T>, key: T -> K) returns (m: map<K, T>)
    ensures m == ByKey(list, key)
  {
    m := map[];
    for i := 0 to |list|
      invariant m == ByKey(list[..i], key)
    {
      ByKeyNext(list, key, i);
      m := m[key(list[i]) := list[i]];
    }
    assert list[..|list|] == list;
  }

  /** The message loop of Restore. */
  method RebuildMessages(list: seq<Message>) returns (m: map<Id, Message>)
    ensures var all := ByKey(list, MessageKey); m.Keys == all.Keys && forall k :: k in all ==> m[k] == Loaded(all[k])
  {
    m := map[];
    for i := 0 to |list|
      invariant var all := ByKey(list[..i], MessageKey); m.Keys == all.Keys && forall k :: k in all ==> m[k] == Loaded(all[k])
    {
      ByKeyNext(list, MessageKey, i);
      var msg := list[i];
      if msg.state == Acquired && msg.tx == None {
        msg := msg.(state := Released);
        msg := msg.(redelivered := true);
      }
      m := m[msg.id := msg];
    }
    assert list[..|list|] == list;
  }

  /** The consumer loop of Restore. */
  method RebuildConsumers(list: seq<Consumer>, messages: map<Id, Message>)
    returns (m: map<Id, Message>, consumers: map<string, Consumer>)
    ensures m.Keys == messages.Keys
    ensures forall k :: k in messages ==> m[k] == if HeldBy(list, |list|, k) then GivenBack(messages[k]) else messages[k]
    ensures var all := ByKey(list, ConsumerKey); consumers.Keys == all.Keys && forall c :: c in all ==> consumers[c] == Idle(all[c])
  {
    m, consumers := messages, map[];
    for i := 0 to |list|
      invariant m.Keys == messages.Keys
      invariant forall k :: k in messages ==>
                  m[k] == if HeldBy(list, i, k) then GivenBack(messages[k]) else messages[k]
      invariant var all := ByKey(list[..i], ConsumerKey);
                consumers.Keys == all.Keys && forall c :: c in all ==> consumers[c] == Idle(all[c])
    {
      ByKeyNext(list, ConsumerKey, i);
      var c := list[i];
      m := GiveBack(m, c.unsettled);
      forall k
        ensures HeldBy(list, i + 1, k) <==> HeldBy(list, i, k) || Unsettled(c.unsettled, k)
      {}
      consumers := consumers[c.id := c.(connected := false, credit := 0, unsettled := map[])];
    }
    assert list[..|list|] == list;
  }

  /** Loads a snapshot of the version it knows, whatever it holds; refuses any other. */
  method Restore(store: Store, snap: Snapshot) returns (ok: bool)
    modifies store
    ensures ok <==> snap.version == 1
    ensures store.View() == if ok then LoadedFrom(old(store.View()), snap) else old(store.View())
  {
    hide ByKey, HeldBy, Loaded, GivenBack, Idle;
    if snap.version != 1 {
      return false;
    }
    var addresses := Rebuild(snap.addresses, AddressKey);
    var bindings := Rebuild(snap.bindings, BindingKey);
    var loaded := RebuildMessages(snap.messages);
    var messages, consumers := RebuildConsumers(snap.consumers, loaded);
    var transactions := Rebuild(snap.transactions, TransactionKey);
    store.addresses, store.bindings, store.messages := addresses, bindings, messages;
    store.consumers, store.transactions := consumers, transactions;
    assert messages == LoadedMessages(snap);
    assert consumers == LoadedConsumers(snap);
    ok := true;
  }

  /** Takes a snapshot and loads it again: the store is then in the state after a restart. */
  method Reboot(store: Store)
    requires WellKeyed(store.View())
    modifies store
    ensures store.View() == Restored(old(store.View()))
  {
    hide WellKeyed, Lists, Restored, LoadedFrom;
    ghost var s := store.View();
    var snap := Take(store);
    var ok := Restore(store, snap);
    SnapshotRestores(s, snap, s);
    RestartFrame(s);
  }
}
