/** Concrete inputs at which two of the broker's promises fail. */
module Counterexamples {
  import opened Wrappers
  import opened Matcher
  import opened Addresses
  import R = Router
  import opened Broker
  import opened Queues
  import D = Delivery
  import T = Transactions
  import A = Administration
  import opened Stores
  import opened Calls
  import Runs = BrokerRuns

  // ---------------------------------------------------------------- maximum lengths

  function Waiting(id: Id, address: string): Message {
    Message(id, address, "", map[], [1], 0, 0, None, Available, 0, false, None, id)
  }

  /** The bindings of a fanout to "B" and to "A", in the order they are listed. */
  const TO_B := Binding("1", "T", "B", "", map[], 2)
  const TO_A := Binding("2", "T", "A", "", map[], 1)

  /**
   "A" and "B" take one message each and "A" dead-letters to "B"; the fanout "T" leads to "B" first
   and then to "A".
   */
  const CROSSED := EMPTY.(addresses := map["A" := Address("A", Queue, 1, 0, "B", false, 1),
                                           "B" := Address("B", Queue, 1, 0, "", false, 1),
                                           "T" := Address("T", Fanout, 0, 0, "", false, 1)],
                          bindings := map["1" := TO_B, "2" := TO_A])

  /** The same with one message waiting at "A" and one at "B". */
  const FULL := CROSSED.(messages := map[0 := Waiting(0, "A"), 1 := Waiting(1, "B")], log := [[1], [1]], minted := 2)

  const TO_ALL := D.Publication("T", "", map[], [1], 0, 0, None)

  ghost predicate IsCrossed(s: State) {
    s.addresses == CROSSED.addresses && s.bindings == CROSSED.bindings
  }

  lemma {:induction false} FullIsGood()
    ensures Inv(FULL) && |Ready(FULL, "A")| == 1 && |Ready(FULL, "B")| == 1
  {
    assert Ready(FULL, "A") == {0};
    assert Ready(FULL, "B") == {1};
  }

  lemma {:induction false} CrossedListing()
    ensures IsListing(CROSSED.bindings, "T", [TO_B, TO_A])
  {
    var list := [TO_B, TO_A];
    assert list[0] == TO_B && list[1] == TO_A;
  }

  lemma {:induction false} HashAccepts(key: string, glob: Glob)
    ensures Accepts(key, map[], "#", map[], glob)
  {
    hide Matches, Split;
    HashAlone(key, glob);
  }

  lemma {:induction false} CrossedRoutes(s: State, glob: Glob, routes: seq<R.Route>)
    requires IsCrossed(s) && R.IsResolution(s.addresses, s.bindings, "T", "", map[], glob, routes)
    ensures routes == [R.Route("B", 2), R.Route("A", 1)] && D.Destinations(routes) == ["B", "A"]
  {
    hide IsListing, Accepts;
    var q := R.Query(Fanout, "", map[], glob);
    var list :| IsListing(s.bindings, "T", list) && routes == R.Picked(list, |list|, s.addresses.Keys, q);
    CrossedListing();
    ListingUnique(s.bindings, "T", list, [TO_B, TO_A]);
    HashAccepts("", glob);
    assert list[0] == TO_B && list[1] == TO_A;
    assert R.Picked(list, 0, s.addresses.Keys, q) == [];
    assert R.Picked(list, 1, s.addresses.Keys, q) == [R.Route("B", 2)];
    assert R.Picked(list, 1, s.addresses.Keys, q)[0].destination == "B";
    assert R.Picked(list, 2, s.addresses.Keys, q) == [R.Route("B", 2), R.Route("A", 1)];
  }

  /** How full "A" and "B" get when both held n messages before. */
  lemma {:induction false} CrossedLevels(s: State, n: nat)
    requires IsCrossed(s) && n <= 1 && |Ready(s, "A")| == n && |Ready(s, "B")| == n
    ensures Level(s, ["B", "A"], 2, "A") == 1 && Level(s, ["B", "A"], 2, "B") == 1 + n
    ensures Level(s, ["A", "B"], 2, "B") == 1
  {
    hide Ready;
    assert Sink(s.addresses, "A") == Some("B") && Sink(s.addresses, "B") == None;
    assert Level(s, ["B", "A"], 1, "B") == 1 && Level(s, ["B", "A"], 1, "A") == n;
    assert Level(s, ["A", "B"], 1, "B") == 2 * n;
  }

  lemma {:induction false} CrossedPublication(s: State, u: State, n: nat, glob: Glob, now: int, routes: seq<R.Route>,
                                              created: seq<Message>, via: seq<State>)
    requires Sound(s) && IsCrossed(s) && n <= 1 && |Ready(s, "A")| == n && |Ready(s, "B")| == n
    requires D.Published(s, u, TO_ALL, glob, now, routes, created, None, via)
    ensures u.addresses == s.addresses && |Ready(u, "A")| == 1 && |Ready(u, "B")| == 1 + n
  {
    hide Ready, D.Published, D.Posted, Level, R.IsResolution, Quiet, Isolated, Sound, D.Destinations;
    PublishedResolves(s, u, TO_ALL, glob, now, routes, created, via);
    D.PublishedMeans(s, u, TO_ALL, glob, now, routes, created, None, via);
    CrossedRoutes(s, glob, routes);
    CrossedLevels(s, n);
  }

  /**
   A publication that serves "B" before "A", when both are full, leaves "B" over its maximum although
   both were trimmed in their turn; in the other order "B" would have ended within it.
   */
  lemma {:induction false} CrossedOverflows(u: State, glob: Glob, now: int, routes: seq<R.Route>, created: seq<Message>,
                                            via: seq<State>)
    requires D.Published(FULL, u, TO_ALL, glob, now, routes, created, None, via)
    ensures Inv(FULL) && |Ready(u, "B")| == 2 && !WithinMax(u, "B")
    ensures Excess(FULL.addresses, "B", Level(FULL, ["A", "B"], 2, "B")) == 0
  {
    hide Ready, Inv, D.Published, Level;
    FullIsGood();
    T.InvParts(FULL);
    CrossedPublication(FULL, u, 1, glob, now, routes, created, via);
    CrossedLevels(FULL, 1);
  }

  method SetUpAddresses(node: Node)
    requires node.store.View() == EMPTY
    modifies node.store
    ensures node.store.View() == EMPTY.(addresses := CROSSED.addresses)
  {
    hide A.ValidName;
    Named();
    var b := A.CreateAddress(node.store, A.Create("B", None, 1, 0, ""));
    var a := A.CreateAddress(node.store, A.Create("A", None, 1, 0, "B"));
    var t := A.CreateAddress(node.store, A.Create("T", Some(Fanout), 0, 0, ""));
    assert node.store.addresses == CROSSED.addresses;
  }

  /** Creates the addresses and bindings of CROSSED. */
  method SetUp(node: Node)
    requires node.Valid() && node.store.View() == EMPTY
    modifies node.store
    ensures node.store.View() == CROSSED && Inv(CROSSED)
  {
    hide Inv;
    SetUpAddresses(node);
    var b1 := A.Bind(node.store, TO_B);
    var b2 := A.Bind(node.store, TO_A);
    assert node.store.bindings == CROSSED.bindings;
    NoneReady();
  }

  /** One publication to all; only the log can stop it. */
  method PublishToAll(node: Node, n: nat) returns (err: Option<D.DeliveryError>)
    requires node.Valid() && Inv(node.store.View()) && IsCrossed(node.store.View()) && n <= 1
    requires |Ready(node.store.View(), "A")| == n && |Ready(node.store.View(), "B")| == n
    modifies node.store
    ensures Inv(node.store.View()) && IsCrossed(node.store.View())
    ensures err.Some? ==> err == Some(D.Storage(LogFailed))
    ensures err.None? ==> |Ready(node.store.View(), "A")| == 1 && |Ready(node.store.View(), "B")| == 1 + n
  {
    hide Inv, Ready, D.Published, D.Posted, AtLevels, Quiet, Isolated, Sound;
    ghost var s := node.store.View();
    T.InvParts(s);
    var created, e, routes, via := node.delivery.Publish(TO_ALL, 0);
    err := e;
    QuietKeepsInv(s, node.store.View());
    PostedCrossed(s, node.store.View(), created);
    if err.None? {
      CrossedPublication(s, node.store.View(), n, node.cfg.glob, 0, routes, created, via);
    } else {
      OnlyTheLogStops(s, node.store.View(), node.cfg.glob, routes, created, err.value, via);
    }
  }

  /** It happens: two publications to a new broker, unless the log refuses a body. */
  method Overfill(glob: Glob) returns (node: Node, err: Option<D.DeliveryError>)
    ensures err.Some? ==> err == Some(D.Storage(LogFailed))
    ensures err.None? ==> Inv(node.store.View()) && !WithinMax(node.store.View(), "B")
  {
    hide Inv, Ready;
    node := new Node(Config(glob, 0));
    SetUp(node);
    NoneReady();
    err := PublishToAll(node, 0);
    if err.None? {
      err := PublishToAll(node, 1);
    }
  }

  lemma {:induction false} Named()
    ensures A.ValidName("A") && A.ValidName("B") && A.ValidName("T")
  {}

  lemma {:induction false} NoneReady()
    ensures Inv(CROSSED) && |Ready(CROSSED, "A")| == 0 && |Ready(CROSSED, "B")| == 0
  {
    assert Ready(CROSSED, "A") == {} && Ready(CROSSED, "B") == {};
  }

  lemma {:induction false} PostedCrossed(s: State, t: State, created: seq<Message>)
    requires D.Posted(s, t, created) && IsCrossed(s)
    ensures IsCrossed(t)
  {}

  lemma {:induction false} OnlyTheLogStops(s: State, u: State, glob: Glob, routes: seq<R.Route>, created: seq<Message>,
                                           e: D.DeliveryError, via: seq<State>)
    requires IsCrossed(s) && D.Published(s, u, TO_ALL, glob, 0, routes, created, Some(e), via)
    ensures e == D.Storage(LogFailed)
  {
    hide D.FiledAll, R.IsResolution;
    if e == D.Unroutable {
      CrossedRoutes(s, glob, []);
    } else {
      CrossedRoutes(s, glob, routes);
    }
  }

  lemma {:induction false} PublishedResolves(s: State, u: State, p: D.Publication, glob: Glob, now: int,
                                             routes: seq<R.Route>, created: seq<Message>, via: seq<State>)
    requires D.Published(s, u, p, glob, now, routes, created, None, via)
    ensures R.IsResolution(s.addresses, s.bindings, p.address, p.routingKey, p.headers, glob, routes)
  {
    hide D.FiledAll, D.Drafted, R.IsResolution;
  }

  // ---------------------------------------------------------------- isolation

  /**
   After a publication was staged under a transaction and all dead messages were replayed, its
   messages are visible while the transaction is still open exactly when the publisher supplied an
   origin header that names an open address.
   */
  lemma {:induction false} ForgedOriginEscapes(s: State, t: State, u: State, x: Id, p: D.Publication, glob: Glob, now: int,
                                               routes: seq<R.Route>, kept: seq<Message>, chosen: set<Id>, k: Id)
    requires Inv(s) && T.Staging(s, t, x, p, glob, now, routes, kept, None)
    requires D.Replayed(t, u, chosen) && |chosen| == |D.DeadIds(t)| && k in Ids(kept)
    ensures x in u.transactions && u.transactions[x].state == Active && k in u.transactions[x].Staged()
    ensures k in u.messages && u.messages[k].tx == Some(x)
    ensures u.messages[k].state == Available <==> HasOrigin(p.headers) && D.Open(s.addresses, p.headers[ORIGIN])
    ensures HasOrigin(p.headers) && D.Open(s.addresses, p.headers[ORIGIN]) ==> k in Ready(u, p.headers[ORIGIN])
  {
    hide Inv, HasOrigin, D.Open, D.StagedAs, D.Replayed, D.DeadIds, Ready;
    var i :| 0 <= i < |kept| && kept[i].id == k;
    StagedMessage(s, t, x, p, glob, now, routes, kept, i);
    assert u.transactions == t.transactions && u.addresses == t.addresses by {
      ReplayedFrame(t, u, chosen);
    }
    assert t.transactions[x].operations[|s.transactions[x].operations| + i].message == k;
    Runs.AllChosen(t, u, chosen);
    Runs.EscapesExactlyWhen(t, u, chosen, k);
    ReplayedOne(t, u, chosen, k);
  }

  lemma {:induction false} ReplayedFrame(t: State, u: State, chosen: set<Id>)
    requires D.Replayed(t, u, chosen)
    ensures u == t.(messages := u.messages)
  {}

  lemma {:induction false} ReplayedOne(t: State, u: State, chosen: set<Id>, k: Id)
    requires D.Replayed(t, u, chosen) && k in t.messages && chosen == D.DeadIds(t)
    ensures k in u.messages && u.messages[k].tx == t.messages[k].tx
    ensures HasOrigin(t.messages[k].headers) ==> k in chosen
  {}

  lemma {:induction false} StagedMessage(s: State, t: State, x: Id, p: D.Publication, glob: Glob, now: int,
                                         routes: seq<R.Route>, kept: seq<Message>, i: nat)
    requires T.Staging(s, t, x, p, glob, now, routes, kept, None) && i < |kept|
    ensures x in s.transactions && t.addresses == s.addresses
    ensures t.transactions == s.transactions[x := Journalled(s.transactions[x], T.Operations(kept))]
    ensures s.transactions[x].state == Active
    ensures kept[i].id in t.messages
    ensures var m := t.messages[kept[i].id]; m.tx == Some(x) && m.state == Acquired && m.headers == p.headers
  {
    hide D.NewMessage, D.Admits, HasOrigin;
    D.MessageFields(s.minted + i, p.(tx := Some(x), address := routes[i].destination, ttl := D.Ttl(s, p)), now);
  }

  const FORGED := D.Publication("Q", "", map[ORIGIN := "Q"], [1], 0, 0, None)

  /** A queue "Q" and nothing else. */
  const QUEUED := EMPTY.(addresses := map["Q" := Address("Q", Queue, 0, 0, "", false, 1)])

  /** The same with an open transaction. */
  function Opened(ttl: int): State {
    QUEUED.(transactions := map[0 := NewTransaction(0, "c", 0, ttl)], minted := 1)
  }

  lemma {:induction false} QueuedIsGood()
    ensures A.ValidName("Q") && Inv(QUEUED)
  {}

  /** Only the log can stop the forged publication. */
  lemma {:induction false} OnlyTheLogStopsStaging(ttl: int, t: State, glob: Glob, routes: seq<R.Route>, kept: seq<Message>,
                                                  e: T.TransactionError)
    requires ttl > 0 && T.Staging(Opened(ttl), t, 0, FORGED, glob, 0, routes, kept, Some(e))
    ensures e == T.Publishing(D.Storage(LogFailed))
  {
    hide D.Added, D.Drafted;
  }

  /** It happens: a publication staged with the header and one replay, unless the log refuses the body. */
  method Escape(glob: Glob) returns (node: Node, r: Result<seq<Message>, T.TransactionError>)
    ensures r.Err? ==> r.error == T.Publishing(D.Storage(LogFailed))
    ensures r.Ok? ==>
              var s := node.store.View();
              && 0 in s.transactions && s.transactions[0].state == Active && r.value != []
              && forall k :: k in Ids(r.value) ==> k in s.transactions[0].Staged() && k in Ready(s, "Q")
  {
    hide Inv, Ready, A.ValidName, T.Staging, D.Replayed, Quiet, Isolated, Sound, Step, D.DeadIds, Extended, Ids;
    node := new Node(Config(glob, 0));
    QueuedIsGood();
    var a := A.CreateAddress(node.store, A.Create("Q", None, 0, 0, ""));
    assert node.store.View() == QUEUED;
    var tx := node.transactions.Declare("c", 0);
    ghost var s := Opened(T.Lifetime(0));
    assert node.store.View() == s;
    var staged, routes, kept := node.transactions.StagePublish(0, FORGED, 0);
    r := staged;
    ghost var t := node.store.View();
    if r.Err? {
      OnlyTheLogStopsStaging(T.Lifetime(0), t, glob, routes, kept, r.error);
      return;
    }
    var n, chosen := node.delivery.ReplayDead(0);
    StagedSome(s, t, glob, routes, kept);
    forall k | k in Ids(r.value)
      ensures k in node.store.transactions[0].Staged() && k in Ready(node.store.View(), "Q")
    {
      ForgedOriginEscapes(s, t, node.store.View(), 0, FORGED, glob, 0, routes, kept, chosen, k);
    }
  }

  lemma {:induction false} StagedSome(s: State, t: State, glob: Glob, routes: seq<R.Route>, kept: seq<Message>)
    requires T.Staging(s, t, 0, FORGED, glob, 0, routes, kept, None)
    ensures kept != [] && 0 in t.transactions && t.transactions[0].state == Active
  {
    hide D.StagedAs;
    T.StagedSome(s, t.(transactions := s.transactions), FORGED.(tx := Some(0)), glob, 0, routes, kept);
  }
}
