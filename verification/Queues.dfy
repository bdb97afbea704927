/** Ready messages of an address, their order, and what trimming an address to its maximum length does. */
module Queues {
  import opened Wrappers
  import opened Sorting
  import opened Addresses
  import opened Broker

  predicate IsReady(m: Message, address: string) {
    m.address == address && m.state == Available
  }

  /** The ids of the messages that can be delivered from an address; Depth is their number. */
  ghost function Ready(s: State, address: string): set<Id> {
    set k | k in s.messages && IsReady(s.messages[k], address)
  }

  /** Higher priority first, then older first. */
  predicate Ahead(x: Message, y: Message) {
    if x.priority != y.priority then x.priority > y.priority else x.createdAt < y.createdAt
  }

  /** The message has the higher priority, or the same and is not the younger one. */
  predicate NoWorse(x: Message, y: Message) {
    y.priority < x.priority || (y.priority == x.priority && x.createdAt <= y.createdAt)
  }

  lemma RankedByPriorityThenAge(x: Message, y: Message)
    ensures !Ahead(y, x) <==> NoWorse(x, y)
  {}

  lemma {:induction false} AheadIsOrder()
    ensures StrictWeakOrder(Ahead)
  {}

  ghost function Ids(list: seq<Message>): set<Id> {
    set i | 0 <= i < |list| :: list[i].id
  }

  ghost predicate DistinctIds(list: seq<Message>) {
    forall i, j :: 0 <= i < j < |list| ==> list[i].id != list[j].id
  }

  /** The ready messages of an address, each once, best first. */
  ghost predicate IsReadyList(s: State, address: string, list: seq<Message>) {
    && (forall m :: m in list ==> m.id in s.messages && s.messages[m.id] == m && IsReady(m, address))
    && (forall k :: k in s.messages && IsReady(s.messages[k], address) ==> s.messages[k] in list)
    && DistinctIds(list)
    && Ordered(list, Ahead)
  }

  lemma {:induction false} IdsCount(list: seq<Message>)
    requires DistinctIds(list)
    ensures |Ids(list)| == |list|
  {
    if list != [] {
      var front, last := list[..|list| - 1], list[|list| - 1];
      IdsCount(front);
      assert Ids(list) == Ids(front) + {last.id};
      assert last.id !in Ids(front);
    }
  }

  lemma {:induction false} ReadyAreIds(s: State, address: string, list: seq<Message>)
    requires Sound(s) && IsReadyList(s, address, list)
    ensures Ready(s, address) == Ids(list) && |Ready(s, address)| == |list|
  {
    forall k
      ensures k in Ready(s, address) <==> k in Ids(list)
    {
      if k in Ready(s, address) {
        assert MessageSound(s, k);
        var i :| 0 <= i < |list| && list[i] == s.messages[k];
        assert list[i].id == k;
      }
    }
    IdsCount(list);
  }

  // ---------------------------------------------------------------- dead letters

  /** Where the dead letters of an address go: its dead-letter address, if that exists and is not paused. */
  function Sink(addresses: map<string, Address>, name: string): Option<string> {
    if name !in addresses then None
    else
      var dead := addresses[name].deadLetter;
      if dead != "" && dead in addresses && !addresses[dead].paused then Some(dead) else None
  }

  /** What dead-lettering makes of a message: off to the dead-letter address, or marked where it is. */
  function Buried(addresses: map<string, Address>, m: Message, reason: string): Message {
    var headers := m.headers[REASON := reason][ORIGIN := m.address];
    match Sink(addresses, m.address)
    case Some(dead) => m.(headers := headers, address := dead, state := Available, expiresAt := None)
    case None => m.(headers := headers, state := DeadLettered)
  }

  /** A dead-lettered message is no longer ready where it was, keeps its identity, and stays in an existing address. */
  lemma {:induction false} BuriedElsewhere(s: State, k: Id, reason: string)
    requires Sound(s) && k in s.messages
    ensures k in s.messages && s.messages[k].address in s.addresses
    ensures var m := s.messages[k];
            var n := Buried(s.addresses, m, reason);
            && !IsReady(n, m.address)
            && n.id == m.id && n.body == m.body && n.logOffset == m.logOffset && n.tx == m.tx
            && n.priority == m.priority && n.createdAt == m.createdAt
            && n.address in s.addresses
            && (n.state == DeadLettered || (n.state == Available && n.address != m.address))
    ensures var m := s.messages[k];
            var n := Buried(s.addresses, m, reason);
            var dead := s.addresses[m.address].deadLetter;
            && REASON in n.headers && n.headers[REASON] == reason && ORIGIN in n.headers && n.headers[ORIGIN] == m.address
            && (forall h :: h != REASON && h != ORIGIN ==>
                  (h in n.headers <==> h in m.headers) && (h in m.headers ==> n.headers[h] == m.headers[h]))
            && n.routingKey == m.routingKey && n.deliveryCount == m.deliveryCount && n.redelivered == m.redelivered
            && if dead != "" && dead in s.addresses && !s.addresses[dead].paused
               then n.address == dead && n.state == Available && n.expiresAt == None
               else n.address == m.address && n.state == DeadLettered && n.expiresAt == m.expiresAt
  {
    assert MessageSound(s, k);
  }

  // ---------------------------------------------------------------- trimming

  /** The victims were dead-lettered for length; nothing else changed. */
  ghost predicate Trimmed(s: State, t: State, victims: set<Id>) {
    && t == s.(messages := t.messages)
    && t.messages.Keys == s.messages.Keys
    && (forall k :: k in s.messages && k !in victims ==> t.messages[k] == s.messages[k])
    && (forall k :: k in s.messages && k in victims ==>
          t.messages[k] == Buried(s.addresses, s.messages[k], "max-length"))
  }

  /** Trimming touches only ready messages, so it is a quiet call. */
  lemma {:induction false} TrimmedIsQuiet(s: State, t: State, victims: set<Id>)
    requires Sound(s) && Trimmed(s, t, victims)
    requires forall k :: k in victims ==> k in s.messages && s.messages[k].state == Available
    ensures Sound(t)
    ensures Isolated(s) ==> Quiet(s, t)
  {
    hide Buried, Isolated, HasOrigin;
    forall k | k in t.messages
      ensures MessageSound(t, k)
      ensures Isolated(s) ==> OutOfReach(t.messages[k]) && Evolves(s.messages[k], t.messages[k])
    {
      assert MessageSound(s, k);
      if k in victims {
        BuriedElsewhere(s, k, "max-length");
      }
      if Isolated(s) {
        assert OutOfReach(s.messages[k]) by {
          IsolatedOne(s, k);
        }
      }
    }
    if Isolated(s) {
      AllIsolated(t);
    }
  }

  lemma {:induction false} IsolatedOne(s: State, k: Id)
    requires Isolated(s) && k in s.messages
    ensures OutOfReach(s.messages[k])
  {}

  lemma {:induction false} AllIsolated(s: State)
    requires forall k :: k in s.messages ==> OutOfReach(s.messages[k])
    ensures Isolated(s)
  {}

  lemma {:induction false} ReadyAfterTrim(s: State, t: State, address: string, victims: set<Id>)
    requires Sound(s) && Trimmed(s, t, victims) && victims <= Ready(s, address)
    ensures Ready(t, address) == Ready(s, address) - victims
  {
    hide Buried;
    forall k
      ensures k in Ready(t, address) <==> k in Ready(s, address) && k !in victims
    {
      if k in victims {
        BuriedElsewhere(s, k, "max-length");
      }
    }
  }

  lemma {:induction false} SplitIds(list: seq<Message>, n: nat)
    requires DistinctIds(list) && n <= |list|
    ensures Ids(list[..n]) == Ids(list) - Ids(list[n..])
    ensures Ids(list[n..]) <= Ids(list)
    ensures |Ids(list[..n])| == n
  {
    IdsCount(list[..n]);
    forall k
      ensures k in Ids(list[..n]) <==> k in Ids(list) && k !in Ids(list[n..])
    {
      SplitId(list, n, k);
    }
    assert forall k :: k in Ids(list[n..]) ==> k in Ids(list);
  }

  lemma {:induction false} SplitId(list: seq<Message>, n: nat, k: Id)
    requires DistinctIds(list) && n <= |list|
    ensures k in Ids(list[..n]) <==> k in Ids(list) && k !in Ids(list[n..])
  {
    if k in Ids(list) {
      var i :| 0 <= i < |list| && list[i].id == k;
      if i < n {
        assert list[..n][i].id == k;
      } else {
        assert list[n..][i - n].id == k;
      }
    }
  }

  lemma {:induction false} KeptRankHigher(s: State, address: string, list: seq<Message>, n: nat, x: Id, y: Id)
    requires IsReadyList(s, address, list) && n <= |list|
    requires x in Ids(list[..n]) && y in Ids(list[n..])
    ensures x in s.messages && y in s.messages && !Ahead(s.messages[y], s.messages[x])
  {
    var i :| 0 <= i < n && list[..n][i].id == x;
    var j :| 0 <= j < |list| - n && list[n..][j].id == y;
    assert list[i] in list && list[n + j] in list;
    assert !Ahead(list[n + j], list[i]);
  }

  /**
   Keeping the first n of the ready list: exactly those stay ready at the address, and none of
   them ranks below a victim.
   */
  lemma {:induction false} TrimKeepsBest(s: State, t: State, address: string, list: seq<Message>, n: nat)
    requires Sound(s) && IsReadyList(s, address, list) && n <= |list|
    requires Trimmed(s, t, Ids(list[n..]))
    ensures Ready(t, address) == Ready(s, address) - Ids(list[n..])
    ensures |Ready(s, address)| == |list| && |Ready(t, address)| == n
    ensures forall x, y :: x in Ready(t, address) && y in Ids(list[n..]) ==>
              x in s.messages && y in s.messages && NoWorse(s.messages[x], s.messages[y])
  {
    hide Ready, Trimmed, Ids, Sound, Ahead;
    ReadyAreIds(s, address, list);
    SplitIds(list, n);
    ReadyAfterTrim(s, t, address, Ids(list[n..]));
    forall x, y | x in Ready(t, address) && y in Ids(list[n..])
      ensures x in s.messages && y in s.messages && NoWorse(s.messages[x], s.messages[y])
    {
      KeptRankHigher(s, address, list, n, x, y);
      RankedByPriorityThenAge(s.messages[x], s.messages[y]);
    }
  }

  // ---------------------------------------------------------------- maximum lengths

  /** How many of n ready messages are beyond the maximum of the address. */
  function Excess(addresses: map<string, Address>, name: string, n: nat): (over: nat)
    ensures over <= n
  {
    if name in addresses && 0 < addresses[name].maxLength < n then n - addresses[name].maxLength else 0
  }

  /** The lowest ranking ready messages beyond the maximum were dead-lettered; nothing else changed. */
  ghost predicate Enforced(s: State, t: State, name: string, victims: set<Id>) {
    && Trimmed(s, t, victims) && victims <= Ready(s, name)
    && |victims| == Excess(s.addresses, name, |Ready(s, name)|)
    && (forall x, y :: x in Ready(s, name) && x !in victims && y in victims ==> NoWorse(s.messages[x], s.messages[y]))
  }

  /** The address holds no more ready messages than its maximum length, if it has one. */
  ghost predicate WithinMax(s: State, address: string) {
    Excess(s.addresses, address, |Ready(s, address)|) == 0
  }

  /** The message becomes ready at its address; nothing else changes hands. */
  ghost predicate Arrived(t: State, u: State, m: Message) {
    && m.state == Available && (m.id in t.messages ==> t.messages[m.id].state != Available)
    && u.addresses == t.addresses && u.messages == t.messages[m.id := m]
  }

  lemma {:induction false} ReadyOnArrival(t: State, u: State, m: Message, a: string)
    requires Arrived(t, u, m)
    ensures |Ready(u, a)| == |Ready(t, a)| + (if a == m.address then 1 else 0)
  {
    forall k
      ensures k in Ready(u, a) <==> k in Ready(t, a) || (k == m.id && a == m.address)
    {}
    if a == m.address {
      assert m.id !in Ready(t, a);
      assert Ready(u, a) == Ready(t, a) + {m.id};
    } else {
      assert Ready(u, a) == Ready(t, a);
    }
  }

  /** Trimming moves the victims to where the dead letters of the address go, and nowhere else. */
  lemma {:induction false} ReadyOnTrim(u: State, v: State, d: string, victims: set<Id>, a: string)
    requires Sound(u) && Trimmed(u, v, victims) && victims <= Ready(u, d)
    ensures Ready(v, a) == if a == d then Ready(u, a) - victims
                           else if Sink(u.addresses, d) == Some(a) then Ready(u, a) + victims
                           else Ready(u, a)
  {
    hide Sink, Sound;
    if a == d {
      ReadyAfterTrim(u, v, d, victims);
    } else {
      forall k
        ensures k in Ready(v, a) <==> k in Ready(u, a) || (k in victims && Sink(u.addresses, d) == Some(a))
      {}
    }
  }

  lemma {:induction false} CountOnTrim(u: State, v: State, d: string, victims: set<Id>, a: string)
    requires Sound(u) && Enforced(u, v, d, victims)
    ensures var over := Excess(u.addresses, d, |Ready(u, d)|);
            |Ready(v, a)| == if a == d then |Ready(u, a)| - over
                             else if Sink(u.addresses, d) == Some(a) then |Ready(u, a)| + over
                             else |Ready(u, a)|
  {
    hide Sound, Sink, Trimmed;
    ReadyOnTrim(u, v, d, victims, a);
    if a != d {
      assert Ready(u, a) !! victims;
    }
  }

  // ---------------------------------------------------------------- how full addresses get

  /**
   How many messages are ready at an address after the first n of these stops were served in turn,
   each with one new ready message and a trim; told from the state before the first.
   */
  ghost function Level(s: State, stops: seq<string>, n: nat, a: string): nat
    requires n <= |stops|
    decreases n, 0
  {
    if n == 0 then |Ready(s, a)|
    else
      var d, before, over := stops[n - 1], Level(s, stops, n - 1, a), Overflow(s, stops, n - 1);
      if a == d then before + 1 - over
      else if Sink(s.addresses, d) == Some(a) then before + over
      else before
  }

  /** How many messages stop i pushes out. */
  ghost function Overflow(s: State, stops: seq<string>, i: nat): (over: nat)
    requires i < |stops|
    ensures over <= Level(s, stops, i, stops[i]) + 1
    decreases i, 1
  {
    Excess(s.addresses, stops[i], Level(s, stops, i, stops[i]) + 1)
  }

  /** How many dead letters stops i up to n send to an address. */
  ghost function Received(s: State, stops: seq<string>, i: nat, n: nat, a: string): nat
    requires i <= n <= |stops|
    decreases n
  {
    if i == n then 0
    else Received(s, stops, i, n - 1, a) +
         if Sink(s.addresses, stops[n - 1]) == Some(a) then Overflow(s, stops, n - 1) else 0
  }

  ghost predicate AtLevels(s: State, stops: seq<string>, n: nat, t: State)
    requires n <= |stops|
  {
    t.addresses == s.addresses && forall a :: |Ready(t, a)| == Level(s, stops, n, a)
  }

  /** Serving one more stop takes every address to its next level. */
  lemma {:induction false} NextLevels(s: State, stops: seq<string>, n: nat, t: State, u: State, v: State, m: Message,
                                      victims: set<Id>)
    requires n < |stops| && AtLevels(s, stops, n, t) && stops[n] == m.address
    requires Arrived(t, u, m) && Sound(u) && Enforced(u, v, m.address, victims)
    ensures AtLevels(s, stops, n + 1, v)
  {
    hide Sound, Sink, Excess, Ready;
    forall a
      ensures |Ready(v, a)| == Level(s, stops, n + 1, a)
    {
      ReadyOnArrival(t, u, m, a);
      ReadyOnArrival(t, u, m, m.address);
      CountOnTrim(u, v, m.address, victims, a);
    }
  }

  /**
   An address that is not served from stop i on gains exactly the dead letters of the stops from
   there on; right after its own turn it is within its maximum.
   */
  lemma {:induction false} LevelAfter(s: State, stops: seq<string>, i: nat, n: nat, a: string)
    requires i <= n <= |stops| && a !in stops[i..n]
    ensures Level(s, stops, n, a) == Level(s, stops, i, a) + Received(s, stops, i, n, a)
  {
    hide Sink, Excess;
    if i < n {
      assert stops[i..n] == stops[i..n - 1] + [stops[n - 1]];
      LevelAfter(s, stops, i, n - 1, a);
    }
  }

  /**
   After all stops an address that had its last turn before stop i is within its maximum exactly
   when what was ready there by then, with the dead letters it receives from stop i on, is.  Right
   after its turn it always is.
   */
  lemma {:induction false} WithinMaxExactlyWhen(s: State, stops: seq<string>, n: nat, t: State, i: nat, a: string)
    requires i <= n <= |stops| && AtLevels(s, stops, n, t) && a !in stops[i..n]
    ensures WithinMax(t, a) <==>
            Excess(s.addresses, a, Level(s, stops, i, a) + Received(s, stops, i, n, a)) == 0
    ensures i > 0 && stops[i - 1] == a ==> Excess(s.addresses, a, Level(s, stops, i, a)) == 0
  {
    LevelAfter(s, stops, i, n, a);
  }

  /** An address that no later stop dead-letters to ends within its maximum. */
  lemma {:induction false} SparedStaysWithin(s: State, stops: seq<string>, n: nat, t: State, i: nat)
    requires i < n <= |stops| && AtLevels(s, stops, n, t) && stops[i] !in stops[i + 1..n]
    requires forall j :: i < j < n ==> Sink(s.addresses, stops[j]) != Some(stops[i])
    ensures WithinMax(t, stops[i])
  {
    NothingReceived(s, stops, i + 1, n, stops[i]);
    WithinMaxExactlyWhen(s, stops, n, t, i + 1, stops[i]);
  }

  lemma {:induction false} NothingReceived(s: State, stops: seq<string>, i: nat, n: nat, a: string)
    requires i <= n <= |stops| && forall j :: i <= j < n ==> Sink(s.addresses, stops[j]) != Some(a)
    ensures Received(s, stops, i, n, a) == 0
  {
    if i < n {
      NothingReceived(s, stops, i, n - 1, a);
    }
  }
}
