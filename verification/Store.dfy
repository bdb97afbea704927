/** The in-memory store (internal/storage/infrastructure/memory*.go), with the body log as a list and the id supply. */
module Stores {
  import opened Wrappers
  import opened Bytes
  import opened Ranging
  import opened Sorting
  import opened Addresses
  import opened Broker
  import opened Queues

  datatype StoreError = NotFound | Conflict | LogFailed

  const BODY_LIMIT := 0x400_0000  // 64 MiB

  class Store {
    var addresses: map<string, Address>
    var bindings: map<string, Binding>
    var messages: map<Id, Message>
    var consumers: map<string, Consumer>
    var transactions: map<Id, Transaction>
    var log: seq<bytes>
    var minted: Id

    ghost function View(): State
      reads this
    {
      State(addresses, bindings, messages, consumers, transactions, log, minted)
    }

    constructor ()
      ensures View() == EMPTY
    {
      addresses, bindings, messages, consumers, transactions := map[], map[], map[], map[], map[];
      log, minted := [], 0;
    }

    // -------------------------------------------------------------- messages

    method Put(m: Message) returns (r: Result<(), StoreError>)
      modifies this`messages
      ensures if m.id in old(messages) then r == Err(Conflict) && messages == old(messages)
              else r == Ok(()) && messages == old(messages)[m.id := m]
    {
      if m.id in messages {
        return Err(Conflict);
      }
      messages := messages[m.id := m];
      r := Ok(());
    }

    method Update(m: Message) returns (r: Result<(), StoreError>)
      modifies this`messages
      ensures if m.id in old(messages) then r == Ok(()) && messages == old(messages)[m.id := m]
              else r == Err(NotFound) && messages == old(messages)
    {
      if m.id !in messages {
        return Err(NotFound);
      }
      messages := messages[m.id := m];
      r := Ok(());
    }

    method Delete(id: Id) returns (r: Result<(), StoreError>)
      modifies this`messages
      ensures if id in old(messages) then r == Ok(()) && messages == old(messages) - {id}
              else r == Err(NotFound) && messages == old(messages)
    {
      if id !in messages {
        return Err(NotFound);
      }
      messages := messages - {id};
      r := Ok(());
    }

    /** The ready messages of an address, in the order the map gives them. */
    method FilterReady(address: string) returns (out: seq<Message>)
      requires forall k :: k in messages ==> messages[k].id == k
      ensures forall m :: m in out ==> m.id in messages && messages[m.id] == m && IsReady(m, address)
      ensures forall k :: k in messages && IsReady(messages[k], address) ==> messages[k] in out
      ensures DistinctIds(out)
    {
      hide Distinct, IsReady;
      var order := Range(messages.Keys);
      out := [];
      for i := 0 to |order|
        invariant forall m :: m in out ==> m.id in messages && messages[m.id] == m && IsReady(m, address)
        invariant forall m :: m in out ==> m.id in order[..i]
        invariant forall j :: 0 <= j < i && IsReady(messages[order[j]], address) ==> messages[order[j]] in out
        invariant DistinctIds(out)
      {
        var m := messages[order[i]];
        if IsReady(m, address) {
          NotYet(order, i);
          out := out + [m];
        }
      }
    }

    /** The ready messages of an address, best first; with a positive limit, only that many. */
    method ListReady(address: string, limit: int) returns (list: seq<Message>, ghost full: seq<Message>)
      requires forall k :: k in messages ==> messages[k].id == k
      ensures IsReadyList(View(), address, full)
      ensures list == if 0 < limit < |full| then full[..limit] else full
      ensures forall m :: m in list ==> m.address == address && m.state == Available && m.id in messages && messages[m.id] == m
      ensures forall i, j :: 0 <= i < j < |list| ==> NoWorse(list[i], list[j]) && list[i].id != list[j].id
      ensures limit <= 0 ==> forall k :: k in messages && messages[k].address == address && messages[k].state == Available ==>
                messages[k] in list
    {
      hide Ahead, IsReady, DistinctIds, Ordered, StrictWeakOrder, NoWorse;
      var out := FilterReady(address);
      list := Sort(out, Ahead);
      AheadIsOrder();
      SortOrdered(out, Ahead);
      SortMembers(out, Ahead);
      SortKeepsIdsDistinct(out, list);
      full := list;
      ReadyListMeans(View(), address, full);
      if limit > 0 && |list| > limit {
        list := list[..limit];
      }
    }

    method Depth(address: string) returns (n: nat)
      ensures n == |Ready(View(), address)|
      ensures n == |set k | k in messages && messages[k].address == address && messages[k].state == Available|
    {
      hide Distinct, IsReady;
      var order := Range(messages.Keys);
      n := 0;
      ghost var counted: set<Id> := {};
      for i := 0 to |order|
        invariant n == |counted|
        invariant forall k :: k in counted ==> k in order[..i] && IsReady(messages[k], address)
        invariant forall j :: 0 <= j < i && IsReady(messages[order[j]], address) ==> order[j] in counted
      {
        var m := messages[order[i]];
        if IsReady(m, address) {
          NotYet(order, i);
          n := n + 1;
          counted := counted + {order[i]};
        }
      }
      assert counted == Ready(View(), address);
      ReadyAre(View(), address);
    }

    /** Every message, in no particular order. */
    method All() returns (list: seq<Message>)
      requires forall k :: k in messages ==> messages[k].id == k
      ensures forall m :: m in list ==> m.id in messages && messages[m.id] == m
      ensures forall k :: k in messages ==> messages[k] in list
      ensures DistinctIds(list)
    {
      var order := Range(messages.Keys);
      list := seq(|order|, i requires 0 <= i < |order| && order[i] in messages reads this => messages[order[i]]);
      forall k | k in messages
        ensures messages[k] in list
      {
        var i :| 0 <= i < |order| && order[i] == k;
        assert list[i] == messages[k];
      }
    }

    // -------------------------------------------------------------- the log and the id supply

    /** Appends a body to the log; bodies over the limit, and sometimes others, are refused. */
    method AppendBody(body: bytes) returns (r: Result<nat, StoreError>)
      modifies this`log
      ensures match r
              case Ok(offset) => offset == |old(log)| && log == old(log) + [body] && |body| <= BODY_LIMIT
              case Err(e) => e == LogFailed && log == old(log)
    {
      if |body| > BODY_LIMIT {
        return Err(LogFailed);
      }
      if * {
        return Err(LogFailed);
      }
      r := Ok(|log|);
      log := log + [body];
    }

    method Mint() returns (id: Id)
      modifies this`minted
      ensures id == old(minted) && minted == id + 1
    {
      id := minted;
      minted := minted + 1;
    }

    // -------------------------------------------------------------- transactions

    method CreateTransaction(tx: Transaction) returns (r: Result<(), StoreError>)
      modifies this`transactions
      ensures if tx.id in old(transactions) then r == Err(Conflict) && transactions == old(transactions)
              else r == Ok(()) && transactions == old(transactions)[tx.id := tx]
    {
      if tx.id in transactions {
        return Err(Conflict);
      }
      transactions := transactions[tx.id := tx];
      r := Ok(());
    }

    /** Accepts any version above the stored one. */
    method UpdateTransaction(tx: Transaction) returns (r: Result<(), StoreError>)
      modifies this`transactions
      ensures if tx.id !in old(transactions) then r == Err(NotFound) && transactions == old(transactions)
              else if tx.version <= old(transactions)[tx.id].version
              then r == Err(Conflict) && transactions == old(transactions)
              else r == Ok(()) && transactions == old(transactions)[tx.id := tx]
    {
      if tx.id !in transactions {
        return Err(NotFound);
      }
      if tx.version <= transactions[tx.id].version {
        return Err(Conflict);
      }
      transactions := transactions[tx.id := tx];
      r := Ok(());
    }

    /** The active transactions, oldest first. */
    method ListActive() returns (list: seq<Transaction>)
      requires forall t :: t in transactions ==> transactions[t].id == t
      ensures forall x :: x in list ==> x.id in transactions && transactions[x.id] == x && x.state == Active
      ensures forall t :: t in transactions && transactions[t].state == Active ==> transactions[t] in list
      ensures Distinct(list) && forall i, j :: 0 <= i < j < |list| ==> list[i].createdAt <= list[j].createdAt
    {
      var order := Range(transactions.Keys);
      var out: seq<Transaction> := [];
      for i := 0 to |order|
        invariant forall x :: x in out ==> x.id in transactions && transactions[x.id] == x && x.state == Active
        invariant forall x :: x in out ==> x.id in order[..i]
        invariant forall j :: 0 <= j < i && transactions[order[j]].state == Active ==> transactions[order[j]] in out
        invariant Distinct(out)
      {
        var tx := transactions[order[i]];
        if tx.state == Active {
          assert order[i] !in order[..i];
          out := out + [tx];
        }
      }
      list := Sort(out, Older);
      OlderIsOrder();
      SortOrdered(out, Older);
      SortMembers(out, Older);
      SortDistinct(out, list);
    }
  }

  lemma {:induction false} ReadyAre(s: State, address: string)
    ensures Ready(s, address) == set k | k in s.messages && s.messages[k].address == address && s.messages[k].state == Available
  {}

  lemma {:induction false} ReadyListMeans(s: State, address: string, list: seq<Message>)
    requires IsReadyList(s, address, list)
    ensures forall m :: m in list ==> m.address == address && m.state == Available && m.id in s.messages && s.messages[m.id] == m
    ensures forall i, j :: 0 <= i < j < |list| ==> NoWorse(list[i], list[j]) && list[i].id != list[j].id
    ensures forall k :: k in s.messages && s.messages[k].address == address && s.messages[k].state == Available ==>
              s.messages[k] in list
  {
    forall i, j | 0 <= i < j < |list|
      ensures NoWorse(list[i], list[j]) && list[i].id != list[j].id
    {
      RankedByPriorityThenAge(list[i], list[j]);
    }
  }

  predicate Older(x: Transaction, y: Transaction) {
    x.createdAt < y.createdAt
  }

  lemma OlderIsOrder()
    ensures StrictWeakOrder(Older)
  {}

  lemma {:induction false} SortKeepsIdsDistinct(s: seq<Message>, t: seq<Message>)
    requires DistinctIds(s) && multiset(s) == multiset(t)
    ensures DistinctIds(t)
  {
    assert Distinct(s);
    SortDistinct(s, t);
    forall i, j | 0 <= i < j < |t|
      ensures t[i].id != t[j].id
    {
      assert t[i] in multiset(s) && t[j] in multiset(s);
      var a :| 0 <= a < |s| && s[a] == t[i];
      var b :| 0 <= b < |s| && s[b] == t[j];
      assert a != b;
    }
  }
}
