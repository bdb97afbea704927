/** Shard leases with fencing epochs: the coordinator and the nodes that hold leases from it. */
module Leases {
  import opened Wrappers
  import opened Bytes
  import opened Ranging

  datatype Lease = Lease(shard: int, node: string, epoch: uint64, acquiredAt: int, expiresAt: int, draining: bool) {

    predicate OwnedBy(n: string, now: int) {
      node == n && now < expiresAt && !draining
    }

    predicate Expired(now: int) {
      !(now < expiresAt)
    }
  }

  datatype LeaseError = NodeRequired | TtlNotPositive | AlreadyLeased | TokenRejected | LeaseExpired

  function NewLease(shard: int, node: string, epoch: uint64, now: int, ttl: int): Result<Lease, LeaseError> {
    if node == "" then Err(NodeRequired)
    else if ttl <= 0 then Err(TtlNotPositive)
    else Ok(Lease(shard, node, epoch, now, now + ttl, false))
  }

  // ---------------------------------------------------------------- the coordinator as values

  datatype Book = Book(leases: map<int, Lease>, epochs: map<int, uint64>) {

    function Epoch(shard: int): uint64 {
      if shard in epochs then epochs[shard] else 0
    }

    /** The lease carries the token of the shard's current lease. */
    predicate Current(l: Lease) {
      && l.shard in leases
      && leases[l.shard].node == l.node
      && leases[l.shard].epoch == l.epoch
    }
  }

  function Acquired(b: Book, shard: int, node: string, now: int, ttl: int): (Book, Result<Lease, LeaseError>) {
    if shard in b.leases && !b.leases[shard].Expired(now) && b.leases[shard].node != node
    then (b, Err(AlreadyLeased))
    else
      var epoch: uint64 := (b.Epoch(shard) + 1) % TWO_64;
      match NewLease(shard, node, epoch, now, ttl)
      case Err(e) => (b, Err(e))
      case Ok(l) => (Book(b.leases[shard := l], b.epochs[shard := epoch]), Ok(l))
  }

  /** The clock is read twice: for the expiry check, and again for the new expiry. */
  function Renewed(b: Book, l: Lease, at: int, later: int, ttl: int): (Book, Result<Lease, LeaseError>) {
    if !b.Current(l) then (b, Err(TokenRejected))
    else if b.leases[l.shard].Expired(at) then (b, Err(LeaseExpired))
    else
      var next := b.leases[l.shard].(expiresAt := later + ttl);
      (b.(leases := b.leases[l.shard := next]), Ok(next))
  }

  function Released(b: Book, l: Lease): (Book, Result<(), LeaseError>) {
    if l.shard !in b.leases then (b, Ok(()))
    else if !b.Current(l) then (b, Err(TokenRejected))
    else (b.(leases := b.leases - {l.shard}), Ok(()))
  }

  // ---------------------------------------------------------------- one node's view

  type Cache = map<int, Lease>

  /** One round of a loop over the owned shards, with the clock readings it made. */
  datatype Turn = Turn(shard: int, at: int, later: int)

  /** The cached lease still answers for the shard. */
  predicate Remembered(cache: Cache, node: string, t: Turn) {
    t.shard in cache && cache[t.shard].OwnedBy(node, t.at)
  }

  function EnsureOne(b: Book, cache: Cache, node: string, ttl: int, t: Turn): (Book, Cache, Result<Lease, LeaseError>) {
    if Remembered(cache, node, t) then (b, cache, Ok(cache[t.shard]))
    else
      var (b', r) := Acquired(b, t.shard, node, t.later, ttl);
      (b', if r.Ok? then cache[t.shard := r.value] else cache, r)
  }

  function RenewOne(b: Book, cache: Cache, ttl: int, t: Turn): (Book, Cache, Result<(), LeaseError>) {
    if t.shard !in cache then (b, cache, Ok(()))
    else
      var (b', r) := Renewed(b, cache[t.shard], t.at, t.later, ttl);
      if r.Ok? then (b', cache[t.shard := r.value], Ok(())) else (b', cache - {t.shard}, Err(r.error))
  }

  function ReleaseOne(b: Book, cache: Cache, t: Turn): (Book, Cache, Result<(), LeaseError>) {
    if t.shard !in cache then (b, cache, Ok(()))
    else
      var (b', r) := Released(b, cache[t.shard]);
      (b', cache - {t.shard}, r)
  }

  /** Turn after turn; the outcome is that of the last one. */
  function RenewTurns(b: Book, cache: Cache, ttl: int, turns: seq<Turn>): (Book, Cache, Result<(), LeaseError>) {
    if turns == [] then (b, cache, Ok(()))
    else
      var before := RenewTurns(b, cache, ttl, turns[..|turns| - 1]);
      RenewOne(before.0, before.1, ttl, turns[|turns| - 1])
  }

  /** Turn after turn; the outcome is the first refusal, if any. */
  function ReleaseTurns(b: Book, cache: Cache, turns: seq<Turn>): (Book, Cache, Result<(), LeaseError>) {
    if turns == [] then (b, cache, Ok(()))
    else
      var before := ReleaseTurns(b, cache, turns[..|turns| - 1]);
      var next := ReleaseOne(before.0, before.1, turns[|turns| - 1]);
      (next.0, next.1, if before.2.Ok? then next.2 else before.2)
  }

  /** The clock never ran backwards through these turns, from one reading to another. */
  predicate Timely(from: int, turns: seq<Turn>, to: int) {
    if turns == [] then from <= to
    else
      var t := turns[|turns| - 1];
      Timely(from, turns[..|turns| - 1], t.at) && t.at <= t.later <= to
  }

  // ---------------------------------------------------------------- as it runs

  class Clock {
    var now: int

    /** Some time that is not before the last reading. */
    method Now() returns (t: int)
      modifies this
      ensures old(now) <= t == now
    {
      t :| now <= t;
      now := t;
    }
  }

  class Coordinator {
    var leases: map<int, Lease>
    var epochs: map<int, uint64>
    const clock: Clock

    ghost function View(): Book
      reads this
    {
      Book(leases, epochs)
    }

    constructor (clock: Clock)
      ensures View() == Book(map[], map[]) && this.clock == clock
    {
      leases := map[];
      epochs := map[];
      this.clock := clock;
    }

    method Acquire(shard: int, node: string, ttl: int) returns (r: Result<Lease, LeaseError>)
      modifies this, clock
      ensures old(clock.now) <= clock.now
      ensures (View(), r) == Acquired(old(View()), shard, node, clock.now, ttl)
    {
      var now := clock.Now();
      if shard in leases && !leases[shard].Expired(now) && leases[shard].node != node {
        return Err(AlreadyLeased);
      }
      var epoch: uint64 := ((if shard in epochs then epochs[shard] else 0) as int + 1) % TWO_64;
      var lease :- NewLease(shard, node, epoch, now, ttl);
      leases := leases[shard := lease];
      epochs := epochs[shard := epoch];
      r := Ok(lease);
    }

    method Renew(l: Lease, ttl: int) returns (r: Result<Lease, LeaseError>, ghost at: int)
      modifies this, clock
      ensures old(clock.now) <= at <= clock.now
      ensures (View(), r) == Renewed(old(View()), l, at, clock.now, ttl)
    {
      at := clock.now;
      if l.shard !in leases || leases[l.shard].node != l.node || leases[l.shard].epoch != l.epoch {
        return Err(TokenRejected), at;
      }
      var current := leases[l.shard];
      var checked := clock.Now();
      at := checked;
      if current.Expired(checked) {
        return Err(LeaseExpired), at;
      }
      var now := clock.Now();
      current := current.(expiresAt := now + ttl);
      leases := leases[l.shard := current];
      r := Ok(current);
    }

    method Release(l: Lease) returns (r: Result<(), LeaseError>)
      modifies this`leases
      ensures (View(), r) == Released(old(View()), l)
    {
      if l.shard !in leases {
        return Ok(());
      }
      var current := leases[l.shard];
      if current.node != l.node || current.epoch != l.epoch {
        return Err(TokenRejected);
      }
      leases := leases - {l.shard};
      r := Ok(());
    }
  }

  class Service {
    const node: string
    const shards: uint32
    const ttl: int
    const hash: string -> uint32
    const coordinator: Coordinator
    const clock: Clock
    var owned: Cache

    constructor (node: string, shards: uint32, ttl: int, hash: string -> uint32, coordinator: Coordinator)
      ensures this.node == node && this.shards == shards && this.ttl == ttl && this.hash == hash
      ensures this.coordinator == coordinator && clock == coordinator.clock && owned == map[]
    {
      this.node, this.shards, this.ttl, this.hash := node, shards, ttl, hash;
      this.coordinator, this.clock, this.owned := coordinator, coordinator.clock, map[];
    }

    function Shard(address: string): (s: int)
      requires shards > 0
      ensures 0 <= s < shards
    {
      hash(address) as int % shards
    }

    /** Answers from the cache while the cached lease is good, and asks the coordinator otherwise. */
    method Ensure(address: string) returns (r: Result<Lease, LeaseError>, ghost t: Turn)
      requires shards > 0 && clock == coordinator.clock
      modifies this, coordinator, clock
      ensures t.shard == Shard(address) && Timely(old(clock.now), [t], clock.now)
      ensures (coordinator.View(), owned, r) == EnsureOne(old(coordinator.View()), old(owned), node, ttl, t)
      ensures match r
              case Ok(l) => t.shard in owned && l == owned[t.shard]
              case Err(_) => owned == old(owned) && coordinator.View() == old(coordinator.View())
    {
      var shard := Shard(address);
      var now := clock.Now();
      t := Turn(shard, now, now);
      if shard in owned && owned[shard].OwnedBy(node, now) {
        TimelyOne(old(clock.now), t, clock.now);
        return Ok(owned[shard]), t;
      }
      r := coordinator.Acquire(shard, node, ttl);
      t := Turn(shard, now, clock.now);
      TimelyOne(old(clock.now), t, clock.now);
      if r.Ok? {
        owned := owned[shard := r.value];
      }
    }

    /** Renews shard after shard in map order, and stops at the first refusal. */
    method Renew() returns (r: Result<(), LeaseError>, ghost turns: seq<Turn>)
      requires clock == coordinator.clock
      modifies this, coordinator, clock
      ensures Timely(old(clock.now), turns, clock.now)
      ensures (coordinator.View(), owned, r) == RenewTurns(old(coordinator.View()), old(owned), ttl, turns)
      ensures forall t :: t in turns ==> t.shard in old(owned)
      ensures r.Err? ==> turns != [] && owned.Keys == old(owned).Keys - {turns[|turns| - 1].shard}
      ensures r.Ok? ==> forall s :: s in old(owned) ==> s in owned && exists t :: t in turns && t.shard == s
    {
      hide Renewed, Distinct;
      r, turns := Ok(()), [];
      var order := Range(owned.Keys);
      for i := 0 to |order|
        invariant Timely(old(clock.now), turns, clock.now)
        invariant (coordinator.View(), owned, r) == RenewTurns(old(coordinator.View()), old(owned), ttl, turns)
        invariant r.Ok? && owned.Keys == old(owned).Keys
        invariant |turns| == i && forall j :: 0 <= j < i ==> turns[j].shard == order[j]
      {
        var shard := order[i];
        ghost var before := clock.now;
        var next, at := coordinator.Renew(owned[shard], ttl);
        ghost var t := Turn(shard, at, clock.now);
        assert (turns + [t])[..|turns|] == turns;
        TimelyTo(old(clock.now), turns, before, at);
        turns := turns + [t];
        if next.Err? {
          owned := owned - {shard};
          return Err(next.error), turns;
        }
        owned := owned[shard := next.value];
      }
      forall s | s in old(owned)
        ensures exists t :: t in turns && t.shard == s
      {
        var j :| 0 <= j < |order| && order[j] == s;
        assert turns[j] in turns;
      }
    }

    /** Releases every owned shard, whatever the coordinator answers, and reports the first refusal. */
    method ReleaseAll() returns (r: Result<(), LeaseError>, ghost turns: seq<Turn>)
      modifies this, coordinator
      ensures owned == map[]
      ensures Timely(clock.now, turns, clock.now)
      ensures (coordinator.View(), owned, r) == ReleaseTurns(old(coordinator.View()), old(owned), turns)
      ensures forall t :: t in turns ==> t == Turn(t.shard, clock.now, clock.now)
      ensures OwnShards(old(owned)) ==>
                forall s :: s in coordinator.leases <==> s in old(coordinator.leases) && !HeldBy(old(coordinator.leases), old(owned), s)
      ensures forall s :: s in coordinator.leases && s in old(coordinator.leases) ==>
                coordinator.leases[s] == old(coordinator.leases)[s]
      ensures OwnShards(old(owned)) ==>
                (r.Ok? <==> forall s :: s in old(owned) && s in old(coordinator.leases) ==>
                              HeldBy(old(coordinator.leases), old(owned), s))
    {
      hide Released, ReleaseTurns, HeldBy, OwnShards;
      ReleaseNothing(coordinator.View(), owned);
      turns := [];
      r := Ok(());
      var order := Range(owned.Keys);
      for i := 0 to |order|
        invariant (coordinator.View(), owned, r) == ReleaseTurns(old(coordinator.View()), old(owned), turns)
        invariant r.Ok? ==> r.value == ()
        invariant forall s :: s in owned ==> s in old(owned)
        invariant forall j :: 0 <= j < i ==> order[j] !in owned
        invariant forall j :: i <= j < |order| ==> order[j] in owned
        invariant forall t :: t in turns ==> t == Turn(t.shard, clock.now, clock.now)
        invariant Timely(clock.now, turns, clock.now)
        invariant |turns| == i && forall j :: 0 <= j < i ==> turns[j].shard == order[j]
      {
        var shard := order[i];
        var answer := coordinator.Release(owned[shard]);
        ghost var t := Turn(shard, clock.now, clock.now);
        ReleaseOneMore(old(coordinator.View()), old(owned), turns, t);
        assert (turns + [t])[..|turns|] == turns;
        turns := turns + [t];
        assert answer.Ok? ==> answer.value == ();
        if answer.Err? && r.Ok? {
          r := answer;
        }
        owned := owned - {shard};
      }
      assert forall s :: s !in owned;
      assert owned.Keys == {};
      AllFree(old(coordinator.View()), old(owned), order, turns);
    }
  }

  /** Each lease is remembered under its shard. */
  predicate OwnShards(cache: Cache) {
    forall s :: s in cache ==> cache[s].shard == s
  }

  /** The remembered lease of the shard carries the token of the coordinator's lease of it. */
  predicate HeldBy(leases: map<int, Lease>, cache: Cache, s: int) {
    s in leases && s in cache && leases[s].node == cache[s].node && leases[s].epoch == cache[s].epoch
  }

  ghost predicate Visited(turns: seq<Turn>, s: int) {
    exists j :: 0 <= j < |turns| && turns[j].shard == s
  }

  lemma {:induction false} ReleaseNothing(b: Book, cache: Cache)
    ensures ReleaseTurns(b, cache, []) == (b, cache, Ok(()))
  {}

  lemma {:induction false} ReleaseOneMore(b: Book, cache: Cache, turns: seq<Turn>, t: Turn)
    ensures var before := ReleaseTurns(b, cache, turns);
            var next := ReleaseOne(before.0, before.1, t);
            ReleaseTurns(b, cache, turns + [t]) == (next.0, next.1, if before.2.Ok? then next.2 else before.2)
  {
    hide ReleaseOne;
    assert (turns + [t])[..|turns|] == turns;
  }

  /** Releasing shard after shard frees exactly the visited ones whose token is current, and changes no other lease. */
  lemma {:induction false} TurnsFree(b: Book, cache: Cache, turns: seq<Turn>)
    ensures var e := ReleaseTurns(b, cache, turns);
            && (forall s :: s in e.0.leases ==> s in b.leases && e.0.leases[s] == b.leases[s])
            && (forall s :: s in e.1 <==> s in cache && !Visited(turns, s))
            && (forall s :: s in e.1 ==> e.1[s] == cache[s])
            && (OwnShards(cache) ==>
                  && (forall s :: s in e.0.leases <==> s in b.leases && !(Visited(turns, s) && HeldBy(b.leases, cache, s)))
                  && (e.2.Ok? <==> forall s :: s in cache && s in b.leases && Visited(turns, s) ==> HeldBy(b.leases, cache, s)))
    decreases |turns|
  {
    if turns == [] {
      ReleaseNothing(b, cache);
    } else {
      var front, t := turns[..|turns| - 1], turns[|turns| - 1];
      TurnsFree(b, cache, front);
      ReleaseOneMore(b, cache, front, t);
      assert turns == front + [t];
      forall s
        ensures Visited(turns, s) <==> Visited(front, s) || s == t.shard
      {
        VisitedOneMore(front, t, s);
      }
    }
  }

  lemma {:induction false} AllFree(b: Book, cache: Cache, order: seq<int>, turns: seq<Turn>)
    requires |turns| == |order| && forall j :: 0 <= j < |order| ==> turns[j].shard == order[j]
    requires forall s :: s in cache ==> s in order
    ensures var e := ReleaseTurns(b, cache, turns);
            && (forall s :: s in e.0.leases && s in b.leases ==> e.0.leases[s] == b.leases[s])
            && (OwnShards(cache) ==>
                  && (forall s :: s in e.0.leases <==> s in b.leases && !HeldBy(b.leases, cache, s))
                  && (e.2.Ok? <==> forall s :: s in cache && s in b.leases ==> HeldBy(b.leases, cache, s)))
  {
    TurnsFree(b, cache, turns);
    forall s | s in cache
      ensures Visited(turns, s)
    {
      var j :| 0 <= j < |order| && order[j] == s;
      assert turns[j].shard == s;
    }
  }

  lemma {:induction false} VisitedOneMore(turns: seq<Turn>, t: Turn, s: int)
    ensures Visited(turns + [t], s) <==> Visited(turns, s) || s == t.shard
  {
    if Visited(turns, s) {
      var j :| 0 <= j < |turns| && turns[j].shard == s;
      assert (turns + [t])[j].shard == s;
    }
    assert (turns + [t])[|turns|] == t;
  }

  lemma TimelyOne(from: int, t: Turn, to: int)
    requires from <= t.at <= t.later <= to
    ensures Timely(from, [t], to)
  {
    assert Timely(from, [], t.at);
    assert [t][..0] == [];
  }

  lemma {:induction false} TimelyTo(from: int, turns: seq<Turn>, to: int, later: int)
    requires Timely(from, turns, to) && to <= later
    ensures Timely(from, turns, later)
  {}
}
