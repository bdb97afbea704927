/** Any number of nodes, one coordinator, a clock: what holds in every state a run can reach. */
module LeaseRuns {
  import opened Wrappers
  import opened Bytes
  import opened Leases

  /** The coordinator's book, each node's cache, the time, and every lease ever granted, by shard. */
  datatype Cluster = Cluster(now: int, book: Book, caches: map<string, Cache>, grants: map<int, seq<Lease>>) {

    function CacheOf(node: string): Cache {
      if node in caches then caches[node] else map[]
    }

    function Grants(shard: int): seq<Lease> {
      if shard in grants then grants[shard] else []
    }

    /** The node believes it owns the shard now. */
    predicate Owns(node: string, shard: int) {
      shard in CacheOf(node) && CacheOf(node)[shard].OwnedBy(node, now)
    }
  }

  /** Nodes call in any order; a crash loses what a node remembers. */
  datatype Step =
    | Wait(until: int)
    | Ensure(node: string, ttl: int, turn: Turn)
    | Renew(node: string, ttl: int, turn: Turn)
    | Release(node: string, turn: Turn)
    | Crash(node: string)

  const START := Cluster(0, Book(map[], map[]), map[], map[])

  /** The clock does not run backwards. */
  predicate Enabled(c: Cluster, step: Step) {
    match step
    case Wait(until) => c.now <= until
    case Ensure(_, _, t) => c.now <= t.at <= t.later
    case Renew(_, _, t) => c.now <= t.at <= t.later
    case Release(_, t) => c.now <= t.at <= t.later
    case Crash(_) => true
  }

  function Next(c: Cluster, step: Step): Cluster {
    match step
    case Wait(until) => c.(now := until)
    case Ensure(node, ttl, t) =>
      var (b, cache, r) := EnsureOne(c.book, c.CacheOf(node), node, ttl, t);
      var granted := !Remembered(c.CacheOf(node), node, t) && r.Ok?;
      Cluster(t.later, b, c.caches[node := cache],
              if granted then c.grants[t.shard := c.Grants(t.shard) + [r.value]] else c.grants)
    case Renew(node, ttl, t) =>
      var (b, cache, _) := RenewOne(c.book, c.CacheOf(node), ttl, t);
      Cluster(t.later, b, c.caches[node := cache], c.grants)
    case Release(node, t) =>
      var (b, cache, _) := ReleaseOne(c.book, c.CacheOf(node), t);
      Cluster(t.later, b, c.caches[node := cache], c.grants)
    case Crash(node) => c.(caches := c.caches - {node})
  }

  ghost predicate Possible(c: Cluster, steps: seq<Step>)
    decreases |steps|
  {
    steps == [] || (Enabled(c, steps[0]) && Possible(Next(c, steps[0]), steps[1..]))
  }

  function Run(c: Cluster, steps: seq<Step>): Cluster
    decreases |steps|
  {
    if steps == [] then c else Run(Next(c, steps[0]), steps[1..])
  }

  // ---------------------------------------------------------------- the invariant

  predicate SameToken(x: Lease, y: Lease) {
    x.shard == y.shard && x.node == y.node && x.epoch == y.epoch
  }

  /** A cached lease is the node's own, and while it has not expired it is the coordinator's current one. */
  ghost predicate CachedWell(c: Cluster, node: string, shard: int)
    requires shard in c.CacheOf(node)
  {
    var l := c.CacheOf(node)[shard];
    && l.node == node && l.shard == shard
    && (c.now < l.expiresAt ==> shard in c.book.leases && c.book.leases[shard] == l)
  }

  ghost predicate CachesAgree(c: Cluster) {
    forall node, shard :: shard in c.CacheOf(node) ==> CachedWell(c, node, shard)
  }

  /** The i-th grant of a shard has epoch i + 1, counted in 64 bits, and the book knows how many there were. */
  ghost predicate Numbered(c: Cluster) {
    && (forall s :: c.book.Epoch(s) == |c.Grants(s)| % TWO_64)
    && (forall s, i :: 0 <= i < |c.Grants(s)| ==>
          c.Grants(s)[i].shard == s && c.Grants(s)[i].epoch == (i + 1) % TWO_64)
  }

  /** A lease in the book carries the token of the shard's latest grant. */
  ghost predicate Latest(c: Cluster) {
    forall s :: s in c.book.leases ==>
      c.Grants(s) != [] && SameToken(c.book.leases[s], c.Grants(s)[|c.Grants(s)| - 1])
  }

  ghost predicate Inv(c: Cluster) {
    CachesAgree(c) && Numbered(c) && Latest(c)
  }

  lemma {:induction false} BookKeyed(c: Cluster)
    requires Inv(c)
    ensures forall s :: s in c.book.leases ==> c.book.leases[s].shard == s
  {
    hide CachesAgree;
  }

  lemma {:induction false} KeepsCaches(c: Cluster, step: Step)
    requires Inv(c) && Enabled(c, step)
    ensures CachesAgree(Next(c, step))
  {
    hide Numbered, Latest;
    BookKeyed(c);
    var d := Next(c, step);
    forall node, shard | shard in d.CacheOf(node)
      ensures CachedWell(d, node, shard)
    {
      if shard in c.CacheOf(node) {
        assert CachedWell(c, node, shard);
      }
      if !step.Wait? && shard in c.CacheOf(step.node) {
        assert CachedWell(c, step.node, shard);
      }
    }
  }

  /** A step grants at most one lease; otherwise it changes neither epochs nor history. */
  lemma {:induction false} GrantsOneAtMost(c: Cluster, step: Step)
    ensures var d := Next(c, step);
            || (d.book.epochs == c.book.epochs && d.grants == c.grants)
            || (step.Ensure? && var s := step.turn.shard;
                s in d.book.leases && var l := d.book.leases[s];
                && l.shard == s && l.epoch == (c.book.Epoch(s) + 1) % TWO_64
                && d.book.epochs == c.book.epochs[s := l.epoch]
                && d.grants == c.grants[s := c.Grants(s) + [l]])
  {}

  lemma {:induction false} KeepsNumbering(c: Cluster, step: Step)
    requires Inv(c)
    ensures Numbered(Next(c, step))
  {
    hide Next;
    GrantsOneAtMost(c, step);
    var d := Next(c, step);
    forall s
      ensures d.book.Epoch(s) == |d.Grants(s)| % TWO_64
    {
      assert c.book.Epoch(s) == |c.Grants(s)| % TWO_64;
      NextEpoch(|c.Grants(s)|);
    }
    forall s, i | 0 <= i < |d.Grants(s)|
      ensures d.Grants(s)[i].shard == s && d.Grants(s)[i].epoch == (i + 1) % TWO_64
    {
      assert c.book.Epoch(s) == |c.Grants(s)| % TWO_64;
      NextEpoch(|c.Grants(s)|);
      assert i < |c.Grants(s)| ==> d.Grants(s)[i] == c.Grants(s)[i];
    }
  }

  lemma NextEpoch(n: nat)
    ensures (n % TWO_64 + 1) % TWO_64 == (n + 1) % TWO_64
  {}

  lemma {:induction false} KeepsLatest(c: Cluster, step: Step)
    requires Inv(c)
    ensures Latest(Next(c, step))
  {
    hide Numbered, CachesAgree;
  }

  /** The invariant holds in every state that any run reaches. */
  lemma {:induction false} InvAlways(c: Cluster, steps: seq<Step>)
    requires Inv(c) && Possible(c, steps)
    ensures Inv(Run(c, steps))
    decreases |steps|
  {
    hide Inv, Next, Enabled;
    if steps != [] {
      KeepsInv(c, steps[0]);
      InvAlways(Next(c, steps[0]), steps[1..]);
    }
  }

  lemma {:induction false} KeepsInv(c: Cluster, step: Step)
    requires Inv(c) && Enabled(c, step)
    ensures Inv(Next(c, step))
  {
    hide CachesAgree, Numbered, Latest, Next;
    KeepsCaches(c, step);
    KeepsNumbering(c, step);
    KeepsLatest(c, step);
  }

  // ---------------------------------------------------------------- mutual exclusion

  /**
   In every reachable state, whoever believes it owns a shard holds the coordinator's current
   lease of it, under the latest token granted; so no two nodes ever own the same shard.
   */
  lemma {:induction false} MutualExclusion(steps: seq<Step>, shard: int, m: string, n: string)
    requires Possible(START, steps)
    ensures var c := Run(START, steps);
            && (c.Owns(m, shard) && c.Owns(n, shard) ==> m == n)
            && (c.Owns(m, shard) ==>
                  && shard in c.book.leases && c.book.leases[shard] == c.CacheOf(m)[shard]
                  && c.Grants(shard) != []
                  && SameToken(c.CacheOf(m)[shard], c.Grants(shard)[|c.Grants(shard)| - 1]))
  {
    hide Next, Run, Numbered;
    var c := Run(START, steps);
    StartInv();
    InvAlways(START, steps);
    if shard in c.CacheOf(m) {
      assert CachedWell(c, m, shard);
    }
    if shard in c.CacheOf(n) {
      assert CachedWell(c, n, shard);
    }
  }

  // ---------------------------------------------------------------- fencing

  /** The history of a shard only grows. */
  lemma {:induction false} HistoryGrows(c: Cluster, steps: seq<Step>, shard: int)
    ensures c.Grants(shard) <= Run(c, steps).Grants(shard)
    decreases |steps|
  {
    hide Next;
    if steps != [] {
      GrantsOneAtMost(c, steps[0]);
      HistoryGrows(Next(c, steps[0]), steps[1..], shard);
    }
  }

  /** The epochs of a shard strictly increase along its grants. */
  ghost predicate Increasing(grants: seq<Lease>) {
    forall i, j :: 0 <= i < j < |grants| ==> grants[i].epoch < grants[j].epoch
  }

  /** No two grants of a shard have the same epoch. */
  ghost predicate NoneReused(grants: seq<Lease>) {
    forall i, j :: 0 <= i < j < |grants| ==> grants[i].epoch != grants[j].epoch
  }

  /**
   Fencing over every run, with the 64-bit counter taken seriously: the epochs of a shard strictly
   increase exactly as long as there are fewer than 2^64 grants, and none is reused exactly up to
   2^64 grants.
   */
  lemma {:induction false} EpochsExactly(steps: seq<Step>, shard: int)
    requires Possible(START, steps)
    ensures var grants := Run(START, steps).Grants(shard);
            && (Increasing(grants) <==> |grants| < TWO_64)
            && (NoneReused(grants) <==> |grants| <= TWO_64)
  {
    hide CachesAgree, Latest, Next, Run, Increasing, NoneReused;
    var c := Run(START, steps);
    StartInv();
    InvAlways(START, steps);
    var grants := c.Grants(shard);
    assert forall i :: 0 <= i < |grants| ==> grants[i].epoch == (i + 1) % TWO_64;
    NumberedIncreasing(grants);
    NumberedNoneReused(grants);
  }

  lemma {:induction false} NumberedIncreasing(grants: seq<Lease>)
    requires forall i :: 0 <= i < |grants| ==> grants[i].epoch == (i + 1) % TWO_64
    ensures Increasing(grants) <==> |grants| < TWO_64
  {
    if |grants| >= TWO_64 {
      assert grants[TWO_64 - 1].epoch == 0 && grants[0].epoch == 1;
    }
  }

  lemma {:induction false} NumberedNoneReused(grants: seq<Lease>)
    requires forall i :: 0 <= i < |grants| ==> grants[i].epoch == (i + 1) % TWO_64
    ensures NoneReused(grants) <==> |grants| <= TWO_64
  {
    if |grants| > TWO_64 {
      assert grants[TWO_64].epoch == grants[0].epoch;
    }
  }

  /** The lease carries the token of a grant of its shard that was followed by a later one. */
  ghost predicate Superseded(c: Cluster, l: Lease) {
    exists i :: 0 <= i < |c.Grants(l.shard)| - 1 && SameToken(l, c.Grants(l.shard)[i])
  }

  /**
   A granted token is current exactly when its shard is still leased, the latest grant went to the
   same node, and a multiple of 2^64 grants (none, in practice) were made since.
   */
  lemma {:induction false} TokenCurrentExactlyWhen(c: Cluster, l: Lease, i: nat)
    requires Inv(c) && i < |c.Grants(l.shard)| && SameToken(l, c.Grants(l.shard)[i])
    ensures var grants := c.Grants(l.shard);
            c.book.Current(l) <==>
            && l.shard in c.book.leases
            && grants[|grants| - 1].node == l.node
            && (|grants| - (i + 1)) % TWO_64 == 0
  {
    hide CachesAgree;
    var grants := c.Grants(l.shard);
    assert grants[i].epoch == (i + 1) % TWO_64;
    assert grants[|grants| - 1].epoch == |grants| % TWO_64;
    SameRemainder(i + 1, |grants|);
  }

  lemma {:induction false} SameRemainder(a: nat, b: nat)
    requires a <= b
    ensures a % TWO_64 == b % TWO_64 <==> (b - a) % TWO_64 == 0
  {
    var q, r := b / TWO_64 - a / TWO_64, b % TWO_64 - a % TWO_64;
    assert b - a == q * TWO_64 + r;
    if r < 0 {
      assert b - a == (q - 1) * TWO_64 + (r + TWO_64);
    }
  }

  lemma StartInv()
    ensures Inv(START)
  {}

  /**
   Once superseded, always powerless: in every later state of every run, renewing or releasing
   with that token leaves the coordinator as it is, and renewing is refused.
   */
  lemma {:induction false} SupersededIsPowerless(before: seq<Step>, after: seq<Step>, l: Lease, at: int, later: int, ttl: int)
    requires Possible(START, before) && Superseded(Run(START, before), l)
    requires var c := Run(START, before);
             Possible(c, after) && |Run(c, after).Grants(l.shard)| <= TWO_64
    ensures var d := Run(Run(START, before), after);
            && Renewed(d.book, l, at, later, ttl) == (d.book, Err(TokenRejected))
            && Released(d.book, l).0 == d.book
  {
    hide Next, Run, Inv, Possible;
    var c := Run(START, before);
    var d := Run(c, after);
    StartInv();
    InvAlways(START, before);
    InvAlways(c, after);
    HistoryGrows(c, after, l.shard);
    var i :| 0 <= i < |c.Grants(l.shard)| - 1 && SameToken(l, c.Grants(l.shard)[i]);
    assert d.Grants(l.shard)[i] == c.Grants(l.shard)[i];
    TokenCurrentExactlyWhen(d, l, i);
  }

  // ---------------------------------------------------------------- who gets a shard

  /** The rest of the coordinator's book is as it was. */
  ghost predicate OthersKept(c: Cluster, d: Cluster, shard: int) {
    forall s :: s != shard ==>
      (s in d.book.leases <==> s in c.book.leases) && (s in c.book.leases ==> d.book.leases[s] == c.book.leases[s])
  }

  /** The lease is a new one of the node, good from the moment it was granted for the time asked. */
  predicate Granted(l: Lease, shard: int, node: string, at: int, ttl: int, epoch: int) {
    && l.shard == shard && l.node == node && l.acquiredAt == at && l.expiresAt == at + ttl && !l.draining
    && l.epoch == epoch % TWO_64
  }

  /**
   A node that asks for a shard and does not hold an unexpired lease of it, or is to give it up,
   gets one exactly when no other node's lease is unexpired then; the lease is the next one in
   number.  A refusal changes nothing but the time.
   */
  lemma {:induction false} EnsureGrantsExactlyWhen(c: Cluster, node: string, ttl: int, t: Turn)
    requires Inv(c) && Enabled(c, Ensure(node, ttl, t)) && node != "" && ttl > 0
    requires t.shard in c.CacheOf(node) ==>
               var l := c.CacheOf(node)[t.shard]; l.expiresAt <= t.at || l.draining || l.node != node
    ensures var d := Next(c, Ensure(node, ttl, t));
            var taken := t.shard in c.book.leases && c.book.leases[t.shard].node != node
                         && t.later < c.book.leases[t.shard].expiresAt;
            if taken then d.book == c.book && d.CacheOf(node) == c.CacheOf(node) && d.grants == c.grants
            else
              && t.shard in d.book.leases && t.shard in d.CacheOf(node)
              && d.CacheOf(node)[t.shard] == d.book.leases[t.shard]
              && Granted(d.book.leases[t.shard], t.shard, node, t.later, ttl, |c.Grants(t.shard)| + 1)
              && d.Grants(t.shard) == c.Grants(t.shard) + [d.book.leases[t.shard]]
              && OthersKept(c, d, t.shard)
  {
    hide CachesAgree, Latest;
    assert c.book.Epoch(t.shard) == |c.Grants(t.shard)| % TWO_64;
    NextEpoch(|c.Grants(t.shard)|);
  }

  /** Nobody gets a lease without a name or for no time. */
  lemma {:induction false} EnsureNeedsNameAndTime(c: Cluster, node: string, ttl: int, t: Turn)
    requires Enabled(c, Ensure(node, ttl, t)) && (node == "" || ttl <= 0)
    ensures var d := Next(c, Ensure(node, ttl, t));
            d.book == c.book && d.CacheOf(node) == c.CacheOf(node) && d.grants == c.grants
  {}

  /** While a node holds an unexpired lease, asking again answers from memory and changes nothing but the time. */
  lemma {:induction false} EnsureRemembers(c: Cluster, node: string, ttl: int, t: Turn)
    requires t.shard in c.CacheOf(node)
    requires var l := c.CacheOf(node)[t.shard]; l.node == node && t.at < l.expiresAt && !l.draining
    ensures var d := Next(c, Ensure(node, ttl, t));
            d.book == c.book && d.CacheOf(node) == c.CacheOf(node) && d.grants == c.grants && d.now == t.later
  {}

  /** Releasing a current lease frees its shard and forgets it, and touches no other shard. */
  lemma {:induction false} ReleaseFrees(c: Cluster, node: string, t: Turn)
    requires Inv(c) && Enabled(c, Release(node, t)) && t.shard in c.CacheOf(node)
    requires t.shard in c.book.leases && SameToken(c.CacheOf(node)[t.shard], c.book.leases[t.shard])
    ensures var d := Next(c, Release(node, t));
            && t.shard !in d.book.leases && t.shard !in d.CacheOf(node) && OthersKept(c, d, t.shard)
            && d.grants == c.grants
  {
    hide Numbered, Latest;
    assert CachedWell(c, node, t.shard);
  }

  /** A released shard is anybody's: whoever asks next gets it at once, under the next number. */
  lemma {:induction false} ReleasedIsAvailable(c: Cluster, node: string, t: Turn, other: string, ttl: int, u: Turn)
    requires Inv(c) && Enabled(c, Release(node, t)) && t.shard in c.CacheOf(node)
    requires t.shard in c.book.leases && SameToken(c.CacheOf(node)[t.shard], c.book.leases[t.shard])
    requires t.later <= u.at <= u.later && u.shard == t.shard && other != "" && ttl > 0
    ensures var e := Next(Next(c, Release(node, t)), Ensure(other, ttl, u));
            && u.shard in e.CacheOf(other)
            && Granted(e.CacheOf(other)[u.shard], u.shard, other, u.later, ttl, |c.Grants(u.shard)| + 1)
            && e.Owns(other, u.shard)
  {
    hide Inv;
    var d := Next(c, Release(node, t));
    ReleaseFrees(c, node, t);
    KeepsInv(c, Release(node, t));
    NobodyRemembers(d, other, u);
    EnsureGrantsExactlyWhen(d, other, ttl, u);
  }

  lemma {:induction false} NobodyRemembers(d: Cluster, node: string, u: Turn)
    requires Inv(d) && u.shard !in d.book.leases && d.now <= u.at
    ensures u.shard in d.CacheOf(node) ==> d.CacheOf(node)[u.shard].expiresAt <= u.at
  {
    hide Numbered, Latest;
    if u.shard in d.CacheOf(node) {
      assert CachedWell(d, node, u.shard);
    }
  }

  /** Renewing a current lease that has not expired extends it from the later reading, and touches no other shard. */
  lemma {:induction false} RenewExtends(c: Cluster, node: string, ttl: int, t: Turn)
    requires Inv(c) && Enabled(c, Renew(node, ttl, t)) && t.shard in c.CacheOf(node)
    requires t.shard in c.book.leases && SameToken(c.CacheOf(node)[t.shard], c.book.leases[t.shard])
    ensures var d := Next(c, Renew(node, ttl, t));
            var l := c.book.leases[t.shard];
            && OthersKept(c, d, t.shard) && d.grants == c.grants
            && if t.at < l.expiresAt
               then && t.shard in d.book.leases && d.book.leases[t.shard] == l.(expiresAt := t.later + ttl)
                    && t.shard in d.CacheOf(node) && d.CacheOf(node)[t.shard] == d.book.leases[t.shard]
               else d.book == c.book && t.shard !in d.CacheOf(node)
  {
    hide Numbered, Latest;
    assert CachedWell(c, node, t.shard);
  }

  // ---------------------------------------------------------------- service calls are runs

  function RenewSteps(node: string, ttl: int, turns: seq<Turn>): seq<Step> {
    seq(|turns|, i requires 0 <= i < |turns| => Renew(node, ttl, turns[i]))
  }

  function ReleaseSteps(node: string, turns: seq<Turn>): seq<Step> {
    seq(|turns|, i requires 0 <= i < |turns| => Release(node, turns[i]))
  }

  lemma {:induction false} RunOneMore(c: Cluster, steps: seq<Step>, step: Step)
    ensures Run(c, steps + [step]) == Next(Run(c, steps), step)
    ensures Possible(c, steps) && Enabled(Run(c, steps), step) ==> Possible(c, steps + [step])
    decreases |steps|
  {
    hide Next, Enabled;
    if steps == [] {
      assert steps + [step] == [step];
      assert Run(Next(c, step), []) == Next(c, step);
    } else {
      assert (steps + [step])[1..] == steps[1..] + [step];
      RunOneMore(Next(c, steps[0]), steps[1..], step);
    }
  }

  /** A whole Renew call of one node, as the service performs it, is a possible run of the cluster. */
  lemma {:induction false} RenewCallIsRun(c: Cluster, node: string, ttl: int, turns: seq<Turn>, to: int)
    requires Timely(c.now, turns, to)
    ensures var d := Run(c, RenewSteps(node, ttl, turns));
            var e := RenewTurns(c.book, c.CacheOf(node), ttl, turns);
            && Possible(c, RenewSteps(node, ttl, turns))
            && d.book == e.0 && d.CacheOf(node) == e.1 && d.now <= to
            && forall other :: other != node ==> d.CacheOf(other) == c.CacheOf(other)
    decreases |turns|
  {
    hide RenewOne, Run, Possible;
    if turns == [] {
      RunNothing(c);
      assert RenewSteps(node, ttl, turns) == [];
    } else {
      var front, t := turns[..|turns| - 1], turns[|turns| - 1];
      RenewCallIsRun(c, node, ttl, front, t.at);
      RunOneMore(c, RenewSteps(node, ttl, front), Renew(node, ttl, t));
      assert RenewSteps(node, ttl, turns) == RenewSteps(node, ttl, front) + [Renew(node, ttl, t)];
    }
  }

  /** So is a whole ReleaseAll call. */
  lemma {:induction false} ReleaseCallIsRun(c: Cluster, node: string, turns: seq<Turn>, to: int)
    requires Timely(c.now, turns, to)
    ensures var d := Run(c, ReleaseSteps(node, turns));
            var e := ReleaseTurns(c.book, c.CacheOf(node), turns);
            && Possible(c, ReleaseSteps(node, turns))
            && d.book == e.0 && d.CacheOf(node) == e.1 && d.now <= to
            && forall other :: other != node ==> d.CacheOf(other) == c.CacheOf(other)
    decreases |turns|
  {
    hide ReleaseOne, Run, Possible;
    if turns == [] {
      RunNothing(c);
      assert ReleaseSteps(node, turns) == [];
    } else {
      var front, t := turns[..|turns| - 1], turns[|turns| - 1];
      ReleaseCallIsRun(c, node, front, t.at);
      RunOneMore(c, ReleaseSteps(node, front), Release(node, t));
      assert ReleaseSteps(node, turns) == ReleaseSteps(node, front) + [Release(node, t)];
    }
  }

  lemma RunNothing(c: Cluster)
    ensures Run(c, []) == c && Possible(c, [])
  {}
}
