/** What every run of the broker guarantees: isolation, all-or-nothing, finality, durable bodies. */
module BrokerRuns {
  import opened Wrappers
  import opened Broker
  import opened Queues
  import D = Delivery
  import Restart
  import opened Calls

  /** A run of calls from a good state, such as that of an empty broker. */
  ghost predicate GoodRun(cfg: Config, run: seq<State>, events: seq<Event>) {
    History(cfg, run, events) && Inv(run[0])
  }

  /** Every run from an empty broker is one. */
  lemma {:induction false} FromEmpty(cfg: Config, run: seq<State>, events: seq<Event>)
    requires History(cfg, run, events) && run[0] == EMPTY
    ensures GoodRun(cfg, run, events)
  {
    hide History, Inv;
    EmptyInv();
  }

  /** Soundness, isolation and the journal hold in every state of every run. */
  lemma {:induction false} InvAlways(cfg: Config, run: seq<State>, events: seq<Event>, n: nat)
    requires GoodRun(cfg, run, events) && n < |run|
    ensures Inv(run[n])
  {
    hide Inv, Does, Allowed, Step;
    if n > 0 {
      InvAlways(cfg, run, events, n - 1);
      CallSteps(cfg, run[n - 1], events[n - 1], run[n]);
    }
  }

  lemma {:induction false} StepAt(cfg: Config, run: seq<State>, events: seq<Event>, n: nat)
    requires GoodRun(cfg, run, events) && n < |events|
    ensures Inv(run[n]) && Step(run[n], run[n + 1])
  {
    hide Inv, Does, Allowed, Step;
    InvAlways(cfg, run, events, n);
    CallSteps(cfg, run[n], events[n], run[n + 1]);
  }

  /** A message that carries a transaction id is never ready anywhere, so no consumer sees it and no depth counts it. */
  lemma {:induction false} StagedInvisible(cfg: Config, run: seq<State>, events: seq<Event>, n: nat, k: Id, address: string)
    requires GoodRun(cfg, run, events) && n < |run| && k in run[n].messages && run[n].messages[k].tx.Some?
    ensures k !in Ready(run[n], address) && !D.Dead(run[n].messages[k])
  {
    hide Sound, Journal, History;
    InvAlways(cfg, run, events, n);
    assert OutOfReach(run[n].messages[k]);
  }

  /** In every reachable state, all messages of a transaction share the fate its state calls for. */
  lemma {:induction false} AllOrNothing(cfg: Config, run: seq<State>, events: seq<Event>, n: nat, t: Id)
    requires GoodRun(cfg, run, events) && n < |run| && t in run[n].transactions
    ensures var s, tx := run[n], run[n].transactions[t];
            && (forall m :: m in tx.Staged() ==> Fate(s, t, tx.state, m))
            && tx.version == 1 + |tx.operations| + (if tx.state == Active then 0 else 1)
  {
    hide Sound, Isolated, History, Fate;
    InvAlways(cfg, run, events, n);
    assert JournalEntry(run[n], t);
    forall m | m in run[n].transactions[t].Staged()
      ensures Fate(run[n], t, run[n].transactions[t].state, m)
    {
      StagedFate(run[n], t, m);
    }
  }

  // ---------------------------------------------------------------- finality

  /** A step never takes a transaction away, nor touches a completed one. */
  lemma {:induction false} StepKeepsOutcome(s: State, u: State, t: Id)
    requires Inv(s) && Step(s, u) && t in s.transactions
    ensures t in u.transactions
    ensures s.transactions[t].state != Active ==> u.transactions[t] == s.transactions[t]
  {
    hide QuietBut, Fate;
    assert JournalEntry(s, t);
  }

  /** Once a transaction is committed, rolled back or timed out, it is so for the rest of the run. */
  lemma {:induction false} OutcomeIsFinal(cfg: Config, run: seq<State>, events: seq<Event>, i: nat, j: nat, t: Id)
    requires GoodRun(cfg, run, events) && i <= j < |run|
    requires t in run[i].transactions && run[i].transactions[t].state != Active
    ensures t in run[j].transactions && run[j].transactions[t] == run[i].transactions[t]
  {
    hide Inv, Step, History;
    RunLength(cfg, run, events);
    if i < j {
      OutcomeIsFinal(cfg, run, events, i, j - 1, t);
      StepAt(cfg, run, events, j - 1);
      StepKeepsOutcome(run[j - 1], run[j], t);
    }
  }

  lemma {:induction false} RunLength(cfg: Config, run: seq<State>, events: seq<Event>)
    requires History(cfg, run, events)
    ensures |run| == |events| + 1
  {}

  // ---------------------------------------------------------------- bodies

  /** A step keeps the logged body of every message that lives through it. */
  lemma {:induction false} StepKeepsBody(s: State, u: State, k: Id)
    requires Inv(s) && Step(s, u) && k in s.messages && k in u.messages
    ensures 0 <= s.messages[k].logOffset < |s.log|
    ensures u.messages[k].logOffset == s.messages[k].logOffset
  {
    hide Isolated, Journal, Fate;
    assert MessageSound(s, k);
  }

  /** A step never shortens the log nor reuses an id. */
  lemma {:induction false} StepGrows(s: State, u: State)
    requires Inv(s) && Step(s, u)
    ensures s.minted <= u.minted && s.log <= u.log
    ensures forall k :: k in u.messages && k !in s.messages ==> s.minted <= k
  {
    hide Sound, Isolated, Journal, Fate;
  }

  lemma {:induction false} RunGrows(cfg: Config, run: seq<State>, events: seq<Event>, i: nat, j: nat)
    requires GoodRun(cfg, run, events) && i <= j < |run|
    ensures run[i].minted <= run[j].minted && run[i].log <= run[j].log
  {
    hide Inv, Step, History;
    RunLength(cfg, run, events);
    if i < j {
      RunGrows(cfg, run, events, i, j - 1);
      StepAt(cfg, run, events, j - 1);
      StepGrows(run[j - 1], run[j]);
    }
  }

  /** A message that is there at two times of a run was there all the time between. */
  lemma {:induction false} NeverReturns(cfg: Config, run: seq<State>, events: seq<Event>, i: nat, j: nat, k: Id)
    requires GoodRun(cfg, run, events) && i <= j < |run| && k in run[i].messages && k in run[j].messages
    ensures forall n :: i <= n <= j ==> k in run[n].messages
    decreases j
  {
    hide Inv, Step, History;
    RunLength(cfg, run, events);
    if i < j {
      InvAlways(cfg, run, events, i);
      IdMinted(run[i], k);
      RunGrows(cfg, run, events, i, j - 1);
      StepAt(cfg, run, events, j - 1);
      StepGrows(run[j - 1], run[j]);
      NeverReturns(cfg, run, events, i, j - 1, k);
    }
  }

  lemma {:induction false} IdMinted(s: State, k: Id)
    requires Inv(s) && k in s.messages
    ensures k < s.minted
  {
    hide Isolated, Journal;
    assert MessageSound(s, k);
  }

  /**
   From publication to the end of the run the body in the log behind a message stays the same,
   through commits, dead-lettering, replay, delivery and restarts.
   */
  lemma {:induction false} BodyForever(cfg: Config, run: seq<State>, events: seq<Event>, i: nat, j: nat, k: Id)
    requires GoodRun(cfg, run, events) && i <= j < |run| && k in run[i].messages && k in run[j].messages
    ensures var m, n := run[i].messages[k], run[j].messages[k];
            && 0 <= m.logOffset < |run[i].log| && n.logOffset == m.logOffset
            && n.logOffset < |run[j].log| && run[j].log[n.logOffset] == run[i].log[m.logOffset]
    decreases j
  {
    hide Inv, Step, History;
    RunLength(cfg, run, events);
    if i < j {
      NeverReturns(cfg, run, events, i, j, k);
      BodyForever(cfg, run, events, i, j - 1, k);
      StepAt(cfg, run, events, j - 1);
      StepKeepsBody(run[j - 1], run[j], k);
      RunGrows(cfg, run, events, j - 1, j);
    } else {
      InvAlways(cfg, run, events, i);
      BodyLogged(run[i], k);
    }
  }

  lemma {:induction false} BodyLogged(s: State, k: Id)
    requires Inv(s) && k in s.messages
    ensures 0 <= s.messages[k].logOffset < |s.log|
  {
    hide Isolated, Journal;
    assert MessageSound(s, k);
  }

  // ---------------------------------------------------------------- crashes

  /**
   A crash at any time of a run brings back the snapshot of any earlier time beside the newer log:
   the state is good again, and every run from it keeps all the guarantees.
   */
  lemma {:induction false} CrashRecovers(cfg: Config, run: seq<State>, events: seq<Event>, i: nat, j: nat)
    requires GoodRun(cfg, run, events) && i <= j < |run|
    ensures Inv(Restart.Restored(run[i]).(log := run[j].log, minted := run[j].minted))
  {
    hide Inv, History, Restart.Restored;
    InvAlways(cfg, run, events, i);
    RunGrows(cfg, run, events, i, j);
    Restart.CrashKeepsInv(run[i], run[j].log, run[j].minted);
  }

  // ---------------------------------------------------------------- where isolation breaks

  /** Replay makes the staged message visible. */
  ghost predicate Escapes(s: State, t: State, k: Id) {
    && k in s.messages && s.messages[k].tx.Some? && s.messages[k].state == Acquired
    && k in t.messages && t.messages[k].state == Available
  }

  /**
   Replay makes a staged message visible exactly when it is among those chosen and its publisher
   supplied an origin header that names an existing address which is not paused.
   */
  lemma {:induction false} EscapesExactlyWhen(s: State, t: State, chosen: set<Id>, k: Id)
    requires D.Replayed(s, t, chosen) && k in s.messages && s.messages[k].tx.Some? && s.messages[k].state == Acquired
    ensures Escapes(s, t, k) <==>
            && k in chosen && HasOrigin(s.messages[k].headers)
            && D.Open(s.addresses, s.messages[k].headers[ORIGIN])
    ensures Escapes(s, t, k) ==> k in Ready(t, s.messages[k].headers[ORIGIN]) && t.messages[k].tx == s.messages[k].tx
  {}

  /** Staged messages are out of sight: none is anything but acquired. */
  ghost predicate OutOfSight(s: State) {
    forall k :: k in s.messages && s.messages[k].tx.Some? ==> s.messages[k].state == Acquired
  }

  /**
   Replaying all dead messages keeps staged ones out of sight exactly when no staged message
   carries an origin header that names an open address.
   */
  lemma {:induction false} ReplayHidesExactlyWhen(s: State, t: State, chosen: set<Id>)
    requires D.Replayed(s, t, chosen) && |chosen| == |D.DeadIds(s)| && OutOfSight(s)
    ensures OutOfSight(t) <==>
            !exists k :: k in s.messages && s.messages[k].tx.Some? && HasOrigin(s.messages[k].headers)
                         && D.Open(s.addresses, s.messages[k].headers[ORIGIN])
  {
    AllChosen(s, t, chosen);
    forall k | k in s.messages && s.messages[k].tx.Some?
      ensures Escapes(s, t, k) <==>
              HasOrigin(s.messages[k].headers) && D.Open(s.addresses, s.messages[k].headers[ORIGIN])
      ensures t.messages[k].tx == s.messages[k].tx
      ensures !Escapes(s, t, k) ==> t.messages[k].state == Acquired
    {
      EscapesExactlyWhen(s, t, chosen, k);
    }
  }

  lemma {:induction false} AllChosen(s: State, t: State, chosen: set<Id>)
    requires D.Replayed(s, t, chosen) && |chosen| == |D.DeadIds(s)|
    ensures chosen == D.DeadIds(s)
  {
    assert chosen <= D.DeadIds(s);
    assert |D.DeadIds(s) - chosen| == 0;
  }
}
