/** Once every live client stands at its row's counters, nothing but the panel moves a counter. */
module Quiescence {
  import opened Collections
  import opened Model
  import opened Accounting
  import opened Decisions
  import opened Baselines
  import opened Ticking
  import opened TickProofs
  import opened Machine
  import opened MachineProofs
  import opened Ledgers
  import opened Earnings

  /** No live client on an existing row owes anything. */
  ghost predicate AllPaid(db: Db) {
    forall k :: Live(db, k) && k.traffic in db.traffic ==> Owed(db, k) == NOTHING
  }

  /** Ledgers may be opened on any valid tables on which everything is paid, as an installation without clients is. */
  lemma LedgersOpen(db: Db)
    requires Valid(db) && AllPaid(db)
    ensures Single(Fresh(db)) && Eligible(Fresh(db))
  {
  }

  lemma RestingPaid(db: Db, k: Key)
    requires Resting(db, k) && Live(db, k) && k.traffic in db.traffic
    ensures Owed(db, k) == NOTHING
  {
  }

  /** A committed tick that deferred no winner leaves everything paid. */
  lemma TickPays(ready: Db, after: Db, env: TickEnv, now: int)
    requires Committed(ready, after, env, now) && forall k :: !Deferred(ready, after, env, k)
    ensures AllPaid(after)
  {
    forall k | Live(after, k) && k.traffic in after.traffic ensures Owed(after, k) == NOTHING {
      assert Resting(after, k) by { TickSettlesAll(ready, after, env, now, k); }
      RestingPaid(after, k);
    }
  }

  lemma PaidRowStays(ready: Db, after: Db, t: int, x: Target)
    requires AllPaid(ready) && ChargedBy(ready, after, t, x)
    ensures after.traffic[t] == ready.traffic[t]
  {
    var k := TargetKey(x);
    assert Live(ready, k) && Owed(ready, k) == NOTHING;
    if after.traffic[t] != ready.traffic[t] {
      SettleMoves(ready.traffic[t], ready.clients[k], x.factorPpm);
    }
  }

  lemma RowStays(ready: Db, after: Db, env: TickEnv, now: int, t: int)
    requires Committed(ready, after, env, now) && AllPaid(ready)
    ensures t in after.traffic <==> t in ready.traffic
    ensures t in ready.traffic ==> after.traffic[t] == ready.traffic[t]
  {
    CommittedRow(ready, after, env, now, t);
    if t in ready.traffic && after.traffic[t] != ready.traffic[t] {
      ChangedRowsAreCharged(ready, after, env, now, t);
      var d :| d in DecideAll(Candidates(ready)).value && d.target.Some? && d.trafficId == t
          && ChargedBy(ready, after, t, d.target.value);
      PaidRowStays(ready, after, t, d.target.value);
    }
  }

  /** With nothing owed, a committed tick moves no row. */
  lemma NothingMoves(ready: Db, after: Db, env: TickEnv, now: int)
    requires Committed(ready, after, env, now) && AllPaid(ready)
    ensures after.traffic == ready.traffic
  {
    assert after.traffic.Keys == ready.traffic.Keys by { CommittedFacts(ready, after, env, now); }
    forall t | t in ready.traffic ensures after.traffic[t] == ready.traffic[t] {
      RowStays(ready, after, env, now, t);
    }
  }

  lemma PaidDescends(a: Db, b: Db)
    requires AllPaid(a) && Descends(a, b)
    ensures AllPaid(b)
  {
    forall k | Live(b, k) && k.traffic in b.traffic ensures Owed(b, k) == NOTHING {
      if !AtCounters(b, k) {
        var r :| Live(a, Key(r, k.traffic)) && SameAccount(a.clients[Key(r, k.traffic)], b.clients[k]);
        assert Owed(b, k) == Owed(a, Key(r, k.traffic));
      }
    }
  }

  lemma PaidAfterTick(ready: Db, after: Db, env: TickEnv, now: int)
    requires Committed(ready, after, env, now) && AllPaid(ready)
    ensures AllPaid(after)
  {
    forall k | Live(after, k) && k.traffic in after.traffic ensures Owed(after, k) == NOTHING {
      LiveAfterTick(ready, after, env, now, k);
      StaysPaid(ready, after, k);
    }
  }

  lemma StaysPaid(ready: Db, after: Db, k: Key)
    requires AllPaid(ready) && k in after.clients && k.traffic in after.traffic
    requires (AtCounters(after, k) && Matched(after, k))
             || (Live(ready, k) && k.traffic in ready.traffic && after.traffic[k.traffic] == ready.traffic[k.traffic]
                 && after.clients[k] == ready.clients[k])
    ensures Owed(after, k) == NOTHING
  {
    if !AtCounters(after, k) { assert Owed(after, k) == Owed(ready, k); }
  }

  predicate Silent(step: Step) {
    !step.PanelStep? && Timed(step)
  }

  lemma PaidIsHonest(db: Db, since: Ledger)
    requires forall t :: At(since, t) == NOTHING
    ensures AllPaid(db) <==> Honest(db, since)
  {
    forall k | Live(db, k) && k.traffic in db.traffic
      ensures Owed(db, k) == NOTHING <==> Within(Owed(db, k), At(since, k.traffic))
    {
    }
  }

  lemma PaidStep(db: Db, step: Step)
    requires Valid(db) && AllPaid(db) && Silent(step) && StraysBacked(db, step, map[])
    ensures var after := Advance(Fresh(db), step).db;
            Valid(after) && AllPaid(after) && after.traffic == db.traffic
  {
    match step
    case CommandStep(command, now) =>
      if Execute(db, command, now).Ok? {
        PaidCommand(db, command, now);
      }
    case TickStep(env, now) =>
      if Tick(db, env, now).Err? {
        TickRefused(Fresh(db), env, now);
      } else {
        var ready, after := TickTaken(Fresh(db), env, now);
        PaidDescends(db, ready);
        NothingMoves(ready, after, env, now);
        PaidAfterTick(ready, after, env, now);
        CommittedValid(ready, after, env, now);
      }
  }

  lemma PaidCommand(db: Db, command: Command, now: int)
    requires Valid(db) && AllPaid(db) && now > 0 && Execute(db, command, now).Ok?
             && StraysBacked(db, CommandStep(command, now), map[])
    ensures var after := Execute(db, command, now).value; Valid(after) && AllPaid(after) && after.traffic == db.traffic
  {
    PaidIsHonest(db, map[]);
    HonestAfterCommand(db, command, now, map[]);
    PaidIsHonest(Execute(db, command, now).value, map[]);
    assert Execute(db, command, now).value.traffic == db.traffic by { CommandKeeps(db, command, now); }
  }

  /** The ledgers only watch: a step changes the tables as it would without them. */
  lemma AdvanceIsNext(w: World, step: Step)
    ensures Advance(w, step).db == Next(w.db, step)
  {
    match step
    case PanelStep(change) =>
    case CommandStep(command, now) =>
    case TickStep(env, now) =>
      if Tick(w.db, env, now).Err? { TickRefused(w, env, now); } else { TickAdvances(w, env, now); }
  }

  /** A resume-all of the run brings back strayed clients only that owe nothing. */
  ghost predicate StraysPaid(w: World, steps: seq<Step>)
    decreases |steps|
  {
    steps == [] || (StraysBacked(w.db, steps[0], map[]) && StraysPaid(Advance(w, steps[0]), steps[1..]))
  }

  /**
   * From tables on which everything is paid, no run of commands and ticks - repeated, deferred or aborted - changes
   * any counter until the panel acts.
   */
  lemma {:induction false} PaidStaysStill(w: World, steps: seq<Step>)
    requires Valid(w.db) && AllPaid(w.db) && (forall step :: step in steps ==> Silent(step)) && StraysPaid(w, steps)
    ensures Run(w, steps).db.traffic == w.db.traffic && AllPaid(Run(w, steps).db)
    decreases |steps|
  {
    if steps != [] {
      assert steps[0] in steps;
      PaidStep(w.db, steps[0]);
      AdvanceIsNext(w, steps[0]);
      AdvanceIsNext(Fresh(w.db), steps[0]);
      PaidStaysStill(Advance(w, steps[0]), steps[1..]);
    }
  }

  /** A second tick right after one that deferred no winner changes no counter. */
  lemma TickIsIdempotent(db: Db, env: TickEnv, now: int, again: TickEnv, later: int)
    requires Valid(db) && Tick(db, env, now).Ok? && Tick(Tick(db, env, now).value, again, later).Ok?
    requires Prepared(db, now).Ok? && forall k :: !Deferred(Prepared(db, now).value, Tick(db, env, now).value, env, k)
    ensures Tick(Tick(db, env, now).value, again, later).value.traffic == Tick(db, env, now).value.traffic
  {
    var ready, once := TickTaken(Fresh(db), env, now);
    TickPays(ready, once, env, now);
    CommittedValid(ready, once, env, now);
    SecondTick(once, again, later);
  }

  lemma SecondTick(once: Db, again: TickEnv, later: int)
    requires Valid(once) && AllPaid(once) && Tick(once, again, later).Ok?
    ensures Tick(once, again, later).value.traffic == once.traffic
  {
    var ready, twice := TickTaken(Fresh(once), again, later);
    PaidDescends(once, ready);
    NothingMoves(ready, twice, again, later);
  }
}
