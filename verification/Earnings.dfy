/** No excluded byte, and no byte of a pause, is factored, over every run of the machine. */
module Earnings {
  import opened Collections
  import opened Model
  import opened Accounting
  import opened Decisions
  import opened PolicyTable
  import opened Baselines
  import opened Ticking
  import opened TickProofs
  import opened CommandProofs
  import opened Machine
  import opened MachineProofs
  import opened Resuming
  import opened Ledgers
  import C = Commands

  /**
   * Where a live client has its row's email and no exclude names the row, it owes no more than the row's allowed
   * bytes.
   */
  ghost predicate Earned(db: Db, allowed: Ledger) {
    forall k :: Live(db, k) && Matched(db, k) && !Excluded(db, k.traffic) ==>
                Within(Owed(db, k), At(allowed, k.traffic))
  }

  // The panel -------------------------------------------------------------

  lemma SameExcluded(db: Db, change: Change, u: int)
    requires Possible(db, change) && u in db.traffic && u in Changed(db, change).traffic
    requires Changed(db, change).traffic[u].email == db.traffic[u].email
    ensures Excluded(Changed(db, change), u) == Excluded(db, u)
  {
  }

  lemma EarnedAfterChange(db: Db, change: Change, allowed: Ledger)
    requires Earned(db, allowed) && Possible(db, change) && !change.AddBytes? && !change.Rename?
    ensures Earned(Changed(db, change), allowed)
  {
    var b := Changed(db, change);
    forall k | Live(b, k) && Matched(b, k) && !Excluded(b, k.traffic)
      ensures Within(Owed(b, k), At(allowed, k.traffic))
    {
      assert k.traffic in db.traffic;
      SameExcluded(db, change, k.traffic);
      assert Live(db, k) && Matched(db, k);
    }
  }

  lemma EarnedAfterBytes(db: Db, t: int, bytes: Bytes, allowed: Ledger)
    requires Earned(db, allowed) && Possible(db, AddBytes(t, bytes))
    ensures Earned(Changed(db, AddBytes(t, bytes)), if Excluded(db, t) then allowed else Increased(allowed, t, bytes))
  {
    var b := Changed(db, AddBytes(t, bytes));
    var after := if Excluded(db, t) then allowed else Increased(allowed, t, bytes);
    forall k | Live(b, k) && Matched(b, k) && !Excluded(b, k.traffic) ensures Within(Owed(b, k), At(after, k.traffic)) {
      SameExcluded(db, AddBytes(t, bytes), k.traffic);
      assert Live(db, k) && Matched(db, k) && Within(Owed(db, k), At(allowed, k.traffic));
    }
  }

  // Renames ---------------------------------------------------------------

  /**
   * The clients that the rename matches to their row again owe no more than its allowed bytes, or an exclude names
   * the row.
   */
  ghost predicate RenameEarned(db: Db, t: int, email: string, allowed: Ledger)
    requires Possible(db, Rename(t, email))
  {
    || Excluded(Changed(db, Rename(t, email)), t)
    || forall k :: Live(db, k) && k.traffic == t && db.clients[k].email == email ==> Within(Owed(db, k), At(allowed, t))
  }

  lemma RenamedElsewhere(db: Db, t: int, email: string, allowed: Ledger, k: Key)
    requires Earned(db, allowed) && Possible(db, Rename(t, email)) && k.traffic != t
    requires var b := Changed(db, Rename(t, email)); Live(b, k) && Matched(b, k) && !Excluded(b, k.traffic)
    ensures Within(Owed(Changed(db, Rename(t, email)), k), At(allowed, k.traffic))
  {
    assert k.traffic in db.traffic;
    SameExcluded(db, Rename(t, email), k.traffic);
    assert Live(db, k) && Matched(db, k);
  }

  /**
   * A rename keeps charges earned exactly under that condition, which is told from the tables and the ledger before
   * it.
   */
  lemma RenameEarnsExactly(db: Db, t: int, email: string, allowed: Ledger)
    requires Earned(db, allowed) && Possible(db, Rename(t, email))
    ensures Earned(Changed(db, Rename(t, email)), allowed) <==> RenameEarned(db, t, email, allowed)
  {
    var b := Changed(db, Rename(t, email));
    if RenameEarned(db, t, email, allowed) {
      forall k | Live(b, k) && Matched(b, k) && !Excluded(b, k.traffic)
        ensures Within(Owed(b, k), At(allowed, k.traffic))
      {
        if k.traffic != t { RenamedElsewhere(db, t, email, allowed, k); } else { assert Live(db, k); }
      }
    }
    if Earned(b, allowed) && !Excluded(b, t) {
      forall k | Live(db, k) && k.traffic == t && db.clients[k].email == email
        ensures Within(Owed(db, k), At(allowed, t))
      {
        assert Live(b, k) && Matched(b, k);
      }
    }
  }

  /**
   * The tables alone show it for a rename to the name the row has, or to one that no live client of the row is
   * recorded under.
   */
  predicate PlainRename(db: Db, t: int, email: string) {
    && t in db.traffic
    && (db.traffic[t].email == email || forall k :: k in db.clients && Live(db, k) && k.traffic == t ==>
                                                    db.clients[k].email != email)
  }

  lemma PlainRenameEarns(db: Db, t: int, email: string, allowed: Ledger)
    requires Earned(db, allowed) && Possible(db, Rename(t, email)) && PlainRename(db, t, email)
    ensures RenameEarned(db, t, email, allowed)
  {
    if db.traffic[t].email == email && !Excluded(Changed(db, Rename(t, email)), t) {
      SameExcluded(db, Rename(t, email), t);
      forall k | Live(db, k) && k.traffic == t && db.clients[k].email == email
        ensures Within(Owed(db, k), At(allowed, t))
      {
        assert Matched(db, k);
      }
    }
  }

  // Commands --------------------------------------------------------------

  lemma EarnedKept(a: Db, b: Db, row: Option<int>, rows: set<int>, allowed: Ledger)
    requires Earned(a, allowed) && Kept(a, b, row)
    requires forall k :: Live(b, k) && Matched(b, k) && k.traffic in rows ==> AtCounters(b, k)
    ensures Earned(b, Cleared(allowed, rows))
  {
    forall k | Live(b, k) && Matched(b, k) && !Excluded(b, k.traffic)
      ensures Within(Owed(b, k), At(Cleared(allowed, rows), k.traffic))
    {
      if !AtCounters(b, k) {
        assert row != Some(k.traffic) && !Excluded(a, k.traffic) && k.traffic !in rows;
        var r :| Live(a, Key(r, k.traffic)) && SameAccount(a.clients[Key(r, k.traffic)], b.clients[k]);
        assert Matched(a, Key(r, k.traffic)) && Owed(b, k) == Owed(a, Key(r, k.traffic));
      }
    }
  }

  lemma ResumedRowSettled(a: Db, command: Command, now: int, k: Key)
    requires (command.Resume? || command.ResumeAll?) && Execute(a, command, now).Ok?
    requires var b := Execute(a, command, now).value; Live(b, k) && Matched(b, k) && k.traffic in ResumedRows(a, b)
    ensures AtCounters(Execute(a, command, now).value, k)
  {
    var b := Execute(a, command, now).value;
    var j :| j in a.clients && BroughtBack(a, b, j.rule) && j.traffic == k.traffic;
    if command.Resume? {
      ResumeSettles(a, command.email, command.inbound, now, j, k);
    } else {
      ResumeAllSettles(a, command.inbound, now, j, k);
    }
  }

  /** The rows that a command restarts have their live clients at the counters. */
  lemma RestartedSettled(a: Db, command: Command, now: int)
    requires Valid(a) && now > 0 && Execute(a, command, now).Ok?
    ensures var b := Execute(a, command, now).value;
            forall k :: Live(b, k) && Matched(b, k) && k.traffic in RestartedRows(a, command, b) ==> AtCounters(b, k)
  {
    var b := Execute(a, command, now).value;
    if command.Resume? || command.ResumeAll? {
      forall k | Live(b, k) && Matched(b, k) && k.traffic in RestartedRows(a, command, b) ensures AtCounters(b, k) {
        ResumedRowSettled(a, command, now, k);
      }
    } else {
      assert RowSettled(b, SettledRow(a, command)) by { CommandKeeps(a, command, now); }
    }
  }

  // Ticks -----------------------------------------------------------------

  lemma ExcludedAfterTick(ready: Db, b: Db, env: TickEnv, now: int, t: int)
    requires Committed(ready, b, env, now)
    ensures Excluded(b, t) == Excluded(ready, t)
  {
    CommittedRow(ready, b, env, now, t);
    assert b.excludes == ready.excludes by { CommittedFacts(ready, b, env, now); }
  }

  lemma EarnedClient(ready: Db, b: Db, allowed: Ledger, locked: set<int>, rows: set<int>, k: Key)
    requires Earned(ready, allowed) && Live(b, k) && Matched(b, k) && !Excluded(ready, k.traffic) && rows !! locked
    requires (AtCounters(b, k) && Matched(b, k))
             || (k.traffic in locked && Live(ready, k) && k.traffic in ready.traffic
                 && b.traffic[k.traffic] == ready.traffic[k.traffic] && b.clients[k] == ready.clients[k])
    ensures Within(Owed(b, k), At(Cleared(allowed, rows), k.traffic))
  {
    if !AtCounters(b, k) {
      assert Matched(ready, k) && Owed(b, k) == Owed(ready, k);
    }
  }

  lemma EarnedAfterTick(ready: Db, b: Db, env: TickEnv, now: int, allowed: Ledger, rows: set<int>)
    requires Committed(ready, b, env, now) && Earned(ready, allowed) && rows !! env.locked
    ensures Earned(b, Cleared(allowed, rows))
  {
    forall k | Live(b, k) && Matched(b, k) && !Excluded(b, k.traffic)
      ensures Within(Owed(b, k), At(Cleared(allowed, rows), k.traffic))
    {
      ExcludedAfterTick(ready, b, env, now, k.traffic);
      LiveAfterTick(ready, b, env, now, k);
      EarnedClient(ready, b, allowed, env.locked, rows, k);
    }
  }

  /**
   * After a committed tick that could write the row, every live client on it is recorded under the row's email: no
   * rename matches an old one again.
   */
  lemma TickClearsStrays(ready: Db, b: Db, env: TickEnv, now: int, t: int, email: string)
    requires Committed(ready, b, env, now) && t in b.traffic && t !in env.locked
    ensures PlainRename(b, t, email)
  {
    forall k | Live(b, k) && k.traffic == t ensures b.clients[k].email == b.traffic[t].email {
      LiveAfterTick(ready, b, env, now, k);
    }
  }

  // Runs ------------------------------------------------------------------

  function Part(w: World): Books {
    Books(w.charged, w.allowed, w.eligible)
  }

  /** Live clients owe earned bytes only, and nothing was charged beyond the eligible bytes. */
  ghost predicate Eligible(w: World) {
    Valid(w.db) && Earned(w.db, w.allowed) && Backed(Part(w))
  }

  ghost predicate EarnedFrom(w: World, after: World) {
    Valid(after.db) && Earned(after.db, after.allowed) && BooksGrew(Part(w), Part(after))
  }

  /** The step, if a rename, matches no client to its row again that owes more than the row's allowed bytes. */
  ghost predicate RenameBacked(w: World, step: Step) {
    step.PanelStep? && step.change.Rename? && Possible(w.db, step.change) ==>
      RenameEarned(w.db, step.change.t, step.change.email, w.allowed)
  }

  ghost predicate RenamesBacked(w: World, steps: seq<Step>)
    decreases |steps|
  {
    steps == [] || (RenameBacked(w, steps[0]) && RenamesBacked(Advance(w, steps[0]), steps[1..]))
  }

  lemma EarnedTick(w: World, env: TickEnv, now: int)
    requires Valid(w.db) && Earned(w.db, w.allowed)
    ensures EarnedFrom(w, Advance(w, TickStep(env, now)))
  {
    if Tick(w.db, env, now).Err? {
      TickRefused(w, env, now);
    } else {
      var ready, after := TickTaken(w, env, now);
      EarnedTicked(w, ready, after, env, now);
    }
  }

  lemma FactoredEarned(ready: Db, ds: seq<Decision>, env: TickEnv, allowed: Ledger, rows: set<int>)
    requires DecideAll(Candidates(ready)) == Ok(ds) && rows == FactoredRows(ready, ds, env) && Earned(ready, allowed)
    ensures rows !! env.locked && forall t :: t in rows ==> Within(ChargedOn(ready, ds, t), At(allowed, t))
  {
    forall t | t in rows ensures t !in env.locked && Within(ChargedOn(ready, ds, t), At(allowed, t)) {
      var k := FactoredRow(ready, ds, env, t);
    }
  }

  lemma EarnedTicked(w: World, ready: Db, after: Db, env: TickEnv, now: int)
    requires Earned(w.db, w.allowed) && Kept(w.db, ready, None) && Committed(ready, after, env, now)
    ensures EarnedFrom(w, Ticked(w, ready, DecideAll(Candidates(ready)).value, env, after))
  {
    var ds := DecideAll(Candidates(ready)).value;
    EarnedKept(w.db, ready, None, {}, w.allowed);
    assert Cleared(w.allowed, {}) == w.allowed;
    CommittedValid(ready, after, env, now);
    FactoredEarned(ready, ds, env, w.allowed, FactoredRows(ready, ds, env));
    EarnedAfterTick(ready, after, env, now, w.allowed, FactoredRows(ready, ds, env));
    BooksGrewAfterTick(Part(w), ready, ds, FactoredRows(ready, ds, env));
    TickedBooks(w, ready, ds, env, after, FactoredRows(ready, ds, env));
  }

  lemma EarnedPanel(w: World, change: Change)
    requires Valid(w.db) && Earned(w.db, w.allowed) && RenameBacked(w, PanelStep(change))
    ensures EarnedFrom(w, Advance(w, PanelStep(change)))
  {
    if Possible(w.db, change) {
      ValidAfterChange(w.db, change);
      if change.AddBytes? {
        EarnedAfterBytes(w.db, change.t, change.bytes, w.allowed);
        BooksGrewAfterBytes(Part(w), change.t, change.bytes);
      } else if change.Rename? {
        RenameEarnsExactly(w.db, change.t, change.email, w.allowed);
      } else {
        EarnedAfterChange(w.db, change, w.allowed);
      }
    }
  }

  lemma EarnedCommand(w: World, command: Command, now: int)
    requires Valid(w.db) && Earned(w.db, w.allowed) && now > 0
    ensures EarnedFrom(w, Advance(w, CommandStep(command, now)))
  {
    if Execute(w.db, command, now).Ok? {
      var after := Execute(w.db, command, now).value;
      var rows := RestartedRows(w.db, command, after);
      CommandKeeps(w.db, command, now);
      RestartedSettled(w.db, command, now);
      EarnedKept(w.db, after, SettledRow(w.db, command), rows, w.allowed);
      BooksGrewWhenCleared(Part(w), rows);
    }
  }

  lemma EarnedStep(w: World, step: Step)
    requires Valid(w.db) && Earned(w.db, w.allowed) && Timed(step) && RenameBacked(w, step)
    ensures EarnedFrom(w, Advance(w, step))
  {
    match step
    case PanelStep(change) => EarnedPanel(w, change);
    case CommandStep(command, now) => EarnedCommand(w, command, now);
    case TickStep(env, now) => EarnedTick(w, env, now);
  }

  /** Every rename of the run gives a row the name it has, or one that no live client of the row is recorded under. */
  predicate PlainRenames(w: World, steps: seq<Step>)
    decreases |steps|
  {
    steps == [] || (PlainStep(w.db, steps[0]) && PlainRenames(Advance(w, steps[0]), steps[1..]))
  }

  predicate PlainStep(db: Db, step: Step) {
    step.PanelStep? && step.change.Rename? && Possible(db, step.change) ==>
        PlainRename(db, step.change.t, step.change.email)
  }

  /** Such runs, told apart on the tables alone, need no look at the ledgers. */
  lemma {:induction false} PlainRenamesBacked(w: World, steps: seq<Step>)
    requires Valid(w.db) && Earned(w.db, w.allowed) && (forall step :: step in steps ==> Timed(step))
             && PlainRenames(w, steps)
    ensures RenamesBacked(w, steps)
    decreases |steps|
  {
    if steps != [] {
      var step := steps[0];
      assert step in steps;
      PlainStepBacked(w, step);
      EarnedStep(w, step);
      PlainRenamesBacked(Advance(w, step), steps[1..]);
    }
  }

  lemma PlainStepBacked(w: World, step: Step)
    requires Earned(w.db, w.allowed) && PlainStep(w.db, step)
    ensures RenameBacked(w, step)
  {
    if step.PanelStep? && step.change.Rename? && Possible(w.db, step.change) {
      PlainRenameEarns(w.db, step.change.t, step.change.email, w.allowed);
    }
  }

  /**
   * From any moment on: what is charged and what may still be charged grows by no more than the eligible bytes that
   * arrive.
   */
  lemma {:induction false} EarnedRun(w: World, steps: seq<Step>)
    requires Valid(w.db) && Earned(w.db, w.allowed) && (forall step :: step in steps ==> Timed(step))
             && RenamesBacked(w, steps)
    ensures EarnedFrom(w, Run(w, steps))
    decreases |steps|
  {
    if steps != [] {
      var step := steps[0];
      assert step in steps;
      EarnedStep(w, step);
      EarnedRun(Advance(w, step), steps[1..]);
      BooksGrewTransitive(Part(w), Part(Advance(w, step)), Part(Run(w, steps)));
    }
  }

  /**
   * Over every run - whatever is resumed, and renamed under the exact condition - only bytes that arrived while no
   * exclude named their row are ever charged.
   */
  lemma EveryChargeIsEarned(w: World, steps: seq<Step>)
    requires Eligible(w) && (forall step :: step in steps ==> Timed(step)) && RenamesBacked(w, steps)
    ensures Eligible(Run(w, steps))
    ensures forall t :: Within(At(Run(w, steps).charged, t), At(Run(w, steps).eligible, t))
  {
    EarnedRun(w, steps);
    BooksGrewBacked(Part(w), Part(Run(w, steps)));
    BackedWithin(Part(Run(w, steps)));
  }

  /**
   * A command that restarts a row - resume or resume-all for the rows of the rules it brings back, unexclude,
   * override and remove-override for their own - draws a line: what is charged on the row from then on is no more
   * than the eligible bytes that arrive from then on. No byte of a pause is factored after it.
   */
  lemma RestartDrawsLine(w: World, command: Command, now: int, steps: seq<Step>, t: int)
    requires Valid(w.db) && Earned(w.db, w.allowed) && now > 0 && Execute(w.db, command, now).Ok?
    requires t in RestartedRows(w.db, command, Execute(w.db, command, now).value)
    requires (forall step :: step in steps ==> Timed(step))
             && RenamesBacked(Advance(w, CommandStep(command, now)), steps)
    ensures var start := Advance(w, CommandStep(command, now));
            var end := Run(start, steps);
            && Within(At(start.charged, t), At(end.charged, t)) && Within(At(start.eligible, t), At(end.eligible, t))
            && Within(Plus(At(end.charged, t), At(start.eligible, t)), Plus(At(start.charged, t), At(end.eligible, t)))
  {
    var start := Advance(w, CommandStep(command, now));
    EarnedCommand(w, command, now);
    EarnedRun(start, steps);
    assert BooksGrewOn(Part(start), Part(Run(start, steps)), t);
    RunOnlyAdds(start, steps, t);
  }

  lemma StepOnlyAdds(w: World, step: Step, t: int)
    ensures Within(At(w.charged, t), At(Advance(w, step).charged, t))
            && Within(At(w.eligible, t), At(Advance(w, step).eligible, t))
  {
    match step
    case PanelStep(change) =>
    case CommandStep(command, now) =>
    case TickStep(env, now) => OutcomeOnlyAdds(w, Prepared(w.db, now), env, Tick(w.db, env, now), t);
  }

  lemma TickedOnlyAdds(w: World, ready: Db, ds: seq<Decision>, env: TickEnv, after: Db, t: int)
    ensures Within(At(w.charged, t), At(Ticked(w, ready, ds, env, after).charged, t))
    ensures Ticked(w, ready, ds, env, after).eligible == w.eligible
  {
    TickedBooks(w, ready, ds, env, after, FactoredRows(ready, ds, env));
    ChargesAt(w.charged, ready, ds, FactoredRows(ready, ds, env), t);
  }

  lemma OutcomeOnlyAdds(w: World, ready: Result<Db>, env: TickEnv, after: Result<Db>, t: int)
    ensures Within(At(w.charged, t), At(TickOutcome(w, ready, env, after).charged, t))
    ensures TickOutcome(w, ready, env, after).eligible == w.eligible
  {
    if ready.Ok? && after.Ok? && DecideAll(Candidates(ready.value)).Ok? {
      TickedOnlyAdds(w, ready.value, DecideAll(Candidates(ready.value)).value, env, after.value, t);
      OutcomeTicked(w, ready, env, after);
    }
  }

  lemma {:induction false} RunOnlyAdds(w: World, steps: seq<Step>, t: int)
    ensures Within(At(w.charged, t), At(Run(w, steps).charged, t))
            && Within(At(w.eligible, t), At(Run(w, steps).eligible, t))
    decreases |steps|
  {
    if steps != [] {
      StepOnlyAdds(w, steps[0], t);
      RunOnlyAdds(Advance(w, steps[0]), steps[1..], t);
    }
  }
}
