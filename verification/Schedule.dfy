/**
 * Exact accounting on the whole machine: one row under one effective rule behaves like a meter, whatever else the run
 * does.
 */
module Schedule {
  import opened Collections
  import opened Model
  import opened Accounting
  import opened Decisions
  import opened PolicyTable
  import opened Baselines
  import opened Ticking
  import opened TickProofs
  import opened EnrolProofs
  import opened Machine
  import opened MachineProofs
  import opened Ledgers
  import opened Unambiguous
  import opened Ownership
  import opened Effective
  import C = Commands
  import R = Reconciling

  /** The client keeps its account and stays on record as present. */
  predicate Untouched(a: Db, b: Db, k: Key) {
    k in a.clients && k in b.clients && SameAccount(a.clients[k], b.clients[k]) && b.clients[k].missingAt.None?
  }

  /**
   * The step leaves `k` the effective client of its row at the factor, does not rebaseline it, and the panel only
   * adds bytes to the row.
   */
  ghost predicate Steers(db: Db, step: Step, k: Key, factorPpm: int64) {
    match step
    case PanelStep(change) =>
      Possible(db, change) && !change.AddBytes? ==>
        k.traffic in db.traffic && k.traffic in Changed(db, change).traffic
            && SameCounters(db.traffic[k.traffic], Changed(db, change).traffic[k.traffic])
    case CommandStep(command, now) => Execute(db, command, now).Ok? ==>
        Untouched(db, Execute(db, command, now).value, k)
    case TickStep(env, now) =>
      Tick(db, env, now).Ok? ==>
        Prepared(db, now).Ok? && Untouched(db, Prepared(db, now).value, k)
            && EffectiveOn(Prepared(db, now).value, k.traffic) == Some((k, factorPpm))
  }

  predicate SameCounters(a: Traffic, b: Traffic) {
    a.up == b.up && a.down == b.down && a.email == b.email
  }

  ghost predicate Steered(w: World, steps: seq<Step>, k: Key, factorPpm: int64)
    decreases |steps|
  {
    steps == [] || (Steers(w.db, steps[0], k, factorPpm) && Steered(Advance(w, steps[0]), steps[1..], k, factorPpm))
  }

  /** What a step is to the row. */
  function MomentOf(db: Db, step: Step, t: int): Moment {
    match step
    case PanelStep(change) => if change.AddBytes? && change.t == t then Arrive(change.bytes) else TickSkips
    case CommandStep(_, _) => TickSkips
    case TickStep(env, now) => if Tick(db, env, now).Ok? && t !in env.locked then TickCommits else TickSkips
  }

  function MomentsOf(w: World, steps: seq<Step>, t: int): seq<Moment>
    decreases |steps|
  {
    if steps == [] then [] else [MomentOf(w.db, steps[0], t)] + MomentsOf(Advance(w, steps[0]), steps[1..], t)
  }

  /** The meter reads the row, the client's account and the bytes added. */
  predicate Tracks(w: World, k: Key, m: Meter) {
    && k in w.db.clients && k.traffic in w.db.traffic
    && w.db.traffic[k.traffic].up == m.row.up && w.db.traffic[k.traffic].down == m.row.down
    && w.db.traffic[k.traffic].email == w.db.clients[k].email
    && SameAccount(w.db.clients[k], m.rc.(email := w.db.clients[k].email))
    && w.db.clients[k].missingAt.None? && m.rc.missingAt.None?
    && m.raw == At(w.raw, k.traffic)
  }

  /** Settling depends on counters and account alone. */
  lemma SettleReadsAccount(row: Traffic, rc: RuleClient, twin: Traffic, other: RuleClient, factorPpm: int64)
    requires row.up == twin.up && row.down == twin.down && rc.missingAt.None? && other.missingAt.None?
    requires rc.lastUp == other.lastUp && rc.lastDown == other.lastDown && rc.remUp == other.remUp
             && rc.remDown == other.remDown
    ensures Settle(row, rc, factorPpm).Ok? == Settle(twin, other, factorPpm).Ok?
    ensures Settle(row, rc, factorPpm).Ok? ==>
              var ((a, x), (b, y)) := (Settle(row, rc, factorPpm).value, Settle(twin, other, factorPpm).value);
              && a.up == b.up && a.down == b.down && a.email == row.email && x.email == rc.email && x.missingAt.None?
                  && y.missingAt.None?
              && x.lastUp == y.lastUp && x.lastDown == y.lastDown && x.remUp == y.remUp && x.remDown == y.remDown
  {
  }

  /** The effective client of a committed tick is settled at the effective factor, unless its row is locked. */
  lemma EffectiveOutcome(ready: Db, after: Db, env: TickEnv, now: int, k: Key, factorPpm: int64)
    requires Committed(ready, after, env, now) && EffectiveOn(ready, k.traffic) == Some((k, factorPpm))
    requires k.traffic in ready.traffic && Matched(ready, k)
    ensures k in ready.clients && k in after.clients && k.traffic in after.traffic
    ensures if k.traffic in env.locked then after.traffic[k.traffic] == ready.traffic[k.traffic]
                                            && after.clients[k] == ready.clients[k]
            else Settle(ready.traffic[k.traffic], ready.clients[k], factorPpm)
                 == Ok((after.traffic[k.traffic], after.clients[k]))
  {
    var ds := DecideAll(Candidates(ready)).value;
    DecisionAtIn(ds, k.traffic);
    var d := DecisionAt(ds, k.traffic).value;
    DecisionFits(ready, d);
    assert Outcome(ready, after, d, env, now) by { CommittedFacts(ready, after, env, now); }
    assert d.target.value.factorPpm == factorPpm;
  }

  lemma TickedTracks(w: World, ready: Db, ds: seq<Decision>, env: TickEnv, after: Db, k: Key, m: Meter, end: Meter)
    requires Tracks(w, k, m) && end.raw == m.raw && end.rc.missingAt.None?
    requires k in after.clients && k.traffic in after.traffic
             && after.traffic[k.traffic].email == after.clients[k].email && after.clients[k].missingAt.None?
    requires after.traffic[k.traffic].up == end.row.up && after.traffic[k.traffic].down == end.row.down
    requires SameAccount(after.clients[k], end.rc.(email := after.clients[k].email))
    ensures Tracks(Ticked(w, ready, ds, env, after), k, end)
  {
  }

  lemma SettledMeter(m: Meter, row: Traffic, rc: RuleClient, factorPpm: int64)
    requires row.up == m.row.up && row.down == m.row.down && rc.missingAt.None? && m.rc.missingAt.None?
    requires SameAccount(rc, m.rc.(email := rc.email)) && Settle(row, rc, factorPpm).Ok?
    ensures var end, (a, x) := Observe(m, TickCommits, factorPpm), Settle(row, rc, factorPpm).value;
            && end.raw == m.raw && end.rc.missingAt.None? && x.missingAt.None? && a.email == row.email
                && x.email == rc.email
            && a.up == end.row.up && a.down == end.row.down && SameAccount(x, end.rc.(email := x.email))
  {
    SettleReadsAccount(row, rc, m.row, m.rc, factorPpm);
  }

  lemma OutcomeTracks(w: World, ready: Db, ds: seq<Decision>, env: TickEnv, after: Db, k: Key, factorPpm: int64,
      m: Meter)
    requires Tracks(w, k, m) && ready.traffic == w.db.traffic && Untouched(w.db, ready, k)
    requires k in after.clients && k.traffic in after.traffic
    requires if k.traffic in env.locked
             then after.traffic[k.traffic] == ready.traffic[k.traffic] && after.clients[k] == ready.clients[k]
             else Settle(ready.traffic[k.traffic], ready.clients[k], factorPpm)
                  == Ok((after.traffic[k.traffic], after.clients[k]))
    ensures Tracks(Ticked(w, ready, ds, env, after), k,
                   Observe(m, if k.traffic in env.locked then TickSkips else TickCommits, factorPpm))
  {
    if k.traffic in env.locked {
      TickedTracks(w, ready, ds, env, after, k, m, m);
    } else {
      SettledMeter(m, ready.traffic[k.traffic], ready.clients[k], factorPpm);
      TickedTracks(w, ready, ds, env, after, k, m, Observe(m, TickCommits, factorPpm));
    }
  }

  lemma TickTracks(w: World, ready: Db, after: Db, env: TickEnv, now: int, k: Key, factorPpm: int64, m: Meter)
    requires Tracks(w, k, m) && Committed(ready, after, env, now) && ready.traffic == w.db.traffic
    requires Untouched(w.db, ready, k) && EffectiveOn(ready, k.traffic) == Some((k, factorPpm))
    ensures var moment := if k.traffic in env.locked then TickSkips else TickCommits;
            Tracks(Ticked(w, ready, DecideAll(Candidates(ready)).value, env, after), k, Observe(m, moment, factorPpm))
  {
    EffectiveOutcome(ready, after, env, now, k, factorPpm);
    OutcomeTracks(w, ready, DecideAll(Candidates(ready)).value, env, after, k, factorPpm, m);
  }

  lemma RefusedTickTracks(w: World, env: TickEnv, now: int, k: Key, factorPpm: int64, m: Meter)
    requires Tracks(w, k, m) && Tick(w.db, env, now).Err?
    ensures Tracks(Advance(w, TickStep(env, now)), k,
            Observe(m, MomentOf(w.db, TickStep(env, now), k.traffic), factorPpm))
  {
    TickRefused(w, env, now);
  }

  lemma TakenMoment(db: Db, env: TickEnv, now: int, t: int)
    requires Tick(db, env, now).Ok?
    ensures MomentOf(db, TickStep(env, now), t) == if t in env.locked then TickSkips else TickCommits
  {
  }

  lemma SteeredTick(db: Db, env: TickEnv, now: int, k: Key, factorPpm: int64, ready: Db)
    requires Tick(db, env, now).Ok? && Steers(db, TickStep(env, now), k, factorPpm) && Prepared(db, now) == Ok(ready)
    ensures Untouched(db, ready, k) && EffectiveOn(ready, k.traffic) == Some((k, factorPpm))
  {
  }

  lemma TakenTickTracks(w: World, env: TickEnv, now: int, k: Key, factorPpm: int64, m: Meter)
    requires Valid(w.db) && Tracks(w, k, m) && Steers(w.db, TickStep(env, now), k, factorPpm)
             && Tick(w.db, env, now).Ok?
    ensures Tracks(Advance(w, TickStep(env, now)), k,
            Observe(m, MomentOf(w.db, TickStep(env, now), k.traffic), factorPpm))
  {
    TakenMoment(w.db, env, now, k.traffic);
    var ready, after := TickTaken(w, env, now);
    SteeredTick(w.db, env, now, k, factorPpm, ready);
    TickTracks(w, ready, after, env, now, k, factorPpm, m);
  }

  lemma TickStepTracks(w: World, env: TickEnv, now: int, k: Key, factorPpm: int64, m: Meter)
    requires Valid(w.db) && Tracks(w, k, m) && Steers(w.db, TickStep(env, now), k, factorPpm)
    ensures Tracks(Advance(w, TickStep(env, now)), k,
            Observe(m, MomentOf(w.db, TickStep(env, now), k.traffic), factorPpm))
  {
    if Tick(w.db, env, now).Err? {
      RefusedTickTracks(w, env, now, k, factorPpm, m);
    } else {
      TakenTickTracks(w, env, now, k, factorPpm, m);
    }
  }

  lemma PanelStepTracks(w: World, change: Change, k: Key, factorPpm: int64, m: Meter)
    requires Tracks(w, k, m) && Steers(w.db, PanelStep(change), k, factorPpm)
    ensures Tracks(Advance(w, PanelStep(change)), k,
            Observe(m, MomentOf(w.db, PanelStep(change), k.traffic), factorPpm))
  {
  }

  lemma CommandedTracks(w: World, command: Command, after: Db, k: Key, m: Meter)
    requires Tracks(w, k, m) && after.traffic == w.db.traffic && Untouched(w.db, after, k)
    ensures Tracks(Commanded(w, command, after), k, m)
  {
  }

  lemma CommandStepTracks(w: World, command: Command, now: int, k: Key, factorPpm: int64, m: Meter)
    requires Valid(w.db) && now > 0 && Tracks(w, k, m) && Steers(w.db, CommandStep(command, now), k, factorPpm)
    ensures Tracks(Advance(w, CommandStep(command, now)), k, m)
  {
    if Execute(w.db, command, now).Ok? {
      var after := Execute(w.db, command, now).value;
      assert after.traffic == w.db.traffic by { CommandKeeps(w.db, command, now); }
      CommandedTracks(w, command, after, k, m);
    }
  }

  lemma ValidStep(w: World, step: Step)
    requires Valid(w.db) && Timed(step)
    ensures Valid(Advance(w, step).db)
  {
    match step
    case PanelStep(change) => if Possible(w.db, change) { ValidAfterChange(w.db, change); }
    case CommandStep(command, now) => if Execute(w.db, command, now).Ok? { CommandKeeps(w.db, command, now); }
    case TickStep(env, now) =>
      if Tick(w.db, env, now).Err? {
        TickRefused(w, env, now);
      } else {
        var ready, after := TickTaken(w, env, now);
        CommittedValid(ready, after, env, now);
      }
  }

  /**
   * While one client stays effective at one factor, its row and account are those of a meter fed with the run's bytes
   * and ticks.
   */
  lemma {:induction false} RunIsMetered(w: World, steps: seq<Step>, k: Key, factorPpm: int64, m: Meter)
    requires Valid(w.db) && (forall step :: step in steps ==> Timed(step)) && Steered(w, steps, k, factorPpm)
             && Tracks(w, k, m)
    ensures Tracks(Run(w, steps), k, Observed(m, MomentsOf(w, steps, k.traffic), factorPpm))
    decreases |steps|
  {
    if steps != [] {
      var step, moment := steps[0], MomentOf(w.db, steps[0], k.traffic);
      assert step in steps;
      match step {
        case PanelStep(change) => PanelStepTracks(w, change, k, factorPpm, m);
        case CommandStep(command, now) => CommandStepTracks(w, command, now, k, factorPpm, m);
        case TickStep(env, now) => TickStepTracks(w, env, now, k, factorPpm, m);
      }
      ValidStep(w, step);
      var moments := MomentsOf(w, steps, k.traffic);
      assert moments[0] == moment && moments[1..] == MomentsOf(Advance(w, step), steps[1..], k.traffic);
      RunIsMetered(Advance(w, step), steps[1..], k, factorPpm, Observe(m, moment, factorPpm));
    }
  }

  // Exact totals ----------------------------------------------------------

  function MeterOf(db: Db, k: Key): Meter
    requires k in db.clients && k.traffic in db.traffic
  {
    Meter(db.traffic[k.traffic], db.clients[k], NOTHING, NOTHING)
  }

  /** A client just baselined on the row of its email. */
  predicate JustBaselined(db: Db, k: Key) {
    Matched(db, k) && Opened(MeterOf(db, k))
  }

  lemma CommittedSeesAll(start: Traffic, m: Meter, factorPpm: int64, end: Meter)
    requires factorPpm >= SCALE && Balanced(start, m, factorPpm) && Settle(m.row, m.rc, factorPpm).Ok?
    requires end == Observe(m, TickCommits, factorPpm)
    ensures end.row.up == start.up + Factored(end.raw.up, factorPpm)
            && end.row.down == start.down + Factored(end.raw.down, factorPpm)
    ensures end.rc.remUp == end.raw.up * (factorPpm - SCALE) % SCALE
            && end.rc.remDown == end.raw.down * (factorPpm - SCALE) % SCALE
  {
    BalancedStep(start, m, TickCommits, factorPpm);
    ExactTotal(start.up, end.row.up, end.rc.lastUp, end.rc.remUp, end.raw.up, factorPpm);
    ExactTotal(start.down, end.row.down, end.rc.lastDown, end.rc.remDown, end.raw.down, factorPpm);
  }

  lemma TickSettles(w: World, env: TickEnv, now: int, k: Key, factorPpm: int64, m: Meter)
    requires Valid(w.db) && Tracks(w, k, m) && Steers(w.db, TickStep(env, now), k, factorPpm)
    requires Tick(w.db, env, now).Ok? && k.traffic !in env.locked
    ensures Settle(m.row, m.rc, factorPpm).Ok?
  {
    var ready, after := TickTaken(w, env, now);
    SteeredTick(w.db, env, now, k, factorPpm, ready);
    EffectiveOutcome(ready, after, env, now, k, factorPpm);
    SettleReadsAccount(ready.traffic[k.traffic], ready.clients[k], m.row, m.rc, factorPpm);
  }

  /**
   * However the run interleaved bytes, ticks, deferred and aborted ticks, commands and changes to other rows: after a
   * tick commits on the row, its counters are the start plus the factored bytes, to the byte, and the carried
   * fraction is exact.
   */
  lemma CountersAreFactored(db: Db, steps: seq<Step>, k: Key, factorPpm: int64, env: TickEnv, now: int)
    requires Valid(db) && JustBaselined(db, k) && factorPpm >= SCALE && now > 0
    requires (forall step :: step in steps ==> Timed(step)) && Steered(Fresh(db), steps, k, factorPpm)
    requires var w := Run(Fresh(db), steps);
             Steers(w.db, TickStep(env, now), k, factorPpm) && Tick(w.db, env, now).Ok? && k.traffic !in env.locked
    ensures var w, t := Advance(Run(Fresh(db), steps), TickStep(env, now)), k.traffic;
            && t in w.db.traffic && k in w.db.clients
            && w.db.traffic[t].up == db.traffic[t].up + Factored(At(w.raw, t).up, factorPpm)
            && w.db.traffic[t].down == db.traffic[t].down + Factored(At(w.raw, t).down, factorPpm)
            && w.db.clients[k].remUp == At(w.raw, t).up * (factorPpm - SCALE) % SCALE
            && w.db.clients[k].remDown == At(w.raw, t).down * (factorPpm - SCALE) % SCALE
  {
    var w, start := Run(Fresh(db), steps), MeterOf(db, k);
    RunIsMetered(Fresh(db), steps, k, factorPpm, start);
    RunKeepsValid(Fresh(db), steps);
    var m := Observed(start, MomentsOf(Fresh(db), steps, k.traffic), factorPpm);
    BalancedRun(start.row, start, MomentsOf(Fresh(db), steps, k.traffic), factorPpm);
    LastTick(w, env, now, k, factorPpm, m, start.row);
  }

  lemma LastTick(w: World, env: TickEnv, now: int, k: Key, factorPpm: int64, m: Meter, start: Traffic)
    requires Valid(w.db) && Tracks(w, k, m) && Steers(w.db, TickStep(env, now), k, factorPpm) && factorPpm >= SCALE
    requires Tick(w.db, env, now).Ok? && k.traffic !in env.locked && Balanced(start, m, factorPpm)
    ensures var after, t := Advance(w, TickStep(env, now)), k.traffic;
            && t in after.db.traffic && k in after.db.clients
            && after.db.traffic[t].up == start.up + Factored(At(after.raw, t).up, factorPpm)
            && after.db.traffic[t].down == start.down + Factored(At(after.raw, t).down, factorPpm)
            && after.db.clients[k].remUp == At(after.raw, t).up * (factorPpm - SCALE) % SCALE
            && after.db.clients[k].remDown == At(after.raw, t).down * (factorPpm - SCALE) % SCALE
  {
    TakenTickTracks(w, env, now, k, factorPpm, m);
    TakenMoment(w.db, env, now, k.traffic);
    TickSettles(w, env, now, k, factorPpm, m);
    CommittedSeesAll(start, m, factorPpm, Observe(m, TickCommits, factorPpm));
  }

  lemma {:induction false} RunKeepsValid(w: World, steps: seq<Step>)
    requires Valid(w.db) && forall step :: step in steps ==> Timed(step)
    ensures Valid(Run(w, steps).db)
    decreases |steps|
  {
    if steps != [] {
      assert steps[0] in steps;
      ValidStep(w, steps[0]);
      RunKeepsValid(Advance(w, steps[0]), steps[1..]);
    }
  }
}
