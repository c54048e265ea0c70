/**
 * Tables at rest: nothing is left to reconcile, ticks and arriving bytes keep it so, and every live client stays
 * effective.
 */
module Rest {
  import opened Collections
  import opened Model
  import opened Accounting
  import opened Decisions
  import opened PolicyTable
  import opened Baselines
  import opened ReconcileProofs
  import opened ReconcileTheorems
  import opened Ticking
  import opened TickProofs
  import opened EnrolProofs
  import opened Machine
  import opened MachineProofs
  import opened Ledgers
  import opened Unambiguous
  import opened Ownership
  import opened Effective
  import opened Schedule
  import R = Reconciling

  /** Every active policy of a live email records the email's row and inbound. */
  ghost predicate PoliciesInPlace(db: Db, table: Table) {
    forall id, t :: ActiveRow(table, id) && t in db.traffic && db.traffic[t].email == table[id].email ==>
                    Settled(db, table, id, t)
  }

  /**
   * No reconcile has anything to do: every active single-user rule sits on its own free, enabled row, and policies
   * are in place.
   */
  ghost predicate AtRest(db: Db) {
    && (forall r :: IsSingle(db, r) ==> Calm(db, R.ListPersistentScopes(db), r))
    && PoliciesInPlace(db, db.excludes) && PoliciesInPlace(db, db.overrides)
  }

  lemma RestIsFixed(db: Db, now: int)
    requires AtRest(db) && EmailsUnique(db) && now > 0
    ensures R.Reconcile(db, None, now, false).Ok? && R.Reconcile(db, None, now, false).value.0 == db
  {
    RulesAtRest(db, now);
    TableInPlace(db, db.excludes, now);
    TableInPlace(db, db.overrides, now);
  }

  lemma TableInPlace(db: Db, table: Table, now: int)
    requires EmailsUnique(db) && PoliciesInPlace(db, table)
    ensures FollowAll(db, table, table, ListActive(table), None, now) == table
  {
    ListActiveLists(table);
    NothingStale(db, table, ListActive(table), None);
  }

  lemma RestPrepared(db: Db, now: int)
    requires AtRest(db) && EmailsUnique(db) && now > 0
    ensures Prepared(db, now) == Ok(Enrol(db, now))
  {
    RestIsFixed(db, now);
  }

  // What rest survives ------------------------------------------------------

  /** The rows are the same but for their counters, and so are scopes, rules, members and policies. */
  ghost predicate SamePlaces(a: Db, b: Db) {
    && b.traffic.Keys == a.traffic.Keys && b.members == a.members && b.rules == a.rules && b.scopes == a.scopes
    && b.excludes == a.excludes && b.overrides == a.overrides
    && forall t :: t in a.traffic ==> b.traffic[t] == a.traffic[t].(up := b.traffic[t].up, down := b.traffic[t].down)
  }

  /** The clients of single-user rules sit as they did. */
  ghost predicate SameSeats(a: Db, b: Db) {
    && (forall k: Key :: IsSingle(a, k.rule) ==> (k in b.clients <==> k in a.clients))
    && (forall r, t :: IsSingle(a, r) && Seated(a, r, t) ==> Seated(b, r, t))
  }

  lemma SamePersistent(a: Db, b: Db)
    requires SamePlaces(a, b)
    ensures R.ListPersistentScopes(b) == R.ListPersistentScopes(a)
  {
    assert R.PersistentIds(b) == R.PersistentIds(a);
  }

  lemma CalmStays(a: Db, b: Db, scopes: seq<int>, r: int, t: int)
    requires SamePlaces(a, b) && SameSeats(a, b) && IsSingle(a, r) && CalmOn(a, scopes, r, t) && OneOwner(b)
    ensures CalmOn(b, scopes, r, t)
  {
    assert b.Owns(r, t);
    assert !Scoped(b, t) by { if x :| x in b.scopes && b.Owns(x, t) { assert x == r; } }
    forall s ensures R.ScopeAdmits(b, s, r, t) == R.ScopeAdmits(a, s, r, t) {}
    assert !Admitted(a, scopes, r, t);
  }

  lemma InPlaceStays(a: Db, b: Db, table: Table)
    requires SamePlaces(a, b) && PoliciesInPlace(a, table)
    ensures PoliciesInPlace(b, table)
  {
    forall id, t | ActiveRow(table, id) && t in b.traffic && b.traffic[t].email == table[id].email
      ensures Settled(b, table, id, t)
    {
      assert Settled(a, table, id, t);
    }
  }

  lemma RestStays(a: Db, b: Db)
    requires AtRest(a) && SamePlaces(a, b) && SameSeats(a, b) && OneOwner(b)
    ensures AtRest(b)
  {
    SamePersistent(a, b);
    var scopes := R.ListPersistentScopes(a);
    forall r | IsSingle(b, r) ensures Calm(b, scopes, r) {
      assert IsSingle(a, r) && Calm(a, scopes, r);
      var t :| CalmOn(a, scopes, r, t);
      CalmStays(a, b, scopes, r, t);
    }
    InPlaceStays(a, b, a.excludes);
    InPlaceStays(a, b, a.overrides);
  }

  lemma RestAfterBytes(db: Db, t: int, bytes: Bytes)
    requires AtRest(db) && Tidy(db) && Possible(db, AddBytes(t, bytes))
    ensures AtRest(Changed(db, AddBytes(t, bytes))) && Tidy(Changed(db, AddBytes(t, bytes)))
  {
    ChangeTidy(db, AddBytes(t, bytes));
    RestStays(db, Changed(db, AddBytes(t, bytes)));
  }

  lemma RestAfterGrowth(db: Db, b: Db)
    requires AtRest(db) && Tidy(db) && Grew(db, b) && Valid(b) && OneOwner(b)
    ensures AtRest(b) && Tidy(b)
  {
    RestStays(db, b);
  }

  lemma RestAfterEnrol(db: Db, now: int)
    requires AtRest(db) && Tidy(db)
    ensures AtRest(Enrol(db, now)) && Tidy(Enrol(db, now)) && Grew(db, Enrol(db, now))
  {
    EnrolKeeps(db, now);
    RestAfterGrowth(db, Enrol(db, now));
  }

  // Ticks -----------------------------------------------------------------

  /** A client on its own row keeps its seat in a committed tick, and its row's inbound. */
  lemma SettleSeats(row: Traffic, rc: RuleClient, factorPpm: int64)
    requires Settle(row, rc, factorPpm).Ok? && rc.inboundId == row.inboundId && rc.missingAt.None?
    ensures var (row', rc') := Settle(row, rc, factorPpm).value;
            rc'.inboundId == row.inboundId && rc'.email == rc.email && rc'.missingAt.None?
            && row' == row.(up := row'.up, down := row'.down)
  {
  }

  lemma DecidedSeats(ready: Db, b: Db, d: Decision, env: TickEnv, k: Key, now: int)
    requires Outcome(ready, b, d, env, now) && k in Named(d) && k.traffic == d.trafficId && Matched(ready, k)
             && Live(ready, k)
    requires ready.clients[k].inboundId == ready.traffic[k.traffic].inboundId
    requires k.traffic in b.traffic && b.traffic[k.traffic]
             == ready.traffic[k.traffic].(up := b.traffic[k.traffic].up, down := b.traffic[k.traffic].down)
    ensures k in b.clients && b.clients[k].inboundId == ready.clients[k].inboundId
            && b.clients[k].email == ready.clients[k].email
    ensures b.clients[k].missingAt.None?
  {
    KeysMember(d.suppressed, k);
    if d.target.Some? && TargetKey(d.target.value) == k {
      if k.traffic !in env.locked { SettleSeats(ready.traffic[k.traffic], ready.clients[k], d.target.value.factorPpm); }
    } else {
      var s :| s in d.suppressed && TargetKey(s) == k;
      assert Yields(ready, b, k, now);
    }
  }

  lemma CommittedPlaces(ready: Db, b: Db, env: TickEnv, now: int)
    requires Committed(ready, b, env, now)
    ensures SamePlaces(ready, b) && b.clients.Keys == ready.clients.Keys
  {
    CommittedFacts(ready, b, env, now);
    forall t | t in ready.traffic
      ensures b.traffic[t] == ready.traffic[t].(up := b.traffic[t].up, down := b.traffic[t].down)
    {
      CommittedRow(ready, b, env, now, t);
    }
  }

  lemma SeatKept(ready: Db, b: Db, env: TickEnv, now: int, r: int, t: int)
    requires Committed(ready, b, env, now) && IsSingle(ready, r) && Seated(ready, r, t)
    ensures Seated(b, r, t)
  {
    var k := Key(r, t);
    CommittedPlaces(ready, b, env, now);
    var d := DecisionOf(ready, k);
    assert Outcome(ready, b, d, env, now) by { CommittedFacts(ready, b, env, now); }
    DecidedSeats(ready, b, d, env, k, now);
  }

  lemma RestAfterCommit(ready: Db, b: Db, env: TickEnv, now: int)
    requires AtRest(ready) && Tidy(ready) && Committed(ready, b, env, now)
    ensures AtRest(b) && Tidy(b)
  {
    CommittedPlaces(ready, b, env, now);
    CommittedTidy(ready, b, env, now);
    forall r, t | IsSingle(ready, r) && Seated(ready, r, t)
      ensures Seated(b, r, t)
    {
      SeatKept(ready, b, env, now, r, t);
    }
    RestStays(ready, b);
  }

  // Runs ------------------------------------------------------------------

  /** Bytes arrive, or the daemon ticks. */
  predicate Routine(step: Step) {
    (step.PanelStep? && step.change.AddBytes?) || (step.TickStep? && step.now > 0)
  }

  /** The client is live on its own row, under one owner per row, at rest, and effective at the factor by the tables. */
  ghost predicate Resident(db: Db, k: Key, factorPpm: int64) {
    AtRest(db) && Tidy(db) && Live(db, k) && Matched(db, k) && FactorIs(db, k, Some(factorPpm))
  }

  lemma SameFactor(a: Db, b: Db, k: Key, factorPpm: int64)
    requires k in a.clients && k in b.clients && b.clients[k].email == a.clients[k].email
    requires b.excludes == a.excludes && b.overrides == a.overrides && b.rules == a.rules
    ensures FactorIs(b, k, Some(factorPpm)) == FactorIs(a, k, Some(factorPpm))
  {
    forall id ensures NamesKey(b, a.excludes, id, k) == NamesKey(a, a.excludes, id, k) {}
    forall id ensures NamesKey(b, a.overrides, id, k) == NamesKey(a, a.overrides, id, k) {}
    assert NamedIn(b, a.excludes, k) == NamedIn(a, a.excludes, k)
        && NamedIn(b, a.overrides, k) == NamedIn(a, a.overrides, k);
  }

  lemma ResidentPrepared(db: Db, k: Key, factorPpm: int64, now: int)
    requires Resident(db, k, factorPpm) && now > 0
    ensures Prepared(db, now).Ok?
    ensures var ready := Prepared(db, now).value;
            Resident(ready, k, factorPpm) && Untouched(db, ready, k)
                && EffectiveOn(ready, k.traffic) == Some((k, factorPpm))
  {
    RestPrepared(db, now);
    RestAfterEnrol(db, now);
    ResidentEffective(db, Enrol(db, now), k, factorPpm);
  }

  lemma ResidentEffective(db: Db, ready: Db, k: Key, factorPpm: int64)
    requires Resident(db, k, factorPpm) && Grew(db, ready) && AtRest(ready) && Tidy(ready)
    ensures Resident(ready, k, factorPpm) && Untouched(db, ready, k)
            && EffectiveOn(ready, k.traffic) == Some((k, factorPpm))
  {
    SameFactor(db, ready, k, factorPpm);
    OwnedTablesDecide(ready);
    OwnerIsSole(ready, k);
    EffectiveExactly(ready, k, Some(factorPpm));
  }

  /** Every tick on tables at rest steers the client by the factor that the tables give. */
  lemma ResidentSteers(db: Db, k: Key, factorPpm: int64, step: Step)
    requires Resident(db, k, factorPpm) && Routine(step)
    ensures Steers(db, step, k, factorPpm)
  {
    if step.TickStep? { ResidentPrepared(db, k, factorPpm, step.now); }
  }

  lemma ResidentCommitted(ready: Db, after: Db, k: Key, factorPpm: int64, env: TickEnv, now: int)
    requires Resident(ready, k, factorPpm) && EffectiveOn(ready, k.traffic) == Some((k, factorPpm))
             && Committed(ready, after, env, now)
    ensures Resident(after, k, factorPpm)
  {
    RestAfterCommit(ready, after, env, now);
    CommittedPlaces(ready, after, env, now);
    EffectiveOutcome(ready, after, env, now, k, factorPpm);
    StillLive(ready, after, env, k, factorPpm);
    SameFactor(ready, after, k, factorPpm);
  }

  lemma StillLive(ready: Db, after: Db, env: TickEnv, k: Key, factorPpm: int64)
    requires Live(ready, k) && Matched(ready, k) && k in after.clients && k.traffic in after.traffic
             && after.rules == ready.rules
    requires if k.traffic in env.locked then after.traffic[k.traffic] == ready.traffic[k.traffic]
                                             && after.clients[k] == ready.clients[k]
             else Settle(ready.traffic[k.traffic], ready.clients[k], factorPpm)
                  == Ok((after.traffic[k.traffic], after.clients[k]))
    ensures Live(after, k) && Matched(after, k) && after.clients[k].email == ready.clients[k].email
  {
  }

  lemma ResidentTick(w: World, env: TickEnv, now: int, k: Key, factorPpm: int64)
    requires Resident(w.db, k, factorPpm) && now > 0
    ensures Resident(Advance(w, TickStep(env, now)).db, k, factorPpm)
  {
    if Tick(w.db, env, now).Err? {
      TickRefused(w, env, now);
    } else {
      var ready, after := TickTaken(w, env, now);
      ResidentPrepared(w.db, k, factorPpm, now);
      ResidentCommitted(ready, after, k, factorPpm, env, now);
    }
  }

  lemma ResidentBytes(w: World, t: int, bytes: Bytes, k: Key, factorPpm: int64)
    requires Resident(w.db, k, factorPpm)
    ensures Resident(Advance(w, PanelStep(AddBytes(t, bytes))).db, k, factorPpm)
  {
    if Possible(w.db, AddBytes(t, bytes)) {
      RestAfterBytes(w.db, t, bytes);
      SameFactor(w.db, Changed(w.db, AddBytes(t, bytes)), k, factorPpm);
    }
  }

  /**
   * From tables at rest every run of arriving bytes and ticks - deferred, aborted or committed - steers the client by
   * the factor that the tables give at its start.
   */
  lemma {:induction false} ResidentRun(w: World, steps: seq<Step>, k: Key, factorPpm: int64)
    requires Resident(w.db, k, factorPpm) && forall step :: step in steps ==> Routine(step)
    ensures Steered(w, steps, k, factorPpm) && Resident(Run(w, steps).db, k, factorPpm)
    decreases |steps|
  {
    if steps != [] {
      var step := steps[0];
      assert step in steps;
      ResidentSteers(w.db, k, factorPpm, step);
      match step {
        case PanelStep(change) => ResidentBytes(w, change.t, change.bytes, k, factorPpm);
        case TickStep(env, now) => ResidentTick(w, env, now, k, factorPpm);
      }
      ResidentRun(Advance(w, step), steps[1..], k, factorPpm);
    }
  }

  /**
   * The same with conditions on the tables alone: where a client sits just baselined on tables at rest, then however
   * bytes and ticks interleave, once a tick commits on its row the counters are the start plus the factored bytes, at
   * the factor of an override that names the client, or else of its rule.
   */
  lemma ResidentIsFactored(db: Db, steps: seq<Step>, k: Key, factorPpm: int64, env: TickEnv, now: int)
    requires Resident(db, k, factorPpm) && JustBaselined(db, k) && factorPpm >= SCALE && now > 0
    requires forall step :: step in steps ==> Routine(step)
    requires Tick(Run(Fresh(db), steps).db, env, now).Ok? && k.traffic !in env.locked
    ensures var w, t := Advance(Run(Fresh(db), steps), TickStep(env, now)), k.traffic;
            && t in w.db.traffic && k in w.db.clients
            && w.db.traffic[t].up == db.traffic[t].up + Factored(At(w.raw, t).up, factorPpm)
            && w.db.traffic[t].down == db.traffic[t].down + Factored(At(w.raw, t).down, factorPpm)
            && w.db.clients[k].remUp == At(w.raw, t).up * (factorPpm - SCALE) % SCALE
            && w.db.clients[k].remDown == At(w.raw, t).down * (factorPpm - SCALE) % SCALE
  {
    ResidentRun(Fresh(db), steps, k, factorPpm);
    ResidentSteers(Run(Fresh(db), steps).db, k, factorPpm, TickStep(env, now));
    CountersAreFactored(db, steps, k, factorPpm, env, now);
  }
}
