/**
 * When the charging phase of a tick commits, which clients it leaves alone, and a whole tick with one active client.
 */
module Commits {
  import opened Collections
  import opened Model
  import opened Accounting
  import opened Decisions
  import opened Baselines
  import opened Ticking
  import opened TickProofs
  import opened EnrolProofs
  import opened Machine
  import opened MachineProofs
  import opened Ledgers
  import opened Unambiguous
  import opened Ownership
  import opened Effective
  import opened Schedule
  import opened Rest
  import R = Reconciling

  // Success and failure -----------------------------------------------------

  /**
   * The winner can be dealt with: its row is not its own, locked, or chargeable without overflow, bad counter or lost
   * race.
   */
  predicate Chargeable(db: Db, x: Target, env: TickEnv) {
    var t := x.trafficId;
    t in db.traffic && t !in env.locked && db.traffic[t].email == x.client.email ==>
      && ChargeFor(db.traffic[t], x.client, x.factorPpm).Ok?
      && !(ChargeFor(db.traffic[t], x.client, x.factorPpm).value.Charged? && t in env.raced)
  }

  lemma TargetCommits(db: Db, x: Target, env: TickEnv, now: int)
    ensures TickTarget(db, x, env, now).Ok? <==> Chargeable(db, x, env)
  {
  }

  lemma ChargeableElsewhere(a: Db, b: Db, t: int, x: Target, env: TickEnv)
    requires OnlyRow(a, b, t) && x.trafficId != t
    ensures Chargeable(b, x, env) == Chargeable(a, x, env)
  {
  }

  predicate Winnable(db: Db, d: Decision, env: TickEnv) {
    d.target.Some? ==> Chargeable(db, d.target.value, env)
  }

  lemma DecisionCommits(db: Db, d: Decision, env: TickEnv, now: int)
    ensures TickDecision(db, d, env, now).Ok? <==> Winnable(db, d, env)
  {
    if d.target.Some? { TargetCommits(db, d.target.value, env, now); }
  }

  /**
   * The charging phase commits exactly when every decision's winner is chargeable on the tables it starts from: rows
   * do not disturb each other.
   */
  lemma {:induction false} ChargingCommitsExactly(a: Db, ds: seq<Decision>, env: TickEnv, now: int)
    requires AscendingTraffic(ds) && forall d :: d in ds ==> TickProofs.Fits(a, d)
    ensures TickDecisions(a, ds, env, now).Ok? <==> forall d :: d in ds ==> Winnable(a, d, env)
    decreases |ds|
  {
    if ds != [] {
      var d, rest := ds[0], ds[1..];
      assert d in ds && forall e :: e in ds <==> e == d || e in rest;
      DecisionCommits(a, d, env, now);
      if Winnable(a, d, env) {
        var m := TickDecision(a, d, env, now).value;
        TickDecisionFacts(a, d, env, now);
        forall e | e in rest ensures TickProofs.Fits(m, e) && Winnable(m, e, env) == Winnable(a, e, env) {
          LaterTraffic(ds, e);
          FitsElsewhere(a, m, d.trafficId, e);
          if e.target.Some? { ChargeableElsewhere(a, m, d.trafficId, e.target.value, env); }
        }
        ChargingCommitsExactly(m, rest, env, now);
      }
    }
  }

  /** On decided tables a tick commits exactly when every winner is chargeable. */
  lemma TickCommitsExactly(ready: Db, env: TickEnv, now: int)
    requires DecideAll(Candidates(ready)).Ok?
    ensures TickDecisions(ready, DecideAll(Candidates(ready)).value, env, now).Ok?
            <==> forall d :: d in DecideAll(Candidates(ready)).value ==> Winnable(ready, d, env)
  {
    DecidePerTraffic(Candidates(ready));
    forall d | d in DecideAll(Candidates(ready)).value ensures TickProofs.Fits(ready, d) { DecisionFits(ready, d); }
    ChargingCommitsExactly(ready, DecideAll(Candidates(ready)).value, env, now);
  }

  // Clients that no decision names --------------------------------------------

  lemma DecisionSpares(a: Db, d: Decision, env: TickEnv, now: int, k: Key)
    requires TickProofs.Fits(a, d) && TickDecision(a, d, env, now).Ok? && k in a.clients && k !in Named(d)
    ensures k in TickDecision(a, d, env, now).value.clients
            && TickDecision(a, d, env, now).value.clients[k] == a.clients[k]
  {
    NamedSuppressed(d);
    forall s | s in d.suppressed ensures TargetKey(s) in Keys(d.suppressed) { KeysMember(d.suppressed, TargetKey(s)); }
    if d.target.None? {
      SuppressedFacts(a, a, d, now);
    } else {
      var x := d.target.value;
      TickTargetFacts(a, x, env, now);
      WinnerKeepsEmails(a, TickTarget(a, x, env, now).value, x, env, now);
      SuppressedFacts(a, TickTarget(a, x, env, now).value, d, now);
      assert Named(d) == [TargetKey(x)] + Keys(d.suppressed);
    }
  }

  lemma {:induction false} DecisionsSpare(a: Db, ds: seq<Decision>, env: TickEnv, now: int, k: Key)
    requires AscendingTraffic(ds) && (forall d :: d in ds ==> TickProofs.Fits(a, d))
             && TickDecisions(a, ds, env, now).Ok?
    requires k in a.clients && forall d :: d in ds ==> k !in Named(d)
    ensures k in TickDecisions(a, ds, env, now).value.clients
            && TickDecisions(a, ds, env, now).value.clients[k] == a.clients[k]
    decreases |ds|
  {
    if ds != [] {
      var d, rest := ds[0], ds[1..];
      assert d in ds && forall e :: e in ds <==> e == d || e in rest;
      var m := TickDecision(a, d, env, now).value;
      TickDecisionFacts(a, d, env, now);
      DecisionSpares(a, d, env, now, k);
      forall e | e in rest ensures TickProofs.Fits(m, e) {
        LaterTraffic(ds, e);
        FitsElsewhere(a, m, d.trafficId, e);
      }
      DecisionsSpare(m, rest, env, now, k);
    }
  }

  /** A committed tick does not touch a client of a rule that is not active. */
  lemma CommittedSpares(ready: Db, b: Db, env: TickEnv, now: int, k: Key)
    requires Committed(ready, b, env, now) && k in ready.clients && !ActiveKey(ready, k)
    ensures k in b.clients && b.clients[k] == ready.clients[k]
  {
    var ds := DecideAll(Candidates(ready)).value;
    DecidePerTraffic(Candidates(ready));
    forall d | d in ds ensures TickProofs.Fits(ready, d) && k !in Named(d) { DecisionFits(ready, d); }
    DecisionsSpare(ready, ds, env, now, k);
  }

  // One active client -------------------------------------------------------

  ghost predicate OnlyActive(db: Db, k: Key) {
    forall j :: ActiveKey(db, j) ==> j == k
  }

  const CALM := TickEnv({}, {}, false, false)

  lemma SoleWinner(db: Db, k: Key, factorPpm: int64, d: Decision)
    requires OnlyActive(db, k) && DecideAll(Candidates(db)).Ok? && d in DecideAll(Candidates(db)).value
             && d.target.Some?
    requires EffectiveOn(db, k.traffic) == Some((k, factorPpm)) && k in db.clients
    ensures d.target.value.client == db.clients[k] && d.target.value.factorPpm == factorPpm
            && d.target.value.trafficId == k.traffic
    ensures d.trafficId == k.traffic
  {
    DecisionFits(db, d);
    assert ActiveKey(db, TargetKey(d.target.value));
    DecisionFound(db, d);
  }

  lemma SoleCommits(db: Db, k: Key, factorPpm: int64, now: int)
    requires OnlyActive(db, k) && DecideAll(Candidates(db)).Ok? && EffectiveOn(db, k.traffic) == Some((k, factorPpm))
    requires Matched(db, k) && ChargeFor(db.traffic[k.traffic], db.clients[k], factorPpm).Ok?
    ensures TickDecisions(db, DecideAll(Candidates(db)).value, CALM, now).Ok?
  {
    forall d | d in DecideAll(Candidates(db)).value ensures Winnable(db, d, CALM) {
      if d.target.Some? { SoleWinner(db, k, factorPpm, d); }
    }
    TickCommitsExactly(db, CALM, now);
  }

  /**
   * On tables at rest with one active client and no persistent scope, a tick charges that client's row by the meter,
   * and nothing else.
   */
  lemma SoleTick(db: Db, k: Key, factorPpm: int64, now: int) returns (after: Db)
    requires Resident(db, k, factorPpm) && OnlyActive(db, k) && R.ListPersistentScopes(db) == [] && now > 0
    requires ChargeFor(db.traffic[k.traffic], db.clients[k], factorPpm).Ok?
    ensures Tick(db, CALM, now) == Ok(after) && Prepared(db, now) == Ok(db)
    ensures Committed(db, after, CALM, now) && EffectiveOn(db, k.traffic) == Some((k, factorPpm))
    ensures k in after.clients && k.traffic in after.traffic
    ensures Settle(db.traffic[k.traffic], db.clients[k], factorPpm) == Ok((after.traffic[k.traffic], after.clients[k]))
    ensures SamePlaces(db, after) && after.clients.Keys == db.clients.Keys && after.nextRule == db.nextRule
    ensures forall j :: j in db.clients && j != k ==> after.clients[j] == db.clients[j]
  {
    RestPrepared(db, now);
    ResidentPrepared(db, k, factorPpm, now);
    OwnedTablesDecide(db);
    SoleCommits(db, k, factorPpm, now);
    after := TickDecisions(db, DecideAll(Candidates(db)).value, CALM, now).value;
    EffectiveOutcome(db, after, CALM, now, k, factorPpm);
    CommittedPlaces(db, after, CALM, now);
    CommittedFacts(db, after, CALM, now);
    forall j | j in db.clients && j != k
      ensures after.clients[j] == db.clients[j]
    {
      CommittedSpares(db, after, CALM, now, j);
    }
  }

  lemma EffectiveFactors(ready: Db, ds: seq<Decision>, env: TickEnv, k: Key, factorPpm: int64)
    requires DecideAll(Candidates(ready)) == Ok(ds) && EffectiveOn(ready, k.traffic) == Some((k, factorPpm))
    requires Matched(ready, k) && k.traffic !in env.locked
    ensures ChargeFor(ready.traffic[k.traffic], ready.clients[k], factorPpm).Ok? ==>
              (k.traffic in FactoredRows(ready, ds, env) <==>
                 var charge := ChargeFor(ready.traffic[k.traffic], ready.clients[k], factorPpm).value;
                       charge.Charged? || charge.Baselined?)
    ensures ChargedOn(ready, ds, k.traffic) == Owed(ready, k)
  {
    DecisionAtIn(ds, k.traffic);
    var d := DecisionAt(ds, k.traffic).value;
    DecisionFits(ready, d);
    ChargedOnDecision(ready, ds, d);
  }

  lemma SoleTickBooks(w: World, after: Db, k: Key, factorPpm: int64)
    requires DecideAll(Candidates(w.db)).Ok? && EffectiveOn(w.db, k.traffic) == Some((k, factorPpm)) && Matched(w.db, k)
    requires ChargeFor(w.db.traffic[k.traffic], w.db.clients[k], factorPpm).Ok?
    requires ChargeFor(w.db.traffic[k.traffic], w.db.clients[k], factorPpm).value.Charged?
    ensures var next := Ticked(w, w.db, DecideAll(Candidates(w.db)).value, CALM, after);
            && next.db == after && next.raw == w.raw && next.eligible == w.eligible
            && At(next.charged, k.traffic) == Plus(At(w.charged, k.traffic), Owed(w.db, k))
  {
    var ds := DecideAll(Candidates(w.db)).value;
    EffectiveFactors(w.db, ds, CALM, k, factorPpm);
    TickedBooks(w, w.db, ds, CALM, after, FactoredRows(w.db, ds, CALM));
    ChargesAt(w.charged, w.db, ds, FactoredRows(w.db, ds, CALM), k.traffic);
  }

  /** The machine's step for such a tick. */
  lemma SoleTickStep(w: World, k: Key, factorPpm: int64, now: int) returns (next: World)
    requires Resident(w.db, k, factorPpm) && OnlyActive(w.db, k) && R.ListPersistentScopes(w.db) == [] && now > 0
    requires ChargeFor(w.db.traffic[k.traffic], w.db.clients[k], factorPpm).Ok?
    requires ChargeFor(w.db.traffic[k.traffic], w.db.clients[k], factorPpm).value.Charged?
    ensures next == Advance(w, TickStep(CALM, now)) && next.raw == w.raw && next.eligible == w.eligible
    ensures At(next.charged, k.traffic) == Plus(At(w.charged, k.traffic), Owed(w.db, k))
    ensures k in next.db.clients && k.traffic in next.db.traffic
    ensures Settle(w.db.traffic[k.traffic], w.db.clients[k], factorPpm)
            == Ok((next.db.traffic[k.traffic], next.db.clients[k]))
    ensures SamePlaces(w.db, next.db) && next.db.clients.Keys == w.db.clients.Keys && next.db.nextRule == w.db.nextRule
    ensures forall j :: j in w.db.clients && j != k ==> next.db.clients[j] == w.db.clients[j]
  {
    var after := SoleTick(w.db, k, factorPpm, now);
    TickAdvances(w, CALM, now);
    SoleTickBooks(w, after, k, factorPpm);
    next := Ticked(w, w.db, DecideAll(Candidates(w.db)).value, CALM, after);
  }
}
