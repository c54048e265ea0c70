/** internal/daemon/tick.go on a transaction. */
module Daemon {
  import opened Collections
  import opened Model
  import opened Accounting
  import opened Decisions
  import opened PolicyTable
  import opened Ticking
  import opened TickProofs
  import opened Store
  import R = Reconciling
  import E = Engine
  import O = Operators

  // Enrolment -------------------------------------------------------------

  method EnrolCandidate(tx: Tx, s: int, t: int, now: int)
    modifies tx
    ensures tx.View() == EnrolClient(old(tx.View()), s, t, now)
  {
    if t !in tx.traffic || Key(s, t) in tx.clients { return; }
    var others := OtherOwners(tx.View(), t, s);
    if others != {} {
      var recorded := tx.AddEventOnce(s, ScopeSkip, Owned(t, Min(others)), now);
      return;
    }
    tx.CreateRuleClient(Key(s, t), tx.traffic[t]);
    tx.AddEvent(Some(s), ScopeEnroll, OnTraffic(t), now);
  }

  method EnrolCandidates(tx: Tx, s: int, ts: seq<int>, now: int)
    modifies tx
    ensures tx.View() == EnrolClients(old(tx.View()), s, ts, now)
  {
    ghost var whole := EnrolClients(tx.View(), s, ts, now);
    var left := ts;
    while left != []
      invariant EnrolClients(tx.View(), s, left, now) == whole
      decreases |left|
    {
      EnrolCandidate(tx, s, left[0], now);
      left := left[1..];
    }
  }

  method ReconcileScopes(tx: Tx, now: int)
    modifies tx
    ensures tx.View() == Enrol(old(tx.View()), now)
  {
    var left := R.ListPersistentScopes(tx.View());
    ghost var whole := EnrolScopes(tx.View(), left, now);
    while left != []
      invariant EnrolScopes(tx.View(), left, now) == whole
      decreases |left|
    {
      var candidates := ScopeCandidates(tx.View(), left[0]);
      EnrolCandidates(tx, left[0], candidates, now);
      left := left[1..];
    }
  }

  // One target ------------------------------------------------------------

  method MarkMissing(tx: Tx, x: Target, now: int)
    modifies tx
    ensures tx.View() == MarkAbsent(old(tx.View()), x, now)
  {
    tx.MarkRuleClientMissing(TargetKey(x), now);
    if x.client.missingAt.None? { tx.AddEvent(Some(x.ruleId), ClientMissing, OnTraffic(x.trafficId), now); }
  }

  method Rebaseline(tx: Tx, x: Target, current: Traffic, now: int)
    modifies tx
    ensures tx.View() == old(tx.View()).Rebase(TargetKey(x), current.up, current.down, 0, 0).Log(Some(x.ruleId),
            ClientReset, OnTraffic(x.trafficId), now)
  {
    tx.UpdateRuleClientBaseline(TargetKey(x), current.up, current.down, 0, 0);
    tx.AddEvent(Some(x.ruleId), ClientReset, OnTraffic(x.trafficId), now);
  }

  /** The statements that carry out a charge. */
  function Carried(db: Db, x: Target, current: Traffic, charge: Charge, now: int): Db {
    var k, t := TargetKey(x), x.trafficId;
    match charge
    case Returned => db.Rebase(k, current.up, current.down, 0, 0).Log(Some(x.ruleId), ClientReset, OnTraffic(t), now)
    case Decreased => db.Rebase(k, current.up, current.down, 0, 0).Log(Some(x.ruleId), ClientReset, OnTraffic(t), now)
    case Idle => db
    case Baselined(remUp, remDown) => db.Rebase(k, current.up, current.down, remUp, remDown)
    case Charged(extraUp, extraDown, remUp, remDown) =>
      if t !in db.traffic || current.up + extraUp > MAX_INT64 || current.down + extraDown > MAX_INT64
         || current.up + extraUp < MIN_INT64 || current.down + extraDown < MIN_INT64 then db
      else
        db.SetCounters(t, current.up + extraUp, current.down + extraDown).Rebase(k, current.up + extraUp,
            current.down + extraDown, remUp, remDown)
          .Log(Some(x.ruleId), TrafficApply, Applied(t, current.inboundId, current.email, extraUp, extraDown), now)
  }

  /** Counters, baseline and event of one charge; the compare-and-swap may lose the row to another writer. */
  method Apply(tx: Tx, x: Target, current: Traffic, charge: Charge, env: TickEnv, now: int) returns (r: Result<()>)
    requires x.trafficId in tx.traffic && tx.traffic[x.trafficId] == current && charge.Charged?
    requires 0 <= charge.extraUp <= MAX_INT64 - current.up && 0 <= charge.extraDown <= MAX_INT64 - current.down
    modifies tx
    ensures if x.trafficId in env.raced then r == Err(Race) else
                                               r == Ok(()) && tx.View()
                                               == Carried(old(tx.View()), x, current, charge, now)
  {
    var up, down := current.up + charge.extraUp, current.down + charge.extraDown;
    var ok := tx.UpdateClientCountersCAS(x.trafficId, current, up, down, x.trafficId in env.raced);
    if !ok { return Err(Race); }
    tx.UpdateRuleClientBaseline(TargetKey(x), up, down, charge.remUp, charge.remDown);
    tx.AddEvent(Some(x.ruleId), TrafficApply,
        Applied(x.trafficId, current.inboundId, current.email, charge.extraUp, charge.extraDown), now);
    return Ok(());
  }

  /** The branches of tickTarget, in their order, up to the first statement. */
  method Assess(current: Traffic, client: RuleClient, factorPpm: int64) returns (r: Result<Charge>)
    ensures r == ChargeFor(current, client, factorPpm)
  {
    if client.missingAt.Some? { return Ok(Returned); }
    var up := CounterDelta(current.up, client.lastUp);
    if up.Err? { return Err(up.error); }
    var down := CounterDelta(current.down, client.lastDown);
    if down.Err? { return Err(down.error); }
    if up.value.None? || down.value.None? { return Ok(Decreased); }
    if factorPpm == SCALE {
      if current.up == client.lastUp && current.down == client.lastDown && client.remUp == 0 && client.remDown == 0 {
        return Ok(Idle);
      }
      return Ok(Baselined(0, 0));
    }
    if up.value.value == 0 && down.value.value == 0 { return Ok(Idle); }
    var extraUp := CalculateExtra(up.value.value, factorPpm - SCALE, client.remUp);
    if extraUp.Err? { return Err(extraUp.error); }
    var extraDown := CalculateExtra(down.value.value, factorPpm - SCALE, client.remDown);
    if extraDown.Err? { return Err(extraDown.error); }
    if extraUp.value.0 == 0 && extraDown.value.0 == 0 { return Ok(Baselined(extraUp.value.1, extraDown.value.1)); }
    var newUp := SafeAdd(current.up, extraUp.value.0);
    if newUp.Err? { return Err(newUp.error); }
    var newDown := SafeAdd(current.down, extraDown.value.0);
    if newDown.Err? { return Err(newDown.error); }
    return Ok(Charged(extraUp.value.0, extraDown.value.0, extraUp.value.1, extraDown.value.1));
  }

  method ChargeTarget(tx: Tx, x: Target, current: Traffic, charge: Charge, env: TickEnv, now: int)
      returns (r: Result<()>)
    requires x.trafficId in tx.traffic && tx.traffic[x.trafficId] == current
    requires charge.Charged? ==> 0 <= charge.extraUp <= MAX_INT64 - current.up
                                 && 0 <= charge.extraDown <= MAX_INT64 - current.down
    modifies tx
    ensures if charge.Charged? && x.trafficId in env.raced then
              r == Err(Race) else r == Ok(()) && tx.View() == Carried(old(tx.View()), x, current, charge, now)
  {
    match charge {
      case Returned => Rebaseline(tx, x, current, now);
      case Decreased => Rebaseline(tx, x, current, now);
      case Idle =>
      case Baselined(remUp, remDown) => tx.UpdateRuleClientBaseline(TargetKey(x), current.up, current.down, remUp,
          remDown);
      case Charged(_, _, _, _) =>
        r := Apply(tx, x, current, charge, env, now);
        return;
    }
    return Ok(());
  }

  /** Adopting the inbound and carrying out the charge is what tickTarget does to its row and client. */
  lemma CarriedIsTicked(db: Db, x: Target, env: TickEnv, now: int, charge: Charge)
    requires Faithful(db, x) && x.trafficId in db.traffic && x.trafficId !in env.locked
             && db.traffic[x.trafficId].email == x.client.email
    requires ChargeFor(db.traffic[x.trafficId], x.client, x.factorPpm) == Ok(charge)
    ensures var current := db.traffic[x.trafficId];
            TickTarget(db, x, env, now)
            == if charge.Charged? && x.trafficId in env.raced then Err(Race)
               else Ok(Carried(db.AdoptInbound(TargetKey(x), current.inboundId), x, current, charge, now))
  {
    var current, k := db.traffic[x.trafficId], TargetKey(x);
    var adopted := db.AdoptInbound(k, current.inboundId);
    if !(charge.Charged? && x.trafficId in env.raced) {
      var (row, rc) := Settle(current, x.client, x.factorPpm).value;
      CarriedTables(db, x, current, charge, now, row, rc);
    }
  }

  lemma CarriedTables(db: Db, x: Target, current: Traffic, charge: Charge, now: int, row: Traffic, rc: RuleClient)
    requires Faithful(db, x) && x.trafficId in db.traffic && db.traffic[x.trafficId] == current
    requires ChargeFor(current, x.client, x.factorPpm) == Ok(charge)
             && Settle(current, x.client, x.factorPpm) == Ok((row, rc))
    ensures Carried(db.AdoptInbound(TargetKey(x), current.inboundId), x, current, charge, now)
            == ChargeEvent(db.(traffic := db.traffic[x.trafficId := row]).PutClient(TargetKey(x), rc), x, current,
                charge, now)
  {
    var k := TargetKey(x);
    var carried := Carried(db.AdoptInbound(k, current.inboundId), x, current, charge, now);
    assert carried.traffic == db.traffic[x.trafficId := row];
    assert carried.clients == db.clients[k := rc];
  }

  method TickOne(tx: Tx, x: Target, env: TickEnv, now: int) returns (r: Result<()>)
    requires Faithful(tx.View(), x)
    modifies tx
    ensures match TickTarget(old(tx.View()), x, env, now)
            case Err(e) => r == Err(e)
            case Ok(db) => r == Ok(()) && tx.View() == db
  {
    var t := x.trafficId;
    if t !in tx.traffic {
      MarkMissing(tx, x, now);
      return Ok(());
    }
    if t in env.locked { return Ok(()); }
    var current := tx.traffic[t];
    if current.email != x.client.email {
      MarkMissing(tx, x, now);
      return Ok(());
    }
    ghost var before := tx.View();
    if current.inboundId == x.client.inboundId { AdoptSame(before, TargetKey(x), current.inboundId); }
    if current.inboundId != x.client.inboundId {
      tx.AdoptRuleClientInbound(TargetKey(x), current.inboundId);
    }
    var charge := Assess(current, x.client, x.factorPpm);
    if charge.Err? { return Err(charge.error); }
    CarriedIsTicked(before, x, env, now, charge.value);
    r := ChargeTarget(tx, x, current, charge.value, env, now);
  }

  lemma AdoptSame(db: Db, k: Key, inbound: int)
    requires k in db.clients && db.clients[k].inboundId == inbound
    ensures db.AdoptInbound(k, inbound) == db
  {
    assert db.clients[k := db.clients[k]] == db.clients;
  }

  method RefreshSuppressedBaseline(tx: Tx, x: Target, now: int)
    requires Faithful(tx.View(), x)
    modifies tx
    ensures tx.View() == RefreshSuppressed(old(tx.View()), x, now)
  {
    var t := x.trafficId;
    if t !in tx.traffic || tx.traffic[t].email != x.client.email {
      MarkMissing(tx, x, now);
      return;
    }
    var current := tx.traffic[t];
    if current.inboundId != x.client.inboundId {
      tx.AdoptRuleClientInbound(TargetKey(x), current.inboundId);
    }
    tx.UpdateRuleClientBaseline(TargetKey(x), current.up, current.down, 0, 0);
  }

  // One decision ----------------------------------------------------------

  ghost predicate Ready(db: Db, xs: seq<Target>) {
    Distinct(Keys(xs)) && forall x :: x in xs ==> Faithful(db, x)
  }

  lemma ReadyRest(db: Db, xs: seq<Target>, now: int)
    requires xs != [] && Ready(db, xs)
    ensures Ready(RefreshSuppressed(db, xs[0], now), xs[1..])
  {
    var x, keys := xs[0], Keys(xs);
    assert x in xs && keys[0] == TargetKey(x) && keys[1..] == Keys(xs[1..]);
    RefreshFacts(db, x, now);
    HeadNotInTail(keys);
    forall y | y in xs[1..] ensures Faithful(RefreshSuppressed(db, x, now), y) {
      assert y in xs;
      KeysMember(xs[1..], TargetKey(y));
    }
  }

  method RefreshBaselines(tx: Tx, xs: seq<Target>, now: int)
    requires Ready(tx.View(), xs)
    modifies tx
    ensures tx.View() == RefreshAll(old(tx.View()), xs, now)
  {
    ghost var whole := RefreshAll(tx.View(), xs, now);
    var left := xs;
    while left != []
      invariant Ready(tx.View(), left)
      invariant RefreshAll(tx.View(), left, now) == whole
      decreases |left|
    {
      var x := left[0];
      assert x in left;
      ReadyRest(tx.View(), left, now);
      RefreshSuppressedBaseline(tx, x, now);
      left := left[1..];
    }
  }

  lemma SuppressedReady(db: Db, d: Decision)
    requires TickProofs.Fits(db, d)
    ensures Ready(db, d.suppressed)
  {
    if d.target.Some? { assert Named(d)[1..] == Keys(d.suppressed); } else { assert Named(d) == Keys(d.suppressed); }
  }

  lemma SuppressedReadyAfter(db: Db, d: Decision, env: TickEnv, now: int)
    requires TickProofs.Fits(db, d) && d.target.Some? && TickTarget(db, d.target.value, env, now).Ok?
    ensures Ready(TickTarget(db, d.target.value, env, now).value, d.suppressed)
  {
    var x := d.target.value;
    SuppressedReady(db, d);
    TickTargetFacts(db, x, env, now);
    assert Named(d)[0] == TargetKey(x) && Named(d)[1..] == Keys(d.suppressed);
    HeadNotInTail(Named(d));
    forall y | y in d.suppressed ensures Faithful(TickTarget(db, x, env, now).value, y) {
      KeysMember(d.suppressed, TargetKey(y));
    }
  }

  method TickDecisionOn(tx: Tx, d: Decision, env: TickEnv, now: int) returns (r: Result<()>)
    requires TickProofs.Fits(tx.View(), d)
    modifies tx
    ensures match TickDecision(old(tx.View()), d, env, now)
            case Err(e) => r == Err(e)
            case Ok(db) => r == Ok(()) && tx.View() == db
  {
    if d.target.None? {
      SuppressedReady(tx.View(), d);
      RefreshBaselines(tx, d.suppressed, now);
      return Ok(());
    }
    ghost var before := tx.View();
    r := TickOne(tx, d.target.value, env, now);
    if r.Err? { return; }
    SuppressedReadyAfter(before, d, env, now);
    RefreshBaselines(tx, d.suppressed, now);
  }

  // The tick --------------------------------------------------------------

  ghost predicate DecisionsAhead(db: Db, ds: seq<Decision>) {
    AscendingTraffic(ds) && forall d :: d in ds ==> TickProofs.Fits(db, d)
  }

  lemma DecisionsRest(db: Db, ds: seq<Decision>, env: TickEnv, now: int)
    requires ds != [] && DecisionsAhead(db, ds) && TickDecision(db, ds[0], env, now).Ok?
    ensures DecisionsAhead(TickDecision(db, ds[0], env, now).value, ds[1..])
  {
    var d := ds[0];
    assert d in ds;
    TickDecisionFacts(db, d, env, now);
    forall e | e in ds[1..] ensures TickProofs.Fits(TickDecision(db, d, env, now).value, e) {
      assert e in ds;
      LaterTraffic(ds, e);
      FitsElsewhere(db, TickDecision(db, d, env, now).value, d.trafficId, e);
    }
  }

  method TickAll(tx: Tx, ds: seq<Decision>, env: TickEnv, now: int) returns (r: Result<()>)
    requires DecisionsAhead(tx.View(), ds)
    modifies tx
    ensures match TickDecisions(old(tx.View()), ds, env, now)
            case Err(e) => r == Err(e)
            case Ok(db) => r == Ok(()) && tx.View() == db
  {
    ghost var whole := TickDecisions(tx.View(), ds, env, now);
    var left := ds;
    while left != []
      invariant DecisionsAhead(tx.View(), left)
      invariant TickDecisions(tx.View(), left, env, now) == whole
      decreases |left|
    {
      var d := left[0];
      assert d in left;
      ghost var before := tx.View();
      var step := TickDecisionOn(tx, d, env, now);
      if step.Err? { return step; }
      DecisionsRest(before, left, env, now);
      left := left[1..];
    }
    return Ok(());
  }

  lemma DecisionsFit(db: Db)
    requires DecideAll(Candidates(db)).Ok?
    ensures DecisionsAhead(db, DecideAll(Candidates(db)).value)
  {
    DecidePerTraffic(Candidates(db));
    forall d | d in DecideAll(Candidates(db)).value ensures TickProofs.Fits(db, d) { DecisionFits(db, d); }
  }

  method ListCandidates(db: Db) returns (candidates: seq<Candidate>)
    ensures candidates == Candidates(db)
  {
    var targets := Targets(db);
    var excludes := PolicyRows(db.excludes, ListActive(db.excludes));
    var overrides := PolicyRows(db.overrides, ListActive(db.overrides));
    candidates := ActiveRuleCandidates(targets);
    var more := OverrideCandidatesForActiveTargets(overrides, targets);
    candidates := candidates + more;
    more := ExcludeCandidatesForActiveTargets(excludes, targets);
    candidates := candidates + more;
  }

  method Prepare(tx: Tx, now: int) returns (r: Result<()>)
    modifies tx
    ensures match Prepared(old(tx.View()), now)
            case Err(e) => r == Err(e)
            case Ok(db) => r == Ok(()) && tx.View() == db
  {
    var reconciled := E.ReconcileTx(tx, None, now, false);
    if reconciled.Err? { return Err(reconciled.error); }
    ReconcileScopes(tx, now);
    return Ok(());
  }

  /** Decide on the prepared tables and carry the decisions out. */
  method Factor(tx: Tx, env: TickEnv, now: int) returns (r: Result<()>)
    modifies tx
    ensures match DecideAll(Candidates(old(tx.View())))
            case Err(e) => r == Err(e)
            case Ok(ds) =>
              (match TickDecisions(old(tx.View()), ds, env, now)
               case Err(e) => r == Err(e)
               case Ok(db) => r == Ok(()) && tx.View() == db)
  {
    var candidates := ListCandidates(tx.View());
    var ds := Decide(candidates);
    if ds.Err? { return Err(ds.error); }
    DecisionsFit(tx.View());
    r := TickAll(tx, ds.value, env, now);
  }

  /** Tick, inside its transaction. */
  method Tick(tx: Tx, env: TickEnv, now: int) returns (r: Result<()>)
    modifies tx
    ensures O.Ran(Ticking.Tick(old(tx.View()), env, now), old(tx.View()), tx.View(), r)
  {
    var before := tx.View();
    if env.managed && !env.factorOnManaged { return Err(Managed); }
    r := Prepare(tx, now);
    if r.Err? {
      tx.Rollback(before);
      return;
    }
    r := Factor(tx, env, now);
    if r.Err? { tx.Rollback(before); }
  }
}
