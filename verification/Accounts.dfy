/** In every run, clients carry proper fractions, and rules and overrides have factors that do not diminish. */
module Accounts {
  import opened Collections
  import opened Model
  import opened Factor
  import opened Accounting
  import opened Decisions
  import opened PolicyTable
  import opened Ticking
  import opened TickProofs
  import opened Machine
  import opened MachineProofs
  import C = Commands
  import R = Reconciling
  import K = Cleanup
  import S = Sweeps
  import Q = Charges
  import V = Verdicts
  import Quiescence
  import ReconcileTheorems

  predicate ProperAccount(rc: RuleClient) {
    0 <= rc.remUp < SCALE && 0 <= rc.remDown < SCALE
  }

  ghost predicate Overriding(table: Table) {
    forall id :: id in table ==> table[id].factorPpm >= SCALE
  }

  ghost predicate Sane(db: Db) {
    && (forall k :: k in db.clients ==> ProperAccount(db.clients[k]))
    && (forall r :: r in db.rules ==> db.rules[r].factorPpm >= SCALE)
    && Overriding(db.overrides)
  }

  // Reconcile and enrolment ---------------------------------------------------

  lemma PlacedSane(a: Db, r: int, place: R.Place, now: int)
    requires Sane(a)
    ensures Sane(R.Placed(a, r, place, now))
  {
    match place {
      case Follow(t, row) =>
        if row in a.traffic {
          var clients := Moved(a.clients, Key(r, t), Key(r, row), FreshClient(a.traffic[row]));
          assert forall k :: k in clients ==> ProperAccount(clients[k]);
        }
      case Here(t) => RevivedSane(a, r, t, now);
      case _ =>
    }
  }

  lemma PutSane(a: Db, b: Db, k: Key, rc: RuleClient)
    requires Sane(a) && ProperAccount(rc) && b.clients == a.clients[k := rc] && b.rules == a.rules
             && b.overrides == a.overrides
    ensures Sane(b)
  {
  }

  lemma InboundSane(a: Db, k: Key, inbound: int)
    requires Sane(a)
    ensures Sane(a.AdoptInbound(k, inbound))
  {
  }

  lemma RevivedSane(a: Db, r: int, t: int, now: int)
    requires Sane(a)
    ensures Sane(R.Placed(a, r, R.Here(t), now))
  {
    if t in a.traffic && Key(r, t) in a.clients {
      var row, k := a.traffic[t], Key(r, t);
      var revived := a.Rebase(k, row.up, row.down, 0, 0).Log(Some(r), ClientReset, OnTraffic(t), now);
      assert Sane(revived);
      InboundSane(a, k, row.inboundId);
      InboundSane(revived, k, row.inboundId);
    }
  }

  lemma JoinSane(a: Db, s: int, r: int, t: int, now: int)
    requires Sane(a)
    ensures Sane(R.JoinScope(a, s, r, t, now))
  {
  }

  lemma ConcludeSane(a: Db, scopes: seq<int>, r: int, t: int, repaired: bool, now: int, dryRun: bool)
    requires Sane(a) && t in a.traffic
    ensures Sane(R.Conclude(a, scopes, r, t, repaired, now, dryRun).0)
  {
    match R.VerdictOn(a, scopes, r, t)
    case Join(s) => JoinSane(a, s, r, t, now);
    case _ =>
  }

  lemma HereTraffic(a: Db, r: int, t: int, now: int)
    ensures R.Placed(a, r, R.Here(t), now).traffic == a.traffic
  {
    ReconcileTheorems.PlacedHere(a, r, t, now);
  }

  lemma FollowedSane(a: Db, scopes: seq<int>, r: int, t: int, row: int, now: int)
    requires Sane(a) && row in a.traffic
    ensures Sane(R.Conclude(R.Placed(a, r, R.Follow(t, row), now), scopes, r, row, true, now, false).0)
  {
    PlacedSane(a, r, R.Follow(t, row), now);
    ConcludeSane(R.Placed(a, r, R.Follow(t, row), now), scopes, r, row, true, now, false);
  }

  lemma HereSane(a: Db, scopes: seq<int>, r: int, t: int, repaired: bool, now: int)
    requires Sane(a) && t in R.Placed(a, r, R.Here(t), now).traffic
    ensures Sane(R.Conclude(R.Placed(a, r, R.Here(t), now), scopes, r, t, repaired, now, false).0)
  {
    RevivedSane(a, r, t, now);
    ConcludeSane(R.Placed(a, r, R.Here(t), now), scopes, r, t, repaired, now, false);
  }

  lemma HereRuleSane(a: Db, scopes: seq<int>, r: int, t: int, now: int, dryRun: bool)
    requires Sane(a) && R.PlaceOf(a, r) == R.Here(t)
    ensures Sane(R.SingleRule(a, scopes, r, now, dryRun).0)
  {
    if t in a.traffic {
      if dryRun {
        ConcludeSane(a, scopes, r, t, R.MissingHere(a, r, t), now, true);
      } else {
        HereTraffic(a, r, t, now);
        HereSane(a, scopes, r, t, R.MissingHere(a, r, t), now);
      }
    }
  }

  lemma FollowRuleSane(a: Db, scopes: seq<int>, r: int, t: int, row: int, now: int, dryRun: bool)
    requires Sane(a) && R.PlaceOf(a, r) == R.Follow(t, row)
    ensures Sane(R.SingleRule(a, scopes, r, now, dryRun).0)
  {
    if !dryRun && row in a.traffic { FollowedSane(a, scopes, r, t, row, now); }
  }

  lemma OrphanSane(a: Db, k: Key, r: int, now: int)
    requires Sane(a)
    ensures Sane(R.Orphan(a, r, now)) && Sane(R.Orphan(R.NoteMissing(a, k, now), r, now))
  {
    NotedSane(a, k, now);
    StateSane(a, r, Orphaned, now);
    StateSane(R.NoteMissing(a, k, now), r, Orphaned, now);
  }

  lemma RuleSane(a: Db, scopes: seq<int>, r: int, now: int, dryRun: bool)
    requires Sane(a)
    ensures Sane(R.SingleRule(a, scopes, r, now, dryRun).0)
  {
    match R.PlaceOf(a, r) {
      case Follow(t, row) => FollowRuleSane(a, scopes, r, t, row, now, dryRun);
      case Here(t) => HereRuleSane(a, scopes, r, t, now, dryRun);
      case Gone(t) => OrphanSane(a, Key(r, t), r, now);
      case Renamed(t) => OrphanSane(a, Key(r, t), r, now);
      case _ => OrphanSane(a, Key(r, 0), r, now);
    }
  }

  lemma NotedSane(a: Db, k: Key, now: int)
    requires Sane(a)
    ensures Sane(R.NoteMissing(a, k, now))
  {
  }

  lemma {:induction false} RulesSane(a: Db, scopes: seq<int>, rules: seq<int>, now: int, dryRun: bool)
    requires Sane(a)
    ensures Sane(R.SingleRules(a, scopes, rules, now, dryRun).0)
    decreases |rules|
  {
    if rules != [] {
      RuleSane(a, scopes, rules[0], now, dryRun);
      RulesSane(R.SingleRule(a, scopes, rules[0], now, dryRun).0, scopes, rules[1..], now, dryRun);
    }
  }

  lemma BesideSane(table: Table, id: int, p: Policy, t: int, inbound: int, occupant: Option<int>, now: int)
    requires Overriding(table) && p.factorPpm >= SCALE
    ensures Overriding(RelinkBeside(table, id, p, t, inbound, occupant, now))
  {
  }

  lemma RelinkSane(table: Table, id: int, p: Policy, t: int, inbound: int, now: int)
    requires Overriding(table) && p.factorPpm >= SCALE
    ensures Overriding(Relink(table, id, p, t, inbound, now))
  {
    BesideSane(table, id, p, t, inbound, Occupant(table, t, inbound, p.email, id), now);
  }

  lemma FollowOneSane(db: Db, table: Table, id: int, p: Policy, inbound: Option<int>, now: int)
    requires Overriding(table) && p.factorPpm >= SCALE
    ensures Overriding(FollowOne(db, table, id, p, inbound, now))
  {
    if Stale(db, p, inbound) {
      var t := Resolve(db, p).value;
      RelinkSane(table, id, p, t, db.traffic[t].inboundId, now);
    }
  }

  lemma {:induction false} FollowAllSane(db: Db, table: Table, listed: Table, ids: seq<int>, inbound: Option<int>,
      now: int)
    requires Overriding(table) && Overriding(listed)
    ensures Overriding(FollowAll(db, table, listed, ids, inbound, now))
    decreases |ids|
  {
    if ids != [] {
      if ids[0] in listed {
        FollowOneSane(db, table, ids[0], listed[ids[0]], inbound, now);
        FollowAllSane(db, FollowOne(db, table, ids[0], listed[ids[0]], inbound, now), listed, ids[1..], inbound, now);
      } else {
        FollowAllSane(db, table, listed, ids[1..], inbound, now);
      }
    }
  }

  lemma ReconcileSane(a: Db, inbound: Option<int>, now: int, dryRun: bool)
    requires Sane(a) && R.Reconcile(a, inbound, now, dryRun).Ok?
    ensures Sane(R.Reconcile(a, inbound, now, dryRun).value.0)
  {
    RulesSane(a, R.ListPersistentScopes(a), R.ListSingles(a, inbound), now, dryRun);
    var m := R.Rules(a, inbound, now, dryRun).0;
    FollowAllSane(m, m.overrides, m.overrides, ListActive(m.overrides), inbound, now);
  }

  lemma EnrolOneSane(a: Db, s: int, t: int, now: int)
    requires Sane(a)
    ensures Sane(EnrolClient(a, s, t, now))
  {
  }

  lemma {:induction false} EnrolManySane(a: Db, s: int, ts: seq<int>, now: int)
    requires Sane(a)
    ensures Sane(EnrolClients(a, s, ts, now))
    decreases |ts|
  {
    if ts != [] {
      EnrolOneSane(a, s, ts[0], now);
      EnrolManySane(EnrolClient(a, s, ts[0], now), s, ts[1..], now);
    }
  }

  lemma {:induction false} EnrolScopesSane(a: Db, scopes: seq<int>, now: int)
    requires Sane(a)
    ensures Sane(EnrolScopes(a, scopes, now))
    decreases |scopes|
  {
    if scopes != [] {
      var ts := ScopeCandidates(a, scopes[0]);
      EnrolManySane(a, scopes[0], ts, now);
      EnrolScopesSane(EnrolClients(a, scopes[0], ts, now), scopes[1..], now);
    }
  }

  lemma PreparedSane(a: Db, now: int)
    requires Sane(a) && now > 0
    ensures Prepared(a, now).Ok? && Sane(Prepared(a, now).value)
  {
    ReconcileSane(a, None, now, false);
    var m := R.Reconcile(a, None, now, false).value.0;
    EnrolScopesSane(m, R.ListPersistentScopes(m), now);
  }

  // Ticks -----------------------------------------------------------------------

  lemma SettleProper(row: Traffic, rc: RuleClient, factorPpm: int64)
    requires ProperAccount(rc) && Settle(row, rc, factorPpm).Ok?
    ensures ProperAccount(Settle(row, rc, factorPpm).value.1)
  {
  }

  lemma AbsentSane(a: Db, x: Target, now: int)
    requires Sane(a)
    ensures Sane(MarkAbsent(a, x, now))
  {
  }

  lemma TargetSane(a: Db, x: Target, env: TickEnv, now: int)
    requires Sane(a) && ProperAccount(x.client) && TickTarget(a, x, env, now).Ok?
    ensures Sane(TickTarget(a, x, env, now).value)
  {
    var t := x.trafficId;
    AbsentSane(a, x, now);
    if t in a.traffic && t !in env.locked && a.traffic[t].email == x.client.email {
      SettleProper(a.traffic[t], x.client, x.factorPpm);
      var rc := Settle(a.traffic[t], x.client, x.factorPpm).value.1;
      PutSane(a, TickTarget(a, x, env, now).value, TargetKey(x), rc);
    }
  }

  lemma {:induction false} RefreshedSane(a: Db, xs: seq<Target>, now: int)
    requires Sane(a)
    ensures Sane(RefreshAll(a, xs, now))
    decreases |xs|
  {
    if xs != [] {
      AbsentSane(a, xs[0], now);
      assert Sane(RefreshSuppressed(a, xs[0], now));
      RefreshedSane(RefreshSuppressed(a, xs[0], now), xs[1..], now);
    }
  }

  ghost predicate Charging(ds: seq<Decision>) {
    forall d :: d in ds && d.target.Some? ==> ProperAccount(d.target.value.client)
  }

  lemma {:induction false} DecisionsSane(a: Db, ds: seq<Decision>, env: TickEnv, now: int)
    requires Sane(a) && Charging(ds) && TickDecisions(a, ds, env, now).Ok?
    ensures Sane(TickDecisions(a, ds, env, now).value)
    decreases |ds|
  {
    if ds != [] {
      var d := ds[0];
      assert d in ds && forall e :: e in ds[1..] ==> e in ds;
      if d.target.Some? {
        TargetSane(a, d.target.value, env, now);
        RefreshedSane(TickTarget(a, d.target.value, env, now).value, d.suppressed, now);
      } else {
        RefreshedSane(a, d.suppressed, now);
      }
      DecisionsSane(TickDecision(a, d, env, now).value, ds[1..], env, now);
    }
  }

  lemma TickSane(a: Db, env: TickEnv, now: int)
    requires Sane(a) && Tick(a, env, now).Ok?
    ensures Sane(Tick(a, env, now).value)
  {
    TickParts(a, env, now);
    PreparedSane(a, now);
    var ready := Prepared(a, now).value;
    var ds := DecideAll(Candidates(ready)).value;
    forall d | d in ds && d.target.Some? ensures ProperAccount(d.target.value.client) { DecisionFits(ready, d); }
    DecisionsSane(ready, ds, env, now);
  }

  // Commands --------------------------------------------------------------------

  lemma FactorAtLeastOne(text: string)
    ensures ParseFactor(text).Ok? ==> ParseFactor(text).value >= SCALE
  {
    if ParseFactor(text).Ok? { ParseFactorExact(text, ParseFactor(text).value); }
  }

  lemma {:induction false} StatesSane(a: Db, rs: seq<int>, to: State, now: int)
    requires Sane(a)
    ensures Sane(C.SetStates(a, rs, to, now))
    decreases |rs|
  {
    if rs != [] {
      StatesSane(a.SetState(rs[0], to, now).Log(Some(rs[0]), C.EndKind(to), Plain, now), rs[1..], to, now);
    }
  }

  lemma RefreshSane(a: Db, r: int)
    requires Sane(a)
    ensures Sane(C.RefreshRule(a, r))
  {
  }

  lemma StateSane(a: Db, r: int, state: State, now: int)
    requires Sane(a)
    ensures Sane(a.SetState(r, state, now))
  {
  }

  lemma BackSane(a: Db, r: int, now: int)
    requires Sane(a)
    ensures Sane(C.RefreshRule(a, r).SetState(r, Active, now).Log(Some(r), RuleResumed, Plain, now))
  {
    RefreshSane(a, r);
    StateSane(C.RefreshRule(a, r), r, Active, now);
  }

  lemma {:induction false} ResumesSane(a: Db, rs: seq<int>, now: int)
    requires Sane(a)
    ensures Sane(C.ResumeEach(a, rs, now))
    decreases |rs|
  {
    if rs != [] {
      BackSane(a, rs[0], now);
      ResumesSane(C.ResumeOne(a, rs[0], now), rs[1..], now);
    }
  }

  lemma RowSane(a: Db, t: int, email: string)
    requires Sane(a)
    ensures Sane(C.RefreshRow(a, t, email))
  {
  }

  lemma UpsertSane(table: Table, next: int, t: int, inbound: int, email: string, factorPpm: int64, now: int)
    requires Overriding(table) && factorPpm >= SCALE && Upsert(table, next, t, inbound, email, factorPpm, now).Ok?
    ensures Overriding(Upsert(table, next, t, inbound, email, factorPpm, now).value.0)
  {
  }

  lemma OverrideSane(a: Db, email: string, at: int, factor: string, now: int)
    requires Sane(a) && C.Override(a, email, at, factor, now).Ok?
    ensures Sane(C.Override(a, email, at, factor, now).value)
  {
    FactorAtLeastOne(factor);
    var factorPpm, t := ParseFactor(factor).value, a.FindClient(email, Some(at)).value;
    var (table, next, _) := Upsert(a.overrides, a.nextOverride, t, a.traffic[t].inboundId, a.traffic[t].email,
        factorPpm, now).value;
    UpsertSane(a.overrides, a.nextOverride, t, a.traffic[t].inboundId, a.traffic[t].email, factorPpm, now);
    RowSane(a.(overrides := table, nextOverride := next), t, a.traffic[t].email);
  }

  lemma RemovalSane(a: Db, email: string, at: int, now: int)
    requires Sane(a) && C.RemoveOverride(a, email, at, now).Ok?
    ensures Sane(C.RemoveOverride(a, email, at, now).value)
  {
    var t := a.FindClient(email, Some(at)).value;
    var found := C.PolicyOf(a.overrides, t, email).value;
    RowSane(a.(overrides := PolicyTable.Disable(a.overrides, found, now)), t, email);
  }

  lemma UnexcludeSane(a: Db, email: string, at: int, now: int)
    requires Sane(a) && C.Unexclude(a, email, at, now).Ok?
    ensures Sane(C.Unexclude(a, email, at, now).value)
  {
    var t := a.FindClient(email, Some(at)).value;
    var found := C.PolicyOf(a.excludes, t, email).value;
    RowSane(a.(excludes := PolicyTable.Disable(a.excludes, found, now)), t, email);
  }

  lemma RoundSane(a: Db, s: int, t: int, now: int)
    requires Sane(a) && C.EnableClient(a, s, t, now).Ok?
    ensures Sane(C.EnableClient(a, s, t, now).value)
  {
    if t in a.traffic && Key(s, t) !in a.clients && a.RulesOn(t, {Active, Paused}) != {} {
      AdoptSane(a, s, Min(a.RulesOn(t, {Active, Paused})), t, now);
    }
  }

  lemma AdoptSane(a: Db, s: int, r: int, t: int, now: int)
    requires Sane(a)
    ensures Sane(C.Adopt(a, s, r, t, now).0)
  {
    JoinSane(a, s, r, t, now);
  }

  lemma {:induction false} RoundsSane(a: Db, s: int, ts: seq<int>, now: int)
    requires Sane(a) && C.EnableClients(a, s, ts, now).Ok?
    ensures Sane(C.EnableClients(a, s, ts, now).value)
    decreases |ts|
  {
    if ts != [] {
      RoundSane(a, s, ts[0], now);
      RoundsSane(C.EnableClient(a, s, ts[0], now).value, s, ts[1..], now);
    }
  }

  lemma {:induction false} PutsSane(a: Db, s: int, ts: seq<int>)
    requires Sane(a)
    ensures Sane(C.PutFresh(a, s, ts))
    decreases |ts|
  {
    if ts != [] {
      if ts[0] in a.traffic { PutsSane(a.PutClient(Key(s, ts[0]), FreshClient(a.traffic[ts[0]])), s, ts[1..]); }
      else { PutsSane(a, s, ts[1..]); }
    }
  }

  lemma EnableAllSane(a: Db, bulk: C.Bulk, once: bool, factor: string, now: int)
    requires Sane(a) && C.EnableAll(a, bulk, once, factor, now).Ok?
    ensures Sane(C.EnableAll(a, bulk, once, factor, now).value)
  {
    FactorAtLeastOne(factor);
    var factorPpm := ParseFactor(factor).value;
    var ts := ClientCandidates(a, bulk.inbound, bulk.limitedOnly, bulk.includeDisabled);
    var m := C.CreateScope(a, bulk, once, factorPpm, now);
    assert Sane(m);
    if once {
      PutsSane(m, a.nextRule, C.SnapshotTargets(a, ts).value);
    } else {
      match C.FindScope(a, bulk, factorPpm) {
        case Some(s) => RoundsSane(a, s, ts, now);
        case None => RoundsSane(m, a.nextRule, ts, now);
      }
      ReconcileSane(C.EnablePersistent(a, bulk, factorPpm, ts, now).value, bulk.inbound, now, false);
    }
  }

  lemma SweptSane(a: Db, b: Db, o: K.Options)
    requires Sane(a) && S.Swept(a, b, o)
    ensures Sane(b)
  {
  }

  lemma CleanSane(a: Db, o: K.Options, dryRun: bool)
    requires Sane(a) && K.Clean(a, o, dryRun).Ok?
    ensures Sane(K.Clean(a, o, dryRun).value.0)
  {
    if dryRun { K.CleanupDryRunTellsTheTruth(a, o); } else {
      S.CleanExactly(a, o);
      SweptSane(a, K.Clean(a, o, false).value.0, o);
    }
  }

  lemma EnableSane(a: Db, email: string, inbound: Option<int>, factor: string, now: int)
    requires Sane(a) && C.Enable(a, email, inbound, factor, now).Ok?
    ensures Sane(C.Enable(a, email, inbound, factor, now).value)
  {
    FactorAtLeastOne(factor);
  }

  lemma ResumeSane(a: Db, email: string, inbound: Option<int>, now: int)
    requires Sane(a) && C.Resume(a, email, inbound, now).Ok?
    ensures Sane(C.Resume(a, email, inbound, now).value)
  {
    BackSane(a, C.FindRule(a, email, inbound, {Paused}).value, now);
  }

  lemma BulkSane(a: Db, inbound: Option<int>, from: set<State>, to: State, now: int)
    requires Sane(a) && C.BulkTransition(a, inbound, from, to, now).Ok?
    ensures Sane(C.BulkTransition(a, inbound, from, to, now).value)
  {
    StatesSane(a, Ascending(C.RuleIds(a, inbound, from)), to, now);
  }

  lemma TransitionSane(a: Db, email: string, inbound: Option<int>, from: set<State>, to: State, now: int)
    requires Sane(a) && C.Transition(a, email, inbound, from, to, now).Ok?
    ensures Sane(C.Transition(a, email, inbound, from, to, now).value)
  {
    StateSane(a, C.FindRule(a, email, inbound, from).value, to, now);
  }

  lemma ExcludeSane(a: Db, email: string, at: int, now: int)
    requires Sane(a) && C.Exclude(a, email, at, now).Ok?
    ensures Sane(C.Exclude(a, email, at, now).value)
  {
  }

  lemma CommandSane(a: Db, command: Command, now: int)
    requires Sane(a) && Execute(a, command, now).Ok?
    ensures Sane(Execute(a, command, now).value)
  {
    match command {
      case Enable(email, inbound, factor) => EnableSane(a, email, inbound, factor, now);
      case EnableAll(bulk, once, factor) => EnableAllSane(a, bulk, once, factor, now);
      case Pause(email, inbound) => TransitionSane(a, email, inbound, {Active}, Paused, now);
      case Resume(email, inbound) => ResumeSane(a, email, inbound, now);
      case Disable(email, inbound) => TransitionSane(a, email, inbound, {Active, Paused}, Disabled, now);
      case PauseAll(inbound) => BulkSane(a, inbound, {Active}, Paused, now);
      case ResumeAll(inbound) => ResumesSane(a, Ascending(C.RuleIds(a, inbound, {Paused})), now);
      case DisableAll(inbound) => BulkSane(a, inbound, {Active, Paused}, Disabled, now);
      case Exclude(email, at) => ExcludeSane(a, email, at, now);
      case Unexclude(email, at) => UnexcludeSane(a, email, at, now);
      case Override(email, at, factor) => OverrideSane(a, email, at, factor, now);
      case RemoveOverride(email, at) => RemovalSane(a, email, at, now);
      case Reconcile(inbound, dryRun) => ReconcileSane(a, inbound, now, dryRun);
      case Clean(options, dryRun) => CleanSane(a, options, dryRun);
    }
  }

  // Runs ------------------------------------------------------------------------

  lemma PanelSane(a: Db, change: Change)
    requires Sane(a) && Possible(a, change)
    ensures Sane(Changed(a, change))
  {
    assert Changed(a, change) == a.(traffic := Changed(a, change).traffic, members := Changed(a, change).members);
  }

  lemma StepSane(a: Db, step: Step)
    requires Sane(a)
    ensures Sane(Next(a, step))
  {
    match step
    case PanelStep(change) => if Possible(a, change) { PanelSane(a, change); }
    case CommandStep(command, now) => if Execute(a, command, now).Ok? { CommandSane(a, command, now); }
    case TickStep(env, now) => if Tick(a, env, now).Ok? { TickSane(a, env, now); }
  }

  /** Every run keeps accounts and factors proper. */
  lemma {:induction false} RunSane(w: World, steps: seq<Step>)
    requires Sane(w.db)
    ensures Sane(Run(w, steps).db)
    decreases |steps|
  {
    if steps != [] {
      StepSane(w.db, steps[0]);
      Quiescence.AdvanceIsNext(w, steps[0]);
      RunSane(Advance(w, steps[0]), steps[1..]);
    }
  }

  lemma SaneRules(ready: Db)
    requires Sane(ready)
    ensures Q.AllProper(ready)
  {
  }

  /**
   * In every run from an empty store a tick commits exactly where the panel's role allows it, no row is tied once the
   * tables are reconciled and enrolled, and every ruling client on a row that is not locked can be charged.
   */
  lemma TicksOfRunsExactly(start: Db, steps: seq<Step>, env: TickEnv, now: int)
    requires start.rules == map[] && start.clients == map[] && start.overrides == map[] && now > 0
    ensures var db := Run(Fresh(start), steps).db;
            && Prepared(db, now).Ok?
            && var ready := Prepared(db, now).value;
               (Tick(db, env, now).Ok? <==>
                  && (env.managed ==> env.factorOnManaged)
                  && (forall t :: !V.Tied(ready, t))
                  && (forall t, r, factorPpm :: Q.Ruling(ready, t, r, factorPpm) && t !in env.locked ==>
                        Q.Payable(ready, t, r, factorPpm, env)))
  {
    var db := Run(Fresh(start), steps).db;
    RunSane(Fresh(start), steps);
    PreparedSane(db, now);
    SaneRules(Prepared(db, now).value);
    Q.TickExactly(db, env, now);
  }
}
