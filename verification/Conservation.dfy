/** The recorded extras add up to what ticks added to counters, over every run that prunes no events. */
module Conservation {
  import opened Collections
  import opened Model
  import opened Accounting
  import opened Decisions
  import opened PolicyTable
  import opened Baselines
  import opened Ticking
  import opened TickProofs
  import Factor
  import opened Audit
  import opened AuditTrail
  import opened Machine
  import opened Ledgers
  import opened Schedule
  import C = Commands
  import R = Reconciling

  // Steps that record no application ----------------------------------------

  /** Events are only appended, and none of them is a traffic application. */
  ghost predicate Aside(a: Db, b: Db) {
    && |a.events| <= |b.events| && b.events[..|a.events|] == a.events
    && forall i :: |a.events| <= i < |b.events| ==> !b.events[i].kind.TrafficApply?
  }

  lemma AsideTransitive(a: Db, b: Db, c: Db)
    requires Aside(a, b) && Aside(b, c)
    ensures Aside(a, c)
  {
    assert c.events[..|a.events|] == c.events[..|b.events|][..|a.events|];
  }

  lemma {:induction false} NoExtra(events: seq<Event>)
    requires forall i :: 0 <= i < |events| ==> !events[i].kind.TrafficApply?
    ensures Total(events) == 0 && AllReadable(events)
  {
    if events != [] { NoExtra(events[1..]); }
  }

  lemma AsideTotal(a: Db, b: Db)
    requires Aside(a, b)
    ensures Total(b.events) == Total(a.events) && (AllReadable(a.events) ==> AllReadable(b.events))
  {
    var added := b.events[|a.events|..];
    assert b.events == a.events + added;
    NoExtra(added);
    TotalConcat(a.events, added);
  }

  lemma LogAside(a: Db, rule: Option<int>, kind: EventKind, detail: Detail, now: int)
    requires !kind.TrafficApply?
    ensures Aside(a, a.Log(rule, kind, detail, now))
  {
  }

  lemma SameEventsAside(a: Db, b: Db)
    requires b.events == a.events
    ensures Aside(a, b)
  {
  }

  lemma JoinAside(a: Db, s: int, r: int, t: int, now: int)
    ensures Aside(a, R.JoinScope(a, s, r, t, now))
  {
  }

  lemma ConcludeAside(a: Db, scopes: seq<int>, r: int, t: int, repaired: bool, now: int, dryRun: bool)
    requires t in a.traffic
    ensures Aside(a, R.Conclude(a, scopes, r, t, repaired, now, dryRun).0)
  {
    match R.VerdictOn(a, scopes, r, t)
    case Join(s) => JoinAside(a, s, r, t, now);
    case OrphanDisabled =>
    case OrphanOwned =>
    case Stay =>
  }

  lemma FollowAside(a: Db, r: int, t: int, row: int, now: int)
    ensures var b := R.Placed(a, r, R.Follow(t, row), now); Aside(a, b) && b.traffic == a.traffic
  {
  }

  lemma AdoptInboundEvents(a: Db, k: Key, inbound: int)
    ensures a.AdoptInbound(k, inbound).events == a.events && a.AdoptInbound(k, inbound).traffic == a.traffic
  {
  }

  lemma RebaseEvents(a: Db, k: Key, row: Traffic)
    ensures a.Rebase(k, row.up, row.down, 0, 0).events == a.events
            && a.Rebase(k, row.up, row.down, 0, 0).traffic == a.traffic
  {
  }

  lemma HereEvents(a: Db, r: int, t: int, now: int)
    ensures var b := R.Placed(a, r, R.Here(t), now);
            b.traffic == a.traffic && (b.events == a.events
                || b.events == a.events + [Event(Some(r), ClientReset, OnTraffic(t), now)])
  {
    if t in a.traffic && Key(r, t) in a.clients {
      var row, k := a.traffic[t], Key(r, t);
      RebaseEvents(a, k, row);
      var revived := a.Rebase(k, row.up, row.down, 0, 0).Log(Some(r), ClientReset, OnTraffic(t), now);
      AdoptInboundEvents(revived, k, row.inboundId);
      AdoptInboundEvents(a, k, row.inboundId);
    }
  }

  lemma HereAside(a: Db, r: int, t: int, now: int)
    ensures var b := R.Placed(a, r, R.Here(t), now); Aside(a, b) && b.traffic == a.traffic
  {
    HereEvents(a, r, t, now);
  }

  lemma OrphanAside(a: Db, k: Key, r: int, now: int)
    ensures Aside(a, R.Orphan(a, r, now)) && Aside(a, R.Orphan(R.NoteMissing(a, k, now), r, now))
  {
    assert Aside(a, R.NoteMissing(a, k, now));
    assert Aside(R.NoteMissing(a, k, now), R.Orphan(R.NoteMissing(a, k, now), r, now));
    AsideTransitive(a, R.NoteMissing(a, k, now), R.Orphan(R.NoteMissing(a, k, now), r, now));
  }

  lemma SingleRuleAside(a: Db, scopes: seq<int>, r: int, now: int, dryRun: bool)
    ensures Aside(a, R.SingleRule(a, scopes, r, now, dryRun).0)
  {
    match R.PlaceOf(a, r)
    case NoClient => OrphanAside(a, Key(r, 0), r, now);
    case ManyClients => OrphanAside(a, Key(r, 0), r, now);
    case Gone(t) => OrphanAside(a, Key(r, t), r, now);
    case Renamed(t) => OrphanAside(a, Key(r, t), r, now);
    case Follow(t, row) =>
      if !dryRun && row in a.traffic {
        var p := R.Placed(a, r, R.Follow(t, row), now);
        FollowAside(a, r, t, row, now);
        ConcludeAside(p, scopes, r, row, true, now, false);
        AsideTransitive(a, p, R.Conclude(p, scopes, r, row, true, now, false).0);
      }
    case Here(t) =>
      if t in a.traffic && !(dryRun && R.MissingHere(a, r, t)) {
        var p := if dryRun then a else R.Placed(a, r, R.Here(t), now);
        HereAside(a, r, t, now);
        ConcludeAside(p, scopes, r, t, R.MissingHere(a, r, t), now, dryRun);
        AsideTransitive(a, p, R.Conclude(p, scopes, r, t, R.MissingHere(a, r, t), now, dryRun).0);
      }
  }

  lemma {:induction false} SingleRulesAside(a: Db, scopes: seq<int>, rules: seq<int>, now: int, dryRun: bool)
    ensures Aside(a, R.SingleRules(a, scopes, rules, now, dryRun).0)
    decreases |rules|
  {
    if rules != [] {
      var m := R.SingleRule(a, scopes, rules[0], now, dryRun).0;
      SingleRuleAside(a, scopes, rules[0], now, dryRun);
      SingleRulesAside(m, scopes, rules[1..], now, dryRun);
      AsideTransitive(a, m, R.SingleRules(m, scopes, rules[1..], now, dryRun).0);
    }
  }

  lemma ReconcileAside(a: Db, inbound: Option<int>, now: int, dryRun: bool)
    ensures R.Reconcile(a, inbound, now, dryRun).Ok? ==> Aside(a, R.Reconcile(a, inbound, now, dryRun).value.0)
  {
    SingleRulesAside(a, R.ListPersistentScopes(a), R.ListSingles(a, inbound), now, dryRun);
    var b := R.Rules(a, inbound, now, dryRun).0;
    assert R.Policies(b, inbound, now, dryRun).events == b.events;
  }

  lemma {:induction false} EnrolClientsAside(a: Db, s: int, ts: seq<int>, now: int)
    ensures Aside(a, EnrolClients(a, s, ts, now))
    decreases |ts|
  {
    if ts != [] {
      var m := EnrolClient(a, s, ts[0], now);
      assert Aside(a, m);
      EnrolClientsAside(m, s, ts[1..], now);
      AsideTransitive(a, m, EnrolClients(m, s, ts[1..], now));
    }
  }

  lemma {:induction false} EnrolScopesAside(a: Db, scopes: seq<int>, now: int)
    ensures Aside(a, EnrolScopes(a, scopes, now))
    decreases |scopes|
  {
    if scopes != [] {
      var m := EnrolClients(a, scopes[0], ScopeCandidates(a, scopes[0]), now);
      EnrolClientsAside(a, scopes[0], ScopeCandidates(a, scopes[0]), now);
      EnrolScopesAside(m, scopes[1..], now);
      AsideTransitive(a, m, EnrolScopes(m, scopes[1..], now));
    }
  }

  lemma PreparedAside(a: Db, now: int)
    requires Prepared(a, now).Ok?
    ensures Aside(a, Prepared(a, now).value)
  {
    var m := R.Reconcile(a, None, now, false).value.0;
    ReconcileAside(a, None, now, false);
    EnrolScopesAside(m, R.ListPersistentScopes(m), now);
    AsideTransitive(a, m, Enrol(m, now));
  }

  lemma {:induction false} SetStatesAside(a: Db, rs: seq<int>, to: State, now: int)
    ensures Aside(a, C.SetStates(a, rs, to, now))
    decreases |rs|
  {
    if rs != [] {
      var m := a.SetState(rs[0], to, now).Log(Some(rs[0]), C.EndKind(to), Plain, now);
      assert Aside(a, m);
      SetStatesAside(m, rs[1..], to, now);
      AsideTransitive(a, m, C.SetStates(m, rs[1..], to, now));
    }
  }

  lemma {:induction false} ResumeEachAside(a: Db, rs: seq<int>, now: int)
    ensures Aside(a, C.ResumeEach(a, rs, now))
    decreases |rs|
  {
    if rs != [] {
      var m := C.ResumeOne(a, rs[0], now);
      assert Aside(a, m);
      ResumeEachAside(m, rs[1..], now);
      AsideTransitive(a, m, C.ResumeEach(m, rs[1..], now));
    }
  }

  lemma AdoptAside(a: Db, s: int, r: int, t: int, now: int)
    ensures Aside(a, C.Adopt(a, s, r, t, now).0)
  {
    JoinAside(a, s, r, t, now);
  }

  lemma AdoptedAside(a: Db, s: int, r: int, t: int, now: int)
    ensures var m := C.Adopt(a, s, r, t, now).0; Aside(a, m) && Aside(a, m.Log(Some(r), RuleSkip, Plain, now))
  {
    AdoptAside(a, s, r, t, now);
    var m := C.Adopt(a, s, r, t, now).0;
    LogAside(m, Some(r), RuleSkip, Plain, now);
    AsideTransitive(a, m, m.Log(Some(r), RuleSkip, Plain, now));
  }

  lemma SkippedAside(a: Db, s: int, r: int, t: int, now: int)
    ensures Aside(a, a.Log(Some(s), ScopeSkip, OwnedByScope(t, r), now))
            && Aside(a, a.Log(Some(r), RuleSkip, Plain, now))
  {
  }

  lemma EnableClientAside(a: Db, s: int, t: int, now: int)
    requires C.EnableClient(a, s, t, now).Ok?
    ensures Aside(a, C.EnableClient(a, s, t, now).value)
  {
    var rs := a.RulesOn(t, {Active, Paused});
    if t in a.traffic && Key(s, t) !in a.clients && rs != {} {
      AdoptedAside(a, s, Min(rs), t, now);
      SkippedAside(a, s, Min(rs), t, now);
    } else {
      SameEventsAside(a, C.EnableClient(a, s, t, now).value);
    }
  }

  lemma {:induction false} EnableClientsAside(a: Db, s: int, ts: seq<int>, now: int)
    requires C.EnableClients(a, s, ts, now).Ok?
    ensures Aside(a, C.EnableClients(a, s, ts, now).value)
    decreases |ts|
  {
    if ts != [] {
      var m := C.EnableClient(a, s, ts[0], now).value;
      EnableClientAside(a, s, ts[0], now);
      EnableClientsAside(m, s, ts[1..], now);
      AsideTransitive(a, m, C.EnableClients(m, s, ts[1..], now).value);
    }
  }

  lemma {:induction false} PutFreshAside(a: Db, s: int, ts: seq<int>)
    ensures C.PutFresh(a, s, ts).events == a.events
    decreases |ts|
  {
    if ts != [] {
      if ts[0] !in a.traffic {
        PutFreshAside(a, s, ts[1..]);
      } else {
        PutFreshAside(a.PutClient(Key(s, ts[0]), FreshClient(a.traffic[ts[0]])), s, ts[1..]);
      }
    }
  }

  lemma CreateScopeAside(a: Db, bulk: C.Bulk, once: bool, factorPpm: int64, now: int)
    ensures Aside(a, C.CreateScope(a, bulk, once, factorPpm, now))
  {
  }

  lemma EnableSnapshotAside(a: Db, bulk: C.Bulk, factorPpm: int64, ts: seq<int>, now: int)
    requires C.EnableSnapshot(a, bulk, factorPpm, ts, now).Ok?
    ensures Aside(a, C.EnableSnapshot(a, bulk, factorPpm, ts, now).value)
  {
    var m := C.CreateScope(a, bulk, true, factorPpm, now);
    CreateScopeAside(a, bulk, true, factorPpm, now);
    PutFreshAside(m, a.nextRule, C.SnapshotTargets(a, ts).value);
  }

  lemma EnablePersistentAside(a: Db, bulk: C.Bulk, factorPpm: int64, ts: seq<int>, now: int)
    requires C.EnablePersistent(a, bulk, factorPpm, ts, now).Ok?
    ensures Aside(a, C.EnablePersistent(a, bulk, factorPpm, ts, now).value)
  {
    match C.FindScope(a, bulk, factorPpm)
    case Some(s) => EnableClientsAside(a, s, ts, now);
    case None =>
      var m := C.CreateScope(a, bulk, false, factorPpm, now);
      CreateScopeAside(a, bulk, false, factorPpm, now);
      EnableClientsAside(m, a.nextRule, ts, now);
      AsideTransitive(a, m, C.EnablePersistent(a, bulk, factorPpm, ts, now).value);
  }

  lemma EnableAllAside(a: Db, bulk: C.Bulk, once: bool, factor: string, now: int)
    requires C.EnableAll(a, bulk, once, factor, now).Ok?
    ensures Aside(a, C.EnableAll(a, bulk, once, factor, now).value)
  {
    var factorPpm := Factor.ParseFactor(factor).value;
    var ts := ClientCandidates(a, bulk.inbound, bulk.limitedOnly, bulk.includeDisabled);
    if once {
      EnableSnapshotAside(a, bulk, factorPpm, ts, now);
    } else {
      var m := C.EnablePersistent(a, bulk, factorPpm, ts, now).value;
      EnablePersistentAside(a, bulk, factorPpm, ts, now);
      ReconcileAside(m, bulk.inbound, now, false);
      AsideTransitive(a, m, C.EnableAll(a, bulk, once, factor, now).value);
    }
  }

  predicate Prunes(step: Step) {
    step.CommandStep? && step.command.Clean?
  }

  lemma RefreshRowEvents(a: Db, t: int, email: string)
    ensures C.RefreshRow(a, t, email).events == a.events
  {
  }

  lemma PolicyCommandAside(db: Db, command: Command, now: int)
    requires Execute(db, command, now).Ok?
    requires command.Exclude? || command.Unexclude? || command.Override? || command.RemoveOverride?
    ensures Aside(db, Execute(db, command, now).value)
  {
    match command
    case Exclude(email, at) =>
    case Unexclude(email, at) =>
      var t := db.FindClient(email, Some(at)).value;
      RefreshRowEvents(db.(excludes := PolicyTable.Disable(db.excludes, C.PolicyOf(db.excludes, t, email).value,
          now)), t, email);
    case Override(email, at, factor) => OverrideAside(db, email, at, factor, now);
    case RemoveOverride(email, at) =>
      var t := db.FindClient(email, Some(at)).value;
      RefreshRowEvents(db.(overrides := PolicyTable.Disable(db.overrides, C.PolicyOf(db.overrides, t, email).value,
          now)), t, email);
  }

  lemma OverrideAside(db: Db, email: string, at: int, factor: string, now: int)
    requires C.Override(db, email, at, factor, now).Ok?
    ensures Aside(db, C.Override(db, email, at, factor, now).value)
  {
  }

  lemma CommandAside(db: Db, command: Command, now: int)
    requires !command.Clean? && Execute(db, command, now).Ok?
    ensures Aside(db, Execute(db, command, now).value)
  {
    match command
    case Exclude(_, _) => PolicyCommandAside(db, command, now);
    case Unexclude(_, _) => PolicyCommandAside(db, command, now);
    case Override(_, _, _) => PolicyCommandAside(db, command, now);
    case RemoveOverride(_, _) => PolicyCommandAside(db, command, now);
    case Reconcile(inbound, dryRun) => ReconcileAside(db, inbound, now, dryRun);
    case EnableAll(bulk, once, factor) => EnableAllAside(db, bulk, once, factor, now);
    case PauseAll(inbound) => SetStatesAside(db, Ascending(C.RuleIds(db, inbound, {Active})), Paused, now);
    case DisableAll(inbound) => SetStatesAside(db, Ascending(C.RuleIds(db, inbound, {Active, State.Paused})),
        State.Disabled, now);
    case ResumeAll(inbound) => ResumeEachAside(db, Ascending(C.RuleIds(db, inbound, {State.Paused})), now);
    case _ =>
  }

  // What a tick records -----------------------------------------------------

  function RowGain(a: Db, b: Db, t: int): int {
    if t in a.traffic && t in b.traffic then
          (b.traffic[t].up - a.traffic[t].up) + (b.traffic[t].down - a.traffic[t].down) else 0
  }

  function GainOver(a: Db, b: Db, ids: seq<int>): int {
    if ids == [] then 0 else RowGain(a, b, ids[0]) + GainOver(a, b, ids[1..])
  }

  /** All bytes by which the counters of `b` exceed those of `a`. */
  function Gain(a: Db, b: Db): int {
    GainOver(a, b, Ascending(a.traffic.Keys))
  }

  lemma {:induction false} GainChains(a: Db, b: Db, c: Db, ids: seq<int>)
    requires b.traffic.Keys == a.traffic.Keys && c.traffic.Keys == a.traffic.Keys
    ensures GainOver(a, c, ids) == GainOver(a, b, ids) + GainOver(b, c, ids)
  {
    if ids != [] { GainChains(a, b, c, ids[1..]); }
  }

  lemma {:induction false} GainOfNone(a: Db, b: Db, ids: seq<int>, t: int)
    requires t !in ids && forall u :: u in a.traffic && u != t && u in b.traffic ==> b.traffic[u] == a.traffic[u]
    ensures GainOver(a, b, ids) == 0
  {
    if ids != [] {
      assert ids[0] != t && t !in ids[1..];
      GainOfNone(a, b, ids[1..], t);
    }
  }

  /** When one row changes, the gain is that row's. */
  lemma {:induction false} GainOfOne(a: Db, b: Db, ids: seq<int>, t: int)
    requires Increasing(ids) && (t in ids || RowGain(a, b, t) == 0)
    requires forall u :: u in a.traffic && u != t && u in b.traffic ==> b.traffic[u] == a.traffic[u]
    ensures GainOver(a, b, ids) == RowGain(a, b, t)
  {
    if ids != [] {
      if ids[0] == t {
        assert t !in ids[1..];
        GainOfNone(a, b, ids[1..], t);
      } else {
        assert t in ids ==> t in ids[1..];
        GainOfOne(a, b, ids[1..], t);
      }
    }
  }

  /** The row's gain is what the events record, and readable events stay readable. */
  ghost predicate Records(a: Db, b: Db, t: int) {
    && Total(b.events) == Total(a.events) + RowGain(a, b, t)
    && (AllReadable(a.events) && (t in a.traffic ==> Ordinary(a.traffic[t].email)) ==> AllReadable(b.events))
  }

  lemma AppendedEvent(events: seq<Event>, e: Event)
    ensures Total(events + [e]) == Total(events) + Extra(e)
    ensures AllReadable(events) && Readable(e) ==> AllReadable(events + [e])
  {
    TotalConcat(events, [e]);
    assert [e][1..] == [];
  }

  /** The one event of a settled row. */
  function SettledEvent(x: Target, row: Traffic, charge: Charge, now: int): Option<Event> {
    match charge
    case Returned => Some(Event(Some(x.ruleId), ClientReset, OnTraffic(x.trafficId), now))
    case Decreased => Some(Event(Some(x.ruleId), ClientReset, OnTraffic(x.trafficId), now))
    case Charged(extraUp, extraDown, _, _) =>
      Some(Event(Some(x.ruleId), TrafficApply, Applied(x.trafficId, row.inboundId, row.email, extraUp, extraDown), now))
    case _ => None
  }

  lemma ChargeEventAppends(db: Db, x: Target, row: Traffic, charge: Charge, now: int)
    ensures ChargeEvent(db, x, row, charge, now).events
            == db.events + (if SettledEvent(x, row, charge, now).Some? then
                  [SettledEvent(x, row, charge, now).value] else [])
    ensures ChargeEvent(db, x, row, charge, now).traffic == db.traffic
  {
  }

  /** Settling raises the counters by exactly the extras of the charge. */
  lemma SettleGains(row: Traffic, rc: RuleClient, factorPpm: int64)
    requires Settle(row, rc, factorPpm).Ok?
    ensures ChargeFor(row, rc, factorPpm).Ok?
    ensures var charge, after := ChargeFor(row, rc, factorPpm).value, Settle(row, rc, factorPpm).value.0;
            if charge.Charged? then after.up == row.up + charge.extraUp && after.down == row.down + charge.extraDown
                                    && charge.extraUp >= 0 && charge.extraDown >= 0
            else after == row
  {
  }

  lemma SettledRecords(a: Db, x: Target, now: int, b: Db)
    requires x.trafficId in a.traffic && Settle(a.traffic[x.trafficId], x.client, x.factorPpm).Ok?
             && ChargeFor(a.traffic[x.trafficId], x.client, x.factorPpm).Ok?
    requires var (row, rc) := Settle(a.traffic[x.trafficId], x.client, x.factorPpm).value;
             b == ChargeEvent(a.(traffic := a.traffic[x.trafficId := row]).PutClient(TargetKey(x), rc), x,
                 a.traffic[x.trafficId],
                              ChargeFor(a.traffic[x.trafficId], x.client, x.factorPpm).value, now)
    ensures Records(a, b, x.trafficId)
  {
    var row := a.traffic[x.trafficId];
    var charge := ChargeFor(row, x.client, x.factorPpm).value;
    var (after, rc) := Settle(row, x.client, x.factorPpm).value;
    SettleGains(row, x.client, x.factorPpm);
    var m := a.(traffic := a.traffic[x.trafficId := after]).PutClient(TargetKey(x), rc);
    ChargeEventAppends(m, x, row, charge, now);
    var e := SettledEvent(x, row, charge, now);
    if e.Some? { AppendedEvent(a.events, e.value); } else { assert a.events + [] == a.events; }
  }

  lemma MarkMissingEvents(a: Db, k: Key, now: int)
    ensures a.MarkMissing(k, now).events == a.events && a.MarkMissing(k, now).traffic == a.traffic
  {
  }

  lemma MarkAbsentAside(a: Db, x: Target, now: int)
    ensures Aside(a, MarkAbsent(a, x, now)) && MarkAbsent(a, x, now).traffic == a.traffic
  {
    var m := a.MarkMissing(TargetKey(x), now);
    MarkMissingEvents(a, TargetKey(x), now);
    SameEventsAside(a, m);
    LogAside(m, Some(x.ruleId), ClientMissing, OnTraffic(x.trafficId), now);
    AsideTransitive(a, m, m.Log(Some(x.ruleId), ClientMissing, OnTraffic(x.trafficId), now));
  }

  lemma AsideRecords(a: Db, b: Db, t: int)
    requires Aside(a, b) && b.traffic == a.traffic
    ensures Records(a, b, t)
  {
    AsideTotal(a, b);
  }

  lemma TickTargetRecords(a: Db, x: Target, env: TickEnv, now: int)
    requires TickTarget(a, x, env, now).Ok?
    ensures Records(a, TickTarget(a, x, env, now).value, x.trafficId)
  {
    var t := x.trafficId;
    if t !in a.traffic || (t !in env.locked && a.traffic[t].email != x.client.email) {
      MarkAbsentAside(a, x, now);
      AsideRecords(a, MarkAbsent(a, x, now), t);
    } else if t in env.locked {
      AsideRecords(a, a, t);
    } else {
      SettledRecords(a, x, now, TickTarget(a, x, env, now).value);
    }
  }

  lemma {:induction false} RefreshAllAside(a: Db, xs: seq<Target>, now: int)
    ensures Aside(a, RefreshAll(a, xs, now)) && RefreshAll(a, xs, now).traffic == a.traffic
    decreases |xs|
  {
    if xs != [] {
      var m := RefreshSuppressed(a, xs[0], now);
      MarkAbsentAside(a, xs[0], now);
      assert Aside(a, m) && m.traffic == a.traffic;
      RefreshAllAside(m, xs[1..], now);
      AsideTransitive(a, m, RefreshAll(m, xs[1..], now));
    }
  }

  lemma ThenAside(a: Db, m: Db, b: Db, t: int)
    requires Records(a, m, t) && Aside(m, b) && b.traffic == m.traffic
    ensures Records(a, b, t)
  {
    AsideTotal(m, b);
  }

  lemma TickDecisionRecords(a: Db, d: Decision, env: TickEnv, now: int)
    requires TickProofs.Fits(a, d) && TickDecision(a, d, env, now).Ok?
    ensures Records(a, TickDecision(a, d, env, now).value, d.trafficId)
  {
    match d.target
    case None =>
      RefreshAllAside(a, d.suppressed, now);
      AsideRecords(a, RefreshAll(a, d.suppressed, now), d.trafficId);
    case Some(x) =>
      var m := TickTarget(a, x, env, now).value;
      TickTargetRecords(a, x, env, now);
      RefreshAllAside(m, d.suppressed, now);
      ThenAside(a, m, RefreshAll(m, d.suppressed, now), d.trafficId);
  }

  predicate OrdinaryRows(db: Db) {
    forall t :: t in db.traffic ==> Ordinary(db.traffic[t].email)
  }

  /** All gains since `a`, and only readable events added. */
  ghost predicate Recorded(a: Db, b: Db) {
    && b.traffic.Keys == a.traffic.Keys
    && (forall t :: t in a.traffic ==> b.traffic[t].email == a.traffic[t].email)
    && Total(b.events) == Total(a.events) + Gain(a, b)
    && (AllReadable(a.events) && OrdinaryRows(a) ==> AllReadable(b.events))
  }

  lemma RecordedChains(a: Db, b: Db, c: Db)
    requires Recorded(a, b) && Recorded(b, c)
    ensures Recorded(a, c)
  {
    GainChains(a, b, c, Ascending(a.traffic.Keys));
  }

  /** A decision touches the counters of its own row only. */
  lemma DecisionRow(a: Db, d: Decision, env: TickEnv, now: int)
    requires TickProofs.Fits(a, d) && TickDecision(a, d, env, now).Ok?
    ensures var m := TickDecision(a, d, env, now).value;
            && m.traffic.Keys == a.traffic.Keys
            && (forall t :: t in a.traffic ==> m.traffic[t].email == a.traffic[t].email)
            && (forall t :: t in a.traffic && t != d.trafficId ==> m.traffic[t] == a.traffic[t])
  {
    TickDecisionFacts(a, d, env, now);
    if d.target.Some? && d.trafficId in a.traffic {
      var x := d.target.value;
      if d.trafficId !in env.locked && a.traffic[d.trafficId].email == a.clients[TargetKey(x)].email {
        SettleRests(a.traffic[d.trafficId], a.clients[TargetKey(x)], x.factorPpm);
      }
    }
  }

  lemma DecisionRecorded(a: Db, d: Decision, env: TickEnv, now: int)
    requires TickProofs.Fits(a, d) && TickDecision(a, d, env, now).Ok?
    ensures Recorded(a, TickDecision(a, d, env, now).value)
  {
    var m := TickDecision(a, d, env, now).value;
    TickDecisionRecords(a, d, env, now);
    DecisionRow(a, d, env, now);
    GainOfOne(a, m, Ascending(a.traffic.Keys), d.trafficId);
  }

  lemma {:induction false} GainOfSelf(a: Db, ids: seq<int>)
    ensures GainOver(a, a, ids) == 0
  {
    if ids != [] { GainOfSelf(a, ids[1..]); }
  }

  lemma {:induction false} DecisionsRecorded(a: Db, ds: seq<Decision>, env: TickEnv, now: int)
    requires AscendingTraffic(ds) && (forall d :: d in ds ==> TickProofs.Fits(a, d))
             && TickDecisions(a, ds, env, now).Ok?
    ensures Recorded(a, TickDecisions(a, ds, env, now).value)
    decreases |ds|
  {
    if ds == [] {
      GainOfSelf(a, Ascending(a.traffic.Keys));
    } else {
      var d := ds[0];
      assert d in ds;
      var m := TickDecision(a, d, env, now).value;
      DecisionRecorded(a, d, env, now);
      assert OnlyRow(a, m, d.trafficId) by { TickDecisionFacts(a, d, env, now); }
      forall e | e in ds[1..] ensures TickProofs.Fits(m, e) {
        LaterTraffic(ds, e);
        FitsElsewhere(a, m, d.trafficId, e);
      }
      DecisionsRecorded(m, ds[1..], env, now);
      RecordedChains(a, m, TickDecisions(m, ds[1..], env, now).value);
    }
  }

  /** A committed tick records exactly what it added to the counters. */
  lemma CommittedRecorded(ready: Db, after: Db, env: TickEnv, now: int)
    requires Committed(ready, after, env, now)
    ensures Recorded(ready, after)
  {
    var cs := Candidates(ready);
    DecidePerTraffic(cs);
    forall d | d in DecideAll(cs).value ensures TickProofs.Fits(ready, d) { DecisionFits(ready, d); }
    DecisionsRecorded(ready, DecideAll(cs).value, env, now);
  }

  // Runs ------------------------------------------------------------------

  /** The bytes that the run's committed ticks added to counters. */
  function AddedBy(w: World, steps: seq<Step>): int
    decreases |steps|
  {
    if steps == [] then 0
    else (if steps[0].TickStep? then Gain(w.db, Advance(w, steps[0]).db) else
                                       0) + AddedBy(Advance(w, steps[0]), steps[1..])
  }

  /** Wherever the run stands, the rows' emails are ordinary. */
  ghost predicate OrdinaryRun(w: World, steps: seq<Step>)
    decreases |steps|
  {
    OrdinaryRows(w.db) && (steps == [] || OrdinaryRun(Advance(w, steps[0]), steps[1..]))
  }

  lemma TakenRecorded(a: Db, ready: Db, after: Db, env: TickEnv, now: int)
    requires OrdinaryRows(a) && Aside(a, ready) && ready.traffic == a.traffic && Committed(ready, after, env, now)
    ensures Grows(a, after, Gain(a, after))
  {
    AsideTotal(a, ready);
    assert Recorded(ready, after) by { CommittedRecorded(ready, after, env, now); }
    SameTrafficGain(a, ready, after);
  }

  /** The recorded total grows by the gain, and readable events stay readable. */
  ghost predicate Grows(a: Db, b: Db, gain: int) {
    Total(b.events) == Total(a.events) + gain && (AllReadable(a.events) ==> AllReadable(b.events))
  }

  lemma TakenStepRecorded(w: World, env: TickEnv, now: int)
    requires Valid(w.db) && OrdinaryRows(w.db) && Tick(w.db, env, now).Ok?
    ensures var b := Advance(w, TickStep(env, now)).db; Grows(w.db, b, Gain(w.db, b))
  {
    var ready, after := TickTaken(w, env, now);
    PreparedAside(w.db, now);
    TakenRecorded(w.db, ready, after, env, now);
  }

  lemma TickStepRecorded(w: World, env: TickEnv, now: int)
    requires Valid(w.db) && OrdinaryRows(w.db)
    ensures var b := Advance(w, TickStep(env, now)).db; Grows(w.db, b, Gain(w.db, b))
  {
    if Tick(w.db, env, now).Err? {
      TickRefused(w, env, now);
      GainOfSelf(w.db, Ascending(w.db.traffic.Keys));
    } else {
      TakenStepRecorded(w, env, now);
    }
  }

  lemma SameTrafficGain(a: Db, b: Db, c: Db)
    requires b.traffic == a.traffic
    ensures Gain(a, c) == Gain(b, c)
  {
    SameTrafficGainOver(a, b, c, Ascending(a.traffic.Keys));
  }

  lemma {:induction false} SameTrafficGainOver(a: Db, b: Db, c: Db, ids: seq<int>)
    requires b.traffic == a.traffic
    ensures GainOver(a, c, ids) == GainOver(b, c, ids)
  {
    if ids != [] { SameTrafficGainOver(a, b, c, ids[1..]); }
  }

  lemma CommandStepTables(w: World, command: Command, now: int)
    ensures Advance(w, CommandStep(command, now)).db == Committing(w.db, Execute(w.db, command, now))
  {
  }

  lemma CommandStepRecorded(w: World, command: Command, now: int)
    requires !command.Clean?
    ensures Grows(w.db, Advance(w, CommandStep(command, now)).db, 0)
  {
    CommandStepTables(w, command, now);
    var r := Execute(w.db, command, now);
    if r.Ok? {
      CommandAside(w.db, command, now);
      AsideTotal(w.db, r.value);
    }
  }

  lemma PanelStepRecorded(w: World, change: Change)
    ensures Advance(w, PanelStep(change)).db.events == w.db.events
  {
  }

  /** Over every run that prunes no events, the recorded total grows by exactly what ticks added to counters. */
  lemma {:induction false} TrailConserves(w: World, steps: seq<Step>)
    requires Valid(w.db) && AllReadable(w.db.events) && OrdinaryRun(w, steps)
    requires forall step :: step in steps ==> Timed(step) && !Prunes(step)
    ensures Total(Run(w, steps).db.events) == Total(w.db.events) + AddedBy(w, steps)
    ensures AllReadable(Run(w, steps).db.events)
    decreases |steps|
  {
    if steps != [] {
      var step := steps[0];
      assert step in steps;
      match step {
        case PanelStep(change) => PanelStepRecorded(w, change);
        case CommandStep(command, now) => CommandStepRecorded(w, command, now);
        case TickStep(env, now) => TickStepRecorded(w, env, now);
      }
      ValidStep(w, step);
      TrailConserves(Advance(w, step), steps[1..]);
    }
  }

  /**
   * From an empty trail, TrafficImpact reports what ticks added to counters, capped at int64, in whatever order
   * events are listed.
   */
  lemma ImpactIsAdded(w: World, steps: seq<Step>, events: seq<Event>)
    requires Valid(w.db) && w.db.events == [] && OrdinaryRun(w, steps)
    requires forall step :: step in steps ==> Timed(step) && !Prunes(step)
    requires multiset(events) == multiset(Run(w, steps).db.events)
    ensures AddedBy(w, steps) >= 0 && AddUp(Readings(Listed(events)), 0) == Capped(AddedBy(w, steps))
  {
    TrailConserves(w, steps);
    ImpactIsTotal(events, Run(w, steps).db.events);
  }
}
