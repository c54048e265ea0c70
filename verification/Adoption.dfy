/**
 * Merging a single-user rule into a scope of its factor is invisible: the counters go on as if it had not happened,
 * whatever bytes and ticks follow.
 */
module Adoption {
  import opened Collections
  import opened Model
  import opened Accounting
  import opened Decisions
  import opened PolicyTable
  import opened Baselines
  import opened Reconciling
  import opened ReconcileProofs
  import opened ReconcileTheorems
  import opened Ticking
  import opened TickProofs
  import opened Machine
  import opened MachineProofs
  import opened Ledgers
  import opened Quiescence
  import opened Effective
  import opened Schedule
  import opened Rest
  import opened Commits
  import opened Twins
  import opened TwinTicks
  import C = Commands

  // After a committed tick ------------------------------------------------------

  lemma SettleEmail(row: Traffic, rc: RuleClient, factorPpm: int64)
    requires Settle(row, rc, factorPpm).Ok?
    ensures Settle(row, rc, factorPpm).value.1.email == rc.email
  {
  }

  lemma DecidedEmail(a: Db, c: Db, d: Decision, env: TickEnv, now: int, k: Key)
    requires Outcome(a, c, d, env, now) && k in Named(d) && k in a.clients
    ensures k in c.clients && c.clients[k].email == a.clients[k].email
  {
    KeysMember(d.suppressed, k);
    if d.target.Some? && TargetKey(d.target.value) == k {
      if k.traffic in a.traffic && k.traffic !in env.locked && a.traffic[k.traffic].email == a.clients[k].email {
        SettleEmail(a.traffic[k.traffic], a.clients[k], d.target.value.factorPpm);
      }
    } else {
      var x :| x in d.suppressed && TargetKey(x) == k;
      assert Yields(a, c, k, now);
    }
  }

  lemma CommittedEmail(a: Db, c: Db, env: TickEnv, now: int, k: Key)
    requires Committed(a, c, env, now) && k in a.clients
    ensures k in c.clients && c.clients[k].email == a.clients[k].email
  {
    if ActiveKey(a, k) {
      var d := DecisionOf(a, k);
      assert Outcome(a, c, d, env, now) by { CommittedFacts(a, c, env, now); }
      DecidedEmail(a, c, d, env, now, k);
    } else {
      CommittedSpares(a, c, env, now, k);
    }
  }

  /** One decision, taken on twin tables, leaves its row and clients equal. */
  lemma OutcomeOff(a: Db, b: Db, c: Db, e: Db, t: int, r: int, d: Decision, env: TickEnv, now: int, k: Key)
    requires SameOff(a, b, t, r) && Outcome(a, c, d, env, now) && Outcome(b, e, d, env, now) && d.trafficId != t
    requires d.target.Some? ==> d.target.value.trafficId == d.trafficId && d.target.value.ruleId != r
    requires d.trafficId in a.traffic ==> d.trafficId in c.traffic && d.trafficId in e.traffic
    ensures d.trafficId in a.traffic ==> c.traffic[d.trafficId] == e.traffic[d.trafficId]
    ensures k in Named(d) && k.traffic == d.trafficId && k.rule != r ==>
            k in c.clients && k in e.clients && c.clients[k] == e.clients[k]
  {
    KeysMember(d.suppressed, k);
    if k in Named(d) && k.traffic == d.trafficId && k.rule != r && !(d.target.Some? && TargetKey(d.target.value) == k) {
      var x :| x in d.suppressed && TargetKey(x) == k;
      assert Yields(a, c, k, now) && Yields(b, e, k, now);
    }
  }

  lemma FitsOff(a: Db, t: int, r: int, p: int, d: Decision)
    requires Held(a, t, r, p) && p != r && TickProofs.Fits(a, d)
    ensures d.target.Some? ==> d.target.value.trafficId == d.trafficId && d.target.value.ruleId != r
  {
  }

  /** Two committed ticks on twin tables. */
  ghost predicate BothCommitted(a: Db, b: Db, c: Db, e: Db, t: int, r: int, s: int, p: int, env: TickEnv, now: int) {
    Twin(a, b, t, r, s, p) && p != r && Committed(a, c, env, now) && Committed(b, e, env, now)
  }

  lemma RowOff(a: Db, b: Db, c: Db, e: Db, t: int, r: int, s: int, p: int, env: TickEnv, now: int, u: int)
    requires BothCommitted(a, b, c, e, t, r, s, p, env, now) && u != t && u in a.traffic
    ensures u in c.traffic && u in e.traffic && c.traffic[u] == e.traffic[u]
  {
    CommittedFacts(a, c, env, now);
    CommittedFacts(b, e, env, now);
    if d :| d in DecideAll(Candidates(a)).value && d.trafficId == u {
      SameDecision(a, b, t, r, s, p, d);
      FitsOff(a, t, r, p, d);
      OutcomeOff(a, b, c, e, t, r, d, env, now, Key(p, t));
    } else {
      forall d | d in DecideAll(Candidates(b)).value ensures d.trafficId != u {
        if d.trafficId == u { SameDecisionBack(a, b, t, r, s, p, d); }
      }
    }
  }

  lemma ClientOffRow(a: Db, b: Db, c: Db, e: Db, t: int, r: int, s: int, p: int, env: TickEnv, now: int, k: Key)
    requires BothCommitted(a, b, c, e, t, r, s, p, env, now) && k.traffic != t && k.rule != r && k in a.clients
    ensures k in c.clients && k in e.clients && c.clients[k] == e.clients[k]
  {
    if ActiveKey(a, k) {
      var d := DecisionOf(a, k);
      SameDecision(a, b, t, r, s, p, d);
      CommittedFacts(a, c, env, now);
      CommittedFacts(b, e, env, now);
      FitsOff(a, t, r, p, d);
      OutcomeOff(a, b, c, e, t, r, d, env, now, k);
    } else {
      CommittedSpares(a, c, env, now, k);
      CommittedSpares(b, e, env, now, k);
    }
  }

  // The held row --------------------------------------------------------------

  lemma ExcludedYields(a: Db, c: Db, t: int, r: int, p: int, env: TickEnv, now: int)
    requires Held(a, t, r, p) && Committed(a, c, env, now) && EffectiveOn(a, t) == None
    ensures t in c.traffic && c.traffic[t] == a.traffic[t] && Key(p, t) in c.clients
    ensures c.clients[Key(p, t)] == Rebased(a.clients[Key(p, t)], a.traffic[t], 0, 0)
  {
    var d := HeldDecision(a, t, r, p);
    DecisionFound(a, d);
    EffectiveFound(a, DecideAll(Candidates(a)).value, d);
    assert Outcome(a, c, d, env, now) by { CommittedFacts(a, c, env, now); }
    KeysMember(d.suppressed, Key(p, t));
    var x :| x in d.suppressed && TargetKey(x) == Key(p, t);
    assert Yields(a, c, Key(p, t), now);
  }

  lemma SettleTogether(row: Traffic, rc: RuleClient, other: RuleClient, factorPpm: int64)
    requires SameAccount(rc, other) && rc.missingAt.None? && other.missingAt.None? && Settle(row, rc, factorPpm).Ok?
    ensures Settle(row, other, factorPpm).Ok?
    ensures var ((x, c), (y, d)) := (Settle(row, rc, factorPpm).value, Settle(row, other, factorPpm).value);
            x == y && SameAccount(c, d) && c.missingAt.None? && d.missingAt.None? && x.email == row.email
                && c.email == rc.email && d.email == other.email
  {
    ChargeReadsAccount(row, rc, other, factorPpm);
  }

  lemma HeldRowOutcome(a: Db, b: Db, c: Db, e: Db, t: int, r: int, s: int, p: int, env: TickEnv, now: int)
    requires BothCommitted(a, b, c, e, t, r, s, p, env, now)
    ensures t in c.traffic && t in e.traffic && c.traffic[t] == e.traffic[t] && c.traffic[t].email == a.traffic[t].email
    ensures Key(p, t) in c.clients && Key(s, t) in e.clients && SameAccount(c.clients[Key(p, t)], e.clients[Key(s, t)])
    ensures c.clients[Key(p, t)].missingAt.None? && e.clients[Key(s, t)].missingAt.None?
    ensures c.clients[Key(p, t)].email == a.clients[Key(p, t)].email
            && e.clients[Key(s, t)].email == b.clients[Key(s, t)].email
  {
    var f := HeldEffective(a, b, t, r, s, p);
    if f.None? {
      ExcludedYields(a, c, t, r, p, env, now);
      ExcludedYields(b, e, t, r, s, env, now);
    } else {
      EffectiveOutcome(a, c, env, now, Key(p, t), f.value);
      EffectiveOutcome(b, e, env, now, Key(s, t), f.value);
      if t !in env.locked { SettleTogether(a.traffic[t], a.clients[Key(p, t)], b.clients[Key(s, t)], f.value); }
    }
  }

  /** The tables a tick commits change in rows, clients and events only. */
  lemma CommittedFrame(a: Db, c: Db, env: TickEnv, now: int)
    requires Committed(a, c, env, now)
    ensures c == a.(traffic := c.traffic, clients := c.clients, events := c.events)
    ensures c.clients.Keys == a.clients.Keys && c.traffic.Keys == a.traffic.Keys
  {
    CommittedFacts(a, c, env, now);
  }

  lemma HeldAfter(a: Db, c: Db, t: int, r: int, p: int)
    requires Held(a, t, r, p) && c == a.(traffic := c.traffic, clients := c.clients, events := c.events)
    requires c.clients.Keys == a.clients.Keys && c.traffic.Keys == a.traffic.Keys
    requires forall k :: k in a.clients ==> c.clients[k].email == a.clients[k].email
    requires c.traffic[t].email == a.traffic[t].email && c.clients[Key(p, t)].missingAt.None?
    ensures Held(c, t, r, p)
  {
    forall x | c.Owns(x, t) ensures x == p { assert a.Owns(x, t); }
    forall x | IsSingle(c, x) && x != r ensures Away(c, x, t) { assert IsSingle(a, x) && Away(a, x, t); }
  }

  lemma SameOffAfter(a: Db, b: Db, c: Db, e: Db, t: int, r: int)
    requires SameOff(a, b, t, r)
    requires c == a.(traffic := c.traffic, clients := c.clients, events := c.events) && c.clients.Keys == a.clients.Keys
    requires e == b.(traffic := e.traffic, clients := e.clients, events := e.events) && e.clients.Keys == b.clients.Keys
    requires c.traffic == e.traffic
    requires forall k: Key :: k.traffic != t && k.rule != r && k in a.clients ==>
                              k in e.clients && c.clients[k] == e.clients[k]
    ensures SameOff(c, e, t, r)
  {
  }

  lemma AdmitsAfter(a: Db, c: Db, s: int, r: int, t: int)
    requires ScopeAdmits(a, s, r, t) && c == a.(traffic := c.traffic, clients := c.clients, events := c.events)
             && t in c.traffic
    requires c.traffic[t] == a.traffic[t].(up := c.traffic[t].up, down := c.traffic[t].down)
    ensures ScopeAdmits(c, s, r, t)
  {
  }

  lemma TrafficTogether(a: Db, b: Db, c: Db, e: Db, t: int, r: int, s: int, p: int, env: TickEnv, now: int)
    requires BothCommitted(a, b, c, e, t, r, s, p, env, now)
    ensures c.traffic == e.traffic
  {
    CommittedFrame(a, c, env, now);
    CommittedFrame(b, e, env, now);
    HeldRowOutcome(a, b, c, e, t, r, s, p, env, now);
    forall u | u in c.traffic ensures c.traffic[u] == e.traffic[u] {
      if u != t { RowOff(a, b, c, e, t, r, s, p, env, now, u); }
    }
  }

  /** Committed ticks leave twin tables twins. */
  lemma TwinCommitted(a: Db, b: Db, c: Db, e: Db, t: int, r: int, s: int, p: int, env: TickEnv, now: int)
    requires BothCommitted(a, b, c, e, t, r, s, p, env, now)
    ensures Twin(c, e, t, r, s, p)
  {
    CommittedFrame(a, c, env, now);
    CommittedFrame(b, e, env, now);
    HeldRowOutcome(a, b, c, e, t, r, s, p, env, now);
    TrafficTogether(a, b, c, e, t, r, s, p, env, now);
    forall k | k in a.clients ensures c.clients[k].email == a.clients[k].email { CommittedEmail(a, c, env, now, k); }
    forall k | k in b.clients ensures e.clients[k].email == b.clients[k].email { CommittedEmail(b, e, env, now, k); }
    HeldAfter(a, c, t, r, p);
    HeldAfter(b, e, t, r, s);
    forall k: Key | k.traffic != t && k.rule != r && k in a.clients
      ensures k in e.clients && c.clients[k] == e.clients[k]
    {
      ClientOffRow(a, b, c, e, t, r, s, p, env, now, k);
    }
    SameOffAfter(a, b, c, e, t, r);
    CommittedRow(a, c, env, now, t);
    AdmitsAfter(a, c, s, r, t);
  }

  // Steps -------------------------------------------------------------------

  lemma TickIs(db: Db, env: TickEnv, now: int, ready: Db)
    requires Prepared(db, now) == Ok(ready)
    ensures Tick(db, env, now).Ok? <==>
              !(env.managed && !env.factorOnManaged) && DecideAll(Candidates(ready)).Ok?
              && TickDecisions(ready, DecideAll(Candidates(ready)).value, env, now).Ok?
    ensures Tick(db, env, now).Ok? ==> Committed(ready, Tick(db, env, now).value, env, now)
  {
  }

  /**
   * A tick commits on both or on neither, and leaves the tables twins; where it commits, a scope holds the row on
   * either side.
   */
  lemma TwinTick(a: Db, b: Db, t: int, r: int, s: int, p: int, env: TickEnv, now: int) returns (q: int)
    requires Twin(a, b, t, r, s, p) && now > 0
    ensures Tick(a, env, now).Ok? <==> Tick(b, env, now).Ok?
    ensures Tick(a, env, now).Ok? ==> q != r && Twin(Tick(a, env, now).value, Tick(b, env, now).value, t, r, s, q)
  {
    q := TwinPrepared(a, b, t, r, s, p, now);
    var c, e := Prepared(a, now).value, Prepared(b, now).value;
    TickIs(a, env, now, c);
    TickIs(b, env, now, e);
    DecidedTogether(c, e, t, r, s, q);
    if DecideAll(Candidates(c)).Ok? && DecideAll(Candidates(e)).Ok? {
      ChargedTogether(c, e, t, r, s, q, env, now, DecideAll(Candidates(c)).value, DecideAll(Candidates(e)).value);
    }
    if Tick(a, env, now).Ok? {
      TwinCommitted(c, e, Tick(a, env, now).value, Tick(b, env, now).value, t, r, s, q, env, now);
    }
  }

  lemma HeldAfterBytes(a: Db, t: int, r: int, p: int, u: int, bytes: Bytes)
    requires Held(a, t, r, p) && Possible(a, AddBytes(u, bytes))
    ensures Held(Changed(a, AddBytes(u, bytes)), t, r, p)
  {
    var c := Changed(a, AddBytes(u, bytes));
    forall x | c.Owns(x, t) ensures x == p { assert a.Owns(x, t); }
    forall x | IsSingle(c, x) && x != r ensures Away(c, x, t) { assert IsSingle(a, x) && Away(a, x, t); }
  }

  lemma TwinBytes(a: Db, b: Db, t: int, r: int, s: int, p: int, u: int, bytes: Bytes)
    requires Twin(a, b, t, r, s, p)
    ensures Possible(a, AddBytes(u, bytes)) <==> Possible(b, AddBytes(u, bytes))
    ensures Possible(a, AddBytes(u, bytes)) ==>
            Twin(Changed(a, AddBytes(u, bytes)), Changed(b, AddBytes(u, bytes)), t, r, s, p)
  {
    if Possible(a, AddBytes(u, bytes)) {
      HeldAfterBytes(a, t, r, p, u, bytes);
      HeldAfterBytes(b, t, r, s, u, bytes);
    }
  }

  lemma TwinNext(a: Db, b: Db, t: int, r: int, s: int, p: int, step: Step) returns (q: int)
    requires Twin(a, b, t, r, s, p) && Routine(step)
    ensures Twin(Next(a, step), Next(b, step), t, r, s, q) && MomentOf(a, step, t) == MomentOf(b, step, t)
  {
    q := p;
    match step
    case PanelStep(change) => TwinBytes(a, b, t, r, s, p, change.t, change.bytes);
    case TickStep(env, now) =>
      var holder := TwinTick(a, b, t, r, s, p, env, now);
      if Tick(a, env, now).Ok? { q := holder; }
  }

  lemma {:induction false} TwinRun(w: World, v: World, t: int, r: int, s: int, p: int, steps: seq<Step>)
      returns (q: int)
    requires Twin(w.db, v.db, t, r, s, p) && forall step :: step in steps ==> Routine(step)
    ensures Twin(Run(w, steps).db, Run(v, steps).db, t, r, s, q) && MomentsOf(w, steps, t) == MomentsOf(v, steps, t)
    decreases |steps|
  {
    q := p;
    if steps != [] {
      var step := steps[0];
      assert step in steps;
      var m := TwinNext(w.db, v.db, t, r, s, p, step);
      AdvanceIsNext(w, step);
      AdvanceIsNext(v, step);
      q := TwinRun(Advance(w, step), Advance(v, step), t, r, s, m, steps[1..]);
    }
  }

  // The theorem ---------------------------------------------------------------

  lemma EmailRow(db: Db, t: int)
    requires EmailsUnique(db) && t in db.traffic
    ensures db.RowByEmail(db.traffic[t].email) == Some(t)
  {
    assert t in db.RowsByEmail(db.traffic[t].email);
  }

  lemma NotRelinked(db: Db, x: int, t: int)
    requires Valid(db) && IsSingle(db, x) && t in db.traffic && !db.Owns(x, t) && !ResolvesTo(db, x, t)
    ensures Away(db, x, t)
  {
    EmailRow(db, t);
    forall k | k in db.clients && k.rule == x
      ensures k.traffic != t && (k.traffic in db.traffic || db.clients[k].email != db.traffic[t].email)
    {
      assert k.traffic in db.ClientsOf(x);
      forall u | u in db.ClientsOf(x)
        ensures u == k.traffic
      {
        assert Key(x, u) in db.clients && k == Key(x, k.traffic);
      }
      assert db.ClientsOf(x) == {k.traffic};
    }
  }

  /** What adoption asks of the tables: the scope admits the row, and the rule alone is concerned with it. */
  ghost predicate Adoptable(db: Db, s: int, r: int, t: int) {
    && db.Active(s) && ScopeAdmits(db, s, r, t) && IsSingle(db, r)
    && (forall x :: db.Owns(x, t) ==> x == r)
    && (forall x :: IsSingle(db, x) && x != r ==> !ResolvesTo(db, x, t))
  }

  lemma AdoptedTwin(db: Db, s: int, r: int, t: int, at: int)
    requires Valid(db) && Adoptable(db, s, r, t) && C.Adopt(db, s, r, t, at).1
    ensures Twin(db, C.Adopt(db, s, r, t, at).0, t, r, s, r)
  {
    assert Key(s, t) !in db.clients by { if Key(s, t) in db.clients { assert db.Owns(s, t); } }
    forall x | IsSingle(db, x) && x != r ensures Away(db, x, t) { NotRelinked(db, x, t); }
    assert Held(db, t, r, r);
    JoinedHolds(db, db, t, r, s, at);
  }

  /**
   * From any valid tables on which the adoption of a single-user rule into a scope goes through, let any bytes and
   * any ticks follow - deferred, aborted or committed; where the rule was not adopted, the first tick that commits
   * merges it into some scope by itself. After any such run the panel's counters are equal on every row, whether the
   * rule was adopted or not; the same ticks committed; and the one live account of the row is the same, whoever holds
   * it.
   */
  lemma AdoptionIsTransparent(db: Db, s: int, r: int, t: int, at: int, steps: seq<Step>) returns (p: int)
    requires Valid(db) && Adoptable(db, s, r, t) && C.Adopt(db, s, r, t, at).1
    requires forall step :: step in steps ==> Routine(step)
    ensures var apart, merged := Run(Fresh(db), steps).db, Run(Fresh(C.Adopt(db, s, r, t, at).0), steps).db;
            && apart.traffic == merged.traffic
            && (p == r || p in apart.scopes) && Key(p, t) in apart.clients && Key(s, t) in merged.clients
            && (forall x :: apart.Owns(x, t) <==> x == p) && (forall x :: merged.Owns(x, t) <==> x == s)
            && SameAccount(apart.clients[Key(p, t)], merged.clients[Key(s, t)])
            && apart.clients[Key(p, t)].missingAt.None? && merged.clients[Key(s, t)].missingAt.None?
    ensures MomentsOf(Fresh(db), steps, t) == MomentsOf(Fresh(C.Adopt(db, s, r, t, at).0), steps, t)
  {
    AdoptedTwin(db, s, r, t, at);
    p := TwinRun(Fresh(db), Fresh(C.Adopt(db, s, r, t, at).0), t, r, s, r, steps);
    TwinHolds(Run(Fresh(db), steps).db, Run(Fresh(C.Adopt(db, s, r, t, at).0), steps).db, t, r, s, p);
  }

  lemma TwinHolds(a: Db, b: Db, t: int, r: int, s: int, p: int)
    requires Twin(a, b, t, r, s, p)
    ensures a.traffic == b.traffic && (p == r || p in a.scopes) && Key(p, t) in a.clients && Key(s, t) in b.clients
    ensures (forall x :: a.Owns(x, t) <==> x == p) && (forall x :: b.Owns(x, t) <==> x == s)
    ensures SameAccount(a.clients[Key(p, t)], b.clients[Key(s, t)])
    ensures a.clients[Key(p, t)].missingAt.None? && b.clients[Key(s, t)].missingAt.None?
  {
  }

  // Who adopts ----------------------------------------------------------------

  /**
   * Enable-all adopts only what its scope admits: the candidate passed its filter, and the scope is persistent and of
   * the same filter.
   */
  lemma EnableAllAdoptsAdmitted(db: Db, s: int, r: int, t: int, bulk: C.Bulk, factorPpm: int64, at: int)
    requires t in ClientCandidates(db, bulk.inbound, bulk.limitedOnly, bulk.includeDisabled)
    requires C.SameScope(db, s, bulk, factorPpm) && C.Adopt(db, s, r, t, at).1
    ensures ScopeAdmits(db, s, r, t)
  {
    CandidateAdmitted(db, bulk.inbound, bulk.limitedOnly, bulk.includeDisabled, t);
  }

  lemma CandidateAdmitted(db: Db, inbound: Option<int>, limitedOnly: bool, includeDisabled: bool, t: int)
    requires t in ClientCandidates(db, inbound, limitedOnly, includeDisabled)
    ensures FilterAdmits(db, inbound, limitedOnly, includeDisabled, t)
  {
    var ts := set u | u in db.traffic && FilterAdmits(db, inbound, limitedOnly, includeDisabled, u);
    SameMembers(ClientCandidates(db, inbound, limitedOnly, includeDisabled), Ascending(ts));
    assert t in Ascending(ts);
    assert t in ts;
  }

  /** So does reconcile. */
  lemma ReconcileAdoptsAdmitted(db: Db, scopes: seq<int>, r: int, t: int)
    requires CompatibleScope(db, scopes, r, t).Some?
    ensures ScopeAdmits(db, CompatibleScope(db, scopes, r, t).value, r, t)
  {
    CompatibleFacts(db, scopes, r, t);
  }
}
