/** internal/daemon/tick.go: enrolment into scopes and the charging of decisions, as functions of the tables. */
module Ticking {
  import opened Collections
  import opened Model
  import opened Accounting
  import opened Decisions
  import opened PolicyTable
  import opened Reconciling

  // Enrolment -------------------------------------------------------------

  predicate RowBefore(db: Db, a: int, b: int) {
    if a !in db.traffic || b !in db.traffic then a < b
    else if db.traffic[a].inboundId != db.traffic[b].inboundId then db.traffic[a].inboundId < db.traffic[b].inboundId
    else if db.traffic[a].email != db.traffic[b].email then TextBefore(db.traffic[a].email, db.traffic[b].email)
    else a < b
  }

  predicate FilterAdmits(db: Db, inbound: Option<int>, limitedOnly: bool, includeDisabled: bool, t: int) {
    && t in db.traffic
    && db.traffic[t].email != ""
    && (includeDisabled || db.traffic[t].enable)
    && (limitedOnly ==> db.traffic[t].total > 0)
    && (inbound.Some? ==> db.IsMember(db.traffic[t].email, inbound.value))
  }

  /** ListClientCandidates: ordered by inbound, email and id. */
  function ClientCandidates(db: Db, inbound: Option<int>, limitedOnly: bool, includeDisabled: bool): seq<int> {
    SortBy(Ascending(set t | t in db.traffic && FilterAdmits(db, inbound, limitedOnly, includeDisabled, t)),
        (a: int, b: int) => RowBefore(db, a, b))
  }

  function AddEventOnce(db: Db, rule: int, kind: EventKind, detail: Detail, now: int): Db {
    if exists e :: e in db.events && e.rule == Some(rule) && e.kind == kind && e.detail == detail then db
    else db.Log(Some(rule), kind, detail, now)
  }

  function OtherOwners(db: Db, t: int, except: int): set<int> {
    db.RulesOn(t, {Active}) - {except}
  }

  function EnrolClient(db: Db, s: int, t: int, now: int): Db {
    if t !in db.traffic || Key(s, t) in db.clients then db
    else
      var others := OtherOwners(db, t, s);
      if others != {} then AddEventOnce(db, s, ScopeSkip, Owned(t, Min(others)), now)
      else db.PutClient(Key(s, t), FreshClient(db.traffic[t])).Log(Some(s), ScopeEnroll, OnTraffic(t), now)
  }

  function EnrolClients(db: Db, s: int, ts: seq<int>, now: int): Db
    decreases |ts|
  {
    if ts == [] then db else EnrolClients(EnrolClient(db, s, ts[0], now), s, ts[1..], now)
  }

  function ScopeCandidates(db: Db, s: int): seq<int> {
    if s !in db.scopes then [] else ClientCandidates(db, db.scopes[s].inboundId, db.scopes[s].limitedOnly,
                                    db.scopes[s].includeDisabled)
  }

  function EnrolScopes(db: Db, scopes: seq<int>, now: int): Db
    decreases |scopes|
  {
    if scopes == [] then db else EnrolScopes(EnrolClients(db, scopes[0], ScopeCandidates(db, scopes[0]), now),
                                 scopes[1..], now)
  }

  /** reconcileScopes. */
  function Enrol(db: Db, now: int): Db {
    EnrolScopes(db, ListPersistentScopes(db), now)
  }

  // The candidates of a tick ----------------------------------------------

  function TargetAt(db: Db, k: Key): Target
    requires k in db.clients && k.rule in db.rules
  {
    Target(k.rule, k.traffic, db.rules[k.rule].factorPpm, if k.rule in db.scopes then
          Some(db.scopes[k.rule]) else None, db.clients[k])
  }

  function TargetsOf(db: Db, r: int, ts: seq<int>): seq<Target> {
    if ts == [] then []
    else (if Key(r, ts[0]) in db.clients
         && r in db.rules then [TargetAt(db, Key(r, ts[0]))] else []) + TargetsOf(db, r, ts[1..])
  }

  function TargetsOver(db: Db, rs: seq<int>): seq<Target> {
    if rs == [] then [] else TargetsOf(db, rs[0], Ascending(db.ClientsOf(rs[0]))) + TargetsOver(db, rs[1..])
  }

  function ActiveIdsOf(db: Db): set<int> {
    set r | r in db.rules && db.Active(r)
  }

  /** ListActiveRuleClients: by rule id, then traffic id. */
  function Targets(db: Db): seq<Target> {
    TargetsOver(db, Ascending(ActiveIdsOf(db)))
  }

  function PolicyRows(table: Table, ids: seq<int>): seq<PolicyRow> {
    if ids == [] then []
    else (if ids[0] in table then [PolicyRow(ids[0], table[ids[0]])] else []) + PolicyRows(table, ids[1..])
  }

  function Candidates(db: Db): seq<Candidate> {
    TickCandidates(Targets(db), PolicyRows(db.excludes, ListActive(db.excludes)),
        PolicyRows(db.overrides, ListActive(db.overrides)))
  }

  // Charging --------------------------------------------------------------

  /** Rows locked by another writer, rows whose compare-and-swap misses, and the panel's role. */
  datatype TickEnv = TickEnv(locked: set<int>, raced: set<int>, managed: bool, factorOnManaged: bool)

  function MarkAbsent(db: Db, x: Target, now: int): Db {
    var marked := db.MarkMissing(TargetKey(x), now);
    if x.client.missingAt.Some? then marked else marked.Log(Some(x.ruleId), ClientMissing, OnTraffic(x.trafficId), now)
  }

  function ChargeEvent(db: Db, x: Target, row: Traffic, charge: Charge, now: int): Db {
    match charge
    case Returned => db.Log(Some(x.ruleId), ClientReset, OnTraffic(x.trafficId), now)
    case Decreased => db.Log(Some(x.ruleId), ClientReset, OnTraffic(x.trafficId), now)
    case Charged(extraUp, extraDown, _, _) =>
      db.Log(Some(x.ruleId), TrafficApply, Applied(x.trafficId, row.inboundId, row.email, extraUp, extraDown), now)
    case _ => db
  }

  /** tickTarget. */
  function TickTarget(db: Db, x: Target, env: TickEnv, now: int): Result<Db> {
    var t := x.trafficId;
    if t !in db.traffic then Ok(MarkAbsent(db, x, now))
    else if t in env.locked then Ok(db)
    else if db.traffic[t].email != x.client.email then Ok(MarkAbsent(db, x, now))
    else
      var charge :- ChargeFor(db.traffic[t], x.client, x.factorPpm);
      if charge.Charged? && t in env.raced then Err(Race)
      else
        var (row, rc) :- Settle(db.traffic[t], x.client, x.factorPpm);
        Ok(ChargeEvent(db.(traffic := db.traffic[t := row]).PutClient(TargetKey(x), rc), x, db.traffic[t], charge, now))
  }

  /** refreshSuppressedBaseline. */
  function RefreshSuppressed(db: Db, x: Target, now: int): Db {
    var t := x.trafficId;
    if t !in db.traffic || db.traffic[t].email != x.client.email then MarkAbsent(db, x, now)
    else if TargetKey(x) !in db.clients then db
    else db.PutClient(TargetKey(x), Rebased(db.clients[TargetKey(x)], db.traffic[t], 0, 0))
  }

  function RefreshAll(db: Db, xs: seq<Target>, now: int): Db
    decreases |xs|
  {
    if xs == [] then db else RefreshAll(RefreshSuppressed(db, xs[0], now), xs[1..], now)
  }

  function TickDecision(db: Db, d: Decision, env: TickEnv, now: int): Result<Db> {
    match d.target
    case None => Ok(RefreshAll(db, d.suppressed, now))
    case Some(x) =>
      var charged :- TickTarget(db, x, env, now);
      Ok(RefreshAll(charged, d.suppressed, now))
  }

  function TickDecisions(db: Db, ds: seq<Decision>, env: TickEnv, now: int): Result<Db>
    decreases |ds|
  {
    if ds == [] then Ok(db)
    else
      var first :- TickDecision(db, ds[0], env, now);
      TickDecisions(first, ds[1..], env, now)
  }

  /** The tables a tick decides on: reconciled and enrolled. */
  function Prepared(db: Db, now: int): Result<Db> {
    var (reconciled, _) :- Reconcile(db, None, now, false);
    Ok(Enrol(reconciled, now))
  }

  /** Tick: the whole transaction, or an error that leaves the tables alone. */
  function Tick(db: Db, env: TickEnv, now: int): Result<Db> {
    if env.managed && !env.factorOnManaged then Err(Managed)
    else
      var ready :- Prepared(db, now);
      var ds :- DecideAll(Candidates(ready));
      TickDecisions(ready, ds, env, now)
  }
}
