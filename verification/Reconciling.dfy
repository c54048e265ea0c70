/**
 * internal/engine/reconcile.go: what one reconcile does to the active single-user rules, as functions of the tables.
 */
module Reconciling {
  import opened Collections
  import opened Model
  import opened PolicyTable
  import opened Baselines

  datatype Counts = Counts(reconciled: nat, orphaned: nat, disabledClients: nat, superseded: nat, conflicts: nat)

  function Add(a: Counts, b: Counts): Counts {
    Counts(a.reconciled + b.reconciled, a.orphaned + b.orphaned, a.disabledClients + b.disabledClients,
           a.superseded + b.superseded, a.conflicts + b.conflicts)
  }

  const NO_COUNTS := Counts(0, 0, 0, 0, 0)

  /** Where the client of a single-user rule is to be found. */
  datatype Place =
    | NoClient
    | ManyClients
    | Gone(t: int)
    | Renamed(t: int)
    | Follow(t: int, row: int)
    | Here(t: int)

  function PlaceOf(db: Db, r: int): Place {
    var ts := db.ClientsOf(r);
    if ts == {} then NoClient
    else if |ts| != 1 then ManyClients
    else
      var t := Min(ts);
      var email := db.clients[Key(r, t)].email;
      if t !in db.traffic then
        match db.RowByEmail(email)
        case None => Gone(t)
        case Some(row) => Follow(t, row)
      else if db.traffic[t].email != email then Renamed(t)
      else Here(t)
  }

  function RowOf(place: Place): Option<int> {
    match place
    case Follow(_, row) => Some(row)
    case Here(t) => Some(t)
    case _ => None
  }

  predicate ScopeAdmits(db: Db, s: int, r: int, t: int) {
    && s in db.scopes && s in db.rules && r in db.rules && t in db.traffic
    && !db.scopes[s].once
    && db.rules[r].factorPpm == db.rules[s].factorPpm
    && (db.scopes[s].inboundId.Some? ==> db.IsMember(db.traffic[t].email, db.scopes[s].inboundId.value))
    && (db.scopes[s].limitedOnly ==> db.traffic[t].total > 0)
    && (db.scopes[s].includeDisabled || db.traffic[t].enable)
  }

  /** The first listed scope that admits the client while no other active scope owns its row. */
  function CompatibleScope(db: Db, scopes: seq<int>, r: int, t: int): Option<int> {
    if scopes == [] then None
    else if scopes[0] != r && ScopeAdmits(db, scopes[0], r, t) && !db.ScopeOn(t, scopes[0]) then Some(scopes[0])
    else CompatibleScope(db, scopes[1..], r, t)
  }

  datatype Verdict = Join(scope: int) | OrphanDisabled | OrphanOwned | Stay

  function VerdictOn(db: Db, scopes: seq<int>, r: int, t: int): Verdict
    requires t in db.traffic
  {
    match CompatibleScope(db, scopes, r, t)
    case Some(s) => Join(s)
    case None =>
      if !db.traffic[t].enable then OrphanDisabled
      else if db.ScopeOn(t, r) then OrphanOwned
      else Stay
  }

  function Orphan(db: Db, r: int, now: int): Db {
    db.SetState(r, Orphaned, now).Log(Some(r), RuleReconcile, Plain, now)
  }

  /** markRuleClientMissing. */
  function NoteMissing(db: Db, k: Key, now: int): Db {
    if k !in db.clients || db.clients[k].missingAt.Some? then db
    else db.MarkMissing(k, now).Log(Some(k.rule), ClientMissing, OnTraffic(k.traffic), now)
  }

  /** The client relinked, revived or moved to its row's inbound. */
  function Placed(db: Db, r: int, place: Place, now: int): Db {
    match place
    case Follow(t, row) =>
      if row !in db.traffic then db
      else db.(clients := Moved(db.clients, Key(r, t), Key(r, row), FreshClient(db.traffic[row])))
             .Log(Some(r), ClientRelinked, OnTraffic(row), now)
    case Here(t) =>
      if t !in db.traffic || Key(r, t) !in db.clients then db
      else
        var row, k := db.traffic[t], Key(r, t);
        var revived := if db.clients[k].missingAt.None? then db
                       else db.Rebase(k, row.up, row.down, 0, 0).Log(Some(r), ClientReset, OnTraffic(t), now);
        if row.inboundId == db.clients[k].inboundId then revived else revived.AdoptInbound(k, row.inboundId)
    case _ => db
  }

  /** CopyRuleClient, unless the scope already has the client, and the merge of the rule. */
  function JoinScope(db: Db, s: int, r: int, t: int, now: int): Db {
    if Key(s, t) in db.clients || Key(r, t) !in db.clients then
      db.SetState(r, Merged, now).Log(Some(r), RuleMerged, Plain, now)
    else
      db.PutClient(Key(s, t), db.clients[Key(r, t)]).SetState(r, Merged, now)
        .Log(Some(s), ClientAdopted, OnTraffic(t), now).Log(Some(r), RuleMerged, Plain, now)
  }

  /** The end of reconcileSingleRule, on tables where the client is in place. */
  function Conclude(db: Db, scopes: seq<int>, r: int, t: int, repaired: bool, now: int, dryRun: bool): (Db, Counts)
    requires t in db.traffic
  {
    match VerdictOn(db, scopes, r, t)
    case Join(s) => (if dryRun then db else JoinScope(db, s, r, t, now), Counts(1, 0, 0, 1, 0))
    case OrphanDisabled => (if dryRun then db else Orphan(db, r, now), Counts(1, 1, 1, 0, 0))
    case OrphanOwned => (if dryRun then db else Orphan(db, r, now), Counts(1, 1, 0, 0, 1))
    case Stay => (db, Counts(if repaired then 1 else 0, 0, 0, 0, 0))
  }

  predicate MissingHere(db: Db, r: int, t: int) {
    Key(r, t) in db.clients && db.clients[Key(r, t)].missingAt.Some?
  }

  function SingleRule(db: Db, scopes: seq<int>, r: int, now: int, dryRun: bool): (Db, Counts) {
    match PlaceOf(db, r)
    case NoClient => (if dryRun then db else Orphan(db, r, now), Counts(1, 1, 0, 0, 0))
    case ManyClients => (if dryRun then db else Orphan(db, r, now), Counts(1, 1, 0, 0, 1))
    case Gone(t) => (if dryRun then db else Orphan(NoteMissing(db, Key(r, t), now), r, now), Counts(1, 1, 0, 0, 0))
    case Renamed(t) => (if dryRun then db else Orphan(NoteMissing(db, Key(r, t), now), r, now), Counts(1, 1, 0, 0, 0))
    case Follow(t, row) =>
      if dryRun || row !in db.traffic then (db, Counts(1, 0, 0, 0, 0))
      else Conclude(Placed(db, r, Follow(t, row), now), scopes, r, row, true, now, false)
    case Here(t) =>
      if t !in db.traffic || (dryRun && MissingHere(db, r, t)) then (db, Counts(1, 0, 0, 0, 0))
      else Conclude(if dryRun then db else
                                     Placed(db, r, Here(t), now), scopes, r, t, MissingHere(db, r, t), now, dryRun)
  }

  function SingleRules(db: Db, scopes: seq<int>, rules: seq<int>, now: int, dryRun: bool): (Db, Counts)
    decreases |rules|
  {
    if rules == [] then (db, NO_COUNTS)
    else
      var (db1, first) := SingleRule(db, scopes, rules[0], now, dryRun);
      var (db2, rest) := SingleRules(db1, scopes, rules[1..], now, dryRun);
      (db2, Add(first, rest))
  }

  // Listings --------------------------------------------------------------

  function SingleIds(db: Db, inbound: Option<int>): set<int> {
    set r | r in db.rules && db.Active(r) && r !in db.scopes
        && (inbound.Some? ==> db.rules[r].inboundId == inbound.value)
  }

  function PersistentIds(db: Db): set<int> {
    set s | s in db.scopes && db.Active(s) && !db.scopes[s].once
  }

  function ListSingles(db: Db, inbound: Option<int>): seq<int> {
    Ascending(SingleIds(db, inbound))
  }

  function ListPersistentScopes(db: Db): seq<int> {
    Ascending(PersistentIds(db))
  }

  /** The rules half of ReconcileTx. */
  function Rules(db: Db, inbound: Option<int>, now: int, dryRun: bool): (Db, Counts) {
    SingleRules(db, ListPersistentScopes(db), ListSingles(db, inbound), now, dryRun)
  }

  /** The policies half. */
  function Policies(db: Db, inbound: Option<int>, now: int, dryRun: bool): Db {
    if dryRun then db
    else
      db.(excludes := FollowAll(db, db.excludes, db.excludes, ListActive(db.excludes), inbound, now),
          overrides := FollowAll(db, db.overrides, db.overrides, ListActive(db.overrides), inbound, now))
  }

  datatype Report = Report(checked: nat, counts: Counts, policiesRepaired: nat)

  function Repairs(db: Db, inbound: Option<int>): nat {
    RepairCount(db, db.excludes, ListActive(db.excludes), inbound) + RepairCount(db, db.overrides,
        ListActive(db.overrides), inbound)
  }

  /** ReconcileTx. */
  function Reconcile(db: Db, inbound: Option<int>, now: int, dryRun: bool): Result<(Db, Report)> {
    if now <= 0 then Err(BadInput)
    else
      var (db1, counts) := Rules(db, inbound, now, dryRun);
      Ok((Policies(db1, inbound, now, dryRun), Report(|ListSingles(db, inbound)|, counts, Repairs(db1, inbound))))
  }
}
