/** The operator commands of internal/engine, as functions of the tables; an error leaves the tables as they were. */
module Commands {
  import opened Collections
  import opened Model
  import opened Factor
  import opened Accounting
  import opened PolicyTable
  import opened Reconciling
  import opened Ticking

  // Single-user rules -----------------------------------------------------

  function Created(db: Db, rule: Rule): Db {
    db.(rules := db.rules[db.nextRule := rule], nextRule := db.nextRule + 1)
  }

  function Enable(db: Db, email: string, inbound: Option<int>, factor: string, now: int): Result<Db> {
    if email == "" then Err(BadInput) else
    var factorPpm :- ParseFactor(factor);
    var t :- db.FindClient(email, inbound);
    if t !in db.traffic then Err(NotFound)
    else if db.RulesOn(t, {Active}) != {} then Err(Conflict)
    else
      var row, id := db.traffic[t], db.nextRule;
      var ruleInbound := if inbound.Some? then inbound.value else row.inboundId;
      Ok(Created(db, Rule(ruleInbound, email, factorPpm, Active, now, None))
           .PutClient(Key(id, t), FreshClient(row)).Log(Some(id), RuleEnabled, Plain, now))
  }

  function SelectedRules(db: Db, email: string, inbound: Option<int>, states: set<State>): set<int> {
    set r | r in db.rules && db.rules[r].email == email && db.rules[r].state in states
        && (inbound.Some? ==> db.rules[r].inboundId == inbound.value)
  }

  /** FindRuleBySelector: exactly one rule must match. */
  function FindRule(db: Db, email: string, inbound: Option<int>, states: set<State>): Result<int> {
    var rs := SelectedRules(db, email, inbound, states);
    if rs == {} then Err(NotFound) else if |rs| == 1 then Ok(Min(rs)) else Err(Ambiguous)
  }

  function EndKind(to: State): EventKind {
    if to.Paused? then RulePaused else RuleDisabled
  }

  function Transition(db: Db, email: string, inbound: Option<int>, from: set<State>, to: State, now: int): Result<Db> {
    if email == "" then Err(BadInput) else
    var r :- FindRule(db, email, inbound, from);
    Ok(db.SetState(r, to, now).Log(Some(r), EndKind(to), Plain, now))
  }

  function Pause(db: Db, email: string, inbound: Option<int>, now: int): Result<Db> {
    Transition(db, email, inbound, {Active}, Paused, now)
  }

  function Disable(db: Db, email: string, inbound: Option<int>, now: int): Result<Db> {
    Transition(db, email, inbound, {Active, Paused}, Disabled, now)
  }

  /** ActiveConflictForRule: another active rule has a client on one of the rule's rows. */
  predicate HasConflict(db: Db, r: int) {
    exists k :: k in db.clients && k.rule == r && OtherOwners(db, k.traffic, r) != {}
  }

  predicate OnOwnRow(db: Db, r: int, k: Key) {
    k in db.clients && k.rule == r && k.traffic in db.traffic && db.traffic[k.traffic].email == db.clients[k].email
  }

  function OwnRows(db: Db, r: int): set<int> {
    set k | k in db.clients && OnOwnRow(db, r, k) :: k.traffic
  }

  /** RefreshRuleClientBaselines: every client whose row still has its email starts again from the counters. */
  function RefreshRule(db: Db, r: int): Db {
    db.(clients := map k | k in db.clients :: if OnOwnRow(db, r, k) then
                                                Rebased(db.clients[k], db.traffic[k.traffic], 0, 0) else db.clients[k])
  }

  function Resume(db: Db, email: string, inbound: Option<int>, now: int): Result<Db> {
    if email == "" then Err(BadInput) else
    var r :- FindRule(db, email, inbound, {Paused});
    if HasConflict(db, r) then Err(Conflict)
    else if OwnRows(db, r) == {} then Err(NotFound)
    else Ok(RefreshRule(db, r).SetState(r, Active, now).Log(Some(r), RuleResumed, Plain, now))
  }

  // All rules -------------------------------------------------------------

  function RuleIds(db: Db, inbound: Option<int>, states: set<State>): set<int> {
    set r | r in db.rules && db.rules[r].state in states && (inbound.Some? ==> db.rules[r].inboundId == inbound.value)
  }

  function SetStates(db: Db, rs: seq<int>, to: State, now: int): Db
    decreases |rs|
  {
    if rs == [] then db else SetStates(db.SetState(rs[0], to, now).Log(Some(rs[0]), EndKind(to), Plain, now), rs[1..],
                             to, now)
  }

  function BulkTransition(db: Db, inbound: Option<int>, from: set<State>, to: State, now: int): Result<Db> {
    var rs := Ascending(RuleIds(db, inbound, from));
    if rs == [] then Err(NotFound) else Ok(SetStates(db, rs, to, now))
  }

  function PauseAll(db: Db, inbound: Option<int>, now: int): Result<Db> {
    BulkTransition(db, inbound, {Active}, Paused, now)
  }

  function DisableAll(db: Db, inbound: Option<int>, now: int): Result<Db> {
    BulkTransition(db, inbound, {Active, Paused}, Disabled, now)
  }

  /** One round of ResumeAll; a scope is resumed even when no client of it is found. */
  function ResumeOne(db: Db, r: int, now: int): Db {
    if HasConflict(db, r) then db.Log(Some(r), RuleResumed, Plain, now)
    else if OwnRows(db, r) == {} && r !in db.scopes then db
    else RefreshRule(db, r).SetState(r, Active, now).Log(Some(r), RuleResumed, Plain, now)
  }

  function ResumeEach(db: Db, rs: seq<int>, now: int): Db
    decreases |rs|
  {
    if rs == [] then db else ResumeEach(ResumeOne(db, rs[0], now), rs[1..], now)
  }

  function ResumeAll(db: Db, inbound: Option<int>, now: int): Result<Db> {
    var rs := Ascending(RuleIds(db, inbound, {Paused}));
    if rs == [] then Err(NotFound) else Ok(ResumeEach(db, rs, now))
  }

  // Policies --------------------------------------------------------------

  predicate ActiveOnRow(db: Db, k: Key, t: int, email: string) {
    k in db.clients && k.traffic == t && db.clients[k].email == email && db.Active(k.rule)
  }

  /** RefreshActiveRuleClientBaselinesForTraffic; a row that is gone or renamed is not refreshed. */
  function RefreshRow(db: Db, t: int, email: string): Db {
    if t !in db.traffic || db.traffic[t].email != email then db
    else db.(clients := map k | k in db.clients :: if ActiveOnRow(db, k, t, email) then
                                                     Rebased(db.clients[k], db.traffic[t], 0, 0) else db.clients[k])
  }

  function Exclude(db: Db, email: string, inbound: int, now: int): Result<Db> {
    if email == "" then Err(BadInput) else
    var t :- db.FindClient(email, Some(inbound));
    if t !in db.traffic then Err(NotFound)
    else
      var (table, next, _) :- Upsert(db.excludes, db.nextExclude, t, db.traffic[t].inboundId, db.traffic[t].email, 0,
          now);
      Ok(db.(excludes := table, nextExclude := next).Log(None, ExcludeEnable, OnTraffic(t), now))
  }

  /** The active policy of the client, or of its email on a replaced row. */
  function PolicyOf(table: Table, t: int, email: string): Option<int> {
    var own := FindActiveForClient(table, t, email);
    if own.Some? then own else FindActiveByEmail(table, email)
  }

  function Unexclude(db: Db, email: string, inbound: int, now: int): Result<Db> {
    if email == "" then Err(BadInput) else
    var t :- db.FindClient(email, Some(inbound));
    if t !in db.traffic then Err(NotFound)
    else
      var found := PolicyOf(db.excludes, t, email);
      if found.None? then Err(NotFound)
      else
        Ok(RefreshRow(db.(excludes := PolicyTable.Disable(db.excludes, found.value, now)), t, email)
             .Log(None, ExcludeDisable, OnTraffic(t), now))
  }

  function Override(db: Db, email: string, inbound: int, factor: string, now: int): Result<Db> {
    if email == "" then Err(BadInput) else
    var factorPpm :- ParseFactor(factor);
    var t :- db.FindClient(email, Some(inbound));
    if t !in db.traffic then Err(NotFound)
    else
      var found := FindForUpsert(db.overrides, t, db.traffic[t].email);
      var updated := found.Some? && ActiveRow(db.overrides, found.value)
          && db.overrides[found.value].factorPpm != factorPpm;
      var (table, next, _) :- Upsert(db.overrides, db.nextOverride, t, db.traffic[t].inboundId, db.traffic[t].email,
          factorPpm, now);
      Ok(RefreshRow(db.(overrides := table, nextOverride := next), t, db.traffic[t].email)
           .Log(None, if updated then OverrideUpdate else OverrideEnable, OnTraffic(t), now))
  }

  function RemoveOverride(db: Db, email: string, inbound: int, now: int): Result<Db> {
    if email == "" then Err(BadInput) else
    var t :- db.FindClient(email, Some(inbound));
    if t !in db.traffic then Err(NotFound)
    else
      var found := PolicyOf(db.overrides, t, email);
      if found.None? then Err(NotFound)
      else
        Ok(RefreshRow(db.(overrides := PolicyTable.Disable(db.overrides, found.value, now)), t, email)
             .Log(None, OverrideDisable, OnTraffic(t), now))
  }

  // Bulk enabling ---------------------------------------------------------

  datatype Bulk = Bulk(inbound: Option<int>, limitedOnly: bool, includeDisabled: bool)

  /** adoptSingleRuleIntoScope, with whether it adopted. */
  function Adopt(db: Db, s: int, r: int, t: int, now: int): (Db, bool) {
    if s !in db.scopes || s !in db.rules || r !in db.rules || t !in db.traffic then (db, false)
    else if db.rules[r].factorPpm != db.rules[s].factorPpm then (db, false)
    else if db.scopes[s].limitedOnly && db.traffic[t].total <= 0 then (db, false)
    else if !db.scopes[s].includeDisabled && !db.traffic[t].enable then (db, false)
    else if |db.ClientsOf(r)| != 1 || Key(r, t) !in db.clients then (db, false)
    else if db.clients[Key(r, t)].missingAt.Some? || db.clients[Key(r, t)].email != db.traffic[t].email then
      (db.MarkMissing(Key(r, t), now).Log(Some(r), ClientMissing, OnTraffic(t), now), false)
    else if db.ScopeOn(t, s) then (db, false)
    else (JoinScope(db, s, r, t, now), true)
  }

  predicate SameScope(db: Db, s: int, bulk: Bulk, factorPpm: int64) {
    && s in db.scopes && db.Active(s)
    && db.rules[s].factorPpm == factorPpm
    && db.scopes[s] == Scope(bulk.inbound, bulk.limitedOnly, bulk.includeDisabled, false)
  }

  /** FindActivePersistentScope. */
  function FindScope(db: Db, bulk: Bulk, factorPpm: int64): Option<int> {
    var ss := set s | s in db.scopes && SameScope(db, s, bulk, factorPpm);
    if ss == {} then None else Some(Min(ss))
  }

  function CreateScope(db: Db, bulk: Bulk, once: bool, factorPpm: int64, now: int): Db {
    var id := db.nextRule;
    Created(db, Rule(if bulk.inbound.Some? then bulk.inbound.value else 0, "", factorPpm, Active, now, None))
      .(scopes := db.scopes[id := Scope(bulk.inbound, bulk.limitedOnly, bulk.includeDisabled, once)])
      .Log(Some(id), RuleEnabled, Plain, now)
  }

  /** One round of enableAllPersistent. */
  function EnableClient(db: Db, s: int, t: int, now: int): Result<Db> {
    if t !in db.traffic || Key(s, t) in db.clients then Ok(db)
    else
      var rs := db.RulesOn(t, {Active, Paused});
      if |rs| > 1 then Err(Conflict)
      else if rs == {} then Ok(db.PutClient(Key(s, t), FreshClient(db.traffic[t])))
      else
        var r := Min(rs);
        if r in db.scopes then Ok(db.Log(Some(s), ScopeSkip, OwnedByScope(t, r), now))
        else if !db.Active(r) then Ok(db.Log(Some(r), RuleSkip, Plain, now))
        else
          var (after, adopted) := Adopt(db, s, r, t, now);
          Ok(if adopted then after else after.Log(Some(r), RuleSkip, Plain, now))
  }

  function EnableClients(db: Db, s: int, ts: seq<int>, now: int): Result<Db>
    decreases |ts|
  {
    if ts == [] then Ok(db)
    else
      var first :- EnableClient(db, s, ts[0], now);
      EnableClients(first, s, ts[1..], now)
  }

  function EnablePersistent(db: Db, bulk: Bulk, factorPpm: int64, ts: seq<int>, now: int): Result<Db> {
    match FindScope(db, bulk, factorPpm)
    case Some(s) => EnableClients(db, s, ts, now)
    case None => EnableClients(CreateScope(db, bulk, false, factorPpm, now), db.nextRule, ts, now)
  }

  /** The clients a snapshot takes: those no active or paused rule targets. */
  function SnapshotTargets(db: Db, ts: seq<int>): Result<seq<int>> {
    if ts == [] then Ok([])
    else
      var rs := db.RulesOn(ts[0], {Active, Paused});
      if |rs| > 1 then Err(Conflict)
      else
        var rest :- SnapshotTargets(db, ts[1..]);
        Ok((if rs == {} then [ts[0]] else []) + rest)
  }

  function PutFresh(db: Db, s: int, ts: seq<int>): Db
    decreases |ts|
  {
    if ts == [] then db
    else if ts[0] !in db.traffic then PutFresh(db, s, ts[1..])
    else PutFresh(db.PutClient(Key(s, ts[0]), FreshClient(db.traffic[ts[0]])), s, ts[1..])
  }

  function EnableSnapshot(db: Db, bulk: Bulk, factorPpm: int64, ts: seq<int>, now: int): Result<Db> {
    var targets :- SnapshotTargets(db, ts);
    Ok(if targets == [] then db else PutFresh(CreateScope(db, bulk, true, factorPpm, now), db.nextRule, targets))
  }

  function EnableAll(db: Db, bulk: Bulk, once: bool, factor: string, now: int): Result<Db> {
    var factorPpm :- ParseFactor(factor);
    var ts := ClientCandidates(db, bulk.inbound, bulk.limitedOnly, bulk.includeDisabled);
    if ts == [] then Err(NotFound)
    else if once then EnableSnapshot(db, bulk, factorPpm, ts, now)
    else
      var enabled :- EnablePersistent(db, bulk, factorPpm, ts, now);
      var (after, _) :- Reconcile(enabled, bulk.inbound, now, false);
      Ok(after)
  }
}
