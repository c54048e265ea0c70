/** internal/engine: the operator's commands on a transaction; one that fails leaves the tables as they were. */
module Operators {
  import opened Collections
  import opened Model
  import opened Factor
  import opened PolicyTable
  import opened Store
  import opened Ticking
  import C = Commands
  import R = Reconciling
  import E = Engine

  /** The transaction committed the specified tables, or failed with the specified error and changed nothing. */
  ghost predicate Ran(spec: Result<Db>, before: Db, after: Db, r: Result<()>) {
    match spec
    case Err(e) => r == Err(e) && after == before
    case Ok(db) => r == Ok(()) && after == db
  }

  // One rule --------------------------------------------------------------

  method Enable(tx: Tx, email: string, inbound: Option<int>, factor: string, now: int) returns (r: Result<()>)
    modifies tx
    ensures Ran(C.Enable(old(tx.View()), email, inbound, factor, now), old(tx.View()), tx.View(), r)
  {
    if email == "" { return Err(BadInput); }
    var factorPpm := ParseFactor(factor);
    if factorPpm.Err? { return Err(factorPpm.error); }
    var found := tx.View().FindClient(email, inbound);
    if found.Err? { return Err(found.error); }
    var t := found.value;
    if t !in tx.traffic { return Err(NotFound); }
    if tx.View().RulesOn(t, {Active}) != {} { return Err(Conflict); }
    var row := tx.traffic[t];
    var ruleInbound := if inbound.Some? then inbound.value else row.inboundId;
    var id := tx.CreateRule(Rule(ruleInbound, email, factorPpm.value, Active, now, None));
    tx.CreateRuleClient(Key(id, t), row);
    tx.AddEvent(Some(id), RuleEnabled, Plain, now);
    return Ok(());
  }

  method Transition(tx: Tx, email: string, inbound: Option<int>, from: set<State>, to: State, now: int)
      returns (r: Result<()>)
    modifies tx
    ensures Ran(C.Transition(old(tx.View()), email, inbound, from, to, now), old(tx.View()), tx.View(), r)
  {
    if email == "" { return Err(BadInput); }
    var found := C.FindRule(tx.View(), email, inbound, from);
    if found.Err? { return Err(found.error); }
    tx.SetRuleState(found.value, to, now);
    tx.AddEvent(Some(found.value), C.EndKind(to), Plain, now);
    return Ok(());
  }

  method Resume(tx: Tx, email: string, inbound: Option<int>, now: int) returns (r: Result<()>)
    modifies tx
    ensures Ran(C.Resume(old(tx.View()), email, inbound, now), old(tx.View()), tx.View(), r)
  {
    var before := tx.View();
    if email == "" { return Err(BadInput); }
    var found := C.FindRule(before, email, inbound, {Paused});
    if found.Err? { return Err(found.error); }
    if C.HasConflict(before, found.value) { return Err(Conflict); }
    var count := tx.RefreshRuleClientBaselinesCount(found.value);
    if count == 0 {
      tx.Rollback(before);
      return Err(NotFound);
    }
    tx.SetRuleState(found.value, Active, now);
    tx.AddEvent(Some(found.value), RuleResumed, Plain, now);
    return Ok(());
  }

  // All rules -------------------------------------------------------------

  method BulkTransition(tx: Tx, inbound: Option<int>, from: set<State>, to: State, now: int) returns (r: Result<()>)
    modifies tx
    ensures Ran(C.BulkTransition(old(tx.View()), inbound, from, to, now), old(tx.View()), tx.View(), r)
  {
    var rs := Ascending(C.RuleIds(tx.View(), inbound, from));
    if rs == [] { return Err(NotFound); }
    SetStates(tx, rs, to, now);
    return Ok(());
  }

  method SetStates(tx: Tx, rs: seq<int>, to: State, now: int)
    modifies tx
    ensures tx.View() == C.SetStates(old(tx.View()), rs, to, now)
  {
    ghost var whole := C.SetStates(tx.View(), rs, to, now);
    var left := rs;
    while left != []
      invariant C.SetStates(tx.View(), left, to, now) == whole
      decreases |left|
    {
      tx.SetRuleState(left[0], to, now);
      tx.AddEvent(Some(left[0]), C.EndKind(to), Plain, now);
      left := left[1..];
    }
  }

  method ResumeOne(tx: Tx, rule: int, now: int)
    modifies tx
    ensures tx.View() == C.ResumeOne(old(tx.View()), rule, now)
  {
    var conflict := C.HasConflict(tx.View(), rule);
    if conflict {
      tx.AddEvent(Some(rule), RuleResumed, Plain, now);
      return;
    }
    ghost var before := tx.View();
    var count := tx.RefreshRuleClientBaselinesCount(rule);
    if count == 0 && rule !in tx.scopes {
      NothingRefreshed(before, rule);
      return;
    }
    tx.SetRuleState(rule, Active, now);
    tx.AddEvent(Some(rule), RuleResumed, Plain, now);
  }

  lemma NothingRefreshed(db: Db, r: int)
    requires C.OwnRows(db, r) == {}
    ensures C.RefreshRule(db, r) == db
  {
    forall k | k in db.clients ensures !C.OnOwnRow(db, r, k) {
      if C.OnOwnRow(db, r, k) { OwnRowKey(db, r, k.traffic); }
    }
    assert C.RefreshRule(db, r).clients == db.clients;
  }

  method ResumeAll(tx: Tx, inbound: Option<int>, now: int) returns (r: Result<()>)
    modifies tx
    ensures Ran(C.ResumeAll(old(tx.View()), inbound, now), old(tx.View()), tx.View(), r)
  {
    var rs := Ascending(C.RuleIds(tx.View(), inbound, {Paused}));
    if rs == [] { return Err(NotFound); }
    ResumeEach(tx, rs, now);
    return Ok(());
  }

  method ResumeEach(tx: Tx, rs: seq<int>, now: int)
    modifies tx
    ensures tx.View() == C.ResumeEach(old(tx.View()), rs, now)
  {
    ghost var whole := C.ResumeEach(tx.View(), rs, now);
    var left := rs;
    while left != []
      invariant C.ResumeEach(tx.View(), left, now) == whole
      decreases |left|
    {
      ResumeOne(tx, left[0], now);
      left := left[1..];
    }
  }

  // Policies --------------------------------------------------------------

  method Exclude(tx: Tx, email: string, inbound: int, now: int) returns (r: Result<()>)
    modifies tx
    ensures Ran(C.Exclude(old(tx.View()), email, inbound, now), old(tx.View()), tx.View(), r)
  {
    if email == "" { return Err(BadInput); }
    var found := tx.View().FindClient(email, Some(inbound));
    if found.Err? { return Err(found.error); }
    var t := found.value;
    if t !in tx.traffic { return Err(NotFound); }
    var id := tx.UpsertExclude(t, tx.traffic[t].inboundId, tx.traffic[t].email, now);
    if id.Err? { return Err(id.error); }
    tx.AddEvent(None, ExcludeEnable, OnTraffic(t), now);
    return Ok(());
  }

  method Unexclude(tx: Tx, email: string, inbound: int, now: int) returns (r: Result<()>)
    modifies tx
    ensures Ran(C.Unexclude(old(tx.View()), email, inbound, now), old(tx.View()), tx.View(), r)
  {
    if email == "" { return Err(BadInput); }
    var found := tx.View().FindClient(email, Some(inbound));
    if found.Err? { return Err(found.error); }
    var t := found.value;
    if t !in tx.traffic { return Err(NotFound); }
    var id := FindActiveForClient(tx.excludes, t, email);
    if id.None? { id := FindActiveByEmail(tx.excludes, email); }
    if id.None? { return Err(NotFound); }
    tx.DisableExclude(id.value, now);
    var refreshed := tx.RefreshActiveRuleClientBaselinesForTraffic(t, email);
    tx.AddEvent(None, ExcludeDisable, OnTraffic(t), now);
    return Ok(());
  }

  method Override(tx: Tx, email: string, inbound: int, factor: string, now: int) returns (r: Result<()>)
    modifies tx
    ensures Ran(C.Override(old(tx.View()), email, inbound, factor, now), old(tx.View()), tx.View(), r)
  {
    if email == "" { return Err(BadInput); }
    var factorPpm := ParseFactor(factor);
    if factorPpm.Err? { return Err(factorPpm.error); }
    var found := tx.View().FindClient(email, Some(inbound));
    if found.Err? { return Err(found.error); }
    var t := found.value;
    if t !in tx.traffic { return Err(NotFound); }
    var row := tx.traffic[t];
    var existing := FindForUpsert(tx.overrides, t, row.email);
    var updated := existing.Some? && ActiveRow(tx.overrides, existing.value)
        && tx.overrides[existing.value].factorPpm != factorPpm.value;
    var id := tx.UpsertOverride(t, row.inboundId, row.email, factorPpm.value, now);
    if id.Err? { return Err(id.error); }
    var refreshed := tx.RefreshActiveRuleClientBaselinesForTraffic(t, row.email);
    tx.AddEvent(None, if updated then OverrideUpdate else OverrideEnable, OnTraffic(t), now);
    return Ok(());
  }

  method RemoveOverride(tx: Tx, email: string, inbound: int, now: int) returns (r: Result<()>)
    modifies tx
    ensures Ran(C.RemoveOverride(old(tx.View()), email, inbound, now), old(tx.View()), tx.View(), r)
  {
    if email == "" { return Err(BadInput); }
    var found := tx.View().FindClient(email, Some(inbound));
    if found.Err? { return Err(found.error); }
    var t := found.value;
    if t !in tx.traffic { return Err(NotFound); }
    var id := FindActiveForClient(tx.overrides, t, email);
    if id.None? { id := FindActiveByEmail(tx.overrides, email); }
    if id.None? { return Err(NotFound); }
    tx.DisableOverride(id.value, now);
    var refreshed := tx.RefreshActiveRuleClientBaselinesForTraffic(t, email);
    tx.AddEvent(None, OverrideDisable, OnTraffic(t), now);
    return Ok(());
  }

  // Enable-all ------------------------------------------------------------

  method CreateScope(tx: Tx, bulk: C.Bulk, once: bool, factorPpm: int64, now: int) returns (id: int)
    modifies tx
    ensures id == old(tx.nextRule) && tx.View() == C.CreateScope(old(tx.View()), bulk, once, factorPpm, now)
  {
    id := tx.CreateRule(Rule(if bulk.inbound.Some? then bulk.inbound.value else 0, "", factorPpm, Active, now, None));
    tx.CreateScope(id, Scope(bulk.inbound, bulk.limitedOnly, bulk.includeDisabled, once));
    tx.AddEvent(Some(id), RuleEnabled, Plain, now);
  }

  /** One round of the loop over matching clients; nothing has changed when it fails. */
  method EnableClient(tx: Tx, s: int, t: int, now: int) returns (r: Result<()>)
    requires s in tx.scopes && s in tx.rules
    modifies tx
    ensures Ran(C.EnableClient(old(tx.View()), s, t, now), old(tx.View()), tx.View(), r)
    ensures s in tx.scopes && s in tx.rules
  {
    if t !in tx.traffic || Key(s, t) in tx.clients { return Ok(()); }
    var rs := tx.View().RulesOn(t, {Active, Paused});
    if |rs| > 1 { return Err(Conflict); }
    if rs == {} {
      tx.CreateRuleClient(Key(s, t), tx.traffic[t]);
      return Ok(());
    }
    var rule := Min(rs);
    OnTables(tx.View(), t, rule);
    if rule in tx.scopes {
      tx.AddEvent(Some(s), ScopeSkip, OwnedByScope(t, rule), now);
    } else if !tx.rules[rule].state.Active? {
      tx.AddEvent(Some(rule), RuleSkip, Plain, now);
    } else {
      var adopted := E.AdoptSingleRuleIntoScope(tx, s, rule, t, now);
      if !adopted { tx.AddEvent(Some(rule), RuleSkip, Plain, now); }
    }
    return Ok(());
  }

  lemma OnTables(db: Db, t: int, r: int)
    requires r in db.RulesOn(t, {Active, Paused})
    ensures r in db.rules
  {
  }

  method EnableClients(tx: Tx, s: int, ts: seq<int>, now: int) returns (r: Result<()>)
    requires s in tx.scopes && s in tx.rules
    modifies tx
    ensures match C.EnableClients(old(tx.View()), s, ts, now)
            case Err(e) => r == Err(e)
            case Ok(db) => r == Ok(()) && tx.View() == db
  {
    ghost var whole := C.EnableClients(tx.View(), s, ts, now);
    var left := ts;
    while left != []
      invariant s in tx.scopes && s in tx.rules
      invariant C.EnableClients(tx.View(), s, left, now) == whole
      decreases |left|
    {
      var one := EnableClient(tx, s, left[0], now);
      if one.Err? { return one; }
      left := left[1..];
    }
    return Ok(());
  }

  method EnableAllPersistent(tx: Tx, bulk: C.Bulk, factorPpm: int64, ts: seq<int>, now: int) returns (r: Result<()>)
    requires forall s :: s in tx.scopes ==> s in tx.rules
    modifies tx
    ensures match C.EnablePersistent(old(tx.View()), bulk, factorPpm, ts, now)
            case Err(e) => r == Err(e)
            case Ok(db) => r == Ok(()) && tx.View() == db
  {
    var scope := C.FindScope(tx.View(), bulk, factorPpm);
    var s: int;
    if scope.Some? {
      s := scope.value;
    } else {
      s := CreateScope(tx, bulk, false, factorPpm, now);
    }
    r := EnableClients(tx, s, ts, now);
  }

  /** The clients that no active or paused rule targets. */
  method SnapshotTargets(db: Db, ts: seq<int>) returns (r: Result<seq<int>>)
    ensures r == C.SnapshotTargets(db, ts)
  {
    ghost var whole := C.SnapshotTargets(db, ts);
    var targets, left := [], ts;
    assert whole.Ok? ==> [] + whole.value == whole.value;
    while left != []
      invariant SnapshotLeft(whole, targets, C.SnapshotTargets(db, left))
      decreases |left|
    {
      var rs := db.RulesOn(left[0], {Active, Paused});
      if |rs| > 1 { return Err(Conflict); }
      SnapshotStep(db, whole, targets, left);
      targets := targets + if rs == {} then [left[0]] else [];
      left := left[1..];
    }
    assert targets + [] == targets;
    return Ok(targets);
  }

  ghost predicate SnapshotLeft(whole: Result<seq<int>>, done: seq<int>, rest: Result<seq<int>>) {
    match rest
    case Err(e) => whole == Err(e)
    case Ok(more) => whole == Ok(done + more)
  }

  lemma SnapshotStep(db: Db, whole: Result<seq<int>>, done: seq<int>, left: seq<int>)
    requires left != [] && SnapshotLeft(whole, done, C.SnapshotTargets(db, left))
             && |db.RulesOn(left[0], {Active, Paused})| <= 1
    ensures var taken := if db.RulesOn(left[0], {Active, Paused}) == {} then [left[0]] else [];
            SnapshotLeft(whole, done + taken, C.SnapshotTargets(db, left[1..]))
  {
    var taken := if db.RulesOn(left[0], {Active, Paused}) == {} then [left[0]] else [];
    var rest := C.SnapshotTargets(db, left[1..]);
    if rest.Ok? { assert done + (taken + rest.value) == done + taken + rest.value; }
  }

  method EnableAllSnapshot(tx: Tx, bulk: C.Bulk, factorPpm: int64, ts: seq<int>, now: int) returns (r: Result<()>)
    modifies tx
    ensures Ran(C.EnableSnapshot(old(tx.View()), bulk, factorPpm, ts, now), old(tx.View()), tx.View(), r)
  {
    var targets := SnapshotTargets(tx.View(), ts);
    if targets.Err? { return Err(targets.error); }
    if targets.value == [] { return Ok(()); }
    var s := CreateScope(tx, bulk, true, factorPpm, now);
    ghost var whole := C.PutFresh(tx.View(), s, targets.value);
    var left := targets.value;
    while left != []
      invariant C.PutFresh(tx.View(), s, left) == whole
      decreases |left|
    {
      if left[0] in tx.traffic { tx.CreateRuleClient(Key(s, left[0]), tx.traffic[left[0]]); }
      left := left[1..];
    }
    return Ok(());
  }

  method EnableAll(tx: Tx, bulk: C.Bulk, once: bool, factor: string, now: int) returns (r: Result<()>)
    requires forall s :: s in tx.scopes ==> s in tx.rules
    modifies tx
    ensures Ran(C.EnableAll(old(tx.View()), bulk, once, factor, now), old(tx.View()), tx.View(), r)
  {
    var before := tx.View();
    var factorPpm := ParseFactor(factor);
    if factorPpm.Err? { return Err(factorPpm.error); }
    var ts := ClientCandidates(before, bulk.inbound, bulk.limitedOnly, bulk.includeDisabled);
    if ts == [] { return Err(NotFound); }
    if once {
      r := EnableAllSnapshot(tx, bulk, factorPpm.value, ts, now);
      return;
    }
    r := EnableAllPersistent(tx, bulk, factorPpm.value, ts, now);
    if r.Err? {
      tx.Rollback(before);
      return;
    }
    var report := E.ReconcileTx(tx, bulk.inbound, now, false);
    if report.Err? {
      tx.Rollback(before);
      return Err(report.error);
    }
    return Ok(());
  }
}
