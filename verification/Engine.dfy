/**
 * internal/engine/reconcile.go, on a transaction: each loop proved against the function of the tables that it
 * computes.
 */
module Engine {
  import opened Collections
  import opened Model
  import opened PolicyTable
  import opened Baselines
  import opened Reconciling
  import opened ReconcileProofs
  import opened ReconcileTheorems
  import opened Store
  import C = Commands

  // One rule --------------------------------------------------------------

  method OrphanRule(tx: Tx, r: int, now: int, dryRun: bool) returns (counts: Counts)
    modifies tx
    ensures tx.View() == if dryRun then old(tx.View()) else Orphan(old(tx.View()), r, now)
    ensures counts == Counts(1, 1, 0, 0, 0)
  {
    if !dryRun {
      tx.SetRuleState(r, Orphaned, now);
      tx.AddEvent(Some(r), RuleReconcile, Plain, now);
    }
    return Counts(1, 1, 0, 0, 0);
  }

  method MarkRuleClientMissing(tx: Tx, k: Key, now: int, dryRun: bool)
    requires k in tx.clients
    modifies tx
    ensures tx.View() == if dryRun then old(tx.View()) else NoteMissing(old(tx.View()), k, now)
  {
    if tx.clients[k].missingAt.Some? || dryRun { return; }
    tx.MarkRuleClientMissing(k, now);
    tx.AddEvent(Some(k.rule), ClientMissing, OnTraffic(k.traffic), now);
  }

  method ScopeMatchesClient(db: Db, s: int, r: int, t: int) returns (matches: bool)
    requires s in db.scopes && s in db.rules && r in db.rules && t in db.traffic
    ensures matches == ScopeAdmits(db, s, r, t)
  {
    var scope, client := db.scopes[s], db.traffic[t];
    if scope.once { return false; }
    if db.rules[r].factorPpm != db.rules[s].factorPpm { return false; }
    if scope.inboundId.Some? {
      var member := db.IsMember(client.email, scope.inboundId.value);
      if !member { return false; }
    }
    if scope.limitedOnly && client.total <= 0 { return false; }
    if !scope.includeDisabled && !client.enable { return false; }
    return true;
  }

  method CompatibleScopeForClient(db: Db, scopes: seq<int>, r: int, t: int) returns (found: Option<int>)
    requires r in db.rules && t in db.traffic && forall s :: s in scopes ==> s in db.scopes && s in db.rules
    ensures found == CompatibleScope(db, scopes, r, t)
  {
    var i := 0;
    while i < |scopes|
      invariant 0 <= i <= |scopes|
      invariant CompatibleScope(db, scopes[i..], r, t) == CompatibleScope(db, scopes, r, t)
    {
      var s := scopes[i];
      assert s in scopes && scopes[i..][1..] == scopes[i + 1..];
      if s != r {
        var matches := ScopeMatchesClient(db, s, r, t);
        if matches && !db.ScopeOn(t, s) { return Some(s); }
      }
      i := i + 1;
    }
    return None;
  }

  method AdoptSingleRuleIntoScope(tx: Tx, s: int, r: int, t: int, now: int) returns (adopted: bool)
    requires s in tx.scopes && s in tx.rules && r in tx.rules && t in tx.traffic && Key(s, t) !in tx.clients
    modifies tx
    ensures (tx.View(), adopted) == C.Adopt(old(tx.View()), s, r, t, now)
  {
    var scope, client := tx.scopes[s], tx.traffic[t];
    if tx.rules[r].factorPpm != tx.rules[s].factorPpm { return false; }
    if scope.limitedOnly && client.total <= 0 { return false; }
    if !scope.includeDisabled && !client.enable { return false; }
    if |tx.View().ClientsOf(r)| != 1 || Key(r, t) !in tx.clients { return false; }
    var rc := tx.clients[Key(r, t)];
    if rc.missingAt.Some? || rc.email != client.email {
      tx.MarkRuleClientMissing(Key(r, t), now);
      tx.AddEvent(Some(r), ClientMissing, OnTraffic(t), now);
      return false;
    }
    var owned := tx.View().ScopeOn(t, s);
    if owned { return false; }
    tx.CopyRuleClient(Key(r, t), Key(s, t));
    tx.SetRuleState(r, Merged, now);
    tx.AddEvent(Some(s), ClientAdopted, OnTraffic(t), now);
    tx.AddEvent(Some(r), RuleMerged, Plain, now);
    return true;
  }

  /** A seated rule whose row a listed scope admits is always adopted. */
  lemma SeatedIsAdopted(db: Db, s: int, r: int, t: int, now: int)
    requires Seated(db, r, t) && ScopeAdmits(db, s, r, t) && !db.ScopeOn(t, s) && Key(s, t) !in db.clients
    ensures C.Adopt(db, s, r, t, now) == (JoinScope(db, s, r, t, now), true)
  {
    assert t in db.ClientsOf(r) by { assert Key(r, t) in db.clients; }
    assert db.ClientsOf(r) == {t};
  }

  method AdoptOrSupersede(tx: Tx, s: int, r: int, t: int, now: int, dryRun: bool)
    requires s != r && ScopeAdmits(tx.View(), s, r, t) && !tx.View().ScopeOn(t, s)
             && (!dryRun ==> Seated(tx.View(), r, t))
    modifies tx
    ensures tx.View() == if dryRun then old(tx.View()) else JoinScope(old(tx.View()), s, r, t, now)
  {
    var enrolled := Key(s, t) in tx.clients;
    if dryRun { return; }
    if enrolled {
      tx.SetRuleState(r, Merged, now);
      tx.AddEvent(Some(r), RuleMerged, Plain, now);
    } else {
      SeatedIsAdopted(tx.View(), s, r, t, now);
      var adopted := AdoptSingleRuleIntoScope(tx, s, r, t, now);
    }
  }

  /** The second half of reconcileSingleRule, once the client is in place. */
  method ConcludeRule(tx: Tx, scopes: seq<int>, r: int, t: int, repaired: bool, now: int, dryRun: bool)
      returns (counts: Counts)
    requires t in tx.traffic && r in tx.rules && ScopesListed(tx.View(), scopes)
             && (!dryRun ==> Seated(tx.View(), r, t))
    modifies tx
    ensures (tx.View(), counts) == Conclude(old(tx.View()), scopes, r, t, repaired, now, dryRun)
  {
    var scope := CompatibleScopeForClient(tx.View(), scopes, r, t);
    if scope.Some? {
      CompatibleFacts(tx.View(), scopes, r, t);
      AdoptOrSupersede(tx, scope.value, r, t, now, dryRun);
      return Counts(1, 0, 0, 1, 0);
    }
    var owned := tx.View().ScopeOn(t, r);
    if !tx.traffic[t].enable {
      counts := OrphanRule(tx, r, now, dryRun);
      return counts.(disabledClients := 1);
    }
    if owned {
      counts := OrphanRule(tx, r, now, dryRun);
      return counts.(conflicts := 1);
    }
    return if repaired then Counts(1, 0, 0, 0, 0) else NO_COUNTS;
  }

  /** The client moves to the replacement row, is revived there if it was missing, and adopts the row's inbound. */
  method PlaceClient(tx: Tx, r: int, t: int, now: int) returns (repaired: bool)
    requires PlaceOf(tx.View(), r) == Here(t) && t in tx.traffic && Key(r, t) in tx.clients
    modifies tx
    ensures tx.View() == Placed(old(tx.View()), r, Here(t), now) && repaired == MissingHere(old(tx.View()), r, t)
  {
    var current, rc := tx.traffic[t], tx.clients[Key(r, t)];
    repaired := rc.missingAt.Some?;
    if repaired {
      tx.UpdateRuleClientBaseline(Key(r, t), current.up, current.down, 0, 0);
      tx.AddEvent(Some(r), ClientReset, OnTraffic(t), now);
    }
    if current.inboundId != rc.inboundId {
      tx.AdoptRuleClientInbound(Key(r, t), current.inboundId);
    }
  }

  lemma RelinkedIsPlaced(db: Db, r: int, t: int, row: int)
    requires PlaceOf(db, r) == Follow(t, row)
    ensures Key(r, t) in db.clients && db.RowByEmail(db.clients[Key(r, t)].email) == Some(row) && row in db.traffic
            && Key(r, row) !in db.clients
    ensures FreshClient(db.traffic[row]).(email := db.clients[Key(r, t)].email) == FreshClient(db.traffic[row])
  {
    SoleClient(db, r);
    var ts := db.ClientsOf(r);
    assert t == Min(ts);
  }

  method FollowRow(tx: Tx, scopes: seq<int>, r: int, t: int, row: int, now: int, dryRun: bool) returns (counts: Counts)
    requires PlaceOf(tx.View(), r) == Follow(t, row) && IsSingle(tx.View(), r) && ScopesListed(tx.View(), scopes)
    modifies tx
    ensures (tx.View(), counts) == SingleRule(old(tx.View()), scopes, r, now, dryRun)
  {
    RelinkedIsPlaced(tx.View(), r, t, row);
    if dryRun { return Counts(1, 0, 0, 0, 0); }
    FollowedFacts(tx.View(), r, t, row, now);
    var relinked := tx.RelinkRuleClientByEmail(r, t);
    tx.AddEvent(Some(r), ClientRelinked, OnTraffic(row), now);
    assert tx.View() == Placed(old(tx.View()), r, Follow(t, row), now);
    counts := ConcludeRule(tx, scopes, r, row, true, now, false);
  }

  method StayOnRow(tx: Tx, scopes: seq<int>, r: int, t: int, now: int, dryRun: bool) returns (counts: Counts)
    requires PlaceOf(tx.View(), r) == Here(t) && IsSingle(tx.View(), r) && ScopesListed(tx.View(), scopes)
    modifies tx
    ensures (tx.View(), counts) == SingleRule(old(tx.View()), scopes, r, now, dryRun)
  {
    SoleClient(tx.View(), r);
    var missing := tx.clients[Key(r, t)].missingAt.Some?;
    if dryRun {
      if missing { return Counts(1, 0, 0, 0, 0); }
      counts := ConcludeRule(tx, scopes, r, t, false, now, true);
    } else {
      HereFacts(tx.View(), r, t, now);
      var repaired := PlaceClient(tx, r, t, now);
      counts := ConcludeRule(tx, scopes, r, t, repaired, now, false);
    }
  }

  method ReconcileSingleRule(tx: Tx, r: int, scopes: seq<int>, now: int, dryRun: bool) returns (counts: Counts)
    requires IsSingle(tx.View(), r) && ScopesListed(tx.View(), scopes)
    modifies tx
    ensures (tx.View(), counts) == SingleRule(old(tx.View()), scopes, r, now, dryRun)
  {
    var place := PlaceOf(tx.View(), r);
    match place {
      case NoClient => counts := OrphanRule(tx, r, now, dryRun);
      case ManyClients =>
        counts := OrphanRule(tx, r, now, dryRun);
        counts := counts.(conflicts := 1);
      case Gone(t) =>
        SoleClient(tx.View(), r);
        MarkRuleClientMissing(tx, Key(r, t), now, dryRun);
        counts := OrphanRule(tx, r, now, dryRun);
      case Renamed(t) =>
        SoleClient(tx.View(), r);
        MarkRuleClientMissing(tx, Key(r, t), now, dryRun);
        counts := OrphanRule(tx, r, now, dryRun);
      case Follow(t, row) => counts := FollowRow(tx, scopes, r, t, row, now, dryRun);
      case Here(t) => counts := StayOnRow(tx, scopes, r, t, now, dryRun);
    }
  }

  // All rules -------------------------------------------------------------

  lemma StillSingle(a: Db, scopes: seq<int>, rules: seq<int>, now: int, dryRun: bool)
    requires rules != [] && SinglesAhead(a, scopes, rules)
    ensures SinglesAhead(SingleRule(a, scopes, rules[0], now, dryRun).0, scopes, rules[1..])
  {
    var b := SingleRule(a, scopes, rules[0], now, dryRun).0;
    assert rules[0] in rules;
    if dryRun {
      DryCounts(a, scopes, rules[0], now);
    } else {
      SingleRuleFate(a, scopes, rules[0], now);
    }
    forall r | r in rules[1..] ensures IsSingle(b, r) { assert r in rules && r != rules[0]; }
  }

  /** A loop's outcome, when `done` was counted before it. */
  function Counted(done: Counts, rest: (Db, Counts)): (Db, Counts) {
    (rest.0, Add(done, rest.1))
  }

  lemma NothingCounted(rest: (Db, Counts))
    ensures Counted(NO_COUNTS, rest) == rest
  {
  }

  lemma AllCounted(done: Counts, db: Db, scopes: seq<int>, now: int, dryRun: bool)
    ensures Counted(done, SingleRules(db, scopes, [], now, dryRun)) == (db, done)
  {
  }

  lemma AddsUp(a: Counts, b: Counts, c: Counts)
    ensures Add(a, Add(b, c)) == Add(Add(a, b), c)
  {
  }

  lemma SingleRulesFirst(db: Db, scopes: seq<int>, left: seq<int>, now: int, dryRun: bool, after: Db, step: Counts)
    requires left != [] && (after, step) == SingleRule(db, scopes, left[0], now, dryRun)
    ensures SingleRules(db, scopes, left, now, dryRun)
            == Counted(step, SingleRules(after, scopes, left[1..], now, dryRun))
  {
  }

  lemma CountedNext(done: Counts, step: Counts, rest: (Db, Counts))
    ensures Counted(done, Counted(step, rest)) == Counted(Add(done, step), rest)
  {
    AddsUp(done, step, rest.1);
  }

  ghost predicate SinglesAhead(db: Db, scopes: seq<int>, left: seq<int>) {
    Increasing(left) && (forall r :: r in left ==> IsSingle(db, r)) && ScopesListed(db, scopes)
  }

  lemma HeadIsSingle(db: Db, scopes: seq<int>, left: seq<int>)
    requires left != [] && SinglesAhead(db, scopes, left)
    ensures IsSingle(db, left[0]) && ScopesListed(db, scopes)
  {
    var r := left[0];
    assert r in left;
  }

  lemma RuleDone(done: Counts, db: Db, scopes: seq<int>, left: seq<int>, now: int, dryRun: bool, after: Db,
      step: Counts)
    requires left != [] && SinglesAhead(db, scopes, left)
    requires (after, step) == SingleRule(db, scopes, left[0], now, dryRun)
    ensures SinglesAhead(after, scopes, left[1..])
    ensures Counted(done, SingleRules(db, scopes, left, now, dryRun))
            == Counted(Add(done, step), SingleRules(after, scopes, left[1..], now, dryRun))
  {
    assert SinglesAhead(after, scopes, left[1..]) by { StillSingle(db, scopes, left, now, dryRun); }
    SingleRulesFirst(db, scopes, left, now, dryRun, after, step);
    CountedNext(done, step, SingleRules(after, scopes, left[1..], now, dryRun));
  }

  method ReconcileRules(tx: Tx, scopes: seq<int>, rules: seq<int>, now: int, dryRun: bool) returns (counts: Counts)
    requires SinglesAhead(tx.View(), scopes, rules)
    modifies tx
    ensures (tx.View(), counts) == SingleRules(old(tx.View()), scopes, rules, now, dryRun)
  {
    ghost var whole := SingleRules(tx.View(), scopes, rules, now, dryRun);
    counts := NO_COUNTS;
    NothingCounted(whole);
    var left := rules;
    while left != []
      invariant SinglesAhead(tx.View(), scopes, left)
      invariant Counted(counts, SingleRules(tx.View(), scopes, left, now, dryRun)) == whole
      decreases |left|
    {
      counts := ReconcileNext(tx, scopes, left, now, dryRun, counts);
      left := left[1..];
    }
    AllCounted(counts, tx.View(), scopes, now, dryRun);
  }

  /** One round of the loop. */
  method ReconcileNext(tx: Tx, scopes: seq<int>, left: seq<int>, now: int, dryRun: bool, done: Counts)
      returns (counts: Counts)
    requires left != [] && SinglesAhead(tx.View(), scopes, left)
    modifies tx
    ensures SinglesAhead(tx.View(), scopes, left[1..])
    ensures Counted(done, SingleRules(old(tx.View()), scopes, left, now, dryRun))
            == Counted(counts, SingleRules(tx.View(), scopes, left[1..], now, dryRun))
  {
    ghost var before := tx.View();
    HeadIsSingle(before, scopes, left);
    var step := ReconcileSingleRule(tx, left[0], scopes, now, dryRun);
    RuleDone(done, before, scopes, left, now, dryRun, tx.View(), step);
    counts := Add(done, step);
  }

  // Policies --------------------------------------------------------------

  lemma ListedIn(table: Table, i: int)
    requires 0 <= i < |ListActive(table)|
    ensures ListActive(table)[i] in table
  {
    ListActiveLists(table);
    var id := ListActive(table)[i];
    assert id in ListActive(table);
  }

  lemma StaleReadsRows(a: Db, b: Db, p: Policy, inbound: Option<int>)
    requires b.traffic == a.traffic && b.members == a.members
    ensures Stale(b, p, inbound) == Stale(a, p, inbound) && Resolve(b, p) == Resolve(a, p)
  {
  }

  method ReconcileExcludes(tx: Tx, ids: seq<int>, inbound: Option<int>, now: int, dryRun: bool, ghost db: Db)
      returns (repaired: nat)
    requires db.traffic == tx.traffic && db.members == tx.members && forall i ::
               0 <= i < |ids| ==> ids[i] in tx.excludes
    modifies tx`excludes
    ensures repaired == RepairCount(db, old(tx.excludes), ids, inbound)
    ensures tx.excludes == if dryRun then old(tx.excludes) else
                                            FollowAll(db, old(tx.excludes), old(tx.excludes), ids, inbound, now)
  {
    var listed := tx.excludes;
    repaired := 0;
    assert ids[0..] == ids;
    for i := 0 to |ids|
      invariant repaired + RepairCount(db, listed, ids[i..], inbound) == RepairCount(db, listed, ids, inbound)
      invariant dryRun ==> tx.excludes == listed
      invariant !dryRun ==> FollowAll(db, tx.excludes, listed, ids[i..], inbound, now)
                            == FollowAll(db, listed, listed, ids, inbound, now)
    {
      assert ids[i..][1..] == ids[i + 1..];
      var p := listed[ids[i]];
      StaleReadsRows(db, tx.View(), p, inbound);
      var stale := IsStale(tx.View(), p, inbound);
      if stale {
        repaired := repaired + 1;
        if !dryRun {
          var row := Resolve(tx.View(), p).value;
          tx.RelinkExcludeRow(ids[i], p, row, tx.traffic[row].inboundId, now);
        }
      }
    }
  }

  method ReconcileOverrides(tx: Tx, ids: seq<int>, inbound: Option<int>, now: int, dryRun: bool, ghost db: Db)
      returns (repaired: nat)
    requires db.traffic == tx.traffic && db.members == tx.members && forall i ::
               0 <= i < |ids| ==> ids[i] in tx.overrides
    modifies tx`overrides
    ensures repaired == RepairCount(db, old(tx.overrides), ids, inbound)
    ensures tx.overrides == if dryRun then old(tx.overrides) else
                                             FollowAll(db, old(tx.overrides), old(tx.overrides), ids, inbound, now)
  {
    var listed := tx.overrides;
    repaired := 0;
    assert ids[0..] == ids;
    for i := 0 to |ids|
      invariant repaired + RepairCount(db, listed, ids[i..], inbound) == RepairCount(db, listed, ids, inbound)
      invariant dryRun ==> tx.overrides == listed
      invariant !dryRun ==> FollowAll(db, tx.overrides, listed, ids[i..], inbound, now)
                            == FollowAll(db, listed, listed, ids, inbound, now)
    {
      assert ids[i..][1..] == ids[i + 1..];
      var p := listed[ids[i]];
      StaleReadsRows(db, tx.View(), p, inbound);
      var stale := IsStale(tx.View(), p, inbound);
      if stale {
        repaired := repaired + 1;
        if !dryRun {
          var row := Resolve(tx.View(), p).value;
          tx.RelinkOverrideRow(ids[i], p, row, tx.traffic[row].inboundId, now);
        }
      }
    }
  }

  method ListPolicies(table: Table) returns (ids: seq<int>)
    ensures ids == ListActive(table) && forall i :: 0 <= i < |ids| ==> ids[i] in table
  {
    ids := ListActive(table);
    forall i | 0 <= i < |ids| ensures ids[i] in table { ListedIn(table, i); }
  }

  function FollowedBy(db: Db, table: Table, ids: seq<int>, inbound: Option<int>, now: int, dryRun: bool): Table {
    if dryRun then table else FollowAll(db, table, table, ids, inbound, now)
  }

  /** The two loops over the listed policies. */
  method RelinkListed(tx: Tx, excludeIds: seq<int>, overrideIds: seq<int>, inbound: Option<int>, now: int,
      dryRun: bool) returns (repaired: nat)
    requires (forall i :: 0 <= i < |excludeIds| ==> excludeIds[i] in tx.excludes)
             && (forall i :: 0 <= i < |overrideIds| ==> overrideIds[i] in tx.overrides)
    modifies tx
    ensures var db := old(tx.View());
            && tx.View() == db.(excludes := FollowedBy(db, db.excludes, excludeIds, inbound, now, dryRun),
                                overrides := FollowedBy(db, db.overrides, overrideIds, inbound, now, dryRun))
            && repaired == RepairCount(db, db.excludes, excludeIds, inbound) + RepairCount(db, db.overrides,
                overrideIds, inbound)
  {
    ghost var db := tx.View();
    var excludes := ReconcileExcludes(tx, excludeIds, inbound, now, dryRun, db);
    var overrides := ReconcileOverrides(tx, overrideIds, inbound, now, dryRun, db);
    return excludes + overrides;
  }

  method ReconcilePolicies(tx: Tx, inbound: Option<int>, now: int, dryRun: bool) returns (repaired: nat)
    modifies tx
    ensures tx.View() == Policies(old(tx.View()), inbound, now, dryRun)
    ensures repaired == Repairs(old(tx.View()), inbound)
  {
    var excludeIds := ListPolicies(tx.excludes);
    var overrideIds := ListPolicies(tx.overrides);
    repaired := RelinkListed(tx, excludeIds, overrideIds, inbound, now, dryRun);
  }

  /** ReconcileTx. */
  method ReconcileTx(tx: Tx, inbound: Option<int>, now: int, dryRun: bool) returns (r: Result<Report>)
    modifies tx
    ensures match Reconcile(old(tx.View()), inbound, now, dryRun)
            case Err(e) => r == Err(e) && tx.View() == old(tx.View())
            case Ok((after, report)) => r == Ok(report) && tx.View() == after
  {
    if now <= 0 { return Err(BadInput); }
    var rules, scopes := ListSingles(tx.View(), inbound), ListPersistentScopes(tx.View());
    ListedSingles(tx.View(), inbound);
    ListedScopes(tx.View());
    var counts := ReconcileRules(tx, scopes, rules, now, dryRun);
    var repaired := ReconcilePolicies(tx, inbound, now, dryRun);
    return Ok(Report(|rules|, counts, repaired));
  }
}
