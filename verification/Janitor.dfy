/** internal/store/cleanup.go on a transaction: the prune loops, proved against the stages of a cleanup. */
module Janitor {
  import opened Collections
  import opened Model
  import opened PolicyTable
  import opened Store
  import opened Cleanup

  method MarkMismatchedRuleClients(tx: Tx, now: int, dryRun: bool) returns (marked: nat)
    modifies tx
    ensures marked == |ListKeys(MismatchedKeys(old(tx.View())))|
    ensures tx.View() == if dryRun then old(tx.View()) else Marked(old(tx.View()), now)
  {
    var left := ListKeys(MismatchedKeys(tx.View()));
    marked := |left|;
    if dryRun { return; }
    ghost var whole := MarkKeys(tx.View(), left, now);
    while left != []
      invariant MarkKeys(tx.View(), left, now) == whole
      decreases |left|
    {
      tx.MarkRuleClientMissing(left[0], now);
      tx.AddEvent(Some(left[0].rule), ClientMissing, OnTraffic(left[0].traffic), now);
      left := left[1..];
    }
  }

  method PruneMissingRuleClients(tx: Tx, cutoff: int, now: int, dryRun: bool) returns (pruned: nat)
    modifies tx
    ensures pruned == |ListKeys(MissingKeys(old(tx.View()), cutoff))|
    ensures tx.View() == if dryRun then old(tx.View()) else ClientsPruned(old(tx.View()), cutoff, now)
  {
    var left := ListKeys(MissingKeys(tx.View(), cutoff));
    pruned := |left|;
    if dryRun { return; }
    ghost var whole := PruneClients(tx.View(), left, now);
    while left != []
      invariant PruneClients(tx.View(), left, now) == whole
      decreases |left|
    {
      tx.clients := tx.clients - {left[0]};
      tx.AddEvent(Some(left[0].rule), ClientPruned, OnTraffic(left[0].traffic), now);
      left := left[1..];
    }
  }

  method CountEnded(db: Db, rs: seq<int>) returns (rules: nat, scopes: nat)
    ensures scopes == CountScopes(db, rs) && rules + scopes == |rs|
  {
    rules, scopes := 0, 0;
    var left := rs;
    while left != []
      invariant scopes + CountScopes(db, left) == CountScopes(db, rs) && rules + scopes + |left| == |rs|
      decreases |left|
    {
      if left[0] in db.scopes { scopes := scopes + 1; } else { rules := rules + 1; }
      left := left[1..];
    }
  }

  /** The event and the three DELETEs of one rule. */
  method RemoveRuleRows(tx: Tx, r: int, now: int)
    modifies tx
    ensures tx.View() == RemoveRule(old(tx.View()), r, now)
  {
    tx.AddEvent(Some(r), Cleaned, Plain, now);
    tx.clients := map k | k in tx.clients && k.rule != r :: tx.clients[k];
    tx.scopes := tx.scopes - {r};
    tx.rules := tx.rules - {r};
  }

  method PruneDisabledRules(tx: Tx, cutoff: int, now: int, dryRun: bool) returns (rules: nat, scopes: nat)
    modifies tx
    ensures var listed := Ascending(EndedRules(old(tx.View()), cutoff));
              scopes == CountScopes(old(tx.View()), listed) && rules + scopes == |listed|
    ensures tx.View() == if dryRun then old(tx.View()) else RulesPruned(old(tx.View()), cutoff, now)
  {
    var left := Ascending(EndedRules(tx.View(), cutoff));
    rules, scopes := CountEnded(tx.View(), left);
    if dryRun { return; }
    ghost var whole := PruneRules(tx.View(), left, now);
    while left != []
      invariant PruneRules(tx.View(), left, now) == whole
      decreases |left|
    {
      var r := left[0];
      RemoveRuleRows(tx, r, now);
      left := left[1..];
    }
  }

  method PruneInactiveExcludes(tx: Tx, cutoff: int, now: int, dryRun: bool) returns (pruned: nat)
    modifies tx
    ensures pruned == |Ascending(InactiveIds(old(tx.excludes), cutoff))|
    ensures tx.View() == if dryRun then old(tx.View()) else ExcludesPruned(old(tx.View()), cutoff, now)
  {
    var left := Ascending(InactiveIds(tx.excludes, cutoff));
    pruned := |left|;
    if dryRun { return; }
    ghost var whole := PruneExcludes(tx.View(), left, now);
    while left != []
      invariant PruneExcludes(tx.View(), left, now) == whole
      decreases |left|
    {
      tx.AddEvent(None, Cleaned, Plain, now);
      tx.excludes := tx.excludes - {left[0]};
      left := left[1..];
    }
  }

  method PruneInactiveOverrides(tx: Tx, cutoff: int, now: int, dryRun: bool) returns (pruned: nat)
    modifies tx
    ensures pruned == |Ascending(InactiveIds(old(tx.overrides), cutoff))|
    ensures tx.View() == if dryRun then old(tx.View()) else OverridesPruned(old(tx.View()), cutoff, now)
  {
    var left := Ascending(InactiveIds(tx.overrides, cutoff));
    pruned := |left|;
    if dryRun { return; }
    ghost var whole := PruneOverrides(tx.View(), left, now);
    while left != []
      invariant PruneOverrides(tx.View(), left, now) == whole
      decreases |left|
    {
      tx.AddEvent(None, Cleaned, Plain, now);
      tx.overrides := tx.overrides - {left[0]};
      left := left[1..];
    }
  }

  method PruneAuditEvents(tx: Tx, cutoff: int, dryRun: bool) returns (pruned: nat)
    modifies tx
    ensures pruned == OldEvents(old(tx.events), cutoff)
    ensures tx.View() == if dryRun then old(tx.View()) else EventsPruned(old(tx.View()), cutoff)
  {
    pruned := OldEvents(tx.events, cutoff);
    if dryRun { return; }
    tx.events := RecentEvents(tx.events, cutoff);
  }

  method SweepRules(tx: Tx, c: Cutoffs, now: int, dryRun: bool)
      returns (marked: nat, clients: nat, rules: nat, scopes: nat)
    modifies tx
    ensures RuleStages(old(tx.View()), c, now, dryRun) == Swept(tx.View(), marked, clients, rules, scopes)
  {
    marked := MarkMismatchedRuleClients(tx, now, dryRun);
    clients := PruneMissingRuleClients(tx, c.missing, now, dryRun);
    rules, scopes := PruneDisabledRules(tx, c.retention, now, dryRun);
  }

  method SweepPolicies(tx: Tx, c: Cutoffs, now: int, dryRun: bool) returns (excludes: nat, overrides: nat, events: nat)
    modifies tx
    ensures PolicyStages(old(tx.View()), c, now, dryRun) == (tx.View(), excludes, overrides, events)
  {
    excludes := PruneInactiveExcludes(tx, c.retention, now, dryRun);
    overrides := PruneInactiveOverrides(tx, c.retention, now, dryRun);
    events := PruneAuditEvents(tx, c.audit, dryRun);
  }

  lemma StagesInTurn(a: Db, swept: Swept, rest: (Db, nat, nat, nat), c: Cutoffs, now: int, dryRun: bool)
    requires RuleStages(a, c, now, dryRun) == swept && PolicyStages(swept.db, c, now, dryRun) == rest
    ensures Stages(a, c, now, dryRun) == Tally(swept, rest)
  {
  }

  method CleanStages(tx: Tx, c: Cutoffs, now: int, dryRun: bool) returns (counts: Counts)
    modifies tx
    ensures (tx.View(), counts) == Stages(old(tx.View()), c, now, dryRun)
  {
    ghost var before := tx.View();
    var marked, clients, rules, scopes := SweepRules(tx, c, now, dryRun);
    ghost var swept := Swept(tx.View(), marked, clients, rules, scopes);
    var excludes, overrides, events := SweepPolicies(tx, c, now, dryRun);
    StagesInTurn(before, swept, (tx.View(), excludes, overrides, events), c, now, dryRun);
    return Counts(marked, clients, rules, scopes, excludes, overrides, events);
  }

  /** Tx.Cleanup. */
  method CleanTables(tx: Tx, o: Options, dryRun: bool) returns (r: Result<Counts>)
    modifies tx
    ensures match Clean(old(tx.View()), o, dryRun)
            case Err(e) => r == Err(e) && tx.View() == old(tx.View())
            case Ok((after, counts)) => r == Ok(counts) && tx.View() == after
  {
    if !(o.now > 0 && o.missingGrace > 0 && o.retention > 0 && o.auditRetention > 0) { return Err(BadInput); }
    var counts := CleanStages(tx, CutoffsOf(o), o.now, dryRun);
    return Ok(counts);
  }
}
