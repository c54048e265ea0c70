/** One active rule per row and one policy row per email, kept by every step whose reconcile does not clash. */
module Ownership {
  import opened Collections
  import opened Model
  import opened Decisions
  import opened PolicyTable
  import opened Baselines
  import opened Ticking
  import opened TickProofs
  import opened CommandProofs
  import opened BulkProofs
  import opened EnrolProofs
  import opened ReconcileTheorems
  import opened ReconcilePreview
  import opened ReconcileProofs
  import opened Machine
  import opened MachineProofs
  import opened Ledgers
  import opened Unambiguous
  import C = Commands
  import R = Reconciling
  import K = Cleanup

  ghost predicate OnePerEmail(db: Db) {
    OneRowPerEmail(db.excludes) && OneRowPerEmail(db.overrides)
  }

  ghost predicate Tidy(db: Db) {
    Valid(db) && OneOwner(db) && OnePerEmail(db)
  }

  // One policy row per email ----------------------------------------------

  lemma SameEmailsOne(a: Table, b: Table)
    requires OneRowPerEmail(a) && b.Keys == a.Keys && forall x :: x in a ==> b[x].email == a[x].email
    ensures OneRowPerEmail(b)
  {
    forall x, y | x in b && y in b && b[x].email == b[y].email ensures x == y {
      assert x in a && y in a && a[x].email == a[y].email;
    }
  }

  lemma FollowedOne(db: Db, table: Table, inbound: Option<int>, now: int)
    requires OneRowPerEmail(table)
    ensures OneRowPerEmail(FollowAll(db, table, table, ListActive(table), inbound, now))
  {
    FollowAllKeepsEmails(db, table, table, ListActive(table), inbound, now);
    SameEmailsOne(table, FollowAll(db, table, table, ListActive(table), inbound, now));
  }

  lemma ReconcileOnePerEmail(db: Db, inbound: Option<int>, now: int)
    requires OnePerEmail(db) && now > 0
    ensures OnePerEmail(R.Reconcile(db, inbound, now, false).value.0)
  {
    var b := R.Rules(db, inbound, now, false).0;
    assert b.excludes == db.excludes && b.overrides == db.overrides by { RulesOutcome(db, inbound, now); }
    FollowedOne(b, b.excludes, inbound, now);
    FollowedOne(b, b.overrides, inbound, now);
  }

  lemma DisabledOne(table: Table, id: int, now: int)
    requires OneRowPerEmail(table)
    ensures OneRowPerEmail(PolicyTable.Disable(table, id, now))
  {
    SameEmailsOne(table, PolicyTable.Disable(table, id, now));
  }

  lemma RefreshRowTables(db: Db, t: int, email: string)
    ensures C.RefreshRow(db, t, email).excludes == db.excludes && C.RefreshRow(db, t, email).overrides == db.overrides
  {
  }

  lemma ExcludeOne(db: Db, email: string, at: int, now: int)
    requires Valid(db) && OnePerEmail(db) && C.Exclude(db, email, at, now).Ok?
    ensures OnePerEmail(C.Exclude(db, email, at, now).value)
  {
    var t := db.FindClient(email, Some(at)).value;
    FindClientFound(db, email, Some(at));
    UpsertOne(db.excludes, db.nextExclude, t, db.traffic[t].inboundId, db.traffic[t].email, 0, now);
  }

  lemma OverrideOne(db: Db, email: string, at: int, factor: string, now: int)
    requires Valid(db) && OnePerEmail(db) && C.Override(db, email, at, factor, now).Ok?
    ensures OnePerEmail(C.Override(db, email, at, factor, now).value)
  {
    var t := db.FindClient(email, Some(at)).value;
    FindClientFound(db, email, Some(at));
    UpsertOne(db.overrides, db.nextOverride, t, db.traffic[t].inboundId, db.traffic[t].email,
        Factor.ParseFactor(factor).value, now);
  }

  lemma UnexcludeOne(db: Db, email: string, at: int, now: int)
    requires Valid(db) && OnePerEmail(db) && C.Unexclude(db, email, at, now).Ok?
    ensures OnePerEmail(C.Unexclude(db, email, at, now).value)
  {
    var t := db.FindClient(email, Some(at)).value;
    DisabledOne(db.excludes, C.PolicyOf(db.excludes, t, email).value, now);
    RefreshRowTables(db.(excludes := PolicyTable.Disable(db.excludes, C.PolicyOf(db.excludes, t, email).value, now)),
        t, email);
  }

  lemma RemoveOverrideOne(db: Db, email: string, at: int, now: int)
    requires Valid(db) && OnePerEmail(db) && C.RemoveOverride(db, email, at, now).Ok?
    ensures OnePerEmail(C.RemoveOverride(db, email, at, now).value)
  {
    var t := db.FindClient(email, Some(at)).value;
    DisabledOne(db.overrides, C.PolicyOf(db.overrides, t, email).value, now);
    RefreshRowTables(db.(overrides := PolicyTable.Disable(db.overrides, C.PolicyOf(db.overrides, t, email).value,
        now)), t, email);
  }

  lemma CleanOne(db: Db, o: K.Options, dryRun: bool)
    requires OnePerEmail(db) && K.Clean(db, o, dryRun).Ok?
    ensures OnePerEmail(K.Clean(db, o, dryRun).value.0)
  {
    if dryRun {
      K.CleanupDryRunTellsTheTruth(db, o);
    } else {
      var c := K.CutoffsOf(o);
      K.CleanupKeepsTheRest(db, c, o.now);
      K.CleanedSound(db, K.Clean(db, o, false).value.0, c.missing, c.retention, o.now);
    }
  }

  lemma EnableAllOne(db: Db, bulk: C.Bulk, once: bool, factor: string, now: int)
    requires Valid(db) && OnePerEmail(db) && now > 0 && C.EnableAll(db, bulk, once, factor, now).Ok?
    ensures OnePerEmail(C.EnableAll(db, bulk, once, factor, now).value)
  {
    var factorPpm := Factor.ParseFactor(factor).value;
    var ts := ClientCandidates(db, bulk.inbound, bulk.limitedOnly, bulk.includeDisabled);
    if once {
      EnableSnapshotFacts(db, bulk, factorPpm, ts, now);
    } else {
      EnablePersistentFacts(db, bulk, factorPpm, ts, now);
      ReconcileOnePerEmail(C.EnablePersistent(db, bulk, factorPpm, ts, now).value, bulk.inbound, now);
    }
  }

  // One owner per row -----------------------------------------------------

  /** The reconcile that the step runs, if any, settles every contested row. */
  ghost predicate Clashless(db: Db, step: Step) {
    match step
    case PanelStep(_) => true
    case TickStep(_, _) => Unclashing(db, None)
    case CommandStep(command, now) =>
      match command
      case Reconcile(inbound, dryRun) => !dryRun ==> Unclashing(db, inbound)
      case EnableAll(bulk, once, factor) => !once && Enabled(db, bulk, factor, now).Ok? ==>
          Unclashing(Enabled(db, bulk, factor, now).value, bulk.inbound)
      case _ => true
  }

  ghost predicate ClashlessRun(w: World, steps: seq<Step>)
    decreases |steps|
  {
    steps == [] || (Clashless(w.db, steps[0]) && ClashlessRun(Advance(w, steps[0]), steps[1..]))
  }

  lemma ReconciledOwner(db: Db, inbound: Option<int>, now: int)
    requires OneOwner(db) && now > 0 && Unclashing(db, inbound)
    ensures OneOwner(R.Reconcile(db, inbound, now, false).value.0)
  {
    ReconcileKeepsOneOwner(db, inbound, now);
    ReconcileKeeps(db, inbound, now);
  }

  lemma StateCommandTidy(db: Db, command: Command, now: int)
    requires Tidy(db) && now > 0 && Execute(db, command, now).Ok?
    requires command.Enable? || command.Pause? || command.Disable? || command.Resume? || command.PauseAll?
             || command.DisableAll? || command.ResumeAll?
    ensures var b := Execute(db, command, now).value; Valid(b) && OneOwner(b) && SamePolicies(db, b)
  {
    var b := Execute(db, command, now).value;
    match command
    case Enable(email, inbound, factor) => EnableKeeps(db, email, inbound, factor, now);
    case Resume(email, inbound) => ResumeKeeps(db, email, inbound, now);
    case ResumeAll(inbound) => ResumeAllKeeps(db, inbound, now);
    case Pause(email, inbound) => TransitionKeeps(db, email, inbound, {Active}, Paused, now); StoppedKeeps(db, b);
    case Disable(email, inbound) => TransitionKeeps(db, email, inbound, {Active, State.Paused}, State.Disabled, now);
          StoppedKeeps(db, b);
    case PauseAll(inbound) => SetStatesStops(db, Ascending(C.RuleIds(db, inbound, {Active})), Paused, now);
          StoppedKeeps(db, b);
    case DisableAll(inbound) => SetStatesStops(db, Ascending(C.RuleIds(db, inbound, {Active, State.Paused})),
        State.Disabled, now); StoppedKeeps(db, b);
  }

  lemma PolicyCommandTidy(db: Db, command: Command, now: int)
    requires Tidy(db) && Execute(db, command, now).Ok?
    requires command.Exclude? || command.Unexclude? || command.Override? || command.RemoveOverride?
    ensures Tidy(Execute(db, command, now).value)
  {
    match command
    case Exclude(email, at) => ExcludeKeeps(db, email, at, now); ExcludeOne(db, email, at, now);
    case Unexclude(email, at) => UnexcludeKeeps(db, email, at, now); UnexcludeOne(db, email, at, now);
    case Override(email, at, factor) => OverrideKeeps(db, email, at, factor, now);
          OverrideOne(db, email, at, factor, now);
    case RemoveOverride(email, at) => RemoveOverrideKeeps(db, email, at, now); RemoveOverrideOne(db, email, at, now);
  }

  lemma CleanTidy(db: Db, o: K.Options, dryRun: bool)
    requires Tidy(db) && K.Clean(db, o, dryRun).Ok?
    ensures Tidy(K.Clean(db, o, dryRun).value.0)
  {
    CleanOne(db, o, dryRun);
    CleanCommandKeeps(db, o, dryRun);
    if dryRun {
      K.CleanupDryRunTellsTheTruth(db, o);
    } else {
      var c := K.CutoffsOf(o);
      K.CleanupKeepsTheRest(db, c, o.now);
      K.CleanedSound(db, K.Clean(db, o, false).value.0, c.missing, c.retention, o.now);
    }
  }

  lemma ReconcileTidy(db: Db, inbound: Option<int>, dryRun: bool, now: int)
    requires Tidy(db) && now > 0 && (!dryRun ==> Unclashing(db, inbound))
    ensures Tidy(R.Reconcile(db, inbound, now, dryRun).value.0)
  {
    if dryRun {
      DryRunIsFaithful(db, inbound, now);
    } else {
      ReconcileOnePerEmail(db, inbound, now);
      ReconciledOwner(db, inbound, now);
      ReconcileKeeps(db, inbound, now);
    }
  }

  lemma EnableAllTidy(db: Db, bulk: C.Bulk, once: bool, factor: string, now: int)
    requires Tidy(db) && now > 0 && C.EnableAll(db, bulk, once, factor, now).Ok?
    requires !once ==> Enabled(db, bulk, factor, now).Ok?
                       && Unclashing(Enabled(db, bulk, factor, now).value, bulk.inbound)
    ensures Tidy(C.EnableAll(db, bulk, once, factor, now).value)
  {
    EnableAllOne(db, bulk, once, factor, now);
    EnableAllKeeps(db, bulk, once, factor, now);
  }

  lemma EnableAllEnables(db: Db, bulk: C.Bulk, factor: string, now: int)
    requires C.EnableAll(db, bulk, false, factor, now).Ok?
    ensures Enabled(db, bulk, factor, now).Ok?
  {
  }

  lemma EnableAllStepTidy(db: Db, bulk: C.Bulk, once: bool, factor: string, now: int)
    requires Tidy(db) && now > 0 && C.EnableAll(db, bulk, once, factor, now).Ok?
    requires Clashless(db, CommandStep(EnableAll(bulk, once, factor), now))
    ensures Tidy(C.EnableAll(db, bulk, once, factor, now).value)
  {
    if !once { EnableAllEnables(db, bulk, factor, now); }
    EnableAllTidy(db, bulk, once, factor, now);
  }

  lemma UpkeepTidy(db: Db, command: Command, now: int)
    requires Tidy(db) && now > 0 && Execute(db, command, now).Ok? && Clashless(db, CommandStep(command, now))
    requires command.Reconcile? || command.Clean? || command.EnableAll?
    ensures Tidy(Execute(db, command, now).value)
  {
    if command.Reconcile? {
      ReconcileExecuted(db, command.inbound, command.dryRun, now);
      ReconcileTidy(db, command.inbound, command.dryRun, now);
    } else if command.Clean? {
      CleanExecuted(db, command.options, command.dryRun, now);
      CleanTidy(db, command.options, command.dryRun);
    } else {
      EnableAllStepTidy(db, command.bulk, command.once, command.factor, now);
    }
  }

  lemma CommandTidy(db: Db, command: Command, now: int)
    requires Tidy(db) && now > 0 && Execute(db, command, now).Ok? && Clashless(db, CommandStep(command, now))
    ensures Tidy(Execute(db, command, now).value)
  {
    if command.Exclude? || command.Unexclude? || command.Override? || command.RemoveOverride? {
      PolicyCommandTidy(db, command, now);
    } else if command.Reconcile? || command.Clean? || command.EnableAll? {
      UpkeepTidy(db, command, now);
    } else {
      StateCommandTidy(db, command, now);
    }
  }

  lemma PreparedTidy(db: Db, now: int)
    requires Tidy(db) && now > 0 && Unclashing(db, None)
    ensures Prepared(db, now).Ok? && Tidy(Prepared(db, now).value)
  {
    ReconcileTidy(db, None, false, now);
    EnrolKeeps(R.Reconcile(db, None, now, false).value.0, now);
  }

  lemma CommittedTidy(ready: Db, after: Db, env: TickEnv, now: int)
    requires Tidy(ready) && Committed(ready, after, env, now)
    ensures Tidy(after)
  {
    CommittedValid(ready, after, env, now);
    assert after == ready.(traffic := after.traffic, clients := after.clients, events := after.events)
        && after.clients.Keys == ready.clients.Keys by {
      CommittedFacts(ready, after, env, now);
    }
    OwnersShrink(ready, after);
  }

  lemma ChangeTidy(db: Db, change: Change)
    requires Tidy(db) && Possible(db, change)
    ensures Tidy(Changed(db, change))
  {
    ValidAfterChange(db, change);
    OwnersShrink(db, Changed(db, change));
  }

  lemma TidyTick(w: World, env: TickEnv, now: int)
    requires Tidy(w.db) && now > 0 && Unclashing(w.db, None)
    ensures Tidy(Advance(w, TickStep(env, now)).db)
  {
    if Tick(w.db, env, now).Err? {
      TickRefused(w, env, now);
    } else {
      PreparedTidy(w.db, now);
      var ready, after := TickTaken(w, env, now);
      CommittedTidy(ready, after, env, now);
    }
  }

  lemma TidyCommand(w: World, command: Command, now: int)
    requires Tidy(w.db) && now > 0 && Clashless(w.db, CommandStep(command, now))
    ensures Tidy(Advance(w, CommandStep(command, now)).db)
  {
    if Execute(w.db, command, now).Ok? { CommandTidy(w.db, command, now); }
  }

  lemma TidyPanel(w: World, change: Change)
    requires Tidy(w.db)
    ensures Tidy(Advance(w, PanelStep(change)).db)
  {
    if Possible(w.db, change) { ChangeTidy(w.db, change); }
  }

  // Ticks are never refused for ambiguity ----------------------------------

  lemma TickTargetError(db: Db, x: Target, env: TickEnv, now: int)
    requires TickTarget(db, x, env, now).Err?
    ensures TickTarget(db, x, env, now).error in {BadInput, Error.Overflow, Race}
  {
  }

  lemma {:induction false} TickDecisionsError(db: Db, ds: seq<Decision>, env: TickEnv, now: int)
    requires TickDecisions(db, ds, env, now).Err?
    ensures TickDecisions(db, ds, env, now).error in {BadInput, Error.Overflow, Race}
    decreases |ds|
  {
    if TickDecision(db, ds[0], env, now).Ok? {
      TickDecisionsError(TickDecision(db, ds[0], env, now).value, ds[1..], env, now);
    } else {
      TickTargetError(db, ds[0].target.value, env, now);
    }
  }

  /**
   * From tidy, unclashing tables a tick fails only for the panel's role, a bad clock or counter, an overflow or a
   * race.
   */
  lemma TickNotAmbiguous(db: Db, env: TickEnv, now: int)
    requires Tidy(db) && now > 0 && Unclashing(db, None)
    ensures Tick(db, env, now).Err? ==> Tick(db, env, now).error in {Managed, BadInput, Error.Overflow, Race}
  {
    PreparedTidy(db, now);
    var ready := Prepared(db, now).value;
    OwnedTablesDecide(ready);
    var ds := DecideAll(Candidates(ready)).value;
    if TickDecisions(ready, ds, env, now).Err? { TickDecisionsError(ready, ds, env, now); }
  }

  /** Every tick of the run that fails does so for another reason than ambiguity. */
  ghost predicate TicksDecide(w: World, steps: seq<Step>)
    decreases |steps|
  {
    steps == []
    || ((steps[0].TickStep? ==> Tick(w.db, steps[0].env, steps[0].now) != Err(Ambiguous))
        && TicksDecide(Advance(w, steps[0]), steps[1..]))
  }

  /**
   * From tidy tables - an empty store is tidy - a run whose reconciles never clash keeps one active rule per row and
   * one policy row per email, and none of its ticks is refused for ambiguity.
   */
  lemma {:induction false} NeverAmbiguous(w: World, steps: seq<Step>)
    requires Tidy(w.db) && (forall step :: step in steps ==> Timed(step)) && ClashlessRun(w, steps)
    ensures Tidy(Run(w, steps).db) && TicksDecide(w, steps)
    decreases |steps|
  {
    if steps != [] {
      var step := steps[0];
      assert step in steps;
      match step {
        case PanelStep(change) => TidyPanel(w, change);
        case CommandStep(command, now) => TidyCommand(w, command, now);
        case TickStep(env, now) => TidyTick(w, env, now); TickNotAmbiguous(w.db, env, now);
      }
      NeverAmbiguous(Advance(w, step), steps[1..]);
    }
  }

  /** An empty store beside any panel rows is tidy. */
  lemma EmptyStoreIsTidy(db: Db)
    requires EmailsUnique(db) && db.rules == map[] && db.scopes == map[] && db.clients == map[]
             && db.excludes == map[] && db.overrides == map[]
    ensures Tidy(db)
  {
  }

  // The trap --------------------------------------------------------------

  lemma CandidateOnRow(db: Db, k: Key)
    requires ActiveKey(db, k)
    ensures RuleCandidate(TargetAt(db, k)) in Group(Candidates(db), k.traffic)
  {
    var x := TargetAt(db, k);
    TargetsExactly(db, x);
    RuleCandidateMembers(Targets(db), RuleCandidate(x));
    GroupMember(Candidates(db), k.traffic, RuleCandidate(x));
  }

  lemma TopsTie(cs: seq<Candidate>, a: Candidate, b: Candidate)
    requires Top(cs, a) && Top(cs, b) && a != b
    ensures TopTie(cs)
  {
    var i :| 0 <= i < |cs| && cs[i] == a;
    var j :| 0 <= j < |cs| && cs[j] == b;
    if i < j { assert Top(cs, cs[i]) && Top(cs, cs[j]); } else { assert Top(cs, cs[j]) && Top(cs, cs[i]); }
  }

  predicate UnnamedBy(table: Table, t: int) {
    forall id :: id in table && ActiveRow(table, id) ==> table[id].trafficId != t
  }

  lemma PolicyCandidatesElsewhere(db: Db, t: int)
    requires UnnamedBy(db.excludes, t) && UnnamedBy(db.overrides, t)
    ensures forall c :: c in OverrideCandidates(PolicyRows(db.overrides, ListActive(db.overrides)), Targets(db)) ==>
                        c.trafficId != t
    ensures forall c :: c in ExcludeCandidates(PolicyRows(db.excludes, ListActive(db.excludes)), Targets(db)) ==>
                        c.trafficId != t
  {
    var ts := Targets(db);
    var es, os := PolicyRows(db.excludes, ListActive(db.excludes)), PolicyRows(db.overrides, ListActive(db.overrides));
    forall c | c in OverrideCandidates(os, ts) ensures c.trafficId != t {
      OverrideCandidateMembers(os, ts, c);
      var o, x :| o in os && x in ts && Names(x, o.policy.trafficId, o.policy.email) && c == OverrideCandidate(o, x);
      ListedPolicies(db.overrides, o);
    }
    forall c | c in ExcludeCandidates(es, ts) ensures c.trafficId != t {
      ExcludeCandidateMembers(es, ts, c);
      var e :| e in es && LastNamed(ts, e.policy.trafficId, e.policy.email).Some? && c == ExcludeCandidate(e);
      ListedPolicies(db.excludes, e);
    }
  }

  lemma RuleOnlyRow(db: Db, t: int, c: Candidate)
    requires c in Group(Candidates(db), t) && UnnamedBy(db.excludes, t) && UnnamedBy(db.overrides, t)
    ensures Precedence(c.source) <= 80
  {
    GroupMember(Candidates(db), t, c);
    PolicyCandidatesElsewhere(db, t);
    assert c in RuleCandidates(Targets(db));
    RuleCandidateMembers(Targets(db), c);
  }

  lemma RulesTie(cs: seq<Candidate>, a: Candidate, b: Candidate)
    requires a in cs && b in cs && a != b && Precedence(a.source) == 80 && Precedence(b.source) == 80
    requires forall d :: d in cs ==> Precedence(d.source) <= 80
    ensures cs != [] && TopTie(cs)
  {
    TopsTie(cs, a, b);
  }

  lemma RuleOnlyGroup(db: Db, t: int)
    requires UnnamedBy(db.excludes, t) && UnnamedBy(db.overrides, t)
    ensures forall c :: c in Group(Candidates(db), t) ==> Precedence(c.source) <= 80
  {
    forall c | c in Group(Candidates(db), t) ensures Precedence(c.source) <= 80 { RuleOnlyRow(db, t, c); }
  }

  lemma SingleRank(db: Db, k: Key)
    requires IsSingle(db, k.rule) && k in db.clients
    ensures var c := RuleCandidate(TargetAt(db, k)); Precedence(c.source) == 80 && c.ruleId == k.rule
  {
  }

  /** Two active single-user rules on a row that no active policy names: the tick is refused. */
  lemma ClashIsRefused(db: Db, x: int, y: int, t: int)
    requires x != y && IsSingle(db, x) && IsSingle(db, y) && db.Owns(x, t) && db.Owns(y, t)
    requires UnnamedBy(db.excludes, t) && UnnamedBy(db.overrides, t)
    ensures DecideAll(Candidates(db)).Err?
  {
    var cs := Candidates(db);
    CandidateOnRow(db, Key(x, t));
    CandidateOnRow(db, Key(y, t));
    SingleRank(db, Key(x, t));
    SingleRank(db, Key(y, t));
    RuleOnlyGroup(db, t);
    RulesTie(Group(cs, t), RuleCandidate(TargetAt(db, Key(x, t))), RuleCandidate(TargetAt(db, Key(y, t))));
    GroupHasId(cs, t);
    DecideRefusesTies(cs);
  }
}
