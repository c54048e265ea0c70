/** What one step of the machine keeps. */
module MachineProofs {
  import opened Collections
  import opened Model
  import opened Accounting
  import opened Decisions
  import opened PolicyTable
  import opened Baselines
  import opened Ticking
  import opened TickProofs
  import opened CommandProofs
  import opened BulkProofs
  import opened ReconcilePreview
  import opened EnrolProofs
  import opened Machine
  import C = Commands
  import R = Reconciling
  import K = Cleanup

  // Commands --------------------------------------------------------------

  /** Every row named by an active exclude, but perhaps `except`, is still named by one. */
  ghost predicate StillExcluded(a: Db, b: Db, except: Option<int>) {
    forall u :: Excluded(a, u) && except != Some(u) ==> Excluded(b, u)
  }

  ghost predicate RowSettled(b: Db, row: Option<int>) {
    forall k: Key :: row == Some(k.traffic) && Live(b, k) && Matched(b, k) ==> AtCounters(b, k)
  }

  ghost predicate Kept(a: Db, b: Db, row: Option<int>) {
    Valid(b) && DescendsMatched(a, b) && StillExcluded(a, b, row) && RowSettled(b, row)
  }

  lemma DescendsIsMatched(a: Db, b: Db)
    requires Descends(a, b)
    ensures DescendsMatched(a, b)
  {
  }

  lemma StateCommandKeeps(db: Db, command: Command, now: int)
    requires Valid(db) && now > 0 && Execute(db, command, now).Ok?
    requires command.Enable? || command.Pause? || command.Disable? || command.Resume? || command.PauseAll?
             || command.DisableAll?
    ensures var b := Execute(db, command, now).value; Kept(db, b, None) && Descends(db, b)
  {
    var b := Execute(db, command, now).value;
    match command
    case Enable(email, inbound, factor) => EnableKeeps(db, email, inbound, factor, now);
    case Resume(email, inbound) => ResumeKeeps(db, email, inbound, now);
    case Pause(email, inbound) => TransitionKeeps(db, email, inbound, {Active}, Paused, now); StoppedKeeps(db, b);
    case Disable(email, inbound) => TransitionKeeps(db, email, inbound, {Active, State.Paused}, State.Disabled, now);
          StoppedKeeps(db, b);
    case PauseAll(inbound) => SetStatesStops(db, Ascending(C.RuleIds(db, inbound, {Active})), Paused, now);
          StoppedKeeps(db, b);
    case DisableAll(inbound) => SetStatesStops(db, Ascending(C.RuleIds(db, inbound, {Active, State.Paused})),
        State.Disabled, now); StoppedKeeps(db, b);
    DescendsIsMatched(db, b);
  }

  lemma ResumeAllCommandKeeps(db: Db, inbound: Option<int>, now: int)
    requires Valid(db) && C.ResumeAll(db, inbound, now).Ok?
    ensures var b := C.ResumeAll(db, inbound, now).value;
            Kept(db, b, None)
  {
    ResumeAllKeeps(db, inbound, now);
  }

  lemma PolicyCommandKeeps(db: Db, command: Command, now: int)
    requires Valid(db) && Execute(db, command, now).Ok?
    requires command.Exclude? || command.Unexclude? || command.Override? || command.RemoveOverride?
    ensures var b := Execute(db, command, now).value; Kept(db, b, SettledRow(db, command)) && Descends(db, b)
  {
    var b := Execute(db, command, now).value;
    match command
    case Exclude(email, at) => ExcludeKeeps(db, email, at, now);
    case Unexclude(email, at) => UnexcludeKeeps(db, email, at, now);
    case Override(email, at, factor) => OverrideKeeps(db, email, at, factor, now);
    case RemoveOverride(email, at) => RemoveOverrideKeeps(db, email, at, now);
    DescendsIsMatched(db, b);
  }

  lemma ReconciledKept(db: Db, inbound: Option<int>, now: int)
    requires Valid(db) && now > 0
    ensures var b := R.Reconcile(db, inbound, now, false).value.0; Kept(db, b, None) && Descends(db, b)
  {
    ReconcileKeeps(db, inbound, now);
    var b := R.Reconcile(db, inbound, now, false).value.0;
    DescendsIsMatched(db, b);
    forall u | Excluded(db, u) ensures Excluded(b, u) { NamedAfterReconcile(db, inbound, now, u); }
  }

  lemma CleanedKept(db: Db, o: K.Options)
    requires Valid(db) && K.Positive(o)
    ensures var b := K.Clean(db, o, false).value.0; Kept(db, b, None) && Descends(db, b)
  {
    var b := K.Clean(db, o, false).value.0;
    var c := K.CutoffsOf(o);
    K.CleanupKeepsTheRest(db, c, o.now);
    K.CleanedSound(db, b, c.missing, c.retention, o.now);
    FewerLiveDescends(db, b);
    DescendsIsMatched(db, b);
    forall u | Excluded(db, u) ensures Excluded(b, u) {
      var id :| id in db.excludes && ActiveRow(db.excludes, id) && NamesClient(db.excludes[id], u, db.traffic[u].email);
      assert b.traffic == db.traffic && id in b.excludes && ActiveRow(b.excludes, id);
    }
  }

  lemma SelfKept(db: Db)
    requires Valid(db)
    ensures Kept(db, db, None) && Descends(db, db)
  {
    DescendsReflexive(db);
    DescendsIsMatched(db, db);
  }

  lemma ReconcileCommandKeeps(db: Db, inbound: Option<int>, dryRun: bool, now: int)
    requires Valid(db) && now > 0
    ensures var b := R.Reconcile(db, inbound, now, dryRun).value.0; Kept(db, b, None) && Descends(db, b)
  {
    if dryRun { DryRunIsFaithful(db, inbound, now); SelfKept(db); } else { ReconciledKept(db, inbound, now); }
  }

  lemma CleanCommandKeeps(db: Db, options: K.Options, dryRun: bool)
    requires Valid(db) && K.Clean(db, options, dryRun).Ok?
    ensures var b := K.Clean(db, options, dryRun).value.0; Kept(db, b, None) && Descends(db, b)
  {
    if dryRun { K.CleanupDryRunTellsTheTruth(db, options); SelfKept(db); } else { CleanedKept(db, options); }
  }

  lemma EnableAllCommandKeeps(db: Db, bulk: C.Bulk, once: bool, factor: string, now: int)
    requires Valid(db) && now > 0 && C.EnableAll(db, bulk, once, factor, now).Ok?
    ensures var b := C.EnableAll(db, bulk, once, factor, now).value; Kept(db, b, None) && Descends(db, b)
  {
    EnableAllKeeps(db, bulk, once, factor, now);
    DescendsIsMatched(db, C.EnableAll(db, bulk, once, factor, now).value);
  }

  lemma ReconcileExecuted(db: Db, inbound: Option<int>, dryRun: bool, now: int)
    requires Execute(db, Reconcile(inbound, dryRun), now).Ok?
    ensures Execute(db, Reconcile(inbound, dryRun), now).value == R.Reconcile(db, inbound, now, dryRun).value.0
  {
  }

  lemma CleanExecuted(db: Db, options: K.Options, dryRun: bool, now: int)
    requires Execute(db, Clean(options, dryRun), now).Ok?
    ensures K.Clean(db, options, dryRun).Ok?
            && Execute(db, Clean(options, dryRun), now).value == K.Clean(db, options, dryRun).value.0
  {
  }

  lemma UpkeepKeeps(db: Db, command: Command, now: int)
    requires Valid(db) && now > 0 && Execute(db, command, now).Ok?
    requires command.Reconcile? || command.Clean? || command.EnableAll?
    ensures Kept(db, Execute(db, command, now).value, None) && Descends(db, Execute(db, command, now).value)
  {
    if command.Reconcile? {
      ReconcileExecuted(db, command.inbound, command.dryRun, now);
      ReconcileCommandKeeps(db, command.inbound, command.dryRun, now);
    } else if command.Clean? {
      CleanExecuted(db, command.options, command.dryRun, now);
      CleanCommandKeeps(db, command.options, command.dryRun);
    } else {
      EnableAllCommandKeeps(db, command.bulk, command.once, command.factor, now);
    }
  }

  /**
   * A command keeps the tables valid and every live account honest, releases no row from its excludes but Unexclude's
   * own, and settles the row of a policy command.
   */
  lemma CommandKeeps(db: Db, command: Command, now: int)
    requires Valid(db) && now > 0 && Execute(db, command, now).Ok?
    ensures Kept(db, Execute(db, command, now).value, SettledRow(db, command))
    ensures !command.ResumeAll? ==> Descends(db, Execute(db, command, now).value)
  {
    if command.Exclude? || command.Unexclude? || command.Override? || command.RemoveOverride? {
      PolicyCommandKeeps(db, command, now);
    } else if command.Reconcile? || command.Clean? || command.EnableAll? {
      UpkeepKeeps(db, command, now);
    } else if command.ResumeAll? {
      ResumeAllCommandKeeps(db, command.inbound, now);
    } else {
      StateCommandKeeps(db, command, now);
    }
  }

  // Ticks -----------------------------------------------------------------

  lemma TickParts(db: Db, env: TickEnv, now: int)
    requires Tick(db, env, now).Ok?
    ensures now > 0 && Prepared(db, now).Ok? && DecideAll(Candidates(Prepared(db, now).value)).Ok?
    ensures Committed(Prepared(db, now).value, Tick(db, env, now).value, env, now)
  {
  }

  lemma PreparedKeeps(db: Db, now: int)
    requires Valid(db) && now > 0
    ensures Prepared(db, now).Ok?
    ensures var b := Prepared(db, now).value; Kept(db, b, None) && Descends(db, b)
  {
    ReconciledKept(db, None, now);
    var m := R.Reconcile(db, None, now, false).value.0;
    var b := Enrol(m, now);
    EnrolKeeps(m, now);
    DescendsTransitive(db, m, b);
    DescendsIsMatched(db, b);
    assert StillExcluded(db, b, None) by {
      forall u | Excluded(db, u) ensures Excluded(b, u) { assert Excluded(m, u); }
    }
  }

  /** A committed tick changes a row at most in its counters. */
  lemma CommittedRow(ready: Db, b: Db, env: TickEnv, now: int, t: int)
    requires Committed(ready, b, env, now)
    ensures t in b.traffic <==> t in ready.traffic
    ensures t in b.traffic ==> b.traffic[t] == ready.traffic[t].(up := b.traffic[t].up, down := b.traffic[t].down)
  {
    CommittedFacts(ready, b, env, now);
    if t in ready.traffic && b.traffic[t] != ready.traffic[t] {
      ChangedRowsAreCharged(ready, b, env, now, t);
      var d :| d in DecideAll(Candidates(ready)).value && d.target.Some? && d.trafficId == t
          && ChargedBy(ready, b, t, d.target.value);
      var x := d.target.value;
      SettleRests(ready.traffic[t], ready.clients[TargetKey(x)], x.factorPpm);
    }
  }

  lemma SameEmailsValid(a: Db, b: Db)
    requires b == a.(traffic := b.traffic, clients := b.clients, events := b.events)
    requires b.clients.Keys == a.clients.Keys
    requires forall t :: t in b.traffic ==> t in a.traffic && b.traffic[t].email == a.traffic[t].email
    requires Valid(a)
    ensures Valid(b)
  {
  }

  lemma CommittedValid(ready: Db, b: Db, env: TickEnv, now: int)
    requires Committed(ready, b, env, now) && Valid(ready)
    ensures Valid(b)
  {
    assert b == ready.(traffic := b.traffic, clients := b.clients, events := b.events)
        && b.clients.Keys == ready.clients.Keys by {
      CommittedFacts(ready, b, env, now);
    }
    forall t | t in b.traffic ensures t in ready.traffic && b.traffic[t].email == ready.traffic[t].email {
      CommittedRow(ready, b, env, now, t);
    }
    SameEmailsValid(ready, b);
  }
}
