/** No byte is factored twice, over every run of the machine. */
module Ledgers {
  import opened Collections
  import opened Model
  import opened Accounting
  import opened Decisions
  import opened PolicyTable
  import opened Baselines
  import opened Ticking
  import opened TickProofs
  import opened CommandProofs
  import opened Machine
  import opened MachineProofs
  import opened Resuming
  import C = Commands

  function Owed(db: Db, k: Key): Bytes
    requires k in db.clients && k.traffic in db.traffic
  {
    Delta(db.traffic[k.traffic], db.clients[k])
  }

  /**
   * What a live client's row has moved since its baseline is no more than the bytes since the row was last factored.
   */
  ghost predicate Honest(db: Db, since: Ledger) {
    forall k :: Live(db, k) && k.traffic in db.traffic ==> Within(Owed(db, k), At(since, k.traffic))
  }

  // The panel -------------------------------------------------------------

  lemma ValidAfterChange(db: Db, change: Change)
    requires Valid(db) && Possible(db, change)
    ensures Valid(Changed(db, change))
  {
  }

  lemma HonestAfterChange(db: Db, change: Change, since: Ledger)
    requires Honest(db, since) && Possible(db, change) && !change.AddBytes?
    ensures Honest(Changed(db, change), since)
  {
    var b := Changed(db, change);
    forall k | Live(b, k) && k.traffic in b.traffic ensures Within(Owed(b, k), At(since, k.traffic)) {
      assert Live(db, k) && k.traffic in db.traffic;
    }
  }

  lemma HonestAfterBytes(db: Db, t: int, bytes: Bytes, since: Ledger)
    requires Honest(db, since) && Possible(db, AddBytes(t, bytes))
    ensures Honest(Changed(db, AddBytes(t, bytes)), Increased(since, t, bytes))
  {
    var b := Changed(db, AddBytes(t, bytes));
    forall k | Live(b, k) && k.traffic in b.traffic
      ensures Within(Owed(b, k), At(Increased(since, t, bytes), k.traffic))
    {
      assert Live(db, k) && Within(Owed(db, k), At(since, k.traffic));
    }
  }

  // Commands --------------------------------------------------------------

  lemma HonestDescends(a: Db, b: Db, since: Ledger)
    requires Honest(a, since) && Descends(a, b)
    ensures Honest(b, since)
  {
    forall k | Live(b, k) && k.traffic in b.traffic ensures Within(Owed(b, k), At(since, k.traffic)) {
      if !AtCounters(b, k) {
        var r :| Live(a, Key(r, k.traffic)) && SameAccount(a.clients[Key(r, k.traffic)], b.clients[k]);
        assert Owed(b, k) == Owed(a, Key(r, k.traffic));
      }
    }
  }

  /**
   * A strayed client of a rule that the command brings back owes no more than what arrived since its row was last
   * factored.
   */
  ghost predicate StraysBacked(db: Db, step: Step, since: Ledger) {
    step.CommandStep? && step.command.ResumeAll? && Execute(db, step.command, step.now).Ok? ==>
      forall k :: Strayed(db, k) && BroughtBack(db, Execute(db, step.command, step.now).value, k.rule) ==>
        Within(Owed(db, k), At(since, k.traffic))
  }

  lemma ResumedHonest(a: Db, inbound: Option<int>, now: int, since: Ledger, k: Key)
    requires Honest(a, since) && C.ResumeAll(a, inbound, now).Ok?
    requires var b := C.ResumeAll(a, inbound, now).value;
             Live(b, k) && k.traffic in b.traffic
             && (Strayed(a, k) && BroughtBack(a, b, k.rule) ==> Within(Owed(a, k), At(since, k.traffic)))
    ensures Within(Owed(C.ResumeAll(a, inbound, now).value, k), At(since, k.traffic))
  {
    ResumeAllClient(a, inbound, now, k);
    if a.Active(k.rule) { assert Live(a, k); }
  }

  lemma StrayResumed(a: Db, inbound: Option<int>, now: int, since: Ledger, k: Key)
    requires C.ResumeAll(a, inbound, now).Ok? && Honest(C.ResumeAll(a, inbound, now).value, since)
    requires Strayed(a, k) && BroughtBack(a, C.ResumeAll(a, inbound, now).value, k.rule)
    ensures Within(Owed(a, k), At(since, k.traffic))
  {
    ResumeAllClient(a, inbound, now, k);
    assert Live(C.ResumeAll(a, inbound, now).value, k);
  }

  /** Resume-all leaves baselines honest exactly when the strayed clients it brings back owe no more than arrived. */
  lemma ResumeAllHonestExactly(a: Db, inbound: Option<int>, now: int, since: Ledger)
    requires Honest(a, since) && C.ResumeAll(a, inbound, now).Ok?
    ensures Honest(C.ResumeAll(a, inbound, now).value, since) <==>
            StraysBacked(a, CommandStep(ResumeAll(inbound), now), since)
  {
    var b, step := C.ResumeAll(a, inbound, now).value, CommandStep(ResumeAll(inbound), now);
    assert Execute(a, step.command, now) == C.ResumeAll(a, inbound, now);
    assert b.traffic == a.traffic by { ResumeAllKeeps(a, inbound, now); }
    if StraysBacked(a, step, since) {
      forall k | Live(b, k) && k.traffic in b.traffic ensures Within(Owed(b, k), At(since, k.traffic)) {
        ResumedHonest(a, inbound, now, since, k);
      }
    }
    if Honest(b, since) {
      forall k | Strayed(a, k) && BroughtBack(a, b, k.rule) ensures Within(Owed(a, k), At(since, k.traffic)) {
        StrayResumed(a, inbound, now, since, k);
      }
    }
  }

  /** Told from the tables alone: no paused rule that the command lists has a strayed client behind its row. */
  lemma NoneStrayedBacked(db: Db, inbound: Option<int>, now: int, since: Ledger)
    requires forall r :: r in C.RuleIds(db, inbound, {Paused}) ==> NoneStrayed(db, r)
    ensures StraysBacked(db, CommandStep(ResumeAll(inbound), now), since)
  {
    var step := CommandStep(ResumeAll(inbound), now);
    if Execute(db, step.command, now).Ok? {
      var b := C.ResumeAll(db, inbound, now).value;
      forall k | Strayed(db, k) && BroughtBack(db, b, k.rule) ensures Within(Owed(db, k), At(since, k.traffic)) {
        ListedWhenBack(db, inbound, now, k.rule);
      }
    }
  }

  lemma ListedWhenBack(db: Db, inbound: Option<int>, now: int, r: int)
    requires C.ResumeAll(db, inbound, now).Ok? && BroughtBack(db, C.ResumeAll(db, inbound, now).value, r)
    ensures r in C.RuleIds(db, inbound, {Paused})
  {
    if r !in C.RuleIds(db, inbound, {Paused}) {
      ResumeEachElsewhere(db, Ascending(C.RuleIds(db, inbound, {Paused})), now, r);
    }
  }

  lemma HonestAfterCommand(db: Db, command: Command, now: int, since: Ledger)
    requires Valid(db) && Honest(db, since) && now > 0 && Execute(db, command, now).Ok?
    requires StraysBacked(db, CommandStep(command, now), since)
    ensures Valid(Execute(db, command, now).value) && Honest(Execute(db, command, now).value, since)
  {
    CommandKeeps(db, command, now);
    if command.ResumeAll? {
      ResumeAllHonestExactly(db, command.inbound, now, since);
    } else {
      HonestDescends(db, Execute(db, command, now).value, since);
    }
  }

  // Ticks -----------------------------------------------------------------

  /**
   * A live client after a committed tick stands at the counters of its own row, or its row was locked and it stands
   * as before.
   */
  lemma LiveAfterTick(ready: Db, b: Db, env: TickEnv, now: int, k: Key)
    requires Committed(ready, b, env, now) && Live(b, k) && k.traffic in b.traffic
    ensures (AtCounters(b, k) && Matched(b, k))
            || (k.traffic in env.locked && Live(ready, k) && k.traffic in ready.traffic
                && b.traffic[k.traffic] == ready.traffic[k.traffic] && b.clients[k] == ready.clients[k])
  {
    CommittedFacts(ready, b, env, now);
    TickSettlesAll(ready, b, env, now, k);
  }

  lemma HonestAfterTick(ready: Db, b: Db, env: TickEnv, now: int, since: Ledger, rows: set<int>)
    requires Committed(ready, b, env, now) && Honest(ready, since) && rows !! env.locked
    ensures Honest(b, Cleared(since, rows))
  {
    forall k | Live(b, k) && k.traffic in b.traffic ensures Within(Owed(b, k), At(Cleared(since, rows), k.traffic)) {
      LiveAfterTick(ready, b, env, now, k);
      if !AtCounters(b, k) { assert Owed(b, k) == Owed(ready, k); }
    }
  }

  lemma {:induction false} DecisionAtFinds(ds: seq<Decision>, d: Decision)
    requires AscendingTraffic(ds) && d in ds
    ensures DecisionAt(ds, d.trafficId) == Some(d)
  {
    if ds[0] != d {
      assert d in ds[1..];
      LaterTraffic(ds, d);
      DecisionAtFinds(ds[1..], d);
    }
  }

  lemma {:induction false} DecisionAtIn(ds: seq<Decision>, t: int)
    ensures DecisionAt(ds, t).Some? ==> DecisionAt(ds, t).value in ds && DecisionAt(ds, t).value.trafficId == t
  {
    if ds != [] { DecisionAtIn(ds[1..], t); }
  }

  lemma ChargedOnDecision(ready: Db, ds: seq<Decision>, d: Decision)
    requires DecisionAt(ds, d.trafficId) == Some(d) && d.target.Some? && d.trafficId in ready.traffic
    ensures ChargedOn(ready, ds, d.trafficId) == Delta(ready.traffic[d.trafficId], d.target.value.client)
  {
  }

  lemma DecisionFound(ready: Db, d: Decision)
    requires DecideAll(Candidates(ready)).Ok? && d in DecideAll(Candidates(ready)).value
    ensures DecisionAt(DecideAll(Candidates(ready)).value, d.trafficId) == Some(d)
  {
    assert AscendingTraffic(DecideAll(Candidates(ready)).value) by { DecidePerTraffic(Candidates(ready)); }
    DecisionAtFinds(DecideAll(Candidates(ready)).value, d);
  }

  /** The decision behind a factored row. */
  lemma FactoringDecision(ready: Db, ds: seq<Decision>, env: TickEnv, t: int) returns (d: Decision)
    requires DecideAll(Candidates(ready)) == Ok(ds) && t in FactoredRows(ready, ds, env)
    ensures d in ds && d.trafficId == t && d.target.Some? && TickProofs.Fits(ready, d)
    ensures Factors(ready, d.target.value, env) && d.target.value.trafficId == t
            && d.target.value.factorPpm == d.factorPpm
    ensures ChargedOn(ready, ds, t) == Delta(ready.traffic[t], d.target.value.client)
  {
    DecisionAtIn(ds, t);
    d := DecisionAt(ds, t).value;
    DecisionFits(ready, d);
    ChargedOnDecision(ready, ds, d);
  }

  /**
   * A factored row is charged for a live client with the row's email, on exactly what it owes, and no exclude names
   * the row.
   */
  lemma FactoredRow(ready: Db, ds: seq<Decision>, env: TickEnv, t: int) returns (k: Key)
    requires DecideAll(Candidates(ready)) == Ok(ds) && t in FactoredRows(ready, ds, env)
    ensures k.traffic == t && Live(ready, k) && Matched(ready, k)
    ensures ChargedOn(ready, ds, t) == Owed(ready, k)
    ensures !Excluded(ready, t) && t !in env.locked
  {
    var d := FactoringDecision(ready, ds, env, t);
    k := TargetKey(d.target.value);
    if Excluded(ready, t) { ExcludedRefused(ready, d, k); }
  }

  /** Where an active exclude names an active client of the row, the row's decision has no target. */
  lemma ExcludedRefused(ready: Db, d: Decision, k: Key)
    requires DecideAll(Candidates(ready)).Ok? && d in DecideAll(Candidates(ready)).value && d.trafficId == k.traffic
    requires Live(ready, k) && Matched(ready, k) && Excluded(ready, k.traffic)
    ensures d.target.None?
  {
    var t, cs := k.traffic, Candidates(ready);
    var id :| id in ready.excludes && ActiveRow(ready.excludes, id)
        && NamesClient(ready.excludes[id], t, ready.traffic[t].email);
    ExcludeHasCandidate(ready, id, k);
    var e :| e in Group(cs, t) && e.source.SourceExclude? && e.target.None?;
    DecidePerTraffic(cs);
    WinnerIsTop(Group(cs, t));
    var c :| Wins(Group(cs, t), c) && d.target == c.target && d.source == c.source;
    ExcludeWins(Group(cs, t), c, e);
  }

  lemma ExcludeWins(cs: seq<Candidate>, c: Candidate, e: Candidate)
    requires Wins(cs, c) && e in cs && e.source.SourceExclude?
    ensures c == e
  {
    assert Top(cs, e);
  }

  // What the ledger records -------------------------------------------------

  /**
   * One direction of an applied factor: whole bytes added and fraction carried are exactly the share of the delta and
   * of the carried fraction.
   */
  predicate Applied(delta: int, before: int, after: int, remBefore: int, remAfter: int, factorPpm: int) {
    if factorPpm == SCALE then after == before && remAfter == 0
    else SCALE * (after - before) + remAfter == delta * (factorPpm - SCALE) + remBefore && 0 <= remAfter < SCALE
  }

  lemma SettleApplies(row: Traffic, rc: RuleClient, factorPpm: int64)
    requires ChargeFor(row, rc, factorPpm).Ok?
             && (ChargeFor(row, rc, factorPpm).value.Charged? || ChargeFor(row, rc, factorPpm).value.Baselined?)
    ensures Settle(row, rc, factorPpm).Ok?
    ensures var ((row', rc'), delta) := (Settle(row, rc, factorPpm).value, Delta(row, rc));
            && Applied(delta.up, row.up, row'.up, rc.remUp, rc'.remUp, factorPpm)
            && Applied(delta.down, row.down, row'.down, rc.remDown, rc'.remDown, factorPpm)
  {
  }

  lemma SettleIdles(row: Traffic, rc: RuleClient, factorPpm: int64)
    requires Settle(row, rc, factorPpm).Ok?
    requires !ChargeFor(row, rc, factorPpm).value.Charged? && !ChargeFor(row, rc, factorPpm).value.Baselined?
    ensures var (row', rc') := Settle(row, rc, factorPpm).value;
            row' == row && ((rc'.remUp == rc.remUp && rc'.remDown == rc.remDown)
                || (rc'.remUp == 0 && rc'.remDown == 0))
  {
  }

  /** On a recorded row the decided factor was applied, to the byte and the fraction, to exactly the recorded bytes. */
  lemma RecordedIsApplied(ready: Db, b: Db, env: TickEnv, now: int, t: int)
    requires Committed(ready, b, env, now) && t in FactoredRows(ready, DecideAll(Candidates(ready)).value, env)
    ensures exists d :: d in DecideAll(Candidates(ready)).value && d.trafficId == t && d.target.Some?
                        && AppliedOn(ready, b, d)
  {
    var d := FactoringDecision(ready, DecideAll(Candidates(ready)).value, env, t);
    CommittedFacts(ready, b, env, now);
    assert Outcome(ready, b, d, env, now);
    SettleApplies(ready.traffic[t], d.target.value.client, d.factorPpm);
    assert AppliedOn(ready, b, d);
  }

  predicate AppliedOn(ready: Db, b: Db, d: Decision)
    requires d.target.Some?
  {
    var k, t := TargetKey(d.target.value), d.trafficId;
    && k in ready.clients && k in b.clients && t in ready.traffic && t in b.traffic && k.traffic == t
    && var delta := Delta(ready.traffic[t], ready.clients[k]);
       && Applied(delta.up, ready.traffic[t].up, b.traffic[t].up, ready.clients[k].remUp, b.clients[k].remUp,
           d.factorPpm)
       && Applied(delta.down, ready.traffic[t].down, b.traffic[t].down, ready.clients[k].remDown,
           b.clients[k].remDown, d.factorPpm)
  }

  lemma WinnerNotFactored(ready: Db, b: Db, x: Target, env: TickEnv, now: int)
    requires WinnerOutcome(ready, b, x, env, now) && TargetKey(x) in ready.clients
             && ready.clients[TargetKey(x)] == x.client && !Factors(ready, x, env)
    ensures NoNewFraction(ready, b, TargetKey(x))
    ensures x.trafficId in ready.traffic ==> x.trafficId in b.traffic
                                             && b.traffic[x.trafficId] == ready.traffic[x.trafficId]
  {
    if x.trafficId in ready.traffic && x.trafficId !in env.locked
        && ready.traffic[x.trafficId].email == x.client.email {
      SettleIdles(ready.traffic[x.trafficId], x.client, x.factorPpm);
    }
  }

  /**
   * On a row that is not recorded nothing is factored: its counters stay, and no active client of it gains a
   * fraction.
   */
  lemma UnrecordedIsNotFactored(ready: Db, b: Db, env: TickEnv, now: int, k: Key)
    requires Committed(ready, b, env, now) && ActiveKey(ready, k)
             && k.traffic !in FactoredRows(ready, DecideAll(Candidates(ready)).value, env)
    ensures k.traffic in ready.traffic ==> k.traffic in b.traffic && b.traffic[k.traffic] == ready.traffic[k.traffic]
    ensures NoNewFraction(ready, b, k)
  {
    var d := DecisionOf(ready, k);
    DecisionFound(ready, d);
    DecisionFits(ready, d);
    CommittedFacts(ready, b, env, now);
    assert Outcome(ready, b, d, env, now);
    if d.target.Some? { WinnerNotFactored(ready, b, d.target.value, env, now); }
    NamedNotFactored(ready, b, d, env, now, k);
  }

  /** A client that the decision names gains no fraction when the winner does not. */
  lemma NamedNotFactored(ready: Db, b: Db, d: Decision, env: TickEnv, now: int, k: Key)
    requires Outcome(ready, b, d, env, now) && k in Named(d)
    requires d.target.Some? ==> NoNewFraction(ready, b, TargetKey(d.target.value))
    ensures NoNewFraction(ready, b, k)
  {
    KeysMember(d.suppressed, k);
  }

  // Books -----------------------------------------------------------------

  /** Per row: what was charged, what may still be charged, and what arrived. */
  datatype Books = Books(charged: Ledger, pending: Ledger, total: Ledger)

  /** What was charged and what may still be charged fits into what arrived. */
  ghost predicate Backed(a: Books) {
    forall t :: Within(Plus(At(a.charged, t), At(a.pending, t)), At(a.total, t))
  }

  /** What was charged and what may still be charged grew by no more than what arrived. */
  predicate BooksGrewOn(a: Books, b: Books, t: int) {
    Within(Plus(Plus(At(b.charged, t), At(b.pending, t)), At(a.total, t)),
        Plus(Plus(At(a.charged, t), At(a.pending, t)), At(b.total, t)))
  }

  ghost predicate BooksGrew(a: Books, b: Books) {
    forall t :: BooksGrewOn(a, b, t)
  }

  lemma BooksGrewTransitive(a: Books, b: Books, c: Books)
    requires BooksGrew(a, b) && BooksGrew(b, c)
    ensures BooksGrew(a, c)
  {
    forall t ensures BooksGrewOn(a, c, t) { assert BooksGrewOn(a, b, t) && BooksGrewOn(b, c, t); }
  }

  lemma BooksGrewBacked(a: Books, b: Books)
    requires Backed(a) && BooksGrew(a, b)
    ensures Backed(b)
  {
    forall t ensures Within(Plus(At(b.charged, t), At(b.pending, t)), At(b.total, t)) {
      assert BooksGrewOn(a, b, t) && Within(Plus(At(a.charged, t), At(a.pending, t)), At(a.total, t));
    }
  }

  lemma ChargesAt(charged: Ledger, ready: Db, ds: seq<Decision>, rows: set<int>, t: int)
    ensures At(Charges(charged, ready, ds, rows), t) == if t in rows then
              Plus(At(charged, t), ChargedOn(ready, ds, t)) else At(charged, t)
  {
  }

  lemma ClearedAt(ledger: Ledger, rows: set<int>, t: int)
    ensures At(Cleared(ledger, rows), t) == if t in rows then NOTHING else At(ledger, t)
  {
  }

  lemma ChargedRowGrew(charged: Bytes, pending: Bytes, total: Bytes, bytes: Bytes)
    requires Within(bytes, pending)
    ensures Within(Plus(Plus(Plus(charged, bytes), NOTHING), total), Plus(Plus(charged, pending), total))
  {
  }

  lemma BooksGrewAfterTick(a: Books, ready: Db, ds: seq<Decision>, rows: set<int>)
    requires forall t :: t in rows ==> Within(ChargedOn(ready, ds, t), At(a.pending, t))
    ensures BooksGrew(a, Books(Charges(a.charged, ready, ds, rows), Cleared(a.pending, rows), a.total))
  {
    var b := Books(Charges(a.charged, ready, ds, rows), Cleared(a.pending, rows), a.total);
    forall t ensures BooksGrewOn(a, b, t) {
      ChargesAt(a.charged, ready, ds, rows, t);
      ClearedAt(a.pending, rows, t);
      if t in rows { ChargedRowGrew(At(a.charged, t), At(a.pending, t), At(a.total, t), ChargedOn(ready, ds, t)); }
    }
  }

  lemma AtIncreased(ledger: Ledger, t: int, bytes: Bytes, u: int)
    ensures At(Increased(ledger, t, bytes), u) == if u == t then Plus(At(ledger, t), bytes) else At(ledger, u)
  {
  }

  lemma BooksGrewAfterBytes(a: Books, t: int, bytes: Bytes)
    ensures BooksGrew(a, Books(a.charged, Increased(a.pending, t, bytes), Increased(a.total, t, bytes)))
  {
    forall u ensures BooksGrewOn(a, Books(a.charged, Increased(a.pending, t, bytes), Increased(a.total, t, bytes)), u) {
      AtIncreased(a.pending, t, bytes, u);
      AtIncreased(a.total, t, bytes, u);
    }
  }

  lemma BooksGrewWhenCleared(a: Books, rows: set<int>)
    ensures BooksGrew(a, Books(a.charged, Cleared(a.pending, rows), a.total))
  {
  }

  // Runs ------------------------------------------------------------------

  lemma TickAdvances(w: World, env: TickEnv, now: int)
    requires Tick(w.db, env, now).Ok?
    ensures Prepared(w.db, now).Ok? && DecideAll(Candidates(Prepared(w.db, now).value)).Ok?
    ensures Advance(w, TickStep(env, now))
            == Ticked(w, Prepared(w.db, now).value, DecideAll(Candidates(Prepared(w.db, now).value)).value, env,
                Tick(w.db, env, now).value)
  {
    TickParts(w.db, env, now);
    OutcomeTicked(w, Prepared(w.db, now), env, Tick(w.db, env, now));
  }

  lemma OutcomeTicked(w: World, ready: Result<Db>, env: TickEnv, after: Result<Db>)
    requires ready.Ok? && after.Ok? && DecideAll(Candidates(ready.value)).Ok?
    ensures TickOutcome(w, ready, env, after)
            == Ticked(w, ready.value, DecideAll(Candidates(ready.value)).value, env, after.value)
  {
  }

  lemma TickRefused(w: World, env: TickEnv, now: int)
    requires Tick(w.db, env, now).Err?
    ensures Advance(w, TickStep(env, now)) == w
  {
  }

  /** The tables a committed tick decided on, and those it left. */
  lemma TickTaken(w: World, env: TickEnv, now: int) returns (ready: Db, after: Db)
    requires Valid(w.db) && Tick(w.db, env, now).Ok?
    ensures Prepared(w.db, now) == Ok(ready) && Tick(w.db, env, now) == Ok(after) && now > 0
    ensures Committed(ready, after, env, now) && Kept(w.db, ready, None) && Descends(w.db, ready)
    ensures Advance(w, TickStep(env, now)) == Ticked(w, ready, DecideAll(Candidates(ready)).value, env, after)
  {
    TickAdvances(w, env, now);
    TickParts(w.db, env, now);
    PreparedKeeps(w.db, now);
    ready, after := Prepared(w.db, now).value, Tick(w.db, env, now).value;
  }

  function Whole(w: World): Books {
    Books(w.charged, w.since, w.raw)
  }

  /**
   * No live client owes more than what arrived since its row was last factored, and nothing was charged beyond what
   * arrived.
   */
  ghost predicate Single(w: World) {
    Valid(w.db) && Honest(w.db, w.since) && Backed(Whole(w))
  }

  lemma HonestTick(w: World, env: TickEnv, now: int)
    requires Valid(w.db) && Honest(w.db, w.since)
    ensures HonestFrom(w, Advance(w, TickStep(env, now)))
  {
    if Tick(w.db, env, now).Err? {
      TickRefused(w, env, now);
    } else {
      var ready, after := TickTaken(w, env, now);
      HonestTicked(w, ready, after, env, now);
    }
  }

  ghost predicate HonestFrom(w: World, after: World) {
    Valid(after.db) && Honest(after.db, after.since) && BooksGrew(Whole(w), Whole(after))
  }

  /** The factored rows are not locked, and each is charged what one of its live clients owes. */
  lemma FactoredWithin(ready: Db, ds: seq<Decision>, env: TickEnv, since: Ledger, rows: set<int>)
    requires DecideAll(Candidates(ready)) == Ok(ds) && rows == FactoredRows(ready, ds, env) && Honest(ready, since)
    ensures rows !! env.locked && forall t :: t in rows ==> Within(ChargedOn(ready, ds, t), At(since, t))
  {
    forall t | t in rows ensures t !in env.locked && Within(ChargedOn(ready, ds, t), At(since, t)) {
      var k := FactoredRow(ready, ds, env, t);
    }
  }

  lemma HonestTicked(w: World, ready: Db, after: Db, env: TickEnv, now: int)
    requires Honest(w.db, w.since) && Valid(ready) && Descends(w.db, ready) && Committed(ready, after, env, now)
    ensures HonestFrom(w, Ticked(w, ready, DecideAll(Candidates(ready)).value, env, after))
  {
    var ds := DecideAll(Candidates(ready)).value;
    HonestDescends(w.db, ready, w.since);
    CommittedValid(ready, after, env, now);
    FactoredWithin(ready, ds, env, w.since, FactoredRows(ready, ds, env));
    HonestAfterTick(ready, after, env, now, w.since, FactoredRows(ready, ds, env));
    BooksGrewAfterTick(Whole(w), ready, ds, FactoredRows(ready, ds, env));
    TickedBooks(w, ready, ds, env, after, FactoredRows(ready, ds, env));
  }

  lemma TickedBooks(w: World, ready: Db, ds: seq<Decision>, env: TickEnv, after: Db, rows: set<int>)
    requires rows == FactoredRows(ready, ds, env)
    ensures var b := Ticked(w, ready, ds, env, after);
            && b.db == after && b.since == Cleared(w.since, rows) && b.allowed == Cleared(w.allowed, rows)
            && b.charged == Charges(w.charged, ready, ds, rows) && b.raw == w.raw && b.eligible == w.eligible
  {
  }

  lemma HonestBytes(w: World, t: int, bytes: Bytes)
    requires Valid(w.db) && Honest(w.db, w.since) && Possible(w.db, AddBytes(t, bytes))
    ensures HonestFrom(w, Arrived(w, t, bytes).(db := Changed(w.db, AddBytes(t, bytes))))
  {
    ValidAfterChange(w.db, AddBytes(t, bytes));
    HonestAfterBytes(w.db, t, bytes, w.since);
    BooksGrewAfterBytes(Whole(w), t, bytes);
  }

  lemma HonestPanel(w: World, change: Change)
    requires Valid(w.db) && Honest(w.db, w.since)
    ensures HonestFrom(w, Advance(w, PanelStep(change)))
  {
    if Possible(w.db, change) {
      if change.AddBytes? {
        HonestBytes(w, change.t, change.bytes);
      } else {
        ValidAfterChange(w.db, change);
        HonestAfterChange(w.db, change, w.since);
      }
    }
  }

  lemma HonestCommand(w: World, command: Command, now: int)
    requires Valid(w.db) && Honest(w.db, w.since) && now > 0 && StraysBacked(w.db, CommandStep(command, now), w.since)
    ensures HonestFrom(w, Advance(w, CommandStep(command, now)))
  {
    if Execute(w.db, command, now).Ok? { HonestAfterCommand(w.db, command, now, w.since); }
  }

  ghost predicate ResumesBacked(w: World, steps: seq<Step>)
    decreases |steps|
  {
    steps == [] || (StraysBacked(w.db, steps[0], w.since) && ResumesBacked(Advance(w, steps[0]), steps[1..]))
  }

  lemma HonestStep(w: World, step: Step)
    requires Valid(w.db) && Honest(w.db, w.since) && Timed(step) && StraysBacked(w.db, step, w.since)
    ensures HonestFrom(w, Advance(w, step))
  {
    match step
    case PanelStep(change) => HonestPanel(w, change);
    case CommandStep(command, now) => HonestCommand(w, command, now);
    case TickStep(env, now) => HonestTick(w, env, now);
  }

  /** From any moment on: what is charged and what may still be charged grows by no more than what the panel adds. */
  lemma {:induction false} HonestRun(w: World, steps: seq<Step>)
    requires Valid(w.db) && Honest(w.db, w.since) && (forall step :: step in steps ==> Timed(step))
             && ResumesBacked(w, steps)
    ensures HonestFrom(w, Run(w, steps))
    decreases |steps|
  {
    if steps != [] {
      var step := steps[0];
      assert step in steps;
      HonestStep(w, step);
      HonestRun(Advance(w, step), steps[1..]);
      BooksGrewTransitive(Whole(w), Whole(Advance(w, step)), Whole(Run(w, steps)));
    }
  }

  /**
   * Over every run - renames, resets, replaced rows, deferred and aborted ticks, adoption, policy changes, fractions
   * that add no byte yet - no byte has a factor applied to it twice: per row, what was charged never exceeds what the
   * panel added, and what any live client may still be charged for never exceeds the bytes since the row was last
   * factored. Asked of the run: that a resume-all never brings back a strayed client that owes more than that.
   */
  lemma NoDoubleCharge(w: World, steps: seq<Step>)
    requires Single(w) && (forall step :: step in steps ==> Timed(step)) && ResumesBacked(w, steps)
    ensures Single(Run(w, steps))
    ensures forall t :: Within(At(Run(w, steps).charged, t), At(Run(w, steps).raw, t))
  {
    HonestRun(w, steps);
    BooksGrewBacked(Whole(w), Whole(Run(w, steps)));
    BackedWithin(Whole(Run(w, steps)));
  }

  lemma BackedWithin(a: Books)
    requires Backed(a)
    ensures forall t :: Within(At(a.charged, t), At(a.total, t))
  {
    forall t ensures Within(At(a.charged, t), At(a.total, t)) {
      assert Within(Plus(At(a.charged, t), At(a.pending, t)), At(a.total, t));
    }
  }
}
