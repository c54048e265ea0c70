/** Concrete runs on which each assumption of the run theorems is needed. */
module Limits {
  import opened Collections
  import opened Model
  import opened Accounting
  import opened PolicyTable
  import opened Baselines
  import opened Ticking
  import opened CommandProofs
  import opened ReconcileProofs
  import opened ReconcileTheorems
  import opened Machine
  import opened Ledgers
  import opened Earnings
  import opened Quiescence
  import opened Effective
  import opened Rest
  import opened Commits
  import C = Commands
  import R = Reconciling

  function Row(email: string, up: int64): Traffic {
    Traffic(1, true, email, up, 0, 0)
  }

  function ClientAt(email: string, up: int64): RuleClient {
    RuleClient(1, email, up, 0, 0, 0, None)
  }

  function RuleFor(email: string, state: State): Rule {
    Rule(1, email, 2 * SCALE, state, 1, None)
  }

  // A recreated client that is enabled again -------------------------------

  /**
   * Rule 1 was enabled on row 5, which the panel replaced by row 6; rule 2 was enabled on row 6 before any reconcile.
   */
  function Recreated(): Db {
    Db(map[6 := Row("a", 0)], {}, map[1 := RuleFor("a", Active), 2 := RuleFor("a", Active)], map[],
       map[Key(1, 5) := ClientAt("a", 0), Key(2, 6) := ClientAt("a", 0)], map[], map[], [], 3, 1, 1)
  }

  lemma RecreatedPlaces()
    ensures ResolvesTo(Recreated(), 1, 6) && ResolvesTo(Recreated(), 2, 6)
  {
    var db := Recreated();
    assert db.ClientsOf(1) == {5};
    assert db.ClientsOf(2) == {6};
    assert db.RowsByEmail("a") == {6};
  }

  lemma RecreatedListed()
    ensures 1 in R.ListSingles(Recreated(), None) && 2 in R.ListSingles(Recreated(), None)
    ensures R.ListPersistentScopes(Recreated()) == []
  {
    var db := Recreated();
    assert 1 in R.SingleIds(db, None) && 2 in R.SingleIds(db, None);
    assert R.PersistentIds(db) == {};
  }

  lemma RecreatedUnsettled(rules: seq<int>)
    requires 1 in rules && 2 in rules
    ensures !Settles(Recreated(), [], rules)
  {
    RecreatedPlaces();
    assert Contested(Recreated(), 1, 6) && Contested(Recreated(), 2, 6);
    assert !AdmittedUpTo(Recreated(), [], rules, 1, 6);
  }

  lemma RecreatedIsValid()
    ensures Valid(Recreated()) && OneOwner(Recreated())
  {
  }

  /** One owner per row before the reconcile, two after it. */
  lemma RecreatedClientClashes()
    ensures Valid(Recreated()) && OneOwner(Recreated())
    ensures !OneOwner(R.Rules(Recreated(), None, 1, false).0)
  {
    var db := Recreated();
    RecreatedIsValid();
    RecreatedListed();
    RecreatedUnsettled(R.ListSingles(db, None));
    OneOwnerExactly(db, 1);
  }

  // A rival for an adopted row -----------------------------------------------

  /**
   * Rule 2 is on row 5, scope 3 admits it, and rule 1 of another factor is still on row 4, which the panel replaced
   * by row 5.
   */
  function Rival(): Db {
    Db(map[5 := Row("a", 0)], {}, map[1 := RuleFor("a", Active).(factorPpm := 3 * SCALE), 2 := RuleFor("a", Active),
        3 := RuleFor("", Active)],
       map[3 := Scope(None, false, true, false)], map[Key(1, 4) := ClientAt("a", 0), Key(2, 5) := ClientAt("a", 0)],
       map[], map[], [], 4, 1, 1)
  }

  lemma RivalFollows(db: Db)
    requires db.traffic == Rival().traffic && (forall k :: k in db.clients && k.rule == 1 ==> k == Key(1, 4))
    requires Key(1, 4) in db.clients && db.clients[Key(1, 4)].email == "a"
    ensures ResolvesTo(db, 1, 5)
  {
    assert db.ClientsOf(1) == {4} by { assert Key(1, 4).traffic == 4; }
    assert db.RowsByEmail("a") == {5};
  }

  lemma RivalListed(db: Db)
    requires db.scopes == Rival().scopes && 1 in db.rules && db.Active(1) && 3 in db.rules && db.Active(3)
    ensures 1 in R.ListSingles(db, None) && forall s :: s in R.ListPersistentScopes(db) ==> s == 3
  {
    assert 1 in R.SingleIds(db, None);
    assert forall s :: s in R.PersistentIds(db) ==> s == 3;
    forall s | s in R.ListPersistentScopes(db) ensures s == 3 { assert s in R.PersistentIds(db); }
  }

  lemma RivalSurvives(db: Db, b: Db, scopes: seq<int>, rules: seq<int>)
    requires db == Rival() && 1 in rules && (forall q :: q in rules ==> q in db.rules)
             && (forall s :: s in scopes ==> s == 3)
    requires ResolvesTo(db, 1, 5)
    requires forall r, t :: r in rules && ResolvesTo(db, r, t) ==>
                            (b.Active(r) <==> SurvivesOn(db, scopes, rules, r, t))
    requires forall r :: r in rules && b.Active(r) ==> exists t :: ResolvesTo(db, r, t) && Seated(b, r, t)
    ensures b.Owns(1, 5)
  {
    assert !Admitted(db, scopes, 1, 5) && !Scoped(db, 5);
    assert SurvivesOn(db, scopes, rules, 1, 5);
    var t :| ResolvesTo(db, 1, t) && Seated(b, 1, t);
  }

  lemma RivalStays()
    ensures R.Rules(Rival(), None, 1, false).0.Owns(1, 5)
  {
    var db := Rival();
    RivalFollows(db);
    RivalListed(db);
    RulesOutcome(db, None, 1);
    var rules := R.ListSingles(db, None);
    forall q | q in rules ensures q in db.rules { assert q in R.SingleIds(db, None); }
    RivalSurvives(db, R.Rules(db, None, 1, false).0, R.ListPersistentScopes(db), rules);
  }

  lemma RivalAdopted()
    ensures C.Adopt(Rival(), 3, 2, 5, 1).1
    ensures var b := C.Adopt(Rival(), 3, 2, 5, 1).0;
            && b.traffic == Rival().traffic && b.scopes == Rival().scopes && b.Active(1) && b.Active(3) && b.Owns(3, 5)
            && Key(1, 4) in b.clients && b.clients[Key(1, 4)] == ClientAt("a", 0)
            && forall k :: k in b.clients && k.rule == 1 ==> k == Key(1, 4)
  {
    var db := Rival();
    assert db.ClientsOf(2) == {5} by { assert Key(2, 5) in db.clients; }
  }

  lemma RivalEnds(b: Db)
    requires b.traffic == Rival().traffic && b.scopes == Rival().scopes && b.Active(1) && b.Owns(3, 5)
             && ResolvesTo(b, 1, 5)
    ensures !R.Rules(b, None, 1, false).0.Active(1)
  {
    RivalListed(b);
    RulesOutcome(b, None, 1);
    assert Scoped(b, 5);
  }

  lemma RivalIsValid()
    ensures Valid(Rival())
  {
  }

  /**
   * Left alone, the rival takes the row at the next reconcile; where rule 2 was adopted before, the rival is
   * orphaned.
   */
  lemma RivalTellsAdoption()
    ensures Valid(Rival()) && C.Adopt(Rival(), 3, 2, 5, 1).1
    ensures R.Rules(Rival(), None, 1, false).0.Owns(1, 5)
    ensures !R.Rules(C.Adopt(Rival(), 3, 2, 5, 1).0, None, 1, false).0.Active(1)
  {
    RivalIsValid();
    RivalStays();
    RivalAdopted();
    RivalFollows(C.Adopt(Rival(), 3, 2, 5, 1).0);
    RivalEnds(C.Adopt(Rival(), 3, 2, 5, 1).0);
  }

  // A paused scope on a renamed row ----------------------------------------

  const FACTOR: int64 := 2 * SCALE

  /**
   * Snapshot rule 1 and single-user rule 2 both have a client of email "a" on row 5, with the given states and
   * baselines.
   */
  ghost predicate Looks(db: Db, email: string, up: int64, first: State, firstLast: int64, second: State,
      secondLast: int64) {
    && db.traffic == map[5 := Row(email, up)] && db.scopes == map[1 := Scope(None, false, true, true)]
    && db.rules.Keys == {1, 2} && db.rules[1].email == "" && db.rules[2].email == "a"
    && db.rules[1].factorPpm == FACTOR && db.rules[2].factorPpm == FACTOR
    && db.rules[1].state == first && db.rules[2].state == second
    && db.clients == map[Key(1, 5) := ClientAt("a", firstLast), Key(2, 5) := ClientAt("a", secondLast)]
    && db.excludes == map[] && db.overrides == map[] && db.nextRule == 3
  }

  /** Rule 1 is paused on a row without traffic. */
  function Shared(second: State): Db {
    Db(map[5 := Row("a", 0)], {}, map[1 := RuleFor("", Paused), 2 := RuleFor("a", second)],
        map[1 := Scope(None, false, true, true)],
       map[Key(1, 5) := ClientAt("a", 0), Key(2, 5) := ClientAt("a", 0)], map[], map[], [], 3, 1, 1)
  }

  const STOP := CommandStep(Disable("a", None), 1)
  const TICK := TickStep(CALM, 1)

  /** The row takes another name, all rules are resumed, the row takes its old name again, and the daemon ticks. */
  predicate AwayAndBack(steps: seq<Step>) {
    && |steps| == 4 && steps[0] == PanelStep(Rename(5, "b")) && steps[1] == CommandStep(ResumeAll(None), 1)
    && steps[2] == PanelStep(Rename(5, "a")) && steps[3] == TICK
  }

  lemma NoPersistent(db: Db, email: string, up: int64, first: State, firstLast: int64, second: State, secondLast: int64)
    requires Looks(db, email, up, first, firstLast, second, secondLast)
    ensures R.ListPersistentScopes(db) == []
  {
    assert R.PersistentIds(db) == {};
  }

  lemma SnapshotResident(db: Db, up: int64, firstLast: int64, second: State, secondLast: int64)
    requires Looks(db, "a", up, Active, firstLast, second, secondLast) && !second.Active?
    ensures Resident(db, Key(1, 5), FACTOR) && OnlyActive(db, Key(1, 5))
  {
    assert Valid(db) && OneOwner(db);
  }

  lemma SingleResident(db: Db, up: int64, first: State, firstLast: int64, secondLast: int64)
    requires Looks(db, "a", up, first, firstLast, Active, secondLast) && !first.Active?
    ensures Resident(db, Key(2, 5), FACTOR) && OnlyActive(db, Key(2, 5))
  {
    assert Valid(db) && OneOwner(db);
    NoPersistent(db, "a", up, first, firstLast, Active, secondLast);
    assert CalmOn(db, [], 2, 5);
  }

  /** At factor two a tick adds as many bytes as it finds. */
  predicate Doubles(up: int64, last: int64, delta: int64, end: int64) {
    0 <= last && 0 < delta && up == last + delta && end == up + delta
  }

  lemma DoubleCharge(up: int64, last: int64, delta: int64, end: int64)
    requires Doubles(up, last, delta, end)
    ensures ChargeFor(Row("a", up), ClientAt("a", last), FACTOR) == Ok(Charged(delta, 0, 0, 0))
    ensures Settle(Row("a", up), ClientAt("a", last), FACTOR) == Ok((Row("a", end), ClientAt("a", end)))
    ensures Delta(Row("a", up), ClientAt("a", last)) == Bytes(delta, 0)
  {
    assert Product(delta, SCALE) == delta * SCALE;
    assert delta * SCALE / SCALE == delta && delta * SCALE % SCALE == 0;
  }

  /** A run that starts with a step continues after it. */
  lemma RunFirst(w: World, steps: seq<Step>, next: World)
    requires steps != [] && next == Advance(w, steps[0])
    ensures Run(w, steps) == Run(next, steps[1..])
  {
  }

  lemma SnapshotSettled(db: Db, after: Db, up: int64, last: int64, second: State, secondLast: int64)
    requires Looks(db, "a", up, Active, last, second, secondLast) && SamePlaces(db, after) && 5 in after.traffic
    ensures after.traffic == map[5 := after.traffic[5]]
  {
  }

  lemma TickOnSnapshot(w: World, steps: seq<Step>, up: int64, end: int64, second: State, secondLast: int64)
      returns (next: World)
    requires Looks(w.db, "a", up, Active, 0, second, secondLast) && !second.Active? && Doubles(up, 0, up, end)
    requires steps != [] && steps[0] == TICK
    ensures Run(w, steps) == Run(next, steps[1..])
    ensures next.db.traffic == map[5 := Row("a", end)] && next.raw == w.raw && next.eligible == w.eligible
    ensures At(next.charged, 5) == Plus(At(w.charged, 5), Bytes(up, 0))
  {
    SnapshotResident(w.db, up, 0, second, secondLast);
    NoPersistent(w.db, "a", up, Active, 0, second, secondLast);
    DoubleCharge(up, 0, up, end);
    next := SoleTickStep(w, Key(1, 5), FACTOR, 1);
    SnapshotSettled(w.db, next.db, up, 0, second, secondLast);
    RunFirst(w, steps, next);
  }

  lemma SettledLooks(db: Db, after: Db, up: int64, first: State, firstLast: int64, last: int64, end: int64)
    requires Looks(db, "a", up, first, firstLast, Active, last) && SamePlaces(db, after)
             && after.clients.Keys == db.clients.Keys
    requires after.nextRule == db.nextRule && Key(2, 5) in after.clients && 5 in after.traffic
    requires after.traffic[5] == Row("a", end) && after.clients[Key(2, 5)] == ClientAt("a", end)
    requires forall j :: j in db.clients && j != Key(2, 5) ==> after.clients[j] == db.clients[j]
    ensures Looks(after, "a", end, first, firstLast, Active, end)
  {
    assert after.traffic == map[5 := Row("a", end)];
    assert after.clients == map[Key(1, 5) := ClientAt("a", firstLast), Key(2, 5) := ClientAt("a", end)];
  }

  lemma TickOnSingle(w: World, steps: seq<Step>, up: int64, end: int64) returns (next: World)
    requires Looks(w.db, "a", up, Paused, 0, Active, 0) && Doubles(up, 0, up, end) && steps != [] && steps[0] == TICK
    ensures Run(w, steps) == Run(next, steps[1..])
    ensures Looks(next.db, "a", end, Paused, 0, Active, end) && next.raw == w.raw
    ensures At(next.charged, 5) == Plus(At(w.charged, 5), Bytes(up, 0))
  {
    SingleResident(w.db, up, Paused, 0, 0);
    NoPersistent(w.db, "a", up, Paused, 0, Active, 0);
    DoubleCharge(up, 0, up, end);
    next := SoleTickStep(w, Key(2, 5), FACTOR, 1);
    SettledLooks(w.db, next.db, up, Paused, 0, 0, end);
    RunFirst(w, steps, next);
  }

  lemma RowRenamed(w: World, steps: seq<Step>, from: string, email: string, up: int64, first: State, firstLast: int64,
      second: State, secondLast: int64)
    returns (next: World)
    requires Looks(w.db, from, up, first, firstLast, second, secondLast)
    requires steps != [] && steps[0] == PanelStep(Rename(5, email))
    ensures Run(w, steps) == Run(next, steps[1..])
    ensures Looks(next.db, email, up, first, firstLast, second, secondLast) && next == w.(db := next.db)
  {
    assert Possible(w.db, Rename(5, email));
    next := Advance(w, PanelStep(Rename(5, email)));
    RunFirst(w, steps, next);
  }

  lemma BytesArrive(w: World, steps: seq<Step>, second: State) returns (next: World)
    requires Looks(w.db, "a", 0, Paused, 0, second, 0) && steps != []
             && steps[0] == PanelStep(AddBytes(5, Bytes(10, 0)))
    ensures Run(w, steps) == Run(next, steps[1..])
    ensures Looks(next.db, "a", 10, Paused, 0, second, 0)
    ensures next.raw == Increased(w.raw, 5, Bytes(10, 0)) && next.eligible == Increased(w.eligible, 5, Bytes(10, 0))
            && next.charged == w.charged
  {
    assert Possible(w.db, AddBytes(5, Bytes(10, 0)));
    assert !Excluded(w.db, 5);
    next := Advance(w, PanelStep(AddBytes(5, Bytes(10, 0))));
    RunFirst(w, steps, next);
  }

  lemma SnapshotListed(db: Db, up: int64, second: State, secondLast: int64)
    requires Looks(db, "b", up, Paused, 0, second, secondLast) && second.Disabled?
    ensures Ascending(C.RuleIds(db, None, {Paused})) == [1] && !C.HasConflict(db, 1)
  {
    var rs := Ascending(C.RuleIds(db, None, {Paused}));
    assert C.RuleIds(db, None, {Paused}) == {1};
    assert |rs| == 1 && rs[0] in rs;
    assert db.RulesOn(5, {Active}) == {};
  }

  lemma SnapshotResumes(db: Db, up: int64, second: State, secondLast: int64)
    requires Looks(db, "b", up, Paused, 0, second, secondLast) && second.Disabled?
    ensures C.ResumeAll(db, None, 1).Ok?
            && Looks(C.ResumeAll(db, None, 1).value, "b", up, Active, 0, second, secondLast)
    ensures 5 in ResumedRows(db, C.ResumeAll(db, None, 1).value)
  {
    SnapshotListed(db, up, second, secondLast);
    var b := C.ResumeOne(db, 1, 1);
    assert C.RefreshRule(db, 1).clients == db.clients;
    assert C.ResumeEach(db, [1], 1) == C.ResumeEach(b, [1][1..], 1) == b;
    assert Key(1, 5) in db.clients && BroughtBack(db, b, 1);
  }

  lemma CommandRuns(w: World, command: Command, steps: seq<Step>) returns (next: World)
    requires Execute(w.db, command, 1).Ok?
    requires steps != [] && steps[0] == CommandStep(command, 1)
    ensures Run(w, steps) == Run(next, steps[1..])
    ensures next.db == Execute(w.db, command, 1).value && next.raw == w.raw && next.eligible == w.eligible
            && next.charged == w.charged
  {
    next := Advance(w, CommandStep(command, 1));
    RunFirst(w, steps, next);
  }

  lemma ExecutesResumeAll(db: Db, inbound: Option<int>, now: int)
    ensures Execute(db, ResumeAll(inbound), now) == C.ResumeAll(db, inbound, now)
  {
  }

  lemma ResumeAllStep(w: World, steps: seq<Step>, up: int64, second: State, secondLast: int64) returns (next: World)
    requires Looks(w.db, "b", up, Paused, 0, second, secondLast) && second.Disabled?
    requires steps != [] && steps[0] == CommandStep(ResumeAll(None), 1)
    ensures Run(w, steps) == Run(next, steps[1..])
    ensures Looks(next.db, "b", up, Active, 0, second, secondLast)
    ensures next.raw == w.raw && next.eligible == w.eligible && next.charged == w.charged
  {
    SnapshotResumes(w.db, up, second, secondLast);
    ExecutesResumeAll(w.db, None, 1);
    next := CommandRuns(w, ResumeAll(None), steps);
  }

  lemma RunNothing(w: World, steps: seq<Step>)
    requires steps == []
    ensures Run(w, steps) == w
  {
  }

  lemma LeavesAndResumes(w: World, steps: seq<Step>, up: int64, second: State, secondLast: int64) returns (next: World)
    requires Looks(w.db, "a", up, Paused, 0, second, secondLast) && second.Disabled?
    requires |steps| == 4 && steps[0] == PanelStep(Rename(5, "b")) && steps[1] == CommandStep(ResumeAll(None), 1)
    ensures Run(w, steps) == Run(next, steps[1..][1..])
    ensures Looks(next.db, "b", up, Active, 0, second, secondLast)
    ensures next.raw == w.raw && next.eligible == w.eligible && next.charged == w.charged
  {
    var w1 := RowRenamed(w, steps, "a", "b", up, Paused, 0, second, secondLast);
    next := ResumeAllStep(w1, steps[1..], up, second, secondLast);
  }

  lemma ReturnsAndTicks(w: World, steps: seq<Step>, up: int64, last: int64, second: State, secondLast: int64)
      returns (end: World)
    requires Looks(w.db, "b", up, Active, 0, second, secondLast) && second.Disabled? && Doubles(up, 0, up, last)
    requires |steps| == 2 && steps[0] == PanelStep(Rename(5, "a")) && steps[1] == TICK
    ensures end == Run(w, steps)
    ensures end.db.traffic == map[5 := Row("a", last)] && end.raw == w.raw && end.eligible == w.eligible
    ensures At(end.charged, 5) == Plus(At(w.charged, 5), Bytes(up, 0))
  {
    var w1 := RowRenamed(w, steps, "b", "a", up, Active, 0, second, secondLast);
    end := TickOnSnapshot(w1, steps[1..], up, last, second, secondLast);
    RunNothing(end, steps[1..][1..]);
  }

  lemma AwayThenBack(steps: seq<Step>)
    requires AwayAndBack(steps)
    ensures var back := steps[1..][1..]; |back| == 2 && back[0] == PanelStep(Rename(5, "a")) && back[1] == TICK
  {
  }

  /** What came in before the resume, and lies above the paused client's baseline, is charged after it. */
  lemma ComesBack(w: World, steps: seq<Step>, up: int64, last: int64, second: State, secondLast: int64)
      returns (end: World)
    requires Looks(w.db, "a", up, Paused, 0, second, secondLast) && second.Disabled? && Doubles(up, 0, up, last)
    requires AwayAndBack(steps)
    ensures end == Run(w, steps)
    ensures end.db.traffic == map[5 := Row("a", last)] && end.raw == w.raw && end.eligible == w.eligible
    ensures At(end.charged, 5) == Plus(At(w.charged, 5), Bytes(up, 0))
  {
    var w2 := LeavesAndResumes(w, steps, up, second, secondLast);
    AwayThenBack(steps);
    end := ReturnsAndTicks(w2, steps[1..][1..], up, last, second, secondLast);
  }

  /**
   * Ten bytes arrive while the only rule of the row is paused; after a rename, a resume-all and a rename back they
   * are factored.
   */
  lemma PauseBytesFactored(w: World, steps: seq<Step>)
    requires w == Fresh(Shared(Disabled)) && |steps| == 5 && steps[0] == PanelStep(AddBytes(5, Bytes(10, 0)))
             && AwayAndBack(steps[1..])
    ensures Eligible(w) && Single(w)
    ensures var end := Run(w, steps);
            end.db.traffic == map[5 := Row("a", 20)] && At(end.raw, 5) == Bytes(10, 0)
                && At(end.charged, 5) == Bytes(10, 0)
  {
    SharedOpens(Disabled);
    var m := BytesArrive(w, steps, Disabled);
    var end := ComesBack(m, steps[1..], 10, 20, Disabled, 0);
  }

  lemma SharedLooks(second: State)
    ensures Looks(Shared(second), "a", 0, Paused, 0, second, 0)
  {
  }

  lemma LooksValid(db: Db, second: State)
    requires Looks(db, "a", 0, Paused, 0, second, 0)
    ensures Valid(db) && AllPaid(db)
  {
  }

  lemma SharedOpens(second: State)
    ensures Eligible(Fresh(Shared(second))) && Single(Fresh(Shared(second)))
    ensures Looks(Shared(second), "a", 0, Paused, 0, second, 0)
  {
    SharedLooks(second);
    LooksValid(Shared(second), second);
    LedgersOpen(Shared(second));
  }

  lemma StopSelects(db: Db, up: int64, last: int64)
    requires Looks(db, "a", up, Paused, 0, Active, last)
    ensures C.Disable(db, "a", None, 1).Ok?
            && Looks(C.Disable(db, "a", None, 1).value, "a", up, Paused, 0, Disabled, last)
  {
    assert C.SelectedRules(db, "a", None, {Active, Paused}) == {2};
  }

  lemma StopStep(w: World, steps: seq<Step>, up: int64, last: int64) returns (next: World)
    requires Looks(w.db, "a", up, Paused, 0, Active, last)
    requires steps != [] && steps[0] == STOP
    ensures Run(w, steps) == Run(next, steps[1..])
    ensures Looks(next.db, "a", up, Paused, 0, Disabled, last) && next.raw == w.raw && next.charged == w.charged
  {
    StopSelects(w.db, up, last);
    next := CommandRuns(w, Disable("a", None), steps);
  }

  lemma SecondStep(steps: seq<Step>, step: Step)
    requires |steps| >= 2 && steps[1] == step
    ensures steps[1..] != [] && steps[1..][0] == step
  {
  }

  lemma ArrivesAndTicks(w: World, steps: seq<Step>) returns (next: World)
    requires Looks(w.db, "a", 0, Paused, 0, Active, 0) && |steps| >= 2
             && steps[0] == PanelStep(AddBytes(5, Bytes(10, 0))) && steps[1] == TICK
    ensures Run(w, steps) == Run(next, steps[1..][1..])
    ensures Looks(next.db, "a", 20, Paused, 0, Active, 20) && next.raw == Increased(w.raw, 5, Bytes(10, 0))
    ensures At(next.charged, 5) == Plus(At(w.charged, 5), Bytes(10, 0))
  {
    SecondStep(steps, TICK);
    var w1 := BytesArrive(w, steps, Active);
    next := TickOnSingle(w1, steps[1..], 10, 20);
  }

  lemma StopsAndComesBack(w: World, steps: seq<Step>) returns (end: World)
    requires Looks(w.db, "a", 20, Paused, 0, Active, 20) && |steps| == 5 && steps[0] == STOP && AwayAndBack(steps[1..])
    ensures end == Run(w, steps) && end.raw == w.raw && At(end.charged, 5) == Plus(At(w.charged, 5), Bytes(20, 0))
  {
    var w1 := StopStep(w, steps, 20, 20);
    end := ComesBack(w1, steps[1..], 20, 40, Disabled, 20);
  }

  lemma ThirtyOfTen(before: Bytes, between: Bytes, after: Bytes)
    requires before == Bytes(0, 0) && between == Plus(before, Bytes(10, 0)) && after == Plus(between, Bytes(20, 0))
    ensures between == Bytes(10, 0) && after == Bytes(30, 0)
  {
  }

  /**
   * Where another rule factored the row during the pause, the same comes back as a second charge: thirty bytes
   * charged of ten that arrived.
   */
  lemma StrayedResumeChargesTwice(w: World, steps: seq<Step>)
    requires w == Fresh(Shared(Active)) && |steps| == 7 && steps[0] == PanelStep(AddBytes(5, Bytes(10, 0)))
             && steps[1] == TICK
    requires var rest := steps[1..][1..]; |rest| == 5 && rest[0] == STOP && AwayAndBack(rest[1..])
    ensures Single(w) && At(Run(w, steps).raw, 5) == Bytes(10, 0) && At(Run(w, steps).charged, 5) == Bytes(30, 0)
  {
    SharedOpens(Active);
    var m := ArrivesAndTicks(w, steps);
    var end := StopsAndComesBack(m, steps[1..][1..]);
    AtIncreased(w.raw, 5, Bytes(10, 0), 5);
    ThirtyOfTen(At(w.charged, 5), At(m.charged, 5), At(end.charged, 5));
  }

  // A row renamed onto an excluded email and back ---------------------------

  /** An active exclude names row 5 under another email than the row and its client have. */
  function ExcludedElsewhere(): Db {
    Db(map[5 := Row("a", 0)], {}, map[1 := RuleFor("a", Active)], map[], map[Key(1, 5) := ClientAt("a", 0)],
       map[1 := Policy(5, 1, "b", 0, Active, 1, None)], map[], [], 2, 2, 1)
  }

  predicate ThereAndBack(steps: seq<Step>) {
    && |steps| == 4 && steps[0] == PanelStep(Rename(5, "b")) && steps[1] == PanelStep(AddBytes(5, Bytes(10, 0)))
    && steps[2] == PanelStep(Rename(5, "a")) && steps[3] == TICK
  }

  /** Row 5 under an email, with the counter it then has. */
  function Under(email: string, up: int64): Db {
    ExcludedElsewhere().(traffic := map[5 := Row(email, up)])
  }

  lemma RenamesTo(w: World, steps: seq<Step>, from: string, email: string, up: int64) returns (next: World)
    requires w.db == Under(from, up)
    requires steps != [] && steps[0] == PanelStep(Rename(5, email))
    ensures Run(w, steps) == Run(next, steps[1..]) && next == w.(db := Under(email, up))
  {
    assert Possible(w.db, Rename(5, email));
    assert Changed(w.db, Rename(5, email)).traffic == map[5 := Row(email, up)];
    next := Advance(w, PanelStep(Rename(5, email)));
    RunFirst(w, steps, next);
  }

  lemma MaskedRow()
    ensures Possible(Under("b", 0), AddBytes(5, Bytes(10, 0))) && Excluded(Under("b", 0), 5)
    ensures Changed(Under("b", 0), AddBytes(5, Bytes(10, 0))) == Under("b", 10)
  {
    var db := Under("b", 0);
    assert NamedActive(db.excludes, 5, "b") by {
      assert ActiveRow(db.excludes, 1) && NamesClient(db.excludes[1], 5, "b");
    }
    assert Changed(db, AddBytes(5, Bytes(10, 0))).traffic == map[5 := Row("b", 10)];
  }

  lemma MaskedArrival(w: World, t: int, bytes: Bytes)
    requires Possible(w.db, AddBytes(t, bytes)) && Excluded(w.db, t)
    ensures Advance(w, PanelStep(AddBytes(t, bytes))).db == Changed(w.db, AddBytes(t, bytes))
    ensures Advance(w, PanelStep(AddBytes(t, bytes))).eligible == w.eligible
            && Advance(w, PanelStep(AddBytes(t, bytes))).charged == w.charged
  {
  }

  lemma MaskedBytes(w: World, steps: seq<Step>) returns (next: World)
    requires w.db == Under("b", 0)
    requires steps != [] && steps[0] == PanelStep(AddBytes(5, Bytes(10, 0)))
    ensures Run(w, steps) == Run(next, steps[1..])
    ensures next.db == Under("b", 10) && next.eligible == w.eligible && next.charged == w.charged
  {
    MaskedRow();
    MaskedArrival(w, 5, Bytes(10, 0));
    next := Advance(w, PanelStep(AddBytes(5, Bytes(10, 0))));
    RunFirst(w, steps, next);
  }

  lemma UnmaskedResident()
    ensures var db := Under("a", 10);
            && Resident(db, Key(1, 5), FACTOR) && OnlyActive(db, Key(1, 5)) && R.ListPersistentScopes(db) == []
  {
    var db := Under("a", 10);
    assert Valid(db) && OneOwner(db);
    assert R.PersistentIds(db) == {};
    assert CalmOn(db, [], 1, 5);
    forall id ensures !NamesKey(db, db.excludes, id, Key(1, 5)) {}
    assert FactorIs(db, Key(1, 5), Some(FACTOR));
  }

  lemma UnmaskedTick(w: World, steps: seq<Step>) returns (next: World)
    requires w.db == Under("a", 10)
    requires steps != [] && steps[0] == TICK
    ensures Run(w, steps) == Run(next, steps[1..])
    ensures next.eligible == w.eligible && At(next.charged, 5) == Plus(At(w.charged, 5), Bytes(10, 0))
  {
    UnmaskedResident();
    DoubleCharge(10, 0, 10, 20);
    next := SoleTickStep(w, Key(1, 5), FACTOR, 1);
    RunFirst(w, steps, next);
  }

  lemma MaskedIsEligible()
    ensures Eligible(Fresh(ExcludedElsewhere()))
  {
  }

  lemma HidesAndArrives(w: World, steps: seq<Step>) returns (next: World)
    requires w.db == Under("a", 0) && |steps| == 4 && steps[0] == PanelStep(Rename(5, "b"))
             && steps[1] == PanelStep(AddBytes(5, Bytes(10, 0)))
    ensures Run(w, steps) == Run(next, steps[1..][1..])
    ensures next.db == Under("b", 10) && next.eligible == w.eligible && next.charged == w.charged
  {
    var w1 := RenamesTo(w, steps, "a", "b", 0);
    next := MaskedBytes(w1, steps[1..]);
  }

  lemma UnhidesAndTicks(w: World, steps: seq<Step>) returns (end: World)
    requires w.db == Under("b", 10) && |steps| == 2 && steps[0] == PanelStep(Rename(5, "a")) && steps[1] == TICK
    ensures end == Run(w, steps) && end.eligible == w.eligible
            && At(end.charged, 5) == Plus(At(w.charged, 5), Bytes(10, 0))
  {
    var w1 := RenamesTo(w, steps, "b", "a", 10);
    end := UnmaskedTick(w1, steps[1..]);
    RunNothing(end, steps[1..][1..]);
  }

  lemma ThereThenBack(steps: seq<Step>)
    requires ThereAndBack(steps)
    ensures var back := steps[1..][1..]; |back| == 2 && back[0] == PanelStep(Rename(5, "a")) && back[1] == TICK
  {
  }

  /**
   * Bytes that arrived while an exclude named the row under its other name are charged: an exclude protects a row
   * only while it keeps its name.
   */
  lemma RenamesUnmaskExcludedBytes(steps: seq<Step>)
    requires ThereAndBack(steps)
    ensures Eligible(Fresh(ExcludedElsewhere()))
    ensures var end := Run(Fresh(ExcludedElsewhere()), steps);
              At(end.eligible, 5) == NOTHING && At(end.charged, 5) == Bytes(10, 0)
  {
    MaskedIsEligible();
    var w := HidesAndArrives(Fresh(ExcludedElsewhere()), steps);
    ThereThenBack(steps);
    var end := UnhidesAndTicks(w, steps[1..][1..]);
  }
}
