/** What the report of a reconcile counts, told from the tables before and after it. */
module Tallies {
  import opened Collections
  import opened Model
  import opened PolicyTable
  import opened Reconciling
  import opened ReconcileProofs
  import opened ReconcileTheorems
  import opened Merging

  ghost predicate OnDisabledRow(db: Db, r: int) {
    exists t :: Stands(db, r, t) && !db.traffic[t].enable
  }

  ghost predicate OnSomeRow(db: Db, r: int) {
    exists t :: Stands(db, r, t)
  }

  predicate TwoClients(db: Db, r: int) {
    exists j, k :: j in db.clients && k in db.clients && j.rule == r && k.rule == r && j != k
  }

  /** The rule's client is to be moved to its row, or to be revived on it. */
  ghost predicate Repaired(db: Db, r: int) {
    exists t :: Stands(db, r, t) && !(Key(r, t) in db.clients && db.clients[Key(r, t)].missingAt.None?)
  }

  function Once(b: bool): nat {
    if b then 1 else 0
  }

  predicate EndsAs(db: Db, r: int, state: State) {
    r in db.rules && db.rules[r].state == state
  }

  /** What one rule adds to the report: by how it ended in `b`, and where it stood in `a`. */
  ghost function Tally(a: Db, b: Db, r: int): Counts {
    var merged, orphaned := EndsAs(b, r, Merged), EndsAs(b, r, Orphaned);
    Counts(Once(merged || orphaned || Repaired(a, r)), Once(orphaned), Once(orphaned && OnDisabledRow(a, r)),
        Once(merged),
        Once(orphaned && !OnDisabledRow(a, r) && (OnSomeRow(a, r) || TwoClients(a, r))))
  }

  lemma StandsOnOne(db: Db, r: int, t: int)
    requires ResolvesTo(db, r, t) && t in db.traffic
    ensures OnSomeRow(db, r) && (OnDisabledRow(db, r) <==> !db.traffic[t].enable)
    ensures Repaired(db, r) <==> PlaceOf(db, r).Follow? || MissingHere(db, r, t)
  {
    StandsExactly(db, r, t);
    forall u ensures Stands(db, r, u) == (u == t) { StandsExactly(db, r, u); }
    SoleClient(db, r);
  }

  lemma StandsNowhere(db: Db, r: int)
    requires RowOf(PlaceOf(db, r)).None?
    ensures !OnSomeRow(db, r) && !OnDisabledRow(db, r) && !Repaired(db, r)
  {
    forall u ensures !Stands(db, r, u) { StandsExactly(db, r, u); }
  }

  lemma ManyAreTwo(db: Db, r: int)
    ensures TwoClients(db, r) <==> |db.ClientsOf(r)| > 1
  {
    var ts := db.ClientsOf(r);
    if TwoClients(db, r) {
      var j, k :| j in db.clients && k in db.clients && j.rule == r && k.rule == r && j != k;
      assert j.traffic in ts && k.traffic in ts && j.traffic != k.traffic;
      assert |{j.traffic, k.traffic}| == 2;
      assert ts == {j.traffic, k.traffic} + (ts - {j.traffic, k.traffic});
    }
    if |ts| > 1 {
      SomeMember(ts);
      var x :| x in ts;
      var rest := ts - {x};
      SomeMember(rest);
      assert |rest| > 0;
      var y :| y in rest;
      assert Key(r, x) in db.clients && Key(r, y) in db.clients && Key(r, x) != Key(r, y);
    }
  }

  lemma ConcludeTally(a: Db, p: Db, scopes: seq<int>, r: int, t: int, repaired: bool, now: int)
    requires IsSingle(a, r) && PutInPlace(a, p, r, t) && OnSomeRow(a, r)
    requires OnDisabledRow(a, r) <==> !a.traffic[t].enable
    requires Repaired(a, r) <==> repaired
    ensures var (b, counts) := Conclude(p, scopes, r, t, repaired, now, false); counts == Tally(a, b, r)
  {
  }

  lemma NowhereTally(a: Db, scopes: seq<int>, r: int, now: int)
    requires IsSingle(a, r) && RowOf(PlaceOf(a, r)).None?
    ensures var (b, counts) := SingleRule(a, scopes, r, now, false); counts == Tally(a, b, r)
  {
    StandsNowhere(a, r);
    ManyAreTwo(a, r);
    OffExactly(a, scopes, r, now);
  }

  lemma StepTally(a: Db, scopes: seq<int>, r: int, now: int)
    requires IsSingle(a, r)
    ensures var (b, counts) := SingleRule(a, scopes, r, now, false); counts == Tally(a, b, r)
  {
    if RowOf(PlaceOf(a, r)).None? {
      NowhereTally(a, scopes, r, now);
    } else {
      var t := RowOf(PlaceOf(a, r)).value;
      SoleClient(a, r);
      StandsOnOne(a, r, t);
      PlacedFacts(a, r, now);
      ConcludeTally(a, Placed(a, r, PlaceOf(a, r), now), scopes, r, t, PlaceOf(a, r).Follow?
          || MissingHere(a, r, t), now);
    }
  }

  ghost function Total(a: Db, b: Db, rules: seq<int>): Counts {
    if rules == [] then NO_COUNTS else Add(Tally(a, b, rules[0]), Total(a, b, rules[1..]))
  }

  lemma TallyLater(a: Db, m: Db, b: Db, h: int, r: int)
    requires Beside(a, m, h) && r != h && r !in a.scopes
    ensures Tally(m, b, r) == Tally(a, b, r)
  {
    StandsLater(a, m, h, r);
    forall k: Key | k.rule == r ensures k in m.clients <==> k in a.clients { assert k.rule != h; }
    forall t
      ensures Key(r, t) in a.clients ==> m.clients[Key(r, t)] == a.clients[Key(r, t)]
    {
      assert Key(r, t).rule != h;
    }
  }

  lemma {:induction false} TotalLater(a: Db, m: Db, b: Db, h: int, rules: seq<int>)
    requires Beside(a, m, h) && forall r :: r in rules ==> r != h && r !in a.scopes
    ensures Total(m, b, rules) == Total(a, b, rules)
  {
    if rules != [] {
      var r := rules[0];
      assert r in rules && forall x :: x in rules[1..] ==> x in rules;
      TallyLater(a, m, b, h, r);
      TotalLater(a, m, b, h, rules[1..]);
    }
  }

  lemma {:induction false} RunTally(a: Db, scopes: seq<int>, rules: seq<int>, now: int)
    requires SinglesListed(a, rules) && Listing(a, scopes)
    ensures var (b, counts) := SingleRules(a, scopes, rules, now, false); counts == Total(a, b, rules)
    decreases |rules|
  {
    if rules != [] {
      var h, tail := rules[0], rules[1..];
      assert h in rules && forall x :: x in rules <==> x == h || x in tail;
      var m := SingleRule(a, scopes, h, now, false).0;
      var b := SingleRules(m, scopes, tail, now, false).0;
      StepTally(a, scopes, h, now);
      StepExactly(a, scopes, h, now);
      TailListed(a, m, scopes, rules);
      RunTally(m, scopes, tail, now);
      RunExactly(m, scopes, tail, now);
      forall r | r in tail ensures r != h && r !in a.scopes {
        TailAbove(rules, r);
        assert IsSingle(a, r);
      }
      TotalLater(a, m, b, h, tail);
      if h in tail { TailAbove(rules, h); }
      assert b.rules[h] == m.rules[h];
    }
  }

  /** The report of a real reconcile counts the rules listed, and each of them by what became of it. */
  lemma ReportIsTrue(a: Db, inbound: Option<int>, now: int)
    requires now > 0
    ensures var (b, report) := Reconcile(a, inbound, now, false).value;
            && report.checked == |ListSingles(a, inbound)| && report.counts == Total(a, b, ListSingles(a, inbound))
  {
    PersistentListing(a);
    ListedSingles(a, inbound);
    RunTally(a, ListPersistentScopes(a), ListSingles(a, inbound), now);
    var m := Rules(a, inbound, now, false).0;
    SameTotal(a, m, Policies(m, inbound, now, false), ListSingles(a, inbound));
  }

  lemma {:induction false} SameTotal(a: Db, m: Db, b: Db, rules: seq<int>)
    requires b.rules == m.rules
    ensures Total(a, b, rules) == Total(a, m, rules)
  {
    if rules != [] { SameTotal(a, m, b, rules[1..]); }
  }

  // Dry runs ------------------------------------------------------------------

  /** On the tables as they are, a scope admits the rule and no other scope owns its row. */
  ghost predicate WouldMerge(db: Db, r: int) {
    exists t, s :: Stands(db, r, t) && Admits(db, s, r, t) && SoleScope(db, s, t)
  }

  ghost predicate OnScopedRow(db: Db, r: int) {
    exists t :: Stands(db, r, t) && Scoped(db, t)
  }

  /** On the tables as they are, the rule has no row, or a disabled or owned one where no scope takes it. */
  ghost predicate WouldEnd(db: Db, r: int) {
    !WouldMerge(db, r) && (!OnSomeRow(db, r) || OnDisabledRow(db, r) || OnScopedRow(db, r))
  }

  /** What one rule adds to the report of a dry run; a client to be moved or revived is reported as that alone. */
  ghost function DryTally(a: Db, r: int): Counts {
    if Repaired(a, r) then Counts(1, 0, 0, 0, 0)
    else
      var merged, orphaned := WouldMerge(a, r), WouldEnd(a, r);
      Counts(Once(merged || orphaned), Once(orphaned), Once(orphaned && OnDisabledRow(a, r)), Once(merged),
        Once(orphaned && !OnDisabledRow(a, r) && (OnSomeRow(a, r) || TwoClients(a, r))))
  }

  lemma TakesFirstNow(a: Db, scopes: seq<int>, r: int, t: int)
    requires Listing(a, scopes) && IsSingle(a, r)
    ensures match CompatibleScope(a, scopes, r, t)
            case Some(s) => Admits(a, s, r, t) && SoleScope(a, s, t)
            case None => forall s :: Admits(a, s, r, t) ==> !SoleScope(a, s, t)
  {
    CompatibleFirst(a, scopes, r, t);
    forall s ensures s in scopes && s != r && ScopeAdmits(a, s, r, t) <==> Admits(a, s, r, t) {}
    forall s ensures SoleScope(a, s, t) == !a.ScopeOn(t, s) { SoleScopeIs(a, s, t); }
  }

  lemma OnRow(a: Db, r: int, t: int)
    requires ResolvesTo(a, r, t)
    ensures WouldMerge(a, r) <==> exists s :: Admits(a, s, r, t) && SoleScope(a, s, t)
    ensures OnScopedRow(a, r) <==> t in a.traffic && Scoped(a, t)
  {
    forall u ensures Stands(a, r, u) ==> u == t { StandsExactly(a, r, u); }
    StandsExactly(a, r, t);
  }

  lemma DryHere(a: Db, scopes: seq<int>, r: int, t: int, now: int)
    requires IsSingle(a, r) && Listing(a, scopes) && PlaceOf(a, r) == Here(t) && t in a.traffic && !MissingHere(a, r, t)
    ensures Conclude(a, scopes, r, t, false, now, true).1 == DryTally(a, r)
  {
    StandsOnOne(a, r, t);
    OnRow(a, r, t);
    TakesFirstNow(a, scopes, r, t);
    assert Scoped(a, t) == a.ScopeOn(t, r);
  }

  lemma DryNowhere(a: Db, scopes: seq<int>, r: int, now: int)
    requires IsSingle(a, r) && RowOf(PlaceOf(a, r)).None?
    ensures SingleRule(a, scopes, r, now, true).1 == DryTally(a, r)
  {
    StandsNowhere(a, r);
    ManyAreTwo(a, r);
    NotTwoOfOne(a, r);
    assert !WouldMerge(a, r);
  }

  lemma NotTwoOfOne(a: Db, r: int)
    ensures PlaceOf(a, r).Gone? || PlaceOf(a, r).Renamed? || PlaceOf(a, r).NoClient? ==> !TwoClients(a, r)
    ensures PlaceOf(a, r).ManyClients? ==> TwoClients(a, r)
  {
    ManyAreTwo(a, r);
  }

  lemma DryStep(a: Db, scopes: seq<int>, r: int, now: int)
    requires IsSingle(a, r) && Listing(a, scopes)
    ensures SingleRule(a, scopes, r, now, true).1 == DryTally(a, r)
  {
    match PlaceOf(a, r) {
      case Follow(t, row) =>
        SoleClient(a, r);
        StandsOnOne(a, r, row);
      case Here(t) =>
        SoleClient(a, r);
        StandsOnOne(a, r, t);
        if !MissingHere(a, r, t) { DryHere(a, scopes, r, t, now); }
      case _ => DryNowhere(a, scopes, r, now);
    }
  }

  lemma DryKeeps(a: Db, scopes: seq<int>, r: int, now: int)
    ensures SingleRule(a, scopes, r, now, true).0 == a
  {
  }

  ghost function DryTotal(a: Db, rules: seq<int>): Counts {
    if rules == [] then NO_COUNTS else Add(DryTally(a, rules[0]), DryTotal(a, rules[1..]))
  }

  lemma {:induction false} DryRuns(a: Db, scopes: seq<int>, rules: seq<int>, now: int)
    requires Listing(a, scopes) && forall r :: r in rules ==> IsSingle(a, r)
    ensures SingleRules(a, scopes, rules, now, true) == (a, DryTotal(a, rules))
  {
    if rules != [] {
      var r := rules[0];
      assert r in rules && forall x :: x in rules[1..] ==> x in rules;
      DryStep(a, scopes, r, now);
      DryKeeps(a, scopes, r, now);
      DryRuns(a, scopes, rules[1..], now);
    }
  }

  /** The report of a dry run counts each listed rule by what a turn on the tables as they are would make of it. */
  lemma DryReportIsTrue(a: Db, inbound: Option<int>, now: int)
    requires now > 0
    ensures var (b, report) := Reconcile(a, inbound, now, true).value;
            && b == a && report.checked == |ListSingles(a, inbound)|
            && report.counts == DryTotal(a, ListSingles(a, inbound))
  {
    PersistentListing(a);
    ListedSingles(a, inbound);
    DryRuns(a, ListPersistentScopes(a), ListSingles(a, inbound), now);
  }
}
