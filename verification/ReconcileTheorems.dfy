/** The main results about ReconcileTx: one owner per row, a fixpoint, a faithful dry run, and what it keeps. */
module ReconcileTheorems {
  import opened Collections
  import opened Model
  import opened PolicyTable
  import opened Baselines
  import opened Reconciling
  import opened ReconcileProofs

  lemma ListedScopes(db: Db)
    ensures ScopesListed(db, ListPersistentScopes(db))
    ensures forall s :: s in ListPersistentScopes(db) <==> s in PersistentIds(db)
  {
    var ids := PersistentIds(db);
    forall s | s in ListPersistentScopes(db) ensures s in db.scopes && db.Active(s) {
      assert s in ids;
    }
  }

  lemma ListedSingles(db: Db, inbound: Option<int>)
    ensures Increasing(ListSingles(db, inbound))
    ensures forall r :: r in ListSingles(db, inbound) ==> IsSingle(db, r)
    ensures forall r :: inbound.None? && IsSingle(db, r) ==> r in ListSingles(db, inbound)
  {
    var ids := SingleIds(db, inbound);
    forall r | r in ListSingles(db, inbound) ensures IsSingle(db, r) {
      assert r in ids;
    }
    forall r | inbound.None? && IsSingle(db, r) ensures r in ListSingles(db, inbound) {
      assert r in ids;
    }
  }

  lemma RulesOutcome(a: Db, inbound: Option<int>, now: int)
    ensures var b, scopes, rules := Rules(a, inbound, now, false).0, ListPersistentScopes(a), ListSingles(a, inbound);
            && BesideAll(a, b, rules)
            && (forall r, t :: r in rules && ResolvesTo(a, r, t) ==>
                               (b.Active(r) <==> SurvivesOn(a, scopes, rules, r, t)))
            && (forall r :: r in rules && b.Active(r) ==> exists t :: ResolvesTo(a, r, t) && Seated(b, r, t))
            && (forall t :: Scoped(b, t) <==> Scoped(a, t) || AdmittedOn(a, scopes, rules, t))
            && (ScopesOneOwner(a) ==> ScopesOneOwner(b))
  {
    ListedScopes(a);
    ListedSingles(a, inbound);
    SurvivorsExactly(a, ListPersistentScopes(a), ListSingles(a, inbound), now);
  }

  // One owner per row -----------------------------------------------------

  /**
   * Where two listed rules resolve to one enabled, unscoped row, a rule no later than the first of them is admitted
   * by a scope.
   */
  ghost predicate Settles(db: Db, scopes: seq<int>, rules: seq<int>) {
    forall x, y, t :: x in rules && y in rules && x < y && Contested(db, x, t) && Contested(db, y, t) ==>
                      AdmittedUpTo(db, scopes, rules, x, t)
  }

  predicate Contested(db: Db, x: int, t: int) {
    ResolvesTo(db, x, t) && t in db.traffic && db.traffic[t].enable && !Scoped(db, t)
  }

  ghost predicate AdmittedUpTo(db: Db, scopes: seq<int>, rules: seq<int>, x: int, t: int) {
    exists q :: q in rules && q <= x && ResolvesTo(db, q, t) && Admitted(db, scopes, q, t)
  }

  /** No single-user rule outside the listing sits on a row that a listed rule resolves to. */
  ghost predicate UnlistedApart(db: Db, rules: seq<int>) {
    forall x, y, t :: x in rules && IsSingle(db, y) && y !in rules && ResolvesTo(db, x, t) ==> !db.Owns(y, t)
  }

  lemma OwnerAfter(a: Db, b: Db, scopes: seq<int>, rules: seq<int>, x: int, t: int)
    requires BesideAll(a, b, rules) && b.Owns(x, t)
    requires forall r :: r in rules && b.Active(r) ==> exists t :: ResolvesTo(a, r, t) && Seated(b, r, t)
    ensures x in rules ==> ResolvesTo(a, x, t) && Seated(b, x, t)
    ensures x !in rules ==> a.Active(x) && (x !in a.scopes ==> IsSingle(a, x) && a.Owns(x, t))
  {
    if x in rules {
      var u :| ResolvesTo(a, x, u) && Seated(b, x, u);
      assert Key(x, t).traffic == u;
    } else {
      assert b.rules[x] == a.rules[x];
      assert Key(x, t).rule !in rules;
    }
  }

  /** With the listed rules settled and the others apart, reconcile leaves one owner per row. */
  lemma ReconcileKeepsOneOwner(a: Db, inbound: Option<int>, now: int)
    requires OneOwner(a)
    requires Settles(a, ListPersistentScopes(a), ListSingles(a, inbound)) && UnlistedApart(a, ListSingles(a, inbound))
    ensures OneOwner(Rules(a, inbound, now, false).0)
  {
    var b, scopes, rules := Rules(a, inbound, now, false).0, ListPersistentScopes(a), ListSingles(a, inbound);
    RulesOutcome(a, inbound, now);
    ListedSingles(a, inbound);
    assert ScopesOneOwner(a);
    forall x, y, t | b.Owns(x, t) && b.Owns(y, t) ensures x == y {
      OwnerAfter(a, b, scopes, rules, x, t);
      OwnerAfter(a, b, scopes, rules, y, t);
      if x in rules && y in rules {
        if x < y { TwoSurvivors(a, b, scopes, rules, x, y, t); } else if y < x {
          TwoSurvivors(a, b, scopes, rules, y, x, t);
        }
      } else if x in rules {
        OneSurvivor(a, b, scopes, rules, x, y, t);
      } else if y in rules {
        OneSurvivor(a, b, scopes, rules, y, x, t);
      } else {
        NoSurvivor(a, b, scopes, rules, x, y, t);
      }
    }
  }

  /** A rule whose row a scope owns, or comes to own, does not survive the run. */
  lemma ScopedBlocks(a: Db, scopes: seq<int>, rules: seq<int>, x: int, t: int)
    requires Settles(a, scopes, rules) && x in rules && ResolvesTo(a, x, t)
    requires Scoped(a, t) || AdmittedOn(a, scopes, rules, t)
    ensures !SurvivesOn(a, scopes, rules, x, t)
  {
    if !Scoped(a, t) {
      var q :| q in rules && ResolvesTo(a, q, t) && Admitted(a, scopes, q, t);
      if x < q && Contested(a, x, t) {
        assert Contested(a, q, t);
        assert AdmittedUpTo(a, scopes, rules, x, t);
      }
    }
  }

  lemma TwoSurvivors(a: Db, b: Db, scopes: seq<int>, rules: seq<int>, x: int, y: int, t: int)
    requires Settles(a, scopes, rules) && x in rules && y in rules && ResolvesTo(a, x, t) && ResolvesTo(a, y, t)
             && x < y
    requires forall r, t :: r in rules && ResolvesTo(a, r, t) ==> (b.Active(r) <==> SurvivesOn(a, scopes, rules, r, t))
    ensures !b.Active(y)
  {
    if Contested(a, y, t) {
      assert Contested(a, x, t);
      assert AdmittedUpTo(a, scopes, rules, x, t);
    }
  }

  lemma OneSurvivor(a: Db, b: Db, scopes: seq<int>, rules: seq<int>, x: int, y: int, t: int)
    requires BesideAll(a, b, rules) && Settles(a, scopes, rules) && UnlistedApart(a, rules)
    requires x in rules && y !in rules && ResolvesTo(a, x, t)
    requires forall r, t :: r in rules && ResolvesTo(a, r, t) ==> (b.Active(r) <==> SurvivesOn(a, scopes, rules, r, t))
    requires forall t :: Scoped(b, t) <==> Scoped(a, t) || AdmittedOn(a, scopes, rules, t)
    requires b.Owns(y, t) && (y !in a.scopes ==> IsSingle(a, y) && a.Owns(y, t))
    ensures !b.Active(x)
  {
    assert y in a.scopes;
    assert Scoped(b, t);
    ScopedBlocks(a, scopes, rules, x, t);
  }

  lemma NoSurvivor(a: Db, b: Db, scopes: seq<int>, rules: seq<int>, x: int, y: int, t: int)
    requires BesideAll(a, b, rules) && UnlistedApart(a, rules) && OneOwner(a) && ScopesOneOwner(b)
    requires x !in rules && y !in rules && b.Owns(x, t) && b.Owns(y, t)
    requires x !in a.scopes ==> IsSingle(a, x) && a.Owns(x, t)
    requires y !in a.scopes ==> IsSingle(a, y) && a.Owns(y, t)
    requires forall t :: Scoped(b, t) <==> Scoped(a, t) || AdmittedOn(a, scopes, rules, t)
    ensures x == y
  {
    if x !in a.scopes && y in a.scopes {
      SingleBesideScope(a, b, scopes, rules, x, y, t);
    } else if x in a.scopes && y !in a.scopes {
      SingleBesideScope(a, b, scopes, rules, y, x, t);
    }
  }

  lemma SingleBesideScope(a: Db, b: Db, scopes: seq<int>, rules: seq<int>, x: int, s: int, t: int)
    requires BesideAll(a, b, rules) && UnlistedApart(a, rules) && OneOwner(a)
    requires x !in rules && IsSingle(a, x) && a.Owns(x, t) && s in a.scopes
    requires forall t :: Scoped(b, t) <==> Scoped(a, t) || AdmittedOn(a, scopes, rules, t)
    ensures !b.Owns(s, t)
  {
    assert forall z :: z in a.scopes ==> !a.Owns(z, t);
    assert forall q :: q in rules ==> !ResolvesTo(a, q, t);
    assert !Scoped(b, t);
  }

  /** Unfiltered reconcile leaves one owner per row exactly when the rules it lists are settled. */
  lemma OneOwnerExactly(a: Db, now: int)
    requires OneOwner(a)
    ensures OneOwner(Rules(a, None, now, false).0) <==> Settles(a, ListPersistentScopes(a), ListSingles(a, None))
  {
    var b, scopes, rules := Rules(a, None, now, false).0, ListPersistentScopes(a), ListSingles(a, None);
    ListedSingles(a, None);
    if Settles(a, scopes, rules) {
      ReconcileKeepsOneOwner(a, None, now);
    } else {
      var x, y, t :| x in rules && y in rules && x < y && Contested(a, x, t) && Contested(a, y, t)
          && !AdmittedUpTo(a, scopes, rules, x, t);
      RulesOutcome(a, None, now);
      ClashRemains(a, b, scopes, rules, x, y, t);
    }
  }

  lemma ClashRemains(a: Db, b: Db, scopes: seq<int>, rules: seq<int>, x: int, y: int, t: int)
    requires x in rules && y in rules && x < y && Contested(a, x, t) && Contested(a, y, t)
             && !AdmittedUpTo(a, scopes, rules, x, t)
    requires BesideAll(a, b, rules) && (forall r :: r in rules ==> IsSingle(a, r))
    requires forall r, t :: r in rules && ResolvesTo(a, r, t) ==> (b.Active(r) <==> SurvivesOn(a, scopes, rules, r, t))
    requires forall r :: r in rules && b.Active(r) ==> exists t :: ResolvesTo(a, r, t) && Seated(b, r, t)
    requires forall t :: Scoped(b, t) <==> Scoped(a, t) || AdmittedOn(a, scopes, rules, t)
    ensures !OneOwner(b)
  {
    assert SurvivesOn(a, scopes, rules, x, t);
    SurvivorOwns(a, b, rules, x, t);
    if b.Active(y) {
      SurvivorOwns(a, b, rules, y, t);
      assert b.Owns(x, t) && b.Owns(y, t);
    } else {
      assert AdmittedOn(a, scopes, rules, t) by { assert !SurvivesOn(a, scopes, rules, y, t); }
      assert Scoped(b, t);
      var s :| s in b.scopes && b.Owns(s, t);
      assert IsSingle(a, x);
      assert b.Owns(x, t) && s != x;
    }
  }

  lemma SurvivorOwns(a: Db, b: Db, rules: seq<int>, x: int, t: int)
    requires x in rules && b.Active(x) && ResolvesTo(a, x, t)
    requires forall r :: r in rules && b.Active(r) ==> exists t :: ResolvesTo(a, r, t) && Seated(b, r, t)
    ensures Seated(b, x, t) && b.Owns(x, t)
  {
    var u :| ResolvesTo(a, x, u) && Seated(b, x, u);
  }

  // A fixpoint ------------------------------------------------------------

  /** A real step on the rule reports nothing. */
  predicate Quiet(db: Db, scopes: seq<int>, r: int) {
    var t := RowOf(PlaceOf(db, r));
    && PlaceOf(db, r).Here? && t.value in db.traffic && !MissingHere(db, r, t.value)
    && db.traffic[t.value].enable && !Scoped(db, t.value) && !Admitted(db, scopes, r, t.value)
  }

  lemma VerdictStays(db: Db, scopes: seq<int>, r: int, t: int)
    requires t in db.traffic && r !in db.scopes
    ensures VerdictOn(db, scopes, r, t).Stay? <==> db.traffic[t].enable && !Scoped(db, t) && !Admitted(db, scopes, r, t)
  {
    CompatibleFacts(db, scopes, r, t);
    assert db.ScopeOn(t, r) == Scoped(db, t);
    if CompatibleScope(db, scopes, r, t).None? && Admitted(db, scopes, r, t) {
      var s :| s in scopes && s != r && ScopeAdmits(db, s, r, t);
      assert db.ScopeOn(t, s);
    }
  }

  /** A dry step counts a rule as reconciled exactly when it is not quiet. */
  lemma DryCounts(db: Db, scopes: seq<int>, r: int, now: int)
    requires IsSingle(db, r)
    ensures SingleRule(db, scopes, r, now, true).0 == db
    ensures SingleRule(db, scopes, r, now, true).1.reconciled == if Quiet(db, scopes, r) then 0 else 1
  {
    match PlaceOf(db, r) {
      case Here(t) =>
        SoleClient(db, r);
        VerdictStays(db, scopes, r, t);
      case _ =>
    }
  }

  /** A real step counts it in the same way, though it relinks, revives and adopts on the way. */
  lemma RealCounts(db: Db, scopes: seq<int>, r: int, now: int)
    requires IsSingle(db, r) && ScopesListed(db, scopes)
    ensures SingleRule(db, scopes, r, now, false).1.reconciled == if Quiet(db, scopes, r) then 0 else 1
  {
    match PlaceOf(db, r) {
      case Here(t) =>
        SoleClient(db, r);
        HereFacts(db, r, t, now);
        var p := Placed(db, r, Here(t), now);
        VerdictStays(p, scopes, r, t);
        SameScoped(db, p, r, t);
        forall s ensures ScopeAdmits(db, s, r, t) == ScopeAdmits(p, s, r, t) {}
      case Follow(t, row) =>
        SoleClient(db, r);
      case _ =>
    }
  }

  /** Nothing is left to do for the rule: its client is in place and its row is nobody else's. */
  ghost predicate Calm(db: Db, scopes: seq<int>, r: int) {
    exists t :: CalmOn(db, scopes, r, t)
  }

  ghost predicate CalmOn(db: Db, scopes: seq<int>, r: int, t: int) {
    Seated(db, r, t) && db.traffic[t].enable && !Scoped(db, t) && !Admitted(db, scopes, r, t)
  }

  lemma SeatedIsHere(db: Db, r: int, t: int)
    requires Seated(db, r, t)
    ensures PlaceOf(db, r) == Here(t)
  {
    assert t in db.ClientsOf(r) by { assert Key(r, t) in db.clients; }
    assert db.ClientsOf(r) == {t};
  }

  lemma CalmStep(db: Db, scopes: seq<int>, r: int, now: int)
    requires IsSingle(db, r) && Calm(db, scopes, r)
    ensures SingleRule(db, scopes, r, now, false) == (db, NO_COUNTS)
  {
    var t :| CalmOn(db, scopes, r, t);
    SeatedIsHere(db, r, t);
    VerdictStays(db, scopes, r, t);
    assert Placed(db, r, Here(t), now) == db;
  }

  lemma {:induction false} CalmRun(db: Db, scopes: seq<int>, rules: seq<int>, now: int)
    requires forall r :: r in rules ==> IsSingle(db, r) && Calm(db, scopes, r)
    ensures SingleRules(db, scopes, rules, now, false) == (db, NO_COUNTS)
  {
    if rules != [] {
      assert rules[0] in rules && forall r :: r in rules[1..] ==> r in rules;
      CalmStep(db, scopes, rules[0], now);
      CalmRun(db, scopes, rules[1..], now);
    }
  }

  lemma SurvivorSeated(a: Db, inbound: Option<int>, now: int, r: int) returns (t: int)
    requires r in ListSingles(a, inbound) && Rules(a, inbound, now, false).0.Active(r)
    ensures var b := Rules(a, inbound, now, false).0;
            Seated(b, r, t) && SurvivesOn(a, ListPersistentScopes(a), ListSingles(a, inbound), r, t)
                && BesideAll(a, b, ListSingles(a, inbound))
  {
    RulesOutcome(a, inbound, now);
    t :| ResolvesTo(a, r, t) && Seated(Rules(a, inbound, now, false).0, r, t);
  }

  /**
   * Where two listed rules resolve to one free row and a scope admits the later, a scope admits one no later than the
   * earlier.
   */
  ghost predicate Rested(db: Db, scopes: seq<int>, rules: seq<int>) {
    forall x, y, t :: x in rules && y in rules && x < y && Contested(db, x, t) && Contested(db, y, t)
                      && Admitted(db, scopes, y, t) ==>
      AdmittedUpTo(db, scopes, rules, x, t)
  }

  /** A table whose contested rows are settled is rested. */
  lemma SettledIsRested(db: Db, scopes: seq<int>, rules: seq<int>)
    requires Settles(db, scopes, rules)
    ensures Rested(db, scopes, rules)
  {
  }

  /** The survivors' rows stay free. */
  ghost predicate SurvivorsFree(a: Db, b: Db, scopes: seq<int>, rules: seq<int>) {
    forall r, t :: r in rules && SurvivesOn(a, scopes, rules, r, t) ==> !Scoped(b, t)
  }

  /** They do exactly on rested tables. */
  lemma FreeExactly(a: Db, b: Db, scopes: seq<int>, rules: seq<int>)
    requires forall t :: Scoped(b, t) <==> Scoped(a, t) || AdmittedOn(a, scopes, rules, t)
    ensures SurvivorsFree(a, b, scopes, rules) <==> Rested(a, scopes, rules)
  {
    if Rested(a, scopes, rules) {
      forall r, t | r in rules && SurvivesOn(a, scopes, rules, r, t) ensures !Scoped(b, t) {
        if q :| q in rules && ResolvesTo(a, q, t) && Admitted(a, scopes, q, t) {
          assert Contested(a, r, t) && Contested(a, q, t) && r < q;
        }
      }
    }
    if SurvivorsFree(a, b, scopes, rules) {
      forall x, y, t | x in rules && y in rules && x < y && Contested(a, x, t) && Contested(a, y, t)
          && Admitted(a, scopes, y, t)
        ensures AdmittedUpTo(a, scopes, rules, x, t)
      {
        if !AdmittedUpTo(a, scopes, rules, x, t) {
          assert SurvivesOn(a, scopes, rules, x, t) && AdmittedOn(a, scopes, rules, t);
        }
      }
    }
  }

  lemma SurvivorCalm(a: Db, b: Db, scopes: seq<int>, rules: seq<int>, r: int, t: int)
    requires r in rules && BesideAll(a, b, rules) && Seated(b, r, t) && SurvivesOn(a, scopes, rules, r, t)
             && r in a.rules
    ensures CalmOn(b, scopes, r, t) <==> !Scoped(b, t)
  {
    forall s | s in scopes ensures ScopeAdmits(b, s, r, t) == ScopeAdmits(a, s, r, t) {}
    assert !Admitted(a, scopes, r, t);
  }

  /** After the run every active single-user rule is calm, if the survivors' rows stayed free. */
  lemma FreeIsCalm(a: Db, now: int, r: int)
    requires var b := Rules(a, None, now, false).0; IsSingle(b, r)
                                                    && SurvivorsFree(a, b, ListPersistentScopes(a),
                                                    ListSingles(a, None))
    ensures Calm(Rules(a, None, now, false).0, ListPersistentScopes(a), r)
  {
    var b, scopes, rules := Rules(a, None, now, false).0, ListPersistentScopes(a), ListSingles(a, None);
    RulesOutcome(a, None, now);
    ListedSingles(a, None);
    var t := SurvivorSeated(a, None, now, r);
    SurvivorCalm(a, b, scopes, rules, r, t);
    assert CalmOn(b, scopes, r, t);
  }

  lemma SamePersistent(a: Db, b: Db, rules: seq<int>)
    requires BesideAll(a, b, rules) && forall r :: r in rules ==> IsSingle(a, r)
    ensures ListPersistentScopes(b) == ListPersistentScopes(a)
  {
    forall s ensures s in PersistentIds(b) <==> s in PersistentIds(a) {
      if s in a.scopes && s in a.rules { assert s !in rules; }
    }
    assert PersistentIds(b) == PersistentIds(a);
  }

  lemma PoliciesApart(b: Db, c: Db, scopes: seq<int>, r: int)
    requires c == b.(excludes := c.excludes, overrides := c.overrides)
    ensures IsSingle(c, r) == IsSingle(b, r)
    ensures Calm(b, scopes, r) ==> Calm(c, scopes, r)
  {
    if t :| CalmOn(b, scopes, r, t) {
      forall x ensures c.Owns(x, t) == b.Owns(x, t) {}
      assert Scoped(c, t) == Scoped(b, t);
      forall s ensures ScopeAdmits(c, s, r, t) == ScopeAdmits(b, s, r, t) {}
      assert Admitted(c, scopes, r, t) == Admitted(b, scopes, r, t);
      assert CalmOn(c, scopes, r, t);
    }
  }

  lemma ListedAfter(a: Db, now: int)
    ensures var c := Policies(Rules(a, None, now, false).0, None, now, false);
              ListPersistentScopes(c) == ListPersistentScopes(a)
  {
    var b := Rules(a, None, now, false).0;
    RulesOutcome(a, None, now);
    ListedSingles(a, None);
    SamePersistent(a, b, ListSingles(a, None));
    assert PersistentIds(Policies(b, None, now, false)) == PersistentIds(b);
  }

  lemma AllCalm(a: Db, now: int)
    requires SurvivorsFree(a, Rules(a, None, now, false).0, ListPersistentScopes(a), ListSingles(a, None))
    ensures var c := Policies(Rules(a, None, now, false).0, None, now, false);
            forall r :: IsSingle(c, r) ==> Calm(c, ListPersistentScopes(c), r)
  {
    var b := Rules(a, None, now, false).0;
    var c := Policies(b, None, now, false);
    ListedAfter(a, now);
    forall r | IsSingle(c, r) ensures Calm(c, ListPersistentScopes(c), r) {
      PoliciesApart(b, c, ListPersistentScopes(a), r);
      FreeIsCalm(a, now, r);
    }
  }

  /** A rule whose row a scope owns does not survive another run. */
  lemma ScopedEnds(c: Db, later: int, r: int, t: int)
    requires IsSingle(c, r) && Seated(c, r, t) && Scoped(c, t)
    ensures !Rules(c, None, later, false).0.Active(r)
  {
    RulesOutcome(c, None, later);
    ListedSingles(c, None);
    SeatedIsHere(c, r, t);
    assert ResolvesTo(c, r, t);
  }

  /** Conversely, where a second run keeps the tables, the survivors' rows stayed free. */
  lemma FixedIsFree(a: Db, now: int, later: int)
    requires var c := Policies(Rules(a, None, now, false).0, None, now, false);
               Rules(c, None, later, false).0.rules == c.rules
    ensures SurvivorsFree(a, Rules(a, None, now, false).0, ListPersistentScopes(a), ListSingles(a, None))
  {
    var b, scopes, rules := Rules(a, None, now, false).0, ListPersistentScopes(a), ListSingles(a, None);
    var c := Policies(b, None, now, false);
    RulesOutcome(a, None, now);
    ListedSingles(a, None);
    forall r, t | r in rules && SurvivesOn(a, scopes, rules, r, t) ensures !Scoped(b, t) {
      var u := SurvivorSeated(a, None, now, r);
      if Scoped(b, t) {
        assert Scoped(c, t) by { var x :| x in b.scopes && b.Owns(x, t); assert c.Owns(x, t); }
        assert IsSingle(c, r) && Seated(c, r, t);
        ScopedEnds(c, later, r, t);
      }
    }
  }

  lemma RulesAtRest(c: Db, now: int)
    requires forall r :: IsSingle(c, r) ==> Calm(c, ListPersistentScopes(c), r)
    ensures Rules(c, None, now, false) == (c, NO_COUNTS)
  {
    ListedSingles(c, None);
    CalmRun(c, ListPersistentScopes(c), ListSingles(c, None), now);
  }

  /**
   * Exactly on rested tables does an unfiltered real run leave every active single-user rule calm, and a second run
   * change no table and report nothing.
   */
  lemma ReconcileFixpoint(a: Db, now: int, later: int)
    requires now > 0 && later > 0 && EmailsUnique(a) && TuplesUnique(a.excludes) && TuplesUnique(a.overrides)
    ensures var c, rested := Reconcile(a, None, now, false).value.0,
            Rested(a, ListPersistentScopes(a), ListSingles(a, None));
            && (rested <==> forall r :: IsSingle(c, r) ==> Calm(c, ListPersistentScopes(c), r))
            && (rested <==> Reconcile(c, None, later, false) == Ok((c, Report(|ListSingles(c, None)|, NO_COUNTS, 0))))
  {
    var b, scopes, rules := Rules(a, None, now, false).0, ListPersistentScopes(a), ListSingles(a, None);
    var c := Policies(b, None, now, false);
    RulesOutcome(a, None, now);
    FreeExactly(a, b, scopes, rules);
    PoliciesSettled(a, b, now, later);
    if Rested(a, scopes, rules) {
      AllCalm(a, now);
      RulesAtRest(c, later);
    } else {
      NotFixed(a, now, later);
    }
  }

  lemma NotFixed(a: Db, now: int, later: int)
    requires !SurvivorsFree(a, Rules(a, None, now, false).0, ListPersistentScopes(a), ListSingles(a, None))
    ensures var c := Policies(Rules(a, None, now, false).0, None, now, false);
            && Rules(c, None, later, false).0.rules != c.rules
            && !(forall r :: IsSingle(c, r) ==> Calm(c, ListPersistentScopes(c), r))
  {
    var c := Policies(Rules(a, None, now, false).0, None, now, false);
    if Rules(c, None, later, false).0.rules == c.rules { FixedIsFree(a, now, later); }
    if forall r :: IsSingle(c, r) ==> Calm(c, ListPersistentScopes(c), r) { RulesAtRest(c, later); }
  }

  lemma PoliciesSettled(a: Db, b: Db, now: int, later: int)
    requires b.traffic == a.traffic && b.excludes == a.excludes && b.overrides == a.overrides
    requires EmailsUnique(a) && TuplesUnique(a.excludes) && TuplesUnique(a.overrides)
    ensures var c := Policies(b, None, now, false); Policies(c, None, later, false) == c && Repairs(c, None) == 0
  {
    var c := Policies(b, None, now, false);
    TableSettled(b, c, b.excludes, now, later);
    TableSettled(b, c, b.overrides, now, later);
  }

  lemma TableSettled(b: Db, c: Db, table: Table, now: int, later: int)
    requires c.traffic == b.traffic && EmailsUnique(b) && TuplesUnique(table)
    ensures var after := FollowAll(b, table, table, ListActive(table), None, now);
            FollowAll(c, after, after, ListActive(after), None, later) == after
                && RepairCount(c, after, ListActive(after), None) == 0
  {
    var after := FollowAll(b, table, table, ListActive(table), None, now);
    ListActiveLists(table);
    PoliciesFollowEmail(b, table, ListActive(table), now);
    ListActiveLists(after);
    forall id, t | ActiveRow(after, id) && t in c.traffic && c.traffic[t].email == after[id].email
      ensures Settled(c, after, id, t)
    {
      assert Settled(b, after, id, t);
    }
    NothingStale(c, after, ListActive(after), None);
  }

  // A relink onto an owned row ----------------------------------------------

  /** The rule ends merged or orphaned, now; nothing else about it changes. */
  predicate EndsNow(p: Rule, q: Rule, now: int) {
    (q.state == Merged || q.state == Orphaned) && q == Rule(p.inboundId, p.email, p.factorPpm, q.state, now, Some(now))
  }

  /** The rule stays as it was, or ends merged or orphaned. */
  predicate StaysOrEnds(a: Db, b: Db, r: int, now: int) {
    r in a.rules ==> r in b.rules && (b.rules[r] == a.rules[r] || EndsNow(a.rules[r], b.rules[r], now))
  }

  lemma ConcludeEnds(p: Db, scopes: seq<int>, r: int, t: int, repaired: bool, now: int)
    requires t in p.traffic
    ensures forall x :: StaysOrEnds(p, Conclude(p, scopes, r, t, repaired, now, false).0, x, now)
  {
  }

  lemma PlacedThere(a: Db, r: int, t: int, row: int, now: int)
    ensures Placed(a, r, Follow(t, row), now).rules == a.rules && Placed(a, r, Follow(t, row), now).traffic == a.traffic
  {
  }

  lemma AdoptInboundFrame(a: Db, k: Key, inbound: int)
    ensures a.AdoptInbound(k, inbound).rules == a.rules && a.AdoptInbound(k, inbound).traffic == a.traffic
  {
  }

  lemma RevivedFrame(a: Db, k: Key, row: Traffic, now: int)
    ensures var b := a.Rebase(k, row.up, row.down, 0, 0).Log(Some(k.rule), ClientReset, OnTraffic(k.traffic), now);
            b.rules == a.rules && b.traffic == a.traffic
  {
  }

  lemma PlacedHere(a: Db, r: int, t: int, now: int)
    ensures Placed(a, r, Here(t), now).rules == a.rules && Placed(a, r, Here(t), now).traffic == a.traffic
  {
    if t in a.traffic && Key(r, t) in a.clients {
      var row, k := a.traffic[t], Key(r, t);
      RevivedFrame(a, k, row, now);
      AdoptInboundFrame(a.Rebase(k, row.up, row.down, 0, 0).Log(Some(r), ClientReset, OnTraffic(t), now), k,
          row.inboundId);
      AdoptInboundFrame(a, k, row.inboundId);
    }
  }

  lemma PlacedEnds(a: Db, p: Db, scopes: seq<int>, r: int, t: int, repaired: bool, now: int, x: int)
    requires t in p.traffic && p.rules == a.rules
    ensures StaysOrEnds(a, Conclude(p, scopes, r, t, repaired, now, false).0, x, now)
  {
    ConcludeEnds(p, scopes, r, t, repaired, now);
  }

  lemma FollowEnds(a: Db, scopes: seq<int>, r: int, t: int, row: int, now: int, x: int)
    requires PlaceOf(a, r) == Follow(t, row)
    ensures StaysOrEnds(a, SingleRule(a, scopes, r, now, false).0, x, now)
  {
    PlacedThere(a, r, t, row, now);
    if row in a.traffic { PlacedEnds(a, Placed(a, r, Follow(t, row), now), scopes, r, row, true, now, x); }
  }

  lemma HereEnds(a: Db, scopes: seq<int>, r: int, t: int, now: int, x: int)
    requires PlaceOf(a, r) == Here(t)
    ensures StaysOrEnds(a, SingleRule(a, scopes, r, now, false).0, x, now)
  {
    PlacedHere(a, r, t, now);
    if t in a.traffic { PlacedEnds(a, Placed(a, r, Here(t), now), scopes, r, t, MissingHere(a, r, t), now, x); }
  }

  lemma OrphanEnds(a: Db, k: Key, r: int, now: int, x: int)
    ensures StaysOrEnds(a, Orphan(a, r, now), x, now) && StaysOrEnds(a, Orphan(NoteMissing(a, k, now), r, now), x, now)
  {
  }

  lemma SingleRuleEnds(a: Db, scopes: seq<int>, r: int, now: int, x: int)
    ensures StaysOrEnds(a, SingleRule(a, scopes, r, now, false).0, x, now)
  {
    match PlaceOf(a, r)
    case Follow(t, row) => FollowEnds(a, scopes, r, t, row, now, x);
    case Here(t) => HereEnds(a, scopes, r, t, now, x);
    case NoClient => OrphanEnds(a, Key(r, 0), r, now, x);
    case ManyClients => OrphanEnds(a, Key(r, 0), r, now, x);
    case Gone(t) => OrphanEnds(a, Key(r, t), r, now, x);
    case Renamed(t) => OrphanEnds(a, Key(r, t), r, now, x);
  }

  lemma {:induction false} SingleRulesEnd(a: Db, scopes: seq<int>, rules: seq<int>, now: int, x: int)
    ensures StaysOrEnds(a, SingleRules(a, scopes, rules, now, false).0, x, now)
    decreases |rules|
  {
    if rules != [] {
      var m := SingleRule(a, scopes, rules[0], now, false).0;
      SingleRuleEnds(a, scopes, rules[0], now, x);
      SingleRulesEnd(m, scopes, rules[1..], now, x);
    }
  }

  /**
   * A listed rule whose client resolves to a row that an active scope owns - moved there by a relink or there all
   * along - ends merged or orphaned, never a second owner.
   */
  lemma OwnedRowEndsRule(a: Db, inbound: Option<int>, now: int, r: int, t: int)
    requires r in ListSingles(a, inbound) && ResolvesTo(a, r, t) && Scoped(a, t)
    ensures var b := Rules(a, inbound, now, false).0;
            r in b.rules && (b.rules[r].state.Merged? || b.rules[r].state.Orphaned?)
  {
    RulesOutcome(a, inbound, now);
    ListedSingles(a, inbound);
    SingleRulesEnd(a, ListPersistentScopes(a), ListSingles(a, inbound), now, r);
  }
}
