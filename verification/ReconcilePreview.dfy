/** The dry run of reconcile as a preview of the real one, and what the real one keeps. */
module ReconcilePreview {
  import opened Collections
  import opened Model
  import opened PolicyTable
  import opened Baselines
  import opened Reconciling
  import opened ReconcileProofs
  import opened ReconcileTheorems

  // The preview -----------------------------------------------------------

  function Noisy(db: Db, scopes: seq<int>, rules: seq<int>): nat {
    if rules == [] then 0 else (if Quiet(db, scopes, rules[0]) then 0 else 1) + Noisy(db, scopes, rules[1..])
  }

  /** A rule that is quiet at first loses its row to a scope that adopts an earlier rule on the same row. */
  ghost predicate Disturbed(db: Db, scopes: seq<int>, rules: seq<int>) {
    exists q, r :: q in rules && r in rules && q < r && Disturbs(db, scopes, q, r)
  }

  predicate Disturbs(db: Db, scopes: seq<int>, q: int, r: int) {
    && Quiet(db, scopes, r)
    && RowOf(PlaceOf(db, q)) == RowOf(PlaceOf(db, r))
    && Admitted(db, scopes, q, RowOf(PlaceOf(db, r)).value)
  }

  lemma {:induction false} DryRun(db: Db, scopes: seq<int>, rules: seq<int>, now: int)
    requires forall r :: r in rules ==> IsSingle(db, r)
    ensures SingleRules(db, scopes, rules, now, true).0 == db
    ensures SingleRules(db, scopes, rules, now, true).1.reconciled == Noisy(db, scopes, rules)
  {
    if rules != [] {
      assert rules[0] in rules && forall r :: r in rules[1..] ==> r in rules;
      DryCounts(db, scopes, rules[0], now);
      DryRun(db, scopes, rules[1..], now);
    }
  }

  /** After the head's step a later rule is quiet when it was quiet and the head did not disturb it. */
  lemma QuietAfterHead(a: Db, m: Db, scopes: seq<int>, h: int, r: int)
    requires IsSingle(a, h) && IsSingle(a, r) && h != r && ScopesListed(a, scopes)
    requires Beside(a, m, h) && Fate(a, m, scopes, h)
    ensures Quiet(m, scopes, r) <==> Quiet(a, scopes, r) && !Disturbs(a, scopes, h, r)
  {
    SamePlace(a, m, h, r);
    if PlaceOf(a, r).Here? {
      SameAdmitted(a, m, scopes, h, r, PlaceOf(a, r).t);
    }
  }

  lemma DisturbsAfterHead(a: Db, m: Db, scopes: seq<int>, h: int, q: int, r: int)
    requires IsSingle(a, h) && IsSingle(a, q) && IsSingle(a, r) && h != r && h != q && ScopesListed(a, scopes)
    requires Beside(a, m, h) && Fate(a, m, scopes, h)
    ensures Disturbs(m, scopes, q, r) <==> Disturbs(a, scopes, q, r) && !Disturbs(a, scopes, h, r)
  {
    SamePlace(a, m, h, r);
    SamePlace(a, m, h, q);
    QuietAfterHead(a, m, scopes, h, r);
    if PlaceOf(a, r).Here? {
      SameAdmitted(a, m, scopes, h, q, PlaceOf(a, r).t);
    }
  }

  lemma {:induction false} NoisyAfterHead(a: Db, m: Db, scopes: seq<int>, h: int, rules: seq<int>)
    requires (forall r :: r in rules ==> IsSingle(a, r) && h != r) && IsSingle(a, h) && ScopesListed(a, scopes)
    requires Beside(a, m, h) && Fate(a, m, scopes, h)
    ensures Noisy(a, scopes, rules) <= Noisy(m, scopes, rules)
    ensures Noisy(a, scopes, rules) == Noisy(m, scopes, rules) <==>
              forall r :: r in rules ==> !Disturbs(a, scopes, h, r)
  {
    if rules != [] {
      var first := rules[0];
      assert first in rules && forall r :: r in rules <==> r == first || r in rules[1..];
      QuietAfterHead(a, m, scopes, h, first);
      NoisyAfterHead(a, m, scopes, h, rules[1..]);
    }
  }

  lemma {:induction false} RealRun(a: Db, scopes: seq<int>, rules: seq<int>, now: int)
    requires Increasing(rules) && (forall r :: r in rules ==> IsSingle(a, r)) && ScopesListed(a, scopes)
    ensures Noisy(a, scopes, rules) <= SingleRules(a, scopes, rules, now, false).1.reconciled
    ensures Noisy(a, scopes, rules) == SingleRules(a, scopes, rules, now, false).1.reconciled <==>
            !Disturbed(a, scopes, rules)
    decreases |rules|
  {
    if rules != [] {
      var h, tail := rules[0], rules[1..];
      assert h in rules && forall x :: x in rules <==> x == h || x in tail;
      var m := SingleRule(a, scopes, h, now, false).0;
      SingleRuleFate(a, scopes, h, now);
      RealCounts(a, scopes, h, now);
      forall x | x in tail ensures IsSingle(m, x) && h < x {
        TailAbove(rules, x);
        SamePlace(a, m, h, x);
      }
      RealRun(m, scopes, tail, now);
      NoisyAfterHead(a, m, scopes, h, tail);
      DisturbedSplit(a, m, scopes, rules);
    }
  }

  lemma DisturbedSplit(a: Db, m: Db, scopes: seq<int>, rules: seq<int>)
    requires rules != [] && Increasing(rules) && (forall r :: r in rules ==> IsSingle(a, r)) && ScopesListed(a, scopes)
    requires Beside(a, m, rules[0]) && Fate(a, m, scopes, rules[0])
    ensures Disturbed(a, scopes, rules) <==> Disturbed(m, scopes, rules[1..])
                                             || exists r :: r in rules[1..] && Disturbs(a, scopes, rules[0], r)
  {
    var h, tail := rules[0], rules[1..];
    assert h in rules && forall x :: x in rules <==> x == h || x in tail;
    forall x | x in tail ensures h < x { TailAbove(rules, x); }
    forall q, r | q in tail && r in tail
      ensures Disturbs(m, scopes, q, r) <==> Disturbs(a, scopes, q, r) && !Disturbs(a, scopes, h, r)
    {
      DisturbsAfterHead(a, m, scopes, h, q, r);
    }
    if Disturbed(a, scopes, rules) {
      var q, r :| q in rules && r in rules && q < r && Disturbs(a, scopes, q, r);
      assert r in tail;
    }
    if r :| r in tail && Disturbs(a, scopes, h, r) {
      assert h in rules && r in rules && h < r;
    }
  }

  lemma {:induction false} SameRepairs(a: Db, b: Db, table: Table, ids: seq<int>, inbound: Option<int>)
    requires b.traffic == a.traffic && b.members == a.members
    ensures RepairCount(b, table, ids, inbound) == RepairCount(a, table, ids, inbound)
  {
    if ids != [] {
      if ids[0] in table {
        var p := table[ids[0]];
        assert b.RowsByEmail(p.email) == a.RowsByEmail(p.email);
      }
      SameRepairs(a, b, table, ids[1..], inbound);
    }
  }

  /**
   * The dry run changes nothing and reports the same rules checked and policies repaired; it reports the same rules
   * reconciled exactly when no quiet rule is disturbed by an earlier adoption on its row.
   */
  lemma DryRunIsFaithful(a: Db, inbound: Option<int>, now: int)
    requires now > 0
    ensures var dry, done := Reconcile(a, inbound, now, true), Reconcile(a, inbound, now, false);
            && dry.Ok? && done.Ok?
            && dry.value.0 == a
            && dry.value.1.checked == done.value.1.checked
            && dry.value.1.policiesRepaired == done.value.1.policiesRepaired
            && (dry.value.1.counts.reconciled == done.value.1.counts.reconciled
                <==> !Disturbed(a, ListPersistentScopes(a), ListSingles(a, inbound)))
  {
    ListedScopes(a);
    ListedSingles(a, inbound);
    DryRun(a, ListPersistentScopes(a), ListSingles(a, inbound), now);
    RealRun(a, ListPersistentScopes(a), ListSingles(a, inbound), now);
    RulesOutcome(a, inbound, now);
    var b := Rules(a, inbound, now, false).0;
    SameRepairs(a, b, a.excludes, ListActive(a.excludes), inbound);
    SameRepairs(a, b, a.overrides, ListActive(a.overrides), inbound);
  }

  /** Rules that resolve to different rows never disturb each other. */
  lemma ApartNotDisturbed(a: Db, scopes: seq<int>, rules: seq<int>)
    requires forall q, r :: q in rules && r in rules && q < r && RowOf(PlaceOf(a, r)).Some? ==>
                            RowOf(PlaceOf(a, q)) != RowOf(PlaceOf(a, r))
    ensures !Disturbed(a, scopes, rules)
  {
  }

  // What the real run keeps -----------------------------------------------

  lemma PlacedDescends(a: Db, r: int, now: int)
    requires RowOf(PlaceOf(a, r)).Some?
    ensures Descends(a, Placed(a, r, PlaceOf(a, r), now))
  {
    SoleClient(a, r);
    PlacedFacts(a, r, now);
    var b, t := Placed(a, r, PlaceOf(a, r), now), RowOf(PlaceOf(a, r)).value;
    forall k | Live(b, k) && k.traffic in b.traffic ensures AtCounters(b, k) || Inherits(a, b, k) {
      if k.rule == r {
        assert k == Key(r, t);
        if PlaceOf(a, r).Here? && !MissingHere(a, r, t) {
          assert Live(a, Key(r, t)) && SameAccount(a.clients[k], b.clients[k]);
        }
      } else {
        assert Live(a, Key(k.rule, k.traffic));
      }
    }
  }

  lemma JoinDescends(a: Db, s: int, r: int, t: int, now: int)
    requires s in a.scopes && s != r && a.Active(s) && Live(a, Key(r, t))
    ensures Descends(a, JoinScope(a, s, r, t, now))
  {
    JoinFacts(a, s, r, t, now);
    var b := JoinScope(a, s, r, t, now);
    forall k | Live(b, k) && k.traffic in b.traffic ensures Inherits(a, b, k) {
      if k == Key(s, t) && k !in a.clients {
        assert Live(a, Key(r, k.traffic)) && SameAccount(a.clients[Key(r, t)], b.clients[k]);
      } else {
        assert k.rule != r && Live(a, Key(k.rule, k.traffic));
      }
    }
  }

  lemma OrphanDescends(a: Db, r: int, now: int)
    requires r in a.rules
    ensures Descends(a, Orphan(a, r, now))
  {
    OrphanFacts(a, r, now);
    FewerLiveDescends(a, Orphan(a, r, now));
  }

  lemma ConcludeDescends(a: Db, p: Db, scopes: seq<int>, r: int, t: int, repaired: bool, now: int)
    requires IsSingle(a, r) && ScopesListed(a, scopes) && Descends(a, p) && PutInPlace(a, p, r, t)
    ensures Descends(a, Conclude(p, scopes, r, t, repaired, now, false).0)
  {
    CompatibleFacts(p, scopes, r, t);
    match VerdictOn(p, scopes, r, t) {
      case Join(s) =>
        JoinDescends(p, s, r, t, now);
        DescendsTransitive(a, p, JoinScope(p, s, r, t, now));
      case Stay =>
      case _ =>
        OrphanDescends(p, r, now);
        DescendsTransitive(a, p, Orphan(p, r, now));
    }
  }

  lemma NoteThenOrphan(a: Db, r: int, t: int, now: int)
    requires IsSingle(a, r)
    ensures Descends(a, Orphan(NoteMissing(a, Key(r, t), now), r, now))
  {
    var m := NoteMissing(a, Key(r, t), now);
    NoteMissingFacts(a, Key(r, t), now);
    OrphanFacts(m, r, now);
    FewerLiveDescends(a, Orphan(m, r, now));
  }

  lemma SingleRuleDescends(a: Db, scopes: seq<int>, r: int, now: int)
    requires IsSingle(a, r) && ScopesListed(a, scopes)
    ensures Descends(a, SingleRule(a, scopes, r, now, false).0)
  {
    match PlaceOf(a, r) {
      case NoClient => OrphanDescends(a, r, now);
      case ManyClients => OrphanDescends(a, r, now);
      case Gone(t) => NoteThenOrphan(a, r, t, now);
      case Renamed(t) => NoteThenOrphan(a, r, t, now);
      case Follow(t, row) =>
        SoleClient(a, r);
        PlacedDescends(a, r, now);
        PlacedFacts(a, r, now);
        ConcludeDescends(a, Placed(a, r, PlaceOf(a, r), now), scopes, r, row, true, now);
      case Here(t) =>
        SoleClient(a, r);
        PlacedDescends(a, r, now);
        PlacedFacts(a, r, now);
        ConcludeDescends(a, Placed(a, r, PlaceOf(a, r), now), scopes, r, t, MissingHere(a, r, t), now);
    }
  }

  lemma SingleRuleValid(a: Db, scopes: seq<int>, r: int, now: int)
    requires Valid(a) && IsSingle(a, r) && ScopesListed(a, scopes)
    ensures Valid(SingleRule(a, scopes, r, now, false).0)
  {
    var b := SingleRule(a, scopes, r, now, false).0;
    SingleRuleFate(a, scopes, r, now);
    forall j, k | j in b.clients && k in b.clients && j.rule == k.rule && j.rule !in b.scopes ensures j == k {
      if j.rule == r && RowOf(PlaceOf(a, r)).Some? {
        assert j.traffic == RowOf(PlaceOf(a, r)).value == k.traffic;
      } else {
        assert j in a.clients && k in a.clients;
      }
    }
    forall k | k in b.clients ensures k.rule in b.rules {
      if k.rule != r && k !in a.clients { assert k.rule in a.scopes; }
    }
  }

  lemma {:induction false} SingleRulesKeep(a: Db, scopes: seq<int>, rules: seq<int>, now: int)
    requires Increasing(rules) && (forall r :: r in rules ==> IsSingle(a, r)) && ScopesListed(a, scopes)
    ensures var b := SingleRules(a, scopes, rules, now, false).0;
            Descends(a, b) && (Valid(a) ==> Valid(b))
    decreases |rules|
  {
    if rules == [] {
      DescendsReflexive(a);
    } else {
      var h, tail := rules[0], rules[1..];
      assert h in rules && forall x :: x in rules <==> x == h || x in tail;
      var m := SingleRule(a, scopes, h, now, false).0;
      SingleRuleFate(a, scopes, h, now);
      SingleRuleDescends(a, scopes, h, now);
      if Valid(a) { SingleRuleValid(a, scopes, h, now); }
      forall x | x in tail ensures IsSingle(m, x) {
        TailAbove(rules, x);
        SamePlace(a, m, h, x);
      }
      SingleRulesKeep(m, scopes, tail, now);
      DescendsTransitive(a, m, SingleRules(m, scopes, tail, now, false).0);
    }
  }

  lemma SamePoliciesKept(b: Db, c: Db)
    requires c == b.(excludes := c.excludes, overrides := c.overrides)
    requires c.excludes.Keys == b.excludes.Keys && c.overrides.Keys == b.overrides.Keys
    ensures Descends(b, c) && (Valid(b) ==> Valid(c)) && (OneOwner(b) ==> OneOwner(c))
  {
    FewerLiveDescends(b, c);
    if OneOwner(b) {
      forall x, y, t | c.Owns(x, t) && c.Owns(y, t) ensures x == y {
        assert b.Owns(x, t) && b.Owns(y, t);
      }
    }
  }

  /**
   * Reconcile changes no counter, keeps the tables valid, and leaves every live client at its counters or on an
   * account that was live before.
   */
  lemma ReconcileKeeps(a: Db, inbound: Option<int>, now: int)
    requires now > 0
    ensures var c := Reconcile(a, inbound, now, false).value.0;
            && Descends(a, c) && (Valid(a) ==> Valid(c))
            && c.members == a.members && c.scopes == a.scopes && c.rules.Keys == a.rules.Keys
                && c.nextRule == a.nextRule
            && c.nextExclude == a.nextExclude && c.nextOverride == a.nextOverride
            && (OneOwner(Rules(a, inbound, now, false).0) ==> OneOwner(c))
  {
    ListedScopes(a);
    ListedSingles(a, inbound);
    var b := Rules(a, inbound, now, false).0;
    RulesOutcome(a, inbound, now);
    SingleRulesKeep(a, ListPersistentScopes(a), ListSingles(a, inbound), now);
    FollowAllKeepsEmails(b, b.excludes, b.excludes, ListActive(b.excludes), inbound, now);
    FollowAllKeepsEmails(b, b.overrides, b.overrides, ListActive(b.overrides), inbound, now);
    SamePoliciesKept(b, Policies(b, inbound, now, false));
    DescendsTransitive(a, b, Policies(b, inbound, now, false));
  }
}
