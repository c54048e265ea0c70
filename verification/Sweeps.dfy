/** What a cleanup keeps, by the fields of the tables and the options given. */
module Sweeps {
  import opened Collections
  import opened Model
  import P = PolicyTable
  import Cl = Cleanup

  /** The time since which a row has been out of use: when it was disabled, or else when it was last changed. */
  predicate OutSince(disabledAt: Option<int>, updatedAt: int, limit: int) {
    (disabledAt.Some? && disabledAt.value <= limit) || (disabledAt.None? && updatedAt <= limit)
  }

  /** The rule was disabled, merged or orphaned, and has been so for the retention time. */
  predicate RuleOver(db: Db, r: int, o: Cl.Options) {
    && r in db.rules
    && (db.rules[r].state == Disabled || db.rules[r].state == Merged || db.rules[r].state == Orphaned)
    && OutSince(db.rules[r].disabledAt, db.rules[r].updatedAt, o.now - o.retention)
  }

  predicate PolicyOver(table: P.Table, id: int, o: Cl.Options) {
    id in table && table[id].state != Active && OutSince(table[id].disabledAt, table[id].updatedAt, o.now - o.retention)
  }

  /** The client has been marked missing for the grace time. */
  predicate ClientOver(db: Db, k: Key, o: Cl.Options) {
    k in db.clients && db.clients[k].missingAt.Some? && db.clients[k].missingAt.value <= o.now - o.missingGrace
  }

  /**
   * The client as it is kept: marked missing now if its row is gone or has another email and it was not marked
   * before.
   */
  predicate KeptAs(db: Db, k: Key, rc: RuleClient, now: int)
    requires k in db.clients
  {
    rc == if db.clients[k].missingAt.None?
        && (k.traffic !in db.traffic || db.traffic[k.traffic].email != db.clients[k].email)
          then db.clients[k].(missingAt := Some(now)) else db.clients[k]
  }

  ghost predicate PoliciesKept(table: P.Table, after: P.Table, o: Cl.Options) {
    && (forall id :: id in after <==> id in table && !PolicyOver(table, id, o))
    && (forall id :: id in after ==> after[id] == table[id])
  }

  /** What a cleanup leaves. */
  ghost predicate Swept(a: Db, b: Db, o: Cl.Options) {
    && b.traffic == a.traffic && b.members == a.members
    && (forall r :: r in b.rules <==> r in a.rules && !RuleOver(a, r, o))
        && (forall r :: r in b.rules ==> b.rules[r] == a.rules[r])
    && (forall s :: s in b.scopes <==> s in a.scopes && !RuleOver(a, s, o))
        && (forall s :: s in b.scopes ==> b.scopes[s] == a.scopes[s])
    && (forall k :: k in b.clients <==> k in a.clients && !ClientOver(a, k, o) && !RuleOver(a, k.rule, o))
    && (forall k :: k in b.clients ==> KeptAs(a, k, b.clients[k], o.now))
    && PoliciesKept(a.excludes, b.excludes, o) && PoliciesKept(a.overrides, b.overrides, o)
  }

  lemma CleanedSwept(a: Db, b: Db, o: Cl.Options)
    requires Cl.CleanedOf(a, b, Cl.CutoffsOf(o).missing, Cl.CutoffsOf(o).retention, o.now)
    ensures Swept(a, b, o)
  {
    var c := Cl.CutoffsOf(o);
    forall r ensures RuleOver(a, r, o) == Cl.EndedBy(a, r, c.retention) {}
    forall k ensures ClientOver(a, k, o) == Cl.MissingBy(a, k, c.missing) {}
    SamePolicies(a, b, o);
  }

  /**
   * A cleanup is refused exactly for times that are not positive. It keeps every rule, scope, client and policy but
   * those that are over for their time, and the clients of the rules removed; what it keeps is as it was, but for
   * missing marks.
   */
  lemma CleanExactly(a: Db, o: Cl.Options)
    ensures Cl.Clean(a, o, false).Ok? <==> o.now > 0 && o.missingGrace > 0 && o.retention > 0 && o.auditRetention > 0
    ensures Cl.Clean(a, o, false).Err? ==> Cl.Clean(a, o, false).error == BadInput
    ensures Cl.Clean(a, o, false).Ok? ==> Swept(a, Cl.Clean(a, o, false).value.0, o)
    ensures Cl.Clean(a, o, false).Ok? ==>
              forall e :: e in a.events ==>
                          (e in Cl.Clean(a, o, false).value.0.events <==> e.at > o.now - o.auditRetention)
  {
    if Cl.Positive(o) {
      var c := Cl.CutoffsOf(o);
      var b := Cl.Stages(a, c, o.now, false).0;
      Cl.CleanupKeepsTheRest(a, c, o.now);
      CleanedSwept(a, b, o);
      forall e | e in a.events
        ensures e in b.events <==> e.at > o.now - o.auditRetention
      {
        Cl.EventsByAge(a, c, o.now, e);
      }
    }
  }

  lemma SamePolicies(a: Db, b: Db, o: Cl.Options)
    requires Cl.CleanedOf(a, b, Cl.CutoffsOf(o).missing, Cl.CutoffsOf(o).retention, o.now)
    ensures PoliciesKept(a.excludes, b.excludes, o) && PoliciesKept(a.overrides, b.overrides, o)
  {
    var limit := Cl.CutoffsOf(o).retention;
    forall id ensures PolicyOver(a.excludes, id, o) == Cl.InactiveBy(a.excludes, id, limit) {}
    forall id ensures PolicyOver(a.overrides, id, o) == Cl.InactiveBy(a.overrides, id, limit) {}
  }

  // Counts --------------------------------------------------------------------

  lemma {:induction false} ListingSize<T>(xs: seq<T>, s: set<T>)
    requires Distinct(xs) && forall x :: x in xs <==> x in s
    ensures |xs| == |s|
  {
    if xs == [] {
      assert s == {};
    } else {
      var x, rest := xs[0], xs[1..];
      assert x in xs && forall y :: y in xs <==> y == x || y in rest;
      assert x !in rest;
      ListingSize(rest, s - {x});
    }
  }

  lemma {:induction false} ScopesCounted(db: Db, rs: seq<int>)
    requires Distinct(rs)
    ensures Cl.CountScopes(db, rs) == |set r | r in rs && r in db.scopes|
  {
    var all := set r | r in rs && r in db.scopes;
    if rs == [] {
      assert all == {};
    } else {
      var rest := set r | r in rs[1..] && r in db.scopes;
      assert rs[0] in rs && rs[0] !in rs[1..] && forall r :: r in rs <==> r == rs[0] || r in rs[1..];
      ScopesCounted(db, rs[1..]);
      assert all == if rs[0] in db.scopes then rest + {rs[0]} else rest;
    }
  }

  lemma {:induction false} OldCounted(events: seq<Event>, limit: int)
    ensures Cl.OldEvents(events, limit) == |OldPlaces(events, limit)|
  {
    var all := OldPlaces(events, limit);
    if events == [] {
      assert all == {};
    } else {
      var n := |events| - 1;
      var init, last := events[..n], [events[n]];
      assert events == init + last;
      OldCounted(init, limit);
      OldConcat(init, last, limit);
      var early := OldPlaces(init, limit);
      assert all == if events[n].at <= limit then early + {n} else early;
    }
  }

  lemma {:induction false} OldConcat(xs: seq<Event>, ys: seq<Event>, limit: int)
    ensures Cl.OldEvents(xs + ys, limit) == Cl.OldEvents(xs, limit) + Cl.OldEvents(ys, limit)
  {
    if xs == [] {
      assert xs + ys == ys;
    } else {
      assert (xs + ys)[1..] == xs[1..] + ys;
      OldConcat(xs[1..], ys, limit);
    }
  }

  predicate Astray(db: Db, k: Key) {
    && k in db.clients && db.clients[k].missingAt.None?
    && (k.traffic !in db.traffic || db.traffic[k.traffic].email != db.clients[k].email)
  }

  function AstrayKeys(a: Db): set<Key> {
    set k | k in a.clients && Astray(a, k)
  }

  function ClientsOver(a: Db, o: Cl.Options): set<Key> {
    set k | k in a.clients && ClientOver(a, k, o)
  }

  function RulesOver(a: Db, o: Cl.Options): set<int> {
    set r | r in a.rules && RuleOver(a, r, o)
  }

  function PoliciesOver(table: P.Table, o: Cl.Options): set<int> {
    set id | id in table && PolicyOver(table, id, o)
  }

  function OldPlaces(events: seq<Event>, limit: int): set<int> {
    set i | 0 <= i < |events| && events[i].at <= limit
  }

  lemma SelectionsSized(a: Db, o: Cl.Options)
    ensures var c := Cl.CutoffsOf(o);
            && |Cl.ListKeys(Cl.MismatchedKeys(a))| == |AstrayKeys(a)|
            && |Cl.ListKeys(Cl.MissingKeys(a, c.missing))| == |ClientsOver(a, o)|
  {
    var c := Cl.CutoffsOf(o);
    Cl.ListKeysLists(Cl.MismatchedKeys(a));
    Cl.ListKeysLists(Cl.MissingKeys(a, c.missing));
    ListingSize(Cl.ListKeys(Cl.MismatchedKeys(a)), AstrayKeys(a));
    ListingSize(Cl.ListKeys(Cl.MissingKeys(a, c.missing)), ClientsOver(a, o));
  }

  lemma RulesSized(a: Db, o: Cl.Options)
    ensures var rs, over := Ascending(Cl.EndedRules(a, Cl.CutoffsOf(o).retention)), RulesOver(a, o);
            |rs| == |over| && Cl.CountScopes(a, rs) == |over * a.scopes.Keys|
  {
    var ids := Cl.EndedRules(a, Cl.CutoffsOf(o).retention);
    var rs := Ascending(ids);
    forall r ensures r in ids <==> r in RulesOver(a, o) {}
    assert ids == RulesOver(a, o);
    assert Distinct(rs);
    ScopesCounted(a, rs);
    assert (set r | r in rs && r in a.scopes) == RulesOver(a, o) * a.scopes.Keys;
  }

  lemma PoliciesSized(table: P.Table, o: Cl.Options)
    ensures |Ascending(Cl.InactiveIds(table, Cl.CutoffsOf(o).retention))| == |PoliciesOver(table, o)|
  {
    var ids := Cl.InactiveIds(table, Cl.CutoffsOf(o).retention);
    forall id ensures id in ids <==> id in PoliciesOver(table, o) {}
    assert ids == PoliciesOver(table, o);
  }

  ghost predicate TellsClients(counts: Cl.Counts, a: Db, o: Cl.Options) {
    counts.marked == |AstrayKeys(a)| && counts.clients == |ClientsOver(a, o)|
  }

  /** Scopes are counted apart from other rules. */
  ghost predicate TellsRules(counts: Cl.Counts, a: Db, o: Cl.Options) {
    counts.rules + counts.scopes == |RulesOver(a, o)| && counts.scopes == |RulesOver(a, o) * a.scopes.Keys|
  }

  ghost predicate TellsPolicies(counts: Cl.Counts, a: Db, o: Cl.Options) {
    counts.excludes == |PoliciesOver(a.excludes, o)| && counts.overrides == |PoliciesOver(a.overrides, o)|
  }

  /** These are the numbers of clients to be marked, and of rows of each kind that are over. */
  ghost predicate Tells(counts: Cl.Counts, a: Db, o: Cl.Options) {
    && TellsClients(counts, a, o) && TellsRules(counts, a, o) && TellsPolicies(counts, a, o)
    && counts.events == |OldPlaces(a.events, o.now - o.auditRetention)|
  }

  ghost predicate ListsClients(counts: Cl.Counts, a: Db, c: Cl.Cutoffs) {
    counts.marked == |Cl.ListKeys(Cl.MismatchedKeys(a))|
        && counts.clients == |Cl.ListKeys(Cl.MissingKeys(a, c.missing))|
  }

  ghost predicate ListsRules(counts: Cl.Counts, a: Db, c: Cl.Cutoffs) {
    var rs := Ascending(Cl.EndedRules(a, c.retention));
    counts.rules + counts.scopes == |rs| && counts.scopes == Cl.CountScopes(a, rs)
  }

  ghost predicate ListsPolicies(counts: Cl.Counts, a: Db, c: Cl.Cutoffs) {
    && counts.excludes == |Ascending(Cl.InactiveIds(a.excludes, c.retention))|
    && counts.overrides == |Ascending(Cl.InactiveIds(a.overrides, c.retention))|
  }

  /** The counts are the lengths of the listings that the stages go through. */
  ghost predicate Lists(counts: Cl.Counts, a: Db, c: Cl.Cutoffs) {
    ListsClients(counts, a, c) && ListsRules(counts, a, c) && ListsPolicies(counts, a, c)
        && counts.events == Cl.OldEvents(a.events, c.audit)
  }

  lemma ClientsTell(counts: Cl.Counts, a: Db, o: Cl.Options)
    requires ListsClients(counts, a, Cl.CutoffsOf(o))
    ensures TellsClients(counts, a, o)
  {
    SelectionsSized(a, o);
  }

  lemma RulesTell(counts: Cl.Counts, a: Db, o: Cl.Options)
    requires ListsRules(counts, a, Cl.CutoffsOf(o))
    ensures TellsRules(counts, a, o)
  {
    RulesSized(a, o);
  }

  lemma PoliciesTell(counts: Cl.Counts, a: Db, o: Cl.Options)
    requires ListsPolicies(counts, a, Cl.CutoffsOf(o))
    ensures TellsPolicies(counts, a, o)
  {
    PoliciesSized(a.excludes, o);
    PoliciesSized(a.overrides, o);
  }

  lemma DryCounts(a: Db, c: Cl.Cutoffs, now: int)
    ensures Lists(Cl.Stages(a, c, now, true).1, a, c)
  {
  }

  lemma ListsTell(counts: Cl.Counts, a: Db, o: Cl.Options)
    requires Lists(counts, a, Cl.CutoffsOf(o))
    ensures Tells(counts, a, o)
  {
    ClientsTell(counts, a, o);
    RulesTell(counts, a, o);
    PoliciesTell(counts, a, o);
    OldCounted(a.events, o.now - o.auditRetention);
  }

  /** The counts of a cleanup, real or dry, are the numbers of rows that it marks and removes. */
  lemma CountsExactly(a: Db, o: Cl.Options, dryRun: bool)
    requires Cl.Clean(a, o, dryRun).Ok?
    ensures Tells(Cl.Clean(a, o, dryRun).value.1, a, o)
  {
    Cl.CleanupDryRunTellsTheTruth(a, o);
    DryCounts(a, Cl.CutoffsOf(o), o.now);
    ListsTell(Cl.Stages(a, Cl.CutoffsOf(o), o.now, true).1, a, o);
  }
}
