/** What a reconcile makes of each policy row, filtered or not, where every email has at most one row. */
module Repairs {
  import opened Collections
  import opened Model
  import opened PolicyTable
  import opened Reconciling
  import opened ReconcileProofs
  import opened ReconcileTheorems
  import ReconcilePreview

  /** The client that a policy row names lives on row t, within the filter. */
  predicate LivesOn(db: Db, p: Policy, inbound: Option<int>, t: int) {
    && t in db.traffic && db.traffic[t].email == p.email
    && (inbound.Some? ==> (p.email, inbound.value) in db.members)
  }

  /** An active row whose client lives elsewhere than recorded is moved there; every other row is as it was. */
  ghost predicate RepairedAs(db: Db, p: Policy, q: Policy, inbound: Option<int>, now: int) {
    && (forall t :: p.state == Active && LivesOn(db, p, inbound, t) ==>
          q == if p.trafficId == t && p.inboundId == db.traffic[t].inboundId then p
               else p.(trafficId := t, inboundId := db.traffic[t].inboundId, updatedAt := now))
    && (!(p.state == Active && exists t :: LivesOn(db, p, inbound, t)) ==> q == p)
  }

  lemma FollowedAs(db: Db, table: Table, id: int, p: Policy, inbound: Option<int>, now: int)
    requires EmailsUnique(db) && id in table && table[id] == p && p.state == Active
    requires forall x :: x in table && table[x].email == p.email ==> x == id
    ensures var after := FollowOne(db, table, id, p, inbound, now);
            && after.Keys == table.Keys && (forall x :: x in table && x != id ==> after[x] == table[x])
            && RepairedAs(db, p, after[id], inbound, now)
  {
    ResolveUnique(db, p);
    if Stale(db, p, inbound) {
      var t := Resolve(db, p).value;
      OccupantHolds(table, t, db.traffic[t].inboundId, p.email, id);
    }
    forall t | LivesOn(db, p, inbound, t) ensures Resolve(db, p) == Some(t) {}
  }

  lemma {:induction false} FollowAllAs(db: Db, table: Table, listed: Table, ids: seq<int>, inbound: Option<int>,
      now: int)
    requires EmailsUnique(db) && OneRowPerEmail(listed) && Distinct(ids) && table.Keys == listed.Keys
    requires forall x :: x in table ==> table[x].email == listed[x].email
    requires forall id :: id in ids ==> id in listed && listed[id].state == Active && table[id] == listed[id]
    ensures var after := FollowAll(db, table, listed, ids, inbound, now);
            && after.Keys == table.Keys
            && (forall id :: id in ids ==> RepairedAs(db, listed[id], after[id], inbound, now))
            && (forall x :: x in table && x !in ids ==> after[x] == table[x])
    decreases |ids|
  {
    if ids != [] {
      var id := ids[0];
      assert id in ids && id !in ids[1..] && forall x :: x in ids <==> x == id || x in ids[1..];
      FollowedAs(db, table, id, listed[id], inbound, now);
      FollowKeepsEmails(db, table, listed, id, inbound, now);
      FollowAllAs(db, FollowOne(db, table, id, listed[id], inbound, now), listed, ids[1..], inbound, now);
    }
  }

  lemma TableRepaired(db: Db, table: Table, inbound: Option<int>, now: int, id: int)
    requires EmailsUnique(db) && OneRowPerEmail(table) && id in table
    ensures var after := FollowAll(db, table, table, ListActive(table), inbound, now);
            after.Keys == table.Keys && RepairedAs(db, table[id], after[id], inbound, now)
  {
    ListActiveLists(table);
    FollowAllAs(db, table, table, ListActive(table), inbound, now);
    assert id in ListActive(table) <==> id in ActiveIds(table);
  }

  /**
   * A reconcile moves exactly the active policy rows whose client lives, within its filter, elsewhere than recorded.
   */
  lemma PoliciesRepaired(a: Db, inbound: Option<int>, now: int)
    requires now > 0 && EmailsUnique(a) && OneRowPerEmail(a.excludes) && OneRowPerEmail(a.overrides)
    ensures var b := Reconcile(a, inbound, now, false).value.0;
            && b.excludes.Keys == a.excludes.Keys && b.overrides.Keys == a.overrides.Keys
            && (forall id :: id in a.excludes ==> RepairedAs(a, a.excludes[id], b.excludes[id], inbound, now))
            && (forall id :: id in a.overrides ==> RepairedAs(a, a.overrides[id], b.overrides[id], inbound, now))
  {
    var m := Rules(a, inbound, now, false).0;
    RulesOutcome(a, inbound, now);
    FollowAllKeepsEmails(m, m.excludes, m.excludes, ListActive(m.excludes), inbound, now);
    FollowAllKeepsEmails(m, m.overrides, m.overrides, ListActive(m.overrides), inbound, now);
    var b := Reconcile(a, inbound, now, false).value.0;
    forall id | id in a.excludes ensures RepairedAs(a, a.excludes[id], b.excludes[id], inbound, now) {
      TableRepaired(m, a.excludes, inbound, now, id);
      SameRepair(a, m, a.excludes[id], b.excludes[id], inbound, now);
    }
    forall id | id in a.overrides ensures RepairedAs(a, a.overrides[id], b.overrides[id], inbound, now) {
      TableRepaired(m, a.overrides, inbound, now, id);
      SameRepair(a, m, a.overrides[id], b.overrides[id], inbound, now);
    }
  }

  lemma SameRepair(a: Db, m: Db, p: Policy, q: Policy, inbound: Option<int>, now: int)
    requires m.traffic == a.traffic && m.members == a.members && RepairedAs(m, p, q, inbound, now)
    ensures RepairedAs(a, p, q, inbound, now)
  {
    assert forall t :: LivesOn(m, p, inbound, t) == LivesOn(a, p, inbound, t);
  }

  // Counts --------------------------------------------------------------------

  /** An active row whose client lives, within the filter, elsewhere than recorded. */
  ghost predicate Misplaced(db: Db, p: Policy, inbound: Option<int>) {
    p.state == Active && exists t :: LivesOn(db, p, inbound, t)
                                     && !(p.trafficId == t && p.inboundId == db.traffic[t].inboundId)
  }

  /** The misplaced rows of a table. */
  ghost function MisplacedIn(db: Db, table: Table, inbound: Option<int>): set<int> {
    set id | id in table && Misplaced(db, table[id], inbound)
  }

  ghost function MisplacedOf(db: Db, table: Table, ids: seq<int>, inbound: Option<int>): set<int> {
    set id | id in ids && id in table && Misplaced(db, table[id], inbound)
  }

  lemma StaleIsMisplaced(db: Db, p: Policy, inbound: Option<int>)
    requires EmailsUnique(db) && p.state == Active
    ensures Stale(db, p, inbound) <==> Misplaced(db, p, inbound)
  {
    ResolveUnique(db, p);
    if Stale(db, p, inbound) { assert LivesOn(db, p, inbound, Resolve(db, p).value); }
  }

  lemma {:induction false} RepairsCounted(db: Db, table: Table, ids: seq<int>, inbound: Option<int>)
    requires EmailsUnique(db) && Distinct(ids) && forall id :: id in ids ==> id in table && table[id].state == Active
    ensures RepairCount(db, table, ids, inbound) == |MisplacedOf(db, table, ids, inbound)|
  {
    var all := MisplacedOf(db, table, ids, inbound);
    if ids == [] {
      assert all == {};
    } else {
      var id, rest := ids[0], MisplacedOf(db, table, ids[1..], inbound);
      assert id in ids && id !in ids[1..] && forall x :: x in ids <==> x == id || x in ids[1..];
      RepairsCounted(db, table, ids[1..], inbound);
      StaleIsMisplaced(db, table[id], inbound);
      if Misplaced(db, table[id], inbound) { assert all == rest + {id}; } else { assert all == rest; }
    }
  }

  lemma TableCounted(db: Db, table: Table, inbound: Option<int>)
    requires EmailsUnique(db)
    ensures RepairCount(db, table, ListActive(table), inbound) == |MisplacedIn(db, table, inbound)|
  {
    var ids := ListActive(table);
    ListActiveLists(table);
    RepairsCounted(db, table, ids, inbound);
    forall id ensures id in MisplacedOf(db, table, ids, inbound) <==> id in MisplacedIn(db, table, inbound) {
      assert id in ids <==> id in ActiveIds(table);
    }
    assert MisplacedOf(db, table, ids, inbound) == MisplacedIn(db, table, inbound);
  }

  lemma SameMisplaced(a: Db, m: Db, table: Table, inbound: Option<int>)
    requires m.traffic == a.traffic && m.members == a.members
    ensures MisplacedIn(m, table, inbound) == MisplacedIn(a, table, inbound)
  {
    forall p, t ensures LivesOn(m, p, inbound, t) == LivesOn(a, p, inbound, t) {}
    forall p ensures Misplaced(m, p, inbound) == Misplaced(a, p, inbound) {}
  }

  /** A reconcile, real or dry, reports as repaired exactly the policies that are misplaced. */
  lemma RepairsReported(a: Db, inbound: Option<int>, now: int, dryRun: bool)
    requires now > 0 && EmailsUnique(a)
    ensures Reconcile(a, inbound, now, dryRun).value.1.policiesRepaired
            == |MisplacedIn(a, a.excludes, inbound)|
               + |MisplacedIn(a, a.overrides, inbound)|
  {
    var m := Rules(a, inbound, now, dryRun).0;
    if dryRun {
      ListedSingles(a, inbound);
      ReconcilePreview.DryRun(a, ListPersistentScopes(a), ListSingles(a, inbound), now);
    } else {
      RulesOutcome(a, inbound, now);
    }
    TableCounted(m, a.excludes, inbound);
    TableCounted(m, a.overrides, inbound);
    SameMisplaced(a, m, a.excludes, inbound);
    SameMisplaced(a, m, a.overrides, inbound);
  }
}
