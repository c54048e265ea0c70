/** What enable-all does, told from its arguments and the tables before it. */
module Enabling {
  import opened Collections
  import opened Model
  import opened Factor
  import opened PolicyTable
  import opened Baselines
  import opened Reconciling
  import opened ReconcileProofs
  import opened ReconcileTheorems
  import opened Ticking
  import opened Commands
  import opened BulkProofs
  import opened Enrolment
  import opened BulkEffects

  /** The active scope has this factor and this filter, and takes new clients. */
  predicate Suits(db: Db, s: int, bulk: Bulk, factorPpm: int64) {
    && s in db.rules && db.rules[s].state == Active && db.rules[s].factorPpm == factorPpm
    && s in db.scopes && db.scopes[s].inboundId == bulk.inbound && db.scopes[s].limitedOnly == bulk.limitedOnly
    && db.scopes[s].includeDisabled == bulk.includeDisabled && !db.scopes[s].once
  }

  /** The first scope that suits, or else the id of the next rule. */
  ghost predicate Chosen(db: Db, s: int, bulk: Bulk, factorPpm: int64) {
    if exists z :: Suits(db, z, bulk, factorPpm)
    then Suits(db, s, bulk, factorPpm) && forall z :: Suits(db, z, bulk, factorPpm) ==> s <= z
    else s == db.nextRule
  }

  /** The panel's client on the row passes the filter that enable-all is given. */
  predicate Matching(db: Db, bulk: Bulk, t: int) {
    Passes(db, t, bulk.inbound, bulk.limitedOnly, bulk.includeDisabled)
  }

  lemma SomeChosen(db: Db, bulk: Bulk, factorPpm: int64)
    ensures exists s :: Chosen(db, s, bulk, factorPpm)
  {
    var ss := set z | z in db.scopes && Suits(db, z, bulk, factorPpm);
    if z :| Suits(db, z, bulk, factorPpm) {
      assert z in ss;
      assert forall x :: Suits(db, x, bulk, factorPpm) ==> x in ss;
      assert Chosen(db, Min(ss), bulk, factorPpm);
    } else {
      assert Chosen(db, db.nextRule, bulk, factorPpm);
    }
  }

  lemma ScopeFound(db: Db, bulk: Bulk, factorPpm: int64, s: int)
    requires Chosen(db, s, bulk, factorPpm)
    ensures match FindScope(db, bulk, factorPpm)
            case Some(found) => found == s && Suits(db, s, bulk, factorPpm)
            case None => s == db.nextRule
  {
    var ss := set z | z in db.scopes && SameScope(db, z, bulk, factorPpm);
    forall z ensures z in ss <==> Suits(db, z, bulk, factorPpm) {}
    if ss != {} { assert Min(ss) in ss; }
    if z :| Suits(db, z, bulk, factorPpm) { assert z in ss; }
  }

  /** The same tables but for one rule that is new. */
  ghost predicate Widened(a: Db, m: Db, s: int) {
    && m.clients == a.clients && m.traffic == a.traffic && m.members == a.members
    && (forall x :: x != s ==> (x in m.rules <==> x in a.rules) && (x in m.scopes <==> x in a.scopes))
    && (forall x :: x != s && x in a.rules ==> m.rules[x] == a.rules[x])
    && forall k :: k in a.clients ==> k.rule != s
  }

  lemma CreatedSuits(a: Db, bulk: Bulk, once: bool, factorPpm: int64, now: int)
    requires Valid(a)
    ensures var m, s := CreateScope(a, bulk, once, factorPpm, now), a.nextRule;
            && Widened(a, m, s) && m.Active(s) && m.rules[s] == ScopeRule(a, s, bulk, factorPpm, now)
            && s in m.scopes && m.scopes[s] == Scope(bulk.inbound, bulk.limitedOnly, bulk.includeDisabled, once)
            && (!once ==> Suits(m, s, bulk, factorPpm)) && s !in a.rules
  {
  }

  lemma WidenedTakers(a: Db, m: Db, s: int, t: int)
    requires Widened(a, m, s)
    ensures Untaken(m, t) == Untaken(a, t) && TakenTwice(m, t) == TakenTwice(a, t)
    ensures forall r :: SoleTaker(m, r, t) == SoleTaker(a, r, t)
    ensures forall r, factorPpm :: AdoptableAt(m, factorPpm, r, t) == AdoptableAt(a, factorPpm, r, t)
  {
    forall r ensures Takes(m, r, t) == Takes(a, r, t) {}
    forall k | k in a.clients ensures Takes(m, k.rule, t) == Takes(a, k.rule, t) {}
    forall r ensures SoleTaker(m, r, t) == SoleTaker(a, r, t) {}
    forall r, factorPpm ensures AdoptableAt(m, factorPpm, r, t) == AdoptableAt(a, factorPpm, r, t) {}
  }

  /** The rule of the scope: as it was, or new, on the inbound of the filter if there is one. */
  function ScopeRule(a: Db, s: int, bulk: Bulk, factorPpm: int64, now: int): Rule {
    if s in a.rules then a.rules[s]
    else Rule(if bulk.inbound.Some? then bulk.inbound.value else 0, "", factorPpm, Active, now, None)
  }

  /** What the rounds over the matching rows make of the tables. */
  ghost predicate AllEnabled(a: Db, b: Db, s: int, bulk: Bulk, factorPpm: int64, now: int) {
    && Suits(b, s, bulk, factorPpm) && b.rules[s] == ScopeRule(a, s, bulk, factorPpm, now) && b.traffic == a.traffic
    && forall t :: Matching(a, bulk, t) ==> RowEnabled(a, b, s, factorPpm, t)
  }

  lemma MatchingListed(a: Db, bulk: Bulk)
    ensures var ts := ClientCandidates(a, bulk.inbound, bulk.limitedOnly, bulk.includeDisabled);
            Distinct(ts) && forall t :: t in ts <==> Matching(a, bulk, t)
  {
    var ids := Ascending(set t | t in a.traffic
        && FilterAdmits(a, bulk.inbound, bulk.limitedOnly, bulk.includeDisabled, t));
    assert Distinct(ids);
    SortKeepsListing(ids, (x: int, y: int) => RowBefore(a, x, y));
    forall t
      ensures t in ClientCandidates(a, bulk.inbound, bulk.limitedOnly, bulk.includeDisabled) <==> Matching(a, bulk, t)
    {
      CandidatesPass(a, bulk.inbound, bulk.limitedOnly, bulk.includeDisabled, t);
    }
  }

  lemma SomeMatching(a: Db, bulk: Bulk, ts: seq<int>)
    requires forall t :: t in ts <==> Matching(a, bulk, t)
    ensures ts == [] <==> !exists t :: Matching(a, bulk, t)
  {
    if ts != [] {
      var t := ts[0];
      assert t in ts;
    }
  }

  lemma RoundsEnable(a: Db, bulk: Bulk, factorPpm: int64, ts: seq<int>, now: int, s: int)
    requires Suits(a, s, bulk, factorPpm) && Distinct(ts) && forall t :: t in ts <==> Matching(a, bulk, t)
    ensures var e := EnableClients(a, s, ts, now);
            && (e.Err? <==> exists t :: Matching(a, bulk, t) && Clashing(a, s, t)) && (e.Err? ==> e.error == Conflict)
            && (e.Ok? ==> AllEnabled(a, e.value, s, bulk, factorPpm, now))
  {
    forall t | t in ts ensures Open(a, s, t) { assert Matching(a, bulk, t); }
    RoundsRefused(a, s, ts, now);
    if EnableClients(a, s, ts, now).Ok? {
      RoundsTake(a, s, ts, now);
      var b := EnableClients(a, s, ts, now).value;
      forall t | Matching(a, bulk, t)
        ensures RowEnabled(a, b, s, factorPpm, t)
      {
        assert t in ts && RowOutcome(a, b, s, t);
      }
      RoundsTraffic(a, s, ts, now);
    }
  }

  lemma RoundsTraffic(a: Db, s: int, ts: seq<int>, now: int)
    requires ActiveScope(a, s) && EnableClients(a, s, ts, now).Ok?
    ensures EnableClients(a, s, ts, now).value.traffic == a.traffic
  {
    EnableClientsFacts(a, s, ts, now);
  }

  lemma EnabledFrom(a: Db, m: Db, b: Db, s: int, bulk: Bulk, factorPpm: int64, now: int)
    requires Widened(a, m, s) && s !in a.rules && s in m.rules && m.rules[s] == ScopeRule(a, s, bulk, factorPpm, now)
    requires AllEnabled(m, b, s, bulk, factorPpm, now)
    ensures AllEnabled(a, b, s, bulk, factorPpm, now)
  {
    forall t | Matching(a, bulk, t) ensures RowEnabled(a, b, s, factorPpm, t) {
      assert Matching(m, bulk, t);
      WidenedTakers(a, m, s, t);
      RowFrom(a, m, b, s, factorPpm, t);
    }
  }

  lemma RowFrom(a: Db, m: Db, b: Db, s: int, factorPpm: int64, t: int)
    requires Widened(a, m, s) && RowEnabled(m, b, s, factorPpm, t)
    requires Untaken(m, t) == Untaken(a, t) && (forall r :: SoleTaker(m, r, t) == SoleTaker(a, r, t))
    requires forall r :: AdoptableAt(m, factorPpm, r, t) == AdoptableAt(a, factorPpm, r, t)
    ensures RowEnabled(a, b, s, factorPpm, t)
  {
    forall r | SoleTaker(a, r, t)
      ensures r in a.rules && r != s && m.rules[r] == a.rules[r]
    {
      assert Key(r, t) in a.clients;
    }
  }

  /** Which rows the scope chosen ends up with, and with which accounts. */
  lemma EnablesExactly(a: Db, bulk: Bulk, factorPpm: int64, now: int, s: int)
    requires Valid(a) && Chosen(a, s, bulk, factorPpm)
    ensures var e := EnablePersistent(a, bulk, factorPpm,
            ClientCandidates(a, bulk.inbound, bulk.limitedOnly, bulk.includeDisabled), now);
            && (e.Err? <==> exists t :: Matching(a, bulk, t) && Clashing(a, s, t)) && (e.Err? ==> e.error == Conflict)
            && (e.Ok? ==> AllEnabled(a, e.value, s, bulk, factorPpm, now))
  {
    var ts := ClientCandidates(a, bulk.inbound, bulk.limitedOnly, bulk.includeDisabled);
    MatchingListed(a, bulk);
    ScopeFound(a, bulk, factorPpm, s);
    match FindScope(a, bulk, factorPpm) {
      case Some(_) => RoundsEnable(a, bulk, factorPpm, ts, now, s);
      case None =>
        var m := CreateScope(a, bulk, false, factorPpm, now);
        CreatedSuits(a, bulk, false, factorPpm, now);
        assert forall t :: Matching(m, bulk, t) == Matching(a, bulk, t);
        forall t ensures Clashing(m, s, t) == Clashing(a, s, t) { WidenedTakers(a, m, s, t); }
        RoundsEnable(m, bulk, factorPpm, ts, now, s);
        if EnableClients(m, s, ts, now).Ok? {
          EnabledFrom(a, m, EnableClients(m, s, ts, now).value, s, bulk, factorPpm, now);
        }
    }
  }

  /** A reconcile leaves a scope, its clients and the rules that are not active alone. */
  lemma ScopeStays(m: Db, inbound: Option<int>, now: int, s: int)
    requires now > 0 && s in m.scopes && s in m.rules
    ensures var b := Reconcile(m, inbound, now, false).value.0;
            && b.traffic == m.traffic && b.scopes == m.scopes && s in b.rules && b.rules[s] == m.rules[s]
            && (forall t :: Key(s, t) in m.clients ==> Key(s, t) in b.clients
                                                       && b.clients[Key(s, t)] == m.clients[Key(s, t)])
            && (forall r :: r in m.rules && m.rules[r].state == Merged ==> r in b.rules && b.rules[r] == m.rules[r])
  {
    RulesOutcome(m, inbound, now);
    ListedSingles(m, inbound);
  }

  /**
   * After enable-all, a matching row that was untaken is owned by the scope, afresh; that of an adoptable rule with
   * its account.
   */
  predicate RowUnder(a: Db, b: Db, s: int, factorPpm: int64, t: int) {
    && (Key(s, t) in a.clients ==> Key(s, t) in b.clients && b.clients[Key(s, t)] == a.clients[Key(s, t)])
    && (Untaken(a, t) ==> b.Owns(s, t) && Afresh(b, Key(s, t)))
    && (forall k :: k in a.clients && k.traffic == t && Key(s, t) !in a.clients && SoleTaker(a, k.rule, t)
                    && AdoptableAt(a, factorPpm, k.rule, t) ==>
          Key(s, t) in b.clients && b.clients[Key(s, t)] == a.clients[k] && k.rule in b.rules
              && b.rules[k.rule].state == Merged)
  }

  lemma RowAfter(a: Db, m: Db, b: Db, s: int, factorPpm: int64, t: int)
    requires RowEnabled(a, m, s, factorPpm, t) && b.traffic == m.traffic && b.Active(s)
             && (s in a.rules ==> a.Active(s))
    requires forall k :: k in a.clients ==> k.rule in a.rules
    requires forall u :: Key(s, u) in m.clients ==> Key(s, u) in b.clients
                                                    && b.clients[Key(s, u)] == m.clients[Key(s, u)]
    requires forall r :: r in m.rules && m.rules[r].state == Merged ==> r in b.rules && b.rules[r] == m.rules[r]
    ensures RowUnder(a, b, s, factorPpm, t)
  {
    if Untaken(a, t) { assert Key(s, t).traffic == t && Key(s, t).rule == s; }
    forall k: Key | k.traffic == t ensures k == Key(k.rule, t) {}
  }

  /**
   * Enable-all succeeds exactly when some client matches and no matching row is taken twice. Its clients then come
   * under an active scope of the factor and filter given - the first that suits, or else a new one - untaken rows
   * afresh.
   */
  lemma EnableAllTakes(a: Db, bulk: Bulk, factor: string, now: int, s: int)
    requires now > 0 && Valid(a) && ParseFactor(factor).Ok? && Chosen(a, s, bulk, ParseFactor(factor).value)
    ensures var e := EnableAll(a, bulk, false, factor, now);
            && (e.Ok? <==> (exists t :: Matching(a, bulk, t)) && forall t ::
                             Matching(a, bulk, t) ==> !Clashing(a, s, t))
            && (e.Err? ==> e.error == if exists t :: Matching(a, bulk, t) then Conflict else NotFound)
            && (e.Ok? ==> var b := e.value;
                          && b.Active(s) && ParseFactor(factor) == Ok(b.rules[s].factorPpm) && s in b.scopes
                          && b.rules[s] == ScopeRule(a, s, bulk, b.rules[s].factorPpm, now)
                          && b.scopes[s] == Scope(bulk.inbound, bulk.limitedOnly, bulk.includeDisabled, false)
                          && forall t :: Matching(a, bulk, t) ==> RowUnder(a, b, s, b.rules[s].factorPpm, t))
  {
    var factorPpm := ParseFactor(factor).value;
    var ts := ClientCandidates(a, bulk.inbound, bulk.limitedOnly, bulk.includeDisabled);
    MatchingListed(a, bulk);
    SomeMatching(a, bulk, ts);
    EnablesExactly(a, bulk, factorPpm, now, s);
    if ts != [] {
      if EnablePersistent(a, bulk, factorPpm, ts, now).Ok? {
        var m := EnablePersistent(a, bulk, factorPpm, ts, now).value;
        ScopeStays(m, bulk.inbound, now, s);
        ScopeFound(a, bulk, factorPpm, s);
        var b := Reconcile(m, bulk.inbound, now, false).value.0;
        forall t | Matching(a, bulk, t) ensures RowUnder(a, b, s, factorPpm, t) { RowAfter(a, m, b, s, factorPpm, t); }
      }
    }
  }

  // Snapshots -------------------------------------------------------------

  lemma {:induction false} SnapshotRefused(db: Db, ts: seq<int>)
    ensures SnapshotTargets(db, ts).Err? <==> exists t :: t in ts && TakenTwice(db, t)
    ensures SnapshotTargets(db, ts).Err? ==> SnapshotTargets(db, ts).error == Conflict
    ensures SnapshotTargets(db, ts).Ok? ==> forall t :: t in SnapshotTargets(db, ts).value <==>
                                                        t in ts && Untaken(db, t)
  {
    if ts != [] {
      TakersCounted(db, ts[0]);
      SnapshotRefused(db, ts[1..]);
      assert forall t :: t in ts <==> t == ts[0] || t in ts[1..];
    }
  }

  /** The tables after the snapshot's clients were put. */
  ghost predicate SnapshotPut(m: Db, b: Db, s: int, ts: seq<int>) {
    && b == m.(clients := b.clients)
    && (forall k :: k in b.clients <==> k in m.clients || (k.rule == s && k.traffic in ts && k.traffic in m.traffic))
    && (forall k :: k in m.clients && !(k.rule == s && k.traffic in ts && k.traffic in m.traffic) ==>
                    b.clients[k] == m.clients[k])
    && (forall t :: t in ts && t in m.traffic ==> b.clients[Key(s, t)] == FreshClient(m.traffic[t]))
  }

  lemma {:induction false} PutsFresh(m: Db, s: int, ts: seq<int>)
    ensures SnapshotPut(m, PutFresh(m, s, ts), s, ts)
    decreases |ts|
  {
    if ts != [] {
      assert forall t :: t in ts <==> t == ts[0] || t in ts[1..];
      if ts[0] !in m.traffic {
        PutsFresh(m, s, ts[1..]);
      } else {
        PutsFresh(m.PutClient(Key(s, ts[0]), FreshClient(m.traffic[ts[0]])), s, ts[1..]);
      }
    }
  }

  /**
   * One rule was made, of the factor and filter given and taken once; its clients are the untaken matching rows,
   * afresh.
   */
  ghost predicate Snapped(a: Db, b: Db, s: int, bulk: Bulk, factorPpm: int64, now: int) {
    && b.Active(s) && s !in a.rules && b.rules[s] == ScopeRule(a, s, bulk, factorPpm, now) && s in b.scopes
    && b.scopes[s] == Scope(bulk.inbound, bulk.limitedOnly, bulk.includeDisabled, true)
    && (forall x :: x in a.rules ==> x in b.rules && b.rules[x] == a.rules[x])
    && (forall t :: Key(s, t) in b.clients <==> Matching(a, bulk, t) && Untaken(a, t))
    && (forall t :: Key(s, t) in b.clients ==> Afresh(b, Key(s, t)))
    && (forall k :: k in a.clients ==> k in b.clients && b.clients[k] == a.clients[k])
  }

  lemma SnapshotMade(a: Db, bulk: Bulk, factorPpm: int64, ts: seq<int>, now: int)
    requires Valid(a) && (forall t :: t in ts <==> Matching(a, bulk, t)) && SnapshotTargets(a, ts).Ok?
    ensures EnableSnapshot(a, bulk, factorPpm, ts, now).Ok?
    ensures var b := EnableSnapshot(a, bulk, factorPpm, ts, now).value;
            if exists t :: Matching(a, bulk, t)
                           && Untaken(a, t) then Snapped(a, b, a.nextRule, bulk, factorPpm, now) else b == a
  {
    SnapshotRefused(a, ts);
    var us := SnapshotTargets(a, ts).value;
    if us == [] {
      assert forall t :: Matching(a, bulk, t) ==> t in ts && t !in us;
    } else {
      var m := CreateScope(a, bulk, true, factorPpm, now);
      CreatedSuits(a, bulk, true, factorPpm, now);
      PutsFresh(m, a.nextRule, us);
      var u := us[0];
      assert u in us;
      SnapshotRows(a, m, EnableSnapshot(a, bulk, factorPpm, ts, now).value, bulk, us, a.nextRule);
    }
  }

  lemma SnapshotAllowed(a: Db, bulk: Bulk, ts: seq<int>)
    requires forall t :: t in ts <==> Matching(a, bulk, t)
    ensures SnapshotTargets(a, ts).Ok? <==> forall t :: Matching(a, bulk, t) ==> !TakenTwice(a, t)
    ensures SnapshotTargets(a, ts).Err? ==> SnapshotTargets(a, ts).error == Conflict
  {
    SnapshotRefused(a, ts);
  }

  lemma SnapshotIs(a: Db, bulk: Bulk, factor: string, ts: seq<int>, now: int)
    requires ParseFactor(factor).Ok?
             && ts == ClientCandidates(a, bulk.inbound, bulk.limitedOnly, bulk.includeDisabled)
    ensures EnableAll(a, bulk, true, factor, now)
            == if ts == [] then Err(NotFound) else EnableSnapshot(a, bulk, ParseFactor(factor).value, ts, now)
  {
  }

  lemma SnapshotAnswers(a: Db, bulk: Bulk, factorPpm: int64, ts: seq<int>, now: int)
    ensures EnableSnapshot(a, bulk, factorPpm, ts, now).Ok? <==> SnapshotTargets(a, ts).Ok?
    ensures EnableSnapshot(a, bulk, factorPpm, ts, now).Err? ==>
              SnapshotTargets(a, ts).Err?
              && EnableSnapshot(a, bulk, factorPpm, ts, now).error == SnapshotTargets(a, ts).error
  {
  }

  /**
   * The snapshot succeeds exactly when some client matches and no matching row is taken twice. Unless no matching row
   * is untaken, it then makes one rule, taken once, for exactly the untaken matching rows; nothing else changes.
   */
  lemma SnapshotTakes(a: Db, bulk: Bulk, factor: string, now: int)
    requires Valid(a) && ParseFactor(factor).Ok?
    ensures var e := EnableAll(a, bulk, true, factor, now);
            && (e.Ok? <==> (exists t :: Matching(a, bulk, t)) && forall t :: Matching(a, bulk, t) ==> !TakenTwice(a, t))
            && (e.Err? ==> e.error == if exists t :: Matching(a, bulk, t) then Conflict else NotFound)
            && (e.Ok? ==> if exists t :: Matching(a, bulk, t) && Untaken(a, t)
                          then Snapped(a, e.value, a.nextRule, bulk, ParseFactor(factor).value, now) else e.value == a)
  {
    var ts, factorPpm := ClientCandidates(a, bulk.inbound, bulk.limitedOnly, bulk.includeDisabled),
        ParseFactor(factor).value;
    MatchingListed(a, bulk);
    SomeMatching(a, bulk, ts);
    SnapshotIs(a, bulk, factor, ts, now);
    SnapshotAnswers(a, bulk, factorPpm, ts, now);
    SnapshotAllowed(a, bulk, ts);
    if SnapshotTargets(a, ts).Ok? { SnapshotMade(a, bulk, factorPpm, ts, now); }
  }

  lemma SnapshotRows(a: Db, m: Db, b: Db, bulk: Bulk, us: seq<int>, s: int)
    requires Widened(a, m, s) && SnapshotPut(m, b, s, us) && forall t ::
               t in us <==> Matching(a, bulk, t) && Untaken(a, t)
    ensures forall t :: Key(s, t) in b.clients <==> Matching(a, bulk, t) && Untaken(a, t)
    ensures forall t :: Key(s, t) in b.clients ==> Afresh(b, Key(s, t))
    ensures forall k :: k in a.clients ==> k in b.clients && b.clients[k] == a.clients[k]
  {
    forall t ensures Key(s, t) in b.clients <==> Matching(a, bulk, t) && Untaken(a, t) {
      assert t in us ==> Matching(a, bulk, t);
    }
  }
}
