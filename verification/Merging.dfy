/** What one reconcile makes of each listed rule, told field by field from the tables before the run. */
module Merging {
  import opened Collections
  import opened Model
  import opened PolicyTable
  import opened Baselines
  import opened Reconciling
  import opened ReconcileProofs
  import opened ReconcileTheorems

  // Where a rule stands -----------------------------------------------------

  /**
   * The rule's one client is on row t under the row's email, or its own row is gone and t is the first of its email.
   */
  ghost predicate Stands(db: Db, r: int, t: int) {
    t in db.traffic && exists u :: StandsBy(db, r, t, u)
  }

  predicate StandsBy(db: Db, r: int, t: int, u: int)
    requires t in db.traffic
  {
    && Key(r, u) in db.clients && (forall k :: k in db.clients && k.rule == r ==> k == Key(r, u))
    && db.traffic[t].email == db.clients[Key(r, u)].email
    && (u == t || (u !in db.traffic && forall z :: z in db.traffic && db.traffic[z].email == db.traffic[t].email ==>
                                                   t <= z))
  }

  lemma StandsExactly(db: Db, r: int, t: int)
    ensures Stands(db, r, t) <==> ResolvesTo(db, r, t)
  {
    if ResolvesTo(db, r, t) {
      SoleClient(db, r);
      var u := PlaceOf(db, r).t;
      forall k | k in db.clients && k.rule == r ensures k == Key(r, u) { assert k == Key(k.rule, k.traffic); }
      FirstOfEmail(db, db.clients[Key(r, u)].email);
      assert StandsBy(db, r, t, u);
    }
    if Stands(db, r, t) {
      var u :| StandsBy(db, r, t, u);
      OnlyOn(db, r, u);
      FirstOfEmail(db, db.clients[Key(r, u)].email);
      if u != t { IsFirst(db, t); }
    }
  }

  lemma OnlyOn(db: Db, r: int, u: int)
    requires Key(r, u) in db.clients && forall k :: k in db.clients && k.rule == r ==> k == Key(r, u)
    ensures db.ClientsOf(r) == {u} && Min({u}) == u
  {
    forall x ensures x in db.ClientsOf(r) <==> x == u {}
    assert u in {u};
  }

  lemma FirstOfEmail(db: Db, email: string)
    ensures match db.RowByEmail(email)
            case Some(row) => row in db.traffic && db.traffic[row].email == email
                              && forall z :: z in db.traffic && db.traffic[z].email == email ==> row <= z
            case None => forall z :: z in db.traffic ==> db.traffic[z].email != email
  {
    var ts := db.RowsByEmail(email);
    forall z | z in db.traffic && db.traffic[z].email == email ensures z in ts {}
    if ts != {} { assert Min(ts) in ts; }
  }

  lemma IsFirst(db: Db, t: int)
    requires t in db.traffic && forall z :: z in db.traffic && db.traffic[z].email == db.traffic[t].email ==> t <= z
    ensures db.RowByEmail(db.traffic[t].email) == Some(t)
  {
    FirstOfEmail(db, db.traffic[t].email);
  }

  /** The account the rule's client has once in place: its own if it was there and present, else the row's counters. */
  function Account(db: Db, r: int, t: int): RuleClient
    requires t in db.traffic
  {
    var row := db.traffic[t];
    if Key(r, t) in db.clients && db.clients[Key(r, t)].missingAt.None? then
          db.clients[Key(r, t)].(inboundId := row.inboundId)
    else RuleClient(row.inboundId, row.email, row.up, row.down, 0, 0, None)
  }

  lemma PlacedAccount(a: Db, r: int, t: int, now: int)
    requires ResolvesTo(a, r, t) && t in a.traffic
    ensures var p := Placed(a, r, PlaceOf(a, r), now); Key(r, t) in p.clients
                                                       && p.clients[Key(r, t)] == Account(a, r, t)
  {
    SoleClient(a, r);
  }

  // Which scopes admit ------------------------------------------------------

  /** The scope is active and takes new clients. */
  predicate Persistent(db: Db, s: int) {
    s in db.scopes && s in db.rules && db.rules[s].state == Active && !db.scopes[s].once
  }

  /** Rule and scope have one factor, and the scope's filter lets the row's client pass. */
  predicate Admits(db: Db, s: int, r: int, t: int) {
    && Persistent(db, s) && r in db.rules && t in db.traffic
    && db.rules[r].factorPpm == db.rules[s].factorPpm
    && (db.scopes[s].inboundId.Some? ==> (db.traffic[t].email, db.scopes[s].inboundId.value) in db.members)
    && (db.scopes[s].limitedOnly ==> db.traffic[t].total > 0)
    && (db.traffic[t].enable || db.scopes[s].includeDisabled)
  }

  ghost predicate LeastAdmits(db: Db, s: int, r: int, t: int) {
    Admits(db, s, r, t) && forall z :: Admits(db, z, r, t) ==> s <= z
  }

  /** No other active scope has a client on the row. */
  predicate SoleScope(db: Db, s: int, t: int) {
    forall k :: k in db.clients && k.traffic == t && k.rule in db.scopes && db.Active(k.rule) ==> k.rule == s
  }

  ghost predicate LeastTakes(db: Db, s: int, r: int, t: int) {
    && Admits(db, s, r, t) && SoleScope(db, s, t)
    && forall z :: Admits(db, z, r, t) && SoleScope(db, z, t) ==> s <= z
  }

  ghost predicate Listing(db: Db, scopes: seq<int>) {
    Increasing(scopes) && forall s :: s in scopes <==> Persistent(db, s)
  }

  lemma PersistentListing(db: Db)
    ensures Listing(db, ListPersistentScopes(db))
  {
    forall s
      ensures s in ListPersistentScopes(db) <==> Persistent(db, s)
    {
      assert s in ListPersistentScopes(db) <==> s in PersistentIds(db);
    }
  }

  lemma SoleScopeIs(db: Db, s: int, t: int)
    ensures SoleScope(db, s, t) <==> !db.ScopeOn(t, s)
  {
    if SoleScope(db, s, t) {
      forall x ensures !(x in db.scopes && x != s && db.Owns(x, t)) {
        if Key(x, t) in db.clients { assert Key(x, t).traffic == t && Key(x, t).rule == x; }
      }
    }
    if !db.ScopeOn(t, s) {
      forall k | k in db.clients && k.traffic == t && k.rule in db.scopes && db.Active(k.rule) ensures k.rule == s {
        assert k == Key(k.rule, t) && db.Owns(k.rule, t);
      }
    }
  }

  lemma {:induction false} CompatibleFirst(db: Db, scopes: seq<int>, r: int, t: int)
    requires Increasing(scopes)
    ensures match CompatibleScope(db, scopes, r, t)
            case Some(s) => s in scopes && s != r && ScopeAdmits(db, s, r, t) && !db.ScopeOn(t, s)
                            && forall z :: z in scopes && z != r && ScopeAdmits(db, z, r, t) && !db.ScopeOn(t, z) ==>
                                           s <= z
            case None => forall z :: z in scopes && z != r && ScopeAdmits(db, z, r, t) ==> db.ScopeOn(t, z)
  {
    if scopes != [] {
      CompatibleFirst(db, scopes[1..], r, t);
      assert forall z :: z in scopes <==> z == scopes[0] || z in scopes[1..];
      forall z | z in scopes ensures scopes[0] <= z { FirstLeast(scopes, z); }
    }
  }

  lemma TakesFirst(a: Db, p: Db, scopes: seq<int>, r: int, t: int)
    requires Listing(a, scopes) && IsSingle(a, r) && PutInPlace(a, p, r, t)
    ensures match CompatibleScope(p, scopes, r, t)
            case Some(s) => s in scopes && s != r && LeastTakes(a, s, r, t)
            case None => forall s :: Admits(a, s, r, t) ==> !SoleScope(a, s, t)
  {
    CompatibleFirst(p, scopes, r, t);
    SameScoped(a, p, r, t);
    forall s ensures s in scopes && s != r && ScopeAdmits(p, s, r, t) <==> Admits(a, s, r, t) {}
    forall s | s in a.scopes ensures p.ScopeOn(t, s) == !SoleScope(a, s, t) { SoleScopeIs(a, s, t); }
  }

  // One rule ----------------------------------------------------------------

  /**
   * A rule that stands on row t: merged, orphaned or left, with the account of its client and the owners of every
   * row.
   */
  ghost predicate StepOn(a: Db, b: Db, r: int, t: int)
    requires t in a.traffic
  {
    && r in b.rules
    && (if exists s :: Admits(a, s, r, t) && SoleScope(a, s, t) then b.rules[r].state == Merged
        else if !a.traffic[t].enable || Scoped(a, t) then b.rules[r].state == Orphaned
        else r in a.rules && b.rules[r] == a.rules[r] && Key(r, t) in b.clients
             && b.clients[Key(r, t)] == Account(a, r, t))
    && (forall s :: LeastTakes(a, s, r, t) && Key(s, t) !in a.clients ==>
          Key(s, t) in b.clients && b.clients[Key(s, t)] == Account(a, r, t))
    && (forall x :: x in a.scopes ==> (b.Owns(x, t) <==> a.Owns(x, t) || LeastTakes(a, x, r, t)))
    && (forall x, u :: x in a.scopes && u != t ==> b.Owns(x, u) == a.Owns(x, u))
  }

  lemma JoinOwners(a: Db, p: Db, r: int, t: int, s: int, now: int)
    requires IsSingle(a, r) && PutInPlace(a, p, r, t) && Admits(a, s, r, t) && s != r
             && p.clients[Key(r, t)] == Account(a, r, t)
    ensures var b := JoinScope(p, s, r, t, now);
            && r in b.rules && b.rules[r].state == Merged
            && Key(s, t) in b.clients && (Key(s, t) !in a.clients ==> b.clients[Key(s, t)] == Account(a, r, t))
            && (forall x :: x in a.scopes ==> (b.Owns(x, t) <==> a.Owns(x, t) || x == s))
            && (forall x, u :: x in a.scopes && u != t ==> b.Owns(x, u) == a.Owns(x, u))
  {
    var b := JoinScope(p, s, r, t, now);
    JoinFacts(p, s, r, t, now);
    assert Key(s, t) in p.clients <==> Key(s, t) in a.clients;
    forall x, u | x in a.scopes
      ensures b.Owns(x, u) <==> a.Owns(x, u) || (x == s && u == t)
    {
      assert Key(x, u).rule != r;
    }
  }

  lemma SameOwners(a: Db, p: Db, b: Db, r: int, t: int)
    requires IsSingle(a, r) && PutInPlace(a, p, r, t) && b.clients == p.clients && b.rules.Keys == a.rules.Keys
    requires forall x :: x in a.rules && x != r ==> b.rules[x] == a.rules[x]
    ensures forall x, u :: x in a.scopes ==> b.Owns(x, u) == a.Owns(x, u)
  {
    forall x, u | x in a.scopes ensures b.Owns(x, u) == a.Owns(x, u) { assert Key(x, u).rule != r; }
  }

  lemma Concluded(a: Db, p: Db, scopes: seq<int>, r: int, t: int, repaired: bool, now: int)
    requires IsSingle(a, r) && Listing(a, scopes) && PutInPlace(a, p, r, t) && p.clients[Key(r, t)] == Account(a, r, t)
    ensures StepOn(a, Conclude(p, scopes, r, t, repaired, now, false).0, r, t)
  {
    var b := Conclude(p, scopes, r, t, repaired, now, false).0;
    TakesFirst(a, p, scopes, r, t);
    SameScoped(a, p, r, t);
    assert Scoped(p, t) == p.ScopeOn(t, r);
    match CompatibleScope(p, scopes, r, t) {
      case Some(s) =>
        JoinOwners(a, p, r, t, s, now);
        assert forall x :: LeastTakes(a, x, r, t) ==> x == s;
      case None =>
        assert forall x :: !LeastTakes(a, x, r, t);
        SameOwners(a, p, b, r, t);
    }
  }

  /** Every client that is alone under the rule is marked missing, and keeps its mark if it had one. */
  ghost predicate Noted(a: Db, b: Db, r: int) {
    forall u :: Key(r, u) in a.clients && (forall k :: k in a.clients && k.rule == r ==> k == Key(r, u)) ==>
                  Key(r, u) in b.clients && b.clients[Key(r, u)].missingAt.Some?
                  && (a.clients[Key(r, u)].missingAt.Some? ==> b.clients[Key(r, u)] == a.clients[Key(r, u)])
  }

  /** A rule that stands nowhere. */
  ghost predicate StepOff(a: Db, b: Db, r: int) {
    && r in b.rules && b.rules[r].state == Orphaned && Noted(a, b, r)
    && forall x, u :: x in a.scopes ==> b.Owns(x, u) == a.Owns(x, u)
  }

  lemma StepExactly(a: Db, scopes: seq<int>, r: int, now: int)
    requires IsSingle(a, r) && Listing(a, scopes)
    ensures var b := SingleRule(a, scopes, r, now, false).0;
            && Beside(a, b, r)
            && (forall t :: Stands(a, r, t) ==> StepOn(a, b, r, t))
            && ((forall t :: !Stands(a, r, t)) ==> StepOff(a, b, r))
  {
    var b := SingleRule(a, scopes, r, now, false).0;
    SingleRuleFate(a, scopes, r, now);
    forall t ensures Stands(a, r, t) == ResolvesTo(a, r, t) { StandsExactly(a, r, t); }
    if RowOf(PlaceOf(a, r)).Some? {
      var t := RowOf(PlaceOf(a, r)).value;
      SoleClient(a, r);
      assert Stands(a, r, t);
      PlacedFacts(a, r, now);
      PlacedAccount(a, r, t, now);
      Concluded(a, Placed(a, r, PlaceOf(a, r), now), scopes, r, t, PlaceOf(a, r).Follow? || MissingHere(a, r, t), now);
    } else {
      OffExactly(a, scopes, r, now);
    }
  }

  lemma OffExactly(a: Db, scopes: seq<int>, r: int, now: int)
    requires IsSingle(a, r) && RowOf(PlaceOf(a, r)).None?
    ensures StepOff(a, SingleRule(a, scopes, r, now, false).0, r)
  {
    match PlaceOf(a, r) {
      case NoClient => CountedOff(a, r, now);
      case ManyClients => CountedOff(a, r, now);
      case Gone(t) => NotedOff(a, r, t, now);
      case Renamed(t) => NotedOff(a, r, t, now);
    }
  }

  lemma CountedOff(a: Db, r: int, now: int)
    requires IsSingle(a, r) && (PlaceOf(a, r).NoClient? || PlaceOf(a, r).ManyClients?)
    ensures StepOff(a, Orphan(a, r, now), r)
  {
    forall u | Key(r, u) in a.clients ensures !(forall k :: k in a.clients && k.rule == r ==> k == Key(r, u)) {
      assert u in a.ClientsOf(r);
      if forall k :: k in a.clients && k.rule == r ==> k == Key(r, u) { OnlyOn(a, r, u); }
    }
  }

  lemma NotedOff(a: Db, r: int, t: int, now: int)
    requires IsSingle(a, r) && (PlaceOf(a, r) == Gone(t) || PlaceOf(a, r) == Renamed(t))
    ensures StepOff(a, Orphan(NoteMissing(a, Key(r, t), now), r, now), r)
  {
    SoleClient(a, r);
    NoteMissingFacts(a, Key(r, t), now);
    var m := NoteMissing(a, Key(r, t), now);
    assert m.clients[Key(r, t)].missingAt.Some?;
    forall u | Key(r, u) in a.clients ensures u == t { assert Key(r, u).rule == r; }
  }

  // All listed rules --------------------------------------------------------

  ghost predicate SomeAdmits(db: Db, r: int, t: int) {
    exists s :: Admits(db, s, r, t)
  }

  /** The first listed rule standing on the row that some scope admits. */
  ghost predicate FirstAdmitted(db: Db, rules: seq<int>, q: int, t: int) {
    && q in rules && Stands(db, q, t) && SomeAdmits(db, q, t)
    && forall z :: z in rules && z < q && Stands(db, z, t) ==> !SomeAdmits(db, z, t)
  }

  /** On a row that no scope owned, scope x takes the account of rule q. */
  ghost predicate TakesFrom(db: Db, rules: seq<int>, x: int, q: int, t: int) {
    !Scoped(db, t) && FirstAdmitted(db, rules, q, t) && LeastAdmits(db, x, q, t)
  }

  /** When it is the turn of rule r, the active scope x owns the row. */
  ghost predicate OwnsAtTurn(db: Db, rules: seq<int>, x: int, r: int, t: int) {
    x in db.scopes && (db.Owns(x, t) || exists q :: q < r && TakesFrom(db, rules, x, q, t))
  }

  /** A scope admits the rule, and at the rule's turn no other active scope owns the row. */
  ghost predicate MergesInto(db: Db, rules: seq<int>, s: int, r: int, t: int) {
    Admits(db, s, r, t) && forall x :: OwnsAtTurn(db, rules, x, r, t) ==> x == s
  }

  ghost predicate RuleOutcome(a: Db, b: Db, rules: seq<int>, r: int, t: int)
    requires t in a.traffic
  {
    && r in a.rules && r in b.rules
    && if exists s :: MergesInto(a, rules, s, r, t) then b.rules[r].state == Merged
       else if !a.traffic[t].enable || exists x :: OwnsAtTurn(a, rules, x, r, t) then b.rules[r].state == Orphaned
       else b.rules[r] == a.rules[r] && Key(r, t) in b.clients && b.clients[Key(r, t)] == Account(a, r, t)
  }

  /** The scopes on the row afterwards, and the account that one came by. */
  ghost predicate ScopesOutcome(a: Db, b: Db, rules: seq<int>, t: int) {
    && (forall x :: x in a.scopes ==> (b.Owns(x, t) <==> a.Owns(x, t) || exists q :: TakesFrom(a, rules, x, q, t)))
    && (forall x, q :: TakesFrom(a, rules, x, q, t) && t in a.traffic ==>
                       Key(x, t) in b.clients && b.clients[Key(x, t)] == Account(a, q, t))
  }

  /** What a run over the listed rules makes of each of them and of the scopes. */
  ghost predicate RunOutcome(a: Db, b: Db, rules: seq<int>) {
    && (forall r, t :: r in rules && Stands(a, r, t) ==> RuleOutcome(a, b, rules, r, t))
    && (forall r :: r in rules && (forall t :: !Stands(a, r, t)) ==>
          r in b.rules && b.rules[r].state == Orphaned && Noted(a, b, r))
    && (forall t :: ScopesOutcome(a, b, rules, t))
  }

  /** The step of the first listed rule. */
  ghost predicate HeadStep(a: Db, m: Db, h: int) {
    && IsSingle(a, h) && Beside(a, m, h)
    && (forall t :: Stands(a, h, t) ==> StepOn(a, m, h, t))
    && ((forall t :: !Stands(a, h, t)) ==> StepOff(a, m, h))
  }

  lemma AdmitsLater(a: Db, m: Db, h: int, r: int, t: int)
    requires IsSingle(a, h) && Beside(a, m, h) && r != h
    ensures forall s :: Admits(m, s, r, t) == Admits(a, s, r, t)
    ensures SomeAdmits(m, r, t) == SomeAdmits(a, r, t)
    ensures forall s :: LeastAdmits(m, s, r, t) == LeastAdmits(a, s, r, t)
  {
  }

  lemma StandsLater(a: Db, m: Db, h: int, r: int)
    requires Beside(a, m, h) && r != h && r !in a.scopes
    ensures forall t :: Stands(m, r, t) == Stands(a, r, t)
    ensures forall t :: t in a.traffic ==> Account(m, r, t) == Account(a, r, t)
  {
    SamePlace(a, m, h, r);
    forall t ensures Stands(m, r, t) == Stands(a, r, t) {
      StandsExactly(a, r, t);
      StandsExactly(m, r, t);
    }
    forall t | t in a.traffic ensures Account(m, r, t) == Account(a, r, t) {
      assert Key(r, t).rule != h;
      assert Key(r, t) in m.clients ==> Key(r, t) in a.clients;
    }
  }

  /** What the head's step does to the scopes of row t. */
  ghost predicate HeadTakes(a: Db, h: int, x: int, t: int) {
    Stands(a, h, t) && !Scoped(a, t) && LeastAdmits(a, x, h, t)
  }

  lemma UnscopedTakes(a: Db, r: int, t: int)
    requires !Scoped(a, t)
    ensures forall s :: SoleScope(a, s, t)
    ensures forall s :: LeastTakes(a, s, r, t) == LeastAdmits(a, s, r, t)
  {
    forall s ensures SoleScope(a, s, t) { SoleScopeIs(a, s, t); }
  }

  lemma ScopedTakes(a: Db, s: int, r: int, t: int)
    requires Scoped(a, t) && LeastTakes(a, s, r, t)
    ensures a.Owns(s, t)
  {
    SoleScopeIs(a, s, t);
    var x :| x in a.scopes && a.Owns(x, t);
  }

  lemma HeadOwners(a: Db, m: Db, h: int, t: int)
    requires HeadStep(a, m, h)
    ensures forall x :: x in a.scopes ==> (m.Owns(x, t) <==> a.Owns(x, t) || HeadTakes(a, h, x, t))
    ensures forall x :: HeadTakes(a, h, x, t) ==> Key(x, t) in m.clients && m.clients[Key(x, t)] == Account(a, h, t)
    ensures Scoped(m, t) <==> Scoped(a, t) || (Stands(a, h, t) && SomeAdmits(a, h, t))
  {
    if Stands(a, h, t) {
      if Scoped(a, t) {
        forall x | LeastTakes(a, x, h, t) ensures a.Owns(x, t) { ScopedTakes(a, x, h, t); }
      } else {
        UnscopedTakes(a, h, t);
        forall x | HeadTakes(a, h, x, t) ensures Key(x, t) !in a.clients { assert !a.Owns(x, t); }
        if SomeAdmits(a, h, t) { var x := LeastAdmitting(a, h, t); assert m.Owns(x, t); }
      }
    } else {
      OwnersElsewhere(a, m, h, t);
    }
    ScopedBoth(a, m, h, t);
  }

  lemma OwnersElsewhere(a: Db, m: Db, h: int, t: int)
    requires HeadStep(a, m, h) && !Stands(a, h, t)
    ensures forall x :: x in a.scopes ==> m.Owns(x, t) == a.Owns(x, t)
  {
    if u :| Stands(a, h, u) {
      assert StepOn(a, m, h, u) && u != t;
    }
  }

  lemma ScopedBoth(a: Db, m: Db, h: int, t: int)
    requires m.scopes == a.scopes && forall x :: x in a.scopes ==>
                                                 (m.Owns(x, t) <==> a.Owns(x, t) || HeadTakes(a, h, x, t))
    ensures Scoped(m, t) <==> Scoped(a, t) || (Stands(a, h, t) && SomeAdmits(a, h, t))
  {
    if Stands(a, h, t) && SomeAdmits(a, h, t) && !Scoped(a, t) {
      var x := LeastAdmitting(a, h, t);
      assert HeadTakes(a, h, x, t) && m.Owns(x, t);
    }
    if Scoped(a, t) {
      var x :| x in a.scopes && a.Owns(x, t);
      assert m.Owns(x, t);
    }
  }

  lemma LeastAdmitting(db: Db, r: int, t: int) returns (s: int)
    requires SomeAdmits(db, r, t)
    ensures LeastAdmits(db, s, r, t) && s in db.scopes
  {
    var all := set z | z in db.scopes && Admits(db, z, r, t);
    var z :| Admits(db, z, r, t);
    assert z in all;
    s := Min(all);
    forall x | Admits(db, x, r, t) ensures s <= x { assert x in all; }
  }

  /** Rules in the tail of a list of single-user rules. */
  ghost predicate SinglesListed(db: Db, rules: seq<int>) {
    Increasing(rules) && forall r :: r in rules ==> IsSingle(db, r)
  }

  lemma FirstLater(a: Db, m: Db, rules: seq<int>, t: int)
    requires rules != [] && SinglesListed(a, rules) && HeadStep(a, m, rules[0])
    ensures forall q :: FirstAdmitted(a, rules, q, t) <==>
                          if Stands(a, rules[0], t) && SomeAdmits(a, rules[0], t) then q == rules[0]
                          else FirstAdmitted(m, rules[1..], q, t)
  {
    var h := rules[0];
    assert forall x :: x in rules <==> x == h || x in rules[1..];
    forall q | q in rules[1..]
      ensures h < q && Stands(m, q, t) == Stands(a, q, t) && SomeAdmits(m, q, t) == SomeAdmits(a, q, t)
    {
      TailAbove(rules, q);
      StandsLater(a, m, h, q);
      AdmitsLater(a, m, h, q, t);
    }
  }

  lemma TakesLater(a: Db, m: Db, rules: seq<int>, x: int, q: int, t: int)
    requires rules != [] && SinglesListed(a, rules) && HeadStep(a, m, rules[0])
    ensures TakesFrom(a, rules, x, q, t) <==> (q == rules[0] && HeadTakes(a, rules[0], x, t))
                                              || TakesFrom(m, rules[1..], x, q, t)
  {
    var h := rules[0];
    assert h in rules;
    FirstLater(a, m, rules, t);
    HeadOwners(a, m, h, t);
    if q in rules[1..] {
      TailAbove(rules, q);
      AdmitsLater(a, m, h, q, t);
    }
  }

  lemma SomeTakesLater(a: Db, m: Db, rules: seq<int>, x: int, t: int)
    requires rules != [] && SinglesListed(a, rules) && HeadStep(a, m, rules[0])
    ensures (exists q :: TakesFrom(a, rules, x, q, t)) <==> HeadTakes(a, rules[0], x, t)
                                                            || exists q :: TakesFrom(m, rules[1..], x, q, t)
  {
    if q :| TakesFrom(a, rules, x, q, t) { TakesLater(a, m, rules, x, q, t); }
    if HeadTakes(a, rules[0], x, t) { TakesLater(a, m, rules, x, rules[0], t); }
    if q :| TakesFrom(m, rules[1..], x, q, t) { TakesLater(a, m, rules, x, q, t); }
  }

  lemma BeforeLater(a: Db, m: Db, rules: seq<int>, x: int, r: int, t: int)
    requires rules != [] && SinglesListed(a, rules) && HeadStep(a, m, rules[0]) && rules[0] < r
    ensures (exists q :: q < r && TakesFrom(a, rules, x, q, t))
            <==> HeadTakes(a, rules[0], x, t) || exists q :: q < r && TakesFrom(m, rules[1..], x, q, t)
  {
    if q :| q < r && TakesFrom(a, rules, x, q, t) { TakesLater(a, m, rules, x, q, t); }
    if HeadTakes(a, rules[0], x, t) { TakesLater(a, m, rules, x, rules[0], t); }
    if q :| q < r && TakesFrom(m, rules[1..], x, q, t) { TakesLater(a, m, rules, x, q, t); }
  }

  lemma TurnLater(a: Db, m: Db, rules: seq<int>, r: int, t: int)
    requires rules != [] && SinglesListed(a, rules) && HeadStep(a, m, rules[0]) && r in rules[1..]
    ensures forall x :: OwnsAtTurn(m, rules[1..], x, r, t) == OwnsAtTurn(a, rules, x, r, t)
  {
    TailAbove(rules, r);
    HeadOwners(a, m, rules[0], t);
    forall x
      ensures OwnsAtTurn(m, rules[1..], x, r, t) == OwnsAtTurn(a, rules, x, r, t)
    {
      BeforeLater(a, m, rules, x, r, t);
    }
  }

  lemma OutcomeLater(a: Db, m: Db, b: Db, rules: seq<int>, r: int, t: int)
    requires rules != [] && SinglesListed(a, rules) && HeadStep(a, m, rules[0]) && r in rules[1..] && t in a.traffic
    requires RuleOutcome(m, b, rules[1..], r, t)
    ensures RuleOutcome(a, b, rules, r, t)
  {
    TailAbove(rules, r);
    assert r in rules && IsSingle(a, r);
    StandsLater(a, m, rules[0], r);
    AdmitsLater(a, m, rules[0], r, t);
    TurnLater(a, m, rules, r, t);
    assert forall s :: MergesInto(m, rules[1..], s, r, t) == MergesInto(a, rules, s, r, t);
  }

  lemma HeadTurn(a: Db, rules: seq<int>, t: int)
    requires rules != [] && Increasing(rules)
    ensures forall x :: OwnsAtTurn(a, rules, x, rules[0], t) <==> x in a.scopes && a.Owns(x, t)
  {
    forall x, q | TakesFrom(a, rules, x, q, t) ensures rules[0] <= q { FirstLeast(rules, q); }
  }

  lemma HeadOutcome(a: Db, m: Db, b: Db, rules: seq<int>, t: int)
    requires rules != [] && SinglesListed(a, rules) && HeadStep(a, m, rules[0]) && Stands(a, rules[0], t)
    requires BesideAll(m, b, rules[1..])
    ensures RuleOutcome(a, b, rules, rules[0], t)
  {
    var r := rules[0];
    assert r in rules;
    HeadTurn(a, rules, t);
    if r in rules[1..] { TailAbove(rules, r); }
    assert StepOn(a, m, r, t);
    forall s | Admits(a, s, r, t) ensures SoleScope(a, s, t) == MergesInto(a, rules, s, r, t) { SoleScopeIs(a, s, t); }
    assert Scoped(a, t) <==> exists x :: OwnsAtTurn(a, rules, x, r, t);
  }

  lemma ScopesLater(a: Db, m: Db, b: Db, rules: seq<int>, t: int)
    requires rules != [] && SinglesListed(a, rules) && HeadStep(a, m, rules[0])
    requires BesideAll(m, b, rules[1..]) && ScopesOutcome(m, b, rules[1..], t)
    ensures ScopesOutcome(a, b, rules, t)
  {
    var h := rules[0];
    HeadOwners(a, m, h, t);
    forall x | x in a.scopes ensures b.Owns(x, t) <==> a.Owns(x, t) || exists q :: TakesFrom(a, rules, x, q, t) {
      SomeTakesLater(a, m, rules, x, t);
    }
    forall x, q | TakesFrom(a, rules, x, q, t) && t in a.traffic
      ensures Key(x, t) in b.clients && b.clients[Key(x, t)] == Account(a, q, t)
    {
      TookAccount(a, m, b, rules, x, q, t);
    }
  }

  lemma TookAccount(a: Db, m: Db, b: Db, rules: seq<int>, x: int, q: int, t: int)
    requires rules != [] && SinglesListed(a, rules) && HeadStep(a, m, rules[0]) && t in a.traffic
    requires BesideAll(m, b, rules[1..]) && ScopesOutcome(m, b, rules[1..], t)
    requires TakesFrom(a, rules, x, q, t)
    ensures Key(x, t) in b.clients && b.clients[Key(x, t)] == Account(a, q, t)
  {
    var h := rules[0];
    TakesLater(a, m, rules, x, q, t);
    HeadOwners(a, m, h, t);
    if TakesFrom(m, rules[1..], x, q, t) {
      TailAbove(rules, q);
      assert q in rules;
      StandsLater(a, m, h, q);
    } else {
      assert x in a.scopes && forall r :: r in rules[1..] ==> r in rules;
      assert Key(x, t).rule !in rules[1..];
    }
  }

  lemma {:induction false} RunExactly(a: Db, scopes: seq<int>, rules: seq<int>, now: int)
    requires SinglesListed(a, rules) && Listing(a, scopes)
    ensures BesideAll(a, SingleRules(a, scopes, rules, now, false).0, rules)
    ensures RunOutcome(a, SingleRules(a, scopes, rules, now, false).0, rules)
    decreases |rules|
  {
    SurvivorsExactly(a, scopes, rules, now);
    if rules != [] {
      var h, tail := rules[0], rules[1..];
      assert h in rules && forall x :: x in rules <==> x == h || x in tail;
      var m := SingleRule(a, scopes, h, now, false).0;
      var b := SingleRules(m, scopes, tail, now, false).0;
      StepExactly(a, scopes, h, now);
      TailListed(a, m, scopes, rules);
      RunExactly(m, scopes, tail, now);
      RunJoins(a, m, b, rules);
    }
  }

  lemma TailListed(a: Db, m: Db, scopes: seq<int>, rules: seq<int>)
    requires rules != [] && SinglesListed(a, rules) && HeadStep(a, m, rules[0]) && Listing(a, scopes)
    ensures SinglesListed(m, rules[1..]) && Listing(m, scopes)
  {
    var h := rules[0];
    forall x | x in rules[1..] ensures IsSingle(m, x) {
      TailAbove(rules, x);
      assert x in rules;
      SamePlace(a, m, h, x);
    }
    forall s ensures Persistent(m, s) == Persistent(a, s) {}
  }

  lemma NotedLater(a: Db, m: Db, b: Db, h: int, r: int)
    requires Beside(a, m, h) && r != h && r !in a.scopes && Noted(m, b, r)
    ensures Noted(a, b, r)
  {
    forall k: Key | k.rule == r ensures k in m.clients <==> k in a.clients {}
    forall u | Key(r, u) in a.clients
      ensures m.clients[Key(r, u)] == a.clients[Key(r, u)]
    {
      assert Key(r, u).rule == r;
    }
  }

  lemma NotedStays(a: Db, m: Db, b: Db, tail: seq<int>, h: int)
    requires Noted(a, m, h) && BesideAll(m, b, tail) && h !in tail
    ensures Noted(a, b, h)
  {
    forall u | Key(h, u) in m.clients ensures Key(h, u) in b.clients && b.clients[Key(h, u)] == m.clients[Key(h, u)] {
      assert Key(h, u).rule == h;
    }
  }

  lemma OffJoins(a: Db, m: Db, b: Db, rules: seq<int>, r: int)
    requires rules != [] && SinglesListed(a, rules) && HeadStep(a, m, rules[0])
    requires BesideAll(m, b, rules[1..]) && RunOutcome(m, b, rules[1..])
    requires r in rules && forall t :: !Stands(a, r, t)
    ensures r in b.rules && b.rules[r].state == Orphaned && Noted(a, b, r)
  {
    var h := rules[0];
    assert h in rules && forall x :: x in rules <==> x == h || x in rules[1..];
    if h in rules[1..] { TailAbove(rules, h); }
    if r == h {
      NotedStays(a, m, b, rules[1..], h);
    } else {
      assert IsSingle(a, r);
      StandsLater(a, m, h, r);
      NotedLater(a, m, b, h, r);
    }
  }

  lemma RunJoins(a: Db, m: Db, b: Db, rules: seq<int>)
    requires rules != [] && SinglesListed(a, rules) && HeadStep(a, m, rules[0])
    requires BesideAll(m, b, rules[1..]) && RunOutcome(m, b, rules[1..])
    ensures RunOutcome(a, b, rules)
  {
    var h := rules[0];
    assert h in rules && forall x :: x in rules <==> x == h || x in rules[1..];
    if h in rules[1..] { TailAbove(rules, h); }
    forall r | r in rules && (forall t :: !Stands(a, r, t))
      ensures r in b.rules && b.rules[r].state == Orphaned && Noted(a, b, r)
    {
      OffJoins(a, m, b, rules, r);
    }
    forall r | r in rules[1..] ensures r != h && r !in a.scopes && forall t :: Stands(m, r, t) == Stands(a, r, t) {
      TailAbove(rules, r);
      assert IsSingle(a, r);
      StandsLater(a, m, h, r);
    }
    forall r, t | r in rules && Stands(a, r, t) ensures RuleOutcome(a, b, rules, r, t) {
      if r == h { HeadOutcome(a, m, b, rules, t); } else { OutcomeLater(a, m, b, rules, r, t); }
    }
    forall t ensures ScopesOutcome(a, b, rules, t) { ScopesLater(a, m, b, rules, t); }
  }

  /**
   * After a real reconcile, a listed rule that stands on a row is merged exactly when some scope admits it and no
   * other scope owns the row at its turn; else it is orphaned exactly when the row is disabled or owned; else it is
   * as it was, its client in place. A rule that stands nowhere is orphaned, and one that is not listed is left alone.
   */
  lemma ReconcileExactly(a: Db, inbound: Option<int>, now: int)
    requires now > 0
    ensures Reconcile(a, inbound, now, false).Ok?
    ensures var b, rules := Reconcile(a, inbound, now, false).value.0, ListSingles(a, inbound);
            && RunOutcome(a, b, rules) && b.traffic == a.traffic && b.members == a.members && b.scopes == a.scopes
            && (forall r :: r in rules <==> r in a.rules && a.rules[r].state == Active && r !in a.scopes
                                            && (inbound.Some? ==> a.rules[r].inboundId == inbound.value))
            && b.rules.Keys == a.rules.Keys && (forall r :: r in a.rules && r !in rules ==> b.rules[r] == a.rules[r])
            && (forall r :: r in a.rules ==> b.rules[r] == a.rules[r] || EndsNow(a.rules[r], b.rules[r], now))
            && (forall k: Key :: k in a.clients && k.rule !in rules ==> k in b.clients && b.clients[k] == a.clients[k])
  {
    PersistentListing(a);
    ListedSingles(a, inbound);
    RunExactly(a, ListPersistentScopes(a), ListSingles(a, inbound), now);
    var m := Rules(a, inbound, now, false).0;
    PoliciesBeside(a, m, Policies(m, inbound, now, false), ListSingles(a, inbound));
    forall r ensures r in ListSingles(a, inbound) <==> r in SingleIds(a, inbound) {}
    forall r | r in a.rules ensures r in m.rules && (m.rules[r] == a.rules[r] || EndsNow(a.rules[r], m.rules[r], now)) {
      SingleRulesEnd(a, ListPersistentScopes(a), ListSingles(a, inbound), now, r);
    }
  }

  lemma PoliciesBeside(a: Db, m: Db, b: Db, rules: seq<int>)
    requires RunOutcome(a, m, rules) && b == m.(excludes := b.excludes, overrides := b.overrides)
    ensures RunOutcome(a, b, rules)
  {
    forall r, t | r in rules && Stands(a, r, t)
      ensures RuleOutcome(a, b, rules, r, t)
    {
      assert RuleOutcome(a, m, rules, r, t);
    }
    forall t ensures ScopesOutcome(a, b, rules, t) {
      assert ScopesOutcome(a, m, rules, t);
      forall x ensures b.Owns(x, t) == m.Owns(x, t) {}
    }
  }
}
