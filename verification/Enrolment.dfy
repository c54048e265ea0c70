/**
 * Whom an enrolment takes, told from the tables before it: a free row goes to the first scope whose filter it passes.
 */
module Enrolment {
  import opened Collections
  import opened Model
  import opened Baselines
  import opened Reconciling
  import opened ReconcileProofs
  import opened ReconcileTheorems
  import opened Ticking
  import opened EnrolProofs

  /** A client of the panel passes a filter of limit, activity and inbound. */
  predicate Passes(db: Db, t: int, inbound: Option<int>, limitedOnly: bool, includeDisabled: bool) {
    && t in db.traffic && db.traffic[t].email != ""
    && (db.traffic[t].enable || includeDisabled)
    && (limitedOnly ==> db.traffic[t].total > 0)
    && (inbound.Some? ==> (db.traffic[t].email, inbound.value) in db.members)
  }

  /** The active scope takes new clients, and its filter lets the row's client pass. */
  predicate Wants(db: Db, s: int, t: int) {
    && s in db.scopes && s in db.rules && db.rules[s].state == Active && !db.scopes[s].once
    && Passes(db, t, db.scopes[s].inboundId, db.scopes[s].limitedOnly, db.scopes[s].includeDisabled)
  }

  /** No active rule has a client on the row. */
  predicate Free(db: Db, t: int) {
    forall k :: k in db.clients && k.traffic == t ==> !(k.rule in db.rules && db.rules[k.rule].state == Active)
  }

  lemma FreeUnowned(db: Db, t: int)
    ensures Free(db, t) <==> forall x :: !db.Owns(x, t)
  {
    if Free(db, t) {
      forall x ensures !db.Owns(x, t) {
        if Key(x, t) in db.clients { assert Key(x, t).traffic == t; }
      }
    }
    if forall x :: !db.Owns(x, t) {
      forall k | k in db.clients && k.traffic == t ensures !db.Active(k.rule) {
        assert k == Key(k.rule, t) && !db.Owns(k.rule, t);
      }
    }
  }

  // Candidates --------------------------------------------------------------

  lemma CandidatesPass(db: Db, inbound: Option<int>, limitedOnly: bool, includeDisabled: bool, t: int)
    ensures t in ClientCandidates(db, inbound, limitedOnly, includeDisabled) <==>
            Passes(db, t, inbound, limitedOnly, includeDisabled)
  {
    var ts := set u | u in db.traffic && FilterAdmits(db, inbound, limitedOnly, includeDisabled, u);
    SameMembers(ClientCandidates(db, inbound, limitedOnly, includeDisabled), Ascending(ts));
    assert t in Ascending(ts) <==> t in ts;
  }

  lemma ScopeWants(db: Db, s: int, t: int)
    requires s in db.scopes && db.Active(s) && !db.scopes[s].once
    ensures t in ScopeCandidates(db, s) <==> Wants(db, s, t)
  {
    CandidatesPass(db, db.scopes[s].inboundId, db.scopes[s].limitedOnly, db.scopes[s].includeDisabled, t);
  }

  // One row ---------------------------------------------------------------

  /** What became of row t: nothing, or - it was free - the scope s took it afresh. */
  ghost predicate RowTaken(a: Db, b: Db, t: int, s: int, taken: bool) {
    && (forall x :: b.Owns(x, t) <==> a.Owns(x, t) || (taken && x == s))
    && (taken ==> Free(a, t) && Afresh(b, Key(s, t)))
  }

  lemma EnrolOthers(db: Db, s: int, t: int)
    requires db.Active(s)
    ensures OtherOwners(db, t, s) == {} <==> forall x :: db.Owns(x, t) ==> x == s
  {
    forall x ensures x in OtherOwners(db, t, s) <==> db.Owns(x, t) && x != s {
      if db.Owns(x, t) { assert Key(x, t) in db.clients; }
    }
    if OtherOwners(db, t, s) == {} { forall x | db.Owns(x, t) ensures x == s { assert x !in OtherOwners(db, t, s); } }
    if forall x :: db.Owns(x, t) ==> x == s { assert forall x :: x !in OtherOwners(db, t, s); }
  }

  lemma EnrolHere(a: Db, s: int, t: int, now: int)
    requires s in a.scopes && a.Active(s)
    ensures RowTaken(a, EnrolClient(a, s, t, now), t, s, Free(a, t) && t in a.traffic)
  {
    EnrolOthers(a, s, t);
    FreeUnowned(a, t);
  }

  lemma EnrolElsewhere(a: Db, s: int, u: int, now: int, t: int)
    requires u != t
    ensures RowTaken(a, EnrolClient(a, s, u, now), t, s, false)
    ensures forall x :: Key(x, t) in a.clients ==> EnrolClient(a, s, u, now).clients[Key(x, t)] == a.clients[Key(x, t)]
  {
    assert forall x: int :: Key(x, t).traffic == t;
  }

  lemma TakenThen(a: Db, m: Db, b: Db, t: int, s: int, first: bool, second: bool)
    requires RowTaken(a, m, t, s, first) && RowTaken(m, b, t, s, second) && Grew(m, b)
    ensures RowTaken(a, b, t, s, first || second)
  {
    FreeUnowned(a, t);
    FreeUnowned(m, t);
    if first { assert m.Owns(s, t) || Key(s, t) in m.clients; assert b.clients[Key(s, t)] == m.clients[Key(s, t)]; }
  }

  lemma {:induction false} EnrolAll(a: Db, s: int, us: seq<int>, now: int, t: int)
    requires s in a.scopes && a.Active(s)
    ensures RowTaken(a, EnrolClients(a, s, us, now), t, s, Free(a, t) && t in a.traffic && t in us)
    decreases |us|
  {
    if us != [] {
      var m := EnrolClient(a, s, us[0], now);
      var b := EnrolClients(m, s, us[1..], now);
      EnrolClientFacts(a, s, us[0], now);
      EnrolClientsFacts(m, s, us[1..], now);
      EnrolAll(m, s, us[1..], now, t);
      if us[0] == t { EnrolHere(a, s, t, now); } else { EnrolElsewhere(a, s, us[0], now, t); }
      FreeUnowned(a, t);
      FreeUnowned(m, t);
      assert t in us <==> t == us[0] || t in us[1..];
      TakenThen(a, m, b, t, s, us[0] == t && Free(a, t) && t in a.traffic, Free(m, t) && t in m.traffic
          && t in us[1..]);
    }
  }

  // All scopes --------------------------------------------------------------

  /** The first of the listed scopes that wants the row. */
  ghost predicate FirstOf(db: Db, scopes: seq<int>, s: int, t: int) {
    s in scopes && Wants(db, s, t) && forall z :: z in scopes && Wants(db, z, t) ==> s <= z
  }

  /** After the listed scopes enrolled: owners as before, and on a free row its first wanting scope. */
  ghost predicate Enrolled(a: Db, b: Db, scopes: seq<int>, t: int) {
    && (forall x :: b.Owns(x, t) <==> a.Owns(x, t) || (Free(a, t) && FirstOf(a, scopes, x, t)))
    && (forall x :: Free(a, t) && FirstOf(a, scopes, x, t) ==> Afresh(b, Key(x, t)))
  }

  lemma WantsSame(a: Db, m: Db)
    requires Grew(a, m)
    ensures forall z, t :: Wants(m, z, t) == Wants(a, z, t)
  {
  }

  lemma FirstSplit(a: Db, scopes: seq<int>, t: int, x: int)
    requires scopes != [] && Increasing(scopes)
    ensures FirstOf(a, scopes, x, t) <==>
            if Wants(a, scopes[0], t) then x == scopes[0] else FirstOf(a, scopes[1..], x, t)
  {
    assert forall z :: z in scopes <==> z == scopes[0] || z in scopes[1..];
    forall z | z in scopes[1..] ensures scopes[0] < z { TailAbove(scopes, z); }
  }

  lemma EnrolledStep(a: Db, m: Db, b: Db, scopes: seq<int>, t: int)
    requires scopes != [] && Increasing(scopes) && Grew(a, m) && Grew(m, b)
    requires RowTaken(a, m, t, scopes[0], Free(a, t) && Wants(a, scopes[0], t)) && Enrolled(m, b, scopes[1..], t)
    ensures Enrolled(a, b, scopes, t)
  {
    WantsSame(a, m);
    FreeUnowned(a, t);
    FreeUnowned(m, t);
    forall x ensures FirstOf(m, scopes[1..], x, t) == FirstOf(a, scopes[1..], x, t) {}
    forall x
      ensures FirstOf(a, scopes, x, t) <==>
              if Wants(a, scopes[0], t) then x == scopes[0] else FirstOf(a, scopes[1..], x, t)
    {
      FirstSplit(a, scopes, t, x);
    }
    if Free(a, t) && Wants(a, scopes[0], t) {
      assert m.Owns(scopes[0], t) && b.clients[Key(scopes[0], t)] == m.clients[Key(scopes[0], t)];
    }
  }

  lemma {:induction false} EnrolScopesExactly(a: Db, scopes: seq<int>, now: int, t: int)
    requires Increasing(scopes) && forall s :: s in scopes ==> s in a.scopes && a.Active(s) && !a.scopes[s].once
    ensures Enrolled(a, EnrolScopes(a, scopes, now), scopes, t)
    decreases |scopes|
  {
    if scopes != [] {
      var s := scopes[0];
      assert s in scopes && forall z :: z in scopes[1..] ==> z in scopes;
      var us := ScopeCandidates(a, s);
      var m := EnrolClients(a, s, us, now);
      EnrolClientsFacts(a, s, us, now);
      EnrolScopesFacts(m, scopes[1..], now);
      EnrolAll(a, s, us, now, t);
      ScopeWants(a, s, t);
      EnrolScopesExactly(m, scopes[1..], now, t);
      EnrolledStep(a, m, EnrolScopes(m, scopes[1..], now), scopes, t);
    }
  }

  /** The first active non-once scope, by id, whose filter the row passes. */
  ghost predicate FirstWanting(db: Db, s: int, t: int) {
    Wants(db, s, t) && forall z :: Wants(db, z, t) ==> s <= z
  }

  /** What an enrolment makes of the owners of every row, and of the client table. */
  ghost predicate EnrolledExactly(a: Db, b: Db) {
    && (forall x, t :: b.Owns(x, t) <==> a.Owns(x, t) || (Free(a, t) && FirstWanting(a, x, t)))
    && (forall x, t :: Free(a, t) && FirstWanting(a, x, t) ==> Afresh(b, Key(x, t)))
  }

  lemma PersistentListed(a: Db)
    ensures var scopes := ListPersistentScopes(a);
            && Increasing(scopes) && (forall s :: s in scopes ==> s in a.scopes && a.Active(s) && !a.scopes[s].once)
            && forall s, t :: Wants(a, s, t) ==> s in scopes
  {
    var ids := PersistentIds(a);
    forall s | s in ListPersistentScopes(a)
      ensures s in a.scopes && a.Active(s) && !a.scopes[s].once
    {
      assert s in ids;
    }
    forall s, t | Wants(a, s, t) ensures s in ListPersistentScopes(a) { assert s in ids; }
  }

  lemma EnrolsRow(a: Db, now: int, t: int)
    ensures var b := Enrol(a, now);
            && (forall x :: b.Owns(x, t) <==> a.Owns(x, t) || (Free(a, t) && FirstWanting(a, x, t)))
            && (forall x :: Free(a, t) && FirstWanting(a, x, t) ==> Afresh(b, Key(x, t)))
  {
    var scopes := ListPersistentScopes(a);
    PersistentListed(a);
    EnrolScopesExactly(a, scopes, now, t);
    FirstListed(a, Enrol(a, now), scopes, t);
  }

  lemma FirstListed(a: Db, b: Db, scopes: seq<int>, t: int)
    requires Enrolled(a, b, scopes, t) && forall s :: Wants(a, s, t) ==> s in scopes
    ensures forall x :: b.Owns(x, t) <==> a.Owns(x, t) || (Free(a, t) && FirstWanting(a, x, t))
    ensures forall x :: Free(a, t) && FirstWanting(a, x, t) ==> Afresh(b, Key(x, t))
  {
    assert forall x :: FirstOf(a, scopes, x, t) == FirstWanting(a, x, t);
  }

  /**
   * After an enrolment a rule owns a row exactly when it did before, or the row was free and the rule is the first
   * active non-once scope whose filter the row passes; that scope's client starts afresh from the row.
   */
  lemma EnrolsExactly(a: Db, now: int)
    ensures EnrolledExactly(a, Enrol(a, now))
  {
    forall x, t
      ensures Enrol(a, now).Owns(x, t) <==> a.Owns(x, t) || (Free(a, t) && FirstWanting(a, x, t))
    {
      EnrolsRow(a, now, t);
    }
    forall x, t | Free(a, t) && FirstWanting(a, x, t) ensures Afresh(Enrol(a, now), Key(x, t)) { EnrolsRow(a, now, t); }
  }

  lemma RowOwnedExactly(a: Db, b: Db, t: int)
    requires EnrolledExactly(a, b)
    ensures (exists x :: b.Owns(x, t)) <==> (exists x :: a.Owns(x, t)) || exists s :: Wants(a, s, t)
  {
    FreeUnowned(a, t);
    if s :| Wants(a, s, t) {
      if Free(a, t) {
        var first := LeastWanting(a, t, s);
        assert b.Owns(first, t);
      } else {
        var x :| a.Owns(x, t);
        assert b.Owns(x, t);
      }
    }
    if x :| a.Owns(x, t) { assert b.Owns(x, t); }
  }

  lemma LeastWanting(a: Db, t: int, s: int) returns (first: int)
    requires Wants(a, s, t)
    ensures FirstWanting(a, first, t)
  {
    var all := set z | z in a.scopes && Wants(a, z, t);
    assert s in all;
    first := Min(all);
    forall z | Wants(a, z, t) ensures first <= z { assert z in all; }
  }

  // Ticks -----------------------------------------------------------------

  lemma WantsKept(a: Db, m: Db, rules: seq<int>)
    requires BesideAll(a, m, rules) && forall r :: r in rules ==> IsSingle(a, r)
    ensures forall s, t :: Wants(m, s, t) == Wants(a, s, t)
  {
    forall s, t ensures Wants(m, s, t) == Wants(a, s, t) {
      if s in a.scopes && s in a.rules { assert s !in rules; }
    }
  }

  /**
   * In what a tick decides on, a row has an owner exactly when the reconcile left it one or some scope of the tick's
   * start wants it.
   */
  lemma PreparedEnrols(a: Db, now: int, t: int)
    requires now > 0
    ensures Reconcile(a, None, now, false).Ok? && Prepared(a, now).Ok?
    ensures var m, b := Reconcile(a, None, now, false).value.0, Prepared(a, now).value;
            && ((exists x :: b.Owns(x, t)) <==> (exists x :: m.Owns(x, t)) || exists s :: Wants(a, s, t))
            && (forall s :: Free(m, t) && FirstWanting(a, s, t) ==> b.Owns(s, t) && Afresh(b, Key(s, t)))
  {
    var m0 := Rules(a, None, now, false).0;
    var m := Policies(m0, None, now, false);
    RulesOutcome(a, None, now);
    ListedSingles(a, None);
    WantsKept(a, m0, ListSingles(a, None));
    assert forall s, t :: Wants(m, s, t) == Wants(m0, s, t);
    EnrolsExactly(m, now);
    RowOwnedExactly(m, Enrol(m, now), t);
    assert (exists s :: Wants(m, s, t)) <==> exists s :: Wants(a, s, t);
    forall s | FirstWanting(a, s, t) ensures FirstWanting(m, s, t) {}
  }

  /**
   * A row that no active rule owns and no active single-user rule resolves to is under its first wanting scope in the
   * very next tick.
   */
  lemma NewRowIsEnrolled(a: Db, now: int, t: int, s: int)
    requires now > 0 && Free(a, t) && FirstWanting(a, s, t)
    requires forall r :: IsSingle(a, r) ==> !ResolvesTo(a, r, t)
    ensures Prepared(a, now).Ok? && Prepared(a, now).value.Owns(s, t) && Afresh(Prepared(a, now).value, Key(s, t))
  {
    PreparedEnrols(a, now, t);
    StaysFree(a, now, t);
  }

  lemma StaysFree(a: Db, now: int, t: int)
    requires now > 0 && Free(a, t) && forall r :: IsSingle(a, r) ==> !ResolvesTo(a, r, t)
    ensures Free(Reconcile(a, None, now, false).value.0, t)
  {
    var b := Rules(a, None, now, false).0;
    RulesOutcome(a, None, now);
    ListedSingles(a, None);
    FreeUnowned(a, t);
    forall x ensures !b.Owns(x, t) { UnownedStays(a, b, t, x, ListPersistentScopes(a), ListSingles(a, None)); }
    FreeUnowned(Policies(b, None, now, false), t);
    forall x ensures !Policies(b, None, now, false).Owns(x, t) { assert !b.Owns(x, t); }
  }

  lemma UnownedStays(a: Db, b: Db, t: int, x: int, scopes: seq<int>, rules: seq<int>)
    requires BesideAll(a, b, rules) && (forall r :: r in rules ==> IsSingle(a, r) && !ResolvesTo(a, r, t))
             && forall y :: !a.Owns(y, t)
    requires forall r :: r in rules && b.Active(r) ==> exists t :: ResolvesTo(a, r, t) && Seated(b, r, t)
    requires forall t :: Scoped(b, t) <==> Scoped(a, t) || AdmittedOn(a, scopes, rules, t)
    ensures !b.Owns(x, t)
  {
    assert !Scoped(a, t) && !Scoped(b, t);
    if b.Owns(x, t) { OwnerAfter(a, b, scopes, rules, x, t); }
  }
}
