/** What reconcile achieves: who survives, one owner per row, a fixpoint, and a faithful dry run. */
module ReconcileProofs {
  import opened Collections
  import opened Model
  import opened PolicyTable
  import opened Baselines
  import opened Reconciling

  // One rule --------------------------------------------------------------

  /** Some active scope is materialised on the row. */
  predicate Scoped(db: Db, t: int) {
    exists x :: x in db.scopes && db.Owns(x, t)
  }

  /** Some listed scope matches the rule's client on the row. */
  predicate Admitted(db: Db, scopes: seq<int>, r: int, t: int) {
    exists s :: s in scopes && s != r && ScopeAdmits(db, s, r, t)
  }

  /** The listed scopes are active persistent ones. */
  ghost predicate ScopesListed(db: Db, scopes: seq<int>) {
    forall s :: s in scopes ==> s in db.scopes && db.Active(s)
  }

  predicate IsSingle(db: Db, r: int) {
    db.Active(r) && r !in db.scopes
  }

  /** The rule's one client is live on the row, with the row's email and inbound. */
  ghost predicate Seated(db: Db, r: int, t: int) {
    && t in db.traffic && Key(r, t) in db.clients
    && db.clients[Key(r, t)].email == db.traffic[t].email
    && db.clients[Key(r, t)].inboundId == db.traffic[t].inboundId
    && db.clients[Key(r, t)].missingAt.None?
    && forall k :: k in db.clients && k.rule == r ==> k.traffic == t
  }

  /** Everything but rule r, its clients, and new clients of scopes is as it was. */
  ghost predicate Beside(a: Db, b: Db, r: int) {
    && b.traffic == a.traffic && b.members == a.members && b.scopes == a.scopes
    && b.excludes == a.excludes && b.overrides == a.overrides
    && b.nextRule == a.nextRule && b.nextExclude == a.nextExclude && b.nextOverride == a.nextOverride
    && b.rules.Keys == a.rules.Keys
    && (forall x :: x in a.rules && x != r ==> b.rules[x] == a.rules[x])
    && (r in a.rules ==> b.rules[r].factorPpm == a.rules[r].factorPpm && b.rules[r].inboundId == a.rules[r].inboundId
                         && b.rules[r].email == a.rules[r].email)
    && (b.Active(r) ==> b.rules == a.rules)
    && (forall k: Key :: k.rule != r && k in a.clients ==> k in b.clients && b.clients[k] == a.clients[k])
    && (forall k: Key :: k.rule != r && k in b.clients && k !in a.clients ==> k.rule in a.scopes)
  }

  ghost predicate SameKeys(a: Db, b: Db) {
    forall k :: k in b.clients <==> k in a.clients
  }

  lemma OrphanFacts(a: Db, r: int, now: int)
    requires r in a.rules
    ensures var b := Orphan(a, r, now); Beside(a, b, r) && !b.Active(r) && b.clients == a.clients
  {
  }

  lemma NoteMissingFacts(a: Db, k: Key, now: int)
    ensures var b := NoteMissing(a, k, now);
            && b == a.(clients := b.clients, events := b.events)
            && b.clients.Keys == a.clients.Keys
            && (forall j :: j in a.clients && j != k ==> b.clients[j] == a.clients[j])
            && (forall j :: j in a.clients ==> SameAccount(a.clients[j], b.clients[j])
                                               && (b.clients[j].missingAt.None? ==> b.clients[j] == a.clients[j]))
  {
  }

  lemma SoleClient(db: Db, r: int)
    requires PlaceOf(db, r).Here? || PlaceOf(db, r).Follow? || PlaceOf(db, r).Gone? || PlaceOf(db, r).Renamed?
    ensures var t := PlaceOf(db, r).t;
            && Key(r, t) in db.clients
            && (forall k :: k in db.clients && k.rule == r ==> k.traffic == t)
            && (PlaceOf(db, r).Here? ==> t in db.traffic && db.traffic[t].email == db.clients[Key(r, t)].email)
            && (PlaceOf(db, r).Follow? ==> t !in db.traffic && PlaceOf(db, r).row in db.traffic
                                           && db.traffic[PlaceOf(db, r).row].email == db.clients[Key(r, t)].email)
  {
    var ts := db.ClientsOf(r);
    var t := Min(ts);
    assert ts == {t} by { assert |ts - {t}| == 0; }
    assert t in ts;
    forall k | k in db.clients && k.rule == r ensures k.traffic == t {
      assert k.traffic in ts;
    }
  }

  ghost predicate PutInPlace(a: Db, b: Db, r: int, t: int) {
    && b == a.(clients := b.clients, events := b.events)
    && Seated(b, r, t)
    && (forall k: Key :: k.rule != r ==> (k in b.clients <==> k in a.clients))
    && (forall k: Key :: k.rule != r && k in a.clients ==> b.clients[k] == a.clients[k])
  }

  lemma FollowedFacts(a: Db, r: int, t: int, row: int, now: int)
    requires PlaceOf(a, r) == Follow(t, row)
    ensures PutInPlace(a, Placed(a, r, Follow(t, row), now), r, row)
  {
    SoleClient(a, r);
    var b := Placed(a, r, Follow(t, row), now);
    assert b.clients == Moved(a.clients, Key(r, t), Key(r, row), FreshClient(a.traffic[row]));
  }

  lemma HereFacts(a: Db, r: int, t: int, now: int)
    requires PlaceOf(a, r) == Here(t)
    ensures PutInPlace(a, Placed(a, r, Here(t), now), r, t)
  {
    SoleClient(a, r);
  }

  lemma PlacedFacts(a: Db, r: int, now: int)
    requires RowOf(PlaceOf(a, r)).Some?
    ensures PutInPlace(a, Placed(a, r, PlaceOf(a, r), now), r, RowOf(PlaceOf(a, r)).value)
  {
    match PlaceOf(a, r)
    case Follow(t, row) => FollowedFacts(a, r, t, row, now);
    case Here(t) => HereFacts(a, r, t, now);
  }

  lemma SameScoped(a: Db, b: Db, r: int, t: int)
    requires r !in a.scopes && b.scopes == a.scopes && b.rules == a.rules
    requires forall k: Key :: k.rule != r ==> (k in b.clients <==> k in a.clients)
    ensures Scoped(b, t) == Scoped(a, t)
    ensures forall x :: x in a.scopes ==> b.ScopeOn(t, x) == a.ScopeOn(t, x)
  {
    forall x: int ensures x in a.scopes ==> b.Owns(x, t) == a.Owns(x, t) {
      assert x in a.scopes ==> Key(x, t).rule != r;
    }
  }

  lemma {:induction false} CompatibleFacts(db: Db, scopes: seq<int>, r: int, t: int)
    ensures match CompatibleScope(db, scopes, r, t)
            case Some(s) => s in scopes && s != r && ScopeAdmits(db, s, r, t) && !db.ScopeOn(t, s)
            case None => forall s :: s in scopes && s != r && ScopeAdmits(db, s, r, t) ==> db.ScopeOn(t, s)
  {
    if scopes != [] {
      CompatibleFacts(db, scopes[1..], r, t);
    }
  }

  lemma JoinFacts(a: Db, s: int, r: int, t: int, now: int)
    requires r in a.rules && s in a.scopes && s != r && a.Active(s) && Key(r, t) in a.clients
    ensures var b := JoinScope(a, s, r, t, now);
            && Beside(a, b, r) && !b.Active(r) && b.Owns(s, t)
            && b.clients == if Key(s, t) in a.clients then a.clients else a.clients[Key(s, t) := a.clients[Key(r, t)]]
  {
  }

  /** What one real step decides about its rule, told from the tables before it. */
  ghost predicate Fate(a: Db, b: Db, scopes: seq<int>, r: int) {
    match RowOf(PlaceOf(a, r))
    case None => !b.Active(r) && SameKeys(a, b)
    case Some(t) =>
      && t in a.traffic
      && (b.Active(r) <==> a.traffic[t].enable && !Scoped(a, t) && !Admitted(a, scopes, r, t))
      && (b.Active(r) ==> Seated(b, r, t))
      && (forall k :: k in b.clients && k.rule == r ==> k.traffic == t)
      && (Scoped(b, t) <==> Scoped(a, t) || Admitted(a, scopes, r, t))
      && (forall u :: u != t ==> Scoped(b, u) == Scoped(a, u))
      && (forall x, u :: x in a.scopes && Key(x, u) in b.clients && Key(x, u) !in a.clients ==>
                         u == t && x in scopes && !a.ScopeOn(t, x))
      && (forall x, y :: NewKey(a, b, Key(x, t)) && NewKey(a, b, Key(y, t)) && x in a.scopes && y in a.scopes ==>
                         x == y)
  }

  predicate NewKey(a: Db, b: Db, k: Key) {
    k in b.clients && k !in a.clients
  }

  lemma ScopedUnchanged(a: Db, b: Db, u: int)
    requires b.scopes == a.scopes
    requires forall x :: x in a.scopes ==> b.Owns(x, u) == a.Owns(x, u)
    ensures Scoped(b, u) == Scoped(a, u)
  {
  }

  lemma OrphanFate(a: Db, p: Db, scopes: seq<int>, r: int, t: int, now: int)
    requires IsSingle(a, r) && RowOf(PlaceOf(a, r)) == Some(t) && PutInPlace(a, p, r, t)
    requires !a.traffic[t].enable || Scoped(a, t)
    requires !Admitted(a, scopes, r, t) || Scoped(a, t)
    ensures var b := Orphan(p, r, now); Beside(a, b, r) && Fate(a, b, scopes, r)
  {
    OrphanFacts(p, r, now);
    OrphanEnds(a, p, Orphan(p, r, now), scopes, r, t, now);
  }

  lemma StayFate(a: Db, p: Db, scopes: seq<int>, r: int, t: int)
    requires IsSingle(a, r) && RowOf(PlaceOf(a, r)) == Some(t) && PutInPlace(a, p, r, t)
    requires a.traffic[t].enable && !Scoped(a, t) && !Admitted(a, scopes, r, t)
    ensures Beside(a, p, r) && Fate(a, p, scopes, r)
  {
    forall u ensures Scoped(p, u) == Scoped(a, u) { SameScoped(a, p, r, u); }
  }

  lemma ConcludeFate(a: Db, p: Db, scopes: seq<int>, r: int, t: int, repaired: bool, now: int)
    requires IsSingle(a, r) && ScopesListed(a, scopes) && RowOf(PlaceOf(a, r)) == Some(t)
    requires PutInPlace(a, p, r, t)
    ensures var b := Conclude(p, scopes, r, t, repaired, now, false).0; Beside(a, b, r) && Fate(a, b, scopes, r)
  {
    CompatibleFacts(p, scopes, r, t);
    SameScoped(a, p, r, t);
    forall s ensures ScopeAdmits(a, s, r, t) == ScopeAdmits(p, s, r, t) {}
    assert Scoped(p, t) == p.ScopeOn(t, r);
    match VerdictOn(p, scopes, r, t) {
      case Join(s) => JoinFate(a, p, scopes, r, t, s, now);
      case OrphanDisabled => OrphanFate(a, p, scopes, r, t, now);
      case OrphanOwned => OrphanFate(a, p, scopes, r, t, now);
      case Stay => StayFate(a, p, scopes, r, t);
    }
  }

  lemma JoinFate(a: Db, p: Db, scopes: seq<int>, r: int, t: int, s: int, now: int)
    requires IsSingle(a, r) && ScopesListed(a, scopes) && RowOf(PlaceOf(a, r)) == Some(t) && PutInPlace(a, p, r, t)
    requires s in scopes && s != r && ScopeAdmits(a, s, r, t) && !a.ScopeOn(t, s)
    ensures var b := JoinScope(p, s, r, t, now); Beside(a, b, r) && Fate(a, b, scopes, r)
  {
    var b := JoinScope(p, s, r, t, now);
    JoinFacts(p, s, r, t, now);
    assert b.Owns(s, t) && s in b.scopes && Scoped(b, t) && Admitted(a, scopes, r, t);
    forall u | u != t ensures Scoped(b, u) == Scoped(a, u) {
      SameScoped(a, p, r, u);
      ScopedUnchanged(p, b, u);
    }
  }

  lemma OrphanEnds(a: Db, p: Db, b: Db, scopes: seq<int>, r: int, t: int, now: int)
    requires IsSingle(a, r) && p.rules == a.rules && p.scopes == a.scopes && b == Orphan(p, r, now)
    requires forall k: Key :: k.rule != r ==> (k in p.clients <==> k in a.clients)
    ensures !b.Active(r) && forall u :: Scoped(b, u) == Scoped(a, u)
  {
    OrphanFacts(p, r, now);
    forall u ensures Scoped(b, u) == Scoped(a, u) {
      SameScoped(a, p, r, u);
      ScopedUnchanged(p, b, u);
    }
  }

  lemma SingleRuleFate(a: Db, scopes: seq<int>, r: int, now: int)
    requires IsSingle(a, r) && ScopesListed(a, scopes)
    ensures var b := SingleRule(a, scopes, r, now, false).0; Beside(a, b, r) && Fate(a, b, scopes, r)
  {
    match PlaceOf(a, r) {
      case NoClient => OrphanFacts(a, r, now);
      case ManyClients => OrphanFacts(a, r, now);
      case Gone(t) =>
        NoteMissingFacts(a, Key(r, t), now);
        OrphanFacts(NoteMissing(a, Key(r, t), now), r, now);
      case Renamed(t) =>
        NoteMissingFacts(a, Key(r, t), now);
        OrphanFacts(NoteMissing(a, Key(r, t), now), r, now);
      case Follow(t, row) =>
        SoleClient(a, r);
        PlacedFacts(a, r, now);
        ConcludeFate(a, Placed(a, r, PlaceOf(a, r), now), scopes, r, row, true, now);
      case Here(t) =>
        SoleClient(a, r);
        PlacedFacts(a, r, now);
        ConcludeFate(a, Placed(a, r, PlaceOf(a, r), now), scopes, r, t, MissingHere(a, r, t), now);
    }
  }

  // A run over the listed rules -------------------------------------------

  ghost predicate ScopesOneOwner(db: Db) {
    forall x, y, t :: x in db.scopes && y in db.scopes && db.Owns(x, t) && db.Owns(y, t) ==> x == y
  }

  predicate ResolvesTo(db: Db, r: int, t: int) {
    RowOf(PlaceOf(db, r)) == Some(t)
  }

  /**
   * Rule r stays active on row t: the row is enabled, no active scope owns it, and no rule up to r that resolves to
   * it is admitted by a scope.
   */
  ghost predicate SurvivesOn(db: Db, scopes: seq<int>, rules: seq<int>, r: int, t: int) {
    && r in rules && ResolvesTo(db, r, t)
    && t in db.traffic && db.traffic[t].enable
    && !Scoped(db, t)
    && forall q :: q in rules && q <= r && ResolvesTo(db, q, t) ==> !Admitted(db, scopes, q, t)
  }

  ghost predicate AdmittedOn(db: Db, scopes: seq<int>, rules: seq<int>, t: int) {
    exists q :: q in rules && ResolvesTo(db, q, t) && Admitted(db, scopes, q, t)
  }

  /** Everything but the listed rules, their clients, and new clients of scopes is as it was. */
  ghost predicate BesideAll(a: Db, b: Db, rules: seq<int>) {
    && b.traffic == a.traffic && b.members == a.members && b.scopes == a.scopes
    && b.excludes == a.excludes && b.overrides == a.overrides
    && b.nextRule == a.nextRule && b.nextExclude == a.nextExclude && b.nextOverride == a.nextOverride
    && b.rules.Keys == a.rules.Keys
    && (forall x :: x in a.rules && x !in rules ==> b.rules[x] == a.rules[x])
    && (forall x :: x in a.rules ==> b.rules[x].factorPpm == a.rules[x].factorPpm)
    && (forall x :: b.Active(x) ==> b.rules[x] == a.rules[x])
    && (forall k: Key :: k.rule !in rules && k in a.clients ==> k in b.clients && b.clients[k] == a.clients[k])
    && (forall k: Key :: k.rule !in rules && k in b.clients && k !in a.clients ==> k.rule in a.scopes)
  }

  lemma SamePlace(a: Db, b: Db, h: int, r: int)
    requires Beside(a, b, h) && r != h && r !in a.scopes
    ensures PlaceOf(b, r) == PlaceOf(a, r)
    ensures IsSingle(b, r) == IsSingle(a, r)
    ensures forall t :: MissingHere(b, r, t) == MissingHere(a, r, t)
    ensures forall t :: Seated(a, r, t) ==> Seated(b, r, t)
  {
    forall k: Key | k.rule == r ensures k in b.clients <==> k in a.clients {
      assert k.rule != h;
    }
    assert b.ClientsOf(r) == a.ClientsOf(r);
    forall t ensures Key(r, t) in a.clients ==> b.clients[Key(r, t)] == a.clients[Key(r, t)] {
      assert Key(r, t).rule != h;
    }
    if |a.ClientsOf(r)| == 1 {
      assert Min(a.ClientsOf(r)) in a.ClientsOf(r);
    }
    forall email ensures b.RowByEmail(email) == a.RowByEmail(email) {
      assert b.RowsByEmail(email) == a.RowsByEmail(email);
    }
  }

  lemma SameAdmitted(a: Db, b: Db, scopes: seq<int>, h: int, r: int, t: int)
    requires Beside(a, b, h) && h !in a.scopes && r in a.rules && ScopesListed(a, scopes)
    ensures Admitted(b, scopes, r, t) == Admitted(a, scopes, r, t)
  {
    forall s | s in scopes ensures ScopeAdmits(b, s, r, t) == ScopeAdmits(a, s, r, t) {
    }
  }

  lemma SurvivesAfterHead(a: Db, b: Db, scopes: seq<int>, rules: seq<int>, r: int, t: int)
    requires rules != [] && Increasing(rules) && (forall x :: x in rules ==> IsSingle(a, x))
    requires ScopesListed(a, scopes) && Beside(a, b, rules[0]) && Fate(a, b, scopes, rules[0])
    requires r in rules[1..]
    ensures SurvivesOn(b, scopes, rules[1..], r, t) <==> SurvivesOn(a, scopes, rules, r, t)
  {
    var h := rules[0];
    assert h in rules && IsSingle(a, h);
    assert forall x :: x in rules <==> x == h || x in rules[1..];
    TailAbove(rules, r);
    forall q | q in rules[1..]
      ensures ResolvesTo(b, q, t) == ResolvesTo(a, q, t) && Admitted(b, scopes, q, t) == Admitted(a, scopes, q, t)
    {
      TailAbove(rules, q);
      assert IsSingle(a, q);
      SamePlace(a, b, h, q);
      SameAdmitted(a, b, scopes, h, q, t);
    }
    assert Scoped(b, t) <==> Scoped(a, t) || (ResolvesTo(a, h, t) && Admitted(a, scopes, h, t));
  }

  lemma TailAbove(rules: seq<int>, q: int)
    requires rules != [] && Increasing(rules) && q in rules[1..]
    ensures rules[0] < q
  {
    var i :| 0 <= i < |rules[1..]| && rules[1..][i] == q;
    assert rules[i + 1] == q;
  }

  lemma FirstLeast(rules: seq<int>, q: int)
    requires Increasing(rules) && q in rules
    ensures rules[0] <= q
  {
    var i :| 0 <= i < |rules| && rules[i] == q;
  }

  lemma OneOwnerStep(a: Db, b: Db, scopes: seq<int>, r: int)
    requires IsSingle(a, r) && ScopesListed(a, scopes) && Beside(a, b, r) && Fate(a, b, scopes, r) && ScopesOneOwner(a)
    ensures ScopesOneOwner(b)
  {
    forall x, y, t | x in b.scopes && y in b.scopes && b.Owns(x, t) && b.Owns(y, t) ensures x == y {
      assert Key(x, t).rule != r && Key(y, t).rule != r;
      assert a.Active(x) && a.Active(y);
      if !NewKey(a, b, Key(x, t)) && !NewKey(a, b, Key(y, t)) {
        assert a.Owns(x, t) && a.Owns(y, t);
      } else if NewKey(a, b, Key(x, t)) && NewKey(a, b, Key(y, t)) {
      } else if NewKey(a, b, Key(x, t)) {
        assert a.Owns(y, t);
      } else {
        assert a.Owns(x, t);
      }
    }
  }

  lemma {:induction false} SurvivorsExactly(a: Db, scopes: seq<int>, rules: seq<int>, now: int)
    requires Increasing(rules) && (forall x :: x in rules ==> IsSingle(a, x)) && ScopesListed(a, scopes)
    ensures var b := SingleRules(a, scopes, rules, now, false).0;
            && BesideAll(a, b, rules)
            && (forall r, t :: r in rules && ResolvesTo(a, r, t) ==>
                               (b.Active(r) <==> SurvivesOn(a, scopes, rules, r, t)))
            && (forall r :: r in rules && b.Active(r) ==> exists t :: ResolvesTo(a, r, t) && Seated(b, r, t))
            && (forall t :: Scoped(b, t) <==> Scoped(a, t) || AdmittedOn(a, scopes, rules, t))
            && (ScopesOneOwner(a) ==> ScopesOneOwner(b))
    decreases |rules|
  {
    if rules != [] {
      var h, tail := rules[0], rules[1..];
      assert h in rules && forall x :: x in rules <==> x == h || x in tail;
      var m := SingleRule(a, scopes, h, now, false).0;
      SingleRuleFate(a, scopes, h, now);
      forall x | x in tail ensures IsSingle(m, x) && x != h {
        TailAbove(rules, x);
        SamePlace(a, m, h, x);
      }
      SurvivorsExactly(m, scopes, tail, now);
      HeadThenTail(a, m, SingleRules(m, scopes, tail, now, false).0, scopes, rules);
      if ScopesOneOwner(a) { OneOwnerStep(a, m, scopes, h); }
    }
  }

  lemma HeadThenTail(a: Db, m: Db, b: Db, scopes: seq<int>, rules: seq<int>)
    requires rules != [] && Increasing(rules) && (forall x :: x in rules ==> IsSingle(a, x)) && ScopesListed(a, scopes)
    requires Beside(a, m, rules[0]) && Fate(a, m, scopes, rules[0])
    requires BesideAll(m, b, rules[1..])
    requires forall r, t :: r in rules[1..] && ResolvesTo(m, r, t) ==>
                            (b.Active(r) <==> SurvivesOn(m, scopes, rules[1..], r, t))
    requires forall r :: r in rules[1..] && b.Active(r) ==> exists t :: ResolvesTo(m, r, t) && Seated(b, r, t)
    requires forall t :: Scoped(b, t) <==> Scoped(m, t) || AdmittedOn(m, scopes, rules[1..], t)
    ensures BesideAll(a, b, rules)
    ensures forall r, t :: r in rules && ResolvesTo(a, r, t) ==> (b.Active(r) <==> SurvivesOn(a, scopes, rules, r, t))
    ensures forall r :: r in rules && b.Active(r) ==> exists t :: ResolvesTo(a, r, t) && Seated(b, r, t)
    ensures forall t :: Scoped(b, t) <==> Scoped(a, t) || AdmittedOn(a, scopes, rules, t)
  {
    var h, tail := rules[0], rules[1..];
    assert h in rules && forall x :: x in rules <==> x == h || x in tail;
    forall x | x in tail ensures h < x && PlaceOf(m, x) == PlaceOf(a, x) {
      TailAbove(rules, x);
      assert IsSingle(a, x);
      SamePlace(a, m, h, x);
    }
    assert h !in tail;
    forall r, t | r in rules && ResolvesTo(a, r, t) ensures b.Active(r) <==> SurvivesOn(a, scopes, rules, r, t) {
      if r == h { HeadSurvives(a, m, b, scopes, rules, t); } else { SurvivesAfterHead(a, m, scopes, rules, r, t); }
    }
    forall r | r in rules && b.Active(r) ensures exists t :: ResolvesTo(a, r, t) && Seated(b, r, t) {
      if r == h {
        var t := RowOf(PlaceOf(a, h)).value;
        assert m.Active(h) && Seated(m, h, t);
        SeatedStays(m, b, tail, h, t);
      } else {
        var t :| ResolvesTo(m, r, t) && Seated(b, r, t);
        assert ResolvesTo(a, r, t);
      }
    }
    forall t ensures Scoped(b, t) <==> Scoped(a, t) || AdmittedOn(a, scopes, rules, t) {
      AdmittedOnSplit(a, m, scopes, rules, t);
    }
  }

  lemma SeatedStays(m: Db, b: Db, rules: seq<int>, r: int, t: int)
    requires BesideAll(m, b, rules) && r !in rules && r !in m.scopes && Seated(m, r, t)
    ensures Seated(b, r, t)
  {
    forall k | k in b.clients && k.rule == r ensures k.traffic == t {
      assert k in m.clients;
    }
    assert Key(r, t).rule !in rules;
  }

  lemma HeadSurvives(a: Db, m: Db, b: Db, scopes: seq<int>, rules: seq<int>, t: int)
    requires rules != [] && Increasing(rules) && IsSingle(a, rules[0])
    requires Beside(a, m, rules[0]) && Fate(a, m, scopes, rules[0]) && BesideAll(m, b, rules[1..])
    requires ResolvesTo(a, rules[0], t) && rules[0] !in rules[1..]
    ensures b.Active(rules[0]) <==> SurvivesOn(a, scopes, rules, rules[0], t)
  {
    var h := rules[0];
    assert h in m.rules;
    forall q | q in rules ensures h <= q {
      FirstLeast(rules, q);
    }
    assert h in rules;
  }

  lemma AdmittedOnSplit(a: Db, m: Db, scopes: seq<int>, rules: seq<int>, t: int)
    requires rules != [] && Increasing(rules) && (forall x :: x in rules ==> IsSingle(a, x)) && ScopesListed(a, scopes)
    requires Beside(a, m, rules[0]) && Fate(a, m, scopes, rules[0])
    ensures Scoped(m, t) || AdmittedOn(m, scopes, rules[1..], t) <==> Scoped(a, t) || AdmittedOn(a, scopes, rules, t)
  {
    var h := rules[0];
    assert h in rules && forall x :: x in rules <==> x == h || x in rules[1..];
    forall q | q in rules[1..]
      ensures ResolvesTo(m, q, t) == ResolvesTo(a, q, t) && Admitted(m, scopes, q, t) == Admitted(a, scopes, q, t)
    {
      TailAbove(rules, q);
      assert IsSingle(a, q);
      SamePlace(a, m, h, q);
      SameAdmitted(a, m, scopes, h, q, t);
    }
    assert AdmittedOn(a, scopes, rules, t) <==> AdmittedOn(m, scopes, rules[1..], t)
                                                || (ResolvesTo(a, h, t) && Admitted(a, scopes, h, t));
  }
}
