/** What every operator command keeps: valid tables, one owner per row, and honest baselines. */
module CommandProofs {
  import opened Collections
  import opened Model
  import opened Factor
  import opened Accounting
  import opened PolicyTable
  import opened Baselines
  import opened Reconciling
  import opened ReconcileProofs
  import opened ReconcileTheorems
  import opened ReconcilePreview
  import opened Ticking
  import opened EnrolProofs
  import opened Commands

  /** Valid tables stay valid, and one owner per row stays one owner per row. */
  ghost predicate Sound(a: Db, b: Db) {
    Valid(a) ==> Valid(b) && (OneOwner(a) ==> OneOwner(b))
  }

  ghost predicate SamePolicies(a: Db, b: Db) {
    b.excludes == a.excludes && b.overrides == a.overrides && b.nextExclude == a.nextExclude
        && b.nextOverride == a.nextOverride
  }

  lemma OwnersShrink(a: Db, b: Db)
    requires OneOwner(a) && forall x, t :: b.Owns(x, t) ==> a.Owns(x, t)
    ensures OneOwner(b)
  {
    forall x, y, t | b.Owns(x, t) && b.Owns(y, t) ensures x == y {
      assert a.Owns(x, t) && a.Owns(y, t);
    }
  }

  lemma FindClientFound(db: Db, email: string, inbound: Option<int>)
    requires db.FindClient(email, inbound).Ok?
    ensures var t := db.FindClient(email, inbound).value; t in db.traffic && db.traffic[t].email == email
  {
    var ts := set t | t in db.traffic && db.traffic[t].email == email
        && (inbound.Some? ==> db.IsMember(email, inbound.value));
    assert db.FindClient(email, inbound).value in ts;
  }

  // Enable ----------------------------------------------------------------

  lemma OwnerListed(db: Db, x: int, t: int)
    ensures db.Owns(x, t) ==> x in db.RulesOn(t, {Active})
  {
    if db.Owns(x, t) {
      assert Key(x, t) in db.clients;
    }
  }

  lemma NoOwners(db: Db, t: int)
    requires db.RulesOn(t, {Active}) == {}
    ensures forall x :: !db.Owns(x, t)
  {
    forall x ensures !db.Owns(x, t) {
      OwnerListed(db, x, t);
    }
  }

  lemma EnabledOneOwner(a: Db, b: Db, r: int, t: int)
    requires OneOwner(a) && (forall x :: !a.Owns(x, t)) && forall x, u ::
               b.Owns(x, u) ==> a.Owns(x, u) || (x == r && u == t)
    ensures OneOwner(b)
  {
    forall x, y, u | b.Owns(x, u) && b.Owns(y, u) ensures x == y {
      assert a.Owns(x, u) || (x == r && u == t);
      assert a.Owns(y, u) || (y == r && u == t);
    }
  }

  lemma EnableKeeps(a: Db, email: string, inbound: Option<int>, factor: string, now: int)
    requires Valid(a) && Enable(a, email, inbound, factor, now).Ok?
    ensures var b := Enable(a, email, inbound, factor, now).value;
            Valid(b) && (OneOwner(a) ==> OneOwner(b)) && Descends(a, b) && SamePolicies(a, b)
  {
    var b := Enable(a, email, inbound, factor, now).value;
    FindClientFound(a, email, inbound);
    var t := a.FindClient(email, inbound).value;
    NoOwners(a, t);
    forall k | Live(b, k) && k.traffic in b.traffic ensures AtCounters(b, k) || Inherits(a, b, k) {
      if k.rule != a.nextRule { assert Live(a, Key(k.rule, k.traffic)); }
    }
    if OneOwner(a) { EnabledOneOwner(a, b, a.nextRule, t); }
  }

  /** Rules may leave the active state; nothing else but events changes. */
  ghost predicate Stopped(a: Db, b: Db) {
    && b == a.(rules := b.rules, events := b.events)
    && b.rules.Keys == a.rules.Keys
    && (forall r :: r in a.rules ==> b.rules[r].email == a.rules[r].email
                                     && b.rules[r].factorPpm == a.rules[r].factorPpm)
    && (forall r :: b.Active(r) ==> a.Active(r))
  }

  lemma StoppedKeeps(a: Db, b: Db)
    requires Stopped(a, b)
    ensures Sound(a, b) && Descends(a, b) && SamePolicies(a, b)
  {
    forall k | Live(b, k) ensures Live(a, k) && SameAccount(a.clients[k], b.clients[k]) {}
    FewerLiveDescends(a, b);
    if OneOwner(a) {
      OwnersShrink(a, b);
    }
  }

  lemma TransitionKeeps(a: Db, email: string, inbound: Option<int>, from: set<State>, to: State, now: int)
    requires !to.Active? && Transition(a, email, inbound, from, to, now).Ok?
    ensures Stopped(a, Transition(a, email, inbound, from, to, now).value)
  {
  }

  lemma StoppedTransitive(a: Db, b: Db, c: Db)
    requires Stopped(a, b) && Stopped(b, c)
    ensures Stopped(a, c)
  {
  }

  lemma StateStops(a: Db, r: int, to: State, now: int)
    requires !to.Active?
    ensures Stopped(a, a.SetState(r, to, now).Log(Some(r), EndKind(to), Plain, now))
  {
  }

  lemma {:induction false} SetStatesStops(a: Db, rs: seq<int>, to: State, now: int)
    requires !to.Active?
    ensures Stopped(a, SetStates(a, rs, to, now))
    decreases |rs|
  {
    if rs != [] {
      var m := a.SetState(rs[0], to, now).Log(Some(rs[0]), EndKind(to), Plain, now);
      StateStops(a, rs[0], to, now);
      SetStatesStops(m, rs[1..], to, now);
      StoppedTransitive(a, m, SetStates(m, rs[1..], to, now));
    }
  }

  /** The client is not marked missing, though its row has another email. */
  predicate Strayed(db: Db, k: Key) {
    k in db.clients && db.clients[k].missingAt.None? && k.traffic in db.traffic
        && db.traffic[k.traffic].email != db.clients[k].email
  }

  /** No client of the rule sits unmarked on a row of another email that counted bytes since the client's baseline. */
  ghost predicate NoneStrayed(db: Db, r: int) {
    forall k :: k in db.clients && k.rule == r && Strayed(db, k) ==> AtCounters(db, k)
  }

  lemma NoConflictNoOwner(db: Db, r: int)
    requires !HasConflict(db, r)
    ensures forall x, t :: Key(r, t) in db.clients && db.Owns(x, t) ==> x == r
  {
    forall x, t | Key(r, t) in db.clients && db.Owns(x, t) ensures x == r {
      assert Key(r, t).rule == r && OtherOwners(db, t, r) == {};
      OnlyEnrolled(db, r, t, x);
    }
  }

  function Resumed(db: Db, r: int, now: int): Db {
    RefreshRule(db, r).SetState(r, Active, now).Log(Some(r), RuleResumed, Plain, now)
  }

  lemma ResumedDescends(a: Db, r: int, now: int)
    requires r in a.rules && !a.Active(r)
    ensures var b := Resumed(a, r, now); DescendsMatched(a, b) && (NoneStrayed(a, r) ==> Descends(a, b))
  {
    var b := Resumed(a, r, now);
    assert b.clients.Keys == a.clients.Keys;
    forall k | Live(b, k) && k.rule != r ensures Inherits(a, b, k) {
      assert Live(a, Key(k.rule, k.traffic));
    }
  }

  lemma ResumedSound(a: Db, r: int, now: int)
    requires r in a.rules && !a.Active(r) && !HasConflict(a, r)
    ensures Sound(a, Resumed(a, r, now))
  {
    var b := Resumed(a, r, now);
    NoConflictNoOwner(a, r);
    assert b.clients.Keys == a.clients.Keys;
    if OneOwner(a) {
      forall x, y, u | b.Owns(x, u) && b.Owns(y, u) ensures x == y {
        assert x == r || a.Owns(x, u);
        assert y == r || a.Owns(y, u);
      }
    }
  }

  lemma ResumedFacts(a: Db, r: int, now: int)
    requires r in a.rules && !a.Active(r) && !HasConflict(a, r)
    ensures var b := Resumed(a, r, now);
            Sound(a, b) && SamePolicies(a, b) && DescendsMatched(a, b) && (NoneStrayed(a, r) ==> Descends(a, b))
            && b.traffic == a.traffic && b.scopes == a.scopes
            && (forall x :: x != r ==> (NoneStrayed(a, x) ==> NoneStrayed(b, x))
                                       && (x in a.rules ==> x in b.rules && b.rules[x] == a.rules[x]))
  {
    ResumedSound(a, r, now);
    ResumedDescends(a, r, now);
    assert Resumed(a, r, now).clients.Keys == a.clients.Keys;
  }

  lemma ResumeOneKeeps(a: Db, r: int, now: int)
    requires r in a.rules && !a.Active(r)
    ensures var b := ResumeOne(a, r, now);
            Sound(a, b) && SamePolicies(a, b) && DescendsMatched(a, b) && (NoneStrayed(a, r) ==> Descends(a, b))
            && b.traffic == a.traffic && b.scopes == a.scopes
            && (forall x :: x != r ==> (NoneStrayed(a, x) ==> NoneStrayed(b, x))
                                       && (x in a.rules ==> x in b.rules && b.rules[x] == a.rules[x]))
  {
    if !HasConflict(a, r) && !(OwnRows(a, r) == {} && r !in a.scopes) {
      ResumedFacts(a, r, now);
    } else {
      StoppedKeeps(a, ResumeOne(a, r, now));
    }
  }

  lemma {:induction false} ResumeEachKeeps(a: Db, rs: seq<int>, now: int)
    requires Distinct(rs) && forall r :: r in rs ==> r in a.rules && !a.Active(r)
    ensures var b := ResumeEach(a, rs, now);
            Sound(a, b) && SamePolicies(a, b) && DescendsMatched(a, b)
            && ((forall r :: r in rs ==> NoneStrayed(a, r)) ==> Descends(a, b))
    decreases |rs|
  {
    if rs == [] {
      DescendsReflexive(a);
    } else {
      var r, tail := rs[0], rs[1..];
      assert r in rs && forall x :: x in rs <==> x == r || x in tail;
      assert r !in tail;
      var m := ResumeOne(a, r, now);
      ResumeOneKeeps(a, r, now);
      ResumeEachKeeps(m, tail, now);
      var b := ResumeEach(m, tail, now);
      MatchedTransitive(a, m, b);
      if forall x :: x in rs ==> NoneStrayed(a, x) {
        DescendsTransitive(a, m, b);
      }
    }
  }

  lemma IncreasingIsDistinct(rs: seq<int>)
    requires Increasing(rs)
    ensures Distinct(rs)
  {
  }

  lemma ResumeAllKeeps(a: Db, inbound: Option<int>, now: int)
    requires ResumeAll(a, inbound, now).Ok?
    ensures var b := ResumeAll(a, inbound, now).value;
            Sound(a, b) && SamePolicies(a, b) && DescendsMatched(a, b)
            && ((forall r :: r in RuleIds(a, inbound, {Paused}) ==> NoneStrayed(a, r)) ==> Descends(a, b))
  {
    var ids := RuleIds(a, inbound, {Paused});
    var rs := Ascending(ids);
    forall r | r in rs ensures r in a.rules && !a.Active(r) { assert r in ids; }
    forall r | r in rs ensures r in ids {}
    IncreasingIsDistinct(rs);
    ResumeEachKeeps(a, rs, now);
  }

  lemma FoundRule(db: Db, email: string, inbound: Option<int>, states: set<State>)
    requires FindRule(db, email, inbound, states).Ok?
    ensures var r := FindRule(db, email, inbound, states).value;
              r in db.rules && db.rules[r].email == email && db.rules[r].state in states
  {
    assert FindRule(db, email, inbound, states).value in SelectedRules(db, email, inbound, states);
  }

  /** Resuming one rule by its client always starts it from the counters. */
  lemma ResumeKeeps(a: Db, email: string, inbound: Option<int>, now: int)
    requires Valid(a) && Resume(a, email, inbound, now).Ok?
    ensures var b := Resume(a, email, inbound, now).value;
            Sound(a, b) && SamePolicies(a, b) && Descends(a, b)
  {
    FoundRule(a, email, inbound, {Paused});
    var r := FindRule(a, email, inbound, {Paused}).value;
    assert r !in a.scopes;
    ResumedFacts(a, r, now);
    SomeMember(OwnRows(a, r));
    var t :| t in OwnRows(a, r);
    assert OnOwnRow(a, r, Key(r, t));
    assert NoneStrayed(a, r);
  }

  // Refreshing a row ------------------------------------------------------

  lemma RefreshRowFacts(a: Db, t: int, email: string)
    requires t in a.traffic && a.traffic[t].email == email
    ensures var b := RefreshRow(a, t, email);
            && b == a.(clients := b.clients) && b.clients.Keys == a.clients.Keys
            && Sound(a, b) && Descends(a, b) && SamePolicies(a, b)
            && (forall k :: Live(b, k) && Matched(b, k) && k.traffic == t ==> AtCounters(b, k))
            && (forall k :: k in a.clients && k.traffic != t ==> b.clients[k] == a.clients[k])
  {
    var b := RefreshRow(a, t, email);
    assert b.clients.Keys == a.clients.Keys;
    forall k | Live(b, k) && k.traffic in b.traffic ensures AtCounters(b, k) || Inherits(a, b, k) {
      if !ActiveOnRow(a, k, t, email) { assert Live(a, Key(k.rule, k.traffic)); }
    }
    if OneOwner(a) { OwnersShrink(a, b); }
  }

  lemma SameRulesKeep(a: Db, b: Db)
    requires b == a.(excludes := b.excludes, overrides := b.overrides, nextExclude := b.nextExclude,
             nextOverride := b.nextOverride, events := b.events)
    requires Valid(a) ==> (forall e :: e in b.excludes ==> e < b.nextExclude)
                          && (forall o :: o in b.overrides ==> o < b.nextOverride)
    ensures Sound(a, b) && Descends(a, b)
  {
    forall k | Live(b, k) ensures Live(a, k) && SameAccount(a.clients[k], b.clients[k]) {}
    FewerLiveDescends(a, b);
    if OneOwner(a) { OwnersShrink(a, b); }
  }

  lemma UpsertKeys(table: Table, next: int, t: int, inbound: int, email: string, factorPpm: int64, now: int)
    requires (forall e :: e in table ==> e < next) && Upsert(table, next, t, inbound, email, factorPpm, now).Ok?
    ensures var (after, next', _) := Upsert(table, next, t, inbound, email, factorPpm, now).value;
            forall e :: e in after ==> e < next'
  {
  }

  /** After an upsert for a live client, every live client named by an active row is still named by one. */
  lemma UpsertKeepsNamed(db: Db, table: Table, next: int, t: int, inbound: int, factorPpm: int64, now: int, u: int)
    requires EmailsUnique(db) && t in db.traffic && u in db.traffic && (forall e :: e in table ==> e < next)
    requires Upsert(table, next, t, inbound, db.traffic[t].email, factorPpm, now).Ok?
    requires NamedActive(table, u, db.traffic[u].email)
    ensures NamedActive(Upsert(table, next, t, inbound, db.traffic[t].email, factorPpm, now).value.0, u,
            db.traffic[u].email)
  {
    var email := db.traffic[t].email;
    var (after, _, id) := Upsert(table, next, t, inbound, email, factorPpm, now).value;
    FoundHasEmail(table, t, email);
    var x :| x in table && ActiveRow(table, x) && NamesClient(table[x], u, db.traffic[u].email);
    if u == t {
      assert ActiveRow(after, id) && NamesClient(after[id], t, email);
    } else {
      assert x != id;
      assert ActiveRow(after, x) && NamesClient(after[x], u, db.traffic[u].email);
    }
  }

  lemma FoundPolicy(table: Table, t: int, email: string)
    requires PolicyOf(table, t, email).Some?
    ensures var id := PolicyOf(table, t, email).value; id in table && table[id].email == email
  {
  }

  lemma ExcludeKeeps(a: Db, email: string, inbound: int, now: int)
    requires Valid(a) && Exclude(a, email, inbound, now).Ok?
    ensures var b := Exclude(a, email, inbound, now).value;
            Sound(a, b) && Descends(a, b) && b.overrides == a.overrides
            && (forall u :: u in a.traffic && NamedActive(a.excludes, u, a.traffic[u].email) ==>
                            NamedActive(b.excludes, u, a.traffic[u].email))
  {
    var b := Exclude(a, email, inbound, now).value;
    FindClientFound(a, email, Some(inbound));
    var t := a.FindClient(email, Some(inbound)).value;
    UpsertKeys(a.excludes, a.nextExclude, t, a.traffic[t].inboundId, a.traffic[t].email, 0, now);
    SameRulesKeep(a, b);
    forall u | u in a.traffic && NamedActive(a.excludes, u, a.traffic[u].email)
      ensures NamedActive(b.excludes, u, a.traffic[u].email)
    {
      UpsertKeepsNamed(a, a.excludes, a.nextExclude, t, a.traffic[t].inboundId, 0, now, u);
    }
  }

  lemma DisableKeepsNamed(table: Table, id: int, now: int, u: int, email: string)
    requires id in table && table[id].email != email && NamedActive(table, u, email)
    ensures NamedActive(PolicyTable.Disable(table, id, now), u, email)
  {
    var after := PolicyTable.Disable(table, id, now);
    var x :| x in table && ActiveRow(table, x) && NamesClient(table[x], u, email);
    assert x != id && ActiveRow(after, x) && NamesClient(after[x], u, email);
  }

  /** After Unexclude every live client of the row stands at the counters, and no other live client loses an exclude. */
  lemma UnexcludeKeeps(a: Db, email: string, inbound: int, now: int)
    requires Valid(a) && Unexclude(a, email, inbound, now).Ok?
    ensures var b, t := Unexclude(a, email, inbound, now).value, a.FindClient(email, Some(inbound)).value;
            && t in a.traffic && a.traffic[t].email == email
            && Sound(a, b) && Descends(a, b) && b.overrides == a.overrides
            && (forall k :: Live(b, k) && Matched(b, k) && k.traffic == t ==> AtCounters(b, k))
            && (forall u :: u in a.traffic && u != t && NamedActive(a.excludes, u, a.traffic[u].email) ==>
                            NamedActive(b.excludes, u, a.traffic[u].email))
  {
    FindClientFound(a, email, Some(inbound));
    var t, id := a.FindClient(email, Some(inbound)).value,
        PolicyOf(a.excludes, a.FindClient(email, Some(inbound)).value, email).value;
    FoundPolicy(a.excludes, t, email);
    var m := a.(excludes := PolicyTable.Disable(a.excludes, id, now));
    SameRulesKeep(a, m);
    RefreshRowFacts(m, t, email);
    var r := RefreshRow(m, t, email);
    var b := Unexclude(a, email, inbound, now).value;
    LogKeeps(r, b);
    DescendsTransitive(a, m, r);
    DescendsTransitive(a, r, b);
    forall u | u in a.traffic && u != t && NamedActive(a.excludes, u, a.traffic[u].email)
      ensures NamedActive(b.excludes, u, a.traffic[u].email)
    {
      DisableKeepsNamed(a.excludes, id, now, u, a.traffic[u].email);
    }
  }

  lemma LogKeeps(a: Db, b: Db)
    requires b == a.(events := b.events)
    ensures Sound(a, b) && Descends(a, b)
  {
    SameRulesKeep(a, b);
  }

  lemma OverrideKeeps(a: Db, email: string, inbound: int, factor: string, now: int)
    requires Valid(a) && Override(a, email, inbound, factor, now).Ok?
    ensures var b, t := Override(a, email, inbound, factor, now).value, a.FindClient(email, Some(inbound)).value;
            && t in a.traffic && a.traffic[t].email == email
            && Sound(a, b) && Descends(a, b) && b.excludes == a.excludes
            && (forall k :: Live(b, k) && Matched(b, k) && k.traffic == t ==> AtCounters(b, k))
  {
    FindClientFound(a, email, Some(inbound));
    var t := a.FindClient(email, Some(inbound)).value;
    var (table, next, _) := Upsert(a.overrides, a.nextOverride, t, a.traffic[t].inboundId, email,
        ParseFactor(factor).value, now).value;
    UpsertKeys(a.overrides, a.nextOverride, t, a.traffic[t].inboundId, email, ParseFactor(factor).value, now);
    var m := a.(overrides := table, nextOverride := next);
    SameRulesKeep(a, m);
    RefreshRowFacts(m, t, email);
    var r := RefreshRow(m, t, email);
    var b := Override(a, email, inbound, factor, now).value;
    LogKeeps(r, b);
    DescendsTransitive(a, m, r);
    DescendsTransitive(a, r, b);
  }

  lemma RemoveOverrideKeeps(a: Db, email: string, inbound: int, now: int)
    requires Valid(a) && RemoveOverride(a, email, inbound, now).Ok?
    ensures var b, t := RemoveOverride(a, email, inbound, now).value, a.FindClient(email, Some(inbound)).value;
            && t in a.traffic && a.traffic[t].email == email
            && Sound(a, b) && Descends(a, b) && b.excludes == a.excludes
            && (forall k :: Live(b, k) && Matched(b, k) && k.traffic == t ==> AtCounters(b, k))
  {
    FindClientFound(a, email, Some(inbound));
    var t := a.FindClient(email, Some(inbound)).value;
    var id := PolicyOf(a.overrides, t, email).value;
    FoundPolicy(a.overrides, t, email);
    var m := a.(overrides := PolicyTable.Disable(a.overrides, id, now));
    SameRulesKeep(a, m);
    RefreshRowFacts(m, t, email);
    var r := RefreshRow(m, t, email);
    var b := RemoveOverride(a, email, inbound, now).value;
    LogKeeps(r, b);
    DescendsTransitive(a, m, r);
    DescendsTransitive(a, r, b);
  }
}
