/** Which rules a resume brings back, told from the tables before it. */
module Resumption {
  import opened Collections
  import opened Model
  import opened Baselines
  import opened Ticking
  import opened EnrolProofs
  import opened Commands
  import opened CommandProofs
  import opened Resuming

  /** The rule is paused and within the filter. */
  predicate Waits(db: Db, inbound: Option<int>, r: int) {
    r in db.rules && db.rules[r].state == Paused && (inbound.Some? ==> db.rules[r].inboundId == inbound.value)
  }

  /** The rule is a scope, or some client of it is on an existing row of the client's email. */
  predicate HasPlace(db: Db, r: int) {
    r in db.scopes || exists k :: k in db.clients && k.rule == r && Matched(db, k)
  }

  predicate Shares(db: Db, x: int, r: int) {
    x != r && exists k :: k in db.clients && k.rule == r && Key(x, k.traffic) in db.clients
  }

  /** Another active rule, or one listed earlier that came back, has a client on a row of the rule. */
  ghost predicate Obstructed(a: Db, b: Db, inbound: Option<int>, r: int) {
    exists x :: Shares(a, x, r) && (a.Active(x) || (x < r && Waits(a, inbound, x) && b.Active(x)))
  }

  /** The rule is as it was but for its state and the time of the change. */
  predicate OnlyState(p: Rule, q: Rule, state: State, now: int) {
    && q.state == state && q.updatedAt == now && q.email == p.email && q.inboundId == p.inboundId
    && q.factorPpm == p.factorPpm && q.disabledAt == p.disabledAt
  }

  // One round -------------------------------------------------------------

  lemma ConflictShares(db: Db, r: int)
    ensures HasConflict(db, r) <==> exists x :: Shares(db, x, r) && db.Active(x)
  {
    if HasConflict(db, r) {
      var k :| k in db.clients && k.rule == r && OtherOwners(db, k.traffic, r) != {};
      SomeMember(OtherOwners(db, k.traffic, r));
      var x :| x in OtherOwners(db, k.traffic, r);
      assert Key(x, k.traffic) in db.clients;
      assert Shares(db, x, r) && db.Active(x);
    }
    if x :| Shares(db, x, r) && db.Active(x) {
      var k :| k in db.clients && k.rule == r && Key(x, k.traffic) in db.clients;
      assert Key(r, k.traffic) == k && db.Owns(x, k.traffic);
      OwnedRowConflicts(db, r, x, k.traffic);
    }
  }

  lemma PlaceOwned(db: Db, r: int)
    ensures HasPlace(db, r) <==> OwnRows(db, r) != {} || r in db.scopes
  {
    if k :| k in db.clients && k.rule == r && Matched(db, k) {
      assert k.traffic in OwnRows(db, r);
    }
    if OwnRows(db, r) != {} {
      SomeMember(OwnRows(db, r));
      var t :| t in OwnRows(db, r);
      var k :| k in db.clients && OnOwnRow(db, r, k) && k.traffic == t;
      assert Matched(db, k);
    }
  }

  /** What a round keeps, whatever it decides. */
  ghost predicate RoundKeeps(m: Db, c: Db, r: int) {
    && c.traffic == m.traffic && c.scopes == m.scopes && c.clients.Keys == m.clients.Keys
        && c.rules.Keys == m.rules.Keys
    && (forall x :: x in m.rules && x != r ==> c.rules[x] == m.rules[x])
    && (forall k :: k in m.clients ==> c.clients[k].email == m.clients[k].email)
  }

  lemma RefreshedKeeps(m: Db, r: int)
    ensures RoundKeeps(m, RefreshRule(m, r), r) && RefreshRule(m, r).rules == m.rules
  {
  }

  lemma StateKeeps(m: Db, c: Db, r: int, now: int)
    requires RoundKeeps(m, c, r) && c.rules == m.rules && r in m.rules
    ensures var d := c.SetState(r, Active, now).Log(Some(r), RuleResumed, Plain, now);
            RoundKeeps(m, d, r) && d.Active(r) && OnlyState(m.rules[r], d.rules[r], Active, now)
  {
  }

  lemma BackRound(m: Db, r: int, now: int)
    requires r in m.rules
    ensures RoundKeeps(m, Resumed(m, r, now), r) && Resumed(m, r, now).Active(r)
    ensures OnlyState(m.rules[r], Resumed(m, r, now).rules[r], Active, now)
  {
    RefreshedKeeps(m, r);
    StateKeeps(m, RefreshRule(m, r), r, now);
  }

  lemma StayRound(m: Db, c: Db, r: int)
    requires c == m.(events := c.events)
    ensures RoundKeeps(m, c, r)
  {
  }

  /** A round brings its rule back exactly when no active rule shares a row with it and it has a place. */
  lemma RoundExactly(m: Db, r: int, now: int)
    requires r in m.rules && m.rules[r].state == Paused
    ensures var c := ResumeOne(m, r, now);
            && RoundKeeps(m, c, r)
            && (c.Active(r) <==> HasPlace(m, r) && !exists x :: Shares(m, x, r) && m.Active(x))
            && (c.Active(r) ==> OnlyState(m.rules[r], c.rules[r], Active, now))
            && (!c.Active(r) ==> c.rules[r] == m.rules[r])
  {
    ConflictShares(m, r);
    PlaceOwned(m, r);
    if !HasConflict(m, r) && HasPlace(m, r) {
      BackRound(m, r, now);
    } else {
      StayRound(m, ResumeOne(m, r, now), r);
    }
  }

  // All rounds ------------------------------------------------------------

  /** What the rounds over the listed rules have made of the rules, where `done` were listed before. */
  ghost predicate BackTo(a: Db, b: Db, listed: seq<int>, now: int) {
    && b.rules.Keys == a.rules.Keys
    && (forall x :: x in a.rules && (x !in listed || !b.Active(x)) ==> b.rules[x] == a.rules[x])
    && (forall x :: x in a.rules && x in listed && b.Active(x) ==> OnlyState(a.rules[x], b.rules[x], Active, now))
  }

  /** The emails of the clients are kept, so is which keys there are. */
  ghost predicate SameSeating(a: Db, m: Db) {
    && m.traffic == a.traffic && m.scopes == a.scopes && m.clients.Keys == a.clients.Keys
    && forall k :: k in a.clients ==> m.clients[k].email == a.clients[k].email
  }

  lemma SeatingSame(a: Db, m: Db, r: int)
    requires SameSeating(a, m)
    ensures HasPlace(m, r) == HasPlace(a, r) && forall x :: Shares(m, x, r) == Shares(a, x, r)
  {
    forall k ensures Matched(m, k) == Matched(a, k) {}
    if k :| k in a.clients && k.rule == r && Matched(a, k) { assert Matched(m, k); }
    if k :| k in m.clients && k.rule == r && Matched(m, k) { assert Matched(a, k); }
  }

  lemma SeatingTransitive(a: Db, m: Db, b: Db)
    requires SameSeating(a, m) && SameSeating(m, b)
    ensures SameSeating(a, b)
  {
  }

  /** The rule's obstruction, in tables where `before` were listed ahead of it. */
  ghost predicate Blocked(a: Db, b: Db, before: seq<int>, r: int) {
    exists x :: Shares(a, x, r) && (a.Active(x) || (x in before && b.Active(x)))
  }

  ghost predicate RoundsExact(a: Db, b: Db, rs: seq<int>) {
    forall i :: 0 <= i < |rs| ==> (b.Active(rs[i]) <==> HasPlace(a, rs[i]) && !Blocked(a, b, rs[..i], rs[i]))
  }

  lemma BlockedLater(a: Db, m: Db, b: Db, rs: seq<int>, i: int)
    requires rs != [] && 1 <= i < |rs| && SameSeating(a, m) && Distinct(rs)
    requires forall x :: x != rs[0] ==> m.Active(x) == a.Active(x)
    requires !a.Active(rs[0]) && b.Active(rs[0]) == m.Active(rs[0])
    ensures Blocked(m, b, rs[1..][..i - 1], rs[i]) <==> Blocked(a, b, rs[..i], rs[i])
  {
    SeatingSame(a, m, rs[i]);
    var later := rs[1..][..i - 1];
    assert rs[..i] == [rs[0]] + later;
    if x :| Shares(a, x, rs[i]) && (a.Active(x) || (x in rs[..i] && b.Active(x))) {
      assert Shares(m, x, rs[i]) && (m.Active(x) || (x in later && b.Active(x)));
    }
    if x :| Shares(m, x, rs[i]) && (m.Active(x) || (x in later && b.Active(x))) {
      assert Shares(a, x, rs[i]) && (a.Active(x) || (x in rs[..i] && b.Active(x)));
    }
  }

  lemma HeadRound(a: Db, m: Db, b: Db, rs: seq<int>)
    requires rs != [] && b.Active(rs[0]) == m.Active(rs[0])
    requires m.Active(rs[0]) <==> HasPlace(a, rs[0]) && !exists x :: Shares(a, x, rs[0]) && a.Active(x)
    ensures b.Active(rs[0]) <==> HasPlace(a, rs[0]) && !Blocked(a, b, rs[..0], rs[0])
  {
    assert rs[..0] == [];
  }

  lemma RoundsJoin(a: Db, m: Db, b: Db, rs: seq<int>, now: int)
    requires rs != [] && Distinct(rs) && SameSeating(a, m) && RoundsExact(m, b, rs[1..]) && !a.Active(rs[0])
    requires BackTo(a, m, [rs[0]], now) && BackTo(m, b, rs[1..], now)
    requires m.Active(rs[0]) <==> HasPlace(a, rs[0]) && !exists x :: Shares(a, x, rs[0]) && a.Active(x)
    requires forall r :: r in rs ==> r in a.rules && !a.Active(r)
    ensures RoundsExact(a, b, rs) && BackTo(a, b, rs, now)
  {
    var h, tail := rs[0], rs[1..];
    assert h in rs && forall x :: x in rs <==> x == h || x in tail;
    assert h !in tail && b.rules[h] == m.rules[h];
    forall i | 0 <= i < |rs| ensures b.Active(rs[i]) <==> HasPlace(a, rs[i]) && !Blocked(a, b, rs[..i], rs[i]) {
      if i == 0 {
        HeadRound(a, m, b, rs);
      } else {
        assert tail[i - 1] == rs[i];
        SeatingSame(a, m, rs[i]);
        BlockedLater(a, m, b, rs, i);
      }
    }
  }

  lemma {:induction false} RoundsExactly(a: Db, rs: seq<int>, now: int)
    requires Distinct(rs) && forall r :: r in rs ==> r in a.rules && a.rules[r].state == Paused
    ensures var b := ResumeEach(a, rs, now); RoundsExact(a, b, rs) && BackTo(a, b, rs, now) && SameSeating(a, b)
    decreases |rs|
  {
    if rs != [] {
      var m := ResumeOne(a, rs[0], now);
      assert rs[0] in rs && forall x :: x in rs[1..] ==> x in rs;
      assert rs[0] !in rs[1..];
      RoundExactly(a, rs[0], now);
      RoundsExactly(m, rs[1..], now);
      SeatingTransitive(a, m, ResumeEach(m, rs[1..], now));
      RoundsJoin(a, m, ResumeEach(m, rs[1..], now), rs, now);
    }
  }

  lemma WaitingListed(db: Db, inbound: Option<int>)
    ensures forall r :: r in Ascending(RuleIds(db, inbound, {Paused})) <==> Waits(db, inbound, r)
  {
    var ids := RuleIds(db, inbound, {Paused});
    forall r ensures r in Ascending(ids) <==> Waits(db, inbound, r) { assert r in Ascending(ids) <==> r in ids; }
  }

  lemma OrderOfIndices(rs: seq<int>, i: int, j: int)
    requires Increasing(rs) && 0 <= i < |rs| && 0 <= j < |rs| && rs[j] < rs[i]
    ensures j < i
  {
  }

  lemma BeforeInOrder(rs: seq<int>, i: int, x: int)
    requires Increasing(rs) && 0 <= i < |rs|
    ensures x in rs[..i] <==> x in rs && x < rs[i]
  {
    if x in rs[..i] {
      var j :| 0 <= j < i && rs[..i][j] == x;
      assert rs[j] == x;
    }
    if x in rs && x < rs[i] {
      var j :| 0 <= j < |rs| && rs[j] == x;
      OrderOfIndices(rs, i, j);
      assert rs[..i][j] == x;
    }
  }

  /**
   * Resume-all succeeds exactly when some paused rule is within the filter. Such a rule comes back exactly when it
   * has a place and no other active rule, nor one before it that came back, shares a row with it; every other rule is
   * as it was.
   */
  lemma ResumeAllBringsBack(a: Db, inbound: Option<int>, now: int, r: int)
    ensures ResumeAll(a, inbound, now).Ok? <==> exists x :: Waits(a, inbound, x)
    ensures ResumeAll(a, inbound, now).Err? ==> ResumeAll(a, inbound, now).error == NotFound
    ensures ResumeAll(a, inbound, now).Ok? ==>
              var b := ResumeAll(a, inbound, now).value;
              && b.rules.Keys == a.rules.Keys
              && (Waits(a, inbound, r) ==> (b.Active(r) <==> HasPlace(a, r) && !Obstructed(a, b, inbound, r)))
              && (Waits(a, inbound, r) && b.Active(r) ==> OnlyState(a.rules[r], b.rules[r], Active, now))
              && (r in a.rules && !(Waits(a, inbound, r) && b.Active(r)) ==> b.rules[r] == a.rules[r])
  {
    var rs := Ascending(RuleIds(a, inbound, {Paused}));
    WaitingListed(a, inbound);
    if rs != [] { assert rs[0] in rs; }
    if ResumeAll(a, inbound, now).Ok? {
      IncreasingIsDistinct(rs);
      RoundsExactly(a, rs, now);
      if Waits(a, inbound, r) { ListedBack(a, ResumeEach(a, rs, now), inbound, rs, r); }
    }
  }

  lemma ListedBack(a: Db, b: Db, inbound: Option<int>, rs: seq<int>, r: int)
    requires Increasing(rs) && (forall x :: x in rs <==> Waits(a, inbound, x)) && RoundsExact(a, b, rs) && r in rs
    ensures b.Active(r) <==> HasPlace(a, r) && !Obstructed(a, b, inbound, r)
  {
    var i :| 0 <= i < |rs| && rs[i] == r;
    forall x ensures x in rs[..i] <==> Waits(a, inbound, x) && x < r { BeforeInOrder(rs, i, x); }
    assert Blocked(a, b, rs[..i], r) <==> Obstructed(a, b, inbound, r);
  }

  // One rule --------------------------------------------------------------

  /** The paused rules that an email and an inbound select. */
  predicate Picks(db: Db, email: string, inbound: Option<int>, r: int) {
    Waits(db, inbound, r) && db.rules[r].email == email
  }

  predicate OnlyPick(db: Db, email: string, inbound: Option<int>, r: int) {
    Picks(db, email, inbound, r) && forall x :: x in db.rules && Picks(db, email, inbound, x) ==> x == r
  }

  lemma SoleMember(rs: set<int>, r: int)
    requires |rs| == 1 && r in rs
    ensures rs == {r}
  {
    assert |rs - {r}| == 0;
  }

  lemma PickedRule(db: Db, email: string, inbound: Option<int>, r: int)
    ensures FindRule(db, email, inbound, {Paused}) == Ok(r) <==> OnlyPick(db, email, inbound, r)
  {
    var rs := SelectedRules(db, email, inbound, {Paused});
    assert forall x :: x in rs <==> Picks(db, email, inbound, x);
    if FindRule(db, email, inbound, {Paused}) == Ok(r) {
      assert |rs| == 1 && r == Min(rs);
      SoleMember(rs, r);
    }
    if OnlyPick(db, email, inbound, r) {
      forall x ensures x in rs <==> x == r {}
      assert rs == {r};
    }
  }

  /**
   * Resuming one rule succeeds exactly when the selection is one rule with no active rule on its rows and a client on
   * its own row; then exactly that rule is active again.
   */
  lemma ResumeBringsBack(a: Db, email: string, inbound: Option<int>, now: int)
    ensures Resume(a, email, inbound, now).Ok? <==>
              email != "" && exists r :: OnlyPick(a, email, inbound, r)
                                         && (exists k :: k in a.clients && k.rule == r && Matched(a, k))
                                         && !exists x :: Shares(a, x, r) && a.Active(x)
    ensures Resume(a, email, inbound, now).Ok? ==>
              var b := Resume(a, email, inbound, now).value;
              exists r :: OnlyPick(a, email, inbound, r) && b.rules.Keys == a.rules.Keys
                          && OnlyState(a.rules[r], b.rules[r], Active, now)
                          && forall x :: x in a.rules && x != r ==> b.rules[x] == a.rules[x]
  {
    var found := FindRule(a, email, inbound, {Paused});
    if found.Ok? {
      var r := found.value;
      PickedRule(a, email, inbound, r);
      ConflictShares(a, r);
      OwnRowsMatched(a, r);
      forall x | OnlyPick(a, email, inbound, x) ensures x == r {}
    } else {
      forall r ensures !OnlyPick(a, email, inbound, r) { PickedRule(a, email, inbound, r); }
    }
  }

  lemma OwnRowsMatched(db: Db, r: int)
    ensures OwnRows(db, r) != {} <==> exists k :: k in db.clients && k.rule == r && Matched(db, k)
  {
    if k :| k in db.clients && k.rule == r && Matched(db, k) { assert k.traffic in OwnRows(db, r); }
    if OwnRows(db, r) != {} {
      SomeMember(OwnRows(db, r));
      var t :| t in OwnRows(db, r);
      var k :| k in db.clients && OnOwnRow(db, r, k) && k.traffic == t;
      assert Matched(db, k);
    }
  }
}
