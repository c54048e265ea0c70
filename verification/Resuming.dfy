/** Resuming all rules: which baselines it refreshes, and exactly when no traffic of the pause is left to factor. */
module Resuming {
  import opened Collections
  import opened Model
  import opened Accounting
  import opened Baselines
  import opened Commands
  import opened CommandProofs

  /** The rule's clients on existing rows, unless marked missing, stand at their counters. */
  ghost predicate FromCounters(db: Db, r: int) {
    forall k :: k in db.clients && k.rule == r && k.traffic in db.traffic && db.clients[k].missingAt.None? ==>
                AtCounters(db, k)
  }

  /** What becomes of the clients of rule r, depending on whether it was resumed. */
  ghost predicate RefreshedIn(a: Db, b: Db, r: int) {
    && (forall k: Key :: k.rule == r ==> (k in b.clients <==> k in a.clients))
    && (forall k: Key :: k.rule == r && k in a.clients ==>
          b.clients[k] == if b.Active(r)
              && OnOwnRow(a, r, k) then Rebased(a.clients[k], a.traffic[k.traffic], 0, 0) else a.clients[k])
  }

  ghost predicate SameRule(a: Db, b: Db, x: int) {
    && b.traffic == a.traffic && (x in b.rules <==> x in a.rules) && (x in a.rules ==> b.rules[x] == a.rules[x])
    && forall k: Key :: k.rule == x ==> (k in b.clients <==> k in a.clients)
                                        && (k in a.clients ==> b.clients[k] == a.clients[k])
  }

  lemma RefreshElsewhere(a: Db, r: int, x: int)
    requires x != r
    ensures SameRule(a, RefreshRule(a, r), x)
  {
  }

  lemma ResumedElsewhere(a: Db, m: Db, r: int, now: int, x: int)
    requires x != r && SameRule(a, m, x)
    ensures SameRule(a, m.SetState(r, Active, now).Log(Some(r), RuleResumed, Plain, now), x)
    ensures SameRule(a, m.Log(Some(r), RuleResumed, Plain, now), x)
  {
  }

  lemma ResumeOneElsewhere(a: Db, r: int, now: int, x: int)
    requires x != r
    ensures SameRule(a, ResumeOne(a, r, now), x)
  {
    RefreshElsewhere(a, r, x);
    ResumedElsewhere(a, a, r, now, x);
    ResumedElsewhere(a, RefreshRule(a, r), r, now, x);
  }

  lemma ResumeOneHere(a: Db, r: int, now: int)
    requires r in a.rules && !a.Active(r)
    ensures RefreshedIn(a, ResumeOne(a, r, now), r) && ResumeOne(a, r, now).traffic == a.traffic
  {
  }

  lemma {:induction false} ResumeEachElsewhere(a: Db, rs: seq<int>, now: int, x: int)
    requires x !in rs
    ensures SameRule(a, ResumeEach(a, rs, now), x)
    decreases |rs|
  {
    if rs != [] {
      var m := ResumeOne(a, rs[0], now);
      assert rs[0] != x && x !in rs[1..];
      ResumeOneElsewhere(a, rs[0], now, x);
      ResumeEachElsewhere(m, rs[1..], now, x);
    }
  }

  lemma RefreshedThenSame(a: Db, m: Db, b: Db, r: int)
    requires RefreshedIn(a, m, r) && SameRule(m, b, r)
    ensures RefreshedIn(a, b, r)
  {
  }

  lemma SameThenRefreshed(a: Db, m: Db, b: Db, r: int)
    requires SameRule(a, m, r) && RefreshedIn(m, b, r)
    ensures RefreshedIn(a, b, r)
  {
    forall k: Key | k.rule == r && k in a.clients ensures OnOwnRow(m, r, k) == OnOwnRow(a, r, k) {}
  }

  /**
   * Each listed rule's clients are refreshed exactly when the rule is resumed and the client's row still has its
   * email.
   */
  lemma {:induction false} ResumeEachRefreshes(a: Db, rs: seq<int>, now: int, r: int)
    requires Distinct(rs) && r in rs && r in a.rules && !a.Active(r)
    ensures RefreshedIn(a, ResumeEach(a, rs, now), r)
    decreases |rs|
  {
    var m := ResumeOne(a, rs[0], now);
    var b := ResumeEach(m, rs[1..], now);
    if rs[0] == r {
      assert r !in rs[1..];
      ResumeOneHere(a, r, now);
      ResumeEachElsewhere(m, rs[1..], now, r);
      RefreshedThenSame(a, m, b, r);
    } else {
      assert r in rs[1..];
      ResumeOneElsewhere(a, rs[0], now, r);
      ResumeEachRefreshes(m, rs[1..], now, r);
      SameThenRefreshed(a, m, b, r);
    }
  }

  lemma RefreshedStarts(a: Db, b: Db, r: int)
    requires b.traffic == a.traffic && b.Active(r) && RefreshedIn(a, b, r)
    ensures FromCounters(b, r) <==> NoneStrayed(a, r)
  {
    if FromCounters(b, r) {
      forall k | k in a.clients && k.rule == r && Strayed(a, k) ensures AtCounters(a, k) {
        assert b.clients[k] == a.clients[k] && AtCounters(b, k);
      }
    }
    if NoneStrayed(a, r) {
      forall k | k in b.clients && k.rule == r && k.traffic in b.traffic && b.clients[k].missingAt.None?
        ensures AtCounters(b, k)
      {
        if !OnOwnRow(a, r, k) { assert Strayed(a, k) && AtCounters(a, k); }
      }
    }
  }

  /**
   * A rule that resume-all resumes starts from its rows' counters - so that no traffic of the pause is factored -
   * exactly when none of its clients sits unmarked, and behind, on a row that was renamed.
   */
  lemma ResumeAllExactly(a: Db, inbound: Option<int>, now: int, r: int)
    requires ResumeAll(a, inbound, now).Ok? && r in RuleIds(a, inbound, {Paused})
    ensures var b := ResumeAll(a, inbound, now).value;
            b.Active(r) ==> (FromCounters(b, r) <==> NoneStrayed(a, r))
  {
    var rs := Ascending(RuleIds(a, inbound, {Paused}));
    IncreasingIsDistinct(rs);
    ResumeEachRefreshes(a, rs, now, r);
    ResumeAllKeeps(a, inbound, now);
    var b := ResumeAll(a, inbound, now).value;
    if b.Active(r) { RefreshedStarts(a, b, r); }
  }

  // Rows brought back -------------------------------------------------------

  lemma OwnedRowConflicts(a: Db, r: int, x: int, t: int)
    requires x != r && a.Owns(x, t) && Key(r, t) in a.clients
    ensures HasConflict(a, r)
  {
    if !HasConflict(a, r) { NoConflictNoOwner(a, r); }
  }

  lemma ResumeOneBlocked(a: Db, r: int, now: int, q: int, x: int, t: int)
    requires x != r && a.Owns(x, t) && Key(r, t) in a.clients && !a.Active(r)
    ensures var b := ResumeOne(a, q, now); b.Owns(x, t) && Key(r, t) in b.clients && !b.Active(r)
  {
    OwnedRowConflicts(a, r, x, t);
  }

  /** A rule with a client on a row that another active rule owns is not resumed. */
  lemma {:induction false} ResumeEachBlocked(a: Db, rs: seq<int>, now: int, r: int, x: int, t: int)
    requires x != r && a.Owns(x, t) && Key(r, t) in a.clients && !a.Active(r)
    ensures !ResumeEach(a, rs, now).Active(r)
    decreases |rs|
  {
    if rs != [] {
      ResumeOneBlocked(a, r, now, rs[0], x, t);
      ResumeEachBlocked(ResumeOne(a, rs[0], now), rs[1..], now, r, x, t);
    }
  }

  /**
   * What resume-all leaves of a client: as it was, or - where its rule came back and its row has its email - at the
   * counters.
   */
  lemma ResumeAllClient(a: Db, inbound: Option<int>, now: int, k: Key)
    requires ResumeAll(a, inbound, now).Ok? && ResumeAll(a, inbound, now).value.Active(k.rule)
    ensures var b := ResumeAll(a, inbound, now).value;
            && b.traffic == a.traffic && (k in b.clients <==> k in a.clients)
            && (a.Active(k.rule) ==> b.rules[k.rule] == a.rules[k.rule])
            && (!a.Active(k.rule) ==> k.rule in a.rules && a.rules[k.rule].state.Paused?)
            && (k in a.clients ==>
                  b.clients[k] == if !a.Active(k.rule)
                      && OnOwnRow(a, k.rule, k) then Rebased(a.clients[k], a.traffic[k.traffic], 0, 0)
                                  else a.clients[k])
  {
    var ids := RuleIds(a, inbound, {Paused});
    var rs := Ascending(ids);
    ResumeAllKeeps(a, inbound, now);
    if k.rule in ids {
      IncreasingIsDistinct(rs);
      ResumeEachRefreshes(a, rs, now, k.rule);
    } else {
      ResumeEachElsewhere(a, rs, now, k.rule);
    }
  }

  /**
   * On every row of a rule that resume-all brought back, the live clients with the row's email stand at its counters.
   */
  lemma ResumeAllSettles(a: Db, inbound: Option<int>, now: int, j: Key, k: Key)
    requires ResumeAll(a, inbound, now).Ok? && j in a.clients && j.traffic == k.traffic && !a.Active(j.rule)
    requires var b := ResumeAll(a, inbound, now).value; b.Active(j.rule) && Live(b, k) && Matched(b, k)
    ensures AtCounters(ResumeAll(a, inbound, now).value, k)
  {
    ResumeAllClient(a, inbound, now, k);
    if a.Active(k.rule) {
      assert a.Owns(k.rule, k.traffic) && Key(j.rule, k.traffic) == j;
      ResumeEachBlocked(a, Ascending(RuleIds(a, inbound, {Paused})), now, j.rule, k.rule, k.traffic);
    }
  }

  lemma ResumeSettles(a: Db, email: string, inbound: Option<int>, now: int, j: Key, k: Key)
    requires Resume(a, email, inbound, now).Ok? && j in a.clients && j.traffic == k.traffic && !a.Active(j.rule)
    requires var b := Resume(a, email, inbound, now).value; b.Active(j.rule) && Live(b, k) && Matched(b, k)
    ensures AtCounters(Resume(a, email, inbound, now).value, k)
  {
    var r := FindRule(a, email, inbound, {Paused}).value;
    FoundRule(a, email, inbound, {Paused});
    assert Resume(a, email, inbound, now).value == Resumed(a, r, now);
    NoConflictNoOwner(a, r);
    assert j.rule == r && Key(r, k.traffic) == j;
    if k.rule != r { assert a.Owns(k.rule, k.traffic); }
  }

  /** Resuming one single-user rule needs no such condition: it has one client, which must sit on its own row. */
  lemma ResumeStartsFromCounters(a: Db, email: string, inbound: Option<int>, now: int)
    requires Valid(a) && Resume(a, email, inbound, now).Ok?
    ensures FromCounters(Resume(a, email, inbound, now).value, FindRule(a, email, inbound, {Paused}).value)
  {
    var r := FindRule(a, email, inbound, {Paused}).value;
    FoundRule(a, email, inbound, {Paused});
    assert r !in a.scopes;
    assert OwnRows(a, r) != {};
    SomeMember(OwnRows(a, r));
    var t :| t in OwnRows(a, r);
    var k :| k in a.clients && OnOwnRow(a, r, k) && k.traffic == t;
    forall j | j in a.clients && j.rule == r ensures j == k {}
  }
}
