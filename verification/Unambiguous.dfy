/** One active rule per row and one policy row per email, over every run: no tick is refused for ambiguity. */
module Unambiguous {
  import opened Collections
  import opened Model
  import opened Decisions
  import opened PolicyTable
  import opened Baselines
  import opened Ticking
  import opened TickProofs
  import V = ClientView

  // One candidate of each class per row ------------------------------------

  lemma {:induction false} TargetsOfDistinct(db: Db, r: int, ts: seq<int>)
    requires Increasing(ts)
    ensures Distinct(TargetsOf(db, r, ts))
    ensures forall x :: x in TargetsOf(db, r, ts) ==> x.ruleId == r && x.trafficId in ts
  {
    if ts != [] {
      var t, tail := ts[0], TargetsOf(db, r, ts[1..]);
      TargetsOfDistinct(db, r, ts[1..]);
      assert forall u :: u in ts <==> u == t || u in ts[1..];
      if Key(r, t) in db.clients && r in db.rules {
        var x := TargetAt(db, Key(r, t));
        assert x !in tail by { assert t !in ts[1..]; }
        PrependDistinct(x, tail);
      } else {
        assert [] + tail == tail;
      }
    }
  }

  lemma {:induction false} TargetsOverDistinct(db: Db, rs: seq<int>)
    requires Increasing(rs)
    ensures Distinct(TargetsOver(db, rs))
    ensures forall x :: x in TargetsOver(db, rs) ==> x.ruleId in rs
  {
    if rs != [] {
      var here, tail := TargetsOf(db, rs[0], Ascending(db.ClientsOf(rs[0]))), TargetsOver(db, rs[1..]);
      TargetsOfDistinct(db, rs[0], Ascending(db.ClientsOf(rs[0])));
      TargetsOverDistinct(db, rs[1..]);
      assert forall r :: r in rs <==> r == rs[0] || r in rs[1..];
      assert rs[0] !in rs[1..];
      ConcatDistinct(here, tail);
    }
  }

  lemma TargetsDistinct(db: Db)
    ensures Distinct(Targets(db))
  {
    TargetsOverDistinct(db, Ascending(ActiveIdsOf(db)));
  }

  lemma {:induction false} PolicyRowsDistinct(table: Table, ids: seq<int>)
    requires Distinct(ids)
    ensures Distinct(PolicyRows(table, ids))
  {
    if ids != [] {
      var tail := PolicyRows(table, ids[1..]);
      PolicyRowsDistinct(table, ids[1..]);
      if ids[0] in table {
        var p := PolicyRow(ids[0], table[ids[0]]);
        PolicyRowMembers(table, ids[1..], p);
        assert ids[0] !in ids[1..];
        PrependDistinct(p, tail);
      } else {
        assert [] + tail == tail;
      }
    }
  }

  predicate On(x: Target, t: int) {
    x.trafficId == t
  }

  ghost predicate AtMostOneOn(ts: seq<Target>, t: int) {
    forall i, j :: 0 <= i < j < |ts| ==> !(On(ts[i], t) && On(ts[j], t))
  }

  lemma {:induction false} NoRuleIn(ts: seq<Target>, t: int)
    requires forall x :: x in ts ==> !On(x, t)
    ensures Group(RuleCandidates(ts), t) == []
  {
    if ts != [] {
      assert ts[0] in ts;
      NoRuleIn(ts[1..], t);
    }
  }

  lemma {:induction false} OneRuleIn(ts: seq<Target>, t: int)
    requires AtMostOneOn(ts, t)
    ensures |Group(RuleCandidates(ts), t)| <= 1
  {
    if ts != [] {
      if On(ts[0], t) { NoRuleIn(ts[1..], t); }
      OneRuleIn(ts[1..], t);
    }
  }

  predicate Hits(o: PolicyRow, ts: seq<Target>, t: int) {
    o.policy.trafficId == t && LastNamed(ts, t, o.policy.email).Some?
  }

  ghost predicate AtMostOneHits(os: seq<PolicyRow>, ts: seq<Target>, t: int) {
    forall i, j :: 0 <= i < j < |os| ==> !(Hits(os[i], ts, t) && Hits(os[j], ts, t))
  }

  lemma {:induction false} NoPolicyIn(os: seq<PolicyRow>, ts: seq<Target>, t: int)
    requires forall o :: o in os ==> !Hits(o, ts, t)
    ensures Group(OverrideCandidates(os, ts), t) == [] && Group(ExcludeCandidates(os, ts), t) == []
  {
    if os != [] {
      assert os[0] in os;
      NoPolicyIn(os[1..], ts, t);
    }
  }

  lemma {:induction false} OnePolicyIn(os: seq<PolicyRow>, ts: seq<Target>, t: int)
    requires AtMostOneHits(os, ts, t)
    ensures |Group(OverrideCandidates(os, ts), t)| <= 1 && |Group(ExcludeCandidates(os, ts), t)| <= 1
  {
    if os != [] {
      if Hits(os[0], ts, t) { NoPolicyIn(os[1..], ts, t); }
      OnePolicyIn(os[1..], ts, t);
    }
  }

  lemma OneTargetPerRow(db: Db, t: int)
    requires OneOwner(db)
    ensures AtMostOneOn(Targets(db), t)
    ensures forall x, y :: x in Targets(db) && y in Targets(db) && On(x, t) && On(y, t) ==> x == y
  {
    var ts := Targets(db);
    forall x, y | x in ts && y in ts && On(x, t) && On(y, t) ensures x == y {
      TargetsExactly(db, x);
      TargetsExactly(db, y);
      assert db.Owns(x.ruleId, t) && db.Owns(y.ruleId, t);
    }
    TargetsDistinct(db);
    forall i, j | 0 <= i < j < |ts| ensures !(On(ts[i], t) && On(ts[j], t)) {
      var x, y := ts[i], ts[j];
      assert x in ts && y in ts && x != y;
    }
  }

  lemma HitsAgree(db: Db, o: PolicyRow, p: PolicyRow, t: int)
    requires OneOwner(db) && Hits(o, Targets(db), t) && Hits(p, Targets(db), t)
    ensures o.policy.email == p.policy.email
  {
    OneTargetPerRow(db, t);
    LastNamedIn(Targets(db), t, o.policy.email);
    LastNamedIn(Targets(db), t, p.policy.email);
  }

  lemma OnePolicyPerRow(db: Db, table: Table, t: int)
    requires OneOwner(db) && OneRowPerEmail(table)
    ensures AtMostOneHits(PolicyRows(table, ListActive(table)), Targets(db), t)
  {
    var os, ts := PolicyRows(table, ListActive(table)), Targets(db);
    ListActiveLists(table);
    PolicyRowsDistinct(table, ListActive(table));
    forall i, j | 0 <= i < j < |os| ensures !(Hits(os[i], ts, t) && Hits(os[j], ts, t)) {
      var o, p := os[i], os[j];
      assert o in os && p in os && o != p;
      PolicyRowMembers(table, ListActive(table), o);
      PolicyRowMembers(table, ListActive(table), p);
      if Hits(o, ts, t) && Hits(p, ts, t) { HitsAgree(db, o, p, t); }
    }
  }

  predicate RuleSource(source: Source) {
    source.SourceSingleRule? || source.SourceInboundScope? || source.SourceSnapshot? || source.SourceGlobalScope?
  }

  lemma GroupSources(db: Db, t: int)
    ensures forall c :: c in Group(RuleCandidates(Targets(db)), t) ==> RuleSource(c.source)
    ensures forall os, c :: c in Group(OverrideCandidates(os, Targets(db)), t) ==> c.source.SourceUserOverride?
    ensures forall es, c :: c in Group(ExcludeCandidates(es, Targets(db)), t) ==> c.source.SourceExclude?
  {
    var ts := Targets(db);
    forall c | c in Group(RuleCandidates(ts), t) ensures RuleSource(c.source) {
      GroupMember(RuleCandidates(ts), t, c);
      RuleCandidateMembers(ts, c);
    }
    forall os, c | c in Group(OverrideCandidates(os, ts), t) ensures c.source.SourceUserOverride? {
      GroupMember(OverrideCandidates(os, ts), t, c);
      OverrideCandidateMembers(os, ts, c);
    }
    forall es, c | c in Group(ExcludeCandidates(es, ts), t) ensures c.source.SourceExclude? {
      GroupMember(ExcludeCandidates(es, ts), t, c);
      ExcludeCandidateMembers(es, ts, c);
    }
  }

  lemma SourceAt(rules: seq<Candidate>, overrides: seq<Candidate>, excludes: seq<Candidate>, i: int)
    requires forall c :: c in rules ==> RuleSource(c.source)
    requires forall c :: c in overrides ==> c.source.SourceUserOverride?
    requires forall c :: c in excludes ==> c.source.SourceExclude?
    requires 0 <= i < |rules + overrides + excludes|
    ensures var c := (rules + overrides + excludes)[i];
            && (i < |rules| ==> RuleSource(c.source))
            && (|rules| <= i < |rules| + |overrides| ==> c.source.SourceUserOverride?)
            && (|rules| + |overrides| <= i ==> c.source.SourceExclude?)
  {
    var c := (rules + overrides + excludes)[i];
    if i < |rules| {
      assert c == rules[i];
    } else if i < |rules| + |overrides| {
      assert c == overrides[i - |rules|];
    } else {
      assert c == excludes[i - |rules| - |overrides|];
    }
  }

  lemma NoTieAcross(rules: seq<Candidate>, overrides: seq<Candidate>, excludes: seq<Candidate>)
    requires |rules| <= 1 && |overrides| <= 1 && |excludes| <= 1
    requires forall c :: c in rules ==> RuleSource(c.source)
    requires forall c :: c in overrides ==> c.source.SourceUserOverride?
    requires forall c :: c in excludes ==> c.source.SourceExclude?
    ensures !TopTie(rules + overrides + excludes)
  {
    var cs := rules + overrides + excludes;
    forall i, j | 0 <= i < j < |cs| ensures Precedence(cs[i].source) != Precedence(cs[j].source) {
      SourceAt(rules, overrides, excludes, i);
      SourceAt(rules, overrides, excludes, j);
    }
  }

  /** With one active rule per row and one policy row per email, the candidates of a tick are always decided. */
  lemma OwnedTablesDecide(db: Db)
    requires OneOwner(db) && OneRowPerEmail(db.excludes) && OneRowPerEmail(db.overrides)
    ensures DecideAll(Candidates(db)).Ok?
  {
    var ts, cs := Targets(db), Candidates(db);
    var es, os := PolicyRows(db.excludes, ListActive(db.excludes)), PolicyRows(db.overrides, ListActive(db.overrides));
    forall t | t in GroupIds(cs) ensures !TopTie(Group(cs, t)) {
      OneTargetPerRow(db, t);
      OneRuleIn(ts, t);
      OnePolicyPerRow(db, db.excludes, t);
      OnePolicyPerRow(db, db.overrides, t);
      OnePolicyIn(os, ts, t);
      OnePolicyIn(es, ts, t);
      GroupSources(db, t);
      V.GroupConcat(RuleCandidates(ts) + OverrideCandidates(os, ts), ExcludeCandidates(es, ts), t);
      V.GroupConcat(RuleCandidates(ts), OverrideCandidates(os, ts), t);
      NoTieAcross(Group(RuleCandidates(ts), t), Group(OverrideCandidates(os, ts), t),
          Group(ExcludeCandidates(es, ts), t));
    }
    DecideRefusesTies(cs);
  }
}
