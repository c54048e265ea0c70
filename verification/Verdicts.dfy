/** The decision of every row, told from the tables: which rows are refused, and who is effective on the others. */
module Verdicts {
  import opened Collections
  import opened Model
  import opened Decisions
  import opened PolicyTable
  import opened Baselines
  import opened Ticking
  import opened TickProofs
  import opened Machine
  import opened Ledgers
  import opened Unambiguous
  import E = Effective

  /** An active policy of the table names the row under the email of an active rule's client on it. */
  predicate Under(db: Db, table: Table, id: int, t: int) {
    && id in table && table[id].state == Active && table[id].trafficId == t
    && exists k :: k in db.clients && k.traffic == t && db.Active(k.rule) && db.clients[k].email == table[id].email
  }

  /** Single-user rules stand above scopes of one inbound, those above snapshots, those above scopes of all inbounds. */
  function Standing(db: Db, r: int): int {
    if r !in db.scopes then 4
    else if db.scopes[r].once then 2
    else if db.scopes[r].inboundId.Some? then 3
    else 1
  }

  ghost predicate AnyUnder(db: Db, table: Table, t: int) {
    exists id :: Under(db, table, id, t)
  }

  ghost predicate TwoUnder(db: Db, table: Table, t: int) {
    exists i, j :: Under(db, table, i, t) && Under(db, table, j, t) && i != j
  }

  /** The rule owns the row, and no other owner stands above it. */
  ghost predicate Foremost(db: Db, r: int, t: int) {
    db.Owns(r, t) && forall z :: db.Owns(z, t) ==> Standing(db, z) <= Standing(db, r)
  }

  /**
   * The row cannot be decided: two policies of the kind that rules on it, or two foremost rules where there is none.
   */
  ghost predicate Tied(db: Db, t: int) {
    if AnyUnder(db, db.excludes, t) then TwoUnder(db, db.excludes, t)
    else if AnyUnder(db, db.overrides, t) then TwoUnder(db, db.overrides, t)
    else exists x, y :: Foremost(db, x, t) && Foremost(db, y, t) && x != y
  }

  /** The last rule that owns the row for a client of this email. */
  ghost predicate LastFor(db: Db, r: int, t: int, email: string) {
    && db.Owns(r, t) && db.clients[Key(r, t)].email == email
    && forall z :: db.Owns(z, t) && db.clients[Key(z, t)].email == email ==> z <= r
  }

  // The candidates of a row -------------------------------------------------

  ghost predicate RuleAscend(ts: seq<Target>) {
    forall i, j :: 0 <= i < j < |ts| ==> ts[i].ruleId <= ts[j].ruleId
  }

  lemma {:induction false} TargetsAscend(db: Db, rs: seq<int>)
    requires Increasing(rs)
    ensures RuleAscend(TargetsOver(db, rs))
  {
    if rs != [] {
      var r, rest := rs[0], TargetsOver(db, rs[1..]);
      var own := TargetsOf(db, r, Ascending(db.ClientsOf(r)));
      TargetsOfDistinct(db, r, Ascending(db.ClientsOf(r)));
      TargetsAscend(db, rs[1..]);
      TargetsOverDistinct(db, rs[1..]);
      forall i | 0 <= i < |own| ensures own[i].ruleId == r { assert own[i] in own; }
      forall j | 0 <= j < |rest| ensures r <= rest[j].ruleId {
        assert rest[j] in rest;
        var n :| 0 <= n < |rs[1..]| && rs[1..][n] == rest[j].ruleId;
        assert rs[n + 1] == rest[j].ruleId;
      }
    }
  }

  lemma {:induction false} LastNamedGreatest(ts: seq<Target>, t: int, email: string, x: Target)
    requires RuleAscend(ts) && x in ts && Names(x, t, email)
    ensures LastNamed(ts, t, email).Some? && x.ruleId <= LastNamed(ts, t, email).value.ruleId
  {
    var init := ts[..|ts| - 1];
    var i :| 0 <= i < |ts| && ts[i] == x;
    if !Names(ts[|ts| - 1], t, email) {
      assert init[i] == x;
      LastNamedGreatest(init, t, email, x);
    }
  }

  lemma StewardFound(db: Db, r: int, t: int, email: string)
    requires LastFor(db, r, t, email)
    ensures LastNamed(Targets(db), t, email) == Some(TargetAt(db, Key(r, t)))
  {
    var ts, x := Targets(db), TargetAt(db, Key(r, t));
    TargetsExactly(db, x);
    TargetsAscend(db, Ascending(ActiveIdsOf(db)));
    LastNamedGreatest(ts, t, email, x);
    LastNamedIn(ts, t, email);
    TargetsExactly(db, LastNamed(ts, t, email).value);
  }

  lemma SomeLast(db: Db, table: Table, id: int, t: int) returns (r: int)
    requires Under(db, table, id, t)
    ensures LastFor(db, r, t, table[id].email)
  {
    var all := set k | k in db.clients && k.traffic == t && db.Active(k.rule)
        && db.clients[k].email == table[id].email :: k.rule;
    var k :| k in db.clients && k.traffic == t && db.Active(k.rule) && db.clients[k].email == table[id].email;
    assert k.rule in all;
    r := Max(all);
    assert r in all;
    forall z | db.Owns(z, t) && db.clients[Key(z, t)].email == table[id].email
      ensures z <= r
    {
      assert Key(z, t).rule in all;
    }
  }

  function RuleC(db: Db, r: int, t: int): Candidate
    requires db.Owns(r, t)
  {
    RuleCandidate(TargetAt(db, Key(r, t)))
  }

  function OverrideC(db: Db, id: int, r: int, t: int): Candidate
    requires db.Owns(r, t) && id in db.overrides
  {
    OverrideCandidate(PolicyRow(id, db.overrides[id]), TargetAt(db, Key(r, t)))
  }

  function ExcludeC(db: Db, id: int): Candidate
    requires id in db.excludes
  {
    ExcludeCandidate(PolicyRow(id, db.excludes[id]))
  }

  ghost predicate FromRule(db: Db, t: int, c: Candidate) {
    exists r :: db.Owns(r, t) && c == RuleC(db, r, t)
  }

  ghost predicate FromOverride(db: Db, t: int, c: Candidate) {
    exists id, r :: Under(db, db.overrides, id, t) && LastFor(db, r, t, db.overrides[id].email)
                    && c == OverrideC(db, id, r, t)
  }

  ghost predicate FromExclude(db: Db, t: int, c: Candidate) {
    exists id :: Under(db, db.excludes, id, t) && c == ExcludeC(db, id)
  }

  lemma RulesOfRow(db: Db, t: int, c: Candidate)
    ensures c in RuleCandidates(Targets(db)) && c.trafficId == t <==> FromRule(db, t, c)
  {
    RuleCandidateMembers(Targets(db), c);
    if c.target.Some? { TargetsExactly(db, c.target.value); }
    if c in RuleCandidates(Targets(db)) && c.trafficId == t {
      var x := c.target.value;
      assert db.Owns(x.ruleId, t) && c == RuleC(db, x.ruleId, t);
    }
    if r :| db.Owns(r, t) && c == RuleC(db, r, t) { TargetsExactly(db, TargetAt(db, Key(r, t))); }
  }

  lemma UnderNamed(db: Db, table: Table, o: PolicyRow, x: Target)
    requires o in PolicyRows(table, ListActive(table)) && x in Targets(db)
             && Names(x, o.policy.trafficId, o.policy.email)
    ensures Under(db, table, o.id, o.policy.trafficId) && table[o.id] == o.policy
  {
    ListedPolicies(table, o);
    TargetsExactly(db, x);
    assert TargetKey(x) in db.clients;
  }

  lemma {:induction false} OverrideFrom(os: seq<PolicyRow>, ts: seq<Target>, c: Candidate)
    ensures c in OverrideCandidates(os, ts) <==>
            exists o :: o in os && LastNamed(ts, o.policy.trafficId, o.policy.email).Some?
                        && c == OverrideCandidate(o, LastNamed(ts, o.policy.trafficId, o.policy.email).value)
  {
    if os != [] {
      OverrideFrom(os[1..], ts, c);
      assert forall o :: o in os <==> o == os[0] || o in os[1..];
    }
  }

  lemma OverridesOfRow(db: Db, t: int, c: Candidate)
    ensures c in OverrideCandidates(PolicyRows(db.overrides, ListActive(db.overrides)), Targets(db)) && c.trafficId == t
            <==> FromOverride(db, t, c)
  {
    var os, ts := PolicyRows(db.overrides, ListActive(db.overrides)), Targets(db);
    OverrideFrom(os, ts, c);
    if c in OverrideCandidates(os, ts) && c.trafficId == t {
      var o :| o in os && LastNamed(ts, o.policy.trafficId, o.policy.email).Some?
               && c == OverrideCandidate(o, LastNamed(ts, o.policy.trafficId, o.policy.email).value);
      LastNamedIn(ts, t, o.policy.email);
      UnderNamed(db, db.overrides, o, LastNamed(ts, t, o.policy.email).value);
      var r := SomeLast(db, db.overrides, o.id, t);
      StewardFound(db, r, t, o.policy.email);
      assert c == OverrideC(db, o.id, r, t);
    }
    if FromOverride(db, t, c) {
      var id, r :| Under(db, db.overrides, id, t) && LastFor(db, r, t, db.overrides[id].email)
                   && c == OverrideC(db, id, r, t);
      StewardFound(db, r, t, db.overrides[id].email);
      ListedPolicies(db.overrides, PolicyRow(id, db.overrides[id]));
    }
  }

  lemma ExcludesOfRow(db: Db, t: int, c: Candidate)
    ensures c in ExcludeCandidates(PolicyRows(db.excludes, ListActive(db.excludes)), Targets(db)) && c.trafficId == t
            <==> FromExclude(db, t, c)
  {
    var es, ts := PolicyRows(db.excludes, ListActive(db.excludes)), Targets(db);
    ExcludeCandidateMembers(es, ts, c);
    if c in ExcludeCandidates(es, ts) && c.trafficId == t {
      var e :| e in es && LastNamed(ts, e.policy.trafficId, e.policy.email).Some? && c == ExcludeCandidate(e);
      LastNamedIn(ts, t, e.policy.email);
      UnderNamed(db, db.excludes, e, LastNamed(ts, t, e.policy.email).value);
      assert c == ExcludeC(db, e.id);
    }
    if id :| Under(db, db.excludes, id, t) && c == ExcludeC(db, id) {
      var r := SomeLast(db, db.excludes, id, t);
      StewardFound(db, r, t, db.excludes[id].email);
      ListedPolicies(db.excludes, PolicyRow(id, db.excludes[id]));
    }
  }

  /** The candidates of a row: one for each owner, and one for each policy over it. */
  lemma RowCandidates(db: Db, t: int, c: Candidate)
    ensures c in Group(Candidates(db), t) <==> FromRule(db, t, c) || FromOverride(db, t, c) || FromExclude(db, t, c)
  {
    GroupMember(Candidates(db), t, c);
    RulesOfRow(db, t, c);
    OverridesOfRow(db, t, c);
    ExcludesOfRow(db, t, c);
  }

  // No candidate is listed twice ----------------------------------------------

  lemma {:induction false} RulesDistinct(ts: seq<Target>)
    requires Distinct(ts)
    ensures Distinct(RuleCandidates(ts))
  {
    if ts != [] {
      var t := ts[0];
      RulesDistinct(ts[1..]);
      RuleCandidateMembers(ts[1..], RuleCandidate(t));
      HeadNotInTail(ts);
      PrependDistinct(RuleCandidate(t), RuleCandidates(ts[1..]));
    }
  }

  ghost predicate IdsDistinct(os: seq<PolicyRow>) {
    forall i, j :: 0 <= i < j < |os| ==> os[i].id != os[j].id
  }

  lemma {:induction false} PolicyIdsDistinct(table: Table, ids: seq<int>)
    requires Distinct(ids)
    ensures IdsDistinct(PolicyRows(table, ids))
    ensures forall o :: o in PolicyRows(table, ids) ==> o.id in ids
  {
    if ids != [] {
      PolicyIdsDistinct(table, ids[1..]);
      HeadNotInTail(ids);
      var rest := PolicyRows(table, ids[1..]);
      forall j | 0 <= j < |rest| ensures rest[j].id != ids[0] { assert rest[j] in rest; }
    }
  }

  lemma {:induction false} OverridesDistinct(os: seq<PolicyRow>, ts: seq<Target>)
    requires IdsDistinct(os)
    ensures Distinct(OverrideCandidates(os, ts))
  {
    if os != [] {
      OverridesDistinct(os[1..], ts);
      var o := os[0];
      if LastNamed(ts, o.policy.trafficId, o.policy.email).Some? {
        var c := OverrideCandidate(o, LastNamed(ts, o.policy.trafficId, o.policy.email).value);
        OverrideFrom(os[1..], ts, c);
        PrependDistinct(c, OverrideCandidates(os[1..], ts));
      }
    }
  }

  lemma {:induction false} ExcludesDistinct(es: seq<PolicyRow>, ts: seq<Target>)
    requires IdsDistinct(es)
    ensures Distinct(ExcludeCandidates(es, ts))
  {
    if es != [] {
      ExcludesDistinct(es[1..], ts);
      var c := ExcludeCandidate(es[0]);
      ExcludeCandidateMembers(es[1..], ts, c);
      if c !in ExcludeCandidates(es[1..], ts) { PrependDistinct(c, ExcludeCandidates(es[1..], ts)); }
    }
  }

  lemma CandidatesDistinct(db: Db)
    ensures Distinct(Candidates(db))
  {
    var ts := Targets(db);
    var os, es := PolicyRows(db.overrides, ListActive(db.overrides)), PolicyRows(db.excludes, ListActive(db.excludes));
    TargetsDistinct(db);
    RulesDistinct(ts);
    ListActiveLists(db.overrides);
    ListActiveLists(db.excludes);
    PolicyIdsDistinct(db.overrides, ListActive(db.overrides));
    PolicyIdsDistinct(db.excludes, ListActive(db.excludes));
    OverridesDistinct(os, ts);
    ExcludesDistinct(es, ts);
    SourcesApart(ts, os, es);
    DistinctTogether(RuleCandidates(ts), OverrideCandidates(os, ts), ExcludeCandidates(es, ts));
  }

  lemma DistinctTogether(rules: seq<Candidate>, overrides: seq<Candidate>, excludes: seq<Candidate>)
    requires Distinct(rules) && Distinct(overrides) && Distinct(excludes)
    requires forall c :: c in rules ==> RuleSource(c.source)
    requires forall c :: c in overrides ==> c.source.SourceUserOverride?
    requires forall c :: c in excludes ==> c.source.SourceExclude?
    ensures Distinct(rules + overrides + excludes)
  {
    ConcatDistinct(rules, overrides);
    ConcatDistinct(rules + overrides, excludes);
  }

  lemma SourcesApart(ts: seq<Target>, os: seq<PolicyRow>, es: seq<PolicyRow>)
    ensures forall c :: c in RuleCandidates(ts) ==> RuleSource(c.source)
    ensures forall c :: c in OverrideCandidates(os, ts) ==> c.source.SourceUserOverride?
    ensures forall c :: c in ExcludeCandidates(es, ts) ==> c.source.SourceExclude?
  {
    forall c ensures c in RuleCandidates(ts) ==> RuleSource(c.source) { RuleCandidateMembers(ts, c); }
    forall c ensures c in OverrideCandidates(os, ts) ==> c.source.SourceUserOverride? { OverrideFrom(os, ts, c); }
    forall c ensures c in ExcludeCandidates(es, ts) ==> c.source.SourceExclude? { ExcludeCandidateMembers(es, ts, c); }
  }

  lemma {:induction false} GroupDistinct(cs: seq<Candidate>, t: int)
    requires Distinct(cs)
    ensures Distinct(Group(cs, t))
  {
    if cs != [] {
      GroupDistinct(cs[1..], t);
      GroupMember(cs[1..], t, cs[0]);
      HeadNotInTail(cs);
      if cs[0].trafficId == t { PrependDistinct(cs[0], Group(cs[1..], t)); }
    }
  }

  lemma TieOfTwo(cs: seq<Candidate>)
    requires Distinct(cs)
    ensures TopTie(cs) <==> exists c, d :: Top(cs, c) && Top(cs, d) && c != d
  {
    if c, d :| Top(cs, c) && Top(cs, d) && c != d {
      var i :| 0 <= i < |cs| && cs[i] == c;
      var j :| 0 <= j < |cs| && cs[j] == d;
      if i < j { assert Top(cs, cs[i]) && Top(cs, cs[j]); } else { assert Top(cs, cs[j]) && Top(cs, cs[i]); }
    }
  }

  // Who is on top -----------------------------------------------------------

  /** The listing holds exactly the row's candidates. */
  ghost predicate Lists(db: Db, t: int, cs: seq<Candidate>) {
    forall c :: c in cs <==> FromRule(db, t, c) || FromOverride(db, t, c) || FromExclude(db, t, c)
  }

  lemma GroupLists(db: Db, t: int)
    ensures Lists(db, t, Group(Candidates(db), t))
  {
    forall c
      ensures c in Group(Candidates(db), t) <==> FromRule(db, t, c) || FromOverride(db, t, c) || FromExclude(db, t, c)
    {
      RowCandidates(db, t, c);
    }
  }

  lemma ExcludesOnTop(db: Db, t: int, cs: seq<Candidate>, c: Candidate)
    requires Lists(db, t, cs) && AnyUnder(db, db.excludes, t)
    ensures Top(cs, c) <==> FromExclude(db, t, c)
  {
    var id :| Under(db, db.excludes, id, t);
    assert FromExclude(db, t, ExcludeC(db, id));
    assert ExcludeC(db, id) in cs;
  }

  lemma OverridesOnTop(db: Db, t: int, cs: seq<Candidate>, c: Candidate)
    requires Lists(db, t, cs) && !AnyUnder(db, db.excludes, t) && AnyUnder(db, db.overrides, t)
    ensures Top(cs, c) <==> FromOverride(db, t, c)
  {
    var id :| Under(db, db.overrides, id, t);
    var r := SomeLast(db, db.overrides, id, t);
    assert FromOverride(db, t, OverrideC(db, id, r, t));
    assert OverrideC(db, id, r, t) in cs;
    assert forall d :: !FromExclude(db, t, d);
  }

  ghost predicate FromForemost(db: Db, t: int, c: Candidate) {
    exists r :: Foremost(db, r, t) && c == RuleC(db, r, t)
  }

  lemma StandingRanks(db: Db, x: int, y: int, t: int)
    requires db.Owns(x, t) && db.Owns(y, t)
    ensures Precedence(RuleC(db, x, t).source) <= Precedence(RuleC(db, y, t).source) <==>
            Standing(db, x) <= Standing(db, y)
  {
  }

  lemma RulesOnTop(db: Db, t: int, cs: seq<Candidate>, c: Candidate)
    requires Lists(db, t, cs) && !AnyUnder(db, db.excludes, t) && !AnyUnder(db, db.overrides, t)
    ensures Top(cs, c) <==> FromForemost(db, t, c)
  {
    assert forall d :: !FromExclude(db, t, d) && !FromOverride(db, t, d);
    if Top(cs, c) {
      var r :| db.Owns(r, t) && c == RuleC(db, r, t);
      forall z | db.Owns(z, t) ensures Standing(db, z) <= Standing(db, r) {
        assert RuleC(db, z, t) in cs;
        StandingRanks(db, z, r, t);
      }
      assert Foremost(db, r, t);
    }
    if r :| Foremost(db, r, t) && c == RuleC(db, r, t) {
      forall d | d in cs ensures Precedence(d.source) <= Precedence(c.source) {
        var z :| db.Owns(z, t) && d == RuleC(db, z, t);
        StandingRanks(db, z, r, t);
      }
    }
  }

  lemma ListTies(db: Db, t: int, cs: seq<Candidate>)
    requires Lists(db, t, cs)
    ensures (exists c, d :: Top(cs, c) && Top(cs, d) && c != d) <==> Tied(db, t)
  {
    if AnyUnder(db, db.excludes, t) {
      forall c ensures Top(cs, c) == FromExclude(db, t, c) { ExcludesOnTop(db, t, cs, c); }
      ExcludesTie(db, t);
    } else if AnyUnder(db, db.overrides, t) {
      forall c ensures Top(cs, c) == FromOverride(db, t, c) { OverridesOnTop(db, t, cs, c); }
      OverridesTie(db, t);
    } else {
      forall c ensures Top(cs, c) == FromForemost(db, t, c) { RulesOnTop(db, t, cs, c); }
      RulesTie(db, t);
    }
  }

  /** A row's candidates tie on top exactly when the tables tie on it. */
  lemma RowTies(db: Db, t: int)
    ensures TopTie(Group(Candidates(db), t)) <==> Tied(db, t)
  {
    CandidatesDistinct(db);
    GroupDistinct(Candidates(db), t);
    TieOfTwo(Group(Candidates(db), t));
    GroupLists(db, t);
    ListTies(db, t, Group(Candidates(db), t));
  }

  lemma ExcludesTie(db: Db, t: int)
    ensures (exists c, d :: FromExclude(db, t, c) && FromExclude(db, t, d) && c != d) <==> TwoUnder(db, db.excludes, t)
  {
    if i, j :| Under(db, db.excludes, i, t) && Under(db, db.excludes, j, t) && i != j {
      assert FromExclude(db, t, ExcludeC(db, i)) && FromExclude(db, t, ExcludeC(db, j));
      assert ExcludeC(db, i).ruleId != ExcludeC(db, j).ruleId;
    }
  }

  lemma OverridesTie(db: Db, t: int)
    ensures (exists c, d :: FromOverride(db, t, c) && FromOverride(db, t, d) && c != d) <==>
            TwoUnder(db, db.overrides, t)
  {
    if i, j :| Under(db, db.overrides, i, t) && Under(db, db.overrides, j, t) && i != j {
      var r := SomeLast(db, db.overrides, i, t);
      var q := SomeLast(db, db.overrides, j, t);
      assert FromOverride(db, t, OverrideC(db, i, r, t)) && FromOverride(db, t, OverrideC(db, j, q, t));
      assert OverrideC(db, i, r, t).ruleId != OverrideC(db, j, q, t).ruleId;
    }
  }

  lemma RulesTie(db: Db, t: int)
    ensures (exists c, d :: FromForemost(db, t, c) && FromForemost(db, t, d) && c != d)
            <==> exists x, y :: Foremost(db, x, t) && Foremost(db, y, t) && x != y
  {
    if x, y :| Foremost(db, x, t) && Foremost(db, y, t) && x != y {
      assert FromForemost(db, t, RuleC(db, x, t)) && FromForemost(db, t, RuleC(db, y, t));
      assert RuleC(db, x, t).ruleId != RuleC(db, y, t).ruleId;
    }
  }

  /** A tick decides exactly when no row is tied. */
  lemma DecidedExactly(db: Db)
    ensures DecideAll(Candidates(db)).Ok? <==> forall t :: !Tied(db, t)
  {
    DecideRefusesTies(Candidates(db));
    forall t ensures TopTie(Group(Candidates(db), t)) <==> Tied(db, t) { RowTies(db, t); }
    forall t | t !in GroupIds(Candidates(db))
      ensures !TopTie(Group(Candidates(db), t))
    {
      AbsentGroup(Candidates(db), t);
    }
  }

  /** Who is effective on the row, and at which factor. */
  ghost predicate Rules(db: Db, t: int, r: int, factorPpm: int64) {
    && !AnyUnder(db, db.excludes, t)
    && if AnyUnder(db, db.overrides, t)
       then exists id :: Under(db, db.overrides, id, t) && LastFor(db, r, t, db.overrides[id].email)
                         && db.overrides[id].factorPpm == factorPpm
       else Foremost(db, r, t) && db.rules[r].factorPpm == factorPpm
  }

  lemma WinnerRules(db: Db, t: int, cs: seq<Candidate>, w: Candidate, r: int, factorPpm: int64)
    requires Lists(db, t, cs) && Wins(cs, w)
    ensures E.Won(w) == Some((Key(r, t), factorPpm)) <==> Rules(db, t, r, factorPpm)
  {
    if AnyUnder(db, db.excludes, t) {
      ExcludesOnTop(db, t, cs, w);
    } else if AnyUnder(db, db.overrides, t) {
      OverridesOnTop(db, t, cs, w);
      forall id, q | Under(db, db.overrides, id, t) && LastFor(db, q, t, db.overrides[id].email)
        ensures w == OverrideC(db, id, q, t)
      {
        OverridesOnTop(db, t, cs, OverrideC(db, id, q, t));
      }
    } else {
      RulesOnTop(db, t, cs, w);
      forall q | Foremost(db, q, t) ensures w == RuleC(db, q, t) { RulesOnTop(db, t, cs, RuleC(db, q, t)); }
    }
  }

  /**
   * On tables that a tick decides, the rule r is effective on the row at the factor exactly when no exclude rules
   * there and it is the last rule of the email that the override ruling there names, at the override's factor, or
   * else the foremost owner, at its own.
   */
  lemma RankedExactly(db: Db, t: int, r: int, factorPpm: int64)
    requires DecideAll(Candidates(db)).Ok?
    ensures E.EffectiveOn(db, t) == Some((Key(r, t), factorPpm)) <==> Rules(db, t, r, factorPpm)
  {
    if q :| db.Owns(q, t) {
      var w := E.RowDecision(db, Key(q, t));
      GroupLists(db, t);
      WinnerRules(db, t, Group(Candidates(db), t), w, r, factorPpm);
    } else {
      NobodyRules(db, t, r, factorPpm);
    }
  }

  lemma NobodyRules(db: Db, t: int, r: int, factorPpm: int64)
    requires DecideAll(Candidates(db)).Ok? && forall q :: !db.Owns(q, t)
    ensures E.EffectiveOn(db, t) != Some((Key(r, t), factorPpm)) && !Rules(db, t, r, factorPpm)
  {
    var ds := DecideAll(Candidates(db)).value;
    var found := DecisionAt(ds, t);
    DecisionAtIn(ds, t);
    if found.Some? {
      var d := found.value;
      DecisionFits(db, d);
      if d.target.Some? { assert TargetKey(d.target.value) in Named(d); }
    }
  }
}
