/** Ticks on twin tables: the same rows are decided, the same ticks commit, and the tables stay twins. */
module TwinTicks {
  import opened Collections
  import opened Model
  import opened Accounting
  import opened Decisions
  import opened PolicyTable
  import opened Baselines
  import opened Reconciling
  import opened ReconcileProofs
  import opened Ticking
  import opened TickProofs
  import opened Machine
  import opened MachineProofs
  import opened Ledgers
  import opened Unambiguous
  import opened Effective
  import opened Schedule
  import opened Rest
  import opened Commits
  import opened Twins
  import V = ClientView

  // The targets of one row ----------------------------------------------------

  function OnRow(ts: seq<Target>, u: int): seq<Target> {
    if ts == [] then [] else (if On(ts[0], u) then [ts[0]] else []) + OnRow(ts[1..], u)
  }

  /** The clients that the listed rules have on the row, as targets. */
  function RowTargets(db: Db, rs: seq<int>, u: int): seq<Target> {
    if rs == [] then []
    else (if Key(rs[0], u) in db.clients
         && rs[0] in db.rules then [TargetAt(db, Key(rs[0], u))] else []) + RowTargets(db, rs[1..], u)
  }

  lemma {:induction false} OnRowConcat(xs: seq<Target>, ys: seq<Target>, u: int)
    ensures OnRow(xs + ys, u) == OnRow(xs, u) + OnRow(ys, u)
  {
    if xs == [] {
      assert xs + ys == ys && OnRow(xs, u) == [];
    } else {
      OnRowConcat(xs[1..], ys, u);
      OnRowHead(xs, ys, u);
    }
  }

  lemma OnRowHead(xs: seq<Target>, ys: seq<Target>, u: int)
    requires xs != [] && OnRow(xs[1..] + ys, u) == OnRow(xs[1..], u) + OnRow(ys, u)
    ensures OnRow(xs + ys, u) == OnRow(xs, u) + OnRow(ys, u)
  {
    assert (xs + ys)[0] == xs[0] && (xs + ys)[1..] == xs[1..] + ys;
    var here := if On(xs[0], u) then [xs[0]] else [];
    assert here + (OnRow(xs[1..], u) + OnRow(ys, u)) == here + OnRow(xs[1..], u) + OnRow(ys, u);
  }

  lemma {:induction false} OnRowOf(db: Db, r: int, ts: seq<int>, u: int)
    requires Increasing(ts) && r in db.rules
    ensures OnRow(TargetsOf(db, r, ts), u) == if u in ts
            && Key(r, u) in db.clients then [TargetAt(db, Key(r, u))] else []
  {
    if ts != [] {
      var here := if Key(r, ts[0]) in db.clients then [TargetAt(db, Key(r, ts[0]))] else [];
      OnRowOf(db, r, ts[1..], u);
      OnRowConcat(here, TargetsOf(db, r, ts[1..]), u);
      assert u in ts <==> u == ts[0] || u in ts[1..];
      assert ts[0] !in ts[1..];
      assert OnRow(here, u) == if u == ts[0] then here else [];
    }
  }

  lemma {:induction false} OnRowOver(db: Db, rs: seq<int>, u: int)
    requires forall r :: r in rs ==> r in db.rules
    ensures OnRow(TargetsOver(db, rs), u) == RowTargets(db, rs, u)
  {
    if rs != [] {
      var ts := Ascending(db.ClientsOf(rs[0]));
      assert rs[0] in rs && forall r :: r in rs[1..] ==> r in rs;
      OnRowOver(db, rs[1..], u);
      OnRowOf(db, rs[0], ts, u);
      OnRowConcat(TargetsOf(db, rs[0], ts), TargetsOver(db, rs[1..]), u);
      assert Key(rs[0], u) in db.clients ==> u in db.ClientsOf(rs[0]);
    }
  }

  lemma OnRowTargets(db: Db, u: int)
    ensures OnRow(Targets(db), u) == RowTargets(db, Ascending(ActiveIdsOf(db)), u)
  {
    var ids := ActiveIdsOf(db);
    forall r | r in Ascending(ids) ensures r in db.rules { assert r in ids; }
    OnRowOver(db, Ascending(ids), u);
  }

  // The group of one row ------------------------------------------------------

  lemma {:induction false} GroupOfRules(ts: seq<Target>, u: int)
    ensures Group(RuleCandidates(ts), u) == RuleCandidates(OnRow(ts, u))
  {
    if ts != [] {
      GroupOfRules(ts[1..], u);
      assert RuleCandidates(ts)[1..] == RuleCandidates(ts[1..]);
      if On(ts[0], u) {
        assert ([ts[0]] + OnRow(ts[1..], u))[1..] == OnRow(ts[1..], u);
      } else {
        assert OnRow(ts, u) == OnRow(ts[1..], u);
      }
    }
  }

  lemma {:induction false} OnRowLast(ts: seq<Target>, u: int)
    requires ts != []
    ensures OnRow(ts, u) == OnRow(ts[..|ts| - 1], u) + if On(ts[|ts| - 1], u) then [ts[|ts| - 1]] else []
  {
    var init, last := ts[..|ts| - 1], ts[|ts| - 1];
    assert ts == init + [last];
    OnRowConcat(init, [last], u);
  }

  lemma {:induction false} LastNamedOnRow(ts: seq<Target>, u: int, email: string)
    ensures LastNamed(ts, u, email) == LastNamed(OnRow(ts, u), u, email)
  {
    if ts != [] {
      var init, last := ts[..|ts| - 1], ts[|ts| - 1];
      LastNamedOnRow(init, u, email);
      OnRowLast(ts, u);
      if On(last, u) {
        var row := OnRow(init, u) + [last];
        assert row[..|row| - 1] == OnRow(init, u);
      } else {
        assert OnRow(ts, u) == OnRow(init, u);
      }
    }
  }

  /** The two lists name the same targets on the row. */
  ghost predicate NameAlike(ts: seq<Target>, us: seq<Target>, u: int) {
    forall email :: LastNamed(ts, u, email) == LastNamed(us, u, email)
  }

  lemma {:induction false} GroupOfPolicies(os: seq<PolicyRow>, ts: seq<Target>, us: seq<Target>, u: int)
    requires NameAlike(ts, us, u)
    ensures Group(OverrideCandidates(os, ts), u) == Group(OverrideCandidates(os, us), u)
    ensures Group(ExcludeCandidates(os, ts), u) == Group(ExcludeCandidates(os, us), u)
  {
    if os != [] {
      GroupOfPolicies(os[1..], ts, us, u);
      PolicyHead(os, ts, u);
      PolicyHead(os, us, u);
      assert LastNamed(ts, u, os[0].policy.email) == LastNamed(us, u, os[0].policy.email);
    }
  }

  lemma PolicyHead(os: seq<PolicyRow>, ts: seq<Target>, u: int)
    requires os != []
    ensures var o, last := os[0], LastNamed(ts, u, os[0].policy.email);
            && Group(OverrideCandidates(os, ts), u)
               == (if o.policy.trafficId == u
                   && last.Some? then [OverrideCandidate(o, last.value)] else
                                        []) + Group(OverrideCandidates(os[1..], ts), u)
            && Group(ExcludeCandidates(os, ts), u)
               == (if o.policy.trafficId == u
                   && last.Some? then [ExcludeCandidate(o)] else []) + Group(ExcludeCandidates(os[1..], ts), u)
  {
    var o := os[0];
    var found := LastNamed(ts, o.policy.trafficId, o.policy.email);
    if found.Some? {
      assert ([OverrideCandidate(o, found.value)] + OverrideCandidates(os[1..], ts))[1..]
          == OverrideCandidates(os[1..], ts);
      assert ([ExcludeCandidate(o)] + ExcludeCandidates(os[1..], ts))[1..] == ExcludeCandidates(os[1..], ts);
    }
  }

  // Rows off the held one -------------------------------------------------------

  lemma TwinActiveIds(a: Db, b: Db, t: int, r: int, s: int, p: int)
    requires Twin(a, b, t, r, s, p) && p != r
    ensures ActiveIdsOf(b) == ActiveIdsOf(a) && r !in ActiveIdsOf(a)
  {
    forall x ensures x in ActiveIdsOf(b) <==> x in ActiveIdsOf(a) {}
  }

  lemma {:induction false} RowTargetsOff(a: Db, b: Db, t: int, r: int, rs: seq<int>, u: int)
    requires SameOff(a, b, t, r) && u != t && r !in rs
    ensures RowTargets(a, rs, u) == RowTargets(b, rs, u)
  {
    if rs != [] {
      assert rs[0] in rs && rs[0] != r && Key(rs[0], u).traffic != t;
      RowTargetsOff(a, b, t, r, rs[1..], u);
    }
  }

  lemma GroupParts(db: Db, u: int)
    ensures var ts, es, os := Targets(db), PolicyRows(db.excludes, ListActive(db.excludes)),
            PolicyRows(db.overrides, ListActive(db.overrides));
            Group(Candidates(db), u) == Group(RuleCandidates(ts), u) + Group(OverrideCandidates(os, ts),
                u) + Group(ExcludeCandidates(es, ts), u)
  {
    var ts, es, os := Targets(db), PolicyRows(db.excludes, ListActive(db.excludes)),
        PolicyRows(db.overrides, ListActive(db.overrides));
    V.GroupConcat(RuleCandidates(ts) + OverrideCandidates(os, ts), ExcludeCandidates(es, ts), u);
    V.GroupConcat(RuleCandidates(ts), OverrideCandidates(os, ts), u);
  }

  lemma AlikeOnRow(ts: seq<Target>, us: seq<Target>, u: int)
    requires OnRow(ts, u) == OnRow(us, u)
    ensures NameAlike(ts, us, u)
  {
    forall email ensures LastNamed(ts, u, email) == LastNamed(us, u, email) {
      LastNamedOnRow(ts, u, email);
      LastNamedOnRow(us, u, email);
    }
  }

  /** Every other row has the very same candidates. */
  lemma GroupOff(a: Db, b: Db, t: int, r: int, s: int, p: int, u: int)
    requires Twin(a, b, t, r, s, p) && p != r && u != t
    ensures Group(Candidates(a), u) == Group(Candidates(b), u)
  {
    TwinActiveIds(a, b, t, r, s, p);
    OnRowTargets(a, u);
    OnRowTargets(b, u);
    RowTargetsOff(a, b, t, r, Ascending(ActiveIdsOf(a)), u);
    AlikeOnRow(Targets(a), Targets(b), u);
    GroupOfRules(Targets(a), u);
    GroupOfRules(Targets(b), u);
    GroupOfPolicies(PolicyRows(a.overrides, ListActive(a.overrides)), Targets(a), Targets(b), u);
    GroupOfPolicies(PolicyRows(a.excludes, ListActive(a.excludes)), Targets(a), Targets(b), u);
    GroupParts(a, u);
    GroupParts(b, u);
  }

  // The held row ------------------------------------------------------------

  lemma {:induction false} SoleTargets(db: Db, rs: seq<int>, t: int, p: int)
    requires Increasing(rs) && (forall x :: x in rs && x != p ==> Key(x, t) !in db.clients)
    requires Key(p, t) in db.clients && p in db.rules
    ensures RowTargets(db, rs, t) == if p in rs then [TargetAt(db, Key(p, t))] else []
  {
    if rs != [] {
      assert rs[0] in rs && forall x :: x in rs <==> x == rs[0] || x in rs[1..];
      assert rs[0] !in rs[1..];
      SoleTargets(db, rs[1..], t, p);
    }
  }

  lemma HeldTargets(a: Db, t: int, r: int, p: int)
    requires Held(a, t, r, p)
    ensures OnRow(Targets(a), t) == [TargetAt(a, Key(p, t))]
  {
    var ids := ActiveIdsOf(a);
    forall x | x in Ascending(ids) && x != p ensures Key(x, t) !in a.clients { assert x in ids && !a.Owns(x, t); }
    assert p in ids;
    SoleTargets(a, Ascending(ids), t, p);
    OnRowTargets(a, t);
  }

  lemma HeldNames(a: Db, t: int, r: int, p: int, email: string)
    requires Held(a, t, r, p)
    ensures LastNamed(Targets(a), t, email).Some? <==> email == a.clients[Key(p, t)].email
  {
    HeldTargets(a, t, r, p);
    LastNamedOnRow(Targets(a), t, email);
    var x := TargetAt(a, Key(p, t));
    assert [x][..0] == [];
    assert LastNamed([x], t, email) == if Names(x, t, email) then Some(x) else None;
  }

  lemma {:induction false} PolicyCounts(os: seq<PolicyRow>, ts: seq<Target>, us: seq<Target>, u: int)
    requires forall email :: LastNamed(ts, u, email).Some? <==> LastNamed(us, u, email).Some?
    ensures |Group(OverrideCandidates(os, ts), u)| == |Group(OverrideCandidates(os, us), u)|
    ensures |Group(ExcludeCandidates(os, ts), u)| == |Group(ExcludeCandidates(os, us), u)|
  {
    if os != [] {
      PolicyCounts(os[1..], ts, us, u);
      PolicyHead(os, ts, u);
      PolicyHead(os, us, u);
      assert LastNamed(ts, u, os[0].policy.email).Some? <==> LastNamed(us, u, os[0].policy.email).Some?;
    }
  }

  /** Two lists with a rule candidate first and policies after it. */
  predicate RanksAlike(cs: seq<Candidate>, ds: seq<Candidate>) {
    && |cs| == |ds| > 0 && Precedence(cs[0].source) < 90 && Precedence(ds[0].source) < 90
    && forall i :: 0 < i < |cs| ==> Precedence(cs[i].source) == Precedence(ds[i].source) >= 90
  }

  lemma TiesByRank(cs: seq<Candidate>, ds: seq<Candidate>)
    requires RanksAlike(cs, ds) && TopTie(cs)
    ensures TopTie(ds)
  {
    var i, j :| 0 <= i < j < |cs| && Top(cs, cs[i]) && Top(cs, cs[j]);
    assert i != 0 by { assert cs[j] in cs; }
    forall e | e in ds ensures Precedence(e.source) <= Precedence(ds[i].source) {
      var n :| 0 <= n < |ds| && ds[n] == e;
      assert cs[n] in cs;
    }
    assert Precedence(ds[j].source) == Precedence(ds[i].source) by { assert cs[i] in cs && cs[j] in cs; }
    assert Top(ds, ds[i]) && Top(ds, ds[j]);
  }

  ghost predicate AllOverrides(cs: seq<Candidate>) {
    forall c :: c in cs ==> c.source.SourceUserOverride?
  }

  ghost predicate AllExcludes(cs: seq<Candidate>) {
    forall c :: c in cs ==> c.source.SourceExclude?
  }

  lemma SourceOf(c: Candidate, os: seq<Candidate>, es: seq<Candidate>, i: int)
    requires 0 < i < 1 + |os| + |es| && AllOverrides(os) && AllExcludes(es)
    ensures Precedence(([c] + os + es)[i].source) == if i <= |os| then 90 else 100
  {
    var x := if i <= |os| then os[i - 1] else es[i - 1 - |os|];
    assert ([c] + os + es)[i] == x && (if i <= |os| then x in os else x in es);
  }

  lemma PartsAlike(c: Candidate, os: seq<Candidate>, es: seq<Candidate>, d: Candidate, os': seq<Candidate>,
      es': seq<Candidate>)
    requires RuleSource(c.source) && RuleSource(d.source) && |os'| == |os| && |es'| == |es|
    requires AllOverrides(os) && AllOverrides(os') && AllExcludes(es) && AllExcludes(es')
    ensures RanksAlike([c] + os + es, [d] + os' + es')
  {
    var cs, ds := [c] + os + es, [d] + os' + es';
    forall i | 0 < i < |cs| ensures Precedence(cs[i].source) == Precedence(ds[i].source) >= 90 {
      SourceOf(c, os, es, i);
      SourceOf(d, os', es', i);
    }
  }

  lemma OneRuleCandidate(x: Target)
    ensures RuleCandidates([x]) == [RuleCandidate(x)]
  {
    assert [x][1..] == [];
  }

  /** The held row's group: the holder's candidate, then overrides, then excludes. */
  lemma HeldGroup(a: Db, t: int, r: int, p: int) returns (c: Candidate, os: seq<Candidate>, es: seq<Candidate>)
    requires Held(a, t, r, p)
    ensures Group(Candidates(a), t) == [c] + os + es && RuleSource(c.source) && AllOverrides(os) && AllExcludes(es)
    ensures os == Group(OverrideCandidates(PolicyRows(a.overrides, ListActive(a.overrides)), Targets(a)), t)
    ensures es == Group(ExcludeCandidates(PolicyRows(a.excludes, ListActive(a.excludes)), Targets(a)), t)
  {
    GroupParts(a, t);
    HeldTargets(a, t, r, p);
    GroupOfRules(Targets(a), t);
    GroupSources(a, t);
    c := RuleCandidate(TargetAt(a, Key(p, t)));
    OneRuleCandidate(TargetAt(a, Key(p, t)));
    os := Group(OverrideCandidates(PolicyRows(a.overrides, ListActive(a.overrides)), Targets(a)), t);
    es := Group(ExcludeCandidates(PolicyRows(a.excludes, ListActive(a.excludes)), Targets(a)), t);
  }

  lemma HeldCounts(a: Db, b: Db, t: int, r: int, p: int, s: int, os: seq<PolicyRow>)
    requires Held(a, t, r, p) && Held(b, t, r, s) && a.clients[Key(p, t)].email == b.clients[Key(s, t)].email
    ensures |Group(OverrideCandidates(os, Targets(a)), t)| == |Group(OverrideCandidates(os, Targets(b)), t)|
    ensures |Group(ExcludeCandidates(os, Targets(a)), t)| == |Group(ExcludeCandidates(os, Targets(b)), t)|
  {
    forall email ensures LastNamed(Targets(a), t, email).Some? <==> LastNamed(Targets(b), t, email).Some? {
      HeldNames(a, t, r, p, email);
      HeldNames(b, t, r, s, email);
    }
    PolicyCounts(os, Targets(a), Targets(b), t);
  }

  /** The held row is refused as ambiguous on the one side when it is on the other. */
  lemma HeldTie(a: Db, b: Db, t: int, r: int, p: int, s: int)
    requires Held(a, t, r, p) && Held(b, t, r, s) && b.excludes == a.excludes && b.overrides == a.overrides
    requires a.clients[Key(p, t)].email == b.clients[Key(s, t)].email && TopTie(Group(Candidates(a), t))
    ensures TopTie(Group(Candidates(b), t))
  {
    var c, os, es := HeldGroup(a, t, r, p);
    var d, os', es' := HeldGroup(b, t, r, s);
    HeldCounts(a, b, t, r, p, s, PolicyRows(a.overrides, ListActive(a.overrides)));
    HeldCounts(a, b, t, r, p, s, PolicyRows(a.excludes, ListActive(a.excludes)));
    PartsAlike(c, os, es, d, os', es');
    TiesByRank([c] + os + es, [d] + os' + es');
  }

  // Decisions -----------------------------------------------------------------

  lemma HeldHasGroup(a: Db, t: int, r: int, p: int)
    requires Held(a, t, r, p)
    ensures t in GroupIds(Candidates(a))
  {
    KeyHasCandidate(a, Key(p, t));
  }

  lemma GroupIdsTwin(a: Db, b: Db, t: int, r: int, s: int, p: int)
    requires Twin(a, b, t, r, s, p) && p != r
    ensures GroupIds(Candidates(a)) == GroupIds(Candidates(b))
  {
    HeldHasGroup(a, t, r, p);
    HeldHasGroup(b, t, r, s);
    forall u ensures u in GroupIds(Candidates(a)) <==> u in GroupIds(Candidates(b)) {
      if u != t {
        GroupOff(a, b, t, r, s, p, u);
        if u in GroupIds(Candidates(a)) { GroupNonEmpty(Candidates(a), u); }
        if u in GroupIds(Candidates(b)) { GroupNonEmpty(Candidates(b), u); }
        GroupHasId(Candidates(a), u);
        GroupHasId(Candidates(b), u);
      }
    }
  }

  lemma GroupTies(a: Db, b: Db, t: int, r: int, s: int, p: int, u: int)
    requires Twin(a, b, t, r, s, p) && p != r
    ensures TopTie(Group(Candidates(a), u)) <==> TopTie(Group(Candidates(b), u))
  {
    if u != t {
      GroupOff(a, b, t, r, s, p, u);
    } else {
      if TopTie(Group(Candidates(a), t)) { HeldTie(a, b, t, r, p, s); }
      if TopTie(Group(Candidates(b), t)) { HeldTie(b, a, t, r, s, p); }
    }
  }

  /** Twin tables are decided together or refused together. */
  lemma DecidedTogether(a: Db, b: Db, t: int, r: int, s: int, p: int)
    requires Twin(a, b, t, r, s, p) && p != r
    ensures DecideAll(Candidates(a)).Ok? <==> DecideAll(Candidates(b)).Ok?
  {
    GroupIdsTwin(a, b, t, r, s, p);
    forall u
      ensures TopTie(Group(Candidates(a), u)) <==> TopTie(Group(Candidates(b), u))
    {
      GroupTies(a, b, t, r, s, p, u);
    }
    DecideRefusesTies(Candidates(a));
    DecideRefusesTies(Candidates(b));
  }

  /** The decision of any other row is the same on both. */
  lemma SameDecision(a: Db, b: Db, t: int, r: int, s: int, p: int, d: Decision)
    requires Twin(a, b, t, r, s, p) && p != r && DecideAll(Candidates(a)).Ok? && DecideAll(Candidates(b)).Ok?
    requires d in DecideAll(Candidates(a)).value && d.trafficId != t
    ensures d in DecideAll(Candidates(b)).value
  {
    GroupOff(a, b, t, r, s, p, d.trafficId);
    GroupIdsTwin(a, b, t, r, s, p);
    DecidePerTraffic(Candidates(a));
    DecidePerTraffic(Candidates(b));
    assert d.trafficId in GroupIds(Candidates(b));
    var e :| e in DecideAll(Candidates(b)).value && e.trafficId == d.trafficId;
  }

  lemma SameDecisionBack(a: Db, b: Db, t: int, r: int, s: int, p: int, d: Decision)
    requires Twin(a, b, t, r, s, p) && p != r && DecideAll(Candidates(a)).Ok? && DecideAll(Candidates(b)).Ok?
    requires d in DecideAll(Candidates(b)).value && d.trafficId != t
    ensures d in DecideAll(Candidates(a)).value
  {
    GroupOff(a, b, t, r, s, p, d.trafficId);
    GroupIdsTwin(a, b, t, r, s, p);
    DecidePerTraffic(Candidates(a));
    DecidePerTraffic(Candidates(b));
    assert d.trafficId in GroupIds(Candidates(a));
    var e :| e in DecideAll(Candidates(a)).value && e.trafficId == d.trafficId;
  }

  // The held row's decision -------------------------------------------------------

  lemma HeldSole(a: Db, t: int, r: int, p: int)
    requires Held(a, t, r, p)
    ensures Effective.SoleOn(a, Key(p, t))
  {
  }

  /** The same factor is effective on both, for the holder. */
  lemma HeldFactor(a: Db, b: Db, t: int, r: int, s: int, p: int, factorPpm: Option<int64>)
    requires Twin(a, b, t, r, s, p)
    ensures FactorIs(a, Key(p, t), factorPpm) <==> FactorIs(b, Key(s, t), factorPpm)
  {
    forall id ensures NamesKey(a, a.excludes, id, Key(p, t)) == NamesKey(b, b.excludes, id, Key(s, t)) {}
    forall id ensures NamesKey(a, a.overrides, id, Key(p, t)) == NamesKey(b, b.overrides, id, Key(s, t)) {}
    assert NamedIn(a, a.excludes, Key(p, t)) == NamedIn(b, b.excludes, Key(s, t));
    assert NamedIn(a, a.overrides, Key(p, t)) == NamedIn(b, b.overrides, Key(s, t));
  }

  /** The effective factor of the held row, or none where it is excluded. */
  lemma HeldEffective(a: Db, b: Db, t: int, r: int, s: int, p: int) returns (factorPpm: Option<int64>)
    requires Twin(a, b, t, r, s, p) && DecideAll(Candidates(a)).Ok? && DecideAll(Candidates(b)).Ok?
    ensures EffectiveOn(a, t) == if factorPpm.None? then None else Some((Key(p, t), factorPpm.value))
    ensures EffectiveOn(b, t) == if factorPpm.None? then None else Some((Key(s, t), factorPpm.value))
  {
    HeldSole(a, t, r, p);
    HeldSole(b, t, r, s);
    factorPpm := SomeFactor(a, Key(p, t));
    HeldFactor(a, b, t, r, s, p, factorPpm);
    EffectiveExactly(a, Key(p, t), factorPpm);
    EffectiveExactly(b, Key(s, t), factorPpm);
  }

  lemma SomeFactor(a: Db, k: Key) returns (factorPpm: Option<int64>)
    requires ActiveKey(a, k)
    ensures FactorIs(a, k, factorPpm)
  {
    if NamedIn(a, a.excludes, k) {
      factorPpm := None;
    } else if id :| NamesKey(a, a.overrides, id, k) {
      factorPpm := Some(a.overrides[id].factorPpm);
    } else {
      factorPpm := Some(a.rules[k.rule].factorPpm);
    }
  }

  /** Whether the row's charge would go through. */
  predicate Payable(row: Traffic, rc: RuleClient, factorPpm: int64, raced: bool) {
    ChargeFor(row, rc, factorPpm).Ok? && !(ChargeFor(row, rc, factorPpm).value.Charged? && raced)
  }

  lemma HeldWinnable(a: Db, k: Key, factorPpm: Option<int64>, env: TickEnv, d: Decision)
    requires DecideAll(Candidates(a)).Ok? && d in DecideAll(Candidates(a)).value && d.trafficId == k.traffic
             && Matched(a, k)
    requires EffectiveOn(a, k.traffic) == if factorPpm.None? then None else Some((k, factorPpm.value))
    ensures Winnable(a, d, env) <==>
              (factorPpm.Some? && k.traffic !in env.locked ==>
                 Payable(a.traffic[k.traffic], a.clients[k], factorPpm.value, k.traffic in env.raced))
  {
    DecisionFits(a, d);
    DecisionFound(a, d);
    EffectiveFound(a, DecideAll(Candidates(a)).value, d);
  }

  lemma ChargeReadsAccount(row: Traffic, rc: RuleClient, other: RuleClient, factorPpm: int64)
    requires SameAccount(rc, other) && rc.missingAt.None? && other.missingAt.None?
    ensures ChargeFor(row, rc, factorPpm) == ChargeFor(row, other, factorPpm)
  {
  }

  lemma HeldPayable(a: Db, b: Db, t: int, r: int, s: int, p: int, env: TickEnv, d: Decision, e: Decision)
    requires Twin(a, b, t, r, s, p) && DecideAll(Candidates(a)).Ok? && DecideAll(Candidates(b)).Ok?
    requires d in DecideAll(Candidates(a)).value && d.trafficId == t && e in DecideAll(Candidates(b)).value
             && e.trafficId == t
    ensures Winnable(a, d, env) <==> Winnable(b, e, env)
  {
    var f := HeldEffective(a, b, t, r, s, p);
    HeldWinnable(a, Key(p, t), f, env, d);
    HeldWinnable(b, Key(s, t), f, env, e);
    if f.Some? { ChargeReadsAccount(a.traffic[t], a.clients[Key(p, t)], b.clients[Key(s, t)], f.value); }
  }

  lemma WinnableOff(a: Db, b: Db, t: int, r: int, d: Decision, env: TickEnv)
    requires SameOff(a, b, t, r)
    ensures Winnable(a, d, env) <==> Winnable(b, d, env)
  {
  }

  lemma HeldDecision(a: Db, t: int, r: int, p: int) returns (d: Decision)
    requires Held(a, t, r, p) && DecideAll(Candidates(a)).Ok?
    ensures d in DecideAll(Candidates(a)).value && d.trafficId == t && Key(p, t) in Named(d)
  {
    d := DecisionOf(a, Key(p, t));
  }

  lemma WinnersPass(a: Db, b: Db, t: int, r: int, s: int, p: int, env: TickEnv, d: Decision, ds: seq<Decision>,
      es: seq<Decision>)
    requires Twin(a, b, t, r, s, p) && p != r && DecideAll(Candidates(a)) == Ok(ds)
             && DecideAll(Candidates(b)) == Ok(es)
    requires d in es && forall x :: x in ds ==> Winnable(a, x, env)
    ensures Winnable(b, d, env)
  {
    if d.trafficId == t {
      var e := HeldDecision(a, t, r, p);
      HeldPayable(a, b, t, r, s, p, env, e, d);
    } else {
      SameDecisionBack(a, b, t, r, s, p, d);
      WinnableOff(a, b, t, r, d, env);
    }
  }

  lemma WinnersPassBack(a: Db, b: Db, t: int, r: int, s: int, p: int, env: TickEnv, d: Decision, ds: seq<Decision>,
      es: seq<Decision>)
    requires Twin(a, b, t, r, s, p) && p != r && DecideAll(Candidates(a)) == Ok(ds)
             && DecideAll(Candidates(b)) == Ok(es)
    requires d in ds && forall x :: x in es ==> Winnable(b, x, env)
    ensures Winnable(a, d, env)
  {
    if d.trafficId == t {
      var e := HeldDecision(b, t, r, s);
      HeldPayable(a, b, t, r, s, p, env, d, e);
    } else {
      SameDecision(a, b, t, r, s, p, d);
      WinnableOff(a, b, t, r, d, env);
    }
  }

  /** Charging commits on both or on neither. */
  lemma ChargedTogether(a: Db, b: Db, t: int, r: int, s: int, p: int, env: TickEnv, now: int, ds: seq<Decision>,
      es: seq<Decision>)
    requires Twin(a, b, t, r, s, p) && p != r && DecideAll(Candidates(a)) == Ok(ds)
             && DecideAll(Candidates(b)) == Ok(es)
    ensures TickDecisions(a, ds, env, now).Ok? <==> TickDecisions(b, es, env, now).Ok?
  {
    TickCommitsExactly(a, env, now);
    TickCommitsExactly(b, env, now);
    if forall x :: x in ds ==> Winnable(a, x, env) {
      forall d | d in es ensures Winnable(b, d, env) { WinnersPass(a, b, t, r, s, p, env, d, ds, es); }
    }
    if forall x :: x in es ==> Winnable(b, x, env) {
      forall d | d in ds ensures Winnable(a, d, env) { WinnersPassBack(a, b, t, r, s, p, env, d, ds, es); }
    }
  }
}
