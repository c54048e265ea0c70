/** internal/engine/effective.go: the decision shown for one client, which must be the one the tick takes. */
module ClientView {
  import opened Collections
  import opened Model
  import opened Decisions
  import T = Ticking
  import PolicyTable

  predicate TargetAllows(target: Target, row: Traffic) {
    match target.scope
    case None => row.enable
    case Some(scope) => scope.includeDisabled || row.enable
  }

  predicate ValidFor(target: Target, id: int, row: Traffic) {
    Names(target, id, row.email) && target.client.missingAt.None? && TargetAllows(target, row)
  }

  function ValidTargets(targets: seq<Target>, id: int, row: Traffic): seq<Target> {
    if targets == [] then []
    else (if ValidFor(targets[0], id, row) then [targets[0]] else []) + ValidTargets(targets[1..], id, row)
  }

  method ValidTargetsForClient(targets: seq<Target>, id: int, row: Traffic) returns (valid: seq<Target>)
    ensures valid == ValidTargets(targets, id, row)
    ensures forall t :: t in valid <==> t in targets && ValidFor(t, id, row)
  {
    valid := [];
    var i := 0;
    assert targets[0..] == targets;
    while i < |targets|
      invariant 0 <= i <= |targets|
      invariant valid + ValidTargets(targets[i..], id, row) == ValidTargets(targets, id, row)
    {
      var t := targets[i];
      assert targets[i..][0] == t && targets[i..][1..] == targets[i + 1..];
      ghost var rest := ValidTargets(targets[i + 1..], id, row);
      if t.trafficId == id && t.client.email == row.email && t.client.missingAt.None? && TargetAllows(t, row) {
        assert valid + ([t] + rest) == valid + [t] + rest;
        valid := valid + [t];
      } else {
        assert [] + rest == rest;
      }
      i := i + 1;
    }
    ValidMembers(targets, id, row);
  }

  lemma {:induction false} ValidMembers(targets: seq<Target>, id: int, row: Traffic)
    ensures forall t :: t in ValidTargets(targets, id, row) <==> t in targets && ValidFor(t, id, row)
  {
    if targets != [] {
      ValidMembers(targets[1..], id, row);
      assert forall t :: t in targets <==> t == targets[0] || t in targets[1..];
    }
  }

  function Matching(targets: seq<Target>, id: int, email: string): seq<Target> {
    if targets == [] then []
    else (if Names(targets[0], id, email) then [targets[0]] else []) + Matching(targets[1..], id, email)
  }

  function FirstExact(policies: seq<PolicyRow>, id: int, email: string): Option<PolicyRow> {
    if policies == [] then None
    else if policies[0].policy.trafficId == id && policies[0].policy.email == email then Some(policies[0])
    else FirstExact(policies[1..], id, email)
  }

  function IdleOverride(o: PolicyRow): Candidate {
    Candidate(None, SourceUserOverride, o.id, o.policy.trafficId, o.policy.inboundId, o.policy.email,
        o.policy.factorPpm)
  }

  function ClientCandidates(id: int, row: Traffic, targets: seq<Target>, excludes: seq<PolicyRow>,
      overrides: seq<PolicyRow>): seq<Candidate> {
    var matching := Matching(targets, id, row.email);
    var byOverride := OverrideCandidates(overrides, matching);
    var byExclude := ExcludeCandidates(excludes, matching);
    var loneExclude := if byExclude == [] then FirstExact(excludes, id, row.email) else None;
    var loneOverride := if byOverride == [] then FirstExact(overrides, id, row.email) else None;
    RuleCandidates(matching) + byOverride + byExclude
    + (if loneExclude.Some? then [ExcludeCandidate(loneExclude.value)] else [])
    + (if loneOverride.Some? then [IdleOverride(loneOverride.value)] else [])
  }

  function DecideClient(id: int, row: Traffic, candidates: seq<Candidate>): Result<Decision> {
    if candidates == [] then Ok(Decision(id, row.inboundId, row.email, SourceNone, 0, 0, None, [], []))
    else DecideGroup(candidates)
  }

  function DecideLoadedClient(id: int, row: Traffic, targets: seq<Target>, excludes: seq<PolicyRow>,
      overrides: seq<PolicyRow>): Result<Decision> {
    DecideClient(id, row, ClientCandidates(id, row, ValidTargets(targets, id, row), excludes, overrides))
  }

  /** Every active target of the row is the client's, is not missing, and its rule admits the client. */
  ghost predicate AllTargetsValid(targets: seq<Target>, id: int, row: Traffic) {
    forall t :: t in targets && t.trafficId == id ==> ValidFor(t, id, row)
  }

  lemma {:induction false} ValidAreMatching(targets: seq<Target>, id: int, row: Traffic)
    requires AllTargetsValid(targets, id, row)
    ensures ValidTargets(targets, id, row) == Matching(targets, id, row.email)
    ensures Matching(Matching(targets, id, row.email), id, row.email) == Matching(targets, id, row.email)
  {
    if targets != [] {
      assert forall t :: t in targets[1..] ==> t in targets;
      ValidAreMatching(targets[1..], id, row);
      var rest := Matching(targets[1..], id, row.email);
      assert ([targets[0]] + rest)[1..] == rest;
      assert [] + rest == rest;
    }
  }

  lemma {:induction false} MatchingRules(targets: seq<Target>, id: int, row: Traffic)
    requires AllTargetsValid(targets, id, row)
    ensures Group(RuleCandidates(targets), id) == RuleCandidates(Matching(targets, id, row.email))
  {
    if targets != [] {
      assert forall t :: t in targets[1..] ==> t in targets;
      MatchingRules(targets[1..], id, row);
      var rest := Matching(targets[1..], id, row.email);
      assert ([targets[0]] + rest)[1..] == rest;
      assert [] + rest == rest;
    }
  }

  lemma {:induction false} MatchingSnoc(targets: seq<Target>, t: Target, id: int, email: string)
    ensures Matching(targets + [t], id, email) == Matching(targets, id, email) + if Names(t, id, email) then [t] else []
  {
    if targets != [] {
      assert (targets + [t])[1..] == targets[1..] + [t];
      MatchingSnoc(targets[1..], t, id, email);
    } else {
      assert (targets + [t])[1..] == [];
    }
  }

  lemma {:induction false} LastNamedSnoc(targets: seq<Target>, t: Target, id: int, email: string)
    ensures LastNamed(targets + [t], id, email) == if Names(t, id, email) then
              Some(t) else LastNamed(targets, id, email)
  {
    assert (targets + [t])[..|targets|] == targets;
  }

  /** Restricting to the client's own targets loses no policy that names the row. */
  lemma {:induction false} LastNamedMatching(targets: seq<Target>, id: int, row: Traffic, tid: int, email: string)
    requires AllTargetsValid(targets, id, row)
    ensures LastNamed(Matching(targets, id, row.email), tid, email) == if tid == id then
              LastNamed(targets, tid, email) else None
  {
    if targets != [] {
      var init, t := targets[..|targets| - 1], targets[|targets| - 1];
      assert targets == init + [t];
      assert forall x :: x in init ==> x in targets;
      LastNamedMatching(init, id, row, tid, email);
      MatchingSnoc(init, t, id, row.email);
      LastNamedSnoc(init, t, tid, email);
      if Names(t, id, row.email) {
        LastNamedSnoc(Matching(init, id, row.email), t, tid, email);
      } else {
        assert Matching(init, id, row.email) + [] == Matching(init, id, row.email);
        assert t.trafficId == id ==> ValidFor(t, id, row);
      }
    }
  }

  lemma {:induction false} MatchingOverrides(overrides: seq<PolicyRow>, targets: seq<Target>, id: int, row: Traffic)
    requires AllTargetsValid(targets, id, row)
    ensures Group(OverrideCandidates(overrides, targets), id)
            == OverrideCandidates(overrides, Matching(targets, id, row.email))
  {
    if overrides != [] {
      var o := overrides[0].policy;
      LastNamedMatching(targets, id, row, o.trafficId, o.email);
      MatchingOverrides(overrides[1..], targets, id, row);
    }
  }

  lemma {:induction false} MatchingExcludes(excludes: seq<PolicyRow>, targets: seq<Target>, id: int, row: Traffic)
    requires AllTargetsValid(targets, id, row)
    ensures Group(ExcludeCandidates(excludes, targets), id)
            == ExcludeCandidates(excludes, Matching(targets, id, row.email))
  {
    if excludes != [] {
      var e := excludes[0].policy;
      LastNamedMatching(targets, id, row, e.trafficId, e.email);
      MatchingExcludes(excludes[1..], targets, id, row);
    }
  }

  lemma {:induction false} GroupConcat(a: seq<Candidate>, b: seq<Candidate>, t: int)
    ensures Group(a + b, t) == Group(a, t) + Group(b, t)
  {
    if a == [] {
      assert a + b == b;
    } else {
      assert (a + b)[1..] == a[1..] + b;
      GroupConcat(a[1..], b, t);
    }
  }

  lemma {:induction false} MatchingMembers(targets: seq<Target>, id: int, email: string, t: Target)
    ensures t in Matching(targets, id, email) <==> t in targets && Names(t, id, email)
  {
    if targets != [] {
      MatchingMembers(targets[1..], id, email, t);
    }
  }

  lemma {:induction false} LastNamedFound(targets: seq<Target>, t: Target)
    requires t in targets
    ensures LastNamed(targets, t.trafficId, t.client.email).Some?
  {
    var init := targets[..|targets| - 1];
    assert targets == init + [targets[|targets| - 1]];
    if !Names(targets[|targets| - 1], t.trafficId, t.client.email) {
      LastNamedFound(init, t);
    }
  }

  /** With a target on the row, an exact policy always has a candidate, so no fallback is taken. */
  lemma {:induction false} ExactHasCandidate(policies: seq<PolicyRow>, targets: seq<Target>, id: int, email: string)
    requires LastNamed(targets, id, email).Some? && FirstExact(policies, id, email).Some?
    ensures OverrideCandidates(policies, targets) != [] && ExcludeCandidates(policies, targets) != []
  {
    if !(policies[0].policy.trafficId == id && policies[0].policy.email == email) {
      ExactHasCandidate(policies[1..], targets, id, email);
    }
  }

  lemma TickGroup(id: int, row: Traffic, targets: seq<Target>, excludes: seq<PolicyRow>, overrides: seq<PolicyRow>)
    requires AllTargetsValid(targets, id, row)
    ensures var matching := Matching(targets, id, row.email);
            Group(TickCandidates(targets, excludes, overrides), id)
            == RuleCandidates(matching) + OverrideCandidates(overrides, matching) + ExcludeCandidates(excludes,
                matching)
  {
    GroupConcat(RuleCandidates(targets) + OverrideCandidates(overrides, targets),
        ExcludeCandidates(excludes, targets), id);
    GroupConcat(RuleCandidates(targets), OverrideCandidates(overrides, targets), id);
    MatchingRules(targets, id, row);
    MatchingOverrides(overrides, targets, id, row);
    MatchingExcludes(excludes, targets, id, row);
  }

  lemma {:induction false} NoTargetsNoCandidates(policies: seq<PolicyRow>)
    ensures OverrideCandidates(policies, []) == [] && ExcludeCandidates(policies, []) == []
  {
    if policies != [] {
      NoTargetsNoCandidates(policies[1..]);
    }
  }

  /** The client's own view is the tick's decision for its row; where the tick has no target, neither has the view. */
  lemma ViewAgreesWithTick(id: int, row: Traffic, targets: seq<Target>, excludes: seq<PolicyRow>,
      overrides: seq<PolicyRow>)
    requires AllTargetsValid(targets, id, row)
    ensures var group := Group(TickCandidates(targets, excludes, overrides), id);
            var view := DecideLoadedClient(id, row, targets, excludes, overrides);
            && (group == [] <==> forall t :: t in targets ==> t.trafficId != id)
            && (group != [] ==> view == DecideGroup(group))
            && (group == [] && view.Ok? ==> view.value.target.None?)
  {
    TickGroup(id, row, targets, excludes, overrides);
    ValidAreMatching(targets, id, row);
    var matching := Matching(targets, id, row.email);
    forall t | t in targets && t.trafficId == id ensures t in matching { MatchingMembers(targets, id, row.email, t); }
    if matching == [] {
      NoTargetsNoCandidates(overrides);
      NoTargetsNoCandidates(excludes);
      if DecideLoadedClient(id, row, targets, excludes, overrides).Ok? { NoTargetNoView(id, row, excludes, overrides); }
    } else {
      MatchingMembers(targets, id, row.email, matching[0]);
      LastNamedFound(matching, matching[0]);
      assert RuleCandidates(matching) != [];
      if FirstExact(excludes, id, row.email).Some? { ExactHasCandidate(excludes, matching, id, row.email); }
      if FirstExact(overrides, id, row.email).Some? { ExactHasCandidate(overrides, matching, id, row.email); }
      var group := Group(TickCandidates(targets, excludes, overrides), id);
      assert ClientCandidates(id, row, matching, excludes, overrides) == group;
    }
  }

  lemma NoTargetNoView(id: int, row: Traffic, excludes: seq<PolicyRow>, overrides: seq<PolicyRow>)
    requires DecideClient(id, row, ClientCandidates(id, row, [], excludes, overrides)).Ok?
    ensures DecideClient(id, row, ClientCandidates(id, row, [], excludes, overrides)).value.target.None?
  {
    var cs := ClientCandidates(id, row, [], excludes, overrides);
    NoTargetsNoCandidates(overrides);
    NoTargetsNoCandidates(excludes);
    assert forall c :: c in cs ==> c.target.None?;
    if cs != [] {
      WinnerIsTop(cs);
    }
  }

  /** The view of one client on the tables. */
  function Effective(db: Db, t: int): Result<Decision>
    requires t in db.traffic
  {
    DecideLoadedClient(t, db.traffic[t], T.Targets(db), T.PolicyRows(db.excludes, PolicyTable.ListActive(db.excludes)),
                       T.PolicyRows(db.overrides, PolicyTable.ListActive(db.overrides)))
  }

  /**
   * On any tables that the tick decides, the view of a client whose targets are all valid is the very decision the
   * tick takes for its row; without one, the view has no target either.
   */
  lemma EffectiveIsTheTicks(db: Db, t: int)
    requires t in db.traffic && AllTargetsValid(T.Targets(db), t, db.traffic[t]) && DecideAll(T.Candidates(db)).Ok?
    ensures forall d :: d in DecideAll(T.Candidates(db)).value && d.trafficId == t ==> Effective(db, t) == Ok(d)
    ensures (forall d :: d in DecideAll(T.Candidates(db)).value ==> d.trafficId != t) && Effective(db, t).Ok? ==>
            Effective(db, t).value.target.None?
  {
    var cs := T.Candidates(db);
    ViewAgreesWithTick(t, db.traffic[t], T.Targets(db), T.PolicyRows(db.excludes, PolicyTable.ListActive(db.excludes)),
                       T.PolicyRows(db.overrides, PolicyTable.ListActive(db.overrides)));
    DecidePerTraffic(cs);
    GroupHasId(cs, t);
  }
}
