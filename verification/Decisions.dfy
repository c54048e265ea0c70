/** internal/policy/decision.go: candidates, and the choice of one effective decision per traffic row. */
module Decisions {
  import opened Collections
  import opened Model

  datatype Source =
    | SourceNone | SourceExclude | SourceUserOverride | SourceSingleRule
    | SourceInboundScope | SourceGlobalScope | SourceSnapshot

  /** An active rule on one of its clients. */
  datatype Target = Target(ruleId: int, trafficId: int, factorPpm: int64, scope: Option<Scope>, client: RuleClient)

  datatype PolicyRow = PolicyRow(id: int, policy: Policy)

  datatype Candidate = Candidate(target: Option<Target>, source: Source, ruleId: int, trafficId: int, inboundId: int,
      email: string, factorPpm: int64)

  datatype Match = Match(source: Source, ruleId: int, inboundId: int, email: string, factorPpm: int64)

  datatype Decision = Decision(
    trafficId: int, inboundId: int, email: string, source: Source, sourceRuleId: int, factorPpm: int64,
    target: Option<Target>, matched: seq<Match>, suppressed: seq<Target>)

  function ClassifyTarget(target: Target): Source {
    match target.scope
    case None => SourceSingleRule
    case Some(scope) =>
      if scope.once then SourceSnapshot
      else if scope.inboundId.Some? then SourceInboundScope
      else SourceGlobalScope
  }

  function Precedence(source: Source): int {
    match source
    case SourceExclude => 100
    case SourceUserOverride => 90
    case SourceSingleRule => 80
    case SourceInboundScope => 70
    case SourceSnapshot => 65
    case SourceGlobalScope => 60
    case SourceNone => 0
  }

  function TargetKey(target: Target): Key {
    Key(target.ruleId, target.trafficId)
  }

  // Candidate builders ----------------------------------------------------

  function RuleCandidate(t: Target): Candidate {
    Candidate(Some(t), ClassifyTarget(t), t.ruleId, t.trafficId, t.client.inboundId, t.client.email, t.factorPpm)
  }

  function RuleCandidates(targets: seq<Target>): seq<Candidate> {
    if targets == [] then [] else [RuleCandidate(targets[0])] + RuleCandidates(targets[1..])
  }

  predicate Names(t: Target, trafficId: int, email: string) {
    t.trafficId == trafficId && t.client.email == email
  }

  /** The last target listed for a (traffic id, email) pair: the one a map filled in list order keeps. */
  function LastNamed(targets: seq<Target>, trafficId: int, email: string): Option<Target> {
    if targets == [] then None
    else
      var last := targets[|targets| - 1];
      if Names(last, trafficId, email) then Some(last) else LastNamed(targets[..|targets| - 1], trafficId, email)
  }

  function OverrideCandidate(o: PolicyRow, target: Target): Candidate {
    Candidate(Some(target.(factorPpm := o.policy.factorPpm)), SourceUserOverride, o.id,
              o.policy.trafficId, o.policy.inboundId, o.policy.email, o.policy.factorPpm)
  }

  function OverrideCandidates(overrides: seq<PolicyRow>, targets: seq<Target>): seq<Candidate> {
    if overrides == [] then []
    else
      var o := overrides[0];
      var rest := OverrideCandidates(overrides[1..], targets);
      match LastNamed(targets, o.policy.trafficId, o.policy.email)
      case None => rest
      case Some(target) => [OverrideCandidate(o, target)] + rest
  }

  function ExcludeCandidate(e: PolicyRow): Candidate {
    Candidate(None, SourceExclude, e.id, e.policy.trafficId, e.policy.inboundId, e.policy.email, 0)
  }

  function ExcludeCandidates(excludes: seq<PolicyRow>, targets: seq<Target>): seq<Candidate> {
    if excludes == [] then []
    else
      var e := excludes[0];
      var rest := ExcludeCandidates(excludes[1..], targets);
      if LastNamed(targets, e.policy.trafficId, e.policy.email).None? then rest else [ExcludeCandidate(e)] + rest
  }

  /** The candidate list one tick decides on. */
  function TickCandidates(targets: seq<Target>, excludes: seq<PolicyRow>, overrides: seq<PolicyRow>): seq<Candidate> {
    RuleCandidates(targets) + OverrideCandidates(overrides, targets) + ExcludeCandidates(excludes, targets)
  }

  // Decisions -------------------------------------------------------------

  predicate Before(a: Candidate, b: Candidate) {
    || Precedence(a.source) > Precedence(b.source)
    || (Precedence(a.source) == Precedence(b.source) && a.ruleId < b.ruleId)
  }

  function Matches(cs: seq<Candidate>): seq<Match> {
    if cs == [] then []
    else [Match(cs[0].source, cs[0].ruleId, cs[0].inboundId, cs[0].email, cs[0].factorPpm)] + Matches(cs[1..])
  }

  predicate SameTarget(a: Option<Target>, b: Option<Target>) {
    a.Some? && b.Some? && TargetKey(a.value) == TargetKey(b.value)
  }

  /** The targets of `cs` other than the winner's, each key once, in order. */
  function SuppressedOf(winner: Option<Target>, cs: seq<Candidate>, seen: set<Key>): seq<Target> {
    if cs == [] then []
    else
      var target := cs[0].target;
      if target.None? || SameTarget(winner, target)
          || TargetKey(target.value) in seen then SuppressedOf(winner, cs[1..], seen)
      else [target.value] + SuppressedOf(winner, cs[1..], seen + {TargetKey(target.value)})
  }

  /** decideOne on a group. */
  function DecideGroup(cs: seq<Candidate>): Result<Decision>
    requires cs != []
  {
    var sorted := SortBy(cs, Before);
    var winner := sorted[0];
    if |sorted| > 1 && Precedence(winner.source) == Precedence(sorted[1].source) then Err(Ambiguous)
    else
      Ok(Decision(winner.trafficId, winner.inboundId, winner.email, winner.source, winner.ruleId, winner.factorPpm,
                  winner.target, Matches(sorted), SuppressedOf(winner.target, sorted[1..], {})))
  }

  function Group(cs: seq<Candidate>, t: int): seq<Candidate> {
    if cs == [] then []
    else if cs[0].trafficId == t then [cs[0]] + Group(cs[1..], t)
    else Group(cs[1..], t)
  }

  function GroupIds(cs: seq<Candidate>): set<int> {
    set c | c in cs :: c.trafficId
  }

  lemma {:induction false} GroupMember(cs: seq<Candidate>, t: int, c: Candidate)
    ensures c in Group(cs, t) <==> c in cs && c.trafficId == t
  {
    if cs != [] {
      GroupMember(cs[1..], t, c);
      assert c in cs <==> c == cs[0] || c in cs[1..];
    }
  }

  lemma GroupNonEmpty(cs: seq<Candidate>, t: int)
    requires t in GroupIds(cs)
    ensures Group(cs, t) != []
  {
    var c :| c in cs && c.trafficId == t;
    GroupMember(cs, t, c);
  }

  function DecideIds(cs: seq<Candidate>, ids: seq<int>): Result<seq<Decision>>
    requires forall t :: t in ids ==> t in GroupIds(cs)
  {
    if ids == [] then Ok([])
    else
      GroupNonEmpty(cs, ids[0]);
      var decision :- DecideGroup(Group(cs, ids[0]));
      var rest :- DecideIds(cs, ids[1..]);
      Ok([decision] + rest)
  }

  function DecideAll(cs: seq<Candidate>): Result<seq<Decision>> {
    DecideIds(cs, Ascending(GroupIds(cs)))
  }

  // Selection is correct and does not depend on the order -----------------

  /** Two positions hold the top precedence of the group. */
  ghost predicate TopTie(cs: seq<Candidate>) {
    exists i, j :: 0 <= i < j < |cs| && Top(cs, cs[i]) && Top(cs, cs[j])
  }

  ghost predicate Top(cs: seq<Candidate>, c: Candidate) {
    c in cs && forall d :: d in cs ==> Precedence(d.source) <= Precedence(c.source)
  }

  /** `c` stands alone above every other position of the group. */
  ghost predicate Wins(cs: seq<Candidate>, c: Candidate) {
    Top(cs, c) && multiset(cs)[c] == 1 && forall d :: Top(cs, d) ==> d == c
  }

  lemma SortedGroup(cs: seq<Candidate>)
    requires cs != []
    ensures var sorted := SortBy(cs, Before);
            && |sorted| == |cs| && SortedBy(sorted, Before) && (forall c :: c in sorted <==> c in cs)
            && (forall i :: 0 <= i < |sorted| ==> Precedence(sorted[i].source) <= Precedence(sorted[0].source))
            && (forall i :: 1 <= i < |sorted| ==> Precedence(sorted[i].source) <= Precedence(sorted[1].source))
  {
    SortSorted(cs, Before);
    SameMembers(SortBy(cs, Before), cs);
  }

  lemma CountAtLeastTwo<T>(xs: seq<T>, i: int, j: int)
    requires 0 <= i < j < |xs| && xs[i] == xs[j]
    ensures multiset(xs)[xs[i]] >= 2
  {
    var head, tail := xs[..j], xs[j..];
    assert xs == head + tail;
    assert multiset(xs) == multiset(head) + multiset(tail);
    assert head[i] in multiset(head) && tail[0] in multiset(tail);
  }

  lemma CountTwoPositions<T>(xs: seq<T>, x: T)
    requires multiset(xs)[x] >= 2
    ensures exists i, j :: 0 <= i < j < |xs| && xs[i] == x && xs[j] == x
  {
    assert x in xs;
    var i :| 0 <= i < |xs| && xs[i] == x;
    var head, tail := xs[..i], xs[i + 1..];
    assert xs == head + [x] + tail;
    assert multiset(xs) == multiset(head) + multiset{x} + multiset(tail);
    if x in head {
      var j :| 0 <= j < |head| && head[j] == x;
      assert xs[j] == x;
    } else {
      assert multiset(head)[x] == 0;
      assert x in multiset(tail);
      var j :| 0 <= j < |tail| && tail[j] == x;
      assert xs[i + 1 + j] == x;
    }
  }

  /** A group is refused exactly when its top precedence is shared. */
  lemma AmbiguousExactly(cs: seq<Candidate>)
    requires cs != []
    ensures DecideGroup(cs).Err? <==> TopTie(cs)
  {
    SortedGroup(cs);
    var sorted := SortBy(cs, Before);
    assert Top(cs, sorted[0]);
    if DecideGroup(cs).Err? {
      assert Top(cs, sorted[1]);
      if sorted[0] == sorted[1] {
        CountAtLeastTwo(sorted, 0, 1);
        CountTwoPositions(cs, sorted[0]);
      } else {
        var i :| 0 <= i < |cs| && cs[i] == sorted[0];
        var j :| 0 <= j < |cs| && cs[j] == sorted[1];
        if i > j { assert Top(cs, cs[j]) && Top(cs, cs[i]); }
      }
    }
    if TopTie(cs) {
      var i, j :| 0 <= i < j < |cs| && Top(cs, cs[i]) && Top(cs, cs[j]);
      TwoTopsCollide(cs, i, j);
    }
  }

  lemma TwoTopsCollide(cs: seq<Candidate>, i: int, j: int)
    requires 0 <= i < j < |cs| && Top(cs, cs[i]) && Top(cs, cs[j])
    ensures DecideGroup(cs).Err?
  {
    SortedGroup(cs);
    var sorted := SortBy(cs, Before);
    if cs[i] == cs[j] {
      CountAtLeastTwo(cs, i, j);
      CountTwoPositions(sorted, cs[i]);
    } else {
      assert cs[i] in sorted && cs[j] in sorted;
    }
  }

  /** An accepted group is decided by its one candidate of top precedence. */
  lemma WinnerIsTop(cs: seq<Candidate>)
    requires cs != [] && DecideGroup(cs).Ok?
    ensures var d := DecideGroup(cs).value;
            exists c :: Wins(cs, c) && d.target == c.target && d.source == c.source && d.sourceRuleId == c.ruleId
                        && d.factorPpm == c.factorPpm && d.email == c.email && d.inboundId == c.inboundId
                            && d.trafficId == c.trafficId
  {
    SortedGroup(cs);
    var c := SortBy(cs, Before)[0];
    assert Top(cs, c);
    AmbiguousExactly(cs);
    if multiset(cs)[c] >= 2 {
      CountTwoPositions(cs, c);
      assert false;
    }
    forall d | Top(cs, d) ensures d == c {
      var i :| 0 <= i < |cs| && cs[i] == c;
      var j :| 0 <= j < |cs| && cs[j] == d;
      assert Top(cs, cs[i]) && Top(cs, cs[j]);
    }
    assert c in multiset(cs);
    assert Wins(cs, c);
  }

  function MatchOf(c: Candidate): Match {
    Match(c.source, c.ruleId, c.inboundId, c.email, c.factorPpm)
  }

  lemma {:induction false} MatchesAt(cs: seq<Candidate>, i: int)
    requires 0 <= i < |cs|
    ensures |Matches(cs)| == |cs| && Matches(cs)[i] == MatchOf(cs[i])
  {
    if i > 0 {
      MatchesAt(cs[1..], i - 1);
    } else if |cs| > 1 {
      MatchesAt(cs[1..], 0);
    }
  }

  /** A decision reports every candidate of its group, none ranked before a higher one. */
  lemma MatchedExactly(cs: seq<Candidate>)
    requires cs != [] && DecideGroup(cs).Ok?
    ensures var matched := DecideGroup(cs).value.matched;
            && |matched| == |cs| && (forall m :: m in matched <==> exists c :: c in cs && m == MatchOf(c))
            && forall i, j :: 0 <= i < j < |matched| ==> Precedence(matched[i].source) >= Precedence(matched[j].source)
  {
    SortedGroup(cs);
    var sorted := SortBy(cs, Before);
    var matched := Matches(sorted);
    forall i | 0 <= i < |sorted|
      ensures |matched| == |sorted| && matched[i] == MatchOf(sorted[i])
    {
      MatchesAt(sorted, i);
    }
    forall m ensures m in matched <==> exists c :: c in cs && m == MatchOf(c) {
      if c :| c in cs && m == MatchOf(c) {
        assert c in sorted;
        var i :| 0 <= i < |sorted| && sorted[i] == c;
        assert matched[i] == m;
      }
      if m in matched {
        var i :| 0 <= i < |matched| && matched[i] == m;
        var c := sorted[i];
        assert c in sorted && c in cs && m == MatchOf(c);
      }
    }
  }

  /** No two positions share both precedence and rule id. */
  ghost predicate DistinctRanks(cs: seq<Candidate>) {
    forall i, j :: 0 <= i < j < |cs| ==> Before(cs[i], cs[j]) || Before(cs[j], cs[i])
  }

  lemma FirstsAgree(a: seq<Candidate>, b: seq<Candidate>)
    requires a != [] && b != [] && multiset(a) == multiset(b)
    requires SortedBy(a, Before) && SortedBy(b, Before) && DistinctRanks(a)
    ensures a[0] == b[0]
  {
    SameMembers(a, b);
    assert a[0] in b && b[0] in a;
    var i :| 0 <= i < |a| && a[i] == b[0];
    var j :| 0 <= j < |b| && b[j] == a[0];
    FirstLeads(a, i);
    FirstLeads(b, j);
  }

  lemma FirstLeads(cs: seq<Candidate>, i: int)
    requires SortedBy(cs, Before) && 0 <= i < |cs|
    ensures !Before(cs[i], cs[0])
  {
  }

  lemma TailMultiset<T>(xs: seq<T>)
    requires xs != []
    ensures multiset(xs[1..]) == multiset(xs) - multiset{xs[0]}
  {
    assert xs == [xs[0]] + xs[1..];
  }

  lemma {:induction false} SortedOnce(a: seq<Candidate>, b: seq<Candidate>)
    requires multiset(a) == multiset(b)
    requires SortedBy(a, Before) && SortedBy(b, Before) && DistinctRanks(a)
    ensures a == b
    decreases |a|
  {
    assert |a| == |multiset(a)| == |multiset(b)| == |b|;
    if a != [] {
      FirstsAgree(a, b);
      TailMultiset(a);
      TailMultiset(b);
      SortedOnce(a[1..], b[1..]);
      assert a == [a[0]] + a[1..] && b == [b[0]] + b[1..];
    }
  }

  /** The spelling of a list as sequence positions does not matter to whether ranks are distinct. */
  lemma RanksFollowMultiset(a: seq<Candidate>, b: seq<Candidate>)
    requires multiset(a) == multiset(b) && DistinctRanks(a)
    ensures DistinctRanks(b)
  {
    forall i, j | 0 <= i < j < |b| ensures Before(b[i], b[j]) || Before(b[j], b[i]) {
      SameMembers(a, b);
      assert b[i] in a && b[j] in a;
      if b[i] == b[j] {
        CountAtLeastTwo(b, i, j);
        CountTwoPositions(a, b[i]);
      } else {
        var x :| 0 <= x < |a| && a[x] == b[i];
        var y :| 0 <= y < |a| && a[y] == b[j];
        assert x < y || y < x;
      }
    }
  }

  lemma GroupOrderFree(a: seq<Candidate>, b: seq<Candidate>)
    requires a != [] && b != [] && multiset(a) == multiset(b) && DistinctRanks(a)
    ensures DecideGroup(a) == DecideGroup(b)
  {
    SortSorted(a, Before);
    SortSorted(b, Before);
    RanksFollowMultiset(a, SortBy(a, Before));
    SortedOnce(SortBy(a, Before), SortBy(b, Before));
  }

  lemma {:induction false} GroupMultiset(cs: seq<Candidate>, t: int, c: Candidate)
    ensures multiset(Group(cs, t))[c] == if c.trafficId == t then multiset(cs)[c] else 0
  {
    if cs != [] {
      GroupMultiset(cs[1..], t, c);
      assert cs == [cs[0]] + cs[1..];
      assert multiset(cs) == multiset{cs[0]} + multiset(cs[1..]);
      if cs[0].trafficId == t {
        assert multiset(Group(cs, t)) == multiset{cs[0]} + multiset(Group(cs[1..], t));
      }
    }
  }

  /** Within every group, no two candidates share source and rule id. */
  ghost predicate DistinctInGroups(cs: seq<Candidate>) {
    forall t :: DistinctRanks(Group(cs, t))
  }

  /** Permuting candidates with distinct (source, rule id) changes nothing. */
  lemma DecideOrderFree(a: seq<Candidate>, b: seq<Candidate>)
    requires multiset(a) == multiset(b) && DistinctInGroups(a)
    ensures DecideAll(a) == DecideAll(b)
  {
    SameMembers(a, b);
    assert GroupIds(a) == GroupIds(b);
    DecideIdsOrderFree(a, b, Ascending(GroupIds(a)));
  }

  lemma {:induction false} DecideIdsOrderFree(a: seq<Candidate>, b: seq<Candidate>, ids: seq<int>)
    requires multiset(a) == multiset(b) && DistinctInGroups(a)
    requires forall t :: t in ids ==> t in GroupIds(a) && t in GroupIds(b)
    ensures DecideIds(a, ids) == DecideIds(b, ids)
  {
    if ids != [] {
      var t := ids[0];
      GroupNonEmpty(a, t);
      GroupNonEmpty(b, t);
      forall c ensures multiset(Group(a, t))[c] == multiset(Group(b, t))[c] {
        GroupMultiset(a, t, c);
        GroupMultiset(b, t, c);
      }
      assert multiset(Group(a, t)) == multiset(Group(b, t));
      GroupOrderFree(Group(a, t), Group(b, t));
      DecideIdsOrderFree(a, b, ids[1..]);
    }
  }

  // Suppressed targets ----------------------------------------------------

  function Keys(ts: seq<Target>): seq<Key> {
    if ts == [] then [] else [TargetKey(ts[0])] + Keys(ts[1..])
  }

  ghost predicate HasTarget(cs: seq<Candidate>, k: Key) {
    exists c :: c in cs && c.target.Some? && TargetKey(c.target.value) == k
  }

  lemma {:induction false} SuppressedExactly(winner: Option<Target>, cs: seq<Candidate>, seen: set<Key>)
    ensures var keys := Keys(SuppressedOf(winner, cs, seen));
            && Distinct(keys)
            && (forall k :: k in keys <==> HasTarget(cs, k) && k !in seen
                                           && !(winner.Some? && TargetKey(winner.value) == k))
  {
    if cs != [] {
      var target := cs[0].target;
      assert forall k :: HasTarget(cs, k) <==> HasTarget(cs[1..], k)
                                               || (target.Some? && TargetKey(target.value) == k) by {
        assert cs == [cs[0]] + cs[1..];
      }
      if target.None? || SameTarget(winner, target) || TargetKey(target.value) in seen {
        SuppressedExactly(winner, cs[1..], seen);
      } else {
        SuppressedExactly(winner, cs[1..], seen + {TargetKey(target.value)});
      }
    }
  }

  lemma {:induction false} SuppressedComeFrom(winner: Option<Target>, cs: seq<Candidate>, seen: set<Key>,
      target: Target)
    requires target in SuppressedOf(winner, cs, seen)
    ensures exists c :: c in cs && c.target == Some(target)
  {
    var head := cs[0].target;
    if head.None? || SameTarget(winner, head) || TargetKey(head.value) in seen {
      SuppressedComeFrom(winner, cs[1..], seen, target);
    } else if target != head.value {
      SuppressedComeFrom(winner, cs[1..], seen + {TargetKey(head.value)}, target);
    }
  }

  /** The keys a decision deals with: its target's, then the suppressed ones. */
  function Named(d: Decision): seq<Key> {
    (if d.target.Some? then [TargetKey(d.target.value)] else []) + Keys(d.suppressed)
  }

  lemma NamedInSortedOrder(winner: Option<Target>, rest: seq<Candidate>)
    ensures var named := (if winner.Some? then [TargetKey(winner.value)] else
                                                 []) + Keys(SuppressedOf(winner, rest, {}));
            && Distinct(named)
            && (forall k :: k in named <==> HasTarget(rest, k) || (winner.Some? && TargetKey(winner.value) == k))
  {
    SuppressedExactly(winner, rest, {});
    var keys := Keys(SuppressedOf(winner, rest, {}));
    assert forall i :: 0 <= i < |keys| ==> keys[i] in keys;
  }

  /** The winner's target and the suppressed ones name every (rule, traffic) target of the group exactly once. */
  lemma EveryTargetOnce(cs: seq<Candidate>)
    requires cs != [] && DecideGroup(cs).Ok?
    ensures Distinct(Named(DecideGroup(cs).value))
    ensures forall k :: k in Named(DecideGroup(cs).value) <==> HasTarget(cs, k)
  {
    SortedGroup(cs);
    var sorted := SortBy(cs, Before);
    NamedInSortedOrder(sorted[0].target, sorted[1..]);
    forall k
      ensures HasTarget(cs, k) <==> HasTarget(sorted[1..], k)
                                    || (sorted[0].target.Some? && TargetKey(sorted[0].target.value) == k)
    {
      HasTargetSplit(sorted, k);
      assert HasTarget(cs, k) <==> HasTarget(sorted, k);
    }
  }

  /** What is suppressed is the target of some candidate of the group. */
  lemma SuppressedAreTargets(cs: seq<Candidate>, s: Target)
    requires cs != [] && DecideGroup(cs).Ok? && s in DecideGroup(cs).value.suppressed
    ensures exists c :: c in cs && c.target == Some(s)
  {
    SortedGroup(cs);
    var sorted := SortBy(cs, Before);
    SuppressedComeFrom(sorted[0].target, sorted[1..], {}, s);
  }

  lemma HasTargetSplit(cs: seq<Candidate>, k: Key)
    requires cs != []
    ensures HasTarget(cs, k) <==> HasTarget(cs[1..], k) || (cs[0].target.Some? && TargetKey(cs[0].target.value) == k)
  {
    assert cs == [cs[0]] + cs[1..];
  }

  // The whole decision list -----------------------------------------------

  lemma {:induction false} DecideIdsRefused(cs: seq<Candidate>, ids: seq<int>)
    requires forall t :: t in ids ==> t in GroupIds(cs)
    ensures DecideIds(cs, ids).Ok? <==> forall t :: t in ids ==> !TopTie(Group(cs, t))
  {
    if ids != [] {
      GroupNonEmpty(cs, ids[0]);
      AmbiguousExactly(Group(cs, ids[0]));
      DecideIdsRefused(cs, ids[1..]);
      assert forall t :: t in ids <==> t == ids[0] || t in ids[1..];
    }
  }

  lemma DecideIdsFirst(cs: seq<Candidate>, ids: seq<int>)
    requires ids != [] && (forall t :: t in ids ==> t in GroupIds(cs)) && DecideIds(cs, ids).Ok?
    ensures Group(cs, ids[0]) != [] && DecideGroup(Group(cs, ids[0])).Ok?
            && (forall t :: t in ids[1..] ==> t in GroupIds(cs)) && DecideIds(cs, ids[1..]).Ok?
    ensures DecideIds(cs, ids).value == [DecideGroup(Group(cs, ids[0])).value] + DecideIds(cs, ids[1..]).value
  {
    GroupNonEmpty(cs, ids[0]);
  }

  ghost predicate Decides(cs: seq<Candidate>, ids: seq<int>, ds: seq<Decision>) {
    |ds| == |ids| && forall i :: 0 <= i < |ids| ==> Group(cs, ids[i]) != []
                                                    && DecideGroup(Group(cs, ids[i])) == Ok(ds[i])
  }

  lemma DecidesPrepend(cs: seq<Candidate>, ids: seq<int>, d: Decision, ds: seq<Decision>)
    requires ids != [] && Group(cs, ids[0]) != [] && DecideGroup(Group(cs, ids[0])) == Ok(d)
             && Decides(cs, ids[1..], ds)
    ensures Decides(cs, ids, [d] + ds)
  {
    forall i | 0 <= i < |ids| ensures Group(cs, ids[i]) != [] && DecideGroup(Group(cs, ids[i])) == Ok(([d] + ds)[i]) {
      if i > 0 { assert ids[i] == ids[1..][i - 1]; }
    }
  }

  lemma {:induction false} DecideIdsDecide(cs: seq<Candidate>, ids: seq<int>)
    requires (forall t :: t in ids ==> t in GroupIds(cs)) && DecideIds(cs, ids).Ok?
    ensures Decides(cs, ids, DecideIds(cs, ids).value)
  {
    if ids != [] {
      DecideIdsFirst(cs, ids);
      DecideIdsDecide(cs, ids[1..]);
      DecidesPrepend(cs, ids, DecideGroup(Group(cs, ids[0])).value, DecideIds(cs, ids[1..]).value);
    }
  }

  lemma DecideIdsShape(cs: seq<Candidate>, ids: seq<int>)
    requires forall t :: t in ids ==> t in GroupIds(cs)
    ensures DecideIds(cs, ids).Ok? <==> forall t :: t in ids ==> !TopTie(Group(cs, t))
    ensures DecideIds(cs, ids).Ok? ==>
              var ds := DecideIds(cs, ids).value;
              |ds| == |ids| && forall i :: 0 <= i < |ids| ==> Group(cs, ids[i]) != []
                                                              && DecideGroup(Group(cs, ids[i])) == Ok(ds[i])
  {
    DecideIdsRefused(cs, ids);
    if DecideIds(cs, ids).Ok? { DecideIdsDecide(cs, ids); }
  }

  lemma GroupDecisionTraffic(cs: seq<Candidate>, t: int)
    requires Group(cs, t) != [] && DecideGroup(Group(cs, t)).Ok?
    ensures DecideGroup(Group(cs, t)).value.trafficId == t
  {
    WinnerIsTop(Group(cs, t));
    var c :| Wins(Group(cs, t), c) && DecideGroup(Group(cs, t)).value.trafficId == c.trafficId;
    GroupMember(cs, t, c);
  }

  /** Deciding is refused exactly when some traffic id's group ties at its top precedence. */
  lemma DecideRefusesTies(cs: seq<Candidate>)
    ensures DecideAll(cs).Ok? <==> forall t :: t in GroupIds(cs) ==> !TopTie(Group(cs, t))
  {
    DecideIdsShape(cs, Ascending(GroupIds(cs)));
  }

  /** The decisions are one for each traffic id among the candidates, by ascending id. */
  lemma DecideListsIds(cs: seq<Candidate>)
    requires DecideAll(cs).Ok?
    ensures var ds, ids := DecideAll(cs).value, Ascending(GroupIds(cs));
            |ds| == |ids| && forall i :: 0 <= i < |ds| ==> ds[i].trafficId == ids[i]
    ensures forall d :: d in DecideAll(cs).value ==> Group(cs, d.trafficId) != []
                                                     && DecideGroup(Group(cs, d.trafficId)) == Ok(d)
  {
    var ids := Ascending(GroupIds(cs));
    DecideIdsShape(cs, ids);
    forall i | 0 <= i < |ids| ensures DecideAll(cs).value[i].trafficId == ids[i] {
      GroupDecisionTraffic(cs, ids[i]);
    }
  }

  lemma DecisionListed(cs: seq<Candidate>, t: int)
    requires DecideAll(cs).Ok? && t in GroupIds(cs)
    ensures exists d :: d in DecideAll(cs).value && d.trafficId == t
  {
    DecideListsIds(cs);
    var ds, ids := DecideAll(cs).value, Ascending(GroupIds(cs));
    assert t in ids;
    var i :| 0 <= i < |ids| && ids[i] == t;
    assert ds[i] in ds && ds[i].trafficId == t;
  }

  /** One decision per traffic id, in ascending order, each the decision of its own group. */
  lemma DecidePerTraffic(cs: seq<Candidate>)
    requires DecideAll(cs).Ok?
    ensures forall i, j :: 0 <= i < j < |DecideAll(cs).value| ==>
                           DecideAll(cs).value[i].trafficId < DecideAll(cs).value[j].trafficId
    ensures forall t :: t in GroupIds(cs) <==> exists d :: d in DecideAll(cs).value && d.trafficId == t
    ensures forall d :: d in DecideAll(cs).value ==> Group(cs, d.trafficId) != []
                                                     && DecideGroup(Group(cs, d.trafficId)) == Ok(d)
  {
    DecideListsIds(cs);
    var ds := DecideAll(cs).value;
    forall t ensures t in GroupIds(cs) <==> exists d :: d in ds && d.trafficId == t {
      if t in GroupIds(cs) { DecisionListed(cs, t); }
      GroupHasId(cs, t);
    }
  }

  lemma GroupHasId(cs: seq<Candidate>, t: int)
    ensures Group(cs, t) != [] ==> t in GroupIds(cs)
  {
    if Group(cs, t) != [] {
      GroupMember(cs, t, Group(cs, t)[0]);
    }
  }

  // The loops of the source -----------------------------------------------

  lemma {:induction false} RuleCandidatesSnoc(targets: seq<Target>, t: Target)
    ensures RuleCandidates(targets + [t]) == RuleCandidates(targets) + [RuleCandidate(t)]
  {
    if targets != [] {
      assert (targets + [t])[1..] == targets[1..] + [t];
      RuleCandidatesSnoc(targets[1..], t);
    }
  }

  method ActiveRuleCandidates(targets: seq<Target>) returns (candidates: seq<Candidate>)
    ensures candidates == RuleCandidates(targets)
  {
    candidates := [];
    for i := 0 to |targets|
      invariant candidates == RuleCandidates(targets[..i])
    {
      RuleCandidatesSnoc(targets[..i], targets[i]);
      assert targets[..i + 1] == targets[..i] + [targets[i]];
      candidates := candidates + [RuleCandidate(targets[i])];
    }
    assert targets[..|targets|] == targets;
  }

  method TargetsByKey(targets: seq<Target>) returns (byKey: map<(int, string), Target>)
    ensures forall t: int, e: string :: (t, e) in byKey <==> LastNamed(targets, t, e).Some?
    ensures forall t: int, e: string :: (t, e) in byKey ==> LastNamed(targets, t, e) == Some(byKey[(t, e)])
  {
    byKey := map[];
    for i := 0 to |targets|
      invariant forall t: int, e: string :: (t, e) in byKey <==> LastNamed(targets[..i], t, e).Some?
      invariant forall t: int, e: string :: (t, e) in byKey ==> LastNamed(targets[..i], t, e) == Some(byKey[(t, e)])
    {
      var target := targets[i];
      assert targets[..i + 1][..i] == targets[..i];
      byKey := byKey[(target.trafficId, target.client.email) := target];
    }
    assert targets[..|targets|] == targets;
  }

  method OverrideCandidatesForActiveTargets(overrides: seq<PolicyRow>, targets: seq<Target>)
      returns (candidates: seq<Candidate>)
    ensures candidates == OverrideCandidates(overrides, targets)
  {
    var byKey := TargetsByKey(targets);
    candidates := [];
    for i := 0 to |overrides|
      invariant candidates + OverrideCandidates(overrides[i..], targets) == OverrideCandidates(overrides, targets)
    {
      var o := overrides[i];
      if (o.policy.trafficId, o.policy.email) in byKey {
        candidates := candidates + [OverrideCandidate(o, byKey[(o.policy.trafficId, o.policy.email)])];
      }
    }
  }

  method ExcludeCandidatesForActiveTargets(excludes: seq<PolicyRow>, targets: seq<Target>)
      returns (candidates: seq<Candidate>)
    ensures candidates == ExcludeCandidates(excludes, targets)
  {
    var byKey := TargetsByKey(targets);
    candidates := [];
    for i := 0 to |excludes|
      invariant candidates + ExcludeCandidates(excludes[i..], targets) == ExcludeCandidates(excludes, targets)
    {
      var e := excludes[i];
      if (e.policy.trafficId, e.policy.email) in byKey {
        candidates := candidates + [ExcludeCandidate(e)];
      }
    }
  }

  method DecideOne(cs: seq<Candidate>) returns (r: Result<Decision>)
    requires cs != []
    ensures r == DecideGroup(cs)
  {
    var sorted := SortBy(cs, Before);
    var winner := sorted[0];
    if |sorted| > 1 && Precedence(sorted[0].source) == Precedence(sorted[1].source) {
      return Err(Ambiguous);
    }
    var matches, suppressed, seen := [], [], {};
    for i := 0 to |sorted|
      invariant matches + Matches(sorted[i..]) == Matches(sorted)
      invariant i == 0 ==> suppressed == [] && seen == {}
      invariant i > 0 ==> suppressed + SuppressedOf(winner.target, sorted[i..], seen)
                          == SuppressedOf(winner.target, sorted[1..], {})
    {
      var c := sorted[i];
      matches := matches + [Match(c.source, c.ruleId, c.inboundId, c.email, c.factorPpm)];
      if i > 0 && c.target.Some? && !SameTarget(winner.target, c.target) && TargetKey(c.target.value) !in seen {
        seen := seen + {TargetKey(c.target.value)};
        suppressed := suppressed + [c.target.value];
      }
    }
    assert sorted[|sorted|..] == [];
    assert matches == Matches(sorted);
    assert suppressed == SuppressedOf(winner.target, sorted[1..], {});
    r := Ok(Decision(winner.trafficId, winner.inboundId, winner.email, winner.source, winner.ruleId, winner.factorPpm,
                     winner.target, matches, suppressed));
  }

  lemma {:induction false} GroupSnoc(cs: seq<Candidate>, c: Candidate, t: int)
    ensures Group(cs + [c], t) == Group(cs, t) + if c.trafficId == t then [c] else []
  {
    if cs != [] {
      assert (cs + [c])[1..] == cs[1..] + [c];
      GroupSnoc(cs[1..], c, t);
    }
  }

  method Grouped(cs: seq<Candidate>) returns (groups: map<int, seq<Candidate>>)
    ensures groups.Keys == GroupIds(cs)
    ensures forall t :: t in groups ==> groups[t] == Group(cs, t)
  {
    groups := map[];
    for i := 0 to |cs|
      invariant groups.Keys == GroupIds(cs[..i])
      invariant forall t :: t in groups ==> groups[t] == Group(cs[..i], t)
    {
      var c := cs[i];
      assert cs[..i + 1] == cs[..i] + [c];
      assert GroupIds(cs[..i + 1]) == GroupIds(cs[..i]) + {c.trafficId};
      forall t ensures Group(cs[..i + 1], t) == Group(cs[..i], t) + if c.trafficId == t then [c] else [] {
        GroupSnoc(cs[..i], c, t);
      }
      if c.trafficId !in groups {
        AbsentGroup(cs[..i], c.trafficId);
      }
      groups := groups[c.trafficId := (if c.trafficId in groups then groups[c.trafficId] else []) + [c]];
    }
    assert cs[..|cs|] == cs;
  }

  lemma AbsentGroup(cs: seq<Candidate>, t: int)
    requires t !in GroupIds(cs)
    ensures Group(cs, t) == []
  {
    if Group(cs, t) != [] {
      GroupMember(cs, t, Group(cs, t)[0]);
      assert false;
    }
  }

  function After(done: seq<Decision>, rest: Result<seq<Decision>>): Result<seq<Decision>> {
    if rest.Err? then rest else Ok(done + rest.value)
  }

  lemma AfterNothing(r: Result<seq<Decision>>)
    ensures After([], r) == r
  {
    if r.Ok? {
      assert [] + r.value == r.value;
    }
  }

  lemma AfterOne(cs: seq<Candidate>, ids: seq<int>, done: seq<Decision>)
    requires ids != [] && forall t :: t in ids ==> t in GroupIds(cs)
    requires Group(cs, ids[0]) != []
    ensures var one := DecideGroup(Group(cs, ids[0]));
            After(done, DecideIds(cs, ids)) == if one.Err? then
                  Err(one.error) else After(done + [one.value], DecideIds(cs, ids[1..]))
  {
    var one, rest := DecideGroup(Group(cs, ids[0])), DecideIds(cs, ids[1..]);
    if one.Ok? && rest.Ok? {
      assert done + ([one.value] + rest.value) == done + [one.value] + rest.value;
    }
  }

  ghost predicate GroupsAhead(cs: seq<Candidate>, left: seq<int>) {
    forall t :: t in left ==> t in GroupIds(cs)
  }

  lemma GroupDone(cs: seq<Candidate>, left: seq<int>, done: seq<Decision>)
    requires left != [] && GroupsAhead(cs, left)
    ensures left[0] in GroupIds(cs) && Group(cs, left[0]) != [] && GroupsAhead(cs, left[1..])
    ensures var one := DecideGroup(Group(cs, left[0]));
            After(done, DecideIds(cs, left)) == if one.Err? then
                  Err(one.error) else After(done + [one.value], DecideIds(cs, left[1..]))
  {
    var t := left[0];
    assert t in left;
    GroupNonEmpty(cs, t);
    AfterOne(cs, left, done);
  }

  method Decide(cs: seq<Candidate>) returns (r: Result<seq<Decision>>)
    ensures r == DecideAll(cs)
  {
    var groups := Grouped(cs);
    ghost var whole := DecideAll(cs);
    var decisions, left := [], Ascending(groups.Keys);
    AfterNothing(whole);
    while left != []
      invariant GroupsAhead(cs, left) && After(decisions, DecideIds(cs, left)) == whole
      decreases |left|
    {
      GroupDone(cs, left, decisions);
      var one := DecideOne(groups[left[0]]);
      if one.Err? {
        return Err(one.error);
      }
      decisions := decisions + [one.value];
      left := left[1..];
    }
    assert decisions + [] == decisions;
    r := Ok(decisions);
  }
}
