/**
 * The decision of a row with one active rule, told from the tables: excluded, overridden, or at the rule's own
 * factor.
 */
module Effective {
  import opened Collections
  import opened Model
  import opened Decisions
  import opened PolicyTable
  import opened Baselines
  import opened Ticking
  import opened TickProofs
  import opened Machine
  import opened Ledgers

  /** The client and factor that the tick's decision on the row is for. */
  function EffectiveOn(ready: Db, t: int): Option<(Key, int64)> {
    var ds := DecideAll(Candidates(ready));
    if ds.Err? then None
    else
      var d := DecisionAt(ds.value, t);
      if d.None? || d.value.target.None? then None else Some((TargetKey(d.value.target.value), d.value.factorPpm))
  }

  /** The client's rule is the only active one on its row. */
  ghost predicate SoleOn(db: Db, k: Key) {
    ActiveKey(db, k) && forall x :: db.Owns(x, k.traffic) ==> x == k.rule
  }

  lemma OwnerIsSole(db: Db, k: Key)
    requires OneOwner(db) && ActiveKey(db, k)
    ensures SoleOn(db, k)
  {
    assert db.Owns(k.rule, k.traffic);
  }

  /** The table's row actively names the client. */
  predicate NamesKey(db: Db, table: Table, id: int, k: Key) {
    k in db.clients && ActiveRow(table, id) && NamesClient(table[id], k.traffic, db.clients[k].email)
  }

  lemma SoleTarget(db: Db, k: Key, x: Target)
    requires SoleOn(db, k) && x in Targets(db) && x.trafficId == k.traffic
    ensures x == TargetAt(db, k)
  {
    TargetsExactly(db, x);
    assert db.Owns(x.ruleId, k.traffic);
  }

  /** Every candidate of the row stands for the client itself, or for a policy that names the client. */
  predicate StandsFor(db: Db, k: Key, c: Candidate)
    requires k in db.clients && k.rule in db.rules
  {
    || c == RuleCandidate(TargetAt(db, k))
    || (NamesKey(db, db.overrides, c.ruleId, k)
        && c == OverrideCandidate(PolicyRow(c.ruleId, db.overrides[c.ruleId]), TargetAt(db, k)))
    || (NamesKey(db, db.excludes, c.ruleId, k) && c == ExcludeCandidate(PolicyRow(c.ruleId, db.excludes[c.ruleId])))
  }

  lemma OverrideStands(db: Db, k: Key, c: Candidate)
    requires SoleOn(db, k) && c.trafficId == k.traffic
    requires c in OverrideCandidates(PolicyRows(db.overrides, ListActive(db.overrides)), Targets(db))
    ensures StandsFor(db, k, c)
  {
    var os, ts := PolicyRows(db.overrides, ListActive(db.overrides)), Targets(db);
    OverrideCandidateMembers(os, ts, c);
    var o, x :| o in os && x in ts && Names(x, o.policy.trafficId, o.policy.email) && c == OverrideCandidate(o, x);
    ListedPolicies(db.overrides, o);
    SoleTarget(db, k, x);
  }

  lemma ExcludeStands(db: Db, k: Key, c: Candidate)
    requires SoleOn(db, k) && c.trafficId == k.traffic
    requires c in ExcludeCandidates(PolicyRows(db.excludes, ListActive(db.excludes)), Targets(db))
    ensures StandsFor(db, k, c)
  {
    var es, ts := PolicyRows(db.excludes, ListActive(db.excludes)), Targets(db);
    ExcludeCandidateMembers(es, ts, c);
    var e :| e in es && LastNamed(ts, e.policy.trafficId, e.policy.email).Some? && c == ExcludeCandidate(e);
    ListedPolicies(db.excludes, e);
    LastNamedIn(ts, e.policy.trafficId, e.policy.email);
    SoleTarget(db, k, LastNamed(ts, e.policy.trafficId, e.policy.email).value);
  }

  lemma GroupStands(db: Db, k: Key, c: Candidate)
    requires SoleOn(db, k) && c in Group(Candidates(db), k.traffic)
    ensures StandsFor(db, k, c)
  {
    GroupMember(Candidates(db), k.traffic, c);
    var ts := Targets(db);
    if c in RuleCandidates(ts) {
      RuleCandidateMembers(ts, c);
      SoleTarget(db, k, c.target.value);
    } else if c in OverrideCandidates(PolicyRows(db.overrides, ListActive(db.overrides)), ts) {
      OverrideStands(db, k, c);
    } else {
      ExcludeStands(db, k, c);
    }
  }

  lemma {:induction false} OverrideListed(os: seq<PolicyRow>, ts: seq<Target>, o: PolicyRow)
    requires o in os && LastNamed(ts, o.policy.trafficId, o.policy.email).Some?
    ensures OverrideCandidate(o, LastNamed(ts, o.policy.trafficId, o.policy.email).value) in OverrideCandidates(os, ts)
  {
    if os[0] != o {
      assert o in os[1..];
      OverrideListed(os[1..], ts, o);
    }
  }

  lemma OverrideInGroup(db: Db, id: int, k: Key)
    requires SoleOn(db, k) && NamesKey(db, db.overrides, id, k)
    ensures OverrideCandidate(PolicyRow(id, db.overrides[id]), TargetAt(db, k)) in Group(Candidates(db), k.traffic)
  {
    var ts, os := Targets(db), PolicyRows(db.overrides, ListActive(db.overrides));
    var o := PolicyRow(id, db.overrides[id]);
    ListedPolicies(db.overrides, o);
    TargetsExactly(db, TargetAt(db, k));
    LastNamedIn(ts, k.traffic, db.clients[k].email);
    SoleTarget(db, k, LastNamed(ts, k.traffic, db.clients[k].email).value);
    OverrideListed(os, ts, o);
    assert OverrideCandidate(o, TargetAt(db, k)) in Candidates(db);
    GroupMember(Candidates(db), k.traffic, OverrideCandidate(o, TargetAt(db, k)));
  }

  /** The row's group: one candidate for the client and one for each active policy that names it. */
  ghost predicate RowGroup(db: Db, k: Key, cs: seq<Candidate>)
    requires k in db.clients && k.rule in db.rules
  {
    && (forall c :: c in cs ==> StandsFor(db, k, c))
    && (NamedIn(db, db.excludes, k) ==> exists c :: c in cs && c.source.SourceExclude?)
    && (forall id :: NamesKey(db, db.overrides, id, k) ==>
                     OverrideCandidate(PolicyRow(id, db.overrides[id]), TargetAt(db, k)) in cs)
  }

  /** Some active policy of the table names the client. */
  ghost predicate NamedIn(db: Db, table: Table, k: Key) {
    exists id :: NamesKey(db, table, id, k)
  }

  lemma GroupIsRow(db: Db, k: Key)
    requires SoleOn(db, k)
    ensures RowGroup(db, k, Group(Candidates(db), k.traffic))
  {
    var cs := Group(Candidates(db), k.traffic);
    forall c | c in cs ensures StandsFor(db, k, c) { GroupStands(db, k, c); }
    forall id | NamesKey(db, db.overrides, id, k)
      ensures OverrideCandidate(PolicyRow(id, db.overrides[id]), TargetAt(db, k)) in cs
    {
      OverrideInGroup(db, id, k);
    }
    if id :| NamesKey(db, db.excludes, id, k) { ExcludeHasCandidate(db, id, k); }
  }

  lemma HigherWins(cs: seq<Candidate>, w: Candidate, c: Candidate)
    requires Wins(cs, w) && c in cs && forall e :: e in cs ==> Precedence(e.source) <= Precedence(c.source)
    ensures w == c
  {
    assert Top(cs, c);
  }

  lemma ExcludeOnTop(db: Db, k: Key, cs: seq<Candidate>, w: Candidate)
    requires k in db.clients && k.rule in db.rules && RowGroup(db, k, cs) && Wins(cs, w) && NamedIn(db, db.excludes, k)
    ensures w.target.None?
  {
    var c :| c in cs && c.source.SourceExclude?;
    assert StandsFor(db, k, c);
    HigherWins(cs, w, c);
  }

  lemma OverrideOnTop(db: Db, k: Key, cs: seq<Candidate>, w: Candidate, id: int)
    requires k in db.clients && k.rule in db.rules && RowGroup(db, k, cs) && Wins(cs, w)
    requires !NamedIn(db, db.excludes, k) && NamesKey(db, db.overrides, id, k)
    ensures w == OverrideCandidate(PolicyRow(id, db.overrides[id]), TargetAt(db, k))
  {
    var c := OverrideCandidate(PolicyRow(id, db.overrides[id]), TargetAt(db, k));
    forall e | e in cs ensures Precedence(e.source) <= Precedence(c.source) { assert StandsFor(db, k, e); }
    HigherWins(cs, w, c);
  }

  lemma RuleOnTop(db: Db, k: Key, cs: seq<Candidate>, w: Candidate)
    requires k in db.clients && k.rule in db.rules && RowGroup(db, k, cs) && Wins(cs, w)
    requires !NamedIn(db, db.excludes, k) && !NamedIn(db, db.overrides, k)
    ensures w == RuleCandidate(TargetAt(db, k))
  {
    assert StandsFor(db, k, w);
  }

  /**
   * The factor at which the client is effective, by the tables: none where an exclude names it, else that of an
   * override that does, else its rule's.
   */
  ghost predicate FactorIs(db: Db, k: Key, factorPpm: Option<int64>) {
    match factorPpm
    case None => NamedIn(db, db.excludes, k)
    case Some(f) =>
      && !NamedIn(db, db.excludes, k)
      && ((exists id :: NamesKey(db, db.overrides, id, k) && db.overrides[id].factorPpm == f)
          || (!NamedIn(db, db.overrides, k) && k.rule in db.rules && db.rules[k.rule].factorPpm == f))
  }

  function Won(w: Candidate): Option<(Key, int64)> {
    if w.target.None? then None else Some((TargetKey(w.target.value), w.factorPpm))
  }

  lemma WonExactly(db: Db, k: Key, cs: seq<Candidate>, w: Candidate, factorPpm: Option<int64>)
    requires k in db.clients && k.rule in db.rules && RowGroup(db, k, cs) && Wins(cs, w)
    ensures FactorIs(db, k, factorPpm) <==> Won(w) == if factorPpm.None? then None else Some((k, factorPpm.value))
  {
    if NamedIn(db, db.excludes, k) {
      ExcludeOnTop(db, k, cs, w);
    } else if NamedIn(db, db.overrides, k) {
      forall id | NamesKey(db, db.overrides, id, k) ensures Won(w) == Some((k, db.overrides[id].factorPpm)) {
        OverrideOnTop(db, k, cs, w, id);
      }
    } else {
      RuleOnTop(db, k, cs, w);
    }
  }

  lemma DecisionWon(db: Db, k: Key, d: Decision) returns (w: Candidate)
    requires DecideAll(Candidates(db)).Ok? && d in DecideAll(Candidates(db)).value && d.trafficId == k.traffic
    ensures Wins(Group(Candidates(db), k.traffic), w) && d.target == w.target && d.factorPpm == w.factorPpm
  {
    DecidePerTraffic(Candidates(db));
    WinnerIsTop(Group(Candidates(db), k.traffic));
    w :| Wins(Group(Candidates(db), k.traffic), w) && d.target == w.target && d.factorPpm == w.factorPpm;
  }

  lemma EffectiveFound(db: Db, ds: seq<Decision>, d: Decision)
    requires DecideAll(Candidates(db)) == Ok(ds) && DecisionAt(ds, d.trafficId) == Some(d)
    ensures EffectiveOn(db, d.trafficId) == if d.target.None? then
              None else Some((TargetKey(d.target.value), d.factorPpm))
  {
  }

  /** The decision of a client's row is its effective rule. */
  lemma RowDecision(db: Db, k: Key) returns (w: Candidate)
    requires ActiveKey(db, k) && DecideAll(Candidates(db)).Ok?
    ensures Wins(Group(Candidates(db), k.traffic), w) && EffectiveOn(db, k.traffic) == Won(w)
  {
    var d := DecisionOf(db, k);
    DecisionFound(db, d);
    w := DecisionWon(db, k, d);
    EffectiveFound(db, DecideAll(Candidates(db)).value, d);
  }

  /**
   * On decided tables, where the client's rule is the only active one on its row, the row has the client as its
   * effective one at exactly the factor that the tables give: an exclude of its email beats every override, and an
   * override beats the rule.
   */
  lemma EffectiveExactly(db: Db, k: Key, factorPpm: Option<int64>)
    requires SoleOn(db, k) && DecideAll(Candidates(db)).Ok?
    ensures FactorIs(db, k, factorPpm) <==>
            EffectiveOn(db, k.traffic) == if factorPpm.None? then None else Some((k, factorPpm.value))
  {
    var w := RowDecision(db, k);
    GroupIsRow(db, k);
    WonExactly(db, k, Group(Candidates(db), k.traffic), w, factorPpm);
  }
}
