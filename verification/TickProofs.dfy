/** What a committed tick leaves behind on every row. */
module TickProofs {
  import opened Collections
  import opened Model
  import opened Accounting
  import opened Decisions
  import opened PolicyTable
  import opened Baselines
  import opened Reconciling
  import opened Ticking

  // Targets and candidates ------------------------------------------------

  ghost predicate Faithful(db: Db, x: Target) {
    && TargetKey(x) in db.clients && db.clients[TargetKey(x)] == x.client && db.Active(x.ruleId)
  }

  predicate ActiveKey(db: Db, k: Key) {
    k in db.clients && db.Active(k.rule)
  }

  lemma {:induction false} TargetsOfMembers(db: Db, r: int, ts: seq<int>, x: Target)
    requires r in db.rules
    ensures x in TargetsOf(db, r, ts) <==> x.ruleId == r && x.trafficId in ts && Key(r, x.trafficId) in db.clients
                                           && x == TargetAt(db, Key(r, x.trafficId))
  {
    if ts != [] {
      TargetsOfMembers(db, r, ts[1..], x);
      assert x.trafficId in ts <==> x.trafficId == ts[0] || x.trafficId in ts[1..];
    }
  }

  lemma {:induction false} TargetsOverMembers(db: Db, rs: seq<int>, x: Target)
    requires forall r :: r in rs ==> r in db.rules
    ensures x in TargetsOver(db, rs) <==> x.ruleId in rs && TargetKey(x) in db.clients
                                          && x == TargetAt(db, TargetKey(x))
  {
    if rs != [] {
      var r := rs[0];
      assert r in rs && forall q :: q in rs <==> q == r || q in rs[1..];
      TargetsOfMembers(db, r, Ascending(db.ClientsOf(r)), x);
      TargetsOverMembers(db, rs[1..], x);
      assert Key(r, x.trafficId) in db.clients ==> x.trafficId in db.ClientsOf(r);
    }
  }

  /** The listed targets are the active rules' clients, each as it stands. */
  lemma TargetsExactly(db: Db, x: Target)
    ensures x in Targets(db) <==> ActiveKey(db, TargetKey(x)) && x == TargetAt(db, TargetKey(x))
  {
    var ids := ActiveIdsOf(db);
    var rs := Ascending(ids);
    forall r | r in rs ensures r in db.rules { assert r in ids; }
    TargetsOverMembers(db, rs, x);
    assert x.ruleId in rs <==> x.ruleId in ids;
  }

  lemma {:induction false} RuleCandidateMembers(ts: seq<Target>, c: Candidate)
    ensures c in RuleCandidates(ts) <==> c.target.Some? && c.target.value in ts && c == RuleCandidate(c.target.value)
  {
    if ts != [] {
      RuleCandidateMembers(ts[1..], c);
    }
  }

  lemma {:induction false} LastNamedIn(ts: seq<Target>, t: int, email: string)
    ensures LastNamed(ts, t, email).Some? ==> LastNamed(ts, t, email).value in ts
                                              && Names(LastNamed(ts, t, email).value, t, email)
    ensures LastNamed(ts, t, email).None? ==> forall x :: x in ts ==> !Names(x, t, email)
  {
    if ts != [] {
      var init := ts[..|ts| - 1];
      LastNamedIn(init, t, email);
      assert ts == init + [ts[|ts| - 1]];
    }
  }

  lemma {:induction false} OverrideCandidateMembers(os: seq<PolicyRow>, ts: seq<Target>, c: Candidate)
    requires c in OverrideCandidates(os, ts)
    ensures exists o, x :: o in os && x in ts && Names(x, o.policy.trafficId, o.policy.email)
                           && c == OverrideCandidate(o, x)
  {
    var o := os[0];
    LastNamedIn(ts, o.policy.trafficId, o.policy.email);
    var last := LastNamed(ts, o.policy.trafficId, o.policy.email);
    if last.Some? && c == OverrideCandidate(o, last.value) {
      assert o in os;
    } else {
      OverrideCandidateMembers(os[1..], ts, c);
      var o', x :| o' in os[1..] && x in ts && Names(x, o'.policy.trafficId, o'.policy.email)
          && c == OverrideCandidate(o', x);
      assert o' in os;
    }
  }

  lemma {:induction false} ExcludeCandidateMembers(es: seq<PolicyRow>, ts: seq<Target>, c: Candidate)
    ensures c in ExcludeCandidates(es, ts) <==> exists e :: e in es
                                                            && LastNamed(ts, e.policy.trafficId, e.policy.email).Some?
                                                            && c == ExcludeCandidate(e)
  {
    if es != [] {
      ExcludeCandidateMembers(es[1..], ts, c);
      assert forall e :: e in es <==> e == es[0] || e in es[1..];
    }
  }

  lemma {:induction false} PolicyRowMembers(table: Table, ids: seq<int>, p: PolicyRow)
    ensures p in PolicyRows(table, ids) <==> p.id in ids && p.id in table && p.policy == table[p.id]
  {
    if ids != [] {
      PolicyRowMembers(table, ids[1..], p);
      assert p.id in ids <==> p.id == ids[0] || p.id in ids[1..];
    }
  }

  lemma ListedPolicies(table: Table, p: PolicyRow)
    ensures p in PolicyRows(table, ListActive(table)) <==> ActiveRow(table, p.id) && p.policy == table[p.id]
  {
    PolicyRowMembers(table, ListActive(table), p);
    ListActiveLists(table);
    assert p.id in ListActive(table) <==> p.id in ActiveIds(table);
  }

  /** Every candidate's target stands for an active rule's client on the candidate's row. */
  lemma CandidateTarget(db: Db, c: Candidate)
    requires c in Candidates(db) && c.target.Some?
    ensures Faithful(db, c.target.value) && c.target.value.trafficId == c.trafficId
            && c.target.value.factorPpm == c.factorPpm
  {
    var ts := Targets(db);
    var os := PolicyRows(db.overrides, ListActive(db.overrides));
    var es := PolicyRows(db.excludes, ListActive(db.excludes));
    if c in RuleCandidates(ts) {
      RuleCandidateMembers(ts, c);
      TargetsExactly(db, c.target.value);
    } else if c in OverrideCandidates(os, ts) {
      OverrideCandidateMembers(os, ts, c);
      var o, x :| o in os && x in ts && Names(x, o.policy.trafficId, o.policy.email) && c == OverrideCandidate(o, x);
      TargetsExactly(db, x);
    } else {
      ExcludeCandidateMembers(es, ts, c);
    }
  }

  /** Every active rule's client is the target of a candidate of its row. */
  lemma KeyHasCandidate(db: Db, k: Key)
    requires ActiveKey(db, k)
    ensures HasTarget(Group(Candidates(db), k.traffic), k)
    ensures k.traffic in GroupIds(Candidates(db))
  {
    var x := TargetAt(db, k);
    var c := RuleCandidate(x);
    TargetsExactly(db, x);
    RuleCandidateMembers(Targets(db), c);
    assert c in Candidates(db);
    GroupMember(Candidates(db), k.traffic, c);
  }

  lemma GroupTargetIsActive(db: Db, t: int, k: Key)
    requires HasTarget(Group(Candidates(db), t), k)
    ensures ActiveKey(db, k) && k.traffic == t
  {
    var c :| c in Group(Candidates(db), t) && c.target.Some? && TargetKey(c.target.value) == k;
    GroupMember(Candidates(db), t, c);
    CandidateTarget(db, c);
  }

  /** An active exclude naming an active client of its row puts an exclude candidate in the row's group. */
  lemma ExcludeHasCandidate(db: Db, id: int, k: Key)
    requires ActiveRow(db.excludes, id) && ActiveKey(db, k)
             && NamesClient(db.excludes[id], k.traffic, db.clients[k].email)
    ensures exists c :: c in Group(Candidates(db), k.traffic) && c.source.SourceExclude? && c.target.None?
  {
    var e := PolicyRow(id, db.excludes[id]);
    ListedPolicies(db.excludes, e);
    TargetsExactly(db, TargetAt(db, k));
    LastNamedIn(Targets(db), e.policy.trafficId, e.policy.email);
    var c := ExcludeCandidate(e);
    ExcludeCandidateMembers(PolicyRows(db.excludes, ListActive(db.excludes)), Targets(db), c);
    assert c in Candidates(db);
    GroupMember(Candidates(db), k.traffic, c);
  }

  /**
   * A decision fits the tables: its targets are faithful, on its row, and named once; they are all the row's active
   * clients.
   */
  ghost predicate Fits(db: Db, d: Decision) {
    && Distinct(Named(d))
    && (d.target.Some? ==> Faithful(db, d.target.value) && d.target.value.trafficId == d.trafficId)
    && (forall s :: s in d.suppressed ==> Faithful(db, s) && s.trafficId == d.trafficId)
  }

  lemma DecisionFits(db: Db, d: Decision)
    requires DecideAll(Candidates(db)).Ok? && d in DecideAll(Candidates(db)).value
    ensures Fits(db, d)
    ensures forall k :: k in Named(d) <==> ActiveKey(db, k) && k.traffic == d.trafficId
    ensures d.target.Some? ==> d.target.value.factorPpm == d.factorPpm
  {
    var cs := Candidates(db);
    DecidePerTraffic(cs);
    var group := Group(cs, d.trafficId);
    EveryTargetOnce(group);
    WinnerIsTop(group);
    var w :| Wins(group, w) && d.target == w.target && d.factorPpm == w.factorPpm;
    GroupMember(cs, d.trafficId, w);
    if d.target.Some? { CandidateTarget(db, w); }
    forall s | s in d.suppressed ensures Faithful(db, s) && s.trafficId == d.trafficId {
      SuppressedAreTargets(group, s);
      var c :| c in group && c.target == Some(s);
      GroupMember(cs, d.trafficId, c);
      CandidateTarget(db, c);
    }
    forall k ensures k in Named(d) <==> ActiveKey(db, k) && k.traffic == d.trafficId {
      if ActiveKey(db, k) { KeyHasCandidate(db, k); }
      if HasTarget(group, k) { GroupTargetIsActive(db, d.trafficId, k); }
    }
  }

  // One row ---------------------------------------------------------------

  lemma SettleRests(row: Traffic, rc: RuleClient, factorPpm: int64)
    requires Settle(row, rc, factorPpm).Ok?
    ensures var (row', rc') := Settle(row, rc, factorPpm).value;
            && rc'.lastUp == row'.up && rc'.lastDown == row'.down && rc'.missingAt.None? && rc'.email == rc.email
            && row' == row.(up := row'.up, down := row'.down)
  {
  }

  /** Nothing but the rows and clients of one traffic id, and the events, differs. */
  ghost predicate OnlyRow(a: Db, b: Db, t: int) {
    && b == a.(traffic := b.traffic, clients := b.clients, events := b.events)
    && b.clients.Keys == a.clients.Keys && b.traffic.Keys == a.traffic.Keys
    && (forall u :: u in a.traffic && u != t ==> b.traffic[u] == a.traffic[u])
    && (forall k: Key :: k in a.clients && k.traffic != t ==> b.clients[k] == a.clients[k])
  }

  /** The client is marked missing, or its row has its email and it stands at the row's counters. */
  predicate Resting(db: Db, k: Key) {
    k in db.clients && (db.clients[k].missingAt.Some? || (Matched(db, k) && AtCounters(db, k)))
  }

  /** No fraction is added to the client's account: its remainders stay or are dropped. */
  predicate NoNewFraction(a: Db, b: Db, k: Key) {
    && k in a.clients && k in b.clients
    && ((b.clients[k].remUp == a.clients[k].remUp && b.clients[k].remDown == a.clients[k].remDown)
        || (b.clients[k].remUp == 0 && b.clients[k].remDown == 0))
  }

  /**
   * A suppressed client starts again from the counters its row ends with, or is marked missing where the row is not
   * its own.
   */
  predicate Yields(a: Db, b: Db, k: Key, now: int) {
    && k in a.clients && k in b.clients
    && if Matched(a, k) then k.traffic in b.traffic && b.clients[k] == Rebased(a.clients[k], b.traffic[k.traffic], 0, 0)
       else b.clients[k] == a.clients[k].(missingAt := if a.clients[k].missingAt.Some? then
              a.clients[k].missingAt else Some(now))
  }

  /** What the tick does to the winning target and its row. */
  ghost predicate WinnerOutcome(a: Db, b: Db, x: Target, env: TickEnv, now: int) {
    var k, t := TargetKey(x), x.trafficId;
    && k in a.clients && k in b.clients
    && (if t !in a.traffic then t !in b.traffic && Yields(a, b, k, now)
        else if t in env.locked then t in b.traffic && b.traffic[t] == a.traffic[t] && b.clients[k] == a.clients[k]
        else if a.traffic[t].email != a.clients[k].email then
          t in b.traffic && b.traffic[t] == a.traffic[t] && Yields(a, b, k, now)
        else t in b.traffic && Settle(a.traffic[t], a.clients[k], x.factorPpm) == Ok((b.traffic[t], b.clients[k])))
  }

  lemma MarkAbsentFacts(a: Db, x: Target, now: int)
    requires Faithful(a, x)
    ensures var b := MarkAbsent(a, x, now);
            && OnlyRow(a, b, x.trafficId) && b.traffic == a.traffic
            && (forall k :: k in a.clients && k != TargetKey(x) ==> b.clients[k] == a.clients[k])
            && b.clients[TargetKey(x)].missingAt.Some?
            && b.clients[TargetKey(x)]
               == a.clients[TargetKey(x)].(missingAt := if x.client.missingAt.Some? then
                     x.client.missingAt else Some(now))
  {
  }

  lemma TickTargetFacts(a: Db, x: Target, env: TickEnv, now: int)
    requires Faithful(a, x) && TickTarget(a, x, env, now).Ok?
    ensures var b := TickTarget(a, x, env, now).value;
            && OnlyRow(a, b, x.trafficId) && WinnerOutcome(a, b, x, env, now)
            && (forall k :: k in a.clients && k != TargetKey(x) ==> b.clients[k] == a.clients[k])
  {
    if x.trafficId !in a.traffic || (x.trafficId !in env.locked && a.traffic[x.trafficId].email != x.client.email) {
      MarkAbsentFacts(a, x, now);
    }
  }

  lemma RefreshFacts(a: Db, x: Target, now: int)
    requires Faithful(a, x)
    ensures var b := RefreshSuppressed(a, x, now);
            && OnlyRow(a, b, x.trafficId) && b.traffic == a.traffic && Yields(a, b, TargetKey(x), now)
            && (forall k :: k in a.clients && k != TargetKey(x) ==> b.clients[k] == a.clients[k])
  {
    MarkAbsentFacts(a, x, now);
  }

  lemma {:induction false} KeysMember(xs: seq<Target>, k: Key)
    ensures k in Keys(xs) <==> exists x :: x in xs && TargetKey(x) == k
  {
    if xs != [] {
      KeysMember(xs[1..], k);
      assert forall x :: x in xs <==> x == xs[0] || x in xs[1..];
    }
  }

  lemma RefreshedBoth(a: Db, m: Db, b: Db, k: Key, tail: seq<Key>, t: int, now: int)
    requires OnlyRow(a, m, t) && m.traffic == a.traffic && Yields(a, m, k, now)
    requires forall j :: j in a.clients && j != k ==> m.clients[j] == a.clients[j]
    requires OnlyRow(m, b, t) && b.traffic == m.traffic && (forall j :: j in tail ==> Yields(m, b, j, now))
    requires k !in tail && forall j :: j in m.clients && j !in tail ==> b.clients[j] == m.clients[j]
    ensures OnlyRow(a, b, t) && forall j :: j in [k] + tail ==> Yields(a, b, j, now)
    ensures forall j :: j in a.clients && j !in [k] + tail ==> b.clients[j] == a.clients[j]
  {
    assert forall j :: j in [k] + tail <==> j == k || j in tail;
    forall j | j in tail ensures Yields(a, b, j, now) { assert Yields(m, b, j, now) && j != k; }
  }

  lemma {:induction false} RefreshAllFacts(a: Db, xs: seq<Target>, now: int, t: int)
    requires Distinct(Keys(xs)) && forall x :: x in xs ==> Faithful(a, x) && x.trafficId == t
    ensures var b := RefreshAll(a, xs, now);
            && OnlyRow(a, b, t) && b.traffic == a.traffic
            && (forall k :: k in Keys(xs) ==> Yields(a, b, k, now))
            && (forall k :: k in a.clients && k !in Keys(xs) ==> b.clients[k] == a.clients[k])
    decreases |xs|
  {
    if xs != [] {
      var x, rest := xs[0], xs[1..];
      assert x in xs && forall y :: y in rest ==> y in xs;
      var m := RefreshSuppressed(a, x, now);
      RefreshFacts(a, x, now);
      var keys := Keys(xs);
      assert keys == [TargetKey(x)] + Keys(rest);
      assert Distinct(Keys(rest)) by { assert Keys(rest) == keys[1..]; }
      HeadNotInTail(keys);
      forall y | y in rest ensures Faithful(m, y) && y.trafficId == t {
        KeysMember(rest, TargetKey(y));
      }
      RefreshAllFacts(m, rest, now, t);
      RefreshedBoth(a, m, RefreshAll(m, rest, now), TargetKey(x), Keys(rest), t, now);
    }
  }

  lemma HeadNotInTail<T>(xs: seq<T>)
    requires xs != [] && Distinct(xs)
    ensures xs[0] !in xs[1..]
  {
  }

  /** What one decision does to its row. */
  ghost predicate Outcome(a: Db, b: Db, d: Decision, env: TickEnv, now: int) {
    && (d.target.Some? ==> WinnerOutcome(a, b, d.target.value, env, now))
    && (d.target.None? && d.trafficId in a.traffic ==> d.trafficId in b.traffic
                                                       && b.traffic[d.trafficId] == a.traffic[d.trafficId])
    && (forall s :: s in d.suppressed ==> Yields(a, b, TargetKey(s), now))
  }

  /** The suppressed targets, refreshed after the winner was dealt with. */
  lemma SuppressedFacts(a: Db, m: Db, d: Decision, now: int)
    requires Fits(a, d) && OnlyRow(a, m, d.trafficId) && m.traffic.Keys == a.traffic.Keys
    requires forall t :: t in a.traffic ==> m.traffic[t].email == a.traffic[t].email
    requires forall s :: s in d.suppressed ==> TargetKey(s) in m.clients && m.clients[TargetKey(s)] == s.client
                                               && m.rules == a.rules
    ensures var b := RefreshAll(m, d.suppressed, now);
            && OnlyRow(m, b, d.trafficId) && b.traffic == m.traffic
            && (forall s :: s in d.suppressed ==> Yields(a, b, TargetKey(s), now))
            && (forall k :: k in m.clients && k !in Keys(d.suppressed) ==> b.clients[k] == m.clients[k])
  {
    assert Distinct(Keys(d.suppressed)) by { NamedSuppressed(d); }
    RefreshAllFacts(m, d.suppressed, now, d.trafficId);
    var b := RefreshAll(m, d.suppressed, now);
    forall s | s in d.suppressed ensures Yields(a, b, TargetKey(s), now) {
      KeysMember(d.suppressed, TargetKey(s));
      assert Yields(m, b, TargetKey(s), now);
    }
  }

  lemma NamedSuppressed(d: Decision)
    requires Distinct(Named(d))
    ensures Distinct(Keys(d.suppressed))
    ensures d.target.Some? ==> TargetKey(d.target.value) !in Keys(d.suppressed)
  {
    if d.target.Some? {
      assert Named(d) == [TargetKey(d.target.value)] + Keys(d.suppressed);
      HeadNotInTail(Named(d));
      assert Keys(d.suppressed) == Named(d)[1..];
    } else {
      assert Named(d) == Keys(d.suppressed);
    }
  }

  lemma WinnerKeepsEmails(a: Db, b: Db, x: Target, env: TickEnv, now: int)
    requires OnlyRow(a, b, x.trafficId) && WinnerOutcome(a, b, x, env, now)
    ensures forall t :: t in a.traffic ==> b.traffic[t].email == a.traffic[t].email
  {
    if x.trafficId in a.traffic && x.trafficId !in env.locked
        && a.traffic[x.trafficId].email == a.clients[TargetKey(x)].email {
      SettleRests(a.traffic[x.trafficId], a.clients[TargetKey(x)], x.factorPpm);
    }
  }

  lemma TickDecisionFacts(a: Db, d: Decision, env: TickEnv, now: int)
    requires Fits(a, d) && TickDecision(a, d, env, now).Ok?
    ensures var b := TickDecision(a, d, env, now).value; OnlyRow(a, b, d.trafficId) && Outcome(a, b, d, env, now)
  {
    NamedSuppressed(d);
    forall s | s in d.suppressed ensures TargetKey(s) in Keys(d.suppressed) { KeysMember(d.suppressed, TargetKey(s)); }
    if d.target.None? {
      SuppressedFacts(a, a, d, now);
    } else {
      var x := d.target.value;
      var m := TickTarget(a, x, env, now).value;
      TickTargetFacts(a, x, env, now);
      WinnerKeepsEmails(a, m, x, env, now);
      SuppressedFacts(a, m, d, now);
      WinnerThenRest(a, m, RefreshAll(m, d.suppressed, now), d, env, now);
    }
  }

  lemma WinnerThenRest(a: Db, m: Db, b: Db, d: Decision, env: TickEnv, now: int)
    requires d.target.Some? && OnlyRow(a, m, d.trafficId) && OnlyRow(m, b, d.trafficId) && b.traffic == m.traffic
    requires WinnerOutcome(a, m, d.target.value, env, now) && TargetKey(d.target.value) in m.clients
    requires b.clients[TargetKey(d.target.value)] == m.clients[TargetKey(d.target.value)]
    requires forall s :: s in d.suppressed ==> Yields(a, b, TargetKey(s), now)
    ensures OnlyRow(a, b, d.trafficId) && Outcome(a, b, d, env, now)
  {
  }

  // All rows --------------------------------------------------------------

  predicate AscendingTraffic(ds: seq<Decision>) {
    forall i, j :: 0 <= i < j < |ds| ==> ds[i].trafficId < ds[j].trafficId
  }

  /** Only rows with a decision differ. */
  ghost predicate OnlyRows(a: Db, b: Db, ds: seq<Decision>) {
    && b == a.(traffic := b.traffic, clients := b.clients, events := b.events)
    && b.clients.Keys == a.clients.Keys && b.traffic.Keys == a.traffic.Keys
    && (forall u :: u in a.traffic && (forall d :: d in ds ==> d.trafficId != u) ==> b.traffic[u] == a.traffic[u])
    && (forall k: Key :: k in a.clients && (forall d :: d in ds ==> d.trafficId != k.traffic) ==>
                         b.clients[k] == a.clients[k])
  }

  lemma FitsElsewhere(a: Db, b: Db, t: int, d: Decision)
    requires OnlyRow(a, b, t) && d.trafficId != t
    ensures Fits(b, d) == Fits(a, d)
  {
  }

  lemma OutcomeBefore(a: Db, m: Db, b: Db, t: int, d: Decision, env: TickEnv, now: int)
    requires OnlyRow(a, m, t) && d.trafficId != t && Fits(a, d) && Outcome(m, b, d, env, now)
    ensures Outcome(a, b, d, env, now)
  {
  }

  lemma OutcomeAfter(a: Db, m: Db, b: Db, d: Decision, env: TickEnv, ds: seq<Decision>, now: int)
    requires Fits(a, d) && OnlyRow(a, m, d.trafficId) && Outcome(a, m, d, env, now)
    requires OnlyRows(m, b, ds) && forall e :: e in ds ==> e.trafficId != d.trafficId
    ensures Outcome(a, b, d, env, now)
  {
    forall s | s in d.suppressed ensures Yields(a, b, TargetKey(s), now) {
      assert TargetKey(s).traffic == d.trafficId;
    }
    if d.target.Some? {
      assert TargetKey(d.target.value).traffic == d.trafficId;
    }
  }

  lemma {:induction false} TickDecisionsFacts(a: Db, ds: seq<Decision>, env: TickEnv, now: int)
    requires AscendingTraffic(ds) && (forall d :: d in ds ==> Fits(a, d)) && TickDecisions(a, ds, env, now).Ok?
    ensures var b := TickDecisions(a, ds, env, now).value; OnlyRows(a, b, ds) && forall d ::
                                                             d in ds ==> Outcome(a, b, d, env, now)
    decreases |ds|
  {
    if ds != [] {
      var d, rest := ds[0], ds[1..];
      assert d in ds && forall e :: e in ds <==> e == d || e in rest;
      var m := TickDecision(a, d, env, now).value;
      TickDecisionFacts(a, d, env, now);
      forall e | e in rest ensures Fits(m, e) && e.trafficId != d.trafficId {
        LaterTraffic(ds, e);
        FitsElsewhere(a, m, d.trafficId, e);
      }
      TickDecisionsFacts(m, rest, env, now);
      var b := TickDecisions(m, rest, env, now).value;
      OutcomeAfter(a, m, b, d, env, rest, now);
      forall e | e in rest ensures Outcome(a, b, e, env, now) {
        OutcomeBefore(a, m, b, d.trafficId, e, env, now);
      }
    }
  }

  lemma LaterTraffic(ds: seq<Decision>, e: Decision)
    requires ds != [] && AscendingTraffic(ds) && e in ds[1..]
    ensures ds[0].trafficId < e.trafficId
  {
    var i :| 0 <= i < |ds[1..]| && ds[1..][i] == e;
    assert ds[i + 1] == e;
  }

  /** A committed charging phase, from the tables it decided on. */
  ghost predicate Committed(ready: Db, b: Db, env: TickEnv, now: int) {
    DecideAll(Candidates(ready)).Ok? && TickDecisions(ready, DecideAll(Candidates(ready)).value, env, now) == Ok(b)
  }

  lemma CommittedFacts(ready: Db, b: Db, env: TickEnv, now: int)
    requires Committed(ready, b, env, now)
    ensures var ds := DecideAll(Candidates(ready)).value;
            OnlyRows(ready, b, ds) && forall d :: d in ds ==> Fits(ready, d) && Outcome(ready, b, d, env, now)
  {
    var cs := Candidates(ready);
    DecidePerTraffic(cs);
    forall d | d in DecideAll(cs).value ensures Fits(ready, d) { DecisionFits(ready, d); }
    TickDecisionsFacts(ready, DecideAll(cs).value, env, now);
  }

  /** The decision of the row an active client sits on, which names the client. */
  lemma DecisionOf(ready: Db, k: Key) returns (d: Decision)
    requires DecideAll(Candidates(ready)).Ok? && ActiveKey(ready, k)
    ensures d in DecideAll(Candidates(ready)).value && d.trafficId == k.traffic && k in Named(d)
  {
    var cs := Candidates(ready);
    KeyHasCandidate(ready, k);
    DecidePerTraffic(cs);
    d :| d in DecideAll(cs).value && d.trafficId == k.traffic;
    DecisionFits(ready, d);
  }

  /** The winner of a row that another writer holds: it and its row are left as they were. */
  ghost predicate Deferred(ready: Db, b: Db, env: TickEnv, k: Key) {
    && k.traffic in env.locked && k in ready.clients && k in b.clients && b.clients[k] == ready.clients[k]
    && k.traffic in ready.traffic && k.traffic in b.traffic && b.traffic[k.traffic] == ready.traffic[k.traffic]
    && DecideAll(Candidates(ready)).Ok?
    && exists d :: d in DecideAll(Candidates(ready)).value && d.target.Some? && TargetKey(d.target.value) == k
  }

  lemma WinnerRests(ready: Db, b: Db, x: Target, env: TickEnv, now: int)
    requires WinnerOutcome(ready, b, x, env, now) && (x.trafficId !in ready.traffic || x.trafficId !in env.locked)
    ensures Resting(b, TargetKey(x))
  {
    var k := TargetKey(x);
    if k.traffic in ready.traffic && ready.traffic[k.traffic].email == ready.clients[k].email {
      SettleRests(ready.traffic[k.traffic], ready.clients[k], x.factorPpm);
    }
  }

  lemma YieldedRests(ready: Db, b: Db, k: Key, now: int)
    requires Yields(ready, b, k, now) && (k.traffic in ready.traffic && k.traffic in b.traffic ==>
             b.traffic[k.traffic].email == ready.traffic[k.traffic].email)
    ensures Resting(b, k)
  {
  }

  lemma DecidedRests(ready: Db, b: Db, d: Decision, env: TickEnv, k: Key, now: int)
    requires Outcome(ready, b, d, env, now) && k in Named(d) && k.traffic == d.trafficId
    requires k.traffic in ready.traffic && k.traffic in b.traffic ==>
             b.traffic[k.traffic].email == ready.traffic[k.traffic].email
    ensures Resting(b, k) || (d.target.Some? && TargetKey(d.target.value) == k && k.traffic in ready.traffic
            && k.traffic in env.locked)
  {
    KeysMember(d.suppressed, k);
    if d.target.Some? && TargetKey(d.target.value) == k {
      if k.traffic !in ready.traffic || k.traffic !in env.locked { WinnerRests(ready, b, d.target.value, env, now); }
    } else {
      var s :| s in d.suppressed && TargetKey(s) == k;
      YieldedRests(ready, b, k, now);
    }
  }

  lemma RowKeepsEmail(ready: Db, b: Db, d: Decision, env: TickEnv, now: int)
    requires Outcome(ready, b, d, env, now) && d.trafficId in ready.traffic && d.trafficId in b.traffic
    requires d.target.Some? ==> d.target.value.trafficId == d.trafficId
    ensures b.traffic[d.trafficId].email == ready.traffic[d.trafficId].email
  {
    if d.target.Some? && d.trafficId !in env.locked
        && ready.traffic[d.trafficId].email == ready.clients[TargetKey(d.target.value)].email {
      SettleRests(ready.traffic[d.trafficId], ready.clients[TargetKey(d.target.value)], d.target.value.factorPpm);
    }
  }

  /**
   * After a committed tick every active rule's client is marked missing, stands at the counters of its own row, or
   * was deferred as the winner.
   */
  lemma TickSettlesAll(ready: Db, b: Db, env: TickEnv, now: int, k: Key)
    requires Committed(ready, b, env, now) && ActiveKey(b, k)
    ensures Resting(b, k) || Deferred(ready, b, env, k)
  {
    CommittedFacts(ready, b, env, now);
    assert ActiveKey(ready, k);
    var d := DecisionOf(ready, k);
    assert Outcome(ready, b, d, env, now);
    DecisionFits(ready, d);
    if k.traffic in ready.traffic && k.traffic in b.traffic { RowKeepsEmail(ready, b, d, env, now); }
    DecidedRests(ready, b, d, env, k, now);
  }

  /**
   * A row whose counters changed was charged for the winner of its decision, whose client has the row's email, at the
   * decision's factor.
   */
  ghost predicate ChargedBy(ready: Db, b: Db, t: int, x: Target) {
    var k := TargetKey(x);
    && x.trafficId == t && k in ready.clients && ready.Active(k.rule) && t in ready.traffic && t in b.traffic
        && k in b.clients
    && ready.traffic[t].email == ready.clients[k].email
    && ready.clients[k].missingAt.None?
    && ready.traffic[t].up >= ready.clients[k].lastUp && ready.traffic[t].down >= ready.clients[k].lastDown
    && Settle(ready.traffic[t], ready.clients[k], x.factorPpm) == Ok((b.traffic[t], b.clients[k]))
  }

  lemma SettleMoves(row: Traffic, rc: RuleClient, factorPpm: int64)
    requires Settle(row, rc, factorPpm).Ok? && Settle(row, rc, factorPpm).value.0 != row
    ensures rc.missingAt.None? && row.up >= rc.lastUp && row.down >= rc.lastDown
    ensures row.up > rc.lastUp || row.down > rc.lastDown
  {
  }

  lemma ChangedRowsAreCharged(ready: Db, b: Db, env: TickEnv, now: int, t: int)
    requires Committed(ready, b, env, now) && t in ready.traffic && t in b.traffic && b.traffic[t] != ready.traffic[t]
    ensures exists d :: d in DecideAll(Candidates(ready)).value && d.target.Some? && d.trafficId == t
                        && d.target.value.factorPpm == d.factorPpm
                        && ChargedBy(ready, b, t, d.target.value)
  {
    CommittedFacts(ready, b, env, now);
    var d :| d in DecideAll(Candidates(ready)).value && d.trafficId == t;
    DecisionFits(ready, d);
    var x := d.target.value;
    SettleMoves(ready.traffic[t], ready.clients[TargetKey(x)], x.factorPpm);
    assert ChargedBy(ready, b, t, x);
  }
}
