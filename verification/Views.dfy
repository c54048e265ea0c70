/**
 * The decision shown for one client, told from the tables: it is the tick's, were only the clients shown on its row
 * there.
 */
module Views {
  import opened Collections
  import opened Model
  import opened Decisions
  import opened PolicyTable
  import opened Ticking
  import opened TickProofs
  import opened Ledgers
  import V = ClientView
  import D = Verdicts
  import E = Effective

  /**
   * An active rule's client is shown when it is present under the row's email, and the row enabled or the scope takes
   * disabled ones.
   */
  predicate Shown(db: Db, k: Key) {
    && k in db.clients && db.Active(k.rule) && k.traffic in db.traffic
    && db.clients[k].email == db.traffic[k.traffic].email && db.clients[k].missingAt.None?
    && (db.traffic[k.traffic].enable || (k.rule in db.scopes && db.scopes[k.rule].includeDisabled))
  }

  /** The tables with no clients but those shown on row t. */
  function Visible(db: Db, t: int): Db {
    db.(clients := map k | k in db.clients && k.traffic == t && Shown(db, k) :: db.clients[k])
  }

  /** What is kept of rule r's clients: the one on row t, when it is shown. */
  function KeptOf(db: Db, r: int, t: int): seq<Target> {
    if Shown(db, Key(r, t)) then [TargetAt(db, Key(r, t))] else []
  }

  lemma ValidIsShown(db: Db, r: int, t: int)
    requires t in db.traffic && Key(r, t) in db.clients && db.Active(r)
    ensures V.ValidFor(TargetAt(db, Key(r, t)), t, db.traffic[t]) <==> Shown(db, Key(r, t))
  {
  }

  lemma {:induction false} NoneElsewhere(db: Db, r: int, ts: seq<int>, t: int, row: Traffic)
    requires t !in ts
    ensures V.ValidTargets(TargetsOf(db, r, ts), t, row) == []
  {
    if ts != [] {
      assert t != ts[0] && t !in ts[1..];
      NoneElsewhere(db, r, ts[1..], t, row);
      var rest := TargetsOf(db, r, ts[1..]);
      if Key(r, ts[0]) in db.clients && r in db.rules {
        assert ([TargetAt(db, Key(r, ts[0]))] + rest)[1..] == rest;
      } else {
        assert [] + rest == rest;
      }
    }
  }

  lemma {:induction false} ValidOfRule(db: Db, r: int, ts: seq<int>, t: int)
    requires t in db.traffic && db.Active(r) && Increasing(ts)
    ensures V.ValidTargets(TargetsOf(db, r, ts), t, db.traffic[t]) == if t in ts then KeptOf(db, r, t) else []
  {
    if ts != [] {
      var rest := TargetsOf(db, r, ts[1..]);
      ValidOfRule(db, r, ts[1..], t);
      if ts[0] == t { NoneElsewhere(db, r, ts[1..], t, db.traffic[t]); }
      if Key(r, ts[0]) in db.clients {
        assert ([TargetAt(db, Key(r, ts[0]))] + rest)[1..] == rest;
        if ts[0] == t { ValidIsShown(db, r, t); }
      } else {
        assert [] + rest == rest;
      }
    }
  }

  lemma {:induction false} ValidConcat(xs: seq<Target>, ys: seq<Target>, t: int, row: Traffic)
    ensures V.ValidTargets(xs + ys, t, row) == V.ValidTargets(xs, t, row) + V.ValidTargets(ys, t, row)
  {
    if xs == [] {
      assert xs + ys == ys;
    } else {
      assert (xs + ys)[1..] == xs[1..] + ys;
      ValidConcat(xs[1..], ys, t, row);
    }
  }

  function KeptOver(db: Db, rs: seq<int>, t: int): seq<Target> {
    if rs == [] then [] else KeptOf(db, rs[0], t) + KeptOver(db, rs[1..], t)
  }

  lemma RuleKept(db: Db, r: int, t: int)
    requires t in db.traffic && db.Active(r)
    ensures V.ValidTargets(TargetsOf(db, r, Ascending(db.ClientsOf(r))), t, db.traffic[t]) == KeptOf(db, r, t)
  {
    var ts := Ascending(db.ClientsOf(r));
    ValidOfRule(db, r, ts, t);
    if Key(r, t) in db.clients { assert t in ts; }
  }

  lemma {:induction false} ValidOver(db: Db, rs: seq<int>, t: int)
    requires t in db.traffic && forall r :: r in rs ==> db.Active(r)
    ensures V.ValidTargets(TargetsOver(db, rs), t, db.traffic[t]) == KeptOver(db, rs, t)
  {
    if rs != [] {
      var r := rs[0];
      assert r in rs && forall x :: x in rs[1..] ==> x in rs;
      ValidOver(db, rs[1..], t);
      RuleKept(db, r, t);
      ValidConcat(TargetsOf(db, r, Ascending(db.ClientsOf(r))), TargetsOver(db, rs[1..]), t, db.traffic[t]);
    }
  }

  lemma VisibleShown(db: Db, t: int, r: int)
    ensures Shown(Visible(db, t), Key(r, t)) == Shown(db, Key(r, t))
    ensures KeptOf(Visible(db, t), r, t) == KeptOf(db, r, t)
  {
  }

  lemma {:induction false} VisibleKept(db: Db, rs: seq<int>, t: int)
    ensures KeptOver(Visible(db, t), rs, t) == KeptOver(db, rs, t)
  {
    if rs != [] {
      VisibleShown(db, t, rs[0]);
      VisibleKept(db, rs[1..], t);
    }
  }

  lemma SameView(db: Db, t: int)
    requires t in db.traffic
    ensures V.Effective(Visible(db, t), t) == V.Effective(db, t)
  {
    var v := Visible(db, t);
    assert ActiveIdsOf(v) == ActiveIdsOf(db);
    var rs := Ascending(ActiveIdsOf(db));
    ValidOver(db, rs, t);
    ValidOver(v, rs, t);
    VisibleKept(db, rs, t);
  }

  lemma AllVisibleValid(db: Db, t: int)
    requires t in db.traffic
    ensures V.AllTargetsValid(Targets(Visible(db, t)), t, db.traffic[t])
  {
    var v := Visible(db, t);
    forall x | x in Targets(v) && x.trafficId == t ensures V.ValidFor(x, t, db.traffic[t]) {
      TargetsExactly(v, x);
      ValidIsShown(v, x.ruleId, t);
      VisibleShown(db, t, x.ruleId);
    }
  }

  lemma ViewOfVisible(db: Db, t: int)
    requires t in db.traffic
    ensures var group := Group(Candidates(Visible(db, t)), t);
            && (group != [] ==> V.Effective(db, t) == DecideGroup(group))
            && (group == [] && V.Effective(db, t).Ok? ==> V.Effective(db, t).value.target.None?)
  {
    var v := Visible(db, t);
    SameView(db, t);
    AllVisibleValid(db, t);
    V.ViewAgreesWithTick(t, db.traffic[t], Targets(v), PolicyRows(v.excludes, ListActive(v.excludes)),
        PolicyRows(v.overrides, ListActive(v.overrides)));
  }

  lemma NoneShown(db: Db, t: int)
    requires t in db.traffic && Group(Candidates(Visible(db, t)), t) == []
    ensures V.Effective(db, t).Ok? && V.Effective(db, t).value.target.None?
  {
    ViewOfVisible(db, t);
    SameView(db, t);
    AllVisibleValid(db, t);
    var v := Visible(db, t);
    var excludes, overrides := PolicyRows(v.excludes, ListActive(v.excludes)),
        PolicyRows(v.overrides, ListActive(v.overrides));
    NoTargets(v, t);
    LoneNotTied(t, db.traffic[t], excludes, overrides);
  }

  lemma NoTargets(v: Db, t: int)
    requires t in v.traffic && Group(Candidates(v), t) == [] && V.AllTargetsValid(Targets(v), t, v.traffic[t])
    ensures V.ValidTargets(Targets(v), t, v.traffic[t]) == []
  {
    V.ValidMembers(Targets(v), t, v.traffic[t]);
    var valid := V.ValidTargets(Targets(v), t, v.traffic[t]);
    if valid != [] {
      var x := valid[0];
      assert x in valid;
      TargetsExactly(v, x);
      KeyHasCandidate(v, TargetKey(x));
      GroupNonEmpty(Candidates(v), t);
    }
  }

  lemma LoneNotTied(t: int, row: Traffic, excludes: seq<PolicyRow>, overrides: seq<PolicyRow>)
    ensures V.DecideClient(t, row, V.ClientCandidates(t, row, [], excludes, overrides)).Ok?
  {
    var cs := V.ClientCandidates(t, row, [], excludes, overrides);
    V.NoTargetsNoCandidates(excludes);
    V.NoTargetsNoCandidates(overrides);
    assert |cs| <= 2 && (|cs| == 2 ==> Precedence(cs[0].source) != Precedence(cs[1].source));
    if cs != [] { AmbiguousExactly(cs); }
  }

  /**
   * The view of a client is refused exactly when the clients shown tie on its row. Otherwise the rule r is shown as
   * effective at a factor exactly when, with no clients but those, it rules on the row at that factor.
   */
  lemma ViewExactly(db: Db, t: int, r: int, factorPpm: int64)
    requires t in db.traffic
    ensures var view, v := V.Effective(db, t), Visible(db, t);
            && (view.Err? <==> D.Tied(v, t))
            && (view.Ok? ==> ((view.value.target.Some? && TargetKey(view.value.target.value) == Key(r, t)
                               && view.value.factorPpm == factorPpm) <==> D.Rules(v, t, r, factorPpm)))
  {
    var v := Visible(db, t);
    var group := Group(Candidates(v), t);
    ViewOfVisible(db, t);
    D.RowTies(v, t);
    if group == [] {
      NoneShown(db, t);
      D.GroupLists(v, t);
      Unowned(v, t, group);
      NoOwners(v, t);
    } else {
      AmbiguousExactly(group);
      if DecideGroup(group).Ok? { ShownWinner(v, t, group, r, factorPpm); }
    }
  }

  lemma ShownWinner(v: Db, t: int, group: seq<Candidate>, r: int, factorPpm: int64)
    requires group == Group(Candidates(v), t) && group != [] && DecideGroup(group).Ok?
    ensures var d := DecideGroup(group).value;
            (d.target.Some? && TargetKey(d.target.value) == Key(r, t) && d.factorPpm == factorPpm) <==>
                D.Rules(v, t, r, factorPpm)
  {
    var d := DecideGroup(group).value;
    WinnerIsTop(group);
    var w :| Wins(group, w) && d.target == w.target && d.factorPpm == w.factorPpm;
    D.GroupLists(v, t);
    D.WinnerRules(v, t, group, w, r, factorPpm);
  }

  lemma UnderOwned(v: Db, table: Table, t: int)
    requires forall r :: !v.Owns(r, t)
    ensures !D.AnyUnder(v, table, t)
  {
    forall k | k in v.clients && k.traffic == t ensures !v.Active(k.rule) {
      assert k == Key(k.rule, t) && !v.Owns(k.rule, t);
    }
  }

  lemma Unowned(v: Db, t: int, group: seq<Candidate>)
    requires D.Lists(v, t, group) && group == []
    ensures forall r :: !v.Owns(r, t)
  {
    forall r ensures !v.Owns(r, t) {
      if v.Owns(r, t) { assert D.FromRule(v, t, D.RuleC(v, r, t)); }
    }
  }

  lemma NoOwners(v: Db, t: int)
    requires forall r :: !v.Owns(r, t)
    ensures !D.Tied(v, t) && forall r, factorPpm :: !D.Rules(v, t, r, factorPpm)
  {
    UnderOwned(v, v.excludes, t);
    UnderOwned(v, v.overrides, t);
    assert forall r :: !D.Foremost(v, r, t);
  }

  /** Where every active rule's client on the row is shown, the view is the very decision of the tick. */
  lemma ViewIsTheTicks(db: Db, t: int)
    requires t in db.traffic && DecideAll(Candidates(db)).Ok?
    requires forall k :: k in db.clients && k.traffic == t && db.Active(k.rule) ==> Shown(db, k)
    ensures forall d :: d in DecideAll(Candidates(db)).value && d.trafficId == t ==> V.Effective(db, t) == Ok(d)
    ensures (forall d :: d in DecideAll(Candidates(db)).value ==> d.trafficId != t) && V.Effective(db, t).Ok? ==>
            V.Effective(db, t).value.target.None?
  {
    forall x | x in Targets(db) && x.trafficId == t ensures V.ValidFor(x, t, db.traffic[t]) {
      TargetsExactly(db, x);
      ValidIsShown(db, x.ruleId, t);
    }
    V.EffectiveIsTheTicks(db, t);
  }

  // Rows without clients --------------------------------------------------------

  /** The table's row is an active policy recorded for row t under its email. */
  predicate NamesRow(table: Table, id: int, t: int, email: string) {
    id in table && table[id].state == Active && table[id].trafficId == t && table[id].email == email
  }

  ghost predicate SomeNames(table: Table, t: int, email: string) {
    exists id :: NamesRow(table, id, t, email)
  }

  lemma {:induction false} FirstExactIn(policies: seq<PolicyRow>, t: int, email: string)
    ensures match V.FirstExact(policies, t, email)
            case Some(p) => p in policies && p.policy.trafficId == t && p.policy.email == email
            case None => forall p :: p in policies ==> !(p.policy.trafficId == t && p.policy.email == email)
  {
    if policies != [] { FirstExactIn(policies[1..], t, email); }
  }

  lemma FirstListed(table: Table, t: int, email: string)
    ensures match V.FirstExact(PolicyRows(table, ListActive(table)), t, email)
            case Some(p) => NamesRow(table, p.id, t, email) && table[p.id] == p.policy
            case None => !SomeNames(table, t, email)
  {
    var rows := PolicyRows(table, ListActive(table));
    FirstExactIn(rows, t, email);
    forall id ensures NamesRow(table, id, t, email) <==>
                      id in table && PolicyRow(id, table[id]) in rows && table[id].trafficId == t
                          && table[id].email == email
    {
      if id in table { ListedPolicies(table, PolicyRow(id, table[id])); }
    }
    if V.FirstExact(rows, t, email).Some? { ListedPolicies(table, V.FirstExact(rows, t, email).value); }
  }

  lemma LoneView(t: int, row: Traffic, excludes: seq<PolicyRow>, overrides: seq<PolicyRow>)
    ensures var view := V.DecideClient(t, row, V.ClientCandidates(t, row, [], excludes, overrides));
            && view.Ok? && view.value.target.None?
            && match V.FirstExact(excludes, t, row.email)
               case Some(e) => view.value.source == SourceExclude && view.value.sourceRuleId == e.id
               case None =>
                 match V.FirstExact(overrides, t, row.email)
                 case Some(o) => view.value.source == SourceUserOverride && view.value.sourceRuleId == o.id
                                 && view.value.factorPpm == o.policy.factorPpm
                 case None => view.value.source == SourceNone
  {
    LoneNotTied(t, row, excludes, overrides);
    V.NoTargetNoView(t, row, excludes, overrides);
    V.NoTargetsNoCandidates(excludes);
    V.NoTargetsNoCandidates(overrides);
    var cs := V.ClientCandidates(t, row, [], excludes, overrides);
    if cs != [] {
      WinnerIsTop(cs);
      var d := DecideGroup(cs).value;
      var c :| Wins(cs, c) && d.source == c.source && d.sourceRuleId == c.ruleId && d.factorPpm == c.factorPpm;
      assert c in cs && Precedence(cs[0].source) <= Precedence(c.source);
    }
  }

  /**
   * The view of a client whose row shows no client of an active rule: excluded where an active exclude names the row
   * under its email, else overridden at the factor of an active override that does, else without any source.
   */
  lemma ViewWithoutClients(db: Db, t: int)
    requires t in db.traffic && forall k :: k in db.clients && k.traffic == t ==> !Shown(db, k)
    ensures V.Effective(db, t).Ok?
    ensures var view, email := V.Effective(db, t).value, db.traffic[t].email;
            && view.target.None?
            && if SomeNames(db.excludes, t, email) then
                 view.source == SourceExclude && NamesRow(db.excludes, view.sourceRuleId, t, email)
               else if SomeNames(db.overrides, t, email) then
                 view.source == SourceUserOverride && NamesRow(db.overrides, view.sourceRuleId, t, email)
                 && view.factorPpm == db.overrides[view.sourceRuleId].factorPpm
               else view.source == SourceNone
  {
    var excludes, overrides := PolicyRows(db.excludes, ListActive(db.excludes)),
        PolicyRows(db.overrides, ListActive(db.overrides));
    NoneValid(db, t);
    FirstListed(db.excludes, t, db.traffic[t].email);
    FirstListed(db.overrides, t, db.traffic[t].email);
    LoneView(t, db.traffic[t], excludes, overrides);
  }

  lemma NoneValid(db: Db, t: int)
    requires t in db.traffic && forall k :: k in db.clients && k.traffic == t ==> !Shown(db, k)
    ensures V.ValidTargets(Targets(db), t, db.traffic[t]) == []
  {
    var valid := V.ValidTargets(Targets(db), t, db.traffic[t]);
    V.ValidMembers(Targets(db), t, db.traffic[t]);
    if valid != [] {
      var x := valid[0];
      assert x in valid;
      TargetsExactly(db, x);
      ValidIsShown(db, x.ruleId, t);
    }
  }
}
