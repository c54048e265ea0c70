/** What each operator command achieves. */
module Effects {
  import opened Collections
  import opened Model
  import opened Factor
  import opened Decisions
  import opened PolicyTable
  import opened Baselines
  import opened Ticking
  import opened TickProofs
  import opened Commands
  import opened CommandProofs
  import opened BulkProofs
  import opened Machine
  import opened Ledgers
  import opened Unambiguous
  import opened Ownership
  import opened Schedule
  import V = ClientView

  // Rules -----------------------------------------------------------------

  /** Enable leaves the client's row under a new active rule of the given factor, starting from the row's counters. */
  lemma EnableOwns(a: Db, email: string, inbound: Option<int>, factor: string, now: int)
    requires Valid(a) && Commands.Enable(a, email, inbound, factor, now).Ok?
    ensures var b, t := Commands.Enable(a, email, inbound, factor, now).value, a.FindClient(email, inbound).value;
            && a.FindClient(email, inbound).Ok? && t in a.traffic && a.traffic[t].email == email
                && a.nextRule !in a.rules
            && b.Owns(a.nextRule, t) && ParseFactor(factor) == Ok(b.rules[a.nextRule].factorPpm)
            && b.clients[Key(a.nextRule, t)] == FreshClient(a.traffic[t])
            && (forall x :: !a.Owns(x, t))
  {
    FindClientFound(a, email, inbound);
    NoOwners(a, a.FindClient(email, inbound).value);
  }

  /** Pause and disable stop exactly the one rule that the email, inbound and states select. */
  lemma TransitionStopsOne(a: Db, email: string, inbound: Option<int>, from: set<State>, to: State, now: int)
    requires Commands.Transition(a, email, inbound, from, to, now).Ok?
    ensures var b, rs := Commands.Transition(a, email, inbound, from, to, now).value,
            SelectedRules(a, email, inbound, from);
            exists r :: rs == {r} && r in b.rules && b.rules[r].state == to && b.rules.Keys == a.rules.Keys
                        && (forall x :: x in a.rules && x != r ==> b.rules[x] == a.rules[x]) && b.clients == a.clients
  {
    var b, rs := Commands.Transition(a, email, inbound, from, to, now).value, SelectedRules(a, email, inbound, from);
    FoundRule(a, email, inbound, from);
    var r := Min(rs);
    assert rs == {r} by { assert |rs - {r}| == 0; }
    assert r in rs && b.rules[r].state == to;
  }

  lemma {:induction false} SetStatesReach(a: Db, rs: seq<int>, to: State, now: int, x: int)
    requires x in a.rules
    ensures x in SetStates(a, rs, to, now).rules
    ensures x in rs ==> SetStates(a, rs, to, now).rules[x].state == to
    ensures x !in rs ==> SetStates(a, rs, to, now).rules[x] == a.rules[x]
    decreases |rs|
  {
    if rs != [] {
      var m := a.SetState(rs[0], to, now).Log(Some(rs[0]), EndKind(to), Plain, now);
      SetStatesReach(m, rs[1..], to, now, x);
      if x in rs[1..] { assert x in rs; } else if x != rs[0] { assert x !in rs; }
    }
  }

  /** A bulk transition moves exactly the selected rules. */
  lemma BulkTransitionMovesAll(a: Db, inbound: Option<int>, from: set<State>, to: State, now: int, x: int)
    requires Commands.BulkTransition(a, inbound, from, to, now).Ok? && x in a.rules
    ensures var b := Commands.BulkTransition(a, inbound, from, to, now).value;
            && x in b.rules
            && (x in RuleIds(a, inbound, from) ==> b.rules[x].state == to)
            && (x !in RuleIds(a, inbound, from) ==> b.rules[x] == a.rules[x])
  {
    SetStatesReach(a, Ascending(RuleIds(a, inbound, from)), to, now, x);
  }

  // Enable-all ------------------------------------------------------------

  predicate Taken(db: Db, t: int) {
    exists k :: k in db.clients && k.traffic == t && k.rule in db.rules
                && (db.rules[k.rule].state.Active? || db.rules[k.rule].state.Paused?)
  }

  lemma TakenListed(db: Db, t: int)
    ensures Taken(db, t) <==> db.RulesOn(t, {Active, Paused}) != {}
  {
    if Taken(db, t) {
      var k :| k in db.clients && k.traffic == t && k.rule in db.rules
          && (db.rules[k.rule].state.Active? || db.rules[k.rule].state.Paused?);
      assert k.rule in db.RulesOn(t, {Active, Paused});
    }
    if db.RulesOn(t, {Active, Paused}) != {} {
      SomeMember(db.RulesOn(t, {Active, Paused}));
      var r :| r in db.RulesOn(t, {Active, Paused});
    }
  }

  lemma TakenBy(db: Db, s: int, t: int)
    requires db.Owns(s, t)
    ensures Taken(db, t)
  {
    assert Key(s, t).traffic == t && Key(s, t).rule == s;
  }

  /** After its round of enable-all, a client is taken by an active or paused rule. */
  lemma EnableClientTakes(a: Db, s: int, t: int, now: int)
    requires s in a.scopes && a.Active(s) && EnableClient(a, s, t, now).Ok? && t in a.traffic
    ensures Taken(EnableClient(a, s, t, now).value, t)
  {
    TakenListed(a, t);
    var b := EnableClient(a, s, t, now).value;
    if Key(s, t) in a.clients {
      TakenBy(a, s, t);
    } else if a.RulesOn(t, {Active, Paused}) == {} {
      TakenBy(b, s, t);
    } else {
      AdoptTakes(a, s, t, now);
    }
  }

  lemma AdoptTakes(a: Db, s: int, t: int, now: int)
    requires s in a.scopes && a.Active(s) && Key(s, t) !in a.clients && a.RulesOn(t, {Active, Paused}) != {}
             && t in a.traffic
    requires EnableClient(a, s, t, now).Ok?
    ensures Taken(EnableClient(a, s, t, now).value, t)
  {
    var rs := a.RulesOn(t, {Active, Paused});
    var r := Min(rs);
    var b := EnableClient(a, s, t, now).value;
    var k :| k in a.clients && k.traffic == t && k.rule in a.rules && a.rules[k.rule].state in {Active, Paused}
        && k.rule == r;
    if r !in a.scopes && a.Active(r) && Adopt(a, s, r, t, now).1 {
      assert Key(s, t) in b.clients && b.rules[s] == a.rules[s];
      TakenBy(b, s, t);
    } else {
      assert b.rules == a.rules && k in b.clients;
    }
  }

  /** Later rounds do not release it. */
  lemma EnableClientKeepsTaken(a: Db, s: int, u: int, now: int, t: int)
    requires s in a.scopes && a.Active(s) && EnableClient(a, s, u, now).Ok? && Taken(a, t)
    ensures Taken(EnableClient(a, s, u, now).value, t)
  {
    var b := EnableClient(a, s, u, now).value;
    if u == t && t in a.traffic {
      EnableClientTakes(a, s, t, now);
    } else {
      var k :| k in a.clients && k.traffic == t && k.rule in a.rules
          && (a.rules[k.rule].state.Active? || a.rules[k.rule].state.Paused?);
      RoundElsewhere(a, s, u, now, k);
    }
  }

  lemma RoundElsewhere(a: Db, s: int, u: int, now: int, k: Key)
    requires s in a.scopes && a.Active(s) && EnableClient(a, s, u, now).Ok? && k in a.clients && k.rule in a.rules
             && (k.traffic != u || u !in a.traffic)
    ensures var b := EnableClient(a, s, u, now).value; k in b.clients && k.rule in b.rules
                                                       && b.rules[k.rule].state == a.rules[k.rule].state
  {
    if u in a.traffic && Key(s, u) !in a.clients && a.RulesOn(u, {Active, Paused}) != {} {
      var r := Min(a.RulesOn(u, {Active, Paused}));
      AdoptElsewhere(a, s, r, u, now, k);
    }
  }

  lemma AdoptElsewhere(a: Db, s: int, r: int, u: int, now: int, k: Key)
    requires k in a.clients && k.rule in a.rules && k.traffic != u
    ensures var b := Adopt(a, s, r, u, now).0; k in b.clients && k.rule in b.rules
                                               && b.rules[k.rule].state == a.rules[k.rule].state
  {
    if Adopt(a, s, r, u, now).1 {
      var ts := a.ClientsOf(r);
      assert u in ts by { assert Key(r, u) in a.clients; }
      assert ts == {u} by { assert |ts - {u}| == 0; }
      assert k.rule == r ==> k.traffic in ts;
    }
  }

  lemma {:induction false} EnableClientsTake(a: Db, s: int, ts: seq<int>, now: int, t: int)
    requires s in a.scopes && a.Active(s) && EnableClients(a, s, ts, now).Ok?
    requires Taken(a, t) || (t in ts && t in a.traffic)
    ensures Taken(EnableClients(a, s, ts, now).value, t)
    decreases |ts|
  {
    if ts != [] {
      var m := EnableClient(a, s, ts[0], now).value;
      EnableClientFacts(a, s, ts[0], now);
      if Taken(a, t) {
        EnableClientKeepsTaken(a, s, ts[0], now, t);
      } else if t == ts[0] {
        EnableClientTakes(a, s, t, now);
      } else {
        assert t in ts[1..];
      }
      EnableClientsTake(m, s, ts[1..], now, t);
    }
  }

  /** Enable-all leaves no matching client without an active or paused rule. */
  lemma EnablePersistentTakesAll(a: Db, bulk: Bulk, factorPpm: int64, ts: seq<int>, now: int, t: int)
    requires Valid(a) && EnablePersistent(a, bulk, factorPpm, ts, now).Ok? && t in ts && t in a.traffic
    ensures Taken(EnablePersistent(a, bulk, factorPpm, ts, now).value, t)
  {
    match FindScope(a, bulk, factorPpm)
    case Some(s) =>
      FindScopeActive(a, bulk, factorPpm);
      EnableClientsTake(a, s, ts, now, t);
    case None =>
      CreateScopeFacts(a, bulk, false, factorPpm, now);
      EnableClientsTake(CreateScope(a, bulk, false, factorPpm, now), a.nextRule, ts, now, t);
  }

  /** A client that enable-all finds free, and only such a one, is taken by the snapshot rule. */
  lemma {:induction false} SnapshotTakesFree(db: Db, ts: seq<int>, t: int)
    requires SnapshotTargets(db, ts).Ok?
    ensures t in SnapshotTargets(db, ts).value <==> t in ts && !Taken(db, t)
  {
    if ts != [] {
      TakenListed(db, ts[0]);
      SnapshotTakesFree(db, ts[1..], t);
      assert t in ts <==> t == ts[0] || t in ts[1..];
    }
  }

  // Policies --------------------------------------------------------------

  lemma UpsertNames(table: Table, next: int, t: int, inbound: int, email: string, factorPpm: int64, now: int)
    requires Upsert(table, next, t, inbound, email, factorPpm, now).Ok?
    ensures var (after, _, id) := Upsert(table, next, t, inbound, email, factorPpm, now).value;
            id in after && ActiveRow(after, id) && AtTuple(after[id], t, inbound, email)
                && after[id].factorPpm == factorPpm
  {
    FoundHasEmail(table, t, email);
  }

  /** Exclude puts the client's row under an active exclude. */
  lemma ExcludeTakesEffect(a: Db, email: string, at: int, now: int)
    requires Commands.Exclude(a, email, at, now).Ok?
    ensures var b, t := Commands.Exclude(a, email, at, now).value, a.FindClient(email, Some(at));
            t.Ok? && Excluded(b, t.value)
  {
    FindClientFound(a, email, Some(at));
    var t := a.FindClient(email, Some(at)).value;
    UpsertNames(a.excludes, a.nextExclude, t, a.traffic[t].inboundId, a.traffic[t].email, 0, now);
  }

  /** Where every email has at most one exclude, unexclude releases the client's row. */
  lemma UnexcludeTakesEffect(a: Db, email: string, at: int, now: int)
    requires OneRowPerEmail(a.excludes) && Commands.Unexclude(a, email, at, now).Ok?
    ensures var b, t := Commands.Unexclude(a, email, at, now).value, a.FindClient(email, Some(at));
            t.Ok? && !Excluded(b, t.value)
  {
    FindClientFound(a, email, Some(at));
    var t := a.FindClient(email, Some(at)).value;
    FoundPolicy(a.excludes, t, email);
  }

  predicate Overridden(db: Db, t: int, factorPpm: int64) {
    t in db.traffic && exists id :: id in db.overrides && ActiveRow(db.overrides, id)
                                    && NamesClient(db.overrides[id], t, db.traffic[t].email)
                                    && db.overrides[id].factorPpm == factorPpm
  }

  /** Override puts the client's row under an active override of the given factor. */
  lemma OverrideTakesEffect(a: Db, email: string, at: int, factor: string, now: int)
    requires Commands.Override(a, email, at, factor, now).Ok?
    ensures var b, t := Commands.Override(a, email, at, factor, now).value, a.FindClient(email, Some(at));
            t.Ok? && ParseFactor(factor).Ok? && Overridden(b, t.value, ParseFactor(factor).value)
  {
    FindClientFound(a, email, Some(at));
    var t := a.FindClient(email, Some(at)).value;
    var factorPpm := ParseFactor(factor).value;
    UpsertNames(a.overrides, a.nextOverride, t, a.traffic[t].inboundId, a.traffic[t].email, factorPpm, now);
    var (table, next, id) := Upsert(a.overrides, a.nextOverride, t, a.traffic[t].inboundId, a.traffic[t].email,
        factorPpm, now).value;
    var b := Commands.Override(a, email, at, factor, now).value;
    assert b.overrides == table && b.traffic == a.traffic;
    assert id in b.overrides && ActiveRow(b.overrides, id) && NamesClient(b.overrides[id], t, b.traffic[t].email);
  }

  /** Where every email has at most one override, its removal leaves none on the client's row. */
  lemma RemoveOverrideTakesEffect(a: Db, email: string, at: int, now: int, factorPpm: int64)
    requires OneRowPerEmail(a.overrides) && Commands.RemoveOverride(a, email, at, now).Ok?
    ensures var b, t := Commands.RemoveOverride(a, email, at, now).value, a.FindClient(email, Some(at));
            t.Ok? && !Overridden(b, t.value, factorPpm)
  {
    FindClientFound(a, email, Some(at));
    var t := a.FindClient(email, Some(at)).value;
    FoundPolicy(a.overrides, t, email);
  }
}
