/** internal/store: one transaction over the tables, updated in place statement by statement. */
module Store {
  import opened Collections
  import opened Model
  import opened Accounting
  import opened PolicyTable
  import opened Ticking
  import C = Commands
  import R = Reconciling

  // The client table after some of a rule's rows were refreshed -------------

  function RefreshedOn(db: Db, r: int, done: seq<int>): map<Key, RuleClient> {
    map k | k in db.clients :: if k.traffic in done
                               && C.OnOwnRow(db, r, k) then Rebased(db.clients[k], db.traffic[k.traffic], 0, 0) else
                                                              db.clients[k]
  }

  lemma OwnRowKey(db: Db, r: int, t: int)
    ensures t in C.OwnRows(db, r) <==> C.OnOwnRow(db, r, Key(r, t))
  {
    if t in C.OwnRows(db, r) {
      var k :| k in db.clients && C.OnOwnRow(db, r, k) && k.traffic == t;
      assert k == Key(r, t);
    }
  }

  lemma RefreshedNext(db: Db, r: int, done: seq<int>, t: int)
    requires t in C.OwnRows(db, r)
    ensures Key(r, t) in db.clients && t in db.traffic && db.traffic[t].email == db.clients[Key(r, t)].email
    ensures RefreshedOn(db, r, done + [t])
            == RefreshedOn(db, r, done)[Key(r, t) := Rebased(db.clients[Key(r, t)], db.traffic[t], 0, 0)]
    ensures var rc := RefreshedOn(db, r, done)[Key(r, t)];
            rc.(inboundId := db.traffic[t].inboundId, email := db.traffic[t].email, lastUp := db.traffic[t].up,
                lastDown := db.traffic[t].down,
                remUp := 0, remDown := 0, missingAt := None) == Rebased(db.clients[Key(r, t)], db.traffic[t], 0, 0)
  {
    OwnRowKey(db, r, t);
    forall k | k in db.clients && C.OnOwnRow(db, r, k) && k.traffic == t ensures k == Key(r, t) {}
    assert forall u :: u in done + [t] <==> u in done || u == t;
  }

  lemma RefreshedNone(db: Db, r: int)
    ensures RefreshedOn(db, r, []) == db.clients
  {
  }

  /** The rows joined to the rule's clients by id and email. */
  method ListOwnRows(db: Db, r: int) returns (ts: seq<int>)
    ensures |ts| == |C.OwnRows(db, r)| && forall t :: t in ts <==> t in C.OwnRows(db, r)
  {
    ts := Ascending(C.OwnRows(db, r));
  }

  lemma RefreshedAll(db: Db, r: int, ts: seq<int>)
    requires forall t :: t in ts <==> t in C.OwnRows(db, r)
    ensures RefreshedOn(db, r, ts) == C.RefreshRule(db, r).clients
  {
    forall k | k in db.clients && C.OnOwnRow(db, r, k) ensures k.traffic in ts { OwnRowKey(db, r, k.traffic); }
  }

  class Tx {
    var traffic: map<int, Traffic>
    var members: set<(string, int)>
    var rules: map<int, Rule>
    var scopes: map<int, Scope>
    var clients: map<Key, RuleClient>
    var excludes: map<int, Policy>
    var overrides: map<int, Policy>
    var events: seq<Event>
    var nextRule: int
    var nextExclude: int
    var nextOverride: int

    /** The tables as a value. */
    function View(): Db
      reads this
    {
      Db(traffic, members, rules, scopes, clients, excludes, overrides, events, nextRule, nextExclude, nextOverride)
    }

    constructor (db: Db)
      ensures View() == db
    {
      traffic, members, rules, scopes := db.traffic, db.members, db.rules, db.scopes;
      clients, excludes, overrides, events := db.clients, db.excludes, db.overrides, db.events;
      nextRule, nextExclude, nextOverride := db.nextRule, db.nextExclude, db.nextOverride;
    }

    /** ROLLBACK. */
    method Rollback(db: Db)
      modifies this
      ensures View() == db
    {
      traffic, members, rules, scopes := db.traffic, db.members, db.rules, db.scopes;
      clients, excludes, overrides, events := db.clients, db.excludes, db.overrides, db.events;
      nextRule, nextExclude, nextOverride := db.nextRule, db.nextExclude, db.nextOverride;
    }

    // rules.go ------------------------------------------------------------

    method CreateRule(rule: Rule) returns (id: int)
      modifies this`rules, this`nextRule
      ensures id == old(nextRule) && View() == C.Created(old(View()), rule)
    {
      id := nextRule;
      rules := rules[id := rule];
      nextRule := id + 1;
    }

    method SetRuleState(r: int, state: State, now: int)
      modifies this`rules
      ensures View() == old(View()).SetState(r, state, now)
    {
      if r in rules {
        var rule := rules[r].(state := state, updatedAt := now);
        if !state.Active? && !state.Paused? { rule := rule.(disabledAt := Some(now)); }
        rules := rules[r := rule];
      }
    }

    method AddEvent(rule: Option<int>, kind: EventKind, detail: Detail, now: int)
      modifies this`events
      ensures View() == old(View()).Log(rule, kind, detail, now)
    {
      events := events + [Event(rule, kind, detail, now)];
    }

    method AddEventOnce(rule: int, kind: EventKind, detail: Detail, now: int) returns (recorded: bool)
      modifies this`events
      ensures View() == Ticking.AddEventOnce(old(View()), rule, kind, detail, now)
      ensures recorded <==> events != old(events)
    {
      recorded := true;
      var i := 0;
      while i < |events|
        invariant 0 <= i <= |events|
        invariant recorded <==> forall j :: 0 <= j < i ==>
                                            !(events[j].rule == Some(rule) && events[j].kind == kind
                                            && events[j].detail == detail)
      {
        if events[i].rule == Some(rule) && events[i].kind == kind && events[i].detail == detail { recorded := false; }
        i := i + 1;
      }
      if recorded {
        assert forall e :: e in events ==> !(e.rule == Some(rule) && e.kind == kind && e.detail == detail);
        events := events + [Event(Some(rule), kind, detail, now)];
      }
    }

    // tick.go -------------------------------------------------------------

    /** Compare-and-swap on the row as it was read; `raced` is the case of another writer in between. */
    method UpdateClientCountersCAS(t: int, expected: Traffic, up: int64, down: int64, raced: bool) returns (ok: bool)
      requires t in traffic && traffic[t] == expected
      modifies this`traffic
      ensures ok == !raced
      ensures View() == if ok then old(View()).SetCounters(t, up, down) else old(View())
    {
      ok := !raced && traffic[t].email == expected.email && traffic[t].up == expected.up
          && traffic[t].down == expected.down;
      if ok { traffic := traffic[t := traffic[t].(up := up, down := down)]; }
    }

    method UpdateRuleClientBaseline(k: Key, up: int64, down: int64, remUp: int64, remDown: int64)
      modifies this`clients
      ensures View() == old(View()).Rebase(k, up, down, remUp, remDown)
    {
      if k in clients {
        clients := clients[k := clients[k].(lastUp := up, lastDown := down, remUp := remUp, remDown := remDown,
            missingAt := None)];
      }
    }

    method MarkRuleClientMissing(k: Key, now: int)
      modifies this`clients
      ensures View() == old(View()).MarkMissing(k, now)
    {
      if k in clients && clients[k].missingAt.None? {
        clients := clients[k := clients[k].(missingAt := Some(now))];
      }
    }

    method CreateRuleClient(k: Key, row: Traffic)
      modifies this`clients
      ensures View() == old(View()).PutClient(k, FreshClient(row))
    {
      clients := clients[k := FreshClient(row)];
    }

    /**
     * One UPDATE over the active rules' clients of the row; a row that is gone or renamed is reported and nothing
     * changes.
     */
    method RefreshActiveRuleClientBaselinesForTraffic(t: int, email: string) returns (found: bool)
      modifies this`clients
      ensures found <==> t in traffic && traffic[t].email == email
      ensures View() == C.RefreshRow(old(View()), t, email)
    {
      found := t in traffic && traffic[t].email == email;
      if found {
        var row := traffic[t];
        clients := map k | k in clients ::
          if k.traffic == t && clients[k].email == email && k.rule in rules && rules[k.rule].state.Active?
          then clients[k].(inboundId := row.inboundId, lastUp := row.up, lastDown := row.down, remUp := 0,
               remDown := 0, missingAt := None)
          else clients[k];
      }
    }

    // bulk.go -------------------------------------------------------------

    /** One UPDATE for each of the rule's clients whose row still has their email. */
    method RefreshRuleClientBaselinesCount(r: int) returns (count: nat)
      modifies this`clients
      ensures View() == C.RefreshRule(old(View()), r)
      ensures count == |C.OwnRows(old(View()), r)|
    {
      ghost var before := View();
      var ts := ListOwnRows(View(), r);
      var i := 0;
      assert ts[..0] == [];
      RefreshedNone(before, r);
      while i < |ts|
        invariant 0 <= i <= |ts|
        invariant clients == RefreshedOn(before, r, ts[..i])
      {
        var t := ts[i];
        assert t in ts;
        RefreshedNext(before, r, ts[..i], t);
        assert ts[..i + 1] == ts[..i] + [t];
        RefreshRuleClient(Key(r, t), traffic[t]);
        i := i + 1;
      }
      count := |ts|;
      assert ts[..|ts|] == ts;
      RefreshedAll(before, r, ts);
    }

    method RefreshRuleClient(k: Key, row: Traffic)
      requires k in clients
      modifies this`clients
      ensures clients == old(clients)[k :=
              old(clients[k]).(inboundId := row.inboundId, email := row.email, lastUp := row.up, lastDown := row.down,
                                                            remUp := 0, remDown := 0, missingAt := None)]
    {
      clients := clients[k := clients[k].(inboundId := row.inboundId, email := row.email, lastUp := row.up,
          lastDown := row.down,
                                          remUp := 0, remDown := 0, missingAt := None)];
    }

    // membership.go and scopes.go -------------------------------------------

    method AdoptRuleClientInbound(k: Key, inbound: int)
      modifies this`clients
      ensures View() == old(View()).AdoptInbound(k, inbound)
    {
      if k in clients { clients := clients[k := clients[k].(inboundId := inbound)]; }
    }

    /** The client moves to the row of its email, unless the rule already has a client there. */
    method RelinkRuleClientByEmail(r: int, t: int) returns (ok: Result<int>)
      modifies this`clients
      ensures ok.Err? ==> View() == old(View())
      ensures ok.Ok? ==> Key(r, t) in old(clients) && ok.value in traffic
                         && Some(ok.value) == old(View()).RowByEmail(old(clients[Key(r, t)]).email)
                         && View() == old(View()).(clients :=
                             Moved(old(clients), Key(r, t), Key(r, ok.value),
                             FreshClient(traffic[ok.value]).(email := old(clients[Key(r, t)]).email)))
      ensures ok.Ok? <==> old(Key(r, t) in clients && View().RowByEmail(clients[Key(r, t)].email).Some?
                              && Key(r, View().RowByEmail(clients[Key(r, t)].email).value) !in clients)
    {
      if Key(r, t) !in clients { return Err(NotFound); }
      var rc := clients[Key(r, t)];
      var row := View().RowByEmail(rc.email);
      if row.None? { return Err(NotFound); }
      if Key(r, row.value) in clients { return Err(Conflict); }
      var current := traffic[row.value];
      clients := (clients - {Key(r, t)})[Key(r, row.value) :=
          rc.(inboundId := current.inboundId, lastUp := current.up, lastDown := current.down,
                                                                  remUp := 0, remDown := 0, missingAt := None)];
      return Ok(row.value);
    }

    method CopyRuleClient(from: Key, to: Key)
      requires from in clients
      modifies this`clients
      ensures View() == old(View()).PutClient(to, old(clients[from]))
    {
      clients := clients[to := clients[from]];
    }

    method CreateScope(r: int, scope: Scope)
      modifies this`scopes
      ensures View() == old(View()).(scopes := old(scopes)[r := scope])
    {
      scopes := scopes[r := scope];
    }

    // excludes.go and overrides.go ------------------------------------------

    method UpsertExclude(t: int, inbound: int, email: string, now: int) returns (r: Result<int>)
      modifies this`excludes, this`nextExclude
      ensures match Upsert(old(excludes), old(nextExclude), t, inbound, email, 0, now)
              case Err(e) => r == Err(e) && View() == old(View())
              case Ok((table, next, id)) =>
                r == Ok(id) && View() == old(View()).(excludes := table, nextExclude := next)
    {
      match FindForUpsert(excludes, t, email) {
        case None =>
          var id := nextExclude;
          excludes := excludes[id := Policy(t, inbound, email, 0, Active, now, None)];
          nextExclude := id + 1;
          return Ok(id);
        case Some(id) =>
          if id !in excludes || Occupant(excludes, t, inbound, email, id).Some? { return Err(Conflict); }
          excludes := excludes[id := excludes[id].(trafficId := t, inboundId := inbound, factorPpm := 0,
              state := Active, updatedAt := now, disabledAt := None)];
          return Ok(id);
      }
    }

    method UpsertOverride(t: int, inbound: int, email: string, factorPpm: int64, now: int) returns (r: Result<int>)
      modifies this`overrides, this`nextOverride
      ensures match Upsert(old(overrides), old(nextOverride), t, inbound, email, factorPpm, now)
              case Err(e) => r == Err(e) && View() == old(View())
              case Ok((table, next, id)) =>
                r == Ok(id) && View() == old(View()).(overrides := table, nextOverride := next)
    {
      match FindForUpsert(overrides, t, email) {
        case None =>
          var id := nextOverride;
          overrides := overrides[id := Policy(t, inbound, email, factorPpm, Active, now, None)];
          nextOverride := id + 1;
          return Ok(id);
        case Some(id) =>
          if id !in overrides || Occupant(overrides, t, inbound, email, id).Some? { return Err(Conflict); }
          overrides := overrides[id := overrides[id].(trafficId := t, inboundId := inbound, factorPpm := factorPpm,
              state := Active, updatedAt := now, disabledAt := None)];
          return Ok(id);
      }
    }

    method DisableExclude(id: int, now: int)
      modifies this`excludes
      ensures View() == old(View()).(excludes := Disable(old(excludes), id, now))
    {
      if id in excludes {
        excludes := excludes[id := excludes[id].(state := Disabled, updatedAt := now, disabledAt := Some(now))];
      }
    }

    method DisableOverride(id: int, now: int)
      modifies this`overrides
      ensures View() == old(View()).(overrides := Disable(old(overrides), id, now))
    {
      if id in overrides {
        overrides := overrides[id := overrides[id].(state := Disabled, updatedAt := now, disabledAt := Some(now))];
      }
    }

    method RelinkExcludeRow(id: int, p: Policy, t: int, inbound: int, now: int)
      modifies this`excludes
      ensures View() == old(View()).(excludes := Relink(old(excludes), id, p, t, inbound, now))
    {
      match Occupant(excludes, t, inbound, p.email, id) {
        case None =>
          if id in excludes {
            excludes := excludes[id := excludes[id].(trafficId := t, inboundId := inbound, updatedAt := now)];
          }
        case Some(o) =>
          if o in excludes && !excludes[o].state.Active? {
            excludes := excludes[o := excludes[o].(state := Active, factorPpm := p.factorPpm, updatedAt := now)];
          }
          DisableExclude(id, now);
      }
    }

    method RelinkOverrideRow(id: int, p: Policy, t: int, inbound: int, now: int)
      modifies this`overrides
      ensures View() == old(View()).(overrides := Relink(old(overrides), id, p, t, inbound, now))
    {
      match Occupant(overrides, t, inbound, p.email, id) {
        case None =>
          if id in overrides {
            overrides := overrides[id := overrides[id].(trafficId := t, inboundId := inbound, updatedAt := now)];
          }
        case Some(o) =>
          if o in overrides && !overrides[o].state.Active? {
            overrides := overrides[o := overrides[o].(state := Active, factorPpm := p.factorPpm, updatedAt := now)];
          }
          DisableOverride(id, now);
      }
    }
  }
}
