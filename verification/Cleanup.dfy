/** internal/store/cleanup.go: what a cleanup removes, and why its dry run tells the truth. */
module Cleanup {
  import opened Collections
  import opened Model
  import opened PolicyTable
  import opened Baselines

  datatype Options = Options(now: int, missingGrace: int, retention: int, auditRetention: int)

  datatype Counts = Counts(marked: nat, clients: nat, rules: nat, scopes: nat, excludes: nat, overrides: nat,
      events: nat)

  // Selections ------------------------------------------------------------

  function KeysOf(s: set<Key>, r: int, ts: seq<int>): seq<Key> {
    if ts == [] then [] else (if Key(r, ts[0]) in s then [Key(r, ts[0])] else []) + KeysOf(s, r, ts[1..])
  }

  function KeysOver(s: set<Key>, rs: seq<int>): seq<Key> {
    if rs == [] then [] else KeysOf(s, rs[0], Ascending(set k | k in s && k.rule == rs[0] :: k.traffic)) + KeysOver(s,
                             rs[1..])
  }

  /** Ordered by rule id and traffic id. */
  function ListKeys(s: set<Key>): seq<Key> {
    KeysOver(s, Ascending(set k | k in s :: k.rule))
  }

  /** Not marked, and the row is gone or carries another email. */
  predicate Mismatched(db: Db, k: Key) {
    && k in db.clients && db.clients[k].missingAt.None?
    && (k.traffic !in db.traffic || db.traffic[k.traffic].email != db.clients[k].email)
  }

  predicate MissingBy(db: Db, k: Key, cutoff: int) {
    k in db.clients && db.clients[k].missingAt.Some? && db.clients[k].missingAt.value <= cutoff
  }

  function EndedAt(disabledAt: Option<int>, updatedAt: int): int {
    if disabledAt.Some? then disabledAt.value else updatedAt
  }

  predicate EndedBy(db: Db, r: int, cutoff: int) {
    r in db.rules && db.rules[r].state in {Disabled, Merged, Orphaned}
        && EndedAt(db.rules[r].disabledAt, db.rules[r].updatedAt) <= cutoff
  }

  predicate InactiveBy(table: Table, id: int, cutoff: int) {
    id in table && !table[id].state.Active? && EndedAt(table[id].disabledAt, table[id].updatedAt) <= cutoff
  }

  function MismatchedKeys(db: Db): set<Key> {
    set k | k in db.clients && Mismatched(db, k)
  }

  function MissingKeys(db: Db, cutoff: int): set<Key> {
    set k | k in db.clients && MissingBy(db, k, cutoff)
  }

  function EndedRules(db: Db, cutoff: int): set<int> {
    set r | r in db.rules && EndedBy(db, r, cutoff)
  }

  function InactiveIds(table: Table, cutoff: int): set<int> {
    set id | id in table && InactiveBy(table, id, cutoff)
  }

  function OldEvents(events: seq<Event>, cutoff: int): nat {
    if events == [] then 0 else (if events[0].at <= cutoff then 1 else 0) + OldEvents(events[1..], cutoff)
  }

  function RecentEvents(events: seq<Event>, cutoff: int): seq<Event> {
    if events == [] then [] else (if events[0].at <= cutoff then
                                   [] else [events[0]]) + RecentEvents(events[1..], cutoff)
  }

  // Removals --------------------------------------------------------------

  function MarkKeys(db: Db, ks: seq<Key>, now: int): Db
    decreases |ks|
  {
    if ks == [] then db
    else MarkKeys(db.MarkMissing(ks[0], now).Log(Some(ks[0].rule), ClientMissing, OnTraffic(ks[0].traffic), now),
         ks[1..], now)
  }

  function PruneClients(db: Db, ks: seq<Key>, now: int): Db
    decreases |ks|
  {
    if ks == [] then db
    else PruneClients(db.(clients := db.clients - {ks[0]}).Log(Some(ks[0].rule), ClientPruned,
         OnTraffic(ks[0].traffic), now), ks[1..], now)
  }

  function RemoveRule(db: Db, r: int, now: int): Db {
    db.(rules := db.rules - {r}, scopes := db.scopes - {r}, clients := map k | k in db.clients
        && k.rule != r :: db.clients[k])
      .Log(Some(r), Cleaned, Plain, now)
  }

  function PruneRules(db: Db, rs: seq<int>, now: int): Db
    decreases |rs|
  {
    if rs == [] then db else PruneRules(RemoveRule(db, rs[0], now), rs[1..], now)
  }

  function PruneExcludes(db: Db, ids: seq<int>, now: int): Db
    decreases |ids|
  {
    if ids == [] then db
    else PruneExcludes(db.(excludes := db.excludes - {ids[0]}).Log(None, Cleaned, Plain, now), ids[1..], now)
  }

  function PruneOverrides(db: Db, ids: seq<int>, now: int): Db
    decreases |ids|
  {
    if ids == [] then db
    else PruneOverrides(db.(overrides := db.overrides - {ids[0]}).Log(None, Cleaned, Plain, now), ids[1..], now)
  }

  // The whole cleanup -----------------------------------------------------

  predicate Positive(o: Options) {
    o.now > 0 && o.missingGrace > 0 && o.retention > 0 && o.auditRetention > 0
  }

  function Marked(db: Db, now: int): Db {
    MarkKeys(db, ListKeys(MismatchedKeys(db)), now)
  }

  function ClientsPruned(db: Db, cutoff: int, now: int): Db {
    PruneClients(db, ListKeys(MissingKeys(db, cutoff)), now)
  }

  function RulesPruned(db: Db, cutoff: int, now: int): Db {
    PruneRules(db, Ascending(EndedRules(db, cutoff)), now)
  }

  function ExcludesPruned(db: Db, cutoff: int, now: int): Db {
    PruneExcludes(db, Ascending(InactiveIds(db.excludes, cutoff)), now)
  }

  function OverridesPruned(db: Db, cutoff: int, now: int): Db {
    PruneOverrides(db, Ascending(InactiveIds(db.overrides, cutoff)), now)
  }

  function EventsPruned(db: Db, cutoff: int): Db {
    db.(events := RecentEvents(db.events, cutoff))
  }

  function CountScopes(db: Db, rs: seq<int>): nat {
    if rs == [] then 0 else (if rs[0] in db.scopes then 1 else 0) + CountScopes(db, rs[1..])
  }

  datatype Cutoffs = Cutoffs(missing: int, retention: int, audit: int)

  datatype Swept = Swept(db: Db, marked: nat, clients: nat, rules: nat, scopes: nat)

  /** Clients and rules: each stage counts what it selects; a dry run counts without removing. */
  function RuleStages(db: Db, c: Cutoffs, now: int, dryRun: bool): Swept {
    var marks := ListKeys(MismatchedKeys(db));
    var db1 := if dryRun then db else Marked(db, now);
    var clients := ListKeys(MissingKeys(db1, c.missing));
    var db2 := if dryRun then db1 else ClientsPruned(db1, c.missing, now);
    var rules := Ascending(EndedRules(db2, c.retention));
    var db3 := if dryRun then db2 else RulesPruned(db2, c.retention, now);
    CountBound(db2, rules);
    Swept(db3, |marks|, |clients|, |rules| - CountScopes(db2, rules), CountScopes(db2, rules))
  }

  /** Policies and events. */
  function PolicyStages(db: Db, c: Cutoffs, now: int, dryRun: bool): (Db, nat, nat, nat) {
    var excludes := Ascending(InactiveIds(db.excludes, c.retention));
    var db4 := if dryRun then db else ExcludesPruned(db, c.retention, now);
    var overrides := Ascending(InactiveIds(db4.overrides, c.retention));
    var db5 := if dryRun then db4 else OverridesPruned(db4, c.retention, now);
    var db6 := if dryRun then db5 else EventsPruned(db5, c.audit);
    (db6, |excludes|, |overrides|, OldEvents(db5.events, c.audit))
  }

  function Tally(swept: Swept, rest: (Db, nat, nat, nat)): (Db, Counts) {
    (rest.0, Counts(swept.marked, swept.clients, swept.rules, swept.scopes, rest.1, rest.2, rest.3))
  }

  function Stages(db: Db, c: Cutoffs, now: int, dryRun: bool): (Db, Counts) {
    var swept := RuleStages(db, c, now, dryRun);
    Tally(swept, PolicyStages(swept.db, c, now, dryRun))
  }

  lemma {:induction false} CountBound(db: Db, rs: seq<int>)
    ensures CountScopes(db, rs) <= |rs|
  {
    if rs != [] {
      CountBound(db, rs[1..]);
    }
  }

  function CutoffsOf(o: Options): Cutoffs {
    Cutoffs(o.now - o.missingGrace, o.now - o.retention, o.now - o.auditRetention)
  }

  function Clean(db: Db, o: Options, dryRun: bool): Result<(Db, Counts)> {
    if !Positive(o) then Err(BadInput) else Ok(Stages(db, CutoffsOf(o), o.now, dryRun))
  }

  // What each stage does --------------------------------------------------

  /** Events made now are appended; nothing else about events changes. */
  ghost predicate LoggedNow(a: Db, b: Db, now: int) {
    && |a.events| <= |b.events| && b.events[..|a.events|] == a.events
    && forall i :: |a.events| <= i < |b.events| ==> b.events[i].at == now
  }

  lemma LoggedTransitive(a: Db, b: Db, c: Db, now: int)
    requires LoggedNow(a, b, now) && LoggedNow(b, c, now)
    ensures LoggedNow(a, c, now)
  {
    assert c.events[..|a.events|] == c.events[..|b.events|][..|a.events|];
  }

  lemma {:induction false} KeysOfFacts(s: set<Key>, r: int, ts: seq<int>)
    requires Increasing(ts)
    ensures Distinct(KeysOf(s, r, ts))
    ensures forall k :: k in KeysOf(s, r, ts) <==> k in s && k.rule == r && k.traffic in ts
  {
    if ts != [] {
      var t, tail := ts[0], KeysOf(s, r, ts[1..]);
      KeysOfFacts(s, r, ts[1..]);
      assert forall u :: u in ts <==> u == t || u in ts[1..];
      assert Key(r, t) !in tail by { assert t !in ts[1..]; }
      PrependDistinct(Key(r, t), tail);
      assert KeysOf(s, r, ts) == if Key(r, t) in s then [Key(r, t)] + tail else [] + tail;
      assert [] + tail == tail;
    }
  }

  lemma {:induction false} KeysOverFacts(s: set<Key>, rs: seq<int>)
    requires Increasing(rs)
    ensures Distinct(KeysOver(s, rs))
    ensures forall k :: k in KeysOver(s, rs) <==> k in s && k.rule in rs
  {
    if rs != [] {
      var r := rs[0];
      var ts := set k | k in s && k.rule == r :: k.traffic;
      var here, tail := KeysOf(s, r, Ascending(ts)), KeysOver(s, rs[1..]);
      KeysOfFacts(s, r, Ascending(ts));
      KeysOverFacts(s, rs[1..]);
      assert forall q :: q in rs <==> q == r || q in rs[1..];
      assert r !in rs[1..];
      forall k ensures k in here <==> k in s && k.rule == r {
        assert k in s && k.rule == r ==> k.traffic in ts;
      }
      ConcatDistinct(here, tail);
    }
  }

  lemma ListKeysLists(s: set<Key>)
    ensures Distinct(ListKeys(s)) && forall k :: k in ListKeys(s) <==> k in s
  {
    var rules := set k | k in s :: k.rule;
    KeysOverFacts(s, Ascending(rules));
    forall k | k in s ensures k.rule in Ascending(rules) { assert k.rule in rules; }
  }

  lemma {:induction false} MarkKeysFacts(a: Db, ks: seq<Key>, now: int)
    requires Distinct(ks) && forall k :: k in ks ==> Mismatched(a, k)
    ensures var b := MarkKeys(a, ks, now);
            && b == a.(clients := b.clients, events := b.events) && LoggedNow(a, b, now)
            && b.clients.Keys == a.clients.Keys
            && (forall k :: k in a.clients && k !in ks ==> b.clients[k] == a.clients[k])
            && (forall k :: k in a.clients && k in ks ==> b.clients[k] == a.clients[k].(missingAt := Some(now)))
    decreases |ks|
  {
    if ks != [] {
      var m := a.MarkMissing(ks[0], now).Log(Some(ks[0].rule), ClientMissing, OnTraffic(ks[0].traffic), now);
      assert ks[0] in ks && forall k :: k in ks <==> k == ks[0] || k in ks[1..];
      assert ks[0] !in ks[1..];
      forall k | k in ks[1..] ensures Mismatched(m, k) { assert Mismatched(a, k); }
      MarkKeysFacts(m, ks[1..], now);
      LoggedTransitive(a, m, MarkKeys(m, ks[1..], now), now);
    }
  }

  lemma {:induction false} PruneClientsFacts(a: Db, ks: seq<Key>, now: int)
    ensures var b := PruneClients(a, ks, now);
            && b == a.(clients := b.clients, events := b.events) && LoggedNow(a, b, now)
            && (forall k :: k in b.clients <==> k in a.clients && k !in ks)
            && (forall k :: k in b.clients ==> b.clients[k] == a.clients[k])
    decreases |ks|
  {
    if ks != [] {
      var m := a.(clients := a.clients - {ks[0]}).Log(Some(ks[0].rule), ClientPruned, OnTraffic(ks[0].traffic), now);
      PruneClientsFacts(m, ks[1..], now);
      LoggedTransitive(a, m, PruneClients(m, ks[1..], now), now);
      assert forall k :: k in ks <==> k == ks[0] || k in ks[1..];
    }
  }

  lemma {:induction false} PruneRulesFacts(a: Db, rs: seq<int>, now: int)
    ensures var b := PruneRules(a, rs, now);
            && b == a.(rules := b.rules, scopes := b.scopes, clients := b.clients, events := b.events)
                && LoggedNow(a, b, now)
            && (forall r :: r in b.rules <==> r in a.rules && r !in rs)
                && (forall r :: r in b.rules ==> b.rules[r] == a.rules[r])
            && (forall s :: s in b.scopes <==> s in a.scopes && s !in rs)
                && (forall s :: s in b.scopes ==> b.scopes[s] == a.scopes[s])
            && (forall k :: k in b.clients <==> k in a.clients && k.rule !in rs)
                && (forall k :: k in b.clients ==> b.clients[k] == a.clients[k])
    decreases |rs|
  {
    if rs != [] {
      var m := RemoveRule(a, rs[0], now);
      PruneRulesFacts(m, rs[1..], now);
      LoggedTransitive(a, m, PruneRules(m, rs[1..], now), now);
      assert forall r :: r in rs <==> r == rs[0] || r in rs[1..];
    }
  }

  lemma {:induction false} PruneExcludesFacts(a: Db, ids: seq<int>, now: int)
    ensures var b := PruneExcludes(a, ids, now);
            && b == a.(excludes := b.excludes, events := b.events) && LoggedNow(a, b, now)
            && (forall id :: id in b.excludes <==> id in a.excludes && id !in ids)
                && (forall id :: id in b.excludes ==> b.excludes[id] == a.excludes[id])
    decreases |ids|
  {
    if ids != [] {
      var m := a.(excludes := a.excludes - {ids[0]}).Log(None, Cleaned, Plain, now);
      PruneExcludesFacts(m, ids[1..], now);
      LoggedTransitive(a, m, PruneExcludes(m, ids[1..], now), now);
      assert forall id :: id in ids <==> id == ids[0] || id in ids[1..];
    }
  }

  lemma {:induction false} PruneOverridesFacts(a: Db, ids: seq<int>, now: int)
    ensures var b := PruneOverrides(a, ids, now);
            && b == a.(overrides := b.overrides, events := b.events) && LoggedNow(a, b, now)
            && (forall id :: id in b.overrides <==> id in a.overrides && id !in ids)
                && (forall id :: id in b.overrides ==> b.overrides[id] == a.overrides[id])
    decreases |ids|
  {
    if ids != [] {
      var m := a.(overrides := a.overrides - {ids[0]}).Log(None, Cleaned, Plain, now);
      PruneOverridesFacts(m, ids[1..], now);
      LoggedTransitive(a, m, PruneOverrides(m, ids[1..], now), now);
      assert forall id :: id in ids <==> id == ids[0] || id in ids[1..];
    }
  }

  // The stages of a real cleanup ------------------------------------------

  ghost predicate MarkedIn(a: Db, b: Db, now: int) {
    && b == a.(clients := b.clients, events := b.events) && LoggedNow(a, b, now)
    && b.clients.Keys == a.clients.Keys
    && (forall k :: k in a.clients ==> b.clients[k] == if Mismatched(a, k) then
                                         a.clients[k].(missingAt := Some(now)) else a.clients[k])
  }

  ghost predicate ClientsRemoved(a: Db, b: Db, cutoff: int, now: int) {
    && b == a.(clients := b.clients, events := b.events) && LoggedNow(a, b, now)
    && (forall k :: k in b.clients <==> k in a.clients && !MissingBy(a, k, cutoff))
    && (forall k :: k in b.clients ==> b.clients[k] == a.clients[k])
  }

  ghost predicate RulesRemoved(a: Db, b: Db, cutoff: int, now: int) {
    && b == a.(rules := b.rules, scopes := b.scopes, clients := b.clients, events := b.events) && LoggedNow(a, b, now)
    && (forall r :: r in b.rules <==> r in a.rules && !EndedBy(a, r, cutoff))
        && (forall r :: r in b.rules ==> b.rules[r] == a.rules[r])
    && (forall s :: s in b.scopes <==> s in a.scopes && !EndedBy(a, s, cutoff))
        && (forall s :: s in b.scopes ==> b.scopes[s] == a.scopes[s])
    && (forall k :: k in b.clients <==> k in a.clients && !EndedBy(a, k.rule, cutoff))
        && (forall k :: k in b.clients ==> b.clients[k] == a.clients[k])
  }

  ghost predicate PoliciesRemoved(a: Table, b: Table, cutoff: int) {
    && (forall id :: id in b <==> id in a && !InactiveBy(a, id, cutoff))
    && (forall id :: id in b ==> b[id] == a[id])
  }

  /** Exactly the mismatched clients are marked, at the time of the cleanup. */
  lemma MarkedExactly(a: Db, now: int)
    ensures MarkedIn(a, Marked(a, now), now)
  {
    var marks := MismatchedKeys(a);
    var ks := ListKeys(marks);
    ListKeysLists(marks);
    forall k | k in ks ensures Mismatched(a, k) { assert k in marks; }
    MarkKeysFacts(a, ks, now);
    forall k | k in a.clients ensures k in ks <==> Mismatched(a, k) { assert k in marks <==> Mismatched(a, k); }
  }

  lemma ClientsPrunedExactly(a: Db, cutoff: int, now: int)
    ensures ClientsRemoved(a, ClientsPruned(a, cutoff, now), cutoff, now)
  {
    var gone := MissingKeys(a, cutoff);
    var ks := ListKeys(gone);
    ListKeysLists(gone);
    PruneClientsFacts(a, ks, now);
    forall k | k in a.clients ensures k in ks <==> MissingBy(a, k, cutoff) {
      assert k in gone <==> MissingBy(a, k, cutoff);
    }
  }

  lemma RulesPrunedExactly(a: Db, cutoff: int, now: int)
    ensures RulesRemoved(a, RulesPruned(a, cutoff, now), cutoff, now)
  {
    var gone := EndedRules(a, cutoff);
    var rs := Ascending(gone);
    PruneRulesFacts(a, rs, now);
    forall r ensures r in rs <==> EndedBy(a, r, cutoff) { assert r in rs <==> r in gone; }
  }

  lemma ExcludesPrunedExactly(a: Db, cutoff: int, now: int)
    ensures var b := ExcludesPruned(a, cutoff, now);
            b == a.(excludes := b.excludes, events := b.events) && LoggedNow(a, b, now)
                && PoliciesRemoved(a.excludes, b.excludes, cutoff)
  {
    var gone := InactiveIds(a.excludes, cutoff);
    var ids := Ascending(gone);
    PruneExcludesFacts(a, ids, now);
    forall id ensures id in ids <==> InactiveBy(a.excludes, id, cutoff) { assert id in ids <==> id in gone; }
  }

  lemma OverridesPrunedExactly(a: Db, cutoff: int, now: int)
    ensures var b := OverridesPruned(a, cutoff, now);
            b == a.(overrides := b.overrides, events := b.events) && LoggedNow(a, b, now)
                && PoliciesRemoved(a.overrides, b.overrides, cutoff)
  {
    var gone := InactiveIds(a.overrides, cutoff);
    var ids := Ascending(gone);
    PruneOverridesFacts(a, ids, now);
    forall id ensures id in ids <==> InactiveBy(a.overrides, id, cutoff) { assert id in ids <==> id in gone; }
  }

  lemma {:induction false} OldEventsConcat(xs: seq<Event>, ys: seq<Event>, cutoff: int)
    requires forall y :: y in ys ==> y.at > cutoff
    ensures OldEvents(xs + ys, cutoff) == OldEvents(xs, cutoff)
  {
    if xs == [] {
      assert xs + ys == ys;
      NoOldEvents(ys, cutoff);
    } else {
      assert (xs + ys)[1..] == xs[1..] + ys;
      OldEventsConcat(xs[1..], ys, cutoff);
    }
  }

  lemma {:induction false} NoOldEvents(ys: seq<Event>, cutoff: int)
    requires forall y :: y in ys ==> y.at > cutoff
    ensures OldEvents(ys, cutoff) == 0
  {
    if ys != [] {
      assert ys[0] in ys && forall y :: y in ys[1..] ==> y in ys;
      NoOldEvents(ys[1..], cutoff);
    }
  }

  lemma SameOldEvents(a: Db, b: Db, now: int, cutoff: int)
    requires LoggedNow(a, b, now) && cutoff < now
    ensures OldEvents(b.events, cutoff) == OldEvents(a.events, cutoff)
  {
    var added := b.events[|a.events|..];
    assert b.events == a.events + added;
    OldEventsConcat(a.events, added, cutoff);
  }

  lemma {:induction false} SameScopeCount(a: Db, b: Db, rs: seq<int>)
    requires b.scopes == a.scopes
    ensures CountScopes(b, rs) == CountScopes(a, rs)
  {
    if rs != [] {
      SameScopeCount(a, b, rs[1..]);
    }
  }

  // What each stage leaves to the later ones ------------------------------

  /** A client marked in this cleanup is not yet missing for the grace period. */
  lemma MarkedSame(a: Db, c: Cutoffs, now: int)
    requires c.missing < now && c.audit < now
    ensures var b := Marked(a, now);
            && b == a.(clients := b.clients, events := b.events)
            && MissingKeys(b, c.missing) == MissingKeys(a, c.missing)
            && OldEvents(b.events, c.audit) == OldEvents(a.events, c.audit)
  {
    var b, cutoff := Marked(a, now), c.missing;
    MarkedExactly(a, now);
    forall k | k in a.clients ensures MissingBy(b, k, cutoff) <==> MissingBy(a, k, cutoff) {}
    SameOldEvents(a, b, now, c.audit);
  }

  lemma ClientsSame(a: Db, c: Cutoffs, now: int)
    requires c.missing < now && c.audit < now
    ensures var b := ClientsPruned(a, c.missing, now);
            && b == a.(clients := b.clients, events := b.events)
            && OldEvents(b.events, c.audit) == OldEvents(a.events, c.audit)
  {
    ClientsPrunedExactly(a, c.missing, now);
    SameOldEvents(a, ClientsPruned(a, c.missing, now), now, c.audit);
  }

  lemma RulesSame(a: Db, c: Cutoffs, now: int)
    requires c.missing < now && c.audit < now
    ensures var b := RulesPruned(a, c.retention, now);
            && b == a.(rules := b.rules, scopes := b.scopes, clients := b.clients, events := b.events)
            && OldEvents(b.events, c.audit) == OldEvents(a.events, c.audit)
  {
    RulesPrunedExactly(a, c.retention, now);
    SameOldEvents(a, RulesPruned(a, c.retention, now), now, c.audit);
  }

  lemma ExcludesSame(a: Db, c: Cutoffs, now: int)
    requires c.missing < now && c.audit < now
    ensures var b := ExcludesPruned(a, c.retention, now);
            && b == a.(excludes := b.excludes, events := b.events)
            && OldEvents(b.events, c.audit) == OldEvents(a.events, c.audit)
  {
    ExcludesPrunedExactly(a, c.retention, now);
    SameOldEvents(a, ExcludesPruned(a, c.retention, now), now, c.audit);
  }

  lemma OverridesSame(a: Db, c: Cutoffs, now: int)
    requires c.missing < now && c.audit < now
    ensures var b := OverridesPruned(a, c.retention, now);
            && b == a.(overrides := b.overrides, events := b.events)
            && OldEvents(b.events, c.audit) == OldEvents(a.events, c.audit)
  {
    OverridesPrunedExactly(a, c.retention, now);
    SameOldEvents(a, OverridesPruned(a, c.retention, now), now, c.audit);
  }

  lemma SameEnded(a: Db, b: Db, cutoff: int)
    requires b.rules == a.rules
    ensures EndedRules(b, cutoff) == EndedRules(a, cutoff)
  {
  }

  /**
   * The dry run changes nothing and counts exactly what the real run removes, though the real run marks clients and
   * adds events on its way.
   */
  lemma CleanupDryRunTellsTheTruth(a: Db, o: Options)
    ensures Clean(a, o, true).Ok? == Clean(a, o, false).Ok?
    ensures Clean(a, o, true).Ok? ==>
              Clean(a, o, true).value.0 == a && Clean(a, o, true).value.1 == Clean(a, o, false).value.1
  {
    if Positive(o) {
      SameCounts(a, CutoffsOf(o), o.now);
    }
  }

  lemma SameCounts(a: Db, c: Cutoffs, now: int)
    requires c.missing < now && c.audit < now
    ensures Stages(a, c, now, true).1 == Stages(a, c, now, false).1
  {
    var db1 := Marked(a, now);
    var db2 := ClientsPruned(db1, c.missing, now);
    var db3 := RulesPruned(db2, c.retention, now);
    var db4 := ExcludesPruned(db3, c.retention, now);
    MarkedSame(a, c, now);
    ClientsSame(db1, c, now);
    SameEnded(a, db2, c.retention);
    SameScopeCount(a, db2, Ascending(EndedRules(a, c.retention)));
    RulesSame(db2, c, now);
    ExcludesSame(db3, c, now);
    OverridesSame(db4, c, now);
  }

  lemma {:induction false} RecentKept(events: seq<Event>, cutoff: int, e: Event)
    ensures e in RecentEvents(events, cutoff) <==> e in events && e.at > cutoff
  {
    if events != [] {
      RecentKept(events[1..], cutoff, e);
    }
  }

  /** What a real cleanup leaves of `a`. */
  ghost predicate CleanedOf(a: Db, b: Db, missingCutoff: int, cutoff: int, now: int) {
    && b.traffic == a.traffic && b.members == a.members
    && b.nextRule == a.nextRule && b.nextExclude == a.nextExclude && b.nextOverride == a.nextOverride
    && (forall r :: r in b.rules <==> r in a.rules && !EndedBy(a, r, cutoff))
        && (forall r :: r in b.rules ==> b.rules[r] == a.rules[r])
    && (forall s :: s in b.scopes <==> s in a.scopes && !EndedBy(a, s, cutoff))
        && (forall s :: s in b.scopes ==> b.scopes[s] == a.scopes[s])
    && (forall k :: k in b.clients <==> k in a.clients && !MissingBy(a, k, missingCutoff)
                                        && !EndedBy(a, k.rule, cutoff))
    && (forall k :: k in b.clients ==> b.clients[k] == if Mismatched(a, k) then
                                         a.clients[k].(missingAt := Some(now)) else a.clients[k])
    && PoliciesRemoved(a.excludes, b.excludes, cutoff) && PoliciesRemoved(a.overrides, b.overrides, cutoff)
  }

  /** What becomes of one client. */
  lemma ClientFate(a: Db, c: Cutoffs, now: int, k: Key)
    requires c.missing < now && c.audit < now
    ensures var m := Stages(a, c, now, false).0.clients;
            && (k in m <==> k in a.clients && !MissingBy(a, k, c.missing) && !EndedBy(a, k.rule, c.retention))
            && (k in m ==> m[k] == if Mismatched(a, k) then a.clients[k].(missingAt := Some(now)) else a.clients[k])
  {
    var db1 := Marked(a, now);
    var db2 := ClientsPruned(db1, c.missing, now);
    var db3 := RulesPruned(db2, c.retention, now);
    var db4 := ExcludesPruned(db3, c.retention, now);
    MarkedFate(a, c, now, k);
    ClientsFate(db1, c, now, k);
    RulesFate(db2, c, now, k.rule, k);
    MarkedSame(a, c, now);
    ClientsSame(db1, c, now);
    ExcludesSame(db3, c, now);
    OverridesSame(db4, c, now);
  }

  lemma MarkedFate(a: Db, c: Cutoffs, now: int, k: Key)
    requires c.missing < now && c.audit < now
    ensures var m := Marked(a, now).clients;
            && (k in m <==> k in a.clients)
            && (k in m ==> m[k] == if Mismatched(a, k) then a.clients[k].(missingAt := Some(now)) else a.clients[k])
            && MissingBy(Marked(a, now), k, c.missing) == MissingBy(a, k, c.missing)
  {
    MarkedExactly(a, now);
  }

  lemma ClientsFate(a: Db, c: Cutoffs, now: int, k: Key)
    ensures var m := ClientsPruned(a, c.missing, now).clients;
            && (k in m <==> k in a.clients && !MissingBy(a, k, c.missing)) && (k in m ==> m[k] == a.clients[k])
  {
    ClientsPrunedExactly(a, c.missing, now);
  }

  lemma RulesFate(a: Db, c: Cutoffs, now: int, r: int, k: Key)
    ensures var b := RulesPruned(a, c.retention, now);
            && (r in b.rules <==> r in a.rules && !EndedBy(a, r, c.retention))
                && (r in b.rules ==> b.rules[r] == a.rules[r])
            && (r in b.scopes <==> r in a.scopes && !EndedBy(a, r, c.retention))
                && (r in b.scopes ==> b.scopes[r] == a.scopes[r])
            && (k in b.clients <==> k in a.clients && !EndedBy(a, k.rule, c.retention))
                && (k in b.clients ==> b.clients[k] == a.clients[k])
  {
    RulesPrunedExactly(a, c.retention, now);
  }

  /** What becomes of one rule and its scope. */
  lemma RuleFate(a: Db, c: Cutoffs, now: int, r: int)
    requires c.missing < now && c.audit < now
    ensures var b := Stages(a, c, now, false).0;
            && (r in b.rules <==> r in a.rules && !EndedBy(a, r, c.retention))
                && (r in b.rules ==> b.rules[r] == a.rules[r])
            && (r in b.scopes <==> r in a.scopes && !EndedBy(a, r, c.retention))
                && (r in b.scopes ==> b.scopes[r] == a.scopes[r])
  {
    var db1 := Marked(a, now);
    var db2 := ClientsPruned(db1, c.missing, now);
    var db3 := RulesPruned(db2, c.retention, now);
    var db4 := ExcludesPruned(db3, c.retention, now);
    MarkedSame(a, c, now);
    ClientsSame(db1, c, now);
    assert db2.rules == a.rules && db2.scopes == a.scopes;
    RulesFate(db2, c, now, r, Key(r, 0));
    ExcludesSame(db3, c, now);
    OverridesSame(db4, c, now);
  }

  lemma CleanupFrame(a: Db, c: Cutoffs, now: int)
    requires c.missing < now && c.audit < now
    ensures var b := Stages(a, c, now, false).0;
            b == a.(rules := b.rules, scopes := b.scopes, clients := b.clients, excludes := b.excludes,
                overrides := b.overrides, events := b.events)
  {
    var db1 := Marked(a, now);
    var db2 := ClientsPruned(db1, c.missing, now);
    var db3 := RulesPruned(db2, c.retention, now);
    var db4 := ExcludesPruned(db3, c.retention, now);
    MarkedSame(a, c, now);
    ClientsSame(db1, c, now);
    RulesSame(db2, c, now);
    ExcludesSame(db3, c, now);
    OverridesSame(db4, c, now);
  }

  lemma PoliciesFate(a: Db, c: Cutoffs, now: int)
    requires c.missing < now && c.audit < now
    ensures PoliciesRemoved(a.excludes, Stages(a, c, now, false).0.excludes, c.retention)
    ensures PoliciesRemoved(a.overrides, Stages(a, c, now, false).0.overrides, c.retention)
  {
    var db1 := Marked(a, now);
    var db2 := ClientsPruned(db1, c.missing, now);
    var db3 := RulesPruned(db2, c.retention, now);
    var db4 := ExcludesPruned(db3, c.retention, now);
    MarkedSame(a, c, now);
    ClientsSame(db1, c, now);
    RulesSame(db2, c, now);
    ExcludesSame(db3, c, now);
    OverridesSame(db4, c, now);
    ExcludesPrunedExactly(db3, c.retention, now);
    OverridesPrunedExactly(db4, c.retention, now);
  }

  /**
   * A real cleanup leaves the counters, every active or paused rule, every active policy, and every client neither
   * missing past the grace nor of a removed rule.
   */
  lemma CleanupKeepsTheRest(a: Db, c: Cutoffs, now: int)
    requires c.missing < now && c.audit < now
    ensures CleanedOf(a, Stages(a, c, now, false).0, c.missing, c.retention, now)
  {
    var b := Stages(a, c, now, false).0;
    forall k ensures (k in b.clients <==> k in a.clients && !MissingBy(a, k, c.missing)
                                          && !EndedBy(a, k.rule, c.retention))
                     && (k in b.clients ==>
                         b.clients[k] == if Mismatched(a, k) then
                           a.clients[k].(missingAt := Some(now)) else a.clients[k]) {
      ClientFate(a, c, now, k);
    }
    forall r ensures (r in b.rules <==> r in a.rules && !EndedBy(a, r, c.retention))
        && (r in b.rules ==> b.rules[r] == a.rules[r])
                     && (r in b.scopes <==> r in a.scopes && !EndedBy(a, r, c.retention))
                         && (r in b.scopes ==> b.scopes[r] == a.scopes[r]) {
      RuleFate(a, c, now, r);
    }
    CleanupFrame(a, c, now);
    PoliciesFate(a, c, now);
  }

  lemma LoggedKeepsEvent(a: Db, b: Db, now: int, e: Event)
    requires LoggedNow(a, b, now) && e in a.events
    ensures e in b.events
  {
    assert e in b.events[..|a.events|];
  }

  /** Of the events on record exactly those younger than the audit cutoff survive, and none as old is left or added. */
  lemma EventsByAge(a: Db, c: Cutoffs, now: int, e: Event)
    requires c.missing < now && c.audit < now
    ensures e in a.events ==> (e in Stages(a, c, now, false).0.events <==> e.at > c.audit)
    ensures e.at <= c.audit ==> e !in Stages(a, c, now, false).0.events
  {
    var db1 := Marked(a, now);
    var db2 := ClientsPruned(db1, c.missing, now);
    var db3 := RulesPruned(db2, c.retention, now);
    var db4 := ExcludesPruned(db3, c.retention, now);
    var db5 := OverridesPruned(db4, c.retention, now);
    if e in a.events {
      assert e in db1.events by { MarkedExactly(a, now); LoggedKeepsEvent(a, db1, now, e); }
      assert e in db2.events by { ClientsPrunedExactly(db1, c.missing, now); LoggedKeepsEvent(db1, db2, now, e); }
      assert e in db3.events by { RulesPrunedExactly(db2, c.retention, now); LoggedKeepsEvent(db2, db3, now, e); }
      assert e in db4.events by { ExcludesPrunedExactly(db3, c.retention, now); LoggedKeepsEvent(db3, db4, now, e); }
      assert e in db5.events by { OverridesPrunedExactly(db4, c.retention, now); LoggedKeepsEvent(db4, db5, now, e); }
    }
    RecentKept(db5.events, c.audit, e);
  }

  /** References still resolve, no live client is gained, and every active policy stays. */
  lemma CleanedSound(a: Db, b: Db, missingCutoff: int, cutoff: int, now: int)
    requires CleanedOf(a, b, missingCutoff, cutoff, now)
    ensures OnlyFewerLive(a, b) && (Valid(a) ==> Valid(b)) && (OneOwner(a) ==> OneOwner(b))
    ensures forall id :: ActiveRow(a.excludes, id) ==> id in b.excludes && b.excludes[id] == a.excludes[id]
    ensures (OneRowPerEmail(a.excludes) ==> OneRowPerEmail(b.excludes))
            && (OneRowPerEmail(a.overrides) ==> OneRowPerEmail(b.overrides))
  {
    if OneOwner(a) {
      forall x, y, t | b.Owns(x, t) && b.Owns(y, t) ensures x == y {
        assert a.Owns(x, t) && a.Owns(y, t);
      }
    }
  }
}
