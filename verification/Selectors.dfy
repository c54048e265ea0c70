/** When each operator command succeeds, whom it selects, and what it leaves, by the fields of the tables. */
module Selectors {
  import opened Collections
  import opened Model
  import opened Factor
  import P = PolicyTable
  import opened Baselines
  import opened Ticking
  import C = Commands

  // Clients of the panel ------------------------------------------------------

  /** The row has the email, and its client is attached to the inbound if one is named. */
  predicate Matches(db: Db, email: string, inbound: Option<int>, t: int) {
    && t in db.traffic && db.traffic[t].email == email
    && (inbound.Some? ==> (email, inbound.value) in db.members)
  }

  ghost predicate OnlyMatch(db: Db, email: string, inbound: Option<int>, t: int) {
    Matches(db, email, inbound, t) && forall z :: Matches(db, email, inbound, z) ==> z == t
  }

  ghost predicate SomeMatch(db: Db, email: string, inbound: Option<int>) {
    exists t :: Matches(db, email, inbound, t)
  }

  lemma OneOf(xs: set<int>)
    ensures |xs| == 1 <==> exists x :: x in xs && forall z :: z in xs ==> z == x
    ensures xs == {} <==> !exists x :: x in xs
    ensures |xs| == 1 ==> Min(xs) in xs && forall z :: z in xs ==> z == Min(xs)
  {
    SomeMember(xs);
    if xs != {} {
      var x := Min(xs);
      assert xs == {x} + (xs - {x});
      SomeMember(xs - {x});
      if |xs| == 1 { assert xs - {x} == {}; }
      if y :| y in xs && forall z :: z in xs ==> z == y { assert xs == {y}; }
    }
  }

  /** A client is found exactly when one row matches; none and several are told apart. */
  lemma FindClientExactly(db: Db, email: string, inbound: Option<int>)
    ensures forall t :: db.FindClient(email, inbound) == Ok(t) <==> OnlyMatch(db, email, inbound, t)
    ensures db.FindClient(email, inbound) == Err(NotFound) <==> !SomeMatch(db, email, inbound)
    ensures db.FindClient(email, inbound).Err? ==>
            db.FindClient(email, inbound).error == if SomeMatch(db, email, inbound) then Ambiguous else NotFound
    ensures db.FindClient(email, inbound).Ok? ==> OnlyMatch(db, email, inbound, db.FindClient(email, inbound).value)
  {
    var ts := set t | t in db.traffic && db.traffic[t].email == email
        && (inbound.Some? ==> db.IsMember(email, inbound.value));
    forall t ensures t in ts <==> Matches(db, email, inbound, t) {}
    OneOf(ts);
  }

  // Rules ---------------------------------------------------------------------

  /** The rule has the email and one of the states, and the inbound if one is named. */
  predicate Selects(db: Db, email: string, inbound: Option<int>, states: set<State>, r: int) {
    && r in db.rules && db.rules[r].email == email && db.rules[r].state in states
    && (inbound.Some? ==> db.rules[r].inboundId == inbound.value)
  }

  ghost predicate SelectsOnly(db: Db, email: string, inbound: Option<int>, states: set<State>, r: int) {
    Selects(db, email, inbound, states, r) && forall z :: Selects(db, email, inbound, states, z) ==> z == r
  }

  ghost predicate SelectsSome(db: Db, email: string, inbound: Option<int>, states: set<State>) {
    exists r :: Selects(db, email, inbound, states, r)
  }

  lemma FindRuleExactly(db: Db, email: string, inbound: Option<int>, states: set<State>)
    ensures var found := C.FindRule(db, email, inbound, states);
            && (found.Ok? <==> exists r :: SelectsOnly(db, email, inbound, states, r))
            && (found.Ok? ==> SelectsOnly(db, email, inbound, states, found.value))
            && (found.Err? ==> found.error == if SelectsSome(db, email, inbound, states) then Ambiguous else NotFound)
  {
    var rs := C.SelectedRules(db, email, inbound, states);
    forall r ensures r in rs <==> Selects(db, email, inbound, states, r) {}
    OneOf(rs);
    if |rs| == 1 { assert SelectsOnly(db, email, inbound, states, Min(rs)); }
    if r :| SelectsOnly(db, email, inbound, states, r) { assert r in rs && forall z :: z in rs ==> z == r; }
  }

  /**
   * Only the rule's state and its times are new: the state is `to`, changed now, and ended now unless it is a pause.
   */
  predicate Stopped(p: Rule, q: Rule, to: State, now: int) {
    q == Rule(p.inboundId, p.email, p.factorPpm, to, now, if to == Paused then p.disabledAt else Some(now))
  }

  /** Exactly rule r was stopped. */
  predicate StopsOnly(a: Db, b: Db, r: int, to: State, now: int) {
    && b == a.(rules := b.rules, events := b.events) && b.rules.Keys == a.rules.Keys
    && r in a.rules && Stopped(a.rules[r], b.rules[r], to, now)
    && b.events == a.events + [Event(Some(r), if to == Paused then RulePaused else RuleDisabled, Plain, now)]
    && forall x :: x in a.rules && x != r ==> b.rules[x] == a.rules[x]
  }

  /** Why one rule cannot be stopped. */
  ghost predicate StopFails(db: Db, email: string, inbound: Option<int>, states: set<State>, error: Error) {
    if email == "" then error == BadInput
    else error == if SelectsSome(db, email, inbound, states) then Ambiguous else NotFound
  }

  /** Pausing a client succeeds exactly when one active rule is selected; exactly that rule is paused. */
  lemma PauseExactly(a: Db, email: string, inbound: Option<int>, now: int)
    ensures var e := C.Pause(a, email, inbound, now);
            && (e.Ok? <==> email != "" && exists r :: SelectsOnly(a, email, inbound, {Active}, r))
            && (e.Ok? ==> exists r :: SelectsOnly(a, email, inbound, {Active}, r)
                                      && StopsOnly(a, e.value, r, Paused, now))
            && (e.Err? ==> StopFails(a, email, inbound, {Active}, e.error))
  {
    FindRuleExactly(a, email, inbound, {Active});
    if C.Pause(a, email, inbound, now).Ok? {
      var r := C.FindRule(a, email, inbound, {Active}).value;
      assert StopsOnly(a, C.Pause(a, email, inbound, now).value, r, Paused, now);
    }
  }

  /** Disabling succeeds exactly when one active or paused rule is selected; exactly that rule is disabled. */
  lemma DisableExactly(a: Db, email: string, inbound: Option<int>, now: int)
    ensures var e := C.Disable(a, email, inbound, now);
            && (e.Ok? <==> email != "" && exists r :: SelectsOnly(a, email, inbound, {Active, Paused}, r))
            && (e.Ok? ==> exists r :: SelectsOnly(a, email, inbound, {Active, Paused}, r)
                                      && StopsOnly(a, e.value, r, Disabled, now))
            && (e.Err? ==> StopFails(a, email, inbound, {Active, Paused}, e.error))
  {
    FindRuleExactly(a, email, inbound, {Active, Paused});
    if C.Disable(a, email, inbound, now).Ok? {
      var r := C.FindRule(a, email, inbound, {Active, Paused}).value;
      assert StopsOnly(a, C.Disable(a, email, inbound, now).value, r, Disabled, now);
    }
  }

  // All rules -------------------------------------------------------------------

  /** Every rule in one of the states and within the inbound was stopped, and no other rule was touched. */
  predicate StopsAll(a: Db, b: Db, inbound: Option<int>, states: set<State>, to: State, now: int) {
    && b == a.(rules := b.rules, events := b.events) && b.rules.Keys == a.rules.Keys
    && forall r :: r in a.rules ==>
         if a.rules[r].state in states && (inbound.Some? ==> a.rules[r].inboundId == inbound.value)
         then Stopped(a.rules[r], b.rules[r], to, now) else b.rules[r] == a.rules[r]
  }

  lemma {:induction false} SetStatesExactly(a: Db, rs: seq<int>, to: State, now: int)
    requires Distinct(rs) && (to == Paused || to == Disabled) && forall r :: r in rs ==> r in a.rules
    ensures var b := C.SetStates(a, rs, to, now);
            && b == a.(rules := b.rules, events := b.events) && b.rules.Keys == a.rules.Keys
            && forall r :: r in a.rules ==>
                           if r in rs then Stopped(a.rules[r], b.rules[r], to, now) else b.rules[r] == a.rules[r]
    decreases |rs|
  {
    if rs != [] {
      var m := a.SetState(rs[0], to, now).Log(Some(rs[0]), C.EndKind(to), Plain, now);
      assert rs[0] in rs && rs[0] !in rs[1..];
      assert forall r :: r in rs <==> r == rs[0] || r in rs[1..];
      SetStatesExactly(m, rs[1..], to, now);
    }
  }

  lemma BulkExactly(a: Db, inbound: Option<int>, states: set<State>, to: State, now: int)
    requires to == Paused || to == Disabled
    ensures var e := C.BulkTransition(a, inbound, states, to, now);
            && (e.Ok? <==> exists r :: r in a.rules && a.rules[r].state in states
                                       && (inbound.Some? ==> a.rules[r].inboundId == inbound.value))
            && (e.Ok? ==> StopsAll(a, e.value, inbound, states, to, now)) && (e.Err? ==> e.error == NotFound)
  {
    var ids := C.RuleIds(a, inbound, states);
    SomeMember(ids);
    assert Distinct(Ascending(ids));
    SetStatesExactly(a, Ascending(ids), to, now);
    forall r | r in a.rules ensures r in Ascending(ids) <==> r in ids {}
  }

  /** Pause-all pauses every active rule within the inbound, and fails exactly when there is none. */
  lemma PauseAllExactly(a: Db, inbound: Option<int>, now: int)
    ensures var e := C.PauseAll(a, inbound, now);
            && (e.Ok? <==> exists r :: r in a.rules && a.rules[r].state in {Active}
                                       && (inbound.Some? ==> a.rules[r].inboundId == inbound.value))
            && (e.Ok? ==> StopsAll(a, e.value, inbound, {Active}, Paused, now)) && (e.Err? ==> e.error == NotFound)
  {
    BulkExactly(a, inbound, {Active}, Paused, now);
  }

  /** Disable-all disables every active or paused rule within it. */
  lemma DisableAllExactly(a: Db, inbound: Option<int>, now: int)
    ensures var e := C.DisableAll(a, inbound, now);
            && (e.Ok? <==> exists r :: r in a.rules && a.rules[r].state in {Active, Paused}
                                       && (inbound.Some? ==> a.rules[r].inboundId == inbound.value))
            && (e.Ok? ==> StopsAll(a, e.value, inbound, {Active, Paused}, Disabled, now))
                && (e.Err? ==> e.error == NotFound)
  {
    BulkExactly(a, inbound, {Active, Paused}, Disabled, now);
  }

  // Enabling ----------------------------------------------------------------------

  predicate Owned(db: Db, t: int) {
    exists k :: k in db.clients && k.traffic == t && k.rule in db.rules && db.rules[k.rule].state == Active
  }

  lemma OwnedListed(db: Db, t: int)
    ensures Owned(db, t) <==> db.RulesOn(t, {Active}) != {}
  {
    var rs := db.RulesOn(t, {Active});
    SomeMember(rs);
    if k :| k in db.clients && k.traffic == t && k.rule in db.rules && db.rules[k.rule].state == Active {
      assert k.rule in rs;
    }
  }

  /**
   * The one rule made for row t: of the factor, on the inbound named or else the row's, with a client from the
   * counters.
   */
  ghost predicate EnabledOn(a: Db, b: Db, t: int, email: string, inbound: Option<int>, factorPpm: int64, now: int) {
    && t in a.traffic && a.traffic[t].email == email
    && b == a.(rules := b.rules, clients := b.clients, events := b.events, nextRule := b.nextRule)
    && b.nextRule == a.nextRule + 1
    && b.rules == a.rules[a.nextRule := Rule(if inbound.Some? then
          inbound.value else a.traffic[t].inboundId, email, factorPpm,
                                             Active, now, None)]
    && Afresh(b, Key(a.nextRule, t)) && b.events == a.events + [Event(Some(a.nextRule), RuleEnabled, Plain, now)]
    && forall k :: k != Key(a.nextRule, t) ==> (k in b.clients <==> k in a.clients)
                                               && (k in a.clients ==> b.clients[k] == a.clients[k])
  }

  /** Enable succeeds exactly for a client that is the only match and whose row no active rule owns. */
  lemma EnableExactly(a: Db, email: string, inbound: Option<int>, factor: string, now: int)
    ensures var e := C.Enable(a, email, inbound, factor, now);
            && (e.Ok? <==> email != "" && ParseFactor(factor).Ok?
                           && exists t :: OnlyMatch(a, email, inbound, t) && !Owned(a, t))
            && (e.Ok? ==> exists t :: OnlyMatch(a, email, inbound, t)
                                      && EnabledOn(a, e.value, t, email, inbound, ParseFactor(factor).value, now))
            && (e == Err(Conflict) <==> email != "" && ParseFactor(factor).Ok?
                                        && exists t :: OnlyMatch(a, email, inbound, t) && Owned(a, t))
  {
    FindClientExactly(a, email, inbound);
    var found := a.FindClient(email, inbound);
    if found.Ok? {
      var t := found.value;
      OwnedListed(a, t);
      if C.Enable(a, email, inbound, factor, now).Ok? {
        assert EnabledOn(a, C.Enable(a, email, inbound, factor, now).value, t, email, inbound,
            ParseFactor(factor).value, now);
      }
    }
    NoParseConflict(factor);
  }

  lemma NoParseConflict(factor: string)
    ensures ParseFactor(factor) != Err(Conflict)
  {
  }

  // Policies ----------------------------------------------------------------------

  /** The row is an active policy under the email. */
  predicate UnderEmail(table: P.Table, id: int, email: string) {
    id in table && table[id].state == Active && table[id].email == email
  }

  /** And it is recorded for the client's row. */
  predicate OnRow(table: P.Table, id: int, t: int, email: string) {
    UnderEmail(table, id, email) && table[id].trafficId == t
  }

  ghost predicate Held(table: P.Table, email: string) {
    exists id :: UnderEmail(table, id, email)
  }

  /**
   * The policy in force for the client: the newest active one recorded for the row, or else the newest under the
   * email.
   */
  ghost predicate InForce(table: P.Table, t: int, email: string, id: int) {
    if exists z :: OnRow(table, z, t, email)
    then OnRow(table, id, t, email) && forall z :: OnRow(table, z, t, email) ==> z <= id
    else UnderEmail(table, id, email) && forall z :: UnderEmail(table, z, email) ==> z <= id
  }

  lemma NewestExactly(xs: set<int>)
    ensures match Newest(xs)
            case None => forall x :: x !in xs
            case Some(m) => m in xs && forall x :: x in xs ==> x <= m
  {
  }

  lemma OwnNewest(table: P.Table, t: int, email: string)
    ensures match P.FindActiveForClient(table, t, email)
            case None => forall z :: !OnRow(table, z, t, email)
            case Some(id) => OnRow(table, id, t, email) && forall z :: OnRow(table, z, t, email) ==> z <= id
  {
    var own := set id | id in table && table[id].state.Active? && P.NamesClient(table[id], t, email);
    NewestExactly(own);
    forall z ensures OnRow(table, z, t, email) <==> z in own {}
  }

  lemma AnyNewest(table: P.Table, email: string)
    ensures match P.FindActiveByEmail(table, email)
            case None => forall z :: !UnderEmail(table, z, email)
            case Some(id) => UnderEmail(table, id, email) && forall z :: UnderEmail(table, z, email) ==> z <= id
  {
    var any := set id | id in table && table[id].state.Active? && table[id].email == email;
    NewestExactly(any);
    forall z ensures UnderEmail(table, z, email) <==> z in any {}
  }

  lemma PolicyOfExactly(table: P.Table, t: int, email: string)
    ensures C.PolicyOf(table, t, email).Some? <==> Held(table, email)
    ensures C.PolicyOf(table, t, email).Some? ==> InForce(table, t, email, C.PolicyOf(table, t, email).value)
  {
    OwnNewest(table, t, email);
    AnyNewest(table, email);
  }

  /** The row of the table is disabled, now. */
  ghost predicate Retired(table: P.Table, after: P.Table, id: int, now: int) {
    id in table && after == table[id := table[id].(state := Disabled, updatedAt := now, disabledAt := Some(now))]
  }

  /**
   * Unexclude succeeds exactly for the only match of an email with an active exclude; exactly the one in force is
   * disabled.
   */
  lemma UnexcludeExactly(a: Db, email: string, at: int, now: int)
    ensures var e := C.Unexclude(a, email, at, now);
            && (e.Ok? <==> email != "" && (exists t :: OnlyMatch(a, email, Some(at), t)) && Held(a.excludes, email))
            && (e.Ok? ==> exists t, id :: OnlyMatch(a, email, Some(at), t) && InForce(a.excludes, t, email, id)
                                          && Retired(a.excludes, e.value.excludes, id, now))
            && (e.Ok? ==> e.value == a.(excludes := e.value.excludes, clients := e.value.clients,
                          events := e.value.events))
  {
    FindClientExactly(a, email, Some(at));
    if a.FindClient(email, Some(at)).Ok? {
      var t := a.FindClient(email, Some(at)).value;
      PolicyOfExactly(a.excludes, t, email);
      if C.Unexclude(a, email, at, now).Ok? {
        var id := C.PolicyOf(a.excludes, t, email).value;
        assert OnlyMatch(a, email, Some(at), t) && InForce(a.excludes, t, email, id)
               && Retired(a.excludes, C.Unexclude(a, email, at, now).value.excludes, id, now);
      }
    }
  }

  /** The same of the removal of an override. */
  lemma RemoveOverrideExactly(a: Db, email: string, at: int, now: int)
    ensures var e := C.RemoveOverride(a, email, at, now);
            && (e.Ok? <==> email != "" && (exists t :: OnlyMatch(a, email, Some(at), t)) && Held(a.overrides, email))
            && (e.Ok? ==> exists t, id :: OnlyMatch(a, email, Some(at), t) && InForce(a.overrides, t, email, id)
                                          && Retired(a.overrides, e.value.overrides, id, now))
            && (e.Ok? ==> e.value == a.(overrides := e.value.overrides, clients := e.value.clients,
                          events := e.value.events))
  {
    FindClientExactly(a, email, Some(at));
    if a.FindClient(email, Some(at)).Ok? {
      var t := a.FindClient(email, Some(at)).value;
      PolicyOfExactly(a.overrides, t, email);
      if C.RemoveOverride(a, email, at, now).Ok? {
        var id := C.PolicyOf(a.overrides, t, email).value;
        assert OnlyMatch(a, email, Some(at), t) && InForce(a.overrides, t, email, id)
               && Retired(a.overrides, C.RemoveOverride(a, email, at, now).value.overrides, id, now);
      }
    }
  }

  /** The row was recorded for the client before, active or not. */
  predicate Recorded(table: P.Table, id: int, t: int, email: string) {
    id in table && table[id].trafficId == t && table[id].email == email
  }

  /** The row an upsert takes over: the newest active one of the client, else its newest, else the email's newest. */
  ghost predicate TakenOver(table: P.Table, t: int, email: string, id: int) {
    if exists z :: OnRow(table, z, t, email)
    then OnRow(table, id, t, email) && forall z :: OnRow(table, z, t, email) ==> z <= id
    else if exists z :: Recorded(table, z, t, email)
    then Recorded(table, id, t, email) && forall z :: Recorded(table, z, t, email) ==> z <= id
    else id in table && table[id].email == email && forall z :: z in table && table[z].email == email ==> z <= id
  }

  lemma RecordedNewest(table: P.Table, t: int, email: string)
    ensures match P.FindForClient(table, t, email)
            case None => forall z :: !Recorded(table, z, t, email)
            case Some(id) => Recorded(table, id, t, email) && forall z :: Recorded(table, z, t, email) ==> z <= id
  {
    var all := set id | id in table && P.NamesClient(table[id], t, email);
    NewestExactly(all);
    forall z ensures Recorded(table, z, t, email) <==> z in all {}
  }

  lemma EmailNewest(table: P.Table, email: string)
    ensures match P.FindByEmail(table, email)
            case None => forall z :: z in table ==> table[z].email != email
            case Some(id) => id in table && table[id].email == email
                             && forall z :: z in table && table[z].email == email ==> z <= id
  {
    var all := set id | id in table && table[id].email == email;
    NewestExactly(all);
    forall z | z in table && table[z].email == email ensures z in all {}
  }

  lemma FoundForUpsert(table: P.Table, t: int, email: string)
    ensures match P.FindForUpsert(table, t, email)
            case None => forall z :: z in table ==> table[z].email != email
            case Some(id) => TakenOver(table, t, email, id)
  {
    OwnNewest(table, t, email);
    RecordedNewest(table, t, email);
    EmailNewest(table, email);
  }

  /** Another row than `id` has the client, inbound and email. */
  predicate Occupied(table: P.Table, t: int, inbound: int, email: string, id: int) {
    exists z :: z in table && z != id && Recorded(table, z, t, email) && table[z].inboundId == inbound
  }

  /**
   * On any table, an upsert makes a new row where the email has none, and else makes the one it takes over the
   * client's active policy - unless another row has the very client, inbound and email, when it is refused.
   */
  lemma UpsertExactly(table: P.Table, next: int, t: int, inbound: int, email: string, factorPpm: int64, now: int)
    ensures var e, p := P.Upsert(table, next, t, inbound, email, factorPpm, now),
            Policy(t, inbound, email, factorPpm, Active, now, None);
            if forall z :: z in table ==> table[z].email != email then e == Ok((table[next := p], next + 1, next))
            else exists id :: TakenOver(table, t, email, id)
                              && e == if Occupied(table, t, inbound, email, id) then Err(Conflict)
                                      else Ok((table[id := p], next, id))
  {
    FoundForUpsert(table, t, email);
    var found := P.FindForUpsert(table, t, email);
    if found.Some? {
      P.OccupantHolds(table, t, inbound, email, found.value);
      assert TakenOver(table, t, email, found.value);
    }
  }

  /** With one row per email, the table holds this policy for the email, and other emails' policies are as they were. */
  ghost predicate Holds(table: P.Table, after: P.Table, p: Policy) {
    && (exists id :: id in after && after[id] == p && (id in table ==> table[id].email == p.email))
    && (forall id :: id in after && after[id].email == p.email ==> after[id] == p)
    && (forall id :: id in table && table[id].email != p.email ==> id in after && after[id] == table[id])
    && (forall id :: id in after && id !in table ==> after[id] == p)
  }

  lemma UpsertHolds(table: P.Table, next: int, t: int, inbound: int, email: string, factorPpm: int64, now: int)
    requires P.OneRowPerEmail(table) && next !in table
    ensures var r := P.Upsert(table, next, t, inbound, email, factorPpm, now);
            r.Ok? && Holds(table, r.value.0, Policy(t, inbound, email, factorPpm, Active, now, None))
  {
    P.UpsertOne(table, next, t, inbound, email, factorPpm, now);
    P.FoundHasEmail(table, t, email);
  }

  /**
   * Where every email has at most one exclude, exclude succeeds exactly for an only match, which it then names on its
   * row and inbound.
   */
  lemma ExcludeExactly(a: Db, email: string, at: int, now: int)
    requires P.OneRowPerEmail(a.excludes) && a.nextExclude !in a.excludes
    ensures var e := C.Exclude(a, email, at, now);
            && (e.Ok? <==> email != "" && exists t :: OnlyMatch(a, email, Some(at), t))
            && (e.Ok? ==> exists t :: OnlyMatch(a, email, Some(at), t)
                                      && Holds(a.excludes, e.value.excludes,
                                          Policy(t, a.traffic[t].inboundId, email, 0, Active, now, None)))
            && (e.Ok? ==> e.value == a.(excludes := e.value.excludes, nextExclude := e.value.nextExclude,
                          events := e.value.events))
  {
    FindClientExactly(a, email, Some(at));
    if email != "" && a.FindClient(email, Some(at)).Ok? {
      var t := a.FindClient(email, Some(at)).value;
      UpsertHolds(a.excludes, a.nextExclude, t, a.traffic[t].inboundId, email, 0, now);
    }
  }

  /** The same of an override, at the factor given. */
  lemma OverrideExactly(a: Db, email: string, at: int, factor: string, now: int)
    requires P.OneRowPerEmail(a.overrides) && a.nextOverride !in a.overrides
    ensures var e := C.Override(a, email, at, factor, now);
            && (e.Ok? <==> email != "" && ParseFactor(factor).Ok? && exists t :: OnlyMatch(a, email, Some(at), t))
            && (e.Ok? ==> exists t :: OnlyMatch(a, email, Some(at), t)
                                      && Holds(a.overrides, e.value.overrides,
                                               Policy(t, a.traffic[t].inboundId, email, ParseFactor(factor).value,
                                                   Active, now, None)))
            && (e.Ok? ==> e.value == a.(overrides := e.value.overrides, nextOverride := e.value.nextOverride,
                                        clients := e.value.clients, events := e.value.events))
  {
    FindClientExactly(a, email, Some(at));
    if email != "" && ParseFactor(factor).Ok? && a.FindClient(email, Some(at)).Ok? {
      var t := a.FindClient(email, Some(at)).value;
      UpsertHolds(a.overrides, a.nextOverride, t, a.traffic[t].inboundId, email, ParseFactor(factor).value, now);
    }
  }
}
