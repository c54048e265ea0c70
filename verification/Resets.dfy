/**
 * No fraction outlives its baseline: a dropped counter, a returned or suppressed client and a refresh all start
 * afresh.
 */
module Resets {
  import opened Collections
  import opened Model
  import opened Accounting
  import opened Decisions
  import opened PolicyTable
  import opened Baselines
  import opened Ticking
  import opened TickProofs
  import opened CommandProofs
  import opened Machine
  import opened MachineProofs
  import opened Resuming
  import opened Ledgers
  import opened Effective
  import opened Schedule
  import opened Rest
  import Factor
  import C = Commands

  // Ticks -----------------------------------------------------------------

  /** The present client's row has its email, and a counter of it fell below the baseline. */
  predicate Dropped(db: Db, k: Key) {
    && Matched(db, k) && db.clients[k].missingAt.None?
    && (db.traffic[k.traffic].up < db.clients[k].lastUp || db.traffic[k.traffic].down < db.clients[k].lastDown)
  }

  /** The client was marked missing, and its row has its email again. */
  predicate Returning(db: Db, k: Key) {
    Matched(db, k) && db.clients[k].missingAt.Some?
  }

  lemma DropSettles(row: Traffic, rc: RuleClient, factorPpm: int64)
    requires Settle(row, rc, factorPpm).Ok? && rc.email == row.email
    requires rc.missingAt.Some? || row.up < rc.lastUp || row.down < rc.lastDown
    ensures var (row', rc') := Settle(row, rc, factorPpm).value;
            && row' == row && rc'.email == row.email && rc'.inboundId == row.inboundId && rc'.missingAt.None?
            && rc'.lastUp == row.up && rc'.lastDown == row.down && rc'.remUp == 0 && rc'.remDown == 0
    ensures rc.missingAt.None? ==> row.up >= 0 && row.down >= 0
  {
  }

  /**
   * A committed tick starts the effective client afresh when a counter dropped or it had been missing, and adds no
   * byte.
   */
  lemma DropStartsAfresh(ready: Db, after: Db, env: TickEnv, now: int, k: Key, factorPpm: int64)
    requires Committed(ready, after, env, now) && EffectiveOn(ready, k.traffic) == Some((k, factorPpm))
    requires k.traffic !in env.locked && (Dropped(ready, k) || Returning(ready, k))
    ensures k.traffic in after.traffic && after.traffic[k.traffic] == ready.traffic[k.traffic] && Afresh(after, k)
    ensures Dropped(ready, k) ==> ready.traffic[k.traffic].up >= 0 && ready.traffic[k.traffic].down >= 0
  {
    EffectiveOutcome(ready, after, env, now, k, factorPpm);
    DropSettles(ready.traffic[k.traffic], ready.clients[k], factorPpm);
  }

  /** An active client on its own row that the decision does not favour starts afresh, locked or not. */
  lemma SuppressedStartsAfresh(ready: Db, after: Db, env: TickEnv, now: int, k: Key)
    requires Committed(ready, after, env, now) && ActiveKey(ready, k) && Matched(ready, k)
    requires EffectiveOn(ready, k.traffic).None? || EffectiveOn(ready, k.traffic).value.0 != k
    ensures Afresh(after, k)
  {
    var d := DecisionOf(ready, k);
    DecisionFound(ready, d);
    EffectiveFound(ready, DecideAll(Candidates(ready)).value, d);
    assert Outcome(ready, after, d, env, now) by { CommittedFacts(ready, after, env, now); }
    SuppressedYields(ready, after, d, env, now, k);
    CommittedPlaces(ready, after, env, now);
  }

  lemma SuppressedYields(ready: Db, after: Db, d: Decision, env: TickEnv, now: int, k: Key)
    requires Outcome(ready, after, d, env, now) && k in Named(d)
    requires d.target.Some? ==> TargetKey(d.target.value) != k
    ensures Yields(ready, after, k, now)
  {
    KeysMember(d.suppressed, k);
    var s :| s in d.suppressed && TargetKey(s) == k;
  }

  /** Afresh on a row of nonnegative counters is where a meter opens. */
  lemma AfreshOpens(db: Db, k: Key)
    requires Afresh(db, k) && db.traffic[k.traffic].up >= 0 && db.traffic[k.traffic].down >= 0
    ensures JustBaselined(db, k)
  {
  }

  lemma DropReopens(db: Db, ready: Db, after: Db, env: TickEnv, now: int, k: Key, factorPpm: int64)
    requires Dropped(db, k) && Untouched(db, ready, k) && ready.traffic == db.traffic && Valid(ready)
    requires Committed(ready, after, env, now) && EffectiveOn(ready, k.traffic) == Some((k, factorPpm))
             && k.traffic !in env.locked
    ensures Valid(after) && JustBaselined(after, k) && k.traffic in after.traffic
            && after.traffic[k.traffic] == db.traffic[k.traffic]
  {
    DropStartsAfresh(ready, after, env, now, k, factorPpm);
    AfreshOpens(after, k);
    CommittedValid(ready, after, env, now);
  }

  /** A tick on which a steered client's counter is below its baseline opens its meter again at the lowered counters. */
  lemma DroppedTickReopens(db: Db, env: TickEnv, now: int, k: Key, factorPpm: int64)
    requires Valid(db) && now > 0 && Dropped(db, k) && k.traffic !in env.locked
    requires Tick(db, env, now).Ok? && Steers(db, TickStep(env, now), k, factorPpm)
    ensures var after := Tick(db, env, now).value;
            && Valid(after) && JustBaselined(after, k)
            && k.traffic in after.traffic && after.traffic[k.traffic] == db.traffic[k.traffic]
  {
    var ready, after := TickTaken(Fresh(db), env, now);
    SteeredTick(db, env, now, k, factorPpm, ready);
    DropReopens(db, ready, after, env, now, k, factorPpm);
  }

  /**
   * From such a tick on the row is metered as just baselined: whatever the run interleaves, after a tick commits on
   * the row the counters are the lowered ones plus the factored bytes that arrived since, with no byte or fraction of
   * before.
   */
  lemma DropIsForgotten(db: Db, env: TickEnv, now: int, k: Key, before: int64, steps: seq<Step>, factorPpm: int64,
      last: TickEnv, later: int)
    requires Valid(db) && now > 0 && Dropped(db, k) && k.traffic !in env.locked
    requires Tick(db, env, now).Ok? && Steers(db, TickStep(env, now), k, before)
    requires factorPpm >= SCALE && later > 0 && forall step :: step in steps ==> Timed(step)
    requires Steered(Fresh(Tick(db, env, now).value), steps, k, factorPpm)
    requires var w := Run(Fresh(Tick(db, env, now).value), steps);
             Steers(w.db, TickStep(last, later), k, factorPpm) && Tick(w.db, last, later).Ok?
                 && k.traffic !in last.locked
    ensures k.traffic in db.traffic
    ensures var w, t := Advance(Run(Fresh(Tick(db, env, now).value), steps), TickStep(last, later)), k.traffic;
            && t in w.db.traffic && k in w.db.clients
            && w.db.traffic[t].up == db.traffic[t].up + Factored(At(w.raw, t).up, factorPpm)
            && w.db.traffic[t].down == db.traffic[t].down + Factored(At(w.raw, t).down, factorPpm)
            && w.db.clients[k].remUp == At(w.raw, t).up * (factorPpm - SCALE) % SCALE
            && w.db.clients[k].remDown == At(w.raw, t).down * (factorPpm - SCALE) % SCALE
  {
    DroppedTickReopens(db, env, now, k, before);
    CountersAreFactored(Tick(db, env, now).value, steps, k, factorPpm, last, later);
  }

  // Commands --------------------------------------------------------------

  /** Clients but those of `ks` are as they were. */
  ghost predicate OthersKept(a: Db, b: Db, ks: iset<Key>) {
    && b.traffic == a.traffic && b.clients.Keys == a.clients.Keys
    && forall k: Key :: k in a.clients && k !in ks ==> b.clients[k] == a.clients[k]
  }

  /** The clients of rule r on rows that have their email. */
  ghost function RuleOnRows(a: Db, r: int): iset<Key> {
    iset k: Key | k.rule == r && Matched(a, k)
  }

  /** The active rules' clients on row t under an email. */
  ghost function ActiveOn(a: Db, t: int, email: string): iset<Key> {
    iset k | ActiveKey(a, k) && k.traffic == t && a.clients[k].email == email
  }

  /** Exactly the clients `ks` start afresh. */
  ghost predicate StartAfresh(a: Db, b: Db, ks: iset<Key>) {
    OthersKept(a, b, ks) && forall k :: k in ks ==> Afresh(b, k)
  }

  lemma RefreshRuleAfresh(a: Db, r: int)
    ensures StartAfresh(a, C.RefreshRule(a, r), RuleOnRows(a, r))
  {
  }

  lemma RefreshRowAfresh(a: Db, t: int, email: string)
    requires t in a.traffic && a.traffic[t].email == email
    ensures StartAfresh(a, C.RefreshRow(a, t, email), ActiveOn(a, t, email))
  {
  }

  /** Resuming a rule starts afresh exactly its clients on rows of their email. */
  lemma ResumeStartsAfresh(a: Db, email: string, inbound: Option<int>, now: int)
    requires C.Resume(a, email, inbound, now).Ok?
    ensures StartAfresh(a, C.Resume(a, email, inbound, now).value,
            RuleOnRows(a, C.FindRule(a, email, inbound, {Paused}).value))
  {
    var r := C.FindRule(a, email, inbound, {Paused}).value;
    RefreshRuleAfresh(a, r);
    assert C.Resume(a, email, inbound, now).value.clients == C.RefreshRule(a, r).clients;
  }

  lemma RefreshedAfresh(a: Db, b: Db, k: Key)
    requires k in a.clients && k in b.clients && b.traffic == a.traffic && C.OnOwnRow(a, k.rule, k)
    requires b.clients[k] == Rebased(a.clients[k], a.traffic[k.traffic], 0, 0)
    ensures Afresh(b, k)
  {
  }

  /** Resume-all starts afresh exactly the clients, on rows of their email, of the rules it brings back. */
  lemma ResumeAllStartsAfresh(a: Db, inbound: Option<int>, now: int, k: Key)
    requires C.ResumeAll(a, inbound, now).Ok?
    ensures var b := C.ResumeAll(a, inbound, now).value;
            && (k in b.clients <==> k in a.clients)
            && (Matched(a, k) && BroughtBack(a, b, k.rule) ==> Afresh(b, k))
            && (k in a.clients && !(Matched(a, k) && BroughtBack(a, b, k.rule)) ==> b.clients[k] == a.clients[k])
  {
    ResumeAllAnyClient(a, inbound, now, k);
    if Matched(a, k) && BroughtBack(a, C.ResumeAll(a, inbound, now).value, k.rule) {
      RefreshedAfresh(a, C.ResumeAll(a, inbound, now).value, k);
    }
  }

  lemma ResumeAllAnyClient(a: Db, inbound: Option<int>, now: int, k: Key)
    requires C.ResumeAll(a, inbound, now).Ok?
    ensures var b := C.ResumeAll(a, inbound, now).value;
            && b.traffic == a.traffic && (k in b.clients <==> k in a.clients)
            && (k in a.clients ==>
                  b.clients[k] == if BroughtBack(a, b, k.rule) && C.OnOwnRow(a, k.rule, k)
                                  then Rebased(a.clients[k], a.traffic[k.traffic], 0, 0) else a.clients[k])
  {
    var ids := C.RuleIds(a, inbound, {Paused});
    var rs := Ascending(ids);
    assert C.ResumeAll(a, inbound, now).value.traffic == a.traffic by { ResumeAllKeeps(a, inbound, now); }
    if k.rule in ids {
      IncreasingIsDistinct(rs);
      ResumeEachRefreshes(a, rs, now, k.rule);
    } else {
      ResumeEachElsewhere(a, rs, now, k.rule);
    }
  }

  lemma SameClients(a: Db, m: Db, b: Db, ks: iset<Key>)
    requires m.traffic == a.traffic && m.clients == a.clients && StartAfresh(m, b, ks)
    ensures StartAfresh(a, b, ks)
  {
  }

  /** Unexclude starts afresh exactly the active rules' clients of the row found. */
  lemma UnexcludeStartsAfresh(a: Db, email: string, at: int, now: int)
    requires C.Unexclude(a, email, at, now).Ok?
    ensures a.FindClient(email, Some(at)).Ok?
    ensures StartAfresh(a, C.Unexclude(a, email, at, now).value,
            ActiveOn(a, a.FindClient(email, Some(at)).value, email))
  {
    FindClientFound(a, email, Some(at));
    var t := a.FindClient(email, Some(at)).value;
    var m := a.(excludes := PolicyTable.Disable(a.excludes, C.PolicyOf(a.excludes, t, email).value, now));
    RefreshRowAfresh(m, t, email);
    assert ActiveOn(m, t, email) == ActiveOn(a, t, email);
    LoggedAfresh(a, m, C.RefreshRow(m, t, email), C.Unexclude(a, email, at, now).value, ActiveOn(a, t, email));
  }

  lemma LoggedAfresh(a: Db, m: Db, c: Db, b: Db, ks: iset<Key>)
    requires m.traffic == a.traffic && m.clients == a.clients && StartAfresh(m, c, ks)
    requires b.traffic == c.traffic && b.clients == c.clients
    ensures StartAfresh(a, b, ks)
  {
    forall k | k in ks ensures Afresh(b, k) { assert Afresh(c, k); }
  }

  /** So does override. */
  lemma OverrideStartsAfresh(a: Db, email: string, at: int, factor: string, now: int)
    requires C.Override(a, email, at, factor, now).Ok?
    ensures a.FindClient(email, Some(at)).Ok?
    ensures StartAfresh(a, C.Override(a, email, at, factor, now).value,
            ActiveOn(a, a.FindClient(email, Some(at)).value, email))
  {
    FindClientFound(a, email, Some(at));
    var t := a.FindClient(email, Some(at)).value;
    var factorPpm := Factor.ParseFactor(factor).value;
    var (table, next, _) := Upsert(a.overrides, a.nextOverride, t, a.traffic[t].inboundId, a.traffic[t].email,
        factorPpm, now).value;
    var m := a.(overrides := table, nextOverride := next);
    RefreshRowAfresh(m, t, email);
    assert ActiveOn(m, t, email) == ActiveOn(a, t, email);
    LoggedAfresh(a, m, C.RefreshRow(m, t, email), C.Override(a, email, at, factor, now).value, ActiveOn(a, t, email));
  }

  /** And its removal. */
  lemma RemoveOverrideStartsAfresh(a: Db, email: string, at: int, now: int)
    requires C.RemoveOverride(a, email, at, now).Ok?
    ensures a.FindClient(email, Some(at)).Ok?
    ensures StartAfresh(a, C.RemoveOverride(a, email, at, now).value,
            ActiveOn(a, a.FindClient(email, Some(at)).value, email))
  {
    FindClientFound(a, email, Some(at));
    var t := a.FindClient(email, Some(at)).value;
    var m := a.(overrides := PolicyTable.Disable(a.overrides, C.PolicyOf(a.overrides, t, email).value, now));
    RefreshRowAfresh(m, t, email);
    assert ActiveOn(m, t, email) == ActiveOn(a, t, email);
    LoggedAfresh(a, m, C.RefreshRow(m, t, email), C.RemoveOverride(a, email, at, now).value, ActiveOn(a, t, email));
  }
}
