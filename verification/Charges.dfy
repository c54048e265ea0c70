/** What a tick does to the counters of every row, as arithmetic on the fields of the tables it decides on. */
module Charges {
  import opened Collections
  import opened Model
  import opened Accounting
  import opened Decisions
  import opened Baselines
  import opened Ticking
  import opened TickProofs
  import opened Machine
  import opened Ledgers
  import opened Commits
  import V = Verdicts
  import E = Effective
  import MachineProofs
  import Resets

  // One row -----------------------------------------------------------------

  /** The whole bytes that a factor adds to the bytes seen, with the fraction carried so far. */
  function Extra(bytes: int, factorPpm: int, carried: int): int {
    (bytes * (factorPpm - SCALE) + carried) / SCALE
  }

  function Fraction(bytes: int, factorPpm: int, carried: int): int {
    (bytes * (factorPpm - SCALE) + carried) % SCALE
  }

  /** The factor does not diminish, and the client carries proper fractions. */
  predicate Proper(rc: RuleClient, factorPpm: int64) {
    factorPpm >= SCALE && 0 <= rc.remUp < SCALE && 0 <= rc.remDown < SCALE
  }

  predicate Negative(row: Traffic, rc: RuleClient) {
    row.up < 0 || row.down < 0 || rc.lastUp < 0 || rc.lastDown < 0
  }

  /** The client was missing, or a counter of its row fell. */
  predicate Restarts(row: Traffic, rc: RuleClient) {
    rc.missingAt.Some? || row.up < rc.lastUp || row.down < rc.lastDown
  }

  /** The counters are in order, and the factored bytes fit them. */
  predicate Acceptable(row: Traffic, rc: RuleClient, factorPpm: int64) {
    || rc.missingAt.Some?
    || (!Negative(row, rc)
        && (Restarts(row, rc)
            || (row.up + Extra(row.up - rc.lastUp, factorPpm, rc.remUp) <= MAX_INT64
                && row.down + Extra(row.down - rc.lastDown, factorPpm, rc.remDown) <= MAX_INT64)))
  }

  /** The row as the tick leaves it, and the account of its client. */
  predicate SettledAs(row: Traffic, rc: RuleClient, factorPpm: int64, row': Traffic, rc': RuleClient) {
    && row' == row.(up := row'.up, down := row'.down)
    && rc'.email == rc.email && rc'.inboundId == row.inboundId && rc'.missingAt.None?
    && rc'.lastUp == row'.up && rc'.lastDown == row'.down
    && if Restarts(row, rc) then row' == row && rc'.remUp == 0 && rc'.remDown == 0
       else
         && row'.up == row.up + Extra(row.up - rc.lastUp, factorPpm, rc.remUp)
         && row'.down == row.down + Extra(row.down - rc.lastDown, factorPpm, rc.remDown)
         && rc'.remUp == (if factorPpm == SCALE then 0 else Fraction(row.up - rc.lastUp, factorPpm, rc.remUp))
         && rc'.remDown == (if factorPpm == SCALE then 0 else Fraction(row.down - rc.lastDown, factorPpm, rc.remDown))
  }

  lemma OneDirection(bytes: int64, factorPpm: int64, carried: int64)
    requires bytes >= 0 && factorPpm >= SCALE && 0 <= carried < SCALE
    ensures var e := CalculateExtra(bytes, factorPpm - SCALE, carried);
            && Extra(bytes, factorPpm, carried) >= 0
            && (e.Ok? <==> Extra(bytes, factorPpm, carried) <= MAX_INT64)
            && (e.Ok? ==> e.value == (Extra(bytes, factorPpm, carried), Fraction(bytes, factorPpm, carried)))
            && (e.Err? ==> e.error == Overflow)
  {
  }

  lemma NothingSeen(factorPpm: int64, carried: int64)
    requires 0 <= carried < SCALE
    ensures Extra(0, factorPpm, carried) == 0 && Fraction(0, factorPpm, carried) == carried
  {
  }

  lemma ScaleOne(bytes: int, carried: int64)
    requires 0 <= carried < SCALE
    ensures Extra(bytes, SCALE, carried) == 0
  {
  }

  /** No factored byte and no new fraction: the factor is one, or nothing was seen. */
  lemma SettleStill(row: Traffic, rc: RuleClient, factorPpm: int64)
    requires Proper(rc, factorPpm) && !Restarts(row, rc) && !Negative(row, rc)
    requires factorPpm == SCALE || (row.up == rc.lastUp && row.down == rc.lastDown)
    ensures Acceptable(row, rc, factorPpm) && Settle(row, rc, factorPpm).Ok?
    ensures var (row', rc') := Settle(row, rc, factorPpm).value; SettledAs(row, rc, factorPpm, row', rc')
  {
    if factorPpm == SCALE {
      ScaleOne(row.up - rc.lastUp, rc.remUp);
      ScaleOne(row.down - rc.lastDown, rc.remDown);
    } else {
      NothingSeen(factorPpm, rc.remUp);
      NothingSeen(factorPpm, rc.remDown);
    }
  }

  /** Some bytes were seen, of which the factor adds the given ones. */
  lemma SettleAdds(row: Traffic, rc: RuleClient, factorPpm: int64, up: Result<(int64, int64)>,
      down: Result<(int64, int64)>)
    requires rc.missingAt.None? && !Negative(row, rc) && row.up >= rc.lastUp && row.down >= rc.lastDown
    requires factorPpm > SCALE && (row.up > rc.lastUp || row.down > rc.lastDown)
    requires up == CalculateExtra(row.up - rc.lastUp, factorPpm - SCALE, rc.remUp)
    requires down == CalculateExtra(row.down - rc.lastDown, factorPpm - SCALE, rc.remDown)
    ensures var s := Settle(row, rc, factorPpm);
            && (s.Ok? <==> up.Ok? && down.Ok? && row.up + up.value.0 <= MAX_INT64
                           && row.down + down.value.0 <= MAX_INT64)
            && (s.Err? ==> s.error == if up.Err? then up.error else if down.Err? then down.error else Overflow)
            && (s.Ok? ==> s.value == (row.(up := row.up + up.value.0, down := row.down + down.value.0),
                                      RuleClient(row.inboundId, rc.email, row.up + up.value.0, row.down + down.value.0,
                                                 up.value.1, down.value.1, None)))
  {
  }

  lemma SettleBytes(row: Traffic, rc: RuleClient, factorPpm: int64)
    requires Proper(rc, factorPpm) && !Restarts(row, rc) && !Negative(row, rc)
    requires factorPpm > SCALE && (row.up > rc.lastUp || row.down > rc.lastDown)
    ensures Settle(row, rc, factorPpm).Ok? <==> Acceptable(row, rc, factorPpm)
    ensures Settle(row, rc, factorPpm).Err? ==>
            Settle(row, rc, factorPpm).error == if Negative(row, rc) then BadInput else Overflow
    ensures Settle(row, rc, factorPpm).Ok? ==>
              var (row', rc') := Settle(row, rc, factorPpm).value; SettledAs(row, rc, factorPpm, row', rc')
  {
    OneDirection(row.up - rc.lastUp, factorPpm, rc.remUp);
    OneDirection(row.down - rc.lastDown, factorPpm, rc.remDown);
    SettleAdds(row, rc, factorPpm, CalculateExtra(row.up - rc.lastUp, factorPpm - SCALE, rc.remUp),
        CalculateExtra(row.down - rc.lastDown, factorPpm - SCALE, rc.remDown));
  }

  /**
   * A row is settled exactly when its counters are in order and the factored bytes fit them; then it is settled as
   * told.
   */
  lemma SettleExactly(row: Traffic, rc: RuleClient, factorPpm: int64)
    requires Proper(rc, factorPpm)
    ensures Settle(row, rc, factorPpm).Ok? <==> Acceptable(row, rc, factorPpm)
    ensures Settle(row, rc, factorPpm).Err? ==>
            Settle(row, rc, factorPpm).error == if Negative(row, rc) then BadInput else Overflow
    ensures Settle(row, rc, factorPpm).Ok? ==>
              var (row', rc') := Settle(row, rc, factorPpm).value; SettledAs(row, rc, factorPpm, row', rc')
  {
    if !Restarts(row, rc) && !Negative(row, rc) {
      if factorPpm == SCALE || (row.up == rc.lastUp && row.down == rc.lastDown) {
        SettleStill(row, rc, factorPpm);
      } else {
        SettleBytes(row, rc, factorPpm);
      }
    }
  }

  /** The tick writes the row's counters. */
  predicate Moves(row: Traffic, rc: RuleClient, factorPpm: int64) {
    && !Restarts(row, rc)
    && (Extra(row.up - rc.lastUp, factorPpm, rc.remUp) > 0 || Extra(row.down - rc.lastDown, factorPpm, rc.remDown) > 0)
  }

  lemma ChargedMoves(row: Traffic, rc: RuleClient, factorPpm: int64)
    requires Proper(rc, factorPpm) && ChargeFor(row, rc, factorPpm).Ok?
    ensures ChargeFor(row, rc, factorPpm).value.Charged? <==> Moves(row, rc, factorPpm)
  {
    if !Restarts(row, rc) && !Negative(row, rc) {
      if factorPpm == SCALE {
        ScaleOne(row.up - rc.lastUp, rc.remUp);
        ScaleOne(row.down - rc.lastDown, rc.remDown);
      } else if row.up == rc.lastUp && row.down == rc.lastDown {
        NothingSeen(factorPpm, rc.remUp);
        NothingSeen(factorPpm, rc.remDown);
      } else {
        OneDirection(row.up - rc.lastUp, factorPpm, rc.remUp);
        OneDirection(row.down - rc.lastDown, factorPpm, rc.remDown);
      }
    }
  }

  lemma SettleIsCharge(row: Traffic, rc: RuleClient, factorPpm: int64)
    ensures Settle(row, rc, factorPpm).Ok? <==> ChargeFor(row, rc, factorPpm).Ok?
  {
  }

  // The tables --------------------------------------------------------------

  /** Rule r rules on row t at the factor, and its client has the row's email. */
  ghost predicate Ruling(ready: Db, t: int, r: int, factorPpm: int64) {
    && t in ready.traffic && Key(r, t) in ready.clients && ready.clients[Key(r, t)].email == ready.traffic[t].email
    && V.Rules(ready, t, r, factorPpm)
  }

  ghost predicate AllProper(ready: Db) {
    forall t, r, factorPpm :: Ruling(ready, t, r, factorPpm) ==> Proper(ready.clients[Key(r, t)], factorPpm)
  }

  /**
   * The ruling client can be charged: its row is in order, and no other writer changes counters the tick would write.
   */
  predicate Payable(ready: Db, t: int, r: int, factorPpm: int64, env: TickEnv)
    requires t in ready.traffic && Key(r, t) in ready.clients
  {
    && Acceptable(ready.traffic[t], ready.clients[Key(r, t)], factorPpm)
    && !(t in env.raced && Moves(ready.traffic[t], ready.clients[Key(r, t)], factorPpm))
  }

  lemma WinnerRuling(ready: Db, d: Decision)
    requires DecideAll(Candidates(ready)).Ok? && d in DecideAll(Candidates(ready)).value && d.target.Some?
    ensures var x := d.target.value;
            && x.trafficId == d.trafficId && TargetKey(x) in ready.clients && x.client == ready.clients[TargetKey(x)]
            && V.Rules(ready, x.trafficId, x.ruleId, x.factorPpm)
  {
    DecisionFits(ready, d);
    DecisionFound(ready, d);
    E.EffectiveFound(ready, DecideAll(Candidates(ready)).value, d);
    V.RankedExactly(ready, d.trafficId, d.target.value.ruleId, d.factorPpm);
  }

  lemma RulingDecision(ready: Db, t: int, r: int, factorPpm: int64) returns (d: Decision)
    requires DecideAll(Candidates(ready)).Ok? && V.Rules(ready, t, r, factorPpm)
    ensures d in DecideAll(Candidates(ready)).value && d.trafficId == t && d.target.Some?
    ensures TargetKey(d.target.value) == Key(r, t) && d.target.value.factorPpm == factorPpm
  {
    V.RankedExactly(ready, t, r, factorPpm);
    var ds := DecideAll(Candidates(ready)).value;
    DecisionAtIn(ds, t);
    d := DecisionAt(ds, t).value;
    DecisionFits(ready, d);
  }

  lemma TargetPays(ready: Db, x: Target, env: TickEnv)
    requires TargetKey(x) in ready.clients && x.client == ready.clients[TargetKey(x)] && x.trafficId in ready.traffic
    requires x.client.email == ready.traffic[x.trafficId].email && Proper(x.client, x.factorPpm)
             && x.trafficId !in env.locked
    ensures Chargeable(ready, x, env) <==> Payable(ready, x.trafficId, x.ruleId, x.factorPpm, env)
  {
    var row := ready.traffic[x.trafficId];
    SettleExactly(row, x.client, x.factorPpm);
    SettleIsCharge(row, x.client, x.factorPpm);
    if ChargeFor(row, x.client, x.factorPpm).Ok? { ChargedMoves(row, x.client, x.factorPpm); }
  }

  /** The charging of a tick commits exactly when every ruling client on a row that is not locked can be charged. */
  lemma CommitsExactly(ready: Db, env: TickEnv, now: int)
    requires DecideAll(Candidates(ready)).Ok? && AllProper(ready)
    ensures TickDecisions(ready, DecideAll(Candidates(ready)).value, env, now).Ok? <==>
            forall t, r, factorPpm :: Ruling(ready, t, r, factorPpm) && t !in env.locked ==>
                                      Payable(ready, t, r, factorPpm, env)
  {
    var ds := DecideAll(Candidates(ready)).value;
    TickCommitsExactly(ready, env, now);
    if forall d :: d in ds ==> Winnable(ready, d, env) {
      forall t, r, factorPpm | Ruling(ready, t, r, factorPpm) && t !in env.locked
        ensures Payable(ready, t, r, factorPpm, env)
      {
        var d := RulingDecision(ready, t, r, factorPpm);
        assert Winnable(ready, d, env);
        WinnerRuling(ready, d);
        TargetPays(ready, d.target.value, env);
      }
    }
    if forall t, r, factorPpm :: Ruling(ready, t, r, factorPpm) && t !in env.locked ==>
                                 Payable(ready, t, r, factorPpm, env) {
      forall d | d in ds ensures Winnable(ready, d, env) { if d.target.Some? { WinnerPays(ready, d, env); } }
    }
  }

  lemma WinnerPays(ready: Db, d: Decision, env: TickEnv)
    requires DecideAll(Candidates(ready)).Ok? && d in DecideAll(Candidates(ready)).value && d.target.Some?
             && AllProper(ready)
    requires forall t, r, factorPpm :: Ruling(ready, t, r, factorPpm) && t !in env.locked ==>
                                       Payable(ready, t, r, factorPpm, env)
    ensures Winnable(ready, d, env)
  {
    WinnerRuling(ready, d);
    RulerPays(ready, d.target.value, env);
  }

  lemma RulerPays(ready: Db, x: Target, env: TickEnv)
    requires TargetKey(x) in ready.clients && x.client == ready.clients[TargetKey(x)] && AllProper(ready)
    requires V.Rules(ready, x.trafficId, x.ruleId, x.factorPpm)
    requires forall t, r, factorPpm :: Ruling(ready, t, r, factorPpm) && t !in env.locked ==>
                                         Payable(ready, t, r, factorPpm, env)
    ensures Chargeable(ready, x, env)
  {
    var t := x.trafficId;
    if t in ready.traffic && t !in env.locked && ready.traffic[t].email == x.client.email {
      assert Ruling(ready, t, x.ruleId, x.factorPpm);
      TargetPays(ready, x, env);
    }
  }

  /**
   * After a committed tick a row that is not locked, on which a rule rules for its own email, has its counters and
   * that rule's account settled at the factor; the counters of every other row are as they were.
   */
  lemma RowsExactly(ready: Db, b: Db, env: TickEnv, now: int, t: int)
    requires Committed(ready, b, env, now) && AllProper(ready) && t in ready.traffic
    ensures t in b.traffic
    ensures forall r, factorPpm :: Ruling(ready, t, r, factorPpm) && t !in env.locked ==>
              Key(r, t) in b.clients
              && SettledAs(ready.traffic[t], ready.clients[Key(r, t)], factorPpm, b.traffic[t], b.clients[Key(r, t)])
    ensures t in env.locked || (forall r, factorPpm :: !Ruling(ready, t, r, factorPpm)) ==>
            b.traffic[t] == ready.traffic[t]
  {
    CommittedFacts(ready, b, env, now);
    var ds := DecideAll(Candidates(ready)).value;
    if forall d :: d in ds ==> d.trafficId != t {
      NoDecisionNoRuling(ready, t);
    } else {
      var d :| d in ds && d.trafficId == t;
      assert Outcome(ready, b, d, env, now);
      if d.target.Some? {
        WinnerRuling(ready, d);
        RulingRow(ready, b, d, env, now);
      } else {
        NoTargetNoRuling(ready, d);
      }
    }
  }

  lemma NoDecisionNoRuling(ready: Db, t: int)
    requires DecideAll(Candidates(ready)).Ok? && forall d :: d in DecideAll(Candidates(ready)).value ==>
                                                             d.trafficId != t
    ensures forall r, factorPpm :: !Ruling(ready, t, r, factorPpm)
  {
    forall r, factorPpm ensures !Ruling(ready, t, r, factorPpm) {
      if Ruling(ready, t, r, factorPpm) { var d := RulingDecision(ready, t, r, factorPpm); }
    }
  }

  lemma SameDecision(ready: Db, d: Decision, e: Decision)
    requires DecideAll(Candidates(ready)).Ok? && d in DecideAll(Candidates(ready)).value
             && e in DecideAll(Candidates(ready)).value
    requires d.trafficId == e.trafficId
    ensures d == e
  {
    DecisionFound(ready, d);
    DecisionFound(ready, e);
  }

  lemma NoTargetNoRuling(ready: Db, d: Decision)
    requires DecideAll(Candidates(ready)).Ok? && d in DecideAll(Candidates(ready)).value && d.target.None?
    ensures forall r, factorPpm :: !Ruling(ready, d.trafficId, r, factorPpm)
  {
    forall r, factorPpm ensures !Ruling(ready, d.trafficId, r, factorPpm) {
      if Ruling(ready, d.trafficId, r, factorPpm) {
        var e := RulingDecision(ready, d.trafficId, r, factorPpm);
        SameDecision(ready, d, e);
      }
    }
  }

  lemma OnlyRuling(ready: Db, d: Decision, r: int, factorPpm: int64)
    requires DecideAll(Candidates(ready)).Ok? && d in DecideAll(Candidates(ready)).value && d.target.Some?
    requires V.Rules(ready, d.trafficId, r, factorPpm)
    ensures Key(r, d.trafficId) == TargetKey(d.target.value) && factorPpm == d.target.value.factorPpm
  {
    var e := RulingDecision(ready, d.trafficId, r, factorPpm);
    SameDecision(ready, d, e);
  }

  lemma RulingRow(ready: Db, b: Db, d: Decision, env: TickEnv, now: int)
    requires DecideAll(Candidates(ready)).Ok? && d in DecideAll(Candidates(ready)).value && d.target.Some?
             && AllProper(ready)
    requires WinnerOutcome(ready, b, d.target.value, env, now) && d.trafficId in ready.traffic
    ensures var t := d.trafficId;
            && t in b.traffic
            && (forall r, factorPpm :: Ruling(ready, t, r, factorPpm) && t !in env.locked ==>
                  Key(r, t) in b.clients
                  && SettledAs(ready.traffic[t], ready.clients[Key(r, t)], factorPpm, b.traffic[t],
                      b.clients[Key(r, t)]))
            && (t in env.locked || (forall r, factorPpm :: !Ruling(ready, t, r, factorPpm)) ==>
                b.traffic[t] == ready.traffic[t])
  {
    var t, x := d.trafficId, d.target.value;
    WinnerRuling(ready, d);
    forall r, factorPpm | Ruling(ready, t, r, factorPpm) && t !in env.locked
      ensures Key(r, t) in b.clients
              && SettledAs(ready.traffic[t], ready.clients[Key(r, t)], factorPpm, b.traffic[t], b.clients[Key(r, t)])
    {
      OnlyRuling(ready, d, r, factorPpm);
      SettleExactly(ready.traffic[t], ready.clients[Key(r, t)], factorPpm);
    }
    if ready.traffic[t].email == ready.clients[TargetKey(x)].email { assert Ruling(ready, t, x.ruleId, x.factorPpm); }
  }

  ghost predicate RuledBy(ready: Db, k: Key) {
    exists factorPpm :: V.Rules(ready, k.traffic, k.rule, factorPpm)
  }

  lemma RulerDecides(ready: Db, d: Decision, k: Key)
    requires DecideAll(Candidates(ready)).Ok? && d in DecideAll(Candidates(ready)).value && d.trafficId == k.traffic
    requires RuledBy(ready, k)
    ensures d.target.Some? && TargetKey(d.target.value) == k
  {
    var factorPpm :| V.Rules(ready, k.traffic, k.rule, factorPpm);
    var e := RulingDecision(ready, k.traffic, k.rule, factorPpm);
    SameDecision(ready, d, e);
  }

  lemma RulerIsTarget(ready: Db, d: Decision, k: Key)
    requires DecideAll(Candidates(ready)).Ok? && d in DecideAll(Candidates(ready)).value && d.trafficId == k.traffic
    ensures RuledBy(ready, k) <==> d.target.Some? && TargetKey(d.target.value) == k
  {
    if RuledBy(ready, k) {
      RulerDecides(ready, d, k);
    } else if d.target.Some? {
      WinnerRuling(ready, d);
    }
  }

  lemma YieldsTo(ready: Db, b: Db, k: Key, now: int)
    requires Yields(ready, b, k, now) && (k.traffic in ready.traffic ==> k.traffic in b.traffic)
    requires k.traffic in ready.traffic ==>
             b.traffic[k.traffic] == ready.traffic[k.traffic].(up := b.traffic[k.traffic].up,
             down := b.traffic[k.traffic].down)
    ensures if Matched(ready, k) then Afresh(b, k)
            else b.clients[k] == ready.clients[k].(missingAt := if ready.clients[k].missingAt.Some? then
                   ready.clients[k].missingAt else Some(now))
  {
  }

  /**
   * The client of an active rule after a committed tick: deferred where it rules on a locked row; else marked
   * missing, once, where its row is gone or has another email; else, unless it rules there, afresh.
   */
  lemma ClientsExactly(ready: Db, b: Db, env: TickEnv, now: int, k: Key)
    requires Committed(ready, b, env, now) && ActiveKey(ready, k)
    ensures k in b.clients
    ensures if RuledBy(ready, k) && k.traffic in ready.traffic
            && k.traffic in env.locked then b.clients[k] == ready.clients[k]
            else if !Matched(ready, k) then
              b.clients[k] == ready.clients[k].(missingAt := if ready.clients[k].missingAt.Some? then
                ready.clients[k].missingAt else Some(now))
            else RuledBy(ready, k) || Afresh(b, k)
  {
    CommittedFacts(ready, b, env, now);
    var d := DecisionOf(ready, k);
    DecisionFits(ready, d);
    RulerIsTarget(ready, d, k);
    MachineProofs.CommittedRow(ready, b, env, now, k.traffic);
    assert Outcome(ready, b, d, env, now);
    if !RuledBy(ready, k) {
      Resets.SuppressedYields(ready, b, d, env, now, k);
      YieldsTo(ready, b, k, now);
    } else if k.traffic !in ready.traffic || (k.traffic !in env.locked && !Matched(ready, k)) {
      assert Yields(ready, b, k, now);
      YieldsTo(ready, b, k, now);
    }
  }

  /**
   * A tick commits exactly where the panel's role allows it, no row is tied once the tables are reconciled and
   * enrolled, and every ruling client on a row that is not locked can be charged.
   */
  lemma TickExactly(db: Db, env: TickEnv, now: int)
    requires now > 0
    ensures Prepared(db, now).Ok?
    ensures AllProper(Prepared(db, now).value) ==>
              var ready := Prepared(db, now).value;
              (Tick(db, env, now).Ok? <==>
                 && (env.managed ==> env.factorOnManaged)
                 && (forall t :: !V.Tied(ready, t))
                 && (forall t, r, factorPpm :: Ruling(ready, t, r, factorPpm) && t !in env.locked ==>
                                               Payable(ready, t, r, factorPpm, env)))
  {
    var ready := Prepared(db, now).value;
    V.DecidedExactly(ready);
    if AllProper(ready) && DecideAll(Candidates(ready)).Ok? { CommitsExactly(ready, env, now); }
  }
}
