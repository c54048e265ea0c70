/**
 * The arithmetic of internal/daemon/tick.go: what one tick charges on one row, and the exact total over any schedule.
 */
module Accounting {
  import opened Collections
  import opened Model

  /** Some(delta), or None when the counter went down. */
  function CounterDelta(current: int64, last: int64): Result<Option<int64>> {
    if current < 0 || last < 0 then Err(BadInput)
    else if current < last then Ok(None)
    else Ok(Some(current - last))
  }

  /** The bytes to add and the fraction to carry; the intermediate product is unbounded, as in math/big. */
  function CalculateExtra(delta: int64, factorExtra: int, remainder: int64): (r: Result<(int64, int64)>)
    ensures r.Ok? ==> r.value.0 >= 0 && 0 <= r.value.1 < SCALE
    ensures r.Ok? ==> SCALE * r.value.0 + r.value.1 == delta * factorExtra + remainder
  {
    if delta < 0 || factorExtra < 0 || remainder < 0 then Err(BadInput)
    else
      var value := Product(delta, factorExtra) + remainder;
      if value / SCALE > MAX_INT64 then Err(Overflow) else Ok((value / SCALE, value % SCALE))
  }

  function Product(a: nat, b: nat): (p: nat)
    ensures p == a * b
  {
    a * b
  }

  function SafeAdd(a: int64, b: int64): Result<int64> {
    if b > 0 && a > MAX_INT64 - b then Err(Overflow)
    else if b < 0 && a < MIN_INT64 - b then Err(Overflow)
    else Ok(a + b)
  }

  datatype Charge =
    | Returned
    | Decreased
    | Idle
    | Baselined(remUp: int64, remDown: int64)
    | Charged(extraUp: int64, extraDown: int64, remUp: int64, remDown: int64)

  /** What a tick does to a row whose email is the client's. */
  function ChargeFor(row: Traffic, rc: RuleClient, factorPpm: int64): (r: Result<Charge>)
    ensures r.Ok? && r.value.Charged? ==>
              && 0 <= r.value.extraUp <= MAX_INT64 - row.up
              && 0 <= r.value.extraDown <= MAX_INT64 - row.down
  {
    if rc.missingAt.Some? then Ok(Returned) else
    var up :- CounterDelta(row.up, rc.lastUp);
    var down :- CounterDelta(row.down, rc.lastDown);
    if up.None? || down.None? then Ok(Decreased)
    else if factorPpm == SCALE then
      if up == Some(0) && down == Some(0) && rc.remUp == 0 && rc.remDown == 0 then Ok(Idle) else Ok(Baselined(0, 0))
    else if up == Some(0) && down == Some(0) then Ok(Idle)
    else
      var (extraUp, remUp) :- CalculateExtra(up.value, factorPpm - SCALE, rc.remUp);
      var (extraDown, remDown) :- CalculateExtra(down.value, factorPpm - SCALE, rc.remDown);
      if extraUp == 0 && extraDown == 0 then Ok(Baselined(remUp, remDown))
      else
        var newUp :- SafeAdd(row.up, extraUp);
        var newDown :- SafeAdd(row.down, extraDown);
        Ok(Charged(extraUp, extraDown, remUp, remDown))
  }

  function Rebased(rc: RuleClient, row: Traffic, remUp: int64, remDown: int64): RuleClient {
    rc.(inboundId := row.inboundId, lastUp := row.up, lastDown := row.down, remUp := remUp, remDown := remDown,
        missingAt := None)
  }

  /** The row and the client after a successful tick on them. */
  function Settle(row: Traffic, rc: RuleClient, factorPpm: int64): Result<(Traffic, RuleClient)> {
    var charge :- ChargeFor(row, rc, factorPpm);
    match charge
    case Returned => Ok((row, Rebased(rc, row, 0, 0)))
    case Decreased => Ok((row, Rebased(rc, row, 0, 0)))
    case Idle => Ok((row, rc.(inboundId := row.inboundId)))
    case Baselined(remUp, remDown) => Ok((row, Rebased(rc, row, remUp, remDown)))
    case Charged(extraUp, extraDown, remUp, remDown) =>
      var after := row.(up := row.up + extraUp, down := row.down + extraDown);
      Ok((after, Rebased(rc, after, remUp, remDown)))
  }

  // Exact accounting over a schedule --------------------------------------

  datatype Bytes = Bytes(up: nat, down: nat)

  /** One row under one effective factor: bytes arrive, a tick commits on it, or a tick defers or aborts. */
  datatype Moment = Arrive(bytes: Bytes) | TickCommits | TickSkips

  /** `raw` counts the bytes the panel added, `seen` those that committed ticks have looked at. */
  datatype Meter = Meter(row: Traffic, rc: RuleClient, raw: Bytes, seen: Bytes)

  predicate Fits(row: Traffic, bytes: Bytes) {
    row.up + bytes.up <= MAX_INT64 && row.down + bytes.down <= MAX_INT64
  }

  function Plus(a: Bytes, b: Bytes): Bytes {
    Bytes(a.up + b.up, a.down + b.down)
  }

  function Observe(m: Meter, moment: Moment, factorPpm: int64): Meter {
    match moment
    case Arrive(bytes) =>
      if !Fits(m.row, bytes) then m
      else m.(row := m.row.(up := m.row.up + bytes.up, down := m.row.down + bytes.down), raw := Plus(m.raw, bytes))
    case TickCommits =>
      (match Settle(m.row, m.rc, factorPpm)
       case Ok((row, rc)) => Meter(row, rc, m.raw, m.raw)
       case Err(_) => m)
    case TickSkips => m
  }

  function Observed(m: Meter, moments: seq<Moment>, factorPpm: int64): Meter
    decreases |moments|
  {
    if moments == [] then m else Observed(Observe(m, moments[0], factorPpm), moments[1..], factorPpm)
  }

  /** A client freshly baselined on its row. */
  predicate Opened(m: Meter) {
    && m.row.up >= 0 && m.row.down >= 0
    && m.rc.missingAt.None?
    && m.rc.lastUp == m.row.up && m.rc.lastDown == m.row.down
    && m.rc.remUp == 0 && m.rc.remDown == 0
    && m.raw == Bytes(0, 0) && m.seen == Bytes(0, 0)
  }

  /**
   * One direction: the extra added so far and the carried fraction are exactly the factor's share of the bytes seen.
   */
  predicate Exact(start: int, counter: int, last: int, rem: int, raw: int, seen: int, factorPpm: int) {
    var extra := counter - start - raw;
    && last == start + seen + extra
    && 0 <= seen <= raw
    && 0 <= extra
    && 0 <= rem < SCALE
    && SCALE * extra + rem == (factorPpm - SCALE) * seen
  }

  predicate Balanced(start: Traffic, m: Meter, factorPpm: int) {
    && start.up >= 0 && start.down >= 0
    && m.rc.missingAt.None?
    && Exact(start.up, m.row.up, m.rc.lastUp, m.rc.remUp, m.raw.up, m.seen.up, factorPpm)
    && Exact(start.down, m.row.down, m.rc.lastDown, m.rc.remDown, m.raw.down, m.seen.down, factorPpm)
  }

  /** Charging one direction keeps the books exact. */
  lemma ExactAfterCharge(start: int, counter: int64, last: int64, rem: int64, raw: int, seen: int, factorPpm: int64)
    requires start >= 0 && factorPpm >= SCALE
    requires Exact(start, counter, last, rem, raw, seen, factorPpm)
    requires CalculateExtra(counter - last, factorPpm - SCALE, rem).Ok?
    ensures var (extra, rem') := CalculateExtra(counter - last, factorPpm - SCALE, rem).value;
            Exact(start, counter + extra, counter + extra, rem', raw, raw, factorPpm)
  {
    var delta := counter - last;
    assert delta == raw - seen;
    var value := delta * (factorPpm - SCALE) + rem;
    assert SCALE * (value / SCALE) + value % SCALE == value;
    assert (factorPpm - SCALE) * raw == (factorPpm - SCALE) * seen + (factorPpm - SCALE) * delta;
  }

  lemma ExactWhenScaleOne(start: int, counter: int, last: int, rem: int, raw: int, seen: int)
    requires Exact(start, counter, last, rem, raw, seen, SCALE)
    ensures Exact(start, counter, counter, 0, raw, raw, SCALE)
  {
  }

  lemma BalancedWhenScaleOne(start: Traffic, m: Meter)
    requires Balanced(start, m, SCALE) && Settle(m.row, m.rc, SCALE).Ok?
    ensures var end := Observe(m, TickCommits, SCALE); Balanced(start, end, SCALE) && end.seen == end.raw
  {
    ExactWhenScaleOne(start.up, m.row.up, m.rc.lastUp, m.rc.remUp, m.raw.up, m.seen.up);
    ExactWhenScaleOne(start.down, m.row.down, m.rc.lastDown, m.rc.remDown, m.raw.down, m.seen.down);
  }

  lemma BalancedCharge(start: Traffic, m: Meter, factorPpm: int64)
    requires factorPpm > SCALE && Balanced(start, m, factorPpm) && Settle(m.row, m.rc, factorPpm).Ok?
    ensures var end := Observe(m, TickCommits, factorPpm); Balanced(start, end, factorPpm) && end.seen == end.raw
  {
    if !(m.row.up == m.rc.lastUp && m.row.down == m.rc.lastDown) {
      ExactAfterCharge(start.up, m.row.up, m.rc.lastUp, m.rc.remUp, m.raw.up, m.seen.up, factorPpm);
      ExactAfterCharge(start.down, m.row.down, m.rc.lastDown, m.rc.remDown, m.raw.down, m.seen.down, factorPpm);
    }
  }

  lemma BalancedStep(start: Traffic, m: Meter, moment: Moment, factorPpm: int64)
    requires factorPpm >= SCALE && Balanced(start, m, factorPpm)
    ensures Balanced(start, Observe(m, moment, factorPpm), factorPpm)
    ensures moment.TickCommits? && Settle(m.row, m.rc, factorPpm).Ok? ==>
              Observe(m, moment, factorPpm).seen == Observe(m, moment, factorPpm).raw
  {
    if moment.TickCommits? && Settle(m.row, m.rc, factorPpm).Ok? {
      if factorPpm == SCALE { BalancedWhenScaleOne(start, m); } else { BalancedCharge(start, m, factorPpm); }
    }
  }

  lemma {:induction false} BalancedRun(start: Traffic, m: Meter, moments: seq<Moment>, factorPpm: int64)
    requires factorPpm >= SCALE && Balanced(start, m, factorPpm)
    ensures Balanced(start, Observed(m, moments, factorPpm), factorPpm)
    decreases |moments|
  {
    if moments != [] {
      BalancedStep(start, m, moments[0], factorPpm);
      BalancedRun(start, Observe(m, moments[0], factorPpm), moments[1..], factorPpm);
    }
  }

  /** The factored total: raw bytes plus the whole part of the factor's share of them. */
  function Factored(raw: nat, factorPpm: int): int
    requires factorPpm >= SCALE
  {
    raw + raw * (factorPpm - SCALE) / SCALE
  }

  lemma ExactTotal(start: int, counter: int, last: int, rem: int, raw: nat, factorPpm: int)
    requires factorPpm >= SCALE && Exact(start, counter, last, rem, raw, raw, factorPpm)
    ensures counter == start + Factored(raw, factorPpm) == last
    ensures rem == raw * (factorPpm - SCALE) % SCALE
  {
    var extra := counter - start - raw;
    assert raw * (factorPpm - SCALE) == SCALE * extra + rem;
  }

  /** Wherever the ticks fell, once a tick has seen every byte the row holds start + raw + floor(raw * (F - 1)). */
  lemma ScheduleIndependent(m: Meter, moments: seq<Moment>, factorPpm: int64)
    requires factorPpm >= SCALE && Opened(m)
    ensures var end := Observed(m, moments, factorPpm);
            && end.seen.up <= end.raw.up && end.seen.down <= end.raw.down
            && (end.seen == end.raw ==>
                  && end.row.up == m.row.up + Factored(end.raw.up, factorPpm) == end.rc.lastUp
                  && end.row.down == m.row.down + Factored(end.raw.down, factorPpm) == end.rc.lastDown
                  && end.rc.remUp == end.raw.up * (factorPpm - SCALE) % SCALE
                  && end.rc.remDown == end.raw.down * (factorPpm - SCALE) % SCALE)
  {
    BalancedRun(m.row, m, moments, factorPpm);
    var end := Observed(m, moments, factorPpm);
    if end.seen == end.raw {
      ExactTotal(m.row.up, end.row.up, end.rc.lastUp, end.rc.remUp, end.raw.up, factorPpm);
      ExactTotal(m.row.down, end.row.down, end.rc.lastDown, end.rc.remDown, end.raw.down, factorPpm);
    }
  }

  /**
   * Two schedules that let the same bytes through and end all seen leave the same counters and the same carried
   * fractions.
   */
  lemma SameBytesSameCounters(m: Meter, first: seq<Moment>, second: seq<Moment>, factorPpm: int64)
    requires factorPpm >= SCALE && Opened(m)
    requires var a, b := Observed(m, first, factorPpm), Observed(m, second, factorPpm);
             a.raw == b.raw && a.seen == a.raw && b.seen == b.raw
    ensures var a, b := Observed(m, first, factorPpm), Observed(m, second, factorPpm);
            && a.row.up == b.row.up && a.row.down == b.row.down
            && a.rc.lastUp == b.rc.lastUp && a.rc.lastDown == b.rc.lastDown
            && a.rc.remUp == b.rc.remUp && a.rc.remDown == b.rc.remDown
  {
    ScheduleIndependent(m, first, factorPpm);
    ScheduleIndependent(m, second, factorPpm);
  }
}
