/** One state machine: the panel changes rows, an operator issues commands, the daemon ticks. */
module Machine {
  import opened Collections
  import opened Model
  import opened Accounting
  import opened Decisions
  import opened PolicyTable
  import opened Baselines
  import opened Ticking
  import C = Commands
  import R = Reconciling
  import K = Cleanup

  // Steps -----------------------------------------------------------------

  /** What the panel does to its own rows. */
  datatype Change =
    | AddBytes(t: int, bytes: Bytes)
    | Lower(t: int, up: int64, down: int64)
    | Rename(t: int, email: string)
    | Delete(t: int)
    | Create(t: int, row: Traffic)
    | Edit(t: int, inboundId: int, enable: bool, total: int)
    | Attach(members: set<(string, int)>)

  datatype Command =
    | Enable(email: string, inbound: Option<int>, factor: string)
    | EnableAll(bulk: C.Bulk, once: bool, factor: string)
    | Pause(email: string, inbound: Option<int>)
    | Resume(email: string, inbound: Option<int>)
    | Disable(email: string, inbound: Option<int>)
    | PauseAll(inbound: Option<int>)
    | ResumeAll(inbound: Option<int>)
    | DisableAll(inbound: Option<int>)
    | Exclude(email: string, at: int)
    | Unexclude(email: string, at: int)
    | Override(email: string, at: int, factor: string)
    | RemoveOverride(email: string, at: int)
    | Reconcile(inbound: Option<int>, dryRun: bool)
    | Clean(options: K.Options, dryRun: bool)

  datatype Step =
    | PanelStep(change: Change)
    | CommandStep(command: Command, now: int)
    | TickStep(env: TickEnv, now: int)

  predicate EmailFree(db: Db, email: string, except: int) {
    forall u :: u in db.traffic && u != except ==> db.traffic[u].email != email
  }

  /**
   * Emails are unique, counters never leave int64, and the panel does not reuse an id of which a client is still
   * recorded.
   */
  predicate Possible(db: Db, change: Change) {
    match change
    case AddBytes(t, bytes) => t in db.traffic && Accounting.Fits(db.traffic[t], bytes)
    case Lower(t, up, down) => t in db.traffic && 0 <= up <= db.traffic[t].up && 0 <= down <= db.traffic[t].down
    case Rename(t, email) => t in db.traffic && EmailFree(db, email, t)
    case Delete(t) => t in db.traffic
    case Create(t, row) => t !in db.traffic && EmailFree(db, row.email, t) && forall k: Key ::
          k in db.clients ==> k.traffic != t
    case Edit(t, _, _, _) => t in db.traffic
    case Attach(_) => true
  }

  function Changed(db: Db, change: Change): Db
    requires Possible(db, change)
  {
    match change
    case AddBytes(t, bytes) => db.SetCounters(t, db.traffic[t].up + bytes.up, db.traffic[t].down + bytes.down)
    case Lower(t, up, down) => db.SetCounters(t, up, down)
    case Rename(t, email) => db.(traffic := db.traffic[t := db.traffic[t].(email := email)])
    case Delete(t) => db.(traffic := db.traffic - {t})
    case Create(t, row) => db.(traffic := db.traffic[t := row])
    case Edit(t, inboundId, enable, total) => db.(traffic :=
        db.traffic[t := db.traffic[t].(inboundId := inboundId, enable := enable, total := total)])
    case Attach(members) => db.(members := members)
  }

  function Tables<T>(r: Result<(Db, T)>): Result<Db> {
    if r.Ok? then Ok(r.value.0) else Err(r.error)
  }

  function Execute(db: Db, command: Command, now: int): Result<Db> {
    match command
    case Enable(email, inbound, factor) => C.Enable(db, email, inbound, factor, now)
    case EnableAll(bulk, once, factor) => C.EnableAll(db, bulk, once, factor, now)
    case Pause(email, inbound) => C.Pause(db, email, inbound, now)
    case Resume(email, inbound) => C.Resume(db, email, inbound, now)
    case Disable(email, inbound) => C.Disable(db, email, inbound, now)
    case PauseAll(inbound) => C.PauseAll(db, inbound, now)
    case ResumeAll(inbound) => C.ResumeAll(db, inbound, now)
    case DisableAll(inbound) => C.DisableAll(db, inbound, now)
    case Exclude(email, at) => C.Exclude(db, email, at, now)
    case Unexclude(email, at) => C.Unexclude(db, email, at, now)
    case Override(email, at, factor) => C.Override(db, email, at, factor, now)
    case RemoveOverride(email, at) => C.RemoveOverride(db, email, at, now)
    case Reconcile(inbound, dryRun) => Tables(R.Reconcile(db, inbound, now, dryRun))
    case Clean(options, dryRun) => Tables(K.Clean(db, options, dryRun))
  }

  /** A transaction that fails is rolled back. */
  function Committing(db: Db, r: Result<Db>): Db {
    if r.Ok? then r.value else db
  }

  function Next(db: Db, step: Step): Db {
    match step
    case PanelStep(change) => if Possible(db, change) then Changed(db, change) else db
    case CommandStep(command, now) => Committing(db, Execute(db, command, now))
    case TickStep(env, now) => Committing(db, Tick(db, env, now))
  }

  // Ledgers ---------------------------------------------------------------

  type Ledger = map<int, Bytes>

  const NOTHING := Bytes(0, 0)

  function At(ledger: Ledger, t: int): Bytes {
    if t in ledger then ledger[t] else NOTHING
  }

  function Increased(ledger: Ledger, t: int, bytes: Bytes): Ledger {
    ledger[t := Plus(At(ledger, t), bytes)]
  }

  predicate Within(a: Bytes, b: Bytes) {
    a.up <= b.up && a.down <= b.down
  }

  /** An active exclude names the row's id and email. */
  predicate Excluded(db: Db, t: int) {
    t in db.traffic && NamedActive(db.excludes, t, db.traffic[t].email)
  }

  /**
   * The tables, and per row: all bytes the panel added (`raw`), those since the row was last factored (`since`), the
   * bytes added while no exclude named the row (`eligible`), those of them since the row was last factored, settled
   * by a policy command, or brought back by a resume (`allowed`), and all bytes that a factor has been applied to,
   * whether or not a whole byte came of it (`charged`).
   */
  datatype World = World(db: Db, raw: Ledger, since: Ledger, eligible: Ledger, allowed: Ledger, charged: Ledger)

  function Fresh(db: Db): World {
    World(db, map[], map[], map[], map[], map[])
  }

  function Delta(row: Traffic, rc: RuleClient): Bytes {
    Bytes(if row.up >= rc.lastUp then row.up - rc.lastUp else 0, if row.down >= rc.lastDown then
                                                                row.down - rc.lastDown else 0)
  }

  function DecisionAt(ds: seq<Decision>, t: int): Option<Decision> {
    if ds == [] then None else if ds[0].trafficId == t then Some(ds[0]) else DecisionAt(ds[1..], t)
  }

  /** The bytes that the row's decision applies its factor to. */
  function ChargedOn(ready: Db, ds: seq<Decision>, t: int): Bytes {
    var d := DecisionAt(ds, t);
    if d.None? || d.value.target.None? || t !in ready.traffic then
          NOTHING else Delta(ready.traffic[t], d.value.target.value.client)
  }

  /** The tick applies the target's factor to bytes of its row: it adds whole bytes, or carries fractions of them. */
  predicate Factors(ready: Db, x: Target, env: TickEnv) {
    var t := x.trafficId;
    && t in ready.traffic && t !in env.locked && ready.traffic[t].email == x.client.email
    && var charge := ChargeFor(ready.traffic[t], x.client, x.factorPpm);
       charge.Ok? && (charge.value.Charged? || charge.value.Baselined?)
  }

  predicate FactorsOn(ready: Db, d: Option<Decision>, env: TickEnv) {
    d.Some? && d.value.target.Some? && d.value.target.value.trafficId == d.value.trafficId
        && Factors(ready, d.value.target.value, env)
  }

  /** The rows that a tick factors. */
  function FactoredRows(ready: Db, ds: seq<Decision>, env: TickEnv): set<int> {
    set t | t in ready.traffic && FactorsOn(ready, DecisionAt(ds, t), env)
  }

  function Cleared(ledger: Ledger, rows: set<int>): Ledger {
    map t | t in ledger :: if t in rows then NOTHING else ledger[t]
  }

  function Charges(charged: Ledger, ready: Db, ds: seq<Decision>, rows: set<int>): Ledger {
    map t | t in charged.Keys + rows :: if t in rows then Plus(At(charged, t), ChargedOn(ready, ds, t)) else
                                                            At(charged, t)
  }

  /** A committed tick that decided on `ready`. */
  function Ticked(w: World, ready: Db, ds: seq<Decision>, env: TickEnv, after: Db): World {
    var rows := FactoredRows(ready, ds, env);
    w.(db := after, since := Cleared(w.since, rows), allowed := Cleared(w.allowed, rows),
        charged := Charges(w.charged, ready, ds, rows))
  }

  function TickOutcome(w: World, ready: Result<Db>, env: TickEnv, after: Result<Db>): World {
    if ready.Err? || after.Err? then w
    else
      var ds := DecideAll(Candidates(ready.value));
      if ds.Err? then w else Ticked(w, ready.value, ds.value, env, after.value)
  }

  function Found(r: Result<int>): Option<int> {
    match r case Ok(t) => Some(t) case Err(_) => None
  }

  /** The row a policy command settles: its live clients start again from the counters. */
  function SettledRow(db: Db, command: Command): Option<int> {
    match command
    case Unexclude(email, at) => Found(db.FindClient(email, Some(at)))
    case Override(email, at, _) => Found(db.FindClient(email, Some(at)))
    case RemoveOverride(email, at) => Found(db.FindClient(email, Some(at)))
    case _ => None
  }

  predicate BroughtBack(db: Db, after: Db, r: int) {
    r in db.rules && db.rules[r].state.Paused? && after.Active(r)
  }

  /** The rows of the rules that a resume brought back. */
  function ResumedRows(db: Db, after: Db): set<int> {
    set k | k in db.clients && BroughtBack(db, after, k.rule) :: k.traffic
  }

  /** The rows whose earlier bytes no later tick may charge. */
  function RestartedRows(db: Db, command: Command, after: Db): set<int> {
    if command.Resume? || command.ResumeAll? then ResumedRows(db, after)
    else match SettledRow(db, command) case Some(t) => {t} case None => {}
  }

  function Commanded(w: World, command: Command, after: Db): World {
    w.(db := after, allowed := Cleared(w.allowed, RestartedRows(w.db, command, after)))
  }

  function Arrived(w: World, t: int, bytes: Bytes): World {
    var more := w.(raw := Increased(w.raw, t, bytes), since := Increased(w.since, t, bytes));
    if Excluded(w.db, t) then more else
                                more.(eligible := Increased(w.eligible, t, bytes),
                                allowed := Increased(w.allowed, t, bytes))
  }

  function Advance(w: World, step: Step): World {
    match step
    case PanelStep(change) =>
      if !Possible(w.db, change) then w
      else if change.AddBytes? then Arrived(w, change.t, change.bytes).(db := Changed(w.db, change))
      else w.(db := Changed(w.db, change))
    case CommandStep(command, now) =>
      (match Execute(w.db, command, now)
       case Ok(after) => Commanded(w, command, after)
       case Err(_) => w)
    case TickStep(env, now) => TickOutcome(w, Prepared(w.db, now), env, Tick(w.db, env, now))
  }

  function Run(w: World, steps: seq<Step>): World
    decreases |steps|
  {
    if steps == [] then w else Run(Advance(w, steps[0]), steps[1..])
  }

  // Runs ------------------------------------------------------------------

  predicate Timed(step: Step) {
    match step
    case PanelStep(_) => true
    case CommandStep(_, now) => now > 0
    case TickStep(_, now) => now > 0
  }
}
