/** The panel's traffic rows and the sidecar's tables, as values, with the single-statement updates on them. */
module Model {
  import opened Collections

  const SCALE: int := 1_000_000
  const MAX_INT64: int := 0x7FFF_FFFF_FFFF_FFFF
  const MIN_INT64: int := -0x8000_0000_0000_0000

  type int64 = x: int | MIN_INT64 <= x <= MAX_INT64

  datatype Error = NotFound | Ambiguous | Conflict | Race | BadInput | Overflow | Managed

  datatype Result<+T> = Ok(value: T) | Err(error: Error) {
    predicate IsFailure() { Err? }
    function PropagateFailure<U>(): Result<U>
      requires Err?
    {
      Err(error)
    }
    function Extract(): T
      requires Ok?
    {
      value
    }
  }

  datatype State = Active | Paused | Disabled | Merged | Orphaned

  /** A row of client_traffics; `enable` stands for the integer 1. */
  datatype Traffic = Traffic(inboundId: int, enable: bool, email: string, up: int64, down: int64, total: int)

  datatype Rule = Rule(inboundId: int, email: string, factorPpm: int64, state: State, updatedAt: int,
      disabledAt: Option<int>)

  datatype Scope = Scope(inboundId: Option<int>, limitedOnly: bool, includeDisabled: bool, once: bool)

  /** The primary key of xui_factor_rule_clients. */
  datatype Key = Key(rule: int, traffic: int)

  datatype RuleClient = RuleClient(
    inboundId: int, email: string,
    lastUp: int64, lastDown: int64, remUp: int64, remDown: int64,
    missingAt: Option<int>)

  /** A row of xui_factor_excludes or xui_factor_overrides; an exclude carries factor 0. */
  datatype Policy = Policy(trafficId: int, inboundId: int, email: string, factorPpm: int64, state: State,
      updatedAt: int, disabledAt: Option<int>)

  datatype EventKind =
    | RuleEnabled | RuleDisabled | RulePaused | RuleResumed | RuleMerged | RuleReconcile | RuleSkip
    | ClientAdopted | ClientRelinked | ClientReset | ClientMissing | ClientPruned
    | TrafficApply | ScopeEnroll | ScopeSkip | Cleaned
    | ExcludeEnable | ExcludeDisable | OverrideEnable | OverrideUpdate | OverrideDisable

  datatype Detail =
    | Plain
    | OnTraffic(trafficId: int)
    | Owned(skippedId: int, ownerId: int)
    | OwnedByScope(scopedId: int, holderId: int)
    | Applied(appliedId: int, inboundId: int, email: string, extraUp: int64, extraDown: int64)

  datatype Event = Event(rule: Option<int>, kind: EventKind, detail: Detail, at: int)

  function FreshClient(row: Traffic): RuleClient {
    RuleClient(row.inboundId, row.email, row.up, row.down, 0, 0, None)
  }

  datatype Db = Db(
    traffic: map<int, Traffic>,
    members: set<(string, int)>,
    rules: map<int, Rule>,
    scopes: map<int, Scope>,
    clients: map<Key, RuleClient>,
    excludes: map<int, Policy>,
    overrides: map<int, Policy>,
    events: seq<Event>,
    nextRule: int,
    nextExclude: int,
    nextOverride: int)
  {
    // Lookups -------------------------------------------------------------

    predicate Active(r: int) {
      r in rules && rules[r].state.Active?
    }

    predicate Owns(r: int, t: int) {
      Active(r) && Key(r, t) in clients
    }

    function ClientsOf(r: int): set<int> {
      set k | k in clients && k.rule == r :: k.traffic
    }

    function RulesOn(t: int, states: set<State>): set<int> {
      set k | k in clients && k.traffic == t && k.rule in rules && rules[k.rule].state in states :: k.rule
    }

    predicate ScopeOn(t: int, except: int) {
      exists x :: x in scopes && x != except && Owns(x, t)
    }

    function RowsByEmail(email: string): set<int> {
      set t | t in traffic && traffic[t].email == email
    }

    function RowByEmail(email: string): Option<int> {
      var ts := RowsByEmail(email);
      if ts == {} then None else Some(Min(ts))
    }

    predicate IsMember(email: string, inbound: int) {
      (email, inbound) in members
    }

    /** FindClient: the rows of one email, optionally attached to an inbound, must be exactly one. */
    function FindClient(email: string, inbound: Option<int>): Result<int> {
      var ts := set t | t in traffic && traffic[t].email == email && (inbound.Some? ==> IsMember(email, inbound.value));
      if ts == {} then Err(NotFound) else if |ts| == 1 then Ok(Min(ts)) else Err(Ambiguous)
    }

    // Updates -------------------------------------------------------------

    function Log(rule: Option<int>, kind: EventKind, detail: Detail, now: int): Db {
      this.(events := events + [Event(rule, kind, detail, now)])
    }

    function SetState(r: int, state: State, now: int): Db {
      if r !in rules then this
      else
        var ended := if state.Active? || state.Paused? then rules[r].disabledAt else Some(now);
        this.(rules := rules[r := rules[r].(state := state, updatedAt := now, disabledAt := ended)])
    }

    function PutClient(k: Key, rc: RuleClient): Db {
      this.(clients := clients[k := rc])
    }

    function MarkMissing(k: Key, now: int): Db {
      if k !in clients then this
      else if clients[k].missingAt.Some? then this
      else PutClient(k, clients[k].(missingAt := Some(now)))
    }

    function Rebase(k: Key, up: int64, down: int64, remUp: int64, remDown: int64): Db {
      if k !in clients then this
      else PutClient(k, clients[k].(lastUp := up, lastDown := down, remUp := remUp, remDown := remDown,
           missingAt := None))
    }

    function AdoptInbound(k: Key, inbound: int): Db {
      if k !in clients then this else PutClient(k, clients[k].(inboundId := inbound))
    }

    function SetCounters(t: int, up: int64, down: int64): Db
      requires t in traffic
    {
      this.(traffic := traffic[t := traffic[t].(up := up, down := down)])
    }
  }

  /** The client table with the entry of one key replaced by an entry of another. */
  function Moved(clients: map<Key, RuleClient>, from: Key, to: Key, rc: RuleClient): map<Key, RuleClient> {
    (clients - {from})[to := rc]
  }
}
