/**
 * internal/store/excludes.go and overrides.go, and the relinking of internal/engine/reconcile.go: one table of
 * policies.
 */
module PolicyTable {
  import opened Collections
  import opened Model

  type Table = map<int, Policy>

  // Queries ---------------------------------------------------------------

  predicate ActiveRow(table: Table, id: int) {
    id in table && table[id].state.Active?
  }

  predicate NamesClient(p: Policy, t: int, email: string) {
    p.trafficId == t && p.email == email
  }

  predicate AtTuple(p: Policy, t: int, inbound: int, email: string) {
    p.trafficId == t && p.inboundId == inbound && p.email == email
  }

  function FindActiveForClient(table: Table, t: int, email: string): Option<int> {
    Newest(set id | id in table && table[id].state.Active? && NamesClient(table[id], t, email))
  }

  function FindForClient(table: Table, t: int, email: string): Option<int> {
    Newest(set id | id in table && NamesClient(table[id], t, email))
  }

  function FindByEmail(table: Table, email: string): Option<int> {
    Newest(set id | id in table && table[id].email == email)
  }

  function FindActiveByEmail(table: Table, email: string): Option<int> {
    Newest(set id | id in table && table[id].state.Active? && table[id].email == email)
  }

  function FindForUpsert(table: Table, t: int, email: string): Option<int> {
    var active := FindActiveForClient(table, t, email);
    var any := FindForClient(table, t, email);
    if active.Some? then active else if any.Some? then any else FindByEmail(table, email)
  }

  function Occupant(table: Table, t: int, inbound: int, email: string, except: int): Option<int> {
    Newest(set id | id in table && id != except && AtTuple(table[id], t, inbound, email))
  }

  predicate ListedBefore(table: Table, a: int, b: int) {
    if a !in table || b !in table then a < b
    else if table[a].inboundId != table[b].inboundId then table[a].inboundId < table[b].inboundId
    else if table[a].email != table[b].email then TextBefore(table[a].email, table[b].email)
    else table[a].trafficId < table[b].trafficId
  }

  function ActiveIds(table: Table): set<int> {
    set id | id in table && table[id].state.Active?
  }

  /** The active rows, ordered by inbound, email and traffic id. */
  function ListActive(table: Table): seq<int> {
    SortBy(Ascending(ActiveIds(table)), (a: int, b: int) => ListedBefore(table, a, b))
  }

  // Updates ---------------------------------------------------------------

  function Disable(table: Table, id: int, now: int): Table {
    if id !in table then table else table[id :=
                                    table[id].(state := Disabled, updatedAt := now, disabledAt := Some(now))]
  }

  /** The row's id after the upsert; a tuple held by another row breaks the UNIQUE index. */
  function Upsert(table: Table, next: int, t: int, inbound: int, email: string, factorPpm: int64,
      now: int): Result<(Table, int, int)> {
    match FindForUpsert(table, t, email)
    case None => Ok((table[next := Policy(t, inbound, email, factorPpm, Active, now, None)], next + 1, next))
    case Some(id) =>
      if id !in table || Occupant(table, t, inbound, email, id).Some? then Err(Conflict)
      else Ok((table[id := table[id].(trafficId := t, inboundId := inbound, factorPpm := factorPpm, state := Active,
           updatedAt := now, disabledAt := None)], next, id))
  }

  /** RelinkExcludeRow and RelinkOverrideRow; `p` is the row as it was listed. */
  function Relink(table: Table, id: int, p: Policy, t: int, inbound: int, now: int): Table {
    RelinkBeside(table, id, p, t, inbound, Occupant(table, t, inbound, p.email, id), now)
  }

  /** Relink, with the row found on the target tuple. */
  function RelinkBeside(table: Table, id: int, p: Policy, t: int, inbound: int, occupant: Option<int>,
      now: int): Table {
    match occupant
    case None => if id !in table then table else
                                        table[id := table[id].(trafficId := t, inboundId := inbound, updatedAt := now)]
    case Some(o) =>
      var woken := if o !in table || table[o].state.Active? then table
                   else table[o := table[o].(state := Active, factorPpm := p.factorPpm, updatedAt := now)];
      Disable(woken, id, now)
  }

  function Resolve(db: Db, p: Policy): Option<int> {
    if p.trafficId in db.traffic && db.traffic[p.trafficId].email == p.email then
          Some(p.trafficId) else db.RowByEmail(p.email)
  }

  /** The row must be repaired: its client is found, within the filter, elsewhere than recorded. */
  predicate Stale(db: Db, p: Policy, inbound: Option<int>) {
    var row := Resolve(db, p);
    && row.Some? && row.value in db.traffic
    && (inbound.Some? ==> db.IsMember(p.email, inbound.value))
    && !(row.value == p.trafficId && db.traffic[row.value].inboundId == p.inboundId)
  }

  function FollowOne(db: Db, table: Table, id: int, p: Policy, inbound: Option<int>, now: int): Table {
    if Stale(db, p, inbound) then Relink(table, id, p, Resolve(db, p).value,
                                  db.traffic[Resolve(db, p).value].inboundId, now) else table
  }

  /** reconcilePolicies on one table: the rows of `listed`, as they were when listed. */
  function FollowAll(db: Db, table: Table, listed: Table, ids: seq<int>, inbound: Option<int>, now: int): Table {
    if ids == [] then table
    else if ids[0] !in listed then FollowAll(db, table, listed, ids[1..], inbound, now)
    else FollowAll(db, FollowOne(db, table, ids[0], listed[ids[0]], inbound, now), listed, ids[1..], inbound, now)
  }

  function RepairCount(db: Db, listed: Table, ids: seq<int>, inbound: Option<int>): nat {
    if ids == [] then 0
    else (if ids[0] in listed && Stale(db, listed[ids[0]], inbound) then
           1 else 0) + RepairCount(db, listed, ids[1..], inbound)
  }

  // Policies follow the email ---------------------------------------------

  ghost predicate EmailsUnique(db: Db) {
    forall t, u :: t in db.traffic && u in db.traffic && db.traffic[t].email == db.traffic[u].email ==> t == u
  }

  predicate SameTuple(p: Policy, q: Policy) {
    AtTuple(p, q.trafficId, q.inboundId, q.email)
  }

  /** UNIQUE(traffic_id, inbound_id, email). */
  ghost predicate TuplesUnique(table: Table) {
    forall a, b :: a in table && b in table && SameTuple(table[a], table[b]) ==> a == b
  }

  ghost predicate Lists(ids: seq<int>, table: Table) {
    Distinct(ids) && forall id :: id in ids <==> id in ActiveIds(table)
  }

  lemma ListActiveLists(table: Table)
    ensures Lists(ListActive(table), table)
  {
    var before := (a: int, b: int) => ListedBefore(table, a, b);
    SortKeepsListing(Ascending(ActiveIds(table)), before);
  }

  predicate HasActive(table: Table, email: string) {
    exists id :: id in table && ActiveRow(table, id) && table[id].email == email
  }

  /** The row is active under `email` and records the client's row and inbound. */
  predicate Settled(db: Db, table: Table, id: int, t: int) {
    t in db.traffic && ActiveRow(table, id) && AtTuple(table[id], t, db.traffic[t].inboundId, db.traffic[t].email)
  }

  lemma ResolveUnique(db: Db, p: Policy)
    requires EmailsUnique(db)
    ensures Resolve(db, p).Some? ==> Resolve(db, p).value in db.traffic
                                     && db.traffic[Resolve(db, p).value].email == p.email
    ensures forall t :: t in db.traffic && db.traffic[t].email == p.email ==> Resolve(db, p) == Some(t)
  {
    forall t | t in db.traffic && db.traffic[t].email == p.email ensures Resolve(db, p) == Some(t) {
      assert t in db.RowsByEmail(p.email);
    }
  }

  lemma OccupantHolds(table: Table, t: int, inbound: int, email: string, except: int)
    ensures match Occupant(table, t, inbound, email, except)
            case None => forall id :: id in table && id != except ==> !AtTuple(table[id], t, inbound, email)
            case Some(o) => o in table && o != except && AtTuple(table[o], t, inbound, email)
  {
    var s := set id | id in table && id != except && AtTuple(table[id], t, inbound, email);
    if s == {} {
      forall id | id in table && id != except ensures !AtTuple(table[id], t, inbound, email) {
        assert id !in s;
      }
    }
  }

  /**
   * What a relink of row `id` does: its heir, itself or the tuple's holder, is active on the tuple, and `id` retires
   * unless it is the heir.
   */
  ghost predicate Relinked(table: Table, after: Table, id: int, heir: int, p: Policy, t: int, inbound: int) {
    && after.Keys == table.Keys && id in table
    && ActiveRow(after, heir) && AtTuple(after[heir], t, inbound, p.email)
    && (forall x :: x in table && x != id && x != heir ==> after[x] == table[x])
    && (heir == id ==> after[id].factorPpm == table[id].factorPpm && forall x ::
                         x in table && x != id ==> !AtTuple(table[x], t, inbound, p.email))
    && (heir != id ==>
          && AtTuple(table[heir], t, inbound, p.email)
          && (if ActiveRow(table, heir) then after[heir] == table[heir] else after[heir].factorPpm == p.factorPpm)
          && !ActiveRow(after, id) && AtTuple(after[id], table[id].trafficId, table[id].inboundId, table[id].email))
  }

  lemma RelinkEffect(table: Table, id: int, p: Policy, t: int, inbound: int, now: int) returns (heir: int)
    requires ActiveRow(table, id) && table[id].email == p.email
    ensures Relinked(table, Relink(table, id, p, t, inbound, now), id, heir, p, t, inbound)
  {
    OccupantHolds(table, t, inbound, p.email, id);
    var o := Occupant(table, t, inbound, p.email, id);
    heir := if o.Some? then o.value else id;
  }

  /** Rows not yet reached are as listed; active rows already passed are settled wherever their client lives. */
  ghost predicate Following(db: Db, table: Table, listed: Table, ids: seq<int>) {
    && table.Keys == listed.Keys
    && (forall id :: id in table ==> table[id].email == listed[id].email)
    && (forall id :: id in ids ==> ActiveRow(listed, id) && table[id] == listed[id])
    && PassedSettled(db, table, ids)
    && (forall id :: id in table && !LiveEmail(db, table[id].email) ==> table[id] == listed[id])
    && (forall id :: ActiveRow(table, id) ==> FromActive(listed, table[id]))
  }

  ghost predicate PassedSettled(db: Db, table: Table, ids: seq<int>) {
    forall id, t :: ActiveRow(table, id) && id !in ids && t in db.traffic ==>
      db.traffic[t].email == table[id].email ==> Settled(db, table, id, t)
  }

  /** Some active listed row had this email and this factor. */
  ghost predicate FromActive(listed: Table, p: Policy) {
    exists id :: ActiveRow(listed, id) && listed[id].email == p.email && listed[id].factorPpm == p.factorPpm
  }

  lemma RelinkedUnique(table: Table, after: Table, id: int, heir: int, p: Policy, t: int, inbound: int)
    requires TuplesUnique(table) && id in table && Relinked(table, after, id, heir, p, t, inbound)
    ensures TuplesUnique(after)
  {
    forall a, b | a in after && b in after && AtTuple(after[a], after[b].trafficId, after[b].inboundId, after[b].email)
      ensures a == b
    {
      if heir == id {
        assert a != id && b != id ==> AtTuple(table[a], table[b].trafficId, table[b].inboundId, table[b].email);
      } else {
        assert AtTuple(table[a], table[b].trafficId, table[b].inboundId, table[b].email);
      }
    }
  }

  lemma RelinkedSettles(db: Db, table: Table, after: Table, listed: Table, ids: seq<int>, heir: int, t: int, x: int,
      u: int)
    requires ids != [] && ids[0] in listed
    requires EmailsUnique(db) && Following(db, table, listed, ids)
    requires t in db.traffic && db.traffic[t].email == listed[ids[0]].email
    requires Relinked(table, after, ids[0], heir, listed[ids[0]], t, db.traffic[t].inboundId)
    requires ActiveRow(after, x) && x !in ids[1..] && u in db.traffic && db.traffic[u].email == after[x].email
    ensures Settled(db, after, x, u)
  {
    assert forall y :: y in ids <==> y == ids[0] || y in ids[1..];
    if x == heir { assert u == t; } else { assert ActiveRow(table, x) && x !in ids; }
  }

  lemma RelinkedFromActive(db: Db, table: Table, after: Table, listed: Table, ids: seq<int>, heir: int, t: int, x: int)
    requires ids != [] && ids[0] in listed
    requires Following(db, table, listed, ids)
    requires t in db.traffic
    requires Relinked(table, after, ids[0], heir, listed[ids[0]], t, db.traffic[t].inboundId)
    requires ActiveRow(after, x)
    ensures FromActive(listed, after[x])
  {
    var id := ids[0];
    assert id in ids;
    if x == heir {
      if heir != id && ActiveRow(table, heir) { assert FromActive(listed, table[heir]); }
      else { assert ActiveRow(listed, id) && listed[id].factorPpm == after[x].factorPpm; }
    }
  }

  lemma RelinkedFollowing(db: Db, table: Table, after: Table, listed: Table, ids: seq<int>, heir: int, t: int)
    requires ids != [] && ids[0] in listed
    requires EmailsUnique(db) && ids != [] && Distinct(ids) && Following(db, table, listed, ids)
    requires t in db.traffic && db.traffic[t].email == listed[ids[0]].email
    requires Relinked(table, after, ids[0], heir, listed[ids[0]], t, db.traffic[t].inboundId)
    ensures Following(db, after, listed, ids[1..])
  {
    var id, p := ids[0], listed[ids[0]];
    assert id in ids && forall x :: x in ids <==> x == id || x in ids[1..];
    assert id !in ids[1..];
    forall x, u | ActiveRow(after, x) && x !in ids[1..] && u in db.traffic && db.traffic[u].email == after[x].email
      ensures Settled(db, after, x, u)
    {
      RelinkedSettles(db, table, after, listed, ids, heir, t, x, u);
    }
    forall x | ActiveRow(after, x) ensures FromActive(listed, after[x]) {
      RelinkedFromActive(db, table, after, listed, ids, heir, t, x);
    }
    assert LiveEmail(db, p.email);
  }

  lemma RelinkedKeepsActive(table: Table, after: Table, id: int, heir: int, p: Policy, t: int, inbound: int,
      email: string)
    requires ActiveRow(table, id) && table[id].email == p.email
    requires Relinked(table, after, id, heir, p, t, inbound)
    ensures HasActive(after, email) <==> HasActive(table, email)
  {
    if email == p.email {
      assert ActiveRow(after, heir) && after[heir].email == email;
      assert ActiveRow(table, id);
    } else {
      assert forall x :: x in table && table[x].email == email ==> after[x] == table[x];
      assert forall x :: x in after && after[x].email == email ==> after[x] == table[x];
    }
  }

  lemma NotStaleFollowing(db: Db, table: Table, listed: Table, ids: seq<int>)
    requires ids != [] && ids[0] in listed
    requires EmailsUnique(db) && ids != [] && Distinct(ids) && Following(db, table, listed, ids)
    requires !Stale(db, listed[ids[0]], None)
    ensures Following(db, table, listed, ids[1..])
  {
    var id, p := ids[0], listed[ids[0]];
    assert id in ids && forall x :: x in ids <==> x == id || x in ids[1..];
    ResolveUnique(db, p);
  }

  lemma FollowStep(db: Db, table: Table, listed: Table, ids: seq<int>, now: int)
    requires ids != [] && ids[0] in listed
    requires EmailsUnique(db) && ids != [] && Distinct(ids) && TuplesUnique(table) && Following(db, table, listed, ids)
    ensures var after := FollowOne(db, table, ids[0], listed[ids[0]], None, now);
            TuplesUnique(after) && Following(db, after, listed, ids[1..])
    ensures forall email :: HasActive(FollowOne(db, table, ids[0], listed[ids[0]], None, now), email) <==>
                            HasActive(table, email)
  {
    var id, p := ids[0], listed[ids[0]];
    assert id in ids && forall x :: x in ids <==> x == id || x in ids[1..];
    ResolveUnique(db, p);
    if Stale(db, p, None) {
      var t := Resolve(db, p).value;
      var heir := RelinkEffect(table, id, p, t, db.traffic[t].inboundId, now);
      var after := FollowOne(db, table, id, p, None, now);
      RelinkedUnique(table, after, id, heir, p, t, db.traffic[t].inboundId);
      RelinkedFollowing(db, table, after, listed, ids, heir, t);
      forall email ensures HasActive(after, email) <==> HasActive(table, email) {
        RelinkedKeepsActive(table, after, id, heir, p, t, db.traffic[t].inboundId, email);
      }
    } else {
      NotStaleFollowing(db, table, listed, ids);
    }
  }

  lemma {:induction false} FollowRun(db: Db, table: Table, listed: Table, ids: seq<int>, now: int)
    requires EmailsUnique(db) && Distinct(ids) && TuplesUnique(table) && Following(db, table, listed, ids)
    ensures var after := FollowAll(db, table, listed, ids, None, now);
            TuplesUnique(after) && Following(db, after, listed, [])
    ensures forall email :: HasActive(FollowAll(db, table, listed, ids, None, now), email) <==> HasActive(table, email)
    decreases |ids|
  {
    if ids != [] {
      assert ids[0] in ids && ActiveRow(listed, ids[0]);
      FollowStep(db, table, listed, ids, now);
      FollowRun(db, FollowOne(db, table, ids[0], listed[ids[0]], None, now), listed, ids[1..], now);
    }
  }

  /**
   * After an unfiltered run in any listing order, an email with a live row has an active policy exactly when it had
   * one; it is the only one, it records the live row and inbound, and its factor was that of an active policy of the
   * email. Policies without a live row are untouched.
   */
  lemma PoliciesFollowEmail(db: Db, table: Table, ids: seq<int>, now: int)
    requires EmailsUnique(db) && TuplesUnique(table) && Lists(ids, table)
    ensures var after := FollowAll(db, table, table, ids, None, now);
            && TuplesUnique(after)
            && after.Keys == table.Keys
            && (forall email :: HasActive(after, email) <==> HasActive(table, email))
            && (forall id, t :: ActiveRow(after, id) && t in db.traffic && db.traffic[t].email == after[id].email ==>
                                Settled(db, after, id, t))
            && (forall a, b :: ActiveRow(after, a) && ActiveRow(after, b) ==>
                                 after[a].email == after[b].email && LiveEmail(db, after[a].email) ==> a == b)
            && (forall id :: ActiveRow(after, id) ==> FromActive(table, after[id]))
            && (forall id :: id in table && !LiveEmail(db, table[id].email) ==> after[id] == table[id])
  {
    assert forall id :: ActiveRow(table, id) ==> FromActive(table, table[id]);
    FollowRun(db, table, table, ids, now);
    var after := FollowAll(db, table, table, ids, None, now);
    forall a, b | ActiveRow(after, a) && ActiveRow(after, b) && after[a].email == after[b].email
        && LiveEmail(db, after[a].email)
      ensures a == b
    {
      var t :| t in db.traffic && db.traffic[t].email == after[a].email;
      assert Settled(db, after, a, t) && Settled(db, after, b, t);
    }
  }

  predicate LiveEmail(db: Db, email: string) {
    exists t :: t in db.traffic && db.traffic[t].email == email
  }

  /** Once followed, nothing is left to repair. */
  lemma {:induction false} NothingStale(db: Db, table: Table, ids: seq<int>, inbound: Option<int>)
    requires EmailsUnique(db)
    requires forall id :: id in ids ==> ActiveRow(table, id)
    requires forall id, t :: ActiveRow(table, id) && t in db.traffic && db.traffic[t].email == table[id].email ==>
                             Settled(db, table, id, t)
    ensures RepairCount(db, table, ids, inbound) == 0
    ensures forall now :: FollowAll(db, table, table, ids, inbound, now) == table
  {
    if ids != [] {
      assert ids[0] in ids && ActiveRow(table, ids[0]);
      var p := table[ids[0]];
      ResolveUnique(db, p);
      if Resolve(db, p).Some? { assert Settled(db, table, ids[0], Resolve(db, p).value); }
      NothingStale(db, table, ids[1..], inbound);
    }
  }

  // A policy naming a live client keeps naming it, whatever the filter -----

  predicate NamedActive(table: Table, t: int, email: string) {
    exists id :: id in table && ActiveRow(table, id) && NamesClient(table[id], t, email)
  }

  lemma FollowKeepsNamed(db: Db, table: Table, listed: Table, id: int, inbound: Option<int>, now: int, t: int)
    requires EmailsUnique(db) && t in db.traffic && id in listed
    requires id in table ==> table[id].email == listed[id].email
    requires NamedActive(table, t, db.traffic[t].email)
    ensures NamedActive(FollowOne(db, table, id, listed[id], inbound, now), t, db.traffic[t].email)
  {
    var p, email := listed[id], db.traffic[t].email;
    if Stale(db, p, inbound) {
      ResolveUnique(db, p);
      RelinkKeepsNamed(table, id, p, Resolve(db, p).value, db.traffic[Resolve(db, p).value].inboundId, now, t, email);
    }
  }

  lemma RelinkKeepsNamed(table: Table, id: int, p: Policy, u: int, inbound: int, now: int, t: int, email: string)
    requires id in table ==> table[id].email == p.email
    requires p.email == email ==> u == t
    requires NamedActive(table, t, email)
    ensures NamedActive(Relink(table, id, p, u, inbound, now), t, email)
  {
    OccupantHolds(table, u, inbound, p.email, id);
    BesideKeepsNamed(table, id, p, u, inbound, Occupant(table, u, inbound, p.email, id), now, t, email);
  }

  lemma BesideKeepsNamed(table: Table, id: int, p: Policy, u: int, inbound: int, occupant: Option<int>, now: int,
      t: int, email: string)
    requires id in table ==> table[id].email == p.email
    requires p.email == email ==> u == t
    requires occupant.Some? ==> occupant.value in table && occupant.value != id
                                && AtTuple(table[occupant.value], u, inbound, p.email)
    requires NamedActive(table, t, email)
    ensures NamedActive(RelinkBeside(table, id, p, u, inbound, occupant, now), t, email)
  {
    var after := RelinkBeside(table, id, p, u, inbound, occupant, now);
    var x :| x in table && ActiveRow(table, x) && NamesClient(table[x], t, email);
    var heir := if x == id && occupant.Some? then occupant.value else x;
    assert heir in after && ActiveRow(after, heir) && NamesClient(after[heir], t, email);
  }

  lemma FollowKeepsEmails(db: Db, table: Table, listed: Table, id: int, inbound: Option<int>, now: int)
    requires id in listed
    ensures var table' := FollowOne(db, table, id, listed[id], inbound, now);
            table'.Keys == table.Keys && forall x :: x in table ==> table'[x].email == table[x].email
  {
    if Stale(db, listed[id], inbound) {
      var t := Resolve(db, listed[id]).value;
      var occupant := Occupant(table, t, db.traffic[t].inboundId, listed[id].email, id);
      BesideKeepsEmails(table, id, listed[id], t, db.traffic[t].inboundId, occupant, now);
    }
  }

  lemma BesideKeepsEmails(table: Table, id: int, p: Policy, t: int, inbound: int, occupant: Option<int>, now: int)
    ensures var after := RelinkBeside(table, id, p, t, inbound, occupant, now);
            after.Keys == table.Keys && forall x :: x in table ==> after[x].email == table[x].email
  {
  }

  lemma {:induction false} FollowAllKeepsNamed(db: Db, table: Table, listed: Table, ids: seq<int>,
      inbound: Option<int>, now: int, t: int)
    requires EmailsUnique(db) && t in db.traffic
    requires forall x :: x in table && x in listed ==> table[x].email == listed[x].email
    requires NamedActive(table, t, db.traffic[t].email)
    ensures NamedActive(FollowAll(db, table, listed, ids, inbound, now), t, db.traffic[t].email)
    decreases |ids|
  {
    if ids != [] {
      if ids[0] in listed {
        FollowKeepsNamed(db, table, listed, ids[0], inbound, now, t);
        FollowKeepsEmails(db, table, listed, ids[0], inbound, now);
        FollowAllKeepsNamed(db, FollowOne(db, table, ids[0], listed[ids[0]], inbound, now), listed, ids[1..], inbound,
            now, t);
      } else {
        FollowAllKeepsNamed(db, table, listed, ids[1..], inbound, now, t);
      }
    }
  }

  // One row per email -----------------------------------------------------

  ghost predicate OneRowPerEmail(table: Table) {
    forall a, b :: a in table && b in table && table[a].email == table[b].email ==> a == b
  }

  lemma {:induction false} FollowAllKeepsEmails(db: Db, table: Table, listed: Table, ids: seq<int>,
      inbound: Option<int>, now: int)
    ensures var after := FollowAll(db, table, listed, ids, inbound, now);
            after.Keys == table.Keys && forall x :: x in table ==> after[x].email == table[x].email
    decreases |ids|
  {
    if ids != [] {
      if ids[0] in listed {
        FollowKeepsEmails(db, table, listed, ids[0], inbound, now);
        FollowAllKeepsEmails(db, FollowOne(db, table, ids[0], listed[ids[0]], inbound, now), listed, ids[1..],
            inbound, now);
      } else {
        FollowAllKeepsEmails(db, table, listed, ids[1..], inbound, now);
      }
    }
  }

  /**
   * Where every email has at most one row, an upsert succeeds, keeps it so, and leaves that one row active on the
   * client with the given factor.
   */
  lemma UpsertOne(table: Table, next: int, t: int, inbound: int, email: string, factorPpm: int64, now: int)
    requires OneRowPerEmail(table) && next !in table
    ensures var r := Upsert(table, next, t, inbound, email, factorPpm, now);
            && r.Ok? && OneRowPerEmail(r.value.0)
            && ActiveRow(r.value.0, r.value.2) && AtTuple(r.value.0[r.value.2], t, inbound, email)
            && r.value.0[r.value.2].factorPpm == factorPpm
            && (forall x :: x in table && table[x].email != email ==> x in r.value.0 && r.value.0[x] == table[x])
            && (forall x :: x in r.value.0 ==> x == r.value.2 || x in table)
  {
    FoundHasEmail(table, t, email);
    var found := FindForUpsert(table, t, email);
    if found.Some? {
      OccupantHolds(table, t, inbound, email, found.value);
      if Occupant(table, t, inbound, email, found.value).Some? { assert false; }
    }
  }

  lemma FoundHasEmail(table: Table, t: int, email: string)
    ensures match FindForUpsert(table, t, email)
            case None => forall x :: x in table ==> table[x].email != email
            case Some(id) => id in table && table[id].email == email
  {
    var s := set id | id in table && table[id].email == email;
    if FindForUpsert(table, t, email).None? {
      assert s == {};
      forall x | x in table ensures table[x].email != email { assert x !in s; }
    }
  }

  /** The checks of one loop round, in the source's order. */
  method IsStale(db: Db, p: Policy, inbound: Option<int>) returns (stale: bool)
    ensures stale == Stale(db, p, inbound)
  {
    var row := Resolve(db, p);
    if row.None? || row.value !in db.traffic { return false; }
    if inbound.Some? {
      var member := db.IsMember(p.email, inbound.value);
      if !member { return false; }
    }
    var current := db.traffic[row.value];
    if row.value == p.trafficId && current.inboundId == p.inboundId { return false; }
    return true;
  }
}
