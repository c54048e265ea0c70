/** Two sets of tables that differ in who holds one row, and how a tick's preparation keeps them alike. */
module Twins {
  import opened Collections
  import opened Model
  import opened Accounting
  import opened PolicyTable
  import opened Baselines
  import opened Reconciling
  import opened ReconcileProofs
  import opened ReconcileTheorems
  import opened Ticking
  import opened TickProofs

  // The relation ------------------------------------------------------------

  /** Equal but for rule r and the clients on row t. */
  ghost predicate SameOff(a: Db, b: Db, t: int, r: int) {
    && b.traffic == a.traffic && b.members == a.members && b.scopes == a.scopes
    && b.excludes == a.excludes && b.overrides == a.overrides && b.rules.Keys == a.rules.Keys
    && (forall x :: x in a.rules && x != r ==> b.rules[x] == a.rules[x])
    && (forall k: Key :: k.traffic != t && k.rule != r ==> (k in b.clients <==> k in a.clients))
    && (forall k: Key :: k.traffic != t && k.rule != r && k in a.clients && k in b.clients ==>
                         b.clients[k] == a.clients[k])
  }

  /** No client of the rule sits on the row or would be relinked to it. */
  ghost predicate Away(db: Db, x: int, t: int) {
    forall k :: k in db.clients && k.rule == x ==>
      k.traffic != t && (k.traffic in db.traffic || (t in db.traffic && db.clients[k].email != db.traffic[t].email))
  }

  /**
   * Rule p - r itself, or a scope - alone holds row t with a live client; r sits nowhere else, and other single-user
   * rules keep off the row.
   */
  ghost predicate Held(db: Db, t: int, r: int, p: int) {
    && r in db.rules && r !in db.scopes && (p == r || p in db.scopes) && (db.Active(r) <==> p == r)
    && (forall k :: k in db.clients && k.rule == r ==> k.traffic == t)
    && Holds(db, t, p) && Live(db, Key(p, t)) && Matched(db, Key(p, t))
    && db.rules[p].factorPpm == db.rules[r].factorPpm
    && (forall x :: IsSingle(db, x) && x != r ==> Away(db, x, t))
  }

  ghost predicate Holds(db: Db, t: int, p: int) {
    forall x :: db.Owns(x, t) ==> x == p
  }

  /**
   * The tables agree but for row t, which rule p holds in `a` and scope s in `b`, on the same account; scope s admits
   * r there.
   */
  ghost predicate Twin(a: Db, b: Db, t: int, r: int, s: int, p: int) {
    && SameOff(a, b, t, r) && Held(a, t, r, p) && Held(b, t, r, s) && s != r
    && SameAccount(a.clients[Key(p, t)], b.clients[Key(s, t)])
    && b.rules[r].factorPpm == a.rules[r].factorPpm
    && ScopeAdmits(a, s, r, t) && a.Active(s)
  }

  // Steps on other rules ------------------------------------------------------

  lemma EventsOff(a: Db, b: Db, t: int, r: int, rule: Option<int>, kind: EventKind, detail: Detail, now: int)
    requires SameOff(a, b, t, r)
    ensures SameOff(a.Log(rule, kind, detail, now), b.Log(rule, kind, detail, now), t, r)
  {
  }

  lemma StateOff(a: Db, b: Db, t: int, r: int, x: int, state: State, now: int)
    requires SameOff(a, b, t, r) && x != r
    ensures SameOff(a.SetState(x, state, now), b.SetState(x, state, now), t, r)
  {
  }

  lemma ClientOff(a: Db, b: Db, t: int, r: int, k: Key, rc: RuleClient)
    requires SameOff(a, b, t, r)
    ensures SameOff(a.PutClient(k, rc), b.PutClient(k, rc), t, r)
  {
  }

  lemma OrphanOff(a: Db, b: Db, t: int, r: int, x: int, now: int)
    requires SameOff(a, b, t, r) && x != r
    ensures SameOff(Orphan(a, x, now), Orphan(b, x, now), t, r)
  {
    StateOff(a, b, t, r, x, Orphaned, now);
    EventsOff(a.SetState(x, Orphaned, now), b.SetState(x, Orphaned, now), t, r, Some(x), RuleReconcile, Plain, now);
  }

  lemma NoteMissingOff(a: Db, b: Db, t: int, r: int, k: Key, now: int)
    requires SameOff(a, b, t, r) && k.rule != r && k.traffic != t
    ensures SameOff(NoteMissing(a, k, now), NoteMissing(b, k, now), t, r)
  {
  }

  lemma FollowOff(a: Db, b: Db, t: int, r: int, x: int, u: int, row: int, now: int)
    requires SameOff(a, b, t, r) && x != r && u != t && row != t
    ensures SameOff(Placed(a, x, Follow(u, row), now), Placed(b, x, Follow(u, row), now), t, r)
  {
    if row in a.traffic {
      assert Placed(a, x, Follow(u, row), now).clients
          == Moved(a.clients, Key(x, u), Key(x, row), FreshClient(a.traffic[row]));
      assert Placed(b, x, Follow(u, row), now).clients
          == Moved(b.clients, Key(x, u), Key(x, row), FreshClient(b.traffic[row]));
    }
  }

  lemma RebaseOff(a: Db, b: Db, t: int, r: int, k: Key, up: int64, down: int64)
    requires SameOff(a, b, t, r) && k.rule != r && k.traffic != t
    ensures SameOff(a.Rebase(k, up, down, 0, 0), b.Rebase(k, up, down, 0, 0), t, r)
  {
  }

  lemma InboundOff(a: Db, b: Db, t: int, r: int, k: Key, inbound: int)
    requires SameOff(a, b, t, r) && k.rule != r && k.traffic != t
    ensures SameOff(a.AdoptInbound(k, inbound), b.AdoptInbound(k, inbound), t, r)
  {
  }

  lemma HereOff(a: Db, b: Db, t: int, r: int, x: int, u: int, now: int)
    requires SameOff(a, b, t, r) && x != r && u != t
    ensures SameOff(Placed(a, x, Here(u), now), Placed(b, x, Here(u), now), t, r)
  {
    var k := Key(x, u);
    if u in a.traffic && k in a.clients {
      var row := a.traffic[u];
      var c, d := a.Rebase(k, row.up, row.down, 0, 0), b.Rebase(k, row.up, row.down, 0, 0);
      RebaseOff(a, b, t, r, k, row.up, row.down);
      EventsOff(c, d, t, r, Some(x), ClientReset, OnTraffic(u), now);
      InboundOff(c.Log(Some(x), ClientReset, OnTraffic(u), now), d.Log(Some(x), ClientReset, OnTraffic(u), now), t, r,
          k, row.inboundId);
      InboundOff(a, b, t, r, k, row.inboundId);
    }
  }

  lemma MergedOff(a: Db, b: Db, t: int, r: int, x: int, now: int)
    requires SameOff(a, b, t, r) && x != r
    ensures SameOff(a.SetState(x, Merged, now), b.SetState(x, Merged, now), t, r)
  {
    StateOff(a, b, t, r, x, Merged, now);
  }

  lemma JoinOff(a: Db, b: Db, t: int, r: int, z: int, x: int, u: int, now: int)
    requires SameOff(a, b, t, r) && x != r && z != r && u != t
    ensures SameOff(JoinScope(a, z, x, u, now), JoinScope(b, z, x, u, now), t, r)
  {
    assert Key(z, u).traffic != t && Key(x, u).traffic != t;
    if Key(z, u) in a.clients || Key(x, u) !in a.clients {
      MergedOff(a, b, t, r, x, now);
      EventsOff(a.SetState(x, Merged, now), b.SetState(x, Merged, now), t, r, Some(x), RuleMerged, Plain, now);
    } else {
      var rc := a.clients[Key(x, u)];
      var c, d := a.PutClient(Key(z, u), rc), b.PutClient(Key(z, u), rc);
      ClientOff(a, b, t, r, Key(z, u), rc);
      MergedOff(c, d, t, r, x, now);
      EventsOff(c.SetState(x, Merged, now), d.SetState(x, Merged, now), t, r, Some(z), ClientAdopted, OnTraffic(u),
          now);
      EventsOff(c.SetState(x, Merged, now).Log(Some(z), ClientAdopted, OnTraffic(u), now),
                d.SetState(x, Merged, now).Log(Some(z), ClientAdopted, OnTraffic(u), now), t, r, Some(x), RuleMerged,
                    Plain, now);
    }
  }

  lemma ScopeOnOff(a: Db, b: Db, t: int, r: int, u: int, except: int)
    requires SameOff(a, b, t, r) && r !in a.scopes && u != t
    ensures a.ScopeOn(u, except) == b.ScopeOn(u, except)
  {
    forall x: int ensures x in a.scopes ==> a.Owns(x, u) == b.Owns(x, u) {
      assert Key(x, u).traffic != t;
    }
  }

  lemma {:induction false} CompatibleOff(a: Db, b: Db, t: int, r: int, scopes: seq<int>, x: int, u: int)
    requires SameOff(a, b, t, r) && r !in a.scopes && x != r && u != t
    ensures CompatibleScope(a, scopes, x, u) == CompatibleScope(b, scopes, x, u)
  {
    if scopes != [] {
      ScopeOnOff(a, b, t, r, u, scopes[0]);
      assert scopes[0] in a.scopes ==> scopes[0] != r;
      assert ScopeAdmits(a, scopes[0], x, u) == ScopeAdmits(b, scopes[0], x, u);
      CompatibleOff(a, b, t, r, scopes[1..], x, u);
    }
  }

  lemma ConcludeOff(a: Db, b: Db, t: int, r: int, scopes: seq<int>, x: int, u: int, repaired: bool, now: int)
    requires SameOff(a, b, t, r) && r !in a.scopes && x != r && u != t && u in a.traffic
    ensures SameOff(Conclude(a, scopes, x, u, repaired, now, false).0,
            Conclude(b, scopes, x, u, repaired, now, false).0, t, r)
  {
    CompatibleOff(a, b, t, r, scopes, x, u);
    CompatibleFacts(a, scopes, x, u);
    ScopeOnOff(a, b, t, r, u, x);
    match VerdictOn(a, scopes, x, u) {
      case Join(z) => JoinOff(a, b, t, r, z, x, u, now);
      case OrphanDisabled => OrphanOff(a, b, t, r, x, now);
      case OrphanOwned => OrphanOff(a, b, t, r, x, now);
      case Stay =>
    }
  }

  lemma PlaceOff(a: Db, b: Db, t: int, r: int, x: int)
    requires SameOff(a, b, t, r) && x != r && Away(a, x, t) && Away(b, x, t)
    ensures PlaceOf(a, x) == PlaceOf(b, x)
  {
    forall k: Key | k.rule == x ensures k in b.clients <==> k in a.clients {}
    assert b.ClientsOf(x) == a.ClientsOf(x);
    forall u | Key(x, u) in a.clients
      ensures b.clients[Key(x, u)] == a.clients[Key(x, u)]
    {
      assert Key(x, u).traffic != t;
    }
    if |a.ClientsOf(x)| == 1 {
      assert Min(a.ClientsOf(x)) in a.ClientsOf(x);
    }
    forall email
      ensures b.RowByEmail(email) == a.RowByEmail(email)
    {
      assert b.RowsByEmail(email) == a.RowsByEmail(email);
    }
  }

  lemma AwayPlace(db: Db, x: int, t: int)
    requires Away(db, x, t)
    ensures match PlaceOf(db, x)
            case Gone(u) => u != t
            case Renamed(u) => u != t
            case Follow(u, row) => u != t && row != t
            case Here(u) => u != t
            case _ => true
  {
    match PlaceOf(db, x) {
      case NoClient =>
      case ManyClients =>
      case _ => SoleClient(db, x);
    }
  }

  lemma MissingOff(a: Db, b: Db, t: int, r: int, x: int, u: int)
    requires SameOff(a, b, t, r) && x != r && u != t
    ensures MissingHere(a, x, u) == MissingHere(b, x, u)
  {
    assert Key(x, u).traffic != t;
  }

  lemma RowStepOff(a: Db, b: Db, t: int, r: int, scopes: seq<int>, x: int, now: int)
    requires SameOff(a, b, t, r) && r !in a.scopes && x != r && PlaceOf(a, x) == PlaceOf(b, x)
             && RowOf(PlaceOf(a, x)).Some?
    requires PlaceOf(a, x).t != t && RowOf(PlaceOf(a, x)) != Some(t)
    ensures SameOff(SingleRule(a, scopes, x, now, false).0, SingleRule(b, scopes, x, now, false).0, t, r)
  {
    SoleClient(a, x);
    PlacedFacts(a, x, now);
    PlacedFacts(b, x, now);
    match PlaceOf(a, x) {
      case Follow(u, row) =>
        FollowOff(a, b, t, r, x, u, row, now);
        ConcludeOff(Placed(a, x, Follow(u, row), now), Placed(b, x, Follow(u, row), now), t, r, scopes, x, row, true,
            now);
      case Here(u) =>
        HereOff(a, b, t, r, x, u, now);
        MissingOff(a, b, t, r, x, u);
        ConcludeOff(Placed(a, x, Here(u), now), Placed(b, x, Here(u), now), t, r, scopes, x, u, MissingHere(a, x, u),
            now);
    }
  }

  lemma StepOff(a: Db, b: Db, t: int, r: int, scopes: seq<int>, x: int, now: int)
    requires SameOff(a, b, t, r) && r !in a.scopes && x != r && Away(a, x, t) && Away(b, x, t)
    ensures SameOff(SingleRule(a, scopes, x, now, false).0, SingleRule(b, scopes, x, now, false).0, t, r)
  {
    PlaceOff(a, b, t, r, x);
    AwayPlace(a, x, t);
    match PlaceOf(a, x) {
      case NoClient => OrphanOff(a, b, t, r, x, now);
      case ManyClients => OrphanOff(a, b, t, r, x, now);
      case Gone(u) =>
        NoteMissingOff(a, b, t, r, Key(x, u), now);
        OrphanOff(NoteMissing(a, Key(x, u), now), NoteMissing(b, Key(x, u), now), t, r, x, now);
      case Renamed(u) =>
        NoteMissingOff(a, b, t, r, Key(x, u), now);
        OrphanOff(NoteMissing(a, Key(x, u), now), NoteMissing(b, Key(x, u), now), t, r, x, now);
      case _ => RowStepOff(a, b, t, r, scopes, x, now);
    }
  }

  // The held row ------------------------------------------------------------

  /** A step on another rule neither enters the row nor touches its clients. */
  lemma StepKeepsRow(a: Db, t: int, r: int, scopes: seq<int>, x: int, now: int, y: int)
    requires IsSingle(a, x) && ScopesListed(a, scopes) && Away(a, x, t)
    ensures var b := SingleRule(a, scopes, x, now, false).0;
            (Key(y, t) in b.clients <==> Key(y, t) in a.clients)
                && (Key(y, t) in a.clients ==> b.clients[Key(y, t)] == a.clients[Key(y, t)])
  {
    SingleRuleFate(a, scopes, x, now);
    AwayPlace(a, x, t);
    assert Key(y, t).rule == y && Key(y, t).traffic == t;
    if y == x { OwnKeyAway(a, scopes, x, t, now); }
  }

  lemma OwnKeyAway(a: Db, scopes: seq<int>, x: int, t: int, now: int)
    requires IsSingle(a, x) && ScopesListed(a, scopes) && Away(a, x, t)
    ensures Key(x, t) !in SingleRule(a, scopes, x, now, false).0.clients && Key(x, t) !in a.clients
  {
    SingleRuleFate(a, scopes, x, now);
    AwayPlace(a, x, t);
    assert Key(x, t).rule == x && Key(x, t).traffic == t;
  }

  lemma StepKeepsAway(a: Db, t: int, scopes: seq<int>, x: int, now: int, y: int)
    requires IsSingle(a, x) && ScopesListed(a, scopes) && Away(a, x, t) && y !in a.scopes && t in a.traffic
    requires var b := SingleRule(a, scopes, x, now, false).0; IsSingle(b, y) && Away(a, y, t)
    ensures Away(SingleRule(a, scopes, x, now, false).0, y, t)
  {
    SingleRuleFate(a, scopes, x, now);
    AwayPlace(a, x, t);
  }

  lemma HeldStep(a: Db, t: int, r: int, p: int, scopes: seq<int>, x: int, now: int)
    requires Held(a, t, r, p) && IsSingle(a, x) && x != r && ScopesListed(a, scopes)
    ensures var b := SingleRule(a, scopes, x, now, false).0;
            Held(b, t, r, p) && b.clients[Key(p, t)] == a.clients[Key(p, t)] && b.rules[r] == a.rules[r]
  {
    var b := SingleRule(a, scopes, x, now, false).0;
    SingleRuleFate(a, scopes, x, now);
    StepKeepsRow(a, t, r, scopes, x, now, p);
    assert x != p;
    forall y | b.Owns(y, t) ensures y == p { StepKeepsRow(a, t, r, scopes, x, now, y); assert a.Owns(y, t); }
    forall k | k in b.clients && k.rule == r ensures k.traffic == t {}
    forall y | IsSingle(b, y) && y != r ensures Away(b, y, t) {
      assert IsSingle(a, y);
      StepKeepsAway(a, t, scopes, x, now, y);
    }
  }

  /** A step on another rule keeps the tables alike. */
  lemma TwinStep(a: Db, b: Db, t: int, r: int, s: int, p: int, scopes: seq<int>, x: int, now: int)
    requires Twin(a, b, t, r, s, p) && IsSingle(a, x) && x != r && ScopesListed(a, scopes)
    ensures Twin(SingleRule(a, scopes, x, now, false).0, SingleRule(b, scopes, x, now, false).0, t, r, s, p)
  {
    assert IsSingle(b, x) && ScopesListed(b, scopes) by {
      forall z | z in scopes ensures z in b.scopes && b.Active(z) { assert z != r; }
    }
    StepOff(a, b, t, r, scopes, x, now);
    HeldStep(a, t, r, p, scopes, x, now);
    HeldStep(b, t, r, s, scopes, x, now);
    SingleRuleFate(a, scopes, x, now);
  }

  // The step on the rule itself -------------------------------------------------

  lemma HolderPlace(a: Db, t: int, r: int)
    requires Held(a, t, r, r)
    ensures PlaceOf(a, r) == Here(t)
  {
    assert t in a.ClientsOf(r) by { assert Key(r, t) in a.clients; }
    assert a.ClientsOf(r) == {t};
  }

  /** The account after the rule's client was put in place: at most its inbound differs. */
  lemma PlacedHolder(a: Db, t: int, r: int, now: int)
    requires Held(a, t, r, r)
    ensures var m := Placed(a, r, Here(t), now);
            && m == a.(clients := m.clients) && m.clients.Keys == a.clients.Keys
            && (forall k :: k in a.clients && k != Key(r, t) ==> m.clients[k] == a.clients[k])
            && SameAccount(a.clients[Key(r, t)], m.clients[Key(r, t)]) && m.clients[Key(r, t)].missingAt.None?
            && m.clients[Key(r, t)].email == a.clients[Key(r, t)].email
  {
  }

  lemma HolderJoins(m: Db, t: int, r: int, s: int, scopes: seq<int>)
    requires r in m.rules && r !in m.scopes && Holds(m, t, r) && ScopesListed(m, scopes) && s in scopes
             && ScopeAdmits(m, s, r, t) && t in m.traffic
    ensures VerdictOn(m, scopes, r, t).Join?
    ensures var p := VerdictOn(m, scopes, r, t).scope;
            p in scopes && p in m.scopes && m.Active(p) && p != r && ScopeAdmits(m, p, r, t) && Key(p, t) !in m.clients
  {
    CompatibleFacts(m, scopes, r, t);
    forall x | x in m.scopes ensures !m.Owns(x, t) { assert x != r; }
    assert !m.ScopeOn(t, s) && s != r;
  }

  lemma JoinedHolds(a: Db, m: Db, t: int, r: int, p: int, now: int)
    requires Held(a, t, r, r) && m == a.(clients := m.clients) && m.clients.Keys == a.clients.Keys
    requires forall k :: k in a.clients && k != Key(r, t) ==> m.clients[k] == a.clients[k]
    requires SameAccount(a.clients[Key(r, t)], m.clients[Key(r, t)]) && m.clients[Key(r, t)].missingAt.None?
    requires p in a.scopes && a.Active(p) && p != r && a.rules[p].factorPpm == a.rules[r].factorPpm
             && Key(p, t) !in m.clients
    ensures var b := JoinScope(m, p, r, t, now);
            Held(b, t, r, p) && SameOff(a, b, t, r) && SameAccount(a.clients[Key(r, t)], b.clients[Key(p, t)])
  {
    var b := JoinScope(m, p, r, t, now);
    assert b.clients == m.clients[Key(p, t) := m.clients[Key(r, t)]];
    forall x | b.Owns(x, t) ensures x == p { if x != p { assert a.Owns(x, t); } }
    forall y | IsSingle(b, y) && y != r ensures Away(b, y, t) { assert IsSingle(a, y) && Away(a, y, t); }
  }

  /**
   * The step on the rule that still holds the row merges it into an admitting scope: its account goes over, and the
   * tables stay alike.
   */
  lemma MergeStep(a: Db, b: Db, t: int, r: int, s: int, scopes: seq<int>, now: int) returns (p: int)
    requires Twin(a, b, t, r, s, r) && ScopesListed(a, scopes) && s in scopes
    ensures p != r && Twin(SingleRule(a, scopes, r, now, false).0, b, t, r, s, p)
  {
    HolderPlace(a, t, r);
    PlacedHolder(a, t, r, now);
    var m := Placed(a, r, Here(t), now);
    forall x | m.Owns(x, t) ensures x == r { assert a.Owns(x, t); }
    assert ScopeAdmits(m, s, r, t);
    HolderJoins(m, t, r, s, scopes);
    p := VerdictOn(m, scopes, r, t).scope;
    JoinedHolds(a, m, t, r, p, now);
    JoinedTwin(a, b, SingleRule(a, scopes, r, now, false).0, t, r, s, p);
  }

  lemma JoinedTwin(a: Db, b: Db, c: Db, t: int, r: int, s: int, p: int)
    requires Twin(a, b, t, r, s, r) && Held(c, t, r, p) && SameOff(a, c, t, r)
             && SameAccount(a.clients[Key(r, t)], c.clients[Key(p, t)])
    requires c.rules[r].factorPpm == a.rules[r].factorPpm
    ensures Twin(c, b, t, r, s, p)
  {
  }

  // Whole reconciles --------------------------------------------------------

  /** `ls` is `rs` with r inserted at one place. */
  predicate Inserted(ls: seq<int>, rs: seq<int>, r: int) {
    ls != [] && ((ls[0] == r && ls[1..] == rs) || (rs != [] && ls[0] == rs[0] && Inserted(ls[1..], rs[1..], r)))
  }

  lemma LeastFirst(s: set<int>, m: int)
    requires m in s && forall x :: x in s ==> m <= x
    ensures Ascending(s) == [m] + Ascending(s - {m})
  {
  }

  lemma InsertedHere(ls: seq<int>, rs: seq<int>, r: int)
    requires ls == [r] + rs
    ensures Inserted(ls, rs, r)
  {
    assert ls[1..] == rs;
  }

  lemma InsertedLater(ls: seq<int>, rs: seq<int>, r: int, m: int, ls': seq<int>, rs': seq<int>)
    requires ls == [m] + ls' && rs == [m] + rs' && Inserted(ls', rs', r)
    ensures Inserted(ls, rs, r)
  {
    assert ls[1..] == ls' && rs[1..] == rs';
  }

  lemma {:induction false} InsertedAscending(s: set<int>, r: int)
    requires r !in s
    ensures Inserted(Ascending(s + {r}), Ascending(s), r)
    decreases |s|
  {
    var m := Min(s + {r});
    if m == r { InsertedFirst(s, r); } else { InsertedDeeper(s, r, m); }
  }

  lemma InsertedFirst(s: set<int>, r: int)
    requires r !in s && forall x :: x in s ==> r <= x
    ensures Inserted(Ascending(s + {r}), Ascending(s), r)
  {
    LeastFirst(s + {r}, r);
    assert s + {r} - {r} == s;
    InsertedHere(Ascending(s + {r}), Ascending(s), r);
  }

  lemma LeastThen(s: set<int>, m: int, rest: set<int>)
    requires m in s && (forall x :: x in s ==> m <= x) && rest == s - {m}
    ensures Ascending(s) == [m] + Ascending(rest)
  {
    LeastFirst(s, m);
  }

  lemma WithoutLeast(s: set<int>, r: int, m: int, rest: set<int>)
    requires r !in s && m in s && m != r && rest == s - {m}
    ensures rest + {r} == s + {r} - {m} && r !in rest && |rest| < |s|
  {
  }

  lemma InsertedDeeper(s: set<int>, r: int, m: int)
    requires r !in s && m in s && forall x :: x in s + {r} ==> m <= x
    ensures Inserted(Ascending(s + {r}), Ascending(s), r)
    decreases |s|, 0
  {
    var rest := s - {m};
    WithoutLeast(s, r, m, rest);
    InsertedAscending(rest, r);
    LeastThen(s + {r}, m, rest + {r});
    LeastThen(s, m, rest);
    InsertedLater(Ascending(s + {r}), Ascending(s), r, m, Ascending(rest + {r}), Ascending(rest));
  }

  lemma SinglesFirst(db: Db, scopes: seq<int>, rules: seq<int>, now: int)
    requires rules != []
    ensures SingleRules(db, scopes, rules, now, false).0
            == SingleRules(SingleRule(db, scopes, rules[0], now, false).0, scopes, rules[1..], now, false).0
  {
  }

  /** The rules still listed are active single-user rules, each once, and none is r. */
  ghost predicate Listed(db: Db, rs: seq<int>, r: int) {
    Increasing(rs) && forall x :: x in rs ==> IsSingle(db, x) && x != r
  }

  lemma ListedStep(a: Db, scopes: seq<int>, rs: seq<int>, r: int, now: int)
    requires rs != [] && Listed(a, rs, r) && ScopesListed(a, scopes)
    ensures var m := SingleRule(a, scopes, rs[0], now, false).0; Listed(m, rs[1..], r) && ScopesListed(m, scopes)
  {
    var m := SingleRule(a, scopes, rs[0], now, false).0;
    assert rs[0] in rs && forall x :: x in rs <==> x == rs[0] || x in rs[1..];
    SingleRuleFate(a, scopes, rs[0], now);
    forall x | x in rs[1..] ensures IsSingle(m, x) && x != r {
      TailAbove(rs, x);
      SamePlace(a, m, rs[0], x);
    }
  }

  lemma ListedMerge(a: Db, b: Db, c: Db, rs: seq<int>, t: int, r: int, scopes: seq<int>)
    requires SameOff(a, b, t, r) && SameOff(c, b, t, r) && Listed(a, rs, r) && ScopesListed(a, scopes) && r !in a.scopes
    ensures Listed(c, rs, r) && ScopesListed(c, scopes)
  {
  }

  /**
   * The rules half of a reconcile keeps the tables alike; on the side where r still held the row, it merges r on the
   * way.
   */
  lemma {:induction false} TwinSingles(a: Db, b: Db, t: int, r: int, s: int, p: int, scopes: seq<int>, ls: seq<int>,
      rs: seq<int>, now: int)
    returns (q: int)
    requires Twin(a, b, t, r, s, p) && ScopesListed(a, scopes) && s in scopes && Listed(a, rs, r)
    requires if p == r then Inserted(ls, rs, r) else ls == rs
    ensures q != r && Twin(SingleRules(a, scopes, ls, now, false).0, SingleRules(b, scopes, rs, now, false).0, t, r,
            s, q)
    decreases |ls|
  {
    if ls == [] {
      q := p;
    } else if p == r && ls[0] == r {
      q := MergeThenRest(a, b, t, r, s, scopes, ls, rs, now);
    } else {
      assert rs != [] && ls[0] == rs[0] && rs[0] in rs;
      SinglesFirst(a, scopes, ls, now);
      SinglesFirst(b, scopes, rs, now);
      TwinStep(a, b, t, r, s, p, scopes, rs[0], now);
      ListedStep(a, scopes, rs, r, now);
      q := TwinSingles(SingleRule(a, scopes, rs[0], now, false).0, SingleRule(b, scopes, rs[0], now, false).0, t, r,
          s, p, scopes, ls[1..], rs[1..], now);
    }
  }

  lemma MergeThenRest(a: Db, b: Db, t: int, r: int, s: int, scopes: seq<int>, ls: seq<int>, rs: seq<int>, now: int)
      returns (q: int)
    requires Twin(a, b, t, r, s, r) && ScopesListed(a, scopes) && s in scopes && Listed(a, rs, r)
    requires ls != [] && ls[0] == r && Inserted(ls, rs, r)
    ensures q != r && Twin(SingleRules(a, scopes, ls, now, false).0, SingleRules(b, scopes, rs, now, false).0, t, r,
            s, q)
    decreases |ls|, 0
  {
    assert ls[1..] == rs by { HeadInserted(a, ls, rs, r); }
    SinglesFirst(a, scopes, ls, now);
    q := MergeStep(a, b, t, r, s, scopes, now);
    var c := SingleRule(a, scopes, r, now, false).0;
    ListedMerge(a, b, c, rs, t, r, scopes);
    TwinSinglesMerged(c, b, t, r, s, q, scopes, rs, now);
  }

  lemma HeadInserted(a: Db, ls: seq<int>, rs: seq<int>, r: int)
    requires Inserted(ls, rs, r) && ls[0] == r && Listed(a, rs, r)
    ensures ls[1..] == rs
  {
    if rs != [] { assert rs[0] in rs; }
  }

  lemma {:induction false} TwinSinglesMerged(a: Db, b: Db, t: int, r: int, s: int, p: int, scopes: seq<int>,
      rs: seq<int>, now: int)
    requires Twin(a, b, t, r, s, p) && p != r && ScopesListed(a, scopes) && Listed(a, rs, r)
    ensures Twin(SingleRules(a, scopes, rs, now, false).0, SingleRules(b, scopes, rs, now, false).0, t, r, s, p)
    decreases |rs|
  {
    if rs != [] {
      assert rs[0] in rs;
      SinglesFirst(a, scopes, rs, now);
      SinglesFirst(b, scopes, rs, now);
      TwinStep(a, b, t, r, s, p, scopes, rs[0], now);
      ListedStep(a, scopes, rs, r, now);
      TwinSinglesMerged(SingleRule(a, scopes, rs[0], now, false).0, SingleRule(b, scopes, rs[0], now, false).0, t, r,
          s, p, scopes, rs[1..], now);
    }
  }

  lemma TwinPersistent(a: Db, b: Db, t: int, r: int, s: int, p: int)
    requires Twin(a, b, t, r, s, p)
    ensures PersistentIds(b) == PersistentIds(a) && s in PersistentIds(a)
  {
    forall x ensures x in PersistentIds(b) <==> x in PersistentIds(a) {}
  }

  lemma TwinSingleIds(a: Db, b: Db, t: int, r: int, s: int, p: int)
    requires Twin(a, b, t, r, s, p)
    ensures r !in SingleIds(b, None) && SingleIds(a, None) == if p == r then
              SingleIds(b, None) + {r} else SingleIds(b, None)
    ensures forall x :: x in SingleIds(b, None) ==> IsSingle(a, x)
  {
    forall x ensures x in SingleIds(a, None) <==> x in SingleIds(b, None) || (x == r && p == r) {}
  }

  lemma TwinListings(a: Db, b: Db, t: int, r: int, s: int, p: int)
    requires Twin(a, b, t, r, s, p)
    ensures ListPersistentScopes(b) == ListPersistentScopes(a) && s in ListPersistentScopes(a)
    ensures Listed(a, ListSingles(b, None), r)
    ensures if p == r then Inserted(ListSingles(a, None), ListSingles(b, None), r) else
                             ListSingles(a, None) == ListSingles(b, None)
  {
    TwinPersistent(a, b, t, r, s, p);
    TwinSingleIds(a, b, t, r, s, p);
    var ids := SingleIds(b, None);
    forall x | x in ListSingles(b, None) ensures IsSingle(a, x) && x != r { assert x in ids; }
    if p == r { InsertedAscending(ids, r); }
  }

  lemma TwinRules(a: Db, b: Db, t: int, r: int, s: int, p: int, now: int) returns (q: int)
    requires Twin(a, b, t, r, s, p)
    ensures q != r && Twin(Rules(a, None, now, false).0, Rules(b, None, now, false).0, t, r, s, q)
  {
    TwinListings(a, b, t, r, s, p);
    ListedScopes(a);
    q := TwinSingles(a, b, t, r, s, p, ListPersistentScopes(a), ListSingles(a, None), ListSingles(b, None), now);
  }

  // Policies ----------------------------------------------------------------

  lemma StaleReads(a: Db, b: Db, p: Policy)
    requires b.traffic == a.traffic && b.members == a.members
    ensures Resolve(a, p) == Resolve(b, p) && Stale(a, p, None) == Stale(b, p, None)
  {
    assert b.RowsByEmail(p.email) == a.RowsByEmail(p.email);
  }

  /** Repairing policies reads the panel's rows only. */
  lemma {:induction false} FollowReads(a: Db, b: Db, table: Table, listed: Table, ids: seq<int>, now: int)
    requires b.traffic == a.traffic && b.members == a.members
    ensures FollowAll(a, table, listed, ids, None, now) == FollowAll(b, table, listed, ids, None, now)
    decreases |ids|
  {
    if ids != [] {
      if ids[0] in listed {
        StaleReads(a, b, listed[ids[0]]);
        FollowReads(a, b, FollowOne(a, table, ids[0], listed[ids[0]], None, now), listed, ids[1..], now);
      } else {
        FollowReads(a, b, table, listed, ids[1..], now);
      }
    }
  }

  lemma HeldWithPolicies(a: Db, c: Db, t: int, r: int, p: int)
    requires Held(a, t, r, p) && c == a.(excludes := c.excludes, overrides := c.overrides)
    ensures Held(c, t, r, p)
  {
    forall x | c.Owns(x, t) ensures x == p { assert a.Owns(x, t); }
    forall x | IsSingle(c, x) && x != r ensures Away(c, x, t) { assert IsSingle(a, x) && Away(a, x, t); }
  }

  lemma TwinPolicies(a: Db, b: Db, t: int, r: int, s: int, p: int, now: int)
    requires Twin(a, b, t, r, s, p)
    ensures Twin(Policies(a, None, now, false), Policies(b, None, now, false), t, r, s, p)
  {
    FollowReads(a, b, a.excludes, a.excludes, ListActive(a.excludes), now);
    FollowReads(a, b, a.overrides, a.overrides, ListActive(a.overrides), now);
    HeldWithPolicies(a, Policies(a, None, now, false), t, r, p);
    HeldWithPolicies(b, Policies(b, None, now, false), t, r, s);
  }

  // Enrolment ---------------------------------------------------------------

  lemma HeldWithEvents(a: Db, c: Db, t: int, r: int, p: int)
    requires Held(a, t, r, p) && c == a.(events := c.events)
    ensures Held(c, t, r, p)
  {
    forall x | c.Owns(x, t) ensures x == p { assert a.Owns(x, t); }
    forall x | IsSingle(c, x) && x != r ensures Away(c, x, t) { assert IsSingle(a, x) && Away(a, x, t); }
  }

  /** The held row is passed over. */
  lemma EnrolSkipsRow(a: Db, t: int, r: int, p: int, z: int, now: int)
    requires Held(a, t, r, p) && a.Active(z)
    ensures var c := EnrolClient(a, z, t, now); c == a.(events := c.events)
  {
    if Key(z, t) !in a.clients {
      assert p in a.RulesOn(t, {Active}) by { assert Key(p, t) in a.clients; }
      assert z != p && p in OtherOwners(a, t, z);
    }
  }

  lemma HeldWithClient(a: Db, c: Db, t: int, r: int, p: int, k: Key, rc: RuleClient)
    requires Held(a, t, r, p) && k.traffic != t && k.rule in a.scopes
    requires c == a.(clients := a.clients[k := rc], events := c.events)
    ensures Held(c, t, r, p) && c.clients[Key(p, t)] == a.clients[Key(p, t)]
  {
    assert Key(p, t) != k;
    forall x | c.Owns(x, t) ensures x == p { assert Key(x, t) != k && a.Owns(x, t); }
    forall x | IsSingle(c, x) && x != r ensures Away(c, x, t) { assert IsSingle(a, x) && Away(a, x, t); }
  }

  lemma EnrolIs(a: Db, z: int, u: int, now: int)
    ensures var c := EnrolClient(a, z, u, now);
            c == a.(events := c.events)
            || (u in a.traffic && c == a.(clients := a.clients[Key(z, u) := FreshClient(a.traffic[u])],
                events := c.events))
  {
    if u in a.traffic && Key(z, u) !in a.clients && OtherOwners(a, u, z) != {} {
      var others := OtherOwners(a, u, z);
      OnceLogs(a, z, ScopeSkip, Owned(u, Min(others)), now, AddEventOnce(a, z, ScopeSkip, Owned(u, Min(others)), now));
    }
  }

  lemma EnrolHeldElsewhere(a: Db, t: int, r: int, p: int, z: int, u: int, now: int)
    requires Held(a, t, r, p) && u != t && z in a.scopes
    ensures var c := EnrolClient(a, z, u, now); Held(c, t, r, p) && c.clients[Key(p, t)] == a.clients[Key(p, t)]
  {
    var c := EnrolClient(a, z, u, now);
    EnrolIs(a, z, u, now);
    if c == a.(events := c.events) {
      HeldWithEvents(a, c, t, r, p);
    } else {
      HeldWithClient(a, c, t, r, p, Key(z, u), FreshClient(a.traffic[u]));
    }
  }

  lemma OwnersOff(a: Db, b: Db, t: int, r: int, u: int, z: int)
    requires SameOff(a, b, t, r) && u != t
    requires (forall k :: k in a.clients && k.rule == r ==> k.traffic == t)
             && (forall k :: k in b.clients && k.rule == r ==> k.traffic == t)
    ensures OtherOwners(a, u, z) == OtherOwners(b, u, z)
  {
    forall x ensures x in a.RulesOn(u, {Active}) <==> x in b.RulesOn(u, {Active}) {
      assert x in a.RulesOn(u, {Active}) <==> a.Owns(x, u) by { if a.Owns(x, u) { assert Key(x, u) in a.clients; } }
      assert x in b.RulesOn(u, {Active}) <==> b.Owns(x, u) by { if b.Owns(x, u) { assert Key(x, u) in b.clients; } }
      assert Key(x, u).rule == x && Key(x, u).traffic == u;
    }
  }

  lemma OnceOff(a: Db, b: Db, t: int, r: int, rule: int, kind: EventKind, detail: Detail, now: int)
    requires SameOff(a, b, t, r)
    ensures SameOff(AddEventOnce(a, rule, kind, detail, now), AddEventOnce(b, rule, kind, detail, now), t, r)
  {
    var c, d := AddEventOnce(a, rule, kind, detail, now), AddEventOnce(b, rule, kind, detail, now);
    OnceLogs(a, rule, kind, detail, now, c);
    OnceLogs(b, rule, kind, detail, now, d);
    EventsApart(a, b, c, d, t, r);
  }

  lemma LogIs(a: Db, rule: Option<int>, kind: EventKind, detail: Detail, now: int)
    ensures a.Log(rule, kind, detail, now) == a.(events := a.Log(rule, kind, detail, now).events)
  {
  }

  lemma OnceIs(a: Db, rule: int, kind: EventKind, detail: Detail, now: int)
    ensures AddEventOnce(a, rule, kind, detail, now) == a
            || AddEventOnce(a, rule, kind, detail, now) == a.Log(Some(rule), kind, detail, now)
  {
  }

  lemma EventsSelf(a: Db, b: Db)
    requires b == a
    ensures b == a.(events := b.events)
  {
  }

  lemma OnceLogs(a: Db, rule: int, kind: EventKind, detail: Detail, now: int, b: Db)
    requires b == AddEventOnce(a, rule, kind, detail, now)
    ensures b == a.(events := b.events)
  {
    OnceIs(a, rule, kind, detail, now);
    if b == a { EventsSelf(a, b); } else { LogIs(a, Some(rule), kind, detail, now); }
  }

  lemma EventsApart(a: Db, b: Db, c: Db, d: Db, t: int, r: int)
    requires SameOff(a, b, t, r) && c == a.(events := c.events) && d == b.(events := d.events)
    ensures SameOff(c, d, t, r)
  {
  }

  lemma EnrolOff(a: Db, b: Db, t: int, r: int, z: int, u: int, now: int)
    requires SameOff(a, b, t, r) && u != t && z != r
    requires (forall k :: k in a.clients && k.rule == r ==> k.traffic == t)
             && (forall k :: k in b.clients && k.rule == r ==> k.traffic == t)
    ensures SameOff(EnrolClient(a, z, u, now), EnrolClient(b, z, u, now), t, r)
  {
    OwnersOff(a, b, t, r, u, z);
    var k, others := Key(z, u), OtherOwners(a, u, z);
    assert k.traffic != t && k.rule != r;
    if u in a.traffic && k !in a.clients {
      if others != {} {
        OnceOff(a, b, t, r, z, ScopeSkip, Owned(u, Min(others)), now);
      } else {
        var rc := FreshClient(a.traffic[u]);
        ClientOff(a, b, t, r, k, rc);
        EventsOff(a.PutClient(k, rc), b.PutClient(k, rc), t, r, Some(z), ScopeEnroll, OnTraffic(u), now);
      }
    }
  }

  lemma TwinEnrolClient(a: Db, b: Db, t: int, r: int, s: int, p: int, z: int, u: int, now: int)
    requires Twin(a, b, t, r, s, p) && z in a.scopes && a.Active(z)
    ensures Twin(EnrolClient(a, z, u, now), EnrolClient(b, z, u, now), t, r, s, p)
    ensures EnrolClient(a, z, u, now).rules == a.rules && EnrolClient(a, z, u, now).scopes == a.scopes
  {
    assert z != r;
    if u == t {
      EnrolSkipsRow(a, t, r, p, z, now);
      EnrolSkipsRow(b, t, r, s, z, now);
      HeldWithEvents(a, EnrolClient(a, z, t, now), t, r, p);
      HeldWithEvents(b, EnrolClient(b, z, t, now), t, r, s);
    } else {
      EnrolOff(a, b, t, r, z, u, now);
      EnrolHeldElsewhere(a, t, r, p, z, u, now);
      EnrolHeldElsewhere(b, t, r, s, z, u, now);
    }
  }

  lemma {:induction false} TwinEnrolClients(a: Db, b: Db, t: int, r: int, s: int, p: int, z: int, us: seq<int>,
      now: int)
    requires Twin(a, b, t, r, s, p) && z in a.scopes && a.Active(z)
    ensures Twin(EnrolClients(a, z, us, now), EnrolClients(b, z, us, now), t, r, s, p)
    ensures EnrolClients(a, z, us, now).rules == a.rules && EnrolClients(a, z, us, now).scopes == a.scopes
    decreases |us|
  {
    if us != [] {
      TwinEnrolClient(a, b, t, r, s, p, z, us[0], now);
      TwinEnrolClients(EnrolClient(a, z, us[0], now), EnrolClient(b, z, us[0], now), t, r, s, p, z, us[1..], now);
    }
  }

  lemma CandidatesRead(a: Db, b: Db, z: int)
    requires b.traffic == a.traffic && b.members == a.members && b.scopes == a.scopes
    ensures ScopeCandidates(b, z) == ScopeCandidates(a, z)
  {
    if z in a.scopes {
      var f := a.scopes[z];
      assert (set t | t in b.traffic && FilterAdmits(b, f.inboundId, f.limitedOnly, f.includeDisabled, t))
             == (set t | t in a.traffic && FilterAdmits(a, f.inboundId, f.limitedOnly, f.includeDisabled, t));
      SortReads(a, b, Ascending(set t | t in a.traffic
          && FilterAdmits(a, f.inboundId, f.limitedOnly, f.includeDisabled, t)));
    }
  }

  lemma {:induction false} InsertReads(a: Db, b: Db, x: int, xs: seq<int>)
    requires b.traffic == a.traffic
    ensures InsertBy(x, xs, (y: int, z: int) => RowBefore(b, y, z))
            == InsertBy(x, xs, (y: int, z: int) => RowBefore(a, y, z))
  {
    if xs != [] { InsertReads(a, b, x, xs[1..]); }
  }

  lemma {:induction false} SortReads(a: Db, b: Db, xs: seq<int>)
    requires b.traffic == a.traffic
    ensures SortBy(xs, (y: int, z: int) => RowBefore(b, y, z)) == SortBy(xs, (y: int, z: int) => RowBefore(a, y, z))
  {
    if xs != [] {
      SortReads(a, b, xs[..|xs| - 1]);
      InsertReads(a, b, xs[|xs| - 1], SortBy(xs[..|xs| - 1], (y: int, z: int) => RowBefore(a, y, z)));
    }
  }

  lemma {:induction false} TwinEnrolScopes(a: Db, b: Db, t: int, r: int, s: int, p: int, scopes: seq<int>, now: int)
    requires Twin(a, b, t, r, s, p) && ScopesListed(a, scopes)
    ensures Twin(EnrolScopes(a, scopes, now), EnrolScopes(b, scopes, now), t, r, s, p)
    decreases |scopes|
  {
    if scopes != [] {
      var z := scopes[0];
      assert z in scopes && forall x :: x in scopes[1..] ==> x in scopes;
      CandidatesRead(a, b, z);
      TwinEnrolClients(a, b, t, r, s, p, z, ScopeCandidates(a, z), now);
      TwinEnrolScopes(EnrolClients(a, z, ScopeCandidates(a, z), now), EnrolClients(b, z, ScopeCandidates(a, z), now),
          t, r, s, p, scopes[1..], now);
    }
  }

  // Preparation -------------------------------------------------------------

  lemma TwinReconciled(a: Db, b: Db, t: int, r: int, s: int, p: int, now: int) returns (q: int)
    requires Twin(a, b, t, r, s, p) && now > 0
    ensures Reconcile(a, None, now, false).Ok? && Reconcile(b, None, now, false).Ok?
    ensures q != r && Twin(Reconcile(a, None, now, false).value.0, Reconcile(b, None, now, false).value.0, t, r, s, q)
  {
    q := TwinRules(a, b, t, r, s, p, now);
    TwinPolicies(Rules(a, None, now, false).0, Rules(b, None, now, false).0, t, r, s, q, now);
  }

  lemma TwinEnrolled(a: Db, b: Db, t: int, r: int, s: int, p: int, now: int)
    requires Twin(a, b, t, r, s, p)
    ensures Twin(Enrol(a, now), Enrol(b, now), t, r, s, p)
  {
    TwinPersistent(a, b, t, r, s, p);
    ListedScopes(a);
    TwinEnrolScopes(a, b, t, r, s, p, ListPersistentScopes(a), now);
  }

  lemma PreparedIs(db: Db, now: int)
    requires Reconcile(db, None, now, false).Ok?
    ensures Prepared(db, now) == Ok(Enrol(Reconcile(db, None, now, false).value.0, now))
  {
  }

  /** What a tick decides on stays alike, and the single-user rule has handed the row to a scope. */
  lemma TwinPrepared(a: Db, b: Db, t: int, r: int, s: int, p: int, now: int) returns (q: int)
    requires Twin(a, b, t, r, s, p) && now > 0
    ensures Prepared(a, now).Ok? && Prepared(b, now).Ok?
    ensures q != r && Twin(Prepared(a, now).value, Prepared(b, now).value, t, r, s, q)
  {
    q := TwinReconciled(a, b, t, r, s, p, now);
    PreparedIs(a, now);
    PreparedIs(b, now);
    TwinEnrolled(Reconcile(a, None, now, false).value.0, Reconcile(b, None, now, false).value.0, t, r, s, q, now);
  }
}
