/** Whom enable-all takes, under which factor and scope, and from where, told from the tables before it. */
module BulkEffects {
  import opened Collections
  import opened Model
  import opened Factor
  import opened PolicyTable
  import opened Baselines
  import opened Reconciling
  import opened ReconcileProofs
  import opened ReconcileTheorems
  import opened Ticking
  import opened Commands
  import opened CommandProofs
  import opened BulkProofs
  import opened Enrolment

  /** The rule is active or paused and has a client on the row. */
  predicate Takes(db: Db, r: int, t: int) {
    Key(r, t) in db.clients && r in db.rules && (db.rules[r].state == Active || db.rules[r].state == Paused)
  }

  predicate TakenTwice(db: Db, t: int) {
    exists k, j :: k in db.clients && j in db.clients && k.traffic == t && j.traffic == t && k.rule != j.rule
                   && Takes(db, k.rule, t) && Takes(db, j.rule, t)
  }

  predicate Untaken(db: Db, t: int) {
    forall k :: k in db.clients && k.traffic == t ==> !Takes(db, k.rule, t)
  }

  predicate SoleTaker(db: Db, r: int, t: int) {
    Takes(db, r, t) && forall k :: k in db.clients && k.traffic == t && Takes(db, k.rule, t) ==> k.rule == r
  }

  lemma TakersListed(db: Db, t: int)
    ensures forall r :: r in db.RulesOn(t, {Active, Paused}) <==> Takes(db, r, t)
  {
    forall r ensures r in db.RulesOn(t, {Active, Paused}) <==> Takes(db, r, t) {
      if Takes(db, r, t) { assert Key(r, t).traffic == t && Key(r, t).rule == r; }
    }
  }

  lemma TwoMembers(s: set<int>)
    ensures |s| > 1 ==> exists x, y :: x in s && y in s && x != y
    ensures |s| == 1 ==> forall x, y :: x in s && y in s ==> x == y
  {
    SomeMember(s);
    if x :| x in s {
      var rest := s - {x};
      SomeMember(rest);
      assert s == rest + {x};
      if |s| == 1 { assert rest == {}; }
      if |s| > 1 { var y :| y in rest; }
    }
  }

  lemma NoTakers(db: Db, t: int)
    ensures db.RulesOn(t, {Active, Paused}) == {} <==> Untaken(db, t)
  {
    TakersListed(db, t);
    var rs := db.RulesOn(t, {Active, Paused});
    SomeMember(rs);
    if r :| r in rs { assert Key(r, t).traffic == t && Takes(db, Key(r, t).rule, t); }
    forall k | k in db.clients && k.traffic == t ensures Takes(db, k.rule, t) <==> k.rule in rs {}
  }

  lemma TwoTakers(db: Db, t: int)
    ensures |db.RulesOn(t, {Active, Paused})| > 1 <==> TakenTwice(db, t)
  {
    var rs := db.RulesOn(t, {Active, Paused});
    TakersListed(db, t);
    TwoMembers(rs);
    if |rs| > 1 {
      var x, y :| x in rs && y in rs && x != y;
      assert Key(x, t) in db.clients && Key(y, t) in db.clients && Key(x, t).rule != Key(y, t).rule;
    }
    if TakenTwice(db, t) {
      var k, j :| k in db.clients && j in db.clients && k.traffic == t && j.traffic == t && k.rule != j.rule
                  && Takes(db, k.rule, t) && Takes(db, j.rule, t);
      assert k.rule in rs && j.rule in rs;
      assert {k.rule, j.rule} <= rs;
      assert |{k.rule, j.rule}| == 2;
      assert rs == {k.rule, j.rule} + (rs - {k.rule, j.rule});
    }
  }

  lemma OneTaker(db: Db, r: int, t: int)
    ensures db.RulesOn(t, {Active, Paused}) == {r} <==> SoleTaker(db, r, t)
  {
    var rs := db.RulesOn(t, {Active, Paused});
    TakersListed(db, t);
    if SoleTaker(db, r, t) {
      forall x ensures x in rs <==> x == r { if Takes(db, x, t) { assert Key(x, t).traffic == t; } }
    }
    if rs == {r} {
      assert r in rs;
      forall k | k in db.clients && k.traffic == t && Takes(db, k.rule, t) ensures k.rule == r { assert k.rule in rs; }
    }
  }

  lemma TakersCounted(db: Db, t: int)
    ensures var rs := db.RulesOn(t, {Active, Paused});
            && (|rs| > 1 <==> TakenTwice(db, t)) && (rs == {} <==> Untaken(db, t))
            && (|rs| == 1 ==> SoleTaker(db, Min(rs), t))
            && forall r :: SoleTaker(db, r, t) ==> rs == {r}
  {
    var rs := db.RulesOn(t, {Active, Paused});
    NoTakers(db, t);
    TwoTakers(db, t);
    if |rs| == 1 {
      var r := Min(rs);
      assert |rs - {r}| == 0;
      assert rs == {r};
      OneTaker(db, r, t);
    }
    forall r | SoleTaker(db, r, t) ensures rs == {r} { OneTaker(db, r, t); }
  }

  // One round -------------------------------------------------------------

  /** An active single-user rule of the factor whose one client is on the row. */
  predicate AloneOn(db: Db, factorPpm: int64, r: int, t: int) {
    && t in db.traffic && Key(r, t) in db.clients && r in db.rules && r !in db.scopes
    && db.rules[r].state == Active && db.rules[r].factorPpm == factorPpm
    && (forall k :: k in db.clients && k.rule == r ==> k == Key(r, t))
  }

  predicate Present(db: Db, k: Key) {
    && k in db.clients && k.traffic in db.traffic
    && db.clients[k].missingAt.None? && db.clients[k].email == db.traffic[k.traffic].email
  }

  /** That client is present under the row's email. */
  predicate AdoptableAt(db: Db, factorPpm: int64, r: int, t: int) {
    AloneOn(db, factorPpm, r, t) && Present(db, Key(r, t))
  }

  /** The client is kept, or - its rule would be adopted were it present - marked missing, once. */
  predicate LeftAs(a: Db, b: Db, factorPpm: int64, r: int, t: int) {
    && Key(r, t) in a.clients && Key(r, t) in b.clients
    && if AloneOn(a, factorPpm, r, t) && a.clients[Key(r, t)].missingAt.None?
       then b.clients[Key(r, t)].missingAt.Some? else b.clients[Key(r, t)] == a.clients[Key(r, t)]
  }

  predicate Adoptable(db: Db, s: int, r: int, t: int) {
    s in db.rules && AdoptableAt(db, db.rules[s].factorPpm, r, t)
  }

  /** The scope's own filter lets the row pass, whatever its inbound. */
  predicate Open(db: Db, s: int, t: int) {
    && s in db.scopes && t in db.traffic && (db.scopes[s].limitedOnly ==> db.traffic[t].total > 0)
    && (db.scopes[s].includeDisabled || db.traffic[t].enable)
  }

  /**
   * What enable-all makes of one row under scope s: a client that is there stays; an untaken row is taken afresh; the
   * row of one adoptable rule comes over with its account, the rule merged; any other row is left.
   */
  ghost predicate RowEnabled(a: Db, b: Db, s: int, factorPpm: int64, t: int) {
    && (Key(s, t) in a.clients ==> Key(s, t) in b.clients && b.clients[Key(s, t)] == a.clients[Key(s, t)])
    && (Key(s, t) !in a.clients && Untaken(a, t) ==> Afresh(b, Key(s, t)))
    && (forall r :: Key(s, t) !in a.clients && SoleTaker(a, r, t) ==>
          if AdoptableAt(a, factorPpm, r, t)
          then Key(s, t) in b.clients && b.clients[Key(s, t)] == a.clients[Key(r, t)] && r in b.rules
               && b.rules[r].state == Merged
          else Key(s, t) !in b.clients && r in b.rules && b.rules[r] == a.rules[r] && LeftAs(a, b, factorPpm, r, t))
  }

  ghost predicate RowOutcome(a: Db, b: Db, s: int, t: int) {
    s in a.rules && RowEnabled(a, b, s, a.rules[s].factorPpm, t)
  }

  /** The row, its clients and their rules are as before. */
  ghost predicate RowSame(a: Db, b: Db, t: int) {
    && b.traffic == a.traffic && b.scopes == a.scopes && b.rules.Keys == a.rules.Keys
    && (forall x :: Key(x, t) in b.clients <==> Key(x, t) in a.clients)
    && (forall x :: Key(x, t) in a.clients ==> b.clients[Key(x, t)] == a.clients[Key(x, t)])
    && (forall x :: Key(x, t) in a.clients && x in a.rules ==> b.rules[x] == a.rules[x])
  }

  /** Apart from the scope's, the clients are of the same rules and rows. */
  ghost predicate OthersSeated(a: Db, b: Db, s: int) {
    forall k: Key :: k.rule != s ==> (k in b.clients <==> k in a.clients)
  }

  /** The scope itself is as before. */
  predicate ScopeSame(a: Db, b: Db, s: int) {
    s in a.scopes && s in b.scopes && b.scopes[s] == a.scopes[s] && s in a.rules && s in b.rules
        && b.rules[s] == a.rules[s]
  }

  lemma OnlyClient(db: Db, r: int, t: int)
    requires Key(r, t) in db.clients
    ensures |db.ClientsOf(r)| == 1 <==> forall k :: k in db.clients && k.rule == r ==> k == Key(r, t)
  {
    var ts := db.ClientsOf(r);
    assert t in ts;
    TwoMembers(ts);
    if |ts| == 1 {
      forall k | k in db.clients && k.rule == r ensures k == Key(r, t) { assert k.traffic in ts; }
    }
    if forall k :: k in db.clients && k.rule == r ==> k == Key(r, t) { assert ts == {t}; }
  }

  lemma NoOtherScope(a: Db, s: int, r: int, t: int)
    requires SoleTaker(a, r, t) && r !in a.scopes
    ensures !a.ScopeOn(t, s)
  {
    forall x ensures x in a.scopes ==> !a.Owns(x, t) {
      if Key(x, t) in a.clients { assert Key(x, t).traffic == t && Key(x, t).rule == x; }
    }
  }

  lemma AdoptsExactly(a: Db, s: int, r: int, t: int, now: int)
    requires SoleTaker(a, r, t) && Open(a, s, t) && s in a.rules && a.Active(r) && r !in a.scopes
    ensures Adopt(a, s, r, t, now).1 <==> Adoptable(a, s, r, t)
  {
    OnlyClient(a, r, t);
    NoOtherScope(a, s, r, t);
  }

  lemma JoinHere(a: Db, s: int, r: int, t: int, now: int)
    requires Key(r, t) in a.clients && Key(s, t) !in a.clients && s != r && r in a.rules && s in a.rules
             && s in a.scopes
    ensures var b := JoinScope(a, s, r, t, now);
            && b.clients == a.clients[Key(s, t) := a.clients[Key(r, t)]] && b.traffic == a.traffic
                && b.scopes == a.scopes
            && b.rules.Keys == a.rules.Keys && b.rules[r].state == Merged && forall x ::
                  x in a.rules && x != r ==> b.rules[x] == a.rules[x]
  {
  }

  lemma AdoptedHere(a: Db, s: int, r: int, t: int, now: int)
    requires Adopt(a, s, r, t, now).1 && Key(s, t) !in a.clients && s != r && Adoptable(a, s, r, t) && s in a.scopes
    ensures var b := Adopt(a, s, r, t, now).0;
            && b.clients == a.clients[Key(s, t) := a.clients[Key(r, t)]] && b.traffic == a.traffic
                && b.scopes == a.scopes
            && b.rules.Keys == a.rules.Keys && b.rules[r].state == Merged && forall x ::
                  x in a.rules && x != r ==> b.rules[x] == a.rules[x]
  {
    JoinHere(a, s, r, t, now);
  }

  lemma NotAdopted(a: Db, s: int, r: int, t: int, now: int)
    requires !Adopt(a, s, r, t, now).1
    ensures var b := Adopt(a, s, r, t, now).0;
            && b.clients.Keys == a.clients.Keys && b.traffic == a.traffic && b.scopes == a.scopes && b.rules == a.rules
            && forall k :: k in a.clients && k != Key(r, t) ==> b.clients[k] == a.clients[k]
  {
  }

  lemma NotAdoptedLeft(a: Db, s: int, r: int, t: int, now: int)
    requires SoleTaker(a, r, t) && Open(a, s, t) && s in a.rules && a.Active(r) && r !in a.scopes
    requires !Adoptable(a, s, r, t)
    ensures LeftAs(a, Adopt(a, s, r, t, now).0, a.rules[s].factorPpm, r, t)
  {
    OnlyClient(a, r, t);
    AdoptsExactly(a, s, r, t, now);
  }

  /** The round of a row of one taker. */
  lemma TakerRound(a: Db, s: int, t: int, now: int, r: int)
    requires Open(a, s, t) && a.Active(s) && Key(s, t) !in a.clients && SoleTaker(a, r, t)
    ensures EnableClient(a, s, t, now).Ok?
    ensures var b := EnableClient(a, s, t, now).value;
            && RowOutcome(a, b, s, t) && ScopeSame(a, b, s) && OthersSeated(a, b, s) && b.traffic == a.traffic
                && b.scopes == a.scopes
            && (forall k: Key :: k.traffic != t ==> (k in b.clients <==> k in a.clients))
            && (forall k: Key :: k.traffic != t && k in a.clients ==> b.clients[k] == a.clients[k])
            && b.rules.Keys == a.rules.Keys && forall x :: x in a.rules && !Adoptable(a, s, x, t) ==>
                                                           b.rules[x] == a.rules[x]
  {
    TakersCounted(a, t);
    assert a.RulesOn(t, {Active, Paused}) == {r};
    assert Min({r}) == r;
    forall x | SoleTaker(a, x, t) ensures x == r { assert Key(x, t).traffic == t; }
    if r !in a.scopes && a.Active(r) {
      AdoptsExactly(a, s, r, t, now);
      if Adoptable(a, s, r, t) { AdoptedHere(a, s, r, t, now); } else {
        NotAdopted(a, s, r, t, now);
        NotAdoptedLeft(a, s, r, t, now);
      }
    }
  }

  lemma FreeRound(a: Db, s: int, t: int, now: int)
    requires Open(a, s, t) && a.Active(s) && Key(s, t) !in a.clients && Untaken(a, t)
    ensures EnableClient(a, s, t, now).Ok?
    ensures EnableClient(a, s, t, now).value == a.PutClient(Key(s, t), FreshClient(a.traffic[t]))
  {
    TakersCounted(a, t);
  }

  /** A round is refused exactly for a row that two rules take already and the scope does not have. */
  lemma RoundRefused(a: Db, s: int, t: int, now: int)
    ensures EnableClient(a, s, t, now).Err? <==> t in a.traffic && Key(s, t) !in a.clients && TakenTwice(a, t)
    ensures EnableClient(a, s, t, now).Err? ==> EnableClient(a, s, t, now).error == Conflict
  {
    TakersCounted(a, t);
  }

  lemma NotTwice(a: Db, t: int)
    requires !TakenTwice(a, t)
    ensures Untaken(a, t) || exists r :: SoleTaker(a, r, t)
  {
    TakersCounted(a, t);
    var rs := a.RulesOn(t, {Active, Paused});
    if rs != {} { assert |rs| >= 1; assert SoleTaker(a, Min(rs), t); }
  }

  /** One round: its row comes out as told, and every other row is as before. */
  lemma RoundTakes(a: Db, s: int, t: int, now: int)
    requires Open(a, s, t) && a.Active(s) && EnableClient(a, s, t, now).Ok?
    ensures var b := EnableClient(a, s, t, now).value;
            RowOutcome(a, b, s, t) && ScopeSame(a, b, s) && OthersSeated(a, b, s) && forall u ::
                  u != t ==> RowSame(a, b, u)
  {
    RoundRefused(a, s, t, now);
    var b := EnableClient(a, s, t, now).value;
    if Key(s, t) !in a.clients {
      NotTwice(a, t);
      if Untaken(a, t) {
        FreeRound(a, s, t, now);
        UntakenFresh(a, b, s, t);
      } else {
        var r :| SoleTaker(a, r, t);
        TakerRound(a, s, t, now, r);
        forall u | u != t ensures RowSame(a, b, u) { OtherRow(a, b, s, t, u); }
      }
    }
  }

  lemma UntakenFresh(a: Db, b: Db, s: int, t: int)
    requires t in a.traffic && Untaken(a, t) && Key(s, t) !in a.clients && s in a.scopes && s in a.rules
    requires b == a.PutClient(Key(s, t), FreshClient(a.traffic[t]))
    ensures RowOutcome(a, b, s, t) && ScopeSame(a, b, s) && OthersSeated(a, b, s) && forall u ::
              u != t ==> RowSame(a, b, u)
  {
    NoSole(a, t);
  }

  lemma NoSole(a: Db, t: int)
    requires Untaken(a, t)
    ensures forall r :: !SoleTaker(a, r, t)
  {
    forall r ensures !SoleTaker(a, r, t) {
      if Key(r, t) in a.clients { assert Key(r, t).traffic == t; }
    }
  }

  lemma OtherRow(a: Db, b: Db, s: int, t: int, u: int)
    requires u != t && b.traffic == a.traffic && b.scopes == a.scopes && b.rules.Keys == a.rules.Keys
    requires forall k: Key :: k.traffic != t ==> (k in b.clients <==> k in a.clients)
    requires forall k: Key :: k.traffic != t && k in a.clients ==> b.clients[k] == a.clients[k]
    requires forall x :: x in a.rules && !Adoptable(a, s, x, t) ==> b.rules[x] == a.rules[x]
    ensures RowSame(a, b, u)
  {
    forall x | Key(x, u) in a.clients && x in a.rules ensures b.rules[x] == a.rules[x] {
      assert Key(x, u) != Key(x, t);
    }
  }

  // All rounds ------------------------------------------------------------

  /** A row two rules take already, which the scope has not. */
  predicate Clashing(db: Db, s: int, t: int) {
    Key(s, t) !in db.clients && TakenTwice(db, t)
  }

  lemma SameOnRow(a: Db, m: Db, s: int, u: int)
    requires RowSame(a, m, u) && OthersSeated(a, m, s) && ScopeSame(a, m, s)
    ensures Untaken(m, u) == Untaken(a, u) && Clashing(m, s, u) == Clashing(a, s, u)
    ensures forall r :: Takes(m, r, u) == Takes(a, r, u) && SoleTaker(m, r, u) == SoleTaker(a, r, u)
    ensures forall r :: Adoptable(m, s, r, u) == Adoptable(a, s, r, u)
  {
    forall r ensures Takes(m, r, u) == Takes(a, r, u) {}
    forall k: Key | k.traffic == u ensures k in m.clients <==> k in a.clients { assert k == Key(k.rule, u); }
    forall r ensures Adoptable(m, s, r, u) == Adoptable(a, s, r, u) {}
  }

  lemma OutcomeLater(a: Db, m: Db, b: Db, s: int, u: int)
    requires RowSame(a, m, u) && OthersSeated(a, m, s) && ScopeSame(a, m, s) && RowOutcome(m, b, s, u)
    ensures RowOutcome(a, b, s, u)
  {
    SameOnRow(a, m, s, u);
  }

  lemma OutcomeStays(a: Db, m: Db, b: Db, s: int, u: int)
    requires RowOutcome(a, m, s, u) && OthersSeated(a, m, s) && RowSame(m, b, u) && s in a.scopes
    ensures RowOutcome(a, b, s, u)
  {
    forall r | Key(s, u) !in a.clients && SoleTaker(a, r, u) ensures r != s ==> Key(r, u) in m.clients {}
  }

  /** What enable-all makes of the listed rows, and that it touches no other. */
  ghost predicate RowsOutcome(a: Db, b: Db, s: int, ts: seq<int>) {
    && ScopeSame(a, b, s) && OthersSeated(a, b, s)
    && (forall t :: t in ts ==> RowOutcome(a, b, s, t))
    && (forall t :: t !in ts ==> RowSame(a, b, t))
  }

  lemma RowsJoin(a: Db, m: Db, b: Db, s: int, t: int, ts: seq<int>)
    requires ts != [] && ts[0] == t && t !in ts[1..] && RowOutcome(a, m, s, t) && ScopeSame(a, m, s)
             && OthersSeated(a, m, s)
    requires (forall u :: u != t ==> RowSame(a, m, u)) && RowsOutcome(m, b, s, ts[1..])
    ensures RowsOutcome(a, b, s, ts)
  {
    assert forall u :: u in ts <==> u == t || u in ts[1..];
    forall u | u in ts ensures RowOutcome(a, b, s, u) {
      if u == t { OutcomeStays(a, m, b, s, u); } else { OutcomeLater(a, m, b, s, u); }
    }
    forall u | u !in ts ensures RowSame(a, b, u) { assert RowSame(a, m, u) && RowSame(m, b, u); }
  }

  lemma OpenSame(a: Db, m: Db, s: int, t: int, u: int)
    requires ScopeSame(a, m, s) && RowSame(a, m, t)
    ensures Open(m, s, u) == Open(a, s, u)
  {
  }

  lemma LaterRows(a: Db, m: Db, s: int, t: int, us: seq<int>)
    requires ScopeSame(a, m, s) && OthersSeated(a, m, s) && (forall u :: u != t ==> RowSame(a, m, u)) && t !in us
    ensures forall u :: u in us ==> Open(m, s, u) == Open(a, s, u) && Clashing(m, s, u) == Clashing(a, s, u)
  {
    forall u | u in us ensures Open(m, s, u) == Open(a, s, u) && Clashing(m, s, u) == Clashing(a, s, u) {
      OpenSame(a, m, s, u, u);
      SameOnRow(a, m, s, u);
    }
  }

  lemma {:induction false} RoundsRefused(a: Db, s: int, ts: seq<int>, now: int)
    requires Distinct(ts) && a.Active(s) && s in a.scopes && forall t :: t in ts ==> Open(a, s, t)
    ensures EnableClients(a, s, ts, now).Err? <==> exists t :: t in ts && Clashing(a, s, t)
    ensures EnableClients(a, s, ts, now).Err? ==> EnableClients(a, s, ts, now).error == Conflict
    decreases |ts|
  {
    if ts != [] {
      var t := ts[0];
      assert t in ts && t !in ts[1..] && forall u :: u in ts <==> u == t || u in ts[1..];
      RoundRefused(a, s, t, now);
      if EnableClient(a, s, t, now).Ok? {
        var m := EnableClient(a, s, t, now).value;
        RoundTakes(a, s, t, now);
        LaterRows(a, m, s, t, ts[1..]);
        RoundsRefused(m, s, ts[1..], now);
      }
    }
  }

  lemma {:induction false} RoundsTake(a: Db, s: int, ts: seq<int>, now: int)
    requires Distinct(ts) && a.Active(s) && s in a.scopes && forall t :: t in ts ==> Open(a, s, t)
    requires EnableClients(a, s, ts, now).Ok?
    ensures RowsOutcome(a, EnableClients(a, s, ts, now).value, s, ts)
    decreases |ts|
  {
    if ts != [] {
      var t := ts[0];
      assert t in ts && t !in ts[1..] && forall u :: u in ts[1..] ==> u in ts;
      var m := EnableClient(a, s, t, now).value;
      RoundTakes(a, s, t, now);
      LaterRows(a, m, s, t, ts[1..]);
      RoundsTake(m, s, ts[1..], now);
      RowsJoin(a, m, EnableClients(m, s, ts[1..], now).value, s, t, ts);
    }
  }
}
