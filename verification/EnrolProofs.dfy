/** Enrolment into scopes keeps one owner per row and starts every account at the counters. */
module EnrolProofs {
  import opened Collections
  import opened Model
  import opened PolicyTable
  import opened Baselines
  import opened Reconciling
  import opened Ticking

  /** Only fresh clients of rule s and events are added. */
  ghost predicate Grew(a: Db, b: Db) {
    && b == a.(clients := b.clients, events := b.events)
    && (forall k :: k in a.clients ==> k in b.clients && b.clients[k] == a.clients[k])
    && (forall k :: k in b.clients && k !in a.clients ==> k.rule in a.scopes && k.traffic in a.traffic
                                                          && b.clients[k] == FreshClient(a.traffic[k.traffic]))
  }

  lemma GrewTransitive(a: Db, b: Db, c: Db)
    requires Grew(a, b) && Grew(b, c)
    ensures Grew(a, c)
  {
  }

  lemma GrewKeeps(a: Db, b: Db)
    requires Grew(a, b)
    ensures Descends(a, b) && (Valid(a) ==> Valid(b))
  {
    forall k | Live(b, k) && k.traffic in b.traffic ensures AtCounters(b, k) || Inherits(a, b, k) {
      if k in a.clients { assert Live(a, Key(k.rule, k.traffic)); }
    }
    if Valid(a) {
      forall j, k | j in b.clients && k in b.clients && j.rule == k.rule && j.rule !in b.scopes ensures j == k {
        assert j in a.clients && k in a.clients;
      }
    }
  }

  lemma EnrolClientFacts(a: Db, s: int, t: int, now: int)
    requires s in a.scopes && a.Active(s)
    ensures var b := EnrolClient(a, s, t, now); Grew(a, b) && (OneOwner(a) ==> OneOwner(b))
  {
    var b := EnrolClient(a, s, t, now);
    var others := OtherOwners(a, t, s);
    if OneOwner(a) && t in a.traffic && Key(s, t) !in a.clients && others == {} {
      forall x, y, u | b.Owns(x, u) && b.Owns(y, u) ensures x == y {
        if u == t {
          OnlyEnrolled(a, s, t, x);
          OnlyEnrolled(a, s, t, y);
        } else {
          assert a.Owns(x, u) && a.Owns(y, u);
        }
      }
    } else if OneOwner(a) {
      assert b.clients == a.clients;
      forall x, y, u | b.Owns(x, u) && b.Owns(y, u) ensures x == y {
        assert a.Owns(x, u) && a.Owns(y, u);
      }
    }
  }

  lemma OnlyEnrolled(a: Db, s: int, t: int, x: int)
    requires OtherOwners(a, t, s) == {}
    ensures a.Owns(x, t) ==> x == s
  {
    if a.Owns(x, t) {
      assert Key(x, t) in a.clients;
      assert x in a.RulesOn(t, {Active});
      assert x in OtherOwners(a, t, s) || x == s;
    }
  }

  lemma {:induction false} EnrolClientsFacts(a: Db, s: int, ts: seq<int>, now: int)
    requires s in a.scopes && a.Active(s)
    ensures var b := EnrolClients(a, s, ts, now); Grew(a, b) && (OneOwner(a) ==> OneOwner(b))
    decreases |ts|
  {
    if ts != [] {
      var m := EnrolClient(a, s, ts[0], now);
      EnrolClientFacts(a, s, ts[0], now);
      EnrolClientsFacts(m, s, ts[1..], now);
      GrewTransitive(a, m, EnrolClients(m, s, ts[1..], now));
    }
  }

  lemma {:induction false} EnrolScopesFacts(a: Db, scopes: seq<int>, now: int)
    requires forall s :: s in scopes ==> s in a.scopes && a.Active(s)
    ensures var b := EnrolScopes(a, scopes, now); Grew(a, b) && (OneOwner(a) ==> OneOwner(b))
    decreases |scopes|
  {
    if scopes != [] {
      assert scopes[0] in scopes && forall s :: s in scopes[1..] ==> s in scopes;
      var m := EnrolClients(a, scopes[0], ScopeCandidates(a, scopes[0]), now);
      EnrolClientsFacts(a, scopes[0], ScopeCandidates(a, scopes[0]), now);
      EnrolScopesFacts(m, scopes[1..], now);
      GrewTransitive(a, m, EnrolScopes(m, scopes[1..], now));
    }
  }

  /** reconcileScopes only adds clients at their counters, and keeps one owner per row. */
  lemma EnrolKeeps(a: Db, now: int)
    ensures var b := Enrol(a, now);
            Grew(a, b) && Descends(a, b) && (Valid(a) ==> Valid(b)) && (OneOwner(a) ==> OneOwner(b))
  {
    var ids := PersistentIds(a);
    forall s | s in ListPersistentScopes(a) ensures s in a.scopes && a.Active(s) { assert s in ids; }
    EnrolScopesFacts(a, ListPersistentScopes(a), now);
    GrewKeeps(a, Enrol(a, now));
  }
}
