/** internal/engine/bulk.go: enrolling a whole selection keeps one owner per row. */
module BulkProofs {
  import opened Collections
  import opened Model
  import opened Factor
  import opened PolicyTable
  import opened Baselines
  import opened Reconciling
  import opened ReconcileProofs
  import opened ReconcileTheorems
  import opened ReconcilePreview
  import opened Ticking
  import opened EnrolProofs
  import opened Commands
  import opened CommandProofs

  predicate ActiveScope(db: Db, s: int) {
    s in db.scopes && db.Active(s)
  }

  /** Sound, honest about baselines, and silent on traffic and policies. */
  ghost predicate Steady(a: Db, b: Db) {
    Sound(a, b) && Descends(a, b) && SamePolicies(a, b) && b.members == a.members
  }

  lemma SteadyTransitive(a: Db, b: Db, c: Db)
    requires Steady(a, b) && Steady(b, c)
    ensures Steady(a, c)
  {
    DescendsTransitive(a, b, c);
  }

  lemma CreateScopeFacts(a: Db, bulk: Bulk, once: bool, factorPpm: int64, now: int)
    requires Valid(a)
    ensures var b := CreateScope(a, bulk, once, factorPpm, now);
            Steady(a, b) && ActiveScope(b, a.nextRule) && b.clients == a.clients
            && (forall x, t :: b.Owns(x, t) ==> a.Owns(x, t))
  {
    var b := CreateScope(a, bulk, once, factorPpm, now);
    forall k | Live(b, k) ensures Live(a, k) && SameAccount(a.clients[k], b.clients[k]) {}
    FewerLiveDescends(a, b);
    if OneOwner(a) { OwnersShrink(a, b); }
  }

  /** A client at its counters for an active scope on a row that nobody else owns. */
  lemma FreshForScope(a: Db, s: int, t: int)
    requires ActiveScope(a, s) && t in a.traffic && Key(s, t) !in a.clients && forall x :: a.Owns(x, t) ==> x == s
    ensures var b := a.PutClient(Key(s, t), FreshClient(a.traffic[t]));
            Steady(a, b) && ActiveScope(b, s) && (forall x, u :: b.Owns(x, u) ==> a.Owns(x, u) || (x == s && u == t))
  {
    var b := a.PutClient(Key(s, t), FreshClient(a.traffic[t]));
    assert Grew(a, b);
    GrewKeeps(a, b);
    if OneOwner(a) {
      forall x, y, u | b.Owns(x, u) && b.Owns(y, u) ensures x == y {
        assert u != t ==> a.Owns(x, u) && a.Owns(y, u);
        assert u == t ==> (x == s || a.Owns(x, t)) && (y == s || a.Owns(y, t));
      }
    }
  }

  lemma OnlyRuleOn(db: Db, t: int, x: int)
    requires |db.RulesOn(t, {Active, Paused})| <= 1
    ensures db.Owns(x, t) ==> db.RulesOn(t, {Active, Paused}) == {x}
  {
    if db.Owns(x, t) {
      var rs := db.RulesOn(t, {Active, Paused});
      assert Key(x, t) in db.clients;
      assert x in rs;
      assert |rs - {x}| == 0;
    }
  }

  lemma JoinSteady(a: Db, s: int, r: int, t: int, now: int)
    requires ActiveScope(a, s) && s != r && r !in a.scopes && Live(a, Key(r, t)) && Key(s, t) !in a.clients
    requires forall x :: a.Owns(x, t) ==> x == r
    ensures var b := JoinScope(a, s, r, t, now); Steady(a, b) && ActiveScope(b, s)
  {
    var b := JoinScope(a, s, r, t, now);
    JoinFacts(a, s, r, t, now);
    JoinDescends(a, s, r, t, now);
    if OneOwner(a) {
      forall x, y, u | b.Owns(x, u) && b.Owns(y, u) ensures x == y {
        assert u != t ==> a.Owns(x, u) && a.Owns(y, u);
        assert u == t ==> (x == s || a.Owns(x, t)) && (y == s || a.Owns(y, t));
        assert !b.Active(r);
      }
    }
    if Valid(a) {
      forall j, k | j in b.clients && k in b.clients && j.rule == k.rule && j.rule !in b.scopes ensures j == k {
        assert j in a.clients && k in a.clients;
      }
    }
  }

  lemma LogSteady(a: Db, b: Db)
    requires b == a.(events := b.events)
    ensures Steady(a, b)
  {
    SameRulesKeep(a, b);
  }

  lemma MarkSteady(a: Db, k: Key, now: int)
    ensures Steady(a, a.MarkMissing(k, now))
    ensures a.MarkMissing(k, now).rules == a.rules && a.MarkMissing(k, now).scopes == a.scopes
  {
    var b := a.MarkMissing(k, now);
    if b == a {
      LogSteady(a, a);
    } else {
      MarkedFewer(a, k, now);
      FewerLiveDescends(a, b);
      if OneOwner(a) { OwnersShrink(a, b); }
    }
  }

  lemma MarkedFewer(a: Db, k: Key, now: int)
    requires k in a.clients && a.clients[k].missingAt.None?
    ensures OnlyFewerLive(a, a.MarkMissing(k, now)) && (Valid(a) ==> Valid(a.MarkMissing(k, now)))
  {
    var b := a.MarkMissing(k, now);
    assert b.clients.Keys == a.clients.Keys;
    assert b == a.(clients := b.clients);
  }

  lemma AdoptSteady(a: Db, s: int, r: int, t: int, now: int)
    requires ActiveScope(a, s) && a.Active(r) && r !in a.scopes && Key(s, t) !in a.clients
    requires forall x :: a.Owns(x, t) ==> x == r
    ensures var b := Adopt(a, s, r, t, now).0; Steady(a, b) && ActiveScope(b, s)
  {
    var (b, adopted) := Adopt(a, s, r, t, now);
    LogSteady(a, a);
    if adopted {
      JoinSteady(a, s, r, t, now);
    } else if b != a {
      var m := a.MarkMissing(Key(r, t), now);
      MarkSteady(a, Key(r, t), now);
      LogSteady(m, b);
      SteadyTransitive(a, m, b);
    }
  }

  lemma EnableClientFacts(a: Db, s: int, t: int, now: int)
    requires ActiveScope(a, s) && EnableClient(a, s, t, now).Ok?
    ensures var b := EnableClient(a, s, t, now).value; Steady(a, b) && ActiveScope(b, s)
  {
    var b := EnableClient(a, s, t, now).value;
    LogSteady(a, a);
    if t in a.traffic && Key(s, t) !in a.clients {
      var rs := a.RulesOn(t, {Active, Paused});
      forall x ensures a.Owns(x, t) ==> rs == {x} { OnlyRuleOn(a, t, x); }
      if rs == {} {
        FreshForScope(a, s, t);
      } else {
        var r := Min(rs);
        assert rs == {r} by { assert |rs - {r}| == 0; }
        if r in a.scopes || !a.Active(r) {
          LogSteady(a, b);
        } else {
          var m := Adopt(a, s, r, t, now).0;
          AdoptSteady(a, s, r, t, now);
          LogSteady(m, b.(events := b.events));
          if !Adopt(a, s, r, t, now).1 { LogSteady(m, b); SteadyTransitive(a, m, b); }
        }
      }
    }
  }

  lemma {:induction false} EnableClientsFacts(a: Db, s: int, ts: seq<int>, now: int)
    requires ActiveScope(a, s) && EnableClients(a, s, ts, now).Ok?
    ensures Steady(a, EnableClients(a, s, ts, now).value)
    decreases |ts|
  {
    if ts == [] {
      LogSteady(a, a);
    } else {
      var m := EnableClient(a, s, ts[0], now).value;
      EnableClientFacts(a, s, ts[0], now);
      EnableClientsFacts(m, s, ts[1..], now);
      SteadyTransitive(a, m, EnableClients(m, s, ts[1..], now).value);
    }
  }

  lemma FindScopeActive(db: Db, bulk: Bulk, factorPpm: int64)
    ensures FindScope(db, bulk, factorPpm).Some? ==> ActiveScope(db, FindScope(db, bulk, factorPpm).value)
  {
    var ss := set s | s in db.scopes && SameScope(db, s, bulk, factorPpm);
    if ss != {} { assert Min(ss) in ss; }
  }

  lemma EnablePersistentFacts(a: Db, bulk: Bulk, factorPpm: int64, ts: seq<int>, now: int)
    requires Valid(a) && EnablePersistent(a, bulk, factorPpm, ts, now).Ok?
    ensures Steady(a, EnablePersistent(a, bulk, factorPpm, ts, now).value)
  {
    match FindScope(a, bulk, factorPpm) {
      case Some(s) =>
        FindScopeActive(a, bulk, factorPpm);
        EnableClientsFacts(a, s, ts, now);
      case None =>
        var m := CreateScope(a, bulk, false, factorPpm, now);
        CreateScopeFacts(a, bulk, false, factorPpm, now);
        EnableClientsFacts(m, a.nextRule, ts, now);
        SteadyTransitive(a, m, EnableClients(m, a.nextRule, ts, now).value);
    }
  }

  lemma {:induction false} SnapshotFree(db: Db, ts: seq<int>, t: int)
    requires SnapshotTargets(db, ts).Ok? && t in SnapshotTargets(db, ts).value
    ensures db.RulesOn(t, {Active, Paused}) == {}
  {
    if t !in SnapshotTargets(db, ts[1..]).value {
      assert t == ts[0];
    } else {
      SnapshotFree(db, ts[1..], t);
    }
  }

  lemma {:induction false} PutFreshFacts(a: Db, s: int, ts: seq<int>)
    requires ActiveScope(a, s) && forall x, t :: t in ts && a.Owns(x, t) ==> x == s
    requires forall t :: t in ts ==> Key(s, t) in a.clients ==>
                                     AtCounters(a, Key(s, t)) && a.clients[Key(s, t)] == FreshClient(a.traffic[t])
    ensures Steady(a, PutFresh(a, s, ts))
    decreases |ts|
  {
    if ts == [] {
      LogSteady(a, a);
    } else {
      var t := ts[0];
      assert t in ts && forall u :: u in ts[1..] ==> u in ts;
      if t !in a.traffic {
        PutFreshFacts(a, s, ts[1..]);
      } else {
        var m := a.PutClient(Key(s, t), FreshClient(a.traffic[t]));
        if Key(s, t) in a.clients {
          assert m == a;
          LogSteady(a, m);
        } else {
          FreshForScope(a, s, t);
        }
        PutFreshFacts(m, s, ts[1..]);
        SteadyTransitive(a, m, PutFresh(m, s, ts[1..]));
      }
    }
  }

  lemma EnableSnapshotFacts(a: Db, bulk: Bulk, factorPpm: int64, ts: seq<int>, now: int)
    requires Valid(a) && EnableSnapshot(a, bulk, factorPpm, ts, now).Ok?
    ensures Steady(a, EnableSnapshot(a, bulk, factorPpm, ts, now).value)
  {
    var targets := SnapshotTargets(a, ts).value;
    LogSteady(a, a);
    if targets != [] {
      var m := CreateScope(a, bulk, true, factorPpm, now);
      CreateScopeFacts(a, bulk, true, factorPpm, now);
      forall x, t | t in targets ensures !m.Owns(x, t) {
        SnapshotFree(a, ts, t);
        OnlyRuleOn(a, t, x);
      }
      PutFreshFacts(m, a.nextRule, targets);
      SteadyTransitive(a, m, PutFresh(m, a.nextRule, targets));
    }
  }

  /** The tables on which enable-all reconciles, when it does. */
  function Enabled(db: Db, bulk: Bulk, factor: string, now: int): Result<Db> {
    var factorPpm :- ParseFactor(factor);
    EnablePersistent(db, bulk, factorPpm, ClientCandidates(db, bulk.inbound, bulk.limitedOnly, bulk.includeDisabled),
        now)
  }

  /** Nothing in the reconcile of `db` can put two rules on one row. */
  ghost predicate Unclashing(db: Db, inbound: Option<int>) {
    Settles(db, ListPersistentScopes(db), ListSingles(db, inbound)) && UnlistedApart(db, ListSingles(db, inbound))
  }

  lemma NamedAfterReconcile(a: Db, inbound: Option<int>, now: int, u: int)
    requires now > 0 && EmailsUnique(a) && u in a.traffic && NamedActive(a.excludes, u, a.traffic[u].email)
    ensures NamedActive(Reconcile(a, inbound, now, false).value.0.excludes, u, a.traffic[u].email)
  {
    RulesOutcome(a, inbound, now);
    var b := Rules(a, inbound, now, false).0;
    FollowAllKeepsNamed(b, b.excludes, b.excludes, ListActive(b.excludes), inbound, now, u);
  }

  lemma EnableAllKeeps(a: Db, bulk: Bulk, once: bool, factor: string, now: int)
    requires now > 0 && Valid(a) && EnableAll(a, bulk, once, factor, now).Ok?
    ensures var b := EnableAll(a, bulk, once, factor, now).value;
            && Valid(b) && Descends(a, b)
            && (OneOwner(a) && (!once ==> Unclashing(Enabled(a, bulk, factor, now).value, bulk.inbound)) ==>
                OneOwner(b))
            && (forall u :: u in a.traffic && NamedActive(a.excludes, u, a.traffic[u].email) ==>
                            NamedActive(b.excludes, u, a.traffic[u].email))
  {
    var b := EnableAll(a, bulk, once, factor, now).value;
    var factorPpm := ParseFactor(factor).value;
    var ts := ClientCandidates(a, bulk.inbound, bulk.limitedOnly, bulk.includeDisabled);
    if once {
      EnableSnapshotFacts(a, bulk, factorPpm, ts, now);
    } else {
      var m := EnablePersistent(a, bulk, factorPpm, ts, now).value;
      EnablePersistentFacts(a, bulk, factorPpm, ts, now);
      ReconcileKeeps(m, bulk.inbound, now);
      DescendsTransitive(a, m, b);
      forall u | u in a.traffic && NamedActive(a.excludes, u, a.traffic[u].email)
        ensures NamedActive(b.excludes, u, a.traffic[u].email)
      {
        NamedAfterReconcile(m, bulk.inbound, now, u);
      }
      if OneOwner(a) && Unclashing(m, bulk.inbound) {
        ReconcileKeepsOneOwner(m, bulk.inbound, now);
      }
    }
  }
}
