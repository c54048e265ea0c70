/** What every step keeps about the tables, and where the baselines of live clients come from. */
module Baselines {
  import opened Collections
  import opened Model
  import opened PolicyTable

  /** References resolve, ids are fresh, and a single-user rule has at most one client. */
  ghost predicate Valid(db: Db) {
    && EmailsUnique(db)
    && (forall k :: k in db.clients ==> k.rule in db.rules)
    && (forall s :: s in db.scopes ==> s in db.rules && db.rules[s].email == "")
    && (forall r :: r in db.rules ==> r < db.nextRule)
    && (forall e :: e in db.excludes ==> e < db.nextExclude)
    && (forall o :: o in db.overrides ==> o < db.nextOverride)
    && SinglesHaveOne(db)
  }

  ghost predicate SinglesHaveOne(db: Db) {
    forall j, k :: j in db.clients && k in db.clients && j.rule == k.rule && j.rule !in db.scopes ==> j == k
  }

  /** At most one active rule is materialised on a traffic row. */
  ghost predicate OneOwner(db: Db) {
    forall x, y, t :: db.Owns(x, t) && db.Owns(y, t) ==> x == y
  }

  /** An active rule's client that is not marked missing. */
  predicate Live(db: Db, k: Key) {
    k in db.clients && db.Active(k.rule) && db.clients[k].missingAt.None?
  }

  predicate AtCounters(db: Db, k: Key) {
    && k in db.clients && k.traffic in db.traffic
    && db.clients[k].lastUp == db.traffic[k.traffic].up && db.clients[k].lastDown == db.traffic[k.traffic].down
  }

  /**
   * The client is present on the row of its email, recorded under its inbound, at its counters, with no fraction
   * carried.
   */
  predicate Afresh(db: Db, k: Key) {
    && k in db.clients && k.traffic in db.traffic
    && var (row, rc) := (db.traffic[k.traffic], db.clients[k]);
       && rc.email == row.email && rc.inboundId == row.inboundId && rc.missingAt.None?
       && rc.lastUp == row.up && rc.lastDown == row.down && rc.remUp == 0 && rc.remDown == 0
  }

  predicate SameAccount(a: RuleClient, b: RuleClient) {
    a.email == b.email && a.lastUp == b.lastUp && a.lastDown == b.lastDown && a.remUp == b.remUp
        && a.remDown == b.remDown
  }

  /** The client's account was already a live client's account on the same row. */
  ghost predicate Inherits(a: Db, b: Db, k: Key) {
    k in b.clients && exists r :: Live(a, Key(r, k.traffic)) && SameAccount(a.clients[Key(r, k.traffic)], b.clients[k])
  }

  /**
   * No traffic changed, and every live client of `b` on an existing row is at its counters or continues a live
   * account of `a`.
   */
  ghost predicate Descends(a: Db, b: Db) {
    && b.traffic == a.traffic
    && forall k :: Live(b, k) && k.traffic in b.traffic ==> AtCounters(b, k) || Inherits(a, b, k)
  }

  lemma DescendsReflexive(a: Db)
    ensures Descends(a, a)
  {
    forall k | Live(a, k) ensures Inherits(a, a, k) {
      assert Live(a, Key(k.rule, k.traffic));
    }
  }

  lemma DescendsTransitive(a: Db, b: Db, c: Db)
    requires Descends(a, b) && Descends(b, c)
    ensures Descends(a, c)
  {
    forall k | Live(c, k) && k.traffic in c.traffic && !AtCounters(c, k) ensures Inherits(a, c, k) {
      var r :| Live(b, Key(r, k.traffic)) && SameAccount(b.clients[Key(r, k.traffic)], c.clients[k]);
      var q :| Live(a, Key(q, k.traffic)) && SameAccount(a.clients[Key(q, k.traffic)], b.clients[Key(r, k.traffic)]);
      assert SameAccount(a.clients[Key(q, k.traffic)], c.clients[k]);
    }
  }

  /** Clients that stay live keep their account, and nothing becomes live. */
  ghost predicate OnlyFewerLive(a: Db, b: Db) {
    b.traffic == a.traffic && forall k :: Live(b, k) ==> Live(a, k) && SameAccount(a.clients[k], b.clients[k])
  }

  lemma FewerLiveDescends(a: Db, b: Db)
    requires OnlyFewerLive(a, b)
    ensures Descends(a, b)
  {
    forall k | Live(b, k) ensures Inherits(a, b, k) {
      assert Live(a, Key(k.rule, k.traffic));
    }
  }

  /** The client's row exists and has the client's email. */
  predicate Matched(db: Db, k: Key) {
    k in db.clients && k.traffic in db.traffic && db.traffic[k.traffic].email == db.clients[k].email
  }

  /** Descends, for the clients whose row has their email. */
  ghost predicate DescendsMatched(a: Db, b: Db) {
    && b.traffic == a.traffic
    && forall k :: Live(b, k) && Matched(b, k) ==> AtCounters(b, k) || Inherits(a, b, k)
  }

  lemma MatchedTransitive(a: Db, b: Db, c: Db)
    requires DescendsMatched(a, b) && DescendsMatched(b, c)
    ensures DescendsMatched(a, c)
  {
    forall k | Live(c, k) && Matched(c, k) && !AtCounters(c, k) ensures Inherits(a, c, k) {
      var r :| Live(b, Key(r, k.traffic)) && SameAccount(b.clients[Key(r, k.traffic)], c.clients[k]);
      assert Matched(b, Key(r, k.traffic));
      assert Inherits(a, b, Key(r, k.traffic)) by { assert !AtCounters(b, Key(r, k.traffic)); }
      var q :| Live(a, Key(q, k.traffic)) && SameAccount(a.clients[Key(q, k.traffic)], b.clients[Key(r, k.traffic)]);
      assert SameAccount(a.clients[Key(q, k.traffic)], c.clients[k]);
    }
  }
}
