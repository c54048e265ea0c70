/** The audit trail conserves applied traffic: what the events add up to is what ticks added to counters. */
module AuditTrail {
  import opened Collections
  import opened Model
  import opened Text
  import opened Audit

  // Adding up events ------------------------------------------------------

  function TextOf(e: Event): string {
    match e.detail
    case Applied(t, inbound, email, up, down) => if up < 0 || down < 0 then "" else Message(t, inbound, email, up, down)
    case _ => ""
  }

  /** An email that cannot be mistaken for another part of the message. */
  predicate Ordinary(email: string) {
    NoSpace(email) && TokenOf(email) == Other
  }

  predicate Readable(e: Event) {
    e.kind.TrafficApply? ==> e.detail.Applied? && Ordinary(e.detail.email) && e.detail.extraUp >= 0
                             && e.detail.extraDown >= 0
  }

  function Extra(e: Event): nat {
    if e.kind.TrafficApply? && e.detail.Applied? && e.detail.extraUp >= 0
        && e.detail.extraDown >= 0 then e.detail.extraUp + e.detail.extraDown else 0
  }

  function Total(events: seq<Event>): nat {
    if events == [] then 0 else Extra(events[0]) + Total(events[1..])
  }

  /** ListEvents for one kind: newest first. */
  function Listed(events: seq<Event>): seq<Event> {
    if events == [] then []
    else (if events[|events| - 1].kind.TrafficApply? then [events[|events| - 1]] else
                                                            []) + Listed(events[..|events| - 1])
  }

  datatype Impact = Impact(applications: nat, lastAppliedAt: Option<int>, extraBytes: int64)

  /** What eventExtraBytes makes of each event. */
  function Readings(events: seq<Event>): seq<Option<int64>> {
    seq(|events|, i requires 0 <= i < |events| => ExtraBytes(TextOf(events[i])))
  }

  function Added(extraBytes: int64, reading: Option<int64>): int64 {
    if reading.None? || reading.value <= 0 then extraBytes else SaturatingAdd(extraBytes, reading.value)
  }

  function AddUp(readings: seq<Option<int64>>, extraBytes: int64): int64
    decreases |readings|
  {
    if readings == [] then extraBytes
    else AddUp(readings[1..], Added(extraBytes, readings[0]))
  }

  lemma {:induction false} TotalConcat(xs: seq<Event>, ys: seq<Event>)
    ensures Total(xs + ys) == Total(xs) + Total(ys)
  {
    if xs == [] {
      assert xs + ys == ys;
    } else {
      assert (xs + ys)[1..] == xs[1..] + ys;
      TotalConcat(xs[1..], ys);
    }
  }

  lemma {:induction false} ListedTotal(events: seq<Event>)
    ensures Total(Listed(events)) == Total(events)
    ensures forall e :: e in Listed(events) <==> e in events && e.kind.TrafficApply?
  {
    if events != [] {
      var init, last := events[..|events| - 1], events[|events| - 1];
      ListedTotal(init);
      assert events == init + [last];
      TotalConcat(init, [last]);
      TotalConcat([last], Listed(init));
      assert Listed(events) == (if last.kind.TrafficApply? then [last] else []) + Listed(init);
      assert [] + Listed(init) == Listed(init);
      assert [last][1..] == [];
    }
  }

  lemma MessageReads(t: int, inbound: int, email: string, up: nat, down: nat, text: string)
    requires Ordinary(email) && up <= MAX_INT64 && down <= MAX_INT64 && text == Message(t, inbound, email, up, down)
    ensures ExtraBytes(text) == Some(Capped(up + down))
  {
    MessageReadsBack(t, inbound, email, up, down);
  }

  lemma ReadsBack(e: Event)
    requires e.kind.TrafficApply? && Readable(e)
    ensures ExtraBytes(TextOf(e)) == Some(Capped(Extra(e)))
  {
    var d := e.detail;
    MessageReads(d.appliedId, d.inboundId, d.email, d.extraUp, d.extraDown, TextOf(e));
  }

  ghost predicate AllReadable(events: seq<Event>) {
    forall e :: e in events ==> Readable(e)
  }

  ghost predicate AllApplied(events: seq<Event>) {
    forall e :: e in events ==> e.kind.TrafficApply?
  }

  /** The readings are the events' extras, each capped. */
  ghost predicate Truthful(readings: seq<Option<int64>>, events: seq<Event>) {
    |readings| == |events| && forall i :: 0 <= i < |events| ==> readings[i] == Some(Capped(Extra(events[i])))
  }

  lemma ReadingsTruthful(events: seq<Event>)
    requires AllApplied(events) && AllReadable(events)
    ensures Truthful(Readings(events), events)
  {
    forall i | 0 <= i < |events| ensures Readings(events)[i] == Some(Capped(Extra(events[i]))) {
      var e := events[i];
      assert e in events;
      ReadsBack(e);
    }
  }

  /** Each readable event adds exactly its extra, up to the cap. */
  lemma {:induction false} AddUpTotal(readings: seq<Option<int64>>, events: seq<Event>, extraBytes: int64)
    requires extraBytes >= 0 && Truthful(readings, events)
    ensures AddUp(readings, extraBytes) == Capped(extraBytes + Total(events))
    decreases |events|
  {
    if events != [] {
      AddUpTotal(readings[1..], events[1..], Capped(extraBytes + Extra(events[0])));
    }
  }

  lemma {:induction false} TotalOrderFree(xs: seq<Event>, ys: seq<Event>)
    requires multiset(xs) == multiset(ys)
    ensures Total(xs) == Total(ys)
    decreases |xs|
  {
    assert |multiset(xs)| == |multiset(ys)|;
    if xs != [] {
      assert xs[0] in multiset(xs);
      var j :| 0 <= j < |ys| && ys[j] == xs[0];
      var others := ys[..j] + ys[j + 1..];
      assert ys == ys[..j] + ([ys[j]] + ys[j + 1..]);
      assert xs == [xs[0]] + xs[1..];
      assert multiset(others) == multiset(ys) - multiset{ys[j]};
      assert multiset(xs[1..]) == multiset(xs) - multiset{xs[0]};
      TotalOrderFree(xs[1..], others);
      TotalConcat(ys[..j], [ys[j]] + ys[j + 1..]);
      TotalConcat(ys[..j], ys[j + 1..]);
      TotalConcat([ys[j]], ys[j + 1..]);
      assert [ys[j]][1..] == [];
    }
  }

  lemma ListedReadable(events: seq<Event>)
    requires AllReadable(events)
    ensures AllApplied(Listed(events)) && AllReadable(Listed(events))
  {
    ListedTotal(events);
  }

  lemma ReadableInAnyOrder(events: seq<Event>, recorded: seq<Event>)
    requires multiset(events) == multiset(recorded) && AllReadable(recorded)
    ensures AllReadable(events)
  {
    forall e | e in events ensures e in recorded { assert e in multiset(events); assert e in multiset(recorded); }
  }

  lemma ReadListed(listed: seq<Event>) returns (readings: seq<Option<int64>>)
    requires AllApplied(listed) && AllReadable(listed)
    ensures Truthful(readings, listed) && AddUp(readings, 0) == AddUp(Readings(listed), 0)
  {
    readings := Readings(listed);
    ReadingsTruthful(listed);
  }

  lemma TruthfulImpact(listed: seq<Event>, readings: seq<Option<int64>>, impact: int64)
    requires Truthful(readings, listed) && AddUp(readings, 0) == impact
    ensures impact == Capped(Total(listed))
  {
    AddUpTotal(readings, listed, 0);
  }

  lemma ListedImpact(listed: seq<Event>, impact: int64)
    requires AllApplied(listed) && AllReadable(listed) && impact == AddUp(Readings(listed), 0)
    ensures impact == Capped(Total(listed))
  {
    var readings := ReadListed(listed);
    TruthfulImpact(listed, readings, impact);
  }

  lemma AsRecorded(events: seq<Event>)
    ensures AllReadable(events) ==> AddUp(Readings(Listed(events)), 0) == Capped(Total(events))
  {
    if AllReadable(events) {
      ListedReadable(events);
      ListedImpact(Listed(events), AddUp(Readings(Listed(events)), 0));
      ListedTotal(events);
    }
  }

  /** On readable events, in whatever order they were recorded, the impact is their total, capped at int64. */
  lemma ImpactIsTotal(events: seq<Event>, recorded: seq<Event>)
    requires multiset(events) == multiset(recorded) && AllReadable(recorded)
    ensures AddUp(Readings(Listed(events)), 0) == Capped(Total(recorded))
  {
    assert AllReadable(events) by { ReadableInAnyOrder(events, recorded); }
    AsRecorded(events);
    TotalOrderFree(events, recorded);
  }

  /** The time of the latest of the events, whatever their order. */
  ghost predicate Latest(events: seq<Event>, at: Option<int>) {
    match at
    case None => events == []
    case Some(last) => (exists e :: e in events && e.at == last) && forall e :: e in events ==> e.at <= last
  }

  function Later(at: Option<int>, other: int): Option<int> {
    if at.None? || other > at.value then Some(other) else at
  }

  lemma LatestNext(events: seq<Event>, i: int, at: Option<int>)
    requires 0 <= i < |events| && Latest(events[..i], at)
    ensures Latest(events[..i + 1], Later(at, events[i].at))
  {
    assert events[..i + 1] == events[..i] + [events[i]];
    assert events[i] in events[..i + 1];
    if at.Some? {
      var x :| x in events[..i] && x.at == at.value;
      assert x in events[..i + 1];
    }
  }

  lemma LatestWhole(events: seq<Event>, at: Option<int>)
    requires Latest(events[..|events|], at)
    ensures Latest(events, at)
  {
    assert events[..|events|] == events;
  }

  lemma AddUpNext(listed: seq<Event>, i: int, extraBytes: int64)
    requires 0 <= i < |listed|
    ensures AddUp(Readings(listed)[i..], extraBytes)
            == AddUp(Readings(listed)[i + 1..], Added(extraBytes, ExtraBytes(TextOf(listed[i]))))
  {
    var readings := Readings(listed);
    assert readings[i..][1..] == readings[i + 1..];
  }

  /** The first `i` listed events have been looked at. */
  ghost predicate Counted(listed: seq<Event>, i: int, lastAppliedAt: Option<int>, extraBytes: int64) {
    && 0 <= i <= |listed| && Latest(listed[..i], lastAppliedAt)
    && AddUp(Readings(listed)[i..], extraBytes) == AddUp(Readings(listed), 0)
  }

  lemma CountedNext(listed: seq<Event>, i: int, lastAppliedAt: Option<int>, extraBytes: int64)
    requires Counted(listed, i, lastAppliedAt, extraBytes) && i < |listed|
    ensures Counted(listed, i + 1, Later(lastAppliedAt, listed[i].at), Added(extraBytes, ExtraBytes(TextOf(listed[i]))))
  {
    LatestNext(listed, i, lastAppliedAt);
    AddUpNext(listed, i, extraBytes);
  }

  lemma CountedNone(listed: seq<Event>)
    ensures Counted(listed, 0, None, 0)
  {
    assert Readings(listed)[0..] == Readings(listed);
  }

  lemma CountedAll(listed: seq<Event>, lastAppliedAt: Option<int>, extraBytes: int64)
    requires Counted(listed, |listed|, lastAppliedAt, extraBytes)
    ensures Latest(listed, lastAppliedAt) && extraBytes == AddUp(Readings(listed), 0)
  {
    LatestWhole(listed, lastAppliedAt);
    assert Readings(listed)[|listed|..] == [];
  }

  /** TrafficImpact without a filter. */
  method TrafficImpact(events: seq<Event>) returns (impact: Impact)
    ensures impact.applications == |Listed(events)| && Latest(Listed(events), impact.lastAppliedAt)
    ensures impact.extraBytes == AddUp(Readings(Listed(events)), 0)
    ensures AllReadable(events) ==> impact.extraBytes == Capped(Total(events))
  {
    var listed := Listed(events);
    var extraBytes: int64, lastAppliedAt := 0, None;
    CountedNone(listed);
    for i := 0 to |listed|
      invariant Counted(listed, i, lastAppliedAt, extraBytes)
    {
      CountedNext(listed, i, lastAppliedAt, extraBytes);
      if lastAppliedAt.None? || listed[i].at > lastAppliedAt.value {
        lastAppliedAt := Some(listed[i].at);
      }
      var text := TextOf(listed[i]);
      var extra := ExtraBytesOf(text);
      if extra.Some? && extra.value > 0 {
        extraBytes := SaturatingAdd(extraBytes, extra.value);
      }
    }
    CountedAll(listed, lastAppliedAt, extraBytes);
    impact := Impact(|listed|, lastAppliedAt, extraBytes);
    AsRecorded(events);
  }

  /** eventExtraBytes, field by field. */
  method ExtraBytesOf(message: string) returns (r: Option<int64>)
    ensures r == ExtraBytes(message)
  {
    var fields := Fields(message);
    var total: int64, found := 0, false;
    var i := 0;
    while i < |fields|
      invariant 0 <= i <= |fields|
      invariant ExtraFrom(fields[i..], total, found) == ExtraBytes(message)
    {
      assert fields[i..][1..] == fields[i + 1..];
      match TokenOf(fields[i]) {
        case Other =>
        case Malformed => return None;
        case Amount(n) => total, found := SaturatingAdd(total, n), true;
      }
      i := i + 1;
    }
    return if found then Some(total) else None;
  }
}
