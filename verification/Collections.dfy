/** Orders and listings shared by the queries: every SQL `ORDER BY` becomes a sequence without repeats. */
module Collections {

  datatype Option<+T> = None | Some(value: T)

  predicate Distinct<T(==)>(xs: seq<T>) {
    forall i, j :: 0 <= i < j < |xs| ==> xs[i] != xs[j]
  }

  lemma PrependDistinct<T>(x: T, xs: seq<T>)
    requires Distinct(xs) && x !in xs
    ensures Distinct([x] + xs)
  {
    var ys := [x] + xs;
    forall i, j | 0 <= i < j < |ys| ensures ys[i] != ys[j] {
      var y := xs[j - 1];
      assert y in xs;
    }
  }

  lemma ConcatDistinct<T>(xs: seq<T>, ys: seq<T>)
    requires Distinct(xs) && Distinct(ys) && forall x :: x in xs ==> x !in ys
    ensures Distinct(xs + ys)
  {
    var zs := xs + ys;
    forall i, j | 0 <= i < j < |zs| ensures zs[i] != zs[j] {
      if i < |xs| <= j {
        var x := xs[i];
        var y := ys[j - |xs|];
        assert x in xs && y in ys;
      }
    }
  }

  predicate Increasing(xs: seq<int>) {
    forall i, j :: 0 <= i < j < |xs| ==> xs[i] < xs[j]
  }

  lemma SomeMember(s: set<int>)
    ensures s == {} || exists x :: x in s
  {
    if !exists x :: x in s {
      assert s == {};
    }
  }

  lemma {:induction false} MinExists(s: set<int>) returns (m: int)
    requires s != {}
    ensures m in s && forall x :: x in s ==> m <= x
  {
    SomeMember(s);
    var e :| e in s;
    var rest := s - {e};
    m := e;
    if rest != {} {
      var low := MinExists(rest);
      m := if low < e then low else e;
    }
    forall x | x in s ensures m <= x {
      assert x == e || x in rest;
    }
  }

  function Min(s: set<int>): (m: int)
    requires s != {}
    ensures m in s && forall x :: x in s ==> m <= x
  {
    assert exists m :: m in s && forall x :: x in s ==> m <= x by { var m := MinExists(s); }
    var m :| m in s && forall x :: x in s ==> m <= x;
    m
  }

  /** The largest id: `ORDER BY id DESC LIMIT 1`. */
  function Max(s: set<int>): (m: int)
    requires s != {}
    ensures m in s && forall x :: x in s ==> x <= m
  {
    var xs := Ascending(s);
    assert xs[|xs| - 1] in xs;
    assert forall i :: 0 <= i < |xs| ==> xs[i] <= xs[|xs| - 1];
    xs[|xs| - 1]
  }

  function Newest(s: set<int>): Option<int> {
    if s == {} then None else Some(Max(s))
  }

  lemma PrependLeast(s: set<int>, m: int, rest: seq<int>)
    requires m in s && forall x :: x in s ==> m <= x
    requires (forall x :: x in rest <==> x in s - {m}) && Increasing(rest) && |rest| == |s - {m}|
    ensures var xs := [m] + rest; (forall x :: x in xs <==> x in s) && Increasing(xs) && |xs| == |s|
  {
    forall i | 0 <= i < |rest| ensures m < rest[i] {
      assert rest[i] in rest;
    }
  }

  /** The members of a finite set of ids, in ascending order. */
  function Ascending(s: set<int>): (xs: seq<int>)
    ensures forall x :: x in xs <==> x in s
    ensures Increasing(xs)
    ensures |xs| == |s|
    decreases |s|
  {
    if s == {} then [] else
      var m := Min(s);
      var rest := Ascending(s - {m});
      PrependLeast(s, m, rest);
      [m] + rest
  }

  /** `x` placed before the first element it must precede; equal elements keep their order. */
  function InsertBy<T>(x: T, xs: seq<T>, before: (T, T) -> bool): (ys: seq<T>)
    ensures multiset(ys) == multiset(xs) + multiset{x}
    ensures |ys| == |xs| + 1
  {
    if xs == [] then [x]
    else if before(x, xs[0]) then
      assert [x] + xs == [x] + xs;
      [x] + xs
    else
      var tail := InsertBy(x, xs[1..], before);
      assert xs == [xs[0]] + xs[1..];
      assert multiset([xs[0]] + tail) == multiset{xs[0]} + multiset(tail);
      [xs[0]] + tail
  }

  /** Stable insertion sort: what sort.SliceStable promises. */
  function SortBy<T>(xs: seq<T>, before: (T, T) -> bool): (ys: seq<T>)
    ensures multiset(ys) == multiset(xs)
    ensures |ys| == |xs|
  {
    if xs == [] then [] else
      var init := xs[..|xs| - 1];
      assert xs == init + [xs[|xs| - 1]];
      InsertBy(xs[|xs| - 1], SortBy(init, before), before)
  }

  /** `before` behaves like "strictly less" on the ranks of some linear preorder. */
  ghost predicate StrictWeak<T(!new)>(before: (T, T) -> bool) {
    && (forall a, b :: before(a, b) ==> !before(b, a))
    && (forall a, b, c :: !before(a, b) && !before(b, c) ==> !before(a, c))
  }

  ghost predicate SortedBy<T>(xs: seq<T>, before: (T, T) -> bool) {
    forall i, j :: 0 <= i < j < |xs| ==> !before(xs[j], xs[i])
  }

  lemma NotAhead<T(!new)>(before: (T, T) -> bool, a: T, b: T, c: T)
    requires StrictWeak(before) && before(a, c) && !before(b, c)
    ensures !before(b, a)
  {
    assert !before(a, b) && !before(b, c) ==> !before(a, c);
  }

  lemma {:induction false} InsertSorted<T(!new)>(x: T, xs: seq<T>, before: (T, T) -> bool)
    requires StrictWeak(before) && SortedBy(xs, before)
    ensures SortedBy(InsertBy(x, xs, before), before)
  {
    var ys := InsertBy(x, xs, before);
    if xs == [] {
    } else if before(x, xs[0]) {
      forall j | 0 < j < |ys| ensures !before(ys[j], ys[0]) {
        assert ys[j] == xs[j - 1];
        assert j == 1 || !before(xs[j - 1], xs[0]);
        NotAhead(before, x, xs[j - 1], xs[0]);
      }
    } else {
      InsertSorted(x, xs[1..], before);
      var tail := InsertBy(x, xs[1..], before);
      forall j | 0 < j < |ys| ensures !before(ys[j], ys[0]) {
        assert ys[j] == tail[j - 1] && tail[j - 1] in multiset(tail);
        assert ys[j] == x || ys[j] in multiset(xs[1..]);
      }
    }
  }

  lemma {:induction false} SortSorted<T(!new)>(xs: seq<T>, before: (T, T) -> bool)
    requires StrictWeak(before)
    ensures SortedBy(SortBy(xs, before), before)
  {
    if xs != [] {
      SortSorted(xs[..|xs| - 1], before);
      InsertSorted(xs[|xs| - 1], SortBy(xs[..|xs| - 1], before), before);
    }
  }

  lemma SameMembers<T>(xs: seq<T>, ys: seq<T>)
    requires multiset(xs) == multiset(ys)
    ensures forall x :: x in xs <==> x in ys
  {
    forall x ensures x in xs <==> x in ys {
      assert x in xs <==> x in multiset(xs);
      assert x in ys <==> x in multiset(ys);
    }
  }

  lemma {:induction false} DistinctMeansSingle<T>(xs: seq<T>, x: T)
    requires Distinct(xs)
    ensures multiset(xs)[x] <= 1
  {
    if xs != [] {
      var tail := xs[1..];
      assert xs == [xs[0]] + tail;
      DistinctMeansSingle(tail, x);
      assert forall i :: 0 <= i < |tail| ==> tail[i] == xs[i + 1] != xs[0];
      assert xs[0] !in tail;
      assert xs[0] !in multiset(tail);
    }
  }

  lemma {:induction false} SingleMeansDistinct<T>(xs: seq<T>)
    requires forall x :: multiset(xs)[x] <= 1
    ensures Distinct(xs)
  {
    forall i, j | 0 <= i < j < |xs| ensures xs[i] != xs[j] {
      var head, tail := xs[..j], xs[j..];
      assert xs == head + tail;
      assert multiset(xs) == multiset(head) + multiset(tail);
      assert head[i] in multiset(head);
      assert tail[0] in multiset(tail);
      assert multiset(xs)[xs[j]] <= 1;
    }
  }

  /** A stable sort of a listing without repeats is again one, with the same members. */
  lemma SortKeepsListing<T>(xs: seq<T>, before: (T, T) -> bool)
    requires Distinct(xs)
    ensures Distinct(SortBy(xs, before))
    ensures forall x :: x in SortBy(xs, before) <==> x in xs
  {
    var ys := SortBy(xs, before);
    SameMembers(xs, ys);
    forall x ensures multiset(ys)[x] <= 1 { DistinctMeansSingle(xs, x); }
    SingleMeansDistinct(ys);
  }

  /** ASCII order of two texts, the BINARY collation of an ORDER BY on a text column. */
  predicate TextBefore(a: string, b: string) {
    if b == [] then false
    else if a == [] then true
    else if a[0] != b[0] then a[0] < b[0]
    else TextBefore(a[1..], b[1..])
  }
}
