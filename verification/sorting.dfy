/** Python's `sorted`: a stable sort by a total preorder, modelled as insertion sort on
    sequences, and the ascending list of a finite set of integers. */
module Sorting {

  /** `le` is total and transitive: the orders `sorted` is used with here (numbers by
      value, strings by code points, tuples by their first field) are all of this kind. */
  ghost predicate TotalPreorder<T(!new)>(le: (T, T) -> bool) {
    && (forall a, b :: le(a, b) || le(b, a))
    && (forall a, b, c :: le(a, b) && le(b, c) ==> le(a, c))
  }

  predicate SortedBy<T>(xs: seq<T>, le: (T, T) -> bool) {
    forall i, j :: 0 <= i < j < |xs| ==> le(xs[i], xs[j])
  }

  /** The elements of `xs` that are equivalent to `v` under `le`, in their order in `xs`. */
  function Tied<T>(xs: seq<T>, le: (T, T) -> bool, v: T): (r: seq<T>)
    ensures |r| <= |xs|
  {
    if |xs| == 0 then []
    else if le(xs[0], v) && le(v, xs[0]) then [xs[0]] + Tied(xs[1..], le, v)
    else Tied(xs[1..], le, v)
  }

  /** Insert `x` in front of the first element it does not exceed. */
  function Insert<T(!new)>(x: T, s: seq<T>, le: (T, T) -> bool): (r: seq<T>)
    requires TotalPreorder(le)
    requires SortedBy(s, le)
    ensures |r| == |s| + 1
    ensures multiset(r) == multiset(s) + multiset{x}
    ensures SortedBy(r, le)
  {
    if |s| == 0 then [x]
    else if le(x, s[0]) then [x] + s
    else
      var rest := Insert(x, s[1..], le);
      InsertBehindHead(x, s, rest, le);
      [s[0]] + rest
  }

  /** The head of `s` goes in front of `x` inserted into the tail. */
  lemma InsertBehindHead<T(!new)>(x: T, s: seq<T>, rest: seq<T>, le: (T, T) -> bool)
    requires TotalPreorder(le) && SortedBy(s, le)
    requires |s| > 0 && !le(x, s[0])
    requires SortedBy(rest, le) && multiset(rest) == multiset(s[1..]) + multiset{x}
    ensures SortedBy([s[0]] + rest, le)
    ensures multiset([s[0]] + rest) == multiset(s) + multiset{x}
  {
    assert s == [s[0]] + s[1..];
    forall k | 0 <= k < |rest|
      ensures le(s[0], rest[k])
    {
      assert rest[k] in multiset(rest);
      if rest[k] != x {
        assert rest[k] in s[1..];
      }
    }
  }

  /** `sorted(xs, key=...)`: a permutation of `xs` in ascending order. */
  function SortBy<T(!new)>(xs: seq<T>, le: (T, T) -> bool): (r: seq<T>)
    requires TotalPreorder(le)
    ensures |r| == |xs|
    ensures multiset(r) == multiset(xs)
    ensures SortedBy(r, le)
  {
    if |xs| == 0 then []
    else
      assert xs == [xs[0]] + xs[1..];
      Insert(xs[0], SortBy(xs[1..], le), le)
  }

  /** Inserting `x` places it before every element equivalent to it. */
  lemma {:induction false} InsertTied<T(!new)>(x: T, s: seq<T>, le: (T, T) -> bool, v: T)
    requires TotalPreorder(le)
    requires SortedBy(s, le)
    ensures Tied(Insert(x, s, le), le, v) ==
              if le(x, v) && le(v, x) then [x] + Tied(s, le, v) else Tied(s, le, v)
  {
    if |s| == 0 {
    } else if le(x, s[0]) {
      assert ([x] + s)[1..] == s;
    } else {
      InsertTied(x, s[1..], le, v);
      var r := [s[0]] + Insert(x, s[1..], le);
      assert r[1..] == Insert(x, s[1..], le);
      if le(x, v) && le(v, x) {
        // s[0] is strictly below x, so it is not tied with v.
        assert !(le(s[0], v) && le(v, s[0]));
      }
    }
  }

  /** Stability: elements that compare equal keep their original relative order. */
  lemma {:induction false} SortByStable<T(!new)>(xs: seq<T>, le: (T, T) -> bool, v: T)
    requires TotalPreorder(le)
    ensures Tied(SortBy(xs, le), le, v) == Tied(xs, le, v)
  {
    if |xs| > 0 {
      SortByStable(xs[1..], le, v);
      InsertTied(xs[0], SortBy(xs[1..], le), le, v);
    }
  }

  /** A sorted sequence is left alone. */
  lemma {:induction false} SortBySorted<T(!new)>(xs: seq<T>, le: (T, T) -> bool)
    requires TotalPreorder(le)
    requires SortedBy(xs, le)
    ensures SortBy(xs, le) == xs
  {
    if |xs| > 0 {
      SortBySorted(xs[1..], le);
      if |xs| > 1 {
        assert le(xs[0], xs[1..][0]);
      }
      assert xs == [xs[0]] + xs[1..];
    }
  }

  // ---------------------------------------------------------------------------
  // The ascending list of a set of integers
  // ---------------------------------------------------------------------------

  lemma MinExists(s: set<int>)
    requires s != {}
    ensures exists m :: m in s && forall x :: x in s ==> m <= x
  {
    var m := MinOf(s);
  }

  /** The least element of a non-empty finite set, found by taking out one element. */
  lemma {:induction false} MinOf(s: set<int>) returns (m: int)
    requires s != {}
    ensures m in s && forall x :: x in s ==> m <= x
    decreases |s|
  {
    var y := PickOne(s);
    var rest := s - {y};
    if rest == {} {
      m := y;
      forall x | x in s
        ensures m <= x
      {
        assert x !in rest;
      }
    } else {
      var low := MinOf(rest);
      m := if y < low then y else low;
      forall x | x in s
        ensures m <= x
      {
        if x != y {
          assert x in rest;
        }
      }
    }
  }

  lemma PickOne(s: set<int>) returns (y: int)
    requires s != {}
    ensures y in s
  {
    if forall z :: z !in s {
      NoElements(s);
      assert false;
    }
    y :| y in s;
  }

  lemma NoElements(s: set<int>)
    requires forall z :: z !in s
    ensures s == {}
  {
    assert forall z :: z in s <==> z in {};
  }

  function SetMin(s: set<int>): (m: int)
    requires s != {}
    ensures m in s && forall x :: x in s ==> m <= x
  {
    MinExists(s);
    var m :| m in s && forall x :: x in s ==> m <= x;
    m
  }

  predicate StrictlyIncreasing(xs: seq<int>) {
    forall i, j :: 0 <= i < j < |xs| ==> xs[i] < xs[j]
  }

  /** `sorted(...)` of distinct integers: every element once, ascending. */
  function SortedElements(s: set<int>): (r: seq<int>)
    ensures |r| == |s|
    ensures forall x :: x in r <==> x in s
    ensures StrictlyIncreasing(r)
    decreases |s|
  {
    if s == {} then []
    else
      var m := SetMin(s);
      var rest := SortedElements(s - {m});
      MinInFront(s, m, rest);
      [m] + rest
  }

  /** The least element followed by the rest in ascending order is the whole set in
      ascending order. */
  lemma MinInFront(s: set<int>, m: int, rest: seq<int>)
    requires m in s && forall x :: x in s ==> m <= x
    requires |rest| == |s - {m}| && StrictlyIncreasing(rest)
    requires forall x :: x in rest <==> x in s - {m}
    ensures |[m] + rest| == |s|
    ensures forall x :: x in [m] + rest <==> x in s
    ensures StrictlyIncreasing([m] + rest)
  {
    forall k | 0 <= k < |rest|
      ensures m < rest[k]
    {
      assert rest[k] in rest;
    }
  }
}
