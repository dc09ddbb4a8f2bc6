/**
 The search space of the tuner (`__buildCoordSystem`): one axis per
 performance parameter, named after it, whose values are the parameter's
 candidate values with duplicates removed, in ascending order.
 */
module CoordSystem {
  import opened Variants

  predicate NoDuplicates(xs: seq<Value>)
  {
    forall i, j :: 0 <= i < j < |xs| ==> xs[i] != xs[j]
  }

  predicate Sorted(xs: seq<Value>)
  {
    forall i, j :: 0 <= i < j < |xs| ==> xs[i] <= xs[j]
  }

  predicate StrictlyIncreasing(xs: seq<Value>)
  {
    forall i, j :: 0 <= i < j < |xs| ==> xs[i] < xs[j]
  }

  /**
   Scans `rest` left to right, appending each value not already kept: the
   first occurrence of every value survives, in input order.
   */
  function DedupFrom(kept: seq<Value>, rest: seq<Value>): (r: seq<Value>)
    requires NoDuplicates(kept)
    ensures NoDuplicates(r)
    ensures forall x :: x in r <==> x in kept || x in rest
    ensures |kept| <= |r| && r[..|kept|] == kept
    decreases |rest|
  {
    if |rest| == 0 then kept
    else if rest[0] in kept then DedupFrom(kept, rest[1..])
    else DedupFrom(kept + [rest[0]], rest[1..])
  }

  function Dedup(xs: seq<Value>): (r: seq<Value>)
    ensures NoDuplicates(r)
    ensures forall x :: x in r <==> x in xs
  {
    DedupFrom([], xs)
  }

  /** `x` inserted into the sorted `xs` before the first element not below it. */
  function Insert(x: Value, xs: seq<Value>): (r: seq<Value>)
    requires Sorted(xs)
    ensures Sorted(r)
    ensures multiset(r) == multiset(xs) + multiset{x}
  {
    if |xs| == 0 then [x]
    else if x <= xs[0] then [x] + xs
    else
      var tail := Insert(x, xs[1..]);
      assert xs == [xs[0]] + xs[1..];
      forall y | y in tail
        ensures xs[0] <= y
      {
        assert y in multiset(tail);
        assert y in multiset(xs[1..]) || y == x;
      }
      ConsSorted(xs[0], tail);
      [xs[0]] + tail
  }

  lemma ConsSorted(h: Value, tail: seq<Value>)
    requires Sorted(tail)
    requires forall y :: y in tail ==> h <= y
    ensures Sorted([h] + tail)
  {
    var r := [h] + tail;
    forall i, j | 0 <= i < j < |r|
      ensures r[i] <= r[j]
    {
      assert r[j] == tail[j - 1];
      if i == 0 {
        assert tail[j - 1] in tail;
      } else {
        assert r[i] == tail[i - 1];
      }
    }
  }

  /** Ascending sort (insertion sort). */
  function Sort(xs: seq<Value>): (r: seq<Value>)
    ensures Sorted(r)
    ensures multiset(r) == multiset(xs)
  {
    if |xs| == 0 then []
    else
      assert xs == [xs[0]] + xs[1..];
      Insert(xs[0], Sort(xs[1..]))
  }

  lemma {:induction false} NoDuplicatesCount(xs: seq<Value>, v: Value)
    requires NoDuplicates(xs)
    ensures multiset(xs)[v] <= 1
  {
    if |xs| > 0 {
      assert xs == [xs[0]] + xs[1..];
      NoDuplicatesCount(xs[1..], v);
      if v == xs[0] {
        assert v !in xs[1..];
      }
    }
  }

  lemma TwoOccurrences(ys: seq<Value>, i: nat, j: nat)
    requires i < j < |ys| && ys[i] == ys[j]
    ensures multiset(ys)[ys[i]] >= 2
  {
    assert ys == ys[..j] + ys[j..];
    assert ys[i] in ys[..j];
    assert ys[j] in ys[j..];
  }

  /** A permutation of a duplicate-free sequence is duplicate-free. */
  lemma PermutationKeepsNoDuplicates(xs: seq<Value>, ys: seq<Value>)
    requires NoDuplicates(xs) && multiset(ys) == multiset(xs)
    ensures NoDuplicates(ys)
  {
    forall i, j | 0 <= i < j < |ys|
      ensures ys[i] != ys[j]
    {
      if ys[i] == ys[j] {
        TwoOccurrences(ys, i, j);
        NoDuplicatesCount(xs, ys[i]);
      }
    }
  }

  /**
   One axis's value range: exactly the candidate values, each once, in
   ascending order.
   */
  function NormalizeRange(xs: seq<Value>): (r: seq<Value>)
    ensures StrictlyIncreasing(r)
    ensures forall x :: x in r <==> x in xs
  {
    var d := Dedup(xs);
    var s := Sort(d);
    PermutationKeepsNoDuplicates(d, s);
    assert forall x :: x in s <==> x in multiset(d);
    s
  }

  lemma HeadIsMember(b: seq<Value>)
    ensures |b| > 0 ==> b[0] in b
  {
  }

  /** Two ascending enumerations of the same values are equal. */
  lemma {:induction false} StrictlyIncreasingUnique(a: seq<Value>, b: seq<Value>)
    requires StrictlyIncreasing(a) && StrictlyIncreasing(b)
    requires forall x :: x in a <==> x in b
    ensures a == b
  {
    if |a| == 0 {
      HeadIsMember(b);
    } else {
      assert a[0] in a;
      assert a[0] in b;
      assert |b| > 0;
      assert b[0] in b;
      assert b[0] in a;
      assert a[0] == b[0];
      forall x
        ensures x in a[1..] <==> x in b[1..]
      {
        if x in a[1..] {
          assert x in b && x != b[0];
        }
        if x in b[1..] {
          assert x in a && x != a[0];
        }
      }
      StrictlyIncreasingUnique(a[1..], b[1..]);
      assert a == [a[0]] + a[1..];
      assert b == [b[0]] + b[1..];
    }
  }

  /**
   The axis names and axis value ranges of the search space, one axis per
   performance parameter, in parameter order.
   */
  function BuildCoordSystem(perfParams: seq<(string, seq<Value>)>): (r: (seq<string>, seq<seq<Value>>))
    ensures |r.0| == |perfParams| && |r.1| == |perfParams|
    ensures forall i :: 0 <= i < |perfParams| ==> r.0[i] == perfParams[i].0
    ensures forall i :: 0 <= i < |perfParams| ==> StrictlyIncreasing(r.1[i])
    ensures forall i :: 0 <= i < |perfParams| ==>
              forall x :: x in r.1[i] <==> x in perfParams[i].1
  {
    (seq(|perfParams|, i requires 0 <= i < |perfParams| => perfParams[i].0),
     seq(|perfParams|, i requires 0 <= i < |perfParams| => NormalizeRange(perfParams[i].1)))
  }

  /**
   Each axis range is the one ascending enumeration of its parameter's
   candidate values: any other duplicate-free sorted list of those values
   is that very range.
   */
  lemma AxisRangeIsCanonical(perfParams: seq<(string, seq<Value>)>, i: nat, s: seq<Value>)
    requires i < |perfParams|
    requires StrictlyIncreasing(s)
    requires forall x :: x in s <==> x in perfParams[i].1
    ensures BuildCoordSystem(perfParams).1[i] == s
  {
    StrictlyIncreasingUnique(BuildCoordSystem(perfParams).1[i], s);
  }
}
