/**
 The tuner's enumeration of all combinations of several value lists
 (`__listAllCombinations`), compared with the textbook Cartesian product.
 The two agree except for one quirk: an empty result of the recursive step
 is replaced by a single empty combination, so a trailing empty list is
 ignored instead of emptying the whole product.
 */
module Combinations {
  import opened SeqUtil

  /** `[x] + c` for every `c` in `cs`, in order. */
  function Prepend<T>(x: T, cs: seq<seq<T>>): (r: seq<seq<T>>)
    ensures |r| == |cs|
    ensures forall k :: 0 <= k < |cs| ==> r[k] == [x] + cs[k]
  {
    seq(|cs|, k requires 0 <= k < |cs| => [x] + cs[k])
  }

  /** `[x] + c` for every `x` in `xs` (outer loop) and every `c` in `cs` (inner loop). */
  function PrependEach<T>(xs: seq<T>, cs: seq<seq<T>>): (r: seq<seq<T>>)
    ensures |r| == |xs| * |cs|
  {
    if |xs| == 0 then [] else Prepend(xs[0], cs) + PrependEach(xs[1..], cs)
  }

  /**
   All combinations of the given lists, as the tuner enumerates them: no
   lists give no combinations, and an empty recursive result is replaced by
   `[[]]` before the first list is prepended.
   */
  function ListAllCombinations<T>(seqs: seq<seq<T>>): seq<seq<T>>
    decreases |seqs|
  {
    if |seqs| == 0 then []
    else
      var trailing := ListAllCombinations(seqs[1..]);
      PrependEach(seqs[0], if |trailing| == 0 then [[]] else trailing)
  }

  /** The Cartesian product, first list outermost; the product of no lists is `[[]]`. */
  function CartesianProduct<T>(seqs: seq<seq<T>>): (r: seq<seq<T>>)
    ensures |r| == ProductOfLengths(seqs)
    decreases |seqs|
  {
    if |seqs| == 0 then [[]] else PrependEach(seqs[0], CartesianProduct(seqs[1..]))
  }

  /** The index of the first empty list, or the number of lists if none is empty. */
  function FirstEmpty<T>(seqs: seq<seq<T>>): (k: nat)
    ensures k <= |seqs|
    ensures forall i :: 0 <= i < k ==> |seqs[i]| > 0
    ensures k < |seqs| ==> |seqs[k]| == 0
    decreases |seqs|
  {
    if |seqs| == 0 || |seqs[0]| == 0 then 0 else 1 + FirstEmpty(seqs[1..])
  }

  lemma {:induction false} FirstEmptyOfNonEmpty<T>(seqs: seq<seq<T>>)
    requires forall k :: 0 <= k < |seqs| ==> |seqs[k]| > 0
    ensures FirstEmpty(seqs) == |seqs|
    decreases |seqs|
  {
    if |seqs| > 0 {
      FirstEmptyOfNonEmpty(seqs[1..]);
    }
  }

  /**
   The tuner's enumeration is the Cartesian product of the lists before the
   first empty one, or nothing at all when that is the very first list.
   */
  lemma {:induction false} ListAllIsTruncatedProduct<T>(seqs: seq<seq<T>>)
    ensures ListAllCombinations(seqs)
         == if FirstEmpty(seqs) == 0 then [] else CartesianProduct(seqs[..FirstEmpty(seqs)])
    decreases |seqs|
  {
    if |seqs| > 0 && |seqs[0]| > 0 {
      var rest := seqs[1..];
      var e := FirstEmpty(rest);
      ListAllIsTruncatedProduct(rest);
      assert FirstEmpty(seqs) == e + 1;
      var prefix := seqs[..e + 1];
      assert prefix[0] == seqs[0] && prefix[1..] == rest[..e];
      assert CartesianProduct(prefix) == PrependEach(seqs[0], CartesianProduct(rest[..e]));
      if e > 0 {
        ProductOfNonEmptyIsPositive(rest[..e]);
        assert ListAllCombinations(rest) == CartesianProduct(rest[..e]);
      } else {
        assert ListAllCombinations(rest) == [];
        assert rest[..e] == [];
      }
    }
  }

  /** Position i * |cs| + j of `PrependEach(xs, cs)` holds `[xs[i]] + cs[j]`. */
  lemma {:induction false} PrependEachAt<T>(xs: seq<T>, cs: seq<seq<T>>, i: nat, j: nat)
    requires i < |xs| && j < |cs|
    ensures i * |cs| + j < |PrependEach(xs, cs)|
    ensures PrependEach(xs, cs)[i * |cs| + j] == [xs[i]] + cs[j]
  {
    var n := |cs|;
    if i > 0 {
      PrependEachAt(xs[1..], cs, i - 1, j);
      assert i * n == n + (i - 1) * n;
      assert |xs| * n == n + (|xs| - 1) * n;
    }
  }

  /** Every element of `PrependEach(xs, cs)` is some `[x] + c`. */
  lemma {:induction false} PrependEachMember<T>(xs: seq<T>, cs: seq<seq<T>>, c: seq<T>)
    requires c in PrependEach(xs, cs)
    ensures |c| > 0 && c[0] in xs && c[1..] in cs
  {
    if c in Prepend(xs[0], cs) {
      var k :| 0 <= k < |cs| && Prepend(xs[0], cs)[k] == c;
      assert c[1..] == cs[k];
    } else {
      PrependEachMember(xs[1..], cs, c);
    }
  }

  /** `c` takes, in order, exactly one element from each list. */
  ghost predicate PicksFrom<T>(seqs: seq<seq<T>>, c: seq<T>)
  {
    |c| == |seqs| && forall k :: 0 <= k < |c| ==> c[k] in seqs[k]
  }

  /** Every combination picks one element from each list, in list order. */
  lemma {:induction false} CartesianProductShape<T>(seqs: seq<seq<T>>, c: seq<T>)
    requires c in CartesianProduct(seqs)
    ensures PicksFrom(seqs, c)
    decreases |seqs|
  {
    if |seqs| > 0 {
      PrependEachMember(seqs[0], CartesianProduct(seqs[1..]), c);
      CartesianProductShape(seqs[1..], c[1..]);
      forall k | 0 <= k < |c|
        ensures c[k] in seqs[k]
      {
        if k > 0 {
          assert c[k] == c[1..][k - 1];
        }
      }
    }
  }

  /** An index vector choosing position `idx[k]` of list `k`. */
  predicate ValidIndex<T>(seqs: seq<seq<T>>, idx: seq<nat>)
  {
    |idx| == |seqs| && forall k :: 0 <= k < |idx| ==> idx[k] < |seqs[k]|
  }

  /** The combination an index vector selects. */
  function Pick<T>(seqs: seq<seq<T>>, idx: seq<nat>): (c: seq<T>)
    requires ValidIndex(seqs, idx)
    ensures |c| == |seqs|
  {
    seq(|seqs|, k requires 0 <= k < |seqs| => seqs[k][idx[k]])
  }

  /** Mixed-radix position of an index vector, the first list most significant. */
  function Rank<T>(seqs: seq<seq<T>>, idx: seq<nat>): nat
    requires ValidIndex(seqs, idx)
    decreases |seqs|
  {
    if |seqs| == 0 then 0
    else idx[0] * ProductOfLengths(seqs[1..]) + Rank(seqs[1..], idx[1..])
  }

  /** The combination an index vector selects sits at that vector's rank. */
  lemma {:induction false} CartesianProductAt<T>(seqs: seq<seq<T>>, idx: seq<nat>)
    requires ValidIndex(seqs, idx)
    ensures Rank(seqs, idx) < |CartesianProduct(seqs)|
    ensures CartesianProduct(seqs)[Rank(seqs, idx)] == Pick(seqs, idx)
    decreases |seqs|
  {
    if |seqs| > 0 {
      var rest := seqs[1..];
      var tail := CartesianProduct(rest);
      var r := Rank(rest, idx[1..]);
      CartesianProductAt(rest, idx[1..]);
      PrependEachAt(seqs[0], tail, idx[0], r);
      assert Rank(seqs, idx) == idx[0] * |tail| + r;
      assert Pick(seqs, idx) == [seqs[0][idx[0]]] + Pick(rest, idx[1..]);
    }
  }

  /** Strict lexicographic order on index vectors of equal length. */
  predicate LexLess(a: seq<nat>, b: seq<nat>)
    decreases |a|
  {
    |a| > 0 && |b| > 0 && (a[0] < b[0] || (a[0] == b[0] && LexLess(a[1..], b[1..])))
  }

  lemma RankBelowProduct<T>(seqs: seq<seq<T>>, idx: seq<nat>)
    requires ValidIndex(seqs, idx)
    ensures Rank(seqs, idx) < ProductOfLengths(seqs)
  {
    CartesianProductAt(seqs, idx);
  }

  lemma MulMonotone(x: nat, y: nat, p: nat)
    requires x <= y
    ensures x * p <= y * p
  {
  }

  /** Enumeration order is lexicographic in the chosen positions, first list outermost. */
  lemma {:induction false} RankIsLexicographic<T>(seqs: seq<seq<T>>, a: seq<nat>, b: seq<nat>)
    requires ValidIndex(seqs, a) && ValidIndex(seqs, b)
    requires LexLess(a, b)
    ensures Rank(seqs, a) < Rank(seqs, b)
    decreases |seqs|
  {
    var rest := seqs[1..];
    var p := ProductOfLengths(rest);
    var ra := Rank(rest, a[1..]);
    var rb := Rank(rest, b[1..]);
    assert Rank(seqs, a) == a[0] * p + ra;
    assert Rank(seqs, b) == b[0] * p + rb;
    if a[0] < b[0] {
      RankBelowProduct(rest, a[1..]);
      MulMonotone(a[0] + 1, b[0], p);
      assert (a[0] + 1) * p == a[0] * p + p;
    } else {
      RankIsLexicographic(rest, a[1..], b[1..]);
    }
  }

  /** With no lists there are no combinations. */
  lemma ListAllCombinationsOfNothing<T>()
    ensures ListAllCombinations<T>([]) == []
  {
  }

  /**
   When every list is non-empty, the enumeration is the full Cartesian
   product: as many combinations as the product of the lengths, each
   picking one element of every list, the combination of positions `idx`
   at rank `idx`.
   */
  lemma ListAllCombinationsNonEmpty<T>(seqs: seq<seq<T>>)
    requires |seqs| > 0
    requires forall k :: 0 <= k < |seqs| ==> |seqs[k]| > 0
    ensures ListAllCombinations(seqs) == CartesianProduct(seqs)
    ensures |ListAllCombinations(seqs)| == ProductOfLengths(seqs)
    ensures forall c :: c in ListAllCombinations(seqs) ==> PicksFrom(seqs, c)
    ensures forall idx :: ValidIndex(seqs, idx) ==>
              Rank(seqs, idx) < |ListAllCombinations(seqs)| &&
              ListAllCombinations(seqs)[Rank(seqs, idx)] == Pick(seqs, idx)
  {
    ListAllIsTruncatedProduct(seqs);
    FirstEmptyOfNonEmpty(seqs);
    assert seqs[..|seqs|] == seqs;
    forall c | c in ListAllCombinations(seqs)
      ensures PicksFrom(seqs, c)
    {
      CartesianProductShape(seqs, c);
    }
    forall idx | ValidIndex(seqs, idx)
      ensures Rank(seqs, idx) < |ListAllCombinations(seqs)|
      ensures ListAllCombinations(seqs)[Rank(seqs, idx)] == Pick(seqs, idx)
    {
      CartesianProductAt(seqs, idx);
    }
  }

  /** A trailing empty list is ignored: `[xs, []]` enumerates `[[x] for x in xs]`. */
  lemma ListAllCombinationsTrailingEmpty<T>(xs: seq<T>)
    ensures ListAllCombinations([xs, []]) == seq(|xs|, i requires 0 <= i < |xs| => [xs[i]])
  {
    if |xs| == 0 {
      assert [xs, []] == [[]] + [[]];
      ListAllCombinationsLeadingEmpty<T>([[]]);
      return;
    }
    var seqs := [xs, []];
    ListAllIsTruncatedProduct(seqs);
    assert FirstEmpty(seqs) == 1;
    assert seqs[..1] == [xs];
    assert [xs][1..] == [];
    var r := CartesianProduct([xs]);
    assert r == PrependEach(xs, [[]]);
    forall i | 0 <= i < |xs|
      ensures r[i] == [xs[i]]
    {
      PrependEachAt(xs, [[]], i, 0);
    }
  }

  /** An empty first list empties the enumeration, whatever follows. */
  lemma ListAllCombinationsLeadingEmpty<T>(rest: seq<seq<T>>)
    ensures ListAllCombinations([[]] + rest) == []
  {
  }

  /** The documented example, with the values written as characters. */
  lemma ListAllCombinationsExample()
    ensures ListAllCombinations([['a', 'b'], ['1', '2']])
         == [['a', '1'], ['a', '2'], ['b', '1'], ['b', '2']]
  {
    var seqs := [['a', 'b'], ['1', '2']];
    assert seqs[1..] == [['1', '2']];
    assert seqs[1..][1..] == [];
    var e: seq<seq<char>> := [[]];
    assert ['1'] + e[0] == ['1'] && ['2'] + e[0] == ['2'];
    assert Prepend('1', e)[0] == ['1'];
    assert Prepend('2', e)[0] == ['2'];
    assert ['1', '2'][1..] == ['2'];
    assert ['2'][1..] == [];
    assert PrependEach(['2'], e) == [['2']];
    assert PrependEach(['1', '2'], e) == [['1'], ['2']];
    assert ListAllCombinations(seqs[1..]) == [['1'], ['2']];
    var t := [['1'], ['2']];
    assert ['a'] + t[0] == ['a', '1'] && ['a'] + t[1] == ['a', '2'];
    assert ['b'] + t[0] == ['b', '1'] && ['b'] + t[1] == ['b', '2'];
    assert Prepend('a', t)[0] == ['a', '1'] && Prepend('a', t)[1] == ['a', '2'];
    assert Prepend('b', t)[0] == ['b', '1'] && Prepend('b', t)[1] == ['b', '2'];
    assert ['a', 'b'][1..] == ['b'];
    assert ['b'][1..] == [];
    assert PrependEach(['b'], t) == [['b', '1'], ['b', '2']];
  }
}
