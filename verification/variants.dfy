/**
 Variants are the optimizer's output: one generated code text per
 alternative realization of a source span, with the parameter bindings
 that produced it. Sibling fragments combine their variant sequences as a
 Cartesian product; annotated regions wrap each variant in their
 leader and trailer text.
 */
module Variants {
  import opened Outcomes
  import opened SeqUtil

  /** Parameter values are modelled as integers. */
  type Value = int

  /** A parameter name bound to a value. */
  type Binding = (string, Value)

  /** The performance parameters a transformation is configured with. */
  type PerfParams = map<string, Value>

  /**
   One realization: generated code, and the bindings recording which
   tuned alternative (problem size) produced it; empty for untuned code.
   */
  datatype Variant = Variant(code: string, meta: seq<Binding>)

  /** Two realizations of adjacent spans, put side by side. */
  function Join(a: Variant, b: Variant): Variant
  {
    Variant(a.code + b.code, a.meta + b.meta)
  }

  /** `a` joined with every variant of `bs`, in order. */
  function Row(a: Variant, bs: seq<Variant>): (r: seq<Variant>)
    ensures |r| == |bs|
    ensures forall j :: 0 <= j < |bs| ==> r[j] == Join(a, bs[j])
  {
    seq(|bs|, j requires 0 <= j < |bs| => Join(a, bs[j]))
  }

  /**
   The combination of the variants accumulated so far with the variants
   of the next fragment: every accumulated variant (outer loop) joined with
   every next variant (inner loop).
   */
  function Combine(acc: seq<Variant>, next: seq<Variant>): (r: seq<Variant>)
    ensures |r| == |acc| * |next|
  {
    if |acc| == 0 then [] else Row(acc[0], next) + Combine(acc[1..], next)
  }

  /** Combining two single variants gives their join alone. */
  lemma CombineSingletons(a: Variant, b: Variant)
    ensures Combine([a], [b]) == [Join(a, b)]
  {
    assert [a][1..] == [];
    assert Row(a, [b]) == [Join(a, b)];
  }

  /** Combining with a single next variant joins it onto every accumulated variant. */
  lemma {:induction false} CombineWithOne(acc: seq<Variant>, b: Variant)
    ensures Combine(acc, [b]) == seq(|acc|, i requires 0 <= i < |acc| => Join(acc[i], b))
  {
    if |acc| > 0 {
      CombineWithOne(acc[1..], b);
      assert Row(acc[0], [b]) == [Join(acc[0], b)];
    }
  }

  /** Combining a single accumulated variant is its row. */
  lemma CombineOne(a: Variant, vs: seq<Variant>)
    ensures Combine([a], vs) == Row(a, vs)
  {
    assert [a][1..] == [];
  }

  /** Combining with one plain variant on each side frames every variant's code. */
  lemma Framed(before: string, vs: seq<Variant>, after: string)
    ensures Combine(Combine([Variant(before, [])], vs), [Variant(after, [])])
            == seq(|vs|, i requires 0 <= i < |vs| => Variant(before + vs[i].code + after, vs[i].meta))
  {
    var left := Row(Variant(before, []), vs);
    CombineOne(Variant(before, []), vs);
    CombineWithOne(left, Variant(after, []));
    FramedRow(before, vs, after, left);
  }

  lemma FramedRow(before: string, vs: seq<Variant>, after: string, left: seq<Variant>)
    requires left == Row(Variant(before, []), vs)
    ensures seq(|left|, i requires 0 <= i < |left| => Join(left[i], Variant(after, [])))
            == seq(|vs|, i requires 0 <= i < |vs| => Variant(before + vs[i].code + after, vs[i].meta))
  {
    var both := seq(|left|, i requires 0 <= i < |left| => Join(left[i], Variant(after, [])));
    var expected := seq(|vs|, i requires 0 <= i < |vs| => Variant(before + vs[i].code + after, vs[i].meta));
    forall i | 0 <= i < |vs|
      ensures both[i] == expected[i]
    {
      assert [] + vs[i].meta + [] == vs[i].meta;
    }
  }

  /** Enumeration order: element (i, j) sits at position i * |next| + j. */
  lemma {:induction false} CombineAt(acc: seq<Variant>, next: seq<Variant>, i: nat, j: nat)
    requires i < |acc| && j < |next|
    ensures i * |next| + j < |Combine(acc, next)|
    ensures Combine(acc, next)[i * |next| + j] == Join(acc[i], next[j])
  {
    var n := |next|;
    if i > 0 {
      CombineAt(acc[1..], next, i - 1, j);
      assert i * n == n + (i - 1) * n;
      assert |acc| * n == n + (|acc| - 1) * n;
    }
  }

  /** Every combined variant is the join of one accumulated and one next variant. */
  lemma {:induction false} CombineMember(acc: seq<Variant>, next: seq<Variant>, v: Variant)
    requires v in Combine(acc, next)
    ensures exists i, j :: 0 <= i < |acc| && 0 <= j < |next| && v == Join(acc[i], next[j])
  {
    var r := Combine(acc, next);
    if v in Row(acc[0], next) {
      var j :| 0 <= j < |next| && Row(acc[0], next)[j] == v;
      assert v == Join(acc[0], next[j]);
    } else {
      assert v in Combine(acc[1..], next);
      CombineMember(acc[1..], next, v);
      var i, j :| 0 <= i < |acc| - 1 && 0 <= j < |next| && v == Join(acc[1..][i], next[j]);
      assert v == Join(acc[i + 1], next[j]);
    }
  }

  lemma {:induction false} CombineAppendLeft(a: seq<Variant>, b: seq<Variant>, c: seq<Variant>)
    ensures Combine(a + b, c) == Combine(a, c) + Combine(b, c)
  {
    if |a| == 0 {
      assert a + b == b;
    } else {
      assert (a + b)[0] == a[0];
      assert (a + b)[1..] == a[1..] + b;
      CombineAppendLeft(a[1..], b, c);
    }
  }

  lemma {:induction false} CombineRow(x: Variant, b: seq<Variant>, c: seq<Variant>)
    ensures Combine(Row(x, b), c) == Row(x, Combine(b, c))
  {
    if |b| > 0 {
      var b0 := b[0];
      assert Row(x, b) == [Join(x, b0)] + Row(x, b[1..]);
      CombineAppendLeft([Join(x, b0)], Row(x, b[1..]), c);
      CombineRow(x, b[1..], c);
      assert Combine([Join(x, b0)], c) == Row(Join(x, b0), c);
      forall k | 0 <= k < |c|
        ensures Row(Join(x, b0), c)[k] == Row(x, Row(b0, c))[k]
      {
        assert (x.code + b0.code) + c[k].code == x.code + (b0.code + c[k].code);
        assert (x.meta + b0.meta) + c[k].meta == x.meta + (b0.meta + c[k].meta);
      }
      assert Row(Join(x, b0), c) == Row(x, Row(b0, c));
      assert Row(x, Row(b0, c) + Combine(b[1..], c))
          == Row(x, Row(b0, c)) + Row(x, Combine(b[1..], c));
    }
  }

  /** Combining is associative: grouping siblings differently changes neither the variants nor their order. */
  lemma {:induction false} CombineAssociative(a: seq<Variant>, b: seq<Variant>, c: seq<Variant>)
    ensures Combine(Combine(a, b), c) == Combine(a, Combine(b, c))
  {
    if |a| > 0 {
      CombineAppendLeft(Row(a[0], b), Combine(a[1..], b), c);
      CombineRow(a[0], b, c);
      CombineAssociative(a[1..], b, c);
    }
  }

  /** What is accumulated after one more sequence: that sequence itself when nothing was before. */
  function Accumulate(acc: Option<seq<Variant>>, next: seq<Variant>): seq<Variant>
  {
    if acc.None? then next else Combine(acc.value, next)
  }

  /**
   Left fold of `Combine` over a list of variant sequences, starting from
   `acc`; `None` stands for "nothing accumulated yet".
   */
  function CombineFrom(acc: Option<seq<Variant>>, vss: seq<seq<Variant>>): Option<seq<Variant>>
    decreases |vss|
  {
    if |vss| == 0 then acc
    else CombineFrom(Some(Accumulate(acc, vss[0])), vss[1..])
  }

  /** The combination of all the given variant sequences; `None` for an empty list. */
  function CombineAll(vss: seq<seq<Variant>>): (r: Option<seq<Variant>>)
    ensures r.None? <==> |vss| == 0
  {
    CombineFromSomeOrNone(vss);
    CombineFrom(None, vss)
  }

  lemma {:induction false} CombineFromSomeOrNone(vss: seq<seq<Variant>>)
    ensures CombineFrom(None, vss).None? <==> |vss| == 0
    decreases |vss|
  {
    if |vss| > 0 {
      CombineFromSomeStays(vss[0], vss[1..]);
    }
  }

  lemma {:induction false} CombineFromSomeStays(x: seq<Variant>, vss: seq<seq<Variant>>)
    ensures CombineFrom(Some(x), vss).Some?
    decreases |vss|
  {
    if |vss| > 0 {
      CombineFromSomeStays(Combine(x, vss[0]), vss[1..]);
    }
  }

  /** Folding over `a + b` is folding over `a`, then over `b`. */
  lemma {:induction false} CombineFromAppend(acc: Option<seq<Variant>>, a: seq<seq<Variant>>, b: seq<seq<Variant>>)
    ensures CombineFrom(acc, a + b) == CombineFrom(CombineFrom(acc, a), b)
    decreases |a|
  {
    if |a| == 0 {
      assert a + b == b;
    } else {
      assert (a + b)[0] == a[0];
      assert (a + b)[1..] == a[1..] + b;
      CombineFromAppend(Some(Accumulate(acc, a[0])), a[1..], b);
    }
  }

  /** An accumulated sequence `x` combines with the combination of the rest. */
  lemma {:induction false} CombineFromSome(x: seq<Variant>, vss: seq<seq<Variant>>)
    requires |vss| > 0
    ensures CombineFrom(Some(x), vss) == Some(Combine(x, CombineAll(vss).value))
    decreases |vss|
  {
    if |vss| == 1 {
      assert vss[1..] == [];
      assert CombineFrom(Some(x), vss) == CombineFrom(Some(Combine(x, vss[0])), []);
      assert CombineAll(vss) == CombineFrom(Some(vss[0]), []);
    } else {
      CombineFromSome(Combine(x, vss[0]), vss[1..]);
      CombineFromSome(vss[0], vss[1..]);
      CombineAssociative(x, vss[0], CombineAll(vss[1..]).value);
    }
  }

  /** A single sequence combines to itself. */
  lemma CombineAllSingle(vs: seq<Variant>)
    ensures CombineAll([vs]) == Some(vs)
  {
    assert [vs][1..] == [];
    assert CombineAll([vs]) == CombineFrom(Some(vs), []);
  }

  /** The number of combined variants is the product of the per-sequence counts. */
  lemma {:induction false} CombineAllCount(vss: seq<seq<Variant>>)
    requires |vss| > 0
    ensures |CombineAll(vss).value| == ProductOfLengths(vss)
  {
    if |vss| == 1 {
      assert vss[1..] == [];
      assert CombineAll(vss) == CombineFrom(Some(vss[0]), []);
    } else {
      assert CombineAll(vss) == CombineFrom(Some(vss[0]), vss[1..]);
      CombineFromSome(vss[0], vss[1..]);
      CombineAllCount(vss[1..]);
    }
  }

  /**
   Combining a list of sequences split anywhere equals combining the two
   halves and then combining the results.
   */
  lemma {:induction false} CombineAllAppend(a: seq<seq<Variant>>, b: seq<seq<Variant>>)
    requires |a| > 0 && |b| > 0
    ensures CombineAll(a + b) == Some(Combine(CombineAll(a).value, CombineAll(b).value))
  {
    CombineFromAppend(None, a, b);
    CombineFromSome(CombineAll(a).value, b);
  }

  /**
   Each variant's code surrounded by a region's leader and trailer text;
   the bindings pass through untouched.
   */
  function Wrap(leader: string, trailer: string, vs: seq<Variant>): (r: seq<Variant>)
    ensures |r| == |vs|
    ensures forall i :: 0 <= i < |vs| ==> r[i].meta == vs[i].meta
    ensures forall i :: 0 <= i < |vs| ==> r[i].code == leader + vs[i].code + trailer
  {
    seq(|vs|, i requires 0 <= i < |vs| => Variant(leader + vs[i].code + trailer, vs[i].meta))
  }

  /** `c` begins with `leader` and ends with `trailer`, the two not overlapping. */
  predicate IsWrapped(leader: string, trailer: string, c: string)
  {
    && |c| >= |leader| + |trailer|
    && c[..|leader|] == leader
    && c[|c| - |trailer|..] == trailer
  }

  /** Every wrapped code carries the leader in front and the trailer at the end. */
  lemma WrapMarksEveryCode(leader: string, trailer: string, vs: seq<Variant>)
    ensures forall i :: 0 <= i < |vs| ==> IsWrapped(leader, trailer, Wrap(leader, trailer, vs)[i].code)
  {
    var w := Wrap(leader, trailer, vs);
    forall i | 0 <= i < |vs|
      ensures IsWrapped(leader, trailer, w[i].code)
    {
      var c := w[i].code;
      assert c == leader + vs[i].code + trailer;
      assert c[..|leader|] == leader;
      assert c[|c| - |trailer|..] == trailer;
    }
  }

  /** Every wrapped code begins with the leader. */
  lemma WrapKeepsLeader(leader: string, trailer: string, vs: seq<Variant>)
    ensures forall i :: 0 <= i < |vs| ==> leader <= Wrap(leader, trailer, vs)[i].code
  {
    var w := Wrap(leader, trailer, vs);
    forall i | 0 <= i < |vs|
      ensures leader <= w[i].code
    {
      assert w[i].code == leader + (vs[i].code + trailer);
    }
  }

  /** Every code at least as long as the leader and trailer together. */
  predicate LongEnough(leader: string, trailer: string, vs: seq<Variant>)
  {
    forall i :: 0 <= i < |vs| ==> |vs[i].code| >= |leader| + |trailer|
  }

  /** Strip `|leader|` characters in front and `|trailer|` at the end of every code. */
  function Unwrap(leader: string, trailer: string, vs: seq<Variant>): (r: seq<Variant>)
    requires LongEnough(leader, trailer, vs)
    ensures |r| == |vs|
  {
    seq(|vs|, i requires 0 <= i < |vs| =>
      Variant(vs[i].code[|leader|..|vs[i].code| - |trailer|], vs[i].meta))
  }

  /** Wrapping loses nothing: the wrapped sequence unwraps to the original. */
  lemma WrapRoundTrip(leader: string, trailer: string, vs: seq<Variant>)
    ensures LongEnough(leader, trailer, Wrap(leader, trailer, vs))
    ensures Unwrap(leader, trailer, Wrap(leader, trailer, vs)) == vs
  {
    var w := Wrap(leader, trailer, vs);
    forall i | 0 <= i < |vs|
      ensures Unwrap(leader, trailer, w)[i] == vs[i]
    {
      var c := w[i].code;
      assert c == leader + vs[i].code + trailer;
      assert c[|leader|..|c| - |trailer|] == vs[i].code;
    }
  }
}
