/** Small generic sequence functions used by more than one module. */
module SeqUtil {

  /** The product of the lengths of the given sequences; 1 when there are none. */
  function ProductOfLengths<T>(xss: seq<seq<T>>): nat
  {
    if |xss| == 0 then 1 else |xss[0]| * ProductOfLengths(xss[1..])
  }

  /** The product of the lengths of non-empty sequences is at least one. */
  lemma {:induction false} ProductOfNonEmptyIsPositive<T>(xss: seq<seq<T>>)
    requires forall k :: 0 <= k < |xss| ==> |xss[k]| > 0
    ensures ProductOfLengths(xss) >= 1
  {
    if |xss| > 0 {
      ProductOfNonEmptyIsPositive(xss[1..]);
      assert |xss[0]| >= 1;
      MulAtLeastOne(|xss[0]|, ProductOfLengths(xss[1..]));
    }
  }

  lemma MulAtLeastOne(a: nat, b: nat)
    requires a >= 1 && b >= 1
    ensures a * b >= 1
  {
  }

  /** The elements of `xs` that `keep` accepts, in their original order. */
  function Filter<T(!new)>(xs: seq<T>, keep: T -> bool): (r: seq<T>)
    ensures |r| <= |xs|
    ensures forall x :: x in r <==> x in xs && keep(x)
  {
    if |xs| == 0 then []
    else if keep(xs[0]) then [xs[0]] + Filter(xs[1..], keep)
    else Filter(xs[1..], keep)
  }

  /** An ASCII letter in lower case; every other character unchanged. */
  function LowerChar(c: char): char
  {
    if 'A' <= c <= 'Z' then (c as int - 'A' as int + 'a' as int) as char else c
  }

  /** The ASCII lower-case form of a string, character by character. */
  function AsciiLower(s: string): (r: string)
    ensures |r| == |s|
    ensures forall i :: 0 <= i < |s| ==> r[i] == LowerChar(s[i])
  {
    seq(|s|, i requires 0 <= i < |s| => LowerChar(s[i]))
  }
}
