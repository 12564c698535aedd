/**
 * Counting decisions: the distinct values of a list in order of first
 * appearance, and how often each occurs. The chat page builds this with
 * `new Set(...)` and `filter(...).length` for its summary bar, and the
 * backend with an insertion-ordered dict for the final decision; both keep
 * first-appearance order.
 */
module Tally {

  /** How many times `x` occurs in `xs`. */
  function Count(xs: seq<string>, x: string): (n: nat)
    ensures n <= |xs|
    ensures n == 0 <==> x !in xs
    decreases |xs|
  {
    if |xs| == 0 then 0
    else
      var init := xs[..|xs| - 1];
      assert xs == init + [xs[|xs| - 1]];
      Count(init, x) + (if xs[|xs| - 1] == x then 1 else 0)
  }

  predicate NoDuplicates(xs: seq<string>) {
    forall i, j :: 0 <= i < j < |xs| ==> xs[i] != xs[j]
  }

  /** The position of the first occurrence of `x`. */
  function FirstIndex(xs: seq<string>, x: string): (i: nat)
    requires x in xs
    ensures i < |xs| && xs[i] == x && x !in xs[..i]
    decreases |xs|
  {
    if xs[0] == x then 0 else 1 + FirstIndex(xs[1..], x)
  }

  /** The distinct values, in order of first appearance. */
  function Distinct(xs: seq<string>): (r: seq<string>)
    ensures NoDuplicates(r)
    ensures forall x :: x in r <==> x in xs
    decreases |xs|
  {
    if |xs| == 0 then []
    else
      var init := xs[..|xs| - 1];
      var last := xs[|xs| - 1];
      assert xs == init + [last];
      var r := Distinct(init);
      if last in r then r else r + [last]
  }

  lemma {:induction false} FirstIndexSnoc(xs: seq<string>, x: string, y: string)
    requires y in xs
    ensures FirstIndex(xs + [x], y) == FirstIndex(xs, y)
    decreases |xs|
  {
    if xs[0] != y {
      assert (xs + [x])[1..] == xs[1..] + [x];
      FirstIndexSnoc(xs[1..], x, y);
    }
  }

  /** The distinct values are listed in the order in which each first appears. */
  lemma {:induction false} DistinctInFirstAppearanceOrder(xs: seq<string>)
    ensures forall i, j :: 0 <= i < j < |Distinct(xs)| ==>
      FirstIndex(xs, Distinct(xs)[i]) < FirstIndex(xs, Distinct(xs)[j])
    decreases |xs|
  {
    if |xs| > 0 {
      var init := xs[..|xs| - 1];
      var last := xs[|xs| - 1];
      assert xs == init + [last];
      DistinctInFirstAppearanceOrder(init);
      var d := Distinct(init);
      forall y | y in init ensures FirstIndex(xs, y) == FirstIndex(init, y) {
        FirstIndexSnoc(init, last, y);
      }
      if last !in d {
        assert last !in init;
        assert FirstIndex(xs, last) == |init| by {
          assert forall k :: 0 <= k < |init| ==> xs[k] == init[k];
        }
      }
    }
  }

  /** The sum of the counts of `keys`. */
  function SumCounts(keys: seq<string>, xs: seq<string>): nat
    decreases |keys|
  {
    if |keys| == 0 then 0 else Count(xs, keys[0]) + SumCounts(keys[1..], xs)
  }

  lemma {:induction false} SumCountsAppend(a: seq<string>, b: seq<string>, xs: seq<string>)
    ensures SumCounts(a + b, xs) == SumCounts(a, xs) + SumCounts(b, xs)
    decreases |a|
  {
    if |a| > 0 {
      assert (a + b)[1..] == a[1..] + b;
      SumCountsAppend(a[1..], b, xs);
    } else {
      assert a + b == b;
    }
  }

  /** Appending one value raises the sum over distinct keys by one exactly when the value is a key. */
  lemma {:induction false} SumCountsSnoc(keys: seq<string>, xs: seq<string>, x: string)
    requires NoDuplicates(keys)
    ensures SumCounts(keys, xs + [x]) == SumCounts(keys, xs) + (if x in keys then 1 else 0)
    decreases |keys|
  {
    if |keys| > 0 {
      assert (xs + [x])[..|xs + [x]| - 1] == xs;
      SumCountsSnoc(keys[1..], xs, x);
      assert x in keys <==> x == keys[0] || x in keys[1..];
      if x == keys[0] {
        forall j | 0 <= j < |keys| - 1 ensures keys[1..][j] != x {
          assert keys[1..][j] == keys[j + 1];
        }
      }
    }
  }

  /** The counts of the distinct values add up to the length of the list. */
  lemma {:induction false} CountsSumToTotal(xs: seq<string>)
    ensures SumCounts(Distinct(xs), xs) == |xs|
    decreases |xs|
  {
    if |xs| > 0 {
      var init := xs[..|xs| - 1];
      var last := xs[|xs| - 1];
      assert xs == init + [last];
      CountsSumToTotal(init);
      var d := Distinct(init);
      SumCountsSnoc(d, init, last);
      if last !in d {
        SumCountsAppend(d, [last], xs);
        assert SumCounts([last], xs) == Count(xs, last) by {
          assert [last][1..] == [];
        }
        assert Count(init, last) == 0;
      }
    }
  }
}
