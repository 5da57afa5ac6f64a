/** The list statistics the estimator takes over its window of samples:
    Python's `sum`, `min`, `max`, the mean `sum(s)/len(s)` and the tail
    slice `s[-n:]`. Floats are modelled as reals. */
module Stats {

  function Sum(s: seq<real>): real
    decreases |s|
  {
    if s == [] then 0.0 else s[0] + Sum(s[1..])
  }

  function Mean(s: seq<real>): real
    requires |s| > 0
  {
    Sum(s) / (|s| as real)
  }

  /** `min(s)`: no element of the list is below it (and it is one of
      them, by `SeqMinIn`). */
  function SeqMin(s: seq<real>): (m: real)
    requires |s| > 0
    ensures forall k | 0 <= k < |s| :: m <= s[k]
    decreases |s|
  {
    if |s| == 1 then s[0]
    else
      var rest := SeqMin(s[1..]);
      if s[0] <= rest then s[0] else rest
  }

  /** `max(s)`: no element of the list is above it (and it is one of
      them, by `SeqMaxIn`). */
  function SeqMax(s: seq<real>): (m: real)
    requires |s| > 0
    ensures forall k | 0 <= k < |s| :: s[k] <= m
    decreases |s|
  {
    if |s| == 1 then s[0]
    else
      var rest := SeqMax(s[1..]);
      if s[0] >= rest then s[0] else rest
  }

  /** The minimum is an element of the list. */
  lemma {:induction false} SeqMinIn(s: seq<real>)
    requires |s| > 0
    ensures SeqMin(s) in s
    decreases |s|
  {
    if |s| > 1 {
      SeqMinIn(s[1..]);
      assert SeqMin(s) == s[0] || SeqMin(s) in s[1..];
    }
  }

  /** The maximum is an element of the list. */
  lemma {:induction false} SeqMaxIn(s: seq<real>)
    requires |s| > 0
    ensures SeqMax(s) in s
    decreases |s|
  {
    if |s| > 1 {
      SeqMaxIn(s[1..]);
      assert SeqMax(s) == s[0] || SeqMax(s) in s[1..];
    }
  }

  /** `s[-n:]` for n > 0: the last n elements, or all of them when there
      are fewer, in their original order. */
  function LastN<T>(s: seq<T>, n: nat): (r: seq<T>)
    requires n > 0
    ensures |r| == if |s| < n then |s| else n
    ensures r == s[|s| - |r|..]
  {
    if |s| <= n then s else s[|s| - n..]
  }

  lemma {:induction false} SumBounds(s: seq<real>, lo: real, hi: real)
    requires forall k | 0 <= k < |s| :: lo <= s[k] <= hi
    ensures (|s| as real) * lo <= Sum(s) <= (|s| as real) * hi
    decreases |s|
  {
    if s != [] {
      SumBounds(s[1..], lo, hi);
    }
  }

  /** The mean of a list lies between any lower and upper bound of its
      elements. */
  lemma MeanBounds(s: seq<real>, lo: real, hi: real)
    requires |s| > 0
    requires forall k | 0 <= k < |s| :: lo <= s[k] <= hi
    ensures lo <= Mean(s) <= hi
  {
    SumBounds(s, lo, hi);
    var n := |s| as real;
    assert Sum(s) / n >= lo by {
      assert Sum(s) >= n * lo;
    }
    assert Sum(s) / n <= hi by {
      assert Sum(s) <= n * hi;
    }
  }
}
