/**
 * Sums of real weights, used by the light tables (radiance totals and their
 * normalisation) and by the alias tables (mass conservation).
 */
module RealSums {

  /** The sum of the first k terms. */
  function SumTo(xs: seq<real>, k: nat): real
    requires k <= |xs|
  {
    if k == 0 then 0.0 else SumTo(xs, k - 1) + xs[k - 1]
  }

  /** The sum of a sequence of reals. */
  function Sum(xs: seq<real>): real
  {
    SumTo(xs, |xs|)
  }

  /** Terms past the k-th do not change the sum of the first k. */
  lemma {:induction false} SumToPrefix(xs: seq<real>, ys: seq<real>, k: nat)
    requires k <= |xs| && k <= |ys|
    requires forall j :: 0 <= j < k ==> xs[j] == ys[j]
    ensures SumTo(xs, k) == SumTo(ys, k)
  {
    if k > 0 {
      SumToPrefix(xs, ys, k - 1);
    }
  }

  /** The sum over a concatenation is the sum of the sums. */
  lemma {:induction false} SumAppend(a: seq<real>, b: seq<real>)
    ensures Sum(a + b) == Sum(a) + Sum(b)
  {
    SumToPrefix(a + b, a, |a|);
    SumAppendTo(a, b, |b|);
  }

  lemma {:induction false} SumAppendTo(a: seq<real>, b: seq<real>, k: nat)
    requires k <= |b|
    ensures SumTo(a + b, |a| + k) == SumTo(a + b, |a|) + SumTo(b, k)
  {
    if k > 0 {
      SumAppendTo(a, b, k - 1);
    }
  }

  /** Replacing one term changes the sum by the difference of the terms. */
  lemma {:induction false} SumUpdate(xs: seq<real>, d: nat, v: real)
    requires d < |xs|
    ensures Sum(xs[d := v]) == Sum(xs) - xs[d] + v
  {
    SumUpdateTo(xs, d, v, |xs|);
  }

  lemma {:induction false} SumUpdateTo(xs: seq<real>, d: nat, v: real, k: nat)
    requires d < |xs| && k <= |xs|
    ensures SumTo(xs[d := v], k) == SumTo(xs, k) - (if d < k then xs[d] - v else 0.0)
  {
    if k > 0 {
      SumUpdateTo(xs, d, v, k - 1);
    }
  }

  /** Every term divided by c. */
  function Scaled(xs: seq<real>, c: real): (r: seq<real>)
    requires c != 0.0
    ensures |r| == |xs| && forall k :: 0 <= k < |xs| ==> r[k] * c == xs[k]
  {
    seq(|xs|, k requires 0 <= k < |xs| => xs[k] / c)
  }

  /** Dividing every term by c divides the sum by c. */
  lemma {:induction false} SumScaled(xs: seq<real>, c: real)
    requires c != 0.0
    ensures Sum(Scaled(xs, c)) * c == Sum(xs)
  {
    SumScaledTo(xs, c, |xs|);
  }

  lemma {:induction false} SumScaledTo(xs: seq<real>, c: real, k: nat)
    requires c != 0.0 && k <= |xs|
    ensures SumTo(Scaled(xs, c), k) * c == SumTo(xs, k)
  {
    if k > 0 {
      SumScaledTo(xs, c, k - 1);
      var s := SumTo(Scaled(xs, c), k - 1);
      var y := Scaled(xs, c)[k - 1];
      assert (s + y) * c == s * c + y * c;
    }
  }

  /** Dividing non-negative terms by a positive c keeps them non-negative. */
  lemma {:induction false} ScaledNonneg(xs: seq<real>, c: real)
    requires c > 0.0
    requires forall k :: 0 <= k < |xs| ==> xs[k] >= 0.0
    ensures forall k :: 0 <= k < |xs| ==> Scaled(xs, c)[k] >= 0.0
  {
    forall k | 0 <= k < |xs| ensures Scaled(xs, c)[k] >= 0.0 {
      var y := Scaled(xs, c)[k];
      if y < 0.0 {
        assert y * c < 0.0;
      }
    }
  }

  /** Dividing every term by a non-zero total t gives terms summing to Sum(xs) / t, one when t is the sum. */
  lemma {:induction false} ScaledSumOne(xs: seq<real>, t: real)
    requires t != 0.0 && Sum(xs) == t
    ensures Sum(Scaled(xs, t)) == 1.0
  {
    SumScaled(xs, t);
    var s := Sum(Scaled(xs, t));
    assert (s - 1.0) * t == 0.0;
  }

  /** A sum of non-negative terms is non-negative. */
  lemma {:induction false} SumNonneg(xs: seq<real>)
    requires forall k :: 0 <= k < |xs| ==> xs[k] >= 0.0
    ensures Sum(xs) >= 0.0
  {
    SumToNonneg(xs, |xs|);
  }

  lemma {:induction false} SumToNonneg(xs: seq<real>, k: nat)
    requires k <= |xs|
    requires forall j :: 0 <= j < |xs| ==> xs[j] >= 0.0
    ensures SumTo(xs, k) >= 0.0
  {
    if k > 0 {
      SumToNonneg(xs, k - 1);
    }
  }

  /** A sum of non-negative terms is at least each of them. */
  lemma {:induction false} SumAtLeastTerm(xs: seq<real>, d: nat)
    requires d < |xs|
    requires forall k :: 0 <= k < |xs| ==> xs[k] >= 0.0
    ensures Sum(xs) >= xs[d]
  {
    SumToAtLeastTerm(xs, d, |xs|);
  }

  lemma {:induction false} SumToAtLeastTerm(xs: seq<real>, d: nat, k: nat)
    requires d < k <= |xs|
    requires forall j :: 0 <= j < |xs| ==> xs[j] >= 0.0
    ensures SumTo(xs, k) >= xs[d]
  {
    if d == k - 1 {
      SumToNonneg(xs, k - 1);
    } else {
      SumToAtLeastTerm(xs, d, k - 1);
    }
  }

  /** A sum of non-positive terms is at most each of them. */
  lemma {:induction false} SumAtMostTerm(xs: seq<real>, d: nat)
    requires d < |xs|
    requires forall k :: 0 <= k < |xs| ==> xs[k] <= 0.0
    ensures Sum(xs) <= xs[d]
  {
    SumToAtMostTerm(xs, d, |xs|);
  }

  lemma {:induction false} SumToNonpos(xs: seq<real>, k: nat)
    requires k <= |xs|
    requires forall j :: 0 <= j < |xs| ==> xs[j] <= 0.0
    ensures SumTo(xs, k) <= 0.0
  {
    if k > 0 {
      SumToNonpos(xs, k - 1);
    }
  }

  lemma {:induction false} SumToAtMostTerm(xs: seq<real>, d: nat, k: nat)
    requires d < k <= |xs|
    requires forall j :: 0 <= j < |xs| ==> xs[j] <= 0.0
    ensures SumTo(xs, k) <= xs[d]
  {
    if d == k - 1 {
      SumToNonpos(xs, k - 1);
    } else {
      SumToAtMostTerm(xs, d, k - 1);
    }
  }
}
