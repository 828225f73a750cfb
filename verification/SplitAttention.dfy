/** Split-KV attention: per-partition softmaxes merged with rescale factors, against the unsplit softmax. */
module SplitAttention {
  import opened Reals
  import opened Softmax
  import opened SoftmaxKernels

  // The partition size of the split kernel is 512 tokens.

  function PartitionCount(n: nat): nat {
    (n + 511) / 512
  }

  function Lo(j: nat): nat {
    j * 512
  }

  function Hi(n: nat, j: nat): nat {
    if n <= Lo(j) + 512 then n else Lo(j) + 512
  }

  /** The maximum, denominator and output that partition j computes on its own. */
  function PartMax(l: seq<real>, j: nat): real
    requires j < PartitionCount(|l|)
  {
    MaxR(l, Lo(j), Hi(|l|, j))
  }

  ghost function PartSum(exp: RealFn, l: seq<real>, j: nat): (s: real)
    requires j < PartitionCount(|l|) && IsExp(exp)
    ensures s > 0.0
  {
    ExpSumPositive(exp, l, PartMax(l, j), Lo(j), Hi(|l|, j));
    ExpSum(exp, l, PartMax(l, j), Lo(j), Hi(|l|, j))
  }

  ghost function PartOut(exp: RealFn, l: seq<real>, v: seq<real>, j: nat): real
    requires j < PartitionCount(|l|) && |l| == |v| && IsExp(exp)
  {
    Over(ExpDot(exp, l, v, PartMax(l, j), Lo(j), Hi(|l|, j)), PartSum(exp, l, j))
  }

  ghost function PartMaxes(l: seq<real>): (m: seq<real>)
    ensures |m| == PartitionCount(|l|)
  {
    seq(PartitionCount(|l|), j requires 0 <= j < PartitionCount(|l|) => PartMax(l, j))
  }

  ghost function PartSums(exp: RealFn, l: seq<real>): (s: seq<real>)
    requires IsExp(exp)
    ensures |s| == PartitionCount(|l|)
  {
    seq(PartitionCount(|l|), j requires 0 <= j < PartitionCount(|l|) => PartSum(exp, l, j))
  }

  ghost function PartOuts(exp: RealFn, l: seq<real>, v: seq<real>): (o: seq<real>)
    requires |l| == |v| && IsExp(exp)
    ensures |o| == PartitionCount(|l|)
  {
    seq(PartitionCount(|l|), j requires 0 <= j < PartitionCount(|l|) => PartOut(exp, l, v, j))
  }

  /** The largest partition maximum is the maximum of all logits. */
  lemma {:induction false} MaxOfMaxes(l: seq<real>, k: nat)
    requires 0 < k <= PartitionCount(|l|)
    ensures MaxR(PartMaxes(l), 0, k) == MaxR(l, 0, Hi(|l|, k - 1))
  {
    if k > 1 {
      MaxOfMaxes(l, k - 1);
      MaxRSplit(l, 0, Lo(k - 1), Hi(|l|, k - 1));
    }
  }

  lemma TimesCommutes(a: real, b: real)
    ensures Times(a, b) == Times(b, a)
  {
  }

  /** Rebased to a common reference point, the partition denominators add up to the global one. */
  lemma {:induction false} SumsMerge(exp: RealFn, l: seq<real>, m: real, k: nat)
    requires 0 < k <= PartitionCount(|l|) && IsExp(exp)
    ensures SumR(Rescaled(exp, PartMaxes(l), PartSums(exp, l), m), 0, k) == ExpSum(exp, l, m, 0, Hi(|l|, k - 1))
  {
    var r := Rescaled(exp, PartMaxes(l), PartSums(exp, l), m);
    hide Times;
    ExpRebase(exp, l, l, PartMax(l, k - 1), m, Lo(k - 1), Hi(|l|, k - 1));
    TimesCommutes(PartSum(exp, l, k - 1), exp[PartMax(l, k - 1) - m]);
    assert r[k - 1] == ExpSum(exp, l, m, Lo(k - 1), Hi(|l|, k - 1));
    if k > 1 {
      SumsMerge(exp, l, m, k - 1);
      ExpSumSplit(exp, l, m, 0, Lo(k - 1), Hi(|l|, k - 1));
    } else {
      assert SumR(r, 0, 1) == SumR(r, 0, 0) + r[0];
    }
  }

  /** One partition's contribution to the merge is its share of the globally rebased numerator. */
  lemma PartShare(exp: RealFn, l: seq<real>, v: seq<real>, j: nat, m: real, d: real, f: real)
    requires j < PartitionCount(|l|) && |l| == |v| && IsExp(exp) && d > 0.0
    requires f == Over(Times(PartSum(exp, l, j), exp[PartMax(l, j) - m]), d)
    ensures Times(PartOut(exp, l, v, j), f) == Over(ExpDot(exp, l, v, m, Lo(j), Hi(|l|, j)), d)
  {
    hide Times, Over;
    ExpRebase(exp, l, v, PartMax(l, j), m, Lo(j), Hi(|l|, j));
    Share(ExpDot(exp, l, v, PartMax(l, j), Lo(j), Hi(|l|, j)), PartSum(exp, l, j), exp[PartMax(l, j) - m], d);
  }

  lemma Share(a: real, s: real, c: real, d: real)
    requires s > 0.0 && d > 0.0
    ensures Times(Over(a, s), Over(Times(s, c), d)) == Over(Times(c, a), d)
  {
    var o, f := a / s, s * c / d;
    assert a == o * s;
    assert f * d == s * c;
    assert (o * f) * d == o * (s * c) == c * (o * s);
  }

  lemma {:induction false} OutsMerge(exp: RealFn, l: seq<real>, v: seq<real>, m: real, d: real, f: seq<real>, k: nat)
    requires 0 < k <= PartitionCount(|l|) && |l| == |v| && IsExp(exp) && d > 0.0
    requires f == Quotients(Rescaled(exp, PartMaxes(l), PartSums(exp, l), m), d)
    ensures DotR(PartOuts(exp, l, v), f, 0, k) == Over(ExpDot(exp, l, v, m, 0, Hi(|l|, k - 1)), d)
  {
    hide Times, Over, PartMax, PartSum, PartOut;
    var outs := PartOuts(exp, l, v);
    PartShare(exp, l, v, k - 1, m, d, f[k - 1]);
    assert DotR(outs, f, 0, k) == DotR(outs, f, 0, k - 1) + Times(outs[k - 1], f[k - 1]);
    if k > 1 {
      OutsMerge(exp, l, v, m, d, f, k - 1);
      ExpDotSplit(exp, l, v, m, 0, Lo(k - 1), Hi(|l|, k - 1));
      AddQuotients(ExpDot(exp, l, v, m, 0, Lo(k - 1)), ExpDot(exp, l, v, m, Lo(k - 1), Hi(|l|, k - 1)), d);
    }
  }

  /** The softmax denominator relative to the largest logit. */
  ghost function Denominator(exp: RealFn, l: seq<real>): real
    requires |l| > 0
  {
    ExpSum(exp, l, MaxR(l, 0, |l|), 0, |l|)
  }

  /** The denominator that the merge step computes is the global one, and it is at least one. */
  lemma MergedSumIsDenominator(exp: RealFn, l: seq<real>)
    requires |l| > 0 && IsExp(exp)
    ensures MergedSum(exp, PartMaxes(l), PartSums(exp, l)) == Denominator(exp, l) >= 1.0
  {
    var k, m := PartitionCount(|l|), MaxR(l, 0, |l|);
    assert Hi(|l|, k - 1) == |l|;
    MaxOfMaxes(l, k);
    SumsMerge(exp, l, m, k);
    var i := MaxRIsMax(l, 0, |l|);
    ExpSumAtLeastOne(exp, l, m, 0, |l|, i);
  }

  /** Merging the partitions gives the unsplit attention times R / (R + 1e-8), R the global denominator. */
  lemma MergeTheorem(exp: RealFn, l: seq<real>, v: seq<real>)
    requires |l| > 0 && |l| == |v| && IsExp(exp)
    ensures MergedSum(exp, PartMaxes(l), PartSums(exp, l)) == Denominator(exp, l) >= 1.0
    ensures Dot(PartOuts(exp, l, v), MergeFactors(exp, PartMaxes(l), PartSums(exp, l)))
         == Times(Attention(exp, l, v), Over(Denominator(exp, l), Denominator(exp, l) + EPSILON))
  {
    hide Times, Over;
    MergedSumIsDenominator(exp, l);
    var k, m, r := PartitionCount(|l|), MaxR(l, 0, |l|), Denominator(exp, l);
    assert Hi(|l|, k - 1) == |l|;
    MaxOfMaxes(l, k);
    OutsMerge(exp, l, v, m, r + EPSILON, MergeFactors(exp, PartMaxes(l), PartSums(exp, l)), k);
    ShiftInvariance(exp, l, v, m);
    Requotient(ExpDot(exp, l, v, m, 0, |l|), r, r + EPSILON);
  }

  lemma Requotient(a: real, r: real, d: real)
    requires r > 0.0 && d > 0.0
    ensures Over(a, d) == Times(Over(a, r), Over(r, d))
  {
    var t := a / r;
    assert a == t * r;
  }

  /** The merge is within a relative error of 1e-8 of the unsplit attention. */
  lemma MergeError(t: real, r: real)
    requires r >= 1.0
    ensures var o := t * (r / (r + EPSILON));
            -EPSILON * Abs(t) <= o - t <= EPSILON * Abs(t)
  {
    var q := r / (r + EPSILON);
    assert q * (r + EPSILON) == r;
    assert 0.0 <= 1.0 - q <= EPSILON by {
      assert (1.0 - q) * (r + EPSILON) == EPSILON;
    }
    if t >= 0.0 {
      assert t * (1.0 - q) <= t * EPSILON;
    } else {
      assert (-t) * (1.0 - q) <= (-t) * EPSILON;
    }
  }

  function Abs(x: real): real {
    if x < 0.0 then -x else x
  }
}
