/** Softmax-weighted sums over the reals: positivity, splitting and invariance under a shift of the logits. */
module Softmax {
  import opened Reals

  /** exp(a + b) == exp(a) * exp(b), at one pair of points. */
  ghost predicate AddLaw(exp: RealFn, a: real, b: real) {
    exp[a + b] == Times(exp[a], exp[b])
  }

  ghost predicate PositiveAt(exp: RealFn, a: real) {
    exp[a] > 0.0
  }

  /** The only facts about the exponential that the kernels rely on. */
  ghost predicate IsExp(exp: RealFn) {
    && exp[0.0] == 1.0
    && (forall a :: PositiveAt(exp, a))
    && (forall a, b :: AddLaw(exp, a, b))
  }

  /** Sum of exp(l[i] - m) over lo <= i < hi. */
  ghost function ExpSum(exp: RealFn, l: seq<real>, m: real, lo: nat, hi: nat): real
    requires lo <= hi <= |l|
    decreases hi
  {
    if lo == hi then 0.0 else ExpSum(exp, l, m, lo, hi - 1) + exp[l[hi - 1] - m]
  }

  /** Sum of exp(l[i] - m) * v[i] over lo <= i < hi. */
  ghost function ExpDot(exp: RealFn, l: seq<real>, v: seq<real>, m: real, lo: nat, hi: nat): real
    requires lo <= hi <= |l| && hi <= |v|
    decreases hi
  {
    if lo == hi then 0.0 else ExpDot(exp, l, v, m, lo, hi - 1) + Times(exp[l[hi - 1] - m], v[hi - 1])
  }

  lemma {:induction false} ExpSumPositive(exp: RealFn, l: seq<real>, m: real, lo: nat, hi: nat)
    requires lo <= hi <= |l| && IsExp(exp)
    ensures ExpSum(exp, l, m, lo, hi) >= 0.0
    ensures lo < hi ==> ExpSum(exp, l, m, lo, hi) > 0.0
    decreases hi
  {
    if lo < hi {
      ExpSumPositive(exp, l, m, lo, hi - 1);
      assert PositiveAt(exp, l[hi - 1] - m);
    }
  }

  /** A softmax denominator taken relative to one of its own logits is at least one. */
  lemma {:induction false} ExpSumAtLeastOne(exp: RealFn, l: seq<real>, m: real, lo: nat, hi: nat, i: nat)
    requires lo <= i < hi <= |l| && IsExp(exp) && l[i] == m
    ensures ExpSum(exp, l, m, lo, hi) >= 1.0
    decreases hi
  {
    if i == hi - 1 {
      ExpSumPositive(exp, l, m, lo, hi - 1);
    } else {
      ExpSumAtLeastOne(exp, l, m, lo, hi - 1, i);
      assert PositiveAt(exp, l[hi - 1] - m);
    }
  }

  lemma {:induction false} ExpSumSplit(exp: RealFn, l: seq<real>, m: real, lo: nat, mid: nat, hi: nat)
    requires lo <= mid <= hi <= |l|
    ensures ExpSum(exp, l, m, lo, hi) == ExpSum(exp, l, m, lo, mid) + ExpSum(exp, l, m, mid, hi)
    decreases hi
  {
    if mid < hi {
      ExpSumSplit(exp, l, m, lo, mid, hi - 1);
    }
  }

  lemma {:induction false} ExpDotSplit(exp: RealFn, l: seq<real>, v: seq<real>, m: real, lo: nat, mid: nat, hi: nat)
    requires lo <= mid <= hi <= |l| && hi <= |v|
    ensures ExpDot(exp, l, v, m, lo, hi) == ExpDot(exp, l, v, m, lo, mid) + ExpDot(exp, l, v, m, mid, hi)
    decreases hi
  {
    if mid < hi {
      ExpDotSplit(exp, l, v, m, lo, mid, hi - 1);
    }
  }

  /** Changing the reference point of the exponentials rescales both sums by the same factor. */
  lemma {:induction false} ExpRebase(exp: RealFn, l: seq<real>, v: seq<real>, m: real, m': real, lo: nat, hi: nat)
    requires lo <= hi <= |l| && hi <= |v| && IsExp(exp)
    ensures Times(exp[m - m'], ExpSum(exp, l, m, lo, hi)) == ExpSum(exp, l, m', lo, hi)
    ensures Times(exp[m - m'], ExpDot(exp, l, v, m, lo, hi)) == ExpDot(exp, l, v, m', lo, hi)
    decreases hi
  {
    hide Times;
    var c := exp[m - m'];
    if lo == hi {
      TimesZero(c);
    } else {
      ExpRebase(exp, l, v, m, m', lo, hi - 1);
      var e := exp[l[hi - 1] - m];
      assert Times(c, e) == exp[l[hi - 1] - m'] by {
        assert AddLaw(exp, m - m', l[hi - 1] - m);
        assert (m - m') + (l[hi - 1] - m) == l[hi - 1] - m';
      }
      Distribute(c, ExpSum(exp, l, m, lo, hi - 1), e);
      Distribute(c, ExpDot(exp, l, v, m, lo, hi - 1), Times(e, v[hi - 1]));
      Reassociate(c, e, v[hi - 1]);
    }
  }

  lemma TimesZero(c: real)
    ensures Times(c, 0.0) == 0.0
  {
  }

  lemma Distribute(c: real, a: real, b: real)
    ensures Times(c, a + b) == Times(c, a) + Times(c, b)
  {
  }

  lemma Reassociate(a: real, b: real, c: real)
    ensures Times(a, Times(b, c)) == Times(Times(a, b), c)
  {
  }

  lemma AddQuotients(a: real, b: real, d: real)
    requires d > 0.0
    ensures Over(a, d) + Over(b, d) == Over(a + b, d)
  {
  }

  /** The textbook softmax-weighted sum: no reference point, no partitions. */
  ghost function Attention(exp: RealFn, l: seq<real>, v: seq<real>): real
    requires 0 < |l| <= |v| && IsExp(exp)
  {
    ExpSumPositive(exp, l, 0.0, 0, |l|);
    Over(ExpDot(exp, l, v, 0.0, 0, |l|), ExpSum(exp, l, 0.0, 0, |l|))
  }

  lemma TimesBetween(e: real, v: real, lo: real, hi: real)
    requires e > 0.0 && lo <= v <= hi
    ensures Times(e, lo) <= Times(e, v) <= Times(e, hi)
  {
  }

  lemma {:induction false} ExpDotBetween(exp: RealFn, l: seq<real>, v: seq<real>, lo: real, hi: real, k: nat)
    requires k <= |l| <= |v| && IsExp(exp) && forall i :: 0 <= i < k ==> lo <= v[i] <= hi
    ensures Times(ExpSum(exp, l, 0.0, 0, k), lo) <= ExpDot(exp, l, v, 0.0, 0, k)
    ensures ExpDot(exp, l, v, 0.0, 0, k) <= Times(ExpSum(exp, l, 0.0, 0, k), hi)
  {
    if k > 0 {
      ExpDotBetween(exp, l, v, lo, hi, k - 1);
      var s, e := ExpSum(exp, l, 0.0, 0, k - 1), exp[l[k - 1] - 0.0];
      assert PositiveAt(exp, l[k - 1] - 0.0);
      TimesBetween(e, v[k - 1], lo, hi);
      assert Times(s + e, lo) == Times(s, lo) + Times(e, lo) && Times(s + e, hi) == Times(s, hi) + Times(e, hi);
    }
  }

  /** Attention is a weighted mean: it lies between any bounds of the values, so it keeps a constant. */
  lemma AttentionIsMean(exp: RealFn, l: seq<real>, v: seq<real>, lo: real, hi: real)
    requires 0 < |l| <= |v| && IsExp(exp) && forall i :: 0 <= i < |l| ==> lo <= v[i] <= hi
    ensures lo <= Attention(exp, l, v) <= hi
  {
    hide ExpSum, ExpDot, IsExp;
    ExpSumPositive(exp, l, 0.0, 0, |l|);
    ExpDotBetween(exp, l, v, lo, hi, |l|);
    QuotientBetween(ExpDot(exp, l, v, 0.0, 0, |l|), ExpSum(exp, l, 0.0, 0, |l|), lo, hi);
  }

  lemma QuotientBetween(a: real, s: real, lo: real, hi: real)
    requires s > 0.0 && Times(s, lo) <= a <= Times(s, hi)
    ensures lo <= Over(a, s) <= hi
  {
    var q := a / s;
    assert a == q * s;
    assert q < lo ==> q * s < lo * s;
    assert q > hi ==> q * s > hi * s;
  }

  /** Softmax is invariant under the choice of the reference point. */
  lemma ShiftInvariance(exp: RealFn, l: seq<real>, v: seq<real>, m: real)
    requires 0 < |l| <= |v| && IsExp(exp)
    ensures ExpSum(exp, l, m, 0, |l|) > 0.0
    ensures Over(ExpDot(exp, l, v, m, 0, |l|), ExpSum(exp, l, m, 0, |l|)) == Attention(exp, l, v)
  {
    hide Times, Over;
    ExpSumPositive(exp, l, m, 0, |l|);
    ExpRebase(exp, l, v, m, 0.0, 0, |l|);
    assert PositiveAt(exp, m - 0.0);
    SameRatio(exp[m - 0.0], ExpDot(exp, l, v, m, 0, |l|), ExpSum(exp, l, m, 0, |l|));
  }

  lemma SameRatio(c: real, a: real, b: real)
    requires c > 0.0 && b > 0.0
    ensures Times(c, b) > 0.0
    ensures Over(a, b) == Over(Times(c, a), Times(c, b))
  {
    var t := a / b;
    assert a == t * b;
    assert c * a == c * (t * b) == t * (c * b);
  }
}
