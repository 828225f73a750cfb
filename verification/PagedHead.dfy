/** One head of paged attention over a range of tokens: the body shared by both kernels. */
module PagedHead {
  import opened Reals
  import opened Softmax
  import opened SoftmaxKernels
  import opened Lanes
  import opened Wrappers

  /** A query row, and the cache blocks that hold its sequence's keys and values for one KV head. */
  datatype Head = Head(q: seq<real>, qOff: nat, kc: seq<real>, vc: seq<real>, bases: seq<nat>,
                       headSize: nat, x: nat, scale: real, slope: Option<real>, seqLen: nat)
  {
    ghost predicate Valid() {
      && CellWidth(x) && 0 < headSize && headSize % 16 == 0 && headSize % x == 0 && qOff + headSize <= |q|
      && 0 < seqLen && |bases| == (seqLen + 15) / 16
      && forall b :: 0 <= b < |bases| ==>
           bases[b] + headSize * 16 <= |kc| && bases[b] + headSize * 16 <= |vc|
    }

    ghost function Block(b: nat): (r: BlockInput)
      requires Valid() && b < |bases|
      ensures r.Valid()
    {
      BlockInput(q, qOff, kc, bases[b], headSize, x)
    }

    /** The scaled dot product of the query with token t's key. */
    ghost function RawScore(t: nat): real
      requires Valid() && t < seqLen
    {
      Block(t / 16).Score(t % 16, scale)
    }

    ghost function RawScores(): (l: seq<real>)
      requires Valid()
    {
      seq(seqLen, t requires 0 <= t < seqLen => RawScore(t))
    }

    /** The logits: raw scores, plus the ALiBi bias when there is a slope. */
    ghost function Scores(): (l: seq<real>)
      requires Valid()
      ensures |l| == seqLen
    {
      match slope
      case None => RawScores()
      case Some(m) => Biased(RawScores(), m, 0, seqLen)
    }

    /** Dimension d of the value in every cache slot of the sequence, padding slots included. */
    ghost function Slots(d: nat): (v: seq<real>)
      requires Valid() && d < headSize
      ensures |v| == |bases| * 16
    {
      seq(|bases| * 16, t requires 0 <= t < |bases| * 16 => SlotValue(t, d))
    }

    ghost function SlotValue(t: nat, d: nat): real
      requires Valid() && d < headSize && t < |bases| * 16
    {
      assert d * 16 + 16 <= headSize * 16;
      vc[bases[t / 16] + d * 16 + t % 16]
    }

    /** Dimension d of the values of the sequence's own tokens. */
    ghost function Values(d: nat): (v: seq<real>)
      requires Valid() && d < headSize
      ensures |v| == seqLen
    {
      Slots(d)[..seqLen]
    }
  }

  /** Number of cache blocks that hold n tokens. */
  function BlockNum(n: nat): nat {
    (n + 16 - 1) / 16
  }

  /** Raw scores of tokenNum tokens from block `first` on, block by block. */
  method ComputeLogits(hd: Head, first: nat, tokenNum: nat, logits: array<real>)
    requires hd.Valid() && 0 < tokenNum && 16 * first + tokenNum <= hd.seqLen
    requires BlockNum(tokenNum) * 16 <= logits.Length
    modifies logits
    ensures logits[..tokenNum] == hd.RawScores()[16 * first..16 * first + tokenNum]
  {
    hide BlockInput.Score, BlockInput.Valid;
    var blockNum := BlockNum(tokenNum);
    var lastNum := tokenNum - (blockNum - 1) * 16;
    for b := 0 to blockNum
      invariant forall i :: 0 <= i < tokenNum && i < b * 16 ==> logits[i] == hd.RawScore(16 * first + i)
    {
      var input := BlockInput(hd.q, hd.qOff, hd.kc, hd.bases[first + b], hd.headSize, hd.x);
      assert input == hd.Block(first + b);
      var n := if b == blockNum - 1 then lastNum else 16;
      QKBlock(input, logits, b * 16, hd.scale, n);
      forall i | b * 16 <= i < b * 16 + n
        ensures logits[i] == hd.RawScore(16 * first + i)
      {
        SlotOf(first + b, i - b * 16);
      }
    }
  }

  lemma SlotOf(b: nat, j: nat)
    requires j < 16
    ensures (16 * b + j) / 16 == b && (16 * b + j) % 16 == j
  {
  }

  /** The values of dimension d from block `first` on. */
  ghost function Column(hd: Head, first: nat, d: nat): (v: seq<real>)
    requires hd.Valid() && d < hd.headSize && first <= |hd.bases|
    ensures |v| == 16 * (|hd.bases| - first)
  {
    hd.Slots(d)[16 * first..]
  }

  lemma ColumnTerms(hd: Head, first: nat, b: nat, d: nat)
    requires hd.Valid() && first + b < |hd.bases| && d < hd.headSize
    ensures hd.bases[first + b] + d * 16 + 16 <= |hd.vc|
    ensures Load16(hd.vc, hd.bases[first + b] + d * 16) == Column(hd, first, d)[b * 16..b * 16 + 16]
  {
    var v, c := Load16(hd.vc, hd.bases[first + b] + d * 16), Column(hd, first, d)[b * 16..b * 16 + 16];
    forall j | 0 <= j < 16
      ensures v[j] == c[j]
    {
      SlotOf(first + b, j);
    }
  }

  /** One block extends the weighted value sum of a head element by sixteen terms. */
  lemma ValueStep(prob: seq<real>, col: seq<real>, vv: Vec16, b: nat, acc: Vec16)
    requires b * 16 + 16 <= |prob| && b * 16 + 16 <= |col|
    requires vv == col[b * 16..b * 16 + 16]
    requires ReduceSum(acc) == DotR(prob, col, 0, b * 16)
    ensures ReduceSum(Fma(acc, Load16(prob, b * 16), vv)) == DotR(prob, col, 0, b * 16 + 16)
  {
    hide Times, Fma;
    var pv := Load16(prob, b * 16);
    assert pv[0..0 + |acc|] == prob[b * 16..b * 16 + |acc|];
    ExtendDot(acc, pv, vv, 0, |acc|, prob, col, b * 16);
  }

  /** Weighted sums of head elements 16 * part .. 16 * part + 16 over all blocks. */
  method ComputeValuePart(hd: Head, first: nat, blockNum: nat, prob: seq<real>, part: nat) returns (accs: seq<Vec16>)
    requires hd.Valid() && first + blockNum <= |hd.bases| && |prob| == blockNum * 16
    requires part * 16 + 16 <= hd.headSize
    ensures |accs| == 16
    ensures forall e :: 0 <= e < 16 ==>
              ReduceSum(accs[e]) == DotR(prob, Column(hd, first, part * 16 + e), 0, blockNum * 16)
  {
    hide Fma, Load16, ReduceSum, Column;
    accs := seq(16, i => ZeroVec());
    ZeroReduces();
    for b := 0 to blockNum
      invariant |accs| == 16
      invariant forall e :: 0 <= e < 16 ==>
                  ReduceSum(accs[e]) == DotR(prob, Column(hd, first, part * 16 + e), 0, b * 16)
    {
      var before := accs;
      accs := ReduceValueBlock(prob, b * 16, hd.vc, hd.bases[first + b] + 16 * part * 16, before);
      forall e | 0 <= e < 16
        ensures ReduceSum(accs[e]) == DotR(prob, Column(hd, first, part * 16 + e), 0, b * 16 + 16)
      {
        ColumnTerms(hd, first, b, part * 16 + e);
        ValueStep(prob, Column(hd, first, part * 16 + e), Load16(hd.vc, hd.bases[first + b] + (part * 16 + e) * 16), b,
          before[e]);
      }
    }
  }

  lemma ZeroReduces()
    ensures ReduceSum(ZeroVec()) == 0.0
  {
    ZeroSum(0, |ZeroVec()|);
  }

  /** Weighted value sums of every head element, sixteen at a time, stored at out[at..]. */
  method ComputeValues(hd: Head, first: nat, blockNum: nat, prob: seq<real>, out: array<real>, at: nat)
    requires hd.Valid() && first + blockNum <= |hd.bases| && |prob| == blockNum * 16
    requires at + hd.headSize <= out.Length
    modifies out
    ensures forall i :: at <= i < at + hd.headSize ==> out[i] == DotR(prob, Column(hd, first, i - at), 0, blockNum * 16)
    ensures forall i :: 0 <= i < out.Length && !(at <= i < at + hd.headSize) ==> out[i] == old(out[i])
  {
    hide Column, ReduceSum;
    for part := 0 to hd.headSize / 16
      invariant forall i :: at <= i < at + part * 16 ==>
                  out[i] == DotR(prob, Column(hd, first, i - at), 0, blockNum * 16)
      invariant forall i :: 0 <= i < out.Length && !(at <= i < at + hd.headSize) ==> out[i] == old(out[i])
    {
      var accs := ComputeValuePart(hd, first, blockNum, prob, part);
      StoreSums(accs, out, at + part * 16);
      forall i | at + part * 16 <= i < at + part * 16 + 16
        ensures out[i] == DotR(prob, Column(hd, first, i - at), 0, blockNum * 16)
      {
        assert ReduceSum(accs[i - (at + part * 16)]) ==
          DotR(prob, Column(hd, first, part * 16 + (i - (at + part * 16))), 0, blockNum * 16);
      }
    }
  }

  method StoreSums(accs: seq<Vec16>, out: array<real>, at: nat)
    requires |accs| == 16 && at + 16 <= out.Length
    modifies out
    ensures forall i :: at <= i < at + 16 ==> out[i] == ReduceSum(accs[i - at])
    ensures forall i :: 0 <= i < out.Length && !(at <= i < at + 16) ==> out[i] == old(out[i])
  {
    hide ReduceSum;
    for e := 0 to 16
      invariant forall i :: at <= i < at + e ==> out[i] == ReduceSum(accs[i - at])
      invariant forall i :: 0 <= i < out.Length && !(at <= i < at + e) ==> out[i] == old(out[i])
    {
      out[at + e] := ReduceSum(accs[e]);
    }
  }

  /** prob holds the softmax weights of the logits l, zero past the last logit. */
  ghost predicate IsWeights(exp: RealFn, l: seq<real>, max: real, sum: real, prob: seq<real>) {
    && sum > 0.0 && |l| <= |prob|
    && prob[..|l|] == Quotients(Exps(exp, l, max), sum)
    && forall i :: |l| <= i < |prob| ==> prob[i] == 0.0
  }

  lemma QuotientTimes(e: real, s: real, v: real)
    requires s > 0.0
    ensures Times(Over(e, s), v) == Over(Times(e, v), s)
  {
  }

  lemma OverZero(s: real)
    requires s > 0.0
    ensures Over(0.0, s) == 0.0
  {
  }

  /** Normalised weights dotted with the values give the quotient of the two softmax sums. */
  lemma {:induction false} WeightsDot(exp: RealFn, l: seq<real>, m: real, s: real, p: seq<real>, v: seq<real>, k: nat)
    requires s > 0.0 && k <= |l| <= |p| && |l| <= |v|
    requires p[..|l|] == Quotients(Exps(exp, l, m), s)
    ensures DotR(p, v, 0, k) == Over(ExpDot(exp, l, v, m, 0, k), s)
  {
    hide Times, Over;
    if k == 0 {
      OverZero(s);
    } else {
      WeightsDot(exp, l, m, s, p, v, k - 1);
      var e := exp[l[k - 1] - m];
      assert p[k - 1] == p[..|l|][k - 1] == Over(e, s);
      QuotientTimes(e, s, v[k - 1]);
      AddQuotients(ExpDot(exp, l, v, m, 0, k - 1), Times(e, v[k - 1]), s);
    }
  }

  /** Padding slots carry zero weight and contribute nothing, whatever the cache holds there. */
  lemma {:induction false} PaddingDot(p: seq<real>, v: seq<real>, n: nat, hi: nat)
    requires n <= hi <= |p| && hi <= |v|
    requires forall i :: n <= i < hi ==> p[i] == 0.0
    ensures DotR(p, v, 0, hi) == DotR(p, v, 0, n)
  {
    if n < hi {
      PaddingDot(p, v, n, hi - 1);
    }
  }

  lemma {:induction false} SliceSums(exp: RealFn, l: seq<real>, v: seq<real>, l': seq<real>, v': seq<real>, m: real,
                                     start: nat, n: nat)
    requires n <= |l| && n <= |v| && start + n <= |l'| && start + n <= |v'|
    requires forall i :: 0 <= i < n ==> l[i] == l'[start + i] && v[i] == v'[start + i]
    ensures ExpSum(exp, l, m, 0, n) == ExpSum(exp, l', m, start, start + n)
    ensures ExpDot(exp, l, v, m, 0, n) == ExpDot(exp, l', v', m, start, start + n)
    ensures n > 0 ==> MaxR(l, 0, n) == MaxR(l', start, start + n)
  {
    hide Times;
    if n > 0 {
      SliceSums(exp, l, v, l', v', m, start, n - 1);
    }
  }

  /** What one token range contributes to one output element. */
  ghost function RangeOut(exp: RealFn, hd: Head, start: nat, n: nat, d: nat): real
    requires hd.Valid() && 0 < n && start + n <= hd.seqLen && d < hd.headSize && IsExp(exp)
  {
    hide Head.Scores, Head.Values;
    var l := hd.Scores();
    var m := MaxR(l, start, start + n);
    ExpSumPositive(exp, l, m, start, start + n);
    Over(ExpDot(exp, l, hd.Values(d), m, start, start + n), ExpSum(exp, l, m, start, start + n))
  }

  lemma ScoresSlice(hd: Head, start: nat, n: nat)
    requires hd.Valid() && start + n <= hd.seqLen
    ensures hd.slope.None? ==> hd.Scores()[start..start + n] == hd.RawScores()[start..start + n]
    ensures hd.slope.Some? ==>
              hd.Scores()[start..start + n] ==
                Biased(hd.RawScores()[start..start + n], hd.slope.value, start, hd.seqLen)
  {
    hide Head.RawScore, AlibiBias;
  }

  lemma PaddedWeights(exp: RealFn, l: seq<real>, max: real, sum: real, prob: seq<real>, n: nat)
    requires sum > 0.0 && prob == Quotients(Exps(exp, l, max), sum) + Zeros(n)
    ensures IsWeights(exp, l, max, sum, prob)
  {
    hide Over;
  }

  /** Logits, softmax with optional ALiBi bias, and the softmax maximum and denominator of a token range. */
  method ComputeWeights(hd: Head, first: nat, tokenNum: nat, logits: array<real>, exp: RealFn)
    returns (max: real, sum: real)
    requires hd.Valid() && 0 < tokenNum && 16 * first + tokenNum <= hd.seqLen && IsExp(exp)
    requires BlockNum(tokenNum) * 16 <= logits.Length
    modifies logits
    ensures var l := hd.Scores()[16 * first..16 * first + tokenNum];
            var cap := BlockNum(tokenNum) * 16;
            && max == MaxR(l, 0, tokenNum)
            && sum == ExpSum(exp, l, max, 0, tokenNum)
            && IsWeights(exp, l, max, sum, logits[..cap])
  {
    hide Quotients, Exps, Biased, Head.Scores, Head.RawScores, IsExp, IsWeights;
    var capacity := BlockNum(tokenNum) * 16;
    ComputeLogits(hd, first, tokenNum, logits);
    ScoresSlice(hd, 16 * first, tokenNum);
    match hd.slope
    case None =>
      max, sum := ReduceSoftmax(logits, tokenNum, capacity, exp);
      PaddedWeights(exp, hd.Scores()[16 * first..16 * first + tokenNum], max, sum, logits[..capacity],
        capacity - tokenNum);
    case Some(slope) =>
      max, sum := ReduceSoftmaxAlibi(logits, tokenNum, capacity, slope, 16 * first, hd.seqLen, exp);
      PaddedWeights(exp, hd.Scores()[16 * first..16 * first + tokenNum], max, sum, logits[..capacity],
        capacity - tokenNum);
  }

  /** Softmax-weighted value sums of one token range of one head, stored at out[at..]. */
  method AttendRange(hd: Head, first: nat, tokenNum: nat, logits: array<real>, out: array<real>, at: nat, exp: RealFn)
    returns (max: real, sum: real)
    requires hd.Valid() && 0 < tokenNum && 16 * first + tokenNum <= hd.seqLen && IsExp(exp)
    requires BlockNum(tokenNum) * 16 <= logits.Length && logits != out && at + hd.headSize <= out.Length
    modifies logits, out
    ensures max == MaxR(hd.Scores(), 16 * first, 16 * first + tokenNum)
    ensures sum == ExpSum(exp, hd.Scores(), max, 16 * first, 16 * first + tokenNum)
    ensures forall i :: at <= i < at + hd.headSize ==> out[i] == RangeOut(exp, hd, 16 * first, tokenNum, i - at)
    ensures forall i :: 0 <= i < out.Length && !(at <= i < at + hd.headSize) ==> out[i] == old(out[i])
  {
    hide Column, RangeOut, Head.Scores, IsWeights, IsExp;
    max, sum := ComputeWeights(hd, first, tokenNum, logits, exp);
    var blockNum := BlockNum(tokenNum);
    var prob := logits[..blockNum * 16];
    ComputeValues(hd, first, blockNum, prob, out, at);
    forall i | at <= i < at + hd.headSize
      ensures out[i] == RangeOut(exp, hd, 16 * first, tokenNum, i - at)
    {
      RangeWeights(exp, hd, first, tokenNum, max, sum, prob, i - at);
    }
    RangeWeights(exp, hd, first, tokenNum, max, sum, prob, 0);
  }

  lemma RangeWeights(exp: RealFn, hd: Head, first: nat, n: nat, max: real, sum: real, prob: seq<real>, d: nat)
    requires hd.Valid() && 0 < n && 16 * first + n <= hd.seqLen && d < hd.headSize && IsExp(exp)
    requires first <= |hd.bases| && |prob| <= 16 * (|hd.bases| - first)
    requires var l := hd.Scores()[16 * first..16 * first + n];
             max == MaxR(l, 0, n) && sum == ExpSum(exp, l, max, 0, n) && IsWeights(exp, l, max, sum, prob)
    ensures max == MaxR(hd.Scores(), 16 * first, 16 * first + n)
    ensures sum == ExpSum(exp, hd.Scores(), max, 16 * first, 16 * first + n)
    ensures DotR(prob, Column(hd, first, d), 0, |prob|) == RangeOut(exp, hd, 16 * first, n, d)
  {
    hide Times, Over, Quotients, Exps, Head.Scores, Head.SlotValue, Head.RawScores, IsExp, ExpSum, ExpDot, DotR, MaxR;
    var l, v := hd.Scores()[16 * first..16 * first + n], Column(hd, first, d);
    WeightsDot(exp, l, max, sum, prob, v, n);
    PaddingDot(prob, v, n, |prob|);
    SliceSums(exp, l, v, hd.Scores(), hd.Values(d), max, 16 * first, n);
  }
}
