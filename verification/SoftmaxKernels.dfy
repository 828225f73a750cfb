/** The three in-place softmax reductions of the CPU attention kernels. */
module SoftmaxKernels {
  import opened Reals
  import opened Softmax

  const EPSILON: real := 0.00000001

  /** Exponentials of the logits relative to m. */
  function Exps(exp: RealFn, l: seq<real>, m: real): (e: seq<real>) {
    seq(|l|, i requires 0 <= i < |l| => exp[l[i] - m])
  }

  function Quotients(s: seq<real>, d: real): (q: seq<real>)
    requires d != 0.0
  {
    seq(|s|, i requires 0 <= i < |s| => Over(s[i], d))
  }

  function Zeros(n: nat): seq<real> {
    seq(n, i => 0.0)
  }

  /** Replaces data[..size] by exponentials relative to max and returns their sum. */
  method Exponentiate(data: array<real>, size: nat, max: real, exp: RealFn) returns (sum: real)
    requires size <= data.Length
    modifies data
    ensures sum == ExpSum(exp, old(data[..size]), max, 0, size)
    ensures data[..size] == Exps(exp, old(data[..size]), max)
  {
    ghost var l := data[..size];
    sum := 0.0;
    for i := 0 to size
      invariant sum == ExpSum(exp, l, max, 0, i)
      invariant forall k :: 0 <= k < i ==> data[k] == exp[l[k] - max]
      invariant forall k :: i <= k < size ==> data[k] == l[k]
    {
      data[i] := exp[data[i] - max];
      sum := sum + data[i];
    }
  }

  method Divide(data: array<real>, lo: nat, hi: nat, divisor: real)
    requires lo <= hi <= data.Length && divisor != 0.0
    modifies data
    ensures data[lo..hi] == Quotients(old(data[lo..hi]), divisor)
    ensures forall i :: 0 <= i < data.Length && !(lo <= i < hi) ==> data[i] == old(data[i])
  {
    ghost var q := Quotients(data[lo..hi], divisor);
    for i := lo to hi
      invariant forall k :: lo <= k < i ==> data[k] == q[k - lo]
      invariant forall k :: 0 <= k < data.Length && !(lo <= k < i) ==> data[k] == old(data[k])
    {
      data[i] := data[i] / divisor;
    }
  }

  /** Second half shared by both softmax reductions: exponentiate, normalise, zero the padding. */
  method Normalize(data: array<real>, size: nat, capacity: nat, max: real, exp: RealFn) returns (sum: real)
    requires 0 < size <= capacity <= data.Length && IsExp(exp)
    modifies data
    ensures sum == ExpSum(exp, old(data[..size]), max, 0, size) > 0.0
    ensures data[..capacity] == Quotients(Exps(exp, old(data[..size]), max), sum) + Zeros(capacity - size)
  {
    ghost var l := data[..size];
    sum := Exponentiate(data, size, max, exp);
    ExpSumPositive(exp, l, max, 0, size);
    Divide(data, 0, size, sum);
    ghost var w := data[..size];
    for i := size to capacity
      invariant data[..size] == w
      invariant forall k :: size <= k < i ==> data[k] == 0.0
    {
      data[i] := 0.0;
    }
  }

  /** The running maximum that every reduction starts with. */
  method FindMax(data: array<real>, lo: nat, hi: nat) returns (max: real)
    requires lo < hi <= data.Length
    ensures max == MaxR(data[lo..hi], 0, hi - lo)
  {
    max := data[lo];
    for i := lo + 1 to hi
      invariant max == MaxR(data[lo..hi], 0, i - lo)
    {
      max := Max(max, data[i]);
    }
  }

  /** Stable softmax of data[..size]; data[size..capacity] is padding. */
  method ReduceSoftmax(data: array<real>, size: nat, capacity: nat, exp: RealFn) returns (max: real, sum: real)
    requires 0 < size <= capacity <= data.Length && IsExp(exp)
    modifies data
    ensures max == MaxR(old(data[..size]), 0, size)
    ensures sum == ExpSum(exp, old(data[..size]), max, 0, size) > 0.0
    ensures data[..capacity] == Quotients(Exps(exp, old(data[..size]), max), sum) + Zeros(capacity - size)
  {
    max := FindMax(data, 0, size);
    assert data[0..size] == data[..size];
    sum := Normalize(data, size, capacity, max, exp);
  }

  /** The linear bias that ALiBi adds to the logit of token `pos`. */
  function AlibiBias(slope: real, pos: int, seqLen: int): real {
    slope * ((pos - seqLen + 1) as real)
  }

  /** The bias takes the slope off the logit once for every later token, so the last token keeps its logit. */
  lemma BiasIsDistance(slope: real, pos: int, seqLen: int)
    ensures AlibiBias(slope, pos, seqLen) == -Times(slope, (seqLen - 1 - pos) as real)
    ensures AlibiBias(slope, seqLen - 1, seqLen) == 0.0
    ensures AlibiBias(slope, pos + 1, seqLen) == AlibiBias(slope, pos, seqLen) + slope
  {
    var d := (seqLen - 1 - pos) as real;
    assert (pos - seqLen + 1) as real == -d && (pos + 1 - seqLen + 1) as real == -d + 1.0;
  }

  /** Logits with the ALiBi bias of their absolute positions added. */
  function Biased(l: seq<real>, slope: real, start: int, seqLen: int): (b: seq<real>) {
    seq(|l|, i requires 0 <= i < |l| => l[i] + AlibiBias(slope, start + i, seqLen))
  }

  /** Adds the ALiBi bias to data[..size] in place while tracking the maximum. */
  method AddBias(data: array<real>, size: nat, slope: real, start: int, seqLen: int) returns (max: real)
    requires 0 < size <= data.Length
    modifies data
    ensures data[..size] == Biased(old(data[..size]), slope, start, seqLen)
    ensures max == MaxR(data[..size], 0, size)
  {
    hide AlibiBias;
    ghost var b := Biased(data[..size], slope, start, seqLen);
    data[0] := data[0] + AlibiBias(slope, start, seqLen);
    max := data[0];
    for i := 1 to size
      invariant data[..i] == b[..i]
      invariant data[i..size] == old(data[i..size])
      invariant max == MaxR(b, 0, i)
    {
      var qk := data[i] + AlibiBias(slope, start + i, seqLen);
      assert qk == b[i];
      data[i] := qk;
      max := Max(max, qk);
    }
    assert data[..size] == b;
  }

  /** Softmax of the biased logits; the bias uses absolute positions, so a partition passes its start. */
  method ReduceSoftmaxAlibi(data: array<real>, size: nat, capacity: nat, slope: real, start: int, seqLen: int,
                            exp: RealFn)
    returns (max: real, sum: real)
    requires 0 < size <= capacity <= data.Length && IsExp(exp)
    modifies data
    ensures var b := Biased(old(data[..size]), slope, start, seqLen);
            && max == MaxR(b, 0, size)
            && sum == ExpSum(exp, b, max, 0, size) > 0.0
            && data[..capacity] == Quotients(Exps(exp, b, max), sum) + Zeros(capacity - size)
  {
    max := AddBias(data, size, slope, start, seqLen);
    sum := Normalize(data, size, capacity, max, exp);
  }

  /** Partition denominators, each rebased from its own maximum to m. */
  function Rescaled(exp: RealFn, maxes: seq<real>, sums: seq<real>, m: real): (r: seq<real>)
    requires |maxes| == |sums|
  {
    seq(|sums|, i requires 0 <= i < |sums| => Times(sums[i], exp[maxes[i] - m]))
  }

  /** Rescales each partition's denominator to the common maximum and returns their total. */
  method Rescale(maxData: array<real>, sumData: array<real>, base: nat, size: nat, max: real, exp: RealFn)
    returns (total: real)
    requires base + size <= maxData.Length && base + size <= sumData.Length && maxData != sumData
    modifies sumData
    ensures sumData[base..base + size] ==
            Rescaled(exp, old(maxData[base..base + size]), old(sumData[base..base + size]), max)
    ensures total == SumR(sumData[base..base + size], 0, size)
    ensures forall i :: 0 <= i < sumData.Length && !(base <= i < base + size) ==> sumData[i] == old(sumData[i])
  {
    hide Times;
    ghost var r := Rescaled(exp, maxData[base..base + size], sumData[base..base + size], max);
    total := 0.0;
    for i := base to base + size
      invariant total == SumR(r, 0, i - base)
      invariant forall k :: base <= k < i ==> sumData[k] == r[k - base]
      invariant forall k :: 0 <= k < sumData.Length && !(base <= k < i) ==> sumData[k] == old(sumData[k])
    {
      var scaled := Times(sumData[i], exp[maxData[i] - max]);
      total := total + scaled;
      sumData[i] := scaled;
    }
    assert sumData[base..base + size] == r;
  }

  lemma {:induction false} RescaledSumPositive(exp: RealFn, maxes: seq<real>, sums: seq<real>, m: real, n: nat)
    requires n <= |maxes| == |sums| && IsExp(exp)
    requires forall i :: 0 <= i < n ==> sums[i] >= 0.0
    ensures SumR(Rescaled(exp, maxes, sums, m), 0, n) >= 0.0
  {
    if n > 0 {
      RescaledSumPositive(exp, maxes, sums, m, n - 1);
      assert PositiveAt(exp, maxes[n - 1] - m);
    }
  }

  /** The merged denominator: every partition's denominator, rebased to the overall maximum. */
  function MergedSum(exp: RealFn, maxes: seq<real>, sums: seq<real>): real
    requires 0 < |maxes| == |sums|
  {
    SumR(Rescaled(exp, maxes, sums, MaxR(maxes, 0, |maxes|)), 0, |sums|)
  }

  /** The factors by which partition outputs are weighted when they are merged. */
  function MergeFactors(exp: RealFn, maxes: seq<real>, sums: seq<real>): (f: seq<real>)
    requires 0 < |maxes| == |sums| && MergedSum(exp, maxes, sums) >= 0.0
  {
    Quotients(Rescaled(exp, maxes, sums, MaxR(maxes, 0, |maxes|)), MergedSum(exp, maxes, sums) + EPSILON)
  }


  /** Turns the partition denominators sumData[base..base+size] into the factors that merge the partitions. */
  method ReducePartitionSoftmax(maxData: array<real>, sumData: array<real>, base: nat, size: nat, exp: RealFn)
    requires 0 < size && base + size <= maxData.Length && base + size <= sumData.Length && maxData != sumData
    requires MergedSum(exp, maxData[base..base + size], sumData[base..base + size]) >= 0.0
    modifies sumData
    ensures forall i :: 0 <= i < sumData.Length && !(base <= i < base + size) ==> sumData[i] == old(sumData[i])
    ensures sumData[base..base + size] ==
            MergeFactors(exp, old(maxData[base..base + size]), old(sumData[base..base + size]))
  {
    hide Times, Over, MaxR, SumR;
    var max := FindMax(maxData, base, base + size);
    var total := Rescale(maxData, sumData, base, size, max, exp);
    Divide(sumData, base, base + size, total + EPSILON);
  }
}
