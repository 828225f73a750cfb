/** Root-mean-square normalisation in eight lanes, alone and fused with the residual addition. */
module RmsNorm {
  import opened Reals
  import opened Radix

  type Vec8 = v: seq<real> | |v| == 8 witness seq(8, i => 0.0)

  function ZeroVec(): Vec8 {
    seq(8, i => 0.0)
  }

  function Load8(s: seq<real>, at: nat): Vec8
    requires at + 8 <= |s|
  {
    s[at..at + 8]
  }

  function Add(a: Vec8, b: Vec8): Vec8 {
    seq(8, l requires 0 <= l < 8 => a[l] + b[l])
  }

  function Mul(a: Vec8, b: Vec8): Vec8 {
    seq(8, l requires 0 <= l < 8 => Times(a[l], b[l]))
  }

  function Splat(x: real): Vec8 {
    seq(8, i => x)
  }

  function ReduceSum(v: Vec8): real {
    SumR(v, 0, |v|)
  }

  lemma {:induction false} AddSquaresSum(acc: Vec8, x: Vec8, n: nat)
    requires n <= 8
    ensures SumR(Add(acc, Mul(x, x)), 0, n) == SumR(acc, 0, n) + DotR(x, x, 0, n)
  {
    hide Times;
    if n > 0 {
      AddSquaresSum(acc, x, n - 1);
    }
  }

  lemma {:induction false} ZeroSum(n: nat)
    requires n <= 8
    ensures SumR(ZeroVec(), 0, n) == 0.0
  {
    if n > 0 {
      ZeroSum(n - 1);
    }
  }

  /** Accumulating eight more elements lane by lane adds their squares to the sum over the lanes. */
  lemma AccumulateStep(acc: Vec8, s: seq<real>, j: nat)
    requires j + 8 <= |s|
    ensures ReduceSum(Add(acc, Mul(Load8(s, j), Load8(s, j)))) == ReduceSum(acc) + DotR(s, s, j, j + 8)
  {
    hide Add, Mul, Times;
    var x := Load8(s, j);
    AddSquaresSum(acc, x, |x|);
    DotRShift(s, s, j, x, x, 0, |x|);
  }

  /** One over the root of the mean square of x plus epsilon; rsqrt stands for the machine's 1 / sqrt. */
  ghost function Factor(x: seq<real>, epsilon: real, rsqrt: RealFn): real
    requires |x| > 0
  {
    rsqrt[Over(Dot(x, x), |x| as real) + epsilon]
  }

  /** The normalised row. */
  ghost function Normed(x: seq<real>, weight: seq<real>, epsilon: real, rsqrt: RealFn): (r: seq<real>)
    requires 0 < |x| == |weight|
    ensures |r| == |x|
  {
    seq(|x|, j requires 0 <= j < |x| => Times(Times(x[j], Factor(x, epsilon, rsqrt)), weight[j]))
  }

  lemma {:induction false} ScaledSquares(x: seq<real>, y: seq<real>, f: real, k: nat)
    requires k <= |x| == |y| && forall j :: 0 <= j < k ==> y[j] == Times(x[j], f)
    ensures DotR(y, y, 0, k) == Times(DotR(x, x, 0, k), f * f)
  {
    if k > 0 {
      ScaledSquares(x, y, f, k - 1);
      SquareOfScaled(x[k - 1], f, DotR(x, x, 0, k - 1));
    }
  }

  lemma SquareOfScaled(a: real, f: real, s: real)
    ensures Times(Times(a, f), Times(a, f)) == Times(a, a) * (f * f)
    ensures Times(s + Times(a, a), f * f) == Times(s, f * f) + Times(a, a) * (f * f)
  {
    assert (a * f) * (a * f) == (a * a) * (f * f);
  }

  /** What normalising is for: with unit weights and a true reciprocal square root, the mean square of the row becomes
      the fraction q / (q + epsilon) of what it was, q being its own mean square, so one but for epsilon. */
  lemma NormedMeanSquare(x: seq<real>, weight: seq<real>, epsilon: real, rsqrt: RealFn)
    requires 0 < |x| == |weight| && forall j :: 0 <= j < |x| ==> weight[j] == 1.0
    requires var q := Over(Dot(x, x), |x| as real); rsqrt[q + epsilon] * rsqrt[q + epsilon] * (q + epsilon) == 1.0
    ensures var n, q := |x| as real, Over(Dot(x, x), |x| as real);
            var y := Normed(x, weight, epsilon, rsqrt);
            Over(Dot(y, y), n) * (q + epsilon) == q
  {
    var y, f, n := Normed(x, weight, epsilon, rsqrt), Factor(x, epsilon, rsqrt), |x| as real;
    var v := Over(Dot(x, x), n) + epsilon;
    forall j | 0 <= j < |x|
      ensures y[j] == Times(x[j], f)
    {
    }
    ScaledSquares(x, y, f, |x|);
    MeanSquare(Dot(x, x), Dot(y, y), f, v, n);
  }

  lemma MeanSquare(a: real, b: real, f: real, v: real, n: real)
    requires n > 0.0 && b == Times(a, f * f) && f * f * v == 1.0
    ensures Over(b, n) * v == Over(a, n)
  {
    assert b * v == a * (f * f * v) == a;
    var p, q := b / n, a / n;
    assert b == p * n && a == q * n;
    assert (p * v) * n == (p * n) * v == q * n;
  }

  ghost function Sum(a: seq<real>, b: seq<real>): (r: seq<real>)
    requires |a| == |b|
    ensures |r| == |a|
  {
    seq(|a|, j requires 0 <= j < |a| => a[j] + b[j])
  }

  /** Writes eight elements; everything else stays. */
  method Store8(a: array<real>, at: nat, v: Vec8)
    requires at + 8 <= a.Length
    modifies a
    ensures a[at..at + 8] == v
    ensures a[..at] == old(a[..at]) && a[at + 8..] == old(a[at + 8..])
  {
    forall l | at <= l < at + 8 {
      a[l] := v[l - at];
    }
  }

  /** The stored vector extends what has been written before it. */
  lemma Extends(whole: seq<real>, lo: nat, j: nat, v: Vec8)
    requires lo + j + 8 <= |whole| && whole[lo + j..lo + j + 8] == v
    ensures whole[lo..lo + j + 8] == whole[lo..lo + j] + v
  {
  }

  lemma NormedSlice(x: seq<real>, weight: seq<real>, epsilon: real, rsqrt: RealFn, j: nat)
    requires 0 < |x| == |weight| && j + 8 <= |x|
    ensures Normed(x, weight, epsilon, rsqrt)[..j + 8] == Normed(x, weight, epsilon, rsqrt)[..j]
            + Mul(Mul(Load8(x, j), Splat(Factor(x, epsilon, rsqrt))), Load8(weight, j))
  {
    hide Factor, Times;
  }

  /** Sum of squares of a row, accumulated in eight lanes. */
  method SquareSum(x: seq<real>) returns (variance: Vec8)
    requires |x| % 8 == 0
    ensures ReduceSum(variance) == Dot(x, x)
  {
    hide ReduceSum, Add, Mul, Times, Load8, DotR;
    variance := ZeroVec();
    ZeroReduces();
    var j := 0;
    while j < |x|
      invariant 0 <= j <= |x| && j % 8 == 0 && ReduceSum(variance) == DotR(x, x, 0, j)
    {
      AccumulateStep(variance, x, j);
      DotRSplit(x, x, 0, j, j + 8);
      variance := Add(variance, Mul(Load8(x, j), Load8(x, j)));
      j := j + 8;
    }
  }

  lemma ZeroReduces()
    ensures ReduceSum(ZeroVec()) == 0.0
    ensures forall x: seq<real> :: DotR(x, x, 0, 0) == 0.0
  {
    ZeroSum(|ZeroVec()|);
  }

  /** Only a[at..at + n] may differ. */
  ghost predicate OnlyRange(before: seq<real>, after: seq<real>, at: nat, n: nat) {
    |before| == |after| && at + n <= |after| && after[..at] == before[..at] && after[at + n..] == before[at + n..]
  }

  /** Writing within the range keeps the rest, and what the range holds so far. */
  lemma StoreInRange(start: seq<real>, before: seq<real>, after: seq<real>, at: nat, n: nat, j: nat, v: Vec8)
    requires OnlyRange(start, before, at, n) && j + 8 <= n && |after| == |before|
    requires after[at + j..at + j + 8] == v && after[..at + j] == before[..at + j]
             && after[at + j + 8..] == before[at + j + 8..]
    ensures OnlyRange(start, after, at, n) && after[at..at + j + 8] == before[at..at + j] + v
    ensures after[at + j + 8..at + n] == before[at + j + 8..at + n]
  {
    assert after[..at] == after[..at + j][..at] && before[..at] == before[..at + j][..at];
    assert after[at + n..] == after[at + j + 8..][n - j - 8..] && before[at + n..] == before[at + j + 8..][n - j - 8..];
    assert after[at..at + j] == after[..at + j][at..] && before[at..at + j] == before[..at + j][at..];
    assert after[at + j + 8..at + n] == after[at + j + 8..][..n - j - 8]
      && before[at + j + 8..at + n] == before[at + j + 8..][..n - j - 8];
    Extends(after, at, j, v);
  }

  /** Second pass: scales x by the factor and the weight into the row at `at`. */
  method ScaleInto(out: array<real>, at: nat, x: seq<real>, weight: seq<real>, factor: real, ghost epsilon: real,
                   ghost rsqrt: RealFn)
    requires 0 < |x| == |weight| && |x| % 8 == 0 && at + |x| <= out.Length && factor == Factor(x, epsilon, rsqrt)
    modifies out
    ensures out[at..at + |x|] == Normed(x, weight, epsilon, rsqrt)
    ensures OnlyRange(old(out[..]), out[..], at, |x|)
  {
    hide Normed, Factor, Mul;
    ghost var start := out[..];
    var j := 0;
    while j < |x|
      invariant 0 <= j <= |x| && j % 8 == 0 && OnlyRange(start, out[..], at, |x|)
      invariant out[at..at + j] == Normed(x, weight, epsilon, rsqrt)[..j]
    {
      ghost var before := out[..];
      var v := Mul(Mul(Load8(x, j), Splat(factor)), Load8(weight, j));
      Store8(out, at + j, v);
      StoreInRange(start, before, out[..], at, |x|, j, v);
      NormedSlice(x, weight, epsilon, rsqrt, j);
      j := j + 8;
    }
  }

  function SFactor(variance: Vec8, n: nat, epsilon: real, rsqrt: RealFn): real
    requires n > 0
  {
    rsqrt[Over(ReduceSum(variance), n as real) + epsilon]
  }

  /** Row `at` of the input, normalised into the same row of the output. */
  method NormRow(out: array<real>, input: seq<real>, weight: seq<real>, epsilon: real, rsqrt: RealFn, at: nat, h: nat)
    requires 0 < h == |weight| && h % 8 == 0 && at + h <= |input| && at + h <= out.Length
    modifies out
    ensures out[at..at + h] == Normed(input[at..at + h], weight, epsilon, rsqrt)
    ensures OnlyRange(old(out[..]), out[..], at, h)
  {
    hide Normed, OnlyRange;
    var variance := SquareSum(input[at..at + h]);
    ScaleInto(out, at, input[at..at + h], weight, SFactor(variance, h, epsilon, rsqrt), epsilon, rsqrt);
  }

  lemma SumSlice(a: seq<real>, b: seq<real>, j: nat)
    requires |a| == |b| && j + 8 <= |a|
    ensures Sum(a, b)[..j + 8] == Sum(a, b)[..j] + Add(Load8(a, j), Load8(b, j))
    ensures Load8(Sum(a, b), j) == Add(Load8(a, j), Load8(b, j))
  {
  }

  /** First pass of the fused kernel: adds the input row into the residual row and accumulates its squares. */
  method AddAndSquare(input: seq<real>, residual: array<real>, at: nat, h: nat) returns (variance: Vec8)
    requires h % 8 == 0 && |input| == h && at + h <= residual.Length
    modifies residual
    ensures residual[at..at + h] == Sum(input, old(residual[at..at + h]))
    ensures OnlyRange(old(residual[..]), residual[..], at, h)
    ensures ReduceSum(variance) == Dot(residual[at..at + h], residual[at..at + h])
  {
    hide ReduceSum, Add, Mul, Times, DotR, AddedUpTo, Load8;
    ghost var start := residual[..];
    ghost var x := Sum(input, start[at..at + h]);
    variance := ZeroVec();
    ZeroReduces();
    AddedNothing(start, input, at, h);
    var j := 0;
    while j < h
      invariant 0 <= j <= h && j % 8 == 0 && AddedUpTo(start, residual[..], input, at, h, j)
      invariant ReduceSum(variance) == DotR(x, x, 0, j)
    {
      ghost var before := residual[..];
      var v := Add(Load8(input, j), residual[at + j..at + j + 8]);
      Store8(residual, at + j, v);
      AddedMore(start, before, residual[..], input, at, h, j, v);
      AccumulateStep(variance, x, j);
      DotRSplit(x, x, 0, j, j + 8);
      variance := Add(variance, Mul(v, v));
      j := j + 8;
    }
    AddedAll(start, residual[..], input, at, h);
    assert residual[at..at + h] == x && start[at..at + h] == old(residual[at..at + h]);
  }

  /** The first j elements of the row hold the sum, the others their old contents. */
  ghost predicate AddedUpTo(start: seq<real>, now: seq<real>, input: seq<real>, at: nat, h: nat, j: nat)
    requires |input| == h && at + h <= |start|
  {
    && OnlyRange(start, now, at, h) && j <= h
    && now[at..at + j] == Sum(input, start[at..at + h])[..j] && now[at + j..at + h] == start[at + j..at + h]
  }

  lemma AddedNothing(start: seq<real>, input: seq<real>, at: nat, h: nat)
    requires |input| == h && at + h <= |start|
    ensures AddedUpTo(start, start, input, at, h, 0)
  {
  }

  lemma AddedAll(start: seq<real>, now: seq<real>, input: seq<real>, at: nat, h: nat)
    requires |input| == h && at + h <= |start| && AddedUpTo(start, now, input, at, h, h)
    ensures OnlyRange(start, now, at, h) && now[at..at + h] == Sum(input, start[at..at + h])
  {
    hide Sum;
    var x := Sum(input, start[at..at + h]);
    assert x[..h] == x;
  }

  lemma AddedMore(start: seq<real>, before: seq<real>, after: seq<real>, input: seq<real>, at: nat, h: nat, j: nat,
                  v: Vec8)
    requires |input| == h && at + h <= |start| && AddedUpTo(start, before, input, at, h, j) && j + 8 <= h
    requires v == Add(Load8(input, j), before[at + j..at + j + 8]) && |after| == |before|
    requires after[at + j..at + j + 8] == v && after[..at + j] == before[..at + j]
             && after[at + j + 8..] == before[at + j + 8..]
    ensures AddedUpTo(start, after, input, at, h, j + 8) && v == Load8(Sum(input, start[at..at + h]), j)
  {
    hide OnlyRange, Add, Sum;
    var res := start[at..at + h];
    SameLength(start, before, at, h);
    StoreInRange(start, before, after, at, h, j, v);
    SumSlice(input, res, j);
    assert before[at + j..at + j + 8] == before[at + j..at + h][..8];
    assert Load8(res, j) == start[at + j..at + h][..8];
    assert before[at + j + 8..at + h] == before[at + j..at + h][8..];
    assert start[at + j + 8..at + h] == start[at + j..at + h][8..];
  }

  /** One row of the fused kernel. */
  method FusedRow(input: array<real>, residual: array<real>, weight: seq<real>, epsilon: real, rsqrt: RealFn, at: nat,
                  h: nat)
    requires 0 < h == |weight| && h % 8 == 0 && at + h <= input.Length && at + h <= residual.Length && input != residual
    modifies input, residual
    ensures residual[at..at + h] == Sum(old(input[at..at + h]), old(residual[at..at + h]))
    ensures input[at..at + h] == Normed(residual[at..at + h], weight, epsilon, rsqrt)
    ensures OnlyRange(old(residual[..]), residual[..], at, h) && OnlyRange(old(input[..]), input[..], at, h)
  {
    hide Normed, OnlyRange, Sum;
    var variance := AddAndSquare(input[at..at + h], residual, at, h);
    ScaleInto(input, at, residual[at..at + h], weight, SFactor(variance, h, epsilon, rsqrt), epsilon, rsqrt);
  }

  /** Every row of a parallel loop, exactly once and in any order. */
  ghost predicate IsRowSchedule(rows: seq<nat>, n: nat) {
    && (forall k :: 0 <= k < |rows| ==> rows[k] < n)
    && (forall j, k :: 0 <= j < k < |rows| ==> rows[j] != rows[k])
    && Covers(rows, n)
  }

  ghost predicate Covers(rows: seq<nat>, n: nat) {
    forall r: nat :: r < n ==> r in rows
  }

  lemma Scheduled(rows: seq<nat>, n: nat, r: nat) returns (k: nat)
    requires Covers(rows, n) && r < n
    ensures k < |rows| && rows[k] == r
  {
    assert r in rows;
    k :| 0 <= k < |rows| && rows[k] == r;
  }

  /** Row r of a tensor with rows of length h. */
  ghost function RowOf(s: seq<real>, r: nat, h: nat): (row: seq<real>)
    requires RowStart(r, h) + h <= |s|
    ensures |row| == h
  {
    s[RowStart(r, h)..RowStart(r, h) + h]
  }

  lemma KeptSlice(before: seq<real>, after: seq<real>, at: nat, n: nat, lo: nat, hi: nat)
    requires OnlyRange(before, after, at, n) && lo <= hi <= |after| && (hi <= at || at + n <= lo)
    ensures after[lo..hi] == before[lo..hi]
  {
    if hi <= at {
      assert after[lo..hi] == after[..at][lo..hi] && before[lo..hi] == before[..at][lo..hi];
    } else {
      SliceOfRest(after, at + n, lo, hi);
      SliceOfRest(before, at + n, lo, hi);
    }
  }

  lemma SliceOfRest(s: seq<real>, m: nat, lo: nat, hi: nat)
    requires m <= lo <= hi <= |s|
    ensures s[lo..hi] == s[m..][lo - m..hi - m]
  {
  }

  lemma OtherRowKept(before: seq<real>, after: seq<real>, r: nat, r': nat, h: nat)
    requires r != r' && OnlyRange(before, after, RowStart(r, h), h) && RowStart(r', h) + h <= |after|
    ensures RowOf(after, r', h) == RowOf(before, r', h)
  {
    hide RowStart, OnlyRange;
    SameLength(before, after, RowStart(r, h), h);
    RowsDisjoint(r, r', h);
    KeptSlice(before, after, RowStart(r, h), h, RowStart(r', h), RowStart(r', h) + h);
  }

  lemma SameLength(before: seq<real>, after: seq<real>, at: nat, n: nat)
    requires OnlyRange(before, after, at, n)
    ensures |before| == |after|
  {
  }

  /** Tensors that agree on every row are equal. */
  lemma RowsDetermine(a: seq<real>, b: seq<real>, n: nat, h: nat)
    requires h > 0 && |a| == |b| == n * h
    requires forall r: nat :: r < n ==> RowStart(r, h) + h <= |a| && RowOf(a, r, h) == RowOf(b, r, h)
    ensures a == b
  {
    forall i | 0 <= i < |a|
      ensures a[i] == b[i]
    {
      var r, c := Quo(i, h), Rem(i, h);
      Rebuild(i, h);
      QuoInTable(i, n, h);
      assert RowOf(a, r, h)[c] == a[i] && RowOf(b, r, h)[c] == b[i];
    }
  }

  /** Row r of out is the normalised row r of the input. */
  ghost predicate RowNormed(out: seq<real>, input: seq<real>, weight: seq<real>, epsilon: real, rsqrt: RealFn, r: nat,
                            h: nat)
    requires 0 < h == |weight|
  {
    && |out| == |input| && RowStart(r, h) + h <= |out|
    && RowOf(out, r, h) == Normed(RowOf(input, r, h), weight, epsilon, rsqrt)
  }

  lemma RowNormedKept(before: seq<real>, after: seq<real>, input: seq<real>, weight: seq<real>, epsilon: real,
                      rsqrt: RealFn, r: nat, r': nat, h: nat)
    requires 0 < h == |weight| && r != r' && OnlyRange(before, after, RowStart(r, h), h)
    requires RowNormed(before, input, weight, epsilon, rsqrt, r', h)
    ensures RowNormed(after, input, weight, epsilon, rsqrt, r', h)
  {
    hide Normed, RowStart;
    OtherRowKept(before, after, r, r', h);
  }

  /** One row of the kernel. */
  method NormOne(out: array<real>, input: seq<real>, weight: seq<real>, epsilon: real, rsqrt: RealFn, r: nat, h: nat)
    requires 0 < h == |weight| && h % 8 == 0 && RowStart(r, h) + h <= |input| == out.Length
    modifies out
    ensures RowNormed(out[..], input, weight, epsilon, rsqrt, r, h)
    ensures OnlyRange(old(out[..]), out[..], RowStart(r, h), h)
  {
    hide Normed, RowStart, OnlyRange;
    NormRow(out, input, weight, epsilon, rsqrt, RowStart(r, h), h);
    assert RowOf(out[..], r, h) == out[RowStart(r, h)..RowStart(r, h) + h];
  }

  /** Row-wise normalisation of a tensor. The hidden size must be a multiple of eight. */
  method Norm(out: array<real>, input: seq<real>, weight: seq<real>, epsilon: real, rsqrt: RealFn, n: nat, h: nat,
              schedule: seq<nat>)
    returns (ok: bool)
    requires 0 < h == |weight| && |input| == n * h == out.Length && IsRowSchedule(schedule, n)
    modifies out
    ensures ok <==> h % 8 == 0
    ensures !ok ==> out[..] == old(out[..])
    ensures ok ==> forall r: nat :: r < n ==> RowNormed(out[..], input, weight, epsilon, rsqrt, r, h)
  {
    if h % 8 != 0 {
      return false;
    }
    hide RowNormed, RowStart, OnlyRange, Covers;
    for k := 0 to |schedule|
      invariant forall j :: 0 <= j < k ==> RowNormed(out[..], input, weight, epsilon, rsqrt, schedule[j], h)
    {
      var r := schedule[k];
      RowBound(r, n, h);
      ghost var before := out[..];
      NormOne(out, input, weight, epsilon, rsqrt, r, h);
      forall j | 0 <= j < k
        ensures RowNormed(out[..], input, weight, epsilon, rsqrt, schedule[j], h)
      {
        RowNormedKept(before, out[..], input, weight, epsilon, rsqrt, r, schedule[j], h);
      }
    }
    forall r: nat | r < n
      ensures RowNormed(out[..], input, weight, epsilon, rsqrt, r, h)
    {
      var j := Scheduled(schedule, n, r);
    }
    return true;
  }

  /** The two tensors of the fused kernel. */
  datatype Pair = Pair(input: seq<real>, residual: seq<real>)

  /** Row r has been processed: the residual row is the sum, and the input row the sum normalised. */
  ghost predicate RowFused(was: Pair, now: Pair, weight: seq<real>, epsilon: real, rsqrt: RealFn, r: nat, h: nat)
    requires 0 < h == |weight|
  {
    && |was.input| == |was.residual| == |now.input| == |now.residual| && RowStart(r, h) + h <= |was.input|
    && RowOf(now.residual, r, h) == Sum(RowOf(was.input, r, h), RowOf(was.residual, r, h))
    && RowOf(now.input, r, h) == Normed(RowOf(now.residual, r, h), weight, epsilon, rsqrt)
  }

  /** Row r has not been processed yet. */
  ghost predicate RowSame(was: Pair, now: Pair, r: nat, h: nat) {
    && |was.input| == |was.residual| == |now.input| == |now.residual| && RowStart(r, h) + h <= |was.input|
    && RowOf(now.residual, r, h) == RowOf(was.residual, r, h) && RowOf(now.input, r, h) == RowOf(was.input, r, h)
  }

  /** Nothing but row r differs. */
  ghost predicate OnlyRow(before: Pair, after: Pair, r: nat, h: nat) {
    OnlyRange(before.input, after.input, RowStart(r, h), h)
      && OnlyRange(before.residual, after.residual, RowStart(r, h), h)
  }

  lemma FusedKept(was: Pair, before: Pair, after: Pair, weight: seq<real>, epsilon: real, rsqrt: RealFn, r: nat,
                  r': nat, h: nat)
    requires 0 < h == |weight| && r != r' && OnlyRow(before, after, r, h)
    ensures RowFused(was, before, weight, epsilon, rsqrt, r', h) ==> RowFused(was, after, weight, epsilon, rsqrt, r', h)
    ensures RowSame(was, before, r', h) ==> RowSame(was, after, r', h)
  {
    hide Normed, Sum, RowStart;
    if RowStart(r', h) + h <= |before.input| == |before.residual| {
      OtherRowKept(before.input, after.input, r, r', h);
      OtherRowKept(before.residual, after.residual, r, r', h);
    }
  }

  lemma SameAtStart(was: Pair, r: nat, n: nat, h: nat)
    requires |was.input| == |was.residual| == n * h && r < n
    ensures RowStart(r, h) + h <= n * h && RowSame(was, was, r, h)
  {
    RowBound(r, n, h);
  }

  /** One row of the fused kernel. */
  method FusedOne(input: array<real>, residual: array<real>, weight: seq<real>, epsilon: real, rsqrt: RealFn, r: nat,
                  h: nat, ghost was: Pair)
    requires 0 < h == |weight| && h % 8 == 0 && RowStart(r, h) + h <= input.Length == residual.Length
             && input != residual
    requires RowSame(was, Pair(input[..], residual[..]), r, h)
    modifies input, residual
    ensures RowFused(was, Pair(input[..], residual[..]), weight, epsilon, rsqrt, r, h)
    ensures OnlyRow(old(Pair(input[..], residual[..])), Pair(input[..], residual[..]), r, h)
  {
    hide Normed, Sum, RowStart, OnlyRange;
    var at := RowStart(r, h);
    assert RowOf(input[..], r, h) == input[at..at + h] && RowOf(residual[..], r, h) == residual[at..at + h];
    FusedRow(input, residual, weight, epsilon, rsqrt, at, h);
    assert RowOf(input[..], r, h) == input[at..at + h] && RowOf(residual[..], r, h) == residual[at..at + h];
  }

  /** Adds the input into the residual and normalises the sum into the input, row by row. */
  method FusedAddNorm(input: array<real>, residual: array<real>, weight: seq<real>, epsilon: real, rsqrt: RealFn,
                      n: nat, h: nat, schedule: seq<nat>)
    returns (ok: bool)
    requires 0 < h == |weight| && input.Length == residual.Length == n * h && input != residual
             && IsRowSchedule(schedule, n)
    modifies input, residual
    ensures ok <==> h % 8 == 0
    ensures !ok ==> input[..] == old(input[..]) && residual[..] == old(residual[..])
    ensures ok ==> forall r: nat :: r < n ==>
              RowFused(old(Pair(input[..], residual[..])), Pair(input[..], residual[..]), weight, epsilon, rsqrt, r, h)
  {
    if h % 8 != 0 {
      return false;
    }
    ghost var was := Pair(input[..], residual[..]);
    hide RowFused, RowSame, RowStart, OnlyRow, Covers;
    forall k | 0 <= k < |schedule|
      ensures RowStart(schedule[k], h) + h <= n * h && RowSame(was, was, schedule[k], h)
    {
      SameAtStart(was, schedule[k], n, h);
    }
    for k := 0 to |schedule|
      invariant forall j :: 0 <= j < k ==>
                  RowFused(was, Pair(input[..], residual[..]), weight, epsilon, rsqrt, schedule[j], h)
      invariant forall j :: k <= j < |schedule| ==> RowSame(was, Pair(input[..], residual[..]), schedule[j], h)
    {
      var r := schedule[k];
      ghost var before := Pair(input[..], residual[..]);
      FusedOne(input, residual, weight, epsilon, rsqrt, r, h, was);
      forall j | 0 <= j < |schedule| && j != k
        ensures j < k ==> RowFused(was, Pair(input[..], residual[..]), weight, epsilon, rsqrt, schedule[j], h)
        ensures j > k ==> RowSame(was, Pair(input[..], residual[..]), schedule[j], h)
      {
        FusedKept(was, before, Pair(input[..], residual[..]), weight, epsilon, rsqrt, r, schedule[j], h);
      }
    }
    forall r: nat | r < n
      ensures RowFused(was, Pair(input[..], residual[..]), weight, epsilon, rsqrt, r, h)
    {
      var j := Scheduled(schedule, n, r);
    }
    return true;
  }

  lemma SumOfRows(a: seq<real>, b: seq<real>, r: nat, h: nat)
    requires |a| == |b| && RowStart(r, h) + h <= |a|
    ensures RowOf(Sum(a, b), r, h) == Sum(RowOf(a, r, h), RowOf(b, r, h))
  {
  }

  /** The fused kernel is the addition followed by the normalisation: for every hidden size and any order of the
      rows in either kernel, the residual becomes the sum, and the input what normalising the sum gives. */
  method FusedIsTwoSteps(input: array<real>, residual: array<real>, weight: seq<real>, epsilon: real, rsqrt: RealFn,
                         n: nat, h: nat, schedule: seq<nat>, schedule': seq<nat>) returns (ok: bool, out: array<real>)
    requires 0 < h == |weight| && input.Length == residual.Length == n * h && input != residual
    requires IsRowSchedule(schedule, n) && IsRowSchedule(schedule', n)
    modifies input, residual
    ensures ok <==> h % 8 == 0
    ensures ok ==> residual[..] == Sum(old(input[..]), old(residual[..])) && out[..] == input[..]
    ensures ok ==> forall r: nat :: r < n ==>
              RowNormed(out[..], Sum(old(input[..]), old(residual[..])), weight, epsilon, rsqrt, r, h)
  {
    hide Normed, Sum, IsRowSchedule, RowStart, RowNormed, RowFused;
    ghost var was := Pair(input[..], residual[..]);
    var total := seq(n * h, i requires 0 <= i < input.Length == residual.Length reads input,
      residual => input[i] + residual[i]);
    SumIs(total, was.input, was.residual);
    out := new real[n * h];
    ok := Norm(out, total, weight, epsilon, rsqrt, n, h, schedule');
    assert was == Pair(input[..], residual[..]);
    var _ := FusedAddNorm(input, residual, weight, epsilon, rsqrt, n, h, schedule);
    if ok {
      SameResult(was, Pair(input[..], residual[..]), out[..], weight, epsilon, rsqrt, n, h);
    }
  }

  /** Both results are determined row by row. */
  lemma SameResult(was: Pair, now: Pair, out: seq<real>, weight: seq<real>, epsilon: real, rsqrt: RealFn, n: nat,
                   h: nat)
    requires 0 < h == |weight| && |was.input| == |was.residual| == |now.input| == |now.residual| == |out| == n * h
    requires forall r: nat :: r < n ==> RowFused(was, now, weight, epsilon, rsqrt, r, h)
    requires forall r: nat :: r < n ==> RowNormed(out, Sum(was.input, was.residual), weight, epsilon, rsqrt, r, h)
    ensures now.residual == Sum(was.input, was.residual) && out == now.input
  {
    hide Normed, RowStart, RowFused, RowNormed, RowOf, Sum;
    forall r: nat | r < n
      ensures RowStart(r, h) + h <= n * h
      ensures RowOf(now.residual, r, h) == RowOf(Sum(was.input, was.residual), r, h)
              && RowOf(out, r, h) == RowOf(now.input, r, h)
    {
      SameRow(was, now, out, weight, epsilon, rsqrt, r, h);
    }
    RowsDetermine(now.residual, Sum(was.input, was.residual), n, h);
    RowsDetermine(out, now.input, n, h);
  }

  lemma SameRow(was: Pair, now: Pair, out: seq<real>, weight: seq<real>, epsilon: real, rsqrt: RealFn, r: nat, h: nat)
    requires 0 < h == |weight| && |was.input| == |was.residual|
    requires RowFused(was, now, weight, epsilon, rsqrt, r, h)
    requires RowNormed(out, Sum(was.input, was.residual), weight, epsilon, rsqrt, r, h)
    ensures |out| == |was.input| && RowStart(r, h) + h <= |out|
    ensures RowOf(now.residual, r, h) == RowOf(Sum(was.input, was.residual), r, h)
            && RowOf(out, r, h) == RowOf(now.input, r, h)
  {
    hide Normed, RowStart, RowOf, Sum;
    SumOfRows(was.input, was.residual, r, h);
  }

  lemma SumIs(total: seq<real>, a: seq<real>, b: seq<real>)
    requires |total| == |a| == |b| && forall i :: 0 <= i < |total| ==> total[i] == a[i] + b[i]
    ensures total == Sum(a, b)
  {
  }
}
