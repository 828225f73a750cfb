/** Sixteen-lane vector registers and the lane-level kernels that run on one cache block. */
module Lanes {
  import opened Reals

  // The kernels are compiled for blocks of 16 slots; the block size appears as the literal 16.

  /** A register of sixteen lanes. */
  type Vec16 = v: seq<real> | |v| == 16 witness seq(16, i => 0.0)

  function ZeroVec(): Vec16 {
    seq(16, i => 0.0)
  }

  /** Loads sixteen consecutive elements. */
  function Load16(s: seq<real>, at: nat): Vec16
    requires at + 16 <= |s|
  {
    s[at..at + 16]
  }

  /** Loads x elements and replicates them across the register. */
  function Broadcast(s: seq<real>, at: nat, x: nat): Vec16
    requires 0 < x && at + x <= |s|
  {
    seq(16, l requires 0 <= l < 16 => s[at + l % x])
  }

  /** acc + a * b, lane by lane. */
  function Fma(acc: Vec16, a: Vec16, b: Vec16): Vec16 {
    seq(16, l requires 0 <= l < 16 => acc[l] + Times(a[l], b[l]))
  }

  function ReduceSum(v: Vec16): real {
    SumR(v, 0, |v|)
  }

  /** Sum of the n lanes starting at lane lo. */
  function ReduceSubSum(v: Vec16, lo: nat, n: nat): real
    requires lo + n <= 16
  {
    SumR(v, lo, lo + n)
  }

  /** The sum of a lane range after a fused multiply-add grows by the dot product of that range. */
  lemma {:induction false} FmaSum(acc: Vec16, a: Vec16, b: Vec16, lo: nat, hi: nat)
    requires lo <= hi <= 16
    ensures SumR(Fma(acc, a, b), lo, hi) == SumR(acc, lo, hi) + DotR(a, b, lo, hi)
  {
    hide Times;
    if lo < hi {
      FmaSum(acc, a, b, lo, hi - 1);
    }
  }


  lemma {:induction false} ZeroSum(lo: nat, hi: nat)
    requires lo <= hi <= 16
    ensures SumR(ZeroVec(), lo, hi) == 0.0
  {
    if lo < hi {
      ZeroSum(lo, hi - 1);
    }
  }

  /** Elements per 16-byte cache cell: four for float, eight for half. */
  predicate CellWidth(x: nat) {
    x == 4 || x == 8
  }

  /** Offset of dimension d of the token in slot tok, inside one head of one key block. */
  function KeyOffset(d: nat, tok: nat, blockSize: nat, x: nat): nat
    requires 0 < x
  {
    (d - d % x) * blockSize + tok * x + d % x
  }

  /** The key row of slot tok, gathered from the interleaved block at base. */
  function KeyRow(k: seq<real>, base: nat, tok: nat, headSize: nat, x: nat): (r: seq<real>)
    requires CellWidth(x) && headSize % x == 0 && tok < 16 && base + headSize * 16 <= |k|
    ensures |r| == headSize
  {
    seq(headSize, d requires 0 <= d < headSize => k[base + KeyOffset(d, tok, 16, x)])
  }

  /** The register that accumulates slot tok, and the first of its x lanes there. */
  function GroupOf(tok: nat, x: nat): nat
    requires CellWidth(x)
  {
    tok / (16 / x)
  }

  function LaneOf(tok: nat, x: nat): nat
    requires CellWidth(x)
  {
    tok % (16 / x) * x
  }

  /** A query row and one head of one key block. */
  datatype BlockInput = BlockInput(q: seq<real>, qOff: nat, k: seq<real>, base: nat, headSize: nat, x: nat) {
    predicate Valid() {
      && CellWidth(x) && headSize % x == 0
      && qOff + headSize <= |q| && base + headSize * 16 <= |k|
    }

    function QRow(): (r: seq<real>)
      requires Valid()
    {
      q[qOff..qOff + headSize]
    }

    function KRow(tok: nat): (r: seq<real>)
      requires Valid() && tok < 16
    {
      KeyRow(k, base, tok, headSize, x)
    }

    /** The scaled dot product that slot tok must receive. */
    function Score(tok: nat, scale: real): real
      requires Valid() && tok < 16
    {
      Times(Dot(QRow(), KRow(tok)), scale)
    }

    /** One fused multiply-add of cell row `at` into the accumulator of group g. */
    function Step(acc: Vec16, at: nat, g: nat): Vec16
      requires Valid() && at % x == 0 && at + x <= headSize && g < x
    {
      assert base + at * 16 + g * 16 + 16 <= |k|;
      Fma(acc, Broadcast(q, qOff + at, x), Load16(k, base + at * 16 + g * 16))
    }

    /** The lanes of slot tok hold the first n terms of its dot product. */
    predicate Accumulated(acc: Vec16, tok: nat, n: nat)
      requires Valid() && tok < 16 && n <= headSize
    {
      LaneBound(tok, x);
      ReduceSubSum(acc, LaneOf(tok, x), x) == DotR(QRow(), KRow(tok), 0, n)
    }

    /** Groups below `done` have accumulated n + x terms, those from `done` to `limit` n terms. */
    ghost predicate Progress(accums: seq<Vec16>, limit: nat, done: nat, n: nat)
      requires Valid() && n <= headSize
    {
      && |accums| == x && done <= limit <= x && (done > 0 ==> n + x <= headSize)
      && forall t :: 0 <= t < 16 && GroupOf(t, x) < limit ==>
           Accumulated(accums[GroupOf(t, x)], t, if GroupOf(t, x) < done then n + x else n)
    }

    /** The lanes of slot tok hold the query and key terms of dimensions at .. at + x. */
    lemma StepTerms(at: nat, tok: nat, lane: nat, from: nat)
      requires Valid() && at % x == 0 && at + x <= headSize && tok < 16
      requires lane == LaneOf(tok, x) && from == base + at * 16 + GroupOf(tok, x) * 16
      ensures lane + x <= 16 && 0 < x && qOff + at + x <= |q| && from + 16 <= |k|
      ensures |QRow()| == |KRow(tok)| == headSize
      ensures Broadcast(q, qOff + at, x)[lane..lane + x] == QRow()[at..at + x]
      ensures Load16(k, from)[lane..lane + x] == KRow(tok)[at..at + x]
    {
      LaneBound(tok, x);
      LoadInBounds(at, GroupOf(tok, x));
      hide Broadcast, Load16, KeyRow, LaneOf, GroupOf, CellWidth;
      var qv, kv := Broadcast(q, qOff + at, x)[lane..lane + x], Load16(k, from)[lane..lane + x];
      var qr, kr := QRow()[at..at + x], KRow(tok)[at..at + x];
      forall i | 0 <= i < x
        ensures qv[i] == qr[i] && kv[i] == kr[i]
      {
        QueryTerm(at, tok, lane, i);
        KeyTerm(at, tok, lane, from, i);
      }
    }

    lemma QueryTerm(at: nat, tok: nat, lane: nat, i: nat)
      requires Valid() && at + x <= headSize && i < x && lane == LaneOf(tok, x) && lane + x <= 16
      ensures Broadcast(q, qOff + at, x)[lane + i] == QRow()[at + i]
    {
      LaneResidue(tok, x, lane + i);
    }

    lemma KeyTerm(at: nat, tok: nat, lane: nat, from: nat, i: nat)
      requires Valid() && at % x == 0 && at + x <= headSize && tok < 16 && i < x
      requires lane == LaneOf(tok, x) && lane + x <= 16 && from == base + at * 16 + GroupOf(tok, x) * 16
               && from + 16 <= |k|
      ensures Load16(k, from)[lane + i] == KRow(tok)[at + i]
    {
      KeyCell(at, i, tok, x);
      LaneBound(tok, x);
      hide LaneOf, GroupOf, KeyOffset, CellWidth;
    }

    lemma LoadInBounds(at: nat, g: nat)
      requires Valid() && at + x <= headSize && g < x
      ensures base + at * 16 + g * 16 + 16 <= |k|
    {
    }

    /** One step extends the dot product of every slot in its group by x terms. */
    lemma StepAccumulates(acc: Vec16, at: nat, tok: nat)
      requires Valid() && at % x == 0 && at + x <= headSize && tok < 16
      requires Accumulated(acc, tok, at)
      ensures GroupOf(tok, x) < x
      ensures Accumulated(Step(acc, at, GroupOf(tok, x)), tok, at + x)
    {
      hide Times, Broadcast, Load16, Fma, KeyRow, LaneOf, GroupOf, QRow, KRow, DotR, SumR;
      LaneBound(tok, x);
      var lane, from := LaneOf(tok, x), base + at * 16 + GroupOf(tok, x) * 16;
      StepTerms(at, tok, lane, from);
      ExtendDot(acc, Broadcast(q, qOff + at, x), Load16(k, from), lane, x, QRow(), KRow(tok), at);
    }

    lemma StepProgress(accums: seq<Vec16>, limit: nat, g: nat, at: nat)
      requires Valid() && at % x == 0 && at + x <= headSize && g < limit <= x
      requires Progress(accums, limit, g, at)
      ensures Progress(accums[g := Step(accums[g], at, g)], limit, g + 1, at)
    {
      hide Step, Accumulated;
      var next := accums[g := Step(accums[g], at, g)];
      forall t | 0 <= t < 16 && GroupOf(t, x) < limit
        ensures Accumulated(next[GroupOf(t, x)], t, if GroupOf(t, x) < g + 1 then at + x else at)
      {
        if GroupOf(t, x) == g {
          StepAccumulates(accums[g], at, t);
        }
      }
    }

    lemma StartProgress(limit: nat)
      requires Valid() && limit <= x
      ensures 0 < x && 0 % x == 0 && Progress(seq(x, i => ZeroVec()), limit, 0, 0)
    {
      forall t | 0 <= t < 16 && GroupOf(t, x) < limit
        ensures Accumulated(seq(x, i => ZeroVec())[GroupOf(t, x)], t, 0)
      {
        LaneBound(t, x);
        ZeroSum(LaneOf(t, x), LaneOf(t, x) + x);
      }
    }

    /** After the last cell row, the lanes of slot i of group g reduce to that slot's score. */
    lemma Reduced(accums: seq<Vec16>, groupNum: nat, g: nat, i: nat, scale: real)
      requires Valid() && Progress(accums, groupNum, 0, headSize) && g < groupNum && i < 16 / x
      ensures |accums| == x && i * x + x <= 16 && g * (16 / x) + i < 16
      ensures Times(ReduceSubSum(accums[g], i * x, x), scale) == Score(g * (16 / x) + i, scale)
    {
      hide Times, KeyRow;
      SlotOfGroup(g, i, x);
      assert Accumulated(accums[g], g * (16 / x) + i, headSize);
    }

    lemma NextOffset(off: nat)
      requires Valid() && off < headSize && off % x == 0
      ensures off + x <= headSize && (off + x) % x == 0 && 0 < x
    {
      if x == 4 {
        assert off % 4 == 0 && headSize % 4 == 0;
      } else {
        assert off % 8 == 0 && headSize % 8 == 0;
      }
    }

    /** Unrolled steps cover exactly the touched groups, never more than there are accumulators. */
    lemma Unrolled(start: nat, groupNum: nat)
      requires Valid() && groupNum <= x && Aligned(start, x)
      ensures 0 < x / 4 && Aligned(start + x / 4, x)
      ensures groupNum <= TouchedGroups(groupNum, x) <= x
      ensures start < groupNum ==> start + x / 4 <= TouchedGroups(groupNum, x)
      ensures start < groupNum <= start + x / 4 ==> start + x / 4 == TouchedGroups(groupNum, x)
    {
    }

    lemma AlignedStart()
      ensures Aligned(0, x)
    {
    }

    lemma Narrow(accums: seq<Vec16>, limit: nat, groupNum: nat)
      requires Valid() && groupNum <= limit && Progress(accums, limit, 0, headSize)
      ensures Progress(accums, groupNum, 0, headSize)
    {
    }

    lemma NextRow(accums: seq<Vec16>, limit: nat, at: nat)
      requires Valid() && at + x <= headSize && Progress(accums, limit, limit, at)
      ensures Progress(accums, limit, 0, at + x)
    {
      hide Accumulated;
    }
  }

  /** A lane range that holds a dot product so far holds its next n terms after one step. */
  lemma ExtendDot(acc: Vec16, a: Vec16, b: Vec16, lane: nat, n: nat, q: seq<real>, k: seq<real>, at: nat)
    requires lane + n <= 16 && at + n <= |q| && at + n <= |k|
    requires a[lane..lane + n] == q[at..at + n] && b[lane..lane + n] == k[at..at + n]
    requires SumR(acc, lane, lane + n) == DotR(q, k, 0, at)
    ensures SumR(Fma(acc, a, b), lane, lane + n) == DotR(q, k, 0, at + n)
  {
    hide Times, Fma;
    forall j | lane <= j < lane + n
      ensures a[j] == q[j - lane + at] && b[j] == k[j - lane + at]
    {
      assert a[j] == a[lane..lane + n][j - lane] && b[j] == b[lane..lane + n][j - lane];
      assert q[at..at + n][j - lane] == q[j - lane + at] && k[at..at + n][j - lane] == k[j - lane + at];
    }
    FmaSum(acc, a, b, lane, lane + n);
    DotRShift(a, b, lane, q, k, at, n);
    DotRSplit(q, k, 0, at, at + n);
  }

  /** Group and lane of a slot address the same cache cells as the slot itself. */
  lemma LaneBound(tok: nat, x: nat)
    requires CellWidth(x) && tok < 16
    ensures GroupOf(tok, x) < x && LaneOf(tok, x) + x <= 16
    ensures GroupOf(tok, x) * 16 + LaneOf(tok, x) == tok * x
  {
    if x == 4 {
    } else {
    }
  }

  lemma SlotOfGroup(g: nat, i: nat, x: nat)
    requires CellWidth(x) && g < x && i < 16 / x
    ensures g * (16 / x) + i < 16 && i * x + x <= 16
    ensures GroupOf(g * (16 / x) + i, x) == g && LaneOf(g * (16 / x) + i, x) == i * x
  {
    if x == 4 {
    } else {
    }
  }

  lemma LaneResidue(tok: nat, x: nat, j: nat)
    requires CellWidth(x) && LaneOf(tok, x) <= j < LaneOf(tok, x) + x
    ensures j % x == j - LaneOf(tok, x)
  {
    if x == 4 {
      assert j % 4 == (j - tok % 4 * 4) % 4;
    } else {
      assert j % 8 == (j - tok % 2 * 8) % 8;
    }
  }

  /** Inside a cell row the key offset is linear. */
  lemma KeyCell(at: nat, i: nat, tok: nat, x: nat)
    requires CellWidth(x) && at % x == 0 && i < x
    ensures KeyOffset(at + i, tok, 16, x) == at * 16 + tok * x + i
  {
    assert (at + i) % x == i;
  }

  /** Full-block branch: every group of every cell row. */
  method AccumulateFull(b: BlockInput) returns (accums: seq<Vec16>)
    requires b.Valid()
    ensures |accums| == b.x && b.Progress(accums, b.x, 0, b.headSize)
  {
    hide BlockInput.Step, BlockInput.Progress, BlockInput.Valid;
    accums := seq(b.x, i => ZeroVec());
    b.StartProgress(b.x);
    var off := 0;
    while off < b.headSize
      invariant off <= b.headSize && off % b.x == 0 && |accums| == b.x
      invariant b.Progress(accums, b.x, 0, off)
      decreases b.headSize - off
    {
      b.NextOffset(off);
      for g := 0 to b.x
        invariant |accums| == b.x && b.Progress(accums, b.x, g, off)
      {
        b.StepProgress(accums, b.x, g, off);
        accums := accums[g := b.Step(accums[g], off, g)];
      }
      b.NextRow(accums, b.x, off);
      off := off + b.x;
    }
  }

  /** The number of groups that the partial-block branch touches: groupNum rounded up to the unroll width. */
  function TouchedGroups(groupNum: nat, x: nat): nat {
    if x == 8 then (groupNum + 1) / 2 * 2 else groupNum
  }

  /** start is a multiple of the unroll width x / 4. */
  predicate Aligned(start: nat, x: nat) {
    x == 8 ==> start % 2 == 0
  }

  /** One cell row of the partial-block branch. */
  method AccumulateRow(b: BlockInput, before: seq<Vec16>, groupNum: nat, off: nat) returns (accums: seq<Vec16>)
    requires b.Valid() && 0 < groupNum <= b.x && off + b.x <= b.headSize && off % b.x == 0 && |before| == b.x
    requires b.Progress(before, TouchedGroups(groupNum, b.x), 0, off)
    ensures |accums| == b.x && b.Progress(accums, TouchedGroups(groupNum, b.x), TouchedGroups(groupNum, b.x), off)
  {
    hide *;
    ghost var limit := TouchedGroups(groupNum, b.x);
    var unroll := b.x / 4;
    accums := before;
    var start := 0;
    b.AlignedStart();
    while start < groupNum
      invariant start <= limit && Aligned(start, b.x) && (start >= groupNum ==> start == limit)
      invariant |accums| == b.x && b.Progress(accums, limit, start, off)
    {
      b.Unrolled(start, groupNum);
      for i := 0 to unroll
        invariant |accums| == b.x && b.Progress(accums, limit, start + i, off)
      {
        b.StepProgress(accums, limit, start + i, off);
        accums := accums[start + i := b.Step(accums[start + i], off, start + i)];
      }
      start := start + unroll;
    }
  }

  /** Partial-block branch: only the groups that hold valid slots, rounded up to the unroll width. */
  method AccumulatePartial(b: BlockInput, groupNum: nat) returns (accums: seq<Vec16>)
    requires b.Valid() && 0 < groupNum <= b.x
    ensures |accums| == b.x && b.Progress(accums, groupNum, 0, b.headSize)
  {
    accums := seq(b.x, i => ZeroVec());
    b.StartProgress(TouchedGroups(groupNum, b.x));
    hide BlockInput.Progress, BlockInput.Valid;
    var off := 0;
    while off < b.headSize
      invariant off <= b.headSize && off % b.x == 0 && |accums| == b.x
      invariant b.Progress(accums, TouchedGroups(groupNum, b.x), 0, off)
      decreases b.headSize - off
    {
      b.NextOffset(off);
      accums := AccumulateRow(b, accums, groupNum, off);
      b.NextRow(accums, TouchedGroups(groupNum, b.x), off);
      off := off + b.x;
    }
    b.Narrow(accums, TouchedGroups(groupNum, b.x), groupNum);
  }

  /** Reduces the accumulators of group g into the logits of its slots. */
  method StoreGroup(b: BlockInput, accums: seq<Vec16>, groupNum: nat, g: nat, logits: array<real>, at: nat, scale: real)
    requires b.Valid() && g < groupNum <= b.x && |accums| == b.x && b.Progress(accums, groupNum, 0, b.headSize)
    requires g * (16 / b.x) + 16 / b.x <= 16 && at + 16 <= logits.Length
    modifies logits
    ensures forall k :: at + g * (16 / b.x) <= k < at + g * (16 / b.x) + 16 / b.x ==>
              logits[k] == b.Score(k - at, scale)
    ensures forall k :: 0 <= k < logits.Length && !(at + g * (16 / b.x) <= k < at + g * (16 / b.x) + 16 / b.x) ==>
              logits[k] == old(logits[k])
  {
    hide *;
    var from := at + g * (16 / b.x);
    for i := 0 to 16 / b.x
      invariant forall k :: from <= k < from + i ==> logits[k] == b.Score(k - at, scale)
      invariant forall k :: 0 <= k < logits.Length && !(from <= k < from + i) ==> logits[k] == old(logits[k])
    {
      b.Reduced(accums, groupNum, g, i, scale);
      var dot := ReduceSubSum(accums[g], i * b.x, b.x);
      logits[from + i] := Times(dot, scale);
    }
  }

  /** Reduces the accumulators group by group into logits[at..]. */
  method StoreLogits(b: BlockInput, accums: seq<Vec16>, groupNum: nat, logits: array<real>, at: nat, scale: real)
    requires b.Valid() && 0 < groupNum <= b.x && b.Progress(accums, groupNum, 0, b.headSize) && |accums| == b.x
    requires at + 16 <= logits.Length
    modifies logits
    ensures groupNum * (16 / b.x) <= 16
    ensures forall i :: at <= i < at + groupNum * (16 / b.x) ==> logits[i] == b.Score(i - at, scale)
    ensures forall i :: 0 <= i < logits.Length && !(at <= i < at + 16) ==> logits[i] == old(logits[i])
  {
    hide BlockInput.Progress, BlockInput.Score;
    for g := 0 to groupNum
      invariant g * (16 / b.x) <= 16
      invariant forall k :: at <= k < at + g * (16 / b.x) ==> logits[k] == b.Score(k - at, scale)
      invariant forall i :: 0 <= i < logits.Length && !(at <= i < at + 16) ==> logits[i] == old(logits[i])
    {
      assert g * (16 / b.x) + 16 / b.x == (g + 1) * (16 / b.x) <= 16;
      StoreGroup(b, accums, groupNum, g, logits, at, scale);
    }
  }

  /** Scaled dot products of one query row with the slots of one key block. */
  method QKBlock(b: BlockInput, logits: array<real>, at: nat, scale: real, tokenNum: nat)
    requires b.Valid() && 1 <= tokenNum <= 16 && at + 16 <= logits.Length
    modifies logits
    ensures forall i :: at <= i < at + tokenNum ==> logits[i] == b.Score(i - at, scale)
    ensures forall i :: 0 <= i < logits.Length && !(at <= i < at + 16) ==> logits[i] == old(logits[i])
  {
    hide BlockInput.Progress, BlockInput.Score;
    var tokenPerGroup := 16 / b.x;
    var groupNum := (tokenNum + tokenPerGroup - 1) / tokenPerGroup;
    var accums: seq<Vec16>;
    if tokenNum == 16 {
      accums := AccumulateFull(b);
    } else {
      accums := AccumulatePartial(b, groupNum);
    }
    StoreLogits(b, accums, groupNum, logits, at, scale);
  }

  /** Adds the probability-weighted values of one block to the accumulators of sixteen head elements. */
  method ReduceValueBlock(prob: seq<real>, at: nat, v: seq<real>, base: nat, before: seq<Vec16>)
    returns (accs: seq<Vec16>)
    requires at + 16 <= |prob| && base + 16 * 16 <= |v| && |before| == 16
    ensures |accs| == 16
    ensures forall e :: 0 <= e < 16 ==> accs[e] == Fma(before[e], Load16(prob, at), Load16(v, base + 16 * e))
  {
    hide Fma, Load16;
    var probVec := Load16(prob, at);
    accs := before;
    for e := 0 to 16
      invariant |accs| == 16
      invariant forall i :: 0 <= i < e ==> accs[i] == Fma(before[i], probVec, Load16(v, base + 16 * i))
      invariant forall i :: e <= i < 16 ==> accs[i] == before[i]
    {
      accs := accs[e := Fma(accs[e], probVec, Load16(v, base + 16 * e))];
    }
  }
}
