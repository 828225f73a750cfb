/** Partitioned paged attention: partitions are attended separately and then merged. */
module PagedAttentionV2 {
  import opened Radix
  import opened Reals
  import opened Softmax
  import opened SoftmaxKernels
  import opened SplitAttention
  import opened Lanes
  import opened PagedHead
  import opened PagedAttention

  /** Number of partitions of sequence s. */
  function Parts(p: Inputs, s: nat): nat
    requires s < |p.seqLens|
  {
    PartitionCount(p.seqLens[s])
  }

  /** The logits of head h of sequence s. */
  ghost function L(p: Inputs, s: nat, h: nat): (l: seq<real>)
    requires p.Valid() && s < |p.seqLens| && h < p.numHeads
    ensures |l| == p.seqLens[s]
  {
    p.HeadOf(s, h).Scores()
  }

  /** Dimension d of the values of head h of sequence s. */
  ghost function V(p: Inputs, s: nat, h: nat, d: nat): (v: seq<real>)
    requires p.Valid() && s < |p.seqLens| && h < p.numHeads && d < p.headSize
    ensures |v| == p.seqLens[s]
  {
    p.HeadOf(s, h).Values(d)
  }

  /** Slot idx holds the partial results of partition j of head h of sequence s. */
  ghost predicate PartAt(p: Inputs, exp: RealFn, maxes: seq<real>, sums: seq<real>, tmp: seq<real>, idx: nat, s: nat,
                         h: nat, j: nat)
    requires p.Valid() && IsExp(exp) && s < |p.seqLens| && h < p.numHeads && j < Parts(p, s)
  {
    && idx < |maxes| && maxes[idx] == PartMax(L(p, s, h), j)
    && idx < |sums| && sums[idx] == PartSum(exp, L(p, s, h), j)
    && TmpRow(p, exp, tmp, RowStart(idx, p.headSize), s, h, j)
  }

  ghost predicate TmpRow(p: Inputs, exp: RealFn, tmp: seq<real>, at: nat, s: nat, h: nat, j: nat)
    requires p.Valid() && IsExp(exp) && s < |p.seqLens| && h < p.numHeads && j < Parts(p, s)
  {
    && at + p.headSize <= |tmp|
    && forall i :: at <= i < at + p.headSize ==> tmp[i] == PartOut(exp, L(p, s, h), V(p, s, h, i - at), j)
  }

  /** Only element idx may differ. */
  ghost predicate OnlyAt(before: seq<real>, after: seq<real>, idx: nat) {
    && |before| == |after|
    && forall i :: 0 <= i < |after| && i != idx ==> after[i] == before[i]
  }

  /** What one token range contributes is what its partition contributes. */
  lemma RangeIsPart(p: Inputs, exp: RealFn, s: nat, h: nat, j: nat, d: nat)
    requires p.Valid() && IsExp(exp) && s < |p.seqLens| && h < p.numHeads && j < Parts(p, s) && d < p.headSize
    ensures Lo(j) < Hi(p.seqLens[s], j) <= p.seqLens[s]
    ensures RangeOut(exp, p.HeadOf(s, h), Lo(j), Hi(p.seqLens[s], j) - Lo(j), d) ==
            PartOut(exp, L(p, s, h), V(p, s, h, d), j)
  {
    hide Over, Inputs.HeadOf, Head.Scores, Head.Values, IsExp, Inputs.Valid;
  }

  /** Bounds of the token range of a partition. */
  lemma PartBounds(p: Inputs, s: nat, j: nat)
    requires s < |p.seqLens| && j < Parts(p, s)
    ensures Lo(j) == 16 * (32 * j) && Lo(j) < Hi(p.seqLens[s], j) <= p.seqLens[s]
    ensures BlockNum(Hi(p.seqLens[s], j) - Lo(j)) * 16 <= 512
  {
  }

  /** The values of one partition of one head, stored as row idx of tmpOut. */
  method AttendPartitionRow(p: Inputs, s: nat, h: nat, j: nat, tmpOut: array<real>, at: nat, exp: RealFn)
    returns (max: real, sum: real)
    requires p.Valid() && IsExp(exp) && s < |p.seqLens| && h < p.numHeads && j < Parts(p, s)
    requires at + p.headSize <= tmpOut.Length
    modifies tmpOut
    ensures max == PartMax(L(p, s, h), j) && sum == PartSum(exp, L(p, s, h), j)
    ensures TmpRow(p, exp, tmpOut[..], at, s, h, j)
    ensures forall i :: 0 <= i < tmpOut.Length && !(at <= i < at + p.headSize) ==> tmpOut[i] == old(tmpOut[i])
  {
    hide RangeOut, PartOut, IsExp, Inputs.Valid, Inputs.HeadOf, Head.Scores, Head.Values, Head.Valid, BlockNum, Lo, Hi,
      PartitionCount;
    var hd := p.HeadOf(s, h);
    PartBounds(p, s, j);
    var tokenNum := Hi(hd.seqLen, j) - Lo(j);
    var logits := new real[512];
    max, sum := AttendRange(hd, 32 * j, tokenNum, logits, tmpOut, at, exp);
    forall i | at <= i < at + p.headSize
      ensures tmpOut[i] == PartOut(exp, L(p, s, h), V(p, s, h, i - at), j)
    {
      RangeIsPart(p, exp, s, h, j, i - at);
    }
  }

  /** One work item of the first loop, for a sequence that has several partitions. */
  method AttendPartition(p: Inputs, s: nat, h: nat, j: nat, idx: nat,
                         maxLogits: array<real>, expSums: array<real>, tmpOut: array<real>, exp: RealFn)
    requires p.Valid() && IsExp(exp) && s < |p.seqLens| && h < p.numHeads && j < Parts(p, s)
    requires idx < maxLogits.Length && idx < expSums.Length && RowStart(idx, p.headSize) + p.headSize <= tmpOut.Length
    requires maxLogits != expSums && maxLogits != tmpOut && expSums != tmpOut
    modifies maxLogits, expSums, tmpOut
    ensures PartAt(p, exp, maxLogits[..], expSums[..], tmpOut[..], idx, s, h, j)
    ensures OnlyAt(old(maxLogits[..]), maxLogits[..], idx)
    ensures OnlyAt(old(expSums[..]), expSums[..], idx)
    ensures OnlyRow(old(tmpOut[..]), tmpOut[..], idx, p.headSize)
  {
    hide PartMax, PartSum, L, TmpRow, IsExp, Inputs.Valid;
    var max, sum := AttendPartitionRow(p, s, h, j, tmpOut, RowStart(idx, p.headSize), exp);
    ghost var tmp := tmpOut[..];
    maxLogits[idx] := max;
    expSums[idx] := sum;
    assert tmpOut[..] == tmp;
  }

  /** Contents of the kernel's writable buffers. */
  datatype Buffers = Buffers(out: seq<real>, maxes: seq<real>, sums: seq<real>, tmp: seq<real>)

  /** A work item of the first loop: sequence, partition, head. */
  datatype Item = Item(s: nat, j: nat, h: nat)

  predicate ItemOk(p: Inputs, mp: nat, it: Item) {
    it.s < |p.seqLens| && it.j < mp && it.h < p.numHeads
  }

  function Slot(p: Inputs, mp: nat, it: Item): nat {
    RowStart(Row(p, it.s, it.h), mp) + it.j
  }

  /** The partition exists: it starts before the end of the sequence. */
  predicate Active(p: Inputs, it: Item)
    requires it.s < |p.seqLens|
  {
    Lo(it.j) < p.seqLens[it.s]
  }

  lemma ActiveIsPart(p: Inputs, it: Item)
    requires it.s < |p.seqLens|
    ensures Active(p, it) <==> it.j < Parts(p, it.s)
  {
  }

  ghost predicate ItemDone(p: Inputs, exp: RealFn, b: Buffers, mp: nat, it: Item)
    requires p.Valid() && IsExp(exp) && ItemOk(p, mp, it)
  {
    ActiveIsPart(p, it);
    Active(p, it) ==>
      if Parts(p, it.s) == 1 then AttentionRow(p, exp, b.out, it.s, it.h)
      else PartAt(p, exp, b.maxes, b.sums, b.tmp, Slot(p, mp, it), it.s, it.h, it.j)
  }

  /** The only cells that a work item writes. */
  ghost predicate ItemFrame(p: Inputs, before: Buffers, after: Buffers, mp: nat, it: Item)
    requires ItemOk(p, mp, it)
  {
    if Parts(p, it.s) == 1 then
      OnlyRow(before.out, after.out, Row(p, it.s, it.h), p.headSize) && after == before.(out := after.out)
    else
      && after.out == before.out
      && OnlyAt(before.maxes, after.maxes, Slot(p, mp, it))
      && OnlyAt(before.sums, after.sums, Slot(p, mp, it))
      && OnlyRow(before.tmp, after.tmp, Slot(p, mp, it), p.headSize)
  }

  lemma SlotUnique(p: Inputs, mp: nat, it: Item, it': Item)
    requires ItemOk(p, mp, it) && ItemOk(p, mp, it') && it != it'
    ensures Slot(p, mp, it) != Slot(p, mp, it')
  {
    if it.j == it'.j {
      RowUnique(it.s, it.h, it'.s, it'.h, p.numHeads);
    }
    RowUnique(Row(p, it.s, it.h), it.j, Row(p, it'.s, it'.h), it'.j, mp);
  }

  lemma PartKept(p: Inputs, exp: RealFn, before: Buffers, after: Buffers, idx: nat, idx': nat, s: nat, h: nat, j: nat)
    requires p.Valid() && IsExp(exp) && s < |p.seqLens| && h < p.numHeads && j < Parts(p, s) && idx != idx'
    requires OnlyAt(before.maxes, after.maxes, idx) && OnlyAt(before.sums, after.sums, idx)
    requires OnlyRow(before.tmp, after.tmp, idx, p.headSize)
    requires PartAt(p, exp, before.maxes, before.sums, before.tmp, idx', s, h, j)
    ensures PartAt(p, exp, after.maxes, after.sums, after.tmp, idx', s, h, j)
  {
    hide L, V, PartMax, PartSum, PartOut, IsExp, Inputs.Valid;
    RowsDisjoint(idx, idx', p.headSize);
  }

  /** A work item leaves the results of every other work item alone. */
  lemma ItemKept(p: Inputs, exp: RealFn, before: Buffers, after: Buffers, mp: nat, it: Item, it': Item)
    requires p.Valid() && IsExp(exp) && ItemOk(p, mp, it) && ItemOk(p, mp, it') && it != it'
    requires Active(p, it) && ItemFrame(p, before, after, mp, it) && ItemDone(p, exp, before, mp, it')
    ensures ItemDone(p, exp, after, mp, it')
  {
    hide Slot, AttentionRow, PartAt, IsExp, Inputs.Valid;
    ActiveIsPart(p, it);
    ActiveIsPart(p, it');
    SlotUnique(p, mp, it, it');
    if Active(p, it') {
      if Parts(p, it.s) != 1 && Parts(p, it'.s) != 1 {
        PartKept(p, exp, before, after, Slot(p, mp, it), Slot(p, mp, it'), it'.s, it'.h, it'.j);
      } else if Parts(p, it.s) == 1 && Parts(p, it'.s) == 1 {
        RowKept(p, exp, before.out, after.out, it.s, it.h, it'.s, it'.h);
      }
    }
  }

  /** Every work item of the first loop, exactly once and in any order. */
  ghost predicate IsItemSchedule(p: Inputs, mp: nat, items: seq<Item>) {
    && (forall k :: 0 <= k < |items| ==> ItemOk(p, mp, items[k]))
    && (forall k, k' :: 0 <= k < k' < |items| ==> items[k] != items[k'])
    && (forall it :: ItemOk(p, mp, it) ==> it in items)
  }

  ghost function Contents(out: array<real>, maxLogits: array<real>, expSums: array<real>, tmpOut: array<real>): Buffers
    reads out, maxLogits, expSums, tmpOut
  {
    Buffers(out[..], maxLogits[..], expSums[..], tmpOut[..])
  }

  /** The buffers are as large as the launcher allocates them, with room for every partition. */
  ghost predicate Fits(p: Inputs, b: Buffers, mp: nat) {
    && |p.seqLens| * p.numHeads * p.headSize <= |b.out|
    && |p.seqLens| * p.numHeads * mp <= |b.maxes| && |p.seqLens| * p.numHeads * mp <= |b.sums|
    && |p.seqLens| * p.numHeads * mp * p.headSize <= |b.tmp|
    && forall s :: 0 <= s < |p.seqLens| ==> Parts(p, s) <= mp
  }

  lemma SlotInBounds(p: Inputs, b: Buffers, mp: nat, it: Item)
    requires ItemOk(p, mp, it) && Fits(p, b, mp)
    ensures Slot(p, mp, it) < |b.maxes| && Slot(p, mp, it) < |b.sums|
    ensures RowStart(Slot(p, mp, it), p.headSize) + p.headSize <= |b.tmp|
    ensures RowStart(Row(p, it.s, it.h), p.headSize) + p.headSize <= |b.out|
  {
    RowInBounds(p, it.s, it.h);
    RowBound(Row(p, it.s, it.h), |p.seqLens| * p.numHeads, mp);
    RowBound(Slot(p, mp, it), |p.seqLens| * p.numHeads * mp, p.headSize);
  }

  /** Body of the first loop. */
  method RunItem(p: Inputs, mp: nat, it: Item, out: array<real>, maxLogits: array<real>, expSums: array<real>,
                 tmpOut: array<real>, exp: RealFn)
    requires p.Valid() && IsExp(exp) && ItemOk(p, mp, it) && Fits(p, Contents(out, maxLogits, expSums, tmpOut), mp)
    requires maxLogits != expSums && maxLogits != tmpOut && expSums != tmpOut
    requires out != maxLogits && out != expSums && out != tmpOut
    modifies out, maxLogits, expSums, tmpOut
    ensures ItemDone(p, exp, Contents(out, maxLogits, expSums, tmpOut), mp, it)
    ensures Active(p, it) ==>
            ItemFrame(p, old(Contents(out, maxLogits, expSums, tmpOut)), Contents(out, maxLogits, expSums, tmpOut), mp,
              it)
    ensures !Active(p, it) ==>
            Contents(out, maxLogits, expSums, tmpOut) == old(Contents(out, maxLogits, expSums, tmpOut))
  {
    hide PartAt, AttentionRow, OnlyRow, OnlyAt, Row, Slot, IsExp, Inputs.Valid;
    ActiveIsPart(p, it);
    if Lo(it.j) >= p.seqLens[it.s] {
      return;
    }
    SlotInBounds(p, Contents(out, maxLogits, expSums, tmpOut), mp, it);
    if PartitionCount(p.seqLens[it.s]) == 1 {
      var logits := new real[512];
      AttendHead(p, it.s, it.h, logits, out, exp);
    } else {
      AttendPartition(p, it.s, it.h, it.j, Slot(p, mp, it), maxLogits, expSums, tmpOut, exp);
    }
  }

  /** First loop: attend every partition of every head of every sequence. */
  method AttendPartitions(p: Inputs, mp: nat, out: array<real>, maxLogits: array<real>, expSums: array<real>,
                          tmpOut: array<real>,
                          exp: RealFn, items: seq<Item>)
    requires p.Valid() && IsExp(exp) && IsItemSchedule(p, mp, items)
             && Fits(p, Contents(out, maxLogits, expSums, tmpOut), mp)
    requires maxLogits != expSums && maxLogits != tmpOut && expSums != tmpOut
    requires out != maxLogits && out != expSums && out != tmpOut
    modifies out, maxLogits, expSums, tmpOut
    ensures forall it :: ItemOk(p, mp, it) ==> ItemDone(p, exp, Contents(out, maxLogits, expSums, tmpOut), mp, it)
  {
    hide ItemDone, ItemFrame, IsExp, Inputs.Valid, Fits;
    for k := 0 to |items|
      invariant Fits(p, Contents(out, maxLogits, expSums, tmpOut), mp)
      invariant forall i :: 0 <= i < k ==> ItemDone(p, exp, Contents(out, maxLogits, expSums, tmpOut), mp, items[i])
    {
      ghost var before := Contents(out, maxLogits, expSums, tmpOut);
      RunItem(p, mp, items[k], out, maxLogits, expSums, tmpOut, exp);
      ghost var after := Contents(out, maxLogits, expSums, tmpOut);
      FitsKept(p, before, after, mp);
      forall i | 0 <= i < k
        ensures ItemDone(p, exp, after, mp, items[i])
      {
        if Active(p, items[k]) {
          ItemKept(p, exp, before, after, mp, items[k], items[i]);
        }
      }
    }
  }

  lemma FitsKept(p: Inputs, before: Buffers, after: Buffers, mp: nat)
    requires Fits(p, before, mp)
    requires |after.out| == |before.out| && |after.maxes| == |before.maxes| && |after.sums| == |before.sums|
             && |after.tmp| == |before.tmp|
    ensures Fits(p, after, mp)
  {
  }

  /** The merge factors of head h of sequence s. */
  ghost function Factors(p: Inputs, exp: RealFn, s: nat, h: nat): (f: seq<real>)
    requires p.Valid() && IsExp(exp) && s < |p.seqLens| && h < p.numHeads
    ensures |f| == Parts(p, s)
  {
    hide Inputs.Valid;
    LengthPositive(p, s);
    MergedSumIsDenominator(exp, L(p, s, h));
    MergeFactors(exp, PartMaxes(L(p, s, h)), PartSums(exp, L(p, s, h)))
  }

  lemma LengthPositive(p: Inputs, s: nat)
    requires p.Valid() && s < |p.seqLens|
    ensures 0 < p.seqLens[s]
  {
  }

  /** Row r of the partition statistics: maxima and denominators of every partition of (s, h). */
  ghost predicate StatsAt(p: Inputs, exp: RealFn, maxes: seq<real>, sums: seq<real>, at: nat, s: nat, h: nat)
    requires p.Valid() && IsExp(exp) && s < |p.seqLens| && h < p.numHeads
  {
    && at + Parts(p, s) <= |maxes| && maxes[at..at + Parts(p, s)] == PartMaxes(L(p, s, h))
    && at + Parts(p, s) <= |sums| && sums[at..at + Parts(p, s)] == PartSums(exp, L(p, s, h))
  }

  ghost predicate FactorsAt(p: Inputs, exp: RealFn, sums: seq<real>, at: nat, s: nat, h: nat)
    requires p.Valid() && IsExp(exp) && s < |p.seqLens| && h < p.numHeads
  {
    at + Parts(p, s) <= |sums| && sums[at..at + Parts(p, s)] == Factors(p, exp, s, h)
  }

  /** After the first loop, partition j of head h of sequence s is in its slot. */
  lemma PartReady(p: Inputs, exp: RealFn, b: Buffers, mp: nat, s: nat, h: nat, j: nat)
    requires p.Valid() && IsExp(exp) && s < |p.seqLens| && h < p.numHeads && Fits(p, b, mp) && Parts(p, s) != 1
             && j < Parts(p, s)
    requires forall it :: ItemOk(p, mp, it) ==> ItemDone(p, exp, b, mp, it)
    ensures PartAt(p, exp, b.maxes, b.sums, b.tmp, RowStart(Row(p, s, h), mp) + j, s, h, j)
  {
    hide PartAt, IsExp, Inputs.Valid, Row;
    var it := Item(s, j, h);
    ActiveIsPart(p, it);
    assert ItemDone(p, exp, b, mp, it);
  }

  lemma StatsReady(p: Inputs, exp: RealFn, b: Buffers, mp: nat, s: nat, h: nat)
    requires p.Valid() && IsExp(exp) && s < |p.seqLens| && h < p.numHeads && Fits(p, b, mp) && Parts(p, s) != 1
    requires forall it :: ItemOk(p, mp, it) ==> ItemDone(p, exp, b, mp, it)
    ensures StatsAt(p, exp, b.maxes, b.sums, RowStart(Row(p, s, h), mp), s, h)
  {
    hide TmpRow, IsExp, Inputs.Valid, L, PartMax, PartSum, Row, ItemDone, Fits;
    LengthPositive(p, s);
    var at, n := RowStart(Row(p, s, h), mp), Parts(p, s);
    PartReady(p, exp, b, mp, s, h, n - 1);
    forall j | 0 <= j < n
      ensures b.maxes[at..at + n][j] == PartMaxes(L(p, s, h))[j]
              && b.sums[at..at + n][j] == PartSums(exp, L(p, s, h))[j]
    {
      PartReady(p, exp, b, mp, s, h, j);
    }
  }

  /** Body of the second loop: turn the denominators of one head into merge factors. */
  method RescaleHead(p: Inputs, mp: nat, s: nat, h: nat, at: nat, maxLogits: array<real>, expSums: array<real>,
                     exp: RealFn)
    requires p.Valid() && IsExp(exp) && s < |p.seqLens| && h < p.numHeads && maxLogits != expSums
    requires StatsAt(p, exp, maxLogits[..], expSums[..], at, s, h)
    modifies expSums
    ensures FactorsAt(p, exp, expSums[..], at, s, h)
    ensures forall i :: 0 <= i < expSums.Length && !(at <= i < at + Parts(p, s)) ==> expSums[i] == old(expSums[i])
  {
    hide Inputs.Valid, IsExp, L, PartMaxes, PartSums, MergeFactors;
    LengthPositive(p, s);
    var n := Parts(p, s);
    assert maxLogits[at..at + n] == maxLogits[..][at..at + n];
    assert expSums[at..at + n] == expSums[..][at..at + n];
    MergedSumIsDenominator(exp, L(p, s, h));
    ReducePartitionSoftmax(maxLogits, expSums, at, n, exp);
    assert expSums[at..at + n] == expSums[..][at..at + n];
  }

  lemma StatsKept(p: Inputs, exp: RealFn, maxes: seq<real>, before: seq<real>, after: seq<real>, mp: nat, r: nat,
                  r': nat, s: nat, h: nat)
    requires p.Valid() && IsExp(exp) && s < |p.seqLens| && h < p.numHeads && Parts(p, s) <= mp && r != r'
    requires OnlyRow(before, after, r, mp)
    ensures StatsAt(p, exp, maxes, before, RowStart(r', mp), s, h) ==>
            StatsAt(p, exp, maxes, after, RowStart(r', mp), s, h)
    ensures FactorsAt(p, exp, before, RowStart(r', mp), s, h) ==> FactorsAt(p, exp, after, RowStart(r', mp), s, h)
  {
    hide IsExp, Inputs.Valid, L, PartMaxes, PartSums, Factors, PartitionCount;
    RowsDisjoint(r, r', mp);
    if RowStart(r', mp) + Parts(p, s) <= |before| {
      assert after[RowStart(r', mp)..RowStart(r', mp) + Parts(p, s)] ==
        before[RowStart(r', mp)..RowStart(r', mp) + Parts(p, s)];
    }
  }

  /** Progress of the second loop over its first k work items. */
  ghost predicate Rescaling(p: Inputs, exp: RealFn, maxes: seq<real>, sums: seq<real>, mp: nat, items: seq<(nat, nat)>,
                            k: nat)
    requires p.Valid() && IsExp(exp) && IsSchedule(items, |p.seqLens|, p.numHeads) && k <= |items|
  {
    forall i :: 0 <= i < |items| && Parts(p, items[i].0) != 1 ==>
      var (s, h) := items[i];
      if i < k then FactorsAt(p, exp, sums, RowStart(Row(p, s, h), mp), s, h)
        else StatsAt(p, exp, maxes, sums, RowStart(Row(p, s, h), mp), s, h)
  }

  /** Second loop: rescale the denominators of every head whose sequence has several partitions. */
  method RescaleHeads(p: Inputs, mp: nat, maxLogits: array<real>, expSums: array<real>, exp: RealFn,
                      items: seq<(nat, nat)>)
    requires p.Valid() && IsExp(exp) && IsSchedule(items, |p.seqLens|, p.numHeads) && maxLogits != expSums
    requires forall s :: 0 <= s < |p.seqLens| ==> Parts(p, s) <= mp
    requires Rescaling(p, exp, maxLogits[..], expSums[..], mp, items, 0)
    modifies expSums
    ensures forall s: nat, h: nat :: s < |p.seqLens| && h < p.numHeads && Parts(p, s) != 1 ==>
              FactorsAt(p, exp, expSums[..], RowStart(Row(p, s, h), mp), s, h)
  {
    hide StatsAt, FactorsAt, Row, PartitionCount, IsExp, Inputs.Valid;
    ghost var maxes := maxLogits[..];
    for k := 0 to |items|
      invariant maxLogits[..] == maxes && Rescaling(p, exp, maxes, expSums[..], mp, items, k)
    {
      var (s, h) := items[k];
      if PartitionCount(p.seqLens[s]) != 1 {
        ghost var before := expSums[..];
        RescaleHead(p, mp, s, h, RowStart(Row(p, s, h), mp), maxLogits, expSums, exp);
        RescalingStep(p, exp, maxes, before, expSums[..], mp, items, k);
      }
    }
    forall s: nat, h: nat | s < |p.seqLens| && h < p.numHeads && Parts(p, s) != 1
      ensures FactorsAt(p, exp, expSums[..], RowStart(Row(p, s, h), mp), s, h)
    {
      var j :| 0 <= j < |items| && items[j] == (s, h);
    }
  }

  lemma RescalingStep(p: Inputs, exp: RealFn, maxes: seq<real>, before: seq<real>, after: seq<real>, mp: nat,
                      items: seq<(nat, nat)>, k: nat)
    requires p.Valid() && IsExp(exp) && IsSchedule(items, |p.seqLens|, p.numHeads) && k < |items|
    requires forall s :: 0 <= s < |p.seqLens| ==> Parts(p, s) <= mp
    requires Rescaling(p, exp, maxes, before, mp, items, k)
    requires var (s, h) := items[k];
             && FactorsAt(p, exp, after, RowStart(Row(p, s, h), mp), s, h) && |after| == |before|
             && var at := RowStart(Row(p, s, h), mp);
                forall i :: 0 <= i < |after| && !(at <= i < at + Parts(p, s)) ==> after[i] == before[i]
    ensures Rescaling(p, exp, maxes, after, mp, items, k + 1)
  {
    hide StatsAt, FactorsAt, PartitionCount, IsExp, Inputs.Valid;
    var (s, h) := items[k];
    assert OnlyRow(before, after, Row(p, s, h), mp);
    forall i | 0 <= i < |items| && Parts(p, items[i].0) != 1 && i != k
      ensures var (s', h') := items[i];
              if i < k + 1 then FactorsAt(p, exp, after, RowStart(Row(p, s', h'), mp), s', h')
              else StatsAt(p, exp, maxes, after, RowStart(Row(p, s', h'), mp), s', h')
    {
      var (s', h') := items[i];
      RowUnique(s, h, s', h', p.numHeads);
      StatsKept(p, exp, maxes, before, after, mp, Row(p, s, h), Row(p, s', h'), s', h');
    }
  }

  /** The value the kernel leaves in dimension d of head h of sequence s. */
  ghost function Merged(p: Inputs, exp: RealFn, s: nat, h: nat, d: nat): real
    requires p.Valid() && IsExp(exp) && s < |p.seqLens| && h < p.numHeads && d < p.headSize
  {
    LengthPositive(p, s);
    if Parts(p, s) == 1 then Attention(exp, L(p, s, h), V(p, s, h, d))
    else Dot(PartOuts(exp, L(p, s, h), V(p, s, h, d)), Factors(p, exp, s, h))
  }

  /** All partition outputs of head h of sequence s, one per row of tmp. */
  ghost predicate TmpRows(p: Inputs, exp: RealFn, tmp: seq<real>, mp: nat, s: nat, h: nat)
    requires p.Valid() && IsExp(exp) && s < |p.seqLens| && h < p.numHeads
  {
    forall j :: 0 <= j < Parts(p, s) ==> TmpRow(p, exp, tmp, RowStart(Slot(p, mp, Item(s, j, h)), p.headSize), s, h, j)
  }

  /** Rescales one partition's sixteen values and adds them to the accumulator. */
  lemma MergeStep(p: Inputs, exp: RealFn, s: nat, h: nat, g: nat, j: nat, acc: Vec16, value: Vec16, factor: Vec16)
    requires p.Valid() && IsExp(exp) && s < |p.seqLens| && h < p.numHeads && g * 16 + 16 <= p.headSize
             && j < Parts(p, s)
    requires forall e :: 0 <= e < 16 ==>
               && acc[e] == DotR(PartOuts(exp, L(p, s, h), V(p, s, h, g * 16 + e)), Factors(p, exp, s, h), 0, j)
               && value[e] == PartOut(exp, L(p, s, h), V(p, s, h, g * 16 + e), j)
               && factor[e] == Factors(p, exp, s, h)[j]
    ensures forall e :: 0 <= e < 16 ==>
              Fma(acc, value, factor)[e] ==
                DotR(PartOuts(exp, L(p, s, h), V(p, s, h, g * 16 + e)), Factors(p, exp, s, h), 0, j + 1)
  {
    hide Times, PartOut, Factors, L, V, IsExp, Inputs.Valid, PartitionCount;
  }

  /** Merges sixteen head elements of one head over all partitions. */
  method MergeGroup(p: Inputs, mp: nat, s: nat, h: nat, g: nat, sums: seq<real>, tmp: seq<real>, exp: RealFn)
    returns (acc: Vec16)
    requires p.Valid() && IsExp(exp) && s < |p.seqLens| && h < p.numHeads && g * 16 + 16 <= p.headSize
             && Parts(p, s) != 1
    requires FactorsAt(p, exp, sums, RowStart(Row(p, s, h), mp), s, h) && TmpRows(p, exp, tmp, mp, s, h)
    ensures forall e :: 0 <= e < 16 ==> acc[e] == Merged(p, exp, s, h, g * 16 + e)
  {
    hide L, V, PartOut, PartOuts, Factors, IsExp, Inputs.Valid, PartitionCount, Row, Fma, Slot;
    acc := ZeroVec();
    for j := 0 to Parts(p, s)
      invariant forall e :: 0 <= e < 16 ==>
                  acc[e] == DotR(PartOuts(exp, L(p, s, h), V(p, s, h, g * 16 + e)), Factors(p, exp, s, h), 0, j)
    {
      var at := RowStart(Slot(p, mp, Item(s, j, h)), p.headSize);
      assert TmpRow(p, exp, tmp, at, s, h, j);
      var value := Load16(tmp, at + g * 16);
      var factor: Vec16 := seq(16, e => sums[RowStart(Row(p, s, h), mp) + j]);
      assert sums[RowStart(Row(p, s, h), mp) + j] == Factors(p, exp, s, h)[j];
      MergeStep(p, exp, s, h, g, j, acc, value, factor);
      acc := Fma(acc, value, factor);
    }
  }

  /** Work item (s, g, h) of the third loop: head elements 16 * g .. 16 * g + 16 of head h are final. */
  ghost predicate GroupDone(p: Inputs, exp: RealFn, out: seq<real>, it: Item)
    requires p.Valid() && IsExp(exp) && ItemOk(p, p.headSize / 16, it)
  {
    var at := RowStart(Slot(p, p.headSize / 16, it), 16);
    && at + 16 <= |out|
    && forall i :: at <= i < at + 16 ==> out[i] == Merged(p, exp, it.s, it.h, it.j * 16 + (i - at))
  }

  /** Groups of sixteen tile the rows of the output. */
  lemma GroupInRow(p: Inputs, it: Item)
    requires p.headSize % 16 == 0
    ensures RowStart(Slot(p, p.headSize / 16, it), 16) == RowStart(Row(p, it.s, it.h), p.headSize) + it.j * 16
  {
    assert p.headSize == p.headSize / 16 * 16;
  }

  /** A sequence with one partition needs no merge. */
  lemma SinglePartition(p: Inputs, exp: RealFn, out: seq<real>, it: Item)
    requires p.Valid() && IsExp(exp) && ItemOk(p, p.headSize / 16, it) && Parts(p, it.s) == 1
    requires AttentionRow(p, exp, out, it.s, it.h)
    ensures GroupDone(p, exp, out, it)
  {
    hide Attention, Slot, Row, Head.Scores, Head.Values, IsExp, Inputs.HeadOf, Merged, PartitionCount;
    GroupInRow(p, it);
    var at := RowStart(Slot(p, p.headSize / 16, it), 16);
    forall i | at <= i < at + 16
      ensures out[i] == Merged(p, exp, it.s, it.h, it.j * 16 + (i - at))
    {
      MergedSingle(p, exp, it.s, it.h, it.j * 16 + (i - at));
    }
  }

  lemma MergedSingle(p: Inputs, exp: RealFn, s: nat, h: nat, d: nat)
    requires p.Valid() && IsExp(exp) && s < |p.seqLens| && h < p.numHeads && d < p.headSize && Parts(p, s) == 1
    ensures Merged(p, exp, s, h, d) == Attention(exp, p.HeadOf(s, h).Scores(), p.HeadOf(s, h).Values(d))
  {
    hide Attention, Inputs.HeadOf, Head.Scores, Head.Values, IsExp, Inputs.Valid;
  }

  lemma GroupKept(p: Inputs, exp: RealFn, before: seq<real>, after: seq<real>, it: Item, it': Item)
    requires p.Valid() && IsExp(exp) && ItemOk(p, p.headSize / 16, it) && ItemOk(p, p.headSize / 16, it') && it != it'
    requires OnlyRow(before, after, Slot(p, p.headSize / 16, it), 16) && GroupDone(p, exp, before, it')
    ensures GroupDone(p, exp, after, it')
  {
    hide Merged, Slot, IsExp;
    SlotUnique(p, p.headSize / 16, it, it');
  }

  lemma GroupInBounds(p: Inputs, it: Item, n: nat)
    requires p.Valid() && ItemOk(p, p.headSize / 16, it) && |p.seqLens| * p.numHeads * p.headSize <= n
    ensures RowStart(Slot(p, p.headSize / 16, it), 16) + 16 <= n && it.j * 16 + 16 <= p.headSize
    ensures it.s < |p.seqLens| && it.h < p.numHeads
  {
    GroupInRow(p, it);
    RowInBounds(p, it.s, it.h);
  }

  /** Third loop: merge the partitions of every head whose sequence has several. */
  method MergeGroups(p: Inputs, mp: nat, out: array<real>, sums: seq<real>, tmp: seq<real>, exp: RealFn,
                     items: seq<Item>)
    requires p.Valid() && IsExp(exp) && IsItemSchedule(p, p.headSize / 16, items)
    requires |p.seqLens| * p.numHeads * p.headSize <= out.Length
    requires forall s: nat, h: nat :: s < |p.seqLens| && h < p.numHeads && Parts(p, s) != 1 ==>
               FactorsAt(p, exp, sums, RowStart(Row(p, s, h), mp), s, h) && TmpRows(p, exp, tmp, mp, s, h)
    requires forall it :: ItemOk(p, p.headSize / 16, it) && Parts(p, it.s) == 1 ==> GroupDone(p, exp, out[..], it)
    modifies out
    ensures forall it :: ItemOk(p, p.headSize / 16, it) ==> GroupDone(p, exp, out[..], it)
  {
    hide GroupDone, OnlyRow, FactorsAt, TmpRows, IsExp, Inputs.Valid, Slot, Row, PartitionCount;
    for k := 0 to |items|
      invariant forall i :: 0 <= i < |items| && (i < k || Parts(p, items[i].s) == 1) ==>
                  GroupDone(p, exp, out[..], items[i])
    {
      var it := items[k];
      if Parts(p, it.s) != 1 {
        ghost var before := out[..];
        RunMerge(p, mp, it, out, sums, tmp, exp);
        forall i | 0 <= i < |items| && i != k && (i < k || Parts(p, items[i].s) == 1)
          ensures GroupDone(p, exp, out[..], items[i])
        {
          GroupKept(p, exp, before, out[..], it, items[i]);
        }
      }
    }
  }

  /** Body of the third loop. */
  method RunMerge(p: Inputs, mp: nat, it: Item, out: array<real>, sums: seq<real>, tmp: seq<real>, exp: RealFn)
    requires p.Valid() && IsExp(exp) && ItemOk(p, p.headSize / 16, it) && Parts(p, it.s) != 1
    requires |p.seqLens| * p.numHeads * p.headSize <= out.Length
    requires FactorsAt(p, exp, sums, RowStart(Row(p, it.s, it.h), mp), it.s, it.h)
             && TmpRows(p, exp, tmp, mp, it.s, it.h)
    modifies out
    ensures GroupDone(p, exp, out[..], it)
    ensures OnlyRow(old(out[..]), out[..], Slot(p, p.headSize / 16, it), 16)
  {
    hide *;
    GroupInBounds(p, it, out.Length);
    var acc := MergeGroup(p, mp, it.s, it.h, it.j, sums, tmp, exp);
    StoreGroupOut(p, exp, it, acc, out);
  }

  method StoreGroupOut(p: Inputs, exp: RealFn, it: Item, acc: Vec16, out: array<real>)
    requires p.Valid() && IsExp(exp) && ItemOk(p, p.headSize / 16, it) && it.j * 16 + 16 <= p.headSize
    requires RowStart(Slot(p, p.headSize / 16, it), 16) + 16 <= out.Length
    requires forall e :: 0 <= e < 16 ==> acc[e] == Merged(p, exp, it.s, it.h, it.j * 16 + e)
    modifies out
    ensures GroupDone(p, exp, out[..], it)
    ensures OnlyRow(old(out[..]), out[..], Slot(p, p.headSize / 16, it), 16)
  {
    hide Merged, Slot, IsExp, Inputs.Valid;
    var at := RowStart(Slot(p, p.headSize / 16, it), 16);
    for e := 0 to 16
      invariant forall i :: at <= i < at + e ==> out[i] == acc[i - at]
      invariant forall i :: 0 <= i < out.Length && !(at <= i < at + e) ==> out[i] == old(out[i])
    {
      out[at + e] := acc[e];
    }
    forall i | at <= i < at + 16
      ensures out[i] == Merged(p, exp, it.s, it.h, it.j * 16 + (i - at))
    {
      assert acc[i - at] == Merged(p, exp, it.s, it.h, it.j * 16 + (i - at));
    }
  }

  /** Attention as the split kernel delivers it: exact with one partition, else scaled by R / (R + 1e-8). */
  ghost function SplitValue(exp: RealFn, l: seq<real>, v: seq<real>): real
    requires 0 < |l| == |v| && IsExp(exp)
  {
    MergedSumIsDenominator(exp, l);
    if |l| <= 512 then Attention(exp, l, v)
    else Times(Attention(exp, l, v), Over(Denominator(exp, l), Denominator(exp, l) + 0.00000001))
  }

  ghost predicate SplitRow(p: Inputs, exp: RealFn, out: seq<real>, s: nat, h: nat)
    requires p.Valid() && IsExp(exp) && s < |p.seqLens| && h < p.numHeads
  {
    var at := RowStart(Row(p, s, h), p.headSize);
    && at + p.headSize <= |out|
    && forall i :: at <= i < at + p.headSize ==>
         out[i] == SplitValue(exp, p.HeadOf(s, h).Scores(), p.HeadOf(s, h).Values(i - at))
  }

  lemma MergedIsSplit(p: Inputs, exp: RealFn, s: nat, h: nat, d: nat)
    requires p.Valid() && IsExp(exp) && s < |p.seqLens| && h < p.numHeads && d < p.headSize
    ensures Merged(p, exp, s, h, d) == SplitValue(exp, p.HeadOf(s, h).Scores(), p.HeadOf(s, h).Values(d))
  {
    hide Times, Over, Attention, Inputs.HeadOf, Head.Scores, Head.Values, IsExp, Inputs.Valid, Denominator;
    MergeTheorem(exp, p.HeadOf(s, h).Scores(), p.HeadOf(s, h).Values(d));
  }

  lemma RowOfGroups(p: Inputs, exp: RealFn, out: seq<real>, s: nat, h: nat)
    requires p.Valid() && IsExp(exp) && s < |p.seqLens| && h < p.numHeads
    requires |p.seqLens| * p.numHeads * p.headSize <= |out|
    requires forall it :: ItemOk(p, p.headSize / 16, it) ==> GroupDone(p, exp, out, it)
    ensures SplitRow(p, exp, out, s, h)
  {
    hide Merged, SplitValue, Slot, Row, IsExp, Inputs.HeadOf, Head.Scores, Head.Values;
    var at := RowStart(Row(p, s, h), p.headSize);
    RowInBounds(p, s, h);
    forall i | at <= i < at + p.headSize
      ensures out[i] == SplitValue(exp, p.HeadOf(s, h).Scores(), p.HeadOf(s, h).Values(i - at))
    {
      var it := Item(s, (i - at) / 16, h);
      GroupInRow(p, it);
      assert GroupDone(p, exp, out, it);
      MergedIsSplit(p, exp, s, h, i - at);
    }
  }

  /** What the first loop leaves for the other two. */
  lemma FirstLoopDone(p: Inputs, exp: RealFn, b: Buffers, mp: nat, items: seq<(nat, nat)>)
    requires p.Valid() && IsExp(exp) && Fits(p, b, mp) && IsSchedule(items, |p.seqLens|, p.numHeads)
    requires forall it :: ItemOk(p, mp, it) ==> ItemDone(p, exp, b, mp, it)
    ensures Rescaling(p, exp, b.maxes, b.sums, mp, items, 0)
    ensures forall s: nat, h: nat :: s < |p.seqLens| && h < p.numHeads && Parts(p, s) != 1 ==>
              TmpRows(p, exp, b.tmp, mp, s, h)
    ensures forall it :: ItemOk(p, p.headSize / 16, it) && Parts(p, it.s) == 1 ==> GroupDone(p, exp, b.out, it)
  {
    hide StatsAt, TmpRow, GroupDone, AttentionRow, FactorsAt, IsExp, Inputs.Valid;
    forall i | 0 <= i < |items| && Parts(p, items[i].0) != 1
      ensures StatsAt(p, exp, b.maxes, b.sums, RowStart(Row(p, items[i].0, items[i].1), mp), items[i].0, items[i].1)
    {
      StatsReady(p, exp, b, mp, items[i].0, items[i].1);
    }
    forall s: nat, h: nat, j: nat | s < |p.seqLens| && h < p.numHeads && Parts(p, s) != 1 && j < Parts(p, s)
      ensures TmpRow(p, exp, b.tmp, RowStart(Slot(p, mp, Item(s, j, h)), p.headSize), s, h, j)
    {
      PartReady(p, exp, b, mp, s, h, j);
    }
    forall it | ItemOk(p, p.headSize / 16, it) && Parts(p, it.s) == 1
      ensures GroupDone(p, exp, b.out, it)
    {
      LengthPositive(p, it.s);
      assert ItemDone(p, exp, b, mp, Item(it.s, 0, it.h));
      SinglePartition(p, exp, b.out, it);
    }
  }

  /** Partitioned paged attention: exact for one partition, within a factor R / (R + 1e-8) otherwise. */
  method PagedAttentionSplit(p: Inputs, mp: nat, out: array<real>, maxLogits: array<real>, expSums: array<real>,
                             tmpOut: array<real>,
                             exp: RealFn, items1: seq<Item>, items2: seq<(nat, nat)>, items3: seq<Item>)
    requires p.Valid() && IsExp(exp) && Fits(p, Contents(out, maxLogits, expSums, tmpOut), mp)
    requires IsItemSchedule(p, mp, items1) && IsSchedule(items2, |p.seqLens|, p.numHeads)
             && IsItemSchedule(p, p.headSize / 16, items3)
    requires maxLogits != expSums && maxLogits != tmpOut && expSums != tmpOut
    requires out != maxLogits && out != expSums && out != tmpOut
    modifies out, maxLogits, expSums, tmpOut
    ensures forall s: nat, h: nat :: s < |p.seqLens| && h < p.numHeads ==> SplitRow(p, exp, out[..], s, h)
  {
    hide IsExp, Inputs.Valid, ItemDone, TmpRows, GroupDone, FactorsAt, Rescaling, SplitRow, IsItemSchedule, IsSchedule,
      PartitionCount;
    AttendPartitions(p, mp, out, maxLogits, expSums, tmpOut, exp, items1);
    ghost var b := Contents(out, maxLogits, expSums, tmpOut);
    FirstLoopDone(p, exp, b, mp, items2);
    RescaleHeads(p, mp, maxLogits, expSums, exp, items2);
    assert out[..] == b.out && tmpOut[..] == b.tmp;
    MergeGroups(p, mp, out, expSums[..], tmpOut[..], exp, items3);
    forall s: nat, h: nat | s < |p.seqLens| && h < p.numHeads
      ensures SplitRow(p, exp, out[..], s, h)
    {
      RowOfGroups(p, exp, out[..], s, h);
    }
  }

  /** The split value is the textbook attention for one partition, and within 1e-8 of it, relatively, otherwise. */
  lemma SplitIsClose(exp: RealFn, l: seq<real>, v: seq<real>)
    requires 0 < |l| == |v| && IsExp(exp)
    ensures |l| <= 512 ==> SplitValue(exp, l, v) == Attention(exp, l, v)
    ensures Close(SplitValue(exp, l, v), Attention(exp, l, v))
  {
    hide Attention, Denominator, IsExp;
    MergedSumIsDenominator(exp, l);
    MergeError(Attention(exp, l, v), Denominator(exp, l));
    NoError(Attention(exp, l, v));
  }

  /** a is within a relative error of 1e-8 of b. */
  predicate Close(a: real, b: real) {
    -0.00000001 * Abs(b) <= a - b <= 0.00000001 * Abs(b)
  }

  /** The two kernels agree up to a relative error of 1e-8 in every element. */
  lemma KernelsAgree(p: Inputs, exp: RealFn, v1: seq<real>, v2: seq<real>, s: nat, h: nat, i: nat)
    requires p.Valid() && IsExp(exp) && s < |p.seqLens| && h < p.numHeads
    requires AttentionRow(p, exp, v1, s, h) && SplitRow(p, exp, v2, s, h)
    requires RowStart(Row(p, s, h), p.headSize) <= i < RowStart(Row(p, s, h), p.headSize) + p.headSize
    ensures Parts(p, s) == 1 ==> v2[i] == v1[i]
    ensures Close(v2[i], v1[i])
  {
    hide Attention, SplitValue, Close, Inputs.HeadOf, Head.Scores, Head.Values, IsExp, Inputs.Valid, Row;
    LengthPositive(p, s);
    var d := i - RowStart(Row(p, s, h), p.headSize);
    SplitIsClose(exp, p.HeadOf(s, h).Scores(), p.HeadOf(s, h).Values(d));
  }

  lemma NoError(t: real)
    ensures 0.0 <= EPSILON * Abs(t)
  {
  }
}
