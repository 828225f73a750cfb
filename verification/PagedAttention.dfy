/** Tensors and block tables of paged attention, and the single-pass kernel over all sequences and heads. */
module PagedAttention {
  import opened Radix
  import opened Reals
  import opened Softmax
  import opened Lanes
  import opened PagedHead
  import opened Wrappers

  /** The read-only inputs of a kernel call; tensors are flat and addressed through strides. */
  datatype Inputs = Inputs(q: seq<real>, kc: seq<real>, vc: seq<real>, numKvHeads: nat, scale: real,
                           blockTables: seq<nat>, seqLens: seq<nat>, maxBlocks: nat, alibi: Option<seq<real>>,
                           qStride: nat, kvBlockStride: nat, kvHeadStride: nat,
                           numHeads: nat, headSize: nat, x: nat)
  {
    /** The KV head that serves query head h. */
    function KvHead(h: nat): nat
      requires 0 < numKvHeads <= numHeads
    {
      h / (numHeads / numKvHeads)
    }

    /** KV head kv serves the query heads of group kv, when the query heads are split evenly over the KV heads. */
    predicate Serves(kv: nat, h: nat)
      requires 0 < numKvHeads
    {
      var group := numHeads / numKvHeads;
      kv < numKvHeads && kv * group <= h < kv * group + group
    }

    /** Start of block b of sequence s, for the KV head of h, in either cache. */
    function Base(s: nat, b: nat, h: nat): nat
      requires 0 < numKvHeads <= numHeads && maxBlocks * s + b < |blockTables|
    {
      blockTables[maxBlocks * s + b] * kvBlockStride + KvHead(h) * kvHeadStride
    }

    /** Block b of sequence s lies inside the block table and both caches. */
    predicate BlockOk(s: nat, b: nat, h: nat)
      requires 0 < numKvHeads <= numHeads
    {
      && maxBlocks * s + b < |blockTables|
      && Base(s, b, h) + headSize * 16 <= |kc|
      && Base(s, b, h) + headSize * 16 <= |vc|
    }

    function QueryOff(s: nat, h: nat): nat {
      RowStart(s, qStride) + RowStart(h, headSize)
    }

    /** The query row of head h of sequence s lies inside the query tensor. */
    predicate QueryOk(s: nat, h: nat) {
      QueryOff(s, h) + headSize <= |q|
    }

    /** The ALiBi slope of head h, if there is one. */
    function Slope(h: nat): Option<real>
      requires alibi.Some? ==> h < |alibi.value|
    {
      match alibi case None => None case Some(a) => Some(a[h])
    }

    /** The memory-safety conditions the kernels rely on. */
    ghost predicate Valid() {
      && CellWidth(x) && 0 < headSize && headSize % 16 == 0 && 0 < numKvHeads <= numHeads
      && (alibi.Some? ==> |alibi.value| == numHeads)
      && (forall s :: 0 <= s < |seqLens| ==> 0 < seqLens[s] && BlockNum(seqLens[s]) <= maxBlocks)
      && (forall s, h :: 0 <= s < |seqLens| && 0 <= h < numHeads ==> QueryOk(s, h))
      && (forall s, b, h :: 0 <= s < |seqLens| && 0 <= b < BlockNum(seqLens[s]) && 0 <= h < numHeads ==>
            BlockOk(s, b, h))
    }

    function Bases(s: nat, h: nat): (r: seq<nat>)
      requires Valid() && s < |seqLens| && h < numHeads
    {
      seq(BlockNum(seqLens[s]), b requires 0 <= b < BlockNum(seqLens[s]) => assert BlockOk(s, b, h); Base(s, b, h))
    }

    lemma LogitsFit(s: nat)
      requires Valid() && s < |seqLens|
      ensures BlockNum(seqLens[s]) * 16 <= maxBlocks * 16
    {
    }

    lemma BasesInBounds(s: nat, h: nat)
      requires Valid() && s < |seqLens| && h < numHeads
      ensures |Bases(s, h)| == BlockNum(seqLens[s])
      ensures forall b :: 0 <= b < |Bases(s, h)| ==>
                Bases(s, h)[b] + headSize * 16 <= |kc| && Bases(s, h)[b] + headSize * 16 <= |vc|
    {
      hide Base, BlockNum;
      forall b | 0 <= b < |Bases(s, h)|
        ensures Bases(s, h)[b] + headSize * 16 <= |kc| && Bases(s, h)[b] + headSize * 16 <= |vc|
      {
        assert BlockOk(s, b, h);
      }
    }

    /** The view of head h of sequence s: its query row and the blocks its table row points to. */
    function HeadOf(s: nat, h: nat): (hd: Head)
      requires Valid() && s < |seqLens| && h < numHeads
      ensures hd.Valid() && 0 < hd.seqLen == seqLens[s] && hd.headSize == headSize
    {
      hide Bases;
      CellDivides(headSize, x);
      BasesInBounds(s, h);
      assert QueryOk(s, h);
      Head(q, QueryOff(s, h), kc, vc, Bases(s, h), headSize, x, scale, Slope(h), seqLens[s])
    }
  }

  lemma CellDivides(n: nat, x: nat)
    requires CellWidth(x) && n % 16 == 0
    ensures n % x == 0
  {
    assert n == n / 16 * 16;
    if x == 4 {
      assert n == 4 * (n / 16 * 4);
    } else {
      assert n == 8 * (n / 16 * 2);
    }
  }

  /** Flat index of the output row of head h of sequence s. */
  function Row(p: Inputs, s: nat, h: nat): nat {
    s * p.numHeads + h
  }

  /** out holds the textbook attention of head h of sequence s. */
  ghost predicate AttentionRow(p: Inputs, exp: RealFn, out: seq<real>, s: nat, h: nat)
    requires p.Valid() && IsExp(exp) && s < |p.seqLens| && h < p.numHeads
  {
    var at := RowStart(Row(p, s, h), p.headSize);
    && at + p.headSize <= |out|
    && forall i :: at <= i < at + p.headSize ==>
      out[i] == Attention(exp, p.HeadOf(s, h).Scores(), p.HeadOf(s, h).Values(i - at))
  }

  lemma RowInBounds(p: Inputs, s: nat, h: nat)
    requires s < |p.seqLens| && h < p.numHeads
    ensures Row(p, s, h) < |p.seqLens| * p.numHeads
    ensures RowStart(Row(p, s, h), p.headSize) + p.headSize <= |p.seqLens| * p.numHeads * p.headSize
  {
    RowBound(s, |p.seqLens|, p.numHeads);
    RowBound(Row(p, s, h), |p.seqLens| * p.numHeads, p.headSize);
  }

  /** Over its whole range, a head's contribution is the textbook attention. */
  lemma WholeRange(exp: RealFn, hd: Head, d: nat)
    requires hd.Valid() && IsExp(exp) && d < hd.headSize
    ensures RangeOut(exp, hd, 0, hd.seqLen, d) == Attention(exp, hd.Scores(), hd.Values(d))
  {
    hide Times, Over, Head.Scores, Head.Values;
    ShiftInvariance(exp, hd.Scores(), hd.Values(d), MaxR(hd.Scores(), 0, hd.seqLen));
  }

  /** Only the elements of row r may differ. */
  ghost predicate OnlyRow(before: seq<real>, after: seq<real>, r: nat, n: nat) {
    && |before| == |after|
    && forall i :: 0 <= i < |after| && !(RowStart(r, n) <= i < RowStart(r, n) + n) ==> after[i] == before[i]
  }

  /** Attention of one head of one sequence, computed in one pass. */
  method AttendHead(p: Inputs, s: nat, h: nat, logits: array<real>, out: array<real>, exp: RealFn)
    requires p.Valid() && IsExp(exp) && s < |p.seqLens| && h < p.numHeads
    requires BlockNum(p.seqLens[s]) * 16 <= logits.Length && logits != out
    requires RowStart(Row(p, s, h), p.headSize) + p.headSize <= out.Length
    modifies logits, out
    ensures AttentionRow(p, exp, out[..], s, h)
    ensures OnlyRow(old(out[..]), out[..], Row(p, s, h), p.headSize)
  {
    hide RangeOut, Row, Attention, Head.Scores, Head.Values, Inputs.Valid, Inputs.HeadOf, Head.Valid, IsExp;
    var hd := p.HeadOf(s, h);
    var at := RowStart(Row(p, s, h), p.headSize);
    var _, _ := AttendRange(hd, 0, hd.seqLen, logits, out, at, exp);
    forall i | at <= i < at + p.headSize
      ensures out[i] == Attention(exp, hd.Scores(), hd.Values(i - at))
    {
      WholeRange(exp, hd, i - at);
    }
  }

  /** Rows other than the one being written keep their contents. */
  lemma RowKept(p: Inputs, exp: RealFn, before: seq<real>, after: seq<real>, s: nat, h: nat, s': nat, h': nat)
    requires p.Valid() && IsExp(exp) && s < |p.seqLens| && h < p.numHeads && s' < |p.seqLens| && h' < p.numHeads
    requires (s, h) != (s', h') && OnlyRow(before, after, Row(p, s, h), p.headSize)
    requires AttentionRow(p, exp, before, s', h')
    ensures AttentionRow(p, exp, after, s', h')
  {
    hide Attention, Head.Scores, Head.Values, IsExp;
    RowUnique(s, h, s', h', p.numHeads);
    RowsDisjoint(Row(p, s, h), Row(p, s', h'), p.headSize);
  }

  /** Single-pass paged attention: every output row is the textbook attention of its head. */
  method PagedAttentionV1(p: Inputs, out: array<real>, exp: RealFn, schedule: seq<(nat, nat)>)
    requires p.Valid() && IsExp(exp) && IsSchedule(schedule, |p.seqLens|, p.numHeads)
    requires |p.seqLens| * p.numHeads * p.headSize <= out.Length
    modifies out
    ensures forall s: nat, h: nat :: s < |p.seqLens| && h < p.numHeads ==> AttentionRow(p, exp, out[..], s, h)
  {
    hide Inputs.Valid, IsExp, AttentionRow, Row;
    var logits := new real[p.maxBlocks * 16];
    for k := 0 to |schedule|
      invariant forall j :: 0 <= j < k ==> AttentionRow(p, exp, out[..], schedule[j].0, schedule[j].1)
    {
      var (s, h) := schedule[k];
      p.LogitsFit(s);
      RowInBounds(p, s, h);
      ghost var before := out[..];
      AttendHead(p, s, h, logits, out, exp);
      forall j | 0 <= j < k
        ensures AttentionRow(p, exp, out[..], schedule[j].0, schedule[j].1)
      {
        RowKept(p, exp, before, out[..], s, h, schedule[j].0, schedule[j].1);
      }
    }
    forall s: nat, h: nat | s < |p.seqLens| && h < p.numHeads
      ensures AttentionRow(p, exp, out[..], s, h)
    {
      var j :| 0 <= j < |schedule| && schedule[j] == (s, h);
    }
  }
}
