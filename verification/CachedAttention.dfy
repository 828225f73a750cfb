/** End to end: what the scatter kernel stored is what the attention kernels attend to. */
module CachedAttention {
  import opened Reals
  import opened Softmax
  import opened SoftmaxKernels
  import opened Radix
  import opened BlockCache
  import opened ReshapeAndCache
  import Lanes
  import opened PagedHead
  import opened PagedAttention
  import V2 = PagedAttentionV2
  import opened Wrappers

  /** The layout of the caches that the attention kernels read. */
  function LayoutOf(p: Inputs): Layout {
    Layout(p.numKvHeads, p.headSize, 16, p.x)
  }

  /** The caches are contiguous. */
  predicate Contiguous(p: Inputs) {
    p.kvHeadStride == p.headSize * 16 && p.kvBlockStride == p.numKvHeads * p.headSize * 16
  }

  /** The slot that the block table assigns to token t of sequence s. */
  function SlotOfToken(p: Inputs, s: nat, t: nat): nat
    requires p.maxBlocks * s + t / 16 < |p.blockTables|
  {
    p.blockTables[p.maxBlocks * s + t / 16] * 16 + t % 16
  }

  /** The textbook logit of token t: the scaled dot product of query and key, less the head's slope times the number of
      later tokens when there are ALiBi slopes. */
  function Logit(q: seq<real>, key: seq<real>, scale: real, alibi: Option<seq<real>>, h: nat, t: nat, seqLen: nat): real
    requires |q| == |key| && (alibi.Some? ==> h < |alibi.value|)
  {
    Times(Dot(q, key), scale) - (if alibi.Some? then Times(alibi.value[h], (seqLen - 1 - t) as real) else 0.0)
  }

  function Logits(q: seq<real>, keys: seq<seq<real>>, scale: real, alibi: Option<seq<real>>, h: nat): (l: seq<real>)
    requires (forall t :: 0 <= t < |keys| ==> |keys[t]| == |q|) && (alibi.Some? ==> h < |alibi.value|)
    ensures |l| == |keys|
  {
    seq(|keys|, t requires 0 <= t < |keys| => Logit(q, keys[t], scale, alibi, h, t, |keys|))
  }

  /** The row of head h of sequence s lies inside the query tensor. */
  predicate QueryInside(p: Inputs, s: nat, h: nat) {
    s * p.qStride + h * p.headSize + p.headSize <= |p.q|
  }

  /** The row of head h of item t in a tensor whose items are `stride` elements apart. */
  function HeadRow(tensor: seq<real>, t: nat, stride: nat, h: nat, headSize: nat): (r: seq<real>)
    requires t * stride + h * headSize + headSize <= |tensor|
    ensures |r| == headSize
  {
    tensor[t * stride + h * headSize..][..headSize]
  }

  function QueryRow(p: Inputs, s: nat, h: nat): (r: seq<real>)
    requires QueryInside(p, s, h)
    ensures |r| == p.headSize
  {
    HeadRow(p.q, s, p.qStride, h, p.headSize)
  }

  /** The kernels read the query row of every head where it is. */
  lemma QueryRead(p: Inputs, s: nat, h: nat)
    requires p.Valid() && s < |p.seqLens| && h < p.numHeads
    ensures QueryInside(p, s, h)
    ensures p.HeadOf(s, h).q[p.HeadOf(s, h).qOff..][..p.headSize] == QueryRow(p, s, h)
  {
    assert p.QueryOk(s, h);
  }

  function Column(values: seq<seq<real>>, d: nat): (v: seq<real>)
    requires forall t :: 0 <= t < |values| ==> d < |values[t]|
    ensures |v| == |values|
  {
    seq(|values|, t requires 0 <= t < |values| => values[t][d])
  }

  /** The caches hold keys[t] and values[t] in the slot of every token t of sequence s, for the KV head of h. */
  ghost predicate Holds(p: Inputs, s: nat, h: nat, keys: seq<seq<real>>, values: seq<seq<real>>)
    requires p.Valid() && s < |p.seqLens| && h < p.numHeads && LayoutOf(p).Valid()
  {
    && |keys| == |values| == p.seqLens[s]
    && (forall t :: 0 <= t < |keys| ==> |keys[t]| == p.headSize && |values[t]| == p.headSize)
    && (forall t :: 0 <= t < |keys| ==>
          && p.maxBlocks * s + t / 16 < |p.blockTables|
          && KeyStored(LayoutOf(p), p.kc, SlotOfToken(p, s, t), p.KvHead(h), keys[t], p.headSize)
          && ValueStored(LayoutOf(p), p.vc, SlotOfToken(p, s, t), p.KvHead(h), values[t], p.headSize))
  }

  /** The attention kernels and the scatter kernel compute the same addresses. */
  lemma SameAddresses(p: Inputs, s: nat, h: nat, t: nat, d: nat)
    requires p.Valid() && Contiguous(p) && s < |p.seqLens| && h < p.numHeads && t < p.seqLens[s] && d < p.headSize
    requires LayoutOf(p).Valid() && p.maxBlocks * s + t / 16 < |p.blockTables|
    ensures p.Base(s, t / 16, h) + Lanes.KeyOffset(d, t % 16, 16, p.x) ==
            LayoutOf(p).KeyAddr(SlotOfToken(p, s, t), p.KvHead(h), d)
    ensures p.Base(s, t / 16, h) + d * 16 + t % 16 == LayoutOf(p).ValueAddr(SlotOfToken(p, s, t), p.KvHead(h), d)
  {
    var g, slot, blk, kv := LayoutOf(p), SlotOfToken(p, s, t), p.blockTables[p.maxBlocks * s + t / 16], p.KvHead(h);
    Coordinates(blk, t % 16, 16);
    CellStart(d, p.x);
    hide Quo, Rem, Inputs.KvHead, Inputs.Valid, Layout.KeyAddr, Layout.ValueAddr;
    g.KeySource(slot, kv, d - d % p.x, d % p.x);
    g.ValueSource(slot, kv, d);
    BaseMatches(blk, kv, p.numKvHeads, p.headSize);
  }

  lemma CellStart(d: nat, x: nat)
    requires 0 < x
    ensures 0 <= d - d % x && (d - d % x) % x == 0
  {
    assert d - d % x == d / x * x + 0;
    Coordinates(d / x, 0, x);
  }

  lemma BaseMatches(blk: nat, kv: nat, numHeads: nat, headSize: nat)
    ensures blk * (numHeads * headSize * 16) + kv * (headSize * 16) == numHeads * headSize * 16 * blk +
            kv * 16 * headSize
  {
  }

  lemma KeyRead(p: Inputs, s: nat, h: nat, keys: seq<seq<real>>, values: seq<seq<real>>, t: nat)
    requires p.Valid() && Contiguous(p) && s < |p.seqLens| && h < p.numHeads && LayoutOf(p).Valid()
    requires Holds(p, s, h, keys, values) && t < p.seqLens[s]
    ensures QueryInside(p, s, h)
    ensures p.HeadOf(s, h).RawScore(t) == Times(Dot(QueryRow(p, s, h), keys[t]), p.scale)
  {
    QueryRead(p, s, h);
    hide QueryInside, QueryRow, Dot, Times, Inputs.Valid, Inputs.Base, Layout.KeyAddr, Layout.ValueAddr,
      Lanes.KeyOffset, SlotOfToken;
    var hd := p.HeadOf(s, h);
    var b := hd.Block(t / 16);
    assert b.QRow() == QueryRow(p, s, h);
    forall d | 0 <= d < p.headSize
      ensures b.KRow(t % 16)[d] == keys[t][d]
    {
      SameAddresses(p, s, h, t, d);
    }
    assert b.KRow(t % 16) == keys[t];
  }

  lemma ValueRead(p: Inputs, s: nat, h: nat, keys: seq<seq<real>>, values: seq<seq<real>>, d: nat)
    requires p.Valid() && Contiguous(p) && s < |p.seqLens| && h < p.numHeads && LayoutOf(p).Valid()
    requires Holds(p, s, h, keys, values) && d < p.headSize
    ensures p.HeadOf(s, h).Values(d) == Column(values, d)
  {
    hide Inputs.Valid, Inputs.Base, Layout.KeyAddr, Layout.ValueAddr, Lanes.KeyOffset, SlotOfToken;
    var hd := p.HeadOf(s, h);
    forall t | 0 <= t < p.seqLens[s]
      ensures hd.Values(d)[t] == values[t][d]
    {
      SameAddresses(p, s, h, t, d);
      assert hd.Values(d)[t] == hd.SlotValue(t, d);
    }
  }

  lemma ScoreRead(p: Inputs, s: nat, h: nat, keys: seq<seq<real>>, values: seq<seq<real>>, t: nat)
    requires p.Valid() && Contiguous(p) && s < |p.seqLens| && h < p.numHeads && LayoutOf(p).Valid()
    requires Holds(p, s, h, keys, values) && t < p.seqLens[s]
    ensures QueryInside(p, s, h)
    ensures p.HeadOf(s, h).Scores()[t] ==
            Logit(QueryRow(p, s, h), keys[t], p.scale, p.alibi, h, t, p.seqLens[s])
  {
    hide QueryInside, QueryRow, Dot, Times, AlibiBias, Head.RawScore, Head.Scores, KeyStored, ValueStored, SlotOfToken,
      Inputs.Bases, Inputs.QueryOff;
    QueryRead(p, s, h);
    KeyRead(p, s, h, keys, values, t);
    ScoreAt(p.HeadOf(s, h), t);
    if p.alibi.Some? {
      BiasIsDistance(p.alibi.value[h], t, p.seqLens[s]);
    }
  }

  lemma ScoresRead(p: Inputs, s: nat, h: nat, keys: seq<seq<real>>, values: seq<seq<real>>)
    requires p.Valid() && Contiguous(p) && s < |p.seqLens| && h < p.numHeads && LayoutOf(p).Valid()
    requires Holds(p, s, h, keys, values)
    ensures QueryInside(p, s, h)
    ensures p.HeadOf(s, h).Scores() == Logits(QueryRow(p, s, h), keys, p.scale, p.alibi, h)
  {
    hide QueryInside, QueryRow, Logit, Head.Scores, KeyStored, ValueStored, SlotOfToken, Inputs.HeadOf;
    QueryRead(p, s, h);
    var scores, logits := p.HeadOf(s, h).Scores(), Logits(QueryRow(p, s, h), keys, p.scale, p.alibi, h);
    forall t | 0 <= t < p.seqLens[s]
      ensures scores[t] == logits[t]
    {
      ScoreRead(p, s, h, keys, values, t);
    }
  }

  lemma ScoreAt(hd: Head, t: nat)
    requires hd.Valid() && t < hd.seqLen
    ensures hd.Scores()[t] == hd.RawScore(t) +
            (if hd.slope.Some? then AlibiBias(hd.slope.value, t, hd.seqLen) else 0.0)
  {
    hide Head.RawScore, AlibiBias;
  }

  /** If the caches hold the sequence's rows, the attention kernels compute from the textbook logits and columns. */
  lemma EndToEnd(p: Inputs, s: nat, h: nat, keys: seq<seq<real>>, values: seq<seq<real>>, d: nat)
    requires p.Valid() && Contiguous(p) && s < |p.seqLens| && h < p.numHeads && LayoutOf(p).Valid()
    requires Holds(p, s, h, keys, values) && d < p.headSize
    ensures QueryInside(p, s, h) && 0 < |keys| == p.seqLens[s]
    ensures p.HeadOf(s, h).Scores() == Logits(QueryRow(p, s, h), keys, p.scale, p.alibi, h)
    ensures p.HeadOf(s, h).Values(d) == Column(values, d)
  {
    hide Head.Scores, Head.Values, Logits, Column, Row, QueryInside, QueryRow;
    ScoresRead(p, s, h, keys, values);
    ValueRead(p, s, h, keys, values, d);
  }

  /** A token of one of a sequence of scatter calls. */
  datatype Ref = Ref(call: nat, index: nat)

  /** Token t of sequence s was scattered as refs[t], to the slot the block table gives it, and is still there. */
  ghost predicate Mapped(p: Inputs, calls: seq<Tokens<real>>, s: nat, refs: seq<Ref>)
    requires s < |p.seqLens|
  {
    && |refs| == p.seqLens[s]
    && forall t :: 0 <= t < |refs| ==>
         && refs[t].call < |calls| && refs[t].index < |calls[refs[t].call].slots|
            && p.maxBlocks * s + t / 16 < |p.blockTables|
         && calls[refs[t].call].slots[refs[t].index] == SlotOfToken(p, s, t)
         && Live(calls, refs[t].call, refs[t].index, |calls|)
  }

  /** Query heads are split evenly over the KV heads, in order: head j of group kv reads KV head kv. */
  lemma GroupMember(p: Inputs, kv: nat, j: nat)
    requires 0 < p.numKvHeads && p.numHeads % p.numKvHeads == 0
    requires kv < p.numKvHeads && j < p.numHeads / p.numKvHeads
    ensures var h := kv * (p.numHeads / p.numKvHeads) + j;
            h < p.numHeads && p.numKvHeads <= p.numHeads && p.KvHead(h) == kv
  {
    QuoBelow(0, p.numHeads, p.numKvHeads);
    FlatBelow(kv, p.numKvHeads, j, p.numHeads / p.numKvHeads);
    Coordinates(kv, j, p.numHeads / p.numKvHeads);
  }

  /** The KV head that a query head reads is the one that serves it, and no other does. */
  lemma GroupedHeads(p: Inputs, h: nat)
    requires 0 < p.numKvHeads && p.numHeads % p.numKvHeads == 0 && h < p.numHeads
    ensures p.numKvHeads <= p.numHeads && p.Serves(p.KvHead(h), h)
    ensures forall kv: nat :: p.Serves(kv, h) ==> kv == p.KvHead(h)
  {
    var group := p.numHeads / p.numKvHeads;
    QuoBelow(0, p.numHeads, p.numKvHeads);
    QuoInTable(h, p.numKvHeads, group);
    Rebuild(h, group);
    forall kv: nat | p.Serves(kv, h)
      ensures kv == p.KvHead(h)
    {
      GroupMember(p, kv, h - kv * group);
    }
  }

  /** Every reference points to rows of the KV head within the tensors of its call. */
  ghost predicate RefsOk(g: Layout, calls: seq<Tokens<real>>, refs: seq<Ref>, kv: nat) {
    forall t :: 0 <= t < |refs| ==> refs[t].call < |calls| && calls[refs[t].call].RowOk(g, refs[t].index, kv)
  }

  /** Original rows of the tokens of a sequence, in order, for one KV head. */
  ghost function KeyRows(g: Layout, calls: seq<Tokens<real>>, refs: seq<Ref>, kv: nat): (r: seq<seq<real>>)
    requires RefsOk(g, calls, refs, kv)
    ensures |r| == |refs| && forall t :: 0 <= t < |r| ==> |r[t]| == g.headSize
  {
    seq(|refs|, t requires 0 <= t < |refs| =>
      var c := calls[refs[t].call]; HeadRow(c.key, refs[t].index, c.keyStride, kv, g.headSize))
  }

  ghost function ValueRows(g: Layout, calls: seq<Tokens<real>>, refs: seq<Ref>, kv: nat): (r: seq<seq<real>>)
    requires RefsOk(g, calls, refs, kv)
    ensures |r| == |refs| && forall t :: 0 <= t < |r| ==> |r[t]| == g.headSize
  {
    seq(|refs|, t requires 0 <= t < |refs| =>
      var c := calls[refs[t].call]; HeadRow(c.value, refs[t].index, c.valueStride, kv, g.headSize))
  }

  /** What the scatter calls guarantee is what EndToEnd needs. */
  lemma ScatterHolds(p: Inputs, calls: seq<Tokens<real>>, s: nat, h: nat, refs: seq<Ref>)
    requires p.Valid() && s < |p.seqLens| && h < p.numHeads && LayoutOf(p).Valid() && p.KvHead(h) < p.numKvHeads
    requires Mapped(p, calls, s, refs) && AllStored(LayoutOf(p), calls, p.kc, p.vc, |calls|)
    ensures RefsOk(LayoutOf(p), calls, refs, p.KvHead(h))
    ensures Holds(p, s, h, KeyRows(LayoutOf(p), calls, refs, p.KvHead(h)),
            ValueRows(LayoutOf(p), calls, refs, p.KvHead(h)))
  {
    hide KeyStored, ValueStored, SlotOfToken, Inputs.KvHead, Live, Tokens.RowOk;
    forall t | 0 <= t < |refs|
      ensures calls[refs[t].call].RowOk(LayoutOf(p), refs[t].index, p.KvHead(h))
      ensures Stored(LayoutOf(p), calls[refs[t].call], p.kc, p.vc, refs[t].index, p.KvHead(h))
    {
    }
  }

  /** Attention of head h over the original rows that KV head kv has for the tokens of sequence s. */
  ghost function Textbook(p: Inputs, calls: seq<Tokens<real>>, refs: seq<Ref>, exp: RealFn, s: nat, h: nat, kv: nat,
                          d: nat): real
    requires IsExp(exp) && 0 < |refs| && QueryInside(p, s, h) && d < p.headSize
    requires RefsOk(LayoutOf(p), calls, refs, kv) && (p.alibi.Some? ==> h < |p.alibi.value|)
  {
    var g := LayoutOf(p);
    Attention(exp, Logits(QueryRow(p, s, h), KeyRows(g, calls, refs, kv), p.scale, p.alibi, h),
      Column(ValueRows(g, calls, refs, kv), d))
  }

  /** Everything Textbook needs is in place, and kv is the KV head that serves h. */
  ghost predicate Answerable(p: Inputs, calls: seq<Tokens<real>>, refs: seq<seq<Ref>>, exp: RealFn, s: nat, h: nat,
                             kv: nat) {
    && 0 < p.numKvHeads && p.Serves(kv, h) && IsExp(exp) && s < |refs| && 0 < |refs[s]| && QueryInside(p, s, h)
    && RefsOk(LayoutOf(p), calls, refs[s], kv) && (p.alibi.Some? ==> h < |p.alibi.value|)
  }

  /** The output row of head h of sequence s is the textbook attention over the original rows of its KV head. */
  ghost predicate Answered(p: Inputs, calls: seq<Tokens<real>>, refs: seq<seq<Ref>>, exp: RealFn, out: seq<real>,
                           s: nat, h: nat) {
    var at := (s * p.numHeads + h) * p.headSize;
    && at + p.headSize <= |out|
    && exists kv: nat :: Answerable(p, calls, refs, exp, s, h, kv) &&
         forall d :: 0 <= d < p.headSize ==> out[at + d] == Textbook(p, calls, refs[s], exp, s, h, kv, d)
  }

  /** The output row is within a relative error of 1e-8 of it, and exact for up to 512 tokens. */
  ghost predicate Approximated(p: Inputs, calls: seq<Tokens<real>>, refs: seq<seq<Ref>>, exp: RealFn, out: seq<real>,
                               s: nat, h: nat)
    requires s < |p.seqLens|
  {
    hide Answered, V2.Close, Textbook, Inputs.Serves, QueryInside, RefsOk, IsExp;
    var at := (s * p.numHeads + h) * p.headSize;
    && at + p.headSize <= |out|
    && (exists kv: nat :: Answerable(p, calls, refs, exp, s, h, kv) &&
         forall d :: 0 <= d < p.headSize ==> V2.Close(out[at + d], Textbook(p, calls, refs[s], exp, s, h, kv, d)))
    && (p.seqLens[s] <= 512 ==> Answered(p, calls, refs, exp, out, s, h))
  }

  /** The caches are filled: every sequence's tokens have been scattered and are live. */
  ghost predicate Filled(p: Inputs, calls: seq<Tokens<real>>, refs: seq<seq<Ref>>) {
    && p.Valid() && Contiguous(p) && LayoutOf(p).Valid() && p.numHeads % p.numKvHeads == 0 && |refs| == |p.seqLens|
    && AllStored(LayoutOf(p), calls, p.kc, p.vc, |calls|)
    && forall s :: 0 <= s < |refs| ==> Mapped(p, calls, s, refs[s])
  }

  lemma HeadReads(p: Inputs, calls: seq<Tokens<real>>, refs: seq<seq<Ref>>, exp: RealFn, s: nat, h: nat, d: nat)
    requires Filled(p, calls, refs) && IsExp(exp) && s < |refs| && h < p.numHeads && d < p.headSize
    ensures Answerable(p, calls, refs, exp, s, h, p.KvHead(h))
    ensures var l, v := p.HeadOf(s, h).Scores(), p.HeadOf(s, h).Values(d);
            && 0 < |l| == |v| == p.seqLens[s]
            && Attention(exp, l, v) == Textbook(p, calls, refs[s], exp, s, h, p.KvHead(h), d)
  {
    hide Attention, Logits, Column, IsExp, AllStored, SlotOfToken, Inputs.KvHead, Inputs.Serves, Row, RowStart, Holds,
      Head.Scores, Head.Values, QueryInside, QueryRow, KeyRows, ValueRows;
    GroupedHeads(p, h);
    var g, kv := LayoutOf(p), p.KvHead(h);
    ScatterHolds(p, calls, s, h, refs[s]);
    EndToEnd(p, s, h, KeyRows(g, calls, refs[s], kv), ValueRows(g, calls, refs[s], kv), d);
  }

  lemma RowAt(p: Inputs, s: nat, h: nat)
    ensures RowStart(Row(p, s, h), p.headSize) == (s * p.numHeads + h) * p.headSize
  {
  }

  lemma AnsweredExactly(p: Inputs, calls: seq<Tokens<real>>, refs: seq<seq<Ref>>, exp: RealFn, out: seq<real>, s: nat,
                        h: nat)
    requires Filled(p, calls, refs) && IsExp(exp) && s < |refs| && h < p.numHeads && AttentionRow(p, exp, out, s, h)
    ensures Answered(p, calls, refs, exp, out, s, h)
  {
    RowAt(p, s, h);
    hide Attention, Textbook, IsExp, RefsOk, QueryInside, Row, RowStart, Head.Scores, Head.Values, Inputs.HeadOf,
      Inputs.KvHead, Inputs.Serves,
      AllStored, Mapped;
    var at := RowStart(Row(p, s, h), p.headSize);
    HeadReads(p, calls, refs, exp, s, h, 0);
    forall d | 0 <= d < p.headSize
      ensures out[at + d] == Attention(exp, p.HeadOf(s, h).Scores(), p.HeadOf(s, h).Values(d))
    {
      assert out[at + d] == Attention(exp, p.HeadOf(s, h).Scores(), p.HeadOf(s, h).Values((at + d) - at));
    }
    forall d | 0 <= d < p.headSize
      ensures out[at + d] == Textbook(p, calls, refs[s], exp, s, h, p.KvHead(h), d)
    {
      HeadReads(p, calls, refs, exp, s, h, d);
    }
  }

  lemma AnsweredClosely(p: Inputs, calls: seq<Tokens<real>>, refs: seq<seq<Ref>>, exp: RealFn, out: seq<real>, s: nat,
                        h: nat)
    requires Filled(p, calls, refs) && IsExp(exp) && s < |refs| && h < p.numHeads && V2.SplitRow(p, exp, out, s, h)
    ensures Approximated(p, calls, refs, exp, out, s, h)
  {
    RowAt(p, s, h);
    hide Attention, Textbook, IsExp, RefsOk, QueryInside, Row, RowStart, Head.Scores, Head.Values, Inputs.HeadOf,
      Inputs.KvHead, Inputs.Serves,
      AllStored, Mapped, V2.SplitValue, V2.Close;
    var at := RowStart(Row(p, s, h), p.headSize);
    HeadReads(p, calls, refs, exp, s, h, 0);
    forall d | 0 <= d < p.headSize
      ensures out[at + d] == V2.SplitValue(exp, p.HeadOf(s, h).Scores(), p.HeadOf(s, h).Values(d))
    {
      assert out[at + d] == V2.SplitValue(exp, p.HeadOf(s, h).Scores(), p.HeadOf(s, h).Values((at + d) - at));
    }
    forall d | 0 <= d < p.headSize
      ensures V2.Close(out[at + d], Textbook(p, calls, refs[s], exp, s, h, p.KvHead(h), d))
      ensures p.seqLens[s] <= 512 ==> out[at + d] == Textbook(p, calls, refs[s], exp, s, h, p.KvHead(h), d)
    {
      HeadReads(p, calls, refs, exp, s, h, d);
      V2.SplitIsClose(exp, p.HeadOf(s, h).Scores(), p.HeadOf(s, h).Values(d));
    }
  }

  /** Validity depends on the sizes of the caches only. */
  lemma StillValid(p: Inputs, q: Inputs)
    requires p.Valid() && q == p.(kc := q.kc, vc := q.vc) && |q.kc| == |p.kc| && |q.vc| == |p.vc|
    ensures q.Valid()
  {
    forall s, b, h | 0 <= s < |q.seqLens| && 0 <= b < BlockNum(q.seqLens[s]) && 0 <= h < q.numHeads
      ensures q.BlockOk(s, b, h)
    {
      assert p.BlockOk(s, b, h);
    }
    forall s, h | 0 <= s < |q.seqLens| && 0 <= h < q.numHeads
      ensures q.QueryOk(s, h)
    {
      assert p.QueryOk(s, h);
    }
  }

  lemma SameMapping(p: Inputs, q: Inputs, calls: seq<Tokens<real>>, s: nat, refs: seq<Ref>)
    requires q == p.(kc := q.kc, vc := q.vc) && s < |p.seqLens| && Contiguous(p) && Mapped(p, calls, s, refs)
    ensures Contiguous(q) && LayoutOf(q) == LayoutOf(p) && Mapped(q, calls, s, refs)
  {
  }

  /** What caching demands: contiguous caches, valid calls with schedules, and every sequence mapped to live tokens. */
  ghost predicate Cacheable(p: Inputs, calls: seq<Tokens<real>>, refs: seq<seq<Ref>>, keys: nat, values: nat,
                            numBlocks: nat, schedules: seq<seq<(nat, nat)>>)
  {
    var g := LayoutOf(p);
    && Contiguous(p) && g.Valid() && p.numHeads % p.numKvHeads == 0 && |refs| == |p.seqLens| && |schedules| == |calls|
    && numBlocks * g.numHeads * g.HeadElems() <= keys && numBlocks * g.numHeads * g.HeadElems() <= values
    && (forall c :: 0 <= c < |calls| ==>
          calls[c].Valid(g, numBlocks) && IsSchedule(schedules[c], |calls[c].slots|, g.numHeads))
    && (forall s :: 0 <= s < |refs| ==> Mapped(p, calls, s, refs[s]))
  }

  /** Caching over any number of calls fills the caches. */
  method CacheTokens(p: Inputs, calls: seq<Tokens<real>>, ghost refs: seq<seq<Ref>>, keyCache: array<real>,
                     valueCache: array<real>, numBlocks: nat, schedules: seq<seq<(nat, nat)>>)
    returns (q: Inputs)
    requires p.(kc := keyCache[..], vc := valueCache[..]).Valid() && keyCache != valueCache
    requires Cacheable(p, calls, refs, keyCache.Length, valueCache.Length, numBlocks, schedules)
    modifies keyCache, valueCache
    ensures q == p.(kc := keyCache[..], vc := valueCache[..]) && Filled(q, calls, refs)
  {
    hide Mapped, AllStored, IsSchedule, Tokens.Valid, Layout.HeadElems, Inputs.Valid;
    ghost var p0 := p.(kc := keyCache[..], vc := valueCache[..]);
    CacheInCalls(LayoutOf(p), calls, keyCache, valueCache, numBlocks, schedules);
    q := p.(kc := keyCache[..], vc := valueCache[..]);
    StillValid(p0, q);
    forall s | 0 <= s < |refs|
      ensures Mapped(q, calls, s, refs[s])
    {
      SameMapping(p, q, calls, s, refs[s]);
    }
  }

  /** Caching the tokens of every sequence, over any number of calls that do not overwrite live ones, and then running
      the single-pass kernel gives the textbook attention over the original rows. */
  method CacheAndAttend(p: Inputs, calls: seq<Tokens<real>>, ghost refs: seq<seq<Ref>>, keyCache: array<real>,
                        valueCache: array<real>, numBlocks: nat, out: array<real>, exp: RealFn,
                        schedules: seq<seq<(nat, nat)>>, attend: seq<(nat, nat)>)
    requires p.(kc := keyCache[..], vc := valueCache[..]).Valid() && IsExp(exp)
    requires Cacheable(p, calls, refs, keyCache.Length, valueCache.Length, numBlocks, schedules)
    requires IsSchedule(attend, |p.seqLens|, p.numHeads) && |p.seqLens| * p.numHeads * p.headSize <= out.Length
    requires keyCache != valueCache && out != keyCache && out != valueCache
    modifies keyCache, valueCache, out
    ensures forall s: nat, h: nat :: s < |p.seqLens| && h < p.numHeads ==>
              Answered(p.(kc := keyCache[..], vc := valueCache[..]), calls, refs, exp, out[..], s, h)
  {
    hide AttentionRow, Answered, IsExp, IsSchedule, Cacheable, AllStored, Mapped, Inputs.Valid;
    var q := CacheTokens(p, calls, refs, keyCache, valueCache, numBlocks, schedules);
    PagedAttentionV1(q, out, exp, attend);
    forall s: nat, h: nat | s < |p.seqLens| && h < p.numHeads
      ensures Answered(q, calls, refs, exp, out[..], s, h)
    {
      AnsweredExactly(q, calls, refs, exp, out[..], s, h);
    }
    assert q == p.(kc := keyCache[..], vc := valueCache[..]);
  }

  /** Buffer sizes and schedules do not depend on the contents of the caches. */
  lemma SameShapes(p: Inputs, q: Inputs, b: V2.Buffers, mp: nat, items1: seq<V2.Item>, items3: seq<V2.Item>)
    requires q == p.(kc := q.kc, vc := q.vc) && V2.Fits(p, b, mp)
    requires V2.IsItemSchedule(p, mp, items1) && V2.IsItemSchedule(p, p.headSize / 16, items3)
    ensures V2.Fits(q, b, mp) && V2.IsItemSchedule(q, mp, items1) && V2.IsItemSchedule(q, q.headSize / 16, items3)
  {
    assert forall s :: 0 <= s < |q.seqLens| ==> V2.Parts(q, s) == V2.Parts(p, s);
  }

  /** The same with the partitioned kernel: exact for sequences of one partition, within 1e-8 of it otherwise. */
  method CacheAndAttendSplit(p: Inputs, calls: seq<Tokens<real>>, ghost refs: seq<seq<Ref>>, keyCache: array<real>,
                             valueCache: array<real>, numBlocks: nat, mp: nat, out: array<real>,
                             maxLogits: array<real>, expSums: array<real>, tmpOut: array<real>,
                             exp: RealFn, schedules: seq<seq<(nat, nat)>>,
                             items1: seq<V2.Item>, items2: seq<(nat, nat)>, items3: seq<V2.Item>)
    requires p.(kc := keyCache[..], vc := valueCache[..]).Valid() && IsExp(exp)
    requires Cacheable(p, calls, refs, keyCache.Length, valueCache.Length, numBlocks, schedules)
    requires V2.Fits(p, V2.Contents(out, maxLogits, expSums, tmpOut), mp)
    requires V2.IsItemSchedule(p, mp, items1) && IsSchedule(items2, |p.seqLens|, p.numHeads)
             && V2.IsItemSchedule(p, p.headSize / 16, items3)
    requires keyCache != valueCache && keyCache !in {out, maxLogits, expSums, tmpOut}
             && valueCache !in {out, maxLogits, expSums, tmpOut}
    requires maxLogits != expSums && maxLogits != tmpOut && expSums != tmpOut && out != maxLogits && out != expSums
             && out != tmpOut
    modifies keyCache, valueCache, out, maxLogits, expSums, tmpOut
    ensures forall s: nat, h: nat :: s < |p.seqLens| && h < p.numHeads ==>
              Approximated(p.(kc := keyCache[..], vc := valueCache[..]), calls, refs, exp, out[..], s, h)
  {
    hide Approximated, IsExp, IsSchedule, Cacheable, AllStored, Mapped, Inputs.Valid, V2.SplitRow;
    var q := CacheTokens(p, calls, refs, keyCache, valueCache, numBlocks, schedules);
    SameShapes(p, q, V2.Contents(out, maxLogits, expSums, tmpOut), mp, items1, items3);
    V2.PagedAttentionSplit(q, mp, out, maxLogits, expSums, tmpOut, exp, items1, items2, items3);
    forall s: nat, h: nat | s < |p.seqLens| && h < p.numHeads
      ensures Approximated(q, calls, refs, exp, out[..], s, h)
    {
      AnsweredClosely(q, calls, refs, exp, out[..], s, h);
    }
    assert q == p.(kc := keyCache[..], vc := valueCache[..]);
  }
}
