/** Which masked positions of a block a denoising step fills in. */
module Unmasking {
  import opened Wrappers

  /** A token chosen for an absolute position. */
  datatype Pick = Pick(pos: nat, token: int)

  /** What the model predicts for a block: a token and its confidence per position, and the threshold to beat. */
  datatype Prediction = Prediction(tokens: seq<int>, confidence: seq<real>, threshold: real) {
    predicate Fits(d: nat) {
      |tokens| == d && |confidence| == d
    }
  }

  /** Masked positions below n whose confidence beats the threshold, ascending. */
  function Selected(block: seq<int>, mask: int, p: Prediction, n: nat): seq<nat>
    requires p.Fits(|block|) && n <= |block|
  {
    if n == 0 then [] else
    Selected(block, mask, p, n - 1) + if block[n - 1] == mask && p.confidence[n - 1] > p.threshold then [n - 1] else []
  }

  /** The first masked position below n with the highest confidence. */
  function Best(block: seq<int>, mask: int, p: Prediction, n: nat): Option<nat>
    requires p.Fits(|block|) && n <= |block|
  {
    if n == 0 then None else
    match Best(block, mask, p, n - 1)
    case None => if block[n - 1] == mask then Some(n - 1) else None
    case Some(b) => if block[n - 1] == mask && b < |block| && p.confidence[n - 1] > p.confidence[b] then Some(n - 1)
                      else Some(b)
  }

  /** Positions to fill in: those that beat the threshold, or else the best one. */
  function Chosen(block: seq<int>, mask: int, p: Prediction): seq<nat>
    requires p.Fits(|block|)
  {
    var s := Selected(block, mask, p, |block|);
    if s != [] then s
    else match Best(block, mask, p, |block|)
         case None => []
         case Some(b) => [b]
  }

  lemma {:induction false} SelectedAre(block: seq<int>, mask: int, p: Prediction, n: nat)
    requires p.Fits(|block|) && n <= |block|
    ensures forall k :: 0 <= k < |Selected(block, mask, p, n)| ==> Selected(block, mask, p, n)[k] < n
    ensures forall j, k :: 0 <= j < k < |Selected(block, mask, p, n)| ==>
              Selected(block, mask, p, n)[j] < Selected(block, mask, p, n)[k]
    ensures forall i: nat :: i in Selected(block, mask, p, n) <==>
              i < n && block[i] == mask && p.confidence[i] > p.threshold
  {
    if n > 0 {
      SelectedAre(block, mask, p, n - 1);
    }
  }

  /** Position b is at least as confident as i, and earlier if they are equally so. */
  predicate Outranks(p: Prediction, b: nat, i: nat)
    requires b < |p.confidence| && i < |p.confidence|
  {
    p.confidence[b] > p.confidence[i] || (p.confidence[b] == p.confidence[i] && b <= i)
  }

  lemma {:induction false} BestIs(block: seq<int>, mask: int, p: Prediction, n: nat)
    requires p.Fits(|block|) && n <= |block|
    ensures Best(block, mask, p, n).None? <==> forall i :: 0 <= i < n ==> block[i] != mask
    ensures match Best(block, mask, p, n)
            case None => true
            case Some(b) => b < n && block[b] == mask && forall i :: 0 <= i < n && block[i] == mask ==>
                                                           Outranks(p, b, i)
  {
    if n > 0 {
      BestIs(block, mask, p, n - 1);
    }
  }

  ghost predicate Increasing(s: seq<nat>) {
    forall j, k :: 0 <= j < k < |s| ==> s[j] < s[k]
  }

  /** Distinct masked positions of the block are filled in, at least one if any is left: exactly those that
      beat the threshold if there are such, and otherwise the first of the most confident ones. */
  lemma ChosenAre(block: seq<int>, mask: int, p: Prediction)
    requires p.Fits(|block|)
    ensures var c := Chosen(block, mask, p);
            && Increasing(c) && (forall i :: i in c ==> i < |block| && block[i] == mask)
            && (c == [] <==> forall i :: 0 <= i < |block| ==> block[i] != mask)
            && (if exists i :: 0 <= i < |block| && block[i] == mask && p.confidence[i] > p.threshold
                then forall i: nat :: i in c <==> i < |block| && block[i] == mask && p.confidence[i] > p.threshold
                else |c| <= 1 && forall b, i :: b in c && 0 <= i < |block| && block[i] == mask ==> Outranks(p, b, i))
  {
    hide Selected, Best;
    SelectedAre(block, mask, p, |block|);
    BestIs(block, mask, p, |block|);
    var s := Selected(block, mask, p, |block|);
    assert s != [] ==> s[0] in s;
    if exists i :: 0 <= i < |block| && block[i] == mask && p.confidence[i] > p.threshold {
      var i :| 0 <= i < |block| && block[i] == mask && p.confidence[i] > p.threshold;
      assert i in s;
    }
  }

  /** The picks for the block that starts at the given position. */
  function Picks(block: seq<int>, mask: int, p: Prediction, start: nat): (r: seq<Pick>)
    requires p.Fits(|block|)
    ensures |r| == |Chosen(block, mask, p)|
  {
    var c := Chosen(block, mask, p);
    ChosenAre(block, mask, p);
    assert forall k :: 0 <= k < |c| ==> c[k] in c;
    seq(|c|, k requires 0 <= k < |c| => Pick(start + c[k], p.tokens[c[k]]))
  }

  /** Picks hit distinct masked positions of the block. */
  ghost predicate HitsMasks(picks: seq<Pick>, s: seq<int>, mask: int, lo: nat, hi: nat) {
    && hi <= |s|
    && (forall k :: 0 <= k < |picks| ==> lo <= picks[k].pos < hi && s[picks[k].pos] == mask)
    && (forall j, k :: 0 <= j < k < |picks| ==> picks[j].pos != picks[k].pos)
  }

  lemma PicksHit(s: seq<int>, lo: nat, hi: nat, mask: int, p: Prediction)
    requires lo <= hi <= |s| && p.Fits(hi - lo)
    ensures var picks := Picks(s[lo..hi], mask, p, lo);
            && HitsMasks(picks, s, mask, lo, hi)
            && (picks == [] <==> forall i :: lo <= i < hi ==> s[i] != mask)
  {
    hide Chosen, Picks, HitsMasks;
    var block := s[lo..hi];
    BlockPicksAre(block, mask, p, lo);
    ChosenAre(block, mask, p);
    BlockHits(s, lo, hi, mask, Chosen(block, mask, p), Picks(block, mask, p, lo));
    assert forall i :: lo <= i < hi ==> s[i] == block[i - lo];
  }

  /** Every pick carries the token that was predicted for its own position. */
  lemma BlockPicksAre(block: seq<int>, mask: int, p: Prediction, start: nat)
    requires p.Fits(|block|)
    ensures var picks, c := Picks(block, mask, p, start), Chosen(block, mask, p);
            forall k :: 0 <= k < |c| ==>
              picks[k].pos == start + c[k] && c[k] < |block| && picks[k].token == p.tokens[picks[k].pos - start]
  {
    ChosenAre(block, mask, p);
    var c := Chosen(block, mask, p);
    hide Chosen;
    forall k | 0 <= k < |c|
      ensures c[k] < |block|
    {
      assert c[k] in c;
    }
  }

  lemma BlockHits(s: seq<int>, lo: nat, hi: nat, mask: int, c: seq<nat>, picks: seq<Pick>)
    requires lo <= hi <= |s| && |picks| == |c| && Increasing(c)
    requires forall i :: i in c ==> i < hi - lo && s[lo..hi][i] == mask
    requires forall k :: 0 <= k < |c| ==> picks[k].pos == lo + c[k]
    ensures HitsMasks(picks, s, mask, lo, hi)
  {
    forall k | 0 <= k < |c|
      ensures c[k] < hi - lo && s[lo + c[k]] == mask
    {
      assert c[k] in c;
    }
  }
}

/** Token buffers: writing picks, and counting the masks that are left. */
module TokenBuffers {
  import opened Unmasking

  /** Every pick, moved down by shift, lies within n tokens. */
  predicate InBounds(picks: seq<Pick>, shift: nat, n: nat) {
    forall k :: 0 <= k < |picks| ==> shift <= picks[k].pos < n + shift
  }

  /** The tokens after each pick has been stored, in order, at its position less shift. */
  function Write(s: seq<int>, picks: seq<Pick>, shift: nat): (r: seq<int>)
    requires InBounds(picks, shift, |s|)
    ensures |r| == |s|
  {
    if picks == [] then s else
    var n := |picks| - 1;
    Write(s, picks[..n], shift)[picks[n].pos - shift := picks[n].token]
  }

  lemma WriteOne(s: seq<int>, picks: seq<Pick>, shift: nat)
    requires |picks| == 1 && InBounds(picks, shift, |s|)
    ensures Write(s, picks, shift) == s[picks[0].pos - shift := picks[0].token]
  {
    assert picks[..0] == [];
    assert Write(s, picks[..0], shift) == s;
  }

  lemma {:induction false} WriteAppend(s: seq<int>, a: seq<Pick>, b: seq<Pick>, shift: nat)
    requires InBounds(a + b, shift, |s|)
    ensures InBounds(a, shift, |s|) && InBounds(b, shift, |s|)
    ensures Write(s, a + b, shift) == Write(Write(s, a, shift), b, shift)
    decreases |b|
  {
    assert forall k :: 0 <= k < |a| ==> (a + b)[k] == a[k];
    assert forall k :: 0 <= k < |b| ==> (a + b)[|a| + k] == b[k];
    if b == [] {
      assert a + b == a;
    } else {
      var n := |b| - 1;
      assert (a + b)[..|a| + n] == a + b[..n];
      WriteAppend(s, a, b[..n], shift);
    }
  }

  /** A position that is not picked keeps its token. */
  lemma {:induction false} WriteElsewhere(s: seq<int>, picks: seq<Pick>, shift: nat, i: nat)
    requires InBounds(picks, shift, |s|) && i < |s| && forall k :: 0 <= k < |picks| ==> picks[k].pos != i + shift
    ensures Write(s, picks, shift)[i] == s[i]
  {
    if picks != [] {
      WriteElsewhere(s, picks[..|picks| - 1], shift, i);
    }
  }

  /** A picked position holds the token of its pick, if no other pick goes there. */
  lemma {:induction false} WriteHits(s: seq<int>, picks: seq<Pick>, shift: nat, k: nat)
    requires InBounds(picks, shift, |s|) && k < |picks|
    requires forall i, j :: 0 <= i < j < |picks| ==> picks[i].pos != picks[j].pos
    ensures Write(s, picks, shift)[picks[k].pos - shift] == picks[k].token
    decreases |picks|
  {
    if k < |picks| - 1 {
      WriteHits(s, picks[..|picks| - 1], shift, k);
    }
  }

  lemma WriteSlice(s: seq<int>, picks: seq<Pick>, lo: nat, hi: nat)
    requires InBounds(picks, 0, |s|) && lo <= hi <= |s| && forall k :: 0 <= k < |picks| ==> !(lo <= picks[k].pos < hi)
    ensures Write(s, picks, 0)[lo..hi] == s[lo..hi]
  {
    forall i | lo <= i < hi
      ensures Write(s, picks, 0)[i] == s[i]
    {
      WriteElsewhere(s, picks, 0, i);
    }
  }

  function One(b: bool): nat {
    if b then 1 else 0
  }

  /** Number of mask tokens in s. */
  function Masks(s: seq<int>, mask: int): nat {
    if s == [] then 0 else Masks(s[..|s| - 1], mask) + One(s[|s| - 1] == mask)
  }

  /** Number of picks that fill in the mask token itself. */
  function Slips(picks: seq<Pick>, mask: int): (n: nat)
    ensures n <= |picks|
  {
    if picks == [] then 0 else Slips(picks[..|picks| - 1], mask) + One(picks[|picks| - 1].token == mask)
  }

  lemma {:induction false} MasksUpdate(s: seq<int>, mask: int, i: nat, t: int)
    requires i < |s|
    ensures Masks(s[i := t], mask) + One(s[i] == mask) == Masks(s, mask) + One(t == mask)
  {
    var n := |s| - 1;
    if i < n {
      MasksUpdate(s[..n], mask, i, t);
      assert s[i := t][..n] == s[..n][i := t];
    } else {
      assert s[i := t][..n] == s[..n];
    }
  }


  lemma {:induction false} NoMasks(s: seq<int>, mask: int)
    ensures Masks(s, mask) == 0 <==> mask !in s
    ensures Masks(s, mask) <= |s|
    ensures (forall i :: 0 <= i < |s| ==> s[i] == mask) ==> Masks(s, mask) == |s|
  {
    if s != [] {
      NoMasks(s[..|s| - 1], mask);
      assert s == s[..|s| - 1] + [s[|s| - 1]];
    }
  }

  /** Filling in distinct masked positions removes one mask per pick, except for those that fill in the mask itself. */
  lemma {:induction false} WriteMasks(s: seq<int>, picks: seq<Pick>, mask: int, lo: nat, hi: nat)
    requires HitsMasks(picks, s, mask, lo, hi) && InBounds(picks, 0, |s|) && lo <= hi
    ensures Masks(Write(s, picks, 0)[lo..hi], mask) + |picks| == Masks(s[lo..hi], mask) + Slips(picks, mask)
  {
    hide Masks;
    if picks != [] {
      var n := |picks| - 1;
      var before, i := Write(s, picks[..n], 0), picks[n].pos;
      WriteMasks(s, picks[..n], mask, lo, hi);
      WriteElsewhere(s, picks[..n], 0, i);
      MasksUpdate(before[lo..hi], mask, i - lo, picks[n].token);
      assert before[i := picks[n].token][lo..hi] == before[lo..hi][i - lo := picks[n].token];
    }
  }

  /** There are never more picks than masks. */
  lemma PicksWithinMasks(s: seq<int>, picks: seq<Pick>, mask: int, lo: nat, hi: nat)
    requires HitsMasks(picks, s, mask, lo, hi) && lo <= hi
    ensures |picks| <= Masks(s[lo..hi], mask)
  {
    var other := seq(|picks|, k requires 0 <= k < |picks| => Pick(picks[k].pos, mask + 1));
    WriteMasks(s, other, mask, lo, hi);
    NoSlips(other, mask);
  }

  lemma {:induction false} SlipsAppend(a: seq<Pick>, b: seq<Pick>, mask: int)
    ensures Slips(a + b, mask) == Slips(a, mask) + Slips(b, mask)
    decreases |b|
  {
    if b == [] {
      assert a + b == a;
    } else {
      assert (a + b)[..|a + b| - 1] == a + b[..|b| - 1];
      SlipsAppend(a, b[..|b| - 1], mask);
    }
  }

  lemma {:induction false} NoSlips(picks: seq<Pick>, mask: int)
    ensures Slips(picks, mask) == 0 <==> forall k :: 0 <= k < |picks| ==> picks[k].token != mask
  {
    if picks != [] {
      NoSlips(picks[..|picks| - 1], mask);
      assert forall k :: 0 <= k < |picks| - 1 ==> picks[..|picks| - 1][k] == picks[k];
    }
  }
}

/** Block-wise denoising of one request: the scheduler's view, the worker's tokens and the front end's copy. */
module BlockDiffusion {
  import opened Unmasking
  import opened TokenBuffers

  datatype Result<T> = Ok(value: T) | AssertionFailed

  /** The scheduler's record of a request. */
  datatype Record = Record(prompt: seq<int>, mask: int, outputLength: nat, d: nat, unmasked: seq<Pick>, all: seq<int>,
                           curBlock: nat, blockStart: nat, blockUnmasked: nat, ran: nat, blockRan: nat)
  {
    function StartOfNewBlock(): bool {
      blockUnmasked == 0
    }

    /** All output tokens have been filled in. */
    function Stopped(): bool {
      |unmasked| == outputLength
    }

    function RecomputeStepsLeft(): int
      requires d > 0
    {
      outputLength / d - curBlock - One(!StartOfNewBlock())
    }

    predicate InBlock(picks: seq<Pick>) {
      forall k :: 0 <= k < |picks| ==> blockStart <= picks[k].pos < blockStart + d
    }
  }

  function Blank(prompt: seq<int>, mask: int, n: nat): seq<int> {
    prompt + seq(n, i => mask)
  }

  /** A new request. Without a block size of its own, the whole output is one block. */
  function NewRecord(prompt: seq<int>, mask: int, outputLength: nat, blockSize: int): Result<Record>
    requires outputLength > 0
  {
    var d: nat := if blockSize > 0 then blockSize else outputLength;
    if outputLength % d != 0 then AssertionFailed
    else Ok(Record(prompt, mask, outputLength, d, [], Blank(prompt, mask, outputLength), 0, |prompt|, 0, 0, 0))
  }

  /** The record after a step. A token for position pos is stored at pos less the length of the prompt. */
  function Update(r: Record, picks: seq<Pick>): Result<Record>
    requires |r.prompt| <= r.blockStart
  {
    var count := r.blockUnmasked + |picks|;
    if count > r.d || !r.InBlock(picks) || !InBounds(picks, |r.prompt|, |r.all|) then AssertionFailed
    else
      var r' := r.(unmasked := r.unmasked + picks, all := Write(r.all, picks, |r.prompt|), ran := r.ran + 1);
      Ok(if count == r.d then r'.(curBlock := r.curBlock + 1, blockStart := r.blockStart + r.d, blockUnmasked := 0,
           blockRan := 0)
         else r'.(blockUnmasked := count, blockRan := r.blockRan + 1))
  }

  /** The scheduler's mutable record. */
  class Request {
    const promptTokenIds: seq<int>
    const maskTokenId: int
    const outputLength: nat
    const denoiseBlockSize: nat
    var unmaskedTokenIds: seq<Pick>
    var allTokenIds: seq<int>
    var curBlock: nat
    var curBlockStart: nat
    var curBlockNumUnmaskedTokens: nat
    var numDenoiseRan: nat
    var curBlockDenoiseRan: nat

    ghost function View(): Record
      reads this
    {
      Record(promptTokenIds, maskTokenId, outputLength, denoiseBlockSize, unmaskedTokenIds, allTokenIds,
             curBlock, curBlockStart, curBlockNumUnmaskedTokens, numDenoiseRan, curBlockDenoiseRan)
    }

    constructor (prompt: seq<int>, mask: int, outLength: nat, blockSize: int)
      requires NewRecord.requires(prompt, mask, outLength, blockSize)
               && NewRecord(prompt, mask, outLength, blockSize).Ok?
      ensures View() == NewRecord(prompt, mask, outLength, blockSize).value
    {
      promptTokenIds, maskTokenId, outputLength := prompt, mask, outLength;
      denoiseBlockSize := if blockSize > 0 then blockSize else outLength;
      unmaskedTokenIds, allTokenIds := [], Blank(prompt, mask, outLength);
      curBlock, curBlockStart, curBlockNumUnmaskedTokens := 0, |prompt|, 0;
      numDenoiseRan, curBlockDenoiseRan := 0, 0;
    }

    /** Records the tokens of a step; ok is false when one of the source's assertions fails. */
    method UpdateFromOutput(picks: seq<Pick>) returns (ok: bool)
      requires |promptTokenIds| <= curBlockStart && curBlockStart + denoiseBlockSize <= |promptTokenIds| + |allTokenIds|
      modifies this
      ensures ok <==> Update(old(View()), picks).Ok?
      ensures ok ==> View() == Update(old(View()), picks).value
    {
      unmaskedTokenIds := unmaskedTokenIds + picks;
      curBlockNumUnmaskedTokens := curBlockNumUnmaskedTokens + |picks|;
      if curBlockNumUnmaskedTokens > denoiseBlockSize {
        return false;
      }
      numDenoiseRan, curBlockDenoiseRan := numDenoiseRan + 1, curBlockDenoiseRan + 1;
      var oldStart := curBlockStart;
      if curBlockNumUnmaskedTokens == denoiseBlockSize {
        curBlock, curBlockStart := curBlock + 1, curBlockStart + denoiseBlockSize;
        curBlockNumUnmaskedTokens, curBlockDenoiseRan := 0, 0;
      }
      for k := 0 to |picks|
        modifies `allTokenIds
        invariant |allTokenIds| == |old(allTokenIds)|
        invariant forall j :: 0 <= j < k ==> oldStart <= picks[j].pos < oldStart + denoiseBlockSize
        invariant InBounds(picks[..k], |promptTokenIds|, |allTokenIds|)
        invariant allTokenIds == Write(old(allTokenIds), picks[..k], |promptTokenIds|)
      {
        if !(oldStart <= picks[k].pos < oldStart + denoiseBlockSize) {
          return false;
        }
        assert picks[..k + 1][..k] == picks[..k];
        allTokenIds := allTokenIds[picks[k].pos - |promptTokenIds| := picks[k].token];
      }
      assert picks[..|picks|] == picks;
      return true;
    }
  }

  /** The front end's copy: output tokens by position, and how many have been filled in. */
  datatype Front = Front(tokens: seq<int>, count: nat)

  /** The copy after one token for an absolute position; positions outside the output are ignored,
      and a position counts only if it held the mask. */
  function Receive(f: Front, p: Pick, shift: nat, mask: int): Front {
    if shift <= p.pos < shift + |f.tokens| then
      Front(f.tokens[p.pos - shift := p.token], f.count + One(f.tokens[p.pos - shift] == mask))
    else f
  }

  function ReceiveAll(f: Front, picks: seq<Pick>, shift: nat, mask: int): (r: Front)
    ensures |r.tokens| == |f.tokens|
  {
    if picks == [] then f
      else Receive(ReceiveAll(f, picks[..|picks| - 1], shift, mask), picks[|picks| - 1], shift, mask)
  }

  /** The front end's detokenizer. */
  class Detokenizer {
    const promptLength: nat
    const outputLength: nat
    const maskTokenId: int
    var tokenIds: seq<int>
    var numUnmaskedTokens: nat

    ghost function View(): Front
      reads this
    {
      Front(tokenIds, numUnmaskedTokens)
    }

    constructor (promptLength: nat, outputLength: nat, mask: int)
      ensures this.promptLength == promptLength && this.outputLength == outputLength && maskTokenId == mask
      ensures View() == Front(seq(outputLength, i => mask), 0)
    {
      this.promptLength, this.outputLength, maskTokenId := promptLength, outputLength, mask;
      tokenIds, numUnmaskedTokens := seq(outputLength, i => mask), 0;
    }

    /** Takes over new tokens; reports whether the text is now complete and can be decoded. */
    method Update(picks: seq<Pick>) returns (complete: bool)
      requires |tokenIds| == outputLength
      modifies this
      ensures View() == ReceiveAll(old(View()), picks, promptLength, maskTokenId)
      ensures complete <==> picks != [] && numUnmaskedTokens == outputLength
    {
      if picks == [] {
        return false;
      }
      for k := 0 to |picks|
        invariant |tokenIds| == outputLength && View() == ReceiveAll(old(View()), picks[..k], promptLength, maskTokenId)
      {
        assert picks[..k + 1][..k] == picks[..k];
        var pos := picks[k].pos - promptLength;
        if 0 <= pos < outputLength {
          if tokenIds[pos] == maskTokenId {
            numUnmaskedTokens := numUnmaskedTokens + 1;
          }
          tokenIds := tokenIds[pos := picks[k].token];
        }
      }
      assert picks[..|picks|] == picks;
      return numUnmaskedTokens == outputLength;
    }
  }
}

/** Runs of denoising steps over the scheduler, the worker and the front end. */
module Denoising {
  import opened Unmasking
  import opened TokenBuffers
  import opened BlockDiffusion
  import opened Radix

  /** The three parties, and what the run has counted: picks of the mask token, overall and in the current block,
      and steps that ran at the start of a block. */
  datatype System = System(rec: Record, buffer: seq<int>, front: Front, slips: nat, blockSlips: nat, recomputes: nat) {
    function Block(): seq<int>
      requires rec.blockStart + rec.d <= |buffer|
    {
      buffer[rec.blockStart..rec.blockStart + rec.d]
    }
  }

  function Start(rec: Record): System {
    System(rec, rec.all, Front(seq(rec.outputLength, i => rec.mask), 0), 0, 0, 0)
  }

  /** Blocks are finished from left to right, and the counters say how far. */
  ghost predicate Progress(y: System) {
    var r := y.rec;
    && r.d > 0 && r.outputLength > 0 && r.outputLength % r.d == 0 && r.curBlock <= r.outputLength / r.d
    && r.blockStart == |r.prompt| + RowStart(r.curBlock, r.d)
    && |r.unmasked| == RowStart(r.curBlock, r.d) + r.blockUnmasked
    && r.blockUnmasked < r.d && (r.curBlock == r.outputLength / r.d ==> r.blockUnmasked == 0)
    && y.recomputes == r.curBlock + One(!r.StartOfNewBlock()) && r.curBlock <= r.ran <= |r.unmasked|
    && (r.blockRan == 0 <==> r.blockUnmasked == 0) && r.blockRan <= r.blockUnmasked && r.blockRan <= r.ran
  }

  /** The worker's tokens are the prompt and the picks at their positions; the front end agrees on the output. */
  ghost predicate Texts(y: System) {
    var r, p := y.rec, |y.rec.prompt|;
    && |y.buffer| == |r.all| == p + r.outputLength && y.buffer[..p] == r.prompt
    && y.front == Front(y.buffer[p..], |r.unmasked|)
    && InBounds(r.unmasked, p, r.outputLength)
    && y.buffer == Write(Blank(r.prompt, r.mask, r.outputLength), r.unmasked, 0)
    && r.all == Write(Blank(r.prompt, r.mask, r.outputLength), r.unmasked, p)
  }

  /** Masks are conserved: every pick removes one, except picks of the mask token. */
  ghost predicate Conserved(y: System)
    requires Texts(y) && Progress(y)
  {
    var r := y.rec;
    && Masks(y.buffer[|r.prompt|..], r.mask) + |r.unmasked| == r.outputLength + y.slips
    && y.blockSlips <= y.slips == Slips(r.unmasked, r.mask)
    && (r.curBlock < r.outputLength / r.d ==>
          && r.blockStart + r.d <= |y.buffer|
          && Masks(y.Block(), r.mask) + r.blockUnmasked == r.d + y.blockSlips
          && forall i :: r.blockStart + r.d <= i < |y.buffer| ==> y.buffer[i] == r.mask)
  }

  ghost predicate Inv(y: System) {
    Progress(y) && Texts(y) && Conserved(y)
  }

  /** A block that is left lies within the output. */
  lemma BlockFits(c: nat, n: nat, d: nat)
    requires d > 0 && n % d == 0 && c <= n / d
    ensures RowStart(c, d) <= n && (c < n / d ==> RowStart(c, d) + d <= n && RowStart(c + 1, d) == RowStart(c, d) + d)
    ensures c == n / d <==> RowStart(c, d) == n
  {
    assert n == (n / d) * d;
    if c < n / d {
      RowBound(c, n / d, d);
    }
  }

  predicate Possible(y: System, p: Prediction) {
    !y.rec.Stopped() && p.Fits(y.rec.d)
  }

  /** The request stops exactly when all blocks are finished. */
  lemma StopsAfterLastBlock(y: System)
    requires Progress(y)
    ensures y.rec.Stopped() <==> y.rec.curBlock == y.rec.outputLength / y.rec.d
    ensures |y.rec.unmasked| <= y.rec.outputLength
  {
    hide RowStart;
    BlockFits(y.rec.curBlock, y.rec.outputLength, y.rec.d);
  }

  /** The picks of the worker for the current block. */
  function StepPicks(y: System, p: Prediction): seq<Pick>
    requires p.Fits(y.rec.d) && y.rec.blockStart + y.rec.d <= |y.buffer|
  {
    Picks(y.Block(), y.rec.mask, p, y.rec.blockStart)
  }

  function Step(y: System, p: Prediction): Result<System>
    requires p.Fits(y.rec.d) && y.rec.blockStart + y.rec.d <= |y.buffer| && |y.rec.prompt| <= y.rec.blockStart
  {
    var r, picks := y.rec, StepPicks(y, p);
    PicksHit(y.buffer, r.blockStart, r.blockStart + r.d, r.mask, p);
    match Update(r, picks)
    case AssertionFailed => AssertionFailed
    case Ok(r') =>
      var slips := Slips(picks, r.mask);
      Ok(System(r', Write(y.buffer, picks, 0), ReceiveAll(y.front, picks, |r.prompt|, r.mask), y.slips + slips,
                if r'.curBlock == r.curBlock then y.blockSlips + slips else 0, y.recomputes + One(r.StartOfNewBlock())))
  }

  lemma StepIsDefined(y: System, p: Prediction)
    requires Progress(y) && |y.buffer| == |y.rec.prompt| + y.rec.outputLength && Possible(y, p)
    ensures y.rec.blockStart + y.rec.d <= |y.buffer| && |y.rec.prompt| <= y.rec.blockStart
            && y.rec.curBlock < y.rec.outputLength / y.rec.d
  {
    hide RowStart;
    StopsAfterLastBlock(y);
    BlockFits(y.rec.curBlock, y.rec.outputLength, y.rec.d);
  }

  /** Every step fills in at least one position, each a distinct masked one of the current block. */
  lemma StepFillsIn(y: System, p: Prediction)
    requires Inv(y) && Possible(y, p)
    ensures y.rec.blockStart + y.rec.d <= |y.buffer|
    ensures var picks := StepPicks(y, p);
            && |picks| > 0 && HitsMasks(picks, y.buffer, y.rec.mask, y.rec.blockStart, y.rec.blockStart + y.rec.d)
            && |picks| + y.rec.blockUnmasked <= y.rec.d + y.blockSlips
  {
    hide Inv, Picks, Masks, HitsMasks;
    OpenBlock(y, p);
    BlockPicks(y.buffer, y.rec.blockStart, y.rec.blockStart + y.rec.d, y.rec.mask, p, y.rec.blockUnmasked,
      y.blockSlips);
  }

  /** The current block of an unfinished request, and the masks left in it. */
  lemma OpenBlock(y: System, p: Prediction)
    requires Inv(y) && Possible(y, p)
    ensures y.rec.blockStart + y.rec.d <= |y.buffer| && y.rec.blockUnmasked < y.rec.d
    ensures Masks(y.Block(), y.rec.mask) + y.rec.blockUnmasked == y.rec.d + y.blockSlips
  {
    hide Texts, RowStart, Masks;
    assert |y.buffer| == |y.rec.prompt| + y.rec.outputLength by { BufferLength(y); }
    StepIsDefined(y, p);
  }

  lemma BufferLength(y: System)
    requires Texts(y)
    ensures |y.buffer| == |y.rec.prompt| + y.rec.outputLength
  {
  }

  lemma BlockPicks(s: seq<int>, lo: nat, hi: nat, mask: int, p: Prediction, unmasked: nat, slips: nat)
    requires lo <= hi <= |s| && p.Fits(hi - lo) && Masks(s[lo..hi], mask) + unmasked == hi - lo + slips
             && unmasked < hi - lo
    ensures var picks := Picks(s[lo..hi], mask, p, lo);
            |picks| > 0 && HitsMasks(picks, s, mask, lo, hi) && |picks| + unmasked <= hi - lo + slips
  {
    hide Picks;
    PicksHit(s, lo, hi, mask, p);
    NoMasks(s[lo..hi], mask);
    hide Masks;
    PicksWithinMasks(s, Picks(s[lo..hi], mask, p, lo), mask, lo, hi);
    assert forall i :: lo <= i < hi ==> s[i] == s[lo..hi][i - lo];
  }

  lemma ProgressStep(y: System, p: Prediction)
    requires Progress(y) && p.Fits(y.rec.d) && y.rec.blockStart + y.rec.d <= |y.buffer|
             && |y.rec.prompt| <= y.rec.blockStart
    requires y.rec.curBlock < y.rec.outputLength / y.rec.d && Step(y, p).Ok? && |StepPicks(y, p)| > 0
    ensures Progress(Step(y, p).value)
  {
    hide RowStart, StepPicks, Write, ReceiveAll, Slips;
    BlockFits(y.rec.curBlock, y.rec.outputLength, y.rec.d);
  }

  /** The front end follows the worker, and counts every pick, since each fills in a masked position. */
  lemma {:induction false} FrontFollows(buffer: seq<int>, f: Front, picks: seq<Pick>, mask: int, p: nat)
    requires p <= |buffer| && f.tokens == buffer[p..] && HitsMasks(picks, buffer, mask, p, |buffer|)
             && InBounds(picks, 0, |buffer|)
    ensures ReceiveAll(f, picks, p, mask) == Front(Write(buffer, picks, 0)[p..], f.count + |picks|)
  {
    if picks != [] {
      var n := |picks| - 1;
      FrontFollows(buffer, f, picks[..n], mask, p);
      WriteElsewhere(buffer, picks[..n], 0, picks[n].pos);
      ReceiveHit(ReceiveAll(f, picks[..n], p, mask), Write(buffer, picks[..n], 0), picks[n], mask, p);
    }
  }

  /** The number of picks of the mask token that fall into the front end's output. */
  function MasksReceived(picks: seq<Pick>, shift: nat, n: nat, mask: int): nat {
    if picks == [] then 0 else
    var last := picks[|picks| - 1];
    MasksReceived(picks[..|picks| - 1], shift, n, mask) + One(shift <= last.pos < shift + n && last.token == mask)
  }

  /** Whatever arrives, in any order, repeatedly or outside the output: the tokens counted and the masks left go up
      together by the mask tokens received. So, as long as none is, the front end's count is complete exactly when no
      mask is left. */
  lemma {:induction false} FrontConserves(f: Front, picks: seq<Pick>, shift: nat, mask: int)
    ensures var r := ReceiveAll(f, picks, shift, mask);
            r.count + Masks(r.tokens, mask) ==
              f.count + Masks(f.tokens, mask) + MasksReceived(picks, shift, |f.tokens|, mask)
  {
    if picks != [] {
      var n := |picks| - 1;
      FrontConserves(f, picks[..n], shift, mask);
      hide Masks;
      var before, pick := ReceiveAll(f, picks[..n], shift, mask), picks[n];
      if shift <= pick.pos < shift + |before.tokens| {
        MasksUpdate(before.tokens, mask, pick.pos - shift, pick.token);
      }
    }
  }

  /** A new front end that has received no mask token counts its output as complete if and only if no mask is left. */
  lemma CompleteIff(n: nat, picks: seq<Pick>, shift: nat, mask: int)
    requires MasksReceived(picks, shift, n, mask) == 0
    ensures var r := ReceiveAll(Front(seq(n, i => mask), 0), picks, shift, mask);
            r.count == n <==> mask !in r.tokens
  {
    hide Masks, MasksReceived, ReceiveAll;
    var f := Front(seq(n, i => mask), 0);
    FrontConserves(f, picks, shift, mask);
    NoMasks(f.tokens, mask);
    NoMasks(ReceiveAll(f, picks, shift, mask).tokens, mask);
  }

  lemma ReceiveHit(f: Front, buffer: seq<int>, pick: Pick, mask: int, p: nat)
    requires p <= pick.pos < |buffer| && f.tokens == buffer[p..] && buffer[pick.pos] == mask
    ensures Receive(f, pick, p, mask) == Front(buffer[pick.pos := pick.token][p..], f.count + 1)
  {
    assert buffer[pick.pos := pick.token][p..] == buffer[p..][pick.pos - p := pick.token];
  }

  /** The fields that texts depend on, after some picks. */
  lemma TextsStep(y: System, p: Prediction)
    requires Progress(y) && Texts(y) && p.Fits(y.rec.d) && y.rec.blockStart + y.rec.d <= |y.buffer|
             && |y.rec.prompt| <= y.rec.blockStart
    requires Step(y, p).Ok?
             && HitsMasks(StepPicks(y, p), y.buffer, y.rec.mask, y.rec.blockStart, y.rec.blockStart + y.rec.d)
    ensures Texts(Step(y, p).value)
  {
    hide RowStart, Progress, StepPicks, Write, ReceiveAll, Slips, Blank;
    var r, picks, q := y.rec, StepPicks(y, p), |y.rec.prompt|;
    var blank := Blank(r.prompt, r.mask, r.outputLength);
    assert |blank| == q + r.outputLength by { BlankLength(r.prompt, r.mask, r.outputLength); }
    FrontFollows(y.buffer, y.front, picks, r.mask, q);
    WriteAppend(blank, r.unmasked, picks, 0);
    WriteAppend(blank, r.unmasked, picks, q);
    WriteSlice(y.buffer, picks, 0, q);
  }

  lemma BlankLength(prompt: seq<int>, mask: int, n: nat)
    ensures |Blank(prompt, mask, n)| == |prompt| + n
  {
  }

  lemma ConservedStep(y: System, p: Prediction)
    requires Inv(y) && Possible(y, p) && y.rec.blockStart + y.rec.d <= |y.buffer| && |y.rec.prompt| <= y.rec.blockStart
    requires y.rec.curBlock < y.rec.outputLength / y.rec.d && Step(y, p).Ok?
    requires HitsMasks(StepPicks(y, p), y.buffer, y.rec.mask, y.rec.blockStart, y.rec.blockStart + y.rec.d)
    requires Progress(Step(y, p).value) && Texts(Step(y, p).value)
    ensures Conserved(Step(y, p).value)
  {
    hide RowStart, StepPicks, Write, ReceiveAll, Slips, Blank, Masks, HitsMasks, InBounds;
    var r, picks, y' := y.rec, StepPicks(y, p), Step(y, p).value;
    MasksAfter(y.buffer, picks, r.mask, |r.prompt|, r.blockStart, r.blockStart + r.d);
    SlipsAppend(r.unmasked, picks, r.mask);
    if y'.rec.curBlock != r.curBlock && y'.rec.curBlock < r.outputLength / r.d {
      BlockFits(y'.rec.curBlock, r.outputLength, r.d);
      NoMasks(y'.Block(), r.mask);
    }
  }

  /** Masks overall and in the block after a step, and everything behind the block unchanged. */
  lemma MasksAfter(s: seq<int>, picks: seq<Pick>, mask: int, q: nat, lo: nat, hi: nat)
    requires q <= lo <= hi <= |s| && HitsMasks(picks, s, mask, lo, hi)
    ensures InBounds(picks, 0, |s|)
    ensures var t := Write(s, picks, 0);
            && Masks(t[q..], mask) + |picks| == Masks(s[q..], mask) + Slips(picks, mask)
            && Masks(t[lo..hi], mask) + |picks| == Masks(s[lo..hi], mask) + Slips(picks, mask)
            && forall i :: hi <= i < |s| ==> t[i] == s[i]
  {
    hide Masks, Slips, Write;
    WriteMasks(s, picks, mask, q, |s|);
    WriteMasks(s, picks, mask, lo, hi);
    assert s[q..|s|] == s[q..] && Write(s, picks, 0)[q..|s|] == Write(s, picks, 0)[q..];
    forall i | hi <= i < |s|
      ensures Write(s, picks, 0)[i] == s[i]
    {
      WriteElsewhere(s, picks, 0, i);
    }
  }

  /** What a step does to the worker's tokens: a chosen position of the block gets the token that was predicted for it,
      and every other position keeps its own. */
  lemma StepWrites(y: System, p: Prediction, i: nat)
    requires Inv(y) && Possible(y, p) && i < |y.buffer|
    ensures y.rec.blockStart + y.rec.d <= |y.buffer| && |y.rec.prompt| <= y.rec.blockStart
    ensures Step(y, p).Ok? ==>
              |Step(y, p).value.buffer| == |y.buffer| &&
              Step(y, p).value.buffer[i] == if Fills(y, p, i) then p.tokens[i - y.rec.blockStart] else y.buffer[i]
  {
    hide Texts, Progress, Conserved, Picks, ReceiveAll, Slips, Write, Chosen, HitsMasks;
    StepKeepsInv(y, p);
    StepFillsIn(y, p);
    if Step(y, p).Ok? {
      PicksWrite(y.buffer, y.rec.blockStart, y.rec.d, y.rec.mask, p, StepPicks(y, p), i);
    }
  }

  /** The step chooses position i of the current block. */
  predicate Fills(y: System, p: Prediction, i: nat)
    requires p.Fits(y.rec.d) && y.rec.blockStart + y.rec.d <= |y.buffer|
  {
    y.rec.blockStart <= i < y.rec.blockStart + y.rec.d && i - y.rec.blockStart in Chosen(y.Block(), y.rec.mask, p)
  }

  lemma PicksWrite(s: seq<int>, start: nat, d: nat, mask: int, p: Prediction, picks: seq<Pick>, i: nat)
    requires start + d <= |s| && p.Fits(d) && picks == Picks(s[start..start + d], mask, p, start) && i < |s|
    requires HitsMasks(picks, s, mask, start, start + d)
    ensures InBounds(picks, 0, |s|)
    ensures Write(s, picks, 0)[i] ==
              if start <= i < start + d && i - start in Chosen(s[start..start + d], mask, p) then p.tokens[i - start]
              else s[i]
  {
    hide Chosen, Picks, Write;
    var c := Chosen(s[start..start + d], mask, p);
    BlockPicksAre(s[start..start + d], mask, p, start);
    if start <= i < start + d && i - start in c {
      var k :| 0 <= k < |c| && c[k] == i - start;
      WriteHits(s, picks, 0, k);
    } else {
      forall k | 0 <= k < |picks|
        ensures picks[k].pos != i
      {
        assert c[k] in c;
      }
      WriteElsewhere(s, picks, 0, i);
    }
  }

  /** Every step that does not fail keeps the invariant. */
  lemma StepKeepsInv(y: System, p: Prediction)
    requires Inv(y) && Possible(y, p)
    ensures y.rec.blockStart + y.rec.d <= |y.buffer| && |y.rec.prompt| <= y.rec.blockStart
    ensures Step(y, p).Ok? ==> Inv(Step(y, p).value)
  {
    hide Texts, Progress, Conserved, Step, StepPicks, Possible;
    StepFillsIn(y, p);
    BufferLength(y);
    StepIsDefined(y, p);
    FitsBlock(y, p);
    if Step(y, p).Ok? {
      ProgressStep(y, p);
      TextsStep(y, p);
      ConservedStep(y, p);
    }
  }

  lemma FitsBlock(y: System, p: Prediction)
    requires Possible(y, p)
    ensures p.Fits(y.rec.d)
  {
  }

  /** A step fails exactly when it fills in more positions than the block has left by the scheduler's count. */
  lemma FailsIff(y: System, p: Prediction)
    requires Inv(y) && Possible(y, p)
    ensures y.rec.blockStart + y.rec.d <= |y.buffer| && |y.rec.prompt| <= y.rec.blockStart
    ensures Step(y, p).AssertionFailed? <==> y.rec.blockUnmasked + |StepPicks(y, p)| > y.rec.d
  {
    StepKeepsInv(y, p);
    StepFillsIn(y, p);
    hide Progress, Conserved, StepPicks, Write, ReceiveAll, Slips;
  }

  /** With every confidence above the threshold, all masked positions are filled in. */
  lemma {:induction false} SelectsAll(block: seq<int>, mask: int, p: Prediction, n: nat)
    requires p.Fits(|block|) && n <= |block| && forall i :: 0 <= i < |block| ==> p.confidence[i] > p.threshold
    ensures |Selected(block, mask, p, n)| == Masks(block[..n], mask)
  {
    if n > 0 {
      SelectsAll(block, mask, p, n - 1);
      assert block[..n][..n - 1] == block[..n - 1];
    }
  }

  lemma ChoosesAll(block: seq<int>, mask: int, p: Prediction)
    requires p.Fits(|block|) && (forall i :: 0 <= i < |block| ==> p.confidence[i] > p.threshold)
             && Masks(block, mask) > 0
    ensures |Chosen(block, mask, p)| == Masks(block, mask)
  {
    SelectsAll(block, mask, p, |block|);
    assert block[..|block|] == block;
  }

  /** The scheduler's assertion on its counter can fail in the next step exactly when, within the current block,
      the model has predicted the mask token for a position that was filled in. */
  lemma CanFailIff(y: System)
    requires Inv(y) && !y.rec.Stopped()
    ensures y.rec.blockStart + y.rec.d <= |y.buffer| && |y.rec.prompt| <= y.rec.blockStart
    ensures (exists p: Prediction :: Possible(y, p) && Step(y, p).AssertionFailed?) <==> y.blockSlips > 0
  {
    var d := y.rec.d;
    var all := Prediction(seq(d, i => y.rec.mask), seq(d, i => 1.0), 0.0);
    hide Texts, Progress, Step, Masks, Chosen, RowStart;
    assert Possible(y, all);
    StepKeepsInv(y, all);
    forall p: Prediction | Possible(y, p)
      ensures Step(y, p).AssertionFailed? ==> y.blockSlips > 0
    {
      FailsIff(y, p);
      StepFillsIn(y, p);
    }
    if y.blockSlips > 0 {
      FailsIff(y, all);
      StepFillsIn(y, all);
      BlockIsCounted(y, all);
      ChoosesAll(y.Block(), y.rec.mask, all);
    }
  }

  lemma BlockIsCounted(y: System, p: Prediction)
    requires Inv(y) && Possible(y, p)
    ensures y.rec.blockStart + y.rec.d <= |y.buffer| && y.rec.blockUnmasked < y.rec.d
    ensures Masks(y.Block(), y.rec.mask) + y.rec.blockUnmasked == y.rec.d + y.blockSlips
  {
    hide Masks, RowStart, Write;
    StepIsDefined(y, p);
  }

  /** A run of steps that do not fail, and the state it leads to. */
  ghost predicate IsRun(y: System, ps: seq<Prediction>)
    requires Inv(y)
    decreases |ps|
  {
    ps != [] ==>
      && Possible(y, ps[0])
      && (StepKeepsInv(y, ps[0]); Step(y, ps[0]).Ok? && IsRun(Step(y, ps[0]).value, ps[1..]))
  }

  ghost function After(y: System, ps: seq<Prediction>): (r: System)
    requires Inv(y) && IsRun(y, ps)
    ensures Inv(r)
    decreases |ps|
  {
    if ps == [] then y else
    StepKeepsInv(y, ps[0]);
    After(Step(y, ps[0]).value, ps[1..])
  }

  /** A fresh request. */
  ghost predicate Fresh(r: Record) {
    && r.outputLength > 0 && r.d > 0 && r.outputLength % r.d == 0
    && r == Record(r.prompt, r.mask, r.outputLength, r.d, [], Blank(r.prompt, r.mask, r.outputLength), 0, |r.prompt|, 0,
       0, 0)
  }

  /** Creation fails exactly when a positive block size does not divide the output length. A new request is the given
      one, with all of its output in one block if no block size is given. */
  lemma NewIsFresh(prompt: seq<int>, mask: int, outputLength: nat, blockSize: int)
    requires outputLength > 0
    ensures NewRecord(prompt, mask, outputLength, blockSize).Ok? <==> blockSize <= 0 || outputLength % blockSize == 0
    ensures NewRecord(prompt, mask, outputLength, blockSize).Ok? ==>
              var r := NewRecord(prompt, mask, outputLength, blockSize).value;
              && Fresh(r) && r.prompt == prompt && r.mask == mask && r.outputLength == outputLength
              && (blockSize > 0 ==> r.d == blockSize) && (blockSize <= 0 ==> r.outputLength / r.d == 1)
              && Start(r).buffer[..|prompt|] == prompt && |Start(r).buffer| == |prompt| + outputLength
              && forall i :: |prompt| <= i < |prompt| + outputLength ==> Start(r).buffer[i] == mask
  {
    assert outputLength % outputLength == 0 && outputLength / outputLength == 1;
  }

  lemma StartInv(r: Record)
    requires Fresh(r)
    ensures Inv(Start(r))
  {
    var y := Start(r);
    BlockFits(0, r.outputLength, r.d);
    assert r.outputLength >= r.d && RowStart(0, r.d) == 0;
    assert y.buffer[|r.prompt|..] == seq(r.outputLength, i => r.mask);
    NoMasks(y.buffer[|r.prompt|..], r.mask);
    NoMasks(y.Block(), r.mask);
    hide Masks, RowStart;
  }

  lemma {:induction false} StepsAreCounted(y: System, ps: seq<Prediction>)
    requires Inv(y) && IsRun(y, ps)
    ensures After(y, ps).rec.ran == y.rec.ran + |ps| && SameRequest(After(y, ps).rec, y.rec)
    decreases |ps|
  {
    hide Inv, Write, ReceiveAll, Slips;
    if ps != [] {
      StepKeepsInv(y, ps[0]);
      StepsAreCounted(Step(y, ps[0]).value, ps[1..]);
    }
  }

  ghost predicate SameRequest(r: Record, s: Record) {
    r.prompt == s.prompt && r.mask == s.mask && r.outputLength == s.outputLength && r.d == s.d
  }

  /** A run of a fresh request, and the state it leads to. */
  ghost predicate Runs(r: Record, ps: seq<Prediction>)
    requires Fresh(r)
  {
    StartInv(r);
    IsRun(Start(r), ps)
  }

  ghost function Final(r: Record, ps: seq<Prediction>): (y: System)
    requires Fresh(r) && Runs(r, ps)
    ensures Inv(y)
  {
    StartInv(r);
    After(Start(r), ps)
  }

  /** In every run, whatever the model predicts: the prompt is kept; the front end has the worker's output and the
      scheduler's count; there are at most as many steps as output tokens; steps at the start of a block and those the
      scheduler still expects add up to the number of blocks; and when the request stops, a masked position is left
      for every time the mask token was filled in, so the output is complete exactly when that never happened. */
  lemma RunAccounts(r: Record, ps: seq<Prediction>)
    requires Fresh(r) && Runs(r, ps)
    ensures var y := Final(r, ps);
            && SameRequest(y.rec, r) && |y.buffer| == |r.prompt| + r.outputLength && y.buffer[..|r.prompt|] == r.prompt
            && y.front == Front(y.buffer[|r.prompt|..], |y.rec.unmasked|)
            && |ps| == y.rec.ran <= |y.rec.unmasked| <= r.outputLength
            && y.recomputes + y.rec.RecomputeStepsLeft() == r.outputLength / r.d && y.rec.RecomputeStepsLeft() >= 0
            && Masks(y.buffer[|r.prompt|..], r.mask) + |y.rec.unmasked| == r.outputLength +
               Slips(y.rec.unmasked, r.mask)
            && (y.rec.Stopped() ==>
               (r.mask !in y.buffer[|r.prompt|..] <==>
                 forall k :: 0 <= k < |y.rec.unmasked| ==> y.rec.unmasked[k].token != r.mask))
  {
    StartInv(r);
    hide Masks, Write, Slips, RowStart, IsRun, After, Blank;
    StepsAreCounted(Start(r), ps);
    var y := Final(r, ps);
    StopsAfterLastBlock(y);
    NoMasks(y.buffer[|r.prompt|..], r.mask);
    NoSlips(y.rec.unmasked, r.mask);
  }

  /** As long as the mask token is not predicted within the block, no step fails. */
  lemma HonestStep(y: System, p: Prediction)
    requires Inv(y) && Possible(y, p) && y.blockSlips == 0 && y.rec.mask !in p.tokens
    ensures y.rec.blockStart + y.rec.d <= |y.buffer| && |y.rec.prompt| <= y.rec.blockStart
    ensures Step(y, p).Ok? && Inv(Step(y, p).value)
    ensures var z := Step(y, p).value;
            z.slips == y.slips && z.blockSlips == 0 && |z.rec.unmasked| > |y.rec.unmasked| && SameRequest(z.rec, y.rec)
  {
    hide Texts, Progress, Masks, Write, ReceiveAll;
    FailsIff(y, p);
    StepFillsIn(y, p);
    StepKeepsInv(y, p);
    PicksComeFrom(y.Block(), y.rec.mask, p, y.rec.blockStart);
    NoSlips(StepPicks(y, p), y.rec.mask);
  }

  lemma PicksComeFrom(block: seq<int>, mask: int, p: Prediction, start: nat)
    requires p.Fits(|block|) && mask !in p.tokens
    ensures forall k :: 0 <= k < |Picks(block, mask, p, start)| ==> Picks(block, mask, p, start)[k].token != mask
  {
    var c := Chosen(block, mask, p);
    ChosenAre(block, mask, p);
    assert forall k :: 0 <= k < |c| ==> c[k] in c;
    hide Chosen;
    forall k | 0 <= k < |c|
      ensures c[k] < |p.tokens| && p.tokens[c[k]] != mask
    {
      assert p.tokens[c[k]] in p.tokens;
    }
  }

  /** Steps until the request stops, a step fails or the predictions run out. */
  ghost function Drive(y: System, ps: seq<Prediction>): Result<System>
    requires Inv(y) && forall k :: 0 <= k < |ps| ==> ps[k].Fits(y.rec.d)
    decreases |ps|
  {
    if ps == [] || y.rec.Stopped() then Ok(y) else
    StepKeepsInv(y, ps[0]);
    match Step(y, ps[0])
    case AssertionFailed => AssertionFailed
    case Ok(next) => Drive(next, ps[1..])
  }

  lemma {:induction false} HonestDrive(y: System, ps: seq<Prediction>)
    requires Inv(y) && y.blockSlips == 0
    requires forall k :: 0 <= k < |ps| ==> ps[k].Fits(y.rec.d) && y.rec.mask !in ps[k].tokens
    requires |ps| + |y.rec.unmasked| >= y.rec.outputLength
    ensures Drive(y, ps).Ok?
    ensures var z := Drive(y, ps).value; Inv(z) && z.rec.Stopped() && z.slips == y.slips && SameRequest(z.rec, y.rec)
    decreases |ps|
  {
    hide Texts, Conserved, Write, ReceiveAll, Slips, RowStart, StepPicks;
    StopsAfterLastBlock(y);
    if ps != [] && !y.rec.Stopped() {
      HonestStep(y, ps[0]);
      HonestDrive(Step(y, ps[0]).value, ps[1..]);
    }
  }

  /** What drives a request without a failure is a run of its first n predictions. */
  lemma {:induction false} DriveIsRun(y: System, ps: seq<Prediction>) returns (n: nat)
    requires Inv(y) && (forall k :: 0 <= k < |ps| ==> ps[k].Fits(y.rec.d)) && Drive(y, ps).Ok?
    ensures n <= |ps| && IsRun(y, ps[..n]) && After(y, ps[..n]) == Drive(y, ps).value
    decreases |ps|
  {
    hide Inv, Step;
    n := 0;
    assert IsRun(y, ps[..0]) && After(y, ps[..0]) == y;
    if ps != [] && !y.rec.Stopped() {
      StepKeepsInv(y, ps[0]);
      SameBlockSize(y, ps[0]);
      var m := DriveIsRun(Step(y, ps[0]).value, ps[1..]);
      n := m + 1;
      assert ps[..n][1..] == ps[1..][..m] && ps[..n][0] == ps[0];
    }
  }

  lemma SameBlockSize(y: System, p: Prediction)
    requires Inv(y) && Possible(y, p) && y.rec.blockStart + y.rec.d <= |y.buffer| && |y.rec.prompt| <= y.rec.blockStart
    ensures Step(y, p).Ok? ==> SameRequest(Step(y, p).value.rec, y.rec)
  {
    hide Inv, Write, ReceiveAll, Slips, StepPicks;
  }

  lemma {:induction false} PrefixIsRun(y: System, ps: seq<Prediction>, k: nat)
    requires Inv(y) && IsRun(y, ps) && k <= |ps|
    ensures IsRun(y, ps[..k]) && (k < |ps| ==> Possible(After(y, ps[..k]), ps[k]))
    decreases k
  {
    hide Inv, Step;
    if k > 0 {
      StepKeepsInv(y, ps[0]);
      PrefixIsRun(Step(y, ps[0]).value, ps[1..], k - 1);
      assert ps[..k][1..] == ps[1..][..k - 1] && ps[..k][0] == ps[0];
    } else {
      assert ps[..0] == [];
    }
  }

  /** Step k of the run fills in position i with the given token, which it predicts for that very position. */
  ghost predicate PredictedAt(y: System, ps: seq<Prediction>, i: nat, token: int, k: nat)
    requires Inv(y) && IsRun(y, ps)
  {
    && k < |ps|
    && (PrefixIsRun(y, ps, k);
        var before := After(y, ps[..k]);
        StepKeepsInv(before, ps[k]);
        Fills(before, ps[k], i) && ps[k].tokens[i - before.rec.blockStart] == token)
  }

  /** Some step of the run fills in position i with the given token, which it predicts for that very position. */
  ghost predicate Predicted(y: System, ps: seq<Prediction>, i: nat, token: int)
    requires Inv(y) && IsRun(y, ps)
  {
    exists k: nat :: PredictedAt(y, ps, i, token, k)
  }

  /** A token of the worker is the one it had before the run, or some step predicted it for its own position. */
  lemma {:induction false} Provenance(y: System, ps: seq<Prediction>, i: nat)
    requires Inv(y) && IsRun(y, ps) && i < |y.buffer|
    ensures var z := After(y, ps);
            |z.buffer| == |y.buffer| && (z.buffer[i] == y.buffer[i] || Predicted(y, ps, i, z.buffer[i]))
    decreases |ps|
  {
    hide Inv, Step, Fills;
    if ps != [] {
      StepKeepsInv(y, ps[0]);
      var z := Step(y, ps[0]).value;
      StepWrites(y, ps[0], i);
      Provenance(z, ps[1..], i);
      var token := After(z, ps[1..]).buffer[i];
      if token == z.buffer[i] {
        FirstStepPredicts(y, ps, i, token);
      } else {
        var k: nat :| PredictedAt(z, ps[1..], i, token, k);
        LaterStepPredicts(y, ps, i, token, k);
      }
    }
  }

  lemma FirstStepPredicts(y: System, ps: seq<Prediction>, i: nat, token: int)
    requires Inv(y) && IsRun(y, ps) && ps != [] && i < |y.buffer|
    requires y.rec.blockStart + y.rec.d <= |y.buffer| && |y.rec.prompt| <= y.rec.blockStart && ps[0].Fits(y.rec.d)
    ensures Fills(y, ps[0], i) && ps[0].tokens[i - y.rec.blockStart] == token ==> PredictedAt(y, ps, i, token, 0)
  {
    hide Inv, Step, Possible;
    assert ps[..0] == [];
  }

  lemma LaterStepPredicts(y: System, ps: seq<Prediction>, i: nat, token: int, k: nat)
    requires Inv(y) && IsRun(y, ps) && ps != []
    requires y.rec.blockStart + y.rec.d <= |y.buffer| && |y.rec.prompt| <= y.rec.blockStart && ps[0].Fits(y.rec.d)
    requires Step(y, ps[0]).Ok? && Inv(Step(y, ps[0]).value) && IsRun(Step(y, ps[0]).value, ps[1..])
    requires PredictedAt(Step(y, ps[0]).value, ps[1..], i, token, k)
    ensures PredictedAt(y, ps, i, token, k + 1)
  {
    hide Inv, Step, Possible;
    PrefixIsRun(y, ps, k + 1);
    assert ps[..k + 1][1..] == ps[1..][..k] && ps[..k + 1][0] == ps[0] && ps[k + 1] == ps[1..][k];
  }

  /** If the model never predicts the mask token, no assertion of the scheduler ever fails, and after at most as many
      steps as output tokens the request has stopped, the prompt intact, and with every output position filled in with
      a token that some step of the run predicted for that position. */
  lemma HonestRunsComplete(r: Record, ps: seq<Prediction>) returns (n: nat)
    requires Fresh(r) && |ps| >= r.outputLength
    requires forall k :: 0 <= k < |ps| ==> ps[k].Fits(r.d) && r.mask !in ps[k].tokens
    ensures Inv(Start(r)) && Drive(Start(r), ps).Ok?
    ensures n <= r.outputLength && Runs(r, ps[..n]) && Final(r, ps[..n]) == Drive(Start(r), ps).value
    ensures var z := Final(r, ps[..n]);
            && z.rec.Stopped() && |z.buffer| == |r.prompt| + r.outputLength && z.buffer[..|r.prompt|] == r.prompt
            && r.mask !in z.buffer[|r.prompt|..] && z.front == Front(z.buffer[|r.prompt|..], r.outputLength)
            && forall i: nat :: |r.prompt| <= i < |z.buffer| ==> Predicted(Start(r), ps[..n], i, z.buffer[i])
  {
    hide Inv, Drive, IsRun, After, Predicted, Fresh, Start;
    StartInv(r);
    StartIsBlank(r);
    HonestDrive(Start(r), ps);
    n := DriveIsRun(Start(r), ps);
    assert Runs(r, ps[..n]);
    RunAccounts(r, ps[..n]);
    var z := Final(r, ps[..n]);
    NoSlipsLeft(z);
    forall i: nat | |r.prompt| <= i < |z.buffer|
      ensures Predicted(Start(r), ps[..n], i, z.buffer[i])
    {
      OutputIsPredicted(r, ps[..n], i);
      assert z.buffer[i] == z.buffer[|r.prompt|..][i - |r.prompt|];
    }
  }

  /** In every run of a request, an output position is masked or holds a token that some step predicted for it. */
  lemma OutputIsPredicted(r: Record, ps: seq<Prediction>, i: nat)
    requires Fresh(r) && Runs(r, ps) && |r.prompt| <= i < |r.prompt| + r.outputLength
    ensures Inv(Start(r)) && IsRun(Start(r), ps) && |Final(r, ps).buffer| == |r.prompt| + r.outputLength
    ensures Final(r, ps).buffer[i] == r.mask || Predicted(Start(r), ps, i, Final(r, ps).buffer[i])
  {
    hide Inv, IsRun, After, Predicted, Fresh, Start;
    StartInv(r);
    StartsMasked(r, i);
    Provenance(Start(r), ps, i);
  }

  lemma NoSlipsLeft(z: System)
    requires Inv(z) && z.rec.Stopped() && z.slips == 0
    ensures |z.rec.prompt| <= |z.buffer| && z.rec.mask !in z.buffer[|z.rec.prompt|..]
  {
    hide Masks, Write, RowStart, Slips;
    NoMasks(z.buffer[|z.rec.prompt|..], z.rec.mask);
  }

  lemma StartIsBlank(r: Record)
    requires Fresh(r)
    ensures Start(r).rec == r && r.unmasked == [] && Start(r).blockSlips == Start(r).slips == 0 < r.outputLength
  {
  }

  lemma StartsMasked(r: Record, i: nat)
    requires Fresh(r) && |r.prompt| <= i < |r.prompt| + r.outputLength
    ensures |Start(r).buffer| == |r.prompt| + r.outputLength && Start(r).buffer[i] == r.mask
  {
  }

  /** A single step with one pick after which the scheduler's token list and the worker's tokens differ. */
  lemma MisplacedStep(r: Record) returns (p: Prediction)
    requires Fresh(r) && r.prompt != []
    ensures Runs(r, [p]) && Final(r, [p]).rec.all != Final(r, [p]).buffer
  {
    hide Inv, Step, StepPicks, RowStart, Picks, Fresh, Blank;
    var y := Start(r);
    StartInv(r);
    p := Prediction(seq(r.d, i => r.mask + 1), seq(r.d, i => 0.0), 1.0);
    StartIsPossible(r, p);
    HonestStep(y, p);
    StepFillsIn(y, p);
    OneStepRun(r, p);
    SinglePick(y.Block(), r.mask, p, r.blockStart);
    PicksComeFrom(y.Block(), r.mask, p, r.blockStart);
    StepPicksAre(y, p);
    OnePickDiffers(y, p);
  }

  lemma StartIsPossible(r: Record, p: Prediction)
    requires Fresh(r) && p.Fits(r.d)
    ensures Possible(Start(r), p)
  {
  }

  lemma StepPicksAre(y: System, p: Prediction)
    requires p.Fits(y.rec.d) && y.rec.blockStart + y.rec.d <= |y.buffer|
    ensures StepPicks(y, p) == Picks(y.Block(), y.rec.mask, p, y.rec.blockStart)
  {
  }

  lemma OneStepRun(r: Record, p: Prediction)
    requires Fresh(r) && Inv(Start(r)) && Possible(Start(r), p)
    requires var y := Start(r);
             y.rec.blockStart + y.rec.d <= |y.buffer| && |y.rec.prompt| <= y.rec.blockStart && Step(y, p).Ok?
    ensures Runs(r, [p]) && Final(r, [p]) == Step(Start(r), p).value
  {
    hide Inv, Step;
    StepKeepsInv(Start(r), p);
    var z := Step(Start(r), p).value;
    assert [p][1..] == [];
    assert IsRun(z, []) && After(z, []) == z;
  }

  /** One pick lands at its position with the worker, but further down in the scheduler's list. */
  lemma OnePickDiffers(y: System, p: Prediction)
    requires p.Fits(y.rec.d) && y.rec.blockStart + y.rec.d <= |y.buffer| && |y.rec.prompt| <= y.rec.blockStart
             && Step(y, p).Ok?
    requires y.rec.all == y.buffer && y.rec.prompt != []
    requires var picks := StepPicks(y, p);
             |picks| == 1 && picks[0].token != y.rec.mask
               && HitsMasks(picks, y.buffer, y.rec.mask, y.rec.blockStart, y.rec.blockStart + y.rec.d)
    ensures Step(y, p).value.rec.all != Step(y, p).value.buffer
  {
    hide StepPicks, ReceiveAll, Slips;
    var z, picks := Step(y, p).value, StepPicks(y, p);
    var pick := picks[0];
    WriteOne(y.buffer, picks, 0);
    WriteOne(y.buffer, picks, |y.rec.prompt|);
    assert z.rec.all == y.buffer[pick.pos - |y.rec.prompt| := pick.token];
    assert z.rec.all[pick.pos] == y.rec.mask;
  }

  lemma SinglePick(block: seq<int>, mask: int, p: Prediction, start: nat)
    requires p.Fits(|block|) && forall i :: 0 <= i < |block| ==> p.confidence[i] <= p.threshold
    ensures |Picks(block, mask, p, start)| <= 1
  {
    ChosenAre(block, mask, p);
  }

  /** The scheduler's own list of all tokens agrees with the worker's in every run exactly when the prompt is empty:
      it stores tokens relative to the prompt, in a list that starts with the prompt. */
  lemma SchedulerCopyIff(r: Record)
    requires Fresh(r)
    ensures (forall ps :: Runs(r, ps) ==> Final(r, ps).rec.all == Final(r, ps).buffer) <==> r.prompt == []
  {
    if r.prompt == [] {
      forall ps | Runs(r, ps)
        ensures Final(r, ps).rec.all == Final(r, ps).buffer
      {
        SamePrompt(r, ps);
      }
    } else {
      var p := MisplacedStep(r);
      assert Runs(r, [p]);
    }
  }

  lemma SamePrompt(r: Record, ps: seq<Prediction>)
    requires Fresh(r) && Runs(r, ps) && r.prompt == []
    ensures Final(r, ps).rec.all == Final(r, ps).buffer
  {
    RunAccounts(r, ps);
    hide IsRun, After, Masks, Write, Slips, RowStart;
    var y := Final(r, ps);
    assert y.rec.prompt == [];
  }

  /** The stretch of tokens that a running request feeds to the model: first position and length. */
  function ExecRange(r: Record, cachePrefix: bool, cacheSuffix: bool): (int, int) {
    var start := if cachePrefix && !r.StartOfNewBlock() then r.blockStart else 0;
    (start, if cacheSuffix && !r.StartOfNewBlock() then r.d else |r.all| - start)
  }

  /** Token i is to be executed: all of the current block, the tokens before it unless they are cached, and those
      behind it unless they are. Nothing is cached at the start of a block. */
  predicate ToExecute(r: Record, cachePrefix: bool, cacheSuffix: bool, i: int) {
    || r.blockStart <= i < r.blockStart + r.d
    || (i < r.blockStart && (r.StartOfNewBlock() || !cachePrefix))
    || (i >= r.blockStart + r.d && (r.StartOfNewBlock() || !cacheSuffix))
  }

  /** In every reachable state of an unfinished request the executed stretch lies within its tokens. It consists of
      exactly the tokens that are to be executed, unless suffixes are cached without prefixes, the block has been
      begun, and tokens precede it; then it is the first tokens of the request, as many as a block has. */
  lemma ExecutedTokens(y: System, cachePrefix: bool, cacheSuffix: bool, i: int)
    requires Inv(y) && !y.rec.Stopped() && 0 <= i < |y.rec.all|
    ensures var (start, n) := ExecRange(y.rec, cachePrefix, cacheSuffix);
            && 0 <= start && start + n <= |y.rec.all|
            && (start <= i < start + n <==>
                  if cacheSuffix && !cachePrefix && !y.rec.StartOfNewBlock() && y.rec.blockStart > 0 then i < y.rec.d
                  else ToExecute(y.rec, cachePrefix, cacheSuffix, i))
  {
    hide RowStart, Masks, Write;
    var p := Prediction(seq(y.rec.d, i => 0), seq(y.rec.d, i => 0.0), 0.0);
    StepIsDefined(y, p);
  }

  /** The sampler reads the current block relative to the executed stretch. In every reachable state of an unfinished
      request the block lies within the stretch, unless suffixes are cached without prefixes, the block has been
      begun, and tokens precede it. */
  lemma BlockIsExecutedIff(y: System, cachePrefix: bool, cacheSuffix: bool)
    requires Inv(y) && !y.rec.Stopped()
    ensures var (start, n) := ExecRange(y.rec, cachePrefix, cacheSuffix);
            (start <= y.rec.blockStart && y.rec.blockStart + y.rec.d <= start + n) <==>
            !(cacheSuffix && !cachePrefix && !y.rec.StartOfNewBlock() && y.rec.blockStart > 0)
  {
    hide RowStart, Masks, Write;
    var p := Prediction(seq(y.rec.d, i => 0), seq(y.rec.d, i => 0.0), 0.0);
    StepIsDefined(y, p);
  }
}
