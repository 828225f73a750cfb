/** Runs in which denoising goes wrong, and exactly when there are such runs. */
module DenoisingFailures {
  import opened Unmasking
  import opened TokenBuffers
  import opened BlockDiffusion
  import opened Denoising
  import opened Radix

  /** Predicts one token everywhere: with confidence, so that every masked position is filled in ... */
  function Sure(d: nat, token: int): Prediction {
    Prediction(seq(d, i => token), seq(d, i => 1.0), 0.0)
  }

  /** ... or without, so that a single one is. */
  function Unsure(d: nat, token: int): Prediction {
    Prediction(seq(d, i => token), seq(d, i => 0.0), 1.0)
  }

  lemma PicksCarry(block: seq<int>, mask: int, p: Prediction, start: nat, token: int)
    requires p.Fits(|block|) && p.tokens == seq(|block|, i => token)
    ensures forall k :: 0 <= k < |Picks(block, mask, p, start)| ==> Picks(block, mask, p, start)[k].token == token
  {
    var c := Chosen(block, mask, p);
    ChosenAre(block, mask, p);
    assert forall k :: 0 <= k < |c| ==> c[k] in c;
    hide Chosen;
  }

  /** The record and the counts after a step that does not fail. */
  lemma StepCounts(y: System, p: Prediction, token: int)
    requires Inv(y) && Possible(y, p) && p.tokens == seq(y.rec.d, i => token)
    ensures y.rec.blockStart + y.rec.d <= |y.buffer| && |y.rec.prompt| <= y.rec.blockStart
    ensures Step(y, p).Ok? ==>
              var z, n := Step(y, p).value, |StepPicks(y, p)|;
              && Inv(z) && SameRequest(z.rec, y.rec) && n > 0
              && (if y.rec.blockUnmasked + n == y.rec.d
                  then z.rec.curBlock == y.rec.curBlock + 1 && z.rec.blockUnmasked == 0 && z.blockSlips == 0
                  else z.rec.curBlock == y.rec.curBlock && z.rec.blockUnmasked == y.rec.blockUnmasked + n)
              && (token == y.rec.mask ==> z.slips > 0 && (z.rec.curBlock == y.rec.curBlock ==> z.blockSlips > 0))
              && (token != y.rec.mask && y.blockSlips == 0 ==> z.blockSlips == 0)
  {
    hide Texts, Progress, Conserved, Masks, Write, ReceiveAll, Picks, HitsMasks;
    StepKeepsInv(y, p);
    StepFillsIn(y, p);
    PicksCarry(y.Block(), y.rec.mask, p, y.rec.blockStart, token);
    NoSlips(StepPicks(y, p), y.rec.mask);
  }

  /** A step without confidence fills in one position and never fails. */
  lemma UnsureStep(y: System, token: int)
    requires Inv(y) && !y.rec.Stopped()
    ensures var p := Unsure(y.rec.d, token);
            && Possible(y, p) && y.rec.blockStart + y.rec.d <= |y.buffer| && |y.rec.prompt| <= y.rec.blockStart
            && Step(y, p).Ok? && |StepPicks(y, p)| == 1
  {
    var p := Unsure(y.rec.d, token);
    assert Possible(y, p);
    hide Texts, Progress, Conserved, Step;
    FailsIff(y, p);
    StepFillsIn(y, p);
    BlockIsCounted(y, p);
    SinglePick(y.Block(), y.rec.mask, p, y.rec.blockStart);
  }

  /** A confident step at the start of a block finishes it. */
  lemma SureStep(y: System, token: int)
    requires Inv(y) && !y.rec.Stopped() && y.rec.StartOfNewBlock() && y.blockSlips == 0
    ensures var p := Sure(y.rec.d, token);
            && Possible(y, p) && y.rec.blockStart + y.rec.d <= |y.buffer| && |y.rec.prompt| <= y.rec.blockStart
            && Step(y, p).Ok? && |StepPicks(y, p)| == y.rec.d
  {
    var p := Sure(y.rec.d, token);
    assert Possible(y, p);
    hide Texts, Progress, Conserved, Step, Masks;
    FailsIff(y, p);
    BlockIsCounted(y, p);
    ChoosesAll(y.Block(), y.rec.mask, p);
  }

  /** A step followed by a run is a run. */
  lemma Prepend(y: System, p: Prediction, ps: seq<Prediction>)
    requires Inv(y) && Possible(y, p) && y.rec.blockStart + y.rec.d <= |y.buffer| && |y.rec.prompt| <= y.rec.blockStart
    requires Step(y, p).Ok? && Inv(Step(y, p).value) && IsRun(Step(y, p).value, ps)
    ensures IsRun(y, [p] + ps) && After(y, [p] + ps) == After(Step(y, p).value, ps)
  {
    hide Inv, Step, Possible;
    assert ([p] + ps)[1..] == ps;
  }

  lemma NothingMore(y: System)
    requires Inv(y)
    ensures IsRun(y, []) && After(y, []) == y
  {
  }

  /** From a state without a slip in the current block, some run finishes the request without another one. */
  lemma FinishRun(y: System) returns (ps: seq<Prediction>)
    requires Inv(y) && y.blockSlips == 0
    ensures IsRun(y, ps) && After(y, ps).rec.Stopped() && After(y, ps).slips == y.slips
    decreases y.rec.outputLength - |y.rec.unmasked|
  {
    hide Inv, Step, IsRun, After;
    ps := [];
    NothingMore(y);
    if !y.rec.Stopped() {
      var p := Unsure(y.rec.d, y.rec.mask + 1);
      UnsureStep(y, y.rec.mask + 1);
      HonestStep(y, p);
      NeverTooMany(y);
      NeverTooMany(Step(y, p).value);
      var rest := FinishRun(Step(y, p).value);
      Prepend(y, p, rest);
      ps := [p] + rest;
    }
  }

  lemma NeverTooMany(y: System)
    requires Inv(y)
    ensures |y.rec.unmasked| <= y.rec.outputLength
  {
    StopsAfterLastBlock(y);
  }

  /** A fresh request has not stopped. */
  lemma StartIsOpen(r: Record)
    requires Fresh(r)
    ensures Inv(Start(r)) && !Start(r).rec.Stopped() && Start(r).rec.StartOfNewBlock() && Start(r).rec.curBlock == 0
  {
    StartInv(r);
  }

  /** For every request there is a run that stops with a mask left in the output: the mask token is predicted
      with confidence for the first block. */
  lemma MaskIsLeft(r: Record) returns (ps: seq<Prediction>)
    requires Fresh(r)
    ensures Runs(r, ps) && Final(r, ps).rec.Stopped()
    ensures |Final(r, ps).buffer| >= |r.prompt| && r.mask in Final(r, ps).buffer[|r.prompt|..]
  {
    hide Inv, Step, IsRun, After, Fresh, StepPicks, Masks, Slips;
    var y, p := Start(r), Sure(r.d, r.mask);
    StartIsOpen(r);
    SureStep(y, r.mask);
    StepCounts(y, p, r.mask);
    var rest := FinishRun(Step(y, p).value);
    Prepend(y, p, rest);
    ps := [p] + rest;
    RunAccounts(r, ps);
    SlipsLeaveMasks(Final(r, ps));
  }

  lemma SlipsLeaveMasks(y: System)
    requires Inv(y) && y.rec.Stopped() && y.slips > 0
    ensures |y.rec.prompt| <= |y.buffer| && y.rec.mask in y.buffer[|y.rec.prompt|..]
  {
    hide Masks, Write, RowStart, Slips;
    NoMasks(y.buffer[|y.rec.prompt|..], y.rec.mask);
  }

  /** The next step fails on this prediction. */
  ghost predicate Fails(y: System, q: Prediction)
    requires Inv(y)
  {
    Possible(y, q) && (StepKeepsInv(y, q); Step(y, q).AssertionFailed?)
  }

  /** With blocks of more than one token, a run of one step after which another fails: the mask token is filled in
      without confidence, and then every masked position with confidence. */
  lemma AssertionTrips(r: Record) returns (p: Prediction, q: Prediction)
    requires Fresh(r) && r.d > 1
    ensures Runs(r, [p]) && Fails(Final(r, [p]), q)
  {
    hide Inv, Step, StepPicks, Fresh;
    var y := Start(r);
    p := Unsure(r.d, r.mask);
    StartIsOpen(r);
    UnsureStep(y, r.mask);
    StepCounts(y, p, r.mask);
    OneStepRun(r, p);
    var z := Step(y, p).value;
    StillOpen(y, z);
    CanFailIff(z);
    q :| Possible(z, q) && Step(z, q).AssertionFailed?;
  }

  lemma StillOpen(y: System, z: System)
    requires Inv(y) && Inv(z) && !y.rec.Stopped() && SameRequest(z.rec, y.rec) && z.rec.curBlock == y.rec.curBlock
    ensures !z.rec.Stopped()
  {
    StopsAfterLastBlock(y);
    StopsAfterLastBlock(z);
  }

  /** Some run of a request trips the scheduler's assertion if and only if its blocks have more than one token. */
  lemma SomeRunFailsIff(r: Record)
    requires Fresh(r)
    ensures (exists ps, q :: Runs(r, ps) && Fails(Final(r, ps), q)) <==> r.d > 1
  {
    if r.d > 1 {
      var p, q := AssertionTrips(r);
      assert Runs(r, [p]) && Fails(Final(r, [p]), q);
    } else {
      forall ps, q | Runs(r, ps)
        ensures !Fails(Final(r, ps), q)
      {
        SingleTokenBlocksHold(r, ps, q);
      }
    }
  }

  lemma SingleTokenBlocksHold(r: Record, ps: seq<Prediction>, q: Prediction)
    requires Fresh(r) && Runs(r, ps) && r.d == 1
    ensures !Fails(Final(r, ps), q)
  {
    hide Runs, Final, Inv, Step, Masks;
    RunAccounts(r, ps);
    var y := Final(r, ps);
    if Possible(y, q) {
      CanFailIff(y);
      BlockIsCounted(y, q);
      NoMasks(y.Block(), r.mask);
    }
  }

  /** Steps that are still expected, split into recomputing and cached ones. With suffixes cached alone, neither branch
      binds the number of recomputing steps. */
  datatype Estimate = Steps(recompute: int, cached: int) | UnboundLocalError

  function StepsLeftByType(r: Record, cachePrefix: bool, cacheSuffix: bool, predicted: nat): Estimate
    requires r.d > 0
  {
    if !cachePrefix && cacheSuffix then UnboundLocalError
    else
      var recompute := if cachePrefix then r.RecomputeStepsLeft() else predicted;
      Steps(recompute, if predicted > recompute then predicted - recompute else 0)
  }

  /** The estimate is unbound exactly when suffixes alone are cached. Otherwise its two parts add up to the predicted
      steps, or to the recomputing ones if these are more. In a reachable state of an unfinished request, with prefixes
      cached, one step is recomputed for every block that has not been begun; without a cache, every step is. */
  lemma EstimateIs(y: System, cachePrefix: bool, cacheSuffix: bool, predicted: nat)
    requires Inv(y) && !y.rec.Stopped()
    ensures var e := StepsLeftByType(y.rec, cachePrefix, cacheSuffix, predicted);
            && (e.UnboundLocalError? <==> cacheSuffix && !cachePrefix)
            && (e.Steps? ==>
                  && e.recompute >= 0 && e.cached >= 0 && e.recompute + e.cached >= predicted
                  && (e.recompute + e.cached == predicted || (e.recompute > predicted && e.cached == 0))
                  && (cachePrefix ==> y.recomputes + e.recompute == y.rec.outputLength / y.rec.d)
                  && (!cachePrefix ==> e.recompute == predicted && e.cached == 0))
  {
    hide Texts, Conserved, RowStart;
    StopsAfterLastBlock(y);
  }

  /** What scheduling a running request leads to: execution of a stretch of tokens, or the error above. The estimate is
      needed only to choose a confidence threshold for a request that can still meet its deadline. */
  datatype Outcome = Executes(start: int, n: int) | Raises

  function ScheduleRunning(r: Record, cachePrefix: bool, cacheSuffix: bool, predicted: nat, thresholdKept: bool,
                           canMeet: bool): Outcome
    requires r.d > 0
  {
    if !thresholdKept && canMeet && StepsLeftByType(r, cachePrefix, cacheSuffix, predicted).UnboundLocalError?
      then Raises
    else var (start, n) := ExecRange(r, cachePrefix, cacheSuffix); Executes(start, n)
  }

  /** The request is executed on a stretch that leaves out part of its current block. */
  ghost predicate MissesBlock(y: System, cachePrefix: bool, cacheSuffix: bool, predicted: nat, thresholdKept: bool,
                              canMeet: bool)
    requires y.rec.d > 0
  {
    var o := ScheduleRunning(y.rec, cachePrefix, cacheSuffix, predicted, thresholdKept, canMeet);
    !y.rec.Stopped() && o.Executes? && !(o.start <= y.rec.blockStart && y.rec.blockStart + y.rec.d <= o.start + o.n)
  }

  /** A run into a block that has been begun and that tokens precede. */
  lemma BegunBlock(r: Record) returns (ps: seq<Prediction>)
    requires Fresh(r) && r.d > 1 && (r.prompt != [] || r.outputLength > r.d)
    ensures Runs(r, ps)
    ensures var y := Final(r, ps);
            !y.rec.Stopped() && !y.rec.StartOfNewBlock() && y.rec.blockStart > 0 && y.rec.d == r.d
  {
    hide Inv, Step, StepPicks, Fresh, IsRun, After;
    var y, p, q := Start(r), Unsure(r.d, r.mask + 1), Sure(r.d, r.mask + 1);
    StartIsOpen(r);
    if r.prompt != [] {
      UnsureStep(y, r.mask + 1);
      StepCounts(y, p, r.mask + 1);
      OneStepRun(r, p);
      StillOpen(y, Step(y, p).value);
      BlockStartIs(Step(y, p).value);
      ps := [p];
    } else {
      SureStep(y, r.mask + 1);
      StepCounts(y, q, r.mask + 1);
      var z := Step(y, q).value;
      SecondBlock(r, z);
      UnsureStep(z, r.mask + 1);
      StepCounts(z, p, r.mask + 1);
      var last := Step(z, p).value;
      StillOpen(z, last);
      BlockStartIs(last);
      NothingMore(last);
      Prepend(z, p, []);
      assert [p] + [] == [p];
      Prepend(y, q, [p]);
      ps := [q] + [p];
    }
  }

  lemma BlockStartIs(y: System)
    requires Inv(y)
    ensures y.rec.blockStart >= |y.rec.prompt| && (y.rec.curBlock > 0 ==> y.rec.blockStart > 0)
  {
    if y.rec.curBlock > 0 {
      RowBound(0, y.rec.curBlock, y.rec.d);
    }
  }

  /** After the first of several blocks the request is open. */
  lemma SecondBlock(r: Record, z: System)
    requires Fresh(r) && r.outputLength > r.d && Inv(z) && SameRequest(z.rec, r) && z.rec.curBlock == 1
    ensures !z.rec.Stopped()
  {
    StopsAfterLastBlock(z);
    BlockFits(1, r.outputLength, r.d);
  }

  /** Some run reaches a step whose executed stretch leaves out part of the current block if and only if suffixes are
      cached without prefixes, the deadline can no longer be met or the threshold need not be chosen anew, blocks have
      more than one token, and there is a prompt or a second block. */
  lemma SomeRunMissesBlockIff(r: Record, cachePrefix: bool, cacheSuffix: bool, predicted: nat, thresholdKept: bool,
                              canMeet: bool)
    requires Fresh(r)
    ensures (exists ps :: Runs(r, ps) && Final(r, ps).rec.d > 0 &&
                          MissesBlock(Final(r, ps), cachePrefix, cacheSuffix, predicted, thresholdKept, canMeet)) <==>
            && cacheSuffix && !cachePrefix && (thresholdKept || !canMeet)
            && r.d > 1 && (r.prompt != [] || r.outputLength > r.d)
  {
    if cacheSuffix && !cachePrefix && (thresholdKept || !canMeet) && r.d > 1
      && (r.prompt != [] || r.outputLength > r.d) {
      var ps := BegunBlock(r);
      BlockIsExecutedIff(Final(r, ps), cachePrefix, cacheSuffix);
      assert Runs(r, ps) && MissesBlock(Final(r, ps), cachePrefix, cacheSuffix, predicted, thresholdKept, canMeet);
    } else {
      forall ps | Runs(r, ps) && Final(r, ps).rec.d > 0
        ensures !MissesBlock(Final(r, ps), cachePrefix, cacheSuffix, predicted, thresholdKept, canMeet)
      {
        KeepsBlock(r, ps, cachePrefix, cacheSuffix, predicted, thresholdKept, canMeet);
      }
    }
  }

  lemma KeepsBlock(r: Record, ps: seq<Prediction>, cachePrefix: bool, cacheSuffix: bool, predicted: nat,
                   thresholdKept: bool, canMeet: bool)
    requires Fresh(r) && Runs(r, ps) && Final(r, ps).rec.d > 0
    requires !(cacheSuffix && !cachePrefix && (thresholdKept || !canMeet) && r.d > 1
             && (r.prompt != [] || r.outputLength > r.d))
    ensures !MissesBlock(Final(r, ps), cachePrefix, cacheSuffix, predicted, thresholdKept, canMeet)
  {
    RunAccounts(r, ps);
    var y := Final(r, ps);
    hide Runs, Final, RowStart, Texts, Conserved, Record.RecomputeStepsLeft;
    if !y.rec.Stopped() {
      BlockIsExecutedIff(y, cachePrefix, cacheSuffix);
      StopsAfterLastBlock(y);
      BlockFits(y.rec.curBlock, r.outputLength, r.d);
      BlockFits(0, r.outputLength, r.d);
      FirstBlock(r.d);
    }
  }

  lemma FirstBlock(d: nat)
    ensures RowStart(0, d) == 0
  {
  }
}
