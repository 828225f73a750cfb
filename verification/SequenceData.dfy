/** Token state of one sequence, and the deltas that keep a worker's copy of it up to date. */
module SequenceData {

  datatype Stage = PREFILL | DECODE

  /** What a driver sends to a worker that already holds a copy of the sequence. */
  datatype Delta = Delta(tokens: seq<int>, logprob: real, computed: int, stage: Stage)

  /** The abstract value of a SequenceData object. */
  datatype Data = Data(prompt: seq<int>, output: seq<int>, cached: seq<int>, pending: seq<int>,
                       computed: int, logprob: real, stage: Stage)
  {
    /** The token cache is the prompt followed by the output, and no more tokens are computed than exist. */
    predicate Valid() {
      cached == prompt + output && 0 <= computed <= Len()
    }

    function Len(): nat {
      |output| + |prompt|
    }

    function Uncomputed(): int {
      Len() - computed
    }

    function Append(token: int, lp: real): Data {
      this.(output := output + [token], pending := pending + [token], cached := cached + [token],
        logprob := logprob + lp)
    }

    /** Advance the computed count; once nothing is left to compute, the sequence decodes. */
    function Compute(n: int): Data {
      var d := this.(computed := computed + n);
      if d.Uncomputed() == 0 then d.(stage := DECODE) else d
    }

    function Reset(): Data {
      this.(computed := 0, stage := PREFILL, pending := [])
    }

    function TakeDelta(): (Delta, Data) {
      (Delta(pending, logprob, computed, stage), this.(pending := []))
    }

    function Apply(delta: Delta): Data {
      this.(computed := delta.computed, logprob := delta.logprob, stage := delta.stage,
            output := output + delta.tokens, cached := cached + delta.tokens)
    }

    /** Tokens that the next step computes: one when decoding, else whatever is left. */
    function NumNewTokens(): int {
      if stage == DECODE then 1 else Uncomputed()
    }
  }

  function Fresh(prompt: seq<int>, output: seq<int>): Data {
    Data(prompt, output, prompt + output, [], 0, 0.0, PREFILL)
  }

  /** The mutable object; every method is tied to its abstract operation. */
  class SequenceData {
    var promptTokenIds: seq<int>
    var outputTokenIds: seq<int>
    var cachedAllTokenIds: seq<int>
    var newAppendedTokens: seq<int>
    var numComputedTokens: int
    var cumulativeLogprob: real
    var stage: Stage

    ghost function View(): Data
      reads this
    {
      Data(promptTokenIds, outputTokenIds, cachedAllTokenIds, newAppendedTokens, numComputedTokens, cumulativeLogprob,
        stage)
    }

    constructor (prompt: seq<int>, output: seq<int>)
      ensures View() == Fresh(prompt, output) && View().Valid()
    {
      promptTokenIds, outputTokenIds := prompt, output;
      cachedAllTokenIds := prompt + output;
      newAppendedTokens, numComputedTokens, cumulativeLogprob, stage := [], 0, 0.0, PREFILL;
    }

    function GetLen(): nat
      reads this
    {
      |outputTokenIds| + |promptTokenIds|
    }

    function GetNumUncomputedTokens(): int
      reads this
    {
      GetLen() - numComputedTokens
    }

    method AppendTokenId(token: int, logprob: real)
      requires View().Valid()
      modifies this
      ensures View() == old(View()).Append(token, logprob) && View().Valid()
    {
      outputTokenIds := outputTokenIds + [token];
      newAppendedTokens := newAppendedTokens + [token];
      cachedAllTokenIds := cachedAllTokenIds + [token];
      cumulativeLogprob := cumulativeLogprob + logprob;
    }

    /** ok is false when the source's assertion on the computed count fails. */
    method UpdateNumComputedTokens(n: int) returns (ok: bool)
      modifies this
      ensures ok <==> old(numComputedTokens) + n <= old(GetLen())
      ensures ok ==> View() == old(View()).Compute(n)
      ensures !ok ==> View() == old(View()).(computed := old(numComputedTokens) + n)
    {
      numComputedTokens := numComputedTokens + n;
      if numComputedTokens > GetLen() {
        return false;
      }
      if GetNumUncomputedTokens() == 0 {
        stage := DECODE;
      }
      return true;
    }

    method ResetStateForRecompute()
      modifies this
      ensures View() == old(View()).Reset()
    {
      numComputedTokens := 0;
      stage := PREFILL;
      newAppendedTokens := [];
    }

    method GetDeltaAndReset() returns (delta: Delta)
      modifies this
      ensures (delta, View()) == old(View()).TakeDelta()
    {
      delta := Delta(newAppendedTokens, cumulativeLogprob, numComputedTokens, stage);
      newAppendedTokens := [];
    }

    method ApplyDelta(delta: Delta)
      requires View().cached == View().prompt + View().output
      modifies this
      ensures View() == old(View()).Apply(delta)
      ensures View().cached == View().prompt + View().output
    {
      numComputedTokens := delta.computed;
      cumulativeLogprob := delta.logprob;
      stage := delta.stage;
      outputTokenIds := outputTokenIds + delta.tokens;
      cachedAllTokenIds := cachedAllTokenIds + delta.tokens;
    }

    method GetNumNewTokens() returns (n: int)
      ensures n == View().NumNewTokens()
    {
      if stage == DECODE {
        return 1;
      }
      return GetNumUncomputedTokens();
    }
  }
}

/** Driver, FIFO channel and worker copy of one sequence under full snapshots and deltas. */
module Replication {
  import opened SequenceData
  import opened Wrappers

  /** A scheduled sequence is announced by a full snapshot before anything of it is computed, else by a delta. */
  datatype Message = Full(data: Data) | Update(delta: Delta)

  /** A message in flight, with the driver's state when it was sent. */
  datatype Envelope = Envelope(msg: Message, snap: Data)

  /** scheduled: the driver has sent a message since the sequence was created or last preempted.
      last: the driver's state when the most recently delivered message was sent. */
  datatype System = System(driver: Data, channel: seq<Envelope>, worker: Option<Data>, last: Option<Data>,
                           scheduled: bool)

  datatype Action =
    | Append(token: int, lp: real)
    | Compute(n: nat)
    | Preempt
    | Send
    | Deliver

  /** The replicated fields agree. */
  predicate Agree(a: Data, b: Data) {
    a.prompt == b.prompt && a.output == b.output && a.cached == b.cached
    && a.computed == b.computed && a.logprob == b.logprob && a.stage == b.stage
  }

  function Initial(prompt: seq<int>): System {
    System(Fresh(prompt, []), [], None, None, false)
  }

  /** The worker's copy after a message; None when a delta arrives without a copy to apply it to. */
  function Receive(w: Option<Data>, m: Message): Option<Data> {
    match m
    case Full(d) => Some(d)
    case Update(delta) => if w.Some? then Some(w.value.Apply(delta)) else None
  }

  /** When the engine may take an action: tokens are computed only for a scheduled sequence and
      sampled only for one with computed tokens; a message is delivered only if one is in flight. */
  predicate Enabled(sys: System, a: Action) {
    match a
    case Append(_, _) => 0 < sys.driver.computed
    case Compute(n) => sys.scheduled && n <= sys.driver.Uncomputed()
    case Preempt => true
    case Send => true
    case Deliver => sys.channel != []
  }

  function Next(sys: System, a: Action): System
    requires a.Deliver? ==> sys.channel != []
  {
    match a
    case Append(token, lp) => sys.(driver := sys.driver.Append(token, lp))
    case Compute(n) => sys.(driver := sys.driver.Compute(n))
    case Preempt => sys.(driver := sys.driver.Reset(), scheduled := false)
    case Send =>
      if sys.driver.stage == PREFILL && sys.driver.computed == 0 then
        sys.(channel := sys.channel + [Envelope(Full(sys.driver), sys.driver)], scheduled := true)
      else
        var (delta, d) := sys.driver.TakeDelta();
        sys.(driver := d, channel := sys.channel + [Envelope(Update(delta), sys.driver)], scheduled := true)
    case Deliver =>
      sys.(worker := Receive(sys.worker, sys.channel[0].msg), last := Some(sys.channel[0].snap),
        channel := sys.channel[1..])
  }

  /** The worker's copy once every message in the channel has arrived. */
  function Drain(w: Option<Data>, ch: seq<Envelope>): Option<Data>
    decreases |ch|
  {
    if ch == [] then w else Drain(Receive(w, ch[0].msg), ch[1..])
  }

  /** Every message in the channel, when it arrives, brings the worker to the driver's state when it was sent. */
  ghost predicate Faithful(w: Option<Data>, ch: seq<Envelope>)
    decreases |ch|
  {
    ch != [] ==>
      var w' := Receive(w, ch[0].msg);
      w'.Some? && Agree(w'.value, ch[0].snap) && Faithful(w', ch[1..])
  }

  ghost predicate Inv(sys: System) {
    && sys.driver.Valid()
    && (sys.driver.computed == 0 ==> sys.driver.pending == [])
    && (!sys.scheduled ==> sys.driver.computed == 0 && sys.driver.stage == PREFILL)
    && Faithful(sys.worker, sys.channel)
    && (sys.last.Some? <==> sys.worker.Some?)
    && (sys.worker.Some? ==> Agree(sys.worker.value, sys.last.value))
    && (sys.scheduled ==>
          var w := Drain(sys.worker, sys.channel);
          && w.Some? && w.value.prompt == sys.driver.prompt && w.value.cached == w.value.prompt + w.value.output
          && sys.driver.output == w.value.output + sys.driver.pending)
  }

  lemma {:induction false} DrainSnoc(w: Option<Data>, ch: seq<Envelope>, e: Envelope)
    ensures Drain(w, ch + [e]) == Receive(Drain(w, ch), e.msg)
    decreases |ch|
  {
    if ch != [] {
      assert (ch + [e])[1..] == ch[1..] + [e];
      DrainSnoc(Receive(w, ch[0].msg), ch[1..], e);
    } else {
      assert ch + [e] == [e];
      assert Drain(w, [e]) == Drain(Receive(w, e.msg), [e][1..]);
    }
  }

  lemma {:induction false} FaithfulSnoc(w: Option<Data>, ch: seq<Envelope>, e: Envelope)
    requires Faithful(w, ch)
    requires var w' := Receive(Drain(w, ch), e.msg); w'.Some? && Agree(w'.value, e.snap)
    ensures Faithful(w, ch + [e])
    decreases |ch|
  {
    if ch != [] {
      assert (ch + [e])[1..] == ch[1..] + [e];
      FaithfulSnoc(Receive(w, ch[0].msg), ch[1..], e);
    }
  }

  lemma SendKeepsInv(sys: System)
    requires Inv(sys)
    ensures Inv(Next(sys, Send))
  {
    var sys' := Next(sys, Send);
    var e := sys'.channel[|sys.channel|];
    assert sys'.channel == sys.channel + [e];
    DrainSnoc(sys.worker, sys.channel, e);
    FaithfulSnoc(sys.worker, sys.channel, e);
  }

  lemma StepKeepsInv(sys: System, a: Action)
    requires Inv(sys) && Enabled(sys, a)
    ensures Inv(Next(sys, a))
  {
    match a
    case Send => SendKeepsInv(sys);
    case _ =>
  }

  /** A run: every action is enabled when it is taken. */
  ghost predicate IsRun(sys: System, acts: seq<Action>)
    decreases |acts|
  {
    acts != [] ==> Enabled(sys, acts[0]) && IsRun(Next(sys, acts[0]), acts[1..])
  }

  ghost function After(sys: System, acts: seq<Action>): System
    requires IsRun(sys, acts)
    decreases |acts|
  {
    if acts == [] then sys else After(Next(sys, acts[0]), acts[1..])
  }

  lemma {:induction false} RunKeepsInv(sys: System, acts: seq<Action>)
    requires Inv(sys) && IsRun(sys, acts)
    ensures Inv(After(sys, acts))
    decreases |acts|
  {
    if acts != [] {
      StepKeepsInv(sys, acts[0]);
      RunKeepsInv(Next(sys, acts[0]), acts[1..]);
    }
  }

  /** The tokens that an action appends, the log-probability they add, and the computed tokens it leaves of c. */
  function TokensOf(a: Action): seq<int> {
    if a.Append? then [a.token] else []
  }

  function ProbOf(a: Action): real {
    if a.Append? then a.lp else 0.0
  }

  function ComputedBy(c: int, a: Action): int {
    if a.Compute? then c + a.n else if a.Preempt? then 0 else c
  }

  /** The tokens that a run appends, the sum of their log-probabilities, and the tokens computed since the last
      preemption, when c were computed before the run. */
  function Appended(acts: seq<Action>): seq<int>
    decreases |acts|
  {
    if acts == [] then [] else TokensOf(acts[0]) + Appended(acts[1..])
  }

  function Earned(acts: seq<Action>): real
    decreases |acts|
  {
    if acts == [] then 0.0 else ProbOf(acts[0]) + Earned(acts[1..])
  }

  function Computed(c: int, acts: seq<Action>): int
    decreases |acts|
  {
    if acts == [] then c else Computed(ComputedBy(c, acts[0]), acts[1..])
  }

  lemma DriverStep(sys: System, a: Action)
    requires Enabled(sys, a)
    ensures var d := Next(sys, a).driver;
            && d.prompt == sys.driver.prompt && d.output == sys.driver.output + TokensOf(a)
            && d.logprob == sys.driver.logprob + ProbOf(a) && d.computed == ComputedBy(sys.driver.computed, a)
  {
  }

  lemma {:induction false} DriverAddsUp(sys: System, acts: seq<Action>)
    requires IsRun(sys, acts)
    ensures var d := After(sys, acts).driver;
            && d.prompt == sys.driver.prompt && d.output == sys.driver.output + Appended(acts)
            && d.logprob == sys.driver.logprob + Earned(acts) && d.computed == Computed(sys.driver.computed, acts)
    decreases |acts|
  {
    hide Next, TokensOf, ProbOf, ComputedBy;
    if acts == [] {
    } else {
      DriverStep(sys, acts[0]);
      DriverAddsUp(Next(sys, acts[0]), acts[1..]);
    }
  }

  /** In every run, with preemptions at any time and any number of messages in flight: the worker's copy is the
      driver's state when the last delivered message was sent, and nothing is missing once the channel is empty.
      The driver has every token appended so far, and its log-probability is the sum of theirs. */
  lemma ReplicasAgree(prompt: seq<int>, acts: seq<Action>)
    requires IsRun(Initial(prompt), acts)
    ensures var sys := After(Initial(prompt), acts);
            && sys.driver.Valid() && sys.driver.prompt == prompt && sys.driver.output == Appended(acts)
            && sys.driver.logprob == Earned(acts) && sys.driver.computed == Computed(0, acts)
            && (sys.worker.Some? <==> sys.last.Some?)
            && (sys.worker.Some? ==> Agree(sys.worker.value, sys.last.value))
            && (sys.scheduled && sys.channel == [] ==>
                  sys.worker.Some? && sys.driver.output == sys.worker.value.output + sys.driver.pending)
  {
    DriverAddsUp(Initial(prompt), acts);
    RunKeepsInv(Initial(prompt), acts);
  }

  /** Delivering everything right after a send makes driver and worker agree, whatever happened before. */
  lemma SendThenDrain(prompt: seq<int>, acts: seq<Action>)
    requires IsRun(Initial(prompt), acts)
    ensures var sys := Next(After(Initial(prompt), acts), Send);
            var w := Drain(sys.worker, sys.channel);
            w.Some? && Agree(w.value, sys.driver)
  {
    var sys := After(Initial(prompt), acts);
    RunKeepsInv(Initial(prompt), acts);
    DrainSnoc(sys.worker, sys.channel, Next(sys, Send).channel[|sys.channel|]);
  }

  /** The next send is a full snapshot. */
  predicate SendsSnapshot(sys: System) {
    sys.driver.stage == PREFILL && sys.driver.computed == 0
  }

  /** A system in which tokens may be appended at any time, and the number of tokens that were pending when the last
      snapshot was sent. A snapshot does not clear them, so a delta that follows it sends them again. */
  datatype Loose = Loose(sys: System, repeated: nat)

  predicate LooseEnabled(sys: System, a: Action) {
    a.Append? || Enabled(sys, a)
  }

  function LooseNext(t: Loose, a: Action): Loose
    requires LooseEnabled(t.sys, a)
  {
    Loose(Next(t.sys, a), if a.Send? && SendsSnapshot(t.sys) then |t.sys.driver.pending| else t.repeated)
  }

  ghost predicate IsLooseRun(t: Loose, acts: seq<Action>)
    decreases |acts|
  {
    acts != [] ==> LooseEnabled(t.sys, acts[0]) && IsLooseRun(LooseNext(t, acts[0]), acts[1..])
  }

  ghost function LooseAfter(t: Loose, acts: seq<Action>): Loose
    requires IsLooseRun(t, acts)
    decreases |acts|
  {
    if acts == [] then t else LooseAfter(LooseNext(t, acts[0]), acts[1..])
  }

  /** Once everything has arrived, the worker has the driver's output less what is pending, and as many tokens too many
      as were pending at the last snapshot. */
  ghost predicate LooseInv(t: Loose) {
    var d := t.sys.driver;
    && d.cached == d.prompt + d.output && (!t.sys.scheduled ==> SendsSnapshot(t.sys))
    && (t.sys.scheduled ==>
          var w := Drain(t.sys.worker, t.sys.channel);
          && w.Some? && w.value.prompt == d.prompt && w.value.cached == w.value.prompt + w.value.output
          && |w.value.output| + |d.pending| == |d.output| + t.repeated
          && (t.repeated == 0 ==> d.output == w.value.output + d.pending))
  }

  lemma LooseStepKeepsInv(t: Loose, a: Action)
    requires LooseInv(t) && LooseEnabled(t.sys, a)
    ensures LooseInv(LooseNext(t, a))
  {
    if a.Send? {
      DrainSnoc(t.sys.worker, t.sys.channel, Next(t.sys, a).channel[|t.sys.channel|]);
    }
  }

  lemma {:induction false} LooseRunKeepsInv(t: Loose, acts: seq<Action>)
    requires LooseInv(t) && IsLooseRun(t, acts)
    ensures LooseInv(LooseAfter(t, acts))
    decreases |acts|
  {
    if acts != [] {
      LooseStepKeepsInv(t, acts[0]);
      LooseRunKeepsInv(LooseNext(t, acts[0]), acts[1..]);
    }
  }

  /** If tokens could be appended at any time: after every run, a send and the delivery of everything make driver and
      worker agree exactly if the send is a snapshot or nothing was pending at the last snapshot. */
  lemma LooseReplicasAgreeIff(prompt: seq<int>, acts: seq<Action>)
    requires IsLooseRun(Loose(Initial(prompt), 0), acts)
    ensures var t := LooseAfter(Loose(Initial(prompt), 0), acts);
            var sys := Next(t.sys, Send);
            var w := Drain(sys.worker, sys.channel);
            w.Some? && (Agree(w.value, sys.driver) <==> SendsSnapshot(t.sys) || t.repeated == 0)
  {
    LooseRunKeepsInv(Loose(Initial(prompt), 0), acts);
    var t := LooseAfter(Loose(Initial(prompt), 0), acts);
    DrainSnoc(t.sys.worker, t.sys.channel, Next(t.sys, Send).channel[|t.sys.channel|]);
  }

  /** A run in which the worker ends up with a token twice: one is appended before the snapshot. */
  lemma TokenArrivesTwice(prompt: seq<int>, token: int)
    ensures var start, acts := Loose(Initial(prompt), 0), [Append(token, 0.0), Send, Compute(1)];
            && IsLooseRun(start, acts)
            && var sys := Next(LooseAfter(start, acts).sys, Send);
               var w := Drain(sys.worker, sys.channel);
               w.Some? && w.value.output == [token, token] && sys.driver.output == [token]
  {
    var start, acts := Loose(Initial(prompt), 0), [Append(token, 0.0), Send, Compute(1)];
    var a := LooseNext(start, acts[0]);
    var b := LooseNext(a, acts[1]);
    var c := LooseNext(b, acts[2]);
    assert acts[1..] == [Send, Compute(1)] && acts[1..][1..] == [Compute(1)] && acts[1..][1..][1..] == [];
    assert IsLooseRun(c, []) && IsLooseRun(b, acts[1..][1..]) && IsLooseRun(a, acts[1..]);
    assert LooseAfter(c, []) == c && LooseAfter(b, acts[1..][1..]) == c && LooseAfter(a, acts[1..]) == c;
    var sys := Next(c.sys, Send);
    var full := b.sys.channel[0];
    assert sys.channel == [full, sys.channel[1]] && sys.channel[1..] == [sys.channel[1]] && sys.channel[1..][1..] == [];
    assert Drain(Some(full.msg.data), sys.channel[1..]) == Some(full.msg.data.Apply(sys.channel[1].msg.delta));
  }

  /** Driver and worker that exchange deltas only; dropped counts pending tokens discarded by resets. */
  datatype Pair = Pair(driver: Data, worker: Data, dropped: nat)

  function DeltaStep(p: Pair, a: Action): Pair {
    match a
    case Append(token, lp) => p.(driver := p.driver.Append(token, lp))
    case Compute(n) => p.(driver := p.driver.Compute(n))
    case Preempt => p.(driver := p.driver.Reset(), dropped := p.dropped + |p.driver.pending|)
    case Send | Deliver => var (delta, d) := p.driver.TakeDelta(); p.(driver := d, worker := p.worker.Apply(delta))
  }

  function DeltaRun(p: Pair, acts: seq<Action>): Pair
    decreases |acts|
  {
    if acts == [] then p else DeltaRun(DeltaStep(p, acts[0]), acts[1..])
  }

  ghost predicate DeltaInv(p: Pair) {
    && p.driver.prompt == p.worker.prompt
    && |p.driver.output| == |p.worker.output| + |p.driver.pending| + p.dropped
    && (p.dropped == 0 ==> p.driver.output == p.worker.output + p.driver.pending)
    && p.driver.cached == p.driver.prompt + p.driver.output && p.worker.cached == p.worker.prompt + p.worker.output
  }

  lemma {:induction false} DeltaRunInv(p: Pair, acts: seq<Action>)
    requires DeltaInv(p)
    ensures DeltaInv(DeltaRun(p, acts))
    decreases |acts|
  {
    if acts != [] {
      DeltaRunInv(DeltaStep(p, acts[0]), acts[1..]);
    }
  }

  /** With deltas alone, driver and worker agree after a send exactly if no reset ever hit pending tokens. */
  lemma DeltasAloneAgree(prompt: seq<int>, acts: seq<Action>)
    ensures var p := DeltaRun(Pair(Fresh(prompt, []), Fresh(prompt, []), 0), acts);
            Agree(DeltaStep(p, Send).worker, DeltaStep(p, Send).driver) <==> p.dropped == 0
  {
    DeltaRunInv(Pair(Fresh(prompt, []), Fresh(prompt, []), 0), acts);
  }
}

/** The decode fast path: once decoding, the scheduler asks for one token without counting. */
module DecodePath {
  import opened SequenceData

  /** One engine step computes n tokens and samples k more once everything is computed; a preemption starts over. */
  datatype Event = Step(n: nat, sampled: seq<int>, lp: real) | Preempt

  function AppendAll(d: Data, tokens: seq<int>, lp: real): Data
    decreases |tokens|
  {
    if tokens == [] then d else AppendAll(d.Append(tokens[0], lp), tokens[1..], lp)
  }

  /** A step asks for at most NumNewTokens tokens, and samples exactly one token when it completes the sequence. */
  predicate Enabled(d: Data, e: Event) {
    match e
    case Step(n, sampled, _) => n <= d.NumNewTokens() && |sampled| == (if d.Compute(n).Uncomputed() == 0 then 1 else 0)
    case Preempt => true
  }

  function Next(d: Data, e: Event): Data {
    match e
    case Step(n, sampled, lp) => AppendAll(d.Compute(n), sampled, lp)
    case Preempt => d.Reset()
  }

  ghost predicate IsRun(d: Data, events: seq<Event>)
    decreases |events|
  {
    events != [] ==> Enabled(d, events[0]) && IsRun(Next(d, events[0]), events[1..])
  }

  ghost function After(d: Data, events: seq<Event>): Data
    requires IsRun(d, events)
    decreases |events|
  {
    if events == [] then d else After(Next(d, events[0]), events[1..])
  }

  /** At a step boundary a decoding sequence has exactly one token left to compute. */
  ghost predicate Boundary(d: Data) {
    d.Valid() && (d.stage == DECODE ==> d.Uncomputed() == 1)
  }

  lemma {:induction false} AppendAllLen(d: Data, tokens: seq<int>, lp: real)
    ensures var d' := AppendAll(d, tokens, lp);
            && d'.Len() == d.Len() + |tokens| && d'.computed == d.computed && d'.stage == d.stage
            && (d.Valid() ==> d'.Valid())
    decreases |tokens|
  {
    if tokens != [] {
      AppendAllLen(d.Append(tokens[0], lp), tokens[1..], lp);
    }
  }

  lemma {:induction false} RunKeepsBoundary(d: Data, events: seq<Event>)
    requires Boundary(d) && IsRun(d, events)
    ensures Boundary(After(d, events))
    decreases |events|
  {
    if events != [] {
      if events[0].Step? {
        AppendAllLen(d.Compute(events[0].n), events[0].sampled, events[0].lp);
      }
      RunKeepsBoundary(Next(d, events[0]), events[1..]);
    }
  }

  /** In every run, across preemptions, the fast path asks for exactly the tokens that are not computed yet. */
  lemma FastPathIsExact(prompt: seq<int>, events: seq<Event>)
    requires IsRun(Fresh(prompt, []), events)
    ensures var d := After(Fresh(prompt, []), events);
            0 <= d.computed <= d.Len() && d.NumNewTokens() == d.Uncomputed()
  {
    RunKeepsBoundary(Fresh(prompt, []), events);
  }

  /** A step that completes the sequence and samples k tokens leaves the fast path exact only for k = 1. */
  lemma OneTokenPerStep(d: Data, n: nat, sampled: seq<int>, lp: real)
    requires d.Valid() && n == d.Uncomputed()
    ensures var d' := Next(d, Step(n, sampled, lp));
            d'.NumNewTokens() == d'.Uncomputed() <==> |sampled| == 1
  {
    AppendAllLen(d.Compute(n), sampled, lp);
  }
}
