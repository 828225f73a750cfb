/** Merging successive request outputs into one. */
module OutputMerge {
  import opened OutputStream
  import opened ParallelSampling
  import opened Wrappers

  /** b continues a. */
  function Joined(a: Completion, b: Completion): Completion {
    Completion(a.index, a.text + b.text, a.tokens + b.tokens, b.finished)
  }

  /** Merges c into the first entry with its index, or appends it. */
  function MergeOne(outs: seq<Completion>, c: Completion, aggregate: bool): seq<Completion> {
    if outs == [] then [c]
    else if outs[0].index == c.index then [if aggregate then Joined(outs[0], c) else c] + outs[1..]
    else [outs[0]] + MergeOne(outs[1..], c, aggregate)
  }

  function MergeAll(outs: seq<Completion>, next: seq<Completion>, aggregate: bool): seq<Completion> {
    if next == [] then outs else MergeOne(MergeAll(outs, next[..|next| - 1], aggregate), next[|next| - 1], aggregate)
  }

  function Merged(a: Output, b: Output, aggregate: bool): Output {
    Output(MergeAll(a.outputs, b.outputs, aggregate), a.finished || b.finished)
  }

  class CompletionOutput {
    const index: nat
    var text: string
    var tokenIds: seq<int>
    var finished: bool

    ghost function View(): Completion
      reads this
    {
      Completion(index, text, tokenIds, finished)
    }

    constructor (c: Completion)
      ensures View() == c
    {
      index, text, tokenIds, finished := c.index, c.text, c.tokens, c.finished;
    }
  }

  ghost function Views(s: seq<CompletionOutput>): (r: seq<Completion>)
    reads s
    ensures |r| == |s|
  {
    seq(|s|, k requires 0 <= k < |s| reads s => s[k].View())
  }

  ghost predicate Distinct(s: seq<CompletionOutput>) {
    forall j, k :: 0 <= j < k < |s| ==> s[j] != s[k]
  }

  /** The position of the first entry with the index of c, or the length. */
  function Find(outs: seq<Completion>, c: Completion): (i: nat)
    ensures i <= |outs| && (i < |outs| ==> outs[i].index == c.index)
    ensures forall k :: 0 <= k < i ==> outs[k].index != c.index
  {
    if outs == [] || outs[0].index == c.index then 0 else 1 + Find(outs[1..], c)
  }

  lemma {:induction false} MergeAtFound(outs: seq<Completion>, c: Completion, aggregate: bool)
    ensures var i := Find(outs, c);
            MergeOne(outs, c, aggregate) ==
              if i == |outs| then outs + [c] else outs[i := if aggregate then Joined(outs[i], c) else c]
  {
    hide Joined;
    if outs != [] && outs[0].index != c.index {
      MergeAtFound(outs[1..], c, aggregate);
      var i := Find(outs[1..], c);
      BehindFirst(outs, i, if aggregate && i < |outs| - 1 then Joined(outs[i + 1], c) else c);
    } else if outs != [] {
      assert [if aggregate then Joined(outs[0], c) else c] + outs[1..] ==
        outs[0 := if aggregate then Joined(outs[0], c) else c];
    }
  }

  /** Appending to or updating all but the first element. */
  lemma BehindFirst<T>(s: seq<T>, i: nat, x: T)
    requires s != []
    ensures [s[0]] + (s[1..] + [x]) == s + [x]
    ensures i < |s| - 1 ==> [s[0]] + s[1..][i := x] == s[i + 1 := x]
  {
  }

  class RequestOutput {
    var outputs: seq<CompletionOutput>
    var finished: bool

    ghost function View(): Output
      reads this, outputs
    {
      Output(Views(outputs), finished)
    }

    /** Merges one completion; no object other than those listed changes. */
    method Absorb(c: CompletionOutput, aggregate: bool)
      requires Distinct(outputs) && c !in outputs
      modifies this`outputs, set x | x in outputs
      ensures Views(outputs) == MergeOne(old(Views(outputs)), old(c.View()), aggregate)
      ensures Distinct(outputs) && forall x :: x in outputs ==> x == c || x in old(outputs)
    {
      hide MergeOne, Find;
      ghost var was, cv := Views(outputs), c.View();
      MergeAtFound(was, cv, aggregate);
      assert forall k :: 0 <= k < |was| ==> was[k].index == outputs[k].index;
      var i := 0;
      while i < |outputs| && outputs[i].index != c.index
        invariant 0 <= i <= Find(was, cv)
      {
        i := i + 1;
      }
      if i == |outputs| {
        outputs := outputs + [c];
      } else if aggregate {
        var completion := outputs[i];
        completion.text := completion.text + c.text;
        completion.tokenIds := completion.tokenIds + c.tokenIds;
        completion.finished := c.finished;
        assert Views(outputs) == was[i := Joined(was[i], cv)];
      } else {
        outputs := outputs[i := c];
      }
    }

    /** Merges the next output of the request into this one. */
    method Add(next: RequestOutput, aggregate: bool)
      requires next != this && Distinct(outputs) && Distinct(next.outputs) && forall x :: x in next.outputs ==>
               x !in outputs
      modifies this, set x | x in outputs + next.outputs
      ensures View() == Merged(old(View()), old(next.View()), aggregate)
      ensures Distinct(outputs)
    {
      ghost var mine, theirs := outputs, next.outputs;
      ghost var was, incoming := Views(mine), Views(theirs);
      hide MergeOne;
      finished := finished || next.finished;
      for j := 0 to |next.outputs|
        invariant Distinct(outputs) && next.outputs == theirs && finished == (old(finished) || old(next.finished))
        invariant forall x :: x in outputs ==> x in mine || x in theirs
        invariant forall k :: j <= k < |theirs| ==> theirs[k].View() == incoming[k] && theirs[k] !in outputs
        invariant Views(outputs) == MergeAll(was, incoming[..j], aggregate)
      {
        var c := next.outputs[j];
        assert incoming[..j + 1][..j] == incoming[..j];
        Absorb(c, aggregate);
      }
      assert incoming[..|theirs|] == incoming;
    }
  }

  ghost predicate Unique(outs: seq<Completion>) {
    forall j, k :: 0 <= j < k < |outs| ==> outs[j].index != outs[k].index
  }

  /** Merging never lets two entries share an index. */
  lemma {:induction false} MergeKeepsUnique(outs: seq<Completion>, next: seq<Completion>, aggregate: bool)
    requires Unique(outs)
    ensures Unique(MergeAll(outs, next, aggregate))
    decreases |next|
  {
    if next != [] {
      var before := MergeAll(outs, next[..|next| - 1], aggregate);
      MergeKeepsUnique(outs, next[..|next| - 1], aggregate);
      MergeAtFound(before, next[|next| - 1], aggregate);
    }
  }

  /** Text and tokens of the first entry with index i, if any. */
  function TextAt(outs: seq<Completion>, i: nat): string {
    if outs == [] then "" else if outs[0].index == i then outs[0].text else TextAt(outs[1..], i)
  }

  function TokensAt(outs: seq<Completion>, i: nat): seq<int> {
    if outs == [] then [] else if outs[0].index == i then outs[0].tokens else TokensAt(outs[1..], i)
  }

  /** Concatenation of the texts and tokens of all entries with index i. */
  function TextFor(outs: seq<Completion>, i: nat): string {
    if outs == [] then "" else
    TextFor(outs[..|outs| - 1], i) + if outs[|outs| - 1].index == i then outs[|outs| - 1].text else ""
  }

  function TokensFor(outs: seq<Completion>, i: nat): seq<int> {
    if outs == [] then [] else
    TokensFor(outs[..|outs| - 1], i) + if outs[|outs| - 1].index == i then outs[|outs| - 1].tokens else []
  }

  lemma {:induction false} MergeOneAdds(outs: seq<Completion>, c: Completion, i: nat)
    ensures TextAt(MergeOne(outs, c, true), i) == TextAt(outs, i) + if c.index == i then c.text else ""
    ensures TokensAt(MergeOne(outs, c, true), i) == TokensAt(outs, i) + if c.index == i then c.tokens else []
  {
    if outs != [] && outs[0].index != c.index {
      MergeOneAdds(outs[1..], c, i);
    }
  }

  /** Aggregation conserves content: for every index, the text and tokens afterwards are those before
      followed by everything that arrived for the index, whatever the entries and their order. */
  lemma {:induction false} MergeAdds(outs: seq<Completion>, next: seq<Completion>, i: nat)
    ensures TextAt(MergeAll(outs, next, true), i) == TextAt(outs, i) + TextFor(next, i)
    ensures TokensAt(MergeAll(outs, next, true), i) == TokensAt(outs, i) + TokensFor(next, i)
    decreases |next|
  {
    if next != [] {
      MergeAdds(outs, next[..|next| - 1], i);
      MergeOneAdds(MergeAll(outs, next[..|next| - 1], true), next[|next| - 1], i);
    }
  }

  /** The first entry with index i, and the last one. */
  function FirstAt(outs: seq<Completion>, i: nat): Option<Completion> {
    if outs == [] then None else if outs[0].index == i then Some(outs[0]) else FirstAt(outs[1..], i)
  }

  function LastFor(outs: seq<Completion>, i: nat): Option<Completion> {
    if outs == [] then None
    else if outs[|outs| - 1].index == i then Some(outs[|outs| - 1]) else LastFor(outs[..|outs| - 1], i)
  }

  lemma {:induction false} MergeOneReplaces(outs: seq<Completion>, c: Completion, i: nat)
    ensures FirstAt(MergeOne(outs, c, false), i) == if c.index == i then Some(c) else FirstAt(outs, i)
  {
    if outs != [] && outs[0].index != c.index {
      MergeOneReplaces(outs[1..], c, i);
    }
  }

  /** Without aggregation, the last entry that arrives for an index takes the place of the old one. */
  lemma {:induction false} MergeReplaces(outs: seq<Completion>, next: seq<Completion>, i: nat)
    ensures FirstAt(MergeAll(outs, next, false), i) ==
            if LastFor(next, i).Some? then LastFor(next, i) else FirstAt(outs, i)
    decreases |next|
  {
    if next != [] {
      MergeReplaces(outs, next[..|next| - 1], i);
      MergeOneReplaces(MergeAll(outs, next[..|next| - 1], false), next[|next| - 1], i);
    }
  }

  /** Entry k carries index k. */
  ghost predicate Numbered(outs: seq<Completion>) {
    forall k :: 0 <= k < |outs| ==> outs[k].index == k
  }

  /** The first m entries of outs joined with those of next. */
  function JoinedUpTo(outs: seq<Completion>, next: seq<Completion>, m: nat): seq<Completion>
    requires m <= |outs| == |next|
  {
    seq(|outs|, k requires 0 <= k < |outs| => if k < m then Joined(outs[k], next[k]) else outs[k])
  }

  lemma {:induction false} MergeNumbered(outs: seq<Completion>, next: seq<Completion>, m: nat)
    requires Numbered(outs) && Numbered(next) && m <= |outs| == |next|
    ensures MergeAll(outs, next[..m], true) == JoinedUpTo(outs, next, m)
  {
    if m == 0 {
      assert JoinedUpTo(outs, next, 0) == outs;
    } else {
      MergeNumbered(outs, next, m - 1);
      assert next[..m][..m - 1] == next[..m - 1];
      var before := JoinedUpTo(outs, next, m - 1);
      MergeAtFound(before, next[m - 1], true);
      assert Find(before, next[m - 1]) == m - 1;
    }
  }

  /** All outputs merged into the first. */
  function Fold(outputs: seq<Output>): Output
    requires outputs != []
  {
    if |outputs| == 1 then outputs[0] else Merged(Fold(outputs[..|outputs| - 1]), outputs[|outputs| - 1], true)
  }

  /** The merged output is finished exactly when one of its parts is. */
  lemma {:induction false} FoldFinishes(outputs: seq<Output>)
    requires outputs != []
    ensures Fold(outputs).finished <==> exists k :: 0 <= k < |outputs| && outputs[k].finished
  {
    hide MergeAll;
    var n := |outputs| - 1;
    if n > 0 {
      FoldFinishes(outputs[..n]);
      assert forall k :: 0 <= k < n ==> outputs[..n][k] == outputs[k];
    }
  }

  /** The merged outputs carry, per sub-request, exactly what has been emitted for it. */
  ghost predicate Folded(t: Trace) {
    && |t.texts| == |t.tokens|
    && (t.outputs == [] ==> forall k :: 0 <= k < |t.texts| ==> t.texts[k] == "" && t.tokens[k] == [])
    && (t.outputs != [] ==>
          var outs := Fold(t.outputs).outputs;
          && |outs| == |t.texts| && Numbered(outs)
          && forall k :: 0 <= k < |outs| ==> outs[k].text == t.texts[k] && outs[k].tokens == t.tokens[k])
  }

  /** Merging one more output of n numbered entries. */
  lemma FoldStep(t: Trace, out: Output, g: Group)
    requires Folded(t) && Numbered(out.outputs) && |out.outputs| == |t.texts|
    ensures var r := Trace(g, AddTexts(t.texts, Some(out)), AddTokens(t.tokens, Some(out)), t.outputs + [out]);
            && Folded(r) && Fold(r.outputs).outputs == if t.outputs == [] then out.outputs
                                                       else JoinedUpTo(Fold(t.outputs).outputs, out.outputs,
                                                         |out.outputs|)
  {
    if t.outputs != [] {
      assert (t.outputs + [out])[..|t.outputs|] == t.outputs;
      assert out.outputs[..|out.outputs|] == out.outputs;
      MergeNumbered(Fold(t.outputs).outputs, out.outputs, |out.outputs|);
    }
  }

  /** The entries a cumulative request would yield in the same state. */
  ghost function Cumulative(cfg: Config, g: Group): seq<Completion>
    requires Shape(cfg, g)
  {
    ParallelSampling.Emit(cfg.(kind := CUMULATIVE), g).0.value.outputs
  }

  lemma DeltaEntries(cfg: Config, g: Group)
    requires Shape(cfg, g) && cfg.kind == DELTA
    ensures var out := ParallelSampling.Emit(cfg, g).0;
            && out.Some? && |out.value.outputs| == |g.streams| && Numbered(out.value.outputs)
            && |Cumulative(cfg, g)| == |g.streams|
            && forall k :: 0 <= k < |g.streams| ==>
                 && out.value.outputs[k].finished == g.streams[k].finished
                 && Cumulative(cfg, g)[k] ==
                    Completion(k, g.streams[k].CumulativeText(cfg.buffer), g.streams[k].output, g.streams[k].finished)
  {
    hide Stream.Shown, Stream.CumulativeText, Stream.DeltaText;
    assert g.order == UpTo(|g.streams|);
  }

  /** A report keeps the merged outputs in step; if it yields output, they equal the cumulative output. */
  lemma FoldedReport(cfg: Config, t: Trace, i: nat)
    requires Inv(cfg, t.g) && i in t.g.pending && cfg.kind == DELTA && Streamed(cfg, t) && Folded(t)
    ensures Folded(NextTrace(cfg, t, Report(i)))
    ensures t.g.pending[0] == i ==>
              && NextTrace(cfg, t, Report(i)).outputs != [] && Shape(cfg, Emitted(cfg, t.g, i))
              && Fold(NextTrace(cfg, t, Report(i)).outputs).outputs == Cumulative(cfg, Emitted(cfg, t.g, i))
  {
    hide ParallelSampling.Emit, AddTexts, AddTokens, Fold, Accounted, LogInv, Handle, Cumulative;
    ReportOutcome(cfg, t.g, i);
    NoOutput(t.texts, t.tokens);
    if t.g.pending[0] == i {
      var g := Emitted(cfg, t.g, i);
      DeltaEntries(cfg, g);
      EmitStreams(cfg, g, t.texts, t.tokens);
      var (out, g') := Outcome(cfg, t.g, Report(i));
      FoldStep(t, out.value, g');
      var outs := Fold(t.outputs + [out.value]).outputs;
      assert outs == Cumulative(cfg, g);
    }
  }

  lemma {:induction false} FoldedRun(cfg: Config, t: Trace, events: seq<Happening>)
    requires Inv(cfg, t.g) && cfg.kind == DELTA && Streamed(cfg, t) && Folded(t)
             && ParallelSampling.IsRun(cfg, t, events)
    ensures Folded(ParallelSampling.After(cfg, t, events))
    decreases |events|
  {
    hide Inv, Streamed, Folded, NextTrace;
    if events != [] {
      StreamingStep(cfg, t, events[0]);
      FoldedStep(cfg, t, events[0]);
      FoldedRun(cfg, NextTrace(cfg, t, events[0]), events[1..]);
    }
  }

  lemma FoldedStep(cfg: Config, t: Trace, e: Happening)
    requires Inv(cfg, t.g) && Possible(cfg, t.g, e) && cfg.kind == DELTA && Streamed(cfg, t) && Folded(t)
    ensures Folded(NextTrace(cfg, t, e))
  {
    hide Handle, Inv, Streamed, AddTexts, AddTokens, Fold, Touch;
    NoOutput(t.texts, t.tokens);
    if e.Report? {
      FoldedReport(cfg, t, e.i);
    }
  }

  /** Merging the delta outputs of any run of a streaming request gives, at every output, exactly the entries
      that a cumulative request would have yielded at that point, with distinct indices. */
  lemma DeltasFoldToCumulative(cfg: Config, prompt: seq<int>, n: nat, events: seq<Happening>, i: nat)
    requires n > 0 && cfg.kind == DELTA && Possibly(cfg, prompt, n, events)
    requires var g := Final(cfg, prompt, n, events).g; g.pending != [] && g.pending[0] == i
    ensures var t := Final(cfg, prompt, n, events);
            var r := NextTrace(cfg, t, Report(i));
            && r.outputs != [] && Shape(cfg, Emitted(cfg, t.g, i))
            && Fold(r.outputs).outputs == Cumulative(cfg, Emitted(cfg, t.g, i))
            && Unique(Fold(r.outputs).outputs)
  {
    hide ParallelSampling.IsRun, ParallelSampling.After, NextTrace, Fold;
    StartInv(cfg, prompt, n);
    var start := StartTrace(prompt, n);
    assert start.texts == seq(n, k => "") && start.tokens == seq(n, k => []);
    assert Streamed(cfg, start) && Folded(start);
    StreamingRun(cfg, start, events);
    FoldedRun(cfg, start, events);
    FoldedReport(cfg, Final(cfg, prompt, n, events), i);
  }
}
