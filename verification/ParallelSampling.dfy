/** Ranking sequences by cumulative log-probability. */
module Ranking {

  /** a precedes b: higher score first, ties in original order. */
  predicate Before(scores: seq<real>, a: nat, b: nat)
    requires a < |scores| && b < |scores|
  {
    scores[a] > scores[b] || (scores[a] == scores[b] && a < b)
  }

  /** Strictly ordered, hence without duplicates. */
  ghost predicate Ranked(scores: seq<real>, s: seq<nat>) {
    && (forall k :: 0 <= k < |s| ==> s[k] < |scores|)
    && (forall j, k :: 0 <= j < k < |s| ==> Before(scores, s[j], s[k]))
  }

  /** Inserts x behind every element that scores at least as high. */
  function Insert(scores: seq<real>, s: seq<nat>, x: nat): (r: seq<nat>)
    requires x < |scores| && forall k :: 0 <= k < |s| ==> s[k] < |scores|
    ensures |r| == |s| + 1
    decreases |s|
  {
    if s == [] then [x]
    else if scores[s[|s| - 1]] >= scores[x] then s + [x]
    else Insert(scores, s[..|s| - 1], x) + [s[|s| - 1]]
  }

  lemma {:induction false} InsertElements(scores: seq<real>, s: seq<nat>, x: nat, y: nat)
    requires x < |scores| && forall k :: 0 <= k < |s| ==> s[k] < |scores|
    ensures y in Insert(scores, s, x) <==> y in s || y == x
    decreases |s|
  {
    if s != [] && scores[s[|s| - 1]] < scores[x] {
      InsertElements(scores, s[..|s| - 1], x, y);
      assert s == s[..|s| - 1] + [s[|s| - 1]];
    }
  }

  lemma RankedSnoc(scores: seq<real>, s: seq<nat>, x: nat)
    requires Ranked(scores, s) && x < |scores| && forall k :: 0 <= k < |s| ==> Before(scores, s[k], x)
    ensures Ranked(scores, s + [x])
  {
  }

  lemma {:induction false} InsertRanks(scores: seq<real>, s: seq<nat>, x: nat)
    requires Ranked(scores, s) && x < |scores| && forall k :: 0 <= k < |s| ==> s[k] < x
    ensures Ranked(scores, Insert(scores, s, x))
    decreases |s|
  {
    if s == [] {
    } else if scores[s[|s| - 1]] >= scores[x] {
      forall k | 0 <= k < |s|
        ensures Before(scores, s[k], x)
      {
        assert k < |s| - 1 ==> Before(scores, s[k], s[|s| - 1]);
      }
      RankedSnoc(scores, s, x);
    } else {
      var front, last := s[..|s| - 1], s[|s| - 1];
      InsertRanks(scores, front, x);
      var r := Insert(scores, front, x);
      forall k | 0 <= k < |r|
        ensures Before(scores, r[k], last)
      {
        InsertElements(scores, front, x, r[k]);
      }
      RankedSnoc(scores, r, last);
    }
  }

  /** The indices 0 .. n in stable descending order of score. */
  function Rank(scores: seq<real>, n: nat): (r: seq<nat>)
    requires n <= |scores|
    ensures |r| == n && forall k :: 0 <= k < n ==> r[k] < n
  {
    if n == 0 then [] else
    var s := Insert(scores, Rank(scores, n - 1), n - 1);
    assert forall k :: 0 <= k < n ==> s[k] < n by {
      forall k | 0 <= k < n ensures s[k] < n { InsertElements(scores, Rank(scores, n - 1), n - 1, s[k]); }
    }
    s
  }

  /** The ranking is strictly ordered, hence without duplicates. */
  lemma {:induction false} RankIsRanked(scores: seq<real>, n: nat)
    requires n <= |scores|
    ensures Ranked(scores, Rank(scores, n))
  {
    if n > 0 {
      RankIsRanked(scores, n - 1);
      InsertRanks(scores, Rank(scores, n - 1), n - 1);
    }
  }

  /** Every index is ranked. */
  lemma {:induction false} RankContains(scores: seq<real>, n: nat, i: nat)
    requires i < n <= |scores|
    ensures i in Rank(scores, n)
  {
    if i < n - 1 {
      RankContains(scores, n - 1, i);
    }
    InsertElements(scores, Rank(scores, n - 1), n - 1, i);
  }

  /** The first m of the ranking beat every index that is left out. */
  lemma TopBeatsRest(scores: seq<real>, m: nat, k: nat, i: nat)
    requires k < m <= |scores| && i < |scores|
    requires i !in Rank(scores, |scores|)[..m]
    ensures Before(scores, Rank(scores, |scores|)[k], i)
  {
    hide Rank, Before;
    RankIsRanked(scores, |scores|);
    RankContains(scores, |scores|, i);
    RestIsBehind(scores, Rank(scores, |scores|), m, k, i);
  }

  lemma RestIsBehind(scores: seq<real>, r: seq<nat>, m: nat, k: nat, i: nat)
    requires Ranked(scores, r) && k < m <= |r| && i in r && i !in r[..m]
    ensures i < |scores| && Before(scores, r[k], i)
  {
    hide Before;
    var rest := r[m..];
    assert r == r[..m] + rest;
    var q :| 0 <= q < |rest| && rest[q] == i;
    assert rest[q] == r[m + q];
  }
}

/** A request for n samples is split into n sub-requests whose outputs are assembled again. */
module ParallelSampling {
  import opened OutputStream
  import opened Ranking
  import opened Wrappers

  datatype Kind = CUMULATIVE | DELTA | FINAL_ONLY

  /** One entry of a request output. */
  datatype Completion = Completion(index: nat, text: string, tokens: seq<int>, finished: bool)

  datatype Output = Output(outputs: seq<Completion>, finished: bool)

  /** Request-wide settings: output kind, hold-back, and the number of samples to return if fewer than generated. */
  datatype Config = Config(kind: Kind, buffer: nat, realN: Option<nat>)

  /** Sub-request i owns streams[i]. `order` lists the sequences of the assembled group; `pending` and `done` are the
      sub-requests still to finish and finished, in insertion order; `registered` those in the engine's registry. */
  datatype Group = Group(streams: seq<Stream>, scores: seq<real>, order: seq<nat>,
                         pending: seq<nat>, done: seq<nat>, registered: set<nat>, produced: bool)

  function UpTo(n: nat): (s: seq<nat>)
    ensures |s| == n && forall k :: 0 <= k < n ==> s[k] == k
  {
    seq(n, k => k)
  }

  function Start(prompt: seq<int>, n: nat): Group {
    Group(seq(n, k => Stream(prompt, [], "", false, 0, 0)), seq(n, k => 0.0), UpTo(n), UpTo(n), [],
      set k | k in UpTo(n), false)
  }

  /** How many sequences are returned: a limit of zero counts as unset. */
  function TopCount(m: nat, n: nat): (r: nat)
    ensures r <= n && (n > 0 ==> r > 0)
  {
    if m == 0 || n < m then n else m
  }

  function Remove(s: seq<nat>, x: nat): seq<nat> {
    if s == [] then [] else if s[0] == x then s[1..] else [s[0]] + Remove(s[1..], x)
  }

  /** The assembled group that is returned when the last sub-request of a non-streaming request finishes. */
  function Selected(cfg: Config, g: Group): Group
    requires |g.streams| == |g.scores|
  {
    var g := g.(produced := true);
    match cfg.realN
    case None => g
    case Some(m) => g.(order := Rank(g.scores, |g.scores|)[..TopCount(m, |g.scores|)])
  }

  /** Whether a report of sub-request i yields the assembled group, and the group afterwards. */
  function MaybeAssemble(cfg: Config, g: Group, i: nat): (bool, Group)
    requires i < |g.streams| == |g.scores|
  {
    if cfg.kind == DELTA then (g.pending != [] && g.pending[0] == i, g)
    else if |g.pending| == 1 && i in g.pending && g.streams[i].finished && !g.produced then (true, Selected(cfg, g))
    else (false, g)
  }

  /** Output and group after emitting the assembled group. */
  function Emit(cfg: Config, g: Group): (Option<Output>, Group)
    requires forall k :: 0 <= k < |g.order| ==> g.order[k] < |g.streams|
    requires forall k :: 0 <= k < |g.streams| ==> g.streams[k].Valid()
  {
    var finished := forall k :: 0 <= k < |g.order| ==> g.streams[g.order[k]].finished;
    if cfg.kind == FINAL_ONLY && !finished then (None, g)
    else if cfg.kind == DELTA then
      (Some(Output(seq(|g.order|, k requires 0 <= k < |g.order| =>
              Completion(k, g.streams[g.order[k]].DeltaText(cfg.buffer), g.streams[g.order[k]].DeltaTokens(),
                g.streams[g.order[k]].finished)), finished)),
       g.(streams := seq(|g.streams|, k requires 0 <= k < |g.streams| => if k in g.order
         then g.streams[k].Advance(cfg.buffer) else g.streams[k])))
    else
      (Some(Output(seq(|g.order|, k requires 0 <= k < |g.order| =>
              Completion(k, g.streams[g.order[k]].CumulativeText(cfg.buffer), g.streams[g.order[k]].output,
                g.streams[g.order[k]].finished)), finished)), g)
  }

  /** The group after sub-request i has been moved to done. */
  function Moved(g: Group, i: nat): Group {
    g.(pending := Remove(g.pending, i), done := g.done + [i])
  }

  /** The group after its sub-requests have left the registry, if none is pending. */
  function Cleared(g: Group): Group {
    if g.pending == [] then g.(registered := g.registered - set k | k in UpTo(|g.streams|)) else g
  }

  /** The output path of an event of a registered sub-request. */
  function Handle(cfg: Config, g: Group, i: nat): (Option<Output>, Group)
    requires i < |g.streams| == |g.scores|
    requires forall k :: 0 <= k < |g.order| ==> g.order[k] < |g.streams|
    requires forall k :: 0 <= k < |g.streams| ==> g.streams[k].Valid()
  {
    var (assembled, g1) := MaybeAssemble(cfg, g, i);
    var g2 := if g.streams[i].finished then Moved(g1, i) else g1;
    if !assembled then (None, g2) else Emit(cfg, Cleared(g2))
  }

  /** Output of sub-request i on its own, as for a request that was never split. */
  function EmitAlone(cfg: Config, g: Group, i: nat): (Option<Output>, Group)
    requires i < |g.streams| && forall k :: 0 <= k < |g.streams| ==> g.streams[k].Valid()
  {
    var (out, g') := Emit(cfg, g.(order := [i]));
    (out, g'.(order := g.order))
  }

  /** Sub-request i generates, or ends with a final text, or is reported to the output path;
      the engine drops reported finished sub-requests from its registry. */
  datatype Happening =
    | Step(i: nat, tokens: seq<int>, chunk: string, lp: real)
    | End(i: nat, tokens: seq<int>, finalText: string, lp: real)
    | Report(i: nat)
    | Cleanup(i: nat)

  /** Generating and ending can happen to unfinished sub-requests, in any order between reports;
      a sub-request is reported until it has been reported as finished. */
  predicate Possible(cfg: Config, g: Group, e: Happening) {
    match e
    case Step(i, _, _, _) => i < |g.streams| && !g.streams[i].finished
    case End(i, _, finalText, _) => i < |g.streams| && !g.streams[i].finished
      && Held(g.streams[i].text, cfg.buffer, finalText)
    case Report(i) => i in g.pending
    case Cleanup(i) => i in g.done
  }

  predicate Generates(e: Happening) {
    e.Step? || e.End?
  }

  /** The event as seen by the sub-request's own stream. */
  function StreamEvent(e: Happening): Event
    requires Generates(e)
  {
    match e
    case Step(_, tokens, chunk, _) => Grow(tokens, chunk)
    case End(_, tokens, finalText, _) => Finish(tokens, finalText)
  }

  function Touch(cfg: Config, g: Group, e: Happening): Group
    requires Generates(e) && e.i < |g.streams| == |g.scores|
  {
    g.(streams := g.streams[e.i := OutputStream.Next(g.streams[e.i], cfg.buffer, StreamEvent(e))],
       scores := g.scores[e.i := g.scores[e.i] + e.lp])
  }

  ghost predicate NoDup(s: seq<nat>) {
    forall j, k :: 0 <= j < k < |s| ==> s[j] != s[k]
  }

  /** Offsets point at existing text and tokens, and never into the hold-back buffer. */
  ghost predicate Accounted(cfg: Config, st: Stream) {
    st.Valid() && st.textOff <= st.Shown(cfg.buffer)
  }

  lemma TouchAccounted(cfg: Config, st: Stream, e: Event)
    requires Accounted(cfg, st) && Enabled(st, cfg.buffer, e)
    ensures Accounted(cfg, OutputStream.Next(st, cfg.buffer, e))
  {
    var log := Log(st, st.text[..st.textOff], st.output[..st.tokenOff]);
    StepKeepsLog(log, cfg.buffer, e);
  }

  /** Well-formed group: sizes, valid streams and offsets, and order. */
  ghost predicate Shape(cfg: Config, g: Group) {
    && 0 < |g.streams| == |g.scores|
    && (forall k :: 0 <= k < |g.streams| ==> Accounted(cfg, g.streams[k]))
    && (forall k :: 0 <= k < |g.order| ==> g.order[k] < |g.streams|)
    && (g.produced ==> cfg.kind != DELTA)
    && (!g.produced ==> g.order == UpTo(|g.streams|))
  }

  /** pending and done partition the sub-requests, and those done have finished. */
  ghost predicate Partition(g: Group) {
    && NoDup(g.pending) && NoDup(g.done)
    && (forall k :: k in g.pending ==> k < |g.streams|)
    && (forall k :: k in g.done ==> k < |g.streams| && g.streams[k].finished)
    && (forall k: nat :: k < |g.streams| ==> (k in g.pending <==> k !in g.done))
  }

  /** Pending sub-requests are registered; once none is pending, none of the group is. */
  ghost predicate Registry(g: Group) {
    && (forall k :: k in g.pending ==> k in g.registered)
    && (forall k :: k in g.registered ==> k < |g.streams|)
    && (g.pending == [] ==> g.registered == {})
  }

  ghost predicate Inv(cfg: Config, g: Group) {
    Shape(cfg, g) && Partition(g) && Registry(g) && (cfg.kind != DELTA ==> (g.produced <==> g.pending == []))
  }

  /** Run state: the group, everything emitted per sub-request, and the outputs produced. */
  datatype Trace = Trace(g: Group, texts: seq<string>, tokens: seq<seq<int>>, outputs: seq<Output>)

  /** The outcome of an event: the output it yields, if any, and the group afterwards. */
  function Outcome(cfg: Config, g: Group, e: Happening): (Option<Output>, Group)
    requires Shape(cfg, g) && Partition(g) && Possible(cfg, g, e)
  {
    match e
    case Cleanup(i) => (None, g.(registered := g.registered - {i}))
    case Report(i) => Handle(cfg, g, i)
    case _ => (None, Touch(cfg, g, e))
  }

  /** An unfinished sub-request is pending, and generating keeps the invariant. */
  lemma TouchKeepsInv(cfg: Config, g: Group, e: Happening)
    requires Inv(cfg, g) && Possible(cfg, g, e) && Generates(e)
    ensures Inv(cfg, Touch(cfg, g, e)) && e.i in g.pending
  {
    hide Accounted, Held;
    TouchAccounted(cfg, g.streams[e.i], StreamEvent(e));
  }

  lemma {:induction false} RemoveElements(s: seq<nat>, x: nat, y: nat)
    requires NoDup(s) && x in s
    ensures y in Remove(s, x) <==> y in s && y != x
  {
    assert s == [s[0]] + s[1..];
    if s[0] == x {
      assert x !in s[1..];
    } else {
      RemoveElements(s[1..], x, y);
    }
  }

  lemma {:induction false} RemoveShrinks(s: seq<nat>, x: nat)
    requires NoDup(s) && x in s
    ensures NoDup(Remove(s, x)) && |Remove(s, x)| == |s| - 1
    ensures s[0] != x ==> |s| > 1
  {
    if s[0] != x {
      assert x in s[1..];
      RemoveShrinks(s[1..], x);
      var r := Remove(s[1..], x);
      forall k | 0 <= k < |r|
        ensures r[k] != s[0]
      {
        RemoveElements(s[1..], x, r[k]);
      }
    }
  }

  /** Moving a finished sub-request from pending to done keeps the partition. */
  lemma MovePartition(g: Group, i: nat)
    requires Partition(g) && i in g.pending && g.streams[i].finished
    ensures Partition(Moved(g, i)) && |Moved(g, i).pending| == |g.pending| - 1
    ensures g.pending[0] != i ==> |g.pending| > 1
    ensures forall k :: k in Moved(g, i).pending ==> k in g.pending
  {
    RemoveShrinks(g.pending, i);
    forall k: nat
      ensures k in Remove(g.pending, i) <==> k in g.pending && k != i
    {
      RemoveElements(g.pending, i, k);
    }
  }

  /** Emission changes no more than the delta offsets. */
  lemma EmitKeeps(cfg: Config, g: Group)
    requires Shape(cfg, g)
    ensures var g' := Emit(cfg, g).1;
            Shape(cfg, g') && (Partition(g) ==> Partition(g')) && g' == g.(streams := g'.streams)
    ensures Emit(cfg, g).0.None? <==>
            cfg.kind == FINAL_ONLY && exists k :: 0 <= k < |g.order| && !g.streams[g.order[k]].finished
  {
    hide Rank;
    var g' := Emit(cfg, g).1;
    assert forall k :: 0 <= k < |g.streams| ==> g'.streams[k].finished == g.streams[k].finished;
  }

  lemma ClearedIsEmpty(g: Group)
    requires forall k :: k in g.registered ==> k < |g.streams|
    ensures g.pending == [] ==> Cleared(g).registered == {}
  {
    var ids := UpTo(|g.streams|);
    forall k | k in g.registered
      ensures k in ids
    {
      assert ids[k] == k;
    }
  }

  /** The group that is emitted by a report of sub-request i, if any. */
  function Emitted(cfg: Config, g: Group, i: nat): Group
    requires |g.streams| == |g.scores| && i < |g.streams|
  {
    if !g.streams[i].finished then g
    else if cfg.kind == DELTA then Cleared(Moved(g, i))
    else Cleared(Moved(Selected(cfg, g), i))
  }

  /** Whether a report of sub-request i yields output. */
  predicate Emits(cfg: Config, g: Group, i: nat)
    requires i in g.pending && i < |g.streams|
  {
    if cfg.kind == DELTA then g.pending[0] == i else |g.pending| == 1 && g.streams[i].finished
  }

  lemma EmittedKeepsInv(cfg: Config, g: Group, i: nat)
    requires Inv(cfg, g) && i in g.pending && Emits(cfg, g, i)
    ensures Inv(cfg, Emitted(cfg, g, i))
  {
    hide Accounted, Rank;
    if g.streams[i].finished {
      MovePartition(g, i);
      ClearedIsEmpty(Emitted(cfg, g, i));
      ClearedIsEmpty(Moved(g, i));
      ClearedIsEmpty(Moved(Selected(cfg, g), i));
    }
  }

  lemma MovedKeepsInv(cfg: Config, g: Group, i: nat)
    requires Inv(cfg, g) && i in g.pending && !Emits(cfg, g, i) && g.streams[i].finished
    ensures Inv(cfg, Moved(g, i))
  {
    hide Accounted, Rank;
    MovePartition(g, i);
  }

  /** The cases of a report. */
  lemma ReportOutcome(cfg: Config, g: Group, i: nat)
    requires Inv(cfg, g) && i in g.pending
    ensures Emits(cfg, g, i) ==> Shape(cfg, Emitted(cfg, g, i))
    ensures Outcome(cfg, g, Report(i)) ==
            if Emits(cfg, g, i) then Emit(cfg, Emitted(cfg, g, i))
            else (None, if g.streams[i].finished then Moved(g, i) else g)
  {
    if Emits(cfg, g, i) {
      EmittedKeepsInv(cfg, g, i);
    }
    hide Emit, Accounted, Partition, Rank;
  }

  lemma ReportKeepsInv(cfg: Config, g: Group, i: nat)
    requires Inv(cfg, g) && i in g.pending
    ensures Inv(cfg, Outcome(cfg, g, Report(i)).1)
  {
    hide Outcome, Emit, Emits, Emitted, Accounted, Rank;
    ReportOutcome(cfg, g, i);
    if Emits(cfg, g, i) {
      EmittedKeepsInv(cfg, g, i);
      EmitKeeps(cfg, Emitted(cfg, g, i));
    } else if g.streams[i].finished {
      MovedKeepsInv(cfg, g, i);
    }
  }

  /** Every event keeps the invariant. */
  lemma OutcomeKeepsInv(cfg: Config, g: Group, e: Happening)
    requires Inv(cfg, g) && Possible(cfg, g, e)
    ensures Inv(cfg, Outcome(cfg, g, e).1)
  {
    hide Handle, Accounted, Held;
    match e
    case Cleanup(i) =>
    case Report(i) => ReportKeepsInv(cfg, g, i);
    case _ => TouchKeepsInv(cfg, g, e);
  }

  /** A run: every event is possible when it happens. */
  ghost predicate IsRun(cfg: Config, t: Trace, events: seq<Happening>)
    requires Inv(cfg, t.g)
    decreases |events|
  {
    events != [] ==>
      && Possible(cfg, t.g, events[0])
      && (OutcomeKeepsInv(cfg, t.g, events[0]); IsRun(cfg, NextTrace(cfg, t, events[0]), events[1..]))
  }

  /** Adds the texts and tokens of an output, entry by entry, to what has been emitted before. */
  function AddTexts(texts: seq<string>, out: Option<Output>): seq<string> {
    if out.None? || |out.value.outputs| != |texts| then texts
    else seq(|texts|, k requires 0 <= k < |texts| => texts[k] + out.value.outputs[k].text)
  }

  function AddTokens(tokens: seq<seq<int>>, out: Option<Output>): seq<seq<int>> {
    if out.None? || |out.value.outputs| != |tokens| then tokens
    else seq(|tokens|, k requires 0 <= k < |tokens| => tokens[k] + out.value.outputs[k].tokens)
  }

  ghost function NextTrace(cfg: Config, t: Trace, e: Happening): (r: Trace)
    requires Inv(cfg, t.g) && Possible(cfg, t.g, e)
    ensures Inv(cfg, r.g)
  {
    OutcomeKeepsInv(cfg, t.g, e);
    var (out, g) := Outcome(cfg, t.g, e);
    Trace(g, AddTexts(t.texts, out), AddTokens(t.tokens, out), if out.Some? then t.outputs + [out.value] else t.outputs)
  }

  ghost function After(cfg: Config, t: Trace, events: seq<Happening>): (r: Trace)
    requires Inv(cfg, t.g) && IsRun(cfg, t, events)
    ensures Inv(cfg, r.g)
    decreases |events|
  {
    if events == [] then t else
    OutcomeKeepsInv(cfg, t.g, events[0]);
    After(cfg, NextTrace(cfg, t, events[0]), events[1..])
  }

  ghost function StartTrace(prompt: seq<int>, n: nat): Trace {
    Trace(Start(prompt, n), seq(n, k => ""), seq(n, k => []), [])
  }

  lemma StartInv(cfg: Config, prompt: seq<int>, n: nat)
    requires n > 0
    ensures Inv(cfg, Start(prompt, n))
  {
    var g := Start(prompt, n);
    forall k: nat | k < n
      ensures k in g.pending
    {
      assert UpTo(n)[k] == k;
    }
  }

  /** A run of a request for n samples, and the state it leads to. */
  ghost predicate Possibly(cfg: Config, prompt: seq<int>, n: nat, events: seq<Happening>)
    requires n > 0
  {
    StartInv(cfg, prompt, n);
    IsRun(cfg, StartTrace(prompt, n), events)
  }

  ghost function Final(cfg: Config, prompt: seq<int>, n: nat, events: seq<Happening>): (t: Trace)
    requires n > 0 && Possibly(cfg, prompt, n, events)
    ensures Inv(cfg, t.g)
  {
    StartInv(cfg, prompt, n);
    After(cfg, StartTrace(prompt, n), events)
  }

  /** What a sample has generated: its tokens, its text, its cumulative log-probability, and whether it has ended. */
  datatype Account = Account(tokens: seq<int>, text: string, score: real, ended: bool)

  function Tally(a: Account, e: Happening, k: nat): Account {
    match e
    case Step(i, tokens, chunk, lp) =>
      if i == k then Account(a.tokens + tokens, a.text + chunk, a.score + lp, a.ended) else a
    case End(i, tokens, finalText, lp) =>
      if i == k then Account(a.tokens + tokens, finalText, a.score + lp, true) else a
    case _ => a
  }

  function TallyAll(a: Account, events: seq<Happening>, k: nat): Account
    decreases |events|
  {
    if events == [] then a else TallyAll(Tally(a, events[0], k), events[1..], k)
  }

  /** What the events of a run make sample k generate. */
  function Generated(events: seq<Happening>, k: nat): Account {
    TallyAll(Account([], "", 0.0, false), events, k)
  }

  function AccountOf(g: Group, k: nat): Account
    requires k < |g.streams| == |g.scores|
  {
    Account(g.streams[k].output, g.streams[k].text, g.scores[k], g.streams[k].finished)
  }

  /** Emission and selection change nobody's account. */
  lemma EmitAccounts(cfg: Config, g: Group, i: nat, k: nat)
    requires Inv(cfg, g) && i in g.pending && k < |g.streams|
    ensures var g' := Outcome(cfg, g, Report(i)).1;
            |g'.streams| == |g.streams| == |g'.scores| && AccountOf(g', k) == AccountOf(g, k)
  {
    hide Outcome, Emit, Emits, Inv, Accounted, Rank, Partition, Registry;
    assert i < |g.streams| == |g.scores| by { PendingInRange(cfg, g, i); }
    ReportOutcome(cfg, g, i);
    if Emits(cfg, g, i) {
      EmittedAccount(cfg, Emitted(cfg, g, i), k);
    }
  }

  lemma PendingInRange(cfg: Config, g: Group, i: nat)
    requires Inv(cfg, g) && i in g.pending
    ensures i < |g.streams| == |g.scores|
  {
  }

  lemma EmittedAccount(cfg: Config, g: Group, k: nat)
    requires Shape(cfg, g) && k < |g.streams|
    ensures var g' := Emit(cfg, g).1;
            |g'.streams| == |g.streams| && |g'.scores| == |g.scores| && AccountOf(g', k) == AccountOf(g, k)
  {
    hide Rank, Accounted, Stream.Shown;
    EmitKeeps(cfg, g);
    EmitOne(cfg, g, k);
  }

  lemma EmitOne(cfg: Config, g: Group, k: nat)
    requires Shape(cfg, g) && k < |g.streams|
    ensures var g' := Emit(cfg, g).1;
            && |g'.streams| == |g.streams|
            && (g'.streams[k] == g.streams[k] || g'.streams[k] == g.streams[k].Advance(cfg.buffer))
  {
    hide Rank, Stream.Advance, Stream.DeltaText, Stream.CumulativeText, Stream.DeltaTokens;
  }

  lemma AccountStep(cfg: Config, g: Group, e: Happening, k: nat)
    requires Inv(cfg, g) && Possible(cfg, g, e) && k < |g.streams|
    ensures var g' := Outcome(cfg, g, e).1;
            |g'.streams| == |g.streams| == |g'.scores| && AccountOf(g', k) == Tally(AccountOf(g, k), e, k)
  {
    hide Handle, Accounted, Held, Partition, Registry, Rank;
    match e
    case Report(i) => EmitAccounts(cfg, g, i, k);
    case _ =>
  }

  lemma {:induction false} AccountRun(cfg: Config, t: Trace, events: seq<Happening>, k: nat)
    requires Inv(cfg, t.g) && IsRun(cfg, t, events) && k < |t.g.streams| == |t.g.scores|
    ensures var g' := After(cfg, t, events).g;
            |g'.streams| == |t.g.streams| == |g'.scores| && AccountOf(g', k) == TallyAll(AccountOf(t.g, k), events, k)
    decreases |events|
  {
    hide Inv, Possible, Outcome, Tally, AccountOf;
    if events != [] {
      AccountStep(cfg, t.g, events[0], k);
      AccountRun(cfg, NextTrace(cfg, t, events[0]), events[1..], k);
    }
  }

  /** In every run each of the n samples has the tokens, text and score that the events gave it. */
  lemma SamplesAddUp(cfg: Config, prompt: seq<int>, n: nat, events: seq<Happening>)
    requires n > 0 && Possibly(cfg, prompt, n, events)
    ensures var g := Final(cfg, prompt, n, events).g;
            && |g.streams| == |g.scores| == n
            && forall k: nat :: k < n ==> AccountOf(g, k) == Generated(events, k)
  {
    hide IsRun, After, Inv;
    StartInv(cfg, prompt, n);
    var start := StartTrace(prompt, n);
    AccountRun(cfg, start, events, 0);
    forall k: nat | k < n
      ensures AccountOf(After(cfg, start, events).g, k) == Generated(events, k)
    {
      AccountRun(cfg, start, events, k);
    }
  }

  /** What has been emitted for sub-request k is exactly what its offsets say. */
  ghost predicate Streamed(cfg: Config, t: Trace) {
    && |t.texts| == |t.tokens| == |t.g.streams|
    && (forall k :: 0 <= k < |t.texts| ==> LogInv(Log(t.g.streams[k], t.texts[k], t.tokens[k]), cfg.buffer))
    && (t.g.pending == [] ==> forall k :: 0 <= k < |t.texts| ==>
                                t.texts[k] == t.g.streams[k].text && t.tokens[k] == t.g.streams[k].output)
  }

  /** Emission brings every sub-request's emitted output level with its stream. */
  lemma EmitStreams(cfg: Config, g: Group, texts: seq<string>, tokens: seq<seq<int>>)
    requires Shape(cfg, g) && cfg.kind == DELTA && |texts| == |tokens| == |g.streams|
    requires forall k :: 0 <= k < |texts| ==> LogInv(Log(g.streams[k], texts[k], tokens[k]), cfg.buffer)
    ensures var (out, g') := Emit(cfg, g);
            && out.Some? && |out.value.outputs| == |texts|
            && forall k :: 0 <= k < |texts| ==>
                 && LogInv(Log(g'.streams[k], AddTexts(texts, out)[k], AddTokens(tokens, out)[k]), cfg.buffer)
                 && AddTexts(texts, out)[k] == g.streams[k].CumulativeText(cfg.buffer)
                 && AddTokens(tokens, out)[k] == g.streams[k].output
                 && g'.streams[k] == g.streams[k].Advance(cfg.buffer)
  {
    var (out, g') := Emit(cfg, g);
    forall k | 0 <= k < |texts|
      ensures LogInv(Log(g'.streams[k], AddTexts(texts, out)[k], AddTokens(tokens, out)[k]), cfg.buffer)
      ensures AddTexts(texts, out)[k] == g.streams[k].CumulativeText(cfg.buffer)
      ensures AddTokens(tokens, out)[k] == g.streams[k].output
      ensures g'.streams[k] == g.streams[k].Advance(cfg.buffer)
    {
      assert g.order[k] == k && k in g.order;
      EmitKeepsLog(Log(g.streams[k], texts[k], tokens[k]), cfg.buffer);
      hide LogInv, Stream.Shown;
    }
  }

  /** A generation event leaves what has been emitted consistent. */
  lemma TouchLogs(cfg: Config, g: Group, e: Happening, texts: seq<string>, tokens: seq<seq<int>>)
    requires Shape(cfg, g) && Possible(cfg, g, e) && Generates(e) && |texts| == |tokens| == |g.streams|
    requires forall k :: 0 <= k < |texts| ==> LogInv(Log(g.streams[k], texts[k], tokens[k]), cfg.buffer)
    ensures forall k :: 0 <= k < |texts| ==> LogInv(Log(Touch(cfg, g, e).streams[k], texts[k], tokens[k]), cfg.buffer)
  {
    hide LogInv, Held, Accounted;
    StepKeepsLog(Log(g.streams[e.i], texts[e.i], tokens[e.i]), cfg.buffer, StreamEvent(e));
  }

  /** Emitting when nothing is pending leaves nothing behind. */
  lemma EmitLast(cfg: Config, g: Group, texts: seq<string>, tokens: seq<seq<int>>)
    requires Shape(cfg, g) && Partition(g) && cfg.kind == DELTA && |texts| == |tokens| == |g.streams|
    requires forall k :: 0 <= k < |texts| ==> LogInv(Log(g.streams[k], texts[k], tokens[k]), cfg.buffer)
    ensures var (out, g') := Emit(cfg, g);
            out.Some? && Streamed(cfg, Trace(g', AddTexts(texts, out), AddTokens(tokens, out), []))
  {
    var out := Emit(cfg, g).0;
    hide Emit, AddTexts, AddTokens, LogInv, Accounted;
    EmitStreams(cfg, g, texts, tokens);
    EmitKeeps(cfg, g);
    AddedLengths(texts, tokens, out);
    assert g.pending == [] ==> forall k :: 0 <= k < |texts| ==>
                                 g.streams[k].CumulativeText(cfg.buffer) == g.streams[k].text;
  }

  lemma AddedLengths(texts: seq<string>, tokens: seq<seq<int>>, out: Option<Output>)
    ensures |AddTexts(texts, out)| == |texts| && |AddTokens(tokens, out)| == |tokens|
  {
  }

  /** In streaming mode an event yields output exactly when it reports the first remaining sub-request,
      and what has been emitted stays consistent. */
  lemma StreamingStep(cfg: Config, t: Trace, e: Happening)
    requires Inv(cfg, t.g) && Possible(cfg, t.g, e) && cfg.kind == DELTA && Streamed(cfg, t)
    ensures Streamed(cfg, NextTrace(cfg, t, e))
    ensures Outcome(cfg, t.g, e).0.Some? <==> e.Report? && t.g.pending[0] == e.i
  {
    hide Emit, LogInv, Accounted, Held, AddTexts, AddTokens, Handle, Rank;
    NoOutput(t.texts, t.tokens);
    match e
    case Cleanup(i) =>
    case Report(i) =>
      ReportOutcome(cfg, t.g, i);
      if Emits(cfg, t.g, i) {
        EmittedKeepsInv(cfg, t.g, i);
        EmitLast(cfg, Emitted(cfg, t.g, i), t.texts, t.tokens);
      } else if t.g.streams[i].finished {
        MovePartition(t.g, i);
      }
    case _ =>
      TouchKeepsInv(cfg, t.g, e);
      TouchLogs(cfg, t.g, e, t.texts, t.tokens);
  }

  /** A streaming report yields output if and only if it is of the first pending sub-request. The output has one entry
      per sample, at its own index, with its finished flag, and is finished when all samples are. */
  lemma DeltaReport(cfg: Config, g: Group, i: nat)
    requires Inv(cfg, g) && i in g.pending && cfg.kind == DELTA
    ensures var out := Outcome(cfg, g, Report(i)).0;
            && (out.Some? <==> g.pending[0] == i)
            && (out.Some? ==>
                  && |out.value.outputs| == |g.streams|
                  && (forall k :: 0 <= k < |g.streams| ==>
                        out.value.outputs[k].index == k && out.value.outputs[k].finished == g.streams[k].finished)
                  && (out.value.finished <==> forall k :: 0 <= k < |g.streams| ==> g.streams[k].finished))
  {
    hide Outcome, Accounted, Rank, Stream.DeltaText, Stream.Advance;
    ReportOutcome(cfg, g, i);
    if Emits(cfg, g, i) {
      EmittedKeepsInv(cfg, g, i);
      var e := Emitted(cfg, g, i);
      assert e.streams == g.streams && e.order == UpTo(|g.streams|);
      assert forall k :: 0 <= k < |g.streams| ==> e.order[k] == k;
    }
  }

  lemma NoOutput(texts: seq<string>, tokens: seq<seq<int>>)
    ensures AddTexts(texts, None) == texts && AddTokens(tokens, None) == tokens
  {
  }

  lemma {:induction false} StreamingRun(cfg: Config, t: Trace, events: seq<Happening>)
    requires Inv(cfg, t.g) && cfg.kind == DELTA && Streamed(cfg, t) && IsRun(cfg, t, events)
    ensures Streamed(cfg, After(cfg, t, events))
    decreases |events|
  {
    hide Inv, Streamed, NextTrace, Possible;
    if events != [] {
      StreamingStep(cfg, t, events[0]);
      StreamingRun(cfg, NextTrace(cfg, t, events[0]), events[1..]);
    }
  }

  /** Streaming loses nothing and repeats nothing: whatever the interleaving of the n sub-requests, the deltas emitted
      for a sample are at all times a prefix of its tokens and text, and all of them once the last sub-request has been
      reported as finished; then none of the group is registered. */
  lemma StreamingLosesNothing(cfg: Config, prompt: seq<int>, n: nat, events: seq<Happening>)
    requires n > 0 && cfg.kind == DELTA && Possibly(cfg, prompt, n, events)
    ensures var t := Final(cfg, prompt, n, events);
            && |t.texts| == |t.tokens| == n
            && (forall k :: 0 <= k < n ==>
                  t.texts[k] <= Generated(events, k).text && t.tokens[k] <= Generated(events, k).tokens)
            && (t.g.pending == [] ==>
                  && (forall k :: 0 <= k < n ==>
                        var made := Generated(events, k);
                        made.ended && t.texts[k] == made.text && t.tokens[k] == made.tokens)
                  && t.g.registered == {})
  {
    hide IsRun, After, Generated;
    SamplesAddUp(cfg, prompt, n, events);
    StartInv(cfg, prompt, n);
    var start := StartTrace(prompt, n);
    assert start.texts == seq(n, k => "") && start.tokens == seq(n, k => []);
    assert Streamed(cfg, start);
    StreamingRun(cfg, start, events);
  }

  /** What a non-streaming request hands out: complete sequences, renumbered from zero. */
  ghost predicate Complete(g: Group, out: Output) {
    && out.finished && |out.outputs| == |g.order|
    && forall k :: 0 <= k < |g.order| ==>
         g.order[k] < |g.streams|
           && out.outputs[k] == Completion(k, g.streams[g.order[k]].text, g.streams[g.order[k]].output, true)
  }

  /** Either some sub-request is still running and nothing has been handed out,
      or all have finished and exactly one output with the selected sequences has been. */
  ghost predicate Once(cfg: Config, t: Trace) {
    if t.g.pending != [] then t.outputs == []
    else && |t.outputs| == 1 && Complete(t.g, t.outputs[0])
         && |t.g.scores| == |t.g.streams|
         && t.g.order == match cfg.realN
                         case None => UpTo(|t.g.streams|)
                         case Some(m) => Rank(t.g.scores, |t.g.scores|)[..TopCount(m, |t.g.scores|)]
  }

  lemma EmitComplete(cfg: Config, g: Group)
    requires Shape(cfg, g) && Partition(g) && cfg.kind != DELTA && g.pending == []
    ensures var (out, g') := Emit(cfg, g); g' == g && out.Some? && Complete(g, out.value)
  {
    var out := Emit(cfg, g).0;
    hide Accounted, Rank;
    forall k | 0 <= k < |g.order|
      ensures out.value.outputs[k] == Completion(k, g.streams[g.order[k]].text, g.streams[g.order[k]].output, true)
    {
    }
  }

  /** In non-streaming mode an event yields output exactly when it reports the last remaining sub-request finished. */
  lemma AssemblyStep(cfg: Config, t: Trace, e: Happening)
    requires Inv(cfg, t.g) && Possible(cfg, t.g, e) && cfg.kind != DELTA && Once(cfg, t)
    ensures Once(cfg, NextTrace(cfg, t, e))
    ensures Outcome(cfg, t.g, e).0.Some? <==> e.Report? && |t.g.pending| == 1 && t.g.streams[e.i].finished
  {
    hide Emit, Accounted, Held, AddTexts, AddTokens, Handle, Rank;
    match e
    case Cleanup(i) =>
    case Report(i) =>
      ReportOutcome(cfg, t.g, i);
      if Emits(cfg, t.g, i) {
        MovePartition(t.g, i);
        EmittedKeepsInv(cfg, t.g, i);
        EmitComplete(cfg, Emitted(cfg, t.g, i));
      } else if t.g.streams[i].finished {
        MovePartition(t.g, i);
      }
    case _ =>
      TouchKeepsInv(cfg, t.g, e);
  }

  lemma {:induction false} AssemblyRun(cfg: Config, t: Trace, events: seq<Happening>)
    requires Inv(cfg, t.g) && cfg.kind != DELTA && Once(cfg, t) && IsRun(cfg, t, events)
    ensures Once(cfg, After(cfg, t, events))
    decreases |events|
  {
    hide Inv, Once, NextTrace, Possible;
    if events != [] {
      AssemblyStep(cfg, t, events[0]);
      AssemblyRun(cfg, NextTrace(cfg, t, events[0]), events[1..]);
    }
  }

  /** Sample a is ranked before sample b: by the log-probabilities of all its tokens, or else by its place. */
  predicate Outscores(events: seq<Happening>, a: nat, b: nat) {
    var x, y := Generated(events, a).score, Generated(events, b).score;
    x > y || (x == y && a < b)
  }

  /** The number of samples to hand out: all of them unless a limit between one and their number is set. */
  predicate RightNumber(realN: Option<nat>, n: nat, count: nat) {
    && (realN.None? || realN.value == 0 || n < realN.value ==> count == n)
    && (realN.Some? && 0 < realN.value <= n ==> count == realN.value)
  }

  /** The complete text and tokens of distinct samples, renumbered: in their order if there is no limit,
      else the best, best first. */
  ghost predicate Delivered(cfg: Config, events: seq<Happening>, n: nat, order: seq<nat>, out: Output) {
    && out.finished && |out.outputs| == |order| && RightNumber(cfg.realN, n, |order|)
    && (forall k :: 0 <= k < |order| ==>
          var made := Generated(events, order[k]);
          order[k] < n && made.ended && out.outputs[k] == Completion(k, made.text, made.tokens, true))
    && (cfg.realN.None? ==> forall k :: 0 <= k < |order| ==> order[k] == k)
    && (cfg.realN.Some? ==>
          && (forall j, k :: 0 <= j < k < |order| ==> Outscores(events, order[j], order[k]))
          && (forall k, i: nat :: 0 <= k < |order| && i < n && i !in order ==> Outscores(events, order[k], i)))
  }

  lemma SelectedIsDelivered(cfg: Config, events: seq<Happening>, n: nat, t: Trace)
    requires n > 0 && Once(cfg, t) && Partition(t.g) && t.g.pending == [] && |t.g.streams| == |t.g.scores| == n
    requires forall k: nat :: k < n ==> AccountOf(t.g, k) == Generated(events, k)
    ensures |t.outputs| == 1 && Delivered(cfg, events, n, t.g.order, t.outputs[0])
  {
    hide Rank, Generated, Before;
    assert forall k: nat :: k < n ==> Generated(events, k) == AccountOf(t.g, k);
    if cfg.realN.Some? {
      var m := TopCount(cfg.realN.value, n);
      RankIsRanked(t.g.scores, n);
      forall j, k | 0 <= j < k < |t.g.order|
        ensures Outscores(events, t.g.order[j], t.g.order[k])
      {
        OutscoresIs(t.g, events, n, t.g.order[j], t.g.order[k]);
      }
      forall k, i: nat | 0 <= k < |t.g.order| && i < n && i !in t.g.order
        ensures Outscores(events, t.g.order[k], i)
      {
        TopBeatsRest(t.g.scores, m, k, i);
        OutscoresIs(t.g, events, n, t.g.order[k], i);
      }
    }
  }

  lemma OutscoresIs(g: Group, events: seq<Happening>, n: nat, a: nat, b: nat)
    requires |g.streams| == |g.scores| == n && a < n && b < n
    requires AccountOf(g, a) == Generated(events, a) && AccountOf(g, b) == Generated(events, b)
    ensures Outscores(events, a, b) <==> Before(g.scores, a, b)
  {
    hide Generated;
  }

  /** Without streaming, every run hands out nothing until the last sub-request finishes and then exactly one output:
      the complete text and tokens of every sample, or of the best ones when fewer are to be returned. */
  lemma AssembledOnce(cfg: Config, prompt: seq<int>, n: nat, events: seq<Happening>)
    requires n > 0 && cfg.kind != DELTA && Possibly(cfg, prompt, n, events)
    ensures var t := Final(cfg, prompt, n, events);
            if t.g.pending != [] then t.outputs == []
            else |t.outputs| == 1 && Delivered(cfg, events, n, t.g.order, t.outputs[0]) && t.g.registered == {}
  {
    hide IsRun, After, Delivered, Generated, Rank;
    SamplesAddUp(cfg, prompt, n, events);
    StartInv(cfg, prompt, n);
    AssemblyRun(cfg, StartTrace(prompt, n), events);
    var t := After(cfg, StartTrace(prompt, n), events);
    if t.g.pending == [] {
      SelectedIsDelivered(cfg, events, n, t);
    }
  }
}
