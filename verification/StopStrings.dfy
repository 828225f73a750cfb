/** Stop strings: finding them in the newly generated text, cutting the output, and what may be streamed meanwhile. */
module StopStrings {
  import opened OutputStream
  import opened Wrappers

  predicate MatchesAt(text: string, pat: string, i: int) {
    0 <= i && i + |pat| <= |text| && text[i..i + |pat|] == pat
  }

  ghost predicate Contains(text: string, pat: string) {
    exists i :: MatchesAt(text, pat, i)
  }

  /** Least match at or after `start`, or -1. */
  function Find(text: string, pat: string, start: nat): (r: int)
    ensures r == -1 ==> forall i :: start <= i ==> !MatchesAt(text, pat, i)
    ensures r != -1 ==> start <= r && MatchesAt(text, pat, r) && forall i :: start <= i < r ==> !MatchesAt(text, pat, i)
    decreases |text| - start
  {
    if start + |pat| > |text| then -1
    else if MatchesAt(text, pat, start) then start
    else if start == |text| then -1
    else Find(text, pat, start + 1)
  }

  /** A stop string that was found, and the length to which the text is cut (None: no cut). */
  datatype Stop = Stop(str: string, cut: Option<nat>)

  /** Start of the search: only matches that end in the last newChars characters are new. */
  function Window(text: string, newChars: nat, pat: string): nat {
    var start := |text| + 1 - newChars - |pat|;
    if start < 0 then 0 else start
  }

  /** The first stop string, in list order, with a match in its window. */
  function CheckStop(text: string, newChars: nat, stops: seq<string>, keepStop: bool): (r: Option<Stop>)
    ensures r.Some? && r.value.cut.Some? ==> r.value.cut.value <= |text|
    decreases |stops|
  {
    if newChars == 0 || stops == [] then None else
    var i := Find(text, stops[0], Window(text, newChars, stops[0]));
    if i == -1 then CheckStop(text, newChars, stops[1..], keepStop)
    else if keepStop && i + |stops[0]| >= |text| then Some(Stop(stops[0], None))
    else Some(Stop(stops[0], Some(if keepStop then i + |stops[0]| else i)))
  }

  method CheckStopStrings(text: string, newChars: nat, stops: seq<string>, keepStop: bool) returns (r: Option<Stop>)
    ensures r == CheckStop(text, newChars, stops, keepStop)
  {
    if newChars == 0 || stops == [] {
      return None;
    }
    for k := 0 to |stops|
      invariant CheckStop(text, newChars, stops, keepStop) == CheckStop(text, newChars, stops[k..], keepStop)
    {
      assert stops[k..][1..] == stops[k + 1..];
      var i := Find(text, stops[k], Window(text, newChars, stops[k]));
      if i == -1 {
        continue;
      }
      if keepStop {
        i := i + |stops[k]|;
        if i >= |text| {
          return Some(Stop(stops[k], None));
        }
      }
      return Some(Stop(stops[k], Some(i)));
    }
    return None;
  }

  datatype Params = Params(minTokens: nat, eos: Option<int>, ignoreEos: bool, stopTokenIds: seq<int>,
                           stops: seq<string>, keepStop: bool, maxLen: nat, maxTokens: Option<nat>)

  /** Longest stop string. */
  function MaxLen(stops: seq<string>): (m: nat)
    ensures forall k :: 0 <= k < |stops| ==> |stops[k]| <= m
  {
    if stops == [] then 0 else
    var m := MaxLen(stops[1..]);
    assert forall k :: 1 <= k < |stops| ==> stops[k] == stops[1..][k - 1];
    if |stops[0]| >= m then |stops[0]| else m
  }

  /** m is the length of the longest stop string. */
  ghost predicate IsLongest(stops: seq<string>, m: nat) {
    (exists k :: 0 <= k < |stops| && |stops[k]| == m) && forall k :: 0 <= k < |stops| ==> |stops[k]| <= m
  }

  lemma {:induction false} LongestIsAttained(stops: seq<string>)
    requires stops != []
    ensures IsLongest(stops, MaxLen(stops))
  {
    if |stops| > 1 {
      LongestIsAttained(stops[1..]);
      var k :| 0 <= k < |stops[1..]| && |stops[1..][k]| == MaxLen(stops[1..]);
      assert stops[k + 1] == stops[1..][k];
    } else {
      assert stops[1..] == [] && |stops[0]| == MaxLen(stops);
    }
    assert |stops[0]| <= MaxLen(stops);
  }

  /** Stop strings are not empty: parameters that say otherwise are rejected. */
  predicate NonEmpty(stops: seq<string>) {
    forall k :: 0 <= k < |stops| ==> stops[k] != ""
  }

  /** Number of characters held back while the sequence runs. */
  function BufferLength(stops: seq<string>, keepStop: bool): nat
    requires NonEmpty(stops)
  {
    if stops != [] && !keepStop then assert |stops[0]| > 0; MaxLen(stops) - 1 else 0
  }

  /** Running, or finished with the given text. */
  datatype Verdict = Running | Done(text: string, status: Status)

  /** The decision after one token whose text is the last newChars characters. */
  function Judge(p: Params, text: string, newChars: nat, outputLen: nat, len: nat, token: int): Verdict
    requires newChars <= |text|
  {
    if outputLen < p.minTokens then Running
    else if (!p.ignoreEos && p.eos == Some(token)) || token in p.stopTokenIds then
      Done(if newChars != 0 && !p.keepStop then DropLast(text, newChars) else text, FINISHED_STOPPED)
    else
      match CheckStop(text, newChars, p.stops, p.keepStop)
      case Some(stop) => Done(if stop.cut.Some? then text[..stop.cut.value] else text, FINISHED_STOPPED)
      case None =>
        if len >= p.maxLen || p.maxTokens == Some(outputLen) then Done(text, FINISHED_LENGTH_CAPPED) else Running
  }

  /** pat occurs at i and ends in the last newChars characters. */
  ghost predicate NewMatch(text: string, newChars: nat, pat: string, i: int) {
    MatchesAt(text, pat, i) && |text| - newChars < i + |pat|
  }

  ghost predicate HasNew(text: string, newChars: nat, pat: string) {
    exists i :: NewMatch(text, newChars, pat, i)
  }

  /** Stop string k is the first listed one with a new match, and i its first one. */
  ghost predicate FirstNew(text: string, newChars: nat, stops: seq<string>, k: nat, i: nat) {
    && k < |stops| && NewMatch(text, newChars, stops[k], i)
    && (forall j :: 0 <= j < k ==> !HasNew(text, newChars, stops[j]))
    && (forall m :: m < i ==> !NewMatch(text, newChars, stops[k], m))
  }

  /** The text that is returned when stop string pat is found at i. */
  function CutAt(text: string, pat: string, i: nat, keepStop: bool): string
    requires i + |pat| <= |text|
  {
    if keepStop then text[..i + |pat|] else text[..i]
  }

  lemma FindsNew(text: string, newChars: nat, pat: string)
    requires newChars > 0
    ensures var i := Find(text, pat, Window(text, newChars, pat));
            if i == -1 then !HasNew(text, newChars, pat)
            else NewMatch(text, newChars, pat, i) && forall m :: m < i ==> !NewMatch(text, newChars, pat, m)
  {
  }

  /** A check finds something exactly when some stop string has a new match. It then reports the first listed one, and
      the text ends before its first new match, or right behind it if stop strings are kept. */
  lemma {:induction false} CheckStopIs(text: string, newChars: nat, stops: seq<string>, keepStop: bool)
    returns (k: nat, i: nat)
    ensures var r := CheckStop(text, newChars, stops, keepStop);
            && (r.None? <==> forall j :: 0 <= j < |stops| ==> !HasNew(text, newChars, stops[j]))
            && (r.Some? ==>
                  && FirstNew(text, newChars, stops, k, i) && r.value.str == stops[k]
                  && (if r.value.cut.Some? then text[..r.value.cut.value] else text) ==
                     CutAt(text, stops[k], i, keepStop))
    decreases |stops|
  {
    k, i := 0, 0;
    if newChars != 0 && stops != [] {
      var at := Find(text, stops[0], Window(text, newChars, stops[0]));
      FindsNew(text, newChars, stops[0]);
      if at == -1 {
        k, i := CheckStopIs(text, newChars, stops[1..], keepStop);
        k := k + 1;
        assert forall j :: 1 <= j < |stops| ==> stops[j] == stops[1..][j - 1];
      } else {
        i := at;
      }
    }
  }

  /** The last token ends the sequence by itself: end of sequence, unless ignored, or a stop token. */
  predicate EndsByToken(p: Params, token: int) {
    (p.eos == Some(token) && !p.ignoreEos) || token in p.stopTokenIds
  }

  /** The rules for a sequence with n output and len tokens in all, whose last token added the last newChars characters:
      nothing happens before the minimum; then tokens decide, then stop strings, then the two length limits. */
  ghost predicate Rules(p: Params, text: string, newChars: nat, n: nat, len: nat, token: int, v: Verdict)
    requires newChars <= |text|
  {
    var stopFound := exists j :: 0 <= j < |p.stops| && HasNew(text, newChars, p.stops[j]);
    && (n < p.minTokens ==> v == Running)
    && (n >= p.minTokens && EndsByToken(p, token) ==>
          v == Done(if p.keepStop then text else text[..|text| - newChars], FINISHED_STOPPED))
    && (n >= p.minTokens && !EndsByToken(p, token) && stopFound ==>
          exists k: nat, i: nat :: FirstNew(text, newChars, p.stops, k, i)
                         && v == Done(CutAt(text, p.stops[k], i, p.keepStop), FINISHED_STOPPED))
    && (n >= p.minTokens && !EndsByToken(p, token) && !stopFound ==>
          v == if len >= p.maxLen || p.maxTokens == Some(n) then Done(text, FINISHED_LENGTH_CAPPED) else Running)
  }

  lemma JudgeFollowsRules(p: Params, text: string, newChars: nat, n: nat, len: nat, token: int)
    requires newChars <= |text|
    ensures Rules(p, text, newChars, n, len, token, Judge(p, text, newChars, n, len, token))
  {
    var k, i := CheckStopIs(text, newChars, p.stops, p.keepStop);
    hide CheckStop, FirstNew;
    assert text[..|text| - 0] == text;
    var v := Judge(p, text, newChars, n, len, token);
    if n >= p.minTokens && !EndsByToken(p, token) && v.Done? && v.status == FINISHED_STOPPED {
      assert FirstNew(text, newChars, p.stops, k, i);
    }
  }

  /** Stops the sequence in place if its last token ends it. */
  method MaybeStopSequence(s: Sequence, newChars: nat, p: Params)
    requires s.Valid() && newChars <= |s.outputText| && |s.data.outputTokenIds| > 0 && !IsFinished(s.status)
    modifies s`outputText, s`status
    ensures s.data.View() == old(s.data.View())
    ensures s.lastOutputTextOffset == old(s.lastOutputTextOffset)
            && s.lastOutputTokenIdsOffset == old(s.lastOutputTokenIdsOffset)
    ensures match Judge(p, old(s.outputText), newChars, |s.data.outputTokenIds|, s.data.GetLen(),
            s.data.outputTokenIds[|s.data.outputTokenIds| - 1])
            case Running => s.outputText == old(s.outputText) && s.status == old(s.status)
            case Done(text, status) => s.outputText == text && s.status == status
    ensures !IsFinished(s.status) ==> s.outputText == old(s.outputText) && s.status == old(s.status)
    ensures var ids := s.data.outputTokenIds;
            Rules(p, old(s.outputText), newChars, |ids|, s.data.GetLen(), ids[|ids| - 1],
                  if IsFinished(s.status) then Done(s.outputText, s.status) else Running)
  {
    JudgeFollowsRules(p, s.outputText, newChars, |s.data.outputTokenIds|, s.data.GetLen(),
                      s.data.outputTokenIds[|s.data.outputTokenIds| - 1]);
    hide Rules, CheckStop;
    var outputLen := |s.data.outputTokenIds|;
    if outputLen < p.minTokens {
      return;
    }
    var last := s.data.outputTokenIds[outputLen - 1];
    if !p.ignoreEos && p.eos == Some(last) {
      if newChars != 0 && !p.keepStop {
        s.outputText := DropLast(s.outputText, newChars);
      }
      s.status := FINISHED_STOPPED;
      return;
    }
    if last in p.stopTokenIds {
      if newChars != 0 && !p.keepStop {
        s.outputText := DropLast(s.outputText, newChars);
      }
      s.status := FINISHED_STOPPED;
      return;
    }
    var stop := CheckStopStrings(s.outputText, newChars, p.stops, p.keepStop);
    if stop.Some? {
      if stop.value.cut.Some? {
        s.outputText := s.outputText[..stop.value.cut.value];
      }
      s.status := FINISHED_STOPPED;
      return;
    }
    if s.data.GetLen() >= p.maxLen {
      s.status := FINISHED_LENGTH_CAPPED;
      return;
    }
    if p.maxTokens == Some(outputLen) {
      s.status := FINISHED_LENGTH_CAPPED;
    }
  }

  /** A cut never reaches into text that was old and outside the hold-back buffer. */
  lemma {:induction false} CutIsHeld(old_: string, chunk: string, stops: seq<string>, keepStop: bool)
    requires NonEmpty(stops)
    ensures var r := CheckStop(old_ + chunk, |chunk|, stops, keepStop);
            r.Some? && r.value.cut.Some? ==> |old_| <= r.value.cut.value + (if keepStop then 0 else MaxLen(stops) - 1)
    decreases |stops|
  {
    if chunk != "" && stops != [] {
      var text := old_ + chunk;
      if Find(text, stops[0], Window(text, |chunk|, stops[0])) == -1 {
        CutIsHeld(old_, chunk, stops[1..], keepStop);
      }
    }
  }

  /** Whatever ends a sequence, its final text keeps everything that could have been streamed before the last step. */
  lemma FinalTextIsHeld(p: Params, old_: string, chunk: string, outputLen: nat, len: nat, token: int)
    requires NonEmpty(p.stops)
    ensures var v := Judge(p, old_ + chunk, |chunk|, outputLen, len, token);
            v.Done? ==> Held(old_, BufferLength(p.stops, p.keepStop), v.text)
  {
    var text, b := old_ + chunk, BufferLength(p.stops, p.keepStop);
    CutIsHeld(old_, chunk, p.stops, p.keepStop);
    var v := Judge(p, text, |chunk|, outputLen, len, token);
    if v.Done? {
      assert DropLast(text, |chunk|) == old_;
      assert v.text <= text;
      PrefixByLength(DropLast(old_, b), v.text, text);
    }
  }

  lemma PrefixByLength(a: string, b: string, whole: string)
    requires a <= whole && b <= whole && |a| <= |b|
    ensures a <= b
  {
  }

  /** One generated token and the text it adds. */
  datatype Tick = Tick(token: int, chunk: string)

  /** One engine step: the sequence grows, then the stop checker decides. */
  function EngineEvent(p: Params, st: Stream, t: Tick): Event {
    match Judge(p, st.text + t.chunk, |t.chunk|, |st.output| + 1, |st.prompt| + |st.output| + 1, t.token)
    case Running => Grow([t.token], t.chunk)
    case Done(text, _) => Finish([t.token], text)
  }

  /** Every engine step on an unfinished sequence is one the stream accounting allows, so DeltasAddUp applies to all
      runs of the engine: nothing that was streamed is ever taken back by a stop string. */
  lemma EngineStepEnabled(p: Params, st: Stream, t: Tick)
    requires NonEmpty(p.stops) && !st.finished
    ensures Enabled(st, BufferLength(p.stops, p.keepStop), EngineEvent(p, st, t))
  {
    FinalTextIsHeld(p, st.text, t.chunk, |st.output| + 1, |st.prompt| + |st.output| + 1, t.token);
  }

  /** Streaming after every engine step until the sequence finishes. */
  function Serve(p: Params, log: Log, ticks: seq<Tick>): (r: Log)
    requires NonEmpty(p.stops) && LogInv(log, BufferLength(p.stops, p.keepStop))
    ensures LogInv(r, BufferLength(p.stops, p.keepStop))
    decreases |ticks|
  {
    var b := BufferLength(p.stops, p.keepStop);
    if ticks == [] || log.st.finished then log else
    var e := EngineEvent(p, log.st, ticks[0]);
    EngineStepEnabled(p, log.st, ticks[0]);
    StepKeepsLog(log, b, e);
    EmitKeepsLog(NextLog(log, b, e), b);
    Serve(p, NextLog(NextLog(log, b, e), b, Emit), ticks[1..])
  }

  /** While the sequence runs, exactly the last characters are missing from what has been streamed: one fewer than the
      longest stop string has, or all there are, and none if stop strings are kept or there are none. */
  ghost predicate Level(p: Params, log: Log) {
    !log.st.finished ==>
      && log.text <= log.st.text
      && (p.keepStop || p.stops == [] ==> log.text == log.st.text)
      && (forall m: nat :: !p.keepStop && IsLongest(p.stops, m) ==>
            |log.text| == if |log.st.text| >= m - 1 then |log.st.text| - (m - 1) else 0)
  }

  lemma EmitIsLevel(p: Params, log: Log)
    requires NonEmpty(p.stops) && LogInv(log, BufferLength(p.stops, p.keepStop))
    ensures Level(p, NextLog(log, BufferLength(p.stops, p.keepStop), Emit))
  {
    var b := BufferLength(p.stops, p.keepStop);
    EmitKeepsLog(log, b);
    if p.stops != [] {
      LongestIsAttained(p.stops);
      assert forall m: nat :: IsLongest(p.stops, m) ==> m == MaxLen(p.stops);
    }
    hide LogInv;
    assert log.st.text[..|log.st.text|] == log.st.text;
  }

  /** Stop-string hold-back over whole runs: what has been streamed is at every point a prefix of the text, with exactly
      the held-back characters missing, and once the sequence is finished it is exactly the truncated text. */
  lemma {:induction false} HoldBack(p: Params, log: Log, ticks: seq<Tick>)
    requires NonEmpty(p.stops) && LogInv(log, BufferLength(p.stops, p.keepStop)) && Level(p, log)
    requires log.st.finished ==> log.text == log.st.text && log.tokens == log.st.output
    ensures var r := Serve(p, log, ticks);
            && log.text <= r.text && r.text <= r.st.text && Level(p, r)
            && (r.st.finished ==> r.text == r.st.text && r.tokens == r.st.output)
    decreases |ticks|
  {
    hide Level;
    var b := BufferLength(p.stops, p.keepStop);
    if ticks != [] && !log.st.finished {
      var e := EngineEvent(p, log.st, ticks[0]);
      EngineStepEnabled(p, log.st, ticks[0]);
      StepKeepsLog(log, b, e);
      EmitKeepsLog(NextLog(log, b, e), b);
      EmitIsLevel(p, NextLog(log, b, e));
      HoldBack(p, NextLog(NextLog(log, b, e), b, Emit), ticks[1..]);
    }
  }

  /** No stop string occurs in the text. */
  ghost predicate Clean(text: string, stops: seq<string>) {
    forall k :: 0 <= k < |stops| ==> !Contains(text, stops[k])
  }

  lemma MatchInMatch(text: string, outer: string, inner: string, i: int, j: int)
    requires MatchesAt(text, outer, i) && MatchesAt(outer, inner, j)
    ensures MatchesAt(text, inner, i + j)
  {
    var part := text[i + j..i + j + |inner|];
    forall q | 0 <= q < |inner|
      ensures part[q] == inner[q]
    {
      assert inner[q] == outer[j..j + |inner|][q] == outer[j + q] == text[i..i + |outer|][j + q];
    }
  }

  lemma MatchInPrefix(text: string, pre: string, pat: string, i: int)
    requires pre <= text
    ensures MatchesAt(pre, pat, i) <==> MatchesAt(text, pat, i) && i + |pat| <= |pre|
  {
    if 0 <= i && i + |pat| <= |pre| {
      assert pre[i..i + |pat|] == text[i..i + |pat|];
    }
  }

  /** In text whose old part has no match, every match ends in the new part, so the window misses none. */
  lemma WindowMissesNothing(old_: string, chunk: string, pat: string, i: int)
    requires !Contains(old_, pat) && MatchesAt(old_ + chunk, pat, i)
    ensures Window(old_ + chunk, |chunk|, pat) <= i
  {
    MatchInPrefix(old_ + chunk, old_, pat, i);
  }

  /** If the first stop string occurs in all the others, a text free of it is free of all of them. */
  lemma FirstDecides(text: string, stops: seq<string>)
    requires stops != [] && !Contains(text, stops[0])
    requires forall k :: 0 <= k < |stops| ==> Contains(stops[k], stops[0])
    ensures Clean(text, stops)
  {
    forall k | 0 <= k < |stops|
      ensures !Contains(text, stops[k])
    {
      if Contains(text, stops[k]) {
        var i :| MatchesAt(text, stops[k], i);
        var j :| MatchesAt(stops[k], stops[0], j);
        MatchInMatch(text, stops[k], stops[0], i, j);
      }
    }
  }

  /** Under that condition one stop check leaves a clean text clean. */
  lemma CheckKeepsClean(old_: string, chunk: string, stops: seq<string>)
    requires stops != [] && NonEmpty(stops) && Clean(old_, stops)
    requires forall k :: 0 <= k < |stops| ==> Contains(stops[k], stops[0])
    ensures var text, r := old_ + chunk, CheckStop(old_ + chunk, |chunk|, stops, false);
            Clean(if r.Some? && r.value.cut.Some? then text[..r.value.cut.value] else text, stops)
  {
    var text := old_ + chunk;
    if chunk == "" {
      assert text == old_;
    } else {
      var i := Find(text, stops[0], Window(text, |chunk|, stops[0]));
      forall m | MatchesAt(text, stops[0], m)
        ensures Window(text, |chunk|, stops[0]) <= m
      {
        WindowMissesNothing(old_, chunk, stops[0], m);
      }
      if i == -1 {
        FirstDecides(text, stops);
        NoneFound(text, |chunk|, stops);
      } else {
        if Contains(text[..i], stops[0]) {
          var m :| MatchesAt(text[..i], stops[0], m);
          MatchInPrefix(text, text[..i], stops[0], m);
        }
        FirstDecides(text[..i], stops);
      }
    }
  }

  lemma {:induction false} NoneFound(text: string, newChars: nat, stops: seq<string>)
    requires Clean(text, stops)
    ensures CheckStop(text, newChars, stops, false) == None
    decreases |stops|
  {
    if newChars != 0 && stops != [] {
      assert !Contains(text, stops[0]);
      forall k | 0 <= k < |stops[1..]|
        ensures !Contains(text, stops[1..][k])
      {
        assert stops[1..][k] == stops[k + 1] && !Contains(text, stops[k + 1]);
      }
      NoneFound(text, newChars, stops[1..]);
    }
  }

  /** The sequence after a run of the engine. */
  function Generate(p: Params, st: Stream, ticks: seq<Tick>): Stream
    decreases |ticks|
  {
    if ticks == [] || st.finished then st else Generate(p, Next(st, 0, EngineEvent(p, st, ticks[0])), ticks[1..])
  }

  lemma {:induction false} GenerateKeepsClean(p: Params, st: Stream, ticks: seq<Tick>)
    requires p.stops != [] && NonEmpty(p.stops) && !p.keepStop && p.minTokens <= 1 && Clean(st.text, p.stops)
    requires forall k :: 0 <= k < |p.stops| ==> Contains(p.stops[k], p.stops[0])
    ensures Clean(Generate(p, st, ticks).text, p.stops)
    decreases |ticks|
  {
    if ticks != [] && !st.finished {
      CheckKeepsClean(st.text, ticks[0].chunk, p.stops);
      assert DropLast(st.text + ticks[0].chunk, |ticks[0].chunk|) == st.text;
      GenerateKeepsClean(p, Next(st, 0, EngineEvent(p, st, ticks[0])), ticks[1..]);
    }
  }

  /** A one-step generation. */
  lemma OneStep(p: Params, st: Stream, t: Tick)
    requires !st.finished
    ensures Generate(p, st, [t]) == Next(st, 0, EngineEvent(p, st, t))
  {
    assert [t][1..] == [];
    assert Generate(p, Next(st, 0, EngineEvent(p, st, t)), []) == Next(st, 0, EngineEvent(p, st, t));
  }

  /** A stop string survives when it is generated before stop checks begin. */
  lemma SurvivesEarly(p: Params, st: Stream, token: int)
    requires p.stops != [] && p.minTokens > 1 && st.output == [] && st.text == "" && !st.finished
    ensures !Clean(Generate(p, st, [Tick(token, p.stops[0])]).text, p.stops)
  {
    OneStep(p, st, Tick(token, p.stops[0]));
    assert "" + p.stops[0] == p.stops[0];
    assert MatchesAt(p.stops[0], p.stops[0], 0);
  }

  /** A stop string survives when the first listed one follows it in the same step. */
  lemma SurvivesBehind(p: Params, st: Stream, k: nat, filler: char, token: int)
    requires k < |p.stops| && NonEmpty(p.stops) && !p.keepStop && filler !in p.stops[0] && p.minTokens <= 1
    requires p.eos != Some(token) && token !in p.stopTokenIds && !Contains(p.stops[k], p.stops[0])
    requires st.output == [] && st.text == "" && !st.finished
    ensures !Clean(Generate(p, st, [Tick(token, p.stops[k] + [filler] + p.stops[0])]).text, p.stops)
  {
    var head, chunk := p.stops[k] + [filler], p.stops[k] + [filler] + p.stops[0];
    FirstMatchAfterFiller(p.stops[k], filler, p.stops[0]);
    OneStep(p, st, Tick(token, chunk));
    assert "" + chunk == chunk && chunk[..|head|] == head;
    assert Window(chunk, |chunk|, p.stops[0]) == 0;
    assert CheckStop(chunk, |chunk|, p.stops, false) == Some(Stop(p.stops[0], Some(|head|)));
    assert MatchesAt(head, p.stops[k], 0);
  }

  lemma FirstMatchAfterFiller(a: string, filler: char, b: string)
    requires !Contains(a, b) && filler !in b && b != ""
    ensures Find(a + [filler] + b, b, 0) == |a| + 1
  {
    var text := a + [filler] + b;
    assert MatchesAt(text, b, |a| + 1);
    forall i | 0 <= i <= |a|
      ensures !MatchesAt(text, b, i)
    {
      if i + |b| <= |a| {
        MatchInPrefix(text, a, b, i);
      } else if i + |b| <= |text| {
        assert text[i..i + |b|][|a| - i] == filler;
      }
    }
  }

  /** The promise that the returned output does not contain the stop strings holds for every generation exactly if
      stop checks start with the first token and the first listed stop string occurs in every other one. */
  lemma OutputIsCleanIff(p: Params, prompt: seq<int>, filler: char, token: int)
    requires p.stops != [] && NonEmpty(p.stops) && !p.keepStop && filler !in p.stops[0]
    requires p.eos != Some(token) && token !in p.stopTokenIds
    ensures (forall ticks :: Clean(Generate(p, Stream(prompt, [], "", false, 0, 0), ticks).text, p.stops))
       <==> (p.minTokens <= 1 && forall k :: 0 <= k < |p.stops| ==> Contains(p.stops[k], p.stops[0]))
  {
    var st := Stream(prompt, [], "", false, 0, 0);
    if p.minTokens <= 1 && forall k :: 0 <= k < |p.stops| ==> Contains(p.stops[k], p.stops[0]) {
      forall ticks
        ensures Clean(Generate(p, st, ticks).text, p.stops)
      {
        GenerateKeepsClean(p, st, ticks);
      }
    } else {
      if p.minTokens > 1 {
        SurvivesEarly(p, st, token);
      } else {
        var k :| 0 <= k < |p.stops| && !Contains(p.stops[k], p.stops[0]);
        SurvivesBehind(p, st, k, filler, token);
      }
    }
  }
}
