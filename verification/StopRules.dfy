/** How long a sequence can get, and how much text has to be held back. */
module StopRules {
  import opened OutputStream
  import opened StopStrings
  import opened Wrappers

  /** A length limit applies at n output tokens. */
  predicate Capped(p: Params, prompt: seq<int>, n: nat) {
    n >= p.minTokens && (|prompt| + n >= p.maxLen || p.maxTokens == Some(n))
  }

  /** No generation goes past a length limit, and one that reaches it is finished. */
  lemma {:induction false} LimitsHold(p: Params, st: Stream, ticks: seq<Tick>, n: nat)
    requires Capped(p, st.prompt, n) && (|st.output| < n || (|st.output| == n && st.finished))
    ensures var r := Generate(p, st, ticks); |r.output| <= n && (|r.output| == n ==> r.finished)
    decreases |ticks|
  {
    hide Judge;
    if ticks != [] && !st.finished {
      StepStops(p, st, ticks[0]);
      LimitsHold(p, Next(st, 0, EngineEvent(p, st, ticks[0])), ticks[1..], n);
    }
  }

  /** Every step adds its token; at a length limit the sequence is finished after it. */
  lemma StepStops(p: Params, st: Stream, t: Tick)
    requires !st.finished
    ensures var r := Next(st, 0, EngineEvent(p, st, t));
            && r.output == st.output + [t.token] && r.prompt == st.prompt
            && (Capped(p, st.prompt, |r.output|) ==> r.finished)
  {
    var text, n := st.text + t.chunk, |st.output| + 1;
    JudgeFollowsRules(p, text, |t.chunk|, n, |st.prompt| + n, t.token);
    hide Judge;
  }

  /** The tokens and the text of some engine steps. */
  function TokensOf(ticks: seq<Tick>): seq<int> {
    if ticks == [] then [] else [ticks[0].token] + TokensOf(ticks[1..])
  }

  function TextOf(ticks: seq<Tick>): string {
    if ticks == [] then "" else ticks[0].chunk + TextOf(ticks[1..])
  }

  /** A generation takes some of the steps, all of them unless it is finished. It has their tokens, and their text,
      which is cut back at most when it finishes. */
  lemma {:induction false} GenerationIs(p: Params, st: Stream, ticks: seq<Tick>) returns (n: nat)
    requires !st.finished
    ensures var r := Generate(p, st, ticks);
            && n <= |ticks| && r.output == st.output + TokensOf(ticks[..n]) && r.text <= st.text + TextOf(ticks[..n])
            && (!r.finished ==> n == |ticks| && r.text == st.text + TextOf(ticks))
    decreases |ticks|
  {
    hide Judge;
    if ticks == [] {
      n := 0;
      assert st.output + [] == st.output && st.text + "" == st.text;
    } else {
      var next := Next(st, 0, EngineEvent(p, st, ticks[0]));
      StepIs(p, st, ticks[0]);
      if next.finished {
        n := 1;
        assert Generate(p, next, ticks[1..]) == next;
        FirstOf(ticks);
      } else {
        n := GenerationIs(p, next, ticks[1..]);
        n := n + 1;
        assert ticks[..n][1..] == ticks[1..][..n - 1] && ticks[..n][0] == ticks[0];
        Associates(st.output, [ticks[0].token], TokensOf(ticks[1..][..n - 1]));
        Associates(st.text, ticks[0].chunk, TextOf(ticks[1..][..n - 1]));
        Associates(st.text, ticks[0].chunk, TextOf(ticks[1..]));
      }
    }
  }

  lemma FirstOf(ticks: seq<Tick>)
    requires ticks != []
    ensures TokensOf(ticks[..1]) == [ticks[0].token] && TextOf(ticks[..1]) == ticks[0].chunk
  {
    var one := ticks[..1];
    assert one[1..] == [];
    assert [ticks[0].token] + [] == [ticks[0].token] && ticks[0].chunk + "" == ticks[0].chunk;
  }

  lemma Associates<T>(a: seq<T>, b: seq<T>, c: seq<T>)
    ensures (a + b) + c == a + (b + c)
  {
  }

  /** One step adds its token, and its text unless it finishes; then the text is cut back at most. */
  lemma StepIs(p: Params, st: Stream, t: Tick)
    requires !st.finished
    ensures var r := Next(st, 0, EngineEvent(p, st, t));
            && r.output == st.output + [t.token] && r.text <= st.text + t.chunk
            && (!r.finished ==> r.text == st.text + t.chunk)
  {
    hide CheckStop;
    assert forall k :: 0 <= k <= |st.text + t.chunk| ==> (st.text + t.chunk)[..k] <= st.text + t.chunk;
  }

  /** The streams differ in their offsets only. */
  predicate SameContent(a: Stream, b: Stream) {
    a.prompt == b.prompt && a.output == b.output && a.text == b.text && a.finished == b.finished
  }

  /** Streaming does not change what is generated. */
  lemma {:induction false} ServeGenerates(p: Params, log: Log, st: Stream, ticks: seq<Tick>)
    requires NonEmpty(p.stops) && LogInv(log, BufferLength(p.stops, p.keepStop)) && SameContent(log.st, st)
    ensures SameContent(Serve(p, log, ticks).st, Generate(p, st, ticks))
    decreases |ticks|
  {
    hide Judge;
    var b := BufferLength(p.stops, p.keepStop);
    if ticks != [] && !st.finished {
      var e := EngineEvent(p, log.st, ticks[0]);
      EngineStepEnabled(p, log.st, ticks[0]);
      StepKeepsLog(log, b, e);
      EmitKeepsLog(NextLog(log, b, e), b);
      ServeGenerates(p, NextLog(NextLog(log, b, e), b, Emit), Next(st, 0, EngineEvent(p, st, ticks[0])), ticks[1..]);
    }
  }

  /** The limits over runs from the start, generated or streamed: with a maximum of n output tokens, at least as large
      as the minimum, or a model length that n output tokens reach, there are never more, and n of them are the end. */
  lemma OutputIsBounded(p: Params, prompt: seq<int>, ticks: seq<Tick>, n: nat)
    requires n >= 1 && Capped(p, prompt, n) && NonEmpty(p.stops)
    ensures var st := Stream(prompt, [], "", false, 0, 0);
            && LogInv(Log(st, "", []), BufferLength(p.stops, p.keepStop))
            && (var r := Generate(p, st, ticks); |r.output| <= n && (|r.output| == n ==> r.finished))
            && (var r := Serve(p, Log(st, "", []), ticks).st; |r.output| <= n && (|r.output| == n ==> r.finished))
  {
    var st := Stream(prompt, [], "", false, 0, 0);
    LimitsHold(p, st, ticks, n);
    ServeGenerates(p, Log(st, "", []), st, ticks);
  }

  /** A sequence that streams with any number of characters held back, and what has been streamed. */
  datatype Feed = Feed(st: Stream, shown: string)

  function FeedStep(p: Params, b: nat, f: Feed, t: Tick): Feed {
    var st := Next(f.st, b, EngineEvent(p, f.st, t));
    Feed(st.Advance(b), f.shown + st.DeltaText(b))
  }

  function Relay(p: Params, b: nat, f: Feed, ticks: seq<Tick>): Feed
    decreases |ticks|
  {
    if ticks == [] || f.st.finished then f else Relay(p, b, FeedStep(p, b, f, ticks[0]), ticks[1..])
  }

  function StartFeed(prompt: seq<int>): Feed {
    Feed(Stream(prompt, [], "", false, 0, 0), "")
  }

  /** Holding back b characters is enough: in no run is text streamed that is cut off later. */
  ghost predicate Suffices(p: Params, b: nat, prompt: seq<int>) {
    forall ticks :: var r := Relay(p, b, StartFeed(prompt), ticks); r.shown <= r.st.text
  }

  /** The first n characters of stop string j, more than b of them, contain no stop string, and no stop string listed
      before it occurs in it with its end behind them. */
  ghost predicate Exposed(stops: seq<string>, b: nat, j: nat, n: nat) {
    && j < |stops| && b < n < |stops[j]| && Clean(stops[j][..n], stops)
    && forall i :: 0 <= i < j ==> !HasNew(stops[j], |stops[j]| - n, stops[i])
  }

  /** There is room for a second token. */
  predicate Room(p: Params, prompt: seq<int>) {
    |prompt| + 1 < p.maxLen && p.maxTokens != Some(1)
  }

  /** While the sequence runs: all but the held-back characters have been streamed, and there is no stop string yet. */
  ghost predicate FeedInv(p: Params, b: nat, f: Feed) {
    f.st.finished
      || (f.st.textOff == f.st.Shown(b) && f.shown == f.st.text[..f.st.textOff] && Clean(f.st.text, p.stops))
  }

  /** Text without a new match stays free of stop strings. */
  lemma StaysClean(old_: string, chunk: string, stops: seq<string>)
    requires Clean(old_, stops) && forall j :: 0 <= j < |stops| ==> !HasNew(old_ + chunk, |chunk|, stops[j])
    ensures Clean(old_ + chunk, stops)
  {
    forall k | 0 <= k < |stops|
      ensures !Contains(old_ + chunk, stops[k])
    {
      assert !Contains(old_, stops[k]) && !HasNew(old_ + chunk, |chunk|, stops[k]);
      forall i
        ensures !MatchesAt(old_ + chunk, stops[k], i)
      {
        MatchInPrefix(old_ + chunk, old_, stops[k], i);
        assert !MatchesAt(old_, stops[k], i) && !NewMatch(old_ + chunk, |chunk|, stops[k], i);
      }
    }
  }

  /** A match in a part of a text is a match in the text. */
  lemma MatchOfPart(text: string, i: nat, n: nat, pat: string, m: int)
    requires i + n <= |text|
    ensures MatchesAt(text[i..i + n], pat, m) ==> MatchesAt(text, pat, i + m)
  {
    if MatchesAt(text[i..i + n], pat, m) {
      assert MatchesAt(text, text[i..i + n], i);
      MatchInMatch(text, text[i..i + n], pat, i, m);
    }
  }

  lemma PartIsClean(text: string, i: nat, n: nat, stops: seq<string>)
    requires i + n <= |text| && Clean(text, stops)
    ensures Clean(text[i..i + n], stops)
  {
    var part := text[i..i + n];
    forall j | 0 <= j < |stops|
      ensures !Contains(part, stops[j])
    {
      forall m
        ensures !MatchesAt(part, stops[j], m)
      {
        MatchOfPart(text, i, n, stops[j], m);
        assert !Contains(text, stops[j]);
      }
    }
  }

  /** A cut that reaches into streamed text comes from an exposed stop string. */
  lemma CutExposes(old_: string, chunk: string, stops: seq<string>, k: nat, i: nat, b: nat)
    requires Clean(old_, stops) && FirstNew(old_ + chunk, |chunk|, stops, k, i) && i + b < |old_|
    ensures Exposed(stops, b, k, |old_| - i)
  {
    var text, pat, n := old_ + chunk, stops[k], |old_| - i;
    var rest := |pat| - n;
    assert pat == text[i..i + |pat|] && pat[..n] == old_[i..i + n];
    PartIsClean(old_, i, n, stops);
    forall j | 0 <= j < k
      ensures !HasNew(pat, rest, stops[j])
    {
      assert !HasNew(text, |chunk|, stops[j]);
      forall m
        ensures !NewMatch(pat, rest, stops[j], m)
      {
        MatchOfPart(text, i, |pat|, stops[j], m);
        assert !NewMatch(text, |chunk|, stops[j], i + m);
      }
    }
  }

  /** The verdict of a step. */
  function Decide(p: Params, f: Feed, t: Tick): Verdict {
    Judge(p, f.st.text + t.chunk, |t.chunk|, |f.st.output| + 1, |f.st.prompt| + |f.st.output| + 1, t.token)
  }

  /** The feed after a step, by its verdict. */
  lemma FeedStepIs(p: Params, b: nat, f: Feed, t: Tick)
    requires FeedInv(p, b, f) && !f.st.finished
    ensures var r, text := FeedStep(p, b, f, t), f.st.text + t.chunk;
            match Decide(p, f, t)
            case Running =>
              && !r.st.finished && r.st.text == text
              && r.shown == text[..Released(text, b)] && r.st.textOff == r.st.Shown(b)
            case Done(final, _) =>
              && r.st.finished && r.st.text == final
              && (final <= text ==> (r.shown <= final <==> Released(f.st.text, b) <= |final|))
  {
    hide Judge, Clean, Released, Stream.DeltaText, Stream.Shown;
    match Decide(p, f, t)
    case Running => GrownFeed(b, f.st, [t.token], t.chunk);
    case Done(final, _) => EndedFeed(b, f.st, [t.token], t.chunk, final);
  }

  /** A step that runs on keeps the feed in order. */
  lemma QuietStep(p: Params, b: nat, f: Feed, t: Tick)
    requires p.minTokens <= 1 && FeedInv(p, b, f) && !f.st.finished && Decide(p, f, t) == Running
    ensures FeedInv(p, b, FeedStep(p, b, f, t)) && FeedStep(p, b, f, t).shown <= FeedStep(p, b, f, t).st.text
  {
    var text, n := f.st.text + t.chunk, |f.st.output| + 1;
    JudgeFollowsRules(p, text, |t.chunk|, n, |f.st.prompt| + n, t.token);
    FeedStepIs(p, b, f, t);
    hide Judge, FeedStep, Clean;
    StaysClean(f.st.text, t.chunk, p.stops);
  }

  /** A step that takes back streamed text exposes a stop string. */
  lemma LastStep(p: Params, b: nat, f: Feed, t: Tick)
    requires p.minTokens <= 1 && !p.keepStop && FeedInv(p, b, f) && !f.st.finished && Decide(p, f, t).Done?
    ensures !(FeedStep(p, b, f, t).shown <= FeedStep(p, b, f, t).st.text) ==>
              f.st.text != "" && exists j: nat, n: nat :: Exposed(p.stops, b, j, n)
  {
    var text, n := f.st.text + t.chunk, |f.st.output| + 1;
    JudgeFollowsRules(p, text, |t.chunk|, n, |f.st.prompt| + n, t.token);
    FeedStepIs(p, b, f, t);
    hide Judge, FeedStep, Clean, FirstNew, Exposed;
    var final := Decide(p, f, t).text;
    assert text[..|text| - |t.chunk|] == f.st.text;
    if |final| < Released(f.st.text, b) {
      var k: nat, i: nat :| FirstNew(text, |t.chunk|, p.stops, k, i) && final == CutAt(text, p.stops[k], i, false);
      CutExposes(f.st.text, t.chunk, p.stops, k, i, b);
    }
  }

  /** Length of the text that is streamed while running. */
  function Released(text: string, b: nat): nat {
    if b <= |text| then |text| - b else 0
  }

  lemma GrownFeed(b: nat, st: Stream, tokens: seq<int>, chunk: string)
    requires !st.finished && st.textOff == st.Shown(b)
    ensures var text, next := st.text + chunk, Next(st, b, Grow(tokens, chunk));
            && st.Shown(b) <= |st.text| && next.text == text && !next.finished
            && next.Advance(b).textOff == next.Shown(b)
            && next.Advance(b).Shown(b) == next.Shown(b)
            && st.text[..st.Shown(b)] + next.DeltaText(b) == text[..Released(text, b)]
  {
  }

  lemma EndedFeed(b: nat, st: Stream, tokens: seq<int>, chunk: string, final: string)
    requires !st.finished && st.textOff == st.Shown(b)
    ensures var text, next := st.text + chunk, Next(st, b, Finish(tokens, final));
            && st.Shown(b) <= |st.text|
            && (final <= text ==>
                  (st.text[..st.Shown(b)] + next.DeltaText(b) <= final <==> Released(st.text, b) <= |final|))
  {
  }

  lemma {:induction false} NothingTakenBack(p: Params, b: nat, f: Feed, ticks: seq<Tick>)
    requires p.minTokens <= 1 && !p.keepStop && FeedInv(p, b, f) && f.shown <= f.st.text
    requires forall j: nat, n: nat :: !Exposed(p.stops, b, j, n)
    ensures var r := Relay(p, b, f, ticks); r.shown <= r.st.text
    decreases |ticks|
  {
    hide Decide, FeedStep, Exposed;
    if ticks != [] && !f.st.finished {
      FeedStepIs(p, b, f, ticks[0]);
      if Decide(p, f, ticks[0]) == Running {
        QuietStep(p, b, f, ticks[0]);
      } else {
        LastStep(p, b, f, ticks[0]);
      }
      NothingTakenBack(p, b, FeedStep(p, b, f, ticks[0]), ticks[1..]);
    }
  }

  lemma StartIsQuiet(p: Params, b: nat, prompt: seq<int>)
    requires NonEmpty(p.stops)
    ensures FeedInv(p, b, StartFeed(prompt))
  {
    assert Clean("", p.stops);
  }

  /** Without room for a second token the first one is the last. */
  lemma FirstIsLast(p: Params, b: nat, prompt: seq<int>, ticks: seq<Tick>)
    requires p.minTokens <= 1 && !p.keepStop && NonEmpty(p.stops) && !Room(p, prompt)
    ensures var r := Relay(p, b, StartFeed(prompt), ticks); r.shown <= r.st.text
  {
    hide Decide, FeedStep, Room, FeedInv;
    var f := StartFeed(prompt);
    StartIsQuiet(p, b, prompt);
    if ticks != [] {
      NoSecondToken(p, f, ticks[0]);
      FeedStepIs(p, b, f, ticks[0]);
      LastStep(p, b, f, ticks[0]);
      assert Relay(p, b, f, ticks) == Relay(p, b, FeedStep(p, b, f, ticks[0]), ticks[1..]);
    }
  }

  lemma NoSecondToken(p: Params, f: Feed, t: Tick)
    requires p.minTokens <= 1 && f.st.output == [] && !Room(p, f.st.prompt)
    ensures Decide(p, f, t).Done?
  {
    JudgeFollowsRules(p, f.st.text + t.chunk, |t.chunk|, 1, |f.st.prompt| + 1, t.token);
    hide Judge;
  }

  /** An exposed stop string is streamed in part and then cut off: its first n characters come with one token, the rest
      with the next. */
  lemma ExposedLeaks(p: Params, b: nat, prompt: seq<int>, token: int, j: nat, n: nat)
    requires p.minTokens <= 1 && !p.keepStop && NonEmpty(p.stops) && Room(p, prompt) && !EndsByToken(p, token)
    requires Exposed(p.stops, b, j, n)
    ensures var pat := p.stops[j];
            var r := Relay(p, b, StartFeed(prompt), [Tick(token, pat[..n]), Tick(token, pat[n..])]);
            r.st.finished && r.st.text == "" && r.shown == pat[..n - b] != ""
  {
    hide Decide, FeedStep, Room, FeedInv, Relay, EndsByToken;
    var pat := p.stops[j];
    var f, t, u := StartFeed(prompt), Tick(token, pat[..n]), Tick(token, pat[n..]);
    StartIsQuiet(p, b, prompt);
    FirstPartRuns(p, f, t);
    FeedStepIs(p, b, f, t);
    QuietStep(p, b, f, t);
    var g := FeedStep(p, b, f, t);
    assert "" + pat[..n] == pat[..n] && pat[..n] + pat[n..] == pat;
    SecondPartStops(p, g, u, j, n);
    FeedStepIs(p, b, g, u);
    RelayTwo(p, b, f, t, u);
    NoMoreShown(p, b, g, u);
  }

  lemma FirstPartRuns(p: Params, f: Feed, t: Tick)
    requires p.minTokens <= 1 && f.st.output == [] && f.st.text == "" && Room(p, f.st.prompt)
             && !EndsByToken(p, t.token)
    requires Clean(t.chunk, p.stops)
    ensures Decide(p, f, t) == Running
  {
    var text := f.st.text + t.chunk;
    assert text == t.chunk;
    JudgeFollowsRules(p, text, |t.chunk|, 1, |f.st.prompt| + 1, t.token);
    hide Judge;
    forall k | 0 <= k < |p.stops|
      ensures !HasNew(text, |t.chunk|, p.stops[k])
    {
      assert !Contains(t.chunk, p.stops[k]);
    }
  }

  lemma SecondPartStops(p: Params, g: Feed, u: Tick, j: nat, n: nat)
    requires p.minTokens <= 1 && !p.keepStop && !EndsByToken(p, u.token) && j < |p.stops| && 0 < n < |p.stops[j]|
    requires g.st.text == p.stops[j][..n] && u.chunk == p.stops[j][n..]
    requires forall i :: 0 <= i < j ==> !HasNew(p.stops[j], |p.stops[j]| - n, p.stops[i])
    ensures Decide(p, g, u).Done? && Decide(p, g, u).text == ""
  {
    var pat, m := p.stops[j], |g.st.output| + 1;
    var text := g.st.text + u.chunk;
    assert text == pat;
    JudgeFollowsRules(p, text, |u.chunk|, m, |g.st.prompt| + m, u.token);
    hide Judge;
    assert NewMatch(text, |u.chunk|, pat, 0);
    assert HasNew(text, |u.chunk|, p.stops[j]);
    var k: nat, i: nat :|
      FirstNew(text, |u.chunk|, p.stops, k, i) && Decide(p, g, u).text == CutAt(text, p.stops[k], i, false);
    assert k == j;
  }

  lemma RelayTwo(p: Params, b: nat, f: Feed, t: Tick, u: Tick)
    requires !f.st.finished && !FeedStep(p, b, f, t).st.finished
    ensures Relay(p, b, f, [t, u]) == FeedStep(p, b, FeedStep(p, b, f, t), u)
  {
    hide FeedStep;
    var g := FeedStep(p, b, f, t);
    assert [t, u][1..] == [u] && [u][1..] == [];
    assert Relay(p, b, g, [u]) == Relay(p, b, FeedStep(p, b, g, u), []);
  }

  /** A final text shorter than what was streamed adds nothing. */
  lemma NoMoreShown(p: Params, b: nat, g: Feed, u: Tick)
    requires !g.st.finished && Decide(p, g, u).Done? && |Decide(p, g, u).text| <= g.st.textOff
    ensures FeedStep(p, b, g, u).shown == g.shown
  {
    hide Judge;
  }

  /** Holding back b characters is enough in every run exactly when no stop string is exposed, or there is no room for a
      second token. */
  lemma SufficesIff(p: Params, b: nat, prompt: seq<int>, token: int)
    requires p.minTokens <= 1 && !p.keepStop && NonEmpty(p.stops) && !EndsByToken(p, token)
    ensures Suffices(p, b, prompt) <==> !(Room(p, prompt) && exists j: nat, n: nat :: Exposed(p.stops, b, j, n))
  {
    hide Relay, FeedInv;
    StartIsQuiet(p, b, prompt);
    if Room(p, prompt) && exists j: nat, n: nat :: Exposed(p.stops, b, j, n) {
      var j: nat, n: nat :| Exposed(p.stops, b, j, n);
      ExposedLeaks(p, b, prompt, token, j, n);
      var r := Relay(p, b, StartFeed(prompt), [Tick(token, p.stops[j][..n]), Tick(token, p.stops[j][n..])]);
      assert !(r.shown <= r.st.text);
    } else {
      forall ticks
        ensures var r := Relay(p, b, StartFeed(prompt), ticks); r.shown <= r.st.text
      {
        if Room(p, prompt) {
          NothingTakenBack(p, b, StartFeed(prompt), ticks);
        } else {
          FirstIsLast(p, b, prompt, ticks);
        }
      }
    }
  }

  /** One character fewer than the longest stop string is always enough; with a single stop string nothing less is. */
  lemma LongestSuffices(p: Params, b: nat, prompt: seq<int>, token: int)
    requires p.minTokens <= 1 && !p.keepStop && NonEmpty(p.stops) && p.stops != [] && !EndsByToken(p, token)
    ensures IsLongest(p.stops, BufferLength(p.stops, false) + 1)
    ensures b >= BufferLength(p.stops, false) ==> Suffices(p, b, prompt)
    ensures |p.stops| == 1 && Room(p, prompt) ==> (Suffices(p, b, prompt) <==> b >= |p.stops[0]| - 1)
  {
    SufficesIff(p, b, prompt, token);
    LongestIsAttained(p.stops);
    hide Suffices;
    if |p.stops| == 1 && b < |p.stops[0]| - 1 {
      assert Clean(p.stops[0][..|p.stops[0]| - 1], p.stops);
      assert Exposed(p.stops, b, 0, |p.stops[0]| - 1);
    }
  }

  /** With several stop strings less can be enough: one that occurs early in the longest ends the text before. */
  lemma ShorterCanSuffice(p: Params, prompt: seq<int>, token: int)
    requires p.minTokens <= 1 && !p.keepStop && p.stops == ["a", "aa"] && !EndsByToken(p, token)
    ensures BufferLength(p.stops, false) == 1 && Suffices(p, 0, prompt)
  {
    SufficesIff(p, 0, prompt, token);
    assert p.stops[1..] == ["aa"] && p.stops[1..][1..] == [];
    assert MaxLen(p.stops[1..]) == 2 && MaxLen(p.stops) == 2;
    assert "aa"[..1] == "a" && MatchesAt("a", "a", 0);
    assert Contains("aa"[..1], p.stops[0]);
    hide Suffices;
  }
}
