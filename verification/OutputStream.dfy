/** What a sequence hands out: cumulative text and tokens, or the part that is new since the last call. */
module OutputStream {
  import SD = SequenceData

  datatype Status =
    WAITING | RUNNING | SWAPPED | FINISHED_STOPPED | FINISHED_LENGTH_CAPPED | FINISHED_ABORTED | FINISHED_IGNORED

  predicate IsFinished(status: Status)
    ensures IsFinished(status) <==> status !in {WAITING, RUNNING, SWAPPED}
  {
    status.FINISHED_STOPPED? || status.FINISHED_LENGTH_CAPPED? || status.FINISHED_ABORTED? || status.FINISHED_IGNORED?
  }

  /** The abstract value of a sequence as far as output is concerned. */
  datatype Stream = Stream(prompt: seq<int>, output: seq<int>, text: string, finished: bool, tokenOff: nat,
                           textOff: nat) {
    /** Offsets never point past what exists. */
    predicate Valid() {
      tokenOff <= |output| && textOff <= |text|
    }

    /** Length of the text that may be shown: all of it once finished, else all but the hold-back buffer. */
    function Shown(buffer: nat): nat {
      if finished then |text| else if buffer <= |text| then |text| - buffer else 0
    }

    function CumulativeText(buffer: nat): string {
      text[..Shown(buffer)]
    }

    /** New text since the last emission. */
    function DeltaText(buffer: nat): string {
      if textOff < Shown(buffer) then text[textOff..Shown(buffer)] else ""
    }

    function DeltaTokens(): seq<int>
      requires Valid()
    {
      output[tokenOff..]
    }

    /** The stream after both deltas have been handed out. */
    function Advance(buffer: nat): Stream {
      this.(tokenOff := |output|, textOff := if textOff < Shown(buffer) then Shown(buffer) else textOff)
    }
  }

  /** s[:-n], for positive n. */
  function DropLast<T>(s: seq<T>, n: nat): seq<T> {
    if n <= |s| then s[..|s| - n] else []
  }

  /** s[-n:], for positive n. */
  function TakeLast<T>(s: seq<T>, n: nat): seq<T> {
    if n <= |s| then s[|s| - n..] else s
  }

  class Sequence {
    const data: SD.SequenceData
    var outputText: string
    var status: Status
    var lastOutputTokenIdsOffset: nat
    var lastOutputTextOffset: nat

    ghost function View(): Stream
      reads this, data
    {
      Stream(data.promptTokenIds, data.outputTokenIds, outputText, IsFinished(status), lastOutputTokenIdsOffset,
        lastOutputTextOffset)
    }

    ghost predicate Valid()
      reads this, data
    {
      View().Valid() && data.cachedAllTokenIds == data.promptTokenIds + data.outputTokenIds
    }

    constructor (prompt: seq<int>)
      ensures Valid() && View() == Stream(prompt, [], "", false, 0, 0) && fresh(data)
    {
      data := new SD.SequenceData(prompt, []);
      outputText, status := "", WAITING;
      lastOutputTokenIdsOffset, lastOutputTextOffset := 0, 0;
    }

    /** Cumulative or new output text; while unfinished the last bufferLength characters are held back. */
    method GetOutputTextToReturn(bufferLength: nat, delta: bool) returns (text: string)
      requires Valid()
      modifies this`lastOutputTextOffset
      ensures Valid()
      ensures !delta ==> text == View().CumulativeText(bufferLength) && View() == old(View())
      ensures !delta ==> text <= outputText && (IsFinished(status) ==> text == outputText)
      ensures !delta && !IsFinished(status) ==>
                |text| == if |outputText| > bufferLength then |outputText| - bufferLength else 0
      ensures delta ==> text == old(View()).DeltaText(bufferLength)
      ensures delta ==> View() == old(View()).(textOff := old(View()).Advance(bufferLength).textOff)
    {
      var truncate := bufferLength != 0 && !IsFinished(status);
      if !delta {
        return if truncate then DropLast(outputText, bufferLength) else outputText;
      }
      var length: int := |outputText|;
      if truncate {
        length := length - bufferLength;
      }
      var lastOffset := lastOutputTextOffset;
      if lastOffset < length {
        lastOutputTextOffset := length;
        return outputText[lastOffset..length];
      }
      return "";
    }

    /** All output tokens, or those that are new since the last call, read off the tail of the token cache. */
    method GetOutputTokenIdsToReturn(delta: bool) returns (ids: seq<int>)
      requires Valid()
      modifies this`lastOutputTokenIdsOffset
      ensures Valid()
      ensures !delta ==> ids == View().output && View() == old(View())
      ensures delta ==> ids == old(View()).DeltaTokens() && View() == old(View()).(tokenOff := |View().output|)
    {
      if !delta {
        return data.outputTokenIds;
      }
      var outputLen := |data.outputTokenIds|;
      var numNew := outputLen - lastOutputTokenIdsOffset;
      ghost var expected := data.outputTokenIds[lastOutputTokenIdsOffset..];
      lastOutputTokenIdsOffset := outputLen;
      var cached := data.cachedAllTokenIds;
      if numNew == 1 {
        return [cached[|cached| - 1]];
      }
      if numNew == 0 {
        return [];
      }
      return TakeLast(cached, numNew);
    }
  }

  /** A sequence grows while it runs, then ends with a final text that may have been cut back. */
  datatype Event =
    | Grow(tokens: seq<int>, chunk: string)
    | Finish(tokens: seq<int>, finalText: string)
    | Emit

  /** The final text keeps everything that was outside the hold-back buffer. */
  predicate Held(text: string, buffer: nat, finalText: string) {
    DropLast(text, buffer) <= finalText
  }

  predicate Enabled(st: Stream, buffer: nat, e: Event) {
    match e
    case Grow(_, _) => !st.finished
    case Finish(_, finalText) => !st.finished && Held(st.text, buffer, finalText)
    case Emit => true
  }

  function Next(st: Stream, buffer: nat, e: Event): Stream {
    match e
    case Grow(tokens, chunk) => st.(output := st.output + tokens, text := st.text + chunk)
    case Finish(tokens, finalText) => st.(output := st.output + tokens, text := finalText, finished := true)
    case Emit => st.Advance(buffer)
  }

  /** A stream together with everything emitted so far. */
  datatype Log = Log(st: Stream, text: string, tokens: seq<int>)

  /** Exactly the first textOff characters and tokenOff tokens have been emitted, none of them from the buffer. */
  ghost predicate LogInv(log: Log, buffer: nat) {
    && log.st.Valid() && log.text == log.st.text[..log.st.textOff] && log.tokens == log.st.output[..log.st.tokenOff]
    && log.st.textOff <= log.st.Shown(buffer)
  }

  function NextLog(log: Log, buffer: nat, e: Event): Log
    requires log.st.Valid()
  {
    Log(Next(log.st, buffer, e),
        if e.Emit? then log.text + log.st.DeltaText(buffer) else log.text,
        if e.Emit? then log.tokens + log.st.DeltaTokens() else log.tokens)
  }

  lemma GrowKeepsLog(log: Log, buffer: nat, tokens: seq<int>, chunk: string)
    requires LogInv(log, buffer) && !log.st.finished
    ensures LogInv(NextLog(log, buffer, Grow(tokens, chunk)), buffer)
  {
    var st := Next(log.st, buffer, Grow(tokens, chunk));
    assert st.text[..st.textOff] == log.st.text[..st.textOff];
    assert st.output[..st.tokenOff] == log.st.output[..st.tokenOff];
  }

  lemma FinishKeepsLog(log: Log, buffer: nat, tokens: seq<int>, finalText: string)
    requires LogInv(log, buffer) && !log.st.finished && Held(log.st.text, buffer, finalText)
    ensures LogInv(NextLog(log, buffer, Finish(tokens, finalText)), buffer)
  {
    var st, off := Next(log.st, buffer, Finish(tokens, finalText)), log.st.textOff;
    var kept := DropLast(log.st.text, buffer);
    assert off <= |kept| && kept[..off] == log.st.text[..off];
    assert finalText[..|kept|] == kept;
    assert finalText[..off] == finalText[..|kept|][..off];
    assert st.output[..st.tokenOff] == log.st.output[..st.tokenOff];
  }

  lemma EmitKeepsLog(log: Log, buffer: nat)
    requires LogInv(log, buffer)
    ensures LogInv(NextLog(log, buffer, Emit), buffer)
    ensures NextLog(log, buffer, Emit).text == log.st.CumulativeText(buffer)
            && NextLog(log, buffer, Emit).tokens == log.st.output
  {
    var n := log.st.Shown(buffer);
    assert log.st.text[..log.st.textOff] + log.st.text[log.st.textOff..n] == log.st.text[..n];
    assert log.st.output[..log.st.tokenOff] + log.st.output[log.st.tokenOff..] == log.st.output;
  }

  lemma StepKeepsLog(log: Log, buffer: nat, e: Event)
    requires LogInv(log, buffer) && Enabled(log.st, buffer, e)
    ensures LogInv(NextLog(log, buffer, e), buffer)
  {
    hide LogInv, Held, NextLog;
    match e
    case Grow(tokens, chunk) => GrowKeepsLog(log, buffer, tokens, chunk);
    case Finish(tokens, finalText) => FinishKeepsLog(log, buffer, tokens, finalText);
    case Emit => EmitKeepsLog(log, buffer);
  }

  ghost predicate IsRun(log: Log, buffer: nat, events: seq<Event>)
    requires LogInv(log, buffer)
    decreases |events|
  {
    events != [] ==>
      && Enabled(log.st, buffer, events[0])
      && (StepKeepsLog(log, buffer, events[0]); IsRun(NextLog(log, buffer, events[0]), buffer, events[1..]))
  }

  ghost function After(log: Log, buffer: nat, events: seq<Event>): (r: Log)
    requires LogInv(log, buffer) && IsRun(log, buffer, events)
    ensures LogInv(r, buffer)
    decreases |events|
  {
    if events == [] then log else
    StepKeepsLog(log, buffer, events[0]);
    After(NextLog(log, buffer, events[0]), buffer, events[1..])
  }

  /** Over any run of growth, finishing and emissions, the concatenated deltas are always a prefix of the text and
      tokens; after an emission no token is missing, and exactly the held-back characters are, or none at the end. */
  lemma DeltasAddUp(prompt: seq<int>, buffer: nat, events: seq<Event>)
    requires LogInv(Log(Stream(prompt, [], "", false, 0, 0), "", []), buffer)
    requires IsRun(Log(Stream(prompt, [], "", false, 0, 0), "", []), buffer, events)
    ensures var log := After(Log(Stream(prompt, [], "", false, 0, 0), "", []), buffer, events);
            && log.text <= log.st.text && log.tokens <= log.st.output
            && (var now := NextLog(log, buffer, Emit);
                && now.text <= log.st.text && now.tokens == log.st.output
                && (log.st.finished ==> now.text == log.st.text)
                && (!log.st.finished ==> |now.text| == if |log.st.text| > buffer then |log.st.text| - buffer else 0))
  {
    EmitKeepsLog(After(Log(Stream(prompt, [], "", false, 0, 0), "", []), buffer, events), buffer);
  }
}
