/** The streaming loop of `generateVideo` (src/services/soraApi.ts): it reads
    the response body chunk by chunk, keeps the unfinished last line in a
    buffer, feeds every complete line to the decoder and reconciles the end of
    the stream (normal end or read failure) with the URL captured so far. The
    callbacks it fires are returned as a trace. */
module SoraStream {
  import opened Wrappers
  import opened Text
  import opened SseCodec

  /** What one `reader.read()` gives: an already-decoded chunk of text, the
      end of the body, or an exception. */
  datatype ReadOutcome = Chunk(text: string) | EndOfStream | ReadFailure

  /** One callback invocation. */
  datatype StreamEvent =
    | OnProgress(percent: int, message: string)
    | OnComplete(url: string)
    | OnError(message: string)

  /** How `generateVideo` ends: it resolves to a URL (possibly empty) or it
      throws an error with a message. */
  datatype Outcome = Returned(url: string) | Threw(message: string)

  /** The loop's variables, plus the callbacks fired so far. */
  datatype LoopState = LoopState(buffer: string, videoUrl: string, hasCompleted: bool, trace: seq<StreamEvent>)

  /** The final state together with how the call ends. */
  datatype Ending = Ending(state: LoopState, outcome: Outcome)

  const Start := LoopState("", "", false, [])

  const InterruptedMessage := "Connection interrupted" + " - video generation" + " may still be" + " in progress on server"
  const RestrictionMessage := "Video generation failed. This may be due to content restrictions or copyright issues. Please try a different prompt or style."

  /** Error texts the client reads as a content-restriction failure. */
  predicate IsRestrictionSignature(msg: string) {
    Contains(msg, "network error") || Contains(msg, "INCOMPLETE_CHUNKED_ENCODING")
  }

  // ---------------------------------------------------------------------
  // The specification: the loop as a fold over lines and read outcomes.

  /** One complete line: trimmed, skipped when blank, otherwise decoded. A
      message fires a progress callback (percent 0 when there is none), a URL
      is captured, and the done marker completes once when a URL is held. */
  function HandleLine(st: LoopState, line: string, decode: Decoder): LoopState
  {
    var t := Trim(line);
    if t == [] then st
    else
      var parsed := ParseSseData(t, decode);
      var st1 := if parsed.Message? && parsed.text != []
        then st.(trace := st.trace + [OnProgress(parsed.progress.GetOr(0), parsed.text)])
        else st;
      var st2 := if parsed.VideoUrl? then st1.(videoUrl := parsed.url) else st1;
      if parsed.DoneMarker? && st2.videoUrl != [] && !st2.hasCompleted
      then st2.(hasCompleted := true, trace := st2.trace + [OnComplete(st2.videoUrl)])
      else st2
  }

  /** What one complete line decodes to; a blank line is no event. */
  function ParsedLine(line: string, decode: Decoder): Parsed
  {
    var t := Trim(line);
    if t == [] then NoEvent else ParseSseData(t, decode)
  }

  /** The progress callback a line calls for: a non-empty message reports its
      percentage, or 0 when it has none. */
  function LineProgress(line: string, decode: Decoder): (r: seq<StreamEvent>)
    ensures |r| <= 1
    ensures r != [] <==> ParsedLine(line, decode).Message? && ParsedLine(line, decode).text != []
  {
    var parsed := ParsedLine(line, decode);
    if parsed.Message? && parsed.text != [] then [OnProgress(parsed.progress.GetOr(0), parsed.text)] else []
  }

  function HandleLines(st: LoopState, lines: seq<string>, decode: Decoder): LoopState
    decreases |lines|
  {
    if lines == [] then st else HandleLines(HandleLine(st, lines[0], decode), lines[1..], decode)
  }

  /** One chunk: append it to the buffer, split on newlines, keep the last
      piece as the new buffer and handle the others in order. */
  function FeedChunk(st: LoopState, chunk: string, decode: Decoder): LoopState
  {
    var parts := Split(st.buffer + chunk, '\n');
    HandleLines(st.(buffer := parts[|parts| - 1]), parts[..|parts| - 1], decode)
  }

  /** The outer `catch`: a held, uncompleted URL still counts as success;
      otherwise a restriction signature is rewritten, anything else rethrown. */
  function CatchStreamError(st: LoopState, msg: string): Ending
  {
    if st.videoUrl != [] && !st.hasCompleted then
      Ending(st.(hasCompleted := true, trace := st.trace + [OnComplete(st.videoUrl)]), Returned(st.videoUrl))
    else if IsRestrictionSignature(msg) then
      Ending(st.(trace := st.trace + [OnError(RestrictionMessage)]), Threw(RestrictionMessage))
    else
      Ending(st, Threw(msg))
  }

  /** A failing `reader.read()`. */
  function FailRead(st: LoopState): Ending
  {
    if st.videoUrl != [] && !st.hasCompleted then
      Ending(st.(hasCompleted := true, trace := st.trace + [OnComplete(st.videoUrl)]), Returned(st.videoUrl))
    else
      CatchStreamError(st.(trace := st.trace + [OnError(InterruptedMessage)]), InterruptedMessage)
  }

  /** The end of the body: the leftover buffer may still carry a URL (only
      the URL is looked at), then an uncompleted URL completes. */
  function FinishNormally(st: LoopState, decode: Decoder): Ending
  {
    var st1 := AbsorbRest(st, decode);
    if st1.videoUrl != [] && !st1.hasCompleted then
      Ending(st1.(hasCompleted := true, trace := st1.trace + [OnComplete(st1.videoUrl)]), Returned(st1.videoUrl))
    else
      Ending(st1, Returned(st1.videoUrl))
  }

  /** The leftover buffer after the last chunk: only a URL it carries is
      taken, no callback fires. */
  function AbsorbRest(st: LoopState, decode: Decoder): (r: LoopState)
    ensures r.trace == st.trace && r.hasCompleted == st.hasCompleted
    ensures r.videoUrl == st.videoUrl || (r.videoUrl != [] && '\'' !in r.videoUrl)
  {
    var rest := Trim(st.buffer);
    var parsed := if rest != [] then ParseSseData(rest, decode) else NoEvent;
    if parsed.VideoUrl? then st.(videoUrl := parsed.url) else st
  }

  /** The whole loop over a finite sequence of read outcomes; running out of
      outcomes is the end of the body. */
  function Run(st: LoopState, steps: seq<ReadOutcome>, decode: Decoder): Ending
    decreases |steps|
  {
    if steps == [] then FinishNormally(st, decode)
    else match steps[0]
      case Chunk(text) => Run(FeedChunk(st, text, decode), steps[1..], decode)
      case EndOfStream => FinishNormally(st, decode)
      case ReadFailure => FailRead(st)
  }

  // ---------------------------------------------------------------------
  // The loop itself.

  /** The `while (true)` loop of `generateVideo`, from the first read to the
      value it returns or the error it throws. */
  method StreamLoop(steps: seq<ReadOutcome>, decode: Decoder) returns (trace: seq<StreamEvent>, outcome: Outcome)
    ensures trace == Run(Start, steps, decode).state.trace
    ensures outcome == Run(Start, steps, decode).outcome
  {
    var buffer, videoUrl, hasCompleted := "", "", false;
    trace := [];
    var i := 0;
    while i < |steps| && !steps[i].EndOfStream?
      invariant 0 <= i <= |steps|
      invariant Run(LoopState(buffer, videoUrl, hasCompleted, trace), steps[i..], decode) == Run(Start, steps, decode)
    {
      assert steps[i..][0] == steps[i] && steps[i..][1..] == steps[i + 1..];
      if steps[i].ReadFailure? {
        trace, outcome := ReadFailed(buffer, videoUrl, hasCompleted, trace);
        return;
      }
      buffer, videoUrl, hasCompleted, trace := ConsumeChunk(buffer, videoUrl, hasCompleted, trace, steps[i].text, decode);
      i := i + 1;
    }
    assert steps[i..] == [] || steps[i..][0] == EndOfStream;
    trace, outcome := FinishStream(buffer, videoUrl, hasCompleted, trace, decode);
  }

  /** The end of the body: the remaining buffer, then the final completion
      check. */
  method FinishStream(buffer: string, videoUrl: string, hasCompleted: bool, trace: seq<StreamEvent>, decode: Decoder)
    returns (trace': seq<StreamEvent>, outcome: Outcome)
    ensures var e := FinishNormally(LoopState(buffer, videoUrl, hasCompleted, trace), decode);
      trace' == e.state.trace && outcome == e.outcome
  {
    var url := videoUrl;
    var rest := Trim(buffer);
    if rest != [] {
      var parsed := ParseSseData(rest, decode);
      if parsed.VideoUrl? {
        url := parsed.url;
      }
    }
    trace' := trace;
    if url != [] && !hasCompleted {
      trace' := trace + [OnComplete(url)];
    }
    outcome := Returned(url);
  }

  /** The inner `catch` of a failing read, and the outer `catch` the error
      it throws reaches. */
  method ReadFailed(buffer: string, videoUrl: string, hasCompleted: bool, trace: seq<StreamEvent>)
    returns (trace': seq<StreamEvent>, outcome: Outcome)
    ensures var e := FailRead(LoopState(buffer, videoUrl, hasCompleted, trace));
      trace' == e.state.trace && outcome == e.outcome
  {
    if videoUrl != [] && !hasCompleted {
      trace' := trace + [OnComplete(videoUrl)];
      outcome := Returned(videoUrl);
      return;
    }
    var errorMsg := InterruptedMessage;
    trace' := trace + [OnError(errorMsg)];
    // the error reaches the outer catch
    if videoUrl != [] && !hasCompleted {
      trace' := trace' + [OnComplete(videoUrl)];
      outcome := Returned(videoUrl);
    } else if Contains(errorMsg, "network error") || Contains(errorMsg, "INCOMPLETE_CHUNKED_ENCODING") {
      trace' := trace' + [OnError(RestrictionMessage)];
      outcome := Threw(RestrictionMessage);
    } else {
      outcome := Threw(errorMsg);
    }
  }

  /** One chunk read: the complete lines it finishes are handled in order,
      the unfinished last one is kept. */
  method ConsumeChunk(buffer: string, videoUrl: string, hasCompleted: bool, trace: seq<StreamEvent>,
                      chunk: string, decode: Decoder)
    returns (buffer': string, videoUrl': string, hasCompleted': bool, trace': seq<StreamEvent>)
    ensures LoopState(buffer', videoUrl', hasCompleted', trace')
         == FeedChunk(LoopState(buffer, videoUrl, hasCompleted, trace), chunk, decode)
  {
    var lines := Split(buffer + chunk, '\n');
    buffer', videoUrl', hasCompleted', trace' := lines[|lines| - 1], videoUrl, hasCompleted, trace;
    var j := 0;
    while j < |lines| - 1
      invariant 0 <= j <= |lines| - 1
      invariant buffer' == lines[|lines| - 1]
      invariant HandleLines(LoopState(buffer', videoUrl', hasCompleted', trace'), lines[j..|lines| - 1], decode)
                == FeedChunk(LoopState(buffer, videoUrl, hasCompleted, trace), chunk, decode)
    {
      assert lines[j..|lines| - 1][1..] == lines[j + 1..|lines| - 1];
      var trimmedLine := Trim(lines[j]);
      if trimmedLine != [] {
        var parsed := ParseSseData(trimmedLine, decode);
        if parsed.Message? && parsed.progress.Some? && parsed.text != [] {
          trace' := trace' + [OnProgress(parsed.progress.value, parsed.text)];
        } else if parsed.Message? && parsed.text != [] {
          trace' := trace' + [OnProgress(0, parsed.text)];
        }
        if parsed.VideoUrl? {
          videoUrl' := parsed.url;
        }
        if parsed.DoneMarker? && videoUrl' != [] && !hasCompleted' {
          hasCompleted' := true;
          trace' := trace' + [OnComplete(videoUrl')];
        }
      }
      j := j + 1;
    }
  }

  // ---------------------------------------------------------------------
  // Counting callbacks.

  function Completions(trace: seq<StreamEvent>): nat
  {
    if trace == [] then 0
    else Completions(trace[..|trace| - 1]) + (if trace[|trace| - 1].OnComplete? then 1 else 0)
  }

  function Errors(trace: seq<StreamEvent>): nat
  {
    if trace == [] then 0
    else Errors(trace[..|trace| - 1]) + (if trace[|trace| - 1].OnError? then 1 else 0)
  }

  /** The URL passed to the last `onComplete` of the trace, if any. */
  function LastCompletion(trace: seq<StreamEvent>): (r: Option<string>)
    ensures r.Some? <==> Completions(trace) > 0
    ensures r.Some? ==> OnComplete(r.value) in trace
  {
    if trace == [] then None
    else if trace[|trace| - 1].OnComplete? then Some(trace[|trace| - 1].url)
    else LastCompletion(trace[..|trace| - 1])
  }

  /** Every `onComplete` of the trace passes a non-empty URL. */
  ghost predicate CompletionsCarryUrl(trace: seq<StreamEvent>)
  {
    trace == [] ||
    (CompletionsCarryUrl(trace[..|trace| - 1]) && (trace[|trace| - 1].OnComplete? ==> trace[|trace| - 1].url != []))
  }

  lemma CountAppend(trace: seq<StreamEvent>, e: StreamEvent)
    ensures Completions(trace + [e]) == Completions(trace) + (if e.OnComplete? then 1 else 0)
    ensures Errors(trace + [e]) == Errors(trace) + (if e.OnError? then 1 else 0)
    ensures CompletionsCarryUrl(trace + [e]) == (CompletionsCarryUrl(trace) && (e.OnComplete? ==> e.url != []))
  {
    assert (trace + [e])[..|trace|] == trace;
  }

  /** What holds of the loop's variables between two steps: `onComplete` has
      fired once exactly when `hasCompleted` is set, and only with a URL
      held; `onError` has not fired; the held URL has no quote. */
  ghost predicate Consistent(st: LoopState) {
    && Completions(st.trace) == (if st.hasCompleted then 1 else 0)
    && (st.hasCompleted ==> st.videoUrl != [])
    && '\'' !in st.videoUrl
    && Errors(st.trace) == 0
    && CompletionsCarryUrl(st.trace)
  }

  lemma StartConsistent()
    ensures Consistent(Start)
  {
  }

  lemma HandleLineConsistent(st: LoopState, line: string, decode: Decoder)
    requires Consistent(st)
    ensures Consistent(HandleLine(st, line, decode))
    ensures HandleLine(st, line, decode).buffer == st.buffer
  {
    var t := Trim(line);
    if t != [] {
      var parsed := ParseSseData(t, decode);
      if parsed.Message? && parsed.text != [] {
        CountAppend(st.trace, OnProgress(parsed.progress.GetOr(0), parsed.text));
      }
      var st1 := if parsed.Message? && parsed.text != []
        then st.(trace := st.trace + [OnProgress(parsed.progress.GetOr(0), parsed.text)])
        else st;
      var st2 := if parsed.VideoUrl? then st1.(videoUrl := parsed.url) else st1;
      CountAppend(st2.trace, OnComplete(st2.videoUrl));
    }
  }

  lemma {:induction false} HandleLinesConsistent(st: LoopState, lines: seq<string>, decode: Decoder)
    requires Consistent(st)
    ensures Consistent(HandleLines(st, lines, decode))
    ensures HandleLines(st, lines, decode).buffer == st.buffer
    decreases |lines|
  {
    if lines != [] {
      HandleLineConsistent(st, lines[0], decode);
      HandleLinesConsistent(HandleLine(st, lines[0], decode), lines[1..], decode);
    }
  }

  /** Between reads the state stays consistent, and the buffer never holds a
      newline. */
  lemma FeedChunkConsistent(st: LoopState, chunk: string, decode: Decoder)
    requires Consistent(st)
    ensures Consistent(FeedChunk(st, chunk, decode))
    ensures '\n' !in FeedChunk(st, chunk, decode).buffer
  {
    var parts := Split(st.buffer + chunk, '\n');
    HandleLinesConsistent(st.(buffer := parts[|parts| - 1]), parts[..|parts| - 1], decode);
  }

  // ---------------------------------------------------------------------
  // Reconciliation at the end of the stream.

  /** The restriction rewrite never applies to the read-failure message, so
      that message is what the caller sees thrown. */
  lemma InterruptedIsNotRestriction()
    ensures !IsRestrictionSignature(InterruptedMessage)
  {
    assert 'w' in "network error" && 'w' !in InterruptedMessage;
    ContainsKeepsChars(InterruptedMessage, "network error", 'w');
    assert 'I' in "INCOMPLETE_CHUNKED_ENCODING" && 'I' !in InterruptedMessage;
    ContainsKeepsChars(InterruptedMessage, "INCOMPLETE_CHUNKED_ENCODING", 'I');
  }

  /** Every character of a contained text occurs in the containing one. */
  lemma {:induction false} ContainsKeepsChars(s: string, sub: string, c: char)
    ensures Contains(s, sub) && c in sub ==> c in s
    decreases |s|
  {
    if Contains(s, sub) && c in sub {
      var k :| 0 <= k < |sub| && sub[k] == c;
      if StartsWith(s, sub) {
        assert s[k] == c;
      } else {
        ContainsKeepsChars(s[1..], sub, c);
        var m :| 0 <= m < |s[1..]| && s[1..][m] == c;
        assert s[m + 1] == c;
      }
    }
  }

  /** A read failure while a URL is held and not yet completed is a success:
      `onComplete` with that URL fires, `onError` does not, and the URL is
      returned. */
  lemma ReadFailureWithUrl(st: LoopState)
    requires Consistent(st)
    requires st.videoUrl != [] && !st.hasCompleted
    ensures FailRead(st).state.trace == st.trace + [OnComplete(st.videoUrl)]
    ensures FailRead(st).outcome == Returned(st.videoUrl)
    ensures Completions(FailRead(st).state.trace) == 1 && Errors(FailRead(st).state.trace) == 0
  {
    CountAppend(st.trace, OnComplete(st.videoUrl));
  }

  /** A read failure before any URL: `onError` fires exactly once with the
      interruption message, `onComplete` never, and that message is thrown. */
  lemma ReadFailureWithoutUrl(st: LoopState)
    requires Consistent(st)
    requires st.videoUrl == []
    ensures FailRead(st).state.trace == st.trace + [OnError(InterruptedMessage)]
    ensures FailRead(st).outcome == Threw(InterruptedMessage)
    ensures Completions(FailRead(st).state.trace) == 0 && Errors(FailRead(st).state.trace) == 1
  {
    InterruptedIsNotRestriction();
    CountAppend(st.trace, OnError(InterruptedMessage));
  }

  /** A read failure after the done marker already completed the attempt
      still fires `onError` and throws: both callbacks fire for one attempt. */
  lemma ReadFailureAfterCompletion(st: LoopState)
    requires Consistent(st)
    requires st.hasCompleted
    ensures FailRead(st).state.trace == st.trace + [OnError(InterruptedMessage)]
    ensures FailRead(st).outcome == Threw(InterruptedMessage)
    ensures Completions(FailRead(st).state.trace) == 1 && Errors(FailRead(st).state.trace) == 1
  {
    InterruptedIsNotRestriction();
    CountAppend(st.trace, OnError(InterruptedMessage));
  }

  /** What the caller can rely on for any stream: `onComplete` at most once
      and always with a non-empty URL,
      `onError` at most once and only as the last callback; a returned URL is
      non-empty exactly when `onComplete` fired, and then no `onError` fired;
      a thrown error was first reported through `onError`. */
  ghost predicate Reconciled(fin: LoopState, out: Outcome) {
    && CompletionsCarryUrl(fin.trace)
    && Completions(fin.trace) <= 1
    && Errors(fin.trace) <= 1
    && (out.Returned? ==> Errors(fin.trace) == 0 && (out.url != [] <==> Completions(fin.trace) == 1))
    && (out.Returned? ==> '\'' !in out.url)
    && (out.Threw? ==> Errors(fin.trace) == 1 && fin.trace != []
                       && fin.trace[|fin.trace| - 1] == OnError(out.message))
  }

  lemma FinishReconciled(st: LoopState, decode: Decoder)
    requires Consistent(st)
    ensures Reconciled(FinishNormally(st, decode).state, FinishNormally(st, decode).outcome)
  {
    var st1 := AbsorbRest(st, decode);
    CountAppend(st1.trace, OnComplete(st1.videoUrl));
  }

  lemma FailReadReconciled(st: LoopState)
    requires Consistent(st)
    ensures Reconciled(FailRead(st).state, FailRead(st).outcome)
  {
    if st.videoUrl != [] && !st.hasCompleted {
      ReadFailureWithUrl(st);
    } else if st.videoUrl == [] {
      ReadFailureWithoutUrl(st);
    } else {
      ReadFailureAfterCompletion(st);
    }
  }

  lemma {:induction false} RunReconciledFrom(st: LoopState, steps: seq<ReadOutcome>, decode: Decoder)
    requires Consistent(st)
    ensures Reconciled(Run(st, steps, decode).state, Run(st, steps, decode).outcome)
    decreases |steps|
  {
    if steps == [] || steps[0].EndOfStream? {
      FinishReconciled(st, decode);
    } else if steps[0].ReadFailure? {
      FailReadReconciled(st);
    } else {
      FeedChunkConsistent(st, steps[0].text, decode);
      RunReconciledFrom(FeedChunk(st, steps[0].text, decode), steps[1..], decode);
    }
  }

  /** The reconciliation contract holds for every sequence of steps. */
  lemma RunReconciled(steps: seq<ReadOutcome>, decode: Decoder)
    ensures Reconciled(Run(Start, steps, decode).state, Run(Start, steps, decode).outcome)
  {
    RunReconciledFrom(Start, steps, decode);
  }

  /** The only error a stream throws is the interruption message: the
      restriction rewrite of the outer `catch` never applies to it. */
  lemma {:induction false} StreamThrowsInterruption(st: LoopState, steps: seq<ReadOutcome>, decode: Decoder)
    ensures Run(st, steps, decode).outcome.Threw? ==> Run(st, steps, decode).outcome.message == InterruptedMessage
    decreases |steps|
  {
    if steps != [] && steps[0].Chunk? {
      StreamThrowsInterruption(FeedChunk(st, steps[0].text, decode), steps[1..], decode);
    } else if steps != [] && steps[0].ReadFailure? {
      InterruptedIsNotRestriction();
    }
  }

  /** A body that ends without ever carrying a URL fires neither `onComplete`
      nor `onError` and resolves to the empty URL. */
  lemma NoUrlNoCallback(st: LoopState, decode: Decoder)
    requires Consistent(st) && st.videoUrl == []
    requires Trim(st.buffer) == [] || !ParseSseData(Trim(st.buffer), decode).VideoUrl?
    ensures FinishNormally(st, decode).outcome == Returned([])
    ensures FinishNormally(st, decode).state.trace == st.trace
    ensures Completions(FinishNormally(st, decode).state.trace) == 0
  {
  }

  // ---------------------------------------------------------------------
  // Chunk boundaries do not matter.

  lemma {:induction false} HandleLinesAppend(st: LoopState, l1: seq<string>, l2: seq<string>, decode: Decoder)
    ensures HandleLines(st, l1 + l2, decode) == HandleLines(HandleLines(st, l1, decode), l2, decode)
    decreases |l1|
  {
    if l1 != [] {
      assert (l1 + l2)[0] == l1[0] && (l1 + l2)[1..] == l1[1..] + l2;
      HandleLinesAppend(HandleLine(st, l1[0], decode), l1[1..], l2, decode);
    } else {
      assert l1 + l2 == l2;
    }
  }

  lemma {:induction false} HandleLinesIgnoreBuffer(st: LoopState, lines: seq<string>, b: string, decode: Decoder)
    ensures HandleLines(st.(buffer := b), lines, decode) == HandleLines(st, lines, decode).(buffer := b)
    decreases |lines|
  {
    if lines != [] {
      assert HandleLine(st.(buffer := b), lines[0], decode) == HandleLine(st, lines[0], decode).(buffer := b);
      HandleLinesIgnoreBuffer(HandleLine(st, lines[0], decode), lines[1..], b, decode);
    }
  }

  lemma HandleLinesKeepBuffer(st: LoopState, lines: seq<string>, decode: Decoder)
    ensures HandleLines(st, lines, decode).buffer == st.buffer
  {
    HandleLinesIgnoreBuffer(st, lines, st.buffer, decode);
  }

  /** The pieces of `x + b`: the complete pieces of `x`, then the complete
      pieces of its unfinished last piece continued by `b`, whose last piece
      is the last piece of the whole. */
  lemma SplitTwoChunks(buf: string, a: string, b: string, px: seq<string>, pb: seq<string>, p: seq<string>)
    requires px == Split(buf + a, '\n') && pb == Split(px[|px| - 1] + b, '\n') && p == Split(buf + (a + b), '\n')
    ensures p[..|p| - 1] == px[..|px| - 1] + pb[..|pb| - 1]
    ensures p[|p| - 1] == pb[|pb| - 1]
  {
    SplitRegroup(buf, a, b);
    SplitAppend(buf + a, b, '\n');
    assert p == px[..|px| - 1] + pb;
  }

  lemma SplitRegroup(buf: string, a: string, b: string)
    ensures Split(buf + a + b, '\n') == Split(buf + (a + b), '\n')
  {
    assert buf + a + b == buf + (a + b);
  }

  /** Feeding two chunks one after the other is feeding their concatenation:
      how the body is cut into chunks does not change any callback. */
  lemma FeedChunkConcat(st: LoopState, a: string, b: string, decode: Decoder)
    ensures FeedChunk(FeedChunk(st, a, decode), b, decode) == FeedChunk(st, a + b, decode)
  {
    var px := Split(st.buffer + a, '\n');
    var pb := Split(px[|px| - 1] + b, '\n');
    SequentialFeeds(st, a, b, px, pb, decode);
    JoinedFeed(st, a, b, px, pb, decode);
  }

  /** Two chunks in a row: the complete lines of the first, then those the
      second completes, with the buffer the second leaves. */
  lemma SequentialFeeds(st: LoopState, a: string, b: string, px: seq<string>, pb: seq<string>, decode: Decoder)
    requires px == Split(st.buffer + a, '\n') && pb == Split(px[|px| - 1] + b, '\n')
    ensures FeedChunk(FeedChunk(st, a, decode), b, decode)
            == HandleLines(HandleLines(st.(buffer := pb[|pb| - 1]), px[..|px| - 1], decode), pb[..|pb| - 1], decode)
  {
    var l1, r1 := px[..|px| - 1], px[|px| - 1];
    var l2, r2 := pb[..|pb| - 1], pb[|pb| - 1];
    var st1 := HandleLines(st.(buffer := r1), l1, decode);
    assert FeedChunk(st1, b, decode) == HandleLines(st1.(buffer := r2), l2, decode) by {
      HandleLinesKeepBuffer(st.(buffer := r1), l1, decode);
    }
    assert st1.(buffer := r2) == HandleLines(st.(buffer := r2), l1, decode) by {
      HandleLinesIgnoreBuffer(st.(buffer := r1), l1, r2, decode);
      assert st.(buffer := r1).(buffer := r2) == st.(buffer := r2);
    }
  }

  /** `FeedChunk` read on the pieces of buffer and chunk. */
  lemma FeedChunkPieces(st: LoopState, chunk: string, parts: seq<string>, decode: Decoder)
    requires parts == Split(st.buffer + chunk, '\n')
    ensures FeedChunk(st, chunk, decode) == HandleLines(st.(buffer := parts[|parts| - 1]), parts[..|parts| - 1], decode)
  {
  }

  /** The pieces of one chunk holding both. */
  lemma JoinedPieces(st: LoopState, a: string, b: string, px: seq<string>, pb: seq<string>, decode: Decoder)
    requires px == Split(st.buffer + a, '\n') && pb == Split(px[|px| - 1] + b, '\n')
    ensures FeedChunk(st, a + b, decode)
            == HandleLines(st.(buffer := pb[|pb| - 1]), px[..|px| - 1] + pb[..|pb| - 1], decode)
  {
    var p := Split(st.buffer + (a + b), '\n');
    FeedChunkPieces(st, a + b, p, decode);
    SplitTwoChunks(st.buffer, a, b, px, pb, p);
    SamePieces(st, p, px[..|px| - 1] + pb[..|pb| - 1], pb[|pb| - 1], decode);
  }

  lemma SamePieces(st: LoopState, p: seq<string>, lines: seq<string>, rest: string, decode: Decoder)
    requires |p| >= 1 && p[..|p| - 1] == lines && p[|p| - 1] == rest
    ensures HandleLines(st.(buffer := p[|p| - 1]), p[..|p| - 1], decode) == HandleLines(st.(buffer := rest), lines, decode)
  {
  }

  /** One chunk holding both: the same lines, handled in the same order. */
  lemma JoinedFeed(st: LoopState, a: string, b: string, px: seq<string>, pb: seq<string>, decode: Decoder)
    requires px == Split(st.buffer + a, '\n') && pb == Split(px[|px| - 1] + b, '\n')
    ensures FeedChunk(st, a + b, decode)
            == HandleLines(HandleLines(st.(buffer := pb[|pb| - 1]), px[..|px| - 1], decode), pb[..|pb| - 1], decode)
  {
    JoinedPieces(st, a, b, px, pb, decode);
    HandleLinesAppend(st.(buffer := pb[|pb| - 1]), px[..|px| - 1], pb[..|pb| - 1], decode);
  }

  /** Reads that are all chunks. */
  function ChunkReads(chunks: seq<string>): (r: seq<ReadOutcome>)
    ensures |r| == |chunks| && forall k :: 0 <= k < |chunks| ==> r[k] == Chunk(chunks[k])
  {
    if chunks == [] then [] else [Chunk(chunks[0])] + ChunkReads(chunks[1..])
  }

  function FeedAll(st: LoopState, chunks: seq<string>, decode: Decoder): LoopState
    decreases |chunks|
  {
    if chunks == [] then st else FeedAll(FeedChunk(st, chunks[0], decode), chunks[1..], decode)
  }

  function Concat(chunks: seq<string>): string
  {
    if chunks == [] then [] else chunks[0] + Concat(chunks[1..])
  }

  /** However the body is cut into chunks, the loop ends in the state reached
      by one chunk holding the whole text. */
  lemma {:induction false} FeedAllIsOneChunk(st: LoopState, chunks: seq<string>, decode: Decoder)
    requires '\n' !in st.buffer
    ensures FeedAll(st, chunks, decode) == FeedChunk(st, Concat(chunks), decode)
    decreases |chunks|
  {
    if chunks == [] {
      SplitWithoutSep(st.buffer, '\n');
      assert st.buffer + [] == st.buffer;
      assert st.(buffer := st.buffer) == st;
    } else {
      var st1 := FeedChunk(st, chunks[0], decode);
      var parts := Split(st.buffer + chunks[0], '\n');
      HandleLinesKeepBuffer(st.(buffer := parts[|parts| - 1]), parts[..|parts| - 1], decode);
      FeedAllIsOneChunk(st1, chunks[1..], decode);
      FeedChunkConcat(st, chunks[0], Concat(chunks[1..]), decode);
    }
  }

  /** Text accounting: after any chunks, the lines handled so far are the
      complete lines of the text received, in order, and the retained buffer
      is its unfinished last line. */
  lemma BufferAccounting(chunks: seq<string>, decode: Decoder)
    ensures var parts := Split(Concat(chunks), '\n');
      && FeedAll(Start, chunks, decode) == HandleLines(Start.(buffer := parts[|parts| - 1]), parts[..|parts| - 1], decode)
      && FeedAll(Start, chunks, decode).buffer == parts[|parts| - 1]
  {
    var text := Concat(chunks);
    FeedAllIsOneChunk(Start, chunks, decode);
    assert Start.buffer + text == text;
    var parts := Split(text, '\n');
    HandleLinesKeepBuffer(Start.(buffer := parts[|parts| - 1]), parts[..|parts| - 1], decode);
  }

  /** Nothing received is lost: the complete lines, each followed by its
      newline, and then the retained buffer make up the text received. */
  lemma NothingLost(chunks: seq<string>, decode: Decoder)
    ensures var parts := Split(Concat(chunks), '\n');
      Join(parts[..|parts| - 1] + [FeedAll(Start, chunks, decode).buffer], '\n') == Concat(chunks)
  {
    FedBuffer(chunks, decode);
    SplitRejoined(Concat(chunks));
  }

  lemma SplitRejoined(text: string)
    ensures var parts := Split(text, '\n');
      Join(parts[..|parts| - 1] + [parts[|parts| - 1]], '\n') == text
  {
    var parts := Split(text, '\n');
    assert parts[..|parts| - 1] + [parts[|parts| - 1]] == parts;
    JoinSplit(text, '\n');
  }

  lemma FedBuffer(chunks: seq<string>, decode: Decoder)
    ensures var parts := Split(Concat(chunks), '\n');
      FeedAll(Start, chunks, decode).buffer == parts[|parts| - 1]
  {
    BufferAccounting(chunks, decode);
  }

  /** A run whose chunks are followed by a read failure reconciles the state
      those chunks reached. */
  lemma {:induction false} RunChunksThenFailure(st: LoopState, chunks: seq<string>, rest: seq<ReadOutcome>, decode: Decoder)
    ensures Run(st, ChunkReads(chunks) + [ReadFailure] + rest, decode) == FailRead(FeedAll(st, chunks, decode))
    decreases |chunks|
  {
    var steps := ChunkReads(chunks) + [ReadFailure] + rest;
    if chunks == [] {
      assert steps[0] == ReadFailure;
    } else {
      assert steps[0] == Chunk(chunks[0]);
      assert steps[1..] == ChunkReads(chunks[1..]) + [ReadFailure] + rest;
      RunChunksThenFailure(FeedChunk(st, chunks[0], decode), chunks[1..], rest, decode);
    }
  }

  // ---------------------------------------------------------------------
  // Progress reports and the returned URL.

  /** What one line fires: its progress callback, if any, then `onComplete`
      when it is the done marker and an uncompleted URL is held. Only a URL
      line changes the URL, and the buffer is never touched. */
  lemma HandleLineEvents(st: LoopState, line: string, decode: Decoder)
    ensures var r, parsed := HandleLine(st, line, decode), ParsedLine(line, decode);
      && r.buffer == st.buffer
      && r.trace == st.trace + LineProgress(line, decode) + CompletionBy(st, parsed)
      && r.videoUrl == (if parsed.VideoUrl? then parsed.url else st.videoUrl)
      && r.hasCompleted == (st.hasCompleted || (parsed.DoneMarker? && st.videoUrl != []))
  {
    var parsed := ParsedLine(line, decode);
    if Trim(line) == [] {
      assert parsed == NoEvent;
    } else {
      assert parsed == ParseSseData(Trim(line), decode);
      if parsed.Message? && parsed.text != [] {
        assert LineProgress(line, decode) == [OnProgress(parsed.progress.GetOr(0), parsed.text)];
      } else {
        assert LineProgress(line, decode) == [];
      }
    }
  }

  /** The `onComplete` a decoded line fires: only the done marker, and only
      with an uncompleted URL held. */
  function CompletionBy(st: LoopState, parsed: Parsed): (r: seq<StreamEvent>)
    ensures |r| <= 1 && (r != [] ==> r[0].OnComplete? && r[0].url != [])
  {
    if parsed.DoneMarker? && st.videoUrl != [] && !st.hasCompleted then [OnComplete(st.videoUrl)] else []
  }

  /** A `data:` line whose payload carries reasoning text that is not blank
      fires exactly one `onProgress`, with the first percentage in the text
      (0 without one) and the trimmed text, and changes nothing else. */
  lemma ReasoningLineReportsProgress(st: LoopState, line: string, decode: Decoder, reasoning: string, content: Option<string>)
    requires var t := Trim(line);
      && t != DoneLine && StartsWith(t, DataPrefix)
      && decode(t[|DataPrefix|..]) == Some(Payload(Some(Delta(Some(reasoning), content))))
    requires Trim(reasoning) != []
    ensures HandleLine(st, line, decode)
         == st.(trace := st.trace + [OnProgress(ProgressIn(reasoning).GetOr(0), Trim(reasoning))])
  {
    assert reasoning != [];
    ReasoningTakesPrecedence(Trim(line), decode, reasoning, content);
  }

  /** The `onProgress` calls of a trace, in order. */
  function Progresses(trace: seq<StreamEvent>): (r: seq<StreamEvent>)
    ensures |r| <= |trace|
  {
    if trace == [] then [] else (if trace[0].OnProgress? then [trace[0]] else []) + Progresses(trace[1..])
  }

  lemma {:induction false} ProgressesAppend(a: seq<StreamEvent>, b: seq<StreamEvent>)
    ensures Progresses(a + b) == Progresses(a) + Progresses(b)
  {
    if a != [] {
      assert (a + b)[0] == a[0] && (a + b)[1..] == a[1..] + b;
      ProgressesAppend(a[1..], b);
    } else {
      assert a + b == b;
    }
  }

  /** The progress callbacks a sequence of lines calls for, in order. */
  function LinesProgress(lines: seq<string>, decode: Decoder): seq<StreamEvent>
    decreases |lines|
  {
    if lines == [] then [] else LineProgress(lines[0], decode) + LinesProgress(lines[1..], decode)
  }

  /** Handling lines in order adds exactly their progress callbacks, in
      order, to the progress already reported (completions interleave but
      are no progress). */
  lemma {:induction false} HandleLinesProgress(st: LoopState, lines: seq<string>, decode: Decoder)
    ensures Progresses(HandleLines(st, lines, decode).trace) == Progresses(st.trace) + LinesProgress(lines, decode)
    decreases |lines|
  {
    if lines != [] {
      var st1 := HandleLine(st, lines[0], decode);
      HandleLineProgress(st, lines[0], decode);
      HandleLinesProgress(st1, lines[1..], decode);
    }
  }

  /** One line adds exactly its progress callback to the progress reported. */
  lemma HandleLineProgress(st: LoopState, line: string, decode: Decoder)
    ensures Progresses(HandleLine(st, line, decode).trace) == Progresses(st.trace) + LineProgress(line, decode)
  {
    HandleLineEvents(st, line, decode);
    var p := LineProgress(line, decode);
    var c := CompletionBy(st, ParsedLine(line, decode));
    ProgressesAppend(st.trace + p, c);
    ProgressesAppend(st.trace, p);
    if p != [] {
      ProgressesOfOne(p[0]);
      assert p == [p[0]];
    }
    if c != [] {
      ProgressesOfOne(c[0]);
      assert c == [c[0]];
    }
  }

  lemma ProgressesOfOne(e: StreamEvent)
    ensures Progresses([e]) == if e.OnProgress? then [e] else []
  {
    assert [e][1..] == [];
  }

  /** However the body is cut into chunks, the progress callbacks fired are
      those of its complete lines, in order. */
  lemma ProgressReported(chunks: seq<string>, decode: Decoder)
    ensures var parts := Split(Concat(chunks), '\n');
      Progresses(FeedAll(Start, chunks, decode).trace) == LinesProgress(parts[..|parts| - 1], decode)
  {
    BufferAccounting(chunks, decode);
    var parts := Split(Concat(chunks), '\n');
    FreshLinesProgress(Start.(buffer := parts[|parts| - 1]), parts[..|parts| - 1], decode);
  }

  lemma FreshLinesProgress(st: LoopState, lines: seq<string>, decode: Decoder)
    requires st.trace == []
    ensures Progresses(HandleLines(st, lines, decode).trace) == LinesProgress(lines, decode)
  {
    HandleLinesProgress(st, lines, decode);
  }

  /** After `onComplete` has fired, a later URL line still replaces the URL
      the call returns but fires no callback: the URL returned can differ
      from the one `onComplete` received. */
  lemma LateUrlReturnedNotReported(st: LoopState, line: string, decode: Decoder)
    requires st.hasCompleted && st.buffer == []
    requires ParsedLine(line, decode).VideoUrl?
    ensures var e := FinishNormally(HandleLine(st, line, decode), decode);
      && e.state.trace == st.trace
      && e.outcome == Returned(ParsedLine(line, decode).url)
      && LastCompletion(e.state.trace) == LastCompletion(st.trace)
      && (LastCompletion(st.trace) == Some(st.videoUrl) && ParsedLine(line, decode).url != st.videoUrl ==>
            e.outcome.url != LastCompletion(e.state.trace).value)
  {
    HandleLineEvents(st, line, decode);
    assert Trim([]) == [];
  }
}
