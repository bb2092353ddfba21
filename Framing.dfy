/**
 * How the host finds the end of the engine's reply to one command.
 *
 * On Unix the reply is read from the engine's stdout and stderr pipes by a
 * polling loop whose state is (isError, timeout, content, start). The loop is
 * modelled over a trace of polls: each poll carries the clock reading of that
 * turn and the chunk `stream_get_contents` returned for each stream that
 * `stream_select` reported readable. On Windows the reply is read from an
 * output file; a poll there is the clock reading and the file's contents.
 * Clock readings are integer ticks.
 */
module Framing {
  import opened Text
  import opened Outcomes

  // ---------------------------------------------------------------------
  // Exceptions

  /** The exception classes an operation can end in; `Exception` is PHP's base class, thrown by the browser layer. */
  datatype Failure =
    | PHPSikuliException(message: string)
    | FindFailedException(message: string)
    | SikuliException(message: string)
    | Exception(message: string)

  const FindFailedMarker := "org.sikuli.script.FindFailed:"

  /** `_errorToException`: a failed find keeps the text, anything else gets a header. */
  function ErrorToException(error: string): (f: Failure)
    ensures f.FindFailedException? <==> Contains(error, FindFailedMarker)
    ensures f.FindFailedException? || f.SikuliException?
  {
    if Contains(error, FindFailedMarker) then FindFailedException(error)
    else SikuliException("Sikuli ERROR: \n" + error)
  }

  /** Whatever class is chosen, the engine's error text is carried in the message. */
  lemma ErrorTextKept(error: string)
    ensures Contains(ErrorToException(error).message, error)
  {
    assert StartsWith(error, error);
    if !Contains(error, FindFailedMarker) {
      ContainsInfix("Sikuli ERROR: \n", error, "", error);
      assert "Sikuli ERROR: \n" + error + "" == "Sikuli ERROR: \n" + error;
    }
  }

  /** The error that ends a silent, normal-mode frame. */
  const NoResponse := PHPSikuliException("Sikuli did not respond")

  // ---------------------------------------------------------------------
  // Line classes

  /** A line that marks the end of the reply. */
  predicate IsSentinel(line: string) {
    line == ">>>" || line == "[info] VDictProxy loaded." || line == "... use ctrl-d to end the session"
  }

  const SubstitutePrefix := "Using substitute bounding box at"

  /** A benign warning line: never stored, and it ends error mode. */
  predicate IsSubstitute(line: string) {
    StartsWith(line, SubstitutePrefix)
  }

  const LineRefHead := "  line "
  const LineRefTail := ", in file <stdin>"
  const FileRefHead := "file \"<stdin>\", line "

  /** `/  Line \d+, in file <stdin>/` matched at the start of lower-cased `s`. */
  predicate LineRefAt(s: string) {
    StartsWith(s, LineRefHead)
    && var d := LeadingDigits(s[|LineRefHead|..]);
       d > 0 && StartsWith(s[|LineRefHead| + d..], LineRefTail)
  }

  /** `/File "<stdin>", line \d+/` matched at the start of lower-cased `s`. */
  predicate FileRefAt(s: string) {
    StartsWith(s, FileRefHead) && LeadingDigits(s[|FileRefHead|..]) > 0
  }

  predicate TracebackIn(s: string)
    decreases |s|
  {
    LineRefAt(s) || FileRefAt(s) || (|s| > 0 && TracebackIn(s[1..]))
  }

  /** A line that points into a traceback, matched case-insensitively anywhere in the line. */
  predicate IsTraceback(line: string) {
    TracebackIn(Lower(line))
  }

  // ---------------------------------------------------------------------
  // The Unix reader

  /** The loop's variables. */
  datatype Reader = Reader(isError: bool, timeout: int, content: seq<string>, start: int)

  /** One turn of the loop: the clock reading and the chunk read from each ready stream. */
  datatype Poll = Poll(now: int, out: Option<string>, err: Option<string>)

  /** The reader after a chunk's lines, and whether a sentinel ended the frame. */
  datatype Scan = Scan(reader: Reader, stopped: bool)

  /** How a frame ends: a reply text, an exception (and whether the connection is reset), or no end yet in the trace. */
  datatype Frame = Output(text: string) | Raised(failure: Failure, reset: bool) | Unfinished

  /** How one turn ends: keep polling, leave the loop, or give up on a silent engine. */
  datatype Turn = Continue(reader: Reader) | Stop(reader: Reader) | Silent

  /** The reader at the start of a frame. */
  function Start(timeout: int, t0: int): Reader {
    Reader(false, timeout, [], t0)
  }

  /** Storing a line: the clock restarts, and a traceback line in error mode shortens the timeout to 1. */
  function Append(r: Reader, line: string, now: int): Reader {
    r.(start := now, content := r.content + [line],
       timeout := if r.isError && IsTraceback(line) then 1 else r.timeout)
  }

  /** The inner loop over the lines of one chunk. */
  function ScanLines(r: Reader, lines: seq<string>, now: int): Scan
    decreases |lines|
  {
    if |lines| == 0 then Scan(r, false)
    else if |lines[0]| == 0 then ScanLines(r, lines[1..], now)
    else if IsSentinel(lines[0]) then Scan(r, true)
    else if IsSubstitute(lines[0]) then ScanLines(r.(isError := false), lines[1..], now)
    else ScanLines(Append(r, lines[0], now), lines[1..], now)
  }

  /**
   * Reading a chunk: the first chunk from stderr discards what was stored and
   * enters error mode; error mode with nothing stored afterwards is left.
   */
  function ReadChunk(r: Reader, chunk: string, fromError: bool, now: int): Scan {
    var r1 := if !r.isError && fromError then r.(content := [], isError := true) else r;
    var s := ScanLines(r1, Split(chunk, '\n'), now);
    if !s.stopped && s.reader.isError && |s.reader.content| == 0 then Scan(s.reader.(isError := false), false)
    else s
  }

  /** One turn: stdout is read when ready, else stderr; then the inactivity test. */
  function Step(r: Reader, p: Poll): Turn {
    var s := if p.out.Some? then ReadChunk(r, p.out.value, false, p.now)
             else if p.err.Some? then ReadChunk(r, p.err.value, true, p.now)
             else Scan(r, false);
    if s.stopped then Stop(s.reader)
    else if p.now - s.reader.start > s.reader.timeout then (if s.reader.isError then Stop(s.reader) else Silent)
    else Continue(s.reader)
  }

  const OomMarker := "java.lang.OutOfMemoryError"

  /** The out-of-memory test as written: the marker is searched for the error text. */
  predicate OutOfMemoryAsWritten(text: string) {
    Contains(OomMarker, text)
  }

  /** The out-of-memory test as intended: the error text is searched for the marker. */
  predicate OutOfMemory(text: string) {
    Contains(text, OomMarker)
  }

  /** After the loop: the stored lines joined by newlines, raised in error mode. */
  function Finish(r: Reader): Frame {
    var text := Join(r.content, "\n");
    if r.isError then Raised(ErrorToException(text), OutOfMemory(text)) else Output(text)
  }

  /** `_getStreamOutput` over a trace of polls. */
  function Run(r: Reader, polls: seq<Poll>): Frame
    decreases |polls|
  {
    if |polls| == 0 then Unfinished
    else match Step(r, polls[0])
      case Continue(r1) => Run(r1, polls[1..])
      case Stop(r1) => Finish(r1)
      case Silent => Raised(NoResponse, false)
  }

  /** The reader the frame ends with (or the last one, when the trace ends first). */
  function Final(r: Reader, polls: seq<Poll>): Reader
    decreases |polls|
  {
    if |polls| == 0 then r
    else match Step(r, polls[0])
      case Continue(r1) => Final(r1, polls[1..])
      case Stop(r1) => r1
      case Silent => r
  }

  /** The polling loop of `_getStreamOutput`. */
  method GetStreamOutput(timeout: int, t0: int, polls: seq<Poll>) returns (f: Frame)
    ensures f == Run(Start(timeout, t0), polls)
  {
    var isError := false;
    var tmo := timeout;
    var content: seq<string> := [];
    var start := t0;
    var i := 0;
    while i < |polls|
      invariant 0 <= i <= |polls|
      invariant Run(Start(timeout, t0), polls) == Run(Reader(isError, tmo, content, start), polls[i..])
    {
      var p := polls[i];
      ghost var r0 := Reader(isError, tmo, content, start);
      assert polls[i..][1..] == polls[i + 1..];
      var chunk: Option<string> := None;
      var fromError := false;
      if p.out.Some? {
        chunk := p.out;
      } else if p.err.Some? {
        chunk := p.err;
        fromError := true;
      }
      if chunk.Some? {
        if !isError && fromError {
          content := [];
          isError := true;
        }
        var s := ScanChunk(Reader(isError, tmo, content, start), Split(chunk.value, '\n'), p.now);
        if s.stopped {
          f := Finish(s.reader);
          return;
        }
        isError, tmo, content, start := s.reader.isError, s.reader.timeout, s.reader.content, s.reader.start;
        if isError && |content| == 0 {
          isError := false;
        }
        assert ReadChunk(r0, chunk.value, fromError, p.now) == Scan(Reader(isError, tmo, content, start), false);
      }
      if p.now - start > tmo {
        if isError {
          f := Finish(Reader(isError, tmo, content, start));
          return;
        }
        f := Raised(NoResponse, false);
        return;
      }
      assert Step(r0, p) == Continue(Reader(isError, tmo, content, start));
      i := i + 1;
    }
    f := Unfinished;
  }

  /** The inner loop of `_getStreamOutput` over the lines of one chunk. */
  method ScanChunk(r: Reader, lines: seq<string>, now: int) returns (s: Scan)
    ensures s == ScanLines(r, lines, now)
  {
    var isError, tmo, content, start := r.isError, r.timeout, r.content, r.start;
    var j := 0;
    while j < |lines|
      invariant 0 <= j <= |lines|
      invariant ScanLines(r, lines, now) == ScanLines(Reader(isError, tmo, content, start), lines[j..], now)
    {
      var line := lines[j];
      assert lines[j..][1..] == lines[j + 1..];
      if |line| > 0 {
        if IsSentinel(line) {
          return Scan(Reader(isError, tmo, content, start), true);
        }
        if IsSubstitute(line) {
          isError := false;
          j := j + 1;
          continue;
        }
        start := now;
        content := content + [line];
        if isError && IsTraceback(line) {
          tmo := 1;
        }
      }
      j := j + 1;
    }
    s := Scan(Reader(isError, tmo, content, start), false);
  }

  // ---------------------------------------------------------------------
  // What a chunk contributes

  /** No stored line is empty, a sentinel or a substitute warning. */
  predicate Clean(content: seq<string>) {
    forall k :: 0 <= k < |content| ==> |content[k]| > 0 && !IsSentinel(content[k]) && !IsSubstitute(content[k])
  }

  /** The lines of a chunk that are stored: the non-empty, non-warning lines before the first sentinel. */
  function Kept(lines: seq<string>): (k: seq<string>)
    ensures Clean(k)
    ensures |k| <= |lines|
    decreases |lines|
  {
    if |lines| == 0 then []
    else if |lines[0]| == 0 then Kept(lines[1..])
    else if IsSentinel(lines[0]) then []
    else if IsSubstitute(lines[0]) then Kept(lines[1..])
    else [lines[0]] + Kept(lines[1..])
  }

  /** A substitute warning comes before the first sentinel. */
  predicate Resets(lines: seq<string>)
    decreases |lines|
  {
    |lines| > 0
    && if |lines[0]| == 0 then Resets(lines[1..])
       else !IsSentinel(lines[0]) && (IsSubstitute(lines[0]) || Resets(lines[1..]))
  }

  predicate AnyTraceback(lines: seq<string>) {
    exists k :: 0 <= k < |lines| && IsTraceback(lines[k])
  }

  /** A chunk appends exactly its kept lines to what was stored. */
  lemma {:induction false} ScanContent(r: Reader, lines: seq<string>, now: int)
    ensures ScanLines(r, lines, now).reader.content == r.content + Kept(lines)
    decreases |lines|
  {
    if |lines| > 0 && |lines[0]| > 0 && !IsSentinel(lines[0]) {
      if IsSubstitute(lines[0]) {
        ScanContent(r.(isError := false), lines[1..], now);
      } else {
        ScanContent(Append(r, lines[0], now), lines[1..], now);
      }
    } else if |lines| > 0 && |lines[0]| == 0 {
      ScanContent(r, lines[1..], now);
    }
  }

  /** A chunk ends the frame exactly when one of its lines is a sentinel. */
  lemma {:induction false} ScanStops(r: Reader, lines: seq<string>, now: int)
    ensures ScanLines(r, lines, now).stopped <==> exists k :: 0 <= k < |lines| && IsSentinel(lines[k])
    decreases |lines|
  {
    if |lines| > 0 {
      var next := if |lines[0]| == 0 then r else if IsSubstitute(lines[0]) then r.(isError := false) else Append(r, lines[0], now);
      ScanStops(next, lines[1..], now);
      if exists k :: 0 <= k < |lines[1..]| && IsSentinel(lines[1..][k]) {
        var k :| 0 <= k < |lines[1..]| && IsSentinel(lines[1..][k]);
        assert IsSentinel(lines[k + 1]);
      }
      if exists k :: 0 <= k < |lines| && IsSentinel(lines[k]) {
        var k :| 0 <= k < |lines| && IsSentinel(lines[k]);
        if k > 0 {
          assert IsSentinel(lines[1..][k - 1]);
        }
      }
    }
  }

  /** The error flag survives a chunk exactly when no warning line comes before its sentinel. */
  lemma {:induction false} ScanErrorFlag(r: Reader, lines: seq<string>, now: int)
    ensures ScanLines(r, lines, now).reader.isError == (r.isError && !Resets(lines))
    decreases |lines|
  {
    if |lines| > 0 && |lines[0]| > 0 && !IsSentinel(lines[0]) {
      if IsSubstitute(lines[0]) {
        ScanErrorFlag(r.(isError := false), lines[1..], now);
      } else {
        ScanErrorFlag(Append(r, lines[0], now), lines[1..], now);
      }
    } else if |lines| > 0 && |lines[0]| == 0 {
      ScanErrorFlag(r, lines[1..], now);
    }
  }

  /** The inactivity clock restarts exactly when the chunk stores a line. */
  lemma {:induction false} ScanClock(r: Reader, lines: seq<string>, now: int)
    ensures ScanLines(r, lines, now).reader.start == if |Kept(lines)| > 0 then now else r.start
    decreases |lines|
  {
    if |lines| > 0 && |lines[0]| > 0 && !IsSentinel(lines[0]) {
      if IsSubstitute(lines[0]) {
        ScanClock(r.(isError := false), lines[1..], now);
      } else {
        ScanClock(Append(r, lines[0], now), lines[1..], now);
      }
    } else if |lines| > 0 && |lines[0]| == 0 {
      ScanClock(r, lines[1..], now);
    }
  }

  /** Without a warning line, the timeout drops to 1 exactly when an error-mode chunk stores a traceback line. */
  lemma {:induction false} ScanTimeout(r: Reader, lines: seq<string>, now: int)
    requires !Resets(lines)
    ensures ScanLines(r, lines, now).reader.timeout == if r.isError && AnyTraceback(Kept(lines)) then 1 else r.timeout
    decreases |lines|
  {
    if |lines| > 0 && |lines[0]| > 0 && !IsSentinel(lines[0]) {
      var a := Append(r, lines[0], now);
      ScanTimeout(a, lines[1..], now);
      var k := Kept(lines);
      assert k == [lines[0]] + Kept(lines[1..]);
      if AnyTraceback(Kept(lines[1..])) {
        var j :| 0 <= j < |Kept(lines[1..])| && IsTraceback(Kept(lines[1..])[j]);
        assert IsTraceback(k[j + 1]);
      }
      if AnyTraceback(k) && !IsTraceback(lines[0]) {
        var j :| 0 <= j < |k| && IsTraceback(k[j]);
        assert j > 0;
        assert IsTraceback(Kept(lines[1..])[j - 1]);
      }
      if IsTraceback(lines[0]) {
        assert IsTraceback(k[0]);
      }
    } else if |lines| > 0 && |lines[0]| == 0 {
      ScanTimeout(r, lines[1..], now);
    }
  }

  /** A sentinel ends the chunk: what follows it is not looked at. */
  lemma {:induction false} SentinelStopsScan(r: Reader, pre: seq<string>, line: string, post: seq<string>, now: int)
    requires IsSentinel(line)
    requires forall k :: 0 <= k < |pre| ==> !IsSentinel(pre[k])
    ensures ScanLines(r, pre + [line] + post, now) == Scan(ScanLines(r, pre, now).reader, true)
    decreases |pre|
  {
    var all := pre + [line] + post;
    if |pre| == 0 {
      assert all[0] == line;
    } else {
      assert all[0] == pre[0];
      assert all[1..] == pre[1..] + [line] + post;
      var next := if |pre[0]| == 0 then r else if IsSubstitute(pre[0]) then r.(isError := false) else Append(r, pre[0], now);
      SentinelStopsScan(next, pre[1..], line, post, now);
    }
  }

  /** Stored content stays clean from turn to turn. */
  lemma StepClean(r: Reader, p: Poll)
    requires Clean(r.content)
    ensures Step(r, p).Continue? || Step(r, p).Stop? ==> Clean(Step(r, p).reader.content)
  {
    if p.out.Some? || p.err.Some? {
      var fromError := p.out.None?;
      var chunk := if p.out.Some? then p.out.value else p.err.value;
      var r1 := if !r.isError && fromError then r.(content := [], isError := true) else r;
      var lines := Split(chunk, '\n');
      ScanContent(r1, lines, p.now);
      CleanConcat(r1.content, Kept(lines));
      assert ReadChunk(r, chunk, fromError, p.now).reader.content == r1.content + Kept(lines);
    }
  }

  /** Clean sequences concatenate to a clean sequence. */
  lemma CleanConcat(a: seq<string>, b: seq<string>)
    requires Clean(a) && Clean(b)
    ensures Clean(a + b)
  {
    forall k | 0 <= k < |a + b|
      ensures |(a + b)[k]| > 0 && !IsSentinel((a + b)[k]) && !IsSubstitute((a + b)[k])
    {
      if k >= |a| {
        assert (a + b)[k] == b[k - |a|];
      }
    }
  }

  /**
   * Sentinels, warning lines and empty lines never reach a reply: the frame's
   * text is the newline-join of clean lines.
   */
  lemma {:induction false} FinalClean(r: Reader, polls: seq<Poll>)
    requires Clean(r.content)
    ensures Clean(Final(r, polls).content)
    ensures Run(r, polls).Output? ==> Run(r, polls).text == Join(Final(r, polls).content, "\n")
    decreases |polls|
  {
    if |polls| > 0 {
      StepClean(r, polls[0]);
      if Step(r, polls[0]).Continue? {
        FinalClean(Step(r, polls[0]).reader, polls[1..]);
      }
    }
  }

  // ---------------------------------------------------------------------
  // Turn-level properties

  /** When both streams are ready, the stderr chunk is not read in that turn. */
  lemma StdoutFirst(r: Reader, p: Poll, rest: seq<Poll>)
    requires p.out.Some?
    ensures Run(r, [p] + rest) == Run(r, [p.(err := None)] + rest)
  {
    assert ([p] + rest)[1..] == rest;
    assert ([p.(err := None)] + rest)[1..] == rest;
  }

  /** The first stderr chunk in normal mode discards what stdout stored. */
  lemma ErrorDiscards(r: Reader, chunk: string, now: int)
    requires !r.isError
    ensures ReadChunk(r, chunk, true, now).reader.content == Kept(Split(chunk, '\n'))
  {
    ScanContent(r.(content := [], isError := true), Split(chunk, '\n'), now);
  }

  /** A stderr chunk that stores a line and has no warning line leaves the reader in error mode. */
  lemma ErrorChunkEntersErrorMode(r: Reader, chunk: string, now: int)
    requires !Resets(Split(chunk, '\n')) && |Kept(Split(chunk, '\n'))| > 0
    ensures ReadChunk(r, chunk, true, now).reader.isError
  {
    var r1 := if !r.isError then r.(content := [], isError := true) else r;
    ScanContent(r1, Split(chunk, '\n'), now);
    ScanErrorFlag(r1, Split(chunk, '\n'), now);
  }

  /** Error mode with stored lines persists through any chunk without a warning line, from either stream. */
  lemma ErrorIsSticky(r: Reader, chunk: string, fromError: bool, now: int)
    requires r.isError && |r.content| > 0
    requires !Resets(Split(chunk, '\n'))
    ensures ReadChunk(r, chunk, fromError, now).reader.isError
  {
    ScanContent(r, Split(chunk, '\n'), now);
    ScanErrorFlag(r, Split(chunk, '\n'), now);
  }

  /** A stored traceback line in error mode shortens the timeout to one tick. */
  lemma TracebackShortensTimeout(r: Reader, chunk: string, fromError: bool, now: int)
    requires r.isError || fromError
    requires !Resets(Split(chunk, '\n'))
    requires AnyTraceback(Kept(Split(chunk, '\n')))
    ensures ReadChunk(r, chunk, fromError, now).reader.timeout == 1
  {
    var r1 := if !r.isError && fromError then r.(content := [], isError := true) else r;
    ScanTimeout(r1, Split(chunk, '\n'), now);
  }

  /** In normal mode the timeout is never changed by a chunk. */
  lemma NormalModeKeepsTimeout(r: Reader, chunk: string, now: int)
    requires !r.isError && !Resets(Split(chunk, '\n'))
    ensures ReadChunk(r, chunk, false, now).reader.timeout == r.timeout
  {
    ScanTimeout(r, Split(chunk, '\n'), now);
  }

  /** The inactivity clock restarts in a turn exactly when that turn stores a line. */
  lemma ClockRestartsOnlyOnStore(r: Reader, chunk: string, fromError: bool, now: int)
    ensures ReadChunk(r, chunk, fromError, now).reader.start == if |Kept(Split(chunk, '\n'))| > 0 then now else r.start
  {
    var r1 := if !r.isError && fromError then r.(content := [], isError := true) else r;
    ScanClock(r1, Split(chunk, '\n'), now);
  }

  /** A `>>>` line ends the frame with what was stored before it; later lines and turns are ignored. */
  lemma SentinelEndsFrame(r: Reader, now: int, pre: seq<string>, post: seq<string>, rest: seq<Poll>)
    requires forall k :: 0 <= k < |pre| ==> '\n' !in pre[k] && !IsSentinel(pre[k])
    requires forall k :: 0 <= k < |post| ==> '\n' !in post[k]
    ensures Run(r, [Poll(now, Some(Join(pre + [">>>"] + post, "\n")), None)] + rest)
            == Finish(ScanLines(r, pre, now).reader)
  {
    var lines := pre + [">>>"] + post;
    forall k | 0 <= k < |lines|
      ensures '\n' !in lines[k]
    {
      if k < |pre| {
        assert lines[k] == pre[k];
      } else if k > |pre| {
        assert lines[k] == post[k - |pre| - 1];
      }
    }
    SplitJoin(lines, '\n');
    SentinelStopsScan(r, pre, ">>>", post, now);
  }

  /** An idle turn past the timeout raises the stored error text in error mode. */
  lemma ExpiryInErrorMode(r: Reader, now: int, rest: seq<Poll>)
    requires r.isError && now - r.start > r.timeout
    ensures Run(r, [Poll(now, None, None)] + rest)
            == Raised(ErrorToException(Join(r.content, "\n")), OutOfMemory(Join(r.content, "\n")))
  {
  }

  /** An idle turn past the timeout in normal mode raises "Sikuli did not respond". */
  lemma ExpiryInNormalMode(r: Reader, now: int, rest: seq<Poll>)
    requires !r.isError && now - r.start > r.timeout
    ensures Run(r, [Poll(now, None, None)] + rest) == Raised(NoResponse, false)
  {
  }

  /** An idle turn within the timeout changes nothing. */
  lemma IdleWithinTimeout(r: Reader, now: int, rest: seq<Poll>)
    requires now - r.start <= r.timeout
    ensures Run(r, [Poll(now, None, None)] + rest) == Run(r, rest)
  {
    assert ([Poll(now, None, None)] + rest)[1..] == rest;
  }

  /** An error frame raises `FindFailedException` exactly when its text names a failed find. */
  lemma ErrorFrameClass(r: Reader)
    requires r.isError
    ensures Finish(r).Raised?
    ensures Finish(r).failure.FindFailedException? <==> Contains(Join(r.content, "\n"), FindFailedMarker)
  {
  }

  // ---------------------------------------------------------------------
  // The out-of-memory test

  /**
   * As written, the test misses the real message and fires on an empty error
   * text; the intended test is the other way round.
   */
  lemma OutOfMemorySwapped()
    ensures !OutOfMemoryAsWritten("java.lang.OutOfMemoryError: Java heap space")
    ensures OutOfMemory("java.lang.OutOfMemoryError: Java heap space")
    ensures OutOfMemoryAsWritten("") && !OutOfMemory("")
  {
    var msg := "java.lang.OutOfMemoryError: Java heap space";
    assert StartsWith(msg, OomMarker);
    assert StartsWith(OomMarker, "");
    ContainsIffOccurs(OomMarker, msg);
  }

  /** The intended test fires on any error text that mentions the marker. */
  lemma OutOfMemoryFound(before: string, after: string)
    ensures OutOfMemory(before + OomMarker + after)
  {
    assert StartsWith(OomMarker, OomMarker);
    ContainsInfix(before, OomMarker, after, OomMarker);
  }

  // ---------------------------------------------------------------------
  // The Windows reader

  /** One turn of the Windows loop: the clock reading and the output file's contents. */
  datatype FileRead = FileRead(now: int, contents: string)

  const StdinMarker := "File \"<stdin>\""

  /** The Windows reader's own timeout, independent of the command timeout. */
  const FileTimeout := 15

  const NoServerResponse := PHPSikuliException("Sikuli server did not respond")

  /**
   * What the output file says: nothing yet (None), an error when it names
   * `<stdin>`, or the reply with prompts removed.
   */
  function ClassifyFile(contents: string): Option<Result<string, Failure>> {
    var t := Trim(contents);
    if t == "" then None
    else if Contains(t, StdinMarker) then Some(Failure(ErrorToException(Replace(t, "print '>>>';", ""))))
    else Some(Success(Trim(Replace(t, ">>>", ""))))
  }

  /** `_getStreamOutputWindows` over a trace of file views started at clock `t0`. */
  function RunFile(t0: int, views: seq<FileRead>): Frame
    decreases |views|
  {
    if |views| == 0 then Unfinished
    else match ClassifyFile(views[0].contents)
      case Some(Success(text)) => Output(text)
      case Some(Failure(f)) => Raised(f, false)
      case None =>
        if views[0].now - t0 > FileTimeout then Raised(NoServerResponse, false)
        else RunFile(t0, views[1..])
  }

  /** The polling loop of `_getStreamOutputWindows`. */
  method GetStreamOutputWindows(t0: int, views: seq<FileRead>) returns (f: Frame)
    ensures f == RunFile(t0, views)
  {
    var i := 0;
    while i < |views|
      invariant 0 <= i <= |views|
      invariant RunFile(t0, views) == RunFile(t0, views[i..])
    {
      assert views[i..][1..] == views[i + 1..];
      var contents := Trim(views[i].contents);
      if contents != "" {
        if Contains(contents, StdinMarker) {
          f := Raised(ErrorToException(Replace(contents, "print '>>>';", "")), false);
          return;
        }
        f := Output(Trim(Replace(contents, ">>>", "")));
        return;
      }
      if views[i].now - t0 > FileTimeout {
        f := Raised(NoServerResponse, false);
        return;
      }
      i := i + 1;
    }
    f := Unfinished;
  }

  /** A file naming `<stdin>` is an error, anything else non-blank a reply, and a blank file keeps the loop going. */
  lemma ClassifyFileCases(contents: string)
    ensures ClassifyFile(contents).None? <==> Trim(contents) == ""
    ensures ClassifyFile(contents).Some? ==>
              (ClassifyFile(contents).value.Failure? <==> Contains(Trim(contents), StdinMarker))
  {
  }

  /** A reply without prompts is returned as the trimmed file contents. */
  lemma PlainReplyUnchanged(contents: string)
    requires Trim(contents) != "" && !Contains(Trim(contents), StdinMarker) && !Contains(Trim(contents), ">>>")
    ensures ClassifyFile(contents) == Some(Success(Trim(contents)))
  {
    ReplaceAbsent(Trim(contents), ">>>", "");
    TrimIdempotent(contents, TrimChars);
  }

  /** The Windows reader gives up after its own 15 ticks whatever the command timeout is. */
  lemma {:induction false} BlankFileTimesOut(t0: int, views: seq<FileRead>)
    requires |views| > 0 && views[|views| - 1].now - t0 > FileTimeout
    requires forall k :: 0 <= k < |views| ==> Trim(views[k].contents) == ""
    ensures RunFile(t0, views) == Raised(NoServerResponse, false)
    decreases |views|
  {
    assert ClassifyFile(views[0].contents) == None;
    if views[0].now - t0 <= FileTimeout {
      assert |views| > 1;
      assert views[1..][|views| - 2] == views[|views| - 1];
      BlankFileTimesOut(t0, views[1..]);
    }
  }
}
