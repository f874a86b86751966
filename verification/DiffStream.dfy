/** Streaming a diff line by line out of byte chunks of any size. */
module DiffStream {

  newtype Byte = i: int | 0 <= i < 256

  const NEWLINE: Byte := 10

  type Line = seq<Byte>

  /** A line and its zero-based position in the whole diff. */
  datatype Visit = Visit(offset: nat, line: Line)

  /** What the visitor answers: go on, the page is full, or some other error. */
  datatype Verdict = Continue | PageFull | Broken

  /** The visitor may consult everything it has been shown so far, the current line last. */
  type Visitor = seq<Visit> -> Verdict

  /** A limit of zero or less means no limit. */
  datatype Config = Config(offset: nat, maxPending: int, visitor: Visitor)

  datatype Outcome = Done | TooLong | Stopped | VisitFailed

  datatype Walked = Walked(visits: seq<Visit>, total: nat, outcome: Outcome)

  // -------------------------------------------------------------- the reference

  predicate NoNewline(bytes: seq<Byte>) {
    forall i | 0 <= i < |bytes| :: bytes[i] != NEWLINE
  }

  predicate Terminated(line: Line) {
    line != [] && line[|line| - 1] == NEWLINE && NoNewline(line[..|line| - 1])
  }

  /** The position just after the first newline, or the length if there is none. */
  function LineEnd(bytes: seq<Byte>): (n: nat)
    ensures n <= |bytes| && (bytes != [] ==> n > 0)
    ensures Terminated(bytes[..n]) || (n == |bytes| && NoNewline(bytes))
  {
    if bytes == [] then 0
    else if bytes[0] == NEWLINE then 1
    else
      var n := LineEnd(bytes[1..]);
      LongerLine(bytes, n);
      n + 1
  }

  /** A line of the rest is a line with one more byte in front. */
  lemma LongerLine(bytes: seq<Byte>, n: nat)
    requires bytes != [] && bytes[0] != NEWLINE && n <= |bytes[1..]|
    ensures Terminated(bytes[1..][..n]) ==> Terminated(bytes[..n + 1])
    ensures NoNewline(bytes[1..]) ==> NoNewline(bytes)
  {
    assert bytes[..n + 1] == [bytes[0]] + bytes[1..][..n];
    if Terminated(bytes[1..][..n]) {
      assert bytes[..n + 1][..n] == [bytes[0]] + bytes[1..][..n][..n - 1];
    }
    if NoNewline(bytes[1..]) {
      assert bytes == [bytes[0]] + bytes[1..];
    }
  }

  /** The lines of a text, each with its newline; the last may lack one. */
  function SplitLines(bytes: seq<Byte>): seq<Line>
    decreases |bytes|
  {
    if bytes == [] then [] else [bytes[..LineEnd(bytes)]] + SplitLines(bytes[LineEnd(bytes)..])
  }

  predicate Exceeds(config: Config, line: Line) {
    config.maxPending > 0 && |line| > config.maxPending
  }

  /** Shows lines to the visitor one after another, from line number total on. */
  function Walk(config: Config, lines: seq<Line>, total: nat, visits: seq<Visit>): Walked
    decreases |lines|
  {
    if lines == [] then Walked(visits, total, Done)
    else if Exceeds(config, lines[0]) then Walked(visits, total, TooLong)
    else if total < config.offset then Walk(config, lines[1..], total + 1, visits)
    else
      var shown := visits + [Visit(total, lines[0])];
      match config.visitor(shown)
      case Continue => Walk(config, lines[1..], total + 1, shown)
      case PageFull => Walked(shown, total + 1, Stopped)
      case Broken => Walked(shown, total + 1, VisitFailed)
  }

  /** What streaming a whole diff must do, however it is cut into chunks. */
  function Reference(config: Config, bytes: seq<Byte>): Walked {
    Walk(config, SplitLines(bytes), 0, [])
  }

  function Flatten(lines: seq<Line>): seq<Byte> {
    if lines == [] then [] else lines[0] + Flatten(lines[1..])
  }

  function Concat(chunks: seq<seq<Byte>>): seq<Byte> {
    if chunks == [] then [] else chunks[0] + Concat(chunks[1..])
  }

  predicate AllTerminated(lines: seq<Line>) {
    forall i | 0 <= i < |lines| :: Terminated(lines[i])
  }

  lemma LineEndIs(bytes: seq<Byte>, line: Line)
    requires Terminated(line) && line <= bytes
    ensures LineEnd(bytes) == |line|
  {
    var n := LineEnd(bytes);
    assert bytes[|line| - 1] == NEWLINE;
    assert forall i | 0 <= i < |line| - 1 :: bytes[i] == line[..|line| - 1][i];
  }

  lemma SplitFirst(line: Line, more: seq<Byte>)
    requires Terminated(line)
    ensures SplitLines(line + more) == [line] + SplitLines(more)
  {
    LineEndIs(line + more, line);
    assert (line + more)[|line|..] == more;
  }

  lemma {:induction false} SplitComplete(lines: seq<Line>, rest: seq<Byte>)
    requires AllTerminated(lines)
    ensures SplitLines(Flatten(lines) + rest) == lines + SplitLines(rest)
    decreases |lines|
  {
    hide Terminated;
    if lines == [] {
      assert Flatten(lines) + rest == rest;
    } else {
      assert Flatten(lines) + rest == lines[0] + (Flatten(lines[1..]) + rest);
      SplitFirst(lines[0], Flatten(lines[1..]) + rest);
      SplitComplete(lines[1..], rest);
      assert lines + SplitLines(rest) == [lines[0]] + (lines[1..] + SplitLines(rest));
    }
  }

  lemma {:induction false} FlattenAppend(lines: seq<Line>, line: Line)
    ensures Flatten(lines + [line]) == Flatten(lines) + line
  {
    if lines == [] {
      assert [line][1..] == [];
    } else {
      assert (lines + [line])[1..] == lines[1..] + [line];
      FlattenAppend(lines[1..], line);
    }
  }

  /** Walking on after a completed walk. */
  lemma {:induction false} WalkAppend(config: Config, lines: seq<Line>, more: seq<Line>, total: nat, visits: seq<Visit>)
    ensures var w := Walk(config, lines, total, visits);
            Walk(config, lines + more, total, visits) == if w.outcome.Done? then Walk(config, more, w.total, w.visits) else w
    decreases |lines|
  {
    if lines == [] {
      assert lines + more == more;
    } else {
      assert (lines + more)[1..] == lines[1..] + more;
      WalkAppend(config, lines[1..], more, total + 1, visits);
      WalkAppend(config, lines[1..], more, total + 1, visits + [Visit(total, lines[0])]);
    }
  }

  lemma LineCompleted(config: Config, lines: seq<Line>, line: Line, total: nat, visits: seq<Visit>)
    requires AllTerminated(lines) && Terminated(line) && Walk(config, lines, 0, []) == Walked(visits, total, Done)
    ensures AllTerminated(lines + [line]) && Flatten(lines + [line]) == Flatten(lines) + line
    ensures Walk(config, lines + [line], 0, []) == Walk(config, [line], total, visits)
  {
    WalkAppend(config, lines, [line], 0, []);
    FlattenAppend(lines, line);
  }

  lemma SplitPending(pending: seq<Byte>)
    requires NoNewline(pending)
    ensures SplitLines(pending) == if pending == [] then [] else [pending]
  {
    if pending != [] {
      var n := LineEnd(pending);
      assert pending[..n][n - 1] == pending[n - 1];
      assert pending[..n] == pending && pending[n..] == [];
    }
  }

  /** Once the unfinished line is over the limit, nothing that follows can help. */
  lemma TooLongStays(config: Config, lines: seq<Line>, w: Walked, pending: seq<Byte>, rest: seq<Byte>)
    requires AllTerminated(lines) && w == Walk(config, lines, 0, []) && w.outcome.Done?
    requires pending != [] && NoNewline(pending[..|pending| - 1]) && Exceeds(config, pending)
    ensures Reference(config, Flatten(lines) + pending + rest) == w.(outcome := TooLong)
  {
    var tail := pending + rest;
    assert Flatten(lines) + pending + rest == Flatten(lines) + tail;
    SplitComplete(lines, tail);
    WalkAppend(config, lines, SplitLines(tail), 0, []);
    var n := LineEnd(tail);
    assert forall i | 0 <= i < |pending| - 1 :: tail[i] == pending[..|pending| - 1][i];
  }

  /** A failure at a completed line does not depend on what follows it. */
  lemma FailureStays(config: Config, lines: seq<Line>, w: Walked, rest: seq<Byte>)
    requires AllTerminated(lines) && w == Walk(config, lines, 0, []) && !w.outcome.Done?
    ensures Reference(config, Flatten(lines) + rest) == w
  {
    SplitComplete(lines, rest);
    WalkAppend(config, lines, SplitLines(rest), 0, []);
  }

  // -------------------------------------------------------------- the stream

  class DiffLineStream {
    const config: Config
    var total: nat
    var pending: seq<Byte>
    var stopped: bool
    // What the visitor has been shown.
    var visits: seq<Visit>
    // The bytes written and the lines completed.
    ghost var written: seq<Byte>
    ghost var lines: seq<Line>

    constructor (config: Config)
      ensures this.config == config && Valid() && written == [] && !stopped
    {
      this.config := config;
      total, pending, stopped := 0, [], false;
      visits, written, lines := [], [], [];
    }

    ghost predicate Valid()
      reads this
    {
      && AllTerminated(lines) && NoNewline(pending)
      && written == Flatten(lines) + pending
      && Walk(config, lines, 0, []) == Walked(visits, total, Done)
      && !Exceeds(config, pending)
    }

    /** The stream ended early, and every continuation of the written bytes would too. */
    ghost predicate Ended(outcome: Outcome)
      reads this
    {
      && !outcome.Done? && (stopped <==> outcome.Stopped?)
      && forall rest :: Reference(config, written + rest) == Walked(visits, total, outcome)
    }

    method Consume(line: Line) returns (outcome: Outcome)
      requires !stopped && !Exceeds(config, line)
      modifies this`total, this`stopped, this`visits
      ensures Walk(config, [line], old(total), old(visits)) == Walked(visits, total, outcome)
      ensures stopped <==> outcome.Stopped?
      ensures !outcome.TooLong?
    {
      var lineOffset := total;
      total := total + 1;
      assert [line][1..] == [];
      if lineOffset < config.offset {
        return Done;
      }
      visits := visits + [Visit(lineOffset, line)];
      match config.visitor(visits) {
        case Continue => return Done;
        case PageFull =>
          stopped := true;
          return Stopped;
        case Broken => return VisitFailed;
      }
    }

    /** Hands over the pending bytes, now a whole line. */
    method HandOver() returns (outcome: Outcome)
      requires AllTerminated(lines) && Terminated(pending) && written == Flatten(lines) + pending
      requires Walk(config, lines, 0, []) == Walked(visits, total, Done) && !Exceeds(config, pending) && !stopped
      modifies this
      ensures written == old(written)
      ensures outcome.Done? ==> Valid() && !stopped
      ensures !outcome.Done? ==> Ended(outcome)
    {
      hide Walk, Reference, Flatten, SplitLines, Terminated, AllTerminated;
      var line := pending;
      pending := [];
      LineCompleted(config, lines, line, total, visits);
      outcome := Consume(line);
      lines := lines + [line];
      if !outcome.Done? {
        LineFailed(outcome);
      }
    }

    /** Buffers a chunk, handing over each line it completes. */
    method Write(given: seq<Byte>) returns (outcome: Outcome)
      requires Valid() && !stopped
      modifies this
      ensures outcome.Done? ==> Valid() && !stopped && written == old(written) + given
      ensures !outcome.Done? ==> Ended(outcome) && written <= old(written) + given
    {
      hide Walk, Reference, Flatten, SplitLines, Terminated, AllTerminated;
      var chunk := given;
      while |chunk| > 0
        invariant Valid() && !stopped && written + chunk == old(written) + given
        decreases |chunk|
      {
        var index := IndexOfNewline(chunk);
        var part := if index < |chunk| then chunk[..index + 1] else chunk;
        assert written + part <= old(written) + given by {
          assert chunk == part + chunk[|part|..];
          assert old(written) + given == (written + part) + chunk[|part|..];
        }
        assert part[..|part| - 1] == (if index < |chunk| then chunk[..index] else chunk[..|chunk| - 1]);
        assert |pending + part| == |pending| + |part|;
        if config.maxPending > 0 && |pending| + |part| > config.maxPending {
          PendingTooLong(part);
          written := written + part;
          return TooLong;
        }
        ghost var before := pending;
        pending := pending + part;
        written := written + part;
        assert !Exceeds(config, pending);
        if index == |chunk| {
          return Done;
        }
        chunk := chunk[index + 1..];
        assert pending[..|pending| - 1] == before + part[..|part| - 1];
        LineTerminated(pending, |pending| - 1);
        outcome := HandOver();
        if !outcome.Done? {
          return;
        }
      }
      return Done;
    }

    lemma PendingTooLong(part: seq<Byte>)
      requires Valid() && part != [] && NoNewline(part[..|part| - 1]) && Exceeds(config, pending + part)
      ensures forall rest :: Reference(config, written + part + rest) == Walked(visits, total, TooLong)
    {
      hide Walk, Reference, Flatten, SplitLines;
      assert (pending + part)[..|pending + part| - 1] == pending + part[..|part| - 1];
      forall rest
        ensures Reference(config, written + part + rest) == Walked(visits, total, TooLong)
      {
        assert written + part + rest == Flatten(lines) + (pending + part) + rest;
        TooLongStays(config, lines, Walked(visits, total, Done), pending + part, rest);
      }
    }

    lemma LineFailed(outcome: Outcome)
      requires !outcome.Done? && AllTerminated(lines) && written == Flatten(lines)
      requires Walk(config, lines, 0, []) == Walked(visits, total, outcome) && (stopped <==> outcome.Stopped?)
      ensures Ended(outcome)
    {
      hide Walk, Reference, Flatten, SplitLines;
      forall rest
        ensures Reference(config, written + rest) == Walked(visits, total, outcome)
      {
        FailureStays(config, lines, Walked(visits, total, outcome), rest);
      }
    }

    /** Hands over an unterminated last line. */
    method Finish() returns (outcome: Outcome)
      requires Valid() && !stopped
      modifies this
      ensures Reference(config, written) == Walked(visits, total, outcome)
      ensures written == old(written) && (stopped <==> outcome.Stopped?)
    {
      SplitComplete(lines, pending);
      SplitPending(pending);
      WalkAppend(config, lines, SplitLines(pending), 0, []);
      if |pending| == 0 {
        return Done;
      }
      var line := pending;
      pending := [];
      outcome := Consume(line);
    }
  }

  method IndexOfNewline(chunk: seq<Byte>) returns (index: nat)
    ensures index <= |chunk| && NoNewline(chunk[..index]) && (index < |chunk| ==> chunk[index] == NEWLINE)
  {
    index := 0;
    while index < |chunk| && chunk[index] != NEWLINE
      invariant index <= |chunk| && NoNewline(chunk[..index])
    {
      index := index + 1;
    }
  }

  lemma LineTerminated(line: Line, n: int)
    requires n == |line| - 1 && n >= 0 && NoNewline(line[..n]) && line[n] == NEWLINE
    ensures Terminated(line)
  {
  }

  /** Streams the chunks of a command's output: the lines shown, the count of lines taken
      and the way it ends depend only on the bytes, not on how they are cut. */
  method StreamDiff(config: Config, chunks: seq<seq<Byte>>) returns (stream: DiffLineStream, outcome: Outcome)
    ensures fresh(stream) && stream.config == config
    ensures Walked(stream.visits, stream.total, outcome) == Reference(config, Concat(chunks))
    ensures stream.stopped <==> outcome.Stopped?
  {
    hide Walk, Reference, Flatten, SplitLines;
    stream := new DiffLineStream(config);
    ghost var all := Concat(chunks);
    for i := 0 to |chunks|
      invariant fresh(stream) && stream.config == config && stream.Valid() && !stream.stopped
      invariant stream.written + Concat(chunks[i..]) == all
    {
      assert chunks[i..][0] == chunks[i] && chunks[i..][1..] == chunks[i + 1..];
      ghost var before := stream.written;
      outcome := stream.Write(chunks[i]);
      if !outcome.Done? {
        assert before + chunks[i] <= all;
        assert all == stream.written + all[|stream.written|..];
        return;
      }
    }
    assert chunks[|chunks|..] == [];
    assert stream.written == all;
    outcome := stream.Finish();
  }

  // -------------------------------------------------------------- what the reference means

  /** The lines numbered from..upto, as visits. */
  function VisitsOf(lines: seq<Line>, from: nat, upto: nat): seq<Visit>
    requires upto <= |lines|
  {
    if from >= upto then [] else VisitsOf(lines, from, upto - 1) + [Visit(upto - 1, lines[upto - 1])]
  }

  /** The visitor lets the walk pass the first n lines. */
  predicate Passes(config: Config, lines: seq<Line>, n: nat)
    requires n <= |lines|
  {
    forall i | config.offset <= i < n :: PassesLine(config, lines, i)
  }

  /** The visitor asks for more once it has been shown line i. */
  predicate PassesLine(config: Config, lines: seq<Line>, i: nat)
    requires i < |lines|
  {
    config.visitor(VisitsOf(lines, config.offset, i + 1)).Continue?
  }

  predicate NoneExceeds(config: Config, lines: seq<Line>, n: nat)
    requires n <= |lines|
  {
    forall i | 0 <= i < n :: !Exceeds(config, lines[i])
  }

  lemma {:induction false} WalkFrom(config: Config, lines: seq<Line>, n: nat)
    requires n <= |lines| && Passes(config, lines, n) && NoneExceeds(config, lines, n)
    ensures var w := Walk(config, lines[n..], n, VisitsOf(lines, config.offset, n));
            && n <= w.total <= |lines|
            && w.visits == VisitsOf(lines, config.offset, w.total)
            && NoneExceeds(config, lines, w.total)
            && (w.outcome.Done? ==> w.total == |lines| && Passes(config, lines, w.total))
            && (w.outcome.TooLong? <==> w.total < |lines| && Exceeds(config, lines[w.total]) && Passes(config, lines, w.total))
            && (w.outcome.Stopped? || w.outcome.VisitFailed? ==>
                  && config.offset < w.total && Passes(config, lines, w.total - 1)
                  && config.visitor(w.visits) == if w.outcome.Stopped? then PageFull else Broken)
    decreases |lines| - n
  {
    if n < |lines| {
      assert lines[n..][1..] == lines[n + 1..];
      if !Exceeds(config, lines[n]) {
        if n < config.offset || config.visitor(VisitsOf(lines, config.offset, n + 1)).Continue? {
          WalkFrom(config, lines, n + 1);
        } else {
          assert !PassesLine(config, lines, n);
        }
      }
    }
  }

  /** The visits are the lines from the offset to the stop with their positions; the size
      error occurs exactly when the first line over the limit comes before the stop. */
  lemma ReferenceMeaning(config: Config, bytes: seq<Byte>)
    ensures var lines, w := SplitLines(bytes), Reference(config, bytes);
            && w.total <= |lines|
            && w.visits == VisitsOf(lines, config.offset, w.total)
            && NoneExceeds(config, lines, w.total)
            && (w.outcome.Done? ==> w.total == |lines| && Passes(config, lines, w.total))
            && (w.outcome.TooLong? <==>
                  w.total < |lines| && config.maxPending > 0 && |lines[w.total]| > config.maxPending && Passes(config, lines, w.total))
            && (w.outcome.Stopped? || w.outcome.VisitFailed? ==>
                  && config.offset < w.total && Passes(config, lines, w.total - 1)
                  && config.visitor(w.visits) == if w.outcome.Stopped? then PageFull else Broken)
  {
    var lines := SplitLines(bytes);
    assert lines[0..] == lines;
    WalkFrom(config, lines, 0);
  }

  /** Splitting loses nothing: the lines joined are the bytes. */
  lemma {:induction false} SplitKeepsBytes(bytes: seq<Byte>)
    ensures Flatten(SplitLines(bytes)) == bytes
    decreases |bytes|
  {
    if bytes != [] {
      SplitKeepsBytes(bytes[LineEnd(bytes)..]);
      assert SplitLines(bytes)[1..] == SplitLines(bytes[LineEnd(bytes)..]);
    }
  }

  // -------------------------------------------------------------- pages

  lemma {:induction false} VisitsJoin(lines: seq<Line>, a: nat, b: nat, c: nat)
    requires a <= b <= c <= |lines|
    ensures VisitsOf(lines, a, b) + VisitsOf(lines, b, c) == VisitsOf(lines, a, c)
    decreases c - b
  {
    if b < c {
      VisitsJoin(lines, a, b, c - 1);
    }
  }

  /** What reading page after page shows: the lines, the offset reached, and whether the last
      page ran to the end of the diff. */
  datatype Reading = Reading(visits: seq<Visit>, end: nat, finished: bool)

  /** Reads page after page, each with its own visitor and starting where the last one
      stopped; a page that was not cut short ends the reading. */
  function Pages(bytes: seq<Byte>, maxPending: int, visitors: seq<Visitor>, offset: nat): Reading
    decreases |visitors|
  {
    if visitors == [] then Reading([], offset, false)
    else
      var w := Reference(Config(offset, maxPending, visitors[0]), bytes);
      if !w.outcome.Stopped? then Reading(w.visits, if w.total < offset then offset else w.total, w.outcome.Done?)
      else
        var more := Pages(bytes, maxPending, visitors[1..], w.total);
        Reading(w.visits + more.visits, more.end, more.finished)
  }

  /** Resumed pages concatenate to the run of lines from the first offset, without gap or
      repetition, whatever the page sizes; a finished reading reaches the last line. */
  lemma {:induction false} PagesConcatenate(bytes: seq<Byte>, maxPending: int, visitors: seq<Visitor>, offset: nat)
    requires offset <= |SplitLines(bytes)|
    ensures var r := Pages(bytes, maxPending, visitors, offset);
            && offset <= r.end <= |SplitLines(bytes)| && r.visits == VisitsOf(SplitLines(bytes), offset, r.end)
            && (r.finished ==> r.end == |SplitLines(bytes)|)
    decreases |visitors|
  {
    hide Reference, VisitsOf, Passes, NoneExceeds, SplitLines;
    if visitors == [] {
      NoVisits(SplitLines(bytes), offset, offset);
    } else {
      var config := Config(offset, maxPending, visitors[0]);
      var w := Reference(config, bytes);
      ReferenceMeaning(config, bytes);
      if w.outcome.Stopped? {
        PagesConcatenate(bytes, maxPending, visitors[1..], w.total);
        VisitsJoin(SplitLines(bytes), offset, w.total, Pages(bytes, maxPending, visitors[1..], w.total).end);
      } else if w.total < offset {
        NoVisits(SplitLines(bytes), offset, w.total);
      }
    }
  }

  /** A finished reading from the start has shown every line with its position, in order: the
      concatenated pages are the full list. */
  lemma PagesAreTheWholeDiff(bytes: seq<Byte>, maxPending: int, visitors: seq<Visitor>)
    ensures var r, lines := Pages(bytes, maxPending, visitors, 0), SplitLines(bytes);
            r.finished ==> |r.visits| == |lines| && forall i | 0 <= i < |lines| :: r.visits[i] == Visit(i, lines[i])
  {
    hide Pages, SplitLines, VisitsOf;
    PagesConcatenate(bytes, maxPending, visitors, 0);
    VisitsAreLines(SplitLines(bytes), |SplitLines(bytes)|);
  }

  lemma {:induction false} VisitsAreLines(lines: seq<Line>, n: nat)
    requires n <= |lines|
    ensures |VisitsOf(lines, 0, n)| == n && forall i | 0 <= i < n :: VisitsOf(lines, 0, n)[i] == Visit(i, lines[i])
    decreases n
  {
    if n > 0 {
      VisitsAreLines(lines, n - 1);
    }
  }

  lemma NoVisits(lines: seq<Line>, from: nat, upto: nat)
    requires upto <= from <= |lines|
    ensures VisitsOf(lines, from, upto) == [] && VisitsOf(lines, from, from) == []
  {
  }

  /** Whether the page was cut short; a cursor past the end of the diff is an error. */
  method FinishDiff(stream: DiffLineStream) returns (more: bool, failed: bool)
    ensures failed <==> stream.config.offset > stream.total
    ensures !failed ==> more == stream.stopped
  {
    if stream.config.offset > stream.total {
      return false, true;
    }
    return stream.stopped, false;
  }

  datatype PageResult = StreamError | CursorError | Page(visits: seq<Visit>, more: bool)

  /** Visits one page of a diff. A cursor is refused exactly when it lies beyond the lines of
      the diff, and a page that says there is no more has shown all lines from its offset. */
  method VisitDiff(config: Config, chunks: seq<seq<Byte>>) returns (r: PageResult)
    ensures var bytes := Concat(chunks); var w, lines := Reference(config, bytes), SplitLines(bytes);
            && (r.StreamError? <==> w.outcome.TooLong? || w.outcome.VisitFailed?)
            && (w.outcome.Done? ==> (r.CursorError? <==> config.offset > |lines|))
            && (w.outcome.Stopped? ==> r.Page?)
            && (r.Page? ==> r.visits == w.visits && (r.more <==> w.outcome.Stopped?))
            && (r.Page? && !r.more ==> config.offset <= |lines| && r.visits == VisitsOf(lines, config.offset, |lines|))
  {
    hide Reference, SplitLines, VisitsOf, Concat, Passes, NoneExceeds;
    var stream, outcome := StreamDiff(config, chunks);
    ReferenceMeaning(config, Concat(chunks));
    if outcome.TooLong? || outcome.VisitFailed? {
      return StreamError;
    }
    var more, failed := FinishDiff(stream);
    return if failed then CursorError else Page(stream.visits, more);
  }
}
