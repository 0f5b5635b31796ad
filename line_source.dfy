/**
 * The log file as the reader sees it: its lines, a read cursor, and the
 * position (if any) at which reading fails with an I/O error.
 */
module LineSource {
  import opened Wrappers

  /** The file when the reader is created. */
  datatype FileState = Missing | Present(lines: seq<string>, readFailsAt: Option<nat>)

  /** An open stream over the file. */
  datatype FileStream = FileStream(lines: seq<string>, cursor: nat, failsAt: Option<nat>)
  {
    predicate Valid() { cursor <= |lines| }
  }

  datatype ReadOutcome = Line(text: string) | EndOfInput | IOFailure

  /** Skipping the existing contents reads through them, so it fails when a
      read failure sits inside them. */
  predicate SkipFails(file: FileState, skipContents: bool)
  {
    skipContents && file.Present? && file.readFailsAt.Some? && file.readFailsAt.value < |file.lines|
  }

  /** Opening the stream: a missing file is created first (and its parent
      directories); the stream is null when creation fails or anything throws,
      including the skip over the existing contents when that is asked for. */
  function Open(file: FileState, skipContents: bool, created: bool, throws: bool): (s: Option<FileStream>)
    ensures s.Some? <==> !throws && (file.Present? || created) && !SkipFails(file, skipContents)
    ensures s.Some? ==> s.value.Valid()
    ensures s.Some? && file.Present? ==> s.value.lines == file.lines && s.value.failsAt == file.readFailsAt
    ensures s.Some? && file.Missing? ==> s.value.lines == [] && s.value.failsAt == None
    ensures s.Some? ==> s.value.cursor == if skipContents then |s.value.lines| else 0
  {
    if throws then None
    else match file
      case Present(lines, failsAt) =>
        if !skipContents then Some(FileStream(lines, 0, failsAt))
        else if failsAt.Some? && failsAt.value < |lines| then None
        else Some(FileStream(lines, |lines|, failsAt))
      case Missing => if created then Some(FileStream([], 0, None)) else None
  }

  /** Whether a line can be read without waiting. */
  predicate Ready(s: FileStream)
  {
    s.cursor < |s.lines|
  }

  /** The outcome of reading one line at the cursor. */
  function ReadLine(s: FileStream): ReadOutcome
    requires s.Valid()
  {
    if s.failsAt == Some(s.cursor) then IOFailure
    else if s.cursor < |s.lines| then Line(s.lines[s.cursor])
    else EndOfInput
  }

  function Advance(s: FileStream): FileStream
    requires s.Valid() && s.cursor < |s.lines|
  {
    s.(cursor := s.cursor + 1)
  }

  /** Where reading line after line from the cursor stops yielding lines: at the
      end of input, or earlier at a read failure. */
  function DrainEnd(s: FileStream): (e: nat)
    requires s.Valid()
    ensures s.cursor <= e <= |s.lines|
  {
    if s.failsAt.Some? && s.cursor <= s.failsAt.value <= |s.lines| then s.failsAt.value else |s.lines|
  }

  /** Every read before the drain end yields the line at that position; the read
      at the drain end does not yield a line, and fails exactly when a read
      failure sits there. */
  lemma DrainEndReadsLines(s: FileStream)
    requires s.Valid()
    ensures forall i :: s.cursor <= i < DrainEnd(s) ==> ReadLine(s.(cursor := i)) == Line(s.lines[i])
    ensures !ReadLine(s.(cursor := DrainEnd(s))).Line?
    ensures ReadLine(s.(cursor := DrainEnd(s))).IOFailure? <==> s.failsAt == Some(DrainEnd(s))
  {
  }

  /** The position a polling slice of `budget` readiness checks reaches. */
  function SliceEnd(s: FileStream, budget: nat): (e: nat)
    requires s.Valid()
    ensures s.cursor <= e <= DrainEnd(s)
    ensures e < DrainEnd(s) ==> e == s.cursor + budget
  {
    if s.cursor + budget < DrainEnd(s) then s.cursor + budget else DrainEnd(s)
  }

  /** The stream after a polling slice of `budget` readiness checks; nothing is
      read when the reader is not running or the stream is null. */
  function Polled(stream: Option<FileStream>, running: bool, budget: nat): Option<FileStream>
    requires ValidStream(stream)
  {
    if running && stream.Some? then Some(stream.value.(cursor := SliceEnd(stream.value, budget))) else stream
  }

  /** The lines that slice reads, in file order. */
  function PolledLines(stream: Option<FileStream>, running: bool, budget: nat): seq<string>
    requires ValidStream(stream)
  {
    if running && stream.Some? then stream.value.lines[stream.value.cursor..SliceEnd(stream.value, budget)] else []
  }

  /** One readiness check more in a slice: a ready line is read and the cursor
      moves past it; with nothing ready the slice reads nothing more. */
  lemma SliceStep(start: Option<FileStream>, n: nat, s: FileStream)
    requires ValidStream(start) && Polled(start, true, n) == Some(s)
    ensures s.Valid()
    ensures Ready(s) && ReadLine(s).Line? ==>
              Polled(start, true, n + 1) == Some(Advance(s)) &&
              PolledLines(start, true, n + 1) == PolledLines(start, true, n) + [ReadLine(s).text]
    ensures !Ready(s) ==>
              Polled(start, true, n + 1) == Some(s) && PolledLines(start, true, n + 1) == PolledLines(start, true, n)
  {
  }

  /** A read failure at the cursor ends the slice where it is. */
  lemma SliceStuck(start: Option<FileStream>, n: nat, budget: nat, s: FileStream)
    requires ValidStream(start) && Polled(start, true, n) == Some(s) && n <= budget
    requires s.Valid() && ReadLine(s).IOFailure?
    ensures Polled(start, true, budget) == Some(s) && PolledLines(start, true, budget) == PolledLines(start, true, n)
  {
  }

  /** Two slices in a row read what one slice of their combined budget would:
      reading does not move the point where reading stops. */
  lemma PollsCompose(stream: Option<FileStream>, running: bool, a: nat, b: nat)
    requires ValidStream(stream)
    ensures ValidStream(Polled(stream, running, a))
    ensures Polled(Polled(stream, running, a), running, b) == Polled(stream, running, a + b)
    ensures PolledLines(stream, running, a) + PolledLines(Polled(stream, running, a), running, b) ==
            PolledLines(stream, running, a + b)
  {
  }

  /** The total readiness checks of several slices. */
  function TotalBudget(budgets: seq<nat>): nat
    decreases |budgets|
  {
    if budgets == [] then 0 else TotalBudget(budgets[..|budgets| - 1]) + budgets[|budgets| - 1]
  }

  lemma TotalBudgetStep(budgets: seq<nat>, i: nat)
    requires i < |budgets|
    ensures TotalBudget(budgets[..i + 1]) == TotalBudget(budgets[..i]) + budgets[i]
  {
    assert budgets[..i + 1][..i] == budgets[..i];
  }

  predicate ValidStream(stream: Option<FileStream>)
  {
    stream.Some? ==> stream.value.Valid()
  }

  /** The lines a stop passes on: everything up to the drain end when flushing,
      nothing otherwise. */
  function Flushed(stream: Option<FileStream>, flush: bool): seq<string>
    requires ValidStream(stream)
  {
    if stream.Some? && flush then stream.value.lines[stream.value.cursor..DrainEnd(stream.value)] else []
  }

  /** The stream after a stop: closed and null, except that a read failure
      during the flush leaves it open where the failure happened. */
  function AfterStop(stream: Option<FileStream>, flush: bool): Option<FileStream>
    requires ValidStream(stream)
  {
    match stream
    case None => None
    case Some(s) =>
      if flush && ReadLine(s.(cursor := DrainEnd(s))).IOFailure? then Some(s.(cursor := DrainEnd(s))) else None
  }

  /** Without a read failure, a flushing stop passes on every remaining line and
      closes the stream; a non-flushing stop passes on none. */
  lemma FlushDeliversRemaining(s: FileStream)
    requires s.Valid()
    requires s.failsAt.None? || s.failsAt.value < s.cursor || s.failsAt.value > |s.lines|
    ensures Flushed(Some(s), true) == s.lines[s.cursor..]
    ensures AfterStop(Some(s), true) == None
    ensures Flushed(Some(s), false) == [] && AfterStop(Some(s), false) == None
  {
  }

  /** A second stop is a no-op: it passes on nothing and leaves the stream as
      the first stop left it. */
  lemma StopIsIdempotent(stream: Option<FileStream>, flush: bool)
    requires ValidStream(stream)
    ensures ValidStream(AfterStop(stream, flush))
    ensures Flushed(AfterStop(stream, flush), flush) == []
    ensures AfterStop(AfterStop(stream, flush), flush) == AfterStop(stream, flush)
  {
  }
}
