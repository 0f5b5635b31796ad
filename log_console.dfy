/**
 * The log console and its file reader.
 *
 * LogConsole keeps the previous type, the original document and what was
 * sent to the console display. ReaderThread owns the file stream and the
 * running flag; it hands every line it reads to its console's AddMessage.
 * The external state a call sees (preferences, editor) is its Host argument.
 */
module Logging {
  import opened Wrappers
  import opened LogFilter
  import opened LogDocument
  import opened LineSource

  /** The external state at the time of a call: the preferences store and the
      lines of the console's editor, when the editor exists. */
  datatype Host = Host(prefs: Prefs, editor: Option<seq<string>>)

  /** The part of a console the line pipeline changes. */
  datatype ConsoleState = ConsoleState(prevType: Option<string>, document: Option<seq<string>>, events: seq<ConsoleEvent>)

  /** One line arriving: printed if admitted against the previous type, the
      previous type updated if the line is tagged, and the line appended to the
      original document once it exists. */
  function Step(h: Host, st: ConsoleState, text: string): ConsoleState
  {
    ConsoleState(NextType(h.prefs, st.prevType, text),
                 AppendLine(OpenDocument(st.document, h.editor), text),
                 st.events + Emit(h.prefs, st.prevType, text))
  }

  /** Several lines arriving, one after another. */
  function Feed(h: Host, st: ConsoleState, lines: seq<string>): ConsoleState
    decreases |lines|
  {
    if lines == [] then st else Step(h, Feed(h, st, lines[..|lines| - 1]), lines[|lines| - 1])
  }

  /** Feeding one more line is one more Step. */
  lemma FeedSnoc(h: Host, st: ConsoleState, s: seq<string>, x: string)
    ensures Feed(h, st, s + [x]) == Step(h, Feed(h, st, s), x)
  {
  }

  /** After lines arrive one by one, the previous type is that of the last
      tagged line, the document holds every line, and the console has received
      the line-at-a-time history. */
  lemma {:induction false} FeedComponents(h: Host, st: ConsoleState, lines: seq<string>)
    ensures Feed(h, st, lines) == ConsoleState(LastType(h.prefs, st.prevType, lines),
                                               Recorded(st.document, h.editor, lines),
                                               st.events + History(h.prefs, st.prevType, lines))
    decreases |lines|
  {
    if lines != [] {
      FeedComponents(h, st, lines[..|lines| - 1]);
    }
  }

  /** Feeding a and then b is feeding a + b. */
  lemma {:induction false} FeedAppend(h: Host, st: ConsoleState, a: seq<string>, b: seq<string>)
    ensures Feed(h, Feed(h, st, a), b) == Feed(h, st, a + b)
    decreases |b|
  {
    if b == [] {
      assert a + b == a;
    } else {
      var init, x := b[..|b| - 1], b[|b| - 1];
      FeedAppend(h, st, a, init);
      assert a + b == (a + init) + [x];
      FeedSnoc(h, st, a + init, x);
    }
  }

  /** One more polling slice, in terms of the slices so far: the stream and the
      console state after it are those of one slice of the combined budget. */
  lemma SlicesAdvance(h: Host, st0: ConsoleState, start: Option<FileStream>, done: nat, b: nat,
                      stMid: ConsoleState, mid: Option<FileStream>)
    requires ValidStream(start)
    requires mid == Polled(start, true, done) && stMid == Feed(h, st0, PolledLines(start, true, done))
    ensures ValidStream(mid)
    ensures Polled(mid, true, b) == Polled(start, true, done + b)
    ensures Feed(h, stMid, PolledLines(mid, true, b)) == Feed(h, st0, PolledLines(start, true, done + b))
  {
    PollsCompose(start, true, done, b);
    FeedAppend(h, st0, PolledLines(start, true, done), PolledLines(mid, true, b));
  }

  /** What the console shows after lines arrive one by one is what a replay of
      the same lines prints, and the document has gained exactly those lines. */
  lemma FeedIsReplay(h: Host, st: ConsoleState, lines: seq<string>)
    ensures Shown(Feed(h, st, lines).events) == Shown(st.events) + Replay(h.prefs, st.prevType, lines).printed
    ensures Feed(h, st, lines).prevType == Replay(h.prefs, st.prevType, lines).prevType
    ensures lines != [] && OpenDocument(st.document, h.editor).Some? ==>
              Feed(h, st, lines).document == Some(OpenDocument(st.document, h.editor).value + lines)
  {
    FeedComponents(h, st, lines);
    ReplayIsIncremental(h.prefs, st.prevType, lines);
    ShownAppend(st.events, Replay(h.prefs, st.prevType, lines).printed);
    RecordedComplete(st.document, h.editor, lines);
  }

  datatype ReaderState = NotOpen | Running | Stopped

  class LogConsole {
    var prevType: Option<string>
    var originalDocument: Option<seq<string>>
    var console: seq<ConsoleEvent>
    var consoleDisposed: bool
    var stopListeners: nat   // termination listeners registered by AttachStopTrackingListener
    const reader: ReaderThread

    function State(): ConsoleState
      reads this
    {
      ConsoleState(prevType, originalDocument, console)
    }

    ghost predicate Valid()
      reads this, reader
    {
      reader.Valid()
    }

    /** Creates the reader over `file`; `created` is what creating a missing
        file reports and `throws` stands for any error while opening. */
    constructor (file: FileState, skipContents: bool, created: bool, throws: bool)
      ensures Valid() && fresh(reader)
      ensures State() == ConsoleState(None, None, []) && !consoleDisposed && stopListeners == 0
      ensures reader.running && reader.fileStream == Open(file, skipContents, created, throws)
      ensures reader.Phase() == if Open(file, skipContents, created, throws).Some? then Running else NotOpen
    {
      reader := new ReaderThread(file, skipContents, created, throws);
      prevType, originalDocument, console := None, None, [];
      consoleDisposed, stopListeners := false, 0;
    }

    /** The original document, created from the editor's lines on first use. */
    method GetOriginalDocument(editor: Option<seq<string>>) returns (doc: Option<seq<string>>)
      modifies this`originalDocument
      ensures doc == originalDocument == OpenDocument(old(originalDocument), editor)
    {
      if originalDocument.None? {
        if editor.Some? {
          originalDocument := editor;
        }
      }
      doc := originalDocument;
    }

    /** One line arriving from the reader. */
    method AddMessage(host: Host, text: string)
      modifies this`prevType, this`console, this`originalDocument
      ensures State() == Step(host, old(State()), text)
      ensures prevType == if host.prefs.typeOf(text).Some? then host.prefs.typeOf(text) else old(prevType)
      ensures originalDocument.Some? <==> (old(originalDocument).Some? || host.editor.Some?)
      ensures Shown(console) == Shown(old(console)) + Emit(host.prefs, old(prevType), text)
    {
      var key := host.prefs.typeOf(text);
      if host.prefs.isApplicable(text, prevType) {
        console := console + [Printed(text + "\n", OutputCategory(host.prefs, prevType, text))];
      }
      if key.Some? {
        prevType := key;
      }
      var doc := GetOriginalDocument(host.editor);
      if doc.Some? {
        originalDocument := Some(doc.value + [text]);
      }
      ShownAppend(old(console), Emit(host.prefs, old(prevType), text));
    }

    /** Re-filtering: the console is cleared and the original document is
        replayed line by line, starting from the current previous type. */
    method FilterConsoleOutput(host: Host)
      modifies this`prevType, this`console, this`originalDocument
      ensures originalDocument == OpenDocument(old(originalDocument), host.editor)
      ensures originalDocument.None? ==> console == old(console) && prevType == old(prevType)
      ensures originalDocument.Some? ==>
                var r := Replay(host.prefs, old(prevType), originalDocument.value);
                console == old(console) + [Cleared] + r.printed && prevType == r.prevType
      ensures originalDocument.Some? ==> Shown(console) == Replay(host.prefs, old(prevType), originalDocument.value).printed
    {
      var doc := GetOriginalDocument(host.editor);
      if doc.Some? {
        console := console + [Cleared];
        var lines := doc.value;
        var line := 0;
        while line < |lines|
          invariant 0 <= line <= |lines|
          invariant originalDocument == doc
          invariant console == old(console) + [Cleared] + History(host.prefs, old(prevType), lines[..line])
          invariant prevType == LastType(host.prefs, old(prevType), lines[..line])
        {
          var text := lines[line];
          var contentType := host.prefs.typeOf(text);
          if host.prefs.isApplicable(text, prevType) {
            console := console + [Printed(text + "\n", OutputCategory(host.prefs, prevType, text))];
          }
          if contentType.Some? {
            prevType := contentType;
          }
          IncrementalStep(host.prefs, old(prevType), lines, line);
          line := line + 1;
        }
        assert lines[..line] == lines;
        ReplayIsIncremental(host.prefs, old(prevType), lines);
        ShownAfterClear(old(console), Replay(host.prefs, old(prevType), lines).printed);
      }
    }

    /** Registers a listener that stops the reader when `process` terminates;
        nothing happens when there is no process. */
    method AttachStopTrackingListener(processPresent: bool)
      modifies this`stopListeners
      ensures stopListeners == old(stopListeners) + if processPresent then 1 else 0
    {
      if processPresent {
        stopListeners := stopListeners + 1;
      }
    }

    /** A registered termination listener firing: it removes itself and then
        stops the reader with flushing. */
    method ProcessTerminated(host: Host)
      requires Valid()
      modifies this`stopListeners, this`prevType, this`console, this`originalDocument, reader
      ensures Valid()
      ensures old(stopListeners) == 0 ==>
                stopListeners == 0 && State() == old(State()) &&
                reader.fileStream == old(reader.fileStream) && reader.running == old(reader.running)
      ensures old(stopListeners) > 0 ==>
                && stopListeners == old(stopListeners) - 1
                && reader.Phase() == Stopped
                && reader.fileStream == AfterStop(old(reader.fileStream), true)
                && State() == Feed(host, old(State()), Flushed(old(reader.fileStream), true))
    {
      if stopListeners > 0 {
        stopListeners := stopListeners - 1;
        StopRunning(host);
      }
    }

    /** Stops the reader, flushing the rest of the file to the console first. */
    method StopRunning(host: Host)
      requires Valid()
      modifies this`prevType, this`console, this`originalDocument, reader
      ensures Valid() && reader.Phase() == Stopped
      ensures reader.fileStream == AfterStop(old(reader.fileStream), true)
      ensures State() == Feed(host, old(State()), Flushed(old(reader.fileStream), true))
    {
      reader.StopRunning(true, this, host);
    }

    /** Disposes of the console display and stops the reader without flushing. */
    method Dispose(host: Host)
      requires Valid()
      modifies this`consoleDisposed, this`prevType, this`console, this`originalDocument, reader
      ensures Valid() && consoleDisposed && reader.Phase() == Stopped
      ensures reader.fileStream == None
      ensures State() == old(State())
    {
      consoleDisposed := true;
      reader.StopRunning(false, this, host);
    }
  }

  class ReaderThread {
    var fileStream: Option<FileStream>
    var running: bool

    ghost predicate Valid()
      reads this
    {
      ValidStream(fileStream)
    }

    function Phase(): ReaderState
      reads this
    {
      if !running then Stopped else if fileStream.None? then NotOpen else Running
    }

    constructor (file: FileState, skipContents: bool, created: bool, throws: bool)
      ensures Valid() && running
      ensures fileStream == Open(file, skipContents, created, throws)
    {
      running := true;
      if throws {
        fileStream := None;
      } else {
        match file
        case Present(lines, failsAt) =>
          fileStream := Some(FileStream(lines, 0, failsAt));
          if skipContents {
            if failsAt.Some? && failsAt.value < |lines| {
              fileStream := None;
            } else {
              fileStream := Some(FileStream(lines, |lines|, failsAt));
            }
          }
        case Missing =>
          if created {
            fileStream := Some(FileStream([], 0, None));
          } else {
            fileStream := None;
          }
      }
    }

    /** One polling slice of `budget` readiness checks: each ready line is read
        and handed to the console; a read failure ends the slice. */
    method PollSlice(budget: nat, owner: LogConsole, host: Host)
      requires Valid()
      modifies this`fileStream, owner`prevType, owner`console, owner`originalDocument
      ensures Valid()
      ensures fileStream == Polled(old(fileStream), running, budget)
      ensures owner.State() == Feed(host, old(owner.State()), PolledLines(old(fileStream), running, budget))
    {
      if !running || fileStream.None? {
        return;
      }
      ghost var start := fileStream;
      ghost var st0 := owner.State();
      var n := 0;
      while n < budget
        invariant 0 <= n <= budget
        invariant ValidStream(fileStream) && fileStream == Polled(start, true, n)
        invariant owner.State() == Feed(host, st0, PolledLines(start, true, n))
      {
        SliceStep(start, n, fileStream.value);
        if running && fileStream.Some? && Ready(fileStream.value) {
          var s := fileStream.value;
          var outcome := ReadLine(s);
          if outcome.IOFailure? {
            SliceStuck(start, n, budget, s);
            return;
          }
          fileStream := Some(Advance(s));
          owner.AddMessage(host, outcome.text);
          FeedSnoc(host, st0, PolledLines(start, true, n), outcome.text);
        }
        n := n + 1;
      }
    }

    /** The reader thread's body: nothing when the stream is null; otherwise
        polling slices while running, a slice's read failure being logged and
        the next slice tried. */
    method Run(budgets: seq<nat>, owner: LogConsole, host: Host)
      requires Valid()
      modifies this`fileStream, owner`prevType, owner`console, owner`originalDocument
      ensures Valid()
      ensures fileStream == Polled(old(fileStream), running, TotalBudget(budgets))
      ensures owner.State() == Feed(host, old(owner.State()), PolledLines(old(fileStream), running, TotalBudget(budgets)))
    {
      if fileStream.None? {
        return;
      }
      ghost var start := fileStream;
      ghost var st0 := owner.State();
      var i := 0;
      while running && i < |budgets|
        invariant 0 <= i <= |budgets|
        invariant !running ==> i == 0
        invariant ValidStream(fileStream)
        invariant fileStream == Polled(start, true, TotalBudget(budgets[..i]))
        invariant owner.State() == Feed(host, st0, PolledLines(start, true, TotalBudget(budgets[..i])))
      {
        ghost var done := TotalBudget(budgets[..i]);
        ghost var stMid := owner.State();
        ghost var mid := fileStream;
        PollSlice(budgets[i], owner, host);
        SlicesAdvance(host, st0, start, done, budgets[i], stMid, mid);
        TotalBudgetStep(budgets, i);
        i := i + 1;
      }
      assert budgets[..|budgets|] == budgets;
    }

    /** Stopping: the running flag is cleared; when flushing, every remaining
        line is handed to the console in read order; the stream is then closed
        and nulled. A read failure during the flush is logged and leaves the
        stream open. */
    method StopRunning(flush: bool, owner: LogConsole, host: Host)
      requires Valid()
      modifies this, owner`prevType, owner`console, owner`originalDocument
      ensures Valid() && !running && Phase() == Stopped
      ensures fileStream == AfterStop(old(fileStream), flush)
      ensures owner.State() == Feed(host, old(owner.State()), Flushed(old(fileStream), flush))
    {
      running := false;
      ghost var st0 := owner.State();
      if fileStream.None? {
        return;
      }
      ghost var s0 := fileStream.value;
      ghost var delivered: seq<string> := [];
      if flush {
        var outcome := ReadLine(fileStream.value);
        while outcome.Line?
          invariant !running
          invariant fileStream.Some? && fileStream.value == s0.(cursor := fileStream.value.cursor)
          invariant s0.cursor <= fileStream.value.cursor <= DrainEnd(s0)
          invariant outcome == ReadLine(fileStream.value)
          invariant delivered == s0.lines[s0.cursor..fileStream.value.cursor]
          invariant owner.State() == Feed(host, st0, delivered)
          decreases |s0.lines| - fileStream.value.cursor
        {
          var s := fileStream.value;
          fileStream := Some(Advance(s));
          owner.AddMessage(host, outcome.text);
          FeedSnoc(host, st0, delivered, outcome.text);
          delivered := delivered + [outcome.text];
          outcome := ReadLine(fileStream.value);
        }
        if outcome.IOFailure? {
          return;
        }
      }
      fileStream := None;
    }
  }
}
