/**
 * The per-line classification step of the log console and its two drivers:
 * lines handled one at a time as they arrive (History, LastType) and the
 * replay of a stored document from its first line (Replay).
 *
 * The preferences store (type detection, the admission filter and the ERROR
 * key) is external and left uninterpreted: it is a value of type Prefs.
 */
module LogFilter {
  import opened Wrappers

  /** What the pipeline asks of the external preferences store. */
  datatype Prefs = Prefs(
    typeOf: string -> Option<string>,                // the type tag of a line, if it has one
    isApplicable: (string, Option<string>) -> bool,  // admission of a line, given the previous type
    errorType: string)                               // the key of the ERROR type

  /** The output category a printed line is shown with. */
  datatype Category = TypeOutput(key: string) | ErrorOutput | NormalOutput

  /** What the console receives: a clear, or one printed line with its category. */
  datatype ConsoleEvent = Cleared | Printed(text: string, category: Category)

  /** The result of running the step over several lines. */
  datatype Pass = Pass(printed: seq<ConsoleEvent>, prevType: Option<string>)

  /** A tagged line is shown with its own type; an untagged one as error output
      when the previous type is ERROR and as normal output otherwise. */
  function OutputCategory(p: Prefs, prev: Option<string>, text: string): Category
  {
    match p.typeOf(text)
    case Some(key) => TypeOutput(key)
    case None => if prev == Some(p.errorType) then ErrorOutput else NormalOutput
  }

  /** What one line prints, judged against the type before it. */
  function Emit(p: Prefs, prev: Option<string>, text: string): seq<ConsoleEvent>
  {
    if p.isApplicable(text, prev) then [Printed(text + "\n", OutputCategory(p, prev, text))] else []
  }

  /** The previous type after one line: the line's own type if it has one. */
  function NextType(p: Prefs, prev: Option<string>, text: string): Option<string>
  {
    if p.typeOf(text).Some? then p.typeOf(text) else prev
  }

  predicate PrintsOnly(events: seq<ConsoleEvent>)
  {
    forall i :: 0 <= i < |events| ==> events[i].Printed?
  }

  /** Replaying lines from the first to the last, as the re-filter loop does. */
  function Replay(p: Prefs, prev: Option<string>, lines: seq<string>): (r: Pass)
    ensures |r.printed| <= |lines|
    ensures PrintsOnly(r.printed)
    decreases |lines|
  {
    if lines == [] then Pass([], prev)
    else
      var rest := Replay(p, NextType(p, prev, lines[0]), lines[1..]);
      Pass(Emit(p, prev, lines[0]) + rest.printed, rest.prevType)
  }

  /** The previous type after the lines arrive one at a time: found from the
      end, it is the type of the last tagged line, or `prev` if none is tagged. */
  function LastType(p: Prefs, prev: Option<string>, lines: seq<string>): Option<string>
    decreases |lines|
  {
    if lines == [] then prev
    else if p.typeOf(lines[|lines| - 1]).Some? then p.typeOf(lines[|lines| - 1])
    else LastType(p, prev, lines[..|lines| - 1])
  }

  /** Line i is tagged and no line after it is. */
  predicate LastTagged(p: Prefs, lines: seq<string>, i: int)
    requires 0 <= i < |lines|
  {
    p.typeOf(lines[i]).Some? && forall j :: i < j < |lines| ==> p.typeOf(lines[j]).None?
  }

  /** LastType is the type of the last tagged line, or `prev` when no line is tagged. */
  lemma {:induction false} LastTypeIsLastTagged(p: Prefs, prev: Option<string>, lines: seq<string>)
    ensures (forall i :: 0 <= i < |lines| ==> p.typeOf(lines[i]).None?) ==> LastType(p, prev, lines) == prev
    ensures forall i :: 0 <= i < |lines| && LastTagged(p, lines, i) ==> LastType(p, prev, lines) == p.typeOf(lines[i])
    decreases |lines|
  {
    if lines != [] {
      var n := |lines| - 1;
      var init := lines[..n];
      LastTypeIsLastTagged(p, prev, init);
      if p.typeOf(lines[n]).None? {
        forall i | 0 <= i < |lines| && LastTagged(p, lines, i)
          ensures LastType(p, prev, lines) == p.typeOf(lines[i])
        {
          assert i < n && init[i] == lines[i];
          assert LastTagged(p, init, i);
        }
        if forall i :: 0 <= i < |lines| ==> p.typeOf(lines[i]).None? {
          assert forall i :: 0 <= i < |init| ==> p.typeOf(init[i]).None?;
        }
      }
    }
  }

  /** Everything printed when the lines arrive one at a time, each judged
      against the last type seen before it. */
  function History(p: Prefs, prev: Option<string>, lines: seq<string>): seq<ConsoleEvent>
    decreases |lines|
  {
    if lines == [] then []
    else
      var init := lines[..|lines| - 1];
      History(p, prev, init) + Emit(p, LastType(p, prev, init), lines[|lines| - 1])
  }

  /** One more line of a run: it prints what Emit gives against the type left
      by the lines before it, and moves that type on by NextType. */
  lemma IncrementalStep(p: Prefs, prev: Option<string>, lines: seq<string>, k: nat)
    requires k < |lines|
    ensures History(p, prev, lines[..k + 1]) == History(p, prev, lines[..k]) + Emit(p, LastType(p, prev, lines[..k]), lines[k])
    ensures LastType(p, prev, lines[..k + 1]) == NextType(p, LastType(p, prev, lines[..k]), lines[k])
  {
    assert lines[..k + 1][..k] == lines[..k];
  }

  /** The lines the console shows: the events after the last clear. */
  function Shown(events: seq<ConsoleEvent>): (v: seq<ConsoleEvent>)
    ensures PrintsOnly(v)
    ensures |v| <= |events|
    decreases |events|
  {
    if events == [] then []
    else if events[|events| - 1].Cleared? then []
    else Shown(events[..|events| - 1]) + [events[|events| - 1]]
  }

  /** Replaying a + b is replaying a, then replaying b from where a left the previous type. */
  lemma {:induction false} ReplayAppend(p: Prefs, prev: Option<string>, a: seq<string>, b: seq<string>)
    ensures var ra := Replay(p, prev, a);
            var rb := Replay(p, ra.prevType, b);
            Replay(p, prev, a + b) == Pass(ra.printed + rb.printed, rb.prevType)
    decreases |a|
  {
    if a == [] {
      assert a + b == b;
    } else {
      assert (a + b)[0] == a[0];
      assert (a + b)[1..] == a[1..] + b;
      ReplayAppend(p, NextType(p, prev, a[0]), a[1..], b);
    }
  }

  /** The replay loop and the line-at-a-time path print the same lines with the
      same categories and leave the same previous type. */
  lemma {:induction false} ReplayIsIncremental(p: Prefs, prev: Option<string>, lines: seq<string>)
    ensures Replay(p, prev, lines) == Pass(History(p, prev, lines), LastType(p, prev, lines))
    decreases |lines|
  {
    if lines != [] {
      var init, x := lines[..|lines| - 1], lines[|lines| - 1];
      assert lines == init + [x];
      ReplayIsIncremental(p, prev, init);
      ReplayAppend(p, prev, init, [x]);
      assert [x][1..] == [];
    }
  }

  /** Carry-forward: the last line of a run is judged against the type left by
      the lines before it; an untagged line takes error output exactly when that
      type is ERROR, and only a tagged line changes the previous type. */
  lemma CarryForward(p: Prefs, prev: Option<string>, s: seq<string>, x: string)
    ensures var before := LastType(p, prev, s);
            var r := Replay(p, prev, s + [x]);
            && r.prevType == (if p.typeOf(x).Some? then p.typeOf(x) else before)
            && r.printed == Replay(p, prev, s).printed +
                 (if !p.isApplicable(x, before) then []
                  else if p.typeOf(x).Some? then [Printed(x + "\n", TypeOutput(p.typeOf(x).value))]
                  else if before == Some(p.errorType) then [Printed(x + "\n", ErrorOutput)]
                  else [Printed(x + "\n", NormalOutput)])
  {
    ReplayAppend(p, prev, s, [x]);
    ReplayIsIncremental(p, prev, s);
    assert [x][1..] == [];
  }

  /** Replaying lines twice leaves the previous type where one replay left it. */
  lemma {:induction false} LastTypeSettles(p: Prefs, prev: Option<string>, lines: seq<string>)
    ensures LastType(p, LastType(p, prev, lines), lines) == LastType(p, prev, lines)
    decreases |lines|
  {
    if lines != [] && p.typeOf(lines[|lines| - 1]).None? {
      LastTypeSettles(p, prev, lines[..|lines| - 1]);
    }
  }

  /** Re-filtering settles: a replay does not reset the previous type, but from
      the second replay of the same document on, every replay prints the same. */
  lemma RefilterSettles(p: Prefs, prev: Option<string>, doc: seq<string>)
    ensures var first := Replay(p, prev, doc);
            var second := Replay(p, first.prevType, doc);
            second.prevType == first.prevType && Replay(p, second.prevType, doc) == second
  {
    var first := Replay(p, prev, doc);
    ReplayIsIncremental(p, prev, doc);
    ReplayIsIncremental(p, first.prevType, doc);
    LastTypeSettles(p, prev, doc);
  }

  /** ... but the first re-filter may change what an earlier replay printed: an
      untagged leading line is re-judged against the type the replay left. */
  lemma RefilterCanRecategorize()
    ensures var p := Prefs(s => if s == "ERROR boom" then Some("ERROR") else None, (s, t) => true, "ERROR");
            var doc := ["starting", "ERROR boom"];
            var first := Replay(p, None, doc);
            && first.printed[0] == Printed("starting\n", NormalOutput)
            && Replay(p, first.prevType, doc).printed[0] == Printed("starting\n", ErrorOutput)
  {
  }

  /** Appending printed lines to the console extends what it shows by exactly them. */
  lemma {:induction false} ShownAppend(events: seq<ConsoleEvent>, more: seq<ConsoleEvent>)
    requires PrintsOnly(more)
    ensures Shown(events + more) == Shown(events) + more
    decreases |more|
  {
    if more != [] {
      var init := more[..|more| - 1];
      assert (events + more)[..|events + more| - 1] == events + init;
      ShownAppend(events, init);
      assert more == init + [more[|more| - 1]];
    } else {
      assert events + more == events;
    }
  }

  /** After a clear followed by printed lines, the console shows exactly those lines. */
  lemma ShownAfterClear(events: seq<ConsoleEvent>, more: seq<ConsoleEvent>)
    requires PrintsOnly(more)
    ensures Shown(events + [Cleared] + more) == more
  {
    ShownAppend(events + [Cleared], more);
  }
}
