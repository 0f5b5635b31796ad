/**
 * The original (unfiltered) document of the console. It does not exist until
 * the console's editor does; it is then created from the editor's text, and
 * from that moment every arriving line is appended to it.
 */
module LogDocument {
  import opened Wrappers

  /** The document, created from the editor's lines if it does not exist yet. */
  function OpenDocument(doc: Option<seq<string>>, editor: Option<seq<string>>): Option<seq<string>>
  {
    if doc.Some? then doc else editor
  }

  /** Appending one line, when the document exists. */
  function AppendLine(doc: Option<seq<string>>, text: string): Option<seq<string>>
  {
    if doc.Some? then Some(doc.value + [text]) else None
  }

  /** The document after each of `lines` has arrived, in order. */
  function Recorded(doc: Option<seq<string>>, editor: Option<seq<string>>, lines: seq<string>): Option<seq<string>>
    decreases |lines|
  {
    if lines == [] then doc
    else AppendLine(OpenDocument(Recorded(doc, editor, lines[..|lines| - 1]), editor), lines[|lines| - 1])
  }

  /** The original document is complete: once it exists, it holds every line
      that arrived, admitted or not, in arrival order. */
  lemma {:induction false} RecordedComplete(doc: Option<seq<string>>, editor: Option<seq<string>>, lines: seq<string>)
    ensures Recorded(doc, editor, lines) ==
              if lines == [] then doc
              else if OpenDocument(doc, editor).Some? then Some(OpenDocument(doc, editor).value + lines)
              else None
    decreases |lines|
  {
    if lines != [] {
      var init, x := lines[..|lines| - 1], lines[|lines| - 1];
      RecordedComplete(doc, editor, init);
      assert Recorded(doc, editor, lines) == AppendLine(OpenDocument(Recorded(doc, editor, init), editor), x);
      if init == [] {
        assert lines == [x];
      } else if OpenDocument(doc, editor).Some? {
        assert lines == init + [x];
        assert OpenDocument(doc, editor).value + init + [x] == OpenDocument(doc, editor).value + lines;
      }
    }
  }
}
