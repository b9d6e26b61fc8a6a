/** Columns with room for one character, and how wrapping goes wrong. */
module NarrowColumns {
  import opened Options
  import opened AnsiText
  import opened AnsiString
  import opened LineBreaks
  import opened TextColumn
  import opened ColumnOutput

  /** A text without escape sequences shows itself. */
  lemma {:induction false} SeenAsItIs(t: string)
    requires ESC !in t
    ensures Seen(t) == t
    decreases |t|
  {
    if t != "" {
      SeenAsItIs(t[1..]);
      assert t == [t[0]] + t[1..];
    }
  }

  lemma ColumnShows(g: Layout)
    requires g.Ok() && Plain(g.text) && ESC !in g.text
    ensures g.seen == g.text
  {
    SeenFrom(g, 0);
    SeenAsItIs(g.text);
    assert g.text[0..] == g.text;
  }

  /** Neither of the two texts holds an escape character or a sentinel. */
  lemma TextsAreBare()
    ensures Plain("ab") && ESC !in "ab" && Clean(Marked("ab"))
    ensures Plain(TWO_LINES) && ESC !in TWO_LINES && Clean(Marked(TWO_LINES))
  {
    hide Marked, Clean;
    PlainTextIsClean("ab");
    PlainTextIsClean(TWO_LINES);
  }

  /** A first line with room for one of two letters: nothing is written at all. */
  method FirstLineIsLost(width: nat, indent: nat) returns (out: string)
    requires width > indent
    ensures out == ""
  {
    hide Marked, Visible, Clean, Plain, At, Spots, Stuck, Ends, Lines, WrapEnds;
    TextsAreBare();
    var c := new Column("ab", width, indent, Some(width - 1));
    ColumnShows(c.Laid());
    NarrowFirstLineIsLost(width - indent);
    out := Write(c);
  }

  /** Later lines with room for one of two letters: from the second line on, any number of steps leads back to it. */
  method SecondLineRepeats(width: nat, initialIndent: nat, n: nat) returns (it: LineIterator)
    requires width > initialIndent
    ensures it.column.Valid() && it.column.text.text == TWO_LINES && it.Showing(it.column.Laid(), 2)
  {
    hide Marked, Visible, Clean, Plain, At, Spots, Stuck, Ends, LineAt, Repeats, LineIterator.Showing, Column.Valid;
    TextsAreBare();
    var c := new Column(TWO_LINES, width, width - 1, Some(initialIndent));
    ghost var g := c.Laid();
    ColumnShows(g);
    NarrowLaterLineRepeats(width - initialIndent);
    it := new LineIterator(c);
    it.Increment(g, 0);
    var i := 0;
    while i < n
      invariant it.column == c && it.Over(g) && fresh(it) && it.Showing(g, 2)
    {
      LineRepeatsExactlyIf(g.seen, 2, 1);
      it.Increment(g, 2);
      i := i + 1;
    }
  }
}
