/** A column of text: hands out its lines, indented and cut to fit. */
module TextColumn {
  import opened Options
  import opened AnsiText
  import opened AnsiString
  import opened LineBreaks

  /** The visible characters of a marked string. */
  ghost function VisibleText(s: string): (r: string)
    requires Clean(s)
    ensures |r| == |Spots(s)|
    ensures forall k :: 0 <= k < |r| ==> At(s, k) < |s| && r[k] == s[At(s, k)]
  {
    seq(|Spots(s)|, k requires 0 <= k < |Spots(s)| => s[At(s, k)])
  }

  function Spaces(n: nat): (r: string)
    ensures |r| == n && forall i :: 0 <= i < n ==> r[i] == ' '
  {
    seq(n, i => ' ')
  }

  /** What a column is laid out from: its marked text, the characters to be seen, and the room of its lines. */
  datatype Layout = Layout(text: string, marked: string, seen: string, width: nat, first: nat, others: nat) {
    ghost predicate Ok() {
      marked == Marked(text) && Clean(marked) && seen == VisibleText(marked) &&
      0 < first <= width && 0 < others <= width
    }

    ghost function Line(p: nat): (l: LineBreaks.Line)
      requires Ok() && p < |seen|
      ensures l.start == p <= l.end <= |seen|
    {
      LineAt(seen, p, Room(p, first, others))
    }

    /** What is handed out for a line: the indentation, the text with its escape sequences, and the hyphen. */
    ghost function Written(l: LineBreaks.Line): string
      requires Ok() && l.start <= l.end <= |seen|
    {
      var from, to := if l.start == 0 then 0 else At(marked, l.start), At(marked, l.end);
      Spaces(width - Room(l.start, first, others)) +
      (if from <= to <= |marked| then Unmarked(marked)[from..to] else "") +
      (if l.hyphen then "-" else "")
    }
  }

  class Column {
    const text: AnsiSkippingString
    var width: nat
    var indent: nat
    var initialIndent: Option<nat>

    ghost predicate Valid()
      reads this, text
    {
      text.Valid() && Clean(text.chars) &&
      width > indent && (initialIndent.Some? ==> width > initialIndent.value)
    }

    ghost function Characters(): string
      reads this, text
      requires Valid()
    {
      VisibleText(text.chars)
    }

    ghost function Laid(): (g: Layout)
      reads this, text
      requires Valid()
      ensures g.Ok() && g.first > 0 && g.others > 0
    {
      Layout(text.text, text.chars, Characters(), width, FirstRoom(), OtherRoom())
    }

    /** The first line has its own indentation if there is one, and the others have theirs. */
    lemma IndentedAs()
      requires Valid()
      ensures var g := Laid();
              g.text == text.text && g.width == width && g.others == width - indent &&
              g.first == if initialIndent == None then width - indent else width - initialIndent.value
    {
    }

    ghost function FirstRoom(): (r: nat)
      reads this, text
      requires Valid()
      ensures r > 0
    {
      width - if initialIndent.Some? then initialIndent.value else indent
    }

    ghost function OtherRoom(): (r: nat)
      reads this, text
      requires Valid()
      ensures r > 0
    {
      width - indent
    }

    constructor (t: string, w: nat, others: nat, first: Option<nat>)
      requires Clean(Marked(t)) && w > others && (first.Some? ==> w > first.value)
      ensures Valid() && fresh(text) && text.text == t && width == w && indent == others && initialIndent == first
    {
      var s := new AnsiSkippingString(t);
      text, width, indent, initialIndent := s, w, others, first;
    }
  }

  class LineIterator {
    const column: Column
    var lineStart: nat
    var lineEnd: nat
    var parsedTo: nat
    var addHyphen: bool

    /** The column has the layout g: it does not change while it is iterated over. */
    ghost predicate Over(g: Layout)
      reads column, column.text
    {
      column.Valid() && column.Laid() == g && g.Ok() &&
      Clean(g.marked) && column.text.chars == g.marked && |g.seen| == |Spots(g.marked)|
    }

    /** The iterator stands at the line that begins at character p. */
    ghost predicate Showing(g: Layout, p: nat)
      reads this
    {
      g.Ok() && p < |g.seen| && lineStart == At(g.marked, p) &&
      lineEnd == At(g.marked, g.Line(p).end) && addHyphen == g.Line(p).hyphen
    }

    ghost predicate Done(g: Layout)
      reads this
    {
      lineStart == |g.marked|
    }

    constructor (c: Column)
      requires c.Valid()
      ensures column == c && Over(c.Laid())
      ensures var g := c.Laid();
              if g.seen == "" || Stuck(g.seen, 0, g.first) then Done(g) else Showing(g, 0)
    {
      column := c;
      lineStart, lineEnd, parsedTo, addHyphen := 0, 0, 0, false;
      new;
      hide Visible, Marked, Clean, Skip, LineAt, Stuck, VisibleText, Layout.Line, Spots;
      ghost var g := c.Laid();
      VisibleOf(c);
      lineStart := column.text.Begin();
      lineEnd := lineStart;
      parsedTo := lineStart;
      CalcLength(g, 0);
      if g.seen != "" { StartAndEnd(g, 0); }
      if lineStart == lineEnd { lineStart := column.text.End(); }
    }

    /** The visible character at a position. */
    method Deref(ghost g: Layout, it: nat, ghost k: nat) returns (c: char)
      requires Over(g) && k < |g.seen| && it == At(g.marked, k)
      ensures c == g.seen[k]
    {
      c := column.text.chars[it];
    }

    /** The position of the visible character before one. */
    method Before(ghost g: Layout, it: nat, ghost k: nat) returns (r: nat)
      requires Over(g) && 0 < k <= |g.seen| && it == At(g.marked, k)
      ensures r == At(g.marked, k - 1) && r < it
    {
      hide At, Visible, Marked, Skip, Spots, Column.Valid, Column.Laid, Layout.Ok, VisibleText;
      r := column.text.OneBefore(it, k);
    }

    method IsBoundaryAt(ghost g: Layout, it: nat, ghost k: nat) returns (b: bool)
      requires Over(g) && 0 < k <= |g.seen| && it == At(g.marked, k)
      ensures b == IsBoundary(g.seen, k)
    {
      hide At, Visible, Marked, Clean, Skip, Spots, Column.Valid, Column.Laid, Layout.Ok, VisibleText;
      AtInside(g.marked, k);
      var end := column.text.End();
      if it == end { return true; }
      var before := Before(g, it, k);
      var c := Deref(g, it, k);
      var d := Deref(g, before, k - 1);
      b := (IsWhitespace(c) && !IsWhitespace(d)) || IsBreakableBefore(c) || IsBreakableAfter(d);
    }

    method IndentSize(ghost g: Layout, ghost p: nat) returns (n: nat)
      requires Over(g) && p <= |g.seen| && lineStart == At(g.marked, p)
      ensures n < column.width && Room(p, g.first, g.others) == column.width - n
    {
      hide At, Visible, Marked, Clean, Skip, Spots;
      var begin := column.text.Begin();
      AtIncreases(g.marked, 0, p);
      n := if lineStart == begin && column.initialIndent.Some? then column.initialIndent.value else column.indent;
    }

    method CalcLength(ghost g: Layout, ghost p: nat)
      requires Over(g) && p <= |g.seen| && lineStart == At(g.marked, p)
      modifies this`lineEnd, this`parsedTo, this`addHyphen
      ensures if p == |g.seen| then lineEnd == lineStart else Showing(g, p)
    {
      hide At, Visible, Marked, Clean, Skip, Spots, LineAt, Filled, LastBoundary, Trimmed, IsBoundary;
      hide Layout.Line, Column.Valid, Column.Laid, VisibleText;
      addHyphen := false;
      parsedTo := lineStart;
      AtInside(g.marked, p);
      var end := column.text.End();
      if parsedTo == end {
        lineEnd := parsedTo;
        return;
      }
      var c := Deref(g, lineStart, p);
      if c == '\n' { parsedTo := column.text.Advance(parsedTo, p); }
      var maxLineLength := IndentSize(g, p);
      maxLineLength := column.width - maxLineLength;
      FitLine(g, p, maxLineLength);
    }

    /** The second half of the calculation: from behind the leading newline. */
    method FitLine(ghost g: Layout, ghost p: nat, maxLineLength: nat)
      requires Over(g) && p < |g.seen| && maxLineLength == Room(p, g.first, g.others) > 0
      requires parsedTo == At(g.marked, Body(g.seen, p)) && !addHyphen
      modifies this`lineEnd, this`parsedTo, this`addHyphen
      ensures lineEnd == At(g.marked, g.Line(p).end) && addHyphen == g.Line(p).hyphen
    {
      hide At, Visible, Marked, Clean, Skip, Spots, LineAt, Filled, LastBoundary, Trimmed, IsBoundary, Body, Room;
      hide Column.Valid, Column.Laid, Layout.Ok, VisibleText;
      ghost var b := Body(g.seen, p);
      var lineLength := FillLine(g, b, maxLineLength);
      ghost var f := b + lineLength;
      LineAtIs(g.seen, p, maxLineLength);
      lineEnd := parsedTo;
      if lineLength >= maxLineLength {
        lineLength := BackToBoundary(g, b, lineLength);
        lineLength := BackOverWhitespace(g, b, lineLength);
        if lineLength == 0 {
          addHyphen := true;
          lineEnd := Before(g, parsedTo, f);
        }
      }
    }

    method FillLine(ghost g: Layout, ghost b: nat, maxLineLength: nat) returns (lineLength: nat)
      requires Over(g) && b <= |g.seen| && parsedTo == At(g.marked, b)
      modifies this`parsedTo
      ensures b + lineLength == Filled(g.seen, b, maxLineLength) && parsedTo == At(g.marked, b + lineLength)
    {
      hide At, Visible, Marked, Clean, Skip, Spots, Column.Valid, Column.Laid, Layout.Ok, VisibleText;
      lineLength := 0;
      var more := MayGoOn(g, b, lineLength < maxLineLength);
      while more
        invariant b + lineLength <= |g.seen| && lineLength <= maxLineLength && parsedTo == At(g.marked, b + lineLength)
        invariant Filled(g.seen, b, maxLineLength) == Filled(g.seen, b + lineLength, maxLineLength - lineLength)
        invariant more <==> b + lineLength < |g.seen| && lineLength < maxLineLength && g.seen[b + lineLength] != '\n'
        decreases maxLineLength - lineLength, more
      {
        parsedTo := column.text.Advance(parsedTo, b + lineLength);
        lineLength := lineLength + 1;
        more := MayGoOn(g, b + lineLength, lineLength < maxLineLength);
      }
    }

    method MayGoOn(ghost g: Layout, ghost k: nat, roomLeft: bool) returns (more: bool)
      requires Over(g) && k <= |g.seen| && parsedTo == At(g.marked, k)
      ensures more <==> k < |g.seen| && roomLeft && g.seen[k] != '\n'
    {
      hide At, Visible, Marked, Clean, Skip, Spots, Column.Valid, Column.Laid, Layout.Ok, VisibleText;
      AtInside(g.marked, k);
      var end := column.text.End();
      if parsedTo == end || !roomLeft { return false; }
      var c := Deref(g, parsedTo, k);
      more := c != '\n';
    }

    /** Looks for a natural break, from the end of the line backwards. */
    method BackToBoundary(ghost g: Layout, ghost b: nat, filled: nat) returns (lineLength: nat)
      requires Over(g) && b + filled <= |g.seen| && lineEnd == At(g.marked, b + filled)
      modifies this`lineEnd
      ensures b + lineLength == LastBoundary(g.seen, b, b + filled) && lineEnd == At(g.marked, b + lineLength)
    {
      hide At, Visible, Marked, Clean, Skip, Spots, IsBoundary, Column.Valid, Column.Laid, Layout.Ok, VisibleText;
      lineLength := filled;
      var found := lineLength == 0;
      if !found { found := IsBoundaryAt(g, lineEnd, b + lineLength); }
      while !found
        invariant lineLength <= filled && lineEnd == At(g.marked, b + lineLength)
        invariant LastBoundary(g.seen, b, b + filled) == LastBoundary(g.seen, b, b + lineLength)
        invariant found <==> lineLength == 0 || IsBoundary(g.seen, b + lineLength)
        decreases lineLength
      {
        lineEnd := Before(g, lineEnd, b + lineLength);
        lineLength := lineLength - 1;
        found := lineLength == 0;
        if !found { found := IsBoundaryAt(g, lineEnd, b + lineLength); }
      }
    }

    /** Takes the whitespace off the end of the line. */
    method BackOverWhitespace(ghost g: Layout, ghost b: nat, length: nat) returns (lineLength: nat)
      requires Over(g) && b + length <= |g.seen| && lineEnd == At(g.marked, b + length)
      modifies this`lineEnd
      ensures b + lineLength == Trimmed(g.seen, b, b + length) && lineEnd == At(g.marked, b + lineLength)
    {
      hide At, Visible, Marked, Clean, Skip, Spots, Column.Valid, Column.Laid, Layout.Ok, VisibleText;
      lineLength := length;
      while lineLength > 0
        invariant lineLength <= length && lineEnd == At(g.marked, b + lineLength)
        invariant Trimmed(g.seen, b, b + length) == Trimmed(g.seen, b, b + lineLength)
      {
        var before := Before(g, lineEnd, b + lineLength);
        var c := Deref(g, before, b + lineLength - 1);
        if !IsWhitespace(c) { break; }
        lineEnd := before;
        lineLength := lineLength - 1;
      }
    }

    /** On to the next line. */
    method Increment(ghost g: Layout, ghost p: nat)
      requires Over(g) && Showing(g, p)
      modifies this
      ensures var n := NextStart(g.seen, g.Line(p).end); if n == |g.seen| then Done(g) else Showing(g, n)
    {
      hide At, Visible, Marked, Clean, Skip, Spots, LineAt;
      ghost var e := g.Line(p).end;
      lineStart := lineEnd;
      AtInside(g.marked, e);
      var end := column.text.End();
      var newline := false;
      if lineStart != end {
        var c := Deref(g, lineStart, e);
        newline := c == '\n';
      }
      ghost var n := NextStart(g.seen, e);
      if newline { lineStart := column.text.Advance(lineStart, e); } else { SkipWhitespace(g, e); }
      AtInside(g.marked, n);
      if lineStart != end { CalcLength(g, n); }
    }

    method SkipWhitespace(ghost g: Layout, ghost e: nat)
      requires Over(g) && e <= |g.seen| && lineStart == At(g.marked, e)
      modifies this`lineStart
      ensures lineStart == At(g.marked, AfterWhitespace(g.seen, e))
    {
      hide At, Visible, Marked, Clean, Skip, Spots, Column.Valid, Column.Laid, Layout.Ok, VisibleText;
      ghost var n := e;
      AtInside(g.marked, n);
      var end := column.text.End();
      while lineStart != end
        invariant n <= |g.seen| && lineStart == At(g.marked, n) && end == |g.marked|
        invariant AfterWhitespace(g.seen, e) == AfterWhitespace(g.seen, n)
        invariant lineStart == end <==> n == |g.seen|
        decreases |g.seen| - n
      {
        var c := Deref(g, lineStart, n);
        if !IsWhitespace(c) { break; }
        lineStart := column.text.Advance(lineStart, n);
        n := n + 1;
        AtInside(g.marked, n);
      }
    }

    /** The line itself. */
    method Current(ghost g: Layout, ghost p: nat) returns (r: string)
      requires Over(g) && Showing(g, p)
      ensures r == g.Written(g.Line(p))
    {
      hide At, Visible, Marked, Unmarked, Clean, Skip, Spots, LineAt;
      ghost var l := g.Line(p);
      AtIncreases(g.marked, p, l.end);
      AtIncreases(g.marked, 0, p);
      AtInside(g.marked, l.end);
      UnmarkSlice(g.marked, if p == 0 then 0 else lineStart, lineEnd);
      var indentation := IndentSize(g, p);
      var part := column.text.Substring(lineStart, lineEnd);
      r := Spaces(indentation) + part + if addHyphen then "-" else "";
    }
  }

  lemma VisibleOf(c: Column)
    requires c.Valid()
    ensures |c.Laid().seen| == |Spots(c.text.chars)|
  {
  }

  lemma StartAndEnd(g: Layout, p: nat)
    requires g.Ok() && p < |g.seen|
    ensures var e := g.Line(p).end;
            At(g.marked, p) <= At(g.marked, e) &&
            (At(g.marked, e) == At(g.marked, p) <==> Stuck(g.seen, p, Room(p, g.first, g.others)))
  {
    hide LineAt, Stuck, At, Visible, Marked, Clean, Skip;
    LineMovesOnUnlessStuck(g.seen, p, Room(p, g.first, g.others));
    AtIncreases(g.marked, p, g.Line(p).end);
  }

  ghost function Joined(g: Layout, lines: seq<Line>): string
    requires g.Ok() && AreIn(lines, g.seen)
  {
    if lines == [] then ""
    else
      var front, last := lines[..|lines| - 1], lines[|lines| - 1];
      Joined(g, front) + (if front == [] then "" else "\n") + g.Written(last)
  }

  /** Writes the column, if wrapping it comes to an end: its lines in order with a newline between any two. */
  method Write(c: Column) returns (out: string)
    requires c.Valid() && WrapEnds(c.Laid().seen, c.Laid().first, c.Laid().others)
    ensures var g := c.Laid();
            var lines := Wrapped(g.seen, g.first, g.others);
            AreIn(lines, g.seen) && out == Joined(g, lines)
  {
    hide At, Visible, Marked, Clean, Skip, Spots, LineAt, NextStart, Ends, Stuck;
    hide Layout.Written, Layout.Line, Column.Valid, Column.Laid, Layout.Ok, Joined, Reached, Lines, LineIterator.Over;
    ghost var g := c.Laid();
    ghost var all := Wrapped(g.seen, g.first, g.others);
    out := "";
    var it := new LineIterator(c);
    var end := c.text.End();
    var first := true;
    ghost var p := if g.seen == "" || Stuck(g.seen, 0, g.first) then |g.seen| else 0;
    ghost var done: seq<Line> := [];
    StartWriting(g);
    LaidIs(c);
    StandsAt(g, it, p);
    while it.lineStart != end
      invariant it.column == c && fresh(it) && p <= |g.seen| && it.Over(g)
      invariant if p == |g.seen| then it.Done(g) else it.Showing(g, p)
      invariant it.lineStart == end <==> p == |g.seen|
      invariant Reached(g, p, done, all) && AreIn(done, g.seen)
      invariant out == Joined(g, done) && (first <==> done == [])
      decreases |g.seen| - p
    {
      StepOver(g, p, done, all);
      JoinOne(g, done, g.Line(p));
      var line := it.Current(g, p);
      if first { first := false; } else { out := out + "\n"; }
      out := out + line;
      done := done + [g.Line(p)];
      it.Increment(g, p);
      p := NextStart(g.seen, g.Line(p).end);
      StandsAt(g, it, p);
    }
    StepOver(g, p, done, all);
  }

  lemma JoinOne(g: Layout, done: seq<Line>, l: Line)
    requires g.Ok() && AreIn(done, g.seen) && l.start <= l.end <= |g.seen|
    ensures AreIn(done + [l], g.seen) && Joined(g, done + [l]) == Joined(g, done) + (if done == [] then "" else "\n") + g.Written(l)
  {
    hide Layout.Written;
    assert (done + [l])[..|done|] == done;
  }

  /** The lines before p are done, and the rest is to come. */
  ghost predicate Reached(g: Layout, p: nat, done: seq<Line>, all: seq<Line>) {
    g.Ok() && p <= |g.seen| && Ends(g.seen, p, g.first, g.others) && AreIn(done, g.seen) &&
    done + Lines(g.seen, p, g.first, g.others) == all
  }

  lemma StartWriting(g: Layout)
    requires g.Ok() && WrapEnds(g.seen, g.first, g.others)
    ensures Reached(g, if g.seen == "" || Stuck(g.seen, 0, g.first) then |g.seen| else 0, [], Wrapped(g.seen, g.first, g.others))
    ensures Joined(g, []) == ""
  {
    hide LineAt, NextStart, Stuck, VisibleText, Clean, Marked;
    assert [] + Wrapped(g.seen, g.first, g.others) == Wrapped(g.seen, g.first, g.others);
  }

  lemma StepOver(g: Layout, p: nat, done: seq<Line>, all: seq<Line>)
    requires Reached(g, p, done, all)
    ensures p == |g.seen| ==> done == all
    ensures p < |g.seen| ==>
      var n := NextStart(g.seen, g.Line(p).end);
      p < n <= |g.seen| && Reached(g, n, done + [g.Line(p)], all)
  {
    hide LineAt, NextStart, VisibleText, Clean, Marked;
    if p < |g.seen| {
      var l := g.Line(p);
      var n := NextStart(g.seen, l.end);
      NextIsBehind(g.seen, l.end);
      assert Lines(g.seen, p, g.first, g.others) == [l] + Lines(g.seen, n, g.first, g.others);
      assert done + ([l] + Lines(g.seen, n, g.first, g.others)) == done + [l] + Lines(g.seen, n, g.first, g.others);
    }
  }

  /** If wrapping does not come to an end, the iterator has not come to it after any number of steps. */
  method NeverDone(c: Column, n: nat) returns (it: LineIterator, ghost p: nat)
    requires c.Valid() && !WrapEnds(c.Laid().seen, c.Laid().first, c.Laid().others)
    ensures it.Showing(c.Laid(), p) && it.lineStart != |c.text.chars|
  {
    hide At, Visible, Marked, Clean, Skip, Spots, LineAt, NextStart, Ends, Stuck;
    hide Layout.Line, Column.Valid, Column.Laid, LineIterator.Over, LineIterator.Showing;
    ghost var g := c.Laid();
    it := new LineIterator(c);
    p := 0;
    var i := 0;
    while i < n
      invariant it.column == c && fresh(it) && it.Over(g) && p < |g.seen| && g.Ok()
      invariant it.Showing(g, p) && !Ends(g.seen, p, g.first, g.others)
    {
      EndlessNext(g, p);
      it.Increment(g, p);
      p := NextStart(g.seen, g.Line(p).end);
      i := i + 1;
    }
    LaidIs(c);
    StandsAt(g, it, p);
  }

  lemma LaidIs(c: Column)
    requires c.Valid()
    ensures c.Laid().marked == c.text.chars
  {
  }

  lemma EndlessNext(g: Layout, p: nat)
    requires g.Ok() && p < |g.seen| && !Ends(g.seen, p, g.first, g.others)
    ensures var n := NextStart(g.seen, g.Line(p).end); n < |g.seen| && !Ends(g.seen, n, g.first, g.others)
  {
    hide LineAt, NextStart;
    LineRepeatsExactlyIf(g.seen, p, Room(p, g.first, g.others));
    NextIsBehind(g.seen, g.Line(p).end);
  }

  lemma StandsAt(g: Layout, it: LineIterator, p: nat)
    requires g.Ok() && p <= |g.seen| && if p == |g.seen| then it.Done(g) else it.Showing(g, p)
    ensures it.lineStart == |g.marked| <==> p == |g.seen|
  {
    hide At, Visible, Marked, Clean, Skip, Spots, LineAt;
    AtInside(g.marked, p);
  }
}
