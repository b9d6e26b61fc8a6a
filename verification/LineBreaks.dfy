/** Where a text of visible characters is broken into lines of a given width. */
module LineBreaks {
  predicate IsWhitespace(c: char) {
    c == ' ' || c == '\t' || c == '\n' || c == '\r'
  }

  predicate IsBreakableBefore(c: char) {
    c in "[({<|"
  }

  predicate IsBreakableAfter(c: char) {
    c in "])}>.,:;*+-=&/\\"
  }

  predicate IsBoundary(v: string, k: nat)
    requires 0 < k <= |v|
  {
    k == |v| || (IsWhitespace(v[k]) && !IsWhitespace(v[k - 1])) || IsBreakableBefore(v[k]) || IsBreakableAfter(v[k - 1])
  }

  // ----- One line -----

  /** A line is the characters from start to end, and perhaps a hyphen. */
  datatype Line = Line(start: nat, end: nat, hyphen: bool)

  /** Where the counted part of the line at p begins: a newline at p does not count. */
  function Body(v: string, p: nat): (r: nat)
    requires p <= |v|
    ensures p <= r <= |v|
  {
    if p < |v| && v[p] == '\n' then p + 1 else p
  }

  /** How far the line gets before the room is used up, a newline comes, or the text ends. */
  function Filled(v: string, k: nat, room: nat): (r: nat)
    requires k <= |v|
    ensures k <= r <= |v| && r - k <= room
    ensures r - k < room ==> r == |v| || v[r] == '\n'
    ensures forall i :: k <= i < r ==> v[i] != '\n'
    decreases room
  {
    if k == |v| || room == 0 || v[k] == '\n' then k else Filled(v, k + 1, room - 1)
  }

  /** The last boundary above low and not above k, or low if there is none. */
  function LastBoundary(v: string, low: nat, k: nat): (r: nat)
    requires low <= k <= |v|
    ensures low <= r <= k && (r > low ==> IsBoundary(v, r))
    ensures forall i :: r < i <= k ==> !IsBoundary(v, i)
  {
    if k == low || IsBoundary(v, k) then k else LastBoundary(v, low, k - 1)
  }

  /** Without the whitespace before k, but not below low. */
  function Trimmed(v: string, low: nat, k: nat): (r: nat)
    requires low <= k <= |v|
    ensures low <= r <= k && (r > low ==> !IsWhitespace(v[r - 1]))
    ensures forall i :: r <= i < k ==> IsWhitespace(v[i])
  {
    if k == low || !IsWhitespace(v[k - 1]) then k else Trimmed(v, low, k - 1)
  }

  function LineAt(v: string, p: nat, room: nat): (l: Line)
    requires p < |v| && room > 0
    ensures l.start == p <= l.end <= |v|
  {
    var b := Body(v, p);
    var f := Filled(v, b, room);
    if f - b < room then Line(p, f, false)
    else
      var e := Trimmed(v, b, LastBoundary(v, b, f));
      if e == b then Line(p, f - 1, true) else Line(p, e, false)
  }

  lemma LineAtIs(v: string, p: nat, room: nat)
    requires p < |v| && room > 0
    ensures var b := Body(v, p);
            var f := Filled(v, b, room);
            var e := Trimmed(v, b, LastBoundary(v, b, f));
            LineAt(v, p, room) == if f - b < room then Line(p, f, false) else if e == b then Line(p, f - 1, true) else Line(p, e, false)
  {
  }

  ghost predicate OnlyWhitespace(s: string) {
    forall i :: 0 <= i < |s| ==> IsWhitespace(s[i])
  }

  /** What the reader sees of a line: it fits the room with its hyphen, and has no newline but a leading one. */
  lemma LineFits(v: string, p: nat, room: nat)
    requires p < |v| && room > 0
    ensures var l, b := LineAt(v, p, room), Body(v, p);
            b <= l.end && l.end - b + (if l.hyphen then 1 else 0) <= room &&
            forall i :: b <= i < l.end ==> v[i] != '\n'
  {
  }

  ghost predicate EndsBeforeLastBoundary(v: string, b: nat, f: nat, e: nat)
    requires b <= e <= f <= |v|
  {
    exists k :: b < k <= f && e <= k && IsBoundary(v, k) && OnlyWhitespace(v[e..k]) && NoBoundaryIn(v, k, f)
  }

  ghost predicate NoBoundaryIn(v: string, k: nat, f: nat)
    requires k <= f <= |v|
  {
    forall i :: k < i <= f ==> !IsBoundary(v, i)
  }

  /** A line that fills its room ends at the last boundary in the room, less the whitespace before it;
      it is split with a hyphen exactly if there is nothing but whitespace before every boundary. */
  lemma LineBreaksAtLastBoundary(v: string, p: nat, room: nat)
    requires p < |v| && room > 0
    ensures var l, b := LineAt(v, p, room), Body(v, p);
            var f := Filled(v, b, room);
            if f - b < room then l == Line(p, f, false) && (f == |v| || v[f] == '\n')
            else
              (l.hyphen <==> forall k :: b < k <= f && IsBoundary(v, k) ==> OnlyWhitespace(v[b..k])) &&
              (l.hyphen ==> l.end == f - 1) &&
              (!l.hyphen ==> l.end > b && !IsWhitespace(v[l.end - 1]) && EndsBeforeLastBoundary(v, b, f, l.end))
  {
    hide Body, Filled, LineAt, LastBoundary, Trimmed, IsBoundary, OnlyWhitespace;
    LineAtIs(v, p, room);
    FilledIs(v, Body(v, p), room);
    var b := Body(v, p);
    var f := Filled(v, b, room);
    if f - b == room { BreaksWhere(v, b, f); }
  }

  lemma FilledIs(v: string, k: nat, room: nat)
    requires k <= |v|
    ensures var f := Filled(v, k, room); f - k <= room && (f - k < room ==> f == |v| || v[f] == '\n')
  {
  }

  lemma BreaksWhere(v: string, b: nat, f: nat)
    requires b < f <= |v|
    ensures var e := Trimmed(v, b, LastBoundary(v, b, f));
            if e == b then forall k :: b < k <= f && IsBoundary(v, k) ==> OnlyWhitespace(v[b..k])
            else !IsWhitespace(v[e - 1]) && EndsBeforeLastBoundary(v, b, f, e) &&
                 exists k :: b < k <= f && IsBoundary(v, k) && !OnlyWhitespace(v[b..k])
  {
    hide IsBoundary, LastBoundary, Trimmed;
    var k := LastBoundary(v, b, f);
    var e := Trimmed(v, b, k);
    if e == b {
      forall i | b < i <= f && IsBoundary(v, i) ensures OnlyWhitespace(v[b..i]) {
        assert i <= k;
      }
    } else {
      assert v[b..k][e - 1 - b] == v[e - 1];
      assert !OnlyWhitespace(v[b..k]);
      assert OnlyWhitespace(v[e..k]) && NoBoundaryIn(v, k, f);
    }
  }

  /** Between which characters a line may end with no hyphen. */
  predicate MayPart(last: char, next: char) {
    (next in [' ', '\t', '\n', '\r'] && last !in [' ', '\t', '\n', '\r']) ||
    next in ['[', '(', '{', '<', '|'] ||
    last in [']', ')', '}', '>', '.', ',', ':', ';', '*', '+', '-', '=', '&', '/', '\\']
  }

  lemma PartsAtBoundaries(v: string, k: nat)
    requires 0 < k <= |v|
    ensures IsBoundary(v, k) <==> k == |v| || MayPart(v[k - 1], v[k])
  {
  }

  lemma BlankOnly(s: string, i: nat)
    requires OnlyWhitespace(s) && i < |s|
    ensures s[i] in [' ', '\t', '\n', '\r']
  {
  }

  /** A full line without a hyphen parts no word: it ends before whitespace, before an opening bracket, or behind a
      closing bracket, a sign of punctuation or an operator. */
  lemma WordsAreKept(v: string, p: nat, room: nat)
    requires p < |v| && room > 0
    ensures var l := LineAt(v, p, room);
            l.hyphen || l.end == |v| || v[l.end] in [' ', '\t', '\n', '\r'] || MayPart(v[l.end - 1], v[l.end])
  {
    hide Body, Filled, LineAt, IsBoundary, OnlyWhitespace, MayPart;
    LineBreaksAtLastBoundary(v, p, room);
    var l, b := LineAt(v, p, room), Body(v, p);
    var f := Filled(v, b, room);
    if !l.hyphen && l.end < |v| && f - b == room {
      var k :| b < k <= f && l.end <= k && IsBoundary(v, k) && OnlyWhitespace(v[l.end..k]) && NoBoundaryIn(v, k, f);
      PartsAtBoundaries(v, k);
      if l.end < k { BlankOnly(v[l.end..k], 0); }
    }
  }

  /** Where a full line could part behind something printed, it takes all that is printed up to there. */
  lemma TakesUpToParting(v: string, p: nat, room: nat, k: nat)
    requires p < |v| && room > 0
    requires var b := Body(v, p);
             b < k < |v| && k - b <= room && (forall i :: b <= i < k ==> v[i] != '\n') &&
             MayPart(v[k - 1], v[k]) && exists i :: b <= i < k && v[i] !in [' ', '\t', '\n', '\r']
    ensures var l := LineAt(v, p, room);
            !l.hyphen && forall i :: l.end <= i < k ==> v[i] in [' ', '\t', '\n', '\r']
  {
    hide Body, LineAt, IsBoundary, MayPart, Filled, LastBoundary, Trimmed;
    LineAtIs(v, p, room);
    PartsAtBoundaries(v, k);
    var b := Body(v, p);
    var f := Filled(v, b, room);
    FilledReaches(v, b, room, k);
    if f - b == room {
      var last := LastBoundary(v, b, f);
      var e := Trimmed(v, b, last);
      assert k <= last;
      var i :| b <= i < k && v[i] !in [' ', '\t', '\n', '\r'];
      assert !IsWhitespace(v[i]) && e > i;
    }
  }

  lemma FilledReaches(v: string, b: nat, room: nat, k: nat)
    requires b < k < |v| && k - b <= room && forall i :: b <= i < k ==> v[i] != '\n'
    ensures Filled(v, b, room) >= k
  {
    hide Filled;
    var f := Filled(v, b, room);
    assert f - b < room ==> f == |v| || v[f] == '\n';
  }

  /** The one case of a line that takes nothing: room for a single character, which may not stand alone. */
  predicate Stuck(v: string, p: nat, room: nat)
    requires p < |v|
  {
    room == 1 && v[p] != '\n' && (IsWhitespace(v[p]) || !IsBoundary(v, p + 1))
  }

  lemma LineMovesOnUnlessStuck(v: string, p: nat, room: nat)
    requires p < |v| && room > 0
    ensures LineAt(v, p, room).end > p <==> !Stuck(v, p, room)
  {
    var b := Body(v, p);
    if room == 1 && v[p] != '\n' {
      assert Filled(v, p + 1, 0) == p + 1;
      assert Filled(v, p, 1) == p + 1;
    }
  }

  // ----- All lines -----

  function AfterWhitespace(v: string, k: nat): (r: nat)
    requires k <= |v|
    ensures k <= r <= |v| && (r < |v| ==> !IsWhitespace(v[r]))
    ensures forall i :: k <= i < r ==> IsWhitespace(v[i])
    decreases |v| - k
  {
    if k < |v| && IsWhitespace(v[k]) then AfterWhitespace(v, k + 1) else k
  }

  /** Where the line after one that ends at e begins. */
  function NextStart(v: string, e: nat): (r: nat)
    requires e <= |v|
    ensures e <= r <= |v| && forall i :: e <= i < r ==> IsWhitespace(v[i])
  {
    if e < |v| && v[e] == '\n' then e + 1 else AfterWhitespace(v, e)
  }

  /** The room of the line at p: the first line may have its own. */
  function Room(p: nat, first: nat, others: nat): nat {
    if p == 0 then first else others
  }

  /** The one case of a line that is followed by itself, for ever: a single character that is no whitespace and may
      not stand alone. */
  predicate Repeats(v: string, p: nat, room: nat)
    requires p < |v|
  {
    room == 1 && !IsWhitespace(v[p]) && !IsBoundary(v, p + 1)
  }

  lemma LineRepeatsExactlyIf(v: string, p: nat, room: nat)
    requires p < |v| && room > 0
    ensures NextStart(v, LineAt(v, p, room).end) == p <==> Repeats(v, p, room)
    ensures NextStart(v, LineAt(v, p, room).end) >= p
  {
    hide LineAt;
    LineMovesOnUnlessStuck(v, p, room);
  }

  /** The lines from p on come to an end. */
  ghost predicate Ends(v: string, p: nat, first: nat, others: nat)
    requires p <= |v| && first > 0 && others > 0
    decreases |v| - p
  {
    p < |v| ==>
      var n := NextStart(v, LineAt(v, p, Room(p, first, others)).end);
      n > p && Ends(v, n, first, others)
  }

  ghost function Lines(v: string, p: nat, first: nat, others: nat): (r: seq<Line>)
    requires p <= |v| && first > 0 && others > 0 && Ends(v, p, first, others)
    decreases |v| - p
  {
    if p == |v| then []
    else
      var l := LineAt(v, p, Room(p, first, others));
      [l] + Lines(v, NextStart(v, l.end), first, others)
  }

  /** Wrapping comes to an end: a stuck first line is taken for the end of the text. */
  ghost predicate WrapEnds(v: string, first: nat, others: nat)
    requires first > 0 && others > 0
  {
    v == "" || Stuck(v, 0, first) || Ends(v, 0, first, others)
  }

  ghost function Wrapped(v: string, first: nat, others: nat): seq<Line>
    requires first > 0 && others > 0 && WrapEnds(v, first, others)
  {
    if v == "" || Stuck(v, 0, first) then [] else Lines(v, 0, first, others)
  }

  lemma {:induction false} RoomyEnds(v: string, p: nat, first: nat, others: nat)
    requires p <= |v| && first > 0 && others >= 2 && (p == 0 < |v| ==> !Stuck(v, 0, first))
    ensures Ends(v, p, first, others)
    decreases |v| - p
  {
    hide LineAt, NextStart, Stuck;
    if p < |v| {
      LineMovesOnUnlessStuck(v, p, Room(p, first, others));
      RoomyIsNotStuck(v, p, others);
      NextIsBehind(v, LineAt(v, p, Room(p, first, others)).end);
      RoomyEnds(v, NextStart(v, LineAt(v, p, Room(p, first, others)).end), first, others);
    }
  }

  lemma RoomyIsNotStuck(v: string, p: nat, room: nat)
    requires p < |v| && room >= 2
    ensures !Stuck(v, p, room)
  {
  }

  lemma NextIsBehind(v: string, e: nat)
    requires e <= |v|
    ensures e <= NextStart(v, e) <= |v|
  {
  }

  /** Wrapping ends for every text exactly if the lines after the first have room for two characters. */
  lemma EndsExactlyIfLaterLinesAreRoomy(first: nat, others: nat)
    requires first > 0 && others > 0
    ensures (forall v: string :: WrapEnds(v, first, others)) <==> others >= 2
  {
    if others >= 2 {
      forall v: string ensures WrapEnds(v, first, others) {
        if v != "" && !Stuck(v, 0, first) { RoomyEnds(v, 0, first, others); }
      }
    } else {
      NarrowLaterLineRepeats(first);
    }
  }

  /** From p on, every character that is no whitespace may stand at the end of a line. */
  ghost predicate AllStandAlone(v: string, p: nat) {
    forall i :: p <= i < |v| && !IsWhitespace(v[i]) ==> IsBoundary(v, i + 1)
  }

  /** With room for one character, a line that is left behind held only characters that may stand alone. */
  lemma PassedStandAlone(v: string, p: nat)
    requires p < |v| && !Repeats(v, p, 1)
    ensures var n := NextStart(v, LineAt(v, p, 1).end);
            p < n <= |v| && forall i :: p <= i < n && !IsWhitespace(v[i]) ==> IsBoundary(v, i + 1)
  {
    hide IsBoundary, NextStart, LineAt, Filled, LastBoundary, Trimmed;
    LineRepeatsExactlyIf(v, p, 1);
    LineAtIs(v, p, 1);
  }

  /** With room for one character, the lines behind the first come to an end exactly if all their characters may
      stand alone. */
  lemma {:induction false} NarrowEndsExactlyIf(v: string, p: nat, first: nat)
    requires 0 < p <= |v| && first > 0
    ensures Ends(v, p, first, 1) <==> AllStandAlone(v, p)
    decreases |v| - p
  {
    hide LineAt, NextStart, IsBoundary;
    if p < |v| {
      LineRepeatsExactlyIf(v, p, 1);
      if !Repeats(v, p, 1) {
        PassedStandAlone(v, p);
        NarrowEndsExactlyIf(v, NextStart(v, LineAt(v, p, 1).end), first);
      }
    }
  }

  /** Wrapping comes to an end, by the characters of the text alone: unless the first line is stuck, or the others have
      room for two characters, all characters behind the first line must be able to stand alone. */
  lemma WrapEndsExactlyIf(v: string, first: nat, others: nat)
    requires first > 0 && others > 0
    ensures WrapEnds(v, first, others) <==>
            others >= 2 || v == "" || Stuck(v, 0, first) || AllStandAlone(v, NextStart(v, LineAt(v, 0, first).end))
  {
    hide LineAt, NextStart, Stuck, AllStandAlone;
    if v != "" && !Stuck(v, 0, first) {
      LineMovesOnUnlessStuck(v, 0, first);
      NextIsBehind(v, LineAt(v, 0, first).end);
      if others >= 2 { RoomyEnds(v, 0, first, others); } else { NarrowEndsExactlyIf(v, NextStart(v, LineAt(v, 0, first).end), first); }
    }
  }

  const TWO_LINES: string := "a\nab"

  /** Whatever the room of the first line, the second one of this text repeats if it has room for one character. */
  lemma NarrowLaterLineRepeats(first: nat)
    requires first > 0
    ensures var v := TWO_LINES;
            !WrapEnds(v, first, 1) && !Stuck(v, 0, first) && LineAt(v, 0, first) == Line(0, 1, false) && NextStart(v, 1) == 2 &&
            Repeats(v, 2, 1)
  {
    var v := TWO_LINES;
    assert Filled(v, 1, first - 1) == 1;
    assert Filled(v, 0, first) == 1;
    assert IsBoundary(v, 1) && !IsBoundary(v, 3);
    assert LastBoundary(v, 0, 1) == 1 && Trimmed(v, 0, 1) == 1;
    assert LineAt(v, 0, first) == Line(0, 1, false);
    assert NextStart(v, 1) == 2;
    LineRepeatsExactlyIf(v, 2, 1);
    assert !Ends(v, 2, first, 1);
  }

  // ----- Nothing but whitespace is lost -----

  function Ink(s: string): (r: string) {
    if s == "" then "" else Ink(s[..|s| - 1]) + if IsWhitespace(s[|s| - 1]) then "" else [s[|s| - 1]]
  }

  lemma {:induction false} InkAppend(a: string, b: string)
    ensures Ink(a + b) == Ink(a) + Ink(b)
    decreases |b|
  {
    if b == "" {
      assert a + b == a;
    } else {
      var front := b[..|b| - 1];
      assert (a + b)[..|a + b| - 1] == a + front && (a + b)[|a + b| - 1] == b[|b| - 1];
      InkAppend(a, front);
    }
  }

  lemma {:induction false} NoInk(s: string)
    requires OnlyWhitespace(s)
    ensures Ink(s) == ""
    decreases |s|
  {
    if s != "" { NoInk(s[..|s| - 1]); }
  }

  /** The characters of the lines that are not whitespace, without the hyphens. */
  ghost function InkOfLines(v: string, lines: seq<Line>): string
    requires forall l :: l in lines ==> l.start <= l.end <= |v|
  {
    if lines == [] then "" else Ink(v[lines[0].start..lines[0].end]) + InkOfLines(v, lines[1..])
  }

  ghost predicate AreIn(lines: seq<Line>, v: string) {
    forall l :: l in lines ==> l.start <= l.end <= |v|
  }

  lemma InkAround(v: string, p: nat, e: nat, n: nat)
    requires p <= e <= n <= |v| && OnlyWhitespace(v[e..n])
    ensures Ink(v[p..]) == Ink(v[p..e]) + Ink(v[n..])
  {
    hide Ink;
    assert v[p..] == v[p..e] + (v[e..n] + v[n..]);
    InkAppend(v[p..e], v[e..n] + v[n..]);
    InkAppend(v[e..n], v[n..]);
    NoInk(v[e..n]);
  }

  /** The lines hold the characters of the text that are not whitespace, each once and in order. */
  lemma {:induction false} LinesKeepInk(v: string, p: nat, first: nat, others: nat)
    requires p <= |v| && first > 0 && others > 0 && Ends(v, p, first, others)
    ensures var lines := Lines(v, p, first, others); AreIn(lines, v) && InkOfLines(v, lines) == Ink(v[p..])
    decreases |v| - p
  {
    hide Ink, LineAt, NextStart;
    if p == |v| {
      NoInk(v[p..]);
    } else {
      var l := LineAt(v, p, Room(p, first, others));
      var n := NextStart(v, l.end);
      LinesKeepInk(v, n, first, others);
      OnlyBlanksSkipped(v, l.end);
      InkAround(v, p, l.end, n);
      var rest := Lines(v, n, first, others);
      assert ([l] + rest)[1..] == rest;
    }
  }

  lemma OnlyBlanksSkipped(v: string, e: nat)
    requires e <= |v|
    ensures e <= NextStart(v, e) <= |v| && OnlyWhitespace(v[e..NextStart(v, e)])
  {
    var n := NextStart(v, e);
    assert forall i :: 0 <= i < n - e ==> v[e..n][i] == v[e + i];
  }

  /** Wrapping ends and loses no character but whitespace. */
  ghost predicate WrapKeeps(v: string, first: nat, others: nat)
    requires first > 0 && others > 0
  {
    WrapEnds(v, first, others) &&
    var lines := Wrapped(v, first, others);
    AreIn(lines, v) && InkOfLines(v, lines) == Ink(v)
  }

  /** If wrapping ends, it can lose characters only by a stuck first line. */
  lemma WrapKeepsExactlyIf(v: string, first: nat, others: nat)
    requires first > 0 && others > 0
    ensures WrapKeeps(v, first, others) <==>
            WrapEnds(v, first, others) && (v != "" && Stuck(v, 0, first) ==> Ink(v) == "")
  {
    hide Ink, Stuck, Lines, Ends;
    assert v[0..] == v;
    NoInk("");
    if WrapEnds(v, first, others) && v != "" && !Stuck(v, 0, first) { LinesKeepInk(v, 0, first, others); }
  }

  /** No text loses anything, and none goes on for ever, exactly if all lines have room for two characters. */
  lemma KeepsExactlyIfAllLinesAreRoomy(first: nat, others: nat)
    requires first > 0 && others > 0
    ensures (forall v: string :: WrapKeeps(v, first, others)) <==> first >= 2 && others >= 2
  {
    hide WrapEnds, WrapKeeps, Ink;
    if first >= 2 && others >= 2 {
      forall v: string ensures WrapKeeps(v, first, others) {
        EndsExactlyIfLaterLinesAreRoomy(first, others);
        WrapKeepsExactlyIf(v, first, others);
        if v != "" { RoomyIsNotStuck(v, 0, first); }
      }
    } else if others == 1 {
      NarrowLaterLineRepeats(first);
      WrapKeepsExactlyIf(TWO_LINES, first, others);
    } else {
      NarrowFirstLineIsLost(others);
      WrapKeepsExactlyIf("ab", first, others);
    }
  }

  /** A first line with room for one character is lost, with the rest of the text, if the character may not stand alone. */
  lemma NarrowFirstLineIsLost(others: nat)
    requires others > 0
    ensures Stuck("ab", 0, 1) && WrapEnds("ab", 1, others) && Wrapped("ab", 1, others) == [] && Ink("ab") != ""
  {
    assert !IsWhitespace("ab"[1]);
  }
}
