/** Replacing occurrences of a pattern; escaping service messages. */
module Replace {
  import opened Options

  predicate OccursAt(s: string, p: string, i: nat) {
    i + |p| <= |s| && s[i..i + |p|] == p
  }

  /** The first occurrence from position i on. */
  function Next(s: string, p: string, i: nat): (r: Option<nat>)
    ensures r.Some? ==> i <= r.value && OccursAt(s, p, r.value) && forall j :: i <= j < r.value ==> !OccursAt(s, p, j)
    ensures r.None? ==> forall j :: i <= j ==> !OccursAt(s, p, j)
    decreases |s| - i
  {
    if i + |p| > |s| then None else if OccursAt(s, p, i) then Some(i) else Next(s, p, i + 1)
  }

  /** The string from position i on, with the leftmost occurrences that do not overlap replaced. */
  function Replaced(s: string, p: string, w: string, i: nat): string
    requires i <= |s| && p != ""
    decreases |s| - i
  {
    var n := Next(s, p, i);
    if n.None? then s[i..] else s[i..n.value] + w + Replaced(s, p, w, n.value + |p|)
  }

  method Find(s: string, p: string, from: nat) returns (r: Option<nat>)
    ensures r == Next(s, p, from)
  {
    hide OccursAt;
    var i := from;
    while i + |p| <= |s|
      invariant from <= i && Next(s, p, from) == Next(s, p, i)
      decreases |s| - i
    {
      if s[i..i + |p|] == p {
        assert OccursAt(s, p, i) by { Occurs(s, p, i); }
        return Some(i);
      }
      assert !OccursAt(s, p, i) by { Occurs(s, p, i); }
      i := i + 1;
    }
    r := None;
  }

  lemma Occurs(s: string, p: string, i: nat)
    requires i + |p| <= |s|
    ensures OccursAt(s, p, i) <==> s[i..i + |p|] == p
  {
  }

  // ----- The loop -----

  /** What the loop holds: the occurrence found, where copying goes on, and the text so far. */
  datatype Loop = Loop(found: Option<nat>, copyBegin: nat, out: string)

  ghost predicate Standing(l: Loop, s: string, p: string) {
    l.found.Some? ==> l.copyBegin <= l.found.value && OccursAt(s, p, l.found.value)
  }

  function Round(s: string, p: string, w: string, l: Loop): (r: Loop)
    requires l.found.Some? && Standing(l, s, p)
    ensures Standing(r, s, p)
  {
    var next := l.found.value + |p|;
    Loop(if next < |s| then Next(s, p, next) else None, next, l.out + s[l.copyBegin..l.found.value] + w)
  }

  /** After so many rounds, or fewer if the loop ends before. */
  function Rounds(s: string, p: string, w: string, n: nat): (l: Loop)
    ensures Standing(l, s, p)
  {
    if n == 0 then Loop(Next(s, p, 0), 0, "")
    else
      var l := Rounds(s, p, w, n - 1);
      if l.found.None? then l else Round(s, p, w, l)
  }

  ghost predicate Ends(s: string, p: string, w: string) {
    exists n: nat :: Rounds(s, p, w, n).found.None?
  }

  /** The loop does not end exactly for an empty pattern in a text that is not empty. */
  lemma EndsExactlyIf(s: string, p: string, w: string)
    ensures Ends(s, p, w) <==> p != "" || s == ""
  {
    if p != "" {
      MovesOn(s, p, w, |s|);
    } else if s == "" {
      assert Rounds(s, p, w, 0) == Loop(Some(0), 0, "");
      assert Rounds(s, p, w, 1).found == None;
    } else {
      forall n: nat ensures Rounds(s, p, w, n).found.Some? { StaysAtStart(s, w, n); }
    }
  }

  lemma {:induction false} MovesOn(s: string, p: string, w: string, n: nat)
    requires p != ""
    ensures var l := Rounds(s, p, w, n); l.found.Some? ==> l.copyBegin >= n && n < |s|
  {
    hide Next;
    if n > 0 { MovesOn(s, p, w, n - 1); }
  }

  lemma {:induction false} StaysAtStart(s: string, w: string, n: nat)
    requires s != ""
    ensures Rounds(s, "", w, n).found == Some(0) && Rounds(s, "", w, n).copyBegin == 0
  {
    assert OccursAt(s, "", 0);
    NextIsHere(s, "", 0);
    hide Next, OccursAt;
    if n > 0 { StaysAtStart(s, w, n - 1); }
  }

  /** An empty pattern ends only in an empty text, which becomes one copy of the replacement. */
  method ReplaceInPlace(str: string, replaceThis: string, withThis: string) returns (r: string, replaced: bool)
    requires replaceThis != "" || str == ""
    ensures r == if replaceThis == "" then withThis else Replaced(str, replaceThis, withThis, 0)
    ensures replaced <==> exists i: nat :: OccursAt(str, replaceThis, i)
  {
    hide Next, OccursAt, Replaced, Rounds;
    var i := Find(str, replaceThis, 0);
    RoundsStart(str, replaceThis, withThis);
    if replaceThis != "" { ReplaceStep(str, replaceThis, withThis, 0); }
    if i == None {
      EmptyOccurs(str, replaceThis);
      assert str[0..] == str;
      return str, false;
    }
    assert OccursAt(str, replaceThis, i.value);
    var copyBegin := 0;
    ghost var rounds := 0;
    r := "";
    assert replaceThis != "" ==>
      "" + Replaced(str, replaceThis, withThis, 0) == Replaced(str, replaceThis, withThis, 0);
    while i != None
      invariant copyBegin <= |str| && Loop(i, copyBegin, r) == Rounds(str, replaceThis, withThis, rounds)
      invariant replaceThis == "" ==> copyBegin == 0 && r == if i == None then withThis else ""
      invariant replaceThis != "" ==> i == Next(str, replaceThis, copyBegin)
      invariant replaceThis != "" ==>
        r + Replaced(str, replaceThis, withThis, copyBegin) == Replaced(str, replaceThis, withThis, 0)
      decreases |str| - copyBegin, i != None
    {
      RoundIs(str, replaceThis, withThis, rounds);
      if replaceThis != "" {
        ReplaceStep(str, replaceThis, withThis, copyBegin);
        Regroup(r, str[copyBegin..i.value], withThis, Replaced(str, replaceThis, withThis, i.value + |replaceThis|));
        if i.value + |replaceThis| >= |str| { NothingLeft(str, replaceThis, i.value + |replaceThis|); }
      }
      r := r + str[copyBegin..i.value];
      r := r + withThis;
      copyBegin := i.value + |replaceThis|;
      if copyBegin < |str| { i := Find(str, replaceThis, copyBegin); } else { i := None; }
      rounds := rounds + 1;
    }
    if replaceThis != "" { ReplaceStep(str, replaceThis, withThis, copyBegin); }
    if copyBegin < |str| { r := r + str[copyBegin..]; }
    replaced := true;
  }

  lemma RoundsStart(s: string, p: string, w: string)
    ensures Rounds(s, p, w, 0) == Loop(Next(s, p, 0), 0, "")
  {
  }

  lemma RoundIs(s: string, p: string, w: string, n: nat)
    requires Rounds(s, p, w, n).found.Some?
    ensures var l := Rounds(s, p, w, n);
            l.copyBegin <= l.found.value && l.found.value + |p| <= |s| && Rounds(s, p, w, n + 1) == Round(s, p, w, l)
  {
  }

  lemma EmptyOccurs(s: string, p: string)
    ensures p == "" ==> Next(s, p, 0) != None
  {
    assert p == "" ==> OccursAt(s, p, 0);
  }

  lemma ReplaceStep(s: string, p: string, w: string, i: nat)
    requires i <= |s| && p != ""
    ensures var n := Next(s, p, i);
            if n.None? then Replaced(s, p, w, i) == s[i..]
            else i <= n.value && n.value + |p| <= |s| && Replaced(s, p, w, i) == s[i..n.value] + w + Replaced(s, p, w, n.value + |p|)
  {
  }

  lemma Regroup(a: string, b: string, c: string, d: string)
    ensures a + (b + c + d) == a + b + c + d
  {
  }

  lemma InsideOf(s: string, p: string, i: nat)
    requires OccursAt(s, p, i)
    ensures i + |p| <= |s|
  {
  }

  lemma NothingLeft(s: string, p: string, i: nat)
    requires i >= |s| && p != ""
    ensures Next(s, p, i) == None
  {
  }

  lemma {:induction false} NextFrom(s: string, p: string, i: nat, k: nat)
    requires k <= i && k <= |s|
    ensures Next(s, p, i) == match Next(s[k..], p, i - k) case None => None case Some(n) => Some(k + n)
    decreases |s| - i
  {
    hide OccursAt;
    if i + |p| <= |s| {
      Occurs(s, p, i);
      Occurs(s[k..], p, i - k);
      assert s[i..i + |p|] == s[k..][i - k..i - k + |p|];
      if !OccursAt(s, p, i) { NextFrom(s, p, i + 1, k); }
    }
  }

  lemma {:induction false} ReplacedFrom(s: string, p: string, w: string, i: nat, k: nat)
    requires k <= i <= |s| && p != ""
    ensures Replaced(s, p, w, i) == Replaced(s[k..], p, w, i - k)
    decreases |s| - i
  {
    hide OccursAt, Next, Replaced;
    NextFrom(s, p, i, k);
    ReplaceStep(s, p, w, i);
    ReplaceStep(s[k..], p, w, i - k);
    var n := Next(s, p, i);
    if n.Some? {
      ReplacedFrom(s, p, w, n.value + |p|, k);
      assert s[i..n.value] == s[k..][i - k..n.value - k];
    } else {
      assert s[i..] == s[k..][i - k..];
    }
  }

  /** The first occurrence gives way to the replacement, and what is behind all of it is treated in the same way. */
  lemma FirstReplaced(x: string, p: string, y: string, w: string)
    requires p != "" && forall j :: 0 <= j < |x| ==> !OccursAt(x + p + y, p, j)
    ensures Replaced(x + p + y, p, w, 0) == x + w + Replaced(y, p, w, 0)
  {
    hide OccursAt, Next, Replaced;
    var s := x + p + y;
    Occurs(s, p, |x|);
    assert s[|x|..|x| + |p|] == p;
    assert Next(s, p, 0) == Some(|x|);
    ReplaceStep(s, p, w, 0);
    ReplacedFrom(s, p, w, |x| + |p|, |x| + |p|);
    assert s[0..|x|] == x && s[|x| + |p|..] == y;
  }

  /** A text without the pattern stays as it is. */
  lemma NothingToReplace(s: string, p: string, w: string)
    requires p != "" && forall j: nat :: !OccursAt(s, p, j)
    ensures Replaced(s, p, w, 0) == s
  {
    hide OccursAt;
    assert Next(s, p, 0) == None;
    assert s[0..] == s;
  }

  // ----- One character -----

  /** A character for character replacement. */
  function Mapped(s: string, f: char -> string): string {
    if s == "" then "" else f(s[0]) + Mapped(s[1..], f)
  }

  function Instead(c: char, w: string): char -> string {
    x => if x == c then w else [x]
  }

  /** Where the pattern does not occur, one character is passed over. */
  lemma PassOver(s: string, p: string, w: string, i: nat)
    requires i < |s| && p != "" && !OccursAt(s, p, i)
    ensures Replaced(s, p, w, i) == [s[i]] + Replaced(s, p, w, i + 1)
  {
    hide OccursAt;
    NextMovesOn(s, p, i);
    var n := Next(s, p, i + 1);
    if n.Some? {
      InsideOf(s, p, n.value);
      assert s[i..n.value] == [s[i]] + s[i + 1..n.value];
    } else {
      assert s[i..] == [s[i]] + s[i + 1..];
    }
  }

  lemma NextMovesOn(s: string, p: string, i: nat)
    requires !OccursAt(s, p, i)
    ensures Next(s, p, i) == Next(s, p, i + 1)
  {
  }

  lemma ReplaceHere(s: string, p: string, w: string, i: nat)
    requires p != "" && OccursAt(s, p, i)
    ensures i + |p| <= |s| && Replaced(s, p, w, i) == w + Replaced(s, p, w, i + |p|)
  {
    hide OccursAt, Next;
    NextIsHere(s, p, i);
    InsideOf(s, p, i);
    assert s[i..i] == "";
    assert "" + w == w;
  }

  lemma NextIsHere(s: string, p: string, i: nat)
    requires OccursAt(s, p, i)
    ensures Next(s, p, i) == Some(i)
  {
  }

  lemma {:induction false} ReplacedByCharacter(s: string, c: char, w: string, i: nat)
    requires i <= |s|
    ensures Replaced(s, [c], w, i) == Mapped(s[i..], Instead(c, w))
    decreases |s| - i
  {
    hide OccursAt, Next, Replaced;
    if i < |s| {
      assert s[i..i + 1] == [s[i]];
      Occurs(s, [c], i);
      ReplacedByCharacter(s, c, w, i + 1);
      assert s[i..][0] == s[i] && s[i..][1..] == s[i + 1..];
      if s[i] == c { ReplaceHere(s, [c], w, i); } else { PassOver(s, [c], w, i); }
    } else {
      NothingReplaced(s, [c], w);
    }
  }

  lemma NothingReplaced(s: string, p: string, w: string)
    requires p != ""
    ensures Replaced(s, p, w, |s|) == ""
  {
  }

  lemma {:induction false} MappedAppend(a: string, b: string, f: char -> string)
    ensures Mapped(a + b, f) == Mapped(a, f) + Mapped(b, f)
    decreases |a|
  {
    if a == "" {
      assert a + b == b;
    } else {
      assert (a + b)[0] == a[0] && (a + b)[1..] == a[1..] + b;
      MappedAppend(a[1..], b, f);
    }
  }

  /** Two passes are one, whose images are the second pass over the images of the first. */
  lemma {:induction false} MappedTwice(s: string, f: char -> string, g: char -> string, h: char -> string)
    requires forall c :: h(c) == Mapped(f(c), g)
    ensures Mapped(Mapped(s, f), g) == Mapped(s, h)
    decreases |s|
  {
    if s != "" {
      MappedTwice(s[1..], f, g, h);
      MappedAppend(f(s[0]), Mapped(s[1..], f), g);
    }
  }

  // ----- Service messages -----

  predicate IsSpecial(c: char) {
    c == '|' || c == '\'' || c == '\n' || c == '\r' || c == '[' || c == ']'
  }

  /** What a character becomes, with so many of the six passes made. */
  function EscapedBy(passes: nat, c: char): string {
    if c == '|' && passes >= 1 then "||"
    else if c == '\'' && passes >= 2 then "|'"
    else if c == '\n' && passes >= 3 then "|n"
    else if c == '\r' && passes >= 4 then "|r"
    else if c == '[' && passes >= 5 then "|["
    else if c == ']' && passes >= 6 then "|]"
    else [c]
  }

  function Escaping(passes: nat): char -> string {
    c => EscapedBy(passes, c)
  }

  function Pattern(pass: nat): char
    requires 1 <= pass <= 6
  {
    "|'\n\r[]"[pass - 1]
  }

  lemma OnePass(pass: nat)
    requires 1 <= pass <= 6
    ensures forall c :: Escaping(pass)(c) == Mapped(Escaping(pass - 1)(c), Instead(Pattern(pass), EscapedBy(6, Pattern(pass))))
  {
    var f := Instead(Pattern(pass), EscapedBy(6, Pattern(pass)));
    forall c ensures Escaping(pass)(c) == Mapped(Escaping(pass - 1)(c), f) {
      var e := EscapedBy(pass - 1, c);
      assert Mapped(e[1..], f) == if |e| == 2 then f(e[1]) + Mapped(e[2..], f) else "";
    }
  }

  lemma {:induction false} NoPassYet(s: string)
    ensures Mapped(s, Escaping(0)) == s
    decreases |s|
  {
    if s != "" { NoPassYet(s[1..]); }
  }

  lemma PassMade(s: string, pass: nat)
    requires 1 <= pass <= 6
    ensures Replaced(Mapped(s, Escaping(pass - 1)), [Pattern(pass)], EscapedBy(6, Pattern(pass)), 0) == Mapped(s, Escaping(pass))
  {
    hide Replaced, Mapped;
    var before, f := Mapped(s, Escaping(pass - 1)), Instead(Pattern(pass), EscapedBy(6, Pattern(pass)));
    OnePass(pass);
    ReplacedByCharacter(before, Pattern(pass), EscapedBy(6, Pattern(pass)), 0);
    assert before[0..] == before;
    MappedTwice(s, Escaping(pass - 1), f, Escaping(pass));
  }

  lemma PatternsAre()
    ensures [Pattern(1)] == "|" && EscapedBy(6, Pattern(1)) == "||" && [Pattern(2)] == "'" && EscapedBy(6, Pattern(2)) == "|'"
    ensures [Pattern(3)] == "\n" && EscapedBy(6, Pattern(3)) == "|n" && [Pattern(4)] == "\r" && EscapedBy(6, Pattern(4)) == "|r"
    ensures [Pattern(5)] == "[" && EscapedBy(6, Pattern(5)) == "|[" && [Pattern(6)] == "]" && EscapedBy(6, Pattern(6)) == "|]"
  {
  }

  /** The six passes together are one replacement character by character. */
  method Escape(str: string) returns (escaped: string)
    ensures escaped == Mapped(str, Escaping(6))
  {
    hide Replaced, Mapped, OccursAt, Escaping, Pattern, EscapedBy;
    var found;
    PatternsAre();
    escaped := str;
    NoPassYet(str);
    PassMade(str, 1);
    escaped, found := ReplaceInPlace(escaped, "|", "||");
    PassMade(str, 2);
    escaped, found := ReplaceInPlace(escaped, "'", "|'");
    PassMade(str, 3);
    escaped, found := ReplaceInPlace(escaped, "\n", "|n");
    PassMade(str, 4);
    escaped, found := ReplaceInPlace(escaped, "\r", "|r");
    PassMade(str, 5);
    escaped, found := ReplaceInPlace(escaped, "[", "|[");
    PassMade(str, 6);
    escaped, found := ReplaceInPlace(escaped, "]", "|]");
  }

  /** A reader of service messages: a bar and what follows it stand for one character. */
  function Unescaped(s: string): string {
    if |s| >= 2 && s[0] == '|' then
      [if s[1] == 'n' then '\n' else if s[1] == 'r' then '\r' else s[1]] + Unescaped(s[2..])
    else if s == "" then ""
    else [s[0]] + Unescaped(s[1..])
  }

  /** No special character stands alone: each bar begins an escape, and all others come after one. */
  predicate WellEscaped(s: string) {
    s == "" ||
    (if s[0] == '|' then |s| >= 2 && s[1] in "|'nr[]" && WellEscaped(s[2..]) else !IsSpecial(s[0]) && WellEscaped(s[1..]))
  }

  lemma UndoTwo(a: char, b: char, rest: string)
    requires a == '|'
    ensures Unescaped([a, b] + rest) == [if b == 'n' then '\n' else if b == 'r' then '\r' else b] + Unescaped(rest)
    ensures WellEscaped([a, b] + rest) <==> b in "|'nr[]" && WellEscaped(rest)
  {
    var s := [a, b] + rest;
    assert s[0] == a && s[1] == b && s[2..] == rest;
  }

  lemma UndoOne(a: char, rest: string)
    requires a != '|'
    ensures Unescaped([a] + rest) == [a] + Unescaped(rest)
    ensures WellEscaped([a] + rest) <==> !IsSpecial(a) && WellEscaped(rest)
  {
    var s := [a] + rest;
    assert s[0] == a && s[1..] == rest;
  }

  lemma {:induction false} EscapeIsUndone(s: string)
    ensures Unescaped(Mapped(s, Escaping(6))) == s && WellEscaped(Mapped(s, Escaping(6)))
    decreases |s|
  {
    hide Unescaped, WellEscaped;
    if s == "" {
      UndoNothing();
    } else {
      EscapeIsUndone(s[1..]);
      var e, rest := EscapedBy(6, s[0]), Mapped(s[1..], Escaping(6));
      assert Mapped(s, Escaping(6)) == e + rest;
      if |e| == 2 {
        assert e == [e[0], e[1]];
        UndoTwo(e[0], e[1], rest);
      } else {
        UndoOne(s[0], rest);
      }
      assert s == [s[0]] + s[1..];
    }
  }

  lemma UndoNothing()
    ensures Unescaped("") == "" && WellEscaped("")
  {
  }

  /** Un-escaping undoes a pass over the bars alone, whatever the text. */
  lemma {:induction false} BarPassIsUndone(s: string)
    ensures Unescaped(Mapped(s, Instead('|', "||"))) == s
    decreases |s|
  {
    hide Unescaped, WellEscaped;
    if s == "" {
      UndoNothing();
    } else {
      BarPassIsUndone(s[1..]);
      var rest := Mapped(s[1..], Instead('|', "||"));
      if s[0] == '|' { UndoTwo('|', '|', rest); assert "||" == ['|', '|']; } else { UndoOne(s[0], rest); }
      assert s == [s[0]] + s[1..];
    }
  }

  lemma {:induction false} PassGrows(s: string, c: char)
    requires IsSpecial(c)
    ensures var m := Mapped(s, Instead(c, EscapedBy(6, c))); |m| >= |s| && (c in s ==> |m| > |s|) && (c !in s ==> m == s)
    decreases |s|
  {
    if s != "" { PassGrows(s[1..], c); }
  }

  /** The text after passes over some of the special characters. */
  function Passes(s: string, before: string): string
    decreases |before|
  {
    if before == "" then s else Passes(Replaced(s, [before[0]], EscapedBy(6, before[0]), 0), before[1..])
  }

  lemma {:induction false} PassesGrow(s: string, before: string)
    requires forall c :: c in before ==> IsSpecial(c)
    ensures |Passes(s, before)| >= |s| && (Passes(s, before) == s <==> forall c :: c in before ==> c !in s)
    decreases |before|
  {
    if before != "" {
      var c, more := before[0], before[1..];
      var t := Replaced(s, [c], EscapedBy(6, c), 0);
      ReplacedByCharacter(s, c, EscapedBy(6, c), 0);
      assert s[0..] == s;
      PassGrows(s, c);
      assert forall d :: d in before <==> d == c || d in more;
      PassesGrow(t, more);
      assert Passes(s, before) == Passes(t, more);
      hide Replaced, Mapped, IsSpecial, Passes;
    }
  }

  /** The bar has to be escaped first: un-escaping leaves in the text whatever passes came before that over the bar. */
  lemma BarMustGoFirst(s: string, before: string)
    requires forall c :: c in before ==> IsSpecial(c) && c != '|'
    ensures var wrong := Replaced(Passes(s, before), "|", "||", 0);
            Unescaped(wrong) == Passes(s, before) && (Unescaped(wrong) == s <==> forall c :: c in before ==> c !in s)
  {
    hide Replaced, Mapped, Passes, Unescaped;
    ReplacedByCharacter(Passes(s, before), '|', "||", 0);
    assert Passes(s, before)[0..] == Passes(s, before);
    BarPassIsUndone(Passes(s, before));
    PassesGrow(s, before);
  }
}
