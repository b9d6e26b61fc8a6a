/** A string that is walked over its visible characters, in both directions. */
module AnsiString {
  import opened Sequences
  import opened AnsiText

  function Spots(s: string): seq<nat> {
    Visible(s, 0, SENTINEL)
  }

  /** The position of visible character k, and the end for the number of visible characters. */
  function At(s: string, k: nat): (r: nat)
    requires k <= |Spots(s)|
  {
    if k < |Spots(s)| then Spots(s)[k] else |s|
  }

  lemma {:induction false} VisibleAreInside(s: string, i: nat, final: char, k: nat)
    requires i <= |s| && k < |Visible(s, i, final)|
    ensures i <= Visible(s, i, final)[k] < |s|
    ensures Skip(s, Visible(s, i, final)[k] + 1, final) ==
            if k + 1 < |Visible(s, i, final)| then Visible(s, i, final)[k + 1] else |s|
    ensures k == 0 ==> Visible(s, i, final)[k] == Skip(s, i, final)
    decreases |s| - i, k
  {
    hide Skip, Lead;
    var v := Skip(s, i, final);
    assert Visible(s, i, final) == [v] + Visible(s, v + 1, final);
    if k > 0 {
      VisibleAreInside(s, v + 1, final, k - 1);
    } else if |Visible(s, v + 1, final)| > 0 {
      VisibleAreInside(s, v + 1, final, 0);
    }
  }

  lemma AtInside(s: string, k: nat)
    requires k <= |Spots(s)|
    ensures At(s, k) <= |s| && (At(s, k) == |s| <==> k == |Spots(s)|)
    ensures At(s, 0) == Skip(s, 0, SENTINEL)
  {
    hide Skip, Lead;
    if k < |Spots(s)| { VisibleAreInside(s, 0, SENTINEL, k); }
    if |Spots(s)| > 0 { VisibleAreInside(s, 0, SENTINEL, 0); }
  }

  /** Advancing goes from each visible character to the next one, and from the last one to the end. */
  lemma AdvanceFollowsVisible(s: string, k: nat)
    requires k < |Spots(s)|
    ensures At(s, k) < |s| && Skip(s, At(s, k) + 1, SENTINEL) == At(s, k + 1) && At(s, k) < At(s, k + 1)
  {
    hide Skip, Lead, Visible;
    VisibleAreInside(s, 0, SENTINEL, k);
  }

  lemma {:induction false} AtIncreases(s: string, i: nat, j: nat)
    requires i <= j <= |Spots(s)|
    ensures At(s, i) <= At(s, j) && (At(s, i) == At(s, j) <==> i == j)
    decreases j - i
  {
    hide Spots, At;
    if i < j {
      AdvanceFollowsVisible(s, i);
      AtIncreases(s, i + 1, j);
    }
  }

  /** No visible character is a sentinel. */
  ghost predicate Clean(s: string) {
    forall k :: 0 <= k < |Spots(s)| ==> At(s, k) < |s| && s[At(s, k)] != SENTINEL
  }

  lemma {:induction false} MarkedVisibleStay(t: string, i: nat, k: nat)
    requires i <= |t| && Genuine(t) && Aligned(t, i) && k < |Visible(t, i, 'm')|
    ensures Visible(t, i, 'm')[k] < |t| && Marked(t)[Visible(t, i, 'm')[k]] == t[Visible(t, i, 'm')[k]]
    decreases k
  {
    hide Lead, Marked, Skip, Aligned, Genuine;
    MarkedSkip(t, i);
    var v := Skip(t, i, 'm');
    assert Visible(t, i, 'm') == [v] + Visible(t, v + 1, 'm');
    if k > 0 { MarkedVisibleStay(t, v + 1, k - 1); }
  }

  /** Marking leaves the visible characters of genuine text where they are and as they are. */
  lemma GenuineSpots(t: string)
    requires Genuine(t)
    ensures Spots(Marked(t)) == Visible(t, 0, 'm')
    ensures forall k :: 0 <= k < |Spots(Marked(t))| ==> At(Marked(t), k) < |t| && Marked(t)[At(Marked(t), k)] == t[At(Marked(t), k)]
  {
    hide Lead, Marked, Skip, Visible, Genuine;
    FromStart(t);
    MarkedVisible(t, 0);
    forall k | 0 <= k < |Spots(Marked(t))|
      ensures At(Marked(t), k) < |t| && Marked(t)[At(Marked(t), k)] == t[At(Marked(t), k)]
    {
      MarkedVisibleStay(t, 0, k);
    }
  }

  /** Plain text is walkable in both directions once it is marked. */
  lemma PlainTextIsClean(t: string)
    requires Plain(t)
    ensures Spots(Marked(t)) == Visible(t, 0, 'm') && Clean(Marked(t))
    ensures forall k :: 0 <= k < |Spots(Marked(t))| ==> At(Marked(t), k) < |t| && Marked(t)[At(Marked(t), k)] == t[At(Marked(t), k)]
  {
    hide Lead, Marked, Skip, Visible, Genuine, Spots, At;
    PlainIsGenuine(t);
    GenuineSpots(t);
  }

  lemma FromStart(t: string)
    ensures Aligned(t, 0)
  {
    assert t[0..] == t && Marked(t)[0..] == Marked(t);
  }

  /** Going back undoes advancing, exactly if the visible character to go back to is not itself a sentinel. */
  lemma UnadvanceUndoesAdvance(s: string, k: nat)
    requires k < |Spots(s)|
    ensures 0 < At(s, k + 1) <= |s| && At(s, k) < |s|
    ensures Backable(s, At(s, k + 1) - 1) && Back(s, At(s, k + 1) - 1) == At(s, k) <==> s[At(s, k)] != SENTINEL
  {
    hide Skip, Lead, Visible, Spots, At;
    AdvanceFollowsVisible(s, k);
    AtInside(s, k + 1);
    if s[At(s, k)] != SENTINEL {
      assert Backable(s, At(s, k)) && Back(s, At(s, k)) == At(s, k);
      BackOverSkip(s, At(s, k) + 1);
    }
  }

  /** The position after n steps from the beginning. */
  function Walk(s: string, n: nat): (r: nat)
    ensures r <= |s|
  {
    if n == 0 then Skip(s, 0, SENTINEL)
    else
      var p := Walk(s, n - 1);
      if p < |s| then Skip(s, p + 1, SENTINEL) else p
  }

  /** The end is reached after as many steps as there are visible characters, and no sooner. */
  lemma {:induction false} WalkReachesEnd(s: string, n: nat)
    requires n <= |Spots(s)|
    ensures Walk(s, n) == At(s, n)
    ensures Walk(s, n) == |s| <==> n == |Spots(s)|
  {
    hide Skip, Lead, Visible, Spots, At;
    AtInside(s, n);
    if n > 0 {
      WalkReachesEnd(s, n - 1);
      AdvanceFollowsVisible(s, n - 1);
    }
  }

  // ----- The string -----

  /** The scan both loops of the source make: the length of the sequence at a position, or 0. */
  method ScanSequence(s: string, it: nat, final: char) returns (k: nat)
    requires it <= |s|
    ensures k == Lead(s[it..], final)
  {
    k := 0;
    if it != |s| && s[it] == ESC && it + 1 != |s| && s[it + 1] == '[' {
      var cursor := it + 2;
      while cursor != |s| && IsParameter(s[cursor])
        invariant it + 2 <= cursor <= |s|
        invariant forall i :: it + 2 <= i < cursor ==> IsParameter(s[i])
        decreases |s| - cursor
      {
        cursor := cursor + 1;
      }
      DropTwice(s, it, 2);
      ParametersAre(s[it..][2..], cursor - it - 2);
      if cursor != |s| && s[cursor] == final { k := cursor + 1 - it; }
    }
  }

  /** How far the marking has come: everything before it is marked, everything from it on is as it was. */
  ghost predicate MarkedUpTo(chars: string, text: string, it: nat)
    requires it <= |text|
  {
    chars == Marked(text)[..it] + text[it..] && Aligned(text, it)
  }

  lemma MarkingStarts(text: string)
    ensures MarkedUpTo(text, text, 0)
  {
    FromStart(text);
  }

  lemma MarkingEnds(chars: string, text: string)
    requires MarkedUpTo(chars, text, |text|)
    ensures chars == Marked(text)
  {
    TakeAll(Marked(text));
  }

  lemma PlaceMark(m: string, text: string, it: nat, k: nat)
    requires |m| == |text| && it + k <= |text| && k > 0
    requires m[it..] == text[it..][..k - 1] + [SENTINEL] + m[it..][k..]
    ensures (m[..it] + text[it..])[it + k - 1 := SENTINEL] == m[..it + k] + text[it + k..]
  {
    var a, b := (m[..it] + text[it..])[it + k - 1 := SENTINEL], m[..it + k] + text[it + k..];
    forall i | 0 <= i < |a| ensures a[i] == b[i] {
      if it <= i < it + k { assert m[i] == m[it..][i - it]; }
    }
  }

  lemma MarkingStep(chars: string, text: string, it: nat)
    requires it <= |text| && MarkedUpTo(chars, text, it)
    ensures chars[it..] == text[it..]
    ensures var k := Lead(text[it..], 'm');
            if k > 0 then
              it + k - 1 < |chars| && MarkedUpTo(chars[it + k - 1 := SENTINEL], text, it + k)
            else it < |text| ==> MarkedUpTo(chars, text, it + 1)
  {
    hide Lead, Marked, Aligned;
    var m := Marked(text);
    RestAsItWas(m, text, it);
    if it < |text| {
      var k := Lead(text[it..], 'm');
      AlignedIs(text, it);
      MarkedAfterLead(text[it..]);
      MarkedSplit(text[it..]);
      AlignedAfter(text, it, if k == 0 then 1 else k);
      if k > 0 { PlaceMark(m, text, it, k); } else { KeepOne(m, text, it); }
    }
  }

  lemma RestAsItWas(m: string, text: string, it: nat)
    requires it <= |text| == |m|
    ensures (m[..it] + text[it..])[it..] == text[it..]
  {
  }

  lemma KeepOne(m: string, text: string, it: nat)
    requires it < |text| == |m| && m[it] == text[it..][0]
    ensures m[..it] + text[it..] == m[..it + 1] + text[it + 1..]
  {
  }

  /** How many visible characters there are, from a position on. */
  ghost function Remaining(text: string, it: nat): nat
    requires it <= |text|
  {
    |Visible(text, it, 'm')|
  }

  lemma RemainingStep(text: string, it: nat)
    requires it <= |text|
    ensures var k := Lead(text[it..], 'm');
            Remaining(text, it) ==
              if k > 0 then Remaining(text, it + k) else if it < |text| then 1 + Remaining(text, it + 1) else 0
  {
    hide Lead, Skip;
    SkipStep(text, it, 'm');
    var k := Lead(text[it..], 'm');
    if k > 0 {
      assert Visible(text, it, 'm') == Visible(text, it + k, 'm');
    }
  }

  class AnsiSkippingString {
    ghost const text: string
    var chars: string
    var size: nat

    ghost predicate Valid()
      reads this
    {
      chars == Marked(text) && size == |Visible(text, 0, 'm')|
    }

    constructor (t: string)
      ensures Valid() && text == t
    {
      text := t;
      chars := t;
      size := 0;
      new;
      PreprocessString();
    }

    method PreprocessString()
      requires chars == text && size == 0
      modifies this
      ensures Valid()
    {
      hide Lead, Marked, MarkedUpTo, Remaining;
      var it := 0;
      MarkingStarts(text);
      while it != |chars|
        invariant it <= |chars| == |text| && MarkedUpTo(chars, text, it)
        invariant size + Remaining(text, it) == Remaining(text, 0)
        decreases |text| - it
      {
        ghost var start := it;
        MarkingStep(chars, text, it);
        RemainingStep(text, it);
        var k := ScanSequence(chars, it, 'm');
        while k != 0
          invariant start <= it <= |chars| == |text| && MarkedUpTo(chars, text, it)
          invariant size + Remaining(text, it) == Remaining(text, 0)
          invariant k == Lead(text[it..], 'm')
          invariant k == 0 ==> (start == it < |text| || start < it)
          decreases |text| - it
        {
          MarkingStep(chars, text, it);
          RemainingStep(text, it);
          chars := chars[it + k - 1 := SENTINEL];
          it := it + k;
          MarkingStep(chars, text, it);
          k := ScanSequence(chars, it, 'm');
        }
        MarkingStep(chars, text, it);
        RemainingStep(text, it);
        if it != |chars| {
          size := size + 1;
          it := it + 1;
        }
      }
      MarkingEnds(chars, text);
      RemainingStep(text, it);
      NothingLeads(text);
      RemainingIs(text);
    }

    method TryParseAnsiEscapes(from: nat) returns (it: nat)
      requires from <= |chars|
      ensures it == Skip(chars, from, SENTINEL)
    {
      hide Lead, Skip;
      it := from;
      var k := ScanSequence(chars, it, SENTINEL);
      SkipStep(chars, it, SENTINEL);
      while k != 0
        invariant it <= |chars| && k == Lead(chars[it..], SENTINEL)
        invariant Skip(chars, it, SENTINEL) == Skip(chars, from, SENTINEL)
        invariant k == 0 ==> Skip(chars, it, SENTINEL) == it
        decreases |chars| - it
      {
        SkipStep(chars, it, SENTINEL);
        it := it + k;
        k := ScanSequence(chars, it, SENTINEL);
        SkipStep(chars, it, SENTINEL);
      }
    }

    method Begin() returns (it: nat)
      ensures it == At(chars, 0) <= |chars|
    {
      hide Lead, Skip, Visible;
      it := TryParseAnsiEscapes(0);
      AtInside(chars, 0);
    }

    method End() returns (it: nat)
      ensures it == At(chars, |Spots(chars)|) == |chars|
    {
      it := |chars|;
    }

    /** From a visible character to the one after it; the ghost parameter is its number. */
    method Advance(it: nat, ghost k: nat) returns (r: nat)
      requires k < |Spots(chars)| && it == At(chars, k)
      ensures r == At(chars, k + 1) && it < r <= |chars|
    {
      hide Lead, Skip, Visible;
      AdvanceFollowsVisible(chars, k);
      r := TryParseAnsiEscapes(it + 1);
    }

    /** Back over marked sequences; the assertions are that none of them stands at the very beginning. */
    method Unadvance(it: nat) returns (r: nat)
      requires 0 < it <= |chars| && Backable(chars, it - 1)
      ensures r == Back(chars, it - 1)
    {
      r := it - 1;
      while chars[r] == SENTINEL
        invariant r < |chars| && Backable(chars, r) && Back(chars, r) == Back(chars, it - 1)
        decreases r
      {
        ghost var j := r;
        while chars[r] != ESC
          invariant r <= j && chars[j] == SENTINEL && LastEscape(chars, j) <= r
          decreases r
        {
          assert r != 0;
          r := r - 1;
        }
        assert r == LastEscape(chars, j) && r != 0;
        r := r - 1;
      }
    }

    /** From a visible character to the one before it, which is not a sentinel; the ghost parameter is its number. */
    method OneBefore(it: nat, ghost k: nat) returns (r: nat)
      requires 0 < k <= |Spots(chars)| && it == At(chars, k)
      requires At(chars, k - 1) < |chars| && chars[At(chars, k - 1)] != SENTINEL
      ensures r == At(chars, k - 1) && r < it
    {
      hide Lead, Skip, Visible, At, Spots, Back, Backable;
      UnadvanceUndoesAdvance(chars, k - 1);
      AdvanceFollowsVisible(chars, k - 1);
      r := Unadvance(it);
    }

    /** The text between two positions, with the marks undone; from the very start if it is from the first visible. */
    method Substring(from: nat, to: nat) returns (r: string)
      requires Valid() && from <= to <= |chars|
      ensures var start := if from == At(chars, 0) then 0 else from;
              start <= to && r == Unmarked(chars[start..to]) && (Plain(text) ==> r == text[start..to])
    {
      hide Lead, Skip, Visible, At, Marked, Unmarked, Plain;
      var begin := Begin();
      var start := if from == begin then 0 else from;
      r := Unmarked(chars[start..to]);
      UnmarkMarked(text);
      UnmarkSlice(chars, start, to);
    }
  }

  lemma NothingLeads(text: string)
    ensures Lead(text[|text|..], 'm') == 0
  {
  }

  lemma RemainingIs(text: string)
    ensures Remaining(text, 0) == |Visible(text, 0, 'm')|
  {
  }

  lemma UnmarkSlice(s: string, i: nat, j: nat)
    requires i <= j <= |s|
    ensures Unmarked(s[i..j]) == Unmarked(s)[i..j]
  {
  }
}
