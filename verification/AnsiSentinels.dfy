/** What sentinels in the text do to its size and to going back in it. */
module AnsiSentinels {
  import opened Sequences
  import opened AnsiText
  import opened AnsiString

  /** Inside a sequence there is no escape character, so no other sequence begins in it. */
  lemma InsideSequence(s: string, final: char, j: nat, other: char)
    requires final != ESC && 0 < j < Lead(s, final)
    ensures s[j] != ESC && Lead(s[j..], other) == 0
    ensures s[j] == SENTINEL ==> final == SENTINEL && j == Lead(s, final) - 1
  {
    var k := Lead(s, final);
    if 2 <= j < k - 1 { assert s[2..][j - 2] == s[j] && IsParameter(s[2..][j - 2]); }
    assert s[j..][0] == s[j];
  }

  /** A text does not begin both a true sequence and one that ends with a sentinel. */
  lemma OneFinal(s: string)
    ensures Lead(s, 'm') > 0 ==> Lead(s, SENTINEL) == 0
  {
  }

  lemma NoneAtEnd(t: string)
    ensures Lead(t[|t|..], 'm') == 0 && Lead(t[|t|..], SENTINEL) == 0
  {
  }

  ghost predicate NothingLeads(t: string, i: nat, n: nat)
    requires i + n <= |t|
  {
    forall p :: i <= p < i + n ==> Lead(t[p..], 'm') == 0
  }

  /** Where no sequence begins, every character is visible. */
  lemma {:induction false} AllVisible(t: string, i: nat, n: nat)
    requires i + n <= |t| && NothingLeads(t, i, n) && Aligned(t, i)
    ensures |Visible(t, i, 'm')| == n + |Visible(t, i + n, 'm')| && Aligned(t, i + n)
    decreases n
  {
    hide Lead, Marked, Aligned;
    if n > 0 {
      AlignedStep(t, i);
      SkipStep(t, i, 'm');
      AllVisible(t, i + 1, n - 1);
    }
  }

  /** In what looks like a sequence no true one begins. */
  lemma FakeIsBare(t: string, i: nat)
    requires i <= |t| && Lead(t[i..], 'm') == 0
    ensures var f := Lead(t[i..], SENTINEL); i + f <= |t| && NothingLeads(t, i, f)
  {
    hide Lead;
    var f := Lead(t[i..], SENTINEL);
    forall p | i <= p < i + f ensures Lead(t[p..], 'm') == 0 {
      if p > i {
        InsideSequence(t[i..], SENTINEL, p - i, 'm');
        DropTwice(t, i, p - i);
      }
    }
  }

  // ----- The size -----

  ghost predicate GenuineFrom(t: string, i: nat) {
    forall j :: i <= j <= |t| ==> Lead(t[j..], SENTINEL) == 0
  }

  lemma GenuineOver(t: string, i: nat)
    requires i < |t|
    ensures var k := Lead(t[i..], 'm');
            i + k <= |t| &&
            if k > 0 then GenuineFrom(t, i) <==> GenuineFrom(t, i + k)
            else GenuineFrom(t, i) <==> Lead(t[i..], SENTINEL) == 0 && GenuineFrom(t, i + 1)
  {
    hide Lead;
    var k := Lead(t[i..], 'm');
    if k > 0 {
      forall j | i <= j < i + k ensures Lead(t[j..], SENTINEL) == 0 {
        if j == i { OneFinal(t[i..]); } else {
          InsideSequence(t[i..], 'm', j - i, SENTINEL);
          DropTwice(t, i, j - i);
        }
      }
    }
  }

  /** One step of the scan over the marked text, against the text itself. */
  lemma ScanBoth(t: string, i: nat)
    requires i < |t| && Aligned(t, i)
    ensures var k, f, m := Lead(t[i..], 'm'), Lead(t[i..], SENTINEL), Marked(t);
            var n := if k > 0 then k else if f > 0 then f else 1;
            i < i + n <= |t| && Aligned(t, i + n) && (k > 0 ==> f == 0) &&
            |Visible(t, i, 'm')| == |Visible(t, i + n, 'm')| + (if k > 0 then 0 else n) &&
            Visible(m, i, SENTINEL) == (if k > 0 || f > 0 then [] else [i]) + Visible(m, i + n, SENTINEL)
  {
    hide Lead, Marked, Aligned, Skip;
    var k, f, m := Lead(t[i..], 'm'), Lead(t[i..], SENTINEL), Marked(t);
    OneFinal(t[i..]);
    AlignedStep(t, i);
    SkipStep(t, i, 'm');
    SkipStep(m, i, SENTINEL);
    if k == 0 {
      FakeIsBare(t, i);
      AllVisible(t, i, if f > 0 then f else 1);
    }
    if k > 0 || f > 0 { SameSkip(m, i, if k > 0 then k else f); }
    if k > 0 { SameSkipText(t, i, k); }
  }

  lemma SameSkip(m: string, i: nat, n: nat)
    requires i + n <= |m| && Skip(m, i, SENTINEL) == Skip(m, i + n, SENTINEL)
    ensures Visible(m, i, SENTINEL) == Visible(m, i + n, SENTINEL)
  {
    hide Skip;
  }

  lemma SameSkipText(t: string, i: nat, n: nat)
    requires i + n <= |t| && Skip(t, i, 'm') == Skip(t, i + n, 'm')
    ensures Visible(t, i, 'm') == Visible(t, i + n, 'm')
  {
    hide Skip;
  }

  lemma {:induction false} SpotsShrink(t: string, i: nat)
    requires i <= |t| && Aligned(t, i)
    ensures |Visible(Marked(t), i, SENTINEL)| <= |Visible(t, i, 'm')|
    ensures |Visible(Marked(t), i, SENTINEL)| == |Visible(t, i, 'm')| <==> GenuineFrom(t, i)
    decreases |t| - i
  {
    hide Lead, Marked, Aligned, Skip, Visible, GenuineFrom;
    if i == |t| {
      NothingVisible(t);
    } else {
      var k, f := Lead(t[i..], 'm'), Lead(t[i..], SENTINEL);
      var n := if k > 0 then k else if f > 0 then f else 1;
      ScanBoth(t, i);
      GenuineOver(t, i);
      SpotsShrink(t, i + n);
    }
  }

  lemma NothingVisible(t: string)
    ensures Visible(t, |t|, 'm') == [] && Visible(Marked(t), |t|, SENTINEL) == [] && GenuineFrom(t, |t|)
  {
    NoneAtEnd(t);
    NoneAtEnd(Marked(t));
  }

  /** The recorded size is the number of steps from the beginning to the end exactly if nothing in the text looks
      like a sequence that ends with a sentinel; otherwise it is too large. */
  lemma SizeIsRightExactlyIfGenuine(t: string)
    ensures |Spots(Marked(t))| <= |Visible(t, 0, 'm')|
    ensures |Spots(Marked(t))| == |Visible(t, 0, 'm')| <==> Genuine(t)
  {
    hide Lead, Marked, Visible;
    FromStart(t);
    SpotsShrink(t, 0);
  }

  /** The shortest text for which the size is wrong: three characters are counted, and none is met. */
  lemma SentinelInTextMiscounts()
    ensures var t := "\U{1B}[\U{FF}"; |Visible(t, 0, 'm')| == 3 && |Spots(Marked(t))| == 0
  {
    hide Marked;
    var t := "\U{1B}[\U{FF}";
    assert t[2..] == [SENTINEL] && Parameters(t[2..]) == 0;
    assert t[0..] == t && t[1..][0] == '[' && t[2..][0] == SENTINEL;
    assert Lead(t[0..], 'm') == 0 && Lead(t[1..], 'm') == 0 && Lead(t[2..], 'm') == 0;
    FromStart(t);
    AllVisible(t, 0, 3);
    ScanBoth(t, 0);
    NothingVisible(t);
  }

  // ----- Going back -----

  /** The character at j ends what looks like a sequence. */
  ghost predicate EndsFake(t: string, j: nat)
    requires j < |t|
  {
    exists i :: 0 <= i <= j && Lead(t[i..], SENTINEL) == j + 1 - i
  }

  /** A sentinel of the text that does not end a sequence is visible in the marked text. */
  lemma {:induction false} LoneSentinelIsVisible(t: string, i: nat, j: nat)
    requires i <= j < |t| && Aligned(t, i) && t[j] == SENTINEL && !EndsFake(t, j)
    ensures j in Visible(Marked(t), i, SENTINEL)
    decreases |t| - i
  {
    hide Lead, Marked, Aligned, Skip, Visible;
    var k, f := Lead(t[i..], 'm'), Lead(t[i..], SENTINEL);
    var n := if k > 0 then k else if f > 0 then f else 1;
    ScanBoth(t, i);
    LoneOutside(t, i, j);
    if i + n <= j { LoneSentinelIsVisible(t, i + n, j); }
  }

  lemma LoneOutside(t: string, i: nat, j: nat)
    requires i <= j < |t| && t[j] == SENTINEL && !EndsFake(t, j)
    ensures i + Lead(t[i..], 'm') <= j && i + Lead(t[i..], SENTINEL) <= j
  {
    hide Lead;
    assert t[i..][j - i] == SENTINEL;
    if j < i + Lead(t[i..], 'm') { SentinelInLead(t[i..], 'm', j - i); }
    if j < i + Lead(t[i..], SENTINEL) { SentinelInLead(t[i..], SENTINEL, j - i); }
  }

  lemma SentinelInLead(s: string, final: char, j: nat)
    requires (final == 'm' || final == SENTINEL) && j < Lead(s, final) && s[j] == SENTINEL
    ensures final == SENTINEL && j == Lead(s, final) - 1
  {
    hide Lead;
    LeadBegins(s, final);
    if j > 0 { InsideSequence(s, final, j, 'm'); }
  }

  lemma LeadBegins(s: string, final: char)
    requires Lead(s, final) > 0
    ensures s[0] == ESC && s[Lead(s, final) - 1] == final
  {
  }

  /** A sequence is not jumped over from before it. */
  lemma NotJumped(s: string, p: nat, i: nat, final: char)
    requires final != ESC && p < i <= |s| && Lead(s[i..], SENTINEL) > 0
    ensures p + Lead(s[p..], final) <= i
  {
    hide Lead;
    DropTwice(s, p, i - p);
    if i < p + Lead(s[p..], final) { InsideSequence(s[p..], final, i - p, SENTINEL); }
  }

  /** No character of what looks like a sequence is visible in the marked text. */
  lemma {:induction false} FakesAreHidden(t: string, p: nat, i: nat)
    requires p <= i < |t| && Aligned(t, p) && Lead(t[i..], SENTINEL) > 0
    ensures var k := Lead(t[i..], SENTINEL); forall v :: v in Visible(Marked(t), p, SENTINEL) ==> !(i <= v < i + k)
    decreases |t| - p
  {
    hide Lead, Skip, Marked, Aligned, Visible;
    var k, f := Lead(t[p..], 'm'), Lead(t[p..], SENTINEL);
    var n := if k > 0 then k else if f > 0 then f else 1;
    ScanBoth(t, p);
    if p == i {
      VisibleFrom(Marked(t), p + n);
    } else {
      NotJumped(t, p, i, 'm');
      NotJumped(t, p, i, SENTINEL);
      FakesAreHidden(t, p + n, i);
    }
  }

  lemma VisibleFrom(s: string, p: nat)
    requires p <= |s|
    ensures forall v :: v in Visible(s, p, SENTINEL) ==> p <= v < |s|
  {
    hide Lead, Skip, Visible;
    forall v | v in Visible(s, p, SENTINEL) ensures p <= v < |s| {
      var k :| 0 <= k < |Visible(s, p, SENTINEL)| && Visible(s, p, SENTINEL)[k] == v;
      VisibleAreInside(s, p, SENTINEL, k);
    }
  }

  /** The visible characters of the marked text are not marked. */
  lemma {:induction false} VisibleAreUnmarked(t: string, p: nat)
    requires p <= |t| && Aligned(t, p)
    ensures forall v :: v in Visible(Marked(t), p, SENTINEL) ==> v < |t| && Marked(t)[v] == t[v]
    decreases |t| - p
  {
    hide Lead, Skip, Marked, Aligned, Visible;
    if p == |t| {
      NothingVisible(t);
    } else {
      var k, f := Lead(t[p..], 'm'), Lead(t[p..], SENTINEL);
      ScanBoth(t, p);
      AlignedStep(t, p);
      VisibleAreUnmarked(t, p + if k > 0 then k else if f > 0 then f else 1);
    }
  }

  /** Going back from behind visible character k leads to it. */
  ghost predicate LeadsBack(s: string, k: nat)
    requires k < |Spots(s)|
  {
    0 < At(s, k + 1) <= |s| && Backable(s, At(s, k + 1) - 1) && Back(s, At(s, k + 1) - 1) == At(s, k)
  }

  /** Going back undoes advancing from everywhere in the marked text, without failing an assertion, exactly if every
      sentinel of the text ends what looks like a sequence. */
  lemma GoesBackExactlyIfNoLoneSentinel(t: string)
    ensures (forall k :: 0 <= k < |Spots(Marked(t))| ==> LeadsBack(Marked(t), k)) <==>
            (forall j :: 0 <= j < |t| && t[j] == SENTINEL ==> EndsFake(t, j))
  {
    hide Lead, Skip, Marked, Aligned, Visible, At, Backable, Back, EndsFake;
    var m := Marked(t);
    LoneAreVisible(t);
    forall k | 0 <= k < |Spots(m)| ensures At(m, k) in Spots(m) && (LeadsBack(m, k) <==> t[At(m, k)] != SENTINEL) {
      UnadvanceUndoesAdvance(m, k);
      AtIsSpot(m, k);
    }
    forall j | j in Spots(m) ensures exists k :: 0 <= k < |Spots(m)| && At(m, k) == j {
      var k :| 0 <= k < |Spots(m)| && Spots(m)[k] == j;
      AtIsSpot(m, k);
    }
  }

  lemma AtIsSpot(s: string, k: nat)
    requires k < |Spots(s)|
    ensures At(s, k) == Spots(s)[k] && At(s, k) in Spots(s)
  {
    hide Visible;
  }

  lemma FakeEndIsHidden(t: string, j: nat)
    requires j < |t| && EndsFake(t, j)
    ensures j !in Spots(Marked(t))
  {
    hide Lead, Skip, Marked, Visible;
    var i :| 0 <= i <= j && Lead(t[i..], SENTINEL) == j + 1 - i;
    FromStart(t);
    FakesAreHidden(t, 0, i);
  }

  /** Marking leaves every visible position walkable in both directions exactly if every sentinel of the text ends what
      looks like a sequence. */
  lemma CleanExactlyIfNoLoneSentinel(t: string)
    ensures Clean(Marked(t)) <==> forall j :: 0 <= j < |t| && t[j] == SENTINEL ==> EndsFake(t, j)
  {
    hide Lead, Skip, Marked, Aligned, Visible, At, Backable, Back, EndsFake;
    GoesBackExactlyIfNoLoneSentinel(t);
    forall k | 0 <= k < |Spots(Marked(t))|
      ensures At(Marked(t), k) < |Marked(t)| && (LeadsBack(Marked(t), k) <==> Marked(t)[At(Marked(t), k)] != SENTINEL)
    {
      UnadvanceUndoesAdvance(Marked(t), k);
    }
  }

  /** No assertion fails in going back over visible character k. */
  ghost predicate WayBack(s: string, k: nat)
    requires k < |Spots(s)|
  {
    0 < At(s, k + 1) <= |s| && Backable(s, At(s, k + 1) - 1)
  }

  /** In a marked text, going back fails an assertion somewhere exactly if some sentinel of the text ends nothing, and
      every escape character before it stands at the very beginning or right behind a sentinel of the marked text.
      Behind any other sentinel that ends nothing, it comes to the wrong character. */
  lemma AssertionFailsExactlyIf(t: string)
    ensures (exists k :: 0 <= k < |Spots(Marked(t))| && !WayBack(Marked(t), k)) <==>
            (exists j :: 0 <= j < |t| && t[j] == SENTINEL && !EndsFake(t, j) && !Anchored(Marked(t), j))
  {
    hide Lead, Skip, Marked, Aligned, Visible, At, Backable, EndsFake, Anchored, Spots;
    var m := Marked(t);
    FromStart(t);
    LoneAreVisible(t);
    forall k | 0 <= k < |Spots(m)|
      ensures At(m, k) < |t| && At(m, k) in Spots(m) && m[At(m, k)] == t[At(m, k)]
      ensures !WayBack(m, k) <==> t[At(m, k)] == SENTINEL && !Anchored(m, At(m, k))
    {
      AtIsSpot(m, k);
      AdvanceFollowsVisible(m, k);
      BackableOverSkip(m, At(m, k) + 1);
      BackableExactlyIfAnchored(m, At(m, k));
    }
    forall j | j in Spots(m) ensures exists k :: 0 <= k < |Spots(m)| && At(m, k) == j {
      var k :| 0 <= k < |Spots(m)| && Spots(m)[k] == j;
      AtIsSpot(m, k);
    }
  }

  /** The sentinels of the text that end nothing are those visible in the marked text, which are not marked. */
  lemma LoneAreVisible(t: string)
    ensures forall v :: v in Spots(Marked(t)) ==> v < |t| && Marked(t)[v] == t[v]
    ensures forall j :: 0 <= j < |t| && t[j] == SENTINEL ==> (EndsFake(t, j) <==> j !in Spots(Marked(t)))
  {
    hide Lead, Skip, Marked, Aligned, Visible, EndsFake;
    FromStart(t);
    VisibleAreUnmarked(t, 0);
    forall j | 0 <= j < |t| && t[j] == SENTINEL ensures EndsFake(t, j) <==> j !in Spots(Marked(t)) {
      if EndsFake(t, j) { FakeEndIsHidden(t, j); } else { LoneSentinelIsVisible(t, 0, j); }
    }
  }

  /** From the end of a text that is one sentinel, going back fails the assertion that there is an escape before it. */
  lemma LoneSentinelBlocksTheWayBack()
    ensures var t := [SENTINEL]; |Spots(Marked(t))| == 1 && !Backable(Marked(t), 0)
  {
    var t := [SENTINEL];
    assert t[0..] == t && t[1..] == "";
    assert Marked(t) == [SENTINEL] + Marked("");
    FromStart(t);
    ScanBoth(t, 0);
    NothingVisible(t);
  }

  const MISLEADING: string := ['a', ESC, 'x', SENTINEL]

  /** In this text no assertion can fail, but from its end going back leads over three visible characters to the first. */
  lemma LoneSentinelMisleads()
    ensures var m := Marked(MISLEADING);
            Spots(m) == [0, 1, 2, 3] && (forall k :: 0 <= k < 4 ==> WayBack(m, k)) && WayBack(m, 3) &&
            Back(m, At(m, 4) - 1) == 0
  {
    hide Lead, Skip, Visible, Marked, Backable, Spots, Back;
    var m := Marked(MISLEADING);
    MisleadingIsBare();
    NothingMarked(MISLEADING);
    MisleadingSpots();
    forall k | 0 <= k < 4 ensures WayBack(m, k) {
      BackableExactlyIfAnchored(m, k);
      assert m[1] == ESC && m[0] != SENTINEL;
    }
    StepBack(m);
  }

  lemma MisleadingIsBare()
    ensures forall i :: 0 <= i < 4 ==> Lead(MISLEADING[i..], 'm') == 0 && Lead(MISLEADING[i..], SENTINEL) == 0
  {
    var t := MISLEADING;
    forall i | 0 <= i < 4 ensures Lead(t[i..], 'm') == 0 && Lead(t[i..], SENTINEL) == 0 {
      assert t[i..][0] == t[i] && (i < 3 ==> t[i..][1] == t[i + 1]);
    }
  }

  lemma MisleadingSpots()
    ensures Spots(Marked(MISLEADING)) == [0, 1, 2, 3]
  {
    hide Lead, Skip, Visible, Marked, Aligned;
    MisleadingIsBare();
    var t := MISLEADING;
    FromStart(t);
    ScanBoth(t, 0);
    ScanBoth(t, 1);
    ScanBoth(t, 2);
    ScanBoth(t, 3);
    NothingVisible(t);
    assert [0] + ([1] + ([2] + ([3] + []))) == [0, 1, 2, 3];
  }

  lemma StepBack(m: string)
    requires |m| == 4 && m[0] == 'a' && m[1] == ESC && m[2] == 'x' && m[3] == SENTINEL
    ensures Backable(m, 3) && Back(m, 3) == 0
  {
    assert LastEscape(m, 3) == 1;
    assert Backable(m, 0);
  }

  lemma {:induction false} NothingMarked(t: string)
    requires forall i :: 0 <= i < |t| ==> Lead(t[i..], 'm') == 0
    ensures Marked(t) == t
    decreases |t|
  {
    hide Lead;
    if t != "" {
      assert t[0..] == t;
      forall i | 0 <= i < |t[1..]| ensures Lead(t[1..][i..], 'm') == 0 { DropTwice(t, 1, i); }
      NothingMarked(t[1..]);
    }
  }
}
