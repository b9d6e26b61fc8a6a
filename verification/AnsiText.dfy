/** Text with terminal escape sequences, walked one visible character at a time. */
module AnsiText {
  // A complete sequence is ESC, '[', digits and semicolons, and a final 'm'.  Once the text is marked, the
  // final 'm' of every complete sequence is replaced by a sentinel, so that sequences can also be
  // recognised backwards.

  import opened Sequences

  const ESC: char := '\U{1B}'
  const SENTINEL: char := '\U{FF}'

  predicate IsParameter(c: char) {
    ('0' <= c <= '9') || c == ';'
  }

  /** How many parameter characters the text begins with. */
  function Parameters(s: string): (r: nat)
    ensures r <= |s|
    ensures forall i :: 0 <= i < r ==> IsParameter(s[i])
    ensures r < |s| ==> !IsParameter(s[r])
  {
    if s == "" || !IsParameter(s[0]) then 0 else 1 + Parameters(s[1..])
  }

  /** The length of the complete sequence the text begins with, or 0. */
  function Lead(s: string, final: char): (r: nat)
    ensures r <= |s| && (r > 0 ==> r >= 3)
  {
    if |s| < 2 || s[0] != ESC || s[1] != '[' then 0
    else
      var n := Parameters(s[2..]);
      if 2 + n < |s| && s[2 + n] == final then 3 + n else 0
  }

  /** Where the next visible character is, from position i on. */
  function Skip(s: string, i: nat, final: char): (r: nat)
    requires i <= |s|
    ensures i <= r <= |s|
    decreases |s| - i
  {
    var k := Lead(s[i..], final);
    if k == 0 then i else Skip(s, i + k, final)
  }

  lemma SkipStep(s: string, i: nat, final: char)
    requires i <= |s|
    ensures var k := Lead(s[i..], final); Skip(s, i, final) == if k == 0 then i else Skip(s, i + k, final)
    ensures i == |s| ==> Lead(s[i..], final) == 0
  {
  }

  /** The text with the ends of its complete sequences marked. */
  function Marked(s: string): (r: string)
    ensures |r| == |s|
    decreases |s|
  {
    if s == "" then ""
    else
      var k := Lead(s, 'm');
      if k == 0 then [s[0]] + Marked(s[1..]) else s[..k - 1] + [SENTINEL] + Marked(s[k..])
  }

  /** The positions of the visible characters, from position i on. */
  function Visible(s: string, i: nat, final: char): (r: seq<nat>)
    requires i <= |s|
    decreases |s| - i
  {
    var v := Skip(s, i, final);
    if v == |s| then [] else [v] + Visible(s, v + 1, final)
  }

  ghost predicate Plain(s: string) {
    SENTINEL !in s
  }

  /** No position of the text begins what looks like a sequence but ends with the sentinel. */
  ghost predicate Genuine(t: string) {
    forall i :: 0 <= i <= |t| ==> Lead(t[i..], SENTINEL) == 0
  }

  lemma PlainIsGenuine(t: string)
    requires Plain(t)
    ensures Genuine(t)
  {
    forall i | 0 <= i <= |t| ensures Lead(t[i..], SENTINEL) == 0 {
      var s := t[i..];
      assert forall j :: 0 <= j < |s| ==> s[j] in t;
    }
  }

  function Unmarked(s: string): (r: string)
    ensures |r| == |s|
    ensures forall i :: 0 <= i < |s| ==> r[i] == if s[i] == SENTINEL then 'm' else s[i]
  {
    seq(|s|, i requires 0 <= i < |s| => if s[i] == SENTINEL then 'm' else s[i])
  }

  // ----- Marking keeps everything else -----

  lemma {:induction false} MarkedHead(s: string)
    requires s != ""
    ensures Marked(s)[0] == s[0]
  {
  }

  /** The parameter characters at the front, and the character after them, are not changed. */
  lemma {:induction false} MarkedParameters(s: string)
    ensures Parameters(Marked(s)) == Parameters(s)
    ensures Marked(s)[..Parameters(s)] == s[..Parameters(s)]
    ensures Parameters(s) < |s| ==> Marked(s)[Parameters(s)] == s[Parameters(s)]
    decreases |s|
  {
    if s != "" {
      MarkedHead(s);
      if IsParameter(s[0]) {
        MarkedParameters(s[1..]);
        var r := Marked(s);
        assert r == [s[0]] + Marked(s[1..]);
        assert r[1..] == Marked(s[1..]);
        var n := Parameters(s[1..]);
        assert r[..n + 1] == [s[0]] + Marked(s[1..])[..n] == s[..n + 1];
      }
    }
  }

  lemma ParametersAre(s: string, n: nat)
    requires n <= |s| && (forall i :: 0 <= i < n ==> IsParameter(s[i])) && (n < |s| ==> !IsParameter(s[n]))
    ensures Parameters(s) == n
  {
    var m := Parameters(s);
  }

  /** The marked text begins with a marked sequence where the text begins with a sequence, or with what looks
      like one because a sentinel stands at its end. */
  lemma {:induction false} MarkedLead(s: string)
    ensures Lead(Marked(s), SENTINEL) == if Lead(s, 'm') > 0 then Lead(s, 'm') else Lead(s, SENTINEL)
  {
    hide Marked, Lead, Parameters;
    LeadIs(s, 'm');
    LeadIs(s, SENTINEL);
    if Lead(s, 'm') > 0 {
      LeadOfMarked(s);
    } else if |s| >= 2 {
      FirstTwoMarked(s);
      LeadIs(Marked(s), SENTINEL);
      MarkedParameters(s[2..]);
    } else {
      LeadIs(Marked(s), SENTINEL);
    }
  }

  lemma LeadIs(s: string, final: char)
    ensures Lead(s, final) ==
            if |s| < 2 || s[0] != ESC || s[1] != '[' then 0
            else
              var n := Parameters(s[2..]);
              if 2 + n < |s| && s[2 + n] == final then 3 + n else 0
  {
  }

  lemma LeadOfMarked(s: string)
    requires Lead(s, 'm') > 0
    ensures Lead(Marked(s), SENTINEL) == Lead(s, 'm')
  {
    var k, r := Lead(s, 'm'), Marked(s);
    assert r == s[..k - 1] + [SENTINEL] + Marked(s[k..]);
    assert forall i :: 0 <= i < k - 3 ==> r[2..][i] == s[2..][i];
    ParametersAre(r[2..], k - 3);
  }

  /** The two characters before the parameters are not changed, and what comes after them is marked by itself
      where no sequence begins; only the first of them can begin one. */
  lemma FirstTwoMarked(s: string)
    requires |s| >= 2 && Lead(s, 'm') == 0
    ensures var r := Marked(s); r[0] == s[0] && r[1] == s[1] && (s[1] != ESC ==> r[2..] == Marked(s[2..]))
  {
    MarkedHead(s);
    MarkedHead(s[1..]);
    var r := Marked(s);
    assert r == [s[0]] + Marked(s[1..]);
    if s[1] != ESC {
      assert s[1..][1..] == s[2..];
      assert Marked(s[1..]) == [s[1]] + Marked(s[2..]);
    }
  }

  lemma {:induction false} MarkedAfterLead(s: string)
    requires s != ""
    ensures var k := Lead(s, 'm'); if k == 0 then Marked(s)[1..] == Marked(s[1..]) else Marked(s)[k..] == Marked(s[k..])
  {
  }

  /** Marking the rest of the text is the rest of the marked text: true wherever a scan stops. */
  ghost predicate Aligned(t: string, i: nat)
    requires i <= |t|
  {
    Marked(t)[i..] == Marked(t[i..])
  }

  lemma AlignedStep(t: string, i: nat)
    requires i < |t| && Aligned(t, i)
    ensures var k := Lead(t[i..], 'm');
            Lead(Marked(t)[i..], SENTINEL) == (if k > 0 then k else Lead(t[i..], SENTINEL)) &&
            if k == 0 then Aligned(t, i + 1) && Marked(t)[i] == t[i] else Aligned(t, i + k)
  {
    hide Lead, Marked, Aligned;
    var k := Lead(t[i..], 'm');
    MarkedLead(t[i..]);
    MarkedAfterLead(t[i..]);
    MarkedHead(t[i..]);
    AlignedIs(t, i);
    AlignedAfter(t, i, if k == 0 then 1 else k);
  }

  lemma AlignedIs(t: string, i: nat)
    requires i < |t| && Aligned(t, i)
    ensures Marked(t)[i..] == Marked(t[i..]) && Marked(t)[i] == Marked(t[i..])[0]
  {
    hide Marked;
    assert Marked(t)[i..][0] == Marked(t)[i];
  }

  lemma AlignedAfter(t: string, i: nat, n: nat)
    requires i + n <= |t| && Aligned(t, i) && Marked(t[i..])[n..] == Marked(t[i..][n..])
    ensures Aligned(t, i + n)
  {
    hide Marked;
    DropTwice(t, i, n);
    DropTwice(Marked(t), i, n);
  }

  lemma {:induction false} MarkedSkip(t: string, i: nat)
    requires i <= |t| && Genuine(t) && Aligned(t, i)
    ensures var v := Skip(t, i, 'm');
            Skip(Marked(t), i, SENTINEL) == v && Aligned(t, v) &&
            (v < |t| ==> Marked(t)[v] == t[v] && Aligned(t, v + 1))
    decreases |t| - i
  {
    hide Lead, Marked, Skip, Aligned;
    SkipStep(t, i, 'm');
    SkipStep(Marked(t), i, SENTINEL);
    if i < |t| {
      AlignedStep(t, i);
      var k := Lead(t[i..], 'm');
      if k > 0 { MarkedSkip(t, i + k); }
    }
  }

  /** The same characters are visible before and after marking. */
  lemma {:induction false} MarkedVisible(t: string, i: nat)
    requires i <= |t| && Genuine(t) && Aligned(t, i)
    ensures Visible(Marked(t), i, SENTINEL) == Visible(t, i, 'm')
    decreases |t| - i
  {
    hide Lead, Marked, Genuine, Skip, Aligned;
    MarkedSkip(t, i);
    var v := Skip(t, i, 'm');
    if v < |t| { MarkedVisible(t, v + 1); }
  }

  /** Undoing the marks gives the text back, exactly if the text has no sentinel of its own. */
  lemma {:induction false} UnmarkMarked(t: string)
    ensures Unmarked(Marked(t)) == t <==> Plain(t)
    decreases |t|
  {
    hide Marked, Lead, Unmarked, Plain;
    if t == "" {
      UnmarkEmpty();
    } else {
      var k := Lead(t, 'm');
      MarkedSplit(t);
      if k == 0 {
        UnmarkMarked(t[1..]);
        UnmarkOne(t[0]);
        assert t == [t[0]] + t[1..];
        UnmarkParts([t[0]], [t[0]], t[1..], t);
      } else {
        UnmarkMarked(t[k..]);
        LeadPlain(t, k);
        assert t == t[..k] + t[k..];
        UnmarkParts(t[..k - 1] + [SENTINEL], t[..k], t[k..], t);
      }
    }
  }

  lemma UnmarkEmpty()
    ensures Unmarked(Marked("")) == "" && Plain("")
  {
  }

  lemma UnmarkOne(c: char)
    ensures Unmarked([c]) == [c] <==> Plain([c])
  {
    assert Unmarked([c])[0] == if c == SENTINEL then 'm' else c;
  }

  lemma MarkedSplit(t: string)
    requires t != ""
    ensures var k := Lead(t, 'm');
            Marked(t) == if k == 0 then [t[0]] + Marked(t[1..]) else t[..k - 1] + [SENTINEL] + Marked(t[k..])
  {
  }

  lemma UnmarkParts(marked: string, head: string, rest: string, t: string)
    requires t == head + rest && |marked| == |head| && Marked(t) == marked + Marked(rest)
    requires Unmarked(Marked(rest)) == rest <==> Plain(rest)
    requires Unmarked(marked) == head <==> Plain(head)
    ensures Unmarked(Marked(t)) == t <==> Plain(t)
  {
    hide Marked, Unmarked, Plain;
    UnmarkAppend(marked, Marked(rest));
    var a, b := Unmarked(marked), Unmarked(Marked(rest));
    assert a + b == head + rest <==> a == head && b == rest by {
      if a + b == head + rest {
        assert a == (a + b)[..|a|] && b == (a + b)[|a|..];
        assert head == (head + rest)[..|head|] && rest == (head + rest)[|head|..];
      }
    }
    PlainAppend(head, rest);
  }

  lemma PlainAppend(a: string, b: string)
    ensures Plain(a + b) <==> Plain(a) && Plain(b)
  {
  }

  lemma UnmarkAppend(a: string, b: string)
    ensures Unmarked(a + b) == Unmarked(a) + Unmarked(b)
  {
  }

  lemma LeadPlain(t: string, k: nat)
    requires k == Lead(t, 'm') && k > 0
    ensures Plain(t[..k]) && t[k - 1] == 'm' && Unmarked(t[..k - 1] + [SENTINEL]) == t[..k]
  {
    forall i | 0 <= i < k ensures t[i] != SENTINEL {
      if 2 <= i < k - 1 { assert IsParameter(t[2..][i - 2]); }
    }
  }

  // ----- Going back -----

  /** The nearest escape character at or before j. */
  function LastEscape(s: string, j: nat): (r: nat)
    requires j < |s| && exists i :: 0 <= i <= j && s[i] == ESC
    ensures r <= j && s[r] == ESC && forall i :: r < i <= j ==> s[i] != ESC
  {
    if s[j] == ESC then j else LastEscape(s, j - 1)
  }

  /** Over marked sequences backwards, from position j; there is a visible character before them. */
  ghost predicate Backable(s: string, j: nat)
    requires j < |s|
    decreases j
  {
    s[j] == SENTINEL ==>
      (exists i :: 0 <= i <= j && s[i] == ESC) && LastEscape(s, j) > 0 && Backable(s, LastEscape(s, j) - 1)
  }

  function Back(s: string, j: nat): (r: nat)
    requires j < |s| && Backable(s, j)
    ensures r <= j && s[r] != SENTINEL
    decreases j
  {
    if s[j] == SENTINEL then Back(s, LastEscape(s, j) - 1) else j
  }

  /** From behind any number of sequences, going back leads to where they begin. */
  lemma {:induction false} BackOverSkip(s: string, i: nat)
    requires 0 < i <= |s| && Backable(s, i - 1)
    ensures var q := Skip(s, i, SENTINEL); Backable(s, q - 1) && Back(s, q - 1) == Back(s, i - 1)
    decreases |s| - i
  {
    hide Skip, Lead;
    SkipStep(s, i, SENTINEL);
    var k := Lead(s[i..], SENTINEL);
    if k > 0 {
      LeadBackwards(s, i, k);
      assert Backable(s, i + k - 1) && Back(s, i + k - 1) == Back(s, i - 1);
      BackOverSkip(s, i + k);
    }
  }

  /** Crossing sequences changes nothing about whether there is a way back. */
  lemma {:induction false} BackableOverSkip(s: string, i: nat)
    requires 0 < i <= |s|
    ensures 0 < Skip(s, i, SENTINEL) <= |s|
    ensures Backable(s, Skip(s, i, SENTINEL) - 1) <==> Backable(s, i - 1)
    decreases |s| - i
  {
    hide Skip, Lead;
    SkipStep(s, i, SENTINEL);
    var k := Lead(s[i..], SENTINEL);
    if k > 0 {
      LeadBackwards(s, i, k);
      assert Backable(s, i + k - 1) <==> Backable(s, i - 1);
      BackableOverSkip(s, i + k);
    }
  }

  /** There is an escape character up to position j that follows a character other than the sentinel. */
  ghost predicate Anchored(s: string, j: nat)
    requires j < |s|
  {
    exists e :: 0 < e <= j && s[e] == ESC && s[e - 1] != SENTINEL
  }

  /** From a sentinel there is a way back exactly if the walk from escape to escape meets one it can stop before. */
  lemma {:induction false} BackableExactlyIfAnchored(s: string, j: nat)
    requires j < |s|
    ensures Backable(s, j) <==> s[j] != SENTINEL || Anchored(s, j)
    decreases j
  {
    if s[j] == SENTINEL && exists i :: 0 <= i <= j && s[i] == ESC {
      var e := LastEscape(s, j);
      if e > 0 {
        BackableExactlyIfAnchored(s, e - 1);
        if s[e - 1] != SENTINEL { assert Anchored(s, j); }
      }
    }
  }

  lemma LeadBackwards(s: string, i: nat, k: nat)
    requires i < |s| && k == Lead(s[i..], SENTINEL) && k > 0
    ensures s[i + k - 1] == SENTINEL && s[i] == ESC && LastEscape(s, i + k - 1) == i
  {
    var r := s[i..];
    assert r[0] == s[i] && r[1] == s[i + 1] && s[i + k - 1] == r[k - 1] == SENTINEL;
    forall m | i < m <= i + k - 1 ensures s[m] != ESC {
      if i + 2 <= m < i + k - 1 { assert IsParameter(r[2..][m - i - 2]) && r[2..][m - i - 2] == s[m]; }
    }
  }
}
