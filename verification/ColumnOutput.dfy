/** What is seen of the lines of a column, escape sequences and all. */
module ColumnOutput {
  import opened Sequences
  import opened AnsiText
  import opened AnsiString
  import opened LineBreaks
  import opened TextColumn

  /** The visible characters of a text, sequences left out. */
  function Seen(t: string): (r: string)
    decreases |t|
  {
    if t == "" then ""
    else
      var k := Lead(t, 'm');
      if k > 0 then Seen(t[k..]) else [t[0]] + Seen(t[1..])
  }

  lemma SeenStep(t: string, i: nat)
    requires i < |t|
    ensures var k := Lead(t[i..], 'm');
            i + k <= |t| && Seen(t[i..]) == if k > 0 then Seen(t[i + k..]) else [t[i]] + Seen(t[i + 1..])
  {
    var k := Lead(t[i..], 'm');
    if k > 0 { DropTwice(t, i, k); } else { DropTwice(t, i, 1); }
  }

  /** A scan that starts at i comes to stand at b. */
  ghost predicate Stops(t: string, i: nat, b: nat)
    requires b <= |t|
    decreases |t| - i
  {
    i == b || (i < b && var k := Lead(t[i..], 'm'); Stops(t, if k > 0 then i + k else i + 1, b))
  }

  /** Cutting off a text behind a sequence, or anywhere behind none, does not change what it begins with. */
  lemma LeadOfCut(t: string, i: nat, b: nat)
    requires i < b <= |t| && var k := Lead(t[i..], 'm'); k > 0 ==> i + k <= b
    ensures Lead(t[i..b], 'm') == Lead(t[i..], 'm')
  {
    var s, u := t[i..], t[i..b];
    assert forall m :: 0 <= m < |u| ==> u[m] == s[m];
    var k := Lead(s, 'm');
    if |u| >= 2 && s[0] == ESC && s[1] == '[' {
      var n, m := Parameters(s[2..]), Parameters(u[2..]);
      assert forall q :: 0 <= q < m ==> u[2..][q] == s[2..][q];
      if k > 0 {
        assert forall q :: 0 <= q < n ==> u[2..][q] == s[2..][q];
        ParametersAre(u[2..], n);
      } else if m < |u[2..]| {
        assert u[2..][m] == s[2..][m];
        ParametersAre(s[2..], m);
      }
    }
  }

  lemma {:induction false} StopsInside(t: string, i: nat, b: nat)
    requires b <= |t| && Stops(t, i, b)
    ensures i <= b
    ensures i < b ==> var k := Lead(t[i..], 'm'); var n := if k > 0 then i + k else i + 1; n <= b && Stops(t, n, b)
    decreases |t| - i
  {
    hide Lead;
    if i < b {
      var k := Lead(t[i..], 'm');
      StopsInside(t, if k > 0 then i + k else i + 1, b);
    }
  }

  /** What is seen of a text is what is seen before a place where the scan stops, and behind it. */
  lemma {:induction false} SeenAcrossStop(t: string, i: nat, b: nat)
    requires b <= |t| && Stops(t, i, b)
    ensures i <= b && Seen(t[i..]) == Seen(t[i..b]) + Seen(t[b..])
    decreases |t| - i
  {
    hide Lead, Stops, Seen;
    StopsInside(t, i, b);
    if i == b {
      SeenEmpty(t[i..b]);
    } else {
      var k := Lead(t[i..], 'm');
      var n := if k > 0 then i + k else i + 1;
      SeenStep(t, i);
      SeenAcrossStop(t, n, b);
      SeenStepOfCut(t, i, b);
      if k == 0 { Regrouped([t[i]], Seen(t[n..b]), Seen(t[b..])); }
    }
  }

  lemma SeenStepOfCut(t: string, i: nat, b: nat)
    requires i < b <= |t| && var k := Lead(t[i..], 'm'); k > 0 ==> i + k <= b
    ensures var k := Lead(t[i..], 'm'); Seen(t[i..b]) == if k > 0 then Seen(t[i + k..b]) else [t[i]] + Seen(t[i + 1..b])
  {
    hide Lead, Seen;
    LeadOfCut(t, i, b);
    SeenStep(t[..b], i);
    var k := Lead(t[i..], 'm');
    var n := if k > 0 then i + k else i + 1;
    assert t[i..b] == t[..b][i..] && t[n..b] == t[..b][n..];
  }

  lemma SeenEmpty(s: string)
    requires s == ""
    ensures Seen(s) == ""
  {
  }

  lemma {:induction false} StopsTransitive(t: string, i: nat, m: nat, b: nat)
    requires m <= |t| && b <= |t| && Stops(t, i, m) && Stops(t, m, b)
    ensures Stops(t, i, b)
    decreases |t| - i
  {
    hide Lead;
    StopsInside(t, m, b);
    StopsInside(t, i, m);
    if i < m {
      var k := Lead(t[i..], 'm');
      StopsTransitive(t, if k > 0 then i + k else i + 1, m, b);
    }
  }

  lemma {:induction false} StopsAfterSkip(t: string, i: nat)
    requires i <= |t|
    ensures Stops(t, i, Skip(t, i, 'm'))
    ensures var v := Skip(t, i, 'm'); v < |t| ==> Lead(t[v..], 'm') == 0 && Stops(t, v, v + 1)
    decreases |t| - i
  {
    hide Lead;
    SkipStep(t, i, 'm');
    var k := Lead(t[i..], 'm');
    if k > 0 { StopsAfterSkip(t, i + k); }
  }

  /** The scan stops at every visible character; the characters seen are those. */
  lemma {:induction false} SeenIsVisible(t: string, i: nat)
    requires i <= |t|
    ensures var p := Visible(t, i, 'm');
            |Seen(t[i..])| == |p| && Stops(t, i, |t|) &&
            forall k :: 0 <= k < |p| ==> p[k] < |t| && Seen(t[i..])[k] == t[p[k]] && Stops(t, i, p[k])
    decreases |t| - i
  {
    hide Lead, Stops, Seen, Skip;
    var v := Skip(t, i, 'm');
    StopsAfterSkip(t, i);
    SeenAcrossStop(t, i, v);
    NothingSeen(t, i);
    if v == |t| {
      SeenEmpty(t[v..]);
    } else {
      SeenStep(t, v);
      SeenIsVisible(t, v + 1);
      var p, q := Visible(t, i, 'm'), Visible(t, v + 1, 'm');
      assert p == [v] + q;
      StopsTransitive(t, v, v + 1, |t|);
      StopsTransitive(t, i, v, |t|);
      forall k | 0 <= k < |p| ensures p[k] < |t| && Seen(t[i..])[k] == t[p[k]] && Stops(t, i, p[k]) {
        if k > 0 {
          assert p[k] == q[k - 1];
          StopsTransitive(t, v, v + 1, p[k]);
          StopsTransitive(t, i, v, p[k]);
        }
      }
    }
  }

  lemma {:induction false} NothingSeen(t: string, i: nat)
    requires i <= |t|
    ensures Seen(t[i..Skip(t, i, 'm')]) == ""
    decreases |t| - i
  {
    hide Lead, Seen;
    SkipStep(t, i, 'm');
    var v := Skip(t, i, 'm');
    if i == v {
      SeenEmpty(t[i..v]);
    } else {
      var k := Lead(t[i..], 'm');
      NothingSeen(t, i + k);
      StopsAfterSkip(t, i + k);
      LeadOfCut(t, i, v);
      assert t[i..v] == t[..v][i..] && t[i + k..v] == t[..v][i + k..];
      SeenStep(t[..v], i);
    }
  }

  lemma {:induction false} VisibleFrom(t: string, i: nat, k: nat)
    requires i <= |t| && k < |Visible(t, i, 'm')|
    ensures var p := Visible(t, i, 'm'); p[k] <= |t| && Visible(t, p[k], 'm') == p[k..]
    decreases k
  {
    hide Lead;
    var v := Skip(t, i, 'm');
    StopsAfterSkip(t, i);
    var q := Visible(t, v + 1, 'm');
    assert Visible(t, i, 'm') == [v] + q;
    if k == 0 {
      SkipStep(t, v, 'm');
      assert Visible(t, v, 'm') == [v] + q;
    } else {
      VisibleFrom(t, v + 1, k - 1);
      assert ([v] + q)[k..] == q[k - 1..];
    }
  }

  /** Where the part of the text that holds visible characters i up to j begins. */
  function Begins(marked: string, i: nat): nat
    requires i <= |Spots(marked)|
  {
    if i == 0 then 0 else At(marked, i)
  }

  /** From the beginning of any visible character on, the characters from that one on are seen. */
  lemma SeenFrom(g: Layout, i: nat)
    requires g.Ok() && Plain(g.text) && i <= |g.seen|
    ensures At(g.marked, i) <= |g.text| && Seen(g.text[At(g.marked, i)..]) == g.seen[i..]
    ensures Seen(g.text[0..]) == g.seen && Stops(g.text, 0, At(g.marked, i))
    ensures forall j :: i <= j <= |g.seen| ==> At(g.marked, j) <= |g.text| && Stops(g.text, At(g.marked, i), At(g.marked, j))
  {
    hide Lead, Stops, Seen, Skip, Visible, Marked, Clean;
    var t, p := g.text, Visible(g.text, 0, 'm');
    PlainTextIsClean(t);
    SeenIsVisible(t, 0);
    assert Seen(t[0..]) == g.seen;
    var a := At(g.marked, i);
    if i < |p| {
      VisibleFrom(t, 0, i);
      SeenIsVisible(t, a);
      SeenAcrossStop(t, 0, a);
      TailOf(Seen(t[0..]), Seen(t[0..a]), Seen(t[a..]), i);
    } else {
      SeenEmpty(t[a..]);
      StopsHere(t, a);
    }
  }

  lemma StopsHere(t: string, a: nat)
    requires a == |t|
    ensures Stops(t, a, a)
  {
  }

  lemma TailOf(s: string, a: string, b: string, i: nat)
    requires s == a + b && i <= |s| && |b| == |s| - i
    ensures b == s[i..]
  {
  }

  /** The text between two visible characters shows the characters between them. */
  lemma SeenBetween(g: Layout, i: nat, j: nat)
    requires g.Ok() && Plain(g.text) && i <= j <= |g.seen|
    ensures var from, to := Begins(g.marked, i), At(g.marked, j);
            from <= to <= |g.text| && Seen(g.text[from..to]) == g.seen[i..j]
  {
    hide Lead, Stops, Seen, Marked, Clean, At, VisibleText;
    SeenFrom(g, 0);
    SeenFrom(g, i);
    SeenFrom(g, j);
    var from, to := Begins(g.marked, i), At(g.marked, j);
    SeenAcrossStop(g.text, from, to);
    assert g.seen[i..] == g.seen[i..j] + g.seen[j..];
    assert g.seen[0..] == g.seen;
    HeadOf(Seen(g.text[from..to]), g.seen[i..j], g.seen[j..]);
  }

  lemma HeadOf(a: string, b: string, c: string)
    requires a + c == b + c
    ensures a == b
  {
    assert |a + c| == |a| + |c| && |b + c| == |b| + |c|;
    assert a == (a + c)[..|a|] && b == (b + c)[..|b|];
  }

  // ----- Sequences, as they are written -----

  /** Numbers between semicolons, any of them possibly missing. */
  function Joined(numbers: seq<string>): string {
    if numbers == [] then "" else if |numbers| == 1 then numbers[0] else numbers[0] + ";" + Joined(numbers[1..])
  }

  ghost predicate Numerals(numbers: seq<string>) {
    forall n, i :: n in numbers && 0 <= i < |n| ==> n[i] in "0123456789"
  }

  lemma {:induction false} JoinedAreParameters(numbers: seq<string>, i: nat)
    requires Numerals(numbers) && i < |Joined(numbers)|
    ensures IsParameter(Joined(numbers)[i])
    decreases |numbers|
  {
    var n, j := numbers[0], Joined(numbers);
    if i < |n| {
      assert j[i] == n[i] && n in numbers && n[i] in "0123456789";
    } else if i > |n| {
      JoinedAreParameters(numbers[1..], i - |n| - 1);
      assert j[i] == Joined(numbers[1..])[i - |n| - 1];
    }
  }

  lemma LeadOfJoined(numbers: seq<string>, c: char, s: string)
    requires Numerals(numbers) && c !in "0123456789;"
    ensures var t := "\U{1B}[" + Joined(numbers) + [c] + s;
            Lead(t, 'm') == if c == 'm' then 3 + |Joined(numbers)| else 0
  {
    hide Joined, Numerals;
    var t := "\U{1B}[" + Joined(numbers) + [c] + s;
    var n := |Joined(numbers)|;
    assert t[2..] == Joined(numbers) + ([c] + s);
    forall i | 0 <= i < n ensures IsParameter(t[2..][i]) {
      JoinedAreParameters(numbers, i);
    }
    assert t[2..][n] == c && !IsParameter(c);
    ParametersAre(t[2..], n);
  }

  /** ESC, '[', numbers between semicolons and 'm' are not seen, and what follows is. */
  lemma SequenceIsNotSeen(numbers: seq<string>, s: string)
    requires Numerals(numbers)
    ensures Seen("\U{1B}[" + Joined(numbers) + "m" + s) == Seen(s)
  {
    hide Joined, Numerals, Lead;
    LeadOfJoined(numbers, 'm', s);
    var t := "\U{1B}[" + Joined(numbers) + "m" + s;
    assert t[3 + |Joined(numbers)|..] == s;
  }

  /** With any other character in place of the 'm' all of it is seen. */
  lemma UnfinishedIsSeen(numbers: seq<string>, c: char, s: string)
    requires Numerals(numbers) && c !in "0123456789;m" && c != '\U{1B}'
    ensures var t := "\U{1B}[" + Joined(numbers) + [c]; Seen(t + s) == t + Seen(s)
  {
    hide Numerals, Lead, Joined, Seen;
    var t := "\U{1B}[" + Joined(numbers) + [c];
    LeadOfJoined(numbers, c, s);
    assert forall i :: 0 <= i < |Joined(numbers)| ==> Joined(numbers)[i] != '\U{1B}' by {
      forall i | 0 <= i < |Joined(numbers)| ensures Joined(numbers)[i] != '\U{1B}' { JoinedAreParameters(numbers, i); }
    }
    PlainIsSeen(t[1..], s);
    assert (t + s)[0..] == t + s && (t + s)[1..] == t[1..] + s;
    SeenStep(t + s, 0);
    assert t == [t[0]] + t[1..];
  }

  /** Text without ESC is seen as it is. */
  lemma {:induction false} PlainIsSeen(t: string, s: string)
    requires forall i :: 0 <= i < |t| ==> t[i] != '\U{1B}'
    ensures Seen(t + s) == t + Seen(s)
    decreases |t|
  {
    hide Seen;
    if t == "" {
      assert t + s == s && t + Seen(s) == Seen(s);
    } else {
      PlainIsSeen(t[1..], s);
      CharacterIsSeen(t[0], t[1..] + s);
      assert t + s == [t[0]] + (t[1..] + s);
      assert [t[0]] + (t[1..] + Seen(s)) == t + Seen(s);
    }
  }

  lemma CharacterIsSeen(c: char, s: string)
    requires c != '\U{1B}'
    ensures Seen([c] + s) == [c] + Seen(s)
  {
    assert ([c] + s)[1..] == s;
  }

  lemma SpacesAreSeen(n: nat, s: string)
    ensures Seen(Spaces(n) + s) == Spaces(n) + Seen(s)
  {
    hide Seen;
    PlainIsSeen(Spaces(n), s);
  }

  lemma LeadEndsSo(s: string, final: char)
    requires Lead(s, final) > 0
    ensures s[Lead(s, final) - 1] == final
  {
  }

  lemma {:induction false} StopsBeforeHyphen(t: string, i: nat)
    requires i < |t| && t[|t| - 1] == '-'
    ensures Stops(t, i, |t| - 1)
    decreases |t| - i
  {
    hide Lead;
    if i < |t| - 1 {
      var k := Lead(t[i..], 'm');
      if k > 0 { LeadEndsSo(t[i..], 'm'); }
      StopsBeforeHyphen(t, if k > 0 then i + k else i + 1);
    }
  }

  /** A hyphen at the end is seen, whatever it follows. */
  lemma HyphenIsSeen(s: string)
    ensures Seen(s + "-") == Seen(s) + "-"
  {
    hide Lead, Stops;
    var t := s + "-";
    StopsBeforeHyphen(t, 0);
    SeenAcrossStop(t, 0, |t| - 1);
    assert t[0..] == t && t[0..|t| - 1] == s && t[|t| - 1..] == "-";
    SeenStep(t, |t| - 1);
    assert t[|t|..] == "";
  }

  function Hyphen(l: Line): string {
    if l.hyphen then "-" else ""
  }

  /** What is seen of a line: its indentation, its characters and its hyphen.  Escape sequences take no room. */
  lemma SeenOfLine(g: Layout, l: Line)
    requires g.Ok() && Plain(g.text) && l.start <= l.end <= |g.seen|
    ensures Seen(g.Written(l)) == Spaces(g.width - Room(l.start, g.first, g.others)) + g.seen[l.start..l.end] + Hyphen(l)
  {
    hide Seen, At, VisibleText, Marked, Unmarked, Clean;
    SeenBetween(g, l.start, l.end);
    UnmarkMarked(g.text);
    var part := g.text[Begins(g.marked, l.start)..At(g.marked, l.end)];
    var n := g.width - Room(l.start, g.first, g.others);
    SpacesAreSeen(n, part + Hyphen(l));
    HyphenIsSeen(part);
    assert g.Written(l) == Spaces(n) + (part + Hyphen(l));
    assert part + "" == part;
  }

  /** Every line fits the width of the column, apart from a newline it may begin with. */
  lemma LinesFitWidth(g: Layout, p: nat)
    requires g.Ok() && Plain(g.text) && p < |g.seen|
    ensures |Seen(g.Written(g.Line(p)))| <= g.width + if g.seen[p] == '\n' then 1 else 0
  {
    hide Seen, At, VisibleText, Marked, Clean, LineAt, Layout.Written;
    SeenOfLine(g, g.Line(p));
    LineFits(g.seen, p, Room(p, g.first, g.others));
  }
}
