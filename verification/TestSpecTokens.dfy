/** Which conditions, written alone, the parser reads back. */
module TestSpecTokens {
  import opened Sequences
  import opened TestSpecs
  import opened TestSpecRoundTrip

  /** The filters read from an argument that is one written condition, and whether it was accepted. */
  function Alone(t: Token): (seq<Filter>, bool) {
    var (s, ok) := Parse(INITIAL, Written(t));
    (AddFilter(s).filters, ok)
  }

  function IfAny(f: Filter): seq<Filter> {
    if IsEmpty(f) then [] else [f]
  }

  /** A condition is read back unless its text is empty, is taken for the command to exclude, or cannot begin a bare name. */
  lemma ReadBackExactlyIfProper(t: Token)
    ensures Alone(t) == ([Meaning(NO_FILTER, t)], true) <==> Proper(t)
  {
    hide Alone, Meaning, Reading, BeginsExclude, BeginsName;
    if Recognised(t) {
      RecognisedIsRead(t);
      ReadingIsMeaning(t);
    } else {
      UnrecognisedIsNotRead(t);
    }
  }

  /** A bare name that begins with a blank is not read back. */
  lemma LeadingBlankIsLost(excluded: bool)
    ensures Alone(Token(excluded, Name, " a")) != ([Meaning(NO_FILTER, Token(excluded, Name, " a"))], true)
  {
    assert " a"[0] == ' ' && ' ' in " ~\"";
    ReadBackExactlyIfProper(Token(excluded, Name, " a"));
    hide Alone, Meaning;
  }

  lemma AloneIs(t: Token, u: State)
    requires Run(Start(INITIAL), Written(t)) == (u, true) && Valid(u) && EndMode(u).filters == []
    ensures Alone(t) == (IfAny(EndMode(u).currentFilter), true)
  {
    hide Run, Written, EndMode;
    var f := EndMode(u).currentFilter;
    assert [] + [f] == [f];
  }

  lemma RecognisedIsRead(t: Token)
    requires Recognised(t)
    ensures Alone(t) == (IfAny(Reading(NO_FILTER, t)), true)
  {
    var u := RunWritten(Start(INITIAL), t);
    AloneIs(t, u);
    hide *;
  }

  // ----- Texts that come back shorter -----

  function TextOf(p: Pattern): string {
    match p
    case NamePattern(name, _) => name
    case TagPattern(tag, _) => tag
  }

  /** All patterns of the filter are shorter than n. */
  ghost predicate Shorter(f: Filter, n: nat) {
    (forall p :: p in f.required ==> |TextOf(p)| < n) && (forall p :: p in f.forbidden ==> |TextOf(p)| < n)
  }

  lemma ExtendedShorter(f: Filter, excluded: bool, kind: Kind, token: string, written: string, n: nat)
    requires Shorter(f, n) && |token| < n
    ensures Shorter(Extended(f, excluded, PatternsOf(kind, token, written)), n)
  {
  }

  lemma NotShorter(t: Token)
    requires t.text != "" && (t.kind == Name || t.text[0] != '.')
    ensures !Shorter(Meaning(NO_FILTER, t), |t.text|)
  {
    var f := Meaning(NO_FILTER, t);
    var p := if t.kind == Tag then TagPattern(t.text, Written(t)) else NamePattern(t.text, Written(t));
    assert p in if t.excluded then f.forbidden else f.required by { hide Written; }
  }

  lemma ReadingIsMeaning(t: Token)
    ensures IfAny(Reading(NO_FILTER, t)) == [Meaning(NO_FILTER, t)] <==> t.text != "" && !BeginsExclude(t.text)
  {
    hide Written;
    if BeginsExclude(t.text) {
      assert t.text[..8][0] == 'e';
      ExtendedShorter(NO_FILTER, true, t.kind, t.text[8..], Written(t), |t.text|);
      NotShorter(t);
    }
  }

  // ----- Bare names that cannot begin -----

  lemma {:induction false} UnescapedLength(token: string, escapes: seq<nat>, i: nat)
    requires Removable(|token|, escapes, i)
    ensures |Unescaped(token, escapes, i)| == |token| - (|escapes| - i)
    decreases |escapes| - i
  {
    if i < |escapes| {
      UnescapedLength(token[..escapes[i] - i] + token[escapes[i] - i + 1..], escapes, i + 1);
    }
  }

  /** Outside tags, with fewer than n characters of text in the pattern and in all patterns before it. */
  ghost predicate Behind(s: State, n: nat) {
    n > 0 && Valid(s) && (s.mode == None || s.mode == Name || s.mode == QuotedName) &&
    |s.patternName| < |s.escapeChars| + n && Shorter(s.currentFilter, n) && s.filters == []
  }

  lemma EndBehind(s: State, n: nat)
    requires Behind(s, n)
    ensures Behind(EndMode(s), n)
  {
    if s.mode != None {
      UnescapedLength(s.patternName, s.escapeChars, 0);
      var (token, excluded) := Preprocessed(s);
      ExtendedShorter(s.currentFilter, excluded, Name, token, s.substring, n);
      NameAdded(s.currentFilter, excluded, Name, token, s.substring);
      hide Unescaped, Shorter, WithName, Extended, PatternsOf;
    }
  }

  lemma OneMore(f: Filter, n: nat)
    requires Shorter(f, n)
    ensures Shorter(f, n + 1)
  {
  }

  lemma EscapeBehind(s: State, c: char, n: nat) returns (t: State)
    requires Behind(s, n)
    ensures Run(s, ['\\', c]) == (t, true) && Behind(t, n + 1) && t.mode == s.mode && t.currentFilter == s.currentFilter
  {
    var u := Visit(s, '\\').0;
    t := Visit(u, c).0;
    RunTwo(s, '\\', c);
    OneMore(s.currentFilter, n);
    hide Run, Shorter, Unescaped;
  }

  /** A blank, a tilde or a quote before a name does not join it. */
  lemma PlainBehind(s: State, c: char, n: nat) returns (t: State)
    requires Behind(s, n) && !Special(Name, c)
    ensures Run(s, [c]) == (t, true) && Behind(t, n + 1) && (s.mode == None && c in " ~\"" ==> Behind(t, n))
  {
    t := Visit(s, c).0;
    RunOne(s, c);
    OneMore(s.currentFilter, n);
    if s.mode == QuotedName && c == '"' {
      EndBehind(s.(substring := s.substring + [c]), n);
      OneMore(t.currentFilter, n);
    }
    hide Run, Shorter, EndMode;
  }

  lemma {:induction false} TextBehind(s: State, text: string, n: nat) returns (t: State)
    requires Behind(s, n)
    ensures Run(s, Escaped(Name, text)) == (t, true) && Behind(t, n + |text|)
    decreases |text|
  {
    if text == "" {
      t := s;
    } else {
      var u := UnitBehind(s, text[0], n);
      t := TextBehind(u, text[1..], n + 1);
      hide Run, Shorter, Visit, Valid, Unit;
      RunAppend(s, Unit(Name, text[0]), Escaped(Name, text[1..]));
    }
  }

  lemma UnitBehind(s: State, c: char, n: nat) returns (t: State)
    requires Behind(s, n)
    ensures Run(s, Unit(Name, c)) == (t, true) && Behind(t, n + 1)
    ensures if Special(Name, c) then t.mode == s.mode && t.currentFilter == s.currentFilter
            else s.mode == None && c in " ~\"" ==> Behind(t, n)
  {
    hide Run, Behind, Special;
    if Special(Name, c) { t := EscapeBehind(s, c, n); } else { t := PlainBehind(s, c, n); }
  }

  lemma {:induction false} NameLost(s: State, text: string, n: nat) returns (t: State)
    requires Behind(s, n) && s.mode == None && s.currentFilter == NO_FILTER && !BeginsName(text)
    ensures Run(s, Escaped(Name, text)) == (t, true) && Valid(t) && EndMode(t).filters == []
    ensures Shorter(EndMode(t).currentFilter, n + |text| - 1)
    decreases |text|
  {
    if text == "" {
      t := s;
    } else {
      var c, rest := text[0], text[1..];
      var u := UnitBehind(s, c, n);
      if Special(Name, c) {
        t := NameLost(u, rest, n + 1);
      } else {
        t := TextBehind(u, rest, n);
        EndBehind(t, n + |rest|);
      }
      assert Escaped(Name, text) == Unit(Name, c) + Escaped(Name, rest);
      hide Run, Shorter, Visit, Unit, Escaped, EndMode, BeginsName;
      RunAppend(s, Unit(Name, c), Escaped(Name, rest));
    }
  }

  lemma UnrecognisedIsNotRead(t: Token)
    requires !Recognised(t)
    ensures Alone(t) != ([Meaning(NO_FILTER, t)], true)
  {
    hide Run, Alone, Meaning, BeginsName, Shorter;
    var s := Start(INITIAL);
    var a := TildeBehind(s, t.excluded);
    var u := NameLost(a, t.text, 1);
    RunAppend(s, Tilde(t.excluded), Escaped(Name, t.text));
    NameIsWritten(t);
    AloneIs(t, u);
    if t.text == "" { NothingMeant(t, EndMode(u).currentFilter); } else { NotShorter(t); }
    hide *;
  }

  lemma TildeBehind(s: State, excluded: bool) returns (t: State)
    requires s == Start(INITIAL)
    ensures Run(s, Tilde(excluded)) == (t, true) && Behind(t, 1) && t.mode == None && t.currentFilter == NO_FILTER
  {
    t := RunTilde(s, excluded);
    hide Run;
  }

  lemma NameIsWritten(t: Token)
    requires t.kind == Name
    ensures Written(t) == Tilde(t.excluded) + Escaped(Name, t.text)
  {
    var w := Tilde(t.excluded) + Escaped(Name, t.text);
    assert Tilde(t.excluded) + "" == Tilde(t.excluded) && w + "" == w;
  }

  lemma NothingMeant(t: Token, f: Filter)
    requires t.text == ""
    ensures IfAny(f) != [Meaning(NO_FILTER, t)]
  {
    hide Written;
  }

  // ----- The word that excludes a tag -----

  lemma {:induction false} PlainThenEscaped(kind: Kind, plain: string, text: string, from: nat)
    requires forall i :: 0 <= i < |plain| ==> !Special(kind, plain[i])
    ensures Escaped(kind, plain + text) == plain + Escaped(kind, text)
    ensures Positions(kind, plain + text, from) == Positions(kind, text, from + |plain|)
    decreases |plain|
  {
    hide Escaped, Positions, Special;
    if plain == "" {
      assert plain + text == text && plain + Escaped(kind, text) == Escaped(kind, text);
    } else {
      var c, rest := plain[0], plain[1..];
      assert plain == [c] + rest && plain + text == [c] + (rest + text);
      PlainThenEscaped(kind, rest, text, from + 1);
      PositionsStep(kind, plain + text, from);
      Regrouped([c], rest, Escaped(kind, text));
      assert [] + Positions(kind, rest + text, from + 1) == Positions(kind, rest + text, from + 1);
    }
  }

  /** The word before the tag is read as the beginning of a name, until the bracket comes. */
  lemma ReadsExclude(s: State) returns (a: State)
    requires Clean(s)
    ensures Valid(s) && Reads(s, "exclude:", [], a, Name)
  {
    hide Run, Escaped, Positions, Reads, Visit, Special;
    CleanIsValid(s);
    forall i | 0 <= i < 8 ensures !Special(Name, "exclude:"[i]) { NotSpecial("exclude:"[i]); }
    PlainThenEscaped(Name, "exclude:", "", 0);
    NothingLeft();
    a := ReadsName(s, "exclude:");
  }

  lemma NotSpecial(c: char)
    requires c in "exclude:"
    ensures !Special(Name, c)
  {
  }

  lemma NothingLeft()
    ensures "exclude:" + "" == "exclude:" && Escaped(Name, "") == "" && Positions(Name, "", 8) == [] && BeginsName("exclude:")
  {
    assert !Special(Name, 'e') && "exclude:"[0] == 'e' && 'e' !in " ~\"";
  }

  lemma BracketAfterExclude(a: State)
    requires Inside(a, Name) && a.substring == "exclude:"
    ensures var b := a.(mode := Tag, exclusion := true, substring := "exclude:["); Run(a, "[") == (b, true) && Inside(b, Tag)
  {
    RunOne(a, '[');
    assert "exclude:" + "[" == "exclude:[";
    hide Run;
  }

  /** All of the argument but the closing bracket has been read. */
  lemma ReadsExcludedTag(text: string) returns (c: State)
    ensures var body := "exclude:[" + Escaped(Tag, text);
            Run(Start(INITIAL), body) == (c, true) && c.substring == body && c.filters == []
    ensures AllRead(c, NO_FILTER, Token(true, Tag, "exclude:" + text))
  {
    hide Run, Escaped, Positions, Visit;
    var s := Start(INITIAL);
    var a := ReadsExclude(s);
    assert "" + "exclude:" == "exclude:";
    BracketAfterExclude(a);
    RunAppend(s, "exclude:", "[");
    assert "exclude:" + "[" == "exclude:[";
    var b := a.(mode := Tag, exclusion := true, substring := "exclude:[");
    c := ReadsEscaped(b, Tag, text);
    RunAppend(s, "exclude:[", Escaped(Tag, text));
    forall i | 0 <= i < 8 ensures !Special(Tag, "exclude:"[i]) { NotSpecialInTag("exclude:"[i]); }
    PlainThenEscaped(Tag, "exclude:", text, 0);
    assert [] + Positions(Tag, text, 8) == Positions(Tag, text, 8);
  }

  lemma NotSpecialInTag(c: char)
    requires c in "exclude:"
    ensures !Special(Tag, c)
  {
  }

  /** A tag behind the word "exclude:" is forbidden. */
  lemma ExcludeWordForbidsTag(text: string)
    ensures var w := "exclude:[" + Escaped(Tag, text) + "]";
            var (s, ok) := Parse(INITIAL, w);
            ok && AddFilter(s).filters == if text == "" then [] else [Filter([], PatternsOf(Tag, text, w))]
  {
    hide Run, Visit, Escaped, Positions, PatternsOf, EndMode, Inside;
    var body := "exclude:[" + Escaped(Tag, text);
    var c := ReadsExcludedTag(text);
    InsideIs(c, Tag);
    VisitClosing(c, Tag);
    RunAppend(Start(INITIAL), body, "]");
    TagForbidden(c, text);
    var patterns := PatternsOf(Tag, text, body + "]");
    assert Extended(NO_FILTER, true, patterns) == Filter([], patterns) by { assert [] + patterns == patterns; }
    assert [] + [Filter([], patterns)] == [Filter([], patterns)];
  }

  lemma TagForbidden(c: State, text: string)
    requires AllRead(c, NO_FILTER, Token(true, Tag, "exclude:" + text))
    ensures var d := c.(substring := c.substring + "]");
            var e := EndMode(d);
            EndMode(e) == e && e.filters == c.filters &&
            e.currentFilter == Extended(NO_FILTER, true, PatternsOf(Tag, text, d.substring)) &&
            (PatternsOf(Tag, text, d.substring) == [] <==> text == "")
  {
    var d := c.(substring := c.substring + "]");
    TextRead(d, NO_FILTER, Token(true, Tag, "exclude:" + text));
    assert ("exclude:" + text)[..8] == "exclude:" && ("exclude:" + text)[8..] == text;
    TagAdded(NO_FILTER, true, text, d.substring);
    hide Preprocessed, WithTag, Escaped, Positions;
  }
}
