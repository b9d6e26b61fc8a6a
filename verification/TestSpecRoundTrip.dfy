/** Writing a list of filters and parsing it gives the filters back. */
module TestSpecRoundTrip {
  import opened Sequences
  import opened TestSpecs

  /** A condition is written as a bare name, as a quoted name or as a tag. */
  type Kind = m: Mode | m == Name || m == QuotedName || m == Tag witness Tag

  /** One condition of a filter: a name or a tag which a test must have or must not have. */
  datatype Token = Token(excluded: bool, kind: Kind, text: string)

  predicate Special(kind: Kind, c: char) {
    c == '\\' || c == ',' ||
    match kind
    case Tag => c == '[' || c == ']'
    case QuotedName => c == '"'
    case _ => c == '['
  }

  function Unit(kind: Kind, c: char): string {
    if Special(kind, c) then ['\\', c] else [c]
  }

  /** A backslash before every character that would mean something else. */
  function Escaped(kind: Kind, text: string): string {
    if text == "" then "" else Unit(kind, text[0]) + Escaped(kind, text[1..])
  }

  function Tilde(excluded: bool): string {
    if excluded then "~" else ""
  }

  function Opening(kind: Kind): string {
    match kind case Tag => "[" case QuotedName => "\"" case _ => ""
  }

  function Closing(kind: Kind): string {
    match kind case Tag => "]" case QuotedName => "\"" case _ => ""
  }

  function Written(t: Token): string {
    Tilde(t.excluded) + Opening(t.kind) + Escaped(t.kind, t.text) + Closing(t.kind)
  }

  function WrittenFilter(tokens: seq<Token>): string {
    if tokens == [] then "" else Written(tokens[0]) + WrittenFilter(tokens[1..])
  }

  function WrittenFilters(filters: seq<seq<Token>>): string {
    if filters == [] then ""
    else if |filters| == 1 then WrittenFilter(filters[0])
    else WrittenFilter(filters[0]) + "," + WrittenFilters(filters[1..])
  }

  /** The patterns a condition stands for: a name or a tag, and for a tag that begins with a dot two tags. */
  function PatternsOf(kind: Kind, text: string, written: string): seq<Pattern> {
    if text == "" then []
    else if kind != Tag then [NamePattern(text, written)]
    else if |text| > 1 && text[0] == '.' then [TagPattern(".", written), TagPattern(text[1..], written)]
    else [TagPattern(text, written)]
  }

  /** Excluded patterns are forbidden, and others required. */
  function Extended(f: Filter, excluded: bool, patterns: seq<Pattern>): Filter {
    Filter(f.required + (if excluded then [] else patterns), f.forbidden + (if excluded then patterns else []))
  }

  /** What the token should be parsed to. */
  function Meaning(f: Filter, t: Token): Filter {
    Extended(f, t.excluded, PatternsOf(t.kind, t.text, Written(t)))
  }

  predicate BeginsExclude(text: string) {
    |text| >= 8 && text[..8] == "exclude:"
  }

  /** What it is parsed to: a leading "exclude:" is taken for a command. */
  function Reading(f: Filter, t: Token): Filter {
    if BeginsExclude(t.text) then Extended(f, true, PatternsOf(t.kind, t.text[8..], Written(t))) else Meaning(f, t)
  }

  /** The patterns of all excluded tokens, or of all others, in order. */
  function Conditions(tokens: seq<Token>, excluded: bool): seq<Pattern> {
    if tokens == [] then []
    else
      (if tokens[0].excluded == excluded then PatternsOf(tokens[0].kind, tokens[0].text, Written(tokens[0])) else []) +
      Conditions(tokens[1..], excluded)
  }

  function FilterMeaning(f: Filter, tokens: seq<Token>): Filter {
    Filter(f.required + Conditions(tokens, false), f.forbidden + Conditions(tokens, true))
  }

  function FiltersMeaning(filters: seq<seq<Token>>): seq<Filter> {
    if filters == [] then [] else [FilterMeaning(NO_FILTER, filters[0])] + FiltersMeaning(filters[1..])
  }

  /** After any escaped characters comes one that begins a bare name. */
  predicate BeginsName(text: string) {
    text != "" && if Special(Name, text[0]) then BeginsName(text[1..]) else text[0] !in " ~\""
  }

  predicate Recognised(t: Token) {
    t.kind == Name ==> BeginsName(t.text)
  }

  predicate Proper(t: Token) {
    t.text != "" && !BeginsExclude(t.text) && Recognised(t)
  }

  /** Only a tag, and not an excluded one, ends a bare name. */
  predicate Endable(t: Token, tokens: seq<Token>) {
    t.kind == Name && tokens != [] ==> tokens[0].kind == Tag && !tokens[0].excluded
  }

  predicate ProperFilter(tokens: seq<Token>) {
    tokens == [] || (Proper(tokens[0]) && Endable(tokens[0], tokens[1..]) && ProperFilter(tokens[1..]))
  }

  predicate ProperFilters(filters: seq<seq<Token>>) {
    forall f :: f in filters ==> f != [] && ProperFilter(f)
  }

  // ----- Removing the escape characters -----

  /** Where the backslashes are in the escaped text. */
  function Positions(kind: Kind, text: string, from: nat): seq<nat> {
    if text == "" then []
    else if Special(kind, text[0]) then [from] + Positions(kind, text[1..], from + 2)
    else Positions(kind, text[1..], from + 1)
  }

  ghost predicate AscendingWithin(p: seq<nat>, from: nat, to: nat) {
    (forall j :: 0 <= j < |p| ==> from <= p[j] < to) && (forall j, k :: 0 <= j < k < |p| ==> p[j] < p[k])
  }

  lemma AscendingCons(p: seq<nat>, first: nat, from: nat, to: nat)
    requires AscendingWithin(p, from, to) && first < from <= to
    ensures AscendingWithin([first] + p, first, to)
  {
  }

  lemma {:induction false} PositionsWithin(kind: Kind, text: string, from: nat)
    ensures AscendingWithin(Positions(kind, text, from), from, from + |Escaped(kind, text)|)
  {
    if text != "" {
      hide Special, AscendingWithin;
      if Special(kind, text[0]) {
        PositionsWithin(kind, text[1..], from + 2);
        AscendingCons(Positions(kind, text[1..], from + 2), from, from + 2, from + |Escaped(kind, text)|);
      } else {
        PositionsWithin(kind, text[1..], from + 1);
        Wider(Positions(kind, text[1..], from + 1), from + 1, from + |Escaped(kind, text)|);
      }
    } else {
      assert Positions(kind, text, from) == [];
    }
  }

  lemma Wider(p: seq<nat>, from: nat, to: nat)
    requires AscendingWithin(p, from, to) && from > 0
    ensures AscendingWithin(p, from - 1, to)
  {
  }

  /** Removing exactly the escape characters gives the text back. */
  lemma {:induction false} UnescapeEscaped(kind: Kind, text: string, done: string, escapes: seq<nat>, i: nat)
    requires i <= |escapes| && escapes[i..] == Positions(kind, text, |done| + i)
    ensures Removable(|done + Escaped(kind, text)|, escapes, i)
    ensures Unescaped(done + Escaped(kind, text), escapes, i) == done + text
    decreases |text|
  {
    EscapesWithin(kind, text, done, escapes, i);
    var token := done + Escaped(kind, text);
    hide Special;
    if text == "" {
      assert token == done == done + text;
    } else {
      var c, rest := text[0], text[1..];
      assert (done + [c]) + rest == done + text;
      if Special(kind, c) {
        var p := escapes[i..];
        assert p == [|done| + i] + Positions(kind, rest, |done| + i + 2);
        assert escapes[i] == p[0] && escapes[i + 1..] == p[1..];
        CutEscape(kind, c, rest, done);
        UnescapeEscaped(kind, rest, done + [c], escapes, i + 1);
      } else {
        assert token == (done + [c]) + Escaped(kind, rest);
        UnescapeEscaped(kind, rest, done + [c], escapes, i);
      }
    }
  }

  lemma EscapesWithin(kind: Kind, text: string, done: string, escapes: seq<nat>, i: nat)
    requires i <= |escapes| && escapes[i..] == Positions(kind, text, |done| + i)
    ensures Removable(|done + Escaped(kind, text)|, escapes, i)
  {
    PositionsWithin(kind, text, |done| + i);
    var p := escapes[i..];
    hide Positions, Escaped;
    assert forall j :: i <= j < |escapes| ==> escapes[j] == p[j - i];
  }

  lemma CutEscape(kind: Kind, c: char, rest: string, done: string)
    requires Special(kind, c)
    ensures var token := done + Escaped(kind, [c] + rest);
            |done| < |token| && token[..|done|] + token[|done| + 1..] == (done + [c]) + Escaped(kind, rest)
  {
    assert ([c] + rest)[1..] == rest;
  }

  // ----- One token -----

  /** Inside a token, or before a bare name, with the pattern and escape positions read so far. */
  ghost predicate Inside(s: State, mode: Mode) {
    s.mode == mode && s.realPatternPos == |s.patternName| && Valid(s)
  }

  /** Reading the text has only collected it, and where its escape characters are. */
  ghost predicate Reads(s: State, text: string, escapes: seq<nat>, t: State, mode: Mode)
    requires Valid(s)
  {
    Run(s, text) == (t, true) && Inside(t, mode) && t.exclusion == s.exclusion && t.substring == s.substring + text &&
    t.patternName == s.patternName + text && t.escapeChars == s.escapeChars + escapes &&
    t.currentFilter == s.currentFilter && t.filters == s.filters
  }

  lemma ReadsMore(s: State, a: string, e: seq<nat>, t: State, b: string, f: seq<nat>, u: State, m: Mode, n: Mode)
    requires Valid(s) && Reads(s, a, e, t, m) && Reads(t, b, f, u, n)
    ensures Reads(s, a + b, e + f, u, n)
  {
    hide Run, Valid;
    RunAppend(s, a, b);
    Regrouped(s.substring, a, b);
    Regrouped(s.patternName, a, b);
    Regrouped(s.escapeChars, e, f);
  }

  lemma ReadsNothing(s: State, mode: Mode)
    requires Inside(s, mode)
    ensures Reads(s, "", [], s, mode)
  {
    assert s.substring + "" == s.substring && s.patternName + "" == s.patternName && s.escapeChars + [] == s.escapeChars;
  }

  lemma ReadsEscape(s: State, mode: Mode, c: char) returns (t: State)
    requires Inside(s, mode) && mode != EscapedName
    ensures Reads(s, ['\\', c], [|s.patternName|], t, mode)
  {
    var u := Visit(s, '\\').0;
    assert Valid(u) && u.mode == EscapedName;
    t := Visit(u, c).0;
    RunTwo(s, '\\', c);
    Regrouped(s.substring, ['\\'], [c]);
    Regrouped(s.patternName, ['\\'], [c]);
    assert ['\\'] + [c] == ['\\', c];
    hide Run, Unescaped;
  }

  lemma ReadsPlain(s: State, kind: Kind, c: char) returns (t: State)
    requires Inside(s, kind) && !Special(kind, c)
    ensures Reads(s, [c], [], t, kind)
  {
    t := Visit(s, c).0;
    RunOne(s, c);
    hide Run;
    assert t == AddChar(s, c);
    assert s.escapeChars + [] == s.escapeChars;
  }

  lemma ReadsUnit(s: State, kind: Kind, c: char) returns (t: State)
    requires Inside(s, kind)
    ensures Reads(s, Unit(kind, c), if Special(kind, c) then [|s.patternName|] else [], t, kind)
  {
    hide Inside, Reads, Special;
    if Special(kind, c) { t := ReadsEscape(s, kind, c); } else { t := ReadsPlain(s, kind, c); }
  }

  lemma RunOne(s: State, c: char)
    requires Valid(s)
    ensures Run(s, [c]) == Visit(s, c)
  {
    assert [c][1..] == "";
  }

  lemma RunTwo(s: State, c: char, d: char)
    requires Valid(s) && Visit(s, c).1
    ensures Run(s, [c, d]) == Visit(Visit(s, c).0, d)
  {
    assert [c, d][1..] == [d];
    RunOne(Visit(s, c).0, d);
  }

  lemma PositionsStep(kind: Kind, text: string, from: nat)
    requires text != ""
    ensures Escaped(kind, text) == Unit(kind, text[0]) + Escaped(kind, text[1..])
    ensures Positions(kind, text, from) == (if Special(kind, text[0]) then [from] else []) +
      Positions(kind, text[1..], from + |Unit(kind, text[0])|)
  {
  }

  /** Reading the escaped text collects it, and where its escape characters are. */
  lemma {:induction false} ReadsEscaped(s: State, kind: Kind, text: string) returns (t: State)
    requires Inside(s, kind)
    ensures Reads(s, Escaped(kind, text), Positions(kind, text, |s.patternName|), t, kind)
    decreases |text|
  {
    if text == "" {
      t := s;
      ReadsNothing(s, kind);
    } else {
      var u := ReadsUnit(s, kind, text[0]);
      assert |u.patternName| == |s.patternName| + |Unit(kind, text[0])|;
      hide Run, Valid, Special, Unit;
      t := ReadsEscaped(u, kind, text[1..]);
      PositionsStep(kind, text, |s.patternName|);
      var e := if Special(kind, text[0]) then [|s.patternName|] else [];
      hide Escaped, Positions, Reads;
      ReadsMore(s, Unit(kind, text[0]), e, u, Escaped(kind, text[1..]), Positions(kind, text[1..], |u.patternName|), t, kind, kind);
    }
  }

  /** The same for a bare name, which its first character that needs no backslash begins. */
  lemma {:induction false} ReadsName(s: State, text: string) returns (t: State)
    requires Inside(s, None) && BeginsName(text)
    ensures Reads(s, Escaped(Name, text), Positions(Name, text, |s.patternName|), t, Name)
    decreases |text|
  {
    PositionsStep(Name, text, |s.patternName|);
    var c, rest := text[0], text[1..];
    var u;
    if Special(Name, c) {
      u := ReadsEscape(s, None, c);
      assert |u.patternName| == |s.patternName| + 2;
      t := ReadsName(u, rest);
    } else {
      u := NameBegins(s, c);
      assert |u.patternName| == |s.patternName| + 1;
      t := ReadsEscaped(u, Name, rest);
    }
    var e := if Special(Name, c) then [|s.patternName|] else [];
    hide Run, Valid, Special, Escaped, Positions, Reads;
    ReadsMore(s, Unit(Name, c), e, u, Escaped(Name, rest), Positions(Name, rest, |u.patternName|), t, u.mode, Name);
  }

  lemma NameBegins(s: State, c: char) returns (t: State)
    requires Inside(s, None) && !Special(Name, c) && c !in " ~\""
    ensures Reads(s, [c], [], t, Name)
  {
    t := Visit(s, c).0;
    assert c != ' ' && c != '~' && c != '"' && c != '\\' && c != ',' && c != '[' by { assert " ~\"" == [' ', '~', '"']; }
    RunOne(s, c);
    hide Run;
    assert t == AddChar(s.(mode := Name), c);
    assert s.escapeChars + [] == s.escapeChars;
  }

  /** Between tokens: nothing of a pattern has been read. */
  ghost predicate Clean(s: State) {
    s.mode == None && !s.exclusion && s.realPatternPos == 0 && s.substring == "" && s.patternName == "" &&
    s.escapeChars == []
  }

  lemma CleanIsValid(s: State)
    ensures Clean(s) ==> Valid(s) && EndMode(s) == s
  {
  }

  /** At the opening of a token nothing of its text has been read. */
  ghost predicate Opened(s: State, excluded: bool, mode: Mode, opening: string, t: State)
    requires Valid(s)
  {
    Run(s, opening) == (t, true) && Inside(t, mode) && t.exclusion == excluded && t.substring == opening &&
    t.patternName == "" && t.escapeChars == [] && t.currentFilter == s.currentFilter && t.filters == s.filters
  }

  lemma RunTilde(s: State, excluded: bool) returns (t: State)
    requires Clean(s)
    ensures Valid(s) && Opened(s, excluded, None, Tilde(excluded), t)
  {
    if excluded {
      t := Visit(s, '~').0;
      RunOne(s, '~');
    } else {
      t := s;
    }
  }

  lemma RunBracket(u: State, kind: Kind) returns (t: State)
    requires Inside(u, None) && u.patternName == "" && u.escapeChars == [] && kind != Name
    ensures Run(u, Opening(kind)) == (t, true) && Inside(t, kind)
    ensures t == u.(mode := kind, substring := u.substring + Opening(kind))
  {
    var q := Opening(kind)[0];
    assert Opening(kind) == [q];
    RunOne(u, q);
    t := Visit(u, q).0;
    hide Run;
  }

  lemma RunOpening(s: State, excluded: bool, kind: Kind) returns (t: State)
    requires Clean(s)
    ensures Valid(s) && Opened(s, excluded, if kind == Name then None else kind, Tilde(excluded) + Opening(kind), t)
  {
    var u := RunTilde(s, excluded);
    if kind == Name {
      t := u;
      assert Tilde(excluded) + "" == Tilde(excluded);
    } else {
      t := RunBracket(u, kind);
      hide Run, Tilde, Opening, Clean, Valid, Visit;
      RunAppend(s, Tilde(excluded), Opening(kind));
    }
  }

  /** All of a token has been read but what closes it. */
  ghost predicate AllRead(b: State, f: Filter, t: Token) {
    Inside(b, t.kind) && b.exclusion == t.excluded && b.patternName == Escaped(t.kind, t.text) &&
    b.escapeChars == Positions(t.kind, t.text, 0) && b.currentFilter == f
  }

  lemma RunText(s: State, t: Token) returns (b: State)
    requires Clean(s) && Recognised(t)
    ensures Valid(s) && Run(s, Tilde(t.excluded) + Opening(t.kind) + Escaped(t.kind, t.text)) == (b, true)
    ensures AllRead(b, s.currentFilter, t) && b.filters == s.filters
    ensures b.substring == Tilde(t.excluded) + Opening(t.kind) + Escaped(t.kind, t.text)
  {
    hide Run, Valid, Escaped, Positions, Clean, Opening, Tilde;
    var a := RunOpening(s, t.excluded, t.kind);
    if t.kind == Name { b := ReadsName(a, t.text); } else { b := ReadsEscaped(a, t.kind, t.text); }
    RunAppend(s, Tilde(t.excluded) + Opening(t.kind), Escaped(t.kind, t.text));
    assert "" + Escaped(t.kind, t.text) == Escaped(t.kind, t.text);
    assert [] + Positions(t.kind, t.text, 0) == Positions(t.kind, t.text, 0);
  }

  /** The pattern read stands for the token's text, less a leading "exclude:". */
  lemma TextRead(b: State, f: Filter, t: Token)
    requires AllRead(b, f, t)
    ensures Valid(b) && Preprocessed(b) ==
      if BeginsExclude(t.text) then (t.text[8..], true) else (t.text, t.excluded)
  {
    UnescapeEscaped(t.kind, t.text, "", b.escapeChars, 0);
    assert b.escapeChars[0..] == b.escapeChars;
    assert "" + Escaped(t.kind, t.text) == Escaped(t.kind, t.text) && "" + t.text == t.text;
    hide Escaped, Positions, Unescaped;
  }

  lemma TagAdded(f: Filter, excluded: bool, token: string, written: string)
    ensures WithTag(f, excluded, token, written) == Extended(f, excluded, PatternsOf(Tag, token, written))
  {
    assert f.required + [] == f.required && f.forbidden + [] == f.forbidden;
    if |token| > 1 && token[0] == '.' {
      var a, b := TagPattern(".", written), TagPattern(token[1..], written);
      assert f.required + [a, b] == f.required + [a] + [b] && f.forbidden + [a, b] == f.forbidden + [a] + [b];
    }
  }

  lemma NameAdded(f: Filter, excluded: bool, kind: Kind, token: string, written: string)
    requires kind != Tag
    ensures WithName(f, excluded, token, written) == Extended(f, excluded, PatternsOf(kind, token, written))
  {
    assert f.required + [] == f.required && f.forbidden + [] == f.forbidden;
  }

  /** Ending the mode makes a pattern of what was read. */
  lemma PatternEnds(b: State, f: Filter, t: Token)
    requires AllRead(b, f, t) && b.substring == Written(t)
    ensures Valid(b) && Clean(EndMode(b)) && EndMode(b).currentFilter == Reading(f, t) && EndMode(b).filters == b.filters
  {
    TextRead(b, f, t);
    var (token, excluded) := Preprocessed(b);
    if t.kind == Tag { TagAdded(f, excluded, token, b.substring); } else { NameAdded(f, excluded, t.kind, token, b.substring); }
    hide Preprocessed, Written, WithName, WithTag, BeginsExclude, Escaped, Positions, Valid, PatternsOf, Extended;
  }

  /** At the end of a token, closed or about to be ended by what follows. */
  ghost predicate TokenRead(u: State, f: Filter, t: Token) {
    Valid(u) && Clean(EndMode(u)) && EndMode(u).currentFilter == Reading(f, t) &&
    if t.kind == Name then u.mode == Name && u.substring == Written(t) else u == EndMode(u)
  }

  /** Reading a written token leaves exactly its patterns to be added to the current filter. */
  lemma RunWritten(s: State, t: Token) returns (u: State)
    requires Clean(s) && Recognised(t)
    ensures Valid(s) && Run(s, Written(t)) == (u, true) && TokenRead(u, s.currentFilter, t) && EndMode(u).filters == s.filters
  {
    hide Run, Visit, Escaped, Positions, Reading, Clean, Opening, Tilde, Inside, EndMode;
    var b := RunText(s, t);
    var body := Tilde(t.excluded) + Opening(t.kind) + Escaped(t.kind, t.text);
    if t.kind == Name {
      u := b;
      assert body + "" == body;
      PatternEnds(b, s.currentFilter, t);
      InsideIs(b, t.kind);
    } else {
      u := RunClosing(b, s.currentFilter, t);
      RunAppend(s, body, Closing(t.kind));
    }
  }

  lemma InsideIs(b: State, mode: Mode)
    requires Inside(b, mode)
    ensures b.mode == mode && Valid(b)
  {
  }

  lemma RunClosing(b: State, f: Filter, t: Token) returns (u: State)
    requires AllRead(b, f, t) && t.kind != Name && b.substring + Closing(t.kind) == Written(t)
    ensures Valid(b) && Run(b, Closing(t.kind)) == (u, true) && TokenRead(u, f, t) && EndMode(u).filters == b.filters
  {
    var c := b.(substring := b.substring + Closing(t.kind));
    PatternEnds(c, f, t);
    u := EndMode(c);
    CleanIsValid(u);
    VisitClosing(b, t.kind);
    hide EndMode, Clean, Reading, Escaped, Positions, Written;
  }

  lemma VisitClosing(b: State, kind: Kind)
    requires Inside(b, kind) && kind != Name
    ensures Run(b, Closing(kind)) == (EndMode(b.(substring := b.substring + Closing(kind))), true)
  {
    var q := Closing(kind)[0];
    assert Closing(kind) == [q];
    RunOne(b, q);
    hide Run, EndMode;
  }

  // ----- What follows a token -----

  lemma {:induction false} NothingEscaped(kind: Kind, text: string)
    requires '\\' !in Escaped(kind, text)
    ensures Escaped(kind, text) == text
  {
    if text != "" {
      var e, rest := Unit(kind, text[0]), Escaped(kind, text[1..]);
      assert Escaped(kind, text) == e + rest;
      assert forall c :: c in e || c in rest ==> c in e + rest;
      assert '\\' in ['\\', text[0]];
      NothingEscaped(kind, text[1..]);
    }
  }

  /** What is written for a proper bare name is never taken for the word that excludes a tag. */
  lemma NotExclude(t: Token)
    requires Proper(t) && t.kind == Name
    ensures Written(t) != EXCLUDE
  {
    var e := Escaped(Name, t.text);
    assert Written(t) == Tilde(t.excluded) + e;
    if '\\' !in e { NothingEscaped(Name, t.text); }
    hide Escaped, Written, Recognised;
    if t.excluded { assert Written(t)[0] == '~'; } else { assert '\\' !in EXCLUDE; }
  }

  /** A tag or a comma ends the token as the end of the argument does. */
  lemma EndedByNext(u: State, f: Filter, t: Token, c: char)
    requires TokenRead(u, f, t) && Proper(t) && (c == ',' || (c == '[' && t.kind == Name))
    ensures Valid(EndMode(u)) && Visit(u, c) == Visit(EndMode(u), c)
  {
    CleanIsValid(EndMode(u));
    if t.kind == Name {
      NotExclude(t);
      NameEnded(u, EndMode(u), c);
    }
    hide EndMode, Visit, Reading, Written, Proper;
  }

  lemma NameEnded(u: State, v: State, c: char)
    requires Valid(u) && u.mode == Name && u.substring != EXCLUDE && v == EndMode(u) && Clean(v) && (c == ',' || c == '[')
    ensures Valid(v) && Visit(u, c) == Visit(v, c)
  {
    CleanIsValid(v);
    hide AddNamePattern, AddTagPattern;
  }

  lemma RunEndedByNext(u: State, f: Filter, t: Token, rest: string)
    requires TokenRead(u, f, t) && Proper(t)
    requires t.kind == Name ==> rest != "" && (rest[0] == ',' || rest[0] == '[')
    ensures Valid(EndMode(u)) && Run(u, rest) == Run(EndMode(u), rest)
  {
    CleanIsValid(EndMode(u));
    if t.kind == Name { EndedByNext(u, f, t, rest[0]); }
    hide EndMode, Visit, Valid, Reading, Written;
  }

  // ----- Whole lists -----

  lemma TagComesFirst(tokens: seq<Token>)
    requires tokens != [] && tokens[0].kind == Tag && !tokens[0].excluded
    ensures var w := WrittenFilter(tokens); w != "" && w[0] == '['
  {
    var t := tokens[0];
    assert Written(t) == "[" + (Escaped(Tag, t.text) + "]");
  }

  /** At the end of some tokens of a filter. */
  ghost predicate FilterRead(u: State, f: Filter, tokens: seq<Token>, done: seq<Filter>) {
    Valid(u) && Clean(EndMode(u)) && EndMode(u).currentFilter == FilterMeaning(f, tokens) && EndMode(u).filters == done &&
    (u == EndMode(u) || u.mode == Name)
  }

  lemma ProperReading(f: Filter, t: Token)
    requires Proper(t)
    ensures Reading(f, t) == Meaning(f, t)
  {
  }

  lemma FirstOfFilter(f: Filter, t: Token, more: seq<Token>)
    requires Proper(t)
    ensures FilterMeaning(f, [t] + more) == FilterMeaning(Reading(f, t), more)
    ensures FilterMeaning(f, []) == f
  {
    assert ([t] + more)[0] == t && ([t] + more)[1..] == more;
    ProperReading(f, t);
    hide Written, PatternsOf;
    var patterns := PatternsOf(t.kind, t.text, Written(t));
    var (a, b) := if t.excluded then ([], patterns) else (patterns, []);
    Regrouped(f.required, a, Conditions(more, false));
    Regrouped(f.forbidden, b, Conditions(more, true));
    assert Conditions([t] + more, false) == a + Conditions(more, false);
    assert Conditions([t] + more, true) == b + Conditions(more, true);
  }

  lemma FilterStep(tokens: seq<Token>)
    requires tokens != [] && ProperFilter(tokens)
    ensures WrittenFilter(tokens) == Written(tokens[0]) + WrittenFilter(tokens[1..]) && WrittenFilter([]) == ""
    ensures Proper(tokens[0]) && Recognised(tokens[0]) && ProperFilter(tokens[1..])
    ensures tokens[0].kind == Name && tokens[1..] != [] ==> tokens[1].kind == Tag && !tokens[1].excluded
  {
    hide Written, BeginsName;
  }

  lemma {:induction false} RunWrittenFilter(s: State, tokens: seq<Token>) returns (u: State)
    requires Clean(s) && ProperFilter(tokens)
    ensures Valid(s) && Run(s, WrittenFilter(tokens)) == (u, true) && FilterRead(u, s.currentFilter, tokens, s.filters)
    decreases |tokens|
  {
    hide Run, Visit, Written, WrittenFilter, Clean, EndMode, FilterMeaning, Valid, Reading, Proper, ProperFilter, Recognised;
    CleanIsValid(s);
    if tokens == [] {
      u := s;
      NoTokens(s);
    } else {
      var t, more := tokens[0], tokens[1..];
      FilterStep(tokens);
      var v := RunWritten(s, t);
      FirstOfFilter(s.currentFilter, t, more);
      assert [t] + more == tokens;
      var rest := WrittenFilter(more);
      RunAppend(s, Written(t), rest);
      if more == [] {
        u := v;
        RunNothing(v);
        FirstOfFilter(Reading(s.currentFilter, t), t, []);
      } else {
        if t.kind == Name { TagComesFirst(more); }
        RunEndedByNext(v, s.currentFilter, t, rest);
        u := RunWrittenFilter(EndMode(v), more);
      }
    }
  }

  lemma NoTokens(s: State)
    requires Clean(s)
    ensures Valid(s) && Run(s, WrittenFilter([])) == (s, true) && FilterRead(s, s.currentFilter, [], s.filters)
  {
    assert s.currentFilter.required + [] == s.currentFilter.required && s.currentFilter.forbidden + [] == s.currentFilter.forbidden;
  }

  lemma RunNothing(s: State)
    requires Valid(s)
    ensures Run(s, "") == (s, true)
  {
  }

  predicate IsEmpty(f: Filter) {
    f.required == [] && f.forbidden == []
  }

  lemma {:induction false} FilterNotEmpty(f: Filter, tokens: seq<Token>)
    requires !IsEmpty(f) || tokens != []
    requires ProperFilter(tokens)
    ensures !IsEmpty(FilterMeaning(f, tokens))
    decreases |tokens|
  {
    if tokens != [] {
      hide Written;
      FilterNotEmpty(Meaning(f, tokens[0]), tokens[1..]);
    }
  }

  /** A comma after a filter completes it, as the end of the argument does. */
  lemma FilterEnds(u: State, tokens: seq<Token>, done: seq<Filter>) returns (v: State)
    requires FilterRead(u, NO_FILTER, tokens, done) && tokens != [] && ProperFilter(tokens)
    ensures AddFilter(EndMode(u)).filters == done + [FilterMeaning(NO_FILTER, tokens)]
    ensures Visit(u, ',') == (v, true) && Clean(v) && v.currentFilter == NO_FILTER
    ensures v.filters == done + [FilterMeaning(NO_FILTER, tokens)]
  {
    hide ProperFilter, FilterMeaning, AddNamePattern, AddTagPattern;
    FilterNotEmpty(NO_FILTER, tokens);
    v := Visit(u, ',').0;
  }

  lemma FiltersStep(filters: seq<seq<Token>>)
    requires filters != [] && ProperFilters(filters)
    ensures filters[0] != [] && ProperFilter(filters[0]) && ProperFilters(filters[1..])
    ensures WrittenFilters(filters) ==
      if filters[1..] == [] then WrittenFilter(filters[0]) else WrittenFilter(filters[0]) + "," + WrittenFilters(filters[1..])
    ensures FiltersMeaning(filters) == [FilterMeaning(NO_FILTER, filters[0])] + FiltersMeaning(filters[1..])
    ensures FiltersMeaning([]) == []
  {
    hide ProperFilter, FilterMeaning, WrittenFilter;
    assert filters[0] in filters && forall g :: g in filters[1..] ==> g in filters;
  }

  lemma {:induction false} RunWrittenFilters(s: State, filters: seq<seq<Token>>) returns (u: State)
    requires Clean(s) && s.currentFilter == NO_FILTER && ProperFilters(filters)
    ensures Valid(s) && Run(s, WrittenFilters(filters)) == (u, true) && Valid(u)
    ensures AddFilter(EndMode(u)).filters == s.filters + FiltersMeaning(filters)
    decreases |filters|
  {
    hide Run, Visit, Clean, EndMode, AddFilter, FilterMeaning, FiltersMeaning, WrittenFilter, WrittenFilters, ProperFilter,
      ProperFilters, Valid, FilterRead;
    CleanIsValid(s);
    if filters == [] {
      u := s;
      NothingWritten(s);
    } else {
      var f, more := filters[0], filters[1..];
      FiltersStep(filters);
      var v := RunWrittenFilter(s, f);
      var w := FilterEnds(v, f, s.filters);
      if more == [] {
        u := v;
        FilterReadIsValid(u, NO_FILTER, f, s.filters);
        assert [FilterMeaning(NO_FILTER, f)] + [] == [FilterMeaning(NO_FILTER, f)];
      } else {
        FilterReadIsValid(v, NO_FILTER, f, s.filters);
        CleanIsValid(w);
        u := RunWrittenFilters(w, more);
        RunBoth(s, WrittenFilter(f), v, w, WrittenFilters(more));
        Regrouped(s.filters, [FilterMeaning(NO_FILTER, f)], FiltersMeaning(more));
      }
    }
  }

  lemma NothingWritten(s: State)
    requires Clean(s) && s.currentFilter == NO_FILTER
    ensures Valid(s) && Run(s, WrittenFilters([])) == (s, true)
    ensures AddFilter(EndMode(s)).filters == s.filters + FiltersMeaning([])
  {
    assert s.filters + [] == s.filters;
  }

  lemma FilterReadIsValid(u: State, f: Filter, tokens: seq<Token>, done: seq<Filter>)
    requires FilterRead(u, f, tokens, done)
    ensures Valid(u)
  {
  }

  lemma RunBoth(s: State, a: string, v: State, w: State, b: string)
    requires Valid(s) && Run(s, a) == (v, true) && Valid(v) && Visit(v, ',') == (w, true) && Valid(w)
    ensures Run(s, a + "," + b) == Run(w, b)
  {
    hide Run, Visit, Valid;
    RunOne(v, ',');
    RunAppend(s, a, ",");
    RunAppend(s, a + ",", b);
  }

  const INITIAL := State(None, None, false, 0, "", "", [], NO_FILTER, [])

  /** Each filter requires the patterns of its tokens that are not excluded, and forbids those of the others. */
  ghost predicate Means(spec: seq<Filter>, filters: seq<seq<Token>>) {
    |spec| == |filters| &&
    forall i :: 0 <= i < |filters| ==>
      spec[i].required == Conditions(filters[i], false) && spec[i].forbidden == Conditions(filters[i], true)
  }

  lemma {:induction false} MeaningMeans(filters: seq<seq<Token>>)
    ensures Means(FiltersMeaning(filters), filters)
    decreases |filters|
  {
    hide Conditions;
    if filters != [] {
      var f, more := FilterMeaning(NO_FILTER, filters[0]), FiltersMeaning(filters[1..]);
      MeaningMeans(filters[1..]);
      assert [] + Conditions(filters[0], false) == Conditions(filters[0], false);
      assert [] + Conditions(filters[0], true) == Conditions(filters[0], true);
      assert forall i :: 1 <= i < |filters| ==> ([f] + more)[i] == more[i - 1] && filters[i] == filters[1..][i - 1];
    }
  }

  /** Parsing the written form of any list of filters gives back exactly those filters. */
  lemma WrittenFiltersParse(filters: seq<seq<Token>>)
    requires ProperFilters(filters)
    ensures var (s, ok) := Parse(INITIAL, WrittenFilters(filters));
            ok && Means(AddFilter(s).filters, filters)
  {
    hide Means, FiltersMeaning;
    MeaningMeans(filters);
    var u := RunWrittenFilters(Start(INITIAL), filters);
    assert [] + FiltersMeaning(filters) == FiltersMeaning(filters);
  }
}
