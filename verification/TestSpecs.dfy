/** The test specification grammar as a state machine over characters. */
module TestSpecs {

  datatype Pattern =
    | NamePattern(name: string, filterString: string)
    | TagPattern(tag: string, filterString: string)

  datatype Filter = Filter(required: seq<Pattern>, forbidden: seq<Pattern>)

  const NO_FILTER := Filter([], [])

  datatype Mode = None | Name | QuotedName | Tag | EscapedName

  /** What the parser holds between two characters. */
  datatype State = State(
    mode: Mode, lastMode: Mode, exclusion: bool, realPatternPos: nat, substring: string, patternName: string,
    escapeChars: seq<nat>, currentFilter: Filter, filters: seq<Filter>)

  predicate IsControlChar(mode: Mode, c: char) {
    match mode
    case None => c == '~'
    case Name => c == '['
    case EscapedName => true
    case QuotedName => c == '"'
    case Tag => c == '[' || c == ']'
  }

  function StartsWith(s: string, prefix: string): bool {
    |prefix| <= |s| && s[..|prefix|] == prefix
  }

  const EXCLUDE := "exclude:"

  // ----- Escapes -----

  /** The escape characters still to remove lie in the token and ascend. */
  ghost predicate Removable(length: nat, escapes: seq<nat>, i: nat) {
    i <= |escapes| && i <= length + i &&
    (forall j :: i <= j < |escapes| ==> i <= escapes[j] < length + i) &&
    (forall j, k :: i <= j < k < |escapes| ==> escapes[j] < escapes[k])
  }

  /** Removes the escape characters from the i-th on; each removal moves the later ones one place left. */
  function Unescaped(token: string, escapes: seq<nat>, i: nat): string
    requires Removable(|token|, escapes, i)
    decreases |escapes| - i
  {
    if i == |escapes| then token
    else Unescaped(token[..escapes[i] - i] + token[escapes[i] - i + 1..], escapes, i + 1)
  }

  /** The positions of escape characters lie in the pattern read so far. */
  ghost predicate Valid(s: State) {
    s.realPatternPos <= |s.patternName| &&
    (forall j :: 0 <= j < |s.escapeChars| ==> s.escapeChars[j] < s.realPatternPos) &&
    (forall j, k :: 0 <= j < k < |s.escapeChars| ==> s.escapeChars[j] < s.escapeChars[k])
  }

  // ----- Completed patterns -----

  function AddPattern(f: Filter, exclusion: bool, p: Pattern): Filter {
    if exclusion then f.(forbidden := f.forbidden + [p]) else f.(required := f.required + [p])
  }

  /** The token a pattern stands for, and whether it excludes. */
  function Preprocessed(s: State): (r: (string, bool))
    requires Valid(s)
  {
    var token := Unescaped(s.patternName, s.escapeChars, 0);
    if StartsWith(token, EXCLUDE) then (token[|EXCLUDE|..], true) else (token, s.exclusion)
  }

  function Cleared(s: State): State {
    s.(mode := None, exclusion := false, realPatternPos := 0, substring := "", patternName := "", escapeChars := [])
  }

  function WithName(f: Filter, exclusion: bool, token: string, text: string): Filter {
    if token == "" then f else AddPattern(f, exclusion, NamePattern(token, text))
  }

  /** A tag that begins with a dot is two tags: the dot hides the test. */
  function WithTag(f: Filter, exclusion: bool, token: string, text: string): Filter {
    if token == "" then f
    else if |token| > 1 && token[0] == '.' then
      AddPattern(AddPattern(f, exclusion, TagPattern(".", text)), exclusion, TagPattern(token[1..], text))
    else AddPattern(f, exclusion, TagPattern(token, text))
  }

  function AddNamePattern(s: State): (r: State)
    requires Valid(s)
  {
    var (token, exclusion) := Preprocessed(s);
    Cleared(s).(currentFilter := WithName(s.currentFilter, exclusion, token, s.substring))
  }

  function AddTagPattern(s: State): (r: State)
    requires Valid(s)
  {
    var (token, exclusion) := Preprocessed(s);
    Cleared(s).(currentFilter := WithTag(s.currentFilter, exclusion, token, s.substring))
  }

  function EndMode(s: State): (r: State)
    requires s.mode != None ==> Valid(s)
    ensures Valid(s) ==> Valid(r)
  {
    match s.mode
    case Name | QuotedName => AddNamePattern(s)
    case Tag => AddTagPattern(s)
    case EscapedName => s.(mode := s.lastMode)
    case None => s
  }

  function AddFilter(s: State): State {
    if s.currentFilter.required != [] || s.currentFilter.forbidden != []
    then s.(filters := s.filters + [s.currentFilter], currentFilter := NO_FILTER) else s
  }

  // ----- One character -----

  function AddChar(s: State, c: char): (r: State)
    requires Valid(s)
    ensures Valid(r)
  {
    s.(substring := s.substring + [c], patternName := s.patternName + [c], realPatternPos := s.realPatternPos + 1)
  }

  function Escape(s: State): (r: State)
    requires Valid(s)
    ensures Valid(AddChar(s, '\\').(escapeChars := r.escapeChars))
  {
    s.(lastMode := s.mode, mode := EscapedName, escapeChars := s.escapeChars + [s.realPatternPos])
  }

  /** A comma ends a filter, but must not end a quoted name or a tag. */
  function Separate(s: State): (r: (State, bool))
    requires Valid(s)
    ensures if r.1 then Valid(r.0) else r.0.mode == None
  {
    if s.mode == QuotedName || s.mode == Tag then
      (s.(mode := None, substring := "", patternName := "", realPatternPos := 0), false)
    else (AddFilter(EndMode(s)), true)
  }

  /** The character joins the pattern, unless it is one that only controls it. */
  function Append(s: State, c: char): (r: State)
    requires Valid(s)
    ensures Valid(r)
  {
    if IsControlChar(s.mode, c) then s.(substring := s.substring + [c]) else AddChar(s, c)
  }

  function Visit(s: State, c: char): (r: (State, bool))
    requires Valid(s)
    ensures if r.1 then Valid(r.0) else r.0.mode == None
  {
    if s.mode != EscapedName && c == '\\' then
      var e := Escape(s);
      (e.(substring := e.substring + [c], patternName := e.patternName + [c], realPatternPos := e.realPatternPos + 1), true)
    else if s.mode != EscapedName && c == ',' then Separate(s)
    else match s.mode
      case None =>
        if c == ' ' then (s, true)
        else if c == '~' then (Append(s.(exclusion := true), c), true)
        else (Append(s.(mode := if c == '[' then Tag else if c == '"' then QuotedName else Name), c), true)
      case Name =>
        if c == '[' then
          var t := if s.substring == EXCLUDE then s.(exclusion := true) else EndMode(s);
          (Append(t.(mode := Tag), c), true)
        else (Append(s, c), true)
      case EscapedName => (AddChar(EndMode(s), c), true)
      case QuotedName | Tag =>
        if IsControlChar(s.mode, c) then (EndMode(s.(substring := s.substring + [c])), true)
        else (Append(s, c), true)
  }

  /** Visits the characters in order until one is refused. */
  function Run(s: State, text: string): (r: (State, bool))
    requires Valid(s)
    ensures if r.1 then Valid(r.0) else r.0.mode == None
    decreases |text|
  {
    if text == "" then (s, true)
    else var (t, ok) := Visit(s, text[0]); if ok then Run(t, text[1..]) else (t, false)
  }

  function Start(s: State): (r: State)
    ensures Valid(r)
  {
    s.(mode := None, exclusion := false, escapeChars := [], realPatternPos := 0)
  }

  /** The state after an argument, and whether it was accepted. */
  function Parse(s: State, arg: string): (State, bool) {
    var (t, ok) := Run(Start(s), arg);
    (EndMode(t), ok)
  }

  lemma {:induction false} RunAppend(s: State, a: string, b: string)
    requires Valid(s) && Run(s, a).1
    ensures Run(s, a + b) == Run(Run(s, a).0, b)
    decreases |a|
  {
    if a == "" {
      assert a + b == b;
    } else {
      assert (a + b)[0] == a[0] && (a + b)[1..] == a[1..] + b;
      RunAppend(Visit(s, a[0]).0, a[1..], b);
    }
  }
}
