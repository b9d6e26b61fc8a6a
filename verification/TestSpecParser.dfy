/** The parser object: it mutates its mode, position and pattern. */
module TestSpecParser {
  import opened TestSpecs
  import opened TestSpecRoundTrip
  import opened TagAliases

  class Parser {
    const aliases: seq<Alias>
    var mode: Mode
    var lastMode: Mode
    var exclusion: bool
    var realPatternPos: nat
    var substring: string
    var patternName: string
    var escapeChars: seq<nat>
    var currentFilter: Filter
    var filters: seq<Filter>
    var invalidSpecs: seq<string>

    ghost function Held(): State
      reads this
    {
      State(mode, lastMode, exclusion, realPatternPos, substring, patternName, escapeChars, currentFilter, filters)
    }

    constructor (aliases: seq<Alias>)
      ensures Held() == INITIAL && invalidSpecs == [] && this.aliases == aliases
    {
      this.aliases := aliases;
      mode, lastMode, exclusion, realPatternPos := None, None, false, 0;
      substring, patternName, escapeChars := "", "", [];
      currentFilter, filters, invalidSpecs := NO_FILTER, [], [];
    }

    /** Reads one argument with its aliases expanded; one that is refused is recorded as invalid as it was given. */
    method Parse(arg: string)
      modifies this
      ensures Held() == TestSpecs.Parse(old(Held()), Expanded(aliases, arg)).0
      ensures invalidSpecs ==
        old(invalidSpecs) + if TestSpecs.Parse(old(Held()), Expanded(aliases, arg)).1 then [] else [arg]
    {
      hide Run, Expanded, TestSpecs.EndMode;
      mode, exclusion := None, false;
      var expanded := ExpandAliases(aliases, arg);
      escapeChars, realPatternPos := [], 0;
      var accepted := VisitAll(expanded);
      if !accepted { invalidSpecs := invalidSpecs + [arg]; }
      EndMode();
    }

    method VisitAll(arg: string) returns (accepted: bool)
      requires Valid(Held())
      modifies this
      ensures (Held(), accepted) == Run(old(Held()), arg) && invalidSpecs == old(invalidSpecs)
    {
      ghost var s0 := Held();
      accepted := true;
      var pos := 0;
      while pos < |arg|
        invariant pos <= |arg| && Valid(Held()) && Run(s0, arg) == Run(Held(), arg[pos..])
        invariant invalidSpecs == old(invalidSpecs)
      {
        assert arg[pos..][0] == arg[pos] && arg[pos..][1..] == arg[pos + 1..];
        accepted := VisitChar(arg[pos]);
        if !accepted { return; }
        pos := pos + 1;
      }
    }

    /** The filters read so far, with the one being read. */
    method TestSpec() returns (spec: seq<Filter>)
      modifies this
      ensures spec == TestSpecs.AddFilter(old(Held())).filters
      ensures filters == [] && invalidSpecs == []
    {
      AddFilter();
      spec := filters;
      filters, invalidSpecs := [], [];
    }

    method VisitChar(c: char) returns (ok: bool)
      requires Valid(Held())
      modifies this
      ensures (Held(), ok) == Visit(old(Held()), c) && (ok ==> Valid(Held()))
      ensures invalidSpecs == old(invalidSpecs)
    {
      hide Valid, TestSpecs.EndMode, TestSpecs.Separate;
      ghost var s0 := Held();
      if mode != EscapedName && c == '\\' {
        Escape();
        AddCharToPattern(c);
        return true;
      } else if mode != EscapedName && c == ',' {
        ok := Separate();
        return;
      }
      match mode {
        case None =>
          var done := ProcessNoneChar(c);
          if done { return true; }
        case Name =>
          ProcessNameChar(c);
        case EscapedName =>
          EndMode();
          AddCharToPattern(c);
          return true;
        case QuotedName | Tag =>
          var done := ProcessOtherChar(c);
          if done { return true; }
      }
      assert Visit(s0, c) == (TestSpecs.Append(Held(), c), true);
      Append(c);
      return true;
    }

    /** The character joins the pattern, unless it is one that only controls it. */
    method Append(c: char)
      requires Valid(Held())
      modifies `substring, `patternName, `realPatternPos
      ensures Held() == TestSpecs.Append(old(Held()), c)
    {
      substring := substring + [c];
      if !IsControlChar(mode, c) {
        patternName := patternName + [c];
        realPatternPos := realPatternPos + 1;
      }
    }

    method AddCharToPattern(c: char)
      modifies `substring, `patternName, `realPatternPos
      ensures Held() == old(Held()).(substring := old(substring) + [c], patternName := old(patternName) + [c],
                                     realPatternPos := old(realPatternPos) + 1)
    {
      substring := substring + [c];
      patternName := patternName + [c];
      realPatternPos := realPatternPos + 1;
    }

    /** True if the character was consumed without joining a pattern. */
    method ProcessNoneChar(c: char) returns (done: bool)
      requires Valid(Held())
      modifies `mode, `exclusion
      ensures Valid(Held())
      ensures done <==> c == ' '
      ensures Held() ==
        if c == ' ' then old(Held())
        else if c == '~' then old(Held()).(exclusion := true)
        else old(Held()).(mode := if c == '[' then Tag else if c == '"' then QuotedName else Name)
    {
      if c == ' ' {
        return true;
      } else if c == '~' {
        exclusion := true;
      } else if c == '[' {
        mode := Tag;
      } else if c == '"' {
        mode := QuotedName;
      } else {
        mode := Name;
      }
      return false;
    }

    /** A bracket after a name ends the name and starts a tag. */
    method ProcessNameChar(c: char)
      requires Valid(Held()) && mode == Name
      modifies this
      ensures Valid(Held()) && invalidSpecs == old(invalidSpecs)
      ensures Held() ==
        if c != '[' then old(Held())
        else if old(substring) == EXCLUDE then old(Held()).(exclusion := true, mode := Tag)
        else TestSpecs.EndMode(old(Held())).(mode := Tag)
    {
      if c == '[' {
        if substring == EXCLUDE { exclusion := true; } else { EndMode(); }
        mode := Tag;
      }
    }

    method ProcessOtherChar(c: char) returns (done: bool)
      requires Valid(Held())
      modifies this
      ensures Valid(Held()) && invalidSpecs == old(invalidSpecs)
      ensures done <==> IsControlChar(old(mode), c)
      ensures Held() ==
        if done then TestSpecs.EndMode(old(Held()).(substring := old(substring) + [c])) else old(Held())
    {
      if !IsControlChar(mode, c) { return false; }
      substring := substring + [c];
      EndMode();
      return true;
    }

    method EndMode()
      requires mode != None ==> Valid(Held())
      modifies this
      ensures Held() == TestSpecs.EndMode(old(Held())) && invalidSpecs == old(invalidSpecs)
    {
      match mode {
        case Name | QuotedName => AddNamePattern();
        case Tag => AddTagPattern();
        case EscapedName => mode := lastMode;
        case None =>
      }
    }

    method Escape()
      modifies `mode, `lastMode, `escapeChars
      ensures Held() == old(Held()).(lastMode := old(mode), mode := EscapedName,
                                     escapeChars := old(escapeChars) + [realPatternPos])
    {
      lastMode := mode;
      mode := EscapedName;
      escapeChars := escapeChars + [realPatternPos];
    }

    method AddFilter()
      modifies `currentFilter, `filters
      ensures Held() == TestSpecs.AddFilter(old(Held()))
    {
      if currentFilter.required != [] || currentFilter.forbidden != [] {
        filters := filters + [currentFilter];
        currentFilter := NO_FILTER;
      }
    }

    method Separate() returns (ok: bool)
      requires Valid(Held())
      modifies this
      ensures (Held(), ok) == TestSpecs.Separate(old(Held())) && invalidSpecs == old(invalidSpecs)
    {
      if mode == QuotedName || mode == Tag {
        mode, substring, patternName, realPatternPos := None, "", "", 0;
        return false;
      }
      EndMode();
      AddFilter();
      return true;
    }

    /** The pattern's token, without escape characters and without a leading "exclude:". */
    method PreprocessPattern() returns (token: string)
      requires Valid(Held())
      modifies `escapeChars, `exclusion, `patternName, `realPatternPos
      ensures (token, exclusion) == Preprocessed(old(Held()))
      ensures escapeChars == [] && patternName == "" && realPatternPos == 0
    {
      token := patternName;
      ghost var escapes := escapeChars;
      for i := 0 to |escapeChars|
        invariant escapeChars == escapes && Removable(|token|, escapeChars, i)
        invariant Unescaped(token, escapeChars, i) == Unescaped(patternName, escapeChars, 0)
        invariant patternName == old(patternName) && exclusion == old(exclusion)
      {
        token := token[..escapeChars[i] - i] + token[escapeChars[i] - i + 1..];
      }
      escapeChars := [];
      if StartsWith(token, EXCLUDE) {
        exclusion := true;
        token := token[8..];
      }
      patternName, realPatternPos := "", 0;
    }

    method AddNamePattern()
      requires Valid(Held())
      modifies this
      ensures Held() == TestSpecs.AddNamePattern(old(Held())) && invalidSpecs == old(invalidSpecs)
    {
      var token := PreprocessPattern();
      if token != "" { Add(NamePattern(token, substring)); }
      substring, exclusion, mode := "", false, None;
    }

    method AddTagPattern()
      requires Valid(Held())
      modifies this
      ensures Held() == TestSpecs.AddTagPattern(old(Held())) && invalidSpecs == old(invalidSpecs)
    {
      var token := PreprocessPattern();
      if token != "" {
        if |token| > 1 && token[0] == '.' {
          token := token[1..];
          Add(TagPattern(".", substring));
        }
        Add(TagPattern(token, substring));
      }
      substring, exclusion, mode := "", false, None;
    }

    method Add(p: Pattern)
      modifies `currentFilter
      ensures currentFilter == AddPattern(old(currentFilter), exclusion, p)
    {
      if exclusion {
        currentFilter := currentFilter.(forbidden := currentFilter.forbidden + [p]);
      } else {
        currentFilter := currentFilter.(required := currentFilter.required + [p]);
      }
    }
  }

  /** A parser given the written form of a list of filters returns those filters and finds nothing invalid. */
  method ParseWritten(filters: seq<seq<Token>>, aliases: seq<Alias>) returns (spec: seq<Filter>, invalid: seq<string>)
    requires ProperFilters(filters) && Expanded(aliases, WrittenFilters(filters)) == WrittenFilters(filters)
    ensures Means(spec, filters) && invalid == []
  {
    WrittenFiltersParse(filters);
    var parser := new Parser(aliases);
    hide Run, WrittenFilters, Means, Expanded;
    parser.Parse(WrittenFilters(filters));
    invalid := parser.invalidSpecs;
    spec := parser.TestSpec();
  }
}
