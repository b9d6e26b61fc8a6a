/** The parts of a report that are written by short-lived writers of their own. */
module JsonParts {
  import opened Json
  import opened JsonWriter
  import opened JsonReport

  method WriteNumber(os: Stream, w: Writer, key: string, n: nat, ghost base: string, ghost members: seq<Member>) returns (r: Writer)
    requires Building(os.text, base, members, w)
    modifies os
    ensures r == w.(shouldComma := true) && Building(os.text, base, members + [Number(key, n)], r)
  {
    hide Building;
    DecimalNeedsNoEscape(n);
    r := os.WriteScalar(w, key, Decimal(n), base, members);
  }

  method WriteCounts(os: Stream, w: Writer, key: string, c: Counts, ghost base: string, ghost members: seq<Member>) returns (r: Writer)
    requires Building(os.text, base, members, w)
    modifies os
    ensures r == w.(shouldComma := true) && Building(os.text, base, members + [Member(key, Node(Object, CountsDoc(c)))], r)
  {
    hide Building, Decimal, Opened, Lead;
    var inner;
    ghost var innerBase, ms;
    r, inner, innerBase := os.OpenMember(w, key, Object, base, members);
    ms := [];
    inner := WriteNumber(os, inner, "passed", c.passed, innerBase, ms);
    ms := ms + [Number("passed", c.passed)];
    inner := WriteNumber(os, inner, "failed", c.failed, innerBase, ms);
    ms := ms + [Number("failed", c.failed)];
    inner := WriteNumber(os, inner, "fail-but-ok", c.failedButOk, innerBase, ms);
    ms := ms + [Number("fail-but-ok", c.failedButOk)];
    inner := WriteNumber(os, inner, "skipped", c.skipped, innerBase, ms);
    ms := ms + [Number("skipped", c.skipped)];
    assert ms == CountsDoc(c);
    os.CloseMember(r, key, inner, base, members, innerBase, ms);
  }

  method WriteSourceInfo(os: Stream, w: Writer, at: Source, ghost base: string, ghost members: seq<Member>) returns (r: Writer)
    requires Building(os.text, base, members, w)
    modifies os
    ensures r == w.(shouldComma := true) && Building(os.text, base, members + [Located(at)], r)
  {
    hide Building, Decimal, Opened, Lead;
    var inner;
    ghost var innerBase, ms;
    r, inner, innerBase := os.OpenMember(w, "source-location", Object, base, members);
    ms := [];
    inner := os.WriteText(inner, "filename", at.file, innerBase, ms);
    ms := ms + [Named("filename", at.file)];
    inner := WriteNumber(os, inner, "line", at.line, innerBase, ms);
    ms := ms + [Number("line", at.line)];
    assert ms == SourceDoc(at);
    os.CloseMember(r, "source-location", inner, base, members, innerBase, ms);
  }

  method WriteStrings(os: Stream, w: Writer, key: string, ss: seq<string>, ghost base: string, ghost members: seq<Member>) returns (r: Writer)
    requires Building(os.text, base, members, w)
    modifies os
    ensures r == w.(shouldComma := true) && Building(os.text, base, members + [Member(key, Node(Array, Strings(ss)))], r)
  {
    hide Building, Decimal, Opened, Lead;
    var inner;
    ghost var innerBase, ms;
    r, inner, innerBase := os.OpenMember(w, key, Array, base, members);
    ms := [];
    var i := 0;
    while i < |ss|
      invariant i <= |ss| && ms == Strings(ss)[..i]
      invariant inner == Writer(Array, w.indent + 1, i > 0) && Building(os.text, innerBase, ms, inner)
    {
      inner := os.WriteText(inner, "", ss[i], innerBase, ms);
      ms := ms + [Item(Text(ss[i]))];
      i := i + 1;
    }
    assert ms == Strings(ss);
    os.CloseMember(r, key, inner, base, members, innerBase, ms);
  }

  method WriteProperties(os: Stream, w: Writer, info: CaseInfo, ghost base: string, ghost members: seq<Member>) returns (r: Writer)
    requires Building(os.text, base, members, w)
    modifies os
    ensures r == w.(shouldComma := true) && Building(os.text, base, members + [Member("properties", Node(Array, Strings(PropertiesOf(info))))], r)
  {
    hide Building, Decimal, Opened, Lead;
    var inner;
    ghost var innerBase, ms;
    r, inner, innerBase := os.OpenMember(w, "properties", Array, base, members);
    ms := [];
    if info.hidden {
      inner := os.WriteText(inner, "", "is-hidden", innerBase, ms);
      ms := ms + [Item(Text("is-hidden"))];
    }
    if info.okToFail {
      inner := os.WriteText(inner, "", "ok-to-fail", innerBase, ms);
      ms := ms + [Item(Text("ok-to-fail"))];
    }
    if info.expectedToFail {
      inner := os.WriteText(inner, "", "expected-to-fail", innerBase, ms);
      ms := ms + [Item(Text("expected-to-fail"))];
    }
    if info.throws {
      inner := os.WriteText(inner, "", "throws", innerBase, ms);
      ms := ms + [Item(Text("throws"))];
    }
    PropertyItems(info);
    assert ms == Strings(PropertiesOf(info));
    os.CloseMember(r, "properties", inner, base, members, innerBase, ms);
  }

  lemma PropertyItems(info: CaseInfo)
    ensures Strings(PropertiesOf(info)) ==
            (if info.hidden then [Item(Text("is-hidden"))] else []) + (if info.okToFail then [Item(Text("ok-to-fail"))] else []) +
            (if info.expectedToFail then [Item(Text("expected-to-fail"))] else []) + (if info.throws then [Item(Text("throws"))] else [])
  {
  }

  method WriteTestInfo(os: Stream, w: Writer, info: CaseInfo, ghost base: string, ghost members: seq<Member>) returns (r: Writer)
    requires Building(os.text, base, members, w)
    modifies os
    ensures r == w.(shouldComma := true) && Building(os.text, base, members + [Member("test-info", Node(Object, CaseInfoDoc(info)))], r)
  {
    hide Building, Decimal, Opened, Lead, Strings, PropertiesOf;
    var inner;
    ghost var innerBase, ms;
    r, inner, innerBase := os.OpenMember(w, "test-info", Object, base, members);
    ms := [];
    inner := os.WriteText(inner, "name", info.name, innerBase, ms);
    ms := ms + [Named("name", info.name)];
    inner := WriteSourceInfo(os, inner, info.at, innerBase, ms);
    ms := ms + [Located(info.at)];
    inner := WriteStrings(os, inner, "tags", info.tags, innerBase, ms);
    ms := ms + [Member("tags", Node(Array, Strings(info.tags)))];
    inner := WriteProperties(os, inner, info, innerBase, ms);
    ms := ms + [Member("properties", Node(Array, Strings(PropertiesOf(info))))];
    assert ms == CaseInfoDoc(info);
    os.CloseMember(r, "test-info", inner, base, members, innerBase, ms);
  }

  method WriteAssertionTotals(os: Stream, w: Writer, c: Counts, ghost base: string, ghost members: seq<Member>) returns (r: Writer)
    requires Building(os.text, base, members, w)
    modifies os
    ensures r == w.(shouldComma := true) && Building(os.text, base, members + [AssertionTotals(c)], r)
  {
    hide Building, Decimal, Opened, Lead, CountsDoc;
    var inner;
    ghost var innerBase, ms;
    r, inner, innerBase := os.OpenMember(w, "totals", Object, base, members);
    ms := [];
    inner := WriteCounts(os, inner, "assertions", c, innerBase, ms);
    ms := ms + [Member("assertions", Node(Object, CountsDoc(c)))];
    assert ms == [Member("assertions", Node(Object, CountsDoc(c)))];
    os.CloseMember(r, "totals", inner, base, members, innerBase, ms);
  }

  method WriteRunTotals(os: Stream, w: Writer, a: Counts, t: Counts, ghost base: string, ghost members: seq<Member>) returns (r: Writer)
    requires Building(os.text, base, members, w)
    modifies os
    ensures r == w.(shouldComma := true) && Building(os.text, base, members + [RunTotals(a, t)], r)
  {
    hide Building, Decimal, Opened, Lead, CountsDoc;
    var inner;
    ghost var innerBase, ms;
    r, inner, innerBase := os.OpenMember(w, "totals", Object, base, members);
    ms := [];
    inner := WriteCounts(os, inner, "assertions", a, innerBase, ms);
    ms := ms + [Member("assertions", Node(Object, CountsDoc(a)))];
    inner := WriteCounts(os, inner, "test-cases", t, innerBase, ms);
    ms := ms + [Member("test-cases", Node(Object, CountsDoc(t)))];
    assert ms == [Member("assertions", Node(Object, CountsDoc(a))), Member("test-cases", Node(Object, CountsDoc(t)))];
    os.CloseMember(r, "totals", inner, base, members, innerBase, ms);
  }

  method WriteMetadata(os: Stream, w: Writer, c: Config, ghost base: string, ghost members: seq<Member>) returns (r: Writer)
    requires Building(os.text, base, members, w)
    modifies os
    ensures r == w.(shouldComma := true) && Building(os.text, base, members + [Member("metadata", Node(Object, MetadataDoc(c)))], r)
  {
    hide Building, Decimal, Opened, Lead;
    var inner;
    ghost var innerBase, ms;
    r, inner, innerBase := os.OpenMember(w, "metadata", Object, base, members);
    ms := [];
    inner := os.WriteText(inner, "name", c.name, innerBase, ms);
    ms := ms + [Named("name", c.name)];
    inner := WriteNumber(os, inner, "rng-seed", c.seed, innerBase, ms);
    ms := ms + [Number("rng-seed", c.seed)];
    inner := os.WriteText(inner, "catch2-version", c.version, innerBase, ms);
    ms := ms + [Named("catch2-version", c.version)];
    if c.filters.Some? {
      inner := os.WriteText(inner, "filters", c.filters.value, innerBase, ms);
      ms := ms + [Named("filters", c.filters.value)];
    }
    assert ms == MetadataDoc(c);
    os.CloseMember(r, "metadata", inner, base, members, innerBase, ms);
  }

  method WriteAssertion(os: Stream, w: Writer, at: Source, ok: bool, ghost base: string, ghost members: seq<Member>) returns (r: Writer)
    requires Building(os.text, base, members, w)
    modifies os
    ensures r == w.(shouldComma := true) && Building(os.text, base, members + [Item(PartDoc(Assertion(at, ok)))], r)
  {
    hide Building, Decimal, Opened, Lead, SourceDoc;
    var inner;
    ghost var innerBase, ms;
    r, inner, innerBase := os.OpenMember(w, "", Object, base, members);
    ms := [];
    inner := os.WriteText(inner, "kind", "assertion", innerBase, ms);
    ms := ms + [Named("kind", "assertion")];
    inner := WriteSourceInfo(os, inner, at, innerBase, ms);
    ms := ms + [Located(at)];
    BoolNeedsNoEscape(ok);
    inner := os.WriteScalar(inner, "status", Bool(ok), innerBase, ms);
    ms := ms + [Member("status", Scalar(Bool(ok)))];
    assert ms == [Named("kind", "assertion"), Located(at), Member("status", Scalar(Bool(ok)))];
    os.CloseMember(r, "", inner, base, members, innerBase, ms);
  }

  lemma BoolNeedsNoEscape(b: bool)
    ensures Escaped(Bool(b)) == Bool(b)
  {
    PlainNeedsNoEscape(Bool(b));
  }

  method WriteDescribed(os: Stream, w: Writer, x: Described, ghost base: string, ghost members: seq<Member>) returns (r: Writer)
    requires Building(os.text, base, members, w)
    modifies os
    ensures r == w.(shouldComma := true) && Building(os.text, base, members + [Item(DescribedDoc(x))], r)
  {
    hide Building, Decimal, Opened, Lead, SourceDoc, Strings;
    var inner;
    ghost var innerBase, ms;
    r, inner, innerBase := os.OpenMember(w, "", Object, base, members);
    ms := [];
    inner := os.WriteText(inner, "name", x.name, innerBase, ms);
    ms := ms + [Named("name", x.name)];
    inner := os.WriteText(inner, "description", x.description, innerBase, ms);
    ms := ms + [Named("description", x.description)];
    assert ms == [Named("name", x.name), Named("description", x.description)];
    os.CloseMember(r, "", inner, base, members, innerBase, ms);
  }

  method WriteDescribedList(os: Stream, w: Writer, key: string, xs: seq<Described>, ghost base: string, ghost members: seq<Member>)
    returns (r: Writer)
    requires Building(os.text, base, members, w)
    modifies os
    ensures r == w.(shouldComma := true) && Building(os.text, base, members + [Member(key, Node(Array, DescribedDocs(xs)))], r)
  {
    hide Building, Decimal, Opened, Lead, DescribedDoc;
    var inner;
    ghost var innerBase, ms;
    r, inner, innerBase := os.OpenMember(w, key, Array, base, members);
    ms := [];
    var i := 0;
    while i < |xs|
      invariant i <= |xs| && ms == DescribedDocs(xs)[..i]
      invariant inner == Writer(Array, w.indent + 1, i > 0) && Building(os.text, innerBase, ms, inner)
    {
      inner := WriteDescribed(os, inner, xs[i], innerBase, ms);
      ms := ms + [Item(DescribedDoc(xs[i]))];
      i := i + 1;
    }
    assert ms == DescribedDocs(xs);
    os.CloseMember(r, key, inner, base, members, innerBase, ms);
  }

  method WriteTestListed(os: Stream, w: Writer, x: TestListed, ghost base: string, ghost members: seq<Member>) returns (r: Writer)
    requires Building(os.text, base, members, w)
    modifies os
    ensures r == w.(shouldComma := true) && Building(os.text, base, members + [Item(TestListedDoc(x))], r)
  {
    hide Building, Decimal, Opened, Lead, SourceDoc, Strings;
    var inner;
    ghost var innerBase, ms;
    r, inner, innerBase := os.OpenMember(w, "", Object, base, members);
    ms := [];
    inner := os.WriteText(inner, "name", x.name, innerBase, ms);
    ms := ms + [Named("name", x.name)];
    inner := os.WriteText(inner, "class-name", x.className, innerBase, ms);
    ms := ms + [Named("class-name", x.className)];
    inner := WriteStrings(os, inner, "tags", x.tags, innerBase, ms);
    ms := ms + [Member("tags", Node(Array, Strings(x.tags)))];
    inner := WriteSourceInfo(os, inner, x.at, innerBase, ms);
    ms := ms + [Located(x.at)];
    assert ms == [Named("name", x.name), Named("class-name", x.className), Member("tags", Node(Array, Strings(x.tags))), Located(x.at)];
    os.CloseMember(r, "", inner, base, members, innerBase, ms);
  }

  method WriteTestList(os: Stream, w: Writer, xs: seq<TestListed>, ghost base: string, ghost members: seq<Member>) returns (r: Writer)
    requires Building(os.text, base, members, w)
    modifies os
    ensures r == w.(shouldComma := true) && Building(os.text, base, members + [Member("tests", Node(Array, TestListedDocs(xs)))], r)
  {
    hide Building, Decimal, Opened, Lead, TestListedDoc;
    var inner;
    ghost var innerBase, ms;
    r, inner, innerBase := os.OpenMember(w, "tests", Array, base, members);
    ms := [];
    var i := 0;
    while i < |xs|
      invariant i <= |xs| && ms == TestListedDocs(xs)[..i]
      invariant inner == Writer(Array, w.indent + 1, i > 0) && Building(os.text, innerBase, ms, inner)
    {
      inner := WriteTestListed(os, inner, xs[i], innerBase, ms);
      ms := ms + [Item(TestListedDoc(xs[i]))];
      i := i + 1;
    }
    assert ms == TestListedDocs(xs);
    os.CloseMember(r, "tests", inner, base, members, innerBase, ms);
  }

  method WriteTagListed(os: Stream, w: Writer, x: TagListed, ghost base: string, ghost members: seq<Member>) returns (r: Writer)
    requires Building(os.text, base, members, w)
    modifies os
    ensures r == w.(shouldComma := true) && Building(os.text, base, members + [Item(TagListedDoc(x))], r)
  {
    hide Building, Decimal, Opened, Lead, SourceDoc, Strings;
    var inner;
    ghost var innerBase, ms;
    r, inner, innerBase := os.OpenMember(w, "", Object, base, members);
    ms := [];
    inner := WriteStrings(os, inner, "aliases", x.spellings, innerBase, ms);
    ms := ms + [Member("aliases", Node(Array, Strings(x.spellings)))];
    inner := WriteNumber(os, inner, "count", x.count, innerBase, ms);
    ms := ms + [Number("count", x.count)];
    assert ms == [Member("aliases", Node(Array, Strings(x.spellings))), Number("count", x.count)];
    os.CloseMember(r, "", inner, base, members, innerBase, ms);
  }

  method WriteTagList(os: Stream, w: Writer, xs: seq<TagListed>, ghost base: string, ghost members: seq<Member>) returns (r: Writer)
    requires Building(os.text, base, members, w)
    modifies os
    ensures r == w.(shouldComma := true) && Building(os.text, base, members + [Member("tags", Node(Array, TagListedDocs(xs)))], r)
  {
    hide Building, Decimal, Opened, Lead, TagListedDoc;
    var inner;
    ghost var innerBase, ms;
    r, inner, innerBase := os.OpenMember(w, "tags", Array, base, members);
    ms := [];
    var i := 0;
    while i < |xs|
      invariant i <= |xs| && ms == TagListedDocs(xs)[..i]
      invariant inner == Writer(Array, w.indent + 1, i > 0) && Building(os.text, innerBase, ms, inner)
    {
      inner := WriteTagListed(os, inner, xs[i], innerBase, ms);
      ms := ms + [Item(TagListedDoc(xs[i]))];
      i := i + 1;
    }
    assert ms == TagListedDocs(xs);
    os.CloseMember(r, "tags", inner, base, members, innerBase, ms);
  }

  /** One listing, as a member of the "listings" object. */
  method WriteListing(os: Stream, w: Writer, l: Listing, ghost base: string, ghost members: seq<Member>) returns (r: Writer)
    requires Building(os.text, base, members, w)
    modifies os
    ensures r == w.(shouldComma := true) && Building(os.text, base, members + [ListingDoc(l)], r)
  {
    hide Building, DescribedDocs, TestListedDocs, TagListedDocs;
    match l
    case Reporters(ds) => r := WriteDescribedList(os, w, "reporters", ds, base, members);
    case Listeners(ds) => r := WriteDescribedList(os, w, "listeners", ds, base, members);
    case Tests(ts) => r := WriteTestList(os, w, ts, base, members);
    case Tags(ts) => r := WriteTagList(os, w, ts, base, members);
  }
}
