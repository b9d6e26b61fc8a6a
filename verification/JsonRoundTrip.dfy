/** When the document of a session is read back, and what it says. */
module JsonRoundTrip {
  import opened Json
  import opened Options
  import opened JsonReport
  import opened JsonReader
  import opened SessionDecoder

  predicate PlainKey(key: string) {
    forall i :: 0 <= i < |key| ==> IsPlain(key[i])
  }

  predicate FramedMember(m: Member) {
    PlainKey(m.key) && Framed(m.value)
  }

  lemma FramedObject(members: seq<Member>)
    requires forall m :: m in members ==> FramedMember(m)
    ensures Framed(Node(Object, members))
  {
  }

  lemma FramedArray(members: seq<Member>)
    requires forall m :: m in members ==> m.key == "" && Framed(m.value)
    ensures Framed(Node(Array, members))
  {
    assert PlainKey("");
  }

  lemma {:induction false} DecimalIsLegal(n: nat)
    ensures LegalScalar(Decimal(n))
  {
    DecimalIsDigits(n);
    DecimalLeads(n);
  }

  lemma {:induction false} DecimalLeads(n: nat)
    ensures Decimal(n) != "" && (Decimal(n)[0] == '0' ==> n == 0 && |Decimal(n)| == 1)
  {
    if n >= 10 { DecimalLeads(n / 10); }
  }

  lemma KeysOfLeaves()
    ensures PlainKey("kind") && PlainKey("name") && PlainKey("filename") && PlainKey("line") && PlainKey("status")
    ensures PlainKey("passed") && PlainKey("failed") && PlainKey("fail-but-ok") && PlainKey("skipped")
    ensures PlainKey("version") && PlainKey("rng-seed") && PlainKey("catch2-version") && PlainKey("filters")
    ensures PlainKey("run-idx") && PlainKey("captured-stdout") && PlainKey("captured-stderr")
    ensures PlainKey("description") && PlainKey("class-name") && PlainKey("count")
  {
    hide PlainKey;
    KeysOfParts();
    KeysOfTop();
  }

  lemma KeysOfParts()
    ensures PlainKey("kind") && PlainKey("name") && PlainKey("filename") && PlainKey("line") && PlainKey("status")
    ensures PlainKey("passed") && PlainKey("failed") && PlainKey("fail-but-ok") && PlainKey("skipped")
  {
  }

  lemma KeysOfTop()
    ensures PlainKey("version") && PlainKey("rng-seed") && PlainKey("catch2-version") && PlainKey("filters")
    ensures PlainKey("run-idx") && PlainKey("captured-stdout") && PlainKey("captured-stderr")
    ensures PlainKey("description") && PlainKey("class-name") && PlainKey("count")
  {
  }

  lemma KeysOfNodes()
    ensures PlainKey("source-location") && PlainKey("totals") && PlainKey("assertions") && PlainKey("path")
    ensures PlainKey("test-info") && PlainKey("tags") && PlainKey("properties") && PlainKey("runs") && PlainKey("test-cases")
    ensures PlainKey("reporters") && PlainKey("listeners") && PlainKey("tests") && PlainKey("aliases")
    ensures PlainKey("metadata") && PlainKey("listings") && PlainKey("test-run")
  {
    hide PlainKey;
    KeysOfRuns();
    KeysOfListings();
  }

  lemma KeysOfRuns()
    ensures PlainKey("source-location") && PlainKey("totals") && PlainKey("assertions") && PlainKey("path")
    ensures PlainKey("test-info") && PlainKey("tags") && PlainKey("properties") && PlainKey("runs") && PlainKey("test-cases")
  {
  }

  lemma KeysOfListings()
    ensures PlainKey("reporters") && PlainKey("listeners") && PlainKey("tests") && PlainKey("aliases")
    ensures PlainKey("metadata") && PlainKey("listings") && PlainKey("test-run")
  {
  }

  lemma NumberIsFramed(key: string, n: nat)
    requires PlainKey(key)
    ensures FramedMember(Number(key, n))
  {
    DecimalIsLegal(n);
  }

  lemma StringsAreFramed(ss: seq<string>)
    ensures Framed(Node(Array, Strings(ss)))
  {
    FramedArray(Strings(ss));
  }

  lemma CountsAreFramed(c: Counts)
    ensures Framed(Node(Object, CountsDoc(c))) && FramedMember(AssertionTotals(c))
  {
    hide PlainKey, LegalScalar, Decimal, Framed;
    KeysOfLeaves();
    KeysOfNodes();
    NumberIsFramed("passed", c.passed);
    NumberIsFramed("failed", c.failed);
    NumberIsFramed("fail-but-ok", c.failedButOk);
    NumberIsFramed("skipped", c.skipped);
    FramedObject(CountsDoc(c));
    FramedObject([Member("assertions", Node(Object, CountsDoc(c)))]);
  }

  lemma NamedIsFramed(key: string, value: string)
    requires PlainKey(key)
    ensures FramedMember(Named(key, value))
  {
  }

  lemma SourceIsFramed(at: Source)
    ensures FramedMember(Located(at))
  {
    hide PlainKey, LegalScalar, Decimal, Framed;
    KeysOfLeaves();
    KeysOfNodes();
    NamedIsFramed("filename", at.file);
    NumberIsFramed("line", at.line);
    FramedObject(SourceDoc(at));
  }

  lemma {:induction false} PartIsFramed(p: Part)
    ensures Framed(PartDoc(p))
    decreases p
  {
    hide PlainKey, LegalScalar, Decimal, Framed, SourceDoc, CountsDoc, Strings, AssertionTotals, PartDocs;
    KeysOfLeaves();
    KeysOfNodes();
    match p
    case Assertion(at, ok) =>
      SourceIsFramed(at);
      NamedIsFramed("kind", "assertion");
      BoolIsFramed(ok);
      FramedObject([Named("kind", "assertion"), Located(at), Member("status", Scalar(Bool(ok)))]);
    case Section(name, at, parts) =>
      SourceIsFramed(at);
      NamedIsFramed("kind", "section");
      NamedIsFramed("name", name);
      PartsAreFramed(parts);
      FramedArray(PartDocs(parts));
      FramedObject([Named("kind", "section"), Named("name", name), Located(at), Member("path", Node(Array, PartDocs(parts)))]);
  }

  lemma BoolIsFramed(b: bool)
    ensures Framed(Scalar(Bool(b)))
  {
  }

  lemma {:induction false} PartsAreFramed(parts: seq<Part>)
    ensures forall m :: m in PartDocs(parts) ==> m.key == "" && Framed(m.value)
    decreases parts
  {
    hide PartDoc, Framed;
    if parts != [] {
      PartsAreFramed(parts[..|parts| - 1]);
      PartIsFramed(parts[|parts| - 1]);
    }
  }

  lemma PartialIsFramed(p: Partial)
    ensures Framed(PartialDoc(p))
  {
    hide PlainKey, LegalScalar, Decimal, Framed, SourceDoc, CountsDoc, Strings, AssertionTotals, PartDocs;
    KeysOfLeaves();
    KeysOfNodes();
    NumberIsFramed("run-idx", p.index);
    PartsAreFramed(p.parts);
    FramedArray(PartDocs(p.parts));
    NamedIsFramed("captured-stdout", p.out);
    NamedIsFramed("captured-stderr", p.err);
    CountsAreFramed(p.counts);
    FramedObject([Number("run-idx", p.index), Member("path", Node(Array, PartDocs(p.parts)))] +
                 Captured("captured-stdout", p.out) + Captured("captured-stderr", p.err) + [AssertionTotals(p.counts)]);
  }

  lemma CaseIsFramed(c: Case)
    ensures Framed(CaseDoc(c))
  {
    hide PlainKey, LegalScalar, Decimal, Framed, SourceDoc, CountsDoc, Strings, AssertionTotals, PartialDoc;
    KeysOfNodes();
    CaseInfoIsFramed(c.info);
    forall i | 0 <= i < |c.partials| ensures Framed(PartialDocs(c.partials)[i].value) { PartialIsFramed(c.partials[i]); }
    FramedArray(PartialDocs(c.partials));
    CountsAreFramed(c.counts);
    FramedObject([Member("test-info", Node(Object, CaseInfoDoc(c.info))), Member("runs", Node(Array, PartialDocs(c.partials))),
                  AssertionTotals(c.counts)]);
  }

  lemma CaseInfoIsFramed(i: CaseInfo)
    ensures Framed(Node(Object, CaseInfoDoc(i)))
  {
    hide PlainKey, LegalScalar, Decimal, Framed, SourceDoc, CountsDoc, Strings, AssertionTotals, PropertiesOf;
    KeysOfLeaves();
    KeysOfNodes();
    NamedIsFramed("name", i.name);
    SourceIsFramed(i.at);
    StringsAreFramed(i.tags);
    StringsAreFramed(PropertiesOf(i));
    FramedObject(CaseInfoDoc(i));
  }

  lemma RunIsFramed(r: TestRun)
    ensures Framed(RunDoc(r))
  {
    hide PlainKey, LegalScalar, Decimal, Framed, SourceDoc, CountsDoc, Strings, AssertionTotals, CaseDoc;
    KeysOfNodes();
    forall i | 0 <= i < |r.cases| ensures Framed(CaseDocs(r.cases)[i].value) { CaseIsFramed(r.cases[i]); }
    FramedArray(CaseDocs(r.cases));
    CountsAreFramed(r.assertions);
    CountsAreFramed(r.testCases);
    var totals := [Member("assertions", Node(Object, CountsDoc(r.assertions))), Member("test-cases", Node(Object, CountsDoc(r.testCases)))];
    FramedObject(totals);
    FramedObject([Member("test-cases", Node(Array, CaseDocs(r.cases))), Member("totals", Node(Object, totals))]);
  }

  lemma DescribedAreFramed(ds: seq<Described>)
    ensures Framed(Node(Array, DescribedDocs(ds)))
  {
    hide PlainKey, LegalScalar, Decimal, Framed, SourceDoc, CountsDoc, Strings, AssertionTotals;
    forall i | 0 <= i < |ds| ensures Framed(DescribedDocs(ds)[i].value) {
      KeysOfLeaves();
      NamedIsFramed("name", ds[i].name);
      NamedIsFramed("description", ds[i].description);
      FramedObject([Named("name", ds[i].name), Named("description", ds[i].description)]);
    }
    FramedArray(DescribedDocs(ds));
  }

  lemma TestsAreFramed(ts: seq<TestListed>)
    ensures Framed(Node(Array, TestListedDocs(ts)))
  {
    hide PlainKey, LegalScalar, Decimal, Framed, SourceDoc, CountsDoc, Strings, AssertionTotals;
    forall i | 0 <= i < |ts| ensures Framed(TestListedDocs(ts)[i].value) {
      KeysOfLeaves();
      KeysOfNodes();
      var t := ts[i];
      NamedIsFramed("name", t.name);
      NamedIsFramed("class-name", t.className);
      StringsAreFramed(t.tags);
      SourceIsFramed(t.at);
      FramedObject([Named("name", t.name), Named("class-name", t.className), Member("tags", Node(Array, Strings(t.tags))), Located(t.at)]);
    }
    FramedArray(TestListedDocs(ts));
  }

  lemma TagsAreFramed(ts: seq<TagListed>)
    ensures Framed(Node(Array, TagListedDocs(ts)))
  {
    hide PlainKey, LegalScalar, Decimal, Framed, SourceDoc, CountsDoc, Strings, AssertionTotals;
    forall i | 0 <= i < |ts| ensures Framed(TagListedDocs(ts)[i].value) {
      KeysOfLeaves();
      KeysOfNodes();
      StringsAreFramed(ts[i].spellings);
      NumberIsFramed("count", ts[i].count);
      FramedObject([Member("aliases", Node(Array, Strings(ts[i].spellings))), Number("count", ts[i].count)]);
    }
    FramedArray(TagListedDocs(ts));
  }

  lemma ListingIsFramed(l: Listing)
    ensures FramedMember(ListingDoc(l))
  {
    hide PlainKey, Framed, DescribedDocs, TestListedDocs, TagListedDocs;
    KeysOfNodes();
    match l
    case Reporters(ds) => DescribedAreFramed(ds);
    case Listeners(ds) => DescribedAreFramed(ds);
    case Tests(ts) => TestsAreFramed(ts);
    case Tags(ts) => TagsAreFramed(ts);
  }

  lemma HeaderIsFramed(c: Config)
    ensures forall m :: m in HeaderDoc(c) ==> FramedMember(m)
  {
    hide PlainKey, LegalScalar, Decimal, Framed;
    KeysOfLeaves();
    KeysOfNodes();
    NumberIsFramed("version", 1);
    NamedIsFramed("name", c.name);
    NumberIsFramed("rng-seed", c.seed);
    NamedIsFramed("catch2-version", c.version);
    if c.filters.Some? { NamedIsFramed("filters", c.filters.value); }
    FramedObject(MetadataDoc(c));
  }

  lemma DocumentIsFramed(s: Session)
    ensures Framed(Document(s))
  {
    hide PlainKey, Framed, HeaderDoc, ListingDoc, RunDoc;
    KeysOfNodes();
    HeaderIsFramed(s.config);
    forall i | 0 <= i < |s.listings| ensures FramedMember(ListingDocs(s.listings)[i]) { ListingIsFramed(s.listings[i]); }
    FramedObject(ListingDocs(s.listings));
    if s.run.Some? { RunIsFramed(s.run.value); }
    FramedObject(Document(s).members);
  }

  /** A reader of JSON gets the document of a session back from what the reporter writes, exactly if every
      string in it is free of the control characters that the writer does not escape. */
  lemma SessionReadsBack(s: Session)
    ensures ReadValue(Render(Document(s), 0) + "\n") == if Sound(Document(s)) then Some((Document(s), "\n")) else None
  {
    hide ReadValue, Render, Document, Sound, Framed;
    DocumentIsFramed(s);
    ReadRendered(Document(s), 0, "\n");
  }

  /** What the reporter writes says exactly what happened in the session, to anyone who reads it as JSON. */
  lemma TextSaysSession(s: Session)
    requires Sound(Document(s))
    ensures var r := ReadValue(Render(Document(s), 0) + "\n"); r.Some? && SessionOf(r.value.0) == Some(s)
  {
    hide ReadValue, Render, Document, Sound, SessionOf;
    SessionReadsBack(s);
    SessionRead(s);
  }

  /** Sessions that differ are not written as the same text. */
  lemma SameTextSameSession(s: Session, t: Session)
    requires Sound(Document(s)) && Sound(Document(t)) && Render(Document(s), 0) == Render(Document(t), 0)
    ensures s == t
  {
    hide ReadValue, Render, Document, Sound, SessionOf;
    TextSaysSession(s);
    TextSaysSession(t);
  }

  /** A session whose name is a control character with no escape of its own cannot be read back. */
  lemma ControlCharacterIsNotReadBack(c: char, seed: nat, version: string)
    requires c < ' ' && !HasShortEscape(c)
    ensures var s := Session(Config([c], seed, version, None), [], None);
            ReadValue(Render(Document(s), 0) + "\n") == None
  {
    var config := Config([c], seed, version, None);
    var s := Session(config, [], None);
    hide ReadValue, Render;
    SessionReadsBack(s);
    assert !Printable([c]) by { assert [c][0] == c; }
    NameInDocument(s);
    hide Document;
  }

  /** If the name of a session is not printable its document is not sound. */
  lemma NameInDocument(s: Session)
    ensures Sound(Document(s)) ==> Printable(s.config.name)
  {
    hide Printable, Decimal;
    var metadata := Node(Object, MetadataDoc(s.config));
    assert MetadataDoc(s.config)[0] == Named("name", s.config.name);
    assert Sound(metadata) ==> Sound(MetadataDoc(s.config)[0].value);
    assert HeaderDoc(s.config)[1] == Member("metadata", metadata);
    assert Document(s).members[1] == Member("metadata", metadata);
    assert Sound(Document(s)) ==> Sound(Document(s).members[1].value);
  }
}
