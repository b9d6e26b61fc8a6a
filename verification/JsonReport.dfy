/** What a test session reports, and the document it is to be reported as. */
module JsonReport {
  import opened Json
  import opened Options

  datatype Source = Source(file: string, line: nat)

  datatype Counts = Counts(passed: nat, failed: nat, failedButOk: nat, skipped: nat)

  /** What happens inside a section: assertions, and sections inside it. */
  datatype Part = Assertion(at: Source, ok: bool) | Section(name: string, at: Source, parts: seq<Part>)

  datatype Partial = Partial(index: nat, parts: seq<Part>, out: string, err: string, counts: Counts)

  datatype CaseInfo = CaseInfo(name: string, at: Source, tags: seq<string>, hidden: bool, okToFail: bool, expectedToFail: bool, throws: bool)

  datatype Case = Case(info: CaseInfo, partials: seq<Partial>, counts: Counts)

  datatype TestRun = TestRun(cases: seq<Case>, assertions: Counts, testCases: Counts)

  datatype Described = Described(name: string, description: string)

  datatype TestListed = TestListed(name: string, className: string, tags: seq<string>, at: Source)

  datatype TagListed = TagListed(spellings: seq<string>, count: nat)

  datatype Listing =
    | Reporters(reporters: seq<Described>)
    | Listeners(listeners: seq<Described>)
    | Tests(tests: seq<TestListed>)
    | Tags(tags: seq<TagListed>)

  datatype Config = Config(name: string, seed: nat, version: string, filters: Option<string>)

  /** Any listings come before the run, and there is at most one run. */
  datatype Session = Session(config: Config, listings: seq<Listing>, run: Option<TestRun>)

  // ----- Leaves -----

  function DigitChar(n: nat): char
    requires n < 10
  {
    ('0' as int + n) as char
  }

  function Decimal(n: nat): string {
    if n < 10 then [DigitChar(n)] else Decimal(n / 10) + [DigitChar(n % 10)]
  }

  lemma {:induction false} DecimalIsDigits(n: nat)
    ensures Decimal(n) != "" && forall c :: c in Decimal(n) ==> '0' <= c <= '9'
  {
    assert '0' <= DigitChar(n % 10) <= '9';
    if n >= 10 { DecimalIsDigits(n / 10); }
  }

  lemma DecimalNeedsNoEscape(n: nat)
    ensures Escaped(Decimal(n)) == Decimal(n)
  {
    DecimalIsDigits(n);
    PlainNeedsNoEscape(Decimal(n));
  }

  function Number(key: string, n: nat): Member {
    Member(key, Scalar(Decimal(n)))
  }

  function Named(key: string, value: string): Member {
    Member(key, Text(value))
  }

  function Bool(b: bool): string {
    if b then "true" else "false"
  }

  function Item(v: Value): Member {
    Member("", v)
  }

  function Strings(s: seq<string>): seq<Member> {
    seq(|s|, i requires 0 <= i < |s| => Item(Text(s[i])))
  }

  // ----- The document -----

  function CountsDoc(c: Counts): seq<Member> {
    [Number("passed", c.passed), Number("failed", c.failed), Number("fail-but-ok", c.failedButOk), Number("skipped", c.skipped)]
  }

  function SourceDoc(at: Source): seq<Member> {
    [Named("filename", at.file), Number("line", at.line)]
  }

  function Located(at: Source): Member {
    Member("source-location", Node(Object, SourceDoc(at)))
  }

  function AssertionTotals(c: Counts): Member {
    Member("totals", Node(Object, [Member("assertions", Node(Object, CountsDoc(c)))]))
  }

  function PartDoc(p: Part): Value
    decreases p
  {
    match p
    case Assertion(at, ok) => Node(Object, [Named("kind", "assertion"), Located(at), Member("status", Scalar(Bool(ok)))])
    case Section(name, at, parts) =>
      Node(Object, [Named("kind", "section"), Named("name", name), Located(at), Member("path", Node(Array, PartDocs(parts)))])
  }

  function PartDocs(parts: seq<Part>): seq<Member>
    decreases parts
  {
    if parts == [] then [] else PartDocs(parts[..|parts| - 1]) + [Item(PartDoc(parts[|parts| - 1]))]
  }

  function Captured(key: string, text: string): seq<Member> {
    if text == "" then [] else [Named(key, text)]
  }

  function PartialDoc(p: Partial): Value {
    Node(Object, [Number("run-idx", p.index), Member("path", Node(Array, PartDocs(p.parts)))] +
                 Captured("captured-stdout", p.out) + Captured("captured-stderr", p.err) + [AssertionTotals(p.counts)])
  }

  function PropertiesOf(i: CaseInfo): seq<string> {
    (if i.hidden then ["is-hidden"] else []) + (if i.okToFail then ["ok-to-fail"] else []) +
    (if i.expectedToFail then ["expected-to-fail"] else []) + (if i.throws then ["throws"] else [])
  }

  function CaseInfoDoc(i: CaseInfo): seq<Member> {
    [Named("name", i.name), Located(i.at), Member("tags", Node(Array, Strings(i.tags))),
     Member("properties", Node(Array, Strings(PropertiesOf(i))))]
  }

  function PartialDocs(partials: seq<Partial>): seq<Member> {
    seq(|partials|, i requires 0 <= i < |partials| => Item(PartialDoc(partials[i])))
  }

  function CaseDoc(c: Case): Value {
    Node(Object, [Member("test-info", Node(Object, CaseInfoDoc(c.info))), Member("runs", Node(Array, PartialDocs(c.partials))),
                  AssertionTotals(c.counts)])
  }

  function CaseDocs(cases: seq<Case>): seq<Member> {
    seq(|cases|, i requires 0 <= i < |cases| => Item(CaseDoc(cases[i])))
  }

  function RunTotals(assertions: Counts, testCases: Counts): Member {
    Member("totals", Node(Object, [Member("assertions", Node(Object, CountsDoc(assertions))),
                                   Member("test-cases", Node(Object, CountsDoc(testCases)))]))
  }

  function RunDoc(r: TestRun): Value {
    Node(Object, [Member("test-cases", Node(Array, CaseDocs(r.cases))),
                  RunTotals(r.assertions, r.testCases)])
  }

  function DescribedDoc(d: Described): Value {
    Node(Object, [Named("name", d.name), Named("description", d.description)])
  }

  function DescribedDocs(ds: seq<Described>): seq<Member> {
    seq(|ds|, i requires 0 <= i < |ds| => Item(DescribedDoc(ds[i])))
  }

  function TestListedDoc(t: TestListed): Value {
    Node(Object, [Named("name", t.name), Named("class-name", t.className), Member("tags", Node(Array, Strings(t.tags))), Located(t.at)])
  }

  function TestListedDocs(ts: seq<TestListed>): seq<Member> {
    seq(|ts|, i requires 0 <= i < |ts| => Item(TestListedDoc(ts[i])))
  }

  function TagListedDoc(t: TagListed): Value {
    Node(Object, [Member("aliases", Node(Array, Strings(t.spellings))), Number("count", t.count)])
  }

  function TagListedDocs(ts: seq<TagListed>): seq<Member> {
    seq(|ts|, i requires 0 <= i < |ts| => Item(TagListedDoc(ts[i])))
  }

  function ListingDoc(l: Listing): Member {
    match l
    case Reporters(ds) => Member("reporters", Node(Array, DescribedDocs(ds)))
    case Listeners(ds) => Member("listeners", Node(Array, DescribedDocs(ds)))
    case Tests(ts) => Member("tests", Node(Array, TestListedDocs(ts)))
    case Tags(ts) => Member("tags", Node(Array, TagListedDocs(ts)))
  }

  function ListingDocs(ls: seq<Listing>): seq<Member> {
    seq(|ls|, i requires 0 <= i < |ls| => ListingDoc(ls[i]))
  }

  function MetadataDoc(c: Config): seq<Member> {
    [Named("name", c.name), Number("rng-seed", c.seed), Named("catch2-version", c.version)] +
    if c.filters.Some? then [Named("filters", c.filters.value)] else []
  }

  function HeaderDoc(c: Config): seq<Member> {
    [Number("version", 1), Member("metadata", Node(Object, MetadataDoc(c)))]
  }

  /** The document of a whole session. */
  function Document(s: Session): Value {
    Node(Object, HeaderDoc(s.config) +
                 (if s.listings == [] then [] else [Member("listings", Node(Object, ListingDocs(s.listings)))]) +
                 (if s.run.Some? then [Member("test-run", RunDoc(s.run.value))] else []))
  }
}
