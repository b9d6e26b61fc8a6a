/** What a document says of a session, read by keys and literals. */
module SessionDecoder {
  // Nothing here refers to the functions that a document is built with, except to prove that the decoder undoes them.

  import opened Json
  import opened Options
  import opened JsonReport

  // ----- Members and leaves -----

  /** The value of the first member with this key. */
  function Find(members: seq<Member>, key: string): (r: Option<Value>)
    ensures r.Some? ==> exists i :: 0 <= i < |members| && members[i].value == r.value
  {
    if members == [] then None else if members[0].key == key then Some(members[0].value) else Find(members[1..], key)
  }

  function At(v: Value, key: string): Option<Value> {
    if v.Node? && v.kind == Object then Find(v.members, key) else None
  }

  function TextOf(v: Value): Option<string> {
    if v.Text? then Some(v.value) else None
  }

  function TextAt(v: Value, key: string): Option<string> {
    var t := At(v, key);
    if t.Some? then TextOf(t.value) else None
  }

  /** The number a numeral stands for, digit by digit. */
  function Numeral(s: string): Option<nat> {
    if s == "" || !('0' <= s[|s| - 1] <= '9') then None
    else
      var digit := s[|s| - 1] as int - '0' as int;
      if |s| == 1 then Some(digit)
      else
        var front := Numeral(s[..|s| - 1]);
        if front.Some? then Some(10 * front.value + digit) else None
  }

  function NumberAt(v: Value, key: string): Option<nat> {
    var n := At(v, key);
    if n.Some? && n.value.Scalar? then Numeral(n.value.text) else None
  }

  function TruthAt(v: Value, key: string): Option<bool> {
    var t := At(v, key);
    if t == Some(Scalar("true")) then Some(true) else if t == Some(Scalar("false")) then Some(false) else None
  }

  /** All elements decoded, if they can be. */
  function All<T>(elements: seq<Member>, f: Value -> Option<T>): Option<seq<T>> {
    if elements == [] then Some([])
    else
      var first, rest := f(elements[0].value), All(elements[1..], f);
      if first.Some? && rest.Some? then Some([first.value] + rest.value) else None
  }

  function ListAt<T>(v: Value, key: string, f: Value -> Option<T>): Option<seq<T>> {
    var a := At(v, key);
    if a.Some? && a.value.Node? && a.value.kind == Array then All(a.value.members, f) else None
  }

  // ----- What is reported -----

  function CountsOf(v: Value): Option<Counts> {
    var passed, failed := NumberAt(v, "passed"), NumberAt(v, "failed");
    var butOk, skipped := NumberAt(v, "fail-but-ok"), NumberAt(v, "skipped");
    if passed.Some? && failed.Some? && butOk.Some? && skipped.Some?
    then Some(Counts(passed.value, failed.value, butOk.value, skipped.value)) else None
  }

  function CountsAt(v: Value, key: string): Option<Counts> {
    var totals := At(v, "totals");
    var counts := if totals.Some? then At(totals.value, key) else None;
    if counts.Some? then CountsOf(counts.value) else None
  }

  function SourceOf(v: Value): Option<Source> {
    var file, line := TextAt(v, "filename"), NumberAt(v, "line");
    if file.Some? && line.Some? then Some(Source(file.value, line.value)) else None
  }

  function SourceAt(v: Value): Option<Source> {
    var at := At(v, "source-location");
    if at.Some? then SourceOf(at.value) else None
  }

  function PartOf(v: Value): Option<Part>
    decreases v, 1
  {
    var kind, at := TextAt(v, "kind"), SourceAt(v);
    if kind == Some("assertion") then
      var ok := TruthAt(v, "status");
      if at.Some? && ok.Some? then Some(Assertion(at.value, ok.value)) else None
    else if kind == Some("section") then
      var name, path := TextAt(v, "name"), At(v, "path");
      if name.Some? && at.Some? && path.Some? && path.value.Node? && path.value.kind == Array then
        var parts := PartsOf(path.value.members);
        if parts.Some? then Some(Section(name.value, at.value, parts.value)) else None
      else None
    else None
  }

  function PartsOf(elements: seq<Member>): Option<seq<Part>>
    decreases elements, 0
  {
    if elements == [] then Some([])
    else
      var n := |elements| - 1;
      var front, last := PartsOf(elements[..n]), PartOf(elements[n].value);
      if front.Some? && last.Some? then Some(front.value + [last.value]) else None
  }

  /** Output that was not captured is empty. */
  function CapturedAt(v: Value, key: string): string {
    var text := TextAt(v, key);
    if text.Some? then text.value else ""
  }

  function PartialOf(v: Value): Option<Partial> {
    var index, path, counts := NumberAt(v, "run-idx"), At(v, "path"), CountsAt(v, "assertions");
    if index.Some? && counts.Some? && path.Some? && path.value.Node? && path.value.kind == Array then
      var parts := PartsOf(path.value.members);
      if parts.Some? then
        Some(Partial(index.value, parts.value, CapturedAt(v, "captured-stdout"), CapturedAt(v, "captured-stderr"), counts.value))
      else None
    else None
  }

  function CaseInfoOf(v: Value): Option<CaseInfo> {
    var name, at, tags := TextAt(v, "name"), SourceAt(v), ListAt(v, "tags", TextOf);
    var properties := ListAt(v, "properties", TextOf);
    if name.Some? && at.Some? && tags.Some? && properties.Some? then
      Some(CaseInfo(name.value, at.value, tags.value, "is-hidden" in properties.value, "ok-to-fail" in properties.value,
                    "expected-to-fail" in properties.value, "throws" in properties.value))
    else None
  }

  function CaseOf(v: Value): Option<Case> {
    var i, runs, counts := At(v, "test-info"), ListAt(v, "runs", PartialOf), CountsAt(v, "assertions");
    var info := if i.Some? then CaseInfoOf(i.value) else None;
    if info.Some? && runs.Some? && counts.Some? then Some(Case(info.value, runs.value, counts.value)) else None
  }

  function RunOf(v: Value): Option<TestRun> {
    var cases, a, t := ListAt(v, "test-cases", CaseOf), CountsAt(v, "assertions"), CountsAt(v, "test-cases");
    if cases.Some? && a.Some? && t.Some? then Some(TestRun(cases.value, a.value, t.value)) else None
  }

  function DescribedOf(v: Value): Option<Described> {
    var name, description := TextAt(v, "name"), TextAt(v, "description");
    if name.Some? && description.Some? then Some(Described(name.value, description.value)) else None
  }

  function TestListedOf(v: Value): Option<TestListed> {
    var name, className, tags, at := TextAt(v, "name"), TextAt(v, "class-name"), ListAt(v, "tags", TextOf), SourceAt(v);
    if name.Some? && className.Some? && tags.Some? && at.Some?
    then Some(TestListed(name.value, className.value, tags.value, at.value)) else None
  }

  function TagListedOf(v: Value): Option<TagListed> {
    var spellings, count := ListAt(v, "aliases", TextOf), NumberAt(v, "count");
    if spellings.Some? && count.Some? then Some(TagListed(spellings.value, count.value)) else None
  }

  function ListingOf(m: Member): Option<Listing> {
    if !(m.value.Node? && m.value.kind == Array) then None
    else if m.key == "reporters" || m.key == "listeners" then
      var described := All(m.value.members, DescribedOf);
      if described.None? then None
      else Some(if m.key == "reporters" then Reporters(described.value) else Listeners(described.value))
    else if m.key == "tests" then
      var tests := All(m.value.members, TestListedOf);
      if tests.Some? then Some(Tests(tests.value)) else None
    else if m.key == "tags" then
      var tags := All(m.value.members, TagListedOf);
      if tags.Some? then Some(Tags(tags.value)) else None
    else None
  }

  function ListingsOf(members: seq<Member>): Option<seq<Listing>> {
    if members == [] then Some([])
    else
      var first, rest := ListingOf(members[0]), ListingsOf(members[1..]);
      if first.Some? && rest.Some? then Some([first.value] + rest.value) else None
  }

  function ConfigOf(v: Value): Option<Config> {
    var name, seed, version := TextAt(v, "name"), NumberAt(v, "rng-seed"), TextAt(v, "catch2-version");
    if name.Some? && seed.Some? && version.Some?
    then Some(Config(name.value, seed.value, version.value, TextAt(v, "filters"))) else None
  }

  function SessionOf(v: Value): Option<Session> {
    var metadata, listed, ran := At(v, "metadata"), At(v, "listings"), At(v, "test-run");
    var config := if metadata.Some? then ConfigOf(metadata.value) else None;
    var listings := if listed.None? then Some([]) else if listed.value.Node? then ListingsOf(listed.value.members) else None;
    var run := if ran.Some? then RunOf(ran.value) else None;
    if NumberAt(v, "version") == Some(1) && config.Some? && listings.Some? && (ran.Some? ==> run.Some?)
    then Some(Session(config.value, listings.value, run)) else None
  }

  // ----- Finding -----

  lemma {:induction false} FindAmong(members: seq<Member>, i: nat, key: string)
    requires i < |members| && members[i].key == key && forall j :: 0 <= j < i ==> members[j].key != key
    ensures Find(members, key) == Some(members[i].value)
    decreases i
  {
    if i > 0 { FindAmong(members[1..], i - 1, key); }
  }

  lemma {:induction false} FindNone(members: seq<Member>, key: string)
    requires forall j :: 0 <= j < |members| ==> members[j].key != key
    ensures Find(members, key) == None
    decreases |members|
  {
    if members != [] { FindNone(members[1..], key); }
  }

  lemma AtIs(members: seq<Member>, i: nat, key: string)
    requires i < |members| && members[i].key == key && forall j :: 0 <= j < i ==> members[j].key != key
    ensures At(Node(Object, members), key) == Some(members[i].value)
  {
    FindAmong(members, i, key);
  }

  lemma NotAt(members: seq<Member>, key: string)
    requires forall j :: 0 <= j < |members| ==> members[j].key != key
    ensures At(Node(Object, members), key) == None
  {
    FindNone(members, key);
  }

  lemma {:induction false} NumeralOfDecimal(n: nat)
    ensures Numeral(Decimal(n)) == Some(n)
  {
    if n >= 10 {
      NumeralOfDecimal(n / 10);
      var s := Decimal(n);
      assert s[..|s| - 1] == Decimal(n / 10);
      DecimalIsDigits(n / 10);
    }
  }

  lemma {:induction false} AllRead<T>(xs: seq<T>, elements: seq<Member>, f: Value -> Option<T>)
    requires |elements| == |xs| && forall i :: 0 <= i < |xs| ==> f(elements[i].value) == Some(xs[i])
    ensures All(elements, f) == Some(xs)
    decreases |xs|
  {
    if xs != [] {
      AllRead(xs[1..], elements[1..], f);
      assert [xs[0]] + xs[1..] == xs;
    }
  }

  lemma StringsRead(ss: seq<string>)
    ensures All(Strings(ss), TextOf) == Some(ss)
  {
    AllRead(ss, Strings(ss), TextOf);
  }

  // ----- Decoding what was built -----

  lemma CountsRead(c: Counts)
    ensures CountsOf(Node(Object, CountsDoc(c))) == Some(c)
  {
    hide Decimal, Numeral, At;
    var ms := CountsDoc(c);
    AtIs(ms, 0, "passed");
    AtIs(ms, 1, "failed");
    AtIs(ms, 2, "fail-but-ok");
    AtIs(ms, 3, "skipped");
    NumeralOfDecimal(c.passed);
    NumeralOfDecimal(c.failed);
    NumeralOfDecimal(c.failedButOk);
    NumeralOfDecimal(c.skipped);
  }

  /** The totals hold the counts of assertions, and perhaps others behind them. */
  lemma CountsAtRead(v: Value, key: string, c: Counts)
    requires var t := At(v, "totals"); t.Some? && At(t.value, key) == Some(Node(Object, CountsDoc(c)))
    ensures CountsAt(v, key) == Some(c)
  {
    hide At, CountsOf, CountsDoc;
    CountsRead(c);
  }

  lemma TotalsRead(c: Counts)
    ensures At(AssertionTotals(c).value, "assertions") == Some(Node(Object, CountsDoc(c)))
  {
    hide At, CountsDoc;
    AtIs([Member("assertions", Node(Object, CountsDoc(c)))], 0, "assertions");
  }

  lemma SourceRead(at: Source)
    ensures SourceOf(Located(at).value) == Some(at)
  {
    hide Decimal, Numeral, At;
    AtIs(SourceDoc(at), 0, "filename");
    AtIs(SourceDoc(at), 1, "line");
    NumeralOfDecimal(at.line);
  }

  lemma {:induction false} PartRead(p: Part)
    ensures PartOf(PartDoc(p)) == Some(p)
    decreases p
  {
    hide At, SourceDoc, SourceOf, PartsOf, PartDocs;
    var ms := PartDoc(p).members;
    AtIs(ms, 0, "kind");
    match p
    case Assertion(at, ok) =>
      AtIs(ms, 1, "source-location");
      AtIs(ms, 2, "status");
      SourceRead(at);
      TruthRead(PartDoc(p), "status", ok);
      KindsDiffer();
    case Section(name, at, parts) =>
      AtIs(ms, 1, "name");
      AtIs(ms, 2, "source-location");
      AtIs(ms, 3, "path");
      SourceRead(at);
      PartsRead(parts);
      KindsDiffer();
  }

  lemma KindsDiffer()
    ensures "assertion" != "section"
  {
  }

  lemma TruthRead(v: Value, key: string, b: bool)
    requires At(v, key) == Some(Scalar(Bool(b)))
    ensures TruthAt(v, key) == Some(b)
  {
    hide At;
    assert "true" != "false";
  }

  lemma {:induction false} PartsRead(parts: seq<Part>)
    ensures PartsOf(PartDocs(parts)) == Some(parts)
    decreases parts
  {
    hide PartDoc, PartOf;
    if parts != [] {
      var n := |parts| - 1;
      PartsRead(parts[..n]);
      PartRead(parts[n]);
      var ms := PartDocs(parts);
      assert ms[..|ms| - 1] == PartDocs(parts[..n]) && parts[..n] + [parts[n]] == parts;
    }
  }

  lemma CapturedRead(before: seq<Member>, key: string, text: string, after: seq<Member>)
    requires (forall j :: 0 <= j < |before| ==> before[j].key != key) && forall j :: 0 <= j < |after| ==> after[j].key != key
    ensures CapturedAt(Node(Object, before + Captured(key, text) + after), key) == text
  {
    hide At;
    var ms := before + Captured(key, text) + after;
    if text == "" { NotAt(ms, key); } else { AtIs(ms, |before|, key); }
  }

  lemma PartialRead(p: Partial)
    ensures PartialOf(PartialDoc(p)) == Some(p)
  {
    hide At, Decimal, Numeral, PartsOf, PartDocs, CountsAt, CapturedAt, Captured;
    var front := [Number("run-idx", p.index), Member("path", Node(Array, PartDocs(p.parts)))];
    var out, err, last := Captured("captured-stdout", p.out), Captured("captured-stderr", p.err), [AssertionTotals(p.counts)];
    CapturedKeys("captured-stdout", p.out);
    CapturedKeys("captured-stderr", p.err);
    KeysOfPartial();
    var ms := front + out + err + last;
    AtIs(ms, 0, "run-idx");
    AtIs(ms, 1, "path");
    NumeralOfDecimal(p.index);
    PartsRead(p.parts);
    CapturedRead(front, "captured-stdout", p.out, err + last);
    assert front + out + (err + last) == ms;
    CapturedRead(front + out, "captured-stderr", p.err, last);
    assert |ms| == 3 + |out| + |err| && ms[|ms| - 1] == last[0];
    AtIs(ms, |ms| - 1, "totals");
    TotalsRead(p.counts);
    CountsAtRead(PartialDoc(p), "assertions", p.counts);
  }

  lemma CapturedKeys(key: string, text: string)
    ensures |Captured(key, text)| <= 1 && forall j :: 0 <= j < |Captured(key, text)| ==> Captured(key, text)[j].key == key
  {
  }

  lemma KeysOfPartial()
    ensures "run-idx" != "path" && "captured-stdout" != "captured-stderr" && "totals" != "captured-stdout"
    ensures "totals" != "captured-stderr" && "totals" != "run-idx" && "totals" != "path"
    ensures "run-idx" != "captured-stdout" && "run-idx" != "captured-stderr" && "path" != "captured-stdout" && "path" != "captured-stderr"
  {
  }

  lemma PropertiesRead(i: CaseInfo)
    ensures var ps := PropertiesOf(i);
            ("is-hidden" in ps <==> i.hidden) && ("ok-to-fail" in ps <==> i.okToFail) &&
            ("expected-to-fail" in ps <==> i.expectedToFail) && ("throws" in ps <==> i.throws)
  {
    assert "is-hidden" != "ok-to-fail" && "is-hidden" != "expected-to-fail" && "is-hidden" != "throws";
    assert "ok-to-fail" != "expected-to-fail" && "ok-to-fail" != "throws" && "expected-to-fail" != "throws";
    var a, b := if i.hidden then ["is-hidden"] else [], if i.okToFail then ["ok-to-fail"] else [];
    var c, d := if i.expectedToFail then ["expected-to-fail"] else [], if i.throws then ["throws"] else [];
    assert forall s :: s in PropertiesOf(i) <==> s in a || s in b || s in c || s in d;
  }

  lemma CaseInfoRead(i: CaseInfo)
    ensures CaseInfoOf(Node(Object, CaseInfoDoc(i))) == Some(i)
  {
    hide At, SourceDoc, SourceOf, Strings, PropertiesOf, All;
    var ms := CaseInfoDoc(i);
    AtIs(ms, 0, "name");
    AtIs(ms, 1, "source-location");
    AtIs(ms, 2, "tags");
    AtIs(ms, 3, "properties");
    SourceRead(i.at);
    StringsRead(i.tags);
    StringsRead(PropertiesOf(i));
    PropertiesRead(i);
  }

  lemma CaseRead(c: Case)
    ensures CaseOf(CaseDoc(c)) == Some(c)
  {
    hide At, CaseInfoDoc, CaseInfoOf, PartialDocs, All, CountsAt;
    var ms := CaseDoc(c).members;
    AtIs(ms, 0, "test-info");
    AtIs(ms, 1, "runs");
    AtIs(ms, 2, "totals");
    CaseInfoRead(c.info);
    PartialsRead(c.partials);
    TotalsRead(c.counts);
    CountsAtRead(CaseDoc(c), "assertions", c.counts);
  }

  lemma PartialsRead(ps: seq<Partial>)
    ensures All(PartialDocs(ps), PartialOf) == Some(ps)
  {
    hide PartialOf, PartialDoc;
    forall i | 0 <= i < |ps| ensures PartialOf(PartialDocs(ps)[i].value) == Some(ps[i]) { PartialRead(ps[i]); }
    AllRead(ps, PartialDocs(ps), PartialOf);
  }

  lemma RunRead(r: TestRun)
    ensures RunOf(RunDoc(r)) == Some(r)
  {
    hide At, CaseDocs, All, CountsAt, CountsDoc;
    var ms := RunDoc(r).members;
    AtIs(ms, 0, "test-cases");
    AtIs(ms, 1, "totals");
    CasesRead(r.cases);
    var totals := RunTotals(r.assertions, r.testCases).value.members;
    AtIs(totals, 0, "assertions");
    AtIs(totals, 1, "test-cases");
    CountsAtRead(RunDoc(r), "assertions", r.assertions);
    CountsAtRead(RunDoc(r), "test-cases", r.testCases);
  }

  lemma CasesRead(cs: seq<Case>)
    ensures All(CaseDocs(cs), CaseOf) == Some(cs)
  {
    hide CaseOf, CaseDoc;
    forall i | 0 <= i < |cs| ensures CaseOf(CaseDocs(cs)[i].value) == Some(cs[i]) { CaseRead(cs[i]); }
    AllRead(cs, CaseDocs(cs), CaseOf);
  }

  lemma DescribedRead(d: Described)
    ensures DescribedOf(DescribedDoc(d)) == Some(d)
  {
    hide At;
    var ms := DescribedDoc(d).members;
    AtIs(ms, 0, "name");
    AtIs(ms, 1, "description");
  }

  lemma TestListedRead(t: TestListed)
    ensures TestListedOf(TestListedDoc(t)) == Some(t)
  {
    hide At, SourceDoc, SourceOf, Strings, All;
    var ms := TestListedDoc(t).members;
    AtIs(ms, 0, "name");
    AtIs(ms, 1, "class-name");
    AtIs(ms, 2, "tags");
    AtIs(ms, 3, "source-location");
    StringsRead(t.tags);
    SourceRead(t.at);
  }

  lemma TagListedRead(t: TagListed)
    ensures TagListedOf(TagListedDoc(t)) == Some(t)
  {
    hide At, Decimal, Numeral, Strings, All;
    var ms := TagListedDoc(t).members;
    AtIs(ms, 0, "aliases");
    AtIs(ms, 1, "count");
    StringsRead(t.spellings);
    NumeralOfDecimal(t.count);
  }

  lemma DescribedListRead(ds: seq<Described>)
    ensures All(DescribedDocs(ds), DescribedOf) == Some(ds)
  {
    hide DescribedOf, DescribedDoc;
    forall i | 0 <= i < |ds| ensures DescribedOf(DescribedDocs(ds)[i].value) == Some(ds[i]) { DescribedRead(ds[i]); }
    AllRead(ds, DescribedDocs(ds), DescribedOf);
  }

  lemma TestListRead(ts: seq<TestListed>)
    ensures All(TestListedDocs(ts), TestListedOf) == Some(ts)
  {
    hide TestListedOf, TestListedDoc;
    forall i | 0 <= i < |ts| ensures TestListedOf(TestListedDocs(ts)[i].value) == Some(ts[i]) { TestListedRead(ts[i]); }
    AllRead(ts, TestListedDocs(ts), TestListedOf);
  }

  lemma TagListRead(ts: seq<TagListed>)
    ensures All(TagListedDocs(ts), TagListedOf) == Some(ts)
  {
    hide TagListedOf, TagListedDoc;
    forall i | 0 <= i < |ts| ensures TagListedOf(TagListedDocs(ts)[i].value) == Some(ts[i]) { TagListedRead(ts[i]); }
    AllRead(ts, TagListedDocs(ts), TagListedOf);
  }

  lemma ListingRead(l: Listing)
    ensures ListingOf(ListingDoc(l)) == Some(l)
  {
    hide All, DescribedDocs, TestListedDocs, TagListedDocs;
    ListingKeys();
    match l
    case Reporters(ds) => DescribedListRead(ds);
    case Listeners(ds) => DescribedListRead(ds);
    case Tests(ts) => TestListRead(ts);
    case Tags(ts) => TagListRead(ts);
  }

  lemma ListingKeys()
    ensures "reporters" != "listeners" && "tests" != "reporters" && "tests" != "listeners"
    ensures "tags" != "reporters" && "tags" != "listeners" && "tags" != "tests"
  {
  }

  lemma {:induction false} ListingsRead(ls: seq<Listing>)
    ensures ListingsOf(ListingDocs(ls)) == Some(ls)
    decreases |ls|
  {
    hide ListingOf, ListingDoc;
    if ls != [] {
      ListingRead(ls[0]);
      ListingsRead(ls[1..]);
      assert ListingDocs(ls)[1..] == ListingDocs(ls[1..]) && [ls[0]] + ls[1..] == ls;
    }
  }

  lemma ConfigRead(c: Config)
    ensures ConfigOf(Node(Object, MetadataDoc(c))) == Some(c)
  {
    hide At, Decimal, Numeral;
    var ms := MetadataDoc(c);
    AtIs(ms, 0, "name");
    AtIs(ms, 1, "rng-seed");
    AtIs(ms, 2, "catch2-version");
    NumeralOfDecimal(c.seed);
    if c.filters.Some? { AtIs(ms, 3, "filters"); } else { NotAt(ms, "filters"); }
  }

  /** The document of a session says exactly what happened in it. */
  lemma SessionRead(s: Session)
    ensures SessionOf(Document(s)) == Some(s)
  {
    hide At, Decimal, Numeral, ConfigOf, MetadataDoc, ListingsOf, ListingDocs, RunOf, RunDoc;
    var ms := Document(s).members;
    DocumentKeys();
    AtIs(ms, 0, "version");
    AtIs(ms, 1, "metadata");
    NumeralOfDecimal(1);
    ConfigRead(s.config);
    if s.listings == [] {
      NotAt(ms, "listings");
    } else {
      AtIs(ms, 2, "listings");
      ListingsRead(s.listings);
    }
    if s.run.Some? {
      AtIs(ms, |ms| - 1, "test-run");
      RunRead(s.run.value);
    } else {
      NotAt(ms, "test-run");
    }
  }

  lemma DocumentKeys()
    ensures "version" != "metadata" && "listings" != "version" && "listings" != "metadata"
    ensures "test-run" != "version" && "test-run" != "metadata" && "test-run" != "listings"
  {
  }
}
