/** Whole sessions: no assertion fails, and the text is that of their document. */
module JsonSession {
  import opened Json
  import opened JsonReport
  import opened JsonStacks
  import opened JsonReporter

  method PlayPart(r: JsonReporter, p: Part)
    requires r.Valid() && |r.frames| >= 2 && Top(r.frames).kind == Array
    modifies r, r.stream
    ensures r.Valid() && r.startedListing == old(r.startedListing)
    ensures r.frames == Grown(old(r.frames), [Item(PartDoc(p))])
    decreases p
  {
    hide Match, Grown, Closed;
    match p
    case Assertion(at, ok) => r.AssertionEnded(at, ok);
    case Section(name, at, parts) =>
      ghost var f := r.frames;
      ghost var a := Frame(Object, "", [Named("kind", "section"), Named("name", name), Located(at)]);
      r.SectionStarting(name, at);
      PairShape(f, a, Frame(Array, "path", []));
      PlayParts(r, parts);
      GrownPair(f, a, "path", PartDocs(parts));
      PairShape(f, a, Frame(Array, "path", PartDocs(parts)));
      r.SectionEnded();
      ClosedPair(f, a, Frame(Array, "path", PartDocs(parts)), []);
      SectionDone(f, a, parts, p);
  }

  method PlayParts(r: JsonReporter, parts: seq<Part>)
    requires r.Valid() && |r.frames| >= 2 && Top(r.frames).kind == Array
    modifies r, r.stream
    ensures r.Valid() && r.startedListing == old(r.startedListing)
    ensures r.frames == Grown(old(r.frames), PartDocs(parts))
    decreases parts
  {
    hide Match, Grown, Closed, PartDoc;
    GrownNone(r.frames);
    ghost var f := r.frames;
    var i := 0;
    while i < |parts|
      invariant i <= |parts| && r.Valid() && r.startedListing == old(r.startedListing)
      invariant r.frames == Grown(f, PartDocs(parts[..i]))
    {
      GrownShape(f, PartDocs(parts[..i]));
      PlayPart(r, parts[i]);
      PartDocsStep(parts, i);
      GrownTwice(f, PartDocs(parts[..i]), [Item(PartDoc(parts[i]))]);
      i := i + 1;
    }
    assert parts[..|parts|] == parts;
  }

  lemma PartDocsStep(parts: seq<Part>, i: nat)
    requires i < |parts|
    ensures PartDocs(parts[..i + 1]) == PartDocs(parts[..i]) + [Item(PartDoc(parts[i]))]
  {
    assert parts[..i + 1][..i] == parts[..i];
  }

  lemma PairShape(frames: seq<Frame>, a: Frame, b: Frame)
    requires frames != [] && a.kind == Object && b.kind == Array
    ensures InArrayOfObject(frames + [a, b])
  {
    assert Below(frames + [a, b]) == frames + [a];
  }

  lemma GrownPair(frames: seq<Frame>, a: Frame, key: string, ms: seq<Member>)
    ensures Grown(frames + [a, Frame(Array, key, [])], ms) == frames + [a, Frame(Array, key, ms)]
  {
    TwoMore(frames, a, Frame(Array, key, []));
    TwoMore(frames, a, Frame(Array, key, ms));
    GrownFresh(frames + [a], Frame(Array, key, []), ms);
  }

  lemma SectionDone(frames: seq<Frame>, a: Frame, parts: seq<Part>, p: Part)
    requires frames != [] && p.Section? && p.parts == parts
    requires a == Frame(Object, "", [Named("kind", "section"), Named("name", p.name), Located(p.at)])
    ensures Closed(Closed(frames + [a, Frame(Array, "path", PartDocs(parts))])) == Grown(frames, [Item(PartDoc(p))])
  {
    hide Grown, Closed;
    var b := Frame(Array, "path", PartDocs(parts));
    var m := Member("path", Node(Array, PartDocs(parts)));
    ClosedPair(frames, a, b, []);
    ClosedOnto(frames, a.(members := a.members + [m]));
    assert a.members + [m] == [Named("kind", "section"), Named("name", p.name), Located(p.at), m];
  }

  method PlayPartial(r: JsonReporter, p: Partial)
    requires r.Valid() && |r.frames| >= 2 && Top(r.frames).kind == Array
    modifies r, r.stream
    ensures r.Valid() && r.startedListing == old(r.startedListing)
    ensures r.frames == Grown(old(r.frames), [Item(PartialDoc(p))])
  {
    hide Match, Grown, Closed, PartDocs, AssertionTotals, Decimal;
    ghost var f := r.frames;
    ghost var a := Frame(Object, "", [Number("run-idx", p.index)]);
    r.TestCasePartialStarting(p.index);
    PairShape(f, a, Frame(Array, "path", []));
    PlayParts(r, p.parts);
    GrownPair(f, a, "path", PartDocs(p.parts));
    PairShape(f, a, Frame(Array, "path", PartDocs(p.parts)));
    r.TestCasePartialEnded(p.out, p.err, p.counts);
    ghost var more := Captured("captured-stdout", p.out) + Captured("captured-stderr", p.err) + [AssertionTotals(p.counts)];
    ClosedPair(f, a, Frame(Array, "path", PartDocs(p.parts)), more);
    PartialDone(p);
  }

  lemma PartialDone(p: Partial)
    ensures Node(Object, [Number("run-idx", p.index)] + [Member("path", Node(Array, PartDocs(p.parts)))] +
                         (Captured("captured-stdout", p.out) + Captured("captured-stderr", p.err) + [AssertionTotals(p.counts)])) == PartialDoc(p)
  {
    hide PartDocs, AssertionTotals, Decimal;
    var x, y := [Number("run-idx", p.index), Member("path", Node(Array, PartDocs(p.parts)))], Captured("captured-stdout", p.out);
    assert x + (y + Captured("captured-stderr", p.err) + [AssertionTotals(p.counts)]) ==
           x + y + Captured("captured-stderr", p.err) + [AssertionTotals(p.counts)];
  }

  method PlayCase(r: JsonReporter, c: Case)
    requires r.Valid() && |r.frames| >= 2 && Top(r.frames).kind == Array
    modifies r, r.stream
    ensures r.Valid() && r.startedListing == old(r.startedListing)
    ensures r.frames == Grown(old(r.frames), [Item(CaseDoc(c))])
  {
    hide Match, Grown, Closed, PartialDoc, CaseInfoDoc, AssertionTotals;
    ghost var f := r.frames;
    ghost var a := Frame(Object, "", [Member("test-info", Node(Object, CaseInfoDoc(c.info)))]);
    ghost var docs := PartialDocs(c.partials);
    r.TestCaseStarting(c.info);
    var i := 0;
    while i < |c.partials|
      invariant i <= |c.partials| && r.Valid() && r.startedListing == old(r.startedListing)
      invariant r.frames == f + [a, Frame(Array, "runs", docs[..i])]
    {
      PlayPartial(r, c.partials[i]);
      MemberPlayed(f, a, "runs", docs, i);
      i := i + 1;
    }
    assert docs[..i] == docs;
    PairShape(f, a, Frame(Array, "runs", docs));
    r.TestCaseEnded(c.counts);
    ClosedPair(f, a, Frame(Array, "runs", docs), [AssertionTotals(c.counts)]);
    assert a.members + [Member("runs", Node(Array, docs))] + [AssertionTotals(c.counts)] ==
           [Member("test-info", Node(Object, CaseInfoDoc(c.info))), Member("runs", Node(Array, docs)), AssertionTotals(c.counts)];
  }

  lemma MemberPlayed(frames: seq<Frame>, a: Frame, key: string, docs: seq<Member>, i: nat)
    requires i < |docs|
    ensures Grown(frames + [a, Frame(Array, key, docs[..i])], [docs[i]]) == frames + [a, Frame(Array, key, docs[..i + 1])]
  {
    TwoMore(frames, a, Frame(Array, key, docs[..i]));
    TwoMore(frames, a, Frame(Array, key, docs[..i + 1]));
    GrownMore(frames + [a], Frame(Array, key, docs[..i]), docs[i], docs[..i + 1]);
  }

  method PlayRun(r: JsonReporter, run: TestRun)
    requires r.Valid() && (r.startedListing ==> |r.frames| == 2) && (!r.startedListing ==> |r.frames| == 1)
    requires r.frames[0].kind == Object && Top(r.frames).kind == Object
    modifies r, r.stream
    ensures r.Valid() && !r.startedListing
    ensures r.frames == Grown(if old(r.startedListing) then Closed(old(r.frames)) else old(r.frames), [Member("test-run", RunDoc(run))])
  {
    hide Match, Grown, Closed, CaseDoc, CountsDoc;
    ghost var f := if r.startedListing then Closed(r.frames) else r.frames;
    if r.startedListing { ClosedShape(r.frames); }
    ghost var a, docs := Frame(Object, "test-run", []), CaseDocs(run.cases);
    r.TestRunStarting();
    var i := 0;
    while i < |run.cases|
      invariant i <= |run.cases| && r.Valid() && !r.startedListing
      invariant r.frames == f + [a, Frame(Array, "test-cases", docs[..i])]
    {
      PlayCase(r, run.cases[i]);
      MemberPlayed(f, a, "test-cases", docs, i);
      i := i + 1;
    }
    assert docs[..i] == docs;
    PairShape(f, a, Frame(Array, "test-cases", docs));
    r.TestRunEnded(run.assertions, run.testCases);
    ghost var totals := RunTotals(run.assertions, run.testCases);
    ClosedPair(f, a, Frame(Array, "test-cases", docs), [totals]);
    assert [] + [Member("test-cases", Node(Array, docs))] + [totals] == [Member("test-cases", Node(Array, docs)), totals];
  }

  /** A whole session, from the making of the reporter to its destruction. */
  method Report(s: Session) returns (text: string)
    ensures text == Render(Document(s), 0) + "\n"
  {
    hide Match, Grown, Closed, HeaderDoc, ListingDoc, RunDoc, Render;
    var r := new JsonReporter(s.config);
    ghost var top, docs := Frame(Object, "", HeaderDoc(s.config)), ListingDocs(s.listings);
    var i := 0;
    while i < |s.listings|
      invariant i <= |s.listings| && r.Valid() && fresh(r) && fresh(r.stream) && (r.startedListing <==> i > 0)
      invariant r.frames == [top] + if i == 0 then [] else [Frame(Object, "listings", docs[..i])]
    {
      ListingShape(top, docs, i);
      r.List(s.listings[i]);
      i := i + 1;
    }
    ghost var members := top.members + if s.listings == [] then [] else [Member("listings", Node(Object, docs))];
    assert docs[..i] == docs;
    ListingsDone(top, docs);
    assert (if r.startedListing then Closed(r.frames) else r.frames) == [top.(members := members)];
    if s.run.Some? {
      PlayRun(r, s.run.value);
      GrownTop(top.(members := members), Member("test-run", RunDoc(s.run.value)));
    }
    r.Finish();
    text := r.stream.text;
    SessionDone(s, members);
  }

  lemma ListingShape(top: Frame, docs: seq<Member>, i: nat)
    requires i < |docs| && top.kind == Object
    ensures var f := [top] + if i == 0 then [] else [Frame(Object, "listings", docs[..i])];
            Top(f).kind == Object &&
            Grown(f + if i > 0 then [] else [Frame(Object, "listings", [])], [docs[i]]) == [top] + [Frame(Object, "listings", docs[..i + 1])]
  {
    GrownMore([top], Frame(Object, "listings", docs[..i]), docs[i], docs[..i + 1]);
    var f := [top] + [Frame(Object, "listings", docs[..i])];
    assert f + [] == f;
  }

  lemma ListingsDone(top: Frame, docs: seq<Member>)
    ensures Closed([top] + [Frame(Object, "listings", docs)]) == [top.(members := top.members + [Member("listings", Node(Object, docs))])]
    ensures [top] + [] == [top] && top.(members := top.members + []) == top
  {
    ClosedOnto([top], Frame(Object, "listings", docs));
    GrownTop(top, Member("listings", Node(Object, docs)));
    assert top.members + [] == top.members;
  }

  lemma GrownTop(top: Frame, m: Member)
    ensures Grown([top], [m]) == [top.(members := top.members + [m])]
  {
    GrownOnto([], top, [m]);
    assert [] + [top] == [top];
  }

  lemma SessionDone(s: Session, members: seq<Member>)
    requires members == HeaderDoc(s.config) + if s.listings == [] then [] else [Member("listings", Node(Object, ListingDocs(s.listings)))]
    ensures Document(s) == Node(Object, members + if s.run.Some? then [Member("test-run", RunDoc(s.run.value))] else [])
    ensures s.run.None? ==> Document(s) == Node(Object, members)
  {
    hide HeaderDoc, RunDoc;
    assert members + [] == members;
  }
}
