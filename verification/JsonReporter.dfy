/** The reporter: events of a session become the text of a document. */
module JsonReporter {
  import opened Json
  import opened JsonWriter
  import opened JsonReport
  import opened JsonParts
  import opened JsonStacks

  lemma GrownOnto(frames: seq<Frame>, f: Frame, more: seq<Member>)
    ensures Grown(frames + [f], more) == frames + [f.(members := f.members + more)]
  {
  }

  lemma ClosedOnto(frames: seq<Frame>, f: Frame)
    requires frames != []
    ensures Closed(frames + [f]) == Grown(frames, [Member(f.key, Node(f.kind, f.members))])
  {
    assert Below(frames + [f]) == frames;
  }

  lemma GrownTwice(frames: seq<Frame>, a: seq<Member>, b: seq<Member>)
    requires frames != []
    ensures Grown(Grown(frames, a), b) == Grown(frames, a + b)
  {
    var m := Top(frames).members;
    assert m + a + b == m + (a + b);
    assert Below(Grown(frames, a)) == Below(frames);
  }

  /** An object with an array open inside it: what becomes of it when both are closed, with more written in between. */
  lemma ClosedPair(frames: seq<Frame>, a: Frame, b: Frame, more: seq<Member>)
    requires frames != []
    ensures Closed(frames + [a, b]) == frames + [a.(members := a.members + [Member(b.key, Node(b.kind, b.members))])]
    ensures Closed(Grown(Closed(frames + [a, b]), more)) ==
            Grown(frames, [Member(a.key, Node(a.kind, a.members + [Member(b.key, Node(b.kind, b.members))] + more))])
  {
    hide Closed, Grown;
    var m := Member(b.key, Node(b.kind, b.members));
    assert frames + [a, b] == frames + [a] + [b];
    ClosedOnto(frames + [a], b);
    GrownOnto(frames, a, [m]);
    var c := a.(members := a.members + [m]);
    GrownOnto(frames, c, more);
    ClosedOnto(frames, c.(members := c.members + more));
  }

  /** The nodes a reporter method leaves open on top, the inner one an array in an object. */
  ghost predicate InArrayOfObject(frames: seq<Frame>) {
    |frames| >= 3 && Top(frames).kind == Array && Top(Below(frames)).kind == Object
  }

  lemma ClosedShape(frames: seq<Frame>)
    requires |frames| >= 2
    ensures |Closed(frames)| == |frames| - 1 && Top(Closed(frames)).kind == Top(Below(frames)).kind
  {
  }

  lemma GrownShape(frames: seq<Frame>, more: seq<Member>)
    requires frames != []
    ensures |Grown(frames, more)| == |frames| && Top(Grown(frames, more)).kind == Top(frames).kind
    ensures |frames| >= 2 ==> Below(Grown(frames, more)) == Below(frames)
  {
  }

  lemma GrownNone(frames: seq<Frame>)
    requires frames != []
    ensures Grown(frames, []) == frames
  {
    assert Top(frames).members + [] == Top(frames).members;
  }

  lemma GrownFresh(frames: seq<Frame>, f: Frame, ms: seq<Member>)
    requires f.members == []
    ensures Grown(frames + [f], ms) == frames + [f.(members := ms)]
  {
    GrownOnto(frames, f, ms);
    assert [] + ms == ms;
  }

  lemma GrownMore(frames: seq<Frame>, f: Frame, m: Member, all: seq<Member>)
    requires f.members + [m] == all
    ensures Grown(frames + [f], [m]) == frames + [f.(members := all)]
  {
    GrownOnto(frames, f, [m]);
  }

  lemma TwoMore(frames: seq<Frame>, a: Frame, b: Frame)
    ensures frames + [a] + [b] == frames + [a, b]
  {
  }

  lemma HeaderFrame(config: Config)
    ensures Grown(Grown([Frame(Object, "", [])], [Number("version", 1)]), [Member("metadata", Node(Object, MetadataDoc(config)))]) ==
            [Frame(Object, "", HeaderDoc(config))]
  {
    hide MetadataDoc, Decimal;
    var f := Frame(Object, "", []);
    assert [] + [f] == [f];
    var a, b := [Number("version", 1)], [Member("metadata", Node(Object, MetadataDoc(config)))];
    GrownTwice([f], a, b);
    GrownOnto([], f, a + b);
    assert [] + (a + b) == HeaderDoc(config);
  }

  class JsonReporter {
    const stream: Stream
    var objectWriters: seq<Writer>
    var arrayWriters: seq<Writer>
    var writers: seq<Kind>
    var startedListing: bool

    ghost var frames: seq<Frame>

    ghost function Held(): Stacks
      reads this
    {
      Stacks(writers, objectWriters, arrayWriters)
    }

    ghost predicate Valid()
      reads this, stream
    {
      Match(frames, Held(), stream.text)
    }

    constructor (config: Config)
      ensures Valid() && fresh(stream) && frames == [Frame(Object, "", HeaderDoc(config))] && !startedListing
    {
      stream := new Stream();
      objectWriters, arrayWriters, writers, startedListing := [], [], [], false;
      frames := [];
      new;
      hide Opened, MetadataDoc, Decimal;
      var w := stream.Open(Object, 0);
      objectWriters, writers := [w], [Object];
      frames := [Frame(Object, "", [])];
      Opening();
      PutNumber("version", 1);
      PutMetadata(config);
      HeaderFrame(config);
    }

    lemma Opening()
      requires frames == [Frame(Object, "", [])] && Held() == Stacks([Object], [Writer(Object, 0, false)], [])
      requires stream.text == "" + Opened(Object, [], 0)
      ensures Valid()
    {
      hide Opened;
      var s := Held();
      assert Below(frames) == [] && BaseOf(frames) == "";
      assert s.Tops(Object) && s.Peek(Object) == Writer(Object, 0, false) && IsWriterOf(s.Peek(Object), frames, 1);
      assert s.Pop(Object).writers == [] && s.Pop(Object).objects == [];
      assert Stacked([], s.Pop(Object), 1);
    }

    method IsInside(kind: Kind) returns (inside: bool)
      ensures inside <==> writers != [] && writers[|writers| - 1] == kind
    {
      inside := writers != [] && writers[|writers| - 1] == kind;
    }

    // ----- Opening and closing nodes -----

    method StartArrayAt(key: string)
      requires Valid() && Top(frames).kind == Object
      modifies this, stream
      ensures Valid() && frames == old(frames) + [Frame(Array, key, [])] && startedListing == old(startedListing)
    {
      hide Match, Opened, Lead, Building, BaseOf;
      TopWriter(frames, Held(), stream.text);
      ghost var base, text, held := BaseOf(frames), stream.text, Held();
      var w := objectWriters[|objectWriters| - 1];
      var inner;
      ghost var innerBase;
      w, inner, innerBase := stream.OpenMember(w, key, Array, base, Top(frames).members);
      objectWriters := objectWriters[..|objectWriters| - 1] + [w];
      arrayWriters := arrayWriters + [inner];
      writers := writers + [Array];
      NodeIsOpen(stream.text, innerBase, inner);
      NodeOpened(frames, held, text, key, w, inner, stream.text);
      frames := frames + [Frame(Array, key, [])];
    }

    method StartObject()
      requires Valid() && Top(frames).kind == Array
      modifies this, stream
      ensures Valid() && frames == old(frames) + [Frame(Object, "", [])] && startedListing == old(startedListing)
    {
      hide Match, Opened, Lead, Building, BaseOf;
      TopWriter(frames, Held(), stream.text);
      ghost var base, text, held := BaseOf(frames), stream.text, Held();
      var w := arrayWriters[|arrayWriters| - 1];
      var inner;
      ghost var innerBase;
      w, inner, innerBase := stream.OpenMember(w, "", Object, base, Top(frames).members);
      arrayWriters := arrayWriters[..|arrayWriters| - 1] + [w];
      objectWriters := objectWriters + [inner];
      writers := writers + [Object];
      NodeIsOpen(stream.text, innerBase, inner);
      NodeOpened(frames, held, text, "", w, inner, stream.text);
      frames := frames + [Frame(Object, "", [])];
    }

    method StartObjectAt(key: string)
      requires Valid() && Top(frames).kind == Object
      modifies this, stream
      ensures Valid() && frames == old(frames) + [Frame(Object, key, [])] && startedListing == old(startedListing)
    {
      hide Match, Opened, Lead, Building, BaseOf;
      TopWriter(frames, Held(), stream.text);
      ghost var base, text, held := BaseOf(frames), stream.text, Held();
      var w := objectWriters[|objectWriters| - 1];
      var inner;
      ghost var innerBase;
      w, inner, innerBase := stream.OpenMember(w, key, Object, base, Top(frames).members);
      objectWriters := objectWriters[..|objectWriters| - 1] + [w];
      objectWriters := objectWriters + [inner];
      writers := writers + [Object];
      NodeIsOpen(stream.text, innerBase, inner);
      NodeOpened(frames, held, text, key, w, inner, stream.text);
      frames := frames + [Frame(Object, key, [])];
    }

    method EndObject()
      requires Valid() && |frames| >= 2 && Top(frames).kind == Object
      modifies this, stream
      ensures Valid() && frames == Closed(old(frames)) && startedListing == old(startedListing)
    {
      hide Match, Render, Building, BaseOf, Closed;
      TopWriter(frames, Held(), stream.text);
      ghost var base, text, held := BaseOf(frames), stream.text, Held();
      var inside := IsInside(Object);
      assert inside;
      stream.Close(objectWriters[|objectWriters| - 1], base, Top(frames).members);
      objectWriters := objectWriters[..|objectWriters| - 1];
      writers := writers[..|writers| - 1];
      NodeClosed(frames, held, text, stream.text);
      frames := Closed(frames);
    }

    method EndArray()
      requires Valid() && |frames| >= 2 && Top(frames).kind == Array
      modifies this, stream
      ensures Valid() && frames == Closed(old(frames)) && startedListing == old(startedListing)
    {
      hide Match, Render, Building, BaseOf, Closed;
      TopWriter(frames, Held(), stream.text);
      ghost var base, text, held := BaseOf(frames), stream.text, Held();
      var inside := IsInside(Array);
      assert inside;
      stream.Close(arrayWriters[|arrayWriters| - 1], base, Top(frames).members);
      arrayWriters := arrayWriters[..|arrayWriters| - 1];
      writers := writers[..|writers| - 1];
      NodeClosed(frames, held, text, stream.text);
      frames := Closed(frames);
    }

    // ----- Writing to the innermost node -----

    method PutText(key: string, value: string)
      requires Valid() && Top(frames).kind == Object
      modifies this, stream
      ensures Valid() && frames == Grown(old(frames), [Named(key, value)]) && startedListing == old(startedListing)
    {
      hide Match, Building, BaseOf, Grown;
      TopWriter(frames, Held(), stream.text);
      ghost var base, text, held, members := BaseOf(frames), stream.text, Held(), Top(frames).members;
      var w := objectWriters[|objectWriters| - 1];
      w := stream.WriteText(w, key, value, base, members);
      objectWriters := objectWriters[..|objectWriters| - 1] + [w];
      TopGrows(frames, held, text, [Named(key, value)], w, stream.text);
      frames := Grown(frames, [Named(key, value)]);
    }

    method PutNumber(key: string, n: nat)
      requires Valid() && Top(frames).kind == Object
      modifies this, stream
      ensures Valid() && frames == Grown(old(frames), [Number(key, n)]) && startedListing == old(startedListing)
    {
      hide Match, Building, BaseOf, Grown, Decimal;
      TopWriter(frames, Held(), stream.text);
      ghost var base, text, held, members := BaseOf(frames), stream.text, Held(), Top(frames).members;
      var w := objectWriters[|objectWriters| - 1];
      w := WriteNumber(stream, w, key, n, base, members);
      objectWriters := objectWriters[..|objectWriters| - 1] + [w];
      TopGrows(frames, held, text, [Number(key, n)], w, stream.text);
      frames := Grown(frames, [Number(key, n)]);
    }

    method PutSourceInfo(at: Source)
      requires Valid() && Top(frames).kind == Object
      modifies this, stream
      ensures Valid() && frames == Grown(old(frames), [Located(at)]) && startedListing == old(startedListing)
    {
      hide Match, Building, BaseOf, Grown, SourceDoc;
      TopWriter(frames, Held(), stream.text);
      ghost var base, text, held, members := BaseOf(frames), stream.text, Held(), Top(frames).members;
      var w := objectWriters[|objectWriters| - 1];
      w := WriteSourceInfo(stream, w, at, base, members);
      objectWriters := objectWriters[..|objectWriters| - 1] + [w];
      TopGrows(frames, held, text, [Located(at)], w, stream.text);
      frames := Grown(frames, [Located(at)]);
    }

    method PutMetadata(c: Config)
      requires Valid() && Top(frames).kind == Object
      modifies this, stream
      ensures Valid() && frames == Grown(old(frames), [Member("metadata", Node(Object, MetadataDoc(c)))]) && startedListing == old(startedListing)
    {
      hide Match, Building, BaseOf, Grown, MetadataDoc;
      TopWriter(frames, Held(), stream.text);
      ghost var base, text, held, members := BaseOf(frames), stream.text, Held(), Top(frames).members;
      var w := objectWriters[|objectWriters| - 1];
      w := WriteMetadata(stream, w, c, base, members);
      objectWriters := objectWriters[..|objectWriters| - 1] + [w];
      TopGrows(frames, held, text, [Member("metadata", Node(Object, MetadataDoc(c)))], w, stream.text);
      frames := Grown(frames, [Member("metadata", Node(Object, MetadataDoc(c)))]);
    }

    method PutTestInfo(i: CaseInfo)
      requires Valid() && Top(frames).kind == Object
      modifies this, stream
      ensures Valid() && frames == Grown(old(frames), [Member("test-info", Node(Object, CaseInfoDoc(i)))])
      ensures startedListing == old(startedListing)
    {
      hide Match, Building, BaseOf, Grown, CaseInfoDoc;
      TopWriter(frames, Held(), stream.text);
      ghost var base, text, held, members := BaseOf(frames), stream.text, Held(), Top(frames).members;
      var w := objectWriters[|objectWriters| - 1];
      w := WriteTestInfo(stream, w, i, base, members);
      objectWriters := objectWriters[..|objectWriters| - 1] + [w];
      TopGrows(frames, held, text, [Member("test-info", Node(Object, CaseInfoDoc(i)))], w, stream.text);
      frames := Grown(frames, [Member("test-info", Node(Object, CaseInfoDoc(i)))]);
    }

    method PutAssertionTotals(c: Counts)
      requires Valid() && Top(frames).kind == Object
      modifies this, stream
      ensures Valid() && frames == Grown(old(frames), [AssertionTotals(c)]) && startedListing == old(startedListing)
    {
      hide Match, Building, BaseOf, Grown, CountsDoc;
      TopWriter(frames, Held(), stream.text);
      ghost var base, text, held, members := BaseOf(frames), stream.text, Held(), Top(frames).members;
      var w := objectWriters[|objectWriters| - 1];
      w := WriteAssertionTotals(stream, w, c, base, members);
      objectWriters := objectWriters[..|objectWriters| - 1] + [w];
      TopGrows(frames, held, text, [AssertionTotals(c)], w, stream.text);
      frames := Grown(frames, [AssertionTotals(c)]);
    }

    method PutRunTotals(a: Counts, t: Counts)
      requires Valid() && Top(frames).kind == Object
      modifies this, stream
      ensures Valid() && frames == Grown(old(frames), [RunTotals(a, t)]) && startedListing == old(startedListing)
    {
      hide Match, Building, BaseOf, Grown, CountsDoc;
      TopWriter(frames, Held(), stream.text);
      ghost var base, text, held, members := BaseOf(frames), stream.text, Held(), Top(frames).members;
      var w := objectWriters[|objectWriters| - 1];
      w := WriteRunTotals(stream, w, a, t, base, members);
      objectWriters := objectWriters[..|objectWriters| - 1] + [w];
      TopGrows(frames, held, text, [RunTotals(a, t)], w, stream.text);
      frames := Grown(frames, [RunTotals(a, t)]);
    }

    method PutListing(l: Listing)
      requires Valid() && Top(frames).kind == Object
      modifies this, stream
      ensures Valid() && frames == Grown(old(frames), [ListingDoc(l)]) && startedListing == old(startedListing)
    {
      hide Match, Building, BaseOf, Grown, ListingDoc;
      TopWriter(frames, Held(), stream.text);
      ghost var base, text, held, members := BaseOf(frames), stream.text, Held(), Top(frames).members;
      var w := objectWriters[|objectWriters| - 1];
      w := WriteListing(stream, w, l, base, members);
      objectWriters := objectWriters[..|objectWriters| - 1] + [w];
      TopGrows(frames, held, text, [ListingDoc(l)], w, stream.text);
      frames := Grown(frames, [ListingDoc(l)]);
    }

    method PutAssertion(at: Source, ok: bool)
      requires Valid() && Top(frames).kind == Array
      modifies this, stream
      ensures Valid() && frames == Grown(old(frames), [Item(PartDoc(Assertion(at, ok)))]) && startedListing == old(startedListing)
    {
      hide Match, Building, BaseOf, Grown, PartDoc;
      TopWriter(frames, Held(), stream.text);
      ghost var base, text, held, members := BaseOf(frames), stream.text, Held(), Top(frames).members;
      var w := arrayWriters[|arrayWriters| - 1];
      w := WriteAssertion(stream, w, at, ok, base, members);
      arrayWriters := arrayWriters[..|arrayWriters| - 1] + [w];
      TopGrows(frames, held, text, [Item(PartDoc(Assertion(at, ok)))], w, stream.text);
      frames := Grown(frames, [Item(PartDoc(Assertion(at, ok)))]);
    }

    // ----- Events -----

    method StartListing()
      requires Valid() && Top(frames).kind == Object
      modifies this, stream
      ensures Valid() && startedListing
      ensures frames == old(frames) + if old(startedListing) then [] else [Frame(Object, "listings", [])]
    {
      hide Match;
      if !startedListing { StartObjectAt("listings"); }
      startedListing := true;
    }

    method EndListing()
      requires Valid() && (startedListing ==> |frames| >= 2 && Top(frames).kind == Object)
      modifies this, stream
      ensures Valid() && !startedListing && frames == if old(startedListing) then Closed(old(frames)) else old(frames)
    {
      hide Match, Closed;
      if startedListing { EndObject(); }
      startedListing := false;
    }

    /** One of the four listings. */
    method List(l: Listing)
      requires Valid() && Top(frames).kind == Object
      modifies this, stream
      ensures Valid() && startedListing
      ensures frames == Grown(old(frames) + if old(startedListing) then [] else [Frame(Object, "listings", [])], [ListingDoc(l)])
    {
      hide Match, Grown, ListingDoc;
      StartListing();
      PutListing(l);
    }

    method TestRunStarting()
      requires Valid() && (startedListing ==> |frames| == 2) && (!startedListing ==> |frames| == 1)
      requires frames[0].kind == Object && Top(frames).kind == Object
      modifies this, stream
      ensures Valid() && !startedListing
      ensures frames == (if old(startedListing) then Closed(old(frames)) else old(frames)) +
                        [Frame(Object, "test-run", []), Frame(Array, "test-cases", [])]
    {
      hide Match, Closed;
      if startedListing { ClosedShape(frames); }
      EndListing();
      InsideTop(Object);
      var inside := IsInside(Object);
      assert inside;
      StartObjectAt("test-run");
      StartArrayAt("test-cases");
    }

    lemma InsideTop(kind: Kind)
      requires Valid() && Top(frames).kind == kind
      ensures writers != [] && writers[|writers| - 1] == kind
    {
      hide TextOf;
    }

    method TestRunEnded(assertions: Counts, testCases: Counts)
      requires Valid() && InArrayOfObject(frames)
      modifies this, stream
      ensures Valid() && startedListing == old(startedListing)
      ensures frames == Closed(Grown(Closed(old(frames)), [RunTotals(assertions, testCases)]))
    {
      hide Match, Closed, Grown, CountsDoc;
      InsideTop(Array);
      var inside := IsInside(Array);
      assert inside;
      ClosedShape(frames);
      EndArray();
      GrownShape(frames, [RunTotals(assertions, testCases)]);
      PutRunTotals(assertions, testCases);
      EndObject();
    }

    method TestCaseStarting(info: CaseInfo)
      requires Valid() && Top(frames).kind == Array
      modifies this, stream
      ensures Valid() && startedListing == old(startedListing)
      ensures frames == old(frames) + [Frame(Object, "", [Member("test-info", Node(Object, CaseInfoDoc(info)))]), Frame(Array, "runs", [])]
    {
      hide Match, Grown, CaseInfoDoc;
      InsideTop(Array);
      var inside := IsInside(Array);
      assert inside;
      StartObject();
      ghost var ms := [Member("test-info", Node(Object, CaseInfoDoc(info)))];
      GrownFresh(old(frames), Frame(Object, "", []), ms);
      PutTestInfo(info);
      StartArrayAt("runs");
      TwoMore(old(frames), Frame(Object, "", ms), Frame(Array, "runs", []));
    }

    method TestCaseEnded(counts: Counts)
      requires Valid() && InArrayOfObject(frames)
      modifies this, stream
      ensures Valid() && startedListing == old(startedListing)
      ensures frames == Closed(Grown(Closed(old(frames)), [AssertionTotals(counts)]))
    {
      hide Match, Closed, Grown, AssertionTotals;
      InsideTop(Array);
      var inside := IsInside(Array);
      assert inside;
      ClosedShape(frames);
      EndArray();
      GrownShape(frames, [AssertionTotals(counts)]);
      PutAssertionTotals(counts);
      InsideTop(Object);
      inside := IsInside(Object);
      assert inside;
      EndObject();
    }

    method TestCasePartialStarting(index: nat)
      requires Valid() && Top(frames).kind == Array
      modifies this, stream
      ensures Valid() && startedListing == old(startedListing)
      ensures frames == old(frames) + [Frame(Object, "", [Number("run-idx", index)]), Frame(Array, "path", [])]
    {
      hide Match, Grown, Decimal;
      StartObject();
      GrownFresh(old(frames), Frame(Object, "", []), [Number("run-idx", index)]);
      PutNumber("run-idx", index);
      StartArrayAt("path");
      TwoMore(old(frames), Frame(Object, "", [Number("run-idx", index)]), Frame(Array, "path", []));
    }

    method TestCasePartialEnded(out: string, err: string, counts: Counts)
      requires Valid() && InArrayOfObject(frames)
      modifies this, stream
      ensures Valid() && startedListing == old(startedListing)
      ensures frames == Closed(Grown(Closed(old(frames)),
                          Captured("captured-stdout", out) + Captured("captured-stderr", err) + [AssertionTotals(counts)]))
    {
      hide Match, Closed, Grown, AssertionTotals;
      ClosedShape(frames);
      EndArray();
      ghost var f := frames;
      GrownNone(f);
      if out != "" {
        GrownShape(frames, [Named("captured-stdout", out)]);
        PutText("captured-stdout", out);
      }
      ghost var ms := Captured("captured-stdout", out);
      assert frames == Grown(f, ms);
      GrownShape(f, ms);
      assert ms + [] == ms;
      if err != "" {
        GrownTwice(f, ms, [Named("captured-stderr", err)]);
        PutText("captured-stderr", err);
      }
      ms := ms + Captured("captured-stderr", err);
      assert frames == Grown(f, ms);
      GrownShape(f, ms);
      GrownTwice(f, ms, [AssertionTotals(counts)]);
      PutAssertionTotals(counts);
      GrownShape(f, ms + [AssertionTotals(counts)]);
      EndObject();
    }

    method SectionStarting(name: string, at: Source)
      requires Valid() && Top(frames).kind == Array
      modifies this, stream
      ensures Valid() && startedListing == old(startedListing)
      ensures frames == old(frames) + [Frame(Object, "", [Named("kind", "section"), Named("name", name), Located(at)]), Frame(Array, "path", [])]
    {
      hide Match, Grown, SourceDoc;
      InsideTop(Array);
      var inside := IsInside(Array);
      assert inside;
      StartObject();
      ghost var f := Frame(Object, "", []);
      ghost var one, two := [Named("kind", "section")], [Named("kind", "section"), Named("name", name)];
      ghost var three := [Named("kind", "section"), Named("name", name), Located(at)];
      GrownFresh(old(frames), f, one);
      PutText("kind", "section");
      GrownMore(old(frames), f.(members := one), Named("name", name), two);
      PutText("name", name);
      GrownMore(old(frames), f.(members := two), Located(at), three);
      PutSourceInfo(at);
      StartArrayAt("path");
      TwoMore(old(frames), f.(members := three), Frame(Array, "path", []));
    }

    method SectionEnded()
      requires Valid() && InArrayOfObject(frames)
      modifies this, stream
      ensures Valid() && startedListing == old(startedListing) && frames == Closed(Closed(old(frames)))
    {
      hide Match, Closed;
      ClosedShape(frames);
      EndArray();
      EndObject();
    }

    method AssertionEnded(at: Source, ok: bool)
      requires Valid() && Top(frames).kind == Array
      modifies this, stream
      ensures Valid() && startedListing == old(startedListing) && frames == Grown(old(frames), [Item(PartDoc(Assertion(at, ok)))])
    {
      hide Match, Grown, PartDoc;
      InsideTop(Array);
      var inside := IsInside(Array);
      assert inside;
      PutAssertion(at, ok);
    }

    /** The destructor: only the top level object may still be open, and perhaps the listings. */
    method Finish()
      requires Valid() && (startedListing ==> |frames| == 2) && (!startedListing ==> |frames| == 1)
      requires frames[0].kind == Object && Top(frames).kind == Object
      modifies this, stream
      ensures writers == [] && objectWriters == [] && arrayWriters == []
      ensures var f := if old(startedListing) then Closed(old(frames)) else old(frames);
              f != [] && stream.text == Render(Node(Object, f[0].members), 0) + "\n"
    {
      hide Match, Closed, Render;
      if startedListing { ClosedShape(frames); }
      EndListing();
      OnlyTop();
      assert |writers| == 1 && writers[0] == Object;
      var inside := IsInside(Object);
      assert inside;
      stream.Close(objectWriters[|objectWriters| - 1], "", frames[0].members);
      objectWriters := objectWriters[..|objectWriters| - 1];
      writers := writers[..|writers| - 1];
      stream.Put("\n");
      assert writers == [];
    }

    lemma OnlyTop()
      requires Valid() && |frames| == 1 && frames[0].kind == Object
      ensures writers == [Object] && |objectWriters| == 1 && arrayWriters == []
      ensures objectWriters[0].kind == Object && objectWriters[0].indent == 0
      ensures Building(stream.text, "", frames[0].members, objectWriters[0])
    {
      hide Opened;
      TopWriter(frames, Held(), stream.text);
      assert Below(frames) == [] && BaseOf(frames) == "";
      var s := Held().Pop(Object);
      assert Stacked([], s, 1) && s.writers == [] && s.objects == [] && s.arrays == [];
    }
  }

  lemma NodeIsOpen(text: string, base: string, w: Writer)
    requires Building(text, base, [], w)
    ensures text == base + Opened(w.kind, [], w.indent)
  {
  }
}
