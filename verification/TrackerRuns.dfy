/** What a whole run of a test case visits, and that it ends. */
module TrackerRuns {
  import opened TestBody
  import opened TrackerModel

  /** One pass through the test case: open its tracker, run the body, close it. */
  function CloseScope(at: NameAndLocation, kind: Kind, r: Outcome): Tree
    requires Closable(r.state) && OpenChain(r.depth, r.kids)
  {
    CloseSection(r.depth, Tree(at, kind, r.state, r.kids))
  }

  // ----- Progress: with exceptions anywhere -----

  function Times(n: nat, w: nat): nat {
    if n == 0 then 0 else w + Times(n - 1, w)
  }

  /** The trackers that can still complete, counting a generator's scope once for each value left. */
  function Work(b: Body, kids: seq<Tree>): nat
    requires Fits(b, kids)
    decreases b
  {
    match b
    case Generate(_, size, rest) =>
      if kids == [] then Times(size, 1 + Work(rest, []))
      else 1 + Work(rest, kids[0].kids) + Times(size - 1 - kids[0].kind.position, 1 + Work(rest, []))
    case Sections(list) => ListWork(list, kids)
  }

  function ListWork(list: SectionList, kids: seq<Tree>): nat
    requires FitsList(list, kids)
    decreases list
  {
    match list
    case NoSections => 0
    case Section(at, body, tail) =>
      var s := FirstOr(kids, Fresh(at, SectionKind));
      if IsComplete(s.state) then ListWork(tail, Rest(kids))
      else 1 + Work(body, s.kids) + (UntouchedFit(tail, Rest(kids)); ListWork(tail, Rest(kids)))
  }

  lemma {:induction false} UntouchedFit(list: SectionList, kids: seq<Tree>)
    requires AllUntouched(list, kids)
    ensures FitsList(list, kids)
    decreases list
  {
    if kids != [] { UntouchedFit(list.tail, kids[1..]); }
  }

  lemma {:induction false} UntouchedWork(list: SectionList, kids: seq<Tree>)
    requires AllUntouched(list, kids)
    ensures FitsList(list, kids) && ListWork(list, kids) == ListWork(list, [])
    decreases list
  {
    UntouchedFit(list, kids);
    if list.Section? { UntouchedWork(list.tail, Rest(kids)); UntouchedWork(list.tail, []); }
  }

  /** Once the cycle is complete, the remaining sections are only registered. */
  lemma {:induction false} RunSectionsDone(
    list: SectionList, state: CycleState, kids: seq<Tree>, step: nat, throws: Throws)
    requires AllUntouched(list, kids) && Closable(state)
    ensures var r := RunSections(list, state, kids, true, step, throws);
            AllUntouched(list, r.kids) && r.state == state && r.done && r.trace == [] && !r.unwinding
    decreases list
  {
    if list.Section? && !throws(step) {
      RunSectionsDone(list.tail, state, Rest(kids), step + 1, throws);
    }
  }

  lemma {:induction false} RunSectionsProgress(
    list: SectionList, kids: seq<Tree>, step: nat, throws: Throws)
    requires FitsList(list, kids)
    ensures var r := RunSections(list, Executing, kids, false, step, throws);
            FitsList(list, r.kids) && (r.kids != [] ==> HasStarted(r.kids[0])) &&
            (r.state == Executing || ListWork(list, r.kids) < ListWork(list, kids))
    decreases list, 1
  {
    hide RunBody, RunSections, Work, ListWork, Fits;
    if list.NoSections? {
      NothingToRun(list, kids, step, throws);
    } else if kids == [] {
      Unregistered(list, step, throws);
      EnteredProgress(list, Fresh(list.at, SectionKind), [], step, throws);
      assert [Fresh(list.at, SectionKind)] + [] == [Fresh(list.at, SectionKind)];
    } else if IsComplete(kids[0].state) {
      SkippedProgress(list, kids, step, throws);
    } else {
      EnteredProgress(list, kids[0], kids[1..], step, throws);
      assert [kids[0]] + kids[1..] == kids;
    }
  }

  lemma NothingToRun(list: SectionList, kids: seq<Tree>, step: nat, throws: Throws)
    requires list.NoSections? && FitsList(list, kids)
    ensures RunSections(list, Executing, kids, false, step, throws).kids == [] && kids == []
    ensures RunSections(list, Executing, kids, false, step, throws).state == Executing
  {
  }

  /** A section never met is run as one just registered. */
  lemma Unregistered(list: SectionList, step: nat, throws: Throws)
    requires list.Section?
    ensures var s := Fresh(list.at, SectionKind);
            Fits(list.body, s.kids) && FitsList(list, [s]) && FitsList(list, []) &&
            ListWork(list, []) == ListWork(list, [s]) &&
            RunSections(list, Executing, [], false, step, throws) == RunSections(list, Executing, [s], false, step, throws)
  {
    hide RunBody, Work;
    var s := Fresh(list.at, SectionKind);
    assert Rest([s]) == [] == Rest([]);
  }

  /** A completed section is skipped as it is. */
  lemma {:induction false} SkippedProgress(list: SectionList, kids: seq<Tree>, step: nat, throws: Throws)
    requires FitsList(list, kids) && list.Section? && kids != [] && IsComplete(kids[0].state)
    ensures var r := RunSections(list, Executing, kids, false, step, throws);
            FitsList(list, r.kids) && (r.kids != [] ==> HasStarted(r.kids[0])) &&
            (r.state == Executing || ListWork(list, r.kids) < ListWork(list, kids))
    decreases list, 0
  {
    if !throws(step) {
      RunSectionsProgress(list.tail, kids[1..], step + 1, throws);
      var r := RunSections(list.tail, Executing, kids[1..], false, step + 1, throws);
      var o := RunSections(list, Executing, kids, false, step, throws);
      assert o.kids == [kids[0]] + r.kids && o.kids[1..] == r.kids && o.state == r.state;
    } else {
      assert [kids[0]] + kids[1..] == kids;
    }
  }

  /** The section entered completes, fails, or has less work left; those after it are untouched. */
  lemma {:induction false} EnteredProgress(
    list: SectionList, s: Tree, rest: seq<Tree>, step: nat, throws: Throws)
    requires list.Section? && s.at == list.at && s.kind == SectionKind && !IsComplete(s.state)
    requires s.state == NotStarted ==> s.kids == []
    requires Fits(list.body, s.kids) && AllUntouched(list.tail, rest)
    ensures FitsList(list, [s] + rest) && ListWork(list, [s] + rest) == 1 + Work(list.body, s.kids) + ListWork(list.tail, [])
    ensures var r := RunSections(list, Executing, [s] + rest, false, step, throws);
            r.state != Executing && FitsList(list, r.kids) && r.kids != [] && HasStarted(r.kids[0]) &&
            ListWork(list, r.kids) < ListWork(list, [s] + rest)
    decreases list, 0
  {
    var kids := [s] + rest;
    assert Rest(kids) == rest;
    UntouchedWork(list.tail, rest);
    RunBodyProgress(list.body, s.kids, step, throws, list.at, SectionKind);
    var r := RunBody(list.body, s.kids, step, throws);
    var rest' := EnteredOutcome(list, s, rest, step, throws);
    LeftWork(list, s, LeaveSection(s.(state := r.state, kids := r.kids), r), rest, rest');
  }

  /** Entering a section changes that section, marks the scope, and leaves the later ones untouched. */
  lemma EnteredOutcome(list: SectionList, s: Tree, rest: seq<Tree>, step: nat, throws: Throws)
    returns (rest': seq<Tree>)
    requires list.Section? && !IsComplete(s.state) && FitsList(list, [s] + rest)
    requires Fits(list.body, s.kids) && AllUntouched(list.tail, rest)
    ensures AllUntouched(list.tail, rest')
    ensures var r := RunBody(list.body, s.kids, step, throws);
            var o := RunSections(list, Executing, [s] + rest, false, step, throws);
            o.state != Executing && o.done &&
            o.kids == [LeaveSection(s.(state := r.state, kids := r.kids), r)] + rest' &&
            o.trace == [Entered(list.at)] + r.trace
  {
    var kids := [s] + rest;
    assert FirstOr(kids, Fresh(list.at, SectionKind)) == s && Rest(kids) == rest;
    var r := RunBody(list.body, s.kids, step, throws);
    rest' := rest;
    if !r.thrown && !throws(r.step) {
      RunSectionsDone(list.tail, ExecutingChildren, rest, r.step + 1, throws);
      rest' := RunSections(list.tail, ExecutingChildren, rest, true, r.step + 1, throws).kids;
    }
  }

  lemma LeftWork(list: SectionList, s: Tree, s': Tree, rest: seq<Tree>, rest': seq<Tree>)
    requires list.Section? && s'.at == list.at && s'.kind == SectionKind
    requires HasStarted(s') && Fits(list.body, s.kids)
    requires IsComplete(s'.state) || (Fits(list.body, s'.kids) && Work(list.body, s'.kids) < Work(list.body, s.kids))
    requires AllUntouched(list.tail, rest) && AllUntouched(list.tail, rest')
    ensures FitsList(list, [s'] + rest')
    ensures ListWork(list, [s'] + rest') < 1 + Work(list.body, s.kids) + ListWork(list.tail, [])
  {
    assert ([s'] + rest')[1..] == rest';
    UntouchedWork(list.tail, rest');
  }

  lemma GeneratorWork(b: Body, g: Tree, c: Tree)
    requires b.Generate? && FitsGenerator(b.at, b.size, g) && Fits(b.rest, g.kids)
    requires c.at == g.at && c.kind == g.kind && (Closable(c.state) || c.state == CompletedSuccessfully)
    requires c.kids != [] ==> HasStarted(c.kids[0])
    requires c.state == CompletedSuccessfully || (Fits(b.rest, c.kids) && Work(b.rest, c.kids) < Work(b.rest, g.kids))
    ensures var n := AdvanceGenerator(c);
            n.state == CompletedSuccessfully ||
            (Fits(b, [n]) && Work(b, [n]) < Work(b, [g]))
  {
    var n := AdvanceGenerator(c);
    assert [n][0] == n && [g][0] == g;
    assert !ShouldWaitForChild(c);
    if c.state == CompletedSuccessfully {
      if n.state == Executing {
        assert n.kind.position == g.kind.position + 1 && n.kids == [];
        assert Fits(b, [n]);
        assert Work(b, [n]) < Work(b, [g]);
      }
    } else {
      assert n == c;
      assert Fits(b, [n]);
      assert Work(b, [n]) < Work(b, [g]);
    }
  }

  lemma RunGenerate(b: Body, kids: seq<Tree>, step: nat, throws: Throws)
    requires b.Generate? && Fits(b, kids) && !throws(step)
    ensures var g := FirstOr(kids, Fresh(b.at, GeneratorKind(b.size, 0)));
            var r := RunBody(b.rest, g.kids, step + 1, throws);
            RunBody(b, kids, step, throws) ==
              Outcome(ExecutingChildren, [Tree(g.at, g.kind, r.state, r.kids)], r.done, r.thrown, r.unwinding,
                      r.depth + 1, r.step, [Drew(b.at, g.kind.position)] + r.trace)
  {
  }

  /** Closing a scope closes the generator in it first. */
  lemma CloseGenerateScope(depth: nat, g: Tree, t: Tree)
    requires g.kind.GeneratorKind? && Closable(g.state) && OpenChain(depth, g.kids)
    requires t.state == ExecutingChildren && t.kids == [g]
    ensures OpenChain(depth + 1, t.kids)
    ensures var n := AdvanceGenerator(CloseSection(depth, g));
            CloseSection(depth + 1, t) ==
              t.(state := if IsComplete(n.state) then CompletedSuccessfully else ExecutingChildren, kids := [n])
  {
    var n := AdvanceGenerator(CloseSection(depth, g));
    assert [n][0] == n;
    assert CloseChain(depth + 1, t.kids) == [n];
  }

  /** Whatever throws, closing a tracker after its body ran completes it or leaves less work below it. */
  lemma {:induction false} RunBodyProgress(
    b: Body, kids: seq<Tree>, step: nat, throws: Throws, at: NameAndLocation, kind: Kind)
    requires Fits(b, kids)
    ensures Progressed(b, kids, CloseScope(at, kind, RunBody(b, kids, step, throws)))
    decreases b, 1
  {
    if !throws(step) {
      if b.Generate? {
        RunGenerateProgress(b, kids, step, throws, at, kind);
      } else {
        RunSectionsProgress(b.list, kids, step + 1, throws);
      }
    }
  }

  predicate Progressed(b: Body, kids: seq<Tree>, c: Tree)
    requires Fits(b, kids)
  {
    (c.kids != [] ==> HasStarted(c.kids[0])) &&
    (IsComplete(c.state) || (Fits(b, c.kids) && Work(b, c.kids) < Work(b, kids)))
  }

  lemma {:induction false} RunGenerateProgress(
    b: Body, kids: seq<Tree>, step: nat, throws: Throws, at: NameAndLocation, kind: Kind)
    requires b.Generate? && Fits(b, kids) && !throws(step)
    ensures Progressed(b, kids, CloseScope(at, kind, RunBody(b, kids, step, throws)))
    decreases b, 0
  {
    hide RunBody, Work;
    var g := FirstOr(kids, Fresh(b.at, GeneratorKind(b.size, 0)));
    RunBodyProgress(b.rest, g.kids, step + 1, throws, b.at, g.kind);
    var r := RunBody(b.rest, g.kids, step + 1, throws);
    var c := CloseScope(b.at, g.kind, r);
    CloseGenerated(b, kids, step, throws, at, kind);
    StartedWork(b, kids);
    GeneratorWork(b, g.(state := Executing), c);
    OneProgressed(b, kids, AdvanceGenerator(c), CloseScope(at, kind, RunBody(b, kids, step, throws)));
  }

  lemma OneProgressed(b: Body, kids: seq<Tree>, n: Tree, c: Tree)
    requires Fits(b, kids) && c.kids == [n] && HasStarted(n)
    requires c.state == if IsComplete(n.state) then CompletedSuccessfully else ExecutingChildren
    requires n.state == CompletedSuccessfully || (Fits(b, [n]) && Work(b, [n]) < Work(b, kids))
    ensures Progressed(b, kids, c)
  {
  }

  /** Closing a scope whose body drew from a generator closes that generator first. */
  lemma CloseGenerated(b: Body, kids: seq<Tree>, step: nat, throws: Throws, at: NameAndLocation, kind: Kind)
    requires b.Generate? && Fits(b, kids) && !throws(step)
    ensures var g := FirstOr(kids, Fresh(b.at, GeneratorKind(b.size, 0)));
            var r := RunBody(b.rest, g.kids, step + 1, throws);
            var n := AdvanceGenerator(CloseScope(b.at, g.kind, r));
            CloseScope(at, kind, RunBody(b, kids, step, throws)) ==
              Tree(at, kind, if IsComplete(n.state) then CompletedSuccessfully else ExecutingChildren, [n])
  {
    var g := FirstOr(kids, Fresh(b.at, GeneratorKind(b.size, 0)));
    var r := RunBody(b.rest, g.kids, step + 1, throws);
    RunGenerate(b, kids, step, throws);
    var g' := Tree(g.at, g.kind, r.state, r.kids);
    CloseGenerateScope(r.depth, g', Tree(at, kind, ExecutingChildren, [g']));
  }

  /** Creating or opening a generator leaves its work as it was. */
  lemma StartedWork(b: Body, kids: seq<Tree>)
    requires b.Generate? && Fits(b, kids)
    ensures var g := FirstOr(kids, Fresh(b.at, GeneratorKind(b.size, 0))).(state := Executing);
            FitsGenerator(b.at, b.size, g) && Fits(b.rest, g.kids) && Fits(b, [g]) && Work(b, [g]) == Work(b, kids)
  {
    var g := FirstOr(kids, Fresh(b.at, GeneratorKind(b.size, 0))).(state := Executing);
    assert [g][0] == g;
  }

  // ----- Completeness: when nothing throws -----

  ghost predicate NeverThrows(throws: Throws) {
    forall step :: !throws(step)
  }

  /** The paths a tracker that is to run this body again has still to visit, in order. */
  function Remaining(b: Body, kids: seq<Tree>): seq<Path>
    requires Fits(b, kids)
    decreases b
  {
    if kids == [] then Paths(b)
    else match b
      case Generate(at, size, rest) =>
        Prefixed(Drew(at, kids[0].kind.position), Remaining(rest, kids[0].kids)) +
        DrawPaths(at, kids[0].kind.position + 1, size, Paths(rest))
      case Sections(list) => ListRemaining(list, kids)
  }

  function ListRemaining(list: SectionList, kids: seq<Tree>): seq<Path>
    requires FitsList(list, kids)
    decreases list
  {
    if kids == [] then ListPaths(list)
    else if IsComplete(kids[0].state) then ListRemaining(list.tail, kids[1..])
    else Prefixed(Entered(list.at), Remaining(list.body, kids[0].kids)) + ListPaths(list.tail)
  }

  /** There is a section still to enter, or none to enter at all. */
  predicate Lively(b: Body, kids: seq<Tree>)
    requires Fits(b, kids)
    decreases b
  {
    match b
    case Generate(at, size, rest) => kids == [] || Lively(rest, kids[0].kids)
    case Sections(list) => list.NoSections? || LivelyList(list, kids)
  }

  predicate LivelyList(list: SectionList, kids: seq<Tree>)
    requires FitsList(list, kids)
    decreases list
  {
    list.Section? &&
    (kids == [] ||
     if IsComplete(kids[0].state) then LivelyList(list.tail, kids[1..]) else Lively(list.body, kids[0].kids))
  }

  /** Every section of the list has been registered. */
  predicate Covers(list: SectionList, kids: seq<Tree>)
    decreases list
  {
    match list
    case NoSections => kids == []
    case Section(_, _, tail) => kids != [] && Covers(tail, kids[1..])
  }

  lemma {:induction false} UntouchedRemaining(list: SectionList, kids: seq<Tree>)
    requires AllUntouched(list, kids)
    ensures FitsList(list, kids) && ListRemaining(list, kids) == ListPaths(list)
    ensures list.Section? ==> LivelyList(list, kids)
    decreases list
  {
    UntouchedFit(list, kids);
  }

  lemma {:induction false} RunSectionsDoneCovers(
    list: SectionList, state: CycleState, kids: seq<Tree>, step: nat, throws: Throws)
    requires AllUntouched(list, kids) && Closable(state) && NeverThrows(throws)
    ensures var r := RunSections(list, state, kids, true, step, throws);
            !r.thrown && Covers(list, r.kids)
    decreases list
  {
    if list.Section? {
      RunSectionsDoneCovers(list.tail, state, Rest(kids), step + 1, throws);
      var r := RunSections(list.tail, state, Rest(kids), true, step + 1, throws);
      var s := FirstOr(kids, Fresh(list.at, SectionKind));
      assert ([s] + r.kids)[1..] == r.kids;
    }
  }

  /** One pass over the sections takes the first remaining path and leaves the others. */
  ghost predicate SectionsVisited(list: SectionList, kids: seq<Tree>, r: Outcome)
    requires FitsList(list, kids)
  {
    !r.thrown && r.state == ExecutingChildren && r.depth == 0 &&
    FitsList(list, r.kids) && Covers(list, r.kids) && r.kids != [] && HasStarted(r.kids[0]) &&
    ListRemaining(list, kids) == [r.trace] + ListRemaining(list, r.kids) &&
    if AllComplete(r.kids) then ListRemaining(list, r.kids) == [] else LivelyList(list, r.kids)
  }

  lemma {:induction false} RunSectionsVisits(list: SectionList, kids: seq<Tree>, step: nat, throws: Throws)
    requires FitsList(list, kids) && LivelyList(list, kids) && NeverThrows(throws)
    ensures SectionsVisited(list, kids, RunSections(list, Executing, kids, false, step, throws))
    decreases list, 1
  {
    var s := FirstOr(kids, Fresh(list.at, SectionKind));
    if !IsComplete(s.state) {
      if kids == [] { RegisterSection(list, step, throws); } else { assert kids == [s] + Rest(kids); }
      EnteredVisits(list, s, Rest(kids), step, throws);
    } else {
      SkippedVisits(list, kids, step, throws);
    }
  }

  /** A section seen for the first time is registered before it is entered. */
  lemma RegisterSection(list: SectionList, step: nat, throws: Throws)
    requires list.Section?
    ensures var one := [Fresh(list.at, SectionKind)] + [];
            FitsList(list, one) && ListRemaining(list, one) == ListPaths(list) &&
            RunSections(list, Executing, one, false, step, throws) ==
              RunSections(list, Executing, [], false, step, throws)
  {
    var one := [Fresh(list.at, SectionKind)] + [];
    assert one[0] == Fresh(list.at, SectionKind) && one[1..] == [];
    assert Fits(list.body, []) && AllUntouched(list.tail, []);
    assert FitsList(list, one);
    var r := RunSections(list, Executing, one, false, step, throws);
    var q := RunSections(list, Executing, [], false, step, throws);
    assert r.kids == q.kids && r.trace == q.trace;
  }

  lemma {:induction false} SkippedVisits(list: SectionList, kids: seq<Tree>, step: nat, throws: Throws)
    requires FitsList(list, kids) && LivelyList(list, kids) && NeverThrows(throws)
    requires kids != [] && IsComplete(kids[0].state)
    ensures SectionsVisited(list, kids, RunSections(list, Executing, kids, false, step, throws))
    decreases list, 0
  {
    RunSectionsVisits(list.tail, kids[1..], step + 1, throws);
    var r := RunSections(list.tail, Executing, kids[1..], false, step + 1, throws);
    var o := RunSections(list, Executing, kids, false, step, throws);
    assert o.kids == [kids[0]] + r.kids && o.kids[1..] == r.kids && o.trace == r.trace;
    assert AllComplete(o.kids) <==> AllComplete(r.kids) by {
      if AllComplete(o.kids) {
        forall i | 0 <= i < |r.kids| ensures IsComplete(r.kids[i].state) { assert o.kids[i + 1] == r.kids[i]; }
      }
    }
  }

  lemma {:induction false} EnteredVisits(
    list: SectionList, s: Tree, rest: seq<Tree>, step: nat, throws: Throws)
    requires list.Section? && s.at == list.at && s.kind == SectionKind && !IsComplete(s.state)
    requires s.state == NotStarted ==> s.kids == []
    requires Fits(list.body, s.kids) && Lively(list.body, s.kids) && AllUntouched(list.tail, rest)
    requires NeverThrows(throws)
    ensures FitsList(list, [s] + rest)
    ensures SectionsVisited(list, [s] + rest, RunSections(list, Executing, [s] + rest, false, step, throws))
    decreases list, 0
  {
    var kids := [s] + rest;
    assert Rest(kids) == rest;
    RunBodyVisits(list.body, s.kids, step, throws, list.at, SectionKind);
    var r := RunBody(list.body, s.kids, step, throws);
    var rest' := EnteredOutcome(list, s, rest, step, throws);
    var o := RunSections(list, Executing, kids, false, step, throws);
    EnteredCovers(list, s, rest, step, throws);
    assert o.kids[1..] == rest';
    EnteredRemaining(list, s, rest, CloseScope(list.at, SectionKind, r), rest', r.trace);
  }

  lemma EnteredCovers(list: SectionList, s: Tree, rest: seq<Tree>, step: nat, throws: Throws)
    requires list.Section? && !IsComplete(s.state) && FitsList(list, [s] + rest)
    requires Fits(list.body, s.kids) && AllUntouched(list.tail, rest) && NeverThrows(throws)
    requires !RunBody(list.body, s.kids, step, throws).thrown
    ensures var o := RunSections(list, Executing, [s] + rest, false, step, throws);
            !o.thrown && o.state == ExecutingChildren && Covers(list, o.kids)
  {
    var kids := [s] + rest;
    assert FirstOr(kids, Fresh(list.at, SectionKind)) == s && Rest(kids) == rest;
    var r := RunBody(list.body, s.kids, step, throws);
    RunSectionsDone(list.tail, ExecutingChildren, rest, r.step + 1, throws);
    RunSectionsDoneCovers(list.tail, ExecutingChildren, rest, r.step + 1, throws);
    var q := RunSections(list.tail, ExecutingChildren, rest, true, r.step + 1, throws);
    var o := RunSections(list, Executing, kids, false, step, throws);
    assert o.kids[1..] == q.kids;
  }

  lemma EnteredRemaining(
    list: SectionList, s: Tree, rest: seq<Tree>, s': Tree, rest': seq<Tree>, trace: Path)
    requires list.Section? && FitsList(list, [s] + rest) && !IsComplete(s.state) && Fits(list.body, s.kids)
    requires s'.at == list.at && s'.kind == SectionKind && HasStarted(s')
    requires Visited(list.body, s.kids, s', trace)
    requires AllUntouched(list.tail, rest') && Covers(list.tail, rest')
    ensures FitsList(list, [s'] + rest')
    ensures ListRemaining(list, [s] + rest) == [[Entered(list.at)] + trace] + ListRemaining(list, [s'] + rest')
    ensures if AllComplete([s'] + rest') then ListRemaining(list, [s'] + rest') == [] else LivelyList(list, [s'] + rest')
  {
    hide Fits, FitsList, AllUntouched, AllComplete, Covers, LivelyList, Prefixed, Remaining, ListRemaining, ListPaths, Visited;
    UntouchedRemaining(list.tail, rest');
    EnteredPrefix(list, s, s', trace);
    FirstRemaining(list, s, rest);
    FirstIsFit(list, s', rest');
    FirstRemaining(list, s', rest');
    EnteredLively(list, s', rest');
    var one, others := [[Entered(list.at)] + trace], ListPaths(list.tail);
    if IsComplete(s'.state) {
      assert one + [] == one;
    } else {
      var more := Prefixed(Entered(list.at), Remaining(list.body, s'.kids));
      assert one + more + others == one + (more + others);
    }
  }

  lemma EnteredLively(list: SectionList, s': Tree, rest': seq<Tree>)
    requires list.Section? && FitsList(list, [s'] + rest') && AllUntouched(list.tail, rest') && Covers(list.tail, rest')
    requires !IsComplete(s'.state) ==> Fits(list.body, s'.kids) && Lively(list.body, s'.kids)
    ensures if AllComplete([s'] + rest') then ListRemaining(list, [s'] + rest') == [] else LivelyList(list, [s'] + rest')
  {
    hide Fits, FitsList, AllUntouched, AllComplete, Covers, Lively, LivelyList, Prefixed, Remaining, ListRemaining, ListPaths;
    UntouchedRemaining(list.tail, rest');
    EnteredComplete(list.tail, s', rest');
    FirstRemaining(list, s', rest');
    NothingRemains(list.tail);
  }

  lemma FirstIsFit(list: SectionList, s: Tree, rest: seq<Tree>)
    requires list.Section? && s.at == list.at && s.kind == SectionKind && HasStarted(s)
    requires if IsComplete(s.state) then FitsList(list.tail, rest) else Fits(list.body, s.kids) && AllUntouched(list.tail, rest)
    ensures FitsList(list, [s] + rest)
  {
    hide Fits, AllUntouched;
    assert ([s] + rest)[0] == s && ([s] + rest)[1..] == rest;
  }

  lemma FirstRemaining(list: SectionList, s: Tree, rest: seq<Tree>)
    requires list.Section? && FitsList(list, [s] + rest)
    requires if IsComplete(s.state) then FitsList(list.tail, rest) else Fits(list.body, s.kids)
    ensures ListRemaining(list, [s] + rest) ==
      if IsComplete(s.state) then ListRemaining(list.tail, rest)
      else Prefixed(Entered(list.at), Remaining(list.body, s.kids)) + ListPaths(list.tail)
    ensures LivelyList(list, [s] + rest) <==>
      if IsComplete(s.state) then LivelyList(list.tail, rest) else Lively(list.body, s.kids)
  {
    hide Fits, Lively, Remaining, ListPaths;
    assert ([s] + rest)[0] == s && ([s] + rest)[1..] == rest;
  }

  lemma NothingRemains(list: SectionList)
    ensures FitsList(list, []) && (list.NoSections? ==> ListPaths(list) == [])
    ensures list.NoSections? || list.Section?
  {
  }

  lemma EnteredComplete(tail: SectionList, s': Tree, rest': seq<Tree>)
    requires AllUntouched(tail, rest') && Covers(tail, rest')
    ensures AllComplete([s'] + rest') <==> IsComplete(s'.state) && rest' == []
    ensures tail.NoSections? <==> rest' == []
  {
    var kids' := [s'] + rest';
    assert kids'[0] == s';
    if rest' != [] { assert kids'[1] == rest'[0] && !IsComplete(kids'[1].state); }
  }

  lemma EnteredPrefix(list: SectionList, s: Tree, s': Tree, trace: Path)
    requires list.Section? && Fits(list.body, s.kids)
    requires Visited(list.body, s.kids, s', trace)
    ensures Prefixed(Entered(list.at), Remaining(list.body, s.kids)) ==
      [[Entered(list.at)] + trace] +
        if IsComplete(s'.state) then [] else Prefixed(Entered(list.at), Remaining(list.body, s'.kids))
    ensures !IsComplete(s'.state) ==> Fits(list.body, s'.kids) && Lively(list.body, s'.kids)
  {
    hide Fits, Lively, Remaining;
  }

  /** A pass over a scope took its first remaining path, and closing it left exactly the others. */
  ghost predicate Visited(b: Body, kids: seq<Tree>, c: Tree, trace: Path)
    requires Fits(b, kids)
  {
    (c.kids != [] ==> HasStarted(c.kids[0])) &&
    if IsComplete(c.state) then c.state == CompletedSuccessfully && Remaining(b, kids) == [trace]
    else Fits(b, c.kids) && Lively(b, c.kids) && Remaining(b, kids) == [trace] + Remaining(b, c.kids)
  }

  lemma {:induction false} RunBodyVisits(
    b: Body, kids: seq<Tree>, step: nat, throws: Throws, at: NameAndLocation, kind: Kind)
    requires Fits(b, kids) && Lively(b, kids) && NeverThrows(throws)
    ensures var r := RunBody(b, kids, step, throws);
            !r.thrown && Visited(b, kids, CloseScope(at, kind, r), r.trace)
    decreases b, 1
  {
    if b.Generate? {
      RunGenerateVisits(b, kids, step, throws, at, kind);
    } else if b.list.Section? {
      RunSectionsVisits(b.list, kids, step + 1, throws);
    }
  }

  lemma {:induction false} RunGenerateVisits(
    b: Body, kids: seq<Tree>, step: nat, throws: Throws, at: NameAndLocation, kind: Kind)
    requires b.Generate? && Fits(b, kids) && Lively(b, kids) && NeverThrows(throws)
    ensures var r := RunBody(b, kids, step, throws);
            !r.thrown && Visited(b, kids, CloseScope(at, kind, r), r.trace)
    decreases b, 0
  {
    var g := FirstOr(kids, Fresh(b.at, GeneratorKind(b.size, 0)));
    var r := RunBody(b.rest, g.kids, step + 1, throws);
    StartedRemaining(b, kids);
    RunBodyVisits(b.rest, g.kids, step + 1, throws, b.at, g.kind);
    RunGenerate(b, kids, step, throws);
    CloseGenerated(b, kids, step, throws, at, kind);
    GeneratorRemaining(b, g.(state := Executing), CloseScope(b.at, g.kind, r), r.trace);
  }

  lemma StartedRemaining(b: Body, kids: seq<Tree>)
    requires b.Generate? && Fits(b, kids) && Lively(b, kids)
    ensures var g := FirstOr(kids, Fresh(b.at, GeneratorKind(b.size, 0))).(state := Executing);
            FitsGenerator(b.at, b.size, g) && Fits(b.rest, g.kids) && Fits(b, [g]) && Lively(b.rest, g.kids) &&
            Remaining(b, [g]) == Remaining(b, kids)
  {
    var g := FirstOr(kids, Fresh(b.at, GeneratorKind(b.size, 0))).(state := Executing);
    assert [g][0] == g;
  }

  lemma GeneratorRemaining(b: Body, g: Tree, c: Tree, trace: Path)
    requires b.Generate? && FitsGenerator(b.at, b.size, g) && Fits(b.rest, g.kids) && Fits(b, [g])
    requires c.at == g.at && c.kind == g.kind && (Closable(c.state) || c.state == CompletedSuccessfully)
    requires Visited(b.rest, g.kids, c, trace)
    ensures var n := AdvanceGenerator(c);
            var path := [Drew(b.at, g.kind.position)] + trace;
            if n.state == CompletedSuccessfully then Remaining(b, [g]) == [path]
            else Closable(n.state) && Fits(b, [n]) && Lively(b, [n]) && Remaining(b, [g]) == [path] + Remaining(b, [n])
  {
    assert !ShouldWaitForChild(c);
    if c.state == CompletedSuccessfully {
      NextValueRemaining(b, g, c, trace);
    } else {
      SameValueRemaining(b, g, c, trace);
    }
  }

  lemma NextValueRemaining(b: Body, g: Tree, c: Tree, trace: Path)
    requires b.Generate? && FitsGenerator(b.at, b.size, g) && Fits(b.rest, g.kids) && Fits(b, [g])
    requires c.kind == g.kind && Remaining(b.rest, g.kids) == [trace]
    ensures var n := c.(kind := GeneratorKind(b.size, g.kind.position + 1), kids := [], state := Executing);
            var path := [Drew(b.at, g.kind.position)] + trace;
            if g.kind.position + 1 < b.size
            then (c.at == b.at ==> Fits(b, [n]) && Lively(b, [n]) && Remaining(b, [g]) == [path] + Remaining(b, [n]))
            else Remaining(b, [g]) == [path]
  {
    var e := Drew(b.at, g.kind.position);
    assert [g][0] == g;
    assert Prefixed(e, [trace]) == [[e] + trace];
    assert Remaining(b, [g]) == [[e] + trace] + DrawPaths(b.at, g.kind.position + 1, b.size, Paths(b.rest));
    if g.kind.position + 1 < b.size && c.at == b.at {
      var n := c.(kind := GeneratorKind(b.size, g.kind.position + 1), kids := [], state := Executing);
      assert [n][0] == n;
      assert Remaining(b, [n]) == DrawPaths(b.at, g.kind.position + 1, b.size, Paths(b.rest));
    }
  }

  lemma SameValueRemaining(b: Body, g: Tree, c: Tree, trace: Path)
    requires b.Generate? && FitsGenerator(b.at, b.size, g) && Fits(b.rest, g.kids) && Fits(b, [g])
    requires c.at == g.at && c.kind == g.kind && Closable(c.state)
    requires Fits(b.rest, c.kids) && Lively(b.rest, c.kids)
    requires Remaining(b.rest, g.kids) == [trace] + Remaining(b.rest, c.kids)
    ensures Fits(b, [c]) && Lively(b, [c])
    ensures Remaining(b, [g]) == [[Drew(b.at, g.kind.position)] + trace] + Remaining(b, [c])
  {
    var e := Drew(b.at, g.kind.position);
    assert [c][0] == c && [g][0] == g;
    assert Prefixed(e, [trace] + Remaining(b.rest, c.kids)) == [[e] + trace] + Prefixed(e, Remaining(b.rest, c.kids));
  }

  // ----- Completed trackers stay as they are -----

  /** The second tree comes later in the run: a tracker that was completed or had failed is untouched,
      with everything below it, for as long as the generators above it keep their value. */
  predicate Kept(t: Tree, t': Tree)
    decreases t
  {
    t.at == t'.at &&
    if IsComplete(t.state) then t' == t
    else match t.kind
      case SectionKind => t'.kind.SectionKind? && KeptKids(t, t')
      case GeneratorKind(_, p) =>
        t'.kind.GeneratorKind? && p <= t'.kind.position && (p == t'.kind.position ==> KeptKids(t, t'))
  }

  predicate KeptKids(t: Tree, t': Tree)
    decreases t, 0
  {
    |t.kids| <= |t'.kids| && forall i :: 0 <= i < |t.kids| ==> Kept(t.kids[i], t'.kids[i])
  }

  lemma {:induction false} KeptTransitive(t: Tree, u: Tree, v: Tree)
    requires Kept(t, u) && Kept(u, v)
    ensures Kept(t, v)
    decreases t
  {
    if !IsComplete(t.state) && !IsComplete(u.state) {
      if t.kind.SectionKind? || t.kind.position == v.kind.position {
        assert KeptKids(t, u) && KeptKids(u, v);
        forall i | 0 <= i < |t.kids| ensures Kept(t.kids[i], v.kids[i]) {
          KeptTransitive(t.kids[i], u.kids[i], v.kids[i]);
        }
        assert KeptKids(t, v);
      }
    }
  }

  predicate KeptAll(kids: seq<Tree>, kids': seq<Tree>) {
    |kids| <= |kids'| && forall i :: 0 <= i < |kids| ==> Kept(kids[i], kids'[i])
  }

  lemma {:induction false} UntouchedKept(list: SectionList, kids: seq<Tree>)
    requires AllUntouched(list, kids)
    ensures KeptAll(kids, kids)
    decreases list
  {
    if kids != [] { UntouchedKept(list.tail, kids[1..]); KeptCons(kids[0], kids[0], kids[1..], kids[1..]); }
  }

  lemma KeptCons(s: Tree, s': Tree, rest: seq<Tree>, rest': seq<Tree>)
    requires Kept(s, s') && KeptAll(rest, rest')
    ensures KeptAll([s] + rest, [s'] + rest')
  {
    forall i | 0 <= i < 1 + |rest| ensures Kept(([s] + rest)[i], ([s'] + rest')[i]) {
      if i > 0 { assert Kept(rest[i - 1], rest'[i - 1]); }
    }
  }

  lemma {:induction false} DoneKept(list: SectionList, state: CycleState, kids: seq<Tree>, step: nat, throws: Throws)
    requires AllUntouched(list, kids) && Closable(state)
    ensures KeptAll(kids, RunSections(list, state, kids, true, step, throws).kids)
    decreases list
  {
    if list.Section? {
      var s := FirstOr(kids, Fresh(list.at, SectionKind));
      UntouchedKept(list, kids);
      assert kids == [] || kids == [s] + Rest(kids);
      if !throws(step) {
        DoneKept(list.tail, state, Rest(kids), step + 1, throws);
        KeptCons(s, s, Rest(kids), RunSections(list.tail, state, Rest(kids), true, step + 1, throws).kids);
      }
    }
  }

  lemma {:induction false} RunSectionsKept(list: SectionList, kids: seq<Tree>, step: nat, throws: Throws)
    requires FitsList(list, kids)
    ensures KeptAll(kids, RunSections(list, Executing, kids, false, step, throws).kids)
    decreases list, 1
  {
    if list.Section? && kids != [] {
      assert kids == [kids[0]] + kids[1..];
      if IsComplete(kids[0].state) {
        SkippedKept(list, kids, step, throws);
      } else {
        EnteredKept(list, kids[0], kids[1..], step, throws);
      }
    }
  }

  lemma {:induction false} SkippedKept(list: SectionList, kids: seq<Tree>, step: nat, throws: Throws)
    requires FitsList(list, kids) && list.Section? && kids != [] && IsComplete(kids[0].state)
    ensures KeptAll(kids, RunSections(list, Executing, kids, false, step, throws).kids)
    decreases list, 0
  {
    assert kids == [kids[0]] + kids[1..];
    RunSectionsKept(list.tail, kids[1..], step + 1, throws);
    var r := RunSections(list.tail, Executing, kids[1..], false, step + 1, throws);
    if throws(step) { FitsKept(list.tail, kids[1..]); KeptCons(kids[0], kids[0], kids[1..], kids[1..]); }
    else { KeptCons(kids[0], kids[0], kids[1..], r.kids); }
  }

  lemma {:induction false} FitsKept(list: SectionList, kids: seq<Tree>)
    requires FitsList(list, kids)
    ensures KeptAll(kids, kids)
    decreases list, 1
  {
    forall i | 0 <= i < |kids| ensures Kept(kids[i], kids[i]) {
      KeptReflexive(kids[i]);
    }
  }

  lemma {:induction false} KeptReflexive(t: Tree)
    ensures Kept(t, t)
    decreases t
  {
    forall i | 0 <= i < |t.kids| ensures Kept(t.kids[i], t.kids[i]) { KeptReflexive(t.kids[i]); }
    assert KeptKids(t, t);
  }

  lemma {:induction false} EnteredKept(
    list: SectionList, s: Tree, rest: seq<Tree>, step: nat, throws: Throws)
    requires list.Section? && FitsList(list, [s] + rest) && !IsComplete(s.state)
    requires Fits(list.body, s.kids) && AllUntouched(list.tail, rest) && s.kind == SectionKind
    ensures KeptAll([s] + rest, RunSections(list, Executing, [s] + rest, false, step, throws).kids)
    decreases list, 0
  {
    var kids := [s] + rest;
    assert FirstOr(kids, Fresh(list.at, SectionKind)) == s && Rest(kids) == rest;
    var r := RunBody(list.body, s.kids, step, throws);
    RunBodyKept(list.body, s.kids, step, throws, list.at, SectionKind);
    var s' := LeaveSection(s.(state := r.state, kids := r.kids), r);
    assert Kept(s, s') by { hide RunBody, RunSections, Kept; LeftKept(s, r); }
    UntouchedKept(list.tail, rest);
    hide RunBody, Kept, Fits, AllUntouched, LeaveSection, KeptAll;
    if r.thrown || throws(r.step) {
      KeptCons(s, s', rest, rest);
    } else {
      DoneKept(list.tail, ExecutingChildren, rest, r.step + 1, throws);
      KeptCons(s, s', rest, RunSections(list.tail, ExecutingChildren, rest, true, r.step + 1, throws).kids);
    }
  }

  lemma LeftKept(s: Tree, r: Outcome)
    requires !IsComplete(s.state) && s.kind == SectionKind && Closable(r.state) && OpenChain(r.depth, r.kids)
    requires KeptAll(s.kids, r.kids) && KeptAll(s.kids, CloseScope(s.at, SectionKind, r).kids)
    ensures Kept(s, LeaveSection(s.(state := r.state, kids := r.kids), r))
  {
    hide OpenChain, CloseChain;
    var s' := LeaveSection(s.(state := r.state, kids := r.kids), r);
    assert KeptKids(s, s');
  }

  /** Both when the scope is closed and when it fails with its generators left open. */
  lemma {:induction false} RunBodyKept(
    b: Body, kids: seq<Tree>, step: nat, throws: Throws, at: NameAndLocation, kind: Kind)
    requires Fits(b, kids)
    ensures var r := RunBody(b, kids, step, throws);
            KeptAll(kids, r.kids) && KeptAll(kids, CloseScope(at, kind, r).kids)
    decreases b, 1
  {
    if throws(step) {
      forall i | 0 <= i < |kids| ensures Kept(kids[i], kids[i]) { KeptReflexive(kids[i]); }
    } else if b.Generate? {
      RunGenerateKept(b, kids, step, throws, at, kind);
    } else {
      RunSectionsKept(b.list, kids, step + 1, throws);
    }
  }

  lemma {:induction false} RunGenerateKept(
    b: Body, kids: seq<Tree>, step: nat, throws: Throws, at: NameAndLocation, kind: Kind)
    requires b.Generate? && Fits(b, kids) && !throws(step)
    ensures var r := RunBody(b, kids, step, throws);
            KeptAll(kids, r.kids) && KeptAll(kids, CloseScope(at, kind, r).kids)
    decreases b, 0
  {
    var g := FirstOr(kids, Fresh(b.at, GeneratorKind(b.size, 0)));
    var g', c := GenerateOutcome(b, kids, step, throws, at, kind);
    RunBodyKept(b.rest, g.kids, step + 1, throws, b.at, g.kind);
    if kids != [] { KeptGenerator(g, g', c); }
  }

  /** The generator as the body left it, and as closing it leaves it before it advances. */
  lemma GenerateOutcome(
    b: Body, kids: seq<Tree>, step: nat, throws: Throws, at: NameAndLocation, kind: Kind)
    returns (g': Tree, c: Tree)
    requires b.Generate? && Fits(b, kids) && !throws(step)
    ensures var g := FirstOr(kids, Fresh(b.at, GeneratorKind(b.size, 0)));
            var r := RunBody(b.rest, g.kids, step + 1, throws);
            var o := RunBody(b, kids, step, throws);
            g' == Tree(g.at, g.kind, r.state, r.kids) && c == CloseScope(b.at, g.kind, r) && c.kind == g.kind &&
            !ShouldWaitForChild(c) && o.kids == [g'] && CloseScope(at, kind, o).kids == [AdvanceGenerator(c)]
  {
    var g := FirstOr(kids, Fresh(b.at, GeneratorKind(b.size, 0)));
    var r := RunBody(b.rest, g.kids, step + 1, throws);
    RunBodyProgress(b.rest, g.kids, step + 1, throws, b.at, g.kind);
    RunGenerate(b, kids, step, throws);
    CloseGenerated(b, kids, step, throws, at, kind);
    g' := Tree(g.at, g.kind, r.state, r.kids);
    c := CloseScope(b.at, g.kind, r);
  }

  lemma KeptGenerator(g: Tree, g': Tree, c: Tree)
    requires g.kind.GeneratorKind? && !IsComplete(g.state) && !ShouldWaitForChild(c)
    requires g'.at == g.at && g'.kind == g.kind && KeptAll(g.kids, g'.kids)
    requires c.at == g.at && c.kind == g.kind && KeptAll(g.kids, c.kids)
    ensures Kept(g, g') && Kept(g, AdvanceGenerator(c))
  {
    assert KeptKids(g, g') && KeptKids(g, c);
  }

  // ----- Whole runs -----

  datatype Cycle = Cycle(path: Path, after: Tree)

  function OneCycle(b: Body, test: Tree, step: nat, throws: Throws): (r: (Tree, Outcome))
    requires Fits(b, test.kids) && test.kind.SectionKind?
    ensures r.0.at == test.at && r.0.kind == test.kind
    ensures !IsComplete(r.0.state) ==> Fits(b, r.0.kids) && Work(b, r.0.kids) < Work(b, test.kids)
  {
    var r := RunBody(b, test.kids, step, throws);
    RunBodyProgress(b, test.kids, step, throws, test.at, SectionKind);
    (CloseScope(test.at, SectionKind, r), r)
  }

  lemma OneCycleIs(b: Body, test: Tree, step: nat, throws: Throws)
    requires Fits(b, test.kids) && test.kind.SectionKind?
    ensures var r := RunBody(b, test.kids, step, throws);
            OneCycle(b, test, step, throws) == (CloseScope(test.at, SectionKind, r), r)
  {
    hide RunBody;
  }

  /** Enter the test case again and again until its tracker has completed. */
  function TestRun(b: Body, test: Tree, step: nat, throws: Throws): seq<Cycle>
    requires Fits(b, test.kids) && test.kind.SectionKind?
    decreases Work(b, test.kids)
  {
    var (test', r) := OneCycle(b, test, step, throws);
    [Cycle(r.trace, test')] + if IsComplete(test'.state) then [] else TestRun(b, test', r.step, throws)
  }

  function PathsOf(run: seq<Cycle>): seq<Path> {
    seq(|run|, i requires 0 <= i < |run| => run[i].path)
  }

  lemma PathsOfMore(c: Cycle, run: seq<Cycle>)
    ensures PathsOf([c] + run) == [c.path] + PathsOf(run)
  {
  }

  /** If nothing throws, the cycles of a run are exactly the paths of the body, each once and in order. */
  lemma {:induction false} RunVisitsEveryPath(b: Body, test: Tree, step: nat, throws: Throws)
    requires Fits(b, test.kids) && test.kind.SectionKind? && Lively(b, test.kids) && NeverThrows(throws)
    ensures PathsOf(TestRun(b, test, step, throws)) == Remaining(b, test.kids)
    decreases Work(b, test.kids)
  {
    var (test', r) := OneCycle(b, test, step, throws);
    RunBodyVisits(b, test.kids, step, throws, test.at, SectionKind);
    if IsComplete(test'.state) {
      assert TestRun(b, test, step, throws) == [Cycle(r.trace, test')];
    } else {
      RunVisitsEveryPath(b, test', r.step, throws);
      PathsOfMore(Cycle(r.trace, test'), TestRun(b, test', r.step, throws));
    }
  }

  lemma FreshFits(b: Body)
    ensures Fits(b, [])
  {
  }

  lemma {:induction false} FreshRunVisitsEveryPath(b: Body, at: NameAndLocation, step: nat, throws: Throws)
    requires NeverThrows(throws)
    ensures PathsOf(TestRun(b, Fresh(at, SectionKind), step, throws)) == Paths(b)
  {
    assert Lively(b, []);
    RunVisitsEveryPath(b, Fresh(at, SectionKind), step, throws);
  }

  /** The first cycle of a run, and the run after it. */
  lemma TestRunStep(b: Body, test: Tree, step: nat, throws: Throws)
    requires Fits(b, test.kids) && test.kind.SectionKind?
    ensures var (test', r) := OneCycle(b, test, step, throws);
            test'.state != Failed && test'.at == test.at && test'.kind == SectionKind &&
            (if IsComplete(test'.state) then PathsOf(TestRun(b, test, step, throws)) == [r.trace]
             else Fits(b, test'.kids) && Work(b, test'.kids) < Work(b, test.kids) &&
                  PathsOf(TestRun(b, test, step, throws)) == [r.trace] + PathsOf(TestRun(b, test', r.step, throws)))
  {
    hide RunBody;
    var (test', r) := OneCycle(b, test, step, throws);
    if !IsComplete(test'.state) { PathsOfMore(Cycle(r.trace, test'), TestRun(b, test', r.step, throws)); }
  }

  /** Whatever throws, a run ends, successfully, after at most one cycle more than there is work. */
  lemma {:induction false} RunEnds(b: Body, test: Tree, step: nat, throws: Throws)
    requires Fits(b, test.kids) && test.kind.SectionKind?
    ensures var run := TestRun(b, test, step, throws);
            1 <= |run| <= Work(b, test.kids) + 1 && run[|run| - 1].after.state == CompletedSuccessfully &&
            forall i :: 0 <= i < |run| - 1 ==> !IsComplete(run[i].after.state)
    decreases Work(b, test.kids)
  {
    hide Fits, Work, OneCycle, TestRun, RunBody;
    var (test', r) := OneCycle(b, test, step, throws);
    TestRunStep(b, test, step, throws);
    TestRunIs(b, test, step, throws);
    if !IsComplete(test'.state) {
      RunEnds(b, test', r.step, throws);
      var run, more := TestRun(b, test, step, throws), TestRun(b, test', r.step, throws);
      assert forall i :: 1 <= i < |run| ==> run[i] == more[i - 1];
    }
  }

  lemma TestRunIs(b: Body, test: Tree, step: nat, throws: Throws)
    requires Fits(b, test.kids) && test.kind.SectionKind?
    ensures var (test', r) := OneCycle(b, test, step, throws);
            if IsComplete(test'.state) then TestRun(b, test, step, throws) == [Cycle(r.trace, test')]
            else Fits(b, test'.kids) && Work(b, test'.kids) < Work(b, test.kids) &&
                 TestRun(b, test, step, throws) == [Cycle(r.trace, test')] + TestRun(b, test', r.step, throws)
  {
    hide Fits, Work, OneCycle;
  }

  function CountSections(b: Body): nat
    decreases b
  {
    match b
    case Generate(_, _, rest) => CountSections(rest)
    case Sections(list) => CountListed(list)
  }

  function CountListed(list: SectionList): nat
    decreases list
  {
    match list
    case NoSections => 0
    case Section(_, body, tail) => 1 + CountSections(body) + CountListed(tail)
  }

  predicate SectionsOnly(b: Body)
    decreases b
  {
    b.Sections? && ListedOnly(b.list)
  }

  predicate ListedOnly(list: SectionList)
    decreases list
  {
    list.NoSections? || (SectionsOnly(list.body) && ListedOnly(list.tail))
  }

  lemma {:induction false} SectionWork(b: Body)
    requires SectionsOnly(b)
    ensures Work(b, []) == CountSections(b)
    decreases b
  {
    SectionListWork(b.list);
  }

  lemma {:induction false} SectionListWork(list: SectionList)
    requires ListedOnly(list)
    ensures ListWork(list, []) == CountListed(list)
    decreases list
  {
    if list.Section? { SectionWork(list.body); SectionListWork(list.tail); }
  }

  /** With sections only, a run makes at most one cycle per section and one for the test case itself. */
  lemma {:induction false} SectionRunBound(b: Body, at: NameAndLocation, step: nat, throws: Throws)
    requires SectionsOnly(b)
    ensures |TestRun(b, Fresh(at, SectionKind), step, throws)| <= CountSections(b) + 1
  {
    RunEnds(b, Fresh(at, SectionKind), step, throws);
    SectionWork(b);
  }

  /** Whatever throws, a tracker that has completed or failed is never opened again. */
  lemma {:induction false} RunKeepsCompleted(b: Body, test: Tree, step: nat, throws: Throws, i: nat, j: nat)
    requires Fits(b, test.kids) && test.kind.SectionKind? && !IsComplete(test.state)
    requires i <= j < |TestRun(b, test, step, throws)|
    ensures var run := TestRun(b, test, step, throws);
            Kept(test, run[j].after) && Kept(run[i].after, run[j].after)
    decreases Work(b, test.kids)
  {
    var (test', r) := OneCycle(b, test, step, throws);
    RunBodyKept(b, test.kids, step, throws, test.at, SectionKind);
    assert KeptKids(test, test');
    KeptReflexive(test');
    if j > 0 {
      var run := TestRun(b, test', r.step, throws);
      RunKeepsCompleted(b, test', r.step, throws, if i > 0 then i - 1 else 0, j - 1);
      KeptTransitive(test, test', run[j - 1].after);
    }
  }
}
