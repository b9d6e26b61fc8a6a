/** Running a test case: its body is entered until nothing is left. */
module TestRunner {
  import opened TestBody
  import opened TrackerModel
  import opened TrackerRuns
  import opened Trackers

  /** A scope's state after a section in it ended. */
  function StateAfter(r: Outcome): CycleState {
    if r.thrown && !r.unwinding then NeedsAnotherRun else ExecutingChildren
  }

  /** The cases of running a body. */
  lemma BodyIs(b: Body, kids: seq<Tree>, step: nat, throws: Throws)
    requires Fits(b, kids)
    ensures var o := TrackerModel.RunBody(b, kids, step, throws);
            if throws(step) then o == Outcome(Executing, kids, false, true, false, 0, step + 1, [])
            else match b
              case Generate(at, size, rest) =>
                var g := FirstOr(kids, Fresh(at, GeneratorKind(size, 0)));
                Fits(rest, g.kids) && g.kind.GeneratorKind? &&
                var r := TrackerModel.RunBody(rest, g.kids, step + 1, throws);
                o == Outcome(ExecutingChildren, [g.(state := r.state, kids := r.kids)], r.done, r.thrown, r.unwinding,
                             r.depth + 1, r.step, [Drew(at, g.kind.position)] + r.trace)
              case Sections(list) =>
                FitsList(list, kids) && o == TrackerModel.RunSections(list, Executing, kids, false, step + 1, throws)
  {
  }

  /** User code after a section, up to the end of the list. */
  function GoOn(list: SectionList, state: CycleState, kids: seq<Tree>, done: bool, step: nat, throws: Throws): (r: Outcome)
    requires if done then AllUntouched(list, kids) else FitsList(list, kids)
    requires Closable(state)
    ensures r.depth == 0
  {
    if throws(step) then Outcome(state, kids, done, true, false, 0, step + 1, [])
    else TrackerModel.RunSections(list, state, kids, done, step + 1, throws)
  }

  /** A section that is skipped, and what follows it. */
  lemma SkipThenGoOn(list: SectionList, state: CycleState, kids: seq<Tree>, done: bool, step: nat, throws: Throws)
    requires list.Section? && Closable(state)
    requires if done then AllUntouched(list, kids) else FitsList(list, kids)
    requires done || IsComplete(FirstOr(kids, Fresh(list.at, SectionKind)).state)
    ensures var q := GoOn(list.tail, state, Rest(kids), done, step, throws);
            TrackerModel.RunSections(list, state, kids, done, step, throws) ==
              q.(kids := [FirstOr(kids, Fresh(list.at, SectionKind))] + q.kids)
  {
  }

  lemma NoneListed(list: SectionList, kids: seq<Tree>, i: nat)
    requires list.Section? && i <= |kids| && forall j :: 0 <= j < i ==> !Lists(list, kids[j].at)
    ensures forall j :: 0 <= j < i ==> kids[j].at != list.at
  {
  }

  lemma FirstListed(list: SectionList, kids: seq<Tree>, done: bool)
    requires list.Section? && if done then AllUntouched(list, kids) else FitsList(list, kids)
    ensures kids != [] ==> kids[0].at == list.at && kids[0].kind == SectionKind
    ensures done ==> !HasStarted(FirstOr(kids, Fresh(list.at, SectionKind)))
  {
  }

  lemma FirstFits(list: SectionList, kids: seq<Tree>)
    requires list.Section? && FitsList(list, kids)
    requires !IsComplete(FirstOr(kids, Fresh(list.at, SectionKind)).state)
    ensures Fits(list.body, FirstOr(kids, Fresh(list.at, SectionKind)).kids) && AllUntouched(list.tail, Rest(kids))
  {
  }

  /** A section that is entered and throws. */
  lemma EnterAndThrow(list: SectionList, state: CycleState, kids: seq<Tree>, step: nat, throws: Throws)
    requires list.Section? && Closable(state) && FitsList(list, kids)
    requires var s := FirstOr(kids, Fresh(list.at, SectionKind));
             !IsComplete(s.state) && Fits(list.body, s.kids) &&
             TrackerModel.RunBody(list.body, s.kids, step, throws).thrown
    ensures var s := FirstOr(kids, Fresh(list.at, SectionKind));
            var r := TrackerModel.RunBody(list.body, s.kids, step, throws);
            var s' := LeaveSection(s.(state := r.state, kids := r.kids), r);
            TrackerModel.RunSections(list, state, kids, false, step, throws) ==
              Outcome(StateAfter(r), [s'] + Rest(kids), true, true, true, 0, r.step, [Entered(list.at)] + r.trace)
  {
  }

  /** A section that is entered and does not throw, and what follows it. */
  lemma EnterThenGoOn(list: SectionList, state: CycleState, kids: seq<Tree>, step: nat, throws: Throws)
    requires list.Section? && Closable(state) && FitsList(list, kids)
    requires var s := FirstOr(kids, Fresh(list.at, SectionKind));
             !IsComplete(s.state) && Fits(list.body, s.kids) && AllUntouched(list.tail, Rest(kids)) &&
             !TrackerModel.RunBody(list.body, s.kids, step, throws).thrown
    ensures var s := FirstOr(kids, Fresh(list.at, SectionKind));
            var r := TrackerModel.RunBody(list.body, s.kids, step, throws);
            var s' := LeaveSection(s.(state := r.state, kids := r.kids), r);
            var q := GoOn(list.tail, ExecutingChildren, Rest(kids), true, r.step, throws);
            TrackerModel.RunSections(list, state, kids, false, step, throws) ==
              q.(kids := [s'] + q.kids, trace := [Entered(list.at)] + r.trace + q.trace)
  {
    hide TrackerModel.RunBody, Fits, FitsList, AllUntouched, LeaveSection;
    var s := FirstOr(kids, Fresh(list.at, SectionKind));
    var r := TrackerModel.RunBody(list.body, s.kids, step, throws);
    if throws(r.step) {
      assert [Entered(list.at)] + r.trace + [] == [Entered(list.at)] + r.trace;
    }
  }

  lemma Appended<X>(a: seq<X>, b: seq<X>, c: seq<X>, d: seq<X>)
    ensures a + b + c + d == a + (b + c + d)
    ensures a + b + c == a + (b + c)
  {
  }

  lemma LeftAt(s: Tree, r: Outcome)
    requires OpenChain(r.depth, s.kids) && Closable(s.state)
    ensures LeaveSection(s, r).at == s.at
  {
    hide OpenChain, CloseChain;
  }

  /** Where the section's tree sits in the scope. */
  lemma Placed(kids: seq<Tree>, i: nat, s: Tree, s': Tree, rest: seq<Tree>)
    requires i <= |kids|
    ensures var all := kids[..i] + [s] + rest;
            all[i] == s && all[i := s'] == kids[..i] + [s'] + rest && all[i + 1..] == rest &&
            all[..i + 1] == kids[..i] + [s] && (forall j :: 0 <= j < i ==> all[j] == kids[j])
  {
  }

  lemma KidPlaced(kids: seq<Tree>, i: nat, at: NameAndLocation)
    requires i <= |kids|
    ensures var first := FirstOr(kids[i..], Fresh(at, SectionKind));
            var all := WithKid(kids, i, at, false, 1);
            all[i] == first && all == kids[..i] + [first] + Rest(kids[i..]) &&
            (forall w: Tree {:trigger all[i := w]} :: all[i := w] == kids[..i] + [w] + Rest(kids[i..]))
  {
    var first := FirstOr(kids[i..], Fresh(at, SectionKind));
    var all := WithKid(kids, i, at, false, 1);
    assert all == kids[..i] + [first] + Rest(kids[i..]);
    forall w: Tree ensures all[i := w] == kids[..i] + [w] + Rest(kids[i..]) {
      Placed(kids, i, first, w, Rest(kids[i..]));
    }
  }

  /** The whole scope and path after a section was entered, and after what follows it. */
  lemma EnteredSummary(
    list: SectionList, state: CycleState, all: seq<Tree>, i: nat, step: nat, throws: Throws, path: Path)
    requires i <= |all| && list.Section? && Closable(state) && FitsList(list, all[i..])
    requires var s := FirstOr(all[i..], Fresh(list.at, SectionKind));
             !IsComplete(s.state) && Fits(list.body, s.kids) && AllUntouched(list.tail, Rest(all[i..]))
    ensures var s := FirstOr(all[i..], Fresh(list.at, SectionKind));
            var r := TrackerModel.RunBody(list.body, s.kids, step, throws);
            var s' := LeaveSection(s.(state := r.state, kids := r.kids), r);
            var o := TrackerModel.RunSections(list, state, all[i..], false, step, throws);
            var kids := all[..i] + [s'] + Rest(all[i..]);
            var q := GoOn(list.tail, ExecutingChildren, Rest(all[i..]), true, r.step, throws);
            if r.thrown then
              o.state == StateAfter(r) && all[..i] + o.kids == kids && o.done && o.thrown && o.unwinding &&
              o.depth == 0 && o.step == r.step && path + [Entered(list.at)] + r.trace == path + o.trace
            else
              o.state == q.state && all[..i] + o.kids == kids[..i + 1] + q.kids && o.done == q.done &&
              o.thrown == q.thrown && o.unwinding == q.unwinding && o.depth == q.depth == 0 && o.step == q.step &&
              path + [Entered(list.at)] + r.trace + q.trace == path + o.trace
  {
    var s := FirstOr(all[i..], Fresh(list.at, SectionKind));
    var r := TrackerModel.RunBody(list.body, s.kids, step, throws);
    var s' := LeaveSection(s.(state := r.state, kids := r.kids), r);
    var rest := Rest(all[i..]);
    Placed(all, i, s', s', rest);
    if r.thrown {
      EnterAndThrow(list, state, all[i..], step, throws);
      Appended(path, [Entered(list.at)], r.trace, []);
      Appended(all[..i], [s'], rest, []);
    } else {
      EnterThenGoOn(list, state, all[i..], step, throws);
      var q := GoOn(list.tail, ExecutingChildren, rest, true, r.step, throws);
      Appended(path, [Entered(list.at)], r.trace, q.trace);
      Appended(all[..i], [s'], q.kids, []);
    }
  }

  /** The children of a scope once the i-th is known to be registered. */
  function WithKid(kids: seq<Tree>, i: nat, at: NameAndLocation, isGenerator: bool, size: Count): (r: seq<Tree>)
    requires i <= |kids|
    ensures i < |r|
  {
    if i < |kids| then kids
    else kids + [Fresh(at, if isGenerator then GeneratorKind(size, 0) else SectionKind)]
  }

  lemma LastKid(kids: seq<Tree>, w: Tree, w': Tree)
    ensures (kids + [w])[|kids|] == w && (kids + [w])[|kids| := w'] == kids + [w']
  {
  }

  lemma OnlyKid(w: Tree, w': Tree)
    ensures [w][0 := w'] == [w']
  {
  }

  /** The cycles up to the end, or up to the first one after which the run is aborted. */
  ghost predicate UntilAborted(paths: seq<Path>, all: seq<Path>, aborting: nat -> bool) {
    1 <= |paths| && paths <= all && (forall i :: 0 <= i < |paths| - 1 ==> !aborting(i)) &&
    (|paths| < |all| ==> aborting(|paths| - 1))
  }

  class RunContext {
    const throws: Throws
    const ctx: TrackerContext
    var activeSections: seq<Tracker>
    var unfinishedSections: nat
    var step: nat
    var path: Path

    constructor (root: NameAndLocation, throws: Throws)
      ensures this.throws == throws && fresh(ctx) && fresh(ctx.all) && ctx.all == {ctx.rootTracker}
      ensures Models(ctx.Heap(), ctx.rootTracker, Fresh(root, SectionKind)) && ctx.rootTracker.parent == null
      ensures activeSections == [] && unfinishedSections == 0 && step == 0 && path == []
    {
      this.throws := throws;
      ctx := new TrackerContext(root);
      activeSections, unfinishedSections, step, path := [], 0, 0, [];
    }

    /** The tracker t, with tree v, is current and was opened in this cycle. */
    ghost predicate InScope(t: Tracker, v: Tree)
      reads this, ctx, ctx.all
    {
      t in ctx.all && ctx.currentTracker == t && Models(ctx.Heap(), t, v) && Linked(t) &&
      (t.parent == null || (t.parent in ctx.all && t.parent.runState == ExecutingChildren))
    }

    /** User code reaches its next point, where it may throw. */
    method Tick() returns (thrown: bool)
      modifies `step
      ensures step == old(step) + 1 && thrown == throws(old(step))
    {
      thrown := throws(step);
      step := step + 1;
    }

    // ----- Acquiring trackers -----

    method AddChild(at: NameAndLocation, isGenerator: bool, size: Count, ghost t: Tracker, ghost v: Tree)
      returns (child: Tracker)
      requires InScope(t, v)
      modifies ctx`all, ctx.all
      ensures fresh(ctx.all - old(ctx.all)) && old(ctx.all) <= ctx.all
      ensures var w := Fresh(at, if isGenerator then GeneratorKind(size, 0) else SectionKind);
              InScope(t, v.(kids := v.kids + [w])) && t.children == old(t.children) + [child] &&
              child.isGenerator == isGenerator && Linked(child) && fresh(child)
      ensures SameOutside(old(ctx.Heap()), ctx.Heap(), t)
    {
      hide Models, Under, SameOutside;
      ghost var h := ctx.Heap();
      Modelled(h, t, v);
      var current := ctx.currentTracker;
      child := new Tracker(at, current, isGenerator, size);
      current.children := current.children + [child];
      ctx.all := ctx.all + {child};
      ghost var w := Fresh(at, if isGenerator then GeneratorKind(size, 0) else SectionKind);
      assert ctx.Heap() == h[child := Record(NotStarted, w.kind, [])]
                            [t := Record(h[t].state, h[t].kind, h[t].children + [child])];
      ModelsAdded(h, t, v, child, w);
    }

    /** Opening a child makes it the current tracker. */
    method OpenTracker(child: Tracker, ghost t: Tracker, ghost v: Tree, ghost i: nat)
      requires InScope(t, v) && i < |v.kids| && child == t.children[i]
      modifies ctx`currentTracker, ctx.all
      ensures var w := v.kids[i].(state := Executing);
              InScope(child, w) && t.runState == ExecutingChildren && t.children == old(t.children) &&
              Models(ctx.Heap(), t, v.(state := ExecutingChildren, kids := v.kids[i := w]))
      ensures SameOutside(old(ctx.Heap()), ctx.Heap(), t)
    {
      ghost var h := ctx.Heap();
      ChildUnder(h, t, v, i);
      ModelsMarked(h, t, v, i, Executing, ExecutingChildren);
      MarkUpOnce(h, t);
      Swapped(h, t, h[t].(state := ExecutingChildren), child, h[child].(state := Executing));
      child.Open(ctx);
    }

    /** Finds the child of the current tracker with this name and location, or registers a new one. */
    method FindOrAdd(at: NameAndLocation, isGenerator: bool, size: Count, ghost i: nat, ghost t: Tracker, ghost v: Tree)
      returns (child: Tracker)
      requires InScope(t, v) && i <= |v.kids|
      requires forall j :: 0 <= j < i ==> v.kids[j].at != at
      requires i < |v.kids| ==> v.kids[i].at == at
      modifies ctx`all, ctx.all
      ensures fresh(ctx.all - old(ctx.all)) && old(ctx.all) <= ctx.all
      ensures InScope(t, v.(kids := WithKid(v.kids, i, at, isGenerator, size)))
      ensures i < |t.children| && child == t.children[i] && Models(ctx.Heap(), child, WithKid(v.kids, i, at, isGenerator, size)[i])
      ensures SameOutside(old(ctx.Heap()), ctx.Heap(), t)
    {
      ghost var h := ctx.Heap();
      var found := ctx.currentTracker.FindChild(at);
      forall j | 0 <= j < |v.kids| ensures t.children[j].at == v.kids[j].at {
        assert Models(h, h[t].children[j], v.kids[j]);
      }
      if found != null {
        child := found;
      } else {
        child := AddChild(at, isGenerator, size, t, v);
      }
      assert Models(ctx.Heap(), t.children[i], WithKid(v.kids, i, at, isGenerator, size)[i]);
    }

    /** Finds the generator's tracker below the current one, or creates it, and opens it. */
    method EnterGenerator(at: NameAndLocation, size: Count, ghost rest: Body, ghost t: Tracker, ghost v: Tree)
      returns (g: Tracker)
      requires InScope(t, v) && Fits(Generate(at, size, rest), v.kids) && t.at != at
      modifies ctx`currentTracker, ctx`all, ctx.all
      ensures fresh(ctx.all - old(ctx.all)) && old(ctx.all) <= ctx.all
      ensures var w := FirstOr(v.kids, Fresh(at, GeneratorKind(size, 0))).(state := Executing);
              InScope(g, w) && t.runState == ExecutingChildren && t.children == [g] && g.position == w.kind.position &&
              Models(ctx.Heap(), t, v.(state := ExecutingChildren, kids := [w]))
      ensures SameOutside(old(ctx.Heap()), ctx.Heap(), t)
    {
      hide Models, Under, SameOutside, MarkUp, MarksWithin, Fits, Linked, FirstNamed;
      ghost var h0 := ctx.Heap();
      KnownGenerator(at, size, rest, v.kids);
      KnownChildren(h0, t, v);
      Modelled(h0, t, v);
      var found := ctx.AcquireGenerator(at);
      if found == null {
        if v.kids != [] { ChildModelled(h0, t, v, 0); }
        assert t.children == [] && v.kids == [];
        g := CreateGenerator(at, size, t, v);
        OnlyOne(g, Fresh(at, GeneratorKind(size, 0)).(state := Executing));
      } else {
        g := found;
        OnlyNamed(h0[t].children, at, g);
        ChildModelled(h0, t, v, 0);
        Modelled(h0, g, v.kids[0]);
        GeneratorOpened(h0, t, v, g);
      }
    }

    /** A generator met for the first time becomes the last child of the current tracker, and is opened. */
    method CreateGenerator(at: NameAndLocation, size: Count, ghost t: Tracker, ghost v: Tree) returns (g: Tracker)
      requires InScope(t, v) && t.at != at
      modifies ctx`currentTracker, ctx`all, ctx.all
      ensures fresh(ctx.all - old(ctx.all)) && old(ctx.all) <= ctx.all && fresh(g)
      ensures var w := Fresh(at, GeneratorKind(size, 0)).(state := Executing);
              InScope(g, w) && t.runState == ExecutingChildren && t.children == old(t.children) + [g] &&
              g.isGenerator && g.size == size && g.position == 0 &&
              Models(ctx.Heap(), t, v.(state := ExecutingChildren, kids := v.kids + [w]))
      ensures SameOutside(old(ctx.Heap()), ctx.Heap(), t)
    {
      hide Models, Under, SameOutside, Linked;
      ghost var h0, first := ctx.Heap(), Fresh(at, GeneratorKind(size, 0));
      Modelled(h0, t, v);
      g := AddChild(at, true, size, t, v);
      ghost var h1 := ctx.Heap();
      LastKid(v.kids, first, first.(state := Executing));
      OpenTracker(g, t, v.(kids := v.kids + [first]), |v.kids|);
      SameOutsideTransitive(h0, h1, ctx.Heap(), t);
      Modelled(ctx.Heap(), g, first.(state := Executing));
    }

    lemma OnlyOne(g: Tracker, w: Tree)
      ensures [] + [g] == [g] && [] + [w] == [w]
    {
    }

    lemma OnlyNamed(children: seq<Tracker>, wanted: NameAndLocation, g: Tracker)
      requires FirstNamed(children, wanted, g) && |children| <= 1
      ensures children == [g]
    {
    }

    /** Opening the only child marks its parent. */
    lemma GeneratorOpened(h: Records, t: Tracker, v: Tree, g: Tracker)
      requires Models(h, t, v) && |v.kids| == 1 && h[t].children == [g] && g in h && Linked(t)
      requires t.parent == null || (t.parent in h && h[t.parent].state == ExecutingChildren)
      ensures MarksWithin(h, t) && g.parent == t && g != t && Linked(g)
      ensures var w := v.kids[0].(state := Executing);
              var h' := MarkUp(h, t)[g := h[g].(state := Executing)];
              h'.Keys == h.Keys && Models(h', g, w) && h'[t] == h[t].(state := ExecutingChildren) &&
              h'[g] == h[g].(state := Executing) &&
              Models(h', t, v.(state := ExecutingChildren, kids := [w])) && SameOutside(h, h', t)
    {
      KnownChildren(h, t, v);
      ChildUnder(h, t, v, 0);
      ChildModelled(h, t, v, 0);
      ModelsMarked(h, t, v, 0, Executing, ExecutingChildren);
      MarkUpOnce(h, t);
      Swapped(h, t, h[t].(state := ExecutingChildren), g, h[g].(state := Executing));
      var w := v.kids[0].(state := Executing);
      assert v.kids[0 := w] == [w];
      hide Models, Under, SameOutside, MarkUp, MarksWithin;
    }

    lemma KnownGenerator(at: NameAndLocation, size: Count, rest: Body, kids: seq<Tree>)
      requires Fits(Generate(at, size, rest), kids)
      ensures kids == [] || (|kids| == 1 && FitsGenerator(at, size, kids[0]) && !IsComplete(kids[0].state))
    {
    }

    lemma Swapped(h: Records, x: Tracker, a: Record, y: Tracker, b: Record)
      requires x != y
      ensures h[x := a][y := b] == h[y := b][x := a]
    {
    }

    /** What the search for a generator needs to know of the current tracker and its children. */
    lemma KnownChildren(h: Records, t: Tracker, v: Tree)
      requires Models(h, t, v) && Linked(t) && (t.parent == null || (t.parent in h && h[t.parent].state == ExecutingChildren))
      ensures MarksWithin(h, t) && forall x :: x in h[t].children ==> x in h && x.parent == t && t.level < x.level
      ensures forall i :: 0 <= i < |v.kids| ==> h[t].children[i].at == v.kids[i].at && h[h[t].children[i]].state == v.kids[i].state
    {
      forall i | 0 <= i < |v.kids| ensures h[t].children[i] in h && h[t].children[i].at == v.kids[i].at {
        assert Models(h, h[t].children[i], v.kids[i]);
      }
    }

    /** Finds or creates the section's tracker, and opens it unless it or the cycle is complete. */
    method AcquireSection(at: NameAndLocation, ghost i: nat, ghost t: Tracker, ghost v: Tree)
      returns (s: Tracker)
      requires InScope(t, v) && i <= |v.kids|
      requires forall j :: 0 <= j < i ==> v.kids[j].at != at
      requires i < |v.kids| ==> v.kids[i].at == at && v.kids[i].kind.SectionKind?
      modifies ctx`currentTracker, ctx`all, ctx.all
      ensures fresh(ctx.all - old(ctx.all)) && old(ctx.all) <= ctx.all
      ensures var kids := WithKid(v.kids, i, at, false, 1);
              var w := kids[i];
              i < |t.children| && s == t.children[i] && !s.isGenerator && s.at == at &&
              if old(ctx.cycleCompleted) || IsComplete(w.state)
              then InScope(t, v.(kids := kids)) && s.runState == w.state
              else InScope(s, w.(state := Executing)) && t.runState == ExecutingChildren &&
                   Models(ctx.Heap(), t, v.(state := ExecutingChildren, kids := kids[i := w.(state := Executing)]))
      ensures SameOutside(old(ctx.Heap()), ctx.Heap(), t)
    {
      ghost var h0 := ctx.Heap();
      s := FindOrAdd(at, false, 1, i, t, v);
      ghost var h1 := ctx.Heap();
      if !ctx.cycleCompleted && !IsComplete(s.runState) {
        OpenTracker(s, t, v.(kids := WithKid(v.kids, i, at, false, 1)), i);
        SameOutsideTransitive(h0, h1, ctx.Heap(), t);
      }
    }

    // ----- Sections -----

    /** The innermost active section and its tracker, which is child i of t. */
    ghost predicate Active(r: Outcome, i: nat, t: Tracker, v: Tree, w: Tree)
      reads this, ctx, ctx.all
    {
      0 < |activeSections| && t in ctx.all && i < |v.kids| && i < |t.children| &&
      activeSections[|activeSections| - 1] == t.children[i] && !t.children[i].isGenerator &&
      Models(ctx.Heap(), t, v) && v.kids[i] == w && Closable(w.state) && OpenChain(r.depth, w.kids) &&
      CurrentAt(ctx.Heap(), t.children[i], r.depth, ctx.currentTracker)
    }

    /** Closes the innermost active section, if there is one. */
    method SectionEnded(ghost r: Outcome, ghost i: nat, ghost t: Tracker, ghost v: Tree, ghost w: Tree)
      requires activeSections == [] || Active(r, i, t, v, w)
      modifies `activeSections, ctx`currentTracker, ctx`cycleCompleted, ctx.all
      ensures old(activeSections) == [] ==>
        activeSections == [] && ctx.currentTracker == old(ctx.currentTracker) && ctx.cycleCompleted == old(ctx.cycleCompleted) &&
        ctx.Heap() == old(ctx.Heap())
      ensures old(activeSections) != [] ==>
        activeSections == old(activeSections)[..|old(activeSections)| - 1] && ctx.currentTracker == t && ctx.cycleCompleted &&
        Models(ctx.Heap(), t, v.(kids := v.kids[i := CloseSection(r.depth, w)])) &&
        SameOutside(old(ctx.Heap()), ctx.Heap(), t) && ctx.Heap()[t] == old(ctx.Heap())[t]
    {
      hide Under, OpenChain, CloseSection, SameOutside, CurrentAt;
      if activeSections != [] {
        ghost var h := ctx.Heap();
        ChildUnder(h, t, v, i);
        assert Models(h, t.children[i], w);
        var s := activeSections[|activeSections| - 1];
        s.Close(ctx, r.depth, w);
        activeSections := activeSections[..|activeSections| - 1];
        ModelsWithin(h, ctx.Heap(), t, v, i, CloseSection(r.depth, w));
      }
    }

    /** The first section an exception leaves fails; those around it are closed. */
    method SectionEndedEarly(ghost r: Outcome, ghost i: nat, ghost t: Tracker, ghost v: Tree, ghost w: Tree)
      requires Active(r, i, t, v, w)
      requires r.thrown && (0 < unfinishedSections <==> r.unwinding) && v.state == ExecutingChildren
      modifies `activeSections, `unfinishedSections, ctx`currentTracker, ctx`cycleCompleted, ctx.all
      ensures activeSections == old(activeSections)[..|old(activeSections)| - 1]
      ensures unfinishedSections == old(unfinishedSections) + 1
      ensures ctx.currentTracker == t && ctx.cycleCompleted
      ensures Models(ctx.Heap(), t, Tree(v.at, v.kind,
                if r.unwinding then ExecutingChildren else NeedsAnotherRun, v.kids[i := LeaveSection(w, r)]))
      ensures SameOutside(old(ctx.Heap()), ctx.Heap(), t)
    {
      hide Models, Under, SameOutside, OpenChain, CloseSection, CurrentAt;
      if unfinishedSections == 0 {
        ghost var h := ctx.Heap();
        ChildUnder(h, t, v, i);
        ChildModelled(h, t, v, i);
        Modelled(h, t, v);
        ModelsMarked(h, t, v, i, Failed, NeedsAnotherRun);
        activeSections[|activeSections| - 1].Fail(ctx);
        activeSections := activeSections[..|activeSections| - 1];
      } else {
        SectionEnded(r, i, t, v, w);
      }
      unfinishedSections := unfinishedSections + 1;
    }

    // ----- User code -----

    /** What running a body in the scope of t leaves behind. */
    ghost predicate Left(t: Tracker, v: Tree, r: Outcome)
      reads this, ctx, ctx.all
    {
      Models(ctx.Heap(), t, v.(state := r.state, kids := r.kids)) &&
      CurrentAt(ctx.Heap(), t, r.depth, ctx.currentTracker) &&
      ctx.cycleCompleted == r.done && step == r.step && (0 < unfinishedSections <==> r.unwinding)
    }

    method RunBody(b: Body, ghost t: Tracker, ghost v: Tree) returns (thrown: bool)
      requires InScope(t, v) && v.state == Executing && Fits(b, v.kids) && WellFormed(b, t.at)
      requires !ctx.cycleCompleted && unfinishedSections == 0
      modifies this, ctx`currentTracker, ctx`cycleCompleted, ctx`all, ctx.all
      ensures var r := TrackerModel.RunBody(b, v.kids, old(step), throws);
              thrown == r.thrown && Left(t, v, r) && path == old(path) + r.trace
      ensures activeSections == old(activeSections)
      ensures fresh(ctx.all - old(ctx.all)) && old(ctx.all) <= ctx.all
      ensures SameOutside(old(ctx.Heap()), ctx.Heap(), t)
      decreases b, 0
    {
      hide TrackerModel.RunBody, TrackerModel.RunSections, Models, Under, AllUntouched, FitsList, OpenChain, Linked, SameOutside;
      BodyIs(b, v.kids, step, throws);
      SameOutsideItself(ctx.Heap(), t);
      thrown := Tick();
      if thrown {
        assert v.(state := Executing, kids := v.kids) == v;
        return;
      }
      match b
      case Generate(at, size, rest) =>
        thrown := RunGenerate(at, size, rest, t, v);
      case Sections(list) =>
        assert v.kids[0..] == v.kids;
        ghost var q := TrackerModel.RunSections(list, Executing, v.kids, false, step, throws);
        assert q.(kids := v.kids[..0] + q.kids) == q;
        thrown := RunSections(list, 0, t, v);
    }

    method RunGenerate(at: NameAndLocation, size: Count, rest: Body, ghost t: Tracker, ghost v: Tree)
      returns (thrown: bool)
      requires InScope(t, v) && Fits(Generate(at, size, rest), v.kids)
      requires t.at != at && WellFormed(rest, at)
      requires !ctx.cycleCompleted && unfinishedSections == 0
      modifies this, ctx`currentTracker, ctx`cycleCompleted, ctx`all, ctx.all
      ensures var g := FirstOr(v.kids, Fresh(at, GeneratorKind(size, 0)));
              var r := TrackerModel.RunBody(rest, g.kids, old(step), throws);
              var o := Outcome(ExecutingChildren, [g.(state := r.state, kids := r.kids)], r.done, r.thrown,
                               r.unwinding, r.depth + 1, r.step, [Drew(at, g.kind.position)] + r.trace);
              thrown == o.thrown && Left(t, v, o) && path == old(path) + o.trace
      ensures activeSections == old(activeSections)
      ensures fresh(ctx.all - old(ctx.all)) && old(ctx.all) <= ctx.all
      ensures SameOutside(old(ctx.Heap()), ctx.Heap(), t)
      decreases rest, 2
    {
      hide TrackerModel.RunBody, TrackerModel.RunSections, Models, Under, SameOutside, OpenChain, CurrentAt, WellFormed;
      FirstGeneratorFits(at, size, rest, v.kids);
      ghost var h0, g0 := ctx.Heap(), FirstOr(v.kids, Fresh(at, GeneratorKind(size, 0)));
      var g := EnterGenerator(at, size, rest, t, v);
      ghost var h1, w := ctx.Heap(), g0.(state := Executing);
      ghost var v1 := v.(state := ExecutingChildren, kids := [w]);
      Modelled(h1, g, w);
      thrown := RunBelow(rest, g, t, v1);
      SameOutsideTransitive(h0, h1, ctx.Heap(), t);
    }

    lemma FirstGeneratorFits(at: NameAndLocation, size: Count, rest: Body, kids: seq<Tree>)
      requires Fits(Generate(at, size, rest), kids)
      ensures var g := FirstOr(kids, Fresh(at, GeneratorKind(size, 0)));
              Fits(rest, g.kids) && g.at == at && g.kind.GeneratorKind?
    {
    }

    /** The code after a generator, in the generator's scope. */
    method RunBelow(rest: Body, g: Tracker, ghost t: Tracker, ghost v: Tree) returns (thrown: bool)
      requires |v.kids| == 1 && InScope(g, v.kids[0]) && v.kids[0].state == Executing && Fits(rest, v.kids[0].kids)
      requires WellFormed(rest, g.at) && t in ctx.all && t.children == [g] && Models(ctx.Heap(), t, v)
      requires v.kids[0].kind.GeneratorKind? && g.position == v.kids[0].kind.position && v.state == ExecutingChildren
      requires !ctx.cycleCompleted && unfinishedSections == 0
      modifies this, ctx`currentTracker, ctx`cycleCompleted, ctx`all, ctx.all
      ensures var w := v.kids[0];
              var r := TrackerModel.RunBody(rest, w.kids, old(step), throws);
              var o := Outcome(ExecutingChildren, [w.(state := r.state, kids := r.kids)], r.done, r.thrown,
                               r.unwinding, r.depth + 1, r.step, [Drew(w.at, w.kind.position)] + r.trace);
              thrown == o.thrown && Left(t, v, o) && path == old(path) + o.trace
      ensures activeSections == old(activeSections)
      ensures fresh(ctx.all - old(ctx.all)) && old(ctx.all) <= ctx.all
      ensures SameOutside(old(ctx.Heap()), ctx.Heap(), t)
      decreases rest, 1
    {
      hide TrackerModel.RunBody, TrackerModel.RunSections, Models, Under, SameOutside, OpenChain, Fits, WellFormed, Linked;
      ghost var h, w := ctx.Heap(), v.kids[0];
      ChildModelled(h, t, v, 0);
      Modelled(h, g, w);
      assert h[t].children[0] == g && t.children[0] == g;
      path := path + [Drew(g.at, g.position)];
      thrown := RunBody(rest, g, w);
      ghost var r := TrackerModel.RunBody(rest, w.kids, old(step), throws);
      ghost var w' := w.(state := r.state, kids := r.kids);
      assert v.kids[0 := w'] == [w'];
      ModelsWithin(h, ctx.Heap(), t, v, 0, w');
    }

    /** The body of a section that is open. */
    method EnterSection(
      at: NameAndLocation, body: Body, s: Tracker, ghost i: nat, ghost t: Tracker, ghost v: Tree)
      returns (thrown: bool)
      requires t in ctx.all && i < |v.kids| && i < |t.children| && s == t.children[i] && s.at == at
      requires v.state == ExecutingChildren && InScope(s, v.kids[i]) && Models(ctx.Heap(), t, v)
      requires v.kids[i].state == Executing && Fits(body, v.kids[i].kids) && WellFormed(body, at)
      requires !ctx.cycleCompleted && unfinishedSections == 0
      modifies this, ctx`currentTracker, ctx`cycleCompleted, ctx`all, ctx.all
      ensures var r := TrackerModel.RunBody(body, v.kids[i].kids, old(step), throws);
              thrown == r.thrown && Left(s, v.kids[i], r) && path == old(path) + [Entered(at)] + r.trace &&
              Models(ctx.Heap(), t, v.(kids := v.kids[i := v.kids[i].(state := r.state, kids := r.kids)])) &&
              t.children == old(t.children)
      ensures activeSections == old(activeSections) + [s]
      ensures fresh(ctx.all - old(ctx.all)) && old(ctx.all) <= ctx.all
      ensures SameOutside(old(ctx.Heap()), ctx.Heap(), t)
      decreases body, 1
    {
      hide TrackerModel.RunBody, TrackerModel.RunSections;
      ghost var h1, w1 := ctx.Heap(), v.kids[i];
      activeSections := activeSections + [s];
      path := path + [Entered(at)];
      thrown := RunBody(body, s, w1);
      ghost var h2, r := ctx.Heap(), TrackerModel.RunBody(body, w1.kids, old(step), throws);
      ModelsWithin(h1, h2, t, v, i, w1.(state := r.state, kids := r.kids));
    }

    /** The end of a section, normal or not. */
    method EndSection(thrown: bool, ghost r: Outcome, ghost i: nat, ghost t: Tracker, ghost v: Tree, ghost w: Tree)
      requires Active(r, i, t, v, w)
      requires thrown == r.thrown && (0 < unfinishedSections <==> r.unwinding) && v.state == ExecutingChildren
      requires r.unwinding ==> r.thrown
      modifies `activeSections, `unfinishedSections, ctx`currentTracker, ctx`cycleCompleted, ctx.all
      ensures activeSections == old(activeSections)[..|old(activeSections)| - 1]
      ensures (0 < unfinishedSections <==> r.thrown) && ctx.currentTracker == t && ctx.cycleCompleted
      ensures Models(ctx.Heap(), t, Tree(v.at, v.kind, StateAfter(r), v.kids[i := LeaveSection(w, r)]))
      ensures SameOutside(old(ctx.Heap()), ctx.Heap(), t)
    {
      if thrown {
        SectionEndedEarly(r, i, t, v, w);
      } else {
        SectionEnded(r, i, t, v, w);
      }
    }

    method RunSection(
      at: NameAndLocation, body: Body, s: Tracker, ghost i: nat, ghost t: Tracker, ghost v: Tree)
      returns (thrown: bool)
      requires t in ctx.all && i < |v.kids| && i < |t.children| && s == t.children[i] && !s.isGenerator && s.at == at
      requires v.state == ExecutingChildren && InScope(s, v.kids[i]) && Models(ctx.Heap(), t, v)
      requires v.kids[i].state == Executing && Fits(body, v.kids[i].kids) && WellFormed(body, at)
      requires !ctx.cycleCompleted && unfinishedSections == 0
      modifies this, ctx`currentTracker, ctx`cycleCompleted, ctx`all, ctx.all
      ensures var r := TrackerModel.RunBody(body, v.kids[i].kids, old(step), throws);
              thrown == r.thrown && step == r.step && path == old(path) + [Entered(at)] + r.trace &&
              (0 < unfinishedSections <==> r.thrown) && ctx.cycleCompleted && ctx.currentTracker == t &&
              Models(ctx.Heap(), t, Tree(v.at, v.kind, StateAfter(r),
                v.kids[i := LeaveSection(v.kids[i].(state := r.state, kids := r.kids), r)]))
      ensures activeSections == old(activeSections)
      ensures fresh(ctx.all - old(ctx.all)) && old(ctx.all) <= ctx.all
      ensures SameOutside(old(ctx.Heap()), ctx.Heap(), t)
      decreases body, 2
    {
      hide TrackerModel.RunBody, TrackerModel.RunSections, Models, Under, SameOutside, OpenChain, CurrentAt, Fits, WellFormed,
        Linked, LeaveSection;
      ghost var h1 := ctx.Heap();
      thrown := EnterSection(at, body, s, i, t, v);
      ghost var h2, r := ctx.Heap(), TrackerModel.RunBody(body, v.kids[i].kids, old(step), throws);
      ghost var w := v.kids[i].(state := r.state, kids := r.kids);
      EndSection(thrown, r, i, t, v.(kids := v.kids[i := w]), w);
      SameOutsideTransitive(h1, h2, ctx.Heap(), t);
      assert v.kids[i := w][i := LeaveSection(w, r)] == v.kids[i := LeaveSection(w, r)];
    }

    method RunSections(list: SectionList, ghost i: nat, ghost t: Tracker, ghost v: Tree) returns (thrown: bool)
      requires InScope(t, v) && i <= |v.kids| && Closable(v.state) && WellFormedList(list)
      requires if ctx.cycleCompleted then AllUntouched(list, v.kids[i..]) else FitsList(list, v.kids[i..])
      requires forall j :: 0 <= j < i ==> !Lists(list, v.kids[j].at)
      requires unfinishedSections == 0
      modifies this, ctx`currentTracker, ctx`cycleCompleted, ctx`all, ctx.all
      ensures var r := TrackerModel.RunSections(list, v.state, v.kids[i..], old(ctx.cycleCompleted), old(step), throws);
              thrown == r.thrown && Left(t, v, r.(kids := v.kids[..i] + r.kids)) && path == old(path) + r.trace
      ensures activeSections == old(activeSections)
      ensures fresh(ctx.all - old(ctx.all)) && old(ctx.all) <= ctx.all
      ensures SameOutside(old(ctx.Heap()), ctx.Heap(), t)
      decreases list, 2
    {
      match list
      case NoSections =>
        assert v.kids[..i] + v.kids[i..] == v.kids;
        thrown := false;
      case Section(at, body, tail) =>
        thrown := RunListed(at, body, tail, i, t, v);
    }

    /** The code after a section. */
    method RunAfter(list: SectionList, ghost i: nat, ghost t: Tracker, ghost v: Tree) returns (thrown: bool)
      requires InScope(t, v) && i <= |v.kids| && Closable(v.state) && WellFormedList(list)
      requires if ctx.cycleCompleted then AllUntouched(list, v.kids[i..]) else FitsList(list, v.kids[i..])
      requires forall j :: 0 <= j < i ==> !Lists(list, v.kids[j].at)
      requires unfinishedSections == 0
      modifies this, ctx`currentTracker, ctx`cycleCompleted, ctx`all, ctx.all
      ensures var r := GoOn(list, v.state, v.kids[i..], old(ctx.cycleCompleted), old(step), throws);
              thrown == r.thrown && Left(t, v, r.(kids := v.kids[..i] + r.kids)) && path == old(path) + r.trace
      ensures activeSections == old(activeSections)
      ensures fresh(ctx.all - old(ctx.all)) && old(ctx.all) <= ctx.all
      ensures SameOutside(old(ctx.Heap()), ctx.Heap(), t)
      decreases list, 3
    {
      hide TrackerModel.RunSections, Models, Under, Linked, WellFormedList, FitsList, AllUntouched, Lists;
      thrown := Tick();
      if thrown {
        assert v.kids[..i] + v.kids[i..] == v.kids;
      } else {
        thrown := RunSections(list, i, t, v);
      }
    }

    method RunListed(
      at: NameAndLocation, body: Body, tail: SectionList, ghost i: nat, ghost t: Tracker, ghost v: Tree)
      returns (thrown: bool)
      requires InScope(t, v) && i <= |v.kids| && Closable(v.state) && WellFormedList(Section(at, body, tail))
      requires var list := Section(at, body, tail);
               if ctx.cycleCompleted then AllUntouched(list, v.kids[i..]) else FitsList(list, v.kids[i..])
      requires forall j :: 0 <= j < i ==> !Lists(Section(at, body, tail), v.kids[j].at)
      requires unfinishedSections == 0
      modifies this, ctx`currentTracker, ctx`cycleCompleted, ctx`all, ctx.all
      ensures var list := Section(at, body, tail);
              var r := TrackerModel.RunSections(list, v.state, v.kids[i..], old(ctx.cycleCompleted), old(step), throws);
              thrown == r.thrown && Left(t, v, r.(kids := v.kids[..i] + r.kids)) && path == old(path) + r.trace
      ensures activeSections == old(activeSections)
      ensures fresh(ctx.all - old(ctx.all)) && old(ctx.all) <= ctx.all
      ensures SameOutside(old(ctx.Heap()), ctx.Heap(), t)
      decreases Section(at, body, tail), 1
    {
      hide TrackerModel.RunBody, TrackerModel.RunSections, Models, Under, SameOutside, Linked, Fits, FitsList, AllUntouched,
        WellFormed, WellFormedList, Lists, CurrentAt, Left;
      ghost var list, h0, kids := Section(at, body, tail), ctx.Heap(), v.kids[i..];
      ghost var first := FirstOr(kids, Fresh(at, SectionKind));
      var s := AcquireListed(at, list, i, t, v);
      ghost var h1 := ctx.Heap();
      if s.IsOpen() {
        FirstFits(list, kids);
        ghost var v1 := WithFirst(v, i, first.(state := Executing)).(state := ExecutingChildren);
        thrown := RunOpened(at, body, tail, s, i, t, v, v1);
      } else {
        thrown := SkipListed(at, body, tail, i, t, v, WithFirst(v, i, first));
      }
      SameOutsideTransitive(h0, h1, ctx.Heap(), t);
    }

    /** The scope with another tree in place of the i-th, or behind the others. */
    ghost function WithFirst(v: Tree, i: nat, w: Tree): Tree
      requires i <= |v.kids|
    {
      v.(kids := v.kids[..i] + [w] + Rest(v.kids[i..]))
    }

    /** Acquires the tracker of the first section of the list: it is open unless it, or the cycle, is complete. */
    method AcquireListed(at: NameAndLocation, ghost list: SectionList, ghost i: nat, ghost t: Tracker, ghost v: Tree)
      returns (s: Tracker)
      requires InScope(t, v) && i <= |v.kids| && list.Section? && at == list.at
      requires if ctx.cycleCompleted then AllUntouched(list, v.kids[i..]) else FitsList(list, v.kids[i..])
      requires forall j :: 0 <= j < i ==> !Lists(list, v.kids[j].at)
      modifies ctx`currentTracker, ctx`all, ctx.all
      ensures fresh(ctx.all - old(ctx.all)) && old(ctx.all) <= ctx.all
      ensures var first := FirstOr(v.kids[i..], Fresh(at, SectionKind));
              var w := first.(state := Executing);
              i < |t.children| && s == t.children[i] && !s.isGenerator && s.at == at && first.at == at && t in ctx.all &&
              (s.IsOpen() <==> !ctx.cycleCompleted && !IsComplete(first.state)) &&
              if s.IsOpen()
              then InScope(s, w) && Models(ctx.Heap(), t, WithFirst(v, i, w).(state := ExecutingChildren)) &&
                   WithFirst(v, i, w).kids[i] == w
              else InScope(t, WithFirst(v, i, first))
      ensures Linked(t) && (t.parent == null || (t.parent in ctx.all && t.parent.runState == ExecutingChildren))
      ensures SameOutside(old(ctx.Heap()), ctx.Heap(), t)
    {
      hide Models, Under, SameOutside, Linked, Fits, FitsList, AllUntouched, Lists, WithKid;
      ghost var h0 := ctx.Heap();
      ghost var first := FirstOr(v.kids[i..], Fresh(at, SectionKind));
      NoneListed(list, v.kids, i);
      FirstListed(list, v.kids[i..], ctx.cycleCompleted);
      KidPlaced(v.kids, i, at);
      s := AcquireSection(at, i, t, v);
      if t.parent != null { ParentKept(h0, ctx.Heap(), t); }
      if !ctx.cycleCompleted && !IsComplete(first.state) { Modelled(ctx.Heap(), s, first.(state := Executing)); }
    }

    /** A section just opened, and what follows it; v is the scope before, v1 with the section open. */
    method RunOpened(
      at: NameAndLocation, body: Body, tail: SectionList, s: Tracker, ghost i: nat, ghost t: Tracker,
      ghost v: Tree, ghost v1: Tree)
      returns (thrown: bool)
      requires t in ctx.all && i <= |v.kids| && i < |t.children| && s == t.children[i] && !s.isGenerator
      requires Linked(t) && (t.parent == null || (t.parent in ctx.all && t.parent.runState == ExecutingChildren))
      requires Closable(v.state) && WellFormedList(Section(at, body, tail)) && s.at == at
      requires FitsList(Section(at, body, tail), v.kids[i..])
      requires var first := FirstOr(v.kids[i..], Fresh(at, SectionKind));
               !IsComplete(first.state) && Fits(body, first.kids) && AllUntouched(tail, Rest(v.kids[i..])) &&
               v1 == v.(state := ExecutingChildren,
                        kids := v.kids[..i] + [first.(state := Executing)] + Rest(v.kids[i..]))
      requires InScope(s, v1.kids[i]) && Models(ctx.Heap(), t, v1)
      requires forall j :: 0 <= j < i ==> !Lists(Section(at, body, tail), v.kids[j].at)
      requires !ctx.cycleCompleted && unfinishedSections == 0
      modifies this, ctx`currentTracker, ctx`cycleCompleted, ctx`all, ctx.all
      ensures var list := Section(at, body, tail);
              var r := TrackerModel.RunSections(list, v.state, v.kids[i..], false, old(step), throws);
              thrown == r.thrown && Left(t, v, r.(kids := v.kids[..i] + r.kids)) && path == old(path) + r.trace
      ensures activeSections == old(activeSections)
      ensures fresh(ctx.all - old(ctx.all)) && old(ctx.all) <= ctx.all
      ensures SameOutside(old(ctx.Heap()), ctx.Heap(), t)
      decreases Section(at, body, tail), 0
    {
      hide TrackerModel.RunBody, TrackerModel.RunSections, Models, Under, SameOutside, AllUntouched, Fits, WellFormed,
        LeaveSection;
      ghost var list, h1 := Section(at, body, tail), ctx.Heap();
      ghost var first := FirstOr(v.kids[i..], Fresh(at, SectionKind));
      ghost var r := TrackerModel.RunBody(body, first.kids, step, throws);
      ghost var s' := LeaveSection(first.(state := r.state, kids := r.kids), r);
      EnteredSummary(list, v.state, v.kids, i, step, throws, path);
      Placed(v.kids, i, first.(state := Executing), s', Rest(v.kids[i..]));
      LeftAt(first.(state := r.state, kids := r.kids), r);
      thrown := RunSection(at, body, s, i, t, v1);
      if !thrown {
        ghost var h2, v2 := ctx.Heap(), v.(state := ExecutingChildren, kids := v1.kids[i := s']);
        Placed(v.kids, i, s', s', Rest(v.kids[i..]));
        if t.parent != null { ParentKept(h1, h2, t); }
        thrown := RunAfter(tail, i + 1, t, v2);
        SameOutsideTransitive(h1, h2, ctx.Heap(), t);
      }
    }

    /** A section that is skipped, and what follows it. */
    method SkipListed(
      at: NameAndLocation, body: Body, tail: SectionList, ghost i: nat, ghost t: Tracker, ghost v: Tree, ghost v1: Tree)
      returns (thrown: bool)
      requires i <= |v.kids| && Closable(v.state) && WellFormedList(Section(at, body, tail))
      requires var list := Section(at, body, tail);
               if ctx.cycleCompleted then AllUntouched(list, v.kids[i..]) else FitsList(list, v.kids[i..])
      requires var first := FirstOr(v.kids[i..], Fresh(at, SectionKind));
               (ctx.cycleCompleted || IsComplete(first.state)) && first.at == at &&
               v1 == v.(kids := v.kids[..i] + [first] + Rest(v.kids[i..]))
      requires InScope(t, v1)
      requires forall j :: 0 <= j < i ==> !Lists(Section(at, body, tail), v.kids[j].at)
      requires unfinishedSections == 0
      modifies this, ctx`currentTracker, ctx`cycleCompleted, ctx`all, ctx.all
      ensures var list := Section(at, body, tail);
              var r := TrackerModel.RunSections(list, v.state, v.kids[i..], old(ctx.cycleCompleted), old(step), throws);
              thrown == r.thrown && Left(t, v, r.(kids := v.kids[..i] + r.kids)) && path == old(path) + r.trace
      ensures activeSections == old(activeSections)
      ensures fresh(ctx.all - old(ctx.all)) && old(ctx.all) <= ctx.all
      ensures SameOutside(old(ctx.Heap()), ctx.Heap(), t)
      decreases Section(at, body, tail), 0
    {
      hide TrackerModel.RunBody, TrackerModel.RunSections;
      ghost var kids, done := v.kids[i..], ctx.cycleCompleted;
      ghost var first := FirstOr(kids, Fresh(at, SectionKind));
      SkipThenGoOn(Section(at, body, tail), v.state, kids, done, step, throws);
      Placed(v.kids, i, first, first, Rest(kids));
      ghost var q := GoOn(tail, v.state, Rest(kids), done, step, throws);
      Appended(v.kids[..i], [first], q.kids, []);
      thrown := RunAfter(tail, i + 1, t, v1);
    }

    // ----- The test case -----

    /** Enters the test case once: test is its tracker's tree, or what it will be when first registered. */
    method RunOnce(b: Body, at: NameAndLocation, ghost root: Tree, ghost test: Tree) returns (tracker: Tracker)
      requires ctx.rootTracker in ctx.all && ctx.rootTracker.parent == null && Models(ctx.Heap(), ctx.rootTracker, root)
      requires root.kids == [] || root.kids == [test]
      requires test.at == at && test.kind == SectionKind && !IsComplete(test.state)
      requires root.kids == [] ==> test == Fresh(at, SectionKind)
      requires Fits(b, test.kids) && WellFormed(b, at) && unfinishedSections == 0
      modifies this, ctx, ctx.all
      ensures var (test', r) := OneCycle(b, test, old(step), throws);
              Models(ctx.Heap(), ctx.rootTracker, root.(state := ExecutingChildren, kids := [test'])) &&
              tracker.runState == test'.state && path == r.trace && step == r.step
      ensures unfinishedSections == 0 && activeSections == old(activeSections)
      ensures fresh(ctx.all - old(ctx.all)) && old(ctx.all) <= ctx.all
    {
      hide TrackerModel.RunBody, TrackerModel.RunSections, Models, OneCycle, CloseScope;
      path := [];
      tracker := EnterTestCase(at, root, test);
      OneCycleIs(b, test, step, throws);
      RunCurrentTest(b, tracker, ctx.rootTracker, root.(state := ExecutingChildren, kids := [test.(state := Executing)]));
    }

    method EnterTestCase(at: NameAndLocation, ghost root: Tree, ghost test: Tree) returns (tracker: Tracker)
      requires ctx.rootTracker in ctx.all && ctx.rootTracker.parent == null && Models(ctx.Heap(), ctx.rootTracker, root)
      requires root.kids == [] || root.kids == [test]
      requires test.at == at && test.kind == SectionKind && !IsComplete(test.state)
      requires root.kids == [] ==> test == Fresh(at, SectionKind)
      modifies ctx, ctx.all
      ensures var v := root.(state := ExecutingChildren, kids := [test.(state := Executing)]);
              InScope(tracker, v.kids[0]) && !tracker.isGenerator && tracker.at == at &&
              ctx.rootTracker.children == [tracker] && Models(ctx.Heap(), ctx.rootTracker, v) && !ctx.cycleCompleted
      ensures fresh(ctx.all - old(ctx.all)) && old(ctx.all) <= ctx.all
    {
      ctx.StartCycle();
      assert WithKid(root.kids, 0, at, false, 1) == [test];
      tracker := AcquireSection(at, 0, ctx.rootTracker, root);
      OnlyKid(test, test.(state := Executing));
    }

    method RunCurrentTest(b: Body, tracker: Tracker, ghost t: Tracker, ghost v: Tree)
      requires |v.kids| == 1 && InScope(tracker, v.kids[0]) && !tracker.isGenerator
      requires v.kids[0].state == Executing && v.state == ExecutingChildren
      requires t in ctx.all && t.children == [tracker] && Models(ctx.Heap(), t, v)
      requires Fits(b, v.kids[0].kids) && WellFormed(b, tracker.at) && v.kids[0].kind == SectionKind
      requires !ctx.cycleCompleted && unfinishedSections == 0
      modifies this, ctx`currentTracker, ctx`cycleCompleted, ctx`all, ctx.all
      ensures var w := v.kids[0];
              var r := TrackerModel.RunBody(b, w.kids, old(step), throws);
              var w' := CloseScope(w.at, SectionKind, r);
              Models(ctx.Heap(), t, v.(kids := [w'])) && tracker.runState == w'.state &&
              path == old(path) + r.trace && step == r.step
      ensures unfinishedSections == 0 && activeSections == old(activeSections)
      ensures fresh(ctx.all - old(ctx.all)) && old(ctx.all) <= ctx.all
    {
      hide TrackerModel.RunBody, TrackerModel.RunSections, CloseSection, OpenChain, WellFormed, Fits, Models, Under, Linked,
        SameOutside, CurrentAt;
      ghost var h1, w := ctx.Heap(), v.kids[0];
      ChildModelled(h1, t, v, 0);
      assert h1[t].children[0] == tracker;
      var thrown := RunBody(b, tracker, w);
      ghost var h2, r := ctx.Heap(), TrackerModel.RunBody(b, w.kids, old(step), throws);
      ghost var w1 := w.(state := r.state, kids := r.kids);
      ModelsWithin(h1, h2, t, v, 0, w1);
      assert v.kids[0 := w1] == [w1];
      tracker.Close(ctx, r.depth, w1);
      ModelsWithin(h2, ctx.Heap(), t, v.(kids := [w1]), 0, CloseSection(r.depth, w1));
      OnlyKid(w1, CloseSection(r.depth, w1));
      Modelled(ctx.Heap(), tracker, CloseSection(r.depth, w1));
      unfinishedSections := 0;
    }

    /** Enters the test case again and again, until it has completed or the run is aborted. */
    method RunCycles(b: Body, at: NameAndLocation, aborting: nat -> bool, ghost rootAt: NameAndLocation)
      returns (paths: seq<Path>)
      requires ctx.rootTracker in ctx.all && ctx.rootTracker.parent == null
      requires Models(ctx.Heap(), ctx.rootTracker, Fresh(rootAt, SectionKind))
      requires WellFormed(b, at) && unfinishedSections == 0 && Fits(b, [])
      modifies this, ctx, ctx.all
      ensures UntilAborted(paths, PathsOf(TestRun(b, Fresh(at, SectionKind), old(step), throws)), aborting)
    {
      hide TrackerModel.RunBody, TrackerModel.RunSections, Models, Fits, Work, OneCycle, TestRun, PathsOf, WellFormed;
      ghost var all := PathsOf(TestRun(b, Fresh(at, SectionKind), step, throws));
      ghost var root, test := Fresh(rootAt, SectionKind), Fresh(at, SectionKind);
      paths := [];
      assert [] + all == all;
      var finished, n: nat := false, 0;
      while !finished
        invariant ctx.rootTracker in ctx.all && unfinishedSections == 0
        invariant fresh(ctx.all - old(ctx.all)) && old(ctx.all) <= ctx.all
        invariant Models(ctx.Heap(), ctx.rootTracker, root) && (root.kids == [] || root.kids == [test])
        invariant root.kids == [] ==> test == Fresh(at, SectionKind)
        invariant test.at == at && test.kind == SectionKind && n == |paths|
        invariant finished ==> UntilAborted(paths, all, aborting)
        invariant !finished ==> forall i :: 0 <= i < n ==> !aborting(i)
        invariant !finished ==> !IsComplete(test.state) && Fits(b, test.kids)
        invariant !finished ==> all == paths + PathsOf(TestRun(b, test, step, throws))
        decreases if finished then 0 else 1 + Work(b, test.kids)
      {
        ghost var (test', r) := OneCycle(b, test, step, throws);
        TestRunStep(b, test, step, throws);
        var tracker := RunOnce(b, at, root, test);
        root, test := root.(state := ExecutingChildren, kids := [test']), test';
        paths := paths + [path];
        finished := tracker.runState == CompletedSuccessfully || aborting(n);
        n := n + 1;
      }
    }

    /** Runs a test case that has not been run before. */
    method RunTest(b: Body, at: NameAndLocation, aborting: nat -> bool) returns (paths: seq<Path>)
      requires ctx.rootTracker in ctx.all && ctx.rootTracker.parent == null
      requires exists root: NameAndLocation :: Models(ctx.Heap(), ctx.rootTracker, Fresh(root, SectionKind))
      requires WellFormed(b, at) && unfinishedSections == 0
      modifies this, ctx, ctx.all
      ensures UntilAborted(paths, PathsOf(TestRun(b, Fresh(at, SectionKind), old(step), throws)), aborting)
      ensures NeverThrows(throws) ==> UntilAborted(paths, Paths(b), aborting)
      ensures NeverThrows(throws) && (forall n :: !aborting(n)) ==> paths == Paths(b)
    {
      hide Models, Fits, Work, OneCycle, TestRun, PathsOf, WellFormed, Paths, Lively, NeverThrows;
      FreshFits(b);
      ghost var rootAt :| Models(ctx.Heap(), ctx.rootTracker, Fresh(rootAt, SectionKind));
      if NeverThrows(throws) { FreshRunVisitsEveryPath(b, at, step, throws); }
      paths := RunCycles(b, at, aborting, rootAt);
    }
  }
}
