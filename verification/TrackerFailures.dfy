/** Which section fails when user code throws, and that it stays so. */
module TrackerFailures {
  import opened TestBody
  import opened TrackerModel
  import opened TrackerRuns

  // ----- Where an exception is thrown, by the flow of control alone -----

  /** A body ends before some point, or by an exception.  The innermost section around the exception is given by the
      numbers of the children on the way to it; there is none on the empty way. */
  datatype Exit = Ended(step: nat) | Thrown(section: seq<nat>) {
    function Section(): seq<nat> {
      if Thrown? then section else []
    }
  }

  /** The same exit, seen from the scope around child i. */
  function Outwards(i: nat, e: Exit): Exit {
    if e.Section() != [] then Thrown([i] + e.section) else e
  }

  /** The same exit, with one more child before the others. */
  function Onwards(e: Exit): Exit {
    if e.Section() != [] then Thrown([e.section[0] + 1] + e.section[1..]) else e
  }

  function BodyExit(b: Body, kids: seq<Tree>, step: nat, throws: Throws): Exit
    requires Fits(b, kids)
    decreases b
  {
    if throws(step) then Thrown([])
    else match b
      case Generate(at, size, rest) =>
        Outwards(0, BodyExit(rest, FirstOr(kids, Fresh(at, GeneratorKind(size, 0))).kids, step + 1, throws))
      case Sections(list) => ListExit(list, kids, false, step + 1, throws)
  }

  function ListExit(list: SectionList, kids: seq<Tree>, done: bool, step: nat, throws: Throws): Exit
    requires if done then AllUntouched(list, kids) else FitsList(list, kids)
    decreases list
  {
    match list
    case NoSections => Ended(step)
    case Section(at, body, tail) =>
      var s := FirstOr(kids, Fresh(at, SectionKind));
      if done || IsComplete(s.state) then
        if throws(step) then Thrown([]) else Onwards(ListExit(tail, Rest(kids), done, step + 1, throws))
      else
        var e := BodyExit(body, s.kids, step, throws);
        if e.Thrown? then Thrown([0] + e.section)
        else if throws(e.step) then Thrown([])
        else Onwards(ListExit(tail, Rest(kids), true, e.step + 1, throws))
  }

  // ----- Failed trackers -----

  /** The tracker at the end of the way has failed. */
  predicate FailedAt(kids: seq<Tree>, way: seq<nat>)
    decreases |way|
  {
    way != [] && way[0] < |kids| &&
    if |way| == 1 then kids[way[0]].state == Failed else FailedAt(kids[way[0]].kids, way[1..])
  }

  /** No tracker has failed but those that had, and the one at the end of the way. */
  ghost predicate OnlyFails(kids: seq<Tree>, kids': seq<Tree>, way: seq<nat>) {
    forall q :: FailedAt(kids', q) ==> FailedAt(kids, q) || q == way
  }

  predicate Answers(t: Tree, e: Event) {
    match e
    case Entered(at) => t.kind.SectionKind? && t.at == at
    case Drew(at, index) => t.kind.GeneratorKind? && t.at == at && t.kind.position == index
  }

  /** The section at the end of the way, which the path leads to, has failed, and nothing around it is complete. */
  predicate FailedInside(kids: seq<Tree>, way: seq<nat>, path: Path)
    decreases |way|
  {
    way != [] && |path| == |way| && way[0] < |kids| && Answers(kids[way[0]], path[0]) &&
    if |way| == 1 then kids[way[0]].state == Failed && path[0].Entered?
    else !IsComplete(kids[way[0]].state) && HasStarted(kids[way[0]]) && FailedInside(kids[way[0]].kids, way[1..], path[1..])
  }

  /** The same while the generators around the section are still open. */
  ghost predicate Pending(depth: nat, state: CycleState, kids: seq<Tree>, way: seq<nat>, path: Path)
    decreases |way|
  {
    way != [] && |path| == |way| && way[0] < |kids| && Answers(kids[way[0]], path[0]) &&
    if |way| == 1 then depth == 0 && state == NeedsAnotherRun && path[0].Entered? && kids[way[0]].state == Failed
    else
      state == ExecutingChildren &&
      if depth == 0 then FailedInside(kids, way, path)
      else way[0] == 0 && Pending(depth - 1, kids[0].state, kids[0].kids, way[1..], path[1..])
  }

  // ----- Closing -----

  /** Closing what is around the failed section leaves it there, and leaves everything around it to be entered again. */
  lemma {:induction false} ClosedAround(depth: nat, t: Tree, way: seq<nat>, path: Path)
    requires OpenChain(depth, t.kids) && Closable(t.state) && Pending(depth, t.state, t.kids, way, path)
    ensures var c := CloseSection(depth, t);
            c.state == t.state && FailedInside(c.kids, way, path) && (t.kind.GeneratorKind? ==> AdvanceGenerator(c) == c)
    decreases depth
  {
    if depth == 0 {
      assert t.(kids := t.kids) == t;
      assert HasStarted(t.kids[way[0]]);
    } else {
      var g := t.kids[0];
      ClosedAround(depth - 1, g, way[1..], path[1..]);
      ChainAround(depth, t, CloseSection(depth - 1, g), way, path);
    }
  }

  lemma ChainAround(depth: nat, t: Tree, g': Tree, way: seq<nat>, path: Path)
    requires depth > 0 && OpenChain(depth, t.kids) && Closable(t.state) && Pending(depth, t.state, t.kids, way, path)
    requires g' == CloseSection(depth - 1, t.kids[0]) && AdvanceGenerator(g') == g' && g'.state == t.kids[0].state
    requires FailedInside(g'.kids, way[1..], path[1..])
    ensures var c := CloseSection(depth, t);
            c.state == t.state && FailedInside(c.kids, way, path) && (t.kind.GeneratorKind? ==> AdvanceGenerator(c) == c)
  {
    hide FailedInside;
    assert CloseChain(depth, t.kids) == [g'];
    var c := CloseSection(depth, t);
    assert g'.at == t.kids[0].at && g'.kind == t.kids[0].kind && !IsComplete(g'.state) && HasStarted(g');
    InsideOnly(g', way, path);
    hide CloseChain, OpenChain, Pending, CloseSection;
    assert c == CloseBase(t.(kids := [g']));
    assert !AllComplete([g']) by { assert [g'][0] == g'; }
    assert HasStarted(c.kids[0]);
  }

  lemma InsideOnly(g: Tree, way: seq<nat>, path: Path)
    requires |way| > 1 && |path| == |way| && way[0] == 0 && Answers(g, path[0]) && !IsComplete(g.state) && HasStarted(g)
    requires FailedInside(g.kids, way[1..], path[1..])
    ensures FailedInside([g], way, path)
  {
  }

  lemma {:induction false} ClosingFailsNone(depth: nat, kids: seq<Tree>)
    requires OpenChain(depth, kids)
    ensures OnlyFails(kids, CloseChain(depth, kids), [])
    decreases depth
  {
    if depth == 0 {
      NothingFails(kids, []);
    } else {
      var g := kids[0];
      ClosingFailsNone(depth - 1, g.kids);
      ClosedGenerator(depth, kids);
      hide CloseChain, OpenChain;
      var below, c := CloseChain(depth - 1, g.kids), CloseChain(depth, kids)[0];
      forall q | FailedAt([c], q) ensures FailedAt(kids, q) {
        assert |q| > 1 && FailedAt(c.kids, q[1..]) && c.kids == below;
        assert FailedAt(g.kids, q[1..]);
      }
    }
  }

  lemma ClosedGenerator(depth: nat, kids: seq<Tree>)
    requires depth > 0 && OpenChain(depth, kids)
    ensures var c := CloseChain(depth, kids);
            |c| == 1 && |kids| == 1 && c == [c[0]] && c[0].state != Failed &&
            (c[0].kids == [] || c[0].kids == CloseChain(depth - 1, kids[0].kids))
  {
  }

  // ----- One pass -----

  /** What a pass leaves behind agrees with where it was left. */
  ghost predicate Agrees(kids: seq<Tree>, r: Outcome, e: Exit) {
    (r.thrown <==> e.Thrown?) && (e.Ended? ==> r.step == e.step) && (r.unwinding <==> e.Section() != []) &&
    OnlyFails(kids, r.kids, e.Section()) && !FailedAt(kids, e.Section()) && |e.Section()| <= |r.trace| &&
    (e.Section() != [] ==> Pending(r.depth, r.state, r.kids, e.section, r.trace[..|e.section|]))
  }

  lemma NothingFails(kids: seq<Tree>, way: seq<nat>)
    ensures OnlyFails(kids, kids, way)
  {
  }

  lemma {:induction false} BodyAgrees(b: Body, kids: seq<Tree>, step: nat, throws: Throws)
    requires Fits(b, kids)
    ensures Agrees(kids, RunBody(b, kids, step, throws), BodyExit(b, kids, step, throws))
    decreases b, 0
  {
    if throws(step) {
      NothingFails(kids, []);
    } else {
      match b
      case Generate(at, size, rest) =>
        BodyAgrees(rest, FirstOr(kids, Fresh(at, GeneratorKind(size, 0))).kids, step + 1, throws);
        GeneratorAgrees(b, kids, step, throws);
      case Sections(list) =>
        ListAgrees(list, kids, step + 1, throws);
    }
  }

  lemma GeneratorIs(b: Body, kids: seq<Tree>, step: nat, throws: Throws)
    requires b.Generate? && Fits(b, kids) && !throws(step)
    ensures var g := FirstOr(kids, Fresh(b.at, GeneratorKind(b.size, 0)));
            Fits(b.rest, g.kids) && g.at == b.at && g.kind.GeneratorKind? && !IsComplete(g.state) &&
            (kids == [] || kids == [g]) && (kids == [] ==> g.kids == []) &&
            var r, o := RunBody(b.rest, g.kids, step + 1, throws), RunBody(b, kids, step, throws);
            o == Outcome(ExecutingChildren, [g.(state := r.state, kids := r.kids)], r.done, r.thrown, r.unwinding,
                         r.depth + 1, r.step, [Drew(b.at, g.kind.position)] + r.trace) &&
            Closable(r.state) && BodyExit(b, kids, step, throws) == Outwards(0, BodyExit(b.rest, g.kids, step + 1, throws))
  {
  }

  lemma GeneratorAgrees(b: Body, kids: seq<Tree>, step: nat, throws: Throws)
    requires b.Generate? && Fits(b, kids) && !throws(step)
    requires var g := FirstOr(kids, Fresh(b.at, GeneratorKind(b.size, 0)));
             Fits(b.rest, g.kids) && Agrees(g.kids, RunBody(b.rest, g.kids, step + 1, throws), BodyExit(b.rest, g.kids, step + 1, throws))
    ensures Agrees(kids, RunBody(b, kids, step, throws), BodyExit(b, kids, step, throws))
  {
    hide RunBody, BodyExit, Fits, OpenChain, OnlyFails, FailedAt, Pending;
    GeneratorIs(b, kids, step, throws);
    var g := FirstOr(kids, Fresh(b.at, GeneratorKind(b.size, 0)));
    var r, e := RunBody(b.rest, g.kids, step + 1, throws), BodyExit(b.rest, g.kids, step + 1, throws);
    OnlyKidFails(kids, g, g.(state := r.state, kids := r.kids), e.Section());
    if e.Section() != [] {
      PendingBelow(r.depth, g.(state := r.state, kids := r.kids), e.section, Drew(b.at, g.kind.position), r.trace);
    }
  }

  lemma OnlyKidFails(kids: seq<Tree>, g: Tree, g': Tree, way: seq<nat>)
    requires (kids == [] && g.kids == []) || kids == [g]
    requires g.state != Failed && g'.state != Failed && OnlyFails(g.kids, g'.kids, way) && !FailedAt(g.kids, way)
    ensures var w := if way == [] then [] else [0] + way; OnlyFails(kids, [g'], w) && !FailedAt(kids, w)
  {
    var w := if way == [] then [] else [0] + way;
    forall q | FailedAt([g'], q) ensures FailedAt(kids, q) || q == w {
      assert q == [0] + q[1..] && FailedAt(g'.kids, q[1..]);
    }
    if way != [] { assert w[1..] == way; }
  }

  lemma PendingBelow(depth: nat, g: Tree, way: seq<nat>, e: Event, trace: Path)
    requires way != [] && |way| <= |trace| && Pending(depth, g.state, g.kids, way, trace[..|way|]) && Answers(g, e)
    ensures Pending(depth + 1, ExecutingChildren, [g], [0] + way, ([e] + trace)[..|way| + 1])
  {
    var w, path := [0] + way, ([e] + trace)[..|way| + 1];
    assert w[1..] == way && path == [e] + trace[..|way|] && path[1..] == trace[..|way|];
  }

  // ----- The sections of a scope -----

  /** Once the cycle is complete sections are only registered. */
  lemma {:induction false} DoneAgrees(list: SectionList, state: CycleState, kids: seq<Tree>, step: nat, throws: Throws)
    requires AllUntouched(list, kids) && Closable(state)
    ensures var r, e := RunSections(list, state, kids, true, step, throws), ListExit(list, kids, true, step, throws);
            e.Section() == [] && Agrees(kids, r, e) && r.trace == [] && !r.unwinding && OnlyFails(kids, r.kids, [])
    decreases list
  {
    if list.Section? {
      var s := FirstOr(kids, Fresh(list.at, SectionKind));
      DoneStep(list, state, kids, step, throws);
      if !throws(step) {
        DoneAgrees(list.tail, state, Rest(kids), step + 1, throws);
        hide RunSections, ListExit, AllUntouched, FailedAt, Pending;
        ConsFails(kids, s, s, RunSections(list.tail, state, Rest(kids), true, step + 1, throws).kids, []);
      } else {
        hide RunSections, ListExit, AllUntouched, FailedAt, Pending;
        NothingFails(Rest(kids), []);
        ConsFails(kids, s, s, Rest(kids), []);
      }
    } else {
      NothingFails(kids, []);
    }
  }

  lemma DoneStep(list: SectionList, state: CycleState, kids: seq<Tree>, step: nat, throws: Throws)
    requires list.Section? && AllUntouched(list, kids) && Closable(state)
    ensures var s := FirstOr(kids, Fresh(list.at, SectionKind));
            AllUntouched(list.tail, Rest(kids)) && s.state != Failed && s.kids == [] &&
            var r, e := RunSections(list, state, kids, true, step, throws), ListExit(list, kids, true, step, throws);
            if throws(step) then
              r == Outcome(state, [s] + Rest(kids), true, true, false, 0, step + 1, []) && e == Thrown([])
            else
              var q := RunSections(list.tail, state, Rest(kids), true, step + 1, throws);
              r == q.(kids := [s] + q.kids) && e == Onwards(ListExit(list.tail, Rest(kids), true, step + 1, throws))
  {
  }

  /** The first tree and the others, taken together. */
  lemma ConsFails(kids: seq<Tree>, s: Tree, s': Tree, rest': seq<Tree>, way: seq<nat>)
    requires kids == [] ==> s.state != Failed && s.kids == []
    requires kids != [] ==> s == kids[0]
    requires way == [] || way[0] > 0 ==> s' == s
    requires way != [] && way[0] == 0 ==>
      (s'.state == Failed ==> s.state == Failed || |way| == 1) && OnlyFails(s.kids, s'.kids, way[1..])
    requires OnlyFails(Rest(kids), rest', if way == [] || way[0] == 0 then [] else [way[0] - 1] + way[1..])
    ensures OnlyFails(kids, [s'] + rest', way)
  {
    var all := [s'] + rest';
    forall q | FailedAt(all, q) ensures FailedAt(kids, q) || q == way {
      if q[0] == 0 {
        FirstFails(kids, s, s', q, way);
      } else {
        var q' := [q[0] - 1] + q[1..];
        assert all[q[0]] == rest'[q'[0]] && q'[1..] == q[1..];
        assert FailedAt(rest', q');
        if FailedAt(Rest(kids), q') {
          assert kids[q[0]] == Rest(kids)[q'[0]];
        } else {
          assert way == [q'[0] + 1] + q'[1..] == q;
        }
      }
    }
  }

  lemma FirstFails(kids: seq<Tree>, s: Tree, s': Tree, q: seq<nat>, way: seq<nat>)
    requires kids == [] ==> s.state != Failed && s.kids == []
    requires kids != [] ==> s == kids[0]
    requires way == [] || way[0] > 0 ==> s' == s
    requires way != [] && way[0] == 0 ==>
      (s'.state == Failed ==> s.state == Failed || |way| == 1) && OnlyFails(s.kids, s'.kids, way[1..])
    requires q != [] && q[0] == 0 && if |q| == 1 then s'.state == Failed else FailedAt(s'.kids, q[1..])
    ensures FailedAt(kids, q) || q == way
  {
    assert q == [0] + q[1..];
    if way != [] && way[0] == 0 {
      assert way == [0] + way[1..];
      if |q| == 1 && s.state != Failed { assert q == way; }
    }
  }

  lemma {:induction false} ListAgrees(list: SectionList, kids: seq<Tree>, step: nat, throws: Throws)
    requires FitsList(list, kids)
    ensures Agrees(kids, RunSections(list, Executing, kids, false, step, throws), ListExit(list, kids, false, step, throws))
    decreases list, 1
  {
    hide RunBody, RunSections, BodyExit, ListExit, Fits, FitsList, AllUntouched, Agrees;
    if list.NoSections? {
      NoneAgree(list, kids, step, throws);
    } else {
      var s := FirstOr(kids, Fresh(list.at, SectionKind));
      FirstOfList(list, kids);
      if IsComplete(s.state) {
        if !throws(step) { ListAgrees(list.tail, Rest(kids), step + 1, throws); }
        SkippedAgrees(list, kids, step, throws);
      } else {
        BodyAgrees(list.body, s.kids, step, throws);
        EnteredAgrees(list, kids, step, throws);
      }
    }
  }

  lemma NoneAgree(list: SectionList, kids: seq<Tree>, step: nat, throws: Throws)
    requires list.NoSections? && FitsList(list, kids)
    ensures Agrees(kids, RunSections(list, Executing, kids, false, step, throws), ListExit(list, kids, false, step, throws))
  {
    NothingFails(kids, []);
  }

  lemma FirstOfList(list: SectionList, kids: seq<Tree>)
    requires list.Section? && FitsList(list, kids)
    ensures var s := FirstOr(kids, Fresh(list.at, SectionKind));
            s.at == list.at && s.kind == SectionKind && (kids == [] ==> s.state != Failed && s.kids == []) &&
            if IsComplete(s.state) then kids != [] && FitsList(list.tail, Rest(kids))
            else Fits(list.body, s.kids) && AllUntouched(list.tail, Rest(kids))
  {
  }

  lemma SkipStep(list: SectionList, kids: seq<Tree>, step: nat, throws: Throws)
    requires list.Section? && FitsList(list, kids) && IsComplete(FirstOr(kids, Fresh(list.at, SectionKind)).state)
    ensures var s := FirstOr(kids, Fresh(list.at, SectionKind));
            FitsList(list.tail, Rest(kids)) && kids == [s] + Rest(kids) &&
            var r, e := RunSections(list, Executing, kids, false, step, throws), ListExit(list, kids, false, step, throws);
            if throws(step) then
              r == Outcome(Executing, [s] + Rest(kids), false, true, false, 0, step + 1, []) && e == Thrown([])
            else
              var q := RunSections(list.tail, Executing, Rest(kids), false, step + 1, throws);
              r == q.(kids := [s] + q.kids) && q.depth == 0 &&
              e == Onwards(ListExit(list.tail, Rest(kids), false, step + 1, throws))
  {
  }

  lemma SkippedAgrees(list: SectionList, kids: seq<Tree>, step: nat, throws: Throws)
    requires list.Section? && FitsList(list, kids) && IsComplete(FirstOr(kids, Fresh(list.at, SectionKind)).state)
    requires FitsList(list.tail, Rest(kids))
    requires throws(step) || Agrees(Rest(kids), RunSections(list.tail, Executing, Rest(kids), false, step + 1, throws),
                                    ListExit(list.tail, Rest(kids), false, step + 1, throws))
    ensures Agrees(kids, RunSections(list, Executing, kids, false, step, throws), ListExit(list, kids, false, step, throws))
  {
    hide RunBody, RunSections, BodyExit, ListExit, Fits, FitsList, OnlyFails, FailedAt, Pending;
    SkipStep(list, kids, step, throws);
    NoWay(kids);
    var s := FirstOr(kids, Fresh(list.at, SectionKind));
    if throws(step) {
      NothingFails(kids, []);
    } else {
      var q, f := RunSections(list.tail, Executing, Rest(kids), false, step + 1, throws), ListExit(list.tail, Rest(kids), false, step + 1, throws);
      var way := Onwards(f).Section();
      if f.Section() != [] {
        assert [way[0] - 1] + way[1..] == f.section;
        PendingOnwards(q.state, s, q.kids, f.section, q.trace[..|f.section|]);
        NotFailedOnwards(kids, way);
      }
      ConsFails(kids, s, s, q.kids, way);
    }
  }

  lemma NoWay(kids: seq<Tree>)
    ensures !FailedAt(kids, [])
  {
  }

  lemma PendingOnwards(state: CycleState, s: Tree, kids: seq<Tree>, way: seq<nat>, path: Path)
    requires way != [] && Pending(0, state, kids, way, path)
    ensures Pending(0, state, [s] + kids, [way[0] + 1] + way[1..], path)
  {
    var w := [way[0] + 1] + way[1..];
    assert w[1..] == way[1..] && ([s] + kids)[w[0]] == kids[way[0]];
  }

  lemma NotFailedOnwards(kids: seq<Tree>, way: seq<nat>)
    requires way != [] && way[0] > 0 && kids != [] && !FailedAt(kids[1..], [way[0] - 1] + way[1..])
    ensures !FailedAt(kids, way)
  {
    var w := [way[0] - 1] + way[1..];
    assert w[1..] == way[1..];
    if way[0] < |kids| { assert kids[1..][w[0]] == kids[way[0]]; }
  }

  lemma EnterStep(list: SectionList, kids: seq<Tree>, step: nat, throws: Throws)
    requires list.Section? && FitsList(list, kids) && !IsComplete(FirstOr(kids, Fresh(list.at, SectionKind)).state)
    ensures var s := FirstOr(kids, Fresh(list.at, SectionKind));
            Fits(list.body, s.kids) && AllUntouched(list.tail, Rest(kids)) &&
            var r, e := RunSections(list, Executing, kids, false, step, throws), ListExit(list, kids, false, step, throws);
            var o, f := RunBody(list.body, s.kids, step, throws), BodyExit(list.body, s.kids, step, throws);
            var s' := LeaveSection(s.(state := o.state, kids := o.kids), o);
            (f.Thrown? ==> e == Thrown([0] + f.section)) &&
            (f.Ended? && throws(f.step) ==> e == Thrown([])) &&
            (f.Ended? && !throws(f.step) ==> e == Onwards(ListExit(list.tail, Rest(kids), true, f.step + 1, throws))) &&
            if o.thrown then
              r == Outcome(if o.unwinding then ExecutingChildren else NeedsAnotherRun, [s'] + Rest(kids), true, true, true, 0,
                           o.step, [Entered(list.at)] + o.trace)
            else if throws(o.step) then
              r == Outcome(ExecutingChildren, [s'] + Rest(kids), true, true, false, 0, o.step + 1, [Entered(list.at)] + o.trace)
            else
              var q := RunSections(list.tail, ExecutingChildren, Rest(kids), true, o.step + 1, throws);
              r == q.(kids := [s'] + q.kids, trace := [Entered(list.at)] + o.trace + q.trace)
  {
    hide RunBody, BodyExit;
  }

  /** What becomes of the section itself. */
  lemma LeftAgrees(s: Tree, o: Outcome, f: Exit)
    requires Agrees(s.kids, o, f) && Closable(o.state) && OpenChain(o.depth, o.kids) && s.kind.SectionKind? && !IsComplete(s.state)
    ensures var s' := LeaveSection(s.(state := o.state, kids := o.kids), o);
            s'.at == s.at && s'.kind == s.kind && OnlyFails(s.kids, s'.kids, f.Section()) &&
            (s'.state == Failed <==> o.thrown && !o.unwinding) &&
            (o.unwinding ==> s'.state == o.state && FailedInside(s'.kids, f.section, o.trace[..|f.section|]))
  {
    hide OpenChain, CloseChain, FailedAt, Pending, FailedInside;
    var t := s.(state := o.state, kids := o.kids);
    ClosingFailsNone(o.depth, o.kids);
    FailsChained(s.kids, o.kids, CloseChain(o.depth, o.kids), f.Section());
    if o.unwinding { ClosedAround(o.depth, t, f.section, o.trace[..|f.section|]); }
  }

  lemma FailsChained(a: seq<Tree>, b: seq<Tree>, c: seq<Tree>, way: seq<nat>)
    requires OnlyFails(a, b, way) && OnlyFails(b, c, [])
    ensures OnlyFails(a, c, way)
  {
    forall q | FailedAt(c, q) ensures FailedAt(a, q) || q == way { assert FailedAt(b, q); }
  }

  lemma EnteredAgrees(list: SectionList, kids: seq<Tree>, step: nat, throws: Throws)
    requires list.Section? && FitsList(list, kids) && !IsComplete(FirstOr(kids, Fresh(list.at, SectionKind)).state)
    requires var s := FirstOr(kids, Fresh(list.at, SectionKind));
             Fits(list.body, s.kids) &&
             Agrees(s.kids, RunBody(list.body, s.kids, step, throws), BodyExit(list.body, s.kids, step, throws))
    ensures Agrees(kids, RunSections(list, Executing, kids, false, step, throws), ListExit(list, kids, false, step, throws))
  {
    hide RunBody, RunSections, BodyExit, ListExit, Fits, FitsList, AllUntouched, OnlyFails, FailedAt, Pending, OpenChain, LeaveSection;
    EnterStep(list, kids, step, throws);
    FirstOfList(list, kids);
    NoWay(kids);
    var s := FirstOr(kids, Fresh(list.at, SectionKind));
    var o, f := RunBody(list.body, s.kids, step, throws), BodyExit(list.body, s.kids, step, throws);
    LeftAgrees(s, o, f);
    var s' := LeaveSection(s.(state := o.state, kids := o.kids), o);
    NothingFails(Rest(kids), []);
    if o.thrown {
      EnteredThrown(kids, s, s', o, f, list.at);
    } else if throws(o.step) {
      FirstOnly(kids, s, s', Rest(kids));
    } else {
      DoneAgrees(list.tail, ExecutingChildren, Rest(kids), o.step + 1, throws);
      FirstOnly(kids, s, s', RunSections(list.tail, ExecutingChildren, Rest(kids), true, o.step + 1, throws).kids);
    }
  }

  lemma FirstOnly(kids: seq<Tree>, s: Tree, s': Tree, rest': seq<Tree>)
    requires kids == [] ==> s.state != Failed && s.kids == []
    requires kids != [] ==> s == kids[0]
    requires s'.state != Failed && OnlyFails(s.kids, s'.kids, []) && OnlyFails(Rest(kids), rest', [])
    ensures OnlyFails(kids, [s'] + rest', [])
  {
    var all := [s'] + rest';
    forall q | FailedAt(all, q) ensures FailedAt(kids, q) {
      if q[0] == 0 {
        assert FailedAt(s.kids, q[1..]);
      } else {
        var q' := [q[0] - 1] + q[1..];
        assert all[q[0]] == rest'[q'[0]] && q'[1..] == q[1..];
        assert FailedAt(rest', q') && FailedAt(Rest(kids), q');
        assert kids[q[0]] == Rest(kids)[q'[0]];
      }
    }
  }

  lemma EnteredThrown(kids: seq<Tree>, s: Tree, s': Tree, o: Outcome, f: Exit, at: NameAndLocation)
    requires kids == [] ==> s.state != Failed && s.kids == []
    requires kids != [] ==> s == kids[0]
    requires o.thrown && Agrees(s.kids, o, f) && s.at == s'.at == at && s.kind == s'.kind == SectionKind && s.state != Failed
    requires OnlyFails(s.kids, s'.kids, f.Section()) && (s'.state == Failed <==> !o.unwinding)
    requires Closable(o.state) && (o.unwinding ==> s'.state == o.state && FailedInside(s'.kids, f.section, o.trace[..|f.section|]))
    ensures var way := [0] + f.section;
            OnlyFails(kids, [s'] + Rest(kids), way) && !FailedAt(kids, way) && |way| <= |[Entered(at)] + o.trace| &&
            Pending(0, if o.unwinding then ExecutingChildren else NeedsAnotherRun, [s'] + Rest(kids), way,
                    ([Entered(at)] + o.trace)[..|way|])
  {
    var way, trace := [0] + f.section, [Entered(at)] + o.trace;
    assert way[1..] == f.section && trace[..|way|] == [Entered(at)] + o.trace[..|f.section|];
    assert trace[..|way|][1..] == o.trace[..|f.section|];
    NothingFails(Rest(kids), []);
    ConsFails(kids, s, s', Rest(kids), way);
    hide OnlyFails, Pending;
    assert Pending(0, if o.unwinding then ExecutingChildren else NeedsAnotherRun, [s'] + Rest(kids), way, trace[..|way|]) by {
      ThrownPending(s', Rest(kids), o.unwinding, f.section, at, o.trace[..|f.section|]);
    }
  }

  lemma ThrownPending(s': Tree, rest: seq<Tree>, unwinding: bool, section: seq<nat>, at: NameAndLocation, path: Path)
    requires s'.at == at && s'.kind == SectionKind && |path| == |section| && (unwinding <==> section != [])
    requires if unwinding then Closable(s'.state) && FailedInside(s'.kids, section, path) else s'.state == Failed
    ensures Pending(0, if unwinding then ExecutingChildren else NeedsAnotherRun, [s'] + rest, [0] + section, [Entered(at)] + path)
  {
    var way, p := [0] + section, [Entered(at)] + path;
    assert way[1..] == section && p[1..] == path && ([s'] + rest)[0] == s';
  }

  // ----- A whole cycle -----

  lemma {:induction false} InsideHasFailed(kids: seq<Tree>, way: seq<nat>, path: Path, n: nat)
    requires FailedInside(kids, way, path) && 0 < n <= |way|
    ensures FailedAt(kids, way[..n]) <==> n == |way|
    decreases n
  {
    var w := way[..n];
    assert w[0] == way[0];
    if n > 1 {
      InsideHasFailed(kids[way[0]].kids, way[1..], path[1..], n - 1);
      assert w[1..] == way[1..][..n - 1];
    }
  }

  /** If a cycle is left by an exception inside some section, the innermost section around the exception has failed after
      it, those around that one have not, and the scope will be entered again.  No other tracker fails in any cycle. */
  lemma InnermostFails(b: Body, kids: seq<Tree>, step: nat, throws: Throws, at: NameAndLocation, kind: Kind)
    requires Fits(b, kids)
    ensures var r, e := RunBody(b, kids, step, throws), BodyExit(b, kids, step, throws);
            var c := CloseScope(at, kind, r);
            (r.thrown <==> e.Thrown?) && (e.Ended? ==> r.step == e.step) &&
            (forall q :: FailedAt(c.kids, q) ==> FailedAt(kids, q) || q == e.Section()) &&
            (e.Section() != [] ==>
              !IsComplete(c.state) && !FailedAt(kids, e.section) && |e.section| <= |r.trace| &&
              FailedInside(c.kids, e.section, r.trace[..|e.section|]) &&
              forall n :: 0 < n <= |e.section| ==> (FailedAt(c.kids, e.section[..n]) <==> n == |e.section|))
  {
    hide RunBody, BodyExit, Fits, OpenChain, CloseChain, FailedAt, Pending, FailedInside;
    var r, e := RunBody(b, kids, step, throws), BodyExit(b, kids, step, throws);
    BodyAgrees(b, kids, step, throws);
    var c := CloseScope(at, kind, r);
    ClosingFailsNone(r.depth, r.kids);
    FailsChained(kids, r.kids, c.kids, e.Section());
    if e.Section() != [] {
      var path := r.trace[..|e.section|];
      ClosedAround(r.depth, Tree(at, kind, r.state, r.kids), e.section, path);
      forall n | 0 < n <= |e.section| ensures FailedAt(c.kids, e.section[..n]) <==> n == |e.section| {
        InsideHasFailed(c.kids, e.section, path, n);
      }
    }
  }

  // ----- Whole runs -----

  /** The path leads to a section that is complete, or by a value that a generator has left behind. */
  ghost predicate Barred(kids: seq<Tree>, path: Path)
    decreases |path|
  {
    path != [] && exists i :: 0 <= i < |kids| && Bars(kids[i], path)
  }

  ghost predicate Bars(t: Tree, path: Path)
    requires path != []
    decreases |path|, 0
  {
    t.at == path[0].at &&
    match path[0]
    case Entered(_) => t.kind.SectionKind? && (IsComplete(t.state) || Barred(t.kids, path[1..]))
    case Drew(_, index) =>
      t.kind.GeneratorKind? && (index < t.kind.position || (index == t.kind.position && Barred(t.kids, path[1..])))
  }

  lemma {:induction false} FailedIsBarred(kids: seq<Tree>, way: seq<nat>, path: Path)
    requires FailedInside(kids, way, path)
    ensures Barred(kids, path)
    decreases |way|
  {
    if |way| > 1 { FailedIsBarred(kids[way[0]].kids, way[1..], path[1..]); }
    assert Bars(kids[way[0]], path);
  }

  lemma {:induction false} BarredKept(kids: seq<Tree>, kids': seq<Tree>, path: Path)
    requires Barred(kids, path) && KeptAll(kids, kids')
    ensures Barred(kids', path)
    decreases |path|
  {
    var i :| 0 <= i < |kids| && Bars(kids[i], path);
    var t, t' := kids[i], kids'[i];
    assert Kept(t, t');
    if !IsComplete(t.state) && Barred(t.kids, path[1..]) && KeptKids(t, t') { BarredKept(t.kids, t'.kids, path[1..]); }
    assert Bars(t', path);
  }

  lemma {:induction false} DoneTakesNothing(list: SectionList, state: CycleState, kids: seq<Tree>, step: nat, throws: Throws)
    requires AllUntouched(list, kids) && Closable(state)
    ensures RunSections(list, state, kids, true, step, throws).trace == []
    decreases list
  {
    DoneAgrees(list, state, kids, step, throws);
  }

  /** A pass takes no path that is barred. */
  lemma {:induction false} BarredIsNotTaken(b: Body, kids: seq<Tree>, step: nat, throws: Throws, enclosing: NameAndLocation, path: Path)
    requires Fits(b, kids) && WellFormed(b, enclosing) && Barred(kids, path)
    ensures !(path <= RunBody(b, kids, step, throws).trace)
    decreases b, 0
  {
    if !throws(step) {
      match b
      case Generate(at, size, rest) =>
        var g := kids[0];
        GeneratorIs(b, kids, step, throws);
        var r := RunBody(rest, g.kids, step + 1, throws);
        assert Bars(g, path);
        if path[0] == Drew(at, g.kind.position) {
          BarredIsNotTaken(rest, g.kids, step + 1, throws, at, path[1..]);
          BehindTheFirst(path, path[0], r.trace);
        }
      case Sections(list) =>
        BarredIsNotEntered(list, kids, step + 1, throws, path);
    }
  }

  /** The trees of a list are those of its sections, in order. */
  lemma {:induction false} ListedAt(list: SectionList, kids: seq<Tree>, i: nat)
    requires FitsList(list, kids) && i < |kids|
    ensures Lists(list, kids[i].at)
    decreases list
  {
    if i > 0 {
      if IsComplete(kids[0].state) { ListedAt(list.tail, kids[1..], i - 1); }
      else { UntouchedFit(list.tail, kids[1..]); ListedAt(list.tail, kids[1..], i - 1); }
    }
  }

  lemma BeginsElsewhere(path: Path, trace: Path)
    requires path != [] && (trace != [] ==> trace[0].at != path[0].at)
    ensures !(path <= trace)
  {
    assert trace == [] || path[0] != trace[0];
  }

  /** What a pass enters first is listed. */
  lemma {:induction false} TakesListed(list: SectionList, kids: seq<Tree>, step: nat, throws: Throws)
    requires FitsList(list, kids)
    ensures var trace := RunSections(list, Executing, kids, false, step, throws).trace;
            trace != [] ==> trace[0].Entered? && Lists(list, trace[0].at)
    decreases list
  {
    if list.Section? {
      FirstOfList(list, kids);
      if IsComplete(FirstOr(kids, Fresh(list.at, SectionKind)).state) {
        SkipStep(list, kids, step, throws);
        if !throws(step) { TakesListed(list.tail, Rest(kids), step + 1, throws); }
      } else {
        EnterStep(list, kids, step, throws);
      }
    }
  }

  lemma BarredIsListed(list: SectionList, kids: seq<Tree>, path: Path)
    requires FitsList(list, kids) && Barred(kids, path)
    ensures kids != [] && path != [] && Lists(list, path[0].at)
    ensures Bars(kids[0], path) || Barred(kids[1..], path)
  {
    hide FitsList;
    var i :| 0 <= i < |kids| && Bars(kids[i], path);
    ListedAt(list, kids, i);
    if i > 0 { assert Bars(kids[1..][i - 1], path); }
  }

  /** The trace of a pass that enters the first section, which takes part in it until its body is left. */
  lemma EnteredTrace(list: SectionList, kids: seq<Tree>, step: nat, throws: Throws)
    requires list.Section? && FitsList(list, kids) && kids != [] && !IsComplete(kids[0].state)
    ensures Fits(list.body, kids[0].kids) && FitsList(list.tail, kids[1..])
    ensures RunSections(list, Executing, kids, false, step, throws).trace ==
            [Entered(list.at)] + RunBody(list.body, kids[0].kids, step, throws).trace
  {
    hide RunBody, RunSections, BodyExit, ListExit, Fits, FitsList, AllUntouched, LeaveSection, OpenChain;
    FirstOfList(list, kids);
    EnterStep(list, kids, step, throws);
    UntouchedFit(list.tail, kids[1..]);
    var o := RunBody(list.body, kids[0].kids, step, throws);
    if !o.thrown && !throws(o.step) { DoneTakesNothing(list.tail, ExecutingChildren, kids[1..], o.step + 1, throws); }
  }

  lemma BehindTheFirst(path: Path, e: Event, trace: Path)
    requires path != []
    ensures path <= [e] + trace ==> path[1..] <= trace
  {
    assert ([e] + trace)[1..] == trace;
  }

  lemma {:induction false} BarredIsNotEntered(list: SectionList, kids: seq<Tree>, step: nat, throws: Throws, path: Path)
    requires FitsList(list, kids) && WellFormedList(list) && Barred(kids, path)
    ensures !(path <= RunSections(list, Executing, kids, false, step, throws).trace)
    decreases list, 1
  {
    hide RunBody, RunSections, BodyExit, ListExit, Fits, FitsList, AllUntouched, LeaveSection, Barred, OpenChain, WellFormed;
    BarredIsListed(list, kids, path);
    FirstOfList(list, kids);
    if IsComplete(kids[0].state) {
      SkipStep(list, kids, step, throws);
      if Barred(kids[1..], path) {
        if !throws(step) { BarredIsNotEntered(list.tail, kids[1..], step + 1, throws, path); }
      } else if !throws(step) {
        TakesListed(list.tail, kids[1..], step + 1, throws);
        BeginsElsewhere(path, RunSections(list.tail, Executing, kids[1..], false, step + 1, throws).trace);
      }
    } else {
      EnteredTrace(list, kids, step, throws);
      if Barred(kids[1..], path) {
        BarredIsListed(list.tail, kids[1..], path);
        BeginsElsewhere(path, [Entered(list.at)] + RunBody(list.body, kids[0].kids, step, throws).trace);
      } else {
        BarredIsNotTaken(list.body, kids[0].kids, step, throws, list.at, path[1..]);
        BehindTheFirst(path, Entered(list.at), RunBody(list.body, kids[0].kids, step, throws).trace);
      }
    }
  }

  /** The paths to the sections that were innermost around the exceptions of a run's cycles; [] where there is none. */
  ghost function Abandoned(b: Body, test: Tree, step: nat, throws: Throws): seq<Path>
    requires Fits(b, test.kids) && test.kind.SectionKind?
    decreases Work(b, test.kids)
  {
    var (test', r) := OneCycle(b, test, step, throws);
    var section := BodyExit(b, test.kids, step, throws).Section();
    [if |section| <= |r.trace| then r.trace[..|section|] else []] +
    if IsComplete(test'.state) then [] else Abandoned(b, test', r.step, throws)
  }

  lemma {:induction false} BarredForGood(b: Body, test: Tree, step: nat, throws: Throws, path: Path, j: nat)
    requires Fits(b, test.kids) && test.kind.SectionKind? && WellFormed(b, test.at) && Barred(test.kids, path)
    requires j < |TestRun(b, test, step, throws)|
    ensures !(path <= TestRun(b, test, step, throws)[j].path)
    decreases j
  {
    hide Fits, Work, WellFormed, OneCycle, TestRun, RunBody, Barred;
    var (test', r) := OneCycle(b, test, step, throws);
    TestRunStep(b, test, step, throws);
    TestRunIs(b, test, step, throws);
    OneCycleIs(b, test, step, throws);
    if j == 0 {
      BarredIsNotTaken(b, test.kids, step, throws, test.at, path);
    } else {
      RunBodyKept(b, test.kids, step, throws, test.at, SectionKind);
      BarredKept(test.kids, test'.kids, path);
      BarredForGood(b, test', r.step, throws, path, j - 1);
    }
  }

  /** A section that an exception left is never entered again, as long as the generators around it keep their values. */
  lemma {:induction false} AbandonedForGood(b: Body, test: Tree, step: nat, throws: Throws, i: nat, j: nat)
    requires Fits(b, test.kids) && test.kind.SectionKind? && WellFormed(b, test.at)
    requires i < j < |TestRun(b, test, step, throws)|
    ensures var run, abandoned := TestRun(b, test, step, throws), Abandoned(b, test, step, throws);
            |abandoned| == |run| && abandoned[i] <= run[i].path &&
            (abandoned[i] != [] ==> !(abandoned[i] <= run[j].path))
    decreases j
  {
    hide Fits, Work, WellFormed, OneCycle, TestRun, RunBody, BodyExit, Barred, FailedInside, FailedAt, Abandoned;
    var (test', r) := OneCycle(b, test, step, throws);
    TestRunStep(b, test, step, throws);
    TestRunIs(b, test, step, throws);
    OneCycleIs(b, test, step, throws);
    AbandonedStep(b, test, step, throws);
    AbandonedCycles(b, test, step, throws);
    if i == 0 {
      InnermostFails(b, test.kids, step, throws, test.at, SectionKind);
      var e := BodyExit(b, test.kids, step, throws);
      if e.Section() != [] {
        FailedIsBarred(test'.kids, e.section, r.trace[..|e.section|]);
        BarredForGood(b, test', r.step, throws, r.trace[..|e.section|], j - 1);
      }
    } else {
      AbandonedForGood(b, test', r.step, throws, i - 1, j - 1);
    }
  }

  lemma AbandonedStep(b: Body, test: Tree, step: nat, throws: Throws)
    requires Fits(b, test.kids) && test.kind.SectionKind?
    ensures var (test', r) := OneCycle(b, test, step, throws);
            var section := BodyExit(b, test.kids, step, throws).Section();
            Abandoned(b, test, step, throws) ==
              [if |section| <= |r.trace| then r.trace[..|section|] else []] +
              if IsComplete(test'.state) then [] else Abandoned(b, test', r.step, throws)
  {
    hide Fits, Work, OneCycle, BodyExit;
  }

  lemma {:induction false} AbandonedCycles(b: Body, test: Tree, step: nat, throws: Throws)
    requires Fits(b, test.kids) && test.kind.SectionKind?
    ensures |Abandoned(b, test, step, throws)| == |TestRun(b, test, step, throws)|
    decreases Work(b, test.kids)
  {
    hide Fits, Work, OneCycle, TestRun, Abandoned, BodyExit;
    var (test', r) := OneCycle(b, test, step, throws);
    TestRunStep(b, test, step, throws);
    TestRunIs(b, test, step, throws);
    AbandonedStep(b, test, step, throws);
    if !IsComplete(test'.state) { AbandonedCycles(b, test', r.step, throws); }
  }
}
