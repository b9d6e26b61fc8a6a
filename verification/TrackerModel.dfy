/** The tracker tree as a value: what one cycle of a test run does to it. */
module TrackerModel {
  // A scope is the state and the children of the tracker a body runs in.  User code may throw at any
  // point; the oracle `throws` decides, asked once for every point the run reaches.

  import opened TestBody

  datatype CycleState =
    | NotStarted
    | Executing
    | ExecutingChildren
    | NeedsAnotherRun
    | CompletedSuccessfully
    | Failed

  datatype Kind =
    | SectionKind
    | GeneratorKind(size: Count, position: nat)

  datatype Tree = Tree(at: NameAndLocation, kind: Kind, state: CycleState, kids: seq<Tree>)

  type Throws = nat -> bool

  predicate IsComplete(state: CycleState) {
    state == CompletedSuccessfully || state == Failed
  }

  predicate AllComplete(kids: seq<Tree>) {
    forall i :: 0 <= i < |kids| ==> IsComplete(kids[i].state)
  }

  predicate HasStarted(t: Tree) {
    t.state != NotStarted
  }

  function Fresh(at: NameAndLocation, kind: Kind): Tree {
    Tree(at, kind, NotStarted, [])
  }

  // ----- Closing trackers -----

  /** A state a tracker may be closed in; any other is an internal error. */
  predicate Closable(state: CycleState) {
    state == Executing || state == ExecutingChildren || state == NeedsAnotherRun
  }

  function CloseBase(t: Tree): Tree
    requires Closable(t.state)
  {
    if t.state == Executing || (t.state == ExecutingChildren && AllComplete(t.kids))
    then t.(state := CompletedSuccessfully)
    else t
  }

  predicate ShouldWaitForChild(t: Tree) {
    t.kids != [] && forall i :: 0 <= i < |t.kids| ==> !HasStarted(t.kids[i])
  }

  /** A generator closed successfully moves to its next value, if there is one. */
  function AdvanceGenerator(c: Tree): Tree
    requires c.kind.GeneratorKind?
  {
    if ShouldWaitForChild(c) then c.(kids := [], state := Executing)
    else if c.state == CompletedSuccessfully && c.kind.position + 1 < c.kind.size
    then c.(kind := GeneratorKind(c.kind.size, c.kind.position + 1), kids := [], state := Executing)
    else c
  }

  /** A generator moves on exactly if it succeeded, has another value, and is not to wait for a child to start. */
  lemma MovesOnExactlyIf(c: Tree)
    requires c.kind.GeneratorKind?
    ensures var g := AdvanceGenerator(c);
            g.kind != c.kind <==> c.state == CompletedSuccessfully && c.kind.position + 1 < c.kind.size &&
                                  (c.kids == [] || exists i :: 0 <= i < |c.kids| && c.kids[i].state != NotStarted)
  {
  }

  function CloseGenerator(t: Tree): Tree
    requires Closable(t.state) && t.kind.GeneratorKind?
  {
    AdvanceGenerator(CloseBase(t))
  }

  /** The `depth` generators opened below this tracker, each the only child of the one before. */
  ghost predicate OpenChain(depth: nat, kids: seq<Tree>) {
    depth == 0 ||
    (|kids| == 1 && kids[0].kind.GeneratorKind? && Closable(kids[0].state) && OpenChain(depth - 1, kids[0].kids))
  }

  function CloseChain(depth: nat, kids: seq<Tree>): (r: seq<Tree>)
    requires OpenChain(depth, kids)
    ensures |r| == |kids|
  {
    if depth == 0 then kids else [CloseGenerator(kids[0].(kids := CloseChain(depth - 1, kids[0].kids)))]
  }

  function CloseSection(depth: nat, t: Tree): Tree
    requires OpenChain(depth, t.kids) && Closable(t.state)
  {
    CloseBase(t.(kids := CloseChain(depth, t.kids)))
  }

  // ----- Trackers that fit a body -----

  /** The children a tracker may have while it waits to run this body again. */
  predicate Fits(b: Body, kids: seq<Tree>)
    decreases b
  {
    match b
    case Generate(at, size, rest) =>
      kids == [] || (|kids| == 1 && FitsGenerator(at, size, kids[0]) && Fits(rest, kids[0].kids))
    case Sections(list) => FitsList(list, kids) && (kids != [] ==> HasStarted(kids[0]))
  }

  predicate FitsGenerator(at: NameAndLocation, size: Count, g: Tree) {
    g.at == at && g.kind.GeneratorKind? && g.kind.size == size && g.kind.position < size && Closable(g.state)
  }

  /** Sections are tracked in order: completed ones, then at most one under way, then untouched ones. */
  predicate FitsList(list: SectionList, kids: seq<Tree>)
    decreases list
  {
    kids == [] ||
    match list
    case NoSections => false
    case Section(at, body, tail) =>
      kids[0].at == at && kids[0].kind.SectionKind? &&
      if IsComplete(kids[0].state) then FitsList(tail, kids[1..])
      else Fits(body, kids[0].kids) && AllUntouched(tail, kids[1..]) &&
           (kids[0].state == NotStarted ==> kids[0].kids == [])
  }

  predicate AllUntouched(list: SectionList, kids: seq<Tree>)
    decreases list
  {
    kids == [] ||
    match list
    case NoSections => false
    case Section(at, _, tail) => kids[0] == Fresh(at, SectionKind) && AllUntouched(tail, kids[1..])
  }

  // ----- One cycle -----

  /** What running a body left behind: the scope, whether the cycle is complete, whether an exception is
      in flight and a section has already failed because of it, how many generators are still open
      below the scope, the next point to ask the oracle about, and the path taken. */
  datatype Outcome = Outcome(
    state: CycleState, kids: seq<Tree>, done: bool, thrown: bool, unwinding: bool,
    depth: nat, step: nat, trace: Path)

  function FirstOr(kids: seq<Tree>, otherwise: Tree): Tree {
    if kids == [] then otherwise else kids[0]
  }

  function Rest(kids: seq<Tree>): seq<Tree> {
    if kids == [] then [] else kids[1..]
  }

  /** The body runs in a tracker just opened, so the cycle is not complete yet. */
  function RunBody(b: Body, kids: seq<Tree>, step: nat, throws: Throws): (r: Outcome)
    requires Fits(b, kids)
    ensures Closable(r.state) && (r.unwinding ==> r.thrown)
    ensures OpenChain(r.depth, r.kids)
    decreases b
  {
    if throws(step) then Outcome(Executing, kids, false, true, false, 0, step + 1, [])
    else match b
      case Generate(at, size, rest) =>
        var g := FirstOr(kids, Fresh(at, GeneratorKind(size, 0)));
        var r := RunBody(rest, g.kids, step + 1, throws);
        Outcome(ExecutingChildren, [g.(state := r.state, kids := r.kids)], r.done, r.thrown, r.unwinding,
                r.depth + 1, r.step, [Drew(at, g.kind.position)] + r.trace)
      case Sections(list) => RunSections(list, Executing, kids, false, step + 1, throws)
  }

  /** A section that ends early fails, unless an inner section already failed on the way out. */
  function LeaveSection(s: Tree, r: Outcome): Tree
    requires OpenChain(r.depth, s.kids) && Closable(s.state)
  {
    if r.thrown && !r.unwinding then s.(state := Failed) else CloseSection(r.depth, s)
  }

  function RunSections(list: SectionList, state: CycleState, kids: seq<Tree>, done: bool, step: nat,
                       throws: Throws): (r: Outcome)
    requires if done then AllUntouched(list, kids) else FitsList(list, kids)
    requires Closable(state)
    ensures Closable(r.state) && r.depth == 0 && (r.unwinding ==> r.thrown)
    decreases list
  {
    match list
    case NoSections => Outcome(state, kids, done, false, false, 0, step, [])
    case Section(at, body, tail) =>
      var s := FirstOr(kids, Fresh(at, SectionKind));
      if done || IsComplete(s.state) then
        if throws(step) then Outcome(state, [s] + Rest(kids), done, true, false, 0, step + 1, [])
        else
          var r := RunSections(tail, state, Rest(kids), done, step + 1, throws);
          r.(kids := [s] + r.kids)
      else
        var r := RunBody(body, s.kids, step, throws);
        var s' := LeaveSection(s.(state := r.state, kids := r.kids), r);
        if r.thrown then
          Outcome(if r.unwinding then ExecutingChildren else NeedsAnotherRun,
                  [s'] + Rest(kids), true, true, true, 0, r.step, [Entered(at)] + r.trace)
        else if throws(r.step) then
          Outcome(ExecutingChildren, [s'] + Rest(kids), true, true, false, 0, r.step + 1, [Entered(at)] + r.trace)
        else
          var q := RunSections(tail, ExecutingChildren, Rest(kids), true, r.step + 1, throws);
          q.(kids := [s'] + q.kids, trace := [Entered(at)] + r.trace + q.trace)
  }
}
