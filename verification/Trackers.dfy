/** The tracker objects of a test run, one of them current. */
module Trackers {
  // `TrackerContext.Heap` is what all trackers hold at some moment, and `Models` relates the part of
  // it below one tracker to a tree of TrackerModel.  Every method says what tree it leaves.

  import opened TestBody
  import opened TrackerModel

  datatype Record = Record(state: CycleState, kind: Kind, children: seq<Tracker>)

  type Records = map<Tracker, Record>

  /** Parents never change, so what lies below a tracker is fixed. */
  ghost predicate Under(x: Tracker, t: Tracker)
    decreases x.level
  {
    x == t || (x.parent != null && x.level == x.parent.level + 1 && Under(x.parent, t))
  }

  ghost predicate Linked(t: Tracker)
    decreases t.level
  {
    t.parent != null ==> t.level == t.parent.level + 1 && Linked(t.parent)
  }

  ghost predicate Models(h: Records, t: Tracker, v: Tree)
    decreases v
  {
    t in h && t.at == v.at && h[t].state == v.state && h[t].kind == v.kind && |h[t].children| == |v.kids| &&
    (forall i :: 0 <= i < |v.kids| ==>
      h[t].children[i].parent == t && h[t].children[i].level == t.level + 1 && Models(h, h[t].children[i], v.kids[i])) &&
    (forall i, j :: 0 <= i < j < |v.kids| ==> h[t].children[i] != h[t].children[j])
  }

  /** The current tracker is the last of `depth` only children below t. */
  ghost predicate CurrentAt(h: Records, t: Tracker, depth: nat, current: Tracker)
    decreases depth
  {
    if depth == 0 then current == t
    else t in h && |h[t].children| == 1 && CurrentAt(h, h[t].children[0], depth - 1, current)
  }

  ghost predicate SameOutside(h: Records, h': Records, s: Tracker) {
    h.Keys <= h'.Keys && forall x {:trigger h'[x]} {:trigger h[x]} :: x in h && !Under(x, s) ==> h'[x] == h[x]
  }

  // ----- Marking upwards -----

  /** The trackers that marking touches, from t up to the first one marked already, are known. */
  ghost predicate MarksWithin(h: Records, t: Tracker)
    decreases t.level
  {
    t in h &&
    (h[t].state == ExecutingChildren || t.parent == null || (t.parent.level < t.level && MarksWithin(h, t.parent)))
  }

  /** All of them execute a child afterwards. */
  ghost function MarkUp(h: Records, t: Tracker): (r: Records)
    requires MarksWithin(h, t)
    ensures r.Keys == h.Keys
    decreases t.level
  {
    if h[t].state == ExecutingChildren then h
    else (if t.parent == null then h else MarkUp(h, t.parent))[t := h[t].(state := ExecutingChildren)]
  }

  /** What a tracker of a higher level holds does not matter, and is not changed. */
  lemma {:induction false} MarkUpAside(h: Records, x: Tracker, r: Record, t: Tracker)
    requires MarksWithin(h, t) && x in h && t.level < x.level
    ensures MarksWithin(h[x := r], t) && MarkUp(h[x := r], t) == MarkUp(h, t)[x := r]
    decreases t.level
  {
    if h[t].state != ExecutingChildren && t.parent != null { MarkUpAside(h, x, r, t.parent); }
  }

  /** In a run the parent is marked already, and only one tracker is. */
  lemma MarkUpOnce(h: Records, t: Tracker)
    requires MarksWithin(h, t) && (t.parent == null || (t.parent in h && h[t.parent].state == ExecutingChildren))
    ensures MarkUp(h, t) == h[t := h[t].(state := ExecutingChildren)]
  {
  }

  lemma Modelled(h: Records, t: Tracker, v: Tree)
    requires Models(h, t, v)
    ensures t in h && t.at == v.at && h[t].state == v.state && h[t].kind == v.kind && |h[t].children| == |v.kids|
  {
  }

  lemma ChildModelled(h: Records, t: Tracker, v: Tree, i: nat)
    requires Models(h, t, v) && i < |v.kids|
    ensures i < |h[t].children| && h[t].children[i].parent == t && Models(h, h[t].children[i], v.kids[i])
  {
  }

  // ----- Frames -----

  lemma {:induction false} UnderLevel(x: Tracker, t: Tracker)
    requires Under(x, t)
    ensures t.level <= x.level && (x.level == t.level ==> x == t)
    decreases x.level
  {
    if x != t { UnderLevel(x.parent, t); }
  }

  lemma {:induction false} UnderTransitive(x: Tracker, s: Tracker, t: Tracker)
    requires Under(x, s) && Under(s, t)
    ensures Under(x, t)
    decreases x.level
  {
    if x != s { UnderTransitive(x.parent, s, t); }
  }

  /** Different trackers at the same level have nothing below them in common. */
  lemma {:induction false} UnderApart(x: Tracker, s: Tracker, t: Tracker)
    requires Under(x, s) && Under(x, t) && s.level == t.level
    ensures s == t
    decreases x.level
  {
    UnderLevel(x, s);
    UnderLevel(x, t);
    if x != s { UnderApart(x.parent, s, t); }
  }

  lemma {:induction false} ModelsFrame(h: Records, h': Records, t: Tracker, v: Tree)
    requires Models(h, t, v)
    requires forall y :: y in h && Under(y, t) ==> y in h' && h'[y] == h[y]
    ensures Models(h', t, v)
    decreases v
  {
    assert Under(t, t);
    forall i | 0 <= i < |v.kids| ensures Models(h', h[t].children[i], v.kids[i]) {
      var c := h[t].children[i];
      forall y | y in h && Under(y, c) ensures y in h' && h'[y] == h[y] { UnderTransitive(y, c, t); }
      ModelsFrame(h, h', c, v.kids[i]);
    }
  }

  /** Changing what one tracker holds, except its children, changes only that node of its tree. */
  lemma ModelsSelf(h: Records, t: Tracker, v: Tree, state: CycleState, kind: Kind)
    requires Models(h, t, v)
    ensures Models(h[t := Record(state, kind, h[t].children)], t, v.(state := state, kind := kind))
  {
    var h' := h[t := Record(state, kind, h[t].children)];
    forall i | 0 <= i < |v.kids| ensures Models(h', h[t].children[i], v.kids[i]) {
      ModelsBelow(h, h', t, h[t].children[i], v.kids[i]);
    }
  }

  /** A change above a tracker does not affect its subtree. */
  lemma ModelsBelow(h: Records, h': Records, p: Tracker, t: Tracker, v: Tree)
    requires Models(h, t, v) && p.level < t.level
    requires forall x :: x in h && x != p ==> x in h' && h'[x] == h[x]
    ensures Models(h', t, v)
  {
    forall y | y in h && Under(y, t) ensures y in h' && h'[y] == h[y] { UnderLevel(y, t); }
    ModelsFrame(h, h', t, v);
  }

  /** The i-th child's tree is replaced; the tracker itself may have changed state. */
  lemma ModelsChild(h: Records, h': Records, t: Tracker, v: Tree, i: nat, w: Tree)
    requires Models(h, t, v) && i < |v.kids| && t in h'
    requires h'[t].children == h[t].children && h'[t].kind == h[t].kind
    requires Models(h', h[t].children[i], w)
    requires forall x :: x in h && x != t && !Under(x, h[t].children[i]) ==> x in h' && h'[x] == h[x]
    requires forall x :: x in h ==> x in h'
    ensures Models(h', t, v.(state := h'[t].state, kids := v.kids[i := w]))
  {
    var c := h[t].children[i];
    forall j | 0 <= j < |v.kids| && j != i ensures Models(h', h[t].children[j], v.kids[j]) {
      var s := h[t].children[j];
      forall y | y in h && Under(y, s) ensures y in h' && h'[y] == h[y] {
        UnderLevel(y, s);
        if Under(y, c) { UnderApart(y, c, s); }
      }
      ModelsFrame(h, h', s, v.kids[j]);
    }
  }

  lemma ChildUnder(h: Records, t: Tracker, v: Tree, i: nat)
    requires Models(h, t, v) && i < |v.kids|
    ensures var c := h[t].children[i]; c in h && c != t && Under(c, t) && !Under(t, c)
  {
    var c := h[t].children[i];
    assert Models(h, c, v.kids[i]);
    assert Under(c.parent, t);
    if Under(t, c) { UnderLevel(t, c); }
  }

  /** Only the i-th child's subtree changed. */
  lemma ModelsWithin(h: Records, h': Records, t: Tracker, v: Tree, i: nat, w: Tree)
    requires Models(h, t, v) && i < |v.kids|
    requires Models(h', h[t].children[i], w) && SameOutside(h, h', h[t].children[i])
    ensures Models(h', t, v.(kids := v.kids[i := w])) && SameOutside(h, h', t) && h'[t] == h[t]
  {
    ChildUnder(h, t, v, i);
    ModelsChild(h, h', t, v, i, w);
    SameOutsideWider(h, h', h[t].children[i], t);
  }

  /** The i-th child and its parent changed state together. */
  lemma ModelsMarked(h: Records, t: Tracker, v: Tree, i: nat, childState: CycleState, state: CycleState)
    requires Models(h, t, v) && i < |v.kids|
    ensures var c := h[t].children[i];
            c in h
    ensures var c := h[t].children[i];
            var w := v.kids[i].(state := childState);
            var h' := h[c := Record(childState, h[c].kind, h[c].children)]
                       [t := Record(state, h[t].kind, h[t].children)];
            Models(h', c, w) && Models(h', t, v.(state := state, kids := v.kids[i := w])) && SameOutside(h, h', t)
  {
    var c := h[t].children[i];
    var w := v.kids[i].(state := childState);
    ChildUnder(h, t, v, i);
    assert Models(h, c, v.kids[i]);
    ModelsSelf(h, c, v.kids[i], childState, v.kids[i].kind);
    var h1 := h[c := Record(childState, h[c].kind, h[c].children)];
    assert v.kids[i].(state := childState, kind := v.kids[i].kind) == w;
    var h' := h1[t := Record(state, h[t].kind, h[t].children)];
    ModelsBelow(h1, h', t, c, w);
    assert Under(c, c) && Under(t, t);
    ModelsChild(h, h', t, v, i, w);
  }

  /** A new tracker is registered as the last child. */
  lemma ModelsAdded(h: Records, t: Tracker, v: Tree, c: Tracker, w: Tree)
    requires Models(h, t, v) && c !in h && c.parent == t && c.level == t.level + 1
    requires w == Fresh(c.at, w.kind)
    ensures var h' := h[c := Record(NotStarted, w.kind, [])]
                       [t := Record(h[t].state, h[t].kind, h[t].children + [c])];
            Models(h', t, v.(kids := v.kids + [w])) && Models(h', c, w) && SameOutside(h, h', t)
  {
    var h' := h[c := Record(NotStarted, w.kind, [])][t := Record(h[t].state, h[t].kind, h[t].children + [c])];
    assert Under(t, t);
    forall i | 0 <= i < |v.kids| ensures Models(h', h[t].children[i], v.kids[i]) && h[t].children[i] in h {
      assert Models(h, h[t].children[i], v.kids[i]);
      ModelsBelow(h, h', t, h[t].children[i], v.kids[i]);
    }
    var kids' := v.kids + [w];
    forall i | 0 <= i < |kids'|
      ensures h'[t].children[i].parent == t && h'[t].children[i].level == t.level + 1 &&
              Models(h', h'[t].children[i], kids'[i])
    {
      if i < |v.kids| { assert h'[t].children[i] == h[t].children[i]; }
    }
  }

  lemma {:induction false} CurrentLevel(h: Records, t: Tracker, v: Tree, depth: nat, c: Tracker)
    requires Models(h, t, v) && CurrentAt(h, t, depth, c)
    ensures c.level == t.level + depth && Under(c, t) && c in h
    decreases depth
  {
    if depth > 0 {
      var s := h[t].children[0];
      CurrentLevel(h, s, v.kids[0], depth - 1, c);
      assert Under(s, t) by { assert Under(s.parent, t); }
      UnderTransitive(c, s, t);
    }
  }

  lemma SameOutsideWider(h: Records, h': Records, s: Tracker, t: Tracker)
    requires SameOutside(h, h', s) && Under(s, t)
    ensures SameOutside(h, h', t)
  {
    forall x | x in h && !Under(x, t) ensures h'[x] == h[x] {
      if Under(x, s) { UnderTransitive(x, s, t); }
    }
  }

  lemma ParentKept(h: Records, h': Records, t: Tracker)
    requires SameOutside(h, h', t) && Linked(t) && t.parent != null && t.parent in h
    ensures h'[t.parent] == h[t.parent]
  {
    if Under(t.parent, t) { UnderLevel(t.parent, t); }
  }

  lemma SameOutsideItself(h: Records, s: Tracker)
    ensures SameOutside(h, h, s)
  {
  }

  lemma SameOutsideTransitive(h: Records, h': Records, h'': Records, s: Tracker)
    requires SameOutside(h, h', s) && SameOutside(h', h'', s)
    ensures SameOutside(h, h'', s)
  {
  }

  // ----- The deepest open generator -----

  function DeepestOf(depth: nat, t: Tree): (r: Tree)
    requires OpenChain(depth, t.kids)
    ensures 0 < depth ==> r.kind.GeneratorKind? && Closable(r.state)
    decreases depth
  {
    if depth == 0 then t else DeepestOf(depth - 1, t.kids[0])
  }

  function ReplaceDeepest(depth: nat, t: Tree, w: Tree): (r: Tree)
    requires OpenChain(depth, t.kids)
    decreases depth
  {
    if depth == 0 then w else t.(kids := [ReplaceDeepest(depth - 1, t.kids[0], w)])
  }

  /** Closing the generators one by one from the innermost is closing the chain. */
  lemma {:induction false} CloseDeepest(depth: nat, t: Tree)
    requires OpenChain(depth, t.kids) && 0 < depth
    ensures var r := ReplaceDeepest(depth, t, CloseGenerator(DeepestOf(depth, t)));
            OpenChain(depth - 1, r.kids) && CloseChain(depth - 1, r.kids) == CloseChain(depth, t.kids) &&
            r.at == t.at && r.kind == t.kind && r.state == t.state
    decreases depth
  {
    if depth == 1 {
      assert t.kids[0].(kids := CloseChain(0, t.kids[0].kids)) == t.kids[0];
    } else {
      CloseDeepest(depth - 1, t.kids[0]);
    }
  }

  lemma {:induction false} ModelsDeepest(h: Records, t: Tracker, v: Tree, depth: nat, c: Tracker)
    requires Models(h, t, v) && CurrentAt(h, t, depth, c) && OpenChain(depth, v.kids)
    ensures Models(h, c, DeepestOf(depth, v))
    ensures 0 < depth ==> c.parent != null && c.parent in h && c.parent.level + 1 == c.level
    ensures 0 < depth ==> CurrentAt(h, t, depth - 1, c.parent)
    decreases depth
  {
    if depth > 0 { ModelsDeepest(h, h[t].children[0], v.kids[0], depth - 1, c); }
  }

  lemma {:induction false} ModelsDeepestReplaced(
    h: Records, h': Records, t: Tracker, v: Tree, depth: nat, c: Tracker, w: Tree)
    requires Models(h, t, v) && CurrentAt(h, t, depth, c) && OpenChain(depth, v.kids)
    requires Models(h', c, w) && SameOutside(h, h', c)
    ensures Models(h', t, ReplaceDeepest(depth, v, w))
    ensures 0 < depth ==> c.parent != null && CurrentAt(h', t, depth - 1, c.parent)
    decreases depth
  {
    if depth > 0 {
      var s := h[t].children[0];
      ModelsDeepestReplaced(h, h', s, v.kids[0], depth - 1, c, w);
      CurrentLevel(h, s, v.kids[0], depth - 1, c);
      if Under(t, c) { UnderLevel(t, c); }
      forall x | x in h && x != t && !Under(x, s) ensures h'[x] == h[x] {
        if Under(x, c) { UnderTransitive(x, c, s); }
      }
      ModelsChild(h, h', t, v, 0, ReplaceDeepest(depth - 1, v.kids[0], w));
      assert v.kids[0 := ReplaceDeepest(depth - 1, v.kids[0], w)] == [ReplaceDeepest(depth - 1, v.kids[0], w)];
      ModelsDeepest(h, t, v, depth, c);
    }
  }

  /** What closing the deepest open generator leaves of the tracker above. */
  lemma ClosedDeepest(h: Records, h': Records, t: Tracker, v: Tree, depth: nat, c: Tracker)
    requires Models(h, t, v) && CurrentAt(h, t, depth, c) && OpenChain(depth, v.kids) && 0 < depth
    requires Models(h', c, CloseGenerator(DeepestOf(depth, v))) && SameOutside(h, h', c)
    ensures var r := ReplaceDeepest(depth, v, CloseGenerator(DeepestOf(depth, v)));
            OpenChain(depth - 1, r.kids) && CloseChain(depth - 1, r.kids) == CloseChain(depth, v.kids) &&
            r.at == v.at && r.kind == v.kind && r.state == v.state &&
            Models(h', t, r) && c.parent != null && CurrentAt(h', t, depth - 1, c.parent)
    ensures SameOutside(h, h', t)
  {
    ModelsDeepestReplaced(h, h', t, v, depth, c, CloseGenerator(DeepestOf(depth, v)));
    CloseDeepest(depth, v);
    CurrentLevel(h, t, v, depth, c);
    SameOutsideWider(h, h', c, t);
  }

  /** Below the tracker that closes its children there is an open generator, or it is current itself. */
  lemma DeepestIsOpen(h: Records, t: Tracker, v: Tree, depth: nat, c: Tracker)
    requires Models(h, t, v) && CurrentAt(h, t, depth, c) && OpenChain(depth, v.kids)
    ensures c in h && (c == t <==> depth == 0) && (depth == 0 ==> CloseChain(depth, v.kids) == v.kids)
    ensures 0 < depth ==>
      var w := DeepestOf(depth, v);
      c.parent != null && Models(h, c, w) && w.kind.GeneratorKind? && Closable(w.state) && OpenChain(0, w.kids) &&
      CurrentAt(h, c, 0, c) && AdvanceGenerator(CloseSection(0, w)) == CloseGenerator(w)
  {
    CurrentLevel(h, t, v, depth, c);
    ModelsDeepest(h, t, v, depth, c);
    hide Models, Under;
    if depth > 0 {
      var w := DeepestOf(depth, v);
      assert w.(kids := CloseChain(0, w.kids)) == w;
    }
  }

  // ----- The objects -----

  /** A section tracker or a generator tracker; the latter holds the index of its generator's value. */
  class Tracker {
    const at: NameAndLocation
    const parent: Tracker?
    ghost const level: nat
    const isGenerator: bool
    const size: Count
    var position: nat
    var children: seq<Tracker>
    var runState: CycleState

    constructor (at: NameAndLocation, parent: Tracker?, isGenerator: bool, size: Count)
      ensures this.at == at && this.parent == parent && this.isGenerator == isGenerator && this.size == size
      ensures level == if parent == null then 0 else parent.level + 1
      ensures position == 0 && children == [] && runState == NotStarted
    {
      this.at, this.parent, this.isGenerator, this.size := at, parent, isGenerator, size;
      this.level := if parent == null then 0 else parent.level + 1;
      position, children, runState := 0, [], NotStarted;
    }

    ghost function Held(): Record
      reads this
    {
      Record(runState, if isGenerator then GeneratorKind(size, position) else SectionKind, children)
    }

    predicate IsOpen()
      reads this
    {
      runState != NotStarted && !IsComplete(runState)
    }

    method FindChild(wanted: NameAndLocation) returns (found: Tracker?)
      ensures found == null <==> forall i :: 0 <= i < |children| ==> children[i].at != wanted
      ensures found != null ==> FirstNamed(children, wanted, found)
    {
      for i := 0 to |children|
        invariant forall j :: 0 <= j < i ==> children[j].at != wanted
      {
        if children[i].at == wanted { return children[i]; }
      }
      return null;
    }

    /** Marks this tracker as executing a child, and those above it up to one that is marked already. */
    method OpenChild(ctx: TrackerContext)
      requires MarksWithin(ctx.Heap(), this)
      modifies ctx.all
      ensures ctx.Heap() == MarkUp(old(ctx.Heap()), this)
      decreases level
    {
      ghost var h := ctx.Heap();
      if runState != ExecutingChildren {
        runState := ExecutingChildren;
        ghost var h1 := h[this := h[this].(state := ExecutingChildren)];
        assert ctx.Heap() == h1;
        if parent != null {
          MarkUpAside(h, this, h1[this], parent);
          parent.OpenChild(ctx);
        }
      }
    }

    method Open(ctx: TrackerContext)
      requires this in ctx.all && parent != null && parent.level < level && MarksWithin(ctx.Heap(), parent)
      modifies ctx`currentTracker, ctx.all
      ensures ctx.currentTracker == this
      ensures ctx.Heap() == MarkUp(old(ctx.Heap()), parent)[this := old(Held()).(state := Executing)]
    {
      ghost var h := ctx.Heap();
      runState := Executing;
      ctx.currentTracker := this;
      assert ctx.Heap() == h[this := Held()];
      MarkUpAside(h, this, Held(), parent);
      parent.OpenChild(ctx);
    }

    /** Closes the generators still open below this tracker, innermost first. */
    method CloseOpenChildren(ctx: TrackerContext, ghost depth: nat, ghost v: Tree)
      requires this in ctx.all
      requires Models(ctx.Heap(), this, v)
      requires OpenChain(depth, v.kids) && CurrentAt(ctx.Heap(), this, depth, ctx.currentTracker)
      modifies ctx`currentTracker, ctx`cycleCompleted, ctx.all
      ensures ctx.currentTracker == this
      ensures Models(ctx.Heap(), this, v.(kids := CloseChain(depth, v.kids)))
      ensures SameOutside(old(ctx.Heap()), ctx.Heap(), this)
      decreases depth, 0
    {
      hide Models, Under, SameOutside, CurrentAt, OpenChain, CloseChain, CloseSection, AdvanceGenerator, CloseGenerator;
      hide DeepestOf, ReplaceDeepest;
      ghost var k: nat, w := depth, v;
      ghost var h0 := ctx.Heap();
      SameOutsideItself(h0, this);
      DeepestIsOpen(h0, this, w, k, ctx.currentTracker);
      while ctx.currentTracker != this
        invariant k <= depth && OpenChain(k, w.kids) && CloseChain(k, w.kids) == CloseChain(depth, v.kids)
        invariant w.at == v.at && w.kind == v.kind && w.state == v.state
        invariant Models(ctx.Heap(), this, w) && CurrentAt(ctx.Heap(), this, k, ctx.currentTracker)
        invariant SameOutside(h0, ctx.Heap(), this)
        invariant this in ctx.all && ctx.all == old(ctx.all)
        decreases k
      {
        ghost var h, c := ctx.Heap(), ctx.currentTracker;
        DeepestIsOpen(h, this, w, k, c);
        Modelled(h, c, DeepestOf(k, w));
        ctx.currentTracker.Close(ctx, 0, DeepestOf(k, w));
        ClosedDeepest(h, ctx.Heap(), this, w, k, c);
        SameOutsideTransitive(h0, h, ctx.Heap(), this);
        w := ReplaceDeepest(k, w, CloseGenerator(DeepestOf(k, w)));
        k := k - 1;
      }
      DeepestIsOpen(ctx.Heap(), this, w, k, this);
    }

    method AllChildrenComplete(ctx: TrackerContext, ghost v: Tree) returns (complete: bool)
      requires Models(ctx.Heap(), this, v)
      ensures complete <==> AllComplete(v.kids)
    {
      complete := forall i | 0 <= i < |children| :: IsComplete(children[i].runState);
      ghost var h := ctx.Heap();
      assert forall i :: 0 <= i < |v.kids| ==> h[children[i]].state == v.kids[i].state;
    }

    method CloseBase(ctx: TrackerContext, ghost depth: nat, ghost v: Tree)
      requires this in ctx.all && parent != null
      requires Models(ctx.Heap(), this, v) && Closable(v.state)
      requires OpenChain(depth, v.kids) && CurrentAt(ctx.Heap(), this, depth, ctx.currentTracker)
      modifies ctx`currentTracker, ctx`cycleCompleted, ctx.all
      ensures ctx.currentTracker == parent && ctx.cycleCompleted
      ensures Models(ctx.Heap(), this, CloseSection(depth, v))
      ensures SameOutside(old(ctx.Heap()), ctx.Heap(), this)
      decreases depth, 1
    {
      hide Models, Under, SameOutside, CurrentAt, OpenChain, CloseChain;
      ghost var h0 := ctx.Heap();
      ghost var w := v.(kids := CloseChain(depth, v.kids));
      assert CloseSection(depth, v) == TrackerModel.CloseBase(w);
      CloseOpenChildren(ctx, depth, v);
      ghost var h1 := ctx.Heap();
      Settle(ctx, w);
      ghost var h2 := ctx.Heap();
      SameOutsideTransitive(h0, h1, h2, this);
      ctx.currentTracker := parent;
      ctx.cycleCompleted := true;
      assert ctx.Heap() == h2;
    }

    method Settle(ctx: TrackerContext, ghost w: Tree)
      requires this in ctx.all && Models(ctx.Heap(), this, w) && Closable(w.state)
      modifies this`runState
      ensures Models(ctx.Heap(), this, TrackerModel.CloseBase(w))
      ensures SameOutside(old(ctx.Heap()), ctx.Heap(), this)
    {
      ghost var h := ctx.Heap();
      match runState {
        case NeedsAnotherRun =>
        case Executing =>
          runState := CompletedSuccessfully;
        case ExecutingChildren =>
          var complete := AllChildrenComplete(ctx, w);
          if complete { runState := CompletedSuccessfully; }
        case NotStarted | CompletedSuccessfully | Failed =>
          assert false;
      }
      assert ctx.Heap() == h[this := Record(runState, w.kind, children)];
      ModelsSelf(h, this, w, runState, w.kind);
      assert Under(this, this);
    }

    method Close(ctx: TrackerContext, ghost depth: nat, ghost v: Tree)
      requires this in ctx.all && parent != null
      requires Models(ctx.Heap(), this, v) && Closable(v.state)
      requires OpenChain(depth, v.kids) && CurrentAt(ctx.Heap(), this, depth, ctx.currentTracker)
      modifies ctx`currentTracker, ctx`cycleCompleted, ctx.all
      ensures ctx.currentTracker == parent && ctx.cycleCompleted
      ensures Models(ctx.Heap(), this,
                if isGenerator then AdvanceGenerator(CloseSection(depth, v)) else CloseSection(depth, v))
      ensures SameOutside(old(ctx.Heap()), ctx.Heap(), this)
      decreases depth, 2
    {
      ghost var h0 := ctx.Heap();
      CloseBase(ctx, depth, v);
      if isGenerator {
        ghost var h1 := ctx.Heap();
        Advance(ctx, CloseSection(depth, v));
        SameOutsideTransitive(h0, h1, ctx.Heap(), this);
      }
    }

    /** A generator waits for a child that has not started, and otherwise moves on if it succeeded. */
    method Advance(ctx: TrackerContext, ghost c: Tree)
      requires this in ctx.all && Models(ctx.Heap(), this, c) && isGenerator
      modifies this`position, this`children, this`runState
      ensures Models(ctx.Heap(), this, AdvanceGenerator(c))
      ensures SameOutside(old(ctx.Heap()), ctx.Heap(), this)
    {
      var shouldWaitForChild := children != [] && forall i | 0 <= i < |children| :: children[i].runState == NotStarted;
      assert shouldWaitForChild <==> ShouldWaitForChild(c);
      if shouldWaitForChild {
        children, runState := [], Executing;
      } else if runState == CompletedSuccessfully && position + 1 < size {
        position := position + 1;
        children, runState := [], Executing;
      }
    }

    method Fail(ctx: TrackerContext)
      requires this in ctx.all && parent != null && parent in ctx.all && parent != this
      modifies ctx`currentTracker, ctx`cycleCompleted, ctx.all
      ensures ctx.currentTracker == parent && ctx.cycleCompleted
      ensures ctx.Heap() == old(ctx.Heap())[this := old(Held()).(state := Failed)]
                                           [parent := old(parent.Held()).(state := NeedsAnotherRun)]
    {
      runState := Failed;
      parent.runState := NeedsAnotherRun;
      ctx.currentTracker := parent;
      ctx.cycleCompleted := true;
    }
  }

  /** Where a generator is looked for. */
  function Searched(current: Tracker, wanted: NameAndLocation): (t: Tracker)
    requires current.at == wanted ==> current.parent != null
  {
    if current.at == wanted then current.parent else current
  }

  ghost predicate FirstNamed(children: seq<Tracker>, wanted: NameAndLocation, g: Tracker) {
    exists i :: 0 <= i < |children| && children[i] == g && g.at == wanted && forall j :: 0 <= j < i ==> children[j].at != wanted
  }

  class TrackerContext {
    const rootTracker: Tracker
    var currentTracker: Tracker
    var cycleCompleted: bool
    ghost var all: set<Tracker>

    ghost function Heap(): Records
      reads `all, all
    {
      map x | x in all :: x.Held()
    }

    constructor (root: NameAndLocation)
      ensures fresh(all) && all == {rootTracker} && currentTracker == rootTracker
      ensures Models(Heap(), rootTracker, Fresh(root, SectionKind)) && rootTracker.parent == null
    {
      rootTracker := new Tracker(root, null, false, 1);
      currentTracker := rootTracker;
      cycleCompleted := false;
      all := {rootTracker};
    }

    /** Looks for the generator's tracker below the current one, and opens it unless it is complete.  In a loop the
        current tracker is itself the one that is wanted, and is found below its parent. */
    method AcquireGenerator(wanted: NameAndLocation) returns (g: Tracker?)
      requires currentTracker in all && (currentTracker.at == wanted ==> currentTracker.parent != null && currentTracker in currentTracker.parent.children)
      requires var from := Searched(currentTracker, wanted);
               MarksWithin(Heap(), from) && forall x :: x in from.children ==> x in all && x.parent == from && from.level < x.level
      modifies `currentTracker, all
      ensures g == null <==> forall i :: 0 <= i < |old(Searched(currentTracker, wanted).children)| ==> old(Searched(currentTracker, wanted).children)[i].at != wanted
      ensures g != null ==> FirstNamed(old(Searched(currentTracker, wanted).children), wanted, g)
      ensures g == null || old(IsComplete(g.runState)) ==> currentTracker == old(currentTracker) && Heap() == old(Heap())
      ensures g != null && !old(IsComplete(g.runState)) ==>
        currentTracker == g && MarksWithin(old(Heap()), g.parent) &&
        Heap() == MarkUp(old(Heap()), g.parent)[g := old(g.Held()).(state := Executing)]
    {
      if currentTracker.at == wanted {
        g := currentTracker.parent.FindChild(wanted);
        assert g != null;
      } else {
        g := currentTracker.FindChild(wanted);
        if g == null { return; }
      }
      if !IsComplete(g.runState) { g.Open(this); }
    }

    method StartCycle()
      modifies this`currentTracker, this`cycleCompleted
      ensures currentTracker == rootTracker && !cycleCompleted
    {
      currentTracker := rootTracker;
      cycleCompleted := false;
    }
  }
}
