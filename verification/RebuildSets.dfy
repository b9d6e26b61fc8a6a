/** Which projects must be rebuilt, fully or lightly. */
module RebuildSets {
  import opened Reachability
  import opened Sequences
  import opened ProjectConfig

  /** dependency -> (dependent, requires a full rebuild) */
  type ReverseGraph = map<Key, seq<(Key, bool)>>

  function Dependents(graph: ReverseGraph, key: Key): seq<(Key, bool)> {
    if key in graph then graph[key] else []
  }

  ghost predicate DependsOn(p: Project, dep: Key, full: bool) {
    if full then dep in p.fullDependencies
    else dep in p.liteDependencies || dep in p.transitiveLiteDependencies
  }

  ghost predicate Has(graph: ReverseGraph, dep: Key, k: Key, full: bool) {
    (k, full) in Dependents(graph, dep)
  }

  /** An entry for every dependency of every project, and nothing else. */
  ghost predicate IsReverse(c: Config, graph: ReverseGraph) {
    forall dep, k, full :: Has(graph, dep, k, full) <==> k in c.projects && DependsOn(c.projects[k], dep, full)
  }

  lemma EntryAdded(graph: ReverseGraph, d: Key, key: Key, full: bool)
    ensures var r := graph[d := Dependents(graph, d) + [(key, full)]];
            forall dep, k, f :: Has(r, dep, k, f) <==> Has(graph, dep, k, f) || (dep == d && k == key && f == full)
  {
    var r := graph[d := Dependents(graph, d) + [(key, full)]];
    forall dep, k, f ensures Has(r, dep, k, f) <==> Has(graph, dep, k, f) || (dep == d && k == key && f == full) {
      if dep == d {
        assert Dependents(r, dep) == Dependents(graph, d) + [(key, full)];
        assert (k, f) == (key, full) <==> k == key && f == full;
      }
    }
  }

  method AddDependents(graph: ReverseGraph, key: Key, deps: seq<Key>, full: bool) returns (r: ReverseGraph)
    ensures forall dep, k, f :: Has(r, dep, k, f) <==> Has(graph, dep, k, f) || (k == key && f == full && dep in deps)
  {
    r := graph;
    for i := 0 to |deps|
      invariant forall dep, k, f :: Has(r, dep, k, f) <==>
        Has(graph, dep, k, f) || (k == key && f == full && dep in deps[..i])
    {
      hide Has;
      TakeOneMore(deps, i);
      EntryAdded(r, deps[i], key, full);
      r := r[deps[i] := Dependents(r, deps[i]) + [(key, full)]];
    }
    TakeAll(deps);
  }

  method AddProject(graph: ReverseGraph, project: Project) returns (r: ReverseGraph)
    ensures forall dep, k, f :: Has(r, dep, k, f) <==>
      Has(graph, dep, k, f) || (k == project.key && DependsOn(project, dep, f))
  {
    hide Has;
    r := AddDependents(graph, project.key, project.fullDependencies, true);
    r := AddDependents(r, project.key, project.liteDependencies, false);
    r := AddDependents(r, project.key, project.transitiveLiteDependencies, false);
  }

  method BuildReverseDependencyGraph(c: Config) returns (graph: ReverseGraph)
    requires Valid(c)
    ensures IsReverse(c, graph)
  {
    graph := map[];
    for i := 0 to |c.projectKeys|
      invariant forall dep, k, full :: Has(graph, dep, k, full) <==>
        k in c.projects && k in c.projectKeys[..i] && DependsOn(c.projects[k], dep, full)
    {
      hide Has, DependsOn;
      TakeOneMore(c.projectKeys, i);
      graph := AddProject(graph, c.projects[c.projectKeys[i]]);
    }
    TakeAll(c.projectKeys);
  }

  // ----- Propagation -----

  function ReverseEdges(graph: ReverseGraph): Edges {
    set dep, e | dep in graph && e in graph[dep] :: (dep, e.0)
  }

  lemma ReverseEdge(graph: ReverseGraph, dep: Key, k: Key)
    ensures (dep, k) in ReverseEdges(graph) <==> (k, true) in Dependents(graph, dep) || (k, false) in Dependents(graph, dep)
  {
    if (dep, k) in ReverseEdges(graph) {
      var e :| e in Dependents(graph, dep) && e.0 == k;
      if e.1 { assert e == (k, true); } else { assert e == (k, false); }
    }
    forall full | (k, full) in Dependents(graph, dep) ensures (dep, k) in ReverseEdges(graph) {
      var e := (k, full);
      assert dep in graph && e in graph[dep] && (dep, e.0) == (dep, k);
    }
  }

  /** A full dependent of a project that was dirty to begin with. */
  ghost predicate FullDependent(graph: ReverseGraph, initial: seq<Key>, d: Key) {
    exists c :: c in initial && (d, true) in Dependents(graph, c)
  }

  ghost predicate Downstream(graph: ReverseGraph, initial: seq<Key>, d: Key) {
    exists c :: c in initial && Reaches(ReverseEdges(graph), c, d)
  }

  function AtDepthZero(keys: seq<Key>): (r: seq<(Key, nat)>)
    ensures |r| == |keys| && forall i :: 0 <= i < |keys| ==> r[i] == (keys[i], 0)
  {
    seq(|keys|, i requires 0 <= i < |keys| => (keys[i], 0))
  }

  ghost predicate Queued(queue: seq<(Key, nat)>, k: Key) {
    exists i :: 0 <= i < |queue| && queue[i].0 == k
  }

  /** The keys any search can meet. */
  function Known(graph: ReverseGraph, initial: seq<Key>): set<Key> {
    (set k | k in initial) + (set dep, e | dep in graph && e in graph[dep] :: e.0)
  }

  /** Everything marked so far is rightly marked; `full` is complete for the initial keys done so far. */
  ghost predicate Sound(graph: ReverseGraph, initial: seq<Key>, full: set<Key>, lite: set<Key>) {
    (forall d :: d in full ==> d in initial || FullDependent(graph, initial, d)) &&
    (forall d :: d in lite ==> Downstream(graph, initial, d)) &&
    (forall d :: d in initial ==> d in full) && full !! lite
  }

  /** Dependents of a project already handled are marked, fully if the project was dirty to begin with. */
  ghost predicate Closed(graph: ReverseGraph, done: set<Key>, first: seq<Key>, full: set<Key>, lite: set<Key>) {
    (forall c, e :: c in done && e in Dependents(graph, c) ==> e.0 in full || e.0 in lite) &&
    (forall c, e :: c in first && e in Dependents(graph, c) && e.1 ==> e.0 in full)
  }

  lemma DownstreamStep(graph: ReverseGraph, initial: seq<Key>, current: Key, e: (Key, bool))
    requires current in initial || Downstream(graph, initial, current)
    requires e in Dependents(graph, current)
    ensures Downstream(graph, initial, e.0)
  {
    var edges := ReverseEdges(graph);
    assert (e.0, e.1) in Dependents(graph, current);
    ReverseEdge(graph, current, e.0);
    ReachesStep(edges, current, e.0);
    if current !in initial {
      var c :| c in initial && Reaches(edges, c, current);
      ReachesTransitive(edges, c, current, e.0);
    }
  }

  lemma FullIsDownstream(graph: ReverseGraph, initial: seq<Key>, d: Key)
    requires FullDependent(graph, initial, d)
    ensures Downstream(graph, initial, d)
  {
    var c :| c in initial && (d, true) in Dependents(graph, c);
    DownstreamStep(graph, initial, c, (d, true));
  }

  ghost predicate Marked(queue: seq<(Key, nat)>, seen: set<(Key, nat)>, full: set<Key>, lite: set<Key>) {
    (forall i :: 0 <= i < |queue| ==> queue[i].0 in full + lite) && (forall e :: e in seen ==> e.0 in full + lite)
  }

  /** Every marked project has been handled or waits in the queue. */
  ghost predicate Handled(queue: seq<(Key, nat)>, done: set<Key>, full: set<Key>, lite: set<Key>) {
    forall k :: k in full + lite ==> k in done || Queued(queue, k)
  }

  /** These dependents of a project at this depth are marked. */
  ghost predicate Covered(dependents: seq<(Key, bool)>, depth: nat, full: set<Key>, lite: set<Key>) {
    (forall e :: e in dependents ==> e.0 in full + lite) &&
    (depth == 0 ==> forall e :: e in dependents && e.1 ==> e.0 in full)
  }

  /** One project more is marked, fully or lightly; marks are only ever raised from light to full. */
  ghost predicate Raised(full: set<Key>, lite: set<Key>, full': set<Key>, lite': set<Key>, d: Key) {
    (full' == full + {d} && lite' == lite - {d}) || (full' == full && d !in full && lite' == lite + {d})
  }

  lemma SoundStep(graph: ReverseGraph, initial: seq<Key>, current: Key, depth: nat, e: (Key, bool),
                  full: set<Key>, lite: set<Key>, full': set<Key>, lite': set<Key>)
    requires Sound(graph, initial, full, lite) && Raised(full, lite, full', lite', e.0)
    requires current in full + lite && (depth == 0 ==> current in initial)
    requires e in Dependents(graph, current)
    requires full' == full || (e.1 && depth == 0)
    ensures Sound(graph, initial, full', lite')
  {
    hide Reaches;
    if current in full && current !in initial { FullIsDownstream(graph, initial, current); }
    DownstreamStep(graph, initial, current, e);
    if e.1 && depth == 0 { assert e == (e.0, true) && FullDependent(graph, initial, e.0); }
  }

  lemma MarkedStep(queue: seq<(Key, nat)>, seen: set<(Key, nat)>, full: set<Key>, lite: set<Key>,
                   full': set<Key>, lite': set<Key>, e: (Key, nat))
    requires Marked(queue, seen, full, lite) && Raised(full, lite, full', lite', e.0)
    ensures Marked(queue, seen, full', lite') && Marked(queue + [e], seen + {e}, full', lite')
  {
  }

  lemma HandledStep(queue: seq<(Key, nat)>, seen: set<(Key, nat)>, done: set<Key>, full: set<Key>, lite: set<Key>,
                    full': set<Key>, lite': set<Key>, e: (Key, nat))
    requires Handled(queue, done, full, lite) && Raised(full, lite, full', lite', e.0)
    requires Marked(queue, seen, full, lite)
    ensures if e in seen then Handled(queue, done, full', lite') else Handled(queue + [e], done, full', lite')
  {
    Enqueue(queue, e);
  }

  lemma NothingCovered(depth: nat, full: set<Key>, lite: set<Key>)
    ensures Covered([], depth, full, lite)
  {
  }

  lemma CoveredStep(dependents: seq<(Key, bool)>, i: nat, depth: nat,
                    full: set<Key>, lite: set<Key>, full': set<Key>, lite': set<Key>)
    requires i < |dependents| && Covered(dependents[..i], depth, full, lite)
    requires (full' == full && lite' == lite && dependents[i].0 in full + lite) ||
             Raised(full, lite, full', lite', dependents[i].0)
    requires depth == 0 && dependents[i].1 ==> dependents[i].0 in full'
    ensures Covered(dependents[..i + 1], depth, full', lite')
  {
    TakeOneMore(dependents, i);
  }

  /** Marks the dependents of one project and queues those newly marked. */
  method MarkDependents(
    graph: ReverseGraph, initial: seq<Key>, current: Key, depth: nat, ghost done: set<Key>,
    full0: set<Key>, lite0: set<Key>, queue0: seq<(Key, nat)>, seen0: set<(Key, nat)>)
    returns (full: set<Key>, lite: set<Key>, queue: seq<(Key, nat)>, seen: set<(Key, nat)>, ghost added: seq<(Key, nat)>)
    requires Sound(graph, initial, full0, lite0) && Marked(queue0, seen0, full0, lite0)
    requires Handled(queue0, done, full0, lite0)
    requires current in full0 + lite0 && (depth == 0 ==> current in initial)
    ensures Sound(graph, initial, full, lite) && Marked(queue, seen, full, lite) && Handled(queue, done, full, lite)
    ensures Covered(Dependents(graph, current), depth, full, lite)
    ensures full0 <= full && full0 + lite0 <= full + lite
    ensures queue == queue0 + added && forall i :: 0 <= i < |added| ==> added[i].1 > 0
    ensures full + lite == full0 + lite0 ==> lite <= lite0 && (lite == lite0 ==> added == [])
    ensures full + lite <= full0 + lite0 + (set e | e in Dependents(graph, current) :: e.0)
  {
    hide Sound, Marked, Handled, Covered, Dependents;
    full, lite, queue, seen, added := full0, lite0, queue0, seen0, [];
    var dependents := Dependents(graph, current);
    NothingCovered(depth, full, lite);
    for i := 0 to |dependents|
      invariant Sound(graph, initial, full, lite) && Marked(queue, seen, full, lite) && Handled(queue, done, full, lite)
      invariant Covered(dependents[..i], depth, full, lite)
      invariant full0 <= full && full0 + lite0 <= full + lite
      invariant queue == queue0 + added && forall i :: 0 <= i < |added| ==> added[i].1 > 0
      invariant full + lite == full0 + lite0 ==> lite <= lite0 && (lite == lite0 ==> added == [])
      invariant full + lite <= full0 + lite0 + (set e | e in dependents :: e.0)
    {
      var (dependent, edgeFull) := dependents[i];
      ghost var full1, lite1 := full, lite;
      var propagateFull := edgeFull && depth == 0;
      if propagateFull {
        if dependent in full {
          CoveredStep(dependents, i, depth, full, lite, full, lite);
          continue;
        }
        if dependent in lite { lite := lite - {dependent}; }
        full := full + {dependent};
      } else {
        if dependent in full || dependent in lite {
          CoveredStep(dependents, i, depth, full, lite, full, lite);
          continue;
        }
        lite := lite + {dependent};
      }
      assert Raised(full1, lite1, full, lite, dependent);
      var key: (Key, nat) := (dependent, depth + 1);
      SoundStep(graph, initial, current, depth, dependents[i], full1, lite1, full, lite);
      CoveredStep(dependents, i, depth, full1, lite1, full, lite);
      MarkedStep(queue, seen, full1, lite1, full, lite, key);
      HandledStep(queue, seen, done, full1, lite1, full, lite, key);
      if key !in seen {
        seen := seen + {key};
        queue := queue + [key];
        added := added + [key];
      }
    }
    TakeAll(dependents);
  }

  method PropagateDirtyProjects(initialFull: seq<Key>, graph: ReverseGraph) returns (fullSet: set<Key>, liteSet: set<Key>)
    ensures forall d :: d in fullSet <==> d in initialFull || FullDependent(graph, initialFull, d)
    ensures forall d :: d in liteSet <==> d !in fullSet && Downstream(graph, initialFull, d)
  {
    hide Closed, Handled, Sound, Known, Marked, Covered, FullDependent, Downstream, Dependents;
    fullSet := set k | k in initialFull;
    liteSet := {};
    var queue: seq<(Key, nat)> := AtDepthZero(initialFull);
    var seen: set<(Key, nat)> := set e | e in queue;
    ghost var known, done: set<Key>, j := Known(graph, initialFull), {}, 0;
    Start(graph, initialFull, fullSet, queue);
    while queue != []
      invariant Layered(initialFull, j, queue)
      invariant Sound(graph, initialFull, fullSet, liteSet) && Marked(queue, seen, fullSet, liteSet)
      invariant Handled(queue, done, fullSet, liteSet)
      invariant Closed(graph, done, initialFull[..j], fullSet, liteSet)
      decreases known - (fullSet + liteSet), liteSet, |queue|
    {
      hide Layered;
      var (current, depth) := queue[0];
      ghost var full0, lite0 := fullSet, liteSet;
      ghost var added;
      HandledOne(queue, done, fullSet, liteSet);
      Dequeue(initialFull, j, queue);
      MarkedOne(queue, seen, fullSet, liteSet);
      fullSet, liteSet, queue, seen, added :=
        MarkDependents(graph, initialFull, current, depth, done + {current}, fullSet, liteSet, queue[1..], seen);
      ClosedStep(graph, done, initialFull, j, current, depth, full0, lite0, fullSet, liteSet);
      Shrinks(graph, initialFull, current, full0, lite0, fullSet, liteSet);
      done := done + {current};
      j := if depth == 0 then j + 1 else j;
    }
    TakeAll(initialFull);
    Finish(graph, initialFull, done, fullSet, liteSet);
  }

  /** What remains unmarked gets smaller, or stays the same. */
  lemma Shrinks(graph: ReverseGraph, initial: seq<Key>, current: Key,
                full: set<Key>, lite: set<Key>, full': set<Key>, lite': set<Key>)
    requires full + lite <= full' + lite'
    requires full' + lite' <= full + lite + (set e | e in Dependents(graph, current) :: e.0)
    ensures var known := Known(graph, initial);
            if full' + lite' == full + lite then known - (full' + lite') == known - (full + lite)
            else known - (full' + lite') < known - (full + lite)
  {
    var known := Known(graph, initial);
    forall e | e in Dependents(graph, current) ensures e.0 in known { assert current in graph && e in graph[current]; }
    if d :| d in full' + lite' && d !in full + lite {
      assert d in known - (full + lite) && d !in known - (full' + lite');
    }
  }

  lemma Enqueue(queue: seq<(Key, nat)>, e: (Key, nat))
    ensures forall k :: Queued(queue, k) || k == e.0 ==> Queued(queue + [e], k)
  {
    var q := queue + [e];
    assert q[|queue|] == e;
    forall k | Queued(queue, k) ensures Queued(q, k) {
      var i :| 0 <= i < |queue| && queue[i].0 == k;
      assert q[i].0 == k;
    }
  }

  /** The projects dirty to begin with come before all others; j of them are done. */
  ghost predicate Layered(initial: seq<Key>, j: nat, queue: seq<(Key, nat)>) {
    j <= |initial| && |initial| - j <= |queue| &&
    (forall i :: 0 <= i < |initial| - j ==> queue[i] == (initial[j + i], 0)) &&
    (forall i :: |initial| - j <= i < |queue| ==> queue[i].1 > 0)
  }

  lemma Dequeue(initial: seq<Key>, j: nat, queue: seq<(Key, nat)>)
    requires Layered(initial, j, queue) && queue != []
    ensures if queue[0].1 == 0 then j < |initial| && queue[0].0 == initial[j] else j == |initial|
    ensures forall added: seq<(Key, nat)> :: (forall i :: 0 <= i < |added| ==> added[i].1 > 0) ==>
      Layered(initial, if queue[0].1 == 0 then j + 1 else j, queue[1..] + added)
  {
  }

  lemma MarkedOne(queue: seq<(Key, nat)>, seen: set<(Key, nat)>, full: set<Key>, lite: set<Key>)
    requires queue != [] && Marked(queue, seen, full, lite)
    ensures Marked(queue[1..], seen, full, lite) && queue[0].0 in full + lite
  {
  }

  lemma Start(graph: ReverseGraph, initial: seq<Key>, full: set<Key>, queue: seq<(Key, nat)>)
    requires full == (set k | k in initial) && queue == AtDepthZero(initial)
    ensures Layered(initial, 0, queue) && Sound(graph, initial, full, {}) && Marked(queue, (set e | e in queue), full, {})
    ensures Handled(queue, {}, full, {}) && Closed(graph, {}, initial[..0], full, {})
  {
    forall k | k in full ensures Queued(queue, k) {
      var i :| 0 <= i < |initial| && initial[i] == k;
      assert queue[i].0 == k;
    }
  }

  lemma HandledOne(queue: seq<(Key, nat)>, done: set<Key>, full: set<Key>, lite: set<Key>)
    requires queue != [] && Handled(queue, done, full, lite)
    ensures Handled(queue[1..], done + {queue[0].0}, full, lite)
  {
    forall k | Queued(queue, k) && k != queue[0].0 ensures Queued(queue[1..], k) {
      var i :| 0 <= i < |queue| && queue[i].0 == k;
      assert queue[1..][i - 1].0 == k;
    }
  }

  lemma ClosedStep(graph: ReverseGraph, done: set<Key>, initial: seq<Key>, j: nat, current: Key, depth: nat,
                   full: set<Key>, lite: set<Key>, full': set<Key>, lite': set<Key>)
    requires j <= |initial| && Closed(graph, done, initial[..j], full, lite)
    requires Covered(Dependents(graph, current), depth, full', lite')
    requires full <= full' && full + lite <= full' + lite'
    requires depth == 0 ==> j < |initial| && current == initial[j]
    ensures Closed(graph, done + {current}, initial[..if depth == 0 then j + 1 else j], full', lite')
  {
    if depth == 0 { TakeOneMore(initial, j); }
  }

  /** When the queue is empty, what is marked is everything downstream. */
  lemma Finish(graph: ReverseGraph, initial: seq<Key>, done: set<Key>, full: set<Key>, lite: set<Key>)
    requires Sound(graph, initial, full, lite) && Closed(graph, done, initial, full, lite)
    requires Handled([], done, full, lite)
    ensures forall d :: d in full <==> d in initial || FullDependent(graph, initial, d)
    ensures forall d :: d in lite <==> d !in full && Downstream(graph, initial, d)
  {
    hide Reaches;
    var edges := ReverseEdges(graph);
    forall x, y | x in full + lite && (x, y) in edges ensures y in full + lite {
      ReverseEdge(graph, x, y);
      assert !Queued([], x);
    }
    forall d | Downstream(graph, initial, d) ensures d in full + lite {
      var c :| c in initial && Reaches(edges, c, d);
      ReachesWithin(edges, c, d, full + lite);
    }
    forall d | FullDependent(graph, initial, d) ensures d in full {
      var c :| c in initial && (d, true) in Dependents(graph, c);
    }
  }

  // ----- Statuses -----

  datatype Status = Dirty | DirtyDeps | Clean

  predicate HasDirtyFiles(c: Config, dirtyFiles: map<Key, seq<string>>, k: Key) {
    k in c.projects && k != CORE && k in dirtyFiles && dirtyFiles[k] != []
  }

  /** Reversing the dependencies together with their closure reaches no more than reversing the dependencies. */
  lemma ReverseReaches(c: Config, graph: ReverseGraph, a: Key, b: Key)
    requires IsClosed(c) && IsReverse(c, graph)
    ensures Reaches(ReverseEdges(graph), a, b) <==> Reaches(DependencyEdges(c.projects), b, a)
  {
    var direct := DependencyEdges(c.projects);
    var more := set k, d | k in c.projects && d in c.projects[k].transitiveLiteDependencies :: (k, d);
    assert ReverseEdges(graph) == Inverse(direct + more) by { ReverseEdgesAre(c, graph, direct, more); }
    forall e | e in more ensures Reaches(direct, e.0, e.1) {
      assert IsTransitive(c.projects, e.0, e.1);
    }
    ReachesShortcuts(direct, more, b, a);
    InverseTwice(direct + more);
    if Reaches(ReverseEdges(graph), a, b) { ReachesInverse(Inverse(direct + more), a, b); }
    if Reaches(direct + more, b, a) { ReachesInverse(direct + more, b, a); }
  }

  lemma ReverseEdgesAre(c: Config, graph: ReverseGraph, direct: Edges, more: Edges)
    requires IsReverse(c, graph) && direct == DependencyEdges(c.projects)
    requires more == set k, d | k in c.projects && d in c.projects[k].transitiveLiteDependencies :: (k, d)
    ensures ReverseEdges(graph) == Inverse(direct + more)
  {
    forall dep, k ensures (dep, k) in ReverseEdges(graph) <==> (dep, k) in Inverse(direct + more) {
      ReverseEdge(graph, dep, k);
      assert (dep, k) in ReverseEdges(graph) <==> Has(graph, dep, k, true) || Has(graph, dep, k, false);
      InverseMember(direct + more, dep, k);
      DependencyEdge(c.projects, k, dep);
    }
    assert forall e :: e in ReverseEdges(graph) <==> e in Inverse(direct + more) by {
      forall e ensures e in ReverseEdges(graph) <==> e in Inverse(direct + more) { assert e == (e.0, e.1); }
    }
  }

  /** Dirty: it has dirty files, or it fully depends, directly, on a project that has. */
  ghost predicate IsDirty(c: Config, dirtyFiles: map<Key, seq<string>>, k: Key) {
    k in c.projects &&
    (HasDirtyFiles(c, dirtyFiles, k) ||
     exists d :: d in c.projects[k].fullDependencies && HasDirtyFiles(c, dirtyFiles, d))
  }

  /** Downstream of dirty files: it depends on a project that has them, through any number of others. */
  ghost predicate IsAffected(c: Config, dirtyFiles: map<Key, seq<string>>, k: Key) {
    exists d :: HasDirtyFiles(c, dirtyFiles, d) && Reaches(DependencyEdges(c.projects), k, d)
  }

  /** The projects with dirty files of their own. */
  method InitiallyDirty(c: Config, dirtyFiles: map<Key, seq<string>>) returns (initiallyDirty: seq<Key>)
    requires Valid(c)
    ensures forall k :: k in initiallyDirty <==> HasDirtyFiles(c, dirtyFiles, k)
  {
    initiallyDirty := [];
    for i := 0 to |c.projectKeys|
      invariant forall k :: k in initiallyDirty <==> k in c.projectKeys[..i] && HasDirtyFiles(c, dirtyFiles, k)
    {
      TakeOneMore(c.projectKeys, i);
      var key := c.projectKeys[i];
      if key != CORE && key in dirtyFiles && dirtyFiles[key] != [] { initiallyDirty := initiallyDirty + [key]; }
    }
    TakeAll(c.projectKeys);
  }

  method StatusesOf(c: Config, fullSet: set<Key>, liteSet: set<Key>) returns (statuses: map<Key, Status>)
    requires Valid(c)
    ensures statuses.Keys == c.projects.Keys
    ensures forall k :: k in c.projects ==>
      statuses[k] == if k in fullSet then Dirty else if k in liteSet then DirtyDeps else Clean
  {
    statuses := map[];
    for i := 0 to |c.projectKeys|
      invariant forall k :: k in statuses <==> k in c.projectKeys[..i]
      invariant forall k :: k in statuses ==>
        statuses[k] == if k in fullSet then Dirty else if k in liteSet then DirtyDeps else Clean
    {
      TakeOneMore(c.projectKeys, i);
      var key := c.projectKeys[i];
      statuses := statuses[key := if key in fullSet then Dirty else if key in liteSet then DirtyDeps else Clean];
    }
    TakeAll(c.projectKeys);
  }

  method DetermineRebuildSets(c: Config, dirtyFiles: map<Key, seq<string>>, graph: ReverseGraph)
    returns (statuses: map<Key, Status>, fullSet: set<Key>, liteSet: set<Key>)
    requires Valid(c) && IsClosed(c) && IsReverse(c, graph) && CORE in dirtyFiles
    ensures statuses.Keys == c.projects.Keys && fullSet !! liteSet
    ensures forall k :: k in c.projects ==>
      statuses[k] == if k in fullSet then Dirty else if k in liteSet then DirtyDeps else Clean
    ensures dirtyFiles[CORE] != [] ==> fullSet == c.projects.Keys
    ensures dirtyFiles[CORE] == [] ==> forall k :: k in c.projects ==> (k in fullSet <==> IsDirty(c, dirtyFiles, k))
    ensures dirtyFiles[CORE] == [] ==> forall k :: k in c.projects ==>
      (k in liteSet <==> !IsDirty(c, dirtyFiles, k) && IsAffected(c, dirtyFiles, k))
  {
    if dirtyFiles[CORE] != [] {
      fullSet := set k | k in c.projectKeys;
      liteSet := {};
      statuses := map k | k in c.projectKeys :: Dirty;
      return;
    }
    var initiallyDirty := InitiallyDirty(c, dirtyFiles);
    hide HasDirtyFiles, IsDirty, IsAffected, FullDependent, Downstream, IsClosed, IsReverse;
    fullSet, liteSet := PropagateDirtyProjects(initiallyDirty, graph);
    statuses := StatusesOf(c, fullSet, liteSet);
    forall k | k in c.projects
      ensures k in fullSet <==> IsDirty(c, dirtyFiles, k)
      ensures Downstream(graph, initiallyDirty, k) <==> IsAffected(c, dirtyFiles, k)
    {
      MarksAre(c, dirtyFiles, graph, initiallyDirty, k);
    }
  }

  lemma MarksAre(c: Config, dirtyFiles: map<Key, seq<string>>, graph: ReverseGraph, initial: seq<Key>, k: Key)
    requires Valid(c) && IsClosed(c) && IsReverse(c, graph) && k in c.projects
    requires forall k :: k in initial <==> HasDirtyFiles(c, dirtyFiles, k)
    ensures k in initial || FullDependent(graph, initial, k) <==> IsDirty(c, dirtyFiles, k)
    ensures Downstream(graph, initial, k) <==> IsAffected(c, dirtyFiles, k)
  {
    hide Reaches;
    assert forall d :: Has(graph, d, k, true) <==> d in c.projects[k].fullDependencies;
    if FullDependent(graph, initial, k) {
      var d :| d in initial && (k, true) in Dependents(graph, d);
      assert Has(graph, d, k, true);
    }
    if IsDirty(c, dirtyFiles, k) && k !in initial {
      var d :| d in c.projects[k].fullDependencies && HasDirtyFiles(c, dirtyFiles, d);
      assert Has(graph, d, k, true);
    }
    forall d ensures Reaches(ReverseEdges(graph), d, k) <==> Reaches(DependencyEdges(c.projects), k, d) {
      ReverseReaches(c, graph, d, k);
    }
  }
}
