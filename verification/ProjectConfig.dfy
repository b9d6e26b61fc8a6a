/** Projects, their dependencies, and the closure computed at loading. */
module ProjectConfig {
  import opened Reachability
  import opened Sequences

  const CORE: Key := "core"

  datatype Project = Project(
    key: Key,
    excludeProjectFiles: seq<Key>,
    liteDependencies: seq<Key>,
    fullDependencies: seq<Key>,
    transitiveLiteDependencies: seq<Key>)

  datatype Config = Config(projects: map<Key, Project>, projectKeys: seq<Key>)

  ghost predicate Valid(c: Config) {
    (forall k :: k in c.projects <==> k in c.projectKeys) &&
    (forall k :: k in c.projects ==> c.projects[k].key == k) &&
    (forall i, j :: 0 <= i < j < |c.projectKeys| ==> c.projectKeys[i] != c.projectKeys[j]) &&
    CORE in c.projects
  }

  /** The dependencies written in the configuration, full ones first. */
  function DirectDependencies(projects: map<Key, Project>, key: Key): seq<Key> {
    if key in projects then projects[key].fullDependencies + projects[key].liteDependencies else []
  }

  function DependencyEdges(projects: map<Key, Project>): Edges {
    set k, d | k in projects && d in projects[k].fullDependencies + projects[k].liteDependencies :: (k, d)
  }

  lemma DependencyEdge(projects: map<Key, Project>, k: Key, d: Key)
    ensures (k, d) in DependencyEdges(projects) <==> d in DirectDependencies(projects, k)
  {
  }

  /** The breadth-first search from one project. */
  method Visit(projects: map<Key, Project>, key: Key) returns (visited: set<Key>)
    ensures forall d :: d in visited <==> d != key && Reaches(DependencyEdges(projects), key, d)
  {
    ghost var edges := DependencyEdges(projects);
    ghost var all := set k, d | k in projects && d in DirectDependencies(projects, k) :: d;
    visited := {};
    var queue := DirectDependencies(projects, key);
    forall d | d in queue ensures Reaches(edges, key, d) { DependencyEdge(projects, key, d); ReachesStep(edges, key, d); }
    while queue != []
      invariant visited <= all && key !in visited && forall d :: d in queue ==> d in all
      invariant forall d :: d in visited || d in queue ==> Reaches(edges, key, d)
      invariant forall x, y :: (x == key || x in visited) && (x, y) in edges ==> y == key || y in visited || y in queue
      decreases all - visited, |queue|
    {
      var dep := queue[0];
      assert forall d :: d in queue <==> d == dep || d in queue[1..];
      queue := queue[1..];
      if dep == key || dep in visited { continue; }
      visited := visited + {dep};
      var children := DirectDependencies(projects, dep);
      forall d | d in children ensures Reaches(edges, key, d) && d in all {
        DependencyEdge(projects, dep, d);
        ReachesStep(edges, dep, d);
        ReachesTransitive(edges, key, dep, d);
      }
      forall x, y | (x == key || x in visited) && (x, y) in edges
        ensures y == key || y in visited || y in queue + children
      {
        DependencyEdge(projects, x, y);
      }
      queue := queue + children;
    }
    forall d ensures d in visited <==> d != key && Reaches(edges, key, d) {
      if d != key && Reaches(edges, key, d) { ReachesWithin(edges, key, d, visited + {key}); }
    }
  }

  /** The projects reached from this one, but not named by it. */
  ghost predicate IsTransitive(projects: map<Key, Project>, key: Key, d: Key) {
    d in projects && d != key && Reaches(DependencyEdges(projects), key, d) && d !in DirectDependencies(projects, key)
  }

  method ComputeTransitiveDependencies(c: Config) returns (result: map<Key, seq<Key>>)
    requires Valid(c)
    ensures result.Keys == c.projects.Keys
    ensures forall k, d :: k in c.projects ==> (d in result[k] <==> IsTransitive(c.projects, k, d))
  {
    result := map[];
    for i := 0 to |c.projectKeys|
      invariant forall k :: k in result <==> k in c.projectKeys[..i]
      invariant forall k, d :: k in result ==> (d in result[k] <==> IsTransitive(c.projects, k, d))
    {
      var key := c.projectKeys[i];
      var visited := Visit(c.projects, key);
      var project := c.projects[key];
      var transitive := [];
      for j := 0 to |c.projectKeys|
        invariant forall d :: d in transitive <==> d in c.projectKeys[..j] && IsTransitive(c.projects, key, d)
      {
        var dep := c.projectKeys[j];
        if dep in visited && dep !in project.fullDependencies && dep !in project.liteDependencies {
          transitive := transitive + [dep];
        }
        TakeOneMore(c.projectKeys, j);
      }
      result := result[key := transitive];
      TakeOneMore(c.projectKeys, i);
    }
  }

  /** The configuration with every project's transitive dependencies filled in. */
  ghost predicate IsClosed(c: Config) {
    forall k, d :: k in c.projects ==>
      (d in c.projects[k].transitiveLiteDependencies <==> IsTransitive(c.projects, k, d))
  }

  method Load(raw: Config) returns (c: Config)
    requires Valid(raw)
    ensures Valid(c) && IsClosed(c) && c.projectKeys == raw.projectKeys
    ensures forall k :: k in raw.projects ==>
      c.projects[k] == raw.projects[k].(transitiveLiteDependencies := c.projects[k].transitiveLiteDependencies)
    ensures DependencyEdges(c.projects) == DependencyEdges(raw.projects)
  {
    hide IsTransitive, DependencyEdges;
    var transitive := ComputeTransitiveDependencies(raw);
    var projects := FillIn(raw, transitive);
    c := Config(projects, raw.projectKeys);
    SameTransitive(raw.projects, projects);
  }

  /** The project with its closure filled in, if it is one of those done. */
  function FilledIn(raw: Config, transitive: map<Key, seq<Key>>, done: seq<Key>, k: Key): Project
    requires k in raw.projects && k in transitive
  {
    if k in done then raw.projects[k].(transitiveLiteDependencies := transitive[k]) else raw.projects[k]
  }

  ghost predicate FilledUpTo(raw: Config, transitive: map<Key, seq<Key>>, projects: map<Key, Project>, i: nat)
    requires i <= |raw.projectKeys| && forall k :: k in raw.projects ==> k in transitive
  {
    projects.Keys == raw.projects.Keys &&
    forall k :: k in raw.projects ==> projects[k] == FilledIn(raw, transitive, raw.projectKeys[..i], k)
  }

  lemma NothingFilled(raw: Config, transitive: map<Key, seq<Key>>)
    requires forall k :: k in raw.projects ==> k in transitive
    ensures FilledUpTo(raw, transitive, raw.projects, 0)
  {
  }

  lemma FilledOneMore(raw: Config, transitive: map<Key, seq<Key>>, projects: map<Key, Project>, i: nat)
    requires Valid(raw) && i < |raw.projectKeys| && forall k :: k in raw.projects ==> k in transitive
    requires FilledUpTo(raw, transitive, projects, i)
    ensures var key := raw.projectKeys[i];
            key in projects && key in transitive &&
            FilledUpTo(raw, transitive, projects[key := projects[key].(transitiveLiteDependencies := transitive[key])], i + 1)
  {
    var key := raw.projectKeys[i];
    NotYet(raw, i);
    hide Valid;
    var projects' := projects[key := projects[key].(transitiveLiteDependencies := transitive[key])];
    forall k | k in raw.projects ensures projects'[k] == FilledIn(raw, transitive, raw.projectKeys[..i + 1], k) {
      assert projects[k] == FilledIn(raw, transitive, raw.projectKeys[..i], k);
    }
    assert projects'.Keys == projects.Keys;
  }

  lemma NotYet(raw: Config, i: nat)
    requires Valid(raw) && i < |raw.projectKeys|
    ensures raw.projectKeys[i] in raw.projects && raw.projectKeys[i] !in raw.projectKeys[..i]
    ensures forall k :: k in raw.projectKeys[..i + 1] <==> k in raw.projectKeys[..i] || k == raw.projectKeys[i]
  {
    TakeOneMore(raw.projectKeys, i);
  }

  lemma AllFilled(raw: Config, transitive: map<Key, seq<Key>>, projects: map<Key, Project>)
    requires Valid(raw) && forall k :: k in raw.projects ==> k in transitive
    requires FilledUpTo(raw, transitive, projects, |raw.projectKeys|)
    ensures projects.Keys == raw.projects.Keys
    ensures forall k :: k in raw.projects ==> projects[k] == raw.projects[k].(transitiveLiteDependencies := transitive[k])
  {
    TakeAll(raw.projectKeys);
  }

  method FillIn(raw: Config, transitive: map<Key, seq<Key>>) returns (projects: map<Key, Project>)
    requires Valid(raw) && forall k :: k in raw.projects ==> k in transitive
    ensures projects.Keys == raw.projects.Keys
    ensures forall k :: k in raw.projects ==> projects[k] == raw.projects[k].(transitiveLiteDependencies := transitive[k])
  {
    hide FilledUpTo;
    projects := raw.projects;
    NothingFilled(raw, transitive);
    for i := 0 to |raw.projectKeys|
      invariant FilledUpTo(raw, transitive, projects, i)
    {
      FilledOneMore(raw, transitive, projects, i);
      var key := raw.projectKeys[i];
      projects := projects[key := projects[key].(transitiveLiteDependencies := transitive[key])];
    }
    AllFilled(raw, transitive, projects);
  }

  /** The closure of a configuration does not look at the transitive dependencies it holds. */
  lemma SameTransitive(raw: map<Key, Project>, projects: map<Key, Project>)
    requires projects.Keys == raw.Keys
    requires forall k :: k in raw ==> projects[k].fullDependencies == raw[k].fullDependencies &&
                                      projects[k].liteDependencies == raw[k].liteDependencies
    ensures DependencyEdges(projects) == DependencyEdges(raw)
    ensures forall k, d :: IsTransitive(projects, k, d) <==> IsTransitive(raw, k, d)
  {
    hide Reaches;
    assert DependencyEdges(projects) == DependencyEdges(raw);
  }
}
