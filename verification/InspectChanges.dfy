/** From configuration and dirty files to what is to be rebuilt. */
module InspectChanges {
  import opened Reachability
  import opened ProjectConfig
  import opened DirtyFiles
  import opened RebuildSets

  /** A dirty file ends up with this project. */
  ghost predicate Touched(c: Config, matches: Matches, dirty: seq<string>, k: Key) {
    k in c.projects && k != CORE && exists p :: p in dirty && k in FinalOwners(c, Matching(c, matches, p))
  }

  /** A dirty file ends up with no project but the core. */
  ghost predicate CoreTouched(c: Config, matches: Matches, dirty: seq<string>) {
    exists p :: p in dirty && FinalOwners(c, Matching(c, matches, p)) == {}
  }

  ghost predicate NeedsFull(c: Config, matches: Matches, dirty: seq<string>, k: Key) {
    k in c.projects &&
    (Touched(c, matches, dirty, k) || exists d :: d in c.projects[k].fullDependencies && Touched(c, matches, dirty, d))
  }

  ghost predicate NeedsLite(c: Config, matches: Matches, dirty: seq<string>, k: Key) {
    exists d :: Touched(c, matches, dirty, d) && Reaches(DependencyEdges(c.projects), k, d)
  }

  /** Two configurations that differ in nothing but the closure of the dependencies. */
  ghost predicate SameButClosure(raw: Config, c: Config) {
    c.projectKeys == raw.projectKeys && c.projects.Keys == raw.projects.Keys &&
    DependencyEdges(c.projects) == DependencyEdges(raw.projects) &&
    forall k :: k in raw.projects ==>
      c.projects[k] == raw.projects[k].(transitiveLiteDependencies := c.projects[k].transitiveLiteDependencies)
  }

  lemma {:induction false} SameOwners(raw: Config, c: Config, i: nat, owners: set<Key>)
    requires SameButClosure(raw, c) && i <= |raw.projectKeys|
    ensures OwnersAfter(c, i, owners) == OwnersAfter(raw, i, owners)
  {
    if i > 0 { SameOwners(raw, c, i - 1, owners); }
  }

  lemma SameTouched(raw: Config, c: Config, matches: Matches, dirty: seq<string>)
    requires SameButClosure(raw, c)
    ensures forall k :: Touched(c, matches, dirty, k) <==> Touched(raw, matches, dirty, k)
    ensures CoreTouched(c, matches, dirty) <==> CoreTouched(raw, matches, dirty)
    ensures forall k :: NeedsFull(c, matches, dirty, k) <==> NeedsFull(raw, matches, dirty, k)
    ensures forall k :: NeedsLite(c, matches, dirty, k) <==> NeedsLite(raw, matches, dirty, k)
  {
    hide Reaches;
    forall p ensures FinalOwners(c, Matching(c, matches, p)) == FinalOwners(raw, Matching(raw, matches, p)) {
      assert Matching(c, matches, p) == Matching(raw, matches, p);
      SameOwners(raw, c, |raw.projectKeys|, Matching(c, matches, p));
    }
  }

  /** A project is touched only by a dirty file that it matches. */
  lemma TouchedByMatch(c: Config, matches: Matches, dirty: seq<string>, k: Key)
    requires Touched(c, matches, dirty, k)
    ensures exists p :: p in dirty && matches(k, p)
  {
    var p :| p in dirty && k in FinalOwners(c, Matching(c, matches, p));
    OwnersAreMatching(c, matches, p, k);
  }

  /** It is touched by every dirty file that it matches, if it defers to no project that matches that file. */
  lemma MatchTouches(c: Config, matches: Matches, dirty: seq<string>, k: Key, p: string)
    requires k in c.projects && k != CORE && p in dirty && matches(k, p) && Undisputed(c, matches, p, k)
    ensures Touched(c, matches, dirty, k)
  {
    UndisputedKeeps(c, matches, p, k, |c.projectKeys|);
  }

  /** It is not touched by files that are kept by projects it defers to. */
  lemma NotTouchedIfDeferred(c: Config, matches: Matches, dirty: seq<string>, k: Key)
    requires Valid(c) && k in c.projects && k != CORE
    requires forall p :: p in dirty && matches(k, p) ==>
      exists other :: other in c.projects[k].excludeProjectFiles && other in c.projects && other != CORE &&
                      matches(other, p) && Undisputed(c, matches, p, other)
    ensures !Touched(c, matches, dirty, k)
  {
    forall p | p in dirty ensures k !in FinalOwners(c, Matching(c, matches, p)) {
      if matches(k, p) {
        var other :| other in c.projects[k].excludeProjectFiles && other in c.projects && other != CORE &&
                     matches(other, p) && Undisputed(c, matches, p, other);
        DeferringLoses(c, matches, p, k, other, |c.projectKeys|);
        assert c.projectKeys[..|c.projectKeys|] == c.projectKeys;
      } else if k in FinalOwners(c, Matching(c, matches, p)) {
        OwnersAreMatching(c, matches, p, k);
      }
    }
  }

  /** A project that excludes no others is touched exactly by the dirty files that it matches. */
  lemma TouchedExactlyIfMatching(c: Config, matches: Matches, dirty: seq<string>, k: Key)
    requires k in c.projects && k != CORE && c.projects[k].excludeProjectFiles == []
    ensures Touched(c, matches, dirty, k) <==> exists p :: p in dirty && matches(k, p)
  {
    if Touched(c, matches, dirty, k) {
      TouchedByMatch(c, matches, dirty, k);
    } else if p :| p in dirty && matches(k, p) {
      MatchTouches(c, matches, dirty, k, p);
    }
  }

  /** If no project excludes itself, the core is touched exactly if some dirty file matches no other project. */
  lemma CoreTouchedExactlyIf(c: Config, matches: Matches, dirty: seq<string>)
    requires NoSelfExclusion(c)
    ensures CoreTouched(c, matches, dirty) <==>
      exists p :: p in dirty && forall k :: k in c.projects && k != CORE ==> !matches(k, p)
  {
    forall p | p in dirty
      ensures FinalOwners(c, Matching(c, matches, p)) == {} <==> forall k :: k in c.projects && k != CORE ==> !matches(k, p)
    {
      OrphanedExactlyIfUnmatched(c, matches, p);
    }
  }

  lemma {:induction false} UnownedMember(c: Config, matches: Matches, dirty: seq<string>, p: string)
    ensures p in Unowned(c, matches, dirty) <==> p in dirty && FinalOwners(c, Matching(c, matches, p)) == {}
  {
    if dirty != [] { UnownedMember(c, matches, dirty[1..], p); }
  }

  lemma TouchedHasFiles(c: Config, matches: Matches, dirty: seq<string>, files: map<Key, seq<string>>)
    requires files.Keys == c.projects.Keys && CORE in c.projects
    requires forall k :: k in files && k != CORE ==> files[k] == Owned(c, matches, dirty, |c.projectKeys|, k)
    requires files[CORE] == Unowned(c, matches, dirty)
    ensures files[CORE] != [] <==> CoreTouched(c, matches, dirty)
    ensures forall k :: HasDirtyFiles(c, files, k) <==> Touched(c, matches, dirty, k)
  {
    hide Owned, Unowned, FinalOwners;
    forall p ensures p in files[CORE] <==> p in dirty && FinalOwners(c, Matching(c, matches, p)) == {} { UnownedMember(c, matches, dirty, p); }
    assert files[CORE] != [] ==> files[CORE][0] in files[CORE];
    forall k | k in files && k != CORE ensures files[k] != [] <==> Touched(c, matches, dirty, k) {
      forall p ensures p in files[k] <==> p in dirty && k in FinalOwners(c, Matching(c, matches, p)) {
        OwnedMember(c, matches, dirty, |c.projectKeys|, k, p);
        FinalIs(c, Matching(c, matches, p));
      }
      assert files[k] != [] ==> files[k][0] in files[k];
    }
  }

  lemma FinalIs(c: Config, owners: set<Key>)
    ensures FinalOwners(c, owners) == OwnersAfter(c, |c.projectKeys|, owners)
  {
  }

  /** A file that only the core can claim makes everything dirty.  Otherwise a project is dirty exactly if a dirty
      file is its own or that of a project it fully depends on, and it has dirty dependencies exactly if it is
      not dirty itself but a dirty file belongs to a project it depends on in any way. */
  method Inspect(raw: Config, matches: Matches, dirty: seq<string>)
    returns (statuses: map<Key, Status>, fullSet: set<Key>, liteSet: set<Key>)
    requires Valid(raw)
    ensures statuses.Keys == raw.projects.Keys && fullSet !! liteSet
    ensures forall k :: k in raw.projects ==>
      (statuses[k] == Dirty <==> CoreTouched(raw, matches, dirty) || NeedsFull(raw, matches, dirty, k)) &&
      (statuses[k] == DirtyDeps <==>
        !CoreTouched(raw, matches, dirty) && !NeedsFull(raw, matches, dirty, k) && NeedsLite(raw, matches, dirty, k)) &&
      (statuses[k] == Dirty <==> k in fullSet) && (statuses[k] == DirtyDeps <==> k in liteSet)
  {
    hide SameButClosure, CoreTouched, NeedsFull, NeedsLite, IsDirty, IsAffected, Owned, Unowned, IsReverse, DependencyEdges;
    var c := Load(raw);
    LoadedSame(raw, c);
    var files := BuildProjectDirtyMap(c, matches, dirty);
    var graph := BuildReverseDependencyGraph(c);
    statuses, fullSet, liteSet := DetermineRebuildSets(c, files, graph);
    OwnersDecide(raw, c, matches, dirty, files);
    assert forall k :: k in raw.projects <==> k in c.projects;
  }

  lemma LoadedSame(raw: Config, c: Config)
    requires Valid(raw) && Valid(c) && c.projectKeys == raw.projectKeys
    requires forall k :: k in raw.projects ==>
      c.projects[k] == raw.projects[k].(transitiveLiteDependencies := c.projects[k].transitiveLiteDependencies)
    requires DependencyEdges(c.projects) == DependencyEdges(raw.projects)
    ensures SameButClosure(raw, c) && c.projects.Keys == raw.projects.Keys
  {
    hide DependencyEdges;
    assert forall k :: k in c.projects <==> k in raw.projects;
  }

  lemma OwnersDecide(raw: Config, c: Config, matches: Matches, dirty: seq<string>, files: map<Key, seq<string>>)
    requires SameButClosure(raw, c) && files.Keys == c.projects.Keys && CORE in c.projects
    requires forall k :: k in files && k != CORE ==> files[k] == Owned(c, matches, dirty, |c.projectKeys|, k)
    requires files[CORE] == Unowned(c, matches, dirty)
    ensures files[CORE] != [] <==> CoreTouched(raw, matches, dirty)
    ensures forall k :: IsDirty(c, files, k) <==> NeedsFull(raw, matches, dirty, k)
    ensures forall k :: IsAffected(c, files, k) <==> NeedsLite(raw, matches, dirty, k)
  {
    hide SameButClosure, Touched, CoreTouched, NeedsFull, NeedsLite, IsDirty, IsAffected, HasDirtyFiles, Owned, Unowned;
    SameTouched(raw, c, matches, dirty);
    TouchedHasFiles(c, matches, dirty, files);
    StatusesAre(c, matches, dirty, files);
  }

  lemma StatusesAre(c: Config, matches: Matches, dirty: seq<string>, files: map<Key, seq<string>>)
    requires forall k :: HasDirtyFiles(c, files, k) <==> Touched(c, matches, dirty, k)
    ensures forall k :: IsDirty(c, files, k) <==> NeedsFull(c, matches, dirty, k)
    ensures forall k :: IsAffected(c, files, k) <==> NeedsLite(c, matches, dirty, k)
  {
    hide Touched, HasDirtyFiles, Reaches, DependencyEdges;
  }
}
