/** Which project each dirty file belongs to, and which nobody claims. */
module DirtyFiles {
  // Matching a path against a project's include and exclude patterns is an arbitrary predicate.

  import opened Reachability
  import opened ProjectConfig
  import opened Sequences

  type Matches = (Key, string) -> bool

  /** The non-core projects whose patterns a path matches. */
  function Matching(c: Config, matches: Matches, path: string): set<Key> {
    set k | k in c.projects && k != CORE && matches(k, path)
  }

  /** A project gives a file up if a project it defers to has it at that moment. */
  function GiveUp(c: Config, key: Key, owners: set<Key>): set<Key> {
    if key in c.projects && key != CORE && exists other :: other in c.projects[key].excludeProjectFiles && other in owners
    then owners - {key} else owners
  }

  /** The owners of a file after the first i projects, in order, had their turn. */
  function OwnersAfter(c: Config, i: nat, owners: set<Key>): set<Key>
    requires i <= |c.projectKeys|
  {
    if i == 0 then owners else GiveUp(c, c.projectKeys[i - 1], OwnersAfter(c, i - 1, owners))
  }

  function FinalOwners(c: Config, owners: set<Key>): set<Key> {
    OwnersAfter(c, |c.projectKeys|, owners)
  }

  ghost predicate NoSelfExclusion(c: Config) {
    forall k :: k in c.projects && k != CORE ==> k !in c.projects[k].excludeProjectFiles
  }

  /** However the projects defer to each other, in cycles or not, someone is left with the file. */
  lemma {:induction false} NeverOrphaned(c: Config, i: nat, owners: set<Key>)
    requires NoSelfExclusion(c) && i <= |c.projectKeys| && owners != {}
    ensures OwnersAfter(c, i, owners) != {} && OwnersAfter(c, i, owners) <= owners
  {
    if i > 0 {
      NeverOrphaned(c, i - 1, owners);
      var key, now := c.projectKeys[i - 1], OwnersAfter(c, i - 1, owners);
      if other :| key in c.projects && other in c.projects[key].excludeProjectFiles && other in now && key != CORE {
        assert other in now - {key};
      }
    }
  }

  lemma {:induction false} SelfExclusionOrphans(c: Config, key: Key, i: nat)
    requires Valid(c) && key in c.projects && key != CORE && key in c.projects[key].excludeProjectFiles
    requires i <= |c.projectKeys|
    ensures OwnersAfter(c, i, {key}) <= {key}
    ensures key in c.projectKeys[..i] ==> OwnersAfter(c, i, {key}) == {}
  {
    if i > 0 {
      SelfExclusionOrphans(c, key, i - 1);
      TakeOneMore(c.projectKeys, i - 1);
    }
  }

  /** No file can be orphaned, whatever it matches, exactly if no project excludes its own files. */
  lemma OrphansOnlyBySelfExclusion(c: Config)
    requires Valid(c)
    ensures NoSelfExclusion(c) <==>
      forall owners: set<Key> :: owners != {} && owners <= c.projects.Keys - {CORE} ==> FinalOwners(c, owners) != {}
  {
    if NoSelfExclusion(c) {
      forall owners: set<Key> | owners != {} ensures FinalOwners(c, owners) != {} {
        NeverOrphaned(c, |c.projectKeys|, owners);
      }
    } else {
      var k :| k in c.projects && k != CORE && k in c.projects[k].excludeProjectFiles;
      TakeAll(c.projectKeys);
      SelfExclusionOrphans(c, k, |c.projectKeys|);
      assert {k} != {} && {k} <= c.projects.Keys - {CORE};
      assert FinalOwners(c, {k}) == {};
    }
  }

  /** The smallest configuration that orphans a file: the core, and a project that excludes its own files. */
  lemma SelfExcludingProjectOrphans(key: Key)
    requires key != CORE
    ensures var c := Config(map[CORE := Project(CORE, [], [], [], []), key := Project(key, [key], [], [], [])], [CORE, key]);
            Valid(c) && FinalOwners(c, {key}) == {}
  {
    var c := Config(map[CORE := Project(CORE, [], [], [], []), key := Project(key, [key], [], [], [])], [CORE, key]);
    assert c.projectKeys[..2] == c.projectKeys;
    SelfExclusionOrphans(c, key, 2);
  }

  // ----- Who owns a file, by what matches it -----

  lemma {:induction false} OwnersShrink(c: Config, i: nat, owners: set<Key>)
    requires i <= |c.projectKeys|
    ensures OwnersAfter(c, i, owners) <= owners
  {
    if i > 0 { OwnersShrink(c, i - 1, owners); }
  }

  /** Only projects whose patterns match a file can own it. */
  lemma OwnersAreMatching(c: Config, matches: Matches, path: string, k: Key)
    requires k in FinalOwners(c, Matching(c, matches, path))
    ensures k in c.projects && k != CORE && matches(k, path)
  {
    OwnersShrink(c, |c.projectKeys|, Matching(c, matches, path));
  }

  /** The project defers, for this file, to no project that matches it. */
  ghost predicate Undisputed(c: Config, matches: Matches, path: string, k: Key)
    requires k in c.projects
  {
    forall other :: other in c.projects[k].excludeProjectFiles && other in c.projects && other != CORE ==> !matches(other, path)
  }

  /** A project that matches a file keeps it if it defers to no other that does. */
  lemma {:induction false} UndisputedKeeps(c: Config, matches: Matches, path: string, k: Key, i: nat)
    requires k in c.projects && k != CORE && matches(k, path) && Undisputed(c, matches, path, k) && i <= |c.projectKeys|
    ensures k in OwnersAfter(c, i, Matching(c, matches, path))
  {
    if i > 0 {
      UndisputedKeeps(c, matches, path, k, i - 1);
      OwnersShrink(c, i - 1, Matching(c, matches, path));
    }
  }

  /** A project that defers to one that keeps a file does not get it. */
  lemma {:induction false} DeferringLoses(c: Config, matches: Matches, path: string, k: Key, other: Key, i: nat)
    requires k in c.projects && k != CORE && other in c.projects[k].excludeProjectFiles && i <= |c.projectKeys|
    requires other in c.projects && other != CORE && matches(other, path) && Undisputed(c, matches, path, other)
    ensures k in c.projectKeys[..i] ==> k !in OwnersAfter(c, i, Matching(c, matches, path))
  {
    if i > 0 {
      DeferringLoses(c, matches, path, k, other, i - 1);
      UndisputedKeeps(c, matches, path, other, i - 1);
      TakeOneMore(c.projectKeys, i - 1);
    }
  }

  /** If no project excludes itself, a file is nobody's exactly if no project matches it. */
  lemma OrphanedExactlyIfUnmatched(c: Config, matches: Matches, path: string)
    requires NoSelfExclusion(c)
    ensures FinalOwners(c, Matching(c, matches, path)) == {} <==>
      forall k :: k in c.projects && k != CORE ==> !matches(k, path)
  {
    var owners := Matching(c, matches, path);
    assert owners == {} <==> forall k :: k in c.projects && k != CORE ==> !matches(k, path) by {
      assert forall k :: k in owners <==> k in c.projects && k != CORE && matches(k, path);
    }
    if owners != {} { NeverOrphaned(c, |c.projectKeys|, owners); } else { NobodyOwns(c, |c.projectKeys|); }
  }

  // ----- The lists of files -----

  /** The dirty files a project owns after the first i projects had their turn, in order. */
  function Owned(c: Config, matches: Matches, dirty: seq<string>, i: nat, k: Key): seq<string>
    requires i <= |c.projectKeys|
  {
    if dirty == [] then []
    else (if k in OwnersAfter(c, i, Matching(c, matches, dirty[0])) then [dirty[0]] else []) +
         Owned(c, matches, dirty[1..], i, k)
  }

  function Unmatched(c: Config, matches: Matches, dirty: seq<string>): seq<string> {
    if dirty == [] then []
    else (if Matching(c, matches, dirty[0]) == {} then [dirty[0]] else []) + Unmatched(c, matches, dirty[1..])
  }

  function Unowned(c: Config, matches: Matches, dirty: seq<string>): seq<string> {
    if dirty == [] then []
    else (if FinalOwners(c, Matching(c, matches, dirty[0])) == {} then [dirty[0]] else []) +
         Unowned(c, matches, dirty[1..])
  }

  /** The core list is the dirty files that match no other project. */
  lemma {:induction false} CoreIsUnmatched(c: Config, matches: Matches, dirty: seq<string>)
    requires NoSelfExclusion(c)
    ensures Unowned(c, matches, dirty) == Unmatched(c, matches, dirty)
  {
    if dirty != [] {
      var owners := Matching(c, matches, dirty[0]);
      if owners != {} { NeverOrphaned(c, |c.projectKeys|, owners); } else { NobodyOwns(c, |c.projectKeys|); }
      CoreIsUnmatched(c, matches, dirty[1..]);
    }
  }

  lemma {:induction false} NobodyOwns(c: Config, i: nat)
    requires i <= |c.projectKeys|
    ensures OwnersAfter(c, i, {}) == {}
  {
    if i > 0 { NobodyOwns(c, i - 1); }
  }

  lemma {:induction false} OwnedMember(c: Config, matches: Matches, dirty: seq<string>, i: nat, k: Key, p: string)
    requires i <= |c.projectKeys|
    ensures p in Owned(c, matches, dirty, i, k) <==> p in dirty && k in OwnersAfter(c, i, Matching(c, matches, p))
  {
    if dirty != [] {
      OwnedMember(c, matches, dirty[1..], i, k, p);
      assert p in dirty <==> p == dirty[0] || p in dirty[1..];
    }
  }

  lemma {:induction false} OwnedAppend(c: Config, matches: Matches, a: seq<string>, p: string, i: nat, k: Key)
    requires i <= |c.projectKeys|
    ensures Owned(c, matches, a + [p], i, k) ==
      Owned(c, matches, a, i, k) + if k in OwnersAfter(c, i, Matching(c, matches, p)) then [p] else []
  {
    if a == [] {
      assert a + [p] == [p];
    } else {
      OwnedAppend(c, matches, a[1..], p, i, k);
      assert (a + [p])[1..] == a[1..] + [p];
    }
  }

  lemma {:induction false} UnownedAppend(c: Config, matches: Matches, a: seq<string>, p: string)
    ensures Unowned(c, matches, a + [p]) ==
      Unowned(c, matches, a) + if FinalOwners(c, Matching(c, matches, p)) == {} then [p] else []
  {
    if a == [] {
      assert a + [p] == [p];
    } else {
      UnownedAppend(c, matches, a[1..], p);
      assert (a + [p])[1..] == a[1..] + [p];
    }
  }

  method ProjectDirtyFiles(c: Config, matches: Matches, key: Key, dirty: seq<string>) returns (files: seq<string>)
    requires key in c.projects && key != CORE
    ensures files == Owned(c, matches, dirty, 0, key)
    ensures forall p :: p in files <==> p in dirty && matches(key, p)
  {
    files := [];
    for j := 0 to |dirty|
      invariant files == Owned(c, matches, dirty[..j], 0, key)
      invariant forall p :: p in files <==> p in dirty[..j] && matches(key, p)
    {
      if matches(key, dirty[j]) { files := files + [dirty[j]]; }
      TakeOneMore(dirty, j);
      OwnedAppend(c, matches, dirty[..j], dirty[j], 0, key);
    }
    TakeAll(dirty);
  }

  /** The lists of all non-core projects after the first i had their turn. */
  ghost predicate ListsOwned(c: Config, matches: Matches, dirty: seq<string>, i: nat, files: map<Key, seq<string>>)
    requires i <= |c.projectKeys|
  {
    files.Keys == c.projects.Keys - {CORE} &&
    forall k :: k in files ==> files[k] == Owned(c, matches, dirty, i, k)
  }

  lemma TurnTaken(c: Config, matches: Matches, dirty: seq<string>, i: nat, files: map<Key, seq<string>>, files': map<Key, seq<string>>)
    requires i < |c.projectKeys| && ListsOwned(c, matches, dirty, i, files)
    requires var key := c.projectKeys[i];
             if key in files then files' == files[key := Owned(c, matches, dirty, i + 1, key)] else files' == files
    ensures ListsOwned(c, matches, dirty, i + 1, files')
  {
    hide Owned;
    forall k | k in files && k != c.projectKeys[i] { OwnedUnchanged(c, matches, dirty, i, k); }
  }

  /** The turn of the i-th project: it drops what the projects it defers to own now. */
  method DropExcluded(c: Config, matches: Matches, dirty: seq<string>, i: nat, files: map<Key, seq<string>>)
    returns (kept: seq<string>)
    requires Valid(c) && i < |c.projectKeys| && c.projectKeys[i] != CORE
    requires ListsOwned(c, matches, dirty, i, files)
    ensures kept == Owned(c, matches, dirty, i + 1, c.projectKeys[i])
  {
    var key := c.projectKeys[i];
    var exclude := c.projects[key].excludeProjectFiles;
    var exclusions: set<string> := {};
    for j := 0 to |exclude|
      invariant forall p :: p in exclusions <==> exists other :: other in exclude[..j] && other in files && p in files[other]
    {
      TakeOneMore(exclude, j);
      if exclude[j] in files { exclusions := exclusions + set p | p in files[exclude[j]]; }
    }
    TakeAll(exclude);
    kept := [];
    var own := files[key];
    for j := 0 to |own|
      invariant kept == Without(own[..j], exclusions)
    {
      TakeOneMore(own, j);
      WithoutAppend(own[..j], own[j], exclusions);
      if own[j] !in exclusions { kept := kept + [own[j]]; }
    }
    TakeAll(own);
    forall p | p in dirty
      ensures p in exclusions <==> exists other :: other in exclude && other in OwnersAfter(c, i, Matching(c, matches, p))
    {
      OwnersMatch(c, matches, i, p);
      forall other | other in files { OwnedMember(c, matches, dirty, i, other, p); }
    }
    WithoutOwned(c, matches, dirty, i, exclusions);
  }

  function Without(s: seq<string>, out: set<string>): seq<string> {
    if s == [] then [] else (if s[0] in out then [] else [s[0]]) + Without(s[1..], out)
  }

  lemma {:induction false} WithoutAppend(s: seq<string>, p: string, out: set<string>)
    ensures Without(s + [p], out) == Without(s, out) + if p in out then [] else [p]
  {
    if s == [] {
      assert s + [p] == [p];
    } else {
      WithoutAppend(s[1..], p, out);
      assert (s + [p])[1..] == s[1..] + [p];
    }
  }

  /** Only projects whose patterns match can own a file. */
  lemma {:induction false} OwnersMatch(c: Config, matches: Matches, i: nat, p: string)
    requires i <= |c.projectKeys|
    ensures OwnersAfter(c, i, Matching(c, matches, p)) <= c.projects.Keys - {CORE}
  {
    if i > 0 { OwnersMatch(c, matches, i - 1, p); }
  }

  lemma {:induction false} WithoutOwned(c: Config, matches: Matches, dirty: seq<string>, i: nat, exclusions: set<string>)
    requires Valid(c) && i < |c.projectKeys| && c.projectKeys[i] != CORE
    requires forall p :: p in dirty ==> (p in exclusions <==> exists other ::
      other in c.projects[c.projectKeys[i]].excludeProjectFiles && other in OwnersAfter(c, i, Matching(c, matches, p)))
    ensures Without(Owned(c, matches, dirty, i, c.projectKeys[i]), exclusions) ==
      Owned(c, matches, dirty, i + 1, c.projectKeys[i])
  {
    if dirty != [] {
      var key, p := c.projectKeys[i], dirty[0];
      WithoutOwned(c, matches, dirty[1..], i, exclusions);
      var rest := Owned(c, matches, dirty[1..], i, key);
      if key in OwnersAfter(c, i, Matching(c, matches, p)) { assert ([p] + rest)[1..] == rest; }
      else { assert [] + rest == rest; }
    }
  }

  /** A project's own turn is the only one that changes its list. */
  lemma {:induction false} OwnedUnchanged(c: Config, matches: Matches, dirty: seq<string>, i: nat, k: Key)
    requires i < |c.projectKeys| && k != c.projectKeys[i]
    ensures Owned(c, matches, dirty, i + 1, k) == Owned(c, matches, dirty, i, k)
  {
    if dirty != [] { OwnedUnchanged(c, matches, dirty[1..], i, k); }
  }

  method BuildProjectDirtyMap(c: Config, matches: Matches, dirty: seq<string>) returns (files: map<Key, seq<string>>)
    requires Valid(c)
    ensures files.Keys == c.projects.Keys
    ensures forall k :: k in files && k != CORE ==> files[k] == Owned(c, matches, dirty, |c.projectKeys|, k)
    ensures files[CORE] == Unowned(c, matches, dirty)
    ensures NoSelfExclusion(c) ==> files[CORE] == Unmatched(c, matches, dirty)
  {
    hide Owned, Unowned, Unmatched, NoSelfExclusion;
    files := GatherFiles(c, matches, dirty);
    files := SettleOwners(c, matches, dirty, files);
    var core := CoreFiles(c, matches, dirty, files);
    if NoSelfExclusion(c) { CoreIsUnmatched(c, matches, dirty); }
    files := files[CORE := core];
  }

  /** Files that other projects own are removed where a project asks for it, project by project. */
  method SettleOwners(c: Config, matches: Matches, dirty: seq<string>, gathered: map<Key, seq<string>>)
    returns (files: map<Key, seq<string>>)
    requires Valid(c) && ListsOwned(c, matches, dirty, 0, gathered)
    ensures ListsOwned(c, matches, dirty, |c.projectKeys|, files)
  {
    files := gathered;
    for i := 0 to |c.projectKeys|
      invariant ListsOwned(c, matches, dirty, i, files)
    {
      hide Owned;
      var key := c.projectKeys[i];
      ghost var before := files;
      if key != CORE {
        var kept := DropExcluded(c, matches, dirty, i, files);
        files := files[key := kept];
      }
      TurnTaken(c, matches, dirty, i, before, files);
    }
  }

  method GatherFiles(c: Config, matches: Matches, dirty: seq<string>) returns (files: map<Key, seq<string>>)
    requires Valid(c)
    ensures ListsOwned(c, matches, dirty, 0, files)
  {
    files := map[];
    for i := 0 to |c.projectKeys|
      invariant forall k :: k in files <==> k != CORE && k in c.projectKeys[..i]
      invariant forall k :: k in files ==> files[k] == Owned(c, matches, dirty, 0, k)
    {
      hide Owned;
      TakeOneMore(c.projectKeys, i);
      var key := c.projectKeys[i];
      if key != CORE {
        var own := ProjectDirtyFiles(c, matches, key, dirty);
        files := files[key := own];
      }
    }
    TakeAll(c.projectKeys);
  }

  method CoreFiles(c: Config, matches: Matches, dirty: seq<string>, files: map<Key, seq<string>>) returns (core: seq<string>)
    requires Valid(c) && ListsOwned(c, matches, dirty, |c.projectKeys|, files)
    ensures core == Unowned(c, matches, dirty)
  {
    var matched := MatchedPaths(c, files);
    core := [];
    for j := 0 to |dirty|
      invariant core == Unowned(c, matches, dirty[..j])
    {
      hide Owned, Unowned;
      TakeOneMore(dirty, j);
      UnownedAppend(c, matches, dirty[..j], dirty[j]);
      IsMatched(c, matches, dirty, files, matched, dirty[j]);
      if dirty[j] !in matched { core := core + [dirty[j]]; }
    }
    TakeAll(dirty);
  }

  lemma IsMatched(c: Config, matches: Matches, dirty: seq<string>, files: map<Key, seq<string>>, matched: set<string>, p: string)
    requires Valid(c) && ListsOwned(c, matches, dirty, |c.projectKeys|, files) && p in dirty
    requires forall p :: p in matched <==> exists k :: k in files && p in files[k]
    ensures p in matched <==> FinalOwners(c, Matching(c, matches, p)) != {}
  {
    OwnersMatch(c, matches, |c.projectKeys|, p);
    forall k | k in files { OwnedMember(c, matches, dirty, |c.projectKeys|, k, p); }
    if FinalOwners(c, Matching(c, matches, p)) != {} {
      var k :| k in FinalOwners(c, Matching(c, matches, p));
      assert k in files && p in files[k];
    }
  }

  method MatchedPaths(c: Config, files: map<Key, seq<string>>) returns (matched: set<string>)
    requires Valid(c) && files.Keys == c.projects.Keys - {CORE}
    ensures forall p :: p in matched <==> exists k :: k in files && p in files[k]
  {
    matched := {};
    for i := 0 to |c.projectKeys|
      invariant forall p :: p in matched <==> exists k :: k in files && k in c.projectKeys[..i] && p in files[k]
    {
      TakeOneMore(c.projectKeys, i);
      var key := c.projectKeys[i];
      if key != CORE { matched := matched + set p | p in files[key]; }
    }
    TakeAll(c.projectKeys);
  }
}
