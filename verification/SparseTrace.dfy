/** The sparse insert and delete traces: random keys in batches. */
module SparseTrace {
  import opened Bitmap

  ghost predicate Distinct(s: seq<nat>) {
    forall i, j :: 0 <= i < j < |s| ==> s[i] != s[j]
  }

  /** A source of keys: what the generator will give, in order. */
  ghost predicate IsStream(stream: seq<nat>, limit: nat) {
    forall i :: 0 <= i < |stream| ==> 1 <= stream[i] < limit
  }

  ghost predicate Shuffles(shuffle: (nat, seq<nat>) -> seq<nat>) {
    forall z: nat, s: seq<nat> :: multiset(shuffle(z, s)) == multiset(s)
  }

  /** The bitmap has exactly these keys set. */
  ghost predicate Tracks(t: seq<bool>, used: set<nat>) {
    forall x: nat :: x in used <==> x < |t| && t[x]
  }

  // ----- Insert: one batch -----

  /** The keys drawn for a batch: distinct, not tracked before, and tracked now. */
  ghost predicate Drawn(keys: seq<nat>, before: seq<bool>, now: seq<bool>, step: seq<bool>) {
    |before| == |now| == |step| && Distinct(keys) && Untracked(keys, before) && Added(keys, before, now, step) &&
    |Marked(step, |step|)| == |keys|
  }

  ghost predicate Untracked(keys: seq<nat>, before: seq<bool>) {
    forall k :: k in keys ==> k < |before| && !before[k]
  }

  ghost predicate Added(keys: seq<nat>, before: seq<bool>, now: seq<bool>, step: seq<bool>)
    requires |before| == |now| == |step|
  {
    forall x :: 0 <= x < |now| ==> (now[x] <==> before[x] || x in keys) && (step[x] <==> x in keys)
  }

  lemma DrawOne(keys: seq<nat>, before: seq<bool>, now: seq<bool>, step: seq<bool>, k: nat)
    requires Drawn(keys, before, now, step) && k < |now| && !now[k]
    ensures Drawn(keys + [k], before, now[k := true], step[k := true])
  {
    hide Marked, Added, Distinct, Untracked;
    AddOne(keys, before, now, step, k);
    MarkOne(step, k, |step|);
  }

  lemma AddOne(keys: seq<nat>, before: seq<bool>, now: seq<bool>, step: seq<bool>, k: nat)
    requires |before| == |now| == |step| && Distinct(keys) && Untracked(keys, before) && Added(keys, before, now, step)
    requires k < |now| && !now[k]
    ensures !step[k] && Distinct(keys + [k]) && Untracked(keys + [k], before) && Added(keys + [k], before, now[k := true], step[k := true])
  {
  }

  /** The keys of s that are not set, each once, in the order in which they first come. */
  ghost predicate Firsts(keys: seq<nat>, s: seq<nat>, before: seq<bool>) {
    Distinct(keys) && (forall k :: k in keys <==> k in s && !(k < |before| && before[k])) &&
    forall i, j, p :: 0 <= i < j < |keys| && 0 <= p < |s| && s[p] == keys[j] ==> keys[i] in s[..p]
  }

  lemma FirstsMore(keys: seq<nat>, s: seq<nat>, before: seq<bool>, k: nat)
    requires Firsts(keys, s, before)
    ensures Firsts(if k in s || (k < |before| && before[k]) then keys else keys + [k], s + [k], before)
  {
    var more := if k in s || (k < |before| && before[k]) then keys else keys + [k];
    forall i, j, p | 0 <= i < j < |more| && 0 <= p < |s + [k]| && (s + [k])[p] == more[j] ensures more[i] in (s + [k])[..p] {
      assert (s + [k])[..p] == s[..p];
      if p == |s| { assert s[..p] == s && more[i] in keys; }
    }
  }

  lemma OneMoreOf(stream: seq<nat>, from: nat, pos: nat)
    requires from <= pos < |stream|
    ensures stream[from..pos + 1] == stream[from..pos] + [stream[pos]] && stream[from..from] == []
  {
  }

  method DrawFresh(stream: seq<nat>, from: nat, want: nat, tracker: array<bool>, step: array<bool>)
    returns (keys: seq<nat>, pos: nat, ended: bool)
    requires tracker != step && tracker.Length == step.Length && IsStream(stream, tracker.Length) && from <= |stream|
    requires forall i :: 0 <= i < step.Length ==> !step[i]
    modifies tracker, step
    ensures from <= pos <= |stream| && |keys| <= want && (ended <==> |keys| == want)
    ensures Drawn(keys, old(tracker[..]), tracker[..], step[..])
    ensures Firsts(keys, stream[from..pos], old(tracker[..]))
    ensures if !ended then pos == |stream| else pos == from || (keys != [] && keys[|keys| - 1] !in stream[from..pos - 1])
  {
    hide Drawn, Firsts;
    keys, pos := [], from;
    ghost var before := tracker[..];
    NothingDrawn(before, step[..]);
    NothingFirst(before);
    assert stream[from..from] == [];
    while |keys| < want && pos < |stream|
      invariant from <= pos <= |stream| && |keys| <= want
      invariant Drawn(keys, before, tracker[..], step[..]) && Firsts(keys, stream[from..pos], before)
      invariant |keys| == want ==> pos == from || (keys != [] && keys[|keys| - 1] !in stream[from..pos - 1])
      decreases |stream| - pos
    {
      var temp := stream[pos];
      OneMoreOf(stream, from, pos);
      FirstsMore(keys, stream[from..pos], before, temp);
      IsFresh(keys, stream[from..pos], before, tracker[..], step[..], temp);
      pos := pos + 1;
      if !tracker[temp] {
        DrawOne(keys, before, tracker[..], step[..], temp);
        tracker[temp] := true;
        step[temp] := true;
        keys := keys + [temp];
      }
    }
    ended := |keys| == want;
  }

  lemma NothingFirst(before: seq<bool>)
    ensures Firsts([], [], before)
  {
  }

  lemma IsFresh(keys: seq<nat>, s: seq<nat>, before: seq<bool>, now: seq<bool>, step: seq<bool>, k: nat)
    requires Drawn(keys, before, now, step) && Firsts(keys, s, before) && k < |now|
    ensures now[k] <==> k in s || before[k]
  {
  }

  lemma NothingDrawn(before: seq<bool>, step: seq<bool>)
    requires |before| == |step| && forall i :: 0 <= i < |step| ==> !step[i]
    ensures Drawn([], before, before, step)
  {
    NoneMarked(step, |step|);
  }

  /** Fills the batch up with keys that it has already, the smallest first.  If there are not enough of them the scan
      comes to the end of the bitmap, and the source would read on behind it. */
  method ScanDuplicates(step: array<bool>, drawn: seq<nat>, size: nat) returns (keys: seq<nat>, inside: bool)
    requires |drawn| <= size
    ensures inside <==> size <= |drawn| + |Marked(step[..], step.Length)|
    ensures inside ==> |keys| == size && exists n :: 0 <= n <= step.Length && keys == drawn + Marked(step[..], n)
  {
    keys, inside := drawn, true;
    var j := 0;
    assert keys == drawn + Marked(step[..], 0);
    while |keys| < size
      invariant j <= step.Length && keys == drawn + Marked(step[..], j) && |keys| <= size
      decreases step.Length - j
    {
      if j == step.Length { return keys, false; }
      if step[j] { keys := keys + [j]; }
      j := j + 1;
    }
    MarkedGrows(step[..], j, step.Length);
  }

  /** Wanting dup duplicates in a batch of this size, the scan stays inside the bitmap exactly if they are no more
      than half of the batch. */
  lemma ScanStaysInsideExactlyIf(drawn: seq<nat>, before: seq<bool>, now: seq<bool>, step: seq<bool>, size: nat, dup: nat)
    requires Drawn(drawn, before, now, step) && |drawn| == size - dup
    ensures (exists j :: 0 <= j <= |step| && |drawn| + |Marked(step, j)| >= size) <==> 2 * dup <= size
  {
    ScanEndsInside(step, dup);
    assert forall j :: 0 <= j <= |step| ==> (|drawn| + |Marked(step, j)| >= size <==> |Marked(step, j)| >= dup);
  }

  /** With 80 percent of duplicates, as many as the generator admits, every batch overruns the bitmap. */
  lemma EightyPercentOverruns(drawn: seq<nat>, before: seq<bool>, now: seq<bool>, step: seq<bool>, n: nat)
    requires n > 0 && Drawn(drawn, before, now, step) && |drawn| == n
    ensures var size := 5 * n;
            size - size * 80 / 100 == n && !exists j :: 0 <= j <= |step| && |drawn| + |Marked(step, j)| >= size
  {
    hide Drawn;
    ScanStaysInsideExactlyIf(drawn, before, now, step, 5 * n, 4 * n);
  }

  /** There are such batches of every size that the keys admit. */
  lemma {:induction false} AnyNumberCanBeDrawn(n: nat, limit: nat)
    requires n <= limit
    ensures var step := seq(limit, i requires 0 <= i < limit => i < n);
            Drawn(seq(n, i => i), seq(limit, _ => false), step, step)
    decreases n
  {
    hide Drawn;
    var before, step := seq(limit, _ => false), seq(limit, i requires 0 <= i < limit => i < n);
    if n == 0 {
      NothingDrawn(before, step);
      assert step == before && seq(n, i => i) == [];
    } else {
      AnyNumberCanBeDrawn(n - 1, limit);
      var last := seq(limit, i requires 0 <= i < limit => i < n - 1);
      DrawOne(seq(n - 1, i => i), before, last, last, n - 1);
      assert last[n - 1 := true] == step && seq(n - 1, i => i) + [n - 1] == seq(n, i => i);
    }
  }

  // ----- What an insert batch is -----

  ghost function Keys(s: seq<nat>): set<nat> {
    set k | k in s
  }

  /** So many different keys, none of them from before, no key more than twice, and those twice are the smallest. */
  ghost predicate InsertBatch(batch: seq<nat>, before: set<nat>, unique: nat, size: nat) {
    |batch| == size && |Keys(batch)| == unique && Keys(batch) !! before &&
    (forall k :: multiset(batch)[k] <= 2) &&
    (forall a, b :: a in Keys(batch) && a < b && multiset(batch)[b] == 2 ==> multiset(batch)[a] == 2)
  }

  lemma {:induction false} DistinctCounts(s: seq<nat>)
    requires Distinct(s)
    ensures |Keys(s)| == |s| && forall k :: multiset(s)[k] == if k in s then 1 else 0
    decreases |s|
  {
    if s != [] {
      var front, last := s[..|s| - 1], s[|s| - 1];
      DistinctCounts(front);
      assert s == front + [last];
      assert Keys(s) == Keys(front) + {last};
    } else {
      assert Keys(s) == {};
    }
  }

  lemma AscendingIsDistinct(s: seq<nat>)
    requires Ascending(s)
    ensures Distinct(s)
  {
  }

  /** Distinct fresh keys and then the smallest of them once more make an insert batch, however they are shuffled. */
  lemma BatchOfDrawn(drawn: seq<nat>, before: seq<bool>, now: seq<bool>, step: seq<bool>, n: nat, keys: seq<nat>, batch: seq<nat>, used: set<nat>)
    requires Drawn(drawn, before, now, step) && n <= |step| && keys == drawn + Marked(step, n)
    requires multiset(batch) == multiset(keys)
    requires Tracks(before, used)
    ensures InsertBatch(batch, used, |drawn|, |keys|)
  {
    var dups := Marked(step, n);
    MarkedAscends(step, n);
    AscendingIsDistinct(dups);
    assert forall k :: k in dups ==> k in drawn;
    assert forall a, b :: a in drawn && a < b && b in dups ==> a in dups;
    assert Keys(drawn) !! used && Distinct(drawn);
    hide Drawn, Tracks, Ascending, Marked;
    BatchOfSmallest(drawn, dups, batch, used);
  }

  lemma BatchOfSmallest(drawn: seq<nat>, dups: seq<nat>, batch: seq<nat>, used: set<nat>)
    requires multiset(batch) == multiset(drawn + dups) && Distinct(drawn) && Distinct(dups) && Keys(drawn) !! used
    requires (forall k :: k in dups ==> k in drawn) && forall a, b :: a in drawn && a < b && b in dups ==> a in dups
    ensures InsertBatch(batch, used, |drawn|, |drawn + dups|)
  {
    hide Distinct;
    DistinctCounts(drawn);
    SameMembers(batch, drawn + dups);
    assert Keys(batch) == Keys(drawn);
    CountsOf(drawn, dups, batch);
  }

  lemma CountsOf(drawn: seq<nat>, dups: seq<nat>, batch: seq<nat>)
    requires Distinct(drawn) && Distinct(dups) && multiset(batch) == multiset(drawn + dups)
    ensures forall k :: multiset(batch)[k] == (if k in drawn then 1 else 0) + (if k in dups then 1 else 0)
  {
    DistinctCounts(drawn);
    DistinctCounts(dups);
    assert multiset(drawn + dups) == multiset(drawn) + multiset(dups);
  }

  lemma SameMembers(a: seq<nat>, b: seq<nat>)
    requires multiset(a) == multiset(b)
    ensures |a| == |b| && forall k :: k in a <==> k in b
  {
    assert |multiset(a)| == |a| && |multiset(b)| == |b|;
    forall k ensures k in a <==> k in b {
      assert k in multiset(a) <==> k in multiset(b);
    }
  }

  /** How the work on a batch ends: it is complete, the keys gave out, or the scan overran the bitmap. */
  datatype Outcome = Complete | OutOfKeys | Overrun

  method InsertOneBatch(stream: seq<nat>, from: nat, unique: nat, size: nat, tracker: array<bool>, shuffle: (nat, seq<nat>) -> seq<nat>,
                        z: nat, ghost used: set<nat>)
    returns (batch: seq<nat>, pos: nat, outcome: Outcome)
    requires IsStream(stream, tracker.Length) && from <= |stream| && Shuffles(shuffle)
    requires unique <= size && Tracks(tracker[..], used)
    modifies tracker
    ensures from <= pos <= |stream|
    ensures outcome == if |Keys(stream[from..]) - used| < unique then OutOfKeys else if 2 * unique < size then Overrun else Complete
    ensures outcome == Complete ==> InsertBatch(batch, used, unique, size) && Tracks(tracker[..], used + Keys(batch))
    ensures outcome == Complete ==> Keys(batch) == Keys(stream[from..pos]) - used
  {
    hide Drawn, InsertBatch, Shuffles, Tracks, Keys, Marked, Firsts;
    ghost var before := tracker[..];
    var step := new bool[tracker.Length](_ => false);
    var drawn, ended;
    drawn, pos, ended := DrawFresh(stream, from, unique, tracker, step);
    FirstsAre(drawn, stream, from, pos, before, used);
    batch := [];
    if !ended { return batch, pos, OutOfKeys; }
    MarkedForAll(drawn, before, tracker[..], step[..]);
    var keys, inside := ScanDuplicates(step, drawn, size);
    if !inside { return batch, pos, Overrun; }
    batch, outcome := shuffle(z, keys), Complete;
    ghost var n :| 0 <= n <= step.Length && keys == drawn + Marked(step[..], n);
    Shuffled(shuffle, z, keys);
    BatchOfDrawn(drawn, before, tracker[..], step[..], n, keys, batch, used);
    TrackedAfter(drawn, before, tracker[..], step[..], n, keys, batch, used);
    SameKeys(drawn, before, tracker[..], step[..], n, keys, batch);
  }

  /** What is drawn from the stream are its keys that are not tracked, and all there are if the stream ends first. */
  lemma FirstsAre(drawn: seq<nat>, stream: seq<nat>, from: nat, pos: nat, before: seq<bool>, used: set<nat>)
    requires from <= pos <= |stream| && Firsts(drawn, stream[from..pos], before) && Tracks(before, used)
    ensures Keys(drawn) == Keys(stream[from..pos]) - used && |drawn| == |Keys(drawn)|
    ensures |drawn| <= |Keys(stream[from..]) - used| && (pos == |stream| ==> |drawn| == |Keys(stream[from..]) - used|)
  {
    DistinctCounts(drawn);
    assert Keys(drawn) == Keys(stream[from..pos]) - used;
    assert stream[from..] == stream[from..pos] + stream[pos..];
    var all := Keys(stream[from..]) - used;
    assert Keys(drawn) <= all;
    SubsetSize(Keys(drawn), all);
    if pos == |stream| { assert stream[from..pos] == stream[from..]; }
  }

  lemma {:induction false} SubsetSize(a: set<nat>, b: set<nat>)
    requires a <= b
    ensures |a| <= |b|
  {
    assert b == a + (b - a);
  }

  lemma SameKeys(drawn: seq<nat>, before: seq<bool>, now: seq<bool>, step: seq<bool>, n: nat, keys: seq<nat>, batch: seq<nat>)
    requires Drawn(drawn, before, now, step) && n <= |step| && keys == drawn + Marked(step, n) && multiset(batch) == multiset(keys)
    ensures Keys(batch) == Keys(drawn)
  {
    SameMembers(batch, keys);
  }

  lemma MarkedForAll(drawn: seq<nat>, before: seq<bool>, now: seq<bool>, step: seq<bool>)
    requires Drawn(drawn, before, now, step)
    ensures |Marked(step, |step|)| == |drawn|
  {
  }

  lemma Shuffled(shuffle: (nat, seq<nat>) -> seq<nat>, z: nat, s: seq<nat>)
    requires Shuffles(shuffle)
    ensures multiset(shuffle(z, s)) == multiset(s)
  {
  }

  lemma TrackedAfter(drawn: seq<nat>, before: seq<bool>, now: seq<bool>, step: seq<bool>, n: nat, keys: seq<nat>, batch: seq<nat>, used: set<nat>)
    requires Drawn(drawn, before, now, step) && n <= |step| && keys == drawn + Marked(step, n)
    requires multiset(batch) == multiset(keys) && Tracks(before, used)
    ensures Tracks(now, used + Keys(batch))
  {
    SameMembers(batch, keys);
    assert forall x: nat :: x in keys <==> x in drawn;
  }

  // ----- The insert trace -----

  ghost function Flat(batches: seq<seq<nat>>): seq<nat> {
    if batches == [] then [] else Flat(batches[..|batches| - 1]) + batches[|batches| - 1]
  }

  ghost predicate InsertTrace(batches: seq<seq<nat>>, unique: nat, size: nat) {
    batches == [] ||
    var front := batches[..|batches| - 1];
    InsertTrace(front, unique, size) && InsertBatch(batches[|batches| - 1], Keys(Flat(front)), unique, size)
  }

  lemma FlatMore(batches: seq<seq<nat>>, b: seq<nat>)
    ensures Flat(batches + [b]) == Flat(batches) + b && Keys(Flat(batches) + b) == Keys(Flat(batches)) + Keys(b)
  {
    assert (batches + [b])[..|batches|] == batches;
  }

  lemma TraceMore(batches: seq<seq<nat>>, b: seq<nat>, unique: nat, size: nat)
    requires InsertTrace(batches, unique, size) && InsertBatch(b, Keys(Flat(batches)), unique, size)
    ensures InsertTrace(batches + [b], unique, size)
  {
    assert (batches + [b])[..|batches|] == batches;
  }

  /** In the whole trace no key occurs more than twice, and there are as many different keys as were drawn fresh. */
  lemma {:induction false} NoKeyThrice(batches: seq<seq<nat>>, unique: nat, size: nat)
    requires InsertTrace(batches, unique, size)
    ensures forall k :: multiset(Flat(batches))[k] <= 2
    ensures |Flat(batches)| == size * |batches| && |Keys(Flat(batches))| == unique * |batches|
    decreases |batches|
  {
    hide Keys, Flat;
    EmptyTrace(unique, size);
    if batches != [] {
      var front, last := batches[..|batches| - 1], batches[|batches| - 1];
      NoKeyThrice(front, unique, size);
      assert front + [last] == batches;
      FlatMore(front, last);
      TwiceAtMost(Flat(front), last);
      DisjointSizes(Keys(Flat(front)), Keys(last));
      OneMoreTime(size, |front|);
      OneMoreTime(unique, |front|);
    }
  }

  lemma OneMoreTime(a: nat, n: nat)
    ensures a * (n + 1) == a * n + a
  {
  }

  lemma DisjointSizes(a: set<nat>, b: set<nat>)
    requires a !! b
    ensures |a + b| == |a| + |b|
  {
  }

  lemma TwiceAtMost(s: seq<nat>, b: seq<nat>)
    requires Keys(s) !! Keys(b) && (forall k :: multiset(s)[k] <= 2) && forall k :: multiset(b)[k] <= 2
    ensures forall k :: multiset(s + b)[k] <= 2
  {
    forall k ensures multiset(s + b)[k] <= 2 {
      assert multiset(s + b) == multiset(s) + multiset(b);
      assert k in Keys(s) <==> k in multiset(s);
      assert k in Keys(b) <==> k in multiset(b);
    }
  }

  /** A key never comes back in a later batch. */
  lemma {:induction false} KeysStayInTheirBatch(batches: seq<seq<nat>>, unique: nat, size: nat, i: nat, j: nat)
    requires InsertTrace(batches, unique, size) && i < j < |batches|
    ensures Keys(batches[i]) !! Keys(batches[j])
    decreases |batches|
  {
    var front, last := batches[..|batches| - 1], batches[|batches| - 1];
    if j < |front| {
      KeysStayInTheirBatch(front, unique, size, i, j);
    } else {
      BatchIsInFlat(front, i);
    }
  }

  lemma {:induction false} BatchIsInFlat(batches: seq<seq<nat>>, i: nat)
    requires i < |batches|
    ensures Keys(batches[i]) <= Keys(Flat(batches))
    decreases |batches|
  {
    if i < |batches| - 1 { BatchIsInFlat(batches[..|batches| - 1], i); }
  }

  /** How the insert loop ends, given how many different keys the stream has. */
  function Ending(different: nat, totalIter: nat, unique: nat, size: nat): Outcome {
    if totalIter == 0 then Complete
    else if different < unique then OutOfKeys
    else if 2 * unique < size then Overrun
    else if different < unique * totalIter then OutOfKeys
    else Complete
  }

  /** The insert loop: batch after batch is put in at the end of what there is.  The batches take the different keys of the
      stream in turn; the trace is complete exactly if the stream has enough of them and no scan overruns the bitmap. */
  method GenerateInserts(stream: seq<nat>, totalIter: nat, unique: nat, size: nat, tracker: array<bool>, shuffle: (nat, seq<nat>) -> seq<nat>)
    returns (addKeys: seq<nat>, ghost batches: seq<seq<nat>>, outcome: Outcome)
    requires IsStream(stream, tracker.Length) && Shuffles(shuffle) && unique <= size
    requires Tracks(tracker[..], {})
    modifies tracker
    ensures outcome == Ending(|Keys(stream)|, totalIter, unique, size)
    ensures outcome == Complete ==> exists n :: 0 <= n <= |stream| && Keys(addKeys) == Keys(stream[..n])
    ensures outcome == Complete ==> |batches| == totalIter && InsertTrace(batches, unique, size) && addKeys == Flat(batches)
    ensures outcome == Complete ==> Tracks(tracker[..], Keys(addKeys))
  {
    hide Tracks, InsertBatch, IsStream, Shuffles, InsertTrace, Keys, Flat, Ending;
    addKeys, batches, outcome := [], [], Complete;
    EmptyTrace(unique, size);
    KeysSoFar(stream, 0, 0);
    var z, pos := 0, 0;
    while z < totalIter
      invariant z == |batches| <= totalIter && outcome == Complete && pos <= |stream| && (z > 0 ==> size <= 2 * unique)
      invariant InsertTrace(batches, unique, size) && addKeys == Flat(batches) && Tracks(tracker[..], Keys(addKeys))
      invariant Keys(addKeys) == Keys(stream[..pos])
    {
      NoKeyThrice(batches, unique, size);
      BatchDecides(stream, pos, unique, size, z, totalIter);
      ghost var start := pos;
      var batch;
      batch, pos, outcome := InsertOneBatch(stream, pos, unique, size, tracker, shuffle, z, Keys(addKeys));
      if outcome != Complete { return; }
      KeysSoFar(stream, start, pos);
      TraceMore(batches, batch, unique, size);
      FlatMore(batches, batch);
      InsertAtEnd(addKeys, batch, size * z);
      addKeys := addKeys[..size * z] + batch + addKeys[size * z..];
      batches := batches + [batch];
      z := z + 1;
    }
    NoKeyThrice(batches, unique, size);
    AllDecided(stream, pos, unique, size, totalIter);
  }

  /** What is left of the stream suffices for one more batch exactly if the whole suffices for that many. */
  lemma KeysLeft(stream: seq<nat>, pos: nat, unique: nat, z: nat)
    requires pos <= |stream| && |Keys(stream[..pos])| == unique * z
    ensures |Keys(stream[pos..]) - Keys(stream[..pos])| < unique <==> |Keys(stream)| < unique * (z + 1)
  {
    hide Keys;
    var a, b := Keys(stream[..pos]), Keys(stream[pos..]) - Keys(stream[..pos]);
    KeysSplit(stream, pos);
    DisjointSizes(a, b);
    OneMoreTime(unique, z);
  }

  lemma KeysSplit(stream: seq<nat>, pos: nat)
    requires pos <= |stream|
    ensures Keys(stream) == Keys(stream[..pos]) + (Keys(stream[pos..]) - Keys(stream[..pos]))
  {
    assert stream == stream[..pos] + stream[pos..];
  }

  lemma BatchDecides(stream: seq<nat>, pos: nat, unique: nat, size: nat, z: nat, totalIter: nat)
    requires pos <= |stream| && |Keys(stream[..pos])| == unique * z && z < totalIter && (z > 0 ==> size <= 2 * unique)
    ensures var few := |Keys(stream[pos..]) - Keys(stream[..pos])| < unique;
            few || 2 * unique < size ==> Ending(|Keys(stream)|, totalIter, unique, size) == if few then OutOfKeys else Overrun
  {
    hide Keys;
    KeysLeft(stream, pos, unique, z);
    MoreTimes(unique, 1, z + 1);
    MoreTimes(unique, z + 1, totalIter);
  }

  lemma AllDecided(stream: seq<nat>, pos: nat, unique: nat, size: nat, totalIter: nat)
    requires pos <= |stream| && |Keys(stream[..pos])| == unique * totalIter && (totalIter > 0 ==> size <= 2 * unique)
    ensures Ending(|Keys(stream)|, totalIter, unique, size) == Complete
  {
    hide Keys;
    KeysSplit(stream, pos);
    SubsetSize(Keys(stream[..pos]), Keys(stream));
    if totalIter > 0 { MoreTimes(unique, 1, totalIter); }
  }

  lemma MoreTimes(a: nat, m: nat, n: nat)
    requires m <= n
    ensures a * m <= a * n
  {
    assert a * n == a * m + a * (n - m);
  }

  lemma KeysSoFar(stream: seq<nat>, start: nat, pos: nat)
    requires start <= pos <= |stream|
    ensures Keys(stream[..pos]) == Keys(stream[..start]) + (Keys(stream[start..pos]) - Keys(stream[..start]))
    ensures pos == 0 ==> Keys(stream[..pos]) == {}
  {
    assert stream[..pos] == stream[..start] + stream[start..pos];
  }

  lemma EmptyTrace(unique: nat, size: nat)
    ensures InsertTrace([], unique, size) && Flat([]) == [] && Keys([]) == {}
  {
  }

  lemma InsertAtEnd(s: seq<nat>, b: seq<nat>, at: nat)
    requires at == |s|
    ensures s[..at] + b + s[at..] == s + b
  {
  }

  // ----- The delete trace -----

  /** The keys of a delete batch that were inserted and are deleted here for the first time. */
  ghost function FirstDeletes(keys: seq<nat>, inserted: set<nat>, before: set<nat>): set<nat> {
    set k | k in keys && k in inserted && k !in before
  }

  /** So many keys in all, and exactly so many of them present when the batch begins. */
  ghost predicate DeleteBatch(batch: seq<nat>, inserted: set<nat>, before: set<nat>, existing: nat, size: nat) {
    |batch| == size && |FirstDeletes(batch, inserted, before)| == existing
  }

  ghost predicate Deleting(keys: seq<nat>, inserted: set<nat>, before: set<nat>, now: seq<bool>, existing: nat) {
    Tracks(now, before + Keys(keys)) && |FirstDeletes(keys, inserted, before)| == existing
  }

  lemma DeleteOne(keys: seq<nat>, inserted: set<nat>, before: set<nat>, now: seq<bool>, existing: nat, k: nat)
    requires Deleting(keys, inserted, before, now, existing) && k < |now|
    ensures Deleting(keys + [k], inserted, before, now[k := true], existing + if k in inserted && !now[k] then 1 else 0)
  {
    var f, g := FirstDeletes(keys, inserted, before), FirstDeletes(keys + [k], inserted, before);
    if k in inserted && !now[k] {
      assert k !in before + Keys(keys);
      assert g == f + {k};
    } else {
      assert g == f;
    }
    assert Keys(keys + [k]) == Keys(keys) + {k};
  }

  /** A batch is picked from s without passing over anything that it has room for: a key that is present, or another
      occurrence of one that is gone or never came. */
  ghost predicate Picked(batch: seq<nat>, s: seq<nat>, inserted: set<nat>, before: set<nat>, existing: nat, missing: nat) {
    var present := |FirstDeletes(batch, inserted, before)|;
    present <= existing && |batch| - present <= missing && multiset(batch) <= multiset(s) &&
    (present < existing ==> forall k :: k in s && k in inserted && k !in before ==> k in batch) &&
    (|batch| - present < missing ==>
      forall k :: k in batch || k !in inserted || k in before ==> multiset(batch)[k] == multiset(s)[k])
  }

  lemma PickOne(keys: seq<nat>, s: seq<nat>, inserted: set<nat>, before: set<nat>, existing: nat, missing: nat, k: nat, isNew: bool)
    requires Picked(keys, s, inserted, before, existing, missing)
    requires isNew <==> k in inserted && k !in before && k !in keys
    ensures var present := |FirstDeletes(keys, inserted, before)|;
            Picked(if (if isNew then present < existing else |keys| - present < missing) then keys + [k] else keys,
                   s + [k], inserted, before, existing, missing)
  {
    var f, g := FirstDeletes(keys, inserted, before), FirstDeletes(keys + [k], inserted, before);
    assert g == if isNew then f + {k} else f;
    assert multiset(s + [k]) == multiset(s) + multiset{k} && multiset(keys + [k]) == multiset(keys) + multiset{k};
    hide FirstDeletes;
    if isNew && |f| < existing { assert k !in multiset(s) && k !in multiset(keys); }
  }

  lemma NothingPicked(inserted: set<nat>, before: set<nat>, existing: nat, missing: nat)
    ensures Picked([], [], inserted, before, existing, missing)
  {
    assert FirstDeletes([], inserted, before) == {};
  }

  lemma PickedShuffled(keys: seq<nat>, batch: seq<nat>, s: seq<nat>, inserted: set<nat>, before: set<nat>, existing: nat, missing: nat)
    requires Picked(keys, s, inserted, before, existing, missing) && multiset(batch) == multiset(keys)
    ensures Picked(batch, s, inserted, before, existing, missing)
  {
    SameMembers(batch, keys);
    assert FirstDeletes(batch, inserted, before) == FirstDeletes(keys, inserted, before);
  }

  /** Which keys are new, as the bitmaps tell it. */
  lemma NewByBitmaps(keys: seq<nat>, inserted: set<nat>, before: set<nat>, tracker: seq<bool>, now: seq<bool>, existing: nat, k: nat)
    requires Tracks(tracker, inserted) && Deleting(keys, inserted, before, now, existing) && k < |tracker| == |now|
    ensures tracker[k] && !now[k] <==> k in inserted && k !in before && k !in keys
    ensures (k in inserted <==> tracker[k]) && |FirstDeletes(keys, inserted, before)| == existing
  {
  }

  /** Draws keys until the batch is full: up to so many present ones, and up to so many that are gone or never came. */
  method DrawDeletes(stream: seq<nat>, from: nat, existing: nat, missing: nat, tracker: array<bool>, deleted: array<bool>,
                     ghost inserted: set<nat>, ghost before: set<nat>)
    returns (keys: seq<nat>, pos: nat, ended: bool)
    requires tracker != deleted && tracker.Length == deleted.Length && IsStream(stream, tracker.Length) && from <= |stream|
    requires Tracks(tracker[..], inserted) && Tracks(deleted[..], before)
    modifies deleted
    ensures from <= pos <= |stream| && |keys| <= existing + missing
    ensures (ended <==> |keys| == existing + missing) && (!ended ==> pos == |stream|)
    ensures Picked(keys, stream[from..pos], inserted, before, existing, missing)
    ensures ended ==> Deleting(keys, inserted, before, deleted[..], existing)
  {
    hide Deleting, FirstDeletes, Keys, Tracks, Picked;
    keys, pos := [], from;
    var trackExisting, trackMissing := 0, 0;
    StartDeleting(inserted, before, deleted[..]);
    NothingPicked(inserted, before, existing, missing);
    assert stream[from..from] == [];
    while |keys| < existing + missing && pos < |stream|
      invariant from <= pos <= |stream| && |keys| == trackExisting + trackMissing
      invariant trackExisting <= existing && trackMissing <= missing
      invariant Deleting(keys, inserted, before, deleted[..], trackExisting)
      invariant Picked(keys, stream[from..pos], inserted, before, existing, missing)
      decreases |stream| - pos
    {
      var temp := stream[pos];
      OneMoreOf(stream, from, pos);
      NewByBitmaps(keys, inserted, before, tracker[..], deleted[..], trackExisting, temp);
      PickOne(keys, stream[from..pos], inserted, before, existing, missing, temp, tracker[temp] && !deleted[temp]);
      DeleteOne(keys, inserted, before, deleted[..], trackExisting, temp);
      pos := pos + 1;
      if tracker[temp] && !deleted[temp] && trackExisting < existing {
        deleted[temp] := true;
        keys := keys + [temp];
        trackExisting := trackExisting + 1;
      } else if deleted[temp] && trackMissing < missing {
        deleted[temp] := true;
        keys := keys + [temp];
        trackMissing := trackMissing + 1;
      } else if !tracker[temp] && trackMissing < missing {
        deleted[temp] := true;
        keys := keys + [temp];
        trackMissing := trackMissing + 1;
      }
    }
    ended := |keys| == existing + missing;
    if ended { assert trackExisting + trackMissing == existing + missing; }
  }

  lemma StartDeleting(inserted: set<nat>, before: set<nat>, now: seq<bool>)
    requires Tracks(now, before)
    ensures Deleting([], inserted, before, now, 0)
  {
    assert Keys([]) == {} && before + {} == before;
    assert FirstDeletes([], inserted, before) == {};
  }

  ghost predicate DeleteTrace(batches: seq<seq<nat>>, inserted: set<nat>, existing: nat, size: nat) {
    batches == [] ||
    var front := batches[..|batches| - 1];
    DeleteTrace(front, inserted, existing, size) && DeleteBatch(batches[|batches| - 1], inserted, Keys(Flat(front)), existing, size)
  }

  lemma DeletesMore(batches: seq<seq<nat>>, b: seq<nat>, inserted: set<nat>, existing: nat, size: nat)
    requires DeleteTrace(batches, inserted, existing, size) && DeleteBatch(b, inserted, Keys(Flat(batches)), existing, size)
    ensures DeleteTrace(batches + [b], inserted, existing, size)
  {
    assert (batches + [b])[..|batches|] == batches;
  }

  /** Over the whole trace, as many of the inserted keys are deleted as the batches promise. */
  lemma {:induction false} DeletedInAll(batches: seq<seq<nat>>, inserted: set<nat>, existing: nat, size: nat)
    requires DeleteTrace(batches, inserted, existing, size)
    ensures |Flat(batches)| == size * |batches| && |inserted * Keys(Flat(batches))| == existing * |batches|
    decreases |batches|
  {
    hide Keys, Flat, FirstDeletes;
    EmptyTrace(0, size);
    if batches != [] {
      var front, last := batches[..|batches| - 1], batches[|batches| - 1];
      DeletedInAll(front, inserted, existing, size);
      assert front + [last] == batches;
      FlatMore(front, last);
      var f := FirstDeletes(last, inserted, Keys(Flat(front)));
      DeletedWith(Flat(front), last, inserted);
      DisjointSizes(inserted * Keys(Flat(front)), f);
      OneMoreTime(size, |front|);
      OneMoreTime(existing, |front|);
    }
  }

  lemma DeletedWith(s: seq<nat>, b: seq<nat>, inserted: set<nat>)
    ensures var f := FirstDeletes(b, inserted, Keys(s));
            inserted * (Keys(s) + Keys(b)) == inserted * Keys(s) + f && inserted * Keys(s) !! f
  {
  }

  lemma BatchOfDeletes(keys: seq<nat>, batch: seq<nat>, inserted: set<nat>, before: set<nat>, now: seq<bool>, existing: nat)
    requires Deleting(keys, inserted, before, now, existing) && multiset(batch) == multiset(keys)
    ensures DeleteBatch(batch, inserted, before, existing, |keys|) && Tracks(now, before + Keys(batch))
  {
    SameMembers(batch, keys);
    assert Keys(batch) == Keys(keys);
    assert FirstDeletes(batch, inserted, before) == FirstDeletes(keys, inserted, before);
  }

  /** The batches are picked from the stream one behind the other; batch z begins at cuts[z]. */
  ghost predicate PickedInTurn(batches: seq<seq<nat>>, cuts: seq<nat>, stream: seq<nat>, inserted: set<nat>, existing: nat, missing: nat) {
    |cuts| == |batches| + 1 && cuts[0] == 0 && cuts[|batches|] <= |stream| &&
    forall z :: 0 <= z < |batches| ==> PickedAt(batches, cuts, stream, inserted, existing, missing, z)
  }

  ghost predicate PickedAt(batches: seq<seq<nat>>, cuts: seq<nat>, stream: seq<nat>, inserted: set<nat>, existing: nat, missing: nat, z: nat)
    requires z < |batches| < |cuts|
  {
    cuts[z] <= cuts[z + 1] <= |stream| &&
    Picked(batches[z], stream[cuts[z]..cuts[z + 1]], inserted, Keys(Flat(batches[..z])), existing, missing)
  }

  lemma PickedNext(batches: seq<seq<nat>>, cuts: seq<nat>, stream: seq<nat>, inserted: set<nat>, existing: nat, missing: nat, b: seq<nat>, pos: nat)
    requires PickedInTurn(batches, cuts, stream, inserted, existing, missing) && cuts[|batches|] <= pos <= |stream|
    requires Picked(b, stream[cuts[|batches|]..pos], inserted, Keys(Flat(batches)), existing, missing)
    ensures PickedInTurn(batches + [b], cuts + [pos], stream, inserted, existing, missing)
  {
    hide Picked, Keys, Flat;
    var more := batches + [b];
    forall z | 0 <= z < |more| ensures PickedAt(more, cuts + [pos], stream, inserted, existing, missing, z) {
      assert more[..z] == if z < |batches| then batches[..z] else batches;
      assert z < |batches| ==> PickedAt(batches, cuts, stream, inserted, existing, missing, z);
    }
  }

  /** The delete loop.  If it does not come to its end, what is left of the stream is too little for one more batch. */
  method GenerateDeletes(stream: seq<nat>, totalIter: nat, existing: nat, missing: nat, tracker: array<bool>, deleted: array<bool>,
                         shuffle: (nat, seq<nat>) -> seq<nat>, ghost inserted: set<nat>)
    returns (deletes: seq<nat>, ghost batches: seq<seq<nat>>, ghost cuts: seq<nat>, ended: bool)
    requires tracker != deleted && tracker.Length == deleted.Length && IsStream(stream, tracker.Length) && Shuffles(shuffle)
    requires Tracks(tracker[..], inserted) && Tracks(deleted[..], {})
    modifies deleted
    ensures DeleteTrace(batches, inserted, existing, existing + missing) && deletes == Flat(batches)
    ensures PickedInTurn(batches, cuts, stream, inserted, existing, missing)
    ensures if ended then |batches| == totalIter
            else |batches| < totalIter && exists rest ::
              |rest| < existing + missing &&
              Picked(rest, stream[cuts[|batches|]..], inserted, Keys(Flat(batches)), existing, missing)
  {
    hide Tracks, DeleteBatch, IsStream, Shuffles, DeleteTrace, Keys, Flat, Deleting, Picked, FirstDeletes;
    deletes, batches, cuts, ended := [], [], [0], true;
    EmptyDeletes(inserted, existing, existing + missing);
    var size := existing + missing;
    var z, pos := 0, 0;
    while z < totalIter
      invariant z == |batches| <= totalIter && ended && pos <= |stream|
      invariant DeleteTrace(batches, inserted, existing, size) && deletes == Flat(batches) && Tracks(deleted[..], Keys(deletes))
      invariant PickedInTurn(batches, cuts, stream, inserted, existing, missing) && cuts[z] == pos
    {
      ghost var start := pos;
      ghost var before := Keys(deletes);
      var keys;
      keys, pos, ended := DrawDeletes(stream, pos, existing, missing, tracker, deleted, inserted, before);
      if !ended {
        assert stream[start..pos] == stream[start..];
        return;
      }
      var batch := shuffle(z, keys);
      Shuffled(shuffle, z, keys);
      BatchOfDeletes(keys, batch, inserted, before, deleted[..], existing);
      DeletedInAll(batches, inserted, existing, size);
      DeletesMore(batches, batch, inserted, existing, size);
      PickedShuffled(keys, batch, stream[start..pos], inserted, before, existing, missing);
      PickedNext(batches, cuts, stream, inserted, existing, missing, batch, pos);
      FlatMore(batches, batch);
      InsertAtEnd(deletes, batch, size * z);
      deletes := deletes[..size * z] + batch + deletes[size * z..];
      batches, cuts := batches + [batch], cuts + [pos];
      z := z + 1;
    }
  }

  lemma EmptyDeletes(inserted: set<nat>, existing: nat, size: nat)
    ensures DeleteTrace([], inserted, existing, size) && Flat([]) == [] && Keys([]) == {}
  {
  }
}
