/** The sweep over start and stop events that weighs build steps. */
module NinjaSummary {
  import opened TimeShares
  import opened Sequences

  datatype Action = Start | Stop

  datatype Event = Event(time: real, action: Action, target: Target)

  function StartOf(t: Target): Event {
    Event(t.start, Start, t)
  }

  function StopOf(t: Target): Event {
    Event(t.end, Stop, t)
  }

  // ----- The order of the events -----

  /** By time, and at the same time starts before stops. */
  predicate NotAfter(e: Event, f: Event) {
    e.time < f.time || (e.time == f.time && (e.action == Start || f.action == Stop))
  }

  ghost predicate IsSorted(s: seq<Event>) {
    forall i, j :: 0 <= i < j < |s| ==> NotAfter(s[i], s[j])
  }

  /** A stable insertion: after every event that is not later. */
  function Insert(s: seq<Event>, e: Event): seq<Event> {
    if s == [] || NotAfter(s[|s| - 1], e) then s + [e] else Insert(s[..|s| - 1], e) + [s[|s| - 1]]
  }

  function Sorted(s: seq<Event>): seq<Event> {
    if s == [] then [] else Insert(Sorted(s[..|s| - 1]), s[|s| - 1])
  }

  lemma {:induction false} InsertKeeps(s: seq<Event>, e: Event)
    ensures multiset(Insert(s, e)) == multiset(s) + multiset{e}
  {
    hide NotAfter;
    if s != [] && !NotAfter(s[|s| - 1], e) {
      InsertKeeps(s[..|s| - 1], e);
      assert s == s[..|s| - 1] + [s[|s| - 1]];
    }
  }

  lemma InsertMember(s: seq<Event>, e: Event, x: Event)
    ensures x in Insert(s, e) <==> x in s || x == e
  {
    hide Insert;
    InsertKeeps(s, e);
    assert x in multiset(Insert(s, e)) <==> x in multiset(s) || x == e;
  }

  lemma AppendSorted(s: seq<Event>, e: Event)
    requires IsSorted(s) && forall x :: x in s ==> NotAfter(x, e)
    ensures IsSorted(s + [e])
  {
    hide NotAfter;
    assert forall i :: 0 <= i < |s| ==> s[i] in s;
  }

  lemma NotAfterLast(s: seq<Event>, e: Event)
    requires IsSorted(s) && s != [] && NotAfter(s[|s| - 1], e)
    ensures forall x :: x in s ==> NotAfter(x, e)
  {
    forall x | x in s ensures NotAfter(x, e) {
      var i :| 0 <= i < |s| && s[i] == x;
      assert i == |s| - 1 || NotAfter(s[i], s[|s| - 1]);
    }
  }

  lemma {:induction false} InsertSorted(s: seq<Event>, e: Event)
    requires IsSorted(s)
    ensures IsSorted(Insert(s, e))
  {
    hide IsSorted;
    if s == [] {
      AppendSorted(s, e);
    } else if NotAfter(s[|s| - 1], e) {
      NotAfterLast(s, e);
      AppendSorted(s, e);
    } else {
      var front, last := s[..|s| - 1], s[|s| - 1];
      assert s == front + [last];
      FrontSorted(front, last);
      InsertSorted(front, e);
      var r := Insert(front, e);
      forall x | x in r ensures NotAfter(x, last) { InsertMember(front, e, x); }
      AppendSorted(r, last);
    }
  }

  lemma FrontSorted(front: seq<Event>, last: Event)
    requires IsSorted(front + [last])
    ensures IsSorted(front) && forall x :: x in front ==> NotAfter(x, last)
  {
    hide NotAfter;
    var s := front + [last];
    forall x | x in front ensures NotAfter(x, last) {
      var i :| 0 <= i < |front| && front[i] == x;
      assert s[i] == x && s[|front|] == last;
    }
    assert forall i :: 0 <= i < |front| ==> s[i] == front[i];
  }

  lemma {:induction false} SortedSorts(s: seq<Event>)
    ensures IsSorted(Sorted(s)) && multiset(Sorted(s)) == multiset(s)
  {
    hide IsSorted, Insert, NotAfter;
    if s == [] {
      NothingSorted();
    } else {
      var front, last := s[..|s| - 1], s[|s| - 1];
      SortedSorts(front);
      InsertSorted(Sorted(front), last);
      InsertKeeps(Sorted(front), last);
      assert s == front + [last];
    }
  }

  lemma NothingSorted()
    ensures IsSorted([])
  {
  }

  /** The two events of every target, once each, and nothing else. */
  ghost predicate EventsOf(ev: seq<Event>, entries: seq<Target>) {
    Distinct(ev) &&
    (forall t :: t in entries ==> StartOf(t) in ev && StopOf(t) in ev) &&
    (forall e :: e in ev ==> e.target in entries && (e == StartOf(e.target) || e == StopOf(e.target)))
  }

  lemma DistinctAsMultiset<X>(s: seq<X>, r: seq<X>)
    requires Distinct(s) && multiset(r) == multiset(s)
    ensures Distinct(r) && forall x :: x in r <==> x in s
  {
    forall x ensures x in r <==> x in s { assert x in multiset(r) <==> x in multiset(s); }
    forall i, j | 0 <= i < j < |r| && r[i] == r[j] ensures false {
      Twice(r, i, j);
      Once(s, r[i]);
    }
  }

  lemma Twice<X>(s: seq<X>, i: nat, j: nat)
    requires i < j < |s| && s[i] == s[j]
    ensures 2 <= multiset(s)[s[i]]
  {
    assert s == s[..j] + [s[j]] + s[j + 1..];
    assert s[..j][i] == s[i];
    assert s[i] in s[..j];
  }

  lemma {:induction false} Once<X>(s: seq<X>, x: X)
    requires Distinct(s)
    ensures multiset(s)[x] <= 1
  {
    if s != [] {
      Once(s[1..], x);
      assert s == [s[0]] + s[1..];
      assert s[0] !in s[1..];
    }
  }

  // ----- What the sweep knows after k events -----

  ghost predicate Past(e: Event, ev: seq<Event>, k: nat)
    requires k <= |ev|
  {
    e in ev[..k]
  }

  ghost predicate Running(t: Target, ev: seq<Event>, k: nat)
    requires k <= |ev|
  {
    Past(StartOf(t), ev, k) && !Past(StopOf(t), ev, k)
  }

  function Times(ev: seq<Event>): (r: seq<real>)
    ensures |r| == |ev| && forall i :: 0 <= i < |ev| ==> r[i] == ev[i].time
  {
    seq(|ev|, i requires 0 <= i < |ev| => ev[i].time)
  }

  ghost predicate Valid(entries: seq<Target>) {
    Distinct(entries) && forall t :: t in entries ==> 0.0 <= t.start <= t.end
  }

  lemma SortedAscends(ev: seq<Event>)
    requires IsSorted(ev)
    ensures Ascending(Times(ev))
  {
  }

  /** Between two different consecutive time stamps, the running targets are those that cover the gap. */
  lemma RunningCovers(entries: seq<Target>, ev: seq<Event>, k: nat, t: Target)
    requires Valid(entries) && EventsOf(ev, entries) && IsSorted(ev) && 0 < k < |ev| && t in entries
    requires ev[k - 1].time < ev[k].time
    ensures Running(t, ev, k) <==> Covers(t, ev[k - 1].time, ev[k].time)
  {
    hide IsSorted, Past, Distinct;
    var i :| 0 <= i < |ev| && ev[i] == StartOf(t);
    var j :| 0 <= j < |ev| && ev[j] == StopOf(t);
    PastIndex(ev, i, k);
    PastIndex(ev, j, k);
    AroundGap(ev, k, i);
    AroundGap(ev, k, j);
  }

  lemma AroundGap(ev: seq<Event>, k: nat, i: nat)
    requires IsSorted(ev) && 0 < k < |ev| && i < |ev|
    ensures if i < k then ev[i].time <= ev[k - 1].time else ev[k].time <= ev[i].time
  {
    assert i < k - 1 ==> NotAfter(ev[i], ev[k - 1]);
    assert k < i ==> NotAfter(ev[k], ev[i]);
  }

  lemma PastIndex(ev: seq<Event>, j: nat, k: nat)
    requires Distinct(ev) && j < |ev| && k <= |ev|
    ensures Past(ev[j], ev, k) <==> j < k
  {
    if j < k { assert ev[..k][j] == ev[j]; }
  }

  /** A target stops only after it started. */
  lemma StartsBeforeStop(entries: seq<Target>, ev: seq<Event>, k: nat)
    requires Valid(entries) && EventsOf(ev, entries) && IsSorted(ev) && k < |ev|
    requires ev[k].action == Stop
    ensures Running(ev[k].target, ev, k)
  {
    var t := ev[k].target;
    var i :| 0 <= i < |ev| && ev[i] == StartOf(t);
    assert ev[k] == StopOf(t) && i != k;
    PastIndex(ev, i, k);
    PastIndex(ev, k, k);
  }

  lemma PastStep(ev: seq<Event>, k: nat, e: Event)
    requires k < |ev|
    ensures Past(e, ev, k + 1) <==> Past(e, ev, k) || e == ev[k]
  {
    TakeOneMore(ev, k);
  }

  ghost predicate AreRunning(keys: set<Target>, entries: seq<Target>, ev: seq<Event>, k: nat)
    requires k <= |ev|
  {
    keys == set t | t in entries && Running(t, ev, k)
  }

  ghost predicate AreDone(keys: set<Target>, entries: seq<Target>, ev: seq<Event>, k: nat)
    requires k <= |ev|
  {
    keys == set t | t in entries && Past(StopOf(t), ev, k)
  }

  ghost predicate Gaining(entries: seq<Target>, ev: seq<Event>, m: nat, running: map<Target, real>, weighted: real)
    requires m <= |ev|
  {
    forall t :: t in running ==> weighted - running[t] == Share(t, entries, Times(ev), m)
  }

  ghost predicate Weighed(entries: seq<Target>, ev: seq<Event>, m: nat, weights: map<Target, real>)
    requires m <= |ev|
  {
    forall t :: t in weights ==> weights[t] == Share(t, entries, Times(ev), m)
  }

  ghost predicate NotBegun(entries: seq<Target>, ev: seq<Event>, k: nat, m: nat)
    requires k <= |ev| && m <= |ev|
  {
    forall t :: t in entries && !Past(StartOf(t), ev, k) ==> Share(t, entries, Times(ev), m) == 0.0
  }

  /** The running targets have accrued their shares of the first m time stamps, counted from the weighted
      time at which they started; the others are done or have not begun. */
  ghost predicate Accrued(entries: seq<Target>, ev: seq<Event>, k: nat, m: nat, running: map<Target, real>,
                          weighted: real, weights: map<Target, real>)
    requires k <= |ev| && m <= |ev|
  {
    AreRunning(running.Keys, entries, ev, k) && AreDone(weights.Keys, entries, ev, k) &&
    Gaining(entries, ev, m, running, weighted) && Weighed(entries, ev, m, weights) && NotBegun(entries, ev, k, m)
  }

  /** Nothing is shared before the second time stamp. */
  lemma FirstAccrual(entries: seq<Target>, ev: seq<Event>, running: map<Target, real>, weighted: real, weights: map<Target, real>)
    requires ev != [] && Accrued(entries, ev, 0, 0, running, weighted, weights)
    ensures running == map[] && Accrued(entries, ev, 0, 1, running, weighted, weights)
  {
  }

  /** From one event to the next every running target accrues the same portion. */
  lemma Accrual(entries: seq<Target>, ev: seq<Event>, k: nat, running: map<Target, real>, weighted: real, weights: map<Target, real>)
    requires Valid(entries) && EventsOf(ev, entries) && IsSorted(ev) && 0 < k < |ev|
    requires Accrued(entries, ev, k, k, running, weighted, weights)
    ensures var a, b := ev[k - 1].time, ev[k].time;
            Accrued(entries, ev, k, k + 1, running,
              if |running| > 0 then weighted + (b - a) / |running| as real else weighted, weights)
  {
    if ev[k - 1].time < ev[k].time {
      GapAccrual(entries, ev, k, running, weighted, weights);
    } else {
      assert NotAfter(ev[k - 1], ev[k]);
      NoGapAccrual(entries, ev, k, running, weighted, weights);
    }
  }

  lemma NoGapAccrual(entries: seq<Target>, ev: seq<Event>, k: nat, running: map<Target, real>, weighted: real, weights: map<Target, real>)
    requires 0 < k < |ev| && ev[k - 1].time == ev[k].time
    requires Accrued(entries, ev, k, k, running, weighted, weights)
    ensures Accrued(entries, ev, k, k + 1, running, weighted, weights)
    ensures |running| > 0 ==> weighted + (ev[k].time - ev[k - 1].time) / |running| as real == weighted
  {
    NothingAccrues(ev[k - 1].time, ev[k].time, |running|);
    forall t | t in entries ensures Share(t, entries, Times(ev), k + 1) == Share(t, entries, Times(ev), k) {}
    hide Share;
  }

  lemma GapAccrual(entries: seq<Target>, ev: seq<Event>, k: nat, running: map<Target, real>, weighted: real, weights: map<Target, real>)
    requires Valid(entries) && EventsOf(ev, entries) && IsSorted(ev) && 0 < k < |ev|
    requires ev[k - 1].time < ev[k].time
    requires Accrued(entries, ev, k, k, running, weighted, weights)
    ensures var a, b := ev[k - 1].time, ev[k].time;
            Accrued(entries, ev, k, k + 1, running,
              if |running| > 0 then weighted + (b - a) / |running| as real else weighted, weights)
  {
    hide EventsOf, IsSorted, Running, Past, CountCovering;
    var a, b := ev[k - 1].time, ev[k].time;
    forall t | t in entries
      ensures Running(t, ev, k) <==> Covers(t, a, b)
      ensures Past(StopOf(t), ev, k) ==> !Running(t, ev, k)
      ensures !Past(StartOf(t), ev, k) ==> !Running(t, ev, k)
      ensures Share(t, entries, Times(ev), k + 1) ==
                Share(t, entries, Times(ev), k) + if Running(t, ev, k) then Portion(entries, a, b) else 0.0
    {
      RunningCovers(entries, ev, k, t);
      PastIsNotRunning(t, ev, k);
    }
    hide Share;
    assert running.Keys == set t | t in entries && Covers(t, a, b);
    CountIsCardinality(entries, a, b);
    assert |running| == CountCovering(entries, a, b);
  }

  lemma NothingAccrues(a: real, b: real, n: nat)
    requires a == b
    ensures n > 0 ==> (b - a) / n as real == 0.0
  {
  }

  lemma PastIsNotRunning(t: Target, ev: seq<Event>, k: nat)
    requires k <= |ev|
    ensures Running(t, ev, k) ==> Past(StartOf(t), ev, k) && !Past(StopOf(t), ev, k)
  {
  }

  lemma StartStep(entries: seq<Target>, ev: seq<Event>, k: nat, running: map<Target, real>, weighted: real, weights: map<Target, real>)
    requires Valid(entries) && EventsOf(ev, entries) && IsSorted(ev) && k < |ev| && ev[k].action == Start
    requires Accrued(entries, ev, k, k + 1, running, weighted, weights)
    ensures Accrued(entries, ev, k + 1, k + 1, running[ev[k].target := weighted], weighted, weights)
  {
    hide Share, AreRunning, AreDone, IsSorted, Valid, Past;
    var s := ev[k].target;
    StartsHere(entries, ev, k);
    StartIsNew(entries, ev, k, weights.Keys, running.Keys);
    GainFrom(entries, ev, k + 1, running, weighted, s);
  }

  /** At a start event exactly its target begins, and nothing stops. */
  lemma StartsHere(entries: seq<Target>, ev: seq<Event>, k: nat)
    requires Valid(entries) && EventsOf(ev, entries) && IsSorted(ev) && k < |ev| && ev[k].action == Start
    ensures var s := ev[k].target;
            s in entries && !Past(StartOf(s), ev, k) && !Past(StopOf(s), ev, k) &&
            forall t :: (Past(StartOf(t), ev, k + 1) <==> Past(StartOf(t), ev, k) || t == s) &&
                        (Past(StopOf(t), ev, k + 1) <==> Past(StopOf(t), ev, k))
  {
    hide Past, IsSorted, Valid;
    var s := ev[k].target;
    assert ev[k] == StartOf(s);
    PastIndex(ev, k, k);
    NotStopped(entries, ev, k, s);
    forall t ensures (Past(StartOf(t), ev, k + 1) <==> Past(StartOf(t), ev, k) || t == s) &&
                     (Past(StopOf(t), ev, k + 1) <==> Past(StopOf(t), ev, k)) {
      PastStep(ev, k, StartOf(t));
      PastStep(ev, k, StopOf(t));
    }
  }

  lemma StartIsNew(entries: seq<Target>, ev: seq<Event>, k: nat, done: set<Target>, running: set<Target>)
    requires k < |ev| && AreDone(done, entries, ev, k) && AreRunning(running, entries, ev, k)
    requires var s := ev[k].target;
             s in entries && !Past(StopOf(s), ev, k) &&
             forall t :: (Past(StartOf(t), ev, k + 1) <==> Past(StartOf(t), ev, k) || t == s) &&
                         (Past(StopOf(t), ev, k + 1) <==> Past(StopOf(t), ev, k))
    ensures AreDone(done, entries, ev, k + 1) && AreRunning(running + {ev[k].target}, entries, ev, k + 1)
  {
    hide Past;
  }

  lemma GainFrom(entries: seq<Target>, ev: seq<Event>, m: nat, running: map<Target, real>, weighted: real, s: Target)
    requires m <= |ev| && Gaining(entries, ev, m, running, weighted) && Share(s, entries, Times(ev), m) == 0.0
    ensures Gaining(entries, ev, m, running[s := weighted], weighted) && running[s := weighted].Keys == running.Keys + {s}
  {
    hide Share;
  }

  lemma NotStopped(entries: seq<Target>, ev: seq<Event>, k: nat, t: Target)
    requires Valid(entries) && EventsOf(ev, entries) && IsSorted(ev) && k < |ev| && ev[k] == StartOf(t)
    ensures !Past(StopOf(t), ev, k)
  {
    var j :| 0 <= j < |ev| && ev[j] == StopOf(t);
    PastIndex(ev, j, k);
  }

  lemma StopStep(entries: seq<Target>, ev: seq<Event>, k: nat, running: map<Target, real>, weighted: real, weights: map<Target, real>)
    requires Valid(entries) && EventsOf(ev, entries) && IsSorted(ev) && k < |ev| && ev[k].action == Stop
    requires Accrued(entries, ev, k, k + 1, running, weighted, weights)
    ensures var s := ev[k].target;
            s in running && s !in weights &&
            Accrued(entries, ev, k + 1, k + 1, running - {s}, weighted, weights[s := weighted - running[s]])
  {
    hide Share, AreRunning, AreDone, IsSorted, Valid, Past, EventsOf;
    var s := ev[k].target;
    StopsHere(entries, ev, k);
    StopIsOld(entries, ev, k, weights.Keys, running.Keys);
    GainTo(entries, ev, k + 1, running, weighted, weights, s);
  }

  /** At a stop event exactly its target, which was running, stops. */
  lemma StopsHere(entries: seq<Target>, ev: seq<Event>, k: nat)
    requires Valid(entries) && EventsOf(ev, entries) && IsSorted(ev) && k < |ev| && ev[k].action == Stop
    ensures var s := ev[k].target;
            s in entries && Running(s, ev, k) &&
            forall t :: (Past(StopOf(t), ev, k + 1) <==> Past(StopOf(t), ev, k) || t == s) &&
                        (Past(StartOf(t), ev, k + 1) <==> Past(StartOf(t), ev, k))
  {
    hide Past, IsSorted, Valid, Running;
    var s := ev[k].target;
    assert ev[k] == StopOf(s);
    StartsBeforeStop(entries, ev, k);
    forall t ensures (Past(StopOf(t), ev, k + 1) <==> Past(StopOf(t), ev, k) || t == s) &&
                     (Past(StartOf(t), ev, k + 1) <==> Past(StartOf(t), ev, k)) {
      PastStep(ev, k, StopOf(t));
      PastStep(ev, k, StartOf(t));
    }
  }

  lemma StopIsOld(entries: seq<Target>, ev: seq<Event>, k: nat, done: set<Target>, running: set<Target>)
    requires k < |ev| && AreDone(done, entries, ev, k) && AreRunning(running, entries, ev, k)
    requires var s := ev[k].target;
             s in entries && Running(s, ev, k) &&
             forall t :: (Past(StopOf(t), ev, k + 1) <==> Past(StopOf(t), ev, k) || t == s) &&
                         (Past(StartOf(t), ev, k + 1) <==> Past(StartOf(t), ev, k))
    ensures ev[k].target in running && ev[k].target !in done
    ensures AreDone(done + {ev[k].target}, entries, ev, k + 1) && AreRunning(running - {ev[k].target}, entries, ev, k + 1)
  {
    hide Past;
  }

  lemma GainTo(entries: seq<Target>, ev: seq<Event>, m: nat, running: map<Target, real>, weighted: real, weights: map<Target, real>, s: Target)
    requires m <= |ev| && s in running && Gaining(entries, ev, m, running, weighted) && Weighed(entries, ev, m, weights)
    ensures Gaining(entries, ev, m, running - {s}, weighted) && (running - {s}).Keys == running.Keys - {s}
    ensures Weighed(entries, ev, m, weights[s := weighted - running[s]]) && weights[s := weighted - running[s]].Keys == weights.Keys + {s}
  {
    hide Share;
  }

  // ----- The sum of the weights -----

  function SumWeights(some: seq<Target>, weights: map<Target, real>): real {
    if some == [] then 0.0
    else (if some[0] in weights then weights[some[0]] else 0.0) + SumWeights(some[1..], weights)
  }

  lemma {:induction false} SumWeightsPut(some: seq<Target>, weights: map<Target, real>, t: Target, w: real)
    requires Distinct(some) && t !in weights
    ensures SumWeights(some, weights[t := w]) == SumWeights(some, weights) + if t in some then w else 0.0
  {
    if some != [] {
      SumWeightsPut(some[1..], weights, t, w);
      assert t in some <==> t == some[0] || t in some[1..];
    }
  }

  lemma {:induction false} SumWeightsEmpty(some: seq<Target>)
    ensures SumWeights(some, map[]) == 0.0
  {
    if some != [] { SumWeightsEmpty(some[1..]); }
  }

  lemma {:induction false} SumWeightsShares(
    some: seq<Target>, weights: map<Target, real>, entries: seq<Target>, times: seq<real>)
    requires forall t :: t in some ==> t in weights && weights[t] == Share(t, entries, times, |times|)
    ensures SumWeights(some, weights) == SumShares(some, entries, times, |times|)
  {
    if some != [] { SumWeightsShares(some[1..], weights, entries, times); }
  }

  // ----- The method -----

  function EventsFor(entries: seq<Target>): seq<Event> {
    if entries == [] then []
    else EventsFor(entries[..|entries| - 1]) + [StartOf(entries[|entries| - 1]), StopOf(entries[|entries| - 1])]
  }

  /** All time stamps, in order. */
  function Stamps(entries: seq<Target>): seq<real> {
    Times(Sorted(EventsFor(entries)))
  }

  lemma {:induction false} EventsForAre(entries: seq<Target>)
    requires Distinct(entries)
    ensures EventsOf(EventsFor(entries), entries)
  {
    hide EventsOf;
    if entries == [] {
      NoEvents();
    } else {
      var front, t := entries[..|entries| - 1], entries[|entries| - 1];
      EventsForAre(front);
      assert entries == front + [t];
      TwoMoreEvents(EventsFor(front), front, t);
    }
  }

  lemma NoEvents()
    ensures EventsOf([], [])
  {
  }

  lemma TwoMoreEvents(ev: seq<Event>, front: seq<Target>, t: Target)
    requires EventsOf(ev, front) && t !in front
    ensures EventsOf(ev + [StartOf(t), StopOf(t)], front + [t])
  {
    var more := ev + [StartOf(t), StopOf(t)];
    assert forall e :: e in more <==> e in ev || e == StartOf(t) || e == StopOf(t);
    assert forall i :: 0 <= i < |ev| ==> ev[i] in ev;
  }

  lemma SortedEventsAre(entries: seq<Target>)
    requires Distinct(entries)
    ensures var ev := Sorted(EventsFor(entries));
            EventsOf(ev, entries) && IsSorted(ev) && Ascending(Stamps(entries))
  {
    hide EventsFor, Sorted, EventsOf, Distinct, IsSorted, Ascending;
    EventsForAre(entries);
    SortedSorts(EventsFor(entries));
    SameEvents(EventsFor(entries), Sorted(EventsFor(entries)), entries);
    SortedAscends(Sorted(EventsFor(entries)));
  }

  lemma SameEvents(ev: seq<Event>, ev': seq<Event>, entries: seq<Target>)
    requires EventsOf(ev, entries) && multiset(ev') == multiset(ev)
    ensures EventsOf(ev', entries)
  {
    DistinctAsMultiset(ev, ev');
  }

  /** The weighted durations set so far. */
  ghost predicate Recorded(weights: map<Target, real>)
    reads weights.Keys
  {
    forall t :: t in weights ==> t.weightedDuration == weights[t]
  }

  method SetWeightedDuration(target: Target, weightedDuration: real, ghost weights: map<Target, real>)
    requires Recorded(weights)
    modifies target
    ensures target.weightedDuration == weightedDuration
    ensures Recorded(weights[target := weightedDuration])
  {
    target.weightedDuration := weightedDuration;
  }

  /** The time since the last event is divided among the running targets. */
  method Accumulate(entries: seq<Target>, ev: seq<Event>, k: nat, running: map<Target, real>, weighted: real,
                    lastTime: real, ghost weights: map<Target, real>)
    returns (weighted': real)
    requires Valid(entries) && EventsOf(ev, entries) && IsSorted(ev) && k < |ev|
    requires Accrued(entries, ev, k, k, running, weighted, weights)
    requires lastTime == if k == 0 then ev[0].time else ev[k - 1].time
    ensures Accrued(entries, ev, k, k + 1, running, weighted', weights)
  {
    hide Accrued, EventsOf, IsSorted;
    if k == 0 { FirstAccrual(entries, ev, running, weighted, weights); }
    else { Accrual(entries, ev, k, running, weighted, weights); }
    var numRunning := |running|;
    weighted' := weighted;
    if numRunning > 0 { weighted' := weighted + (ev[k].time - lastTime) / numRunning as real; }
  }

  /** A target starts: it remembers the weighted time. */
  method StartTask(entries: seq<Target>, ev: seq<Event>, k: nat, running: map<Target, real>, weighted: real,
                   ghost weights: map<Target, real>)
    returns (running': map<Target, real>)
    requires Valid(entries) && EventsOf(ev, entries) && IsSorted(ev) && k < |ev| && ev[k].action == Start
    requires Accrued(entries, ev, k, k + 1, running, weighted, weights)
    ensures Accrued(entries, ev, k + 1, k + 1, running', weighted, weights)
  {
    hide Accrued, EventsOf, IsSorted;
    StartStep(entries, ev, k, running, weighted, weights);
    running' := running[ev[k].target := weighted];
  }

  /** A target stops: it is weighed by how much the weighted time grew. */
  method StopTask(entries: seq<Target>, ev: seq<Event>, k: nat, running: map<Target, real>, weighted: real,
                  total: real, ghost weights: map<Target, real>)
    returns (running': map<Target, real>, total': real, ghost weights': map<Target, real>)
    requires Valid(entries) && EventsOf(ev, entries) && IsSorted(ev) && k < |ev| && ev[k].action == Stop
    requires Accrued(entries, ev, k, k + 1, running, weighted, weights)
    requires total == SumWeights(entries, weights) && Recorded(weights)
    modifies ev[k].target
    ensures Accrued(entries, ev, k + 1, k + 1, running', weighted, weights')
    ensures total' == SumWeights(entries, weights') && Recorded(weights')
  {
    hide Accrued, EventsOf, IsSorted, Recorded, SumWeights;
    var target := ev[k].target;
    StopStep(entries, ev, k, running, weighted, weights);
    TargetKnown(entries, ev, k);
    var weightedDuration := weighted - running[target];
    SumWeightsPut(entries, weights, target, weightedDuration);
    SetWeightedDuration(target, weightedDuration, weights);
    total' := total + weightedDuration;
    running' := running - {target};
    weights' := weights[target := weightedDuration];
  }

  /** The sweep: every target gets its share of each stretch of time it ran in. */
  method Sweep(entries: seq<Target>, ev: seq<Event>) returns (weightedTotal: real)
    requires Valid(entries) && EventsOf(ev, entries) && IsSorted(ev) && ev != []
    modifies set t | t in entries
    ensures forall t :: t in entries ==> t.weightedDuration == Share(t, entries, Times(ev), |ev|)
    ensures weightedTotal == UnionLength(entries, Times(ev), |ev|)
  {
    hide Accrued, SumWeights, Share, EventsOf, IsSorted, Valid;
    var runningTasks: map<Target, real> := map[];
    var lastTime, lastWeightedTime := ev[0].time, 0.0;
    weightedTotal := 0.0;
    ghost var weights: map<Target, real> := map[];
    SumWeightsEmpty(entries);
    NothingAccrued(entries, ev);
    assert Recorded(weights);
    for k := 0 to |ev|
      invariant Accrued(entries, ev, k, k, runningTasks, lastWeightedTime, weights)
      invariant lastTime == if k == 0 then ev[0].time else ev[k - 1].time
      invariant weightedTotal == SumWeights(entries, weights) && Recorded(weights)
    {
      hide Recorded;
      var time, action := ev[k].time, ev[k].action;
      TargetKnown(entries, ev, k);
      lastWeightedTime := Accumulate(entries, ev, k, runningTasks, lastWeightedTime, lastTime, weights);
      if action == Start {
        runningTasks := StartTask(entries, ev, k, runningTasks, lastWeightedTime, weights);
      }
      if action == Stop {
        runningTasks, weightedTotal, weights :=
          StopTask(entries, ev, k, runningTasks, lastWeightedTime, weightedTotal, weights);
      }
      lastTime := time;
    }
    NothingRuns(entries, ev, runningTasks, lastWeightedTime, weights);
    assert |runningTasks| == 0;
    SumWeightsShares(entries, weights, entries, Times(ev));
    SortedAscends(ev);
    SharesAddUp(entries, Times(ev), |ev|);
  }

  lemma NothingAccrued(entries: seq<Target>, ev: seq<Event>)
    requires ev != []
    ensures Accrued(entries, ev, 0, 0, map[], 0.0, map[])
  {
  }

  lemma TargetKnown(entries: seq<Target>, ev: seq<Event>, k: nat)
    requires EventsOf(ev, entries) && k < |ev|
    ensures ev[k].target in entries
  {
    assert ev[k] in ev;
  }

  /** After the last event no target is running and every one has been weighed. */
  lemma NothingRuns(entries: seq<Target>, ev: seq<Event>, running: map<Target, real>, weighted: real, weights: map<Target, real>)
    requires EventsOf(ev, entries) && Accrued(entries, ev, |ev|, |ev|, running, weighted, weights)
    ensures running == map[]
    ensures forall t :: t in entries ==> t in weights && weights[t] == Share(t, entries, Times(ev), |ev|)
  {
    TakeAll(ev);
    forall t | t in entries ensures Past(StopOf(t), ev, |ev|) {}
  }

  /** The time stamps are the starts and ends of the targets, in order. */
  lemma StampsAre(entries: seq<Target>)
    requires Distinct(entries)
    ensures Ascending(Stamps(entries)) && |Stamps(entries)| == 2 * |entries|
    ensures forall t :: t in entries ==> t.start in Stamps(entries) && t.end in Stamps(entries)
    ensures forall x :: x in Stamps(entries) ==> exists t :: t in entries && (x == t.start || x == t.end)
  {
    hide EventsFor, Sorted, IsSorted, Ascending, Distinct;
    SortedEventsAre(entries);
    SortedSorts(EventsFor(entries));
    EventCount(entries);
    var ev := Sorted(EventsFor(entries));
    assert |ev| == |multiset(ev)|;
    StampsOf(entries, ev);
  }

  lemma StampsOf(entries: seq<Target>, ev: seq<Event>)
    requires EventsOf(ev, entries)
    ensures forall t :: t in entries ==> t.start in Times(ev) && t.end in Times(ev)
    ensures forall x :: x in Times(ev) ==> exists t :: t in entries && (x == t.start || x == t.end)
  {
    forall t | t in entries ensures t.start in Times(ev) && t.end in Times(ev) {
      var i :| 0 <= i < |ev| && ev[i] == StartOf(t);
      var j :| 0 <= j < |ev| && ev[j] == StopOf(t);
      assert Times(ev)[i] == t.start && Times(ev)[j] == t.end;
    }
    forall x | x in Times(ev) ensures exists t :: t in entries && (x == t.start || x == t.end) {
      var i :| 0 <= i < |ev| && Times(ev)[i] == x;
      assert ev[i] in ev && ev[i].target in entries;
    }
  }

  lemma {:induction false} EventCount(entries: seq<Target>)
    ensures |EventsFor(entries)| == 2 * |entries|
  {
    if entries != [] { EventCount(entries[..|entries| - 1]); }
  }

  function TotalDuration(entries: seq<Target>): real {
    if entries == [] then 0.0 else TotalDuration(entries[..|entries| - 1]) + entries[|entries| - 1].Duration()
  }

  /** The durations add up to the intervals between the time stamps, each as often as targets run in it. */
  lemma {:induction false} DurationsAddUp(entries: seq<Target>, times: seq<real>)
    requires Ascending(times) && times != []
    requires forall t :: t in entries ==> t.start <= t.end && t.start in times && t.end in times
    ensures TotalDuration(entries) == RunningTime(entries, times, |times|)
  {
    hide Ascending, Covers;
    if entries == [] {
      NoneRunning(times, |times|);
    } else {
      var front, t := entries[..|entries| - 1], entries[|entries| - 1];
      DurationsAddUp(front, times);
      assert front + [t] == entries;
      RunningTimeSnoc(front, t, times, |times|);
      NotBefore(times, t.start);
      NotBefore(times, t.end);
    }
  }

  lemma {:induction false} NoneRunning(times: seq<real>, k: nat)
    requires k <= |times|
    ensures RunningTime([], times, k) == 0.0
  {
    if 2 <= k { NoneRunning(times, k - 1); }
  }

  ghost predicate IsEarliest(entries: seq<Target>, x: real) {
    (exists t :: t in entries && t.start == x) && forall t :: t in entries ==> x <= t.start
  }

  ghost predicate IsLatest(entries: seq<Target>, x: real) {
    (exists t :: t in entries && t.end == x) && forall t :: t in entries ==> t.end <= x
  }

  /** The events of all targets, and the time from the first start to the last end. */
  method CollectEvents(entries: seq<Target>) returns (events: seq<Event>, earliest: real, latest: real, totalCpuTime: real)
    requires Valid(entries) && entries != []
    ensures events == EventsFor(entries) && totalCpuTime == TotalDuration(entries)
    ensures IsEarliest(entries, earliest) && IsLatest(entries, latest)
  {
    hide Span, EventsFor, TotalDuration, IsEarliest, IsLatest;
    events, earliest, latest, totalCpuTime := [], -1.0, 0.0, 0.0;
    NothingCollected();
    for i := 0 to |entries|
      invariant events == EventsFor(entries[..i]) && totalCpuTime == TotalDuration(entries[..i])
      invariant Span(entries[..i], earliest, latest)
    {
      var target := entries[i];
      CollectOne(entries, i);
      SpanStep(entries[..i], target, earliest, latest);
      if earliest < 0.0 || target.start < earliest { earliest := target.start; }
      if target.end > latest { latest := target.end; }
      totalCpuTime := totalCpuTime + target.Duration();
      events := events + [StartOf(target), StopOf(target)];
    }
    TakeAll(entries);
    SpanDone(entries, earliest, latest);
  }

  lemma NothingCollected()
    ensures EventsFor([]) == [] && TotalDuration([]) == 0.0 && Span([], -1.0, 0.0)
  {
  }

  lemma CollectOne(entries: seq<Target>, i: nat)
    requires i < |entries|
    ensures entries[..i + 1] == entries[..i] + [entries[i]]
    ensures EventsFor(entries[..i + 1]) == EventsFor(entries[..i]) + [StartOf(entries[i]), StopOf(entries[i])]
    ensures TotalDuration(entries[..i + 1]) == TotalDuration(entries[..i]) + entries[i].Duration()
    ensures forall t :: t in entries[..i] ==> t in entries
  {
    TakeOneMore(entries, i);
    assert entries[..i + 1][..i] == entries[..i];
  }

  /** The earliest start and latest end so far, starting from -1 and 0. */
  ghost predicate Span(some: seq<Target>, earliest: real, latest: real) {
    if some == [] then earliest == -1.0 && latest == 0.0
    else IsEarliest(some, earliest) && (forall t :: t in some ==> t.end <= latest) &&
         (latest == 0.0 || IsLatest(some, latest))
  }

  lemma SpanStep(some: seq<Target>, t: Target, earliest: real, latest: real)
    requires Span(some, earliest, latest) && 0.0 <= t.start <= t.end
    requires forall u :: u in some ==> 0.0 <= u.start
    ensures Span(some + [t], if earliest < 0.0 || t.start < earliest then t.start else earliest,
                 if t.end > latest then t.end else latest)
  {
    var e := if earliest < 0.0 || t.start < earliest then t.start else earliest;
    var l := if t.end > latest then t.end else latest;
    assert forall u :: u in some + [t] <==> u in some || u == t;
    if l == t.end { assert t in some + [t] && t.end == l; }
  }

  lemma SpanDone(entries: seq<Target>, earliest: real, latest: real)
    requires Span(entries, earliest, latest) && entries != []
    requires forall t :: t in entries ==> 0.0 <= t.start <= t.end
    ensures IsEarliest(entries, earliest) && IsLatest(entries, latest)
  {
    assert entries[0] in entries && 0.0 <= entries[0].end <= latest;
  }

  /** Each target's weighted duration is its share of the time; together they make up the time in which
      anything ran, which is never more than the time from the first start to the last end. */
  method SummarizeEntries(entries: seq<Target>)
    returns (length: real, weightedTotal: real, totalCpuTime: real, untrustworthy: bool)
    requires Valid(entries) && entries != []
    modifies set t | t in entries
    ensures forall t :: t in entries ==>
      t.weightedDuration == Share(t, entries, Stamps(entries), |Stamps(entries)|) &&
      0.0 <= t.weightedDuration <= t.Duration()
    ensures weightedTotal == UnionLength(entries, Stamps(entries), |Stamps(entries)|)
    ensures 0.0 <= weightedTotal <= length
    ensures exists a, b :: IsEarliest(entries, a) && IsLatest(entries, b) && length == b - a
    ensures totalCpuTime == RunningTime(entries, Stamps(entries), |Stamps(entries)|)
    ensures untrustworthy <==> length - weightedTotal > 500.0
  {
    var events, earliest, latest, total := CollectEvents(entries);
    totalCpuTime := total;
    length := latest - earliest;
    var ev := Sorted(events);
    SortedEventsAre(entries);
    StampsAre(entries);
    DurationsAddUp(entries, Stamps(entries));
    weightedTotal := Sweep(entries, ev);
    UnionBounds(entries, Times(ev), |ev|);
    WithinLength(entries, ev, earliest, latest);
    forall t | t in entries { ShareBounds(t, entries, Times(ev), |ev|); }
    var difference := if length - weightedTotal < 0.0 then weightedTotal - length else length - weightedTotal;
    untrustworthy := difference > 500.0;
  }

  lemma WithinLength(entries: seq<Target>, ev: seq<Event>, earliest: real, latest: real)
    requires entries != [] && EventsOf(ev, entries) && IsEarliest(entries, earliest) && IsLatest(entries, latest)
    requires Valid(entries)
    ensures ev != [] && ev[|ev| - 1].time - ev[0].time <= latest - earliest
  {
    assert StartOf(entries[0]) in ev;
    var e, f := ev[0], ev[|ev| - 1];
    assert e in ev && f in ev && e.target in entries && f.target in entries;
  }
}
