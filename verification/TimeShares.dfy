/** How build time is shared, computed interval by interval, without a sweep. */
module TimeShares {
  // The time between two consecutive time stamps is divided evenly among the targets that run through it,
  // in exact arithmetic.

  /** A build step. */
  class Target {
    const start: real
    const end: real
    var weightedDuration: real

    constructor (start: real, end: real)
      ensures this.start == start && this.end == end && weightedDuration == 0.0
    {
      this.start, this.end, weightedDuration := start, end, 0.0;
    }

    function Duration(): real {
      end - start
    }
  }

  ghost predicate Distinct<X>(s: seq<X>) {
    forall i, j :: 0 <= i < j < |s| ==> s[i] != s[j]
  }

  ghost predicate Ascending(times: seq<real>) {
    forall i, j :: 0 <= i <= j < |times| ==> times[i] <= times[j]
  }

  predicate Covers(t: Target, a: real, b: real) {
    t.start <= a && b <= t.end
  }

  function CountCovering(entries: seq<Target>, a: real, b: real): nat {
    if entries == [] then 0
    else (if Covers(entries[0], a, b) then 1 else 0) + CountCovering(entries[1..], a, b)
  }

  /** The time each target running from a to b gets for it. */
  function Portion(entries: seq<Target>, a: real, b: real): real {
    var n := CountCovering(entries, a, b);
    if a < b && 0 < n then (b - a) / n as real else 0.0
  }

  /** What a target gets for the first k time stamps. */
  function Share(t: Target, entries: seq<Target>, times: seq<real>, k: nat): real
    requires k <= |times|
  {
    if k < 2 then 0.0
    else Share(t, entries, times, k - 1) +
         if Covers(t, times[k - 2], times[k - 1]) then Portion(entries, times[k - 2], times[k - 1]) else 0.0
  }

  /** The time during which at least one target ran. */
  function UnionLength(entries: seq<Target>, times: seq<real>, k: nat): real
    requires k <= |times|
  {
    if k < 2 then 0.0
    else UnionLength(entries, times, k - 1) +
         if times[k - 2] < times[k - 1] && 0 < CountCovering(entries, times[k - 2], times[k - 1])
         then times[k - 1] - times[k - 2] else 0.0
  }

  // ----- A share lies between nothing and the duration -----

  lemma {:induction false} CountPositive(entries: seq<Target>, t: Target, a: real, b: real)
    requires t in entries && Covers(t, a, b)
    ensures 0 < CountCovering(entries, a, b)
  {
    if entries[0] != t { CountPositive(entries[1..], t, a, b); }
  }

  lemma ScaleBounds(q: real, r: real)
    requires 1.0 <= r
    ensures q < 0.0 ==> q * r < 0.0
    ensures 0.0 <= q ==> q <= q * r
  {
  }

  lemma Fraction(x: real, n: nat)
    requires 0.0 <= x && 0 < n
    ensures 0.0 <= x / n as real <= x && n as real * (x / n as real) == x
  {
    var q := x / n as real;
    assert q * n as real == x;
    ScaleBounds(q, n as real);
  }

  lemma PortionBounds(entries: seq<Target>, a: real, b: real)
    requires a <= b
    ensures 0.0 <= Portion(entries, a, b) <= b - a
  {
    var n := CountCovering(entries, a, b);
    if a < b && 0 < n { Fraction(b - a, n); }
  }

  /** The part of the time up to x that lies within the target's run. */
  function Within(t: Target, x: real): real {
    if x <= t.start then 0.0 else if x <= t.end then x - t.start else t.end - t.start
  }

  lemma {:induction false} ShareBounds(t: Target, entries: seq<Target>, times: seq<real>, k: nat)
    requires k <= |times| && Ascending(times) && t.start <= t.end
    ensures 0.0 <= Share(t, entries, times, k)
    ensures Share(t, entries, times, k) <= t.Duration()
    ensures 0 < k ==> Share(t, entries, times, k) <= Within(t, times[k - 1])
  {
    if 2 <= k {
      ShareBounds(t, entries, times, k - 1);
      PortionBounds(entries, times[k - 2], times[k - 1]);
    }
  }

  lemma {:induction false} UnionBounds(entries: seq<Target>, times: seq<real>, k: nat)
    requires k <= |times| && Ascending(times)
    ensures 0.0 <= UnionLength(entries, times, k)
    ensures 0 < k ==> UnionLength(entries, times, k) <= times[k - 1] - times[0]
  {
    if 2 <= k { UnionBounds(entries, times, k - 1); }
  }

  // ----- Durations, interval by interval -----

  /** The time that the targets ran for the first k time stamps: every interval counts once for each of them. */
  function RunningTime(entries: seq<Target>, times: seq<real>, k: nat): real
    requires k <= |times|
  {
    if k < 2 then 0.0
    else RunningTime(entries, times, k - 1) +
         CountCovering(entries, times[k - 2], times[k - 1]) as real * (times[k - 1] - times[k - 2])
  }

  lemma {:induction false} CountSnoc(front: seq<Target>, t: Target, a: real, b: real)
    ensures CountCovering(front + [t], a, b) == CountCovering(front, a, b) + if Covers(t, a, b) then 1 else 0
  {
    if front != [] {
      CountSnoc(front[1..], t, a, b);
      assert (front + [t])[1..] == front[1..] + [t];
    }
  }

  /** One more target adds the part of its own run between the time stamps, if it starts and ends at some of them. */
  lemma {:induction false} RunningTimeSnoc(front: seq<Target>, t: Target, times: seq<real>, k: nat)
    requires 0 < k <= |times| && Ascending(times) && t.start <= t.end && t.start in times && t.end in times
    ensures RunningTime(front + [t], times, k) == RunningTime(front, times, k) + Within(t, times[k - 1])
  {
    hide CountCovering, RunningTime;
    RunningTimeStep(front, times, k);
    RunningTimeStep(front + [t], times, k);
    if 2 <= k {
      var a, b := times[k - 2], times[k - 1];
      RunningTimeSnoc(front, t, times, k - 1);
      SnocInterval(front, t, a, b);
      NothingBetween(times, k, t.start);
      NothingBetween(times, k, t.end);
      OneMoreInterval(t, a, b);
      hide Within, Covers, Ascending, CountCovering;
    } else {
      NotBefore(times, t.start);
    }
  }

  lemma RunningTimeStep(entries: seq<Target>, times: seq<real>, k: nat)
    requires k <= |times|
    ensures RunningTime(entries, times, k) ==
      if k < 2 then 0.0
      else RunningTime(entries, times, k - 1) +
           CountCovering(entries, times[k - 2], times[k - 1]) as real * (times[k - 1] - times[k - 2])
  {
  }

  lemma SnocInterval(front: seq<Target>, t: Target, a: real, b: real)
    ensures CountCovering(front + [t], a, b) as real * (b - a) ==
            CountCovering(front, a, b) as real * (b - a) + if Covers(t, a, b) then b - a else 0.0
  {
    hide CountCovering, Covers;
    CountSnoc(front, t, a, b);
    MoreOf(CountCovering(front, a, b), b - a);
  }

  lemma OneMoreInterval(t: Target, a: real, b: real)
    requires a <= b && t.start <= t.end && (t.start <= a || b <= t.start) && (t.end <= a || b <= t.end)
    ensures Within(t, b) == Within(t, a) + if Covers(t, a, b) then b - a else 0.0
  {
  }

  lemma NothingBetween(times: seq<real>, k: nat, x: real)
    requires 2 <= k <= |times| && Ascending(times) && x in times
    ensures x <= times[k - 2] || times[k - 1] <= x
  {
    var i :| 0 <= i < |times| && times[i] == x;
  }

  lemma NotBefore(times: seq<real>, x: real)
    requires Ascending(times) && x in times
    ensures times[0] <= x <= times[|times| - 1]
  {
    var i :| 0 <= i < |times| && times[i] == x;
  }

  // ----- No time is lost or counted twice -----

  function SumShares(some: seq<Target>, entries: seq<Target>, times: seq<real>, k: nat): real
    requires k <= |times|
  {
    if some == [] then 0.0 else Share(some[0], entries, times, k) + SumShares(some[1..], entries, times, k)
  }

  lemma {:induction false} SumSharesStep(some: seq<Target>, entries: seq<Target>, times: seq<real>, k: nat)
    requires 2 <= k <= |times|
    ensures var a, b := times[k - 2], times[k - 1];
            SumShares(some, entries, times, k) ==
              SumShares(some, entries, times, k - 1) + CountCovering(some, a, b) as real * Portion(entries, a, b)
  {
    hide Portion, Covers;
    if some != [] {
      SumSharesStep(some[1..], entries, times, k);
      var a, b := times[k - 2], times[k - 1];
      MoreOf(CountCovering(some[1..], a, b), Portion(entries, a, b));
    }
  }

  lemma MoreOf(n: nat, x: real)
    ensures (n + 1) as real * x == n as real * x + x
  {
  }

  lemma {:induction false} NothingShared(some: seq<Target>, entries: seq<Target>, times: seq<real>, k: nat)
    requires k <= |times| && k < 2
    ensures SumShares(some, entries, times, k) == 0.0
  {
    if some != [] { NothingShared(some[1..], entries, times, k); }
  }

  /** The shares of all targets add up to the time during which any of them ran. */
  lemma {:induction false} SharesAddUp(entries: seq<Target>, times: seq<real>, k: nat)
    requires k <= |times| && Ascending(times)
    ensures SumShares(entries, entries, times, k) == UnionLength(entries, times, k)
  {
    if k < 2 {
      NothingShared(entries, entries, times, k);
    } else {
      SharesAddUp(entries, times, k - 1);
      SumSharesStep(entries, entries, times, k);
      PortionsAddUp(entries, times[k - 2], times[k - 1]);
      hide CountCovering, Portion, Share, SumShares;
    }
  }

  lemma PortionsAddUp(entries: seq<Target>, a: real, b: real)
    requires a <= b
    ensures CountCovering(entries, a, b) as real * Portion(entries, a, b) ==
      if a < b && 0 < CountCovering(entries, a, b) then b - a else 0.0
  {
    var n := CountCovering(entries, a, b);
    hide CountCovering;
    if a < b && 0 < n { Fraction(b - a, n); }
  }

  /** Counting covering targets is counting the set of them. */
  lemma {:induction false} CountIsCardinality(entries: seq<Target>, a: real, b: real)
    requires Distinct(entries)
    ensures CountCovering(entries, a, b) == |set t | t in entries && Covers(t, a, b)|
  {
    if entries != [] {
      var rest := entries[1..];
      CountIsCardinality(rest, a, b);
      var s := set t | t in rest && Covers(t, a, b);
      var all := set t | t in entries && Covers(t, a, b);
      assert entries[0] !in rest;
      assert forall t :: t in entries <==> t == entries[0] || t in rest;
      assert all == if Covers(entries[0], a, b) then s + {entries[0]} else s;
    }
  }
}
