/** Counting the bits that are set in a bitmap. */
module Bitmap {

  /** The set positions below n, in ascending order. */
  function Marked(t: seq<bool>, n: nat): (r: seq<nat>)
    requires n <= |t|
    ensures |r| <= n
    ensures forall x: nat :: x in r <==> x < n && t[x]
  {
    if n == 0 then [] else Marked(t, n - 1) + if t[n - 1] then [n - 1] else []
  }

  ghost predicate Ascending(s: seq<nat>) {
    forall i, j :: 0 <= i < j < |s| ==> s[i] < s[j]
  }

  lemma {:induction false} MarkedAscends(t: seq<bool>, n: nat)
    requires n <= |t|
    ensures Ascending(Marked(t, n))
  {
    if n > 0 {
      MarkedAscends(t, n - 1);
      if t[n - 1] { AscendingSnoc(Marked(t, n - 1), n - 1); }
      hide Ascending;
    }
  }

  lemma AscendingSnoc(s: seq<nat>, last: nat)
    requires Ascending(s) && forall x :: x in s ==> x < last
    ensures Ascending(s + [last])
  {
    assert forall i :: 0 <= i < |s| ==> s[i] in s;
  }

  lemma {:induction false} MarkOne(t: seq<bool>, k: nat, n: nat)
    requires k < |t| && n <= |t| && !t[k]
    ensures |Marked(t[k := true], n)| == |Marked(t, n)| + if k < n then 1 else 0
  {
    if n > 0 { MarkOne(t, k, n - 1); }
  }

  lemma {:induction false} NoneMarked(t: seq<bool>, n: nat)
    requires n <= |t| && forall i :: 0 <= i < n ==> !t[i]
    ensures Marked(t, n) == []
  {
    if n > 0 { NoneMarked(t, n - 1); }
  }

  lemma {:induction false} MarkedGrows(t: seq<bool>, m: nat, n: nat)
    requires m <= n <= |t|
    ensures |Marked(t, m)| <= |Marked(t, n)| <= |Marked(t, m)| + (n - m)
    decreases n - m
  {
    if m < n { MarkedGrows(t, m, n - 1); }
  }

  /** A scan from the left meets so many set bits before the end of the bitmap, exactly if there are so many. */
  lemma ScanEndsInside(t: seq<bool>, need: int)
    ensures (exists j :: 0 <= j <= |t| && |Marked(t, j)| >= need) <==> need <= |Marked(t, |t|)|
  {
    forall j | 0 <= j <= |t| ensures |Marked(t, j)| <= |Marked(t, |t|)| { MarkedGrows(t, j, |t|); }
  }
}
