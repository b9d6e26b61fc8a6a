/** Reachability over a finite set of edges, by paths of at least one edge. */
module Reachability {

  type Key = string

  type Edges = set<(Key, Key)>

  ghost predicate IsPath(edges: Edges, p: seq<Key>) {
    forall i :: 0 <= i < |p| - 1 ==> (p[i], p[i + 1]) in edges
  }

  ghost predicate Connects(edges: Edges, p: seq<Key>, a: Key, b: Key) {
    2 <= |p| && p[0] == a && p[|p| - 1] == b && IsPath(edges, p)
  }

  ghost predicate Reaches(edges: Edges, a: Key, b: Key) {
    exists p :: Connects(edges, p, a, b)
  }

  lemma ReachesStep(edges: Edges, a: Key, b: Key)
    requires (a, b) in edges
    ensures Reaches(edges, a, b)
  {
    assert Connects(edges, [a, b], a, b);
  }

  lemma ReachesTransitive(edges: Edges, a: Key, b: Key, c: Key)
    requires Reaches(edges, a, b) && Reaches(edges, b, c)
    ensures Reaches(edges, a, c)
  {
    var p :| Connects(edges, p, a, b);
    var q :| Connects(edges, q, b, c);
    var r := p + q[1..];
    forall i | 0 <= i < |r| - 1 ensures (r[i], r[i + 1]) in edges {
      if i >= |p| - 1 {
        assert r[i] == q[i - (|p| - 1)] && r[i + 1] == q[i - (|p| - 1) + 1];
      }
    }
    assert Connects(edges, r, a, c);
  }

  /** A set that holds the successors of a and of its own members holds all that a reaches. */
  lemma ReachesWithin(edges: Edges, a: Key, b: Key, s: set<Key>)
    requires Reaches(edges, a, b)
    requires forall x, y :: (x == a || x in s) && (x, y) in edges ==> y in s
    ensures b in s
  {
    var p :| Connects(edges, p, a, b);
    PathWithin(edges, p, s, |p| - 1);
  }

  lemma {:induction false} PathWithin(edges: Edges, p: seq<Key>, s: set<Key>, i: nat)
    requires 1 <= i < |p| && IsPath(edges, p)
    requires forall x, y :: (x == p[0] || x in s) && (x, y) in edges ==> y in s
    ensures p[i] in s
  {
    if i > 1 { PathWithin(edges, p, s, i - 1); }
    assert (p[i - 1], p[i - 1 + 1]) in edges;
  }

  function Inverse(edges: Edges): Edges {
    set e | e in edges :: (e.1, e.0)
  }

  lemma InverseMember(edges: Edges, a: Key, b: Key)
    ensures (a, b) in Inverse(edges) <==> (b, a) in edges
  {
    if (b, a) in edges { assert ((b, a).1, (b, a).0) in Inverse(edges); }
  }

  lemma ReachesInverse(edges: Edges, a: Key, b: Key)
    requires Reaches(edges, a, b)
    ensures Reaches(Inverse(edges), b, a)
  {
    var p :| Connects(edges, p, a, b);
    var r := seq(|p|, i requires 0 <= i < |p| => p[|p| - 1 - i]);
    forall i | 0 <= i < |r| - 1 ensures (r[i], r[i + 1]) in Inverse(edges) {
      var j := |p| - 2 - i;
      assert (p[j], p[j + 1]) in edges;
      InverseMember(edges, p[j + 1], p[j]);
    }
    assert Connects(Inverse(edges), r, b, a);
  }

  lemma InverseTwice(edges: Edges)
    ensures Inverse(Inverse(edges)) == edges
  {
    forall e ensures e in Inverse(Inverse(edges)) <==> e in edges {
      InverseMember(Inverse(edges), e.0, e.1);
      InverseMember(edges, e.1, e.0);
    }
  }

  /** Edges between points that were already connected add nothing. */
  lemma ReachesShortcuts(edges: Edges, more: Edges, a: Key, b: Key)
    requires forall e :: e in more ==> Reaches(edges, e.0, e.1)
    ensures Reaches(edges + more, a, b) <==> Reaches(edges, a, b)
  {
    if Reaches(edges + more, a, b) {
      var p :| Connects(edges + more, p, a, b);
      PathShortcuts(edges, more, p, |p| - 1);
    }
    if Reaches(edges, a, b) {
      var p :| Connects(edges, p, a, b);
      forall i | 0 <= i < |p| - 1 ensures (p[i], p[i + 1]) in edges + more {
        assert (p[i], p[i + 1]) in edges;
      }
      assert Connects(edges + more, p, a, b);
    }
  }

  lemma {:induction false} PathShortcuts(edges: Edges, more: Edges, p: seq<Key>, i: nat)
    requires 1 <= i < |p| && IsPath(edges + more, p)
    requires forall e :: e in more ==> Reaches(edges, e.0, e.1)
    ensures Reaches(edges, p[0], p[i])
  {
    var e := (p[i - 1], p[i - 1 + 1]);
    assert e in edges + more;
    if e in edges { ReachesStep(edges, e.0, e.1); } else { assert Reaches(edges, e.0, e.1); }
    if i > 1 {
      PathShortcuts(edges, more, p, i - 1);
      ReachesTransitive(edges, p[0], p[i - 1], p[i]);
    }
  }
}
