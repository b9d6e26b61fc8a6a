/** Facts about sequences that several modules use. */
module Sequences {

  lemma TakeOneMore<X>(s: seq<X>, i: nat)
    requires i < |s|
    ensures s[..i + 1] == s[..i] + [s[i]]
    ensures forall x :: x in s[..i + 1] <==> x in s[..i] || x == s[i]
  {
  }

  lemma TakeAll<X>(s: seq<X>)
    ensures s[..|s|] == s
  {
  }

  lemma DropTwice<X>(s: seq<X>, i: nat, k: nat)
    requires i + k <= |s|
    ensures s[i..][k..] == s[i + k..]
  {
  }

  lemma Regrouped<X>(a: seq<X>, b: seq<X>, c: seq<X>)
    ensures a + b + c == a + (b + c)
  {
  }
}
