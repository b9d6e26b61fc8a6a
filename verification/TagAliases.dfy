/** Aliases of tags, which are expanded before an argument is parsed. */
module TagAliases {
  import opened Options
  import opened Replace

  /** An alias is a name of the form [@alias], which stands for other text. */
  datatype Alias = Alias(name: string, tag: string)

  function ExpandedBy(a: Alias, arg: string): string {
    var n := Next(arg, a.name, 0);
    if n.None? then arg else arg[..n.value] + a.tag + arg[n.value + |a.name|..]
  }

  /** The first occurrence of each alias, in the order of the registry, gives way to what it stands for. */
  function Expanded(aliases: seq<Alias>, arg: string): string
    decreases |aliases|
  {
    if aliases == [] then arg else Expanded(aliases[1..], ExpandedBy(aliases[0], arg))
  }

  method ExpandAliases(aliases: seq<Alias>, arg: string) returns (expanded: string)
    ensures expanded == Expanded(aliases, arg)
  {
    hide Next, OccursAt, Expanded, ExpandedBy;
    expanded := arg;
    assert aliases[0..] == aliases;
    for i := 0 to |aliases|
      invariant Expanded(aliases, arg) == Expanded(aliases[i..], expanded)
    {
      var pos := Find(expanded, aliases[i].name, 0);
      ExpandedStep(aliases, i, expanded);
      if pos.Some? {
        InsideOf(expanded, aliases[i].name, pos.value);
        expanded := expanded[..pos.value] + aliases[i].tag + expanded[pos.value + |aliases[i].name|..];
      }
    }
    NothingToExpand(expanded);
    assert aliases[|aliases|..] == [];
  }

  lemma ExpandedStep(aliases: seq<Alias>, i: nat, arg: string)
    requires i < |aliases|
    ensures Expanded(aliases[i..], arg) == Expanded(aliases[i + 1..], ExpandedBy(aliases[i], arg))
    ensures var n := Next(arg, aliases[i].name, 0);
            ExpandedBy(aliases[i], arg) ==
              if n.None? then arg else arg[..n.value] + aliases[i].tag + arg[n.value + |aliases[i].name|..]
  {
    hide Next, OccursAt;
    assert aliases[i..][0] == aliases[i] && aliases[i..][1..] == aliases[i + 1..];
  }

  lemma NothingToExpand(arg: string)
    ensures Expanded([], arg) == arg
  {
  }

  /** What stands before and behind the first occurrence of an alias stays as it is. */
  lemma FirstOccurrenceGivesWay(a: Alias, x: string, y: string)
    requires forall j :: 0 <= j < |x| ==> !OccursAt(x + a.name + y, a.name, j)
    ensures ExpandedBy(a, x + a.name + y) == x + a.tag + y
  {
    hide Next, OccursAt;
    var arg := x + a.name + y;
    assert OccursAt(arg, a.name, |x|) by { Occurs(arg, a.name, |x|); }
    assert Next(arg, a.name, 0) == Some(|x|);
    assert arg[..|x|] == x && arg[|x| + |a.name|..] == y;
  }

  /** The aliases are expanded one after the other, each in what the ones before it made of the text. */
  lemma {:induction false} AliasesInTurn(some: seq<Alias>, others: seq<Alias>, arg: string)
    ensures Expanded(some + others, arg) == Expanded(others, Expanded(some, arg))
    decreases |some|
  {
    hide ExpandedBy;
    if some == [] {
      assert some + others == others;
    } else {
      AliasesInTurn(some[1..], others, ExpandedBy(some[0], arg));
      assert (some + others)[1..] == some[1..] + others;
    }
  }

  /** An argument in which no alias occurs stays as it is. */
  lemma {:induction false} NoAliasNoChange(aliases: seq<Alias>, arg: string)
    requires forall a, i: nat :: a in aliases ==> !OccursAt(arg, a.name, i)
    ensures Expanded(aliases, arg) == arg
    decreases |aliases|
  {
    if aliases != [] {
      assert aliases[0] in aliases;
      NoAliasNoChange(aliases[1..], arg);
    }
  }
}
