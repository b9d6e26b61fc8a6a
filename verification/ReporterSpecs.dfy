/** Splitting the text of a reporter specification at its separators. */
module ReporterSpecs {
  import opened Options
  import opened Replace

  const SEPARATOR := "::"

  /** The parts of the text from position i on. */
  function Parts(s: string, i: nat): (r: seq<string>)
    requires i <= |s|
    ensures r != []
    decreases |s| - i
  {
    var n := Next(s, SEPARATOR, i);
    if n.None? then [s[i..]] else [s[i..n.value]] + Parts(s, n.value + 2)
  }

  function Joined(parts: seq<string>): string
    requires parts != []
  {
    if |parts| == 1 then parts[0] else parts[0] + "::" + Joined(parts[1..])
  }

  method FindNextSeparator(s: string, startPos: nat) returns (r: Option<nat>)
    requires startPos < |s|
    ensures r == Next(s, SEPARATOR, startPos)
  {
    hide OccursAt;
    var currentPos := startPos;
    while true
      invariant startPos <= currentPos < |s| && Next(s, SEPARATOR, startPos) == Next(s, SEPARATOR, currentPos)
      decreases |s| - currentPos
    {
      while currentPos < |s| && s[currentPos] != ':'
        invariant startPos <= currentPos <= |s| && Next(s, SEPARATOR, startPos) == Next(s, SEPARATOR, currentPos)
        decreases |s| - currentPos
      {
        NoSeparatorAt(s, currentPos);
        currentPos := currentPos + 1;
      }
      if currentPos + 1 < |s| && s[currentPos + 1] == ':' {
        SeparatorAt(s, currentPos);
        return Some(currentPos);
      }
      NoSeparatorAt(s, currentPos);
      currentPos := currentPos + 1;
      if currentPos >= |s| { break; }
    }
    NothingLeft(s, SEPARATOR, currentPos);
    r := None;
  }

  lemma NoSeparatorAt(s: string, i: nat)
    requires i >= |s| || s[i] != ':' || i + 1 >= |s| || s[i + 1] != ':'
    ensures Next(s, SEPARATOR, i) == Next(s, SEPARATOR, i + 1)
  {
    if i + 2 <= |s| { assert s[i..i + 2] == [s[i], s[i + 1]]; }
  }

  lemma SeparatorAt(s: string, i: nat)
    requires i + 1 < |s| && s[i] == ':' && s[i + 1] == ':'
    ensures Next(s, SEPARATOR, i) == Some(i)
  {
    assert s[i..i + 2] == SEPARATOR;
  }

  method SplitReporterSpec(s: string) returns (parts: seq<string>)
    ensures parts == Parts(s, 0)
  {
    hide Next;
    var separatorPos := 0;
    parts := [];
    var last := false;
    while separatorPos < |s| && !last
      invariant separatorPos <= |s|
      invariant if last then parts == Parts(s, 0) && separatorPos < |s| else parts + Parts(s, separatorPos) == Parts(s, 0)
      decreases |s| - separatorPos, !last
    {
      var nextSeparator := FindNextSeparator(s, separatorPos);
      if nextSeparator == None {
        parts := parts + [s[separatorPos..]];
        last := true;
      } else {
        assert parts + ([s[separatorPos..nextSeparator.value]] + Parts(s, nextSeparator.value + 2)) ==
               parts + [s[separatorPos..nextSeparator.value]] + Parts(s, nextSeparator.value + 2);
        parts := parts + [s[separatorPos..nextSeparator.value]];
        separatorPos := nextSeparator.value + 2;
      }
    }
    if separatorPos == |s| {
      LastIsEmpty(s);
      parts := parts + [""];
    }
  }

  lemma LastIsEmpty(s: string)
    ensures Parts(s, |s|) == [""]
  {
    assert s[|s|..] == "";
  }

  /** Splitting loses nothing, and no part can be split again. */
  lemma {:induction false} PartsJoinBack(s: string, i: nat)
    requires i <= |s|
    ensures Joined(Parts(s, i)) == s[i..]
    ensures forall p :: p in Parts(s, i) ==> forall j: nat :: !OccursAt(p, "::", j)
    decreases |s| - i
  {
    var n := Next(s, SEPARATOR, i);
    if n.None? {
      NoneInside(s, i, |s|);
      assert s[i..|s|] == s[i..];
    } else {
      var k := n.value;
      PartsJoinBack(s, k + 2);
      NoneInside(s, i, k);
      var rest := Parts(s, k + 2);
      assert ([s[i..k]] + rest)[1..] == rest;
      assert s[i..] == s[i..k] + s[k..k + 2] + s[k + 2..];
    }
  }

  lemma NoneInside(s: string, i: nat, k: nat)
    requires i <= k <= |s| && forall j :: i <= j < k ==> !OccursAt(s, SEPARATOR, j)
    ensures forall j: nat :: !OccursAt(s[i..k], SEPARATOR, j)
  {
    forall j: nat ensures !OccursAt(s[i..k], SEPARATOR, j) {
      if j + 2 <= k - i {
        var p := s[i..k];
        assert p[j..j + 2] == [p[j], p[j + 1]] && s[i + j..i + j + 2] == [s[i + j], s[i + j + 1]];
        assert !OccursAt(s, SEPARATOR, i + j);
      }
    }
  }
}
