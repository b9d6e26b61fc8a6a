/** Test bodies as static trees, and the cycles a run must make. */
module TestBody {
  // A scope of a test body draws from its generators first and then lists its sections.  One cycle of
  // the run is described by the path it takes: the values drawn and the sections entered, outermost
  // first.

  datatype NameAndLocation = NameAndLocation(name: string, file: string, line: nat)

  /** A generator has at least one value. */
  type Count = n: nat | 0 < n witness 1

  datatype Body =
    | Generate(at: NameAndLocation, size: Count, rest: Body)
    | Sections(list: SectionList)

  datatype SectionList =
    | NoSections
    | Section(at: NameAndLocation, body: Body, tail: SectionList)

  /** What one cycle does: draw the value with a given index from a generator, or enter a section. */
  datatype Event =
    | Drew(at: NameAndLocation, index: nat)
    | Entered(at: NameAndLocation)

  type Path = seq<Event>

  predicate Lists(list: SectionList, at: NameAndLocation) {
    list.Section? && (list.at == at || Lists(list.tail, at))
  }

  /** Sibling sections differ, and no generator is confused with the tracker that encloses it. */
  predicate WellFormed(b: Body, enclosing: NameAndLocation) {
    match b
    case Generate(at, size, rest) => at != enclosing && WellFormed(rest, at)
    case Sections(list) => WellFormedList(list)
  }

  predicate WellFormedList(list: SectionList) {
    match list
    case NoSections => true
    case Section(at, body, tail) => !Lists(tail, at) && WellFormed(body, at) && WellFormedList(tail)
  }

  // ----- The cycles of a body, in order -----

  function Prefixed(e: Event, ps: seq<Path>): (r: seq<Path>)
    ensures |r| == |ps|
    ensures forall i :: 0 <= i < |ps| ==> r[i] == [e] + ps[i]
  {
    seq(|ps|, i requires 0 <= i < |ps| => [e] + ps[i])
  }

  function DrawPaths(at: NameAndLocation, from: nat, size: nat, rest: seq<Path>): seq<Path>
    decreases size - from
  {
    if from >= size then [] else Prefixed(Drew(at, from), rest) + DrawPaths(at, from + 1, size, rest)
  }

  /** Every path of the body, depth first, with the innermost generator moving fastest. */
  function Paths(b: Body): seq<Path>
    decreases b
  {
    match b
    case Generate(at, size, rest) => DrawPaths(at, 0, size, Paths(rest))
    case Sections(list) => if list.NoSections? then [[]] else ListPaths(list)
  }

  function ListPaths(list: SectionList): seq<Path>
    decreases list
  {
    match list
    case NoSections => []
    case Section(at, body, tail) => Prefixed(Entered(at), Paths(body)) + ListPaths(tail)
  }

  // ----- How many there are -----

  function Cycles(b: Body): nat
    decreases b
  {
    match b
    case Generate(_, size, rest) => size * Cycles(rest)
    case Sections(list) => if list.NoSections? then 1 else ListCycles(list)
  }

  function ListCycles(list: SectionList): nat
    decreases list
  {
    match list
    case NoSections => 0
    case Section(_, body, tail) => Cycles(body) + ListCycles(tail)
  }

  lemma {:induction false} DrawPathsCount(at: NameAndLocation, from: nat, size: nat, rest: seq<Path>)
    requires from <= size
    ensures |DrawPaths(at, from, size, rest)| == (size - from) * |rest|
    decreases size - from
  {
    if from < size {
      DrawPathsCount(at, from + 1, size, rest);
      assert (size - from) * |rest| == |rest| + (size - (from + 1)) * |rest|;
    }
  }

  /** A run needs the product of the generator sizes times the sum over the sections. */
  lemma {:induction false} PathsCount(b: Body)
    ensures |Paths(b)| == Cycles(b)
    decreases b
  {
    match b
    case Generate(at, size, rest) =>
      PathsCount(rest);
      DrawPathsCount(at, 0, size, Paths(rest));
    case Sections(list) =>
      ListPathsCount(list);
  }

  lemma {:induction false} ListPathsCount(list: SectionList)
    ensures |ListPaths(list)| == ListCycles(list)
    decreases list
  {
    if list.Section? {
      PathsCount(list.body);
      ListPathsCount(list.tail);
    }
  }

  lemma {:induction false} CyclesPositive(b: Body, enclosing: NameAndLocation)
    requires WellFormed(b, enclosing)
    ensures 0 < Cycles(b)
    decreases b
  {
    match b
    case Generate(at, size, rest) => CyclesPositive(rest, at); assert 1 * Cycles(rest) <= size * Cycles(rest);
    case Sections(list) => if list.Section? { CyclesPositive(list.body, list.at); }
  }

  // ----- Each path exactly once, in lexicographic order -----

  /** A maximal way through the body: one value of each generator, then one section, down to a leaf. */
  predicate IsPath(b: Body, p: Path)
    decreases b
  {
    match b
    case Generate(at, size, rest) =>
      p != [] && p[0].Drew? && p[0].at == at && p[0].index < size && IsPath(rest, p[1..])
    case Sections(list) => if list.NoSections? then p == [] else IsListPath(list, p)
  }

  predicate IsListPath(list: SectionList, p: Path)
    decreases list
  {
    match list
    case NoSections => false
    case Section(at, body, tail) =>
      (p != [] && p[0] == Entered(at) && IsPath(body, p[1..])) || IsListPath(tail, p)
  }

  /** Depth-first order: an outer generator index, or an outer section's place, decides first. */
  predicate Precedes(b: Body, p: Path, q: Path)
    decreases b
  {
    match b
    case Generate(_, _, rest) =>
      p != [] && q != [] && p[0].Drew? && q[0].Drew? &&
      (p[0].index < q[0].index || (p[0].index == q[0].index && Precedes(rest, p[1..], q[1..])))
    case Sections(list) => ListPrecedes(list, p, q)
  }

  predicate ListPrecedes(list: SectionList, p: Path, q: Path)
    decreases list
  {
    match list
    case NoSections => false
    case Section(at, body, tail) =>
      p != [] && q != [] &&
      if p[0] == Entered(at) then q[0] == Entered(at) ==> Precedes(body, p[1..], q[1..])
      else q[0] != Entered(at) && ListPrecedes(tail, p, q)
  }

  ghost predicate Increasing(b: Body, ps: seq<Path>) {
    forall i, j :: 0 <= i < j < |ps| ==> Precedes(b, ps[i], ps[j])
  }

  lemma {:induction false} Irreflexive(b: Body, p: Path)
    ensures !Precedes(b, p, p)
    decreases b
  {
    match b
    case Generate(_, _, rest) => if p != [] { Irreflexive(rest, p[1..]); }
    case Sections(list) => ListIrreflexive(list, p);
  }

  lemma {:induction false} ListIrreflexive(list: SectionList, p: Path)
    ensures !ListPrecedes(list, p, p)
    decreases list
  {
    if list.Section? {
      if p != [] { Irreflexive(list.body, p[1..]); }
      ListIrreflexive(list.tail, p);
    }
  }

  lemma MultipleBounds(m: nat, d: int)
    requires 0 < m
    ensures d >= 1 ==> m * d >= m
    ensures d <= -1 ==> m * d <= 0 - m
  {
  }

  lemma DivStep(k: nat, m: nat)
    requires 0 < m <= k
    ensures k / m == 1 + (k - m) / m && k % m == (k - m) % m
  {
    var q, r := (k - m) / m, (k - m) % m;
    assert k == m * (q + 1) + r;
    QuotientUnique(k, m, q + 1, r);
  }

  lemma QuotientUnique(k: nat, m: nat, q: nat, r: nat)
    requires 0 < m && r < m && k == m * q + r
    ensures k / m == q && k % m == r
  {
    var d := k / m - q;
    assert m * d == r - k % m;
    MultipleBounds(m, d);
  }

  lemma QuotientOrder(i: nat, j: nat, m: nat)
    requires 0 < m && i < j
    ensures i / m < j / m || (i / m == j / m && i % m < j % m)
  {
    var d := i / m - j / m;
    assert i - j == m * d + i % m - j % m;
    MultipleBounds(m, d);
  }

  lemma {:induction false} DrawPathsAt(at: NameAndLocation, from: nat, size: nat, rest: seq<Path>, k: nat)
    requires k < |DrawPaths(at, from, size, rest)|
    ensures 0 < |rest| && from + k / |rest| < size
    ensures DrawPaths(at, from, size, rest)[k] == [Drew(at, from + k / |rest|)] + rest[k % |rest|]
    decreases size - from
  {
    if |rest| == 0 {
      DrawPathsCount(at, from, size, rest);
    } else if k >= |rest| {
      DrawPathsAt(at, from + 1, size, rest, k - |rest|);
      DivStep(k, |rest|);
    } else {
      QuotientUnique(k, |rest|, 0, k);
    }
  }

  /** Only maximal paths are listed. */
  lemma {:induction false} PathsAreMaximal(b: Body, k: nat)
    requires k < |Paths(b)|
    ensures IsPath(b, Paths(b)[k])
    decreases b
  {
    match b
    case Generate(at, size, rest) =>
      DrawPathsAt(at, 0, size, Paths(rest), k);
      PathsAreMaximal(rest, k % |Paths(rest)|);
    case Sections(list) =>
      if list.Section? { ListPathsAreMaximal(list, k); }
  }

  lemma {:induction false} ListPathsAreMaximal(list: SectionList, k: nat)
    requires k < |ListPaths(list)|
    ensures IsListPath(list, ListPaths(list)[k])
    decreases list
  {
    var first := Paths(list.body);
    if k < |first| {
      PathsAreMaximal(list.body, k);
    } else {
      ListPathsAreMaximal(list.tail, k - |first|);
    }
  }

  lemma {:induction false} DrawPathsHas(at: NameAndLocation, from: nat, size: nat, rest: seq<Path>, i: nat, p: Path)
    requires from <= i < size && p in rest
    ensures [Drew(at, i)] + p in DrawPaths(at, from, size, rest)
    decreases size - from
  {
    if from == i {
      var k :| 0 <= k < |rest| && rest[k] == p;
      assert Prefixed(Drew(at, i), rest)[k] == [Drew(at, i)] + p;
    } else {
      DrawPathsHas(at, from + 1, size, rest, i, p);
    }
  }

  /** Every maximal path is listed. */
  lemma {:induction false} PathsAreAll(b: Body, p: Path)
    requires IsPath(b, p)
    ensures p in Paths(b)
    decreases b
  {
    match b
    case Generate(at, size, rest) =>
      PathsAreAll(rest, p[1..]);
      DrawPathsHas(at, 0, size, Paths(rest), p[0].index, p[1..]);
      assert p == [Drew(at, p[0].index)] + p[1..];
    case Sections(list) =>
      if list.Section? { ListPathsAreAll(list, p); }
  }

  lemma {:induction false} ListPathsAreAll(list: SectionList, p: Path)
    requires IsListPath(list, p)
    ensures p in ListPaths(list)
    decreases list
  {
    if p != [] && p[0] == Entered(list.at) && IsPath(list.body, p[1..]) {
      PathsAreAll(list.body, p[1..]);
      var k :| 0 <= k < |Paths(list.body)| && Paths(list.body)[k] == p[1..];
      assert Prefixed(Entered(list.at), Paths(list.body))[k] == [p[0]] + p[1..] == p;
    } else {
      ListPathsAreAll(list.tail, p);
    }
  }

  lemma {:induction false} PathsPrecede(b: Body, enclosing: NameAndLocation, i: nat, j: nat)
    requires WellFormed(b, enclosing) && i < j < |Paths(b)|
    ensures Precedes(b, Paths(b)[i], Paths(b)[j])
    decreases b
  {
    match b
    case Generate(at, size, rest) =>
      var n := |Paths(rest)|;
      DrawPathsAt(at, 0, size, Paths(rest), i);
      DrawPathsAt(at, 0, size, Paths(rest), j);
      QuotientOrder(i, j, n);
      if i / n == j / n { PathsPrecede(rest, at, i % n, j % n); }
    case Sections(list) =>
      if list.Section? { ListPathsPrecede(list, i, j); }
  }

  lemma {:induction false} ListPathsStart(list: SectionList, k: nat)
    requires k < |ListPaths(list)|
    ensures var p := ListPaths(list)[k]; p != [] && p[0].Entered? && Lists(list, p[0].at)
    decreases list
  {
    if k >= |Paths(list.body)| { ListPathsStart(list.tail, k - |Paths(list.body)|); }
  }

  lemma {:induction false} ListPathsPrecede(list: SectionList, i: nat, j: nat)
    requires WellFormedList(list) && i < j < |ListPaths(list)|
    ensures ListPrecedes(list, ListPaths(list)[i], ListPaths(list)[j])
    decreases list
  {
    var n := |Paths(list.body)|;
    if j < n {
      PathsPrecede(list.body, list.at, i, j);
    } else {
      ListPathsStart(list.tail, j - n);
      if n <= i {
        ListPathsStart(list.tail, i - n);
        ListPathsPrecede(list.tail, i - n, j - n);
      }
    }
  }

  /** The paths of a body are exactly its maximal paths, each listed once, in depth-first order. */
  lemma {:induction false} PathsEnumerate(b: Body, enclosing: NameAndLocation)
    requires WellFormed(b, enclosing)
    ensures forall p :: p in Paths(b) <==> IsPath(b, p)
    ensures Increasing(b, Paths(b))
    ensures forall i, j :: 0 <= i < j < |Paths(b)| ==> Paths(b)[i] != Paths(b)[j]
  {
    forall p ensures p in Paths(b) <==> IsPath(b, p) {
      if p in Paths(b) {
        var k :| 0 <= k < |Paths(b)| && Paths(b)[k] == p;
        PathsAreMaximal(b, k);
      }
      if IsPath(b, p) { PathsAreAll(b, p); }
    }
    forall i, j | 0 <= i < j < |Paths(b)|
      ensures Precedes(b, Paths(b)[i], Paths(b)[j]) && Paths(b)[i] != Paths(b)[j]
    {
      PathsPrecede(b, enclosing, i, j);
      Irreflexive(b, Paths(b)[i]);
    }
  }
}
