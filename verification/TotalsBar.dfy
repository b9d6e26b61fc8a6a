/** The bar under a test run: four shares of the width, adjusted until they fit. */
module TotalsBar {

  datatype Share = Failed | FailedButOk | Passed | Skipped

  datatype Counts = Counts(failed: nat, failedButOk: nat, passed: nat, skipped: nat) {
    function Total(): nat {
      failed + failedButOk + passed + skipped
    }

    function Of(s: Share): nat {
      match s
      case Failed => failed
      case FailedButOk => failedButOk
      case Passed => passed
      case Skipped => skipped
    }
  }

  /** In proportion, but at least one character for what is there at all. */
  function MakeRatio(number: nat, total: nat, width: nat): (r: nat)
    ensures total > 0 && width > 0 ==> (r > 0 <==> number > 0)
  {
    var ratio := if total > 0 then width * number / total else 0;
    assert number == 0 ==> width * number == 0;
    if ratio == 0 && number > 0 then 1 else ratio
  }

  function Ratios(c: Counts, width: nat): Counts {
    Counts(MakeRatio(c.failed, c.Total(), width), MakeRatio(c.failedButOk, c.Total(), width),
           MakeRatio(c.passed, c.Total(), width), MakeRatio(c.skipped, c.Total(), width))
  }

  class Bar {
    var failed: nat
    var failedButOk: nat
    var passed: nat
    var skipped: nat

    ghost function Shares(): Counts
      reads this
    {
      Counts(failed, failedButOk, passed, skipped)
    }

    ghost function Shown(): nat
      reads this
    {
      failed + failedButOk + passed
    }

    constructor (c: Counts, width: nat)
      ensures Shares() == Ratios(c, width)
    {
      hide MakeRatio;
      failed := MakeRatio(c.failed, c.Total(), width);
      failedButOk := MakeRatio(c.failedButOk, c.Total(), width);
      passed := MakeRatio(c.passed, c.Total(), width);
      skipped := MakeRatio(c.skipped, c.Total(), width);
    }

    /** A largest share; between equals, the later one. */
    method FindMax() returns (m: Share)
      ensures forall s :: Shares().Of(s) <= Shares().Of(m)
    {
      if failed > failedButOk && failed > passed && failed > skipped { return Failed; }
      else if failedButOk > passed && failedButOk > skipped { return FailedButOk; }
      else if passed > skipped { return Passed; }
      else { return Skipped; }
    }

    method Change(m: Share, d: int)
      requires Shares().Of(m) + d >= 0
      modifies this
      ensures forall s :: Shares().Of(s) == old(Shares().Of(s)) + if s == m then d else 0
      ensures Shares().Total() == old(Shares().Total()) + d
      ensures Shown() == old(Shown()) + if m == Skipped then 0 else d
    {
      match m
      case Failed => failed := failed + d;
      case FailedButOk => failedButOk := failedButOk + d;
      case Passed => passed := passed + d;
      case Skipped => skipped := skipped + d;
    }

    /** Every share that was there is still there, and none has appeared. */
    ghost predicate Keeps(c: Counts)
      reads this
    {
      forall s :: Shares().Of(s) > 0 <==> c.Of(s) > 0
    }

    /** Both loops.  The bar fills the line less one character, exactly if nothing was skipped or the shares fitted
        to begin with. */
    method Adjust(c: Counts, width: nat)
      requires c.Total() > 0 && width >= 4 && Shares() == Ratios(c, width)
      modifies this
      ensures Keeps(c) && Shown() <= width - 1
      ensures Shares().Total() == width - 1 <==> c.skipped == 0 || Ratios(c, width).Total() <= width - 1
      ensures Shares().Total() >= width - 1
    {
      hide MakeRatio;
      ghost var first := Shares();
      RatiosKeep(c, width);
      while failed + failedButOk + passed + skipped < width - 1
        invariant Keeps(c) && Shares().Total() >= first.Total()
        invariant Shares().Total() <= width - 1 || Shares() == first
        decreases width - 1 - Shares().Total()
      {
        var m := FindMax();
        assert exists s :: c.Of(s) > 0 by { SomeShare(c); }
        Change(m, 1);
      }
      assert first.Total() <= width - 1 ==> Shares().Total() == width - 1;
      while failed + failedButOk + passed > width - 1
        invariant Keeps(c) && Shares().Total() >= width - 1
        invariant c.skipped > 0 && first.Total() <= width - 1 ==> Shares().Total() == width - 1
        invariant c.skipped > 0 && first.Total() > width - 1 ==> Shares().Total() > width - 1
        decreases Shares().Total()
      {
        assert Shares().Of(Skipped) > 0 <==> c.Of(Skipped) > 0;
        var m := FindMax();
        LargestIsLarge(Shares(), m);
        Change(m, -1);
      }
      assert Shares().Of(Skipped) > 0 <==> c.Of(Skipped) > 0;
    }
  }

  /** A share is its part of the width, rounded down, or one character if that is nothing. */
  lemma RatioIsProportional(number: nat, total: nat, width: nat)
    requires total > 0 && number > 0
    ensures var r := MakeRatio(number, total, width);
            r >= 1 && width * number < (r + 1) * total && (r * total <= width * number || r == 1)
  {
    hide MakeRatio;
    var q := width * number / total;
    assert q * total <= width * number < (q + 1) * total by { Quotient(width * number, total); }
    assert MakeRatio(number, total, width) == if q == 0 then 1 else q by { RatioIs(number, total, width); }
    if q == 0 { assert (1 + 1) * total >= (q + 1) * total; }
  }

  lemma RatioIs(number: nat, total: nat, width: nat)
    requires total > 0 && number > 0
    ensures MakeRatio(number, total, width) == if width * number / total == 0 then 1 else width * number / total
  {
  }

  lemma Quotient(a: nat, b: nat)
    requires b > 0
    ensures var q := a / b; q * b <= a < (q + 1) * b
  {
    assert a == a / b * b + a % b;
  }

  lemma RatiosKeep(c: Counts, width: nat)
    requires c.Total() > 0 && width > 0
    ensures forall s :: Ratios(c, width).Of(s) > 0 <==> c.Of(s) > 0
  {
  }

  lemma SomeShare(c: Counts)
    requires c.Total() > 0
    ensures exists s :: c.Of(s) > 0
  {
    assert c.Of(Failed) > 0 || c.Of(FailedButOk) > 0 || c.Of(Passed) > 0 || c.Of(Skipped) > 0;
  }

  lemma LargestIsLarge(r: Counts, m: Share)
    requires forall s :: r.Of(s) <= r.Of(m)
    ensures 3 * r.Of(m) >= r.failed + r.failedButOk + r.passed
  {
    assert r.Of(Failed) <= r.Of(m) && r.Of(FailedButOk) <= r.Of(m) && r.Of(Passed) <= r.Of(m);
  }

  /** One passed and one skipped test case are enough for a bar that is a character too long. */
  lemma SkippedCanOverflow()
    ensures Ratios(Counts(0, 0, 1, 1), 80).Total() == 80
  {
    assert MakeRatio(1, 2, 80) == 40 && MakeRatio(0, 2, 80) == 0;
  }
}
