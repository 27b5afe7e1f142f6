/** The headroom score of one resource, over reals. */
module Score {

  const OVERBOOK_DISCOUNT: real := 0.5

  function MinReal(a: real, b: real): real { if a <= b then a else b }

  function MaxReal(a: real, b: real): real { if a >= b then a else b }

  /** math.Pow with the saturation exponent 2. */
  function Square(x: real): real { x * x }

  /** What is still free: a unit beyond the physical size counts for the discount only. */
  function Headroom(offered: real, alloc: real, used: real): real {
    MaxReal(offered - used, 0.0) + OVERBOOK_DISCOUNT * MaxReal(alloc - MaxReal(used, offered), 0.0)
  }

  /** The headroom of the empty node. */
  function FullHeadroom(offered: real, alloc: real): real {
    offered + OVERBOOK_DISCOUNT * (alloc - offered)
  }

  function Ratio(offered: real, alloc: real, used: real): real
    requires 0.0 < offered <= alloc
  {
    Headroom(offered, alloc, used) / FullHeadroom(offered, alloc)
  }

  function ResourceScore(phys: real, alloc: real, used: real): real {
    var offered := MinReal(phys, alloc);
    if offered <= 0.0 then 0.0
    else Square(Ratio(offered, alloc, used))
  }

  function ReportedUsage(reported: real): real { MaxReal(reported, 0.0) }

  // ---- the curve ---------------------------------------------------------------------------------

  lemma HeadroomFalls(offered: real, alloc: real, used: real, more: real)
    requires 0.0 < offered <= alloc && used <= more
    ensures Headroom(offered, alloc, used) >= Headroom(offered, alloc, more) >= 0.0
    ensures used < more && used < alloc ==> Headroom(offered, alloc, used) > Headroom(offered, alloc, more)
    ensures Headroom(offered, alloc, used) == 0.0 <==> used >= alloc
    ensures Headroom(offered, alloc, 0.0) == FullHeadroom(offered, alloc) > 0.0
  {
  }

  lemma QuotientOrder(a: real, b: real, d: real)
    requires d > 0.0
    ensures a < b ==> a / d < b / d
    ensures a == 0.0 <==> a / d == 0.0
    ensures a > 0.0 ==> a / d > 0.0
    ensures d / d == 1.0
  {
  }

  lemma SquareGrows(a: real, b: real, d: real)
    requires 0.0 <= a < b && d == b - a
    ensures Square(a) < Square(b)
  {
    SquareZero(d);
    assert Square(b) == Square(a) + 2.0 * (a * d) + Square(d);
    assert a * d >= 0.0;
  }

  lemma SquareZero(a: real)
    requires 0.0 <= a
    ensures if a == 0.0 then Square(a) == 0.0 else Square(a) > 0.0
  {
    if a > 0.0 {
      calc { Square(a); == a * a; > 0.0; }
    }
  }

  /**
   * The curve in full: up to the physical size a unit in use costs a unit of headroom, beyond it half a unit;
   * the headroom of the empty node is halfway between the two sizes. A node with more than it offers is one
   * without overbooking.
   */
  lemma CurveIs(phys: real, alloc: real, used: real)
    requires 0.0 < phys && 0.0 < alloc
    ensures alloc <= phys ==> ResourceScore(phys, alloc, used) == ResourceScore(alloc, alloc, used)
    ensures phys <= alloc && used <= phys ==>
              ResourceScore(phys, alloc, used) == Square((phys - used + (alloc - phys) / 2.0) / ((phys + alloc) / 2.0))
    ensures phys <= alloc && phys <= used <= alloc ==>
              ResourceScore(phys, alloc, used) == Square(((alloc - used) / 2.0) / ((phys + alloc) / 2.0))
    ensures alloc <= used ==> ResourceScore(phys, alloc, used) == 0.0
  {
    var offered := MinReal(phys, alloc);
    HeadroomFalls(offered, alloc, used, used);
    QuotientOrder(Headroom(offered, alloc, used), 0.0, FullHeadroom(offered, alloc));
    SquareZero(0.0);
    assert FullHeadroom(offered, alloc) == (offered + alloc) / 2.0;
  }

  /** More use never scores more, and strictly less until the allocatable amount is spent. */
  lemma ScoreFalls(phys: real, alloc: real, used: real, more: real)
    requires used <= more
    ensures ResourceScore(phys, alloc, used) >= ResourceScore(phys, alloc, more)
    ensures MinReal(phys, alloc) > 0.0 && used < more && used < alloc ==>
              ResourceScore(phys, alloc, used) > ResourceScore(phys, alloc, more)
  {
    var offered := MinReal(phys, alloc);
    if offered > 0.0 {
      var full := FullHeadroom(offered, alloc);
      var a, b := Headroom(offered, alloc, more), Headroom(offered, alloc, used);
      HeadroomFalls(offered, alloc, used, more);
      QuotientOrder(a, b, full);
      if a < b {
        SquareGrows(a / full, b / full, b / full - a / full);
      }
    }
  }

  /** The score spans [0, 1]: 1 on an empty node, 0 exactly when the allocatable amount is used up. */
  lemma ScoreRange(phys: real, alloc: real, used: real)
    requires 0.0 <= used
    ensures 0.0 <= ResourceScore(phys, alloc, used) <= 1.0
    ensures MinReal(phys, alloc) > 0.0 ==> (ResourceScore(phys, alloc, used) == 0.0 <==> used >= alloc)
    ensures MinReal(phys, alloc) > 0.0 ==> (ResourceScore(phys, alloc, used) == 1.0 <==> used == 0.0)
  {
    var offered := MinReal(phys, alloc);
    if offered > 0.0 {
      var full := FullHeadroom(offered, alloc);
      var free := Headroom(offered, alloc, used);
      HeadroomFalls(offered, alloc, 0.0, used);
      HeadroomFalls(offered, alloc, used, used);
      QuotientOrder(free, full, full);
      SquareZero(free / full);
      if free < full {
        SquareGrows(free / full, 1.0, 1.0 - free / full);
      }
      assert Square(1.0) == 1.0;
    }
  }

  lemma HeadroomScales(k: real, offered: real, alloc: real, used: real)
    requires k > 0.0
    ensures Headroom(k * offered, k * alloc, k * used) == k * Headroom(offered, alloc, used)
    ensures FullHeadroom(k * offered, k * alloc) == k * FullHeadroom(offered, alloc)
  {
    MaxScales(k, offered - used, 0.0);
    MaxScales(k, used, offered);
    MaxScales(k, alloc - MaxReal(used, offered), 0.0);
  }

  lemma MaxScales(k: real, a: real, b: real)
    requires k > 0.0
    ensures MaxReal(k * a, k * b) == k * MaxReal(a, b)
    ensures MinReal(k * a, k * b) == k * MinReal(a, b)
  {
    if a < b {
      assert k * (b - a) > 0.0;
    } else {
      assert k * (a - b) >= 0.0;
    }
  }

  lemma QuotientScales(k: real, a: real, d: real)
    requires k > 0.0 && d > 0.0
    ensures k * d > 0.0 && (k * a) / (k * d) == a / d
  {
    var q := a / d;
    assert k * a == q * (k * d);
  }

  lemma RatioScales(k: real, offered: real, alloc: real, used: real)
    requires k > 0.0 && 0.0 < offered <= alloc
    ensures 0.0 < k * offered <= k * alloc
    ensures Ratio(k * offered, k * alloc, k * used) == Ratio(offered, alloc, used)
  {
    MaxScales(k, offered, alloc);
    HeadroomScales(k, offered, alloc, used);
    QuotientScales(k, Headroom(offered, alloc, used), FullHeadroom(offered, alloc));
  }

  lemma ScoreIs(phys: real, alloc: real, used: real, offered: real)
    requires offered == MinReal(phys, alloc)
    ensures ResourceScore(phys, alloc, used) == if offered <= 0.0 then 0.0 else Square(Ratio(offered, alloc, used))
  {
  }

  /** Only the proportions matter, so one curve serves nodes of every size and both resources. */
  lemma ScoreScales(k: real, phys: real, alloc: real, used: real)
    requires k > 0.0
    ensures ResourceScore(k * phys, k * alloc, k * used) == ResourceScore(phys, alloc, used)
  {
    var offered := MinReal(phys, alloc);
    ScoreIs(phys, alloc, used, offered);
    ScaledScoreIs(k, phys, alloc, used, offered);
    if offered > 0.0 {
      RatioScales(k, offered, alloc, used);
    }
  }

  lemma ScaledScoreIs(k: real, phys: real, alloc: real, used: real, offered: real)
    requires k > 0.0 && offered == MinReal(phys, alloc)
    ensures k * offered <= 0.0 <==> offered <= 0.0
    ensures k * offered <= k * alloc
    ensures ResourceScore(k * phys, k * alloc, k * used) ==
              if offered <= 0.0 then 0.0 else Square(Ratio(k * offered, k * alloc, k * used))
  {
    MaxScales(k, phys, alloc);
    MaxScales(k, offered, 0.0);
    ScoreIs(k * phys, k * alloc, k * used, k * offered);
  }
}
