/** Sums over weight rows. */
module RealRows {

  type Row = seq<real>

  function Abs(x: real): real {
    if x < 0.0 then -x else x
  }

  function Pos(x: real): real {
    if x > 0.0 then x else 0.0
  }

  function Neg(x: real): real {
    if x < 0.0 then x else 0.0
  }

  function RMin(a: real, b: real): real {
    if a <= b then a else b
  }

  function Sum(w: Row): real {
    if w == [] then 0.0 else w[0] + Sum(w[1..])
  }

  /** Long side, short side (as a positive number) and gross exposure of a row. */
  function Long(w: Row): real {
    if w == [] then 0.0 else Pos(w[0]) + Long(w[1..])
  }

  function Short(w: Row): real {
    if w == [] then 0.0 else -Neg(w[0]) + Short(w[1..])
  }

  function Gross(w: Row): real {
    if w == [] then 0.0 else Abs(w[0]) + Gross(w[1..])
  }

  lemma {:induction false} Sides(w: Row)
    ensures Long(w) >= 0.0 && Short(w) >= 0.0
    ensures Gross(w) == Long(w) + Short(w)
    ensures Sum(w) == Long(w) - Short(w)
  {
    if w != [] {
      Sides(w[1..]);
    }
  }

  lemma {:induction false} EmptySide(w: Row)
    ensures Long(w) == 0.0 ==> forall i :: 0 <= i < |w| ==> w[i] <= 0.0
    ensures Short(w) == 0.0 ==> forall i :: 0 <= i < |w| ==> w[i] >= 0.0
  {
    if w != [] {
      EmptySide(w[1..]);
      Sides(w[1..]);
      assert forall i :: 0 < i < |w| ==> w[i] == w[1..][i - 1];
    }
  }

  /** A product by name, so that a proof can carry it without computing. */
  function Times(x: real, y: real): real {
    x * y
  }

  lemma MulNonneg(x: real, y: real)
    requires x >= 0.0 && y >= 0.0
    ensures x * y >= 0.0
    ensures x > 0.0 && y > 0.0 ==> x * y > 0.0
  {
  }

  lemma MulDistributes(x: real, y: real, z: real)
    ensures (x + y) * z == x * z + y * z
    ensures (x - y) * z == x * z - y * z
    ensures (-x) * z == -(x * z)
  {
  }

  lemma ShrinkEntry(x: real, c: real)
    requires 0.0 <= c <= 1.0
    ensures x >= 0.0 ==> 0.0 <= Times(x, c) <= x
    ensures x <= 0.0 ==> x <= Times(x, c) <= 0.0
  {
    if x >= 0.0 {
      MulNonneg(x, c);
      MulNonneg(x, 1.0 - c);
      assert x * (1.0 - c) == x - x * c;
    }
    if x <= 0.0 {
      MulNonneg(-x, c);
      MulNonneg(-x, 1.0 - c);
      MulDistributes(x, 0.0, c);
      MulDistributes(x, 0.0, 1.0 - c);
      assert x * (1.0 - c) == x - x * c;
    }
  }

  lemma Quotient(a: real, g: real)
    requires a >= 0.0 && g > 0.0
    ensures (a / g) * g == a && a / g >= 0.0
    ensures a / g < 1.0 <==> a < g
    ensures a > 0.0 ==> a / g > 0.0
  {
    var q := a / g;
    assert q * g == a;
    MulDistributes(q, 1.0, g);
    MulDistributes(1.0, q, g);
    if q < 0.0 {
      MulNonneg(-q, g);
      MulDistributes(q, 0.0, g);
    }
    if q < 1.0 {
      MulNonneg(1.0 - q, g);
    } else {
      MulNonneg(q - 1.0, g);
    }
  }

  /** One entry scaled by a when long and by b when short. */
  function SideEntry(x: real, a: real, b: real): real {
    Pos(x) * a + Neg(x) * b
  }

  lemma SideOf(x: real, a: real, b: real)
    ensures x >= 0.0 ==> SideEntry(x, a, b) == Times(x, a)
    ensures x <= 0.0 ==> SideEntry(x, a, b) == Times(x, b)
  {
  }

  function ScaleSides(w: Row, a: real, b: real): (r: Row)
    ensures |r| == |w|
  {
    seq(|w|, i requires 0 <= i < |w| => SideEntry(w[i], a, b))
  }

  lemma ScaledEntry(x: real, a: real, b: real)
    requires 0.0 <= a && 0.0 <= b
    ensures Pos(SideEntry(x, a, b)) == Pos(x) * a
    ensures Neg(SideEntry(x, a, b)) == Neg(x) * b
  {
    MulNonneg(Pos(x), a);
    MulNonneg(-Neg(x), b);
    MulDistributes(Neg(x), 0.0, b);
  }

  lemma {:induction false} ScaledSides(w: Row, a: real, b: real)
    requires 0.0 <= a && 0.0 <= b
    ensures Long(ScaleSides(w, a, b)) == Long(w) * a
    ensures Short(ScaleSides(w, a, b)) == Short(w) * b
  {
    hide SideEntry, Pos, Neg;
    if w != [] {
      var r := ScaleSides(w, a, b);
      assert r[1..] == ScaleSides(w[1..], a, b);
      ScaledSides(w[1..], a, b);
      ScaledEntry(w[0], a, b);
      MulDistributes(Pos(w[0]), Long(w[1..]), a);
      MulDistributes(-Neg(w[0]), Short(w[1..]), b);
      MulDistributes(Neg(w[0]), 0.0, b);
    }
  }
}

/** _apply_position_cap and _enforce_portfolio_limits, one row at a time. */
module PortfolioLimits {
  import opened RealRows

  datatype Strategy = LongOnly | LongShort

  datatype Limits = Limits(strategy: Strategy, maxWeight: real, maxLeverage: real) {
    predicate Valid() {
      0.0 < maxWeight <= 1.0 && 0.0 < maxLeverage
    }
  }

  function Clip(x: real, bound: real): real
    requires bound >= 0.0
  {
    if x < -bound then -bound else if x > bound then bound else x
  }

  function Cap(w: Row, maxWeight: real): (r: Row)
    ensures |r| == |w|
  {
    if maxWeight <= 0.0 then w else seq(|w|, i requires 0 <= i < |w| => Clip(w[i], maxWeight))
  }

  function Ratio(part: real, whole: real): real {
    if whole == 0.0 then 0.0 else part / whole
  }

  function Balance(w: Row): (r: Row)
    ensures |r| == |w|
  {
    var balanced := RMin(Long(w), Short(w));
    ScaleSides(w, Ratio(balanced, Long(w)), Ratio(balanced, Short(w)))
  }

  function GrossScale(w: Row, maxLeverage: real): real {
    if Gross(w) == 0.0 then 1.0 else RMin(maxLeverage / Gross(w), 1.0)
  }

  function Deleverage(w: Row, maxLeverage: real): (r: Row)
    ensures |r| == |w|
  {
    ScaleSides(w, GrossScale(w, maxLeverage), GrossScale(w, maxLeverage))
  }

  function Enforce(w: Row, limits: Limits): (r: Row)
    ensures |r| == |w|
  {
    var capped := Cap(w, limits.maxWeight);
    var balanced := if limits.strategy.LongShort? then Balance(capped) else capped;
    Deleverage(balanced, limits.maxLeverage)
  }

  /** The exact portfolio invariant of a held row. */
  ghost predicate Within(w: Row, limits: Limits) {
    && (forall i :: 0 <= i < |w| ==> Abs(w[i]) <= limits.maxWeight)
    && Gross(w) <= limits.maxLeverage
    && (limits.strategy.LongShort? ==> Long(w) == Short(w))
  }

  /** r keeps the sign of every position of w and enlarges none. */
  ghost predicate Shrinks(r: Row, w: Row) {
    && |r| == |w|
    && forall i :: 0 <= i < |w| ==>
         (if w[i] >= 0.0 then 0.0 <= r[i] <= w[i] else w[i] <= r[i] <= 0.0)
  }

  lemma ShrinksTransitive(a: Row, b: Row, c: Row)
    requires Shrinks(a, b) && Shrinks(b, c)
    ensures Shrinks(a, c)
  {
  }

  lemma CapShrinks(w: Row, maxWeight: real)
    requires maxWeight > 0.0
    ensures Shrinks(Cap(w, maxWeight), w)
    ensures forall i :: 0 <= i < |w| ==> Abs(Cap(w, maxWeight)[i]) <= maxWeight
  {
  }

  lemma ScaledParts(x: real, a: real, b: real)
    requires 0.0 <= a && 0.0 <= b
    ensures Pos(SideEntry(x, a, b)) == Times(Pos(x), a)
    ensures Neg(SideEntry(x, a, b)) == Times(Neg(x), b)
  {
    hide Pos, Neg, SideEntry;
    ScaledEntry(x, a, b);
  }

  lemma LongPartShrinks(x: real, a: real, b: real)
    requires 0.0 <= a <= 1.0 && 0.0 <= b
    ensures 0.0 <= Pos(SideEntry(x, a, b)) <= Pos(x)
  {
    hide *;
    PosNeg(x);
    ScaledParts(x, a, b);
    ShrinkEntry(Pos(x), a);
  }

  lemma ShortPartShrinks(x: real, a: real, b: real)
    requires 0.0 <= a && 0.0 <= b <= 1.0
    ensures Neg(x) <= Neg(SideEntry(x, a, b)) <= 0.0
  {
    hide *;
    PosNeg(x);
    ScaledParts(x, a, b);
    ShrinkEntry(Neg(x), b);
  }

  lemma ScaledEntryShrinks(x: real, a: real, b: real)
    requires 0.0 <= a <= 1.0 && 0.0 <= b <= 1.0
    ensures var y := SideEntry(x, a, b);
            if x >= 0.0 then 0.0 <= y <= x else x <= y <= 0.0
  {
    hide Pos, Neg, SideEntry;
    LongPartShrinks(x, a, b);
    ShortPartShrinks(x, a, b);
    PosNeg(x);
    PosNeg(SideEntry(x, a, b));
  }

  lemma PosNeg(x: real)
    ensures x == Pos(x) + Neg(x) && Neg(x) <= 0.0 <= Pos(x)
    ensures x >= 0.0 ==> Neg(x) == 0.0
    ensures x <= 0.0 ==> Pos(x) == 0.0
  {
  }

  lemma ScaleShrinks(w: Row, a: real, b: real)
    requires 0.0 <= a <= 1.0 && 0.0 <= b <= 1.0
    ensures Shrinks(ScaleSides(w, a, b), w)
  {
    hide SideEntry;
    forall i | 0 <= i < |w|
      ensures if w[i] >= 0.0 then 0.0 <= ScaleSides(w, a, b)[i] <= w[i] else w[i] <= ScaleSides(w, a, b)[i] <= 0.0
    {
      ScaledEntryShrinks(w[i], a, b);
    }
  }

  lemma RatioBounds(part: real, whole: real)
    requires 0.0 <= part <= whole
    ensures 0.0 <= Ratio(part, whole) <= 1.0
    ensures whole * Ratio(part, whole) == part
    ensures part == whole > 0.0 ==> Ratio(part, whole) == 1.0
  {
    if whole > 0.0 {
      Quotient(part, whole);
      if part / whole > 1.0 {
        MulNonneg(part / whole - 1.0, whole);
        MulDistributes(part / whole, 1.0, whole);
      }
    }
  }

  lemma BalanceBalances(w: Row)
    ensures Shrinks(Balance(w), w)
    ensures Long(Balance(w)) == Short(Balance(w)) == RMin(Long(w), Short(w))
  {
    hide Long, Short, Shrinks, ScaleSides, Ratio;
    var b := RMin(Long(w), Short(w));
    Sides(w);
    RatioBounds(b, Long(w));
    RatioBounds(b, Short(w));
    ScaleShrinks(w, Ratio(b, Long(w)), Ratio(b, Short(w)));
    ScaledSides(w, Ratio(b, Long(w)), Ratio(b, Short(w)));
  }

  lemma GrossScaleBounds(w: Row, maxLeverage: real)
    requires maxLeverage > 0.0
    ensures 0.0 < GrossScale(w, maxLeverage) <= 1.0
    ensures Gross(w) * GrossScale(w, maxLeverage) <= maxLeverage
    ensures Gross(w) <= maxLeverage ==> GrossScale(w, maxLeverage) == 1.0
  {
    Sides(w);
    hide Gross, Long, Short;
    if Gross(w) > 0.0 {
      Quotient(maxLeverage, Gross(w));
    }
  }

  lemma DeleverageLimits(w: Row, maxLeverage: real)
    requires maxLeverage > 0.0
    ensures Shrinks(Deleverage(w, maxLeverage), w)
    ensures Gross(Deleverage(w, maxLeverage)) <= maxLeverage
    ensures Long(w) == Short(w) ==> Long(Deleverage(w, maxLeverage)) == Short(Deleverage(w, maxLeverage))
  {
    hide Gross, Long, Short, Shrinks, ScaleSides, GrossScale;
    var c := GrossScale(w, maxLeverage);
    GrossScaleBounds(w, maxLeverage);
    ScaleShrinks(w, c, c);
    ScaledSides(w, c, c);
    Sides(w);
    Sides(Deleverage(w, maxLeverage));
    MulDistributes(Long(w), Short(w), c);
  }

  /** Enforcement meets every limit, keeps signs and never enlarges a position, whatever row it is given. */
  lemma EnforceMeetsLimits(w: Row, limits: Limits)
    requires limits.Valid()
    ensures Within(Enforce(w, limits), limits)
    ensures Shrinks(Enforce(w, limits), w)
  {
    var capped := Cap(w, limits.maxWeight);
    var balanced := if limits.strategy.LongShort? then Balance(capped) else capped;
    CapShrinks(w, limits.maxWeight);
    if limits.strategy.LongShort? {
      BalanceBalances(capped);
    }
    ShrinksTransitive(balanced, capped, w);
    DeleverageLimits(balanced, limits.maxLeverage);
    ShrinksTransitive(Enforce(w, limits), balanced, capped);
    ShrinksTransitive(Enforce(w, limits), capped, w);
  }

  lemma ScaleByOne(w: Row, a: real, b: real)
    requires Long(w) == 0.0 || a == 1.0
    requires Short(w) == 0.0 || b == 1.0
    ensures ScaleSides(w, a, b) == w
  {
    EmptySide(w);
    forall i | 0 <= i < |w|
      ensures ScaleSides(w, a, b)[i] == w[i]
    {
      assert Pos(w[i]) == 0.0 || a == 1.0;
      assert Neg(w[i]) == 0.0 || b == 1.0;
      assert SideEntry(w[i], a, b) == w[i];
    }
  }

  /** Enforcement changes a row exactly when the row breaks a limit. */
  lemma EnforceFixesOnlyViolations(w: Row, limits: Limits)
    requires limits.Valid()
    ensures Enforce(w, limits) == w <==> Within(w, limits)
  {
    EnforceMeetsLimits(w, limits);
    if Within(w, limits) {
      var capped := Cap(w, limits.maxWeight);
      forall i | 0 <= i < |w|
        ensures capped[i] == w[i]
      {
        assert Abs(w[i]) <= limits.maxWeight;
      }
      assert capped == w;
      if limits.strategy.LongShort? {
        Sides(w);
        RatioBounds(Long(w), Long(w));
        ScaleByOne(w, Ratio(Long(w), Long(w)), Ratio(Long(w), Short(w)));
        assert Balance(w) == w;
      }
      GrossScaleBounds(w, limits.maxLeverage);
      ScaleByOne(w, 1.0, 1.0);
    }
  }

  lemma EnforceIdempotent(w: Row, limits: Limits)
    requires limits.Valid()
    ensures Enforce(Enforce(w, limits), limits) == Enforce(w, limits)
  {
    EnforceMeetsLimits(w, limits);
    EnforceFixesOnlyViolations(Enforce(w, limits), limits);
  }

  // ----- what enforcement computes

  lemma CapEntries(w: Row, limits: Limits, i: nat)
    requires limits.Valid() && i < |w|
    ensures Cap(w, limits.maxWeight)[i]
         == if w[i] > limits.maxWeight then limits.maxWeight else if w[i] < -limits.maxWeight then -limits.maxWeight else w[i]
  {
  }

  lemma ScaledAlike(w: Row, s: real, i: nat)
    requires s >= 0.0 && i < |w|
    ensures ScaleSides(w, s, s)[i] == Times(w[i], s)
  {
    hide Pos, Neg;
    PosNeg(w[i]);
    MulDistributes(Pos(w[i]), Neg(w[i]), s);
  }

  lemma Proportional(x: real, s: real, whole: real, part: real)
    requires part == Times(whole, s)
    ensures Times(Times(x, s), whole) == Times(x, part)
  {
  }

  lemma TimesDistributes(x: real, y: real, s: real)
    ensures Times(x, s) + Times(y, s) == Times(x + y, s)
  {
    MulDistributes(x, y, s);
  }

  lemma SidesScaled(w: Row, s: real)
    requires s >= 0.0
    ensures Long(ScaleSides(w, s, s)) == Times(Long(w), s) && Short(ScaleSides(w, s, s)) == Times(Short(w), s)
  {
    hide Long, Short, ScaleSides;
    ScaledSides(w, s, s);
  }

  lemma ScaledTotals(w: Row, s: real)
    requires s >= 0.0
    ensures var r := ScaleSides(w, s, s);
            Long(r) == Times(Long(w), s) && Short(r) == Times(Short(w), s) && Gross(r) == Times(Gross(w), s)
  {
    hide *;
    SidesScaled(w, s);
    Sides(w);
    Sides(ScaleSides(w, s, s));
    TimesDistributes(Long(w), Short(w), s);
  }

  lemma GrossScaleExact(w: Row, maxLeverage: real)
    requires maxLeverage > 0.0
    ensures 0.0 < GrossScale(w, maxLeverage) <= 1.0
    ensures Times(Gross(w), GrossScale(w, maxLeverage)) == RMin(Gross(w), maxLeverage)
  {
    Sides(w);
    GrossScaleBounds(w, maxLeverage);
    hide Gross, Long, Short;
    if Gross(w) > 0.0 {
      Quotient(maxLeverage, Gross(w));
    }
  }

  lemma HalfOfEach(l: real, s: real, lev: real)
    requires l >= 0.0 && Times(l + l, s) == RMin(l + l, lev)
    ensures Times(l, s) == RMin(l, lev / 2.0)
  {
    MulDistributes(l, l, s);
  }

  /** Scaling down to the leverage: the gross is the smaller of the two, and every share is kept. */
  lemma DeleverageExact(w: Row, maxLeverage: real, i: nat)
    requires maxLeverage > 0.0 && i < |w|
    ensures var r := Deleverage(w, maxLeverage);
            && Times(r[i], Gross(w)) == Times(w[i], Gross(r))
            && Times(r[i], Long(w)) == Times(w[i], Long(r)) && Times(r[i], Short(w)) == Times(w[i], Short(r))
  {
    hide Gross, Long, Short, ScaleSides, GrossScale, Times;
    var c := GrossScale(w, maxLeverage);
    var r := Deleverage(w, maxLeverage);
    GrossScaleExact(w, maxLeverage);
    ScaledTotals(w, c);
    ScaledAlike(w, c, i);
    Proportional(w[i], c, Gross(w), Gross(r));
    Proportional(w[i], c, Long(w), Long(r));
    Proportional(w[i], c, Short(w), Short(r));
  }

  lemma DeleverageTotals(w: Row, maxLeverage: real)
    requires maxLeverage > 0.0
    ensures var r := Deleverage(w, maxLeverage);
            && Gross(r) == RMin(Gross(w), maxLeverage)
            && (Long(w) == Short(w) ==> Long(r) == Short(r) == RMin(Long(w), maxLeverage / 2.0))
  {
    hide Gross, Long, Short, ScaleSides, GrossScale, Times;
    var c := GrossScale(w, maxLeverage);
    GrossScaleExact(w, maxLeverage);
    ScaledTotals(w, c);
    Sides(w);
    if Long(w) == Short(w) {
      HalfOfEach(Long(w), c, maxLeverage);
    }
  }

  lemma RatioExact(part: real, whole: real)
    requires 0.0 <= part <= whole
    ensures 0.0 <= Ratio(part, whole) && part == Times(whole, Ratio(part, whole))
  {
    RatioBounds(part, whole);
  }

  /** Balancing: each side keeps its shares and comes down to the smaller side. */
  lemma BalanceExact(w: Row, i: nat)
    requires i < |w|
    ensures w[i] >= 0.0 ==> Times(Balance(w)[i], Long(w)) == Times(w[i], RMin(Long(w), Short(w)))
    ensures w[i] <= 0.0 ==> Times(Balance(w)[i], Short(w)) == Times(w[i], RMin(Long(w), Short(w)))
  {
    hide Long, Short, Ratio, SideEntry, Times;
    var b := RMin(Long(w), Short(w));
    Sides(w);
    RatioExact(b, Long(w));
    RatioExact(b, Short(w));
    SideOf(w[i], Ratio(b, Long(w)), Ratio(b, Short(w)));
    Proportional(w[i], Ratio(b, Long(w)), Long(w), b);
    Proportional(w[i], Ratio(b, Short(w)), Short(w), b);
  }

  lemma Chained(x: real, d: real, r: real, whole: real, b: real, t: real)
    requires Times(d, whole) == Times(x, b) && Times(r, b) == Times(d, t) && 0.0 <= t <= b && (b == 0.0 ==> r == 0.0)
    ensures Times(r, whole) == Times(x, t)
  {
    if b > 0.0 {
      var y, z := r * whole, x * t;
      assert y * b == (r * b) * whole;
      assert (d * t) * whole == (d * whole) * t;
      assert (x * b) * t == z * b;
      MulDistributes(y, z, b);
      NoRemainder(y - z, b);
    }
  }

  lemma NoRemainder(y: real, b: real)
    requires b > 0.0 && y * b == 0.0
    ensures y == 0.0
  {
    if y > 0.0 {
      MulNonneg(y, b);
    } else if y < 0.0 {
      MulNonneg(-y, b);
      MulDistributes(y, 0.0, b);
    }
  }

  /** A long-only row keeps the shares of the clipped one, at the smaller of its gross and the leverage. */
  lemma EnforceLongOnly(w: Row, limits: Limits, i: nat)
    requires limits.Valid() && limits.strategy.LongOnly? && i < |w|
    ensures var c, r := Cap(w, limits.maxWeight), Enforce(w, limits);
            Gross(r) == RMin(Gross(c), limits.maxLeverage) && Times(r[i], Gross(c)) == Times(c[i], Gross(r))
  {
    hide Gross, Long, Short, Cap, Deleverage, Times;
    DeleverageExact(Cap(w, limits.maxWeight), limits.maxLeverage, i);
    DeleverageTotals(Cap(w, limits.maxWeight), limits.maxLeverage);
  }

  /**
   * A long-short row keeps the shares of each clipped side, and both sides come to the smallest of the two clipped sides
   * and half the leverage.
   */
  lemma EnforceLongShort(w: Row, limits: Limits, i: nat)
    requires limits.Valid() && limits.strategy.LongShort? && i < |w|
    ensures var c, r := Cap(w, limits.maxWeight), Enforce(w, limits);
            && Long(r) == Short(r) == RMin(RMin(Long(c), Short(c)), limits.maxLeverage / 2.0)
            && (c[i] >= 0.0 ==> Times(r[i], Long(c)) == Times(c[i], Long(r)))
            && (c[i] <= 0.0 ==> Times(r[i], Short(c)) == Times(c[i], Short(r)))
  {
    hide Gross, Long, Short, Cap, Balance, Deleverage, Shrinks, Times;
    var c, r := Cap(w, limits.maxWeight), Enforce(w, limits);
    var d := Balance(c);
    var b := RMin(Long(c), Short(c));
    BalanceBalances(c);
    DeleverageTotals(d, limits.maxLeverage);
    DeleverageExact(d, limits.maxLeverage, i);
    Sides(c);
    Sides(r);
    BalanceExact(c, i);
    FlatStaysFlat(d, limits.maxLeverage, i);
    if c[i] >= 0.0 {
      Chained(c[i], d[i], r[i], Long(c), b, Long(r));
    }
    if c[i] <= 0.0 {
      Chained(c[i], d[i], r[i], Short(c), b, Short(r));
    }
  }

  lemma FlatStaysFlat(d: Row, maxLeverage: real, i: nat)
    requires maxLeverage > 0.0 && i < |d|
    ensures Long(d) == 0.0 && Short(d) == 0.0 ==> Deleverage(d, maxLeverage)[i] == 0.0
  {
    DeleverageLimits(d, maxLeverage);
    EmptySide(d);
    hide Gross, Long, Short, Deleverage;
  }
}
