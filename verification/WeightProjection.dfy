/** The capped-weight projection of the scenario laboratory and the ascent that iterates it. */
module WeightProjection {
  import opened Common
  import opened RealRows

  const SLACK := 0.000000000001
  const TOLERANCE := 0.000000001
  const MAX_ROUNDS := 100
  const ASCENT_ROUNDS := 200
  const STEP := 0.05

  datatype Design = Design(maxWeight: real, allowShort: bool) {
    predicate Valid() {
      0.0 < maxWeight <= 1.0
    }

    function Lower(): real {
      if allowShort then -maxWeight else 0.0
    }
  }

  datatype ProjectionError = CannotFund | CapViolated

  function ClipTo(x: real, lower: real, upper: real): real {
    if x < lower then lower else if x > upper then upper else x
  }

  function Clipped(w: Row, d: Design): (r: Row)
    ensures |r| == |w| && forall i :: 0 <= i < |w| ==> r[i] == ClipTo(w[i], d.Lower(), d.maxWeight)
  {
    seq(|w|, i requires 0 <= i < |w| => ClipTo(w[i], d.Lower(), d.maxWeight))
  }

  function Divided(w: Row, total: real): (r: Row)
    requires total != 0.0
    ensures |r| == |w| && forall i :: 0 <= i < |w| ==> r[i] == w[i] / total
  {
    seq(|w|, i requires 0 <= i < |w| => w[i] / total)
  }

  function Uniform(n: nat): (r: Row)
    requires n > 0
    ensures |r| == n && forall i :: 0 <= i < n ==> r[i] == 1.0 / n as real
  {
    seq(n, i => 1.0 / n as real)
  }

  function MaxAbs(w: Row): (m: real)
    ensures m >= 0.0 && forall i :: 0 <= i < |w| ==> Abs(w[i]) <= m
  {
    if w == [] then 0.0
    else
      var rest := MaxAbs(w[1..]);
      assert forall i :: 0 < i < |w| ==> w[i] == w[1..][i - 1];
      if Abs(w[0]) >= rest then Abs(w[0]) else rest
  }

  lemma {:induction false} MaxAbsAttained(w: Row)
    requires w != []
    ensures exists i :: 0 <= i < |w| && Abs(w[i]) == MaxAbs(w)
  {
    if |w| == 1 {
      assert w[1..] == [];
      assert Abs(w[0]) == MaxAbs(w);
    } else {
      MaxAbsAttained(w[1..]);
      var i :| 0 <= i < |w[1..]| && Abs(w[1..][i]) == MaxAbs(w[1..]);
      assert Abs(w[i + 1]) == MaxAbs(w[1..]);
      assert Abs(w[0]) == MaxAbs(w) || Abs(w[i + 1]) == MaxAbs(w);
    }
  }

  /** The cap is wide enough to invest everything across n assets. */
  predicate Funds(d: Design, n: nat) {
    d.maxWeight * n as real >= 1.0
  }

  lemma FundsIff(d: Design, n: nat)
    ensures Funds(d, n) <==> Times(d.maxWeight, n as real) >= 1.0
  {
  }

  /** A fully invested book inside the cap. */
  ghost predicate Feasible(w: Row, d: Design) {
    && Gross(w) == 1.0
    && (forall i :: 0 <= i < |w| ==> Abs(w[i]) <= d.maxWeight + 0.000000000001)
    && (!d.allowShort ==> forall i :: 0 <= i < |w| ==> w[i] >= 0.0)
  }

  /** Larger inputs never get smaller weights. */
  ghost predicate KeepsOrder(w: Row, r: Row) {
    && |w| == |r|
    && forall i, j :: 0 <= i < |w| && 0 <= j < |w| && w[i] <= w[j] ==> r[i] <= r[j]
  }

  lemma DivideTimes(x: real, t: real)
    requires t > 0.0
    ensures (x / t) * t == x
  {
  }

  lemma TimesMonotone(a: real, b: real, t: real)
    requires t > 0.0 && a > b
    ensures a * t > b * t
  {
    MulNonneg(a - b, t);
    MulDistributes(a, b, t);
  }

  lemma DivideMonotone(x: real, y: real, t: real)
    requires t > 0.0
    ensures x <= y ==> x / t <= y / t
    ensures x >= 0.0 ==> x / t >= 0.0
    ensures (x / t) * t == x
  {
    var a, b := x / t, y / t;
    DivideTimes(x, t);
    DivideTimes(y, t);
    if a > b {
      TimesMonotone(a, b, t);
    }
    if a < 0.0 {
      TimesMonotone(0.0, a, t);
    }
  }

  lemma DividedTail(w: Row, t: real)
    requires t > 0.0 && w != []
    ensures Divided(w, t)[1..] == Divided(w[1..], t) && Divided(w, t)[0] == w[0] / t
  {
  }

  lemma {:induction false} DividedGross(w: Row, t: real)
    requires t > 0.0
    ensures Gross(Divided(w, t)) * t == Gross(w)
  {
    hide Abs, Divided;
    if w != [] {
      DividedGross(w[1..], t);
      DividedTail(w, t);
      AbsQuotient(w[0], t);
      MulDistributes(Abs(w[0] / t), Gross(Divided(w[1..], t)), t);
    }
  }

  lemma AbsQuotient(x: real, t: real)
    requires t > 0.0
    ensures Abs(x / t) * t == Abs(x)
    ensures x >= 0.0 <==> x / t >= 0.0
  {
    var q := x / t;
    assert q * t == x;
    MulDistributes(q, 0.0, t);
    if q >= 0.0 {
      MulNonneg(q, t);
    } else {
      MulNonneg(-q, t);
    }
  }

  lemma {:induction false} UniformGross(n: nat, k: nat)
    requires n > 0 && k <= n
    ensures Gross(Uniform(n)[..k]) == k as real * (1.0 / n as real)
  {
    Quotient(1.0, n as real);
    if k > 0 {
      UniformGross(n, k - 1);
      assert Uniform(n)[..k][1..] == Uniform(n)[..k - 1];
      MulDistributes((k - 1) as real, 1.0, 1.0 / n as real);
    }
  }

  lemma UniformFeasible(n: nat, d: Design)
    requires d.Valid() && n > 0 && Funds(d, n)
    ensures Feasible(Uniform(n), d)
  {
    UniformGross(n, n);
    assert Uniform(n)[..n] == Uniform(n);
    Quotient(1.0, n as real);
    DivideMonotone(1.0, d.maxWeight * n as real, n as real);
    assert (d.maxWeight * n as real) / n as real == d.maxWeight;
  }

  lemma SomeAsset(d: Design, n: nat)
    requires Funds(d, n)
    ensures n > 0
  {
  }

  lemma UniformKeepsOrder(w: Row)
    requires w != []
    ensures KeepsOrder(w, Uniform(|w|))
  {
  }

  lemma RoundKeepsOrder(w: Row, now: Row, d: Design, total: real)
    requires KeepsOrder(w, now) && total > 0.0 && d.Valid()
    ensures KeepsOrder(w, Divided(Clipped(now, d), total))
  {
    var r := Divided(Clipped(now, d), total);
    forall i, j | 0 <= i < |w| && 0 <= j < |w| && w[i] <= w[j]
      ensures r[i] <= r[j]
    {
      assert now[i] <= now[j];
      DivideMonotone(Clipped(now, d)[i], Clipped(now, d)[j], total);
    }
  }

  lemma Cancel(g: real, t: real)
    requires t > 0.0 && g * t == t
    ensures g == 1.0
  {
    MulDistributes(g, 1.0, t);
    if g > 1.0 {
      MulNonneg(g - 1.0, t);
    } else if g < 1.0 {
      MulNonneg(1.0 - g, t);
      MulDistributes(1.0, g, t);
    }
  }

  lemma RoundSumsToOne(now: Row, d: Design)
    requires d.Valid() && Gross(Clipped(now, d)) > 0.0
    ensures Gross(Divided(Clipped(now, d), Gross(Clipped(now, d)))) == 1.0
    ensures !d.allowShort ==> forall i :: 0 <= i < |now| ==> Divided(Clipped(now, d), Gross(Clipped(now, d)))[i] >= 0.0
  {
    hide Gross;
    var c := Clipped(now, d);
    var t := Gross(c);
    DividedGross(c, t);
    Cancel(Gross(Divided(c, t)), t);
    forall i | 0 <= i < |now| && !d.allowShort
      ensures Divided(c, t)[i] >= 0.0
    {
      DivideMonotone(c[i], c[i], t);
    }
  }

  // ----- the loop

  /** One round: clip, then divide by what is left; a book clipped to nothing becomes the uniform one. */
  function Step(w: Row, d: Design): (r: Row)
    requires w != []
    ensures |r| == |w|
  {
    if Gross(Clipped(w, d)) <= 0.0 then Uniform(|w|) else Divided(Clipped(w, d), Gross(Clipped(w, d)))
  }

  /** One round, entry by entry: every weight is clipped into the bounds and divided by the gross of the clipped row. */
  lemma StepExact(w: Row, d: Design)
    requires w != []
    ensures forall i :: 0 <= i < |w| ==>
              var lower := if d.allowShort then -d.maxWeight else 0.0;
              Clipped(w, d)[i] == if w[i] < lower then lower else if w[i] > d.maxWeight then d.maxWeight else w[i]
    ensures Gross(Clipped(w, d)) > 0.0 ==>
              forall i :: 0 <= i < |w| ==> Times(Step(w, d)[i], Gross(Clipped(w, d))) == Clipped(w, d)[i]
    ensures Gross(Clipped(w, d)) <= 0.0 ==> forall i :: 0 <= i < |w| ==> Times(Step(w, d)[i], |w| as real) == 1.0
  {
    var t := Gross(Clipped(w, d));
    hide Gross;
    forall i | 0 <= i < |w|
      ensures t > 0.0 ==> Times(Step(w, d)[i], t) == Clipped(w, d)[i]
      ensures t <= 0.0 ==> Times(Step(w, d)[i], |w| as real) == 1.0
    {
      if t > 0.0 {
        DivideTimes(Clipped(w, d)[i], t);
      } else {
        DivideTimes(1.0, |w| as real);
      }
    }
  }

  function Iterate(w: Row, d: Design, k: nat): (r: Row)
    requires w != []
    ensures |r| == |w|
  {
    if k == 0 then w else Step(Iterate(w, d, k - 1), d)
  }

  /** The loop's own test after round k. */
  predicate Settled(w: Row, d: Design, k: nat)
    requires w != []
  {
    MaxAbs(Iterate(w, d, k)) <= d.maxWeight + 0.000000000001
  }

  ghost predicate FirstSettled(w: Row, d: Design, k: nat)
    requires w != []
  {
    1 <= k <= 100 && Settled(w, d, k) && forall j :: 1 <= j < k ==> !Settled(w, d, j)
  }

  /**
   * The alternating loop: whenever the cap can fund a book, the result is fully invested, inside the
   * cap, long-only when shorting is off and order-preserving; it is the first iterate that settles, or
   * the uniform book when none of the hundred does; the closing check never fires.
   */
  method Project(weights: Row, d: Design) returns (r: Result<Row, ProjectionError>)
    requires d.Valid()
    ensures r.Err? <==> Times(d.maxWeight, |weights| as real) < 1.0
    ensures r.Err? ==> r.error == CannotFund
    ensures r.Ok? ==> |r.value| == |weights| > 0 && Feasible(r.value, d) && KeepsOrder(weights, r.value)
    ensures r.Ok? ==> forall k: nat :: FirstSettled(weights, d, k) ==> r.value == Iterate(weights, d, k)
    ensures r.Ok? && (forall k: nat :: !FirstSettled(weights, d, k)) ==> r.value == Uniform(|weights|)
  {
    FundsIff(d, |weights|);
    hide Gross, MaxAbs, Clipped, Divided, Funds, Uniform;
    if !Funds(d, |weights|) {
      return Err(CannotFund);
    }
    var n := |weights|;
    SomeAsset(d, n);
    UniformFeasible(n, d);
    UniformKeepsOrder(weights);
    var bounded := weights;
    var settled := false;
    var round := 0;
    while round < MAX_ROUNDS && !settled
      invariant round <= MAX_ROUNDS && bounded == Iterate(weights, d, round) && KeepsOrder(weights, bounded)
      invariant forall j :: 1 <= j < round ==> !Settled(weights, d, j)
      invariant if settled then FirstSettled(weights, d, round) && Feasible(bounded, d)
                else round > 0 ==> !Settled(weights, d, round)
    {
      var clipped := Clipped(bounded, d);
      var total := Gross(clipped);
      if total <= 0.0 {
        bounded := Uniform(n);
        FeasibleMax(bounded, d);
        settled := true;
      } else {
        RoundKeepsOrder(weights, bounded, d, total);
        RoundSumsToOne(bounded, d);
        bounded := Divided(clipped, total);
        settled := MaxAbs(bounded) <= d.maxWeight + SLACK;
        WithinMax(bounded);
      }
      round := round + 1;
    }
    if !settled {
      bounded := Uniform(n);
    }
    FeasibleMax(bounded, d);
    if MaxAbs(bounded) > d.maxWeight + TOLERANCE {
      return Err(CapViolated);
    }
    r := Ok(bounded);
  }

  lemma WithinMax(w: Row)
    ensures forall i :: 0 <= i < |w| ==> Abs(w[i]) <= MaxAbs(w)
  {
  }

  lemma FeasibleMax(w: Row, d: Design)
    requires Feasible(w, d) && d.Valid()
    ensures MaxAbs(w) <= d.maxWeight + SLACK
  {
    hide Gross;
    if w != [] {
      MaxAbsAttained(w);
    }
  }

  // ----- the dynamics of the long-only loop

  lemma {:induction false} ClippedGross(w: Row, d: Design)
    requires d.Valid() && forall i :: 0 <= i < |w| ==> w[i] >= 0.0
    ensures Gross(Clipped(w, d)) <= Gross(w)
    ensures Gross(w) > 0.0 ==> Gross(Clipped(w, d)) > 0.0
  {
    if w != [] {
      assert Clipped(w, d)[1..] == Clipped(w[1..], d);
      ClippedGross(w[1..], d);
      Sides(w[1..]);
      Sides(Clipped(w[1..], d));
    }
  }

  lemma RoundGross(w: Row, d: Design)
    requires d.Valid() && Gross(Clipped(w, d)) > 0.0
    ensures Gross(Divided(Clipped(w, d), Gross(Clipped(w, d)))) == 1.0
  {
    RoundSumsToOne(w, d);
  }

  lemma ScaledUp(x: real, t: real)
    requires 0.0 < t <= 1.0 && x >= 0.0
    ensures x / t >= x
  {
    DivideMonotone(x, x, t);
    var q := x / t;
    MulNonneg(q, 1.0 - t);
    assert q * (1.0 - t) == q - q * t;
  }

  // ----- over all rounds

  /** A nonnegative row that sums to one: what every long-only iterate from the first round on is. */
  ghost predicate Book(w: Row) {
    w != [] && Gross(w) == 1.0 && forall i :: 0 <= i < |w| ==> w[i] >= 0.0
  }

  function Total(w: Row, d: Design): real {
    Gross(Clipped(w, d))
  }

  /** A quotient by name, like Times. */
  function Share(x: real, t: real): real
    requires t != 0.0
  {
    x / t
  }

  lemma ShareOf(x: real, t: real)
    requires x >= 0.0 && 0.0 < t <= 1.0
    ensures Times(Share(x, t), t) == x && Share(x, t) >= x
    ensures x > 0.0 <==> Share(x, t) > 0.0
  {
    DivideMonotone(x, x, t);
    ScaledUp(x, t);
    var q := x / t;
    if q > 0.0 {
      MulNonneg(q, t);
    }
  }

  lemma TotalBounds(w: Row, d: Design)
    requires d.Valid() && Book(w)
    ensures 0.0 < Total(w, d) <= 1.0
  {
    ClippedGross(w, d);
    hide Gross;
  }

  lemma StepEntry(w: Row, d: Design, i: nat)
    requires w != [] && i < |w| && Total(w, d) > 0.0
    ensures Step(w, d)[i] == Share(Clipped(w, d)[i], Total(w, d))
  {
    hide Gross;
  }

  lemma ClippedEntry(w: Row, d: Design, i: nat)
    requires d.Valid() && Book(w) && i < |w|
    ensures Clipped(w, d)[i] == if w[i] >= d.maxWeight then d.maxWeight else w[i]
    ensures Clipped(w, d)[i] >= 0.0 && (Clipped(w, d)[i] > 0.0 <==> w[i] > 0.0)
  {
    hide Gross;
  }

  /** One position in one round on a book. */
  lemma BookRoundAt(w: Row, d: Design, i: nat)
    requires d.Valid() && Book(w) && i < |w|
    ensures w != [] && 0.0 < Total(w, d) <= 1.0
    ensures Step(w, d)[i] >= Clipped(w, d)[i] && Times(Step(w, d)[i], Total(w, d)) == Clipped(w, d)[i]
    ensures w[i] >= d.maxWeight ==> Step(w, d)[i] >= d.maxWeight
    ensures Step(w, d)[i] >= 0.0 && (w[i] > 0.0 <==> Step(w, d)[i] > 0.0)
  {
    hide *;
    BookNonempty(w);
    TotalBounds(w, d);
    StepEntry(w, d, i);
    ClippedEntry(w, d, i);
    ShareOf(Clipped(w, d)[i], Total(w, d));
  }

  lemma StepGross(w: Row, d: Design)
    requires d.Valid() && w != [] && Total(w, d) > 0.0
    ensures Gross(Step(w, d)) == 1.0
  {
    RoundGross(w, d);
  }

  lemma BookIs(w: Row)
    ensures Book(w) <==> w != [] && Gross(w) == 1.0 && forall i :: 0 <= i < |w| ==> w[i] >= 0.0
  {
  }

  /** One round on a book: the divisor is at most one, capped positions stay capped, and nothing vanishes or appears. */
  lemma BookRound(w: Row, d: Design)
    requires d.Valid() && Book(w)
    ensures w != [] && 0.0 < Total(w, d) <= 1.0 && Book(Step(w, d))
    ensures forall i :: 0 <= i < |w| ==>
              && Step(w, d)[i] >= Clipped(w, d)[i]
              && (w[i] >= d.maxWeight ==> Step(w, d)[i] >= d.maxWeight)
              && (w[i] > 0.0 <==> Step(w, d)[i] > 0.0)
  {
    hide *;
    BookNonempty(w);
    TotalBounds(w, d);
    StepGross(w, d);
    BookIs(Step(w, d));
    forall i | 0 <= i < |w|
      ensures Step(w, d)[i] >= Clipped(w, d)[i] && Step(w, d)[i] >= 0.0
      ensures w[i] >= d.maxWeight ==> Step(w, d)[i] >= d.maxWeight
      ensures w[i] > 0.0 <==> Step(w, d)[i] > 0.0
    {
      BookRoundAt(w, d, i);
    }
  }

  lemma {:induction false} BookIterate(w: Row, d: Design, k: nat)
    requires d.Valid() && Book(w)
    ensures Book(Iterate(w, d, k))
    ensures forall i :: 0 <= i < |w| ==> (Iterate(w, d, k)[i] > 0.0 <==> w[i] > 0.0)
  {
    hide Book, Step;
    if k > 0 {
      BookIterate(w, d, k - 1);
      BookNonempty(w);
      BookRound(Iterate(w, d, k - 1), d);
    }
  }

  lemma BookNonempty(w: Row)
    requires Book(w)
    ensures w != []
  {
  }

  /** The capped set only grows. */
  lemma {:induction false} CappedSetGrows(w: Row, d: Design, k: nat, m: nat, i: nat)
    requires d.Valid() && Book(w) && k <= m && i < |w| && Iterate(w, d, k)[i] >= d.maxWeight
    ensures Iterate(w, d, m)[i] >= d.maxWeight
    decreases m
  {
    hide Book, Step;
    BookNonempty(w);
    if k < m {
      CappedSetGrows(w, d, k, m - 1, i);
      BookIterate(w, d, m - 1);
      BookRound(Iterate(w, d, m - 1), d);
    }
  }

  /** What all positions not capped between rounds k and m are divided by. */
  function Factor(w: Row, d: Design, k: nat, m: nat): real
    requires w != [] && k <= m
    decreases m
  {
    if k == m then 1.0 else Times(Factor(w, d, k, m - 1), Total(Iterate(w, d, m - 1), d))
  }

  lemma {:induction false} FactorBounds(w: Row, d: Design, k: nat, m: nat)
    requires d.Valid() && Book(w) && k <= m
    ensures w != [] && 0.0 < Factor(w, d, k, m) <= 1.0
    decreases m
  {
    BookNonempty(w);
    hide Book, Step, Total, Times;
    if k < m {
      FactorBounds(w, d, k, m - 1);
      BookIterate(w, d, m - 1);
      BookRound(Iterate(w, d, m - 1), d);
      ProductAtMostOne(Factor(w, d, k, m - 1), Total(Iterate(w, d, m - 1), d));
    }
  }

  /** Every position still below the cap at round m has been scaled up by one and the same factor since round k. */
  lemma {:induction false} UncappedShareFactor(w: Row, d: Design, k: nat, m: nat, i: nat)
    requires d.Valid() && Book(w) && k <= m && i < |w| && Iterate(w, d, m)[i] < d.maxWeight
    ensures 0.0 < Factor(w, d, k, m) <= 1.0
    ensures Times(Iterate(w, d, m)[i], Factor(w, d, k, m)) == Iterate(w, d, k)[i]
    decreases m
  {
    hide Book, Step, Total, Times, Clipped;
    FactorBounds(w, d, k, m);
    TimesOne(Iterate(w, d, m)[i]);
    if k < m {
      var before := Iterate(w, d, m - 1);
      BookIterate(w, d, m - 1);
      BookRoundAt(before, d, i);
      UncappedShareFactor(w, d, k, m - 1, i);
      ClippedEntry(before, d, i);
      Regroup(Iterate(w, d, m)[i], Factor(w, d, k, m - 1), Total(before, d));
    }
  }

  lemma TimesOne(x: real)
    ensures Times(x, 1.0) == x
  {
  }

  lemma ProductAtMostOne(f: real, t: real)
    requires 0.0 < f <= 1.0 && 0.0 < t <= 1.0
    ensures 0.0 < Times(f, t) <= 1.0
  {
    MulNonneg(f, t);
    MulNonneg(f, 1.0 - t);
    assert f * (1.0 - t) == f - f * t;
  }

  lemma Regroup(x: real, f: real, t: real)
    ensures Times(x, Times(f, t)) == Times(Times(x, t), f)
  {
  }

  /** So the ratio of two positions that are never capped is kept. */
  lemma RatiosKept(w: Row, d: Design, k: nat, m: nat, i: nat, j: nat)
    requires d.Valid() && Book(w) && k <= m && i < |w| && j < |w|
    requires Iterate(w, d, m)[i] < d.maxWeight && Iterate(w, d, m)[j] < d.maxWeight
    ensures Times(Iterate(w, d, m)[i], Iterate(w, d, k)[j]) == Times(Iterate(w, d, m)[j], Iterate(w, d, k)[i])
  {
    hide *;
    BookNonempty(w);
    UncappedShareFactor(w, d, k, m, i);
    UncappedShareFactor(w, d, k, m, j);
    CrossProducts(Iterate(w, d, m)[i], Iterate(w, d, m)[j], Factor(w, d, k, m));
  }

  lemma CrossProducts(x: real, y: real, f: real)
    ensures Times(x, Times(y, f)) == Times(y, Times(x, f))
  {
  }

  // ----- when the loop settles at all

  function Support(w: Row): nat {
    if w == [] then 0 else (if w[0] > 0.0 then 1 else 0) + Support(w[1..])
  }

  lemma {:induction false} SameSupport(a: Row, b: Row)
    requires |a| == |b| && forall i :: 0 <= i < |a| ==> (a[i] > 0.0 <==> b[i] > 0.0)
    ensures Support(a) == Support(b)
  {
    if a != [] {
      SameSupport(a[1..], b[1..]);
    }
  }

  lemma {:induction false} SupportBoundsGross(w: Row, m: real)
    requires m >= 0.0 && forall i :: 0 <= i < |w| ==> 0.0 <= w[i] <= m
    ensures Gross(w) <= Support(w) as real * m
    ensures (forall i :: 0 <= i < |w| && w[i] > 0.0 ==> w[i] == m) ==> Gross(w) == Support(w) as real * m
  {
    if w != [] {
      SupportBoundsGross(w[1..], m);
      MulDistributes(Support(w[1..]) as real, 1.0, m);
    }
  }

  /** The positions of a book are too few to hold everything inside the cap. */
  predicate Crowded(support: nat, d: Design) {
    Times(support as real, d.maxWeight + SLACK) < 1.0
  }

  lemma CrowdedNeverFits(w: Row, d: Design)
    requires d.Valid() && Book(w) && Crowded(Support(w), d)
    ensures MaxAbs(w) > d.maxWeight + SLACK
  {
    if MaxAbs(w) <= d.maxWeight + SLACK {
      forall i | 0 <= i < |w|
        ensures 0.0 <= w[i] <= d.maxWeight + SLACK
      {
        assert Abs(w[i]) <= MaxAbs(w);
      }
      SupportBoundsGross(w, d.maxWeight + SLACK);
    }
  }

  lemma {:induction false} ExcessIsLost(w: Row, d: Design, i: nat)
    requires d.Valid() && i < |w| && forall j :: 0 <= j < |w| ==> w[j] >= 0.0
    ensures Gross(Clipped(w, d)) <= Gross(w) - (w[i] - d.maxWeight)
  {
    assert Clipped(w, d)[1..] == Clipped(w[1..], d);
    if i > 0 {
      ExcessIsLost(w[1..], d, i - 1);
    } else {
      ClippedGross(w[1..], d);
    }
  }

  /** An unsettled round scales every uncapped position up by more than one part in a trillion. */
  lemma UnsettledRoundGrows(w: Row, d: Design, i: nat)
    requires d.Valid() && Book(w) && MaxAbs(w) > d.maxWeight + SLACK && i < |w|
    ensures w != []
    ensures Step(w, d)[i] >= d.maxWeight || Step(w, d)[i] >= Times(w[i], 1.0 + SLACK)
  {
    hide *;
    UnsettledTotal(w, d);
    BookRoundAt(w, d, i);
    ClippedEntry(w, d, i);
    GrowsBy(Step(w, d)[i], Total(w, d));
  }

  lemma UnsettledTotal(w: Row, d: Design)
    requires d.Valid() && Book(w) && MaxAbs(w) > d.maxWeight + SLACK
    ensures Total(w, d) < 1.0 - SLACK
  {
    MaxAbsAttained(w);
    hide Clipped, MaxAbs;
    var top :| 0 <= top < |w| && Abs(w[top]) == MaxAbs(w);
    ExcessIsLost(w, d, top);
    hide Gross;
  }

  lemma GrowsBy(y: real, t: real)
    requires y >= 0.0 && 0.0 < t <= 1.0 - SLACK
    ensures y >= Times(Times(y, t), 1.0 + SLACK)
  {
    var g := t * (1.0 + SLACK);
    MulNonneg(1.0 - SLACK - t, 1.0 + SLACK);
    assert g <= (1.0 - SLACK) * (1.0 + SLACK) <= 1.0;
    MulNonneg(y, 1.0 - g);
    assert y * (1.0 - g) == y - y * g;
    assert (y * t) * (1.0 + SLACK) == y * g;
  }

  /** Linear growth after m unsettled rounds. */
  function Grown(x: real, m: nat): real {
    x * (1.0 + m as real * SLACK)
  }

  lemma Compounds(x: real, y: real, m: nat)
    requires x >= 0.0 && y >= Grown(x, m)
    ensures Times(y, 1.0 + SLACK) >= Grown(x, m + 1)
  {
    var a := 1.0 + m as real * SLACK;
    MulNonneg(y - x * a, 1.0 + SLACK);
    MulDistributes(y, x * a, 1.0 + SLACK);
    assert (x * a) * (1.0 + SLACK) == x * (a * (1.0 + SLACK));
    assert a * (1.0 + SLACK) == 1.0 + (m + 1) as real * SLACK + m as real * SLACK * SLACK;
    MulNonneg(x, m as real * SLACK * SLACK);
    assert x * (a * (1.0 + SLACK)) == x * (1.0 + (m + 1) as real * SLACK) + x * (m as real * SLACK * SLACK);
  }

  lemma NotYetGrown(x: real)
    ensures Grown(x, 0) == x
  {
  }

  /** While the loop is unsettled, each position is capped or has grown at least linearly. */
  lemma {:induction false} UnsettledGrows(w: Row, d: Design, m: nat, i: nat)
    requires d.Valid() && Book(w) && i < |w| && w != [] && forall j :: 0 <= j < m ==> !Settled(w, d, j)
    ensures Iterate(w, d, m)[i] >= d.maxWeight || Iterate(w, d, m)[i] >= Grown(w[i], m)
  {
    hide Book, Step, MaxAbs, Clipped, Total, Grown, Times;
    BookEntry(w, i);
    NotYetGrown(w[i]);
    if m > 0 {
      var before := Iterate(w, d, m - 1);
      UnsettledGrows(w, d, m - 1, i);
      BookIterate(w, d, m - 1);
      assert !Settled(w, d, m - 1);
      UnsettledRoundGrows(before, d, i);
      BookRoundAt(before, d, i);
      if before[i] < d.maxWeight {
        Compounds(w[i], before[i], m - 1);
      }
    }
  }

  lemma BookEntry(w: Row, i: nat)
    requires Book(w) && i < |w|
    ensures w[i] >= 0.0
  {
  }

  lemma {:induction false} SmallestPositive(w: Row) returns (a: real)
    ensures a > 0.0 && forall i :: 0 <= i < |w| && w[i] > 0.0 ==> w[i] >= a
  {
    if w == [] {
      a := 1.0;
    } else {
      a := SmallestPositive(w[1..]);
      if 0.0 < w[0] < a {
        a := w[0];
      }
      assert forall i :: 0 < i < |w| ==> w[i] == w[1..][i - 1];
    }
  }

  lemma EnoughRounds(a: real) returns (m: nat)
    requires a > 0.0
    ensures Grown(a, m) >= 1.0
  {
    var step := a * SLACK;
    MulNonneg(a, SLACK);
    var q := 1.0 / step;
    Quotient(1.0, step);
    m := q.Floor + 1;
    assert m as real >= q;
    MulNonneg(m as real - q, step);
    MulDistributes(m as real, q, step);
    assert m as real * step >= 1.0;
    assert a * (1.0 + m as real * SLACK) == a + m as real * step;
  }

  /** Once every position is capped, the next round shares the book equally among them. */
  lemma AllCappedSettles(w: Row, d: Design)
    requires d.Valid() && Book(w) && Support(w) > 0 && !Crowded(Support(w), d)
    requires forall i :: 0 <= i < |w| && w[i] > 0.0 ==> w[i] >= d.maxWeight
    ensures w != [] && MaxAbs(Step(w, d)) <= d.maxWeight + SLACK
  {
    hide *;
    BookNonempty(w);
    AllCappedTotal(w, d);
    var r := Step(w, d);
    forall i | 0 <= i < |w|
      ensures 0.0 <= r[i] <= d.maxWeight + SLACK
    {
      BookRoundAt(w, d, i);
      ClippedEntry(w, d, i);
      if r[i] > 0.0 {
        ShareFits(r[i], Support(w), d);
      } else {
        SlackPositive(d);
      }
    }
    MaxOfBounded(r, d.maxWeight + SLACK);
  }

  lemma SlackPositive(d: Design)
    requires d.Valid()
    ensures d.maxWeight + SLACK > 0.0
  {
  }

  lemma MaxOfBounded(r: Row, b: real)
    requires r != [] && forall i :: 0 <= i < |r| ==> 0.0 <= r[i] <= b
    ensures MaxAbs(r) <= b
  {
    MaxAbsAttained(r);
    hide MaxAbs;
  }

  lemma AllCappedTotal(w: Row, d: Design)
    requires d.Valid() && Book(w)
    requires forall i :: 0 <= i < |w| && w[i] > 0.0 ==> w[i] >= d.maxWeight
    ensures Total(w, d) == Times(Support(w) as real, d.maxWeight)
  {
    hide Book, Clipped, Gross, Support;
    var c := Clipped(w, d);
    forall i | 0 <= i < |w|
      ensures 0.0 <= c[i] <= d.maxWeight && (c[i] > 0.0 <==> w[i] > 0.0) && (c[i] > 0.0 ==> c[i] == d.maxWeight)
    {
      ClippedEntry(w, d, i);
    }
    SameSupport(c, w);
    SupportBoundsGross(c, d.maxWeight);
  }

  lemma ShareFits(r: real, n: nat, d: Design)
    requires d.Valid() && !Crowded(n, d) && Times(r, Times(n as real, d.maxWeight)) == d.maxWeight && n > 0
    ensures r <= d.maxWeight + SLACK
  {
    hide Times;
    EqualShare(r, n as real, d.maxWeight);
    NoMoreThan(r, d.maxWeight + SLACK, n as real);
  }

  lemma NoMoreThan(r: real, b: real, p: real)
    requires p > 0.0 && Times(r, p) <= Times(p, b)
    ensures r <= b
  {
    assert Times(r, p) == r * p && Times(p, b) == b * p;
    MulDistributes(r, b, p);
    if r > b {
      MulNonneg(r - b, p);
    }
  }

  lemma EqualShare(r: real, p: real, m: real)
    requires m > 0.0 && Times(r, Times(p, m)) == m
    ensures Times(r, p) == 1.0
  {
    var q := p * m;
    assert Times(p, m) == q;
    assert r * q == m;
    var g := r * p;
    assert g * m == r * q;
    Cancel(g, m);
  }

  lemma LargeEnough(x: real, a: real, m: nat)
    requires x >= a && Grown(a, m) >= 1.0
    ensures Grown(x, m) >= 1.0
  {
    MulNonneg(x - a, 1.0 + m as real * SLACK);
    MulDistributes(x, a, 1.0 + m as real * SLACK);
  }

  /** A book that fits its positions inside the cap settles after finitely many rounds. */
  lemma UncrowdedSettles(w: Row, d: Design) returns (k: nat)
    requires d.Valid() && Book(w) && Support(w) > 0 && !Crowded(Support(w), d)
    ensures Settled(w, d, k)
  {
    hide Book, Gross, MaxAbs, Step, Clipped, Crowded, Grown, Support;
    BookNonempty(w);
    var a := SmallestPositive(w);
    var m := EnoughRounds(a);
    if exists j :: 0 <= j < m && Settled(w, d, j) {
      k :| k < m && Settled(w, d, k);
    } else {
      var late := Iterate(w, d, m);
      BookIterate(w, d, m);
      forall i | 0 <= i < |w| && late[i] > 0.0
        ensures late[i] >= d.maxWeight
      {
        UnsettledGrows(w, d, m, i);
        LargeEnough(w[i], a, m);
      }
      SameSupport(late, w);
      AllCappedSettles(late, d);
      k := m + 1;
    }
  }

  // ----- any input

  /** What a position contributes once clipped: its size, or nothing when it is short and shorting is off. */
  function Size(x: real, d: Design): real {
    if d.allowShort then Abs(x) else Pos(x)
  }

  function Magnitudes(w: Row, d: Design): (r: Row)
    ensures |r| == |w| && forall i :: 0 <= i < |w| ==> r[i] == Size(w[i], d) >= 0.0
  {
    seq(|w|, i requires 0 <= i < |w| => Size(w[i], d))
  }

  lemma ClipSize(x: real, d: Design)
    requires d.Valid()
    ensures Abs(ClipTo(x, d.Lower(), d.maxWeight)) == ClipTo(Size(x, d), d.Lower(), d.maxWeight)
    ensures Size(ClipTo(x, d.Lower(), d.maxWeight), d) == Abs(ClipTo(x, d.Lower(), d.maxWeight))
    ensures 0.0 <= ClipTo(Size(x, d), d.Lower(), d.maxWeight)
  {
  }

  lemma {:induction false} ClippedSizes(w: Row, d: Design)
    requires d.Valid()
    ensures Gross(Clipped(w, d)) == Gross(Clipped(Magnitudes(w, d), d))
  {
    hide ClipTo, Size;
    if w != [] {
      ClippedSizes(w[1..], d);
      ClipSize(w[0], d);
      assert Clipped(w, d)[1..] == Clipped(w[1..], d);
      assert Magnitudes(w, d)[1..] == Magnitudes(w[1..], d);
      assert Clipped(Magnitudes(w, d), d)[1..] == Clipped(Magnitudes(w[1..], d), d);
    }
  }

  lemma SizeOfShare(c: real, t: real, d: Design)
    requires t > 0.0 && Size(c, d) == Abs(c)
    ensures Size(c / t, d) == Abs(c / t) == Abs(c) / t
  {
    AbsQuotient(c, t);
    DivideMonotone(c, c, t);
    DivideMonotone(-c, c, t);
    var q := c / t;
    assert Abs(q) * t == Abs(c);
    assert (Abs(q) * t) / t == Abs(q);
  }

  /** A round on any row is a round on the sizes of its positions. */
  lemma StepSizes(w: Row, d: Design)
    requires d.Valid() && w != []
    ensures Magnitudes(Step(w, d), d) == Step(Magnitudes(w, d), d)
    ensures forall i :: 0 <= i < |w| ==> Abs(Step(w, d)[i]) == Step(Magnitudes(w, d), d)[i]
  {
    ClippedSizes(w, d);
    var sizes := Magnitudes(w, d);
    hide Gross;
    forall i | 0 <= i < |w|
      ensures Size(Step(w, d)[i], d) == Abs(Step(w, d)[i]) == Step(sizes, d)[i]
    {
      StepSizeAt(w, d, i);
    }
  }

  lemma StepSizeAt(w: Row, d: Design, i: nat)
    requires d.Valid() && i < |w| && w != []
    ensures Size(Step(w, d)[i], d) == Abs(Step(w, d)[i]) == Step(Magnitudes(w, d), d)[i]
  {
    ClippedSizes(w, d);
    hide Gross;
    var t := Total(w, d);
    if t > 0.0 {
      ClipSize(w[i], d);
      SizeOfShare(Clipped(w, d)[i], t, d);
    } else {
      Quotient(1.0, |w| as real);
    }
  }

  lemma {:induction false} IterateSizes(w: Row, d: Design, k: nat)
    requires d.Valid() && w != []
    ensures Magnitudes(Iterate(w, d, k), d) == Iterate(Magnitudes(w, d), d, k)
    ensures k > 0 ==> forall i :: 0 <= i < |w| ==> Abs(Iterate(w, d, k)[i]) == Iterate(Magnitudes(w, d), d, k)[i]
  {
    hide Step;
    if k > 0 {
      IterateSizes(w, d, k - 1);
      StepSizes(Iterate(w, d, k - 1), d);
    }
  }

  lemma {:induction false} SameMax(a: Row, b: Row)
    requires |a| == |b| && forall i :: 0 <= i < |a| ==> Abs(a[i]) == Abs(b[i])
    ensures MaxAbs(a) == MaxAbs(b)
  {
    if a != [] {
      SameMax(a[1..], b[1..]);
    }
  }

  lemma {:induction false} IterateShift(w: Row, d: Design, k: nat)
    requires w != []
    ensures Iterate(w, d, k + 1) == Iterate(Step(w, d), d, k)
  {
    hide Step;
    if k > 0 {
      IterateShift(w, d, k - 1);
    } else {
      assert Iterate(w, d, 1) == Step(Iterate(w, d, 0), d);
    }
  }

  lemma {:induction false} SupportPositive(w: Row)
    requires Support(w) > 0 && forall i :: 0 <= i < |w| ==> w[i] >= 0.0
    ensures Gross(w) > 0.0
  {
    Sides(w[1..]);
    if w[0] == 0.0 {
      SupportPositive(w[1..]);
    }
  }

  /** The first round turns sizes that are not all zero into a book over the same positions. */
  lemma FirstRoundBooks(w: Row, d: Design)
    requires d.Valid() && Support(Magnitudes(w, d)) > 0
    ensures w != [] && Book(Step(Magnitudes(w, d), d))
    ensures Support(Step(Magnitudes(w, d), d)) == Support(Magnitudes(w, d))
  {
    var y := Magnitudes(w, d);
    SupportPositive(y);
    ClippedGross(y, d);
    hide Size;
    assert w != [];
    StepGross(y, d);
    hide Gross, Support;
    forall i | 0 <= i < |w|
      ensures Step(y, d)[i] >= 0.0 && (Step(y, d)[i] > 0.0 <==> y[i] > 0.0)
    {
      StepEntry(y, d, i);
      SignOfShare(Clipped(y, d)[i], Total(y, d));
    }
    SameSupport(Step(y, d), y);
  }

  lemma SignOfShare(x: real, t: real)
    requires x >= 0.0 && t > 0.0
    ensures Share(x, t) >= 0.0 && (Share(x, t) > 0.0 <==> x > 0.0)
  {
    DivideMonotone(x, x, t);
    if x / t > 0.0 {
      MulNonneg(x / t, t);
    }
  }

  lemma SettledSizes(w: Row, d: Design, k: nat)
    requires d.Valid() && Support(Magnitudes(w, d)) > 0
    ensures w != [] && (Settled(w, d, k + 1) <==> Settled(Step(Magnitudes(w, d), d), d, k))
  {
    FirstRoundBooks(w, d);
    IterateSizes(w, d, k + 1);
    IterateShift(Magnitudes(w, d), d, k);
    hide Step, Iterate, Size, Support, Book;
    var y := Iterate(Magnitudes(w, d), d, k + 1);
    SameMax(Iterate(w, d, k + 1), y);
  }

  /**
   * Without the ceiling on rounds: from an input with some mass, some round settles if and only if the positions that
   * carry mass can hold a whole book inside the cap. The bound on all assets that is checked first is not enough, and
   * neither is this one for the hundred rounds there are: SlowExample falls back, SettlesInTime bounds the rounds.
   */
  lemma SettlesIff(w: Row, d: Design)
    requires d.Valid() && Support(Magnitudes(w, d)) > 0
    ensures w != []
    ensures (exists k: nat :: k >= 1 && Settled(w, d, k)) <==> !Crowded(Support(Magnitudes(w, d)), d)
  {
    hide Settled, Crowded, Support, Step, Size, Book;
    FirstRoundBooks(w, d);
    var book := Step(Magnitudes(w, d), d);
    if Crowded(Support(book), d) {
      forall k: nat | k >= 1
        ensures !Settled(w, d, k)
      {
        SettledSizes(w, d, k - 1);
        CrowdedNeverSettles(book, d, k - 1);
      }
    } else {
      var k := UncrowdedSettles(book, d);
      SettledSizes(w, d, k);
      assert Settled(w, d, k + 1);
    }
  }

  lemma CrowdedNeverSettles(w: Row, d: Design, k: nat)
    requires d.Valid() && Book(w) && Crowded(Support(w), d)
    ensures w != [] && !Settled(w, d, k)
  {
    hide Book, Support, MaxAbs, Step, Crowded;
    BookNonempty(w);
    BookIterate(w, d, k);
    SameSupport(Iterate(w, d, k), w);
    CrowdedNeverFits(Iterate(w, d, k), d);
  }

  /** When it does not, every input with that support is answered with the uniform book over all assets. */
  lemma CrowdedFallsBack(w: Row, d: Design)
    requires d.Valid() && Support(Magnitudes(w, d)) > 0 && Crowded(Support(Magnitudes(w, d)), d)
    ensures w != [] && forall k: nat :: !FirstSettled(w, d, k)
  {
    SettlesIff(w, d);
    hide Settled, Crowded, Support;
  }

  // ----- settling within the rounds there are

  function Pow(x: real, n: nat): real {
    if n == 0 then 1.0 else Times(x, Pow(x, n - 1))
  }

  lemma {:induction false} PowPositive(x: real, n: nat)
    requires x > 0.0
    ensures Pow(x, n) > 0.0
  {
    if n > 0 {
      PowPositive(x, n - 1);
      MulNonneg(x, Pow(x, n - 1));
    }
  }

  /** How many positions lie strictly above the cap. */
  function Above(w: Row, d: Design): nat {
    if w == [] then 0 else (if w[0] > d.maxWeight then 1 else 0) + Above(w[1..], d)
  }

  /** The most that fewer than n positions can hold at the cap while they do not hold everything. */
  function Loading(n: nat, d: Design): real {
    if n <= 1 then 0.0 else if Times((n - 1) as real, d.maxWeight) < 1.0 then Times((n - 1) as real, d.maxWeight)
    else Loading(n - 1, d)
  }

  lemma {:induction false} LoadingBounds(n: nat, c: nat, d: Design)
    requires d.Valid() && c < n && Times(c as real, d.maxWeight) < 1.0
    ensures Times(c as real, d.maxWeight) <= Loading(n, d)
  {
    if n > 1 {
      if Times((n - 1) as real, d.maxWeight) < 1.0 {
        MulNonneg((n - 1 - c) as real, d.maxWeight);
        MulDistributes((n - 1) as real, c as real, d.maxWeight);
      } else {
        LoadingBounds(n - 1, c, d);
      }
    }
  }

  lemma {:induction false} AboveSupport(w: Row, d: Design)
    requires d.Valid()
    ensures Above(w, d) <= Support(w)
    ensures Above(w, d) == Support(w) ==> forall i :: 0 <= i < |w| && w[i] > 0.0 ==> w[i] > d.maxWeight
  {
    if w != [] {
      AboveSupport(w[1..], d);
      assert forall i :: 0 < i < |w| ==> w[i] == w[1..][i - 1];
    }
  }

  /** One position more, above the cap or not. */
  lemma HoldsMore(above: nat, m: real, rest: real, x: real)
    requires m > 0.0 && x >= 0.0 && Times(above as real, m) <= rest && (above > 0 ==> Times(above as real, m) < rest)
    ensures x > m ==> Times((1 + above) as real, m) < x + rest
    ensures Times(above as real, m) <= x + rest && (above > 0 ==> Times(above as real, m) < x + rest)
  {
    MulDistributes(above as real, 1.0, m);
  }

  lemma {:induction false} AboveGross(w: Row, d: Design)
    requires d.Valid() && forall i :: 0 <= i < |w| ==> w[i] >= 0.0
    ensures Times(Above(w, d) as real, d.maxWeight) <= Gross(w)
    ensures Above(w, d) > 0 ==> Times(Above(w, d) as real, d.maxWeight) < Gross(w)
  {
    if w != [] {
      AboveGross(w[1..], d);
      HoldsMore(Above(w[1..], d), d.maxWeight, Gross(w[1..]), w[0]);
      hide Times;
      assert Gross(w) == w[0] + Gross(w[1..]);
      assert Above(w, d) == (if w[0] > d.maxWeight then 1 else 0) + Above(w[1..], d);
    } else {
      NoneAbove(0, d);
    }
  }

  /** What one position loses when it is clipped after a division by t. */
  lemma LossOf(x: real, t: real, m: real)
    requires 0.0 <= x <= m && 0.0 < t <= 1.0 && m > 0.0
    ensures var y := Share(x, t);
            y >= 0.0 && Times(y - ClipTo(y, 0.0, m), t) <= if y > m then Times(m, 1.0 - t) else 0.0
  {
    DivideMonotone(x, x, t);
    var y := x / t;
    assert y * t == x;
    MulDistributes(y, m, t);
    assert m * (1.0 - t) == m - m * t;
  }

  lemma FirstLoss(r: Row, d: Design)
    requires d.Valid() && r != [] && r[0] >= 0.0
    ensures Gross(r) - Total(r, d) == (r[0] - ClipTo(r[0], 0.0, d.maxWeight)) + (Gross(r[1..]) - Total(r[1..], d))
    ensures Above(r, d) == (if r[0] > d.maxWeight then 1 else 0) + Above(r[1..], d)
  {
    assert Clipped(r, d)[1..] == Clipped(r[1..], d);
    assert ClipTo(r[0], d.Lower(), d.maxWeight) == ClipTo(r[0], 0.0, d.maxWeight) >= 0.0;
  }

  lemma AddLoss(loss: real, rest: real, t: real, above: nat, one: real, over: bool)
    requires Times(loss, t) <= (if over then one else 0.0) && Times(rest, t) <= Times(above as real, one)
    ensures Times(loss + rest, t) <= Times(((if over then 1 else 0) + above) as real, one)
  {
    MulDistributes(loss, rest, t);
    MulDistributes(above as real, 1.0, one);
  }

  /** Clipping after a division loses, per position above the cap, at most the cap times what the division added. */
  lemma {:induction false} ClipLoss(c: Row, r: Row, d: Design, t: real)
    requires d.Valid() && 0.0 < t <= 1.0 && |c| == |r|
    requires forall i :: 0 <= i < |c| ==> 0.0 <= c[i] <= d.maxWeight && r[i] == Share(c[i], t)
    ensures Times(Gross(r) - Total(r, d), t) <= Times(Above(r, d) as real, Times(d.maxWeight, 1.0 - t))
  {
    var one := Times(d.maxWeight, 1.0 - t);
    if r != [] {
      LossOf(c[0], t, d.maxWeight);
      assert forall i :: 0 < i < |c| ==> c[i] == c[1..][i - 1] && r[i] == r[1..][i - 1];
      hide *;
      ClipLoss(c[1..], r[1..], d, t);
      FirstLoss(r, d);
      AddLoss(r[0] - ClipTo(r[0], 0.0, d.maxWeight), Gross(r[1..]) - Total(r[1..], d), t, Above(r[1..], d), one,
              r[0] > d.maxWeight);
    } else {
      assert Gross(r) == 0.0 && Total(r, d) == 0.0 && Above(r, d) == 0;
    }
  }

  /** The loss of the next round against that of this one. */
  lemma NextLoss(w: Row, d: Design)
    requires d.Valid() && Book(w)
    ensures w != [] && 0.0 < Total(w, d) <= 1.0
    ensures Times(1.0 - Total(Step(w, d), d), Total(w, d))
         <= Times(Above(Step(w, d), d) as real, Times(d.maxWeight, 1.0 - Total(w, d)))
  {
    hide *;
    BookRound(w, d);
    BookIs(Step(w, d));
    forall i | 0 <= i < |w|
      ensures 0.0 <= Clipped(w, d)[i] <= d.maxWeight && Step(w, d)[i] == Share(Clipped(w, d)[i], Total(w, d))
    {
      ClippedEntry(w, d, i);
      StepEntry(w, d, i);
    }
    ClipLoss(Clipped(w, d), Step(w, d), d, Total(w, d));
  }

  lemma Contraction(next: real, e: real, t: real, above: real, m: real, load: real, q: real, theta: real)
    requires Times(next, t) <= Times(above, Times(m, e)) && 0.0 <= e && 0.0 < theta <= t
    requires Times(above, m) <= load && load == Times(q, theta) && 0.0 <= q
    ensures next <= Times(q, e)
  {
    assert Times(above, Times(m, e)) == Times(Times(above, m), e);
    MulNonneg(load - Times(above, m), e);
    MulDistributes(load, Times(above, m), e);
    var qe := q * e;
    MulNonneg(q, e);
    assert load * e == qe * theta;
    MulNonneg(qe, t - theta);
    assert qe * (t - theta) == qe * t - qe * theta;
    NoMoreThan(next, qe, t);
  }

  /** What the slow phase multiplies the loss by, once the totals are at least theta. */
  function Ratio(n: nat, d: Design, theta: real): real
    requires theta > 0.0
  {
    Share(Loading(n, d), theta)
  }

  lemma {:induction false} LoadingRange(n: nat, d: Design)
    requires d.Valid()
    ensures 0.0 <= Loading(n, d) < 1.0
  {
    if n > 1 {
      MulNonneg((n - 1) as real, d.maxWeight);
      LoadingRange(n - 1, d);
    }
  }

  lemma RatioRange(n: nat, d: Design, theta: real)
    requires d.Valid() && Loading(n, d) <= theta && theta > 0.0
    ensures 0.0 <= Ratio(n, d, theta) <= 1.0 && Times(Ratio(n, d, theta), theta) == Loading(n, d)
  {
    LoadingRange(n, d);
    hide Loading;
    DivideMonotone(Loading(n, d), theta, theta);
    Quotient(theta, theta);
    var one := theta / theta;
    assert one * theta == theta;
    Cancel(one, theta);
  }

  /** A round from a total of theta or more that leaves some position below the cap shrinks the loss. */
  lemma Contracts(w: Row, d: Design, theta: real)
    requires d.Valid() && Book(w) && 0.0 < theta <= Total(w, d) && Loading(Support(w), d) <= theta
    requires w != [] && Above(Step(w, d), d) < Support(w)
    ensures 1.0 - Total(Step(w, d), d) <= Times(Ratio(Support(w), d, theta), 1.0 - Total(w, d))
    ensures Total(Step(w, d), d) >= Total(w, d)
  {
    hide *;
    NextLoss(w, d);
    BookRound(w, d);
    var next := Step(w, d);
    var above := Above(next, d);
    BookIs(next);
    AboveGross(next, d);
    AboveSupport(next, d);
    NoneAbove(above, d);
    LoadingBounds(Support(w), above, d);
    RatioRange(Support(w), d, theta);
    var q := Ratio(Support(w), d, theta);
    Contraction(1.0 - Total(next, d), 1.0 - Total(w, d), Total(w, d), above as real, d.maxWeight, Loading(Support(w), d), q, theta);
    ShrinkEntry(1.0 - Total(w, d), q);
    Commutes(1.0 - Total(w, d), q);
  }

  lemma NoneAbove(above: nat, d: Design)
    ensures above == 0 ==> Times(above as real, d.maxWeight) == 0.0
  {
  }

  lemma Commutes(x: real, y: real)
    ensures Times(x, y) == Times(y, x)
  {
  }

  /** Every positive position lies above the cap: the next round settles. */
  lemma AllAboveSettles(w: Row, d: Design, k: nat)
    requires d.Valid() && Book(w) && w != [] && Support(w) > 0 && !Crowded(Support(w), d)
    requires forall i :: 0 <= i < |w| && Iterate(w, d, k)[i] > 0.0 ==> Iterate(w, d, k)[i] >= d.maxWeight
    ensures Settled(w, d, k + 1)
  {
    hide Book, Step, Clipped, MaxAbs, Support, Crowded;
    BookIterate(w, d, k);
    SameSupport(Iterate(w, d, k), w);
    AllCappedSettles(Iterate(w, d, k), d);
  }

  /** Losing no more than the slack is settled. */
  lemma SmallLossSettles(w: Row, d: Design)
    requires d.Valid() && Book(w) && 1.0 - Total(w, d) <= SLACK
    ensures MaxAbs(w) <= d.maxWeight + SLACK
  {
    hide Book, Total, MaxAbs;
    if MaxAbs(w) > d.maxWeight + SLACK {
      UnsettledTotal(w, d);
    }
  }

  ghost predicate Slowed(w: Row, d: Design, theta: real, k: nat, bound: real)
    requires w != []
  {
    Total(Iterate(w, d, k), d) >= theta && 1.0 - Total(Iterate(w, d, k), d) <= bound
  }

  lemma NextPower(e: real, q: real, n: nat, c: real)
    requires 0.0 <= q && e <= Times(Pow(q, n), c)
    ensures Times(q, e) <= Times(Pow(q, n + 1), c)
  {
    var p := Times(Pow(q, n), c);
    MulNonneg(q, p - e);
    assert q * (p - e) == q * p - q * e;
    var pow := Pow(q, n);
    assert Pow(q, n + 1) == q * pow;
    assert q * (pow * c) == (q * pow) * c;
  }

  /** From a total of theta on, either some round settles in time or the loss falls geometrically. */
  lemma {:induction false} SlowPhase(w: Row, d: Design, theta: real, k: nat, j: nat) returns (s: nat)
    requires d.Valid() && Book(w) && w != [] && Support(w) > 0 && !Crowded(Support(w), d)
    requires 0.0 < theta && Loading(Support(w), d) <= theta <= Total(Iterate(w, d, k), d)
    ensures s <= k + j + 1
    ensures Settled(w, d, s) || Slowed(w, d, theta, k + j, Times(Pow(Ratio(Support(w), d, theta), j), 1.0 - theta))
    decreases j
  {
    hide Book, Step, Clipped, MaxAbs, Support, Crowded, Total, Loading, Ratio, Above, Times;
    var q := Ratio(Support(w), d, theta);
    if j == 0 {
      s := 0;
      Commutes(1.0, 1.0 - theta);
      TimesOne(1.0 - theta);
    } else {
      s := SlowPhase(w, d, theta, k, j - 1);
      if !Settled(w, d, s) {
        var before := Iterate(w, d, k + j - 1);
        BookIterate(w, d, k + j - 1);
        SameSupport(before, w);
        BookRound(before, d);
        AboveSome(before, d);
        if Above(Step(before, d), d) < Support(w) {
          Contracts(before, d, theta);
          RatioRange(Support(w), d, theta);
          NextPower(1.0 - Total(before, d), q, j - 1, 1.0 - theta);
        } else {
          s := k + j + 1;
          AllAboveSettles(w, d, k + j);
        }
      }
    }
  }

  lemma AboveSome(w: Row, d: Design)
    requires d.Valid() && Book(w) && w != []
    ensures Above(Step(w, d), d) >= Support(w) ==>
              forall i :: 0 <= i < |w| && Step(w, d)[i] > 0.0 ==> Step(w, d)[i] >= d.maxWeight
  {
    hide *;
    BookRound(w, d);
    AboveSupport(Step(w, d), d);
    SameSupport(Step(w, d), w);
  }

  /** While the totals stay at most theta, each position is capped or grows by at least one over theta a round. */
  lemma {:induction false} FastPhase(w: Row, d: Design, theta: real, m: nat, i: nat)
    requires d.Valid() && Book(w) && w != [] && i < |w| && 0.0 < theta
    requires forall j :: 0 <= j < m ==> Total(Iterate(w, d, j), d) <= theta
    ensures Iterate(w, d, m)[i] >= d.maxWeight || Times(Iterate(w, d, m)[i], Pow(theta, m)) >= w[i]
  {
    hide Book, Step, Clipped, MaxAbs, Total, Times;
    if m == 0 {
      TimesOne(w[i]);
    } else {
      var before := Iterate(w, d, m - 1);
      FastPhase(w, d, theta, m - 1, i);
      BookIterate(w, d, m - 1);
      BookRoundAt(before, d, i);
      ClippedEntry(before, d, i);
      assert Total(before, d) <= theta;
      if before[i] < d.maxWeight {
        PowPositive(theta, m - 1);
        GrowsFast(Step(before, d)[i], before[i], Total(before, d), theta, Pow(theta, m - 1));
      }
    }
  }

  lemma GrowsFast(y: real, x: real, t: real, theta: real, p: real)
    requires y >= 0.0 && Times(y, t) == x && t <= theta && p > 0.0
    ensures Times(y, Times(theta, p)) >= Times(x, p)
  {
    MulNonneg(y, theta - t);
    assert y * (theta - t) == y * theta - y * t;
    MulNonneg(y * theta - x, p);
    MulDistributes(y * theta, x, p);
    assert y * (theta * p) == (y * theta) * p;
  }

  /** In fast rounds every share reaches the cap, or in slow rounds from a total of theta the loss falls below the slack. */
  ghost predicate Timely(book: Row, d: Design, theta: real, fast: nat, slow: nat) {
    && 0.0 < theta < 1.0 && Loading(Support(book), d) <= theta
    && (forall i :: 0 <= i < |book| && book[i] > 0.0 ==> book[i] >= Times(d.maxWeight, Pow(theta, fast)))
    && Times(Pow(Ratio(Support(book), d, theta), slow), 1.0 - theta) <= SLACK
  }

  lemma BookSettlesInTime(w: Row, d: Design, theta: real, fast: nat, slow: nat) returns (s: nat)
    requires d.Valid() && Book(w) && w != [] && Support(w) > 0 && !Crowded(Support(w), d) && Timely(w, d, theta, fast, slow)
    ensures s <= fast + slow + 1 && Settled(w, d, s)
  {
    hide Book, Step, Clipped, MaxAbs, Support, Crowded, Total, Loading, Ratio, Times, Pow;
    if exists k :: 0 <= k < fast && Total(Iterate(w, d, k), d) > theta {
      var k :| 0 <= k < fast && Total(Iterate(w, d, k), d) > theta;
      s := SlowPhase(w, d, theta, k, slow);
      if !Settled(w, d, s) {
        s := k + slow;
        BookIterate(w, d, s);
        SmallLossSettles(Iterate(w, d, s), d);
      }
    } else {
      var late := Iterate(w, d, fast);
      BookIterate(w, d, fast);
      forall i | 0 <= i < |w| && late[i] > 0.0
        ensures late[i] >= d.maxWeight
      {
        FastPhase(w, d, theta, fast, i);
        PowPositive(theta, fast);
        if late[i] < d.maxWeight {
          Commutes(late[i], Pow(theta, fast));
          NoMoreThan(d.maxWeight, late[i], Pow(theta, fast));
        }
      }
      s := fast + 1;
      AllAboveSettles(w, d, fast);
    }
  }

  lemma FirstOf(w: Row, d: Design, k: nat) returns (first: nat)
    requires w != [] && 1 <= k <= MAX_ROUNDS && Settled(w, d, k)
    ensures FirstSettled(w, d, first) && first <= k
    decreases k
  {
    hide Settled;
    if j :| 1 <= j < k && Settled(w, d, j) {
      first := FirstOf(w, d, j);
    } else {
      first := k;
    }
  }

  /**
   * A condition to check before the call under which the hundred rounds are enough: some division theta of the phases
   * for which the shares after one clip and division are timely. Projecting then returns a settled iterate.
   */
  lemma SettlesInTime(w: Row, d: Design, theta: real, fast: nat, slow: nat) returns (k: nat)
    requires d.Valid() && Support(Magnitudes(w, d)) > 0 && !Crowded(Support(Magnitudes(w, d)), d)
    requires fast + slow + 2 <= MAX_ROUNDS && Timely(Step(Magnitudes(w, d), d), d, theta, fast, slow)
    ensures w != [] && k <= fast + slow + 2 && FirstSettled(w, d, k)
  {
    hide Book, Step, Settled, Support, Crowded, Timely, Magnitudes, FirstSettled;
    FirstRoundBooks(w, d);
    var book := Step(Magnitudes(w, d), d);
    var s := BookSettlesInTime(book, d, theta, fast, slow);
    SettledSizes(w, d, s);
    k := FirstOf(w, d, s + 1);
  }

  /** All the money on one of four assets, under a cap of nine tenths: fundable, and never settled. */
  method FallbackExample() returns (r: Result<Row, ProjectionError>)
    ensures r == Ok(Uniform(4))
  {
    var w, d := [1.0, 0.0, 0.0, 0.0], Design(0.9, false);
    OneHolder(w, d);
    CrowdedFallsBack(w, d);
    assert Funds(d, 4) && d.Valid();
    FundsIff(d, 4);
    hide Support, Settled, FirstSettled, Feasible, KeepsOrder, Funds;
    r := Project(w, d);
  }

  lemma OneHolder(w: Row, d: Design)
    requires w == [1.0, 0.0, 0.0, 0.0] && d == Design(0.9, false)
    ensures Support(Magnitudes(w, d)) == 1 && Crowded(1, d)
  {
    var y := Magnitudes(w, d);
    var a := y[1..];
    var b := a[1..];
    var c := b[1..];
    assert y == w && a == [0.0, 0.0, 0.0] && b == [0.0, 0.0] && c == [0.0] && c[1..] == [];
    assert Support([]) == 0;
    assert Support(c) == 0;
    assert Support(b) == 0;
    assert Support(a) == 0;
  }

  // ----- the hundred rounds are not always enough

  /** Three assets held alike at the cap or above, and a small rest. */
  ghost predicate ThreeAndRest(w: Row, a: real, b: real) {
    w == [a, a, a, b]
  }

  const THIRD := 0.3333

  lemma ThreeTotal(w: Row, a: real, b: real)
    requires ThreeAndRest(w, a, b) && a >= THIRD && 0.0 <= b <= THIRD
    ensures Clipped(w, Design(THIRD, false)) == [THIRD, THIRD, THIRD, b]
    ensures Total(w, Design(THIRD, false)) == 0.9999 + b
  {
    var c := [THIRD, THIRD, THIRD, b];
    assert Clipped(w, Design(THIRD, false)) == c;
    var c1 := c[1..];
    var c2 := c1[1..];
    var c3 := c2[1..];
    assert c1 == [THIRD, THIRD, b] && c2 == [THIRD, b] && c3 == [b] && c3[1..] == [];
    assert Gross([]) == 0.0;
    assert Gross(c3) == b;
    assert Gross(c2) == THIRD + b;
    assert Gross(c1) == 2.0 * THIRD + b;
    assert Gross(c) == 3.0 * THIRD + b;
  }

  lemma SlowQuotients(b: real)
    requires 0.0 <= b <= 0.000000002
    ensures Share(THIRD, 0.9999 + b) > THIRD + SLACK
    ensures 0.0 <= Share(b, 0.9999 + b) <= b + 0.00000000001
  {
    var t := 0.9999 + b;
    DivideMonotone(THIRD, THIRD, t);
    DivideMonotone(b, b, t);
    var x, y := THIRD / t, b / t;
    assert x * t == THIRD && y * t == b;
    assert (THIRD + SLACK) * t < THIRD;
    MulNonneg(b, b);
    assert (b + 0.00000000001) * t > b;
    if x <= THIRD + SLACK {
      MulDistributes(THIRD + SLACK, x, t);
      MulNonneg(THIRD + SLACK - x, t);
    }
    if y > b + 0.00000000001 {
      MulDistributes(y, b + 0.00000000001, t);
      MulNonneg(y - (b + 0.00000000001), t);
    }
  }

  lemma SlowStep(w: Row, a: real, b: real) returns (x: real, y: real)
    requires ThreeAndRest(w, a, b) && a >= THIRD && 0.0 <= b <= 0.000000002
    ensures w != [] && ThreeAndRest(Step(w, Design(THIRD, false)), x, y)
    ensures x > THIRD + SLACK && 0.0 <= y <= b + 0.00000000001
  {
    ThreeTotal(w, a, b);
    SlowQuotients(b);
    hide Gross;
    x, y := Share(THIRD, 0.9999 + b), Share(b, 0.9999 + b);
  }

  /** Round by round the rest grows by about one part in ten thousand, and the other three stay above the cap. */
  lemma {:induction false} SlowRounds(w: Row, k: nat) returns (a: real, b: real)
    requires ThreeAndRest(w, THIRD, 0.000000001) && k <= MAX_ROUNDS
    ensures w != [] && ThreeAndRest(Iterate(w, Design(THIRD, false), k), a, b)
    ensures a >= THIRD && 0.0 <= b <= 0.000000001 + 0.00000000001 * k as real
    ensures k > 0 ==> a > THIRD + SLACK
  {
    hide Step;
    if k == 0 {
      a, b := THIRD, 0.000000001;
    } else {
      a, b := SlowRounds(w, k - 1);
      a, b := SlowStep(Iterate(w, Design(THIRD, false), k - 1), a, b);
    }
  }

  lemma SlowNeverSettles(w: Row)
    requires ThreeAndRest(w, THIRD, 0.000000001)
    ensures w != [] && forall k: nat :: !FirstSettled(w, Design(THIRD, false), k)
  {
    hide Step, Iterate, MaxAbs;
    forall k: nat | 1 <= k <= MAX_ROUNDS
      ensures !Settled(w, Design(THIRD, false), k)
    {
      var a, b := SlowRounds(w, k);
      var late := Iterate(w, Design(THIRD, false), k);
      assert Abs(late[0]) == a;
    }
  }

  lemma SlowSupport(w: Row)
    requires ThreeAndRest(w, THIRD, 0.000000001)
    ensures Support(Magnitudes(w, Design(THIRD, false))) == 4 && !Crowded(4, Design(THIRD, false))
  {
    var y := Magnitudes(w, Design(THIRD, false));
    var a := y[1..];
    var b := a[1..];
    var c := b[1..];
    assert y == w && a == [THIRD, THIRD, 0.000000001] && b == [THIRD, 0.000000001] && c == [0.000000001] && c[1..] == [];
    assert Support([]) == 0;
    assert Support(c) == 1;
    assert Support(b) == 2;
    assert Support(a) == 3;
  }

  /** Three of four assets at the cap of 0.3333 and a trace of the fourth: some round would settle, but not in time. */
  method SlowExample() returns (w: Row, r: Result<Row, ProjectionError>)
    ensures ThreeAndRest(w, THIRD, 0.000000001) && r == Ok(Uniform(4))
    ensures exists k: nat :: k >= 1 && Settled(w, Design(THIRD, false), k)
  {
    var d := Design(THIRD, false);
    w := [THIRD, THIRD, THIRD, 0.000000001];
    SlowNeverSettles(w);
    SlowSupport(w);
    SettlesIff(w, d);
    assert Funds(d, 4) && d.Valid();
    FundsIff(d, 4);
    hide Support, Settled, FirstSettled, Feasible, KeepsOrder, Funds, Crowded;
    r := Project(w, d);
  }

  // ----- a case in which they are

  lemma {:induction false} PowAdds(x: real, a: nat, b: nat)
    ensures Pow(x, a + b) == Times(Pow(x, a), Pow(x, b))
  {
    hide Times;
    if a == 0 {
      Commutes(1.0, Pow(x, b));
      TimesOne(Pow(x, b));
    } else {
      PowAdds(x, a - 1, b);
      assert a + b - 1 == a - 1 + b;
      Associates(x, Pow(x, a - 1), Pow(x, b));
    }
  }

  lemma Associates(x: real, y: real, z: real)
    ensures Times(x, Times(y, z)) == Times(Times(x, y), z)
  {
  }

  lemma PowBound(x: real, a: nat, b: nat, p: real, q: real)
    requires x > 0.0 && Pow(x, a) <= p && Pow(x, b) <= q
    ensures Pow(x, a + b) <= Times(p, q)
  {
    hide Pow;
    PowPositive(x, a);
    PowPositive(x, b);
    PowAdds(x, a, b);
    var u, v := Pow(x, a), Pow(x, b);
    MulNonneg(p - u, v);
    MulDistributes(p, u, v);
    MulNonneg(p, q - v);
    assert p * (q - v) == p * q - p * v;
  }

  lemma PowThree(x: real)
    ensures Pow(x, 3) == x * x * x
  {
    assert Pow(x, 0) == 1.0;
    assert Pow(x, 1) == x;
    assert Pow(x, 2) == x * x;
  }

  lemma TwoThirdsPow()
    ensures Times(Pow(2.0 / 3.0, 66), 0.25) <= SLACK
  {
    var x := 2.0 / 3.0;
    PowThree(x);
    hide Pow;
    assert x * x * x <= 0.296297;
    PowBound(x, 3, 3, 0.296297, 0.296297);
    PowBound(x, 6, 6, 0.087792, 0.087792);
    PowBound(x, 12, 12, 0.0077075, 0.0077075);
    PowBound(x, 24, 24, 0.000059406, 0.000059406);
    PowBound(x, 48, 12, 0.0000000035291, 0.0077075);
    PowBound(x, 60, 6, 0.000000000027201, 0.087792);
  }

  lemma ThreeQuartersPow()
    ensures Pow(0.75, 30) <= 0.0002
  {
    PowThree(0.75);
    hide Pow;
    PowBound(0.75, 3, 3, 0.421875, 0.421875);
    PowBound(0.75, 6, 6, 0.177979, 0.177979);
    PowBound(0.75, 12, 12, 0.031677, 0.031677);
    PowBound(0.75, 24, 6, 0.00100344, 0.177979);
  }

  lemma {:induction false} HalfLoading(n: nat, d: Design)
    requires d.maxWeight == 0.5
    ensures Loading(n, d) <= 0.5 && (n >= 2 ==> Loading(n, d) == 0.5)
  {
    if n > 2 {
      HalfLoading(n - 1, d);
    }
  }

  /** Under a cap of one half, two or more positions with a share of at least one in ten thousand each settle in time. */
  lemma HalfCapSettles(w: Row, d: Design) returns (k: nat)
    requires d.Valid() && d.maxWeight == 0.5 && Support(Magnitudes(w, d)) >= 2
    requires var first := Step(Magnitudes(w, d), d);
             forall i :: 0 <= i < |w| && first[i] > 0.0 ==> first[i] >= 0.0001
    ensures w != [] && FirstSettled(w, d, k)
  {
    var n := Support(Magnitudes(w, d));
    HalfTimely(w, d);
    assert !Crowded(n, d);
    hide *;
    k := SettlesInTime(w, d, 0.75, 30, 66);
  }

  lemma HalfTimely(w: Row, d: Design)
    requires d.Valid() && d.maxWeight == 0.5 && Support(Magnitudes(w, d)) >= 2
    requires var first := Step(Magnitudes(w, d), d);
             forall i :: 0 <= i < |w| && first[i] > 0.0 ==> first[i] >= 0.0001
    ensures Timely(Step(Magnitudes(w, d), d), d, 0.75, 30, 66)
  {
    hide Step, Support, Pow, Loading, Book, Magnitudes;
    FirstRoundBooks(w, d);
    HalfLoading(Support(Magnitudes(w, d)), d);
    ThreeQuartersPow();
    TwoThirdsPow();
    assert Ratio(Support(Magnitudes(w, d)), d, 0.75) == 2.0 / 3.0;
  }

  /**
   * The long-only loop, over its rounds: the scale factor is at least one, the capped set only grows, and positions
   * that are not capped keep their ratios.
   */
  lemma LongOnlyLoop(w: Row, d: Design, k: nat, m: nat, i: nat, j: nat)
    requires d.Valid() && 1 <= k <= m && i < |w| && j < |w|
    requires (forall a :: 0 <= a < |w| ==> w[a] >= 0.0) && Support(w) > 0
    ensures 0.0 < Total(Iterate(w, d, k), d) <= 1.0
    ensures Iterate(w, d, k)[i] >= d.maxWeight ==> Iterate(w, d, m)[i] >= d.maxWeight
    ensures Iterate(w, d, m)[i] < d.maxWeight && Iterate(w, d, m)[j] < d.maxWeight ==>
              Times(Iterate(w, d, m)[i], Iterate(w, d, k)[j]) == Times(Iterate(w, d, m)[j], Iterate(w, d, k)[i])
  {
    hide *;
    LongOnlySizes(w, d);
    var book := Step(w, d);
    FirstRoundBooks(w, d);
    IterateShift(w, d, k - 1);
    IterateShift(w, d, m - 1);
    BookIterate(book, d, k - 1);
    BookRound(Iterate(book, d, k - 1), d);
    if Iterate(w, d, k)[i] >= d.maxWeight {
      CappedSetGrows(book, d, k - 1, m - 1, i);
    }
    if Iterate(w, d, m)[i] < d.maxWeight && Iterate(w, d, m)[j] < d.maxWeight {
      RatiosKept(book, d, k - 1, m - 1, i, j);
    }
  }

  lemma LongOnlySizes(w: Row, d: Design)
    requires forall i :: 0 <= i < |w| ==> w[i] >= 0.0
    ensures Magnitudes(w, d) == w
  {
  }

  // ----- projected gradient ascent

  function Moved(w: Row, gradient: Row): (r: Row)
    requires |gradient| == |w|
    ensures |r| == |w|
  {
    seq(|w|, i requires 0 <= i < |w| => w[i] + STEP * gradient[i])
  }

  /** What projecting w gives: the first of the hundred iterates that settles, or the uniform book. */
  ghost predicate Projects(w: Row, d: Design, r: Row) {
    && |r| == |w| > 0
    && (forall k: nat :: FirstSettled(w, d, k) ==> r == Iterate(w, d, k))
    && ((forall k: nat :: !FirstSettled(w, d, k)) ==> forall i :: 0 <= i < |r| ==> r[i] == 1.0 / |r| as real)
  }

  /** One ascent: each position moves by a twentieth of its gradient, and the result is projected. */
  ghost predicate Ascends(w: Row, g: Row, d: Design, r: Row) {
    exists v: Row :: |v| == |w| == |g| && (forall i :: 0 <= i < |w| ==> v[i] == w[i] + 0.05 * g[i]) && Projects(v, d, r)
  }

  lemma MovedAscends(w: Row, g: Row, d: Design, r: Row)
    requires |g| == |w| && Projects(Moved(w, g), d, r)
    ensures Ascends(w, g, d, r)
  {
    hide Projects;
    var v := Moved(w, g);
    assert forall i :: 0 <= i < |w| ==> v[i] == w[i] + 0.05 * g[i];
  }

  lemma ProjectProjects(w: Row, d: Design, r: Row)
    requires |r| == |w| > 0 && (forall k: nat :: FirstSettled(w, d, k) ==> r == Iterate(w, d, k))
    requires (forall k: nat :: !FirstSettled(w, d, k)) ==> r == Uniform(|w|)
    ensures Projects(w, d, r)
  {
    hide FirstSettled, Iterate;
  }

  /**
   * robust_cvar_policy for any gradient of the scenario set: from equal weights two hundred ascents, every iterate a
   * feasible book.
   */
  method RobustCvar(assets: nat, d: Design, gradient: Row -> Row) returns (r: Result<Row, ProjectionError>, ghost trace: seq<Row>)
    requires d.Valid() && assets > 0 && forall w :: |gradient(w)| == |w|
    ensures r.Err? <==> Times(d.maxWeight, assets as real) < 1.0
    ensures r.Ok? ==> |r.value| == assets && Feasible(r.value, d)
    ensures r.Ok? ==>
              && |trace| == 201 && trace[200] == r.value
              && |trace[0]| == assets && (forall i :: 0 <= i < assets ==> trace[0][i] == 1.0 / assets as real)
              && forall k :: 0 <= k < 200 ==> Ascends(trace[k], gradient(trace[k]), d, trace[k + 1])
  {
    hide Feasible, Times, Moved, KeepsOrder, Ascends, Projects, FirstSettled, Iterate;
    var weights := Uniform(assets);
    trace := [weights];
    hide Uniform;
    var round := 0;
    while round < ASCENT_ROUNDS
      invariant 0 <= round <= ASCENT_ROUNDS && |weights| == assets
      invariant |trace| == round + 1 && trace[round] == weights && trace[0] == Uniform(assets)
      invariant forall k :: 0 <= k < round ==> Ascends(trace[k], gradient(trace[k]), d, trace[k + 1])
      invariant round > 0 ==> Feasible(weights, d) && Times(d.maxWeight, assets as real) >= 1.0
    {
      var projected := Project(Moved(weights, gradient(weights)), d);
      if projected.Err? {
        r := projected;
        return;
      }
      ProjectProjects(Moved(weights, gradient(weights)), d, projected.value);
      MovedAscends(weights, gradient(weights), d, projected.value);
      weights := projected.value;
      trace := trace + [weights];
      round := round + 1;
    }
    r := Ok(weights);
  }
}
