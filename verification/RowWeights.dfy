/** _row_weights: target weights for one cross-section of scores. */
module RowWeights {
  import opened Common
  import opened RealRows
  import opened PortfolioLimits

  type Scores = seq<Option<real>>

  type Mask = seq<bool>

  datatype Selection = Quantile | ProbabilityThreshold(longThreshold: real, shortThreshold: real)

  datatype Sizing = EqualWeight | Rank | VolTarget

  datatype Config = Config(
    limits: Limits, topQuantile: real, selection: Selection, sizing: Sizing,
    rebalanceThreshold: real, lag: nat, costBps: real, slippageBps: real, volTargetAnnual: real)
  {
    predicate Valid() {
      && limits.Valid() && 0.0 < topQuantile <= 0.5 && lag >= 2 && costBps >= 0.0 && slippageBps >= 0.0
      && volTargetAnnual > 0.0
      && (selection.ProbabilityThreshold? ==> selection.shortThreshold < selection.longThreshold)
    }
  }

  /** How sort_values(ascending=False) arranges the scored positions; ties may fall in any order. */
  type Arrangement = Scores -> seq<nat>

  ghost predicate NotBelow(s: Scores, i: nat, j: nat) {
    i < |s| && j < |s| && s[i].Some? && s[j].Some? && s[i].value >= s[j].value
  }

  ghost predicate Arranges(order: Arrangement) {
    forall s: Scores ::
      && Distinct(order(s))
      && (forall i :: i in order(s) <==> 0 <= i < |s| && s[i].Some?)
      && (forall i, j :: 0 <= i < j < |order(s)| ==> NotBelow(s, order(s)[i], order(s)[j]))
  }

  // ----- masks

  function Count(m: Mask): nat {
    if m == [] then 0 else (if m[0] then 1 else 0) + Count(m[1..])
  }

  function Scored(s: Scores): (m: Mask)
    ensures |m| == |s| && forall i :: 0 <= i < |s| ==> m[i] == s[i].Some?
  {
    seq(|s|, i requires 0 <= i < |s| => s[i].Some?)
  }

  /** int(round(x)) of Python: ties go to the even neighbour. */
  function RoundHalfEven(x: real): (r: int)
    ensures -0.5 <= r as real - x <= 0.5
    ensures r as real - x == 0.5 || r as real - x == -0.5 ==> r % 2 == 0
  {
    var low := x.Floor;
    var rest := x - low as real;
    if rest < 0.5 then low
    else if rest > 0.5 then low + 1
    else if low % 2 == 0 then low else low + 1
  }

  /** max(1, int(round(n * q))) */
  function PickCount(n: nat, q: real): (k: nat)
    ensures k >= 1
    ensures k == 1 ==> (n as real) * q < 1.5
    ensures k > 1 ==> -0.5 <= k as real - (n as real) * q <= 0.5
    ensures k > 1 && (k as real - (n as real) * q == 0.5 || k as real - (n as real) * q == -0.5) ==> k % 2 == 0
  {
    Max(1, RoundHalfEven((n as real) * q))
  }

  // ----- selections

  predicate Beats(s: Scores, largest: bool, j: nat, i: nat)
    requires i < |s| && j < |s| && s[i].Some? && s[j].Some?
  {
    || (if largest then s[j].value > s[i].value else s[j].value < s[i].value)
    || (s[j].value == s[i].value && j < i)
  }

  /** The eligible positions before limit that come ahead of i. */
  function Ahead(s: Scores, eligible: Mask, largest: bool, i: nat, limit: nat): nat
    requires |eligible| == |s| && i < |s| && limit <= |s| && s[i].Some?
    requires forall j :: 0 <= j < |s| && eligible[j] ==> s[j].Some?
  {
    if limit == 0 then 0
    else (if eligible[limit - 1] && Beats(s, largest, limit - 1, i) then 1 else 0)
         + Ahead(s, eligible, largest, i, limit - 1)
  }

  /** nlargest(k) / nsmallest(k) of the eligible scores, earlier positions first among ties. */
  function Extreme(s: Scores, eligible: Mask, largest: bool, k: nat): (m: Mask)
    requires |eligible| == |s| && forall j :: 0 <= j < |s| && eligible[j] ==> s[j].Some?
    ensures |m| == |s| && forall i :: 0 <= i < |s| && m[i] ==> eligible[i]
  {
    seq(|s|, i requires 0 <= i < |s| => eligible[i] && Ahead(s, eligible, largest, i, |s|) < k)
  }

  function AtLeast(s: Scores, t: real): (m: Mask)
    ensures |m| == |s| && forall i :: 0 <= i < |s| ==> (m[i] <==> s[i].Some? && s[i].value >= t)
  {
    seq(|s|, i requires 0 <= i < |s| => s[i].Some? && s[i].value >= t)
  }

  function AtMost(s: Scores, t: real): (m: Mask)
    ensures |m| == |s| && forall i :: 0 <= i < |s| ==> (m[i] <==> s[i].Some? && s[i].value <= t)
  {
    seq(|s|, i requires 0 <= i < |s| => s[i].Some? && s[i].value <= t)
  }

  function Members(n: nat, picks: seq<nat>): (m: Mask)
    ensures |m| == n && forall i :: 0 <= i < n ==> (m[i] <==> i in picks)
  {
    seq(n, i requires 0 <= i < n => i in picks)
  }

  function Without(a: Mask, b: Mask): (m: Mask)
    requires |a| == |b|
    ensures |m| == |a| && forall i :: 0 <= i < |a| ==> (m[i] <==> a[i] && !b[i])
  {
    seq(|a|, i requires 0 <= i < |a| => a[i] && !b[i])
  }

  // ----- rows

  function Zeros(n: nat): (r: Row)
    ensures |r| == n && forall i :: 0 <= i < n ==> r[i] == 0.0
  {
    seq(n, i => 0.0)
  }

  /** Each masked position gets value, every other keeps what it has. */
  function Assigned(w: Row, m: Mask, value: real): (r: Row)
    requires |m| == |w|
    ensures |r| == |w| && forall i :: 0 <= i < |w| ==> r[i] == if m[i] then value else w[i]
  {
    seq(|w|, i requires 0 <= i < |w| => if m[i] then value else w[i])
  }

  function TwoSided(longs: Mask, shorts: Mask, each: real): (r: Row)
    requires |longs| == |shorts| && Count(longs) > 0 && Count(shorts) > 0
    ensures |r| == |longs|
  {
    Assigned(Assigned(Zeros(|longs|), longs, each / Count(longs) as real), shorts, -(each / Count(shorts) as real))
  }

  function LongSide(longs: Mask, each: real): (r: Row)
    requires Count(longs) > 0
    ensures |r| == |longs|
  {
    Assigned(Zeros(|longs|), longs, each / Count(longs) as real)
  }

  /** Percentile rank with average ties. */
  function RankOf(s: Scores, i: nat): real
    requires i < |s| && s[i].Some? && Count(Scored(s)) > 0
  {
    var below := Count(Without(AtMost(s, s[i].value), AtLeast(s, s[i].value)));
    var tied := Count(AtMost(s, s[i].value)) - below;
    (below as real + (tied as real + 1.0) / 2.0) / Count(Scored(s)) as real
  }

  function RankRow(s: Scores): (r: Row)
    requires Count(Scored(s)) > 0
    ensures |r| == |s| && forall i :: 0 <= i < |s| && s[i].None? ==> r[i] == 0.0
  {
    seq(|s|, i requires 0 <= i < |s| => if s[i].Some? then RankOf(s, i) else 0.0)
  }

  /** Subtract c from every scored entry. */
  function Shifted(r: Row, m: Mask, c: real): (t: Row)
    requires |m| == |r|
    ensures |t| == |r| && forall i :: 0 <= i < |r| ==> t[i] == if m[i] then r[i] - c else 0.0
  {
    seq(|r|, i requires 0 <= i < |r| => if m[i] then r[i] - c else 0.0)
  }

  function PosRow(r: Row): (t: Row)
    ensures |t| == |r| && forall i :: 0 <= i < |r| ==> t[i] == Pos(r[i])
  {
    seq(|r|, i requires 0 <= i < |r| => Pos(r[i]))
  }

  function ThresholdWeights(s: Scores, cfg: Config, k: nat): (w: Row)
    requires cfg.selection.ProbabilityThreshold?
    ensures |w| == |s|
  {
    var longs := Extreme(s, AtLeast(s, cfg.selection.longThreshold), true, k);
    var lev := cfg.limits.maxLeverage;
    if cfg.limits.strategy.LongOnly? then
      if Count(longs) > 0 then LongSide(longs, lev) else Zeros(|s|)
    else
      var shorts := Extreme(s, AtMost(s, cfg.selection.shortThreshold), false, k);
      if Count(longs) == 0 || Count(shorts) == 0 then Zeros(|s|) else TwoSided(longs, shorts, lev / 2.0)
  }

  function RankWeights(s: Scores, cfg: Config): (w: Row)
    requires Count(Scored(s)) > 0
    ensures |w| == |s|
  {
    var ranks := RankRow(s);
    var lev := cfg.limits.maxLeverage;
    if cfg.limits.strategy.LongOnly? then
      var raw := PosRow(Shifted(ranks, Scored(s), 1.0 - cfg.topQuantile));
      if Sum(raw) > 0.0 then ScaleSides(raw, lev / Sum(raw), lev / Sum(raw)) else Zeros(|s|)
    else
      var raw := Shifted(ranks, Scored(s), Sum(ranks) / Count(Scored(s)) as real);
      if Gross(raw) > 0.0 then ScaleSides(raw, lev / Gross(raw), lev / Gross(raw)) else Zeros(|s|)
  }

  function EqualWeights(s: Scores, cfg: Config, k: nat, order: Arrangement): (w: Row)
    ensures |w| == |s|
  {
    var ordered := order(s);
    var cut := Min(k, |ordered|);
    var longs := Members(|s|, ordered[..cut]);
    var lev := cfg.limits.maxLeverage;
    if cfg.limits.strategy.LongOnly? then
      if Count(longs) > 0 then LongSide(longs, lev) else Zeros(|s|)
    else
      var shorts := Without(Members(|s|, ordered[|ordered| - cut..]), longs);
      if Count(shorts) == 0 || Count(longs) == 0 then Zeros(|s|) else TwoSided(longs, shorts, lev / 2.0)
  }

  function TargetWeights(s: Scores, cfg: Config, order: Arrangement): (w: Row)
    ensures |w| == |s|
  {
    var n := Count(Scored(s));
    if n == 0 then Zeros(|s|)
    else
      var k := PickCount(n, cfg.topQuantile);
      if cfg.selection.ProbabilityThreshold? then ThresholdWeights(s, cfg, k)
      else if cfg.sizing.Rank? then RankWeights(s, cfg)
      else EqualWeights(s, cfg, k, order)
  }

  // ----- the budget

  lemma AssignedTail(w: Row, m: Mask, value: real)
    requires |m| == |w| > 0
    ensures Assigned(w, m, value)[1..] == Assigned(w[1..], m[1..], value)
    ensures Assigned(w, m, value)[0] == if m[0] then value else w[0]
  {
  }

  lemma OneMore(n: nat, value: real)
    ensures (n + 1) as real * value == n as real * value + value
  {
    assert (n + 1) as real == n as real + 1.0;
    MulDistributes(n as real, 1.0, value);
  }

  lemma {:induction false} AssignedLong(w: Row, m: Mask, value: real)
    requires |m| == |w| && value >= 0.0 && forall i :: 0 <= i < |w| && m[i] ==> w[i] == 0.0
    ensures Long(Assigned(w, m, value)) == Long(w) + Count(m) as real * value
    ensures Short(Assigned(w, m, value)) == Short(w)
  {
    hide Assigned;
    if w != [] {
      AssignedLong(w[1..], m[1..], value);
      AssignedTail(w, m, value);
      OneMore(Count(m[1..]), value);
    }
  }

  lemma {:induction false} AssignedShort(w: Row, m: Mask, value: real)
    requires |m| == |w| && value <= 0.0 && forall i :: 0 <= i < |w| && m[i] ==> w[i] == 0.0
    ensures Short(Assigned(w, m, value)) == Short(w) - Count(m) as real * value
    ensures Long(Assigned(w, m, value)) == Long(w)
  {
    hide Assigned;
    if w != [] {
      AssignedShort(w[1..], m[1..], value);
      AssignedTail(w, m, value);
      OneMore(Count(m[1..]), value);
    }
  }

  lemma {:induction false} ZeroSides(n: nat)
    ensures Long(Zeros(n)) == 0.0 && Short(Zeros(n)) == 0.0
  {
    if n > 0 {
      ZeroSides(n - 1);
      assert Zeros(n)[1..] == Zeros(n - 1);
    }
  }

  lemma EachShare(total: real, n: nat)
    requires n > 0 && total >= 0.0
    ensures n as real * (total / n as real) == total && total / n as real >= 0.0
  {
    Quotient(total, n as real);
  }

  lemma LongSideBudget(longs: Mask, each: real)
    requires Count(longs) > 0 && each >= 0.0
    ensures Long(LongSide(longs, each)) == each && Short(LongSide(longs, each)) == 0.0
  {
    EachShare(each, Count(longs));
    ZeroSides(|longs|);
    AssignedLong(Zeros(|longs|), longs, each / Count(longs) as real);
  }

  lemma TwoSidedBudget(longs: Mask, shorts: Mask, each: real)
    requires |longs| == |shorts| && Count(longs) > 0 && Count(shorts) > 0 && each >= 0.0
    requires forall i :: 0 <= i < |longs| ==> !(longs[i] && shorts[i])
    ensures Long(TwoSided(longs, shorts, each)) == each && Short(TwoSided(longs, shorts, each)) == each
  {
    hide Long, Short, Count;
    LongSideBudget(longs, each);
    EachShare(each, Count(shorts));
    var value := -(each / Count(shorts) as real);
    AssignedShort(LongSide(longs, each), shorts, value);
    MulDistributes(each / Count(shorts) as real, 0.0, Count(shorts) as real);
    assert Count(shorts) as real * value == -(Count(shorts) as real * (each / Count(shorts) as real));
  }

  lemma {:induction false} ShiftedSum(r: Row, m: Mask, c: real)
    requires |m| == |r| && forall i :: 0 <= i < |r| && !m[i] ==> r[i] == 0.0
    ensures Sum(Shifted(r, m, c)) == Sum(r) - Count(m) as real * c
  {
    if r != [] {
      ShiftedSum(r[1..], m[1..], c);
      assert Shifted(r, m, c)[1..] == Shifted(r[1..], m[1..], c);
      MulDistributes(1.0, Count(m[1..]) as real, c);
    }
  }

  lemma {:induction false} NonnegativeSides(r: Row)
    requires forall i :: 0 <= i < |r| ==> r[i] >= 0.0
    ensures Long(r) == Sum(r) && Short(r) == 0.0
  {
    if r != [] {
      NonnegativeSides(r[1..]);
    }
  }

  lemma ScaledTo(raw: Row, total: real, lev: real)
    requires total > 0.0 && lev > 0.0
    ensures Long(ScaleSides(raw, lev / total, lev / total)) == Long(raw) * (lev / total)
    ensures Short(ScaleSides(raw, lev / total, lev / total)) == Short(raw) * (lev / total)
    ensures total * (lev / total) == lev
  {
    Quotient(lev, total);
    ScaledSides(raw, lev / total, lev / total);
  }

  lemma RankBudget(s: Scores, cfg: Config)
    requires cfg.Valid() && Count(Scored(s)) > 0
    ensures var w := RankWeights(s, cfg);
            if cfg.limits.strategy.LongOnly? then Short(w) == 0.0 && (Long(w) == 0.0 || Long(w) == cfg.limits.maxLeverage)
            else Long(w) == Short(w) && (Long(w) == 0.0 || Long(w) == cfg.limits.maxLeverage / 2.0)
  {
    hide Long, Short, Gross, Sum, Count, RankRow, ScaleSides;
    var ranks := RankRow(s);
    var lev := cfg.limits.maxLeverage;
    var n := Count(Scored(s)) as real;
    ZeroSides(|s|);
    if cfg.limits.strategy.LongOnly? {
      var raw := PosRow(Shifted(ranks, Scored(s), 1.0 - cfg.topQuantile));
      NonnegativeSides(raw);
      if Sum(raw) > 0.0 {
        ScaledTo(raw, Sum(raw), lev);
      }
    } else {
      var mean := Sum(ranks) / n;
      var raw := Shifted(ranks, Scored(s), mean);
      ShiftedSum(ranks, Scored(s), mean);
      assert n * mean == Sum(ranks);
      Sides(raw);
      if Gross(raw) > 0.0 {
        ScaledTo(raw, Gross(raw), lev);
        MulDistributes(Long(raw), Short(raw), lev / Gross(raw));
      }
    }
  }

  /**
   * Whatever the scores, a long-only row spends nothing or exactly the leverage, and a long-short row
   * is dollar-neutral with nothing or exactly the leverage at risk.
   */
  lemma TargetBudget(s: Scores, cfg: Config, order: Arrangement)
    requires cfg.Valid()
    ensures var w := TargetWeights(s, cfg, order);
            if cfg.limits.strategy.LongOnly? then Short(w) == 0.0 && (Long(w) == 0.0 || Long(w) == cfg.limits.maxLeverage)
            else Long(w) == Short(w) && (Long(w) == 0.0 || Long(w) == cfg.limits.maxLeverage / 2.0)
  {
    hide Long, Short, Count, RankWeights, Extreme, Scored, LongSide, TwoSided;
    var n := Count(Scored(s));
    var lev := cfg.limits.maxLeverage;
    ZeroSides(|s|);
    if n > 0 {
      var k := PickCount(n, cfg.topQuantile);
      if cfg.selection.ProbabilityThreshold? {
        var longs := Extreme(s, AtLeast(s, cfg.selection.longThreshold), true, k);
        var shorts := Extreme(s, AtMost(s, cfg.selection.shortThreshold), false, k);
        if Count(longs) > 0 {
          LongSideBudget(longs, lev);
          if Count(shorts) > 0 {
            TwoSidedBudget(longs, shorts, lev / 2.0);
          }
        }
      } else if cfg.sizing.Rank? {
        RankBudget(s, cfg);
      } else {
        var ordered := order(s);
        var cut := Min(k, |ordered|);
        var longs := Members(|s|, ordered[..cut]);
        var shorts := Without(Members(|s|, ordered[|ordered| - cut..]), longs);
        if Count(longs) > 0 {
          LongSideBudget(longs, lev);
          if Count(shorts) > 0 {
            TwoSidedBudget(longs, shorts, lev / 2.0);
          }
        }
      }
    }
  }

  function LongPicks(s: Scores, k: nat, order: Arrangement): (m: Mask)
    ensures |m| == |s|
  {
    Members(|s|, order(s)[..Min(k, |order(s)|)])
  }

  function ShortPicks(s: Scores, k: nat, order: Arrangement): (m: Mask)
    ensures |m| == |s|
  {
    Without(Members(|s|, order(s)[|order(s)| - Min(k, |order(s)|)..]), LongPicks(s, k, order))
  }

  lemma PairSigns(s: Scores, cfg: Config, k: nat, order: Arrangement, i: nat, j: nat)
    requires cfg.Valid() && i < |s| && j < |s|
    ensures var w := EqualWeights(s, cfg, k, order);
            && (w[i] > 0.0 && w[j] <= 0.0 ==> LongPicks(s, k, order)[i] && !LongPicks(s, k, order)[j])
            && (w[i] >= 0.0 && w[j] < 0.0 ==> ShortPicks(s, k, order)[j] && !ShortPicks(s, k, order)[i])
  {
    hide Count;
    var longs, shorts := LongPicks(s, k, order), ShortPicks(s, k, order);
    var lev := cfg.limits.maxLeverage;
    if Count(longs) > 0 {
      Quotient(lev, Count(longs) as real);
      Quotient(lev / 2.0, Count(longs) as real);
    }
    if Count(shorts) > 0 {
      Quotient(lev / 2.0, Count(shorts) as real);
    }
  }

  /** The equal-weight longs are a top set and the shorts a bottom set of the scored names. */
  lemma PicksAreExtreme(s: Scores, cfg: Config, k: nat, order: Arrangement, i: nat, j: nat)
    requires cfg.Valid() && Arranges(order) && i < |s| && j < |s| && s[i].Some? && s[j].Some?
    ensures var w := EqualWeights(s, cfg, k, order);
            (w[i] > 0.0 && w[j] <= 0.0) || (w[i] >= 0.0 && w[j] < 0.0) ==> s[i].value >= s[j].value
  {
    hide Count, EqualWeights;
    PairSigns(s, cfg, k, order, i, j);
    var w := EqualWeights(s, cfg, k, order);
    var ordered := order(s);
    var cut := Min(k, |ordered|);
    assert i in ordered && j in ordered;
    var a :| 0 <= a < |ordered| && ordered[a] == i;
    var b :| 0 <= b < |ordered| && ordered[b] == j;
    if (w[i] > 0.0 && w[j] <= 0.0) || (w[i] >= 0.0 && w[j] < 0.0) {
      Position(ordered, cut, a);
      Position(ordered, cut, b);
      assert a < b;
      assert NotBelow(s, ordered[a], ordered[b]);
    }
  }

  lemma Position(ordered: seq<nat>, cut: nat, a: nat)
    requires Distinct(ordered) && cut <= |ordered| && a < |ordered|
    ensures ordered[a] in ordered[..cut] <==> a < cut
    ensures ordered[a] in ordered[|ordered| - cut..] <==> |ordered| - cut <= a
  {
    if a < cut {
      assert ordered[..cut][a] == ordered[a];
    }
    if |ordered| - cut <= a {
      assert ordered[|ordered| - cut..][a - (|ordered| - cut)] == ordered[a];
    }
  }

  // ----- which weight each position gets

  lemma CountSnoc(m: Mask, n: nat)
    requires |m| == n + 1
    ensures Count(m) == Count(m[..n]) + if m[n] then 1 else 0
  {
    if n > 0 {
      CountSnoc(m[1..], n - 1);
      assert m[1..][..n - 1] == m[..n][1..];
    }
  }

  lemma {:induction false} CountIsSize(m: Mask)
    ensures Count(m) == |set i | 0 <= i < |m| && m[i]|
  {
    var all := set i | 0 <= i < |m| && m[i];
    if m == [] {
      assert all == {};
    } else {
      var n := |m| - 1;
      var rest := set i | 0 <= i < |m[..n]| && m[..n][i];
      CountIsSize(m[..n]);
      CountSnoc(m, n);
      assert all == if m[n] then rest + {n} else rest;
    }
  }

  /** The positions on the right side of a threshold. */
  ghost predicate OnSide(s: Scores, threshold: real, largest: bool, i: nat) {
    i < |s| && s[i].Some? && if largest then s[i].value >= threshold else s[i].value <= threshold
  }

  /** The positions on that side that are taken before i: a more extreme score, or an equal one further left. */
  ghost function Before(s: Scores, threshold: real, largest: bool, i: nat): set<nat>
    requires OnSide(s, threshold, largest, i)
  {
    set j: nat | j < |s| && OnSide(s, threshold, largest, j)
                 && ((s[j].value == s[i].value && j < i) || (if largest then s[j].value > s[i].value else s[j].value < s[i].value))
  }

  /** nlargest(k) / nsmallest(k) of the scores on that side. */
  ghost predicate Picked(s: Scores, threshold: real, largest: bool, k: nat, i: nat) {
    OnSide(s, threshold, largest, i) && |Before(s, threshold, largest, i)| < k
  }

  function Side(s: Scores, threshold: real, largest: bool): (m: Mask)
    ensures |m| == |s|
    ensures forall i :: 0 <= i < |s| ==> (m[i] <==> OnSide(s, threshold, largest, i))
  {
    if largest then AtLeast(s, threshold) else AtMost(s, threshold)
  }

  ghost function BeforeUpTo(s: Scores, threshold: real, largest: bool, i: nat, limit: nat): set<nat>
    requires OnSide(s, threshold, largest, i)
  {
    set j | j in Before(s, threshold, largest, i) && j < limit
  }

  lemma BeforeOneMore(s: Scores, threshold: real, largest: bool, i: nat, j: nat)
    requires OnSide(s, threshold, largest, i) && j < |s|
    ensures var more := Side(s, threshold, largest)[j] && Beats(s, largest, j, i);
            |BeforeUpTo(s, threshold, largest, i, j + 1)| == |BeforeUpTo(s, threshold, largest, i, j)| + if more then 1 else 0
  {
    var rest := BeforeUpTo(s, threshold, largest, i, j);
    assert BeforeUpTo(s, threshold, largest, i, j + 1) == if j in Before(s, threshold, largest, i) then rest + {j} else rest;
  }

  lemma {:induction false} AheadIsSize(s: Scores, threshold: real, largest: bool, i: nat, limit: nat)
    requires OnSide(s, threshold, largest, i) && limit <= |s|
    ensures Ahead(s, Side(s, threshold, largest), largest, i, limit) == |BeforeUpTo(s, threshold, largest, i, limit)|
  {
    hide Side, Beats, Before;
    if limit == 0 {
      assert BeforeUpTo(s, threshold, largest, i, 0) == {};
    } else {
      AheadIsSize(s, threshold, largest, i, limit - 1);
      BeforeOneMore(s, threshold, largest, i, limit - 1);
    }
  }

  lemma ExtremeIsPicked(s: Scores, threshold: real, largest: bool, k: nat, i: nat)
    requires i < |s|
    ensures Extreme(s, Side(s, threshold, largest), largest, k)[i] <==> Picked(s, threshold, largest, k, i)
  {
    if OnSide(s, threshold, largest, i) {
      AheadIsSize(s, threshold, largest, i, |s|);
      assert BeforeUpTo(s, threshold, largest, i, |s|) == Before(s, threshold, largest, i);
    }
  }

  ghost function PickedSet(s: Scores, threshold: real, largest: bool, k: nat): set<nat> {
    set i: nat | i < |s| && Picked(s, threshold, largest, k, i)
  }

  lemma PickedCount(s: Scores, threshold: real, largest: bool, k: nat)
    ensures Count(Extreme(s, Side(s, threshold, largest), largest, k)) == |PickedSet(s, threshold, largest, k)|
  {
    hide Picked, Extreme, Side, Count;
    var m := Extreme(s, Side(s, threshold, largest), largest, k);
    CountIsSize(m);
    forall i | 0 <= i < |s|
      ensures m[i] <==> Picked(s, threshold, largest, k, i)
    {
      ExtremeIsPicked(s, threshold, largest, k, i);
    }
    assert (set i | 0 <= i < |m| && m[i]) == PickedSet(s, threshold, largest, k);
  }

  /** How many names are scored, and how many of them a side takes. */
  ghost function ScoredSet(s: Scores): set<nat> {
    set i: nat | i < |s| && s[i].Some?
  }

  lemma ScoredCount(s: Scores)
    ensures Count(Scored(s)) == |ScoredSet(s)|
  {
    CountIsSize(Scored(s));
    assert (set i | 0 <= i < |Scored(s)| && Scored(s)[i]) == ScoredSet(s);
  }

  /**
   * The share of one position: long-only rows split the leverage among their longs; long-short rows split half of it
   * among the longs and half, negatively, among the shorts, and are flat when a side is empty.
   */
  function SideWeight(strategy: Strategy, long: bool, short: bool, longs: nat, shorts: nat, lev: real): real
    requires long ==> longs > 0
  {
    if strategy.LongOnly? then (if long then lev / longs as real else 0.0)
    else if longs == 0 || shorts == 0 then 0.0
    else if short then -((lev / 2.0) / shorts as real)
    else if long then (lev / 2.0) / longs as real
    else 0.0
  }

  lemma FlatAt(strategy: Strategy, long: bool, short: bool, longs: nat, shorts: nat, lev: real)
    requires long ==> longs > 0
    ensures strategy.LongOnly? && longs == 0 ==> SideWeight(strategy, long, short, longs, shorts, lev) == 0.0
    ensures strategy.LongShort? && (longs == 0 || shorts == 0) ==> SideWeight(strategy, long, short, longs, shorts, lev) == 0.0
  {
  }

  lemma RowsAt(longs: Mask, shorts: Mask, lev: real, i: nat)
    requires |longs| == |shorts| && i < |longs|
    ensures Count(longs) > 0 && Count(shorts) > 0 ==>
              TwoSided(longs, shorts, lev / 2.0)[i] == SideWeight(LongShort, longs[i], shorts[i], Count(longs), Count(shorts), lev)
    ensures Count(longs) > 0 ==> LongSide(longs, lev)[i] == SideWeight(LongOnly, longs[i], shorts[i], Count(longs), Count(shorts), lev)
  {
    hide Count;
  }

  /** The threshold row at one position, by the masks of its two sides. */
  lemma ThresholdByMasks(s: Scores, cfg: Config, k: nat, i: nat)
    requires cfg.selection.ProbabilityThreshold? && i < |s|
    ensures var longs := Extreme(s, AtLeast(s, cfg.selection.longThreshold), true, k);
            var shorts := Extreme(s, AtMost(s, cfg.selection.shortThreshold), false, k);
            && (longs[i] ==> Count(longs) > 0)
            && ThresholdWeights(s, cfg, k)[i]
            == SideWeight(cfg.limits.strategy, longs[i], shorts[i], Count(longs), Count(shorts), cfg.limits.maxLeverage)
  {
    hide Extreme, AtLeast, AtMost, LongSide, TwoSided, Count, SideWeight;
    var longs := Extreme(s, AtLeast(s, cfg.selection.longThreshold), true, k);
    SomeCounted(longs, i);
    var shorts := Extreme(s, AtMost(s, cfg.selection.shortThreshold), false, k);
    RowsAt(longs, shorts, cfg.limits.maxLeverage, i);
    FlatAt(cfg.limits.strategy, longs[i], shorts[i], Count(longs), Count(shorts), cfg.limits.maxLeverage);
  }

  lemma ThresholdMode(s: Scores, cfg: Config, order: Arrangement)
    requires cfg.selection.ProbabilityThreshold? && ScoredSet(s) != {}
    ensures TargetWeights(s, cfg, order) == ThresholdWeights(s, cfg, PickCount(|ScoredSet(s)|, cfg.topQuantile))
  {
    hide ScoredSet, ThresholdWeights, PickCount, Scored, Count;
    ScoredCount(s);
  }

  lemma EqualMode(s: Scores, cfg: Config, order: Arrangement)
    requires cfg.selection.Quantile? && !cfg.sizing.Rank? && ScoredSet(s) != {}
    ensures TargetWeights(s, cfg, order) == EqualWeights(s, cfg, PickCount(|ScoredSet(s)|, cfg.topQuantile), order)
  {
    hide ScoredSet, EqualWeights, PickCount, Scored, Count;
    ScoredCount(s);
  }

  lemma PickedMask(s: Scores, threshold: real, largest: bool, k: nat, i: nat)
    requires i < |s|
    ensures var m := Extreme(s, if largest then AtLeast(s, threshold) else AtMost(s, threshold), largest, k);
            var picked := PickedSet(s, threshold, largest, k);
            (m[i] <==> i in picked) && Count(m) == |picked|
  {
    PickedCount(s, threshold, largest, k);
    ExtremeIsPicked(s, threshold, largest, k, i);
    hide Extreme, Count, Picked, AtLeast, AtMost;
  }

  /**
   * Probability thresholds: the k most extreme scores beyond each threshold, the leftmost first among equals, share
   * the leverage equally; long-short spends half a side, and nothing at all when a side is empty.
   */
  lemma ThresholdTarget(s: Scores, cfg: Config, order: Arrangement, i: nat)
    requires cfg.selection.ProbabilityThreshold? && ScoredSet(s) != {} && i < |s|
    ensures var k := PickCount(|ScoredSet(s)|, cfg.topQuantile);
            var longs := PickedSet(s, cfg.selection.longThreshold, true, k);
            var shorts := PickedSet(s, cfg.selection.shortThreshold, false, k);
            && (i in longs ==> |longs| > 0)
            && TargetWeights(s, cfg, order)[i]
            == SideWeight(cfg.limits.strategy, i in longs, i in shorts, |longs|, |shorts|, cfg.limits.maxLeverage)
  {
    hide *;
    var k := PickCount(|ScoredSet(s)|, cfg.topQuantile);
    ThresholdMode(s, cfg, order);
    ThresholdByMasks(s, cfg, k, i);
    PickedMask(s, cfg.selection.longThreshold, true, k, i);
    PickedMask(s, cfg.selection.shortThreshold, false, k, i);
  }

  lemma {:induction false} MembersCount(n: nat, picks: seq<nat>)
    requires Distinct(picks) && forall p :: p in picks ==> p < n
    ensures Count(Members(n, picks)) == |picks|
  {
    CountIsSize(Members(n, picks));
    hide Members, Count;
    SeqSetSize(picks);
    assert (set i | 0 <= i < |Members(n, picks)| && Members(n, picks)[i]) == SetOf(picks);
  }

  function SetOf(picks: seq<nat>): set<nat> {
    set p | p in picks
  }

  lemma {:induction false} SeqSetSize(picks: seq<nat>)
    requires Distinct(picks)
    ensures |SetOf(picks)| == |picks|
  {
    if picks == [] {
      assert SetOf(picks) == {};
    } else {
      var n := |picks| - 1;
      var last, rest := picks[n], picks[..n];
      SeqSetSize(rest);
      assert picks == rest + [last];
      assert forall i :: 0 <= i < n ==> rest[i] == picks[i] != picks[n];
      assert SetOf(picks) == SetOf(rest) + {last};
    }
  }

  lemma ArrangedCount(s: Scores, order: Arrangement)
    requires Arranges(order)
    ensures |order(s)| == |ScoredSet(s)| && Distinct(order(s))
    ensures forall p :: p in order(s) <==> 0 <= p < |s| && s[p].Some?
  {
    SeqSetSize(order(s));
    assert SetOf(order(s)) == ScoredSet(s);
  }

  /** The places of a position among the picks, from the front and from the back. */
  lemma PlaceOf(s: Scores, order: Arrangement, cut: nat, a: nat)
    requires Arranges(order) && cut <= |order(s)| && a < |order(s)|
    ensures var i := order(s)[a];
            && i < |s| && (Members(|s|, order(s)[..cut])[i] <==> a < cut)
            && (Members(|s|, order(s)[|order(s)| - cut..])[i] <==> |order(s)| - cut <= a)
  {
    ArrangedCount(s, order);
    assert order(s)[a] in order(s);
    Position(order(s), cut, a);
  }

  lemma SliceCount(o: seq<nat>, n: nat, from: nat, upTo: nat)
    requires Distinct(o) && from <= upTo <= |o| && forall p :: p in o ==> p < n
    ensures Count(Members(n, o[from..upTo])) == upTo - from
  {
    hide Members, Count;
    var part := o[from..upTo];
    assert forall i :: 0 <= i < |part| ==> part[i] == o[from + i] && o[from + i] in o;
    MembersCount(n, part);
  }

  /** What is among the last cut places and not among the first cut is what lies behind both bounds. */
  lemma LastNotFirst(o: seq<nat>, n: nat, cut: nat)
    requires Distinct(o) && cut <= |o| && forall p :: p in o ==> p < n
    ensures Without(Members(n, o[|o| - cut..]), Members(n, o[..cut])) == Members(n, o[Max(cut, |o| - cut)..])
  {
    var from := Max(cut, |o| - cut);
    forall i | 0 <= i < n
      ensures i in o[|o| - cut..] && i !in o[..cut] <==> i in o[from..]
    {
      if i in o {
        var a :| 0 <= a < |o| && o[a] == i;
        Position(o, cut, a);
        Position(o, |o| - from, a);
      }
    }
    hide Distinct;
  }

  /** How many of the last cut places are not among the first cut. */
  lemma ShortCount(s: Scores, order: Arrangement, cut: nat)
    requires Arranges(order) && cut <= |order(s)|
    ensures Count(Members(|s|, order(s)[..cut])) == cut
    ensures Count(Without(Members(|s|, order(s)[|order(s)| - cut..]), Members(|s|, order(s)[..cut])))
         == Min(cut, |order(s)| - cut)
  {
    ArrangedCount(s, order);
    hide Arranges, Count, Members, Without, Distinct, ScoredSet;
    var o := order(s);
    var from := Max(cut, |o| - cut);
    SliceCount(o, |s|, 0, cut);
    SliceCount(o, |s|, from, |o|);
    assert o[from..] == o[from..|o|] && o[..cut] == o[0..cut];
    LastNotFirst(o, |s|, cut);
  }

  /** The equal-weight row at one position, by the masks of its two sides. */
  lemma EqualByMasks(s: Scores, cfg: Config, k: nat, order: Arrangement, i: nat)
    requires i < |s|
    ensures LongPicks(s, k, order)[i] ==> Count(LongPicks(s, k, order)) > 0
    ensures var longs, shorts := LongPicks(s, k, order), ShortPicks(s, k, order);
            EqualWeights(s, cfg, k, order)[i]
            == SideWeight(cfg.limits.strategy, longs[i], shorts[i], Count(longs), Count(shorts), cfg.limits.maxLeverage)
  {
    hide Members, Without, LongSide, TwoSided, Count, SideWeight;
    var longs, shorts := LongPicks(s, k, order), ShortPicks(s, k, order);
    SomeCounted(longs, i);
    RowsAt(longs, shorts, cfg.limits.maxLeverage, i);
    FlatAt(cfg.limits.strategy, longs[i], shorts[i], Count(longs), Count(shorts), cfg.limits.maxLeverage);
  }

  lemma {:induction false} SomeCounted(m: Mask, i: nat)
    requires i < |m|
    ensures m[i] ==> Count(m) > 0
  {
    if i > 0 {
      SomeCounted(m[1..], i - 1);
    }
  }

  lemma PickSizes(s: Scores, order: Arrangement, k: nat)
    requires Arranges(order)
    ensures |order(s)| == |ScoredSet(s)|
    ensures Count(LongPicks(s, k, order)) == Min(k, |order(s)|)
    ensures Count(ShortPicks(s, k, order)) == Min(Min(k, |order(s)|), |order(s)| - Min(k, |order(s)|))
  {
    ArrangedCount(s, order);
    hide Arranges, Count, Members, Without, ScoredSet;
    ShortCount(s, order, Min(k, |order(s)|));
  }

  lemma PickPlaces(s: Scores, order: Arrangement, k: nat, a: nat)
    requires Arranges(order) && a < |order(s)|
    ensures var n, i := |order(s)|, order(s)[a];
            && i < |s| && (LongPicks(s, k, order)[i] <==> a < k)
            && (ShortPicks(s, k, order)[i] <==> k <= a && n - Min(k, n) <= a)
  {
    PlaceOf(s, order, Min(k, |order(s)|), a);
    hide Arranges, Members;
  }

  /**
   * Equal weights by place in the descending order: the first k names share the long side equally, the last k that
   * are not among them the short side; without any such name a long-short row stays flat.
   */
  lemma EqualTarget(s: Scores, cfg: Config, order: Arrangement, a: nat)
    requires Arranges(order) && cfg.selection.Quantile? && !cfg.sizing.Rank? && a < |order(s)|
    ensures |order(s)| == |ScoredSet(s)| && order(s)[a] < |s|
    ensures var n := |order(s)|;
            var k := Min(PickCount(n, cfg.topQuantile), n);
            TargetWeights(s, cfg, order)[order(s)[a]]
            == SideWeight(cfg.limits.strategy, a < k, k <= a && n - k <= a, k, Min(k, n - k), cfg.limits.maxLeverage)
  {
    hide *;
    ArrangedSome(s, order, a);
    var k := PickCount(|ScoredSet(s)|, cfg.topQuantile);
    PickSizes(s, order, k);
    PickPlaces(s, order, k, a);
    EqualMode(s, cfg, order);
    EqualByMasks(s, cfg, k, order, order(s)[a]);
    MinIs(k, |order(s)|);
  }

  lemma MinIs(k: nat, n: nat)
    ensures Min(k, n) == if k <= n then k else n
    ensures Min(Min(k, n), n - Min(k, n)) == if Min(k, n) <= n - Min(k, n) then Min(k, n) else n - Min(k, n)
  {
  }

  lemma ArrangedSome(s: Scores, order: Arrangement, a: nat)
    requires Arranges(order) && a < |order(s)|
    ensures order(s)[a] < |s| && ScoredSet(s) != {}
  {
    ArrangedCount(s, order);
    assert order(s)[a] in order(s) && order(s)[a] in ScoredSet(s);
  }

  /** A name without a score has no weight under equal weights. */
  lemma EqualUnscored(s: Scores, cfg: Config, order: Arrangement, i: nat)
    requires Arranges(order) && cfg.selection.Quantile? && !cfg.sizing.Rank? && i < |s| && s[i].None?
    ensures TargetWeights(s, cfg, order)[i] == 0.0
  {
    ArrangedCount(s, order);
    hide Arranges, Count, PickCount, ThresholdWeights, RankWeights;
    var ordered := order(s);
    var cut := Min(PickCount(Count(Scored(s)), cfg.topQuantile), |ordered|);
    assert i !in ordered;
    assert i !in ordered[..cut] && i !in ordered[|ordered| - cut..];
  }

  ghost function Lower(s: Scores, v: real): set<nat> {
    set j: nat | j < |s| && s[j].Some? && s[j].value < v
  }

  ghost function Tied(s: Scores, v: real): set<nat> {
    set j: nat | j < |s| && s[j].Some? && s[j].value == v
  }

  lemma RankCounts(s: Scores, v: real)
    ensures Count(Without(AtMost(s, v), AtLeast(s, v))) == |Lower(s, v)|
    ensures Count(AtMost(s, v)) == |Lower(s, v)| + |Tied(s, v)|
  {
    var below, upTo := Without(AtMost(s, v), AtLeast(s, v)), AtMost(s, v);
    CountIsSize(below);
    CountIsSize(upTo);
    hide Count;
    assert (set j | 0 <= j < |below| && below[j]) == Lower(s, v);
    assert (set j | 0 <= j < |upTo| && upTo[j]) == Lower(s, v) + Tied(s, v);
    assert |Lower(s, v) + Tied(s, v)| == |Lower(s, v)| + |Tied(s, v)|;
  }

  /** Percentile ranks: those below, and half of those tied with one more, over all. */
  lemma RankExact(s: Scores, i: nat)
    requires i < |s| && s[i].Some?
    ensures ScoredSet(s) != {} && Count(Scored(s)) == |ScoredSet(s)|
    ensures RankRow(s)[i]
         == (|Lower(s, s[i].value)| as real + (|Tied(s, s[i].value)| as real + 1.0) / 2.0) / |ScoredSet(s)| as real
  {
    ScoredCount(s);
    assert i in ScoredSet(s);
    RankCounts(s, s[i].value);
    hide Count, Without, AtMost, AtLeast, Scored, ScoredSet, Lower, Tied;
  }

  /** What a scored position is scaled from under rank sizing: its rank above a floor, or its distance to the mean rank. */
  function RawRank(s: Scores, cfg: Config, i: nat): real
    requires i < |s| && Count(Scored(s)) > 0
  {
    if s[i].None? then 0.0
    else if cfg.limits.strategy.LongOnly? then
      (if RankRow(s)[i] > 1.0 - cfg.topQuantile then RankRow(s)[i] - (1.0 - cfg.topQuantile) else 0.0)
    else RankRow(s)[i] - Sum(RankRow(s)) / Count(Scored(s)) as real
  }

  function RawRanks(s: Scores, cfg: Config): (r: Row)
    requires Count(Scored(s)) > 0
    ensures |r| == |s| && forall i :: 0 <= i < |s| ==> r[i] == RawRank(s, cfg, i)
  {
    seq(|s|, i requires 0 <= i < |s| => RawRank(s, cfg, i))
  }

  lemma RawIs(s: Scores, cfg: Config)
    requires Count(Scored(s)) > 0
    ensures RawRanks(s, cfg)
         == if cfg.limits.strategy.LongOnly? then PosRow(Shifted(RankRow(s), Scored(s), 1.0 - cfg.topQuantile))
            else Shifted(RankRow(s), Scored(s), Sum(RankRow(s)) / Count(Scored(s)) as real)
  {
    hide Count, RankRow, Sum;
  }

  lemma ScaledOver(raw: Row, total: real, lev: real, i: nat)
    requires total > 0.0 && lev > 0.0 && i < |raw|
    ensures Times(ScaleSides(raw, lev / total, lev / total)[i], total) == Times(raw[i], lev)
  {
    Quotient(lev, total);
    var q := lev / total;
    SideOf(raw[i], q, q);
    assert q * total == lev;
    assert (raw[i] * q) * total == raw[i] * (q * total);
    hide SideEntry;
  }

  /** Rank sizing: weights are in proportion to the raw ranks, and their gross is the leverage, unless all of these are zero. */
  lemma RankTarget(s: Scores, cfg: Config, order: Arrangement, i: nat)
    requires cfg.Valid() && cfg.selection.Quantile? && cfg.sizing.Rank? && Count(Scored(s)) > 0 && i < |s|
    ensures Gross(RawRanks(s, cfg)) > 0.0 ==>
              Times(TargetWeights(s, cfg, order)[i], Gross(RawRanks(s, cfg))) == Times(RawRanks(s, cfg)[i], cfg.limits.maxLeverage)
    ensures Gross(RawRanks(s, cfg)) == 0.0 ==> TargetWeights(s, cfg, order)[i] == 0.0
  {
    hide Count, RankRow, Sum, Gross, RawRank, ScaleSides, Times, ThresholdWeights, EqualWeights, PickCount;
    RawIs(s, cfg);
    var raw := RawRanks(s, cfg);
    Sides(raw);
    if cfg.limits.strategy.LongOnly? {
      NonnegativeSides(raw);
    }
    if Gross(raw) > 0.0 {
      ScaledOver(raw, Gross(raw), cfg.limits.maxLeverage, i);
    }
  }

  // ----- the in-place construction

  method Assign(weights: array<real>, m: Mask, value: real)
    requires weights.Length == |m|
    modifies weights
    ensures weights[..] == Assigned(old(weights[..]), m, value)
  {
    var i := 0;
    while i < |m|
      invariant 0 <= i <= |m|
      invariant forall j :: 0 <= j < i ==> weights[j] == if m[j] then value else old(weights[j])
      invariant forall j :: i <= j < |m| ==> weights[j] == old(weights[j])
    {
      if m[i] {
        weights[i] := value;
      }
      i := i + 1;
    }
  }

  /** The equal-weight long-short branch as the source writes it into its zero Series. */
  method EqualWeightsInPlace(s: Scores, cfg: Config, k: nat, order: Arrangement) returns (weights: array<real>)
    ensures fresh(weights) && weights[..] == EqualWeights(s, cfg, k, order)
  {
    hide Count;
    weights := new real[|s|](i => 0.0);
    assert weights[..] == Zeros(|s|);
    var ordered := order(s);
    var cut := Min(k, |ordered|);
    var longs := Members(|s|, ordered[..cut]);
    var lev := cfg.limits.maxLeverage;
    if Count(longs) == 0 {
      return;
    }
    if cfg.limits.strategy.LongOnly? {
      Assign(weights, longs, lev / Count(longs) as real);
      return;
    }
    var shorts := Without(Members(|s|, ordered[|ordered| - cut..]), longs);
    if Count(shorts) == 0 {
      return;
    }
    var half := lev / 2.0;
    Assign(weights, longs, half / Count(longs) as real);
    Assign(weights, shorts, -(half / Count(shorts) as real));
  }
}
