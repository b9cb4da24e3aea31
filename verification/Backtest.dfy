/** run_backtest up to net returns: what a row may depend on, and what it does depend on. */
module Backtest {
  import opened Common
  import opened RealRows
  import opened PortfolioLimits
  import opened RowWeights
  import opened Text

  /** One signal date; a ticker without a score is absent. */
  datatype SignalRow = SignalRow(date: int, scores: map<string, real>)

  /** One panel date; a ticker without a return is absent. */
  datatype ReturnRow = ReturnRow(date: int, values: map<string, real>, benchmark: Option<real>)

  /**
   * The pivoted tables by ticker name. names lists tickers in column order; signalColumns and columns are the
   * column labels of the two tables, which a ticker enters by any row of its table, however late.
   */
  datatype Market = Market(names: seq<string>, signals: seq<SignalRow>, signalColumns: set<string>,
                           history: seq<ReturnRow>, columns: set<string>)
  {
    ghost predicate Valid() {
      && (forall i, j :: 0 <= i < j < |names| ==> StrLe(names[i], names[j]) && names[i] != names[j])
      && (forall t :: t in signalColumns ==> t in names)
      && (forall i, j :: 0 <= i < j < |signals| ==> signals[i].date < signals[j].date)
      && (forall i, j :: 0 <= i < j < |history| ==> history[i].date < history[j].date)
      && (forall i :: 0 <= i < |signals| ==> signals[i].scores.Keys <= signalColumns)
      && (forall i :: 0 <= i < |history| ==> history[i].values.Keys <= columns)
    }

    /** Whether name c is among common_cols. */
    predicate Shared(c: nat)
      requires c < |names|
    {
      names[c] in signalColumns && names[c] in columns
    }
  }

  datatype OutRow = OutRow(date: int, weights: Row, turnover: real, cost: real, gross: Option<real>, net: Option<real>)

  datatype BacktestError = NoCommonTickers | NotEnoughDates | MissingActiveReturn | MissingBenchmark

  /** Annualised trailing volatility of a window of base returns; None while it is undefined. */
  type Volatility = seq<Option<real>> -> Option<real>

  type Cells = seq<Option<real>>

  const OVERLAY_WINDOW := 63

  // ----- the calendar

  /** searchsorted(d, side="left"). */
  function CountBefore(rows: seq<ReturnRow>, d: int): (n: nat)
    ensures n <= |rows|
  {
    if rows == [] || rows[0].date >= d then 0 else 1 + CountBefore(rows[1..], d)
  }

  /** searchsorted(d, side="right"). */
  function CountUpTo(rows: seq<ReturnRow>, d: int): (n: nat)
    ensures n <= |rows|
  {
    if rows == [] || rows[0].date > d then 0 else 1 + CountUpTo(rows[1..], d)
  }

  function CalendarOf(m: Market, lag: nat): seq<ReturnRow>
    requires m.signals != []
  {
    var start := CountBefore(m.history, m.signals[0].date);
    var end := CountUpTo(m.history, m.signals[|m.signals| - 1].date);
    var stop := Min(|m.history|, end + lag);
    if start <= stop then m.history[start..stop] else []
  }

  // ----- the common columns

  /** A row of a table over common_cols; a name outside them keeps an empty cell. */
  function Restricted(m: Market, cells: map<string, real>): (r: Cells)
    ensures |r| == |m.names|
  {
    seq(|m.names|, c requires 0 <= c < |m.names| =>
      if m.Shared(c) && m.names[c] in cells then Some(cells[m.names[c]]) else None)
  }

  function Lookup(signals: seq<SignalRow>, date: int): Option<map<string, real>> {
    if signals == [] then None
    else if signals[0].date == date then Some(signals[0].scores)
    else Lookup(signals[1..], date)
  }

  /** The score rows over common_cols, reindexed to the calendar. */
  function Reindexed(m: Market, cal: seq<ReturnRow>): (r: seq<Option<Scores>>)
    ensures |r| == |cal|
  {
    seq(|cal|, i requires 0 <= i < |cal| =>
      match Lookup(m.signals, cal[i].date) case None => None case Some(cells) => Some(Restricted(m, cells)))
  }

  /** The return rows over common_cols. */
  function Aligned(m: Market, cal: seq<ReturnRow>): (r: seq<Cells>)
    ensures |r| == |cal|
  {
    seq(|cal|, i requires 0 <= i < |cal| => Restricted(m, cal[i].values))
  }

  function Dates(cal: seq<ReturnRow>): (r: seq<int>)
    ensures |r| == |cal|
  {
    seq(|cal|, i requires 0 <= i < |cal| => cal[i].date)
  }

  // ----- desired weights

  /** Target rows on signal dates, filled forward. */
  function Targets(prev: Row, scores: seq<Option<Scores>>, cfg: Config, order: Arrangement): (r: seq<Row>)
    ensures |r| == |scores|
    decreases |scores|
  {
    if scores == [] then []
    else
      var current := match scores[0]
        case Some(s) => Enforce(TargetWeights(s, cfg, order), cfg.limits)
        case None => prev;
      [current] + Targets(current, scores[1..], cfg, order)
  }

  function BandEntry(prev: real, desired: real, threshold: real): real {
    if Abs(desired - prev) >= threshold then desired else prev
  }

  function BandRow(prev: Row, desired: Row, threshold: real): (r: Row)
    ensures |r| == |desired|
  {
    seq(|desired|, i requires 0 <= i < |desired| =>
      BandEntry(if i < |prev| then prev[i] else 0.0, desired[i], threshold))
  }

  function Banded(prev: Row, rows: seq<Row>, threshold: real): (r: seq<Row>)
    ensures |r| == |rows|
    decreases |rows|
  {
    if rows == [] then []
    else
      var current := BandRow(prev, rows[0], threshold);
      [current] + Banded(current, rows[1..], threshold)
  }

  function ApplyBand(rows: seq<Row>, threshold: real, tickers: nat): (r: seq<Row>)
    ensures |r| == |rows|
  {
    if threshold <= 0.0 then rows else Banded(Zeros(tickers), rows, threshold)
  }

  function EnforceAll(rows: seq<Row>, limits: Limits): (r: seq<Row>)
    ensures |r| == |rows|
  {
    seq(|rows|, i requires 0 <= i < |rows| => Enforce(rows[i], limits))
  }

  function Desired(scores: seq<Option<Scores>>, cfg: Config, order: Arrangement, tickers: nat): (r: seq<Row>)
    ensures |r| == |scores|
  {
    EnforceAll(ApplyBand(Targets(Zeros(tickers), scores, cfg, order), cfg.rebalanceThreshold, tickers), cfg.limits)
  }

  // ----- held weights and returns

  /** Row sum of weight times return, skipping missing returns; None when all are missing. */
  function Earned(w: Row, r: Cells): Option<real> {
    if w == [] || r == [] then None
    else
      var rest := Earned(w[1..], r[1..]);
      if r[0].None? then rest
      else Some(w[0] * r[0].value + (if rest.Some? then rest.value else 0.0))
  }

  predicate Unavailable(w: Row, r: Cells) {
    exists i :: 0 <= i < |w| && i < |r| && r[i].None? && Abs(w[i]) > 0.000000000001
  }

  function BaseReturns(held: seq<Row>, rets: seq<Cells>): (g: seq<Option<real>>)
    requires |held| == |rets|
    ensures |g| == |held|
  {
    seq(|held|, i requires 0 <= i < |held| => Earned(held[i], rets[i]))
  }

  /** Leverage multiplier for row i from the base returns strictly before it. */
  function Overlay(base: seq<Option<real>>, i: nat, cfg: Config, vol: Volatility): real
    requires i <= |base|
  {
    match vol(base[Max(0, i - OVERLAY_WINDOW)..i])
    case None => 1.0
    case Some(v) => if v <= 0.0 then 3.0 else RMin(cfg.volTargetAnnual / v, 3.0)
  }

  function ScaledRow(w: Row, base: seq<Option<real>>, i: nat, cfg: Config, vol: Volatility): (r: Row)
    requires i <= |base|
    ensures |r| == |w|
  {
    Enforce(ScaleSides(w, Overlay(base, i, cfg, vol), Overlay(base, i, cfg, vol)), cfg.limits)
  }

  function Scaled(held: seq<Row>, rets: seq<Cells>, cfg: Config, vol: Volatility): (r: seq<Row>)
    requires |held| == |rets|
    ensures |r| == |held|
  {
    if !cfg.sizing.VolTarget? then held
    else seq(|held|, i requires 0 <= i < |held| => ScaledRow(held[i], BaseReturns(held, rets), i, cfg, vol))
  }

  function Moved(now: Row, before: Row): real {
    if now == [] then 0.0
    else Abs(now[0] - (if before == [] then 0.0 else before[0])) + Moved(now[1..], if before == [] then [] else before[1..])
  }

  /** Both charges are in basis points. */
  function Fee(cfg: Config): real {
    (cfg.costBps + cfg.slippageBps) / 10000.0
  }

  function Cost(turnover: real, fee: real): real {
    turnover * fee
  }

  function OutputRow(weights: seq<Row>, rets: seq<Cells>, dates: seq<int>, i: nat, cfg: Config): OutRow
    requires |weights| == |rets| == |dates| && i < |weights|
  {
    var turnover := Moved(weights[i], if i == 0 then [] else weights[i - 1]);
    var gross := Earned(weights[i], rets[i]);
    var cost := Cost(turnover, Fee(cfg));
    OutRow(dates[i], weights[i], turnover, cost, gross, if gross.Some? then Some(gross.value - cost) else None)
  }

  function Outputs(held: seq<Row>, rets: seq<Cells>, dates: seq<int>, cfg: Config, vol: Volatility): (r: seq<OutRow>)
    requires |held| == |rets| == |dates|
    ensures |r| == |held|
  {
    var weights := Scaled(held, rets, cfg, vol);
    seq(|held|, i requires 0 <= i < |held| => OutputRow(weights, rets, dates, i, cfg))
  }

  /** The weights before execution: desired rows whose execution day is in the calendar. */
  function Held(m: Market, cfg: Config, order: Arrangement): (r: seq<Row>)
    requires m.signals != [] && |CalendarOf(m, cfg.lag)| > cfg.lag
    ensures |r| == |CalendarOf(m, cfg.lag)| - cfg.lag
  {
    var cal := CalendarOf(m, cfg.lag);
    Desired(Reindexed(m, cal), cfg, order, |m.names|)[..|cal| - cfg.lag]
  }

  function Run(m: Market, cfg: Config, order: Arrangement, vol: Volatility): Result<seq<OutRow>, BacktestError> {
    if m.signals == [] || !exists c :: 0 <= c < |m.names| && m.Shared(c) then Err(NoCommonTickers)
    else
      var cal := CalendarOf(m, cfg.lag);
      if |cal| <= cfg.lag then Err(NotEnoughDates)
      else
        var held := Held(m, cfg, order);
        var rets := Aligned(m, cal[cfg.lag..]);
        if exists i :: 0 <= i < |held| && Unavailable(held[i], rets[i]) then Err(MissingActiveReturn)
        else if exists i :: cfg.lag <= i < |cal| && cal[i].benchmark.None? then Err(MissingBenchmark)
        else Ok(Outputs(held, rets, Dates(cal[cfg.lag..]), cfg, vol))
  }

  // ----- the band loop

  method ApplyRebalanceThreshold(weights: seq<Row>, threshold: real, tickers: nat) returns (rows: seq<Row>)
    ensures rows == ApplyBand(weights, threshold, tickers)
  {
    if threshold <= 0.0 || weights == [] {
      return weights;
    }
    rows := [];
    var previous := Zeros(tickers);
    var i := 0;
    while i < |weights|
      invariant i <= |weights| && |rows| == i
      invariant rows + Banded(previous, weights[i..], threshold) == Banded(Zeros(tickers), weights, threshold)
    {
      var current := BandRow(previous, weights[i], threshold);
      assert weights[i..][0] == weights[i] && weights[i..][1..] == weights[i + 1..];
      assert rows + ([current] + Banded(current, weights[i + 1..], threshold))
          == (rows + [current]) + Banded(current, weights[i + 1..], threshold);
      rows := rows + [current];
      previous := current;
      i := i + 1;
    }
    assert rows + [] == rows;
  }

  /** A position moves to its target exactly when that lies at least the threshold away, and stays as it was otherwise. */
  lemma {:induction false} BandTracksTarget(prev: Row, rows: seq<Row>, threshold: real, i: nat, j: nat)
    requires i < |rows| && j < |rows[i]| && |prev| == |rows[0]|
    requires forall k :: 0 <= k < |rows| ==> |rows[k]| == |rows[0]|
    ensures |Banded(prev, rows, threshold)[i]| == |rows[i]|
    ensures var out := Banded(prev, rows, threshold);
            var before := if i == 0 then prev else out[i - 1];
            && |before| == |rows[i]|
            && out[i][j] == (if rows[i][j] - before[j] >= threshold || before[j] - rows[i][j] >= threshold then rows[i][j]
                             else before[j])
    decreases |rows|
  {
    if i > 0 {
      var current := BandRow(prev, rows[0], threshold);
      assert rows[1..][i - 1] == rows[i];
      assert forall k :: 0 <= k < |rows[1..]| ==> rows[1..][k] == rows[k + 1];
      BandTracksTarget(current, rows[1..], threshold, i - 1, j);
    }
  }

  // ----- every held row is within the limits

  lemma DesiredWithin(scores: seq<Option<Scores>>, cfg: Config, order: Arrangement, tickers: nat, i: nat)
    requires cfg.Valid() && i < |scores|
    ensures Within(Desired(scores, cfg, order, tickers)[i], cfg.limits)
  {
    hide Enforce, Targets, ApplyBand, Within;
    var rows := ApplyBand(Targets(Zeros(tickers), scores, cfg, order), cfg.rebalanceThreshold, tickers);
    EnforceMeetsLimits(rows[i], cfg.limits);
  }

  /** What a successful run returns, as a whole. */
  lemma RunParts(m: Market, cfg: Config, order: Arrangement, vol: Volatility)
    requires Run(m, cfg, order, vol).Ok?
    ensures m.signals != [] && |CalendarOf(m, cfg.lag)| > cfg.lag
    ensures Run(m, cfg, order, vol).value
         == Outputs(Held(m, cfg, order), Aligned(m, CalendarOf(m, cfg.lag)[cfg.lag..]),
                    Dates(CalendarOf(m, cfg.lag)[cfg.lag..]), cfg, vol)
  {
    hide CalendarOf, Held, Aligned, Dates, Outputs, Unavailable;
  }

  /** Every row of a successful backtest respects the cap, the leverage and dollar neutrality. */
  lemma OutputsWithinLimits(m: Market, cfg: Config, order: Arrangement, vol: Volatility, i: nat)
    requires cfg.Valid() && Run(m, cfg, order, vol).Ok? && i < |Run(m, cfg, order, vol).value|
    ensures Within(Run(m, cfg, order, vol).value[i].weights, cfg.limits)
  {
    RunParts(m, cfg, order, vol);
    hide Run, Enforce, Desired, Within, CalendarOf, Earned, Moved, Overlay, Cost, Aligned, ScaleSides, Reindexed;
    var cal := CalendarOf(m, cfg.lag);
    var held, rets := Held(m, cfg, order), Aligned(m, cal[cfg.lag..]);
    DesiredWithin(Reindexed(m, cal), cfg, order, |m.names|, i);
    if cfg.sizing.VolTarget? {
      var lev := Overlay(BaseReturns(held, rets), i, cfg, vol);
      EnforceMeetsLimits(ScaleSides(held[i], lev, lev), cfg.limits);
    }
  }

  // ----- what a row of the result says

  /** What each position moved by, absolutely; before the first row nothing was held. */
  function Moves(now: Row, before: Row): (r: Row)
    ensures |r| == |now|
    ensures forall c :: 0 <= c < |now| ==>
              var was := if c < |before| then before[c] else 0.0;
              r[c] == if now[c] >= was then now[c] - was else was - now[c]
  {
    seq(|now|, c requires 0 <= c < |now| =>
      var was := if c < |before| then before[c] else 0.0;
      if now[c] >= was then now[c] - was else was - now[c])
  }

  lemma MovesTail(now: Row, before: Row)
    requires now != []
    ensures Moves(now, before)[1..] == Moves(now[1..], if before == [] then [] else before[1..])
  {
  }

  lemma {:induction false} MovedIsSum(now: Row, before: Row)
    ensures Moved(now, before) == Sum(Moves(now, before))
  {
    if now != [] {
      MovedIsSum(now[1..], if before == [] then [] else before[1..]);
      MovesTail(now, before);
    }
  }

  lemma {:induction false} SumZero(r: Row)
    requires forall c :: 0 <= c < |r| ==> r[c] >= 0.0
    ensures Sum(r) >= 0.0
    ensures Sum(r) == 0.0 <==> forall c :: 0 <= c < |r| ==> r[c] == 0.0
  {
    if r != [] {
      assert forall c :: 0 < c < |r| ==> r[c] == r[1..][c - 1];
      SumZero(r[1..]);
    }
  }

  lemma StillMeansEqual(now: Row, before: Row)
    ensures Sum(Moves(now, before)) >= 0.0
    ensures Sum(Moves(now, before)) == 0.0 <==> forall c :: 0 <= c < |now| ==> now[c] == if c < |before| then before[c] else 0.0
  {
    SumZero(Moves(now, before));
    hide Sum;
    forall c | 0 <= c < |now|
      ensures Moves(now, before)[c] == 0.0 <==> now[c] == if c < |before| then before[c] else 0.0
    {
    }
  }

  /** Weight times return where there is a return, and nothing where there is none. */
  function Gains(w: Row, r: Cells): (g: Row)
    requires |w| == |r|
    ensures |g| == |w|
    ensures forall c :: 0 <= c < |w| ==> g[c] == if r[c].Some? then w[c] * r[c].value else 0.0
  {
    seq(|w|, c requires 0 <= c < |w| => if r[c].Some? then w[c] * r[c].value else 0.0)
  }

  lemma GainsTail(w: Row, r: Cells)
    requires |w| == |r| > 0
    ensures Gains(w, r)[1..] == Gains(w[1..], r[1..])
  {
    var a, b := Gains(w, r)[1..], Gains(w[1..], r[1..]);
    forall c | 0 <= c < |b|
      ensures a[c] == b[c]
    {
      assert r[1..][c] == r[c + 1] && w[1..][c] == w[c + 1];
      assert a[c] == if r[c + 1].Some? then w[c + 1] * r[c + 1].value else 0.0;
    }
  }

  lemma {:induction false} GainedIsSum(w: Row, r: Cells)
    requires |w| == |r|
    ensures Gained(w, r) == Sum(Gains(w, r))
  {
    if w != [] {
      GainedIsSum(w[1..], r[1..]);
      GainsTail(w, r);
    }
  }

  /** The return of a ticker on a day, if it is a common column and has one. */
  function ReturnOf(m: Market, day: ReturnRow, c: nat): Option<real>
    requires c < |m.names|
  {
    if m.names[c] in m.signalColumns && m.names[c] in m.columns && m.names[c] in day.values then Some(day.values[m.names[c]])
    else None
  }

  function ReturnsOn(m: Market, day: ReturnRow): (r: Cells)
    ensures |r| == |m.names| && forall c :: 0 <= c < |r| ==> r[c] == ReturnOf(m, day, c)
  {
    seq(|m.names|, c requires 0 <= c < |m.names| => ReturnOf(m, day, c))
  }

  lemma AlignedIs(m: Market, cal: seq<ReturnRow>, i: nat)
    requires i < |cal|
    ensures Aligned(m, cal)[i] == ReturnsOn(m, cal[i])
  {
  }

  /** What a row of a successful run must account for: who moved, what that cost, and what the day earned. */
  ghost predicate Accounts(row: OutRow, before: Row, day: ReturnRow, rets: Cells, cfg: Config) {
    && |row.weights| == |rets| && row.date == day.date
    && row.turnover == Sum(Moves(row.weights, before))
    && (row.turnover == 0.0 <==> forall c :: 0 <= c < |row.weights| ==> row.weights[c] == if c < |before| then before[c] else 0.0)
    && row.cost == row.turnover * ((cfg.costBps + cfg.slippageBps) / 10000.0)
    && (row.gross.Some? <==> exists c :: 0 <= c < |rets| && rets[c].Some?)
    && (row.gross.Some? ==> row.gross.value == Sum(Gains(row.weights, rets)))
    && row.net == (if row.gross.Some? then Some(row.gross.value - row.cost) else None)
  }

  lemma OutputRowAccounts(weights: seq<Row>, rets: seq<Cells>, dates: seq<int>, i: nat, cfg: Config, day: ReturnRow)
    requires |weights| == |rets| == |dates| && i < |weights| && |weights[i]| == |rets[i]| && dates[i] == day.date
    ensures Accounts(OutputRow(weights, rets, dates, i, cfg), if i == 0 then [] else weights[i - 1], day, rets[i], cfg)
  {
    hide Moved, Earned, Gained, Sum;
    MovedIsSum(weights[i], if i == 0 then [] else weights[i - 1]);
    StillMeansEqual(weights[i], if i == 0 then [] else weights[i - 1]);
    EarnedForm(weights[i], rets[i]);
    GainedIsSum(weights[i], rets[i]);
  }

  lemma ScaledWidth(held: seq<Row>, rets: seq<Cells>, cfg: Config, vol: Volatility, i: nat)
    requires |held| == |rets| && i < |held|
    ensures |Scaled(held, rets, cfg, vol)[i]| == |held[i]|
  {
    hide ScaledRow;
  }

  /**
   * Every row of a successful backtest: the turnover is the sum of the absolute moves since the row before, the cost
   * is the turnover at the fee, the gross return sums weight times return over the tickers that have one on the
   * row's own day, and the net return is the gross return less the cost.
   */
  lemma RowAccounts(m: Market, cfg: Config, order: Arrangement, vol: Volatility, i: nat)
    requires Run(m, cfg, order, vol).Ok? && i < |Run(m, cfg, order, vol).value|
    ensures m.signals != [] && cfg.lag + i < |CalendarOf(m, cfg.lag)|
    ensures var rows := Run(m, cfg, order, vol).value;
            var day := CalendarOf(m, cfg.lag)[cfg.lag + i];
            && |rows[i].weights| == |m.names|
            && Accounts(rows[i], if i == 0 then [] else rows[i - 1].weights, day, ReturnsOn(m, day), cfg)
  {
    RunParts(m, cfg, order, vol);
    hide Run, Desired, CalendarOf, Reindexed, Scaled, Accounts, ReturnsOn, OutputRow;
    var cal := CalendarOf(m, cfg.lag);
    var days := cal[cfg.lag..];
    var held, rets := Held(m, cfg, order), Aligned(m, days);
    HeldWidth(m, cal, cfg, order, i);
    var weights := Scaled(held, rets, cfg, vol);
    ScaledWidth(held, rets, cfg, vol, i);
    AlignedIs(m, days, i);
    assert days[i] == cal[cfg.lag + i];
    OutputRowAccounts(weights, rets, Dates(days), i, cfg, days[i]);
    RowWeightsAre(weights, rets, Dates(days), i, cfg);
    if i > 0 {
      RowWeightsAre(weights, rets, Dates(days), i - 1, cfg);
    }
  }

  lemma RowWeightsAre(weights: seq<Row>, rets: seq<Cells>, dates: seq<int>, i: nat, cfg: Config)
    requires |weights| == |rets| == |dates| && i < |weights|
    ensures OutputRow(weights, rets, dates, i, cfg).weights == weights[i]
  {
  }

  // ----- prefixes

  lemma {:induction false} TargetsPrefix(prev: Row, scores: seq<Option<Scores>>, cfg: Config, order: Arrangement, n: nat)
    requires n <= |scores|
    ensures Targets(prev, scores[..n], cfg, order) == Targets(prev, scores, cfg, order)[..n]
    decreases |scores|
  {
    hide Enforce, TargetWeights;
    if n > 0 {
      var current := Targets(prev, scores, cfg, order)[0];
      assert scores[..n][0] == scores[0] && scores[..n][1..] == scores[1..][..n - 1];
      TargetsPrefix(current, scores[1..], cfg, order, n - 1);
    }
  }

  lemma {:induction false} BandedPrefix(prev: Row, rows: seq<Row>, threshold: real, n: nat)
    requires n <= |rows|
    ensures Banded(prev, rows[..n], threshold) == Banded(prev, rows, threshold)[..n]
    decreases |rows|
  {
    hide BandRow;
    if n > 0 {
      assert rows[..n][0] == rows[0] && rows[..n][1..] == rows[1..][..n - 1];
      BandedPrefix(BandRow(prev, rows[0], threshold), rows[1..], threshold, n - 1);
    }
  }

  lemma DesiredPrefix(scores: seq<Option<Scores>>, cfg: Config, order: Arrangement, tickers: nat, n: nat)
    requires n <= |scores|
    ensures Desired(scores[..n], cfg, order, tickers) == Desired(scores, cfg, order, tickers)[..n]
  {
    hide Enforce, Targets, Banded;
    var rows := Targets(Zeros(tickers), scores, cfg, order);
    TargetsPrefix(Zeros(tickers), scores, cfg, order, n);
    BandedPrefix(Zeros(tickers), rows, cfg.rebalanceThreshold, n);
  }

  // ----- the calendar of two markets

  function ReturnsUpTo(rows: seq<ReturnRow>, d: int): seq<ReturnRow> {
    rows[..CountUpTo(rows, d)]
  }

  lemma {:induction false} CountOnPrefix(rows: seq<ReturnRow>, d: int, n: nat)
    requires forall i, j :: 0 <= i < j < |rows| ==> rows[i].date < rows[j].date
    requires n <= |rows| && CountBefore(rows, d) < n
    ensures CountBefore(rows[..n], d) == CountBefore(rows, d)
  {
    if rows != [] && rows[0].date < d {
      assert rows[..n][1..] == rows[1..][..n - 1];
      assert forall i, j :: 0 <= i < j < |rows[1..]| ==> rows[1..][i].date < rows[1..][j].date;
      CountOnPrefix(rows[1..], d, n - 1);
    }
  }

  lemma {:induction false} CountUpToSplits(rows: seq<ReturnRow>, d: int)
    requires forall i, j :: 0 <= i < j < |rows| ==> rows[i].date < rows[j].date
    ensures forall i :: 0 <= i < |rows| ==> (rows[i].date <= d <==> i < CountUpTo(rows, d))
  {
    if rows != [] {
      assert forall i, j :: 0 <= i < j < |rows[1..]| ==> rows[1..][i].date < rows[1..][j].date;
      CountUpToSplits(rows[1..], d);
      assert forall i :: 0 < i < |rows| ==> rows[i] == rows[1..][i - 1];
    }
  }

  lemma {:induction false} CountBeforeSplits(rows: seq<ReturnRow>, d: int)
    requires forall i, j :: 0 <= i < j < |rows| ==> rows[i].date < rows[j].date
    ensures forall i :: 0 <= i < |rows| ==> (rows[i].date < d <==> i < CountBefore(rows, d))
  {
    if rows != [] {
      assert forall i, j :: 0 <= i < j < |rows[1..]| ==> rows[1..][i].date < rows[1..][j].date;
      CountBeforeSplits(rows[1..], d);
      assert forall i :: 0 < i < |rows| ==> rows[i] == rows[1..][i - 1];
    }
  }

  /** The calendar up to a date ends where the history up to that date does. */
  lemma CalendarEnd(m: Market, lag: nat, n: nat, date: int)
    requires m.Valid() && m.signals != [] && 0 < n <= |CalendarOf(m, lag)| && CalendarOf(m, lag)[n - 1].date == date
    ensures CountUpTo(m.history, date) == CountBefore(m.history, m.signals[0].date) + n
  {
    hide CountBefore, CountUpTo;
    var start := CountBefore(m.history, m.signals[0].date);
    CountUpToSplits(m.history, date);
    assert m.history[start + n - 1].date == date;
    assert start + n < |m.history| ==> m.history[start + n].date > date;
  }

  /** Histories that agree up to n, where the first calendar starts before, start their calendars alike. */
  lemma StartsAgree(a: seq<ReturnRow>, b: seq<ReturnRow>, d: int, n: nat)
    requires forall i, j :: 0 <= i < j < |a| ==> a[i].date < a[j].date
    requires forall i, j :: 0 <= i < j < |b| ==> b[i].date < b[j].date
    requires n <= |a| && n <= |b| && a[..n] == b[..n] && CountBefore(a, d) < n
    ensures CountBefore(a, d) == CountBefore(b, d)
  {
    hide CountBefore;
    CountOnPrefix(a, d, n);
    StartOnPrefix(b, d, n, CountBefore(a, d));
  }

  /** The calendar of two markets agrees as far as the returns and the first signal do. */
  lemma CalendarsAgree(a: Market, b: Market, lag: nat, n: nat, date: int)
    requires a.Valid() && b.Valid() && a.signals != [] && b.signals != [] && a.signals[0].date == b.signals[0].date
    requires ReturnsUpTo(a.history, date) == ReturnsUpTo(b.history, date)
    requires 0 < n <= |CalendarOf(a, lag)| && n <= |CalendarOf(b, lag)|
    requires CalendarOf(a, lag)[n - 1].date == date
    ensures CalendarOf(a, lag)[..n] == CalendarOf(b, lag)[..n]
  {
    hide CountBefore, CountUpTo, CalendarOf;
    var up := CountUpTo(a.history, date);
    CalendarEnd(a, lag, n, date);
    assert up == |ReturnsUpTo(a.history, date)| == |ReturnsUpTo(b.history, date)| == CountUpTo(b.history, date);
    assert a.history[..up] == b.history[..up];
    StartsAgree(a.history, b.history, a.signals[0].date, up);
    CalendarPrefix(a, lag, n, up);
    CalendarPrefix(b, lag, n, up);
  }

  lemma CalendarPrefix(m: Market, lag: nat, n: nat, up: nat)
    requires m.signals != [] && 0 < n <= |CalendarOf(m, lag)|
    requires up == CountBefore(m.history, m.signals[0].date) + n <= |m.history|
    ensures CalendarOf(m, lag)[..n] == m.history[..up][up - n..]
  {
    hide CountBefore, CountUpTo;
  }

  lemma StartOnPrefix(rows: seq<ReturnRow>, d: int, n: nat, start: nat)
    requires forall i, j :: 0 <= i < j < |rows| ==> rows[i].date < rows[j].date
    requires n <= |rows| && start < n && CountBefore(rows[..n], d) == start
    ensures CountBefore(rows, d) == start
  {
    CountBeforeSplits(rows, d);
    CountBeforeSplits(rows[..n], d);
    assert rows[..n][start] == rows[start];
    if start > 0 {
      assert rows[..n][start - 1] == rows[start - 1];
    }
  }


  // ----- columns nobody scored

  /** Nothing is held where no score was seen. */
  lemma UnscoredTarget(s: Scores, cfg: Config, order: Arrangement, c: nat)
    requires cfg.Valid() && Arranges(order) && c < |s| && s[c].None?
    ensures TargetWeights(s, cfg, order)[c] == 0.0
  {
    hide Count, RankOf, Ahead, Sum, Gross, PickCount;
    if Count(Scored(s)) > 0 {
      assert c !in order(s);
    }
  }

  lemma EnforceKeepsZero(w: Row, limits: Limits, c: nat)
    requires limits.Valid() && c < |w| && w[c] == 0.0
    ensures Enforce(w, limits)[c] == 0.0
  {
    hide Enforce, Within;
    EnforceMeetsLimits(w, limits);
  }

  ghost predicate NeverScored(scores: seq<Option<Scores>>, tickers: nat, c: nat) {
    && c < tickers
    && forall i :: 0 <= i < |scores| && scores[i].Some? ==> |scores[i].value| == tickers && scores[i].value[c].None?
  }

  lemma {:induction false} TargetsUnscored(prev: Row, scores: seq<Option<Scores>>, cfg: Config, order: Arrangement, c: nat)
    requires cfg.Valid() && Arranges(order) && NeverScored(scores, |prev|, c) && prev[c] == 0.0
    ensures forall i :: 0 <= i < |scores| ==>
              |Targets(prev, scores, cfg, order)[i]| == |prev| && Targets(prev, scores, cfg, order)[i][c] == 0.0
    decreases |scores|
  {
    hide Enforce, TargetWeights, Arranges;
    if scores != [] {
      if scores[0].Some? {
        UnscoredTarget(scores[0].value, cfg, order, c);
        EnforceKeepsZero(TargetWeights(scores[0].value, cfg, order), cfg.limits, c);
      }
      assert forall i :: 0 <= i < |scores[1..]| ==> scores[1..][i] == scores[i + 1];
      TargetsUnscored(Targets(prev, scores, cfg, order)[0], scores[1..], cfg, order, c);
    }
  }

  lemma {:induction false} BandedZero(prev: Row, rows: seq<Row>, threshold: real, c: nat)
    requires c < |prev| && prev[c] == 0.0
    requires forall i :: 0 <= i < |rows| ==> |rows[i]| == |prev| && rows[i][c] == 0.0
    ensures forall i :: 0 <= i < |rows| ==>
              |Banded(prev, rows, threshold)[i]| == |prev| && Banded(prev, rows, threshold)[i][c] == 0.0
    decreases |rows|
  {
    if rows != [] {
      BandedZero(BandRow(prev, rows[0], threshold), rows[1..], threshold, c);
    }
  }

  lemma DesiredUnscored(scores: seq<Option<Scores>>, cfg: Config, order: Arrangement, tickers: nat, c: nat, i: nat)
    requires cfg.Valid() && Arranges(order) && NeverScored(scores, tickers, c) && i < |scores|
    ensures |Desired(scores, cfg, order, tickers)[i]| == tickers && Desired(scores, cfg, order, tickers)[i][c] == 0.0
  {
    hide Enforce, Targets, Banded, Arranges, NeverScored;
    var rows := Targets(Zeros(tickers), scores, cfg, order);
    assert c < tickers by { ScoredBound(scores, tickers, c); }
    TargetsUnscored(Zeros(tickers), scores, cfg, order, c);
    BandedZero(Zeros(tickers), rows, cfg.rebalanceThreshold, c);
    EnforceKeepsZero(ApplyBand(rows, cfg.rebalanceThreshold, tickers)[i], cfg.limits, c);
  }

  lemma ScoredBound(scores: seq<Option<Scores>>, tickers: nat, c: nat)
    requires NeverScored(scores, tickers, c)
    ensures c < tickers
  {
  }

  // ----- what a row earns

  ghost predicate AnyCell(r: Cells) {
    exists c :: 0 <= c < |r| && r[c].Some?
  }

  /** The sum alone, a missing return counting as nothing. */
  function Gained(w: Row, r: Cells): real
    requires |w| == |r|
  {
    if w == [] then 0.0 else (if r[0].Some? then w[0] * r[0].value else 0.0) + Gained(w[1..], r[1..])
  }

  /** A row has a gross return exactly when some return is there; its value is the sum. */
  lemma {:induction false} EarnedForm(w: Row, r: Cells)
    requires |w| == |r|
    ensures Earned(w, r).Some? <==> AnyCell(r)
    ensures Earned(w, r) == if Earned(w, r).Some? then Some(Gained(w, r)) else None
    ensures !AnyCell(r) ==> Gained(w, r) == 0.0
  {
    if w != [] {
      EarnedForm(w[1..], r[1..]);
      if AnyCell(r[1..]) {
        var c :| 0 <= c < |r[1..]| && r[1..][c].Some?;
        assert r[c + 1].Some?;
      }
      if AnyCell(r) && r[0].None? {
        var c :| 0 <= c < |r| && r[c].Some?;
        assert r[1..][c - 1].Some?;
      }
    }
  }

  /** The two return rows agree wherever something is held. */
  ghost predicate Covered(w: Row, ra: Cells, rb: Cells) {
    |w| == |ra| == |rb| && forall c :: 0 <= c < |w| && w[c] != 0.0 ==> ra[c] == rb[c]
  }

  lemma NothingTimes(x: real, y: real)
    requires x == 0.0
    ensures x * y == 0.0
  {
  }

  lemma {:induction false} GainedCovered(w: Row, ra: Cells, rb: Cells)
    requires Covered(w, ra, rb)
    ensures Gained(w, ra) == Gained(w, rb)
  {
    if w != [] {
      assert forall c :: 0 <= c < |w[1..]| ==> w[1..][c] == w[c + 1] && ra[1..][c] == ra[c + 1] && rb[1..][c] == rb[c + 1];
      GainedCovered(w[1..], ra[1..], rb[1..]);
      if w[0] == 0.0 {
        NothingTimes(w[0], if ra[0].Some? then ra[0].value else 0.0);
        NothingTimes(w[0], if rb[0].Some? then rb[0].value else 0.0);
      }
    }
  }

  lemma EarnedCovered(w: Row, ra: Cells, rb: Cells)
    requires Covered(w, ra, rb)
    ensures Earned(w, ra) == Earned(w, rb) <==> (AnyCell(ra) <==> AnyCell(rb))
  {
    hide Earned, Gained, AnyCell;
    EarnedForm(w, ra);
    EarnedForm(w, rb);
    GainedCovered(w, ra, rb);
  }

  ghost predicate AllCovered(held: seq<Row>, ra: seq<Cells>, rb: seq<Cells>) {
    |held| == |ra| == |rb| && forall i :: 0 <= i < |held| ==> Covered(held[i], ra[i], rb[i])
  }

  ghost predicate SameGaps(ra: seq<Cells>, rb: seq<Cells>)
    requires |ra| == |rb|
  {
    forall i :: 0 <= i < |ra| ==> (AnyCell(ra[i]) <==> AnyCell(rb[i]))
  }

  lemma ScaledRowZero(w: Row, base: seq<Option<real>>, i: nat, cfg: Config, vol: Volatility, c: nat)
    requires cfg.Valid() && i <= |base| && c < |w| && w[c] == 0.0
    ensures ScaledRow(w, base, i, cfg, vol)[c] == 0.0
  {
    hide Enforce, Overlay;
    var lev := Overlay(base, i, cfg, vol);
    NothingTimes(w[c], lev);
    EnforceKeepsZero(ScaleSides(w, lev, lev), cfg.limits, c);
  }

  lemma ScaledCovered(held: seq<Row>, ra: seq<Cells>, rb: seq<Cells>, cfg: Config, vol: Volatility)
    requires cfg.Valid() && AllCovered(held, ra, rb)
    ensures AllCovered(Scaled(held, ra, cfg, vol), ra, rb)
  {
    hide ScaledRow, BaseReturns;
    var scaled, base := Scaled(held, ra, cfg, vol), BaseReturns(held, ra);
    forall i | 0 <= i < |held|
      ensures Covered(scaled[i], ra[i], rb[i])
    {
      forall c | 0 <= c < |scaled[i]| && scaled[i][c] != 0.0
        ensures ra[i][c] == rb[i][c]
      {
        assert Covered(held[i], ra[i], rb[i]);
        if cfg.sizing.VolTarget? && held[i][c] == 0.0 {
          ScaledRowZero(held[i], base, i, cfg, vol, c);
        }
      }
    }
  }

  lemma SameBase(held: seq<Row>, ra: seq<Cells>, rb: seq<Cells>)
    requires AllCovered(held, ra, rb) && SameGaps(ra, rb)
    ensures BaseReturns(held, ra) == BaseReturns(held, rb)
  {
    hide Earned, Covered, AnyCell;
    forall i | 0 <= i < |held|
      ensures Earned(held[i], ra[i]) == Earned(held[i], rb[i])
    {
      EarnedCovered(held[i], ra[i], rb[i]);
    }
  }

  /** Rows agree but for what the day earned. */
  predicate SameTrade(x: OutRow, y: OutRow) {
    x.date == y.date && x.weights == y.weights && x.turnover == y.turnover && x.cost == y.cost
  }

  lemma OutputRowGross(weights: seq<Row>, rets: seq<Cells>, dates: seq<int>, i: nat, cfg: Config)
    requires |weights| == |rets| == |dates| && i < |weights| && |weights[i]| == |rets[i]|
    ensures OutputRow(weights, rets, dates, i, cfg).gross.Some? <==> AnyCell(rets[i])
  {
    EarnedForm(weights[i], rets[i]);
    hide Moved, Earned, Cost, AnyCell;
  }

  lemma OutputRowsTrade(weights: seq<Row>, ra: seq<Cells>, rb: seq<Cells>, dates: seq<int>, i: nat, cfg: Config)
    requires AllCovered(weights, ra, rb) && |dates| == |weights| && i < |weights|
    ensures SameTrade(OutputRow(weights, ra, dates, i, cfg), OutputRow(weights, rb, dates, i, cfg))
    ensures OutputRow(weights, ra, dates, i, cfg) == OutputRow(weights, rb, dates, i, cfg)
            <==> (AnyCell(ra[i]) <==> AnyCell(rb[i]))
  {
    EarnedCovered(weights[i], ra[i], rb[i]);
    hide Moved, Earned, Cost, AnyCell;
  }

  /** Equal holdings over agreeing returns: the outputs agree exactly when the same days have any return at all. */
  lemma OutputsAgreeIff(held: seq<Row>, ra: seq<Cells>, rb: seq<Cells>, dates: seq<int>, cfg: Config, vol: Volatility)
    requires cfg.Valid() && AllCovered(held, ra, rb) && |dates| == |held|
    ensures Outputs(held, ra, dates, cfg, vol) == Outputs(held, rb, dates, cfg, vol) <==> SameGaps(ra, rb)
    ensures !cfg.sizing.VolTarget? ==>
              forall i :: 0 <= i < |held| ==>
                SameTrade(Outputs(held, ra, dates, cfg, vol)[i], Outputs(held, rb, dates, cfg, vol)[i])
  {
    hide OutputRow, BaseReturns, ScaledRow, Covered, AnyCell, SameTrade;
    var wa, wb := Scaled(held, ra, cfg, vol), Scaled(held, rb, cfg, vol);
    var outA, outB := Outputs(held, ra, dates, cfg, vol), Outputs(held, rb, dates, cfg, vol);
    ScaledCovered(held, ra, rb, cfg, vol);
    if SameGaps(ra, rb) {
      SameBase(held, ra, rb);
    }
    forall i | 0 <= i < |held|
      ensures wa == wb ==> SameTrade(outA[i], outB[i])
      ensures wa == wb ==> (outA[i] == outB[i] <==> (AnyCell(ra[i]) <==> AnyCell(rb[i])))
      ensures outA[i] == outB[i] ==> (AnyCell(ra[i]) <==> AnyCell(rb[i]))
    {
      OutputRowsTrade(wa, ra, rb, dates, i, cfg);
      CoveredLengths(wa, ra, rb, i);
      CoveredLengths(held, ra, rb, i);
      OutputRowGross(wa, ra, dates, i, cfg);
      OutputRowGross(wb, rb, dates, i, cfg);
    }
    if outA == outB {
      assert forall i :: 0 <= i < |held| ==> outA[i] == outB[i];
    }
  }

  lemma CoveredLengths(held: seq<Row>, ra: seq<Cells>, rb: seq<Cells>, i: nat)
    requires AllCovered(held, ra, rb) && i < |held|
    ensures |held[i]| == |ra[i]| == |rb[i]|
  {
  }

  // ----- prefixes of the outputs

  lemma ScaledPrefix(held: seq<Row>, rets: seq<Cells>, cfg: Config, vol: Volatility, n: nat)
    requires |held| == |rets| && n <= |held|
    ensures Scaled(held[..n], rets[..n], cfg, vol) == Scaled(held, rets, cfg, vol)[..n]
  {
    hide Enforce, Earned, ScaleSides, RMin;
    var base := BaseReturns(held, rets);
    assert BaseReturns(held[..n], rets[..n]) == base[..n];
    forall i | 0 <= i < n
      ensures Overlay(base[..n], i, cfg, vol) == Overlay(base, i, cfg, vol)
    {
      assert base[..n][Max(0, i - OVERLAY_WINDOW)..i] == base[Max(0, i - OVERLAY_WINDOW)..i];
    }
  }

  /** An output row reads its own and the previous weights and its own returns, nothing else. */
  lemma SameOutputRow(a: seq<Row>, b: seq<Row>, ra: seq<Cells>, rb: seq<Cells>, da: seq<int>, db: seq<int>, i: nat, cfg: Config)
    requires |a| == |ra| == |da| && |b| == |rb| == |db| && i < |a| && i < |b|
    requires a[i] == b[i] && ra[i] == rb[i] && da[i] == db[i] && (i > 0 ==> a[i - 1] == b[i - 1])
    ensures OutputRow(a, ra, da, i, cfg) == OutputRow(b, rb, db, i, cfg)
  {
    hide Moved, Earned, Cost;
    var before := if i == 0 then [] else a[i - 1];
    assert before == if i == 0 then [] else b[i - 1];
  }

  lemma OutputsPrefix(held: seq<Row>, rets: seq<Cells>, dates: seq<int>, cfg: Config, vol: Volatility, n: nat)
    requires |held| == |rets| == |dates| && n <= |held|
    ensures Outputs(held[..n], rets[..n], dates[..n], cfg, vol) == Outputs(held, rets, dates, cfg, vol)[..n]
  {
    hide Scaled, OutputRow;
    ScaledPrefix(held, rets, cfg, vol, n);
    var weights := Scaled(held, rets, cfg, vol);
    forall i | 0 <= i < n
      ensures OutputRow(weights[..n], rets[..n], dates[..n], i, cfg) == OutputRow(weights, rets, dates, i, cfg)
    {
      SameOutputRow(weights[..n], weights, rets[..n], rets, dates[..n], dates, i, cfg);
    }
  }

  /** The part of the calendar on which output rows up to k are earned. */
  function Earning(m: Market, lag: nat, k: nat): (r: seq<ReturnRow>)
    requires m.signals != [] && k + lag < |CalendarOf(m, lag)|
    ensures |r| == k + 1
  {
    CalendarOf(m, lag)[lag..k + lag + 1]
  }

  lemma RunPrefix(m: Market, cfg: Config, order: Arrangement, vol: Volatility, k: nat)
    requires Run(m, cfg, order, vol).Ok? && k < |Run(m, cfg, order, vol).value|
    ensures m.signals != [] && k + cfg.lag < |CalendarOf(m, cfg.lag)|
    ensures Run(m, cfg, order, vol).value[..k + 1]
         == Outputs(Desired(Reindexed(m, CalendarOf(m, cfg.lag)[..k + 1]), cfg, order, |m.names|),
                    Aligned(m, Earning(m, cfg.lag, k)), Dates(Earning(m, cfg.lag, k)), cfg, vol)
  {
    hide *;
    RunParts(m, cfg, order, vol);
    HeldPrefix(m, cfg, order, k);
    EarningPrefix(m, cfg.lag, k);
    var rest := CalendarOf(m, cfg.lag)[cfg.lag..];
    OutputsPrefix(Held(m, cfg, order), Aligned(m, rest), Dates(rest), cfg, vol, k + 1);
  }

  lemma HeldPrefix(m: Market, cfg: Config, order: Arrangement, k: nat)
    requires m.signals != [] && k + cfg.lag < |CalendarOf(m, cfg.lag)|
    ensures Held(m, cfg, order)[..k + 1] == Desired(Reindexed(m, CalendarOf(m, cfg.lag)[..k + 1]), cfg, order, |m.names|)
  {
    hide CalendarOf, Desired, Restricted, Lookup;
    var cal := CalendarOf(m, cfg.lag);
    DesiredPrefix(Reindexed(m, cal), cfg, order, |m.names|, k + 1);
    assert Reindexed(m, cal)[..k + 1] == Reindexed(m, cal[..k + 1]);
  }

  lemma EarningPrefix(m: Market, lag: nat, k: nat)
    requires m.signals != [] && k + lag < |CalendarOf(m, lag)|
    ensures Aligned(m, CalendarOf(m, lag)[lag..])[..k + 1] == Aligned(m, Earning(m, lag, k))
    ensures Dates(CalendarOf(m, lag)[lag..])[..k + 1] == Dates(Earning(m, lag, k))
  {
    hide CalendarOf, Restricted;
    assert CalendarOf(m, lag)[lag..][..k + 1] == Earning(m, lag, k);
  }

  // ----- what is held on a day

  /** The calendar: the days from the first signal up to the last one, and as many more as the lag needs. */
  lemma CalendarExact(m: Market, lag: nat) returns (start: nat, end: nat, stop: nat)
    requires m.Valid() && m.signals != []
    ensures start <= |m.history| && end <= |m.history| && stop == if end + lag <= |m.history| then end + lag else |m.history|
    ensures CalendarOf(m, lag) == if start <= stop then m.history[start..stop] else []
    ensures forall i :: 0 <= i < |m.history| ==> (m.history[i].date < m.signals[0].date <==> i < start)
    ensures forall i :: 0 <= i < |m.history| ==> (m.history[i].date <= m.signals[|m.signals| - 1].date <==> i < end)
  {
    hide StrLe, CountBefore, CountUpTo;
    start := CountBefore(m.history, m.signals[0].date);
    end := CountUpTo(m.history, m.signals[|m.signals| - 1].date);
    CountBeforeSplits(m.history, m.signals[0].date);
    CountUpToSplits(m.history, m.signals[|m.signals| - 1].date);
    stop := Min(|m.history|, end + lag);
  }

  /** The score of a ticker in a row of scores, if it is a common column and has one. */
  function ScoreOf(m: Market, cells: map<string, real>, c: nat): Option<real>
    requires c < |m.names|
  {
    if m.names[c] in m.signalColumns && m.names[c] in m.columns && m.names[c] in cells then Some(cells[m.names[c]]) else None
  }

  function ScoresIn(m: Market, cells: map<string, real>): (s: Scores)
    ensures |s| == |m.names| && forall c :: 0 <= c < |s| ==> s[c] == ScoreOf(m, cells, c)
  {
    seq(|m.names|, c requires 0 <= c < |m.names| => ScoreOf(m, cells, c))
  }

  /** Row r of the signals is the last one dated on a day of the calendar up to day i. */
  ghost predicate LastSignal(m: Market, cal: seq<ReturnRow>, i: nat, r: nat)
    requires i < |cal|
  {
    && r < |m.signals| && (exists k :: 0 <= k <= i && cal[k].date == m.signals[r].date)
    && forall q, k :: 0 <= q < |m.signals| && 0 <= k <= i && cal[k].date == m.signals[q].date ==> q <= r
  }

  ghost predicate NoSignal(m: Market, cal: seq<ReturnRow>, i: nat)
    requires i < |cal|
  {
    forall q, k :: 0 <= q < |m.signals| && 0 <= k <= i ==> cal[k].date != m.signals[q].date
  }

  lemma {:induction false} LookupExact(signals: seq<SignalRow>, date: int)
    requires forall i, j :: 0 <= i < j < |signals| ==> signals[i].date < signals[j].date
    ensures Lookup(signals, date).Some? <==> exists q :: 0 <= q < |signals| && signals[q].date == date
    ensures forall q :: 0 <= q < |signals| && signals[q].date == date ==> Lookup(signals, date) == Some(signals[q].scores)
  {
    if signals != [] {
      assert forall i :: 0 <= i < |signals[1..]| ==> signals[1..][i] == signals[i + 1];
      LookupExact(signals[1..], date);
      if q :| 0 <= q < |signals| && signals[q].date == date && q > 0 {
        assert signals[1..][q - 1].date == date;
      }
    }
  }

  lemma RestrictedIs(m: Market, cells: map<string, real>)
    ensures Restricted(m, cells) == ScoresIn(m, cells)
  {
  }

  /** Where the last scored row up to i sets the target, and where there is none nothing is held yet. */
  lemma {:induction false} TargetsExact(prev: Row, scores: seq<Option<Scores>>, cfg: Config, order: Arrangement, i: nat, k: nat)
    requires k <= i < |scores| && forall j :: k < j <= i ==> scores[j].None?
    ensures scores[k].Some? ==>
              Targets(prev, scores, cfg, order)[i] == Enforce(TargetWeights(scores[k].value, cfg, order), cfg.limits)
    ensures scores[k].None? && k == 0 ==> Targets(prev, scores, cfg, order)[i] == prev
    decreases |scores|
  {
    hide Enforce, TargetWeights;
    var current := Targets(prev, scores, cfg, order)[0];
    if i > 0 {
      assert forall j :: 0 <= j < |scores[1..]| ==> scores[1..][j] == scores[j + 1];
      if k > 0 {
        TargetsExact(current, scores[1..], cfg, order, i - 1, k - 1);
      } else {
        CarriedForward(current, scores[1..], cfg, order, i - 1);
      }
    }
  }

  lemma {:induction false} CarriedForward(prev: Row, scores: seq<Option<Scores>>, cfg: Config, order: Arrangement, i: nat)
    requires i < |scores| && forall j :: 0 <= j <= i ==> scores[j].None?
    ensures Targets(prev, scores, cfg, order)[i] == prev
    decreases |scores|
  {
    hide Enforce, TargetWeights;
    if i > 0 {
      assert forall j :: 0 <= j < |scores[1..]| ==> scores[1..][j] == scores[j + 1];
      CarriedForward(prev, scores[1..], cfg, order, i - 1);
    }
  }

  /** The target of a calendar day: that of the last signal up to it, within the limits; zero before the first. */
  lemma TargetOfDay(m: Market, cal: seq<ReturnRow>, cfg: Config, order: Arrangement, i: nat)
    requires m.Valid() && i < |cal| && (forall a, b :: 0 <= a < b < |cal| ==> cal[a].date < cal[b].date)
    ensures forall r: nat :: LastSignal(m, cal, i, r) ==>
              Targets(Zeros(|m.names|), Reindexed(m, cal), cfg, order)[i]
              == Enforce(TargetWeights(ScoresIn(m, m.signals[r].scores), cfg, order), cfg.limits)
    ensures NoSignal(m, cal, i) ==> Targets(Zeros(|m.names|), Reindexed(m, cal), cfg, order)[i] == Zeros(|m.names|)
  {
    hide Enforce, TargetWeights, StrLe, Lookup;
    var scores := Reindexed(m, cal);
    forall k | 0 <= k < |cal|
      ensures scores[k].Some? <==> exists q :: 0 <= q < |m.signals| && m.signals[q].date == cal[k].date
      ensures forall q :: 0 <= q < |m.signals| && m.signals[q].date == cal[k].date ==>
                            scores[k] == Some(ScoresIn(m, m.signals[q].scores))
    {
      LookupExact(m.signals, cal[k].date);
      forall q | 0 <= q < |m.signals| && m.signals[q].date == cal[k].date
        ensures scores[k] == Some(ScoresIn(m, m.signals[q].scores))
      {
        RestrictedIs(m, m.signals[q].scores);
      }
    }
    forall r: nat | LastSignal(m, cal, i, r)
      ensures Targets(Zeros(|m.names|), scores, cfg, order)[i]
           == Enforce(TargetWeights(ScoresIn(m, m.signals[r].scores), cfg, order), cfg.limits)
    {
      var k :| 0 <= k <= i && cal[k].date == m.signals[r].date;
      forall j | k < j <= i
        ensures scores[j].None?
      {
        assert forall q :: 0 <= q <= r ==> m.signals[q].date <= cal[k].date < cal[j].date;
      }
      TargetsExact(Zeros(|m.names|), scores, cfg, order, i, k);
    }
    if NoSignal(m, cal, i) {
      CarriedForward(Zeros(|m.names|), scores, cfg, order, i);
    }
  }

  lemma CalendarAscends(m: Market, lag: nat)
    requires m.Valid() && m.signals != []
    ensures forall a, b :: 0 <= a < b < |CalendarOf(m, lag)| ==> CalendarOf(m, lag)[a].date < CalendarOf(m, lag)[b].date
  {
    hide StrLe;
    var start, end, stop := CalendarExact(m, lag);
    hide CalendarOf;
    if start <= stop {
      assert forall a :: 0 <= a < |CalendarOf(m, lag)| ==> CalendarOf(m, lag)[a] == m.history[start + a];
    }
  }

  lemma DesiredUnbanded(scores: seq<Option<Scores>>, cfg: Config, order: Arrangement, tickers: nat, i: nat)
    requires i < |scores| && cfg.rebalanceThreshold <= 0.0
    ensures Desired(scores, cfg, order, tickers)[i] == Enforce(Targets(Zeros(tickers), scores, cfg, order)[i], cfg.limits)
  {
    hide Enforce, Targets;
  }

  lemma EnforceZeros(n: nat, limits: Limits)
    requires limits.Valid()
    ensures Enforce(Zeros(n), limits) == Zeros(n)
  {
    hide Enforce;
    EnforceMeetsLimits(Zeros(n), limits);
  }

  /**
   * Without a band, what is held over output day i was decided lag days before it: the target of the last signal up
   * to that decision day, within the limits; before the first signal nothing is held.
   */
  lemma HeldExact(m: Market, cfg: Config, order: Arrangement, i: nat)
    requires m.Valid() && cfg.Valid() && cfg.rebalanceThreshold <= 0.0 && m.signals != []
    requires |CalendarOf(m, cfg.lag)| > cfg.lag + i
    ensures forall r: nat :: LastSignal(m, CalendarOf(m, cfg.lag), i, r) ==>
              Held(m, cfg, order)[i] == Enforce(TargetWeights(ScoresIn(m, m.signals[r].scores), cfg, order), cfg.limits)
    ensures NoSignal(m, CalendarOf(m, cfg.lag), i) ==> Held(m, cfg, order)[i] == Zeros(|m.names|)
  {
    hide CalendarOf, Desired, Targets, Enforce, TargetWeights, NoSignal, StrLe, Reindexed;
    var cal := CalendarOf(m, cfg.lag);
    CalendarAscends(m, cfg.lag);
    TargetOfDay(m, cal, cfg, order, i);
    DesiredUnbanded(Reindexed(m, cal), cfg, order, |m.names|, i);
    EnforceZeros(|m.names|, cfg.limits);
    forall r: nat | LastSignal(m, cal, i, r)
      ensures Held(m, cfg, order)[i] == Enforce(TargetWeights(ScoresIn(m, m.signals[r].scores), cfg, order), cfg.limits)
    {
      EnforceIdempotent(TargetWeights(ScoresIn(m, m.signals[r].scores), cfg, order), cfg.limits);
    }
  }

  /** With a band: the targets pass through it, from nothing held, and through the limits once more. */
  lemma HeldBanded(m: Market, cfg: Config, order: Arrangement, i: nat)
    requires cfg.rebalanceThreshold > 0.0 && m.signals != [] && |CalendarOf(m, cfg.lag)| > cfg.lag + i
    ensures var targets := Targets(Zeros(|m.names|), Reindexed(m, CalendarOf(m, cfg.lag)), cfg, order);
            Held(m, cfg, order)[i] == Enforce(Banded(Zeros(|m.names|), targets, cfg.rebalanceThreshold)[i], cfg.limits)
  {
    hide CalendarOf, Targets, Enforce, Reindexed, Banded;
  }

  /** The multiplier of the volatility overlay, from the volatility of the days before. */
  function Multiplier(v: Option<real>, target: real): real {
    if v.None? then 1.0
    else if v.value <= 0.0 then 3.0
    else if target / v.value > 3.0 then 3.0 else target / v.value
  }

  /** The day of the calendar on which output row i is earned. */
  function OutDay(m: Market, lag: nat, i: nat): ReturnRow
    requires m.signals != [] && lag + i < |CalendarOf(m, lag)|
  {
    CalendarOf(m, lag)[lag + i]
  }

  /** What the unscaled weights earned on the given number of days before day i. */
  ghost predicate EarnedBefore(m: Market, cfg: Config, order: Arrangement, i: nat, window: seq<Option<real>>)
    requires m.signals != [] && cfg.lag + i < |CalendarOf(m, cfg.lag)| && |window| <= i
  {
    forall k :: 0 <= k < |window| ==>
                  window[k] == Earned(Held(m, cfg, order)[i - |window| + k], ReturnsOn(m, OutDay(m, cfg.lag, i - |window| + k)))
  }

  lemma RowsAligned(m: Market, lag: nat, i: nat)
    requires m.signals != [] && lag + i < |CalendarOf(m, lag)|
    ensures Aligned(m, CalendarOf(m, lag)[lag..])[i] == ReturnsOn(m, OutDay(m, lag, i))
  {
    hide CalendarOf;
    AlignedIs(m, CalendarOf(m, lag)[lag..], i);
  }

  lemma WindowEarned(m: Market, cfg: Config, order: Arrangement, i: nat) returns (window: seq<Option<real>>)
    requires m.signals != [] && cfg.lag + i < |CalendarOf(m, cfg.lag)|
    ensures |window| == (if i < 63 then i else 63) && EarnedBefore(m, cfg, order, i, window)
    ensures window == BaseReturns(Held(m, cfg, order), Aligned(m, CalendarOf(m, cfg.lag)[cfg.lag..]))[Max(0, i - OVERLAY_WINDOW)..i]
  {
    hide CalendarOf, Held, ReturnsOn, Earned, OutDay, Aligned;
    window := BaseReturns(Held(m, cfg, order), Aligned(m, CalendarOf(m, cfg.lag)[cfg.lag..]))[Max(0, i - OVERLAY_WINDOW)..i];
    forall k | 0 <= k < |window|
      ensures window[k] == Earned(Held(m, cfg, order)[i - |window| + k], ReturnsOn(m, OutDay(m, cfg.lag, i - |window| + k)))
    {
      RowsAligned(m, cfg.lag, i - |window| + k);
    }
  }

  /**
   * What a row of the result holds: the decided weights as they are, or, under volatility targeting, those weights at
   * the multiplier and within the limits, the volatility being that of what the unscaled weights earned on the 63
   * days before, the day itself excluded.
   */
  lemma WeightsExact(m: Market, cfg: Config, order: Arrangement, vol: Volatility, i: nat) returns (window: seq<Option<real>>)
    requires Run(m, cfg, order, vol).Ok? && i < |Run(m, cfg, order, vol).value|
    ensures m.signals != [] && cfg.lag + i < |CalendarOf(m, cfg.lag)|
    ensures |window| == (if i < 63 then i else 63) && EarnedBefore(m, cfg, order, i, window)
    ensures Run(m, cfg, order, vol).value[i].weights
         == if cfg.sizing.VolTarget? then
              Enforce(Levered(Held(m, cfg, order)[i], Multiplier(vol(window), cfg.volTargetAnnual)), cfg.limits)
            else Held(m, cfg, order)[i]
  {
    RunParts(m, cfg, order, vol);
    hide Run, Held, CalendarOf, Enforce, Aligned, ScaleSides, Levered, EarnedBefore, BaseReturns, Overlay, Multiplier;
    var days := CalendarOf(m, cfg.lag)[cfg.lag..];
    var held, rets := Held(m, cfg, order), Aligned(m, days);
    window := WindowEarned(m, cfg, order, i);
    RowWeightsAre(Scaled(held, rets, cfg, vol), rets, Dates(days), i, cfg);
    OverlayIs(BaseReturns(held, rets), i, cfg, vol);
    LeveredIs(held[i], Multiplier(vol(window), cfg.volTargetAnnual));
  }

  /** Each weight times the multiplier. */
  function Levered(w: Row, lev: real): (r: Row)
    ensures |r| == |w| && forall c :: 0 <= c < |w| ==> r[c] == Times(w[c], lev)
  {
    seq(|w|, c requires 0 <= c < |w| => Times(w[c], lev))
  }

  lemma LeveredIs(w: Row, lev: real)
    ensures ScaleSides(w, lev, lev) == Levered(w, lev)
  {
    hide SideEntry, Times;
    forall c | 0 <= c < |w|
      ensures ScaleSides(w, lev, lev)[c] == Levered(w, lev)[c]
    {
      SideOf(w[c], lev, lev);
    }
  }

  lemma OverlayIs(base: seq<Option<real>>, i: nat, cfg: Config, vol: Volatility)
    requires i <= |base|
    ensures Overlay(base, i, cfg, vol) == Multiplier(vol(base[Max(0, i - OVERLAY_WINDOW)..i]), cfg.volTargetAnnual)
  {
  }

  /** On output day i something is held of ticker c that has no return. */
  ghost predicate Stranded(m: Market, cfg: Config, order: Arrangement, i: nat, c: nat)
    requires m.signals != [] && cfg.lag + i < |CalendarOf(m, cfg.lag)| && c < |m.names|
  {
    && ReturnsOn(m, OutDay(m, cfg.lag, i))[c].None?
    && (At(Held(m, cfg, order)[i], c) > 0.000000000001 || At(Held(m, cfg, order)[i], c) < -0.000000000001)
  }

  lemma StrandedIff(m: Market, cfg: Config, order: Arrangement, i: nat)
    requires m.signals != [] && cfg.lag + i < |CalendarOf(m, cfg.lag)|
    ensures Unavailable(Held(m, cfg, order)[i], Aligned(m, CalendarOf(m, cfg.lag)[cfg.lag..])[i])
            <==> exists c :: 0 <= c < |m.names| && Stranded(m, cfg, order, i, c)
  {
    hide CalendarOf, Held, Aligned, ReturnsOn, OutDay;
    RowsAligned(m, cfg.lag, i);
    HeldRowWidth(m, cfg, order, i);
    var w, r := Held(m, cfg, order)[i], ReturnsOn(m, OutDay(m, cfg.lag, i));
    if Unavailable(w, r) {
      var c :| 0 <= c < |w| && c < |r| && r[c].None? && Abs(w[c]) > 0.000000000001;
      assert Stranded(m, cfg, order, i, c);
    }
  }

  lemma BenchmarkIff(m: Market, lag: nat)
    requires m.signals != [] && |CalendarOf(m, lag)| > lag
    ensures (exists i :: lag <= i < |CalendarOf(m, lag)| && CalendarOf(m, lag)[i].benchmark.None?)
            <==> exists i :: 0 <= i < |CalendarOf(m, lag)| - lag && OutDay(m, lag, i).benchmark.None?
  {
    hide CalendarOf;
    var cal := CalendarOf(m, lag);
    if i :| lag <= i < |cal| && cal[i].benchmark.None? {
      assert OutDay(m, lag, i - lag).benchmark.None?;
    }
  }

  /**
   * When a backtest succeeds: some ticker is common to both tables, the calendar is longer than the lag, no position
   * over 1e-12 meets a missing return on a day it is held, and the benchmark has a return on every output day.
   */
  lemma RunIff(m: Market, cfg: Config, order: Arrangement, vol: Volatility)
    ensures Run(m, cfg, order, vol).Ok? <==>
              && m.signals != [] && (exists c :: 0 <= c < |m.names| && m.names[c] in m.signalColumns && m.names[c] in m.columns)
              && |CalendarOf(m, cfg.lag)| > cfg.lag
              && (forall i, c :: 0 <= i < |CalendarOf(m, cfg.lag)| - cfg.lag && 0 <= c < |m.names| ==> !Stranded(m, cfg, order, i, c))
              && (forall i :: 0 <= i < |CalendarOf(m, cfg.lag)| - cfg.lag ==> OutDay(m, cfg.lag, i).benchmark.Some?)
    ensures Run(m, cfg, order, vol).Ok? ==> |Run(m, cfg, order, vol).value| == |CalendarOf(m, cfg.lag)| - cfg.lag
  {
    hide CalendarOf, Held, Outputs, Aligned, Stranded, OutDay, Unavailable;
    SharedIs(m);
    if m.signals != [] && |CalendarOf(m, cfg.lag)| > cfg.lag {
      NoneStranded(m, cfg, order);
      BenchmarkIff(m, cfg.lag);
    }
  }

  lemma NoneStranded(m: Market, cfg: Config, order: Arrangement)
    requires m.signals != [] && |CalendarOf(m, cfg.lag)| > cfg.lag
    ensures var held, rets := Held(m, cfg, order), Aligned(m, CalendarOf(m, cfg.lag)[cfg.lag..]);
            (exists i :: 0 <= i < |held| && Unavailable(held[i], rets[i]))
            <==> exists i, c :: 0 <= i < |CalendarOf(m, cfg.lag)| - cfg.lag && 0 <= c < |m.names| && Stranded(m, cfg, order, i, c)
  {
    hide CalendarOf, Held, Aligned, Stranded, Unavailable;
    var held, rets := Held(m, cfg, order), Aligned(m, CalendarOf(m, cfg.lag)[cfg.lag..]);
    forall i | 0 <= i < |held|
      ensures Unavailable(held[i], rets[i]) <==> exists c :: 0 <= c < |m.names| && Stranded(m, cfg, order, i, c)
    {
      StrandedIff(m, cfg, order, i);
    }
    if i :| 0 <= i < |held| && Unavailable(held[i], rets[i]) {
      var c :| 0 <= c < |m.names| && Stranded(m, cfg, order, i, c);
    }
    if i, c :| 0 <= i < |CalendarOf(m, cfg.lag)| - cfg.lag && 0 <= c < |m.names| && Stranded(m, cfg, order, i, c) {
      assert Unavailable(held[i], rets[i]);
    }
  }

  lemma SharedIs(m: Market)
    ensures (exists c :: 0 <= c < |m.names| && m.Shared(c))
            <==> exists c :: 0 <= c < |m.names| && m.names[c] in m.signalColumns && m.names[c] in m.columns
  {
    if c :| 0 <= c < |m.names| && m.names[c] in m.signalColumns && m.names[c] in m.columns {
      assert m.Shared(c);
    }
  }

  /** A weight, or nothing outside the row. */
  function At(w: Row, c: nat): real {
    if c < |w| then w[c] else 0.0
  }

  lemma HeldRowWidth(m: Market, cfg: Config, order: Arrangement, i: nat)
    requires m.signals != [] && |CalendarOf(m, cfg.lag)| > cfg.lag + i
    ensures |Held(m, cfg, order)[i]| == |m.names|
  {
    hide CalendarOf, Desired;
    HeldWidth(m, CalendarOf(m, cfg.lag), cfg, order, i);
  }

  // ----- no lookahead, and where there is some

  /** What is known by output row k: the start, the scores one lag before each row, and the returns up to that row. */
  ghost predicate SeenAlike(a: Market, b: Market, lag: nat, k: nat) {
    && a.names == b.names && a.signals != [] && b.signals != [] && a.signals[0].date == b.signals[0].date
    && k + lag < |CalendarOf(a, lag)| && k + lag < |CalendarOf(b, lag)|
    && ReturnsUpTo(a.history, CalendarOf(a, lag)[k + lag].date) == ReturnsUpTo(b.history, CalendarOf(a, lag)[k + lag].date)
    && forall i :: 0 <= i <= k ==>
         Lookup(a.signals, CalendarOf(a, lag)[i].date) == Lookup(b.signals, CalendarOf(a, lag)[i].date)
  }

  /** Every ticker scored by then is a column of one panel exactly when it is a column of the other. */
  ghost predicate SameColumns(a: Market, b: Market, lag: nat, k: nat)
    requires a.signals != [] && k < |CalendarOf(a, lag)|
  {
    forall i, t :: 0 <= i <= k && ScoredOn(a, CalendarOf(a, lag)[i].date, t) ==> (t in a.columns <==> t in b.columns)
  }

  predicate ScoredOn(m: Market, date: int, t: string) {
    Lookup(m.signals, date).Some? && t in Lookup(m.signals, date).value
  }

  lemma {:induction false} LookupIn(signals: seq<SignalRow>, date: int) returns (i: nat)
    requires Lookup(signals, date).Some?
    ensures i < |signals| && signals[i].scores == Lookup(signals, date).value
  {
    if signals[0].date == date {
      i := 0;
    } else {
      i := LookupIn(signals[1..], date);
      i := i + 1;
    }
  }

  lemma ScoredIsSignalColumn(m: Market, date: int, t: string)
    requires m.Valid() && ScoredOn(m, date, t)
    ensures t in m.signalColumns
  {
    hide StrLe;
    var i := LookupIn(m.signals, date);
    assert t in m.signals[i].scores.Keys;
  }

  lemma SameCalendar(a: Market, b: Market, lag: nat, k: nat)
    requires a.Valid() && b.Valid() && SeenAlike(a, b, lag, k)
    ensures CalendarOf(a, lag)[..k + lag + 1] == CalendarOf(b, lag)[..k + lag + 1]
    ensures Earning(a, lag, k) == Earning(b, lag, k)
    ensures CalendarOf(a, lag)[..k + 1] == CalendarOf(b, lag)[..k + 1]
  {
    CalendarsAgree(a, b, lag, k + lag + 1, CalendarOf(a, lag)[k + lag].date);
    hide CalendarOf;
    var x, y := CalendarOf(a, lag), CalendarOf(b, lag);
    assert x[lag..k + lag + 1] == x[..k + lag + 1][lag..] && y[lag..k + lag + 1] == y[..k + lag + 1][lag..];
    assert x[..k + 1] == x[..k + lag + 1][..k + 1] && y[..k + 1] == y[..k + lag + 1][..k + 1];
  }

  lemma SameScores(a: Market, b: Market, lag: nat, k: nat)
    requires a.Valid() && b.Valid() && SeenAlike(a, b, lag, k) && SameColumns(a, b, lag, k)
    ensures Reindexed(a, CalendarOf(a, lag)[..k + 1]) == Reindexed(b, CalendarOf(b, lag)[..k + 1])
  {
    SameCalendar(a, b, lag, k);
    hide CalendarOf, Lookup, StrLe, ReturnsUpTo;
    var cal := CalendarOf(a, lag)[..k + 1];
    forall i | 0 <= i < |cal|
      ensures Reindexed(a, cal)[i] == Reindexed(b, cal)[i]
    {
      assert cal[i] == CalendarOf(a, lag)[i];
      var found := Lookup(a.signals, cal[i].date);
      if found.Some? {
        SameRestriction(a, b, cal[i].date);
      }
    }
  }

  lemma SameRestriction(a: Market, b: Market, date: int)
    requires a.Valid() && b.Valid() && a.names == b.names
    requires Lookup(a.signals, date) == Lookup(b.signals, date) && Lookup(a.signals, date).Some?
    requires forall t :: ScoredOn(a, date, t) ==> (t in a.columns <==> t in b.columns)
    ensures Restricted(a, Lookup(a.signals, date).value) == Restricted(b, Lookup(a.signals, date).value)
  {
    hide Lookup, StrLe;
    var cells := Lookup(a.signals, date).value;
    forall c | 0 <= c < |a.names| && a.names[c] in cells
      ensures a.Shared(c) == b.Shared(c)
    {
      assert ScoredOn(a, date, a.names[c]) && ScoredOn(b, date, a.names[c]);
      ScoredIsSignalColumn(a, date, a.names[c]);
      ScoredIsSignalColumn(b, date, a.names[c]);
    }
  }

  /** A column held by row k was scored by then, so it is common to both runs. */
  lemma HeldIsShared(a: Market, b: Market, cfg: Config, order: Arrangement, k: nat, i: nat, c: nat)
    requires cfg.Valid() && Arranges(order) && a.Valid() && b.Valid()
    requires SeenAlike(a, b, cfg.lag, k) && SameColumns(a, b, cfg.lag, k) && i <= k && c < |a.names|
    ensures |Desired(Reindexed(a, CalendarOf(a, cfg.lag)[..k + 1]), cfg, order, |a.names|)[i]| == |a.names|
    ensures Desired(Reindexed(a, CalendarOf(a, cfg.lag)[..k + 1]), cfg, order, |a.names|)[i][c] != 0.0
            ==> a.Shared(c) && b.Shared(c)
  {
    hide CalendarOf, Desired, Arranges, Lookup, StrLe, ReturnsUpTo;
    var cal := CalendarOf(a, cfg.lag)[..k + 1];
    var scores := Reindexed(a, cal);
    DesiredLength(scores, cfg, order, |a.names|, i);
    if NeverScored(scores, |a.names|, c) {
      DesiredUnscored(scores, cfg, order, |a.names|, c, i);
    } else {
      var j :| 0 <= j < |scores| && scores[j].Some? && scores[j].value[c].Some?;
      assert cal[j] == CalendarOf(a, cfg.lag)[j];
      assert ScoredOn(a, cal[j].date, a.names[c]) && ScoredOn(b, cal[j].date, a.names[c]);
      ScoredIsSignalColumn(b, cal[j].date, a.names[c]);
    }
  }

  lemma {:induction false} TargetsLength(prev: Row, scores: seq<Option<Scores>>, cfg: Config, order: Arrangement)
    requires forall i :: 0 <= i < |scores| && scores[i].Some? ==> |scores[i].value| == |prev|
    ensures forall i :: 0 <= i < |scores| ==> |Targets(prev, scores, cfg, order)[i]| == |prev|
    decreases |scores|
  {
    hide Enforce, TargetWeights;
    if scores != [] {
      assert forall i :: 0 <= i < |scores[1..]| ==> scores[1..][i] == scores[i + 1];
      TargetsLength(Targets(prev, scores, cfg, order)[0], scores[1..], cfg, order);
    }
  }

  lemma {:induction false} BandedLength(prev: Row, rows: seq<Row>, threshold: real)
    ensures forall i :: 0 <= i < |rows| ==> |Banded(prev, rows, threshold)[i]| == |rows[i]|
    decreases |rows|
  {
    if rows != [] {
      BandedLength(BandRow(prev, rows[0], threshold), rows[1..], threshold);
    }
  }

  lemma DesiredLength(scores: seq<Option<Scores>>, cfg: Config, order: Arrangement, tickers: nat, i: nat)
    requires i < |scores|
    requires forall i :: 0 <= i < |scores| && scores[i].Some? ==> |scores[i].value| == tickers
    ensures |Desired(scores, cfg, order, tickers)[i]| == tickers
  {
    hide Enforce, Targets, Banded;
    TargetsLength(Zeros(tickers), scores, cfg, order);
    BandedLength(Zeros(tickers), Targets(Zeros(tickers), scores, cfg, order), cfg.rebalanceThreshold);
  }

  lemma HoldingsCovered(a: Market, b: Market, cfg: Config, order: Arrangement, k: nat)
    requires cfg.Valid() && Arranges(order) && a.Valid() && b.Valid()
    requires SeenAlike(a, b, cfg.lag, k) && SameColumns(a, b, cfg.lag, k)
    ensures AllCovered(Desired(Reindexed(a, CalendarOf(a, cfg.lag)[..k + 1]), cfg, order, |a.names|),
                       Aligned(a, Earning(a, cfg.lag, k)), Aligned(b, Earning(a, cfg.lag, k)))
  {
    hide CalendarOf, Desired, Arranges, Lookup, StrLe, ReturnsUpTo, SameColumns, Reindexed;
    var held := Desired(Reindexed(a, CalendarOf(a, cfg.lag)[..k + 1]), cfg, order, |a.names|);
    var days := Earning(a, cfg.lag, k);
    forall i | 0 <= i < |held|
      ensures Covered(held[i], Aligned(a, days)[i], Aligned(b, days)[i])
    {
      HeldWidth(a, CalendarOf(a, cfg.lag)[..k + 1], cfg, order, i);
      forall c | 0 <= c < |held[i]| && held[i][c] != 0.0
        ensures Aligned(a, days)[i][c] == Aligned(b, days)[i][c]
      {
        HeldIsShared(a, b, cfg, order, k, i, c);
      }
    }
  }

  lemma HeldWidth(m: Market, cal: seq<ReturnRow>, cfg: Config, order: Arrangement, i: nat)
    requires i < |cal|
    ensures |Desired(Reindexed(m, cal), cfg, order, |m.names|)[i]| == |m.names|
  {
    hide Desired, Lookup;
    DesiredLength(Reindexed(m, cal), cfg, order, |m.names|, i);
  }

  /** Some common ticker has a return on the day output row j is earned. */
  ghost predicate AnyReturn(m: Market, lag: nat, j: nat)
    requires m.signals != [] && j + lag < |CalendarOf(m, lag)|
  {
    AnyCell(Restricted(m, CalendarOf(m, lag)[j + lag].values))
  }

  /**
   * No lookahead, exactly. Let two successful runs have seen the same by output row k, and let every ticker scored
   * by then be a column of both panels or of neither. Then all rows up to k agree - weights, turnover, cost, gross
   * and net - if and only if the same days have a return for some common ticker; and without the volatility overlay
   * dates, weights, turnover and cost agree in any case.
   */
  lemma NoLookahead(a: Market, b: Market, cfg: Config, order: Arrangement, vol: Volatility, k: nat)
    requires cfg.Valid() && Arranges(order) && a.Valid() && b.Valid()
    requires Run(a, cfg, order, vol).Ok? && Run(b, cfg, order, vol).Ok?
    requires k < |Run(a, cfg, order, vol).value| && k < |Run(b, cfg, order, vol).value|
    requires SeenAlike(a, b, cfg.lag, k) && SameColumns(a, b, cfg.lag, k)
    ensures Run(a, cfg, order, vol).value[..k + 1] == Run(b, cfg, order, vol).value[..k + 1]
            <==> forall j :: 0 <= j <= k ==> (AnyReturn(a, cfg.lag, j) <==> AnyReturn(b, cfg.lag, j))
    ensures !cfg.sizing.VolTarget? ==>
              forall j :: 0 <= j <= k ==>
                SameTrade(Run(a, cfg, order, vol).value[j], Run(b, cfg, order, vol).value[j])
  {
    hide *;
    RunPrefix(a, cfg, order, vol, k);
    RunPrefix(b, cfg, order, vol, k);
    SeenMeans(a, b, cfg.lag, k);
    SameCalendar(a, b, cfg.lag, k);
    SameScores(a, b, cfg.lag, k);
    HoldingsCovered(a, b, cfg, order, k);
    GapsAreDays(a, b, cfg.lag, k);
    var held := Desired(Reindexed(a, CalendarOf(a, cfg.lag)[..k + 1]), cfg, order, |a.names|);
    var days := Earning(a, cfg.lag, k);
    OutputsAgreeIff(held, Aligned(a, days), Aligned(b, days), Dates(days), cfg, vol);
    var outA, outB := Run(a, cfg, order, vol).value, Run(b, cfg, order, vol).value;
    assert forall j :: 0 <= j <= k ==> outA[..k + 1][j] == outA[j] && outB[..k + 1][j] == outB[j];
  }

  lemma SeenMeans(a: Market, b: Market, lag: nat, k: nat)
    requires SeenAlike(a, b, lag, k)
    ensures a.names == b.names && a.signals != [] && b.signals != []
    ensures k + lag < |CalendarOf(a, lag)| && k + lag < |CalendarOf(b, lag)|
  {
    hide CalendarOf, Lookup, ReturnsUpTo;
  }

  lemma GapsAreDays(a: Market, b: Market, lag: nat, k: nat)
    requires a.Valid() && b.Valid() && SeenAlike(a, b, lag, k)
    ensures SameGaps(Aligned(a, Earning(a, lag, k)), Aligned(b, Earning(a, lag, k)))
            <==> forall j :: 0 <= j <= k ==> (AnyReturn(a, lag, j) <==> AnyReturn(b, lag, j))
  {
    SameCalendar(a, b, lag, k);
    hide CalendarOf, Lookup, ReturnsUpTo, AnyCell, StrLe, AnyReturn, Aligned, Earning;
    var days := Earning(a, lag, k);
    forall j | 0 <= j <= k
      ensures AnyCell(Aligned(a, days)[j]) <==> AnyReturn(a, lag, j)
      ensures AnyCell(Aligned(b, days)[j]) <==> AnyReturn(b, lag, j)
    {
      DayOf(a, lag, k, j);
      DayOf(b, lag, k, j);
    }
  }

  lemma DayOf(m: Market, lag: nat, k: nat, j: nat)
    requires m.signals != [] && k + lag < |CalendarOf(m, lag)| && j <= k
    ensures AnyCell(Aligned(m, Earning(m, lag, k))[j]) <==> AnyReturn(m, lag, j)
  {
    hide CalendarOf, Restricted, AnyCell;
    assert Earning(m, lag, k)[j] == CalendarOf(m, lag)[j + lag];
  }

  // ----- the two ways later data reach an earlier row

  /** Long the better half of the names, in full, two days after the signal. */
  const HALF := Config(Limits(LongOnly, 1.0, 1.0), 0.5, Quantile, EqualWeight, 0.0, 2, 0.0, 0.0, 0.1)

  const LEAK_NAMES := ["A", "B", "X"]

  function Day(date: int, values: map<string, real>): ReturnRow {
    ReturnRow(date, values, Some(0.0))
  }

  /** Scores for A, B and X on day 0; the panel has a return of X only on day 3, after the only output row, or never. */
  function LateColumn(ra: real, rb: real, late: bool): Market {
    var both := map["A" := ra, "B" := rb];
    Market(LEAK_NAMES, [SignalRow(0, map["A" := 3.0, "B" := 2.0, "X" := 1.0])], {"A", "B", "X"},
           [Day(0, both), Day(1, both), Day(2, both), Day(3, if late then both["X" := 0.0] else both)],
           if late then {"A", "B", "X"} else {"A", "B"})
  }

  lemma LeakNamesOrdered()
    ensures forall i, j :: 0 <= i < j < |LEAK_NAMES| ==> StrLe(LEAK_NAMES[i], LEAK_NAMES[j]) && LEAK_NAMES[i] != LEAK_NAMES[j]
  {
    assert LEAK_NAMES[0][0] == 'A' && LEAK_NAMES[1][0] == 'B' && LEAK_NAMES[2][0] == 'X';
  }

  lemma LateColumnCalendar(ra: real, rb: real, late: bool)
    ensures var m := LateColumn(ra, rb, late);
            m.Valid() && CalendarOf(m, 2) == m.history[..3]
  {
    LeakNamesOrdered();
    var h := LateColumn(ra, rb, late).history;
    assert h[1..][0] == h[1];
    assert CountBefore(h, 0) == 0 && CountUpTo(h, 0) == 1;
  }

  /** The one score row of each run: X counts only if the panel ever has it. */
  lemma LateColumnScores(ra: real, rb: real, late: bool)
    ensures var m := LateColumn(ra, rb, late);
            && Reindexed(m, CalendarOf(m, 2)[..1]) == [Some([Some(3.0), Some(2.0), if late then Some(1.0) else None])]
            && Aligned(m, CalendarOf(m, 2)[2..]) == [[Some(ra), Some(rb), None]]
  {
    LateColumnCalendar(ra, rb, late);
    hide CalendarOf, StrLe;
    var m := LateColumn(ra, rb, late);
    assert Restricted(m, m.signals[0].scores) == [Some(3.0), Some(2.0), if late then Some(1.0) else None];
    assert Restricted(m, m.history[2].values) == [Some(ra), Some(rb), None];
  }

  lemma OneRowDesired(s: Scores, order: Arrangement)
    requires |s| == 3
    ensures Desired([Some(s)], HALF, order, 3) == [Enforce(Enforce(TargetWeights(s, HALF, order), HALF.limits), HALF.limits)]
  {
    hide Enforce, TargetWeights;
    var target := Enforce(TargetWeights(s, HALF, order), HALF.limits);
    assert [Some(s)][1..] == [];
    assert Targets(Zeros(3), [Some(s)], HALF, order) == [target];
  }

  /** With half the names long, two scored names give one pick and three give two. */
  lemma HalfPicks()
    ensures PickCount(2, 0.5) == 1 && PickCount(3, 0.5) == 2
  {
    assert (2 as real) * 0.5 == 1.0 && (3 as real) * 0.5 == 1.5;
    assert (1.0).Floor == 1 && (1.5).Floor == 1;
  }

  lemma ThreeCounted(s: Scores)
    requires |s| == 3
    ensures Count(Scored(s)) == (if s[0].Some? then 1 else 0) + (if s[1].Some? then 1 else 0) + (if s[2].Some? then 1 else 0)
  {
    CountThree(Scored(s));
  }

  lemma CountThree(m: Mask)
    requires |m| == 3
    ensures Count(m) == (if m[0] then 1 else 0) + (if m[1] then 1 else 0) + (if m[2] then 1 else 0)
  {
    assert m[1..][1..] == m[2..] && m[2..][1..] == [];
    assert Count(m[1..]) == (if m[1] then 1 else 0) + Count(m[2..]);
    assert Count(m[2..]) == (if m[2] then 1 else 0) + Count([]);
  }

  /** The first place from which only names no better than that at p can stand is p. */
  lemma BestFirst(s: Scores, o: seq<nat>, p: nat, first: nat)
    requires first <= p < |o| && forall i, j :: 0 <= i < j < |o| ==> NotBelow(s, o[i], o[j])
    requires forall i :: first <= i < |o| && i != p ==> !NotBelow(s, o[i], o[p])
    ensures p == first
  {
    var head, here := o[first], o[p];
  }

  lemma ArrangedAt(order: Arrangement, s: Scores)
    requires Arranges(order)
    ensures Distinct(order(s)) && (forall i :: i in order(s) <==> 0 <= i < |s| && s[i].Some?)
    ensures forall i, j :: 0 <= i < j < |order(s)| ==> NotBelow(s, order(s)[i], order(s)[j])
  {
  }

  lemma LeakOrder(order: Arrangement, third: Option<real>)
    requires Arranges(order) && (third.Some? ==> third.value < 2.0)
    ensures var o := order([Some(3.0), Some(2.0), third]);
            |o| >= 2 && o[0] == 0 && o[1] == 1 && (third.None? ==> 2 !in o) && (forall i :: 2 <= i < |o| ==> o[i] == 2)
  {
    var s: Scores := [Some(3.0), Some(2.0), third];
    var o := order(s);
    ArrangedAt(order, s);
    hide Arranges;
    assert 0 in o && 1 in o;
    var p :| 0 <= p < |o| && o[p] == 0;
    var q :| 0 <= q < |o| && o[q] == 1;
    assert forall i :: 0 <= i < |o| ==> o[i] in o && o[i] <= 2;
    BestFirst(s, o, p, 0);
    BestFirst(s, o, q, 1);
    assert forall i :: 2 <= i < |o| ==> o[i] != o[0] && o[i] != o[1];
  }

  /** Without X one name is long; with X two are, although X is not among them. */
  lemma LeakTarget(order: Arrangement, late: bool)
    requires Arranges(order)
    ensures var w := TargetWeights([Some(3.0), Some(2.0), if late then Some(1.0) else None], HALF, order);
            w[2] == 0.0 && if late then w[1] == 0.5 else w[1] == 0.0
  {
    var s: Scores := [Some(3.0), Some(2.0), if late then Some(1.0) else None];
    LeakOrder(order, s[2]);
    ThreeCounted(s);
    HalfPicks();
    var o := order(s);
    var cut := Min(PickCount(Count(Scored(s)), 0.5), |o|);
    var longs := Members(3, o[..cut]);
    CountThree(longs);
    assert 0 in o[..cut] by { assert o[..cut][0] == 0; }
    assert late ==> o[..cut] == [0, 1];
    assert !late ==> o[..cut] == [0];
    assert TargetWeights(s, HALF, order) == LongSide(longs, 1.0);
    hide Count;
    assert late ==> 1.0 / Count(longs) as real == 0.5;
  }

  lemma LeakHeld(order: Arrangement, late: bool)
    requires Arranges(order)
    ensures var s: Scores := [Some(3.0), Some(2.0), if late then Some(1.0) else None];
            var w := Desired([Some(s)], HALF, order, 3)[0];
            |w| == 3 && w[2] == 0.0 && if late then w[1] == 0.5 else w[1] == 0.0
  {
    var s: Scores := [Some(3.0), Some(2.0), if late then Some(1.0) else None];
    var t := TargetWeights(s, HALF, order);
    OneRowDesired(s, order);
    LeakTarget(order, late);
    TargetBudget(s, HALF, order);
    hide TargetWeights, Enforce;
    Sides(t);
    EnforceMeetsLimits(t, HALF.limits);
    EnforceMeetsLimits(Enforce(t, HALF.limits), HALF.limits);
    if late {
      NonnegativeWithin(t);
      EnforceFixesOnlyViolations(t, HALF.limits);
    }
  }

  lemma NonnegativeWithin(t: Row)
    requires Short(t) == 0.0 && Long(t) <= 1.0
    ensures Within(t, HALF.limits)
  {
    Sides(t);
    EmptySide(t);
    forall i | 0 <= i < |t|
      ensures Abs(t[i]) <= 1.0
    {
      EntryBelowLong(t, i);
    }
  }

  lemma {:induction false} EntryBelowLong(t: Row, i: nat)
    requires i < |t|
    ensures t[i] <= Long(t)
  {
    Sides(t[1..]);
    if i > 0 {
      EntryBelowLong(t[1..], i - 1);
    }
  }

  /** A run with a single output row. */
  lemma SingleRun(m: Market, order: Arrangement, vol: Volatility, w: Row, cells: Cells)
    requires m.signals != [] && |CalendarOf(m, 2)| == 3 && CalendarOf(m, 2)[2].benchmark.Some?
    requires exists c :: 0 <= c < |m.names| && m.Shared(c)
    requires Held(m, HALF, order) == [w] && Aligned(m, CalendarOf(m, 2)[2..]) == [cells] && !Unavailable(w, cells)
    ensures Run(m, HALF, order, vol).Ok? && |Run(m, HALF, order, vol).value| == 1
    ensures var row := Run(m, HALF, order, vol).value[0];
            row.weights == w && (row.gross.Some? <==> Earned(w, cells).Some?)
  {
    hide CalendarOf, Held, Aligned, Unavailable, Earned, Moved, Cost;
  }

  lemma LateColumnHeld(order: Arrangement, ra: real, rb: real, late: bool) returns (w: Row)
    requires Arranges(order)
    ensures LateColumn(ra, rb, late).signals != [] && |CalendarOf(LateColumn(ra, rb, late), 2)| == 3
    ensures Held(LateColumn(ra, rb, late), HALF, order) == [w]
    ensures |w| == 3 && w[2] == 0.0 && w[1] == if late then 0.5 else 0.0
  {
    var m := LateColumn(ra, rb, late);
    LateColumnCalendar(ra, rb, late);
    LateColumnScores(ra, rb, late);
    LeakHeld(order, late);
    HeldPrefix(m, HALF, order, 0);
    hide *;
    w := Held(m, HALF, order)[0];
    assert Held(m, HALF, order) == Held(m, HALF, order)[..1];
  }

  lemma LateColumnRuns(order: Arrangement, vol: Volatility, ra: real, rb: real, late: bool)
    requires Arranges(order)
    ensures Run(LateColumn(ra, rb, late), HALF, order, vol).Ok?
    ensures var rows := Run(LateColumn(ra, rb, late), HALF, order, vol).value;
            |rows| == 1 && |rows[0].weights| == 3 && rows[0].weights[1] == if late then 0.5 else 0.0
  {
    var m := LateColumn(ra, rb, late);
    var w := LateColumnHeld(order, ra, rb, late);
    LateColumnCalendar(ra, rb, late);
    LateColumnScores(ra, rb, late);
    assert m.Shared(0);
    var cells: Cells := [Some(ra), Some(rb), None];
    assert !Unavailable(w, cells);
    assert CalendarOf(m, 2)[2] == m.history[2];
    hide *;
    SingleRun(m, order, vol, w, cells);
  }

  lemma LateColumnSeen(ra: real, rb: real)
    ensures SeenAlike(LateColumn(ra, rb, false), LateColumn(ra, rb, true), 2, 0)
    ensures !SameColumns(LateColumn(ra, rb, false), LateColumn(ra, rb, true), 2, 0)
  {
    LateColumnCalendar(ra, rb, false);
    LateColumnCalendar(ra, rb, true);
    hide CalendarOf, StrLe;
    var p, q := LateColumn(ra, rb, false), LateColumn(ra, rb, true);
    CountUpToSplits(p.history, 2);
    CountUpToSplits(q.history, 2);
    assert p.history[2].date == 2 && p.history[3].date == 3 && q.history[2].date == 2 && q.history[3].date == 3;
    assert p.history[..3] == q.history[..3];
    assert ScoredOn(p, 0, "X") && CalendarOf(p, 2)[0].date == 0;
  }

  /**
   * Which tickers the panel ever has is read before the first row is weighed. Two panels that agree up to the output
   * day, with equal scores, give different weights on it: a ticker that is scored but not held, and whose first
   * return lies in the future, raises the number of picks.
   */
  lemma FutureColumnChangesPast(order: Arrangement, vol: Volatility, ra: real, rb: real) returns (p: Market, q: Market)
    requires Arranges(order)
    ensures p.Valid() && q.Valid() && p.signals == q.signals && SeenAlike(p, q, 2, 0) && !SameColumns(p, q, 2, 0)
    ensures Run(p, HALF, order, vol).Ok? && Run(q, HALF, order, vol).Ok?
    ensures |Run(p, HALF, order, vol).value| == |Run(q, HALF, order, vol).value| == 1
    ensures Run(p, HALF, order, vol).value[0].weights != Run(q, HALF, order, vol).value[0].weights
  {
    p, q := LateColumn(ra, rb, false), LateColumn(ra, rb, true);
    assert p.signals == q.signals;
    LateColumnCalendar(ra, rb, false);
    LateColumnCalendar(ra, rb, true);
    hide *;
    LateColumnRuns(order, vol, ra, rb, false);
    LateColumnRuns(order, vol, ra, rb, true);
    LateColumnSeen(ra, rb);
  }

  // ----- a ticker scored later fills a missing return

  /** A is never scored and has no return on day 2; B has one, and is scored on day 1 or never. */
  function LateScore(r: real, scored: bool): Market {
    var first := SignalRow(0, map[]);
    var day := map["B" := r];
    Market(LEAK_NAMES, if scored then [first, SignalRow(1, map["B" := 1.0])] else [first, SignalRow(1, map[])],
           if scored then {"A", "B"} else {"A"}, [Day(0, day), Day(1, day), Day(2, day), Day(3, day)], {"A", "B"})
  }

  lemma LateScoreCalendar(r: real, scored: bool)
    ensures var m := LateScore(r, scored);
            m.Valid() && CalendarOf(m, 2) == m.history
  {
    LeakNamesOrdered();
    hide StrLe;
    var h := LateScore(r, scored).history;
    assert h[1..][0] == h[1] && h[1..][1..] == h[2..] && h[2..][0] == h[2];
    assert CountBefore(h, 0) == 0 && CountUpTo(h[2..], 1) == 0 && CountUpTo(h[1..], 1) == 1 && CountUpTo(h, 1) == 2;
    assert h[0..4] == h;
  }

  lemma LateScoreRuns(order: Arrangement, vol: Volatility, r: real, scored: bool)
    requires Arranges(order)
    ensures Run(LateScore(r, scored), HALF, order, vol).Ok? && |Run(LateScore(r, scored), HALF, order, vol).value| == 2
  {
    var m := LateScore(r, scored);
    LateScoreCalendar(r, scored);
    assert m.Shared(0) && forall i :: 0 <= i < 4 ==> CalendarOf(m, 2)[i].benchmark.Some?;
    forall i | 0 <= i < 2
      ensures !Unavailable(Held(m, HALF, order)[i], Aligned(m, CalendarOf(m, 2)[2..])[i])
    {
      LateScoreAvailable(order, r, scored, i);
    }
    hide *;
    HalfValid();
    RunSucceeds(m, HALF, order, vol);
  }

  lemma RunSucceeds(m: Market, cfg: Config, order: Arrangement, vol: Volatility)
    requires m.signals != [] && |CalendarOf(m, cfg.lag)| > cfg.lag && exists c :: 0 <= c < |m.names| && m.Shared(c)
    requires forall i :: cfg.lag <= i < |CalendarOf(m, cfg.lag)| ==> CalendarOf(m, cfg.lag)[i].benchmark.Some?
    requires forall i :: 0 <= i < |Held(m, cfg, order)| ==>
               !Unavailable(Held(m, cfg, order)[i], Aligned(m, CalendarOf(m, cfg.lag)[cfg.lag..])[i])
    ensures Run(m, cfg, order, vol).Ok? && |Run(m, cfg, order, vol).value| == |CalendarOf(m, cfg.lag)| - cfg.lag
  {
    hide CalendarOf, Held, Aligned, Unavailable, Outputs;
  }

  /** Every column is either never scored, and so never held, or has a return each day. */
  lemma LateScoreAvailable(order: Arrangement, r: real, scored: bool, i: nat)
    requires Arranges(order) && i < 2
    ensures LateScore(r, scored).signals != [] && |CalendarOf(LateScore(r, scored), 2)| == 4
    ensures !Unavailable(Held(LateScore(r, scored), HALF, order)[i],
                         Aligned(LateScore(r, scored), CalendarOf(LateScore(r, scored), 2)[2..])[i])
  {
    var m := LateScore(r, scored);
    LateScoreCalendar(r, scored);
    hide CalendarOf, StrLe, Arranges, Desired;
    var cal := CalendarOf(m, 2);
    HeldWidth(m, cal, HALF, order, i);
    forall c | 0 <= c < 3 && Aligned(m, cal[2..])[i][c].None?
      ensures Desired(Reindexed(m, cal), HALF, order, 3)[i][c] == 0.0
    {
      LateScoreUnscored(m, cal, c, scored, r);
      DesiredUnscored(Reindexed(m, cal), HALF, order, 3, c, i);
    }
  }

  lemma LateScoreUnscored(m: Market, cal: seq<ReturnRow>, c: nat, scored: bool, r: real)
    requires m == LateScore(r, scored) && c < 3 && (c != 1 || !scored)
    ensures NeverScored(Reindexed(m, cal), 3, c)
  {
    hide StrLe;
    forall i | 0 <= i < |cal| && Lookup(m.signals, cal[i].date).Some?
      ensures Restricted(m, Lookup(m.signals, cal[i].date).value)[c].None?
    {
      var j := LookupIn(m.signals, cal[i].date);
    }
  }

  /**
   * The other way: which tickers are ever scored also decides whether a day counts as having a return. Two runs that
   * have seen the same by the first row, panels equal throughout, give no net return on it or a net return of zero,
   * according to whether another ticker is scored the day after.
   */
  lemma FutureScoreFillsGap(order: Arrangement, vol: Volatility, r: real) returns (p: Market, q: Market)
    requires Arranges(order)
    ensures p.Valid() && q.Valid() && p.history == q.history && p.columns == q.columns
    ensures SeenAlike(p, q, 2, 0) && SameColumns(p, q, 2, 0)
    ensures Run(p, HALF, order, vol).Ok? && Run(q, HALF, order, vol).Ok?
    ensures |Run(p, HALF, order, vol).value| == |Run(q, HALF, order, vol).value| == 2
    ensures Run(p, HALF, order, vol).value[..1] != Run(q, HALF, order, vol).value[..1]
  {
    hide *;
    p, q := LateScore(r, false), LateScore(r, true);
    LateScoreTables(r);
    LateScoreSeen(r);
    LateScoreRuns(order, vol, r, false);
    LateScoreRuns(order, vol, r, true);
    HalfValid();
    NoLookahead(p, q, HALF, order, vol, 0);
  }

  lemma LateScoreTables(r: real)
    ensures LateScore(r, false).Valid() && LateScore(r, true).Valid()
    ensures LateScore(r, false).history == LateScore(r, true).history
    ensures LateScore(r, false).columns == LateScore(r, true).columns
  {
    LateScoreCalendar(r, false);
    LateScoreCalendar(r, true);
    hide StrLe, CalendarOf;
  }

  lemma HalfValid()
    ensures HALF.Valid() && HALF.lag == 2
  {
  }

  lemma LateScoreSeen(r: real)
    ensures SeenAlike(LateScore(r, false), LateScore(r, true), 2, 0)
    ensures SameColumns(LateScore(r, false), LateScore(r, true), 2, 0)
    ensures !AnyReturn(LateScore(r, false), 2, 0) && AnyReturn(LateScore(r, true), 2, 0)
  {
    LateScoreCalendar(r, false);
    LateScoreCalendar(r, true);
    hide CalendarOf, StrLe;
    var p, q := LateScore(r, false), LateScore(r, true);
    assert p.history == q.history && p.signals[0] == q.signals[0];
    assert Restricted(q, q.history[2].values)[1].Some?;
  }
}
