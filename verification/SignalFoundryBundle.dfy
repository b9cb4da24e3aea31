/** The canonical price frame of a Signal Foundry bundle, and its partition by year. */
module ContractFrame {
  import opened Common
  import opened Sorting
  import opened Text
  import B = BitemporalRecords

  /** A calendar day, as its year and its day within the year. */
  datatype Day = Day(year: nat, day: nat)

  /** identity holds instrument_id, currency, exchange_calendar, adjustment_state, source and source_table. */
  datatype PriceRow = PriceRow(date: Day, ticker: string, open: real, high: real, low: real, close: real, adjClose: real,
                               volume: real, effective: int, available: int, observed: int, provider: Option<int>,
                               identity: seq<string>)

  datatype FrameError = Temporal | DuplicateKey | Bounds | Panel | EmptyText

  type Frame = seq<PriceRow>

  predicate TemporalOk(r: PriceRow) {
    && r.effective <= r.available <= r.observed
    && (r.provider.Some? ==> r.provider.value <= r.observed)
  }

  predicate BoundsOk(r: PriceRow) {
    r.volume >= 0.0 && r.low <= r.high && r.low <= r.open <= r.high && r.low <= r.close <= r.high
  }

  predicate PricesPositive(r: PriceRow) {
    r.open > 0.0 && r.high > 0.0 && r.low > 0.0 && r.close > 0.0 && r.adjClose > 0.0
  }

  predicate TextOk(r: PriceRow) {
    !B.Blank(r.ticker) && forall t :: t in r.identity ==> !B.Blank(t)
  }

  predicate RowOk(r: PriceRow) {
    TemporalOk(r) && BoundsOk(r) && PricesPositive(r) && TextOk(r)
  }

  function RowKey(r: PriceRow): (Day, string) {
    (r.date, r.ticker)
  }

  predicate RowLe(a: PriceRow, b: PriceRow) {
    if a.date.year != b.date.year then a.date.year < b.date.year
    else if a.date.day != b.date.day then a.date.day < b.date.day
    else StrLe(a.ticker, b.ticker)
  }

  /** _coerce_contract_frame: the checks in order, then the stable sort by date and ticker. */
  function CoerceFrame(panel: Frame): Result<Frame, FrameError> {
    if exists r :: r in panel && !TemporalOk(r) then Err(Temporal)
    else if !UniqueBy(RowKey, panel) then Err(DuplicateKey)
    else if exists r :: r in panel && !BoundsOk(r) then Err(Bounds)
    else if panel == [] || exists r :: r in panel && !PricesPositive(r) then Err(Panel)
    else if exists r :: r in panel && !TextOk(r) then Err(EmptyText)
    else Ok(SortBy(RowLe, panel))
  }

  lemma RowLeTotal()
    ensures TotalOn(RowLe)
  {
    hide StrLe;
    forall x: PriceRow, y: PriceRow
      ensures RowLe(x, y) || RowLe(y, x)
    {
      StrLeTotal(x.ticker, y.ticker);
    }
    forall x: PriceRow, y: PriceRow, z: PriceRow | RowLe(x, y) && RowLe(y, z)
      ensures RowLe(x, z)
    {
      if x.date == y.date == z.date {
        StrLeTransitive(x.ticker, y.ticker, z.ticker);
      }
    }
  }

  /** What a price row must satisfy, rule by rule. */
  ghost predicate RowRules(r: PriceRow) {
    && r.effective <= r.available <= r.observed && (r.provider.Some? ==> r.provider.value <= r.observed)
    && r.open > 0.0 && r.high > 0.0 && r.low > 0.0 && r.close > 0.0 && r.adjClose > 0.0 && r.volume >= 0.0
    && r.low <= r.open <= r.high && r.low <= r.close <= r.high
    && B.Says(r.ticker) && forall i :: 0 <= i < |r.identity| ==> B.Says(r.identity[i])
  }

  lemma RowRulesIff(r: PriceRow)
    ensures RowOk(r) <==> RowRules(r)
  {
    hide B.Says, B.Blank;
    forall s: string
      ensures B.Says(s) <==> !B.Blank(s)
    {
      B.SaysIff(s);
    }
  }

  ghost predicate Acceptable(panel: Frame) {
    && panel != [] && (forall r :: r in panel ==> RowRules(r))
    && forall i, j :: 0 <= i < j < |panel| ==> panel[i].date != panel[j].date || panel[i].ticker != panel[j].ticker
  }

  lemma AcceptableKeyed(panel: Frame)
    requires forall i, j :: 0 <= i < j < |panel| ==> panel[i].date != panel[j].date || panel[i].ticker != panel[j].ticker
    ensures Keyed(RowKey, multiset(panel))
  {
    UniqueByIff(RowKey, panel);
    assert UniqueBy(RowKey, panel);
  }

  lemma AcceptablePermuted(a: Frame, b: Frame)
    requires multiset(a) == multiset(b) && Acceptable(a)
    ensures Acceptable(b)
  {
    hide RowRules;
    AcceptableKeyed(a);
    SameMembers(a, b);
    UniqueByIff(RowKey, b);
    assert UniqueBy(RowKey, b);
    assert |multiset(a)| == |a| && |multiset(b)| == |b|;
  }

  /** The order of a canonical frame: by date, then by ticker. */
  lemma CoerceFrameOrder(panel: Frame, i: nat, j: nat)
    requires CoerceFrame(panel).Ok? && i < j < |CoerceFrame(panel).value|
    ensures var a, b := CoerceFrame(panel).value[i], CoerceFrame(panel).value[j];
            || a.date.year < b.date.year
            || (a.date.year == b.date.year && a.date.day < b.date.day)
            || (a.date == b.date && StrLe(a.ticker, b.ticker) && a.ticker != b.ticker)
  {
    hide StrLe, CoerceFrame, RowRules;
    CoerceFrameIff(panel);
    AcceptablePermuted(panel, CoerceFrame(panel).value);
    assert RowLe(CoerceFrame(panel).value[i], CoerceFrame(panel).value[j]);
  }

  /** Coercion accepts exactly the acceptable panels, conserves every row, and sorts by date and ticker. */
  lemma CoerceFrameIff(panel: Frame)
    ensures CoerceFrame(panel).Ok? <==> Acceptable(panel)
    ensures CoerceFrame(panel).Ok? ==>
              multiset(CoerceFrame(panel).value) == multiset(panel) && SortedBy(RowLe, CoerceFrame(panel).value)
  {
    hide TemporalOk, BoundsOk, PricesPositive, TextOk, RowLe, RowRules;
    forall r | r in panel
      ensures TemporalOk(r) && BoundsOk(r) && PricesPositive(r) && TextOk(r) <==> RowRules(r)
    {
      RowRulesIff(r);
    }
    assert UniqueBy(RowKey, panel) <==> forall i, j :: 0 <= i < j < |panel| ==> RowKey(panel[i]) != RowKey(panel[j]);
    RowLeTotal();
    SortBySorted(RowLe, panel);
  }

  lemma KeysSeparate(panel: Frame)
    requires Keyed(RowKey, multiset(panel))
    ensures Separates(RowLe, multiset(panel))
  {
    hide StrLe;
    forall x, y | x in multiset(panel) && y in multiset(panel) && RowLe(x, y) && RowLe(y, x)
      ensures x == y
    {
      StrLeTotal(x.ticker, y.ticker);
      assert RowKey(x) == RowKey(y);
    }
  }

  lemma FrameKeyed(panel: Frame)
    requires Acceptable(panel)
    ensures Keyed(RowKey, multiset(panel))
  {
    hide RowRules, Keyed;
    AcceptableKeyed(panel);
  }

  /** The canonical frame depends only on which rows there are. */
  lemma CoerceFrameOrderFree(panel: Frame, permuted: Frame)
    requires multiset(panel) == multiset(permuted)
    ensures CoerceFrame(panel).Ok? <==> CoerceFrame(permuted).Ok?
    ensures CoerceFrame(panel).Ok? ==> CoerceFrame(permuted) == CoerceFrame(panel)
  {
    hide Acceptable, Keyed, RowLe, CoerceFrame, Separates;
    CoerceFrameIff(panel);
    CoerceFrameIff(permuted);
    if Acceptable(panel) {
      AcceptablePermuted(panel, permuted);
    }
    if Acceptable(permuted) {
      AcceptablePermuted(permuted, panel);
    }
    if CoerceFrame(panel).Ok? {
      FrameKeyed(panel);
      KeysSeparate(panel);
      SortedUnique(RowLe, CoerceFrame(panel).value, CoerceFrame(permuted).value);
    }
  }

  /** Coercing a canonical frame again changes nothing. */
  lemma CoerceFrameIdempotent(panel: Frame)
    requires CoerceFrame(panel).Ok?
    ensures CoerceFrame(CoerceFrame(panel).value) == CoerceFrame(panel)
  {
    CoerceFrameIff(panel);
    CoerceFrameOrderFree(CoerceFrame(panel).value, panel);
  }

  // ----- years

  function NatLe(a: nat, b: nat): bool {
    a <= b
  }

  function RowYears(frame: Frame): (s: seq<nat>)
    ensures |s| == |frame| && forall i :: 0 <= i < |s| ==> s[i] == frame[i].date.year
  {
    seq(|frame|, i requires 0 <= i < |frame| => frame[i].date.year)
  }

  /** sorted(years.unique()) */
  function Years(frame: Frame): seq<nat> {
    SortedSet(NatLe, RowYears(frame))
  }

  ghost predicate Increasing(s: seq<nat>) {
    forall i, j :: 0 <= i < j < |s| ==> s[i] < s[j]
  }

  lemma {:induction false} InsertIncreasing(x: nat, s: seq<nat>)
    requires Increasing(s)
    ensures Increasing(InsertUnique(NatLe, x, s))
  {
    if s != [] && x > s[0] {
      InsertIncreasing(x, s[1..]);
      InsertUniqueMembers(NatLe, x, s[1..]);
      var t := InsertUnique(NatLe, x, s[1..]);
      forall j | 0 <= j < |t|
        ensures s[0] < t[j]
      {
        assert t[j] in t;
      }
    }
  }

  lemma {:induction false} SortedSetIncreasing(s: seq<nat>)
    ensures Increasing(SortedSet(NatLe, s))
  {
    if s != [] {
      SortedSetIncreasing(s[1..]);
      InsertIncreasing(s[0], SortedSet(NatLe, s[1..]));
    }
  }

  lemma YearsExact(frame: Frame)
    ensures Increasing(Years(frame))
    ensures forall r :: r in frame ==> r.date.year in Years(frame)
    ensures forall y :: y in Years(frame) ==> exists r :: r in frame && r.date.year == y
  {
    SortedSetIncreasing(RowYears(frame));
    SortedSetMembers(NatLe, RowYears(frame));
    forall r | r in frame
      ensures r.date.year in Years(frame)
    {
      var i :| 0 <= i < |frame| && frame[i] == r;
      assert RowYears(frame)[i] in RowYears(frame);
    }
    forall y | y in Years(frame)
      ensures exists r :: r in frame && r.date.year == y
    {
      var i :| 0 <= i < |frame| && RowYears(frame)[i] == y;
      assert frame[i] in frame;
    }
  }

  function OfYear(frame: Frame, y: nat): Frame {
    if frame == [] then [] else (if frame[0].date.year == y then [frame[0]] else []) + OfYear(frame[1..], y)
  }

  function Below(frame: Frame, y: nat): Frame {
    if frame == [] then [] else (if frame[0].date.year < y then [frame[0]] else []) + Below(frame[1..], y)
  }

  ghost predicate ByYear(frame: Frame) {
    forall i, j :: 0 <= i < j < |frame| ==> frame[i].date.year <= frame[j].date.year
  }

  lemma {:induction false} NothingBelow(frame: Frame, y: nat)
    requires forall r :: r in frame ==> r.date.year >= y
    ensures Below(frame, y) == []
  {
    if frame != [] {
      NothingBelow(frame[1..], y);
    }
  }

  /** In a frame sorted by year, the rows up to a year are those before it followed by its own. */
  lemma {:induction false} YearFollows(frame: Frame, y: nat)
    requires ByYear(frame)
    ensures Below(frame, y + 1) == Below(frame, y) + OfYear(frame, y)
  {
    if frame != [] {
      YearFollows(frame[1..], y);
      if frame[0].date.year == y {
        NothingBelow(frame, y);
        NothingBelow(frame[1..], y);
      }
    }
  }

  lemma {:induction false} BelowGap(frame: Frame, a: nat, b: nat)
    requires a <= b && forall r :: r in frame ==> !(a <= r.date.year < b)
    ensures Below(frame, a) == Below(frame, b)
  {
    if frame != [] {
      assert frame[0] in frame;
      BelowGap(frame[1..], a, b);
    }
  }

  lemma {:induction false} AllBelow(frame: Frame, y: nat)
    requires forall r :: r in frame ==> r.date.year < y
    ensures Below(frame, y) == frame
  {
    if frame != [] {
      AllBelow(frame[1..], y);
      assert frame[0] in frame && frame == [frame[0]] + frame[1..];
    }
  }

  /** The first k year partitions, one after the other. */
  function Joined(frame: Frame, years: seq<nat>): Frame {
    if years == [] then [] else Joined(frame, years[..|years| - 1]) + OfYear(frame, years[|years| - 1])
  }

  lemma {:induction false} JoinedIsBelow(frame: Frame, k: nat)
    requires ByYear(frame) && k <= |Years(frame)|
    ensures Joined(frame, Years(frame)[..k]) == Below(frame, if k == 0 then 0 else Years(frame)[k - 1] + 1)
  {
    hide Years, Below, OfYear;
    YearsExact(frame);
    var years := Years(frame);
    if k == 0 {
      NothingBelow(frame, 0);
    } else {
      JoinedIsBelow(frame, k - 1);
      assert years[..k][..k - 1] == years[..k - 1];
      var from := if k == 1 then 0 else years[k - 2] + 1;
      forall r | r in frame
        ensures !(from <= r.date.year < years[k - 1])
      {
        var i :| 0 <= i < |years| && years[i] == r.date.year;
      }
      BelowGap(frame, from, years[k - 1]);
      YearFollows(frame, years[k - 1]);
    }
  }

  /** Year partitions in ascending order are the frame again: nothing lost, nothing moved. */
  lemma PartitionsRejoin(frame: Frame)
    requires SortedBy(RowLe, frame)
    ensures Joined(frame, Years(frame)) == frame
  {
    hide Years, Below, OfYear, Joined, StrLe;
    YearsExact(frame);
    var years := Years(frame);
    assert ByYear(frame) by {
      assert forall i, j :: 0 <= i < j < |frame| ==> RowLe(frame[i], frame[j]);
    }
    JoinedIsBelow(frame, |years|);
    assert years[..|years|] == years;
    if frame == [] {
      NothingBelow(frame, if years == [] then 0 else years[|years| - 1] + 1);
    } else {
      assert frame[0] in frame;
      forall r | r in frame
        ensures r.date.year < years[|years| - 1] + 1
      {
        var i :| 0 <= i < |years| && years[i] == r.date.year;
      }
      AllBelow(frame, years[|years| - 1] + 1);
    }
  }
}

/** Content-addressed bundles: export, validation and loading. */
module SignalFoundryBundle {
  import opened Common
  import opened Text
  import opened ContractFrame
  import B = BitemporalRecords
  import S = Sorting

  type Records = seq<B.Record>

  /** A Parquet file, which reads back as the table written to it. */
  datatype File = Prices(frame: Frame) | Universe(records: Records) | Actions(records: Records)

  datatype Kind = PriceKind | UniverseKind | ActionKind

  function KindOf(f: File): Kind {
    match f
    case Prices(_) => PriceKind
    case Universe(_) => UniverseKind
    case Actions(_) => ActionKind
  }

  function RowCount(f: File): nat {
    match f
    case Prices(frame) => |frame|
    case Universe(records) => |records|
    case Actions(records) => |records|
  }

  /** digest is the SHA-256 of the file: hashing is injective, so it stands for the file itself. */
  datatype Entry = Entry(path: string, digest: File, rows: nat, year: Option<nat>)

  datatype RecordSets = RecordSets(universeFiles: seq<Entry>, universeRows: nat, actionFiles: seq<Entry>, actionRows: nat)

  /** The source manifest as its canonical text, and created_at, which is computed from its retrieval time. */
  datatype Source = Source(text: string, createdAt: string)

  /** The semantic manifest, whose hash is the bundle identity; schema 1.0.0 has no record sets. */
  datatype Semantic = Semantic(files: seq<Entry>, rows: nat, dateMin: Day, dateMax: Day, tickers: seq<string>,
                               source: Source, records: Option<RecordSets>)

  /** What validation never compares: created_at, the manifest's other keys, and files that are not Parquet. */
  datatype Extra = Extra(createdAt: string, keys: map<string, string>, others: map<string, string>)

  /** A directory: its name, the manifest's bundle_id and semantic fields, its Parquet files, and the rest of it. */
  datatype Bundle = Bundle(name: Semantic, bundleId: Semantic, manifest: Semantic, files: map<string, File>, extra: Extra)

  datatype View = View(prices: Frame, universe: Records, actions: Records)

  datatype BundleError =
    | Identity | NoFiles | DuplicatePath | UnsafePath | MissingFile | HashMismatch | SchemaMismatch | RowMismatch
    | TotalMismatch | BadFrame | SummaryMismatch | BadRecords | UndeclaredFiles | BadSource | StaleStaging

  // ----- paths

  /** ".." as a whole component starting at i. */
  predicate ParentAt(p: string, i: nat)
    requires i + 1 < |p|
  {
    p[i] == '.' && p[i + 1] == '.' && (i == 0 || p[i - 1] == '/') && (i + 2 == |p| || p[i + 2] == '/')
  }

  predicate SafePath(p: string) {
    (p != "" ==> p[0] != '/') && forall i: nat :: i + 1 < |p| ==> !ParentAt(p, i)
  }

  function PricePath(year: nat): string {
    "prices/year=" + Decimal(year) + "/part-00000.parquet"
  }

  const UNIVERSE_PATH := "universe/part-00000.parquet"
  const ACTIONS_PATH := "corporate_actions/part-00000.parquet"

  /** ".." stands in the path as a whole component, with this before it and that behind it. */
  ghost predicate ParentIn(p: string, a: string, b: string) {
    p == a + ".." + b && (a == "" || a[|a| - 1] == '/') && (b == "" || b[0] == '/')
  }

  lemma ParentFrom(p: string, i: nat)
    requires i + 1 < |p| && ParentAt(p, i)
    ensures ParentIn(p, p[..i], p[i + 2..])
  {
    assert p[i..i + 2] == "..";
    assert p == p[..i] + p[i..i + 2] + p[i + 2..];
  }

  lemma ParentTo(p: string, a: string, b: string)
    requires ParentIn(p, a, b)
    ensures |a| + 1 < |p| && ParentAt(p, |a|)
  {
    assert p[|a|] == '.' && p[|a| + 1] == '.';
    assert a != "" ==> p[|a| - 1] == a[|a| - 1];
    assert b != "" ==> p[|a| + 2] == b[0];
  }

  /** A path is safe exactly when it is not absolute and no component of it is "..". */
  lemma SafePathIff(p: string)
    ensures SafePath(p) <==> (p == "" || p[0] != '/') && !exists a, b :: ParentIn(p, a, b)
  {
    hide ParentIn, ParentAt;
    if i: nat :| i + 1 < |p| && ParentAt(p, i) {
      ParentFrom(p, i);
    }
    if a, b :| ParentIn(p, a, b) {
      ParentTo(p, a, b);
    }
  }

  lemma PricePathInjective(a: nat, b: nat)
    requires PricePath(a) == PricePath(b)
    ensures a == b
  {
    hide Decimal;
    var p, q := PricePath(a), PricePath(b);
    assert p[12..|p| - 19] == Decimal(a);
    assert q[12..|q| - 19] == Decimal(b);
    DecimalInjective(a, b);
  }

  lemma {:induction false} PricePathSafe(year: nat)
    ensures SafePath(PricePath(year))
  {
    hide Decimal;
    var d := Decimal(year);
    var p := PricePath(year);
    var tail := "/part-00000.parquet";
    forall i: nat | i + 1 < |p|
      ensures !ParentAt(p, i)
    {
      if 12 <= i < 12 + |d| {
        assert p[i] == d[i - 12] && d[i - 12] in d;
      } else if i >= 12 + |d| {
        assert p[i] == tail[i - 12 - |d|] && p[i + 1] == tail[i + 1 - 12 - |d|];
      }
    }
  }

  lemma AuxiliaryPathsSafe()
    ensures SafePath(UNIVERSE_PATH) && SafePath(ACTIONS_PATH)
  {
  }

  // ----- reading

  function Digests(entries: seq<Entry>): (s: seq<File>)
    ensures |s| == |entries| && forall i :: 0 <= i < |s| ==> s[i] == entries[i].digest
  {
    seq(|entries|, i requires 0 <= i < |entries| => entries[i].digest)
  }

  function TotalRows(files: seq<File>): nat {
    if files == [] then 0 else TotalRows(files[..|files| - 1]) + RowCount(files[|files| - 1])
  }

  function PriceRows(files: seq<File>): Frame {
    if files == [] then []
    else PriceRows(files[..|files| - 1]) + (if files[|files| - 1].Prices? then files[|files| - 1].frame else [])
  }

  function RecordRows(files: seq<File>): Records {
    if files == [] then []
    else RecordRows(files[..|files| - 1]) + (if files[|files| - 1].Prices? then [] else files[|files| - 1].records)
  }

  ghost predicate EntryOk(e: Entry, files: map<string, File>, kind: Kind) {
    && SafePath(e.path) && e.path in files && files[e.path] == e.digest
    && KindOf(e.digest) == kind && RowCount(e.digest) == e.rows
  }

  ghost predicate DistinctPaths(entries: seq<Entry>) {
    forall i, j :: 0 <= i < j < |entries| ==> entries[i].path != entries[j].path
  }

  ghost predicate EntriesOk(entries: seq<Entry>, files: map<string, File>, kind: Kind) {
    DistinctPaths(entries) && forall i :: 0 <= i < |entries| ==> EntryOk(entries[i], files, kind)
  }

  function Paths(entries: seq<Entry>): set<string> {
    set e | e in entries :: e.path
  }

  /** The file loop shared by validation and _read_record_set: hash, schema and row count of every declared file. */
  method ReadEntries(entries: seq<Entry>, files: map<string, File>, kind: Kind)
      returns (r: Result<(seq<File>, nat), BundleError>)
    ensures r.Ok? <==> EntriesOk(entries, files, kind)
    ensures r.Ok? ==> r.value == (Digests(entries), TotalRows(Digests(entries)))
  {
    hide SafePath, TotalRows, KindOf, RowCount;
    var frames: seq<File> := [];
    var seen: set<string> := {};
    var total := 0;
    NoFilesNoRows();
    for n := 0 to |entries|
      invariant frames == Digests(entries[..n]) && total == TotalRows(frames)
      invariant seen == Paths(entries[..n])
      invariant EntriesOk(entries[..n], files, kind)
    {
      var e := entries[n];
      Prefixes(entries, files, kind, n);
      if e.path in seen {
        return Err(DuplicatePath);
      }
      if !SafePath(e.path) {
        return Err(UnsafePath);
      }
      if e.path !in files {
        return Err(MissingFile);
      }
      if files[e.path] != e.digest {
        return Err(HashMismatch);
      }
      if KindOf(e.digest) != kind {
        return Err(SchemaMismatch);
      }
      if RowCount(e.digest) != e.rows {
        return Err(RowMismatch);
      }
      seen := seen + {e.path};
      MoreRows(frames, e.digest);
      frames := frames + [e.digest];
      total := total + RowCount(e.digest);
    }
    assert entries[..|entries|] == entries;
    r := Ok((frames, total));
  }

  lemma NoFilesNoRows()
    ensures TotalRows([]) == 0
  {
  }

  lemma MoreRows(files: seq<File>, f: File)
    ensures TotalRows(files + [f]) == TotalRows(files) + RowCount(f)
    ensures PriceRows(files + [f]) == PriceRows(files) + (if f.Prices? then f.frame else [])
  {
    assert (files + [f])[..|files|] == files;
  }

  lemma Prefixes(entries: seq<Entry>, files: map<string, File>, kind: Kind, n: nat)
    requires n < |entries| && EntriesOk(entries[..n], files, kind)
    ensures Digests(entries[..n + 1]) == Digests(entries[..n]) + [entries[n].digest]
    ensures Paths(entries[..n + 1]) == Paths(entries[..n]) + {entries[n].path}
    ensures EntriesOk(entries[..n + 1], files, kind) <==>
            entries[n].path !in Paths(entries[..n]) && EntryOk(entries[n], files, kind)
    ensures EntriesOk(entries, files, kind) ==> EntriesOk(entries[..n + 1], files, kind)
  {
    hide EntryOk;
    var more := entries[..n + 1];
    assert more == entries[..n] + [entries[n]];
    if EntriesOk(entries[..n + 1], files, kind) {
      forall i | 0 <= i < n
        ensures entries[..n][i].path != entries[n].path
      {
        assert more[i].path != more[n].path;
      }
      assert more[n] == entries[n];
    }
    if entries[n].path !in Paths(entries[..n]) && EntryOk(entries[n], files, kind) {
      forall i | 0 <= i < n
        ensures more[i].path != more[n].path
      {
        assert entries[..n][i] in entries[..n];
      }
    }
  }

  // ----- validation

  predicate DayLt(a: Day, b: Day) {
    a.year < b.year || (a.year == b.year && a.day < b.day)
  }

  function MinDay(frame: Frame): Day
    requires frame != []
  {
    if |frame| == 1 then frame[0].date
    else if DayLt(frame[0].date, MinDay(frame[1..])) then frame[0].date else MinDay(frame[1..])
  }

  function MaxDay(frame: Frame): Day
    requires frame != []
  {
    if |frame| == 1 then frame[0].date
    else if DayLt(MaxDay(frame[1..]), frame[0].date) then frame[0].date else MaxDay(frame[1..])
  }

  /** sorted(frame[ticker].unique()) */
  function Tickers(frame: Frame): seq<string> {
    S.SortedSet(StrLe, seq(|frame|, i requires 0 <= i < |frame| => frame[i].ticker))
  }

  ghost predicate SetOk(entries: seq<Entry>, rows: nat, files: map<string, File>, kind: Kind, family: B.Family) {
    && EntriesOk(entries, files, kind) && TotalRows(Digests(entries)) == rows
    && B.Coerce(family, RecordRows(Digests(entries))).Ok?
  }

  ghost predicate RecordSetsOk(sets: RecordSets, files: map<string, File>) {
    && SetOk(sets.universeFiles, sets.universeRows, files, UniverseKind, B.UniverseFamily)
    && SetOk(sets.actionFiles, sets.actionRows, files, ActionKind, B.ActionFamily)
  }

  ghost predicate PricesOk(m: Semantic, files: map<string, File>) {
    && m.files != [] && EntriesOk(m.files, files, PriceKind) && TotalRows(Digests(m.files)) == m.rows
    && CoerceFrame(PriceRows(Digests(m.files))).Ok?
  }

  predicate Summarises(m: Semantic, frame: Frame) {
    frame != [] && m.dateMin == MinDay(frame) && m.dateMax == MaxDay(frame) && m.tickers == Tickers(frame)
  }

  function Declared(m: Semantic): set<string> {
    Paths(m.files) +
    match m.records { case None => {} case Some(sets) => Paths(sets.universeFiles) + Paths(sets.actionFiles) }
  }

  /** What a bundle must satisfy to be read. */
  ghost predicate ValidBundle(b: Bundle) {
    && b.name == b.bundleId == b.manifest
    && PricesOk(b.manifest, b.files)
    && Summarises(b.manifest, CoerceFrame(PriceRows(Digests(b.manifest.files))).value)
    && (b.manifest.records.Some? ==> RecordSetsOk(b.manifest.records.value, b.files))
    && b.files.Keys == Declared(b.manifest)
  }

  method ReadRecordSet(entries: seq<Entry>, rows: nat, files: map<string, File>, kind: Kind, family: B.Family)
      returns (r: Result<Records, BundleError>)
    ensures r.Ok? <==> SetOk(entries, rows, files, kind, family)
    ensures r.Ok? ==> r.value == B.Coerce(family, RecordRows(Digests(entries))).value
  {
    hide EntriesOk, B.Coerce;
    var read := ReadEntries(entries, files, kind);
    if read.Err? {
      return Err(read.error);
    }
    if read.value.1 != rows {
      return Err(TotalMismatch);
    }
    var coerced := B.Coerce(family, RecordRows(read.value.0));
    r := if coerced.Ok? then Ok(coerced.value) else Err(BadRecords);
  }

  /** validate_signal_foundry_bundle: accepts exactly the valid bundles. */
  method Validate(b: Bundle) returns (r: Result<Semantic, BundleError>)
    ensures r.Ok? <==> ValidBundle(b)
    ensures r.Ok? ==> r.value == b.manifest
  {
    hide EntriesOk, SetOk, CoerceFrame, Summarises, Declared;
    if b.name != b.bundleId {
      return Err(Identity);
    }
    var m := b.manifest;
    if m.files == [] {
      return Err(NoFiles);
    }
    var read := ReadEntries(m.files, b.files, PriceKind);
    if read.Err? {
      return Err(read.error);
    }
    if read.value.1 != m.rows {
      return Err(TotalMismatch);
    }
    var coerced := CoerceFrame(PriceRows(read.value.0));
    if coerced.Err? {
      return Err(BadFrame);
    }
    if m != b.bundleId {
      return Err(Identity);
    }
    if !Summarises(m, coerced.value) {
      return Err(SummaryMismatch);
    }
    if m.records.Some? {
      var sets := m.records.value;
      var universe := ReadRecordSet(sets.universeFiles, sets.universeRows, b.files, UniverseKind, B.UniverseFamily);
      if universe.Err? {
        return Err(universe.error);
      }
      var actions := ReadRecordSet(sets.actionFiles, sets.actionRows, b.files, ActionKind, B.ActionFamily);
      if actions.Err? {
        return Err(actions.error);
      }
    }
    if b.files.Keys != Declared(m) {
      return Err(UndeclaredFiles);
    }
    r := Ok(m);
  }

  // ----- loading

  function PricesAsOf(frame: Frame, t: int): Frame {
    if frame == [] then []
    else (if frame[0].effective <= t && frame[0].available <= t then [frame[0]] else []) + PricesAsOf(frame[1..], t)
  }

  function AsOf(v: View, t: Option<int>): View {
    if t.None? then v
    else View(PricesAsOf(v.prices, t.value), B.VisibleRevisions(v.universe, t.value), B.VisibleRevisions(v.actions, t.value))
  }

  /** All the records of a valid bundle, canonically ordered. */
  ghost function Contents(b: Bundle): View
    requires ValidBundle(b)
  {
    var frame := CoerceFrame(PriceRows(Digests(b.manifest.files))).value;
    match b.manifest.records
    case None => View(frame, [], [])
    case Some(sets) =>
      View(frame, B.Coerce(B.UniverseFamily, RecordRows(Digests(sets.universeFiles))).value,
           B.Coerce(B.ActionFamily, RecordRows(Digests(sets.actionFiles))).value)
  }

  /** The rows that are effective and available by then, each as often as before, in the order of date and ticker. */
  ghost predicate PricesKnown(all: Frame, t: int, shown: Frame) {
    && (forall p :: multiset(shown)[p] == if p.effective <= t && p.available <= t then multiset(all)[p] else 0)
    && (forall i, j :: 0 <= i < j < |shown| ==>
          || shown[i].date.year < shown[j].date.year
          || (shown[i].date.year == shown[j].date.year && shown[i].date.day < shown[j].date.day)
          || (shown[i].date == shown[j].date && StrLe(shown[i].ticker, shown[j].ticker)))
  }

  /** Of each identity the last available of the revisions effective and available by then, in the order of identities. */
  ghost predicate LatestKnown(all: Records, t: int, shown: Records) {
    && (forall r :: r in shown <==>
          && r in all && r.effective <= t && r.available <= t
          && forall q :: q in all && q.effective <= t && q.available <= t && q.id == r.id ==> q.available <= r.available)
    && (forall i, j :: 0 <= i < j < |shown| ==> StrLe(shown[i].id, shown[j].id) && shown[i].id != shown[j].id)
  }

  lemma {:induction false} PricesAsOfCounts(frame: Frame, t: int)
    ensures forall p :: multiset(PricesAsOf(frame, t))[p]
                     == if p.effective <= t && p.available <= t then multiset(frame)[p] else 0
  {
    if frame != [] {
      PricesAsOfCounts(frame[1..], t);
      assert frame == [frame[0]] + frame[1..];
      assert PricesAsOf(frame, t) ==
             (if frame[0].effective <= t && frame[0].available <= t then [frame[0]] else []) + PricesAsOf(frame[1..], t);
    }
  }

  lemma {:induction false} PricesAsOfSorted(frame: Frame, t: int)
    requires S.SortedBy(RowLe, frame)
    ensures S.SortedBy(RowLe, PricesAsOf(frame, t)) && forall p :: p in PricesAsOf(frame, t) ==> p in frame
  {
    hide RowLe;
    if frame != [] {
      PricesAsOfSorted(frame[1..], t);
      var rest := PricesAsOf(frame[1..], t);
      forall j | 0 <= j < |rest|
        ensures RowLe(frame[0], rest[j])
      {
        assert rest[j] in frame[1..];
      }
    }
  }

  lemma RecordsKnown(records: Records, t: int)
    requires B.OneEach(multiset(records))
    ensures LatestKnown(records, t, B.VisibleRevisions(records, t))
  {
    B.VisibleIsLatest(records, t);
    hide B.OneEach, B.VisibleRevisions, StrLe;
    forall r
      ensures B.Latest(records, t, r) <==>
              && r in records && r.effective <= t && r.available <= t
              && forall q :: q in records && q.effective <= t && q.available <= t && q.id == r.id ==> q.available <= r.available
    {
    }
  }

  lemma CoercedRecordsOneEach(family: B.Family, records: Records)
    requires B.Coerce(family, records).Ok?
    ensures B.OneEach(multiset(B.Coerce(family, records).value))
  {
    hide B.OneEach, B.Coerce, B.Acceptable;
    B.CoerceIff(family, records);
    B.CoerceStable(family, records, B.Coerce(family, records).value);
    B.CoerceIff(family, B.Coerce(family, records).value);
    B.AcceptableKeyed(family, B.Coerce(family, records).value);
  }

  lemma NoRecords()
    ensures B.OneEach(multiset([]))
  {
  }

  lemma AsOfKnown(b: Bundle, t: int)
    requires ValidBundle(b)
    ensures var all, shown := Contents(b), AsOf(Contents(b), Some(t));
            PricesKnown(all.prices, t, shown.prices) && LatestKnown(all.universe, t, shown.universe)
            && LatestKnown(all.actions, t, shown.actions)
  {
    hide EntriesOk, CoerceFrame, Summarises, Declared, B.Coerce, B.OneEach, B.VisibleRevisions, LatestKnown, PricesAsOf;
    var all := Contents(b);
    CoerceFrameIff(PriceRows(Digests(b.manifest.files)));
    PricesAsOfCounts(all.prices, t);
    PricesAsOfSorted(all.prices, t);
    NoRecords();
    if b.manifest.records.Some? {
      var sets := b.manifest.records.value;
      CoercedRecordsOneEach(B.UniverseFamily, RecordRows(Digests(sets.universeFiles)));
      CoercedRecordsOneEach(B.ActionFamily, RecordRows(Digests(sets.actionFiles)));
    }
    RecordsKnown(all.universe, t);
    RecordsKnown(all.actions, t);
  }

  lemma AsOfNone(v: View)
    ensures AsOf(v, None) == v
  {
  }

  /** load_signal_foundry_bundle_view */
  method Load(b: Bundle, t: Option<int>) returns (r: Result<View, BundleError>)
    ensures r.Ok? <==> ValidBundle(b)
    ensures r.Ok? && t.None? ==> r.value == Contents(b)
    ensures r.Ok? && t.Some? ==>
              && PricesKnown(Contents(b).prices, t.value, r.value.prices)
              && LatestKnown(Contents(b).universe, t.value, r.value.universe)
              && LatestKnown(Contents(b).actions, t.value, r.value.actions)
  {
    hide PricesKnown, LatestKnown, EntriesOk, CoerceFrame, Summarises, Declared, B.Coerce;
    var m := Validate(b);
    if m.Err? {
      return Err(m.error);
    }
    if t.Some? {
      AsOfKnown(b, t.value);
    }
    hide AsOf;
    AsOfNone(Contents(b));
    var prices := CoerceFrame(PriceRows(Digests(m.value.files))).value;
    if m.value.records.None? {
      return Ok(AsOf(View(prices, [], []), t));
    }
    var sets := m.value.records.value;
    var universe := ReadRecordSet(sets.universeFiles, sets.universeRows, b.files, UniverseKind, B.UniverseFamily);
    var actions := ReadRecordSet(sets.actionFiles, sets.actionRows, b.files, ActionKind, B.ActionFamily);
    r := Ok(AsOf(View(prices, universe.value, actions.value), t));
  }

  // ----- what a bundle contains

  lemma {:induction false} PriceRowsOf(files: seq<File>)
    requires forall f :: f in files ==> f.Prices?
    ensures |PriceRows(files)| == TotalRows(files)
    ensures forall p :: p in PriceRows(files) <==> exists f :: f in files && p in f.frame
  {
    if files != [] {
      var n := |files| - 1;
      PriceRowsOf(files[..n]);
      assert files == files[..n] + [files[n]];
      forall p
        ensures p in PriceRows(files) <==> exists f :: f in files && p in f.frame
      {
        assert p in PriceRows(files) <==> p in PriceRows(files[..n]) || p in files[n].frame;
      }
    }
  }

  lemma {:induction false} RecordRowsOf(files: seq<File>)
    requires forall f :: f in files ==> !f.Prices?
    ensures |RecordRows(files)| == TotalRows(files)
    ensures forall r :: r in RecordRows(files) <==> exists f :: f in files && r in f.records
  {
    if files != [] {
      var n := |files| - 1;
      RecordRowsOf(files[..n]);
      assert files == files[..n] + [files[n]];
      forall r
        ensures r in RecordRows(files) <==> exists f :: f in files && r in f.records
      {
        assert r in RecordRows(files) <==> r in RecordRows(files[..n]) || r in files[n].records;
      }
    }
  }

  /** A declared price file holds this row. */
  ghost predicate PriceIn(entries: seq<Entry>, files: map<string, File>, p: PriceRow) {
    exists e :: e in entries && e.path in files && files[e.path].Prices? && p in files[e.path].frame
  }

  /** A declared record file of this kind holds this record. */
  ghost predicate RecordIn(entries: seq<Entry>, files: map<string, File>, r: B.Record, universe: bool) {
    exists e :: e in entries && e.path in files
                && (if universe then files[e.path].Universe? && r in files[e.path].records
                    else files[e.path].Actions? && r in files[e.path].records)
  }

  lemma EntryFiles(entries: seq<Entry>, files: map<string, File>, kind: Kind)
    requires EntriesOk(entries, files, kind)
    ensures forall f :: f in Digests(entries) <==> exists e :: e in entries && e.path in files && files[e.path] == f
    ensures forall f :: f in Digests(entries) ==> KindOf(f) == kind
  {
    forall f | f in Digests(entries)
      ensures KindOf(f) == kind && exists e :: e in entries && e.path in files && files[e.path] == f
    {
      var i :| 0 <= i < |entries| && entries[i].digest == f;
      assert EntryOk(entries[i], files, kind) && entries[i] in entries;
    }
    forall f | exists e :: e in entries && e.path in files && files[e.path] == f
      ensures f in Digests(entries)
    {
      var e :| e in entries && e.path in files && files[e.path] == f;
      var i :| 0 <= i < |entries| && entries[i] == e;
      assert EntryOk(entries[i], files, kind) && Digests(entries)[i] == f;
    }
  }

  lemma SetContents(entries: seq<Entry>, rows: nat, files: map<string, File>, universe: bool)
    requires SetOk(entries, rows, files, if universe then UniverseKind else ActionKind,
                   if universe then B.UniverseFamily else B.ActionFamily)
    ensures var records := B.Coerce(if universe then B.UniverseFamily else B.ActionFamily, RecordRows(Digests(entries))).value;
            && |records| == rows && (forall r :: r in records <==> RecordIn(entries, files, r, universe))
  {
    hide EntriesOk, B.Coerce, RecordRows, TotalRows, Digests;
    EntryFiles(entries, files, if universe then UniverseKind else ActionKind);
    RecordRowsOf(Digests(entries));
    var family := if universe then B.UniverseFamily else B.ActionFamily;
    B.CoerceIff(family, RecordRows(Digests(entries)));
    var records := B.Coerce(family, RecordRows(Digests(entries))).value;
    S.SameMembers(RecordRows(Digests(entries)), records);
    assert |multiset(records)| == |records| && |multiset(RecordRows(Digests(entries)))| == |RecordRows(Digests(entries))|;
  }

  /**
   * A valid bundle contains exactly the rows of its declared price files, as many as its manifest says and one per
   * date and ticker, and exactly the records of its declared record files, as many as the manifest says of each.
   */
  lemma ContentsExact(b: Bundle)
    requires ValidBundle(b)
    ensures |Contents(b).prices| == b.manifest.rows
    ensures forall p :: p in Contents(b).prices <==> PriceIn(b.manifest.files, b.files, p)
    ensures forall i, j :: 0 <= i < j < |Contents(b).prices| ==>
                             Contents(b).prices[i].date != Contents(b).prices[j].date
                             || Contents(b).prices[i].ticker != Contents(b).prices[j].ticker
    ensures b.manifest.records.None? ==> Contents(b).universe == [] && Contents(b).actions == []
    ensures b.manifest.records.Some? ==>
              var sets := b.manifest.records.value;
              && |Contents(b).universe| == sets.universeRows && |Contents(b).actions| == sets.actionRows
              && (forall r :: r in Contents(b).universe <==> RecordIn(sets.universeFiles, b.files, r, true))
              && (forall r :: r in Contents(b).actions <==> RecordIn(sets.actionFiles, b.files, r, false))
  {
    hide EntriesOk, CoerceFrame, Summarises, Declared, B.Coerce, PriceRows, RecordRows, TotalRows, Digests, RecordIn, SetOk;
    var files := Digests(b.manifest.files);
    EntryFiles(b.manifest.files, b.files, PriceKind);
    PriceRowsOf(files);
    CoerceFrameIff(PriceRows(files));
    var frame := CoerceFrame(PriceRows(files)).value;
    S.SameMembers(PriceRows(files), frame);
    assert |multiset(frame)| == |frame| && |multiset(PriceRows(files))| == |PriceRows(files)|;
    CoerceFrameIdempotent(PriceRows(files));
    KeysDiffer(frame);
    if b.manifest.records.Some? {
      var sets := b.manifest.records.value;
      SetContents(sets.universeFiles, sets.universeRows, b.files, true);
      SetContents(sets.actionFiles, sets.actionRows, b.files, false);
    }
  }

  lemma KeysDiffer(frame: Frame)
    requires CoerceFrame(frame).Ok?
    ensures forall i, j :: 0 <= i < j < |frame| ==> frame[i].date != frame[j].date || frame[i].ticker != frame[j].ticker
  {
    forall i, j | 0 <= i < j < |frame|
      ensures frame[i].date != frame[j].date || frame[i].ticker != frame[j].ticker
    {
      assert RowKey(frame[i]) != RowKey(frame[j]);
    }
  }

  // ----- what the name of a bundle fixes

  /** Two valid bundles of one name have the same manifest, Parquet files and contents; they are equal iff their extras are. */
  lemma NameDeterminesRecords(a: Bundle, b: Bundle)
    requires ValidBundle(a) && ValidBundle(b) && a.name == b.name
    ensures a.manifest == b.manifest && a.files == b.files && Contents(a) == Contents(b)
    ensures a.(extra := b.extra) == b && (a == b <==> a.extra == b.extra)
  {
    hide CoerceFrame, SafePath, KindOf, RowCount, TotalRows, PriceRows, RecordRows, Summarises, B.Coerce;
    assert a.manifest == b.manifest;
    forall path | path in a.files
      ensures path in b.files && a.files[path] == b.files[path]
    {
      assert path in Declared(a.manifest);
    }
    assert a.files == b.files;
  }

  /** The name fixes nothing else: any valid bundle stays valid, under its name, with any other extras. */
  lemma ExtrasAreFree(a: Bundle, extra: Extra)
    requires ValidBundle(a)
    ensures ValidBundle(a.(extra := extra)) && Contents(a.(extra := extra)) == Contents(a)
    ensures a.(extra := extra).name == a.name && (extra != a.extra ==> a.(extra := extra) != a)
  {
    hide CoerceFrame, PricesOk, Summarises, RecordSetsOk, Declared, B.Coerce;
  }

  // ----- export

  function PriceEntry(frame: Frame, year: nat): Entry {
    Entry(PricePath(year), Prices(OfYear(frame, year)), |OfYear(frame, year)|, Some(year))
  }

  /** One entry per year partition. */
  function PriceEntries(frame: Frame, years: seq<nat>): (s: seq<Entry>)
    ensures |s| == |years| && forall i :: 0 <= i < |s| ==> s[i] == PriceEntry(frame, years[i])
  {
    seq(|years|, i requires 0 <= i < |years| => PriceEntry(frame, years[i]))
  }

  /** _write_auxiliary_record_set: an empty family writes no file. */
  function Auxiliary(path: string, file: File): seq<Entry> {
    if RowCount(file) == 0 then [] else [Entry(path, file, RowCount(file), None)]
  }

  /** The directory that holds each entry's file at its path. */
  function Directory(entries: seq<Entry>): map<string, File> {
    if entries == [] then map[]
    else Directory(entries[..|entries| - 1])[entries[|entries| - 1].path := entries[|entries| - 1].digest]
  }

  function Describe(frame: Frame, universe: Records, actions: Records, source: Source): Semantic
    requires frame != []
  {
    Semantic(PriceEntries(frame, Years(frame)), |frame|, MinDay(frame), MaxDay(frame), Tickers(frame), source,
             Some(RecordSets(Auxiliary(UNIVERSE_PATH, Universe(universe)), |universe|,
                             Auxiliary(ACTIONS_PATH, Actions(actions)), |actions|)))
  }

  function AllEntries(m: Semantic): seq<Entry> {
    m.files + match m.records { case None => [] case Some(sets) => sets.universeFiles + sets.actionFiles }
  }

  /** What an export writes besides the semantic manifest and the Parquet files. */
  function ExportExtra(source: Source): Extra {
    Extra(source.createdAt, map["manifest_version" := "1"], map[])
  }

  function BundleOf(frame: Frame, universe: Records, actions: Records, source: Source): Bundle
    requires frame != []
  {
    var m := Describe(frame, universe, actions, source);
    Bundle(m, m, m, Directory(AllEntries(m)), ExportExtra(source))
  }

  // ----- an exported bundle is valid

  lemma OnePathMore(entries: seq<Entry>, e: Entry)
    ensures Paths(entries + [e]) == Paths(entries) + {e.path}
  {
    assert forall x :: x in entries + [e] <==> x in entries || x == e;
  }

  lemma LastEntry(entries: seq<Entry>)
    requires entries != []
    ensures Paths(entries) == Paths(entries[..|entries| - 1]) + {entries[|entries| - 1].path}
    ensures DistinctPaths(entries) ==>
              DistinctPaths(entries[..|entries| - 1])
              && entries[|entries| - 1].path !in Paths(entries[..|entries| - 1])
  {
    var n := |entries| - 1;
    assert entries == entries[..n] + [entries[n]];
    OnePathMore(entries[..n], entries[n]);
    if DistinctPaths(entries) {
      forall e | e in entries[..n]
        ensures e.path != entries[n].path
      {
        var i :| 0 <= i < n && entries[..n][i] == e;
        assert entries[i] == e;
      }
    }
  }

  lemma {:induction false} DirectoryHolds(entries: seq<Entry>)
    requires DistinctPaths(entries)
    ensures Directory(entries).Keys == Paths(entries)
    ensures forall i :: 0 <= i < |entries| ==> Directory(entries)[entries[i].path] == entries[i].digest
  {
    hide DistinctPaths;
    if entries != [] {
      var n := |entries| - 1;
      LastEntry(entries);
      DirectoryHolds(entries[..n]);
      forall i | 0 <= i < n
        ensures entries[i].path != entries[n].path && Directory(entries[..n])[entries[i].path] == entries[i].digest
      {
        assert entries[..n][i] == entries[i] && entries[i] in entries[..n];
      }
    }
  }

  lemma EveryFileHeld(entries: seq<Entry>)
    requires DistinctPaths(entries)
    ensures Directory(entries).Keys == Paths(entries)
    ensures forall e :: e in entries ==> e.path in Directory(entries) && Directory(entries)[e.path] == e.digest
  {
    hide DistinctPaths;
    DirectoryHolds(entries);
    forall e | e in entries
      ensures e.path in Directory(entries) && Directory(entries)[e.path] == e.digest
    {
      var i :| 0 <= i < |entries| && entries[i] == e;
    }
  }

  lemma PricePathStart(year: nat)
    ensures PricePath(year)[0] == 'p' && UNIVERSE_PATH[0] == 'u' && ACTIONS_PATH[0] == 'c'
  {
    hide Decimal;
  }

  lemma PriceEntriesDistinct(frame: Frame)
    ensures DistinctPaths(PriceEntries(frame, Years(frame)))
  {
    hide PricePath, Years, OfYear;
    YearsExact(frame);
    var years := Years(frame);
    forall i, j | 0 <= i < j < |years|
      ensures PricePath(years[i]) != PricePath(years[j])
    {
      if PricePath(years[i]) == PricePath(years[j]) {
        PricePathInjective(years[i], years[j]);
      }
    }
  }

  lemma AllDistinct(frame: Frame, universe: Records, actions: Records, source: Source)
    requires frame != []
    ensures DistinctPaths(AllEntries(Describe(frame, universe, actions, source)))
  {
    hide PricePath, Years, OfYear, MinDay, MaxDay, Tickers;
    PriceEntriesDistinct(frame);
    var years := Years(frame);
    var prices := PriceEntries(frame, years);
    forall i | 0 <= i < |prices|
      ensures prices[i].path != UNIVERSE_PATH && prices[i].path != ACTIONS_PATH
    {
      PricePathStart(years[i]);
    }
    PricePathStart(0);
    assert UNIVERSE_PATH != ACTIONS_PATH;
  }

  lemma {:induction false} JoinedFiles(frame: Frame, years: seq<nat>)
    ensures PriceRows(Digests(PriceEntries(frame, years))) == Joined(frame, years)
    ensures TotalRows(Digests(PriceEntries(frame, years))) == |Joined(frame, years)|
  {
    hide OfYear, PricePath;
    if years != [] {
      var n := |years| - 1;
      JoinedFiles(frame, years[..n]);
      var before := Digests(PriceEntries(frame, years[..n]));
      assert Digests(PriceEntries(frame, years)) == before + [Prices(OfYear(frame, years[n]))];
      MoreRows(before, Prices(OfYear(frame, years[n])));
    }
  }

  lemma PricesExported(frame: Frame, files: map<string, File>, m: Semantic)
    requires CoerceFrame(frame) == Ok(frame)
    requires m.files == PriceEntries(frame, Years(frame)) && m.rows == |frame|
    requires forall e :: e in m.files ==> e.path in files && files[e.path] == e.digest
    ensures PricesOk(m, files) && PriceRows(Digests(m.files)) == frame
  {
    CoerceFrameIff(frame);
    YearsExact(frame);
    hide CoerceFrame, Years, OfYear, PricePath, SafePath, Joined, TotalRows, PriceRows, RowLe;
    PartitionsRejoin(frame);
    JoinedFiles(frame, Years(frame));
    PriceEntriesDistinct(frame);
    assert frame[0] in frame && Years(frame) != [];
    forall i | 0 <= i < |m.files|
      ensures EntryOk(m.files[i], files, PriceKind)
    {
      PricePathSafe(Years(frame)[i]);
      assert m.files[i] in m.files;
    }
  }

  lemma SetExported(path: string, file: File, files: map<string, File>, kind: Kind, family: B.Family)
    requires !file.Prices? && KindOf(file) == kind && SafePath(path)
    requires B.Coerce(family, file.records) == Ok(file.records)
    requires file.records != [] ==> path in files && files[path] == file
    ensures SetOk(Auxiliary(path, file), |file.records|, files, kind, family)
    ensures RecordRows(Digests(Auxiliary(path, file))) == file.records
  {
    hide B.Coerce, SafePath;
    var entries := Auxiliary(path, file);
    assert RecordRows([]) == [] && TotalRows([]) == 0;
    if file.records == [] {
      assert entries == [] && Digests(entries) == [];
      assert EntriesOk(entries, files, kind);
    } else {
      assert entries == [Entry(path, file, RowCount(file), None)];
      assert Digests(entries) == [file] && [file][..0] == [];
      assert TotalRows([file]) == RowCount(file) && RecordRows([file]) == file.records;
      assert EntryOk(entries[0], files, kind);
    }
  }

  lemma {:induction false} DaysExact(frame: Frame)
    requires frame != []
    ensures (exists r :: r in frame && r.date == MinDay(frame)) && (exists r :: r in frame && r.date == MaxDay(frame))
    ensures forall r :: r in frame ==>
              && !(r.date.year < MinDay(frame).year || (r.date.year == MinDay(frame).year && r.date.day < MinDay(frame).day))
              && !(r.date.year > MaxDay(frame).year || (r.date.year == MaxDay(frame).year && r.date.day > MaxDay(frame).day))
  {
    assert frame[0] in frame;
    if |frame| > 1 {
      DaysExact(frame[1..]);
      assert forall r :: r in frame <==> r == frame[0] || r in frame[1..];
    }
  }

  ghost predicate Less(a: string, b: string) {
    StrLe(a, b) && a != b
  }

  ghost predicate Ascending(s: seq<string>) {
    forall i, j :: 0 <= i < j < |s| ==> Less(s[i], s[j])
  }

  lemma LessTransitive(a: string, b: string, c: string)
    requires Less(a, b) && Less(b, c)
    ensures Less(a, c)
  {
    hide StrLe;
    StrLeTransitive(a, b, c);
    StrLeTotal(a, b);
    StrLeTotal(b, c);
  }

  lemma {:induction false} InsertAscending(x: string, s: seq<string>)
    requires Ascending(s)
    ensures Ascending(S.InsertUnique(StrLe, x, s))
  {
    if s != [] {
      StrLeTotal(x, s[0]);
      hide StrLe;
      var rest := S.InsertUnique(StrLe, x, s[1..]);
      InsertAscending(x, s[1..]);
      S.InsertUniqueMembers(StrLe, x, s[1..]);
      if x != s[0] && !StrLe(x, s[0]) {
        forall j | 0 <= j < |rest|
          ensures Less(s[0], rest[j])
        {
          assert rest[j] in rest;
          if rest[j] != x {
            var k :| 0 <= k < |s[1..]| && s[1..][k] == rest[j];
            assert s[k + 1] == rest[j];
          }
        }
      } else if x != s[0] {
        forall j | 0 <= j < |s|
          ensures Less(x, s[j])
        {
          if j > 0 {
            LessTransitive(x, s[0], s[j]);
          }
        }
      }
    }
  }

  lemma {:induction false} SortedSetAscending(s: seq<string>)
    ensures Ascending(S.SortedSet(StrLe, s))
  {
    hide StrLe;
    if s != [] {
      SortedSetAscending(s[1..]);
      InsertAscending(s[0], S.SortedSet(StrLe, s[1..]));
    }
  }

  /** The summary of a valid bundle: its first and last day, and its tickers, each once and in order. */
  lemma SummaryExact(b: Bundle)
    requires ValidBundle(b)
    ensures var rows, m := Contents(b).prices, b.manifest;
            && (exists r :: r in rows && r.date == m.dateMin) && (exists r :: r in rows && r.date == m.dateMax)
            && (forall r :: r in rows ==>
                  && (m.dateMin.year < r.date.year || (m.dateMin.year == r.date.year && m.dateMin.day <= r.date.day))
                  && (r.date.year < m.dateMax.year || (r.date.year == m.dateMax.year && r.date.day <= m.dateMax.day)))
            && (forall t :: t in m.tickers <==> exists r :: r in rows && r.ticker == t)
            && Ascending(m.tickers)
  {
    hide CoerceFrame, PricesOk, RecordSetsOk, Declared, B.Coerce, StrLe, Ascending;
    var rows := Contents(b).prices;
    DaysExact(rows);
    hide MinDay, MaxDay;
    var names := seq(|rows|, i requires 0 <= i < |rows| => rows[i].ticker);
    SortedSetAscending(names);
    S.SortedSetMembers(StrLe, names);
    assert b.manifest.tickers == S.SortedSet(StrLe, names);
    forall t
      ensures t in names <==> exists r :: r in rows && r.ticker == t
    {
      if r :| r in rows && r.ticker == t {
        var i :| 0 <= i < |rows| && rows[i] == r;
        assert names[i] == t;
      }
    }
  }

  /** The entries of an export: one for each year present, and one for each record family unless it is empty. */
  lemma ExportedEntries(v: View, source: Source, e: Entry)
    requires v.prices != []
    ensures e in AllEntries(Describe(v.prices, v.universe, v.actions, source)) <==>
              || (exists r :: r in v.prices && e == PriceEntry(v.prices, r.date.year))
              || (v.universe != [] && e == Entry("universe/part-00000.parquet", Universe(v.universe), |v.universe|, None))
              || (v.actions != [] && e == Entry("corporate_actions/part-00000.parquet", Actions(v.actions), |v.actions|, None))
  {
    hide Years, OfYear, Decimal, MinDay, MaxDay, Tickers, PriceEntry;
    YearsExact(v.prices);
    PathsOfAll(Describe(v.prices, v.universe, v.actions, source));
    var years := Years(v.prices);
    var prices := PriceEntries(v.prices, years);
    if e in prices {
      var i :| 0 <= i < |prices| && prices[i] == e;
      assert years[i] in years;
    }
    if r :| r in v.prices && e == PriceEntry(v.prices, r.date.year) {
      var i :| 0 <= i < |years| && years[i] == r.date.year;
      assert prices[i] == e;
    }
  }

  /** Where an export puts what: one price file per year present, and one file per record family unless it is empty. */
  lemma ExportedFiles(v: View, source: Source, path: string)
    requires Canonical(v)
    ensures v.prices != []
    ensures var files := BundleOf(v.prices, v.universe, v.actions, source).files;
            && (path in files <==>
                  || (exists r :: r in v.prices && path == PricePath(r.date.year))
                  || (path == "universe/part-00000.parquet" && v.universe != [])
                  || (path == "corporate_actions/part-00000.parquet" && v.actions != []))
            && (forall r :: r in v.prices ==>
                  PricePath(r.date.year) in files && files[PricePath(r.date.year)] == Prices(OfYear(v.prices, r.date.year)))
            && (v.universe != [] ==>
                  "universe/part-00000.parquet" in files && files["universe/part-00000.parquet"] == Universe(v.universe))
            && (v.actions != [] ==> "corporate_actions/part-00000.parquet" in files
                                    && files["corporate_actions/part-00000.parquet"] == Actions(v.actions))
  {
    CanonicalNonempty(v);
    var b := BundleOf(v.prices, v.universe, v.actions, source);
    hide CoerceFrame, OfYear, PricePath, Directory, Describe, B.Coerce, DistinctPaths, Canonical, AllEntries;
    AllDistinct(v.prices, v.universe, v.actions, source);
    var all := AllEntries(b.manifest);
    EveryFileHeld(all);
    DirectoryHolds(all);
    forall e
      ensures e in all <==>
                || (exists r :: r in v.prices && e == PriceEntry(v.prices, r.date.year))
                || (v.universe != [] && e == Entry("universe/part-00000.parquet", Universe(v.universe), |v.universe|, None))
                || (v.actions != [] && e == Entry("corporate_actions/part-00000.parquet", Actions(v.actions), |v.actions|, None))
    {
      ExportedEntries(v, source, e);
    }
    assert path in b.files <==> exists e :: e in all && e.path == path;
    forall r | r in v.prices
      ensures PriceEntry(v.prices, r.date.year) in all
    {
    }
  }

  /** The path of a year's prices. */
  lemma PricePathText(year: nat)
    ensures PricePath(year)[..12] == "prices/year=" && |PricePath(year)| == 31 + |Decimal(year)|
    ensures PricePath(year)[12..|PricePath(year)| - 19] == Decimal(year)
    ensures PricePath(year)[|PricePath(year)| - 19..] == "/part-00000.parquet"
  {
    hide Decimal;
  }

  lemma {:induction false} OfYearExact(frame: Frame, y: nat)
    ensures forall r :: r in OfYear(frame, y) <==> r in frame && r.date.year == y
  {
    if frame != [] {
      OfYearExact(frame[1..], y);
    }
  }

  /** A frame and record sets as coercion leaves them. */
  ghost predicate Canonical(v: View) {
    && CoerceFrame(v.prices) == Ok(v.prices)
    && B.Coerce(B.UniverseFamily, v.universe) == Ok(v.universe) && B.Coerce(B.ActionFamily, v.actions) == Ok(v.actions)
  }

  lemma CanonicalNonempty(v: View)
    requires Canonical(v)
    ensures v.prices != []
  {
  }

  predicate InSomeSet(e: Entry, m: Semantic) {
    e in m.files
    || (m.records.Some? && (e in m.records.value.universeFiles || e in m.records.value.actionFiles))
  }

  lemma PathsOfAll(m: Semantic)
    ensures Paths(AllEntries(m)) == Declared(m)
    ensures forall e :: e in AllEntries(m) <==> InSomeSet(e, m)
  {
    var all := AllEntries(m);
    assert forall e :: e in all ==> e.path in Paths(all);
  }

  lemma SetsExported(v: View, b: Bundle, sets: RecordSets)
    requires Canonical(v) && sets.universeRows == |v.universe| && sets.actionRows == |v.actions|
    requires sets.universeFiles == Auxiliary(UNIVERSE_PATH, Universe(v.universe))
    requires sets.actionFiles == Auxiliary(ACTIONS_PATH, Actions(v.actions))
    requires forall e :: e in sets.universeFiles || e in sets.actionFiles ==> e.path in b.files && b.files[e.path] == e.digest
    ensures RecordSetsOk(sets, b.files)
    ensures RecordRows(Digests(sets.universeFiles)) == v.universe && RecordRows(Digests(sets.actionFiles)) == v.actions
  {
    hide CoerceFrame, SafePath, TotalRows, RecordRows, B.Coerce, EntriesOk, SetOk, Auxiliary;
    AuxiliaryPathsSafe();
    AuxiliaryEntry(UNIVERSE_PATH, Universe(v.universe));
    AuxiliaryEntry(ACTIONS_PATH, Actions(v.actions));
    SetExported(UNIVERSE_PATH, Universe(v.universe), b.files, UniverseKind, B.UniverseFamily);
    SetExported(ACTIONS_PATH, Actions(v.actions), b.files, ActionKind, B.ActionFamily);
  }

  /** Round trip: an exported bundle validates, and holds exactly the coerced inputs. */
  lemma ExportRoundTrip(v: View, source: Source)
    requires Canonical(v)
    ensures v.prices != [] && ValidBundle(BundleOf(v.prices, v.universe, v.actions, source))
    ensures Contents(BundleOf(v.prices, v.universe, v.actions, source)) == v
  {
    CanonicalNonempty(v);
    var b := BundleOf(v.prices, v.universe, v.actions, source);
    var m := b.manifest;
    hide CoerceFrame, Years, OfYear, TotalRows, PriceRows, RecordRows, B.Coerce, Directory;
    hide MinDay, MaxDay, Tickers, PriceEntries, DistinctPaths, Auxiliary, RecordSetsOk, PricesOk, AllEntries, Declared, Paths;
    AllDistinct(v.prices, v.universe, v.actions, source);
    EveryFileHeld(AllEntries(m));
    PathsOfAll(m);
    PricesExported(v.prices, b.files, m);
    SetsExported(v, b, m.records.value);
  }

  lemma AuxiliaryEntry(path: string, file: File)
    ensures RowCount(file) != 0 ==> Auxiliary(path, file) == [Entry(path, file, RowCount(file), None)]
  {
  }

  /** The inputs as coercion leaves them, when it accepts all three. */
  function Coerced(panel: Frame, universe: Records, actions: Records): Option<View> {
    var p, u, a := CoerceFrame(panel), B.Coerce(B.UniverseFamily, universe), B.Coerce(B.ActionFamily, actions);
    if p.Ok? && u.Ok? && a.Ok? then Some(View(p.value, u.value, a.value)) else None
  }

  lemma CoercedIsCanonical(panel: Frame, universe: Records, actions: Records)
    requires Coerced(panel, universe, actions).Some?
    ensures Canonical(Coerced(panel, universe, actions).value)
    ensures Coerced(panel, universe, actions).value.prices != []
  {
    hide CoerceFrame, B.Coerce;
    CoerceFrameIdempotent(panel);
    B.CoerceStable(B.UniverseFamily, universe, universe);
    B.CoerceStable(B.ActionFamily, actions, actions);
    CanonicalNonempty(Coerced(panel, universe, actions).value);
  }

  /** The year loop: one file per year, never two at one path. */
  method WritePartitions(frame: Frame) returns (entries: seq<Entry>, files: map<string, File>)
    ensures entries == PriceEntries(frame, Years(frame)) && files == Directory(entries)
  {
    hide Years, OfYear, PricePath, PriceEntries, Directory;
    var years := Years(frame);
    entries, files := [], map[];
    NoPartitions(frame);
    PriceEntriesDistinct(frame);
    for k := 0 to |years|
      invariant entries == PriceEntries(frame, years[..k]) && files == Directory(entries)
    {
      var partition := OfYear(frame, years[k]);
      var path := PricePath(years[k]);
      NextPartition(frame, years, k);
      assert path !in files;
      files := files[path := Prices(partition)];
      entries := entries + [Entry(path, Prices(partition), |partition|, Some(years[k]))];
    }
    assert years[..|years|] == years;
  }

  lemma NoPartitions(frame: Frame)
    ensures PriceEntries(frame, []) == [] && Directory([]) == map[]
  {
  }

  lemma NextPartition(frame: Frame, years: seq<nat>, k: nat)
    requires k < |years| && DistinctPaths(PriceEntries(frame, years))
    ensures PriceEntries(frame, years[..k + 1]) == PriceEntries(frame, years[..k]) + [PriceEntry(frame, years[k])]
    ensures PricePath(years[k]) !in Directory(PriceEntries(frame, years[..k]))
    ensures Directory(PriceEntries(frame, years[..k + 1]))
         == Directory(PriceEntries(frame, years[..k]))[PricePath(years[k]) := Prices(OfYear(frame, years[k]))]
  {
    hide PricePath, OfYear, DistinctPaths, PriceEntries;
    var next := PriceEntries(frame, years[..k + 1]);
    PartitionPrefix(frame, years, k + 1);
    PartitionPrefix(frame, years[..k + 1], k);
    assert years[..k + 1][..k] == years[..k];
    DistinctPrefix(PriceEntries(frame, years), k + 1);
    LastEntry(next);
    DirectoryHolds(next[..k]);
  }

  lemma PartitionPrefix(frame: Frame, years: seq<nat>, k: nat)
    requires k <= |years|
    ensures PriceEntries(frame, years)[..k] == PriceEntries(frame, years[..k])
  {
    hide PriceEntry;
  }

  lemma DistinctPrefix(entries: seq<Entry>, n: nat)
    requires DistinctPaths(entries) && n <= |entries|
    ensures DistinctPaths(entries[..n])
  {
  }

  method WriteAuxiliary(path: string, file: File, files: map<string, File>)
      returns (entries: seq<Entry>, after: map<string, File>)
    ensures entries == Auxiliary(path, file)
    ensures forall before :: files == Directory(before) ==> after == Directory(before + entries)
  {
    if RowCount(file) == 0 {
      entries, after := [], files;
      assert forall before: seq<Entry> :: before + entries == before;
    } else {
      entries, after := [Entry(path, file, RowCount(file), None)], files[path := file];
      assert forall before: seq<Entry> :: (before + entries)[..|before|] == before;
    }
  }

  /** The directory of bundles, and whether a .publishing directory is there. */
  class Publisher {
    var bundles: map<Semantic, Bundle>
    var publishing: bool

    /** A bundle's name is its directory's name. */
    ghost predicate Valid()
      reads this
    {
      forall id :: id in bundles ==> bundles[id].name == id
    }

    constructor ()
      ensures Valid() && bundles == map[] && !publishing
    {
      bundles, publishing := map[], false;
    }

    /** export_signal_foundry_bundle; source is None when the source manifest is rejected. */
    method Export(panel: Frame, universe: Records, actions: Records, source: Option<Source>)
        returns (r: Result<Semantic, BundleError>)
      requires Valid()
      modifies this
      ensures Valid() && publishing == old(publishing)
      ensures r.Ok? <==>
              && source.Some? && Coerced(panel, universe, actions).Some? && !old(publishing)
              && var v := Coerced(panel, universe, actions).value;
                 v.prices != [] &&
                 var id := Describe(v.prices, v.universe, v.actions, source.value);
                 id in old(bundles) ==> ValidBundle(old(bundles)[id])
      ensures r.Ok? ==>
                var v := Coerced(panel, universe, actions).value;
                var exported := BundleOf(v.prices, v.universe, v.actions, source.value);
                && r.value == exported.name
                && bundles == (if r.value in old(bundles) then old(bundles) else old(bundles)[r.value := exported])
                && ValidBundle(bundles[r.value]) && Contents(bundles[r.value]) == v
                && bundles[r.value].(extra := exported.extra) == exported
      ensures r.Err? ==> bundles == old(bundles)
    {
      hide CoerceFrame, B.Coerce, Years, Directory, ValidBundle, Tickers, MinDay, MaxDay, PriceEntries, Auxiliary;
      if source.None? {
        return Err(BadSource);
      }
      var p := CoerceFrame(panel);
      if p.Err? {
        return Err(BadFrame);
      }
      var u := B.Coerce(B.UniverseFamily, universe);
      var a := B.Coerce(B.ActionFamily, actions);
      if u.Err? || a.Err? {
        return Err(BadRecords);
      }
      if publishing {
        return Err(StaleStaging);
      }
      publishing := true;
      ghost var v := View(p.value, u.value, a.value);
      CoercedIsCanonical(panel, universe, actions);
      ExportRoundTrip(v, source.value);
      var entries, files := WritePartitions(p.value);
      var universeFiles, files1 := WriteAuxiliary(UNIVERSE_PATH, Universe(u.value), files);
      var actionFiles, files2 := WriteAuxiliary(ACTIONS_PATH, Actions(a.value), files1);
      assert entries + universeFiles + actionFiles == entries + (universeFiles + actionFiles);
      var id := Semantic(entries, |p.value|, MinDay(p.value), MaxDay(p.value), Tickers(p.value), source.value,
                         Some(RecordSets(universeFiles, |u.value|, actionFiles, |a.value|)));
      var bundle := Bundle(id, id, id, files2, ExportExtra(source.value));
      assert bundle == BundleOf(v.prices, v.universe, v.actions, source.value);
      if id in bundles {
        var existing := Validate(bundles[id]);
        publishing := false;
        if existing.Err? {
          return Err(existing.error);
        }
        NameDeterminesRecords(bundles[id], bundle);
        return Ok(id);
      }
      bundles := bundles[id := bundle];
      publishing := false;
      var checked := Validate(bundle);
      if checked.Err? {
        assert false;
      }
      r := Ok(id);
    }
  }

  /** One name, two bundles: an exported bundle, and the same directory after created_at was edited. */
  lemma SameNameTwoBundles(v: View, source: Source, createdAt: string) returns (a: Bundle, b: Bundle)
    requires Canonical(v) && createdAt != source.createdAt
    ensures ValidBundle(a) && ValidBundle(b) && a.name == b.name && a != b && Contents(a) == Contents(b) == v
  {
    ExportRoundTrip(v, source);
    hide ValidBundle, Contents, Canonical, Describe, Directory;
    a := BundleOf(v.prices, v.universe, v.actions, source);
    var extra := a.extra.(createdAt := createdAt);
    ExtrasAreFree(a, extra);
    b := a.(extra := extra);
  }

  /** Exporting the same price rows in another order gives the same bundle. */
  lemma ExportIsOrderFree(panel: Frame, permuted: Frame, universe: Records, actions: Records)
    requires multiset(panel) == multiset(permuted)
    ensures Coerced(panel, universe, actions) == Coerced(permuted, universe, actions)
  {
    hide CoerceFrame, B.Coerce;
    CoerceFrameOrderFree(panel, permuted);
  }

  // ----- whether the bundle's name depends on the order of the inputs

  /** The identity under which these inputs are exported. */
  function ExportName(panel: Frame, universe: Records, actions: Records, source: Source): Option<Semantic> {
    var v := Coerced(panel, universe, actions);
    if v.None? || v.value.prices == [] then None
    else Some(Describe(v.value.prices, v.value.universe, v.value.actions, source))
  }

  /** A bundle's identity determines everything exported in it. */
  lemma NameDeterminesView(v: View, w: View, source: Source)
    requires Canonical(v) && Canonical(w) && v.prices != [] && w.prices != []
    requires Describe(v.prices, v.universe, v.actions, source) == Describe(w.prices, w.universe, w.actions, source)
    ensures v == w
  {
    hide Canonical, Describe, Directory, ValidBundle, Contents;
    ExportRoundTrip(v, source);
    ExportRoundTrip(w, source);
    NameDeterminesRecords(BundleOf(v.prices, v.universe, v.actions, source), BundleOf(w.prices, w.universe, w.actions, source));
  }

  /** Inputs are exported under one name exactly when they are coerced alike. */
  lemma SameNameIff(p: Frame, u: Records, a: Records, q: Frame, x: Records, y: Records, source: Source)
    requires Coerced(p, u, a).Some? && Coerced(q, x, y).Some?
    ensures ExportName(p, u, a, source).Some?
    ensures ExportName(p, u, a, source) == ExportName(q, x, y, source) <==> Coerced(p, u, a) == Coerced(q, x, y)
  {
    CoercedIsCanonical(p, u, a);
    CoercedIsCanonical(q, x, y);
    hide Canonical, Describe, Coerced;
    if ExportName(p, u, a, source) == ExportName(q, x, y, source) {
      NameDeterminesView(Coerced(p, u, a).value, Coerced(q, x, y).value, source);
    }
  }

  /** The same rows and records, each set in any order. */
  ghost predicate Permuted(p: Frame, u: Records, a: Records, q: Frame, x: Records, y: Records) {
    multiset(p) == multiset(q) && multiset(u) == multiset(x) && multiset(a) == multiset(y)
  }

  /** Every order of the inputs is exported under this name. */
  ghost predicate NameOrderFree(panel: Frame, universe: Records, actions: Records, source: Source) {
    forall q, x, y :: Permuted(panel, universe, actions, q, x, y) ==>
                        ExportName(q, x, y, source) == ExportName(panel, universe, actions, source)
  }

  lemma CoercedParts(panel: Frame, universe: Records, actions: Records)
    ensures Coerced(panel, universe, actions).Some? <==>
            CoerceFrame(panel).Ok? && B.Coerce(B.UniverseFamily, universe).Ok? && B.Coerce(B.ActionFamily, actions).Ok?
    ensures Coerced(panel, universe, actions).Some? ==>
              Coerced(panel, universe, actions).value
              == View(CoerceFrame(panel).value, B.Coerce(B.UniverseFamily, universe).value, B.Coerce(B.ActionFamily, actions).value)
  {
    hide CoerceFrame, B.Coerce;
  }

  lemma UntiedNameFree(p: Frame, u: Records, a: Records, q: Frame, x: Records, y: Records)
    requires Coerced(p, u, a).Some? && Permuted(p, u, a, q, x, y)
    requires B.OrderFree(B.UniverseFamily, u) && B.OrderFree(B.ActionFamily, a)
    ensures Coerced(q, x, y) == Coerced(p, u, a)
  {
    hide CoerceFrame, B.Coerce;
    CoerceFrameOrderFree(p, q);
  }

  /**
   * The content-addressed identity is independent of the order of the inputs exactly when no two membership records
   * and no two action records tie in the canonical order; price rows never tie.
   */
  lemma NameOrderFreeIff(panel: Frame, universe: Records, actions: Records, source: Source)
    requires Coerced(panel, universe, actions).Some?
    ensures NameOrderFree(panel, universe, actions, source) <==> B.Untied(universe) && B.Untied(actions)
  {
    hide CoerceFrame, B.Coerce, B.Untied, Coerced, ExportName, B.OrderFree;
    CoercedParts(panel, universe, actions);
    B.OrderFreeIff(B.UniverseFamily, universe);
    B.OrderFreeIff(B.ActionFamily, actions);
    if B.Untied(universe) && B.Untied(actions) {
      forall q, x, y | Permuted(panel, universe, actions, q, x, y)
        ensures ExportName(q, x, y, source) == ExportName(panel, universe, actions, source)
      {
        UntiedNameFree(panel, universe, actions, q, x, y);
        SameNameIff(q, x, y, panel, universe, actions, source);
      }
    } else if !B.Untied(universe) {
      var x := B.TieShows(B.UniverseFamily, universe);
      CoercedParts(panel, x, actions);
      SameNameIff(panel, x, actions, panel, universe, actions, source);
      assert Permuted(panel, universe, actions, panel, x, actions);
    } else {
      var y := B.TieShows(B.ActionFamily, actions);
      CoercedParts(panel, universe, y);
      SameNameIff(panel, universe, y, panel, universe, actions, source);
      assert Permuted(panel, universe, actions, panel, universe, y);
    }
  }

  /** Two memberships that tie, and their two orders exported with any panel: the as-of views agree, the names do not. */
  lemma OrderChangesName(panel: Frame, source: Source) returns (u: Records, x: Records)
    requires CoerceFrame(panel).Ok?
    ensures multiset(u) == multiset(x) && ExportName(panel, u, [], source).Some? && ExportName(panel, x, [], source).Some?
    ensures ExportName(panel, u, [], source) != ExportName(panel, x, [], source)
    ensures forall t :: B.VisibleRevisions(u, t) == B.VisibleRevisions(x, t)
  {
    u, x := [B.Twin("a"), B.Twin("b")], [B.Twin("b"), B.Twin("a")];
    B.TwinsKeepOrder();
    assert u[0] != x[0];
    NoActions();
    hide CoerceFrame, B.Coerce, B.VisibleRevisions, ExportName, Coerced;
    B.CoerceIff(B.UniverseFamily, u);
    CoercedParts(panel, u, []);
    CoercedParts(panel, x, []);
    SameNameIff(panel, u, [], panel, x, [], source);
    SameNameIff(panel, x, [], panel, u, [], source);
    forall t
      ensures B.VisibleRevisions(u, t) == B.VisibleRevisions(x, t)
    {
      B.ViewOfPermutation(u, x, t);
    }
  }

  lemma NoActions()
    ensures B.Coerce(B.ActionFamily, []).Ok?
  {
  }
}
