/** One request directory of the Nasdaq Data Link cache: staging, immutable snapshots, manifest, pointer and lock,
    advanced one durable write at a time by any number of fetches that may fail or crash between writes. */
module SnapshotCache {
  import opened Common
  import opened TablePages

  /** A snapshot directory is named by the hash of its page hashes: hashing is injective, so by its pages. */
  type Key = seq<Payload>

  datatype Manifest = Manifest(snapshot: Key, pages: seq<Payload>, retrievedAt: string, rowCount: nat, lag: int, used: nat)

  datatype Snapshot = Snapshot(files: map<nat, Payload>, manifest: Option<Manifest>)

  /** latest.json: the snapshot's name and the hash of its manifest. */
  datatype Pointer = Pointer(snapshot: Key, manifest: Manifest)

  datatype Disk = Disk(staging: Option<map<nat, Payload>>, snapshots: map<Key, Snapshot>, latest: Option<Pointer>,
                       locked: bool)

  /** A canonical panel is determined by the table, the availability lag and the retrieval time. */
  datatype Panel = Panel(columns: seq<string>, rows: seq<seq<Cell>>, lag: int, retrievedAt: string)

  datatype FetchResult = FetchResult(panel: Panel, manifest: Manifest)

  /** Whether _normalise and _validate_panel_scope accept a table for this request. */
  type Rules = (seq<string>, seq<seq<Cell>>) -> bool

  /** Where the fetch that owns the lock is. */
  datatype Phase =
    | Idle
    | Fetching(lag: int)
    | Collected(lag: int, pages: Key, retrievedAt: string)
    | Existing(lag: int, pages: Key)
    | Promoted(lag: int, pages: Key, retrievedAt: string)
    | Normalised(lag: int, pages: Key, retrievedAt: string)
    | Manifested(lag: int, pages: Key, manifest: Manifest)
    | Pointed(result: FetchResult)

  /** wrote is the result of the fetch that last wrote the pointer. */
  datatype State = State(disk: Disk, phase: Phase, wrote: Option<FetchResult>)

  datatype Event =
    | EnsureStaging
    | Lock(lag: int)
    | Stage(page: nat, payload: Payload)
    | Collect(pages: Key, retrievedAt: string)
    | Advance(used: nat)
    | Fail
    | Crash
    | RemoveLock

  ghost predicate Readable(files: map<nat, Payload>, pages: Key) {
    pages != [] && Uniform(pages) && forall i :: 0 <= i < |pages| ==> i in files && files[i] == pages[i]
  }

  ghost predicate Accepted(rules: Rules, pages: Key)
    requires Uniform(pages) && pages != []
  {
    rules(PageOf(pages[0]).columns, AllRows(pages))
  }

  ghost function PanelOf(pages: Key, lag: int, retrievedAt: string): Panel
    requires Uniform(pages) && pages != []
  {
    Panel(PageOf(pages[0]).columns, AllRows(pages), lag, retrievedAt)
  }

  ghost function Release(s: State): State {
    s.(disk := s.disk.(locked := false), phase := Idle)
  }

  ghost function Point(s: State, pages: Key, manifest: Manifest, result: FetchResult): State {
    State(s.disk.(latest := Some(Pointer(pages, manifest))), Pointed(result), Some(result))
  }

  /** Collected: an existing snapshot makes staging redundant, otherwise staging becomes the snapshot. */
  ghost function Install(s: State): State
    requires s.phase.Collected? && s.disk.staging.Some?
  {
    var d := s.disk.(staging := None);
    if s.phase.pages in s.disk.snapshots then State(d, Existing(s.phase.lag, s.phase.pages), s.wrote)
    else
      State(d.(snapshots := d.snapshots[s.phase.pages := Snapshot(s.disk.staging.value, None)]),
            Promoted(s.phase.lag, s.phase.pages, s.phase.retrievedAt), s.wrote)
  }

  /** Existing: a snapshot without a manifest is an error; otherwise its own manifest is pointed at. */
  ghost function Reuse(s: State): State
    requires s.phase.Existing? && s.phase.pages in s.disk.snapshots
    requires Uniform(s.phase.pages) && s.phase.pages != []
  {
    var m := s.disk.snapshots[s.phase.pages].manifest;
    if m.None? then Release(s)
    else Point(s, s.phase.pages, m.value, FetchResult(PanelOf(s.phase.pages, s.phase.lag, m.value.retrievedAt), m.value))
  }

  ghost function WriteManifest(s: State, used: nat): State
    requires s.phase.Normalised? && s.phase.pages in s.disk.snapshots
    requires Uniform(s.phase.pages) && s.phase.pages != []
  {
    var p := s.phase;
    var m := Manifest(p.pages, p.pages, p.retrievedAt, |AllRows(p.pages)|, p.lag, used);
    var snap := s.disk.snapshots[p.pages].(manifest := Some(m));
    State(s.disk.(snapshots := s.disk.snapshots[p.pages := snap]), Manifested(p.lag, p.pages, m), s.wrote)
  }

  /** The phase names a snapshot that is there; Inv shows this of every reachable state. */
  ghost predicate Here(s: State, pages: Key) {
    pages != [] && Uniform(pages) && pages in s.disk.snapshots
  }

  /** The next durable write, or decision, of the fetch that owns the lock. */
  ghost function Next(rules: Rules, s: State, used: nat): State {
    match s.phase
    case Collected(_, _, _) => if s.disk.staging.Some? then Install(s) else s
    case Existing(_, pages) => if Here(s, pages) then Reuse(s) else s
    case Promoted(lag, pages, at) =>
      if !Here(s, pages) then s
      else if Accepted(rules, pages) then s.(phase := Normalised(lag, pages, at)) else Release(s)
    case Normalised(_, pages, _) => if Here(s, pages) then WriteManifest(s, used) else s
    case Manifested(lag, pages, m) =>
      if Here(s, pages) then Point(s, pages, m, FetchResult(PanelOf(pages, lag, m.retrievedAt), m)) else s
    case Pointed(_) => Release(s)
    case _ => s
  }

  ghost function Apply(rules: Rules, s: State, e: Event): State {
    match e
    case EnsureStaging => if s.disk.staging.None? then s.(disk := s.disk.(staging := Some(map[]))) else s
    case Lock(lag) => if s.disk.locked then s else s.(disk := s.disk.(locked := true), phase := Fetching(lag))
    case Stage(page, payload) =>
      if s.phase.Fetching? && s.disk.staging.Some? && page !in s.disk.staging.value
      then s.(disk := s.disk.(staging := Some(s.disk.staging.value[page := payload]))) else s
    case Collect(pages, at) =>
      if s.phase.Fetching? && s.disk.staging.Some? && Readable(s.disk.staging.value, pages)
      then s.(phase := Collected(s.phase.lag, pages, at)) else s
    case Advance(used) => Next(rules, s, used)
    case Fail => if s.phase.Idle? then s else Release(s)
    case Crash => s.(phase := Idle)
    case RemoveLock => if s.phase.Idle? then s.(disk := s.disk.(locked := false)) else s
  }

  ghost function Run(rules: Rules, s: State, events: seq<Event>): State
    decreases |events|
  {
    if events == [] then s else Run(rules, Apply(rules, s, events[0]), events[1..])
  }

  const EMPTY := State(Disk(None, map[], None, false), Idle, None)

  // ----- the invariant

  ghost predicate ManifestFits(rules: Rules, pages: Key, m: Manifest)
    requires Uniform(pages) && pages != []
  {
    m.snapshot == pages && m.pages == pages && m.rowCount == |AllRows(pages)| && Accepted(rules, pages)
  }

  ghost predicate SnapshotSound(rules: Rules, pages: Key, snap: Snapshot) {
    Readable(snap.files, pages) && (snap.manifest.Some? ==> ManifestFits(rules, pages, snap.manifest.value))
  }

  ghost predicate PointerSound(snapshots: map<Key, Snapshot>, p: Pointer) {
    p.snapshot in snapshots && snapshots[p.snapshot].manifest == Some(p.manifest)
  }

  ghost predicate PhaseSound(rules: Rules, d: Disk, phase: Phase) {
    match phase
    case Idle => true
    case Fetching(_) => d.locked
    case Collected(_, pages, _) => d.locked && d.staging.Some? && Readable(d.staging.value, pages)
    case Existing(_, pages) => d.locked && pages in d.snapshots
    case Promoted(_, pages, _) => d.locked && pages in d.snapshots && d.snapshots[pages].manifest == None
    case Normalised(_, pages, _) =>
      d.locked && pages in d.snapshots && d.snapshots[pages].manifest == None
      && Readable(d.snapshots[pages].files, pages) && Accepted(rules, pages)
    case Manifested(_, pages, m) => d.locked && pages in d.snapshots && d.snapshots[pages].manifest == Some(m)
    case Pointed(_) => d.locked
  }

  /** The result of the fetch that wrote the pointer: the pointer's manifest, and the panel at that fetch's lag. */
  ghost predicate WroteSound(d: Disk, wrote: Option<FetchResult>) {
    && (wrote.Some? <==> d.latest.Some?)
    && (wrote.Some? ==>
          var key := d.latest.value.snapshot;
          && key != [] && Uniform(key) && wrote.value.manifest == d.latest.value.manifest
          && wrote.value.panel == PanelOf(key, wrote.value.panel.lag, wrote.value.manifest.retrievedAt))
  }

  ghost predicate Inv(rules: Rules, s: State) {
    && (forall k :: k in s.disk.snapshots ==> SnapshotSound(rules, k, s.disk.snapshots[k]))
    && (s.disk.latest.Some? ==> PointerSound(s.disk.snapshots, s.disk.latest.value))
    && PhaseSound(rules, s.disk, s.phase) && WroteSound(s.disk, s.wrote)
  }

  /** Snapshots are never removed or rewritten, and a manifest once written stays. */
  ghost predicate Immutable(a: map<Key, Snapshot>, b: map<Key, Snapshot>) {
    forall k :: k in a ==> k in b && b[k].files == a[k].files && (a[k].manifest.Some? ==> b[k].manifest == a[k].manifest)
  }

  ghost predicate Kept(rules: Rules, s: State, t: State) {
    Inv(rules, t) && Immutable(s.disk.snapshots, t.disk.snapshots)
  }

  lemma InstallKeeps(rules: Rules, s: State)
    requires Inv(rules, s) && s.phase.Collected?
    ensures s.disk.staging.Some? && Kept(rules, s, Install(s))
  {
    hide Uniform, AllRows, PageOf, Accepted, Readable, ManifestFits;
  }

  lemma ReuseKeeps(rules: Rules, s: State)
    requires Inv(rules, s) && s.phase.Existing? && Here(s, s.phase.pages)
    ensures Kept(rules, s, Reuse(s))
  {
    hide Uniform, AllRows, PageOf, Accepted, Readable;
    assert SnapshotSound(rules, s.phase.pages, s.disk.snapshots[s.phase.pages]);
  }

  lemma ManifestKeeps(rules: Rules, s: State, used: nat)
    requires Inv(rules, s) && s.phase.Normalised? && Here(s, s.phase.pages)
    ensures Kept(rules, s, WriteManifest(s, used))
  {
    hide Uniform, AllRows, PageOf, Accepted, Readable;
  }

  lemma NextKeeps(rules: Rules, s: State, used: nat)
    requires Inv(rules, s)
    ensures Kept(rules, s, Next(rules, s, used))
  {
    hide Uniform, AllRows, PageOf, Accepted, Install, Reuse, WriteManifest, Immutable;
    if s.phase.Collected? {
      InstallKeeps(rules, s);
    } else if s.phase.Existing? && Here(s, s.phase.pages) {
      ReuseKeeps(rules, s);
    } else if s.phase.Normalised? && Here(s, s.phase.pages) {
      ManifestKeeps(rules, s, used);
    } else {
      SameSnapshots(s.disk.snapshots);
      assert s.phase.Promoted? || s.phase.Manifested? ==>
          SnapshotSound(rules, s.phase.pages, s.disk.snapshots[s.phase.pages]);
    }
  }

  lemma SameSnapshots(a: map<Key, Snapshot>)
    ensures Immutable(a, a)
  {
  }

  lemma StepKeeps(rules: Rules, s: State, e: Event)
    requires Inv(rules, s)
    ensures Kept(rules, s, Apply(rules, s, e))
  {
    hide Uniform, AllRows, PageOf, Accepted, Next, SnapshotSound, Immutable;
    SameSnapshots(s.disk.snapshots);
    if e.Advance? {
      NextKeeps(rules, s, e.used);
    }
  }

  lemma {:induction false} RunKeeps(rules: Rules, s: State, events: seq<Event>)
    requires Inv(rules, s)
    ensures Inv(rules, Run(rules, s, events)) && Immutable(s.disk.snapshots, Run(rules, s, events).disk.snapshots)
    decreases |events|
  {
    hide Inv, Apply;
    if events != [] {
      StepKeeps(rules, s, events[0]);
      RunKeeps(rules, Apply(rules, s, events[0]), events[1..]);
    }
  }

  ghost predicate Reachable(rules: Rules, s: State) {
    exists events :: s == Run(rules, EMPTY, events)
  }

  lemma ReachableInv(rules: Rules, s: State)
    requires Reachable(rules, s)
    ensures Inv(rules, s)
  {
    var events :| s == Run(rules, EMPTY, events);
    RunKeeps(rules, EMPTY, events);
  }

  // ----- _load_latest

  datatype CacheError = NoManifest | ManifestHash | ManifestMismatch | NoPages | PageHash | BadPage | Schema | Refused | RowCount

  /** What a load must find on disk to return this result. */
  ghost predicate Loads(rules: Rules, latest: Option<Pointer>, snapshots: map<Key, Snapshot>, lag: int, r: FetchResult) {
    && latest.Some? && PointerSound(snapshots, latest.value)
    && var p := latest.value;
       var m := p.manifest;
       && m.snapshot == p.snapshot && Readable(snapshots[p.snapshot].files, m.pages)
       && Accepted(rules, m.pages) && m.rowCount == |AllRows(m.pages)|
       && r == FetchResult(PanelOf(m.pages, lag, m.retrievedAt), m)
  }

  /** The page loop of _load_latest: succeeds exactly on readable pages, with their columns and rows. */
  method ReadPages(files: map<nat, Payload>, pages: Key) returns (r: Result<(seq<string>, seq<seq<Cell>>), CacheError>)
    requires pages != []
    ensures r.Ok? <==> Readable(files, pages)
    ensures r.Ok? ==> r.value == (PageOf(pages[0]).columns, AllRows(pages))
  {
    hide PageOf, WellFormed, AllRows;
    var columns: Option<seq<string>>, rows: seq<seq<Cell>> := None, [];
    assert pages[..0] == [] && AllRows([]) == [] by { NoRows(); }
    for n := 0 to |pages|
      invariant rows == AllRows(pages[..n])
      invariant forall i :: 0 <= i < n ==> i in files && files[i] == pages[i]
      invariant forall i :: 0 <= i < n ==> WellFormed(pages[i]) && columns == Some(PageOf(pages[i]).columns)
      invariant columns.None? <==> n == 0
    {
      if n !in files || files[n] != pages[n] {
        return Err(PageHash);
      }
      var page := ParseTablePage(files[n]);
      if page.None? {
        return Err(BadPage);
      }
      if columns.Some? && columns.value != page.value.columns {
        return Err(Schema);
      }
      columns := Some(page.value.columns);
      RowsMore(pages, n);
      rows := rows + page.value.rows;
    }
    assert pages[..|pages|] == pages;
    r := Ok((columns.value, rows));
  }

  lemma NoRows()
    ensures AllRows([]) == []
  {
  }

  /** _load_latest: every check on the pointer, manifest, page hashes, schema and row count, in order. */
  method LoadLatest(rules: Rules, latest: Option<Pointer>, snapshots: map<Key, Snapshot>, lag: int)
      returns (r: Result<Option<FetchResult>, CacheError>)
    ensures r == Ok(None) <==> latest == None
    ensures r.Ok? && r.value.Some? ==> Loads(rules, latest, snapshots, lag, r.value.value)
    ensures r.Err? ==> forall result :: !Loads(rules, latest, snapshots, lag, result)
  {
    hide PageOf, WellFormed, AllRows, Uniform;
    if latest.None? {
      return Ok(None);
    }
    var p := latest.value;
    if p.snapshot !in snapshots || snapshots[p.snapshot].manifest.None? {
      return Err(NoManifest);
    }
    var m := snapshots[p.snapshot].manifest.value;
    if m != p.manifest {
      return Err(ManifestHash);
    }
    if m.snapshot != p.snapshot {
      return Err(ManifestMismatch);
    }
    if m.pages == [] {
      return Err(NoPages);
    }
    var read := ReadPages(snapshots[p.snapshot].files, m.pages);
    if read.Err? {
      return Err(read.error);
    }
    var (columns, rows) := read.value;
    if !rules(columns, rows) {
      return Err(Refused);
    }
    if m.rowCount != |rows| {
      return Err(RowCount);
    }
    r := Ok(Some(FetchResult(Panel(columns, rows, lag, m.retrievedAt), m)));
  }

  lemma RowsMore(pages: seq<Payload>, n: nat)
    requires n < |pages| && WellFormed(pages[n])
    ensures AllRows(pages[..n + 1]) == AllRows(pages[..n]) + PageOf(pages[n]).rows
  {
    hide PageOf, WellFormed;
    assert pages[..n + 1][..n] == pages[..n];
  }

  // ----- what a load returns

  /** Whatever crashed in between: a pointer read now leads, at any later time, to intact pages and their manifest. */
  lemma LoadsWhatWasPointedAt(rules: Rules, s: State, events: seq<Event>, lag: int)
    requires Reachable(rules, s) && s.disk.latest.Some?
    ensures s.wrote.Some?
    ensures Loads(rules, s.disk.latest, Run(rules, s, events).disk.snapshots, lag,
                  FetchResult(s.wrote.value.panel.(lag := lag), s.wrote.value.manifest))
  {
    hide Uniform, AllRows, PageOf, Accepted;
    ReachableInv(rules, s);
    RunKeeps(rules, s, events);
    var later := Run(rules, s, events).disk.snapshots;
    var key := s.disk.latest.value.snapshot;
    assert key in s.disk.snapshots && SnapshotSound(rules, key, s.disk.snapshots[key]);
    assert later[key].files == s.disk.snapshots[key].files;
  }

  lemma LoadsOnce(rules: Rules, latest: Option<Pointer>, snapshots: map<Key, Snapshot>, lag: int, a: FetchResult, b: FetchResult)
    requires Loads(rules, latest, snapshots, lag, a) && Loads(rules, latest, snapshots, lag, b)
    ensures a == b
  {
  }

  /** A load returns the result of the fetch that wrote the pointer exactly when both use the same availability lag. */
  lemma LoadEqualsWriter(rules: Rules, s: State, lag: int)
    requires Reachable(rules, s) && s.disk.latest.Some?
    ensures s.wrote.Some?
    ensures Loads(rules, s.disk.latest, s.disk.snapshots, lag, s.wrote.value) <==> lag == s.wrote.value.panel.lag
  {
    hide Loads, Reachable;
    LoadsWhatWasPointedAt(rules, s, [], lag);
    var r := FetchResult(s.wrote.value.panel.(lag := lag), s.wrote.value.manifest);
    if Loads(rules, s.disk.latest, s.disk.snapshots, lag, s.wrote.value) {
      LoadsOnce(rules, s.disk.latest, s.disk.snapshots, lag, s.wrote.value, r);
    }
  }

  // ----- snapshots without a manifest

  /** A snapshot that no running fetch is about to give a manifest. */
  ghost predicate Orphan(s: State, k: Key) {
    && k in s.disk.snapshots && s.disk.snapshots[k].manifest == None
    && !((s.phase.Promoted? || s.phase.Normalised?) && s.phase.pages == k)
  }

  lemma OrphanStep(rules: Rules, s: State, e: Event, k: Key)
    requires Inv(rules, s) && Orphan(s, k)
    ensures Orphan(Apply(rules, s, e), k)
  {
    hide Uniform, AllRows, PageOf, Accepted;
  }

  /** An orphan never gets a manifest, so no later pointer ever names it. */
  lemma {:induction false} OrphanForever(rules: Rules, s: State, k: Key, events: seq<Event>)
    requires Inv(rules, s) && Orphan(s, k)
    ensures Orphan(Run(rules, s, events), k)
    ensures Run(rules, s, events).disk.latest.Some? ==> Run(rules, s, events).disk.latest.value.snapshot != k
    decreases |events|
  {
    hide Apply;
    if events == [] {
      assert s.disk.latest.Some? ==> PointerSound(s.disk.snapshots, s.disk.latest.value);
    } else {
      OrphanStep(rules, s, events[0], k);
      StepKeeps(rules, s, events[0]);
      OrphanForever(rules, Apply(rules, s, events[0]), k, events[1..]);
    }
  }

  /** A fetch that gathers an orphan's pages again deletes its staging and ends in the missing-manifest error. */
  lemma OrphanDefeatsFetch(rules: Rules, s: State, k: Key, used: nat)
    requires Inv(rules, s) && Orphan(s, k) && s.phase.Collected? && s.phase.pages == k
    ensures Run(rules, s, [Advance(used), Advance(used)])
         == State(s.disk.(staging := None, locked := false), Idle, s.wrote)
  {
    hide Uniform, AllRows, PageOf, Accepted;
    var t := Apply(rules, s, Advance(used));
    assert t.phase == Existing(s.phase.lag, k) && Here(t, k);
    TwoSteps(rules, s, Advance(used), Advance(used));
  }

  lemma TwoSteps(rules: Rules, s: State, a: Event, b: Event)
    ensures Run(rules, s, [a, b]) == Apply(rules, Apply(rules, s, a), b)
  {
    hide Apply;
    assert [a, b][1..] == [b] && [b][1..] == [];
    var t := Apply(rules, s, a);
    assert Run(rules, t, [b]) == Run(rules, Apply(rules, t, b), []);
  }

  /** A snapshot still without a manifest can get one exactly when its own fetch is running and its table is acceptable. */
  lemma ManifestReachableIff(rules: Rules, s: State, k: Key)
    requires Inv(rules, s) && k in s.disk.snapshots && s.disk.snapshots[k].manifest == None
    ensures k != [] && Uniform(k)
    ensures (exists events :: k in Run(rules, s, events).disk.snapshots
                              && Run(rules, s, events).disk.snapshots[k].manifest.Some?)
            <==> !Orphan(s, k) && Accepted(rules, k)
  {
    hide Uniform, AllRows, PageOf, Accepted;
    assert SnapshotSound(rules, k, s.disk.snapshots[k]);
    if Orphan(s, k) {
      forall events
        ensures k in Run(rules, s, events).disk.snapshots
        ensures Run(rules, s, events).disk.snapshots[k].manifest == None
      {
        OrphanForever(rules, s, k, events);
      }
    } else if Accepted(rules, k) {
      var one, two := Run(rules, s, [Advance(0)]), Run(rules, s, [Advance(0), Advance(0)]);
      TwoSteps(rules, s, Advance(0), Advance(0));
      assert [Advance(0)][1..] == [];
      assert s.phase.Normalised? ==> one.disk.snapshots[k].manifest.Some?;
      assert s.phase.Promoted? ==> two.disk.snapshots[k].manifest.Some?;
    } else {
      forall events
        ensures k in Run(rules, s, events).disk.snapshots ==> Run(rules, s, events).disk.snapshots[k].manifest == None
      {
        RunKeeps(rules, s, events);
        assert k in Run(rules, s, events).disk.snapshots
               ==> SnapshotSound(rules, k, Run(rules, s, events).disk.snapshots[k]);
      }
    }
  }

  /** One crash between the rename and the manifest write orphans the pages of any acceptable table. */
  lemma CrashOrphans(rules: Rules, s: State, pages: Key, lag: int, retrievedAt: string, used: nat)
    requires Inv(rules, s) && s.phase == Collected(lag, pages, retrievedAt) && pages !in s.disk.snapshots
    ensures Orphan(Run(rules, s, [Advance(used), Crash]), pages)
  {
    hide Uniform, AllRows, PageOf, Accepted;
    TwoSteps(rules, s, Advance(used), Crash);
  }

  /** Without any crash, a table the checks refuse is orphaned too: it is promoted before it is checked. */
  lemma RefusalOrphans(rules: Rules, s: State, pages: Key, lag: int, retrievedAt: string, used: nat)
    requires Inv(rules, s) && s.phase == Collected(lag, pages, retrievedAt) && pages !in s.disk.snapshots
    ensures pages != [] && Uniform(pages)
    ensures !Accepted(rules, pages) ==> Orphan(Run(rules, s, [Advance(used), Advance(used)]), pages)
  {
    hide Uniform, AllRows, PageOf, Accepted;
    TwoSteps(rules, s, Advance(used), Advance(used));
    var t := Apply(rules, s, Advance(used));
    assert t.phase == Promoted(lag, pages, retrievedAt) && Here(t, pages);
  }

  // ----- every table can be orphaned

  ghost function Stages(pages: Key, n: nat): (r: seq<Event>)
    requires n <= |pages|
    ensures |r| == |pages| - n
  {
    seq(|pages| - n, i requires 0 <= i < |pages| - n => Stage(n + i, pages[n + i]))
  }

  /** A whole fetch of these pages, up to the point where it has them all. */
  ghost function Gather(pages: Key, lag: int, retrievedAt: string): seq<Event> {
    [EnsureStaging, Lock(lag)] + Stages(pages, 0) + [Collect(pages, retrievedAt)]
  }

  lemma {:induction false} RunJoin(rules: Rules, s: State, a: seq<Event>, b: seq<Event>)
    ensures Run(rules, s, a + b) == Run(rules, Run(rules, s, a), b)
    decreases |a|
  {
    hide Apply;
    if a == [] {
      assert a + b == b;
    } else {
      assert (a + b)[1..] == a[1..] + b;
      RunJoin(rules, Apply(rules, s, a[0]), a[1..], b);
    }
  }

  /** The staging directory holds exactly the first n pages. */
  ghost predicate Staged(s: State, pages: Key, n: nat)
    requires n <= |pages|
  {
    s.disk.staging == Some(map i: nat | 0 <= i < n :: pages[i])
  }

  lemma {:induction false} StagesRun(rules: Rules, s: State, pages: Key, n: nat)
    requires s.phase.Fetching? && n <= |pages| && Staged(s, pages, n)
    ensures var t := Run(rules, s, Stages(pages, n));
            Staged(t, pages, |pages|) && t == s.(disk := s.disk.(staging := t.disk.staging))
    decreases |pages| - n
  {
    if n < |pages| {
      var t := Apply(rules, s, Stage(n, pages[n]));
      assert t.disk.staging.value == map i: nat | 0 <= i < n + 1 :: pages[i];
      assert Stages(pages, n)[1..] == Stages(pages, n + 1);
      StagesRun(rules, t, pages, n + 1);
    }
  }

  /** With the lock free and nothing staged, a fetch can gather any nonempty chain of pages with one schema. */
  lemma Gathers(rules: Rules, s: State, pages: Key, lag: int, retrievedAt: string)
    requires s.phase.Idle? && !s.disk.locked && s.disk.staging == None && pages != [] && Uniform(pages)
    ensures var t := Run(rules, s, Gather(pages, lag, retrievedAt));
            && t.phase == Collected(lag, pages, retrievedAt) && t.disk.locked && t.disk.staging.Some?
            && t.disk.snapshots == s.disk.snapshots && t.disk.latest == s.disk.latest && t.wrote == s.wrote
  {
    hide Uniform;
    TwoSteps(rules, s, EnsureStaging, Lock(lag));
    var opening := [EnsureStaging, Lock(lag)];
    var t := Run(rules, s, opening);
    assert t.disk.staging == Some(map[]);
    StagesRun(rules, t, pages, 0);
    var u := Run(rules, t, Stages(pages, 0));
    RunJoin(rules, s, opening, Stages(pages, 0));
    RunJoin(rules, s, opening + Stages(pages, 0), [Collect(pages, retrievedAt)]);
    assert [Collect(pages, retrievedAt)][1..] == [];
    assert Readable(u.disk.staging.value, pages);
  }

  /** An empty cache, one fetch that crashes after its rename, and an operator who then removes the stale lock. */
  ghost function CrashedFetch(pages: Key, lag: int, retrievedAt: string): seq<Event> {
    Gather(pages, lag, retrievedAt) + [Advance(0), Crash] + [RemoveLock]
  }

  /** A fetch of these pages, with the two steps after it has them all. */
  ghost function Refetch(pages: Key, lag: int, retrievedAt: string): seq<Event> {
    Gather(pages, lag, retrievedAt) + [Advance(0), Advance(0)]
  }

  /**
   * The orphan is reachable for every table the source accepts: after the crash the request has no
   * snapshot in use, and a second complete fetch of the same pages changes nothing at all.
   */
  lemma EveryTableCanBeOrphaned(rules: Rules, pages: Key, lag: int, retrievedAt: string, later: string)
    requires pages != [] && Uniform(pages)
    ensures var s := Run(rules, EMPTY, CrashedFetch(pages, lag, retrievedAt));
            && Orphan(s, pages) && s.phase.Idle? && !s.disk.locked && s.disk.latest == None
            && Run(rules, s, Refetch(pages, lag, later)) == s
  {
    hide Uniform, AllRows, PageOf, Accepted, Gather;
    RunKeeps(rules, EMPTY, CrashedFetch(pages, lag, retrievedAt));
    Gathers(rules, EMPTY, pages, lag, retrievedAt);
    var gather := Gather(pages, lag, retrievedAt);
    var s0 := Run(rules, EMPTY, gather);
    RunKeeps(rules, EMPTY, gather);
    CrashOrphans(rules, s0, pages, lag, retrievedAt, 0);
    TwoSteps(rules, s0, Advance(0), Crash);
    RunJoin(rules, EMPTY, gather, [Advance(0), Crash]);
    RunJoin(rules, EMPTY, gather + [Advance(0), Crash], [RemoveLock]);
    assert [RemoveLock][1..] == [];
    var s := Run(rules, EMPTY, CrashedFetch(pages, lag, retrievedAt));
    Gathers(rules, s, pages, lag, later);
    var again := Gather(pages, lag, later);
    RunKeeps(rules, s, again);
    OrphanForever(rules, s, pages, again);
    RunJoin(rules, s, again, [Advance(0), Advance(0)]);
    OrphanDefeatsFetch(rules, Run(rules, s, again), pages, 0);
  }

  /** Without a crash: a table the checks refuse leaves its orphan behind the first time it is fetched. */
  lemma EveryRefusedTableIsOrphaned(rules: Rules, pages: Key, lag: int, retrievedAt: string, later: string)
    requires pages != [] && Uniform(pages)
    ensures var s := Run(rules, EMPTY, Refetch(pages, lag, retrievedAt));
            !Accepted(rules, pages) ==>
              Orphan(s, pages) && s.phase.Idle? && !s.disk.locked && Run(rules, s, Refetch(pages, lag, later)) == s
  {
    hide Uniform, AllRows, PageOf, Accepted, Gather;
    var gather, again := Gather(pages, lag, retrievedAt), Gather(pages, lag, later);
    Gathers(rules, EMPTY, pages, lag, retrievedAt);
    RunKeeps(rules, EMPTY, gather);
    var s0 := Run(rules, EMPTY, gather);
    RefusalOrphans(rules, s0, pages, lag, retrievedAt, 0);
    TwoSteps(rules, s0, Advance(0), Advance(0));
    RunJoin(rules, EMPTY, gather, [Advance(0), Advance(0)]);
    RunKeeps(rules, s0, [Advance(0), Advance(0)]);
    if !Accepted(rules, pages) {
      var s := Run(rules, EMPTY, Refetch(pages, lag, retrievedAt));
      Gathers(rules, s, pages, lag, later);
      RunKeeps(rules, s, again);
      OrphanForever(rules, s, pages, again);
      RunJoin(rules, s, again, [Advance(0), Advance(0)]);
      OrphanDefeatsFetch(rules, Run(rules, s, again), pages, 0);
    }
  }

  // ----- a complete fetch is the one that later loads find

  ghost function Steps(used: nat, n: nat): (r: seq<Event>)
    ensures |r| == n
  {
    seq(n, _ => Advance(used))
  }

  lemma {:induction false} StepsRun(rules: Rules, s: State, used: nat, n: nat)
    requires n > 0
    ensures Run(rules, s, Steps(used, n)) == Run(rules, Next(rules, s, used), Steps(used, n - 1))
  {
    hide Next;
    assert Steps(used, n)[1..] == Steps(used, n - 1);
  }

  lemma StepsDone(rules: Rules, s: State, used: nat)
    ensures Run(rules, s, Steps(used, 0)) == s
  {
  }

  /** The manifest of the fetch that promotes these pages. */
  ghost function ManifestOf(pages: Key, lag: int, retrievedAt: string, used: nat): Manifest
    requires pages != [] && Uniform(pages)
  {
    Manifest(pages, pages, retrievedAt, |AllRows(pages)|, lag, used)
  }

  ghost predicate Ready(s: State) {
    s.phase.Idle? && !s.disk.locked && s.disk.staging == None
  }

  /** From the last page on: rename, checks, manifest, pointer, lock. */
  lemma PromotesAndPoints(rules: Rules, s: State, pages: Key, lag: int, retrievedAt: string, used: nat)
    requires Inv(rules, s) && s.phase == Collected(lag, pages, retrievedAt) && pages !in s.disk.snapshots
    ensures pages != [] && Uniform(pages)
    ensures Accepted(rules, pages) ==>
              var t := Run(rules, s, Steps(used, 5));
              var m := ManifestOf(pages, lag, retrievedAt, used);
              && Ready(t) && t.disk.latest == Some(Pointer(pages, m))
              && pages in t.disk.snapshots && t.disk.snapshots == s.disk.snapshots[pages := t.disk.snapshots[pages]]
              && t.disk.snapshots[pages].manifest == Some(m)
              && t.wrote == Some(FetchResult(Panel(PageOf(pages[0]).columns, AllRows(pages), lag, retrievedAt), m))
  {
    hide Uniform, AllRows, PageOf, Accepted;
    if Accepted(rules, pages) {
      var a := Next(rules, s, used);
      assert a.phase == Promoted(lag, pages, retrievedAt) && Here(a, pages);
      var b := Next(rules, a, used);
      assert b.phase == Normalised(lag, pages, retrievedAt) && Here(b, pages);
      var c := Next(rules, b, used);
      assert c.phase == Manifested(lag, pages, ManifestOf(pages, lag, retrievedAt, used)) && Here(c, pages);
      var d := Next(rules, c, used);
      StepsRun(rules, s, used, 5);
      StepsRun(rules, a, used, 4);
      StepsRun(rules, b, used, 3);
      StepsRun(rules, c, used, 2);
      StepsRun(rules, d, used, 1);
      StepsDone(rules, Next(rules, d, used), used);
    }
  }

  /** From the last page on, when the snapshot is already there with its manifest: pointer, lock. */
  lemma PointsAtExisting(rules: Rules, s: State, pages: Key, lag: int, retrievedAt: string, used: nat, m: Manifest)
    requires Inv(rules, s) && s.phase == Collected(lag, pages, retrievedAt)
    requires pages in s.disk.snapshots && s.disk.snapshots[pages].manifest == Some(m)
    ensures pages != [] && Uniform(pages)
    ensures var t := Run(rules, s, Steps(used, 3));
            && Ready(t) && t.disk.latest == Some(Pointer(pages, m)) && t.disk.snapshots == s.disk.snapshots
            && t.wrote == Some(FetchResult(Panel(PageOf(pages[0]).columns, AllRows(pages), lag, m.retrievedAt), m))
  {
    hide Uniform, AllRows, PageOf, Accepted;
    var a := Next(rules, s, used);
    assert a.phase == Existing(lag, pages) && Here(a, pages);
    var b := Next(rules, a, used);
    StepsRun(rules, s, used, 3);
    StepsRun(rules, a, used, 2);
    StepsRun(rules, b, used, 1);
    StepsDone(rules, Next(rules, b, used), used);
  }

  /**
   * A complete fetch of an acceptable table with no snapshot yet: from any reachable state that is idle, unlocked and
   * has nothing staged it ends with the pointer at its own snapshot, whose manifest records its lag, time and row
   * count, and a load then returns its own result.
   */
  lemma CompleteFetchIsLoaded(rules: Rules, s: State, pages: Key, lag: int, retrievedAt: string, used: nat)
    requires Reachable(rules, s) && Ready(s) && pages != [] && Uniform(pages) && Accepted(rules, pages)
    requires pages !in s.disk.snapshots
    ensures var t := Run(rules, s, Gather(pages, lag, retrievedAt) + Steps(used, 5));
            var m := Manifest(pages, pages, retrievedAt, |AllRows(pages)|, lag, used);
            && Ready(t) && t.disk.latest == Some(Pointer(pages, m))
            && Loads(rules, t.disk.latest, t.disk.snapshots, lag,
                     FetchResult(Panel(PageOf(pages[0]).columns, AllRows(pages), lag, retrievedAt), m))
  {
    hide Uniform, AllRows, PageOf, Accepted, Gather, Loads, Inv;
    ReachableInv(rules, s);
    var gather := Gather(pages, lag, retrievedAt);
    Gathers(rules, s, pages, lag, retrievedAt);
    RunKeeps(rules, s, gather);
    var u := Run(rules, s, gather);
    PromotesAndPoints(rules, u, pages, lag, retrievedAt, used);
    RunJoin(rules, s, gather, Steps(used, 5));
    ReachableRun(rules, s, gather + Steps(used, 5));
    LoadEqualsWriter(rules, Run(rules, s, gather + Steps(used, 5)), lag);
  }

  /** The same of pages whose snapshot already has a manifest: the pointer returns to it, with that manifest. */
  lemma RepeatedFetchIsLoaded(rules: Rules, s: State, pages: Key, lag: int, retrievedAt: string, used: nat, m: Manifest)
    requires Reachable(rules, s) && Ready(s) && pages != [] && Uniform(pages)
    requires pages in s.disk.snapshots && s.disk.snapshots[pages].manifest == Some(m)
    ensures var t := Run(rules, s, Gather(pages, lag, retrievedAt) + Steps(used, 3));
            && Ready(t) && t.disk.latest == Some(Pointer(pages, m)) && t.disk.snapshots == s.disk.snapshots
            && Loads(rules, t.disk.latest, t.disk.snapshots, lag,
                     FetchResult(Panel(PageOf(pages[0]).columns, AllRows(pages), lag, m.retrievedAt), m))
  {
    hide Uniform, AllRows, PageOf, Accepted, Gather, Loads, Inv;
    ReachableInv(rules, s);
    var gather := Gather(pages, lag, retrievedAt);
    Gathers(rules, s, pages, lag, retrievedAt);
    RunKeeps(rules, s, gather);
    PointsAtExisting(rules, Run(rules, s, gather), pages, lag, retrievedAt, used, m);
    RunJoin(rules, s, gather, Steps(used, 3));
    ReachableRun(rules, s, gather + Steps(used, 3));
    LoadEqualsWriter(rules, Run(rules, s, gather + Steps(used, 3)), lag);
  }

  lemma ReachableRun(rules: Rules, s: State, events: seq<Event>)
    requires Reachable(rules, s)
    ensures Reachable(rules, Run(rules, s, events))
  {
    hide Run;
    var before :| s == Run(rules, EMPTY, before);
    RunJoin(rules, EMPTY, before, events);
  }

  // ----- the lock

  /** A failing fetch gives the lock back and changes nothing else on disk; a killed one keeps it. */
  lemma FailureFreesCrashHolds(rules: Rules, s: State)
    requires Inv(rules, s) && !s.phase.Idle?
    ensures Apply(rules, s, Fail) == State(s.disk.(locked := false), Idle, s.wrote)
    ensures Apply(rules, s, Crash) == State(s.disk, Idle, s.wrote) && s.disk.locked
  {
    hide Uniform, AllRows, PageOf, Accepted, Readable;
  }

  /** While the lock is there no fetch starts, whatever other fetches try, until the lock is removed by hand. */
  lemma {:induction false} LockExcludes(rules: Rules, s: State, events: seq<Event>)
    requires s.disk.locked && s.phase.Idle? && forall e :: e in events ==> !e.RemoveLock?
    ensures var t := Run(rules, s, events);
            && t.phase.Idle? && t.disk.locked && t.disk.snapshots == s.disk.snapshots && t.disk.latest == s.disk.latest
    decreases |events|
  {
    if events != [] {
      assert events[0] in events;
      LockExcludes(rules, Apply(rules, s, events[0]), events[1..]);
    }
  }

  /** Staged pages survive a crash and a failure: the next fetch goes on from them. */
  lemma StagingSurvives(rules: Rules, s: State, lag: int)
    requires Inv(rules, s) && s.phase.Fetching? && s.disk.staging.Some?
    ensures var t := Run(rules, s, [Crash, RemoveLock] + [EnsureStaging, Lock(lag)]);
            t.phase == Fetching(lag) && t.disk == s.disk
    ensures var u := Run(rules, s, [Fail, EnsureStaging] + [Lock(lag), Lock(lag)]);
            u.phase == Fetching(lag) && u.disk == s.disk
  {
    RunJoin(rules, s, [Crash, RemoveLock], [EnsureStaging, Lock(lag)]);
    TwoSteps(rules, s, Crash, RemoveLock);
    TwoSteps(rules, Run(rules, s, [Crash, RemoveLock]), EnsureStaging, Lock(lag));
    RunJoin(rules, s, [Fail, EnsureStaging], [Lock(lag), Lock(lag)]);
    TwoSteps(rules, s, Fail, EnsureStaging);
    TwoSteps(rules, Run(rules, s, [Fail, EnsureStaging]), Lock(lag), Lock(lag));
    hide Uniform, AllRows, PageOf, Accepted, Readable;
  }
}
