/** Feature frames as the backfill stores them: keyed rows, normalised and sorted. */
module BackfillFrames {
  import opened Common
  import opened Calendar
  import opened BackfillPlanning
  import opened Text
  import opened Sorting

  /** One feature row: the day (ordinal) and time of its timestamp, its ticker and its columns. */
  datatype Row = Row(day: int, tick: nat, ticker: string, features: seq<int>)

  type Frame = seq<Row>

  function UpperChar(c: char): char {
    if 'a' <= c <= 'z' then ((c as int) - ('a' as int) + ('A' as int)) as char else c
  }

  function Upper(s: string): (r: string)
    ensures |r| == |s|
  {
    seq(|s|, i requires 0 <= i < |s| => UpperChar(s[i]))
  }

  function Normalise(r: Row): Row {
    r.(ticker := Upper(r.ticker))
  }

  function NormaliseAll(f: Frame): (g: Frame)
    ensures |g| == |f|
  {
    seq(|f|, i requires 0 <= i < |f| => Normalise(f[i]))
  }

  /** The sort key (date, ticker). */
  predicate RowLe(a: Row, b: Row) {
    a.day < b.day || (a.day == b.day && (a.tick < b.tick || (a.tick == b.tick && StrLe(a.ticker, b.ticker))))
  }

  predicate SameKey(a: Row, b: Row) {
    a.day == b.day && a.tick == b.tick && a.ticker == b.ticker
  }

  lemma RowOrder()
    ensures TotalOn(RowLe)
    ensures forall a, b :: RowLe(a, b) && RowLe(b, a) ==> SameKey(a, b)
  {
    forall a, b
      ensures RowLe(a, b) || RowLe(b, a)
      ensures RowLe(a, b) && RowLe(b, a) ==> SameKey(a, b)
    {
      StrLeTotal(a.ticker, b.ticker);
    }
    forall a, b, c | RowLe(a, b) && RowLe(b, c)
      ensures RowLe(a, c)
    {
      if a.day == b.day == c.day && a.tick == b.tick == c.tick {
        StrLeTransitive(a.ticker, b.ticker, c.ticker);
      }
    }
  }

  /** No (date, ticker) key occurs twice. */
  ghost predicate UniqueKeys(f: Frame) {
    forall i, j :: 0 <= i < j < |f| ==> f[i].day != f[j].day || f[i].tick != f[j].tick || f[i].ticker != f[j].ticker
  }

  predicate InWindow(p: Partition, r: Row)
    requires p.Valid()
  {
    p.Covers(r.day)
  }

  /** The frame _compute_checkpoint writes for what the loader returned, if it accepts it. */
  function CheckpointFrame(p: Partition, maxRows: nat, loaded: Frame): Option<Frame>
    requires p.Valid()
  {
    if |loaded| > maxRows then None
    else if exists i :: 0 <= i < |loaded| && !InWindow(p, loaded[i]) then None
    else Some(SortBy(RowLe, NormaliseAll(loaded)))
  }

  /** What every checkpoint file satisfies. */
  ghost predicate FrameOk(p: Partition, f: Frame)
    requires p.Valid()
  {
    SortedBy(RowLe, f) && forall i :: 0 <= i < |f| ==> InWindow(p, f[i])
  }

  /** Upper-casing changes the ASCII lower-case letters alone, each by the distance of the two alphabets. */
  lemma UpperExact(s: string, i: nat)
    requires i < |s|
    ensures 'a' <= s[i] <= 'z' ==> 'A' <= Upper(s)[i] <= 'Z' && (s[i] as int) - (Upper(s)[i] as int) == 32
    ensures !('a' <= s[i] <= 'z') ==> Upper(s)[i] == s[i]
  {
  }

  /** A load is accepted exactly when it is within the row bound and every row lies in the window; an empty one is. */
  lemma CheckpointFrameIff(p: Partition, maxRows: nat, loaded: Frame)
    requires p.Valid()
    ensures CheckpointFrame(p, maxRows, loaded).Some? <==>
            |loaded| <= maxRows && forall i :: 0 <= i < |loaded| ==> ToOrdinal(p.start) <= loaded[i].day <= ToOrdinal(p.end)
    ensures CheckpointFrame(p, maxRows, []) == Some([])
  {
    hide ToOrdinal;
    assert NormaliseAll([]) == [];
    assert forall i :: 0 <= i < |loaded| ==> (InWindow(p, loaded[i]) <==> ToOrdinal(p.start) <= loaded[i].day <= ToOrdinal(p.end));
  }

  /** What is written: in the order of date and ticker, every ticker without an ASCII lower-case letter. */
  lemma CheckpointFrameWritten(p: Partition, maxRows: nat, loaded: Frame)
    requires p.Valid() && CheckpointFrame(p, maxRows, loaded).Some?
    ensures var f := CheckpointFrame(p, maxRows, loaded).value;
            && (forall i, j :: 0 <= i < j < |f| ==>
                  || f[i].day < f[j].day
                  || (f[i].day == f[j].day && f[i].tick < f[j].tick)
                  || (f[i].day == f[j].day && f[i].tick == f[j].tick && StrLe(f[i].ticker, f[j].ticker)))
            && (forall i, k :: 0 <= i < |f| && 0 <= k < |f[i].ticker| ==> !('a' <= f[i].ticker[k] <= 'z'))
            && (forall r :: r in f <==> exists q :: q in loaded && r == q.(ticker := Upper(q.ticker)))
  {
    hide ToOrdinal, StrLe, Upper;
    CheckpointFrameOk(p, maxRows, loaded);
    var f, n := CheckpointFrame(p, maxRows, loaded).value, NormaliseAll(loaded);
    SameMembers(f, n);
    forall r
      ensures r in n <==> exists q :: q in loaded && r == q.(ticker := Upper(q.ticker))
    {
      if q :| q in loaded && r == q.(ticker := Upper(q.ticker)) {
        var j :| 0 <= j < |loaded| && loaded[j] == q;
        assert n[j] == r;
      }
    }
    forall i, k | 0 <= i < |f| && 0 <= k < |f[i].ticker|
      ensures !('a' <= f[i].ticker[k] <= 'z')
    {
      assert f[i] in f;
      var q :| q in loaded && f[i] == q.(ticker := Upper(q.ticker));
      UpperExact(q.ticker, k);
    }
  }

  lemma CheckpointFrameOk(p: Partition, maxRows: nat, loaded: Frame)
    requires p.Valid() && CheckpointFrame(p, maxRows, loaded).Some?
    ensures FrameOk(p, CheckpointFrame(p, maxRows, loaded).value)
    ensures multiset(CheckpointFrame(p, maxRows, loaded).value) == multiset(NormaliseAll(loaded))
    ensures |CheckpointFrame(p, maxRows, loaded).value| == |loaded| <= maxRows
  {
    var n := NormaliseAll(loaded);
    var f := SortBy(RowLe, n);
    RowOrder();
    SortBySorted(RowLe, n);
    forall i | 0 <= i < |f|
      ensures InWindow(p, f[i])
    {
      assert f[i] in multiset(f);
      assert f[i] in n;
      var j :| 0 <= j < |n| && n[j] == f[i];
      assert InWindow(p, loaded[j]);
    }
  }
}

/** The durable state of one backfill job and every statement that updates it. */
module BackfillCatalog {
  import opened Common
  import opened Calendar
  import opened BackfillPlanning
  import opened BackfillFrames
  import opened Sorting

  datatype Plan = Plan(partitions: seq<Partition>, start: Date, end: Date, maxAttempts: nat, maxRows: nat)

  ghost predicate ValidPlan(plan: Plan) {
    && plan.start.Valid() && plan.end.Valid() && plan.maxAttempts >= 1 && plan.maxRows >= 1
    && (forall i :: 0 <= i < |plan.partitions| ==> plan.partitions[i].Valid())
    && (forall i, j :: 0 <= i < j < |plan.partitions| ==> plan.partitions[i].key != plan.partitions[j].key)
    && Coverage(plan.partitions, plan.start, plan.end)
  }

  /** BackfillPlan.create: the calendar tiling is a valid plan at either granularity. */
  lemma CreatedPlanIsValid(parts: seq<Partition>, start: Date, end: Date, g: Granularity, maxAttempts: nat, maxRows: nat)
    requires start.Valid() && end.Valid() && DateLe(start, end) && maxAttempts >= 1 && maxRows >= 1
    requires Tiles(parts, start, end, g)
    ensures ValidPlan(Plan(parts, start, end, maxAttempts, maxRows))
  {
    hide ToOrdinal, DaysInMonth, Leap, KeyOf, Period;
    ChainKeysDistinct(parts, g);
    TilesPassCoverage(parts, start, end, g);
  }

  function Keys(plan: Plan): set<string> {
    set p | p in plan.partitions :: p.key
  }

  /** SHA-256 of a checkpoint file and hash of a frame, as injective constructors. */
  datatype Digest = FileSha(file: File) | ContentSha(frame: Frame)

  datatype File = Parquet(frame: Frame)

  datatype Checkpoint = Checkpoint(key: string, fileSha: Digest, contentSha: Digest, rows: nat)

  function CheckpointOf(key: string, f: Frame): Checkpoint {
    Checkpoint(key, FileSha(Parquet(f)), ContentSha(f), |f|)
  }

  /** _verify_checkpoint. */
  predicate Verifies(files: map<string, File>, c: Checkpoint) {
    && c.key in files
    && FileSha(files[c.key]) == c.fileSha
    && |files[c.key].frame| == c.rows
    && ContentSha(files[c.key].frame) == c.contentSha
  }

  /** A checkpoint verifies exactly when it is the checkpoint of the file now under its key. */
  lemma VerifiesIff(files: map<string, File>, c: Checkpoint)
    ensures Verifies(files, c) <==> c.key in files && c == CheckpointOf(c.key, files[c.key].frame)
  {
  }

  datatype PartStatus = PartPlanned | PartRunning | PartCompleted | PartFailed

  datatype PartRow = PartRow(status: PartStatus, attempts: nat, checkpoint: Option<Checkpoint>)

  datatype JobStatus = Planned | Running | Assembling | Interrupted | Failed | Published

  /** The store's content address of a materialised frame, as an injective constructor. */
  datatype Object = Object(frame: Frame)

  datatype Job = Job(status: JobStatus, published: Option<Object>)

  datatype Durable = Durable(job: Option<Job>, rows: map<string, PartRow>, files: map<string, File>)

  datatype BackfillError =
    | StoredPlanMismatch | StoredPartitionsMismatch | CheckpointInvalid | CannotResume
    | InvalidClaim | AttemptsExceeded | PartitionFailed | Interruption | Incomplete | InvalidTransition
    | NotStored | NotAssembling | EmptyBackfill | DuplicateKeys

  // ----- the statements, as functions on the durable state

  function EnsureJob(plan: Plan, d: Durable): Durable {
    if d.job.Some? then d
    else d.(job := Some(Job(Planned, None)),
            rows := map k | k in Keys(plan) :: PartRow(PartPlanned, 0, None))
  }

  function MarkRunning(d: Durable, key: string): Result<Durable, BackfillError> {
    if key !in d.rows || d.rows[key].status == PartCompleted then Err(InvalidClaim)
    else
      var row := d.rows[key];
      Ok(d.(rows := d.rows[key := row.(status := PartRunning, attempts := row.attempts + 1)]))
  }

  function MarkCompleted(d: Durable, c: Checkpoint): Durable {
    if c.key in d.rows && d.rows[c.key].status == PartRunning then
      d.(rows := d.rows[c.key := d.rows[c.key].(status := PartCompleted, checkpoint := Some(c))])
    else d
  }

  function MarkFailed(d: Durable, key: string): Durable {
    if key in d.rows then d.(rows := d.rows[key := d.rows[key].(status := PartFailed)]) else d
  }

  function TransitionJob(d: Durable, allowed: set<JobStatus>, target: JobStatus): Result<Durable, BackfillError> {
    if d.job.None? || d.job.value.status !in allowed then Err(InvalidTransition)
    else Ok(d.(job := Some(d.job.value.(status := target))))
  }

  function FailJob(d: Durable): Durable {
    if d.job.None? then d else d.(job := Some(d.job.value.(status := Failed)))
  }

  function PublishJob(d: Durable, obj: Object): Result<Durable, BackfillError> {
    if d.job.None? || d.job.value.status != Assembling then Err(NotAssembling)
    else Ok(d.(job := Some(Job(Published, Some(obj)))))
  }

  /** os.replace of a temporary file over the checkpoint path. */
  function ReplaceFile(d: Durable, key: string, f: Frame): Durable {
    d.(files := d.files[key := Parquet(f)])
  }

  // ----- recovery

  predicate Resumable(plan: Plan, d: Durable, key: string)
    requires key in d.rows
  {
    var row := d.rows[key];
    if row.status == PartCompleted then row.checkpoint.Some? && Verifies(d.files, row.checkpoint.value)
    else row.attempts < plan.maxAttempts
  }

  ghost predicate Recoverable(plan: Plan, d: Durable) {
    d.rows.Keys == Keys(plan) && forall k :: k in d.rows ==> Resumable(plan, d, k)
  }

  function CompletedOf(rows: map<string, PartRow>): map<string, Checkpoint> {
    map k | k in rows && rows[k].status == PartCompleted && rows[k].checkpoint.Some? :: rows[k].checkpoint.value
  }

  predicate Unfinished(rows: map<string, PartRow>, p: Partition) {
    p.key in rows && rows[p.key].status != PartCompleted
  }

  function PendingOf(parts: seq<Partition>, rows: map<string, PartRow>): (r: seq<Partition>)
    ensures forall p :: p in r <==> p in parts && Unfinished(rows, p)
  {
    if parts == [] then []
    else (if Unfinished(rows, parts[0]) then [parts[0]] else []) + PendingOf(parts[1..], rows)
  }

  // ----- assembly

  function Gather(parts: seq<Partition>, files: map<string, File>): Frame {
    if parts == [] then []
    else (if parts[0].key in files then files[parts[0].key].frame else []) + Gather(parts[1..], files)
  }

  /** The checks on the concatenated frame: some row, and no key twice after the sort. */
  function SortedUniquely(result: Frame): Result<Frame, BackfillError> {
    if result == [] then Err(EmptyBackfill)
    else
      var sorted := SortBy(RowLe, result);
      if exists i, j :: 0 <= i < j < |sorted| && SameKey(sorted[i], sorted[j]) then Err(DuplicateKeys)
      else Ok(sorted)
  }

  function Assembly(plan: Plan, files: map<string, File>, have: map<string, Checkpoint>): Result<Frame, BackfillError> {
    if exists p :: p in plan.partitions && (p.key !in have || have[p.key].key != p.key || !Verifies(files, have[p.key])) then
      Err(CheckpointInvalid)
    else
      SortedUniquely(Gather(plan.partitions, files))
  }

  // ----- windows

  /** Planned windows are ordered and disjoint. */
  lemma {:induction false} WindowsForward(plan: Plan, i: nat, j: nat)
    requires ValidPlan(plan) && i < j < |plan.partitions|
    ensures ToOrdinal(plan.partitions[i].end) < ToOrdinal(plan.partitions[j].start)
    decreases j - i
  {
    hide ToOrdinal, DaysInMonth, Leap;
    var p := plan.partitions;
    assert Adjacent(p[j - 1], p[j - 1 + 1]);
    if i + 1 < j {
      WindowsForward(plan, i, j - 1);
      OrdinalOrder(p[j - 1].start, p[j - 1].end);
    }
  }

  lemma KeyNamesPartition(plan: Plan, p: Partition, q: Partition)
    requires ValidPlan(plan) && p in plan.partitions && q in plan.partitions && p.key == q.key
    ensures p == q
  {
    hide Coverage;
  }

  lemma {:induction false} KeysCount(plan: Plan)
    requires ValidPlan(plan)
    ensures |Keys(plan)| == |plan.partitions|
  {
    hide Coverage;
    KeysCountUpTo(plan.partitions);
    assert Keys(plan) == set p | p in plan.partitions :: p.key;
  }

  lemma {:induction false} KeysCountUpTo(parts: seq<Partition>)
    requires forall i, j :: 0 <= i < j < |parts| ==> parts[i].key != parts[j].key
    ensures |(set p | p in parts :: p.key)| == |parts|
  {
    var keys := set p | p in parts :: p.key;
    if parts != [] {
      var last := parts[|parts| - 1];
      var rest := parts[..|parts| - 1];
      var restKeys := set p | p in rest :: p.key;
      KeysCountUpTo(rest);
      forall p | p in rest
        ensures p.key != last.key
      {
        var i :| 0 <= i < |rest| && rest[i] == p;
        assert parts[i] == p;
      }
      assert parts == rest + [last];
      assert keys == restKeys + {last.key};
    } else {
      assert keys == {};
    }
  }

  lemma KeysNamePartitions(plan: Plan)
    requires ValidPlan(plan)
    ensures forall p, q :: p in plan.partitions && q in plan.partitions && p.key == q.key ==> p == q
  {
    hide ValidPlan;
    forall p, q | p in plan.partitions && q in plan.partitions && p.key == q.key
      ensures p == q
    {
      KeyNamesPartition(plan, p, q);
    }
  }

  function ByKey(plan: Plan): (m: map<string, Partition>)
    requires ValidPlan(plan)
    ensures m.Keys == Keys(plan)
    ensures forall p :: p in plan.partitions ==> m[p.key] == p
  {
    KeysNamePartitions(plan);
    hide ValidPlan;
    var m := map p | p in plan.partitions :: p.key := p;
    assert forall p :: p in plan.partitions ==> p.key in m;
    m
  }

  /** Only this row may differ. */
  ghost predicate OnlyRow(before: map<string, PartRow>, after: map<string, PartRow>, key: string) {
    after.Keys == before.Keys && forall k :: k in before && k != key ==> after[k] == before[k]
  }

  /** A row that a run may claim once more. */
  predicate Claimable(rows: map<string, PartRow>, key: string, maxAttempts: nat) {
    key in rows && rows[key].status != PartCompleted && rows[key].attempts < maxAttempts
  }

  ghost predicate DistinctKeys(parts: seq<Partition>) {
    forall i, j :: 0 <= i < j < |parts| ==> parts[i].key != parts[j].key
  }

  /** The first n pieces are running with one attempt more, and every other row is as it was. */
  ghost predicate ClaimedRows(parts: seq<Partition>, n: nat, before: map<string, PartRow>, after: map<string, PartRow>)
    requires n <= |parts|
  {
    && after.Keys == before.Keys
    && (forall i :: 0 <= i < n ==>
          && parts[i].key in before && parts[i].key in after
          && after[parts[i].key].status == PartRunning
          && after[parts[i].key].attempts == before[parts[i].key].attempts + 1
          && after[parts[i].key].checkpoint == before[parts[i].key].checkpoint)
    && (forall k :: k in before && (forall i :: 0 <= i < n ==> parts[i].key != k) ==> after[k] == before[k])
  }

  lemma NothingClaimed(parts: seq<Partition>, rows: map<string, PartRow>)
    ensures ClaimedRows(parts, 0, rows, rows)
  {
  }

  lemma NextUnclaimed(parts: seq<Partition>, n: nat, before: map<string, PartRow>, rows: map<string, PartRow>)
    requires n < |parts| && DistinctKeys(parts) && ClaimedRows(parts, n, before, rows)
    ensures parts[n].key in before <==> parts[n].key in rows
    ensures parts[n].key in before ==> rows[parts[n].key] == before[parts[n].key]
  {
    assert forall i :: 0 <= i < n ==> parts[i].key != parts[n].key;
  }

  lemma ClaimMore(parts: seq<Partition>, n: nat, before: map<string, PartRow>, was: map<string, PartRow>,
                  now: map<string, PartRow>)
    requires n < |parts| && DistinctKeys(parts) && ClaimedRows(parts, n, before, was)
    requires OnlyRow(was, now, parts[n].key) && parts[n].key in now && parts[n].key in was && parts[n].key in before
    requires was[parts[n].key] == before[parts[n].key]
    requires now[parts[n].key].status == PartRunning && now[parts[n].key].attempts == was[parts[n].key].attempts + 1
    requires now[parts[n].key].checkpoint == was[parts[n].key].checkpoint
    ensures ClaimedRows(parts, n + 1, before, now)
  {
    forall i | 0 <= i < n
      ensures now[parts[i].key] == was[parts[i].key]
    {
      assert parts[i].key != parts[n].key;
    }
    forall k | k in before && forall i :: 0 <= i < n + 1 ==> parts[i].key != k
      ensures now[k] == before[k]
    {
      assert parts[n].key != k;
    }
  }

  /** A worker's outcome, in completion order: the checkpoint it computed, or its failure. */
  datatype Outcome = Outcome(key: string, result: Option<Checkpoint>)

  ghost predicate Collectable(order: seq<Outcome>, rows: map<string, PartRow>) {
    && (forall i, j :: 0 <= i < j < |order| ==> order[i].key != order[j].key)
    && (forall i :: 0 <= i < |order| ==> order[i].key in rows && rows[order[i].key].status == PartRunning)
    && (forall i :: 0 <= i < |order| && order[i].result.Some? ==> order[i].result.value.key == order[i].key)
  }

  /** The first n outcomes are recorded as completed, with their checkpoints. */
  ghost predicate Recorded(order: seq<Outcome>, n: nat, before: map<string, PartRow>, after: map<string, PartRow>)
    requires n <= |order| && Collectable(order, before)
  {
    && after.Keys == before.Keys
    && (forall i :: 0 <= i < n ==>
          && order[i].result.Some? && after[order[i].key].status == PartCompleted
          && after[order[i].key].checkpoint == order[i].result
          && after[order[i].key].attempts == before[order[i].key].attempts)
    && (forall k :: k in before && (forall i :: 0 <= i < n ==> order[i].key != k) ==> after[k] == before[k])
  }

  /** The checkpoints of the first n outcomes, under their keys. */
  ghost predicate Answers(order: seq<Outcome>, n: nat, completed: map<string, Checkpoint>)
    requires n <= |order|
  {
    && |completed| == n && (forall k :: k in completed ==> exists i :: 0 <= i < n && order[i].key == k)
    && (forall i :: 0 <= i < n ==> order[i].key in completed && Some(completed[order[i].key]) == order[i].result)
  }

  lemma NothingRecorded(order: seq<Outcome>, rows: map<string, PartRow>)
    requires Collectable(order, rows)
    ensures Recorded(order, 0, rows, rows) && Answers(order, 0, map[])
  {
  }

  lemma NextRow(order: seq<Outcome>, n: nat, before: map<string, PartRow>, rows: map<string, PartRow>)
    requires n < |order| && Collectable(order, before) && Recorded(order, n, before, rows)
    ensures order[n].key in before && order[n].key in rows && rows[order[n].key] == before[order[n].key]
    ensures before[order[n].key].status == PartRunning
    ensures order[n].result.Some? ==> order[n].result.value.key == order[n].key
  {
    assert forall i :: 0 <= i < n ==> order[i].key != order[n].key;
  }

  lemma OnlyThatRow(before: map<string, PartRow>, after: map<string, PartRow>, key: string)
    requires OnlyRow(before, after, key) && key in before
    ensures after[key := before[key]] == before
  {
  }

  lemma RecordMore(order: seq<Outcome>, n: nat, before: map<string, PartRow>, was: map<string, PartRow>,
                   now: map<string, PartRow>)
    requires n < |order| && Collectable(order, before) && Recorded(order, n, before, was) && order[n].result.Some?
    requires OnlyRow(was, now, order[n].key) && order[n].key in was && order[n].key in now && order[n].key in before
    requires was[order[n].key] == before[order[n].key]
    requires now[order[n].key] == PartRow(PartCompleted, was[order[n].key].attempts, order[n].result)
    ensures Recorded(order, n + 1, before, now)
  {
    forall i | 0 <= i < n
      ensures now[order[i].key] == was[order[i].key]
    {
      assert order[i].key != order[n].key;
    }
    forall k | k in before && forall i :: 0 <= i < n + 1 ==> order[i].key != k
      ensures now[k] == before[k]
    {
      assert order[n].key != k;
    }
  }

  lemma AnswerMore(order: seq<Outcome>, n: nat, before: map<string, PartRow>, completed: map<string, Checkpoint>)
    requires n < |order| && Collectable(order, before) && Answers(order, n, completed) && order[n].result.Some?
    ensures Answers(order, n + 1, completed[order[n].key := order[n].result.value])
  {
    var more := completed[order[n].key := order[n].result.value];
    FreshKey(order, n, before, completed);
    hide Collectable;
    forall k | k in more
      ensures exists i :: 0 <= i < n + 1 && order[i].key == k
    {
      if k == order[n].key {
        assert 0 <= n < n + 1;
      } else {
        var i :| 0 <= i < n && order[i].key == k;
      }
    }
  }

  lemma FreshKey(order: seq<Outcome>, n: nat, before: map<string, PartRow>, completed: map<string, Checkpoint>)
    requires n < |order| && Collectable(order, before) && Answers(order, n, completed)
    ensures order[n].key !in completed && forall i :: 0 <= i < n ==> order[i].key != order[n].key
  {
  }

  /** The catalogue rows and checkpoint directory of one plan, updated in place. */
  class Catalogue {
    var stored: Option<Plan>
    var job: Option<Job>
    var rows: map<string, PartRow>
    var files: map<string, File>

    ghost function View(): Durable
      reads this
    {
      Durable(job, rows, files)
    }

    constructor ()
      ensures View() == Durable(None, map[], map[]) && stored == None
    {
      stored, job, rows, files := None, None, map[], map[];
    }

    /** _ensure_job: refused exactly when another plan is stored; otherwise rows are inserted once. */
    method EnsureJobRow(plan: Plan) returns (r: Result<Option<Object>, BackfillError>)
      modifies this
      ensures r.Err? <==> old(job).Some? && old(stored) != Some(plan)
      ensures r.Err? ==> View() == old(View()) && stored == old(stored)
      ensures r.Ok? ==> View() == EnsureJob(plan, old(View())) && stored == Some(plan) && job.Some?
      ensures r.Ok? ==> r.value == if job.value.status == Published then job.value.published else None
    {
      if job.Some? {
        if stored != Some(plan) {
          return Err(StoredPlanMismatch);
        }
        return Ok(if job.value.status == Published then job.value.published else None);
      }
      stored := Some(plan);
      job := Some(Job(Planned, None));
      rows := map[];
      var i := 0;
      while i < |plan.partitions|
        invariant i <= |plan.partitions|
        invariant forall k :: k in rows <==> exists j :: 0 <= j < i && plan.partitions[j].key == k
        invariant forall k :: k in rows ==> rows[k] == PartRow(PartPlanned, 0, None)
        invariant job == Some(Job(Planned, None)) && files == old(files) && stored == Some(plan)
      {
        rows := rows[plan.partitions[i].key := PartRow(PartPlanned, 0, None)];
        i := i + 1;
      }
      assert rows.Keys == Keys(plan);
      r := Ok(None);
    }

    method MarkPartitionRunning(key: string) returns (r: Result<nat, BackfillError>)
      modifies `rows
      ensures r.Ok? <==> key in old(rows) && old(rows)[key].status != PartCompleted
      ensures OnlyRow(old(rows), rows, key) && (r.Err? ==> rows == old(rows) && r.error == InvalidClaim)
      ensures r.Ok? ==>
                && rows[key].status == PartRunning && rows[key].checkpoint == old(rows)[key].checkpoint
                && rows[key].attempts == old(rows)[key].attempts + 1 == r.value
      ensures r.Ok? ==> MarkRunning(old(View()), key) == Ok(View())
    {
      if key !in rows || rows[key].status == PartCompleted {
        return Err(InvalidClaim);
      }
      var attempts := rows[key].attempts + 1;
      rows := rows[key := rows[key].(status := PartRunning, attempts := attempts)];
      r := Ok(attempts);
    }

    method MarkPartitionCompleted(c: Checkpoint)
      modifies `rows
      ensures OnlyRow(old(rows), rows, c.key)
      ensures if c.key in old(rows) && old(rows)[c.key].status == PartRunning then
                rows[c.key] == PartRow(PartCompleted, old(rows)[c.key].attempts, Some(c))
              else rows == old(rows)
      ensures MarkCompleted(old(View()), c) == View()
    {
      if c.key in rows && rows[c.key].status == PartRunning {
        rows := rows[c.key := rows[c.key].(status := PartCompleted, checkpoint := Some(c))];
      }
    }

    method MarkPartitionFailed(key: string)
      modifies `rows
      ensures OnlyRow(old(rows), rows, key)
      ensures key in rows ==>
                rows[key].status == PartFailed && rows[key].attempts == old(rows)[key].attempts
                && rows[key].checkpoint == old(rows)[key].checkpoint
      ensures MarkFailed(old(View()), key) == View()
    {
      if key in rows {
        rows := rows[key := rows[key].(status := PartFailed)];
      }
    }

    method MoveJob(allowed: set<JobStatus>, target: JobStatus) returns (r: Result<(), BackfillError>)
      modifies `job
      ensures r.Ok? <==> old(job).Some? && old(job).value.status in allowed
      ensures r.Err? ==> job == old(job)
      ensures r.Ok? ==> job.Some? && job.value.status == target && job.value.published == old(job).value.published
      ensures r.Ok? ==> TransitionJob(old(View()), allowed, target) == Ok(View())
    {
      if job.None? || job.value.status !in allowed {
        return Err(InvalidTransition);
      }
      job := Some(job.value.(status := target));
      r := Ok(());
    }

    method MarkJobFailed()
      modifies `job
      ensures job.Some? <==> old(job).Some?
      ensures job.Some? ==> job.value.status == Failed && job.value.published == old(job).value.published
      ensures FailJob(old(View())) == View()
    {
      if job.Some? {
        job := Some(job.value.(status := Failed));
      }
    }

    method MarkJobPublished(obj: Object) returns (r: Result<(), BackfillError>)
      modifies `job
      ensures r.Ok? <==> old(job).Some? && old(job).value.status == Assembling
      ensures if r.Ok? then job == Some(Job(Published, Some(obj))) else job == old(job)
      ensures r.Ok? ==> PublishJob(old(View()), obj) == Ok(View())
    {
      if job.None? || job.value.status != Assembling {
        return Err(NotAssembling);
      }
      job := Some(Job(Published, Some(obj)));
      r := Ok(());
    }

    /**
     * The claim loop of _execute_pending: it goes through exactly when every pending row may be claimed once more;
     * then each of them is running with one attempt more, and no other row, the job or a file has changed.
     */
    method ClaimPending(pending: seq<Partition>, maxAttempts: nat) returns (r: Result<(), BackfillError>, n: nat)
      requires DistinctKeys(pending)
      modifies `rows, `job
      ensures r.Ok? <==> forall i :: 0 <= i < |pending| ==> Claimable(old(rows), pending[i].key, maxAttempts)
      ensures n <= |pending| && ClaimedRows(pending, n, old(rows), rows)
      ensures r.Ok? ==> n == |pending| && job == old(job)
      ensures r.Err? ==> r.error in {InvalidClaim, AttemptsExceeded}
      ensures r == Err(InvalidClaim) ==> n < |pending| && job == old(job)
      ensures r == Err(AttemptsExceeded) ==> n > 0 && job == FailJob(old(View())).job
    {
      hide DistinctKeys, OnlyRow, ClaimedRows;
      ghost var before := rows;
      NothingClaimed(pending, rows);
      for i := 0 to |pending|
        invariant before == old(rows) && job == old(job) && ClaimedRows(pending, i, before, rows)
        invariant forall j :: 0 <= j < i ==> Claimable(before, pending[j].key, maxAttempts)
      {
        ghost var was := rows;
        NextUnclaimed(pending, i, before, rows);
        var claimed := MarkPartitionRunning(pending[i].key);
        if claimed.Err? {
          return Err(claimed.error), i;
        }
        ClaimMore(pending, i, before, was, rows);
        if claimed.value > maxAttempts {
          MarkJobFailed();
          return Err(AttemptsExceeded), i + 1;
        }
      }
      r, n := Ok(()), |pending|;
    }

    /**
     * The result loop of _execute_pending, over any completion order: results are recorded one by one up to the first
     * failure or up to the interruption, whichever is first; rows behind that point are left running.
     */
    method CollectResults(order: seq<Outcome>, interruptAfter: Option<nat>)
        returns (r: Result<map<string, Checkpoint>, BackfillError>, n: nat)
      requires Collectable(order, rows) && interruptAfter != Some(0)
      modifies `rows, `job
      ensures n <= |order|
      ensures r.Ok? <==> n == |order| && (interruptAfter.Some? ==> interruptAfter.value > |order|)
      ensures r.Ok? ==> job == old(job) && Recorded(order, n, old(rows), rows)
      ensures r.Ok? ==> forall i :: 0 <= i < n ==> order[i].key in r.value && Some(r.value[order[i].key]) == order[i].result
      ensures r.Err? ==> r.error in {PartitionFailed, Interruption}
      ensures r == Err(Interruption) ==>
                && interruptAfter == Some(n) && Recorded(order, n, old(rows), rows)
                && (old(job).Some? && old(job).value.status == Running ==> job.Some? && job.value.status == Interrupted)
      ensures r == Err(PartitionFailed) ==>
                && n < |order| && order[n].result.None? && job == FailJob(old(View())).job
                && order[n].key in old(rows)
                && Recorded(order, n, old(rows), rows[order[n].key := old(rows)[order[n].key]])
                && order[n].key in rows && rows[order[n].key].status == PartFailed
    {
      hide Recorded, Collectable, OnlyRow;
      ghost var before := rows;
      var completed: map<string, Checkpoint> := map[];
      n := 0;
      NothingRecorded(order, rows);
      while n < |order|
        invariant n <= |order| && job == old(job) && before == old(rows)
        invariant Recorded(order, n, before, rows)
        invariant Answers(order, n, completed)
        invariant interruptAfter.Some? ==> n < interruptAfter.value
      {
        var outcome := order[n];
        NextRow(order, n, before, rows);
        ghost var was := rows;
        if outcome.result.None? {
          MarkPartitionFailed(outcome.key);
          OnlyThatRow(was, rows, outcome.key);
          MarkJobFailed();
          return Err(PartitionFailed), n;
        }
        MarkPartitionCompleted(outcome.result.value);
        RecordMore(order, n, before, was, rows);
        AnswerMore(order, n, before, completed);
        completed := completed[outcome.key := outcome.result.value];
        n := n + 1;
        if interruptAfter.Some? && |completed| >= interruptAfter.value {
          var moved := MoveJob({Running}, Interrupted);
          return Err(Interruption), n;
        }
      }
      r := Ok(completed);
    }

    /**
     * The end of run: the completeness check, the assembling transition, assembly, materialisation, publication. It
     * publishes exactly when all four allow it; an assembly error leaves the job assembling, a storage error failed.
     */
    method AssembleAndPublish(plan: Plan, have: map<string, Checkpoint>, kept: bool) returns (r: Result<Object, BackfillError>)
      requires ValidPlan(plan) && have.Keys <= Keys(plan) && forall k :: k in have ==> have[k].key == k
      modifies `job
      ensures r.Ok? <==>
              && |have| == |plan.partitions| && old(job).Some? && old(job).value.status in {Running, Planned}
              && Assembly(plan, files, have).Ok? && kept
      ensures r.Ok? ==> r.value == Object(Assembly(plan, files, have).value) && job == Some(Job(Published, Some(r.value)))
      ensures r.Err? && |have| == |plan.partitions| && old(job).Some? && old(job).value.status in {Running, Planned} ==>
                job.Some? && job.value.status == if Assembly(plan, files, have).Err? then Assembling else Failed
      ensures |have| != |plan.partitions| && old(job).Some? && old(job).value.status == Running ==>
                job.Some? && job.value.status == Failed
    {
      hide ValidPlan, Assembly;
      if |have| != |plan.partitions| {
        var moved := MoveJob({Running}, Failed);
        return Err(Incomplete);
      }
      AllKeysHad(plan, have);
      var moved := MoveJob({Running, Planned}, Assembling);
      if moved.Err? {
        return Err(InvalidTransition);
      }
      var assembled := Assemble(plan, have);
      if assembled.Err? {
        return Err(assembled.error);
      }
      if !kept {
        MarkJobFailed();
        return Err(NotStored);
      }
      var published := MarkJobPublished(Object(assembled.value));
      r := Ok(Object(assembled.value));
    }

    /** The loop of _recover_checkpoints over the rows in partition_key order, then the sort by start. */
    method RecoverCheckpoints(plan: Plan, order: seq<string>)
      returns (r: Result<(map<string, Checkpoint>, seq<Partition>), BackfillError>)
      requires ValidPlan(plan)
      requires Distinct(order) && forall k :: k in order <==> k in rows
      ensures r.Ok? <==> Recoverable(plan, View())
      ensures r.Ok? ==> r.value == (CompletedOf(rows), PendingOf(plan.partitions, rows))
    {
      hide ValidPlan, Verifies, PendingOf;
      var byKey := ByKey(plan);
      if rows.Keys != byKey.Keys {
        return Err(StoredPartitionsMismatch);
      }
      var checkpoints: map<string, Checkpoint> := map[];
      var pending: seq<Partition> := [];
      ghost var seen: map<string, PartRow> := map[];
      var i := 0;
      while i < |order|
        invariant i <= |order|
        invariant forall k :: k in seen <==> k in order[..i]
        invariant forall k :: k in seen ==> k in rows && seen[k] == rows[k] && Resumable(plan, View(), k)
        invariant checkpoints == CompletedOf(seen)
        invariant forall p :: p in pending <==> p in plan.partitions && Unfinished(seen, p)
        invariant Distinct(pending)
      {
        var key := order[i];
        assert key in rows;
        var row := rows[key];
        if !Resumable(plan, Durable(job, rows, files), key) {
          return Err(if row.status == PartCompleted then CheckpointInvalid else CannotResume);
        }
        PrefixGrows(order, i);
        PendingGrows(plan, seen, key, row, byKey[key]);
        if row.status == PartCompleted {
          checkpoints := checkpoints[key := row.checkpoint.value];
        } else {
          pending := pending + [byKey[key]];
        }
        seen := seen[key := row];
        i := i + 1;
      }
      assert order[..i] == order;
      assert seen == rows;
      var sorted := SortBy(StartLe, pending);
      SortedPending(plan, pending, rows);
      r := Ok((checkpoints, sorted));
    }

    /** The loop of _assemble over the planned partitions. */
    method Assemble(plan: Plan, have: map<string, Checkpoint>) returns (r: Result<Frame, BackfillError>)
      requires forall p :: p in plan.partitions ==> p.key in have && have[p.key].key == p.key
      ensures r == Assembly(plan, files, have)
    {
      hide SortedUniquely, Verifies, Gather;
      var result: Frame := [];
      assert plan.partitions[0..] == plan.partitions;
      var i := 0;
      while i < |plan.partitions|
        invariant i <= |plan.partitions|
        invariant forall j :: 0 <= j < i ==> Verifies(files, have[plan.partitions[j].key])
        invariant result + Gather(plan.partitions[i..], files) == Gather(plan.partitions, files)
      {
        var p := plan.partitions[i];
        if !Verifies(files, have[p.key]) {
          return Err(CheckpointInvalid);
        }
        VerifiedFile(files, have[p.key]);
        GatherNext(plan.partitions, files, i, result);
        result := result + files[p.key].frame;
        i := i + 1;
      }
      GatherEnd(plan.partitions, files, result);
      r := SortedUniquely(result);
    }
  }

  lemma AllKeysHad(plan: Plan, have: map<string, Checkpoint>)
    requires ValidPlan(plan) && have.Keys <= Keys(plan) && |have| == |plan.partitions|
    ensures forall p :: p in plan.partitions ==> p.key in have
  {
    hide ValidPlan;
    KeysCount(plan);
    if exists k :: k in Keys(plan) && k !in have {
      var k :| k in Keys(plan) && k !in have;
      assert |Keys(plan) - {k}| == |Keys(plan)| - 1;
      FewerKeys(have.Keys, Keys(plan) - {k});
    }
  }

  lemma {:induction false} FewerKeys(a: set<string>, b: set<string>)
    requires a <= b
    ensures |a| <= |b|
  {
    if a != {} {
      var x :| x in a;
      FewerKeys(a - {x}, b - {x});
    }
  }

  lemma GatherNext(parts: seq<Partition>, files: map<string, File>, i: nat, result: Frame)
    requires i < |parts| && parts[i].key in files
    ensures result + Gather(parts[i..], files)
         == (result + files[parts[i].key].frame) + Gather(parts[i + 1..], files)
  {
    assert parts[i..][0] == parts[i] && parts[i..][1..] == parts[i + 1..];
  }

  lemma GatherEnd(parts: seq<Partition>, files: map<string, File>, result: Frame)
    ensures result + Gather(parts[|parts|..], files) == result
  {
  }

  lemma VerifiedFile(files: map<string, File>, c: Checkpoint)
    requires Verifies(files, c)
    ensures c.key in files
  {
  }

  lemma PrefixGrows(order: seq<string>, i: nat)
    requires Distinct(order) && i < |order|
    ensures order[..i + 1] == order[..i] + [order[i]] && order[i] !in order[..i]
  {
  }

  lemma PendingGrows(plan: Plan, seen: map<string, PartRow>, key: string, row: PartRow, p: Partition)
    requires ValidPlan(plan) && key !in seen && p in plan.partitions && p.key == key
    ensures CompletedOf(seen[key := row]) ==
            if row.status == PartCompleted && row.checkpoint.Some? then CompletedOf(seen)[key := row.checkpoint.value]
            else CompletedOf(seen)
    ensures forall q :: q in plan.partitions ==>
              (Unfinished(seen[key := row], q) <==> Unfinished(seen, q) || (q == p && row.status != PartCompleted))
  {
    hide Coverage;
    forall q | q in plan.partitions
      ensures Unfinished(seen[key := row], q) <==> Unfinished(seen, q) || (q == p && row.status != PartCompleted)
    {
      if q.key == key {
        KeyNamesPartition(plan, p, q);
      }
    }
  }

  predicate StartLe(p: Partition, q: Partition) {
    DateLe(p.start, q.start)
  }

  lemma LaterStarts(plan: Plan, i: nat, j: nat)
    requires ValidPlan(plan) && i < j < |plan.partitions|
    ensures StartLe(plan.partitions[i], plan.partitions[j]) && plan.partitions[i] != plan.partitions[j]
  {
    hide ToOrdinal, DaysInMonth, Leap, Coverage;
    var p, q := plan.partitions[i], plan.partitions[j];
    WindowsForward(plan, i, j);
    OrdinalOrder(p.start, p.end);
    OrdinalOrder(p.start, q.start);
  }

  lemma {:induction false} PendingInOrder(plan: Plan, from: nat, rows: map<string, PartRow>)
    requires ValidPlan(plan) && from <= |plan.partitions|
    ensures SortedBy(StartLe, PendingOf(plan.partitions[from..], rows))
    ensures Distinct(PendingOf(plan.partitions[from..], rows))
    decreases |plan.partitions| - from
  {
    hide ValidPlan, StartLe, Unfinished;
    if from < |plan.partitions| {
      PendingInOrder(plan, from + 1, rows);
      var tail := plan.partitions[from + 1..];
      assert plan.partitions[from..][1..] == tail;
      var rest := PendingOf(tail, rows);
      forall j | 0 <= j < |rest|
        ensures StartLe(plan.partitions[from], rest[j]) && plan.partitions[from] != rest[j]
      {
        assert rest[j] in tail;
        var k :| 0 <= k < |tail| && tail[k] == rest[j];
        LaterStarts(plan, from, from + 1 + k);
      }
    }
  }

  lemma SortedPending(plan: Plan, pending: seq<Partition>, rows: map<string, PartRow>)
    requires ValidPlan(plan) && Distinct(pending)
    requires forall p :: p in pending <==> p in plan.partitions && Unfinished(rows, p)
    ensures SortBy(StartLe, pending) == PendingOf(plan.partitions, rows)
  {
    hide ToOrdinal, DaysInMonth, Leap, Coverage, Date.Valid, PendingOf, Unfinished, Partition.Valid;
    var spec := PendingOf(plan.partitions, rows);
    assert plan.partitions[0..] == plan.partitions;
    PendingInOrder(plan, 0, rows);
    DistinctMultiset(pending);
    DistinctMultiset(spec);
    assert multiset(pending) == multiset(spec);
    forall p, q | p in multiset(pending) && q in multiset(pending) && StartLe(p, q) && StartLe(q, p)
      ensures p == q
    {
      SameStart(plan, p, q);
    }
    assert TotalOn(StartLe);
    SortBySorted(StartLe, pending);
    SortedUnique(StartLe, SortBy(StartLe, pending), spec);
  }

  lemma SameStart(plan: Plan, p: Partition, q: Partition)
    requires ValidPlan(plan) && p in plan.partitions && q in plan.partitions
    requires StartLe(p, q) && StartLe(q, p)
    ensures p == q
  {
    hide ToOrdinal, DaysInMonth, Leap, Coverage;
    var i :| 0 <= i < |plan.partitions| && plan.partitions[i] == p;
    var j :| 0 <= j < |plan.partitions| && plan.partitions[j] == q;
    OrdinalOrder(p.start, q.start);
    OrdinalOrder(p.start, p.end);
    OrdinalOrder(q.start, q.end);
    if i < j {
      WindowsForward(plan, i, j);
    } else if j < i {
      WindowsForward(plan, j, i);
    }
  }

  lemma {:induction false} DistinctMultiset<T>(s: seq<T>)
    requires Distinct(s)
    ensures forall x :: multiset(s)[x] == if x in s then 1 else 0
  {
    if s != [] {
      var init := s[..|s| - 1];
      assert s == init + [s[|s| - 1]];
      assert Distinct(init);
      DistinctMultiset(init);
      assert s[|s| - 1] !in init;
    }
  }
}
