/** What the assembled frame is: when assembly succeeds, and that it preserves the loader's meaning. */
module BackfillAssembly {
  import opened Common
  import opened Calendar
  import opened BackfillPlanning
  import opened BackfillFrames
  import opened BackfillCatalog
  import opened BackfillProtocol
  import opened BackfillInvariant
  import opened BackfillSafety
  import opened Sorting

  // ----- unique keys are a property of the multiset of rows

  lemma RepeatTransfers(a: Frame, b: Frame)
    requires multiset(a) == multiset(b) && !UniqueKeys(b)
    ensures !UniqueKeys(a)
  {
    var i, j :| 0 <= i < j < |b| && SameKey(b[i], b[j]);
    var k, l := PairTransfers(a, b, i, j);
    assert SameKey(a[k], a[l]) && SameKey(a[l], a[k]);
  }

  /** Key uniqueness does not depend on the row order. */
  lemma UniqueKeysPermute(a: Frame, b: Frame)
    requires multiset(a) == multiset(b)
    ensures UniqueKeys(a) <==> UniqueKeys(b)
  {
    hide UniqueKeys;
    if !UniqueKeys(a) {
      RepeatTransfers(b, a);
    }
    if !UniqueKeys(b) {
      RepeatTransfers(a, b);
    }
  }

  lemma SortedUniquelyIff(f: Frame)
    ensures SortedUniquely(f).Ok? <==> f != [] && UniqueKeys(f)
    ensures SortedUniquely(f).Ok? ==> SortedUniquely(f).value == SortBy(RowLe, f)
  {
    var sorted := SortBy(RowLe, f);
    UniqueKeysPermute(f, sorted);
    SameKeysIff(sorted);
    hide SameKey, UniqueKeys;
  }

  lemma SameKeysIff(f: Frame)
    ensures UniqueKeys(f) <==> forall i, j :: 0 <= i < j < |f| ==> !SameKey(f[i], f[j])
  {
  }

  // ----- concatenation over disjoint windows

  /** Every planned partition has its file, and each file stays inside its window. */
  ghost predicate FilesSound(plan: Plan, files: Files) {
    forall p :: p in plan.partitions ==> p.key in files && p.Valid() && FrameOk(p, files[p.key].frame)
  }

  lemma {:induction false} GatherStarts(plan: Plan, files: Files, i: nat)
    requires ValidPlan(plan) && FilesSound(plan, files) && i < |plan.partitions|
    ensures forall r :: r in Gather(plan.partitions[i..], files) ==> ToOrdinal(plan.partitions[i].start) <= r.day
    decreases |plan.partitions| - i
  {
    hide ToOrdinal, DaysInMonth, Leap, Coverage, DateLe, Date.Valid;
    var p := plan.partitions[i];
    assert p in plan.partitions;
    assert plan.partitions[i..][1..] == plan.partitions[i + 1..];
    forall r | r in Gather(plan.partitions[i..], files)
      ensures ToOrdinal(p.start) <= r.day
    {
      if r !in files[p.key].frame {
        assert r in Gather(plan.partitions[i + 1..], files);
        assert i + 1 < |plan.partitions|;
        GatherStarts(plan, files, i + 1);
        WindowsForward(plan, i, i + 1);
        OrdinalOrder(p.start, p.end);
      }
    }
  }

  lemma UniqueKeysConcat(a: Frame, b: Frame, cut: int)
    requires forall r :: r in a ==> r.day <= cut
    requires forall r :: r in b ==> cut < r.day
    ensures UniqueKeys(a + b) <==> UniqueKeys(a) && UniqueKeys(b)
  {
    var c := a + b;
    if UniqueKeys(c) {
      forall i, j | 0 <= i < j < |a|
        ensures !SameKey(a[i], a[j])
      {
        assert c[i] == a[i] && c[j] == a[j];
      }
      forall i, j | 0 <= i < j < |b|
        ensures !SameKey(b[i], b[j])
      {
        assert c[|a| + i] == b[i] && c[|a| + j] == b[j];
      }
    }
    if UniqueKeys(a) && UniqueKeys(b) {
      forall i, j | 0 <= i < j < |c|
        ensures !SameKey(c[i], c[j])
      {
        if i < |a| <= j {
          assert c[i] in a && c[j] == b[j - |a|] && c[j] in b;
        }
      }
    }
  }

  lemma {:induction false} GatherUnique(plan: Plan, files: Files, i: nat)
    requires ValidPlan(plan) && FilesSound(plan, files) && i <= |plan.partitions|
    ensures UniqueKeys(Gather(plan.partitions[i..], files)) <==>
            forall j :: i <= j < |plan.partitions| ==> UniqueKeys(files[plan.partitions[j].key].frame)
    ensures Gather(plan.partitions[i..], files) == [] <==>
            forall j :: i <= j < |plan.partitions| ==> files[plan.partitions[j].key].frame == []
    decreases |plan.partitions| - i
  {
    hide ToOrdinal, DaysInMonth, Leap, Coverage, DateLe, Date.Valid, UniqueKeys;
    if i < |plan.partitions| {
      var p := plan.partitions[i];
      assert p in plan.partitions;
      assert plan.partitions[i..][1..] == plan.partitions[i + 1..];
      GatherUnique(plan, files, i + 1);
      var rest := Gather(plan.partitions[i + 1..], files);
      if i + 1 < |plan.partitions| {
        GatherStarts(plan, files, i + 1);
        WindowsForward(plan, i, i + 1);
      }
      InWindowDays(p, files[p.key].frame);
      UniqueKeysConcat(files[p.key].frame, rest, ToOrdinal(p.end));
    } else {
      assert UniqueKeys([]) by { EmptyUnique(); }
    }
  }

  lemma EmptyUnique()
    ensures UniqueKeys([])
  {
  }

  lemma InWindowDays(p: Partition, f: Frame)
    requires p.Valid() && FrameOk(p, f)
    ensures forall r :: r in f ==> r.day <= ToOrdinal(p.end)
  {
    hide ToOrdinal, DaysInMonth, Leap;
  }

  /** Some file repeats a key inside itself. */
  ghost predicate Poisoned(parts: seq<Partition>, files: Files) {
    exists p :: p in parts && p.key in files && !UniqueKeys(files[p.key].frame)
  }

  ghost predicate Barren(parts: seq<Partition>, files: Files) {
    forall p :: p in parts && p.key in files ==> files[p.key].frame == []
  }

  ghost predicate CheckpointsMatch(plan: Plan, files: Files, have: map<string, Checkpoint>) {
    forall p :: p in plan.partitions ==>
                  p.key in have && p.key in files && have[p.key] == CheckpointOf(p.key, files[p.key].frame)
  }

  /**
   * With every checkpoint in place, assembly fails only on a key repeated inside one partition or on
   * a backfill without rows; no key is ever shared by two partitions.
   */
  lemma AssemblyIff(plan: Plan, files: Files, have: map<string, Checkpoint>)
    requires ValidPlan(plan) && FilesSound(plan, files) && CheckpointsMatch(plan, files, have)
    ensures Assembly(plan, files, have).Ok? <==> !Poisoned(plan.partitions, files) && !Barren(plan.partitions, files)
    ensures Assembly(plan, files, have).Ok? ==>
              Assembly(plan, files, have).value == SortBy(RowLe, Gather(plan.partitions, files))
  {
    hide UniqueKeys, SortedUniquely, ValidPlan, FrameOk, Gather, Poisoned, Barren;
    assert plan.partitions[0..] == plan.partitions;
    GatherUnique(plan, files, 0);
    SortedUniquelyIff(Gather(plan.partitions, files));
    IndexedForms(plan.partitions, files);
  }

  lemma IndexedForms(parts: seq<Partition>, files: Files)
    requires forall p :: p in parts ==> p.key in files
    ensures !Poisoned(parts, files) <==> forall j :: 0 <= j < |parts| ==> UniqueKeys(files[parts[j].key].frame)
    ensures Barren(parts, files) <==> forall j :: 0 <= j < |parts| ==> files[parts[j].key].frame == []
  {
    hide UniqueKeys;
    if Poisoned(parts, files) {
      var p :| p in parts && p.key in files && !UniqueKeys(files[p.key].frame);
      var j :| 0 <= j < |parts| && parts[j] == p;
      assert !UniqueKeys(files[parts[j].key].frame);
    }
    if !Barren(parts, files) {
      var p :| p in parts && p.key in files && files[p.key].frame != [];
      var j :| 0 <= j < |parts| && parts[j] == p;
      assert files[parts[j].key].frame != [];
    }
    forall j | 0 <= j < |parts|
      ensures Barren(parts, files) ==> files[parts[j].key].frame == []
      ensures !Poisoned(parts, files) ==> UniqueKeys(files[parts[j].key].frame)
    {
      assert parts[j] in parts;
    }
  }

  // ----- a loader that restricts one global frame

  function Restrict(g: Frame, p: Partition): Frame
    requires p.Valid()
  {
    if g == [] then []
    else (if InWindow(p, g[0]) then [g[0]] else []) + Restrict(g[1..], p)
  }

  /** The normalised rows of g between two days. */
  function Between(g: Frame, lo: int, hi: int): Frame {
    if g == [] then []
    else (if lo <= g[0].day <= hi then [Normalise(g[0])] else []) + Between(g[1..], lo, hi)
  }

  /** Every answer of the loader is the restriction of g to the partition, in any row order. */
  ghost predicate FromGlobal(g: Frame, events: seq<Event>) {
    forall e :: e in events && e.Load? && e.outcome.Some? && e.p.Valid() ==>
                  multiset(e.outcome.value) == multiset(Restrict(g, e.p))
  }

  lemma {:induction false} NormaliseRestrict(g: Frame, p: Partition)
    requires p.Valid()
    ensures NormaliseAll(Restrict(g, p)) == Between(g, ToOrdinal(p.start), ToOrdinal(p.end))
  {
    hide ToOrdinal, DaysInMonth, Leap, Normalise;
    if g != [] {
      NormaliseRestrict(g[1..], p);
    }
  }

  lemma {:induction false} NormalisePermutes(a: Frame, b: Frame)
    requires multiset(a) == multiset(b)
    ensures multiset(NormaliseAll(a)) == multiset(NormaliseAll(b))
    decreases |a|
  {
    hide Normalise, NormaliseAll;
    if a == [] {
      assert |b| == |multiset(b)| == 0;
      assert a == b;
    } else {
      assert a[0] in multiset(b);
      var i :| 0 <= i < |b| && b[i] == a[0];
      TakeOut(a, 0);
      TakeOut(b, i);
      NormalisePermutes(a[..0] + a[1..], b[..i] + b[i + 1..]);
      NormaliseAround(a, 0);
      NormaliseAround(b, i);
    }
  }

  lemma TakeOut(b: Frame, i: nat)
    requires i < |b|
    ensures multiset(b[..i] + b[i + 1..]) == multiset(b) - multiset{b[i]}
  {
    assert b == b[..i] + [b[i]] + b[i + 1..];
  }

  lemma NormaliseAround(b: Frame, i: nat)
    requires i < |b|
    ensures multiset(NormaliseAll(b)) == multiset(NormaliseAll(b[..i] + b[i + 1..])) + multiset{Normalise(b[i])}
  {
    hide Normalise;
    assert b == b[..i] + ([b[i]] + b[i + 1..]);
    NormaliseSplit(b[..i], b[i + 1..]);
    NormaliseSplit(b[..i], [b[i]] + b[i + 1..]);
    NormaliseSplit([b[i]], b[i + 1..]);
    assert NormaliseAll([b[i]]) == [Normalise(b[i])];
  }

  lemma NormaliseSplit(a: Frame, b: Frame)
    ensures NormaliseAll(a + b) == NormaliseAll(a) + NormaliseAll(b)
  {
    hide Normalise;
  }

  lemma {:induction false} BetweenSplits(g: Frame, lo: int, mid: int, hi: int)
    requires lo <= mid + 1 && mid <= hi
    ensures multiset(Between(g, lo, mid)) + multiset(Between(g, mid + 1, hi)) == multiset(Between(g, lo, hi))
  {
    hide Normalise;
    if g != [] {
      BetweenSplits(g[1..], lo, mid, hi);
    }
  }

  // ----- every completed file is the sorted restriction

  ghost predicate Image(g: Frame, p: Partition, f: Frame)
    requires p.Valid()
  {
    multiset(f) == multiset(Between(g, ToOrdinal(p.start), ToOrdinal(p.end)))
  }

  ghost predicate TaskImage(g: Frame, p: Partition, t: Task) {
    p.Valid() && (t.Loaded? || t.Written? ==> Image(g, p, t.frame))
  }

  ghost predicate FilesFromGlobal(plan: Plan, g: Frame, s: State) {
    && (forall p :: p in plan.partitions && Completed(s.d.rows, p) ==>
          p.key in s.d.files && p.Valid() && Image(g, p, s.d.files[p.key].frame))
    && (HasTasks(s.phase) ==> forall p :: p in s.phase.tasks ==> TaskImage(g, p, s.phase.tasks[p]))
  }

  lemma LoadedImage(plan: Plan, g: Frame, p: Partition, loaded: Frame)
    requires p.Valid() && CheckpointFrame(p, plan.maxRows, loaded).Some?
    requires multiset(loaded) == multiset(Restrict(g, p))
    ensures Image(g, p, CheckpointFrame(p, plan.maxRows, loaded).value)
  {
    hide ToOrdinal, DaysInMonth, Leap;
    NormalisePermutes(loaded, Restrict(g, p));
    NormaliseRestrict(g, p);
  }

  lemma ImageStep(plan: Plan, g: Frame, s: State, e: Event)
    requires PlanShape(plan) && Inv(plan, s) && FilesFromGlobal(plan, g, s) && FromGlobal(g, [e])
    ensures FilesFromGlobal(plan, g, Apply(plan, s, e))
  {
    hide FilesFromGlobal, FromGlobal, Inv, PlanShape, OnAdmit, OnLoad, OnWrite, OnClaim, OnBeginAssembly;
    var t := Apply(plan, s, e);
    if t != s {
      match e
      case Load(p, outcome) => LoadImage(plan, g, s, p, outcome);
      case Write(p) => WriteImage(plan, g, s, p);
      case Collect(p) => CollectImage(plan, g, s, p);
      case Launch(after) => LaunchImage(plan, g, s, after);
      case _ => QuietImage(plan, g, s, e);
    }
  }

  lemma LoadImage(plan: Plan, g: Frame, s: State, p: Partition, outcome: Option<Frame>)
    requires PlanShape(plan) && Inv(plan, s) && FilesFromGlobal(plan, g, s) && FromGlobal(g, [Load(p, outcome)])
    requires Apply(plan, s, Load(p, outcome)) != s
    ensures FilesFromGlobal(plan, g, Apply(plan, s, Load(p, outcome)))
  {
    hide Image, CheckpointFrame, Partition.Valid, Inv, PlanShape;
    TaskInPlan(plan, s, p);
    assert Load(p, outcome) in [Load(p, outcome)];
    if outcome.Some? && CheckpointFrame(p, plan.maxRows, outcome.value).Some? {
      LoadedImage(plan, g, p, outcome.value);
    }
  }

  lemma WriteImage(plan: Plan, g: Frame, s: State, p: Partition)
    requires PlanShape(plan) && Inv(plan, s) && FilesFromGlobal(plan, g, s)
    requires Apply(plan, s, Write(p)) != s
    ensures FilesFromGlobal(plan, g, Apply(plan, s, Write(p)))
  {
    hide Image, Partition.Valid, Inv, PlanShape;
    TaskInPlan(plan, s, p);
    OthersKept(plan, s.d.rows, p);
    assert TaskImage(g, p, s.phase.tasks[p]);
  }

  /** Events that complete nothing and touch no file. */
  lemma QuietImage(plan: Plan, g: Frame, s: State, e: Event)
    requires PlanShape(plan) && Inv(plan, s) && FilesFromGlobal(plan, g, s)
    requires !e.Load? && !e.Write? && !e.Collect? && !e.Launch?
    ensures FilesFromGlobal(plan, g, Apply(plan, s, e))
  {
    hide Image, Partition.Valid, Inv, PlanShape, Assembly, CompletedOf, PendingOf, Recoverable, TaskImage, Unfinished;
    if e.Claim? && s.phase.Claiming? && s.phase.claimed < |s.phase.pending| {
      NothingNewlyCompleted(plan, s);
    } else if e.WriteError? {
      ErroredImage(g, s.phase);
    } else if e.Open? && s.d.job.None? {
      assert forall p :: !Completed(EnsureJob(plan, s.d).rows, p);
    }
  }

  lemma ErroredImage(g: Frame, phase: Phase)
    ensures forall p, t :: TaskImage(g, p, t) ==> TaskImage(g, p, Errored)
  {
    hide Image;
  }

  lemma NothingNewlyCompleted(plan: Plan, s: State)
    requires s.phase.Claiming? && s.phase.claimed < |s.phase.pending|
    ensures forall p :: Completed(Apply(plan, s, Claim).d.rows, p) ==> Completed(s.d.rows, p)
    ensures !HasTasks(Apply(plan, s, Claim).phase) && Apply(plan, s, Claim).d.files == s.d.files
  {
  }

  lemma LaunchImage(plan: Plan, g: Frame, s: State, after: Option<nat>)
    requires PlanShape(plan) && Inv(plan, s) && FilesFromGlobal(plan, g, s)
    requires Apply(plan, s, Launch(after)) != s
    ensures FilesFromGlobal(plan, g, Apply(plan, s, Launch(after)))
  {
    hide Assembly, RowsSound, Partition.Valid, CompletedOf, Image;
  }

  lemma TaskInPlan(plan: Plan, s: State, p: Partition)
    requires PlanShape(plan) && Inv(plan, s) && HasTasks(s.phase) && p in s.phase.tasks
    ensures p in plan.partitions && p.Valid()
    ensures s.phase.tasks[p].Loaded? ==> !Completed(s.d.rows, p)
    ensures TaskSound(s.d.rows, s.d.files, s.loads, p, s.phase.tasks[p])
  {
    hide Assembly, RowsSound, Partition.Valid, CompletedOf, FrameOk;
  }

  lemma CollectImage(plan: Plan, g: Frame, s: State, p: Partition)
    requires PlanShape(plan) && Inv(plan, s) && FilesFromGlobal(plan, g, s)
    requires s.phase.Executing? && p in s.phase.tasks
    ensures FilesFromGlobal(plan, g, Apply(plan, s, Collect(p)))
  {
    hide Image, FrameOk, Inv, Partition.Valid, CheckpointOf;
    TaskInPlan(plan, s, p);
    KeyOfCheckpoint(p.key, if s.phase.tasks[p].Written? then s.phase.tasks[p].frame else []);
    forall q | q in plan.partitions && Completed(Apply(plan, s, Collect(p)).d.rows, q)
      ensures q.key in s.d.files && q.Valid() && Image(g, q, s.d.files[q.key].frame)
    {
      if q.key == p.key {
        assert q == p;
        assert TaskImage(g, p, s.phase.tasks[p]);
      }
    }
  }

  lemma {:induction false} RunImages(plan: Plan, g: Frame, s: State, events: seq<Event>)
    requires PlanShape(plan) && Inv(plan, s) && FilesFromGlobal(plan, g, s) && FromGlobal(g, events)
    ensures FilesFromGlobal(plan, g, Run(plan, s, events))
    decreases |events|
  {
    hide Apply, Inv, PlanShape, FilesFromGlobal, Persists;
    if events != [] {
      assert events[0] in events;
      assert forall e :: e in events[1..] ==> e in events;
      assert FromGlobal(g, [events[0]]);
      ImageStep(plan, g, s, events[0]);
      StepKeeps(plan, s, events[0]);
      RunImages(plan, g, Apply(plan, s, events[0]), events[1..]);
    }
  }

  /** The files of partitions i.. hold exactly the rows of g from window i to the end, each once. */
  lemma {:induction false} GatherIsBetween(plan: Plan, g: Frame, files: Files, i: nat)
    requires ValidPlan(plan) && i < |plan.partitions|
    requires forall p :: p in plan.partitions ==> p.key in files && p.Valid() && Image(g, p, files[p.key].frame)
    ensures multiset(Gather(plan.partitions[i..], files))
         == multiset(Between(g, ToOrdinal(plan.partitions[i].start), ToOrdinal(plan.end)))
    decreases |plan.partitions| - i
  {
    hide ToOrdinal, DaysInMonth, Leap, DateLe, Date.Valid, Between;
    var p := plan.partitions[i];
    assert p in plan.partitions;
    assert plan.partitions[i..][1..] == plan.partitions[i + 1..];
    if i + 1 < |plan.partitions| {
      GatherIsBetween(plan, g, files, i + 1);
      var q := plan.partitions[i + 1];
      assert Adjacent(p, q);
      LastWindow(plan, i + 1);
      StartBeforeEnd(p);
      StartBeforeEnd(q);
      BetweenSplits(g, ToOrdinal(p.start), ToOrdinal(p.end), ToOrdinal(plan.end));
    } else {
      assert Gather(plan.partitions[i + 1..], files) == [];
      assert p.end == plan.end;
    }
  }

  lemma LastWindow(plan: Plan, i: nat)
    requires ValidPlan(plan) && i < |plan.partitions|
    ensures ToOrdinal(plan.partitions[i].end) <= ToOrdinal(plan.end)
  {
    hide ToOrdinal, DaysInMonth, Leap, DateLe, Date.Valid;
    var n := |plan.partitions| - 1;
    if i < n {
      WindowsForward(plan, i, n);
      assert ToOrdinal(plan.partitions[n].start) <= ToOrdinal(plan.partitions[n].end) by {
        StartBeforeEnd(plan.partitions[n]);
      }
    }
  }

  lemma StartBeforeEnd(p: Partition)
    requires p.Valid()
    ensures ToOrdinal(p.start) <= ToOrdinal(p.end)
  {
    hide ToOrdinal, DaysInMonth, Leap;
    OrdinalOrder(p.start, p.end);
  }

  /** The frame a single-pass backfill of the whole interval would store. */
  function WholeFrame(plan: Plan, g: Frame): Frame
    requires plan.start.Valid() && plan.end.Valid()
  {
    SortBy(RowLe, Between(g, ToOrdinal(plan.start), ToOrdinal(plan.end)))
  }

  /**
   * Partitioning, scheduling, retries and crashes do not change the result: with a loader that
   * restricts one global frame, whatever is published is the whole frame sorted once, with every row
   * of the interval conserved.
   */
  lemma PublishedMeansWholeFrame(plan: Plan, g: Frame, events: seq<Event>)
    requires ValidPlan(plan) && FromGlobal(g, events)
    ensures var s := Run(plan, INIT, events);
            JobIs(s.d, Published) ==>
              && s.d.job.value.published == Some(Object(WholeFrame(plan, g)))
              && UniqueKeys(WholeFrame(plan, g))
  {
    hide ToOrdinal, DaysInMonth, Leap, Inv, PlanShape, Apply, SortedUniquely, Coverage, UniqueKeys;
    var s := Run(plan, INIT, events);
    assert Reachable(plan, s);
    ShapeOfPlan(plan);
    InitSound(plan);
    RunImages(plan, g, INIT, events);
    if JobIs(s.d, Published) {
      PublishedIsAbsorbing(plan, s, []);
      PublishedGathers(plan, g, s);
    }
  }

  lemma PublishedGathers(plan: Plan, g: Frame, s: State)
    requires ValidPlan(plan) && FilesFromGlobal(plan, g, s) && s.d.job.Some? && s.d.job.value.published.Some?
    requires Assembly(plan, s.d.files, CompletedOf(s.d.rows)) == Ok(s.d.job.value.published.value.frame)
    ensures s.d.job.value.published == Some(Object(WholeFrame(plan, g)))
    ensures UniqueKeys(WholeFrame(plan, g))
  {
    hide ToOrdinal, DaysInMonth, Leap, DateLe, Date.Valid, SortedUniquely, UniqueKeys, Image;
    var files := s.d.files;
    forall p | p in plan.partitions
      ensures p.key in files && p.Valid() && Image(g, p, files[p.key].frame)
    {
      assert p.key in CompletedOf(s.d.rows);
      assert Completed(s.d.rows, p);
    }
    GatherIsBetween(plan, g, files, 0);
    assert plan.partitions[0..] == plan.partitions;
    var gathered := Gather(plan.partitions, files);
    var whole := Between(g, ToOrdinal(plan.start), ToOrdinal(plan.end));
    SortedUniquelyIff(gathered);
    RowOrder();
    UniqueSeparates(gathered);
    SortByPermutation(RowLe, gathered, whole);
    UniqueKeysPermute(gathered, WholeFrame(plan, g));
  }

  lemma UniqueSeparates(f: Frame)
    requires UniqueKeys(f)
    ensures Separates(RowLe, multiset(f))
  {
    forall x, y | x in multiset(f) && y in multiset(f) && RowLe(x, y) && RowLe(y, x)
      ensures x == y
    {
      RowOrder();
      var i :| 0 <= i < |f| && f[i] == x;
      var j :| 0 <= j < |f| && f[j] == y;
      assert SameKey(f[i], f[j]) && SameKey(f[j], f[i]);
    }
  }

  /** Year plans and month plans of one interval publish the same object, whatever happened on the way. */
  lemma GranularityIsIrrelevant(a: Plan, b: Plan, g: Frame, eventsA: seq<Event>, eventsB: seq<Event>)
    requires ValidPlan(a) && ValidPlan(b) && a.start == b.start && a.end == b.end
    requires FromGlobal(g, eventsA) && FromGlobal(g, eventsB)
    requires JobIs(Run(a, INIT, eventsA).d, Published) && JobIs(Run(b, INIT, eventsB).d, Published)
    ensures Run(a, INIT, eventsA).d.job == Run(b, INIT, eventsB).d.job
  {
    hide Apply, ValidPlan, UniqueKeys;
    PublishedMeansWholeFrame(a, g, eventsA);
    PublishedMeansWholeFrame(b, g, eventsB);
  }
}
