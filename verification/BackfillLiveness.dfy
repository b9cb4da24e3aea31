/** Which jobs can still be published by some continuation, and which never will be. */
module BackfillLiveness {
  import opened Common
  import opened Calendar
  import opened BackfillPlanning
  import opened BackfillFrames
  import opened BackfillCatalog
  import opened BackfillProtocol
  import opened BackfillInvariant
  import opened BackfillSafety
  import opened BackfillAssembly
  import opened Sorting

  ghost predicate HasRows(parts: seq<Partition>, d: Durable) {
    exists p :: p in parts && Completed(d.rows, p) && p.key in d.files && d.files[p.key].frame != []
  }

  /** A completed checkpoint repeats a key: no later run can drop or replace it. */
  ghost predicate PoisonedCheckpoint(parts: seq<Partition>, d: Durable) {
    exists p :: p in parts && Completed(d.rows, p) && p.key in d.files && !UniqueKeys(d.files[p.key].frame)
  }

  /** Readable from the catalogue and the checkpoint files before calling run. */
  ghost predicate Publishable(plan: Plan, d: Durable)
    requires d.job.Some?
  {
    || JobIs(d, Published)
    || (&& Resumes(plan, d)
        && !PoisonedCheckpoint(plan.partitions, d)
        && (PendingOf(plan.partitions, d.rows) != [] || HasRows(plan.partitions, d)))
  }

  // ----- only publishable jobs are ever published

  lemma OnlyPublishable(plan: Plan, s: State, events: seq<Event>)
    requires ValidPlan(plan) && Reachable(plan, s) && s.phase.Idle? && s.d.job.Some?
    requires JobIs(Run(plan, s, events).d, Published)
    ensures Publishable(plan, s.d)
  {
    hide Apply, Inv, PlanShape, Persists, UniqueKeys, FrameOk, Resumes, PoisonedCheckpoint, HasRows, ValidPlan;
    ReachableInv(plan, s);
    RunKeeps(plan, s, events);
    var t := Run(plan, s, events);
    if !JobIs(s.d, Published) {
      if !Resumes(plan, s.d) {
        RefusedForever(plan, s, events);
      }
      PublishedFiles(plan, t);
      CarriedBack(plan, s, t);
    }
  }

  /** A published job has every file sound, none poisoned, and some row. */
  lemma PublishedFiles(plan: Plan, t: State)
    requires ValidPlan(plan) && PlanShape(plan) && Inv(plan, t) && JobIs(t.d, Published)
    ensures FilesSound(plan, t.d.files)
    ensures forall p :: p in plan.partitions ==> Completed(t.d.rows, p)
    ensures !Poisoned(plan.partitions, t.d.files) && !Barren(plan.partitions, t.d.files)
  {
    hide FrameOk, UniqueKeys, SortedUniquely, Coverage, Partition.Valid, Gather;
    var have := CompletedOf(t.d.rows);
    forall p | p in plan.partitions
      ensures Completed(t.d.rows, p) && Backed(t.d.rows, t.d.files, p) && have[p.key] == CheckpointOf(p.key, t.d.files[p.key].frame)
    {
      assert p.key in have;
      assert RowSound(plan, t.d.rows, t.d.files, t.loads, p);
    }
    AssemblyIff(plan, t.d.files, have);
  }

  lemma CarriedBack(plan: Plan, s: State, t: State)
    requires PlanShape(plan) && Inv(plan, s) && Persists(plan, s, t) && s.d.job.Some?
    requires FilesSound(plan, t.d.files)
    requires !Poisoned(plan.partitions, t.d.files) && !Barren(plan.partitions, t.d.files)
    ensures !PoisonedCheckpoint(plan.partitions, s.d)
    ensures PendingOf(plan.partitions, s.d.rows) != [] || HasRows(plan.partitions, s.d)
  {
    hide FrameOk, UniqueKeys, Partition.Valid, PhaseSound, Assembly;
    forall p | p in plan.partitions && Completed(s.d.rows, p)
      ensures p.key in s.d.files && p.key in t.d.files && t.d.files[p.key] == s.d.files[p.key]
    {
      assert RowSound(plan, s.d.rows, s.d.files, s.loads, p);
      assert Unmoved(s, t, p);
    }
    if PendingOf(plan.partitions, s.d.rows) == [] {
      var p :| p in plan.partitions && p.key in t.d.files && t.d.files[p.key].frame != [];
      assert !Unfinished(s.d.rows, p);
      assert RowSound(plan, s.d.rows, s.d.files, s.loads, p);
    }
  }

  // ----- every publishable job can be published

  /** One row inside the window, for a loader that supplies what is missing. */
  function Sample(p: Partition): Row
    requires p.Valid()
  {
    Row(ToOrdinal(p.start), 0, "A", [])
  }

  /** A loader that answers one row for each partition. */
  function SampleOf(p: Partition): Frame {
    if p.Valid() then [Sample(p)] else []
  }

  /** Nothing crashes and no load or write fails. */
  ghost predicate Uneventful(events: seq<Event>) {
    forall e :: e in events ==> !e.Crash? && !e.WriteError? && (e.Load? ==> e.outcome.Some?)
  }

  lemma {:induction false} DriveClaims(plan: Plan, s: State) returns (events: seq<Event>)
    requires PlanShape(plan) && Inv(plan, s) && s.phase.Claiming?
    ensures forall e :: e in events ==> e.Claim?
    ensures var t := Run(plan, s, events);
            && Inv(plan, t) && t.phase == s.phase.(claimed := |s.phase.pending|)
            && t.d.files == s.d.files
            && (forall p :: p in plan.partitions ==> (Completed(t.d.rows, p) <==> Completed(s.d.rows, p)))
    decreases |s.phase.pending| - s.phase.claimed
  {
    hide Assembly, RowsSound, PlanShape, CompletedOf;
    if s.phase.claimed == |s.phase.pending| {
      events := [];
    } else {
      var t := Apply(plan, s, Claim);
      ClaimStep(plan, s);
      ClaimEffect(plan, s);
      var rest := DriveClaims(plan, t);
      events := [Claim] + rest;
      assert events[0] == Claim && events[1..] == rest;
    }
  }

  lemma ClaimEffect(plan: Plan, s: State)
    requires PlanShape(plan) && Inv(plan, s) && s.phase.Claiming? && s.phase.claimed < |s.phase.pending|
    ensures var t := Apply(plan, s, Claim);
            && t.phase == s.phase.(claimed := s.phase.claimed + 1) && t.d.files == s.d.files
            && (forall p :: p in plan.partitions ==> (Completed(t.d.rows, p) <==> Completed(s.d.rows, p)))
  {
    hide Assembly, Backed, Partition.Valid, CompletedOf;
    ClaimStep(plan, s);
    NextClaim(plan, s.d.rows, s.d.files, s.loads, s.phase.pending, s.phase.claimed);
  }

  /** The phase after one more task is collected: the interruption counter may run out. */
  ghost function AfterCollect(phase: Phase, have: map<string, Checkpoint>, p: Partition): Phase
    requires phase.Executing?
  {
    var tasks := phase.tasks[p := Collected];
    if phase.left == Some(1) then Interrupting(tasks)
    else Executing(have, tasks, if phase.left.Some? && phase.left.value > 0 then Some(phase.left.value - 1) else phase.left)
  }

  /** Within the row bound and the window: what _compute_checkpoint asks of a loaded frame. */
  ghost predicate Loadable(plan: Plan, p: Partition, f: Frame) {
    p.Valid() && |f| <= plan.maxRows && forall i :: 0 <= i < |f| ==> ToOrdinal(p.start) <= f[i].day <= ToOrdinal(p.end)
  }

  /** The checkpoint of a loaded frame. */
  function Stored(f: Frame): Frame {
    SortBy(RowLe, NormaliseAll(f))
  }

  lemma LoadableStored(plan: Plan, p: Partition, f: Frame)
    requires p.Valid()
    ensures Loadable(plan, p, f) <==> CheckpointFrame(p, plan.maxRows, f).Some?
    ensures Loadable(plan, p, f) ==> CheckpointFrame(p, plan.maxRows, f) == Some(Stored(f))
  {
    CheckpointFrameIff(p, plan.maxRows, f);
    hide ToOrdinal;
  }

  /** A queued task whose loader answers is given a checkpoint to write exactly when the answer is loadable. */
  lemma LoadDecides(plan: Plan, s: State, p: Partition, outcome: Option<Frame>)
    requires HasTasks(s.phase) && !s.phase.Draining? && p in s.phase.tasks && s.phase.tasks[p].Queued? && p.Valid()
    ensures var t := Apply(plan, s, Load(p, outcome));
            && t.d == s.d && HasTasks(t.phase) && p in t.phase.tasks && t.loads == s.loads + multiset{p.key}
            && (t.phase.tasks[p].Loaded? <==> outcome.Some? && Loadable(plan, p, outcome.value))
            && t.phase.tasks[p] == (if outcome.Some? && Loadable(plan, p, outcome.value) then Loaded(Stored(outcome.value))
                                    else Errored)
  {
    hide Loadable, CheckpointFrame, Stored;
    if outcome.Some? {
      LoadableStored(plan, p, outcome.value);
    }
  }

  /** A queued task loads an acceptable frame, writes it and is collected. */
  lemma DriveTask(plan: Plan, s: State, p: Partition, f: Frame)
    requires PlanShape(plan) && Inv(plan, s) && s.phase.Executing?
    requires p in s.phase.tasks && s.phase.tasks[p].Queued? && Loadable(plan, p, f)
    ensures var t := Run(plan, s, [Load(p, Some(f)), Write(p), Collect(p)]);
            && Inv(plan, t) && t.phase == AfterCollect(s.phase, CompletedOf(t.d.rows), p)
            && t.d.files == s.d.files[p.key := Parquet(Stored(f))] && Completed(t.d.rows, p)
            && (forall q :: q in plan.partitions && Completed(s.d.rows, q) ==> Completed(t.d.rows, q))
  {
    hide Assembly, RowsSound, PlanShape, CompletedOf, Partition.Valid, FrameOk, Inv, CheckpointFrame, Persists, Stored;
    TaskInPlan(plan, s, p);
    LoadableStored(plan, p, f);
    hide Loadable;
    var load := Load(p, Some(f));
    RunThree(plan, s, load, Write(p), Collect(p));
    var a := Apply(plan, s, load);
    var b := Apply(plan, a, Write(p));
    var c := Apply(plan, b, Collect(p));
    StepKeeps(plan, s, load);
    StepKeeps(plan, a, Write(p));
    StepKeeps(plan, b, Collect(p));
    PersistsTransitive(plan, s, a, b);
    PersistsTransitive(plan, s, b, c);
    CompletedPersist(plan, s, c);
    ResultsToGo(plan, s);
    CollectCompletes(plan, b, p, Stored(f));
  }

  lemma ResultsToGo(plan: Plan, s: State)
    requires Inv(plan, s) && s.phase.Executing?
    ensures s.phase.left != Some(0)
  {
    hide Assembly, RowsSound, TasksSound, RestCompleted, CompletedOf;
  }

  lemma CollectCompletes(plan: Plan, s: State, p: Partition, f: Frame)
    requires Inv(plan, s) && Inv(plan, Apply(plan, s, Collect(p)))
    requires s.phase.Executing? && s.phase.left != Some(0) && p in s.phase.tasks && s.phase.tasks[p] == Written(f)
    ensures var t := Apply(plan, s, Collect(p));
            t.phase == AfterCollect(s.phase, CompletedOf(t.d.rows), p) && Completed(t.d.rows, p)
  {
    hide Assembly, RowsSound, CompletedOf, FrameOk, Partition.Valid, RestCompleted;
    assert TaskSound(s.d.rows, s.d.files, s.loads, p, s.phase.tasks[p]);
  }

  lemma PlanValid(plan: Plan)
    requires PlanShape(plan)
    ensures forall p :: p in plan.partitions ==> p.Valid()
  {
    hide Partition.Valid;
  }

  lemma ValidInPlan(plan: Plan, p: Partition)
    requires PlanShape(plan) && p in plan.partitions
    ensures p.Valid()
  {
    hide Partition.Valid;
  }

  lemma CompletedPersist(plan: Plan, s: State, t: State)
    requires Persists(plan, s, t)
    ensures forall q :: q in plan.partitions && Completed(s.d.rows, q) ==> Completed(t.d.rows, q)
  {
    forall q | q in plan.partitions && Completed(s.d.rows, q)
      ensures Completed(t.d.rows, q)
    {
      assert Unmoved(s, t, q);
    }
  }

  /** What a loader answers for each partition. */
  type Answer = Partition -> Frame

  ghost predicate AnsweredBy(answer: Answer, events: seq<Event>) {
    forall e :: e in events && e.Load? ==> e.outcome == Some(answer(e.p))
  }

  lemma {:induction false} DriveTasks(plan: Plan, s: State, todo: seq<Partition>, answer: Answer) returns (events: seq<Event>)
    requires PlanShape(plan) && Inv(plan, s) && s.phase.Executing? && s.phase.left.None?
    requires forall p :: p in todo ==> Loadable(plan, p, answer(p))
    requires Distinct(todo) && forall p :: p in todo ==> p in s.phase.tasks && s.phase.tasks[p].Queued?
    requires forall p :: p in s.phase.tasks && p !in todo ==> s.phase.tasks[p].Collected?
    ensures Uneventful(events) && AnsweredBy(answer, events)
    ensures var t := Run(plan, s, events);
            && Inv(plan, t) && t.phase.Executing? && (forall p :: p in t.phase.tasks ==> t.phase.tasks[p].Collected?)
            && (forall p :: p in todo ==> p.key in t.d.files && t.d.files[p.key] == Parquet(Stored(answer(p))))
            && (forall p :: p in plan.partitions && p !in todo && p.key in s.d.files ==>
                  p.key in t.d.files && t.d.files[p.key] == s.d.files[p.key])
    decreases |todo|
  {
    hide Apply, Inv, Partition.Valid, Loadable, Stored;
    if todo == [] {
      events := [];
    } else {
      var p := todo[0];
      assert p in todo;
      DriveTask(plan, s, p, answer(p));
      var e := [Load(p, Some(answer(p))), Write(p), Collect(p)];
      var t := Run(plan, s, e);
      TodoShrinks(s.phase.tasks, todo);
      TodoInPlan(plan, s, todo);
      var rest := DriveTasks(plan, t, todo[1..], answer);
      events := e + rest;
      RunConcat(plan, s, e, rest);
      forall q | q in plan.partitions && q != p
        ensures q.key != p.key
      {
      }
    }
  }

  lemma TodoInPlan(plan: Plan, s: State, todo: seq<Partition>)
    requires PlanShape(plan) && Inv(plan, s) && s.phase.Executing?
    requires forall p :: p in todo ==> p in s.phase.tasks
    ensures forall p :: p in todo ==> p in plan.partitions
  {
    hide Assembly, RowsSound, Partition.Valid, CompletedOf, FrameOk;
  }

  lemma TodoShrinks(tasks: Tasks, todo: seq<Partition>)
    requires todo != [] && Distinct(todo) && todo[0] in tasks
    requires forall p :: p in todo ==> p in tasks && tasks[p].Queued?
    requires forall p :: p in tasks && p !in todo ==> tasks[p].Collected?
    ensures var next := tasks[todo[0] := Collected];
            && Distinct(todo[1..])
            && (forall p :: p in todo[1..] ==> p in next && next[p].Queued?)
            && (forall p :: p in next && p !in todo[1..] ==> next[p].Collected?)
  {
    assert todo == [todo[0]] + todo[1..];
  }

  lemma RowBacked(plan: Plan, u: State, p: Partition)
    requires PlanShape(plan) && Inv(plan, u) && u.phase.Joining? && p in plan.partitions
    ensures Backed(u.d.rows, u.d.files, p) && p.key in u.phase.have
    ensures u.phase.have[p.key] == CheckpointOf(p.key, u.d.files[p.key].frame)
  {
    hide Assembly, FrameOk, Partition.Valid, CheckpointOf;
    assert p.key in Keys(plan);
    assert p.key in u.phase.have;
    assert RowSound(plan, u.d.rows, u.d.files, u.loads, p);
  }

  lemma AllRowsBacked(plan: Plan, u: State)
    requires PlanShape(plan) && Inv(plan, u) && u.phase.Joining?
    ensures FilesSound(plan, u.d.files) && CheckpointsMatch(plan, u.d.files, u.phase.have)
  {
    hide Assembly, FrameOk, Partition.Valid, CheckpointOf, PlanShape, Inv;
    forall p | p in plan.partitions
      ensures Backed(u.d.rows, u.d.files, p) && p.key in u.phase.have
           && u.phase.have[p.key] == CheckpointOf(p.key, u.d.files[p.key].frame)
    {
      RowBacked(plan, u, p);
    }
  }

  lemma AssemblyGoesThrough(plan: Plan, u: State)
    requires u.phase.Joining? && Assembly(plan, u.d.files, u.phase.have).Ok?
    ensures Apply(plan, u, Assemble).phase.Assembled? && Apply(plan, u, Assemble).d == u.d
  {
    hide Assembly;
  }

  lemma GoodFilesAssemble(plan: Plan, u: State)
    requires ValidPlan(plan) && PlanShape(plan) && Inv(plan, u) && u.phase.Joining?
    requires !Poisoned(plan.partitions, u.d.files) && !Barren(plan.partitions, u.d.files)
    ensures Apply(plan, u, Assemble).phase.Assembled? && Apply(plan, u, Assemble).d == u.d
  {
    hide *;
    AllRowsBacked(plan, u);
    AssemblyIff(plan, u.d.files, u.phase.have);
    AssemblyGoesThrough(plan, u);
  }

  lemma AssembledPublishes(plan: Plan, v: State)
    requires v.phase.Assembled? && JobIs(v.d, Assembling)
    ensures JobIs(Apply(plan, Apply(plan, v, Materialize(true)), Publish).d, Published)
  {
    hide Assembly;
  }

  /** Assembly, materialisation and publication go through on good files. */
  lemma JoinAndPublish(plan: Plan, u: State)
    requires ValidPlan(plan) && PlanShape(plan) && Inv(plan, u) && u.phase.Joining?
    requires !Poisoned(plan.partitions, u.d.files) && !Barren(plan.partitions, u.d.files)
    ensures JobIs(Run(plan, u, [Assemble, Materialize(true), Publish]).d, Published)
  {
    hide *;
    GoodFilesAssemble(plan, u);
    JoiningStatus(plan, u);
    AssembledPublishes(plan, Apply(plan, u, Assemble));
    RunThree(plan, u, Assemble, Materialize(true), Publish);
  }

  /** With work pending: claim, launch, load, write, collect, and reach the assembly phase. */
  lemma DrivePending(plan: Plan, s: State, answer: Answer) returns (events: seq<Event>)
    requires PlanShape(plan) && Inv(plan, s) && s.phase.Claiming?
    requires forall p :: p in s.phase.pending ==> Loadable(plan, p, answer(p))
    requires forall p :: p in plan.partitions && Completed(s.d.rows, p) ==> p.key in s.d.files
    ensures Uneventful(events) && AnsweredBy(answer, events)
    ensures var u := Run(plan, s, events);
            && Inv(plan, u) && u.phase.Joining?
            && (forall p :: p in s.phase.pending ==> p.key in u.d.files && u.d.files[p.key] == Parquet(Stored(answer(p))))
            && (forall p :: p in plan.partitions && p !in s.phase.pending && p.key in s.d.files ==>
                  p.key in u.d.files && u.d.files[p.key] == s.d.files[p.key])
  {
    hide Apply, Inv, Loadable, Stored, Partition.Valid, PlanShape, Completed;
    var claims := DriveClaims(plan, s);
    var a := Run(plan, s, claims);
    LaunchQueues(plan, a);
    var b := Apply(plan, a, Launch(None));
    var tasks := DriveTasks(plan, b, s.phase.pending, answer);
    var c := Run(plan, b, tasks);
    FinishToJoin(plan, c);
    var launch, finish := [Launch(None)], [Finish, BeginAssembly];
    events := claims + (launch + (tasks + finish));
    RunConcat(plan, s, claims, launch + (tasks + finish));
    RunConcat(plan, a, launch, tasks + finish);
    RunOne(plan, a, Launch(None));
    RunConcat(plan, b, tasks, finish);
  }

  lemma RunOne(plan: Plan, s: State, e: Event)
    ensures Run(plan, s, [e]) == Apply(plan, s, e)
  {
    hide Apply;
    assert [e][1..] == [];
    assert Run(plan, s, [e]) == Run(plan, Apply(plan, s, e), []);
  }

  lemma LaunchQueues(plan: Plan, a: State)
    requires PlanShape(plan) && Inv(plan, a) && a.phase.Claiming? && a.phase.claimed == |a.phase.pending|
    ensures var b := Apply(plan, a, Launch(None));
            && Inv(plan, b) && b.phase.Executing? && b.phase.left.None? && b.d == a.d && Distinct(a.phase.pending)
            && (forall p :: p in a.phase.pending ==> p in b.phase.tasks && b.phase.tasks[p].Queued?)
            && (forall p :: p in b.phase.tasks ==> p in a.phase.pending)
  {
    hide PlanShape, RowsSound, Assembly;
    LaunchStep(plan, a, None);
  }

  lemma FinishToJoin(plan: Plan, c: State)
    requires PlanShape(plan) && Inv(plan, c) && c.phase.Executing?
    requires forall p :: p in c.phase.tasks ==> c.phase.tasks[p].Collected?
    ensures var u := Run(plan, c, [Finish, BeginAssembly]);
            Inv(plan, u) && u.phase.Joining? && u.d.files == c.d.files
  {
    hide PlanShape, RowsSound, Assembly, CompletedOf;
    var d := Apply(plan, c, Finish);
    FinishStep(plan, c);
    EveryCheckpointPresent(plan, d);
    StepKeeps(plan, d, BeginAssembly);
    assert [Finish, BeginAssembly] == [Finish] + [BeginAssembly];
    RunConcat(plan, c, [Finish], [BeginAssembly]);
    RunOne(plan, c, Finish);
    RunOne(plan, d, BeginAssembly);
  }

  /** Loaded answers without a repeated key, some of them or some completed file with a row, leave good files. */
  lemma LoadedFilesGood(plan: Plan, d: Durable, pending: seq<Partition>, files: Files, answer: Answer)
    requires PlanShape(plan) && !PoisonedCheckpoint(plan.partitions, d)
    requires forall p :: p in pending <==> p in plan.partitions && Unfinished(d.rows, p)
    requires forall p :: p in plan.partitions ==> p.key in d.rows && (Completed(d.rows, p) ==> p.key in d.files)
    requires forall p :: p in pending ==> p.key in files && files[p.key] == Parquet(Stored(answer(p)))
    requires forall p :: p in plan.partitions && p !in pending && p.key in d.files ==>
                           p.key in files && files[p.key] == d.files[p.key]
    requires forall p :: p in pending ==> UniqueKeys(NormaliseAll(answer(p)))
    requires HasRows(plan.partitions, d) || exists p :: p in pending && answer(p) != []
    ensures !Poisoned(plan.partitions, files) && !Barren(plan.partitions, files)
  {
    hide UniqueKeys, Partition.Valid;
    forall p | p in plan.partitions && p.key in files
      ensures UniqueKeys(files[p.key].frame)
    {
      if p in pending {
        UniqueKeysPermute(Stored(answer(p)), NormaliseAll(answer(p)));
      } else {
        assert Completed(d.rows, p);
      }
    }
    if HasRows(plan.partitions, d) {
      var p :| p in plan.partitions && Completed(d.rows, p) && p.key in d.files && d.files[p.key].frame != [];
      assert !Unfinished(d.rows, p);
    } else {
      var p :| p in pending && answer(p) != [];
      assert |Stored(answer(p))| == |answer(p)|;
    }
  }

  lemma SettledFilesGood(plan: Plan, d: Durable)
    requires PendingOf(plan.partitions, d.rows) == [] && !PoisonedCheckpoint(plan.partitions, d)
    requires HasRows(plan.partitions, d) && d.rows.Keys == Keys(plan)
    ensures !Poisoned(plan.partitions, d.files) && !Barren(plan.partitions, d.files)
  {
    hide UniqueKeys;
    forall p | p in plan.partitions && p.key in d.files
      ensures UniqueKeys(d.files[p.key].frame)
    {
      assert !Unfinished(d.rows, p);
      assert p.key in Keys(plan);
    }
  }

  lemma CompletedHaveFiles(plan: Plan, s: State)
    requires PlanShape(plan) && Inv(plan, s) && s.d.job.Some?
    ensures s.d.rows.Keys == Keys(plan)
    ensures forall p :: p in plan.partitions ==> p.key in s.d.rows && (Completed(s.d.rows, p) ==> p.key in s.d.files)
  {
    hide Assembly, FrameOk, Partition.Valid, PhaseSound;
    forall p | p in plan.partitions
      ensures p.key in s.d.rows && (Completed(s.d.rows, p) ==> p.key in s.d.files)
    {
      assert RowSound(plan, s.d.rows, s.d.files, s.loads, p);
    }
  }

  lemma SamePending(plan: Plan, s: State)
    requires PlanShape(plan) && Inv(plan, s) && s.phase.Claiming?
    ensures forall p :: p in s.phase.pending <==> p in plan.partitions && Unfinished(s.d.rows, p)
  {
    hide RowsSound, Assembly, PlanShape;
  }

  /**
   * Whatever frames the loader has for what is pending: when each is within bound and window and repeats no key, and
   * there is some row at all, the run that loads exactly these frames, once each, publishes the job.
   */
  lemma CanPublishAnswers(plan: Plan, s: State, answer: Answer) returns (events: seq<Event>)
    requires ValidPlan(plan) && Reachable(plan, s) && s.phase.Idle? && s.d.job.Some?
    requires Resumes(plan, s.d) && !JobIs(s.d, Published) && !PoisonedCheckpoint(plan.partitions, s.d)
    requires forall p :: p in PendingOf(plan.partitions, s.d.rows) ==>
                           Loadable(plan, p, answer(p)) && UniqueKeys(NormaliseAll(answer(p)))
    requires HasRows(plan.partitions, s.d) || exists p :: p in PendingOf(plan.partitions, s.d.rows) && answer(p) != []
    ensures Uneventful(events) && AnsweredBy(answer, events)
    ensures JobIs(Run(plan, s, events).d, Published)
  {
    hide Apply, Inv, PlanShape, ValidPlan, Loadable, Stored, Partition.Valid, PoisonedCheckpoint, HasRows, Poisoned, Barren,
         PendingOf, CompletedOf, Resumes, Unfinished, Completed, UniqueKeys;
    ReachableInv(plan, s);
    ResumeIsExact(plan, s);
    CompletedHaveFiles(plan, s);
    var begin := [Open, Admit, BeginAssembly];
    var finish := [Assemble, Materialize(true), Publish];
    var t := Opening(plan, s);
    RunKeeps(plan, s, begin);
    OpeningFiles(plan, s);
    var middle := [];
    if t.phase.Claiming? {
      SamePending(plan, t);
      OpeningPending(plan, s);
      middle := DrivePending(plan, t, answer);
      LoadedFilesGood(plan, s.d, t.phase.pending, Run(plan, t, middle).d.files, answer);
    } else {
      NothingToLoad(plan, s);
      SettledFilesGood(plan, s.d);
    }
    var u := Run(plan, t, middle);
    JoinAndPublish(plan, u);
    events := begin + (middle + finish);
    RunConcat(plan, s, begin, middle + finish);
    RunConcat(plan, t, middle, finish);
  }

  lemma OpeningPending(plan: Plan, s: State)
    requires s.phase.Idle? && s.d.job.Some? && Opening(plan, s).phase.Claiming?
    ensures Opening(plan, s).phase.pending == PendingOf(plan.partitions, s.d.rows)
  {
    hide Assembly, PendingOf, CompletedOf, Recoverable;
    RunThree(plan, s, Open, Admit, BeginAssembly);
    assert Opening(plan, s) == Run(plan, s, [Open, Admit, BeginAssembly]);
  }

  lemma NothingToLoad(plan: Plan, s: State)
    requires s.phase.Idle? && s.d.job.Some? && Opening(plan, s).phase.Joining?
    ensures PendingOf(plan.partitions, s.d.rows) == []
  {
    hide Assembly, PendingOf, CompletedOf, Recoverable;
    RunThree(plan, s, Open, Admit, BeginAssembly);
    assert Opening(plan, s) == Run(plan, s, [Open, Admit, BeginAssembly]);
  }

  lemma SamplesLoadable(plan: Plan, parts: seq<Partition>)
    requires plan.maxRows >= 1 && forall p :: p in parts ==> p.Valid()
    ensures forall p :: p in parts ==> Loadable(plan, p, SampleOf(p)) && UniqueKeys(NormaliseAll(SampleOf(p))) && SampleOf(p) != []
  {
    hide ToOrdinal;
    forall p | p in parts
      ensures Loadable(plan, p, SampleOf(p))
    {
      OrdinalOrder(p.start, p.end);
    }
  }

  lemma PendingValid(plan: Plan, s: State)
    requires PlanShape(plan)
    ensures forall p :: p in PendingOf(plan.partitions, s.d.rows) ==> p in plan.partitions && p.Valid()
  {
    hide Partition.Valid, Unfinished;
  }

  lemma CanPublish(plan: Plan, s: State) returns (events: seq<Event>)
    requires ValidPlan(plan) && Reachable(plan, s) && s.phase.Idle? && s.d.job.Some?
    requires Publishable(plan, s.d)
    ensures JobIs(Run(plan, s, events).d, Published)
  {
    hide Inv, PlanShape, ValidPlan, SampleOf, Partition.Valid, PoisonedCheckpoint, HasRows, PendingOf, Resumes, UniqueKeys,
         Loadable, Apply;
    if JobIs(s.d, Published) {
      events := [];
    } else {
      ReachableInv(plan, s);
      PlanMaxRows(plan);
      var pending := PendingOf(plan.partitions, s.d.rows);
      PendingValid(plan, s);
      SamplesLoadable(plan, pending);
      assert pending != [] ==> pending[0] in pending;
      events := CanPublishAnswers(plan, s, SampleOf);
    }
  }

  lemma PlanMaxRows(plan: Plan)
    requires ValidPlan(plan)
    ensures plan.maxRows >= 1
  {
    hide Coverage, Partition.Valid;
  }

  lemma OpeningFiles(plan: Plan, s: State)
    requires s.phase.Idle? && s.d.job.Some?
    ensures Opening(plan, s).d.files == s.d.files
  {
    hide Assembly, PendingOf, CompletedOf, Recoverable;
    RunThree(plan, s, Open, Admit, BeginAssembly);
    assert Opening(plan, s) == Run(plan, s, [Open, Admit, BeginAssembly]);
  }

  /** A stored job can still be published by some continuation exactly when it is publishable. */
  lemma PublishableIsExact(plan: Plan, s: State)
    requires ValidPlan(plan) && Reachable(plan, s) && s.phase.Idle? && s.d.job.Some?
    ensures (exists events :: JobIs(Run(plan, s, events).d, Published)) <==> Publishable(plan, s.d)
  {
    hide Publishable, Run, Reachable, ValidPlan;
    if Publishable(plan, s.d) {
      var events := CanPublish(plan, s);
    }
    if exists events :: JobIs(Run(plan, s, events).d, Published) {
      var events :| JobIs(Run(plan, s, events).d, Published);
      OnlyPublishable(plan, s, events);
    }
  }

  /** Whatever acceptable frames the loader has, a first run completes all partitions and enters assembly, which goes through. */
  lemma ReachesAssemblyWith(plan: Plan, answer: Answer) returns (events: seq<Event>)
    requires ValidPlan(plan)
    requires forall p :: p in plan.partitions ==> Loadable(plan, p, answer(p)) && UniqueKeys(NormaliseAll(answer(p)))
    requires exists p :: p in plan.partitions && answer(p) != []
    ensures Uneventful(events) && AnsweredBy(answer, events)
    ensures var u := Run(plan, INIT, events);
            u.phase.Joining? && JobIs(u.d, Assembling) && Apply(plan, u, Assemble).phase.Assembled?
    ensures PlanShape(plan) && Inv(plan, Run(plan, INIT, events))
  {
    hide Apply, Inv, PlanShape, ValidPlan, Completed, PendingOf, CompletedOf, Untouched, Unfinished,
         PoisonedCheckpoint, Poisoned, Barren, Partition.Valid, Loadable, UniqueKeys, HasRows;
    ShapeOfPlan(plan);
    InitSound(plan);
    RunKeeps(plan, INIT, [Open, Admit]);
    FirstRunClaims(plan);
    var t := Run(plan, INIT, [Open, Admit]);
    CompletedHaveFiles(plan, t);
    SamePending(plan, t);
    AllPending(plan);
    var middle := DrivePending(plan, t, answer);
    events := [Open, Admit] + middle;
    RunConcat(plan, INIT, [Open, Admit], middle);
    var u := Run(plan, INIT, events);
    JoiningStatus(plan, u);
    LoadedFilesGood(plan, t.d, t.phase.pending, u.d.files, answer);
    GoodFilesAssemble(plan, u);
  }

  lemma AllPending(plan: Plan)
    requires PlanShape(plan)
    ensures var t := Run(plan, INIT, [Open, Admit]);
            forall p :: p in plan.partitions ==> Unfinished(t.d.rows, p)
  {
    hide PendingOf, CompletedOf, Partition.Valid;
    var ready := Apply(plan, INIT, Open);
    RunOne(plan, INIT, Open);
    RunOne(plan, ready, Admit);
    assert [Open, Admit] == [Open] + [Admit];
    RunConcat(plan, INIT, [Open], [Admit]);
    assert Untouched(plan, ready.d.rows);
  }

  /** Some behaviour of every plan completes all partitions and enters assembly, which then goes through. */
  lemma ReachesAssembly(plan: Plan) returns (events: seq<Event>)
    requires ValidPlan(plan)
    ensures var u := Run(plan, INIT, events);
            u.phase.Joining? && JobIs(u.d, Assembling) && Apply(plan, u, Assemble).phase.Assembled?
  {
    ShapeOfPlan(plan);
    PlanMaxRows(plan);
    SamplesLoadable(plan, plan.partitions);
    assert plan.partitions[0] in plan.partitions;
    hide ValidPlan, PlanShape, SampleOf, Loadable, UniqueKeys, Apply, Run;
    events := ReachesAssemblyWith(plan, SampleOf);
  }

  /**
   * The ordinary backfill: when the rows of one frame fit the plan's bound and repeat no key, and some lie in the
   * window, the run in which the loader restricts that frame publishes the whole window of it.
   */
  lemma OrdinaryRunPublishes(plan: Plan, g: Frame) returns (events: seq<Event>)
    requires ValidPlan(plan)
    requires forall p :: p in plan.partitions ==>
                           p.Valid() && |Restrict(g, p)| <= plan.maxRows && UniqueKeys(NormaliseAll(Restrict(g, p)))
    requires exists p :: p in plan.partitions && p.Valid() && Restrict(g, p) != []
    ensures Uneventful(events)
    ensures var s := Run(plan, INIT, events);
            JobIs(s.d, Published) && s.d.job.value.published == Some(Object(WholeFrame(plan, g)))
  {
    hide Apply, Inv, PlanShape, ValidPlan, UniqueKeys, Restrict, Loadable, Partition.Valid, WholeFrame, Run;
    var answer: Answer := (p: Partition) => if p.Valid() then Restrict(g, p) else [];
    forall p | p in plan.partitions
      ensures Loadable(plan, p, answer(p))
    {
      RestrictLoadable(plan, g, p);
    }
    var drive := ReachesAssemblyWith(plan, answer);
    var u := Run(plan, INIT, drive);
    var finish := [Assemble, Materialize(true), Publish];
    events := drive + finish;
    RunConcat(plan, INIT, drive, finish);
    AssembleKeepsDurable(plan, u);
    AssembledPublishes(plan, Apply(plan, u, Assemble));
    RunThree(plan, u, Assemble, Materialize(true), Publish);
    assert FromGlobal(g, events);
    PublishedMeansWholeFrame(plan, g, events);
  }

  lemma AssembleKeepsDurable(plan: Plan, u: State)
    requires u.phase.Joining?
    ensures Apply(plan, u, Assemble).d == u.d
  {
    hide Assembly;
  }

  lemma {:induction false} RestrictLoadable(plan: Plan, g: Frame, p: Partition)
    requires p.Valid() && |Restrict(g, p)| <= plan.maxRows
    ensures Loadable(plan, p, Restrict(g, p))
  {
    hide ToOrdinal;
    RestrictInWindow(g, p);
  }

  lemma {:induction false} RestrictInWindow(g: Frame, p: Partition)
    requires p.Valid()
    ensures forall i :: 0 <= i < |Restrict(g, p)| ==> ToOrdinal(p.start) <= Restrict(g, p)[i].day <= ToOrdinal(p.end)
  {
    hide ToOrdinal;
    if g != [] {
      RestrictInWindow(g[1..], p);
    }
  }

  lemma JoiningStatus(plan: Plan, u: State)
    requires Inv(plan, u) && u.phase.Joining?
    ensures JobIs(u.d, Assembling)
  {
    hide Sound, CompletedOf;
  }

  lemma FirstRunClaims(plan: Plan)
    requires PlanShape(plan)
    ensures Run(plan, INIT, [Open, Admit]).phase.Claiming?
    ensures Run(plan, INIT, [Open, Admit]).d.job.Some?
    ensures Run(plan, INIT, [Open, Admit]).phase.pending != []
    ensures !PoisonedCheckpoint(plan.partitions, Run(plan, INIT, [Open, Admit]).d)
  {
    hide PendingOf, CompletedOf, Partition.Valid;
    var ready := Apply(plan, INIT, Open);
    RunOne(plan, INIT, Open);
    RunOne(plan, ready, Admit);
    assert [Open, Admit] == [Open] + [Admit];
    RunConcat(plan, INIT, [Open], [Admit]);
    assert Untouched(plan, ready.d.rows);
    PlannedHasWork(plan, ready.d.rows);
    FreshRowsRecover(plan, ready.d);
  }

  /** A crash anywhere between assembly and publication strands any job: every later run is refused and changes nothing. */
  lemma AssemblyCrashStrands(plan: Plan, s: State, later: seq<Event>)
    requires ValidPlan(plan) && Reachable(plan, s)
    requires s.phase.Joining? || s.phase.Assembled? || s.phase.Materialized?
    ensures Run(plan, Apply(plan, s, Crash), later).d == s.d && JobIs(s.d, Assembling)
  {
    hide Apply, PlanShape, ValidPlan, Reachable;
    ReachableInv(plan, s);
    AssemblingStatus(plan, s);
    StepKeeps(plan, s, Crash);
    CrashKeeps(plan, s);
    RefusedForever(plan, Apply(plan, s, Crash), later);
  }

  lemma AssemblingStatus(plan: Plan, s: State)
    requires Inv(plan, s) && (s.phase.Joining? || s.phase.Assembled? || s.phase.Materialized?)
    ensures JobIs(s.d, Assembling)
  {
    hide Sound, CompletedOf, Assembly;
  }

  lemma CrashKeeps(plan: Plan, s: State)
    ensures Apply(plan, s, Crash) == s.(phase := Idle)
  {
  }

  /** So does one failed materialisation, although every checkpoint is good. */
  lemma MaterializeFailureStrands(plan: Plan, s: State, later: seq<Event>)
    requires ValidPlan(plan) && Reachable(plan, s) && s.phase.Assembled?
    ensures var t := Apply(plan, s, Materialize(false));
            JobIs(t.d, Failed) && Run(plan, t, later).d == t.d
  {
    hide PlanShape, ValidPlan, Reachable, Assembly;
    hide RowsSound, Untouched, PendingOf, Exhausted, CompletedOf;
    ReachableInv(plan, s);
    var t := Apply(plan, s, Materialize(false));
    StepKeeps(plan, s, Materialize(false));
    AssembledHasNoPending(plan, s);
    RefusedForever(plan, t, later);
  }

  lemma AssembledHasNoPending(plan: Plan, s: State)
    requires PlanShape(plan) && Inv(plan, s) && s.phase.Assembled?
    ensures PendingOf(plan.partitions, s.d.rows) == []
  {
    hide RowsSound, PlanShape, SortedUniquely, Gather, Verifies, PendingOf;
    forall p | p in plan.partitions
      ensures !Unfinished(s.d.rows, p)
    {
      assert p.key in CompletedOf(s.d.rows);
    }
    NothingPending(plan.partitions, s.d.rows);
  }
}
