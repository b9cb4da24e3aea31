/** Runs that leave a job where no later run can ever move it, for every plan. */
module BackfillStranding {
  import opened Common
  import opened Calendar
  import opened BackfillPlanning
  import opened BackfillFrames
  import opened BackfillCatalog
  import opened BackfillProtocol
  import opened BackfillInvariant
  import opened BackfillSafety
  import opened BackfillAssembly
  import opened BackfillLiveness
  import opened Sorting

  // ----- an interruption that comes with the last result

  /** As many results to go before the interruption as tasks: the last one collected trips it. */
  lemma {:induction false} DriveToInterrupt(plan: Plan, s: State, todo: seq<Partition>) returns (events: seq<Event>)
    requires PlanShape(plan) && Inv(plan, s) && s.phase.Executing? && plan.maxRows >= 1
    requires todo != [] && s.phase.left == Some(|todo|)
    requires Distinct(todo) && forall p :: p in todo ==> p in s.phase.tasks && s.phase.tasks[p].Queued?
    requires forall p :: p in s.phase.tasks && p !in todo ==> s.phase.tasks[p].Collected?
    ensures var t := Run(plan, s, events);
            && Inv(plan, t) && t.phase.Interrupting? && (forall p :: p in t.phase.tasks ==> t.phase.tasks[p].Collected?)
            && (forall p :: p in plan.partitions ==> Completed(t.d.rows, p))
    decreases |todo|
  {
    hide Apply, Inv, SampleOf, Completed, PlanShape, Partition.Valid, Loadable, Stored, UniqueKeys;
    var p := todo[0];
    assert p in todo;
    TaskInPlan(plan, s, p);
    ValidInPlan(plan, p);
    SamplesLoadable(plan, [p]);
    assert p in [p];
    DriveTask(plan, s, p, SampleOf(p));
    TodoShrinks(s.phase.tasks, todo);
    var e := [Load(p, Some(SampleOf(p))), Write(p), Collect(p)];
    var t := Run(plan, s, e);
    if |todo| == 1 {
      events := e;
      assert todo[1..] == [];
      forall q | q in plan.partitions
        ensures Completed(t.d.rows, q)
      {
        if q != p {
          OthersDone(plan, s, p, q);
        }
      }
    } else {
      var rest := DriveToInterrupt(plan, t, todo[1..]);
      events := e + rest;
      RunConcat(plan, s, e, rest);
    }
  }

  lemma OthersDone(plan: Plan, s: State, p: Partition, q: Partition)
    requires Inv(plan, s) && s.phase.Executing? && q in plan.partitions && q != p
    requires forall r :: r in s.phase.tasks && r != p ==> s.phase.tasks[r].Collected?
    ensures Completed(s.d.rows, q)
  {
    hide Assembly, RowsSound, TasksSound, CompletedOf;
  }

  lemma LaunchCounts(plan: Plan, a: State)
    requires PlanShape(plan) && Inv(plan, a) && a.phase.Claiming? && a.phase.claimed == |a.phase.pending| > 0
    ensures var b := Apply(plan, a, Launch(Some(|a.phase.pending|)));
            && Inv(plan, b) && b.phase.Executing? && b.phase.left == Some(|a.phase.pending|) && Distinct(a.phase.pending)
            && (forall p :: p in a.phase.pending ==> p in b.phase.tasks && b.phase.tasks[p].Queued?)
            && (forall p :: p in b.phase.tasks ==> p in a.phase.pending)
  {
    hide PlanShape, RowsSound, Assembly;
    LaunchStep(plan, a, Some(|a.phase.pending|));
  }

  /** The interruption is recorded, and the run ends with nothing pending. */
  lemma InterruptEnds(plan: Plan, t: State)
    requires PlanShape(plan) && Inv(plan, t) && t.phase.Interrupting?
    requires forall p :: p in t.phase.tasks ==> t.phase.tasks[p].Collected?
    requires forall p :: p in plan.partitions ==> Completed(t.d.rows, p)
    ensures var u := Run(plan, t, [Interrupt, Drain]);
            && Inv(plan, u) && u.phase.Idle? && JobIs(u.d, Interrupted) && PendingOf(plan.partitions, u.d.rows) == []
  {
    hide RowsSound, Assembly, CompletedOf, PlanShape, TasksSound;
    assert [Interrupt, Drain] == [Interrupt] + [Drain];
    RunConcat(plan, t, [Interrupt], [Drain]);
    var m := Apply(plan, t, Interrupt);
    RunOne(plan, t, Interrupt);
    RunOne(plan, m, Drain);
    StepKeeps(plan, t, Interrupt);
    StepKeeps(plan, m, Drain);
    NothingPending(plan.partitions, m.d.rows);
  }

  /** Every plan can be interrupted with nothing left pending, and is then refused by every later run. */
  lemma InterruptStrands(plan: Plan) returns (events: seq<Event>)
    requires ValidPlan(plan)
    ensures var s := Run(plan, INIT, events);
            && s.phase.Idle? && JobIs(s.d, Interrupted) && PendingOf(plan.partitions, s.d.rows) == []
            && forall later :: Run(plan, s, later).d == s.d
  {
    hide Apply, Inv, PlanShape, ValidPlan, Completed, PendingOf, CompletedOf, Run;
    ShapeOfPlan(plan);
    InitSound(plan);
    PlanMaxRows(plan);
    RunKeeps(plan, INIT, [Open, Admit]);
    FirstRunClaims(plan);
    var t := Run(plan, INIT, [Open, Admit]);
    ClaimingHasWork(plan, t);
    var claims := DriveClaims(plan, t);
    var a := Run(plan, t, claims);
    LaunchCounts(plan, a);
    var launch := Launch(Some(|a.phase.pending|));
    var b := Apply(plan, a, launch);
    var work := DriveToInterrupt(plan, b, a.phase.pending);
    var c := Run(plan, b, work);
    InterruptEnds(plan, c);
    events := [Open, Admit] + (claims + ([launch] + (work + [Interrupt, Drain])));
    RunConcat(plan, INIT, [Open, Admit], claims + ([launch] + (work + [Interrupt, Drain])));
    RunConcat(plan, t, claims, [launch] + (work + [Interrupt, Drain]));
    RunConcat(plan, a, [launch], work + [Interrupt, Drain]);
    RunOne(plan, a, launch);
    RunConcat(plan, b, work, [Interrupt, Drain]);
    StrandedIdle(plan, Run(plan, INIT, events));
  }

  lemma ClaimingHasWork(plan: Plan, t: State)
    requires t == Run(plan, INIT, [Open, Admit]) && t.phase.Claiming?
    ensures t.phase.pending != []
  {
    hide PendingOf, CompletedOf, Recoverable, EnsureJob;
    RunOne(plan, INIT, Open);
    RunOne(plan, Apply(plan, INIT, Open), Admit);
    assert [Open, Admit] == [Open] + [Admit];
    RunConcat(plan, INIT, [Open], [Admit]);
  }

  lemma StrandedIdle(plan: Plan, s: State)
    requires PlanShape(plan) && Inv(plan, s) && s.phase.Idle? && s.d.job.Some? && !Resumes(plan, s.d)
    ensures forall later :: Run(plan, s, later).d == s.d
  {
    hide Inv, PlanShape, Resumes, Run;
    forall later
      ensures Run(plan, s, later).d == s.d
    {
      RefusedForever(plan, s, later);
    }
  }

  // ----- one key twice inside one checkpoint

  /** The same row twice is accepted as a checkpoint. */
  lemma TwiceAccepted(plan: Plan, p: Partition)
    requires p.Valid() && plan.maxRows >= 2
    ensures Loadable(plan, p, [Sample(p), Sample(p)]) && !UniqueKeys(Stored([Sample(p), Sample(p)]))
  {
    hide ToOrdinal, DaysInMonth, Leap;
    OrdinalOrder(p.start, p.end);
    var two := [Sample(p), Sample(p)];
    assert SameKey(NormaliseAll(two)[0], NormaliseAll(two)[1]);
    UniqueKeysPermute(Stored(two), NormaliseAll(two));
  }

  /** Assembly of a poisoned set of checkpoints ends the run with the job still assembling. */
  lemma PoisonedAssembly(plan: Plan, u: State)
    requires ValidPlan(plan) && PlanShape(plan) && Inv(plan, u) && u.phase.Joining? && Poisoned(plan.partitions, u.d.files)
    ensures var t := Run(plan, u, [Assemble]);
            Inv(plan, t) && t.phase.Idle? && t.d == u.d && JobIs(t.d, Assembling)
  {
    hide FrameOk, UniqueKeys, ValidPlan, PlanShape, Assembly, RowsSound, Poisoned, Barren, Inv;
    AllRowsBacked(plan, u);
    AssemblyIff(plan, u.d.files, u.phase.have);
    RunOne(plan, u, Assemble);
    StepKeeps(plan, u, Assemble);
    AssemblingStatus(plan, u);
  }

  lemma AssemblingRefused(plan: Plan, s: State)
    requires JobIs(s.d, Assembling)
    ensures s.d.job.Some? && !Resumes(plan, s.d)
  {
    hide PendingOf, Exhausted;
  }

  lemma StillPoisoned(plan: Plan, p: Partition, files: Files)
    requires p in plan.partitions && p.Valid() && p.key in files && files[p.key] == Parquet(Stored([Sample(p), Sample(p)]))
    requires !UniqueKeys(Stored([Sample(p), Sample(p)]))
    ensures Poisoned(plan.partitions, files)
  {
    hide UniqueKeys, Sample, Partition.Valid;
  }

  /** The first task delivers its row twice, the others deliver one row each, and the run reaches assembly. */
  lemma DriveRepeated(plan: Plan, b: State, todo: seq<Partition>) returns (events: seq<Event>)
    requires PlanShape(plan) && Inv(plan, b) && b.phase.Executing? && b.phase.left.None? && plan.maxRows >= 2
    requires Distinct(todo) && todo != [] && forall p :: p in todo ==> p in b.phase.tasks && b.phase.tasks[p].Queued?
    requires forall p :: p in b.phase.tasks ==> p in todo
    ensures Uneventful(events)
    ensures var u := Run(plan, b, events);
            Inv(plan, u) && u.phase.Joining? && Poisoned(plan.partitions, u.d.files)
  {
    hide Apply, Inv, PlanShape, Completed, CompletedOf, Run, Sample, SampleOf, UniqueKeys, Poisoned, Loadable, Stored, Partition.Valid;
    var p := todo[0];
    assert p in todo;
    TaskInPlan(plan, b, p);
    ValidInPlan(plan, p);
    TwiceAccepted(plan, p);
    var two := [Sample(p), Sample(p)];
    var first := [Load(p, Some(two)), Write(p), Collect(p)];
    DriveTask(plan, b, p, two);
    var c := Run(plan, b, first);
    TodoShrinks(b.phase.tasks, todo);
    assert p !in todo[1..];
    TodoInPlan(plan, b, todo);
    PlanValid(plan);
    SamplesLoadable(plan, todo[1..]);
    var work := DriveTasks(plan, c, todo[1..], SampleOf);
    var d := Run(plan, c, work);
    FinishToJoin(plan, d);
    StillPoisoned(plan, p, d.d.files);
    var finish := [Finish, BeginAssembly];
    RunConcat(plan, b, first, work + finish);
    RunConcat(plan, c, work, finish);
    events := first + (work + finish);
  }

  /**
   * Every plan that admits two rows can be stranded without any crash or failed load: a loader answers one partition
   * with the same row twice, which is accepted, recorded as completed, and refused only by assembly - for ever.
   */
  lemma RepeatedKeyStrands(plan: Plan) returns (events: seq<Event>)
    requires ValidPlan(plan) && plan.maxRows >= 2
    ensures Uneventful(events)
    ensures var s := Run(plan, INIT, events);
            && s.phase.Idle? && JobIs(s.d, Assembling) && Poisoned(plan.partitions, s.d.files)
            && forall later :: Run(plan, s, later).d == s.d
  {
    hide Apply, Inv, PlanShape, ValidPlan, Completed, PendingOf, CompletedOf, Run, Poisoned, Resumes;
    ShapeOfPlan(plan);
    InitSound(plan);
    RunKeeps(plan, INIT, [Open, Admit]);
    FirstRunClaims(plan);
    var t := Run(plan, INIT, [Open, Admit]);
    ClaimingHasWork(plan, t);
    var claims := DriveClaims(plan, t);
    var a := Run(plan, t, claims);
    LaunchQueues(plan, a);
    var b := Apply(plan, a, Launch(None));
    var work := DriveRepeated(plan, b, a.phase.pending);
    var u := Run(plan, b, work);
    PoisonedAssembly(plan, u);
    var launch, end := [Launch(None)], [Assemble];
    events := [Open, Admit] + (claims + (launch + (work + end)));
    RunConcat(plan, INIT, [Open, Admit], claims + (launch + (work + end)));
    RunConcat(plan, t, claims, launch + (work + end));
    RunConcat(plan, a, launch, work + end);
    RunOne(plan, a, Launch(None));
    RunConcat(plan, b, work, end);
    AssemblingRefused(plan, Run(plan, u, end));
    StrandedIdle(plan, Run(plan, u, end));
  }

  /** Once a completed checkpoint repeats a key, no continuation publishes the job. */
  lemma PoisonedNeverPublished(plan: Plan, s: State, later: seq<Event>)
    requires ValidPlan(plan) && Reachable(plan, s) && s.phase.Idle? && s.d.job.Some? && !JobIs(s.d, Published)
    requires PoisonedCheckpoint(plan.partitions, s.d)
    ensures !JobIs(Run(plan, s, later).d, Published)
  {
    hide Run, Resumes, PoisonedCheckpoint, HasRows, ValidPlan, Reachable;
    if JobIs(Run(plan, s, later).d, Published) {
      OnlyPublishable(plan, s, later);
    }
  }

  /** Every plan can reach assembly with all checkpoints good, lose the object there, and is then refused for ever. */
  lemma StorageFailureStrands(plan: Plan) returns (events: seq<Event>)
    requires ValidPlan(plan)
    ensures var s := Run(plan, INIT, events);
            && JobIs(s.d, Failed) && PendingOf(plan.partitions, s.d.rows) == []
            && forall later :: Run(plan, s, later).d == s.d
  {
    hide Apply, Inv, PlanShape, ValidPlan, PendingOf;
    var assembling := ReachesAssembly(plan);
    var u := Run(plan, INIT, assembling);
    var end := [Assemble, Materialize(false)];
    events := assembling + end;
    RunConcat(plan, INIT, assembling, end);
    RunTwoSteps(plan, u, Assemble, Materialize(false));
    var v := Apply(plan, u, Assemble);
    RunConcat(plan, INIT, assembling, [Assemble]);
    RunOne(plan, u, Assemble);
    assert Reachable(plan, v);
    ReachableInv(plan, v);
    AssembledHasNoPending(plan, v);
    SameRows(plan, v);
    forall later
      ensures Run(plan, Apply(plan, v, Materialize(false)), later).d == Apply(plan, v, Materialize(false)).d
    {
      MaterializeFailureStrands(plan, v, later);
    }
    MaterializeFailureStrands(plan, v, []);
  }

  lemma RunTwoSteps(plan: Plan, s: State, a: Event, b: Event)
    ensures Run(plan, s, [a, b]) == Apply(plan, Apply(plan, s, a), b)
  {
    hide Apply;
    assert [a, b] == [a] + [b];
    RunConcat(plan, s, [a], [b]);
    RunOne(plan, s, a);
    RunOne(plan, Apply(plan, s, a), b);
  }

  lemma SameRows(plan: Plan, s: State)
    requires s.phase.Assembled?
    ensures Apply(plan, s, Materialize(false)).d.rows == s.d.rows
  {
    hide Assembly;
  }
}
