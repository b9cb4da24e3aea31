/** What a failed load costs: one attempt. The next run retries it and can still publish. */
module BackfillRetry {
  import opened Common
  import opened Calendar
  import opened BackfillPlanning
  import opened BackfillFrames
  import opened BackfillCatalog
  import opened BackfillProtocol
  import opened BackfillInvariant
  import opened BackfillSafety
  import opened BackfillAssembly
  import opened BackfillLiveness
  import opened Sorting

  /** Every row has used at most one attempt. */
  ghost predicate TriedOnce(plan: Plan, rows: Rows) {
    forall p :: p in plan.partitions ==> p.key in rows && rows[p.key].attempts <= 1
  }

  /** The rows from the next to claim on are still untried. */
  ghost predicate UntriedFrom(rows: Rows, pending: seq<Partition>, n: nat) {
    forall i :: n <= i < |pending| ==> pending[i].key in rows && rows[pending[i].key].attempts == 0
  }

  lemma ClaimOnce(plan: Plan, s: State)
    requires PlanShape(plan) && Inv(plan, s) && s.phase.Claiming? && s.phase.claimed < |s.phase.pending|
    requires TriedOnce(plan, s.d.rows) && UntriedFrom(s.d.rows, s.phase.pending, s.phase.claimed)
    ensures var t := Apply(plan, s, Claim);
            && t.phase == s.phase.(claimed := s.phase.claimed + 1) && t.d.job == s.d.job && t.d.files == s.d.files
            && TriedOnce(plan, t.d.rows) && UntriedFrom(t.d.rows, s.phase.pending, s.phase.claimed + 1)
            && (forall p :: p in plan.partitions ==> (Completed(t.d.rows, p) <==> Completed(s.d.rows, p)))
  {
    ClaimEffect(plan, s);
    ClaimWrites(plan, s);
    DistinctPending(plan, s);
    hide Inv, Apply, Completed;
    ClaimedOnce(plan, s.d.rows, s.phase.pending, s.phase.claimed);
  }

  lemma ClaimWrites(plan: Plan, s: State)
    requires PlanShape(plan) && Inv(plan, s) && s.phase.Claiming? && s.phase.claimed < |s.phase.pending|
    ensures var key := s.phase.pending[s.phase.claimed].key;
            key in s.d.rows && Apply(plan, s, Claim).d == s.d.(rows := Claimed(s.d.rows, key))
  {
    hide Assembly, Backed, Partition.Valid, CompletedOf;
    NextClaim(plan, s.d.rows, s.d.files, s.loads, s.phase.pending, s.phase.claimed);
  }

  lemma ClaimedOnce(plan: Plan, rows: Rows, pending: seq<Partition>, n: nat)
    requires PlanShape(plan) && n < |pending| && Distinct(pending) && forall p :: p in pending ==> p in plan.partitions
    requires TriedOnce(plan, rows) && UntriedFrom(rows, pending, n)
    ensures TriedOnce(plan, Claimed(rows, pending[n].key)) && UntriedFrom(Claimed(rows, pending[n].key), pending, n + 1)
  {
    hide Partition.Valid;
    assert pending[n] in pending;
    forall i | n < i < |pending|
      ensures pending[i].key != pending[n].key
    {
      assert pending[i] in pending;
    }
  }

  lemma DistinctPending(plan: Plan, s: State)
    requires Inv(plan, s) && s.phase.Claiming?
    ensures Distinct(s.phase.pending) && forall p :: p in s.phase.pending ==> p in plan.partitions
  {
    hide Assembly, RowsSound, CompletedOf;
  }

  lemma {:induction false} ClaimAll(plan: Plan, s: State) returns (events: seq<Event>)
    requires PlanShape(plan) && Inv(plan, s) && s.phase.Claiming?
    requires TriedOnce(plan, s.d.rows) && UntriedFrom(s.d.rows, s.phase.pending, s.phase.claimed)
    ensures forall e :: e in events ==> e.Claim?
    ensures var t := Run(plan, s, events);
            && Inv(plan, t) && t.phase == s.phase.(claimed := |s.phase.pending|) && t.d.job == s.d.job
            && t.d.files == s.d.files && TriedOnce(plan, t.d.rows)
            && (forall p :: p in plan.partitions ==> (Completed(t.d.rows, p) <==> Completed(s.d.rows, p)))
    decreases |s.phase.pending| - s.phase.claimed
  {
    ClaimBound(plan, s);
    hide Inv, PlanShape, TriedOnce, UntriedFrom, Completed;
    if s.phase.claimed == |s.phase.pending| {
      events := [];
    } else {
      var t := Apply(plan, s, Claim);
      ClaimOnce(plan, s);
      StepKeeps(plan, s, Claim);
      var rest := ClaimAll(plan, t);
      events := [Claim] + rest;
      assert events[0] == Claim && events[1..] == rest;
    }
  }

  lemma ClaimBound(plan: Plan, s: State)
    requires Inv(plan, s) && s.phase.Claiming?
    ensures s.phase.claimed <= |s.phase.pending|
  {
    hide Assembly, RowsSound, CompletedOf;
  }

  /** One load of an executing run fails: its row and the job are failed, and the run ends. */
  lemma LoadFails(plan: Plan, s: State, p: Partition, bad: Option<Frame>)
    requires PlanShape(plan) && Inv(plan, s) && s.phase.Executing? && p in s.phase.tasks && p.Valid() && p.key in s.d.rows
    requires forall q :: q in s.phase.tasks ==> s.phase.tasks[q].Queued?
    requires bad.None? || !Loadable(plan, p, bad.value)
    ensures var t := Run(plan, s, [Load(p, bad), Collect(p), FailTheJob] + [Drain]);
            && t.phase.Idle? && JobIs(t.d, Failed) && t.d.files == s.d.files
            && t.d.rows == s.d.rows[p.key := s.d.rows[p.key].(status := PartFailed)]
            && t.loads == s.loads + multiset{p.key}
  {
    JobThere(plan, s);
    LoadErrs(plan, s, p, bad);
    var a := Apply(plan, s, Load(p, bad));
    ErrorEnds(plan, a, p);
    hide *;
    var b := Apply(plan, a, Collect(p));
    var c := Apply(plan, b, FailTheJob);
    RunThree(plan, s, Load(p, bad), Collect(p), FailTheJob);
    RunConcat(plan, s, [Load(p, bad), Collect(p), FailTheJob], [Drain]);
    RunOne(plan, c, Drain);
  }

  lemma LoadErrs(plan: Plan, s: State, p: Partition, bad: Option<Frame>)
    requires s.phase.Executing? && p in s.phase.tasks && s.phase.tasks[p].Queued? && p.Valid()
    requires bad.None? || !Loadable(plan, p, bad.value)
    ensures Apply(plan, s, Load(p, bad))
         == s.(phase := s.phase.(tasks := s.phase.tasks[p := Errored]), loads := s.loads + multiset{p.key})
  {
    if bad.Some? {
      LoadableStored(plan, p, bad.value);
    }
    hide Loadable, CheckpointFrame;
  }

  lemma ErrorEnds(plan: Plan, a: State, p: Partition)
    requires a.phase.Executing? && p in a.phase.tasks && a.phase.tasks[p].Errored? && p.key in a.d.rows && a.d.job.Some?
    requires forall q :: q in a.phase.tasks && q != p ==> a.phase.tasks[q].Queued?
    ensures var t := Apply(plan, Apply(plan, Apply(plan, a, Collect(p)), FailTheJob), Drain);
            && t.phase.Idle? && JobIs(t.d, Failed) && t.d.files == a.d.files && t.loads == a.loads
            && t.d.rows == a.d.rows[p.key := a.d.rows[p.key].(status := PartFailed)]
  {
    var b := Apply(plan, a, Collect(p));
    assert b == a.(d := MarkFailed(a.d, p.key), phase := Failing(a.phase.tasks[p := Collected]));
    var c := Apply(plan, b, FailTheJob);
    assert c == b.(d := FailJob(b.d), phase := Draining(b.phase.tasks));
  }

  lemma JobThere(plan: Plan, s: State)
    requires Inv(plan, s) && s.phase.Executing?
    ensures s.d.job.Some? && JobIs(s.d, Running)
  {
    hide Assembly, RowsSound, CompletedOf, TasksSound, RestCompleted;
  }

  lemma FirstRows(plan: Plan)
    requires PlanShape(plan)
    ensures var t := Run(plan, INIT, [Open, Admit]);
            && TriedOnce(plan, t.d.rows) && (t.phase.Claiming? ==> UntriedFrom(t.d.rows, t.phase.pending, 0) && t.phase.claimed == 0)
            && (forall p :: p in plan.partitions ==> !Completed(t.d.rows, p))
  {
    FirstState(plan);
    UntouchedRows(plan, EnsureJob(plan, INIT.d).rows);
    hide *;
  }

  lemma FirstState(plan: Plan)
    ensures var t := Run(plan, INIT, [Open, Admit]);
            && t.d.rows == EnsureJob(plan, INIT.d).rows
            && (t.phase.Claiming? ==> t.phase.pending == PendingOf(plan.partitions, t.d.rows) && t.phase.claimed == 0)
  {
    hide CompletedOf, PendingOf, Recoverable, EnsureJob;
    var ready := Apply(plan, INIT, Open);
    RunOne(plan, INIT, Open);
    RunOne(plan, ready, Admit);
    assert [Open, Admit] == [Open] + [Admit];
    RunConcat(plan, INIT, [Open], [Admit]);
  }

  lemma UntouchedRows(plan: Plan, rows: Rows)
    requires PlanShape(plan) && rows == EnsureJob(plan, INIT.d).rows
    ensures TriedOnce(plan, rows) && UntriedFrom(rows, PendingOf(plan.partitions, rows), 0)
    ensures forall p :: p in plan.partitions ==> !Completed(rows, p)
  {
    hide Partition.Valid;
    assert forall p :: p in plan.partitions ==> p.key in Keys(plan);
    var pending := PendingOf(plan.partitions, rows);
    assert forall i :: 0 <= i < |pending| ==> pending[i] in pending;
    hide PendingOf;
  }

  lemma SomeQueued(plan: Plan, t: State, p: Partition)
    requires PlanShape(plan) && Inv(plan, t) && t.phase.Claiming? && p in plan.partitions && !Completed(t.d.rows, p)
    ensures p in t.phase.pending && p.Valid() && p.key in t.d.rows
  {
    SamePending(plan, t);
    PlanValid(plan);
    CompletedHaveFiles(plan, t);
    hide Inv, PlanShape, Partition.Valid;
  }

  /** A failed job with attempts left resumes. */
  lemma FailedResumes(plan: Plan, d: Durable)
    requires PlanShape(plan) && plan.maxAttempts >= 2 && JobIs(d, Failed) && TriedOnce(plan, d.rows)
    requires forall p :: p in plan.partitions ==> !Completed(d.rows, p)
    ensures Resumes(plan, d) && PendingOf(plan.partitions, d.rows) != [] && !PoisonedCheckpoint(plan.partitions, d)
    ensures forall p :: p in plan.partitions ==> p in PendingOf(plan.partitions, d.rows)
  {
    hide Partition.Valid, PendingOf;
    assert plan.partitions[0] in plan.partitions;
    assert plan.partitions[0] in PendingOf(plan.partitions, d.rows);
  }

  /**
   * The first run of any plan fails because one partition's loader fails, or answers a frame that is too long or out
   * of its window. The job is then failed with that attempt spent, and as long as a second attempt is allowed, the next
   * run - for any acceptable answers this time - publishes.
   */
  lemma RetryPublishes(plan: Plan, p: Partition, bad: Option<Frame>, answer: Answer)
      returns (first: seq<Event>, second: seq<Event>)
    requires ValidPlan(plan) && plan.maxAttempts >= 2 && p in plan.partitions
    requires p.Valid() && (bad.None? || !Loadable(plan, p, bad.value))
    requires forall q :: q in plan.partitions ==> Loadable(plan, q, answer(q)) && UniqueKeys(NormaliseAll(answer(q)))
    requires exists q :: q in plan.partitions && answer(q) != []
    ensures var s := Run(plan, INIT, first);
            && s.phase.Idle? && JobIs(s.d, Failed) && p.key in s.d.rows
            && s.d.rows[p.key].status == PartFailed && s.d.rows[p.key].attempts == s.loads[p.key] == 1
            && Uneventful(second) && AnsweredBy(answer, second) && JobIs(Run(plan, s, second).d, Published)
  {
    first := FirstFails(plan, p, bad);
    var s := Run(plan, INIT, first);
    ShapeOfPlan(plan);
    assert Reachable(plan, s);
    FailedResumes(plan, s.d);
    PendingValid(plan, s);
    hide Run, ValidPlan, PlanShape, Loadable, UniqueKeys, PendingOf, Resumes, PoisonedCheckpoint, Partition.Valid, TriedOnce;
    second := CanPublishAnswers(plan, s, answer);
  }

  lemma FirstFails(plan: Plan, p: Partition, bad: Option<Frame>) returns (first: seq<Event>)
    requires ValidPlan(plan) && p in plan.partitions && p.Valid() && (bad.None? || !Loadable(plan, p, bad.value))
    ensures var s := Run(plan, INIT, first);
            && s.phase.Idle? && JobIs(s.d, Failed) && p.key in s.d.rows && TriedOnce(plan, s.d.rows)
            && s.d.rows[p.key].status == PartFailed && s.d.rows[p.key].attempts == s.loads[p.key] == 1
            && (forall q :: q in plan.partitions ==> !Completed(s.d.rows, q))
  {
    hide Apply, Inv, PlanShape, ValidPlan, Completed, Loadable, Partition.Valid, Run, UntriedFrom, TriedOnce;
    ShapeOfPlan(plan);
    InitSound(plan);
    RunKeeps(plan, INIT, [Open, Admit]);
    FirstRunClaims(plan);
    FirstRows(plan);
    var t := Run(plan, INIT, [Open, Admit]);
    var claims := ClaimAll(plan, t);
    var a := Run(plan, t, claims);
    SomeQueued(plan, t, p);
    LaunchQueues(plan, a);
    var b := Apply(plan, a, Launch(None));
    RowThere(plan, b, p);
    LoadFails(plan, b, p, bad);
    var end := [Load(p, bad), Collect(p), FailTheJob] + [Drain];
    first := [Open, Admit] + (claims + ([Launch(None)] + end));
    RunConcat(plan, INIT, [Open, Admit], claims + ([Launch(None)] + end));
    RunConcat(plan, t, claims, [Launch(None)] + end);
    RunConcat(plan, a, [Launch(None)], end);
    RunOne(plan, a, Launch(None));
    OnlyAttempt(plan, b, p);
    FailedRows(plan, b.d.rows, p);
  }

  lemma RowThere(plan: Plan, b: State, p: Partition)
    requires PlanShape(plan) && Inv(plan, b) && b.phase.Executing? && p in plan.partitions
    ensures b.d.job.Some? && p.key in b.d.rows
  {
    JobThere(plan, b);
    CompletedHaveFiles(plan, b);
    hide Inv, PlanShape;
  }

  lemma OnlyAttempt(plan: Plan, b: State, p: Partition)
    requires PlanShape(plan) && Inv(plan, b) && b.phase.Executing? && p in b.phase.tasks && b.phase.tasks[p].Queued?
    requires TriedOnce(plan, b.d.rows)
    ensures p.key in b.d.rows && b.d.rows[p.key].attempts == 1 && b.loads[p.key] == 0
  {
    hide Assembly, RowsSound, CompletedOf, RestCompleted, Partition.Valid;
    assert TaskSound(b.d.rows, b.d.files, b.loads, p, b.phase.tasks[p]);
    assert p in plan.partitions;
  }

  lemma FailedRows(plan: Plan, rows: Rows, p: Partition)
    requires TriedOnce(plan, rows) && p in plan.partitions && p.key in rows
    requires forall q :: q in plan.partitions ==> !Completed(rows, q)
    ensures var after := rows[p.key := rows[p.key].(status := PartFailed)];
            TriedOnce(plan, after) && forall q :: q in plan.partitions ==> !Completed(after, q)
  {
  }

  // ----- a worker's write, and the end of a run that stops early

  /** The write puts the computed frame at the partition's path, once, and touches no row and no other file. */
  lemma WriteInstalls(plan: Plan, s: State, p: Partition)
    requires HasTasks(s.phase) && p in s.phase.tasks && s.phase.tasks[p].Loaded?
    ensures var t := Apply(plan, s, Write(p));
            && t.d == s.d.(files := s.d.files[p.key := Parquet(s.phase.tasks[p].frame)])
            && t.writes == s.writes + multiset{p.key} && t.loads == s.loads
            && HasTasks(t.phase) && p in t.phase.tasks && t.phase.tasks[p] == Written(s.phase.tasks[p].frame)
  {
  }

  lemma WriteErrs(plan: Plan, s: State, p: Partition)
    requires s.phase.Executing? && p in s.phase.tasks && (s.phase.tasks[p].Loaded? || s.phase.tasks[p].Written?)
    ensures Apply(plan, s, WriteError(p)) == s.(phase := s.phase.(tasks := s.phase.tasks[p := Errored]))
  {
  }

  /** A write that fails, before or after the file is in place, fails its row and the job, and the run waits for the rest. */
  lemma WriteFails(plan: Plan, s: State, p: Partition)
    requires PlanShape(plan) && Inv(plan, s) && s.phase.Executing? && p in s.phase.tasks && p.key in s.d.rows
    requires s.phase.tasks[p].Loaded? || s.phase.tasks[p].Written?
    requires forall q :: q in s.phase.tasks && q != p ==> s.phase.tasks[q].Queued?
    ensures var t := Run(plan, s, [WriteError(p), Collect(p), FailTheJob] + [Drain]);
            && t.phase.Idle? && JobIs(t.d, Failed) && t.d.files == s.d.files
            && t.d.rows == s.d.rows[p.key := s.d.rows[p.key].(status := PartFailed)]
  {
    hide Inv, PlanShape, Run, Apply;
    JobThere(plan, s);
    WriteErrs(plan, s, p);
    var a := Apply(plan, s, WriteError(p));
    ErrorEnds(plan, a, p);
    var b := Apply(plan, a, Collect(p));
    var c := Apply(plan, b, FailTheJob);
    RunThree(plan, s, WriteError(p), Collect(p), FailTheJob);
    RunConcat(plan, s, [WriteError(p), Collect(p), FailTheJob], [Drain]);
    RunOne(plan, c, Drain);
  }

  /** A stopped run does not end while a worker still has a frame to write. */
  lemma DrainWaits(plan: Plan, s: State, p: Partition)
    requires s.phase.Draining? && p in s.phase.tasks && s.phase.tasks[p].Loaded?
    ensures Apply(plan, s, Drain) == s
  {
  }

  /** An interrupted run marks the job interrupted, and with something pending and attempts left the next run goes on. */
  lemma InterruptedResumes(plan: Plan, s: State)
    requires PlanShape(plan) && Inv(plan, s) && s.phase.Interrupting?
    requires forall p :: p in s.phase.tasks ==> !s.phase.tasks[p].Loaded?
    ensures var t := Run(plan, s, [Interrupt] + [Drain]);
            && t.phase.Idle? && JobIs(t.d, Interrupted) && t.d.rows == s.d.rows && t.d.files == s.d.files
            && (PendingOf(plan.partitions, s.d.rows) != [] && !Exhausted(plan, s.d.rows) ==> Resumes(plan, t.d))
  {
    hide Inv, PlanShape, PendingOf, Exhausted, Run, Apply;
    JobRunning(plan, s);
    InterruptThenDrain(plan, s);
    RunOne(plan, s, Interrupt);
    RunOne(plan, Apply(plan, s, Interrupt), Drain);
    RunConcat(plan, s, [Interrupt], [Drain]);
  }

  lemma InterruptThenDrain(plan: Plan, s: State)
    requires s.phase.Interrupting? && JobIs(s.d, Running) && forall p :: p in s.phase.tasks ==> !s.phase.tasks[p].Loaded?
    ensures var t := Apply(plan, Apply(plan, s, Interrupt), Drain);
            t.phase.Idle? && JobIs(t.d, Interrupted) && t.d.rows == s.d.rows && t.d.files == s.d.files
  {
  }

  lemma JobRunning(plan: Plan, s: State)
    requires Inv(plan, s) && s.phase.Interrupting?
    ensures JobIs(s.d, Running)
  {
    hide Assembly, RowsSound, CompletedOf, TasksSound;
  }
}
