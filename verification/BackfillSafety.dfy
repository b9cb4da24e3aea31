/** Safety of every behaviour of the backfill, and exactly which jobs can still be resumed. */
module BackfillSafety {
  import opened Common
  import opened Calendar
  import opened BackfillPlanning
  import opened BackfillFrames
  import opened BackfillCatalog
  import opened BackfillProtocol
  import opened BackfillInvariant

  // ----- whole runs

  lemma InitSound(plan: Plan)
    ensures Inv(plan, INIT)
  {
  }

  lemma PersistsTransitive(plan: Plan, s: State, t: State, u: State)
    requires Persists(plan, s, t) && Persists(plan, t, u)
    ensures Persists(plan, s, u)
  {
    forall p | p in plan.partitions && Completed(s.d.rows, p)
      ensures Unmoved(s, u, p)
    {
      assert Unmoved(s, t, p);
      assert Unmoved(t, u, p);
    }
  }

  lemma {:induction false} RunKeeps(plan: Plan, s: State, events: seq<Event>)
    requires PlanShape(plan) && Inv(plan, s)
    ensures Kept(plan, s, Run(plan, s, events))
    decreases |events|
  {
    hide Apply, Inv, Persists, PlanShape;
    if events == [] {
      Stutter(plan, s);
    } else {
      var t := Apply(plan, s, events[0]);
      StepKeeps(plan, s, events[0]);
      RunKeeps(plan, t, events[1..]);
      PersistsTransitive(plan, s, t, Run(plan, t, events[1..]));
    }
  }

  /** A state some behaviour reaches from the empty catalogue. */
  ghost predicate Reachable(plan: Plan, s: State) {
    exists events :: Run(plan, INIT, events) == s
  }

  lemma ReachableInv(plan: Plan, s: State)
    requires ValidPlan(plan) && Reachable(plan, s)
    ensures PlanShape(plan) && Inv(plan, s)
  {
    hide PlanShape, Inv, ValidPlan, Persists;
    var events :| Run(plan, INIT, events) == s;
    ShapeOfPlan(plan);
    InitSound(plan);
    RunKeeps(plan, INIT, events);
  }

  /**
   * Completed means durable: the file on disk matches the recorded hashes and row count, and no
   * later event of any kind, crash included, rewrites the file, reloads the partition or changes
   * the row.
   */
  lemma CompletedPartitionsAreSafe(plan: Plan, s: State, later: seq<Event>, p: Partition)
    requires ValidPlan(plan) && Reachable(plan, s) && p in plan.partitions && Completed(s.d.rows, p)
    ensures s.d.rows[p.key].checkpoint.Some? && s.d.rows[p.key].checkpoint.value.key == p.key
    ensures Verifies(s.d.files, s.d.rows[p.key].checkpoint.value)
    ensures p.Valid() && FrameOk(p, s.d.files[p.key].frame)
    ensures Unmoved(s, Run(plan, s, later), p)
  {
    hide PlanShape, Apply;
    ReachableInv(plan, s);
    RunKeeps(plan, s, later);
    assert RowSound(plan, s.d.rows, s.d.files, s.loads, p);
  }

  /** A published job keeps its object under every later event. */
  lemma PublishedIsAbsorbing(plan: Plan, s: State, later: seq<Event>)
    requires ValidPlan(plan) && Reachable(plan, s) && JobIs(s.d, Published)
    ensures Run(plan, s, later).d.job == s.d.job && s.d.job.value.published.Some?
    ensures Assembly(plan, s.d.files, CompletedOf(s.d.rows)) == Ok(s.d.job.value.published.value.frame)
  {
    hide PlanShape, Apply, Assembly;
    ReachableInv(plan, s);
    RunKeeps(plan, s, later);
  }

  /** No partition is attempted or loaded more than max_attempts times, so the claim guard is dead. */
  lemma AttemptsAreBounded(plan: Plan, s: State, p: Partition)
    requires ValidPlan(plan) && Reachable(plan, s) && s.d.job.Some? && p in plan.partitions
    ensures p.key in s.d.rows && s.loads[p.key] <= s.d.rows[p.key].attempts <= plan.maxAttempts
    ensures !s.phase.Overclaimed?
  {
    hide PlanShape, Apply, Assembly;
    ReachableInv(plan, s);
    assert RowSound(plan, s.d.rows, s.d.files, s.loads, p);
  }

  lemma {:induction false} BoundedMultiset(m: multiset<string>, keys: set<string>, n: nat)
    requires forall k :: k in m ==> k in keys && m[k] <= n
    ensures |m| <= |keys| * n
    decreases keys
  {
    if keys == {} {
      assert m == multiset{};
    } else {
      var k :| k in keys;
      var rest := m[k := 0];
      BoundedMultiset(rest, keys - {k}, n);
      assert m == rest[k := m[k]];
      assert |m| == |rest| + m[k];
      assert |keys| * n == |keys - {k}| * n + n;
    }
  }

  /** Over all runs together the loader is called at most partitions * max_attempts times. */
  lemma LoaderCallsAreBounded(plan: Plan, s: State)
    requires ValidPlan(plan) && Reachable(plan, s)
    ensures |s.loads| <= |plan.partitions| * plan.maxAttempts
  {
    hide Apply, Assembly, Partition.Valid, Backed;
    ReachableInv(plan, s);
    forall k | k in s.loads
      ensures k in Keys(plan) && s.loads[k] <= plan.maxAttempts
    {
      var p :| p in plan.partitions && p.key == k;
      assert RowSound(plan, s.d.rows, s.d.files, s.loads, p);
    }
    BoundedMultiset(s.loads, Keys(plan), plan.maxAttempts);
  }

  // ----- resuming

  ghost predicate Exhausted(plan: Plan, rows: Rows) {
    exists p :: p in plan.partitions && Unfinished(rows, p) && rows[p.key].attempts >= plan.maxAttempts
  }

  /** The durable states from which a new run gets past its job transitions. */
  ghost predicate Resumes(plan: Plan, d: Durable)
    requires d.job.Some?
  {
    var status := d.job.value.status;
    || status == Published
    || (&& !Exhausted(plan, d.rows)
        && if PendingOf(plan.partitions, d.rows) == [] then status in {Running, Planned}
           else status in {Planned, Interrupted, Failed})
  }

  lemma RecoverableIff(plan: Plan, s: State)
    requires PlanShape(plan) && Inv(plan, s) && s.d.job.Some?
    ensures Recoverable(plan, s.d) <==> !Exhausted(plan, s.d.rows)
  {
    hide Assembly, FrameOk, PhaseSound, Partition.Valid;
    if Recoverable(plan, s.d) {
      forall p | p in plan.partitions && Unfinished(s.d.rows, p)
        ensures s.d.rows[p.key].attempts < plan.maxAttempts
      {
        assert Resumable(plan, s.d, p.key);
      }
    } else {
      var k :| k in s.d.rows && !Resumable(plan, s.d, k);
      var p :| p in plan.partitions && p.key == k;
      assert RowSound(plan, s.d.rows, s.d.files, s.loads, p);
      assert Unfinished(s.d.rows, p);
    }
  }

  ghost function Opening(plan: Plan, s: State): State {
    Run(plan, s, [Open, Admit, BeginAssembly])
  }

  lemma RunThree(plan: Plan, s: State, a: Event, b: Event, c: Event)
    ensures Run(plan, s, [a, b, c]) == Apply(plan, Apply(plan, Apply(plan, s, a), b), c)
  {
    hide Apply;
    var s1 := Apply(plan, s, a);
    var s2 := Apply(plan, s1, b);
    assert [a, b, c][1..] == [b, c] && [b, c][1..] == [c] && [c][1..] == [];
    assert Run(plan, s, [a, b, c]) == Run(plan, s1, [b, c]);
    assert Run(plan, s1, [b, c]) == Run(plan, s2, [c]);
    assert Run(plan, s2, [c]) == Run(plan, Apply(plan, s2, c), []);
  }

  /**
   * Exact resume characterisation: a new run starts claiming or assembling iff Resumes holds of an
   * unpublished job; otherwise it changes nothing.
   */
  lemma ResumeIsExact(plan: Plan, s: State)
    requires ValidPlan(plan) && Reachable(plan, s) && s.phase.Idle? && s.d.job.Some?
    ensures var t := Opening(plan, s);
            if Resumes(plan, s.d) && !JobIs(s.d, Published) then
              if PendingOf(plan.partitions, s.d.rows) == [] then
                t.phase == Joining(CompletedOf(s.d.rows)) && JobIs(t.d, Assembling)
              else
                t.phase == Claiming(CompletedOf(s.d.rows), PendingOf(plan.partitions, s.d.rows), 0) && JobIs(t.d, Running)
            else t == s
    ensures Opening(plan, s).d.rows == s.d.rows && Opening(plan, s).loads == s.loads
  {
    hide Assembly, PendingOf, CompletedOf, Exhausted, Recoverable, ValidPlan, Inv, PlanShape, Persists;
    ReachableInv(plan, s);
    RecoverableIff(plan, s);
    RunThree(plan, s, Open, Admit, BeginAssembly);
    assert Opening(plan, s) == Run(plan, s, [Open, Admit, BeginAssembly]);
    var ready := s.(phase := Opened);
    assert Apply(plan, s, Open) == ready;
    StepKeeps(plan, s, Open);
    StepKeeps(plan, ready, Admit);
    var t := Apply(plan, ready, Admit);
    if t.phase.Finished? {
      FinishedHasNoPending(plan, t);
      EveryCheckpointPresent(plan, t);
    }
  }

  /** A refused job stays exactly as it is: no sequence of further runs ever moves it. */
  lemma {:induction false} RefusedForever(plan: Plan, s: State, events: seq<Event>)
    requires PlanShape(plan) && Inv(plan, s) && s.d.job.Some? && !Resumes(plan, s.d)
    requires s.phase.Idle? || s.phase.Opened? || s.phase.Finished?
    ensures var t := Run(plan, s, events);
            t.d == s.d && t.loads == s.loads && t.writes == s.writes
    decreases |events|
  {
    hide Assembly, PendingOf, CompletedOf, Exhausted, Recoverable, PlanShape, RowsSound, Untouched;
    if events != [] {
      var t := Apply(plan, s, events[0]);
      RecoverableIff(plan, s);
      StepKeeps(plan, s, events[0]);
      if s.phase.Finished? {
        FinishedHasNoPending(plan, s);
        EveryCheckpointPresent(plan, s);
      }
      RefusedForever(plan, t, events[1..]);
    }
  }

  lemma {:induction false} NothingPending(parts: seq<Partition>, rows: Rows)
    requires forall p :: p in parts ==> !Unfinished(rows, p)
    ensures PendingOf(parts, rows) == []
  {
    if parts != [] {
      NothingPending(parts[1..], rows);
    }
  }

  lemma FinishedHasNoPending(plan: Plan, s: State)
    requires PlanShape(plan) && Inv(plan, s) && s.phase.Finished?
    ensures PendingOf(plan.partitions, s.d.rows) == []
    ensures !Exhausted(plan, s.d.rows)
  {
    hide Assembly, Partition.Valid, Backed;
    forall p | p in plan.partitions
      ensures !Unfinished(s.d.rows, p)
    {
      assert p.key in s.phase.have;
    }
    NothingPending(plan.partitions, s.d.rows);
  }

  /** Every plan can be stranded by one crash: after the job is marked running, before a partition completes. */
  lemma CrashStrandsJob(plan: Plan, later: seq<Event>)
    requires ValidPlan(plan)
    ensures var s := Run(plan, INIT, [Open, Admit, Crash]);
            && JobIs(s.d, Running) && PendingOf(plan.partitions, s.d.rows) != []
            && Run(plan, s, later).d == s.d
  {
    hide Assembly, PendingOf, CompletedOf, ValidPlan, Inv, PlanShape, Recoverable, EnsureJob;
    RunThree(plan, INIT, Open, Admit, Crash);
    var s := Run(plan, INIT, [Open, Admit, Crash]);
    assert Reachable(plan, s);
    ReachableInv(plan, s);
    FreshPlanOpens(plan);
    RefusedForever(plan, s, later);
  }

  /** A first run finds every partition pending and nothing in its way. */
  lemma FreshPlanOpens(plan: Plan)
    requires ValidPlan(plan)
    ensures PlanShape(plan)
    ensures var d := EnsureJob(plan, INIT.d);
            JobIs(d, Planned) && Recoverable(plan, d) && PendingOf(plan.partitions, d.rows) != []
  {
    hide PendingOf, Recoverable, ValidPlan, Partition.Valid;
    ShapeOfPlan(plan);
    var d := EnsureJob(plan, INIT.d);
    assert Untouched(plan, d.rows);
    PlannedHasWork(plan, d.rows);
    FreshRowsRecover(plan, d);
  }

  lemma FreshRowsRecover(plan: Plan, d: Durable)
    requires PlanShape(plan) && d.rows.Keys == Keys(plan) && Untouched(plan, d.rows)
    ensures Recoverable(plan, d)
  {
    forall k | k in d.rows
      ensures Resumable(plan, d, k)
    {
      var p :| p in plan.partitions && p.key == k;
    }
  }
}
