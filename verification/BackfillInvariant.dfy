/** Every step of every behaviour keeps the backfill invariant and never undoes completed work. */
module BackfillInvariant {
  import opened Common
  import opened Calendar
  import opened BackfillPlanning
  import opened BackfillFrames
  import opened BackfillCatalog
  import opened BackfillProtocol

  ghost predicate Kept(plan: Plan, s: State, t: State) {
    Inv(plan, t) && Persists(plan, s, t)
  }

  lemma OpenStep(plan: Plan, s: State)
    requires PlanShape(plan) && Inv(plan, s) && s.phase.Idle?
    ensures Kept(plan, s, Apply(plan, s, Open))
  {
    hide Assembly, RowsSound, CompletedOf, PlanShape, Untouched;
    if s.d.job.None? {
      FreshRows(plan, s.d);
    }
  }

  lemma FreshRows(plan: Plan, d: Durable)
    requires PlanShape(plan) && d.job.None?
    ensures RowsSound(plan, EnsureJob(plan, d).rows, d.files, multiset{})
    ensures Untouched(plan, EnsureJob(plan, d).rows)
  {
    hide Backed, Partition.Valid;
    forall p | p in plan.partitions
      ensures RowSound(plan, EnsureJob(plan, d).rows, d.files, multiset{}, p)
    {
      assert p.key in Keys(plan);
    }
  }

  lemma AdmitStep(plan: Plan, s: State)
    requires PlanShape(plan) && Inv(plan, s) && s.phase.Opened?
    ensures Kept(plan, s, Apply(plan, s, Admit))
  {
    hide Assembly, RowsSound, CompletedOf, PendingOf, Recoverable, ClaimsSound, PlanShape, Untouched;
    var t := Apply(plan, s, Admit);
    if t.phase.Claiming? {
      FreshClaims(plan, s.d);
    } else if t.phase.Finished? {
      AllCompleted(plan, s.d.rows, s.d.files, s.loads);
      if JobIs(s.d, Planned) {
        PlannedHasWork(plan, s.d.rows);
      }
    }
  }

  lemma PlannedHasWork(plan: Plan, rows: Rows)
    requires PlanShape(plan) && Untouched(plan, rows)
    ensures PendingOf(plan.partitions, rows) != []
  {
    hide Partition.Valid;
    var p := plan.partitions[0];
    assert p in plan.partitions;
    assert p in PendingOf(plan.partitions, rows);
  }

  lemma FreshClaims(plan: Plan, d: Durable)
    requires PlanShape(plan) && Recoverable(plan, d)
    ensures forall loads :: ClaimsSound(plan, d.rows, loads, PendingOf(plan.partitions, d.rows), 0)
  {
    hide Verifies, Partition.Valid;
    var pending := PendingOf(plan.partitions, d.rows);
    PendingDistinct(plan.partitions, d.rows);
    forall i | 0 <= i < |pending|
      ensures pending[i].key in d.rows && d.rows[pending[i].key].attempts < plan.maxAttempts
    {
      assert pending[i] in pending;
      assert Resumable(plan, d, pending[i].key);
    }
  }

  lemma AllCompleted(plan: Plan, rows: Rows, files: Files, loads: multiset<string>)
    requires RowsSound(plan, rows, files, loads)
    requires forall p :: p in plan.partitions ==> !Unfinished(rows, p)
    ensures CompletedOf(rows).Keys == Keys(plan)
    ensures forall p :: p in plan.partitions ==> Completed(rows, p)
  {
    forall p | p in plan.partitions
      ensures Completed(rows, p) && p.key in CompletedOf(rows)
    {
      assert RowSound(plan, rows, files, loads, p);
    }
  }

  lemma {:induction false} PendingDistinct(parts: seq<Partition>, rows: Rows)
    requires Distinct(parts)
    ensures Distinct(PendingOf(parts, rows))
  {
    if parts != [] {
      PendingDistinct(parts[1..], rows);
      assert parts[0] !in parts[1..];
    }
  }

  lemma ClaimStep(plan: Plan, s: State)
    requires PlanShape(plan) && Inv(plan, s) && s.phase.Claiming? && s.phase.claimed < |s.phase.pending|
    ensures Kept(plan, s, Apply(plan, s, Claim))
    ensures Apply(plan, s, Claim).phase.Claiming?
  {
    hide Assembly, PlanShape, RowsSound, ClaimsSound, CompletedOf, Untouched;
    var p := s.phase.pending[s.phase.claimed];
    NextClaim(plan, s.d.rows, s.d.files, s.loads, s.phase.pending, s.phase.claimed);
    ClaimKeepsRows(plan, s.d.rows, s.d.files, s.loads, p);
    ClaimKeepsCompleted(s.d.rows, p.key);
    ClaimAdvances(plan, s.d.rows, s.loads, s.phase.pending, s.phase.claimed);
  }

  lemma NextClaim(plan: Plan, rows: Rows, files: Files, loads: multiset<string>, pending: seq<Partition>, n: nat)
    requires PlanShape(plan) && RowsSound(plan, rows, files, loads)
    requires ClaimsSound(plan, rows, loads, pending, n) && n < |pending|
    ensures pending[n] in plan.partitions && Unfinished(rows, pending[n])
    ensures loads[pending[n].key] <= rows[pending[n].key].attempts < plan.maxAttempts
    ensures forall q :: q in plan.partitions && Completed(rows, q) ==> q.key != pending[n].key
  {
    hide Backed, Partition.Valid;
    assert pending[n] in pending;
    assert RowSound(plan, rows, files, loads, pending[n]);
  }

  function Claimed(rows: Rows, key: string): Rows
    requires key in rows
  {
    rows[key := rows[key].(status := PartRunning, attempts := rows[key].attempts + 1)]
  }

  lemma ClaimKeepsRows(plan: Plan, rows: Rows, files: Files, loads: multiset<string>, p: Partition)
    requires PlanShape(plan) && RowsSound(plan, rows, files, loads)
    requires p in plan.partitions && Unfinished(rows, p) && rows[p.key].attempts < plan.maxAttempts
    ensures RowsSound(plan, Claimed(rows, p.key), files, loads)
  {
    hide FrameOk, Partition.Valid;
    forall q | q in plan.partitions
      ensures RowSound(plan, Claimed(rows, p.key), files, loads, q)
    {
      assert RowSound(plan, rows, files, loads, q);
    }
  }

  lemma ClaimKeepsCompleted(rows: Rows, key: string)
    requires key in rows && rows[key].status != PartCompleted
    ensures CompletedOf(Claimed(rows, key)) == CompletedOf(rows)
  {
  }

  lemma ClaimAdvances(plan: Plan, rows: Rows, loads: multiset<string>, pending: seq<Partition>, n: nat)
    requires PlanShape(plan) && ClaimsSound(plan, rows, loads, pending, n) && n < |pending|
    requires loads[pending[n].key] <= rows[pending[n].key].attempts
    ensures ClaimsSound(plan, Claimed(rows, pending[n].key), loads, pending, n + 1)
  {
    hide Partition.Valid;
    var t := Claimed(rows, pending[n].key);
    forall i | 0 <= i < |pending| && i != n
      ensures pending[i].key != pending[n].key
    {
      assert pending[i] in pending && pending[n] in pending;
    }
  }

  lemma LaunchStep(plan: Plan, s: State, after: Option<nat>)
    requires PlanShape(plan) && Inv(plan, s) && s.phase.Claiming? && s.phase.claimed == |s.phase.pending| && after != Some(0)
    ensures Kept(plan, s, Apply(plan, s, Launch(after)))
  {
    hide Assembly, RowsSound, CompletedOf, Partition.Valid;
    var pending := s.phase.pending;
    var tasks: Tasks := map p | p in pending :: Queued;
    forall p | p in tasks
      ensures p in plan.partitions && TaskSound(s.d.rows, s.d.files, s.loads, p, tasks[p])
    {
      var i :| 0 <= i < |pending| && pending[i] == p;
      assert Owed(s.d.rows, s.loads, pending[i]);
    }
    LaunchRest(plan, s, tasks);
  }

  lemma LaunchRest(plan: Plan, s: State, tasks: Tasks)
    requires PlanShape(plan) && Inv(plan, s) && s.phase.Claiming?
    requires tasks == map p | p in s.phase.pending :: Queued
    ensures RestCompleted(plan, s.d.rows, tasks)
  {
    hide Assembly, Backed, Partition.Valid, CompletedOf;
    forall p | p in plan.partitions && (p !in tasks || tasks[p].Collected?)
      ensures Completed(s.d.rows, p)
    {
      assert p !in s.phase.pending;
      assert RowSound(plan, s.d.rows, s.d.files, s.loads, p);
    }
  }

  /** Replacing one task keeps the others. */
  lemma SwapTask(plan: Plan, rows: Rows, files: Files, loads: multiset<string>, tasks: Tasks, p: Partition, t: Task)
    requires TasksSound(plan, rows, files, loads, tasks) && p in tasks
    requires TaskSound(rows, files, loads, p, t)
    ensures TasksSound(plan, rows, files, loads, tasks[p := t])
  {
  }

  /** One more loader call for p is covered by its claim; the other partitions do not notice. */
  lemma LoadCounts(plan: Plan, rows: Rows, files: Files, loads: multiset<string>, tasks: Tasks, p: Partition, t: Task)
    requires PlanShape(plan) && RowsSound(plan, rows, files, loads) && TasksSound(plan, rows, files, loads, tasks)
    requires p in tasks && tasks[p].Queued? && !t.Queued? && TaskSound(rows, files, loads, p, t)
    ensures RowsSound(plan, rows, files, loads + multiset{p.key})
    ensures TasksSound(plan, rows, files, loads + multiset{p.key}, tasks[p := t])
  {
    hide FrameOk, Partition.Valid, Backed;
    var loads' := loads + multiset{p.key};
    assert TaskSound(rows, files, loads, p, tasks[p]);
    forall q | q in plan.partitions
      ensures RowSound(plan, rows, files, loads', q)
    {
      assert RowSound(plan, rows, files, loads, q);
    }
    forall q | q in tasks
      ensures q in plan.partitions && TaskSound(rows, files, loads', q, tasks[p := t][q])
    {
      assert TaskSound(rows, files, loads, q, tasks[q]);
    }
  }

  lemma LoadStep(plan: Plan, s: State, p: Partition, outcome: Option<Frame>)
    requires PlanShape(plan) && Inv(plan, s)
    requires HasTasks(s.phase) && !s.phase.Draining? && p in s.phase.tasks && s.phase.tasks[p].Queued?
    ensures Kept(plan, s, Apply(plan, s, Load(p, outcome)))
  {
    hide Assembly, Partition.Valid, FrameOk, CompletedOf, RowsSound, CheckpointFrame, TasksSound;
    var task := OnLoad(plan, s, p, outcome).phase.tasks[p];
    TaskIsSound(plan, s, s.phase.tasks, p);
    if task.Loaded? {
      CheckpointFrameOk(p, plan.maxRows, outcome.value);
    }
    LoadCounts(plan, s.d.rows, s.d.files, s.loads, s.phase.tasks, p, task);
    assert forall q :: q in plan.partitions && Completed(s.d.rows, q) ==> q != p;
  }

  lemma TaskIsSound(plan: Plan, s: State, tasks: Tasks, p: Partition)
    requires TasksSound(plan, s.d.rows, s.d.files, s.loads, tasks) && p in tasks
    ensures p in plan.partitions && TaskSound(s.d.rows, s.d.files, s.loads, p, tasks[p])
  {
  }

  /** A checkpoint file may be replaced while its row is not completed. */
  lemma WriteCounts(plan: Plan, rows: Rows, files: Files, loads: multiset<string>, tasks: Tasks, p: Partition, f: Frame)
    requires PlanShape(plan) && RowsSound(plan, rows, files, loads) && TasksSound(plan, rows, files, loads, tasks)
    requires p in tasks && tasks[p] == Loaded(f)
    ensures RowsSound(plan, rows, files[p.key := Parquet(f)], loads)
    ensures TasksSound(plan, rows, files[p.key := Parquet(f)], loads, tasks[p := Written(f)])
    ensures CompletedOf(rows) == CompletedOf(rows) && !Completed(rows, p)
  {
    hide RowSound, FrameOk, Partition.Valid;
    var files' := files[p.key := Parquet(f)];
    assert TaskSound(rows, files, loads, p, tasks[p]);
    forall q | q in plan.partitions
      ensures RowSound(plan, rows, files', loads, q)
    {
      WrittenRow(plan, rows, files, loads, p, f, q);
    }
    forall q | q in tasks
      ensures q in plan.partitions && TaskSound(rows, files', loads, q, tasks[p := Written(f)][q])
    {
      assert TaskSound(rows, files, loads, q, tasks[q]);
    }
  }

  /** Writing the file of a running partition disturbs no row: a completed one has another key. */
  lemma WrittenRow(plan: Plan, rows: Rows, files: Files, loads: multiset<string>, p: Partition, f: Frame, q: Partition)
    requires RowSound(plan, rows, files, loads, q) && InProgress(rows, p)
    ensures RowSound(plan, rows, files[p.key := Parquet(f)], loads, q)
  {
    hide FrameOk, Partition.Valid;
  }

  lemma WriteStep(plan: Plan, s: State, p: Partition)
    requires PlanShape(plan) && Inv(plan, s)
    requires HasTasks(s.phase) && p in s.phase.tasks && s.phase.tasks[p].Loaded?
    ensures Kept(plan, s, Apply(plan, s, Write(p)))
  {
    hide Assembly, Partition.Valid, FrameOk, CompletedOf, RowsSound, TasksSound, PlanShape, Untouched;
    TaskIsSound(plan, s, s.phase.tasks, p);
    WriteCounts(plan, s.d.rows, s.d.files, s.loads, s.phase.tasks, p, s.phase.tasks[p].frame);
    OthersKept(plan, s.d.rows, p);
  }

  lemma OthersKept(plan: Plan, rows: Rows, p: Partition)
    requires PlanShape(plan) && p in plan.partitions && !Completed(rows, p)
    ensures forall q :: q in plan.partitions && Completed(rows, q) ==> q.key != p.key
  {
  }

  lemma WriteErrorStep(plan: Plan, s: State, p: Partition)
    requires PlanShape(plan) && Inv(plan, s)
    requires HasTasks(s.phase) && p in s.phase.tasks && (s.phase.tasks[p].Loaded? || s.phase.tasks[p].Written?)
    ensures Kept(plan, s, Apply(plan, s, WriteError(p)))
  {
    hide Assembly, FrameOk, CompletedOf, RowsSound, TasksSound, PlanShape, Untouched;
    TaskIsSound(plan, s, s.phase.tasks, p);
    SwapTask(plan, s.d.rows, s.d.files, s.loads, s.phase.tasks, p, Errored);
  }

  // ----- collecting a finished future

  function Finalised(rows: Rows, c: Checkpoint): Rows
    requires c.key in rows
  {
    rows[c.key := rows[c.key].(status := PartCompleted, checkpoint := Some(c))]
  }

  lemma CompleteRow(plan: Plan, rows: Rows, files: Files, loads: multiset<string>, p: Partition, f: Frame)
    requires PlanShape(plan) && RowsSound(plan, rows, files, loads) && p in plan.partitions
    requires TaskSound(rows, files, loads, p, Written(f))
    ensures RowsSound(plan, Finalised(rows, CheckpointOf(p.key, f)), files, loads)
  {
    hide FrameOk, Partition.Valid, CheckpointOf;
    KeyOfCheckpoint(p.key, f);
    forall q | q in plan.partitions
      ensures RowSound(plan, Finalised(rows, CheckpointOf(p.key, f)), files, loads, q)
    {
      assert RowSound(plan, rows, files, loads, q);
    }
  }

  lemma KeyOfCheckpoint(key: string, f: Frame)
    ensures CheckpointOf(key, f).key == key
  {
  }

  lemma CompleteTask(plan: Plan, rows: Rows, files: Files, loads: multiset<string>, tasks: Tasks, p: Partition, c: Checkpoint)
    requires PlanShape(plan) && TasksSound(plan, rows, files, loads, tasks)
    requires p in tasks && p in plan.partitions && RestCompleted(plan, rows, tasks) && c.key == p.key && p.key in rows
    ensures TasksSound(plan, Finalised(rows, c), files, loads, tasks[p := Collected])
    ensures RestCompleted(plan, Finalised(rows, c), tasks[p := Collected])
  {
    hide FrameOk, Partition.Valid;
    forall q | q in tasks
      ensures q in plan.partitions && TaskSound(Finalised(rows, c), files, loads, q, tasks[p := Collected][q])
    {
      assert TaskSound(rows, files, loads, q, tasks[q]);
    }
  }

  lemma CompletedGrows(rows: Rows, c: Checkpoint)
    requires c.key in rows
    ensures CompletedOf(rows[c.key := rows[c.key].(status := PartCompleted, checkpoint := Some(c))])
         == CompletedOf(rows)[c.key := c]
  {
  }

  lemma FailRow(plan: Plan, rows: Rows, files: Files, loads: multiset<string>, tasks: Tasks, p: Partition)
    requires PlanShape(plan) && RowsSound(plan, rows, files, loads) && TasksSound(plan, rows, files, loads, tasks)
    requires p in tasks && tasks[p].Errored?
    ensures p in plan.partitions && InProgress(rows, p)
    ensures var rows' := rows[p.key := rows[p.key].(status := PartFailed)];
            RowsSound(plan, rows', files, loads) && TasksSound(plan, rows', files, loads, tasks[p := Collected])
  {
    hide RowSound, Partition.Valid;
    assert TaskSound(rows, files, loads, p, tasks[p]);
    var rows' := rows[p.key := rows[p.key].(status := PartFailed)];
    forall q | q in plan.partitions
      ensures RowSound(plan, rows', files, loads, q)
    {
      FailedRow(plan, rows, files, loads, p, q);
    }
    forall q | q in tasks
      ensures q in plan.partitions && TaskSound(rows', files, loads, q, tasks[p := Collected][q])
    {
      assert TaskSound(rows, files, loads, q, tasks[q]);
    }
  }

  lemma FailedRow(plan: Plan, rows: Rows, files: Files, loads: multiset<string>, p: Partition, q: Partition)
    requires RowSound(plan, rows, files, loads, q) && p.key in rows
    ensures RowSound(plan, rows[p.key := rows[p.key].(status := PartFailed)], files, loads, q)
  {
    hide FrameOk, Partition.Valid;
  }

  lemma CollectStep(plan: Plan, s: State, p: Partition)
    requires PlanShape(plan) && Inv(plan, s) && s.phase.Executing? && p in s.phase.tasks
    ensures Kept(plan, s, Apply(plan, s, Collect(p)))
  {
    hide Assembly, FrameOk, CompletedOf, RowsSound, TasksSound, RestCompleted, PlanShape, Untouched;
    match s.phase.tasks[p]
    case Written(f) =>
      TaskIsSound(plan, s, s.phase.tasks, p);
      CompleteRow(plan, s.d.rows, s.d.files, s.loads, p, f);
      CompleteTask(plan, s.d.rows, s.d.files, s.loads, s.phase.tasks, p, CheckpointOf(p.key, f));
      CompletedGrows(s.d.rows, CheckpointOf(p.key, f));
      OthersKept(plan, s.d.rows, p);
    case Errored =>
      FailRow(plan, s.d.rows, s.d.files, s.loads, s.phase.tasks, p);
      OthersKept(plan, s.d.rows, p);
    case _ =>
  }

  // ----- the remaining main-thread steps

  lemma FinishStep(plan: Plan, s: State)
    requires PlanShape(plan) && Inv(plan, s) && s.phase.Executing?
    ensures Kept(plan, s, Apply(plan, s, Finish))
  {
    hide Assembly, RowsSound, TasksSound, RestCompleted, CompletedOf, PlanShape, Untouched;
    if forall p :: p in s.phase.tasks ==> s.phase.tasks[p].Collected? {
      RestIsAll(plan, s.d.rows, s.phase.tasks);
      AllCompleted(plan, s.d.rows, s.d.files, s.loads);
    }
  }

  lemma RestIsAll(plan: Plan, rows: Rows, tasks: Tasks)
    requires RestCompleted(plan, rows, tasks) && forall p :: p in tasks ==> tasks[p].Collected?
    ensures forall p :: p in plan.partitions ==> !Unfinished(rows, p)
  {
  }

  /** The count check before assembly never fails, so the branch that marks the job failed is dead. */
  lemma EveryCheckpointPresent(plan: Plan, s: State)
    requires PlanShape(plan) && Inv(plan, s) && s.phase.Finished?
    ensures |s.phase.have| == |plan.partitions|
  {
    assert |s.phase.have| == |s.phase.have.Keys|;
  }

  lemma StopStep(plan: Plan, s: State, e: Event)
    requires PlanShape(plan) && Inv(plan, s)
    requires e.FailTheJob? || e.Interrupt? || e.Drain? || e.Crash?
    ensures Kept(plan, s, Apply(plan, s, e))
  {
    hide Assembly, RowsSound, TasksSound, CompletedOf, PlanShape, Untouched;
  }

  lemma JobStep(plan: Plan, s: State, e: Event)
    requires PlanShape(plan) && Inv(plan, s)
    requires e.BeginAssembly? || e.Assemble? || e.Materialize? || e.Publish?
    ensures Kept(plan, s, Apply(plan, s, e))
  {
    hide Inv, Persists, Apply;
    match e
    case BeginAssembly => BeginStep(plan, s);
    case Assemble => AssembleStep(plan, s);
    case Materialize(ok) => MaterializeStep(plan, s, ok);
    case Publish => PublishStep(plan, s);
  }

  lemma BeginStep(plan: Plan, s: State)
    requires PlanShape(plan) && Inv(plan, s)
    ensures Kept(plan, s, Apply(plan, s, BeginAssembly))
  {
    hide Assembly, RowsSound, TasksSound, CompletedOf, PlanShape, Untouched;
    if s.phase.Finished? {
      EveryCheckpointPresent(plan, s);
    }
  }

  lemma AssembleStep(plan: Plan, s: State)
    requires PlanShape(plan) && Inv(plan, s)
    ensures Kept(plan, s, Apply(plan, s, Assemble))
  {
    hide Assembly, RowsSound, TasksSound, CompletedOf, PlanShape, Untouched;
  }

  lemma MaterializeStep(plan: Plan, s: State, ok: bool)
    requires PlanShape(plan) && Inv(plan, s)
    ensures Kept(plan, s, Apply(plan, s, Materialize(ok)))
  {
    hide Assembly, RowsSound, TasksSound, CompletedOf, PlanShape, Untouched;
  }

  lemma PublishStep(plan: Plan, s: State)
    requires PlanShape(plan) && Inv(plan, s)
    ensures Kept(plan, s, Apply(plan, s, Publish))
  {
    hide Assembly, RowsSound, TasksSound, CompletedOf, PlanShape, Untouched;
  }

  /** One step of any kind. */
  lemma StepKeeps(plan: Plan, s: State, e: Event)
    requires PlanShape(plan) && Inv(plan, s)
    ensures Kept(plan, s, Apply(plan, s, e))
  {
    hide Inv, Persists, Apply;
    if Apply(plan, s, e) == s {
      Stutter(plan, s);
    } else {
      EnabledStep(plan, s, e);
    }
  }

  lemma Stutter(plan: Plan, s: State)
    requires PlanShape(plan) && Inv(plan, s)
    ensures Persists(plan, s, s)
  {
    hide PhaseSound, Assembly, Backed;
  }

  lemma EnabledStep(plan: Plan, s: State, e: Event)
    requires PlanShape(plan) && Inv(plan, s) && Apply(plan, s, e) != s
    ensures Kept(plan, s, Apply(plan, s, e))
  {
    hide Inv, Persists, OnAdmit, OnClaim, OnLoad, OnWrite, OnCollect, OnBeginAssembly, PlanShape;
    match e
    case Open => OpenStep(plan, s);
    case Admit => AdmitStep(plan, s);
    case Claim => ClaimStep(plan, s);
    case Launch(after) => LaunchStep(plan, s, after);
    case Load(p, outcome) => LoadStep(plan, s, p, outcome);
    case Write(p) => WriteStep(plan, s, p);
    case WriteError(p) => WriteErrorStep(plan, s, p);
    case Collect(p) => CollectStep(plan, s, p);
    case Finish => FinishStep(plan, s);
    case FailTheJob => StopStep(plan, s, e);
    case Interrupt => StopStep(plan, s, e);
    case Drain => StopStep(plan, s, e);
    case Crash => StopStep(plan, s, e);
    case _ => JobStep(plan, s, e);
  }
}
