/**
 * The orchestrator as a transition system: the main thread's steps, the workers' steps and a crash
 * between any two of them. A behaviour is any sequence of events; an event that is not enabled
 * leaves the state as it is, so the adversary picks the schedule, the loader's answers, the
 * completion order and the crashes.
 */
module BackfillProtocol {
  import opened Common
  import opened Calendar
  import opened BackfillPlanning
  import opened BackfillFrames
  import opened BackfillCatalog

  datatype Task = Queued | Loaded(frame: Frame) | Written(frame: Frame) | Errored | Collected

  type Tasks = map<Partition, Task>

  datatype Phase =
    | Idle
    | Opened
    | Claiming(have: map<string, Checkpoint>, pending: seq<Partition>, claimed: nat)
    | Overclaimed
    | Executing(have: map<string, Checkpoint>, tasks: Tasks, left: Option<nat>)
    | Failing(tasks: Tasks)
    | Interrupting(tasks: Tasks)
    | Draining(tasks: Tasks)
    | Finished(have: map<string, Checkpoint>)
    | Joining(have: map<string, Checkpoint>)
    | Assembled(frame: Frame)
    | Materialized(obj: Object)

  /** The durable state, the volatile phase, and two history counters of the loader and of os.replace. */
  datatype State = State(d: Durable, phase: Phase, loads: multiset<string>, writes: multiset<string>)

  datatype Event =
    | Open
    | Admit
    | Claim
    | Launch(interruptAfter: Option<nat>)
    | Load(p: Partition, outcome: Option<Frame>)
    | Write(p: Partition)
    | WriteError(p: Partition)
    | Collect(p: Partition)
    | Finish
    | FailTheJob
    | Interrupt
    | Drain
    | BeginAssembly
    | Assemble
    | Materialize(ok: bool)
    | Publish
    | Crash

  ghost const INIT := State(Durable(None, map[], map[]), Idle, multiset{}, multiset{})

  predicate HasTasks(phase: Phase) {
    phase.Executing? || phase.Failing? || phase.Interrupting? || phase.Draining?
  }

  ghost function SetTask(s: State, p: Partition, t: Task): State
    requires HasTasks(s.phase)
  {
    s.(phase := s.phase.(tasks := s.phase.tasks[p := t]))
  }

  // ----- main thread

  ghost function OnAdmit(plan: Plan, s: State): State {
    if s.d.job.Some? && s.d.job.value.status == Published then s.(phase := Idle)
    else if !Recoverable(plan, s.d) then s.(phase := Idle)
    else
      var have, pending := CompletedOf(s.d.rows), PendingOf(plan.partitions, s.d.rows);
      if pending == [] then s.(phase := Finished(have))
      else
        match TransitionJob(s.d, {Planned, Interrupted, Failed}, Running)
        case Err(_) => s.(phase := Idle)
        case Ok(d) => s.(d := d, phase := Claiming(have, pending, 0))
  }

  ghost function OnClaim(plan: Plan, s: State): State
    requires s.phase.Claiming? && s.phase.claimed < |s.phase.pending|
  {
    var key := s.phase.pending[s.phase.claimed].key;
    match MarkRunning(s.d, key)
    case Err(_) => s.(phase := Idle)
    case Ok(d) =>
      if key in d.rows && d.rows[key].attempts > plan.maxAttempts then s.(d := d, phase := Overclaimed)
      else s.(d := d, phase := s.phase.(claimed := s.phase.claimed + 1))
  }

  ghost function OnCollect(s: State, p: Partition): State
    requires s.phase.Executing? && p in s.phase.tasks
  {
    match s.phase.tasks[p]
    case Written(f) =>
      var c := CheckpointOf(p.key, f);
      var tasks := s.phase.tasks[p := Collected];
      var have := s.phase.have[p.key := c];
      var left := if s.phase.left.Some? && s.phase.left.value > 0 then Some(s.phase.left.value - 1) else s.phase.left;
      s.(d := MarkCompleted(s.d, c),
         phase := if left == Some(0) then Interrupting(tasks) else Executing(have, tasks, left))
    case Errored =>
      s.(d := MarkFailed(s.d, p.key), phase := Failing(s.phase.tasks[p := Collected]))
    case _ => s
  }

  ghost function OnBeginAssembly(plan: Plan, s: State): State
    requires s.phase.Finished?
  {
    if |s.phase.have| != |plan.partitions| then
      match TransitionJob(s.d, {Running}, Failed)
      case Err(_) => s.(phase := Idle)
      case Ok(d) => s.(d := d, phase := Idle)
    else
      match TransitionJob(s.d, {Running, Planned}, Assembling)
      case Err(_) => s.(phase := Idle)
      case Ok(d) => s.(d := d, phase := Joining(s.phase.have))
  }

  // ----- workers

  ghost function OnLoad(plan: Plan, s: State, p: Partition, outcome: Option<Frame>): State
    requires HasTasks(s.phase)
  {
    var task := if outcome.Some? && p.Valid() && CheckpointFrame(p, plan.maxRows, outcome.value).Some?
                then Loaded(CheckpointFrame(p, plan.maxRows, outcome.value).value) else Errored;
    SetTask(s, p, task).(loads := s.loads + multiset{p.key})
  }

  ghost function OnWrite(s: State, p: Partition): State
    requires HasTasks(s.phase) && p in s.phase.tasks && s.phase.tasks[p].Loaded?
  {
    var f := s.phase.tasks[p].frame;
    SetTask(s, p, Written(f)).(d := ReplaceFile(s.d, p.key, f), writes := s.writes + multiset{p.key})
  }

  ghost function Apply(plan: Plan, s: State, e: Event): State {
    match e
    case Open => if s.phase.Idle? then s.(d := EnsureJob(plan, s.d), phase := Opened) else s
    case Admit => if s.phase.Opened? then OnAdmit(plan, s) else s
    case Claim =>
      if s.phase.Claiming? && s.phase.claimed < |s.phase.pending| then OnClaim(plan, s) else s
    case Launch(after) =>
      if s.phase.Claiming? && s.phase.claimed == |s.phase.pending| && after != Some(0) then
        s.(phase := Executing(s.phase.have, map p | p in s.phase.pending :: Queued, after))
      else s
    case Load(p, outcome) =>
      if HasTasks(s.phase) && !s.phase.Draining? && p in s.phase.tasks && s.phase.tasks[p].Queued? then
        OnLoad(plan, s, p, outcome)
      else s
    case Write(p) =>
      if HasTasks(s.phase) && p in s.phase.tasks && s.phase.tasks[p].Loaded? then OnWrite(s, p) else s
    case WriteError(p) =>
      if HasTasks(s.phase) && p in s.phase.tasks && (s.phase.tasks[p].Loaded? || s.phase.tasks[p].Written?) then
        SetTask(s, p, Errored)
      else s
    case Collect(p) => if s.phase.Executing? && p in s.phase.tasks then OnCollect(s, p) else s
    case Finish =>
      if s.phase.Executing? && (forall p :: p in s.phase.tasks ==> s.phase.tasks[p].Collected?) then
        s.(phase := Finished(s.phase.have))
      else s
    case FailTheJob =>
      if s.phase.Failing? then s.(d := FailJob(s.d), phase := Draining(s.phase.tasks))
      else if s.phase.Overclaimed? then s.(d := FailJob(s.d), phase := Idle)
      else s
    case Interrupt =>
      if s.phase.Interrupting? then
        match TransitionJob(s.d, {Running}, Interrupted)
        case Err(_) => s.(phase := Draining(s.phase.tasks))
        case Ok(d) => s.(d := d, phase := Draining(s.phase.tasks))
      else s
    case Drain =>
      if s.phase.Draining? && (forall p :: p in s.phase.tasks ==> !s.phase.tasks[p].Loaded?) then s.(phase := Idle)
      else s
    case BeginAssembly => if s.phase.Finished? then OnBeginAssembly(plan, s) else s
    case Assemble =>
      if s.phase.Joining? then
        match Assembly(plan, s.d.files, s.phase.have)
        case Err(_) => s.(phase := Idle)
        case Ok(frame) => s.(phase := Assembled(frame))
      else s
    case Materialize(ok) =>
      if s.phase.Assembled? then
        if ok then s.(phase := Materialized(Object(s.phase.frame)))
        else s.(d := FailJob(s.d), phase := Idle)
      else s
    case Publish =>
      if s.phase.Materialized? then
        match PublishJob(s.d, s.phase.obj)
        case Err(_) => s.(phase := Idle)
        case Ok(d) => s.(d := d, phase := Idle)
      else s
    case Crash => s.(phase := Idle)
  }

  ghost function Run(plan: Plan, s: State, events: seq<Event>): State
    decreases |events|
  {
    if events == [] then s else Run(plan, Apply(plan, s, events[0]), events[1..])
  }

  lemma {:induction false} RunConcat(plan: Plan, s: State, a: seq<Event>, b: seq<Event>)
    ensures Run(plan, s, a + b) == Run(plan, Run(plan, s, a), b)
    decreases |a|
  {
    if a == [] {
      assert a + b == b;
    } else {
      assert (a + b)[0] == a[0] && (a + b)[1..] == a[1..] + b;
      RunConcat(plan, Apply(plan, s, a[0]), a[1..], b);
    }
  }

  // ----- the invariant

  type Rows = map<string, PartRow>

  type Files = map<string, File>

  ghost predicate Completed(rows: Rows, p: Partition) {
    p.key in rows && rows[p.key].status == PartCompleted
  }

  ghost predicate InProgress(rows: Rows, p: Partition) {
    p.key in rows && rows[p.key].status == PartRunning
  }

  /** The recorded checkpoint of a completed partition is the one of the file on disk. */
  ghost predicate Backed(rows: Rows, files: Files, p: Partition) {
    && p.key in rows && p.key in files && p.Valid()
    && rows[p.key].checkpoint == Some(CheckpointOf(p.key, files[p.key].frame))
    && FrameOk(p, files[p.key].frame)
  }

  ghost predicate RowSound(plan: Plan, rows: Rows, files: Files, loads: multiset<string>, p: Partition) {
    && p.key in rows
    && rows[p.key].attempts <= plan.maxAttempts
    && loads[p.key] <= rows[p.key].attempts
    && (Completed(rows, p) ==> Backed(rows, files, p))
  }

  ghost predicate RowsSound(plan: Plan, rows: Rows, files: Files, loads: multiset<string>) {
    && rows.Keys == Keys(plan)
    && (forall p :: p in plan.partitions ==> RowSound(plan, rows, files, loads, p))
    && (forall k :: k in loads ==> k in Keys(plan))
  }

  ghost predicate Untouched(plan: Plan, rows: Rows) {
    forall p :: p in plan.partitions ==> p.key in rows && rows[p.key] == PartRow(PartPlanned, 0, None)
  }

  ghost predicate JobIs(d: Durable, status: JobStatus) {
    d.job.Some? && d.job.value.status == status
  }

  /** A published job names the assembly of the completed files. */
  ghost predicate PublishedSound(plan: Plan, d: Durable) {
    && d.job.Some? && d.job.value.published.Some?
    && Assembly(plan, d.files, CompletedOf(d.rows)) == Ok(d.job.value.published.value.frame)
  }

  ghost predicate Sound(plan: Plan, s: State) {
    if s.d.job.None? then
      s.d.rows == map[] && s.d.files == map[] && s.loads == multiset{} && s.writes == multiset{} && s.phase.Idle?
    else
      && RowsSound(plan, s.d.rows, s.d.files, s.loads)
      && (JobIs(s.d, Planned) ==> Untouched(plan, s.d.rows) && (s.phase.Idle? || s.phase.Opened?))
      && (JobIs(s.d, Published) ==> PublishedSound(plan, s.d) && (s.phase.Idle? || s.phase.Opened?))
  }

  /** A claimed attempt that has not called the loader yet. */
  ghost predicate Owed(rows: Rows, loads: multiset<string>, p: Partition) {
    InProgress(rows, p) && loads[p.key] < rows[p.key].attempts
  }

  ghost predicate TaskSound(rows: Rows, files: Files, loads: multiset<string>, p: Partition, t: Task) {
    match t
    case Queued => Owed(rows, loads, p)
    case Loaded(f) => InProgress(rows, p) && p.Valid() && FrameOk(p, f)
    case Written(f) =>
      InProgress(rows, p) && p.Valid() && FrameOk(p, f) && p.key in files && files[p.key] == Parquet(f)
    case Errored => InProgress(rows, p)
    case Collected => true
  }

  ghost predicate TasksSound(plan: Plan, rows: Rows, files: Files, loads: multiset<string>, tasks: Tasks) {
    forall p :: p in tasks ==> p in plan.partitions && TaskSound(rows, files, loads, p, tasks[p])
  }

  ghost predicate ClaimsSound(plan: Plan, rows: Rows, loads: multiset<string>, pending: seq<Partition>, claimed: nat) {
    && Distinct(pending) && claimed <= |pending|
    && (forall p :: p in pending <==> p in plan.partitions && Unfinished(rows, p))
    && (forall i :: 0 <= i < claimed ==> Owed(rows, loads, pending[i]))
    && (forall i :: claimed <= i < |pending| ==>
          pending[i].key in rows && rows[pending[i].key].attempts < plan.maxAttempts)
  }

  /** Partitions without an outstanding task are completed. */
  ghost predicate RestCompleted(plan: Plan, rows: Rows, tasks: Tasks) {
    forall p :: p in plan.partitions && (p !in tasks || tasks[p].Collected?) ==> Completed(rows, p)
  }

  ghost predicate PhaseSound(plan: Plan, s: State) {
    var rows, files, loads := s.d.rows, s.d.files, s.loads;
    match s.phase
    case Idle => true
    case Opened => s.d.job.Some?
    case Claiming(have, pending, claimed) =>
      JobIs(s.d, Running) && have == CompletedOf(rows) && ClaimsSound(plan, rows, loads, pending, claimed)
    case Overclaimed => false
    case Executing(have, tasks, left) =>
      && JobIs(s.d, Running) && have == CompletedOf(rows) && left != Some(0)
      && TasksSound(plan, rows, files, loads, tasks) && RestCompleted(plan, rows, tasks)
    case Failing(tasks) => JobIs(s.d, Running) && TasksSound(plan, rows, files, loads, tasks)
    case Interrupting(tasks) => JobIs(s.d, Running) && TasksSound(plan, rows, files, loads, tasks)
    case Draining(tasks) =>
      (JobIs(s.d, Failed) || JobIs(s.d, Interrupted)) && TasksSound(plan, rows, files, loads, tasks)
    case Finished(have) => s.d.job.Some? && have == CompletedOf(rows) && have.Keys == Keys(plan)
    case Joining(have) => JobIs(s.d, Assembling) && have == CompletedOf(rows) && have.Keys == Keys(plan)
    case Assembled(frame) => JobIs(s.d, Assembling) && Assembly(plan, files, CompletedOf(rows)) == Ok(frame)
    case Materialized(obj) => JobIs(s.d, Assembling) && Assembly(plan, files, CompletedOf(rows)) == Ok(obj.frame)
  }

  ghost predicate Inv(plan: Plan, s: State) {
    Sound(plan, s) && PhaseSound(plan, s)
  }

  /** A completed row, its file and its counters stay as they are. */
  ghost predicate Unmoved(s: State, t: State, p: Partition) {
    && p.key in s.d.rows && p.key in t.d.rows && t.d.rows[p.key] == s.d.rows[p.key]
    && (p.key in s.d.files ==> p.key in t.d.files && t.d.files[p.key] == s.d.files[p.key])
    && t.loads[p.key] == s.loads[p.key] && t.writes[p.key] == s.writes[p.key]
  }

  /** What no later step undoes: completed partitions and publication. */
  ghost predicate Persists(plan: Plan, s: State, t: State) {
    && (forall p :: p in plan.partitions && Completed(s.d.rows, p) ==> Unmoved(s, t, p))
    && (JobIs(s.d, Published) ==> t.d.job == s.d.job)
    && (s.d.job.Some? ==> t.d.job.Some?)
  }

  /** The two facts about a plan that the step proofs use. */
  ghost predicate PlanShape(plan: Plan) {
    && (forall p, q :: p in plan.partitions && q in plan.partitions && p.key == q.key ==> p == q)
    && (forall p :: p in plan.partitions ==> p.Valid() && p.key in Keys(plan))
    && Distinct(plan.partitions) && |Keys(plan)| == |plan.partitions| && plan.partitions != [] && plan.maxAttempts >= 1
  }

  lemma ShapeOfPlan(plan: Plan)
    requires ValidPlan(plan)
    ensures PlanShape(plan)
  {
    hide Coverage, Partition.Valid;
    KeysCount(plan);
    NonEmptyPlan(plan);
    KeysNamePartitions(plan);
  }

  lemma NonEmptyPlan(plan: Plan)
    requires ValidPlan(plan)
    ensures plan.partitions != []
  {
  }
}
