/** The sprint orchestrator's execute phase (tools/orchestrator/executor.py) as a state machine:
    one dispatcher thread, a pool of workers, and the state file that survives a crash.

    A step is one shared-memory action of one thread. What the outside world decides (does a
    worktree get created, how does an attempt end, when does a stop or a crash come) is part of
    the event. Tasks are named by their position in the sprint; ids are assumed distinct. */
module Executor {
  import opened Results

  const MAX_TASK_RETRIES: nat := 3
  const MAX_WORKERS: nat := 4

  datatype TaskDef = TaskDef(id: string, dependsOn: seq<string>)

  type Plan = seq<TaskDef>

  datatype Status = Pending | Running | Passed | Failed | Skipped {
    predicate Final() {
      Passed? || Failed? || Skipped?
    }

    /** A dependency in such a state makes its dependents skip. */
    predicate Broken() {
      Failed? || Skipped?
    }
  }

  datatype Task = Task(status: Status, attempts: nat)

  /** Listed dependencies that are tasks of the sprint; other names are ignored. */
  function KnownDeps(plan: Plan, i: nat): set<nat>
    requires i < |plan|
  {
    set j: nat | j < |plan| && plan[j].id in plan[i].dependsOn
  }

  predicate DepsPassed(plan: Plan, tasks: seq<Task>, i: nat)
    requires |tasks| == |plan| && i < |plan|
  {
    forall j <- KnownDeps(plan, i) :: tasks[j].status.Passed?
  }

  predicate DepsBroken(plan: Plan, tasks: seq<Task>, i: nat)
    requires |tasks| == |plan| && i < |plan|
  {
    exists j <- KnownDeps(plan, i) :: tasks[j].status.Broken()
  }

  /** How one attempt ends; after a merge conflict the worktree must be created afresh. */
  datatype Attempt = Timeout | NoChanges | TestsFailed | Merged | Conflict(recreated: bool)

  datatype Item = Job(i: nat) | Sentinel

  datatype Worker =
    | Idle
    | Taken(i: nat)                  // off the queue, not started
    | Trying(i: nat, attempt: nat)   // at the head of the retry loop
    | InAgent(i: nat, attempt: nat)  // marked running
    | Judging(i: nat, attempt: nat)  // the agent returned, no stop was seen
    | Saving(i: nat)                 // final status set, not yet written
    | Stopped
  {
    predicate Holds(j: nat) {
      !Idle? && !Stopped? && i == j
    }
  }

  datatype Exit = AllDone | StopRequested

  datatype Dispatcher =
    | Top
    | Scan(next: nat)
    | DepsRead(i: nat, ok: bool)     // deps_ok is known, deps_failed not yet
    | CheckDone
    | Closing(why: Exit, left: nat)  // sentinels still to put
    | Exited(why: Exit)

  /** `disk` is the state file; `enqueued` and everything after it live in memory only. */
  datatype State = State(
    tasks: seq<Task>,
    disk: seq<Task>,
    enqueued: set<nat>,
    queue: seq<Item>,
    workers: seq<Worker>,
    disp: Dispatcher,
    shutdown: bool)

  datatype Event =
    | Dispatch
    | Take(w: nat)
    | Start(w: nat, worktree: bool)
    | Begin(w: nat)
    | Agent(w: nat)
    | Judge(w: nat, result: Attempt)
    | Save(w: nat)
    | Shutdown
    | Crash

  predicate AllFinal(tasks: seq<Task>) {
    forall i | 0 <= i < |tasks| :: tasks[i].status.Final()
  }

  /** `failed == 0 and skipped == 0` over the final statuses. */
  predicate Returned(tasks: seq<Task>) {
    forall i | 0 <= i < |tasks| :: !tasks[i].status.Broken()
  }

  function SetStatus(tasks: seq<Task>, i: nat, status: Status): seq<Task>
    requires i < |tasks|
  {
    tasks[i := tasks[i].(status := status)]
  }

  function WorkerCount(plan: Plan, tasks: seq<Task>): nat
    requires |tasks| == |plan|
  {
    var independent := set i | 0 <= i < |plan| && plan[i].dependsOn == [] && tasks[i].status.Pending?;
    if independent == {} then 1
    else if |independent| < MAX_WORKERS then |independent| else MAX_WORKERS
  }

  /** Entering `run_execute` with the given task list and a pool of `n` workers. */
  function EnterWith(tasks: seq<Task>, n: nat): State {
    State(tasks, tasks, {}, [], seq(n, _ => Idle), Top, false)
  }

  function Enter(plan: Plan, tasks: seq<Task>): State
    requires |tasks| == |plan|
  {
    EnterWith(tasks, WorkerCount(plan, tasks))
  }

  function Recovered(tasks: seq<Task>): seq<Task> {
    seq(|tasks|, i requires 0 <= i < |tasks| =>
      if tasks[i].status.Running? then tasks[i].(status := Pending) else tasks[i])
  }

  /** The status after attempt `k` ended this way; None means another attempt follows. */
  function Verdict(k: nat, result: Attempt): Option<Status> {
    match result
    case Timeout => Some(Failed)
    case Merged => Some(Passed)
    case Conflict(false) => Some(Failed)
    case _ => if k < MAX_TASK_RETRIES then None else Some(Failed)
  }

  function DispatchStep(plan: Plan, s: State): Option<State>
    requires |s.tasks| == |plan|
  {
    match s.disp
    case Top =>
      if s.shutdown then Some(s.(disp := Closing(StopRequested, |s.workers|), disk := s.tasks))
      else Some(s.(disp := Scan(0)))
    case Scan(i) =>
      if i >= |plan| then Some(s.(disp := CheckDone))
      else if i in s.enqueued || !s.tasks[i].status.Pending? then Some(s.(disp := Scan(i + 1)))
      else Some(s.(disp := DepsRead(i, DepsPassed(plan, s.tasks, i))))
    case DepsRead(i, ok) =>
      if i >= |plan| then None
      else if DepsBroken(plan, s.tasks, i) then
        var tasks := SetStatus(s.tasks, i, Skipped);
        Some(s.(tasks := tasks, disk := tasks, disp := Scan(i + 1)))
      else if ok then
        Some(s.(enqueued := s.enqueued + {i}, queue := s.queue + [Job(i)], disp := Scan(i + 1)))
      else Some(s.(disp := Scan(i + 1)))
    case CheckDone =>
      if AllFinal(s.tasks) then Some(s.(disp := Closing(AllDone, |s.workers|)))
      else Some(s.(disp := Top))
    case Closing(why, left) =>
      if left == 0 then Some(s.(disp := Exited(why)))
      else Some(s.(queue := s.queue + [Sentinel], disp := Closing(why, left - 1)))
    case Exited(_) => None
  }

  function Put(s: State, w: nat, worker: Worker): State
    requires w < |s.workers|
  {
    s.(workers := s.workers[w := worker])
  }

  /** Set a task's status from worker `w`, which goes on as `worker`. */
  function Mark(s: State, w: nat, i: nat, status: Status, worker: Worker): State
    requires w < |s.workers| && i < |s.tasks|
  {
    Put(s, w, worker).(tasks := SetStatus(s.tasks, i, status))
  }

  function WorkStep(s: State, e: Event): Option<State>
    requires e.Take? || e.Start? || e.Begin? || e.Agent? || e.Judge? || e.Save?
  {
    if e.w >= |s.workers| then None
    else
      var w, me := e.w, s.workers[e.w];
      if !me.Idle? && !me.Stopped? && me.i >= |s.tasks| then None
      else
        match e
        case Take(_) =>
          if !me.Idle? || s.queue == [] then None
          else
            var s' := s.(queue := s.queue[1..]);
            (match s.queue[0]
             case Sentinel => Some(Put(s', w, Stopped))
             case Job(i) => Some(Put(s', w, Taken(i))))
        case Start(_, worktree) =>
          if !me.Taken? then None
          else if s.shutdown then Some(Put(s, w, Stopped))
          else if worktree then Some(Put(s, w, Trying(me.i, 1)))
          else Some(Mark(s, w, me.i, Failed, Saving(me.i)))
        case Begin(_) =>
          if !me.Trying? then None
          else
            var tasks := s.tasks[me.i := Task(Running, me.attempt)];
            Some(Put(s, w, InAgent(me.i, me.attempt)).(tasks := tasks, disk := tasks))
        case Agent(_) =>
          if !me.InAgent? then None
          else if s.shutdown then Some(Put(s, w, Idle).(disk := s.tasks))
          else Some(Put(s, w, Judging(me.i, me.attempt)))
        case Judge(_, result) =>
          if !me.Judging? then None
          else
            (match Verdict(me.attempt, result)
             case Some(status) => Some(Mark(s, w, me.i, status, Saving(me.i)))
             case None => Some(Put(s, w, Trying(me.i, me.attempt + 1))))
        case Save(_) =>
          if !me.Saving? then None
          else Some(Put(s, w, Idle).(disk := s.tasks))
  }

  /** One step; None when the event is not enabled. A crash is followed by a resume. */
  function Step(plan: Plan, s: State, e: Event): (r: Option<State>)
    requires Shaped(plan, s)
    ensures r.Some? ==> Shaped(plan, r.value)
  {
    match e
    case Dispatch => DispatchStep(plan, s)
    case Shutdown => Some(s.(shutdown := true))
    case Crash => Some(Enter(plan, Recovered(s.disk)))
    case _ => WorkStep(s, e)
  }

  /** The dispatcher holds the state lock while it scans; steps that write the state file wait for it. Safety
      results hold with or without the lock; what can be played out respects it. */
  predicate Blocked(s: State, e: Event) {
    && (s.disp.Scan? || s.disp.DepsRead?)
    && (e.Begin? || e.Save? || (e.Agent? && s.shutdown))
  }

  predicate Shaped(plan: Plan, s: State) {
    |s.tasks| == |plan| && |s.disk| == |plan|
  }

  /** `trace` is a run: state k+1 is the result of event k in state k. */
  predicate Run(plan: Plan, trace: seq<State>, events: seq<Event>) {
    && |trace| == |events| + 1
    && (forall k | 0 <= k < |trace| :: Shaped(plan, trace[k]))
    && (forall k | 0 <= k < |events| :: Step(plan, trace[k], events[k]) == Some(trace[k + 1]))
  }

  /** A sprint as loaded from its file: nothing has happened yet. */
  function Fresh(plan: Plan): State {
    Enter(plan, seq(|plan|, _ => Task(Pending, 0)))
  }
}
