/** What every step of the orchestrator keeps, crashes and resumes included. */
module ExecutorSafety {
  import opened Results
  import opened Executor

  // ---------------------------------------------------------------- invariants

  /** A task that ran had all its dependencies passed; a skipped one had one failed or skipped. */
  predicate Justified(plan: Plan, tasks: seq<Task>)
    requires |tasks| == |plan|
  {
    forall i | 0 <= i < |plan| ::
      match tasks[i].status
      case Pending => true
      case Skipped => DepsBroken(plan, tasks, i)
      case _ => DepsPassed(plan, tasks, i)
  }

  /** Queued and held tasks were admitted, and each is in one place only. */
  predicate Owned(s: State) {
    && (forall w | 0 <= w < |s.workers| && !s.workers[w].Idle? && !s.workers[w].Stopped? ::
          s.workers[w].i in s.enqueued && s.workers[w].i < |s.tasks|)
    && (forall v, w | 0 <= v < w < |s.workers| && !s.workers[v].Idle? && !s.workers[v].Stopped? ::
          !s.workers[w].Holds(s.workers[v].i))
    && (forall k | 0 <= k < |s.queue| && s.queue[k].Job? ::
          s.queue[k].i in s.enqueued && s.queue[k].i < |s.tasks| && s.tasks[s.queue[k].i].status.Pending?)
    && (forall k, w | 0 <= k < |s.queue| && s.queue[k].Job? && 0 <= w < |s.workers| ::
          !s.workers[w].Holds(s.queue[k].i))
    && (forall k, l | 0 <= k < l < |s.queue| && s.queue[k].Job? :: s.queue[l] != s.queue[k])
  }

  predicate Admitted(plan: Plan, s: State)
    requires |s.tasks| == |plan|
  {
    && (forall i | i in s.enqueued :: i < |plan| && DepsPassed(plan, s.tasks, i) && !s.tasks[i].status.Skipped?)
    && (forall i | 0 <= i < |plan| && s.tasks[i].status.Running? :: i in s.enqueued)
  }

  /** A worker's program counter agrees with its task's status and attempt count. */
  predicate WorkerAgrees(s: State, me: Worker)
  {
    match me
    case Idle => true
    case Stopped => true
    case Taken(i) => i < |s.tasks| && s.tasks[i].status.Pending?
    case Trying(i, k) =>
      && i < |s.tasks| && 1 <= k <= MAX_TASK_RETRIES
      && (if k == 1 then s.tasks[i].status.Pending? else s.tasks[i].status.Running?)
    case InAgent(i, k) => i < |s.tasks| && 1 <= k <= MAX_TASK_RETRIES && s.tasks[i] == Task(Running, k)
    case Judging(i, k) => i < |s.tasks| && 1 <= k <= MAX_TASK_RETRIES && s.tasks[i] == Task(Running, k)
    case Saving(i) => i < |s.tasks| && s.tasks[i].status.Final()
  }

  predicate WorkersAgree(s: State) {
    forall w | 0 <= w < |s.workers| :: WorkerAgrees(s, s.workers[w])
  }

  predicate DispatcherAgrees(plan: Plan, s: State)
    requires |s.tasks| == |plan|
  {
    s.disp.DepsRead? ==>
      && s.disp.i < |plan| && s.disp.i !in s.enqueued && s.tasks[s.disp.i].status.Pending?
      && (s.disp.ok ==> DepsPassed(plan, s.tasks, s.disp.i))
  }

  /** Final statuses stay. */
  predicate Grows(before: seq<Task>, after: seq<Task>) {
    && |before| == |after|
    && forall i | 0 <= i < |before| && before[i].status.Final() :: after[i].status == before[i].status
  }

  predicate Bounded(tasks: seq<Task>) {
    forall i | 0 <= i < |tasks| :: tasks[i].attempts <= MAX_TASK_RETRIES
  }

  predicate Inv(plan: Plan, s: State) {
    && Shaped(plan, s)
    && Justified(plan, s.tasks) && Justified(plan, s.disk)
    && Owned(s) && Admitted(plan, s) && WorkersAgree(s) && DispatcherAgrees(plan, s)
    && Grows(s.disk, s.tasks)
    && Bounded(s.tasks) && Bounded(s.disk)
  }

  /** A task waits for every task of the sprint whose id it lists; one of them failed or skipped breaks it. */
  lemma DepsExactly(plan: Plan, tasks: seq<Task>, i: nat)
    requires |tasks| == |plan| && i < |plan|
    ensures DepsPassed(plan, tasks, i) <==>
              forall j | 0 <= j < |plan| && plan[j].id in plan[i].dependsOn :: tasks[j].status == Passed
    ensures DepsBroken(plan, tasks, i) <==>
              exists j :: 0 <= j < |plan| && plan[j].id in plan[i].dependsOn
                          && (tasks[j].status == Failed || tasks[j].status == Skipped)
  {
    assert forall j: nat | j < |plan| :: j in KnownDeps(plan, i) <==> plan[j].id in plan[i].dependsOn;
  }

  // ---------------------------------------------------------------- preservation

  lemma DepsStable(plan: Plan, before: seq<Task>, after: seq<Task>, i: nat)
    requires |before| == |plan| && i < |plan| && Grows(before, after)
    ensures DepsPassed(plan, before, i) ==> DepsPassed(plan, after, i)
    ensures DepsBroken(plan, before, i) ==> DepsBroken(plan, after, i)
  {
  }

  /** Giving an unfinished task a justified new status keeps everything else as justified as it was. */
  lemma JustifiedUpdate(plan: Plan, tasks: seq<Task>, i: nat, t: Task)
    requires |tasks| == |plan| && i < |plan| && Justified(plan, tasks) && !tasks[i].status.Final()
    requires t.status.Skipped? ==> DepsBroken(plan, tasks, i)
    requires t.status.Running? || t.status.Passed? || t.status.Failed? ==> DepsPassed(plan, tasks, i)
    ensures Grows(tasks, tasks[i := t]) && Justified(plan, tasks[i := t])
  {
    hide DepsPassed, DepsBroken;
    var after := tasks[i := t];
    forall j | 0 <= j < |plan|
      ensures DepsPassed(plan, tasks, j) ==> DepsPassed(plan, after, j)
      ensures DepsBroken(plan, tasks, j) ==> DepsBroken(plan, after, j)
    {
      DepsStable(plan, tasks, after, j);
    }
  }

  lemma AdmittedUpdate(plan: Plan, s: State, i: nat, t: Task)
    requires |s.tasks| == |plan| && i < |plan| && Admitted(plan, s) && !s.tasks[i].status.Final()
    requires i in s.enqueued && !t.status.Skipped?
    ensures Admitted(plan, s.(tasks := s.tasks[i := t]))
  {
    hide DepsPassed;
    forall j | j in s.enqueued
      ensures DepsPassed(plan, s.tasks[i := t], j)
    {
      DepsStable(plan, s.tasks, s.tasks[i := t], j);
    }
  }

  lemma EnterInv(plan: Plan, tasks: seq<Task>, n: nat)
    requires |tasks| == |plan| && Justified(plan, tasks) && Bounded(tasks)
    requires forall i | 0 <= i < |tasks| :: !tasks[i].status.Running?
    ensures Inv(plan, EnterWith(tasks, n))
  {
    hide DepsPassed, DepsBroken;
  }

  lemma RecoveredJustified(plan: Plan, tasks: seq<Task>)
    requires |tasks| == |plan| && Justified(plan, tasks)
    ensures Justified(plan, Recovered(tasks)) && Grows(tasks, Recovered(tasks))
  {
    hide DepsPassed, DepsBroken;
    var after := Recovered(tasks);
    forall j | 0 <= j < |plan|
      ensures DepsPassed(plan, tasks, j) ==> DepsPassed(plan, after, j)
      ensures DepsBroken(plan, tasks, j) ==> DepsBroken(plan, after, j)
    {
      DepsStable(plan, tasks, after, j);
    }
  }

  lemma SkipInv(plan: Plan, s: State)
    requires Inv(plan, s) && s.disp.DepsRead? && DepsBroken(plan, s.tasks, s.disp.i)
    ensures Inv(plan, DispatchStep(plan, s).value)
  {
    hide DepsPassed, DepsBroken;
    var i := s.disp.i;
    var s' := DispatchStep(plan, s).value;
    JustifiedUpdate(plan, s.tasks, i, s.tasks[i].(status := Skipped));
    forall j | j in s.enqueued
      ensures DepsPassed(plan, s'.tasks, j)
    {
      DepsStable(plan, s.tasks, s'.tasks, j);
    }
  }

  lemma KeepsWorkers(s: State, s': State)
    requires WorkersAgree(s) && s'.tasks == s.tasks && s'.workers == s.workers
    ensures WorkersAgree(s')
  {
  }

  lemma AdmitInv(plan: Plan, s: State)
    requires Inv(plan, s) && s.disp.DepsRead? && s.disp.ok && !DepsBroken(plan, s.tasks, s.disp.i)
    ensures Inv(plan, DispatchStep(plan, s).value)
  {
    hide DepsPassed, DepsBroken, Justified, WorkerAgrees;
    KeepsWorkers(s, DispatchStep(plan, s).value);
  }

  lemma CloseInv(plan: Plan, s: State)
    requires Inv(plan, s) && s.disp.Closing? && s.disp.left > 0
    ensures Inv(plan, DispatchStep(plan, s).value)
  {
    hide DepsPassed, DepsBroken, Justified, WorkerAgrees;
    KeepsWorkers(s, DispatchStep(plan, s).value);
  }

  lemma DispatchInv(plan: Plan, s: State)
    requires Inv(plan, s) && DispatchStep(plan, s).Some?
    ensures Inv(plan, DispatchStep(plan, s).value)
  {
    if s.disp.DepsRead? && DepsBroken(plan, s.tasks, s.disp.i) {
      SkipInv(plan, s);
    } else if s.disp.DepsRead? && s.disp.ok {
      AdmitInv(plan, s);
    } else if s.disp.Closing? && s.disp.left > 0 {
      CloseInv(plan, s);
    } else {
      MoveInv(plan, s);
    }
  }

  /** The dispatcher moves on without admitting or skipping a task. */
  lemma MoveInv(plan: Plan, s: State)
    requires Inv(plan, s) && DispatchStep(plan, s).Some?
    requires s.disp.DepsRead? ==> !DepsBroken(plan, s.tasks, s.disp.i) && !s.disp.ok
    requires s.disp.Closing? ==> s.disp.left == 0
    ensures Inv(plan, DispatchStep(plan, s).value)
  {
    hide DepsPassed, DepsBroken, Justified, WorkerAgrees;
    var s' := DispatchStep(plan, s).value;
    assert s'.tasks == s.tasks && s'.workers == s.workers && s'.queue == s.queue && s'.enqueued == s.enqueued;
    KeepsWorkers(s, s');
  }

  /** A worker moves on without touching its task. */
  lemma PutInv(plan: Plan, s: State, w: nat, worker: Worker)
    requires Inv(plan, s) && w < |s.workers| && WorkerAgrees(s, worker)
    requires !worker.Idle? && !worker.Stopped? ==> s.workers[w].Holds(worker.i)
    ensures Inv(plan, Put(s, w, worker))
  {
    hide DepsPassed, DepsBroken, Justified;
  }

  /** A worker gives the task it holds a new status and moves on, still holding it. */
  lemma MarkInv(plan: Plan, s: State, w: nat, t: Task, worker: Worker)
    requires Inv(plan, s) && w < |s.workers| && !s.workers[w].Idle? && !s.workers[w].Stopped?
    requires !s.tasks[s.workers[w].i].status.Final()
    requires t.status.Running? || t.status.Passed? || t.status.Failed?
    requires t.attempts <= MAX_TASK_RETRIES
    requires worker.Holds(s.workers[w].i)
    requires var s' := Put(s, w, worker).(tasks := s.tasks[s.workers[w].i := t]); WorkerAgrees(s', worker)
    ensures Inv(plan, Put(s, w, worker).(tasks := s.tasks[s.workers[w].i := t]))
  {
    hide DepsPassed, DepsBroken, Justified;
    var i := s.workers[w].i;
    JustifiedUpdate(plan, s.tasks, i, t);
    AdmittedUpdate(plan, s, i, t);
    var s' := Put(s, w, worker).(tasks := s.tasks[i := t]);
    forall v | 0 <= v < |s'.workers|
      ensures WorkerAgrees(s', s'.workers[v])
    {
      assert v != w ==> WorkerAgrees(s, s.workers[v]) && !s.workers[v].Holds(i);
    }
    if s.disp.DepsRead? {
      DepsStable(plan, s.tasks, s'.tasks, s.disp.i);
    }
  }

  lemma SaveInv(plan: Plan, s: State)
    requires Inv(plan, s)
    ensures Inv(plan, s.(disk := s.tasks))
  {
    hide DepsPassed, DepsBroken, Justified;
  }

  lemma TakeInv(plan: Plan, s: State, w: nat)
    requires Inv(plan, s) && WorkStep(s, Take(w)).Some?
    ensures Inv(plan, WorkStep(s, Take(w)).value)
  {
    hide DepsPassed, DepsBroken, Justified;
    var s' := WorkStep(s, Take(w)).value;
    assert forall k | 0 <= k < |s'.queue| :: s'.queue[k] == s.queue[k + 1];
    if s.queue[0].Job? {
      assert forall v | 0 <= v < |s.workers| :: !s.workers[v].Holds(s.queue[0].i);
    }
    assert Owned(s');
  }

  lemma HoldersValid(s: State)
    requires Owned(s)
    ensures forall w | 0 <= w < |s.workers| && !s.workers[w].Idle? && !s.workers[w].Stopped? ::
              s.workers[w].i < |s.tasks|
  {
  }

  lemma StartInv(plan: Plan, s: State, w: nat, worktree: bool)
    requires Inv(plan, s) && WorkStep(s, Start(w, worktree)).Some?
    ensures Inv(plan, WorkStep(s, Start(w, worktree)).value)
  {
    HoldersValid(s);
    hide Owned, Admitted, Justified, DispatcherAgrees, Grows;
    var me := s.workers[w];
    assert WorkerAgrees(s, me);
    if s.shutdown {
      PutInv(plan, s, w, Stopped);
    } else if worktree {
      PutInv(plan, s, w, Trying(me.i, 1));
    } else {
      MarkInv(plan, s, w, s.tasks[me.i].(status := Failed), Saving(me.i));
    }
  }

  lemma BeginInv(plan: Plan, s: State, w: nat)
    requires Inv(plan, s) && WorkStep(s, Begin(w)).Some?
    ensures Inv(plan, WorkStep(s, Begin(w)).value)
  {
    HoldersValid(s);
    hide Owned, Admitted, Justified, DispatcherAgrees, Grows;
    var me := s.workers[w];
    assert WorkerAgrees(s, me);
    MarkInv(plan, s, w, Task(Running, me.attempt), InAgent(me.i, me.attempt));
    SaveInv(plan, Put(s, w, InAgent(me.i, me.attempt)).(tasks := s.tasks[me.i := Task(Running, me.attempt)]));
  }

  lemma AgentInv(plan: Plan, s: State, w: nat)
    requires Inv(plan, s) && WorkStep(s, Agent(w)).Some?
    ensures Inv(plan, WorkStep(s, Agent(w)).value)
  {
    HoldersValid(s);
    hide Owned, Admitted, Justified, DispatcherAgrees, Grows;
    var me := s.workers[w];
    assert WorkerAgrees(s, me);
    if s.shutdown {
      PutInv(plan, s, w, Idle);
      SaveInv(plan, Put(s, w, Idle));
    } else {
      PutInv(plan, s, w, Judging(me.i, me.attempt));
    }
  }

  lemma JudgeInv(plan: Plan, s: State, w: nat, result: Attempt)
    requires Inv(plan, s) && WorkStep(s, Judge(w, result)).Some?
    ensures Inv(plan, WorkStep(s, Judge(w, result)).value)
  {
    HoldersValid(s);
    hide Owned, Admitted, Justified, DispatcherAgrees, Grows;
    var me := s.workers[w];
    assert WorkerAgrees(s, me);
    match Verdict(me.attempt, result)
    case Some(status) => MarkInv(plan, s, w, s.tasks[me.i].(status := status), Saving(me.i));
    case None => PutInv(plan, s, w, Trying(me.i, me.attempt + 1));
  }

  lemma SavedInv(plan: Plan, s: State, w: nat)
    requires Inv(plan, s) && WorkStep(s, Save(w)).Some?
    ensures Inv(plan, WorkStep(s, Save(w)).value)
  {
    HoldersValid(s);
    hide Owned, Admitted, Justified, DispatcherAgrees, Grows;
    PutInv(plan, s, w, Idle);
    SaveInv(plan, Put(s, w, Idle));
  }

  lemma WorkInv(plan: Plan, s: State, e: Event)
    requires Inv(plan, s) && !e.Dispatch? && !e.Shutdown? && !e.Crash? && WorkStep(s, e).Some?
    ensures Inv(plan, WorkStep(s, e).value)
  {
    hide Inv, WorkStep;
    match e
    case Take(w) => TakeInv(plan, s, w);
    case Start(w, worktree) => StartInv(plan, s, w, worktree);
    case Begin(w) => BeginInv(plan, s, w);
    case Agent(w) => AgentInv(plan, s, w);
    case Judge(w, result) => JudgeInv(plan, s, w, result);
    case Save(w) => SavedInv(plan, s, w);
  }

  lemma StepInv(plan: Plan, s: State, e: Event)
    requires Inv(plan, s) && Step(plan, s, e).Some?
    ensures Inv(plan, Step(plan, s, e).value)
  {
    hide DispatchStep, WorkStep, DepsPassed, DepsBroken;
    match e
    case Dispatch => DispatchInv(plan, s);
    case Shutdown =>
    case Crash =>
      RecoveredJustified(plan, s.disk);
      EnterInv(plan, Recovered(s.disk), WorkerCount(plan, Recovered(s.disk)));
    case _ => WorkInv(plan, s, e);
  }

  lemma {:induction false} RunInv(plan: Plan, trace: seq<State>, events: seq<Event>, k: nat)
    requires Run(plan, trace, events) && Inv(plan, trace[0]) && k < |trace|
    ensures Inv(plan, trace[k])
  {
    hide Inv, Step;
    if k > 0 {
      RunInv(plan, trace, events, k - 1);
      assert Step(plan, trace[k - 1], events[k - 1]) == Some(trace[k - 1 + 1]);
      StepInv(plan, trace[k - 1], events[k - 1]);
    }
  }

  // ---------------------------------------------------------------- safety over whole runs

  lemma FreshInv(plan: Plan)
    ensures Inv(plan, Fresh(plan))
  {
    var tasks := seq(|plan|, _ => Task(Pending, 0));
    EnterInv(plan, tasks, WorkerCount(plan, tasks));
  }

  /** In every state of every run of a new sprint, through any number of stops, crashes and resumes:
      a task that runs or has run has all its known dependencies passed, a skipped one has a broken
      dependency, both in memory and on disk; no two workers hold one task, no held task is also
      queued, no task is queued twice; and no task has made more than three attempts. */
  lemma RunSafe(plan: Plan, trace: seq<State>, events: seq<Event>, k: nat)
    requires Run(plan, trace, events) && trace[0] == Fresh(plan) && k < |trace|
    ensures Justified(plan, trace[k].tasks) && Justified(plan, trace[k].disk)
    ensures forall v, w, i: nat | 0 <= v < w < |trace[k].workers| ::
              !(trace[k].workers[v].Holds(i) && trace[k].workers[w].Holds(i))
    ensures forall w, i: nat | 0 <= w < |trace[k].workers| && trace[k].workers[w].Holds(i) :: Job(i) !in trace[k].queue
    ensures forall l, m | 0 <= l < m < |trace[k].queue| && trace[k].queue[l].Job? :: trace[k].queue[l] != trace[k].queue[m]
    ensures Bounded(trace[k].tasks)
  {
    FreshInv(plan);
    RunInv(plan, trace, events, k);
  }

  lemma GrowsOn(a: seq<Task>, b: seq<Task>, c: seq<Task>)
    requires Grows(a, b) && Grows(b, c)
    ensures Grows(a, c)
  {
  }

  /** A step of a worker leaves finished tasks finished, and the state file as it was or else up to date. */
  lemma WorkGrows(plan: Plan, s: State, e: Event)
    requires Inv(plan, s) && !e.Dispatch? && !e.Shutdown? && !e.Crash? && WorkStep(s, e).Some?
    ensures var s' := WorkStep(s, e).value;
            Grows(s.tasks, s'.tasks) && (s'.disk == s.disk || s'.disk == s'.tasks) && s'.enqueued == s.enqueued
  {
    hide DepsPassed, DepsBroken, Justified, Admitted, Owned, Bounded;
    assert WorkerAgrees(s, s.workers[e.w]);
  }

  lemma DispatchGrows(plan: Plan, s: State)
    requires Inv(plan, s) && DispatchStep(plan, s).Some?
    ensures var s' := DispatchStep(plan, s).value;
            Grows(s.tasks, s'.tasks) && (s'.disk == s.disk || s'.disk == s'.tasks) && s.enqueued <= s'.enqueued
  {
    hide DepsPassed, DepsBroken, Justified, Admitted, Owned, Bounded, WorkersAgree;
  }

  /** What one step may do to finished tasks and to the set of admitted ones. */
  lemma StepGrows(plan: Plan, s: State, e: Event)
    requires Inv(plan, s) && Step(plan, s, e).Some?
    ensures var s' := Step(plan, s, e).value;
            && Grows(s.disk, s'.disk) && Grows(s.disk, s'.tasks)
            && (!e.Crash? ==> Grows(s.tasks, s'.tasks) && s.enqueued <= s'.enqueued)
  {
    hide Justified, Admitted, Owned, Bounded, WorkersAgree, DispatcherAgrees, DispatchStep, WorkStep, Grows;
    var s' := Step(plan, s, e).value;
    match e
    case Dispatch =>
      DispatchGrows(plan, s);
      GrowsOn(s.disk, s.tasks, s'.tasks);
      StillGrows(s.disk);
    case Shutdown => StillGrows(s.disk); StillGrows(s.tasks);
    case Crash => RecoveredGrows(s.disk);
    case _ =>
      WorkGrows(plan, s, e);
      GrowsOn(s.disk, s.tasks, s'.tasks);
      StillGrows(s.disk);
  }

  lemma StillGrows(tasks: seq<Task>)
    ensures Grows(tasks, tasks)
  {
  }

  lemma RecoveredGrows(tasks: seq<Task>)
    ensures Grows(tasks, Recovered(tasks))
  {
  }

  /** A final status on disk is never left again, whatever stops, crashes and resumes follow; and
      within one session no final status in memory is left either. */
  lemma {:induction false} FinalStays(plan: Plan, trace: seq<State>, events: seq<Event>, a: nat, b: nat)
    requires Run(plan, trace, events) && Inv(plan, trace[0]) && a <= b < |trace|
    ensures Grows(trace[a].disk, trace[b].disk) && Grows(trace[a].disk, trace[b].tasks)
    ensures Crash !in events[a..b] ==> Grows(trace[a].tasks, trace[b].tasks) && trace[a].enqueued <= trace[b].enqueued
  {
    hide Step;
    RunInv(plan, trace, events, a);
    if a < b {
      FinalStays(plan, trace, events, a, b - 1);
      RunInv(plan, trace, events, b - 1);
      assert Step(plan, trace[b - 1], events[b - 1]) == Some(trace[b - 1 + 1]);
      StepGrows(plan, trace[b - 1], events[b - 1]);
      assert events[a..b] == events[a..b - 1] + [events[b - 1]];
    }
  }

  /** This event, in this state, puts task `i` on the queue. */
  predicate Enqueues(plan: Plan, s: State, e: Event, i: nat) {
    && Shaped(plan, s) && Step(plan, s, e).Some?
    && Step(plan, s, e).value.queue == s.queue + [Job(i)]
  }

  lemma AppendsOnlyNew(plan: Plan, s: State, e: Event, i: nat)
    requires Inv(plan, s) && !e.Crash?
    ensures Enqueues(plan, s, e, i) ==> i !in s.enqueued && i in Step(plan, s, e).value.enqueued
  {
    hide DepsPassed, DepsBroken, Justified, Owned, Admitted, WorkersAgree;
    if Enqueues(plan, s, e, i) {
      var q := Step(plan, s, e).value.queue;
      assert q[|q| - 1] == Job(i) && |q| == |s.queue| + 1;
    }
  }

  /** Between two crashes no task is put on the queue twice. */
  lemma EnqueuedOnce(plan: Plan, trace: seq<State>, events: seq<Event>, a: nat, b: nat, i: nat)
    requires Run(plan, trace, events) && trace[0] == Fresh(plan)
    requires a < b < |events| && Crash !in events[a..b + 1]
    requires Enqueues(plan, trace[a], events[a], i)
    ensures !Enqueues(plan, trace[b], events[b], i)
  {
    hide DepsPassed, DepsBroken, Justified;
    FreshInv(plan);
    RunInv(plan, trace, events, b);
    FinalStays(plan, trace, events, a + 1, b);
    assert forall k | a + 1 <= k < b :: events[k] == events[a..b + 1][k - a];
    assert events[a] == events[a..b + 1][0] && events[b] == events[a..b + 1][b - a];
    RunInv(plan, trace, events, a);
    AppendsOnlyNew(plan, trace[a], events[a], i);
    AppendsOnlyNew(plan, trace[b], events[b], i);
  }

  // ---------------------------------------------------------------- what a crash forgets

  /** A crash and resume keep a finished task finished exactly when its status had been written. */
  lemma CrashKeepsExactly(plan: Plan, s: State, i: nat)
    requires Inv(plan, s) && i < |plan| && s.tasks[i].status.Final()
    ensures Step(plan, s, Crash).value.tasks[i].status == s.tasks[i].status <==> s.disk[i].status.Final()
  {
  }

  /** Every finished task has its status in the state file, unless a worker is just about to write it. */
  ghost predicate Written(s: State) {
    && |s.disk| == |s.tasks|
    && forall i | 0 <= i < |s.tasks| && s.tasks[i].status.Final() ::
         s.disk[i].status == s.tasks[i].status || SomeSaves(s, i)
  }

  ghost predicate SomeSaves(s: State, i: nat) {
    exists w :: 0 <= w < |s.workers| && s.workers[w] == Saving(i)
  }

  lemma SavingElsewhere(s: State, s': State, w: nat, i: nat)
    requires w < |s.workers| == |s'.workers| && s'.workers == s.workers[w := s'.workers[w]]
    requires SomeSaves(s, i) && s.workers[w] != Saving(i)
    ensures SomeSaves(s', i)
  {
    var v :| 0 <= v < |s.workers| && s.workers[v] == Saving(i);
    assert s'.workers[v] == Saving(i);
  }

  lemma WorkWrites(plan: Plan, s: State, e: Event)
    requires Inv(plan, s) && Written(s) && !e.Dispatch? && !e.Shutdown? && !e.Crash? && WorkStep(s, e).Some?
    ensures Written(WorkStep(s, e).value)
  {
    hide DepsPassed, DepsBroken, Justified, Admitted, Owned, Bounded, SomeSaves;
    var s' := WorkStep(s, e).value;
    assert WorkerAgrees(s, s.workers[e.w]);
    if s'.disk != s'.tasks {
      forall i | 0 <= i < |s'.tasks| && s'.tasks[i].status.Final()
        ensures s'.disk[i].status == s'.tasks[i].status || SomeSaves(s', i)
      {
        if s'.workers[e.w] == Saving(i) {
          SavesNow(s', e.w, i);
        } else if SomeSaves(s, i) {
          SavingElsewhere(s, s', e.w, i);
        }
      }
    }
  }

  lemma SavesNow(s: State, w: nat, i: nat)
    requires w < |s.workers| && s.workers[w] == Saving(i)
    ensures SomeSaves(s, i)
  {
  }

  lemma StepWrites(plan: Plan, s: State, e: Event)
    requires Inv(plan, s) && Written(s) && Step(plan, s, e).Some?
    ensures Written(Step(plan, s, e).value)
  {
    hide DepsPassed, DepsBroken, Justified, Admitted, Owned, Bounded, WorkersAgree, WorkStep;
    match e
    case Dispatch =>
    case Shutdown =>
    case Crash =>
    case _ => WorkWrites(plan, s, e);
  }

  /** Over every run, crashes included: the status of a finished task is in the state file or a worker stands before
      writing it; so only that can be lost, and a crash while nobody saves loses no finished task. */
  lemma {:induction false} OnlyUnsavedIsLost(plan: Plan, trace: seq<State>, events: seq<Event>, k: nat)
    requires Run(plan, trace, events) && trace[0] == Fresh(plan) && k < |trace|
    ensures Written(trace[k])
    ensures forall i: nat | i < |plan| && trace[k].tasks[i].status.Final() && !SomeSaves(trace[k], i) ::
              Step(plan, trace[k], Crash).value.tasks[i].status == trace[k].tasks[i].status
  {
    hide Inv, DispatchStep, WorkStep, SomeSaves, Written;
    RunWritten(plan, trace, events, k);
    FreshInv(plan);
    RunInv(plan, trace, events, k);
    forall i: nat | i < |plan| && trace[k].tasks[i].status.Final() && !SomeSaves(trace[k], i)
      ensures Step(plan, trace[k], Crash).value.tasks[i].status == trace[k].tasks[i].status
    {
      WrittenThere(trace[k], i);
      CrashKeepsExactly(plan, trace[k], i);
    }
  }

  lemma WrittenThere(s: State, i: nat)
    requires Written(s) && i < |s.tasks| && s.tasks[i].status.Final() && !SomeSaves(s, i)
    ensures i < |s.disk| && s.disk[i].status == s.tasks[i].status
  {
    hide SomeSaves;
  }

  lemma {:induction false} RunWritten(plan: Plan, trace: seq<State>, events: seq<Event>, k: nat)
    requires Run(plan, trace, events) && trace[0] == Fresh(plan) && k < |trace|
    ensures Written(trace[k])
  {
    hide Inv, Step, SomeSaves;
    if k > 0 {
      RunWritten(plan, trace, events, k - 1);
      FreshInv(plan);
      RunInv(plan, trace, events, k - 1);
      assert Step(plan, trace[k - 1], events[k - 1]) == Some(trace[k - 1 + 1]);
      StepWrites(plan, trace[k - 1], events[k - 1]);
    }
  }

  /** The gap is real: a crash right after a merge, before the save, sends a passed task back to
      pending, to be run and merged again. */
  lemma MergedThenForgotten() returns (plan: Plan, trace: seq<State>, events: seq<Event>)
    ensures Run(plan, trace, events) && trace[0] == Fresh(plan) && |plan| == 1 && |events| == 9
    ensures trace[8].tasks[0].status == Passed && trace[9].tasks[0].status == Pending
  {
    plan := [TaskDef("a", [])];
    var s0, s1, s2, s3 := AdmitsFirst(plan);
    var s4 := WorkStep(s3, Take(0)).value;
    var s5 := WorkStep(s4, Start(0, true)).value;
    var s6 := WorkStep(s5, Begin(0)).value;
    var s7 := WorkStep(s6, Agent(0)).value;
    var s8 := WorkStep(s7, Judge(0, Merged)).value;
    var s9 := Enter(plan, Recovered(s8.disk));
    hide WorkStep, DispatchStep, Enter;
    trace := [s0, s1, s2, s3, s4, s5, s6, s7, s8, s9];
    events := [Dispatch, Dispatch, Dispatch, Take(0), Start(0, true), Begin(0), Agent(0), Judge(0, Merged), Crash];
  }

  lemma AdmitsFirst(plan: Plan) returns (s0: State, s1: State, s2: State, s3: State)
    requires |plan| == 1 && plan[0].dependsOn == []
    ensures s0 == Fresh(plan) && Shaped(plan, s0) && Shaped(plan, s1) && Shaped(plan, s2) && Shaped(plan, s3)
    ensures Step(plan, s0, Dispatch) == Some(s1)
    ensures Step(plan, s1, Dispatch) == Some(s2)
    ensures Step(plan, s2, Dispatch) == Some(s3)
    ensures s3.tasks[0] == Task(Pending, 0) && !s3.shutdown && |s3.workers| == 1 && s3.workers[0] == Idle
    ensures |s3.queue| == 1 && s3.queue[0] == Job(0)
  {
    s0 := Fresh(plan);
    assert (set i | 0 <= i < |plan| && plan[i].dependsOn == [] && s0.tasks[i].status.Pending?) == {0};
    s1 := DispatchStep(plan, s0).value;
    s2 := DispatchStep(plan, s1).value;
    s3 := DispatchStep(plan, s2).value;
  }
}
