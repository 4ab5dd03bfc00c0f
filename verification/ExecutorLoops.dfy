/** The orchestrator's loops as they are written, over in-place task records: one dispatcher sweep,
    the retry loop of one task, and crash recovery. */
module ExecutorLoops {
  import opened Results
  import opened Executor
  import opened ExecutorSafety
  import opened ExecutorConfluence
  import opened ExecutorProgress

  /** The dispatcher's part of the state machine from `Scan(i)` to the end of its sweep. */
  function Sweep(plan: Plan, s: State): (s': State)
    requires Shaped(plan, s) && s.disp.Scan?
    ensures Shaped(plan, s')
    decreases |plan| - s.disp.next
  {
    if s.disp.next >= |plan| then s.(disp := CheckDone)
    else Sweep(plan, SweepOne(plan, s))
  }

  /** The loop body for one task. */
  function SweepOne(plan: Plan, s: State): (s': State)
    requires Shaped(plan, s) && s.disp.Scan? && s.disp.next < |plan|
    ensures Shaped(plan, s') && s'.disp == Scan(s.disp.next + 1)
  {
    var s1 := DispatchStep(plan, s).value;
    if s1.disp.Scan? then s1 else DispatchStep(plan, s1).value
  }

  /** A sweep is nothing but dispatcher steps. */
  lemma {:induction false} SweepIsDispatching(plan: Plan, world: World, s: State) returns (events: seq<Event>)
    requires Good(plan, s) && s.disp.Scan?
    ensures Play(plan, world, s, events) == Some(Sweep(plan, s))
    ensures forall k | 0 <= k < |events| :: events[k] == Dispatch
    decreases |plan| - s.disp.next
  {
    hide Good, SweepOne, Works, WorkLeft, DispatchStep, Play;
    GoodIsShaped(plan, s);
    SweepSteps(plan, s);
    var s1 := DispatcherPlays(plan, world, s);
    if s.disp.next >= |plan| {
      events := [Dispatch];
    } else if s1.disp.Scan? {
      var rest := SweepIsDispatching(plan, world, s1);
      PlayConcat(plan, world, s, [Dispatch], rest);
      events := [Dispatch] + rest;
    } else {
      var s2 := DispatcherPlays(plan, world, s1);
      var rest := SweepIsDispatching(plan, world, s2);
      PlayConcat(plan, world, s1, [Dispatch], rest);
      PlayConcat(plan, world, s, [Dispatch], [Dispatch] + rest);
      events := [Dispatch] + ([Dispatch] + rest);
    }
  }

  lemma GoodIsShaped(plan: Plan, s: State)
    requires Good(plan, s)
    ensures Shaped(plan, s)
  {
  }

  /** While it scans, the dispatcher always has a next step; one that ends the scan, or reads a task's dependencies, or
      passes over the task. */
  lemma SweepSteps(plan: Plan, s: State)
    requires Shaped(plan, s) && s.disp.Scan?
    ensures var r := DispatchStep(plan, s);
            && r.Some? && Shaped(plan, r.value)
            && if s.disp.next >= |plan| then r == Some(s.(disp := CheckDone))
               else if r.value.disp.Scan? then SweepOne(plan, s) == r.value
               else DispatchStep(plan, r.value) == Some(SweepOne(plan, s))
  {
    hide DepsPassed, DepsBroken;
  }

  /** A sweep does not look at the pool or the stop flag, and leaves both alone. */
  lemma {:induction false} SweepIgnoresPool(plan: Plan, s: State, workers: seq<Worker>, stop: bool)
    requires Shaped(plan, s) && s.disp.Scan?
    ensures Sweep(plan, s.(workers := workers, shutdown := stop))
            == Sweep(plan, s).(workers := workers, shutdown := stop)
    decreases |plan| - s.disp.next
  {
    hide KnownDeps;
    if s.disp.next < |plan| {
      assert SweepOne(plan, s.(workers := workers, shutdown := stop))
             == SweepOne(plan, s).(workers := workers, shutdown := stop);
      SweepIgnoresPool(plan, SweepOne(plan, s), workers, stop);
    }
  }

  /** So whatever pool is running beside it, the sweep of a view without one is a sequence of dispatcher steps. */
  lemma ViewSweepIsDispatching(plan: Plan, world: World, view: State, workers: seq<Worker>)
    returns (events: seq<Event>)
    requires Good(plan, view.(workers := workers, shutdown := false)) && view.disp.Scan?
    ensures Shaped(plan, view) && Play(plan, world, view.(workers := workers, shutdown := false), events)
            == Some(Sweep(plan, view).(workers := workers, shutdown := false))
    ensures forall k | 0 <= k < |events| :: events[k] == Dispatch
  {
    SameShape(plan, view, workers);
    hide Inv, Live, Play;
    SweepIgnoresPool(plan, view, workers, false);
    events := SweepIsDispatching(plan, world, view.(workers := workers, shutdown := false));
  }

  lemma SameShape(plan: Plan, view: State, workers: seq<Worker>)
    requires Inv(plan, view.(workers := workers, shutdown := false))
    ensures Shaped(plan, view) && Shaped(plan, view.(workers := workers, shutdown := false))
  {
  }

  /** A sweep makes no task pass or run, so what it decides it decides alike for the whole list:
      afterwards a pending task that is not on its way has a dependency that has not passed, and a
      task whose dependencies were already broken when the sweep began is skipped. */
  lemma {:induction false} SweepSettles(plan: Plan, s: State, i: nat)
    requires Shaped(plan, s) && s.disp.Scan? && s.disp.next <= i < |plan|
    requires s.tasks[i].status.Pending? && i !in s.enqueued
    ensures var s' := Sweep(plan, s);
            && DepsPassed(plan, s'.tasks, i) == DepsPassed(plan, s.tasks, i)
            && (i in s'.enqueued <==> DepsPassed(plan, s.tasks, i) && s'.tasks[i].status.Pending?)
            && (DepsBroken(plan, s.tasks, i) ==> s'.tasks[i].status.Skipped?)
    decreases |plan| - s.disp.next
  {
    hide KnownDeps;
    SweepBody(plan, s, i);
    var s1 := SweepOne(plan, s);
    if s.disp.next == i {
      SweepKeeps(plan, s1, i);
    } else {
      SweepSettles(plan, s1, i);
    }
  }

  lemma SweepBody(plan: Plan, s: State, i: nat)
    requires Shaped(plan, s) && s.disp.Scan? && s.disp.next <= i < |plan|
    ensures var s' := SweepOne(plan, s);
            && DepsPassed(plan, s'.tasks, i) == DepsPassed(plan, s.tasks, i)
            && (DepsBroken(plan, s.tasks, i) ==> DepsBroken(plan, s'.tasks, i))
            && (s.disp.next < i ==> s'.tasks[i] == s.tasks[i] && (i in s'.enqueued <==> i in s.enqueued))
  {
  }

  lemma {:induction false} SweepKeeps(plan: Plan, s: State, i: nat)
    requires Shaped(plan, s) && s.disp.Scan? && i < s.disp.next && i < |plan|
    ensures var s' := Sweep(plan, s);
            && DepsPassed(plan, s'.tasks, i) == DepsPassed(plan, s.tasks, i)
            && s'.tasks[i] == s.tasks[i] && (i in s'.enqueued <==> i in s.enqueued)
    decreases |plan| - s.disp.next
  {
    if s.disp.next < |plan| {
      SweepKeeps(plan, SweepOne(plan, s), i);
    }
  }

  /** The task record once attempts from number `k` on were made: decided by the first attempt that ends it, or
      left running by the first one during which a stop request is seen. */
  function Attempted(world: World, i: nat, k: nat, stopped: nat -> bool): (t: Task)
    requires 1 <= k <= MAX_TASK_RETRIES
    ensures k <= t.attempts <= MAX_TASK_RETRIES
    ensures forall j | k <= j < t.attempts :: !stopped(j) && Verdict(j, world.attempt(i, j)) == None
    ensures if stopped(t.attempts) then t.status == Running
            else Verdict(t.attempts, world.attempt(i, t.attempts)) == Some(t.status)
    decreases MAX_TASK_RETRIES - k
  {
    if stopped(k) then Task(Running, k)
    else match Verdict(k, world.attempt(i, k))
      case Some(status) => Task(status, k)
      case None => Attempted(world, i, k + 1, stopped)
  }

  /** The record after the last attempt made: each attempt before it saw no stop request and was retried; it is left
      running if a stop request was seen during it, and otherwise passed if merged and failed if not, which without a
      decisive end takes the third attempt. */
  ghost predicate Decided(world: World, i: nat, stopped: nat -> bool, t: Task) {
    && 1 <= t.attempts <= 3 && AllRetried(world, i, t.attempts)
    && (forall j: nat | 1 <= j < t.attempts :: !stopped(j))
    && if stopped(t.attempts) then t.status == Running
       else
         && t.status == (if world.attempt(i, t.attempts) == Merged then Passed else Failed)
         && (Retried(world.attempt(i, t.attempts)) ==> t.attempts == 3)
  }

  lemma {:induction false} AttemptedExactly(world: World, i: nat, k: nat, stopped: nat -> bool)
    requires 1 <= k <= 3 && AllRetried(world, i, k) && forall j: nat | 1 <= j < k :: !stopped(j)
    ensures Decided(world, i, stopped, Attempted(world, i, k, stopped))
    ensures var t := Attempted(world, i, k, stopped);
            !stopped(t.attempts) ==> t.status == AttemptsFrom(world, i, k)
    decreases 3 - k
  {
    if !stopped(k) && Retried(world.attempt(i, k)) && k < 3 {
      AttemptedExactly(world, i, k + 1, stopped);
    }
  }

  lemma FirstAttempt(world: World, i: nat)
    ensures world.worktree(i) ==> OwnOutcome(world, i) == AttemptsFrom(world, i, 1)
  {
  }

  /** The run's mutable data: task records updated in place, the state file, and the queue. */
  class Orchestrator {
    const plan: Plan
    const tasks: array<Task>
    var disk: seq<Task>
    var enqueued: set<nat>
    var queue: seq<Item>

    ghost predicate Valid()
      reads this, tasks
    {
      tasks.Length == |plan| && |disk| == |plan|
    }

    /** The state-machine state this data stands for, with the dispatcher at `d`. */
    ghost function View(d: Dispatcher): State
      reads this, tasks
    {
      State(tasks[..], disk, enqueued, queue, [], d, false)
    }

    constructor (plan: Plan, loaded: seq<Task>)
      requires |loaded| == |plan|
      ensures Valid() && fresh(tasks) && this.plan == plan
      ensures View(Top) == EnterWith(loaded, 0)
    {
      this.plan := plan;
      tasks := new Task[|loaded|](i requires 0 <= i < |loaded| => loaded[i]);
      disk, enqueued, queue := loaded, {}, [];
      new;
      assert tasks[..] == loaded;
    }

    /** One pass over the task list under the state lock. */
    method ScanTasks()
      requires Valid()
      modifies this, tasks
      ensures Valid() && View(CheckDone) == Sweep(plan, old(View(Scan(0))))
    {
      var i := 0;
      while i < |plan|
        invariant i <= |plan| && Valid()
        invariant Sweep(plan, View(Scan(i))) == Sweep(plan, old(View(Scan(0))))
      {
        Consider(i);
        i := i + 1;
      }
    }

    /** The dispatcher's decision on one task. */
    method Consider(i: nat)
      requires Valid() && i < |plan|
      modifies this, tasks
      ensures Valid() && View(Scan(i + 1)) == SweepOne(plan, old(View(Scan(i))))
    {
      ghost var s := View(Scan(i));
      if i in enqueued || !tasks[i].status.Pending? {
        return;
      }
      var depsOk := forall j | 0 <= j < |plan| && plan[j].id in plan[i].dependsOn :: tasks[j].status.Passed?;
      var depsFailed := exists j | 0 <= j < |plan| && plan[j].id in plan[i].dependsOn :: tasks[j].status.Broken();
      assert depsOk <==> DepsPassed(plan, s.tasks, i);
      assert depsFailed <==> DepsBroken(plan, s.tasks, i);
      if depsFailed {
        tasks[i] := tasks[i].(status := Skipped);
        disk := tasks[..];
      } else if depsOk {
        enqueued, queue := enqueued + {i}, queue + [Job(i)];
      }
    }

    /** Reset what a crash left running; everything else stays as the state file had it. */
    method RecoverCrashed()
      requires Valid()
      modifies tasks
      ensures tasks[..] == Recovered(old(tasks[..]))
      ensures forall k | 0 <= k < tasks.Length ::
                tasks[k] == if old(tasks[k]).status == Running then old(tasks[k]).(status := Pending) else old(tasks[k])
    {
      for i := 0 to tasks.Length
        invariant forall k | 0 <= k < i :: tasks[k] == Recovered(old(tasks[..]))[k]
        invariant forall k | i <= k < tasks.Length :: tasks[k] == old(tasks[k])
      {
        if tasks[i].status.Running? {
          tasks[i] := tasks[i].(status := Pending);
        }
      }
    }

    /** Run one task, exactly as its attempts and stop requests dictate. `stopped(k)` says whether a stop
        request is seen during attempt k. Without one it ends with its own outcome after at most three
        attempts; with one it stays running. */
    method ExecuteTask(i: nat, world: World, stopped: nat -> bool)
      requires Valid() && i < |plan|
      modifies this`disk, tasks
      ensures Valid()
      ensures forall j | 0 <= j < |plan| && j != i :: tasks[j] == old(tasks[j])
      ensures tasks[i] == if world.worktree(i) then Attempted(world, i, 1, stopped) else old(tasks[i]).(status := Failed)
      ensures world.worktree(i) ==> Decided(world, i, stopped, tasks[i])
      ensures world.worktree(i) ==>
                if stopped(tasks[i].attempts) then tasks[i].status == Running
                else tasks[i].status == if Succeeds(world, i) then Passed else Failed
      ensures disk == tasks[..]
    {
      hide Succeeds, OwnOutcome, Decided, AttemptsFrom, Verdict;
      OutcomeExactly(world, i);
      AttemptedExactly(world, i, 1, stopped);
      FirstAttempt(world, i);
      if !world.worktree(i) {
        tasks[i] := tasks[i].(status := Failed);
        disk := tasks[..];
        return;
      }
      var attempt := 1;
      while true
        invariant 1 <= attempt <= MAX_TASK_RETRIES && Valid()
        invariant forall j | 0 <= j < |plan| && j != i :: tasks[j] == old(tasks[j])
        invariant Attempted(world, i, attempt, stopped) == Attempted(world, i, 1, stopped)
        decreases MAX_TASK_RETRIES - attempt
      {
        tasks[i] := Task(Running, attempt);
        disk := tasks[..];
        if stopped(attempt) {
          return;
        }
        var verdict := Verdict(attempt, world.attempt(i, attempt));
        if verdict.Some? {
          tasks[i] := tasks[i].(status := verdict.value);
          disk := tasks[..];
          return;
        }
        attempt := attempt + 1;
      }
    }
  }
}
