/** The final statuses of a sprint do not depend on scheduling: they are a function of the
    dependency graph and of how each task's own attempts end. */
module ExecutorConfluence {
  import opened Results
  import opened Executor
  import opened ExecutorSafety

  /** What the outside world answers: is a worktree created, and how does attempt k of task i end. */
  datatype World = World(worktree: nat -> bool, attempt: (nat, nat) -> Attempt)

  /** The event gives the world's answer wherever the world is asked. */
  predicate Obeys(world: World, s: State, e: Event) {
    && (e.Start? && e.w < |s.workers| && s.workers[e.w].Taken? ==> e.worktree == world.worktree(s.workers[e.w].i))
    && (e.Judge? && e.w < |s.workers| && s.workers[e.w].Judging? ==>
          e.result == world.attempt(s.workers[e.w].i, s.workers[e.w].attempt))
  }

  /** How a task ends when its attempts from number `k` on are made. */
  function AttemptsFrom(world: World, i: nat, k: nat): Status
    requires 1 <= k <= MAX_TASK_RETRIES
    decreases MAX_TASK_RETRIES - k
  {
    match Verdict(k, world.attempt(i, k))
    case Some(status) => status
    case None => AttemptsFrom(world, i, k + 1)
  }

  function OwnOutcome(world: World, i: nat): Status {
    if world.worktree(i) then AttemptsFrom(world, i, 1) else Failed
  }

  /** After such an attempt another one is made, if there is one left. */
  predicate Retried(a: Attempt) {
    a == NoChanges || a == TestsFailed || a == Conflict(true)
  }

  /** A worktree is made, and one of at most three attempts ends in a merge with nothing but retries before it. */
  ghost predicate Succeeds(world: World, i: nat) {
    && world.worktree(i)
    && exists k: nat :: 1 <= k <= 3 && world.attempt(i, k) == Merged && AllRetried(world, i, k)
  }

  predicate AllRetried(world: World, i: nat, k: nat) {
    forall j: nat | 1 <= j < k :: Retried(world.attempt(i, j))
  }

  /** A task left to itself passes exactly when it succeeds in this sense, and otherwise fails. */
  lemma OutcomeExactly(world: World, i: nat)
    ensures OwnOutcome(world, i) == if Succeeds(world, i) then Passed else Failed
  {
    if world.worktree(i) {
      FromAttempt(world, i, 1);
    }
  }

  lemma {:induction false} FromAttempt(world: World, i: nat, k: nat)
    requires 1 <= k <= 3 && AllRetried(world, i, k)
    ensures AttemptsFrom(world, i, k)
            == if exists m: nat :: k <= m <= 3 && world.attempt(i, m) == Merged && AllRetried(world, i, m)
               then Passed else Failed
    decreases 3 - k
  {
    if Retried(world.attempt(i, k)) && k < 3 {
      FromAttempt(world, i, k + 1);
    } else if world.attempt(i, k) != Merged {
      forall m: nat | k < m && AllRetried(world, i, m)
        ensures Retried(world.attempt(i, k))
      {
      }
    }
  }

  /** Dependencies are acyclic: each has a smaller rank. */
  predicate Ranked(plan: Plan, rank: seq<nat>) {
    && |rank| == |plan|
    && forall i, j | 0 <= i < |plan| && j in KnownDeps(plan, i) :: rank[j] < rank[i]
  }

  /** The status task `i` must end with: kept if it was final at the start, Skipped if some known
      dependency ends broken, and its own outcome otherwise. */
  function Expected(plan: Plan, world: World, init: seq<Task>, rank: seq<nat>, i: nat): Status
    requires Ranked(plan, rank) && |init| == |plan| && i < |plan|
    decreases rank[i]
  {
    if init[i].status.Final() then init[i].status
    else if exists j <- KnownDeps(plan, i) :: Expected(plan, world, init, rank, j).Broken() then Skipped
    else OwnOutcome(world, i)
  }

  /** A state the execute phase can be entered with: fresh, or recovered after a crash. */
  predicate Startable(plan: Plan, tasks: seq<Task>) {
    && |tasks| == |plan| && Justified(plan, tasks) && Bounded(tasks)
    && forall i | 0 <= i < |tasks| :: !tasks[i].status.Running?
  }

  /** A run of one session in this world, from the given statuses and with any number of workers. */
  predicate Session(plan: Plan, world: World, init: seq<Task>, trace: seq<State>, events: seq<Event>) {
    && Startable(plan, init)
    && Run(plan, trace, events)
    && trace[0] == EnterWith(init, |trace[0].workers|)
    && (forall k | 0 <= k < |events| :: !events[k].Crash? && Obeys(world, trace[k], events[k]))
  }

  predicate OnTrack(world: World, me: Worker) {
    (me.Trying? || me.InAgent? || me.Judging?) ==>
      1 <= me.attempt <= MAX_TASK_RETRIES && AttemptsFrom(world, me.i, me.attempt) == OwnOutcome(world, me.i)
  }

  predicate AsExpected(plan: Plan, world: World, init: seq<Task>, rank: seq<nat>, s: State)
    requires Ranked(plan, rank) && |init| == |plan| && |s.tasks| == |plan|
  {
    && Grows(init, s.tasks)
    && (forall i | 0 <= i < |plan| && s.tasks[i].status.Final() ::
          s.tasks[i].status == Expected(plan, world, init, rank, i))
    && (forall w | 0 <= w < |s.workers| :: OnTrack(world, s.workers[w]))
  }

  /** The expected status of a task whose dependencies have all been decided one way or the other. */
  lemma ExpectedOf(plan: Plan, world: World, init: seq<Task>, rank: seq<nat>, s: State, i: nat)
    requires Ranked(plan, rank) && |init| == |plan| && |s.tasks| == |plan| && i < |plan|
    requires AsExpected(plan, world, init, rank, s) && !s.tasks[i].status.Final()
    ensures DepsPassed(plan, s.tasks, i) ==> Expected(plan, world, init, rank, i) == OwnOutcome(world, i)
    ensures DepsBroken(plan, s.tasks, i) ==> Expected(plan, world, init, rank, i) == Skipped
  {
    hide OwnOutcome;
    if DepsPassed(plan, s.tasks, i) {
      forall j | j in KnownDeps(plan, i)
        ensures !Expected(plan, world, init, rank, j).Broken()
      {
        assert s.tasks[j].status.Passed?;
      }
    }
    if DepsBroken(plan, s.tasks, i) {
      var j :| j in KnownDeps(plan, i) && s.tasks[j].status.Broken();
      assert Expected(plan, world, init, rank, j).Broken();
    }
  }

  lemma DispatchAsExpected(plan: Plan, world: World, init: seq<Task>, rank: seq<nat>, s: State)
    requires Ranked(plan, rank) && |init| == |plan| && Inv(plan, s) && AsExpected(plan, world, init, rank, s)
    requires DispatchStep(plan, s).Some?
    ensures AsExpected(plan, world, init, rank, DispatchStep(plan, s).value)
  {
    hide DepsPassed, DepsBroken, Justified, Expected, OnTrack, Owned, WorkersAgree, Admitted;
    if s.disp.DepsRead? {
      ExpectedOf(plan, world, init, rank, s, s.disp.i);
    }
  }

  /** Finishing a held task with its own outcome is what was expected of it. */
  lemma FinishAsExpected(plan: Plan, world: World, init: seq<Task>, rank: seq<nat>, s: State, w: nat, status: Status)
    requires Ranked(plan, rank) && |init| == |plan| && Inv(plan, s) && AsExpected(plan, world, init, rank, s)
    requires w < |s.workers| && !s.workers[w].Idle? && !s.workers[w].Stopped? && s.workers[w].i < |s.tasks|
    requires !s.tasks[s.workers[w].i].status.Final() && status == OwnOutcome(world, s.workers[w].i)
    ensures AsExpected(plan, world, init, rank, Mark(s, w, s.workers[w].i, status, Saving(s.workers[w].i)))
  {
    hide DepsPassed, DepsBroken, Justified, Expected, OwnOutcome, WorkersAgree;
    ExpectedOf(plan, world, init, rank, s, s.workers[w].i);
  }

  lemma WorkAsExpected(plan: Plan, world: World, init: seq<Task>, rank: seq<nat>, s: State, e: Event)
    requires Ranked(plan, rank) && |init| == |plan| && Inv(plan, s) && AsExpected(plan, world, init, rank, s)
    requires !e.Dispatch? && !e.Shutdown? && !e.Crash? && WorkStep(s, e).Some? && Obeys(world, s, e)
    ensures AsExpected(plan, world, init, rank, WorkStep(s, e).value)
  {
    hide DepsPassed, DepsBroken, Justified, Expected, Owned, Admitted;
    var me := s.workers[e.w];
    assert WorkerAgrees(s, me) && OnTrack(world, me);
    if e.Start? && !s.shutdown && !e.worktree {
      FinishAsExpected(plan, world, init, rank, s, e.w, Failed);
    } else if e.Judge? && Verdict(me.attempt, e.result).Some? {
      FinishAsExpected(plan, world, init, rank, s, e.w, Verdict(me.attempt, e.result).value);
    }
  }

  lemma {:induction false} SessionAsExpected(
      plan: Plan, world: World, init: seq<Task>, rank: seq<nat>, trace: seq<State>, events: seq<Event>, k: nat)
    requires Ranked(plan, rank) && Session(plan, world, init, trace, events) && k < |trace|
    ensures AsExpected(plan, world, init, rank, trace[k])
  {
    hide DispatchStep, WorkStep, Inv, Expected, Justified, Obeys, Grows;
    EnterInv(plan, init, |trace[0].workers|);
    if k == 0 {
      StartAsExpected(plan, world, init, rank, trace[0]);
    } else {
      SessionAsExpected(plan, world, init, rank, trace, events, k - 1);
      RunInv(plan, trace, events, k - 1);
      var s, e := trace[k - 1], events[k - 1];
      assert Step(plan, s, e) == Some(trace[k - 1 + 1]);
      assert Obeys(world, s, e) && !e.Crash?;
      if e.Dispatch? {
        DispatchAsExpected(plan, world, init, rank, s);
      } else if !e.Shutdown? {
        WorkAsExpected(plan, world, init, rank, s, e);
      }
    }
  }

  lemma StartAsExpected(plan: Plan, world: World, init: seq<Task>, rank: seq<nat>, s: State)
    requires Ranked(plan, rank) && |init| == |plan| && s.tasks == init
    requires forall w | 0 <= w < |s.workers| :: s.workers[w] == Idle
    ensures AsExpected(plan, world, init, rank, s)
  {
  }

  /** Whatever the interleaving, the number of workers, or the moment of a stop: every task that has
      reached a final status has the expected one. A session that finishes all tasks therefore ends
      in exactly the expected statuses. */
  lemma Deterministic(
      plan: Plan, world: World, init: seq<Task>, rank: seq<nat>, trace: seq<State>, events: seq<Event>, k: nat, i: nat)
    requires Ranked(plan, rank) && Session(plan, world, init, trace, events) && k < |trace| && i < |plan|
    requires trace[k].tasks[i].status.Final()
    ensures trace[k].tasks[i].status == Expected(plan, world, init, rank, i)
  {
    SessionAsExpected(plan, world, init, rank, trace, events, k);
  }

  /** Two sessions over the same sprint in the same world that both finish end alike. */
  lemma Confluent(
      plan: Plan, world: World, init: seq<Task>, rank: seq<nat>,
      t1: seq<State>, e1: seq<Event>, t2: seq<State>, e2: seq<Event>, k1: nat, k2: nat)
    requires Ranked(plan, rank) && k1 < |t1| && k2 < |t2|
    requires Session(plan, world, init, t1, e1) && Session(plan, world, init, t2, e2)
    requires AllFinal(t1[k1].tasks) && AllFinal(t2[k2].tasks)
    ensures forall i | 0 <= i < |plan| :: t1[k1].tasks[i].status == t2[k2].tasks[i].status
    ensures Returned(t1[k1].tasks) <==> Returned(t2[k2].tasks)
  {
    hide Expected, Inv;
    forall i | 0 <= i < |plan|
      ensures t1[k1].tasks[i].status == t2[k2].tasks[i].status
    {
      Deterministic(plan, world, init, rank, t1, e1, k1, i);
      Deterministic(plan, world, init, rank, t2, e2, k2, i);
    }
  }

  /** In a finished fresh sprint a task is skipped exactly when some known dependency failed or was
      skipped; otherwise it passed if one of three attempts could be merged and failed if none could. */
  lemma FinishedSprint(
      plan: Plan, world: World, rank: seq<nat>, trace: seq<State>, events: seq<Event>, k: nat, i: nat)
    requires Ranked(plan, rank) && trace != [] && trace[0] == Fresh(plan)
    requires Session(plan, world, trace[0].tasks, trace, events) && k < |trace| && i < |plan|
    requires AllFinal(trace[k].tasks)
    ensures trace[k].tasks[i].status.Skipped? <==> DepsBroken(plan, trace[k].tasks, i)
    ensures !DepsBroken(plan, trace[k].tasks, i) ==>
              trace[k].tasks[i].status == if Succeeds(world, i) then Passed else Failed
  {
    hide OwnOutcome, Succeeds;
    OutcomeExactly(world, i);
    var init := trace[0].tasks;
    SessionAsExpected(plan, world, init, rank, trace, events, k);
    EnterInv(plan, init, |trace[0].workers|);
    RunInv(plan, trace, events, k);
    var s := trace[k];
    assert !init[i].status.Final();
    if DepsBroken(plan, s.tasks, i) {
      var j :| j in KnownDeps(plan, i) && s.tasks[j].status.Broken();
      assert Expected(plan, world, init, rank, j).Broken();
    } else {
      forall j | j in KnownDeps(plan, i)
        ensures !Expected(plan, world, init, rank, j).Broken()
      {
        assert s.tasks[j].status.Final();
      }
    }
  }
}
