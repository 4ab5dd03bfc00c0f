/** When a sprint ends, and what the value it then returns is worth. */
module ExecutorTermination {
  import opened Results
  import opened Executor
  import opened ExecutorSafety
  import opened ExecutorConfluence
  import opened ExecutorProgress

  // ---------------------------------------------------------------- every state of a run

  /** A run that was entered with a task list and a non-empty pool. */
  predicate EnteredRun(plan: Plan, trace: seq<State>, events: seq<Event>) {
    && Run(plan, trace, events)
    && trace[0].workers != [] && Startable(plan, trace[0].tasks)
    && trace[0] == EnterWith(trace[0].tasks, |trace[0].workers|)
  }

  /** A new sprint is entered with such a list and pool. */
  lemma FreshEnters(plan: Plan, trace: seq<State>, events: seq<Event>)
    requires Run(plan, trace, events) && trace[0] == Fresh(plan)
    ensures EnteredRun(plan, trace, events)
  {
    PoolIsNonEmpty(plan, seq(|plan|, _ => Task(Pending, 0)));
  }

  lemma EnteredInv(plan: Plan, trace: seq<State>, events: seq<Event>)
    requires EnteredRun(plan, trace, events)
    ensures Inv(plan, trace[0])
  {
    EnterInv(plan, trace[0].tasks, |trace[0].workers|);
  }

  /** In every state of every run, crashes and resumes included, in which no stop was requested since the run
      was last entered, nothing is lost and the pool is up. */
  lemma {:induction false} RunGood(plan: Plan, trace: seq<State>, events: seq<Event>, k: nat)
    requires EnteredRun(plan, trace, events) && k < |trace| && !trace[k].shutdown
    ensures Good(plan, trace[k])
  {
    hide Inv, Live, Step;
    EnteredInv(plan, trace, events);
    if k == 0 {
      EnterLive(plan, trace[0].tasks, |trace[0].workers|);
    } else {
      RunInv(plan, trace, events, k);
      RunInv(plan, trace, events, k - 1);
      var s, e := trace[k - 1], events[k - 1];
      assert Step(plan, s, e) == Some(trace[k - 1 + 1]);
      if e.Crash? {
        ResumeLive(plan, s);
      } else {
        StopStays(plan, s, e);
        RunGood(plan, trace, events, k - 1);
        StepLive(plan, s, e);
      }
    }
  }

  lemma ResumeLive(plan: Plan, s: State)
    requires Shaped(plan, s)
    ensures Step(plan, s, Crash).Some? && Shaped(plan, Step(plan, s, Crash).value) && Live(plan, Step(plan, s, Crash).value)
  {
    PoolIsNonEmpty(plan, Recovered(s.disk));
    EnterLive(plan, Recovered(s.disk), WorkerCount(plan, Recovered(s.disk)));
    hide Live;
  }

  /** Only a resume takes a stop request back. */
  lemma StopStays(plan: Plan, s: State, e: Event)
    requires Shaped(plan, s) && !e.Crash? && Step(plan, s, e).Some?
    ensures s.shutdown || e.Shutdown? <==> Step(plan, s, e).value.shutdown
  {
  }

  /** Progress: in every such state of a run on an acyclic sprint, while some task is undecided, some enabled
      sequence of steps, whatever the world answers, lowers the work left. */
  lemma Progress(plan: Plan, world: World, rank: seq<nat>, trace: seq<State>, events: seq<Event>, k: nat)
    returns (more: seq<Event>, t: State)
    requires Ranked(plan, rank) && EnteredRun(plan, trace, events) && k < |trace| && !trace[k].shutdown
    requires !AllFinal(trace[k].tasks)
    ensures Shaped(plan, trace[k]) && Play(plan, world, trace[k], more) == Some(t)
    ensures WorkLeft(t) < WorkLeft(trace[k])
  {
    RunGood(plan, trace, events, k);
    hide Inv, WorkLeft, Play;
    more, t := ProgressFrom(plan, world, rank, trace[k]);
  }

  /** From every state of every run on an acyclic sprint, fresh or resumed, in which no stop was requested since
      the run was last entered, the run can be played to its regular end, whatever the world answers. */
  lemma CanFinish(plan: Plan, world: World, rank: seq<nat>, trace: seq<State>, events: seq<Event>, k: nat)
    returns (more: seq<Event>, t: State)
    requires Ranked(plan, rank) && EnteredRun(plan, trace, events) && k < |trace| && !trace[k].shutdown
    ensures Shaped(plan, trace[k]) && Play(plan, world, trace[k], more) == Some(t)
    ensures t.disp == Exited(AllDone) && AllFinal(t.tasks)
  {
    RunGood(plan, trace, events, k);
    hide Inv, Play;
    more, t := FinishFrom(plan, world, rank, trace[k]);
  }

  // ---------------------------------------------------------------- what the return value means

  predicate AllPassed(tasks: seq<Task>) {
    forall i | 0 <= i < |tasks| :: tasks[i].status.Passed?
  }

  predicate Leaving(d: Dispatcher) {
    (d.Closing? || d.Exited?) && d.why == AllDone
  }

  /** Once the dispatcher leaves because all is done, all is and stays done. */
  lemma {:induction false} LeavingIsDone(plan: Plan, trace: seq<State>, events: seq<Event>, k: nat)
    requires EnteredRun(plan, trace, events) && k < |trace| && Leaving(trace[k].disp)
    ensures AllFinal(trace[k].tasks)
  {
    hide Inv, Step, Startable;
    if k > 0 {
      EnteredInv(plan, trace, events);
      var s, e := trace[k - 1], events[k - 1];
      RunInv(plan, trace, events, k - 1);
      assert Step(plan, s, e) == Some(trace[k - 1 + 1]);
      LeavesWhenDone(plan, s, e);
      if Leaving(s.disp) {
        LeavingIsDone(plan, trace, events, k - 1);
        StepGrows(plan, s, e);
      }
    }
  }

  lemma LeavesWhenDone(plan: Plan, s: State, e: Event)
    requires Shaped(plan, s) && Step(plan, s, e).Some? && Leaving(Step(plan, s, e).value.disp)
    ensures !e.Crash? && (Leaving(s.disp) || AllFinal(Step(plan, s, e).value.tasks))
  {
  }

  /** Over every run, stops, crashes and resumes included: at the regular exit every task is decided and the
      value returned is true exactly when every task passed. */
  lemma RegularExitTellsTheTruth(plan: Plan, trace: seq<State>, events: seq<Event>, k: nat)
    requires EnteredRun(plan, trace, events) && k < |trace| && trace[k].disp == Exited(AllDone)
    ensures AllFinal(trace[k].tasks)
    ensures Returned(trace[k].tasks) <==> AllPassed(trace[k].tasks)
  {
    hide Inv, Step, Startable;
    LeavingIsDone(plan, trace, events, k);
  }

  /** At the exit a stop request takes, the value is true to that exactly when every task is decided or some
      task failed or was skipped; otherwise it reports success with tasks pending or running. */
  lemma StopExitTellsTheTruthExactly(plan: Plan, trace: seq<State>, events: seq<Event>, k: nat)
    requires EnteredRun(plan, trace, events) && k < |trace| && trace[k].disp == Exited(StopRequested)
    ensures trace[k].shutdown
    ensures (Returned(trace[k].tasks) <==> AllPassed(trace[k].tasks)) <==>
              || AllFinal(trace[k].tasks)
              || exists i :: 0 <= i < |trace[k].tasks| && trace[k].tasks[i].status.Broken()
    ensures Returned(trace[k].tasks) && !AllPassed(trace[k].tasks) ==>
              exists i :: 0 <= i < |trace[k].tasks| && (trace[k].tasks[i].status.Pending? || trace[k].tasks[i].status.Running?)
  {
    if !trace[k].shutdown {
      RunGood(plan, trace, events, k);
    }
  }

  /** Without a stop request the value can be trusted: over every run, crashes and resumes included, at any exit
      taken while none is pending it is true exactly when every task passed. */
  lemma UnstoppedExitTellsTheTruth(plan: Plan, trace: seq<State>, events: seq<Event>, k: nat)
    requires EnteredRun(plan, trace, events) && k < |trace| && trace[k].disp.Exited? && !trace[k].shutdown
    ensures trace[k].disp == Exited(AllDone)
    ensures Returned(trace[k].tasks) <==> AllPassed(trace[k].tasks)
  {
    hide Startable, Step;
    RunGood(plan, trace, events, k);
    assert trace[k].disp == Exited(trace[k].disp.why);
    RegularExitTellsTheTruth(plan, trace, events, k);
  }

  /** A run with one more step in front. */
  lemma RunCons(plan: Plan, s: State, e: Event, trace: seq<State>, events: seq<Event>)
    requires Shaped(plan, s) && Run(plan, trace, events) && Step(plan, s, e) == Some(trace[0])
    ensures Run(plan, [s] + trace, [e] + events)
  {
    hide Step;
  }

  /** Once closing, the dispatcher can put its sentinels and exit, with no task touched. */
  lemma {:induction false} CloseDown(plan: Plan, s: State) returns (trace: seq<State>, events: seq<Event>)
    requires Shaped(plan, s) && s.disp.Closing?
    ensures Run(plan, trace, events) && trace[0] == s && Crash !in events
    ensures var end := trace[|trace| - 1]; end.disp == Exited(s.disp.why) && end.tasks == s.tasks
    decreases s.disp.left
  {
    var next := DispatchStep(plan, s).value;
    if s.disp.left == 0 {
      trace, events := [next], [];
    } else {
      trace, events := CloseDown(plan, next);
    }
    RunCons(plan, s, Dispatch, trace, events);
    trace, events := [s] + trace, [Dispatch] + events;
  }

  /** With one it cannot, for any sprint with a task in it: stopped before anything was begun, every such sprint is
      left with all its tasks pending and a report of success. */
  lemma StopReportsSuccess(plan: Plan) returns (trace: seq<State>, events: seq<Event>)
    requires plan != []
    ensures Run(plan, trace, events) && trace[0] == Fresh(plan) && Crash !in events
    ensures var end := trace[|trace| - 1];
            && end.disp == Exited(StopRequested) && end.tasks == seq(|plan|, _ => Task(Pending, 0))
            && Returned(end.tasks) && !AllPassed(end.tasks)
  {
    var s0 := Fresh(plan);
    var s1 := s0.(shutdown := true);
    var s2 := DispatchStep(plan, s1).value;
    trace, events := CloseDown(plan, s2);
    RunCons(plan, s1, Dispatch, trace, events);
    RunCons(plan, s0, Shutdown, [s1] + trace, [Dispatch] + events);
    trace, events := [s0] + ([s1] + trace), [Shutdown] + ([Dispatch] + events);
    assert !trace[|trace| - 1].tasks[0].status.Passed?;
  }

  // ---------------------------------------------------------------- cycles

  /** Tasks that wait for each other: each has a known dependency among them. */
  predicate SelfSupporting(plan: Plan, c: set<nat>) {
    forall i <- c :: i < |plan| && KnownDeps(plan, i) * c != {}
  }

  /** Task `j` is outside the set and one inside depends on it. */
  predicate Feeds(plan: Plan, c: set<nat>, j: nat) {
    j < |plan| && j !in c && exists i <- c :: i < |plan| && j in KnownDeps(plan, i)
  }

  /** A task outside the set, on which one inside depends, has failed or was skipped. */
  predicate OutsideBroken(plan: Plan, tasks: seq<Task>, c: set<nat>)
    requires |tasks| == |plan|
  {
    exists j :: 0 <= j < |plan| && Feeds(plan, c, j) && tasks[j].status.Broken()
  }

  /** No task of the set was ever begun; and all are still pending unless something outside broke. */
  predicate Untouched(plan: Plan, tasks: seq<Task>, c: set<nat>)
    requires |tasks| == |plan|
  {
    && (forall i <- c :: i < |plan| && (tasks[i].status.Pending? || tasks[i].status.Skipped?))
    && (OutsideBroken(plan, tasks, c) || forall i <- c :: tasks[i].status.Pending?)
  }

  predicate Waits(plan: Plan, s: State, c: set<nat>) {
    Shaped(plan, s) && Untouched(plan, s.tasks, c) && Untouched(plan, s.disk, c) && s.enqueued !! c
  }

  lemma OutsideStays(plan: Plan, tasks: seq<Task>, after: seq<Task>, c: set<nat>)
    requires |tasks| == |plan| && Grows(tasks, after) && OutsideBroken(plan, tasks, c)
    ensures OutsideBroken(plan, after, c)
  {
    hide Feeds;
    var j :| 0 <= j < |plan| && Feeds(plan, c, j) && tasks[j].status.Broken();
    assert after[j].status.Broken();
  }

  lemma UntouchedUpdate(plan: Plan, tasks: seq<Task>, c: set<nat>, i: nat, t: Task)
    requires |tasks| == |plan| && Untouched(plan, tasks, c) && i < |plan|
    requires !tasks[i].status.Final()
    requires i in c ==> t.status.Skipped? && DepsBroken(plan, tasks, i)
    ensures Untouched(plan, tasks[i := t], c)
  {
    hide Feeds;
    if i in c {
      BrokenInside(plan, tasks, c, i);
    }
    if OutsideBroken(plan, tasks, c) {
      OutsideStays(plan, tasks, tasks[i := t], c);
    }
  }

  /** What skips a task of the set is something outside it. */
  lemma BrokenInside(plan: Plan, tasks: seq<Task>, c: set<nat>, i: nat)
    requires |tasks| == |plan| && Untouched(plan, tasks, c) && i in c && i < |plan| && DepsBroken(plan, tasks, i)
    ensures OutsideBroken(plan, tasks, c)
  {
    hide KnownDeps;
    var j := BrokenDep(plan, tasks, i);
    if j !in c {
      assert Feeds(plan, c, j);
    }
  }

  lemma BrokenDep(plan: Plan, tasks: seq<Task>, i: nat) returns (j: nat)
    requires |tasks| == |plan| && i < |plan| && DepsBroken(plan, tasks, i)
    ensures j < |plan| && j in KnownDeps(plan, i) && tasks[j].status.Broken()
  {
    j :| j in KnownDeps(plan, i) && tasks[j].status.Broken();
  }

  lemma KnownInRange(plan: Plan, i: nat, j: nat)
    requires i < |plan| && j in KnownDeps(plan, i)
    ensures j < |plan|
  {
  }

  lemma UntouchedRecovers(plan: Plan, tasks: seq<Task>, c: set<nat>)
    requires |tasks| == |plan| && Untouched(plan, tasks, c)
    ensures Untouched(plan, Recovered(tasks), c)
  {
    hide Feeds;
    if OutsideBroken(plan, tasks, c) {
      OutsideStays(plan, tasks, Recovered(tasks), c);
    }
  }

  lemma NotReady(plan: Plan, tasks: seq<Task>, c: set<nat>, i: nat)
    requires |tasks| == |plan| && SelfSupporting(plan, c) && Untouched(plan, tasks, c) && i in c
    ensures i < |plan| && !DepsPassed(plan, tasks, i)
  {
    var j :| j in KnownDeps(plan, i) * c;
    assert !tasks[j].status.Passed?;
  }

  lemma DispatchWaits(plan: Plan, s: State, c: set<nat>)
    requires Inv(plan, s) && SelfSupporting(plan, c) && Waits(plan, s, c) && DispatchStep(plan, s).Some?
    ensures Waits(plan, DispatchStep(plan, s).value, c)
  {
    hide Owned, Justified, Grows, WorkersAgree, Bounded, Admitted, Untouched, DepsPassed, DepsBroken;
    if s.disp.DepsRead? {
      var i := s.disp.i;
      if DepsBroken(plan, s.tasks, i) {
        UntouchedUpdate(plan, s.tasks, c, i, s.tasks[i].(status := Skipped));
      } else if i in c {
        NotReady(plan, s.tasks, c, i);
      }
    }
  }

  lemma WorkWaits(plan: Plan, s: State, e: Event, c: set<nat>)
    requires Inv(plan, s) && SelfSupporting(plan, c) && Waits(plan, s, c)
    requires !e.Dispatch? && !e.Shutdown? && !e.Crash? && WorkStep(s, e).Some?
    ensures Waits(plan, WorkStep(s, e).value, c)
  {
    hide Justified, Grows, Bounded, Admitted, Untouched, DepsPassed, DepsBroken;
    if !e.Take? {
      var me, s' := s.workers[e.w], WorkStep(s, e).value;
      assert WorkerAgrees(s, me) && me.i in s.enqueued;
      if e.Begin? || (e.Start? && s'.tasks != s.tasks) || (e.Judge? && s'.tasks != s.tasks) {
        UntouchedUpdate(plan, s.tasks, c, me.i, s'.tasks[me.i]);
        assert s'.tasks == s.tasks[me.i := s'.tasks[me.i]];
      }
    }
  }

  /** Tasks that wait for each other are never begun: over every run, stops, crashes and resumes included, each
      stays pending, or is skipped, and skipped only after a task outside the set, on which one inside depends,
      failed or was skipped. So unless something outside breaks, the run never gets to its regular end. */
  lemma {:induction false} CycleNeverRuns(plan: Plan, c: set<nat>, trace: seq<State>, events: seq<Event>, k: nat)
    requires SelfSupporting(plan, c) && EnteredRun(plan, trace, events) && k < |trace|
    requires forall i <- c :: i < |trace[0].tasks| ==> trace[0].tasks[i].status.Pending?
    ensures Waits(plan, trace[k], c)
    ensures c != {} && AllFinal(trace[k].tasks) ==> OutsideBroken(plan, trace[k].tasks, c)
  {
    hide Inv, Step, Startable, OutsideBroken;
    EnteredInv(plan, trace, events);
    if k > 0 {
      CycleNeverRuns(plan, c, trace, events, k - 1);
      RunInv(plan, trace, events, k - 1);
      var s, e := trace[k - 1], events[k - 1];
      assert Step(plan, s, e) == Some(trace[k - 1 + 1]);
      StepWaits(plan, s, e, c);
    }
    if c != {} && AllFinal(trace[k].tasks) {
      var i :| i in c;
      assert trace[k].tasks[i].status.Final();
    }
  }

  lemma StepWaits(plan: Plan, s: State, e: Event, c: set<nat>)
    requires Inv(plan, s) && SelfSupporting(plan, c) && Waits(plan, s, c) && Step(plan, s, e).Some?
    ensures Waits(plan, Step(plan, s, e).value, c)
  {
    hide DispatchStep, WorkStep, Untouched, Justified, Owned, Admitted, WorkersAgree, Grows;
    match e
    case Dispatch => DispatchWaits(plan, s, c);
    case Shutdown =>
    case Crash => UntouchedRecovers(plan, s.disk, c);
    case _ => WorkWaits(plan, s, e, c);
  }

  /** The tasks in `done` have all their dependencies there, of smaller rank. */
  predicate PartlyRanked(plan: Plan, done: set<nat>, rank: seq<nat>) {
    && |rank| == |plan|
    && (forall i <- done :: i < |plan| && rank[i] < |done| && RankedAt(plan, done, rank, i))
  }

  predicate RankedAt(plan: Plan, done: set<nat>, rank: seq<nat>, i: nat)
    requires |rank| == |plan| && i < |plan|
  {
    forall j <- KnownDeps(plan, i) :: j in done && rank[j] < rank[i]
  }

  lemma RankNext(plan: Plan, done: set<nat>, rank: seq<nat>, i: nat)
    requires PartlyRanked(plan, done, rank) && i < |plan| && i !in done && KnownDeps(plan, i) <= done
    ensures PartlyRanked(plan, done + {i}, rank[i := |done|])
  {
    hide KnownDeps;
    var more, after := done + {i}, rank[i := |done|];
    forall k | k in more
      ensures k < |plan| && after[k] < |more| && RankedAt(plan, more, after, k)
    {
      if k in done {
        assert RankedAt(plan, done, rank, k);
      }
    }
  }

  lemma AllRanked(plan: Plan, rank: seq<nat>)
    requires PartlyRanked(plan, Positions(|plan|), rank)
    ensures Ranked(plan, rank)
  {
    hide KnownDeps;
    forall i, j | 0 <= i < |plan| && j in KnownDeps(plan, i)
      ensures j < |plan| && rank[j] < rank[i]
    {
      KnownInRange(plan, i, j);
      assert RankedAt(plan, Positions(|plan|), rank, i);
    }
  }

  /** A plan is acyclic or has a non-empty set of tasks that wait for each other: rank tasks as long as one has
      all its dependencies ranked. */
  lemma {:induction false} RankOrCycle(plan: Plan, done: set<nat>, partial: seq<nat>)
    returns (rank: seq<nat>, c: set<nat>)
    requires PartlyRanked(plan, done, partial)
    ensures Ranked(plan, rank) || (c != {} && SelfSupporting(plan, c))
    decreases Positions(|plan|) - done
  {
    hide KnownDeps, SelfSupporting, RankedAt, Ranked;
    rank, c := partial, Positions(|plan|) - done;
    if i :| i in c && KnownDeps(plan, i) * c == {} {
      forall j | j in KnownDeps(plan, i)
        ensures j in done
      {
        KnownInRange(plan, i, j);
        assert j !in KnownDeps(plan, i) * c;
      }
      RankNext(plan, done, partial, i);
      rank, c := RankOrCycle(plan, done + {i}, partial[i := |done|]);
    } else if c == {} {
      assert done == Positions(|plan|);
      AllRanked(plan, partial);
    } else {
      AllSupported(plan, c);
    }
  }

  lemma AllSupported(plan: Plan, c: set<nat>)
    requires forall i <- c :: i < |plan| && KnownDeps(plan, i) * c != {}
    ensures SelfSupporting(plan, c)
  {
  }

  function Positions(n: nat): (r: set<nat>)
    ensures forall i: nat :: i in r <==> i < n
  {
    if n == 0 then {} else Positions(n - 1) + {n - 1}
  }

  const MERGING := World(_ => true, (_, _) => Merged)

  predicate NoneBroken(tasks: seq<Task>) {
    forall i | 0 <= i < |tasks| :: !tasks[i].status.Broken()
  }

  /** Where every worktree is made and every first attempt merges, nothing breaks. */
  lemma MergingStep(plan: Plan, s: State, e: Event)
    requires Inv(plan, s) && NoneBroken(s.tasks) && !e.Crash? && !e.Shutdown? && Obeys(MERGING, s, e)
    requires Step(plan, s, e).Some?
    ensures NoneBroken(Step(plan, s, e).value.tasks)
  {
    hide Owned, Justified, Grows, Bounded, Admitted, DepsPassed, WorkersAgree;
    if e.Dispatch? && s.disp.DepsRead? && DepsBroken(plan, s.tasks, s.disp.i) {
      var j := BrokenDep(plan, s.tasks, s.disp.i);
    }
  }

  /** In that world, tasks that wait for each other keep any play from deciding everything. */
  lemma {:induction false} MergingWaits(plan: Plan, c: set<nat>, s: State, events: seq<Event>)
    requires Inv(plan, s) && SelfSupporting(plan, c) && Waits(plan, s, c) && NoneBroken(s.tasks) && c != {}
    requires Play(plan, MERGING, s, events).Some?
    ensures !AllFinal(Play(plan, MERGING, s, events).value.tasks)
    decreases events
  {
    hide Inv, Step, Waits, SelfSupporting, Obeys;
    if events == [] {
      StillPending(plan, c, s);
    } else {
      InvShapes(plan, s);
      var next := Step(plan, s, events[0]).value;
      StepInv(plan, s, events[0]);
      StepWaits(plan, s, events[0], c);
      MergingStep(plan, s, events[0]);
      MergingWaits(plan, c, next, events[1..]);
    }
  }

  lemma InvShapes(plan: Plan, s: State)
    requires Inv(plan, s)
    ensures Shaped(plan, s)
  {
  }

  lemma StillPending(plan: Plan, c: set<nat>, s: State)
    requires Waits(plan, s, c) && NoneBroken(s.tasks) && c != {}
    ensures !AllFinal(s.tasks)
  {
    hide Feeds;
    var i :| i in c;
    assert s.tasks[i].status.Pending?;
  }

  /** The world lets the new sprint be played to the end. */
  ghost predicate Finishable(plan: Plan, world: World) {
    exists events: seq<Event> ::
      Play(plan, world, Fresh(plan), events).Some? && AllFinal(Play(plan, world, Fresh(plan), events).value.tasks)
  }

  /** A sprint can be finished whatever the outside world answers if and only if its dependencies are acyclic. */
  lemma FinishesExactly(plan: Plan)
    ensures (forall world :: Finishable(plan, world)) <==> exists rank :: Ranked(plan, rank)
  {
    hide Play, Inv, Ranked, SelfSupporting;
    var trace, events: seq<Event> := [Fresh(plan)], [];
    FreshEnters(plan, trace, events);
    if rank :| Ranked(plan, rank) {
      forall world
        ensures Finishable(plan, world)
      {
        var more, t := CanFinish(plan, world, rank, trace, events, 0);
        assert AllFinal(Play(plan, world, Fresh(plan), more).value.tasks);
      }
    } else {
      NothingRanked(plan);
      var rank, c := RankOrCycle(plan, {}, seq(|plan|, _ => 0));
      NotFinishable(plan, c);
    }
  }

  lemma NothingRanked(plan: Plan)
    ensures PartlyRanked(plan, {}, seq(|plan|, _ => 0))
  {
  }

  lemma NotFinishable(plan: Plan, c: set<nat>)
    requires SelfSupporting(plan, c) && c != {}
    ensures !Finishable(plan, MERGING)
  {
    FreshInv(plan);
    hide Inv, Play, Feeds, KnownDeps;
    forall events: seq<Event> | Play(plan, MERGING, Fresh(plan), events).Some?
      ensures !AllFinal(Play(plan, MERGING, Fresh(plan), events).value.tasks)
    {
      MergingWaits(plan, c, Fresh(plan), events);
    }
  }
}
