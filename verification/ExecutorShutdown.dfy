/** How the orchestrator writes its state file, stops and winds down its pool (tools/orchestrator/executor.py). */
module ExecutorShutdown {
  import opened Results
  import opened Executor
  import opened ExecutorSafety

  // ---------------------------------------------------------------- the state file

  /** The step is one of those that write the state file. */
  predicate Saves(plan: Plan, s: State, e: Event)
    requires Shaped(plan, s)
  {
    match e
    case Begin(_) => true
    case Save(_) => true
    case Agent(_) => s.shutdown
    case Dispatch =>
      || (s.disp == Top && s.shutdown)
      || (s.disp.DepsRead? && s.disp.i < |plan| && DepsBroken(plan, s.tasks, s.disp.i))
    case _ => false
  }

  /** The state file is written, and then whole, when an attempt begins, when a task ends, when it is skipped, and when a
      stop is seen by the dispatcher or after an agent; no other step touches it. */
  lemma SavesExactly(plan: Plan, s: State, e: Event)
    requires Shaped(plan, s) && !e.Crash? && Step(plan, s, e).Some?
    ensures var s' := Step(plan, s, e).value;
            s'.disk == if Saves(plan, s, e) then s'.tasks else s.disk
  {
    hide DepsPassed, DepsBroken;
  }

  /** A task whose agent is at work is marked running in the state file, with the number of the attempt. */
  ghost predicate MarkedRunning(s: State) {
    forall w | 0 <= w < |s.workers| && (s.workers[w].InAgent? || s.workers[w].Judging?) ::
      s.workers[w].i < |s.disk| && s.disk[s.workers[w].i] == Task(Running, s.workers[w].attempt)
  }

  lemma StepMarks(plan: Plan, s: State, e: Event)
    requires Inv(plan, s) && MarkedRunning(s) && Step(plan, s, e).Some?
    ensures MarkedRunning(Step(plan, s, e).value)
  {
    var s' := Step(plan, s, e).value;
    StepInv(plan, s, e);
    if !e.Crash? {
      SavesExactly(plan, s, e);
      if s'.disk == s'.tasks {
        hide DispatchStep, WorkStep, Owned, Admitted, Justified, Grows, Bounded, DispatcherAgrees;
        assert forall w | 0 <= w < |s'.workers| :: WorkerAgrees(s', s'.workers[w]);
      } else {
        KeepsAgents(plan, s, e);
      }
    }
  }

  lemma KeepsAgents(plan: Plan, s: State, e: Event)
    requires Inv(plan, s) && MarkedRunning(s) && !e.Crash? && Step(plan, s, e).Some?
    requires !Saves(plan, s, e)
    ensures MarkedRunning(Step(plan, s, e).value)
  {
    hide DepsPassed, DepsBroken, Owned, Admitted, Justified, Grows, Bounded, DispatcherAgrees;
  }

  /** Over every run: while an agent works on a task the state file says so, so that a crash returns it to pending. */
  lemma {:induction false} AtWorkIsMarked(plan: Plan, trace: seq<State>, events: seq<Event>, k: nat)
    requires Run(plan, trace, events) && trace[0] == Fresh(plan) && k < |trace|
    ensures MarkedRunning(trace[k])
  {
    hide Inv, Step;
    if k > 0 {
      AtWorkIsMarked(plan, trace, events, k - 1);
      FreshInv(plan);
      RunInv(plan, trace, events, k - 1);
      assert Step(plan, trace[k - 1], events[k - 1]) == Some(trace[k - 1 + 1]);
      StepMarks(plan, trace[k - 1], events[k - 1]);
    }
  }

  // ---------------------------------------------------------------- stopping

  /** The worker is past the point where it looks for a stop request before starting. */
  predicate Busy(me: Worker) {
    me.Trying? || me.InAgent? || me.Judging?
  }

  lemma StopHolds(plan: Plan, s: State, e: Event, w: nat)
    requires Shaped(plan, s) && s.shutdown && !e.Crash? && Step(plan, s, e).Some? && w < |s.workers|
    ensures var s' := Step(plan, s, e).value;
            && s'.shutdown && |s'.workers| == |s.workers|
            && (!Busy(s.workers[w]) ==> !Busy(s'.workers[w]))
            && (s.workers[w].Taken? ==> s'.workers[w] == s.workers[w] || s'.workers[w].Stopped?)
            && (s.workers[w].Stopped? ==> s'.workers[w].Stopped?)
  {
    hide DepsPassed, DepsBroken;
  }

  /** Once a stop is requested no worker starts another task until the orchestrator is entered again. */
  lemma {:induction false} NothingStartsAfterStop(
      plan: Plan, trace: seq<State>, events: seq<Event>, a: nat, b: nat, w: nat)
    requires Run(plan, trace, events) && a <= b < |trace| && Crash !in events[a..b]
    requires trace[a].shutdown && w < |trace[a].workers| && !Busy(trace[a].workers[w])
    ensures trace[b].shutdown && w < |trace[b].workers| && !Busy(trace[b].workers[w])
  {
    hide Step;
    if a < b {
      assert events[a..b] == events[a..b - 1] + [events[b - 1]];
      NothingStartsAfterStop(plan, trace, events, a, b - 1, w);
      assert Step(plan, trace[b - 1], events[b - 1]) == Some(trace[b - 1 + 1]);
      StopHolds(plan, trace[b - 1], events[b - 1], w);
    }
  }

  // ---------------------------------------------------------------- winding the pool down

  /** Sentinels the dispatcher has still to put. */
  function ToCome(s: State): nat {
    match s.disp
    case Closing(_, left) => left
    case Exited(_) => 0
    case _ => |s.workers|
  }

  /** There is a sentinel, put or to come, for every worker that is still up, and never more than one for each. */
  ghost predicate Provided(s: State) {
    && multiset(s.queue)[Sentinel] + ToCome(s) + multiset(s.workers)[Stopped] >= |s.workers|
    && multiset(s.queue)[Sentinel] + ToCome(s) <= |s.workers|
  }

  lemma StoppedNext(workers: seq<Worker>, w: nat, me: Worker)
    requires w < |workers| && !workers[w].Stopped?
    ensures multiset(workers[w := me])[Stopped] == multiset(workers)[Stopped] + (if me.Stopped? then 1 else 0)
  {
  }

  lemma TakenFrom(queue: seq<Item>)
    requires queue != []
    ensures multiset(queue)[Sentinel] == multiset(queue[1..])[Sentinel] + (if queue[0].Sentinel? then 1 else 0)
  {
    assert queue == [queue[0]] + queue[1..];
  }

  lemma PutTo(queue: seq<Item>, x: Item)
    ensures multiset(queue + [x])[Sentinel] == multiset(queue)[Sentinel] + (if x.Sentinel? then 1 else 0)
  {
  }

  /** Only the worker itself moves on, and of the queue it takes at most the first item. */
  lemma WorkMoves(s: State, e: Event)
    requires (e.Take? || e.Start? || e.Begin? || e.Agent? || e.Judge? || e.Save?) && WorkStep(s, e).Some?
    ensures e.w < |s.workers| && !s.workers[e.w].Stopped?
    ensures var s' := WorkStep(s, e).value;
            && s'.disp == s.disp && |s'.workers| == |s.workers| && s'.workers == s.workers[e.w := s'.workers[e.w]]
            && (if e.Take? then
                  && s.queue != [] && s'.queue == s.queue[1..]
                  && (s.queue[0].Sentinel? <==> s'.workers[e.w].Stopped?)
                else s'.queue == s.queue)
  {
  }

  lemma DispatchProvides(plan: Plan, s: State)
    requires Shaped(plan, s) && Provided(s) && DispatchStep(plan, s).Some?
    ensures Provided(DispatchStep(plan, s).value)
  {
    hide DispatchStep;
    DispatchQueues(plan, s);
    PutTo(s.queue, Sentinel);
    if s.disp.DepsRead? {
      PutTo(s.queue, Job(s.disp.i));
    }
  }

  /** The dispatcher puts a sentinel it owes, or a task, or nothing. */
  lemma DispatchQueues(plan: Plan, s: State)
    requires Shaped(plan, s) && DispatchStep(plan, s).Some?
    ensures var s' := DispatchStep(plan, s).value;
            && s'.workers == s.workers
            && (|| (s'.queue == s.queue + [Sentinel] && ToCome(s') == ToCome(s) - 1)
                || (s'.queue == s.queue && ToCome(s') == ToCome(s))
                || (s.disp.DepsRead? && s'.queue == s.queue + [Job(s.disp.i)] && ToCome(s') == ToCome(s)))
  {
    hide DepsPassed, DepsBroken;
  }

  lemma StepProvides(plan: Plan, s: State, e: Event)
    requires Shaped(plan, s) && Provided(s) && Step(plan, s, e).Some?
    ensures Provided(Step(plan, s, e).value)
  {
    hide DispatchStep, WorkStep;
    var s' := Step(plan, s, e).value;
    match e
    case Dispatch => DispatchProvides(plan, s);
    case Shutdown =>
    case Crash =>
    case _ =>
      WorkMoves(s, e);
      StoppedNext(s.workers, e.w, s'.workers[e.w]);
      if e.Take? {
        TakenFrom(s.queue);
      }
  }

  /** Over every run: when the dispatcher has exited, the queue holds a sentinel for every worker not yet stopped. */
  lemma {:induction false} PoolCanStop(plan: Plan, trace: seq<State>, events: seq<Event>, k: nat)
    requires Run(plan, trace, events) && trace[0] == Fresh(plan) && k < |trace|
    ensures Provided(trace[k])
    ensures trace[k].disp.Exited? ==>
              multiset(trace[k].queue)[Sentinel] >= |trace[k].workers| - multiset(trace[k].workers)[Stopped]
  {
    hide Step;
    if k > 0 {
      PoolCanStop(plan, trace, events, k - 1);
      assert Step(plan, trace[k - 1], events[k - 1]) == Some(trace[k - 1 + 1]);
      StepProvides(plan, trace[k - 1], events[k - 1]);
    }
  }
}
