/** The orchestrator cannot get stuck on an acyclic sprint, and cannot work forever. */
module ExecutorProgress {
  import opened Results
  import opened Executor
  import opened ExecutorSafety
  import opened ExecutorConfluence

  // ---------------------------------------------------------------- the amount of work left

  /** Tasks not yet admitted, among the first `k`. */
  function OpenWeight(tasks: seq<Task>, enqueued: set<nat>, k: nat): nat
    requires k <= |tasks|
  {
    if k == 0 then 0
    else OpenWeight(tasks, enqueued, k - 1) +
         (if tasks[k - 1].status.Pending? && k - 1 !in enqueued then 13 else 0)
  }

  function QueueWeight(queue: seq<Item>): nat {
    if queue == [] then 0 else (if queue[0].Job? then 12 else 0) + QueueWeight(queue[1..])
  }

  function WorkerWeight(me: Worker): int {
    match me
    case Idle => 0
    case Taken(_) => 11
    case Trying(_, k) => 13 - 3 * k
    case InAgent(_, k) => 12 - 3 * k
    case Judging(_, k) => 11 - 3 * k
    case Saving(_) => 1
    case Stopped => 0
  }

  function PoolWeight(workers: seq<Worker>): int {
    if workers == [] then 0 else WorkerWeight(workers[0]) + PoolWeight(workers[1..])
  }

  function WorkLeft(s: State): int {
    OpenWeight(s.tasks, s.enqueued, |s.tasks|) + QueueWeight(s.queue) + PoolWeight(s.workers)
  }

  /** The event moves a task on: a worker step other than meeting a sentinel, or the dispatcher
      skipping or admitting a task. */
  predicate Works(plan: Plan, s: State, e: Event)
    requires Shaped(plan, s)
  {
    match e
    case Dispatch =>
      s.disp.DepsRead? && s.disp.i < |plan| && (s.disp.ok || DepsBroken(plan, s.tasks, s.disp.i))
    case Shutdown => false
    case Crash => false
    case Take(_) => s.queue != [] && s.queue[0].Job?
    case _ => true
  }

  lemma {:induction false} PoolUpdate(workers: seq<Worker>, w: nat, me: Worker)
    requires w < |workers|
    ensures PoolWeight(workers[w := me]) == PoolWeight(workers) - WorkerWeight(workers[w]) + WorkerWeight(me)
  {
    if w > 0 {
      PoolUpdate(workers[1..], w - 1, me);
      assert workers[w := me][1..] == workers[1..][w - 1 := me];
    } else {
      assert workers[w := me][1..] == workers[1..];
    }
  }

  lemma {:induction false} PoolNonNegative(s: State, workers: seq<Worker>)
    requires forall w | 0 <= w < |workers| :: WorkerAgrees(s, workers[w])
    ensures PoolWeight(workers) >= 0
  {
    if workers != [] {
      assert WorkerAgrees(s, workers[0]);
      PoolNonNegative(s, workers[1..]);
    }
  }

  lemma {:induction false} QueueSnoc(queue: seq<Item>, item: Item)
    ensures QueueWeight(queue + [item]) == QueueWeight(queue) + (if item.Job? then 12 else 0)
  {
    if queue == [] {
      assert queue + [item] == [item];
    } else {
      QueueSnoc(queue[1..], item);
      assert (queue + [item])[1..] == queue[1..] + [item];
    }
  }

  /** Admitting or deciding one open task lowers the open weight by its share; a status change of an
      admitted task does not touch it. */
  lemma {:induction false} OpenUpdate(
      tasks: seq<Task>, enqueued: set<nat>, after: seq<Task>, enqueued': set<nat>, i: nat, k: nat)
    requires |tasks| == |after| && k <= |tasks| && i < |tasks|
    requires forall j | 0 <= j < |tasks| && j != i ::
               tasks[j].status == after[j].status && (j in enqueued <==> j in enqueued')
    requires i in enqueued' || !after[i].status.Pending?
    ensures OpenWeight(after, enqueued', k) ==
            OpenWeight(tasks, enqueued, k) - (if i < k && tasks[i].status.Pending? && i !in enqueued then 13 else 0)
  {
    if k > 0 {
      OpenUpdate(tasks, enqueued, after, enqueued', i, k - 1);
    }
  }

  lemma {:induction false} OpenBound(tasks: seq<Task>, enqueued: set<nat>, k: nat)
    requires k <= |tasks|
    ensures OpenWeight(tasks, enqueued, k) <= 13 * k
  {
    if k > 0 {
      OpenBound(tasks, enqueued, k - 1);
    }
  }

  lemma DispatchLowers(plan: Plan, s: State)
    requires Inv(plan, s) && DispatchStep(plan, s).Some?
    ensures var s' := DispatchStep(plan, s).value;
            if Works(plan, s, Dispatch) then WorkLeft(s') < WorkLeft(s) else WorkLeft(s') == WorkLeft(s)
    ensures var s' := DispatchStep(plan, s).value;
            !Works(plan, s, Dispatch) && !s.disp.Closing? ==>
              s'.tasks == s.tasks && s'.enqueued == s.enqueued && s'.queue == s.queue
  {
    hide DepsPassed, DepsBroken, Justified, Owned, Admitted, WorkersAgree, Grows;
    var s' := DispatchStep(plan, s).value;
    match s.disp
    case DepsRead(i, ok) =>
      if Works(plan, s, Dispatch) {
        OpenUpdate(s.tasks, s.enqueued, s'.tasks, s'.enqueued, i, |s.tasks|);
        QueueSnoc(s.queue, Job(i));
      }
    case Closing(_, _) => QueueSnoc(s.queue, Sentinel);
    case _ =>
  }

  lemma MarkLowers(plan: Plan, s: State, w: nat, t: Task, me: Worker)
    requires Inv(plan, s) && w < |s.workers| && !s.workers[w].Idle? && !s.workers[w].Stopped?
    requires s.workers[w].i < |s.tasks|
    ensures WorkLeft(Put(s, w, me).(tasks := s.tasks[s.workers[w].i := t])) ==
            WorkLeft(s) - WorkerWeight(s.workers[w]) + WorkerWeight(me)
  {
    hide DepsPassed, DepsBroken, Justified, Admitted, WorkersAgree, Grows;
    var i := s.workers[w].i;
    PoolUpdate(s.workers, w, me);
    OpenUpdate(s.tasks, s.enqueued, s.tasks[i := t], s.enqueued, i, |s.tasks|);
  }

  lemma TakeLowers(plan: Plan, s: State, w: nat)
    requires Inv(plan, s) && WorkStep(s, Take(w)).Some?
    ensures var s' := WorkStep(s, Take(w)).value;
            if Works(plan, s, Take(w)) then WorkLeft(s') < WorkLeft(s) else WorkLeft(s') == WorkLeft(s)
  {
    hide DepsPassed, DepsBroken, Justified, Owned, Admitted, Grows, WorkersAgree, DispatcherAgrees;
    var s' := WorkStep(s, Take(w)).value;
    PoolUpdate(s.workers, w, s'.workers[w]);
  }

  /** Any other worker step replaces the worker, and the status of the task it holds, by something lighter. */
  lemma HeldStep(plan: Plan, s: State, e: Event)
    requires Inv(plan, s) && !e.Dispatch? && !e.Shutdown? && !e.Crash? && !e.Take? && WorkStep(s, e).Some?
    ensures e.w < |s.workers| && !s.workers[e.w].Idle? && !s.workers[e.w].Stopped? && s.workers[e.w].i < |s.tasks|
    ensures var s', i := WorkStep(s, e).value, s.workers[e.w].i;
            && |s'.tasks| == |s.tasks| && |s'.workers| == |s.workers|
            && s'.tasks == s.tasks[i := s'.tasks[i]]
            && s'.workers == s.workers[e.w := s'.workers[e.w]]
            && s'.queue == s.queue && s'.enqueued == s.enqueued
            && WorkerWeight(s'.workers[e.w]) < WorkerWeight(s.workers[e.w])
  {
    hide DepsPassed, DepsBroken, Justified, Owned, Admitted, Grows, DispatcherAgrees;
    assert WorkerAgrees(s, s.workers[e.w]);
  }

  lemma WorkLowers(plan: Plan, s: State, e: Event)
    requires Inv(plan, s) && !e.Dispatch? && !e.Shutdown? && !e.Crash? && WorkStep(s, e).Some?
    ensures var s' := WorkStep(s, e).value;
            if Works(plan, s, e) then WorkLeft(s') < WorkLeft(s) else WorkLeft(s') == WorkLeft(s)
  {
    hide Inv, WorkStep, WorkerWeight, PoolWeight, OpenWeight, QueueWeight;
    if e.Take? {
      TakeLowers(plan, s, e.w);
    } else {
      HeldStep(plan, s, e);
      var s', i := WorkStep(s, e).value, s.workers[e.w].i;
      MarkLowers(plan, s, e.w, s'.tasks[i], s'.workers[e.w]);
    }
  }

  /** Outside a crash no step adds work, and every step that moves a task on removes some. */
  lemma StepLowers(plan: Plan, s: State, e: Event)
    requires Inv(plan, s) && !e.Crash? && Step(plan, s, e).Some?
    ensures var s' := Step(plan, s, e).value;
            if Works(plan, s, e) then WorkLeft(s') < WorkLeft(s) else WorkLeft(s') == WorkLeft(s)
  {
    hide DispatchStep, WorkStep, Inv, Works, WorkLeft;
    match e
    case Dispatch => DispatchLowers(plan, s);
    case Shutdown => ShutdownIdle(plan, s);
    case _ => WorkLowers(plan, s, e);
  }

  lemma ShutdownIdle(plan: Plan, s: State)
    requires Shaped(plan, s)
    ensures !Works(plan, s, Shutdown) && WorkLeft(s.(shutdown := true)) == WorkLeft(s)
  {
  }

  function WorkEvents(plan: Plan, trace: seq<State>, events: seq<Event>, k: nat): nat
    requires Run(plan, trace, events) && k <= |events|
  {
    if k == 0 then 0
    else WorkEvents(plan, trace, events, k - 1) + (if Works(plan, trace[k - 1], events[k - 1]) then 1 else 0)
  }

  /** A crash-free session moves tasks on at most 13 times per task, however long it runs: admitted,
      taken, started, three attempts of three steps, saved. */
  lemma WorkIsBounded(plan: Plan, init: seq<Task>, trace: seq<State>, events: seq<Event>, k: nat)
    requires Startable(plan, init) && Run(plan, trace, events) && trace[0] == EnterWith(init, |trace[0].workers|)
    requires Crash !in events && k <= |events|
    ensures WorkEvents(plan, trace, events, k) <= 13 * |plan|
  {
    EnterInv(plan, init, |trace[0].workers|);
    WorkAccounting(plan, trace, events, k);
    RunInv(plan, trace, events, k);
    PoolNonNegative(trace[k], trace[k].workers);
    IdlePool(trace[0].workers);
    OpenBound(init, {}, |init|);
  }

  lemma {:induction false} IdlePool(workers: seq<Worker>)
    requires forall w | 0 <= w < |workers| :: workers[w] == Idle
    ensures PoolWeight(workers) == 0
  {
    if workers != [] {
      IdlePool(workers[1..]);
    }
  }

  lemma {:induction false} WorkAccounting(plan: Plan, trace: seq<State>, events: seq<Event>, k: nat)
    requires Run(plan, trace, events) && Inv(plan, trace[0]) && Crash !in events && k <= |events|
    ensures WorkEvents(plan, trace, events, k) <= WorkLeft(trace[0]) - WorkLeft(trace[k])
  {
    hide Inv, Step, Works, WorkLeft;
    if k > 0 {
      WorkAccounting(plan, trace, events, k - 1);
      RunInv(plan, trace, events, k - 1);
      assert Step(plan, trace[k - 1], events[k - 1]) == Some(trace[k - 1 + 1]);
      StepLowers(plan, trace[k - 1], events[k - 1]);
    }
  }

  // ---------------------------------------------------------------- it cannot get stuck

  predicate Looping(d: Dispatcher) {
    !d.Closing? && !d.Exited?
  }

  /** Without a stop request: nothing admitted gets lost, and the pool stays up until the end. */
  predicate Live(plan: Plan, s: State)
    requires Shaped(plan, s)
  {
    && !s.shutdown
    && s.workers != []
    && (forall i | i in s.enqueued && i < |plan| && !s.tasks[i].status.Final() ::
          Job(i) in s.queue || exists w :: 0 <= w < |s.workers| && s.workers[w].Holds(i))
    && (if Looping(s.disp) then
          Sentinel !in s.queue && Stopped !in s.workers
        else s.disp.why == AllDone && AllFinal(s.tasks))
  }

  /** There is a worker for each pending task that lists no dependency, but never more than four and never none. */
  lemma PoolIsNonEmpty(plan: Plan, tasks: seq<Task>)
    requires |tasks| == |plan|
    ensures 1 <= WorkerCount(plan, tasks) <= 4
    ensures var free := |set i | 0 <= i < |plan| && plan[i].dependsOn == [] && tasks[i].status == Pending|;
            (1 <= free <= 4 ==> WorkerCount(plan, tasks) == free) && (free > 4 ==> WorkerCount(plan, tasks) == 4)
  {
    assert (set i | 0 <= i < |plan| && plan[i].dependsOn == [] && tasks[i].status == Pending)
           == (set i | 0 <= i < |plan| && plan[i].dependsOn == [] && tasks[i].status.Pending?);
    var independent := set i | 0 <= i < |plan| && plan[i].dependsOn == [] && tasks[i].status.Pending?;
    if independent != {} {
      var i :| i in independent;
      assert |independent| == |independent - {i}| + 1;
    }
  }

  lemma EnterLive(plan: Plan, tasks: seq<Task>, n: nat)
    requires |tasks| == |plan| && n > 0
    ensures Live(plan, EnterWith(tasks, n))
  {
  }

  lemma DispatchLive(plan: Plan, s: State)
    requires Inv(plan, s) && Live(plan, s) && DispatchStep(plan, s).Some?
    ensures Live(plan, DispatchStep(plan, s).value)
  {
    hide DepsPassed, DepsBroken, Justified, Owned, Admitted, WorkersAgree, Grows;
    var s' := DispatchStep(plan, s).value;
    assert forall i | Job(i) in s.queue :: Job(i) in s'.queue;
    if s.disp.DepsRead? && s.disp.ok && !DepsBroken(plan, s.tasks, s.disp.i) {
      assert s'.queue[|s.queue|] == Job(s.disp.i);
    }
  }

  lemma TakeLive(plan: Plan, s: State, w: nat)
    requires Inv(plan, s) && Live(plan, s) && WorkStep(s, Take(w)).Some?
    ensures Live(plan, WorkStep(s, Take(w)).value)
  {
    hide DepsPassed, DepsBroken, Justified, Owned, Admitted, WorkersAgree, Grows;
    var s' := WorkStep(s, Take(w)).value;
    forall i | i in s.enqueued && i < |plan| && !s.tasks[i].status.Final()
      ensures Job(i) in s'.queue || exists v :: 0 <= v < |s'.workers| && s'.workers[v].Holds(i)
    {
      if s.queue[0] == Job(i) {
        assert s'.workers[w].Holds(i);
      } else if Job(i) in s.queue {
        assert Job(i) in s.queue[1..];
      } else {
        var v :| 0 <= v < |s.workers| && s.workers[v].Holds(i);
        assert s'.workers[v].Holds(i);
      }
    }
  }

  lemma WorkLive(plan: Plan, s: State, e: Event)
    requires Inv(plan, s) && Live(plan, s)
    requires !e.Dispatch? && !e.Shutdown? && !e.Crash? && !e.Take? && WorkStep(s, e).Some?
    ensures Live(plan, WorkStep(s, e).value)
  {
    hide DepsPassed, DepsBroken, Justified, Owned, Admitted, Grows;
    var s' := WorkStep(s, e).value;
    var me := s.workers[e.w];
    assert WorkerAgrees(s, me);
    forall i | i in s'.enqueued && i < |plan| && !s'.tasks[i].status.Final()
      ensures Job(i) in s'.queue || exists v :: 0 <= v < |s'.workers| && s'.workers[v].Holds(i)
    {
      if Job(i) !in s.queue {
        var v :| 0 <= v < |s.workers| && s.workers[v].Holds(i);
        assert s'.workers[v].Holds(i);
      }
    }
  }

  lemma StepLive(plan: Plan, s: State, e: Event)
    requires Inv(plan, s) && Live(plan, s) && !e.Crash? && !e.Shutdown? && Step(plan, s, e).Some?
    ensures Live(plan, Step(plan, s, e).value)
  {
    hide DispatchStep, WorkStep, Inv, Live;
    match e
    case Dispatch => DispatchLive(plan, s);
    case Take(w) => TakeLive(plan, s, w);
    case _ => WorkLive(plan, s, e);
  }

  /** Play out events in a world, without stop or crash and with the state lock respected. */
  function Play(plan: Plan, world: World, s: State, events: seq<Event>): (r: Option<State>)
    requires Shaped(plan, s)
    ensures r.Some? ==> Shaped(plan, r.value)
    decreases events
  {
    if events == [] then Some(s)
    else if events[0].Crash? || events[0].Shutdown? || Blocked(s, events[0]) || !Obeys(world, s, events[0]) then None
    else
      match Step(plan, s, events[0])
      case Some(next) => Play(plan, world, next, events[1..])
      case None => None
  }

  lemma {:induction false} PlayConcat(plan: Plan, world: World, s: State, a: seq<Event>, b: seq<Event>)
    requires Shaped(plan, s) && Play(plan, world, s, a).Some?
    ensures Play(plan, world, s, a + b) == Play(plan, world, Play(plan, world, s, a).value, b)
    decreases a
  {
    hide Step, Obeys;
    if a == [] {
      assert a + b == b;
    } else {
      assert (a + b)[1..] == a[1..] + b;
      PlayConcat(plan, world, Step(plan, s, a[0]).value, a[1..], b);
    }
  }

  /** What progress has to preserve. */
  predicate Good(plan: Plan, s: State) {
    Inv(plan, s) && Live(plan, s)
  }

  lemma PlayOne(plan: Plan, world: World, s: State, e: Event)
    requires Good(plan, s) && !e.Crash? && !e.Shutdown? && !Blocked(s, e)
    requires Obeys(world, s, e) && Step(plan, s, e).Some?
    ensures Play(plan, world, s, [e]) == Step(plan, s, e)
    ensures Good(plan, Step(plan, s, e).value)
  {
    hide Step, Obeys, Inv, Live;
    StepInv(plan, s, e);
    StepLive(plan, s, e);
    assert [e][1..] == [];
  }

  /** The event a busy worker is waiting for. */
  function NextEvent(world: World, s: State, w: nat): Event
    requires w < |s.workers|
  {
    match s.workers[w]
    case Taken(i) => Start(w, world.worktree(i))
    case Trying(_, _) => Begin(w)
    case InAgent(_, _) => Agent(w)
    case Judging(i, k) => Judge(w, world.attempt(i, k))
    case Saving(_) => Save(w)
    case _ => Take(w)
  }

  lemma BusyWorkerMoves(plan: Plan, world: World, s: State, w: nat) returns (t: State)
    requires Good(plan, s) && w < |s.workers| && !s.workers[w].Stopped? && !s.disp.Scan? && !s.disp.DepsRead?
    requires s.workers[w].Idle? ==> s.queue != [] && Looping(s.disp)
    ensures Play(plan, world, s, [NextEvent(world, s, w)]) == Some(t)
    ensures Good(plan, t) && WorkLeft(t) < WorkLeft(s) && t.disp == s.disp
  {
    hide DepsPassed, DepsBroken, Justified, Grows, WorkLeft, Admitted;
    var e := NextEvent(world, s, w);
    assert WorkerAgrees(s, s.workers[w]);
    if s.workers[w].Idle? {
      assert s.queue[0] in s.queue;
    }
    t := WorkStep(s, e).value;
    PlayOne(plan, world, s, e);
    StepLowers(plan, s, e);
  }

  /** Steps left in the dispatcher's sweep. */
  function SweepDistance(plan: Plan, d: Dispatcher): nat {
    match d
    case Scan(i) => if i < |plan| then 2 * (|plan| - i) + 1 else 1
    case DepsRead(i, _) => if i < |plan| then 2 * (|plan| - i) else 0
    case _ => 0
  }

  /** The dispatcher can finish its sweep and give the state lock back; nothing is taken off the queue, no
      worker moves, and no work is added. */
  lemma {:induction false} FinishSweep(plan: Plan, world: World, s: State) returns (events: seq<Event>, t: State)
    requires Good(plan, s) && Looping(s.disp)
    ensures Play(plan, world, s, events) == Some(t)
    ensures Good(plan, t) && Looping(t.disp) && !t.disp.Scan? && !t.disp.DepsRead?
    ensures WorkLeft(t) <= WorkLeft(s) && t.workers == s.workers && s.queue <= t.queue
    decreases SweepDistance(plan, s.disp)
  {
    hide Owned, Justified, Grows, WorkersAgree, Bounded, Admitted, WorkLeft, DepsPassed, DepsBroken, Live, Play;
    if s.disp.Scan? || s.disp.DepsRead? {
      var s1 := DispatchStep(plan, s).value;
      PlayOne(plan, world, s, Dispatch);
      StepLowers(plan, s, Dispatch);
      var rest;
      rest, t := FinishSweep(plan, world, s1);
      PlayConcat(plan, world, s, [Dispatch], rest);
      events := [Dispatch] + rest;
    } else {
      events, t := [], s;
      assert Play(plan, world, s, []) == Some(s) by { PlayNothing(plan, world, s); }
    }
  }

  lemma PlayNothing(plan: Plan, world: World, s: State)
    requires Shaped(plan, s)
    ensures Play(plan, world, s, []) == Some(s)
  {
  }

  /** A worker with something to do gets to do it, after the sweep in progress if there is one. */
  lemma WorkerMoves(plan: Plan, world: World, s: State, w: nat) returns (events: seq<Event>, t: State)
    requires Good(plan, s) && w < |s.workers| && !s.workers[w].Stopped? && Looping(s.disp)
    requires s.workers[w].Idle? ==> s.queue != []
    ensures Play(plan, world, s, events) == Some(t)
    ensures Good(plan, t) && WorkLeft(t) < WorkLeft(s) && Looping(t.disp)
  {
    hide Owned, Justified, Grows, WorkersAgree, Bounded, Admitted, Live, WorkLeft, Play, NextEvent;
    var first, mid := FinishSweep(plan, world, s);
    t := BusyWorkerMoves(plan, world, mid, w);
    PlayConcat(plan, world, s, first, [NextEvent(world, mid, w)]);
    events := first + [NextEvent(world, mid, w)];
  }

  /** How many steps the dispatcher is from looking at task `m` with fresh eyes. */
  function Distance(plan: Plan, d: Dispatcher, m: nat): nat
    requires m < |plan|
  {
    match d
    case Scan(i) =>
      if i <= m then 2 * (m - i)
      else if i <= |plan| then 2 * m + 3 + 2 * (|plan| - i) else 2 * m + 3
    case DepsRead(i, _) =>
      if i < m then 2 * (m - i) - 1
      else if i < |plan| then 2 * m + 2 + 2 * (|plan| - i) else 0
    case CheckDone => 2 * m + 2
    case Top => 2 * m + 1
    case _ => 0
  }

  /** With an open task `m`, a step of the dispatcher that neither admits nor skips a task brings it nearer to `m`. */
  lemma DispatcherNears(plan: Plan, s: State, m: nat)
    requires Shaped(plan, s) && DispatcherAgrees(plan, s) && !s.shutdown && Looping(s.disp) && m < |plan|
    requires m !in s.enqueued && s.tasks[m].status.Pending?
    ensures var r := DispatchStep(plan, s);
            && r.Some? && Looping(r.value.disp)
            && (Works(plan, s, Dispatch) || s.disp == Scan(m)
                || Distance(plan, r.value.disp, m) < Distance(plan, s.disp, m))
  {
    hide DepsPassed, DepsBroken, KnownDeps;
    assert !s.tasks[m].status.Final();
  }

  /** At a task with all dependencies decided it takes two steps to admit or skip it. */
  lemma DispatcherArrives(plan: Plan, s: State, m: nat)
    requires Shaped(plan, s) && s.disp == Scan(m) && m < |plan| && m !in s.enqueued && s.tasks[m].status.Pending?
    requires forall j | j in KnownDeps(plan, m) :: s.tasks[j].status.Final()
    ensures var r := DispatchStep(plan, s);
            && r.Some? && !Works(plan, s, Dispatch) && Works(plan, r.value, Dispatch)
            && DispatchStep(plan, r.value).Some? && Looping(DispatchStep(plan, r.value).value.disp)
  {
    hide KnownDeps;
  }

  lemma GoodAgrees(plan: Plan, s: State)
    requires Good(plan, s)
    ensures Shaped(plan, s) && DispatcherAgrees(plan, s) && !s.shutdown
  {
  }

  /** One step of the dispatcher, played out. */
  lemma DispatcherPlays(plan: Plan, world: World, s: State) returns (t: State)
    requires Good(plan, s) && DispatchStep(plan, s).Some?
    ensures DispatchStep(plan, s) == Some(t) && Play(plan, world, s, [Dispatch]) == Some(t) && Good(plan, t)
    ensures if Works(plan, s, Dispatch) then WorkLeft(t) < WorkLeft(s) else WorkLeft(t) == WorkLeft(s)
    ensures !Works(plan, s, Dispatch) && !s.disp.Closing? ==> t.tasks == s.tasks && t.enqueued == s.enqueued
  {
    hide DispatchStep, Play, Live, WorkLeft, Works, Owned, Justified, Admitted, WorkersAgree, Grows, Bounded;
    t := DispatchStep(plan, s).value;
    PlayOne(plan, world, s, Dispatch);
    DispatchLowers(plan, s);
  }

  /** With an open task whose dependencies are all decided, the dispatcher alone gets somewhere. */
  lemma {:induction false} DispatcherMoves(plan: Plan, world: World, s: State, m: nat) returns (events: seq<Event>, t: State)
    requires Good(plan, s) && Looping(s.disp) && m < |plan|
    requires m !in s.enqueued && s.tasks[m].status.Pending?
    requires forall j | j in KnownDeps(plan, m) :: s.tasks[j].status.Final()
    ensures Play(plan, world, s, events) == Some(t)
    ensures Good(plan, t) && WorkLeft(t) < WorkLeft(s) && Looping(t.disp)
    decreases Distance(plan, s.disp, m)
  {
    hide DispatchStep, Play, Good, WorkLeft, Works, KnownDeps, Distance;
    GoodAgrees(plan, s);
    DispatcherNears(plan, s, m);
    var s1 := DispatcherPlays(plan, world, s);
    if Works(plan, s, Dispatch) {
      events, t := [Dispatch], s1;
    } else if s.disp == Scan(m) {
      DispatcherArrives(plan, s, m);
      t := DispatcherPlays(plan, world, s1);
      PlayConcat(plan, world, s, [Dispatch], [Dispatch]);
      events := [Dispatch] + [Dispatch];
    } else {
      var rest;
      rest, t := DispatcherMoves(plan, world, s1, m);
      PlayConcat(plan, world, s, [Dispatch], rest);
      events := [Dispatch] + rest;
    }
  }

  lemma {:induction false} LowestOpen(plan: Plan, rank: seq<nat>, tasks: seq<Task>, i: nat) returns (m: nat)
    requires Ranked(plan, rank) && |tasks| == |plan| && i < |plan| && !tasks[i].status.Final()
    ensures m < |plan| && !tasks[m].status.Final()
    ensures forall j | j in KnownDeps(plan, m) :: tasks[j].status.Final()
    decreases rank[i]
  {
    if j :| j in KnownDeps(plan, i) && !tasks[j].status.Final() {
      m := LowestOpen(plan, rank, tasks, j);
    } else {
      m := i;
    }
  }

  /** While some task is undecided, some enabled sequence of steps, whatever the world answers, lowers the
      work left. */
  lemma ProgressFrom(plan: Plan, world: World, rank: seq<nat>, s: State) returns (events: seq<Event>, t: State)
    requires Ranked(plan, rank) && Good(plan, s) && Looping(s.disp) && !AllFinal(s.tasks)
    ensures Play(plan, world, s, events) == Some(t)
    ensures Good(plan, t) && WorkLeft(t) < WorkLeft(s) && Looping(t.disp)
  {
    hide Justified, Grows, WorkersAgree, WorkLeft, Play, NextEvent, DepsPassed, DepsBroken;
    var i :| 0 <= i < |s.tasks| && !s.tasks[i].status.Final();
    var m := LowestOpen(plan, rank, s.tasks, i);
    if m !in s.enqueued {
      events, t := DispatcherMoves(plan, world, s, m);
    } else if w: nat :| w < |s.workers| && s.workers[w].Holds(m) {
      events, t := WorkerMoves(plan, world, s, w);
    } else {
      assert s.workers[0] in s.workers;
      events, t := WorkerMoves(plan, world, s, 0);
    }
  }

  /** Steps left for the dispatcher to leave the loop once every task is decided. */
  function ExitDistance(plan: Plan, s: State): nat {
    match s.disp
    case Exited(_) => 0
    case Closing(_, left) => left + 1
    case CheckDone => |s.workers| + 2
    case Scan(i) => |s.workers| + 3 + (if i <= |plan| then |plan| - i else 0)
    case DepsRead(i, _) => |s.workers| + 3 + (if i <= |plan| then |plan| - i else 0)
    case Top => |s.workers| + |plan| + 4
  }

  lemma {:induction false} LeaveLoop(plan: Plan, world: World, s: State) returns (events: seq<Event>, t: State)
    requires Good(plan, s) && AllFinal(s.tasks)
    ensures Play(plan, world, s, events) == Some(t)
    ensures Good(plan, t) && t.disp == Exited(AllDone) && t.tasks == s.tasks
    decreases ExitDistance(plan, s)
  {
    hide Owned, Justified, Grows, WorkersAgree, Bounded, Admitted, DepsPassed, DepsBroken;
    if s.disp.Exited? {
      events, t := [], s;
    } else {
      var s1 := DispatchStep(plan, s).value;
      PlayOne(plan, world, s, Dispatch);
      var rest;
      rest, t := LeaveLoop(plan, world, s1);
      PlayConcat(plan, world, s, [Dispatch], rest);
      events := [Dispatch] + rest;
    }
  }

  lemma {:induction false} FinishFrom(plan: Plan, world: World, rank: seq<nat>, s: State)
    returns (events: seq<Event>, t: State)
    requires Ranked(plan, rank) && Good(plan, s)
    ensures Play(plan, world, s, events) == Some(t)
    ensures t.disp == Exited(AllDone) && AllFinal(t.tasks)
    decreases WorkLeft(s)
  {
    hide Justified, Owned, Grows, Admitted, Play, Ranked, WorkerAgrees;
    if AllFinal(s.tasks) || !Looping(s.disp) {
      events, t := LeaveLoop(plan, world, s);
    } else {
      var first, mid := ProgressFrom(plan, world, rank, s);
      PoolNonNegative(mid, mid.workers);
      var rest;
      rest, t := FinishFrom(plan, world, rank, mid);
      PlayConcat(plan, world, s, first, rest);
      events := first + rest;
    }
  }
}
