/** Under fair scheduling a sprint does not just stay able to finish: it finishes. Runs are infinite here, and
    may rest; the scheduler is any that neglects neither the dispatcher nor a worker with something to do. */
module ExecutorFairness {
  import opened Results
  import opened Executor
  import opened ExecutorSafety
  import opened ExecutorConfluence
  import opened ExecutorProgress
  import opened ExecutorTermination

  type Trace = nat -> State
  type Schedule = nat -> Option<Event>

  /** One moment to the next: a step other than a stop or a crash, or a rest. */
  ghost predicate Moment(plan: Plan, tr: Trace, ev: Schedule, k: nat) {
    && Shaped(plan, tr(k))
    && match ev(k)
       case None => tr(k + 1) == tr(k)
       case Some(e) => !e.Crash? && !e.Shutdown? && Step(plan, tr(k), e) == Some(tr(k + 1))
  }

  ghost predicate Endless(plan: Plan, tr: Trace, ev: Schedule) {
    && tr(0).workers != [] && Startable(plan, tr(0).tasks) && tr(0) == EnterWith(tr(0).tasks, |tr(0).workers|)
    && forall k: nat :: Moment(plan, tr, ev, k)
  }

  predicate OfWorker(e: Event, w: nat) {
    !e.Dispatch? && !e.Shutdown? && !e.Crash? && e.w == w
  }

  /** Worker `w` has something to do. */
  predicate Enabled(s: State, w: nat) {
    w < |s.workers| && !s.workers[w].Stopped? && (s.workers[w].Idle? ==> s.queue != [])
  }

  ghost predicate DispatcherTurn(tr: Trace, ev: Schedule, k: nat, m: nat) {
    m >= k && (ev(m) == Some(Dispatch) || tr(m).disp.Exited?)
  }

  ghost predicate WorkerTurn(tr: Trace, ev: Schedule, k: nat, w: nat, m: nat) {
    m >= k && ((ev(m).Some? && OfWorker(ev(m).value, w)) || !Enabled(tr(m), w))
  }

  /** Weak fairness: from any moment on, the dispatcher steps again or has left, and each worker steps again or is
      at some time without anything to do. Waiting for the state lock is only a delay under it. */
  ghost predicate Fair(tr: Trace, ev: Schedule) {
    && (forall k: nat :: Dispatches(tr, ev, k))
    && (forall k: nat, w: nat :: Serves(tr, ev, k, w))
  }

  ghost predicate Dispatches(tr: Trace, ev: Schedule, k: nat) {
    exists m: nat :: DispatcherTurn(tr, ev, k, m)
  }

  ghost predicate Serves(tr: Trace, ev: Schedule, k: nat, w: nat) {
    exists m: nat :: WorkerTurn(tr, ev, k, w, m)
  }

  // ---------------------------------------------------------------- what stays while nothing is achieved

  lemma {:induction false} GoodAlways(plan: Plan, tr: Trace, ev: Schedule, k: nat)
    requires Endless(plan, tr, ev)
    ensures Good(plan, tr(k))
  {
    hide Inv, Live, Step, Startable;
    if k == 0 {
      GoodAtStart(plan, tr, ev);
    } else {
      GoodAlways(plan, tr, ev, k - 1);
      assert Moment(plan, tr, ev, k - 1);
      if ev(k - 1).Some? {
        StepInv(plan, tr(k - 1), ev(k - 1).value);
        StepLive(plan, tr(k - 1), ev(k - 1).value);
      }
    }
  }

  lemma GoodAtStart(plan: Plan, tr: Trace, ev: Schedule)
    requires Endless(plan, tr, ev)
    ensures Good(plan, tr(0))
  {
    EnterInv(plan, tr(0).tasks, |tr(0).workers|);
    EnterLive(plan, tr(0).tasks, |tr(0).workers|);
  }

  /** In the loop, with something undecided, every worker step achieves something, and so does the dispatcher
      unless it only moves on. */
  lemma QuietStep(plan: Plan, s: State, e: Event)
    requires Good(plan, s) && !AllFinal(s.tasks) && !e.Crash? && !e.Shutdown? && Step(plan, s, e).Some?
    ensures var s' := Step(plan, s, e).value;
            || WorkLeft(s') < WorkLeft(s)
            || (e.Dispatch? && !Works(plan, s, e) && WorkLeft(s') == WorkLeft(s)
                && s' == s.(disp := s'.disp) && Looping(s'.disp))
  {
    hide Owned, Justified, Grows, WorkersAgree, Bounded, Admitted, WorkLeft, DepsPassed, DepsBroken;
    StepLowers(plan, s, e);
    if e.Take? {
      assert s.queue[0] in s.queue;
    }
  }

  /** Work never grows; and while it is the same, only the dispatcher's position changes. */
  lemma {:induction false} Onward(plan: Plan, tr: Trace, ev: Schedule, k: nat, m: nat)
    requires Endless(plan, tr, ev) && k <= m && !AllFinal(tr(k).tasks)
    ensures WorkLeft(tr(m)) <= WorkLeft(tr(k))
    ensures WorkLeft(tr(m)) == WorkLeft(tr(k)) ==>
              tr(m) == tr(k).(disp := tr(m).disp) && Looping(tr(m).disp)
  {
    hide WorkLeft, Step, Startable, Inv;
    GoodAlways(plan, tr, ev, k);
    if k == m {
      UndecidedLoops(plan, tr(k));
    } else {
      Onward(plan, tr, ev, k, m - 1);
      GoodAlways(plan, tr, ev, m - 1);
      assert Moment(plan, tr, ev, m - 1);
      if ev(m - 1).Some? {
        var e := ev(m - 1).value;
        StepLowers(plan, tr(m - 1), e);
        if WorkLeft(tr(m - 1)) == WorkLeft(tr(k)) {
          QuietStep(plan, tr(m - 1), e);
        }
      }
    }
  }

  lemma UndecidedLoops(plan: Plan, s: State)
    requires Good(plan, s) && !AllFinal(s.tasks)
    ensures Looping(s.disp)
  {
    hide Inv;
  }

  // ---------------------------------------------------------------- something is achieved

  /** Until its next step the dispatcher stays where it is. */
  lemma {:induction false} FirstDispatch(plan: Plan, tr: Trace, ev: Schedule, k: nat, m: nat) returns (d: nat)
    requires Endless(plan, tr, ev) && k <= m && ev(m) == Some(Dispatch)
    ensures k <= d <= m && ev(d) == Some(Dispatch) && tr(d).disp == tr(k).disp && |tr(d).workers| == |tr(k).workers|
    decreases m - k
  {
    if ev(k) == Some(Dispatch) {
      d := k;
    } else {
      hide DispatchStep, Startable;
      assert Moment(plan, tr, ev, k);
      d := FirstDispatch(plan, tr, ev, k + 1, m);
    }
  }

  /** The dispatcher's next step: it comes, and finds the state unchanged unless something was achieved. */
  lemma OneDispatch(plan: Plan, tr: Trace, ev: Schedule, k: nat) returns (j: nat)
    requires Endless(plan, tr, ev) && Fair(tr, ev) && !AllFinal(tr(k).tasks)
    ensures j > k && Shaped(plan, tr(k))
    ensures WorkLeft(tr(j)) < WorkLeft(tr(k)) || DispatchStep(plan, tr(k)) == Some(tr(j))
  {
    hide WorkLeft, DispatchStep, Startable, Inv, Live;
    GoodAlways(plan, tr, ev, k);
    InvShapes(plan, tr(k));
    assert Dispatches(tr, ev, k);
    var m: nat :| DispatcherTurn(tr, ev, k, m);
    Onward(plan, tr, ev, k, m);
    if WorkLeft(tr(m)) < WorkLeft(tr(k)) {
      j := m;
    } else {
      var d := FirstDispatch(plan, tr, ev, k, m);
      Onward(plan, tr, ev, k, d);
      assert Moment(plan, tr, ev, d);
      if WorkLeft(tr(d)) < WorkLeft(tr(k)) {
        j := d;
      } else {
        j := d + 1;
      }
    }
  }

  /** An open task whose dependencies are decided does not stay open: the dispatcher comes to it. */
  lemma {:induction false} DispatcherAchieves(plan: Plan, tr: Trace, ev: Schedule, k: nat, m: nat) returns (j: nat)
    requires Endless(plan, tr, ev) && Fair(tr, ev) && m < |plan| == |tr(k).tasks|
    requires m !in tr(k).enqueued && tr(k).tasks[m].status.Pending?
    requires forall i | i in KnownDeps(plan, m) :: i < |plan| && tr(k).tasks[i].status.Final()
    ensures j > k && WorkLeft(tr(j)) < WorkLeft(tr(k))
    decreases Distance(plan, tr(k).disp, m)
  {
    hide Owned, Justified, Grows, WorkersAgree, Bounded, Admitted, WorkLeft, KnownDeps, Endless, Fair, Live;
    var s := tr(k);
    GoodAlways(plan, tr, ev, k);
    assert !AllFinal(s.tasks) by { assert !s.tasks[m].status.Final(); }
    UndecidedLoops(plan, s);
    j := OneDispatch(plan, tr, ev, k);
    if WorkLeft(tr(j)) >= WorkLeft(s) {
      QuietStep(plan, s, Dispatch);
      if s.disp == Scan(m) {
        var j1 := j;
        j := OneDispatch(plan, tr, ev, j1);
        GoodAlways(plan, tr, ev, j1);
        assert Works(plan, tr(j1), Dispatch);
        if WorkLeft(tr(j)) >= WorkLeft(tr(j1)) {
          StepLowers(plan, tr(j1), Dispatch);
        }
      } else {
        j := DispatcherAchieves(plan, tr, ev, j, m);
      }
    }
  }

  lemma WorkerAchieves(plan: Plan, tr: Trace, ev: Schedule, k: nat, w: nat) returns (j: nat)
    requires Endless(plan, tr, ev) && Fair(tr, ev) && !AllFinal(tr(k).tasks) && Enabled(tr(k), w)
    ensures j > k && WorkLeft(tr(j)) < WorkLeft(tr(k))
  {
    hide WorkLeft, Startable, Inv, Step, Live;
    assert Serves(tr, ev, k, w);
    var m: nat :| WorkerTurn(tr, ev, k, w, m);
    Onward(plan, tr, ev, k, m);
    if WorkLeft(tr(m)) < WorkLeft(tr(k)) {
      j := m;
    } else {
      assert Moment(plan, tr, ev, m);
      GoodAlways(plan, tr, ev, m);
      QuietStep(plan, tr(m), ev(m).value);
      j := m + 1;
    }
  }

  /** While some task is undecided, something is achieved sooner or later. */
  lemma Achieves(plan: Plan, rank: seq<nat>, tr: Trace, ev: Schedule, k: nat) returns (j: nat)
    requires Ranked(plan, rank) && Endless(plan, tr, ev) && Fair(tr, ev) && !AllFinal(tr(k).tasks)
    ensures j > k && WorkLeft(tr(j)) < WorkLeft(tr(k))
  {
    hide Justified, Grows, WorkersAgree, WorkLeft, DepsPassed, DepsBroken, Endless, Fair, KnownDeps, Ranked;
    GoodAlways(plan, tr, ev, k);
    var s := tr(k);
    UndecidedLoops(plan, s);
    var i :| 0 <= i < |s.tasks| && !s.tasks[i].status.Final();
    var m := LowestOpen(plan, rank, s.tasks, i);
    forall j | j in KnownDeps(plan, m)
      ensures j < |plan|
    {
      KnownInRange(plan, m, j);
    }
    if m !in s.enqueued {
      j := DispatcherAchieves(plan, tr, ev, k, m);
    } else if w: nat :| w < |s.workers| && s.workers[w].Holds(m) {
      j := WorkerAchieves(plan, tr, ev, k, w);
    } else {
      assert s.workers[0] in s.workers;
      j := WorkerAchieves(plan, tr, ev, k, 0);
    }
  }

  lemma {:induction false} ReachesEnd(plan: Plan, rank: seq<nat>, tr: Trace, ev: Schedule, k: nat) returns (j: nat)
    requires Ranked(plan, rank) && Endless(plan, tr, ev) && Fair(tr, ev)
    ensures j >= k && AllFinal(tr(j).tasks)
    decreases WorkLeft(tr(k))
  {
    if AllFinal(tr(k).tasks) {
      j := k;
    } else {
      hide WorkLeft, Ranked, Endless, Fair, AllFinal, Justified, Owned, Admitted, Grows, Live;
      j := Achieves(plan, rank, tr, ev, k);
      GoodAlways(plan, tr, ev, j);
      WorkIsNatural(plan, tr(j));
      j := ReachesEnd(plan, rank, tr, ev, j);
    }
  }

  lemma WorkIsNatural(plan: Plan, s: State)
    requires Inv(plan, s)
    ensures WorkLeft(s) >= 0
  {
    PoolNonNegative(s, s.workers);
  }

  lemma {:induction false} ReachesExit(plan: Plan, tr: Trace, ev: Schedule, k: nat) returns (j: nat)
    requires Endless(plan, tr, ev) && Fair(tr, ev) && AllFinal(tr(k).tasks)
    ensures tr(j).disp == Exited(AllDone) && AllFinal(tr(j).tasks)
    decreases ExitDistance(plan, tr(k))
  {
    hide WorkLeft, Startable, Justified, Owned, Admitted, Grows, WorkersAgree, Bounded, DepsPassed, DepsBroken, WorkStep;
    assert Dispatches(tr, ev, k);
    var m: nat :| DispatcherTurn(tr, ev, k, m);
    if tr(m).disp.Exited? {
      j := m;
      StaysFinal(plan, tr, ev, k, m);
      GoodAlways(plan, tr, ev, m);
    } else {
      var d := FirstDispatch(plan, tr, ev, k, m);
      StaysFinal(plan, tr, ev, k, d);
      StaysFinal(plan, tr, ev, k, d + 1);
      GoodAlways(plan, tr, ev, d);
      assert Moment(plan, tr, ev, d);
      hide Endless, Fair, AllFinal;
      j := ReachesExit(plan, tr, ev, d + 1);
    }
  }

  lemma {:induction false} StaysFinal(plan: Plan, tr: Trace, ev: Schedule, k: nat, m: nat)
    requires Endless(plan, tr, ev) && k <= m && AllFinal(tr(k).tasks)
    ensures AllFinal(tr(m).tasks)
  {
    if k < m {
      hide Step, Startable, Inv;
      StaysFinal(plan, tr, ev, k, m - 1);
      GoodAlways(plan, tr, ev, m - 1);
      assert Moment(plan, tr, ev, m - 1);
      if ev(m - 1).Some? {
        StepGrows(plan, tr(m - 1), ev(m - 1).value);
      }
    }
  }

  /** Every fair run without stop or crash on an acyclic sprint, whatever the outside world answers and whatever
      the number of workers, reaches the regular exit with every task decided, and then reports success exactly
      when every task passed. */
  lemma FairRunsFinish(plan: Plan, rank: seq<nat>, tr: Trace, ev: Schedule) returns (k: nat)
    requires Ranked(plan, rank) && Endless(plan, tr, ev) && Fair(tr, ev)
    ensures tr(k).disp == Exited(AllDone) && AllFinal(tr(k).tasks)
    ensures Returned(tr(k).tasks) <==> AllPassed(tr(k).tasks)
  {
    hide Ranked, Endless, Fair;
    k := ReachesEnd(plan, rank, tr, ev, 0);
    k := ReachesExit(plan, tr, ev, k);
  }
}
