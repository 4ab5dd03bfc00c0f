/** What the dedup check can lose. A finding silences its key for the window as soon as it gets past the check, before
    any sink is asked (crates/aether-output/src/pipeline.rs), so its successors can be dropped though nothing of the
    key was ever delivered. */
module PipelineLoss {
  import opened Results
  import opened Clocks
  import opened Diagnostics
  import opened Pipeline

  /** Dispatch `i` of the same key reached a sink less than a window before dispatch `j`. */
  ghost predicate Covers(cfg: Config, calls: seq<Dispatched>, outcomes: seq<Outcome>, i: nat, j: nat)
    requires i < j < |calls| == |outcomes|
  {
    && calls[i].diagnostic.Key() == calls[j].diagnostic.Key() && outcomes[i].sinks != []
    && calls[j].checked - calls[i].checked < cfg.dedupWindow
  }

  /** Dispatch `j` is dropped by the dedup check although some sink would take it and none got the key lately. */
  ghost predicate Lost(cfg: Config, calls: seq<Dispatched>, j: nat)
    requires j < |calls|
  {
    var outcomes := Run(cfg, calls).1;
    && !outcomes[j].passed
    && Willing(cfg, calls[..j], outcomes[..j], calls[j], |cfg.sinks|) != []
    && forall i: nat | i < j :: !Covers(cfg, calls, outcomes, i, j)
  }

  // ---------------------------------------------------------------- filling every sink

  /** A critical finding about a process of its own; `n` makes the key. */
  function Urgent(n: nat): Diagnostic {
    Diagnostic(n, "", Process(n, ""), Critical, CpuSpike, "", [],
               Recommendation(NoAction(""), "", Immediate, false), 0, None)
  }

  function At(n: nat, checked: int, sending: int): Dispatched {
    Dispatched(Urgent(n), checked, sending)
  }

  /** `m` findings with keys of their own, all at time zero. */
  function Burst(m: nat): seq<Dispatched> {
    if m == 0 then [] else Burst(m - 1) + [At(m, 0, 0)]
  }

  lemma {:induction false} BurstAt(m: nat)
    ensures |Burst(m)| == m && forall i: nat | i < m :: Burst(m)[i] == At(i + 1, 0, 0)
  {
    if m > 0 {
      BurstAt(m - 1);
    }
  }

  lemma {:induction false} RunPrefix(cfg: Config, calls: seq<Dispatched>, n: nat)
    requires n <= |calls|
    ensures Run(cfg, calls[..n]).1 == Run(cfg, calls).1[..n]
    decreases |calls| - n
  {
    hide Dispatch;
    if n < |calls| {
      RunPrefix(cfg, calls, n + 1);
      assert calls[..n + 1][..n] == calls[..n];
      assert Run(cfg, calls[..n + 1]).1[..n] == Run(cfg, calls[..n]).1;
    } else {
      assert calls[..n] == calls;
    }
  }

  function Zeros(m: nat): (r: seq<int>)
    ensures |r| == m
  {
    if m == 0 then [] else Zeros(m - 1) + [0]
  }

  /** Times at zero are recent until a minute has passed, and then none is. */
  lemma {:induction false} ZerosRecent(m: nat, now: int)
    requires now >= 0
    ensures |Recent(Zeros(m), now)| == if now < MINUTE then m else 0
  {
    if m > 0 {
      hide Recent;
      ZerosRecent(m - 1, now);
      RecentSnoc(Zeros(m - 1), 0, now);
    }
  }

  /** The last of a burst gets past the check, and comes at time zero. */
  lemma {:induction false} BurstPasses(cfg: Config, m: nat)
    requires m > 0
    ensures |Burst(m)| == m && Ordered(Burst(m)) && Burst(m)[..m - 1] == Burst(m - 1)
    ensures Burst(m)[m - 1] == At(m, 0, 0) && Run(cfg, Burst(m)).1[m - 1].passed
  {
    hide Run;
    BurstAt(m);
    PassesExactly(cfg, Burst(m), m - 1);
  }

  /** Up to the limit, a burst is delivered to every sink, whatever its minimum severity. */
  lemma {:induction false} BurstDelivers(cfg: Config, m: nat, sink: nat)
    requires m <= cfg.maxPerMinute && sink < |cfg.sinks|
    ensures |Burst(m)| == m && Deliveries(Burst(m), Run(cfg, Burst(m)).1, sink) == Zeros(m)
  {
    hide Run, Recent, Deliveries, Burst, Ordered, At;
    if m == 0 {
      EmptyBurst(cfg, sink);
    } else {
      BurstPasses(cfg, m);
      RunPrefix(cfg, Burst(m), m - 1);
      BurstDelivers(cfg, m - 1, sink);
      BurstNext(cfg, m - 1, sink);
    }
  }

  lemma EmptyBurst(cfg: Config, sink: nat)
    ensures Burst(0) == [] && Deliveries([], Run(cfg, []).1, sink) == []
  {
  }

  lemma BurstNext(cfg: Config, n: nat, sink: nat)
    requires n < cfg.maxPerMinute && sink < |cfg.sinks| && |Burst(n + 1)| == n + 1
    requires Deliveries(Burst(n + 1)[..n], Run(cfg, Burst(n + 1)).1[..n], sink) == Zeros(n)
    ensures Deliveries(Burst(n + 1), Run(cfg, Burst(n + 1)).1, sink) == Zeros(n + 1)
  {
    hide Run, Recent, Deliveries, Burst, Ordered;
    var calls := Burst(n + 1);
    BurstPasses(cfg, n + 1);
    DeliveredByRank(cfg, calls, n, sink);
    ZerosRecent(n, 0);
    DeliveriesLast(calls, Run(cfg, calls).1, sink, n);
  }

  // ---------------------------------------------------------------- main results

  /** A key is silenced by a finding that no sink took: with every sink at its limit, the finding's successor is
      dropped just as the minute is over and every sink would take it. */
  lemma {:induction false} SilencedByRefused(cfg: Config) returns (calls: seq<Dispatched>, j: nat)
    requires cfg.dedupWindow > 0 && cfg.maxPerMinute > 0 && cfg.sinks != []
    ensures Ordered(calls) && j < |calls| && Lost(cfg, calls, j)
  {
    var m := cfg.maxPerMinute;
    var last := MINUTE - 1;
    BurstAt(m);
    calls := Burst(m) + [At(0, last, last), At(0, last, MINUTE)];
    j := m + 1;
    hide Run, Willing, Recent, Deliveries;
    RefusedThenLost(cfg, calls);
  }

  lemma {:induction false} RefusedThenLost(cfg: Config, calls: seq<Dispatched>)
    requires cfg.dedupWindow > 0 && cfg.maxPerMinute > 0 && cfg.sinks != []
    requires calls == Burst(cfg.maxPerMinute) + [At(0, MINUTE - 1, MINUTE - 1), At(0, MINUTE - 1, MINUTE)]
    ensures |calls| == cfg.maxPerMinute + 2 && Ordered(calls) && Lost(cfg, calls, cfg.maxPerMinute + 1)
  {
    hide Run, Willing, Recent, Deliveries;
    var m := cfg.maxPerMinute;
    BurstAt(m);
    var outcomes, n := Run(cfg, calls).1, m + 1;
    PassesExactly(cfg, calls, m);
    PassesExactly(cfg, calls, n);
    RefusedByAll(cfg, calls);
    assert !outcomes[n].passed by {
      assert outcomes[m].passed;
    }
    WelcomeLater(cfg, calls);
    forall i: nat | i < n
      ensures !Covers(cfg, calls, outcomes, i, n)
    {
      assert i < m ==> calls[i] == At(i + 1, 0, 0);
    }
  }

  /** The finding after the burst gets past the check and is refused by every sink. */
  lemma {:induction false} RefusedByAll(cfg: Config, calls: seq<Dispatched>)
    requires calls == Burst(cfg.maxPerMinute) + [At(0, MINUTE - 1, MINUTE - 1), At(0, MINUTE - 1, MINUTE)]
    requires |calls| == cfg.maxPerMinute + 2 && Ordered(calls)
    ensures Run(cfg, calls).1[cfg.maxPerMinute].sinks == []
  {
    hide Run, Willing, Recent, Deliveries, Ordered;
    var m := cfg.maxPerMinute;
    var sinks := Run(cfg, calls).1[m].sinks;
    assert calls[..m] == Burst(m);
    RunPrefix(cfg, calls, m);
    forall sink: nat
      ensures sink !in sinks
    {
      DeliveredByRank(cfg, calls, m, sink);
      if sink < |cfg.sinks| {
        BurstDelivers(cfg, m, sink);
        ZerosRecent(m, MINUTE - 1);
      }
    }
    NoMembers(sinks);
  }

  lemma NoMembers(s: seq<nat>)
    requires forall x: nat :: x !in s
    ensures s == []
  {
    if s != [] {
      FirstMember(s);
    }
  }

  lemma FirstMember(s: seq<nat>)
    requires s != []
    ensures s[0] in s
  {
  }

  /** A moment later every sink would take it. */
  lemma {:induction false} WelcomeLater(cfg: Config, calls: seq<Dispatched>)
    requires cfg.maxPerMinute > 0 && cfg.sinks != []
    requires calls == Burst(cfg.maxPerMinute) + [At(0, MINUTE - 1, MINUTE - 1), At(0, MINUTE - 1, MINUTE)]
    requires |calls| == cfg.maxPerMinute + 2 && Ordered(calls)
    ensures var n := cfg.maxPerMinute + 1;
            Willing(cfg, calls[..n], Run(cfg, calls).1[..n], calls[n], |cfg.sinks|) != []
  {
    hide Run, Recent, Deliveries, Ordered;
    var m := cfg.maxPerMinute;
    var past, seen := calls[..m + 1], Run(cfg, calls).1[..m + 1];
    RefusedByAll(cfg, calls);
    assert past[..m] == Burst(m) && seen[..m] == Run(cfg, calls).1[..m] && calls[..m] == Burst(m);
    RunPrefix(cfg, calls, m);
    BurstDelivers(cfg, m, 0);
    DeliveriesLast(past, seen, 0, m);
    ZerosRecent(m, MINUTE);
    var willing := Willing(cfg, past, seen, calls[m + 1], |cfg.sinks|);
    assert 0 in willing;
  }

  /** The dedup check loses nothing, over every run, if and only if it is off or no sink ever takes anything. */
  lemma {:induction false} NothingLostExactly(cfg: Config)
    ensures (forall calls: seq<Dispatched>, j: nat | Ordered(calls) && j < |calls| :: !Lost(cfg, calls, j)) <==>
              cfg.dedupWindow == 0 || cfg.maxPerMinute == 0 || cfg.sinks == []
  {
    hide Run, Willing, Ordered, Covers, Lost;
    if cfg.dedupWindow == 0 || cfg.maxPerMinute == 0 || cfg.sinks == [] {
      forall calls: seq<Dispatched>, j: nat | Ordered(calls) && j < |calls|
        ensures !Lost(cfg, calls, j)
      {
        NeverLost(cfg, calls, j);
      }
    } else {
      var calls, j := SilencedByRefused(cfg);
    }
  }

  lemma {:induction false} NeverLost(cfg: Config, calls: seq<Dispatched>, j: nat)
    requires Ordered(calls) && j < |calls|
    requires cfg.dedupWindow == 0 || cfg.maxPerMinute == 0 || cfg.sinks == []
    ensures !Lost(cfg, calls, j)
  {
    hide Run, Recent, Deliveries;
    PassesExactly(cfg, calls, j);
    var willing := Willing(cfg, calls[..j], Run(cfg, calls).1[..j], calls[j], |cfg.sinks|);
    if cfg.dedupWindow == 0 {
      hide Willing;
      assert forall i | 0 <= i < j :: calls[i].checked <= calls[i].sending <= calls[j].checked;
    } else {
      assert forall s: nat :: s !in willing;
      NoMembers(willing);
    }
  }

  /** Run by run: when every finding that gets past the check reaches a sink, nothing is lost. */
  lemma {:induction false} NothingLostWhenDelivered(cfg: Config, calls: seq<Dispatched>, j: nat)
    requires Ordered(calls) && j < |calls|
    requires forall i | 0 <= i < j && Run(cfg, calls).1[i].passed :: Run(cfg, calls).1[i].sinks != []
    ensures !Lost(cfg, calls, j)
  {
    hide Run, Willing;
    PassesExactly(cfg, calls, j);
    var outcomes := Run(cfg, calls).1;
    if !outcomes[j].passed {
      var i :| 0 <= i < j && outcomes[i].passed && calls[i].diagnostic.Key() == calls[j].diagnostic.Key()
        && calls[j].checked - calls[i].checked < cfg.dedupWindow;
      assert Covers(cfg, calls, outcomes, i, j);
    }
  }
}
