/** Dispatch of findings to output sinks (crates/aether-output/src/pipeline.rs): a dedup window per
    (target, category) key and a per-sink limit on deliveries in a sliding minute. */
module Pipeline {
  import opened Clocks
  import opened Diagnostics

  type Key = (DiagTarget, DiagCategory)

  /** `sinks` lists each sink's minimum severity. */
  datatype Config = Config(sinks: seq<Severity>, dedupWindow: nat, maxPerMinute: nat)

  /** What the pipeline keeps between dispatches; delivery times are pruned as it goes. */
  datatype Memory = Memory(lastSent: map<Key, int>, rates: map<nat, seq<int>>)

  /** One dispatch. The clock is read once for the dedup check and once more for the rate limit. */
  datatype Dispatched = Dispatched(diagnostic: Diagnostic, checked: int, sending: int)

  /** Whether the dedup check let the finding past, and the sinks it was handed to. */
  datatype Outcome = Outcome(passed: bool, sinks: seq<nat>)

  /** Delivery times less than a minute old. */
  function Recent(times: seq<int>, now: int): (r: seq<int>)
    ensures |r| <= |times|
  {
    if times == [] then []
    else
      var rest := Recent(times[..|times| - 1], now);
      if Elapsed(times[|times| - 1], now) < MINUTE then rest + [times[|times| - 1]] else rest
  }

  function TimesOf(rates: map<nat, seq<int>>, sink: nat): seq<int> {
    if sink in rates then rates[sink] else []
  }

  /** Rate state after one sink was considered, and whether it gets the finding. */
  function OfferOne(cfg: Config, rates: map<nat, seq<int>>, call: Dispatched, sink: nat): (map<nat, seq<int>>, bool)
    requires sink < |cfg.sinks|
  {
    var kept := Recent(TimesOf(rates, sink), call.sending);
    if call.diagnostic.severity.Rank() < cfg.sinks[sink].Rank() then (rates, false)
    else if |kept| >= cfg.maxPerMinute then (rates[sink := kept], false)
    else (rates[sink := kept + [call.sending]], true)
  }

  /** Rate state and receiving sinks after the first `n` sinks were considered. */
  function Offer(cfg: Config, rates: map<nat, seq<int>>, call: Dispatched, n: nat): (map<nat, seq<int>>, seq<nat>)
    requires n <= |cfg.sinks|
  {
    if n == 0 then (rates, [])
    else
      var (before, sent) := Offer(cfg, rates, call, n - 1);
      var (after, accepted) := OfferOne(cfg, before, call, n - 1);
      (after, if accepted then sent + [n - 1] else sent)
  }

  function Dispatch(cfg: Config, m: Memory, call: Dispatched): (Memory, Outcome) {
    var key := call.diagnostic.Key();
    if key in m.lastSent && Elapsed(m.lastSent[key], call.checked) < cfg.dedupWindow then (m, Outcome(false, []))
    else
      var (rates, sent) := Offer(cfg, m.rates, call, |cfg.sinks|);
      (Memory(m.lastSent[key := call.checked], rates), Outcome(true, sent))
  }

  class OutputPipeline {
    const cfg: Config
    var lastSent: map<Key, int>
    var rateState: map<nat, seq<int>>

    constructor (sinks: seq<Severity>, dedupWindow: nat, maxPerMinute: nat := 10)
      ensures cfg == Config(sinks, dedupWindow, maxPerMinute)
      ensures State() == Memory(map[], map[])
    {
      cfg := Config(sinks, dedupWindow, maxPerMinute);
      lastSent := map[];
      rateState := map[];
    }

    function State(): Memory
      reads this
    {
      Memory(lastSent, rateState)
    }

    method DispatchOne(call: Dispatched) returns (outcome: Outcome)
      modifies this
      ensures (State(), outcome) == Dispatch(cfg, old(State()), call)
    {
      hide Recent;
      var key := call.diagnostic.Key();
      if key in lastSent {
        if Elapsed(lastSent[key], call.checked) < cfg.dedupWindow {
          return Outcome(false, []);
        }
      }
      lastSent := lastSent[key := call.checked];

      var sent := [];
      for idx := 0 to |cfg.sinks|
        invariant lastSent == old(lastSent)[key := call.checked]
        invariant (rateState, sent) == Offer(cfg, old(rateState), call, idx)
      {
        if call.diagnostic.severity.Rank() < cfg.sinks[idx].Rank() {
          continue;
        }
        ghost var before := rateState;
        if idx !in rateState {
          rateState := rateState[idx := []];
        }
        var timestamps := Retain(rateState[idx], call.sending);
        rateState := rateState[idx := timestamps];
        assert rateState == before[idx := timestamps];
        if |timestamps| >= cfg.maxPerMinute {
          continue;
        }
        rateState := rateState[idx := timestamps + [call.sending]];
        assert rateState == before[idx := timestamps + [call.sending]];
        sent := sent + [idx];
      }
      return Outcome(true, sent);
    }
  }

  /** Drops the timestamps a minute old or older, in order. */
  method Retain(times: seq<int>, now: int) returns (kept: seq<int>)
    ensures kept == Recent(times, now)
  {
    kept := [];
    for i := 0 to |times|
      invariant kept == Recent(times[..i], now)
    {
      assert times[..i + 1][..i] == times[..i];
      if Elapsed(times[i], now) < MINUTE {
        kept := kept + [times[i]];
      }
    }
    assert times[..|times|] == times;
  }

  // ---------------------------------------------------------------- whole runs

  /** Memory and outcomes after a run of dispatches on a new pipeline. */
  function Run(cfg: Config, calls: seq<Dispatched>): (r: (Memory, seq<Outcome>))
    ensures |r.1| == |calls|
  {
    if calls == [] then (Memory(map[], map[]), [])
    else
      var (m, outcomes) := Run(cfg, calls[..|calls| - 1]);
      var (after, outcome) := Dispatch(cfg, m, calls[|calls| - 1]);
      (after, outcomes + [outcome])
  }

  /** The clock never goes back, within one dispatch or between two. */
  ghost predicate Ordered(calls: seq<Dispatched>) {
    && (forall i | 0 <= i < |calls| :: calls[i].checked <= calls[i].sending)
    && (forall i, j | 0 <= i < j < |calls| :: calls[i].sending <= calls[j].checked)
  }

  /** Every delivery ever made to a sink, oldest first. Nothing is pruned. */
  function Deliveries(calls: seq<Dispatched>, outcomes: seq<Outcome>, sink: nat): (r: seq<int>)
    requires |calls| == |outcomes|
  {
    if calls == [] then []
    else
      var n := |calls| - 1;
      Deliveries(calls[..n], outcomes[..n], sink) + (if sink in outcomes[n].sinks then [calls[n].sending] else [])
  }

  /** Sinks among the first `n` that accept the severity and had fewer than the limit in the last minute,
      judged on the whole past. */
  function Willing(cfg: Config, past: seq<Dispatched>, outcomes: seq<Outcome>, call: Dispatched, n: nat): (r: seq<nat>)
    requires |past| == |outcomes| && n <= |cfg.sinks|
    ensures forall s: nat :: s in r <==>
              s < n && cfg.sinks[s].Rank() <= call.diagnostic.severity.Rank()
              && |Recent(Deliveries(past, outcomes, s), call.sending)| < cfg.maxPerMinute
  {
    if n == 0 then []
    else
      Willing(cfg, past, outcomes, call, n - 1)
      + (if cfg.sinks[n - 1].Rank() <= call.diagnostic.severity.Rank()
            && |Recent(Deliveries(past, outcomes, n - 1), call.sending)| < cfg.maxPerMinute then [n - 1] else [])
  }

  /** No earlier dispatch of the same key got past the dedup check within the window. */
  ghost predicate Novel(cfg: Config, past: seq<Dispatched>, outcomes: seq<Outcome>, call: Dispatched)
    requires |past| == |outcomes|
  {
    forall i | 0 <= i < |past| && outcomes[i].passed && past[i].diagnostic.Key() == call.diagnostic.Key() ::
      call.checked - past[i].checked >= cfg.dedupWindow
  }

  /** What a dispatch should do, judged on the whole past with no memory of its own. */
  ghost function Judged(cfg: Config, past: seq<Dispatched>, outcomes: seq<Outcome>, call: Dispatched): Outcome
    requires |past| == |outcomes|
  {
    if Novel(cfg, past, outcomes, call) then Outcome(true, Willing(cfg, past, outcomes, call, |cfg.sinks|))
    else Outcome(false, [])
  }

  // ---------------------------------------------------------------- the memory is enough

  /** The memory holds the latest pass of every key. */
  ghost predicate KnowsPasses(m: Memory, calls: seq<Dispatched>, outcomes: seq<Outcome>)
    requires |calls| == |outcomes|
  {
    && (forall i | 0 <= i < |calls| && outcomes[i].passed ::
          calls[i].diagnostic.Key() in m.lastSent && calls[i].checked <= m.lastSent[calls[i].diagnostic.Key()])
    && (forall key | key in m.lastSent ::
          exists i :: 0 <= i < |calls| && outcomes[i].passed && calls[i].diagnostic.Key() == key
                      && calls[i].checked == m.lastSent[key])
  }

  /** From `now` on, pruned delivery times look exactly like the full ones. */
  ghost predicate Alike(pruned: seq<int>, full: seq<int>, now: int) {
    forall later | later >= now :: Recent(pruned, later) == Recent(full, later)
  }

  ghost predicate KnowsRates(m: Memory, calls: seq<Dispatched>, outcomes: seq<Outcome>, now: int)
    requires |calls| == |outcomes|
  {
    forall sink: nat :: Alike(TimesOf(m.rates, sink), Deliveries(calls, outcomes, sink), now)
  }

  lemma {:induction false} RecentTwice(times: seq<int>, now: int, later: int)
    requires now <= later
    ensures Recent(Recent(times, now), later) == Recent(times, later)
  {
    if times != [] {
      var n := |times| - 1;
      RecentTwice(times[..n], now, later);
      var rest := Recent(times[..n], now);
      assert (rest + [times[n]])[..|rest|] == rest;
    }
  }

  lemma RecentSnoc(times: seq<int>, t: int, now: int)
    ensures Recent(times + [t], now) == Recent(times, now) + (if Elapsed(t, now) < MINUTE then [t] else [])
  {
    assert (times + [t])[..|times|] == times;
  }

  /** Pruning, and appending the same delivery on both sides, keeps the two alike. */
  lemma AlikeAfter(pruned: seq<int>, full: seq<int>, now: int, sending: int)
    requires Alike(pruned, full, now) && now <= sending
    ensures Alike(Recent(pruned, sending), full, sending)
    ensures Alike(Recent(pruned, sending) + [sending], full + [sending], sending)
    ensures Alike(pruned, full, sending)
  {
    forall later | later >= sending
      ensures Recent(Recent(pruned, sending), later) == Recent(full, later)
      ensures Recent(Recent(pruned, sending) + [sending], later) == Recent(full + [sending], later)
    {
      RecentTwice(pruned, sending, later);
      RecentSnoc(Recent(pruned, sending), sending, later);
      RecentSnoc(full, sending, later);
    }
  }

  /** Considering one sink on the pruned memory decides as the whole past would, and keeps it alike. */
  lemma OneSink(cfg: Config, rates: map<nat, seq<int>>, full: seq<int>, call: Dispatched, now: int, sink: nat)
    requires sink < |cfg.sinks| && now <= call.sending && Alike(TimesOf(rates, sink), full, now)
    ensures var (after, accepted) := OfferOne(cfg, rates, call, sink);
            && (accepted <==> cfg.sinks[sink].Rank() <= call.diagnostic.severity.Rank()
                              && |Recent(full, call.sending)| < cfg.maxPerMinute)
            && (forall other: nat | other != sink :: TimesOf(after, other) == TimesOf(rates, other))
            && Alike(TimesOf(after, sink), if accepted then full + [call.sending] else full, call.sending)
  {
    hide Alike, Recent;
    AlikeNow(TimesOf(rates, sink), full, now, call.sending);
    AlikeAfter(TimesOf(rates, sink), full, now, call.sending);
  }

  /** Considering the first `n` sinks on the pruned memory picks the sinks the whole past would pick. */
  lemma {:induction false} OfferIsWilling(cfg: Config, m: Memory, past: seq<Dispatched>, outcomes: seq<Outcome>,
                                          call: Dispatched, now: int, n: nat)
    requires |past| == |outcomes| && n <= |cfg.sinks| && now <= call.sending
    requires KnowsRates(m, past, outcomes, now)
    ensures var (rates, sent) := Offer(cfg, m.rates, call, n);
            && sent == Willing(cfg, past, outcomes, call, n)
            && (forall sink: nat | sink >= n :: TimesOf(rates, sink) == TimesOf(m.rates, sink))
            && (forall sink: nat | sink < n ::
                  Alike(TimesOf(rates, sink), Extended(past, outcomes, sink, sent, call), call.sending))
  {
    hide Recent, Alike, Deliveries, OfferOne, TimesOf, Severity.Rank;
    if n > 0 {
      OfferIsWilling(cfg, m, past, outcomes, call, now, n - 1);
      var (before, sent) := Offer(cfg, m.rates, call, n - 1);
      assert Alike(TimesOf(m.rates, n - 1), Deliveries(past, outcomes, n - 1), now);
      OneSink(cfg, before, Deliveries(past, outcomes, n - 1), call, now, n - 1);
    }
  }

  /** All deliveries to a sink once `call` was handed to the sinks in `sent`. */
  function Extended(past: seq<Dispatched>, outcomes: seq<Outcome>, sink: nat, sent: seq<nat>, call: Dispatched): seq<int>
    requires |past| == |outcomes|
  {
    if sink in sent then Deliveries(past, outcomes, sink) + [call.sending] else Deliveries(past, outcomes, sink)
  }

  lemma AlikeNow(pruned: seq<int>, full: seq<int>, now: int, later: int)
    requires Alike(pruned, full, now) && now <= later
    ensures Recent(pruned, later) == Recent(full, later)
  {
  }

  /** One dispatch decides as the whole past would, and the memory goes on knowing enough. */
  lemma DispatchIsJudged(cfg: Config, m: Memory, past: seq<Dispatched>, outcomes: seq<Outcome>, call: Dispatched, now: int)
    requires |past| == |outcomes| && now <= call.checked <= call.sending
    requires forall i | 0 <= i < |past| :: past[i].checked <= now
    requires KnowsPasses(m, past, outcomes) && KnowsRates(m, past, outcomes, now)
    ensures var (after, outcome) := Dispatch(cfg, m, call);
            && outcome == Judged(cfg, past, outcomes, call)
            && KnowsPasses(after, past + [call], outcomes + [outcome])
            && KnowsRates(after, past + [call], outcomes + [outcome], call.sending)
  {
    hide Recent, Alike, Deliveries, Offer, TimesOf, Willing;
    var (after, outcome) := Dispatch(cfg, m, call);
    NovelIsPassed(cfg, m, past, outcomes, call);
    OfferIsWilling(cfg, m, past, outcomes, call, now, |cfg.sinks|);
    PassesKnown(cfg, m, past, outcomes, call);
    forall sink: nat
      ensures Alike(TimesOf(after.rates, sink), Deliveries(past + [call], outcomes + [outcome], sink), call.sending)
    {
      DeliveriesSnoc(past, outcomes, sink, call, outcome);
      assert Alike(TimesOf(m.rates, sink), Deliveries(past, outcomes, sink), now);
      AlikeAfter(TimesOf(m.rates, sink), Deliveries(past, outcomes, sink), now, call.sending);
    }
  }

  lemma DeliveriesSnoc(past: seq<Dispatched>, outcomes: seq<Outcome>, sink: nat, call: Dispatched, outcome: Outcome)
    requires |past| == |outcomes|
    ensures Deliveries(past + [call], outcomes + [outcome], sink)
            == Extended(past, outcomes, sink, outcome.sinks, call)
  {
    assert (past + [call])[..|past|] == past;
    assert (outcomes + [outcome])[..|past|] == outcomes;
  }

  lemma NovelIsPassed(cfg: Config, m: Memory, past: seq<Dispatched>, outcomes: seq<Outcome>, call: Dispatched)
    requires |past| == |outcomes| && KnowsPasses(m, past, outcomes)
    requires forall i | 0 <= i < |past| :: past[i].checked <= call.checked
    ensures Dispatch(cfg, m, call).1.passed <==> Novel(cfg, past, outcomes, call)
  {
    hide Offer;
  }

  lemma PassesKnown(cfg: Config, m: Memory, past: seq<Dispatched>, outcomes: seq<Outcome>, call: Dispatched)
    requires |past| == |outcomes| && KnowsPasses(m, past, outcomes)
    requires forall i | 0 <= i < |past| :: past[i].checked <= call.checked
    ensures var (after, outcome) := Dispatch(cfg, m, call);
            KnowsPasses(after, past + [call], outcomes + [outcome])
  {
    hide Offer;
    var (after, outcome) := Dispatch(cfg, m, call);
    var calls, seen := past + [call], outcomes + [outcome];
    forall key | key in after.lastSent
      ensures exists i :: 0 <= i < |calls| && seen[i].passed && calls[i].diagnostic.Key() == key
                          && calls[i].checked == after.lastSent[key]
    {
      if outcome.passed && key == call.diagnostic.Key() {
        assert seen[|past|].passed && calls[|past|] == call;
      } else {
        assert key in m.lastSent && after.lastSent[key] == m.lastSent[key];
        var i :| 0 <= i < |past| && outcomes[i].passed && past[i].diagnostic.Key() == key
                 && past[i].checked == m.lastSent[key];
        assert calls[i] == past[i] && seen[i] == outcomes[i];
      }
    }
  }

  // ---------------------------------------------------------------- main results

  ghost predicate JudgedThroughout(cfg: Config, calls: seq<Dispatched>, outcomes: seq<Outcome>)
    requires |calls| == |outcomes|
  {
    forall j | 0 <= j < |calls| :: outcomes[j] == Judged(cfg, calls[..j], outcomes[..j], calls[j])
  }

  lemma KnowsRatesLater(m: Memory, calls: seq<Dispatched>, outcomes: seq<Outcome>, now: int, later: int)
    requires |calls| == |outcomes| && KnowsRates(m, calls, outcomes, now) && now <= later
    ensures KnowsRates(m, calls, outcomes, later)
  {
  }

  /** The pipeline forgets old timestamps and keeps one pass per key, and yet under a clock that never goes
      back every dispatch of every run comes out as if it had the whole past at hand. */
  lemma {:induction false} ForgettingIsInvisible(cfg: Config, calls: seq<Dispatched>)
    requires Ordered(calls)
    ensures JudgedThroughout(cfg, calls, Run(cfg, calls).1)
    ensures KnowsPasses(Run(cfg, calls).0, calls, Run(cfg, calls).1)
    ensures forall now: int | calls == [] || calls[|calls| - 1].sending <= now ::
              KnowsRates(Run(cfg, calls).0, calls, Run(cfg, calls).1, now)
  {
    hide Dispatch, Judged;
    if calls != [] {
      hide Deliveries, Alike, TimesOf, KnowsRates, KnowsPasses, Ordered, JudgedThroughout;
      var n := |calls| - 1;
      OrderedPrefix(calls, n);
      ForgettingIsInvisible(cfg, calls[..n]);
      var (m, outcomes) := Run(cfg, calls[..n]);
      OrderedLast(calls);
      var now := if n == 0 then calls[0].checked else calls[n - 1].sending;
      DispatchIsJudged(cfg, m, calls[..n], outcomes, calls[n], now);
      assert calls[..n] + [calls[n]] == calls;
      JudgedSnoc(cfg, calls[..n], outcomes, calls[n], Dispatch(cfg, m, calls[n]).1);
      forall now: int | calls[n].sending <= now
        ensures KnowsRates(Run(cfg, calls).0, calls, Run(cfg, calls).1, now)
      {
        KnowsRatesLater(Run(cfg, calls).0, calls, Run(cfg, calls).1, calls[n].sending, now);
      }
    }
  }

  lemma OrderedPrefix(calls: seq<Dispatched>, n: nat)
    requires n < |calls| && Ordered(calls)
    ensures Ordered(calls[..n]) && forall i | 0 <= i < n :: calls[..n][i].sending <= calls[n].sending
  {
  }

  lemma OrderedLast(calls: seq<Dispatched>)
    requires calls != [] && Ordered(calls)
    ensures var n := |calls| - 1;
            var now := if n == 0 then calls[0].checked else calls[n - 1].sending;
            now <= calls[n].checked <= calls[n].sending && forall i | 0 <= i < n :: calls[..n][i].checked <= now
  {
  }

  lemma JudgedSnoc(cfg: Config, calls: seq<Dispatched>, outcomes: seq<Outcome>, call: Dispatched, outcome: Outcome)
    requires |calls| == |outcomes| && JudgedThroughout(cfg, calls, outcomes)
    requires outcome == Judged(cfg, calls, outcomes, call)
    ensures JudgedThroughout(cfg, calls + [call], outcomes + [outcome])
  {
    hide Judged;
    var all, seen := calls + [call], outcomes + [outcome];
    forall j | 0 <= j < |all|
      ensures seen[j] == Judged(cfg, all[..j], seen[..j], all[j])
    {
      assert all[..j] == calls[..j] && seen[..j] == outcomes[..j];
    }
  }

  /** How many of the times fall in [low, high). */
  function Between(times: seq<int>, low: int, high: int): nat {
    if times == [] then 0
    else
      Between(times[..|times| - 1], low, high) + (if low <= times[|times| - 1] < high then 1 else 0)
  }

  /** When the newest time is inside a window of a minute, all others inside it are recent. */
  lemma {:induction false} WindowIsRecent(times: seq<int>, low: int, now: int)
    requires forall k | 0 <= k < |times| :: times[k] <= now
    requires low <= now < low + MINUTE
    ensures Between(times, low, low + MINUTE) <= |Recent(times, now)|
  {
    if times != [] {
      WindowIsRecent(times[..|times| - 1], low, now);
    }
  }

  lemma {:induction false} DeliveredInThePast(calls: seq<Dispatched>, outcomes: seq<Outcome>, sink: nat, now: int)
    requires |calls| == |outcomes| && forall i | 0 <= i < |calls| :: calls[i].sending <= now
    ensures forall k | 0 <= k < |Deliveries(calls, outcomes, sink)| :: Deliveries(calls, outcomes, sink)[k] <= now
  {
    if calls != [] {
      DeliveredInThePast(calls[..|calls| - 1], outcomes[..|calls| - 1], sink, now);
    }
  }

  lemma JudgedPrefix(cfg: Config, calls: seq<Dispatched>, outcomes: seq<Outcome>, n: nat)
    requires n <= |calls| == |outcomes| && JudgedThroughout(cfg, calls, outcomes)
    ensures JudgedThroughout(cfg, calls[..n], outcomes[..n])
  {
    hide Judged;
    forall j | 0 <= j < n
      ensures outcomes[..n][j] == Judged(cfg, calls[..n][..j], outcomes[..n][..j], calls[..n][j])
    {
      assert calls[..n][..j] == calls[..j] && outcomes[..n][..j] == outcomes[..j];
    }
  }

  /** A sink is only ever handed a finding after fewer than the limit in the minute before. */
  lemma RoomBeforeDelivery(cfg: Config, calls: seq<Dispatched>, outcomes: seq<Outcome>, n: nat, sink: nat)
    requires n < |calls| == |outcomes| && JudgedThroughout(cfg, calls, outcomes) && sink in outcomes[n].sinks
    ensures |Recent(Deliveries(calls[..n], outcomes[..n], sink), calls[n].sending)| < cfg.maxPerMinute
  {
    hide Deliveries, Recent, Novel;
    assert outcomes[n] == Judged(cfg, calls[..n], outcomes[..n], calls[n]);
  }

  lemma DeliveriesLast(calls: seq<Dispatched>, outcomes: seq<Outcome>, sink: nat, n: nat)
    requires |calls| == |outcomes| == n + 1
    ensures Deliveries(calls, outcomes, sink) == Extended(calls[..n], outcomes[..n], sink, outcomes[n].sinks, calls[n])
  {
  }

  lemma BetweenSnoc(times: seq<int>, t: int, low: int, high: int)
    ensures Between(times + [t], low, high) == Between(times, low, high) + (if low <= t < high then 1 else 0)
  {
    assert (times + [t])[..|times|] == times;
  }

  lemma {:induction false} BoundThroughout(cfg: Config, calls: seq<Dispatched>, outcomes: seq<Outcome>, sink: nat, low: int)
    requires |calls| == |outcomes| && Ordered(calls) && JudgedThroughout(cfg, calls, outcomes)
    ensures Between(Deliveries(calls, outcomes, sink), low, low + MINUTE) <= cfg.maxPerMinute
  {
    if calls != [] {
      hide Recent, JudgedThroughout, Ordered, Between, Deliveries;
      var n := |calls| - 1;
      JudgedPrefix(cfg, calls, outcomes, n);
      OrderedPrefix(calls, n);
      BoundThroughout(cfg, calls[..n], outcomes[..n], sink, low);
      var before, now := Deliveries(calls[..n], outcomes[..n], sink), calls[n].sending;
      DeliveriesLast(calls, outcomes, sink, n);
      BetweenSnoc(before, now, low, low + MINUTE);
      if sink in outcomes[n].sinks && low <= now < low + MINUTE {
        DeliveredInThePast(calls[..n], outcomes[..n], sink, now);
        RoomBeforeDelivery(cfg, calls, outcomes, n, sink);
        WindowIsRecent(before, low, now);
      }
    }
  }

  /** Over every run, no sink gets more than the limit in any half-open minute. */
  lemma RateBound(cfg: Config, calls: seq<Dispatched>, sink: nat, low: int)
    requires Ordered(calls)
    ensures var outcomes := Run(cfg, calls).1;
            |set i: nat | i < |calls| && sink in outcomes[i].sinks && low <= calls[i].sending < low + 60_000_000_000|
            <= cfg.maxPerMinute
  {
    hide Run, Between, Deliveries, Ordered, JudgedThroughout;
    ForgettingIsInvisible(cfg, calls);
    BoundThroughout(cfg, calls, Run(cfg, calls).1, sink, low);
    var outcomes, ok := Run(cfg, calls).1, t => low <= t < low + MINUTE;
    BetweenCount(calls, outcomes, sink, low, low + MINUTE, ok);
    assert (set i: nat | i < |calls| && sink in outcomes[i].sinks && low <= calls[i].sending < low + 60_000_000_000)
           == Reached(calls, outcomes, sink, ok);
  }

  /** Earlier dispatches with the same target and category that got past the dedup check all lie a window back. */
  ghost predicate ApartFromPasses(cfg: Config, calls: seq<Dispatched>, outcomes: seq<Outcome>, j: nat)
    requires j < |calls| == |outcomes|
  {
    forall i | 0 <= i < j && outcomes[i].passed && calls[i].diagnostic.target == calls[j].diagnostic.target
               && calls[i].diagnostic.category == calls[j].diagnostic.category ::
      calls[j].checked - calls[i].checked >= cfg.dedupWindow
  }

  lemma NovelIsApart(cfg: Config, calls: seq<Dispatched>, outcomes: seq<Outcome>, j: nat)
    requires j < |calls| == |outcomes|
    ensures Novel(cfg, calls[..j], outcomes[..j], calls[j]) <==> ApartFromPasses(cfg, calls, outcomes, j)
  {
    assert forall i | 0 <= i < j :: calls[..j][i] == calls[i] && outcomes[..j][i] == outcomes[i];
  }

  /** A dispatch gets past the dedup check exactly when every earlier one of its key that did lies at least
      a window back; so two that both get past are never closer than the window. */
  lemma PassesExactly(cfg: Config, calls: seq<Dispatched>, j: nat)
    requires Ordered(calls) && j < |calls|
    ensures var outcomes := Run(cfg, calls).1;
            outcomes[j].passed <==> ApartFromPasses(cfg, calls, outcomes, j)
  {
    hide Run, Novel, Willing;
    ForgettingIsInvisible(cfg, calls);
    var outcomes := Run(cfg, calls).1;
    assert outcomes[j] == Judged(cfg, calls[..j], outcomes[..j], calls[j]);
    NovelIsApart(cfg, calls, outcomes, j);
  }

  lemma DeliveredByRank(cfg: Config, calls: seq<Dispatched>, j: nat, sink: nat)
    requires Ordered(calls) && j < |calls|
    ensures var outcomes := Run(cfg, calls).1;
            sink in outcomes[j].sinks <==>
              && outcomes[j].passed && sink < |cfg.sinks|
              && cfg.sinks[sink].Rank() <= calls[j].diagnostic.severity.Rank()
              && |Recent(Deliveries(calls[..j], outcomes[..j], sink), calls[j].sending)| < cfg.maxPerMinute
  {
    ForgettingIsInvisible(cfg, calls);
    var outcomes := Run(cfg, calls).1;
    assert outcomes[j] == Judged(cfg, calls[..j], outcomes[..j], calls[j]);
  }

  /** The dispatches that reached the sink at a time that is `ok`. */
  function Reached(calls: seq<Dispatched>, outcomes: seq<Outcome>, sink: nat, ok: int -> bool): set<nat>
    requires |calls| == |outcomes|
  {
    set i: nat | i < |calls| && sink in outcomes[i].sinks && ok(calls[i].sending)
  }

  lemma ReachedNext(calls: seq<Dispatched>, outcomes: seq<Outcome>, sink: nat, ok: int -> bool, n: nat)
    requires |calls| == |outcomes| == n + 1
    ensures |Reached(calls, outcomes, sink, ok)|
            == |Reached(calls[..n], outcomes[..n], sink, ok)|
               + (if sink in outcomes[n].sinks && ok(calls[n].sending) then 1 else 0)
  {
    var before := Reached(calls[..n], outcomes[..n], sink, ok);
    assert n !in before;
    assert Reached(calls, outcomes, sink, ok)
           == if sink in outcomes[n].sinks && ok(calls[n].sending) then before + {n} else before;
  }

  /** Deliveries are as many as the dispatches that made them. */
  lemma {:induction false} RecentCount(calls: seq<Dispatched>, outcomes: seq<Outcome>, sink: nat, now: int, ok: int -> bool)
    requires |calls| == |outcomes| && forall t :: ok(t) <==> Elapsed(t, now) < MINUTE
    ensures |Recent(Deliveries(calls, outcomes, sink), now)| == |Reached(calls, outcomes, sink, ok)|
  {
    if calls != [] {
      hide Elapsed, Reached;
      var n := |calls| - 1;
      RecentCount(calls[..n], outcomes[..n], sink, now, ok);
      ReachedNext(calls, outcomes, sink, ok, n);
      DeliveriesLast(calls, outcomes, sink, n);
      RecentSnoc(Deliveries(calls[..n], outcomes[..n], sink), calls[n].sending, now);
    } else {
      assert Reached(calls, outcomes, sink, ok) == {};
    }
  }

  lemma {:induction false} BetweenCount(
      calls: seq<Dispatched>, outcomes: seq<Outcome>, sink: nat, low: int, high: int, ok: int -> bool)
    requires |calls| == |outcomes| && forall t :: ok(t) <==> low <= t < high
    ensures Between(Deliveries(calls, outcomes, sink), low, high) == |Reached(calls, outcomes, sink, ok)|
  {
    if calls != [] {
      hide Reached;
      var n := |calls| - 1;
      BetweenCount(calls[..n], outcomes[..n], sink, low, high, ok);
      ReachedNext(calls, outcomes, sink, ok, n);
      DeliveriesLast(calls, outcomes, sink, n);
      BetweenSnoc(Deliveries(calls[..n], outcomes[..n], sink), calls[n].sending, low, high);
    } else {
      assert Reached(calls, outcomes, sink, ok) == {};
    }
  }

  lemma {:induction false} WillingAscends(cfg: Config, past: seq<Dispatched>, outcomes: seq<Outcome>, call: Dispatched, n: nat)
    requires |past| == |outcomes| && n <= |cfg.sinks|
    ensures Ascending(Willing(cfg, past, outcomes, call, n))
  {
    hide Recent, Deliveries;
    if n > 0 {
      WillingAscends(cfg, past, outcomes, call, n - 1);
      var before := Willing(cfg, past, outcomes, call, n - 1);
      AscendingSnoc(before, n - 1);
      assert before + [] == before;
    }
  }

  predicate Ascending(s: seq<nat>) {
    forall a, b | 0 <= a < b < |s| :: s[a] < s[b]
  }

  lemma AscendingSnoc(s: seq<nat>, x: nat)
    requires Ascending(s) && forall y | y in s :: y < x
    ensures Ascending(s + [x])
  {
    assert forall a | 0 <= a < |s| :: s[a] in s;
  }

  /** A sink receives a dispatch exactly when it passed dedup, the finding is severe enough (a Critical sink takes only
      Critical findings, a Warning sink all but Info, an Info sink all) and fewer dispatches than the limit reached the
      sink in the 60 seconds before. The sinks are handed it in their order, each once. */
  lemma DeliveredExactly(cfg: Config, calls: seq<Dispatched>, j: nat, sink: nat)
    requires Ordered(calls) && j < |calls|
    ensures var outcomes, severity := Run(cfg, calls).1, calls[j].diagnostic.severity;
            sink in outcomes[j].sinks <==>
              && outcomes[j].passed && sink < |cfg.sinks|
              && (cfg.sinks[sink] == Critical ==> severity == Critical)
              && (cfg.sinks[sink] == Warning ==> severity != Info)
              && |set i: nat | i < j && sink in outcomes[i].sinks && calls[j].sending - calls[i].sending < 60_000_000_000|
                 < cfg.maxPerMinute
    ensures Ascending(Run(cfg, calls).1[j].sinks)
  {
    hide Run, Recent, Deliveries, Willing, Novel, Severity.Rank, Ordered, Ascending;
    DeliveredByRank(cfg, calls, j, sink);
    var outcomes, now := Run(cfg, calls).1, calls[j].sending;
    var ok := t => now - t < 60_000_000_000;
    RecentCount(calls[..j], outcomes[..j], sink, now, ok);
    assert (set i: nat | i < j && sink in outcomes[i].sinks && now - calls[i].sending < 60_000_000_000)
           == Reached(calls[..j], outcomes[..j], sink, ok);
    if sink < |cfg.sinks| {
      RankOrders(cfg.sinks[sink], calls[j].diagnostic.severity);
    }
    SinksAscend(cfg, calls, j);
  }

  lemma SinksAscend(cfg: Config, calls: seq<Dispatched>, j: nat)
    requires Ordered(calls) && j < |calls|
    ensures Ascending(Run(cfg, calls).1[j].sinks)
  {
    hide Run, Willing, Novel;
    ForgettingIsInvisible(cfg, calls);
    var outcomes := Run(cfg, calls).1;
    assert outcomes[j] == Judged(cfg, calls[..j], outcomes[..j], calls[j]);
    WillingAscends(cfg, calls[..j], outcomes[..j], calls[j], |cfg.sinks|);
  }
}
