/** Evaluating compiled rules, with timers for "held continuously for N seconds"
    (crates/aether-script/src/runtime.rs). Times are nanoseconds of a monotonic clock; the clock
    readings a check makes are its parameters. */
module Runtime {
  import opened Results
  import opened Ast
  import opened Ir
  import opened Codegen
  import opened Clocks

  type Key = (string, UInt32)
  type Timers = map<Key, nat>

  /** The two readings of one check: the one a new timer starts with, and the one it is compared to. */
  datatype Clock = Clock(startAt: nat, checkAt: nat)

  datatype Check = Check(key: Key, met: bool, required: nat, clock: Clock)

  /** One check: the timers afterwards and whether the rule fires. */
  function CheckStep(timers: Timers, c: Check): (Timers, bool) {
    if !c.met then (timers - {c.key}, false)
    else
      var started := if c.key in timers then timers else timers[c.key := c.clock.startAt];
      (started, Elapsed(started[c.key], c.clock.checkAt) >= c.required)
  }

  class DurationTracker {
    var timers: Timers

    constructor ()
      ensures timers == map[]
    {
      timers := map[];
    }

    method CheckDuration(ruleName: string, pid: UInt32, conditionMet: bool, required: nat, clock: Clock)
      returns (fire: bool)
      modifies this
      ensures (timers, fire) == CheckStep(old(timers), Check((ruleName, pid), conditionMet, required, clock))
      ensures forall k | k != (ruleName, pid) ::
                (k in timers <==> k in old(timers)) && (k in timers ==> timers[k] == old(timers)[k])
    {
      var key := (ruleName, pid);
      if !conditionMet {
        timers := timers - {key};
        return false;
      }
      if key !in timers {
        timers := timers[key := clock.startAt];
      }
      fire := Elapsed(timers[key], clock.checkAt) >= required;
    }
  }

  // ---------------------------------------------------------------- what the timers mean

  /** The timers after a history of checks, from an empty tracker. */
  function Replay(h: seq<Check>): Timers {
    if h == [] then map[] else CheckStep(Replay(h[..|h| - 1]), h[|h| - 1]).0
  }

  /** Check `j` is the last one about `key`. */
  predicate IsLast(h: seq<Check>, key: Key, j: nat) {
    j < |h| && h[j].key == key && forall m | j < m < |h| :: h[m].key != key
  }

  /** Check `i` is the first true check about `key` after the last false one: all checks of the key
      from `i` on are true, and the one before `i`, if there is one, is false. */
  predicate HeldSince(h: seq<Check>, key: Key, i: nat) {
    && i < |h| && h[i].key == key
    && (forall j | i <= j < |h| && h[j].key == key :: h[j].met)
    && (forall j | 0 <= j < i && IsLast(h[..i], key, j) :: !h[j].met)
  }

  /** A key has a timer exactly when its last check was true. */
  lemma {:induction false} TimerMeansLastMet(h: seq<Check>, key: Key)
    ensures (forall j | 0 <= j < |h| :: h[j].key != key) ==> key !in Replay(h)
    ensures forall j: nat | IsLast(h, key, j) :: h[j].met <==> key in Replay(h)
  {
    if h != [] {
      var prev, last := h[..|h| - 1], h[|h| - 1];
      TimerMeansLastMet(prev, key);
      if last.key == key {
        assert forall j: nat | IsLast(h, key, j) :: j == |h| - 1;
      } else {
        assert forall j: nat | IsLast(h, key, j) :: IsLast(prev, key, j);
      }
    }
  }

  /** The timer of a held key holds the start reading of the first check of the streak. */
  lemma {:induction false} TimerOfStreak(h: seq<Check>, key: Key, i: nat)
    requires HeldSince(h, key, i)
    ensures key in Replay(h) && Replay(h)[key] == h[i].clock.startAt
  {
    var prev, last := h[..|h| - 1], h[|h| - 1];
    if i == |h| - 1 {
      TimerMeansLastMet(prev, key);
      assert h[..i] == prev;
      if key in Replay(prev) {
        var j := LastOf(prev, key);
        assert false;
      }
    } else {
      assert prev[..i] == h[..i];
      TimerOfStreak(prev, key, i);
    }
  }

  lemma {:induction false} LastOf(h: seq<Check>, key: Key) returns (j: nat)
    requires key in Replay(h)
    ensures IsLast(h, key, j)
  {
    if h[|h| - 1].key == key {
      j := |h| - 1;
    } else {
      j := LastOf(h[..|h| - 1], key);
    }
  }

  /** Every running timer belongs to such a streak. */
  lemma {:induction false} StreakOfTimer(h: seq<Check>, key: Key) returns (i: nat)
    requires key in Replay(h)
    ensures HeldSince(h, key, i)
  {
    var prev, last := h[..|h| - 1], h[|h| - 1];
    if last.key != key || key in Replay(prev) {
      i := StreakOfTimer(prev, key);
      assert prev[..i] == h[..i];
    } else {
      i := |h| - 1;
      TimerMeansLastMet(prev, key);
    }
  }

  /** "Held continuously": over any history, a check fires exactly when it is true and the time since
      the first true check after the key's last false one is at least the required time. */
  lemma FiresExactly(h: seq<Check>, c: Check)
    ensures CheckStep(Replay(h), c).1 <==>
              c.met && exists i: nat :: HeldSince(h + [c], c.key, i)
                                   && Elapsed((h + [c])[i].clock.startAt, c.clock.checkAt) >= c.required
  {
    var all := h + [c];
    assert all[..|all| - 1] == h;
    if c.met {
      var i := StreakOfTimer(all, c.key);
      TimerOfStreak(all, c.key, i);
      forall k: nat | HeldSince(all, c.key, k)
        ensures all[k].clock.startAt == Replay(all)[c.key]
      {
        TimerOfStreak(all, c.key, k);
      }
    }
  }

  /** With a clock that does not run backwards the elapsed time is the true difference. */
  lemma ElapsedIsDifference(h: seq<Check>, c: Check, i: nat)
    requires HeldSince(h + [c], c.key, i)
    requires forall a, b | 0 <= a <= b < |h + [c]| :: (h + [c])[a].clock.startAt <= (h + [c])[b].clock.checkAt
    ensures Elapsed((h + [c])[i].clock.startAt, c.clock.checkAt) == c.clock.checkAt - (h + [c])[i].clock.startAt
  {
    assert (h + [c])[|h|] == c;
  }

  // ---------------------------------------------------------------- rule sets

  datatype RuleAction = RuleAction(ruleName: string, action: UInt32, targetPid: UInt32, severity: UInt32)

  datatype CompiledRule = CompiledRule(name: string, code: seq<Inst>, duration: Option<nat>)

  /** The check a rule makes in a state, if it has a duration. */
  function CheckOf(rule: Rule, st: WorldState, narrow: Narrowing, clock: Clock): Check
    requires rule.condition.Duration?
  {
    Check((rule.name, st.pid), Holds(rule.condition, st, narrow),
          rule.condition.seconds * SECOND, clock)
  }

  /** One rule in one state, in terms of its meaning: a plain rule fires when its condition holds, a
      duration rule when its check does. */
  function EvaluatedOne(rule: Rule, st: WorldState, narrow: Narrowing, timers: Timers, clock: Clock)
    : (Timers, seq<RuleAction>)
    requires rule.actions != []
  {
    var (after, fires) :=
      if rule.condition.Duration? then CheckStep(timers, CheckOf(rule, st, narrow, clock))
      else (timers, Holds(rule.condition, st, narrow));
    var a := rule.actions[0];
    (after, if fires then [RuleAction(rule.name, ActionCode(a), st.pid, SeverityCode(a))] else [])
  }

  /** The same without timers as a map: a plain rule fires exactly when its condition holds and leaves the timers alone.
      A duration rule stops its timer when the condition fails; when it holds it starts the timer unless one is running,
      and fires exactly if that has run for the number of seconds asked for. */
  lemma OneExactly(rule: Rule, st: WorldState, narrow: Narrowing, timers: Timers, clock: Clock)
    requires rule.actions != []
    ensures var (after, actions) := EvaluatedOne(rule, st, narrow, timers, clock);
            var key, holds := (rule.name, st.pid), Holds(rule.condition, st, narrow);
            var started := if key in timers then timers[key] else clock.startAt;
            && (!rule.condition.Duration? ==> after == timers && (actions != [] <==> holds))
            && (rule.condition.Duration? ==>
                  && after == (if holds then timers[key := started] else timers - {key})
                  && (actions != [] <==>
                        holds && (rule.condition.seconds == 0
                                  || clock.checkAt - started >= rule.condition.seconds * 1_000_000_000)))
            && (actions != [] ==>
                  actions == [RuleAction(rule.name, ActionCode(rule.actions[0]), st.pid, SeverityCode(rule.actions[0]))])
  {
    hide Holds;
    if rule.condition.Duration? && Holds(rule.condition, st, narrow) && (rule.name, st.pid) in timers {
      assert timers[(rule.name, st.pid) := timers[(rule.name, st.pid)]] == timers;
    }
  }

  /** All rules in one state, the timers threaded through in rule order. */
  function Evaluated(rules: seq<Rule>, st: WorldState, narrow: Narrowing, timers: Timers, clocks: seq<Clock>)
    : (Timers, seq<RuleAction>)
    requires |clocks| == |rules|
    requires forall k | 0 <= k < |rules| :: rules[k].actions != []
  {
    if rules == [] then (timers, [])
    else
      var n := |rules| - 1;
      var (before, actions) := Evaluated(rules[..n], st, narrow, timers, clocks[..n]);
      var (after, more) := EvaluatedOne(rules[n], st, narrow, before, clocks[n]);
      (after, actions + more)
  }

  class CompiledRuleSet {
    const rules: seq<CompiledRule>
    const tracker: DurationTracker
    ghost const source: seq<Rule>
    ghost const narrow: Narrowing

    /** The native code of every rule is what the compiler produced for its source. */
    ghost predicate Valid() {
      && |rules| == |source|
      && forall k | 0 <= k < |source| ::
           && RuleCode(source[k], narrow).Ok? && source[k].actions != []
           && rules[k] == CompiledRule(source[k].name, RuleCode(source[k], narrow).value, source[k].DurationSecs())
    }

    constructor (rules: seq<CompiledRule>, ghost source: seq<Rule>, ghost narrow: Narrowing)
      ensures this.rules == rules && this.source == source && this.narrow == narrow
      ensures fresh(tracker) && tracker.timers == map[]
    {
      this.rules, this.source, this.narrow := rules, source, narrow;
      tracker := new DurationTracker();
    }

    /** Run one rule's code and, for a duration rule, its timer. */
    method EvaluateRule(k: nat, st: WorldState, tracker: DurationTracker, clock: Clock)
      returns (actions: seq<RuleAction>)
      requires Valid() && k < |rules|
      modifies tracker
      ensures (tracker.timers, actions) == EvaluatedOne(source[k], st, narrow, old(tracker.timers), clock)
    {
      hide RuleCode, Call, Holds;
      RuleCorrect(source[k], st, narrow);
      var result := Call(rules[k].code, st).value;
      var conditionMet := result.matched != 0;
      var fire := conditionMet;
      if rules[k].duration.Some? {
        fire := tracker.CheckDuration(
          rules[k].name, st.pid, conditionMet, rules[k].duration.value * SECOND, clock);
      }
      actions := if fire
        then [RuleAction(rules[k].name, result.actionType, result.targetPid, result.severity)] else [];
    }

    /** Evaluate with the caller's tracker. */
    method EvaluateWithTracker(st: WorldState, tracker: DurationTracker, clocks: seq<Clock>)
      returns (actions: seq<RuleAction>)
      requires Valid() && |clocks| == |rules|
      modifies tracker
      ensures (tracker.timers, actions) == Evaluated(source, st, narrow, old(tracker.timers), clocks)
    {
      hide EvaluatedOne;
      actions := [];
      for k := 0 to |rules|
        invariant (tracker.timers, actions) ==
                  Evaluated(source[..k], st, narrow, old(tracker.timers), clocks[..k])
      {
        assert source[..k + 1][..k] == source[..k] && clocks[..k + 1][..k] == clocks[..k];
        var more := EvaluateRule(k, st, tracker, clocks[k]);
        actions := actions + more;
      }
      assert source[..|rules|] == source && clocks[..|rules|] == clocks;
    }

    /** Evaluate with the set's own tracker: the same function of the timers. */
    method Evaluate(st: WorldState, clocks: seq<Clock>) returns (actions: seq<RuleAction>)
      requires Valid() && |clocks| == |rules|
      modifies tracker
      ensures (tracker.timers, actions) == Evaluated(source, st, narrow, old(tracker.timers), clocks)
    {
      hide EvaluatedOne;
      actions := [];
      for k := 0 to |rules|
        invariant (tracker.timers, actions) ==
                  Evaluated(source[..k], st, narrow, old(tracker.timers), clocks[..k])
      {
        assert source[..k + 1][..k] == source[..k] && clocks[..k + 1][..k] == clocks[..k];
        var more := EvaluateRule(k, st, tracker, clocks[k]);
        actions := actions + more;
      }
      assert source[..|rules|] == source && clocks[..|rules|] == clocks;
    }
  }

  /** Compile rules in order; the first one that does not compile is the error. */
  method CompileRules(source: seq<Rule>, narrow: Narrowing) returns (r: Result<CompiledRuleSet, ScriptError>)
    ensures r.Ok? <==> forall k | 0 <= k < |source| :: RuleCode(source[k], narrow).Ok?
    ensures r.Ok? ==> r.value.Valid() && r.value.source == source && r.value.narrow == narrow
                      && fresh(r.value) && fresh(r.value.tracker) && r.value.tracker.timers == map[]
    ensures r.Err? ==> exists k :: 0 <= k < |source| && RuleCode(source[k], narrow) == Err(r.error)
                                   && forall l | 0 <= l < k :: RuleCode(source[l], narrow).Ok?
  {
    hide RuleCode;
    var compiled: seq<CompiledRule> := [];
    for k := 0 to |source|
      invariant |compiled| == k
      invariant forall l | 0 <= l < k ::
                  && RuleCode(source[l], narrow).Ok? && source[l].actions != []
                  && compiled[l] == CompiledRule(source[l].name, RuleCode(source[l], narrow).value, source[l].DurationSecs())
    {
      var code := GenerateRule(source[k], narrow);
      if code.Err? {
        return Err(code.error);
      }
      compiled := compiled + [CompiledRule(source[k].name, code.value, source[k].DurationSecs())];
    }
    var rules := new CompiledRuleSet(compiled, source, narrow);
    r := Ok(rules);
  }

  /** The check one rule makes, if any. */
  function ChecksOfOne(rule: Rule, st: WorldState, narrow: Narrowing, clock: Clock): seq<Check> {
    if rule.condition.Duration? then [CheckOf(rule, st, narrow, clock)] else []
  }

  /** The checks one evaluation makes, in order. */
  function ChecksOf(rules: seq<Rule>, st: WorldState, narrow: Narrowing, clocks: seq<Clock>): seq<Check>
    requires |clocks| == |rules|
  {
    if rules == [] then []
    else
      var n := |rules| - 1;
      ChecksOf(rules[..n], st, narrow, clocks[..n]) + ChecksOfOne(rules[n], st, narrow, clocks[n])
  }

  lemma OneExtendsHistory(h: seq<Check>, rule: Rule, st: WorldState, narrow: Narrowing, clock: Clock)
    requires rule.actions != []
    ensures EvaluatedOne(rule, st, narrow, Replay(h), clock).0 == Replay(h + ChecksOfOne(rule, st, narrow, clock))
  {
    if rule.condition.Duration? {
      var c := CheckOf(rule, st, narrow, clock);
      assert (h + [c])[..|h|] == h;
    } else {
      assert h + [] == h;
    }
  }

  /** Evaluating a rule set after a history of checks extends the history by its own checks, so what
      the timers mean for single checks they mean for whole evaluations. */
  lemma {:induction false} EvaluationExtendsHistory(
      h: seq<Check>, rules: seq<Rule>, st: WorldState, narrow: Narrowing, clocks: seq<Clock>)
    requires |clocks| == |rules|
    requires forall k | 0 <= k < |rules| :: rules[k].actions != []
    ensures Evaluated(rules, st, narrow, Replay(h), clocks).0 == Replay(h + ChecksOf(rules, st, narrow, clocks))
  {
    hide EvaluatedOne, ChecksOfOne, Replay;
    if rules == [] {
      assert h + [] == h;
    } else {
      var n := |rules| - 1;
      var checks := ChecksOf(rules[..n], st, narrow, clocks[..n]);
      EvaluationExtendsHistory(h, rules[..n], st, narrow, clocks[..n]);
      OneExtendsHistory(h + checks, rules[n], st, narrow, clocks[n]);
      var one := ChecksOfOne(rules[n], st, narrow, clocks[n]);
      assert h + (checks + one) == h + checks + one;
    }
  }
}
