/** What duration rules of one name do to each other (crates/aether-script/src/runtime.rs): they keep their time in the
    same timers, so within one evaluation each goes on from what the one before it left. */
module RuleNamesakes {
  import opened Results
  import opened Ast
  import opened Ir
  import opened Codegen
  import opened Clocks
  import opened Runtime
  import opened RuleHistories

  /** While the second of two duration rules of one name does not hold, evaluating the pair leaves no timer, and the
      first rule, though its own condition holds, starts afresh every time and does not fire. */
  lemma NamesakeSilences(a: Rule, b: Rule, st: WorldState, narrow: Narrowing, timers: Timers, now: nat)
    requires a.name == b.name && a.actions != [] && b.actions != []
    requires a.condition.Duration? && a.condition.seconds > 0 && b.condition.Duration?
    requires Holds(a.condition, st, narrow) && !Holds(b.condition, st, narrow)
    requires (a.name, st.pid) !in timers
    ensures var (after, actions) := Evaluated([a, b], st, narrow, timers, [Clock(now, now), Clock(now, now)]);
            (a.name, st.pid) !in after && actions == []
  {
    hide Holds;
    var clock := Clock(now, now);
    assert [a, b][..1] == [a] && [clock, clock][..1] == [clock];
    assert [a][..0] == [] && [clock][..0] == [];
    assert Evaluated([a], st, narrow, timers, [clock]).1 == [];
  }

  /** Nobody else uses the timers of rule `k` between the turns of `i` and `k`. */
  predicate NextNamesake(rules: seq<Rule>, i: nat, k: nat) {
    i < k < |rules| && Namesakes(rules, i, k) && forall l | i < l < k :: !Namesakes(rules, l, k)
  }

  lemma {:induction false} FindNamesake(rules: seq<Rule>, i: nat, k: nat) returns (j: nat)
    requires i < k < |rules| && Namesakes(rules, i, k)
    ensures NextNamesake(rules, j, k)
    decreases k - i
  {
    if l :| i < l < k && Namesakes(rules, l, k) {
      j := FindNamesake(rules, l, k);
    } else {
      j := i;
    }
  }

  /** What rule `k` finds is what its namesake left. */
  lemma {:induction false} NamesakeLeaves(round: Round, narrow: Narrowing, timers: Timers, i: nat, k: nat)
    requires round.Evaluable() && NextNamesake(round.rules, i, k)
    ensures var key := (round.rules[k].name, round.st.pid);
            Lookup(TurnsOf(round, narrow, timers, k), key)
            == Next(round.rules[i], round.st, narrow, round.clocks[i], Lookup(TurnsOf(round, narrow, timers, i), key))
  {
    hide TurnsOf, EvaluatedOne, Lookup, Next;
    var key := (round.rules[k].name, round.st.pid);
    TurnsNext(round, narrow, timers, i);
    OwnTurn(round.rules[i], round.st, narrow, TurnsOf(round, narrow, timers, i), round.clocks[i]);
    forall l | i < l < k && round.rules[l].condition.Duration?
      ensures round.rules[l].name != key.0
    {
      assert !Namesakes(round.rules, l, k);
    }
    TurnsOfOthers(round, narrow, timers, i + 1, k, key);
  }

  predicate AllZero(timers: Timers) {
    forall key | key in timers :: timers[key] == 0
  }

  lemma {:induction false} OneZero(rule: Rule, st: WorldState, narrow: Narrowing, timers: Timers)
    requires rule.actions != [] && AllZero(timers)
    ensures AllZero(EvaluatedOne(rule, st, narrow, timers, Clock(0, 0)).0)
  {
    hide Holds;
  }

  /** Timers started while every reading is zero are zero. */
  lemma {:induction false} ZeroTimers(round: Round, narrow: Narrowing, k: nat)
    requires round.Evaluable() && k <= |round.rules|
    requires forall l | 0 <= l < k :: round.clocks[l] == Clock(0, 0)
    ensures AllZero(TurnsOf(round, narrow, map[], k))
  {
    if k > 0 {
      hide TurnsOf, EvaluatedOne, AllZero;
      ZeroTimers(round, narrow, k - 1);
      TurnsNext(round, narrow, map[], k - 1);
      OneZero(round.rules[k - 1], round.st, narrow, TurnsOf(round, narrow, map[], k - 1));
    } else {
      NoTurns(round, narrow, map[]);
    }
  }

  /** Rule `k` fires exactly when its condition holds and the timer its namesake left, or else one started now, has run
      long enough. */
  lemma {:induction false} FiresByNamesake(narrow: Narrowing, rounds: seq<Round>, n: nat, i: nat, k: nat)
    requires Evaluable(rounds) && n < |rounds| && NextNamesake(rounds[n].rules, i, k)
    ensures var round := rounds[n];
            var rule, key := round.rules[k], (round.rules[k].name, round.st.pid);
            var left := Next(round.rules[i], round.st, narrow, round.clocks[i], Lookup(Before(narrow, rounds, n, i), key));
            var started := if left.Some? then left.value else round.clocks[k].startAt;
            Fires(narrow, rounds, n, k) <==>
              && Met(rule, narrow, round)
              && Elapsed(started, round.clocks[k].checkAt) >= rule.condition.seconds * SECOND
  {
    hide Holds, TurnsOf, Next, Elapsed;
    NamesakeLeaves(rounds[n], narrow, AfterRounds(narrow, rounds[..n]), i, k);
  }

  /** The evaluation of the set in a state at one clock reading, or at two with the second from rule `k` on. */
  function At(rules: seq<Rule>, st: WorldState, early: nat, late: nat, k: nat): (round: Round)
    ensures round.rules == rules && round.st == st && |round.clocks| == |rules|
    ensures forall l | 0 <= l < |rules| :: round.clocks[l] == if l < k then Clock(early, early) else Clock(late, late)
  {
    Round(rules, st, seq(|rules|, l => if l < k then Clock(early, early) else Clock(late, late)))
  }

  /** With its namesake's condition also true, a rule fires at its first true evaluation if the evaluation takes long
      enough to reach it. */
  lemma {:induction false} FiresTooEarly(rules: seq<Rule>, narrow: Narrowing, i: nat, k: nat, st: WorldState)
    returns (rounds: seq<Round>)
    requires forall l | 0 <= l < |rules| :: rules[l].actions != []
    requires NextNamesake(rules, i, k) && rules[k].condition.seconds > 0
    requires Holds(rules[i].condition, st, narrow) && Holds(rules[k].condition, st, narrow)
    ensures Evaluable(rounds) && Forward(rounds) && Constant(rounds, rules) && |rounds| == 1
    ensures Fires(narrow, rounds, 0, k) && !HeldLongEnough(narrow, rounds, 0, k)
  {
    hide Holds, Fires, TurnsOf;
    rounds := [At(rules, st, 0, rules[k].condition.seconds * SECOND, k)];
    ZeroTimers(rounds[0], narrow, i);
    assert rounds[..0] == [];
    FiresByNamesake(narrow, rounds, 0, i, k);
  }

  /** With its namesake's condition false, a rule does not fire however long its own condition has held. */
  lemma {:induction false} NeverFires(rules: seq<Rule>, narrow: Narrowing, i: nat, k: nat, st: WorldState)
    returns (rounds: seq<Round>)
    requires forall l | 0 <= l < |rules| :: rules[l].actions != []
    requires NextNamesake(rules, i, k) && rules[k].condition.seconds > 0
    requires !Holds(rules[i].condition, st, narrow) && Holds(rules[k].condition, st, narrow)
    ensures Evaluable(rounds) && Forward(rounds) && Constant(rounds, rules) && |rounds| == 2
    ensures !Fires(narrow, rounds, 1, k) && HeldLongEnough(narrow, rounds, 1, k)
  {
    hide Holds, Fires, Before;
    var wait := rules[k].condition.seconds * SECOND;
    rounds := [At(rules, st, 0, 0, 0), At(rules, st, wait, wait, 0)];
    FiresByNamesake(narrow, rounds, 1, i, k);
    assert HeldBetween(rules[k], narrow, rounds, 0, 1) && LongBefore(rounds, 0, 1, k);
  }

  /** Every duration rule of the set fires exactly on its own condition, over all series of evaluations of the set. */
  ghost predicate OnOwnCondition(rules: seq<Rule>, narrow: Narrowing) {
    forall rounds: seq<Round>, n: nat, k: nat
      | Evaluable(rounds) && Forward(rounds) && Constant(rounds, rules) && n < |rounds| && k < |rules|
        && rules[k].condition.Duration? ::
      Fires(narrow, rounds, n, k) <==> HeldLongEnough(narrow, rounds, n, k)
  }

  /** A rule that asks for some time, in a condition that can hold. */
  ghost predicate Satisfiable(rule: Rule, narrow: Narrowing) {
    rule.condition.Duration? ==>
      rule.condition.seconds > 0 && exists st :: Holds(rule.condition, st, narrow)
  }

  /** Without a reload, duration rules that ask for some time and can hold at all mean what they say, over every series
      of evaluations of any number of processes, if and only if their names are distinct. (That distinct names suffice
      needs neither; a rule that can never hold, or asks for no time, is beyond disturbing.) */
  lemma {:induction false} NamesDecide(rules: seq<Rule>, narrow: Narrowing)
    requires forall k | 0 <= k < |rules| :: rules[k].actions != [] && Satisfiable(rules[k], narrow)
    ensures OnOwnCondition(rules, narrow) <==> DistinctNames(rules)
  {
    hide Holds, Fires, Evaluable, Forward, HeldLongEnough;
    if DistinctNames(rules) {
      forall rounds: seq<Round>, n: nat, k: nat
        | Evaluable(rounds) && Forward(rounds) && Constant(rounds, rules) && n < |rounds| && k < |rules|
          && rules[k].condition.Duration?
        ensures Fires(narrow, rounds, n, k) <==> HeldLongEnough(narrow, rounds, n, k)
      {
        FiresOnOwnCondition(rules, narrow, rounds, n, k);
      }
    } else {
      var i, k :| 0 <= i < k < |rules| && Namesakes(rules, i, k);
      Shared(rules, narrow, i, k);
    }
  }

  lemma {:induction false} Shared(rules: seq<Rule>, narrow: Narrowing, i: nat, k: nat)
    requires forall l | 0 <= l < |rules| :: rules[l].actions != [] && Satisfiable(rules[l], narrow)
    requires i < k < |rules| && Namesakes(rules, i, k)
    ensures !OnOwnCondition(rules, narrow)
  {
    hide Holds, Fires, Evaluable, Forward, HeldLongEnough;
    var j := FindNamesake(rules, i, k);
    assert Satisfiable(rules[k], narrow);
    var st :| Holds(rules[k].condition, st, narrow);
    if Holds(rules[j].condition, st, narrow) {
      var rounds := FiresTooEarly(rules, narrow, j, k, st);
    } else {
      var rounds := NeverFires(rules, narrow, j, k, st);
    }
  }

  /** A rule fires at the first evaluation its own condition ever held in, on time its namesake gathered. */
  lemma {:induction false} NamesakeLendsTime(
      a: Rule, b: Rule, narrow: Narrowing, st0: WorldState, st1: WorldState, t0: nat, t1: nat)
    requires a.actions != [] && b.actions != [] && Namesakes([a, b], 0, 1) && st0.pid == st1.pid
    requires !Holds(a.condition, st0, narrow) && Holds(b.condition, st0, narrow)
    requires Holds(a.condition, st1, narrow) && t1 - t0 >= a.condition.seconds * SECOND
    ensures var rounds := [At([a, b], st0, t0, t0, 0), At([a, b], st1, t1, t1, 0)];
            Fires(narrow, rounds, 1, 0) && !Met(a, narrow, rounds[0])
  {
    hide Holds, Evaluated, EvaluatedOne, Lookup;
    var round0, round1 := At([a, b], st0, t0, t0, 0), At([a, b], st1, t1, t1, 0);
    var rounds := [round0, round1];
    var key := (a.name, st0.pid);
    assert rounds[..1] == [round0] && [round0][..0] == [];
    NoTurns(round0, narrow, map[]);
    TurnsNext(round0, narrow, map[], 0);
    TurnsNext(round0, narrow, map[], 1);
    OwnTurn(a, st0, narrow, map[], Clock(t0, t0));
    OwnTurn(b, st0, narrow, TurnsOf(round0, narrow, map[], 1), Clock(t0, t0));
    var timers := AfterRounds(narrow, [round0]);
    assert AfterRounds(narrow, []) == map[];
    assert timers == TurnsOf(round0, narrow, map[], 2);
    assert b.name == a.name;
    assert Lookup(timers, key) == Some(t0);
    NoTurns(round1, narrow, timers);
    FiresOnTime(a, st1, narrow, timers, Clock(t1, t1));
  }

  lemma {:induction false} FiresOnTime(rule: Rule, st: WorldState, narrow: Narrowing, timers: Timers, clock: Clock)
    requires rule.actions != [] && rule.condition.Duration? && Holds(rule.condition, st, narrow)
    requires var timer := Lookup(timers, (rule.name, st.pid));
             timer.Some? && clock.checkAt - timer.value >= rule.condition.seconds * SECOND
    ensures EvaluatedOne(rule, st, narrow, timers, clock).1 != []
  {
    hide Holds;
  }

  /** In particular: `when mem_bytes > 100 for 60s then kill`, evaluated true for the first time after a minute in
      which only a namesake held, fires its kill action there and then. */
  lemma {:induction false} FiresKillAtOnce(narrow: Narrowing) returns (rules: seq<Rule>, rounds: seq<Round>)
    ensures |rules| == 2 && Evaluable(rounds) && Forward(rounds) && Constant(rounds, rules) && |rounds| == 2
    ensures rules[0].actions == [Kill] && rules[0].condition.Duration? && rules[0].condition.seconds == 60
    ensures !Met(rules[0], narrow, rounds[0]) && Fires(narrow, rounds, 1, 0)
    ensures !HeldLongEnough(narrow, rounds, 1, 0)
  {
    hide Fires;
    var a := Rule("busy", Condition.Duration(OnField("mem_bytes", Gt, 100), 60), [Kill], Span(0, 0));
    var b := Rule("busy", Condition.Duration(OnField("mem_bytes", Lt, 100), 60), [Action.Log("idle")], Span(0, 0));
    var st0 := WorldState(1, Finite(0.0), 50, Finite(0.0), 0, Finite(0.0));
    var st1 := WorldState(1, Finite(0.0), 200, Finite(0.0), 0, Finite(0.0));
    var wait := 60 * SECOND;
    rules := [a, b];
    rounds := [At(rules, st0, 0, 0, 0), At(rules, st1, wait, wait, 0)];
    NamesakeLendsTime(a, b, narrow, st0, st1, 0, wait);
  }
}
