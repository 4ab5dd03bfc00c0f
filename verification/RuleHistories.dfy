/** What duration rules do over a series of evaluations (crates/aether-script/src/runtime.rs). One tracker serves all
    of them, reloads of the rules included (crates/aether-script/src/engine.rs, hot_reload.rs), and files its timers
    under rule names. With distinct names each rule follows its own condition; namesakes, and earlier versions of a
    rule, disturb its timer. */
module RuleHistories {
  import opened Results
  import opened Ast
  import opened Ir
  import opened Codegen
  import opened Clocks
  import opened Runtime

  /** One evaluation: the rules in force, a process state, and the clock readings, one pair for each rule. */
  datatype Round = Round(rules: seq<Rule>, st: WorldState, clocks: seq<Clock>)
  {
    predicate Evaluable() {
      |clocks| == |rules| && forall k | 0 <= k < |rules| :: rules[k].actions != []
    }
  }

  predicate Evaluable(rounds: seq<Round>) {
    forall n | 0 <= n < |rounds| :: rounds[n].Evaluable()
  }

  /** The timers after a series of evaluations, from an empty tracker. */
  function AfterRounds(narrow: Narrowing, rounds: seq<Round>): Timers
    requires Evaluable(rounds)
  {
    if rounds == [] then map[]
    else
      var last := rounds[|rounds| - 1];
      Evaluated(last.rules, last.st, narrow, AfterRounds(narrow, rounds[..|rounds| - 1]), last.clocks).0
  }

  /** The timers rule `k` finds when its turn comes in evaluation `n`. */
  function Before(narrow: Narrowing, rounds: seq<Round>, n: nat, k: nat): Timers
    requires Evaluable(rounds) && n < |rounds| && k <= |rounds[n].rules|
  {
    TurnsOf(rounds[n], narrow, AfterRounds(narrow, rounds[..n]), k)
  }

  /** The timers after the first `k` rules' turns. */
  function TurnsOf(round: Round, narrow: Narrowing, timers: Timers, k: nat): Timers
    requires round.Evaluable() && k <= |round.rules|
  {
    Evaluated(round.rules[..k], round.st, narrow, timers, round.clocks[..k]).0
  }

  /** Rule `k` reports its action in evaluation `n`. */
  predicate Fires(narrow: Narrowing, rounds: seq<Round>, n: nat, k: nat)
    requires Evaluable(rounds) && n < |rounds| && k < |rounds[n].rules|
  {
    var round := rounds[n];
    EvaluatedOne(round.rules[k], round.st, narrow, Before(narrow, rounds, n, k), round.clocks[k]).1 != []
  }

  /** The actions of an evaluation are those of the rules that fire, in rule order. */
  lemma {:induction false} FiringIsReported(narrow: Narrowing, rounds: seq<Round>, n: nat, k: nat)
    requires Evaluable(rounds) && n < |rounds| && k < |rounds[n].rules|
    ensures var timers, round := AfterRounds(narrow, rounds[..n]), rounds[n];
            var rule := round.rules[k];
            Evaluated(round.rules[..k + 1], round.st, narrow, timers, round.clocks[..k + 1]).1
            == Evaluated(round.rules[..k], round.st, narrow, timers, round.clocks[..k]).1
               + if Fires(narrow, rounds, n, k)
                 then [RuleAction(rule.name, ActionCode(rule.actions[0]), round.st.pid, SeverityCode(rule.actions[0]))]
                 else []
  {
    hide Holds;
    var round := rounds[n];
    assert round.rules[..k + 1][..k] == round.rules[..k] && round.clocks[..k + 1][..k] == round.clocks[..k];
  }

  // ---------------------------------------------------------------- what a rule promises

  predicate Met(rule: Rule, narrow: Narrowing, round: Round) {
    Holds(rule.condition, round.st, narrow)
  }

  /** Position of the first duration rule with the name, if there is one. */
  function Named(rules: seq<Rule>, name: string): (r: Option<nat>)
    ensures r.Some? ==> r.value < |rules| && rules[r.value].name == name && rules[r.value].condition.Duration?
    ensures r.None? ==> forall k | 0 <= k < |rules| && rules[k].condition.Duration? :: rules[k].name != name
  {
    if rules == [] then None
    else
      var n := |rules| - 1;
      var before := Named(rules[..n], name);
      if before.Some? then before
      else if rules[n].name == name && rules[n].condition.Duration? then Some(n)
      else None
  }

  /** The rule of an earlier set that rule `k` of the name goes on from: the one in its place if that has the name, and
      else the first duration rule that does. */
  function Counterpart(rules: seq<Rule>, k: nat, name: string): (r: Option<nat>)
    ensures r.Some? ==> r.value < |rules|
  {
    if k < |rules| && rules[k].name == name && rules[k].condition.Duration? then Some(k) else Named(rules, name)
  }

  /** From evaluation `m` to `n`, both of one process, the rule's condition held in every evaluation of it. */
  predicate HeldBetween(rule: Rule, narrow: Narrowing, rounds: seq<Round>, m: nat, n: nat)
    requires n < |rounds|
  {
    && m <= n && rounds[m].st.pid == rounds[n].st.pid
    && (forall i: nat | m <= i <= n && rounds[i].st.pid == rounds[n].st.pid :: Met(rule, narrow, rounds[i]))
  }

  /** Evaluation `m` had the rule, and read the clock for it the required time before its check in evaluation `n`. */
  predicate LongBefore(rounds: seq<Round>, m: nat, n: nat, k: nat)
    requires Evaluable(rounds) && m <= n < |rounds| && k < |rounds[n].rules| && rounds[n].rules[k].condition.Duration?
  {
    var rule := rounds[n].rules[k];
    var at := Counterpart(rounds[m].rules, k, rule.name);
    at.Some? && rounds[n].clocks[k].checkAt - rounds[m].clocks[at.value].startAt >= rule.condition.seconds * 1_000_000_000
  }

  /** In evaluation `n` rule `k`'s own condition holds and has held, in every evaluation of that process, for at least
      the required time, counted from an evaluation that had the rule. */
  predicate HeldLongEnough(narrow: Narrowing, rounds: seq<Round>, n: nat, k: nat)
    requires Evaluable(rounds) && n < |rounds| && k < |rounds[n].rules| && rounds[n].rules[k].condition.Duration?
  {
    exists m: nat :: m <= n && HeldBetween(rounds[n].rules[k], narrow, rounds, m, n) && LongBefore(rounds, m, n, k)
  }

  /** The clock never goes back, within one evaluation or between two. */
  predicate Forward(rounds: seq<Round>)
    requires Evaluable(rounds)
  {
    && (forall n, k | 0 <= n < |rounds| && 0 <= k < |rounds[n].rules| ::
          rounds[n].clocks[k].startAt <= rounds[n].clocks[k].checkAt)
    && (forall n, k, l | 0 <= n < |rounds| && 0 <= k < l < |rounds[n].rules| ::
          rounds[n].clocks[k].checkAt <= rounds[n].clocks[l].startAt)
    && (forall m, n, k, l | 0 <= m < n < |rounds| && 0 <= k < |rounds[m].rules| && 0 <= l < |rounds[n].rules| ::
          rounds[m].clocks[k].checkAt <= rounds[n].clocks[l].startAt)
  }

  /** Rules `i` and `k` keep their time in the same timers. */
  predicate Namesakes(rules: seq<Rule>, i: nat, k: nat)
    requires i < |rules| && k < |rules|
  {
    i != k && rules[i].condition.Duration? && rules[k].condition.Duration? && rules[i].name == rules[k].name
  }

  predicate DistinctNames(rules: seq<Rule>) {
    forall i, k | 0 <= i < k < |rules| :: !Namesakes(rules, i, k)
  }

  /** At most one duration rule has the name. */
  predicate Sole(rules: seq<Rule>, name: string) {
    forall i, k | 0 <= i < k < |rules| && rules[k].name == name :: !Namesakes(rules, i, k)
  }

  predicate SoleThroughout(rounds: seq<Round>, name: string) {
    forall n | 0 <= n < |rounds| :: Sole(rounds[n].rules, name)
  }

  /** The one duration rule of a name is where the search finds it. */
  lemma {:induction false} SoleIsNamed(rules: seq<Rule>, name: string, k: nat)
    requires Sole(rules, name) && k < |rules| && rules[k].name == name && rules[k].condition.Duration?
    ensures Named(rules, name) == Some(k)
  {
    hide Named;
    var r := Named(rules, name).value;
    assert r < k ==> Namesakes(rules, r, k);
    assert k < r ==> Namesakes(rules, k, r);
  }

  lemma {:induction false} CounterpartIsNamed(rules: seq<Rule>, k: nat, name: string)
    requires Sole(rules, name)
    ensures Counterpart(rules, k, name) == Named(rules, name)
  {
    if k < |rules| && rules[k].name == name && rules[k].condition.Duration? {
      SoleIsNamed(rules, name, k);
    }
  }

  // ---------------------------------------------------------------- the timer of a name

  function Lookup(timers: Timers, key: Key): Option<nat> {
    if key in timers then Some(timers[key]) else None
  }

  /** What a rule's turn does to its timer. */
  function Next(rule: Rule, st: WorldState, narrow: Narrowing, clock: Clock, before: Option<nat>): Option<nat> {
    if !Holds(rule.condition, st, narrow) then None
    else if before.Some? then before
    else Some(clock.startAt)
  }

  /** The timer of a name and a process, if in each evaluation at most one duration rule has the name. */
  function NamedTimer(narrow: Narrowing, rounds: seq<Round>, name: string, pid: UInt32): Option<nat>
    requires Evaluable(rounds)
  {
    if rounds == [] then None
    else
      var n := |rounds| - 1;
      var before := NamedTimer(narrow, rounds[..n], name, pid);
      var k := Named(rounds[n].rules, name);
      if rounds[n].st.pid != pid || k.None? then before
      else Next(rounds[n].rules[k.value], rounds[n].st, narrow, rounds[n].clocks[k.value], before)
  }

  /** A rule's turn leaves the timers of other keys alone. */
  lemma {:induction false} OtherTurn(
      rule: Rule, st: WorldState, narrow: Narrowing, timers: Timers, clock: Clock, key: Key)
    requires rule.actions != []
    requires !rule.condition.Duration? || (rule.name, st.pid) != key
    ensures Lookup(EvaluatedOne(rule, st, narrow, timers, clock).0, key) == Lookup(timers, key)
  {
    hide Holds;
  }

  lemma {:induction false} OwnTurn(rule: Rule, st: WorldState, narrow: Narrowing, timers: Timers, clock: Clock)
    requires rule.actions != [] && rule.condition.Duration?
    ensures var key := (rule.name, st.pid);
            Lookup(EvaluatedOne(rule, st, narrow, timers, clock).0, key) == Next(rule, st, narrow, clock, Lookup(timers, key))
  {
    hide Holds;
  }

  lemma {:induction false} TurnsNext(round: Round, narrow: Narrowing, timers: Timers, k: nat)
    requires round.Evaluable() && k < |round.rules|
    ensures TurnsOf(round, narrow, timers, k + 1)
            == EvaluatedOne(round.rules[k], round.st, narrow, TurnsOf(round, narrow, timers, k), round.clocks[k]).0
  {
    hide EvaluatedOne;
    assert round.rules[..k + 1][..k] == round.rules[..k] && round.clocks[..k + 1][..k] == round.clocks[..k];
  }

  /** The turns of rules without the name, or for another process, leave its timer alone. */
  lemma {:induction false} TurnsOfOthers(
      round: Round, narrow: Narrowing, timers: Timers, from: nat, to: nat, key: Key)
    requires round.Evaluable() && from <= to <= |round.rules|
    requires round.st.pid == key.1 ==>
               forall k | from <= k < to && round.rules[k].condition.Duration? :: round.rules[k].name != key.0
    ensures Lookup(TurnsOf(round, narrow, timers, to), key) == Lookup(TurnsOf(round, narrow, timers, from), key)
  {
    hide TurnsOf, EvaluatedOne, Lookup;
    if from < to {
      TurnsOfOthers(round, narrow, timers, from, to - 1, key);
      TurnsNext(round, narrow, timers, to - 1);
      OtherTurn(round.rules[to - 1], round.st, narrow, TurnsOf(round, narrow, timers, to - 1), round.clocks[to - 1], key);
    }
  }

  lemma {:induction false} NoTurns(round: Round, narrow: Narrowing, timers: Timers)
    requires round.Evaluable()
    ensures TurnsOf(round, narrow, timers, 0) == timers
    ensures TurnsOf(round, narrow, timers, |round.rules|)
            == Evaluated(round.rules, round.st, narrow, timers, round.clocks).0
  {
    hide EvaluatedOne;
    assert round.rules[..|round.rules|] == round.rules && round.clocks[..|round.rules|] == round.clocks;
  }

  /** Where a name has one duration rule, that rule finds the timer as it was and leaves it as the evaluation does. */
  lemma {:induction false} SoleTurn(round: Round, narrow: Narrowing, timers: Timers, name: string, k: nat)
    requires round.Evaluable() && Sole(round.rules, name) && Named(round.rules, name) == Some(k)
    ensures var key := (name, round.st.pid);
            && Lookup(TurnsOf(round, narrow, timers, k), key) == Lookup(timers, key)
            && Lookup(TurnsOf(round, narrow, timers, |round.rules|), key)
               == Next(round.rules[k], round.st, narrow, round.clocks[k], Lookup(timers, key))
  {
    hide TurnsOf, EvaluatedOne, Lookup, Next, Evaluated;
    var key := (name, round.st.pid);
    forall l | 0 <= l < |round.rules| && l != k && round.rules[l].condition.Duration?
      ensures round.rules[l].name != name
    {
      if round.rules[l].name == name {
        SoleIsNamed(round.rules, name, l);
      }
    }
    NoTurns(round, narrow, timers);
    TurnsOfOthers(round, narrow, timers, 0, k, key);
    TurnsNext(round, narrow, timers, k);
    OwnTurn(round.rules[k], round.st, narrow, TurnsOf(round, narrow, timers, k), round.clocks[k]);
    TurnsOfOthers(round, narrow, timers, k + 1, |round.rules|, key);
  }

  /** The tracker holds the timer of such a name, whatever the other rules do. */
  lemma {:induction false} TimerIsNamed(narrow: Narrowing, rounds: seq<Round>, name: string, pid: UInt32)
    requires Evaluable(rounds) && SoleThroughout(rounds, name)
    ensures Lookup(AfterRounds(narrow, rounds), (name, pid)) == NamedTimer(narrow, rounds, name, pid)
  {
    if rounds != [] {
      hide Evaluated, TurnsOf, Lookup, Next, Sole, Named;
      var n := |rounds| - 1;
      var last, timers := rounds[n], AfterRounds(narrow, rounds[..n]);
      TimerIsNamed(narrow, rounds[..n], name, pid);
      NoTurns(last, narrow, timers);
      var k := Named(last.rules, name);
      if last.st.pid == pid && k.Some? {
        SoleTurn(last, narrow, timers, name, k.value);
      } else {
        TurnsOfOthers(last, narrow, timers, 0, |last.rules|, (name, pid));
      }
    } else {
      assert Lookup(map[], (name, pid)) == None;
    }
  }

  // ---------------------------------------------------------------- firing, by name

  /** The evaluation had a duration rule of the name, and its condition held. */
  predicate NamedMet(narrow: Narrowing, round: Round, name: string) {
    Named(round.rules, name).Some? && Met(round.rules[Named(round.rules, name).value], narrow, round)
  }

  /** In evaluation `m`, one of process `pid`, there was a duration rule of the name; and since then, in every
      evaluation of that process that had one, its condition held. */
  predicate HeldByName(narrow: Narrowing, rounds: seq<Round>, name: string, m: nat, pid: UInt32) {
    && m < |rounds| && rounds[m].st.pid == pid && Named(rounds[m].rules, name).Some?
    && (forall i: nat | m <= i < |rounds| && rounds[i].st.pid == pid && Named(rounds[i].rules, name).Some? ::
          NamedMet(narrow, rounds[i], name))
  }

  /** When such an evaluation read the clock for the rule. */
  function StartOf(rounds: seq<Round>, name: string, m: nat): int
    requires Evaluable(rounds) && m < |rounds|
  {
    var k := Named(rounds[m].rules, name);
    if k.Some? then rounds[m].clocks[k.value].startAt else 0
  }

  /** A named timer was started by such an evaluation. */
  lemma {:induction false} TimerStarts(narrow: Narrowing, rounds: seq<Round>, name: string, pid: UInt32)
    returns (m: nat)
    requires Evaluable(rounds) && NamedTimer(narrow, rounds, name, pid).Some?
    ensures HeldByName(narrow, rounds, name, m, pid)
    ensures StartOf(rounds, name, m) == NamedTimer(narrow, rounds, name, pid).value
  {
    hide Holds, Named;
    var n := |rounds| - 1;
    var before := rounds[..n];
    if NamedTimer(narrow, before, name, pid).None? {
      m := n;
    } else {
      m := TimerStarts(narrow, before, name, pid);
      assert forall i: nat | i < n :: before[i] == rounds[i];
    }
  }

  /** And it was started no later than any such evaluation. */
  lemma {:induction false} TimerCovers(narrow: Narrowing, rounds: seq<Round>, name: string, pid: UInt32, m: nat)
    requires Evaluable(rounds) && Forward(rounds) && HeldByName(narrow, rounds, name, m, pid)
    ensures var timer := NamedTimer(narrow, rounds, name, pid);
            timer.Some? && timer.value <= StartOf(rounds, name, m)
  {
    hide Holds, Named;
    var n := |rounds| - 1;
    var before := rounds[..n];
    ForwardPrefix(rounds, n);
    if m < n {
      assert forall i: nat | i < n :: before[i] == rounds[i];
      TimerCovers(narrow, before, name, pid, m);
      assert rounds[n].st.pid == pid && Named(rounds[n].rules, name).Some? ==> NamedMet(narrow, rounds[n], name);
    } else {
      assert NamedMet(narrow, rounds[n], name);
      if NamedTimer(narrow, before, name, pid).Some? {
        var i := TimerStarts(narrow, before, name, pid);
        assert before[i] == rounds[i];
        EarlierStart(rounds, name, i, n);
      }
    }
  }

  lemma {:induction false} EarlierStart(rounds: seq<Round>, name: string, i: nat, n: nat)
    requires Evaluable(rounds) && Forward(rounds) && i < n < |rounds|
    requires Named(rounds[i].rules, name).Some? && Named(rounds[n].rules, name).Some?
    ensures StartOf(rounds, name, i) <= StartOf(rounds, name, n)
  {
    hide Named;
    var k, l := Named(rounds[i].rules, name).value, Named(rounds[n].rules, name).value;
    assert rounds[i].clocks[k].startAt <= rounds[i].clocks[k].checkAt <= rounds[n].clocks[l].startAt;
  }

  lemma {:induction false} ForwardPrefix(rounds: seq<Round>, n: nat)
    requires Evaluable(rounds) && Forward(rounds) && n <= |rounds|
    ensures Evaluable(rounds[..n]) && Forward(rounds[..n])
  {
  }

  /** When the turn of the one duration rule of a name comes, it fires exactly when the name's timer says so. */
  lemma {:induction false} FiresByTimer(narrow: Narrowing, rounds: seq<Round>, n: nat, k: nat)
    requires Evaluable(rounds) && n < |rounds| && k < |rounds[n].rules| && rounds[n].rules[k].condition.Duration?
    requires SoleThroughout(rounds, rounds[n].rules[k].name)
    ensures Evaluable(rounds[..n + 1])
    ensures var rule := rounds[n].rules[k];
            var timer := NamedTimer(narrow, rounds[..n + 1], rule.name, rounds[n].st.pid);
            Fires(narrow, rounds, n, k) <==>
              timer.Some? && Elapsed(timer.value, rounds[n].clocks[k].checkAt) >= rule.condition.seconds * SECOND
  {
    hide Holds, Evaluated, Namesakes, Elapsed, Named, TurnsOf, Sole;
    var round := rounds[n];
    var name := round.rules[k].name;
    SoleIsNamed(round.rules, name, k);
    TimerIsNamed(narrow, rounds[..n], name, round.st.pid);
    SoleTurn(round, narrow, AfterRounds(narrow, rounds[..n]), name, k);
    assert rounds[..n + 1][..n] == rounds[..n];
  }

  /** Some evaluation read the clock for a rule of the name the required time before, and since then every rule of the
      name that was evaluated for the process was met. */
  predicate NameHeldLongEnough(narrow: Narrowing, rounds: seq<Round>, n: nat, k: nat)
    requires Evaluable(rounds) && n < |rounds| && k < |rounds[n].rules| && rounds[n].rules[k].condition.Duration?
  {
    exists m: nat ::
      && m <= n && HeldByName(narrow, rounds[..n + 1], rounds[n].rules[k].name, m, rounds[n].st.pid)
      && LongBefore(rounds, m, n, k)
  }

  /** Across reloads, whatever the other rules are: under a clock that never goes back, the one duration rule of a name
      fires exactly when the rules that went by the name were met for at least its required time. */
  lemma {:induction false} FiresOnName(narrow: Narrowing, rounds: seq<Round>, n: nat, k: nat)
    requires Evaluable(rounds) && Forward(rounds) && n < |rounds| && k < |rounds[n].rules|
    requires rounds[n].rules[k].condition.Duration? && SoleThroughout(rounds, rounds[n].rules[k].name)
    ensures Fires(narrow, rounds, n, k) <==> NameHeldLongEnough(narrow, rounds, n, k)
  {
    hide Holds, Fires, NamedTimer, Named, Sole;
    FiresByTimer(narrow, rounds, n, k);
    var name, pid, now := rounds[n].rules[k].name, rounds[n].st.pid, rounds[..n + 1];
    SoleIsNamed(rounds[n].rules, name, k);
    ForwardPrefix(rounds, n + 1);
    if Fires(narrow, rounds, n, k) {
      var m := TimerStarts(narrow, now, name, pid);
      assert now[m] == rounds[m];
      StartBeforeCheck(rounds, name, m, n, k);
      CounterpartIsNamed(rounds[m].rules, k, name);
      assert LongBefore(rounds, m, n, k);
    }
    if NameHeldLongEnough(narrow, rounds, n, k) {
      var m: nat :| m <= n && HeldByName(narrow, now, name, m, pid) && LongBefore(rounds, m, n, k);
      assert now[m] == rounds[m];
      CounterpartIsNamed(rounds[m].rules, k, name);
      TimerCovers(narrow, now, name, pid, m);
    }
  }

  lemma {:induction false} StartBeforeCheck(rounds: seq<Round>, name: string, m: nat, n: nat, k: nat)
    requires Evaluable(rounds) && Forward(rounds) && m <= n < |rounds|
    requires Named(rounds[m].rules, name).Some? && Named(rounds[n].rules, name) == Some(k)
    ensures StartOf(rounds, name, m) <= rounds[n].clocks[k].checkAt
  {
    hide Named;
    if m < n {
      EarlierStart(rounds, name, m, n);
    }
    assert rounds[n].clocks[k].startAt <= rounds[n].clocks[k].checkAt;
  }

  // ---------------------------------------------------------------- firing on the rule's own condition

  /** Evaluation `i`, seen from rule `k` of evaluation `n`: if it had a rule of the name, that was met as the rule itself
      would have been; and if it had none but an earlier one did, the rule itself would have been met. */
  predicate Follows(narrow: Narrowing, rounds: seq<Round>, i: nat, n: nat, k: nat)
    requires i <= n < |rounds| && k < |rounds[n].rules|
  {
    var rule := rounds[n].rules[k];
    if Named(rounds[i].rules, rule.name).Some? then
      NamedMet(narrow, rounds[i], rule.name) <==> Met(rule, narrow, rounds[i])
    else
      (exists j: nat :: j < i && Named(rounds[j].rules, rule.name).Some?) ==> Met(rule, narrow, rounds[i])
  }

  lemma {:induction false} FollowsHeld(narrow: Narrowing, rounds: seq<Round>, m: nat, n: nat, k: nat)
    requires m <= n < |rounds| && k < |rounds[n].rules| && Named(rounds[m].rules, rounds[n].rules[k].name).Some?
    requires forall i: nat | i <= n && rounds[i].st.pid == rounds[n].st.pid :: Follows(narrow, rounds, i, n, k)
    ensures HeldByName(narrow, rounds[..n + 1], rounds[n].rules[k].name, m, rounds[n].st.pid)
            <==> HeldBetween(rounds[n].rules[k], narrow, rounds, m, n)
  {
    hide Named, Met;
    var now, rule, pid := rounds[..n + 1], rounds[n].rules[k], rounds[n].st.pid;
    assert forall i: nat | i <= n :: now[i] == rounds[i];
    if HeldByName(narrow, now, rule.name, m, pid) {
      forall i: nat | m <= i <= n && rounds[i].st.pid == pid
        ensures Met(rule, narrow, rounds[i])
      {
        assert Follows(narrow, rounds, i, n, k);
        if Named(now[i].rules, rule.name).Some? {
          assert NamedMet(narrow, now[i], rule.name);
        }
      }
    }
    if HeldBetween(rule, narrow, rounds, m, n) {
      forall i: nat | m <= i < |now| && now[i].st.pid == pid && Named(now[i].rules, rule.name).Some?
        ensures NamedMet(narrow, now[i], rule.name)
      {
        assert Follows(narrow, rounds, i, n, k);
        assert Met(rule, narrow, rounds[i]);
      }
    }
  }

  /** Where every earlier evaluation of the process follows it, the one duration rule of a name fires exactly when its
      own condition has held long enough. */
  lemma {:induction false} FiresIfFollowed(narrow: Narrowing, rounds: seq<Round>, n: nat, k: nat)
    requires Evaluable(rounds) && Forward(rounds) && n < |rounds| && k < |rounds[n].rules|
    requires rounds[n].rules[k].condition.Duration? && SoleThroughout(rounds, rounds[n].rules[k].name)
    requires forall i: nat | i <= n && rounds[i].st.pid == rounds[n].st.pid :: Follows(narrow, rounds, i, n, k)
    ensures Fires(narrow, rounds, n, k) <==> HeldLongEnough(narrow, rounds, n, k)
  {
    hide Fires, Forward, Follows, Named, Sole, Met, HeldByName, HeldBetween;
    FiresOnName(narrow, rounds, n, k);
    var name := rounds[n].rules[k].name;
    forall m: nat | m <= n && LongBefore(rounds, m, n, k)
      ensures HeldByName(narrow, rounds[..n + 1], name, m, rounds[n].st.pid)
              <==> HeldBetween(rounds[n].rules[k], narrow, rounds, m, n)
    {
      CounterpartIsNamed(rounds[m].rules, k, name);
      FollowsHeld(narrow, rounds, m, n, k);
    }
  }

  /** One rule set is in force throughout. */
  predicate Constant(rounds: seq<Round>, rules: seq<Rule>) {
    forall n | 0 <= n < |rounds| :: rounds[n].rules == rules
  }

  /** Without a reload, and whatever the other rules are: under a clock that never goes back, a duration rule that shares
      its name with no other fires in an evaluation exactly when its own condition holds and has held, in every
      evaluation of that process, for at least the required time. */
  lemma {:induction false} FiresOnOwnCondition(
      rules: seq<Rule>, narrow: Narrowing, rounds: seq<Round>, n: nat, k: nat)
    requires Evaluable(rounds) && Forward(rounds) && Constant(rounds, rules) && n < |rounds| && k < |rules|
    requires rules[k].condition.Duration? && Sole(rules, rules[k].name)
    ensures Fires(narrow, rounds, n, k) <==> HeldLongEnough(narrow, rounds, n, k)
  {
    hide Fires, HeldLongEnough, Forward, Named, Sole, Met;
    SoleIsNamed(rules, rules[k].name, k);
    FiresIfFollowed(narrow, rounds, n, k);
  }
}
