/** What a reload of the rules does to a running timer (crates/aether-script/src/engine.rs, hot_reload.rs): the tracker
    outlives the rule set, so a rule goes on from the timer of whatever had its name before. */
module RuleReloads {
  import opened Results
  import opened Ast
  import opened Ir
  import opened Codegen
  import opened Clocks
  import opened Runtime
  import opened RuleHistories

  /** Some state of the process meets the rule. */
  ghost predicate Possible(rule: Rule, narrow: Narrowing, pid: UInt32) {
    exists st: WorldState :: st.pid == pid && Holds(rule.condition, st, narrow)
  }

  /** The two conditions agree on all states of the process. */
  ghost predicate SameFor(a: Rule, b: Rule, narrow: Narrowing, pid: UInt32) {
    forall st: WorldState | st.pid == pid :: Holds(a.condition, st, narrow) == Holds(b.condition, st, narrow)
  }

  ghost predicate AlwaysFor(rule: Rule, narrow: Narrowing, pid: UInt32) {
    forall st: WorldState | st.pid == pid :: Holds(rule.condition, st, narrow)
  }

  ghost predicate Had(sets: seq<seq<Rule>>, i: nat, name: string) {
    exists j: nat :: j < i && j < |sets| && Named(sets[j], name).Some?
  }

  /** For processes the rule can hold for at all, rule set `i` either had a rule of its name with the same condition, or
      it had none: then none was loaded before, or the condition always holds. */
  ghost predicate Undisturbed(sets: seq<seq<Rule>>, rule: Rule, narrow: Narrowing, i: nat, pid: UInt32)
    requires i < |sets|
  {
    Possible(rule, narrow, pid) ==>
      var k := Named(sets[i], rule.name);
      if k.Some? then SameFor(sets[i][k.value], rule, narrow, pid)
      else Had(sets, i, rule.name) ==> AlwaysFor(rule, narrow, pid)
  }

  ghost predicate NeverDisturbed(sets: seq<seq<Rule>>, rule: Rule, narrow: Narrowing, n: nat)
    requires n <= |sets|
  {
    forall i: nat, pid: UInt32 | i < n :: Undisturbed(sets, rule, narrow, i, pid)
  }

  /** The rules in force at each evaluation. */
  predicate InForce(sets: seq<seq<Rule>>, rounds: seq<Round>) {
    |rounds| == |sets| && forall i | 0 <= i < |sets| :: rounds[i].rules == sets[i]
  }

  predicate Loadable(sets: seq<seq<Rule>>, name: string) {
    forall i | 0 <= i < |sets| :: Sole(sets[i], name) && forall k | 0 <= k < |sets[i]| :: sets[i][k].actions != []
  }

  lemma {:induction false} UndisturbedFollows(
      sets: seq<seq<Rule>>, narrow: Narrowing, rounds: seq<Round>, i: nat, n: nat, k: nat)
    requires InForce(sets, rounds) && i <= n < |sets| && k < |sets[n]| && rounds[i].st.pid == rounds[n].st.pid
    requires Named(sets[n], sets[n][k].name) == Some(k) && Met(sets[n][k], narrow, rounds[n])
    requires i < n ==> Undisturbed(sets, sets[n][k], narrow, i, rounds[n].st.pid)
    ensures Follows(narrow, rounds, i, n, k)
  {
    hide Named, Holds;
    assert Possible(sets[n][k], narrow, rounds[n].st.pid);
    if i < n && (exists j: nat :: j < i && Named(rounds[j].rules, sets[n][k].name).Some?) {
      var j: nat :| j < i && Named(rounds[j].rules, sets[n][k].name).Some?;
      assert Named(sets[j], sets[n][k].name).Some?;
    }
  }

  /** An unmet rule neither fires nor has its condition held. */
  lemma {:induction false} UnmetIsSilent(narrow: Narrowing, rounds: seq<Round>, n: nat, k: nat)
    requires Evaluable(rounds) && n < |rounds| && k < |rounds[n].rules| && rounds[n].rules[k].condition.Duration?
    requires !Met(rounds[n].rules[k], narrow, rounds[n])
    ensures !Fires(narrow, rounds, n, k) && !HeldLongEnough(narrow, rounds, n, k)
  {
    hide Holds, Before;
  }

  /** Reloads that leave the rule undisturbed leave its meaning intact. */
  lemma {:induction false} FiresAcrossReloads(
      sets: seq<seq<Rule>>, narrow: Narrowing, rounds: seq<Round>, k: nat)
    requires sets != [] && InForce(sets, rounds) && Evaluable(rounds) && Forward(rounds)
    requires var last := sets[|sets| - 1];
             k < |last| && last[k].condition.Duration? && Loadable(sets, last[k].name)
    requires NeverDisturbed(sets, sets[|sets| - 1][k], narrow, |sets| - 1)
    ensures Fires(narrow, rounds, |sets| - 1, k) <==> HeldLongEnough(narrow, rounds, |sets| - 1, k)
  {
    hide Fires, HeldLongEnough, Forward, Named, Sole, Met, Undisturbed, Follows;
    var n := |sets| - 1;
    if Met(sets[n][k], narrow, rounds[n]) {
      SoleIsNamed(sets[n], sets[n][k].name, k);
      forall i: nat | i <= n && rounds[i].st.pid == rounds[n].st.pid
        ensures Follows(narrow, rounds, i, n, k)
      {
        UndisturbedFollows(sets, narrow, rounds, i, n, k);
      }
      FiresIfFollowed(narrow, rounds, n, k);
    } else {
      UnmetIsSilent(narrow, rounds, n, k);
    }
  }

  // ---------------------------------------------------------------- a disturbed rule

  /** A series of evaluations in the given states, all at time zero but the last, which comes after `wait`. */
  function Series(sets: seq<seq<Rule>>, states: seq<WorldState>, wait: nat): (rounds: seq<Round>)
    requires |states| == |sets|
    ensures InForce(sets, rounds) && forall i | 0 <= i < |sets| :: rounds[i].st == states[i]
  {
    seq(|sets|, i requires 0 <= i < |sets| =>
      var now := if i == |sets| - 1 then wait else 0;
      Round(sets[i], states[i], seq(|sets[i]|, _ => Clock(now, now))))
  }

  lemma {:induction false} SeriesFits(sets: seq<seq<Rule>>, states: seq<WorldState>, wait: nat, name: string)
    requires |states| == |sets| && Loadable(sets, name)
    ensures var rounds := Series(sets, states, wait);
            Evaluable(rounds) && Forward(rounds) && SoleThroughout(rounds, name)
  {
    hide Sole;
  }

  /** A state of another process. */
  function Elsewhere(pid: UInt32): WorldState {
    WorldState(if pid == 0 then 1 else 0, Finite(0.0), 0, Finite(0.0), 0, Finite(0.0))
  }

  /** Of the evaluations, those of process `pid` are exactly these. */
  function Only(n: nat, pid: UInt32, at: map<nat, WorldState>): (states: seq<WorldState>)
    requires forall i | i in at :: at[i].pid == pid
    ensures |states| == n
    ensures forall i: nat | i < n :: states[i].pid == pid <==> i in at
    ensures forall i: nat | i < n && i in at :: states[i] == at[i]
  {
    seq(n, i requires 0 <= i < n => if i in at then at[i] else Elsewhere(pid))
  }

  /** The rule whose place in the last set is `k`. */
  predicate Asks(sets: seq<seq<Rule>>, k: nat) {
    && sets != [] && k < |sets[|sets| - 1]|
    && var rule := sets[|sets| - 1][k];
       rule.condition.Duration? && rule.condition.seconds > 0 && Loadable(sets, rule.name)
  }

  /** The last evaluation disagrees with the rule's own condition. */
  predicate Misfires(narrow: Narrowing, sets: seq<seq<Rule>>, rounds: seq<Round>, k: nat)
    requires Asks(sets, k) && InForce(sets, rounds) && Evaluable(rounds)
  {
    Fires(narrow, rounds, |sets| - 1, k) != HeldLongEnough(narrow, rounds, |sets| - 1, k)
  }

  /** Nothing but the last evaluation takes place later than the first, and that long enough for the rule. */
  predicate Spaced(sets: seq<seq<Rule>>, rounds: seq<Round>, k: nat) {
    && Asks(sets, k) && InForce(sets, rounds) && Evaluable(rounds) && Forward(rounds)
    && var n, name := |sets| - 1, sets[|sets| - 1][k].name;
       && SoleThroughout(rounds, name)
       && forall m: nat | m <= n :: LongBefore(rounds, m, n, k) <==> m < n && Named(sets[m], name).Some?
  }

  lemma {:induction false} SeriesSpaced(sets: seq<seq<Rule>>, states: seq<WorldState>, k: nat)
    requires Asks(sets, k) && |states| == |sets|
    ensures Spaced(sets, Series(sets, states, sets[|sets| - 1][k].condition.seconds * SECOND), k)
  {
    hide Sole, Named, Forward, Counterpart;
    var n, rule := |sets| - 1, sets[|sets| - 1][k];
    var rounds := Series(sets, states, rule.condition.seconds * SECOND);
    SeriesFits(sets, states, rule.condition.seconds * SECOND, rule.name);
    SoleIsNamed(sets[n], rule.name, k);
    forall m: nat | m <= n
      ensures LongBefore(rounds, m, n, k) <==> m < n && Named(sets[m], rule.name).Some?
    {
      CounterpartIsNamed(sets[m], k, rule.name);
    }
  }

  /** A spaced series whose evaluations of process `pid` are exactly the given ones. */
  lemma {:induction false} Stage(sets: seq<seq<Rule>>, k: nat, pid: UInt32, at: map<nat, WorldState>)
    returns (rounds: seq<Round>)
    requires Asks(sets, k) && forall i | i in at :: at[i].pid == pid
    ensures Spaced(sets, rounds, k) && |rounds| == |sets|
    ensures forall i: nat | i < |sets| ::
              rounds[i].rules == sets[i] && if i in at then rounds[i].st == at[i] else rounds[i].st.pid != pid
  {
    hide Loadable, Spaced;
    var states := Only(|sets|, pid, at);
    rounds := Series(sets, states, sets[|sets| - 1][k].condition.seconds * SECOND);
    SeriesSpaced(sets, states, k);
  }

  /** In a spaced series the rule fires exactly when it has held by name since some earlier evaluation. */
  lemma {:induction false} SpacedFires(sets: seq<seq<Rule>>, narrow: Narrowing, rounds: seq<Round>, k: nat)
    requires Spaced(sets, rounds, k)
    ensures var n, rule := |sets| - 1, sets[|sets| - 1][k];
            Fires(narrow, rounds, n, k) <==>
              exists m: nat :: m < n && HeldByName(narrow, rounds, rule.name, m, rounds[n].st.pid)
  {
    hide Fires, Sole, Named, Forward, LongBefore, Counterpart, Holds;
    var n, rule := |sets| - 1, sets[|sets| - 1][k];
    FiresOnName(narrow, rounds, n, k);
    assert rounds[..n + 1] == rounds;
  }

  /** And its own condition has held long enough exactly when it held since some earlier evaluation that had it. */
  lemma {:induction false} SpacedHeld(sets: seq<seq<Rule>>, narrow: Narrowing, rounds: seq<Round>, k: nat)
    requires Spaced(sets, rounds, k)
    ensures var n, rule := |sets| - 1, sets[|sets| - 1][k];
            HeldLongEnough(narrow, rounds, n, k) <==>
              exists m: nat :: m < n && Named(sets[m], rule.name).Some? && HeldBetween(rule, narrow, rounds, m, n)
  {
    hide Sole, Named, Forward, LongBefore, Counterpart, Holds, HeldBetween;
  }

  /** An earlier version that did not hold where the rule does: the time since then is not counted. */
  lemma {:induction false} StartsOver(
      sets: seq<seq<Rule>>, narrow: Narrowing, k: nat, i: nat, st: WorldState) returns (rounds: seq<Round>)
    requires Asks(sets, k) && i < |sets| - 1
    requires var rule := sets[|sets| - 1][k];
             && Named(sets[i], rule.name).Some? && Holds(rule.condition, st, narrow)
             && !Holds(sets[i][Named(sets[i], rule.name).value].condition, st, narrow)
    ensures Spaced(sets, rounds, k)
    ensures !Fires(narrow, rounds, |sets| - 1, k) && HeldLongEnough(narrow, rounds, |sets| - 1, k)
  {
    hide Holds, Fires, Named, Sole, Spaced, HeldLongEnough, Forward, Loadable, Evaluable;
    var n, rule := |sets| - 1, sets[|sets| - 1][k];
    rounds := Stage(sets, k, st.pid, map[i := st, n := st]);
    SpacedFires(sets, narrow, rounds, k);
    SpacedHeld(sets, narrow, rounds, k);
    assert HeldBetween(rule, narrow, rounds, i, n);
    assert !NamedMet(narrow, rounds[i], rule.name);
  }

  /** An earlier version that held where the rule does not: its time counts. */
  lemma {:induction false} InheritsTime(
      sets: seq<seq<Rule>>, narrow: Narrowing, k: nat, i: nat, st: WorldState, now: WorldState)
    returns (rounds: seq<Round>)
    requires Asks(sets, k) && i < |sets| - 1 && st.pid == now.pid
    requires var rule := sets[|sets| - 1][k];
             && Named(sets[i], rule.name).Some? && !Holds(rule.condition, st, narrow)
             && Holds(sets[i][Named(sets[i], rule.name).value].condition, st, narrow)
             && Holds(rule.condition, now, narrow)
    ensures Spaced(sets, rounds, k)
    ensures Fires(narrow, rounds, |sets| - 1, k) && !HeldLongEnough(narrow, rounds, |sets| - 1, k)
  {
    hide Holds, Fires, Named, Sole, Spaced, HeldLongEnough, Forward, Loadable, Evaluable;
    var n, rule := |sets| - 1, sets[|sets| - 1][k];
    rounds := Stage(sets, k, st.pid, map[i := st, n := now]);
    LastIsNamed(sets, k);
    SpacedFires(sets, narrow, rounds, k);
    SpacedHeld(sets, narrow, rounds, k);
    assert HeldByName(narrow, rounds, rule.name, i, now.pid);
    assert !Met(rule, narrow, rounds[i]);
  }

  lemma {:induction false} LastIsNamed(sets: seq<seq<Rule>>, k: nat)
    requires Asks(sets, k)
    ensures Named(sets[|sets| - 1], sets[|sets| - 1][k].name) == Some(k)
  {
    hide Named;
    SoleIsNamed(sets[|sets| - 1], sets[|sets| - 1][k].name, k);
  }

  /** A set without the rule between two with it: the timer runs on while nobody looks. */
  lemma {:induction false} RunsOnUnseen(
      sets: seq<seq<Rule>>, narrow: Narrowing, k: nat, j: nat, i: nat, st: WorldState, now: WorldState)
    returns (rounds: seq<Round>)
    requires Asks(sets, k) && j < i < |sets| - 1 && st.pid == now.pid
    requires var rule := sets[|sets| - 1][k];
             && Named(sets[j], rule.name).Some? && Named(sets[i], rule.name).None?
             && !Holds(rule.condition, st, narrow) && Holds(rule.condition, now, narrow)
             && Holds(sets[j][Named(sets[j], rule.name).value].condition, now, narrow)
    ensures Spaced(sets, rounds, k)
    ensures Fires(narrow, rounds, |sets| - 1, k) && !HeldLongEnough(narrow, rounds, |sets| - 1, k)
  {
    hide Holds, Fires, Named, Sole, Spaced, HeldLongEnough, Forward, Loadable, Evaluable;
    var n, rule := |sets| - 1, sets[|sets| - 1][k];
    rounds := Stage(sets, k, st.pid, map[j := now, i := st, n := now]);
    LastIsNamed(sets, k);
    SpacedFires(sets, narrow, rounds, k);
    SpacedHeld(sets, narrow, rounds, k);
    assert HeldByName(narrow, rounds, rule.name, j, now.pid);
    assert !Met(rule, narrow, rounds[i]);
  }

  /** Over every series of evaluations in which these rules are in force in turn, the rule's last firing is true to its
      own condition. */
  ghost predicate TrueAcross(sets: seq<seq<Rule>>, narrow: Narrowing, k: nat)
    requires Asks(sets, k)
  {
    forall rounds: seq<Round> | InForce(sets, rounds) && Evaluable(rounds) && Forward(rounds) ::
      !Misfires(narrow, sets, rounds, k)
  }

  /** A rule that asks for some time keeps its meaning across reloads, whatever the processes do, if and only if, for
      every process it can hold for, each rule set before had a rule of its name with a condition that agrees with its
      own, or had none, and then either none before it had one or the condition always holds. */
  lemma {:induction false} ReloadsKeepExactly(sets: seq<seq<Rule>>, narrow: Narrowing, k: nat)
    requires Asks(sets, k)
    ensures TrueAcross(sets, narrow, k) <==> NeverDisturbed(sets, sets[|sets| - 1][k], narrow, |sets| - 1)
  {
    hide Undisturbed, Misfires, Loadable, Forward;
    var rule := sets[|sets| - 1][k];
    if NeverDisturbed(sets, rule, narrow, |sets| - 1) {
      forall rounds: seq<Round> | InForce(sets, rounds) && Evaluable(rounds) && Forward(rounds)
        ensures !Misfires(narrow, sets, rounds, k)
      {
        NoMisfire(sets, narrow, rounds, k);
      }
    } else {
      var i: nat, pid: UInt32 :| i < |sets| - 1 && !Undisturbed(sets, rule, narrow, i, pid);
      var rounds := Disturbed(sets, narrow, k, i, pid);
    }
  }

  lemma {:induction false} NoMisfire(sets: seq<seq<Rule>>, narrow: Narrowing, rounds: seq<Round>, k: nat)
    requires Asks(sets, k) && InForce(sets, rounds) && Evaluable(rounds) && Forward(rounds)
    requires NeverDisturbed(sets, sets[|sets| - 1][k], narrow, |sets| - 1)
    ensures !Misfires(narrow, sets, rounds, k)
  {
    hide Undisturbed, Loadable, Forward, Fires, HeldLongEnough;
    FiresAcrossReloads(sets, narrow, rounds, k);
  }

  /** A disturbed rule misfires in some series. */
  lemma {:induction false} Disturbed(sets: seq<seq<Rule>>, narrow: Narrowing, k: nat, i: nat, pid: UInt32)
    returns (rounds: seq<Round>)
    requires Asks(sets, k) && i < |sets| - 1 && !Undisturbed(sets, sets[|sets| - 1][k], narrow, i, pid)
    ensures Spaced(sets, rounds, k) && Misfires(narrow, sets, rounds, k)
  {
    hide Holds, Named, Loadable, Spaced, SameFor, AlwaysFor;
    var rule := sets[|sets| - 1][k];
    var now: WorldState :| now.pid == pid && Holds(rule.condition, now, narrow);
    if Named(sets[i], rule.name).Some? {
      rounds := DisturbedBy(sets, narrow, k, i, now);
    } else {
      var j: nat :| j < i && j < |sets| && Named(sets[j], rule.name).Some?;
      rounds := DisturbedBetween(sets, narrow, k, j, i, now);
    }
  }

  lemma {:induction false} DisturbedBy(sets: seq<seq<Rule>>, narrow: Narrowing, k: nat, i: nat, now: WorldState)
    returns (rounds: seq<Round>)
    requires Asks(sets, k) && i < |sets| - 1
    requires var rule := sets[|sets| - 1][k];
             && Named(sets[i], rule.name).Some? && Holds(rule.condition, now, narrow)
             && !SameFor(sets[i][Named(sets[i], rule.name).value], rule, narrow, now.pid)
    ensures Spaced(sets, rounds, k) && Misfires(narrow, sets, rounds, k)
  {
    hide Holds, Named, Loadable, Spaced, Fires, HeldLongEnough;
    var rule := sets[|sets| - 1][k];
    var before := sets[i][Named(sets[i], rule.name).value];
    var st: WorldState :| st.pid == now.pid
      && Holds(before.condition, st, narrow) != Holds(rule.condition, st, narrow);
    if Holds(rule.condition, st, narrow) {
      rounds := StartsOver(sets, narrow, k, i, st);
    } else {
      rounds := InheritsTime(sets, narrow, k, i, st, now);
    }
  }

  lemma {:induction false} DisturbedBetween(
      sets: seq<seq<Rule>>, narrow: Narrowing, k: nat, j: nat, i: nat, now: WorldState)
    returns (rounds: seq<Round>)
    requires Asks(sets, k) && j < i < |sets| - 1
    requires var rule := sets[|sets| - 1][k];
             && Named(sets[j], rule.name).Some? && Named(sets[i], rule.name).None?
             && Holds(rule.condition, now, narrow) && !AlwaysFor(rule, narrow, now.pid)
    ensures Spaced(sets, rounds, k) && Misfires(narrow, sets, rounds, k)
  {
    hide Holds, Named, Loadable, Spaced, Fires, HeldLongEnough;
    var rule := sets[|sets| - 1][k];
    if Holds(sets[j][Named(sets[j], rule.name).value].condition, now, narrow) {
      var st: WorldState :| st.pid == now.pid && !Holds(rule.condition, st, narrow);
      rounds := RunsOnUnseen(sets, narrow, k, j, i, st, now);
    } else {
      rounds := StartsOver(sets, narrow, k, j, now);
    }
  }
}
