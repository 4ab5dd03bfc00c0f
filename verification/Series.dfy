/** Metric samples and the trailing window the analyzers look at (crates/aether-core/src/metrics.rs). */
module Series {
  datatype Sample = Sample(timestamp: real, value: real)

  /** Samples not older than `cutoff`, in order. */
  function Since(samples: seq<Sample>, cutoff: real): (r: seq<Sample>)
    ensures |r| <= |samples|
    ensures forall s | s in r :: s.timestamp >= cutoff
    ensures samples != [] && samples[|samples| - 1].timestamp >= cutoff ==>
              r != [] && r[|r| - 1] == samples[|samples| - 1]
  {
    if samples == [] then []
    else (if samples[0].timestamp >= cutoff then [samples[0]] else []) + Since(samples[1..], cutoff)
  }

  /** The samples within `window` of the latest one; the latest is always among them. */
  function Windowed(samples: seq<Sample>, window: real): (r: seq<Sample>)
    requires window >= 0.0
    ensures samples == [] <==> r == []
    ensures samples != [] ==> r[|r| - 1] == samples[|samples| - 1]
  {
    if samples == [] then [] else Since(samples, samples[|samples| - 1].timestamp - window)
  }

  /** `kept` are the samples at the positions `at`, which go up. */
  ghost predicate Selects(samples: seq<Sample>, kept: seq<Sample>, at: seq<nat>) {
    && |at| == |kept|
    && (forall k | 0 <= k < |at| :: at[k] < |samples| && kept[k] == samples[at[k]])
    && (forall k, l | 0 <= k < l < |at| :: at[k] < at[l])
  }

  /** The positions `at` are those of the samples not older than the cutoff. */
  ghost predicate Recents(samples: seq<Sample>, cutoff: real, at: seq<nat>) {
    forall i: nat | i < |samples| :: i in at <==> samples[i].timestamp >= cutoff
  }

  /** Exactly the samples not older than the cutoff are kept, and in order. */
  lemma {:induction false} SinceExactly(samples: seq<Sample>, cutoff: real) returns (at: seq<nat>)
    ensures Selects(samples, Since(samples, cutoff), at) && Recents(samples, cutoff, at)
  {
    if samples == [] {
      at := [];
    } else {
      hide Selects, Recents, Shifted;
      var rest := SinceExactly(samples[1..], cutoff);
      ShiftSelects(samples, Since(samples[1..], cutoff), rest);
      ShiftRecents(samples, cutoff, rest);
      if samples[0].timestamp >= cutoff {
        at := [0] + Shifted(rest);
        ConsSelects(samples, Since(samples[1..], cutoff), Shifted(rest));
      } else {
        at := Shifted(rest);
        assert [] + Since(samples[1..], cutoff) == Since(samples[1..], cutoff);
      }
    }
  }

  function Shifted(at: seq<nat>): (r: seq<nat>)
    ensures |r| == |at| && forall k | 0 <= k < |at| :: r[k] == at[k] + 1
  {
    seq(|at|, k requires 0 <= k < |at| => at[k] + 1)
  }

  lemma ShiftedHas(at: seq<nat>, i: nat)
    ensures i in Shifted(at) <==> i > 0 && i - 1 in at
  {
    hide Shifted;
    if i > 0 && i - 1 in at {
      var k :| 0 <= k < |at| && at[k] == i - 1;
      assert Shifted(at)[k] == i;
    }
  }

  lemma ShiftSelects(samples: seq<Sample>, kept: seq<Sample>, at: seq<nat>)
    requires samples != [] && Selects(samples[1..], kept, at)
    ensures Selects(samples, kept, Shifted(at)) && forall k | 0 <= k < |at| :: Shifted(at)[k] > 0
  {
    hide Shifted;
  }

  lemma ConsSelects(samples: seq<Sample>, kept: seq<Sample>, at: seq<nat>)
    requires samples != [] && Selects(samples, kept, at) && forall k | 0 <= k < |at| :: at[k] > 0
    ensures Selects(samples, [samples[0]] + kept, [0] + at)
  {
  }

  lemma ShiftRecents(samples: seq<Sample>, cutoff: real, at: seq<nat>)
    requires samples != [] && Recents(samples[1..], cutoff, at)
    ensures Recents(samples, cutoff, if samples[0].timestamp >= cutoff then [0] + Shifted(at) else Shifted(at))
  {
    hide Shifted;
    forall i: nat | i < |samples|
      ensures i in Shifted(at) <==> i > 0 && samples[i].timestamp >= cutoff
    {
      ShiftedHas(at, i);
      if i > 0 {
        assert samples[1..][i - 1] == samples[i];
      }
    }
  }

  /** The window keeps, in order, exactly the samples no more than `window` older than the latest. */
  lemma WindowedExactly(samples: seq<Sample>, window: real) returns (at: seq<nat>)
    requires window >= 0.0 && samples != []
    ensures Selects(samples, Windowed(samples, window), at)
    ensures forall i: nat | i < |samples| ::
              i in at <==> samples[|samples| - 1].timestamp - samples[i].timestamp <= window
  {
    hide Since, Selects;
    at := SinceExactly(samples, samples[|samples| - 1].timestamp - window);
  }

  ghost predicate TimeOrdered(samples: seq<Sample>) {
    forall i, j | 0 <= i < j < |samples| :: samples[i].timestamp <= samples[j].timestamp
  }
}
