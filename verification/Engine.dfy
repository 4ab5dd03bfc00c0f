/** How the analysis engine carries findings from one tick to the next: the resolve, merge and statistics steps
    of `tick` (crates/aether-analyze/src/engine.rs). Findings of a tick are an arbitrary list. */
module Engine {
  import opened Results
  import opened Diagnostics
  import opened KeyedList

  /** An active finding takes evidence, severity and recommendation from a newer one and keeps the rest. */
  function Refreshed(active: Diagnostic, newer: Diagnostic): Diagnostic {
    active.(evidence := newer.evidence, severity := newer.severity, recommendation := newer.recommendation)
  }

  lemma RefreshedTakesUp()
    ensures TakesUp(Refreshed)
  {
  }

  /** The active findings whose key is among the new ones, in order. */
  function Retained(active: seq<Diagnostic>, news: seq<Diagnostic>): seq<Diagnostic> {
    if active == [] then []
    else
      var rest := Retained(active[..|active| - 1], news);
      if Has(news, active[|active| - 1].Key()) then rest + [active[|active| - 1]] else rest
  }

  /** The active findings after a tick. */
  function Tick(active: seq<Diagnostic>, news: seq<Diagnostic>): seq<Diagnostic> {
    Merge(Retained(active, news), news, Refreshed)
  }

  function CountOf(ds: seq<Diagnostic>, severity: Severity): nat {
    if ds == [] then 0
    else CountOf(ds[..|ds| - 1], severity) + (if ds[|ds| - 1].severity == severity then 1 else 0)
  }

  class DiagnosticEngine {
    var activeDiagnostics: seq<Diagnostic>
    var evaluations: nat
    var rulesFired: nat
    var activeCritical: nat
    var activeWarning: nat
    var activeInfo: nat

    constructor ()
      ensures activeDiagnostics == [] && evaluations == rulesFired == 0
      ensures activeCritical == activeWarning == activeInfo == 0
    {
      activeDiagnostics := [];
      evaluations, rulesFired := 0, 0;
      activeCritical, activeWarning, activeInfo := 0, 0, 0;
    }

    /** Steps 6 to 8 of a tick, for the findings `news` of `fired` rules. */
    method Absorb(news: seq<Diagnostic>, fired: nat)
      modifies this
      ensures activeDiagnostics == Tick(old(activeDiagnostics), news)
      ensures evaluations == old(evaluations) + 1 && rulesFired == old(rulesFired) + fired
      ensures activeCritical == CountOf(activeDiagnostics, Critical)
      ensures activeWarning == CountOf(activeDiagnostics, Warning)
      ensures activeInfo == CountOf(activeDiagnostics, Info)
      ensures activeCritical + activeWarning + activeInfo == |activeDiagnostics|
    {
      Resolve(news);
      MergeNew(news);
      evaluations := evaluations + 1;
      rulesFired := rulesFired + fired;
      UpdateSeverityCounts();
    }

    /** Drops the active findings that no new one matches. */
    method Resolve(news: seq<Diagnostic>)
      modifies this`activeDiagnostics
      ensures activeDiagnostics == Retained(old(activeDiagnostics), news)
    {
      var was, kept := activeDiagnostics, [];
      for i := 0 to |was|
        invariant kept == Retained(was[..i], news)
      {
        assert was[..i + 1][..i] == was[..i];
        var matching := Find(news, was[i]);
        if matching.Some? {
          kept := kept + [was[i]];
        }
      }
      assert was[..|was|] == was;
      activeDiagnostics := kept;
    }

    method MergeNew(news: seq<Diagnostic>)
      modifies this`activeDiagnostics
      ensures activeDiagnostics == Merge(old(activeDiagnostics), news, Refreshed)
    {
      for i := 0 to |news|
        invariant activeDiagnostics == Merge(old(activeDiagnostics), news[..i], Refreshed)
      {
        assert news[..i + 1][..i] == news[..i];
        var existing := Find(activeDiagnostics, news[i]);
        if existing.Some? {
          var a := activeDiagnostics[existing.value];
          a := a.(evidence := news[i].evidence);
          a := a.(severity := news[i].severity);
          a := a.(recommendation := news[i].recommendation);
          activeDiagnostics := activeDiagnostics[existing.value := a];
        } else {
          activeDiagnostics := activeDiagnostics + [news[i]];
        }
      }
      assert news[..|news|] == news;
    }

    method UpdateSeverityCounts()
      modifies this`activeCritical, this`activeWarning, this`activeInfo
      ensures activeCritical == CountOf(activeDiagnostics, Critical)
      ensures activeWarning == CountOf(activeDiagnostics, Warning)
      ensures activeInfo == CountOf(activeDiagnostics, Info)
      ensures activeCritical + activeWarning + activeInfo == |activeDiagnostics|
    {
      var critical, warning, info := 0, 0, 0;
      for i := 0 to |activeDiagnostics|
        invariant critical == CountOf(activeDiagnostics[..i], Critical)
        invariant warning == CountOf(activeDiagnostics[..i], Warning)
        invariant info == CountOf(activeDiagnostics[..i], Info)
        invariant critical + warning + info == i
      {
        assert activeDiagnostics[..i + 1][..i] == activeDiagnostics[..i];
        match activeDiagnostics[i].severity {
          case Critical => critical := critical + 1;
          case Warning => warning := warning + 1;
          case Info => info := info + 1;
        }
      }
      assert activeDiagnostics[..|activeDiagnostics|] == activeDiagnostics;
      activeCritical, activeWarning, activeInfo := critical, warning, info;
    }
  }

  function Positions(ds: seq<Diagnostic>, severity: Severity): set<nat> {
    set i: nat | i < |ds| && ds[i].severity == severity
  }

  lemma PositionsNext(ds: seq<Diagnostic>, severity: Severity, n: nat)
    requires |ds| == n + 1
    ensures |Positions(ds, severity)|
            == |Positions(ds[..n], severity)| + (if ds[n].severity == severity then 1 else 0)
  {
    var before := Positions(ds[..n], severity);
    assert n !in before;
    assert Positions(ds, severity) == if ds[n].severity == severity then before + {n} else before;
  }

  /** A count is the number of positions with that severity. */
  lemma {:induction false} CountExactly(ds: seq<Diagnostic>, severity: Severity)
    ensures CountOf(ds, severity) == |Positions(ds, severity)|
  {
    if ds == [] {
      assert Positions(ds, severity) == {};
    } else {
      hide Positions;
      CountExactly(ds[..|ds| - 1], severity);
      PositionsNext(ds, severity, |ds| - 1);
    }
  }

  // ---------------------------------------------------------------- one tick

  /** The entry has evidence, severity and recommendation of `newest` and everything else of `kept`. */
  ghost predicate Carries(entry: Diagnostic, kept: Diagnostic, newest: Diagnostic) {
    && entry.evidence == newest.evidence && entry.severity == newest.severity
    && entry.recommendation == newest.recommendation
    && entry.id == kept.id && entry.host == kept.host && entry.target == kept.target
    && entry.category == kept.category && entry.summary == kept.summary
    && entry.detectedAt == kept.detectedAt && entry.resolvedAt == kept.resolvedAt
  }

  lemma {:induction false} RetainedDistinct(active: seq<Diagnostic>, news: seq<Diagnostic>)
    requires DistinctKeys(active)
    ensures DistinctKeys(Retained(active, news))
    ensures forall d | d in Retained(active, news) :: d in active
  {
    hide Has;
    if active != [] {
      RetainedDistinct(active[..|active| - 1], news);
      var rest := Retained(active[..|active| - 1], news);
      assert forall i | 0 <= i < |rest| :: rest[i] in rest;
    }
  }

  /** An entry remains exactly when its key is among the new ones, and remains as it was. */
  lemma {:induction false} RetainedExactly(active: seq<Diagnostic>, news: seq<Diagnostic>, key: Key)
    requires DistinctKeys(active)
    ensures var r := Retained(active, news);
            && (Has(r, key) <==> Has(active, key) && Has(news, key))
            && (Has(r, key) ==> r[First(r, key).value] == active[First(active, key).value])
  {
    if active != [] {
      var before, a := active[..|active| - 1], active[|active| - 1];
      assert active == before + [a];
      RetainedExactly(before, news, key);
      Snoc(Retained(before, news), a, key);
      Snoc(before, a, key);
    }
  }

  /** After a tick the keys are distinct and are exactly those of the new findings. The entry of a key keeps
      everything of the active entry, or else of the first new one, but evidence, severity and recommendation,
      which are those of the last new one. */
  lemma TickExactly(active: seq<Diagnostic>, news: seq<Diagnostic>, key: Key)
    requires DistinctKeys(active)
    ensures var r := Tick(active, news);
            && DistinctKeys(r)
            && (Has(r, key) <==> Has(news, key))
            && (Has(news, key) ==>
                  Carries(r[First(r, key).value],
                          if Has(active, key) then active[First(active, key).value] else news[First(news, key).value],
                          news[Last(news, key).value]))
  {
    hide First, Last, Retained;
    var base, r := Retained(active, news), Tick(active, news);
    RetainedDistinct(active, news);
    RetainedExactly(active, news, key);
    RefreshedTakesUp();
    MergeExactly(base, news, Refreshed);
    if Has(r, key) {
      var i := First(r, key).value;
      assert EntryIs(base, news, Refreshed, r, i);
      if i < |base| {
        OnlyPosition(base, i);
        MergedKey(base, news, r, i);
      }
    }
  }

  lemma MergedKey(base: seq<Diagnostic>, news: seq<Diagnostic>, r: seq<Diagnostic>, i: nat)
    requires i < |base| <= |r| && EntryIs(base, news, Refreshed, r, i)
    ensures r[i].Key() == base[i].Key()
  {
  }

  // ---------------------------------------------------------------- all ticks

  function AfterTicks(batches: seq<seq<Diagnostic>>): seq<Diagnostic> {
    if batches == [] then [] else Tick(AfterTicks(batches[..|batches| - 1]), batches[|batches| - 1])
  }

  /** The first finding with the key in the batch that began the latest unbroken run of batches with it. */
  function Origin(batches: seq<seq<Diagnostic>>, key: Key): (r: Option<Diagnostic>)
    ensures r.Some? <==> batches != [] && Has(batches[|batches| - 1], key)
  {
    if batches == [] || !Has(batches[|batches| - 1], key) then None
    else
      var before := Origin(batches[..|batches| - 1], key);
      var batch := batches[|batches| - 1];
      if before.Some? then before else Some(batch[First(batch, key).value])
  }

  /** Over every run of ticks: one active entry for each key of the last batch and no other, with the identity,
      summary and detection time of the finding that began the key's current streak and the evidence, severity
      and recommendation of the last finding with the key. */
  lemma {:induction false} TicksExactly(batches: seq<seq<Diagnostic>>, key: Key)
    ensures var r := AfterTicks(batches);
            && DistinctKeys(r)
            && (Has(r, key) <==> batches != [] && Has(batches[|batches| - 1], key))
            && (Has(r, key) ==>
                  var batch := batches[|batches| - 1];
                  Carries(r[First(r, key).value], Origin(batches, key).value, batch[Last(batch, key).value]))
  {
    hide First, Last, Tick;
    if batches != [] {
      var n := |batches| - 1;
      TicksExactly(batches[..n], key);
      TickExactly(AfterTicks(batches[..n]), batches[n], key);
    }
  }
}
