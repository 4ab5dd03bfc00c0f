/** The terminal's capped list of findings (`upsert_diagnostics`, crates/aether-terminal/src/main.rs). */
module Upsert {
  import opened Diagnostics
  import opened KeyedList

  const MAX_DIAGNOSTICS: nat := 200

  /** A newer finding replaces the whole entry. */
  function Replaced(existing: Diagnostic, newer: Diagnostic): Diagnostic {
    newer
  }

  lemma ReplacedTakesUp()
    ensures TakesUp(Replaced)
  {
  }

  // ---------------------------------------------------------------- the stable sort

  /** The findings of one severity, in order. */
  function OfSeverity(ds: seq<Diagnostic>, severity: Severity): (r: seq<Diagnostic>)
    ensures forall d | d in r :: d in ds && d.severity == severity
  {
    if ds == [] then []
    else
      var rest := OfSeverity(ds[..|ds| - 1], severity);
      if ds[|ds| - 1].severity == severity then rest + [ds[|ds| - 1]] else rest
  }

  /** A stable sort by severity, least severe first: what the library sort does. */
  function Sorted(ds: seq<Diagnostic>): seq<Diagnostic> {
    OfSeverity(ds, Info) + OfSeverity(ds, Warning) + OfSeverity(ds, Critical)
  }

  lemma {:induction false} SortedPermutes(ds: seq<Diagnostic>)
    ensures multiset(Sorted(ds)) == multiset(ds)
    ensures |Sorted(ds)| == |ds|
  {
    if ds != [] {
      SortedPermutes(ds[..|ds| - 1]);
      assert ds == ds[..|ds| - 1] + [ds[|ds| - 1]];
    }
  }

  /** The three runs of the sorted list. */
  lemma SortedAt(ds: seq<Diagnostic>, k: nat)
    requires k < |Sorted(ds)|
    ensures var a, b, c := OfSeverity(ds, Info), OfSeverity(ds, Warning), OfSeverity(ds, Critical);
            && |Sorted(ds)| == |a| + |b| + |c|
            && (k < |a| ==> Sorted(ds)[k] == a[k] && a[k].severity == Info)
            && (|a| <= k < |a| + |b| ==> Sorted(ds)[k] == b[k - |a|] && b[k - |a|].severity == Warning)
            && (|a| + |b| <= k ==> Sorted(ds)[k] == c[k - |a| - |b|] && c[k - |a| - |b|].severity == Critical)
  {
    var a, b, c := OfSeverity(ds, Info), OfSeverity(ds, Warning), OfSeverity(ds, Critical);
    assert Sorted(ds)[k] in (if k < |a| then a else if k < |a| + |b| then b else c);
  }

  lemma SortedBySeverity(ds: seq<Diagnostic>, i: nat, j: nat)
    requires i <= j < |Sorted(ds)|
    ensures Sorted(ds)[i].severity.Rank() <= Sorted(ds)[j].severity.Rank()
  {
    hide Sorted, OfSeverity;
    SortedAt(ds, i);
    SortedAt(ds, j);
  }

  /** Position of the finding with the same key; findings of one severity keep their order. */
  function At(ds: seq<Diagnostic>, d: Diagnostic): nat {
    var first := First(ds, d.Key());
    if first.Some? then first.value else |ds|
  }

  lemma AtSnoc(before: seq<Diagnostic>, last: Diagnostic, d: Diagnostic)
    requires DistinctKeys(before + [last])
    ensures DistinctKeys(before)
    ensures At(before + [last], last) == |before|
    ensures d in before ==> At(before + [last], d) == At(before, d) < |before|
  {
    var ds := before + [last];
    Snoc(before, last, last.Key());
    Snoc(before, last, d.Key());
    assert forall k | 0 <= k < |before| :: ds[k] == before[k] && ds[|before|] == last;
  }

  lemma {:induction false} SeverityInOrder(ds: seq<Diagnostic>, severity: Severity, i: nat, j: nat)
    requires DistinctKeys(ds) && i < j < |OfSeverity(ds, severity)|
    ensures At(ds, OfSeverity(ds, severity)[i]) < At(ds, OfSeverity(ds, severity)[j])
  {
    hide At, DistinctKeys;
    var before, last := ds[..|ds| - 1], ds[|ds| - 1];
    var rest := OfSeverity(before, severity);
    assert ds == before + [last];
    assert rest[i] in rest;
    AtSnoc(before, last, rest[i]);
    if j < |rest| {
      SeverityInOrder(before, severity, i, j);
      assert rest[j] in rest;
      AtSnoc(before, last, rest[j]);
    }
  }

  lemma SortedIsStable(ds: seq<Diagnostic>, i: nat, j: nat)
    requires DistinctKeys(ds) && i < j < |Sorted(ds)| && Sorted(ds)[i].severity == Sorted(ds)[j].severity
    ensures At(ds, Sorted(ds)[i]) < At(ds, Sorted(ds)[j])
  {
    hide Sorted, OfSeverity, At, DistinctKeys;
    SortedAt(ds, i);
    SortedAt(ds, j);
    var a, b := |OfSeverity(ds, Info)|, |OfSeverity(ds, Warning)|;
    match Sorted(ds)[i].severity
    case Info => SeverityInOrder(ds, Info, i, j);
    case Warning => SeverityInOrder(ds, Warning, i - a, j - a);
    case Critical => SeverityInOrder(ds, Critical, i - a - b, j - a - b);
  }

  lemma SortedKeepsDistinct(ds: seq<Diagnostic>)
    requires DistinctKeys(ds)
    ensures DistinctKeys(Sorted(ds))
  {
    var r := Sorted(ds);
    forall i, j | 0 <= i < j < |r|
      ensures r[i].Key() != r[j].Key()
    {
      if r[i].severity == r[j].severity {
        SortedIsStable(ds, i, j);
      } else {
        assert r[i] in ds && r[j] in ds;
      }
    }
  }

  // ---------------------------------------------------------------- the capped list

  function Excess(ds: seq<Diagnostic>): nat {
    if |ds| > MAX_DIAGNOSTICS then |ds| - MAX_DIAGNOSTICS else 0
  }

  /** The list cut down to its capacity. */
  function Capped(ds: seq<Diagnostic>): seq<Diagnostic> {
    SortedPermutes(ds);
    if |ds| > MAX_DIAGNOSTICS then Sorted(ds)[Excess(ds)..] else ds
  }

  /** What is cut off. */
  function Evicted(ds: seq<Diagnostic>): seq<Diagnostic> {
    SortedPermutes(ds);
    if |ds| > MAX_DIAGNOSTICS then Sorted(ds)[..Excess(ds)] else []
  }

  class DiagnosticList {
    var diags: seq<Diagnostic>

    constructor ()
      ensures diags == []
    {
      diags := [];
    }

    method UpsertDiagnostics(news: seq<Diagnostic>)
      modifies this
      ensures diags == Capped(Merge(old(diags), news, Replaced))
    {
      for i := 0 to |news|
        invariant diags == Merge(old(diags), news[..i], Replaced)
      {
        assert news[..i + 1][..i] == news[..i];
        var existing := Find(diags, news[i]);
        if existing.Some? {
          diags := diags[existing.value := news[i]];
        } else {
          diags := diags + [news[i]];
        }
      }
      assert news[..|news|] == news;
      if |diags| > MAX_DIAGNOSTICS {
        SortedPermutes(diags);
        diags := Sorted(diags);
        var excess := |diags| - MAX_DIAGNOSTICS;
        diags := diags[excess..];
      }
    }
  }

  /** Capping keeps the worst findings: what stays and what goes make up the list; at most the capacity stays,
      and all of it when there is no excess; nothing that stays is less severe than anything that goes; and of
      equal severity the earlier positions go. */
  lemma CapKeepsWorst(ds: seq<Diagnostic>)
    requires DistinctKeys(ds)
    ensures multiset(Capped(ds)) + multiset(Evicted(ds)) == multiset(ds)
    ensures |Capped(ds)| == if |ds| <= 200 then |ds| else 200
    ensures |ds| <= 200 ==> Capped(ds) == ds
    ensures DistinctKeys(Capped(ds))
    ensures forall e, k | e in Evicted(ds) && k in Capped(ds) ::
              && (e.severity == Critical ==> k.severity == Critical)
              && (e.severity == Warning ==> k.severity != Info)
              && (e.severity == k.severity ==> At(ds, e) < At(ds, k))
  {
    hide Sorted, At, First, DistinctKeys;
    SortedPermutes(ds);
    SortedKeepsDistinct(ds);
    if |ds| > MAX_DIAGNOSTICS {
      CutInTwo(Sorted(ds), Excess(ds));
      forall e, k | e in Evicted(ds) && k in Capped(ds)
        ensures e.severity == Critical ==> k.severity == Critical
        ensures e.severity == Warning ==> k.severity != Info
        ensures e.severity == k.severity ==> At(ds, e) < At(ds, k)
      {
        EvictedIsBelow(ds, Excess(ds), e, k);
        RankOrders(e.severity, k.severity);
      }
    }
  }

  lemma CutInTwo(r: seq<Diagnostic>, n: nat)
    requires n <= |r| && DistinctKeys(r)
    ensures multiset(r[n..]) + multiset(r[..n]) == multiset(r)
    ensures DistinctKeys(r[n..])
  {
    assert r == r[..n] + r[n..];
  }

  lemma EvictedIsBelow(ds: seq<Diagnostic>, n: nat, e: Diagnostic, k: Diagnostic)
    requires DistinctKeys(ds) && n <= |Sorted(ds)| && e in Sorted(ds)[..n] && k in Sorted(ds)[n..]
    ensures e.severity.Rank() <= k.severity.Rank()
    ensures e.severity == k.severity ==> At(ds, e) < At(ds, k)
  {
    hide Sorted, At, DistinctKeys;
    var r := Sorted(ds);
    var i :| 0 <= i < n && r[i] == e;
    var j :| n <= j < |r| && r[j] == k;
    SortedBySeverity(ds, i, j);
    if e.severity == k.severity {
      SortedIsStable(ds, i, j);
    }
  }

  /** One call on a list with distinct keys: before the cap, every finding of the batch and every old finding
      without a newer one is there once, the last of its key winning; the cap then keeps the worst. */
  lemma UpsertExactly(diags: seq<Diagnostic>, news: seq<Diagnostic>, key: Key)
    requires DistinctKeys(diags)
    ensures var all := Merge(diags, news, Replaced);
            && DistinctKeys(all) && DistinctKeys(Capped(all)) && |Capped(all)| <= 200
            && (Has(all, key) <==> Has(diags, key) || Has(news, key))
            && (Has(all, key) ==>
                  all[First(all, key).value]
                  == if Has(news, key) then news[Last(news, key).value] else diags[First(diags, key).value])
  {
    hide First, Last;
    var all := Merge(diags, news, Replaced);
    ReplacedTakesUp();
    MergeExactly(diags, news, Replaced);
    CapKeepsWorst(all);
    if Has(all, key) {
      var i := First(all, key).value;
      assert EntryIs(diags, news, Replaced, all, i);
      if i < |diags| {
        OnlyPosition(diags, i);
      }
    }
  }

  function AfterBatches(batches: seq<seq<Diagnostic>>): seq<Diagnostic> {
    if batches == [] then []
    else Capped(Merge(AfterBatches(batches[..|batches| - 1]), batches[|batches| - 1], Replaced))
  }

  /** Over every run of batches the list has distinct keys and never exceeds its capacity. */
  lemma {:induction false} RunStaysCapped(batches: seq<seq<Diagnostic>>)
    ensures DistinctKeys(AfterBatches(batches)) && |AfterBatches(batches)| <= 200
  {
    if batches != [] {
      var n := |batches| - 1;
      RunStaysCapped(batches[..n]);
      ReplacedTakesUp();
      MergeExactly(AfterBatches(batches[..n]), batches[n], Replaced);
      CapKeepsWorst(Merge(AfterBatches(batches[..n]), batches[n], Replaced));
    }
  }
}
