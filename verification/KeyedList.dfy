/** Lists of findings with at most one entry per (target, category) key, into which batches are merged. The
    analysis engine and the terminal list differ only in how an entry takes up a newer one with its key. */
module KeyedList {
  import opened Results
  import opened Diagnostics

  type Key = (DiagTarget, DiagCategory)

  /** What becomes of an entry when a newer one with its key arrives. */
  type Take = (Diagnostic, Diagnostic) -> Diagnostic

  ghost predicate DistinctKeys(ds: seq<Diagnostic>) {
    forall i, j | 0 <= i < j < |ds| :: ds[i].Key() != ds[j].Key()
  }

  /** First position with the key. */
  function First(ds: seq<Diagnostic>, key: Key): (r: Option<nat>)
    ensures r.Some? ==> r.value < |ds| && ds[r.value].Key() == key
    ensures r.Some? ==> forall i | 0 <= i < r.value :: ds[i].Key() != key
    ensures r.None? ==> forall i | 0 <= i < |ds| :: ds[i].Key() != key
  {
    if ds == [] then None
    else
      var before := First(ds[..|ds| - 1], key);
      if before.Some? then before
      else if ds[|ds| - 1].Key() == key then Some(|ds| - 1)
      else None
  }

  /** Last position with the key. */
  function Last(ds: seq<Diagnostic>, key: Key): (r: Option<nat>)
    ensures r.Some? ==> r.value < |ds| && ds[r.value].Key() == key
    ensures r.Some? ==> forall i | r.value < i < |ds| :: ds[i].Key() != key
    ensures r.None? <==> First(ds, key).None?
  {
    if ds == [] then None
    else if ds[|ds| - 1].Key() == key then Some(|ds| - 1)
    else Last(ds[..|ds| - 1], key)
  }

  predicate Has(ds: seq<Diagnostic>, key: Key) {
    First(ds, key).Some?
  }

  /** The search both merges start with. */
  method Find(ds: seq<Diagnostic>, d: Diagnostic) returns (r: Option<nat>)
    ensures r == First(ds, d.Key())
  {
    for i := 0 to |ds|
      invariant First(ds[..i], d.Key()) == None
    {
      assert ds[..i + 1][..i] == ds[..i];
      if ds[i].target == d.target && ds[i].category == d.category {
        FirstIs(ds, d.Key(), i);
        return Some(i);
      }
    }
    assert ds[..|ds|] == ds;
    return None;
  }

  lemma FirstIs(ds: seq<Diagnostic>, key: Key, k: nat)
    requires k < |ds| && ds[k].Key() == key && forall i | 0 <= i < k :: ds[i].Key() != key
    ensures First(ds, key) == Some(k)
  {
  }

  /** How an entry takes up a newer one with the same key: its key stays, and only the newest counts. */
  ghost predicate TakesUp(take: Take) {
    && (forall a: Diagnostic, b: Diagnostic | a.Key() == b.Key() :: take(a, b).Key() == a.Key())
    && (forall a: Diagnostic, b: Diagnostic, c: Diagnostic | a.Key() == b.Key() == c.Key() ::
          take(take(a, b), c) == take(a, c))
    && (forall a: Diagnostic :: take(a, a) == a)
  }

  function MergeOne(list: seq<Diagnostic>, d: Diagnostic, take: Take): seq<Diagnostic> {
    var at := First(list, d.Key());
    if at.Some? then list[at.value := take(list[at.value], d)] else list + [d]
  }

  function Merge(list: seq<Diagnostic>, news: seq<Diagnostic>, take: Take): seq<Diagnostic> {
    if news == [] then list else MergeOne(Merge(list, news[..|news| - 1], take), news[|news| - 1], take)
  }

  /** What entry `i` of the merged list must be, told without the merge: an old entry keeps its place and takes
      up the last new one of its key; a newcomer is the first new one of its key, having taken up the last. */
  ghost predicate EntryIs(list: seq<Diagnostic>, news: seq<Diagnostic>, take: Take,
                          merged: seq<Diagnostic>, i: nat)
    requires |list| <= |merged| && i < |merged|
  {
    if i < |list| then
      var last := Last(news, list[i].Key());
      merged[i] == if last.Some? then take(list[i], news[last.value]) else list[i]
    else
      var key := merged[i].Key();
      var first, last := First(news, key), Last(news, key);
      !Has(list, key) && first.Some? && merged[i] == take(news[first.value], news[last.value])
  }

  ghost predicate IsMerge(list: seq<Diagnostic>, news: seq<Diagnostic>, take: Take,
                          merged: seq<Diagnostic>)
  {
    && |list| <= |merged| && DistinctKeys(merged)
    && (forall key :: Has(merged, key) <==> Has(list, key) || Has(news, key))
    && (forall i: nat | i < |merged| :: EntryIs(list, news, take, merged, i))
    && (forall i, j | |list| <= i < j < |merged| :: NewBefore(news, merged[i].Key(), merged[j].Key()))
  }

  /** The first key turns up before the second. */
  ghost predicate NewBefore(news: seq<Diagnostic>, a: Key, b: Key) {
    First(news, a).Some? && First(news, b).Some? && First(news, a).value < First(news, b).value
  }

  /** Position of a key once one entry is appended. */
  lemma Snoc(ds: seq<Diagnostic>, d: Diagnostic, key: Key)
    ensures Last(ds + [d], key) == if d.Key() == key then Some(|ds|) else Last(ds, key)
    ensures First(ds + [d], key) == if First(ds, key).Some? then First(ds, key)
                                    else if d.Key() == key then Some(|ds|) else None
  {
    assert (ds + [d])[..|ds|] == ds;
  }

  lemma OnlyPosition(ds: seq<Diagnostic>, i: nat)
    requires DistinctKeys(ds) && i < |ds|
    ensures First(ds, ds[i].Key()) == Some(i)
  {
    FirstIs(ds, ds[i].Key(), i);
  }

  lemma MergeOneKeys(merged: seq<Diagnostic>, d: Diagnostic, take: Take)
    requires TakesUp(take) && DistinctKeys(merged)
    ensures var r := MergeOne(merged, d, take);
            && |merged| <= |r|
            && (forall i | 0 <= i < |merged| :: r[i].Key() == merged[i].Key())
            && (forall key :: First(r, key) == if First(merged, key).None? && key == d.Key() then Some(|merged|)
                                               else First(merged, key))
            && DistinctKeys(r)
  {
    var r := MergeOne(merged, d, take);
    forall key
      ensures First(r, key) == if First(merged, key).None? && key == d.Key() then Some(|merged|) else First(merged, key)
    {
      if First(merged, d.Key()).None? {
        Snoc(merged, d, key);
      } else if First(merged, key).Some? {
        FirstIs(r, key, First(merged, key).value);
      }
    }
  }

  lemma StepEntry(list: seq<Diagnostic>, news: seq<Diagnostic>, take: Take,
                  merged: seq<Diagnostic>, d: Diagnostic, i: nat)
    requires TakesUp(take) && IsMerge(list, news, take, merged)
    requires i < |MergeOne(merged, d, take)|
    ensures EntryIs(list, news + [d], take, MergeOne(merged, d, take), i)
  {
    hide First, Last;
    var r := MergeOne(merged, d, take);
    MergeOneKeys(merged, d, take);
    if i < |merged| {
      var key := merged[i].Key();
      assert EntryIs(list, news, take, merged, i);
      OnlyPosition(merged, i);
      Snoc(news, d, key);
    } else {
      Snoc(news, d, d.Key());
    }
  }

  /** One more new entry, on the list as merged so far. */
  lemma MergeStep(list: seq<Diagnostic>, news: seq<Diagnostic>, take: Take,
                  merged: seq<Diagnostic>, d: Diagnostic)
    requires TakesUp(take) && IsMerge(list, news, take, merged)
    ensures IsMerge(list, news + [d], take, MergeOne(merged, d, take))
  {
    hide First, Last, TakesUp, EntryIs, DistinctKeys;
    var r := MergeOne(merged, d, take);
    MergeOneKeys(merged, d, take);
    forall key: Key
      ensures Has(r, key) <==> Has(list, key) || Has(news + [d], key)
    {
      Snoc(news, d, key);
      assert Has(merged, key) <==> Has(list, key) || Has(news, key);
    }
    forall i: nat | i < |r|
      ensures EntryIs(list, news + [d], take, r, i)
    {
      StepEntry(list, news, take, merged, d, i);
    }
    forall i, j | |list| <= i < j < |r|
      ensures NewBefore(news + [d], r[i].Key(), r[j].Key())
    {
      StepOrder(list, news, take, merged, d, i, j);
    }
  }

  lemma StepOrder(list: seq<Diagnostic>, news: seq<Diagnostic>, take: Take,
                  merged: seq<Diagnostic>, d: Diagnostic, i: nat, j: nat)
    requires TakesUp(take) && IsMerge(list, news, take, merged)
    requires |list| <= i < j < |MergeOne(merged, d, take)|
    ensures var r := MergeOne(merged, d, take); NewBefore(news + [d], r[i].Key(), r[j].Key())
  {
    hide First, Last, TakesUp;
    var r := MergeOne(merged, d, take);
    MergeOneKeys(merged, d, take);
    Snoc(news, d, r[i].Key());
    Snoc(news, d, r[j].Key());
    assert EntryIs(list, news, take, merged, i);
    if j < |merged| {
      assert NewBefore(news, merged[i].Key(), merged[j].Key());
    } else {
      assert Has(merged, d.Key()) <==> Has(list, d.Key()) || Has(news, d.Key());
    }
  }

  /** The whole merge, told entry by entry: on a list with distinct keys the loop yields exactly the old entries
      in place, each with the last news of its key, followed by the new keys in order of first appearance. */
  lemma {:induction false} MergeExactly(list: seq<Diagnostic>, news: seq<Diagnostic>,
                                        take: Take)
    requires TakesUp(take) && DistinctKeys(list)
    ensures IsMerge(list, news, take, Merge(list, news, take))
  {
    if news == [] {
    } else {
      var n := |news| - 1;
      MergeExactly(list, news[..n], take);
      MergeStep(list, news[..n], take, Merge(list, news[..n], take), news[n]);
      assert news == news[..n] + [news[n]];
    }
  }
}
