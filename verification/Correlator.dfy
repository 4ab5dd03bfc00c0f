/** Grouping of findings that likely share a cause (crates/aether-analyze/src/analyzers/correlator.rs):
    three greedy passes over the list, each taking only what the passes before left over. */
module Correlator {
  import opened Results
  import opened Clocks
  import opened Diagnostics

  const TIME_WINDOW: int := 60 * SECOND
  const MIN_CONFIDENCE: real := 0.3

  /** The root causes the patterns name; the wording is not modelled. */
  datatype KnownCause =
    | ConnectionPoolSaturation | ServiceFailure | GarbageCollectionPauses | CpuThrashing | HeavyDiskIo
    | RunawayThreads | DescriptorExhaustion | UpstreamDegradation | DiskFullCrashes

  datatype Cause = Pattern(cause: KnownCause) | MultipleIssues(target: DiagTarget)

  /** `members` are positions in the list of findings. */
  datatype Group = Group(members: seq<nat>, rootCause: Option<Cause>, confidence: real)
  {
    predicate Causal() {
      rootCause.Some? && rootCause.value.Pattern?
    }
  }

  /** The two passes that gather every later finding matching the first one. */
  datatype Pass = Compound | Temporal

  /** The list walk so far: which findings are taken, and the groups found. */
  datatype Progress = Progress(used: seq<bool>, groups: seq<Group>)

  predicate WithinTimeWindow(a: Diagnostic, b: Diagnostic) {
    var gap := if a.detectedAt >= b.detectedAt then a.detectedAt - b.detectedAt else b.detectedAt - a.detectedAt;
    gap <= TIME_WINDOW
  }

  // ---------------------------------------------------------------- causal patterns

  /** Cause, effect and root cause of every known pattern. */
  const CAUSAL_PATTERNS: seq<(DiagCategory, DiagCategory, KnownCause)> := [
    (ConnectionSurge, ThroughputDrop, ConnectionPoolSaturation),
    (HealthCheckFailed, ErrorRateHigh, ServiceFailure),
    (MemoryLeak, LatencyHigh, GarbageCollectionPauses),
    (MemoryPressure, CpuSaturation, CpuThrashing),
    (DiskIoHeavy, LatencyHigh, HeavyDiskIo),
    (ThreadExplosion, CpuSaturation, RunawayThreads),
    (FdExhaustion, ConnectionSurge, DescriptorExhaustion),
    (NetworkDegradation, ErrorRateHigh, UpstreamDegradation),
    (DiskPressure, CrashLoop, DiskFullCrashes)
  ]

  predicate Joins(k: nat, a: DiagCategory, b: DiagCategory)
    requires k < |CAUSAL_PATTERNS|
  {
    var (x, y, _) := CAUSAL_PATTERNS[k];
    (a == x && b == y) || (a == y && b == x)
  }

  /** First table entry from `k` on that joins the two categories. */
  function PatternFrom(k: nat, a: DiagCategory, b: DiagCategory): Option<KnownCause>
    requires k <= |CAUSAL_PATTERNS|
    decreases |CAUSAL_PATTERNS| - k
  {
    if k == |CAUSAL_PATTERNS| then None
    else if Joins(k, a, b) then Some(CAUSAL_PATTERNS[k].2)
    else PatternFrom(k + 1, a, b)
  }

  /** There is none exactly when no entry joins them, and otherwise it is some entry's cause. */
  lemma {:induction false} PatternFromExactly(k: nat, a: DiagCategory, b: DiagCategory)
    requires k <= |CAUSAL_PATTERNS|
    ensures PatternFrom(k, a, b).None? <==> forall i | k <= i < |CAUSAL_PATTERNS| :: !Joins(i, a, b)
    ensures PatternFrom(k, a, b).Some? ==>
              exists i | k <= i < |CAUSAL_PATTERNS| :: Joins(i, a, b) && PatternFrom(k, a, b).value == CAUSAL_PATTERNS[i].2
    decreases |CAUSAL_PATTERNS| - k
  {
    hide Joins;
    if k < |CAUSAL_PATTERNS| && !Joins(k, a, b) {
      PatternFromExactly(k + 1, a, b);
    }
  }

  function CausalPattern(a: Diagnostic, b: Diagnostic): Option<KnownCause> {
    if WithinTimeWindow(a, b) then PatternFrom(0, a.category, b.category) else None
  }

  method FindCausalPattern(a: Diagnostic, b: Diagnostic) returns (r: Option<KnownCause>)
    ensures r == CausalPattern(a, b)
  {
    hide WithinTimeWindow, CAUSAL_PATTERNS;
    if !WithinTimeWindow(a, b) {
      return None;
    }
    for k := 0 to |CAUSAL_PATTERNS|
      invariant PatternFrom(0, a.category, b.category) == PatternFrom(k, a.category, b.category)
    {
      var (x, y, cause) := CAUSAL_PATTERNS[k];
      if (a.category == x && b.category == y) || (a.category == y && b.category == x) {
        return Some(cause);
      }
    }
    return None;
  }

  /** The patterns, cause before effect. */
  function Known(cause: DiagCategory, effect: DiagCategory): Option<KnownCause> {
    match (cause, effect)
    case (ConnectionSurge, ThroughputDrop) => Some(ConnectionPoolSaturation)
    case (HealthCheckFailed, ErrorRateHigh) => Some(ServiceFailure)
    case (MemoryLeak, LatencyHigh) => Some(GarbageCollectionPauses)
    case (MemoryPressure, CpuSaturation) => Some(CpuThrashing)
    case (DiskIoHeavy, LatencyHigh) => Some(HeavyDiskIo)
    case (ThreadExplosion, CpuSaturation) => Some(RunawayThreads)
    case (FdExhaustion, ConnectionSurge) => Some(DescriptorExhaustion)
    case (NetworkDegradation, ErrorRateHigh) => Some(UpstreamDegradation)
    case (DiskPressure, CrashLoop) => Some(DiskFullCrashes)
    case _ => None
  }

  /** Two findings are joined exactly when they lie at most 60 seconds apart and one is the known cause of the other; no
      two patterns compete. */
  lemma PatternsExactly(a: Diagnostic, b: Diagnostic)
    ensures CausalPattern(a, b)
            == if -60_000_000_000 <= a.detectedAt - b.detectedAt <= 60_000_000_000 then
                 if Known(a.category, b.category).Some? then Known(a.category, b.category)
                 else Known(b.category, a.category)
               else None
  {
    TableExactly(a.category, b.category);
    hide PatternFrom;
  }

  lemma TableExactly(a: DiagCategory, b: DiagCategory)
    ensures PatternFrom(0, a, b) == if Known(a, b).Some? then Known(a, b) else Known(b, a)
  {
    hide *;
    PatternFromExactly(0, a, b);
    if PatternFrom(0, a, b).Some? {
      var i: nat :| i < |CAUSAL_PATTERNS| && Joins(i, a, b) && PatternFrom(0, a, b).value == CAUSAL_PATTERNS[i].2;
      EntryIsKnown(i, a, b);
    } else {
      KnownIsEntry(a, b);
      KnownIsEntry(b, a);
    }
  }

  lemma EntryIsKnown(k: nat, a: DiagCategory, b: DiagCategory)
    requires k < |CAUSAL_PATTERNS| && Joins(k, a, b)
    ensures (if Known(a, b).Some? then Known(a, b) else Known(b, a)) == Some(CAUSAL_PATTERNS[k].2)
  {
    var (x, y, cause) := CAUSAL_PATTERNS[k];
    EntryHere(k);
    NotBothWays(x, y);
    hide Known, CAUSAL_PATTERNS;
  }

  lemma EntryHere(k: nat)
    requires k < |CAUSAL_PATTERNS|
    ensures Known(CAUSAL_PATTERNS[k].0, CAUSAL_PATTERNS[k].1) == Some(CAUSAL_PATTERNS[k].2)
  {
    assert k in {0, 1, 2, 3, 4, 5, 6, 7, 8};
  }

  lemma NotBothWays(a: DiagCategory, b: DiagCategory)
    ensures Known(a, b).Some? ==> Known(b, a).None?
  {
  }

  lemma KnownIsEntry(a: DiagCategory, b: DiagCategory)
    ensures Known(a, b).Some? ==> exists i: nat :: i < |CAUSAL_PATTERNS| && Joins(i, a, b) && Joins(i, b, a)
  {
    if Known(a, b).Some? {
      var i := match (a, b)
        case (ConnectionSurge, _) => 0
        case (HealthCheckFailed, _) => 1
        case (MemoryLeak, _) => 2
        case (MemoryPressure, _) => 3
        case (DiskIoHeavy, _) => 4
        case (ThreadExplosion, _) => 5
        case (FdExhaustion, _) => 6
        case (NetworkDegradation, _) => 7
        case _ => 8;
      assert Joins(i, a, b) && Joins(i, b, a);
    }
  }

  // ---------------------------------------------------------------- the three passes

  predicate Matches(pass: Pass, a: Diagnostic, b: Diagnostic) {
    match pass
    case Compound => a.target == b.target && a.category != b.category && WithinTimeWindow(a, b)
    case Temporal => WithinTimeWindow(a, b)
  }

  /** The window is 60 seconds either way; two findings make a compound issue if within it they tell of different
      trouble with one target. */
  lemma MatchesExactly(a: Diagnostic, b: Diagnostic)
    ensures WithinTimeWindow(a, b) <==> -60_000_000_000 <= a.detectedAt - b.detectedAt <= 60_000_000_000
    ensures Matches(Temporal, a, b) <==> WithinTimeWindow(a, b)
    ensures Matches(Compound, a, b) <==> WithinTimeWindow(a, b) && a.target == b.target && a.category != b.category
  {
  }

  function GroupOf(pass: Pass, first: Diagnostic, members: seq<nat>): Group {
    match pass
    case Compound => Group(members, Some(MultipleIssues(first.target)), 0.7)
    case Temporal => Group(members, None, 0.4)
  }

  /** Pairs `i` with each later free finding below `m` that a pattern joins to it. */
  function CausalRow(d: seq<Diagnostic>, p: Progress, i: nat, m: nat): (r: Progress)
    requires |p.used| == |d| && i < m <= |d|
    ensures |r.used| == |d|
  {
    if m == i + 1 then p
    else
      var q := CausalRow(d, p, i, m - 1);
      if q.used[m - 1] then q
      else match CausalPattern(d[i], d[m - 1])
        case None => q
        case Some(cause) =>
          Progress(q.used[i := true][m - 1 := true], q.groups + [Group([i, m - 1], Some(Pattern(cause)), 0.9)])
  }

  function CausalPass(d: seq<Diagnostic>, n: nat): (r: Progress)
    requires n <= |d|
    ensures |r.used| == |d|
  {
    if n == 0 then Progress(seq(|d|, _ => false), [])
    else
      var q := CausalPass(d, n - 1);
      if q.used[n - 1] then q else CausalRow(d, q, n - 1, |d|)
  }

  /** `i` followed by the later free findings below `m` that match it. */
  function Gathered(d: seq<Diagnostic>, pass: Pass, used: seq<bool>, i: nat, m: nat): (r: seq<nat>)
    requires |used| == |d| && i < m <= |d|
    ensures r != [] && r[0] == i
    ensures forall x | x in r :: i <= x < m
  {
    if m == i + 1 then [i]
    else
      var before := Gathered(d, pass, used, i, m - 1);
      if !used[m - 1] && Matches(pass, d[i], d[m - 1]) then before + [m - 1] else before
  }

  /** `r` is strictly increasing and holds exactly `i` and the later free findings below `m` that match it. */
  ghost predicate IsGathered(d: seq<Diagnostic>, pass: Pass, used: seq<bool>, i: nat, m: nat, r: seq<nat>)
    requires |used| == |d| && i < m <= |d|
  {
    && (forall x: nat :: x in r <==> x == i || (i < x < m && !used[x] && Matches(pass, d[i], d[x])))
    && (forall a, b | 0 <= a < b < |r| :: r[a] < r[b])
  }

  lemma {:induction false} Ascending(before: seq<nat>, k: nat)
    requires (forall x | x in before :: x < k) && forall a, b | 0 <= a < b < |before| :: before[a] < before[b]
    ensures forall a, b | 0 <= a < b < |before + [k]| :: (before + [k])[a] < (before + [k])[b]
  {
    forall a, b | 0 <= a < b < |before + [k]|
      ensures (before + [k])[a] < (before + [k])[b]
    {
      if b == |before| {
        assert before[a] in before;
      }
    }
  }

  lemma {:induction false} GatheredExactly(d: seq<Diagnostic>, pass: Pass, used: seq<bool>, i: nat, m: nat)
    requires |used| == |d| && i < m <= |d|
    ensures IsGathered(d, pass, used, i, m, Gathered(d, pass, used, i, m))
  {
    hide Matches, IsGathered;
    if m == i + 1 {
      GatheredStart(d, pass, used, i);
    } else {
      GatheredExactly(d, pass, used, i, m - 1);
      GatheredNext(d, pass, used, i, m, Gathered(d, pass, used, i, m - 1));
    }
  }

  lemma {:induction false} GatheredStart(d: seq<Diagnostic>, pass: Pass, used: seq<bool>, i: nat)
    requires |used| == |d| && i < |d|
    ensures IsGathered(d, pass, used, i, i + 1, [i])
  {
    hide Matches;
  }

  lemma {:induction false} GatheredNext(
      d: seq<Diagnostic>, pass: Pass, used: seq<bool>, i: nat, m: nat, before: seq<nat>)
    requires |used| == |d| && i + 1 < m <= |d| && IsGathered(d, pass, used, i, m - 1, before)
    ensures IsGathered(d, pass, used, i, m,
                       if !used[m - 1] && Matches(pass, d[i], d[m - 1]) then before + [m - 1] else before)
  {
    hide Matches;
    if !used[m - 1] && Matches(pass, d[i], d[m - 1]) {
      Ascending(before, m - 1);
    }
  }

  function Marked(used: seq<bool>, members: seq<nat>): (r: seq<bool>)
    ensures |r| == |used|
  {
    seq(|used|, k requires 0 <= k < |used| => used[k] || k in members)
  }

  function GatherPass(d: seq<Diagnostic>, pass: Pass, p: Progress, n: nat): (r: Progress)
    requires |p.used| == |d| && n <= |d|
    ensures |r.used| == |d|
  {
    if n == 0 then p
    else
      var q := GatherPass(d, pass, p, n - 1);
      if q.used[n - 1] then q
      else
        var members := Gathered(d, pass, q.used, n - 1, |d|);
        if |members| >= 2 then Progress(Marked(q.used, members), q.groups + [GroupOf(pass, d[n - 1], members)]) else q
  }

  function Confident(groups: seq<Group>): seq<Group> {
    if groups == [] then []
    else
      var rest := Confident(groups[..|groups| - 1]);
      if groups[|groups| - 1].confidence >= MIN_CONFIDENCE then rest + [groups[|groups| - 1]] else rest
  }

  function Passes(d: seq<Diagnostic>): (r: Progress)
    ensures |r.used| == |d|
  {
    GatherPass(d, Temporal, GatherPass(d, Compound, CausalPass(d, |d|), |d|), |d|)
  }

  // ---------------------------------------------------------------- the code

  method Correlate(diagnostics: seq<Diagnostic>) returns (groups: seq<Group>)
    ensures groups == Passes(diagnostics).groups
  {
    if |diagnostics| < 2 {
      FewFindings(diagnostics);
      return [];
    }
    var used;
    used, groups := CorrelateCauses(diagnostics);
    used, groups := Gather(diagnostics, Compound, used, groups);
    used, groups := Gather(diagnostics, Temporal, used, groups);
    AllConfident(diagnostics);
    groups := RetainConfident(groups);
  }

  method CorrelateCauses(d: seq<Diagnostic>) returns (used: seq<bool>, groups: seq<Group>)
    ensures Progress(used, groups) == CausalPass(d, |d|)
  {
    hide CausalPattern;
    used := seq(|d|, _ => false);
    groups := [];
    for i := 0 to |d|
      invariant Progress(used, groups) == CausalPass(d, i)
    {
      if used[i] {
        continue;
      }
      for j := i + 1 to |d|
        invariant Progress(used, groups) == CausalRow(d, CausalPass(d, i), i, j)
      {
        if used[j] {
          continue;
        }
        var pattern := FindCausalPattern(d[i], d[j]);
        if pattern.Some? {
          groups := groups + [Group([i, j], Some(Pattern(pattern.value)), 0.9)];
          used := used[i := true];
          used := used[j := true];
        }
      }
    }
  }

  /** The compound and the temporal pass differ only in what matches and in the label. */
  method Gather(d: seq<Diagnostic>, pass: Pass, used0: seq<bool>, groups0: seq<Group>)
    returns (used: seq<bool>, groups: seq<Group>)
    requires |used0| == |d|
    ensures Progress(used, groups) == GatherPass(d, pass, Progress(used0, groups0), |d|)
  {
    used, groups := used0, groups0;
    for i := 0 to |d|
      invariant Progress(used, groups) == GatherPass(d, pass, Progress(used0, groups0), i)
    {
      if used[i] {
        continue;
      }
      var members := [i];
      for j := i + 1 to |d|
        invariant members == Gathered(d, pass, used, i, j)
      {
        if used[j] {
          continue;
        }
        if Matches(pass, d[i], d[j]) {
          members := members + [j];
        }
      }
      if |members| >= 2 {
        used := MarkAll(used, members);
        groups := groups + [GroupOf(pass, d[i], members)];
      }
    }
  }

  method MarkAll(used0: seq<bool>, members: seq<nat>) returns (used: seq<bool>)
    requires forall x | x in members :: x < |used0|
    ensures used == Marked(used0, members)
  {
    used := used0;
    for k := 0 to |members|
      invariant used == Marked(used0, members[..k])
    {
      assert members[k] in members;
      used := used[members[k] := true];
    }
    assert members[..|members|] == members;
  }

  method RetainConfident(groups: seq<Group>) returns (kept: seq<Group>)
    ensures kept == Confident(groups)
  {
    kept := [];
    for i := 0 to |groups|
      invariant kept == Confident(groups[..i])
    {
      assert groups[..i + 1][..i] == groups[..i];
      if groups[i].confidence >= MIN_CONFIDENCE {
        kept := kept + [groups[i]];
      }
    }
    assert groups[..|groups|] == groups;
  }

  // ---------------------------------------------------------------- what every pass keeps

  /** At least two strictly increasing positions in range, all within the time window of the first, and a
      root cause and confidence that fit. */
  ghost predicate WellFormed(d: seq<Diagnostic>, g: Group) {
    && |g.members| >= 2
    && (forall a, b | 0 <= a < b < |g.members| :: g.members[a] < g.members[b])
    && (forall a | 0 <= a < |g.members| :: g.members[a] < |d| && WithinTimeWindow(d[g.members[0]], d[g.members[a]]))
    && match g.rootCause
       case None => g.confidence == 0.4
       case Some(Pattern(s)) =>
         g.confidence == 0.9 && |g.members| == 2 && CausalPattern(d[g.members[0]], d[g.members[1]]) == Some(s)
       case Some(MultipleIssues(target)) =>
         && g.confidence == 0.7
         && (forall a | 0 <= a < |g.members| :: d[g.members[a]].target == target)
         && (forall a | 0 < a < |g.members| :: d[g.members[a]].category != d[g.members[0]].category)
  }

  /** Two groups share nothing, or both are causal and share only the position that comes first in both. */
  ghost predicate Apart(g: Group, h: Group) {
    forall x | x in g.members && x in h.members :: g.Causal() && h.Causal() && x == g.members[0] == h.members[0]
  }

  ghost predicate InSome(groups: seq<Group>, x: nat) {
    exists k :: 0 <= k < |groups| && x in groups[k].members
  }

  ghost predicate Sound(d: seq<Diagnostic>, p: Progress) {
    && |p.used| == |d|
    && (forall k | 0 <= k < |p.groups| :: WellFormed(d, p.groups[k]) && p.groups[k].members != [])
    && (forall k, l | 0 <= k < l < |p.groups| :: Apart(p.groups[k], p.groups[l]))
    && (forall x: nat | x < |d| :: p.used[x] <==> InSome(p.groups, x))
  }

  /** Of any two findings a pattern joins, the earlier among the first `n`, one is taken. */
  ghost predicate CausesTaken(d: seq<Diagnostic>, used: seq<bool>, n: nat) {
    |used| == |d| && forall i: nat, j: nat | i < n && i < j < |d| && CausalPattern(d[i], d[j]).Some? :: used[i] || used[j]
  }

  ghost predicate RowTaken(d: seq<Diagnostic>, used: seq<bool>, i: nat, m: nat) {
    |used| == |d| && i < m <= |d| && forall j: nat | i < j < m && CausalPattern(d[i], d[j]).Some? :: used[j]
  }

  lemma CausesTakenNext(d: seq<Diagnostic>, before: seq<bool>, after: seq<bool>, n: nat)
    requires n < |d| && CausesTaken(d, before, n) && Grows(before, after)
    requires after[n] || RowTaken(d, after, n, |d|)
    ensures CausesTaken(d, after, n + 1)
  {
    hide CausalPattern;
  }

  lemma MatchesTakenNext(d: seq<Diagnostic>, pass: Pass, before: seq<bool>, after: seq<bool>, n: nat)
    requires n < |d| && MatchesTaken(d, pass, before, n) && Grows(before, after)
    requires after[n] || forall j: nat | n < j < |d| && Matches(pass, d[n], d[j]) :: after[j]
    ensures MatchesTaken(d, pass, after, n + 1)
  {
    hide Matches;
  }

  /** Of any two matching findings, the earlier among the first `n`, one is taken. */
  ghost predicate MatchesTaken(d: seq<Diagnostic>, pass: Pass, used: seq<bool>, n: nat) {
    |used| == |d| && forall i: nat, j: nat | i < n && i < j < |d| && Matches(pass, d[i], d[j]) :: used[i] || used[j]
  }

  ghost predicate Grows(before: seq<bool>, after: seq<bool>) {
    |before| == |after| && forall x | 0 <= x < |before| && before[x] :: after[x]
  }

  lemma InSomeSnoc(groups: seq<Group>, g: Group, x: nat)
    ensures InSome(groups + [g], x) <==> InSome(groups, x) || x in g.members
  {
    var all := groups + [g];
    if InSome(groups, x) {
      var k :| 0 <= k < |groups| && x in groups[k].members;
      assert all[k] == groups[k];
    }
    if x in g.members {
      assert all[|groups|] == g;
    }
  }

  /** Adding a well-formed group that is apart from all others and marking its members keeps soundness. */
  lemma AddGroup(d: seq<Diagnostic>, q: Progress, g: Group, used: seq<bool>)
    requires Sound(d, q) && WellFormed(d, g) && |used| == |d|
    requires forall k | 0 <= k < |q.groups| :: Apart(q.groups[k], g)
    requires forall x: nat | x < |d| :: used[x] <==> q.used[x] || x in g.members
    ensures Sound(d, Progress(used, q.groups + [g]))
  {
    assert g.members != [];
    hide WellFormed, Apart, InSome;
    forall x: nat | x < |d|
      ensures used[x] <==> InSome(q.groups + [g], x)
    {
      InSomeSnoc(q.groups, g, x);
    }
  }

  /** Only causal pairs that start at `i` contain `i`. */
  ghost predicate OnlyStarts(groups: seq<Group>, i: nat) {
    forall k | 0 <= k < |groups| && i in groups[k].members :: groups[k].Causal() && groups[k].members[0] == i
  }

  ghost predicate AllCausal(groups: seq<Group>) {
    forall k | 0 <= k < |groups| :: groups[k].Causal()
  }

  lemma FreeIsNowhere(d: seq<Diagnostic>, q: Progress, x: nat, k: nat)
    requires Sound(d, q) && x < |d| && !q.used[x] && k < |q.groups|
    ensures x !in q.groups[k].members
  {
    hide WellFormed, Apart;
    assert !InSome(q.groups, x);
  }

  lemma AddPair(d: seq<Diagnostic>, q: Progress, i: nat, j: nat, s: KnownCause)
    requires Sound(d, q) && i < j < |d| && !q.used[j] && OnlyStarts(q.groups, i)
    requires CausalPattern(d[i], d[j]) == Some(s)
    ensures var r := Progress(q.used[i := true][j := true], q.groups + [Group([i, j], Some(Pattern(s)), 0.9)]);
            Sound(d, r) && OnlyStarts(r.groups, i)
  {
    hide InSome, PatternFrom;
    var g := Group([i, j], Some(Pattern(s)), 0.9);
    forall k | 0 <= k < |q.groups|
      ensures Apart(q.groups[k], g)
    {
      FreeIsNowhere(d, q, j, k);
    }
    AddGroup(d, q, g, q.used[i := true][j := true]);
  }

  lemma {:induction false} CausalRowSound(d: seq<Diagnostic>, p: Progress, i: nat, m: nat)
    requires |p.used| == |d| && Sound(d, p) && AllCausal(p.groups) && i < m <= |d| && !p.used[i]
    ensures var r := CausalRow(d, p, i, m);
            && Sound(d, r) && AllCausal(r.groups) && OnlyStarts(r.groups, i)
            && Grows(p.used, r.used) && RowTaken(d, r.used, i, m)
  {
    hide Sound, OnlyStarts, CausalPattern;
    if m == i + 1 {
      FreeMeansNoStart(d, p, i);
    } else {
      CausalRowSound(d, p, i, m - 1);
      var q := CausalRow(d, p, i, m - 1);
      var pattern := CausalPattern(d[i], d[m - 1]);
      if !q.used[m - 1] && pattern.Some? {
        AddPair(d, q, i, m - 1, pattern.value);
      }
    }
  }

  lemma FreeMeansNoStart(d: seq<Diagnostic>, p: Progress, i: nat)
    requires Sound(d, p) && i < |d| && !p.used[i]
    ensures OnlyStarts(p.groups, i)
  {
    forall k: nat | k < |p.groups|
      ensures i !in p.groups[k].members
    {
      FreeIsNowhere(d, p, i, k);
    }
  }

  lemma EmptySound(d: seq<Diagnostic>)
    ensures var r := CausalPass(d, 0);
            Sound(d, r) && AllCausal(r.groups) && CausesTaken(d, r.used, 0)
  {
    hide CausalPattern;
  }

  lemma {:induction false} CausalPassSound(d: seq<Diagnostic>, n: nat)
    requires n <= |d|
    ensures var r := CausalPass(d, n);
            Sound(d, r) && AllCausal(r.groups) && CausesTaken(d, r.used, n)
  {
    hide CausalPattern, CausalRow, Sound, AllCausal, CausesTaken, RowTaken;
    if n == 0 {
      EmptySound(d);
    } else {
      CausalPassSound(d, n - 1);
      var q := CausalPass(d, n - 1);
      if !q.used[n - 1] {
        CausalRowSound(d, q, n - 1, |d|);
      }
      CausesTakenNext(d, q.used, CausalPass(d, n).used, n - 1);
    }
  }

  ghost predicate OfPass(pass: Pass, g: Group) {
    match pass
    case Compound => g.rootCause.Some? && g.rootCause.value.MultipleIssues?
    case Temporal => g.rootCause.None?
  }

  /** A gathered group took everything after its first member that matches and was not taken before it. */
  ghost predicate Complete(d: seq<Diagnostic>, pass: Pass, groups: seq<Group>, k: nat)
    requires k < |groups|
  {
    forall x: nat | x < |d| && groups[k].members != [] && groups[k].members[0] < x
                    && Matches(pass, d[groups[k].members[0]], d[x]) ::
      InSome(groups[..k + 1], x)
  }

  lemma GatheredFits(d: seq<Diagnostic>, pass: Pass, used: seq<bool>, i: nat)
    requires |used| == |d| && i < |d|
    requires |Gathered(d, pass, used, i, |d|)| >= 2
    ensures WellFormed(d, GroupOf(pass, d[i], Gathered(d, pass, used, i, |d|)))
  {
    var members := Gathered(d, pass, used, i, |d|);
    GatheredExactly(d, pass, used, i, |d|);
    hide Gathered;
    forall a | 0 <= a < |members|
      ensures members[a] < |d| && WithinTimeWindow(d[i], d[members[a]])
      ensures a > 0 ==> Matches(pass, d[i], d[members[a]])
    {
      assert members[a] in members;
    }
  }

  lemma AddGathered(d: seq<Diagnostic>, pass: Pass, q: Progress, i: nat)
    requires |q.used| == |d| && Sound(d, q) && i < |d| && !q.used[i]
    requires |Gathered(d, pass, q.used, i, |d|)| >= 2
    ensures var members := Gathered(d, pass, q.used, i, |d|);
            var r := Progress(Marked(q.used, members), q.groups + [GroupOf(pass, d[i], members)]);
            Sound(d, r) && Complete(d, pass, r.groups, |q.groups|)
  {
    var members := Gathered(d, pass, q.used, i, |d|);
    var g := GroupOf(pass, d[i], members);
    GatheredExactly(d, pass, q.used, i, |d|);
    GatheredFits(d, pass, q.used, i);
    hide InSome, WellFormed, Matches;
    forall k: nat | k < |q.groups|
      ensures Apart(q.groups[k], g)
    {
      forall x | x in members
        ensures x !in q.groups[k].members
      {
        FreeIsNowhere(d, q, x, k);
      }
    }
    hide Apart;
    AddGroup(d, q, g, Marked(q.used, members));
    var all := q.groups + [g];
    assert all[..|q.groups| + 1] == all;
    forall x: nat | i < x < |d| && Matches(pass, d[i], d[x])
      ensures InSome(all, x)
    {
      InSomeSnoc(q.groups, g, x);
    }
  }

  /** Groups from position `k0` on are of this pass, and complete. */
  ghost predicate AllComplete(d: seq<Diagnostic>, pass: Pass, groups: seq<Group>, k0: nat) {
    forall k: nat | k0 <= k < |groups| :: OfPass(pass, groups[k]) && Complete(d, pass, groups, k)
  }

  lemma AllCompleteSnoc(d: seq<Diagnostic>, pass: Pass, groups: seq<Group>, g: Group, k0: nat)
    requires AllComplete(d, pass, groups, k0) && OfPass(pass, g) && Complete(d, pass, groups + [g], |groups|)
    ensures AllComplete(d, pass, groups + [g], k0)
  {
    var all := groups + [g];
    forall k: nat | k0 <= k < |all|
      ensures OfPass(pass, all[k]) && Complete(d, pass, all, k)
    {
      if k < |groups| {
        assert all[k] == groups[k] && all[..k + 1] == groups[..k + 1];
        assert Complete(d, pass, groups, k);
      }
    }
  }

  lemma {:induction false} GatherPassSound(d: seq<Diagnostic>, pass: Pass, p: Progress, n: nat)
    requires |p.used| == |d| && Sound(d, p) && n <= |d|
    ensures var r := GatherPass(d, pass, p, n);
            && Sound(d, r) && p.groups <= r.groups && Grows(p.used, r.used)
            && MatchesTaken(d, pass, r.used, n) && AllComplete(d, pass, r.groups, |p.groups|)
  {
    hide Sound, Matches, Complete, AllComplete, Gathered;
    if n == 0 {
      NoneToComplete(d, pass, p.groups);
    } else {
      hide MatchesTaken;
      GatherPassSound(d, pass, p, n - 1);
      var q, r := GatherPass(d, pass, p, n - 1), GatherPass(d, pass, p, n);
      if !q.used[n - 1] {
        var members := Gathered(d, pass, q.used, n - 1, |d|);
        GatheredExactly(d, pass, q.used, n - 1, |d|);
        if |members| >= 2 {
          AddGathered(d, pass, q, n - 1);
          AllCompleteSnoc(d, pass, q.groups, GroupOf(pass, d[n - 1], members), |p.groups|);
          assert r.used[n - 1];
        } else {
          LoneGatherer(members, n - 1);
        }
      }
      MatchesTakenNext(d, pass, q.used, r.used, n - 1);
    }
  }

  lemma NoneToComplete(d: seq<Diagnostic>, pass: Pass, groups: seq<Group>)
    ensures AllComplete(d, pass, groups, |groups|)
  {
  }

  lemma LoneGatherer(members: seq<nat>, i: nat)
    requires |members| < 2 && i in members
    ensures forall x | x in members :: x == i
  {
  }

  // ---------------------------------------------------------------- main results

  /** Every group is well formed; two groups never share a finding, save for causal pairs that start at the
      same one. A finding counts as taken exactly when it is in some group. */
  lemma GroupsAreSound(d: seq<Diagnostic>)
    ensures Sound(d, Passes(d))
  {
    hide Sound;
    CausalPassSound(d, |d|);
    var p := CausalPass(d, |d|);
    GatherPassSound(d, Compound, p, |d|);
    GatherPassSound(d, Temporal, GatherPass(d, Compound, p, |d|), |d|);
  }

  /** Maximality: two findings left in no group lie more than the time window apart. */
  lemma UngroupedAreFarApart(d: seq<Diagnostic>, i: nat, j: nat)
    requires i < |d| && j < |d| && i != j
    requires !InSome(Passes(d).groups, i) && !InSome(Passes(d).groups, j)
    ensures d[i].detectedAt - d[j].detectedAt > 60_000_000_000 || d[j].detectedAt - d[i].detectedAt > 60_000_000_000
  {
    hide WellFormed, Apart, InSome;
    GroupsAreSound(d);
    CausalPassSound(d, |d|);
    var p := CausalPass(d, |d|);
    GatherPassSound(d, Compound, p, |d|);
    GatherPassSound(d, Temporal, GatherPass(d, Compound, p, |d|), |d|);
    assert !Passes(d).used[i] && !Passes(d).used[j];
    FarApart(d, Passes(d).used, i, j);
  }

  lemma FarApart(d: seq<Diagnostic>, used: seq<bool>, i: nat, j: nat)
    requires MatchesTaken(d, Temporal, used, |d|) && i < |d| && j < |d| && i != j && !used[i] && !used[j]
    ensures !WithinTimeWindow(d[i], d[j])
  {
    var (a, b) := if i < j then (i, j) else (j, i);
    assert !Matches(Temporal, d[a], d[b]);
  }

  /** The groups come in three runs: causal pairs, then compound, then temporal ones. Any two findings a pattern
      joins have one of them in a causal pair; any two with one target, different categories and close times
      have one of them in a causal or compound group; and each gathered group took all it could. */
  lemma PassesAreMaximal(d: seq<Diagnostic>) returns (c: nat, t: nat)
    ensures var groups := Passes(d).groups;
            && c <= t <= |groups|
            && AllCausal(groups[..c])
            && AllComplete(d, Compound, groups[..t], c)
            && AllComplete(d, Temporal, groups, t)
            && (forall i: nat, j: nat | i < j < |d| && CausalPattern(d[i], d[j]).Some? ::
                  InSome(groups[..c], i) || InSome(groups[..c], j))
            && (forall i: nat, j: nat
                  | i < j < |d| && d[i].target == d[j].target && d[i].category != d[j].category
                    && -60_000_000_000 <= d[i].detectedAt - d[j].detectedAt <= 60_000_000_000 ::
                  InSome(groups[..t], i) || InSome(groups[..t], j))
  {
    hide WellFormed, Apart, InSome, CausalPattern, Matches, CausalPass, GatherPass, AllComplete;
    var p := CausalPass(d, |d|);
    CausalPassSound(d, |d|);
    var q := GatherPass(d, Compound, p, |d|);
    GatherPassSound(d, Compound, p, |d|);
    GatherPassSound(d, Temporal, q, |d|);
    var groups := Passes(d).groups;
    c, t := |p.groups|, |q.groups|;
    assert groups[..c] == p.groups && groups[..t] == q.groups;
    forall i: nat, j: nat
      | i < j < |d| && d[i].target == d[j].target && d[i].category != d[j].category
        && -60_000_000_000 <= d[i].detectedAt - d[j].detectedAt <= 60_000_000_000
      ensures InSome(groups[..t], i) || InSome(groups[..t], j)
    {
      MatchesExactly(d[i], d[j]);
    }
  }

  /** The confidence filter at the end never removes anything. */
  lemma AllConfident(d: seq<Diagnostic>)
    ensures Confident(Passes(d).groups) == Passes(d).groups
  {
    GroupsAreSound(d);
    ConfidentKeeps(Passes(d).groups);
  }

  lemma {:induction false} ConfidentKeeps(groups: seq<Group>)
    requires forall k | 0 <= k < |groups| :: groups[k].confidence >= MIN_CONFIDENCE
    ensures Confident(groups) == groups
  {
    if groups != [] {
      ConfidentKeeps(groups[..|groups| - 1]);
    }
  }

  /** The early return for fewer than two findings agrees with the passes. */
  lemma FewFindings(d: seq<Diagnostic>)
    requires |d| < 2
    ensures Passes(d).groups == []
  {
    GroupsAreSound(d);
    if Passes(d).groups != [] {
      TwoFindings(d, Passes(d).groups[0]);
    }
  }

  lemma TwoFindings(d: seq<Diagnostic>, g: Group)
    requires WellFormed(d, g)
    ensures |d| >= 2
  {
    assert g.members[1] in g.members && g.members[0] < g.members[1];
  }

  lemma JoinsEitherWay(k: nat, a: DiagCategory, b: DiagCategory)
    requires k < |CAUSAL_PATTERNS|
    ensures Joins(k, a, b) <==> Joins(k, b, a)
  {
  }

  /** A pattern joins two findings whichever comes first. */
  lemma {:induction false} PatternIsSymmetric(a: DiagCategory, b: DiagCategory, k: nat)
    requires k <= |CAUSAL_PATTERNS|
    ensures PatternFrom(k, a, b) == PatternFrom(k, b, a)
    decreases |CAUSAL_PATTERNS| - k
  {
    hide Joins;
    if k < |CAUSAL_PATTERNS| {
      PatternIsSymmetric(a, b, k + 1);
      JoinsEitherWay(k, a, b);
    }
  }

  /** Which of two findings is listed first does not matter to the patterns. */
  lemma CauseIsSymmetric(a: Diagnostic, b: Diagnostic)
    ensures CausalPattern(a, b) == CausalPattern(b, a)
  {
    PatternIsSymmetric(a.category, b.category, 0);
    hide PatternFrom;
  }

  // ---------------------------------------------------------------- when causal pairs overlap

  /** When the causal pass reaches `i`, both findings are still free and a pattern joins them. */
  predicate Paired(d: seq<Diagnostic>, i: nat, j: nat) {
    && i < j < |d| && !CausalPass(d, i).used[i] && !CausalPass(d, i).used[j]
    && CausalPattern(d[i], d[j]).Some?
  }

  predicate IsPair(d: seq<Diagnostic>, g: Group) {
    |g.members| == 2 && Paired(d, g.members[0], g.members[1])
  }

  ghost predicate HasPair(groups: seq<Group>, i: nat, j: nat) {
    exists k :: 0 <= k < |groups| && groups[k].members == [i, j]
  }

  lemma {:induction false} HasPairSnoc(groups: seq<Group>, g: Group, i: nat, j: nat)
    ensures HasPair(groups, i, j) || g.members == [i, j] ==> HasPair(groups + [g], i, j)
  {
    var all := groups + [g];
    if HasPair(groups, i, j) {
      var k :| 0 <= k < |groups| && groups[k].members == [i, j];
      assert all[k].members == [i, j];
    } else {
      assert all[|groups|] == g;
    }
  }

  /** A row adds exactly the pairs of `i`. */
  lemma {:induction false} RowPairs(d: seq<Diagnostic>, i: nat, m: nat)
    requires i < m <= |d| && !CausalPass(d, i).used[i]
    ensures var p, r := CausalPass(d, i), CausalRow(d, CausalPass(d, i), i, m);
            && p.groups <= r.groups
            && (forall k | |p.groups| <= k < |r.groups| :: IsPair(d, r.groups[k]) && r.groups[k].members[0] == i)
            && (forall j: nat | i < j < m && Paired(d, i, j) :: HasPair(r.groups, i, j))
            && (forall j | m <= j < |d| :: r.used[j] == p.used[j])
  {
    hide CausalPass, CausalPattern, HasPair;
    if m > i + 1 {
      RowPairs(d, i, m - 1);
      var q := CausalRow(d, CausalPass(d, i), i, m - 1);
      var pattern := CausalPattern(d[i], d[m - 1]);
      if !q.used[m - 1] && pattern.Some? {
        var g := Group([i, m - 1], Some(Pattern(pattern.value)), 0.9);
        forall j: nat | i < j < m && Paired(d, i, j)
          ensures HasPair(q.groups + [g], i, j)
        {
          HasPairSnoc(q.groups, g, i, j);
        }
      }
    }
  }

  lemma {:induction false} HasPairGrows(before: seq<Group>, after: seq<Group>, i: nat, j: nat)
    requires before <= after && HasPair(before, i, j)
    ensures HasPair(after, i, j)
  {
    var k :| 0 <= k < |before| && before[k].members == [i, j];
    assert after[k].members == [i, j];
  }

  ghost predicate OnlyPairs(d: seq<Diagnostic>, groups: seq<Group>) {
    forall k | 0 <= k < |groups| :: IsPair(d, groups[k])
  }

  ghost predicate RowMade(d: seq<Diagnostic>, groups: seq<Group>, i: nat) {
    forall j: nat | Paired(d, i, j) :: HasPair(groups, i, j)
  }

  lemma {:induction false} RowMadeGrows(d: seq<Diagnostic>, before: seq<Group>, after: seq<Group>, i: nat)
    requires before <= after && RowMade(d, before, i)
    ensures RowMade(d, after, i)
  {
    hide Paired, HasPair;
    forall j: nat | Paired(d, i, j)
      ensures HasPair(after, i, j)
    {
      HasPairGrows(before, after, i, j);
    }
  }

  /** The `n`-th step of the causal pass adds the pairs of `n` and nothing else. */
  lemma {:induction false} PassStep(d: seq<Diagnostic>, n: nat)
    requires n < |d| && OnlyPairs(d, CausalPass(d, n).groups)
    ensures var q, r := CausalPass(d, n), CausalPass(d, n + 1);
            q.groups <= r.groups && OnlyPairs(d, r.groups) && RowMade(d, r.groups, n)
  {
    hide CausalRow, CausalPattern, HasPair, IsPair;
    if !CausalPass(d, n).used[n] {
      RowPairs(d, n, |d|);
    }
  }

  lemma {:induction false} NoPairs(d: seq<Diagnostic>, groups: seq<Group>)
    requires groups == []
    ensures OnlyPairs(d, groups)
  {
  }

  /** The causal pass makes exactly the pairs. */
  lemma {:induction false} PassPairs(d: seq<Diagnostic>, n: nat)
    requires n <= |d|
    ensures OnlyPairs(d, CausalPass(d, n).groups)
    ensures forall i: nat | i < n :: RowMade(d, CausalPass(d, n).groups, i)
  {
    hide CausalRow, OnlyPairs, RowMade;
    if n == 0 {
      NoPairs(d, CausalPass(d, 0).groups);
    } else {
      hide CausalPass;
      PassPairs(d, n - 1);
      PassStep(d, n - 1);
      forall i: nat | i < n
        ensures RowMade(d, CausalPass(d, n).groups, i)
      {
        if i < n - 1 {
          RowMadeGrows(d, CausalPass(d, n - 1).groups, CausalPass(d, n).groups, i);
        }
      }
    }
  }

  ghost predicate Share(groups: seq<Group>, k: nat, l: nat) {
    k < l < |groups| && exists x :: x in groups[k].members && x in groups[l].members
  }

  /** A finding leads unless a pattern joins an earlier leader to it. */
  predicate Leads(d: seq<Diagnostic>, i: nat)
    requires i < |d|
    decreases i
  {
    !Claimed(d, i, i)
  }

  /** A leader before `n` is joined to finding `j`. */
  predicate Claimed(d: seq<Diagnostic>, n: nat, j: nat)
    requires n <= j < |d|
    decreases n, 0
  {
    exists l: nat :: l < n && Leads(d, l) && CausalPattern(d[l], d[j]).Some?
  }

  /** Leader `i` is joined to the later finding `j`, and no leader before it is. */
  predicate Claims(d: seq<Diagnostic>, i: nat, j: nat) {
    i < j < |d| && Leads(d, i) && !Claimed(d, i, j) && CausalPattern(d[i], d[j]).Some?
  }

  /** A row takes what was free and joined to its finding. */
  lemma {:induction false} RowUses(d: seq<Diagnostic>, p: Progress, i: nat, m: nat)
    requires |p.used| == |d| && i < m <= |d|
    ensures forall j | i < j < |d| ::
              CausalRow(d, p, i, m).used[j] <==> p.used[j] || (j < m && CausalPattern(d[i], d[j]).Some?)
  {
    hide CausalPattern;
    if m > i + 1 {
      RowUses(d, p, i, m - 1);
    }
  }

  lemma {:induction false} ClaimedNext(d: seq<Diagnostic>, n: nat, j: nat)
    requires n < j < |d|
    ensures Claimed(d, n + 1, j) <==> Claimed(d, n, j) || (Leads(d, n) && CausalPattern(d[n], d[j]).Some?)
  {
    hide CausalPattern, Leads;
    if Claimed(d, n, j) {
      var l: nat :| l < n && Leads(d, l) && CausalPattern(d[l], d[j]).Some?;
      assert l < n + 1;
    }
  }

  /** When the causal pass reaches `n`, a finding from there on is taken exactly when a leader claimed it. */
  lemma {:induction false} UsedIsClaimed(d: seq<Diagnostic>, n: nat, j: nat)
    requires n <= j < |d|
    ensures CausalPass(d, n).used[j] <==> Claimed(d, n, j)
  {
    hide Claimed, CausalPattern, CausalPass, Leads;
    if n == 0 {
      NothingClaimed(d, j);
    } else {
      UsedIsClaimed(d, n - 1, j);
      UsedIsClaimed(d, n - 1, n - 1);
      LeadsUnclaimed(d, n - 1);
      ClaimedNext(d, n - 1, j);
      UsedNext(d, n - 1, j);
    }
  }

  lemma NothingClaimed(d: seq<Diagnostic>, j: nat)
    requires j < |d|
    ensures !CausalPass(d, 0).used[j] && !Claimed(d, 0, j)
  {
    hide CausalPattern;
  }

  lemma LeadsUnclaimed(d: seq<Diagnostic>, i: nat)
    requires i < |d|
    ensures Leads(d, i) <==> !Claimed(d, i, i)
  {
    hide Claimed;
  }

  lemma UsedNext(d: seq<Diagnostic>, n: nat, j: nat)
    requires n < j < |d|
    ensures CausalPass(d, n + 1).used[j] <==>
              CausalPass(d, n).used[j] || (!CausalPass(d, n).used[n] && CausalPattern(d[n], d[j]).Some?)
  {
    hide CausalPattern, CausalRow;
    if !CausalPass(d, n).used[n] {
      RowUses(d, CausalPass(d, n), n, |d|);
    }
  }

  lemma {:induction false} PairedIsClaims(d: seq<Diagnostic>, i: nat, j: nat)
    ensures Paired(d, i, j) <==> Claims(d, i, j)
  {
    if i < j < |d| {
      UsedIsClaimed(d, i, i);
      UsedIsClaimed(d, i, j);
      hide CausalPass, CausalPattern, Claimed;
    }
  }

  /** Said of the findings alone: two groups share one if and only if some leader is joined by patterns to two later
      findings that no leader before it is joined to. */
  lemma {:induction false} GroupsOverlapExactly(d: seq<Diagnostic>)
    ensures (exists k: nat, l: nat :: Share(Passes(d).groups, k, l)) <==>
              exists i: nat, j: nat, j': nat :: j < j' && Claims(d, i, j) && Claims(d, i, j')
  {
    hide Paired, Claims, CausalPass, GatherPass;
    if k: nat, l: nat :| Share(Passes(d).groups, k, l) {
      var i, j, j' := SharingPairs(d, k, l);
      PairedIsClaims(d, i, j);
      PairedIsClaims(d, i, j');
    }
    if i: nat, j: nat, j': nat :| j < j' && Claims(d, i, j) && Claims(d, i, j') {
      PairedIsClaims(d, i, j);
      PairedIsClaims(d, i, j');
      PairsShare(d, i, j, j');
    }
  }

  lemma {:induction false} CausalOnes(d: seq<Diagnostic>)
    ensures CausalPass(d, |d|).groups <= Passes(d).groups
    ensures forall k | |CausalPass(d, |d|).groups| <= k < |Passes(d).groups| :: !Passes(d).groups[k].Causal()
  {
    hide Sound, CausalPass, GatherPass, Complete, MatchesTaken;
    var p := CausalPass(d, |d|);
    CausalPassSound(d, |d|);
    GatherPassSound(d, Compound, p, |d|);
    GatherPassSound(d, Temporal, GatherPass(d, Compound, p, |d|), |d|);
  }

  lemma {:induction false} SharingPairs(d: seq<Diagnostic>, k: nat, l: nat) returns (i: nat, j: nat, j': nat)
    requires Share(Passes(d).groups, k, l)
    ensures j < j' && Paired(d, i, j) && Paired(d, i, j')
  {
    hide Paired, CausalPass, GatherPass, WellFormed, InSome;
    var groups := Passes(d).groups;
    GroupsAreSound(d);
    CausalOnes(d);
    PassPairs(d, |d|);
    var x :| x in groups[k].members && x in groups[l].members;
    assert Apart(groups[k], groups[l]);
    var a, b := groups[k].members, groups[l].members;
    assert groups[k] == CausalPass(d, |d|).groups[k] && groups[l] == CausalPass(d, |d|).groups[l];
    assert IsPair(d, groups[k]) && IsPair(d, groups[l]);
    PairOrder(d, a[0], a[1]);
    assert a[1] in a && b[1] in b;
    i := x;
    j, j' := if a[1] < b[1] then a[1] else b[1], if a[1] < b[1] then b[1] else a[1];
  }

  lemma {:induction false} PairOrder(d: seq<Diagnostic>, i: nat, j: nat)
    requires Paired(d, i, j)
    ensures i < j < |d|
  {
  }

  lemma {:induction false} PairsShare(d: seq<Diagnostic>, i: nat, j: nat, j': nat)
    requires j < j' && Paired(d, i, j) && Paired(d, i, j')
    ensures exists k: nat, l: nat :: Share(Passes(d).groups, k, l)
  {
    PairOrder(d, i, j);
    hide Paired, CausalPass, GatherPass;
    CausalOnes(d);
    PassPairs(d, |d|);
    var p, groups := CausalPass(d, |d|).groups, Passes(d).groups;
    assert RowMade(d, p, i);
    assert HasPair(p, i, j) && HasPair(p, i, j');
    var k: nat :| k < |p| && p[k].members == [i, j];
    var l: nat :| l < |p| && p[l].members == [i, j'];
    assert groups[k] == p[k] && groups[l] == p[l];
    assert i in groups[k].members && i in groups[l].members;
    assert k != l by {
      assert [i, j][1] != [i, j'][1];
    }
    assert Share(groups, k, l) || Share(groups, l, k);
  }

  /** Three findings of which the first is joined to both others make two pairs that share it. */
  lemma {:induction false} PairsTwice(d: seq<Diagnostic>, s: KnownCause, s': KnownCause)
    requires |d| == 3 && CausalPattern(d[0], d[1]) == Some(s) && CausalPattern(d[0], d[2]) == Some(s')
    ensures Paired(d, 0, 1) && Paired(d, 0, 2)
    ensures Passes(d).groups == [Group([0, 1], Some(Pattern(s)), 0.9), Group([0, 2], Some(Pattern(s')), 0.9)]
  {
    hide CausalPattern;
    var p0 := CausalPass(d, 0);
    var r := CausalRow(d, p0, 0, 3);
    assert CausalRow(d, p0, 0, 1) == p0;
    assert CausalRow(d, p0, 0, 2).used == [true, true, false];
    assert r.used == [true, true, true];
    assert CausalPass(d, 1) == r;
    hide CausalRow;
    assert CausalPass(d, 2) == r;
    assert CausalPass(d, 3) == r;
    hide *;
    AllTaken(d, Compound, r, 3);
    AllTaken(d, Temporal, r, 3);
    PassesAre(d, r);
  }

  lemma {:induction false} PassesAre(d: seq<Diagnostic>, p: Progress)
    requires CausalPass(d, |d|) == p && GatherPass(d, Compound, p, |d|) == p && GatherPass(d, Temporal, p, |d|) == p
    ensures Passes(d) == p
  {
    hide CausalPass, GatherPass;
  }

  /** They do overlap: a latency finding beside a memory leak and heavy disk I/O, all at once, is paired with both. */
  lemma {:induction false} LatencyPairsTwice(d: seq<Diagnostic>)
    requires |d| == 3 && d[0].detectedAt == d[1].detectedAt == d[2].detectedAt
    requires d[0].category == LatencyHigh && d[1].category == MemoryLeak && d[2].category == DiskIoHeavy
    ensures Passes(d).groups == [Group([0, 1], Some(Pattern(GarbageCollectionPauses)), 0.9),
                                 Group([0, 2], Some(Pattern(HeavyDiskIo)), 0.9)]
  {
    JoinedAt(d[0], d[1], 2);
    JoinedAt(d[0], d[2], 4);
    hide CausalPass, GatherPass;
    PairsTwice(d, GarbageCollectionPauses, HeavyDiskIo);
  }

  lemma {:induction false} JoinedAt(a: Diagnostic, b: Diagnostic, k: nat)
    requires a.detectedAt == b.detectedAt && k < |CAUSAL_PATTERNS| && Joins(k, a.category, b.category)
    requires forall i | 0 <= i < k :: !Joins(i, a.category, b.category)
    ensures CausalPattern(a, b) == Some(CAUSAL_PATTERNS[k].2)
  {
    FirstJoin(a.category, b.category, k, k);
  }

  lemma {:induction false} FirstJoin(a: DiagCategory, b: DiagCategory, k: nat, n: nat)
    requires n <= k < |CAUSAL_PATTERNS| && Joins(k, a, b) && forall i | 0 <= i < k :: !Joins(i, a, b)
    ensures PatternFrom(k - n, a, b) == Some(CAUSAL_PATTERNS[k].2)
  {
    hide Joins;
    if n > 0 {
      FirstJoin(a, b, k, n - 1);
    }
  }

  /** A pass has nothing to do where everything is taken. */
  lemma {:induction false} AllTaken(d: seq<Diagnostic>, pass: Pass, p: Progress, n: nat)
    requires |p.used| == |d| && n <= |d| && forall x | 0 <= x < |d| :: p.used[x]
    ensures GatherPass(d, pass, p, n) == p
  {
    if n > 0 {
      AllTaken(d, pass, p, n - 1);
    }
  }
}
