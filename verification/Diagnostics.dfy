/** Findings shared by the analysis engine, the terminal list and the output pipeline
    (crates/aether-core/src/models.rs). Instants are whole nanoseconds of the monotonic clock. */
module Diagnostics {
  import opened Results

  datatype DiagTarget =
    | Process(pid: nat, name: string)
    | Host(host: string)
    | Container(id: string, name: string)
    | Disk(mount: string)
    | Network(interface: string)

  datatype Severity = Info | Warning | Critical
  {
    /** Position in the derived order. */
    function Rank(): (r: nat)
      ensures r < 3
    {
      match this
      case Info => 0
      case Warning => 1
      case Critical => 2
    }
  }

  /** Info is below Warning, and Warning below Critical. */
  lemma RankOrders(a: Severity, b: Severity)
    ensures Info.Rank() < Warning.Rank() < Critical.Rank()
    ensures a.Rank() <= b.Rank() <==> a == Info || (a == Warning && b != Info) || (a == Critical && b == Critical)
  {
  }

  datatype DiagCategory =
    | MemoryLeak | MemoryPressure | CpuSaturation | CpuSpike | DiskPressure | DiskIoHeavy | FdExhaustion
    | ConnectionSurge | ZombieAccumulation | ThreadExplosion | CrashLoop | ConfigMismatch | CapacityRisk
    | CorrelatedAnomaly | ScriptRule | ThroughputDrop | LatencyHigh | ErrorRateHigh | HealthCheckFailed
    | CertificateExpiry | NetworkDegradation

  datatype Evidence =
    Evidence(metric: string, current: real, threshold: real, trend: Option<real>, context: string)

  datatype RecommendedAction =
    | ScaleUp(resource: string, before: string, after: string)
    | Restart(reason: string)
    | RaiseLimits(limitName: string, before: string, after: string)
    | ReduceLoad(suggestion: string)
    | Investigate(what: string)
    | KillProcess(pid: nat, reason: string)
    | NoAction(reason: string)

  datatype Urgency = Immediate | Soon | Planning | Informational

  datatype Recommendation =
    Recommendation(action: RecommendedAction, reason: string, urgency: Urgency, autoExecutable: bool)

  datatype Diagnostic = Diagnostic(
    id: nat, host: string, target: DiagTarget, severity: Severity, category: DiagCategory, summary: string,
    evidence: seq<Evidence>, recommendation: Recommendation, detectedAt: int, resolvedAt: Option<int>)
  {
    /** What makes two findings the same issue. */
    function Key(): (DiagTarget, DiagCategory) {
      (target, category)
    }
  }

  lemma KeyTellsBoth(d: Diagnostic, target: DiagTarget, category: DiagCategory)
    ensures d.Key() == (target, category) <==> d.target == target && d.category == category
  {
  }
}
