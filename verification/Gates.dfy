/** The post-deploy gates: health, smoke test, metric analysis, in that order. */
module Gates {
  import opened Rollout

  datatype Gate = HealthGate | SmokeGate | AnalysisGate
  datatype Status = Pass | Fail | Skipped | NotRun
  datatype GateResult = GateResult(gate: Gate, status: Status, detail: string)

  datatype GateSet = GateSet(health: bool, smoke: Option<Smoke>, analysis: Option<Analysis>)

  datatype HealthState = Healthy | Degraded | Unhealthy | UnknownHealth
  datatype HealthAnswer = NoTarget(error: string) | HealthError(error: string) | Verdict(state: HealthState, reason: string)
  datatype SmokeAnswer = SmokeError(error: string) | Exit(code: int)
  datatype AnalysisAnswer = NoAnalysis(error: string) | AnalysisFailed(reason: string) | AnalysisPassed(measurements: nat)

  /** What the target, the smoke runner and the metrics backend answer when asked. */
  datatype Oracle = Oracle(health: HealthAnswer, smoke: Smoke -> SmokeAnswer, analysis: Analysis -> AnalysisAnswer)

  function GatesFromConfig(healthCheck: bool, auto: bool, smoke: Option<Smoke>, analysis: Option<Analysis>, metrics: bool): GateSet {
    GateSet(healthCheck || auto, smoke, if metrics then analysis else None)
  }

  /** The manual paths read the captured descriptors and fail closed on one they cannot read. */
  function GatesFromRollout(row: Row, metrics: bool): Option<GateSet> {
    if row.settings.smoke.Unreadable? || (metrics && row.settings.analysis.Unreadable?) then None
    else
      Some(GateSet(true,
                   if row.settings.smoke.Held? then Some(row.settings.smoke.value) else None,
                   if metrics && row.settings.analysis.Held? then Some(row.settings.analysis.value) else None))
  }

  predicate Enabled(gs: GateSet, g: Gate) {
    match g
    case HealthGate => gs.health
    case SmokeGate => gs.smoke.Some? && gs.smoke.value.command != []
    case AnalysisGate => gs.analysis.Some?
  }

  function StateName(s: HealthState): string {
    match s
    case Healthy => "healthy"
    case Degraded => "degraded"
    case Unhealthy => "unhealthy"
    case UnknownHealth => "unknown"
  }

  /** Run one enabled gate. A degraded or unknown target passes; only an unhealthy one fails. */
  function Answer(gs: GateSet, g: Gate, o: Oracle): (r: GateResult)
    requires Enabled(gs, g)
    ensures r.gate == g && (r.status == Pass || r.status == Fail)
    ensures r.status == Fail ==> r.detail != ""
  {
    match g
    case HealthGate =>
      (match o.health
       case NoTarget(e) => GateResult(g, Fail, "health gate unavailable: " + e)
       case HealthError(e) => GateResult(g, Fail, "health check failed: " + e)
       case Verdict(Unhealthy, reason) =>
         GateResult(g, Fail, if reason != "" then "health check failed: " + reason else "health check failed")
       case Verdict(state, _) => GateResult(g, Pass, StateName(state)))
    case SmokeGate =>
      (match o.smoke(gs.smoke.value)
       case SmokeError(e) => GateResult(g, Fail, "smoke test error: " + e)
       case Exit(code) =>
         if code != gs.smoke.value.expectExit then GateResult(g, Fail, "smoke test exit") else GateResult(g, Pass, ""))
    case AnalysisGate =>
      (match o.analysis(gs.analysis.value)
       case NoAnalysis(e) => GateResult(g, Fail, "analysis: " + e)
       case AnalysisFailed(reason) => GateResult(g, Fail, "analysis failed: " + reason)
       case AnalysisPassed(n) => GateResult(g, Pass, "analysis passed"))
  }

  function Outcome(gs: GateSet, g: Gate, failed: bool, o: Oracle): GateResult {
    if failed then GateResult(g, NotRun, "")
    else if !Enabled(gs, g) then GateResult(g, Skipped, "not configured")
    else Answer(gs, g, o)
  }

  const ORDER := [HealthGate, SmokeGate, AnalysisGate]

  function RunGatesSpec(gs: GateSet, o: Oracle): seq<GateResult> {
    var h := Outcome(gs, HealthGate, false, o);
    var s := Outcome(gs, SmokeGate, h.status == Fail, o);
    var a := Outcome(gs, AnalysisGate, h.status == Fail || s.status == Fail, o);
    [h, s, a]
  }

  function FirstFailure(gates: seq<GateResult>): string {
    if gates == [] then "" else if gates[0].status == Fail then gates[0].detail else FirstFailure(gates[1..])
  }

  /** The runner: gates it never reaches are reported as not run. */
  method RunGates(gs: GateSet, o: Oracle) returns (out: seq<GateResult>)
    ensures out == RunGatesSpec(gs, o)
  {
    out := [];
    var failed := false;
    while |out| < |ORDER|
      invariant |out| <= |ORDER|
      invariant out <= RunGatesSpec(gs, o)
      invariant failed == ((|out| > 0 && out[0].status == Fail) || (|out| > 1 && out[1].status == Fail)
                           || (|out| > 2 && out[2].status == Fail))
    {
      var g := ORDER[|out|];
      ghost var was := out;
      if failed {
        out := out + [GateResult(g, NotRun, "")];
      } else if !Enabled(gs, g) {
        out := out + [GateResult(g, Skipped, "not configured")];
      } else {
        var res := Answer(gs, g, o);
        out := out + [res];
        failed := res.status == Fail;
      }
      assert |was| == 0 || |was| == 1 || |was| == 2;
    }
  }

  // ---------- what passing means ----------

  /** The target could be asked and is not unhealthy; a degraded or unknown one is let through. */
  predicate HealthPasses(o: Oracle) {
    o.health.Verdict? && o.health.state != Unhealthy
  }

  /** The smoke test ran and exited as expected; one without a command asks nothing. */
  predicate SmokePasses(smoke: Option<Smoke>, o: Oracle) {
    smoke.Some? && smoke.value.command != [] ==> o.smoke(smoke.value) == Exit(smoke.value.expectExit)
  }

  predicate AnalysisPasses(analysis: Option<Analysis>, o: Oracle) {
    analysis.Some? ==> o.analysis(analysis.value).AnalysisPassed?
  }

  /** What is asked of the outside passes, gate by gate. */
  predicate AllPass(gs: GateSet, o: Oracle) {
    (gs.health ==> HealthPasses(o)) && SmokePasses(gs.smoke, o) && AnalysisPasses(gs.analysis, o)
  }

  // The gate g of the set, if it is enabled, passes.
  predicate Lets(gs: GateSet, g: Gate, o: Oracle) {
    match g
    case HealthGate => gs.health ==> HealthPasses(o)
    case SmokeGate => SmokePasses(gs.smoke, o)
    case AnalysisGate => AnalysisPasses(gs.analysis, o)
  }

  lemma AnswerPasses(gs: GateSet, g: Gate, o: Oracle)
    ensures Lets(gs, g, o) <==> (Enabled(gs, g) ==> Answer(gs, g, o).status == Pass)
  {
  }

  /** No failing gate hides behind an empty detail, so an empty first failure means that what every enabled gate asks passes. */
  lemma NoFailureMeansAllPass(gs: GateSet, o: Oracle)
    ensures FirstFailure(RunGatesSpec(gs, o)) == "" <==> AllPass(gs, o)
  {
    var h := Outcome(gs, HealthGate, false, o);
    var s := Outcome(gs, SmokeGate, h.status == Fail, o);
    var a := Outcome(gs, AnalysisGate, h.status == Fail || s.status == Fail, o);
    assert [h, s, a][1..] == [s, a] && [s, a][1..] == [a] && [a][1..] == [];
    assert FirstFailure([a]) == if a.status == Fail then a.detail else FirstFailure([]);
    assert FirstFailure([s, a]) == if s.status == Fail then s.detail else FirstFailure([a]);
    assert FirstFailure([h, s, a]) == "" <==> h.status != Fail && s.status != Fail && a.status != Fail;
    AnswerPasses(gs, HealthGate, o);
    AnswerPasses(gs, SmokeGate, o);
    AnswerPasses(gs, AnalysisGate, o);
  }

  /**
   * The report names the three gates in order. Up to the first gate that does not let the rollout
   * through each is passed or, when it is not enabled, skipped; that gate failed; the rest was not run.
   */
  lemma ReportIsExact(gs: GateSet, o: Oracle, k: nat)
    requires k < 3
    ensures |RunGatesSpec(gs, o)| == 3 && RunGatesSpec(gs, o)[k].gate == ORDER[k]
    ensures RunGatesSpec(gs, o)[k].status ==
            if exists j :: 0 <= j < k && !Lets(gs, ORDER[j], o) then NotRun
            else if !Lets(gs, ORDER[k], o) then Fail
            else if Enabled(gs, ORDER[k]) then Pass
            else Skipped
  {
    assert ORDER[0] == HealthGate && ORDER[1] == SmokeGate && ORDER[2] == AnalysisGate;
    AnswerPasses(gs, HealthGate, o);
    AnswerPasses(gs, SmokeGate, o);
    AnswerPasses(gs, AnalysisGate, o);
    assert k == 0 || k == 1 || k == 2;
    assert k > 0 && !Lets(gs, ORDER[0], o) ==> exists j :: 0 <= j < k && !Lets(gs, ORDER[j], o);
    assert k > 1 && !Lets(gs, ORDER[1], o) ==> exists j :: 0 <= j < k && !Lets(gs, ORDER[j], o);
  }
}
