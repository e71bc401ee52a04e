/** Who may promote a rollout, and on what evidence. */
module Promotion {
  import opened Rollout
  import opened Progressive
  import opened Gates
  import opened StepOps
  import opened Engine
  import opened Evolution
  import opened Runs

  /** The dry run: the same gates, no change. None when a captured descriptor cannot be read. */
  datatype Report = Report(ok: bool, reason: string, gates: seq<GateResult>)

  function Verify(row: Row, metrics: bool, o: Oracle): Option<Report> {
    match GatesFromRollout(row, metrics)
    case None => None
    case Some(gs) =>
      var gates := RunGatesSpec(gs, o);
      Some(Report(FirstFailure(gates) == "", FirstFailure(gates), gates))
  }

  /** The row's readable manual gates all pass. */
  predicate ManualPass(row: Row, metrics: bool, o: Oracle) {
    && !row.settings.smoke.Unreadable? && (metrics ==> !row.settings.analysis.Unreadable?)
    && HealthPasses(o)
    && (row.settings.smoke.Held? ==> SmokePasses(Some(row.settings.smoke.value), o))
    && (metrics && row.settings.analysis.Held? ==> AnalysisPasses(Some(row.settings.analysis.value), o))
  }

  /** What the config asks for passes; health is asked for by a health check or by automatic rollback. */
  predicate AutomaticPass(cfg: Config, metrics: bool, o: Oracle) {
    (cfg.healthCheck || cfg.auto ==> HealthPasses(o)) && SmokePasses(cfg.smoke, o) && (metrics ==> AnalysisPasses(cfg.analysis, o))
  }

  lemma AutomaticGates(cfg: Config, metrics: bool, o: Oracle)
    ensures var gs := GatesFromConfig(cfg.healthCheck, cfg.auto, cfg.smoke, cfg.analysis, metrics);
            AutomaticPass(cfg, metrics, o) <==> FirstFailure(RunGatesSpec(gs, o)) == ""
  {
    NoFailureMeansAllPass(GatesFromConfig(cfg.healthCheck, cfg.auto, cfg.smoke, cfg.analysis, metrics), o);
  }

  lemma ManualGates(row: Row, metrics: bool, o: Oracle)
    ensures ManualPass(row, metrics, o) <==>
            GatesFromRollout(row, metrics).Some? && FirstFailure(RunGatesSpec(GatesFromRollout(row, metrics).value, o)) == ""
  {
    if GatesFromRollout(row, metrics).Some? { NoFailureMeansAllPass(GatesFromRollout(row, metrics).value, o); }
  }

  /**
   * Verify says yes exactly when every enabled gate passes. An unforced promote writes exactly when
   * the row is verifying as well, and succeeds exactly when its post-promote migration does too.
   */
  lemma VerifyPredictsPromote(row: Row, metrics: bool, env: Env)
    ensures Verify(row, metrics, env.oracle).Some? && Verify(row, metrics, env.oracle).value.ok <==> ManualPass(row, metrics, env.oracle)
    ensures Promote(row, false, metrics, env).saves != [] <==> row.phase.Verifying? && ManualPass(row, metrics, env.oracle)
    ensures Promote(row, false, metrics, env).saves != [] ==> Promote(row, false, metrics, env).saves == [row.(phase := Promoted)]
    ensures Promote(row, false, metrics, env).ok <==>
              row.phase.Verifying? && ManualPass(row, metrics, env.oracle)
              && (row.settings.postPromote && row.settings.migrates ==> env.database)
  {
    ManualGates(row, metrics, env.oracle);
  }

  /** So a passing verify does not by itself mean that promote passes: the row may have left verifying, */
  lemma VerifyPassesWherePromoteRefuses(row: Row, metrics: bool, env: Env)
    requires ManualPass(row, metrics, env.oracle) && row.phase.Promoted?
    ensures Verify(row, metrics, env.oracle).value.ok && Promote(row, false, metrics, env) == REFUSED
  {
    VerifyPredictsPromote(row, metrics, env);
  }

  /** or it is promoted and promote reports the migration that failed. */
  lemma VerifyPassesWherePromoteFails(row: Row, metrics: bool, env: Env)
    requires ManualPass(row, metrics, env.oracle) && row.phase.Verifying?
    requires row.settings.postPromote && row.settings.migrates && !env.database
    ensures Verify(row, metrics, env.oracle).value.ok
    ensures var e := Promote(row, false, metrics, env); e.saves == [row.(phase := Promoted)] && !e.ok
  {
    VerifyPredictsPromote(row, metrics, env);
  }

  lemma AutomaticGate(row: Row, prior: Manifest, cfg: Config, metrics: bool, env: Env)
    ensures forall r <- VerifyOrRollback(row, prior, cfg, metrics, env).saves ::
              r.phase.Promoted? ==> row.phase.Verifying? && AutomaticPass(cfg, metrics, env.oracle)
  {
    AutomaticGates(cfg, metrics, env.oracle);
  }

  // ---------- every call ----------

  predicate NonePromoted(saves: seq<Row>) {
    forall k | 0 <= k < |saves| :: !saves[k].phase.Promoted?
  }

  lemma DriveDoesNotPromote(row: Row, plan: Plan, m: Machine, enteredAt: int, cfg: Config, prior: Option<Manifest>, env: Env)
    requires row.phase.Deploying? && m.cursor < |plan.steps| && (m.place.Aborted? || (m.place.OnStep? && !m.failed))
    ensures NonePromoted(DriveStepper(row, plan, m, enteredAt, cfg, prior, env).saves)
  {
    if !m.place.Aborted? {
      var (row', _, _, routed) := MarkStep(row, plan, m.cursor, env);
      if routed {
        DriveLoopShape(row', plan, m, enteredAt, env);
        FinishDoesNotPromote(row', DriveLoop(row', plan, m, enteredAt, env), plan, cfg, prior, env);
      }
    }
  }

  lemma FinishDoesNotPromote(row: Row, d: Drive, plan: Plan, cfg: Config, prior: Option<Manifest>, env: Env)
    requires row.phase.Deploying? && SameButMarks(row, d.row) && AllSameButMarks(row, d.saves)
    ensures NonePromoted(Finish(d, plan, cfg, prior, env).saves)
  {
  }

  lemma TickDoesNotPromote(row: Row, cfg: Config, prior: Option<Manifest>, env: Env)
    requires SnapOk(row)
    ensures NonePromoted(Tick(row, cfg, prior, env).saves)
  {
    if row.phase.Deploying? && row.snap.Usable() {
      DriveDoesNotPromote(row, row.snap.plan, row.snap.machine, row.snap.enteredAt, cfg, prior, env);
    }
  }

  lemma ApplyDoesNotPromote(s: Store, cfg: Config, id: nat, env: Env)
    ensures NonePromoted(Apply(s, cfg, id, env).saves)
  {
    if Apply(s, cfg, id, env).saves != [] && !env.gated && env.deploys {
      var prior := Prior(s, cfg.ref, cfg.manifest.checksum);
      DriveDoesNotPromote(NewRow(id, cfg, prior, env), PlanFor(cfg.strategy), Enter(0, env.health(0), true), env.clock(0),
                          cfg, if env.legible then prior else None, env);
    }
  }

  lemma FinalizeIsGated(s: Store, first: Effect, id: nat, cfg: Config, setup: Setup, later: Env)
    requires NonePromoted(first.saves)
    ensures !NonePromoted(AndFinalize(s, first, id, cfg, setup, later).saves) ==> AutomaticPass(cfg, setup.metrics, later.oracle)
  {
    var s' := SaveAll(s, first.saves, setup.policy);
    if id in s'.rows {
      var row := s'.rows[id];
      var prior := match Prior(s', row.ref, row.desired.checksum) case None => row.desired case Some(p) => p;
      AutomaticGate(row, prior, cfg, setup.metrics, later);
    }
  }

  lemma ReconcileIsGated(s: Store, cfg: Config, id: nat, setup: Setup, env: Env, later: Env)
    requires Inv(s)
    ensures !NonePromoted(Reconcile(s, cfg, id, setup, env, later).saves) ==> AutomaticPass(cfg, setup.metrics, later.oracle)
  {
    match InFlight(s, cfg.ref) {
      case Some(row) =>
        InFlightTickLegal(s, cfg, setup, env);
        TickDoesNotPromote(row, cfg, PriorIfRead(s, row, env), env);
        FinalizeIsGated(s, Tick(row, cfg, PriorIfRead(s, row, env), env), row.id, cfg, setup, later);
      case None =>
        ApplyDoesNotPromote(s, cfg, id, env);
        FinalizeIsGated(s, Apply(s, cfg, id, env), id, cfg, setup, later);
        if StuckVerifying(s, cfg).Some? { FinalizeIsGated(s, NOTHING, StuckVerifying(s, cfg).value.id, cfg, setup, later); }
    }
  }

  /**
   * In every store a run can reach, a call that writes a promoted row is a forced promote, an
   * unforced promote whose row's gates all pass, or a reconcile or a gate run by hand whose config's
   * gates all pass.
   */
  lemma PromotionIsGated(s: Store, op: Op, setup: Setup, env: Env, later: Env)
    requires Inv(s) && !NonePromoted(Call(s, op, setup, env, later).saves)
    ensures op.OpPromote? || op.OpReconcile? || op.OpVerify?
    ensures op.OpPromote? ==> op.id in s.rows && s.rows[op.id].phase.Verifying?
                              && (op.force || ManualPass(s.rows[op.id], setup.metrics, env.oracle))
    ensures op.OpReconcile? ==> AutomaticPass(op.cfg, setup.metrics, later.oracle)
    ensures op.OpVerify? ==> op.id in s.rows && s.rows[op.id].phase.Verifying? && AutomaticPass(op.cfg, setup.metrics, env.oracle)
  {
    match op
    case OpApply(cfg, id) => ApplyDoesNotPromote(s, cfg, id, env);
    case OpReconcile(cfg, id) => ReconcileIsGated(s, cfg, id, setup, env, later);
    case OpRollbackLast(ref, force) =>
    case _ => if op.id in s.rows { RowCallIsGated(s.rows[op.id], op, PriorIfRead(s, s.rows[op.id], env), setup.metrics, env); }
  }

  lemma RowCallIsGated(row: Row, op: Op, prior: Option<Manifest>, metrics: bool, env: Env)
    requires SnapOk(row)
    ensures !NonePromoted(RowCall(row, op, prior, metrics, env).saves) ==>
              row.phase.Verifying?
              && ((op.OpPromote? && (op.force || ManualPass(row, metrics, env.oracle)))
                  || (op.OpVerify? && AutomaticPass(op.cfg, metrics, env.oracle)))
  {
    match op
    case OpTick(_, cfg) => TickDoesNotPromote(row, cfg, prior, env);
    case OpPromote(_, force) => VerifyPredictsPromote(row, metrics, env);
    case OpVerify(_, cfg) => AutomaticGate(row, if prior.Some? then prior.value else row.desired, cfg, metrics, env);
    case _ =>
  }

  // ---------- every run ----------

  /** The call promotes row id and had the right to: forced, or on the evidence of the gates it runs. */
  ghost predicate Entitled(s: Store, x: Input, setup: Setup, id: nat) {
    match x.op
    case OpPromote(pid, force) =>
      pid == id && id in s.rows && s.rows[id].phase.Verifying? && (force || ManualPass(s.rows[id], setup.metrics, x.env.oracle))
    case OpVerify(vid, cfg) =>
      vid == id && id in s.rows && s.rows[id].phase.Verifying? && AutomaticPass(cfg, setup.metrics, x.env.oracle)
    case OpReconcile(cfg, _) =>
      && id in Next(s, x, setup).rows && Next(s, x, setup).rows[id].ref == cfg.ref
      && AutomaticPass(cfg, setup.metrics, x.later.oracle)
    case _ => false
  }

  lemma NextIsEntitled(s: Store, x: Input, setup: Setup, id: nat)
    requires Inv(s) && (id in s.rows ==> !s.rows[id].phase.Promoted?)
    requires id in Next(s, x, setup).rows && Next(s, x, setup).rows[id].phase.Promoted?
    ensures Entitled(s, x, setup, id)
  {
    var all := Call(s, x.op, setup, x.env, x.later).saves;
    var saves := Kept(all, x.kept);
    CallLegal(s, x.op, setup, x.env, x.later);
    SaveAllRows(s, saves, setup.policy);
    assert saves != [] && saves[0].id == id && all[|saves| - 1].phase.Promoted?;
    PromotionIsGated(s, x.op, setup, x.env, x.later);
    if x.op.OpReconcile? {
      ReconcileOwnRows(s, x.op.cfg, x.op.id, setup, x.env, x.later);
      assert all[|saves| - 1].ref == x.op.cfg.ref;
    } else {
      RowCallLawful(s.rows[x.op.id], x.op, PriorIfRead(s, s.rows[x.op.id], x.env), setup.metrics, x.env);
    }
  }

  /**
   * Over every run, with crashes: a row that is promoted at the end and was not at the start was
   * promoted by some call of the run that was entitled to it.
   */
  lemma PromotedWasGated(s: Store, xs: seq<Input>, setup: Setup, id: nat)
    requires Inv(s) && (id in s.rows ==> !s.rows[id].phase.Promoted?)
    requires id in Exec(s, xs, setup).rows && Exec(s, xs, setup).rows[id].phase.Promoted?
    ensures exists k :: 0 <= k < |xs| && Entitled(Exec(s, xs[..k], setup), xs[k], setup, id)
  {
    var k := EntitledCall(s, xs, setup, id);
  }

  lemma {:induction false} EntitledCall(s: Store, xs: seq<Input>, setup: Setup, id: nat) returns (k: nat)
    requires Inv(s) && (id in s.rows ==> !s.rows[id].phase.Promoted?)
    requires id in Exec(s, xs, setup).rows && Exec(s, xs, setup).rows[id].phase.Promoted?
    ensures k < |xs| && Entitled(Exec(s, xs[..k], setup), xs[k], setup, id)
    decreases |xs|
  {
    var t := Next(s, xs[0], setup);
    NextKeeps(s, xs[0], setup);
    if id in t.rows && t.rows[id].phase.Promoted? {
      NextIsEntitled(s, xs[0], setup, id);
      k := 0;
    } else {
      var j := EntitledCall(t, xs[1..], setup, id);
      k := j + 1;
      ExecFront(s, xs, setup, j);
    }
  }

  lemma ExecFront(s: Store, xs: seq<Input>, setup: Setup, j: nat)
    requires j < |xs|
    ensures Exec(s, xs[..j + 1], setup) == Exec(Next(s, xs[0], setup), xs[1..][..j], setup)
  {
    assert xs[..j + 1][0] == xs[0] && xs[..j + 1][1..] == xs[1..][..j];
  }

  // ---------- whose gates ----------

  /** The config's gates include the row's own, each with the same descriptor. */
  predicate CoversRow(cfg: Config, row: Row, metrics: bool) {
    var auto := GatesFromConfig(cfg.healthCheck, cfg.auto, cfg.smoke, cfg.analysis, metrics);
    && GatesFromRollout(row, metrics).Some?
    && var own := GatesFromRollout(row, metrics).value;
       && auto.health
       && (Enabled(own, SmokeGate) ==> auto.smoke == own.smoke)
       && (Enabled(own, AnalysisGate) ==> auto.analysis == own.analysis)
  }

  // Everything passes but the gate g, when it is asked about the row's own descriptor.
  function AllBut(own: GateSet, g: Option<Gate>): Oracle {
    Oracle(Verdict(if g == Some(HealthGate) then Unhealthy else Healthy, ""),
           (s: Smoke) => if g == Some(SmokeGate) && own.smoke == Some(s) then SmokeError("") else Exit(s.expectExit),
           (a: Analysis) => if g == Some(AnalysisGate) && own.analysis == Some(a) then AnalysisFailed("") else AnalysisPassed(1))
  }

  // A gate of the row's that the config does not run, or runs on something else.
  predicate Missed(auto: GateSet, own: GateSet, g: Gate) {
    Enabled(own, g) && match g
                       case HealthGate => !auto.health
                       case SmokeGate => auto.smoke != own.smoke
                       case AnalysisGate => auto.analysis != own.analysis
  }

  lemma MissedGateFails(auto: GateSet, own: GateSet, g: Gate)
    requires Missed(auto, own, g)
    ensures AllPass(auto, AllBut(own, Some(g))) && !AllPass(own, AllBut(own, Some(g)))
  {
  }

  /**
   * Passing the config's gates means that the row's own gates pass too, whatever they would answer,
   * if and only if the config's gates include them.
   */
  lemma OwnGatesPassIff(cfg: Config, row: Row, metrics: bool)
    ensures CoversRow(cfg, row, metrics) <==>
            forall o: Oracle :: AutomaticPass(cfg, metrics, o) ==> ManualPass(row, metrics, o)
  {
    var auto := GatesFromConfig(cfg.healthCheck, cfg.auto, cfg.smoke, cfg.analysis, metrics);
    if GatesFromRollout(row, metrics).None? {
      var o := AllBut(auto, None);
      assert AutomaticPass(cfg, metrics, o) && !ManualPass(row, metrics, o);
    } else {
      var own := GatesFromRollout(row, metrics).value;
      if g: Gate :| Missed(auto, own, g) {
        MissedGateFails(auto, own, g);
        assert AutomaticPass(cfg, metrics, AllBut(own, Some(g))) && !ManualPass(row, metrics, AllBut(own, Some(g)));
      } else {
        NothingMissed(cfg, row, metrics);
      }
    }
  }

  lemma NothingMissed(cfg: Config, row: Row, metrics: bool)
    requires GatesFromRollout(row, metrics).Some?
    requires forall g: Gate :: !Missed(GatesFromConfig(cfg.healthCheck, cfg.auto, cfg.smoke, cfg.analysis, metrics),
                                       GatesFromRollout(row, metrics).value, g)
    ensures CoversRow(cfg, row, metrics)
    ensures forall o: Oracle :: AutomaticPass(cfg, metrics, o) ==> ManualPass(row, metrics, o)
  {
    var auto := GatesFromConfig(cfg.healthCheck, cfg.auto, cfg.smoke, cfg.analysis, metrics);
    var own := GatesFromRollout(row, metrics).value;
    assert !Missed(auto, own, HealthGate) && !Missed(auto, own, SmokeGate) && !Missed(auto, own, AnalysisGate);
  }

  // A config that gates nothing.
  predicate Ungated(cfg: Config) {
    !cfg.healthCheck && !cfg.auto && cfg.smoke == None && cfg.analysis == None
  }

  lemma UngatedGatePasses(s: Store, t: Effect, r: Row, cfg: Config, setup: Setup, later: Env)
    requires Valid(s) && t.saves == [r] && r.phase.Verifying? && Ungated(cfg) && later.legible
    ensures AndFinalize(s, t, r.id, cfg, setup, later).saves == [r] + [r.(phase := Promoted)]
  {
    SaveAllRows(s, t.saves, setup.policy);
    AutomaticGates(cfg, setup.metrics, later.oracle);
  }

  /**
   * And when Git drops the gates while a rollout is in flight, reconcile promotes the old row without
   * them: an interrupted row is promoted at once, whatever its own gates would say.
   */
  lemma DroppedGatesPromote(s: Store, row: Row, cfg: Config, id: nat, setup: Setup, env: Env, later: Env)
    requires Inv(s) && InFlight(s, cfg.ref) == Some(row) && row.phase.Deploying? && row.snap.NoSnapshot? && Ungated(cfg)
    requires env.lists && env.free && env.plans && later.legible
    ensures Reconcile(s, cfg, id, setup, env, later).saves == [Recovered(row), Recovered(row).(phase := Promoted)]
    ensures !CoversRow(cfg, row, setup.metrics)
    ensures row.settings.smoke.Held? && row.settings.smoke.value.command != [] && later.oracle.smoke(row.settings.smoke.value).SmokeError? ==>
              !ManualPass(row, setup.metrics, later.oracle)
  {
    FoundRow(s, (r: Row) => r.ref == cfg.ref && r.phase.InFlight());
    var t := Effect([Recovered(row)], [], [], true);
    assert Tick(row, cfg, PriorIfRead(s, row, env), env) == t;
    UngatedGatePasses(s, t, Recovered(row), cfg, setup, later);
    assert [Recovered(row)] + [Recovered(row).(phase := Promoted)] == [Recovered(row), Recovered(row).(phase := Promoted)];
    var own := GatesFromRollout(row, setup.metrics);
    if own.Some? && row.settings.smoke.Held? && row.settings.smoke.value.command != [] {
      assert Enabled(own.value, SmokeGate);
    }
  }

  /**
   * A row made by Apply carries at least the gates its config runs automatically, for its whole
   * life: what passes by hand would have passed on its own.
   */
  lemma ManualGatesContainAutomatic(id: nat, cfg: Config, prior: Option<Manifest>, env: Env, row: Row, metrics: bool, o: Oracle)
    requires Evolves(NewRow(id, cfg, prior, env), row)
    ensures GatesFromRollout(row, metrics).Some?
    ensures forall g: Gate ::
              var auto := GatesFromConfig(cfg.healthCheck, cfg.auto, cfg.smoke, cfg.analysis, metrics);
              Enabled(auto, g) ==> Enabled(GatesFromRollout(row, metrics).value, g)
                                   && Answer(GatesFromRollout(row, metrics).value, g, o) == Answer(auto, g, o)
    ensures ManualPass(row, metrics, o) ==> AutomaticPass(cfg, metrics, o)
  {
  }
}
