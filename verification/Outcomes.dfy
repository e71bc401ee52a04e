/** What each operation leaves behind, in terms of the row it found and the answers it got. */
module Outcomes {
  import opened Rollout
  import opened Progressive
  import opened StepOps
  import opened Engine
  import opened Evolution
  import opened Runs
  import opened Listing
  import opened Promotion

  // ---------- Apply ----------

  ghost predicate Idle(s: Store, ref: string) {
    forall id <- s.rows :: s.rows[id].ref == ref ==> !s.rows[id].phase.Deploying? && !s.rows[id].phase.Paused?
  }

  lemma NothingFlies(s: Store, ref: string)
    requires Inv(s)
    ensures InFlight(s, ref).None? <==> Idle(s, ref)
  {
    FoundRow(s, (r: Row) => r.ref == ref && r.phase.InFlight());
  }

  /** Apply writes exactly when it is admitted, holds the lease, can list and build, and the target is idle. */
  lemma ApplyWritesIff(s: Store, cfg: Config, id: nat, env: Env)
    requires Inv(s)
    ensures Apply(s, cfg, id, env).saves != [] <==>
            env.admits && env.free && env.lists && env.ready && id !in s.rows && Idle(s, cfg.ref)
  {
    NothingFlies(s, cfg.ref);
  }

  /** A row that waits for approval: nothing reached the target. */
  predicate Waits(r: Row, cfg: Config, id: nat) {
    r.phase == AwaitingApproval && r.id == id && r.ref == cfg.ref && r.desired == cfg.manifest && r.snap == NoSnapshot
  }

  /** An Apply that needs approval saves one waiting row and leaves the target alone. */
  lemma GatedApplyHalts(s: Store, cfg: Config, id: nat, env: Env)
    requires env.gated
    ensures var e := Apply(s, cfg, id, env);
            && e.marks == [] && e.reapplied == [] && e.deployed == []
            && (e.saves == [] || (|e.saves| == 1 && Waits(e.saves[0], cfg, id)))
  {
  }

  /** Any other Apply that writes deploys the config's manifest once, and settles its row when that fails. */
  lemma UngatedApplyDeploys(s: Store, cfg: Config, id: nat, env: Env)
    requires !env.gated && Apply(s, cfg, id, env).saves != []
    ensures var e := Apply(s, cfg, id, env);
            && e.deployed == [cfg.manifest] && e.saves[0].phase == Deploying && e.saves[0].desired == cfg.manifest
            && (!env.deploys ==> !e.ok && e.marks == [] && e.saves[|e.saves| - 1].phase == RolledBack)
  {
  }

  /** A reconcile of an idle target creates a row exactly when the target differs from Git or drifted, and Apply may write. */
  lemma ReconcileAppliesIff(s: Store, cfg: Config, id: nat, setup: Setup, env: Env, later: Env)
    requires Inv(s) && Idle(s, cfg.ref) && env.lists && env.plans && id !in s.rows
    ensures var saves := Reconcile(s, cfg, id, setup, env, later).saves;
            saves != [] && saves[0].id !in s.rows <==>
            (env.observed != cfg.manifest.checksum || env.deepDrift) && env.admits && env.free && env.ready
  {
    NothingFlies(s, cfg.ref);
    ApplyWritesIff(s, cfg, id, env);
    ApplyLegal(s, cfg, id, env);
    var saves := Reconcile(s, cfg, id, setup, env, later).saves;
    if env.observed == cfg.manifest.checksum && !env.deepDrift {
      FoundRow(s, (r: Row) => r.ref == cfg.ref);
      if StuckVerifying(s, cfg).Some? {
        AndFinalizeId(s, NOTHING, StuckVerifying(s, cfg).value.id, cfg, setup, env, later);
      }
    } else {
      AppliedFirst(s, cfg, id, setup, env, later);
    }
  }

  lemma AppliedFirst(s: Store, cfg: Config, id: nat, setup: Setup, env: Env, later: Env)
    requires Inv(s) && InFlight(s, cfg.ref).None? && env.lists && env.plans && PlanChanged(cfg, env)
    ensures var a, e := Apply(s, cfg, id, env), Reconcile(s, cfg, id, setup, env, later);
            a.saves != [] ==> e.saves != [] && e.saves[0] == a.saves[0]
    ensures Apply(s, cfg, id, env).saves == [] && id !in s.rows ==> Reconcile(s, cfg, id, setup, env, later).saves == []
  {
  }

  /** And a reconcile that needs approval does no more than the Apply it makes. */
  lemma GatedReconcileHalts(s: Store, cfg: Config, id: nat, setup: Setup, env: Env, later: Env)
    requires Inv(s) && Idle(s, cfg.ref) && env.gated && id !in s.rows
    requires env.observed != cfg.manifest.checksum || env.deepDrift
    ensures var e := Reconcile(s, cfg, id, setup, env, later);
            && e.marks == [] && e.reapplied == [] && e.deployed == []
            && (e.saves == [] || (|e.saves| == 1 && Waits(e.saves[0], cfg, id)))
  {
    NothingFlies(s, cfg.ref);
    GatedApplyHalts(s, cfg, id, env);
    var a := Apply(s, cfg, id, env);
    if env.lists && env.plans && a.ok && a.saves != [] {
      SaveAllRows(s, a.saves, setup.policy);
      WaitingIsNotGated(s, a, id, cfg, setup, later);
    }
  }

  lemma WaitingIsNotGated(s: Store, a: Effect, id: nat, cfg: Config, setup: Setup, later: Env)
    requires Valid(s) && |a.saves| == 1 && a.saves[0].id == id && a.saves[0].phase.AwaitingApproval?
    ensures var e := AndFinalize(s, a, id, cfg, setup, later);
            e.saves == a.saves && e.marks == a.marks && e.reapplied == a.reapplied && e.deployed == a.deployed
  {
    SaveAllRows(s, a.saves, setup.policy);
    assert a.saves + [] == a.saves && a.reapplied + [] == a.reapplied;
  }

  /** Without a listing nothing is written, and without a plan an idle target is left alone. */
  lemma ReconcileNeeds(s: Store, cfg: Config, id: nat, setup: Setup, env: Env, later: Env)
    requires Inv(s) && (!env.lists || (!env.plans && Idle(s, cfg.ref)))
    ensures Reconcile(s, cfg, id, setup, env, later) == REFUSED
  {
    NothingFlies(s, cfg.ref);
  }

  /**
   * An idle target that is as Git says is gated again, and only when its newest row still verifies the
   * manifest it runs: then the row is promoted if the gates pass and put back if it may be.
   */
  lemma ReconcileGatesAgain(s: Store, cfg: Config, id: nat, setup: Setup, env: Env, later: Env, k: nat)
    requires Inv(s) && Idle(s, cfg.ref) && env.lists && env.plans && !env.deepDrift && env.observed == cfg.manifest.checksum
    requires NewestAt(s, cfg.ref, k)
    ensures var e := Reconcile(s, cfg, id, setup, env, later);
            var row := s.rows[s.listing[k]];
            var stuck := row.phase == Verifying && row.desired.checksum == cfg.manifest.checksum && later.legible;
            var back := cfg.auto && row.blocked == "" && later.free && later.reapplies;
            var prior := match Prior(s, cfg.ref, cfg.manifest.checksum) case None => row.desired case Some(p) => p;
            && e.marks == [] && e.deployed == []
            && e.saves == (if !stuck then []
                           else if AutomaticPass(cfg, setup.metrics, later.oracle) then [row.(phase := Promoted)]
                           else if back then [row.(phase := RolledBack, desired := prior)]
                           else [])
  {
    NothingFlies(s, cfg.ref);
    NewestIsFirst(s, cfg.ref);
    var row := s.rows[s.listing[k]];
    if StuckVerifying(s, cfg).Some? { GateOnly(s, row, cfg, setup, later); }
  }

  lemma GateOnly(s: Store, row: Row, cfg: Config, setup: Setup, later: Env)
    requires row.id in s.rows && s.rows[row.id] == row && row.phase == Verifying
    ensures var e := AndFinalize(s, NOTHING, row.id, cfg, setup, later);
            var back := cfg.auto && row.blocked == "" && later.free && later.reapplies;
            var prior := match Prior(s, row.ref, row.desired.checksum) case None => row.desired case Some(p) => p;
            && e.marks == [] && e.deployed == []
            && e.saves == (if !later.legible then []
                           else if AutomaticPass(cfg, setup.metrics, later.oracle) then [row.(phase := Promoted)]
                           else if back then [row.(phase := RolledBack, desired := prior)]
                           else [])
  {
    var prior := match Prior(s, row.ref, row.desired.checksum) case None => row.desired case Some(p) => p;
    GateOutcome(row, prior, cfg, setup.metrics, later);
    assert [] + Finalize(s, row, cfg, setup.metrics, later).saves == Finalize(s, row, cfg, setup.metrics, later).saves;
  }

  /** With automatic rollback, a new row is free to be rolled back exactly when its baseline could be checked and matched. */
  lemma BlockedIff(id: nat, cfg: Config, prior: Option<Manifest>, env: Env)
    ensures NewRow(id, cfg, prior, env).blocked == "" <==>
            !cfg.auto || (env.legible && (prior.None? || env.differ.NoDiffer?
                                          || (env.differ.Differ? && env.differ.diff(prior.value) == Same)))
  {
  }

  /** A row keeps, over every run, what the config that created it said of its database commands. */
  lemma SettingsStay(s: Store, x: Input, xs: seq<Input>, setup: Setup)
    requires Inv(s) && Creates(x.op) && x.op.id !in s.rows && x.op.id in Next(s, x, setup).rows
    ensures var t := Exec(Next(s, x, setup), xs, setup);
            x.op.id in t.rows
            && var kept, cfg := t.rows[x.op.id].settings, x.op.cfg;
               kept.migrates == cfg.migrates && kept.compatible == cfg.compatible
               && kept.reverseHook == cfg.reverseHook && kept.postPromote == cfg.postPromote
  {
    var saves := Kept(Call(s, x.op, setup, x.env, x.later).saves, x.kept);
    CallLegal(s, x.op, setup, x.env, x.later);
    FirstSaveCreates(s, x.op, setup, x.env, x.later);
    SaveAllRows(s, saves, setup.policy);
    assert Evolves(Created(s, x.op, x.env), Next(s, x, setup).rows[x.op.id]);
    NextKeeps(s, x, setup);
    RunKeeps(Next(s, x, setup), xs, setup);
  }

  // ---------- Tick ----------

  /** A tick leaves alone what is not deploying, another target's row, and a target that is busy. */
  lemma TickLeavesAlone(row: Row, cfg: Config, prior: Option<Manifest>, env: Env)
    requires row.phase != Deploying || cfg.ref != row.ref || !env.free
    ensures var e := Tick(row, cfg, prior, env);
            e.saves == [] && e.marks == [] && e.reapplied == [] && (e.ok <==> row.phase != Deploying)
  {
  }

  /** A row whose progress is unknown goes to the gate with rollback blocked, and keeps the reason it had. */
  lemma TickRecovers(row: Row, cfg: Config, prior: Option<Manifest>, env: Env)
    requires row.phase == Deploying && cfg.ref == row.ref && env.free
    requires row.snap == NoSnapshot || (env.ready && !row.snap.Usable())
    ensures var e := Tick(row, cfg, prior, env);
            && e.ok && e.marks == [] && e.reapplied == [] && |e.saves| == 1
            && e.saves[0] == row.(phase := Verifying, blocked := e.saves[0].blocked)
            && e.saves[0].blocked != "" && (row.blocked != "" ==> e.saves[0].blocked == row.blocked)
  {
  }

  /** While a step bakes, a tick waits if the target is healthy and settles the row if it is not. */
  lemma TickWhileBaking(row: Row, cfg: Config, prior: Option<Manifest>, env: Env)
    requires row.phase == Deploying && cfg.ref == row.ref && env.free && env.ready && SnapOk(row) && row.snap.Usable()
    requires var pause := row.snap.plan.steps[row.snap.machine.cursor].pause;
             pause > 0 && env.clock(0) - row.snap.enteredAt < pause
    ensures var e := Tick(row, cfg, prior, env);
            && e.marks == [] && (env.health(row.snap.machine.cursor) ==> e.saves == [] && e.reapplied == [] && e.ok)
            && (!env.health(row.snap.machine.cursor) ==>
                  !e.ok && e.saves != [] && forall k | 0 <= k < |e.saves| :: e.saves[k].phase == RolledBack)
  {
  }

  // Whether a deploying row is put back on the earlier manifest when a step fails.
  predicate PutsBack(row: Row, cfg: Config, prior: Option<Manifest>, env: Env) {
    cfg.auto && row.blocked == "" && prior.Some? && env.reapplies
  }

  /** How a failing step settles a row: on the earlier manifest when that is allowed and accepted, else on its own. */
  predicate SettledBy(e: Effect, row: Row, cfg: Config, prior: Option<Manifest>, env: Env) {
    && !e.ok && e.saves != []
    && e.reapplied == (if PutsBack(row, cfg, prior, env) then [prior.value] else [])
    && var last := e.saves[|e.saves| - 1];
       last.phase == RolledBack && last.desired == if PutsBack(row, cfg, prior, env) then prior.value else row.desired
  }

  lemma FailSettlesBy(base: Row, row: Row, cfg: Config, prior: Option<Manifest>, env: Env)
    requires row.phase.Deploying? && SameButMarks(base, row)
    ensures SettledBy(FailProgressive(row, cfg, prior, env), base, cfg, prior, env)
  {
  }

  lemma ThenSettledBy(saves: seq<Row>, marks: seq<Mark>, e: Effect, row: Row, cfg: Config, prior: Option<Manifest>, env: Env)
    requires SettledBy(e, row, cfg, prior, env)
    ensures SettledBy(Then(saves, marks, e), row, cfg, prior, env)
  {
  }

  lemma DriveSettles(row: Row, plan: Plan, m: Machine, enteredAt: int, cfg: Config, prior: Option<Manifest>, env: Env)
    requires row.phase.Deploying? && m.cursor < |plan.steps| && (m.place.Aborted? || (m.place.OnStep? && !m.failed))
    ensures var e := DriveStepper(row, plan, m, enteredAt, cfg, prior, env);
            e.ok || SettledBy(e, row, cfg, prior, env)
  {
    if m.place.Aborted? {
      FailSettlesBy(row, row, cfg, prior, env);
    } else {
      var (row', saves, marks, routed) := MarkStep(row, plan, m.cursor, env);
      if routed {
        var d := DriveLoop(row', plan, m, enteredAt, env);
        DriveLoopShape(row', plan, m, enteredAt, env);
        FinishSettles(row, d, plan, cfg, prior, env);
        var f := Finish(d, plan, cfg, prior, env);
        if !f.ok { ThenSettledBy(saves, marks, f, row, cfg, prior, env); }
      } else {
        FailSettlesBy(row, row', cfg, prior, env);
        ThenSettledBy(saves, marks, FailProgressive(row', cfg, prior, env), row, cfg, prior, env);
      }
    }
  }

  lemma FinishSettles(row: Row, d: Drive, plan: Plan, cfg: Config, prior: Option<Manifest>, env: Env)
    requires row.phase.Deploying? && SameButMarks(row, d.row)
    ensures var e := Finish(d, plan, cfg, prior, env); e.ok || SettledBy(e, row, cfg, prior, env)
  {
    FailSettlesBy(row, d.row, cfg, prior, env);
    if d.Failed? || d.machine.place.Aborted? {
      ThenSettledBy(d.saves, d.marks, FailProgressive(d.row, cfg, prior, env), row, cfg, prior, env);
    }
  }

  /** A tick that writes and does not succeed has settled the row, on the earlier manifest exactly when it may be put back. */
  lemma FailedTickSettles(row: Row, cfg: Config, prior: Option<Manifest>, env: Env)
    requires SnapOk(row)
    ensures var e := Tick(row, cfg, prior, env);
            e.saves != [] && !e.ok ==> SettledBy(e, row, cfg, prior, env)
  {
    if row.phase.Deploying? && row.snap.Usable() {
      FailSettlesBy(row, row, cfg, prior, env);
      DriveSettles(row, row.snap.plan, row.snap.machine, row.snap.enteredAt, cfg, prior, env);
    }
  }

  /** So has an Apply. */
  lemma FailedApplySettles(s: Store, cfg: Config, id: nat, env: Env)
    ensures var e := Apply(s, cfg, id, env); var prior := Prior(s, cfg.ref, cfg.manifest.checksum);
            e.saves != [] && !e.ok ==>
              SettledBy(e, NewRow(id, cfg, prior, env), cfg, if env.legible then prior else None, env)
  {
    var e := Apply(s, cfg, id, env);
    if e.saves != [] && !env.gated {
      var prior := Prior(s, cfg.ref, cfg.manifest.checksum);
      var row := NewRow(id, cfg, prior, env);
      var known := if env.legible then prior else None;
      FailSettlesBy(row, row, cfg, known, env);
      DriveSettles(row, PlanFor(cfg.strategy), Enter(0, env.health(0), true), env.clock(0), cfg, known, env);
    }
  }

  // ---------- the gate ----------

  predicate CanRollBack(p: Phase) {
    p == AwaitingApproval || p == Deploying || p == Paused || p == Verifying || p == Promoted
  }

  /**
   * The automatic gate: a verifying row that passes is promoted; one that does not is put back when
   * automatic rollback is on, nothing blocks it, the lease is free and the target accepts; nothing
   * else is written. No migration holds it back.
   */
  lemma GateOutcome(row: Row, prior: Manifest, cfg: Config, metrics: bool, env: Env)
    ensures var e := VerifyOrRollback(row, prior, cfg, metrics, env);
            var back := cfg.auto && row.blocked == "" && env.free && env.reapplies && CanRollBack(row.phase);
            if AutomaticPass(cfg, metrics, env.oracle) then
              && e.reapplied == [] && e.saves == (if row.phase == Verifying then [row.(phase := Promoted)] else [])
              && (e.ok <==> row.phase == Verifying && (row.settings.postPromote && row.settings.migrates ==> env.database))
            else
              && e.reapplied == (if back then [prior] else [])
              && e.saves == (if back then [row.(phase := RolledBack, desired := prior)] else [])
              && (e.ok <==> back && (cfg.reverseHook || row.settings.reverseHook ==> env.database))
  {
    AutomaticGates(cfg, metrics, env.oracle);
  }

  // ---------- the operators ----------

  /**
   * An abort of a row in flight: it is settled without a snapshot; the recorded earlier manifest is
   * re-applied exactly when there is one and nothing blocks it; a target that refuses it leaves the
   * row as it was.
   */
  lemma AbortOutcome(row: Row, prior: Option<Manifest>, env: Env)
    ensures var e := Abort(row, prior, env);
            var back := row.blocked == "" && prior.Some?;
            if !env.free || !row.phase.InFlight() || (back && !env.reapplies) then e == REFUSED
            else
              && e.reapplied == (if back then [prior.value] else [])
              && e.saves == [row.(phase := RolledBack, snap := NoSnapshot, desired := if back then prior.value else row.desired)]
              && (e.ok <==> (back && row.settings.reverseHook ==> env.database))
  {
  }

  // The release migrated the database, incompatibly, and has no reverse command.
  predicate Stranded(row: Row) {
    row.settings.migrates && !row.settings.compatible && !row.settings.reverseHook
  }

  /** A rollback by hand, with the earlier manifest found: what holds it back, and what it leaves. */
  lemma RollbackOutcome(row: Row, prior: Manifest, force: bool, env: Env)
    ensures var e := RollbackTo(row, prior, force, env);
            if !env.free || !env.reapplies || !CanRollBack(row.phase) || (!force && (row.blocked != "" || Stranded(row))) then
              e == REFUSED
            else
              && e.reapplied == [prior] && e.saves == [row.(phase := RolledBack, desired := prior)]
              && (e.ok <==> (row.settings.reverseHook ==> env.database))
  {
  }

  /** On the store: the newest row goes back to the recorded earlier manifest; one that could not be read is no target. */
  lemma RollbackLastOutcome(s: Store, ref: string, force: bool, env: Env)
    requires Inv(s)
    ensures (forall k: nat :: !NewestAt(s, ref, k)) ==> RollbackLast(s, ref, force, env) == REFUSED
    ensures forall k: nat | NewestAt(s, ref, k) ::
              var row, e := s.rows[s.listing[k]], RollbackLast(s, ref, force, env);
              var prior := Prior(s, ref, row.desired.checksum);
              if env.legible && prior.Some? then e == RollbackTo(row, prior.value, force, env) else e == REFUSED
  {
    NewestIsFirst(s, ref);
  }

  /** And an abort on the store, of a recorded manifest that could not be read, re-applies nothing. */
  lemma AbortReapplies(s: Store, id: nat, setup: Setup, env: Env, later: Env)
    requires Inv(s) && id in s.rows
    ensures var row, e := s.rows[id], Call(s, OpAbort(id), setup, env, later);
            var prior := Prior(s, row.ref, row.desired.checksum);
            e.reapplied == if e.saves != [] && env.legible && prior.Some? && row.blocked == "" then [prior.value] else []
  {
    AbortOutcome(s.rows[id], PriorIfRead(s, s.rows[id], env), env);
  }

  /** Approval deploys the waiting row's manifest, and leaves it verifying exactly when that succeeds. */
  lemma ApproveOutcome(row: Row, env: Env)
    ensures var e := Approve(row, env);
            if env.admits && env.free && env.ready && row.phase == AwaitingApproval then
              && e.deployed == [row.desired] && e.reapplied == [] && |e.saves| == 1 && (e.ok <==> env.deploys)
              && (e.saves[0] == row.(phase := Verifying) <==> env.deploys)
              && (e.saves[0] == row.(phase := RolledBack) <==> !env.deploys)
            else e == REFUSED
  {
  }

  lemma RejectOutcome(row: Row)
    ensures Reject(row) == if row.phase == AwaitingApproval then Effect([row.(phase := RolledBack)], [], [], true) else REFUSED
  {
  }

  lemma ForcedPromoteOutcome(row: Row, metrics: bool, env: Env)
    ensures Promote(row, true, metrics, env).saves == if row.phase == Verifying then [row.(phase := Promoted)] else []
  {
  }

  /** Pausing holds the machine on its step, resuming puts it back on the same step; neither moves the cursor. */
  lemma HoldOutcome(row: Row, env: Env)
    requires SnapOk(row)
    ensures var p := Pause(row, env);
            if env.free && row.phase == Deploying && row.snap.Usable() then
              p.ok && p.saves == [row.(phase := Paused, snap := row.snap.(machine := Machine(OnHold, row.snap.machine.cursor, false)))]
            else p == REFUSED
    ensures var r := Resume(row, env);
            if env.free && row.phase == Paused && row.snap.Usable() then
              r.ok && r.saves == [row.(phase := Deploying,
                                       snap := Saved(row.snap.plan, Machine(OnStep, row.snap.machine.cursor, false), env.clock(0)))]
            else r == REFUSED
  {
  }

  /** Without the target's lease nothing but a promotion or a rejection is written. */
  lemma LeaseGuards(s: Store, op: Op, setup: Setup, env: Env, later: Env)
    requires !env.free && !op.OpPromote? && !op.OpReject? && !op.OpReconcile? && !op.OpVerify?
    ensures var e := Call(s, op, setup, env, later); e.saves == [] && e.marks == [] && e.reapplied == [] && e.deployed == []
  {
  }
}
