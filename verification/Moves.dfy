/** Who may move a rollout from one phase to another, over every run. */
module Moves {
  import opened Rollout
  import opened Progressive
  import opened StepOps
  import opened Engine
  import opened Evolution
  import opened Runs
  import opened Promotion
  import opened Outcomes

  predicate On(op: Op, id: nat) {
    (op.OpTick? || op.OpPause? || op.OpResume? || op.OpAbort? || op.OpApprove? || op.OpReject? || op.OpPromote? || op.OpVerify?)
    && op.id == id
  }

  predicate Reconciles(op: Op, ref: string) {
    op.OpReconcile? && op.cfg.ref == ref
  }

  predicate RollsBack(op: Op, ref: string) {
    op.OpRollbackLast? && op.ref == ref
  }

  /** The calls that may take row id of target ref from one phase to another. */
  predicate MayMove(op: Op, id: nat, ref: string, from: Phase, to: Phase) {
    match (from, to)
    case (AwaitingApproval, Verifying) => On(op, id) && op.OpApprove?
    case (AwaitingApproval, RolledBack) => (On(op, id) && (op.OpApprove? || op.OpReject? || op.OpVerify?)) || RollsBack(op, ref)
    case (Deploying, Paused) => On(op, id) && op.OpPause?
    case (Paused, Deploying) => On(op, id) && op.OpResume?
    case (Deploying, Verifying) => (On(op, id) && op.OpTick?) || Reconciles(op, ref)
    case (Deploying, Promoted) => Reconciles(op, ref)
    case (Deploying, RolledBack) =>
      (On(op, id) && (op.OpTick? || op.OpAbort? || op.OpVerify?)) || Reconciles(op, ref) || RollsBack(op, ref)
    case (Paused, RolledBack) => (On(op, id) && (op.OpAbort? || op.OpVerify?)) || RollsBack(op, ref)
    case (Verifying, Promoted) => (On(op, id) && (op.OpPromote? || op.OpVerify?)) || Reconciles(op, ref)
    case (Verifying, RolledBack) => (On(op, id) && op.OpVerify?) || Reconciles(op, ref) || RollsBack(op, ref)
    case (Promoted, RolledBack) => (On(op, id) && op.OpVerify?) || RollsBack(op, ref)
    case _ => false
  }

  // Every save of the call leaves the row in its phase or moves it as the call may.
  predicate AllMay(op: Op, row: Row, saves: seq<Row>) {
    forall k | 0 <= k < |saves| :: saves[k].phase == row.phase || MayMove(op, row.id, row.ref, row.phase, saves[k].phase)
  }

  // ---------- one call ----------

  // The phases a tick may leave a deploying row in.
  predicate Ticking(saves: seq<Row>) {
    forall k | 0 <= k < |saves| :: saves[k].phase == Deploying || saves[k].phase == Verifying || saves[k].phase == RolledBack
  }

  lemma DriveTicks(row: Row, plan: Plan, m: Machine, enteredAt: int, cfg: Config, prior: Option<Manifest>, env: Env)
    requires row.phase.Deploying? && m.cursor < |plan.steps| && (m.place.Aborted? || (m.place.OnStep? && !m.failed))
    ensures Ticking(DriveStepper(row, plan, m, enteredAt, cfg, prior, env).saves)
  {
    if !m.place.Aborted? {
      var (row', _, _, routed) := MarkStep(row, plan, m.cursor, env);
      if routed {
        DriveLoopShape(row', plan, m, enteredAt, env);
        FinishTicks(row', DriveLoop(row', plan, m, enteredAt, env), plan, cfg, prior, env);
      }
    }
  }

  lemma FinishTicks(row: Row, d: Drive, plan: Plan, cfg: Config, prior: Option<Manifest>, env: Env)
    requires row.phase.Deploying? && SameButMarks(row, d.row) && AllSameButMarks(row, d.saves)
    ensures Ticking(Finish(d, plan, cfg, prior, env).saves)
  {
  }

  lemma TickPhases(row: Row, cfg: Config, prior: Option<Manifest>, env: Env)
    requires SnapOk(row)
    ensures Ticking(Tick(row, cfg, prior, env).saves)
    ensures row.phase != Deploying ==> Tick(row, cfg, prior, env).saves == []
  {
    if row.phase.Deploying? && row.snap.Usable() {
      DriveTicks(row, row.snap.plan, row.snap.machine, row.snap.enteredAt, cfg, prior, env);
    }
  }

  lemma RowMoves(row: Row, op: Op, prior: Option<Manifest>, metrics: bool, env: Env)
    requires SnapOk(row) && On(op, row.id)
    ensures AllMay(op, row, RowCall(row, op, prior, metrics, env).saves)
  {
    match op
    case OpTick(_, cfg) => TickPhases(row, cfg, prior, env);
    case OpPromote(_, force) => PromoteMoves(row, force, metrics, env);
    case OpVerify(_, cfg) => GateOutcome(row, if prior.Some? then prior.value else row.desired, cfg, metrics, env);
    case _ => OperatorMoves(row, op, prior, metrics, env);
  }

  lemma OperatorMoves(row: Row, op: Op, prior: Option<Manifest>, metrics: bool, env: Env)
    requires SnapOk(row) && On(op, row.id) && !op.OpTick? && !op.OpPromote? && !op.OpVerify?
    ensures AllMay(op, row, RowCall(row, op, prior, metrics, env).saves)
  {
    match op
    case OpPause(_) => HoldOutcome(row, env);
    case OpResume(_) => HoldOutcome(row, env);
    case OpAbort(_) => AbortOutcome(row, prior, env);
    case OpApprove(_) => ApproveOutcome(row, env);
    case OpReject(_) => RejectOutcome(row);
  }

  lemma PromoteMoves(row: Row, force: bool, metrics: bool, env: Env)
    ensures forall k | 0 <= k < |Promote(row, force, metrics, env).saves| ::
              row.phase == Verifying && Promote(row, force, metrics, env).saves[k].phase == Promoted
  {
    ForcedPromoteOutcome(row, metrics, env);
    VerifyPredictsPromote(row, metrics, env);
  }

  // The gate at the end of a reconcile.
  lemma FinalizeMoves(s: Store, row: Row, cfg: Config, metrics: bool, env: Env)
    ensures var saves := Finalize(s, row, cfg, metrics, env).saves;
            && (row.phase == AwaitingApproval || row.phase == Deploying || row.phase == Paused ==> saves == [])
            && forall k | 0 <= k < |saves| ::
                 (row.phase == Verifying && saves[k].phase == Promoted) || (CanRollBack(row.phase) && saves[k].phase == RolledBack)
  {
    var prior := match Prior(s, row.ref, row.desired.checksum) case None => row.desired case Some(p) => p;
    GateOutcome(row, prior, cfg, metrics, env);
  }

  // The saves of a tick, and those of the gate that may follow it.
  lemma InFlightShape(s: Store, row: Row, cfg: Config, spare: nat, setup: Setup, env: Env, later: Env)
    requires Inv(s) && env.lists && InFlight(s, cfg.ref) == Some(row)
    ensures var first := Tick(row, cfg, PriorIfRead(s, row, env), env).saves;
            var s' := SaveAll(s, first, setup.policy);
            var all := Reconcile(s, cfg, spare, setup, env, later).saves;
            && row.id in s'.rows && s'.rows[row.id] == (if first == [] then row else first[|first| - 1])
            && (all == first || all == first + Finalize(s', s'.rows[row.id], cfg, setup.metrics, later).saves)
  {
    InFlightTickLegal(s, cfg, setup, env);
    SaveAllRows(s, Tick(row, cfg, PriorIfRead(s, row, env), env).saves, setup.policy);
  }

  /** A reconcile of a row in flight leaves a paused one alone and takes a deploying one no further than the gate. */
  lemma InFlightMoves(s: Store, row: Row, cfg: Config, spare: nat, setup: Setup, env: Env, later: Env)
    requires Inv(s) && env.lists && InFlight(s, cfg.ref) == Some(row)
    ensures AllMay(OpReconcile(cfg, spare), row, Reconcile(s, cfg, spare, setup, env, later).saves)
    ensures row.phase == Paused ==> Reconcile(s, cfg, spare, setup, env, later).saves == []
  {
    var first := Tick(row, cfg, PriorIfRead(s, row, env), env).saves;
    var last := InFlightEnds(s, row, cfg, spare, setup, env, later);
    GateMoves(row, first, last, Reconcile(s, cfg, spare, setup, env, later).saves, cfg, spare);
  }

  lemma InFlightEnds(s: Store, row: Row, cfg: Config, spare: nat, setup: Setup, env: Env, later: Env) returns (last: seq<Row>)
    requires Inv(s) && env.lists && InFlight(s, cfg.ref) == Some(row)
    ensures row.ref == cfg.ref && row.phase.InFlight()
    ensures Ends(row, Tick(row, cfg, PriorIfRead(s, row, env), env).saves, last)
    ensures var first, all := Tick(row, cfg, PriorIfRead(s, row, env), env).saves, Reconcile(s, cfg, spare, setup, env, later).saves;
            all == first || all == first + last
  {
    FoundRow(s, (r: Row) => r.ref == cfg.ref && r.phase.InFlight());
    TickPhases(row, cfg, PriorIfRead(s, row, env), env);
    InFlightShape(s, row, cfg, spare, setup, env, later);
    var s' := SaveAll(s, Tick(row, cfg, PriorIfRead(s, row, env), env).saves, setup.policy);
    FinalizeMoves(s', s'.rows[row.id], cfg, setup.metrics, later);
    last := Finalize(s', s'.rows[row.id], cfg, setup.metrics, later).saves;
  }

  // The saves of a tick of the row, and those of a gate on what the tick left.
  predicate Ends(row: Row, first: seq<Row>, last: seq<Row>) {
    && Ticking(first) && (row.phase == Paused ==> first == [])
    && var r := if first == [] then row else first[|first| - 1];
       && (r.phase.InFlight() ==> last == [])
       && forall k | 0 <= k < |last| :: last[k].phase == Promoted || last[k].phase == RolledBack
  }

  lemma GateMoves(row: Row, first: seq<Row>, last: seq<Row>, all: seq<Row>, cfg: Config, spare: nat)
    requires row.ref == cfg.ref && row.phase.InFlight() && Ends(row, first, last)
    requires all == first || all == first + last
    ensures AllMay(OpReconcile(cfg, spare), row, all) && (row.phase == Paused ==> all == [])
  {
  }

  lemma IdleMoves(s: Store, cfg: Config, spare: nat, setup: Setup, env: Env, later: Env, row: Row)
    requires Inv(s) && InFlight(s, cfg.ref).None?
    requires var saves := Reconcile(s, cfg, spare, setup, env, later).saves;
             saves != [] && saves[0].id in s.rows && row == s.rows[saves[0].id]
    ensures AllMay(OpReconcile(cfg, spare), row, Reconcile(s, cfg, spare, setup, env, later).saves)
  {
    if PlanChanged(cfg, env) {
      ApplyLegal(s, cfg, spare, env);
      AndFinalizeId(s, Apply(s, cfg, spare, env), spare, cfg, setup, env, later);
    } else {
      StuckMoves(s, cfg, spare, setup, env, later, row);
    }
  }

  lemma StuckMoves(s: Store, cfg: Config, spare: nat, setup: Setup, env: Env, later: Env, row: Row)
    requires Inv(s) && InFlight(s, cfg.ref).None? && !PlanChanged(cfg, env)
    requires var saves := Reconcile(s, cfg, spare, setup, env, later).saves;
             saves != [] && saves[0].id in s.rows && row == s.rows[saves[0].id]
    ensures AllMay(OpReconcile(cfg, spare), row, Reconcile(s, cfg, spare, setup, env, later).saves)
  {
    FoundRow(s, (r: Row) => r.ref == cfg.ref);
    var stuck := StuckVerifying(s, cfg).value;
    StuckShape(s, stuck, cfg, spare, setup, env, later);
    AndFinalizeId(s, NOTHING, stuck.id, cfg, setup, env, later);
    assert row == stuck;
    GatedStuckMoves(s, stuck, cfg, spare, setup.metrics, later);
  }

  lemma GatedStuckMoves(s: Store, stuck: Row, cfg: Config, spare: nat, metrics: bool, later: Env)
    requires stuck.phase == Verifying && stuck.ref == cfg.ref
    ensures AllMay(OpReconcile(cfg, spare), stuck, Finalize(s, stuck, cfg, metrics, later).saves)
  {
    FinalizeMoves(s, stuck, cfg, metrics, later);
  }

  lemma StuckShape(s: Store, stuck: Row, cfg: Config, spare: nat, setup: Setup, env: Env, later: Env)
    requires Inv(s) && InFlight(s, cfg.ref).None? && !PlanChanged(cfg, env) && StuckVerifying(s, cfg) == Some(stuck)
    requires stuck.id in s.rows && s.rows[stuck.id] == stuck && env.lists && env.plans
    ensures Reconcile(s, cfg, spare, setup, env, later).saves == Finalize(s, stuck, cfg, setup.metrics, later).saves
    ensures Reconcile(s, cfg, spare, setup, env, later).saves == AndFinalize(s, NOTHING, stuck.id, cfg, setup, later).saves
  {
    assert [] + Finalize(s, stuck, cfg, setup.metrics, later).saves == Finalize(s, stuck, cfg, setup.metrics, later).saves;
  }

  lemma ReconcileMoves(s: Store, cfg: Config, spare: nat, setup: Setup, env: Env, later: Env)
    requires Inv(s)
    ensures var saves := Reconcile(s, cfg, spare, setup, env, later).saves;
            saves != [] && saves[0].id in s.rows ==> AllMay(OpReconcile(cfg, spare), s.rows[saves[0].id], saves)
  {
    var saves := Reconcile(s, cfg, spare, setup, env, later).saves;
    if saves != [] && saves[0].id in s.rows {
      match InFlight(s, cfg.ref) {
        case Some(row) =>
          InFlightMoves(s, row, cfg, spare, setup, env, later);
          InFlightTickLegal(s, cfg, setup, env);
          AndFinalizeId(s, Tick(row, cfg, PriorIfRead(s, row, env), env), row.id, cfg, setup, env, later);
        case None => IdleMoves(s, cfg, spare, setup, env, later, s.rows[saves[0].id]);
      }
    }
  }

  lemma RollbackMoves(s: Store, ref: string, force: bool, env: Env)
    requires Inv(s)
    ensures var saves := RollbackLast(s, ref, force, env).saves;
            saves != [] && saves[0].id in s.rows ==> AllMay(OpRollbackLast(ref, force), s.rows[saves[0].id], saves)
  {
    FoundRow(s, (r: Row) => r.ref == ref);
    if Newest(s, ref).Some? && PriorIfRead(s, Newest(s, ref).value, env).Some? {
      RollbackOutcome(Newest(s, ref).value, PriorIfRead(s, Newest(s, ref).value, env).value, force, env);
    }
  }

  /** Every save of every call moves its row only as that call may. */
  lemma CallMoves(s: Store, op: Op, setup: Setup, env: Env, later: Env)
    requires Inv(s)
    ensures var saves := Call(s, op, setup, env, later).saves;
            saves != [] && saves[0].id in s.rows ==> AllMay(op, s.rows[saves[0].id], saves)
  {
    match op
    case OpApply(cfg, id) => ApplyLegal(s, cfg, id, env);
    case OpReconcile(cfg, id) => ReconcileMoves(s, cfg, id, setup, env, later);
    case OpRollbackLast(ref, force) => RollbackMoves(s, ref, force, env);
    case _ => RowCallMoves(s, op, setup, env, later);
  }

  lemma RowCallMoves(s: Store, op: Op, setup: Setup, env: Env, later: Env)
    requires Inv(s) && !op.OpApply? && !op.OpReconcile? && !op.OpRollbackLast?
    ensures var saves := Call(s, op, setup, env, later).saves;
            saves != [] && saves[0].id in s.rows ==> AllMay(op, s.rows[saves[0].id], saves)
  {
    if op.id in s.rows {
      var row := s.rows[op.id];
      RowCallLawful(row, op, PriorIfRead(s, row, env), setup.metrics, env);
      RowMoves(row, op, PriorIfRead(s, row, env), setup.metrics, env);
    }
  }

  // ---------- every run ----------

  /** The call takes row id out of the phase it is in, and may. */
  ghost predicate Takes(s: Store, x: Input, setup: Setup, id: nat, from: Phase) {
    && id in s.rows && s.rows[id].phase == from
    && id in Next(s, x, setup).rows && Next(s, x, setup).rows[id].phase != from
    && MayMove(x.op, id, s.rows[id].ref, from, Next(s, x, setup).rows[id].phase)
  }

  lemma NextTakes(s: Store, x: Input, setup: Setup, id: nat)
    requires Inv(s) && id in s.rows
    ensures id in Next(s, x, setup).rows
    ensures Next(s, x, setup).rows[id].phase != s.rows[id].phase ==> Takes(s, x, setup, id, s.rows[id].phase)
  {
    var all := Call(s, x.op, setup, x.env, x.later).saves;
    var saves := Kept(all, x.kept);
    CallLegal(s, x.op, setup, x.env, x.later);
    CallMoves(s, x.op, setup, x.env, x.later);
    SaveAllRows(s, saves, setup.policy);
    if saves != [] && saves[0].id == id {
      assert saves[|saves| - 1] == all[|saves| - 1];
    }
  }

  /** Over every run, with crashes: a row that left a phase was taken out of it by a call that may do so. */
  lemma PhaseIsLeftByRight(s: Store, xs: seq<Input>, setup: Setup, id: nat)
    requires Inv(s) && id in s.rows && id in Exec(s, xs, setup).rows
    requires Exec(s, xs, setup).rows[id].phase != s.rows[id].phase
    ensures exists k :: 0 <= k < |xs| && Takes(Exec(s, xs[..k], setup), xs[k], setup, id, s.rows[id].phase)
  {
    var k := TakingCall(s, xs, setup, id);
  }

  lemma {:induction false} TakingCall(s: Store, xs: seq<Input>, setup: Setup, id: nat) returns (k: nat)
    requires Inv(s) && id in s.rows && id in Exec(s, xs, setup).rows
    requires Exec(s, xs, setup).rows[id].phase != s.rows[id].phase
    ensures k < |xs| && Takes(Exec(s, xs[..k], setup), xs[k], setup, id, s.rows[id].phase)
    decreases |xs|
  {
    NextKeeps(s, xs[0], setup);
    NextTakes(s, xs[0], setup, id);
    if Next(s, xs[0], setup).rows[id].phase != s.rows[id].phase {
      k := 0;
    } else {
      var j := TakingCall(Next(s, xs[0], setup), xs[1..], setup, id);
      k := j + 1;
      ExecFront(s, xs, setup, j);
    }
  }

  /** A row stops waiting for approval only by an approval, a rejection, a gate run by hand or a rollback. */
  lemma WaitingRowWaits(s: Store, xs: seq<Input>, setup: Setup, id: nat)
    requires Inv(s) && id in s.rows && s.rows[id].phase == AwaitingApproval
    ensures id in Exec(s, xs, setup).rows
    ensures var p := Exec(s, xs, setup).rows[id].phase; p != Deploying && p != Paused
    ensures Exec(s, xs, setup).rows[id].phase != AwaitingApproval ==>
              exists k :: 0 <= k < |xs| && var op := xs[k].op;
                          (On(op, id) && (op.OpApprove? || op.OpReject? || op.OpVerify?)) || RollsBack(op, s.rows[id].ref)
  {
    RunKeeps(s, xs, setup);
    if Exec(s, xs, setup).rows[id].phase != AwaitingApproval {
      PhaseIsLeftByRight(s, xs, setup, id);
      var k :| 0 <= k < |xs| && Takes(Exec(s, xs[..k], setup), xs[k], setup, id, AwaitingApproval);
      RunKeeps(s, xs[..k], setup);
      assert Evolves(s.rows[id], Exec(s, xs[..k], setup).rows[id]);
    }
  }

  /**
   * A row that was created by a call that needs approval, an Apply or a reconcile, is never deploying
   * or paused, by any run; and it stops waiting only by an approval, a rejection, a gate run by hand
   * or a rollback.
   */
  lemma GatedRowWaits(s: Store, x: Input, xs: seq<Input>, setup: Setup)
    requires Inv(s) && Creates(x.op) && x.env.gated && x.op.id !in s.rows && x.op.id in Next(s, x, setup).rows
    ensures Next(s, x, setup).rows[x.op.id].phase == AwaitingApproval
    ensures x.op.id in Exec(Next(s, x, setup), xs, setup).rows
    ensures var p := Exec(Next(s, x, setup), xs, setup).rows[x.op.id].phase;
            && p != Deploying && p != Paused
            && (p != AwaitingApproval ==>
                  exists k :: 0 <= k < |xs| && var op := xs[k].op;
                              (On(op, x.op.id) && (op.OpApprove? || op.OpReject? || op.OpVerify?)) || RollsBack(op, x.op.cfg.ref))
  {
    GatedRowStarts(s, x, setup);
    NextKeeps(s, x, setup);
    WaitingRowWaits(Next(s, x, setup), xs, setup, x.op.id);
  }

  lemma GatedRowStarts(s: Store, x: Input, setup: Setup)
    requires Inv(s) && Creates(x.op) && x.env.gated && x.op.id !in s.rows && x.op.id in Next(s, x, setup).rows
    ensures Next(s, x, setup).rows[x.op.id].phase == AwaitingApproval && Next(s, x, setup).rows[x.op.id].ref == x.op.cfg.ref
  {
    var all := Call(s, x.op, setup, x.env, x.later).saves;
    var saves := Kept(all, x.kept);
    CallLegal(s, x.op, setup, x.env, x.later);
    SaveAllRows(s, saves, setup.policy);
    GatedApplyHalts(s, x.op.cfg, x.op.id, x.env);
    if x.op.OpReconcile? {
      ReconcileCreates(s, x.op.cfg, x.op.id, setup, x.env, x.later);
      var a := Apply(s, x.op.cfg, x.op.id, x.env);
      if a.ok { WaitingIsNotGated(s, a, x.op.id, x.op.cfg, setup, x.later); }
    }
  }

  /** A paused row stays paused until it is resumed, aborted, gated by hand or rolled back. */
  lemma PausedRowWaits(s: Store, xs: seq<Input>, setup: Setup, id: nat)
    requires Inv(s) && id in s.rows && s.rows[id].phase == Paused
    ensures id in Exec(s, xs, setup).rows
    ensures Exec(s, xs, setup).rows[id].phase != Paused ==>
              exists k :: 0 <= k < |xs| && var op := xs[k].op;
                          (On(op, id) && (op.OpResume? || op.OpAbort? || op.OpVerify?)) || RollsBack(op, s.rows[id].ref)
  {
    RunKeeps(s, xs, setup);
    if Exec(s, xs, setup).rows[id].phase != Paused {
      PhaseIsLeftByRight(s, xs, setup, id);
      var k :| 0 <= k < |xs| && Takes(Exec(s, xs[..k], setup), xs[k], setup, id, Paused);
      RunKeeps(s, xs[..k], setup);
      assert Evolves(s.rows[id], Exec(s, xs[..k], setup).rows[id]);
    }
  }
}
