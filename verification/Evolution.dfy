/** What every save of every operation keeps of the row it writes. */
module Evolution {
  import opened Rollout
  import opened Progressive
  import opened StepOps

  /** The only ways a row changes after it was created. */
  predicate Evolves(a: Row, b: Row) {
    && b.id == a.id && b.ref == a.ref
    && b.settings == a.settings
    && (b.phase.InFlight() ==> a.phase.InFlight())
    && (a.phase.RolledBack? ==> b == a)
    && (a.phase.Promoted? ==> b.phase.Promoted? || b.phase.RolledBack?)
    && (a.blocked != "" ==> b.blocked == a.blocked)
    && (b.desired != a.desired ==> b.phase.RolledBack?)
  }

  /**
   * No persisted machine has a failed step, and its place agrees with the row's phase: an
   * in-flight canary is always on a step (or held on one), never half way to an abort.
   */
  predicate SnapOk(r: Row) {
    r.snap.Usable() ==>
      && !r.snap.machine.failed
      && (r.phase.Deploying? ==> r.snap.machine.place.OnStep?)
      && (r.phase.Paused? ==> r.snap.machine.place.OnHold?)
  }

  /** How many steps a canary has behind it. */
  function Reached(snap: Snapshot): nat
    requires snap.Usable()
  {
    if snap.machine.place.Complete? then |snap.plan.steps| else snap.machine.cursor
  }

  /**
   * A persisted canary stays on its plan, never moves back, and moves forward only by letting
   * the pauses of the steps it leaves behind elapse.
   */
  ghost predicate Earns(a: Snapshot, b: Snapshot, env: Env) {
    b.Usable() ==>
      && a.Usable() && b.plan == a.plan && Reached(a) <= Reached(b)
      && (Timed(env) && a.enteredAt <= env.clock(0) ==>
            a.enteredAt + Bake(a.plan, Reached(b)) - Bake(a.plan, Reached(a)) <= b.enteredAt
            && (b.enteredAt == a.enteredAt || b.enteredAt <= env.end))
  }

  ghost predicate AllEarn(base: Row, saves: seq<Row>, env: Env) {
    forall k | 0 <= k < |saves| ::
      && Earns(base.snap, saves[k].snap, env)
      && (saves[k].phase.InFlight() && !saves[k].snap.Usable() ==> !base.snap.Usable())
  }

  predicate Lawful(base: Row, saves: seq<Row>) {
    forall k | 0 <= k < |saves| :: Evolves(base, saves[k]) && SnapOk(saves[k])
  }

  // Only the step progress differs.
  predicate SameButMarks(a: Row, b: Row) {
    b == a.(progress := b.progress)
  }

  predicate AllSameButMarks(a: Row, rows: seq<Row>) {
    forall k | 0 <= k < |rows| :: SameButMarks(a, rows[k])
  }

  /** Driving keeps the row apart from its marks, and stops on a healthy step or at completion. */
  lemma {:induction false} DriveLoopShape(row: Row, plan: Plan, m: Machine, enteredAt: int, env: Env)
    requires m.cursor < |plan.steps| && m.place.OnStep? && !m.failed
    ensures
      var d := DriveLoop(row, plan, m, enteredAt, env);
      && SameButMarks(row, d.row) && AllSameButMarks(row, d.saves)
      && (d.Stopped? ==> m.cursor <= d.machine.cursor < |plan.steps| && !d.machine.failed
                         && (d.machine.place.OnStep? || d.machine.place.Complete?))
    decreases |plan.steps| - m.cursor
  {
    var i := m.cursor;
    var d := DriveLoop(row, plan, m, enteredAt, env);
    if Baking(plan, i, enteredAt, env.clock(2 * i + 1)) { return; }
    var m' := Stepped(plan, m, env);
    if m'.place.OnStep? && !m'.failed && m'.cursor != i {
      var (row', saves, marks, routed) := MarkStep(row, plan, m'.cursor, env);
      assert SameButMarks(row, row') && AllSameButMarks(row, saves);
      if routed {
        var rest := DriveLoop(row', plan, m', env.clock(2 * i + 2), env);
        DriveLoopShape(row', plan, m', env.clock(2 * i + 2), env);
        assert d == Before(saves, marks, rest);
        assert AllSameButMarks(row, saves + rest.saves);
      }
    }
  }

  // A drive from step `from`, entered at t, that stopped has paid for the steps it left.
  predicate Paid(plan: Plan, from: nat, t: int, d: Drive, end: int)
    requires from <= |plan.steps|
  {
    d.Stopped? && d.machine.cursor < |plan.steps| ==>
      && t + Bake(plan, Reached(Saved(plan, d.machine, 0))) - Bake(plan, from) <= d.enteredAt
      && (d.enteredAt == t || d.enteredAt <= end)
  }

  /** The time of the last step entered covers every pause left behind. */
  lemma {:induction false} DriveLoopEarns(row: Row, plan: Plan, m: Machine, enteredAt: int, env: Env)
    requires m.cursor < |plan.steps| && m.place.OnStep? && !m.failed
    requires Timed(env) && enteredAt <= env.clock(2 * m.cursor + 1)
    ensures Paid(plan, m.cursor, enteredAt, DriveLoop(row, plan, m, enteredAt, env), env.end)
    decreases |plan.steps| - m.cursor
  {
    var i := m.cursor;
    var d := DriveLoop(row, plan, m, enteredAt, env);
    if Baking(plan, i, enteredAt, env.clock(2 * i + 1)) { return; }
    var now := env.clock(2 * i + 2);
    assert env.clock(2 * i + 1) <= now <= env.clock(2 * (i + 1) + 1);
    assert enteredAt + Bake(plan, i + 1) - Bake(plan, i) <= now <= env.end;
    var m' := Stepped(plan, m, env);
    if m'.place.OnStep? && !m'.failed && m'.cursor != i {
      var (row', saves, marks, routed) := MarkStep(row, plan, m'.cursor, env);
      if routed {
        var rest := DriveLoop(row', plan, m', now, env);
        DriveLoopEarns(row', plan, m', now, env);
        assert d == Before(saves, marks, rest);
      }
    }
  }

  lemma FailEarns(base: Row, row: Row, cfg: Config, prior: Option<Manifest>, env: Env)
    requires SameButMarks(base, row)
    ensures AllEarn(base, FailProgressive(row, cfg, prior, env).saves, env)
  {
  }

  lemma DriveEarns(row: Row, cfg: Config, prior: Option<Manifest>, env: Env)
    requires row.phase.Deploying? && SnapOk(row) && row.snap.Usable()
    ensures
      var Saved(plan, m, enteredAt) := row.snap;
      AllEarn(row, DriveStepper(row, plan, m, enteredAt, cfg, prior, env).saves, env)
  {
    var Saved(plan, m, enteredAt) := row.snap;
    var (row', saves, marks, routed) := MarkStep(row, plan, m.cursor, env);
    if !routed {
      FailEarns(row, row', cfg, prior, env);
    } else {
      var d := DriveLoop(row', plan, m, enteredAt, env);
      DriveLoopShape(row', plan, m, enteredAt, env);
      if d.Failed? {
        FailEarns(row, d.row, cfg, prior, env);
      } else {
        if Timed(env) && enteredAt <= env.clock(0) {
          assert env.clock(0) <= env.clock(2 * m.cursor + 1);
          DriveLoopEarns(row', plan, m, enteredAt, env);
        }
        assert Earns(row.snap, Saved(plan, d.machine, d.enteredAt), env);
      }
    }
  }

  lemma TickEarns(row: Row, cfg: Config, prior: Option<Manifest>, env: Env)
    requires SnapOk(row)
    ensures AllEarn(row, Tick(row, cfg, prior, env).saves, env)
  {
    if row.phase.Deploying? && row.snap.Usable() {
      FailEarns(row, row, cfg, prior, env);
      DriveEarns(row, cfg, prior, env);
    }
  }

  lemma FailLawful(base: Row, row: Row, cfg: Config, prior: Option<Manifest>, env: Env)
    requires base.phase.Deploying? && SameButMarks(base, row) && SnapOk(base)
    ensures Lawful(base, FailProgressive(row, cfg, prior, env).saves)
  {
  }

  lemma FinishLawful(base: Row, d: Drive, plan: Plan, cfg: Config, prior: Option<Manifest>, env: Env)
    requires base.phase.Deploying? && SnapOk(base)
    requires SameButMarks(base, d.row) && AllSameButMarks(base, d.saves)
    requires d.Stopped? ==> !d.machine.failed && (d.machine.place.OnStep? || d.machine.place.Complete?)
    ensures Lawful(base, Finish(d, plan, cfg, prior, env).saves)
  {
    FailLawful(base, d.row, cfg, prior, env);
  }

  lemma DriveLawful(row: Row, plan: Plan, m: Machine, enteredAt: int, cfg: Config, prior: Option<Manifest>, env: Env)
    requires m.cursor < |plan.steps| && (m.place.Aborted? || (m.place.OnStep? && !m.failed))
    requires row.phase.Deploying? && SnapOk(row)
    ensures Lawful(row, DriveStepper(row, plan, m, enteredAt, cfg, prior, env).saves)
  {
    if m.place.Aborted? {
      FailLawful(row, row, cfg, prior, env);
    } else {
      var (row', saves, _, routed) := MarkStep(row, plan, m.cursor, env);
      if !routed {
        FailLawful(row, row', cfg, prior, env);
      } else {
        DriveLoopShape(row', plan, m, enteredAt, env);
        FinishLawful(row, DriveLoop(row', plan, m, enteredAt, env), plan, cfg, prior, env);
      }
    }
  }

  lemma StartLawful(row: Row, cfg: Config, prior: Option<Manifest>, env: Env)
    requires row.phase.Deploying? && SnapOk(row)
    ensures Lawful(row, StartStepper(row, cfg, prior, env).saves)
  {
    DriveLawful(row, PlanFor(cfg.strategy), Enter(0, env.health(0), true), env.clock(0), cfg, prior, env);
  }

  lemma TickLawful(row: Row, cfg: Config, prior: Option<Manifest>, env: Env)
    requires SnapOk(row)
    ensures Lawful(row, Tick(row, cfg, prior, env).saves)
  {
    if row.phase.Deploying? && row.snap.Usable() {
      FailLawful(row, row, cfg, prior, env);
      DriveLawful(row, row.snap.plan, row.snap.machine, row.snap.enteredAt, cfg, prior, env);
    }
  }

  lemma TickDeploysNothing(row: Row, cfg: Config, prior: Option<Manifest>, env: Env)
    ensures Tick(row, cfg, prior, env).deployed == []
  {
  }

  lemma ControlLawful(row: Row, prior: Option<Manifest>, env: Env)
    requires SnapOk(row)
    ensures Lawful(row, Pause(row, env).saves) && Lawful(row, Resume(row, env).saves)
    ensures Lawful(row, Abort(row, prior, env).saves)
    ensures AllEarn(row, Pause(row, env).saves, env) && AllEarn(row, Abort(row, prior, env).saves, env)
    ensures AllEarn(row, Resume(row, env).saves, env)
  {
  }

  // A settling save leaves the canary as it was and occupies nothing.
  predicate Settles(row: Row, saves: seq<Row>) {
    forall k | 0 <= k < |saves| :: saves[k].snap == row.snap && !saves[k].phase.InFlight()
  }

  lemma ApprovalLawful(row: Row, force: bool, metrics: bool, env: Env)
    requires SnapOk(row)
    ensures Lawful(row, Approve(row, env).saves) && Lawful(row, Reject(row).saves)
    ensures Lawful(row, Promote(row, force, metrics, env).saves)
    ensures Settles(row, Approve(row, env).saves) && Settles(row, Reject(row).saves)
    ensures Settles(row, Promote(row, force, metrics, env).saves)
  {
  }

  lemma RollbackToLawful(row: Row, prior: Manifest, force: bool, env: Env)
    requires SnapOk(row)
    ensures Lawful(row, RollbackTo(row, prior, force, env).saves)
    ensures Settles(row, RollbackTo(row, prior, force, env).saves)
  {
  }

  lemma VerifyLawful(row: Row, prior: Manifest, cfg: Config, metrics: bool, env: Env)
    requires SnapOk(row)
    ensures Lawful(row, VerifyOrRollback(row, prior, cfg, metrics, env).saves)
    ensures Settles(row, VerifyOrRollback(row, prior, cfg, metrics, env).saves)
  {
  }
}
