/** The ticked canary: it never wedges, never shortens a bake, and matches the straight-line executor. */
module Canary {
  import opened Rollout
  import opened Progressive
  import opened StepOps
  import opened Engine
  import opened Evolution
  import opened Runs

  // ---------- no wedge ----------

  /** How many due ticks a row can still take. */
  function Left(r: Row): nat {
    if !r.phase.InFlight() then 0
    else if !r.snap.Usable() then 1
    else |r.snap.plan.steps| - r.snap.machine.cursor
  }

  /** The engine can reach the target and the current step's pause has elapsed. */
  predicate Due(r: Row, cfg: Config, env: Env) {
    && r.phase.Deploying? && cfg.ref == r.ref && env.free && env.ready
    && (r.snap.Usable() ==>
          var pause := r.snap.plan.steps[r.snap.machine.cursor].pause;
          pause >= 0 && (pause == 0 || env.clock(0) - r.snap.enteredAt >= pause))
  }

  lemma FailSettles(row: Row, cfg: Config, prior: Option<Manifest>, env: Env)
    ensures var saves := FailProgressive(row, cfg, prior, env).saves;
            saves != [] && forall r <- saves :: r.phase.RolledBack? && r.snap == row.snap
  {
  }

  lemma DueLoopMoves(row: Row, plan: Plan, m: Machine, enteredAt: int, env: Env)
    requires m.cursor < |plan.steps| && m.place.OnStep? && !m.failed && plan.steps[m.cursor].pause >= 0
    requires !Baking(plan, m.cursor, enteredAt, env.clock(2 * m.cursor + 1))
    ensures var d := DriveLoop(row, plan, m, enteredAt, env);
            d.Stopped? ==> d.machine.place.Complete? || d.machine.cursor > m.cursor
  {
    var m' := Stepped(plan, m, env);
    if m'.place.OnStep? && !m'.failed {
      var (row', _, _, routed) := MarkStep(row, plan, m'.cursor, env);
      if routed { DriveLoopShape(row', plan, m', env.clock(2 * m.cursor + 2), env); }
    }
  }

  /**
   * Every due tick moves the cursor on, completes the canary, or settles the row; a row without a
   * usable snapshot leaves deploying at once.
   */
  lemma DueTickAdvances(row: Row, cfg: Config, prior: Option<Manifest>, env: Env)
    requires SnapOk(row) && Timed(env) && Due(row, cfg, env)
    ensures var saves := Tick(row, cfg, prior, env).saves;
            saves != [] && Left(saves[|saves| - 1]) < Left(row)
  {
    if row.snap.Usable() {
      var Saved(plan, m, enteredAt) := row.snap;
      assert env.clock(0) <= env.clock(2 * m.cursor + 1);
      DueDriveAdvances(row, plan, m, enteredAt, cfg, prior, env);
    }
  }

  lemma DueDriveAdvances(row: Row, plan: Plan, m: Machine, enteredAt: int, cfg: Config, prior: Option<Manifest>, env: Env)
    requires m.cursor < |plan.steps| && m.place.OnStep? && !m.failed && plan.steps[m.cursor].pause >= 0
    requires !Baking(plan, m.cursor, enteredAt, env.clock(2 * m.cursor + 1))
    ensures var saves := DriveStepper(row, plan, m, enteredAt, cfg, prior, env).saves;
            saves != [] && Left(saves[|saves| - 1]) < |plan.steps| - m.cursor
  {
    var (row', first, marks, routed) := MarkStep(row, plan, m.cursor, env);
    if !routed {
      FailSettles(row', cfg, prior, env);
    } else {
      var d := DriveLoop(row', plan, m, enteredAt, env);
      DriveLoopShape(row', plan, m, enteredAt, env);
      DueLoopMoves(row', plan, m, enteredAt, env);
      FinishAdvances(d, plan, m.cursor, cfg, prior, env);
    }
  }

  lemma FinishAdvances(d: Drive, plan: Plan, from: nat, cfg: Config, prior: Option<Manifest>, env: Env)
    requires from < |plan.steps|
    requires d.Stopped? ==> from <= d.machine.cursor < |plan.steps| && (d.machine.place.OnStep? || d.machine.place.Complete?)
                            && (d.machine.place.Complete? || d.machine.cursor > from)
    ensures var saves := Finish(d, plan, cfg, prior, env).saves;
            saves != [] && Left(saves[|saves| - 1]) < |plan.steps| - from
  {
    FailSettles(d.row, cfg, prior, env);
  }

  /** A step with a negative pause is never left: its ticks write the same row again. */
  lemma NegativePauseWedges(row: Row, cfg: Config, prior: Option<Manifest>, env: Env)
    requires row.phase.Deploying? && row.snap.Usable() && SnapOk(row)
    requires row.snap.plan.steps[row.snap.machine.cursor].pause < 0
    requires AlreadyMarked(row, row.snap.plan, row.snap.machine.cursor)
    ensures forall k | 0 <= k < |Tick(row, cfg, prior, env).saves| :: Tick(row, cfg, prior, env).saves[k] == row
  {
  }

  lemma LeftShrinks(a: Row, b: Row, env: Env)
    requires Evolves(a, b) && SnapOk(b) && AllEarn(a, [b], env) && SnapOk(a)
    ensures Left(b) <= Left(a)
  {
    assert [b][0] == b;
  }

  lemma NextLeft(s: Store, x: Input, setup: Setup, id: nat)
    requires Inv(s) && id in s.rows
    ensures id in Next(s, x, setup).rows
    ensures Next(s, x, setup).rows[id] == s.rows[id] ||
            (Earns(s.rows[id].snap, Next(s, x, setup).rows[id].snap, x.env)
             && Left(Next(s, x, setup).rows[id]) <= Left(s.rows[id]))
  {
    CallLegal(s, x.op, setup, x.env, x.later);
    var saves := Kept(Call(s, x.op, setup, x.env, x.later).saves, x.kept);
    SaveAllRows(s, saves, setup.policy);
    if saves != [] && saves[0].id == id {
      var b := saves[|saves| - 1];
      assert Evolves(s.rows[id], b) && Earns(s.rows[id].snap, b.snap, x.env);
      LeftShrinks(s.rows[id], b, x.env);
    }
  }

  // The call ticks the row: it is a tick, or a reconcile that finds the row in flight.
  predicate Ticks(s: Store, x: Input, id: nat) {
    id in s.rows && ((x.op.OpTick? && x.op.id == id)
                     || (x.op.OpReconcile? && x.env.lists && InFlight(s, x.op.cfg.ref) == Some(s.rows[id])))
  }

  // It finds the row due, and the process does not die before the tick is saved.
  ghost predicate DueTick(s: Store, x: Input, id: nat) {
    && Ticks(s, x, id) && Timed(x.env) && Due(s.rows[id], x.op.cfg, x.env)
    && x.kept >= |Tick(s.rows[id], x.op.cfg, PriorIfRead(s, s.rows[id], x.env), x.env).saves|
  }

  /** A reconcile of a row in flight saves what its tick saves, and then only what settles the row. */
  lemma ReconcileTicks(s: Store, cfg: Config, spare: nat, setup: Setup, env: Env, later: Env, row: Row)
    requires Inv(s) && env.lists && InFlight(s, cfg.ref) == Some(row)
    ensures var first, all := Tick(row, cfg, PriorIfRead(s, row, env), env).saves, Reconcile(s, cfg, spare, setup, env, later).saves;
            first <= all && forall k | |first| <= k < |all| :: !all[k].phase.InFlight()
  {
    InFlightTickLegal(s, cfg, setup, env);
    var t := Tick(row, cfg, PriorIfRead(s, row, env), env);
    SaveAllRows(s, t.saves, setup.policy);
    var s' := SaveAll(s, t.saves, setup.policy);
    FinalizeLawful(s', s'.rows[row.id], cfg, setup.metrics, later);
  }

  lemma DueTickShrinks(s: Store, x: Input, setup: Setup, id: nat)
    requires Inv(s) && DueTick(s, x, id)
    ensures id in Next(s, x, setup).rows && Left(Next(s, x, setup).rows[id]) < Left(s.rows[id])
  {
    var row := s.rows[id];
    var prior := PriorIfRead(s, row, x.env);
    var first := Tick(row, x.op.cfg, prior, x.env).saves;
    var all := Call(s, x.op, setup, x.env, x.later).saves;
    DueTickAdvances(row, x.op.cfg, prior, x.env);
    TickLawful(row, x.op.cfg, prior, x.env);
    if x.op.OpReconcile? { ReconcileTicks(s, x.op.cfg, x.op.id, setup, x.env, x.later, row); }
    assert first <= all && forall k | |first| <= k < |all| :: !all[k].phase.InFlight();
    CallLegal(s, x.op, setup, x.env, x.later);
    LastKept(s, first, all, x.kept, setup.policy, id);
  }

  // The row ends as the tick leaves it, or settled.
  lemma LastKept(s: Store, first: seq<Row>, all: seq<Row>, n: nat, policy: Policy, id: nat)
    requires Valid(s) && first != [] && first <= all && SameId(all) && first[0].id == id && n >= |first|
    requires forall k | |first| <= k < |all| :: !all[k].phase.InFlight()
    ensures var t := SaveAll(s, Kept(all, n), policy);
            id in t.rows && (t.rows[id] == first[|first| - 1] || !t.rows[id].phase.InFlight())
  {
    var some := Kept(all, n);
    var k := |some| - 1;
    assert |first| - 1 <= k && some[k] == all[k] && (k < |first| ==> all[k] == first[k]);
    SaveAllRows(s, some, policy);
  }

  ghost function DueTicks(s: Store, xs: seq<Input>, setup: Setup, id: nat): nat
    decreases |xs|
  {
    if xs == [] then 0
    else (if DueTick(s, xs[0], id) then 1 else 0) + DueTicks(Next(s, xs[0], setup), xs[1..], setup, id)
  }

  /**
   * Over every run, with crashes, pauses and operator calls in between, a row is found due at most
   * Left times, by ticks and by reconciles together.
   */
  lemma {:induction false} DeployingIsBounded(s: Store, xs: seq<Input>, setup: Setup, id: nat)
    requires Inv(s) && id in s.rows
    ensures DueTicks(s, xs, setup, id) <= Left(s.rows[id])
    decreases |xs|
  {
    if xs != [] {
      var x := xs[0];
      NextKeeps(s, x, setup);
      NextLeft(s, x, setup, id);
      DeployingIsBounded(Next(s, x, setup), xs[1..], setup, id);
      if DueTick(s, x, id) { DueTickShrinks(s, x, setup, id); }
    }
  }

  // ---------- bake time ----------

  /** The calls of a run happen one after the other on a clock that never goes back. */
  ghost predicate Chronological(xs: seq<Input>, from: int) {
    xs != [] ==> Timed(xs[0].env) && from <= xs[0].env.clock(0) && Chronological(xs[1..], xs[0].env.end)
  }

  ghost function Until(xs: seq<Input>, from: int): int {
    if xs == [] then from else Until(xs[1..], xs[0].env.end)
  }

  // The canary runs plan, and since `start` every pause behind it has elapsed.
  predicate Baked(snap: Snapshot, plan: Plan, start: int, now: int) {
    snap.Usable() ==>
      snap.plan == plan && start + Bake(plan, Reached(snap)) <= snap.enteredAt <= now
  }

  lemma {:induction false} BakeKept(s: Store, xs: seq<Input>, setup: Setup, id: nat, plan: Plan, start: int, now: int)
    requires Inv(s) && id in s.rows && Baked(s.rows[id].snap, plan, start, now) && Chronological(xs, now)
    ensures id in Exec(s, xs, setup).rows && Baked(Exec(s, xs, setup).rows[id].snap, plan, start, Until(xs, now))
    decreases |xs|
  {
    if xs != [] {
      var x := xs[0];
      assert x.env.clock(0) <= x.env.end;
      NextKeeps(s, x, setup);
      NextLeft(s, x, setup, id);
      BakeKept(Next(s, x, setup), xs[1..], setup, id, plan, start, x.env.end);
    }
  }

  predicate AllBaked(rows: seq<Row>, plan: Plan, env: Env) {
    forall k | 0 <= k < |rows| :: Baked(rows[k].snap, plan, env.clock(0), env.end)
  }

  lemma FinishBaked(d: Drive, plan: Plan, cfg: Config, prior: Option<Manifest>, env: Env)
    requires d.row.snap.NoSnapshot? && (forall k | 0 <= k < |d.saves| :: d.saves[k].snap.NoSnapshot?)
    requires d.Stopped? ==> Baked(Saved(plan, d.machine, d.enteredAt), plan, env.clock(0), env.end)
    ensures AllBaked(Finish(d, plan, cfg, prior, env).saves, plan, env)
  {
    FailSettles(d.row, cfg, prior, env);
  }

  lemma StartBaked(row: Row, cfg: Config, prior: Option<Manifest>, env: Env)
    requires row.snap.NoSnapshot? && row.phase.Deploying? && Timed(env)
    ensures AllBaked(StartStepper(row, cfg, prior, env).saves, PlanFor(cfg.strategy), env)
  {
    var plan := PlanFor(cfg.strategy);
    var m := Enter(0, env.health(0), true);
    var (row', first, marks, routed) := MarkStep(row, plan, 0, env);
    FailSettles(row, cfg, prior, env);
    FailSettles(row', cfg, prior, env);
    if !m.place.Aborted? && routed {
      var d := DriveLoop(row', plan, m, env.clock(0), env);
      assert env.clock(0) <= env.clock(1) && env.clock(0) <= env.end;
      DriveLoopShape(row', plan, m, env.clock(0), env);
      DriveLoopEarns(row', plan, m, env.clock(0), env);
      FinishBaked(d, plan, cfg, prior, env);
    }
  }

  lemma ApplyBaked(s: Store, cfg: Config, id: nat, env: Env)
    requires Timed(env)
    ensures AllBaked(Apply(s, cfg, id, env).saves, PlanFor(cfg.strategy), env)
  {
    if Apply(s, cfg, id, env).saves != [] && !env.gated {
      var prior := Prior(s, cfg.ref, cfg.manifest.checksum);
      StartBaked(NewRow(id, cfg, prior, env), cfg, if env.legible then prior else None, env);
    }
  }

  /** So does the reconcile that applies: its gate leaves the canary as it finds it. */
  lemma CreationBaked(s: Store, op: Op, setup: Setup, env: Env, later: Env)
    requires Inv(s) && Creates(op) && Timed(env)
    requires var saves := Call(s, op, setup, env, later).saves; saves != [] && saves[0].id !in s.rows
    ensures AllBaked(Call(s, op, setup, env, later).saves, PlanFor(op.cfg.strategy), env)
  {
    ApplyBaked(s, op.cfg, op.id, env);
    if op.OpReconcile? {
      ReconcileCreates(s, op.cfg, op.id, setup, env, later);
      ApplyLegal(s, op.cfg, op.id, env);
      GateBaked(s, Apply(s, op.cfg, op.id, env), op.id, op.cfg, setup, env, later, PlanFor(op.cfg.strategy));
    }
  }

  lemma GateBaked(s: Store, a: Effect, id: nat, cfg: Config, setup: Setup, env: Env, later: Env, plan: Plan)
    requires Inv(s) && Legal(s, a.saves, env) && a.saves != [] && a.saves[0].id == id && AllBaked(a.saves, plan, env)
    ensures AllBaked(AndFinalize(s, a, id, cfg, setup, later).saves, plan, env)
  {
    SaveAllRows(s, a.saves, setup.policy);
    var row := SaveAll(s, a.saves, setup.policy).rows[id];
    assert row == a.saves[|a.saves| - 1];
    FinalizeLawful(SaveAll(s, a.saves, setup.policy), row, cfg, setup.metrics, later);
  }

  /**
   * A rollout that has completed its steps did so no earlier than the sum of all configured pauses
   * after the call that created it, an Apply or a reconcile, entered the first step: whatever was
   * paused, resumed or retried, and wherever the process died on the way.
   */
  lemma BakeIsNeverShortened(s: Store, x: Input, xs: seq<Input>, setup: Setup)
    requires Inv(s) && Creates(x.op) && x.op.id in Next(s, x, setup).rows && x.op.id !in s.rows && Chronological([x] + xs, x.env.clock(0))
    ensures
      var plan := PlanFor(x.op.cfg.strategy);
      var end := Exec(Next(s, x, setup), xs, setup);
      x.op.id in end.rows && end.rows[x.op.id].snap.Usable() && end.rows[x.op.id].snap.machine.place.Complete? ==>
        x.env.clock(0) + Bake(plan, |plan.steps|) <= end.rows[x.op.id].snap.enteredAt <= Until(xs, x.env.end)
  {
    var id, cfg := x.op.id, x.op.cfg;
    assert ([x] + xs)[1..] == xs;
    CreatedBaked(s, x, setup);
    NextKeeps(s, x, setup);
    BakeKept(Next(s, x, setup), xs, setup, id, PlanFor(cfg.strategy), x.env.clock(0), x.env.end);
  }

  lemma CreatedBaked(s: Store, x: Input, setup: Setup)
    requires Inv(s) && Creates(x.op) && x.op.id in Next(s, x, setup).rows && x.op.id !in s.rows && Timed(x.env)
    ensures Baked(Next(s, x, setup).rows[x.op.id].snap, PlanFor(x.op.cfg.strategy), x.env.clock(0), x.env.end)
  {
    var saves := Kept(Call(s, x.op, setup, x.env, x.later).saves, x.kept);
    CallLegal(s, x.op, setup, x.env, x.later);
    SaveAllRows(s, saves, setup.policy);
    CreationBaked(s, x.op, setup, x.env, x.later);
  }

  /**
   * A resume restarts the pause of the current step in full: over every run that follows, with
   * crashes, whatever the canary has reached it reached no earlier than all the pauses it left
   * behind, the current one included, after the resume.
   */
  lemma ResumeRestartsBake(s: Store, x: Input, xs: seq<Input>, setup: Setup)
    requires Inv(s) && x.op.OpResume? && x.op.id in s.rows && Chronological([x] + xs, x.env.clock(0))
    requires s.rows[x.op.id].phase.Paused?
    requires x.op.id in Next(s, x, setup).rows && Next(s, x, setup).rows[x.op.id].phase.Deploying?
    ensures s.rows[x.op.id].snap.Usable()
    ensures
      var plan, cursor := s.rows[x.op.id].snap.plan, s.rows[x.op.id].snap.machine.cursor;
      var end := Exec(Next(s, x, setup), xs, setup);
      && x.op.id in end.rows
      && (end.rows[x.op.id].snap.Usable() ==>
            && end.rows[x.op.id].snap.plan == plan && cursor <= Reached(end.rows[x.op.id].snap)
            && x.env.clock(0) + Bake(plan, Reached(end.rows[x.op.id].snap)) - Bake(plan, cursor)
               <= end.rows[x.op.id].snap.enteredAt <= Until(xs, x.env.end))
  {
    var id := x.op.id;
    var row := s.rows[id];
    var s1 := Next(s, x, setup);
    assert ([x] + xs)[1..] == xs;
    Resumed(s, x, setup);
    NextKeeps(s, x, setup);
    var start := x.env.clock(0) - Bake(row.snap.plan, row.snap.machine.cursor);
    assert x.env.clock(0) <= x.env.end;
    BakeKept(s1, xs, setup, id, row.snap.plan, start, x.env.end);
    ReachedGrows(s1, xs, setup, id);
  }

  // What a resume that took effect wrote.
  lemma Resumed(s: Store, x: Input, setup: Setup)
    requires Inv(s) && x.op.OpResume? && x.op.id in s.rows && s.rows[x.op.id].phase.Paused?
    requires x.op.id in Next(s, x, setup).rows && Next(s, x, setup).rows[x.op.id].phase.Deploying?
    ensures var row := s.rows[x.op.id];
            row.snap.Usable() && Next(s, x, setup).rows[x.op.id].snap
                                   == Saved(row.snap.plan, Machine(OnStep, row.snap.machine.cursor, false), x.env.clock(0))
  {
    var saves := Kept(Resume(s.rows[x.op.id], x.env).saves, x.kept);
    SaveAllRows(s, saves, setup.policy);
    assert SnapOk(s.rows[x.op.id]);
  }

  lemma {:induction false} ReachedGrows(s: Store, xs: seq<Input>, setup: Setup, id: nat)
    requires Inv(s) && id in s.rows
    ensures id in Exec(s, xs, setup).rows
    ensures var a, b := s.rows[id].snap, Exec(s, xs, setup).rows[id].snap;
            b.Usable() ==> a.Usable() && b.plan == a.plan && Reached(a) <= Reached(b)
    decreases |xs|
  {
    if xs != [] {
      NextKeeps(s, xs[0], setup);
      NextLeft(s, xs[0], setup, id);
      ReachedGrows(Next(s, xs[0], setup), xs[1..], setup, id);
    }
  }

  // Until that pause has elapsed a tick writes nothing or settles the row.
  lemma ResumedTickHolds(row: Row, at: Env, cfg: Config, prior: Option<Manifest>, env: Env)
    requires SnapOk(row) && Resume(row, at).saves != []
    requires 0 <= env.clock(0) - at.clock(0) < row.snap.plan.steps[row.snap.machine.cursor].pause
    ensures var r := Resume(row, at).saves[0];
            && r.snap.machine.cursor == row.snap.machine.cursor
            && forall r' <- Tick(r, cfg, prior, env).saves :: r'.phase.RolledBack?
  {
  }
}
