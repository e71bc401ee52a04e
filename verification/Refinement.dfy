/** The persisted, ticked canary reports and ends exactly as the straight-line executor. */
module Refinement {
  import opened Rollout
  import opened Progressive
  import opened StepOps
  import opened Engine
  import opened Evolution
  import opened Canary

  datatype Move = MoveTick(cfg: Config, prior: Option<Manifest>, env: Env) | MovePause(env: Env) | MoveResume(env: Env)

  function Moved(row: Row, x: Move): Effect {
    match x
    case MoveTick(cfg, prior, env) => Tick(row, cfg, prior, env)
    case MovePause(env) => Pause(row, env)
    case MoveResume(env) => Resume(row, env)
  }

  function After(row: Row, e: Effect): Row {
    if e.saves == [] then row else e.saves[|e.saves| - 1]
  }

  /** A row and the steps reported for it so far, after any number of completed calls. */
  function Play(row: Row, marks: seq<Mark>, xs: seq<Move>): (Row, seq<Mark>)
    decreases |xs|
  {
    if xs == [] then (row, marks)
    else
      var e := Moved(row, xs[0]);
      Play(After(row, e), marks + e.marks, xs[1..])
  }

  /** The target is as healthy at each step, and the router as willing, as the executor finds them. */
  ghost predicate Fixed(env: Env, health: nat -> bool, routes: nat -> bool) {
    forall i: nat :: env.health(i) == health(i) && env.routes(i) == routes(i)
  }

  // What is reported so far, followed by the executor's run of the steps still ahead, is its whole run.
  ghost predicate Agrees(row: Row, marks: seq<Mark>, plan: Plan, health: nat -> bool, routes: nat -> bool) {
    var whole := Straight(plan, 0, health, routes);
    if row.phase.InFlight() then
      && row.snap.Usable() && row.snap.plan == plan && SnapOk(row)
      && AlreadyMarked(row, plan, row.snap.machine.cursor) && health(row.snap.machine.cursor)
      && var rest := Straight(plan, row.snap.machine.cursor + 1, health, routes);
         whole == Trace(marks + rest.marks, rest.ok)
    else
      && (row.phase.Verifying? || row.phase.RolledBack?)
      && whole == Trace(marks, row.phase.Verifying?)
  }

  /** The drive reports the executor's marks of the steps it passes, and fails where the executor fails. */
  ghost predicate Covers(rest: Trace, d: Drive, plan: Plan, health: nat -> bool, routes: nat -> bool) {
    match d
    case Failed(_, _, marks) => rest == Trace(marks, false)
    case Stopped(row, _, marks, m, _) =>
      if m.place.Complete? then rest == Trace(marks, true)
      else
        && m.cursor < |plan.steps| && AlreadyMarked(row, plan, m.cursor) && health(m.cursor)
        && var ahead := Straight(plan, m.cursor + 1, health, routes);
           rest == Trace(marks + ahead.marks, ahead.ok)
  }

  lemma CoversBefore(rest: Trace, d: Drive, saves: seq<Row>, marks: seq<Mark>, plan: Plan, health: nat -> bool, routes: nat -> bool)
    requires Covers(rest, d, plan, health, routes)
    ensures Covers(Trace(marks + rest.marks, rest.ok), Before(saves, marks, d), plan, health, routes)
  {
    if d.Stopped? && !d.machine.place.Complete? {
      var ahead := Straight(plan, d.machine.cursor + 1, health, routes);
      assert marks + (d.marks + ahead.marks) == (marks + d.marks) + ahead.marks;
    }
  }

  lemma {:induction false} DriveLoopCovers(row: Row, plan: Plan, m: Machine, enteredAt: int, env: Env, health: nat -> bool, routes: nat -> bool)
    requires m.cursor < |plan.steps| && m.place.OnStep? && !m.failed && NonNegative(plan) && Fixed(env, health, routes)
    requires AlreadyMarked(row, plan, m.cursor) && health(m.cursor)
    ensures Covers(Straight(plan, m.cursor + 1, health, routes), DriveLoop(row, plan, m, enteredAt, env), plan, health, routes)
    decreases |plan.steps| - m.cursor
  {
    var i := m.cursor;
    var d := DriveLoop(row, plan, m, enteredAt, env);
    if Baking(plan, i, enteredAt, env.clock(2 * i + 1)) { return; }
    var m' := Stepped(plan, m, env);
    if m'.place.OnStep? && !m'.failed {
      var (row', saves, marks, routed) := MarkStep(row, plan, m'.cursor, env);
      assert m'.cursor == i + 1 && marks == [MarkOf(plan, i + 1)];
      if routed {
        var rest := DriveLoop(row', plan, m', env.clock(2 * i + 2), env);
        DriveLoopCovers(row', plan, m', env.clock(2 * i + 2), env, health, routes);
        CoversBefore(Straight(plan, i + 2, health, routes), rest, saves, marks, plan, health, routes);
        assert d == Before(saves, marks, rest);
      }
    }
  }

  lemma FinishAgrees(d: Drive, row: Row, done: seq<Mark>, from: nat, plan: Plan, cfg: Config, prior: Option<Manifest>, env: Env,
                     health: nat -> bool, routes: nat -> bool)
    requires from <= |plan.steps| && Covers(Straight(plan, from, health, routes), d, plan, health, routes)
    requires var rest := Straight(plan, from, health, routes);
             Straight(plan, 0, health, routes) == Trace(done + rest.marks, rest.ok)
    requires row.phase.Deploying? && SameButMarks(row, d.row)
    requires d.Stopped? ==> d.machine.cursor < |plan.steps| && !d.machine.failed && (d.machine.place.OnStep? || d.machine.place.Complete?)
    ensures var e := Finish(d, plan, cfg, prior, env);
            e.saves != [] && Agrees(After(row, e), done + e.marks, plan, health, routes)
  {
    var e := Finish(d, plan, cfg, prior, env);
    match d
    case Failed(r, _, marks) =>
      FailSettles(r, cfg, prior, env);
      assert e.marks == marks;
    case Stopped(_, _, marks, m, _) =>
      if !m.place.Complete? {
        var ahead := Straight(plan, m.cursor + 1, health, routes);
        assert done + (marks + ahead.marks) == (done + marks) + ahead.marks;
      }
  }

  lemma AfterThen(row: Row, saves: seq<Row>, marks: seq<Mark>, e: Effect)
    requires e.saves != []
    ensures After(row, Then(saves, marks, e)) == After(row, e)
  {
  }

  /** Apply's part: the first step is gated, reported and routed, and then the steps that need no bake. */
  lemma StartAgrees(row: Row, cfg: Config, prior: Option<Manifest>, env: Env, health: nat -> bool, routes: nat -> bool)
    requires row.phase.Deploying? && row.progress.index == 0
    requires NonNegative(PlanFor(cfg.strategy)) && Fixed(env, health, routes)
    ensures var e := StartStepper(row, cfg, prior, env);
            Agrees(After(row, e), e.marks, PlanFor(cfg.strategy), health, routes)
  {
    var plan := PlanFor(cfg.strategy);
    var e := StartStepper(row, cfg, prior, env);
    var m := Enter(0, env.health(0), true);
    FailSettles(row, cfg, prior, env);
    if !m.place.Aborted? {
      var (row', saves, marks, routed) := MarkStep(row, plan, 0, env);
      FailSettles(row', cfg, prior, env);
      assert marks + [] == marks;
      if routed {
        var d := DriveLoop(row', plan, m, env.clock(0), env);
        DriveLoopCovers(row', plan, m, env.clock(0), env, health, routes);
        DriveLoopShape(row', plan, m, env.clock(0), env);
        FinishAgrees(d, row, marks, 1, plan, cfg, prior, env, health, routes);
        AfterThen(row, saves, marks, Finish(d, plan, cfg, prior, env));
      }
    }
  }

  lemma DriveAgrees(row: Row, done: seq<Mark>, plan: Plan, cfg: Config, prior: Option<Manifest>, env: Env,
                    health: nat -> bool, routes: nat -> bool)
    requires row.phase.Deploying? && Agrees(row, done, plan, health, routes) && NonNegative(plan) && Fixed(env, health, routes)
    ensures var e := DriveStepper(row, plan, row.snap.machine, row.snap.enteredAt, cfg, prior, env);
            Agrees(After(row, e), done + e.marks, plan, health, routes)
  {
    var Saved(_, m, enteredAt) := row.snap;
    var d := DriveLoop(row, plan, m, enteredAt, env);
    DriveLoopCovers(row, plan, m, enteredAt, env, health, routes);
    DriveLoopShape(row, plan, m, enteredAt, env);
    FinishAgrees(d, row, done, m.cursor + 1, plan, cfg, prior, env, health, routes);
    var f := Finish(d, plan, cfg, prior, env);
    assert [] + f.saves == f.saves && [] + f.marks == f.marks;
    assert DriveStepper(row, plan, m, enteredAt, cfg, prior, env) == f by {
      assert MarkStep(row, plan, m.cursor, env) == (row, [], [], true);
    }
  }

  lemma TickAgrees(row: Row, done: seq<Mark>, plan: Plan, cfg: Config, prior: Option<Manifest>, env: Env,
                   health: nat -> bool, routes: nat -> bool)
    requires Agrees(row, done, plan, health, routes) && NonNegative(plan) && Fixed(env, health, routes)
    ensures var e := Tick(row, cfg, prior, env); Agrees(After(row, e), done + e.marks, plan, health, routes)
  {
    assert done + [] == done;
    if row.phase.Deploying? {
      DriveAgrees(row, done, plan, cfg, prior, env, health, routes);
    }
  }

  lemma {:induction false} PlayAgrees(row: Row, done: seq<Mark>, xs: seq<Move>, plan: Plan, health: nat -> bool, routes: nat -> bool)
    requires Agrees(row, done, plan, health, routes) && NonNegative(plan)
    requires forall k | 0 <= k < |xs| :: Fixed(xs[k].env, health, routes)
    ensures var (r, marks) := Play(row, done, xs); Agrees(r, marks, plan, health, routes)
    decreases |xs|
  {
    if xs != [] {
      var e := Moved(row, xs[0]);
      if xs[0].MoveTick? {
        TickAgrees(row, done, plan, xs[0].cfg, xs[0].prior, xs[0].env, health, routes);
      } else {
        assert done + [] == done;
      }
      PlayAgrees(After(row, e), done + e.marks, xs[1..], plan, health, routes);
    }
  }

  // ---------- what the row shows ----------

  /** The row shows the step that was reported last. */
  predicate Shows(row: Row, marks: seq<Mark>) {
    marks != [] ==>
      var last := marks[|marks| - 1]; row.progress == Progress(last.step, last.total, last.weight)
  }

  lemma MarkShows(row: Row, done: seq<Mark>, plan: Plan, i: nat, env: Env)
    requires i < |plan.steps| && Shows(row, done)
    ensures var (row', saves, marks, routed) := MarkStep(row, plan, i, env); Shows(row', done + marks)
  {
    assert done + [] == done;
  }

  lemma BeforeShows(done: seq<Mark>, saves: seq<Row>, marks: seq<Mark>, d: Drive)
    requires Shows(d.row, (done + marks) + d.marks)
    ensures var b := Before(saves, marks, d); Shows(b.row, done + b.marks)
  {
    assert (done + marks) + d.marks == done + (marks + d.marks);
  }

  // A drive that reports nothing leaves what the row shows.
  lemma QuietShows(done: seq<Mark>, d: Drive, row: Row)
    requires Shows(row, done) && d.row == row && d.marks == []
    ensures Shows(d.row, done + d.marks)
  {
    assert done + [] == done;
  }

  lemma {:induction false} DriveLoopShows(row: Row, done: seq<Mark>, plan: Plan, m: Machine, enteredAt: int, env: Env)
    requires m.cursor < |plan.steps| && Shows(row, done)
    ensures var d := DriveLoop(row, plan, m, enteredAt, env); Shows(d.row, done + d.marks)
    decreases |plan.steps| - m.cursor
  {
    var i := m.cursor;
    var d := DriveLoop(row, plan, m, enteredAt, env);
    var m' := Stepped(plan, m, env);
    if m.place.Complete? || m.place.Aborted? || Baking(plan, i, enteredAt, env.clock(2 * i + 1))
       || m'.place.Aborted? || m'.failed || m'.place.Complete? || m'.cursor == i {
      QuietShows(done, d, row);
    } else {
      var (row', saves, marks, routed) := MarkStep(row, plan, m'.cursor, env);
      MarkShows(row, done, plan, m'.cursor, env);
      if routed {
        DriveLoopShows(row', done + marks, plan, m', env.clock(2 * i + 2), env);
        BeforeShows(done, saves, marks, DriveLoop(row', plan, m', env.clock(2 * i + 2), env));
      }
    }
  }

  lemma FailShows(row: Row, done: seq<Mark>, cfg: Config, prior: Option<Manifest>, env: Env)
    requires Shows(row, done)
    ensures var e := FailProgressive(row, cfg, prior, env); e.saves != [] && e.marks == [] && Shows(After(row, e), done)
  {
  }

  lemma FinishShows(row: Row, d: Drive, done: seq<Mark>, plan: Plan, cfg: Config, prior: Option<Manifest>, env: Env)
    requires Shows(d.row, done + d.marks)
    ensures var e := Finish(d, plan, cfg, prior, env);
            e.saves != [] && e.marks == d.marks && Shows(After(row, e), done + d.marks)
  {
    FailShows(d.row, done + d.marks, cfg, prior, env);
    assert d.marks + [] == d.marks;
  }

  lemma {:induction false} DriveShows(row: Row, done: seq<Mark>, plan: Plan, m: Machine, enteredAt: int, cfg: Config,
                                      prior: Option<Manifest>, env: Env)
    requires m.cursor < |plan.steps| && Shows(row, done)
    ensures var e := DriveStepper(row, plan, m, enteredAt, cfg, prior, env); Shows(After(row, e), done + e.marks)
  {
    if m.place.Aborted? {
      FailShows(row, done, cfg, prior, env);
      assert done + [] == done;
    } else {
      var (row', saves, marks, routed) := MarkStep(row, plan, m.cursor, env);
      MarkShows(row, done, plan, m.cursor, env);
      if routed {
        var d := DriveLoop(row', plan, m, enteredAt, env);
        DriveLoopShows(row', done + marks, plan, m, enteredAt, env);
        FinishShows(row, d, done + marks, plan, cfg, prior, env);
        ThenShows(row, done, saves, marks, Finish(d, plan, cfg, prior, env));
      } else {
        FailShows(row', done + marks, cfg, prior, env);
        assert (done + marks) + [] == done + marks;
        ThenShows(row, done, saves, marks, FailProgressive(row', cfg, prior, env));
      }
    }
  }

  lemma ThenShows(row: Row, done: seq<Mark>, saves: seq<Row>, marks: seq<Mark>, e: Effect)
    requires e.saves != [] && Shows(After(row, e), (done + marks) + e.marks)
    ensures Shows(After(row, Then(saves, marks, e)), done + Then(saves, marks, e).marks)
  {
    AfterThen(row, saves, marks, e);
    assert (done + marks) + e.marks == done + (marks + e.marks);
  }

  lemma {:induction false} PlayShows(row: Row, done: seq<Mark>, xs: seq<Move>)
    requires Shows(row, done)
    ensures var (r, marks) := Play(row, done, xs); Shows(r, marks)
    decreases |xs|
  {
    if xs != [] {
      var e := Moved(row, xs[0]);
      MoveShows(row, done, xs[0]);
      PlayShows(After(row, e), done + e.marks, xs[1..]);
    }
  }

  lemma {:induction false} MoveShows(row: Row, done: seq<Mark>, x: Move)
    requires Shows(row, done)
    ensures Shows(After(row, Moved(row, x)), done + Moved(row, x).marks)
  {
    assert done + [] == done;
    if x.MoveTick? { TickShows(row, done, x.cfg, x.prior, x.env); }
  }

  lemma {:induction false} TickShows(row: Row, done: seq<Mark>, cfg: Config, prior: Option<Manifest>, env: Env)
    requires Shows(row, done)
    ensures Shows(After(row, Tick(row, cfg, prior, env)), done + Tick(row, cfg, prior, env).marks)
  {
    assert done + [] == done;
    FailShows(row, done, cfg, prior, env);
    if row.phase.Deploying? && row.snap.Usable() {
      DriveShows(row, done, row.snap.plan, row.snap.machine, row.snap.enteredAt, cfg, prior, env);
    }
  }

  // ---------- the main result ----------

  /** What holds of a canary at any moment: what it reported, what it shows, and how it ends. */
  ghost predicate Straightly(r: Row, marks: seq<Mark>, plan: Plan, health: nat -> bool, routes: nat -> bool) {
    var whole := Straight(plan, 0, health, routes);
    && marks <= whole.marks && InStep(plan, 0, marks) && Shows(r, marks)
    && (r.phase.InFlight() || r.phase.Verifying? || r.phase.RolledBack?)
    && (!r.phase.InFlight() ==> marks == whole.marks && r.phase.Verifying? == whole.ok)
    && (r.phase.Verifying? ==> |marks| == |plan.steps| && marks != [] && marks[|marks| - 1].weight >= 100)
  }

  lemma AgreesStraightly(r: Row, marks: seq<Mark>, plan: Plan, health: nat -> bool, routes: nat -> bool)
    requires Agrees(r, marks, plan, health, routes) && Shows(r, marks)
    requires plan.steps != [] && plan.steps[|plan.steps| - 1].weight >= 100
    ensures Straightly(r, marks, plan, health, routes)
  {
    var whole := Straight(plan, 0, health, routes);
    StraightInStep(plan, 0, health, routes);
    assert marks <= whole.marks;
    forall k | 0 <= k < |marks|
      ensures marks[k].step == k + 1 && marks[k].total == |plan.steps| && marks[k].weight == plan.steps[k].weight
    {
      assert marks[k] == whole.marks[k];
    }
  }

  lemma {:induction false} StartAgreesAndShows(row: Row, cfg: Config, prior: Option<Manifest>, env: Env, health: nat -> bool, routes: nat -> bool)
    requires row.phase.Deploying? && row.progress.index == 0
    requires NonNegative(PlanFor(cfg.strategy)) && Fixed(env, health, routes)
    ensures var start := StartStepper(row, cfg, prior, env);
            Agrees(After(row, start), start.marks, PlanFor(cfg.strategy), health, routes) && Shows(After(row, start), start.marks)
  {
    var start := StartStepper(row, cfg, prior, env);
    StartAgrees(row, cfg, prior, env, health, routes);
    DriveShows(row, [], PlanFor(cfg.strategy), Enter(0, env.health(0), true), env.clock(0), cfg, prior, env);
    assert [] + start.marks == start.marks;
  }

  lemma {:induction false} PlayedIsStraight(row: Row, done: seq<Mark>, plan: Plan, xs: seq<Move>, health: nat -> bool, routes: nat -> bool)
    requires Agrees(row, done, plan, health, routes) && Shows(row, done) && NonNegative(plan)
    requires plan.steps != [] && plan.steps[|plan.steps| - 1].weight >= 100
    requires forall k | 0 <= k < |xs| :: Fixed(xs[k].env, health, routes)
    ensures var (r, marks) := Play(row, done, xs); Straightly(r, marks, plan, health, routes)
  {
    PlayAgrees(row, done, xs, plan, health, routes);
    PlayShows(row, done, xs);
    var (r, marks) := Play(row, done, xs);
    AgreesStraightly(r, marks, plan, health, routes);
  }

  // What an Apply that deploys leaves is what starting the canary on its new row leaves.
  lemma ApplyStarts(s: Store, cfg: Config, id: nat, env: Env)
    requires Apply(s, cfg, id, env).saves != [] && !env.gated && env.deploys
    ensures var prior := Prior(s, cfg.ref, cfg.manifest.checksum);
            var row := NewRow(id, cfg, prior, env);
            var start := StartStepper(row, cfg, if env.legible then prior else None, env);
            && row.phase.Deploying? && row.progress.index == 0
            && Apply(s, cfg, id, env).marks == start.marks
            && Apply(s, cfg, id, env).saves[|Apply(s, cfg, id, env).saves| - 1] == After(row, start)
  {
    var prior := Prior(s, cfg.ref, cfg.manifest.checksum);
    var start := StartStepper(NewRow(id, cfg, prior, env), cfg, if env.legible then prior else None, env);
    assert [] + start.marks == start.marks;
  }

  /**
   * From an Apply that deploys, for any plan, any times, any pauses and resumes and any refused
   * calls in between: the steps reported (and routed) are those of the plan, in order and each with
   * its own weight; they are always a prefix of the executor's; and a canary that ends has reported
   * exactly the executor's steps and ended as the executor does, at full traffic if it succeeds.
   */
  lemma {:induction false} TickedCanaryIsStraight(s: Store, cfg: Config, id: nat, env: Env, xs: seq<Move>,
                                                  health: nat -> bool, routes: nat -> bool)
    requires Apply(s, cfg, id, env).saves != [] && !env.gated && env.deploys
    requires NonNegative(PlanFor(cfg.strategy)) && Fixed(env, health, routes)
    requires forall k | 0 <= k < |xs| :: Fixed(xs[k].env, health, routes)
    ensures
      var a := Apply(s, cfg, id, env);
      var (r, marks) := Play(a.saves[|a.saves| - 1], a.marks, xs);
      Straightly(r, marks, PlanFor(cfg.strategy), health, routes)
  {
    var prior := Prior(s, cfg.ref, cfg.manifest.checksum);
    ApplyStarts(s, cfg, id, env);
    StartAgreesAndShows(NewRow(id, cfg, prior, env), cfg, if env.legible then prior else None, env, health, routes);
    var a := Apply(s, cfg, id, env);
    PlayedIsStraight(a.saves[|a.saves| - 1], a.marks, PlanFor(cfg.strategy), xs, health, routes);
  }
}
