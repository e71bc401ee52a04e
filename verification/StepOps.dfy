/**
 * What each engine operation writes to the row it works on.
 *
 * An operation is given by the saves it makes, in order. A completed call makes all of them; a
 * process that dies inside the call has made a prefix of them.
 */
module StepOps {
  import opened Rollout
  import opened Progressive
  import opened Gates

  datatype Config = Config(
    ref: string,
    manifest: Manifest,
    strategy: Strategy,
    auto: bool,                    // rollback.auto
    healthCheck: bool,
    smoke: Option<Smoke>,
    analysis: Option<Analysis>,
    reverseHook: bool,
    migrates: bool,
    postPromote: bool,
    compatible: bool)

  datatype Diff = Same | Different | DiffFailed

  /** A target that could not be built for diffing, one that cannot diff, or one that can. */
  datatype Differ = Broken | NoDiffer | Differ(diff: Manifest -> Diff)

  /**
   * The answers of everything outside the engine during one call: the clock, the target, the
   * router, the database hooks, the lease and the gates. Within one call each step is entered at
   * most once, so answers indexed by step lose no generality.
   */
  datatype Env = Env(
    clock: nat -> int,             // readings in the order taken, see Drive
    end: int,                      // no reading is later
    free: bool,                    // the target lease was obtained
    ready: bool,                   // secrets resolved and the target was built
    admits: bool,                  // guardrails, governance, four-eyes and provenance let the call through
    gated: bool,                   // approval is required
    lists: bool,                   // the store could be listed
    legible: bool,                 // the earlier manifests could be read
    deploys: bool,                 // the target accepted the new manifest
    reapplies: bool,               // the target accepted the restored manifest
    database: bool,                // a database command succeeded
    plans: bool,                   // a plan could be computed
    health: nat -> bool,           // the step gate
    fires: nat -> bool,            // see Enter
    routes: nat -> bool,           // the router accepted the step's weight
    differ: Differ,                // the target's diff of a manifest against live
    observed: string,              // the live fingerprint
    deepDrift: bool,               // a full verification found live drifted
    oracle: Oracle)                // the post-deploy gates

  ghost predicate Timed(env: Env) {
    && Monotone(env.clock)
    && EndsBy(env.clock, env.end)
  }

  ghost predicate Monotone(clock: nat -> int) {
    forall i: nat, j: nat | i <= j :: clock(i) <= clock(j)
  }

  ghost predicate EndsBy(clock: nat -> int, end: int) {
    forall i: nat :: clock(i) <= end
  }

  /**
   * The saves of a call, the steps it reported, the manifests it re-applied, whether it succeeded,
   * and the manifests it sent to the target as a deploy, accepted or not.
   */
  datatype Effect = Effect(saves: seq<Row>, marks: seq<Mark>, reapplied: seq<Manifest>, ok: bool, deployed: seq<Manifest> := [])

  const NOTHING := Effect([], [], [], true)
  const REFUSED := Effect([], [], [], false)

  function Then(saves: seq<Row>, marks: seq<Mark>, e: Effect): Effect {
    Effect(saves + e.saves, marks + e.marks, e.reapplied, e.ok, e.deployed)
  }

  const UNKNOWN_PROGRESS := "what reached the target is unknown"

  // ---------- rolling back ----------

  datatype Restoration = Refused | Restored(row: Row, ok: bool)

  /** The rollback core: compatibility gate, ROLLBACK transition, re-apply, reverse database command. */
  function ApplyRollback(row: Row, prior: Manifest, hook: bool, force: bool, env: Env): Restoration {
    var reverse := hook || row.settings.reverseHook;
    if !force && row.settings.migrates && !row.settings.compatible && !reverse then Refused
    else if Transition(row.phase, EvRollback, RESUMED).None? then Refused
    else if !env.reapplies then Refused
    else Restored(row.(phase := RolledBack, desired := prior), reverse ==> env.database)
  }

  /** The deploy-step failure path. The failing row is deploying in both callers. */
  function FailProgressive(row: Row, cfg: Config, prior: Option<Manifest>, env: Env): Effect {
    var settled := row.(phase := RolledBack);
    if cfg.auto && row.blocked == "" && prior.Some? then
      match ApplyRollback(row, prior.value, cfg.reverseHook, true, env)
      case Refused => Effect([settled], [], [], false)
      case Restored(back, ok) => Effect(if ok then [back] else [back, back], [], [prior.value], false)
    else Effect([settled], [], [], false)
  }

  // ---------- driving the canary ----------

  function Marked(row: Row, plan: Plan, i: nat): Row
    requires i < |plan.steps|
  {
    row.(progress := Progress(i + 1, |plan.steps|, plan.steps[i].weight))
  }

  // The row already shows this step (a restored machine has not moved yet).
  predicate AlreadyMarked(row: Row, plan: Plan, i: nat)
    requires i < |plan.steps|
  {
    row.progress.index == i + 1 && row.progress.weight == plan.steps[i].weight
  }

  datatype Drive =
    | Stopped(row: Row, saves: seq<Row>, marks: seq<Mark>, machine: Machine, enteredAt: int)
    | Failed(row: Row, saves: seq<Row>, marks: seq<Mark>)

  function Before(saves: seq<Row>, marks: seq<Mark>, d: Drive): Drive {
    d.(saves := saves + d.saves, marks := marks + d.marks)
  }

  /** Persist the step a machine stands on and shift traffic to it. */
  function MarkStep(row: Row, plan: Plan, i: nat, env: Env): (r: (Row, seq<Row>, seq<Mark>, bool))
    requires i < |plan.steps|
  {
    if AlreadyMarked(row, plan, i) then (row, [], [], true)
    else
      var row' := Marked(row, plan, i);
      (row', [row'], [MarkOf(plan, i)], env.routes(i))
  }

  predicate Baking(plan: Plan, i: nat, enteredAt: int, now: int)
    requires i < |plan.steps|
  {
    plan.steps[i].pause > 0 && now - enteredAt < plan.steps[i].pause
  }

  /** Leave a due step: NEXT when it has no pause, else its timer. A negative pause arms no timer. */
  function Stepped(plan: Plan, m: Machine, env: Env): Machine
    requires m.cursor < |plan.steps|
  {
    if plan.steps[m.cursor].pause < 0 then m
    else Advance(plan, m, env.health(m.cursor + 1), env.fires(m.cursor + 1))
  }

  /**
   * Advance through every due step. The clock is read as reading 2i+1 to see whether step i is
   * due and as reading 2i+2 when step i+1 is entered.
   */
  function DriveLoop(row: Row, plan: Plan, m: Machine, enteredAt: int, env: Env): Drive
    requires m.cursor < |plan.steps|
    decreases |plan.steps| - m.cursor
  {
    var i := m.cursor;
    if m.place.Complete? || m.place.Aborted? then Stopped(row, [], [], m, enteredAt)
    else if Baking(plan, i, enteredAt, env.clock(2 * i + 1)) then Stopped(row, [], [], m, enteredAt)
    else
      var m' := Stepped(plan, m, env);
      if m'.place.Aborted? || m'.failed then Failed(row, [], [])
      else if m'.place.Complete? then Stopped(row, [], [], m', env.clock(2 * i + 2))
      else if m'.cursor == i then Stopped(row, [], [], m', enteredAt)
      else
        var (row', saves, marks, routed) := MarkStep(row, plan, m'.cursor, env);
        if !routed then Failed(row', saves, marks)
        else Before(saves, marks, DriveLoop(row', plan, m', env.clock(2 * i + 2), env))
  }

  /** Drive a machine as far as it is due, then settle, complete or persist. */
  function DriveStepper(row: Row, plan: Plan, m: Machine, enteredAt: int,
                        cfg: Config, prior: Option<Manifest>, env: Env): Effect
    requires m.cursor < |plan.steps|
  {
    if m.place.Aborted? then FailProgressive(row, cfg, prior, env)
    else
      var (row', saves, marks, routed) := MarkStep(row, plan, m.cursor, env);
      if !routed then Then(saves, marks, FailProgressive(row', cfg, prior, env))
      else Then(saves, marks, Finish(DriveLoop(row', plan, m, enteredAt, env), plan, cfg, prior, env))
  }

  function Finish(d: Drive, plan: Plan, cfg: Config, prior: Option<Manifest>, env: Env): Effect {
    match d
    case Failed(row, saves, marks) => Then(saves, marks, FailProgressive(row, cfg, prior, env))
    case Stopped(row, saves, marks, m, enteredAt) =>
      if m.place.Aborted? then Then(saves, marks, FailProgressive(row, cfg, prior, env))
      else
        var phase := if m.place.Complete? then Verifying else row.phase;
        Effect(saves + [row.(snap := Saved(plan, m, enteredAt), phase := phase)], marks, [], true)
  }

  /** Apply's last part: the row is saved, the manifest is deployed, the canary starts. */
  function StartStepper(row: Row, cfg: Config, prior: Option<Manifest>, env: Env): Effect {
    var plan := PlanFor(cfg.strategy);
    DriveStepper(row, plan, Enter(0, env.health(0), true), env.clock(0), cfg, prior, env)
  }

  /** A row whose progress is unknown is handed to the post-deploy gate with rollback blocked. */
  function Recovered(row: Row): Row {
    row.(phase := Verifying, blocked := if row.blocked == "" then UNKNOWN_PROGRESS else row.blocked)
  }

  // ---------- the operations ----------

  function Tick(row: Row, cfg: Config, prior: Option<Manifest>, env: Env): Effect {
    if row.phase != Deploying then NOTHING
    else if cfg.ref != row.ref || !env.free then REFUSED
    else if row.snap.NoSnapshot? then Effect([Recovered(row)], [], [], true)
    else if !env.ready then REFUSED
    else if !row.snap.Usable() then Effect([Recovered(row)], [], [], true)
    else
      var Saved(plan, m, enteredAt) := row.snap;
      if !m.place.Complete? && !m.place.Aborted? && Baking(plan, m.cursor, enteredAt, env.clock(0)) then
        if env.health(m.cursor) then NOTHING else FailProgressive(row, cfg, prior, env)
      else DriveStepper(row, plan, m, enteredAt, cfg, prior, env)
  }

  function Pause(row: Row, env: Env): Effect {
    if !env.free || row.phase != Deploying || !row.snap.Usable() then REFUSED
    else Effect([row.(phase := Paused, snap := row.snap.(machine := Fire(row.snap.machine, PauseStep)))], [], [], true)
  }

  /** The bake of the current step restarts from now. */
  function Resume(row: Row, env: Env): Effect {
    if !env.free || row.phase != Paused || !row.snap.Usable() then REFUSED
    else
      var m := Fire(row.snap.machine, ResumeStep);
      Effect([row.(phase := Deploying, snap := Saved(row.snap.plan, m, env.clock(0)))], [], [], true)
  }

  function Abort(row: Row, prior: Option<Manifest>, env: Env): Effect {
    if !env.free || !row.phase.InFlight() then REFUSED
    else
      var row' := row.(snap := NoSnapshot);
      if row.blocked != "" || prior.None? then Effect([row'.(phase := RolledBack)], [], [], true)
      else
        match ApplyRollback(row', prior.value, false, true, env)
        case Refused => REFUSED
        case Restored(back, ok) => Effect([back], [], [prior.value], ok)
  }

  function Approve(row: Row, env: Env): Effect {
    if !env.admits || !env.free || !env.ready || Transition(row.phase, EvApprove, RESUMED).None? then REFUSED
    else if env.deploys then Effect([row.(phase := Verifying)], [], [], true, [row.desired])
    else Effect([row.(phase := RolledBack)], [], [], false, [row.desired])
  }

  function Reject(row: Row): Effect {
    match Transition(row.phase, EvReject, RESUMED)
    case None => REFUSED
    case Some(p) => Effect([row.(phase := p)], [], [], true)
  }

  /** VERIFY_OK; a failing post-promote migration leaves the row promoted and reports the failure. */
  function PromoteWithNote(row: Row, env: Env): Effect {
    match Transition(row.phase, EvVerifyOK, RESUMED)
    case None => REFUSED
    case Some(p) => Effect([row.(phase := p)], [], [], row.settings.postPromote && row.settings.migrates ==> env.database)
  }

  function Promote(row: Row, force: bool, metrics: bool, env: Env): Effect {
    if force then PromoteWithNote(row, env)
    else
      match GatesFromRollout(row, metrics)
      case None => REFUSED
      case Some(gs) =>
        if FirstFailure(RunGatesSpec(gs, env.oracle)) != "" then REFUSED else PromoteWithNote(row, env)
  }

  /** RollbackLast once the newest row and the distinct earlier manifest are known. */
  function RollbackTo(row: Row, prior: Manifest, force: bool, env: Env): Effect {
    if (row.blocked != "" && !force) || !env.free then REFUSED
    else
      match ApplyRollback(row, prior, false, force, env)
      case Refused => REFUSED
      case Restored(back, ok) => Effect([back], [], [prior], ok)
  }

  /** The post-deploy gate of the automatic path. */
  function VerifyOrRollback(row: Row, prior: Manifest, cfg: Config, metrics: bool, env: Env): Effect {
    if FirstFailure(RunGatesSpec(GatesFromConfig(cfg.healthCheck, cfg.auto, cfg.smoke, cfg.analysis, metrics), env.oracle)) != "" then
      if !cfg.auto || row.blocked != "" || !env.free then REFUSED
      else
        match ApplyRollback(row, prior, cfg.reverseHook, true, env)
        case Refused => REFUSED
        case Restored(back, ok) => Effect([back], [], [prior], ok)
    else PromoteWithNote(row, env)
  }
}
