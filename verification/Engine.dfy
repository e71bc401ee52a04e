/** The engine over its store: which row an operation works on and what it finds there. */
module Engine {
  import opened Rollout
  import opened StepOps

  /**
   * How the store lists rollouts, most recent first: by creation, or by last update. ByUpdate takes
   * the order of the update times to be the order of the writes.
   */
  datatype Policy = ByCreation | ByUpdate

  /** The engine's fixed settings: how its store lists, and whether metric analysis is on. */
  datatype Setup = Setup(policy: Policy, metrics: bool)

  datatype Store = Store(rows: map<nat, Row>, listing: seq<nat>)

  ghost predicate Valid(s: Store) {
    && (forall id <- s.rows :: s.rows[id].id == id)
    && (forall id :: id in s.listing <==> id in s.rows)
  }

  function Without(ids: seq<nat>, id: nat): seq<nat> {
    if ids == [] then []
    else if ids[0] == id then Without(ids[1..], id)
    else [ids[0]] + Without(ids[1..], id)
  }

  function Save(s: Store, row: Row, policy: Policy): Store {
    var listing :=
      if row.id !in s.rows then [row.id] + s.listing
      else if policy.ByCreation? then s.listing
      else [row.id] + Without(s.listing, row.id);
    Store(s.rows[row.id := row], listing)
  }

  function SaveAll(s: Store, saves: seq<Row>, policy: Policy): Store
    decreases |saves|
  {
    if saves == [] then s else SaveAll(Save(s, saves[0], policy), saves[1..], policy)
  }

  // ---------- scans of the listing ----------

  /** The first listed row that satisfies p. */
  function First(rows: map<nat, Row>, ids: seq<nat>, p: Row -> bool): Option<Row> {
    if ids == [] then None
    else if ids[0] in rows && p(rows[ids[0]]) then Some(rows[ids[0]])
    else First(rows, ids[1..], p)
  }

  function Newest(s: Store, ref: string): Option<Row> {
    First(s.rows, s.listing, (r: Row) => r.ref == ref)
  }

  function InFlight(s: Store, ref: string): Option<Row> {
    First(s.rows, s.listing, (r: Row) => r.ref == ref && r.phase.InFlight())
  }

  predicate Distinct(r: Row, ref: string, exclude: string) {
    r.ref == ref && r.desired.checksum != "" && r.desired.checksum != exclude
  }

  /** The "last known good" manifest: the first listed one with a different checksum. */
  function Prior(s: Store, ref: string, exclude: string): Option<Manifest> {
    match First(s.rows, s.listing, (r: Row) => Distinct(r, ref, exclude))
    case None => None
    case Some(r) => Some(r.desired)
  }

  // A failed read counts as "no earlier manifest" on the paths that do not ask.
  function PriorIfRead(s: Store, row: Row, env: Env): Option<Manifest> {
    if env.legible then Prior(s, row.ref, row.desired.checksum) else None
  }

  const UNREAD := "the recorded rollback target could not be read"
  const UNCOMPARED := "the live state could not be compared with the recorded rollback target"
  const CHANGED_OUTSIDE := "the live state is not the last manifest rollops recorded"

  /** Why auto-rollback must not run for a rollout about to deploy, or "". */
  function RollbackBaseline(prior: Option<Manifest>, env: Env): string {
    if !env.legible then UNREAD
    else if prior.None? then ""
    else
      match env.differ
      case Broken => UNCOMPARED
      case NoDiffer => ""
      case Differ(diff) =>
        match diff(prior.value)
        case Same => ""
        case Different => CHANGED_OUTSIDE
        case DiffFailed => UNCOMPARED
  }

  // ---------- Apply ----------

  function Capture<T>(o: Option<T>): Captured<T> {
    match o case None => Absent case Some(v) => Held(v)
  }

  function NewRow(id: nat, cfg: Config, prior: Option<Manifest>, env: Env): Row {
    var phase := if env.gated then AwaitingApproval else Deploying;
    var smoke := if cfg.smoke.Some? && cfg.smoke.value.command != [] then Capture(cfg.smoke) else Absent;
    Row(id, cfg.ref, phase, cfg.manifest, Progress(0, 0, 0),
        if cfg.auto then RollbackBaseline(prior, env) else "",
        NoSnapshot,
        Settings(smoke, Capture(cfg.analysis), cfg.reverseHook, cfg.migrates, cfg.postPromote, cfg.compatible))
  }

  /** Apply with a fresh row id; an id already in use is not a call the engine makes. */
  function Apply(s: Store, cfg: Config, id: nat, env: Env): Effect {
    if !env.admits || !env.free || !env.lists || InFlight(s, cfg.ref).Some? || !env.ready || id in s.rows then REFUSED
    else
      var prior := Prior(s, cfg.ref, cfg.manifest.checksum);
      var row := NewRow(id, cfg, prior, env);
      var known := if env.legible then prior else None;
      if env.gated then Effect([row], [], [], true)
      else
        var rest := if env.deploys then StartStepper(row, cfg, known, env) else FailProgressive(row, cfg, known, env);
        Then([row], [], rest).(deployed := [cfg.manifest])
  }

  // ---------- the reconcile step ----------

  /** The post-deploy gate runs only once a rollout has left deploying. */
  function Finalize(s: Store, row: Row, cfg: Config, metrics: bool, env: Env): Effect {
    if row.phase.AwaitingApproval? || row.phase.InFlight() then NOTHING
    else if !env.legible then REFUSED
    else
      var prior := match Prior(s, row.ref, row.desired.checksum) case None => row.desired case Some(p) => p;
      VerifyOrRollback(row, prior, cfg, metrics, env)
  }

  function AndFinalize(s: Store, first: Effect, id: nat, cfg: Config, setup: Setup, env: Env): Effect {
    var s' := SaveAll(s, first.saves, setup.policy);
    if id !in s'.rows then first.(ok := false)
    else
      var last := Finalize(s', s'.rows[id], cfg, setup.metrics, env);
      Effect(first.saves + last.saves, first.marks, first.reapplied + last.reapplied, last.ok, first.deployed)
  }

  predicate PlanChanged(cfg: Config, env: Env) {
    env.observed != cfg.manifest.checksum || env.deepDrift
  }

  /** The target's newest row when it is verifying for the checksum that is live and desired. */
  function StuckVerifying(s: Store, cfg: Config): Option<Row> {
    match Newest(s, cfg.ref)
    case None => None
    case Some(r) => if r.phase.Verifying? && r.desired.checksum == cfg.manifest.checksum then Some(r) else None
  }

  /** One reconcile: step what is in flight, else re-gate or apply; `later` answers the final gate. */
  function Reconcile(s: Store, cfg: Config, id: nat, setup: Setup, env: Env, later: Env): Effect {
    if !env.lists then REFUSED
    else
      match InFlight(s, cfg.ref)
      case Some(row) =>
        var t := Tick(row, cfg, PriorIfRead(s, row, env), env);
        if !t.ok || !env.plans then t.(ok := false)
        else AndFinalize(s, t, row.id, cfg, setup, later)
      case None =>
        if !env.plans then REFUSED
        else if PlanChanged(cfg, env) then
          var a := Apply(s, cfg, id, env);
          if !a.ok then a else AndFinalize(s, a, id, cfg, setup, later)
        else
          match StuckVerifying(s, cfg)
          case None => NOTHING
          case Some(row) => AndFinalize(s, NOTHING, row.id, cfg, setup, later)
  }

  // ---------- calls ----------

  datatype Op =
    | OpApply(cfg: Config, id: nat)
    | OpTick(id: nat, cfg: Config)
    | OpPause(id: nat)
    | OpResume(id: nat)
    | OpAbort(id: nat)
    | OpApprove(id: nat)
    | OpReject(id: nat)
    | OpPromote(id: nat, force: bool)
    | OpVerify(id: nat, cfg: Config)
    | OpRollbackLast(ref: string, force: bool)
    | OpReconcile(cfg: Config, id: nat)

  function RollbackLast(s: Store, ref: string, force: bool, env: Env): Effect {
    match Newest(s, ref)
    case None => REFUSED
    case Some(row) =>
      match PriorIfRead(s, row, env)
      case None => REFUSED
      case Some(prior) => RollbackTo(row, prior, force, env)
  }

  /** The operations that are given a row by its id; prior is the earlier manifest the store holds for it. */
  function RowCall(row: Row, op: Op, prior: Option<Manifest>, metrics: bool, env: Env): Effect {
    match op
    case OpTick(_, cfg) => Tick(row, cfg, prior, env)
    case OpPause(_) => Pause(row, env)
    case OpResume(_) => Resume(row, env)
    case OpAbort(_) => Abort(row, prior, env)
    case OpApprove(_) => Approve(row, env)
    case OpReject(_) => Reject(row)
    case OpPromote(_, force) => Promote(row, force, metrics, env)
    // Called by hand, the gate falls back on the row's own manifest when no earlier one could be read.
    case OpVerify(_, cfg) => VerifyOrRollback(row, if prior.Some? then prior.value else row.desired, cfg, metrics, env)
    case _ => REFUSED
  }

  function Call(s: Store, op: Op, setup: Setup, env: Env, later: Env): Effect {
    match op
    case OpApply(cfg, id) => Apply(s, cfg, id, env)
    case OpReconcile(cfg, id) => Reconcile(s, cfg, id, setup, env, later)
    case OpRollbackLast(ref, force) => RollbackLast(s, ref, force, env)
    case _ =>
      if op.id !in s.rows then REFUSED
      else RowCall(s.rows[op.id], op, PriorIfRead(s, s.rows[op.id], env), setup.metrics, env)
  }

  /** A call and how many of its saves reached the store: all of them unless the process died. */
  datatype Input = Input(op: Op, env: Env, later: Env, kept: nat)

  function Kept(saves: seq<Row>, n: nat): seq<Row> {
    if n < |saves| then saves[..n] else saves
  }

  function Next(s: Store, x: Input, setup: Setup): Store {
    SaveAll(s, Kept(Call(s, x.op, setup, x.env, x.later).saves, x.kept), setup.policy)
  }

  function Exec(s: Store, xs: seq<Input>, setup: Setup): Store
    decreases |xs|
  {
    if xs == [] then s else Exec(Next(s, xs[0], setup), xs[1..], setup)
  }
}
