/** Safety over whole runs of the engine, with a crash allowed after any save of any call. */
module Runs {
  import opened Rollout
  import opened StepOps
  import opened Engine
  import opened Evolution

  /** At most one row per target is deploying or paused. */
  ghost predicate SingleFlight(s: Store) {
    forall a, b | a in s.rows && b in s.rows && a != b && s.rows[a].ref == s.rows[b].ref ::
      !(s.rows[a].phase.InFlight() && s.rows[b].phase.InFlight())
  }

  ghost predicate Inv(s: Store) {
    && Valid(s)
    && SingleFlight(s)
    && (forall id <- s.rows :: SnapOk(s.rows[id]))
  }

  // ---------- the listing ----------

  lemma WithoutKeepsOthers(ids: seq<nat>, id: nat)
    ensures forall x :: x in Without(ids, id) <==> x in ids && x != id
  {
  }

  lemma SaveValid(s: Store, row: Row, policy: Policy)
    requires Valid(s)
    ensures Valid(Save(s, row, policy))
  {
    WithoutKeepsOthers(s.listing, row.id);
  }

  predicate SameId(saves: seq<Row>) {
    forall k | 0 <= k < |saves| :: saves[k].id == saves[0].id
  }

  /** Saving one row several times leaves only the last save. */
  lemma {:induction false} SaveAllRows(s: Store, saves: seq<Row>, policy: Policy)
    requires Valid(s) && SameId(saves)
    ensures Valid(SaveAll(s, saves, policy))
    ensures saves == [] ==> SaveAll(s, saves, policy) == s
    ensures saves != [] ==> SaveAll(s, saves, policy).rows == s.rows[saves[0].id := saves[|saves| - 1]]
    decreases |saves|
  {
    if saves != [] {
      SaveValid(s, saves[0], policy);
      SaveAllRows(Save(s, saves[0], policy), saves[1..], policy);
    }
  }

  lemma {:induction false} FoundAmong(s: Store, ids: seq<nat>, p: Row -> bool)
    requires Valid(s) && (forall id <- ids :: id in s.rows)
    ensures First(s.rows, ids, p).None? ==> forall id <- ids :: !p(s.rows[id])
    ensures var f := First(s.rows, ids, p);
            f.Some? ==> p(f.value) && f.value.id in ids && s.rows[f.value.id] == f.value
    decreases |ids|
  {
    if ids != [] {
      FoundAmong(s, ids[1..], p);
      assert forall id <- ids :: id == ids[0] || id in ids[1..];
    }
  }

  lemma FoundRow(s: Store, p: Row -> bool)
    requires Valid(s)
    ensures First(s.rows, s.listing, p).None? ==> forall id <- s.rows :: !p(s.rows[id])
    ensures var f := First(s.rows, s.listing, p);
            f.Some? ==> p(f.value) && f.value.id in s.rows && s.rows[f.value.id] == f.value
  {
    FoundAmong(s, s.listing, p);
  }

  // ---------- one call ----------

  /** The saves of a call are all of one row: an existing one that evolves, or a fresh one on a free target. */
  ghost predicate Legal(s: Store, saves: seq<Row>, env: Env) {
    saves != [] ==>
      && SameId(saves)
      && (if saves[0].id in s.rows then Lawful(s.rows[saves[0].id], saves) && AllEarn(s.rows[saves[0].id], saves, env)
          else Lawful(saves[0], saves)
               && forall a <- s.rows :: s.rows[a].ref == saves[0].ref ==> !s.rows[a].phase.InFlight())
  }

  lemma ApplyLegal(s: Store, cfg: Config, id: nat, env: Env)
    requires Inv(s)
    ensures Legal(s, Apply(s, cfg, id, env).saves, env)
    ensures Apply(s, cfg, id, env).saves != [] ==> Apply(s, cfg, id, env).saves[0].id == id
  {
    var e := Apply(s, cfg, id, env);
    if e.saves != [] {
      FoundRow(s, (r: Row) => r.ref == cfg.ref && r.phase.InFlight());
      ApplyLawful(s, cfg, id, env);
    }
  }

  // Apply starts with the new row and only evolves it.
  lemma ApplyLawful(s: Store, cfg: Config, id: nat, env: Env)
    requires Apply(s, cfg, id, env).saves != []
    ensures var row := NewRow(id, cfg, Prior(s, cfg.ref, cfg.manifest.checksum), env);
            Apply(s, cfg, id, env).saves[0] == row && Lawful(row, Apply(s, cfg, id, env).saves)
  {
    var prior := Prior(s, cfg.ref, cfg.manifest.checksum);
    var row := NewRow(id, cfg, prior, env);
    var known := if env.legible then prior else None;
    if !env.gated {
      FailLawful(row, row, cfg, known, env);
      StartLawful(row, cfg, known, env);
    }
  }

  lemma FinalizeLawful(s: Store, row: Row, cfg: Config, metrics: bool, env: Env)
    requires SnapOk(row)
    ensures Lawful(row, Finalize(s, row, cfg, metrics, env).saves)
    ensures Settles(row, Finalize(s, row, cfg, metrics, env).saves)
  {
    var prior := match Prior(s, row.ref, row.desired.checksum) case None => row.desired case Some(p) => p;
    VerifyLawful(row, prior, cfg, metrics, env);
  }

  lemma LegalConcat(s: Store, first: seq<Row>, mid: Row, last: seq<Row>, env: Env)
    requires Legal(s, first, env) && Lawful(mid, last) && Settles(mid, last)
    requires if first != [] then mid == first[|first| - 1] else mid.id in s.rows && mid == s.rows[mid.id]
    ensures Legal(s, first + last, env)
  {
    assert forall k | 0 <= k < |last| :: last[k].id == mid.id;
    if first != [] {
      var base := if mid.id in s.rows then s.rows[mid.id] else first[0];
      assert Evolves(base, mid);
      assert Lawful(base, last);
      assert mid.id in s.rows ==> AllEarn(base, last, env);
    }
  }

  lemma AndFinalizeLegal(s: Store, first: Effect, id: nat, cfg: Config, setup: Setup, env: Env, later: Env)
    requires Inv(s) && Legal(s, first.saves, env)
    requires first.saves == [] || first.saves[0].id == id
    ensures Legal(s, AndFinalize(s, first, id, cfg, setup, later).saves, env)
  {
    SaveAllRows(s, first.saves, setup.policy);
    var s' := SaveAll(s, first.saves, setup.policy);
    if id in s'.rows {
      FinalizeLawful(s', s'.rows[id], cfg, setup.metrics, later);
      LegalConcat(s, first.saves, s'.rows[id], Finalize(s', s'.rows[id], cfg, setup.metrics, later).saves, env);
    }
  }

  lemma InFlightTickLegal(s: Store, cfg: Config, setup: Setup, env: Env)
    requires Inv(s) && InFlight(s, cfg.ref).Some?
    ensures var row := InFlight(s, cfg.ref).value;
            row.id in s.rows && s.rows[row.id] == row && row.ref == cfg.ref && row.phase.InFlight()
            && var t := Tick(row, cfg, PriorIfRead(s, row, env), env);
               Legal(s, t.saves, env) && (t.saves == [] || t.saves[0].id == row.id)
  {
    FoundRow(s, (r: Row) => r.ref == cfg.ref && r.phase.InFlight());
    var row := InFlight(s, cfg.ref).value;
    TickLawful(row, cfg, PriorIfRead(s, row, env), env);
    TickEarns(row, cfg, PriorIfRead(s, row, env), env);
  }

  lemma ReconcileLegal(s: Store, cfg: Config, id: nat, setup: Setup, env: Env, later: Env)
    requires Inv(s)
    ensures Legal(s, Reconcile(s, cfg, id, setup, env, later).saves, env)
  {
    match InFlight(s, cfg.ref) {
      case Some(row) =>
        InFlightTickLegal(s, cfg, setup, env);
        AndFinalizeLegal(s, Tick(row, cfg, PriorIfRead(s, row, env), env), row.id, cfg, setup, env, later);
      case None =>
        ApplyLegal(s, cfg, id, env);
        AndFinalizeLegal(s, Apply(s, cfg, id, env), id, cfg, setup, env, later);
        FoundRow(s, (r: Row) => r.ref == cfg.ref);
        if StuckVerifying(s, cfg).Some? {
          AndFinalizeLegal(s, NOTHING, StuckVerifying(s, cfg).value.id, cfg, setup, env, later);
        }
    }
  }

  lemma AndFinalizeId(s: Store, first: Effect, id: nat, cfg: Config, setup: Setup, env: Env, later: Env)
    requires Inv(s) && Legal(s, first.saves, env) && (first.saves == [] || first.saves[0].id == id)
    ensures forall r <- AndFinalize(s, first, id, cfg, setup, later).saves :: r.id == id
  {
    SaveAllRows(s, first.saves, setup.policy);
    var s' := SaveAll(s, first.saves, setup.policy);
    if id in s'.rows { FinalizeLawful(s', s'.rows[id], cfg, setup.metrics, later); }
  }

  // ---------- creation ----------

  /** The calls that may create a row. */
  predicate Creates(op: Op) {
    op.OpApply? || op.OpReconcile?
  }

  /** The row a call creates, as it is first saved. */
  function Created(s: Store, op: Op, env: Env): Row
    requires Creates(op)
  {
    NewRow(op.id, op.cfg, Prior(s, op.cfg.ref, op.cfg.manifest.checksum), env)
  }

  /** A reconcile that creates a row applies the config, and then gates it unless that failed. */
  lemma ReconcileCreates(s: Store, cfg: Config, id: nat, setup: Setup, env: Env, later: Env)
    requires Inv(s)
    requires var saves := Reconcile(s, cfg, id, setup, env, later).saves; saves != [] && saves[0].id !in s.rows
    ensures var a := Apply(s, cfg, id, env);
            a.saves != [] && InFlight(s, cfg.ref).None?
            && Reconcile(s, cfg, id, setup, env, later) == if a.ok then AndFinalize(s, a, id, cfg, setup, later) else a
  {
    match InFlight(s, cfg.ref) {
      case Some(row) =>
        InFlightTickLegal(s, cfg, setup, env);
        AndFinalizeId(s, Tick(row, cfg, PriorIfRead(s, row, env), env), row.id, cfg, setup, env, later);
      case None =>
        if PlanChanged(cfg, env) {
          ApplyLegal(s, cfg, id, env);
        } else {
          FoundRow(s, (r: Row) => r.ref == cfg.ref);
          AndFinalizeId(s, NOTHING, StuckVerifying(s, cfg).value.id, cfg, setup, env, later);
        }
    }
  }

  /** Every row that a call creates starts as Apply makes it. */
  lemma FirstSaveCreates(s: Store, op: Op, setup: Setup, env: Env, later: Env)
    requires Inv(s)
    ensures var saves := Call(s, op, setup, env, later).saves;
            saves != [] && saves[0].id !in s.rows ==> Creates(op) && op.id !in s.rows && saves[0] == Created(s, op, env)
  {
    var saves := Call(s, op, setup, env, later).saves;
    match op
    case OpApply(cfg, id) =>
    case OpReconcile(cfg, id) =>
      if saves != [] && saves[0].id !in s.rows { ReconcileCreates(s, cfg, id, setup, env, later); }
    case OpRollbackLast(ref, force) => FoundRow(s, (r: Row) => r.ref == ref);
    case _ =>
      if op.id in s.rows {
        RowCallLawful(s.rows[op.id], op, PriorIfRead(s, s.rows[op.id], env), setup.metrics, env);
      }
  }

  lemma RowCallLawful(row: Row, op: Op, prior: Option<Manifest>, metrics: bool, env: Env)
    requires SnapOk(row)
    ensures Lawful(row, RowCall(row, op, prior, metrics, env).saves)
    ensures AllEarn(row, RowCall(row, op, prior, metrics, env).saves, env)
  {
    match op
    case OpTick(_, cfg) => TickLawful(row, cfg, prior, env); TickEarns(row, cfg, prior, env);
    case OpPromote(_, force) => ApprovalLawful(row, force, metrics, env);
    case OpVerify(_, cfg) => VerifyLawful(row, if prior.Some? then prior.value else row.desired, cfg, metrics, env);
    case OpApprove(_) => ApprovalLawful(row, false, metrics, env);
    case OpReject(_) => ApprovalLawful(row, false, metrics, env);
    case _ => ControlLawful(row, prior, env);
  }

  lemma RollbackLastLegal(s: Store, ref: string, force: bool, env: Env)
    requires Inv(s)
    ensures Legal(s, RollbackLast(s, ref, force, env).saves, env)
  {
    FoundRow(s, (r: Row) => r.ref == ref);
    if Newest(s, ref).Some? {
      var row := Newest(s, ref).value;
      if PriorIfRead(s, row, env).Some? {
        RollbackToLawful(row, PriorIfRead(s, row, env).value, force, env);
      }
    }
  }

  predicate AllFor(saves: seq<Row>, ref: string) {
    forall k | 0 <= k < |saves| :: saves[k].ref == ref
  }

  lemma ReconcileOwnRows(s: Store, cfg: Config, id: nat, setup: Setup, env: Env, later: Env)
    requires Inv(s)
    ensures var saves := Reconcile(s, cfg, id, setup, env, later).saves;
            AllFor(saves, cfg.ref) && SameId(saves)
            && (saves != [] && saves[0].id in s.rows ==> s.rows[saves[0].id].ref == cfg.ref)
  {
    var saves := Reconcile(s, cfg, id, setup, env, later).saves;
    ReconcileLegal(s, cfg, id, setup, env, later);
    if saves != [] && saves[0].id in s.rows {
      ReconcileWorksOnOwn(s, cfg, id, setup, env, later);
    } else if saves != [] {
      ReconcileCreates(s, cfg, id, setup, env, later);
      ApplyLegal(s, cfg, id, env);
    }
  }

  lemma ReconcileWorksOnOwn(s: Store, cfg: Config, id: nat, setup: Setup, env: Env, later: Env)
    requires Inv(s)
    ensures var saves := Reconcile(s, cfg, id, setup, env, later).saves;
            saves != [] && saves[0].id in s.rows ==> s.rows[saves[0].id].ref == cfg.ref
  {
    match InFlight(s, cfg.ref) {
      case Some(row) =>
        InFlightTickLegal(s, cfg, setup, env);
        AndFinalizeId(s, Tick(row, cfg, PriorIfRead(s, row, env), env), row.id, cfg, setup, env, later);
      case None =>
        ApplyLegal(s, cfg, id, env);
        AndFinalizeId(s, Apply(s, cfg, id, env), id, cfg, setup, env, later);
        FoundRow(s, (r: Row) => r.ref == cfg.ref);
        if StuckVerifying(s, cfg).Some? {
          AndFinalizeId(s, NOTHING, StuckVerifying(s, cfg).value.id, cfg, setup, env, later);
        }
    }
  }

  // A call on one row, of which nothing is known but that its saves are lawful.
  lemma RowLegal(s: Store, id: nat, saves: seq<Row>, env: Env)
    requires Inv(s) && id in s.rows && Lawful(s.rows[id], saves) && AllEarn(s.rows[id], saves, env)
    ensures Legal(s, saves, env)
  {
  }

  lemma RowCallLegal(s: Store, op: Op, setup: Setup, env: Env, later: Env)
    requires Inv(s) && !op.OpApply? && !op.OpReconcile? && !op.OpRollbackLast?
    ensures Legal(s, Call(s, op, setup, env, later).saves, env)
  {
    if op.id in s.rows {
      var row := s.rows[op.id];
      var prior := PriorIfRead(s, row, env);
      RowCallLawful(row, op, prior, setup.metrics, env);
      RowLegal(s, op.id, RowCall(row, op, prior, setup.metrics, env).saves, env);
    }
  }

  lemma CallLegal(s: Store, op: Op, setup: Setup, env: Env, later: Env)
    requires Inv(s)
    ensures Legal(s, Call(s, op, setup, env, later).saves, env)
  {
    match op
    case OpApply(cfg, id) => ApplyLegal(s, cfg, id, env);
    case OpReconcile(cfg, id) => ReconcileLegal(s, cfg, id, setup, env, later);
    case OpRollbackLast(ref, force) => RollbackLastLegal(s, ref, force, env);
    case _ => RowCallLegal(s, op, setup, env, later);
  }

  /** Every row of the first store is still there, and has only evolved. */
  ghost predicate AllEvolve(s: Store, t: Store) {
    forall id <- s.rows :: id in t.rows && Evolves(s.rows[id], t.rows[id])
  }

  /** One call, cut short after any of its saves, keeps the invariant. */
  lemma NextKeeps(s: Store, x: Input, setup: Setup)
    requires Inv(s)
    ensures Inv(Next(s, x, setup)) && AllEvolve(s, Next(s, x, setup))
  {
    CallLegal(s, x.op, setup, x.env, x.later);
    var saves := Call(s, x.op, setup, x.env, x.later).saves;
    KeptLegal(s, saves, x.kept, x.env);
    LegalKeeps(s, Kept(saves, x.kept), setup.policy, x.env);
  }

  lemma CallKeeps(s: Store, op: Op, setup: Setup, env: Env, later: Env)
    requires Inv(s)
    ensures var t := SaveAll(s, Call(s, op, setup, env, later).saves, setup.policy); Inv(t) && AllEvolve(s, t)
  {
    CallLegal(s, op, setup, env, later);
    LegalKeeps(s, Call(s, op, setup, env, later).saves, setup.policy, env);
  }

  lemma KeptLegal(s: Store, saves: seq<Row>, n: nat, env: Env)
    requires Legal(s, saves, env)
    ensures Legal(s, Kept(saves, n), env)
  {
  }

  lemma LegalKeeps(s: Store, saves: seq<Row>, policy: Policy, env: Env)
    requires Inv(s) && Legal(s, saves, env)
    ensures Inv(SaveAll(s, saves, policy)) && AllEvolve(s, SaveAll(s, saves, policy))
  {
    SaveAllRows(s, saves, policy);
    if saves != [] {
      var b := saves[|saves| - 1];
      assert Evolves(if b.id in s.rows then s.rows[b.id] else saves[0], b) && SnapOk(b);
      PutKeepsFlight(s, SaveAll(s, saves, policy), b);
    }
  }

  // A row that may be in flight only where one was, or where none is, keeps the target's flight single.
  lemma PutKeepsFlight(s: Store, t: Store, b: Row)
    requires SingleFlight(s) && t.rows == s.rows[b.id := b]
    requires b.id in s.rows ==> b.ref == s.rows[b.id].ref && (b.phase.InFlight() ==> s.rows[b.id].phase.InFlight())
    requires b.id !in s.rows ==> forall a <- s.rows :: s.rows[a].ref == b.ref ==> !s.rows[a].phase.InFlight()
    ensures SingleFlight(t)
  {
  }

  /**
   * Over every run, whatever the clock, the target, the gates and the lease answer, and however
   * the store lists its rows: one row in flight per target, no failed step ever persisted, and
   * every row only evolves.
   */
  lemma {:induction false} RunKeeps(s: Store, xs: seq<Input>, setup: Setup)
    requires Inv(s)
    ensures Inv(Exec(s, xs, setup)) && AllEvolve(s, Exec(s, xs, setup))
    decreases |xs|
  {
    if xs != [] {
      NextKeeps(s, xs[0], setup);
      RunKeeps(Next(s, xs[0], setup), xs[1..], setup);
    }
  }

  /** A rolled-back row is never written again with a different content, by any run. */
  lemma RolledBackIsFinal(s: Store, xs: seq<Input>, setup: Setup, id: nat)
    requires Inv(s) && id in s.rows && s.rows[id].phase.RolledBack?
    ensures id in Exec(s, xs, setup).rows && Exec(s, xs, setup).rows[id] == s.rows[id]
  {
    RunKeeps(s, xs, setup);
  }
}
