/** Automatic rollback restores only what was live when the rollout started. */
module Baseline {
  import opened Rollout
  import opened Progressive
  import opened StepOps
  import opened Engine
  import opened Evolution
  import opened Runs
  import opened Listing

  // ---------- the listing by creation ----------

  predicate NoDup(ids: seq<nat>) {
    ids != [] ==> ids[0] !in ids[1..] && NoDup(ids[1..])
  }

  /** The rows listed behind a row: those created before it. */
  function Behind(ids: seq<nat>, id: nat): seq<nat> {
    if ids == [] then [] else if ids[0] == id then ids[1..] else Behind(ids[1..], id)
  }

  function PriorAmong(rows: map<nat, Row>, ids: seq<nat>, ref: string, exclude: string): Option<Manifest> {
    match First(rows, ids, (r: Row) => Distinct(r, ref, exclude))
    case None => None
    case Some(r) => Some(r.desired)
  }

  /** The invariant of a store that lists by creation: what is in flight was created last. */
  ghost predicate Ordered(s: Store) {
    && Inv(s) && NoDup(s.listing)
    && forall id <- s.rows :: s.rows[id].phase.InFlight() ==> Newest(s, s.rows[id].ref) == Some(s.rows[id])
  }

  lemma BehindIsListed(ids: seq<nat>, id: nat)
    ensures forall x <- Behind(ids, id) :: x in ids
  {
  }

  lemma {:induction false} NewestIsNotBehind(s: Store, ids: seq<nat>, a: nat, b: nat)
    requires NoDup(ids) && a != b && a in s.rows && b in ids && b in s.rows && s.rows[a].ref == s.rows[b].ref
    requires forall x <- s.rows :: s.rows[x].id == x
    requires First(s.rows, ids, (r: Row) => r.ref == s.rows[a].ref) == Some(s.rows[a])
    ensures a !in Behind(ids, b)
    decreases |ids|
  {
    BehindIsListed(ids[1..], b);
    if ids[0] != b && ids[0] != a {
      NewestIsNotBehind(s, ids[1..], a, b);
    }
  }

  /** The rows listed in front of a row: those created after it. */
  function Ahead(ids: seq<nat>, id: nat): seq<nat> {
    if ids == [] || ids[0] == id then [] else [ids[0]] + Ahead(ids[1..], id)
  }

  function OrElse(first: Option<Manifest>, second: Option<Manifest>): Option<Manifest> {
    if first.Some? then first else second
  }

  /** A row that is no alternative to itself splits the search: first what is listed in front of it, then what is behind. */
  lemma {:induction false} PriorSplits(rows: map<nat, Row>, ids: seq<nat>, id: nat, ref: string, exclude: string)
    requires id in rows && !Distinct(rows[id], ref, exclude)
    ensures PriorAmong(rows, ids, ref, exclude)
              == OrElse(PriorAmong(rows, Ahead(ids, id), ref, exclude), PriorAmong(rows, Behind(ids, id), ref, exclude))
    decreases |ids|
  {
    if ids != [] {
      PriorSplits(rows, ids[1..], id, ref, exclude);
      if ids[0] != id { assert Ahead(ids, id)[1..] == Ahead(ids[1..], id); }
    }
  }

  /** Nothing of its target is listed in front of the newest row. */
  lemma {:induction false} NothingAhead(s: Store, ids: seq<nat>, id: nat, exclude: string)
    requires id in s.rows && forall x <- s.rows :: s.rows[x].id == x
    requires First(s.rows, ids, (r: Row) => r.ref == s.rows[id].ref) == Some(s.rows[id])
    ensures PriorAmong(s.rows, Ahead(ids, id), s.rows[id].ref, exclude) == None
    decreases |ids|
  {
    if ids[0] != id {
      NothingAhead(s, ids[1..], id, exclude);
      assert Ahead(ids, id)[1..] == Ahead(ids[1..], id);
    }
  }

  // The rows of one target listed in ids carry the same manifests in both stores.
  ghost predicate SameManifests(s: Store, t: Store, ids: seq<nat>, ref: string) {
    forall x <- ids :: x in s.rows && x in t.rows && t.rows[x].ref == s.rows[x].ref
                       && (s.rows[x].ref == ref ==> t.rows[x].desired == s.rows[x].desired)
  }

  lemma {:induction false} SamePrior(s: Store, t: Store, ids: seq<nat>, ref: string, exclude: string)
    requires SameManifests(s, t, ids, ref)
    ensures PriorAmong(s.rows, ids, ref, exclude) == PriorAmong(t.rows, ids, ref, exclude)
    decreases |ids|
  {
    if ids != [] { SamePrior(s, t, ids[1..], ref, exclude); }
  }

  // ---------- which rows a call may rewrite ----------

  // Only the newest row of a target may get another manifest.
  ghost predicate RewritesNewest(s: Store, saves: seq<Row>) {
    saves != [] && saves[0].id in s.rows ==>
      var row := s.rows[saves[0].id];
      Newest(s, row.ref) == Some(row) || forall k | 0 <= k < |saves| :: saves[k].desired == row.desired
  }

  lemma NewestRow(s: Store, ref: string)
    requires Valid(s)
    ensures Newest(s, ref).Some? ==>
              var r := Newest(s, ref).value; r.ref == ref && r.id in s.rows && s.rows[r.id] == r
  {
    FoundRow(s, (r: Row) => r.ref == ref);
  }

  /** A gate run by hand is run on its target's newest row. */
  predicate Latest(s: Store, op: Op) {
    op.OpVerify? && op.id in s.rows ==> Newest(s, s.rows[op.id].ref) == Some(s.rows[op.id])
  }

  lemma RowCallRewritesNewest(s: Store, op: Op, metrics: bool, env: Env)
    requires Ordered(s) && Latest(s, op) && !op.OpApply? && !op.OpReconcile? && !op.OpRollbackLast? && op.id in s.rows
    ensures RewritesNewest(s, RowCall(s.rows[op.id], op, PriorIfRead(s, s.rows[op.id], env), metrics, env).saves)
  {
    var row := s.rows[op.id];
    RowCallLawful(row, op, PriorIfRead(s, row, env), metrics, env);
  }

  lemma CallRewritesNewest(s: Store, op: Op, setup: Setup, env: Env, later: Env)
    requires Ordered(s) && Latest(s, op)
    ensures RewritesNewest(s, Call(s, op, setup, env, later).saves)
  {
    match op
    case OpApply(cfg, id) => ApplyLegal(s, cfg, id, env);
    case OpReconcile(cfg, id) => ReconcileWorksOn(s, cfg, id, setup, env, later); NewestRow(s, cfg.ref);
    case OpRollbackLast(ref, force) => NewestRow(s, ref);
    case _ =>
      if op.id in s.rows { RowCallRewritesNewest(s, op, setup.metrics, env); }
  }

  /** A reconcile writes the row in flight, the newest row, or the row it creates. */
  lemma ReconcileWorksOn(s: Store, cfg: Config, id: nat, setup: Setup, env: Env, later: Env)
    requires Ordered(s)
    ensures var saves := Reconcile(s, cfg, id, setup, env, later).saves;
            saves != [] && saves[0].id in s.rows ==> Newest(s, cfg.ref) == Some(s.rows[saves[0].id])
  {
    var saves := Reconcile(s, cfg, id, setup, env, later).saves;
    ReconcileLegal(s, cfg, id, setup, env, later);
    match InFlight(s, cfg.ref) {
      case Some(row) =>
        InFlightTickLegal(s, cfg, setup, env);
        var t := Tick(row, cfg, PriorIfRead(s, row, env), env);
        AndFinalizeId(s, t, row.id, cfg, setup, env, later);
      case None =>
        NewestRow(s, cfg.ref);
        ApplyLegal(s, cfg, id, env);
        AndFinalizeId(s, Apply(s, cfg, id, env), id, cfg, setup, env, later);
        if StuckVerifying(s, cfg).Some? {
          AndFinalizeId(s, NOTHING, StuckVerifying(s, cfg).value.id, cfg, setup, env, later);
        }
    }
  }

  // ---------- runs ----------

  lemma {:induction false} SaveAllListing(s: Store, saves: seq<Row>)
    requires SameId(saves)
    ensures SaveAll(s, saves, ByCreation).listing ==
              if saves == [] || saves[0].id in s.rows then s.listing else [saves[0].id] + s.listing
    decreases |saves|
  {
    if saves != [] { SaveAllListing(Save(s, saves[0], ByCreation), saves[1..]); }
  }

  lemma {:induction false} NewestStays(s: Store, t: Store, ids: seq<nat>, ref: string)
    requires forall x <- ids :: x in s.rows && x in t.rows && s.rows[x].id == x && t.rows[x].ref == s.rows[x].ref
    ensures var f := First(s.rows, ids, (r: Row) => r.ref == ref);
            f.Some? ==> f.value.id in t.rows && First(t.rows, ids, (r: Row) => r.ref == ref) == Some(t.rows[f.value.id])
    decreases |ids|
  {
    if ids != [] { NewestStays(s, t, ids[1..], ref); }
  }

  lemma {:induction false} NotBehindItself(ids: seq<nat>, id: nat)
    requires NoDup(ids)
    ensures id !in Behind(ids, id)
    decreases |ids|
  {
    if ids != [] { NotBehindItself(ids[1..], id); }
  }

  /** Nothing listed behind a row is added, removed or given another manifest. */
  ghost predicate Frozen(s: Store, t: Store, id: nat)
    requires id in s.rows
  {
    Behind(t.listing, id) == Behind(s.listing, id) && SameManifests(s, t, Behind(s.listing, id), s.rows[id].ref)
  }

  lemma NextOrdered(s: Store, x: Input, setup: Setup)
    requires Ordered(s) && setup.policy.ByCreation?
    ensures Ordered(Next(s, x, setup))
  {
    CallLegal(s, x.op, setup, x.env, x.later);
    var saves := Kept(Call(s, x.op, setup, x.env, x.later).saves, x.kept);
    var t := Next(s, x, setup);
    NextKeeps(s, x, setup);
    SaveAllRows(s, saves, setup.policy);
    SaveAllListing(s, saves);
    forall id <- t.rows | t.rows[id].phase.InFlight()
      ensures Newest(t, t.rows[id].ref) == Some(t.rows[id])
    {
      if id in s.rows {
        NewestStays(s, t, s.listing, t.rows[id].ref);
        if t.listing != s.listing { assert t.listing[1..] == s.listing; }
      }
    }
  }

  lemma NextFreezes(s: Store, x: Input, setup: Setup, id: nat)
    requires Ordered(s) && setup.policy.ByCreation? && id in s.rows && Latest(s, x.op)
    ensures Frozen(s, Next(s, x, setup), id)
  {
    CallLegal(s, x.op, setup, x.env, x.later);
    CallRewritesNewest(s, x.op, setup, x.env, x.later);
    var all := Call(s, x.op, setup, x.env, x.later).saves;
    KeptLegal(s, all, x.kept, x.env);
    SavesFreeze(s, Kept(all, x.kept), x.env, id);
  }

  lemma SavesFreeze(s: Store, saves: seq<Row>, env: Env, id: nat)
    requires Ordered(s) && Legal(s, saves, env) && RewritesNewest(s, saves) && id in s.rows
    ensures Frozen(s, SaveAll(s, saves, ByCreation), id)
  {
    var t := SaveAll(s, saves, ByCreation);
    SaveAllRows(s, saves, ByCreation);
    SaveAllListing(s, saves);
    BehindIsListed(s.listing, id);
    NotBehindItself(s.listing, id);
    if saves != [] {
      var a := saves[0].id;
      if a !in s.rows {
        assert t.listing[1..] == s.listing;
      } else if Newest(s, s.rows[a].ref) == Some(s.rows[a]) && s.rows[a].ref == s.rows[id].ref && a != id {
        NewestIsNotBehind(s, s.listing, a, id);
      }
    }
  }

  ghost predicate AllLatest(s: Store, xs: seq<Input>, setup: Setup)
    decreases |xs|
  {
    xs != [] ==> Latest(s, xs[0].op) && AllLatest(Next(s, xs[0], setup), xs[1..], setup)
  }

  lemma {:induction false} RunOrdered(s: Store, xs: seq<Input>, setup: Setup)
    requires Ordered(s) && setup.policy.ByCreation?
    ensures Ordered(Exec(s, xs, setup))
    decreases |xs|
  {
    if xs != [] {
      NextOrdered(s, xs[0], setup);
      RunOrdered(Next(s, xs[0], setup), xs[1..], setup);
    }
  }

  lemma {:induction false} RunFreezes(s: Store, xs: seq<Input>, setup: Setup, id: nat)
    requires Ordered(s) && setup.policy.ByCreation? && id in s.rows && AllLatest(s, xs, setup)
    ensures Ordered(Exec(s, xs, setup)) && Frozen(s, Exec(s, xs, setup), id)
    decreases |xs|
  {
    if xs == [] {
      BehindIsListed(s.listing, id);
    } else {
      var t := Next(s, xs[0], setup);
      NextKeeps(s, xs[0], setup);
      NextOrdered(s, xs[0], setup);
      NextFreezes(s, xs[0], setup, id);
      RunFreezes(t, xs[1..], setup, id);
    }
  }

  // ---------- what is re-applied ----------

  // The manifests restored by a failing step: only prior, only with auto on and nothing blocking.
  predicate RestoresOnly(e: Effect, row: Row, cfg: Config, prior: Option<Manifest>) {
    e.reapplied != [] ==>
      cfg.auto && row.blocked == "" && !e.ok && forall k | 0 <= k < |e.reapplied| :: prior == Some(e.reapplied[k])
  }

  lemma DriveRestores(row: Row, plan: Plan, m: Machine, enteredAt: int, cfg: Config, prior: Option<Manifest>, env: Env)
    requires m.cursor < |plan.steps| && (m.place.Aborted? || (m.place.OnStep? && !m.failed))
    ensures RestoresOnly(DriveStepper(row, plan, m, enteredAt, cfg, prior, env), row, cfg, prior)
  {
    if !m.place.Aborted? {
      var (row', _, _, routed) := MarkStep(row, plan, m.cursor, env);
      if routed { DriveLoopShape(row', plan, m, enteredAt, env); }
    }
  }

  lemma TickRestores(row: Row, cfg: Config, prior: Option<Manifest>, env: Env)
    requires SnapOk(row)
    ensures RestoresOnly(Tick(row, cfg, prior, env), row, cfg, prior)
    ensures Tick(row, cfg, prior, env).reapplied != [] ==> row.phase.Deploying?
  {
    if row.phase.Deploying? && row.snap.Usable() {
      DriveRestores(row, row.snap.plan, row.snap.machine, row.snap.enteredAt, cfg, prior, env);
    }
  }

  /** The manifest recorded as the row's distinct earlier one, or else its own. */
  function Recorded(s: Store, row: Row): Manifest {
    match Prior(s, row.ref, row.desired.checksum) case None => row.desired case Some(q) => q
  }

  // What an automatic path may re-apply for a row, and when.
  predicate MayRestore(row: Row, cfg: Config, p: Manifest, reapplied: seq<Manifest>) {
    reapplied != [] ==>
      cfg.auto && row.blocked == "" && !row.phase.RolledBack? && forall k | 0 <= k < |reapplied| :: reapplied[k] == p
  }

  /** The gate after a successful first part: the row kept its manifest, so the recorded one is still the same. */
  lemma FinalizeRestores(s: Store, first: Effect, id: nat, cfg: Config, setup: Setup, env: Env, later: Env)
    requires Inv(s) && id in s.rows && Legal(s, first.saves, env) && first.reapplied == []
    requires first.saves == [] || first.saves[0].id == id
    requires forall k | 0 <= k < |first.saves| :: !first.saves[k].phase.RolledBack?
    ensures MayRestore(s.rows[id], cfg, Recorded(s, s.rows[id]), AndFinalize(s, first, id, cfg, setup, later).reapplied)
  {
    var row := s.rows[id];
    SaveAllRows(s, first.saves, setup.policy);
    var t := SaveAll(s, first.saves, setup.policy);
    assert Evolves(row, t.rows[id]) && t.rows[id].desired == row.desired;
    OwnSavesKeepPrior(s, first.saves, setup.policy, id, row.ref, row.desired.checksum);
    FinalizeMayRestore(t, t.rows[id], cfg, setup.metrics, later);
  }

  lemma FinalizeMayRestore(t: Store, row: Row, cfg: Config, metrics: bool, later: Env)
    ensures MayRestore(row, cfg, Recorded(t, row), Finalize(t, row, cfg, metrics, later).reapplied)
  {
  }

  lemma OkDriveStaysUp(row: Row, plan: Plan, m: Machine, enteredAt: int, cfg: Config, prior: Option<Manifest>, env: Env)
    requires row.phase.Deploying? && m.cursor < |plan.steps| && (m.place.Aborted? || (m.place.OnStep? && !m.failed))
    requires DriveStepper(row, plan, m, enteredAt, cfg, prior, env).ok
    ensures forall r <- DriveStepper(row, plan, m, enteredAt, cfg, prior, env).saves :: !r.phase.RolledBack?
  {
    var (row', _, _, routed) := MarkStep(row, plan, m.cursor, env);
    if !m.place.Aborted? { DriveLoopShape(row', plan, m, enteredAt, env); }
  }

  lemma OkTickStaysUp(row: Row, cfg: Config, prior: Option<Manifest>, env: Env)
    requires SnapOk(row) && row.phase.InFlight() && Tick(row, cfg, prior, env).ok
    ensures forall r <- Tick(row, cfg, prior, env).saves :: !r.phase.RolledBack?
  {
    if row.phase.Deploying? && row.snap.Usable() && Tick(row, cfg, prior, env).saves != [] {
      OkDriveStaysUp(row, row.snap.plan, row.snap.machine, row.snap.enteredAt, cfg, prior, env);
    }
  }

  lemma TickMayRestore(s: Store, row: Row, cfg: Config, env: Env)
    requires SnapOk(row)
    ensures MayRestore(row, cfg, Recorded(s, row), Tick(row, cfg, PriorIfRead(s, row, env), env).reapplied)
  {
    var e := Tick(row, cfg, PriorIfRead(s, row, env), env);
    TickRestores(row, cfg, PriorIfRead(s, row, env), env);
    forall k | 0 <= k < |e.reapplied| ensures e.reapplied[k] == Recorded(s, row) {
      assert PriorIfRead(s, row, env) == Some(e.reapplied[k]);
    }
  }

  lemma InFlightRestores(s: Store, row: Row, cfg: Config, setup: Setup, env: Env, later: Env)
    requires Inv(s) && InFlight(s, cfg.ref) == Some(row)
    ensures row.id in s.rows && s.rows[row.id] == row
    ensures var t := Tick(row, cfg, PriorIfRead(s, row, env), env);
            && MayRestore(row, cfg, Recorded(s, row), t.reapplied)
            && (t.ok ==> MayRestore(row, cfg, Recorded(s, row), AndFinalize(s, t, row.id, cfg, setup, later).reapplied))
  {
    InFlightTickLegal(s, cfg, setup, env);
    var prior := PriorIfRead(s, row, env);
    var t := Tick(row, cfg, prior, env);
    TickMayRestore(s, row, cfg, env);
    if t.ok {
      TickRestores(row, cfg, prior, env);
      OkTickStaysUp(row, cfg, prior, env);
      FinalizeRestores(s, t, row.id, cfg, setup, env, later);
    }
  }

  lemma IdleRestores(s: Store, cfg: Config, spare: nat, setup: Setup, env: Env, later: Env, id: nat)
    requires Inv(s) && id in s.rows && InFlight(s, cfg.ref).None?
    requires var e := Reconcile(s, cfg, spare, setup, env, later); e.saves != [] && e.saves[0].id == id
    ensures MayRestore(s.rows[id], cfg, Recorded(s, s.rows[id]), Reconcile(s, cfg, spare, setup, env, later).reapplied)
  {
    var e := Reconcile(s, cfg, spare, setup, env, later);
    if PlanChanged(cfg, env) {
      ApplyLegal(s, cfg, spare, env);
      AndFinalizeId(s, Apply(s, cfg, spare, env), spare, cfg, setup, env, later);
    } else {
      NewestRow(s, cfg.ref);
      var stuck := StuckVerifying(s, cfg).value.id;
      AndFinalizeId(s, NOTHING, stuck, cfg, setup, env, later);
      FinalizeRestores(s, NOTHING, stuck, cfg, setup, env, later);
    }
  }

  /** A reconcile of an existing row restores only its recorded earlier manifest, and only when allowed to. */
  lemma ReconcileRestores(s: Store, cfg: Config, spare: nat, setup: Setup, env: Env, later: Env, id: nat)
    requires Inv(s) && id in s.rows
    requires var e := Reconcile(s, cfg, spare, setup, env, later); e.saves != [] && e.saves[0].id == id
    ensures MayRestore(s.rows[id], cfg, Recorded(s, s.rows[id]), Reconcile(s, cfg, spare, setup, env, later).reapplied)
  {
    match InFlight(s, cfg.ref) {
      case Some(row) =>
        InFlightTickLegal(s, cfg, setup, env);
        InFlightRestores(s, row, cfg, setup, env, later);
        AndFinalizeId(s, Tick(row, cfg, PriorIfRead(s, row, env), env), row.id, cfg, setup, env, later);
      case None =>
        IdleRestores(s, cfg, spare, setup, env, later, id);
    }
  }

  /** The calls that roll back without being asked to. */
  predicate Automatic(op: Op, id: nat) {
    ((op.OpTick? || op.OpVerify?) && op.id == id) || op.OpReconcile?
  }

  /** The earlier manifest an automatic call goes by; only the gate run by hand goes on when it cannot read it. */
  function Found(s: Store, row: Row, op: Op, env: Env): Option<Manifest> {
    if op.OpVerify? then PriorIfRead(s, row, env) else Prior(s, row.ref, row.desired.checksum)
  }

  /** However the store lists, an automatic call restores what it found, or else the row's own manifest, and only when allowed to. */
  lemma AutomaticCallRestores(s: Store, op: Op, setup: Setup, env: Env, later: Env, id: nat)
    requires Inv(s) && id in s.rows && Automatic(op, id)
    requires var e := Call(s, op, setup, env, later); e.saves != [] && e.saves[0].id == id
    ensures var row := s.rows[id]; var found := Found(s, row, op, env);
            MayRestore(row, op.cfg, if found.Some? then found.value else row.desired, Call(s, op, setup, env, later).reapplied)
  {
    if op.OpTick? {
      TickMayRestore(s, s.rows[id], op.cfg, env);
    } else if op.OpReconcile? {
      ReconcileRestores(s, op.cfg, op.id, setup, env, later, id);
    }
  }

  /** Every call but a rollback that is forced. */
  predicate Unforced(op: Op) {
    !(op.OpRollbackLast? && op.force)
  }

  /** However it is reached, a blocked row is not put back on another manifest by an unforced call. */
  lemma BlockedIsKept(s: Store, op: Op, setup: Setup, env: Env, later: Env, id: nat)
    requires Inv(s) && id in s.rows && s.rows[id].blocked != "" && Unforced(op)
    requires var e := Call(s, op, setup, env, later); e.saves != [] && e.saves[0].id == id
    ensures Call(s, op, setup, env, later).reapplied == []
  {
    if op.OpApply? {
      ApplyLegal(s, op.cfg, op.id, env);
    } else if op.OpRollbackLast? {
      NewestRow(s, op.ref);
    } else if op.OpReconcile? {
      AutomaticCallRestores(s, op, setup, env, later, id);
    } else {
      RowCallLawful(s.rows[op.id], op, PriorIfRead(s, s.rows[op.id], env), setup.metrics, env);
      if op.OpTick? || op.OpVerify? { AutomaticCallRestores(s, op, setup, env, later, id); }
    }
  }

  // What a call re-applies, it records.
  predicate Recorder(e: Effect) {
    e.reapplied != [] ==> e.saves != []
  }

  lemma RestoreIsSaved(s: Store, op: Op, setup: Setup, env: Env, later: Env)
    requires Inv(s)
    ensures Recorder(Call(s, op, setup, env, later))
  {
    if op.OpTick? {
      if op.id in s.rows { TickRestoreIsSaved(s.rows[op.id], op.cfg, PriorIfRead(s, s.rows[op.id], env), env); }
    } else if op.OpReconcile? {
      ReconcileRestoreIsSaved(s, op.cfg, op.id, setup, env, later);
    }
  }

  lemma ReconcileRestoreIsSaved(s: Store, cfg: Config, id: nat, setup: Setup, env: Env, later: Env)
    requires Inv(s)
    ensures Recorder(Reconcile(s, cfg, id, setup, env, later))
  {
    match InFlight(s, cfg.ref) {
      case Some(row) =>
        InFlightTickLegal(s, cfg, setup, env);
        var t := Tick(row, cfg, PriorIfRead(s, row, env), env);
        TickRestoreIsSaved(row, cfg, PriorIfRead(s, row, env), env);
        GateRestoreIsSaved(s, t, row.id, cfg, setup, later);
      case None =>
        GateRestoreIsSaved(s, Apply(s, cfg, id, env), id, cfg, setup, later);
        if StuckVerifying(s, cfg).Some? { GateRestoreIsSaved(s, NOTHING, StuckVerifying(s, cfg).value.id, cfg, setup, later); }
    }
  }

  lemma GateRestoreIsSaved(s: Store, first: Effect, id: nat, cfg: Config, setup: Setup, later: Env)
    requires Recorder(first)
    ensures Recorder(AndFinalize(s, first, id, cfg, setup, later))
  {
  }

  lemma TickRestoreIsSaved(row: Row, cfg: Config, prior: Option<Manifest>, env: Env)
    requires SnapOk(row)
    ensures Tick(row, cfg, prior, env).reapplied != [] ==> Tick(row, cfg, prior, env).saves != []
  {
    if row.phase.Deploying? && row.snap.Usable() {
      var Saved(plan, m, enteredAt) := row.snap;
      var (row', _, _, routed) := MarkStep(row, plan, m.cursor, env);
      if routed && !m.place.Aborted? { DriveLoopShape(row', plan, m, enteredAt, env); }
    }
  }

  /**
   * A blocked row, and so every row recovered from an interruption, is never put back on another
   * manifest again, by any run: no tick, reconcile, gate or abort, and no rollback that is not forced,
   * re-applies anything for it.
   */
  lemma BlockedIsNeverRolledBack(s: Store, xs: seq<Input>, y: Input, setup: Setup, id: nat)
    requires Inv(s) && id in s.rows && s.rows[id].blocked != "" && Unforced(y.op)
    ensures var e := Call(Exec(s, xs, setup), y.op, setup, y.env, y.later);
            e.reapplied != [] ==> e.saves != [] && e.saves[0].id != id
  {
    RunKeeps(s, xs, setup);
    var t := Exec(s, xs, setup);
    var e := Call(t, y.op, setup, y.env, y.later);
    if e.reapplied != [] {
      RestoreIsSaved(t, y.op, setup, y.env, y.later);
      if e.saves[0].id == id { BlockedIsKept(t, y.op, setup, y.env, y.later, id); }
    }
  }

  /** In particular an abort of a blocked row in flight settles it and leaves the target as it is. */
  lemma BlockedAbortSettles(s: Store, xs: seq<Input>, setup: Setup, id: nat, prior: Option<Manifest>, env: Env)
    requires Inv(s) && id in s.rows && s.rows[id].blocked != ""
    ensures var t := Exec(s, xs, setup);
            id in t.rows
            && Abort(t.rows[id], prior, env) ==
               if env.free && t.rows[id].phase.InFlight() then
                 Effect([t.rows[id].(phase := RolledBack, snap := NoSnapshot)], [], [], true)
               else REFUSED
  {
    RunKeeps(s, xs, setup);
    assert Exec(s, xs, setup).rows[id].blocked != "";
  }

  // ---------- the call that creates the rollout ----------

  /** A manifest whose diff against live was empty when the rollout was applied, or its own when none was recorded. */
  predicate IsBaseline(p: Manifest, s: Store, cfg: Config, env: Env)
    requires env.differ.Differ?
  {
    match Prior(s, cfg.ref, cfg.manifest.checksum)
    case Some(q) => p == q && env.differ.diff(q) == Same
    case None => p == cfg.manifest
  }

  predicate AllBaseline(reapplied: seq<Manifest>, s: Store, cfg: Config, env: Env)
    requires env.differ.Differ?
  {
    forall k | 0 <= k < |reapplied| :: IsBaseline(reapplied[k], s, cfg, env)
  }

  /** Apply itself restores nothing but the baseline. */
  lemma ApplyRestoresBaseline(s: Store, cfg: Config, id: nat, env: Env)
    requires env.differ.Differ?
    ensures AllBaseline(Apply(s, cfg, id, env).reapplied, s, cfg, env)
  {
    var e := Apply(s, cfg, id, env);
    if e.reapplied != [] {
      var prior := Prior(s, cfg.ref, cfg.manifest.checksum);
      var row := NewRow(id, cfg, prior, env);
      var known := if env.legible then prior else None;
      if env.deploys {
        DriveRestores(row, PlanFor(cfg.strategy), Enter(0, env.health(0), true), env.clock(0), cfg, known, env);
      }
    }
  }

  lemma OkApplyStaysUp(s: Store, cfg: Config, id: nat, env: Env)
    requires Apply(s, cfg, id, env).ok
    ensures forall r <- Apply(s, cfg, id, env).saves :: !r.phase.RolledBack?
  {
    if !env.gated {
      var prior := Prior(s, cfg.ref, cfg.manifest.checksum);
      var row := NewRow(id, cfg, prior, env);
      OkDriveStaysUp(row, PlanFor(cfg.strategy), Enter(0, env.health(0), true), env.clock(0), cfg,
                     if env.legible then prior else None, env);
    }
  }

  /** Creating a row and saving it again changes nothing of what is recorded for it. */
  lemma CreationKeepsPrior(s: Store, saves: seq<Row>, policy: Policy)
    requires Inv(s) && saves != [] && saves[0].id !in s.rows && SameId(saves)
    requires forall k | 0 <= k < |saves| :: saves[k].desired == saves[0].desired
    ensures var row := saves[0];
            Prior(SaveAll(s, saves, policy), row.ref, row.desired.checksum) == Prior(s, row.ref, row.desired.checksum)
  {
    var row := saves[0];
    NewSaveKeepsPrior(s, row, policy);
    OwnSavesKeepPrior(Save(s, row, policy), saves[1..], policy, row.id, row.ref, row.desired.checksum);
  }

  /** The gate that follows an Apply in the same reconcile goes by what Apply found. */
  lemma GateGoesByApply(s: Store, cfg: Config, id: nat, setup: Setup, env: Env, later: Env)
    requires Inv(s) && Apply(s, cfg, id, env).ok && Apply(s, cfg, id, env).saves != []
    ensures var made := NewRow(id, cfg, Prior(s, cfg.ref, cfg.manifest.checksum), env);
            MayRestore(made, cfg, Recorded(s, made), AndFinalize(s, Apply(s, cfg, id, env), id, cfg, setup, later).reapplied)
  {
    var a := Apply(s, cfg, id, env);
    var t := SaveAll(s, a.saves, setup.policy);
    NoRestoreWhenOk(s, cfg, id, env);
    ApplyLegal(s, cfg, id, env);
    OkApplyStaysUp(s, cfg, id, env);
    CreationStays(s, a.saves, setup.policy);
    FinalizeMayRestore(t, t.rows[id], cfg, setup.metrics, later);
  }

  lemma CreationStays(s: Store, saves: seq<Row>, policy: Policy)
    requires Inv(s) && saves != [] && saves[0].id !in s.rows && SameId(saves) && Lawful(saves[0], saves)
    requires forall r <- saves :: !r.phase.RolledBack?
    ensures var row, t := saves[0], SaveAll(s, saves, policy);
            && row.id in t.rows && Evolves(row, t.rows[row.id]) && t.rows[row.id].desired == row.desired
            && Prior(t, row.ref, row.desired.checksum) == Prior(s, row.ref, row.desired.checksum)
  {
    SaveAllRows(s, saves, policy);
    CreationKeepsPrior(s, saves, policy);
  }

  lemma NoRestoreWhenOk(s: Store, cfg: Config, id: nat, env: Env)
    requires Apply(s, cfg, id, env).ok
    ensures Apply(s, cfg, id, env).reapplied == []
  {
    var e := Apply(s, cfg, id, env);
    var prior := Prior(s, cfg.ref, cfg.manifest.checksum);
    var row := NewRow(id, cfg, prior, env);
    var known := if env.legible then prior else None;
    DriveRestores(row, PlanFor(cfg.strategy), Enter(0, env.health(0), true), env.clock(0), cfg, known, env);
  }

  /**
   * The call that creates a rollout, an Apply or a reconcile with the gate at its end, restores
   * nothing but the baseline, however the store lists.
   */
  lemma CreatingCallRestoresBaseline(s: Store, op: Op, setup: Setup, env: Env, later: Env)
    requires Inv(s) && Creates(op) && op.cfg.auto && env.differ.Differ? && op.id !in s.rows
    requires var saves := Call(s, op, setup, env, later).saves; saves != [] && saves[0].id == op.id
    ensures AllBaseline(Call(s, op, setup, env, later).reapplied, s, op.cfg, env)
  {
    ApplyRestoresBaseline(s, op.cfg, op.id, env);
    if op.OpReconcile? {
      ReconcileCreates(s, op.cfg, op.id, setup, env, later);
      if Apply(s, op.cfg, op.id, env).ok {
        GateGoesByApply(s, op.cfg, op.id, setup, env, later);
        UnblockedMatches(s, op, env, Created(s, op, env));
      }
    }
  }

  /** A row on which nothing blocks the rollback was compared with live, and did not differ. */
  lemma UnblockedMatches(s: Store, op: Op, env: Env, row: Row)
    requires Creates(op) && op.cfg.auto && env.differ.Differ? && Evolves(Created(s, op, env), row)
    ensures var prior := Prior(s, op.cfg.ref, op.cfg.manifest.checksum);
            row.blocked == "" && prior.Some? ==> env.differ.diff(prior.value) == Same
  {
    assert row.blocked == "" ==> Created(s, op, env).blocked == "";
  }

  // ---------- any later call ----------

  // x creates the row with automatic rollback on and a target that can diff.
  ghost predicate Starts(s: Store, x: Input, setup: Setup) {
    && Inv(s) && Creates(x.op) && x.op.cfg.auto && x.env.differ.Differ?
    && x.op.id !in s.rows && x.op.id in Next(s, x, setup).rows
  }

  lemma CreatedRow(s: Store, x: Input, setup: Setup)
    requires Inv(s) && Creates(x.op) && x.op.id !in s.rows && x.op.id in Next(s, x, setup).rows
    ensures var t := Next(s, x, setup);
            && Evolves(Created(s, x.op, x.env), t.rows[x.op.id])
            && (setup.policy.ByCreation? ==> t.listing == [x.op.id] + s.listing)
            && SameManifests(s, t, s.listing, x.op.cfg.ref)
  {
    var all := Call(s, x.op, setup, x.env, x.later).saves;
    CallLegal(s, x.op, setup, x.env, x.later);
    FirstSaveCreates(s, x.op, setup, x.env, x.later);
    var saves := Kept(all, x.kept);
    SaveAllRows(s, saves, setup.policy);
    if setup.policy.ByCreation? { SaveAllListing(s, saves); }
  }

  lemma CreatedEvolves(s: Store, x: Input, xs: seq<Input>, setup: Setup)
    requires Inv(s) && Creates(x.op) && x.op.id !in s.rows && x.op.id in Next(s, x, setup).rows
    ensures var t := Exec(Next(s, x, setup), xs, setup);
            Inv(t) && x.op.id in t.rows && Evolves(Created(s, x.op, x.env), t.rows[x.op.id])
  {
    CreatedRow(s, x, setup);
    NextKeeps(s, x, setup);
    RunKeeps(Next(s, x, setup), xs, setup);
  }

  /**
   * After any run, however the store lists, an automatic rollback restores the baseline exactly
   * when the earlier manifest it finds is still the one that was recorded as the row was created.
   */
  lemma RestoresBaselineIff(s: Store, x: Input, xs: seq<Input>, y: Input, setup: Setup)
    requires Starts(s, x, setup) && Automatic(y.op, x.op.id)
    requires var e := Call(Exec(Next(s, x, setup), xs, setup), y.op, setup, y.env, y.later);
             e.saves != [] && e.saves[0].id == x.op.id && e.reapplied != []
    ensures var t := Exec(Next(s, x, setup), xs, setup);
            x.op.id in t.rows
            && (AllBaseline(Call(t, y.op, setup, y.env, y.later).reapplied, s, x.op.cfg, x.env) <==>
                Found(t, t.rows[x.op.id], y.op, y.env) == Prior(s, x.op.cfg.ref, x.op.cfg.manifest.checksum))
  {
    var t := Exec(Next(s, x, setup), xs, setup);
    CreatedEvolves(s, x, xs, setup);
    var row := t.rows[x.op.id];
    AutomaticCallRestores(t, y.op, setup, y.env, y.later, x.op.id);
    UnblockedMatches(s, x.op, x.env, row);
    PriorIsDistinct(t, row.ref, row.desired.checksum);
    PriorIsDistinct(s, row.ref, row.desired.checksum);
    BaselineIff(Call(t, y.op, setup, y.env, y.later).reapplied, Found(t, row, y.op, y.env), s, x.op.cfg, x.env);
  }

  lemma BaselineIff(reapplied: seq<Manifest>, found: Option<Manifest>, s: Store, cfg: Config, env: Env)
    requires env.differ.Differ? && reapplied != []
    requires forall k | 0 <= k < |reapplied| :: reapplied[k] == if found.Some? then found.value else cfg.manifest
    requires found.Some? ==> found.value.checksum != cfg.manifest.checksum
    requires var prior := Prior(s, cfg.ref, cfg.manifest.checksum);
             prior.Some? ==> prior.value.checksum != cfg.manifest.checksum && env.differ.diff(prior.value) == Same
    ensures AllBaseline(reapplied, s, cfg, env) <==> found == Prior(s, cfg.ref, cfg.manifest.checksum)
  {
    assert AllBaseline(reapplied, s, cfg, env) ==> IsBaseline(reapplied[0], s, cfg, env);
  }

  // ---------- listed by creation ----------

  lemma {:induction false} RunBehind(s: Store, xs: seq<Input>, setup: Setup, id: nat)
    requires Inv(s) && setup.policy.ByCreation? && id in s.rows
    ensures Behind(Exec(s, xs, setup).listing, id) == Behind(s.listing, id)
    decreases |xs|
  {
    if xs != [] {
      NextKeeps(s, xs[0], setup);
      NextBehind(s, xs[0], setup, id);
      RunBehind(Next(s, xs[0], setup), xs[1..], setup, id);
    }
  }

  lemma NextBehind(s: Store, x: Input, setup: Setup, id: nat)
    requires Inv(s) && setup.policy.ByCreation? && id in s.rows
    ensures Behind(Next(s, x, setup).listing, id) == Behind(s.listing, id)
  {
    CallLegal(s, x.op, setup, x.env, x.later);
    var saves := Kept(Call(s, x.op, setup, x.env, x.later).saves, x.kept);
    SaveAllListing(s, saves);
    if saves != [] { assert ([saves[0].id] + s.listing)[1..] == s.listing; }
  }

  // The manifest of a rollout that was created after id and is no longer id's.
  function PriorAhead(t: Store, id: nat): Option<Manifest>
    requires id in t.rows
  {
    PriorAmong(t.rows, Ahead(t.listing, id), t.rows[id].ref, t.rows[id].desired.checksum)
  }

  /** After any run: what is recorded for a row is the first distinct manifest created after it, or else before it. */
  lemma RecordedByCreation(s: Store, x: Input, xs: seq<Input>, setup: Setup)
    requires Inv(s) && setup.policy.ByCreation? && Creates(x.op) && x.op.id !in s.rows && x.op.id in Next(s, x, setup).rows
    requires var t := Exec(Next(s, x, setup), xs, setup); x.op.id in t.rows && !t.rows[x.op.id].phase.RolledBack?
    ensures var t := Exec(Next(s, x, setup), xs, setup); var ref, own := x.op.cfg.ref, x.op.cfg.manifest.checksum;
            && t.rows[x.op.id].ref == ref && t.rows[x.op.id].desired == x.op.cfg.manifest
            && Prior(t, ref, own) == OrElse(PriorAhead(t, x.op.id), PriorAmong(t.rows, s.listing, ref, own))
  {
    var id, s1 := x.op.id, Next(s, x, setup);
    var t := Exec(s1, xs, setup);
    CreatedRow(s, x, setup);
    CreatedEvolves(s, x, xs, setup);
    NextKeeps(s, x, setup);
    RunBehind(s1, xs, setup, id);
    assert ([id] + s.listing)[1..] == s.listing;
    PriorSplits(t.rows, t.listing, id, x.op.cfg.ref, x.op.cfg.manifest.checksum);
  }

  /**
   * When every gate run by hand in between was run on a newest row, what was created before the
   * rollout still has its manifests. So the recorded one is that of the creation, unless a newer
   * rollout of the target has another manifest.
   */
  lemma RecordedIsFromApply(s: Store, x: Input, xs: seq<Input>, setup: Setup)
    requires Ordered(s) && setup.policy.ByCreation? && Creates(x.op) && x.op.id !in s.rows && x.op.id in Next(s, x, setup).rows
    requires AllLatest(s, [x] + xs, setup)
    requires var t := Exec(Next(s, x, setup), xs, setup); x.op.id in t.rows && !t.rows[x.op.id].phase.RolledBack?
    ensures var t := Exec(Next(s, x, setup), xs, setup); var ref, own := x.op.cfg.ref, x.op.cfg.manifest.checksum;
            && t.rows[x.op.id].ref == ref && t.rows[x.op.id].desired == x.op.cfg.manifest
            && Prior(t, ref, own) == OrElse(PriorAhead(t, x.op.id), Prior(s, ref, own))
            && (Newest(t, ref) == Some(t.rows[x.op.id]) ==> PriorAhead(t, x.op.id) == None)
  {
    var id, cfg := x.op.id, x.op.cfg;
    var s1 := Next(s, x, setup);
    var t := Exec(s1, xs, setup);
    assert ([x] + xs)[1..] == xs;
    RecordedByCreation(s, x, xs, setup);
    CreatedRow(s, x, setup);
    NextOrdered(s, x, setup);
    RunFreezes(s1, xs, setup, id);
    assert ([id] + s.listing)[1..] == s.listing;
    SamePrior(s1, t, s.listing, cfg.ref, cfg.manifest.checksum);
    SamePrior(s, s1, s.listing, cfg.ref, cfg.manifest.checksum);
    CreatedEvolves(s, x, xs, setup);
    if Newest(t, cfg.ref) == Some(t.rows[id]) { NothingAhead(t, t.listing, id, cfg.manifest.checksum); }
  }

  /**
   * The gate run by hand restores the baseline exactly when it could read the store (or nothing was
   * recorded) and no newer rollout of the target has another manifest than its own and the baseline.
   */
  lemma VerifyRestoresBaselineIff(s: Store, x: Input, xs: seq<Input>, y: Input, setup: Setup)
    requires Ordered(s) && setup.policy.ByCreation? && Starts(s, x, setup) && AllLatest(s, [x] + xs, setup)
    requires y.op.OpVerify? && y.op.id == x.op.id
    requires Call(Exec(Next(s, x, setup), xs, setup), y.op, setup, y.env, y.later).reapplied != []
    ensures var t := Exec(Next(s, x, setup), xs, setup); var prior := Prior(s, x.op.cfg.ref, x.op.cfg.manifest.checksum);
            x.op.id in t.rows
            && (AllBaseline(Call(t, y.op, setup, y.env, y.later).reapplied, s, x.op.cfg, x.env) <==>
                if y.env.legible then PriorAhead(t, x.op.id) == None || PriorAhead(t, x.op.id) == prior else prior == None)
  {
    var t := Exec(Next(s, x, setup), xs, setup);
    CreatedEvolves(s, x, xs, setup);
    VerifySaves(t.rows[x.op.id], t, y.op, setup, y.env, y.later);
    AutomaticCallRestores(t, y.op, setup, y.env, y.later, x.op.id);
    RestoresBaselineIff(s, x, xs, y, setup);
    RecordedIsFromApply(s, x, xs, setup);
  }

  lemma VerifySaves(row: Row, t: Store, op: Op, setup: Setup, env: Env, later: Env)
    requires Valid(t) && op.OpVerify? && op.id in t.rows && row == t.rows[op.id]
    ensures var e := Call(t, op, setup, env, later); e.reapplied != [] ==> e.saves != [] && e.saves[0].id == op.id
  {
  }

  lemma WorksOnNewest(t: Store, op: Op, setup: Setup, env: Env, later: Env, id: nat)
    requires Ordered(t) && id in t.rows && Automatic(op, id) && Latest(t, op)
    requires var e := Call(t, op, setup, env, later); e.saves != [] && e.saves[0].id == id && e.reapplied != []
    ensures Newest(t, t.rows[id].ref) == Some(t.rows[id])
  {
    if op.OpTick? {
      TickRestores(t.rows[id], op.cfg, PriorIfRead(t, t.rows[id], env), env);
    } else if op.OpReconcile? {
      ReconcileWorksOn(t, op.cfg, op.id, setup, env, later);
      NewestRow(t, op.cfg.ref);
    }
  }

  /**
   * Whatever ran in between, an automatic rollback of a rollout, by a tick, by a reconcile or by a
   * gate run by hand on the newest row, restores the manifest whose diff against live was empty when
   * the rollout was created, by an Apply or by a reconcile (or the rollout's own manifest when no
   * distinct earlier one was recorded).
   */
  lemma AutomaticRollbackRestoresBaseline(s: Store, x: Input, xs: seq<Input>, y: Input, setup: Setup)
    requires Ordered(s) && setup.policy.ByCreation? && Starts(s, x, setup) && AllLatest(s, [x] + xs, setup)
    requires Automatic(y.op, x.op.id) && Latest(Exec(Next(s, x, setup), xs, setup), y.op) && (y.op.OpVerify? ==> y.env.legible)
    requires var e := Call(Exec(Next(s, x, setup), xs, setup), y.op, setup, y.env, y.later);
             e.saves != [] && e.saves[0].id == x.op.id
    ensures AllBaseline(Call(Exec(Next(s, x, setup), xs, setup), y.op, setup, y.env, y.later).reapplied, s, x.op.cfg, x.env)
  {
    var s1 := Next(s, x, setup);
    var t := Exec(s1, xs, setup);
    if Call(t, y.op, setup, y.env, y.later).reapplied != [] {
      CreatedEvolves(s, x, xs, setup);
      NextOrdered(s, x, setup);
      RunOrdered(s1, xs, setup);
      AutomaticCallRestores(t, y.op, setup, y.env, y.later, x.op.id);
      WorksOnNewest(t, y.op, setup, y.env, y.later, x.op.id);
      RestoresBaselineIff(s, x, xs, y, setup);
      RecordedIsFromApply(s, x, xs, setup);
    }
  }
}
