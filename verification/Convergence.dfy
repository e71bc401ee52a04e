/** Repeated reconciles of one target settle: the newest rollout is promoted and live matches Git. */
module Convergence {
  import opened Rollout
  import opened Progressive
  import opened StepOps
  import opened Engine
  import opened Evolution
  import opened Runs
  import opened Canary
  import opened Promotion
  import Baseline

  /** What the target reports: the checksum it was given, and whether it has drifted from it since. */
  datatype Live = Live(checksum: string, drifted: bool)

  /** The store and what the target reports. */
  datatype World = World(store: Store, live: Live)

  /** One reconcile call: the id a new rollout would get, and the answers of the outside. */
  datatype Round = Round(id: nat, env: Env, later: Env)

  /** The engine can do its work, every check passes, nothing is gated. */
  ghost predicate Good(w: World, x: Round, cfg: Config, setup: Setup) {
    && Timed(x.env) && x.env.free && x.env.ready && x.env.admits && !x.env.gated
    && x.env.lists && x.env.legible && x.env.plans && x.env.deploys
    && (forall i: nat :: x.env.health(i) && x.env.routes(i))
    && x.env.observed == w.live.checksum && x.env.deepDrift == w.live.drifted
    && x.later.legible && AutomaticPass(cfg, setup.metrics, x.later.oracle)
    && x.id !in w.store.rows
  }

  /** After a reconcile the target reports what was deployed last, if anything was and it was accepted; that clears a drift. */
  function Reconciled(w: World, x: Round, cfg: Config, setup: Setup): World {
    var e := Reconcile(w.store, cfg, x.id, setup, x.env, x.later);
    World(SaveAll(w.store, e.saves, setup.policy),
          if e.deployed != [] && x.env.deploys then Live(e.deployed[|e.deployed| - 1].checksum, false) else w.live)
  }

  /** The target runs what Git has. */
  predicate Synced(live: Live, cfg: Config) {
    live == Live(cfg.manifest.checksum, false)
  }

  function Rounds(w: World, xs: seq<Round>, cfg: Config, setup: Setup): World
    decreases |xs|
  {
    if xs == [] then w else Rounds(Reconciled(w, xs[0], cfg, setup), xs[1..], cfg, setup)
  }

  // ---------- where a target stands ----------

  // r is the target's newest row, and no other row of the target is in flight.
  ghost predicate Leads(s: Store, ref: string, r: Row) {
    && Inv(s) && Newest(s, ref) == Some(r) && r.id in s.rows && s.rows[r.id] == r && r.ref == ref
    && forall id <- s.rows :: s.rows[id].ref == ref && s.rows[id].phase.InFlight() ==> id == r.id
  }

  // r is a row of the target, no other is in flight, and saving r puts or leaves it first in the listing.
  ghost predicate Acts(s: Store, ref: string, r: Row, policy: Policy) {
    && Inv(s) && r.id in s.rows && s.rows[r.id] == r && r.ref == ref
    && (forall id <- s.rows :: s.rows[id].ref == ref && s.rows[id].phase.InFlight() ==> id == r.id)
    && (policy.ByCreation? ==> Newest(s, ref) == Some(r))
  }

  /** The row in flight acts: listed by creation it is the newest, and listed by update it need not be. */
  lemma InFlightActs(s: Store, ref: string, policy: Policy)
    requires Inv(s) && InFlight(s, ref).Some? && (policy.ByCreation? ==> Newest(s, ref) == InFlight(s, ref))
    ensures Acts(s, ref, InFlight(s, ref).value, policy) && InFlight(s, ref).value.phase.InFlight()
  {
    FoundRow(s, (q: Row) => q.ref == ref && q.phase.InFlight());
  }

  lemma LeaderInFlight(s: Store, ref: string, r: Row)
    requires Leads(s, ref, r)
    ensures InFlight(s, ref) == if r.phase.InFlight() then Some(r) else None
  {
    FoundRow(s, (q: Row) => q.ref == ref && q.phase.InFlight());
  }

  /** Saving such a row makes it lead, however the store lists. */
  lemma SavedLeads(s: Store, ref: string, r: Row, saves: seq<Row>, policy: Policy, env: Env)
    requires Acts(s, ref, r, policy) && saves != [] && Legal(s, saves, env) && saves[|saves| - 1].ref == ref && saves[0].id == r.id
    ensures Leads(SaveAll(s, saves, policy), ref, saves[|saves| - 1])
  {
    var t := SaveAll(s, saves, policy);
    SaveAllRows(s, saves, policy);
    LegalKeeps(s, saves, policy, env);
    if policy.ByCreation? {
      Baseline.SaveAllListing(s, saves);
      Baseline.NewestStays(s, t, s.listing, ref);
    } else {
      FrontOfListing(s, saves, policy);
    }
  }

  /** A row that is created while nothing of its target is in flight leads. */
  lemma CreatedLeads(s: Store, ref: string, saves: seq<Row>, policy: Policy, env: Env)
    requires Inv(s) && saves != [] && Legal(s, saves, env) && saves[|saves| - 1].ref == ref && saves[0].id !in s.rows
    ensures Leads(SaveAll(s, saves, policy), ref, saves[|saves| - 1])
  {
    SaveAllRows(s, saves, policy);
    LegalKeeps(s, saves, policy, env);
    FrontOfListing(s, saves, policy);
  }

  lemma {:induction false} FrontOfListing(s: Store, saves: seq<Row>, policy: Policy)
    requires saves != [] && SameId(saves) && (saves[0].id !in s.rows || policy.ByUpdate? || (s.listing != [] && s.listing[0] == saves[0].id))
    ensures var t := SaveAll(s, saves, policy); t.listing != [] && t.listing[0] == saves[0].id
    decreases |saves|
  {
    if |saves| > 1 {
      FrontOfListing(Save(s, saves[0], policy), saves[1..], policy);
    } else {
      assert saves[1..] == [];
    }
  }

  // ---------- a good tick ----------

  lemma {:induction false} GoodDriveStops(row: Row, plan: Plan, m: Machine, enteredAt: int, env: Env)
    requires m.cursor < |plan.steps| && m.place.OnStep? && !m.failed
    requires forall i: nat :: env.health(i) && env.routes(i)
    ensures DriveLoop(row, plan, m, enteredAt, env).Stopped?
    decreases |plan.steps| - m.cursor
  {
    var m' := Stepped(plan, m, env);
    if !Baking(plan, m.cursor, enteredAt, env.clock(2 * m.cursor + 1)) && m'.place.OnStep? && m'.cursor != m.cursor {
      GoodDriveStops(MarkStep(row, plan, m'.cursor, env).0, plan, m', env.clock(2 * m.cursor + 2), env);
    }
  }

  // How a good drive leaves a row: still deploying on the same plan, or verifying.
  predicate DroveWell(row: Row, plan: Plan, e: Effect) {
    && e.ok && e.reapplied == [] && e.saves != []
    && var last := e.saves[|e.saves| - 1];
       && last.desired == row.desired && last.snap.Usable() && last.snap.plan == plan
       && (if last.snap.machine.place.Complete? then last.phase.Verifying? else last.phase.Deploying?)
  }

  lemma GoodDrive(row: Row, plan: Plan, m: Machine, enteredAt: int, cfg: Config, prior: Option<Manifest>, env: Env)
    requires row.phase.Deploying? && m.cursor < |plan.steps| && m.place.OnStep? && !m.failed
    requires forall i: nat :: env.health(i) && env.routes(i)
    ensures DroveWell(row, plan, DriveStepper(row, plan, m, enteredAt, cfg, prior, env))
  {
    var (row', saves, marks, routed) := MarkStep(row, plan, m.cursor, env);
    DriveLoopShape(row', plan, m, enteredAt, env);
    GoodDriveStops(row', plan, m, enteredAt, env);
  }

  // ---------- one round ----------

  /** After a first part that left the row deploying or verifying, a passing gate promotes the verifying one. */
  lemma GoodFinalize(s: Store, first: Effect, r: Row, cfg: Config, setup: Setup, later: Env)
    requires SaveAll(s, first.saves, setup.policy).rows == s.rows[r.id := r]
    requires later.legible && AutomaticPass(cfg, setup.metrics, later.oracle) && (r.phase.Deploying? || r.phase.Verifying?)
    ensures AndFinalize(s, first, r.id, cfg, setup, later).saves
              == first.saves + if r.phase.Verifying? then [r.(phase := Promoted)] else []
  {
    AutomaticGates(cfg, setup.metrics, later.oracle);
  }

  // A row on its way: promoted, verifying, or deploying along a plan whose pauses can elapse.
  predicate OnTheWay(r: Row) {
    || r.phase.Promoted? || r.phase.Verifying?
    || (r.phase.Deploying? && (r.snap.Usable() ==> NonNegative(r.snap.plan)))
  }

  // A round wrote rows, the last of which leads and is promoted or still deploying.
  ghost predicate Moved(s: Store, saves: seq<Row>, ref: string, setup: Setup) {
    && saves != []
    && var r := saves[|saves| - 1];
       Leads(SaveAll(s, saves, setup.policy), ref, r) && OnTheWay(r) && !r.phase.Verifying?
  }

  // And as many steps are left as after its tick, which are fewer than before.
  ghost predicate MovedByTick(s: Store, r: Row, first: seq<Row>, saves: seq<Row>, ref: string, setup: Setup) {
    Moved(s, saves, ref, setup) && first != [] && Left(saves[|saves| - 1]) == Left(first[|first| - 1]) < Left(r)
  }

  /** The row an in-flight tick leaves behind, before the gate. */
  lemma GoodTick(r: Row, cfg: Config, prior: Option<Manifest>, env: Env)
    requires SnapOk(r) && Due(r, cfg, env) && Timed(env) && OnTheWay(r) && (forall i: nat :: env.health(i) && env.routes(i))
    ensures var t := Tick(r, cfg, prior, env);
            && t.ok && t.saves != []
            && var r' := t.saves[|t.saves| - 1];
               && (r'.phase.Verifying? || (r'.phase.Deploying? && r'.snap.Usable()))
               && OnTheWay(r') && Left(r') < Left(r)
  {
    DueTickAdvances(r, cfg, prior, env);
    if r.snap.Usable() {
      GoodDrive(r, r.snap.plan, r.snap.machine, r.snap.enteredAt, cfg, prior, env);
    }
  }

  // A good reconcile of a row in flight is a good tick and then the gate.
  lemma InFlightSaves(w: World, x: Round, cfg: Config, setup: Setup, r: Row)
    requires Inv(w.store) && InFlight(w.store, cfg.ref) == Some(r) && OnTheWay(r) && Good(w, x, cfg, setup) && Due(r, cfg, x.env)
    ensures var t := Tick(r, cfg, PriorIfRead(w.store, r, x.env), x.env);
            && Reconcile(w.store, cfg, x.id, setup, x.env, x.later).saves
                 == AndFinalize(w.store, t, r.id, cfg, setup, x.later).saves
            && t.saves != [] && t.saves[0].id == r.id && Legal(w.store, t.saves, x.env)
            && var last := t.saves[|t.saves| - 1];
               (last.phase.Verifying? || last.phase.Deploying?) && OnTheWay(last) && Left(last) < Left(r)
  {
    InFlightTickLegal(w.store, cfg, setup, x.env);
    GoodTick(r, cfg, PriorIfRead(w.store, r, x.env), x.env);
  }

  lemma InFlightRound(w: World, x: Round, cfg: Config, setup: Setup, r: Row)
    requires Acts(w.store, cfg.ref, r, setup.policy) && InFlight(w.store, cfg.ref) == Some(r)
    requires OnTheWay(r) && Good(w, x, cfg, setup) && Due(r, cfg, x.env)
    ensures MovedByTick(w.store, r, Tick(r, cfg, PriorIfRead(w.store, r, x.env), x.env).saves,
                        Reconcile(w.store, cfg, x.id, setup, x.env, x.later).saves, cfg.ref, setup)
  {
    InFlightGated(w, x, cfg, setup, r);
    GatedMoves(w.store, r, Tick(r, cfg, PriorIfRead(w.store, r, x.env), x.env).saves,
               Reconcile(w.store, cfg, x.id, setup, x.env, x.later).saves, cfg.ref, setup, x.env);
  }

  // What the gate adds to the saves of a tick, and that all of them are legal.
  ghost predicate Gated(s: Store, r: Row, first: seq<Row>, all: seq<Row>, env: Env) {
    && Legal(s, all, env) && first != [] && first[0].id == r.id
    && var last := first[|first| - 1];
       && (last.phase.Verifying? || last.phase.Deploying?) && OnTheWay(last) && Left(last) < Left(r)
       && all == first + if last.phase.Verifying? then [last.(phase := Promoted)] else []
  }

  lemma InFlightGated(w: World, x: Round, cfg: Config, setup: Setup, r: Row)
    requires Inv(w.store) && InFlight(w.store, cfg.ref) == Some(r) && OnTheWay(r) && Good(w, x, cfg, setup) && Due(r, cfg, x.env)
    ensures Gated(w.store, r, Tick(r, cfg, PriorIfRead(w.store, r, x.env), x.env).saves,
                  Reconcile(w.store, cfg, x.id, setup, x.env, x.later).saves, x.env)
  {
    InFlightSaves(w, x, cfg, setup, r);
    GatedSaves(w.store, Tick(r, cfg, PriorIfRead(w.store, r, x.env), x.env), r.id, cfg, setup, x.env, x.later);
  }

  lemma GatedMoves(s: Store, r: Row, first: seq<Row>, all: seq<Row>, ref: string, setup: Setup, env: Env)
    requires Acts(s, ref, r, setup.policy) && Gated(s, r, first, all, env)
    ensures MovedByTick(s, r, first, all, ref, setup)
  {
    GatedLast(first, all);
    SavedMoves(s, r, all, ref, setup, env);
  }

  lemma SavedMoves(s: Store, r: Row, all: seq<Row>, ref: string, setup: Setup, env: Env)
    requires Acts(s, ref, r, setup.policy) && all != [] && Legal(s, all, env) && all[0].id == r.id
    requires var last := all[|all| - 1]; OnTheWay(last) && !last.phase.Verifying?
    ensures Moved(s, all, ref, setup)
  {
    LegalRef(s, all, env);
    SavedLeads(s, ref, r, all, setup.policy, env);
  }

  lemma GatedSaves(s: Store, first: Effect, id: nat, cfg: Config, setup: Setup, env: Env, later: Env)
    requires Inv(s) && Legal(s, first.saves, env) && first.saves != [] && first.saves[0].id == id
    requires later.legible && AutomaticPass(cfg, setup.metrics, later.oracle)
    requires var r := first.saves[|first.saves| - 1]; r.phase.Verifying? || r.phase.Deploying?
    ensures var r, all := first.saves[|first.saves| - 1], AndFinalize(s, first, id, cfg, setup, later).saves;
            Legal(s, all, env) && all == first.saves + if r.phase.Verifying? then [r.(phase := Promoted)] else []
  {
    SaveAllRows(s, first.saves, setup.policy);
    GoodFinalize(s, first, first.saves[|first.saves| - 1], cfg, setup, later);
    AndFinalizeLegal(s, first, id, cfg, setup, env, later);
  }

  // The gate adds at most the promotion of the last row.
  lemma GatedLast(first: seq<Row>, all: seq<Row>)
    requires first != []
    requires var r := first[|first| - 1];
             (r.phase.Verifying? || r.phase.Deploying?) && OnTheWay(r)
             && all == first + if r.phase.Verifying? then [r.(phase := Promoted)] else []
    ensures all != [] && all[0] == first[0]
    ensures var r, last := first[|first| - 1], all[|all| - 1];
            OnTheWay(last) && !last.phase.Verifying? && Left(last) == Left(r) && last.ref == r.ref
  {
  }

  lemma LegalRef(s: Store, saves: seq<Row>, env: Env)
    requires saves != [] && Legal(s, saves, env)
    ensures saves[|saves| - 1].ref == if saves[0].id in s.rows then s.rows[saves[0].id].ref else saves[0].ref
  {
    assert Evolves(if saves[0].id in s.rows then s.rows[saves[0].id] else saves[0], saves[|saves| - 1]);
  }

  lemma GoodApply(s: Store, cfg: Config, id: nat, env: Env)
    requires env.admits && env.free && env.lists && env.ready && !env.gated && env.deploys && id !in s.rows
    requires InFlight(s, cfg.ref).None? && (forall i: nat :: env.health(i) && env.routes(i)) && NonNegative(PlanFor(cfg.strategy))
    ensures var a := Apply(s, cfg, id, env);
            && a.ok && a.saves != []
            && var r := a.saves[|a.saves| - 1];
               && (r.phase.Verifying? || (r.phase.Deploying? && r.snap.Usable() && r.snap.plan == PlanFor(cfg.strategy)))
               && OnTheWay(r) && r.ref == cfg.ref && Left(r) <= |PlanFor(cfg.strategy).steps|
  {
    var prior := Prior(s, cfg.ref, cfg.manifest.checksum);
    var row := NewRow(id, cfg, prior, env);
    var known := if env.legible then prior else None;
    GoodDrive(row, PlanFor(cfg.strategy), Enter(0, env.health(0), true), env.clock(0), cfg, known, env);
    StartLawful(row, cfg, known, env);
  }

  lemma ApplyRound(w: World, x: Round, cfg: Config, setup: Setup)
    requires Inv(w.store) && InFlight(w.store, cfg.ref).None? && Good(w, x, cfg, setup) && NonNegative(PlanFor(cfg.strategy))
    requires PlanChanged(cfg, x.env)
    ensures var saves := Reconcile(w.store, cfg, x.id, setup, x.env, x.later).saves;
            && Moved(w.store, saves, cfg.ref, setup)
            && Left(saves[|saves| - 1]) <= |PlanFor(cfg.strategy).steps|
            && var first := Apply(w.store, cfg, x.id, x.env).saves;
               first != [] && Left(saves[|saves| - 1]) == Left(first[|first| - 1])
  {
    var s := w.store;
    var a := Apply(s, cfg, x.id, x.env);
    GoodApply(s, cfg, x.id, x.env);
    ApplyLegal(s, cfg, x.id, x.env);
    assert Reconcile(s, cfg, x.id, setup, x.env, x.later).saves == AndFinalize(s, a, x.id, cfg, setup, x.later).saves;
    ApplyThenGate(s, a, x.id, cfg, setup, x.env, x.later);
  }

  lemma ApplyThenGate(s: Store, a: Effect, id: nat, cfg: Config, setup: Setup, env: Env, later: Env)
    requires Inv(s) && Legal(s, a.saves, env) && a.saves != [] && a.saves[0].id == id && id !in s.rows
    requires later.legible && AutomaticPass(cfg, setup.metrics, later.oracle)
    requires var r := a.saves[|a.saves| - 1]; (r.phase.Verifying? || r.phase.Deploying?) && OnTheWay(r) && r.ref == cfg.ref
    ensures var saves := AndFinalize(s, a, id, cfg, setup, later).saves;
            Moved(s, saves, cfg.ref, setup) && Left(saves[|saves| - 1]) == Left(a.saves[|a.saves| - 1])
  {
    var all := AndFinalize(s, a, id, cfg, setup, later).saves;
    GatedSaves(s, a, id, cfg, setup, env, later);
    GatedLast(a.saves, all);
    CreatedLeads(s, cfg.ref, all, setup.policy, env);
  }

  lemma StuckRound(w: World, x: Round, cfg: Config, setup: Setup, r: Row)
    requires Leads(w.store, cfg.ref, r) && r.phase.Verifying? && Good(w, x, cfg, setup) && !PlanChanged(cfg, x.env)
    requires r.desired.checksum == cfg.manifest.checksum
    ensures var saves := Reconcile(w.store, cfg, x.id, setup, x.env, x.later).saves;
            Moved(w.store, saves, cfg.ref, setup) && saves[|saves| - 1].phase.Promoted?
  {
    var s := w.store;
    LeaderInFlight(s, cfg.ref, r);
    GoodFinalize(s, NOTHING, r, cfg, setup, x.later);
    AndFinalizeLegal(s, NOTHING, r.id, cfg, setup, x.env, x.later);
    var saves := Reconcile(s, cfg, x.id, setup, x.env, x.later).saves;
    assert saves == [r.(phase := Promoted)];
    SavedLeads(s, cfg.ref, r, saves, setup.policy, x.env);
  }

  // ---------- convergence ----------

  /**
   * Nothing is held: a row in flight is deploying and its pauses can elapse. Listed by creation, a
   * row in flight is the newest one, as in every store that a run reaches (see CreatedLastFlies).
   */
  ghost predicate Unheld(w: World, cfg: Config, policy: Policy) {
    && Inv(w.store) && NonNegative(PlanFor(cfg.strategy))
    && var flying := InFlight(w.store, cfg.ref);
       flying.Some? ==> OnTheWay(flying.value) && (policy.ByCreation? ==> Newest(w.store, cfg.ref) == flying)
  }

  /** Listed by creation, every run from an ordered store keeps the row in flight the newest of its target. */
  lemma CreatedLastFlies(s: Store, xs: seq<Input>, setup: Setup, ref: string)
    requires Baseline.Ordered(s) && setup.policy.ByCreation?
    ensures var t := Exec(s, xs, setup); InFlight(t, ref).Some? ==> Newest(t, ref) == InFlight(t, ref)
  {
    Baseline.RunOrdered(s, xs, setup);
    FoundRow(Exec(s, xs, setup), (q: Row) => q.ref == ref && q.phase.InFlight());
  }

  /** How many due reconciles a target still needs. */
  function Calls(w: World, cfg: Config): nat {
    var redo := if Synced(w.live, cfg) then 0 else 1 + |PlanFor(cfg.strategy).steps|;
    match InFlight(w.store, cfg.ref)
    case Some(r) => Left(r) + redo
    case None =>
      var newest := Newest(w.store, cfg.ref);
      if newest.Some? && newest.value.phase.Verifying? && redo == 0 then 1 else redo
  }

  /**
   * The target runs what Git has, so nothing is applied; nothing is in flight, so nothing is
   * stepped; and the target has no rollout, or the first one listed is neither promoted nor verifying
   * for what is live, so nothing is gated either.
   */
  predicate Overlooked(w: World, cfg: Config) {
    && Synced(w.live, cfg) && InFlight(w.store, cfg.ref).None?
    && match Newest(w.store, cfg.ref)
       case None => true
       case Some(r) => !r.phase.Promoted? && !(r.phase.Verifying? && r.desired.checksum == w.live.checksum)
  }

  /** The call comes once the current pause has elapsed. */
  ghost predicate Timely(w: World, x: Round, cfg: Config, setup: Setup) {
    && Good(w, x, cfg, setup)
    && (InFlight(w.store, cfg.ref).Some? ==> Due(InFlight(w.store, cfg.ref).value, cfg, x.env))
  }

  ghost predicate AllTimely(w: World, xs: seq<Round>, cfg: Config, setup: Setup)
    decreases |xs|
  {
    xs != [] ==> Timely(w, xs[0], cfg, setup) && AllTimely(Reconciled(w, xs[0], cfg, setup), xs[1..], cfg, setup)
  }

  // In sync: the newest row is promoted, live matches Git and nothing is in flight.
  ghost predicate AtRest(w: World, cfg: Config) {
    && Newest(w.store, cfg.ref).Some? && Newest(w.store, cfg.ref).value.phase.Promoted?
    && Synced(w.live, cfg) && InFlight(w.store, cfg.ref).None?
  }

  // With nothing in flight the first row listed leads.
  lemma IdleLeads(s: Store, ref: string)
    requires Inv(s) && InFlight(s, ref).None? && Newest(s, ref).Some?
    ensures Leads(s, ref, Newest(s, ref).value)
  {
    FoundRow(s, (q: Row) => q.ref == ref && q.phase.InFlight());
    FoundRow(s, (q: Row) => q.ref == ref);
  }

  /** A target at rest, and one that is overlooked, is not changed by a reconcile. */
  lemma RestStays(w: World, x: Round, cfg: Config, setup: Setup)
    requires Good(w, x, cfg, setup) && (AtRest(w, cfg) || Overlooked(w, cfg))
    ensures Reconciled(w, x, cfg, setup) == w
  {
  }

  lemma NothingToDo(w: World, cfg: Config, policy: Policy)
    requires Unheld(w, cfg, policy) && Calls(w, cfg) == 0
    ensures AtRest(w, cfg) <==> !Overlooked(w, cfg)
  {
    if InFlight(w.store, cfg.ref).Some? { InFlightActs(w.store, cfg.ref, policy); }
  }

  // What a round that moved leaves: its last row leads, in flight or promoted.
  lemma MovedOn(s: Store, saves: seq<Row>, w': World, cfg: Config, setup: Setup)
    requires Moved(s, saves, cfg.ref, setup) && NonNegative(PlanFor(cfg.strategy)) && w'.store == SaveAll(s, saves, setup.policy)
    ensures Unheld(w', cfg, setup.policy) && !Overlooked(w', cfg) && Calls(w', cfg) == Ahead(saves[|saves| - 1], w'.live, cfg)
  {
    LeaderInFlight(w'.store, cfg.ref, saves[|saves| - 1]);
  }

  // What is left to do for a row once it leads, with this live.
  function Ahead(r: Row, live: Live, cfg: Config): nat {
    Left(r) + if Synced(live, cfg) then 0 else 1 + |PlanFor(cfg.strategy).steps|
  }

  // A good reconcile of an idle target that is not in sync deploys what Git has; no other deploys.
  function LiveAfter(w: World, cfg: Config): Live {
    if InFlight(w.store, cfg.ref).None? && !Synced(w.live, cfg) then Live(cfg.manifest.checksum, false) else w.live
  }

  lemma RoundLive(w: World, x: Round, cfg: Config, setup: Setup)
    requires Good(w, x, cfg, setup)
    ensures Reconciled(w, x, cfg, setup).live == LiveAfter(w, cfg)
  {
    var e := Reconcile(w.store, cfg, x.id, setup, x.env, x.later);
    if InFlight(w.store, cfg.ref).Some? {
      TickDeploysNothing(InFlight(w.store, cfg.ref).value, cfg, PriorIfRead(w.store, InFlight(w.store, cfg.ref).value, x.env), x.env);
    }
    assert e.deployed == if InFlight(w.store, cfg.ref).None? && !Synced(w.live, cfg) then [cfg.manifest] else [];
  }

  lemma RoundMoves(w: World, x: Round, cfg: Config, setup: Setup)
    requires Unheld(w, cfg, setup.policy) && !Overlooked(w, cfg) && Timely(w, x, cfg, setup) && Calls(w, cfg) > 0
    ensures var saves := Reconcile(w.store, cfg, x.id, setup, x.env, x.later).saves;
            && Moved(w.store, saves, cfg.ref, setup)
            && Ahead(saves[|saves| - 1], LiveAfter(w, cfg), cfg) < Calls(w, cfg)
  {
    var flying := InFlight(w.store, cfg.ref);
    if flying.Some? {
      InFlightActs(w.store, cfg.ref, setup.policy);
      InFlightRound(w, x, cfg, setup, flying.value);
    } else if PlanChanged(cfg, x.env) {
      ApplyRound(w, x, cfg, setup);
    } else {
      IdleLeads(w.store, cfg.ref);
      StuckRound(w, x, cfg, setup, Newest(w.store, cfg.ref).value);
    }
  }

  lemma RoundAdvances(w: World, x: Round, cfg: Config, setup: Setup)
    requires Unheld(w, cfg, setup.policy) && !Overlooked(w, cfg) && Timely(w, x, cfg, setup) && Calls(w, cfg) > 0
    ensures var w' := Reconciled(w, x, cfg, setup);
            Unheld(w', cfg, setup.policy) && !Overlooked(w', cfg) && Calls(w', cfg) < Calls(w, cfg)
  {
    RoundMoves(w, x, cfg, setup);
    RoundLive(w, x, cfg, setup);
    MovedOn(w.store, Reconcile(w.store, cfg, x.id, setup, x.env, x.later).saves, Reconciled(w, x, cfg, setup), cfg, setup);
  }

  /**
   * With Git fixed, every check passing and nothing held, a target is at rest after at most Calls
   * due reconciles if and only if it was not one that reconcile overlooks. That is so for both
   * listing orders and from every store: whatever is in flight, and, when nothing is, with no
   * rollout or with a newest one awaiting approval, verifying, promoted or rolled back.
   */
  lemma {:induction false} ReconcileConverges(w: World, xs: seq<Round>, cfg: Config, setup: Setup)
    requires Unheld(w, cfg, setup.policy) && AllTimely(w, xs, cfg, setup) && |xs| >= Calls(w, cfg)
    ensures AtRest(Rounds(w, xs, cfg, setup), cfg) <==> !Overlooked(w, cfg)
    decreases |xs|
  {
    if xs == [] {
      NothingToDo(w, cfg, setup.policy);
    } else if Overlooked(w, cfg) {
      OverlookedStays(w, xs, cfg, setup);
    } else if Calls(w, cfg) == 0 {
      NothingToDo(w, cfg, setup.policy);
      RestStays(w, xs[0], cfg, setup);
      ReconcileConverges(w, xs[1..], cfg, setup);
    } else {
      RoundAdvances(w, xs[0], cfg, setup);
      ReconcileConverges(Reconciled(w, xs[0], cfg, setup), xs[1..], cfg, setup);
    }
  }

  /** An overlooked target stays as it is, for ever, although every gate would pass. */
  lemma {:induction false} OverlookedStays(w: World, xs: seq<Round>, cfg: Config, setup: Setup)
    requires Overlooked(w, cfg) && AllTimely(w, xs, cfg, setup)
    ensures Rounds(w, xs, cfg, setup) == w && !AtRest(w, cfg)
    decreases |xs|
  {
    if xs != [] {
      RestStays(w, xs[0], cfg, setup);
      OverlookedStays(w, xs[1..], cfg, setup);
    }
  }

  /** For a rollout of the current config, and for one without a usable snapshot, that is at most the plan's length plus two. */
  lemma CallsBound(w: World, cfg: Config)
    requires var flying := InFlight(w.store, cfg.ref);
             flying.Some? && flying.value.snap.Usable() ==>
               flying.value.snap.plan == PlanFor(cfg.strategy) && Synced(w.live, cfg)
    ensures Calls(w, cfg) <= |PlanFor(cfg.strategy).steps| + 2
  {
  }

  // ---------- no fewer calls do ----------

  predicate Positive(p: Plan) {
    forall i | 0 <= i < |p.steps| :: p.steps[i].pause > 0
  }

  // The call takes no time, so at most one pause has elapsed when it is made.
  ghost predicate Instant(env: Env) {
    forall i: nat :: env.clock(i) == env.clock(0)
  }

  lemma OneStepOnly(row: Row, plan: Plan, m: Machine, enteredAt: int, env: Env)
    requires m.cursor < |plan.steps| && m.place.OnStep? && !m.failed && Positive(plan) && Instant(env)
    requires forall i: nat :: env.health(i) && env.routes(i)
    ensures var d := DriveLoop(row, plan, m, enteredAt, env);
            d.Stopped? && d.machine == if Baking(plan, m.cursor, enteredAt, env.clock(0)) then m
                                       else if m.cursor + 1 < |plan.steps| then Machine(OnStep, m.cursor + 1, false)
                                       else m.(place := Complete)
  {
    var i := m.cursor;
    assert env.clock(2 * i + 1) == env.clock(0) && env.clock(2 * i + 2) == env.clock(0);
    if !Baking(plan, i, enteredAt, env.clock(0)) && i + 1 < |plan.steps| {
      var (row', saves, marks, routed) := MarkStep(row, plan, i + 1, env);
      assert env.clock(2 * (i + 1) + 1) == env.clock(0);
      assert Baking(plan, i + 1, env.clock(0), env.clock(2 * (i + 1) + 1));
      var rest := DriveLoop(row', plan, Machine(OnStep, i + 1, false), env.clock(0), env);
      assert rest == Stopped(row', [], [], Machine(OnStep, i + 1, false), env.clock(0));
    }
  }

  lemma OneStepDrive(row: Row, plan: Plan, m: Machine, enteredAt: int, cfg: Config, prior: Option<Manifest>, env: Env)
    requires row.phase.Deploying? && m.cursor < |plan.steps| && m.place.OnStep? && !m.failed && Positive(plan) && Instant(env)
    requires forall i: nat :: env.health(i) && env.routes(i)
    ensures var saves := DriveStepper(row, plan, m, enteredAt, cfg, prior, env).saves;
            saves != [] && Left(saves[|saves| - 1]) ==
              |plan.steps| - m.cursor - if Baking(plan, m.cursor, enteredAt, env.clock(0)) then 0 else 1
  {
    var (row', saves, marks, routed) := MarkStep(row, plan, m.cursor, env);
    OneStepOnly(row', plan, m, enteredAt, env);
    DriveLoopShape(row', plan, m, enteredAt, env);
  }

  // Every plan there is to run has a pause on each step.
  ghost predicate AllPaused(s: Store, cfg: Config) {
    && Positive(PlanFor(cfg.strategy))
    && forall id <- s.rows :: s.rows[id].ref == cfg.ref && s.rows[id].snap.Usable() ==> Positive(s.rows[id].snap.plan)
  }

  lemma PausedStays(s: Store, x: Round, cfg: Config, setup: Setup)
    requires Inv(s) && AllPaused(s, cfg) && Timed(x.env)
    ensures AllPaused(SaveAll(s, Reconcile(s, cfg, x.id, setup, x.env, x.later).saves, setup.policy), cfg)
  {
    var saves := Reconcile(s, cfg, x.id, setup, x.env, x.later).saves;
    ReconcileLegal(s, cfg, x.id, setup, x.env, x.later);
    if saves != [] && saves[0].id !in s.rows { CreationBaked(s, OpReconcile(cfg, x.id), setup, x.env, x.later); }
    PausedSaves(s, saves, cfg, setup.policy, x.env);
  }

  lemma PausedSaves(s: Store, saves: seq<Row>, cfg: Config, policy: Policy, env: Env)
    requires Inv(s) && AllPaused(s, cfg) && Legal(s, saves, env)
    requires saves != [] && saves[0].id !in s.rows ==> AllBaked(saves, PlanFor(cfg.strategy), env)
    ensures AllPaused(SaveAll(s, saves, policy), cfg)
  {
    SaveAllRows(s, saves, policy);
    if saves != [] {
      var last := saves[|saves| - 1];
      if saves[0].id in s.rows {
        assert Evolves(s.rows[last.id], last) && Earns(s.rows[last.id].snap, last.snap, env);
      } else {
        assert Baked(last.snap, PlanFor(cfg.strategy), env.clock(0), env.end);
      }
      assert last.ref == cfg.ref && last.snap.Usable() ==> Positive(last.snap.plan);
    }
  }

  lemma TickTakesOne(r: Row, cfg: Config, prior: Option<Manifest>, env: Env)
    requires SnapOk(r) && Due(r, cfg, env) && Instant(env) && (forall i: nat :: env.health(i) && env.routes(i))
    requires r.snap.Usable() ==> Positive(r.snap.plan)
    ensures var saves := Tick(r, cfg, prior, env).saves;
            saves != [] && Left(saves[|saves| - 1]) == Left(r) - 1
  {
    if r.snap.Usable() { OneStepDrive(r, r.snap.plan, r.snap.machine, r.snap.enteredAt, cfg, prior, env); }
  }

  lemma ApplyTakesOne(s: Store, cfg: Config, id: nat, env: Env)
    requires env.admits && env.free && env.lists && env.ready && !env.gated && env.deploys && id !in s.rows && Instant(env)
    requires InFlight(s, cfg.ref).None? && (forall i: nat :: env.health(i) && env.routes(i)) && Positive(PlanFor(cfg.strategy))
    ensures var saves := Apply(s, cfg, id, env).saves;
            saves != [] && Left(saves[|saves| - 1]) == |PlanFor(cfg.strategy).steps|
  {
    var prior := Prior(s, cfg.ref, cfg.manifest.checksum);
    OneStepDrive(NewRow(id, cfg, prior, env), PlanFor(cfg.strategy), Enter(0, env.health(0), true), env.clock(0), cfg,
                 if env.legible then prior else None, env);
  }

  lemma InFlightTakesOne(w: World, x: Round, cfg: Config, setup: Setup, r: Row)
    requires Acts(w.store, cfg.ref, r, setup.policy) && InFlight(w.store, cfg.ref) == Some(r)
    requires OnTheWay(r) && Good(w, x, cfg, setup) && Due(r, cfg, x.env)
    requires Instant(x.env) && (r.snap.Usable() ==> Positive(r.snap.plan))
    ensures var saves := Reconcile(w.store, cfg, x.id, setup, x.env, x.later).saves;
            Moved(w.store, saves, cfg.ref, setup) && Left(saves[|saves| - 1]) == Left(r) - 1
  {
    InFlightRound(w, x, cfg, setup, r);
    TickTakesOne(r, cfg, PriorIfRead(w.store, r, x.env), x.env);
  }

  lemma ApplyingTakesOne(w: World, x: Round, cfg: Config, setup: Setup)
    requires Inv(w.store) && InFlight(w.store, cfg.ref).None? && Good(w, x, cfg, setup) && PlanChanged(cfg, x.env)
    requires Instant(x.env) && Positive(PlanFor(cfg.strategy))
    ensures var saves := Reconcile(w.store, cfg, x.id, setup, x.env, x.later).saves;
            Moved(w.store, saves, cfg.ref, setup) && Left(saves[|saves| - 1]) == |PlanFor(cfg.strategy).steps|
  {
    assert NonNegative(PlanFor(cfg.strategy));
    ApplyRound(w, x, cfg, setup);
    ApplyTakesOne(w.store, cfg, x.id, x.env);
  }

  lemma RoundMovesOne(w: World, x: Round, cfg: Config, setup: Setup)
    requires Unheld(w, cfg, setup.policy) && !Overlooked(w, cfg) && Timely(w, x, cfg, setup) && Calls(w, cfg) > 0
    requires AllPaused(w.store, cfg) && Instant(x.env)
    ensures var saves := Reconcile(w.store, cfg, x.id, setup, x.env, x.later).saves;
            && Moved(w.store, saves, cfg.ref, setup)
            && Ahead(saves[|saves| - 1], LiveAfter(w, cfg), cfg) == Calls(w, cfg) - 1
  {
    var flying := InFlight(w.store, cfg.ref);
    if flying.Some? {
      InFlightActs(w.store, cfg.ref, setup.policy);
      InFlightTakesOne(w, x, cfg, setup, flying.value);
    } else if PlanChanged(cfg, x.env) {
      ApplyingTakesOne(w, x, cfg, setup);
    } else {
      IdleLeads(w.store, cfg.ref);
      StuckRound(w, x, cfg, setup, Newest(w.store, cfg.ref).value);
    }
  }

  /** A call that takes no time makes one step of the way. */
  lemma RoundTakesOne(w: World, x: Round, cfg: Config, setup: Setup)
    requires Unheld(w, cfg, setup.policy) && !Overlooked(w, cfg) && Timely(w, x, cfg, setup) && Calls(w, cfg) > 0
    requires AllPaused(w.store, cfg) && Instant(x.env)
    ensures Calls(Reconciled(w, x, cfg, setup), cfg) == Calls(w, cfg) - 1
  {
    RoundMovesOne(w, x, cfg, setup);
    RoundLive(w, x, cfg, setup);
    MovedOn(w.store, Reconcile(w.store, cfg, x.id, setup, x.env, x.later).saves, Reconciled(w, x, cfg, setup), cfg, setup);
  }

  /** So with a pause on every step and calls that take no time, fewer than Calls reconciles do not end at rest. */
  lemma {:induction false} FewerCallsDoNotDo(w: World, xs: seq<Round>, cfg: Config, setup: Setup)
    requires Unheld(w, cfg, setup.policy) && AllTimely(w, xs, cfg, setup) && AllPaused(w.store, cfg) && |xs| < Calls(w, cfg)
    requires forall i | 0 <= i < |xs| :: Instant(xs[i].env)
    ensures !AtRest(Rounds(w, xs, cfg, setup), cfg)
    decreases |xs|
  {
    if xs != [] {
      if Overlooked(w, cfg) {
        OverlookedStays(w, xs, cfg, setup);
      } else {
        RoundAdvances(w, xs[0], cfg, setup);
        RoundTakesOne(w, xs[0], cfg, setup);
        PausedStays(w.store, xs[0], cfg, setup);
        FewerCallsDoNotDo(Reconciled(w, xs[0], cfg, setup), xs[1..], cfg, setup);
      }
    }
  }

  // ---------- how a target comes to be overlooked ----------

  /** Roll a target back by hand and then revert Git to what is live: nothing is ever promoted again. */
  lemma RollbackThenRevertIsOverlooked(s: Store, r: Row, force: bool, env: Env, setup: Setup, cfg: Config)
    requires Leads(s, cfg.ref, r)
    requires var e := RollbackLast(s, cfg.ref, force, env);
             e.saves != [] && e.reapplied != [] && cfg.manifest.checksum == e.reapplied[0].checksum
    ensures var e := RollbackLast(s, cfg.ref, force, env);
            Overlooked(World(SaveAll(s, e.saves, setup.policy), Live(e.reapplied[0].checksum, false)), cfg)
  {
    RollbackLastLegal(s, cfg.ref, force, env);
    SavedLeads(s, cfg.ref, r, RollbackLast(s, cfg.ref, force, env).saves, setup.policy, env);
    LeaderInFlight(SaveAll(s, RollbackLast(s, cfg.ref, force, env).saves, setup.policy), cfg.ref,
                   RollbackLast(s, cfg.ref, force, env).saves[0]);
  }

  /**
   * An Apply died before it deployed, and Git was reverted to what is live. If the gate fails as the
   * row is recovered, the row is left verifying for what is not live.
   */
  lemma FailedRecoveryIsOverlooked(w: World, x: Round, cfg: Config, setup: Setup, r: Row)
    requires Inv(w.store) && InFlight(w.store, cfg.ref) == Some(r) && r.phase.Deploying? && !r.snap.Usable()
    requires setup.policy.ByCreation? ==> Newest(w.store, cfg.ref) == Some(r)
    requires Synced(w.live, cfg) && r.desired.checksum != w.live.checksum
    requires x.env.lists && x.env.free && x.env.ready && x.env.plans
    requires x.later.legible && !AutomaticPass(cfg, setup.metrics, x.later.oracle)
    ensures Overlooked(Reconciled(w, x, cfg, setup), cfg)
  {
    var s := w.store;
    InFlightActs(s, cfg.ref, setup.policy);
    var t := Tick(r, cfg, PriorIfRead(s, r, x.env), x.env);
    assert t == Effect([Recovered(r)], [], [], true);
    InFlightTickLegal(s, cfg, setup, x.env);
    GateRefuses(s, t, Recovered(r), cfg, setup, x.later);
    SavedLeads(s, cfg.ref, r, t.saves, setup.policy, x.env);
    LeaderInFlight(SaveAll(s, t.saves, setup.policy), cfg.ref, Recovered(r));
  }

  // A failing gate leaves a blocked row as it is.
  lemma GateRefuses(s: Store, t: Effect, r: Row, cfg: Config, setup: Setup, later: Env)
    requires Valid(s) && t.saves == [r] && r.phase.Verifying? && r.blocked != ""
    requires later.legible && !AutomaticPass(cfg, setup.metrics, later.oracle)
    ensures AndFinalize(s, t, r.id, cfg, setup, later).saves == t.saves
  {
    SaveAllRows(s, t.saves, setup.policy);
    AutomaticGates(cfg, setup.metrics, later.oracle);
    assert t.saves + [] == t.saves;
  }
}
