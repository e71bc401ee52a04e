/** What becomes of the baseline when the store lists by last update, as the SQLite store does. */
module UpdateOrder {
  import opened Rollout
  import opened Progressive
  import opened StepOps
  import opened Engine
  import opened Runs
  import opened Listing
  import opened Baseline
  import opened Samples

  // ---------- the writes of a run ----------

  /** Every save of a run, in order. */
  function Writes(s: Store, xs: seq<Input>, setup: Setup): seq<Row>
    decreases |xs|
  {
    if xs == [] then []
    else Kept(Call(s, xs[0].op, setup, xs[0].env, xs[0].later).saves, xs[0].kept) + Writes(Next(s, xs[0], setup), xs[1..], setup)
  }

  lemma {:induction false} RunIsItsWrites(s: Store, xs: seq<Input>, setup: Setup)
    ensures Exec(s, xs, setup) == SaveAll(s, Writes(s, xs, setup), setup.policy)
    decreases |xs|
  {
    if xs != [] {
      var first := Kept(Call(s, xs[0].op, setup, xs[0].env, xs[0].later).saves, xs[0].kept);
      RunIsItsWrites(Next(s, xs[0], setup), xs[1..], setup);
      SaveAllConcat(s, first, Writes(Next(s, xs[0], setup), xs[1..], setup), setup.policy);
    }
  }

  /** The ids by last write, the most recent first, and then those not written as they were listed. */
  function Recency(ids: seq<nat>, writes: seq<Row>): seq<nat> {
    if writes == [] then ids
    else
      var front, last := writes[..|writes| - 1], writes[|writes| - 1];
      [last.id] + Without(Recency(ids, front), last.id)
  }

  lemma {:induction false} ListingIsRecency(s: Store, writes: seq<Row>)
    requires Valid(s)
    ensures Valid(SaveAll(s, writes, ByUpdate)) && SaveAll(s, writes, ByUpdate).listing == Recency(s.listing, writes)
    decreases |writes|
  {
    if writes != [] {
      var front, last := writes[..|writes| - 1], writes[|writes| - 1];
      ListingIsRecency(s, front);
      var t := SaveAll(s, front, ByUpdate);
      assert writes == front + [last] && [last][1..] == [];
      SaveAllConcat(s, front, [last], ByUpdate);
      assert SaveAll(t, [last], ByUpdate) == Save(t, last, ByUpdate);
      SaveValid(t, last, ByUpdate);
      if last.id !in t.rows { AbsentWithout(t.listing, last.id); }
    }
  }

  /** The manifest of the last written rollout of the target that now has another checksum. */
  function LastWritten(writes: seq<Row>, rows: map<nat, Row>, ref: string, exclude: string): Option<Manifest> {
    if writes == [] then None
    else
      var last := writes[|writes| - 1];
      if last.id in rows && Distinct(rows[last.id], ref, exclude) then Some(rows[last.id].desired)
      else LastWritten(writes[..|writes| - 1], rows, ref, exclude)
  }

  lemma {:induction false} PriorWithout(rows: map<nat, Row>, ids: seq<nat>, id: nat, ref: string, exclude: string)
    requires id in rows ==> !Distinct(rows[id], ref, exclude)
    ensures PriorAmong(rows, Without(ids, id), ref, exclude) == PriorAmong(rows, ids, ref, exclude)
    decreases |ids|
  {
    if ids != [] {
      PriorWithout(rows, ids[1..], id, ref, exclude);
      if ids[0] != id { assert Without(ids, id)[1..] == Without(ids[1..], id); }
    }
  }

  lemma {:induction false} PriorByRecency(rows: map<nat, Row>, ids: seq<nat>, writes: seq<Row>, ref: string, exclude: string)
    ensures PriorAmong(rows, Recency(ids, writes), ref, exclude)
              == OrElse(LastWritten(writes, rows, ref, exclude), PriorAmong(rows, ids, ref, exclude))
    decreases |writes|
  {
    if writes != [] {
      var front, last := writes[..|writes| - 1], writes[|writes| - 1];
      var before := Recency(ids, front);
      PriorByRecency(rows, ids, front, ref, exclude);
      assert ([last.id] + Without(before, last.id))[1..] == Without(before, last.id);
      if !(last.id in rows && Distinct(rows[last.id], ref, exclude)) { PriorWithout(rows, before, last.id, ref, exclude); }
    }
  }

  /**
   * Listed by update, what is recorded for a target after any run is the manifest of the rollout
   * written last among those with another checksum, or, when the run wrote none of them, the first
   * such as the target was listed before.
   */
  lemma RecordedByUpdate(s: Store, xs: seq<Input>, setup: Setup, ref: string, exclude: string)
    requires Inv(s) && setup.policy.ByUpdate?
    ensures var t := Exec(s, xs, setup);
            Prior(t, ref, exclude)
              == OrElse(LastWritten(Writes(s, xs, setup), t.rows, ref, exclude), PriorAmong(t.rows, s.listing, ref, exclude))
  {
    var t := Exec(s, xs, setup);
    RunIsItsWrites(s, xs, setup);
    ListingIsRecency(s, Writes(s, xs, setup));
    PriorByRecency(t.rows, s.listing, Writes(s, xs, setup), ref, exclude);
  }

  // What the writes of a run, after the call that creates the row, leave as its earlier manifest.
  function Written(s: Store, x: Input, xs: seq<Input>, setup: Setup): Option<Manifest>
    requires Creates(x.op)
  {
    LastWritten(Writes(Next(s, x, setup), xs, setup), Exec(Next(s, x, setup), xs, setup).rows, x.op.cfg.ref, x.op.cfg.manifest.checksum)
  }

  /**
   * Listed by update, an automatic rollback restores the baseline exactly when the last write of the
   * run to a rollout of the target that now has another checksum left it with that manifest; and
   * when there is no such write, when what was listed behind the new row still gives that manifest.
   */
  lemma UpdateOrderRestoresLastWritten(s: Store, x: Input, xs: seq<Input>, y: Input, setup: Setup)
    requires Starts(s, x, setup) && setup.policy.ByUpdate? && Automatic(y.op, x.op.id) && (y.op.OpVerify? ==> y.env.legible)
    requires var e := Call(Exec(Next(s, x, setup), xs, setup), y.op, setup, y.env, y.later);
             e.saves != [] && e.saves[0].id == x.op.id && e.reapplied != []
    ensures var t := Exec(Next(s, x, setup), xs, setup);
            var prior := Prior(s, x.op.cfg.ref, x.op.cfg.manifest.checksum);
            AllBaseline(Call(t, y.op, setup, y.env, y.later).reapplied, s, x.op.cfg, x.env) <==>
            if Written(s, x, xs, setup).Some? then Written(s, x, xs, setup) == prior
            else PriorAmong(t.rows, s.listing, x.op.cfg.ref, x.op.cfg.manifest.checksum) == prior
  {
    var t := Exec(Next(s, x, setup), xs, setup);
    RestoresBaselineIff(s, x, xs, y, setup);
    CreatedEvolves(s, x, xs, setup);
    AutomaticCallRestores(t, y.op, setup, y.env, y.later, x.op.id);
    RecordedAfterCreation(s, x, xs, setup);
  }

  /** What is recorded for a rollout that still has its own manifest. */
  lemma RecordedAfterCreation(s: Store, x: Input, xs: seq<Input>, setup: Setup)
    requires Inv(s) && setup.policy.ByUpdate? && Creates(x.op) && x.op.id !in s.rows && x.op.id in Next(s, x, setup).rows
    requires var t := Exec(Next(s, x, setup), xs, setup); x.op.id in t.rows && !t.rows[x.op.id].phase.RolledBack?
    ensures var t := Exec(Next(s, x, setup), xs, setup); var ref, own := x.op.cfg.ref, x.op.cfg.manifest.checksum;
            Prior(t, ref, own) == OrElse(Written(s, x, xs, setup), PriorAmong(t.rows, s.listing, ref, own))
  {
    var id, ref, own := x.op.id, x.op.cfg.ref, x.op.cfg.manifest.checksum;
    var s1 := Next(s, x, setup);
    var t := Exec(s1, xs, setup);
    CreatedEvolves(s, x, xs, setup);
    NextKeeps(s, x, setup);
    RecordedByUpdate(s1, xs, setup, ref, own);
    CreatedInFront(s, x, setup);
    assert ([id] + s.listing)[1..] == s.listing;
    assert !Distinct(t.rows[id], ref, own);
  }

  lemma CreatedInFront(s: Store, x: Input, setup: Setup)
    requires Inv(s) && setup.policy.ByUpdate? && Creates(x.op) && x.op.id !in s.rows && x.op.id in Next(s, x, setup).rows
    ensures Next(s, x, setup).listing == [x.op.id] + s.listing
  {
    CallLegal(s, x.op, setup, x.env, x.later);
    var saves := Kept(Call(s, x.op, setup, x.env, x.later).saves, x.kept);
    SaveAllRows(s, saves, setup.policy);
    ListingIsRecency(s, saves);
    OwnRecency(s.listing, saves);
  }

  lemma {:induction false} OwnRecency(ids: seq<nat>, saves: seq<Row>)
    requires SameId(saves) && saves != [] && saves[0].id !in ids
    ensures Recency(ids, saves) == [saves[0].id] + ids
    decreases |saves|
  {
    var front, id := saves[..|saves| - 1], saves[0].id;
    AbsentWithout(ids, id);
    if front != [] {
      OwnRecency(ids, front);
      assert ([id] + ids)[1..] == ids;
    }
  }

  /** The run gives no rollout of the target that was there before another manifest. */
  ghost predicate ManifestsStay(s: Store, x: Input, xs: seq<Input>, setup: Setup)
    requires Creates(x.op)
  {
    SameManifests(s, Exec(Next(s, x, setup), xs, setup), s.listing, x.op.cfg.ref)
  }

  /** So when manifests stay, the baseline is kept exactly if no distinct rollout was written, or the last one has that manifest. */
  lemma UpdateOrderKeepsBaselineIff(s: Store, x: Input, xs: seq<Input>, y: Input, setup: Setup)
    requires Starts(s, x, setup) && setup.policy.ByUpdate? && Automatic(y.op, x.op.id) && (y.op.OpVerify? ==> y.env.legible)
    requires ManifestsStay(s, x, xs, setup)
    requires var e := Call(Exec(Next(s, x, setup), xs, setup), y.op, setup, y.env, y.later);
             e.saves != [] && e.saves[0].id == x.op.id && e.reapplied != []
    ensures var t := Exec(Next(s, x, setup), xs, setup);
            AllBaseline(Call(t, y.op, setup, y.env, y.later).reapplied, s, x.op.cfg, x.env) <==>
            Written(s, x, xs, setup) == None
            || Written(s, x, xs, setup) == Prior(s, x.op.cfg.ref, x.op.cfg.manifest.checksum)
  {
    UpdateOrderRestoresLastWritten(s, x, xs, y, setup);
    SamePrior(s, Exec(Next(s, x, setup), xs, setup), s.listing, x.op.cfg.ref, x.op.cfg.manifest.checksum);
  }

  // ---------- an example ----------

  const LIVE := Manifest("live", "")
  const WAITING := Manifest("waiting", "")
  const ONE_STEP := Strategy.Canary([Step(100, 10)])
  const PLAN := Plan("canary", [Step(100, 10)])
  const CFG := Cfg("new", ONE_STEP)

  const ONLY_LIVE: Manifest -> bool := (m: Manifest) => m == LIVE

  // Only LIVE matches what runs; the step gate answers `healthy`.
  function At(now: int, healthy: bool): Env {
    Plain(now, healthy, true, ONLY_LIVE)
  }

  const APPLY := Input(OpApply(CFG, 2), At(0, true), At(0, true), 9)
  const REJECT := Input(OpReject(1), At(1, true), At(1, true), 9)

  // The row that Apply leaves on its first step.
  const BAKING := OnOnlyStep(2, "new", PLAN)

  const START := Store(map[0 := Sample(0, Promoted, "live"), 1 := Sample(1, AwaitingApproval, "waiting")], [0, 1])
  const APPLIED := Store(START.rows[2 := BAKING], [2, 0, 1])
  const REJECTED := Store(APPLIED.rows[1 := Sample(1, RolledBack, "waiting")], [1, 2, 0])
  const REJECTED_IN_PLACE := Store(REJECTED.rows, [2, 0, 1])

  lemma StartScans()
    ensures Inv(START) && Prior(START, "app", "new") == Some(LIVE) && InFlight(START, "app") == None
  {
    FirstOfTwo(START.rows, 0, 1, (r: Row) => r.ref == "app" && r.phase.InFlight());
    FirstOfTwo(START.rows, 0, 1, (r: Row) => Distinct(r, "app", "new"));
  }

  lemma ApplyReaches(setup: Setup)
    ensures Next(START, APPLY, setup) == APPLIED
  {
    StartScans();
    assert PlanFor(ONE_STEP) == PLAN;
    AppliedStep(START, 2, "new", ONE_STEP, ONLY_LIVE, setup);
    assert [2] + [0, 1] == [2, 0, 1];
  }

  lemma RejectReaches()
    ensures Next(APPLIED, REJECT, BY_UPDATE) == REJECTED && Next(APPLIED, REJECT, BY_CREATION) == REJECTED_IN_PLACE
  {
    var row := Sample(1, RolledBack, "waiting");
    assert Reject(APPLIED.rows[1]).saves == [row];
    assert [2, 0, 1][1..] == [0, 1] && [0, 1][1..] == [1] && [1][1..] == [];
    assert Without([2, 0, 1], 1) == [2, 0];
    SaveOne(APPLIED, row, ByUpdate);
    SaveOne(APPLIED, row, ByCreation);
  }

  lemma TickRestores(t: Store, setup: Setup)
    requires t == REJECTED || t == REJECTED_IN_PLACE
    ensures Call(t, OpTick(2, CFG), setup, At(2, false), At(2, false)).reapplied == if t == REJECTED then [WAITING] else [LIVE]
  {
    assert [2, 0, 1][1..] == [0, 1];
    FirstOfTwo(REJECTED_IN_PLACE.rows, 0, 1, (r: Row) => Distinct(r, "app", "new"));
    var found := if t == REJECTED then WAITING else LIVE;
    assert Prior(t, "app", "new") == Some(found);
    assert Tick(BAKING, CFG, Some(found), At(2, false)) == FailProgressive(BAKING, CFG, Some(found), At(2, false));
  }

  /**
   * Listed by update, the baseline can be lost: LIVE is what runs and is compared as the new rollout
   * starts; rejecting an older waiting rollout makes that one the last updated; the failing canary
   * is then "rolled back" to a manifest that never ran.
   */
  lemma UpdateOrderLosesBaseline()
    ensures Inv(START) && Prior(START, "app", "new") == Some(LIVE)
    ensures Next(START, APPLY, BY_UPDATE) == APPLIED && Next(APPLIED, REJECT, BY_UPDATE) == REJECTED
    ensures Call(REJECTED, OpTick(2, CFG), BY_UPDATE, At(2, false), At(2, false)).reapplied == [WAITING]
  {
    StartScans();
    ApplyReaches(BY_UPDATE);
    RejectReaches();
    TickRestores(REJECTED, BY_UPDATE);
  }

  /** The same calls restore what was live when the store lists by creation. */
  lemma CreationOrderKeepsBaseline()
    ensures Next(START, APPLY, BY_CREATION) == APPLIED && Next(APPLIED, REJECT, BY_CREATION) == REJECTED_IN_PLACE
    ensures Call(REJECTED_IN_PLACE, OpTick(2, CFG), BY_CREATION, At(2, false), At(2, false)).reapplied == [LIVE]
  {
    ApplyReaches(BY_CREATION);
    RejectReaches();
    TickRestores(REJECTED_IN_PLACE, BY_CREATION);
  }
}
