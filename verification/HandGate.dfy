/** What a gate run by hand on an older rollout does to the baseline. */
module HandGate {
  import opened Rollout
  import opened Progressive
  import opened Gates
  import opened StepOps
  import opened Engine
  import opened Listing
  import opened Samples

  /**
   * A failing gate run by hand restores the manifest of the target's newest rollout whenever that is
   * another one, however recent it is.
   */
  lemma NewestIsRestored(t: Store, op: Op, setup: Setup, env: Env, later: Env)
    requires Valid(t) && op.OpVerify? && op.id in t.rows && env.legible && env.free && env.reapplies && op.cfg.auto
    requires var row := t.rows[op.id];
             row.blocked == "" && row.phase.Verifying?
             && FirstFailure(RunGatesSpec(GatesFromConfig(op.cfg.healthCheck, true, op.cfg.smoke, op.cfg.analysis, setup.metrics), env.oracle)) != ""
             && Newest(t, row.ref).Some? && Distinct(Newest(t, row.ref).value, row.ref, row.desired.checksum)
    ensures Call(t, op, setup, env, later).reapplied == [Newest(t, t.rows[op.id].ref).value.desired]
  {
    var row := t.rows[op.id];
    NewestIsFirst(t.rows, t.listing, row.ref, row.desired.checksum);
  }

  lemma {:induction false} NewestIsFirst(rows: map<nat, Row>, ids: seq<nat>, ref: string, exclude: string)
    ensures var newest := First(rows, ids, (r: Row) => r.ref == ref);
            newest.Some? && Distinct(newest.value, ref, exclude) ==> First(rows, ids, (r: Row) => Distinct(r, ref, exclude)) == newest
    decreases |ids|
  {
    if ids != [] { NewestIsFirst(rows, ids[1..], ref, exclude); }
  }

  // ---------- an example ----------

  const EMPTY := Store(map[], [])
  const PLAN := Plan("blue-green", [Step(100, 0)])

  const ANY: Manifest -> bool := (m: Manifest) => true

  // No manifest differs from live; the target is healthy only if `well`.
  function If(well: bool): Env {
    Plain(0, true, well, ANY)
  }

  const OLD := Store(map[0 := OnOnlyStep(0, "a", PLAN)], [0])
  const BOTH := Store(map[0 := OnOnlyStep(0, "a", PLAN), 1 := OnOnlyStep(1, "b", PLAN)], [1, 0])
  const UNDONE := Store(BOTH.rows[0 := OnOnlyStep(0, "a", PLAN).(phase := RolledBack, desired := Manifest("b", ""))], [1, 0])

  const APPLY_OLD := Input(OpApply(Cfg("a", BlueGreen), 0), If(true), If(true), 9)
  const APPLY_NEW := Input(OpApply(Cfg("b", BlueGreen), 1), If(true), If(true), 9)
  const VERIFY_OLD := Input(OpVerify(0, Cfg("a", BlueGreen)), If(false), If(false), 9)
  const VERIFY_NEW := Input(OpVerify(1, Cfg("b", BlueGreen)), If(false), If(false), 9)

  lemma OldApplied()
    ensures Next(EMPTY, APPLY_OLD, BY_CREATION) == OLD
  {
    assert PlanFor(BlueGreen) == PLAN;
    AppliedStep(EMPTY, 0, "a", BlueGreen, ANY, BY_CREATION);
    assert [0] + [] == [0];
  }

  lemma NewApplied()
    ensures Next(OLD, APPLY_NEW, BY_CREATION) == BOTH
  {
    assert PlanFor(BlueGreen) == PLAN && [0][1..] == [];
    assert OLD.rows[0] == OnOnlyStep(0, "a", PLAN) && OLD.rows[0].phase.Verifying?;
    assert InFlight(OLD, "app") == First(OLD.rows, [], (r: Row) => r.ref == "app" && r.phase.InFlight());
    AppliedStep(OLD, 1, "b", BlueGreen, ANY, BY_CREATION);
    assert [1] + [0] == [1, 0];
  }

  lemma GateFails()
    ensures FirstFailure(RunGatesSpec(GatesFromConfig(false, true, None, None, false), If(false).oracle)) != ""
  {
    NoFailureMeansAllPass(GatesFromConfig(false, true, None, None, false), If(false).oracle);
    assert Enabled(GatesFromConfig(false, true, None, None, false), HealthGate);
  }

  lemma Priors()
    ensures Prior(EMPTY, "app", "a") == None && Prior(OLD, "app", "b") == Some(Manifest("a", ""))
    ensures Prior(BOTH, "app", "a") == Some(Manifest("b", "")) && Prior(UNDONE, "app", "b") == None
  {
    assert [0][1..] == [];
    FirstOfTwo(BOTH.rows, 1, 0, (r: Row) => Distinct(r, "app", "a"));
    FirstOfTwo(UNDONE.rows, 1, 0, (r: Row) => Distinct(r, "app", "b"));
  }

  lemma OldIsUndone()
    ensures Call(BOTH, VERIFY_OLD.op, BY_CREATION, If(false), If(false)).reapplied == [Manifest("b", "")]
    ensures Next(BOTH, VERIFY_OLD, BY_CREATION) == UNDONE
  {
    Priors();
    GateFails();
    var back := UNDONE.rows[0];
    assert Call(BOTH, VERIFY_OLD.op, BY_CREATION, If(false), If(false)).saves == [back];
    SaveOne(BOTH, back, ByCreation);
  }

  lemma NewIsUndone()
    ensures Call(UNDONE, VERIFY_NEW.op, BY_CREATION, If(false), If(false)).reapplied == [Manifest("b", "")]
    ensures Newest(UNDONE, "app") == Some(UNDONE.rows[1])
  {
    Priors();
    GateFails();
    FirstOfTwo(UNDONE.rows, 1, 0, (r: Row) => r.ref == "app");
    assert UNDONE.rows[1] == OnOnlyStep(1, "b", PLAN);
  }

  /**
   * Two rollouts, "a" and then "b". Nothing was recorded as "a" was applied, yet its failing gate
   * restores "b". And "a", which was recorded and compared as "b" was applied, is then recorded no
   * more: the failing gate of "b", the newest, restores "b" itself.
   */
  lemma HandGateLosesBaseline()
    ensures Next(EMPTY, APPLY_OLD, BY_CREATION) == OLD && Next(OLD, APPLY_NEW, BY_CREATION) == BOTH && Next(BOTH, VERIFY_OLD, BY_CREATION) == UNDONE
    ensures Prior(EMPTY, "app", "a") == None
    ensures Call(BOTH, VERIFY_OLD.op, BY_CREATION, If(false), If(false)).reapplied == [Manifest("b", "")]
    ensures Prior(OLD, "app", "b") == Some(Manifest("a", "")) && Newest(UNDONE, "app") == Some(UNDONE.rows[1])
    ensures Call(UNDONE, VERIFY_NEW.op, BY_CREATION, If(false), If(false)).reapplied == [Manifest("b", "")]
  {
    OldApplied();
    NewApplied();
    Priors();
    OldIsUndone();
    NewIsUndone();
  }
}
