/** The engine as it runs: methods that update the store row by row, proved against the operations of StepOps and Engine. */
module EngineImpl {
  import opened Rollout
  import opened Progressive
  import opened Gates
  import opened StepOps
  import opened Evolution
  import opened Runs
  import opened Listing
  import E = Engine

  lemma SaveOnce(s: E.Store, a: Row, policy: E.Policy)
    ensures E.SaveAll(s, [a], policy) == E.Save(s, a, policy)
    ensures E.SaveAll(s, [a, a], policy) == E.Save(E.Save(s, a, policy), a, policy)
  {
    assert [a, a][1..] == [a] && [a][1..] == [];
    assert E.SaveAll(s, [a], policy) == E.SaveAll(E.Save(s, a, policy), [], policy);
    assert E.SaveAll(E.Save(s, a, policy), [a], policy) == E.SaveAll(E.Save(E.Save(s, a, policy), a, policy), [], policy);
  }

  /** The store holds this row's id with this row's manifest. */
  predicate Stored(s: E.Store, row: Row) {
    row.id in s.rows && s.rows[row.id].desired == row.desired
  }

  lemma {:induction false} MarksKeepPrior(s: E.Store, base: Row, saves: seq<Row>, policy: E.Policy)
    requires Stored(s, base) && AllSameButMarks(base, saves)
    ensures var s' := E.SaveAll(s, saves, policy);
            Stored(s', base)
            && E.Prior(s', base.ref, base.desired.checksum) == E.Prior(s, base.ref, base.desired.checksum)
    decreases |saves|
  {
    if saves != [] {
      assert SameButMarks(base, saves[0]);
      OwnSaveKeepsPrior(s, saves[0], policy, base.ref, base.desired.checksum);
      MarksKeepPrior(E.Save(s, saves[0], policy), base, saves[1..], policy);
    }
  }

  /** Whatever place the machine starts from, driving it writes only marks. */
  lemma {:induction false} DriveLoopMarks(row: Row, plan: Plan, m: Machine, enteredAt: int, env: Env)
    requires m.cursor < |plan.steps|
    ensures var d := DriveLoop(row, plan, m, enteredAt, env); SameButMarks(row, d.row) && AllSameButMarks(row, d.saves)
    ensures var d := DriveLoop(row, plan, m, enteredAt, env); d.Stopped? ==> d.machine.cursor < |plan.steps|
  {
    if m.place.OnStep? && !m.failed {
      DriveLoopShape(row, plan, m, enteredAt, env);
    }
  }

  class Engine {
    const setup: E.Setup
    var rows: map<nat, Row>
    var listing: seq<nat>
    var marks: seq<Mark>          // the steps reported, in order
    var restored: seq<Manifest>   // the manifests re-applied, in order
    var deployed: seq<Manifest>   // the manifests deployed, in order

    constructor (setup: E.Setup)
      ensures this.setup == setup && Inv(S()) && S().rows == map[] && marks == [] && restored == [] && deployed == []
    {
      this.setup := setup;
      rows, listing, marks, restored, deployed := map[], [], [], [], [];
    }

    function S(): E.Store
      reads this
    {
      E.Store(rows, listing)
    }

    /** The store and the logs are what the effect makes of the earlier ones. */
    ghost predicate Did(s: E.Store, marks: seq<Mark>, restored: seq<Manifest>, e: Effect)
      reads this
    {
      S() == E.SaveAll(s, e.saves, setup.policy) && this.marks == marks + e.marks && this.restored == restored + e.reapplied
    }

    method SaveRollout(row: Row)
      modifies this`rows, this`listing
      ensures S() == E.Save(old(S()), row, setup.policy)
    {
      if row.id !in rows {
        listing := [row.id] + listing;
      } else if setup.policy.ByUpdate? {
        listing := [row.id] + E.Without(listing, row.id);
      }
      rows := rows[row.id := row];
    }

    // ---------- scans, newest first ----------

    method Scan(p: Row -> bool) returns (r: Option<Row>)
      ensures r == E.First(rows, listing, p)
    {
      var i := 0;
      while i < |listing|
        invariant 0 <= i <= |listing|
        invariant E.First(rows, listing, p) == E.First(rows, listing[i..], p)
      {
        if listing[i] in rows && p(rows[listing[i]]) { return Some(rows[listing[i]]); }
        assert listing[i..][1..] == listing[i + 1..];
        i := i + 1;
      }
      return None;
    }

    method InFlight(ref: string) returns (r: Option<Row>)
      ensures r == E.InFlight(S(), ref)
    {
      r := Scan((r: Row) => r.ref == ref && r.phase.InFlight());
    }

    method PriorManifest(row: Row, env: Env) returns (m: Option<Manifest>)
      ensures m == E.PriorIfRead(S(), row, env)
    {
      if !env.legible { return None; }
      var found := Scan((r: Row) => E.Distinct(r, row.ref, row.desired.checksum));
      m := if found.Some? then Some(found.value.desired) else None;
    }

    // ---------- rolling back ----------

    method ApplyRollback(row: Row, prior: Manifest, hook: bool, force: bool, env: Env) returns (r: Restoration)
      modifies this`rows, this`listing, this`restored
      ensures r == StepOps.ApplyRollback(row, prior, hook, force, env)
      ensures r.Refused? ==> S() == old(S()) && restored == old(restored)
      ensures r.Restored? ==> S() == E.Save(old(S()), r.row, setup.policy) && restored == old(restored) + [prior]
    {
      var reverse := hook || row.settings.reverseHook;
      if !force && row.settings.migrates && !row.settings.compatible && !reverse { return Refused; }
      var lc := new Lifecycle(row.phase, RESUMED);
      var sent := lc.Send(EvRollback);
      if !sent || !env.reapplies { return Refused; }
      restored := restored + [prior];
      var back := row.(phase := lc.phase, desired := prior);
      SaveRollout(back);
      return Restored(back, reverse ==> env.database);
    }

    method FailProgressive(row: Row, cfg: Config, env: Env)
      requires row.phase.Deploying?
      modifies this`rows, this`listing, this`restored
      ensures Did(old(S()), old(marks), old(restored), StepOps.FailProgressive(row, cfg, E.PriorIfRead(old(S()), row, env), env))
    {
      ghost var s0 := S();
      var row' := row;
      if cfg.auto && row.blocked == "" {
        var prior := PriorManifest(row, env);
        if prior.Some? {
          var res := ApplyRollback(row, prior.value, cfg.reverseHook, true, env);
          if res.Restored? {
            SaveOnce(s0, res.row, setup.policy);
            if res.ok { return; }
            row' := res.row;
          }
        }
      }
      var lc := new Lifecycle(Deploying, RESUMED);
      var sent := lc.Send(EvError);
      var settled := row'.(phase := lc.phase);
      SaveRollout(settled);
      SaveOnce(s0, settled, setup.policy);
    }

    // ---------- driving the canary ----------

    method RecordStep(row: Row, plan: Plan, i: nat, env: Env) returns (row': Row, ok: bool)
      requires i < |plan.steps|
      modifies this`rows, this`listing, this`marks
      ensures var (r, saves, ms, routed) := MarkStep(row, plan, i, env);
              row' == r && ok == routed && S() == E.SaveAll(old(S()), saves, setup.policy) && marks == old(marks) + ms
    {
      row', ok := row, true;
      if row.progress.index == i + 1 && row.progress.weight == plan.steps[i].weight { return; }
      row' := row.(progress := Progress(i + 1, |plan.steps|, plan.steps[i].weight));
      SaveRollout(row');
      marks := marks + [MarkOf(plan, i)];
      ok := env.routes(i);
      assert [row'][1..] == [];
    }

    /** One round of the loop: leave the current step if it is due and enter the next one. */
    method AdvanceOne(row: Row, stepper: Stepper, entered: int, env: Env)
      returns (row': Row, enteredAt: int, go: bool, failed: bool, ghost saves: seq<Row>, ghost ms: seq<Mark>)
      requires stepper.machine.cursor < |stepper.plan.steps|
      requires !stepper.machine.place.Complete? && !stepper.machine.place.Aborted?
      modifies this`rows, this`listing, this`marks, stepper`machine
      ensures S() == E.SaveAll(old(S()), saves, setup.policy) && marks == old(marks) + ms
      ensures stepper.machine.cursor < |stepper.plan.steps|
      ensures go ==> old(stepper.machine).cursor < stepper.machine.cursor
      ensures So(DriveLoop(row, stepper.plan, old(stepper.machine), entered, env), go, failed, row', saves, ms, stepper.plan, stepper.machine, enteredAt, env)
    {
      var plan, i := stepper.plan, stepper.machine.cursor;
      var pause := plan.steps[i].pause;
      row', enteredAt, go, failed, saves, ms := row, entered, false, false, [], [];
      if pause > 0 && env.clock(2 * i + 1) - enteredAt < pause { return; }
      if pause >= 0 { stepper.Next(env.health(i + 1), env.fires(i + 1)); }
      failed := stepper.machine.place.Aborted? || stepper.machine.failed;
      if failed || (!stepper.machine.place.Complete? && stepper.machine.cursor == i) { return; }
      enteredAt := env.clock(2 * i + 2);
      if stepper.machine.place.Complete? { return; }
      ghost var step := MarkStep(row, plan, stepper.machine.cursor, env);
      saves, ms := step.1, step.2;
      row', go := RecordStep(row, plan, stepper.machine.cursor, env);
      failed := !go;
    }

    /** The loop of driveStepper: advance while steps are due. */
    method AdvanceDue(first: Row, stepper: Stepper, entered: int, env: Env)
      returns (row: Row, enteredAt: int, failed: bool)
      requires stepper.machine.cursor < |stepper.plan.steps|
      modifies this`rows, this`listing, this`marks, stepper`machine
      ensures var d := DriveLoop(first, stepper.plan, old(stepper.machine), entered, env);
              && row == d.row && failed == d.Failed?
              && (d.Stopped? ==> stepper.machine == d.machine && enteredAt == d.enteredAt)
              && S() == E.SaveAll(old(S()), d.saves, setup.policy) && marks == old(marks) + d.marks
    {
      row, enteredAt, failed := first, entered, false;
      ghost var whole := DriveLoop(first, stepper.plan, stepper.machine, entered, env);
      ghost var saves: seq<Row>, ms: seq<Mark> := [], [];
      var go := true;
      SoFirst(whole, first, stepper.plan, stepper.machine, entered, env);
      while go && !stepper.machine.place.Complete? && !stepper.machine.place.Aborted?
        invariant stepper.machine.cursor < |stepper.plan.steps|
        invariant S() == E.SaveAll(old(S()), saves, setup.policy) && marks == old(marks) + ms
        invariant So(whole, go, failed, row, saves, ms, stepper.plan, stepper.machine, enteredAt, env)
        decreases go, |stepper.plan.steps| - stepper.machine.cursor
      {
        ghost var more, marked;
        ghost var was, at, since := row, stepper.machine, enteredAt;
        row, enteredAt, go, failed, more, marked := AdvanceOne(row, stepper, enteredAt, env);
        SaveAllConcat(old(S()), saves, more, setup.policy);
        SoOn(whole, saves, ms, was, at, since, go, failed, row, more, marked, stepper.plan, stepper.machine, enteredAt, env);
        Assoc(old(marks), ms, marked);
        saves, ms := saves + more, ms + marked;
      }
      SoLast(whole, go, failed, row, saves, ms, stepper.plan, stepper.machine, enteredAt, env);
    }

    /** Save the machine with the row, which leaves deploying when the steps are complete. */
    method Persist(row: Row, stepper: Stepper, enteredAt: int)
      requires row.phase.Deploying?
      modifies this`rows, this`listing
      ensures S() == E.SaveAll(old(S()), [row.(snap := Saved(stepper.plan, stepper.machine, enteredAt),
                                               phase := if stepper.machine.place.Complete? then Verifying else row.phase)],
                               setup.policy)
    {
      var lc := new Lifecycle(row.phase, RESUMED);
      if stepper.machine.place.Complete? {
        var sent := lc.Send(EvDeployed);
      }
      var last := row.(snap := Saved(stepper.plan, stepper.machine, enteredAt), phase := lc.phase);
      SaveOnce(S(), last, setup.policy);
      SaveRollout(last);
    }

    /** What driveStepper does once the first step is recorded: the loop, then settle, complete or persist. */
    method DriveRest(first: Row, stepper: Stepper, entered: int, cfg: Config, env: Env) returns (ok: bool)
      requires stepper.machine.cursor < |stepper.plan.steps| && first.phase.Deploying? && Stored(S(), first)
      modifies this`rows, this`listing, this`marks, this`restored, stepper`machine
      ensures var e := Finish(DriveLoop(first, stepper.plan, old(stepper.machine), entered, env), stepper.plan, cfg,
                              E.PriorIfRead(old(S()), first, env), env);
              ok == e.ok && Did(old(S()), old(marks), old(restored), e)
    {
      ghost var s0, d := S(), DriveLoop(first, stepper.plan, stepper.machine, entered, env);
      DriveLoopMarks(first, stepper.plan, stepper.machine, entered, env);
      MarksKeepPrior(s0, first, d.saves, setup.policy);
      var row, enteredAt, failed := AdvanceDue(first, stepper, entered, env);
      if failed || stepper.machine.place.Aborted? {
        ghost var e := StepOps.FailProgressive(row, cfg, E.PriorIfRead(S(), row, env), env);
        FailProgressive(row, cfg, env);
        SaveAllConcat(s0, d.saves, e.saves, setup.policy);
        Assoc(old(marks), d.marks, e.marks);
        return false;
      }
      ghost var last := row.(snap := Saved(stepper.plan, stepper.machine, enteredAt),
                             phase := if stepper.machine.place.Complete? then Verifying else row.phase);
      Persist(row, stepper, enteredAt);
      SaveAllConcat(s0, d.saves, [last], setup.policy);
      assert old(restored) + [] == old(restored);
      return true;
    }

    method DriveStepper(row: Row, stepper: Stepper, entered: int, cfg: Config, env: Env) returns (ok: bool)
      requires stepper.machine.cursor < |stepper.plan.steps| && row.phase.Deploying? && Stored(S(), row)
      modifies this`rows, this`listing, this`marks, this`restored, stepper`machine
      ensures var e := StepOps.DriveStepper(row, stepper.plan, old(stepper.machine), entered, cfg,
                                            E.PriorIfRead(old(S()), row, env), env);
              ok == e.ok && Did(old(S()), old(marks), old(restored), e)
    {
      if stepper.machine.place.Aborted? {
        FailProgressive(row, cfg, env);
        return false;
      }
      ghost var s0, step := S(), MarkStep(row, stepper.plan, stepper.machine.cursor, env);
      MarksKeepPrior(s0, row, step.1, setup.policy);
      var row', routed := RecordStep(row, stepper.plan, stepper.machine.cursor, env);
      ghost var prior := E.PriorIfRead(S(), row', env);
      ghost var e;
      if routed {
        e := Finish(DriveLoop(row', stepper.plan, stepper.machine, entered, env), stepper.plan, cfg, prior, env);
        ok := DriveRest(row', stepper, entered, cfg, env);
      } else {
        e := StepOps.FailProgressive(row', cfg, prior, env);
        FailProgressive(row', cfg, env);
        ok := false;
      }
      SaveAllConcat(s0, step.1, e.saves, setup.policy);
      Assoc(old(marks), step.2, e.marks);
    }

    // ---------- the operations ----------

    method SaveOnly(row: Row)
      modifies this`rows, this`listing
      ensures Did(old(S()), old(marks), old(restored), Effect([row], [], [], true))
      ensures row.id in rows && rows[row.id] == row
    {
      SaveOnce(S(), row, setup.policy);
      SaveRollout(row);
      assert marks + [] == marks && restored + [] == restored;
    }

    method StartStepper(row: Row, cfg: Config, env: Env) returns (ok: bool)
      requires row.phase.Deploying? && Stored(S(), row)
      modifies this`rows, this`listing, this`marks, this`restored
      ensures var e := StepOps.StartStepper(row, cfg, E.PriorIfRead(old(S()), row, env), env);
              ok == e.ok && Did(old(S()), old(marks), old(restored), e)
    {
      var stepper := new Stepper.Start(PlanFor(cfg.strategy), env.health(0));
      ok := DriveStepper(row, stepper, env.clock(0), cfg, env);
    }

    method RecoverInterrupted(row: Row)
      modifies this`rows, this`listing
      ensures Did(old(S()), old(marks), old(restored), Effect([Recovered(row)], [], [], true))
    {
      var row' := row.(phase := Verifying);
      if row.blocked == "" { row' := row'.(blocked := UNKNOWN_PROGRESS); }
      SaveOnly(row');
    }

    method Tick(id: nat, cfg: Config, env: Env) returns (ok: bool)
      requires E.Valid(S())
      modifies this`rows, this`listing, this`marks, this`restored
      ensures var e := E.Call(old(S()), E.OpTick(id, cfg), setup, env, env);
              ok == e.ok && Did(old(S()), old(marks), old(restored), e)
    {
      assert marks + [] == marks && restored + [] == restored;
      if id !in rows { return false; }
      var row := rows[id];
      if !row.phase.Deploying? { return true; }
      if cfg.ref != row.ref || !env.free { return false; }
      if row.snap.NoSnapshot? { RecoverInterrupted(row); return true; }
      if !env.ready { return false; }
      if !row.snap.Usable() { RecoverInterrupted(row); return true; }
      var plan, at := row.snap.plan, row.snap.enteredAt;
      var stepper := new Stepper.Restore(plan, row.snap.machine);
      var i := stepper.machine.cursor;
      var pause := plan.steps[i].pause;
      if !stepper.machine.place.Complete? && !stepper.machine.place.Aborted? && pause > 0 && env.clock(0) - at < pause {
        if env.health(i) { return true; }
        FailProgressive(row, cfg, env);
        return false;
      }
      ok := DriveStepper(row, stepper, at, cfg, env);
    }

    method Pause(id: nat, env: Env) returns (ok: bool)
      modifies this`rows, this`listing
      ensures var e := E.Call(old(S()), E.OpPause(id), setup, env, env);
              ok == e.ok && Did(old(S()), old(marks), old(restored), e)
    {
      assert marks + [] == marks && restored + [] == restored;
      if id !in rows || !env.free || !rows[id].phase.Deploying? || !rows[id].snap.Usable() { return false; }
      var row := rows[id];
      var stepper := new Stepper.Restore(row.snap.plan, row.snap.machine);
      var lc := new Lifecycle(row.phase, RESUMED);
      stepper.Send(PauseStep);
      ok := lc.Send(EvPause);
      SaveOnly(row.(phase := lc.phase, snap := Saved(row.snap.plan, stepper.machine, row.snap.enteredAt)));
    }

    method Resume(id: nat, env: Env) returns (ok: bool)
      modifies this`rows, this`listing
      ensures var e := E.Call(old(S()), E.OpResume(id), setup, env, env);
              ok == e.ok && Did(old(S()), old(marks), old(restored), e)
    {
      assert marks + [] == marks && restored + [] == restored;
      if id !in rows || !env.free || !rows[id].phase.Paused? || !rows[id].snap.Usable() { return false; }
      var row := rows[id];
      var stepper := new Stepper.Restore(row.snap.plan, row.snap.machine);
      var lc := new Lifecycle(row.phase, RESUMED);
      stepper.Send(ResumeStep);
      ok := lc.Send(EvResume);
      SaveOnly(row.(phase := lc.phase, snap := Saved(row.snap.plan, stepper.machine, env.clock(0))));
    }

    method Abort(id: nat, env: Env) returns (ok: bool)
      modifies this`rows, this`listing, this`restored
      ensures var e := E.Call(old(S()), E.OpAbort(id), setup, env, env);
              ok == e.ok && Did(old(S()), old(marks), old(restored), e)
    {
      assert marks + [] == marks && restored + [] == restored;
      if id !in rows || !env.free || !rows[id].phase.InFlight() { return false; }
      var row := rows[id].(snap := NoSnapshot);
      if row.blocked == "" {
        var prior := PriorManifest(row, env);
        if prior.Some? {
          var res := ApplyRollback(row, prior.value, false, true, env);
          if res.Restored? { SaveOnce(old(S()), res.row, setup.policy); }
          return res.Restored? && res.ok;
        }
      }
      var lc := new Lifecycle(row.phase, RESUMED);
      ok := lc.Send(EvRollback);
      SaveOnly(row.(phase := lc.phase));
    }

    method Approve(id: nat, env: Env) returns (ok: bool)
      modifies this`rows, this`listing, this`deployed
      ensures var e := E.Call(old(S()), E.OpApprove(id), setup, env, env);
              ok == e.ok && Did(old(S()), old(marks), old(restored), e) && deployed == old(deployed) + e.deployed
    {
      assert marks + [] == marks && restored + [] == restored;
      if id !in rows || !env.admits || !env.free || !env.ready { return false; }
      var lc := new Lifecycle(rows[id].phase, RESUMED);
      ok := lc.Send(EvApprove);
      if !ok { return; }
      deployed := deployed + [rows[id].desired];
      ok := env.deploys;
      var sent := lc.Send(if ok then EvDeployed else EvError);
      SaveOnly(rows[id].(phase := lc.phase));
    }

    method Reject(id: nat) returns (ok: bool)
      modifies this`rows, this`listing
      ensures id in old(rows) ==>
                var e := StepOps.Reject(old(rows)[id]);
                ok == e.ok && Did(old(S()), old(marks), old(restored), e)
      ensures id !in old(rows) ==> !ok && Did(old(S()), old(marks), old(restored), REFUSED)
    {
      assert marks + [] == marks && restored + [] == restored;
      if id !in rows { return false; }
      var lc := new Lifecycle(rows[id].phase, RESUMED);
      ok := lc.Send(EvReject);
      if ok { SaveOnly(rows[id].(phase := lc.phase)); }
    }

    method PromoteWithNote(row: Row, env: Env) returns (ok: bool)
      modifies this`rows, this`listing
      ensures var e := StepOps.PromoteWithNote(row, env);
              ok == e.ok && Did(old(S()), old(marks), old(restored), e)
    {
      assert marks + [] == marks && restored + [] == restored;
      var lc := new Lifecycle(row.phase, RESUMED);
      ok := lc.Send(EvVerifyOK);
      if !ok { return; }
      SaveOnly(row.(phase := lc.phase));
      if row.settings.postPromote && row.settings.migrates { ok := env.database; }
    }

    method Promote(id: nat, force: bool, env: Env) returns (ok: bool)
      modifies this`rows, this`listing
      ensures var e := E.Call(old(S()), E.OpPromote(id, force), setup, env, env);
              ok == e.ok && Did(old(S()), old(marks), old(restored), e)
    {
      assert marks + [] == marks && restored + [] == restored;
      if id !in rows { return false; }
      if !force {
        var gs := GatesFromRollout(rows[id], setup.metrics);
        if gs.None? { return false; }
        var results := RunGates(gs.value, env.oracle);
        if FirstFailure(results) != "" { return false; }
      }
      ok := PromoteWithNote(rows[id], env);
    }

    method RollbackLast(ref: string, force: bool, env: Env) returns (ok: bool)
      modifies this`rows, this`listing, this`restored
      ensures var e := E.RollbackLast(old(S()), ref, force, env);
              ok == e.ok && Did(old(S()), old(marks), old(restored), e)
    {
      assert marks + [] == marks && restored + [] == restored;
      var newest := Scan((r: Row) => r.ref == ref);
      if newest.None? { return false; }
      var prior := PriorManifest(newest.value, env);
      if prior.None? || (newest.value.blocked != "" && !force) || !env.free { return false; }
      var res := ApplyRollback(newest.value, prior.value, false, force, env);
      if res.Restored? { SaveOnce(old(S()), res.row, setup.policy); }
      return res.Restored? && res.ok;
    }

    method VerifyOrRollback(row: Row, prior: Manifest, cfg: Config, env: Env) returns (ok: bool)
      modifies this`rows, this`listing, this`restored
      ensures var e := StepOps.VerifyOrRollback(row, prior, cfg, setup.metrics, env);
              ok == e.ok && Did(old(S()), old(marks), old(restored), e)
    {
      assert marks + [] == marks && restored + [] == restored;
      var results := RunGates(GatesFromConfig(cfg.healthCheck, cfg.auto, cfg.smoke, cfg.analysis, setup.metrics), env.oracle);
      if FirstFailure(results) == "" {
        ok := PromoteWithNote(row, env);
        return;
      }
      if !cfg.auto || row.blocked != "" || !env.free { return false; }
      var res := ApplyRollback(row, prior, cfg.reverseHook, true, env);
      if res.Restored? { SaveOnce(old(S()), res.row, setup.policy); }
      return res.Restored? && res.ok;
    }

    /** The gate run on any row by its id, with the earlier manifest the store gives, or else the row's own. */
    method VerifyByHand(id: nat, cfg: Config, env: Env) returns (ok: bool)
      modifies this`rows, this`listing, this`restored
      ensures var e := E.Call(old(S()), E.OpVerify(id, cfg), setup, env, env);
              ok == e.ok && Did(old(S()), old(marks), old(restored), e)
    {
      assert marks + [] == marks && restored + [] == restored;
      if id !in rows { return false; }
      var prior := PriorManifest(rows[id], env);
      ok := VerifyOrRollback(rows[id], if prior.Some? then prior.value else rows[id].desired, cfg, env);
    }

    // ---------- Apply and Reconcile ----------

    method Apply(cfg: Config, id: nat, env: Env) returns (ok: bool)
      requires E.Valid(S())
      modifies this`rows, this`listing, this`marks, this`restored, this`deployed
      ensures var e := E.Apply(old(S()), cfg, id, env);
              ok == e.ok && Did(old(S()), old(marks), old(restored), e) && deployed == old(deployed) + e.deployed
    {
      assert marks + [] == marks && restored + [] == restored;
      if !env.admits || !env.free || !env.lists { return false; }
      var busy := InFlight(cfg.ref);
      if busy.Some? || !env.ready || id in rows { return false; }
      var row := MakeRow(cfg, id, env);
      NewSaveKeepsPrior(S(), row, setup.policy);
      SaveOnly(row);
      if row.phase.AwaitingApproval? {
        NoMore(deployed);
        return true;
      }
      ghost var rest := E.PriorIfRead(S(), row, env);
      ghost var e := if env.deploys then StepOps.StartStepper(row, cfg, rest, env) else StepOps.FailProgressive(row, cfg, rest, env);
      ok := Launch(row, cfg, env);
      SaveOnce(old(S()), row, setup.policy);
      SaveAllConcat(old(S()), [row], e.saves, setup.policy);
      Assoc(old(marks), [], e.marks);
    }

    /** The new row: its phase is where the lifecycle's gate leads. */
    method MakeRow(cfg: Config, id: nat, env: Env) returns (row: Row)
      ensures row == E.NewRow(id, cfg, E.Prior(S(), cfg.ref, cfg.manifest.checksum), env)
      ensures row.phase == if env.gated then AwaitingApproval else Deploying
    {
      var found := Scan((r: Row) => E.Distinct(r, cfg.ref, cfg.manifest.checksum));
      var prior := if found.Some? then Some(found.value.desired) else None;
      var lc := new Lifecycle(Pending, LifeContext(true, env.gated));
      var sent := lc.Send(EvValidate);
      sent := lc.Send(EvGate);
      row := E.NewRow(id, cfg, prior, env).(phase := lc.phase);
    }

    /** Deploy the manifest of a saved row and start its canary, or settle the row. */
    method Launch(row: Row, cfg: Config, env: Env) returns (ok: bool)
      requires row.phase.Deploying? && Stored(S(), row)
      modifies this`rows, this`listing, this`marks, this`restored, this`deployed
      ensures var rest := E.PriorIfRead(old(S()), row, env);
              var e := if env.deploys then StepOps.StartStepper(row, cfg, rest, env) else StepOps.FailProgressive(row, cfg, rest, env);
              ok == e.ok && Did(old(S()), old(marks), old(restored), e) && deployed == old(deployed) + [cfg.manifest]
    {
      deployed := deployed + [cfg.manifest];
      if env.deploys {
        ok := StartStepper(row, cfg, env);
      } else {
        FailProgressive(row, cfg, env);
        ok := false;
      }
    }

    /** The post-deploy gate for a row that is in the store. */
    method Finalize(id: nat, cfg: Config, env: Env) returns (ok: bool)
      requires id in rows
      modifies this`rows, this`listing, this`restored
      ensures var e := E.Finalize(old(S()), old(rows)[id], cfg, setup.metrics, env);
              ok == e.ok && Did(old(S()), old(marks), old(restored), e)
    {
      assert marks + [] == marks && restored + [] == restored;
      var row := rows[id];
      if row.phase.AwaitingApproval? || row.phase.InFlight() { return true; }
      if !env.legible { return false; }
      var found := PriorManifest(row, env);
      ok := VerifyOrRollback(row, if found.Some? then found.value else row.desired, cfg, env);
    }

    method AndFinalize(ghost s: E.Store, ghost ms: seq<Mark>, ghost rs: seq<Manifest>, ghost first: Effect,
                       id: nat, cfg: Config, env: Env) returns (ok: bool)
      requires Did(s, ms, rs, first)
      modifies this`rows, this`listing, this`restored
      ensures var e := E.AndFinalize(s, first, id, cfg, setup, env); ok == e.ok && Did(s, ms, rs, e)
    {
      if id !in rows { return false; }
      ghost var last := E.Finalize(S(), rows[id], cfg, setup.metrics, env);
      ok := Finalize(id, cfg, env);
      SaveAllConcat(s, first.saves, last.saves, setup.policy);
      Assoc(rs, first.reapplied, last.reapplied);
      FinalizeMarksNothing(E.SaveAll(s, first.saves, setup.policy), id, cfg, setup.metrics, env);
      assert marks + [] == marks;
    }

    method Reconcile(cfg: Config, id: nat, env: Env, later: Env) returns (ok: bool)
      requires E.Valid(S())
      modifies this`rows, this`listing, this`marks, this`restored, this`deployed
      ensures var e := E.Reconcile(old(S()), cfg, id, setup, env, later);
              ok == e.ok && Did(old(S()), old(marks), old(restored), e) && deployed == old(deployed) + e.deployed
    {
      NoMore(marks);
      NoMore(restored);
      NoMore(deployed);
      if !env.lists { return false; }
      var busy := InFlight(cfg.ref);
      if busy.Some? {
        FoundRow(S(), (r: Row) => r.ref == cfg.ref && r.phase.InFlight());
        TickDeploysNothing(busy.value, cfg, E.PriorIfRead(S(), busy.value, env), env);
        ok := StepInFlight(busy.value, cfg, env, later);
        return;
      }
      if !env.plans { return false; }
      if E.PlanChanged(cfg, env) {
        ok := ApplyAndGate(cfg, id, env, later);
        return;
      }
      var newest := Scan((r: Row) => r.ref == cfg.ref);
      if newest.None? || !newest.value.phase.Verifying? || newest.value.desired.checksum != cfg.manifest.checksum { return true; }
      ok := AndFinalize(S(), marks, restored, NOTHING, newest.value.id, cfg, later);
    }

    /** Tick the row in flight, and gate it if the tick and the plan that follows it succeed. */
    method StepInFlight(row: Row, cfg: Config, env: Env, later: Env) returns (ok: bool)
      requires E.Valid(S()) && row.id in rows && rows[row.id] == row
      modifies this`rows, this`listing, this`marks, this`restored
      ensures var t := StepOps.Tick(row, cfg, E.PriorIfRead(old(S()), row, env), env);
              var e := if !t.ok || !env.plans then t.(ok := false) else E.AndFinalize(old(S()), t, row.id, cfg, setup, later);
              ok == e.ok && Did(old(S()), old(marks), old(restored), e)
    {
      ghost var s, ms, rs := S(), marks, restored;
      ghost var t := StepOps.Tick(row, cfg, E.PriorIfRead(s, row, env), env);
      ok := Tick(row.id, cfg, env);
      assert Did(s, ms, rs, t) && ok == t.ok;
      if !ok || !env.plans { return false; }
      ok := AndFinalize(s, ms, rs, t, row.id, cfg, later);
    }

    method ApplyAndGate(cfg: Config, id: nat, env: Env, later: Env) returns (ok: bool)
      requires E.Valid(S())
      modifies this`rows, this`listing, this`marks, this`restored, this`deployed
      ensures var a := E.Apply(old(S()), cfg, id, env);
              var e := if a.ok then E.AndFinalize(old(S()), a, id, cfg, setup, later) else a;
              ok == e.ok && Did(old(S()), old(marks), old(restored), e) && deployed == old(deployed) + a.deployed
    {
      ghost var s, ms, rs := S(), marks, restored;
      ok := Apply(cfg, id, env);
      if ok { ok := AndFinalize(s, ms, rs, E.Apply(s, cfg, id, env), id, cfg, later); }
    }

    /** Any one call, carried out in full: the step of the transition system it is, and the invariant it keeps. */
    method Perform(op: E.Op, env: Env, later: Env) returns (ok: bool)
      requires Inv(S())
      modifies this`rows, this`listing, this`marks, this`restored, this`deployed
      ensures var e := E.Call(old(S()), op, setup, env, later);
              ok == e.ok && Did(old(S()), old(marks), old(restored), e) && deployed == old(deployed) + e.deployed
      ensures Inv(S()) && AllEvolve(old(S()), S())
    {
      CallKeeps(S(), op, setup, env, later);
      ok := Dispatch(op, env, later);
    }

    method Dispatch(op: E.Op, env: Env, later: Env) returns (ok: bool)
      requires E.Valid(S())
      modifies this`rows, this`listing, this`marks, this`restored, this`deployed
      ensures var e := E.Call(old(S()), op, setup, env, later);
              ok == e.ok && Did(old(S()), old(marks), old(restored), e) && deployed == old(deployed) + e.deployed
    {
      match op
      case OpApply(cfg, id) => ok := Apply(cfg, id, env);
      case OpRollbackLast(ref, force) => ok := RollbackLast(ref, force, env);
      case OpReconcile(cfg, id) => ok := Reconcile(cfg, id, env, later);
      case _ => ok := PerformOnRow(op, env);
    }

    method PerformOnRow(op: E.Op, env: Env) returns (ok: bool)
      requires E.Valid(S()) && !op.OpApply? && !op.OpReconcile? && !op.OpRollbackLast?
      modifies this`rows, this`listing, this`marks, this`restored, this`deployed
      ensures var e := E.Call(old(S()), op, setup, env, env);
              ok == e.ok && Did(old(S()), old(marks), old(restored), e) && deployed == old(deployed) + e.deployed
    {
      NoMore(deployed);
      if op.id in rows { OnlyApproveDeploys(rows[op.id], op, E.PriorIfRead(S(), rows[op.id], env), setup.metrics, env); }
      match op
      case OpTick(id, cfg) => ok := Tick(id, cfg, env);
      case OpPause(id) => ok := Pause(id, env);
      case OpResume(id) => ok := Resume(id, env);
      case OpAbort(id) => ok := Abort(id, env);
      case OpApprove(id) => ok := Approve(id, env);
      case OpReject(id) => ok := Reject(id);
      case OpPromote(id, force) => ok := Promote(id, force, env);
      case OpVerify(id, cfg) => ok := VerifyByHand(id, cfg, env);
    }
  }

  lemma NoMore<T>(a: seq<T>)
    ensures a + [] == a
  {
  }

  lemma OnlyApproveDeploys(row: Row, op: E.Op, prior: Option<Manifest>, metrics: bool, env: Env)
    ensures !op.OpApprove? ==> E.RowCall(row, op, prior, metrics, env).deployed == []
  {
    if op.OpTick? { TickDeploysNothing(row, op.cfg, prior, env); }
  }

  lemma FinalizeMarksNothing(s: E.Store, id: nat, cfg: Config, metrics: bool, env: Env)
    requires id in s.rows
    ensures E.Finalize(s, s.rows[id], cfg, metrics, env).marks == []
  {
  }

  /** Where the loop stands: `whole` is what is saved so far, then what the rest of the loop does. */
  ghost predicate So(whole: Drive, go: bool, failed: bool, row: Row, saves: seq<Row>, ms: seq<Mark>,
                     plan: Plan, m: Machine, enteredAt: int, env: Env)
    requires m.cursor < |plan.steps|
  {
    if failed then !go && whole == Failed(row, saves, ms)
    else if go then whole == Before(saves, ms, DriveLoop(row, plan, m, enteredAt, env))
    else whole == Stopped(row, saves, ms, m, enteredAt)
  }

  lemma Assoc<T>(a: seq<T>, b: seq<T>, c: seq<T>)
    ensures (a + b) + c == a + (b + c)
  {
  }

  lemma SoFirst(whole: Drive, row: Row, plan: Plan, m: Machine, enteredAt: int, env: Env)
    requires m.cursor < |plan.steps| && whole == DriveLoop(row, plan, m, enteredAt, env)
    ensures So(whole, true, false, row, [], [], plan, m, enteredAt, env)
  {
    assert [] + whole.saves == whole.saves && [] + whole.marks == whole.marks;
  }

  lemma SoOn(whole: Drive, saves: seq<Row>, ms: seq<Mark>, was: Row, at: Machine, since: int,
             go: bool, failed: bool, row: Row, more: seq<Row>, marked: seq<Mark>,
             plan: Plan, m: Machine, enteredAt: int, env: Env)
    requires at.cursor < |plan.steps| && m.cursor < |plan.steps|
    requires So(whole, true, false, was, saves, ms, plan, at, since, env)
    requires So(DriveLoop(was, plan, at, since, env), go, failed, row, more, marked, plan, m, enteredAt, env)
    ensures So(whole, go, failed, row, saves + more, ms + marked, plan, m, enteredAt, env)
  {
    if go { BeforeBefore(saves, ms, more, marked, DriveLoop(row, plan, m, enteredAt, env)); }
  }

  lemma SoLast(whole: Drive, go: bool, failed: bool, row: Row, saves: seq<Row>, ms: seq<Mark>,
               plan: Plan, m: Machine, enteredAt: int, env: Env)
    requires m.cursor < |plan.steps|
    requires go ==> m.place.Complete? || m.place.Aborted?
    requires So(whole, go, failed, row, saves, ms, plan, m, enteredAt, env)
    ensures whole == if failed then Failed(row, saves, ms) else Stopped(row, saves, ms, m, enteredAt)
  {
    assert saves + [] == saves && ms + [] == ms;
  }

  lemma BeforeBefore(a: seq<Row>, x: seq<Mark>, b: seq<Row>, y: seq<Mark>, d: Drive)
    ensures Before(a, x, Before(b, y, d)) == Before(a + b, x + y, d)
  {
    assert a + (b + d.saves) == (a + b) + d.saves && x + (y + d.marks) == (x + y) + d.marks;
  }
}
