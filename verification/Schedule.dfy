/** Scheduled deploys, which do not look for a rollout in flight. */
module Schedule {
  import opened Rollout
  import opened StepOps
  import opened Engine
  import opened Runs

  function ScheduledRow(id: nat, ref: string, m: Manifest): Row {
    Row(id, ref, Deploying, m, Progress(0, 0, 0), "", NoSnapshot, Settings(Absent, Absent, false, false, false, false))
  }

  /** Save a deploying row, deploy, then save the outcome. */
  function ApplyScheduled(s: Store, ref: string, m: Manifest, id: nat, env: Env): Effect {
    if !env.free || !env.admits || !env.ready || id in s.rows then REFUSED
    else
      var row := ScheduledRow(id, ref, m);
      Effect([row, row.(phase := if env.deploys then Verifying else RolledBack)], [], [], env.deploys, [m])
  }

  /**
   * Firing a schedule leaves one row in flight per target, except exactly when the process dies
   * between its two saves while another rollout of the target is in flight.
   */
  lemma ScheduledFlightIff(s: Store, ref: string, m: Manifest, id: nat, env: Env, kept: nat, policy: Policy)
    requires Inv(s)
    ensures var saves := ApplyScheduled(s, ref, m, id, env).saves;
            SingleFlight(SaveAll(s, Kept(saves, kept), policy)) <==>
            !(saves != [] && kept == 1 && InFlight(s, ref).Some?)
  {
    var saves := ApplyScheduled(s, ref, m, id, env).saves;
    var some := Kept(saves, kept);
    SaveAllRows(s, some, policy);
    if some != [] {
      AddedFlightIff(s, SaveAll(s, some, policy), some[|some| - 1]);
    }
  }

  lemma AddedFlightIff(s: Store, t: Store, row: Row)
    requires Inv(s) && row.id !in s.rows && t.rows == s.rows[row.id := row]
    ensures SingleFlight(t) <==> !(row.phase.InFlight() && InFlight(s, row.ref).Some?)
  {
    FoundRow(s, (r: Row) => r.ref == row.ref && r.phase.InFlight());
    if row.phase.InFlight() && InFlight(s, row.ref).Some? {
      var other := InFlight(s, row.ref).value.id;
      assert t.rows[other] == s.rows[other] && t.rows[row.id] == row;
    }
  }
}
