/** Rows, configs and answers for concrete runs, and what a first Apply saves in them. */
module Samples {
  import opened Rollout
  import opened Progressive
  import opened Gates
  import opened StepOps
  import opened Engine
  import opened Listing

  const BY_CREATION := Setup(ByCreation, false)
  const BY_UPDATE := Setup(ByUpdate, false)

  /**
   * Everything answers well at time `now`, except that the step gate answers `steps`, the target's
   * health is good only if `well`, and the manifests that match live are those in `same`.
   */
  function Plain(now: int, steps: bool, well: bool, same: Manifest -> bool): Env {
    Env(_ => now, now, true, true, true, false, true, true, true, true, true, true,
        _ => steps, _ => true, _ => true, Differ((m: Manifest) => if same(m) then Same else Different), "", false,
        Oracle(Verdict(if well then Healthy else Unhealthy, ""), _ => Exit(0), _ => AnalysisPassed(1)))
  }

  // A config with automatic rollback and no other gate than health.
  function Cfg(checksum: string, strategy: Strategy): Config {
    Config("app", Manifest(checksum, ""), strategy, true, false, None, None, false, false, false, true)
  }

  function Sample(id: nat, phase: Phase, checksum: string): Row {
    Row(id, "app", phase, Manifest(checksum, ""), Progress(0, 0, 0), "", NoSnapshot,
        Settings(Absent, Absent, false, false, false, true))
  }

  /** A rollout on its only step: it bakes there if the step has a pause, and else is complete. */
  function OnOnlyStep(id: nat, checksum: string, plan: Plan): Row
    requires |plan.steps| == 1
  {
    var bakes := plan.steps[0].pause > 0;
    Sample(id, if bakes then Deploying else Verifying, checksum).(
      progress := Progress(1, 1, plan.steps[0].weight),
      snap := Saved(plan, Machine(if bakes then OnStep else Complete, 0, false), 0))
  }

  // The three saves of an Apply with a plan of one step.
  function Three(id: nat, checksum: string, plan: Plan): seq<Row>
    requires |plan.steps| == 1
  {
    [Sample(id, Deploying, checksum), Sample(id, Deploying, checksum).(progress := Progress(1, 1, plan.steps[0].weight)),
     OnOnlyStep(id, checksum, plan)]
  }

  lemma ApplySaves(s: Store, id: nat, checksum: string, strategy: Strategy, same: Manifest -> bool)
    requires id !in s.rows && InFlight(s, "app").None?
    requires |PlanFor(strategy).steps| == 1 && PlanFor(strategy).steps[0].pause >= 0
    requires var prior := Prior(s, "app", checksum); prior.Some? ==> same(prior.value)
    ensures Apply(s, Cfg(checksum, strategy), id, Plain(0, true, true, same)).saves == Three(id, checksum, PlanFor(strategy))
  {
    var env, cfg, plan := Plain(0, true, true, same), Cfg(checksum, strategy), PlanFor(strategy);
    var made := Sample(id, Deploying, checksum);
    var marked := made.(progress := Progress(1, 1, plan.steps[0].weight));
    assert NewRow(id, cfg, Prior(s, "app", checksum), env) == made;
    assert MarkStep(made, plan, 0, env) == (marked, [marked], [MarkOf(plan, 0)], true);
    var m := Machine(OnStep, 0, false);
    var m' := if plan.steps[0].pause > 0 then m else m.(place := Complete);
    assert DriveLoop(marked, plan, m, 0, env) == Stopped(marked, [], [], m', 0);
  }

  /** Three saves of a new row put it first, however the store lists. */
  lemma SaveThree(s: Store, a: Row, b: Row, c: Row, policy: Policy)
    requires Valid(s) && a.id == b.id == c.id && a.id !in s.rows
    ensures SaveAll(s, Kept([a, b, c], 9), policy) == Store(s.rows[c.id := c], [c.id] + s.listing)
  {
    assert Kept([a, b, c], 9) == [a, b, c];
    assert [a, b, c][1..] == [b, c] && [b, c][1..] == [c] && [c][1..] == [];
    AbsentWithout(s.listing, a.id);
    assert ([a.id] + s.listing)[1..] == s.listing;
    assert Without([a.id] + s.listing, a.id) == s.listing;
    var s1 := Save(s, a, policy);
    var s2 := Save(s1, b, policy);
    assert SaveAll(s2, [c], policy) == Save(s2, c, policy);
    assert SaveAll(s1, [b, c], policy) == SaveAll(s2, [c], policy);
  }

  lemma SaveOne(s: Store, a: Row, policy: Policy)
    ensures SaveAll(s, Kept([a], 9), policy) == Save(s, a, policy)
  {
    assert Kept([a], 9) == [a] && [a][1..] == [];
    assert SaveAll(Save(s, a, policy), [], policy) == Save(s, a, policy);
  }

  /** Applying a one-step plan to a target with nothing in flight. */
  lemma AppliedStep(s: Store, id: nat, checksum: string, strategy: Strategy, same: Manifest -> bool, setup: Setup)
    requires Valid(s) && id !in s.rows && InFlight(s, "app").None?
    requires |PlanFor(strategy).steps| == 1 && PlanFor(strategy).steps[0].pause >= 0
    requires var prior := Prior(s, "app", checksum); prior.Some? ==> same(prior.value)
    ensures var env := Plain(0, true, true, same);
            Next(s, Input(OpApply(Cfg(checksum, strategy), id), env, env, 9), setup)
              == Store(s.rows[id := OnOnlyStep(id, checksum, PlanFor(strategy))], [id] + s.listing)
  {
    ApplySaves(s, id, checksum, strategy, same);
    var three := Three(id, checksum, PlanFor(strategy));
    SaveThree(s, three[0], three[1], three[2], setup.policy);
  }
}
