/** Step plans, the canary step machine, and the straight-line executor. */
module Progressive {

  datatype Step = Step(weight: int, pause: int)
  datatype Plan = Plan(strategy: string, steps: seq<Step>)
  datatype Strategy = Canary(steps: seq<Step>) | BlueGreen | Rolling

  /** The last weight of a plan that takes all the traffic. */
  const FULL := 100

  function EnsureFull(steps: seq<Step>): (r: seq<Step>)
    ensures r != [] && r[|r| - 1].weight >= FULL
    ensures r == steps || r == steps + [Step(100, 0)]
    ensures r == steps <==> steps != [] && steps[|steps| - 1].weight >= 100
  {
    if steps == [] || steps[|steps| - 1].weight < FULL then steps + [Step(FULL, 0)] else steps
  }

  /** Every resolved plan has a step and ends at full traffic; a configured canary keeps its steps. */
  function PlanFor(s: Strategy): (p: Plan)
    ensures p.steps != [] && p.steps[|p.steps| - 1].weight >= FULL
    ensures s.Canary? && s.steps != [] ==> s.steps <= p.steps
    ensures s.Canary? && (forall i | 0 <= i < |s.steps| :: s.steps[i].pause >= 0) ==> NonNegative(p)
  {
    match s
    case Canary(steps) =>
      var chosen := if steps == [] then [Step(10, 0), Step(50, 0), Step(100, 0)] else steps;
      Plan("canary", EnsureFull(chosen))
    case BlueGreen => Plan("blue-green", [Step(100, 0)])
    case Rolling => Plan("rolling", [Step(25, 0), Step(50, 0), Step(75, 0), Step(100, 0)])
  }

  /** The plans nobody configured climb strictly to exactly full traffic and pause nowhere. */
  lemma DefaultPlansClimb(s: Strategy)
    requires s.Canary? ==> s.steps == []
    ensures var p := PlanFor(s);
            && p.steps[|p.steps| - 1].weight == 100 && p.steps[0].weight > 0
            && (forall i | 0 < i < |p.steps| :: p.steps[i - 1].weight < p.steps[i].weight)
            && (forall i | 0 <= i < |p.steps| :: p.steps[i].pause == 0)
            && |p.steps| == match s case Canary(_) => 3 case BlueGreen => 1 case Rolling => 4
  {
  }

  predicate NonNegative(p: Plan) {
    forall i | 0 <= i < |p.steps| :: p.steps[i].pause >= 0
  }

  // ---------- the step machine ----------

  datatype Place = OnStep | OnHold | Complete | Aborted

  /**
   * A machine state with its context. Every entry action writes the cursor of the state it
   * enters, so one cursor serves for both; the weight is the plan's weight at the cursor.
   */
  datatype Machine = Machine(place: Place, cursor: nat, failed: bool)

  datatype Control = PauseStep | ResumeStep | PromoteStep | AbortStep

  /**
   * Entering step i runs the health gate. A failing gate records Failed; the eventless
   * "failed -> aborted" transition may or may not fire (it does not when the step was entered
   * from a restored timer), which `fires` decides.
   */
  function Enter(i: nat, healthy: bool, fires: bool): Machine {
    Machine(if !healthy && fires then Aborted else OnStep, i, !healthy)
  }

  /** NEXT, or the elapsed pause timer: both lead to the next step and both carry the "ok" guard. */
  function Advance(plan: Plan, m: Machine, healthy: bool, fires: bool): Machine {
    if !m.place.OnStep? || m.failed then m
    else if m.cursor + 1 < |plan.steps| then Enter(m.cursor + 1, healthy, fires)
    else m.(place := Complete)
  }

  /** Operator events. Resume re-enters the held step with the gate switched off. */
  function Fire(m: Machine, e: Control): Machine {
    match (m.place, e)
    case (OnStep, PauseStep) => m.(place := OnHold)
    case (OnHold, ResumeStep) => Enter(m.cursor, true, true)
    case (OnStep, PromoteStep) => m.(place := Complete)
    case (OnHold, PromoteStep) => m.(place := Complete)
    case (OnStep, AbortStep) => m.(place := Aborted)
    case (OnHold, AbortStep) => m.(place := Aborted)
    case _ => m
  }

  /** A running machine and the surface the engine drives it by. */
  class Stepper {
    const plan: Plan
    var machine: Machine

    /** A fresh machine starts by entering step 0, where the eventless transition does fire. */
    constructor Start(plan: Plan, healthy: bool)
      ensures this.plan == plan && machine == Enter(0, healthy, true)
    {
      this.plan := plan;
      machine := Enter(0, healthy, true);
    }

    /** Restoring runs no entry action. */
    constructor Restore(plan: Plan, machine: Machine)
      ensures this.plan == plan && this.machine == machine
    {
      this.plan := plan;
      this.machine := machine;
    }

    method Next(healthy: bool, fires: bool)
      modifies this`machine
      ensures machine == Advance(plan, old(machine), healthy, fires)
    {
      if machine.place.OnStep? && !machine.failed {
        if machine.cursor + 1 < |plan.steps| {
          machine := Machine(OnStep, machine.cursor + 1, !healthy);
          if machine.failed && fires { machine := machine.(place := Aborted); }
        } else {
          machine := machine.(place := Complete);
        }
      }
    }

    method Send(e: Control)
      modifies this`machine
      ensures machine == Fire(old(machine), e)
    {
      machine := Fire(machine, e);
    }
  }

  // ---------- the straight-line executor ----------

  /** One OnStep call: 1-based step, plan length, traffic weight. */
  datatype Mark = Mark(step: nat, total: nat, weight: int)

  function MarkOf(plan: Plan, i: nat): Mark
    requires i < |plan.steps|
  {
    Mark(i + 1, |plan.steps|, plan.steps[i].weight)
  }

  datatype Trace = Trace(marks: seq<Mark>, ok: bool)

  /**
   * What running steps i.. of a plan reports when every deploy succeeds: a step whose gate
   * fails is not reported, a step whose hook fails is reported and ends the run.
   */
  function Straight(plan: Plan, i: nat, health: nat -> bool, hook: nat -> bool): Trace
    requires i <= |plan.steps|
    decreases |plan.steps| - i
  {
    if i == |plan.steps| then Trace([], true)
    else if !health(i) then Trace([], false)
    else if !hook(i) then Trace([MarkOf(plan, i)], false)
    else
      var rest := Straight(plan, i + 1, health, hook);
      Trace([MarkOf(plan, i)] + rest.marks, rest.ok)
  }

  /** The marks are of the plan's steps from i on, in order, each with its own number, the plan's length and its own weight. */
  predicate InStep(plan: Plan, i: nat, marks: seq<Mark>) {
    && i + |marks| <= |plan.steps|
    && forall k | 0 <= k < |marks| ::
         marks[k].step == i + k + 1 && marks[k].total == |plan.steps| && marks[k].weight == plan.steps[i + k].weight
  }

  /** What the executor reports is in step with the plan, and all of it when the run succeeds. */
  lemma {:induction false} StraightInStep(plan: Plan, i: nat, health: nat -> bool, hook: nat -> bool)
    requires i <= |plan.steps|
    ensures var t := Straight(plan, i, health, hook);
            InStep(plan, i, t.marks) && (t.ok ==> i + |t.marks| == |plan.steps|)
    decreases |plan.steps| - i
  {
    if i < |plan.steps| {
      StraightInStep(plan, i + 1, health, hook);
      var t := Straight(plan, i, health, hook);
      forall k | 0 <= k < |t.marks|
        ensures t.marks[k].step == i + k + 1 && t.marks[k].total == |plan.steps| && t.marks[k].weight == plan.steps[i + k].weight
      {
        if k > 0 { assert t.marks[k] == Straight(plan, i + 1, health, hook).marks[k - 1]; }
      }
    }
  }

  function Following(marks: seq<Mark>, rest: Trace): Trace {
    Trace(marks + rest.marks, rest.ok)
  }

  lemma StraightStep(plan: Plan, i: nat, health: nat -> bool, hook: nat -> bool, marks: seq<Mark>)
    requires i < |plan.steps|
    ensures Following(marks, Straight(plan, i, health, hook)) ==
            if !health(i) then Trace(marks, false)
            else if !hook(i) then Trace(marks + [MarkOf(plan, i)], false)
            else Following(marks + [MarkOf(plan, i)], Straight(plan, i + 1, health, hook))
  {
    var rest := Straight(plan, i + 1, health, hook);
    assert marks + ([MarkOf(plan, i)] + rest.marks) == (marks + [MarkOf(plan, i)]) + rest.marks;
  }

  /** The executor loop: deploy, settle, gate, report. */
  method Run(plan: Plan, deploys: nat -> bool, health: nat -> bool, hook: nat -> bool)
    returns (marks: seq<Mark>, ok: bool, slept: int)
    ensures (forall i | 0 <= i < |plan.steps| :: deploys(i)) ==>
              Trace(marks, ok) == Straight(plan, 0, health, hook)
    ensures InStep(plan, 0, marks)
    ensures ok ==> |marks| == |plan.steps| && slept == Bake(plan, |plan.steps|)
  {
    marks, ok, slept := [], true, 0;
    ghost var whole := Straight(plan, 0, health, hook);
    for i := 0 to |plan.steps|
      invariant |marks| == i && ok && slept == Bake(plan, i) && InStep(plan, 0, marks)
      invariant whole == Following(marks, Straight(plan, i, health, hook))
    {
      StraightStep(plan, i, health, hook, marks);
      if !deploys(i) { return marks, false, slept; }
      if plan.steps[i].pause > 0 { slept := slept + plan.steps[i].pause; }
      if !health(i) { return marks, false, slept; }
      marks := marks + [MarkOf(plan, i)];
      if !hook(i) { return marks, false, slept; }
    }
  }

  /** The configured settle time of the first n steps; a pause that is not positive settles nothing. */
  function Bake(plan: Plan, n: nat): (t: int)
    requires n <= |plan.steps|
    ensures t >= 0
  {
    if n == 0 then 0
    else Bake(plan, n - 1) + if plan.steps[n - 1].pause > 0 then plan.steps[n - 1].pause else 0
  }
}
