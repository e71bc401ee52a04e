/** The rollout row and its lifecycle statechart. */
module Rollout {
  import opened Progressive

  datatype Option<+T> = None | Some(value: T)

  datatype Phase =
    | Pending | Validating | AwaitingApproval | Deploying | Paused | Verifying | Promoted | RolledBack
  {
    // A deploying or paused row occupies its target between calls.
    predicate InFlight() { Deploying? || Paused? }
  }

  datatype Event =
    | EvValidate | EvGate | EvApprove | EvReject | EvDeployed | EvVerifyOK
    | EvRollback | EvError | EvPause | EvResume | EvPromote

  datatype LifeContext = LifeContext(planProduced: bool, needsApproval: bool)

  const RESUMED := LifeContext(true, false)

  /** The transition table with its guards; None means the event is rejected. */
  function Transition(p: Phase, e: Event, c: LifeContext): Option<Phase> {
    match (p, e)
    case (Pending, EvValidate) => Some(Validating)
    case (Validating, EvGate) =>
      if !c.needsApproval && c.planProduced then Some(Deploying)
      else if c.needsApproval then Some(AwaitingApproval)
      else None
    case (Validating, EvError) => Some(RolledBack)
    case (AwaitingApproval, EvApprove) => if c.planProduced then Some(Deploying) else None
    case (AwaitingApproval, EvReject) => Some(RolledBack)
    case (AwaitingApproval, EvRollback) => Some(RolledBack)
    case (Deploying, EvDeployed) => Some(Verifying)
    case (Deploying, EvPause) => Some(Paused)
    case (Deploying, EvPromote) => Some(Verifying)
    case (Deploying, EvError) => Some(RolledBack)
    case (Deploying, EvRollback) => Some(RolledBack)
    case (Paused, EvResume) => Some(Deploying)
    case (Paused, EvPromote) => Some(Verifying)
    case (Paused, EvRollback) => Some(RolledBack)
    case (Verifying, EvVerifyOK) => Some(Promoted)
    case (Verifying, EvRollback) => Some(RolledBack)
    case (Promoted, EvRollback) => Some(RolledBack)
    case _ => None
  }

  /** A running statechart. A rejected event leaves the phase as it was and reports the rejection. */
  class Lifecycle {
    var phase: Phase
    const context: LifeContext

    constructor (at: Phase, context: LifeContext)
      ensures phase == at && this.context == context
    {
      phase := at;
      this.context := context;
    }

    method Send(e: Event) returns (ok: bool)
      modifies this
      ensures ok == Transition(old(phase), e, context).Some?
      ensures ok ==> Some(phase) == Transition(old(phase), e, context)
      ensures !ok ==> phase == old(phase)
    {
      var next := Transition(phase, e, context);
      ok := next.Some?;
      if ok { phase := next.value; }
    }
  }

  // ---------- what the statechart promises ----------

  /** Where a sequence of events leaves a row; a rejected one is passed over. */
  function Sent(p: Phase, events: seq<Event>, c: LifeContext): Phase {
    if events == [] then p
    else
      var front := Sent(p, events[..|events| - 1], c);
      match Transition(front, events[|events| - 1], c)
      case None => front
      case Some(q) => q
  }

  // The row has reached the target, or is about to.
  predicate Started(p: Phase) {
    p == Deploying || p == Paused || p == Verifying || p == Promoted
  }

  /** What needs approval is started only after it was approved, and nothing is started without a plan. */
  lemma {:induction false} StartedByRight(events: seq<Event>, c: LifeContext)
    ensures Started(Sent(Pending, events, c)) ==> c.planProduced && (c.needsApproval ==> EvApprove in events)
    decreases |events|
  {
    if events != [] { StartedByRight(events[..|events| - 1], c); }
  }

  /** A row is promoted only by VERIFY_OK, and leaves that phase, like every later one, only to be rolled back for good. */
  lemma {:induction false} PromotedByRight(p: Phase, events: seq<Event>, c: LifeContext)
    ensures Sent(p, events, c) == Promoted ==> p == Promoted || EvVerifyOK in events
    ensures p == Promoted ==> Sent(p, events, c) == if EvRollback in events then RolledBack else Promoted
    ensures p == RolledBack ==> Sent(p, events, c) == RolledBack
    decreases |events|
  {
    if events != [] { PromotedByRight(p, events[..|events| - 1], c); }
  }

  /** From every phase that has a rollback, a rollback leads to the same end; the rest are not yet validated, or ended. */
  lemma RollbackIsUniform(p: Phase, c: LifeContext)
    ensures Transition(p, EvRollback, c) ==
            if Started(p) || p == AwaitingApproval then Some(RolledBack) else None
  {
  }

  /** A pause is undone by a resume, and either may be promoted early. */
  lemma PauseIsUndone(p: Phase, c: LifeContext)
    ensures Transition(p, EvPause, c).Some? <==> p == Deploying
    ensures p == Deploying ==> Sent(p, [EvPause, EvResume], c) == p
    ensures Transition(p, EvPromote, c) == if p.InFlight() then Some(Verifying) else None
  {
    if p == Deploying {
      assert [EvPause, EvResume][..1] == [EvPause] && [EvPause][..0] == [];
      assert Sent(p, [], c) == p && Sent(p, [EvPause], c) == Paused;
    }
  }

  datatype Manifest = Manifest(checksum: string, spec: string)

  /** What a descriptor column holds: nothing, bytes that do not decode, or a decodable value. */
  datatype Captured<+T> = Absent | Unreadable | Held(value: T)

  datatype Smoke = Smoke(command: seq<string>, expectExit: int)
  datatype Analysis = Analysis(template: string)

  /** The persisted canary: absent, undecodable, or a plan with the machine running it. */
  datatype Snapshot =
    | NoSnapshot
    | Garbled
    | Saved(plan: Plan, machine: Machine, enteredAt: int)
  {
    // A snapshot restores only when its state exists in the machine built from its plan.
    predicate Usable() { Saved? && machine.cursor < |plan.steps| }
  }

  /** Step progress as shown to operators: 1-based step, plan length, traffic weight. */
  datatype Progress = Progress(index: int, total: int, weight: int)

  /** What Apply captured from the config so that later calls can do without it. */
  datatype Settings = Settings(
    smoke: Captured<Smoke>,
    analysis: Captured<Analysis>,
    reverseHook: bool,     // a reverse database command
    migrates: bool,        // a forward migration
    postPromote: bool,     // that migration runs after promotion
    compatible: bool)      // that migration was declared backward-compatible

  datatype Row = Row(
    id: nat,
    ref: string,
    phase: Phase,
    desired: Manifest,
    progress: Progress,
    blocked: string,
    snap: Snapshot,
    settings: Settings)
}
