/** The reconcile loop of one tick over an ordered repository, on the engine's own store. */
module TickLoop {
  import opened Rollout
  import opened StepOps
  import opened DepGraph
  import opened Watch
  import opened Runs
  import opened Listing
  import opened EngineImpl
  import E = Engine

  /** The target's newest row is promoted; a target with no row is not. */
  predicate Promoted(s: E.Store, ref: string) {
    var newest := E.Newest(s, ref);
    newest.Some? && newest.value.phase.Promoted?
  }

  /** What one config meets in a tick: whether the store can be read, a held failure, and the reconcile's answers. */
  datatype Turn = Turn(readable: bool, held: bool, id: nat, env: Env, later: Env)

  function FirstUnpromoted(s: E.Store, deps: seq<string>): Option<string> {
    if deps == [] then None else if !Promoted(s, deps[0]) then Some(deps[0]) else FirstUnpromoted(s, deps[1..])
  }

  lemma {:induction false} NoneWaiting(s: E.Store, deps: seq<string>)
    ensures FirstUnpromoted(s, deps).None? <==> forall d | d in deps :: Promoted(s, d)
    decreases |deps|
  {
    if deps != [] {
      NoneWaiting(s, deps[1..]);
      assert forall d | d in deps :: d == deps[0] || d in deps[1..];
    }
  }

  /** Whether a config is reconciled on its turn. A held failure gives way to a rollout in flight. */
  predicate Goes(s: E.Store, u: Unit, x: Turn) {
    x.readable && FirstUnpromoted(s, u.dependsOn).None? && (x.held ==> E.InFlight(s, u.cfg.ref).Some?)
  }

  function After(s: E.Store, u: Unit, x: Turn, setup: E.Setup): E.Store {
    if Goes(s, u, x) then E.SaveAll(s, E.Reconcile(s, u.cfg, x.id, setup, x.env, x.later).saves, setup.policy) else s
  }

  /** The store before each config's turn, and after the last. */
  function Stores(s: E.Store, units: seq<Unit>, turns: seq<Turn>, setup: E.Setup): (r: seq<E.Store>)
    requires |turns| == |units|
    ensures |r| == |units| + 1 && r[0] == s
    decreases |units|
  {
    if units == [] then [s] else [s] + Stores(After(s, units[0], turns[0], setup), units[1..], turns[1..], setup)
  }

  // ---------- the loop ----------

  class Watcher {
    const engine: EngineImpl.Engine

    constructor (engine: EngineImpl.Engine)
      ensures this.engine == engine
    {
      this.engine := engine;
    }

    /** The first dependency that is not promoted. */
    method WaitingOn(deps: seq<string>) returns (r: Option<string>)
      ensures r == FirstUnpromoted(engine.S(), deps)
    {
      var i := 0;
      while i < |deps|
        invariant 0 <= i <= |deps|
        invariant FirstUnpromoted(engine.S(), deps) == FirstUnpromoted(engine.S(), deps[i..])
      {
        var newest := engine.Scan((r: Row) => r.ref == deps[i]);
        if newest.None? || !newest.value.phase.Promoted? { return Some(deps[i]); }
        assert deps[i..][1..] == deps[i + 1..];
        i := i + 1;
      }
      return None;
    }

    method OneTurn(u: Unit, x: Turn) returns (ran: bool)
      requires Inv(engine.S())
      modifies engine`rows, engine`listing, engine`marks, engine`restored, engine`deployed
      ensures ran == Goes(old(engine.S()), u, x)
      ensures engine.S() == After(old(engine.S()), u, x, engine.setup) && Inv(engine.S())
    {
      if !x.readable { return false; }
      var wait := WaitingOn(u.dependsOn);
      if wait.Some? { return false; }
      if x.held {
        var busy := engine.InFlight(u.cfg.ref);
        if busy.None? { return false; }
      }
      var ok := engine.Perform(E.OpReconcile(u.cfg, x.id), x.env, x.later);
      return true;
    }

    /** The configs that were reconciled, by position. */
    method Tick(units: seq<Unit>, turns: seq<Turn>) returns (ran: seq<bool>)
      requires |turns| == |units| && Inv(engine.S())
      modifies engine`rows, engine`listing, engine`marks, engine`restored, engine`deployed
      ensures var stores := Stores(old(engine.S()), units, turns, engine.setup);
              && |ran| == |units| && engine.S() == stores[|units|] && Inv(engine.S())
              && RanAs(ran, stores, units, turns)
    {
      ran := [];
      ghost var stores := Stores(engine.S(), units, turns, engine.setup);
      for i := 0 to |units|
        invariant |ran| == i && engine.S() == stores[i] && Inv(engine.S())
        invariant RanAs(ran, stores, units, turns)
      {
        StoresStep(old(engine.S()), units, turns, engine.setup, i);
        var went := OneTurn(units[i], turns[i]);
        RanMore(ran, stores, units, turns, went);
        ran := ran + [went];
      }
    }
  }

  /** Which of the first configs had their turn. */
  predicate RanAs(ran: seq<bool>, stores: seq<E.Store>, units: seq<Unit>, turns: seq<Turn>)
    requires |ran| <= |stores| && |ran| <= |units| && |ran| <= |turns|
  {
    forall i | 0 <= i < |ran| :: ran[i] == Goes(stores[i], units[i], turns[i])
  }

  lemma RanMore(ran: seq<bool>, stores: seq<E.Store>, units: seq<Unit>, turns: seq<Turn>, went: bool)
    requires |ran| < |stores| && |ran| < |units| && |ran| < |turns| && RanAs(ran, stores, units, turns)
    requires went == Goes(stores[|ran|], units[|ran|], turns[|ran|])
    ensures RanAs(ran + [went], stores, units, turns)
  {
  }

  /** Everything the repository depends on outside itself is promoted. */
  predicate OutsidePromoted(s: E.Store, units: seq<Unit>) {
    forall i, d | 0 <= i < |units| && d in units[i].dependsOn && d !in Names(units) :: Promoted(s, d)
  }

  /**
   * A whole tick: order the configs, then give each its turn. With circular dependencies the order
   * is that of the files; without, and when nothing stands in the way, every config is reconciled.
   */
  method TickRepo(w: Watcher, units: seq<Unit>, turns: seq<Turn>) returns (order: seq<Unit>, ran: seq<bool>)
    requires UniqueRefs(units) && |turns| == |units| && Inv(w.engine.S())
    modifies w.engine`rows, w.engine`listing, w.engine`marks, w.engine`restored, w.engine`deployed
    ensures multiset(order) == multiset(units) && |order| == |units| == |ran| && Inv(w.engine.S())
    ensures var stores := Stores(old(w.engine.S()), order, turns, w.engine.setup);
            && w.engine.S() == stores[|order|]
            && RanAs(ran, stores, order, turns)
    ensures !Cyclic(NetOf(units)) && Unhindered(turns) && OutsidePromoted(old(w.engine.S()), units) &&
            EachPromotes(Stores(old(w.engine.S()), order, turns, w.engine.setup), order, turns) ==>
              forall i | 0 <= i < |ran| :: ran[i]
  {
    order := OrderByDependsOn(units);
    assert |order| == |multiset(order)| == |multiset(units)| == |units|;
    ran := w.Tick(order, turns);
    ghost var s := old(w.engine.S());
    if !Cyclic(NetOf(units)) && Unhindered(turns) && OutsidePromoted(s, units)
       && EachPromotes(Stores(s, order, turns, w.engine.setup), order, turns) {
      Reordered(s, units, order);
      OneTickReachesAll(s, order, turns, w.engine.setup);
    }
  }

  lemma Reordered(s: E.Store, units: seq<Unit>, order: seq<Unit>)
    requires UniqueRefs(units) && multiset(order) == multiset(units) && OutsidePromoted(s, units)
    requires DepsFirst(order, Elems(Names(units))) && (order == units || UniqueRefs(order))
    ensures UniqueRefs(order) && DepsFirst(order, Elems(Names(order))) && OutsidePromoted(s, order)
  {
    forall u ensures u in order <==> u in units {
      assert u in multiset(order) <==> u in multiset(units);
    }
    NamesAmong(order);
    NamesAmong(units);
    forall ref ensures ref in Names(order) <==> ref in Names(units) {
      SameRefs(order, units, ref);
      SameRefs(units, order, ref);
    }
    assert Elems(Names(order)) == Elems(Names(units));
    forall i, d | 0 <= i < |order| && d in order[i].dependsOn && d !in Names(order) ensures Promoted(s, d) {
      assert order[i] in units;
      var k :| 0 <= k < |units| && units[k] == order[i];
    }
  }

  lemma SameRefs(a: seq<Unit>, b: seq<Unit>, ref: string)
    requires forall u | u in a :: u in b
    ensures Among(a, ref) ==> Among(b, ref)
  {
    if Among(a, ref) {
      var h :| 0 <= h < |a| && a[h].cfg.ref == ref;
      assert a[h] in b;
      var k :| 0 <= k < |b| && b[k] == a[h];
    }
  }

  // ---------- targets do not disturb each other ----------

  /** Saving rows of one target changes no scan for rows of other targets. */
  lemma {:induction false} OtherScansKept(s: E.Store, saves: seq<Row>, ref: string, p: Row -> bool, policy: E.Policy)
    requires E.Valid(s) && AllFor(saves, ref) && SameId(saves) && forall r: Row :: r.ref == ref ==> !p(r)
    requires saves != [] && saves[0].id in s.rows ==> s.rows[saves[0].id].ref == ref
    ensures var t := E.SaveAll(s, saves, policy); E.First(t.rows, t.listing, p) == E.First(s.rows, s.listing, p)
    decreases |saves|
  {
    if saves != [] {
      var row, s' := saves[0], E.Save(s, saves[0], policy);
      assert row.ref == ref && !p(row);
      if row.id in s.rows {
        FirstKept(s.rows, s.listing, row, p);
        assert ([row.id] + E.Without(s.listing, row.id))[1..] == E.Without(s.listing, row.id);
      } else {
        FirstElsewhere(s.rows, s.listing, row, p);
        assert ([row.id] + s.listing)[1..] == s.listing;
      }
      SaveValid(s, row, policy);
      OtherScansKept(s', saves[1..], ref, p, policy);
    }
  }

  /** So the newest row of every other target, and the one in flight, stay what they were. */
  lemma OthersKept(s: E.Store, saves: seq<Row>, ref: string, other: string, policy: E.Policy)
    requires E.Valid(s) && AllFor(saves, ref) && SameId(saves) && other != ref
    requires saves != [] && saves[0].id in s.rows ==> s.rows[saves[0].id].ref == ref
    ensures E.Newest(E.SaveAll(s, saves, policy), other) == E.Newest(s, other)
    ensures E.InFlight(E.SaveAll(s, saves, policy), other) == E.InFlight(s, other)
  {
    OtherScansKept(s, saves, ref, (r: Row) => r.ref == other, policy);
    OtherScansKept(s, saves, ref, (r: Row) => r.ref == other && r.phase.InFlight(), policy);
  }

  lemma TurnKeepsOthers(s: E.Store, u: Unit, x: Turn, other: string, setup: E.Setup)
    requires Inv(s) && other != u.cfg.ref
    ensures Inv(After(s, u, x, setup)) && Promoted(After(s, u, x, setup), other) == Promoted(s, other)
  {
    TurnKeeps(s, u, x, setup);
    if Goes(s, u, x) {
      ReconcileOwnRows(s, u.cfg, x.id, setup, x.env, x.later);
      OthersKept(s, E.Reconcile(s, u.cfg, x.id, setup, x.env, x.later).saves, u.cfg.ref, other, setup.policy);
    }
  }

  lemma TurnKeeps(s: E.Store, u: Unit, x: Turn, setup: E.Setup)
    requires Inv(s)
    ensures Inv(After(s, u, x, setup))
  {
    if Goes(s, u, x) {
      var op := E.OpReconcile(u.cfg, x.id);
      NextKeeps(s, E.Input(op, x.env, x.later, |E.Call(s, op, setup, x.env, x.later).saves|), setup);
    }
  }

  // ---------- the wait rule ----------

  /**
   * A config has its turn exactly when the store could be read, the newest row of everything it
   * depends on is there and promoted, and a held failure gives way to a row in flight.
   */
  lemma GoesIff(s: E.Store, u: Unit, x: Turn)
    requires Inv(s)
    ensures Goes(s, u, x) <==>
            && x.readable
            && (forall d | d in u.dependsOn :: exists k: nat :: NewestAt(s, d, k) && s.rows[s.listing[k]].phase.Promoted?)
            && (x.held ==> exists id :: id in s.rows && s.rows[id].ref == u.cfg.ref && s.rows[id].phase.InFlight())
  {
    NoneWaiting(s, u.dependsOn);
    FoundRow(s, (r: Row) => r.ref == u.cfg.ref && r.phase.InFlight());
    forall d ensures Promoted(s, d) <==> exists k: nat :: NewestAt(s, d, k) && s.rows[s.listing[k]].phase.Promoted? {
      NewestIsFirst(s, d);
    }
  }

  /** No config is reconciled while the newest row of something it depends on is not promoted. */
  lemma NeverAheadOfDependencies(s: E.Store, units: seq<Unit>, turns: seq<Turn>, setup: E.Setup)
    requires |turns| == |units|
    ensures var stores := Stores(s, units, turns, setup);
            forall i, d | 0 <= i < |units| && d in units[i].dependsOn && Goes(stores[i], units[i], turns[i]) ::
              Promoted(stores[i], d)
  {
    var stores := Stores(s, units, turns, setup);
    forall i, d | 0 <= i < |units| && d in units[i].dependsOn && Goes(stores[i], units[i], turns[i])
      ensures Promoted(stores[i], d)
    {
      NoneWaiting(stores[i], units[i].dependsOn);
    }
  }

  /** A reconcile that runs ends with its target promoted. */
  predicate EachPromotes(stores: seq<E.Store>, units: seq<Unit>, turns: seq<Turn>)
    requires |stores| == |units| + 1 && |turns| == |units|
  {
    forall i | 0 <= i < |units| && Goes(stores[i], units[i], turns[i]) :: Promoted(stores[i + 1], units[i].cfg.ref)
  }

  predicate Unhindered(turns: seq<Turn>) {
    forall i | 0 <= i < |turns| :: turns[i].readable && !turns[i].held
  }

  lemma {:induction false} StoresStep(s: E.Store, units: seq<Unit>, turns: seq<Turn>, setup: E.Setup, i: nat)
    requires |turns| == |units| && i < |units|
    ensures var stores := Stores(s, units, turns, setup); stores[i + 1] == After(stores[i], units[i], turns[i], setup)
    decreases |units|
  {
    if i > 0 { StoresStep(After(s, units[0], turns[0], setup), units[1..], turns[1..], setup, i - 1); }
  }

  // Each store follows from the one before by its config's turn.
  predicate Turned(stores: seq<E.Store>, units: seq<Unit>, turns: seq<Turn>, setup: E.Setup, i: nat)
    requires |stores| == |units| + 1 && |turns| == |units| && i < |units|
  {
    stores[i + 1] == After(stores[i], units[i], turns[i], setup)
  }

  ghost predicate Chain(stores: seq<E.Store>, units: seq<Unit>, turns: seq<Turn>, setup: E.Setup) {
    && |stores| == |units| + 1 && |turns| == |units|
    && forall i {:trigger Turned(stores, units, turns, setup, i)} | 0 <= i < |units| :: Turned(stores, units, turns, setup, i)
  }

  // What the first k turns leave: each of them ran, its target is promoted, and so is every outside dependency.
  ghost predicate FirstRan(stores: seq<E.Store>, units: seq<Unit>, turns: seq<Turn>, outside: set<string>, k: nat)
    requires |stores| == |units| + 1 && |turns| == |units| && k <= |units|
  {
    && Inv(stores[k])
    && (forall d | d in outside :: Promoted(stores[k], d))
    && (forall i | 0 <= i < k :: Goes(stores[i], units[i], turns[i]) && Promoted(stores[k], units[i].cfg.ref))
  }

  lemma OneMoreRuns(stores: seq<E.Store>, units: seq<Unit>, turns: seq<Turn>, setup: E.Setup, outside: set<string>, k: nat)
    requires k < |units| && |stores| == |units| + 1 && |turns| == |units| && Turned(stores, units, turns, setup, k)
    requires UniqueRefs(units) && Unhindered(turns) && EachPromotes(stores, units, turns) && FirstRan(stores, units, turns, outside, k)
    requires forall d | d in outside :: !Among(units, d)
    requires forall d | d in units[k].dependsOn :: d in outside || Among(units[..k], d)
    ensures FirstRan(stores, units, turns, outside, k + 1)
  {
    var u, x := units[k], turns[k];
    DepsReady(stores[k], units, k, outside);
    assert Goes(stores[k], u, x);
    assert forall d | d in outside :: d != u.cfg.ref;
    TurnKeepsAll(stores[k], stores[k + 1], units, x, k, outside, setup);
  }

  lemma {:induction false} FirstTurnsRun(stores: seq<E.Store>, units: seq<Unit>, turns: seq<Turn>, setup: E.Setup, outside: set<string>, k: nat)
    requires k <= |units| && Chain(stores, units, turns, setup) && Inv(stores[0]) && UniqueRefs(units) && Unhindered(turns)
    requires EachPromotes(stores, units, turns)
    requires forall d | d in outside :: Promoted(stores[0], d) && !Among(units, d)
    requires forall i, d | 0 <= i < |units| && d in units[i].dependsOn :: d in outside || Among(units[..i], d)
    ensures FirstRan(stores, units, turns, outside, k)
  {
    if k > 0 {
      FirstTurnsRun(stores, units, turns, setup, outside, k - 1);
      assert Turned(stores, units, turns, setup, k - 1);
      OneMoreRuns(stores, units, turns, setup, outside, k - 1);
    }
  }

  lemma DepsReady(s: E.Store, units: seq<Unit>, k: nat, outside: set<string>)
    requires k < |units| && forall d | d in units[k].dependsOn :: d in outside || Among(units[..k], d)
    requires (forall d | d in outside :: Promoted(s, d)) && forall i | 0 <= i < k :: Promoted(s, units[i].cfg.ref)
    ensures FirstUnpromoted(s, units[k].dependsOn).None?
  {
    forall d | d in units[k].dependsOn ensures Promoted(s, d) {
      if d !in outside {
        var h :| 0 <= h < k && units[..k][h].cfg.ref == d;
        assert units[h].cfg.ref == d;
      }
    }
    NoneWaiting(s, units[k].dependsOn);
  }

  lemma TurnKeepsAll(s: E.Store, t: E.Store, units: seq<Unit>, x: Turn, k: nat, outside: set<string>, setup: E.Setup)
    requires Inv(s) && k < |units| && UniqueRefs(units) && t == After(s, units[k], x, setup) && units[k].cfg.ref !in outside
    requires (forall d | d in outside :: Promoted(s, d)) && forall i | 0 <= i < k :: Promoted(s, units[i].cfg.ref)
    ensures Inv(t)
    ensures (forall d | d in outside :: Promoted(t, d)) && forall i | 0 <= i < k :: Promoted(t, units[i].cfg.ref)
  {
    TurnKeeps(s, units[k], x, setup);
    forall d | d in outside ensures Promoted(t, d) {
      TurnKeepsOthers(s, units[k], x, d, setup);
    }
    forall i | 0 <= i < k ensures Promoted(t, units[i].cfg.ref) {
      TurnKeepsOthers(s, units[k], x, units[i].cfg.ref, setup);
    }
  }

  /**
   * With dependencies before dependents, everything the repository depends on outside itself
   * promoted, no failure held and every reconcile promoting, one tick reconciles every config.
   */
  lemma OneTickReachesAll(s: E.Store, units: seq<Unit>, turns: seq<Turn>, setup: E.Setup)
    requires |turns| == |units| && Inv(s) && UniqueRefs(units) && Unhindered(turns)
    requires DepsFirst(units, Elems(Names(units)))
    requires OutsidePromoted(s, units)
    requires EachPromotes(Stores(s, units, turns, setup), units, turns)
    ensures var stores := Stores(s, units, turns, setup);
            forall i | 0 <= i < |units| :: Goes(stores[i], units[i], turns[i]) && Promoted(stores[|units|], units[i].cfg.ref)
  {
    NamesAmong(units);
    var needed := set i, d | 0 <= i < |units| && d in units[i].dependsOn && d !in Names(units) :: d;
    forall i, d | 0 <= i < |units| && d in units[i].dependsOn ensures d in needed || Among(units[..i], d) {
      assert d !in Names(units) || d in Elems(Names(units));
    }
    forall i | 0 <= i < |units| ensures Turned(Stores(s, units, turns, setup), units, turns, setup, i) {
      StoresStep(s, units, turns, setup, i);
    }
    FirstTurnsRun(Stores(s, units, turns, setup), units, turns, setup, needed, |units|);
  }
}
