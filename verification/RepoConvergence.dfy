/** A whole repository settles: repeated ticks promote every config, dependencies first. */
module RepoConvergence {
  import opened StepOps
  import opened DepGraph
  import opened Watch
  import opened Runs
  import opened TickLoop
  import opened Convergence
  import E = Engine

  /** The store, and what each target reports. */
  datatype Cluster = Cluster(store: E.Store, live: map<string, Live>)

  function LiveOf(c: Cluster, ref: string): Live {
    if ref in c.live then c.live[ref] else Live("", false)
  }

  /** The cluster as one config's target sees it. */
  function View(c: Cluster, cfg: Config): World {
    World(c.store, LiveOf(c, cfg.ref))
  }

  function RoundOf(x: Turn): Round {
    Round(x.id, x.env, x.later)
  }

  function Turned(c: Cluster, u: Unit, x: Turn, setup: E.Setup): Cluster {
    if Goes(c.store, u, x) then
      var w := Reconciled(View(c, u.cfg), RoundOf(x), u.cfg, setup);
      Cluster(w.store, if w.live == LiveOf(c, u.cfg.ref) then c.live else c.live[u.cfg.ref := w.live])
    else c
  }

  function Ticked(c: Cluster, units: seq<Unit>, turns: seq<Turn>, setup: E.Setup): Cluster
    requires |turns| == |units|
    decreases |units|
  {
    if units == [] then c else Ticked(Turned(c, units[0], turns[0], setup), units[1..], turns[1..], setup)
  }

  /** This is the tick that the watcher makes on its store. */
  lemma {:induction false} TickedIsTick(c: Cluster, units: seq<Unit>, turns: seq<Turn>, setup: E.Setup)
    requires |turns| == |units|
    ensures Ticked(c, units, turns, setup).store == Stores(c.store, units, turns, setup)[|units|]
    decreases |units|
  {
    if units != [] {
      var d := Turned(c, units[0], turns[0], setup);
      assert d.store == TickLoop.After(c.store, units[0], turns[0], setup);
      TickedIsTick(d, units[1..], turns[1..], setup);
    }
  }

  /** The store can be read, no failure is held, and a reconcile that runs is a good one made when it is due. */
  ghost predicate Fit(c: Cluster, u: Unit, x: Turn, setup: E.Setup) {
    x.readable && !x.held && (Goes(c.store, u, x) ==> Timely(View(c, u.cfg), RoundOf(x), u.cfg, setup))
  }

  ghost predicate AllFit(c: Cluster, units: seq<Unit>, turns: seq<Turn>, setup: E.Setup)
    requires |turns| == |units|
    decreases |units|
  {
    units != [] ==> Fit(c, units[0], turns[0], setup) && AllFit(Turned(c, units[0], turns[0], setup), units[1..], turns[1..], setup)
  }

  // ---------- what a turn does to each target ----------

  /** A turn changes nothing that another target sees of itself. */
  ghost predicate SameView(c: Cluster, d: Cluster, ref: string) {
    && E.Newest(d.store, ref) == E.Newest(c.store, ref) && E.InFlight(d.store, ref) == E.InFlight(c.store, ref)
    && LiveOf(d, ref) == LiveOf(c, ref)
  }

  lemma TurnSparesOthers(c: Cluster, u: Unit, x: Turn, setup: E.Setup, other: string)
    requires Inv(c.store) && other != u.cfg.ref
    ensures SameView(c, Turned(c, u, x, setup), other)
  {
    if Goes(c.store, u, x) {
      ReconcileOwnRows(c.store, u.cfg, x.id, setup, x.env, x.later);
      OthersKept(c.store, E.Reconcile(c.store, u.cfg, x.id, setup, x.env, x.later).saves, u.cfg.ref, other, setup.policy);
    }
  }

  lemma TurnKeepsInv(c: Cluster, u: Unit, x: Turn, setup: E.Setup)
    requires Inv(c.store)
    ensures Inv(Turned(c, u, x, setup).store)
  {
    TurnKeeps(c.store, u, x, setup);
  }

  lemma SameViewSame(c: Cluster, d: Cluster, cfg: Config, policy: E.Policy)
    requires SameView(c, d, cfg.ref) && Inv(d.store)
    ensures Calls(View(d, cfg), cfg) == Calls(View(c, cfg), cfg)
    ensures Overlooked(View(d, cfg), cfg) == Overlooked(View(c, cfg), cfg)
    ensures Unheld(View(c, cfg), cfg, policy) ==> Unheld(View(d, cfg), cfg, policy)
  {
  }

  // How a target fares over a turn: unheld as before, overlooked if and only if it was, and no further from rest.
  ghost predicate Fares(c: Cluster, d: Cluster, cfg: Config, policy: E.Policy) {
    && Unheld(View(d, cfg), cfg, policy)
    && Overlooked(View(d, cfg), cfg) == Overlooked(View(c, cfg), cfg)
    && Calls(View(d, cfg), cfg) <= Calls(View(c, cfg), cfg)
  }

  lemma TurnOwn(c: Cluster, u: Unit, x: Turn, setup: E.Setup)
    requires Unheld(View(c, u.cfg), u.cfg, setup.policy) && Fit(c, u, x, setup)
    ensures var d := Turned(c, u, x, setup);
            && Fares(c, d, u.cfg, setup.policy)
            && (Goes(c.store, u, x) && !Overlooked(View(c, u.cfg), u.cfg) && Calls(View(c, u.cfg), u.cfg) > 0 ==>
                  Calls(View(d, u.cfg), u.cfg) < Calls(View(c, u.cfg), u.cfg))
  {
    if Goes(c.store, u, x) {
      var w := View(c, u.cfg);
      assert View(Turned(c, u, x, setup), u.cfg) == Reconciled(w, RoundOf(x), u.cfg, setup);
      if Overlooked(w, u.cfg) {
        RestStays(w, RoundOf(x), u.cfg, setup);
      } else if Calls(w, u.cfg) == 0 {
        NothingToDo(w, u.cfg, setup.policy);
        RestStays(w, RoundOf(x), u.cfg, setup);
      } else {
        RoundAdvances(w, RoundOf(x), u.cfg, setup);
      }
    }
  }

  /** A turn of a target that is at rest, or overlooked, changes nothing at all. */
  lemma RestedTurn(c: Cluster, u: Unit, x: Turn, setup: E.Setup)
    requires Fit(c, u, x, setup) && (AtRest(View(c, u.cfg), u.cfg) || Overlooked(View(c, u.cfg), u.cfg))
    ensures Turned(c, u, x, setup) == c
  {
    if Goes(c.store, u, x) { RestStays(View(c, u.cfg), RoundOf(x), u.cfg, setup); }
  }

  // ---------- one tick ----------

  ghost predicate AllUnheld(c: Cluster, all: seq<Unit>, policy: E.Policy) {
    Inv(c.store) && forall k | 0 <= k < |all| :: Unheld(View(c, all[k].cfg), all[k].cfg, policy)
  }

  ghost predicate AllFare(c: Cluster, d: Cluster, all: seq<Unit>, policy: E.Policy) {
    Inv(d.store) && forall k | 0 <= k < |all| :: Fares(c, d, all[k].cfg, policy)
  }

  // What lies outside the repository looks the same.
  ghost predicate SameOutside(c: Cluster, d: Cluster, all: seq<Unit>) {
    forall ref | !Among(all, ref) :: TickLoop.Promoted(d.store, ref) == TickLoop.Promoted(c.store, ref)
  }

  lemma TurnAll(c: Cluster, all: seq<Unit>, i: nat, x: Turn, setup: E.Setup)
    requires AllUnheld(c, all, setup.policy) && UniqueRefs(all) && i < |all| && Fit(c, all[i], x, setup)
    ensures var d := Turned(c, all[i], x, setup); AllFare(c, d, all, setup.policy) && SameOutside(c, d, all)
  {
    var d := Turned(c, all[i], x, setup);
    TurnKeepsInv(c, all[i], x, setup);
    forall k | 0 <= k < |all| ensures Fares(c, d, all[k].cfg, setup.policy) {
      if k == i {
        TurnOwn(c, all[i], x, setup);
      } else {
        assert all[k].cfg.ref != all[i].cfg.ref;
        TurnSparesOthers(c, all[i], x, setup, all[k].cfg.ref);
        SameViewSame(c, d, all[k].cfg, setup.policy);
      }
    }
    forall ref | !Among(all, ref) ensures TickLoop.Promoted(d.store, ref) == TickLoop.Promoted(c.store, ref) {
      assert ref != all[i].cfg.ref;
      TurnSparesOthers(c, all[i], x, setup, ref);
    }
  }

  lemma FaresOn(c: Cluster, d: Cluster, e: Cluster, all: seq<Unit>, policy: E.Policy)
    requires AllFare(c, d, all, policy) && AllFare(d, e, all, policy)
    ensures AllFare(c, e, all, policy)
  {
    forall k | 0 <= k < |all| ensures Fares(c, e, all[k].cfg, policy) {
      assert Fares(c, d, all[k].cfg, policy) && Fares(d, e, all[k].cfg, policy);
    }
  }

  /** The turns from i on: nobody is further from rest than before. */
  lemma {:induction false} TickAll(c: Cluster, all: seq<Unit>, i: nat, turns: seq<Turn>, setup: E.Setup)
    requires AllUnheld(c, all, setup.policy) && UniqueRefs(all) && i <= |all| && |turns| == |all| - i
    requires AllFit(c, all[i..], turns, setup)
    ensures var d := Ticked(c, all[i..], turns, setup); AllFare(c, d, all, setup.policy) && SameOutside(c, d, all)
    decreases |all| - i
  {
    if i < |all| {
      assert all[i..][0] == all[i] && all[i..][1..] == all[i + 1..];
      var d := Turned(c, all[i], turns[0], setup);
      TurnAll(c, all, i, turns[0], setup);
      StillUnheld(c, d, all, setup.policy);
      TickAll(d, all, i + 1, turns[1..], setup);
      FaresOn(c, d, Ticked(c, all[i..], turns, setup), all, setup.policy);
    } else {
      assert all[i..] == [];
      forall k | 0 <= k < |all| ensures Fares(c, c, all[k].cfg, setup.policy) { }
    }
  }

  lemma StillUnheld(c: Cluster, d: Cluster, all: seq<Unit>, policy: E.Policy)
    requires AllFare(c, d, all, policy)
    ensures AllUnheld(d, all, policy)
  {
    forall k | 0 <= k < |all| ensures Unheld(View(d, all[k].cfg), all[k].cfg, policy) {
      assert Fares(c, d, all[k].cfg, policy);
    }
  }

  // ---------- some target moves ----------

  function CallsOf(c: Cluster, u: Unit): nat {
    Calls(View(c, u.cfg), u.cfg)
  }

  /** All that is left to do in the repository. */
  function Total(c: Cluster, units: seq<Unit>): nat {
    if units == [] then 0 else CallsOf(c, units[0]) + Total(c, units[1..])
  }

  // The first k configs are at rest.
  ghost predicate FirstRest(c: Cluster, all: seq<Unit>, k: nat)
    requires k <= |all|
  {
    forall i | 0 <= i < k :: CallsOf(c, all[i]) == 0 && AtRest(View(c, all[i].cfg), all[i].cfg)
  }

  ghost predicate DepsReadyFor(c: Cluster, all: seq<Unit>, k: nat)
    requires k < |all|
  {
    forall d | d in all[k].dependsOn :: Among(all[..k], d) || (!Among(all, d) && TickLoop.Promoted(c.store, d))
  }

  lemma RestPromoted(c: Cluster, all: seq<Unit>, k: nat)
    requires k < |all| && FirstRest(c, all, k) && DepsReadyFor(c, all, k)
    ensures FirstUnpromoted(c.store, all[k].dependsOn).None?
  {
    forall d | d in all[k].dependsOn ensures TickLoop.Promoted(c.store, d) {
      if Among(all[..k], d) {
        var h :| 0 <= h < k && all[..k][h].cfg.ref == d;
        assert AtRest(View(c, all[h].cfg), all[h].cfg);
      }
    }
    NoneWaiting(c.store, all[k].dependsOn);
  }

  /** The turns up to the first config that is not at rest change nothing, and that one goes and moves. */
  lemma {:induction false} FirstMoves(c: Cluster, all: seq<Unit>, i: nat, k: nat, turns: seq<Turn>, setup: E.Setup)
    requires AllUnheld(c, all, setup.policy) && UniqueRefs(all) && i <= k < |all| && |turns| == |all| - i
    requires AllFit(c, all[i..], turns, setup)
    requires FirstRest(c, all, k) && CallsOf(c, all[k]) > 0 && !Overlooked(View(c, all[k].cfg), all[k].cfg) && DepsReadyFor(c, all, k)
    ensures CallsOf(Ticked(c, all[i..], turns, setup), all[k]) < CallsOf(c, all[k])
    decreases k - i
  {
    assert all[i..][0] == all[i] && all[i..][1..] == all[i + 1..];
    var d := Turned(c, all[i], turns[0], setup);
    if i < k {
      RestedTurn(c, all[i], turns[0], setup);
      FirstMoves(c, all, i + 1, k, turns[1..], setup);
    } else {
      RestPromoted(c, all, k);
      assert Goes(c.store, all[k], turns[0]);
      TurnOwn(c, all[k], turns[0], setup);
      TurnAll(c, all, k, turns[0], setup);
      StillUnheld(c, d, all, setup.policy);
      TickAll(d, all, k + 1, turns[1..], setup);
      assert Fares(d, Ticked(d, all[k + 1..], turns[1..], setup), all[k].cfg, setup.policy);
    }
  }

  lemma {:induction false} TotalFares(c: Cluster, d: Cluster, all: seq<Unit>, i: nat, policy: E.Policy)
    requires AllFare(c, d, all, policy) && i <= |all|
    ensures Total(d, all[i..]) <= Total(c, all[i..])
    ensures forall k | i <= k < |all| && CallsOf(d, all[k]) < CallsOf(c, all[k]) :: Total(d, all[i..]) < Total(c, all[i..])
    decreases |all| - i
  {
    if i < |all| {
      assert all[i..][0] == all[i] && all[i..][1..] == all[i + 1..];
      assert Fares(c, d, all[i].cfg, policy);
      TotalFares(c, d, all, i + 1, policy);
    }
  }

  // The first config that still has something to do.
  lemma {:induction false} FirstBusy(c: Cluster, all: seq<Unit>, i: nat) returns (k: nat)
    requires i <= |all| && Total(c, all[i..]) > 0
    ensures i <= k < |all| && CallsOf(c, all[k]) > 0 && forall h | i <= h < k :: CallsOf(c, all[h]) == 0
    decreases |all| - i
  {
    assert i < |all| && all[i..][0] == all[i] && all[i..][1..] == all[i + 1..];
    if CallsOf(c, all[i]) > 0 { k := i; } else { k := FirstBusy(c, all, i + 1); }
  }

  // ---------- many ticks ----------

  // A repository in order: dependencies first, unique targets, everything it needs outside itself promoted.
  ghost predicate Ordered(c: Cluster, all: seq<Unit>) {
    UniqueRefs(all) && DepsFirst(all, Elems(Names(all))) && OutsidePromoted(c.store, all)
  }

  ghost predicate NoneOverlooked(c: Cluster, all: seq<Unit>) {
    forall k | 0 <= k < |all| :: !Overlooked(View(c, all[k].cfg), all[k].cfg)
  }

  ghost predicate AllAtRest(c: Cluster, all: seq<Unit>) {
    forall k | 0 <= k < |all| :: AtRest(View(c, all[k].cfg), all[k].cfg)
  }

  lemma DepsAreReady(c: Cluster, all: seq<Unit>, k: nat)
    requires Ordered(c, all) && k < |all|
    ensures DepsReadyFor(c, all, k)
  {
    NamesAmong(all);
    forall d | d in all[k].dependsOn ensures Among(all[..k], d) || (!Among(all, d) && TickLoop.Promoted(c.store, d)) {
      assert d in Names(all) <==> d in Elems(Names(all));
    }
  }

  lemma StillOrdered(c: Cluster, d: Cluster, all: seq<Unit>)
    requires Ordered(c, all) && SameOutside(c, d, all)
    ensures Ordered(d, all)
  {
    NamesAmong(all);
  }

  /** A tick brings the repository closer to rest, unless it is there. */
  lemma TickAdvances(c: Cluster, all: seq<Unit>, turns: seq<Turn>, setup: E.Setup)
    requires AllUnheld(c, all, setup.policy) && Ordered(c, all) && NoneOverlooked(c, all) && Total(c, all) > 0
    requires |turns| == |all| && AllFit(c, all, turns, setup)
    ensures Total(Ticked(c, all, turns, setup), all) < Total(c, all)
  {
    assert all[0..] == all;
    var d := Ticked(c, all, turns, setup);
    var k := FirstBusy(c, all, 0);
    forall h | 0 <= h < k ensures AtRest(View(c, all[h].cfg), all[h].cfg) {
      NothingToDo(View(c, all[h].cfg), all[h].cfg, setup.policy);
    }
    DepsAreReady(c, all, k);
    FirstMoves(c, all, 0, k, turns, setup);
    TickAll(c, all, 0, turns, setup);
    TotalFares(c, d, all, 0, setup.policy);
  }

  function After(c: Cluster, all: seq<Unit>, ticks: seq<seq<Turn>>, setup: E.Setup): Cluster
    requires forall i | 0 <= i < |ticks| :: |ticks[i]| == |all|
    decreases |ticks|
  {
    if ticks == [] then c else After(Ticked(c, all, ticks[0], setup), all, ticks[1..], setup)
  }

  ghost predicate AllTicksFit(c: Cluster, all: seq<Unit>, ticks: seq<seq<Turn>>, setup: E.Setup)
    requires forall i | 0 <= i < |ticks| :: |ticks[i]| == |all|
    decreases |ticks|
  {
    ticks != [] ==> AllFit(c, all, ticks[0], setup) && AllTicksFit(Ticked(c, all, ticks[0], setup), all, ticks[1..], setup)
  }

  lemma {:induction false} OverlookedSame(c: Cluster, all: seq<Unit>, ticks: seq<seq<Turn>>, setup: E.Setup)
    requires forall i | 0 <= i < |ticks| :: |ticks[i]| == |all|
    requires AllUnheld(c, all, setup.policy) && Ordered(c, all) && AllTicksFit(c, all, ticks, setup)
    ensures AllFare(c, After(c, all, ticks, setup), all, setup.policy)
    decreases |ticks|
  {
    if ticks == [] {
      forall k | 0 <= k < |all| ensures Fares(c, c, all[k].cfg, setup.policy) { }
    } else {
      var d := Ticked(c, all, ticks[0], setup);
      OneTick(c, all, ticks[0], setup);
      OverlookedSame(d, all, ticks[1..], setup);
      FaresOn(c, d, After(c, all, ticks, setup), all, setup.policy);
    }
  }

  lemma OneTick(c: Cluster, all: seq<Unit>, turns: seq<Turn>, setup: E.Setup)
    requires AllUnheld(c, all, setup.policy) && Ordered(c, all) && |turns| == |all| && AllFit(c, all, turns, setup)
    ensures var d := Ticked(c, all, turns, setup);
            AllFare(c, d, all, setup.policy) && AllUnheld(d, all, setup.policy) && Ordered(d, all)
  {
    assert all[0..] == all;
    TickAll(c, all, 0, turns, setup);
    StillUnheld(c, Ticked(c, all, turns, setup), all, setup.policy);
    StillOrdered(c, Ticked(c, all, turns, setup), all);
  }

  lemma {:induction false} NothingLeftToDo(c: Cluster, all: seq<Unit>, ticks: seq<seq<Turn>>, setup: E.Setup)
    requires forall i | 0 <= i < |ticks| :: |ticks[i]| == |all|
    requires AllUnheld(c, all, setup.policy) && Ordered(c, all) && NoneOverlooked(c, all)
    requires AllTicksFit(c, all, ticks, setup) && |ticks| >= Total(c, all)
    ensures Total(After(c, all, ticks, setup), all) == 0
    decreases |ticks|
  {
    if ticks != [] {
      var d := Ticked(c, all, ticks[0], setup);
      OneTick(c, all, ticks[0], setup);
      assert all[0..] == all;
      TotalFares(c, d, all, 0, setup.policy);
      if Total(c, all) > 0 { TickAdvances(c, all, ticks[0], setup); }
      forall k | 0 <= k < |all| ensures !Overlooked(View(d, all[k].cfg), all[k].cfg) {
        assert Fares(c, d, all[k].cfg, setup.policy);
      }
      NothingLeftToDo(d, all, ticks[1..], setup);
    }
  }

  lemma {:induction false} TotalZero(c: Cluster, all: seq<Unit>, i: nat)
    requires i <= |all| && Total(c, all[i..]) == 0
    ensures forall k | i <= k < |all| :: CallsOf(c, all[k]) == 0
    decreases |all| - i
  {
    if i < |all| {
      assert all[i..][0] == all[i] && all[i..][1..] == all[i + 1..];
      TotalZero(c, all, i + 1);
    }
  }

  /**
   * With dependencies first, unique targets, everything needed outside promoted, no failure held and
   * every reconcile good and due: after as many ticks as there are calls left in the whole
   * repository, every config is in sync and promoted, if and only if none of them was overlooked.
   */
  lemma RepositoryConverges(c: Cluster, all: seq<Unit>, ticks: seq<seq<Turn>>, setup: E.Setup)
    requires forall i | 0 <= i < |ticks| :: |ticks[i]| == |all|
    requires AllUnheld(c, all, setup.policy) && Ordered(c, all) && AllTicksFit(c, all, ticks, setup)
    ensures AllAtRest(After(c, all, ticks, setup), all) ==> NoneOverlooked(c, all)
    ensures NoneOverlooked(c, all) && |ticks| >= Total(c, all) ==> AllAtRest(After(c, all, ticks, setup), all)
  {
    var d := After(c, all, ticks, setup);
    OverlookedSame(c, all, ticks, setup);
    forall k | 0 <= k < |all|
      ensures Overlooked(View(d, all[k].cfg), all[k].cfg) == Overlooked(View(c, all[k].cfg), all[k].cfg)
      ensures Unheld(View(d, all[k].cfg), all[k].cfg, setup.policy)
    {
      assert Fares(c, d, all[k].cfg, setup.policy);
    }
    if NoneOverlooked(c, all) && |ticks| >= Total(c, all) {
      NothingLeftToDo(c, all, ticks, setup);
      assert all[0..] == all;
      TotalZero(d, all, 0);
      forall k | 0 <= k < |all| ensures AtRest(View(d, all[k].cfg), all[k].cfg) {
        NothingToDo(View(d, all[k].cfg), all[k].cfg, setup.policy);
      }
    }
  }
}
