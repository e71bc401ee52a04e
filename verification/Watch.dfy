/** One tick over the configs of a repository: their order, and which of them are reconciled. */
module Watch {
  import opened StepOps
  import opened DepGraph

  /** A config file: the target it declares and the targets it depends on. */
  datatype Unit = Unit(path: string, cfg: Config, dependsOn: seq<string>)

  // ---------- the graph of a repository ----------

  function Names(units: seq<Unit>): (r: seq<string>)
    ensures |r| == |units| && forall i | 0 <= i < |r| :: r[i] == units[i].cfg.ref
  {
    if units == [] then [] else Names(units[..|units| - 1]) + [units[|units| - 1].cfg.ref]
  }

  function DepsOf(ref: string, dependsOn: seq<string>): (r: seq<Dependency>)
    ensures forall d :: d in r <==> d.to == ref && d.from in dependsOn
  {
    if dependsOn == [] then [] else [Dependency(dependsOn[0], ref)] + DepsOf(ref, dependsOn[1..])
  }

  function Deps(units: seq<Unit>): seq<Dependency> {
    if units == [] then [] else Deps(units[..|units| - 1]) + DepsOf(units[|units| - 1].cfg.ref, units[|units| - 1].dependsOn)
  }

  function ByRef(units: seq<Unit>): map<string, Unit> {
    if units == [] then map[] else ByRef(units[..|units| - 1])[units[|units| - 1].cfg.ref := units[|units| - 1]]
  }

  /** The declared dependencies of a repository as a graph. */
  ghost function NetOf(units: seq<Unit>): Net {
    map n | n in Elems(Names(units)) + Ends(Deps(units)) :: set d | d in Deps(units) && d.to == n :: d.from
  }

  lemma NetIs(units: seq<Unit>, pre: Net)
    requires pre.Keys == Elems(Names(units)) + Ends(Deps(units)) && Records(pre, Deps(units))
    ensures pre == NetOf(units)
  {
    forall n | n in pre ensures pre[n] == NetOf(units)[n] {
      forall a ensures a in pre[n] <==> a in NetOf(units)[n] {
        assert Edge(pre, a, n) <==> Dependency(a, n) in Deps(units);
      }
    }
  }

  lemma {:induction false} DepsHas(units: seq<Unit>, i: nat)
    requires i < |units|
    ensures forall d | d in DepsOf(units[i].cfg.ref, units[i].dependsOn) :: d in Deps(units)
    decreases |units|
  {
    if i < |units| - 1 { DepsHas(units[..|units| - 1], i); }
  }

  predicate UniqueRefs(units: seq<Unit>) {
    forall i, j | 0 <= i < j < |units| :: units[i].cfg.ref != units[j].cfg.ref
  }

  lemma {:induction false} ByRefHolds(units: seq<Unit>)
    ensures ByRef(units).Keys == Elems(Names(units))
    ensures forall ref <- ByRef(units) :: ByRef(units)[ref] in units && ByRef(units)[ref].cfg.ref == ref
    ensures UniqueRefs(units) ==> forall i | 0 <= i < |units| :: ByRef(units)[units[i].cfg.ref] == units[i]
    decreases |units|
  {
    if units != [] { ByRefHolds(units[..|units| - 1]); }
  }

  // ---------- the order of a tick ----------

  predicate Among(out: seq<Unit>, ref: string) {
    exists h :: 0 <= h < |out| && out[h].cfg.ref == ref
  }

  /** What a config depends on inside the repository comes before it. */
  predicate DepsFirst(out: seq<Unit>, known: set<string>) {
    forall k, d | 0 <= k < |out| && d in out[k].dependsOn && d in known :: Among(out[..k], d)
  }

  /** What the emitted part of an ordering keeps: one unit for each ref in `done` that the repository declares. */
  ghost predicate Emitted(out: seq<Unit>, byRef: map<string, Unit>, done: set<string>) {
    && UniqueRefs(out)
    && (forall k | 0 <= k < |out| :: out[k].cfg.ref in byRef && byRef[out[k].cfg.ref] == out[k])
    && (forall ref :: Among(out, ref) <==> ref in done && ref in byRef)
    && DepsFirst(out, byRef.Keys)
  }

  lemma AmongMore(out: seq<Unit>, u: Unit)
    ensures forall ref :: Among(out + [u], ref) <==> Among(out, ref) || ref == u.cfg.ref
  {
    forall ref ensures Among(out + [u], ref) <==> Among(out, ref) || ref == u.cfg.ref {
      assert (out + [u])[|out|] == u;
      if Among(out, ref) {
        var h :| 0 <= h < |out| && out[h].cfg.ref == ref;
        assert (out + [u])[h] == out[h];
      }
    }
  }

  lemma EmitOne(out: seq<Unit>, byRef: map<string, Unit>, done: set<string>, ref: string)
    requires Emitted(out, byRef, done) && ref !in done && ref in byRef && byRef[ref].cfg.ref == ref
    requires forall d | d in byRef[ref].dependsOn :: d in done
    ensures Emitted(out + [byRef[ref]], byRef, done + {ref})
  {
    var u := byRef[ref];
    var more := out + [u];
    AmongMore(out, u);
    assert more[..|out|] == out;
    forall k, d | 0 <= k < |more| && d in more[k].dependsOn && d in byRef ensures Among(more[..k], d) {
      if k < |out| { assert more[..k] == out[..k]; }
    }
    forall i, j | 0 <= i < j < |more| ensures more[i].cfg.ref != more[j].cfg.ref {
      if j == |out| { assert Among(out, out[i].cfg.ref); }
    }
  }

  method EmitLayer(first: seq<Unit>, layer: seq<string>, byRef: map<string, Unit>, seenBefore: set<string>, ghost done: set<string>)
    returns (out: seq<Unit>, seen: set<string>)
    requires Emitted(first, byRef, done) && Increasing(layer) && forall n | n in layer :: n !in done
    requires seenBefore == set n | n in done && n in byRef
    requires forall n | n in layer && n in byRef :: byRef[n].cfg.ref == n && forall d | d in byRef[n].dependsOn :: d in done
    ensures Emitted(out, byRef, done + Elems(layer)) && seen == set n | n in done + Elems(layer) && n in byRef
  {
    out, seen := first, seenBefore;
    ghost var placed := done;
    NothingPlaced(done, layer);
    for i := 0 to |layer|
      invariant placed == done + Elems(layer[..i])
      invariant Emitted(out, byRef, placed) && seen == set n | n in placed && n in byRef
    {
      var ref := layer[i];
      LessIrreflexive(layer, i);
      NextElem(done, layer, i);
      assert ref !in placed;
      if ref in byRef && ref !in seen {
        EmitOne(out, byRef, placed, ref);
        out := out + [byRef[ref]];
        seen := seen + {ref};
      } else {
        EmitNone(out, byRef, placed, ref);
      }
      placed := placed + {ref};
    }
  }

  lemma NextElem(done: set<string>, layer: seq<string>, i: nat)
    requires i < |layer|
    ensures done + Elems(layer[..i + 1]) == (done + Elems(layer[..i])) + {layer[i]}
  {
    assert layer[..i + 1] == layer[..i] + [layer[i]];
  }

  lemma EmitNone(out: seq<Unit>, byRef: map<string, Unit>, done: set<string>, ref: string)
    requires Emitted(out, byRef, done) && ref !in byRef
    ensures Emitted(out, byRef, done + {ref})
  {
  }

  /** What layers have been emitted has been emitted before everything that depends on it. */
  lemma LayerReady(units: seq<Unit>, layers: seq<seq<string>>, i: nat)
    requires Layering(NetOf(units), layers) && i < |layers|
    ensures forall n | n in layers[i] :: n !in AllOf(layers[..i])
    ensures var byRef := ByRef(units);
            forall n | n in layers[i] && n in byRef ::
              byRef[n].cfg.ref == n && forall d | d in byRef[n].dependsOn :: d in AllOf(layers[..i])
    ensures layers[..i + 1][..i] == layers[..i] && AllOf(layers[..i + 1]) == AllOf(layers[..i]) + Elems(layers[i])
  {
    assert layers[..i + 1][..i] == layers[..i];
    var byRef := ByRef(units);
    ByRefHolds(units);
    forall n | n in layers[i]
      ensures n !in AllOf(layers[..i])
      ensures n in byRef ==> forall d | d in byRef[n].dependsOn :: d in AllOf(layers[..i])
    {
      assert In(layers, i, n);
      InAllOf(layers, i, n);
      if n in byRef {
        forall d | d in byRef[n].dependsOn ensures d in AllOf(layers[..i]) {
          DependsIsEdge(units, byRef[n], d);
          assert Earlier(layers, i, d);
          InAllOf(layers, i, d);
        }
      }
    }
  }

  lemma DependsIsEdge(units: seq<Unit>, u: Unit, d: string)
    requires u in units && d in u.dependsOn
    ensures Edge(NetOf(units), d, u.cfg.ref)
  {
    var i :| 0 <= i < |units| && units[i] == u;
    DepsHas(units, i);
    assert Dependency(d, u.cfg.ref) in DepsOf(u.cfg.ref, u.dependsOn);
    assert Names(units)[i] == u.cfg.ref;
  }

  /** File order when nothing depends on anything or the dependencies are circular; else dependencies first. */
  method OrderByDependsOn(units: seq<Unit>) returns (out: seq<Unit>)
    ensures Deps(units) == [] || Cyclic(NetOf(units)) ==> out == units
    ensures Deps(units) != [] && !Cyclic(NetOf(units)) ==>
              UniqueRefs(out) && Elems(Names(out)) == Elems(Names(units)) && forall u | u in out :: u in units
    ensures !Cyclic(NetOf(units)) ==> DepsFirst(out, Elems(Names(units)))
    ensures UniqueRefs(units) ==> multiset(out) == multiset(units)
  {
    var byRef, names, deps := Collect(units);
    if deps == [] {
      NoDeps(units);
      return units;
    }
    var graph := new Graph(names, deps);
    NetIs(units, graph.prereqs);
    var layers := graph.Layers();
    if layers.None? { return units; }
    out := EmitLayers(units, byRef, layers.value);
    Complete(units, out, AllOf(layers.value));
  }

  method EmitLayers(units: seq<Unit>, byRef: map<string, Unit>, layers: seq<seq<string>>) returns (out: seq<Unit>)
    requires byRef == ByRef(units) && Layering(NetOf(units), layers)
    ensures Emitted(out, byRef, AllOf(layers)) && Elems(Names(units)) <= AllOf(layers)
  {
    out := [];
    var seen: set<string> := {};
    for i := 0 to |layers|
      invariant Emitted(out, byRef, AllOf(layers[..i]))
      invariant seen == set n | n in AllOf(layers[..i]) && n in byRef
    {
      LayerReady(units, layers, i);
      out, seen := EmitLayer(out, layers[i], byRef, seen, AllOf(layers[..i]));
    }
    LayersHoldAll(units, layers);
    ByRefHolds(units);
    AllSeen(units, seen);
    assert out + [] == out;
    out := AppendUnseen(out, units, seen);
  }

  function Unseen(units: seq<Unit>, seen: set<string>): seq<Unit> {
    if units == [] then []
    else
      var front, last := units[..|units| - 1], units[|units| - 1];
      Unseen(front, seen) + if last.cfg.ref in seen then [] else [last]
  }

  method AppendUnseen(first: seq<Unit>, units: seq<Unit>, seen: set<string>) returns (out: seq<Unit>)
    ensures out == first + Unseen(units, seen)
  {
    out := first;
    for i := 0 to |units|
      invariant out == first + Unseen(units[..i], seen)
    {
      assert units[..i + 1][..i] == units[..i];
      if units[i].cfg.ref !in seen { out := out + [units[i]]; }
    }
    assert units[..|units|] == units;
  }

  // Every declared ref is in some layer, so the last loop finds nothing left.
  lemma {:induction false} AllSeen(units: seq<Unit>, seen: set<string>)
    requires Elems(Names(units)) <= seen
    ensures Unseen(units, seen) == []
  {
    if units != [] {
      var front := units[..|units| - 1];
      assert Elems(Names(units)) == Elems(Names(front)) + {units[|units| - 1].cfg.ref};
      AllSeen(front, seen);
    }
  }

  method Collect(units: seq<Unit>) returns (byRef: map<string, Unit>, names: seq<string>, deps: seq<Dependency>)
    ensures byRef == ByRef(units) && names == Names(units) && deps == Deps(units)
  {
    byRef, names, deps := map[], [], [];
    for i := 0 to |units|
      invariant byRef == ByRef(units[..i]) && names == Names(units[..i]) && deps == Deps(units[..i])
    {
      assert units[..i + 1][..i] == units[..i];
      byRef := byRef[units[i].cfg.ref := units[i]];
      names := names + [units[i].cfg.ref];
      deps := deps + DepsOf(units[i].cfg.ref, units[i].dependsOn);
    }
    assert units[..|units|] == units;
  }

  lemma NoDeps(units: seq<Unit>)
    requires Deps(units) == []
    ensures DepsFirst(units, Elems(Names(units)))
  {
    forall k | 0 <= k < |units| ensures units[k].dependsOn == [] {
      assert units[k].dependsOn != [] ==>
          Dependency(units[k].dependsOn[0], units[k].cfg.ref) in DepsOf(units[k].cfg.ref, units[k].dependsOn);
      DepsHas(units, k);
    }
  }

  lemma LayersHoldAll(units: seq<Unit>, layers: seq<seq<string>>)
    requires Layering(NetOf(units), layers)
    ensures layers[..|layers|] == layers && Elems(Names(units)) <= AllOf(layers)
  {
    assert layers[..|layers|] == layers;
    forall n | n in Elems(Names(units)) ensures n in AllOf(layers) {
      assert n in NetOf(units) && Earlier(layers, |layers|, n);
      InAllOf(layers, |layers|, n);
    }
  }

  lemma Complete(units: seq<Unit>, out: seq<Unit>, done: set<string>)
    requires Emitted(out, ByRef(units), done) && Elems(Names(units)) <= done
    ensures UniqueRefs(out) && Elems(Names(out)) == Elems(Names(units)) && (forall u | u in out :: u in units)
    ensures DepsFirst(out, Elems(Names(units)))
    ensures UniqueRefs(units) ==> multiset(out) == multiset(units)
  {
    ByRefHolds(units);
    NamesAmong(out);
    if UniqueRefs(units) {
      forall u | u in units ensures u in out {
        var i :| 0 <= i < |units| && units[i] == u;
        assert Names(units)[i] in Elems(Names(units));
        assert Among(out, u.cfg.ref);
      }
      SameOnce(out, units);
    }
  }

  lemma NamesAmong(out: seq<Unit>)
    ensures forall ref :: ref in Names(out) <==> Among(out, ref)
  {
    forall ref ensures ref in Names(out) <==> Among(out, ref) {
      if ref in Names(out) {
        var h :| 0 <= h < |out| && Names(out)[h] == ref;
        assert out[h].cfg.ref == ref;
      }
      if Among(out, ref) {
        var h :| 0 <= h < |out| && out[h].cfg.ref == ref;
        assert Names(out)[h] == ref;
      }
    }
  }

  lemma {:induction false} OnceEach(s: seq<Unit>)
    requires UniqueRefs(s)
    ensures forall u :: multiset(s)[u] == if u in s then 1 else 0
    decreases |s|
  {
    if s != [] {
      var front, last := s[..|s| - 1], s[|s| - 1];
      OnceEach(front);
      assert s == front + [last];
    }
  }

  lemma SameOnce(a: seq<Unit>, b: seq<Unit>)
    requires UniqueRefs(a) && UniqueRefs(b) && forall u :: u in a <==> u in b
    ensures multiset(a) == multiset(b)
  {
    OnceEach(a);
    OnceEach(b);
  }
}
