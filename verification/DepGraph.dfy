/** The dependency graph: earliest layers, cycles, and the downstream reach of a node. */
module DepGraph {
  import opened Rollout

  /** Each node with the nodes it depends on. */
  type Net = map<string, set<string>>

  ghost predicate Closed(pre: Net) {
    forall b, a | b in pre && a in pre[b] :: a in pre
  }

  predicate Edge(pre: Net, a: string, b: string) {
    b in pre && a in pre[b]
  }

  // ---------- paths ----------

  /** One or more edges, each from a node to one that depends on it. */
  predicate Path(pre: Net, p: seq<string>) {
    |p| >= 2 && forall i | 0 < i < |p| :: Edge(pre, p[i - 1], p[i])
  }

  ghost predicate Reach(pre: Net, a: string, b: string) {
    exists p :: Path(pre, p) && p[0] == a && p[|p| - 1] == b
  }

  ghost predicate Cyclic(pre: Net) {
    exists n :: Reach(pre, n, n)
  }

  lemma EdgeReaches(pre: Net, a: string, b: string)
    requires Edge(pre, a, b)
    ensures Reach(pre, a, b)
  {
    assert Path(pre, [a, b]);
  }

  // ---------- names in order ----------

  predicate Less(a: string, b: string) {
    b != [] && (a == [] || a[0] < b[0] || (a[0] == b[0] && Less(a[1..], b[1..])))
  }

  lemma LessTotal(a: string, b: string)
    ensures a == b || Less(a, b) || Less(b, a)
    ensures !(Less(a, b) && Less(b, a))
    ensures a == b ==> !Less(a, b)
  {
    if a != [] && b != [] && a[0] == b[0] {
      LessTotal(a[1..], b[1..]);
      assert a == [a[0]] + a[1..] && b == [b[0]] + b[1..];
    }
  }

  lemma LessTransitive(a: string, b: string, c: string)
    requires Less(a, b) && Less(b, c)
    ensures Less(a, c)
  {
  }

  predicate Increasing(s: seq<string>) {
    forall i, j | 0 <= i < j < |s| :: Less(s[i], s[j])
  }

  function Insert(n: string, s: seq<string>): (r: seq<string>)
    requires Increasing(s) && n !in s
    ensures Increasing(r) && forall x :: x in r <==> x == n || x in s
  {
    if s == [] then [n]
    else if Less(n, s[0]) then
      assert forall j | 0 < j < |s| :: Less(n, s[j]) by {
        forall j | 0 < j < |s| ensures Less(n, s[j]) { LessTransitive(n, s[0], s[j]); }
      }
      [n] + s
    else
      LessTotal(n, s[0]);
      assert s == [s[0]] + s[1..];
      assert forall x | x in s[1..] :: Less(s[0], x);
      [s[0]] + Insert(n, s[1..])
  }

  function Elems(s: seq<string>): set<string> {
    set x | x in s
  }

  /** An increasing sequence is determined by its elements. */
  lemma {:induction false} IncreasingUnique(s: seq<string>, t: seq<string>)
    requires Increasing(s) && Increasing(t) && Elems(s) == Elems(t)
    ensures s == t
    decreases |s|
  {
    if s == [] {
      NoElems(t);
    } else {
      assert s[0] in Elems(s) && s[0] in Elems(t);
      assert t != [] && t[0] in Elems(t) && t[0] in Elems(s);
      LessTotal(s[0], t[0]);
      assert s[0] == t[0];
      RestElems(s);
      RestElems(t);
      IncreasingUnique(s[1..], t[1..]);
      assert s == [s[0]] + s[1..] && t == [t[0]] + t[1..];
    }
  }

  lemma NoElems(t: seq<string>)
    ensures Elems(t) == {} <==> t == []
  {
    if t != [] { assert t[0] in Elems(t); }
  }

  lemma RestElems(s: seq<string>)
    requires Increasing(s) && s != []
    ensures Elems(s[1..]) == Elems(s) - {s[0]}
  {
    LessTotal(s[0], s[0]);
    assert s == [s[0]] + s[1..];
    forall x | x in s[1..] ensures x != s[0] { }
  }

  // ---------- layers ----------

  function AllOf(layers: seq<seq<string>>): set<string> {
    if layers == [] then {} else AllOf(layers[..|layers| - 1]) + Elems(layers[|layers| - 1])
  }

  ghost predicate In(layers: seq<seq<string>>, i: int, n: string) {
    0 <= i < |layers| && n in layers[i]
  }

  // In one of the first k layers.
  ghost predicate Earlier(layers: seq<seq<string>>, k: int, n: string) {
    exists i :: i < k && In(layers, i, n)
  }

  // The layer just before holds a prerequisite.
  ghost predicate Tight(pre: Net, layers: seq<seq<string>>, i: int, n: string) {
    exists p :: Edge(pre, p, n) && In(layers, i - 1, p)
  }

  /** The earliest layering, stated of the layers alone. */
  ghost predicate Layering(pre: Net, layers: seq<seq<string>>) {
    && (forall n {:trigger Earlier(layers, |layers|, n)} :: n in pre <==> Earlier(layers, |layers|, n))
    && (forall n, i, j | In(layers, i, n) && In(layers, j, n) :: i == j)
    && (forall i | 0 <= i < |layers| :: layers[i] != [] && Increasing(layers[i]))
    && (forall i, n, p {:trigger Earlier(layers, i, p), Edge(pre, p, n)} |
          In(layers, i, n) && Edge(pre, p, n) :: Earlier(layers, i, p))
    && (forall i, n {:trigger Tight(pre, layers, i, n)} | i > 0 && In(layers, i, n) :: Tight(pre, layers, i, n))
  }

  /** The nodes outside done whose prerequisites are all in it. */
  ghost function Ready(pre: Net, done: set<string>): set<string> {
    set n | n in pre && n !in done && pre[n] <= done
  }

  /** The layering stated by stages: each layer is what the earlier ones made ready. */
  ghost predicate Stages(pre: Net, layers: seq<seq<string>>) {
    forall k | 0 <= k < |layers| ::
      layers[k] != [] && Increasing(layers[k]) && Elems(layers[k]) == Ready(pre, AllOf(layers[..k]))
  }

  lemma {:induction false} InAllOf(layers: seq<seq<string>>, k: nat, n: string)
    requires k <= |layers|
    ensures n in AllOf(layers[..k]) <==> Earlier(layers, k, n)
  {
    if k > 0 {
      InAllOf(layers, k - 1, n);
      assert layers[..k][..k - 1] == layers[..k - 1];
      assert n in Elems(layers[k - 1]) <==> In(layers, k - 1, n);
    }
  }

  lemma StageOf(pre: Net, layers: seq<seq<string>>, i: int, n: string)
    requires Stages(pre, layers) && In(layers, i, n)
    ensures n in pre
    ensures forall j | In(layers, j, n) :: j == i
    ensures forall p | Edge(pre, p, n) :: Earlier(layers, i, p)
  {
    assert n in Elems(layers[i]);
    InAllOf(layers, i, n);
    forall j | In(layers, j, n) ensures j == i {
      assert n in Elems(layers[j]);
      InAllOf(layers, j, n);
    }
    forall p | Edge(pre, p, n) ensures Earlier(layers, i, p) {
      InAllOf(layers, i, p);
    }
  }

  // Not ready one stage earlier: some prerequisite came only with the layer just before.
  lemma StageIsEarliest(pre: Net, layers: seq<seq<string>>, i: int, n: string)
    requires Stages(pre, layers) && i > 0 && In(layers, i, n)
    ensures Tight(pre, layers, i, n)
  {
    assert n in Elems(layers[i]);
    var before := AllOf(layers[..i - 1]);
    assert layers[..i][..i - 1] == layers[..i - 1];
    assert AllOf(layers[..i]) == before + Elems(layers[i - 1]);
    assert n !in Elems(layers[i - 1]);
    assert n !in Ready(pre, before);
    var p :| p in pre[n] && p !in before;
    assert p in Elems(layers[i - 1]);
    assert Edge(pre, p, n) && In(layers, i - 1, p);
  }

  lemma StagesAreLayering(pre: Net, layers: seq<seq<string>>)
    requires Stages(pre, layers) && AllOf(layers) == pre.Keys
    ensures Layering(pre, layers)
  {
    assert layers[..|layers|] == layers;
    forall n ensures n in pre <==> Earlier(layers, |layers|, n) {
      InAllOf(layers, |layers|, n);
    }
    forall i, n | In(layers, i, n)
      ensures forall j | In(layers, j, n) :: j == i
      ensures forall p | Edge(pre, p, n) :: Earlier(layers, i, p)
    {
      StageOf(pre, layers, i, n);
    }
    forall i, n | i > 0 && In(layers, i, n)
      ensures Tight(pre, layers, i, n)
    {
      StageIsEarliest(pre, layers, i, n);
    }
  }

  lemma LayeringIsStages(pre: Net, layers: seq<seq<string>>)
    requires Layering(pre, layers)
    ensures Stages(pre, layers)
  {
    forall k | 0 <= k < |layers| ensures Elems(layers[k]) == Ready(pre, AllOf(layers[..k])) {
      forall n ensures n in Elems(layers[k]) <==> n in Ready(pre, AllOf(layers[..k])) {
        ReadyIsNext(pre, layers, k, n);
      }
    }
  }

  lemma ReadyIsNext(pre: Net, layers: seq<seq<string>>, k: nat, n: string)
    requires Layering(pre, layers) && k < |layers|
    ensures In(layers, k, n) <==> n in Ready(pre, AllOf(layers[..k]))
  {
    InAllOf(layers, k, n);
    if In(layers, k, n) {
      assert Earlier(layers, |layers|, n);
      forall p | p in pre[n] ensures p in AllOf(layers[..k]) {
        assert Edge(pre, p, n) && Earlier(layers, k, p);
        InAllOf(layers, k, p);
      }
    }
    if n in Ready(pre, AllOf(layers[..k])) {
      assert Earlier(layers, |layers|, n);
      var i :| In(layers, i, n);
      if i > k {
        assert Tight(pre, layers, i, n);
        var p :| Edge(pre, p, n) && In(layers, i - 1, p);
        InAllOf(layers, k, p);
      }
    }
  }

  /** There is only one earliest layering. */
  lemma {:induction false} LayersAgree(pre: Net, a: seq<seq<string>>, b: seq<seq<string>>, k: nat)
    requires Stages(pre, a) && Stages(pre, b) && k <= |a| && k <= |b|
    ensures a[..k] == b[..k]
  {
    if k > 0 {
      LayersAgree(pre, a, b, k - 1);
      NextLayerAgrees(pre, a, b, k - 1);
      OneMore(a, k - 1);
      OneMore(b, k - 1);
    }
  }

  lemma NextLayerAgrees(pre: Net, a: seq<seq<string>>, b: seq<seq<string>>, k: nat)
    requires Stages(pre, a) && Stages(pre, b) && k < |a| && k < |b| && a[..k] == b[..k]
    ensures a[k] == b[k]
  {
    IncreasingUnique(a[k], b[k]);
  }

  lemma OneMore(a: seq<seq<string>>, k: nat)
    requires k < |a|
    ensures a[..k + 1] == a[..k] + [a[k]]
  {
  }

  lemma LongestWins(pre: Net, a: seq<seq<string>>, b: seq<seq<string>>)
    requires Layering(pre, a) && Layering(pre, b)
    ensures |a| <= |b|
  {
    if |a| > |b| {
      LayeringIsStages(pre, a);
      LayeringIsStages(pre, b);
      LayersAgree(pre, a, b, |b|);
      var n := a[|b|][0];
      assert In(a, |b|, n) && Earlier(a, |a|, n) && Earlier(b, |b|, n);
      var i :| In(b, i, n);
      assert a[..|b|][i] == a[i] && b[..|b|][i] == b[i];
      assert In(a, i, n);
    }
  }

  lemma LayeringUnique(pre: Net, a: seq<seq<string>>, b: seq<seq<string>>)
    requires Layering(pre, a) && Layering(pre, b)
    ensures a == b
  {
    LongestWins(pre, a, b);
    LongestWins(pre, b, a);
    LayeringIsStages(pre, a);
    LayeringIsStages(pre, b);
    LayersAgree(pre, a, b, |a|);
    assert a[..|a|] == a && b[..|b|] == b;
  }

  // ---------- cycles ----------

  lemma {:induction false} PathClimbs(pre: Net, layers: seq<seq<string>>, p: seq<string>, i: int, j: int, k: nat)
    requires Layering(pre, layers) && Path(pre, p) && 0 < k < |p|
    requires In(layers, i, p[0]) && In(layers, j, p[k])
    ensures i < j
    decreases k
  {
    assert Edge(pre, p[k - 1], p[k]);
    assert Earlier(layers, j, p[k - 1]);
    var h :| h < j && In(layers, h, p[k - 1]);
    if k > 1 { PathClimbs(pre, layers, p, i, h, k - 1); }
  }

  lemma LayeringMeansAcyclic(pre: Net, layers: seq<seq<string>>)
    requires Layering(pre, layers)
    ensures !Cyclic(pre)
  {
    if Cyclic(pre) {
      var n :| Reach(pre, n, n);
      var p :| Path(pre, p) && p[0] == n && p[|p| - 1] == n;
      assert Edge(pre, p[|p| - 2], p[|p| - 1]);
      assert Earlier(layers, |layers|, n);
      var i :| In(layers, i, n);
      PathClimbs(pre, layers, p, i, i, |p| - 1);
    }
  }

  ghost predicate HasPrereq(pre: Net, rest: set<string>, m: string) {
    exists q :: q in rest && Edge(pre, q, m)
  }

  ghost predicate Stuck(pre: Net, rest: set<string>) {
    forall m {:trigger HasPrereq(pre, rest, m)} | m in rest :: HasPrereq(pre, rest, m)
  }

  // A walk backwards inside rest, as long as wanted.
  lemma {:induction false} WalkBack(pre: Net, rest: set<string>, n: string, len: nat) returns (p: seq<string>)
    requires n in rest && Stuck(pre, rest)
    ensures |p| == len + 1 && p[len] == n && (forall x | x in p :: x in rest)
    ensures forall i | 0 < i < |p| :: Edge(pre, p[i - 1], p[i])
    decreases len
  {
    if len == 0 {
      p := [n];
    } else {
      assert HasPrereq(pre, rest, n);
      var q :| q in rest && Edge(pre, q, n);
      var front := WalkBack(pre, rest, q, len - 1);
      p := front + [n];
    }
  }

  lemma {:induction false} Repeats(p: seq<string>, among: set<string>) returns (i: nat, j: nat)
    requires |p| > |among| && forall x | x in p :: x in among
    ensures i < j < |p| && p[i] == p[j]
    decreases |among|
  {
    var last := |p| - 1;
    assert p[last] in among;
    if k :| 0 <= k < last && p[k] == p[last] {
      i, j := k, last;
    } else {
      var front := p[..last];
      assert |among - {p[last]}| == |among| - 1;
      forall x | x in front ensures x in among - {p[last]} { }
      i, j := Repeats(front, among - {p[last]});
    }
  }

  lemma ReturnIsCycle(pre: Net, p: seq<string>, i: nat, j: nat)
    requires i < j < |p| && p[i] == p[j] && forall k | 0 < k < |p| :: Edge(pre, p[k - 1], p[k])
    ensures Cyclic(pre)
  {
    var loop := p[i..j + 1];
    assert Path(pre, loop);
    assert loop[0] == p[i] && loop[|loop| - 1] == p[j];
    assert Reach(pre, p[i], p[i]);
  }

  /** When no node is ready and some are left, the ones left contain a cycle. */
  lemma StuckMeansCycle(pre: Net, done: set<string>)
    requires Closed(pre) && done <= pre.Keys && |pre.Keys - done| > 0 && Ready(pre, done) == {}
    ensures Cyclic(pre)
  {
    var rest := pre.Keys - done;
    forall m | m in rest ensures HasPrereq(pre, rest, m) {
      assert m !in Ready(pre, done);
      var q :| q in pre[m] && q !in done;
      assert q in rest && Edge(pre, q, m);
    }
    var n :| n in rest;
    var p := WalkBack(pre, rest, n, |rest|);
    var i, j := Repeats(p, rest);
    ReturnIsCycle(pre, p, i, j);
  }

  // ---------- the graph as it is built and walked ----------

  datatype Dependency = Dependency(from: string, to: string)

  /** The edges are exactly the dependencies. */
  ghost predicate Records(pre: Net, deps: seq<Dependency>) {
    forall a, b :: Edge(pre, a, b) <==> Dependency(a, b) in deps
  }

  function Ends(deps: seq<Dependency>): set<string> {
    if deps == [] then {} else Ends(deps[..|deps| - 1]) + {deps[|deps| - 1].from, deps[|deps| - 1].to}
  }

  // A set of nodes that holds the prerequisites of its members.
  ghost predicate Down(pre: Net, done: set<string>) {
    done <= pre.Keys && forall m | m in done :: pre[m] <= done
  }

  /** In-degrees of the nodes not yet placed; a placed node counts -1. */
  ghost predicate Counts(indeg: map<string, int>, pre: Net, done: set<string>) {
    indeg.Keys == pre.Keys && forall n <- pre :: indeg[n] == if n in done then -1 else |pre[n] - done|
  }

  class Graph {
    var nodes: set<string>
    var dependents: map<string, set<string>>
    var prereqs: map<string, set<string>>

    ghost predicate Valid()
      reads this
    {
      && prereqs.Keys == nodes && dependents.Keys == nodes && Closed(prereqs)
      && (forall a, b | a in nodes :: b in dependents[a] <==> Edge(prereqs, a, b))
    }

    /** Nodes named anywhere are in the graph; the edges are the dependencies. */
    constructor (names: seq<string>, deps: seq<Dependency>)
      ensures Valid()
      ensures nodes == Elems(names) + Ends(deps)
      ensures Records(prereqs, deps)
    {
      nodes, dependents, prereqs := {}, map[], map[];
      new;
      for i := 0 to |names|
        invariant Valid()
        invariant nodes == Elems(names[..i]) && forall a, b :: !Edge(prereqs, a, b)
      {
        AddNode(names[i]);
        assert names[..i + 1] == names[..i] + [names[i]];
      }
      assert names[..|names|] == names;
      DependAll(deps);
    }

    method DependAll(deps: seq<Dependency>)
      requires Valid() && forall a, b :: !Edge(prereqs, a, b)
      modifies this
      ensures Valid() && nodes == old(nodes) + Ends(deps) && Records(prereqs, deps)
    {
      for i := 0 to |deps|
        invariant Valid() && nodes == old(nodes) + Ends(deps[..i]) && Records(prereqs, deps[..i])
      {
        assert deps[..i + 1] == deps[..i] + [deps[i]];
        Depend(deps[i]);
      }
      assert deps[..|deps|] == deps;
    }

    method Depend(d: Dependency)
      requires Valid()
      modifies this
      ensures Valid() && nodes == old(nodes) + {d.from, d.to}
      ensures forall a, b :: Edge(prereqs, a, b) <==> old(Edge(prereqs, a, b)) || Dependency(a, b) == d
    {
      AddNode(d.from);
      AddNode(d.to);
      Link(d);
    }

    method AddNode(n: string)
      requires Valid()
      modifies this
      ensures Valid() && nodes == old(nodes) + {n}
      ensures forall a, b :: Edge(prereqs, a, b) <==> old(Edge(prereqs, a, b))
    {
      if n in nodes { return; }
      nodes := nodes + {n};
      dependents := dependents[n := {}];
      prereqs := prereqs[n := {}];
    }

    method Link(d: Dependency)
      requires Valid() && d.from in nodes && d.to in nodes
      modifies this
      ensures Valid() && nodes == old(nodes)
      ensures forall a, b :: Edge(prereqs, a, b) <==> old(Edge(prereqs, a, b)) || Dependency(a, b) == d
    {
      dependents := dependents[d.from := dependents[d.from] + {d.to}];
      prereqs := prereqs[d.to := prereqs[d.to] + {d.from}];
    }

    /** The nodes that count zero, in order. The set is visited in no particular order. */
    method Zeroes(indeg: map<string, int>) returns (layer: seq<string>)
      ensures Increasing(layer) && forall n :: n in layer <==> n in indeg && indeg[n] == 0
    {
      layer := [];
      var rest := indeg.Keys;
      while rest != {}
        invariant rest <= indeg.Keys && Increasing(layer)
        invariant forall n :: n in layer <==> n in indeg.Keys - rest && indeg[n] == 0
      {
        var n :| n in rest;
        rest := rest - {n};
        if indeg[n] == 0 { layer := Insert(n, layer); }
      }
    }

    method Decrement(indeg: map<string, int>, those: set<string>) returns (out: map<string, int>)
      requires those <= indeg.Keys
      ensures out.Keys == indeg.Keys
      ensures forall n <- indeg :: out[n] == if n in those then indeg[n] - 1 else indeg[n]
    {
      out := indeg;
      var rest := those;
      while rest != {}
        invariant rest <= those && out.Keys == indeg.Keys
        invariant forall n <- indeg :: out[n] == if n in those - rest then indeg[n] - 1 else indeg[n]
      {
        var n :| n in rest;
        rest := rest - {n};
        out := out[n := out[n] - 1];
      }
    }

    /** Place one node: it is consumed and each of its dependents waits for one prerequisite less. */
    method PlaceOne(start: map<string, int>, n: string, ghost placed: set<string>) returns (indeg: map<string, int>)
      requires Valid() && Counts(start, prereqs, placed) && n in nodes && n !in placed
      requires forall m | Edge(prereqs, n, m) :: m !in placed && m != n
      ensures Counts(indeg, prereqs, placed + {n})
    {
      indeg := Decrement(start[n := -1], dependents[n]);
      Placed(indeg, prereqs, placed, n, dependents[n]);
    }

    /** Place the nodes of one layer. */
    method Consume(layer: seq<string>, start: map<string, int>, ghost done: set<string>) returns (indeg: map<string, int>)
      requires Valid() && Counts(start, prereqs, done) && Increasing(layer) && Elems(layer) == Ready(prereqs, done)
      requires Down(prereqs, done)
      ensures Counts(indeg, prereqs, done + Elems(layer))
    {
      indeg := start;
      ghost var placed := done;
      NothingPlaced(done, layer);
      for i := 0 to |layer|
        invariant placed == done + Elems(layer[..i]) && Counts(indeg, prereqs, placed)
      {
        NextToPlace(prereqs, done, layer, i);
        indeg := PlaceOne(indeg, layer[i], placed);
        placed := placed + {layer[i]};
      }
    }

    method Layers() returns (r: Option<seq<seq<string>>>)
      requires Valid()
      ensures r.Some? <==> !Cyclic(prereqs)
      ensures r.Some? ==> Layering(prereqs, r.value)
    {
      var indeg := map n | n in nodes :: |prereqs[n]|;
      var layers: seq<seq<string>> := [];
      var remaining := |nodes|;
      ghost var done: set<string> := {};
      NothingDone(prereqs);
      while remaining > 0
        invariant remaining == |prereqs.Keys - done| && done == AllOf(layers)
        invariant Counts(indeg, prereqs, done) && Down(prereqs, done) && Stages(prereqs, layers)
        decreases remaining
      {
        var layer := Zeroes(indeg);
        ZeroMeansReady(indeg, prereqs, done, layer);
        if layer == [] {
          StuckMeansCycle(prereqs, done);
          return None;
        }
        indeg := Consume(layer, indeg, done);
        remaining := remaining - |layer|;
        FewerLeft(prereqs, done, layer);
        StageAdded(prereqs, layers, layer);
        layers := layers + [layer];
        done := done + Elems(layer);
      }
      NothingLeft(prereqs.Keys, done);
      StagesAreLayering(prereqs, layers);
      LayeringMeansAcyclic(prereqs, layers);
      return Some(layers);
    }

    method HasCycle() returns (yes: bool)
      requires Valid()
      ensures yes <==> Cyclic(prereqs)
    {
      var r := Layers();
      return r.None?;
    }

    // ---------- reach ----------

    // A node that is not in the graph has no dependents.
    function Next(n: string): set<string>
      reads this
    {
      if n in dependents then dependents[n] else {}
    }

    /** Visit what n leads to, skipping what was seen; everything newly seen has been visited in turn. */
    method Walk(n: string, seen: set<string>) returns (out: set<string>)
      requires Valid() && seen <= nodes
      ensures seen <= out <= nodes && Next(n) <= out
      ensures forall x | x in out - seen :: Next(x) <= out
      ensures forall x | x in out - seen :: Reach(prereqs, n, x)
      decreases nodes - seen
    {
      out := seen;
      var rest := Next(n);
      while rest != {}
        invariant seen <= out <= nodes && rest <= Next(n) && Next(n) - rest <= out
        invariant forall x | x in out - seen :: Next(x) <= out
        invariant forall x | x in out - seen :: Reach(prereqs, n, x)
        decreases rest
      {
        var dep :| dep in rest;
        rest := rest - {dep};
        if dep !in out {
          EdgeReaches(prereqs, n, dep);
          ghost var was := out;
          out := Walk(dep, out + {dep});
          forall x | x in out - was - {dep} ensures Reach(prereqs, n, x) {
            ReachThrough(prereqs, n, dep, x);
          }
        }
      }
    }

    /** The nodes reached by one or more edges; the starting node is one of them when it lies on a cycle. */
    ghost function Downstream(ref: string): set<string>
      reads this
    {
      set n | n in nodes && Reach(prereqs, ref, n)
    }

    method BlastRadius(ref: string) returns (count: nat)
      requires Valid()
      ensures count == |Downstream(ref)|
    {
      var seen := Walk(ref, {});
      forall n ensures n in seen <==> n in Downstream(ref) {
        if n in Downstream(ref) {
          var p :| Path(prereqs, p) && p[0] == ref && p[|p| - 1] == n;
          WalkHasPath(p, seen, |p| - 1);
        }
      }
      assert seen == Downstream(ref);
      return |seen|;
    }

    lemma {:induction false} WalkHasPath(p: seq<string>, seen: set<string>, k: nat)
      requires Valid() && Path(prereqs, p) && 0 < k < |p|
      requires Next(p[0]) <= seen && forall x | x in seen :: Next(x) <= seen
      ensures p[k] in seen
      decreases k
    {
      assert Edge(prereqs, p[k - 1], p[k]);
      assert p[k] in Next(p[k - 1]);
      if k > 1 { WalkHasPath(p, seen, k - 1); }
    }
  }

  // ---------- small steps of the methods above ----------

  lemma ReachThrough(pre: Net, a: string, b: string, c: string)
    requires Edge(pre, a, b) && Reach(pre, b, c)
    ensures Reach(pre, a, c)
  {
    var p :| Path(pre, p) && p[0] == b && p[|p| - 1] == c;
    assert Path(pre, [a] + p);
  }

  lemma LessIrreflexive(s: seq<string>, i: nat)
    requires Increasing(s) && i < |s|
    ensures s[i] !in s[..i]
  {
    if s[i] in s[..i] {
      LessTotal(s[i], s[i]);
    }
  }

  lemma NothingDone(pre: Net)
    ensures pre.Keys - {} == pre.Keys && forall n <- pre :: pre[n] - {} == pre[n]
  {
  }

  lemma NothingPlaced(done: set<string>, layer: seq<string>)
    ensures done + Elems(layer[..0]) == done && layer[..|layer|] == layer
  {
  }

  lemma NextToPlace(pre: Net, done: set<string>, layer: seq<string>, i: nat)
    requires Increasing(layer) && Elems(layer) == Ready(pre, done) && i < |layer|
    requires Down(pre, done)
    ensures var placed := done + Elems(layer[..i]);
            && done + Elems(layer[..i + 1]) == placed + {layer[i]}
            && layer[i] in pre && layer[i] !in placed
            && forall m | Edge(pre, layer[i], m) :: m !in placed && m != layer[i]
  {
    assert layer[..i + 1] == layer[..i] + [layer[i]];
    LessIrreflexive(layer, i);
    forall x | x in layer ensures x in Ready(pre, done) { assert x in Elems(layer); }
    assert layer[i] in Ready(pre, done);
    forall m | Edge(pre, layer[i], m) ensures m !in done + Elems(layer[..i]) && m != layer[i] {
      assert m !in Ready(pre, done);
    }
  }

  // Placing one ready node takes one off the count of each of its dependents.
  lemma Placed(indeg: map<string, int>, pre: Net, placed: set<string>, n: string, those: set<string>)
    requires n in pre && n !in placed && n !in those
    requires forall m | m in those :: m in pre && m !in placed && n in pre[m]
    requires forall m | m in pre && m !in those :: n !in pre[m]
    requires indeg.Keys == pre.Keys
    requires forall m <- pre :: indeg[m] == if m == n || m in placed then -1
                                            else if m in those then |pre[m] - placed| - 1
                                            else |pre[m] - placed|
    ensures Counts(indeg, pre, placed + {n})
  {
    forall m | m in pre && m !in placed + {n} ensures indeg[m] == |pre[m] - (placed + {n})| {
      assert pre[m] - (placed + {n}) == (pre[m] - placed) - {n};
    }
  }

  lemma NothingLeft(a: set<string>, b: set<string>)
    ensures |a - b| == 0 <==> a <= b
  {
    if |a - b| == 0 {
      forall x | x in a ensures x in b { assert x !in a - b; }
    } else {
      var x :| x in a - b;
    }
  }

  lemma ZeroMeansReady(indeg: map<string, int>, pre: Net, done: set<string>, layer: seq<string>)
    requires Counts(indeg, pre, done) && forall n :: n in layer <==> n in indeg && indeg[n] == 0
    ensures Elems(layer) == Ready(pre, done)
  {
    forall n | n in pre ensures n in layer <==> n in Ready(pre, done) {
      if n !in done {
        NothingLeft(pre[n], done);
      }
    }
  }

  lemma FewerLeft(pre: Net, done: set<string>, layer: seq<string>)
    requires Increasing(layer) && Elems(layer) == Ready(pre, done) && Down(pre, done)
    ensures |pre.Keys - (done + Elems(layer))| == |pre.Keys - done| - |layer|
    ensures Down(pre, done + Elems(layer))
  {
    DistinctCount(layer);
    assert Elems(layer) <= pre.Keys - done;
    assert pre.Keys - (done + Elems(layer)) == (pre.Keys - done) - Elems(layer);
  }

  lemma {:induction false} DistinctCount(s: seq<string>)
    requires Increasing(s)
    ensures |Elems(s)| == |s|
    decreases |s|
  {
    if s != [] {
      RestElems(s);
      DistinctCount(s[1..]);
      assert s[0] in Elems(s);
    }
  }

  lemma StageAdded(pre: Net, layers: seq<seq<string>>, layer: seq<string>)
    requires Stages(pre, layers) && layer != [] && Increasing(layer) && Elems(layer) == Ready(pre, AllOf(layers))
    ensures Stages(pre, layers + [layer]) && AllOf(layers + [layer]) == AllOf(layers) + Elems(layer)
  {
    var more := layers + [layer];
    assert more[..|layers|] == layers;
    forall k | 0 <= k < |layers| ensures more[..k] == layers[..k] { }
  }
}
