/** What a successful plan of PdcPlanner means, over all paths of all graphs. */
module PdcTheorems {
  import opened Words
  import opened Wrappers
  import opened GraphTopo
  import opened PdcPlanner

  // The walk solves the longest-path equations, the emitted edges align every path, and the reported
  // compensation is longest minus shortest.

  // ---------- the equations the walk solves ----------

  function Input(job: Job, vals: seq<u64>, v: nat): (r: u64)
    requires job.Valid() && |vals| == |job.nodes| && v < |job.nodes|
    ensures forall k :: 0 <= k < |job.incoming[v]| ==> vals[job.incoming[v][k]] <= r
  {
    MaxOverBound(vals, job.incoming[v]);
    MaxOver(vals, job.incoming[v])
  }

  ghost predicate Solved(job: Job, w: Walk, v: nat)
    requires job.Valid() && w.Sized(|job.nodes|) && v < |job.nodes|
  {
    && w.primary[v] == Input(job, w.primary, v) + job.nodes[v].primaryLatency
    && w.monitor[v] == Input(job, w.monitor, v) + job.nodes[v].monitorLatency
    && CompensationOver(job.reach[v], w.primary, w.compensation, Input(job, w.primary, v), job.incoming[v])
       == Some(w.compensation[v])
  }

  // The entries one visited pair contributes.
  function PairEntries(job: Job, from: nat, to: nat, delay: u64): seq<EdgeDelay>
    requires from < |job.nodes| && to < |job.nodes|
  {
    var source := job.nodes[from];
    var target := job.nodes[to].trackId;
    (if target in source.dests then [EdgeDelay(source.trackId, target, delay, false)] else []) +
    (if target in source.sidechainDests then [EdgeDelay(source.trackId, target, delay, true)] else [])
  }

  function FromEntries(job: Job, primary: seq<u64>, input: u64, froms: seq<nat>, to: nat): seq<EdgeDelay>
    requires |primary| == |job.nodes| && Below(froms, |primary|) && to < |job.nodes|
    requires forall k :: 0 <= k < |froms| ==> primary[froms[k]] <= input
  {
    if froms == [] then []
    else
      var from := froms[|froms| - 1];
      FromEntries(job, primary, input, froms[..|froms| - 1], to) + PairEntries(job, from, to, input - primary[from])
  }

  function NodeEntries(job: Job, primary: seq<u64>, v: nat): seq<EdgeDelay>
    requires job.Valid() && |primary| == |job.nodes| && v < |job.nodes|
  {
    if job.reach[v] && |job.incoming[v]| > 1
    then FromEntries(job, primary, Input(job, primary, v), job.incoming[v], v)
    else []
  }

  function AllEntries(job: Job, primary: seq<u64>, order: seq<nat>): seq<EdgeDelay>
    requires job.Valid() && |primary| == |job.nodes| && Below(order, |job.nodes|)
  {
    if order == [] then []
    else AllEntries(job, primary, order[..|order| - 1]) + NodeEntries(job, primary, order[|order| - 1])
  }

  ghost predicate SourcesIn(job: Job, v: nat, seen: seq<nat>)
    requires job.Valid() && v < |job.nodes|
  {
    forall k :: 0 <= k < |job.incoming[v]| ==> job.incoming[v][k] in seen
  }

  // Distinct nodes, each after all its sources.
  ghost predicate Ordered(job: Job, order: seq<nat>)
    requires job.Valid()
    ensures Ordered(job, order) ==> Below(order, |job.nodes|)
  {
    order == [] ||
    var v, seen := order[|order| - 1], order[..|order| - 1];
    Ordered(job, seen) && v < |job.nodes| && v !in seen && SourcesIn(job, v, seen)
  }

  ghost predicate AllSolved(job: Job, w: Walk, order: seq<nat>)
    requires job.Valid() && w.Sized(|job.nodes|) && Below(order, |job.nodes|)
  {
    order == [] || (AllSolved(job, w, order[..|order| - 1]) && Solved(job, w, order[|order| - 1]))
  }

  ghost predicate Agree(a: seq<u64>, b: seq<u64>, froms: seq<nat>) {
    && |a| == |b| && Below(froms, |a|)
    && forall k :: 0 <= k < |froms| ==> a[froms[k]] == b[froms[k]]
  }

  lemma {:induction false} MaxOverAgree(a: seq<u64>, b: seq<u64>, froms: seq<nat>)
    requires Agree(a, b, froms)
    ensures MaxOver(a, froms) == MaxOver(b, froms)
  {
    if froms != [] {
      MaxOverAgree(a, b, froms[..|froms| - 1]);
    }
  }

  lemma {:induction false} CompensationAgree(reaches: bool, a: seq<u64>, b: seq<u64>, c: seq<u64>, d: seq<u64>,
                                             input: u64, froms: seq<nat>)
    requires Agree(a, b, froms) && Agree(c, d, froms) && |a| == |c|
    requires forall k :: 0 <= k < |froms| ==> a[froms[k]] <= input
    ensures CompensationOver(reaches, a, c, input, froms) == CompensationOver(reaches, b, d, input, froms)
  {
    if froms != [] {
      CompensationAgree(reaches, a, b, c, d, input, froms[..|froms| - 1]);
    }
  }

  lemma {:induction false} FromEntriesAgree(job: Job, a: seq<u64>, b: seq<u64>, input: u64, froms: seq<nat>, to: nat)
    requires Agree(a, b, froms) && |a| == |job.nodes| && to < |job.nodes|
    requires forall k :: 0 <= k < |froms| ==> a[froms[k]] <= input
    ensures FromEntries(job, a, input, froms, to) == FromEntries(job, b, input, froms, to)
  {
    if froms != [] {
      FromEntriesAgree(job, a, b, input, froms[..|froms| - 1], to);
    }
  }

  lemma SolvedAgree(job: Job, w: Walk, x: Walk, v: nat)
    requires job.Valid() && w.Sized(|job.nodes|) && x.Sized(|job.nodes|) && v < |job.nodes|
    requires Agree(w.primary, x.primary, job.incoming[v] + [v]) && Agree(w.monitor, x.monitor, job.incoming[v] + [v])
    requires Agree(w.compensation, x.compensation, job.incoming[v] + [v])
    ensures Solved(job, w, v) ==> Solved(job, x, v)
    ensures NodeEntries(job, w.primary, v) == NodeEntries(job, x.primary, v)
  {
    var froms := job.incoming[v];
    forall k | 0 <= k < |froms|
      ensures froms[k] == (froms + [v])[k]
    {
    }
    assert (froms + [v])[|froms|] == v;
    assert Agree(w.primary, x.primary, froms) && Agree(w.monitor, x.monitor, froms);
    assert Agree(w.compensation, x.compensation, froms);
    MaxOverAgree(w.primary, x.primary, froms);
    MaxOverAgree(w.monitor, x.monitor, froms);
    var input := Input(job, w.primary, v);
    CompensationAgree(job.reach[v], w.primary, x.primary, w.compensation, x.compensation, input, froms);
    FromEntriesAgree(job, w.primary, x.primary, input, froms, v);
  }

  // Emission appends exactly the listed entries.
  lemma {:induction false} EmitAllEntries(job: Job, primary: seq<u64>, input: u64, froms: seq<nat>, to: nat,
                                          acc: Emission)
    requires |primary| == |job.nodes| && Below(froms, |primary|) && to < |job.nodes|
    requires forall k :: 0 <= k < |froms| ==> primary[froms[k]] <= input
    requires EmitAll(job, primary, input, froms, to, acc).error.None?
    ensures EmitAll(job, primary, input, froms, to, acc).entries
            == acc.entries + FromEntries(job, primary, input, froms, to)
  {
    if froms != [] {
      EmitAllEntries(job, primary, input, froms[..|froms| - 1], to, acc);
    }
  }

  lemma VisitAgree(job: Job, w: Walk, v: nat, froms: seq<nat>)
    requires job.Valid() && w.Sized(|job.nodes|) && v < |job.nodes|
    requires Below(froms, |job.nodes|) && v !in froms
    ensures var x := Visit(job, w, v);
      && Agree(w.primary, x.primary, froms) && Agree(w.monitor, x.monitor, froms)
      && Agree(w.compensation, x.compensation, froms)
  {
  }

  lemma VisitSolves(job: Job, w: Walk, v: nat)
    requires job.Valid() && w.Sized(|job.nodes|) && v < |job.nodes| && v !in job.incoming[v]
    requires Visit(job, w, v).out.error.None?
    ensures Solved(job, Visit(job, w, v), v)
    ensures Visit(job, w, v).out.entries == w.out.entries + NodeEntries(job, Visit(job, w, v).primary, v)
  {
    var x := Visit(job, w, v);
    var froms := job.incoming[v];
    VisitAgree(job, w, v, froms);
    MaxOverAgree(w.primary, x.primary, froms);
    MaxOverAgree(w.monitor, x.monitor, froms);
    var input := Input(job, w.primary, v);
    CompensationAgree(job.reach[v], w.primary, x.primary, w.compensation, x.compensation, input, froms);
    FromEntriesAgree(job, w.primary, x.primary, input, froms, v);
    if job.reach[v] && |froms| > 1 {
      EmitAllEntries(job, w.primary, input, froms, v, w.out);
    }
  }

  // Visiting a node not yet seen disturbs no equation and no entry of the seen ones.
  lemma {:induction false} VisitKeeps(job: Job, w: Walk, v: nat, order: seq<nat>)
    requires job.Valid() && w.Sized(|job.nodes|) && v < |job.nodes|
    requires Ordered(job, order) && v !in order
    ensures AllEntries(job, w.primary, order) == AllEntries(job, Visit(job, w, v).primary, order)
    ensures AllSolved(job, w, order) ==> AllSolved(job, Visit(job, w, v), order)
  {
    if order != [] {
      var u, seen := order[|order| - 1], order[..|order| - 1];
      assert v !in job.incoming[u];
      VisitAgree(job, w, v, job.incoming[u] + [u]);
      SolvedAgree(job, w, Visit(job, w, v), u);
      VisitKeeps(job, w, v, seen);
    }
  }

  // A successful walk solves the equations of every node it visited and emits exactly their entries.
  lemma {:induction false} WalkSolves(job: Job, order: seq<nat>)
    requires job.Valid() && Ordered(job, order)
    requires VisitAll(job, order).out.error.None?
    ensures AllSolved(job, VisitAll(job, order), order)
    ensures VisitAll(job, order).out.entries == AllEntries(job, VisitAll(job, order).primary, order)
  {
    if order != [] {
      var v, seen := order[|order| - 1], order[..|order| - 1];
      var w := VisitAll(job, seen);
      WalkSolves(job, seen);
      VisitKeeps(job, w, v, seen);
      VisitSolves(job, w, v);
    }
  }

  // ---------- routes between tracks ----------

  // A dest edge (aux false) or a sidechain edge (aux true).
  predicate Leg(nodes: seq<PdcNode>, u: nat, v: nat, aux: bool) {
    && u < |nodes| && v < |nodes|
    && nodes[v].trackId in if aux then nodes[u].sidechainDests else nodes[u].dests
  }

  // A walk over tracks with the kind of edge taken at each leg.
  predicate IsRoute(nodes: seq<PdcNode>, p: seq<nat>, kinds: seq<bool>) {
    && |p| == |kinds| + 1 && p[0] < |nodes|
    && forall k :: 0 <= k < |kinds| ==> Leg(nodes, p[k], p[k + 1], kinds[k])
  }

  ghost predicate IsRoot(nodes: seq<PdcNode>, v: nat) {
    forall u: nat, aux :: !Leg(nodes, u, v, aux)
  }

  function Latency(node: PdcNode, monitor: bool): u64 {
    if monitor then node.monitorLatency else node.primaryLatency
  }

  // Sum of the node latencies along p.
  function RawSum(nodes: seq<PdcNode>, p: seq<nat>, monitor: bool): nat
    requires Below(p, |nodes|)
  {
    if p == [] then 0
    else RawSum(nodes, p[..|p| - 1], monitor) + Latency(nodes[p[|p| - 1]], monitor)
  }

  // The delay a list of edges puts on one leg: that of its first entry, or none.
  function DelayOf(edges: seq<EdgeDelay>, from: Id, to: Id, aux: bool): u64 {
    if edges == [] then 0
    else if edges[0].fromId == from && edges[0].toId == to && edges[0].aux == aux then edges[0].delay
    else DelayOf(edges[1..], from, to, aux)
  }

  lemma RouteBelow(nodes: seq<PdcNode>, p: seq<nat>, kinds: seq<bool>)
    requires IsRoute(nodes, p, kinds)
    ensures Below(p, |nodes|)
  {
    forall k | 0 <= k < |p| ensures p[k] < |nodes| {
      if k > 0 {
        assert Leg(nodes, p[k - 1], p[k], kinds[k - 1]);
      }
    }
  }

  // Sum of the delays added along p.
  function DelaySum(nodes: seq<PdcNode>, edges: seq<EdgeDelay>, p: seq<nat>, kinds: seq<bool>): nat
    requires IsRoute(nodes, p, kinds)
  {
    if kinds == [] then 0
    else
      var k := |kinds| - 1;
      RouteBelow(nodes, p, kinds);
      DelaySum(nodes, edges, p[..|p| - 1], kinds[..k]) +
      DelayOf(edges, nodes[p[k]].trackId, nodes[p[k + 1]].trackId, kinds[k])
  }

  lemma {:induction false} ForwardOrdered(job: Job, g: Graph, order: seq<nat>)
    requires job.Valid() && |g| == |job.nodes| && job.incoming == IncomingLists(g)
    requires Distinct(order) && Below(order, |g|) && Forward(g, order)
    ensures Ordered(job, order)
  {
    if order != [] {
      var n := |order| - 1;
      var v, seen := order[n], order[..n];
      forall j, u: nat | 0 <= j < n && Edge(g, u, seen[j]) ensures u in seen[..j] {
        assert seen[..j] == order[..j];
        assert Edge(g, u, order[j]);
      }
      ForwardOrdered(job, g, seen);
      forall k | 0 <= k < |job.incoming[v]| ensures job.incoming[v][k] in seen {
        IncomingMember(g, v, |g|, job.incoming[v][k]);
        assert Edge(g, job.incoming[v][k], order[n]);
      }
    }
  }

  lemma {:induction false} SolvedMember(job: Job, w: Walk, order: seq<nat>, v: nat)
    requires job.Valid() && w.Sized(|job.nodes|) && Below(order, |job.nodes|) && AllSolved(job, w, order) && v in order
    ensures v < |job.nodes| && Solved(job, w, v)
  {
    if v != order[|order| - 1] {
      SolvedMember(job, w, order[..|order| - 1], v);
    }
  }

  // The walk over the nodes goes through: only the path limit can still refuse the plan.
  ghost predicate Walked(nodes: seq<PdcNode>, outputs: seq<PdcOutput>, limits: Limits) {
    && UniqueIds(TopoNodes(nodes)) && KnownTargets(TopoNodes(nodes)) && KnownOutputs(nodes, outputs)
    && |KahnOrder(Succ(TopoNodes(nodes)))| == |nodes|
    && WalkOf(nodes, outputs, limits).out.error.None?
  }

  lemma WalkSolved(nodes: seq<PdcNode>, outputs: seq<PdcOutput>, limits: Limits)
    requires Walked(nodes, outputs, limits)
    ensures var job := JobOf(nodes, outputs, limits); var w := WalkOf(nodes, outputs, limits);
      var order := KahnOrder(Succ(TopoNodes(nodes)));
      && Ordered(job, order) && AllSolved(job, w, order)
      && w.out.entries == AllEntries(job, w.primary, order)
      && forall v: nat :: v < |nodes| ==> Solved(job, w, v)
  {
    var g := Succ(TopoNodes(nodes));
    var job := JobOf(nodes, outputs, limits);
    var w := WalkOf(nodes, outputs, limits);
    var order := KahnOrder(g);
    KahnSound(g);
    ForwardOrdered(job, g, order);
    WalkSolves(job, order);
    forall v: nat | v < |nodes| ensures Solved(job, w, v) {
      DistinctFull(order, |g|, v);
      SolvedMember(job, w, order, v);
    }
  }

  // A successful plan: every node's equation holds, and the edges are exactly the listed entries.
  lemma PlanSolved(nodes: seq<PdcNode>, outputs: seq<PdcOutput>, limits: Limits)
    requires PlanSpec(nodes, outputs, limits).Ok()
    ensures Walked(nodes, outputs, limits)
    ensures var job := JobOf(nodes, outputs, limits); var w := WalkOf(nodes, outputs, limits);
      var order := KahnOrder(Succ(TopoNodes(nodes)));
      && OutputsOf(job, w, outputs) == Some(PlanSpec(nodes, outputs, limits).outputs)
      && Ordered(job, order) && AllSolved(job, w, order)
      && PlanSpec(nodes, outputs, limits).edgeDelays == w.out.entries == AllEntries(job, w.primary, order)
      && forall v: nat :: v < |nodes| ==> Solved(job, w, v)
  {
    WalkSolved(nodes, outputs, limits);
  }

  lemma LegIncoming(nodes: seq<PdcNode>, outputs: seq<PdcOutput>, limits: Limits, u: nat, v: nat)
    requires UniqueIds(TopoNodes(nodes)) && KnownOutputs(nodes, outputs) && v < |nodes|
    ensures u in JobOf(nodes, outputs, limits).incoming[v] <==> Leg(nodes, u, v, false) || Leg(nodes, u, v, true)
  {
    var topo := TopoNodes(nodes);
    IncomingMember(Succ(topo), v, |nodes|, u);
    if u < |nodes| {
      SuccEdge(topo, u, v);
    }
  }

  lemma LegReach(nodes: seq<PdcNode>, outputs: seq<PdcOutput>, limits: Limits, u: nat, v: nat, aux: bool)
    requires UniqueIds(TopoNodes(nodes)) && KnownOutputs(nodes, outputs)
    requires Leg(nodes, u, v, aux) && JobOf(nodes, outputs, limits).reach[v]
    ensures JobOf(nodes, outputs, limits).reach[u]
  {
    var topo := TopoNodes(nodes);
    SuccEdge(topo, u, v);
    ReachesStep(Succ(topo), u, v, Elems(Seeds(nodes, outputs, FullPdc)));
  }

  lemma SeedReach(nodes: seq<PdcNode>, outputs: seq<PdcOutput>, limits: Limits, k: nat)
    requires UniqueIds(TopoNodes(nodes)) && KnownOutputs(nodes, outputs)
    requires k < |outputs| && outputs[k].policy == FullPdc
    ensures JobOf(nodes, outputs, limits).reach[IndexOf(TopoNodes(nodes), outputs[k].trackId)]
  {
    ReachesSelf(Succ(TopoNodes(nodes)), IndexOf(TopoNodes(nodes), outputs[k].trackId),
                Elems(Seeds(nodes, outputs, FullPdc)));
  }

  // ---------- the emitted entries ----------

  // e is the entry of the edge from -> v of its kind, at a summing point of a full-PDC path.
  ghost predicate Explains(job: Job, primary: seq<u64>, e: EdgeDelay, from: nat, v: nat)
    requires job.Valid() && |primary| == |job.nodes|
  {
    && v < |job.nodes| && from in job.incoming[v] && job.reach[v] && |job.incoming[v]| > 1
    && Leg(job.nodes, from, v, e.aux)
    && primary[from] <= Input(job, primary, v)
    && e == EdgeDelay(job.nodes[from].trackId, job.nodes[v].trackId, Input(job, primary, v) - primary[from], e.aux)
  }

  lemma {:induction false} FromEntriesMember(job: Job, primary: seq<u64>, input: u64, froms: seq<nat>, v: nat,
                                             e: EdgeDelay)
    returns (from: nat)
    requires job.Valid() && |primary| == |job.nodes| && Below(froms, |primary|) && v < |job.nodes|
    requires forall k :: 0 <= k < |froms| ==> primary[froms[k]] <= input
    requires e in FromEntries(job, primary, input, froms, v)
    ensures from in froms && Leg(job.nodes, from, v, e.aux) && primary[from] <= input
    ensures e == EdgeDelay(job.nodes[from].trackId, job.nodes[v].trackId, input - primary[from], e.aux)
  {
    var n := |froms| - 1;
    if e in FromEntries(job, primary, input, froms[..n], v) {
      from := FromEntriesMember(job, primary, input, froms[..n], v, e);
    } else {
      from := froms[n];
    }
  }

  lemma {:induction false} FromEntriesHold(job: Job, primary: seq<u64>, input: u64, froms: seq<nat>, v: nat, from: nat,
                                           aux: bool)
    requires |primary| == |job.nodes| && Below(froms, |primary|) && v < |job.nodes|
    requires forall k :: 0 <= k < |froms| ==> primary[froms[k]] <= input
    requires from in froms && Leg(job.nodes, from, v, aux)
    ensures primary[from] <= input
    ensures EdgeDelay(job.nodes[from].trackId, job.nodes[v].trackId, input - primary[from], aux)
            in FromEntries(job, primary, input, froms, v)
  {
    var n := |froms| - 1;
    if from == froms[n] {
      PairHolds(job, from, v, input - primary[from], aux);
    } else {
      FromEntriesHold(job, primary, input, froms[..n], v, from, aux);
    }
  }

  lemma PairHolds(job: Job, from: nat, v: nat, delay: u64, aux: bool)
    requires Leg(job.nodes, from, v, aux)
    ensures EdgeDelay(job.nodes[from].trackId, job.nodes[v].trackId, delay, aux) in PairEntries(job, from, v, delay)
  {
    var pair := PairEntries(job, from, v, delay);
    var e := EdgeDelay(job.nodes[from].trackId, job.nodes[v].trackId, delay, aux);
    if aux {
      assert pair[|pair| - 1] == e;
    } else {
      assert pair[0] == e;
    }
  }

  lemma {:induction false} EntryExplained(job: Job, primary: seq<u64>, order: seq<nat>, e: EdgeDelay)
    returns (from: nat, v: nat)
    requires job.Valid() && |primary| == |job.nodes| && Below(order, |job.nodes|)
    requires e in AllEntries(job, primary, order)
    ensures v in order && Explains(job, primary, e, from, v)
  {
    var n := |order| - 1;
    if e in AllEntries(job, primary, order[..n]) {
      from, v := EntryExplained(job, primary, order[..n], e);
    } else {
      v := order[n];
      from := FromEntriesMember(job, primary, Input(job, primary, v), job.incoming[v], v, e);
    }
  }

  lemma InputBound(job: Job, primary: seq<u64>, v: nat, from: nat)
    requires job.Valid() && |primary| == |job.nodes| && v < |job.nodes| && from in job.incoming[v]
    ensures from < |primary| && primary[from] <= Input(job, primary, v)
  {
  }

  // The entry of the edge from -> v.
  function EntryFor(job: Job, primary: seq<u64>, from: nat, v: nat, aux: bool): EdgeDelay
    requires job.Valid() && |primary| == |job.nodes| && v < |job.nodes| && from in job.incoming[v]
  {
    InputBound(job, primary, v, from);
    EdgeDelay(job.nodes[from].trackId, job.nodes[v].trackId, Input(job, primary, v) - primary[from], aux)
  }

  lemma NodeEntryEmitted(job: Job, primary: seq<u64>, from: nat, v: nat, aux: bool)
    requires job.Valid() && |primary| == |job.nodes| && v < |job.nodes| && from in job.incoming[v]
    requires job.reach[v] && |job.incoming[v]| > 1 && Leg(job.nodes, from, v, aux)
    ensures EntryFor(job, primary, from, v, aux) in NodeEntries(job, primary, v)
  {
    FromEntriesHold(job, primary, Input(job, primary, v), job.incoming[v], v, from, aux);
  }

  lemma {:induction false} EntryEmitted(job: Job, primary: seq<u64>, order: seq<nat>, v: nat, e: EdgeDelay)
    requires job.Valid() && |primary| == |job.nodes| && Below(order, |job.nodes|)
    requires v in order && v < |job.nodes| && e in NodeEntries(job, primary, v)
    ensures e in AllEntries(job, primary, order)
  {
    var last, seen := order[|order| - 1], order[..|order| - 1];
    assert order == seen + [last];
    var before := AllEntries(job, primary, seen);
    assert AllEntries(job, primary, order) == before + NodeEntries(job, primary, last);
    if v != last {
      assert v in seen;
      EntryEmitted(job, primary, seen, v, e);
      assert e in before;
    }
  }

  predicate Matches(e: EdgeDelay, from: Id, to: Id, aux: bool) {
    e.fromId == from && e.toId == to && e.aux == aux
  }

  lemma {:induction false} DelayOfMatch(edges: seq<EdgeDelay>, from: Id, to: Id, aux: bool, d: u64)
    requires forall e :: e in edges && Matches(e, from, to, aux) ==> e.delay == d
    requires d == 0 || exists e :: e in edges && Matches(e, from, to, aux)
    ensures DelayOf(edges, from, to, aux) == d
  {
    if edges != [] && !Matches(edges[0], from, to, aux) {
      assert forall e :: e in edges[1..] ==> e in edges;
      assert forall e :: e in edges && Matches(e, from, to, aux) ==> e in edges[1..];
      DelayOfMatch(edges[1..], from, to, aux, d);
    }
  }

  // An entry between two tracks is that of their edge, since ids are unique.
  lemma MatchExplained(job: Job, primary: seq<u64>, order: seq<nat>, u: nat, v: nat, e: EdgeDelay)
    requires job.Valid() && |primary| == |job.nodes| && Below(order, |job.nodes|)
    requires UniqueIds(TopoNodes(job.nodes)) && u < |job.nodes| && v < |job.nodes|
    requires e in AllEntries(job, primary, order)
    requires e.fromId == job.nodes[u].trackId && e.toId == job.nodes[v].trackId
    ensures primary[u] <= Input(job, primary, v) && e.delay == Input(job, primary, v) - primary[u]
    ensures |job.incoming[v]| > 1 && job.reach[v]
  {
    var x, y := EntryExplained(job, primary, order, e);
    assert TopoNodes(job.nodes)[x].trackId == TopoNodes(job.nodes)[u].trackId;
    assert TopoNodes(job.nodes)[y].trackId == TopoNodes(job.nodes)[v].trackId;
  }

  lemma {:induction false} NodeDelay(job: Job, primary: seq<u64>, order: seq<nat>, u: nat, v: nat, aux: bool)
    requires job.Valid() && |primary| == |job.nodes| && Below(order, |job.nodes|)
    requires UniqueIds(TopoNodes(job.nodes))
    requires v in order && job.reach[v] && u in job.incoming[v] && Leg(job.nodes, u, v, aux)
    ensures u < |primary| && primary[u] <= Input(job, primary, v)
    ensures DelayOf(AllEntries(job, primary, order), job.nodes[u].trackId, job.nodes[v].trackId, aux)
            == Input(job, primary, v) - primary[u]
  {
    InputBound(job, primary, v, u);
    var froms := job.incoming[v];
    var d := Input(job, primary, v) - primary[u];
    var edges := AllEntries(job, primary, order);
    var from, to := job.nodes[u].trackId, job.nodes[v].trackId;
    forall e | e in edges && Matches(e, from, to, aux)
      ensures e.delay == d && |froms| > 1
    {
      MatchExplained(job, primary, order, u, v, e);
    }
    if |froms| > 1 {
      NodeEntryEmitted(job, primary, u, v, aux);
      EntryEmitted(job, primary, order, v, EntryFor(job, primary, u, v, aux));
      assert Matches(EntryFor(job, primary, u, v, aux), from, to, aux);
    } else {
      SingleInput(primary, froms, u);
    }
    DelayOfMatch(edges, from, to, aux, d);
  }

  // Where no full-PDC output is reached nothing is delayed.
  lemma NoDelay(job: Job, primary: seq<u64>, order: seq<nat>, u: nat, v: nat, aux: bool)
    requires job.Valid() && |primary| == |job.nodes| && Below(order, |job.nodes|)
    requires UniqueIds(TopoNodes(job.nodes)) && u < |job.nodes| && v < |job.nodes| && !job.reach[v]
    ensures DelayOf(AllEntries(job, primary, order), job.nodes[u].trackId, job.nodes[v].trackId, aux) == 0
  {
    var edges := AllEntries(job, primary, order);
    forall e | e in edges ensures !Matches(e, job.nodes[u].trackId, job.nodes[v].trackId, aux) {
      if Matches(e, job.nodes[u].trackId, job.nodes[v].trackId, aux) {
        MatchExplained(job, primary, order, u, v, e);
        assert false;
      }
    }
    DelayOfMatch(edges, job.nodes[u].trackId, job.nodes[v].trackId, aux, 0);
  }

  lemma SingleInput(primary: seq<u64>, froms: seq<nat>, u: nat)
    requires Below(froms, |primary|) && u in froms && |froms| <= 1
    ensures MaxOver(primary, froms) == primary[u]
  {
    assert froms[..0] == [];
  }

  // What the path arguments need of a successful plan: incoming lists are the legs, reachability
  // runs back along legs, node equations hold, and leg delays lift each source to the slowest input.
  // The incoming lists are the legs, and reaching a full-PDC output is inherited along them.
  ghost predicate Legged(job: Job) {
    && job.Valid()
    && (forall v: nat, u :: v < |job.nodes| && u in job.incoming[v] ==>
      Leg(job.nodes, u, v, false) || Leg(job.nodes, u, v, true))
    && (forall v: nat :: v < |job.nodes| ==> (IsRoot(job.nodes, v) <==> job.incoming[v] == []))
    && (forall u: nat, v: nat, aux :: Leg(job.nodes, u, v, aux) ==>
      u in job.incoming[v] && (job.reach[v] ==> job.reach[u]))
  }

  ghost predicate Timing(job: Job, w: Walk, edges: seq<EdgeDelay>) {
    && Legged(job) && w.Sized(|job.nodes|)
    && (forall v: nat :: v < |job.nodes| ==> Solved(job, w, v))
    && (forall u: nat, v: nat, aux :: Leg(job.nodes, u, v, aux) && job.reach[v] ==>
      DelayOf(edges, job.nodes[u].trackId, job.nodes[v].trackId, aux) == Input(job, w.primary, v) - w.primary[u])
    && (forall u: nat, v: nat, aux :: Leg(job.nodes, u, v, aux) && !job.reach[v] ==>
      DelayOf(edges, job.nodes[u].trackId, job.nodes[v].trackId, aux) == 0)
  }

  lemma JobLegged(nodes: seq<PdcNode>, outputs: seq<PdcOutput>, limits: Limits)
    requires UniqueIds(TopoNodes(nodes)) && KnownOutputs(nodes, outputs)
    ensures Legged(JobOf(nodes, outputs, limits))
  {
    var job := JobOf(nodes, outputs, limits);
    forall u: nat, v: nat | v < |nodes|
      ensures u in job.incoming[v] <==> Leg(nodes, u, v, false) || Leg(nodes, u, v, true)
    {
      LegIncoming(nodes, outputs, limits, u, v);
    }
    forall v: nat | v < |nodes|
      ensures IsRoot(nodes, v) <==> job.incoming[v] == []
    {
      if job.incoming[v] != [] {
        var u := job.incoming[v][0];
        assert u in job.incoming[v];
        assert Leg(nodes, u, v, false) || Leg(nodes, u, v, true);
      }
    }
    forall u: nat, v: nat, aux | Leg(nodes, u, v, aux) && job.reach[v] ensures job.reach[u] {
      LegReach(nodes, outputs, limits, u, v, aux);
    }
  }

  lemma WalkTiming(nodes: seq<PdcNode>, outputs: seq<PdcOutput>, limits: Limits) returns (job: Job, w: Walk)
    requires Walked(nodes, outputs, limits)
    ensures job == JobOf(nodes, outputs, limits) && w == WalkOf(nodes, outputs, limits)
    ensures Timing(job, w, w.out.entries)
  {
    WalkSolved(nodes, outputs, limits);
    JobLegged(nodes, outputs, limits);
    job, w := JobOf(nodes, outputs, limits), WalkOf(nodes, outputs, limits);
    var order := KahnOrder(Succ(TopoNodes(nodes)));
    forall u: nat, v: nat, aux | Leg(nodes, u, v, aux) && job.reach[v]
      ensures DelayOf(w.out.entries, nodes[u].trackId, nodes[v].trackId, aux) == Input(job, w.primary, v) - w.primary[u]
    {
      KahnSound(Succ(TopoNodes(nodes)));
      DistinctFull(order, |nodes|, v);
      NodeDelay(job, w.primary, order, u, v, aux);
    }
    KahnSound(Succ(TopoNodes(nodes)));
    forall u: nat, v: nat, aux | Leg(nodes, u, v, aux) && !job.reach[v]
      ensures DelayOf(w.out.entries, nodes[u].trackId, nodes[v].trackId, aux) == 0
    {
      NoDelay(job, w.primary, order, u, v, aux);
    }
  }

  lemma PlanEdges(nodes: seq<PdcNode>, outputs: seq<PdcOutput>, limits: Limits)
    requires PlanSpec(nodes, outputs, limits).Ok()
    ensures Walked(nodes, outputs, limits)
    ensures PlanSpec(nodes, outputs, limits).edgeDelays == WalkOf(nodes, outputs, limits).out.entries
  {
  }

  lemma PlanTiming(nodes: seq<PdcNode>, outputs: seq<PdcOutput>, limits: Limits) returns (job: Job, w: Walk)
    requires PlanSpec(nodes, outputs, limits).Ok()
    ensures KnownOutputs(nodes, outputs)
    ensures job == JobOf(nodes, outputs, limits) && w == WalkOf(nodes, outputs, limits)
    ensures Timing(job, w, PlanSpec(nodes, outputs, limits).edgeDelays)
  {
    PlanEdges(nodes, outputs, limits);
    job, w := WalkTiming(nodes, outputs, limits);
  }

  // ---------- main results ----------

  lemma OutputNode(nodes: seq<PdcNode>, outputs: seq<PdcOutput>, limits: Limits, k: nat, v: nat)
    requires PlanSpec(nodes, outputs, limits).Ok() && k < |outputs|
    requires v < |nodes| && nodes[v].trackId == outputs[k].trackId
    ensures |PlanSpec(nodes, outputs, limits).outputs| == |outputs|
    ensures KnownOutputs(nodes, outputs)
    ensures PlanSpec(nodes, outputs, limits).outputs[k] == OutputOf(WalkOf(nodes, outputs, limits), outputs[k], v)
    ensures outputs[k].policy == FullPdc ==> JobOf(nodes, outputs, limits).reach[v]
    ensures PlanSpec(nodes, outputs, limits).outputs[k].total <= limits.maxPathSamples
  {
    PlanSolved(nodes, outputs, limits);
    assert IsIndex(TopoNodes(nodes), outputs[k].trackId, v);
    assert v == IndexOf(TopoNodes(nodes), outputs[k].trackId);
    if outputs[k].policy == FullPdc {
      SeedReach(nodes, outputs, limits, k);
    }
  }

  lemma {:induction false} RouteAligned(job: Job, w: Walk, edges: seq<EdgeDelay>, p: seq<nat>, kinds: seq<bool>)
    requires Timing(job, w, edges)
    requires IsRoute(job.nodes, p, kinds) && IsRoot(job.nodes, p[0])
    requires p[|p| - 1] < |job.nodes| && job.reach[p[|p| - 1]]
    ensures Below(p, |job.nodes|)
    ensures RawSum(job.nodes, p, false) + DelaySum(job.nodes, edges, p, kinds) == w.primary[p[|p| - 1]]
  {
    RouteBelow(job.nodes, p, kinds);
    var n := |p| - 1;
    if n == 0 {
      assert Solved(job, w, p[n]);
      assert p[..0] == [];
    } else {
      assert Leg(job.nodes, p[n - 1], p[n], kinds[n - 1]);
      RouteAligned(job, w, edges, p[..n], kinds[..n - 1]);
      LegAligned(job, w, edges, p[n - 1], p[n], kinds[n - 1]);
    }
  }

  // Arriving, delay and own latency make up the path latency of the next node.
  lemma LegAligned(job: Job, w: Walk, edges: seq<EdgeDelay>, u: nat, v: nat, aux: bool)
    requires Timing(job, w, edges) && Leg(job.nodes, u, v, aux) && job.reach[v]
    ensures w.primary[u] + DelayOf(edges, job.nodes[u].trackId, job.nodes[v].trackId, aux) + job.nodes[v].primaryLatency
            == w.primary[v]
  {
    assert Solved(job, w, v);
  }

  // Every path to a full-PDC output takes the same time, which is the reported total.
  lemma Alignment(nodes: seq<PdcNode>, outputs: seq<PdcOutput>, limits: Limits, k: nat, p: seq<nat>, kinds: seq<bool>)
    requires PlanSpec(nodes, outputs, limits).Ok()
    requires k < |outputs| && outputs[k].policy == FullPdc
    requires IsRoute(nodes, p, kinds) && IsRoot(nodes, p[0])
    requires p[|p| - 1] < |nodes| && nodes[p[|p| - 1]].trackId == outputs[k].trackId
    ensures Below(p, |nodes|)
    ensures |PlanSpec(nodes, outputs, limits).outputs| == |outputs|
    ensures RawSum(nodes, p, false) + DelaySum(nodes, PlanSpec(nodes, outputs, limits).edgeDelays, p, kinds)
            == PlanSpec(nodes, outputs, limits).outputs[k].total
  {
    OutputNode(nodes, outputs, limits, k, p[|p| - 1]);
    var job, w := PlanTiming(nodes, outputs, limits);
    RouteAligned(job, w, PlanSpec(nodes, outputs, limits).edgeDelays, p, kinds);
  }

  // ---------- longest and shortest routes ----------

  // A route to v from a node no edge enters.
  ghost predicate RootRoute(nodes: seq<PdcNode>, p: seq<nat>, kinds: seq<bool>, v: nat)
    ensures RootRoute(nodes, p, kinds, v) ==> Below(p, |nodes|)
  {
    && IsRoute(nodes, p, kinds) && IsRoot(nodes, p[0]) && p[|p| - 1] == v
    && (RouteBelow(nodes, p, kinds); true)
  }

  function PathLatency(w: Walk, monitor: bool): seq<u64> {
    if monitor then w.monitor else w.primary
  }

  lemma {:induction false} MaxOverAttained(vals: seq<u64>, froms: seq<nat>) returns (u: nat)
    requires Below(froms, |vals|) && froms != []
    ensures u in froms && vals[u] == MaxOver(vals, froms)
  {
    var n := |froms| - 1;
    u := froms[n];
    if n > 0 && MaxOver(vals, froms[..n]) > vals[u] {
      u := MaxOverAttained(vals, froms[..n]);
    } else {
      assert n == 0 ==> froms[..n] == [];
    }
  }

  lemma LegAtMost(job: Job, w: Walk, edges: seq<EdgeDelay>, u: nat, v: nat, aux: bool, monitor: bool)
    requires Timing(job, w, edges) && u < |job.nodes| && v < |job.nodes| && Leg(job.nodes, u, v, aux)
    ensures PathLatency(w, monitor)[u] + Latency(job.nodes[v], monitor) <= PathLatency(w, monitor)[v]
  {
    assert Solved(job, w, v);
    InputBound(job, PathLatency(w, monitor), v, u);
  }

  lemma {:induction false} RouteAtMost(job: Job, w: Walk, edges: seq<EdgeDelay>, p: seq<nat>, kinds: seq<bool>,
                                       monitor: bool)
    requires Timing(job, w, edges) && IsRoute(job.nodes, p, kinds)
    ensures Below(p, |job.nodes|) && RawSum(job.nodes, p, monitor) <= PathLatency(w, monitor)[p[|p| - 1]]
  {
    RouteBelow(job.nodes, p, kinds);
    var n := |p| - 1;
    assert Solved(job, w, p[n]);
    if n == 0 {
      assert p[..0] == [];
    } else {
      LegAtMost(job, w, edges, p[n - 1], p[n], kinds[n - 1], monitor);
      RouteAtMost(job, w, edges, p[..n], kinds[..n - 1], monitor);
    }
  }

  lemma RoutesAtMost(job: Job, w: Walk, edges: seq<EdgeDelay>, v: nat, monitor: bool)
    requires Timing(job, w, edges) && v < |job.nodes|
    ensures forall q, kinds :: RootRoute(job.nodes, q, kinds, v) ==>
      RawSum(job.nodes, q, monitor) <= PathLatency(w, monitor)[v]
  {
    forall q, kinds | RootRoute(job.nodes, q, kinds, v)
      ensures RawSum(job.nodes, q, monitor) <= PathLatency(w, monitor)[v]
    {
      RouteAtMost(job, w, edges, q, kinds, monitor);
    }
  }

  lemma ExtendRoute(nodes: seq<PdcNode>, edges: seq<EdgeDelay>, p: seq<nat>, kinds: seq<bool>, v: nat, aux: bool,
                    monitor: bool)
    requires IsRoute(nodes, p, kinds) && Leg(nodes, p[|p| - 1], v, aux)
    ensures Below(p, |nodes|) && Below(p + [v], |nodes|)
    ensures IsRoute(nodes, p + [v], kinds + [aux])
    ensures RawSum(nodes, p + [v], monitor) == RawSum(nodes, p, monitor) + Latency(nodes[v], monitor)
    ensures DelaySum(nodes, edges, p + [v], kinds + [aux])
            == DelaySum(nodes, edges, p, kinds) + DelayOf(edges, nodes[p[|p| - 1]].trackId, nodes[v].trackId, aux)
  {
    var q, kinds' := p + [v], kinds + [aux];
    RouteBelow(nodes, p, kinds);
    assert q[..|p|] == p && kinds'[..|kinds|] == kinds;
    assert IsRoute(nodes, q, kinds');
    RouteBelow(nodes, q, kinds');
  }

  lemma StartRoute(job: Job, v: nat)
    requires Legged(job) && v < |job.nodes| && job.incoming[v] == []
    ensures RootRoute(job.nodes, [v], [], v)
    ensures forall monitor :: RawSum(job.nodes, [v], monitor) == Latency(job.nodes[v], monitor)
  {
    assert [v][..0] == [];
  }

  // Some route attains the path latency.
  lemma {:induction false} LongestRoute(job: Job, w: Walk, order: seq<nat>, v: nat, monitor: bool)
    returns (p: seq<nat>, kinds: seq<bool>)
    requires Legged(job) && w.Sized(|job.nodes|) && Ordered(job, order) && AllSolved(job, w, order) && v in order
    ensures v < |job.nodes| && RootRoute(job.nodes, p, kinds, v)
    ensures RawSum(job.nodes, p, monitor) == PathLatency(w, monitor)[v]
    decreases 2 * |order|
  {
    var seen := order[..|order| - 1];
    if v != order[|order| - 1] {
      p, kinds := LongestRoute(job, w, seen, v, monitor);
    } else {
      p, kinds := ArrivingRoute(job, w, seen, v, monitor);
    }
  }

  // Some route attains the latency of a node whose sources are all solved.
  lemma {:induction false} ArrivingRoute(job: Job, w: Walk, seen: seq<nat>, v: nat, monitor: bool)
    returns (p: seq<nat>, kinds: seq<bool>)
    requires Legged(job) && w.Sized(|job.nodes|) && Ordered(job, seen) && AllSolved(job, w, seen)
    requires v < |job.nodes| && SourcesIn(job, v, seen)
    ensures RootRoute(job.nodes, p, kinds, v)
    ensures RawSum(job.nodes, p, monitor) == Input(job, PathLatency(w, monitor), v) + Latency(job.nodes[v], monitor)
    decreases 2 * |seen| + 1
  {
    if job.incoming[v] == [] {
      p, kinds := [v], [];
      StartRoute(job, v);
    } else {
      var u := MaxOverAttained(PathLatency(w, monitor), job.incoming[v]);
      p, kinds := LongestRoute(job, w, seen, u, monitor);
      var aux := !Leg(job.nodes, u, v, false);
      ExtendRoute(job.nodes, [], p, kinds, v, aux, monitor);
      p, kinds := p + [v], kinds + [aux];
    }
  }

  // What arriving over one edge adds to the compensation.
  function Lift(reaches: bool, primary: seq<u64>, input: u64, u: nat): nat
    requires u < |primary| && primary[u] <= input
  {
    if reaches then input - primary[u] else 0
  }

  lemma {:induction false} CompensationBest(reaches: bool, primary: seq<u64>, comp: seq<u64>, input: u64,
                                            froms: seq<nat>)
    requires |comp| == |primary| && Below(froms, |primary|)
    requires forall k :: 0 <= k < |froms| ==> primary[froms[k]] <= input
    requires CompensationOver(reaches, primary, comp, input, froms).Some?
    ensures var c := CompensationOver(reaches, primary, comp, input, froms).value;
      && (forall k :: 0 <= k < |froms| ==> comp[froms[k]] + Lift(reaches, primary, input, froms[k]) <= c)
      && (froms == [] ==> c == 0)
      && (froms != [] ==>
          exists k :: 0 <= k < |froms| && comp[froms[k]] + Lift(reaches, primary, input, froms[k]) == c)
  {
    if froms != [] {
      var n := |froms| - 1;
      CompensationBest(reaches, primary, comp, input, froms[..n]);
      var c := CompensationOver(reaches, primary, comp, input, froms).value;
      if c != comp[froms[n]] + Lift(reaches, primary, input, froms[n]) {
        var k :| 0 <= k < n && comp[froms[..n][k]] + Lift(reaches, primary, input, froms[..n][k]) == c;
        assert froms[k] == froms[..n][k];
      }
    }
  }

  lemma LegLifts(job: Job, w: Walk, edges: seq<EdgeDelay>, u: nat, v: nat, aux: bool)
    requires Timing(job, w, edges) && Leg(job.nodes, u, v, aux)
    ensures w.primary[u] <= Input(job, w.primary, v)
    ensures DelayOf(edges, job.nodes[u].trackId, job.nodes[v].trackId, aux)
            == Lift(job.reach[v], w.primary, Input(job, w.primary, v), u)
  {
    assert u in job.incoming[v];
    InputBound(job, w.primary, v, u);
  }

  // No route is delayed by more than the compensation of its end.
  lemma {:induction false} CompensationAtLeast(job: Job, w: Walk, edges: seq<EdgeDelay>, p: seq<nat>, kinds: seq<bool>)
    requires Timing(job, w, edges)
    requires IsRoute(job.nodes, p, kinds) && p[|p| - 1] < |job.nodes|
    ensures DelaySum(job.nodes, edges, p, kinds) <= w.compensation[p[|p| - 1]]
  {
    var n := |p| - 1;
    if n > 0 {
      assert Leg(job.nodes, p[n - 1], p[n], kinds[n - 1]);
      DelaySumNext(job.nodes, edges, p, kinds);
      CompensationLeg(job, w, edges, p[n - 1], p[n], kinds[n - 1]);
      CompensationAtLeast(job, w, edges, p[..n], kinds[..n - 1]);
    }
  }

  lemma DelaySumNext(nodes: seq<PdcNode>, edges: seq<EdgeDelay>, p: seq<nat>, kinds: seq<bool>)
    requires IsRoute(nodes, p, kinds) && kinds != []
    ensures var n := |kinds|;
      && Below(p, |nodes|) && IsRoute(nodes, p[..n], kinds[..n - 1])
      && DelaySum(nodes, edges, p, kinds) ==
         DelaySum(nodes, edges, p[..n], kinds[..n - 1])
         + DelayOf(edges, nodes[p[n - 1]].trackId, nodes[p[n]].trackId, kinds[n - 1])
  {
    RouteBelow(nodes, p, kinds);
  }

  lemma CompensationLeg(job: Job, w: Walk, edges: seq<EdgeDelay>, u: nat, v: nat, aux: bool)
    requires Timing(job, w, edges) && Leg(job.nodes, u, v, aux)
    ensures w.compensation[u] + DelayOf(edges, job.nodes[u].trackId, job.nodes[v].trackId, aux) <= w.compensation[v]
  {
    assert Solved(job, w, v);
    LegLifts(job, w, edges, u, v, aux);
    CompensationBest(job.reach[v], w.primary, w.compensation, Input(job, w.primary, v), job.incoming[v]);
    assert u in job.incoming[v];
  }

  // Some route is delayed by the whole compensation.
  lemma {:induction false} MostDelayed(job: Job, w: Walk, edges: seq<EdgeDelay>, order: seq<nat>, v: nat)
    returns (p: seq<nat>, kinds: seq<bool>)
    requires Timing(job, w, edges) && Ordered(job, order) && v in order && v < |job.nodes|
    ensures RootRoute(job.nodes, p, kinds, v)
    ensures DelaySum(job.nodes, edges, p, kinds) == w.compensation[v]
    decreases |order|
  {
    var seen := order[..|order| - 1];
    if v != order[|order| - 1] {
      p, kinds := MostDelayed(job, w, edges, seen, v);
    } else {
      assert Solved(job, w, v);
      var input := Input(job, w.primary, v);
      CompensationBest(job.reach[v], w.primary, w.compensation, input, job.incoming[v]);
      if job.incoming[v] == [] {
        p, kinds := [v], [];
        StartRoute(job, v);
      } else {
        var k :| 0 <= k < |job.incoming[v]| &&
          w.compensation[job.incoming[v][k]] + Lift(job.reach[v], w.primary, input, job.incoming[v][k])
          == w.compensation[v];
        var u := job.incoming[v][k];
        var aux := !Leg(job.nodes, u, v, false);
        assert u in job.incoming[v] && Leg(job.nodes, u, v, aux);
        LegLifts(job, w, edges, u, v, aux);
        p, kinds := MostDelayed(job, w, edges, seen, u);
        ExtendRoute(job.nodes, edges, p, kinds, v, aux, false);
        p, kinds := p + [v], kinds + [aux];
      }
    }
  }

  lemma OutputContext(nodes: seq<PdcNode>, outputs: seq<PdcOutput>, limits: Limits, k: nat, v: nat)
    returns (job: Job, w: Walk, order: seq<nat>)
    requires PlanSpec(nodes, outputs, limits).Ok()
    requires k < |outputs| && v < |nodes| && nodes[v].trackId == outputs[k].trackId
    ensures Timing(job, w, PlanSpec(nodes, outputs, limits).edgeDelays) && job.nodes == nodes
    ensures Ordered(job, order) && AllSolved(job, w, order) && v in order
    ensures |PlanSpec(nodes, outputs, limits).outputs| == |outputs|
    ensures PlanSpec(nodes, outputs, limits).outputs[k] == OutputOf(w, outputs[k], v)
    ensures outputs[k].policy == FullPdc ==> job.reach[v]
  {
    OutputNode(nodes, outputs, limits, k, v);
    PlanSolved(nodes, outputs, limits);
    job, w := PlanTiming(nodes, outputs, limits);
    order := KahnOrder(Succ(TopoNodes(nodes)));
    KahnSound(Succ(TopoNodes(nodes)));
    DistinctFull(order, |nodes|, v);
  }

  // The reported total of an output is the longest raw latency over all routes to it: over primary
  // latencies for a full-PDC output, over monitor latencies for a low-latency one.
  lemma TotalIsLongest(nodes: seq<PdcNode>, outputs: seq<PdcOutput>, limits: Limits, k: nat, v: nat)
    returns (p: seq<nat>, kinds: seq<bool>)
    requires PlanSpec(nodes, outputs, limits).Ok()
    requires k < |outputs| && v < |nodes| && nodes[v].trackId == outputs[k].trackId
    ensures |PlanSpec(nodes, outputs, limits).outputs| == |outputs|
    ensures RootRoute(nodes, p, kinds, v)
    ensures RawSum(nodes, p, outputs[k].policy == LowLatency) == PlanSpec(nodes, outputs, limits).outputs[k].total
    ensures forall q, kinds' :: RootRoute(nodes, q, kinds', v) ==>
      RawSum(nodes, q, outputs[k].policy == LowLatency) <= PlanSpec(nodes, outputs, limits).outputs[k].total
    ensures outputs[k].policy == FullPdc ==>
      DelaySum(nodes, PlanSpec(nodes, outputs, limits).edgeDelays, p, kinds) == 0
  {
    var job, w, order := OutputContext(nodes, outputs, limits, k, v);
    var edges := PlanSpec(nodes, outputs, limits).edgeDelays;
    var monitor := outputs[k].policy == LowLatency;
    p, kinds := LongestRoute(job, w, order, v, monitor);
    RoutesAtMost(job, w, edges, v, monitor);
    if !monitor {
      RouteAligned(job, w, edges, p, kinds);
    }
  }

  // A route to an output that takes longer than the limit allows.
  ghost predicate TooLong(nodes: seq<PdcNode>, outputs: seq<PdcOutput>, limits: Limits, k: nat, p: seq<nat>,
                          kinds: seq<bool>) {
    && k < |outputs| && p != [] && RootRoute(nodes, p, kinds, p[|p| - 1])
    && nodes[p[|p| - 1]].trackId == outputs[k].trackId
    && RawSum(nodes, p, outputs[k].policy == LowLatency) > limits.maxPathSamples
  }

  lemma {:induction false} OutputsRefused(job: Job, w: Walk, outputs: seq<PdcOutput>) returns (k: nat)
    requires w.Sized(|job.nodes|) && KnownOutputs(job.nodes, outputs) && OutputsOf(job, w, outputs).None?
    ensures k < |outputs|
    ensures OutputOf(w, outputs[k], IndexOf(TopoNodes(job.nodes), outputs[k].trackId)).total > job.limits.maxPathSamples
  {
    k := |outputs| - 1;
    if OutputsOf(job, w, outputs[..k]).None? {
      k := OutputsRefused(job, w, outputs[..k]);
    }
  }

  // A plan whose walk goes through is refused exactly when some route to an output is too long.
  lemma PathLimitExactly(nodes: seq<PdcNode>, outputs: seq<PdcOutput>, limits: Limits)
    requires Walked(nodes, outputs, limits)
    ensures PlanSpec(nodes, outputs, limits).error ==
      if exists k, p, kinds :: TooLong(nodes, outputs, limits, k, p, kinds) then Some(PathLimitExceeded) else None
  {
    if PlanSpec(nodes, outputs, limits).Ok() {
      forall k, p, kinds ensures !TooLong(nodes, outputs, limits, k, p, kinds) {
        if TooLong(nodes, outputs, limits, k, p, kinds) {
          var q, kinds' := TotalIsLongest(nodes, outputs, limits, k, p[|p| - 1]);
          OutputNode(nodes, outputs, limits, k, p[|p| - 1]);
        }
      }
    } else {
      var job, w := WalkTiming(nodes, outputs, limits);
      WalkSolved(nodes, outputs, limits);
      var k := OutputsRefused(job, w, outputs);
      var v := IndexOf(TopoNodes(nodes), outputs[k].trackId);
      var order := KahnOrder(Succ(TopoNodes(nodes)));
      KahnSound(Succ(TopoNodes(nodes)));
      DistinctFull(order, |nodes|, v);
      var p, kinds := LongestRoute(job, w, order, v, outputs[k].policy == LowLatency);
      assert TooLong(nodes, outputs, limits, k, p, kinds);
    }
  }

  // The reported compensation of any output is the largest delay the emitted edges add on a route to it:
  // some route is delayed by it and none by more. The report names its output and its kind.
  lemma CompensationIsMostDelay(nodes: seq<PdcNode>, outputs: seq<PdcOutput>, limits: Limits, k: nat, v: nat)
    returns (p: seq<nat>, kinds: seq<bool>)
    requires PlanSpec(nodes, outputs, limits).Ok()
    requires k < |outputs| && v < |nodes| && nodes[v].trackId == outputs[k].trackId
    ensures |PlanSpec(nodes, outputs, limits).outputs| == |outputs|
    ensures var o, edges := PlanSpec(nodes, outputs, limits).outputs[k], PlanSpec(nodes, outputs, limits).edgeDelays;
      && o.trackId == outputs[k].trackId && (o.synchronized <==> outputs[k].policy == FullPdc)
      && RootRoute(nodes, p, kinds, v) && DelaySum(nodes, edges, p, kinds) == o.compensation
      && forall q, kinds' :: RootRoute(nodes, q, kinds', v) ==> DelaySum(nodes, edges, q, kinds') <= o.compensation
  {
    var job, w, order := OutputContext(nodes, outputs, limits, k, v);
    var edges := PlanSpec(nodes, outputs, limits).edgeDelays;
    p, kinds := MostDelayed(job, w, edges, order, v);
    forall q, kinds' | RootRoute(nodes, q, kinds', v)
      ensures DelaySum(nodes, edges, q, kinds') <= w.compensation[v]
    {
      CompensationAtLeast(job, w, edges, q, kinds');
    }
  }

  // The reported compensation of a full-PDC output is its longest raw latency minus its shortest.
  lemma CompensationClosedForm(nodes: seq<PdcNode>, outputs: seq<PdcOutput>, limits: Limits, k: nat, v: nat)
    returns (p: seq<nat>, kinds: seq<bool>)
    requires PlanSpec(nodes, outputs, limits).Ok()
    requires k < |outputs| && outputs[k].policy == FullPdc && v < |nodes| && nodes[v].trackId == outputs[k].trackId
    ensures |PlanSpec(nodes, outputs, limits).outputs| == |outputs|
    ensures RootRoute(nodes, p, kinds, v)
    ensures forall q, kinds' :: RootRoute(nodes, q, kinds', v) ==> RawSum(nodes, p, false) <= RawSum(nodes, q, false)
    ensures var o := PlanSpec(nodes, outputs, limits).outputs[k];
      o.compensation == o.total - RawSum(nodes, p, false)
  {
    var job, w, order := OutputContext(nodes, outputs, limits, k, v);
    var edges := PlanSpec(nodes, outputs, limits).edgeDelays;
    p, kinds := MostDelayed(job, w, edges, order, v);
    RouteAligned(job, w, edges, p, kinds);
    forall q, kinds' | RootRoute(nodes, q, kinds', v)
      ensures RawSum(nodes, p, false) <= RawSum(nodes, q, false)
    {
      RouteAligned(job, w, edges, q, kinds');
      CompensationAtLeast(job, w, edges, q, kinds');
    }
  }

  // ---------- delay bound ----------

  lemma {:induction false} PathMonotone(job: Job, w: Walk, edges: seq<EdgeDelay>, g: Graph, p: seq<nat>)
    requires Timing(job, w, edges) && IsPath(g, p) && |g| == |job.nodes| && IsGraph(g)
    requires job.incoming == IncomingLists(g)
    ensures p[|p| - 1] < |job.nodes| && w.primary[p[0]] <= w.primary[p[|p| - 1]]
  {
    var n := |p| - 1;
    if n > 0 {
      PathMonotone(job, w, edges, g, p[..n]);
      assert Edge(g, p[n - 1], p[n]);
      assert p[n] in g[p[n - 1]];
      IncomingMember(g, p[n], |g|, p[n - 1]);
      InputBound(job, w.primary, p[n], p[n - 1]);
      assert Solved(job, w, p[n]);
    }
  }

  // Every emitted delay is within the path limit the delay lines are prepared for.
  lemma DelayBound(nodes: seq<PdcNode>, outputs: seq<PdcOutput>, limits: Limits, e: EdgeDelay)
    requires PlanSpec(nodes, outputs, limits).Ok()
    requires e in PlanSpec(nodes, outputs, limits).edgeDelays
    ensures e.delay <= limits.maxPathSamples
  {
    PlanSolved(nodes, outputs, limits);
    var job, w := PlanTiming(nodes, outputs, limits);
    var edges := PlanSpec(nodes, outputs, limits).edgeDelays;
    var g := Succ(TopoNodes(nodes));
    KahnSound(g);
    var from, v := EntryExplained(job, w.primary, KahnOrder(g), e);
    assert Solved(job, w, v);
    var seeds := Seeds(nodes, outputs, FullPdc);
    assert Reaches(g, v, Elems(seeds));
    var p: seq<nat> :| IsPath(g, p) && p[0] == v && p[|p| - 1] in Elems(seeds);
    PathMonotone(job, w, edges, g, p);
    var s := p[|p| - 1];
    assert IsSeed(nodes, outputs, FullPdc, s);
    var k :| 0 <= k < |outputs| && outputs[k].policy == FullPdc && IsIndex(TopoNodes(nodes), outputs[k].trackId, s);
    OutputNode(nodes, outputs, limits, k, s);
  }
}
