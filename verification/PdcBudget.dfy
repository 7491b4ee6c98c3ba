/**
 Memory accounting of a plan: bytes per emitted entry, entries per edge, and when the 64-bit byte
 count wraps.
 */
module PdcBudget {
  import opened Words
  import opened Wrappers
  import opened GraphTopo
  import opened PdcPlanner
  import opened PdcTheorems

  // One guard covers the two emissions of a pair, so the count is safe up to half the size range.
  const HALF_RANGE: u64 := 0x7FFF_FFFF_FFFF_FFFF

  // The bytes are those of the entries, within the limit.
  ghost predicate Accounted(limits: Limits, e: Emission) {
    e.error.None? ==>
      || (e.entries == [] && e.bytes == 0)
      || (EdgeSize(limits).Some? && e.bytes == |e.entries| * EdgeSize(limits).value && e.bytes <= limits.maxBufferBytes)
  }

  lemma EmitOneAccounted(limits: Limits, acc: Emission, e: EdgeDelay)
    requires limits.maxBufferBytes <= HALF_RANGE
    requires acc.error.None? && Accounted(limits, acc) && EdgeSize(limits).Some?
    requires acc.entries == [] || EdgeSize(limits).value <= acc.bytes || EdgeSize(limits).value <= MAX_U64 - acc.bytes
    ensures Accounted(limits, EmitOne(limits, acc, e, EdgeSize(limits).value))
    ensures EmitOne(limits, acc, e, EdgeSize(limits).value).error.None? ==>
              EdgeSize(limits).value <= EmitOne(limits, acc, e, EdgeSize(limits).value).bytes
  {
    var size := EdgeSize(limits).value;
    var n := |acc.entries|;
    Times(n, size);
    assert acc.bytes == n * size;
    assert acc.bytes + size <= MAX_U64;
  }

  lemma Times(n: nat, size: nat)
    ensures (n + 1) * size == n * size + size && n * size >= 0 && 0 * size == 0
  {
  }

  lemma EmitPairAccounted(job: Job, from: nat, to: nat, delay: u64, acc: Emission)
    requires job.limits.maxBufferBytes <= HALF_RANGE
    requires from < |job.nodes| && to < |job.nodes| && acc.error.None? && Accounted(job.limits, acc)
    ensures Accounted(job.limits, EmitPair(job, from, to, delay, acc))
  {
    var size := EdgeSize(job.limits);
    if size.Some? && size.value <= MAX_U64 - acc.bytes {
      var source, target := job.nodes[from], job.nodes[to].trackId;
      var main := acc;
      if target in source.dests {
        EmitOneAccounted(job.limits, acc, EdgeDelay(source.trackId, target, delay, false));
        main := EmitOne(job.limits, acc, EdgeDelay(source.trackId, target, delay, false), size.value);
      }
      if target in source.sidechainDests && main.error.None? {
        EmitOneAccounted(job.limits, main, EdgeDelay(source.trackId, target, delay, true));
      }
    }
  }

  lemma {:induction false} EmitAllAccounted(job: Job, primary: seq<u64>, input: u64, froms: seq<nat>, to: nat,
                                            acc: Emission)
    requires job.limits.maxBufferBytes <= HALF_RANGE
    requires |primary| == |job.nodes| && Below(froms, |primary|) && to < |job.nodes|
    requires forall k :: 0 <= k < |froms| ==> primary[froms[k]] <= input
    requires acc.error.None? && Accounted(job.limits, acc)
    ensures Accounted(job.limits, EmitAll(job, primary, input, froms, to, acc))
  {
    if froms != [] {
      var n := |froms| - 1;
      EmitAllAccounted(job, primary, input, froms[..n], to, acc);
      var before := EmitAll(job, primary, input, froms[..n], to, acc);
      if before.error.None? {
        EmitPairAccounted(job, froms[n], to, input - primary[froms[n]], before);
      }
    }
  }

  lemma {:induction false} WalkAccounted(job: Job, order: seq<nat>)
    requires job.Valid() && Below(order, |job.nodes|) && job.limits.maxBufferBytes <= HALF_RANGE
    ensures Accounted(job.limits, VisitAll(job, order).out)
  {
    if order != [] {
      var n := |order| - 1;
      WalkAccounted(job, order[..n]);
      var w := VisitAll(job, order[..n]);
      var v := order[n];
      if w.out.error.None? && job.reach[v] && |job.incoming[v]| > 1 {
        EmitAllAccounted(job, w.primary, Input(job, w.primary, v), job.incoming[v], v, w.out);
      }
    }
  }

  // With a limit of at most half the size range the byte count never wraps: it is the number of
  // emitted entries times the bytes of one delay line, and within the limit.
  lemma BudgetExact(nodes: seq<PdcNode>, outputs: seq<PdcOutput>, limits: Limits)
    requires PlanSpec(nodes, outputs, limits).Ok() && limits.maxBufferBytes <= HALF_RANGE
    ensures var plan := PlanSpec(nodes, outputs, limits);
      && plan.bufferBytes <= limits.maxBufferBytes
      && (plan.edgeDelays == [] ==> plan.bufferBytes == 0)
      && (plan.edgeDelays != [] ==>
        && Capacity(limits).Some?
        && plan.bufferBytes == |plan.edgeDelays| * (Capacity(limits).value * (limits.channels * limits.bytesPerSample)))
  {
    PlanSolved(nodes, outputs, limits);
    KahnSound(Succ(TopoNodes(nodes)));
    WalkAccounted(JobOf(nodes, outputs, limits), KahnOrder(Succ(TopoNodes(nodes))));
  }

  // ---------- entries per edge ----------

  // Both kinds of edge join u to v.
  predicate Doubled(nodes: seq<PdcNode>, u: nat, v: nat) {
    Leg(nodes, u, v, false) && Leg(nodes, u, v, true)
  }

  lemma {:induction false} FromEntriesCount(job: Job, primary: seq<u64>, input: u64, froms: seq<nat>, v: nat)
    requires |primary| == |job.nodes| && Below(froms, |primary|) && v < |job.nodes|
    requires forall k :: 0 <= k < |froms| ==> primary[froms[k]] <= input
    requires forall k :: 0 <= k < |froms| ==> Leg(job.nodes, froms[k], v, false) || Leg(job.nodes, froms[k], v, true)
    ensures |FromEntries(job, primary, input, froms, v)| >= |froms|
    ensures |FromEntries(job, primary, input, froms, v)| == |froms| <==>
            forall k :: 0 <= k < |froms| ==> !Doubled(job.nodes, froms[k], v)
  {
    if froms != [] {
      FromEntriesCount(job, primary, input, froms[..|froms| - 1], v);
    }
  }

  // Edges into the summing points of full-PDC paths, one per edge.
  function EdgeCount(job: Job, order: seq<nat>): nat
    requires job.Valid() && Below(order, |job.nodes|)
  {
    if order == [] then 0
    else
      var v := order[|order| - 1];
      EdgeCount(job, order[..|order| - 1]) + if job.reach[v] && |job.incoming[v]| > 1 then |job.incoming[v]| else 0
  }

  ghost predicate NoDoublesAt(job: Job, v: nat)
    requires job.Valid() && v < |job.nodes|
  {
    job.reach[v] && |job.incoming[v]| > 1 ==>
      forall k :: 0 <= k < |job.incoming[v]| ==> !Doubled(job.nodes, job.incoming[v][k], v)
  }

  ghost predicate NoDoubles(job: Job, order: seq<nat>)
    requires job.Valid() && Below(order, |job.nodes|)
  {
    order == [] || (NoDoubles(job, order[..|order| - 1]) && NoDoublesAt(job, order[|order| - 1]))
  }

  lemma {:induction false} NoDoublesAll(job: Job, order: seq<nat>)
    requires job.Valid() && Below(order, |job.nodes|)
    ensures NoDoubles(job, order) <==> forall j :: 0 <= j < |order| ==> NoDoublesAt(job, order[j])
  {
    if order != [] {
      NoDoublesAll(job, order[..|order| - 1]);
    }
  }

  lemma NodeEntriesCount(job: Job, w: Walk, edges: seq<EdgeDelay>, v: nat)
    requires Timing(job, w, edges) && v < |job.nodes|
    ensures |NodeEntries(job, w.primary, v)| >= EdgeCount(job, [v])
    ensures |NodeEntries(job, w.primary, v)| == EdgeCount(job, [v]) <==> NoDoublesAt(job, v)
  {
    assert [v][..0] == [];
    if job.reach[v] && |job.incoming[v]| > 1 {
      var froms := job.incoming[v];
      forall k | 0 <= k < |froms|
        ensures Leg(job.nodes, froms[k], v, false) || Leg(job.nodes, froms[k], v, true)
      {
        assert froms[k] in froms;
      }
      FromEntriesCount(job, w.primary, Input(job, w.primary, v), froms, v);
    }
  }

  lemma {:induction false} AllEntriesCount(job: Job, w: Walk, edges: seq<EdgeDelay>, order: seq<nat>)
    requires Timing(job, w, edges) && Below(order, |job.nodes|)
    ensures |AllEntries(job, w.primary, order)| >= EdgeCount(job, order)
    ensures |AllEntries(job, w.primary, order)| == EdgeCount(job, order) <==> NoDoubles(job, order)
  {
    if order != [] {
      var seen, v := order[..|order| - 1], order[|order| - 1];
      AllEntriesCount(job, w, edges, seen);
      NodeEntriesCount(job, w, edges, v);
      assert [v][..0] == [];
      assert EdgeCount(job, order) == EdgeCount(job, seen) + EdgeCount(job, [v]);
    }
  }

  // A plan has one entry per edge into the summing points of full-PDC paths exactly when no pair of
  // tracks is joined there by a dest and a sidechain edge; otherwise it has more.
  lemma OneEntryPerEdge(nodes: seq<PdcNode>, outputs: seq<PdcOutput>, limits: Limits)
    requires PlanSpec(nodes, outputs, limits).Ok()
    ensures KnownOutputs(nodes, outputs)
    ensures var job := JobOf(nodes, outputs, limits); var order := KahnOrder(Succ(TopoNodes(nodes)));
      && Below(order, |nodes|)
      && |PlanSpec(nodes, outputs, limits).edgeDelays| >= EdgeCount(job, order)
      && (|PlanSpec(nodes, outputs, limits).edgeDelays| == EdgeCount(job, order) <==>
          forall v :: 0 <= v < |nodes| ==> NoDoublesAt(job, v))
  {
    PlanSolved(nodes, outputs, limits);
    KahnSound(Succ(TopoNodes(nodes)));
    var job, w := PlanTiming(nodes, outputs, limits);
    var order := KahnOrder(Succ(TopoNodes(nodes)));
    AllEntriesCount(job, w, PlanSpec(nodes, outputs, limits).edgeDelays, order);
    NoDoublesAll(job, order);
    forall v | 0 <= v < |nodes| && forall j :: 0 <= j < |order| ==> NoDoublesAt(job, order[j])
      ensures NoDoublesAt(job, v)
    {
      DistinctFull(order, |nodes|, v);
    }
  }

  // ---------- the byte count beyond half the size range ----------

  const SOURCE := PdcNode(1, 0, 0, [2], [2])
  const SINK := PdcNode(2, 0, 0, [], [])

  lemma TwoTracksOrder()
    ensures var g: Graph := [[1, 1], []]; IsGraph(g) && KahnOrder(g) == [0, 1]
  {
    var g: Graph := [[1, 1], []];
    assert !HasCycle(g) by {
      forall p: seq<nat> | IsPath(g, p) && |p| > 1 ensures p[0] != p[|p| - 1] {
        assert Edge(g, p[0], p[1]) && Edge(g, p[|p| - 2], p[|p| - 1]);
      }
    }
    KahnComplete(g);
    KahnSound(g);
    var order := KahnOrder(g);
    assert Edge(g, 0, 1);
    assert order[..0] == [];
    assert !Edge(g, 0, order[0]);
  }

  lemma TwoTracks()
    ensures var topo := TopoNodes([SOURCE, SINK]);
      UniqueIds(topo) && KnownTargets(topo) && Succ(topo) == [[1, 1], []] && Known(topo, 2) && IndexOf(topo, 2) == 1
  {
    var topo := TopoNodes([SOURCE, SINK]);
    assert IsIndex(topo, 2, 1);
    assert Targets(topo[0]) == [2, 2] && Targets(topo[1]) == [];
    assert Resolve(topo, [2]) == [1] by {
      assert [2][1..] == [];
    }
    assert Resolve(topo, [2, 2]) == [1, 1] by {
      assert [2, 2][1..] == [2];
    }
  }

  ghost predicate TwoTrackJob(job: Job) {
    && job.nodes == [SOURCE, SINK] && |job.reach| == 2 && job.reach[1] && job.incoming == [[], [0, 0]]
    && EdgeSize(job.limits) == Some(HALF_RANGE + 1) && job.limits.maxBufferBytes > HALF_RANGE
  }

  lemma VisitSource(job: Job)
    requires TwoTrackJob(job)
    ensures job.Valid() && Visit(job, StartWalk(2), 0) == StartWalk(2)
  {
  }

  lemma VisitSink(job: Job)
    requires TwoTrackJob(job)
    ensures job.Valid()
    ensures var r := Visit(job, StartWalk(2), 1);
      r.out.error.None? && |r.out.entries| == 4 && r.out.bytes == 0 && r.primary == [0, 0] && r.monitor == [0, 0]
  {
    var start := StartWalk(2);
    var once := EmitPair(job, 0, 1, 0, start.out);
    WrappedPair(job, start.out);
    WrappedPair(job, once);
    assert [0, 0][..1] == [0] && [0][..0] == [];
    assert EmitAll(job, start.primary, 0, [0], 1, start.out) == once;
    assert EmitAll(job, start.primary, 0, [0, 0], 1, start.out) == EmitPair(job, 0, 1, 0, once);
    assert CompensationOver(true, start.primary, start.compensation, 0, [0]) == Some(0);
    assert CompensationOver(true, start.primary, start.compensation, 0, [0, 0]) == Some(0);
    assert MaxOver(start.primary, [0]) == 0 && MaxOver(start.primary, [0, 0]) == 0;
  }

  lemma TwoTrackIncoming()
    ensures var g: Graph := [[1, 1], []]; IncomingLists(g) == [[], [0, 0]]
  {
    var g: Graph := [[1, 1], []];
    assert Incoming(g, 0, 1) == [] && Incoming(g, 1, 1) == [0, 0];
    assert Incoming(g, 0, 2) == [] && Incoming(g, 1, 2) == [0, 0];
  }

  lemma TwoTrackJobOf(limits: Limits)
    requires EdgeSize(limits) == Some(HALF_RANGE + 1) && limits.maxBufferBytes > HALF_RANGE
    ensures KnownOutputs([SOURCE, SINK], [PdcOutput(2, FullPdc)])
    ensures TwoTrackJob(JobOf([SOURCE, SINK], [PdcOutput(2, FullPdc)], limits))
  {
    TwoTracks();
    TwoTrackIncoming();
    SeedReach([SOURCE, SINK], [PdcOutput(2, FullPdc)], limits, 0);
  }

  lemma TwoTrackWalk(job: Job, order: seq<nat>)
    requires TwoTrackJob(job) && order == [0, 1]
    ensures job.Valid()
    ensures var r := VisitAll(job, order);
      r.out.error.None? && |r.out.entries| == 4 && r.out.bytes == 0 && r.primary == [0, 0] && r.monitor == [0, 0]
  {
    var n := |order| - 1;
    var m := n - 1;
    assert order[..n][..m] == [];
    VisitSource(job);
    VisitSink(job);
    assert VisitAll(job, order[..n]) == Visit(job, StartWalk(2), order[m]);
  }

  // Two tracks joined by both kinds of edge, a delay line of half the size range: four lines are
  // emitted and the byte count has wrapped to zero.
  lemma WrapsBeyondHalf(maxBytes: u64)
    requires maxBytes > HALF_RANGE
    ensures var plan := PlanSpec([SOURCE, SINK], [PdcOutput(2, FullPdc)], Limits(HALF_RANGE, maxBytes, 1, 1, 0));
      plan.Ok() && |plan.edgeDelays| == 4 && plan.bufferBytes == 0
  {
    var nodes, outputs, limits := [SOURCE, SINK], [PdcOutput(2, FullPdc)], Limits(HALF_RANGE, maxBytes, 1, 1, 0);
    TwoTracks();
    TwoTracksOrder();
    assert EdgeSize(limits) == Some(HALF_RANGE + 1);
    TwoTrackJobOf(limits);
    var job := JobOf(nodes, outputs, limits);
    TwoTrackWalk(job, KahnOrder([[1, 1], []]));
    TwoTrackOutputs(job, WalkOf(nodes, outputs, limits));
  }

  lemma TwoTrackOutputs(job: Job, w: Walk)
    requires TwoTrackJob(job) && w.Sized(2) && w.primary == [0, 0]
    ensures KnownOutputs(job.nodes, [PdcOutput(2, FullPdc)])
    ensures OutputsOf(job, w, [PdcOutput(2, FullPdc)]).Some?
  {
    TwoTracks();
    var outputs := [PdcOutput(2, FullPdc)];
    assert outputs[..0] == [];
    assert OutputsOf(job, w, []) == Some([]);
  }

  lemma WrappedPair(job: Job, acc: Emission)
    requires job.nodes == [SOURCE, SINK] && EdgeSize(job.limits) == Some(HALF_RANGE + 1)
    requires job.limits.maxBufferBytes > HALF_RANGE && acc.bytes == 0 && acc.error.None?
    ensures var r := EmitPair(job, 0, 1, 0, acc);
      r.error.None? && r.bytes == 0 && |r.entries| == |acc.entries| + 2
  {
  }

  ghost predicate Exact(limits: Limits, plan: Plan) {
    plan.edgeDelays != [] ==>
      && Capacity(limits).Some?
      && plan.bufferBytes == |plan.edgeDelays| * (Capacity(limits).value * (limits.channels * limits.bytesPerSample))
  }

  // The byte count is right for every graph exactly when the limit is at most half the size range.
  lemma BudgetExactIff(maxBytes: u64)
    ensures maxBytes <= HALF_RANGE <==>
      forall nodes, outputs, limits: Limits ::
        (limits.maxBufferBytes == maxBytes && PlanSpec(nodes, outputs, limits).Ok() ==>
         Exact(limits, PlanSpec(nodes, outputs, limits)))
  {
    if maxBytes <= HALF_RANGE {
      forall nodes, outputs, limits: Limits |
        limits.maxBufferBytes == maxBytes && PlanSpec(nodes, outputs, limits).Ok()
        ensures Exact(limits, PlanSpec(nodes, outputs, limits))
      {
        BudgetExact(nodes, outputs, limits);
      }
    } else {
      WrapsBeyondHalf(maxBytes);
      var limits := Limits(HALF_RANGE, maxBytes, 1, 1, 0);
      assert !Exact(limits, PlanSpec([SOURCE, SINK], [PdcOutput(2, FullPdc)], limits));
    }
  }
}
