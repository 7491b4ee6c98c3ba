/** When a delay plan is refused. */
module PdcRefusals {
  import opened Words
  import opened Wrappers
  import opened GraphTopo
  import opened PdcPlanner
  import opened PdcTheorems
  import opened PdcBudget

  // With a memory limit of at most half the size range, a plan succeeds exactly when the graph is well
  // formed and acyclic, the latencies along every route add up in 64 bits, the delay lines fit the
  // memory limit, and no route to an output exceeds the path limit.

  // ---------- how many delay lines a graph needs ----------

  function PairLines(nodes: seq<PdcNode>, u: nat, v: nat): nat {
    (if Leg(nodes, u, v, false) then 1 else 0) + (if Leg(nodes, u, v, true) then 1 else 0)
  }

  function FromLines(nodes: seq<PdcNode>, froms: seq<nat>, v: nat): nat {
    if froms == [] then 0
    else FromLines(nodes, froms[..|froms| - 1], v) + PairLines(nodes, froms[|froms| - 1], v)
  }

  function NodeLines(job: Job, v: nat): nat
    requires job.Valid() && v < |job.nodes|
  {
    if job.reach[v] && |job.incoming[v]| > 1 then FromLines(job.nodes, job.incoming[v], v) else 0
  }

  // The delay lines of the summing points among the listed nodes.
  function LineCount(job: Job, order: seq<nat>): nat
    requires job.Valid() && Below(order, |job.nodes|)
  {
    if order == [] then 0 else LineCount(job, order[..|order| - 1]) + NodeLines(job, order[|order| - 1])
  }

  lemma {:induction false} FromEntriesLines(job: Job, primary: seq<u64>, input: u64, froms: seq<nat>, v: nat)
    requires |primary| == |job.nodes| && Below(froms, |primary|) && v < |job.nodes|
    requires forall k :: 0 <= k < |froms| ==> primary[froms[k]] <= input
    ensures |FromEntries(job, primary, input, froms, v)| == FromLines(job.nodes, froms, v)
  {
    if froms != [] {
      FromEntriesLines(job, primary, input, froms[..|froms| - 1], v);
    }
  }

  lemma {:induction false} EntriesAreLines(job: Job, primary: seq<u64>, order: seq<nat>)
    requires job.Valid() && |primary| == |job.nodes| && Below(order, |job.nodes|)
    ensures |AllEntries(job, primary, order)| == LineCount(job, order)
  {
    if order != [] {
      var v := order[|order| - 1];
      EntriesAreLines(job, primary, order[..|order| - 1]);
      FromEntriesLines(job, primary, Input(job, primary, v), job.incoming[v], v);
    }
  }

  // ---------- memory ----------

  // n delay lines fit the memory limit.
  predicate LinesFit(limits: Limits, n: nat) {
    n > 0 ==> EdgeSize(limits).Some? && n * EdgeSize(limits).value <= limits.maxBufferBytes
  }

  lemma FewerFit(limits: Limits, m: nat, n: nat)
    requires m <= n && LinesFit(limits, n)
    ensures LinesFit(limits, m)
  {
    if m > 0 {
      var size := EdgeSize(limits).value;
      assert m * size <= n * size;
    }
  }

  lemma EmitOneFits(limits: Limits, acc: Emission, e: EdgeDelay)
    requires limits.maxBufferBytes <= HALF_RANGE && acc.error.None? && Accounted(limits, acc)
    requires LinesFit(limits, |acc.entries| + 1)
    ensures EdgeSize(limits).Some?
    ensures var r := EmitOne(limits, acc, e, EdgeSize(limits).value);
      r.error.None? && Accounted(limits, r) && |r.entries| == |acc.entries| + 1
  {
    Times(|acc.entries|, EdgeSize(limits).value);
  }

  lemma EmitPairFits(job: Job, from: nat, to: nat, delay: u64, acc: Emission)
    requires job.limits.maxBufferBytes <= HALF_RANGE && from < |job.nodes| && to < |job.nodes|
    requires acc.error.None? && Accounted(job.limits, acc)
    requires PairLines(job.nodes, from, to) > 0
    requires LinesFit(job.limits, |acc.entries| + PairLines(job.nodes, from, to))
    ensures EmitPair(job, from, to, delay, acc).error.None?
  {
    var source, target := job.nodes[from], job.nodes[to].trackId;
    FewerFit(job.limits, |acc.entries| + 1, |acc.entries| + PairLines(job.nodes, from, to));
    var size := EdgeSize(job.limits).value;
    Times(|acc.entries|, size);
    var main := acc;
    if target in source.dests {
      EmitOneFits(job.limits, acc, EdgeDelay(source.trackId, target, delay, false));
      main := EmitOne(job.limits, acc, EdgeDelay(source.trackId, target, delay, false), size);
    }
    if target in source.sidechainDests {
      EmitOneFits(job.limits, main, EdgeDelay(source.trackId, target, delay, true));
    }
  }

  // What an emission that went through has emitted.
  lemma EmittedLines(job: Job, primary: seq<u64>, input: u64, froms: seq<nat>, to: nat, acc: Emission)
    requires job.limits.maxBufferBytes <= HALF_RANGE
    requires |primary| == |job.nodes| && Below(froms, |primary|) && to < |job.nodes|
    requires forall k :: 0 <= k < |froms| ==> primary[froms[k]] <= input
    requires acc.error.None? && Accounted(job.limits, acc) && EmitAll(job, primary, input, froms, to, acc).error.None?
    ensures var r := EmitAll(job, primary, input, froms, to, acc);
      Accounted(job.limits, r) && |r.entries| == |acc.entries| + FromLines(job.nodes, froms, to)
  {
    EmitAllAccounted(job, primary, input, froms, to, acc);
    EmitAllEntries(job, primary, input, froms, to, acc);
    FromEntriesLines(job, primary, input, froms, to);
  }

  lemma {:induction false} EmitAllFits(job: Job, primary: seq<u64>, input: u64, froms: seq<nat>, to: nat, acc: Emission)
    requires job.limits.maxBufferBytes <= HALF_RANGE
    requires |primary| == |job.nodes| && Below(froms, |primary|) && to < |job.nodes|
    requires forall k :: 0 <= k < |froms| ==> primary[froms[k]] <= input && PairLines(job.nodes, froms[k], to) > 0
    requires acc.error.None? && Accounted(job.limits, acc)
    requires LinesFit(job.limits, |acc.entries| + FromLines(job.nodes, froms, to))
    ensures EmitAll(job, primary, input, froms, to, acc).error.None?
  {
    if froms != [] {
      var n := |froms| - 1;
      var before := |acc.entries| + FromLines(job.nodes, froms[..n], to);
      FewerFit(job.limits, before, before + PairLines(job.nodes, froms[n], to));
      EmitAllFits(job, primary, input, froms[..n], to, acc);
      EmittedLines(job, primary, input, froms[..n], to, acc);
      EmitPairFits(job, froms[n], to, input - primary[froms[n]], EmitAll(job, primary, input, froms[..n], to, acc));
    }
  }

  // ---------- latencies ----------

  // Along a route the node latencies add up in 64 bits.
  ghost predicate RouteFits(nodes: seq<PdcNode>, p: seq<nat>, kinds: seq<bool>, monitor: bool) {
    IsRoute(nodes, p, kinds) ==> Below(p, |nodes|) && RawSum(nodes, p, monitor) <= MAX_U64
  }

  // They do along every route, for the primary and for the monitor paths.
  ghost predicate SumsFit(nodes: seq<PdcNode>) {
    forall p, kinds, monitor :: RouteFits(nodes, p, kinds, monitor)
  }

  // Compensations of at most the latencies they arrive with add up within the largest of those.
  lemma {:induction false} CompensationFits(reaches: bool, primary: seq<u64>, comp: seq<u64>, input: u64,
                                            froms: seq<nat>)
    requires |comp| == |primary| && Below(froms, |primary|)
    requires forall k :: 0 <= k < |froms| ==> comp[froms[k]] <= primary[froms[k]] <= input
    ensures var c := CompensationOver(reaches, primary, comp, input, froms); c.Some? && c.value <= input
  {
    if froms != [] {
      CompensationFits(reaches, primary, comp, input, froms[..|froms| - 1]);
    }
  }

  lemma {:induction false} CompensationBelow(job: Job, w: Walk, order: seq<nat>)
    requires job.Valid() && w.Sized(|job.nodes|) && Ordered(job, order) && AllSolved(job, w, order)
    ensures forall v: nat :: v in order ==> v < |job.nodes| && w.compensation[v] <= w.primary[v]
  {
    if order != [] {
      var v, seen := order[|order| - 1], order[..|order| - 1];
      CompensationBelow(job, w, seen);
      forall k | 0 <= k < |job.incoming[v]| ensures job.incoming[v][k] in seen {
      }
      CompensationFits(job.reach[v], w.primary, w.compensation, Input(job, w.primary, v), job.incoming[v]);
    }
  }

  // On the planner's own walk no path is compensated by more than its latency, so the guard on the
  // compensation sum never fires: it would be the only way to get no compensation here.
  lemma CompensationNeverOverflows(job: Job, seen: seq<nat>, v: nat)
    requires job.Valid() && Ordered(job, seen) && VisitAll(job, seen).out.error.None?
    requires v < |job.nodes| && SourcesIn(job, v, seen)
    ensures var w := VisitAll(job, seen); var input := Input(job, w.primary, v);
      var c := CompensationOver(job.reach[v], w.primary, w.compensation, input, job.incoming[v]);
      c.Some? && c.value <= input
  {
    var w := VisitAll(job, seen);
    WalkSolves(job, seen);
    CompensationBelow(job, w, seen);
    forall k | 0 <= k < |job.incoming[v]| ensures job.incoming[v][k] in seen {
    }
    CompensationFits(job.reach[v], w.primary, w.compensation, Input(job, w.primary, v), job.incoming[v]);
  }

  lemma InputFits(job: Job, w: Walk, seen: seq<nat>, v: nat, monitor: bool)
    requires Legged(job) && w.Sized(|job.nodes|) && Ordered(job, seen) && AllSolved(job, w, seen)
    requires v < |job.nodes| && SourcesIn(job, v, seen) && SumsFit(job.nodes)
    ensures Input(job, PathLatency(w, monitor), v) + Latency(job.nodes[v], monitor) <= MAX_U64
  {
    var p, kinds := ArrivingRoute(job, w, seen, v, monitor);
    assert RouteFits(job.nodes, p, kinds, monitor);
  }

  // ---------- the walk ----------

  lemma VisitFits(job: Job, w: Walk, seen: seq<nat>, v: nat)
    requires Legged(job) && w.Sized(|job.nodes|) && Ordered(job, seen) && AllSolved(job, w, seen)
    requires v < |job.nodes| && SourcesIn(job, v, seen) && SumsFit(job.nodes)
    requires job.limits.maxBufferBytes <= HALF_RANGE && w.out.error.None? && Accounted(job.limits, w.out)
    requires LinesFit(job.limits, |w.out.entries| + NodeLines(job, v))
    ensures Visit(job, w, v).out.error.None?
  {
    var froms := job.incoming[v];
    CompensationBelow(job, w, seen);
    forall k | 0 <= k < |froms| ensures froms[k] in seen && PairLines(job.nodes, froms[k], v) > 0 {
      assert froms[k] in froms;
    }
    CompensationFits(job.reach[v], w.primary, w.compensation, Input(job, w.primary, v), froms);
    InputFits(job, w, seen, v, false);
    InputFits(job, w, seen, v, true);
    if job.reach[v] && |froms| > 1 {
      EmitAllFits(job, w.primary, Input(job, w.primary, v), froms, v, w.out);
    }
  }

  // What is known of a walk that has gone through so far.
  lemma WalkSoFar(job: Job, seen: seq<nat>)
    requires job.Valid() && Ordered(job, seen) && job.limits.maxBufferBytes <= HALF_RANGE
    requires VisitAll(job, seen).out.error.None?
    ensures var w := VisitAll(job, seen);
      && AllSolved(job, w, seen) && Accounted(job.limits, w.out) && |w.out.entries| == LineCount(job, seen)
  {
    WalkSolves(job, seen);
    WalkAccounted(job, seen);
    EntriesAreLines(job, VisitAll(job, seen).primary, seen);
  }

  lemma {:induction false} WalkFits(job: Job, order: seq<nat>)
    requires Legged(job) && Ordered(job, order) && SumsFit(job.nodes)
    requires job.limits.maxBufferBytes <= HALF_RANGE && LinesFit(job.limits, LineCount(job, order))
    ensures VisitAll(job, order).out.error.None?
  {
    if order != [] {
      var v, seen := order[|order| - 1], order[..|order| - 1];
      var n := LineCount(job, seen);
      assert LineCount(job, order) == n + NodeLines(job, v);
      FewerFit(job.limits, n, n + NodeLines(job, v));
      WalkFits(job, seen);
      WalkSoFar(job, seen);
      VisitFits(job, VisitAll(job, seen), seen, v);
    }
  }

  lemma WalkedSums(nodes: seq<PdcNode>, outputs: seq<PdcOutput>, limits: Limits)
    requires Walked(nodes, outputs, limits)
    ensures SumsFit(nodes)
  {
    var job, w := WalkTiming(nodes, outputs, limits);
    forall p, kinds, monitor ensures RouteFits(nodes, p, kinds, monitor) {
      if IsRoute(nodes, p, kinds) {
        RouteAtMost(job, w, w.out.entries, p, kinds, monitor);
      }
    }
  }

  ghost predicate WellFormed(nodes: seq<PdcNode>, outputs: seq<PdcOutput>) {
    && UniqueIds(TopoNodes(nodes)) && KnownTargets(TopoNodes(nodes)) && KnownOutputs(nodes, outputs)
    && !HasCycle(Succ(TopoNodes(nodes)))
  }

  // The delay lines the whole graph needs.
  ghost function GraphLines(nodes: seq<PdcNode>, outputs: seq<PdcOutput>, limits: Limits): nat
    requires WellFormed(nodes, outputs)
  {
    KahnSound(Succ(TopoNodes(nodes)));
    LineCount(JobOf(nodes, outputs, limits), KahnOrder(Succ(TopoNodes(nodes))))
  }

  lemma WalkedExactly(nodes: seq<PdcNode>, outputs: seq<PdcOutput>, limits: Limits)
    requires limits.maxBufferBytes <= HALF_RANGE
    ensures Walked(nodes, outputs, limits) <==>
      WellFormed(nodes, outputs) && SumsFit(nodes) && LinesFit(limits, GraphLines(nodes, outputs, limits))
  {
    var g := Succ(TopoNodes(nodes));
    KahnSound(g);
    KahnComplete(g);
    if WellFormed(nodes, outputs) {
      var job, order := JobOf(nodes, outputs, limits), KahnOrder(g);
      JobLegged(nodes, outputs, limits);
      ForwardOrdered(job, g, order);
      if SumsFit(nodes) && LinesFit(limits, LineCount(job, order)) {
        WalkFits(job, order);
      }
      if Walked(nodes, outputs, limits) {
        WalkedSums(nodes, outputs, limits);
        WalkSoFar(job, order);
      }
    }
  }

  // Main result: what a plan is accepted for, and nothing else.
  lemma AcceptedExactly(nodes: seq<PdcNode>, outputs: seq<PdcOutput>, limits: Limits)
    requires limits.maxBufferBytes <= HALF_RANGE
    ensures PlanSpec(nodes, outputs, limits).Ok() <==>
      && WellFormed(nodes, outputs) && SumsFit(nodes)
      && LinesFit(limits, GraphLines(nodes, outputs, limits))
      && !exists k, p, kinds :: TooLong(nodes, outputs, limits, k, p, kinds)
  {
    WalkedExactly(nodes, outputs, limits);
    if Walked(nodes, outputs, limits) {
      PathLimitExactly(nodes, outputs, limits);
    } else if PlanSpec(nodes, outputs, limits).Ok() {
      PlanSolved(nodes, outputs, limits);
    }
  }

  // ---------- which error ----------

  // One delay line holds the longest path, a block and one more frame; its bytes are counted exactly
  // when the frames and the bytes both fit 64 bits.
  lemma LineSizeExactly(limits: Limits)
    ensures var frames := limits.maxPathSamples + limits.maxBlockFrames + 1;
      var bytes := frames * (limits.channels * limits.bytesPerSample);
      && (EdgeSize(limits).Some? <==> frames <= MAX_U64 && bytes <= MAX_U64)
      && (EdgeSize(limits).Some? ==> EdgeSize(limits).value == bytes)
  {
    FrameFits(limits.channels, limits.bytesPerSample);
    var frames, frame := limits.maxPathSamples + limits.maxBlockFrames + 1, limits.channels * limits.bytesPerSample;
    if limits.channels != 0 {
      QuotientBounds(limits.channels, limits.bytesPerSample);
    }
    if frame != 0 {
      QuotientBounds(frame, frames);
    }
  }

  lemma QuotientBounds(a: nat, b: nat)
    requires a > 0
    ensures b > MAX_U64 / a <==> b * a > MAX_U64
  {
    var q := MAX_U64 / a;
    if b > q {
      assert b * a >= (q + 1) * a;
    } else {
      assert b * a <= q * a;
    }
  }

  // The graph is judged before any number: repeated ids, then unknown dests, unknown outputs, cycles.
  lemma GraphErrors(nodes: seq<PdcNode>, outputs: seq<PdcOutput>, limits: Limits)
    ensures var e, topo := PlanSpec(nodes, outputs, limits).error, TopoNodes(nodes);
      && (e == Some(DuplicateTrackId) <==> !UniqueIds(topo))
      && (e == Some(UnknownDestination) <==> UniqueIds(topo) && !KnownTargets(topo))
      && (e == Some(UnknownOutput) <==> UniqueIds(topo) && KnownTargets(topo) && !KnownOutputs(nodes, outputs))
      && (e == Some(Cycle) <==>
        UniqueIds(topo) && KnownTargets(topo) && KnownOutputs(nodes, outputs) && HasCycle(Succ(topo)))
  {
    var g := Succ(TopoNodes(nodes));
    KahnSound(g);
    KahnComplete(g);
    if KnownOutputs(nodes, outputs) {
      WalkErrors(JobOf(nodes, outputs, limits), KahnOrder(g));
    }
  }

  predicate SizeError(e: Option<PdcError>) {
    e == None || e == Some(MemoryLimitExceeded) || e == Some(ArithmeticOverflow)
  }

  lemma {:induction false} EmitErrors(job: Job, primary: seq<u64>, input: u64, froms: seq<nat>, to: nat, acc: Emission)
    requires |primary| == |job.nodes| && Below(froms, |primary|) && to < |job.nodes|
    requires forall k :: 0 <= k < |froms| ==> primary[froms[k]] <= input
    requires SizeError(acc.error)
    ensures SizeError(EmitAll(job, primary, input, froms, to, acc).error)
  {
    if froms != [] {
      EmitErrors(job, primary, input, froms[..|froms| - 1], to, acc);
    }
  }

  lemma {:induction false} WalkErrors(job: Job, order: seq<nat>)
    requires job.Valid() && Below(order, |job.nodes|)
    ensures SizeError(VisitAll(job, order).out.error)
  {
    if order != [] {
      var w, v := VisitAll(job, order[..|order| - 1]), order[|order| - 1];
      WalkErrors(job, order[..|order| - 1]);
      MaxOverBound(w.primary, job.incoming[v]);
      EmitErrors(job, w.primary, MaxOver(w.primary, job.incoming[v]), job.incoming[v], v, w.out);
    }
  }

  // Lines of at most half the size range never overflow the byte count: what is refused of them is
  // refused for the memory limit.
  predicate SmallLines(limits: Limits) {
    limits.maxBufferBytes <= HALF_RANGE && EdgeSize(limits).Some? && EdgeSize(limits).value <= HALF_RANGE
  }

  predicate NoOverflow(e: Option<PdcError>) {
    e == None || e == Some(MemoryLimitExceeded)
  }

  lemma {:induction false} EmitMemory(job: Job, primary: seq<u64>, input: u64, froms: seq<nat>, to: nat, acc: Emission)
    requires SmallLines(job.limits) && |primary| == |job.nodes| && Below(froms, |primary|) && to < |job.nodes|
    requires forall k :: 0 <= k < |froms| ==> primary[froms[k]] <= input
    requires acc.error.None? && Accounted(job.limits, acc)
    ensures NoOverflow(EmitAll(job, primary, input, froms, to, acc).error)
  {
    if froms != [] {
      EmitMemory(job, primary, input, froms[..|froms| - 1], to, acc);
      EmitAllAccounted(job, primary, input, froms[..|froms| - 1], to, acc);
    }
  }

  lemma VisitMemory(job: Job, w: Walk, seen: seq<nat>, v: nat)
    requires Legged(job) && w.Sized(|job.nodes|) && Ordered(job, seen) && AllSolved(job, w, seen)
    requires v < |job.nodes| && SourcesIn(job, v, seen) && SumsFit(job.nodes)
    requires SmallLines(job.limits) && w.out.error.None? && Accounted(job.limits, w.out)
    ensures NoOverflow(Visit(job, w, v).out.error)
  {
    var froms := job.incoming[v];
    CompensationBelow(job, w, seen);
    forall k | 0 <= k < |froms| ensures froms[k] in seen {
    }
    CompensationFits(job.reach[v], w.primary, w.compensation, Input(job, w.primary, v), froms);
    InputFits(job, w, seen, v, false);
    InputFits(job, w, seen, v, true);
    if job.reach[v] && |froms| > 1 {
      EmitMemory(job, w.primary, Input(job, w.primary, v), froms, v, w.out);
    }
  }

  lemma {:induction false} WalkMemory(job: Job, order: seq<nat>)
    requires Legged(job) && Ordered(job, order) && SumsFit(job.nodes) && SmallLines(job.limits)
    ensures NoOverflow(VisitAll(job, order).out.error)
  {
    if order != [] {
      var v, seen := order[|order| - 1], order[..|order| - 1];
      WalkMemory(job, seen);
      if VisitAll(job, seen).out.error.None? {
        WalkSoFar(job, seen);
        VisitMemory(job, VisitAll(job, seen), seen, v);
      }
    }
  }

  lemma WalkRefused(nodes: seq<PdcNode>, outputs: seq<PdcOutput>, limits: Limits)
    requires WellFormed(nodes, outputs) && SumsFit(nodes) && SmallLines(limits)
    ensures NoOverflow(WalkOf(nodes, outputs, limits).out.error)
    ensures |KahnOrder(Succ(TopoNodes(nodes)))| == |nodes|
  {
    var g := Succ(TopoNodes(nodes));
    KahnSound(g);
    KahnComplete(g);
    JobLegged(nodes, outputs, limits);
    ForwardOrdered(JobOf(nodes, outputs, limits), g, KahnOrder(g));
    WalkMemory(JobOf(nodes, outputs, limits), KahnOrder(g));
  }

  // A well-formed graph whose route sums fit 64 bits, with lines of at most half the size range, is
  // refused for memory exactly when its delay lines exceed the limit, and never for an overflow.
  lemma MemoryExactly(nodes: seq<PdcNode>, outputs: seq<PdcOutput>, limits: Limits)
    requires WellFormed(nodes, outputs) && SumsFit(nodes) && SmallLines(limits)
    ensures var e := PlanSpec(nodes, outputs, limits).error;
      && (e == Some(MemoryLimitExceeded) <==> !LinesFit(limits, GraphLines(nodes, outputs, limits)))
      && e != Some(ArithmeticOverflow)
  {
    WalkRefused(nodes, outputs, limits);
    WalkedExactly(nodes, outputs, limits);
    if Walked(nodes, outputs, limits) {
      PathLimitExactly(nodes, outputs, limits);
    }
  }
}
