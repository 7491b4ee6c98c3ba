/** Plugin delay compensation planner (engine/src/pdc_planner.cpp). */
module PdcPlanner {
  import opened Words
  import opened Wrappers
  import opened GraphTopo

  // `PlanSpec` is the plan as a function of its inputs, `PlanPluginDelay` the loops that compute it.
  // What the plan means is proved in PdcTheorems.

  datatype OutputLatencyPolicy = FullPdc | LowLatency

  datatype PdcNode = PdcNode(
    trackId: Id, primaryLatency: u64, monitorLatency: u64, dests: seq<Id>, sidechainDests: seq<Id>)

  datatype PdcOutput = PdcOutput(trackId: Id, policy: OutputLatencyPolicy)

  datatype Limits = Limits(
    maxPathSamples: u64, maxBufferBytes: u64, channels: u32, bytesPerSample: u32, maxBlockFrames: u32)

  datatype EdgeDelay = EdgeDelay(fromId: Id, toId: Id, delay: u64, aux: bool)

  datatype OutputLatency = OutputLatency(trackId: Id, total: u64, compensation: u64, synchronized: bool)

  datatype PdcError =
    | DuplicateTrackId
    | UnknownDestination
    | UnknownOutput
    | Cycle
    | PathLimitExceeded
    | MemoryLimitExceeded
    | ArithmeticOverflow

  datatype Plan = Plan(
    error: Option<PdcError>, edgeDelays: seq<EdgeDelay>, outputs: seq<OutputLatency>, bufferBytes: u64)
  {
    predicate Ok() { error.None? }
  }

  // The validated inputs of the main walk: `incoming` per node, and which nodes reach a full-PDC output.
  datatype Job = Job(nodes: seq<PdcNode>, limits: Limits, incoming: seq<seq<nat>>, reach: seq<bool>) {
    ghost predicate Valid() {
      |incoming| == |reach| == |nodes| && forall v :: 0 <= v < |nodes| ==> Below(incoming[v], |nodes|)
    }
  }

  // Edges emitted so far and the bytes their delay lines need.
  datatype Emission = Emission(entries: seq<EdgeDelay>, bytes: u64, error: Option<PdcError>)

  datatype Walk = Walk(primary: seq<u64>, monitor: seq<u64>, compensation: seq<u64>, out: Emission) {
    predicate Sized(n: nat) { |primary| == |monitor| == |compensation| == n }
  }

  function Max(a: u64, b: u64): u64 {
    if a < b then b else a
  }

  function MaxOver(vals: seq<u64>, froms: seq<nat>): u64
    requires Below(froms, |vals|)
  {
    if froms == [] then 0 else Max(MaxOver(vals, froms[..|froms| - 1]), vals[froms[|froms| - 1]])
  }

  // Ring capacity of one delay line, when it can be computed.
  function Capacity(limits: Limits): Option<u64> {
    if limits.maxPathSamples > MAX_U64 - limits.maxBlockFrames - 1 then None
    else Some(limits.maxPathSamples + limits.maxBlockFrames + 1)
  }

  function BytesPerFrame(limits: Limits): (r: Option<u64>) {
    if limits.channels != 0 && limits.bytesPerSample > MAX_U64 / limits.channels then None
    else
      FrameFits(limits.channels, limits.bytesPerSample);
      Some(limits.channels * limits.bytesPerSample)
  }

  lemma FrameFits(channels: u32, bytesPerSample: u32)
    ensures 0 <= channels * bytesPerSample <= MAX_U64
  {
    assert channels * bytesPerSample <= 0xFFFF_FFFF * 0xFFFF_FFFF by {
      assert channels * bytesPerSample <= 0xFFFF_FFFF * bytesPerSample;
    }
  }

  lemma ProductFits(a: u64, b: u64)
    requires b != 0 ==> a <= MAX_U64 / b
    ensures 0 <= a * b <= MAX_U64
  {
    if b != 0 {
      assert a * b <= (MAX_U64 / b) * b <= MAX_U64;
    }
  }

  // Bytes of one edge's delay line; None where the code reports an arithmetic overflow.
  function EdgeSize(limits: Limits): Option<u64> {
    match (BytesPerFrame(limits), Capacity(limits))
    case (Some(frame), Some(capacity)) =>
      if frame != 0 && capacity > MAX_U64 / frame then None
      else
        ProductFits(capacity, frame);
        Some(capacity * frame)
    case _ => None
  }

  // One emitted edge. The byte count is a 64-bit size and wraps.
  function EmitOne(limits: Limits, acc: Emission, e: EdgeDelay, size: u64): Emission {
    var bytes := (acc.bytes + size) % (MAX_U64 + 1);
    Emission(acc.entries + [e], bytes,
             if bytes > limits.maxBufferBytes then Some(MemoryLimitExceeded) else acc.error)
  }

  // The dest edge and the sidechain edge of one visited (from, to) pair, whichever exist.
  function EmitPair(job: Job, from: nat, to: nat, delay: u64, acc: Emission): Emission
    requires from < |job.nodes| && to < |job.nodes|
  {
    var source := job.nodes[from];
    var target := job.nodes[to].trackId;
    match EdgeSize(job.limits)
    case None => acc.(error := Some(ArithmeticOverflow))
    case Some(size) =>
      if size > MAX_U64 - acc.bytes then acc.(error := Some(ArithmeticOverflow))
      else
        var main :=
          if target in source.dests
          then EmitOne(job.limits, acc, EdgeDelay(source.trackId, target, delay, false), size) else acc;
        if target in source.sidechainDests && main.error.None?
        then EmitOne(job.limits, main, EdgeDelay(source.trackId, target, delay, true), size) else main
  }

  function EmitAll(job: Job, primary: seq<u64>, input: u64, froms: seq<nat>, to: nat, acc: Emission): Emission
    requires |primary| == |job.nodes| && Below(froms, |primary|) && to < |job.nodes|
    requires forall k :: 0 <= k < |froms| ==> primary[froms[k]] <= input
  {
    if froms == [] then acc
    else
      var from := froms[|froms| - 1];
      var before := EmitAll(job, primary, input, froms[..|froms| - 1], to, acc);
      if before.error.Some? then before else EmitPair(job, from, to, input - primary[from], before)
  }

  // The largest compensation arriving over `froms`; None on overflow.
  function CompensationOver(reaches: bool, primary: seq<u64>, comp: seq<u64>, input: u64, froms: seq<nat>): Option<u64>
    requires |comp| == |primary| && Below(froms, |primary|)
    requires forall k :: 0 <= k < |froms| ==> primary[froms[k]] <= input
  {
    if froms == [] then Some(0)
    else
      var from := froms[|froms| - 1];
      var local := if reaches then input - primary[from] else 0;
      match CompensationOver(reaches, primary, comp, input, froms[..|froms| - 1])
      case None => None
      case Some(best) =>
        if local > MAX_U64 - comp[from] then None else Some(Max(best, comp[from] + local))
  }

  lemma {:induction false} MaxOverBound(vals: seq<u64>, froms: seq<nat>)
    requires Below(froms, |vals|)
    ensures forall k :: 0 <= k < |froms| ==> vals[froms[k]] <= MaxOver(vals, froms)
  {
    if froms != [] {
      MaxOverBound(vals, froms[..|froms| - 1]);
    }
  }

  function VisitEdges(job: Job, w: Walk, v: nat): Emission
    requires job.Valid() && w.Sized(|job.nodes|) && v < |job.nodes|
  {
    MaxOverBound(w.primary, job.incoming[v]);
    if job.reach[v] && |job.incoming[v]| > 1
    then EmitAll(job, w.primary, MaxOver(w.primary, job.incoming[v]), job.incoming[v], v, w.out)
    else w.out
  }

  // One node of the walk; a failed walk stays as it failed.
  function Visit(job: Job, w: Walk, v: nat): (r: Walk)
    requires job.Valid() && w.Sized(|job.nodes|) && v < |job.nodes|
    ensures r.Sized(|job.nodes|)
  {
    if w.out.error.Some? then w
    else
      var froms := job.incoming[v];
      var primaryInput := MaxOver(w.primary, froms);
      var monitorInput := MaxOver(w.monitor, froms);
      MaxOverBound(w.primary, froms);
      var out := VisitEdges(job, w, v);
      if out.error.Some? then w.(out := out)
      else
        match CompensationOver(job.reach[v], w.primary, w.compensation, primaryInput, froms)
        case None => w.(out := out.(error := Some(ArithmeticOverflow)))
        case Some(c) =>
          var compensation := w.compensation[v := c];
          if job.nodes[v].primaryLatency > MAX_U64 - primaryInput ||
             job.nodes[v].monitorLatency > MAX_U64 - monitorInput
          then w.(compensation := compensation, out := out.(error := Some(ArithmeticOverflow)))
          else
            Walk(w.primary[v := primaryInput + job.nodes[v].primaryLatency],
                 w.monitor[v := monitorInput + job.nodes[v].monitorLatency], compensation, out)
  }

  function VisitAll(job: Job, order: seq<nat>): (r: Walk)
    requires job.Valid() && Below(order, |job.nodes|)
    ensures r.Sized(|job.nodes|)
  {
    if order == [] then StartWalk(|job.nodes|)
    else Visit(job, VisitAll(job, order[..|order| - 1]), order[|order| - 1])
  }

  function StartWalk(n: nat): (r: Walk)
    ensures r.Sized(n)
  {
    var zeros: seq<u64> := seq(n, _ => 0);
    Walk(zeros, zeros, zeros, Emission([], 0, None))
  }

  function TopoNodes(nodes: seq<PdcNode>): seq<TopoNode> {
    seq(|nodes|, i requires 0 <= i < |nodes| =>
      TopoNode(nodes[i].trackId, nodes[i].dests, nodes[i].sidechainDests))
  }

  function OutputOf(w: Walk, output: PdcOutput, i: nat): OutputLatency
    requires w.Sized(|w.primary|) && i < |w.primary|
  {
    var synchronized := output.policy == FullPdc;
    OutputLatency(output.trackId, if synchronized then w.primary[i] else w.monitor[i], w.compensation[i],
                  synchronized)
  }

  // The reported latencies; None when one is above the path limit.
  ghost function OutputsOf(job: Job, w: Walk, outputs: seq<PdcOutput>): (r: Option<seq<OutputLatency>>)
    requires w.Sized(|job.nodes|) && KnownOutputs(job.nodes, outputs)
    ensures r.Some? ==> |r.value| == |outputs|
    ensures r.Some? ==> forall k :: 0 <= k < |outputs| ==>
      && r.value[k] == OutputOf(w, outputs[k], IndexOf(TopoNodes(job.nodes), outputs[k].trackId))
      && r.value[k].total <= job.limits.maxPathSamples
  {
    if outputs == [] then Some([])
    else
      var last := outputs[|outputs| - 1];
      match OutputsOf(job, w, outputs[..|outputs| - 1])
      case None => None
      case Some(before) =>
        var o := OutputOf(w, last, IndexOf(TopoNodes(job.nodes), last.trackId));
        if o.total > job.limits.maxPathSamples then None else Some(before + [o])
  }

  ghost predicate KnownOutputs(nodes: seq<PdcNode>, outputs: seq<PdcOutput>) {
    forall k :: 0 <= k < |outputs| ==> Known(TopoNodes(nodes), outputs[k].trackId)
  }

  ghost predicate IsSeed(nodes: seq<PdcNode>, outputs: seq<PdcOutput>, policy: OutputLatencyPolicy, s: nat) {
    exists k :: 0 <= k < |outputs| && outputs[k].policy == policy && IsIndex(TopoNodes(nodes), outputs[k].trackId, s)
  }

  // The positions of the outputs with the given policy.
  ghost function Seeds(nodes: seq<PdcNode>, outputs: seq<PdcOutput>, policy: OutputLatencyPolicy): (r: seq<nat>)
    requires KnownOutputs(nodes, outputs)
    ensures Below(r, |nodes|)
    ensures forall k :: 0 <= k < |outputs| && outputs[k].policy == policy ==>
      IndexOf(TopoNodes(nodes), outputs[k].trackId) in r
    ensures forall s: nat :: s in r ==> IsSeed(nodes, outputs, policy, s)
  {
    if outputs == [] then []
    else
      var last := outputs[|outputs| - 1];
      Seeds(nodes, outputs[..|outputs| - 1], policy) +
      if last.policy == policy then [IndexOf(TopoNodes(nodes), last.trackId)] else []
  }

  ghost function IncomingLists(g: Graph): (r: seq<seq<nat>>)
    ensures |r| == |g| && forall v :: 0 <= v < |g| ==> r[v] == Incoming(g, v, |g|) && Below(r[v], |g|)
  {
    forall v: nat, k | v < |g| && 0 <= k < |Incoming(g, v, |g|)| ensures Incoming(g, v, |g|)[k] < |g| {
      IncomingMember(g, v, |g|, Incoming(g, v, |g|)[k]);
    }
    seq(|g|, v requires 0 <= v < |g| => Incoming(g, v, |g|))
  }

  ghost function Reach(g: Graph, seeds: seq<nat>): seq<bool> {
    seq(|g|, v requires 0 <= v < |g| => Reaches(g, v, Elems(seeds)))
  }

  ghost function JobOf(nodes: seq<PdcNode>, outputs: seq<PdcOutput>, limits: Limits): (job: Job)
    requires KnownOutputs(nodes, outputs)
    ensures job.Valid() && job.nodes == nodes && job.limits == limits
  {
    var g := Succ(TopoNodes(nodes));
    Job(nodes, limits, IncomingLists(g), Reach(g, Seeds(nodes, outputs, FullPdc)))
  }

  ghost function WalkOf(nodes: seq<PdcNode>, outputs: seq<PdcOutput>, limits: Limits): (w: Walk)
    requires KnownOutputs(nodes, outputs)
    ensures w.Sized(|nodes|)
  {
    KahnSound(Succ(TopoNodes(nodes)));
    VisitAll(JobOf(nodes, outputs, limits), KahnOrder(Succ(TopoNodes(nodes))))
  }

  ghost function PlanSpec(nodes: seq<PdcNode>, outputs: seq<PdcOutput>, limits: Limits): Plan {
    var topo := TopoNodes(nodes);
    if !UniqueIds(topo) then Plan(Some(DuplicateTrackId), [], [], 0)
    else if !KnownTargets(topo) then Plan(Some(UnknownDestination), [], [], 0)
    else if !KnownOutputs(nodes, outputs) then Plan(Some(UnknownOutput), [], [], 0)
    else if |KahnOrder(Succ(topo))| != |nodes| then Plan(Some(Cycle), [], [], 0)
    else
      var w := WalkOf(nodes, outputs, limits);
      if w.out.error.Some? then Plan(w.out.error, w.out.entries, [], w.out.bytes)
      else
        match OutputsOf(JobOf(nodes, outputs, limits), w, outputs)
        case None => Plan(Some(PathLimitExceeded), [], [], 0)
        case Some(latencies) => Plan(None, w.out.entries, latencies, w.out.bytes)
  }

  // ---------- the loops ----------

  method MaxInput(vals: seq<u64>, froms: seq<nat>) returns (best: u64)
    requires Below(froms, |vals|)
    ensures best == MaxOver(vals, froms)
  {
    best := 0;
    for k := 0 to |froms|
      invariant best == MaxOver(vals, froms[..k])
    {
      assert froms[..k + 1][..k] == froms[..k];
      best := Max(best, vals[froms[k]]);
    }
    assert froms[..|froms|] == froms;
  }

  method EmitEdges(job: Job, primary: seq<u64>, input: u64, froms: seq<nat>, to: nat, acc: Emission)
    returns (out: Emission)
    requires |primary| == |job.nodes| && Below(froms, |primary|) && to < |job.nodes| && acc.error.None?
    requires forall k :: 0 <= k < |froms| ==> primary[froms[k]] <= input
    ensures out == EmitAll(job, primary, input, froms, to, acc)
  {
    out := acc;
    for k := 0 to |froms|
      invariant out.error.None?
      invariant out == EmitAll(job, primary, input, froms[..k], to, acc)
    {
      EmitNext(job, primary, input, froms, to, acc, k);
      out := EmitPair(job, froms[k], to, input - primary[froms[k]], out);
      if out.error.Some? {
        EmitStuck(job, primary, input, froms, to, acc, k + 1);
        return;
      }
    }
    assert froms[..|froms|] == froms;
  }

  lemma EmitNext(job: Job, primary: seq<u64>, input: u64, froms: seq<nat>, to: nat, acc: Emission, k: nat)
    requires |primary| == |job.nodes| && Below(froms, |primary|) && to < |job.nodes| && k < |froms|
    requires forall k :: 0 <= k < |froms| ==> primary[froms[k]] <= input
    ensures EmitAll(job, primary, input, froms[..k + 1], to, acc) ==
            var before := EmitAll(job, primary, input, froms[..k], to, acc);
            if before.error.Some? then before else EmitPair(job, froms[k], to, input - primary[froms[k]], before)
  {
    assert froms[..k + 1][..k] == froms[..k];
  }

  lemma {:induction false} EmitStuck(job: Job, primary: seq<u64>, input: u64, froms: seq<nat>, to: nat, acc: Emission,
                                     k: nat)
    requires |primary| == |job.nodes| && Below(froms, |primary|) && to < |job.nodes| && k <= |froms|
    requires forall k :: 0 <= k < |froms| ==> primary[froms[k]] <= input
    requires EmitAll(job, primary, input, froms[..k], to, acc).error.Some?
    ensures EmitAll(job, primary, input, froms, to, acc) == EmitAll(job, primary, input, froms[..k], to, acc)
  {
    if k == |froms| {
      assert froms[..k] == froms;
    } else {
      assert froms[..|froms| - 1][..k] == froms[..k];
      EmitStuck(job, primary, input, froms[..|froms| - 1], to, acc, k);
    }
  }

  method Compensate(reaches: bool, primary: seq<u64>, comp: seq<u64>, input: u64, froms: seq<nat>)
    returns (best: Option<u64>)
    requires |comp| == |primary| && Below(froms, |primary|)
    requires forall k :: 0 <= k < |froms| ==> primary[froms[k]] <= input
    ensures best == CompensationOver(reaches, primary, comp, input, froms)
  {
    var largest: u64 := 0;
    for k := 0 to |froms|
      invariant CompensationOver(reaches, primary, comp, input, froms[..k]) == Some(largest)
    {
      assert froms[..k + 1][..k] == froms[..k];
      var local := if reaches then input - primary[froms[k]] else 0;
      if local > MAX_U64 - comp[froms[k]] {
        CompensationStuck(reaches, primary, comp, input, froms, k + 1);
        return None;
      }
      largest := Max(largest, comp[froms[k]] + local);
    }
    assert froms[..|froms|] == froms;
    best := Some(largest);
  }

  lemma {:induction false} CompensationStuck(reaches: bool, primary: seq<u64>, comp: seq<u64>, input: u64,
                                             froms: seq<nat>,
                                             k: nat)
    requires |comp| == |primary| && Below(froms, |primary|) && k <= |froms|
    requires forall k :: 0 <= k < |froms| ==> primary[froms[k]] <= input
    requires CompensationOver(reaches, primary, comp, input, froms[..k]).None?
    ensures CompensationOver(reaches, primary, comp, input, froms).None?
  {
    if k == |froms| {
      assert froms[..k] == froms;
    } else {
      assert froms[..|froms| - 1][..k] == froms[..k];
      CompensationStuck(reaches, primary, comp, input, froms[..|froms| - 1], k);
    }
  }

  method VisitNode(job: Job, w: Walk, v: nat) returns (r: Walk)
    requires job.Valid() && w.Sized(|job.nodes|) && v < |job.nodes| && w.out.error.None?
    ensures r == Visit(job, w, v)
  {
    var froms := job.incoming[v];
    var primaryInput := MaxInput(w.primary, froms);
    var monitorInput := MaxInput(w.monitor, froms);
    MaxOverBound(w.primary, froms);
    r := w;
    if job.reach[v] && |froms| > 1 {
      var out := EmitEdges(job, w.primary, primaryInput, froms, v, w.out);
      r := r.(out := out);
      if out.error.Some? {
        return;
      }
    }
    var compensation := Compensate(job.reach[v], w.primary, w.compensation, primaryInput, froms);
    if compensation.None? {
      return r.(out := r.out.(error := Some(ArithmeticOverflow)));
    }
    r := r.(compensation := r.compensation[v := compensation.value]);
    if job.nodes[v].primaryLatency > MAX_U64 - primaryInput || job.nodes[v].monitorLatency > MAX_U64 - monitorInput {
      return r.(out := r.out.(error := Some(ArithmeticOverflow)));
    }
    r := r.(primary := r.primary[v := primaryInput + job.nodes[v].primaryLatency],
            monitor := r.monitor[v := monitorInput + job.nodes[v].monitorLatency]);
  }

  lemma {:induction false} VisitStuck(job: Job, order: seq<nat>, k: nat)
    requires job.Valid() && Below(order, |job.nodes|) && k <= |order|
    requires VisitAll(job, order[..k]).out.error.Some?
    ensures VisitAll(job, order) == VisitAll(job, order[..k])
  {
    if k == |order| {
      assert order[..k] == order;
    } else {
      assert order[..|order| - 1][..k] == order[..k];
      VisitStuck(job, order[..|order| - 1], k);
    }
  }

  method WalkNodes(job: Job, order: seq<nat>) returns (w: Walk)
    requires job.Valid() && Below(order, |job.nodes|)
    ensures w == VisitAll(job, order)
  {
    w := StartWalk(|job.nodes|);
    for k := 0 to |order|
      invariant w == VisitAll(job, order[..k]) && w.out.error.None?
    {
      assert order[..k + 1][..k] == order[..k];
      w := VisitNode(job, w, order[k]);
      if w.out.error.Some? {
        VisitStuck(job, order, k + 1);
        return;
      }
    }
    assert order[..|order|] == order;
  }

  lemma IndexAgrees(nodes: seq<TopoNode>, index: map<Id, nat>, id: Id)
    requires IsIndexMap(nodes, index)
    ensures id in index <==> Known(nodes, id)
    ensures id in index ==> index[id] == IndexOf(nodes, id)
  {
    if id in index {
      assert IsIndex(nodes, id, index[id]);
    } else {
      forall i: nat | i < |nodes| ensures !IsIndex(nodes, id, i) {
        assert nodes[i].trackId in index;
      }
    }
  }

  method CheckOutputs(nodes: seq<PdcNode>, t: Topo, outputs: seq<PdcOutput>) returns (known: bool)
    requires IsTopo(TopoNodes(nodes), t)
    ensures known == KnownOutputs(nodes, outputs)
  {
    for k := 0 to |outputs|
      invariant forall i :: 0 <= i < k ==> Known(TopoNodes(nodes), outputs[i].trackId)
    {
      IndexAgrees(TopoNodes(nodes), t.index, outputs[k].trackId);
      if outputs[k].trackId !in t.index {
        return false;
      }
    }
    known := true;
  }

  method CollectSeeds(nodes: seq<PdcNode>, t: Topo, outputs: seq<PdcOutput>) returns (seeds: seq<nat>)
    requires IsTopo(TopoNodes(nodes), t) && KnownOutputs(nodes, outputs)
    ensures seeds == Seeds(nodes, outputs, FullPdc)
  {
    seeds := [];
    for k := 0 to |outputs|
      invariant seeds == Seeds(nodes, outputs[..k], FullPdc)
    {
      assert outputs[..k + 1][..k] == outputs[..k];
      IndexAgrees(TopoNodes(nodes), t.index, outputs[k].trackId);
      if outputs[k].policy == FullPdc {
        seeds := seeds + [t.index[outputs[k].trackId]];
      }
    }
    assert outputs[..|outputs|] == outputs;
  }

  method ReportOutputs(job: Job, t: Topo, w: Walk, outputs: seq<PdcOutput>) returns (r: Option<seq<OutputLatency>>)
    requires IsTopo(TopoNodes(job.nodes), t) && w.Sized(|job.nodes|) && KnownOutputs(job.nodes, outputs)
    ensures r == OutputsOf(job, w, outputs)
  {
    var latencies := [];
    for k := 0 to |outputs|
      invariant OutputsOf(job, w, outputs[..k]) == Some(latencies)
    {
      OutputsNext(job, w, outputs, k);
      IndexAgrees(TopoNodes(job.nodes), t.index, outputs[k].trackId);
      var o := OutputOf(w, outputs[k], t.index[outputs[k].trackId]);
      if o.total > job.limits.maxPathSamples {
        OutputsStuck(job, w, outputs, k + 1);
        return None;
      }
      latencies := latencies + [o];
    }
    assert outputs[..|outputs|] == outputs;
    r := Some(latencies);
  }

  lemma OutputsNext(job: Job, w: Walk, outputs: seq<PdcOutput>, k: nat)
    requires w.Sized(|job.nodes|) && KnownOutputs(job.nodes, outputs) && k < |outputs|
    ensures OutputsOf(job, w, outputs[..k + 1]) ==
            match OutputsOf(job, w, outputs[..k])
            case None => None
            case Some(before) =>
              var o := OutputOf(w, outputs[k], IndexOf(TopoNodes(job.nodes), outputs[k].trackId));
              if o.total > job.limits.maxPathSamples then None else Some(before + [o])
  {
    assert outputs[..k + 1][..k] == outputs[..k];
  }

  lemma {:induction false} OutputsStuck(job: Job, w: Walk, outputs: seq<PdcOutput>, k: nat)
    requires w.Sized(|job.nodes|) && KnownOutputs(job.nodes, outputs) && k <= |outputs|
    requires OutputsOf(job, w, outputs[..k]).None?
    ensures OutputsOf(job, w, outputs).None?
  {
    if k == |outputs| {
      assert outputs[..k] == outputs;
    } else {
      assert outputs[..|outputs| - 1][..k] == outputs[..k];
      OutputsStuck(job, w, outputs[..|outputs| - 1], k);
    }
  }

  method PlanPluginDelay(nodes: seq<PdcNode>, outputs: seq<PdcOutput>, limits: Limits) returns (plan: Plan)
    ensures plan == PlanSpec(nodes, outputs, limits)
  {
    var build := BuildTopo(TopoNodes(nodes));
    if build.Failure? {
      var error := match build.error { case DuplicateId => DuplicateTrackId case UnknownDest => UnknownDestination };
      return Plan(Some(error), [], [], 0);
    }
    var t := build.value;
    var known := CheckOutputs(nodes, t, outputs);
    if !known {
      return Plan(Some(UnknownOutput), [], [], 0);
    }
    if !t.Complete() {
      return Plan(Some(Cycle), [], [], 0);
    }
    var seeds := CollectSeeds(nodes, t, outputs);
    var reach := ReverseReach(TopoNodes(nodes), t, seeds);
    var job := Job(nodes, limits, t.incoming, reach);
    assert job == JobOf(nodes, outputs, limits);
    KahnSound(Succ(TopoNodes(nodes)));
    var w := WalkNodes(job, t.order);
    if w.out.error.Some? {
      return Plan(w.out.error, w.out.entries, [], w.out.bytes);
    }
    var latencies := ReportOutputs(job, t, w, outputs);
    if latencies.None? {
      return Plan(Some(PathLimitExceeded), [], [], 0);
    }
    plan := Plan(None, w.out.entries, latencies.value, w.out.bytes);
  }
}
