/** Latency route planner (engine/src/route_planner.cpp). */
module RoutePlanner {
  import opened Words
  import opened Wrappers
  import opened GraphTopo
  import opened PdcPlanner

  // It decides slot by slot whether the low-latency monitor signal may share the primary signal, plans
  // delays in two phases, and derives the transitional plan in which no plugin runs.

  datatype RuntimeState = Active | Degraded | Suspended

  datatype RouteBus = PrimaryBus | MonitorBus

  datatype SlotAction = Dry | DelayDry | Process | DrainParameters | ReusePrimary

  datatype ShadowDisposition = NoShadow | Create | Reuse | Release

  datatype SlotSpec = SlotSpec(
    instanceId: nat,
    bypassed: bool, primaryAvailable: bool, primaryLatencyKnown: bool, primaryLatency: u64, primaryState: RuntimeState,
    monitorBypassed: bool, shadowAvailable: bool, shadowLatencyKnown: bool, shadowLatency: u64,
    shadowState: RuntimeState)

  datatype TrackSpec = TrackSpec(
    trackId: Id, muted: bool, isOutput: bool, policy: OutputLatencyPolicy, slots: seq<SlotSpec>,
    dests: seq<Id>, sidechainDests: seq<Id>, usesInputBus: bool)

  datatype PathPlan = PathPlan(action: SlotAction, bus: RouteBus, dryDelay: u64)

  datatype SlotPlan = SlotPlan(instanceId: nat, primary: PathPlan, monitor: PathPlan, shadow: ShadowDisposition)

  datatype SendPlan = SendPlan(toId: Id, primaryBus: RouteBus, monitorBus: RouteBus, delay: u64)

  datatype TrackPlan = TrackPlan(
    trackId: Id, monitorRequired: bool, monitorDiverged: bool, muted: bool, slots: seq<SlotPlan>,
    sends: seq<SendPlan>, sidechainSends: seq<SendPlan>, outputBus: RouteBus)

  datatype RoutePlan = RoutePlan(latency: Plan, tracks: seq<TrackPlan>, monitorVariantsNeeded: bool) {
    predicate Ok() { latency.Ok() }
  }

  predicate PrimaryProcesses(slot: SlotSpec) {
    !slot.bypassed && slot.primaryAvailable && slot.primaryState != Suspended
  }

  function PrimaryLatency(slot: SlotSpec): u64 {
    if PrimaryProcesses(slot) && slot.primaryLatencyKnown then slot.primaryLatency else 0
  }

  function AddLatency(value: u64, total: u64): Option<u64> {
    if value > MAX_U64 - total then None else Some(total + value)
  }

  // ---------- one slot ----------

  // The plan of one slot, whether the monitor has diverged after it, and the monitor latency it adds.
  datatype SlotStep = SlotStep(plan: SlotPlan, diverged: bool, added: u64)

  function PlanPrimary(slot: SlotSpec): PathPlan {
    if PrimaryProcesses(slot)
    then PathPlan(Process, PrimaryBus, if slot.primaryLatencyKnown then slot.primaryLatency else 0)
    else if !slot.bypassed && slot.primaryAvailable && slot.primaryState == Suspended
    then PathPlan(DrainParameters, PrimaryBus, 0)
    else PathPlan(Dry, PrimaryBus, 0)
  }

  function PlanSlot(slot: SlotSpec, required: bool, diverged: bool): SlotStep {
    var primary := PlanPrimary(slot);
    var unused := if slot.shadowAvailable then Release else NoShadow;
    var reuse := PathPlan(ReusePrimary, PrimaryBus, 0);
    var dry := PathPlan(Dry, MonitorBus, 0);
    if !required then
      SlotStep(SlotPlan(slot.instanceId, primary, reuse, unused), diverged, 0)
    else if primary.action != Process then
      SlotStep(SlotPlan(slot.instanceId, primary, if diverged then dry else reuse, unused), diverged, 0)
    else if !diverged && !slot.monitorBypassed then
      SlotStep(SlotPlan(slot.instanceId, primary, reuse, unused), diverged,
               if slot.primaryLatencyKnown then slot.primaryLatency else 0)
    else if slot.monitorBypassed then
      SlotStep(SlotPlan(slot.instanceId, primary, dry, unused), true, 0)
    else if !slot.shadowAvailable then
      SlotStep(SlotPlan(slot.instanceId, primary, dry, Create), true, 0)
    else if slot.shadowState == Active then
      var samples: u64 := if slot.shadowLatencyKnown then slot.shadowLatency else 0;
      SlotStep(SlotPlan(slot.instanceId, primary, PathPlan(Process, MonitorBus, samples), Reuse), true, samples)
    else
      SlotStep(SlotPlan(slot.instanceId, primary, PathPlan(DrainParameters, MonitorBus, 0), Reuse), true, 0)
  }

  // ---------- one track ----------

  // The slots planned so far; `latency` is None once the monitor sum overflowed.
  datatype Chain = Chain(slots: seq<SlotPlan>, diverged: bool, latency: Option<u64>)

  function PlanChain(slots: seq<SlotSpec>, required: bool, diverged: bool): Chain {
    if slots == [] then Chain([], diverged, Some(0))
    else
      var before := PlanChain(slots[..|slots| - 1], required, diverged);
      match before.latency
      case None => before
      case Some(sum) =>
        var step := PlanSlot(slots[|slots| - 1], required, before.diverged);
        Chain(before.slots + [step.plan], step.diverged, AddLatency(step.added, sum))
  }

  function PrimaryChain(slots: seq<SlotSpec>): Option<u64> {
    if slots == [] then Some(0)
    else
      match PrimaryChain(slots[..|slots| - 1])
      case None => None
      case Some(sum) => AddLatency(PrimaryLatency(slots[|slots| - 1]), sum)
  }

  // The planned delay of the edge from -> to, whichever kind its first entry has.
  function FindDelay(edges: seq<EdgeDelay>, from: Id, to: Id): u64 {
    if edges == [] then 0
    else if edges[0].fromId == from && edges[0].toId == to then edges[0].delay
    else FindDelay(edges[1..], from, to)
  }

  function Sends(edges: seq<EdgeDelay>, from: Id, dests: seq<Id>, monitorBus: RouteBus): seq<SendPlan> {
    seq(|dests|, k requires 0 <= k < |dests| =>
      SendPlan(dests[k], PrimaryBus, monitorBus, FindDelay(edges, from, dests[k])))
  }

  // ---------- all tracks ----------

  // The decisions of the walk: `incoming[i]` says some monitor input of i has diverged.
  datatype Routing = Routing(
    tracks: seq<TrackPlan>, chain: seq<u64>, incoming: seq<bool>, variants: bool, failed: bool)
  {
    predicate Sized(n: nat) { |tracks| == |chain| == |incoming| == n }
  }

  function TrackNodes(tracks: seq<TrackSpec>): seq<TopoNode> {
    seq(|tracks|, i requires 0 <= i < |tracks| =>
      TopoNode(tracks[i].trackId, tracks[i].dests, tracks[i].sidechainDests))
  }

  predicate KnownIds(tracks: seq<TrackSpec>, index: map<Id, nat>, ids: seq<Id>) {
    forall k :: 0 <= k < |ids| ==> ids[k] in index && index[ids[k]] < |tracks|
  }

  // Dests whose monitor input diverges because the sender's did, or because the edge is delayed.
  function MarkDests(tracks: seq<TrackSpec>, index: map<Id, nat>, reach: seq<bool>, edges: seq<EdgeDelay>,
                     from: Id, diverged: bool, dests: seq<Id>, incoming: seq<bool>): (r: seq<bool>)
    requires KnownIds(tracks, index, dests) && |reach| == |incoming| == |tracks|
    ensures |r| == |tracks|
  {
    if dests == [] then incoming
    else
      var before := MarkDests(tracks, index, reach, edges, from, diverged, dests[..|dests| - 1], incoming);
      var id := dests[|dests| - 1];
      var dest := index[id];
      if reach[dest] && tracks[dest].usesInputBus && (diverged || FindDelay(edges, from, id) > 0)
      then before[dest := true] else before
  }

  function RouteTrack(tracks: seq<TrackSpec>, index: map<Id, nat>, reach: seq<bool>, edges: seq<EdgeDelay>,
                      r: Routing, i: nat): (s: Routing)
    requires |reach| == |tracks| && r.Sized(|tracks|) && i < |tracks| && KnownIds(tracks, index, tracks[i].dests)
    ensures s.Sized(|tracks|)
  {
    if r.failed then r
    else
      var track := tracks[i];
      var required := reach[i];
      var chain := PlanChain(track.slots, required, required && track.usesInputBus && r.incoming[i]);
      match chain.latency
      case None => r.(failed := true)
      case Some(samples) =>
        var plan := TrackPlan(
          track.trackId, required, chain.diverged, track.muted, chain.slots,
          Sends(edges, track.trackId, track.dests, MonitorBus),
          Sends(edges, track.trackId, track.sidechainDests, PrimaryBus),
          if track.policy == LowLatency then MonitorBus else PrimaryBus);
        Routing(r.tracks[i := plan], r.chain[i := samples],
                MarkDests(tracks, index, reach, edges, track.trackId, chain.diverged, track.dests, r.incoming),
                r.variants || chain.diverged, false)
  }

  function RouteAll(tracks: seq<TrackSpec>, index: map<Id, nat>, reach: seq<bool>, edges: seq<EdgeDelay>,
                    order: seq<nat>): (r: Routing)
    requires |reach| == |tracks| && Below(order, |tracks|)
    requires forall i :: 0 <= i < |tracks| ==> KnownIds(tracks, index, tracks[i].dests)
    ensures r.Sized(|tracks|)
  {
    if order == [] then StartRouting(|tracks|)
    else
      var before := RouteAll(tracks, index, reach, edges, order[..|order| - 1]);
      RouteTrack(tracks, index, reach, edges, before, order[|order| - 1])
  }

  function StartRouting(n: nat): (r: Routing)
    ensures r.Sized(n)
  {
    Routing(seq(n, _ => TrackPlan(0, false, false, false, [], [], [], PrimaryBus)),
            seq(n, _ => 0), seq(n, _ => false), false, false)
  }

  // ---------- the plan ----------

  predicate PrimarySums(tracks: seq<TrackSpec>) {
    forall i :: 0 <= i < |tracks| ==> PrimaryChain(tracks[i].slots).Some?
  }

  function LatencyNodes(tracks: seq<TrackSpec>, monitor: seq<u64>): (nodes: seq<PdcNode>)
    requires PrimarySums(tracks) && |monitor| == |tracks|
    ensures |nodes| == |tracks|
  {
    seq(|tracks|, i requires 0 <= i < |tracks| =>
      PdcNode(tracks[i].trackId, PrimaryChain(tracks[i].slots).value, monitor[i], tracks[i].dests,
              tracks[i].sidechainDests))
  }

  function LatencyOutputs(tracks: seq<TrackSpec>): seq<PdcOutput> {
    if tracks == [] then []
    else
      var last := tracks[|tracks| - 1];
      LatencyOutputs(tracks[..|tracks| - 1]) + if last.isOutput then [PdcOutput(last.trackId, last.policy)] else []
  }

  // The low-latency outputs.
  function LowSeeds(tracks: seq<TrackSpec>): (r: seq<nat>)
    ensures Below(r, |tracks|)
    ensures forall i: nat :: i in r <==> i < |tracks| && tracks[i].isOutput && tracks[i].policy == LowLatency
  {
    if tracks == [] then []
    else
      var n := |tracks| - 1;
      LowSeeds(tracks[..n]) + if tracks[n].isOutput && tracks[n].policy == LowLatency then [n] else []
  }

  function Zeros(n: nat): (r: seq<u64>)
    ensures |r| == n
  {
    seq(n, _ => 0)
  }

  ghost function FirstPhase(tracks: seq<TrackSpec>, limits: Limits): Plan
    requires PrimarySums(tracks)
  {
    PlanSpec(LatencyNodes(tracks, Zeros(|tracks|)), LatencyOutputs(tracks), limits)
  }

  ghost function IndexMap(nodes: seq<TopoNode>): (index: map<Id, nat>)
    requires UniqueIds(nodes)
    ensures IsIndexMap(nodes, index)
  {
    var ids := set i | 0 <= i < |nodes| :: nodes[i].trackId;
    forall id | id in ids ensures Known(nodes, id) {
      var i :| 0 <= i < |nodes| && nodes[i].trackId == id;
      assert IsIndex(nodes, id, i);
    }
    map id | id in ids :: IndexOf(nodes, id)
  }

  lemma RoutableIds(tracks: seq<TrackSpec>, index: map<Id, nat>)
    requires IsIndexMap(TrackNodes(tracks), index) && KnownTargets(TrackNodes(tracks))
    ensures forall i :: 0 <= i < |tracks| ==> KnownIds(tracks, index, tracks[i].dests)
  {
    var nodes := TrackNodes(tracks);
    forall i, k | 0 <= i < |tracks| && 0 <= k < |tracks[i].dests|
      ensures tracks[i].dests[k] in index && index[tracks[i].dests[k]] < |tracks|
    {
      assert RowKnown(nodes, Targets(nodes[i]));
      assert Targets(nodes[i])[k] == tracks[i].dests[k];
      IndexAgrees(nodes, index, tracks[i].dests[k]);
    }
  }

  // What a successful first phase says about the ids.
  lemma FirstPhaseIds(tracks: seq<TrackSpec>, monitor: seq<u64>, outputs: seq<PdcOutput>, limits: Limits)
    requires PrimarySums(tracks) && |monitor| == |tracks|
    requires PlanSpec(LatencyNodes(tracks, monitor), outputs, limits).Ok()
    ensures UniqueIds(TrackNodes(tracks)) && KnownTargets(TrackNodes(tracks))
    ensures |KahnOrder(Succ(TrackNodes(tracks)))| == |tracks|
  {
    assert TopoNodes(LatencyNodes(tracks, monitor)) == TrackNodes(tracks);
  }

  ghost function Decisions(tracks: seq<TrackSpec>, edges: seq<EdgeDelay>): (r: Routing)
    requires UniqueIds(TrackNodes(tracks)) && KnownTargets(TrackNodes(tracks))
    ensures r.Sized(|tracks|)
  {
    var nodes := TrackNodes(tracks);
    var g := Succ(nodes);
    RoutableIds(tracks, IndexMap(nodes));
    KahnSound(g);
    RouteAll(tracks, IndexMap(nodes), Reach(g, LowSeeds(tracks)), edges, KahnOrder(g))
  }

  ghost function PlanRoutesSpec(tracks: seq<TrackSpec>, limits: Limits): RoutePlan {
    if !PrimarySums(tracks) then RoutePlan(Plan(Some(ArithmeticOverflow), [], [], 0), [], false)
    else
      var primary := FirstPhase(tracks, limits);
      if !primary.Ok() then RoutePlan(primary, [], false)
      else
        FirstPhaseIds(tracks, Zeros(|tracks|), LatencyOutputs(tracks), limits);
        var r := Decisions(tracks, primary.edgeDelays);
        if r.failed then RoutePlan(primary.(error := Some(ArithmeticOverflow)), [], r.variants)
        else
          RoutePlan(PlanSpec(LatencyNodes(tracks, r.chain), LatencyOutputs(tracks), limits), r.tracks, r.variants)
  }

  // ---------- the loops ----------

  method SumPrimary(slots: seq<SlotSpec>) returns (sum: Option<u64>)
    ensures sum == PrimaryChain(slots)
  {
    var latency: u64 := 0;
    for k := 0 to |slots|
      invariant PrimaryChain(slots[..k]) == Some(latency)
    {
      assert slots[..k + 1][..k] == slots[..k];
      var next := AddLatency(PrimaryLatency(slots[k]), latency);
      if next.None? {
        PrimaryStuck(slots, k + 1);
        return None;
      }
      latency := next.value;
    }
    assert slots[..|slots|] == slots;
    sum := Some(latency);
  }

  lemma {:induction false} PrimaryStuck(slots: seq<SlotSpec>, k: nat)
    requires k <= |slots| && PrimaryChain(slots[..k]).None?
    ensures PrimaryChain(slots).None?
  {
    if k == |slots| {
      assert slots[..k] == slots;
    } else {
      assert slots[..|slots| - 1][..k] == slots[..k];
      PrimaryStuck(slots[..|slots| - 1], k);
    }
  }

  method CollectLatencies(tracks: seq<TrackSpec>) returns (nodes: Option<seq<PdcNode>>, outputs: seq<PdcOutput>)
    ensures nodes.Some? <==> PrimarySums(tracks)
    ensures nodes.Some? ==> nodes.value == LatencyNodes(tracks, Zeros(|tracks|)) && outputs == LatencyOutputs(tracks)
  {
    var list: seq<PdcNode> := [];
    outputs := [];
    for i := 0 to |tracks|
      invariant |list| == i && forall k :: 0 <= k < i ==>
        && PrimaryChain(tracks[k].slots).Some?
        && list[k] == PdcNode(tracks[k].trackId, PrimaryChain(tracks[k].slots).value, 0, tracks[k].dests,
                              tracks[k].sidechainDests)
      invariant outputs == LatencyOutputs(tracks[..i])
    {
      var track := tracks[i];
      var latency := SumPrimary(track.slots);
      if latency.None? {
        return None, outputs;
      }
      list := list + [PdcNode(track.trackId, latency.value, 0, track.dests, track.sidechainDests)];
      assert tracks[..i + 1][..i] == tracks[..i];
      if track.isOutput {
        outputs := outputs + [PdcOutput(track.trackId, track.policy)];
      }
    }
    assert tracks[..|tracks|] == tracks;
    nodes := Some(list);
  }

  method CollectLowSeeds(tracks: seq<TrackSpec>) returns (seeds: seq<nat>)
    ensures seeds == LowSeeds(tracks)
  {
    seeds := [];
    for i := 0 to |tracks|
      invariant seeds == LowSeeds(tracks[..i])
    {
      assert tracks[..i + 1][..i] == tracks[..i];
      if tracks[i].isOutput && tracks[i].policy == LowLatency {
        seeds := seeds + [i];
      }
    }
    assert tracks[..|tracks|] == tracks;
  }

  method PlanSlots(slots: seq<SlotSpec>, required: bool, diverged0: bool) returns (chain: Chain)
    ensures chain == PlanChain(slots, required, diverged0)
  {
    chain := Chain([], diverged0, Some(0));
    for k := 0 to |slots|
      invariant chain == PlanChain(slots[..k], required, diverged0) && chain.latency.Some?
    {
      assert slots[..k + 1][..k] == slots[..k];
      var step := PlanSlot(slots[k], required, chain.diverged);
      chain := Chain(chain.slots + [step.plan], step.diverged, AddLatency(step.added, chain.latency.value));
      if chain.latency.None? {
        ChainStuck(slots, required, diverged0, k + 1);
        return;
      }
    }
    assert slots[..|slots|] == slots;
  }

  lemma {:induction false} ChainStuck(slots: seq<SlotSpec>, required: bool, diverged: bool, k: nat)
    requires k <= |slots| && PlanChain(slots[..k], required, diverged).latency.None?
    ensures PlanChain(slots, required, diverged) == PlanChain(slots[..k], required, diverged)
  {
    if k == |slots| {
      assert slots[..k] == slots;
    } else {
      assert slots[..|slots| - 1][..k] == slots[..k];
      ChainStuck(slots[..|slots| - 1], required, diverged, k);
    }
  }

  method SendDests(tracks: seq<TrackSpec>, index: map<Id, nat>, reach: seq<bool>, edges: seq<EdgeDelay>,
                   from: Id, diverged: bool, dests: seq<Id>, incoming0: seq<bool>)
    returns (sends: seq<SendPlan>, incoming: seq<bool>)
    requires KnownIds(tracks, index, dests) && |reach| == |incoming0| == |tracks|
    ensures sends == Sends(edges, from, dests, MonitorBus)
    ensures incoming == MarkDests(tracks, index, reach, edges, from, diverged, dests, incoming0)
  {
    sends, incoming := [], incoming0;
    for k := 0 to |dests|
      invariant sends == Sends(edges, from, dests[..k], MonitorBus)
      invariant incoming == MarkDests(tracks, index, reach, edges, from, diverged, dests[..k], incoming0)
    {
      assert dests[..k + 1][..k] == dests[..k];
      var delay := FindDelay(edges, from, dests[k]);
      sends := sends + [SendPlan(dests[k], PrimaryBus, MonitorBus, delay)];
      var dest := index[dests[k]];
      if reach[dest] && tracks[dest].usesInputBus && (diverged || delay > 0) {
        incoming := incoming[dest := true];
      }
    }
    assert dests[..|dests|] == dests;
  }

  method SendSidechains(edges: seq<EdgeDelay>, from: Id, dests: seq<Id>) returns (sends: seq<SendPlan>)
    ensures sends == Sends(edges, from, dests, PrimaryBus)
  {
    sends := [];
    for k := 0 to |dests|
      invariant sends == Sends(edges, from, dests[..k], PrimaryBus)
    {
      sends := sends + [SendPlan(dests[k], PrimaryBus, PrimaryBus, FindDelay(edges, from, dests[k]))];
    }
    assert dests[..|dests|] == dests;
  }

  method RouteOne(tracks: seq<TrackSpec>, index: map<Id, nat>, reach: seq<bool>, edges: seq<EdgeDelay>,
                  r0: Routing, i: nat)
    returns (r: Routing)
    requires |reach| == |tracks| && r0.Sized(|tracks|) && i < |tracks| && KnownIds(tracks, index, tracks[i].dests)
    requires !r0.failed
    ensures r == RouteTrack(tracks, index, reach, edges, r0, i)
  {
    var track := tracks[i];
    var required := reach[i];
    var chain := PlanSlots(track.slots, required, required && track.usesInputBus && r0.incoming[i]);
    if chain.latency.None? {
      return r0.(failed := true);
    }
    var sends, incoming :=
      SendDests(tracks, index, reach, edges, track.trackId, chain.diverged, track.dests, r0.incoming);
    var sidechainSends := SendSidechains(edges, track.trackId, track.sidechainDests);
    var plan := TrackPlan(track.trackId, required, chain.diverged, track.muted, chain.slots, sends, sidechainSends,
                          if track.policy == LowLatency then MonitorBus else PrimaryBus);
    r := Routing(r0.tracks[i := plan], r0.chain[i := chain.latency.value], incoming,
                 r0.variants || chain.diverged, false);
  }

  method RouteWalk(tracks: seq<TrackSpec>, index: map<Id, nat>, reach: seq<bool>, edges: seq<EdgeDelay>,
                   order: seq<nat>)
    returns (r: Routing)
    requires |reach| == |tracks| && Below(order, |tracks|)
    requires forall i :: 0 <= i < |tracks| ==> KnownIds(tracks, index, tracks[i].dests)
    ensures r == RouteAll(tracks, index, reach, edges, order)
  {
    r := StartRouting(|tracks|);
    for k := 0 to |order|
      invariant r == RouteAll(tracks, index, reach, edges, order[..k]) && !r.failed
    {
      assert order[..k + 1][..k] == order[..k];
      r := RouteOne(tracks, index, reach, edges, r, order[k]);
      if r.failed {
        RouteStuck(tracks, index, reach, edges, order, k + 1);
        return;
      }
    }
    assert order[..|order|] == order;
  }

  lemma {:induction false} RouteStuck(tracks: seq<TrackSpec>, index: map<Id, nat>, reach: seq<bool>,
                                      edges: seq<EdgeDelay>,
                                      order: seq<nat>, k: nat)
    requires |reach| == |tracks| && Below(order, |tracks|) && k <= |order|
    requires forall i :: 0 <= i < |tracks| ==> KnownIds(tracks, index, tracks[i].dests)
    requires RouteAll(tracks, index, reach, edges, order[..k]).failed
    ensures RouteAll(tracks, index, reach, edges, order) == RouteAll(tracks, index, reach, edges, order[..k])
  {
    if k == |order| {
      assert order[..k] == order;
    } else {
      assert order[..|order| - 1][..k] == order[..k];
      RouteStuck(tracks, index, reach, edges, order[..|order| - 1], k);
    }
  }

  lemma IndexMapsEqual(nodes: seq<TopoNode>, a: map<Id, nat>, b: map<Id, nat>)
    requires IsIndexMap(nodes, a) && IsIndexMap(nodes, b)
    ensures a == b
  {
    forall id: Id ensures id in a <==> id in b {
      IndexAgrees(nodes, a, id);
      IndexAgrees(nodes, b, id);
    }
    forall id | id in a ensures a[id] == b[id] {
      IndexAgrees(nodes, a, id);
      IndexAgrees(nodes, b, id);
    }
  }

  method PlanRoutes(tracks: seq<TrackSpec>, limits: Limits) returns (plan: RoutePlan)
    ensures plan == PlanRoutesSpec(tracks, limits)
  {
    var nodes, outputs := CollectLatencies(tracks);
    if nodes.None? {
      return RoutePlan(Plan(Some(ArithmeticOverflow), [], [], 0), [], false);
    }
    var primary := PlanPluginDelay(nodes.value, outputs, limits);
    if !primary.Ok() {
      return RoutePlan(primary, [], false);
    }
    FirstPhaseIds(tracks, Zeros(|tracks|), LatencyOutputs(tracks), limits);
    var r := Decide(tracks, primary.edgeDelays);
    if r.failed {
      return RoutePlan(primary.(error := Some(ArithmeticOverflow)), [], r.variants);
    }
    var full := WithMonitor(tracks, nodes.value, r.chain);
    var latency := PlanPluginDelay(full, outputs, limits);
    plan := RoutePlan(latency, r.tracks, r.variants);
  }

  // The topology was validated by the first phase, so building it again succeeds.
  method Decide(tracks: seq<TrackSpec>, edges: seq<EdgeDelay>) returns (r: Routing)
    requires UniqueIds(TrackNodes(tracks)) && KnownTargets(TrackNodes(tracks))
    ensures r == Decisions(tracks, edges)
  {
    var nodes := TrackNodes(tracks);
    var build := BuildTopo(nodes);
    var t := build.value;
    IndexMapsEqual(nodes, t.index, IndexMap(nodes));
    var seeds := CollectLowSeeds(tracks);
    var reach := ReverseReach(nodes, t, seeds);
    assert reach == Reach(Succ(nodes), LowSeeds(tracks));
    RoutableIds(tracks, t.index);
    KahnSound(Succ(nodes));
    r := RouteWalk(tracks, t.index, reach, edges, t.order);
  }

  method WithMonitor(tracks: seq<TrackSpec>, nodes: seq<PdcNode>, chain: seq<u64>) returns (full: seq<PdcNode>)
    requires PrimarySums(tracks) && |chain| == |tracks| && nodes == LatencyNodes(tracks, Zeros(|tracks|))
    ensures full == LatencyNodes(tracks, chain)
  {
    full := nodes;
    for i := 0 to |nodes|
      invariant |full| == |nodes|
      invariant forall k :: 0 <= k < |nodes| ==>
        full[k] == if k < i then nodes[k].(monitorLatency := chain[k]) else nodes[k]
    {
      full := full[i := full[i].(monitorLatency := chain[i])];
    }
  }

  // ---------- suspension ----------

  function SuspendPath(path: PathPlan): PathPlan {
    if path.action == Process then path.(action := DelayDry)
    else if path.action != ReusePrimary then PathPlan(Dry, path.bus, 0)
    else path
  }

  function SuspendSlot(slot: SlotPlan): SlotPlan {
    slot.(primary := SuspendPath(slot.primary), monitor := SuspendPath(slot.monitor))
  }

  function SuspendTrack(track: TrackPlan): TrackPlan {
    track.(slots := seq(|track.slots|, k requires 0 <= k < |track.slots| => SuspendSlot(track.slots[k])))
  }

  function SuspensionSpec(active: RoutePlan): RoutePlan {
    active.(tracks := seq(|active.tracks|, i requires 0 <= i < |active.tracks| => SuspendTrack(active.tracks[i])))
  }

  method PlanRouteSuspension(active: RoutePlan) returns (plan: RoutePlan)
    ensures plan == SuspensionSpec(active)
  {
    plan := active;
    for i := 0 to |active.tracks|
      invariant plan.(tracks := active.tracks) == active && |plan.tracks| == |active.tracks|
      invariant forall k :: 0 <= k < |active.tracks| ==>
        plan.tracks[k] == if k < i then SuspendTrack(active.tracks[k]) else active.tracks[k]
    {
      var slots := active.tracks[i].slots;
      for s := 0 to |slots|
        invariant |slots| == |active.tracks[i].slots|
        invariant forall k :: 0 <= k < |slots| ==>
          slots[k] == if k < s then SuspendSlot(active.tracks[i].slots[k]) else active.tracks[i].slots[k]
      {
        slots := slots[s := slots[s].(primary := SuspendPath(slots[s].primary),
                                      monitor := SuspendPath(slots[s].monitor))];
      }
      assert slots == SuspendTrack(active.tracks[i]).slots;
      plan := plan.(tracks := plan.tracks[i := plan.tracks[i].(slots := slots)]);
    }
  }
}
