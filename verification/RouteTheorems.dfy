/**
 Properties of a successful route plan: both planning phases agree on delays, the plan of every
 track is the plan of its chain, monitor sums mean what the plan runs, and the transitional plan
 without plugins keeps the timing.
 */
module RouteTheorems {
  import opened Words
  import opened Wrappers
  import opened GraphTopo
  import opened PdcPlanner
  import opened PdcTheorems
  import opened RoutePlanner

  // ---------- the two planning phases ----------

  ghost predicate SameButMonitor(a: seq<PdcNode>, b: seq<PdcNode>) {
    |a| == |b| && forall i :: 0 <= i < |a| ==> b[i] == a[i].(monitorLatency := b[i].monitorLatency)
  }

  ghost predicate SameJob(a: Job, b: Job) {
    SameButMonitor(a.nodes, b.nodes) && a.limits == b.limits && a.incoming == b.incoming && a.reach == b.reach
  }

  lemma {:induction false} EmitAllSame(a: Job, b: Job, primary: seq<u64>, input: u64, froms: seq<nat>, to: nat,
                                       acc: Emission)
    requires SameJob(a, b) && |primary| == |a.nodes| && Below(froms, |primary|) && to < |a.nodes|
    requires forall k :: 0 <= k < |froms| ==> primary[froms[k]] <= input
    ensures EmitAll(a, primary, input, froms, to, acc) == EmitAll(b, primary, input, froms, to, acc)
  {
    if froms != [] {
      EmitAllSame(a, b, primary, input, froms[..|froms| - 1], to, acc);
    }
  }

  // Everything but the monitor latencies agrees.
  ghost predicate SameWalk(x: Walk, y: Walk) {
    x.primary == y.primary && x.compensation == y.compensation && x.out == y.out
  }

  lemma VisitSame(a: Job, b: Job, x: Walk, y: Walk, v: nat)
    requires SameJob(a, b) && a.Valid() && b.Valid() && v < |a.nodes|
    requires x.Sized(|a.nodes|) && y.Sized(|a.nodes|) && SameWalk(x, y)
    requires Visit(a, x, v).out.error.None? && Visit(b, y, v).out.error.None?
    ensures SameWalk(Visit(a, x, v), Visit(b, y, v))
  {
    EmitAllSame(a, b, x.primary, Input(a, x.primary, v), a.incoming[v], v, x.out);
  }

  lemma {:induction false} WalkSame(a: Job, b: Job, order: seq<nat>)
    requires SameJob(a, b) && a.Valid() && b.Valid() && Below(order, |a.nodes|)
    requires VisitAll(a, order).out.error.None? && VisitAll(b, order).out.error.None?
    ensures SameWalk(VisitAll(a, order), VisitAll(b, order))
  {
    if order != [] {
      var seen, v := order[..|order| - 1], order[|order| - 1];
      WalkSame(a, b, seen);
      VisitSame(a, b, VisitAll(a, seen), VisitAll(b, seen), v);
    }
  }

  lemma {:induction false} SeedsSame(a: seq<PdcNode>, b: seq<PdcNode>, outputs: seq<PdcOutput>,
                                     policy: OutputLatencyPolicy)
    requires TopoNodes(a) == TopoNodes(b) && KnownOutputs(a, outputs)
    ensures KnownOutputs(b, outputs) && Seeds(a, outputs, policy) == Seeds(b, outputs, policy)
  {
    if outputs != [] {
      SeedsSame(a, b, outputs[..|outputs| - 1], policy);
    }
  }

  lemma PhasesSame(a: seq<PdcNode>, b: seq<PdcNode>, outputs: seq<PdcOutput>, limits: Limits)
    requires SameButMonitor(a, b)
    requires PlanSpec(a, outputs, limits).Ok() && PlanSpec(b, outputs, limits).Ok()
    ensures PlanSpec(a, outputs, limits).edgeDelays == PlanSpec(b, outputs, limits).edgeDelays
    ensures PlanSpec(a, outputs, limits).bufferBytes == PlanSpec(b, outputs, limits).bufferBytes
  {
    assert TopoNodes(a) == TopoNodes(b);
    PlanSolved(a, outputs, limits);
    PlanSolved(b, outputs, limits);
    SeedsSame(a, b, outputs, FullPdc);
    KahnSound(Succ(TopoNodes(a)));
    WalkSame(JobOf(a, outputs, limits), JobOf(b, outputs, limits), KahnOrder(Succ(TopoNodes(a))));
  }

  // What a successful plan is made of.
  lemma PlanParts(tracks: seq<TrackSpec>, limits: Limits)
    requires PlanRoutesSpec(tracks, limits).Ok()
    ensures PrimarySums(tracks) && FirstPhase(tracks, limits).Ok()
    ensures UniqueIds(TrackNodes(tracks)) && KnownTargets(TrackNodes(tracks))
    ensures |KahnOrder(Succ(TrackNodes(tracks)))| == |tracks|
    ensures var r := Decisions(tracks, FirstPhase(tracks, limits).edgeDelays);
      && !r.failed
      && PlanRoutesSpec(tracks, limits) ==
           RoutePlan(PlanSpec(LatencyNodes(tracks, r.chain), LatencyOutputs(tracks), limits), r.tracks, r.variants)
  {
    FirstPhaseIds(tracks, Zeros(|tracks|), LatencyOutputs(tracks), limits);
  }

  // The delays and the memory of the final plan are those the routing decisions were made with.
  lemma TwoPhaseAgreement(tracks: seq<TrackSpec>, limits: Limits)
    requires PlanRoutesSpec(tracks, limits).Ok()
    ensures PrimarySums(tracks)
    ensures PlanRoutesSpec(tracks, limits).latency.edgeDelays == FirstPhase(tracks, limits).edgeDelays
    ensures PlanRoutesSpec(tracks, limits).latency.bufferBytes == FirstPhase(tracks, limits).bufferBytes
  {
    PlanParts(tracks, limits);
    var r := Decisions(tracks, FirstPhase(tracks, limits).edgeDelays);
    LatencyNodesSame(tracks, r.chain);
    PhasesSame(LatencyNodes(tracks, Zeros(|tracks|)), LatencyNodes(tracks, r.chain), LatencyOutputs(tracks), limits);
  }

  lemma LatencyNodesSame(tracks: seq<TrackSpec>, monitor: seq<u64>)
    requires PrimarySums(tracks) && |monitor| == |tracks|
    ensures SameButMonitor(LatencyNodes(tracks, Zeros(|tracks|)), LatencyNodes(tracks, monitor))
  {
  }

  // ---------- the plan of one track ----------

  // The plan of track i when its monitor input had diverged or not.
  function TrackPlanOf(tracks: seq<TrackSpec>, reach: seq<bool>, edges: seq<EdgeDelay>, i: nat,
                       diverged: bool): TrackPlan
    requires |reach| == |tracks| && i < |tracks|
  {
    var track := tracks[i];
    var chain := PlanChain(track.slots, reach[i], diverged);
    TrackPlan(track.trackId, reach[i], chain.diverged, track.muted, chain.slots,
              Sends(edges, track.trackId, track.dests, MonitorBus),
              Sends(edges, track.trackId, track.sidechainDests, PrimaryBus),
              if track.policy == LowLatency then MonitorBus else PrimaryBus)
  }

  ghost predicate PlannedAs(tracks: seq<TrackSpec>, reach: seq<bool>, edges: seq<EdgeDelay>, r: Routing, i: nat,
                            diverged: bool)
    requires |reach| == |tracks| && r.Sized(|tracks|) && i < |tracks|
  {
    && r.tracks[i] == TrackPlanOf(tracks, reach, edges, i, diverged)
    && PlanChain(tracks[i].slots, reach[i], diverged).latency == Some(r.chain[i])
  }

  lemma {:induction false} TrackPlanned(tracks: seq<TrackSpec>, index: map<Id, nat>, reach: seq<bool>,
                                        edges: seq<EdgeDelay>,
                                        order: seq<nat>, i: nat)
    returns (diverged: bool)
    requires |reach| == |tracks| && Below(order, |tracks|)
    requires forall i :: 0 <= i < |tracks| ==> KnownIds(tracks, index, tracks[i].dests)
    requires !RouteAll(tracks, index, reach, edges, order).failed && i in order
    ensures i < |tracks| && PlannedAs(tracks, reach, edges, RouteAll(tracks, index, reach, edges, order), i, diverged)
  {
    var last, seen := order[|order| - 1], order[..|order| - 1];
    var before := RouteAll(tracks, index, reach, edges, seen);
    if i == last {
      diverged := reach[i] && tracks[i].usesInputBus && before.incoming[i];
    } else {
      assert i in seen;
      diverged := TrackPlanned(tracks, index, reach, edges, seen, i);
    }
  }

  lemma PlanOfTrack(tracks: seq<TrackSpec>, limits: Limits, i: nat) returns (diverged: bool)
    requires PlanRoutesSpec(tracks, limits).Ok() && i < |tracks|
    ensures PrimarySums(tracks) && |PlanRoutesSpec(tracks, limits).tracks| == |tracks|
    ensures var edges := FirstPhase(tracks, limits).edgeDelays;
      && UniqueIds(TrackNodes(tracks)) && KnownTargets(TrackNodes(tracks))
      && PlannedAs(tracks, Reach(Succ(TrackNodes(tracks)), LowSeeds(tracks)), edges, Decisions(tracks, edges),
                   i, diverged)
      && PlanRoutesSpec(tracks, limits).tracks[i]
           == TrackPlanOf(tracks, Reach(Succ(TrackNodes(tracks)), LowSeeds(tracks)), edges, i, diverged)
  {
    PlanParts(tracks, limits);
    var nodes := TrackNodes(tracks);
    var g := Succ(nodes);
    KahnSound(g);
    DistinctFull(KahnOrder(g), |tracks|, i);
    RoutableIds(tracks, IndexMap(nodes));
    diverged := TrackPlanned(tracks, IndexMap(nodes), Reach(g, LowSeeds(tracks)), FirstPhase(tracks, limits).edgeDelays,
                             KahnOrder(g), i);
  }

  // The same, as a plain equation with the planner's inputs named.
  lemma PlanEquation(tracks: seq<TrackSpec>, limits: Limits, i: nat)
    returns (reach: seq<bool>, edges: seq<EdgeDelay>, diverged: bool)
    requires PlanRoutesSpec(tracks, limits).Ok() && i < |tracks|
    ensures |PlanRoutesSpec(tracks, limits).tracks| == |reach| == |tracks|
    ensures PlanRoutesSpec(tracks, limits).tracks[i] == TrackPlanOf(tracks, reach, edges, i, diverged)
  {
    diverged := PlanOfTrack(tracks, limits, i);
    reach := Reach(Succ(TrackNodes(tracks)), LowSeeds(tracks));
    edges := FirstPhase(tracks, limits).edgeDelays;
  }

  // ---------- send delays ----------

  lemma {:induction false} FindDelayMatch(edges: seq<EdgeDelay>, from: Id, to: Id, d: u64)
    requires forall e :: e in edges && e.fromId == from && e.toId == to ==> e.delay == d
    requires d == 0 || exists e :: e in edges && e.fromId == from && e.toId == to
    ensures FindDelay(edges, from, to) == d
  {
    if edges != [] && !(edges[0].fromId == from && edges[0].toId == to) {
      assert forall e :: e in edges[1..] ==> e in edges;
      assert forall e :: e in edges && e.fromId == from && e.toId == to ==> e in edges[1..];
      FindDelayMatch(edges[1..], from, to, d);
    }
  }

  // All entries of one pair carry the same delay, and each kind of edge that exists has one when any has.
  lemma PairEntry(job: Job, primary: seq<u64>, order: seq<nat>, u: nat, v: nat, aux: bool, e: EdgeDelay)
    requires job.Valid() && |primary| == |job.nodes| && Below(order, |job.nodes|)
    requires UniqueIds(TopoNodes(job.nodes)) && Leg(job.nodes, u, v, aux)
    requires e in AllEntries(job, primary, order)
    requires e.fromId == job.nodes[u].trackId && e.toId == job.nodes[v].trackId
    ensures u in job.incoming[v] && e.(aux := aux) == EntryFor(job, primary, u, v, aux)
    ensures e.(aux := aux) in AllEntries(job, primary, order)
  {
    var x, y := EntryExplained(job, primary, order, e);
    assert TopoNodes(job.nodes)[x].trackId == TopoNodes(job.nodes)[u].trackId;
    assert TopoNodes(job.nodes)[y].trackId == TopoNodes(job.nodes)[v].trackId;
    assert x == u && y == v;
    NodeEntryEmitted(job, primary, u, v, aux);
    EntryEmitted(job, primary, order, v, EntryFor(job, primary, u, v, aux));
  }

  lemma PairDelays(nodes: seq<PdcNode>, outputs: seq<PdcOutput>, limits: Limits, u: nat, v: nat, aux: bool,
                   e: EdgeDelay)
    requires PlanSpec(nodes, outputs, limits).Ok() && Leg(nodes, u, v, aux)
    requires e in PlanSpec(nodes, outputs, limits).edgeDelays
    requires e.fromId == nodes[u].trackId && e.toId == nodes[v].trackId
    ensures e.(aux := aux) in PlanSpec(nodes, outputs, limits).edgeDelays
    ensures forall f :: f in PlanSpec(nodes, outputs, limits).edgeDelays && f.fromId == e.fromId && f.toId == e.toId ==>
      f.delay == e.delay
  {
    PlanSolved(nodes, outputs, limits);
    KahnSound(Succ(TopoNodes(nodes)));
    var job, primary := JobOf(nodes, outputs, limits), WalkOf(nodes, outputs, limits).primary;
    var order := KahnOrder(Succ(TopoNodes(nodes)));
    PairEntry(job, primary, order, u, v, aux, e);
    forall f | f in AllEntries(job, primary, order) && f.fromId == e.fromId && f.toId == e.toId
      ensures f.delay == e.delay
    {
      PairEntry(job, primary, order, u, v, aux, f);
    }
  }

  // A send's delay, looked up regardless of edge kind, is the delay of its own kind of edge.
  lemma SendDelay(nodes: seq<PdcNode>, outputs: seq<PdcOutput>, limits: Limits, u: nat, v: nat, aux: bool)
    requires PlanSpec(nodes, outputs, limits).Ok() && Leg(nodes, u, v, aux)
    ensures var edges := PlanSpec(nodes, outputs, limits).edgeDelays;
      FindDelay(edges, nodes[u].trackId, nodes[v].trackId) == DelayOf(edges, nodes[u].trackId, nodes[v].trackId, aux)
  {
    var edges := PlanSpec(nodes, outputs, limits).edgeDelays;
    var from, to := nodes[u].trackId, nodes[v].trackId;
    if e :| e in edges && e.fromId == from && e.toId == to {
      PairDelays(nodes, outputs, limits, u, v, aux, e);
      assert Matches(e.(aux := aux), from, to, aux);
      FindDelayMatch(edges, from, to, e.delay);
      DelayOfMatch(edges, from, to, aux, e.delay);
    } else {
      FindDelayMatch(edges, from, to, 0);
      DelayOfMatch(edges, from, to, aux, 0);
    }
  }

  // The track behind a dest or sidechain id.
  lemma TargetLeg(tracks: seq<TrackSpec>, monitor: seq<u64>, i: nat, to: Id, aux: bool) returns (v: nat)
    requires PrimarySums(tracks) && |monitor| == |tracks| && i < |tracks|
    requires KnownTargets(TrackNodes(tracks))
    requires to in if aux then tracks[i].sidechainDests else tracks[i].dests
    ensures Leg(LatencyNodes(tracks, monitor), i, v, aux)
    ensures tracks[v].trackId == to
  {
    var topo := TrackNodes(tracks);
    assert to in Targets(topo[i]);
    assert RowKnown(topo, Targets(topo[i]));
    v :| IsIndex(topo, to, v);
  }

  lemma FinalDelay(tracks: seq<TrackSpec>, limits: Limits, i: nat, to: Id, aux: bool)
    requires PlanRoutesSpec(tracks, limits).Ok() && i < |tracks|
    requires to in if aux then tracks[i].sidechainDests else tracks[i].dests
    ensures PrimarySums(tracks)
    ensures FindDelay(FirstPhase(tracks, limits).edgeDelays, tracks[i].trackId, to)
            == DelayOf(PlanRoutesSpec(tracks, limits).latency.edgeDelays, tracks[i].trackId, to, aux)
  {
    TwoPhaseAgreement(tracks, limits);
    PlanParts(tracks, limits);
    var v := TargetLeg(tracks, Zeros(|tracks|), i, to, aux);
    SendDelay(LatencyNodes(tracks, Zeros(|tracks|)), LatencyOutputs(tracks), limits, i, v, aux);
  }

  // One send per id, each with the delay of its own kind of edge.
  predicate CarryDelays(sends: seq<SendPlan>, edges: seq<EdgeDelay>, from: Id, ids: seq<Id>, monitorBus: RouteBus,
                        aux: bool) {
    |sends| == |ids| && forall k :: 0 <= k < |ids| ==>
      sends[k] == SendPlan(ids[k], PrimaryBus, monitorBus, DelayOf(edges, from, ids[k], aux))
  }

  lemma SendsCarry(first: seq<EdgeDelay>, final: seq<EdgeDelay>, from: Id, ids: seq<Id>, monitorBus: RouteBus,
                   aux: bool)
    requires forall k :: 0 <= k < |ids| ==> FindDelay(first, from, ids[k]) == DelayOf(final, from, ids[k], aux)
    ensures CarryDelays(Sends(first, from, ids, monitorBus), final, from, ids, monitorBus, aux)
  {
  }

  // Every send of the plan, dest or sidechain, carries the delay of its edge in the final plan.
  lemma SendsUseFinalDelays(tracks: seq<TrackSpec>, limits: Limits, i: nat)
    requires PlanRoutesSpec(tracks, limits).Ok() && i < |tracks|
    ensures |PlanRoutesSpec(tracks, limits).tracks| == |tracks|
    ensures var plan := PlanRoutesSpec(tracks, limits);
      && CarryDelays(plan.tracks[i].sends, plan.latency.edgeDelays, tracks[i].trackId, tracks[i].dests,
                     MonitorBus, false)
      && CarryDelays(plan.tracks[i].sidechainSends, plan.latency.edgeDelays, tracks[i].trackId,
                     tracks[i].sidechainDests, PrimaryBus, true)
  {
    var diverged := PlanOfTrack(tracks, limits, i);
    FinalDelays(tracks, limits, i, tracks[i].dests, false);
    FinalDelays(tracks, limits, i, tracks[i].sidechainDests, true);
    var first, final := FirstPhase(tracks, limits).edgeDelays, PlanRoutesSpec(tracks, limits).latency.edgeDelays;
    SendsCarry(first, final, tracks[i].trackId, tracks[i].dests, MonitorBus, false);
    SendsCarry(first, final, tracks[i].trackId, tracks[i].sidechainDests, PrimaryBus, true);
  }

  lemma FinalDelays(tracks: seq<TrackSpec>, limits: Limits, i: nat, ids: seq<Id>, aux: bool)
    requires PlanRoutesSpec(tracks, limits).Ok() && i < |tracks|
    requires ids == if aux then tracks[i].sidechainDests else tracks[i].dests
    ensures PrimarySums(tracks)
    ensures forall k :: 0 <= k < |ids| ==>
      FindDelay(FirstPhase(tracks, limits).edgeDelays, tracks[i].trackId, ids[k])
      == DelayOf(PlanRoutesSpec(tracks, limits).latency.edgeDelays, tracks[i].trackId, ids[k], aux)
  {
    PlanParts(tracks, limits);
    forall k | 0 <= k < |ids|
      ensures FindDelay(FirstPhase(tracks, limits).edgeDelays, tracks[i].trackId, ids[k])
              == DelayOf(PlanRoutesSpec(tracks, limits).latency.edgeDelays, tracks[i].trackId, ids[k], aux)
    {
      FinalDelay(tracks, limits, i, ids[k], aux);
    }
  }

  // ---------- what the chains add ----------

  // Samples the primary path of a planned slot takes, running or suspended.
  function PrimarySamples(slot: SlotPlan): u64 {
    if slot.primary.action == Process || slot.primary.action == DelayDry then slot.primary.dryDelay else 0
  }

  // Samples its monitor path takes; a shared path takes those of the primary.
  function MonitorSamples(slot: SlotPlan): u64 {
    match slot.monitor.action
    case Process => slot.monitor.dryDelay
    case DelayDry => slot.monitor.dryDelay
    case ReusePrimary => PrimarySamples(slot)
    case _ => 0
  }

  function PrimaryTotal(slots: seq<SlotPlan>): nat {
    if slots == [] then 0 else PrimaryTotal(slots[..|slots| - 1]) + PrimarySamples(slots[|slots| - 1])
  }

  function MonitorTotal(slots: seq<SlotPlan>): nat {
    if slots == [] then 0 else MonitorTotal(slots[..|slots| - 1]) + MonitorSamples(slots[|slots| - 1])
  }

  lemma SlotSamples(slot: SlotSpec, required: bool, diverged: bool)
    ensures PrimarySamples(PlanSlot(slot, required, diverged).plan) == PrimaryLatency(slot)
    ensures required ==>
      MonitorSamples(PlanSlot(slot, required, diverged).plan) == PlanSlot(slot, required, diverged).added
  {
  }

  lemma TotalsSnoc(slots: seq<SlotPlan>, slot: SlotPlan)
    ensures PrimaryTotal(slots + [slot]) == PrimaryTotal(slots) + PrimarySamples(slot)
    ensures MonitorTotal(slots + [slot]) == MonitorTotal(slots) + MonitorSamples(slot)
  {
    assert (slots + [slot])[..|slots|] == slots;
  }

  lemma {:induction false} ChainPrimaryTotal(slots: seq<SlotSpec>, required: bool, diverged: bool)
    requires PlanChain(slots, required, diverged).latency.Some? && PrimaryChain(slots).Some?
    ensures PrimaryTotal(PlanChain(slots, required, diverged).slots) == PrimaryChain(slots).value
  {
    if slots != [] {
      var seen, last := slots[..|slots| - 1], slots[|slots| - 1];
      ChainPrimaryTotal(seen, required, diverged);
      var before := PlanChain(seen, required, diverged);
      SlotSamples(last, required, before.diverged);
      TotalsSnoc(before.slots, PlanSlot(last, required, before.diverged).plan);
    }
  }

  lemma {:induction false} ChainMonitorTotal(slots: seq<SlotSpec>, diverged: bool)
    requires PlanChain(slots, true, diverged).latency.Some?
    ensures MonitorTotal(PlanChain(slots, true, diverged).slots) == PlanChain(slots, true, diverged).latency.value
  {
    if slots != [] {
      var seen, last := slots[..|slots| - 1], slots[|slots| - 1];
      ChainMonitorTotal(seen, diverged);
      var before := PlanChain(seen, true, diverged);
      SlotSamples(last, true, before.diverged);
      TotalsSnoc(before.slots, PlanSlot(last, true, before.diverged).plan);
    }
  }

  // The nodes the final plan was computed from.
  ghost function FinalNodes(tracks: seq<TrackSpec>, limits: Limits): (nodes: seq<PdcNode>)
    requires PlanRoutesSpec(tracks, limits).Ok()
    ensures |nodes| == |tracks|
    ensures PlanRoutesSpec(tracks, limits).latency == PlanSpec(nodes, LatencyOutputs(tracks), limits)
  {
    PlanParts(tracks, limits);
    LatencyNodes(tracks, Decisions(tracks, FirstPhase(tracks, limits).edgeDelays).chain)
  }

  // Their latencies are those of the planned slots: of the primary paths for every track, of the
  // monitor paths for every track a low-latency output hears.
  lemma LatenciesAreSlotSums(tracks: seq<TrackSpec>, limits: Limits, i: nat)
    requires PlanRoutesSpec(tracks, limits).Ok() && i < |tracks|
    ensures |PlanRoutesSpec(tracks, limits).tracks| == |tracks|
    ensures var planned := PlanRoutesSpec(tracks, limits).tracks[i]; var node := FinalNodes(tracks, limits)[i];
      && node.trackId == tracks[i].trackId && node.dests == tracks[i].dests
      && node.sidechainDests == tracks[i].sidechainDests
      && PrimaryTotal(planned.slots) == node.primaryLatency
      && (planned.monitorRequired ==> MonitorTotal(planned.slots) == node.monitorLatency)
  {
    var diverged := PlanOfTrack(tracks, limits, i);
    var required := Reach(Succ(TrackNodes(tracks)), LowSeeds(tracks))[i];
    ChainPrimaryTotal(tracks[i].slots, required, diverged);
    if required {
      ChainMonitorTotal(tracks[i].slots, diverged);
    }
  }

  // ---------- suspension ----------

  predicate Runs(path: PathPlan) {
    path.action == Process || path.action == DrainParameters
  }

  // No plan of the planner delays a dry path.
  predicate Undelayed(slots: seq<SlotPlan>) {
    forall s :: 0 <= s < |slots| ==> slots[s].primary.action != DelayDry && slots[s].monitor.action != DelayDry
  }

  lemma {:induction false} ChainUndelayed(slots: seq<SlotSpec>, required: bool, diverged: bool)
    ensures Undelayed(PlanChain(slots, required, diverged).slots)
  {
    if slots != [] {
      ChainUndelayed(slots[..|slots| - 1], required, diverged);
    }
  }

  lemma {:induction false} SameTotals(a: seq<SlotPlan>, b: seq<SlotPlan>)
    requires |a| == |b|
    requires forall s :: 0 <= s < |a| ==> PrimarySamples(a[s]) == PrimarySamples(b[s])
    requires forall s :: 0 <= s < |a| ==> MonitorSamples(a[s]) == MonitorSamples(b[s])
    ensures PrimaryTotal(a) == PrimaryTotal(b) && MonitorTotal(a) == MonitorTotal(b)
  {
    if a != [] {
      SameTotals(a[..|a| - 1], b[..|b| - 1]);
    }
  }

  lemma SuspendedSamples(slot: SlotPlan)
    requires slot.primary.action != DelayDry && slot.monitor.action != DelayDry
    ensures PrimarySamples(SuspendSlot(slot)) == PrimarySamples(slot)
    ensures MonitorSamples(SuspendSlot(slot)) == MonitorSamples(slot)
  {
  }

  // A running path becomes a dry one with the plugin's delay, a shared path stays, any other is dry
  // without delay; the bus stays.
  predicate PathSuspended(a: PathPlan, b: PathPlan) {
    && !Runs(b) && b.bus == a.bus
    && (b.action == DelayDry <==> a.action == Process) && (b.action == ReusePrimary <==> a.action == ReusePrimary)
    && b.dryDelay == if a.action == Process || a.action == ReusePrimary then a.dryDelay else 0
  }

  // After suspension no path of any slot runs or drains a plugin; sends, buses, shadows and the
  // latency result are unchanged.
  lemma SuspensionSilences(active: RoutePlan, i: nat, s: nat)
    requires i < |active.tracks| && s < |active.tracks[i].slots|
    ensures var safe := SuspensionSpec(active);
      && safe.latency == active.latency && |safe.tracks| == |active.tracks|
      && safe.tracks[i] == active.tracks[i].(slots := safe.tracks[i].slots)
      && |safe.tracks[i].slots| == |active.tracks[i].slots|
      && var a, b := active.tracks[i].slots[s], safe.tracks[i].slots[s];
      && PathSuspended(a.primary, b.primary) && PathSuspended(a.monitor, b.monitor)
      && b == a.(primary := b.primary, monitor := b.monitor)
  {
  }

  // The suspended slots of a planned track still take the latencies the planner used.
  lemma SuspensionKeepsLatencies(tracks: seq<TrackSpec>, limits: Limits, i: nat)
    requires PlanRoutesSpec(tracks, limits).Ok() && i < |tracks|
    ensures |PlanRoutesSpec(tracks, limits).tracks| == |tracks|
    ensures var planned := PlanRoutesSpec(tracks, limits).tracks[i]; var node := FinalNodes(tracks, limits)[i];
      && PrimaryTotal(SuspendTrack(planned).slots) == node.primaryLatency
      && (planned.monitorRequired ==> MonitorTotal(SuspendTrack(planned).slots) == node.monitorLatency)
  {
    LatenciesAreSlotSums(tracks, limits, i);
    var diverged := PlanOfTrack(tracks, limits, i);
    ChainUndelayed(tracks[i].slots, Reach(Succ(TrackNodes(tracks)), LowSeeds(tracks))[i], diverged);
    SuspendedTrackTotals(PlanRoutesSpec(tracks, limits).tracks[i]);
  }

  lemma SuspendedTrackTotals(track: TrackPlan)
    requires Undelayed(track.slots)
    ensures PrimaryTotal(SuspendTrack(track).slots) == PrimaryTotal(track.slots)
    ensures MonitorTotal(SuspendTrack(track).slots) == MonitorTotal(track.slots)
  {
    forall s | 0 <= s < |track.slots|
      ensures PrimarySamples(SuspendSlot(track.slots[s])) == PrimarySamples(track.slots[s])
      ensures MonitorSamples(SuspendSlot(track.slots[s])) == MonitorSamples(track.slots[s])
    {
      SuspendedSamples(track.slots[s]);
    }
    SameTotals(SuspendTrack(track).slots, track.slots);
  }

  // Samples along p on a plan: its slots' primary delays.
  function SlotSum(tracks: seq<TrackPlan>, p: seq<nat>): nat
    requires Below(p, |tracks|)
  {
    if p == [] then 0 else SlotSum(tracks, p[..|p| - 1]) + PrimaryTotal(tracks[p[|p| - 1]].slots)
  }

  lemma {:induction false} SlotSumIsRaw(nodes: seq<PdcNode>, tracks: seq<TrackPlan>, p: seq<nat>)
    requires |nodes| == |tracks| && Below(p, |nodes|)
    requires forall i :: 0 <= i < |nodes| ==> PrimaryTotal(tracks[i].slots) == nodes[i].primaryLatency
    ensures SlotSum(tracks, p) == RawSum(nodes, p, false)
  {
    if p != [] {
      SlotSumIsRaw(nodes, tracks, p[..|p| - 1]);
    }
  }

  // On the suspended graph every path to a full-PDC output still takes the reported total.
  lemma SuspendedAlignment(tracks: seq<TrackSpec>, limits: Limits, k: nat, p: seq<nat>, kinds: seq<bool>)
    requires PlanRoutesSpec(tracks, limits).Ok() && k < |LatencyOutputs(tracks)|
    requires LatencyOutputs(tracks)[k].policy == FullPdc
    requires IsRoute(FinalNodes(tracks, limits), p, kinds) && IsRoot(FinalNodes(tracks, limits), p[0])
    requires p[|p| - 1] < |tracks|
    requires FinalNodes(tracks, limits)[p[|p| - 1]].trackId == LatencyOutputs(tracks)[k].trackId
    ensures Below(p, |tracks|) && |PlanRoutesSpec(tracks, limits).tracks| == |tracks|
    ensures var safe := SuspensionSpec(PlanRoutesSpec(tracks, limits));
      && k < |safe.latency.outputs|
      && SlotSum(safe.tracks, p) + DelaySum(FinalNodes(tracks, limits), safe.latency.edgeDelays, p, kinds)
         == safe.latency.outputs[k].total
  {
    var nodes := FinalNodes(tracks, limits);
    Alignment(nodes, LatencyOutputs(tracks), limits, k, p, kinds);
    var safe := SuspensionSpec(PlanRoutesSpec(tracks, limits)).tracks;
    LatenciesAreSlotSums(tracks, limits, p[|p| - 1]);
    forall i | 0 <= i < |nodes| ensures PrimaryTotal(safe[i].slots) == nodes[i].primaryLatency {
      SuspensionKeepsLatencies(tracks, limits, i);
    }
    SlotSumIsRaw(nodes, safe, p);
  }

  // Suspending twice gives the same plan exactly when no path of the first plan ran a plugin; a
  // second suspension drops the delays the first put in place.
  lemma SuspensionTwice(active: RoutePlan)
    ensures SuspensionSpec(SuspensionSpec(active)) == SuspensionSpec(active) <==>
            forall i, s :: 0 <= i < |active.tracks| && 0 <= s < |active.tracks[i].slots| ==>
              active.tracks[i].slots[s].primary.action != Process && active.tracks[i].slots[s].monitor.action != Process
  {
    var once, twice := SuspensionSpec(active), SuspensionSpec(SuspensionSpec(active));
    if i, s :|
      && 0 <= i < |active.tracks| && 0 <= s < |active.tracks[i].slots|
      && (active.tracks[i].slots[s].primary.action == Process || active.tracks[i].slots[s].monitor.action == Process)
    {
      assert once.tracks[i].slots[s] != twice.tracks[i].slots[s];
    } else {
      forall i | 0 <= i < |active.tracks| ensures once.tracks[i] == twice.tracks[i] {
        assert once.tracks[i].slots == twice.tracks[i].slots;
      }
      assert once.tracks == twice.tracks;
    }
  }
}
