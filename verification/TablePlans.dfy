/**
 From the track table to the plan it is committed with (route_plan_for_tracks in
 engine/src/audio_engine.cpp): a valid table always has a plannable topology, the engine's limits
 make the byte count exact and the planned delays settable, and its edges are those the signal-level
 results need.
 */
module TablePlans {
  import opened Words
  import opened Wrappers
  import opened GraphTopo
  import opened PdcPlanner
  import opened PdcTheorems
  import opened PdcBudget
  import opened PdcRefusals
  import opened RoutePlanner
  import opened RouteTheorems
  import opened Dataflow
  import opened SuspendedMix
  import opened SortedLists
  import opened TrackTable
  import opened TableInvariant
  import DelayLine

  const MAX_BLOCK_FRAMES: u32 := 8192

  // The planner's view of a table, with the plugin slots of each track and whether it has no source.
  function Specs(tracks: seq<Track>, slots: nat -> seq<SlotSpec>, noSource: nat -> bool): (specs: seq<TrackSpec>)
    ensures |specs| == |tracks|
  {
    seq(|tracks|, i requires 0 <= i < |tracks| =>
      TrackSpec(tracks[i].id, tracks[i].mute, tracks[i].kind == OutputTrack, tracks[i].policy, slots(i),
                tracks[i].dests, tracks[i].sidechainDests, noSource(i)))
  }

  // Tracks keep their order, edges and switches; only output tracks are outputs.
  lemma SpecsCarry(tracks: seq<Track>, slots: nat -> seq<SlotSpec>, noSource: nat -> bool, i: nat)
    requires i < |tracks|
    ensures var spec, t := Specs(tracks, slots, noSource)[i], tracks[i];
      && spec.trackId == t.id && spec.muted == t.mute && (spec.isOutput <==> t.kind == OutputTrack)
      && spec.policy == t.policy && spec.slots == slots(i) && spec.dests == t.dests
      && spec.sidechainDests == t.sidechainDests && spec.usesInputBus == noSource(i)
  {
  }

  // Two seconds, 256 MiB, stereo floats.
  function EngineLimits(rate: u64): Limits
    requires rate * 2 <= MAX_U64
  {
    Limits(rate * 2, 256 * 1024 * 1024, 2, 4, MAX_BLOCK_FRAMES)
  }

  // ---------- structural errors ----------

  predicate Numeric(e: Option<PdcError>) {
    e.None? || e.value == PathLimitExceeded || e.value == MemoryLimitExceeded || e.value == ArithmeticOverflow
  }

  lemma PlanNumeric(nodes: seq<PdcNode>, outputs: seq<PdcOutput>, limits: Limits)
    requires UniqueIds(TopoNodes(nodes)) && KnownTargets(TopoNodes(nodes)) && KnownOutputs(nodes, outputs)
    requires !HasCycle(Succ(TopoNodes(nodes)))
    ensures Numeric(PlanSpec(nodes, outputs, limits).error)
  {
    GraphErrors(nodes, outputs, limits);
  }

  // ---------- the topology of a valid table ----------

  lemma SpecsTopo(tracks: seq<Track>, slots: nat -> seq<SlotSpec>, noSource: nat -> bool)
    ensures TrackNodes(Specs(tracks, slots, noSource)) == Nodes(tracks)
  {
  }

  lemma TargetsKnown(tracks: seq<Track>)
    requires IdsUnique(tracks) && AllOk(tracks)
    ensures KnownTargets(Nodes(tracks))
  {
    forall i: nat | i < |tracks| ensures RowKnown(Nodes(tracks), Targets(Nodes(tracks)[i])) {
      assert EdgesOk(tracks, tracks[i]);
      forall d | d in Targets(Nodes(tracks)[i]) ensures Known(Nodes(tracks), d) {
        assert Linked(tracks[i], d);
        assert IsIndex(Nodes(tracks), d, Find(tracks, d));
      }
    }
  }

  lemma {:induction false} OutputsKnown(specs: seq<TrackSpec>, nodes: seq<PdcNode>)
    requires forall i: nat :: i < |specs| ==> Known(TopoNodes(nodes), specs[i].trackId)
    ensures KnownOutputs(nodes, LatencyOutputs(specs))
  {
    if specs != [] {
      OutputsKnown(specs[..|specs| - 1], nodes);
    }
  }

  lemma NodesTopo(specs: seq<TrackSpec>, monitor: seq<u64>)
    requires PrimarySums(specs) && |monitor| == |specs|
    ensures TopoNodes(LatencyNodes(specs, monitor)) == TrackNodes(specs)
  {
  }

  lemma PhaseNumeric(t: Table, specs: seq<TrackSpec>, monitor: seq<u64>, limits: Limits)
    requires Inv(t) && TrackNodes(specs) == Nodes(t.tracks) && PrimarySums(specs) && |monitor| == |specs|
    ensures Numeric(PlanSpec(LatencyNodes(specs, monitor), LatencyOutputs(specs), limits).error)
  {
    var nodes := LatencyNodes(specs, monitor);
    NodesTopo(specs, monitor);
    TargetsKnown(t.tracks);
    CyclicGraph(t.tracks);
    forall i: nat | i < |specs| ensures Known(TopoNodes(nodes), specs[i].trackId) {
      assert IsIndex(TrackNodes(specs), specs[i].trackId, i);
    }
    OutputsKnown(specs, nodes);
    PlanNumeric(nodes, LatencyOutputs(specs), limits);
  }

  // A valid table never fails to plan for its ids, its edges or a cycle: only sizes can be refused.
  lemma ValidTablePlans(t: Table, slots: nat -> seq<SlotSpec>, noSource: nat -> bool, limits: Limits)
    requires Inv(t)
    ensures Numeric(PlanRoutesSpec(Specs(t.tracks, slots, noSource), limits).latency.error)
  {
    var specs := Specs(t.tracks, slots, noSource);
    SpecsTopo(t.tracks, slots, noSource);
    if PrimarySums(specs) {
      PhaseNumeric(t, specs, Zeros(|specs|), limits);
      if FirstPhase(specs, limits).Ok() {
        FirstPhaseIds(specs, Zeros(|specs|), LatencyOutputs(specs), limits);
        var r := Decisions(specs, FirstPhase(specs, limits).edgeDelays);
        if !r.failed {
          PhaseNumeric(t, specs, r.chain, limits);
        }
      }
    }
  }

  // ---------- the engine's limits ----------

  lemma EngineCapacity(rate: u32)
    requires rate < 0x8000_0000
    ensures Capacity(EngineLimits(rate)) == Some(rate * 2 + MAX_BLOCK_FRAMES + 1)
  {
  }

  lemma EngineLatencyFits(nodes: seq<PdcNode>, outputs: seq<PdcOutput>, rate: u32, e: EdgeDelay)
    requires rate < 0x8000_0000 && PlanSpec(nodes, outputs, EngineLimits(rate)).Ok()
    requires e in PlanSpec(nodes, outputs, EngineLimits(rate)).edgeDelays
    ensures var latency := PlanSpec(nodes, outputs, EngineLimits(rate));
      && latency.bufferBytes == |latency.edgeDelays| * ((rate * 2 + MAX_BLOCK_FRAMES + 1) * 8)
      && latency.bufferBytes <= 256 * 1024 * 1024
    ensures e.delay <= rate * 2
  {
    BudgetExact(nodes, outputs, EngineLimits(rate));
    DelayBound(nodes, outputs, EngineLimits(rate), e);
    EngineCapacity(rate);
  }

  // Under the engine's limits a successful plan's byte count is exact, and every planned delay is
  // within what a line prepared for two seconds accepts.
  lemma EnginePlanFits(specs: seq<TrackSpec>, rate: u32, e: EdgeDelay)
    requires rate < 0x8000_0000 && PlanRoutesSpec(specs, EngineLimits(rate)).Ok()
    requires e in PlanRoutesSpec(specs, EngineLimits(rate)).latency.edgeDelays
    ensures var latency := PlanRoutesSpec(specs, EngineLimits(rate)).latency;
      && latency.bufferBytes == |latency.edgeDelays| * ((rate * 2 + 8193) * 8)
      && latency.bufferBytes <= 256 * 1024 * 1024
    ensures e.delay <= rate * 2 && e.delay < DelayLine.DELAY_RANGE
  {
    EngineLatencyFits(FinalNodes(specs, EngineLimits(rate)), LatencyOutputs(specs), rate, e);
  }

  // ---------- what the signal-level results need ----------

  lemma StrictDistinct(s: seq<Id>)
    requires Strict(s)
    ensures Distinct(s)
  {
  }

  // Dest lists of a valid table have no repeats, and if only input tracks have a source, tracks with
  // a source take no input: the compensation of suspended plans applies to every valid table.
  lemma ValidTableOrderly(t: Table, slots: nat -> seq<SlotSpec>, noSource: nat -> bool, rig: Rig)
    requires Inv(t)
    requires forall i: nat :: i < |t.tracks| && !noSource(i) ==> SourceKind(t.tracks[i].kind)
    requires forall i: nat :: i < |t.tracks| ==> |rig.source(i)| == rig.length
    ensures Orderly(Specs(t.tracks, slots, noSource), rig)
  {
    var specs := Specs(t.tracks, slots, noSource);
    forall i: nat | i < |specs|
      ensures Distinct(specs[i].dests)
      ensures !specs[i].usesInputBus ==> forall u :: 0 <= u < |specs| ==>
        specs[i].trackId !in specs[u].dests && specs[i].trackId !in specs[u].sidechainDests
    {
      assert FieldsOk(t.tracks[i]);
      StrictDistinct(t.tracks[i].dests);
      FindUnique(t.tracks, i);
      forall u: nat | u < |specs| && !specs[i].usesInputBus ensures !Linked(t.tracks[u], t.tracks[i].id) {
        assert EdgesOk(t.tracks, t.tracks[u]);
      }
    }
  }
}
