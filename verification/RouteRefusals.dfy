/** When a route plan is refused, and which outputs it reports. */
module RouteRefusals {
  import opened Words
  import opened Wrappers
  import opened GraphTopo
  import opened PdcPlanner
  import opened RoutePlanner
  import opened RouteDecisions

  // A route plan is refused for the first of: a primary chain that exceeds 64 bits, a delay plan refused
  // for the primary latencies, a monitor chain that exceeds 64 bits, and the final delay plan.

  // ---------- the sums ----------

  // Samples the plugins of a track take, those the engine knows of.
  function PluginSum(slots: seq<SlotSpec>): nat {
    if slots == [] then 0
    else
      var last := slots[|slots| - 1];
      PluginSum(slots[..|slots| - 1]) + if Running(last) && last.primaryLatencyKnown then last.primaryLatency else 0
  }

  lemma {:induction false} PrimaryChainIs(slots: seq<SlotSpec>)
    ensures PrimaryChain(slots) == if PluginSum(slots) <= MAX_U64 then Some(PluginSum(slots)) else None
  {
    if slots != [] {
      PrimaryChainIs(slots[..|slots| - 1]);
    }
  }

  // Samples the monitor path of a slot takes: those of the plugin it shares, or of an active shadow.
  function HeardSamples(slot: SlotSpec, required: bool, diverged: bool): nat {
    if !required || !Running(slot) || slot.monitorBypassed then 0
    else if !diverged then (if slot.primaryLatencyKnown then slot.primaryLatency else 0)
    else if slot.shadowAvailable && slot.shadowState == Active && slot.shadowLatencyKnown then slot.shadowLatency
    else 0
  }

  ghost function HeardSum(slots: seq<SlotSpec>, required: bool, diverged: bool): nat {
    if slots == [] then 0
    else
      var n := |slots| - 1;
      HeardSum(slots[..n], required, diverged)
      + HeardSamples(slots[n], required, diverged || (required && ForkedBefore(slots, n)))
  }

  lemma StepAdds(slot: SlotSpec, required: bool, diverged: bool)
    ensures PlanSlot(slot, required, diverged).added == HeardSamples(slot, required, diverged)
  {
  }

  lemma {:induction false} MonitorChainIs(slots: seq<SlotSpec>, required: bool, diverged: bool)
    ensures var total := HeardSum(slots, required, diverged);
      PlanChain(slots, required, diverged).latency == if total <= MAX_U64 then Some(total) else None
  {
    if slots != [] {
      var n := |slots| - 1;
      MonitorChainIs(slots[..n], required, diverged);
      if PlanChain(slots[..n], required, diverged).latency.Some? {
        ChainDiverges(slots[..n], required, diverged);
        ForkedPrefix(slots, n, n);
        StepAdds(slots[n], required, PlanChain(slots[..n], required, diverged).diverged);
      }
    }
  }

  // ---------- the walk ----------

  // The monitor chain of track i exceeds 64 bits, with the divergence marked so far on its input.
  ghost predicate MonitorOverflows(tracks: seq<TrackSpec>, reach: seq<bool>, r: Routing, i: nat)
    requires |reach| == |tracks| && r.Sized(|tracks|) && i < |tracks|
  {
    HeardSum(tracks[i].slots, reach[i], reach[i] && tracks[i].usesInputBus && r.incoming[i]) > MAX_U64
  }

  lemma TurnFails(tracks: seq<TrackSpec>, index: map<Id, nat>, reach: seq<bool>, edges: seq<EdgeDelay>, r: Routing,
                  i: nat)
    requires |reach| == |tracks| && r.Sized(|tracks|) && i < |tracks| && KnownIds(tracks, index, tracks[i].dests)
    ensures RouteTrack(tracks, index, reach, edges, r, i).failed <==>
      r.failed || MonitorOverflows(tracks, reach, r, i)
  {
    MonitorChainIs(tracks[i].slots, reach[i], reach[i] && tracks[i].usesInputBus && r.incoming[i]);
  }

  // The walk gets to its k-th track, whose monitor chain overflows.
  ghost predicate FailsAt(tracks: seq<TrackSpec>, index: map<Id, nat>, reach: seq<bool>, edges: seq<EdgeDelay>,
                          order: seq<nat>, k: nat)
    requires |reach| == |tracks| && Below(order, |tracks|) && k < |order|
    requires forall u :: 0 <= u < |tracks| ==> KnownIds(tracks, index, tracks[u].dests)
  {
    var r := RouteAll(tracks, index, reach, edges, order[..k]);
    !r.failed && MonitorOverflows(tracks, reach, r, order[k])
  }

  ghost predicate FailsSomewhere(tracks: seq<TrackSpec>, index: map<Id, nat>, reach: seq<bool>, edges: seq<EdgeDelay>,
                                 order: seq<nat>)
    requires |reach| == |tracks| && Below(order, |tracks|)
    requires forall u :: 0 <= u < |tracks| ==> KnownIds(tracks, index, tracks[u].dests)
  {
    exists k: nat :: k < |order| && FailsAt(tracks, index, reach, edges, order, k)
  }

  lemma FailsLater(tracks: seq<TrackSpec>, index: map<Id, nat>, reach: seq<bool>, edges: seq<EdgeDelay>,
                   order: seq<nat>)
    requires |reach| == |tracks| && Below(order, |tracks|) && order != []
    requires forall u :: 0 <= u < |tracks| ==> KnownIds(tracks, index, tracks[u].dests)
    ensures var n := |order| - 1;
      FailsSomewhere(tracks, index, reach, edges, order) <==>
        FailsSomewhere(tracks, index, reach, edges, order[..n]) || FailsAt(tracks, index, reach, edges, order, n)
  {
    var n := |order| - 1;
    if k: nat :| k < |order[..n]| && FailsAt(tracks, index, reach, edges, order[..n], k) {
      assert order[..n][..k] == order[..k];
      assert FailsAt(tracks, index, reach, edges, order, k);
    }
    if k: nat :| k < n && FailsAt(tracks, index, reach, edges, order, k) {
      assert order[..n][..k] == order[..k];
      assert FailsAt(tracks, index, reach, edges, order[..n], k);
    }
  }

  // The walk fails exactly at a track whose monitor chain overflows when its turn comes.
  lemma {:induction false} WalkFails(tracks: seq<TrackSpec>, index: map<Id, nat>, reach: seq<bool>,
                                     edges: seq<EdgeDelay>, order: seq<nat>)
    requires |reach| == |tracks| && Below(order, |tracks|)
    requires forall u :: 0 <= u < |tracks| ==> KnownIds(tracks, index, tracks[u].dests)
    ensures RouteAll(tracks, index, reach, edges, order).failed <==> FailsSomewhere(tracks, index, reach, edges, order)
  {
    if order != [] {
      var n := |order| - 1;
      WalkFails(tracks, index, reach, edges, order[..n]);
      TurnFails(tracks, index, reach, edges, RouteAll(tracks, index, reach, edges, order[..n]), order[n]);
      FailsLater(tracks, index, reach, edges, order);
    }
  }

  // ---------- the plan ----------

  // The order in which a plan is refused; what is refused neither for the primary sums nor by the first
  // delay plan nor in the walk has the outcome of the final delay plan.
  lemma RoutesRefused(tracks: seq<TrackSpec>, limits: Limits)
    ensures var plan := PlanRoutesSpec(tracks, limits);
      if exists i :: 0 <= i < |tracks| && PluginSum(tracks[i].slots) > MAX_U64 then
        plan.latency.error == Some(ArithmeticOverflow) && plan.tracks == []
      else
        && PrimarySums(tracks)
        && (!FirstPhase(tracks, limits).Ok() ==>
          plan.latency.error == FirstPhase(tracks, limits).error && plan.tracks == [])
        && (FirstPhase(tracks, limits).Ok() ==>
          && UniqueIds(TrackNodes(tracks)) && KnownTargets(TrackNodes(tracks))
          && var r := Decisions(tracks, FirstPhase(tracks, limits).edgeDelays);
            && (r.failed ==> plan.latency.error == Some(ArithmeticOverflow) && plan.tracks == [])
            && (!r.failed ==>
              plan.latency == PlanSpec(LatencyNodes(tracks, r.chain), LatencyOutputs(tracks), limits)))
  {
    forall i | 0 <= i < |tracks|
      ensures PrimaryChain(tracks[i].slots).Some? <==> PluginSum(tracks[i].slots) <= MAX_U64
    {
      PrimaryChainIs(tracks[i].slots);
    }
    if PrimarySums(tracks) && FirstPhase(tracks, limits).Ok() {
      FirstPhaseIds(tracks, Zeros(|tracks|), LatencyOutputs(tracks), limits);
    }
  }

  // ---------- the outputs ----------

  // How many of the first k tracks are outputs.
  function OutputsBefore(tracks: seq<TrackSpec>, k: nat): nat
    requires k <= |tracks|
  {
    if k == 0 then 0 else OutputsBefore(tracks, k - 1) + if tracks[k - 1].isOutput then 1 else 0
  }

  lemma {:induction false} OutputsPrefix(tracks: seq<TrackSpec>, n: nat, k: nat)
    requires k <= n <= |tracks|
    ensures OutputsBefore(tracks[..n], k) == OutputsBefore(tracks, k)
  {
    if k > 0 {
      OutputsPrefix(tracks, n, k - 1);
    }
  }

  // The planner is given every output track and no other, in order, with its policy.
  lemma {:induction false} OutputsListed(tracks: seq<TrackSpec>, k: nat)
    requires k < |tracks|
    ensures |LatencyOutputs(tracks)| == OutputsBefore(tracks, |tracks|)
    ensures tracks[k].isOutput ==>
      && OutputsBefore(tracks, k) < |LatencyOutputs(tracks)|
      && LatencyOutputs(tracks)[OutputsBefore(tracks, k)] == PdcOutput(tracks[k].trackId, tracks[k].policy)
  {
    var n := |tracks| - 1;
    if n > 0 {
      OutputsListed(tracks[..n], if k < n then k else 0);
    }
    OutputsPrefix(tracks, n, n);
    OutputsPrefix(tracks, n, if k < n then k else n);
  }
}
