/** What a successful route plan decides, track by track and slot by slot. */
module RouteDecisions {
  import opened Wrappers
  import opened GraphTopo
  import opened PdcPlanner
  import opened RoutePlanner
  import opened RouteTheorems
  import SharedMonitor

  // The decisions in terms of the specs alone: which tracks a low-latency output hears, where the
  // monitor signal leaves the primary one, and what becomes of every shadow.

  // ---------- one slot ----------

  predicate Running(slot: SlotSpec) {
    !slot.bypassed && slot.primaryAvailable && slot.primaryState != Suspended
  }

  // A running plugin that the monitor skips: the monitor signal leaves the primary one here.
  predicate Forks(slot: SlotSpec) {
    Running(slot) && slot.monitorBypassed
  }

  ghost predicate ForkedBefore(slots: seq<SlotSpec>, s: nat) {
    exists t: nat :: t < s && t < |slots| && Forks(slots[t])
  }

  // The plugin the monitor would run in this slot needs an instance of its own.
  predicate NeedsShadow(slot: SlotSpec, required: bool, diverged: bool) {
    required && diverged && Running(slot) && !slot.monitorBypassed
  }

  ghost predicate PrimaryDecided(slot: SlotSpec, path: PathPlan) {
    && path.bus == PrimaryBus
    && (path.action == Process <==> Running(slot))
    && (path.action == DrainParameters <==>
        !slot.bypassed && slot.primaryAvailable && slot.primaryState == Suspended)
    && (path.action == Dry <==> slot.bypassed || !slot.primaryAvailable)
    && path.dryDelay == if Running(slot) && slot.primaryLatencyKnown then slot.primaryLatency else 0
  }

  ghost predicate MonitorDecided(slot: SlotSpec, required: bool, diverged: bool, path: PathPlan) {
    && (path.action == ReusePrimary <==> !required || (!diverged && !Forks(slot)))
    && (path.action == Process <==>
        NeedsShadow(slot, required, diverged) && slot.shadowAvailable && slot.shadowState == Active)
    && (path.action == DrainParameters <==>
        NeedsShadow(slot, required, diverged) && slot.shadowAvailable && slot.shadowState != Active)
    && path.action != DelayDry
    && (path.bus == PrimaryBus <==> path.action == ReusePrimary)
    && path.dryDelay == if path.action == Process && slot.shadowLatencyKnown then slot.shadowLatency else 0
  }

  // A shadow is used exactly where the monitor path runs or drains it, created exactly where one is
  // needed and missing, and released wherever else there is one.
  ghost predicate ShadowDecided(slot: SlotSpec, required: bool, diverged: bool, plan: SlotPlan) {
    && (plan.shadow == Reuse <==>
        plan.monitor.bus == MonitorBus && (plan.monitor.action == Process || plan.monitor.action == DrainParameters))
    && (plan.shadow == Create <==> NeedsShadow(slot, required, diverged) && !slot.shadowAvailable)
    && (plan.shadow == Release <==> slot.shadowAvailable && !NeedsShadow(slot, required, diverged))
    && (plan.shadow == NoShadow <==> !slot.shadowAvailable && !NeedsShadow(slot, required, diverged))
  }

  // `diverged` says whether the monitor had left the primary signal before this slot.
  ghost predicate SlotDecided(slot: SlotSpec, required: bool, diverged: bool, plan: SlotPlan) {
    && plan.instanceId == slot.instanceId && PrimaryDecided(slot, plan.primary)
    && MonitorDecided(slot, required, diverged, plan.monitor) && ShadowDecided(slot, required, diverged, plan)
  }

  lemma StepDecides(slot: SlotSpec, required: bool, diverged: bool)
    ensures SlotDecided(slot, required, diverged, PlanSlot(slot, required, diverged).plan)
    ensures PlanSlot(slot, required, diverged).diverged <==> diverged || (required && Forks(slot))
  {
  }

  lemma ForkedNext(slots: seq<SlotSpec>, s: nat)
    requires s < |slots|
    ensures ForkedBefore(slots, s + 1) <==> ForkedBefore(slots, s) || Forks(slots[s])
  {
    if ForkedBefore(slots, s) {
      var t: nat :| t < s && Forks(slots[t]);
      assert t < s + 1;
    }
    if Forks(slots[s]) {
      assert s < s + 1;
    }
  }

  lemma ForkedPrefix(slots: seq<SlotSpec>, n: nat, s: nat)
    requires s <= n <= |slots|
    ensures ForkedBefore(slots[..n], s) <==> ForkedBefore(slots, s)
  {
    if ForkedBefore(slots, s) {
      var t: nat :| t < s && Forks(slots[t]);
      assert slots[..n][t] == slots[t];
    }
    if ForkedBefore(slots[..n], s) {
      var t: nat :| t < s && Forks(slots[..n][t]);
      assert slots[..n][t] == slots[t];
    }
  }

  lemma {:induction false} ChainDiverges(slots: seq<SlotSpec>, required: bool, diverged: bool)
    requires PlanChain(slots, required, diverged).latency.Some?
    ensures |PlanChain(slots, required, diverged).slots| == |slots|
    ensures PlanChain(slots, required, diverged).diverged <==> diverged || (required && ForkedBefore(slots, |slots|))
  {
    if slots != [] {
      var n := |slots| - 1;
      ChainDiverges(slots[..n], required, diverged);
      StepDecides(slots[n], required, PlanChain(slots[..n], required, diverged).diverged);
      ForkedNext(slots, n);
      ForkedPrefix(slots, n, n);
    }
  }

  lemma {:induction false} ChainDecides(slots: seq<SlotSpec>, required: bool, diverged: bool, s: nat)
    requires PlanChain(slots, required, diverged).latency.Some? && s < |slots|
    ensures |PlanChain(slots, required, diverged).slots| == |slots|
    ensures SlotDecided(slots[s], required, diverged || (required && ForkedBefore(slots, s)),
                        PlanChain(slots, required, diverged).slots[s])
  {
    var n := |slots| - 1;
    ChainDiverges(slots[..n], required, diverged);
    ForkedPrefix(slots, n, s);
    if s < n {
      ChainDecides(slots[..n], required, diverged, s);
    } else {
      StepDecides(slots[n], required, PlanChain(slots[..n], required, diverged).diverged);
    }
  }

  // ---------- which inputs have diverged ----------

  // A send of u reaches i diverged or delayed.
  ghost predicate Disturbs(tracks: seq<TrackSpec>, planned: seq<TrackPlan>, u: nat, i: nat) {
    && u < |tracks| && u < |planned| && i < |tracks| && |planned[u].sends| == |tracks[u].dests|
    && exists k :: 0 <= k < |tracks[u].dests| && tracks[u].dests[k] == tracks[i].trackId
         && (planned[u].monitorDiverged || planned[u].sends[k].delay > 0)
  }

  // Some send into the input bus of i carries a diverged monitor signal or is delayed.
  ghost predicate InputDisturbed(tracks: seq<TrackSpec>, planned: seq<TrackPlan>, i: nat) {
    i < |tracks| && tracks[i].usesInputBus && exists u: nat :: Disturbs(tracks, planned, u, i)
  }

  lemma {:induction false} Marked(tracks: seq<TrackSpec>, index: map<Id, nat>, reach: seq<bool>, edges: seq<EdgeDelay>,
                                  from: Id, diverged: bool, dests: seq<Id>, incoming: seq<bool>, i: nat)
    requires KnownIds(tracks, index, dests) && |reach| == |incoming| == |tracks| && i < |tracks|
    ensures MarkDests(tracks, index, reach, edges, from, diverged, dests, incoming)[i] <==>
      || incoming[i]
      || (reach[i] && tracks[i].usesInputBus &&
          exists k :: 0 <= k < |dests| && index[dests[k]] == i && (diverged || FindDelay(edges, from, dests[k]) > 0))
  {
    if dests != [] {
      var n := |dests| - 1;
      Marked(tracks, index, reach, edges, from, diverged, dests[..n], incoming, i);
      assert forall k :: 0 <= k < n ==> dests[..n][k] == dests[k];
    }
  }

  // The k-th turn marks exactly the inputs its track disturbs.
  lemma TurnMarks(tracks: seq<TrackSpec>, index: map<Id, nat>, reach: seq<bool>, edges: seq<EdgeDelay>,
                  r: Routing, u: nat, i: nat)
    requires |reach| == |tracks| && r.Sized(|tracks|) && u < |tracks| && i < |tracks|
    requires IsIndexMap(TrackNodes(tracks), index) && KnownIds(tracks, index, tracks[u].dests)
    requires !RouteTrack(tracks, index, reach, edges, r, u).failed
    ensures var s := RouteTrack(tracks, index, reach, edges, r, u);
      s.incoming[i] <==> r.incoming[i] || (reach[i] && tracks[i].usesInputBus && Disturbs(tracks, s.tracks, u, i))
  {
    var s := RouteTrack(tracks, index, reach, edges, r, u);
    var dests := tracks[u].dests;
    Marked(tracks, index, reach, edges, tracks[u].trackId, s.tracks[u].monitorDiverged, dests, r.incoming, i);
    forall k | 0 <= k < |dests| ensures index[dests[k]] == i <==> dests[k] == tracks[i].trackId {
      SameIndex(tracks, index, dests[k], i);
    }
  }

  lemma SameIndex(tracks: seq<TrackSpec>, index: map<Id, nat>, id: Id, i: nat)
    requires IsIndexMap(TrackNodes(tracks), index) && id in index && i < |tracks|
    ensures index[id] == i <==> id == tracks[i].trackId
  {
    var nodes := TrackNodes(tracks);
    assert IsIndex(nodes, id, index[id]);
    assert nodes[i].trackId == tracks[i].trackId;
  }

  // ---------- the walk ----------

  lemma SameDisturbs(tracks: seq<TrackSpec>, a: seq<TrackPlan>, b: seq<TrackPlan>, u: nat, i: nat)
    requires |a| == |b| && u < |a| && a[u] == b[u]
    ensures Disturbs(tracks, a, u, i) <==> Disturbs(tracks, b, u, i)
  {
  }

  // One of the listed tracks disturbs i.
  ghost predicate DisturbedBy(tracks: seq<TrackSpec>, planned: seq<TrackPlan>, order: seq<nat>, i: nat) {
    exists j :: 0 <= j < |order| && Disturbs(tracks, planned, order[j], i)
  }

  lemma DisturbedNext(tracks: seq<TrackSpec>, a: seq<TrackPlan>, b: seq<TrackPlan>, order: seq<nat>, i: nat)
    requires order != [] && |a| == |b| && Below(order, |a|) && forall j :: 0 <= j < |order| - 1 ==>
      a[order[j]] == b[order[j]]
    ensures DisturbedBy(tracks, b, order, i) <==>
      DisturbedBy(tracks, a, order[..|order| - 1], i) || Disturbs(tracks, b, order[|order| - 1], i)
  {
    var n := |order| - 1;
    forall j | 0 <= j < n ensures Disturbs(tracks, a, order[j], i) <==> Disturbs(tracks, b, order[j], i) {
      SameDisturbs(tracks, a, b, order[j], i);
    }
    if DisturbedBy(tracks, a, order[..n], i) {
      var j :| 0 <= j < n && Disturbs(tracks, a, order[..n][j], i);
      assert Disturbs(tracks, b, order[j], i);
    }
    if DisturbedBy(tracks, b, order, i) {
      var j :| 0 <= j <= n && Disturbs(tracks, b, order[j], i);
      assert j < n ==> Disturbs(tracks, a, order[..n][j], i);
    }
  }

  // An input is marked exactly when a track whose turn has come disturbs it.
  lemma {:induction false} WalkMarks(tracks: seq<TrackSpec>, index: map<Id, nat>, reach: seq<bool>,
                                     edges: seq<EdgeDelay>, order: seq<nat>, i: nat)
    requires |reach| == |tracks| && Below(order, |tracks|) && Distinct(order) && i < |tracks|
    requires IsIndexMap(TrackNodes(tracks), index)
    requires forall u :: 0 <= u < |tracks| ==> KnownIds(tracks, index, tracks[u].dests)
    requires !RouteAll(tracks, index, reach, edges, order).failed
    ensures var r := RouteAll(tracks, index, reach, edges, order);
      r.incoming[i] <==> reach[i] && tracks[i].usesInputBus && DisturbedBy(tracks, r.tracks, order, i)
  {
    if order != [] {
      var n := |order| - 1;
      var before := RouteAll(tracks, index, reach, edges, order[..n]);
      var after := RouteTrack(tracks, index, reach, edges, before, order[n]);
      forall j | 0 <= j < n ensures before.tracks[order[j]] == after.tracks[order[j]] {
        SharedMonitor.RouteTurn(tracks, index, reach, edges, before, order[n], order[j]);
      }
      WalkMarks(tracks, index, reach, edges, order[..n], i);
      TurnMarks(tracks, index, reach, edges, before, order[n], i);
      DisturbedNext(tracks, before.tracks, after.tracks, order, i);
    }
  }

  // Once planned a track keeps its plan.
  lemma {:induction false} PlanStays(tracks: seq<TrackSpec>, index: map<Id, nat>, reach: seq<bool>,
                                     edges: seq<EdgeDelay>, order: seq<nat>, k: nat, j: nat)
    requires |reach| == |tracks| && Below(order, |tracks|) && Distinct(order) && j < k <= |order|
    requires forall u :: 0 <= u < |tracks| ==> KnownIds(tracks, index, tracks[u].dests)
    requires !RouteAll(tracks, index, reach, edges, order).failed
    ensures RouteAll(tracks, index, reach, edges, order[..k]).tracks[order[j]]
         == RouteAll(tracks, index, reach, edges, order).tracks[order[j]]
    decreases |order|
  {
    if k < |order| {
      var n := |order| - 1;
      assert order[..n][..k] == order[..k];
      SharedMonitor.RouteTurn(tracks, index, reach, edges, RouteAll(tracks, index, reach, edges, order[..n]),
                              order[n], order[j]);
      PlanStays(tracks, index, reach, edges, order[..n], k, j);
    } else {
      assert order[..k] == order;
    }
  }

  // A track that disturbs another has an edge into it.
  lemma DisturbsEdge(tracks: seq<TrackSpec>, planned: seq<TrackPlan>, u: nat, i: nat)
    requires UniqueIds(TrackNodes(tracks)) && Disturbs(tracks, planned, u, i)
    ensures Edge(Succ(TrackNodes(tracks)), u, i)
  {
    SuccEdge(TrackNodes(tracks), u, i);
  }

  lemma ListedBefore(g: Graph, order: seq<nat>, k: nat, u: nat)
    requires Forward(g, order) && k < |order| && Edge(g, u, order[k])
    ensures exists j :: 0 <= j < k && order[j] == u
  {
    assert u in order[..k];
  }

  // When the turn of the k-th track comes, its input is marked exactly if it is disturbed in the end.
  lemma MarkedAtTurn(tracks: seq<TrackSpec>, index: map<Id, nat>, reach: seq<bool>, edges: seq<EdgeDelay>,
                     order: seq<nat>, k: nat)
    requires |reach| == |tracks| && Below(order, |tracks|) && Distinct(order) && k < |order| == |tracks|
    requires IsIndexMap(TrackNodes(tracks), index) && Forward(Succ(TrackNodes(tracks)), order)
    requires forall u :: 0 <= u < |tracks| ==> KnownIds(tracks, index, tracks[u].dests)
    requires !RouteAll(tracks, index, reach, edges, order).failed
    ensures !RouteAll(tracks, index, reach, edges, order[..k]).failed
    ensures var i := order[k];
      RouteAll(tracks, index, reach, edges, order[..k]).incoming[i] <==>
      reach[i] && InputDisturbed(tracks, RouteAll(tracks, index, reach, edges, order).tracks, i)
  {
    var i, before, after := order[k], RouteAll(tracks, index, reach, edges, order[..k]),
      RouteAll(tracks, index, reach, edges, order);
    SharedMonitor.RoutedAtStep(tracks, index, reach, edges, order, k);
    WalkMarks(tracks, index, reach, edges, order[..k], i);
    forall j | 0 <= j < k
      ensures Disturbs(tracks, before.tracks, order[j], i) <==> Disturbs(tracks, after.tracks, order[j], i)
    {
      PlanStays(tracks, index, reach, edges, order, k, j);
      SameDisturbs(tracks, before.tracks, after.tracks, order[j], i);
    }
    if u: nat :| Disturbs(tracks, after.tracks, u, i) {
      DisturbsEdge(tracks, after.tracks, u, i);
      ListedBefore(Succ(TrackNodes(tracks)), order, k, u);
    }
    if DisturbedBy(tracks, before.tracks, order[..k], i) {
      var j :| 0 <= j < k && Disturbs(tracks, before.tracks, order[..k][j], i);
      assert Disturbs(tracks, after.tracks, order[j], i);
    }
  }

  // ---------- main results ----------

  ghost function LowOutputs(tracks: seq<TrackSpec>): set<nat> {
    set i | 0 <= i < |tracks| && tracks[i].isOutput && tracks[i].policy == LowLatency
  }

  // The plan of track i, given which tracks are heard and whether its input is disturbed.
  ghost predicate TrackDecided(track: TrackSpec, heard: bool, disturbed: bool, planned: TrackPlan) {
    && planned.trackId == track.trackId && planned.muted == track.muted
    && (planned.outputBus == MonitorBus <==> track.policy == LowLatency)
    && planned.monitorRequired == heard
    && (planned.monitorDiverged <==> heard && (disturbed || ForkedBefore(track.slots, |track.slots|)))
    && |planned.slots| == |track.slots|
    && forall s: nat :: s < |track.slots| ==>
      SlotDecided(track.slots[s], heard, heard && (disturbed || ForkedBefore(track.slots, s)), planned.slots[s])
  }

  lemma PlanDecides(tracks: seq<TrackSpec>, reach: seq<bool>, edges: seq<EdgeDelay>, i: nat, disturbed: bool)
    requires |reach| == |tracks| && i < |tracks|
      && PlanChain(tracks[i].slots, reach[i], reach[i] && disturbed).latency.Some?
    ensures TrackDecided(tracks[i], reach[i], disturbed, TrackPlanOf(tracks, reach, edges, i, reach[i] && disturbed))
  {
    ChainDiverges(tracks[i].slots, reach[i], reach[i] && disturbed);
    forall s: nat | s < |tracks[i].slots|
      ensures SlotDecided(tracks[i].slots[s], reach[i], reach[i] && (disturbed || ForkedBefore(tracks[i].slots, s)),
                          PlanChain(tracks[i].slots, reach[i], reach[i] && disturbed).slots[s])
    {
      ChainDecides(tracks[i].slots, reach[i], reach[i] && disturbed, s);
    }
  }

  // A complete walk in which every edge goes forward.
  ghost predicate FullWalk(tracks: seq<TrackSpec>, index: map<Id, nat>, reach: seq<bool>, edges: seq<EdgeDelay>,
                           order: seq<nat>)
  {
    && |reach| == |tracks| == |order| && Below(order, |tracks|) && Distinct(order)
    && IsIndexMap(TrackNodes(tracks), index) && Forward(Succ(TrackNodes(tracks)), order)
    && (forall u :: 0 <= u < |tracks| ==> KnownIds(tracks, index, tracks[u].dests))
    && !RouteAll(tracks, index, reach, edges, order).failed
  }

  // The walk a successful plan comes from.
  lemma WalkOfPlan(tracks: seq<TrackSpec>, limits: Limits)
    returns (index: map<Id, nat>, reach: seq<bool>, edges: seq<EdgeDelay>, order: seq<nat>)
    requires PlanRoutesSpec(tracks, limits).Ok()
    ensures FullWalk(tracks, index, reach, edges, order)
    ensures PlanRoutesSpec(tracks, limits).tracks == RouteAll(tracks, index, reach, edges, order).tracks
    ensures PlanRoutesSpec(tracks, limits).monitorVariantsNeeded
      == RouteAll(tracks, index, reach, edges, order).variants
    ensures forall i :: 0 <= i < |tracks| ==> reach[i] == Reaches(Succ(TrackNodes(tracks)), i, LowOutputs(tracks))
  {
    PlanParts(tracks, limits);
    var g := Succ(TrackNodes(tracks));
    index, reach := IndexMap(TrackNodes(tracks)), Reach(g, LowSeeds(tracks));
    order, edges := KahnOrder(g), FirstPhase(tracks, limits).edgeDelays;
    KahnSound(g);
    RoutableIds(tracks, index);
    assert Elems(LowSeeds(tracks)) == LowOutputs(tracks);
  }

  lemma WalkDecided(tracks: seq<TrackSpec>, index: map<Id, nat>, reach: seq<bool>, edges: seq<EdgeDelay>,
                    order: seq<nat>, i: nat)
    requires FullWalk(tracks, index, reach, edges, order) && i < |tracks|
    ensures var planned := RouteAll(tracks, index, reach, edges, order).tracks;
      TrackDecided(tracks[i], reach[i], InputDisturbed(tracks, planned, i), planned[i])
  {
    DistinctFull(order, |tracks|, i);
    var k :| 0 <= k < |order| && order[k] == i;
    SharedMonitor.RoutedAtStep(tracks, index, reach, edges, order, k);
    MarkedAtTurn(tracks, index, reach, edges, order, k);
    PlanDecides(tracks, reach, edges, i,
      InputDisturbed(tracks, RouteAll(tracks, index, reach, edges, order).tracks, i));
  }

  // Main result: in a successful plan exactly the tracks with a path to a low-latency output are heard,
  // the monitor signal leaves the primary one exactly where it must - behind a bypassed running plugin,
  // or on an input that some send disturbs - and every slot is decided accordingly.
  lemma PlanDecided(tracks: seq<TrackSpec>, limits: Limits, i: nat)
    requires PlanRoutesSpec(tracks, limits).Ok() && i < |tracks|
    ensures |PlanRoutesSpec(tracks, limits).tracks| == |tracks|
    ensures var planned := PlanRoutesSpec(tracks, limits).tracks;
      TrackDecided(tracks[i], Reaches(Succ(TrackNodes(tracks)), i, LowOutputs(tracks)),
                   InputDisturbed(tracks, planned, i), planned[i])
  {
    var index, reach, edges, order := WalkOfPlan(tracks, limits);
    WalkDecided(tracks, index, reach, edges, order, i);
  }

  ghost predicate SomeDiverged(planned: seq<TrackPlan>) {
    exists i :: 0 <= i < |planned| && planned[i].monitorDiverged
  }

  lemma FullVariants(tracks: seq<TrackSpec>, index: map<Id, nat>, reach: seq<bool>, edges: seq<EdgeDelay>,
                     order: seq<nat>)
    requires FullWalk(tracks, index, reach, edges, order)
    ensures var r := RouteAll(tracks, index, reach, edges, order); r.variants <==> SomeDiverged(r.tracks)
  {
    WalkVariants(tracks, index, reach, edges, order);
    var r := RouteAll(tracks, index, reach, edges, order);
    if SomeDiverged(r.tracks) {
      var i :| 0 <= i < |tracks| && r.tracks[i].monitorDiverged;
      DistinctFull(order, |tracks|, i);
    }
  }

  // Separate monitor instances are asked for exactly when some track's monitor diverges.
  lemma VariantsDecided(tracks: seq<TrackSpec>, limits: Limits)
    requires PlanRoutesSpec(tracks, limits).Ok()
    ensures PlanRoutesSpec(tracks, limits).monitorVariantsNeeded <==>
      SomeDiverged(PlanRoutesSpec(tracks, limits).tracks)
  {
    var index, reach, edges, order := WalkOfPlan(tracks, limits);
    FullVariants(tracks, index, reach, edges, order);
  }

  lemma {:induction false} WalkVariants(tracks: seq<TrackSpec>, index: map<Id, nat>, reach: seq<bool>,
                                        edges: seq<EdgeDelay>, order: seq<nat>)
    requires |reach| == |tracks| && Below(order, |tracks|) && Distinct(order)
    requires forall u :: 0 <= u < |tracks| ==> KnownIds(tracks, index, tracks[u].dests)
    requires !RouteAll(tracks, index, reach, edges, order).failed
    ensures var r := RouteAll(tracks, index, reach, edges, order);
      r.variants <==> exists j :: 0 <= j < |order| && r.tracks[order[j]].monitorDiverged
  {
    if order != [] {
      var n := |order| - 1;
      var before := RouteAll(tracks, index, reach, edges, order[..n]);
      var after := RouteTrack(tracks, index, reach, edges, before, order[n]);
      forall j | 0 <= j < n ensures before.tracks[order[j]] == after.tracks[order[j]] {
        SharedMonitor.RouteTurn(tracks, index, reach, edges, before, order[n], order[j]);
      }
      WalkVariants(tracks, index, reach, edges, order[..n]);
      assert forall j :: 0 <= j < n ==> order[..n][j] == order[j];
    }
  }
}
