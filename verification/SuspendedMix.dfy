/**
 Delay compensation at signal level: with all plugins suspended, every full-PDC output of the mixer
 is the plain mix of the sources, delayed as a whole by exactly the reported total.
 */
module SuspendedMix {
  import opened GraphTopo
  import opened PdcPlanner
  import opened PdcTheorems
  import opened RoutePlanner
  import opened RouteTheorems
  import opened Dataflow
  import opened SharedMonitor

  // ---------- streams ----------

  lemma DelayCompose(a: nat, b: nat, x: Stream)
    ensures Delay(a, Delay(b, x)) == Delay(a + b, x)
  {
  }

  lemma DelayAdd(d: nat, x: Stream, y: Stream)
    requires |x| == |y|
    ensures Delay(d, Add(x, y)) == Add(Delay(d, x), Delay(d, y))
  {
  }

  lemma DelayScale(d: nat, g: real, x: Stream)
    ensures Delay(d, Scale(g, x)) == Scale(g, Delay(d, x))
  {
    var a, b := Delay(d, Scale(g, x)), Scale(g, Delay(d, x));
    forall k | 0 <= k < |x| ensures a[k] == b[k] {
      assert g * 0.0 == 0.0;
    }
  }

  lemma DelaySilence(d: nat, n: nat)
    ensures Delay(d, Silence(n)) == Silence(n)
  {
  }

  // ---------- the mixer's buses as sums of its outputs ----------

  lemma MixedInput(desk: Desk, mix: Mix, u: nat, i: nat)
    requires desk.Valid() && u < |desk.tracks| && i < |desk.tracks| && mix.Sized(|desk.tracks|)
    ensures MixTrack(desk, mix, u).input[i] ==
            Arrive(desk, u, false, |desk.tracks[u].dests|, i, true, RunTrack(desk, mix, u).0, mix.input[i])
  {
    Mixed(desk, mix, u, i);
  }

  lemma MixStep(desk: Desk, order: seq<nat>, k: nat, i: nat)
    requires desk.Valid() && Below(order, |desk.tracks|) && 0 < k <= |order| && i < |desk.tracks|
    ensures var u, before := order[k - 1], MixAll(desk, order[..k - 1]);
      MixAll(desk, order[..k]).input[i] ==
      Arrive(desk, u, false, |desk.tracks[u].dests|, i, true, RunTrack(desk, before, u).0, before.input[i])
  {
    assert order[..k][..k - 1] == order[..k - 1];
    MixedInput(desk, MixAll(desk, order[..k - 1]), order[k - 1], i);
  }

  lemma SumStep(desk: Desk, order: seq<nat>, vals: seq<Stream>, k: nat, i: nat)
    requires desk.Valid() && Below(order, |desk.tracks|) && |vals| == |desk.tracks| && 0 < k <= |order|
    ensures var u := order[k - 1];
      BusSum(desk, order[..k], vals, false, true, i) ==
      Arrive(desk, u, false, |desk.tracks[u].dests|, i, true, vals[u],
        BusSum(desk, order[..k - 1], vals, false, true, i))
  {
    assert order[..k][..k - 1] == order[..k - 1];
  }

  lemma BusStep(desk: Desk, order: seq<nat>, out: seq<Stream>, k: nat, i: nat)
    requires desk.Valid() && Below(order, |desk.tracks|) && 0 < k <= |order| && i < |desk.tracks| == |out|
    requires MixAll(desk, order[..k - 1]).input[i] == BusSum(desk, order[..k - 1], out, false, true, i)
    requires out[order[k - 1]] == RunTrack(desk, MixAll(desk, order[..k - 1]), order[k - 1]).0
    ensures MixAll(desk, order[..k]).input[i] == BusSum(desk, order[..k], out, false, true, i)
  {
    MixStep(desk, order, k, i);
    SumStep(desk, order, out, k, i);
  }

  lemma TurnKept(desk: Desk, order: seq<nat>, k: nat)
    requires desk.Valid() && Below(order, |desk.tracks|) && Distinct(order) && k < |order|
    ensures MixAll(desk, order).primaryOut[order[k]] == RunTrack(desk, MixAll(desk, order[..k]), order[k]).0
  {
    OutputsKept(desk, order, |order|, k);
    assert order[..|order|] == order;
  }

  // The primary bus of a track holds the sum of what the tracks before it put out.
  lemma {:induction false} BusesSum(desk: Desk, order: seq<nat>, out: seq<Stream>, k: nat, i: nat)
    requires desk.Valid() && Below(order, |desk.tracks|) && Distinct(order) && k <= |order| && i < |desk.tracks|
    requires out == MixAll(desk, order).primaryOut
    ensures MixAll(desk, order[..k]).input[i] == BusSum(desk, order[..k], out, false, true, i)
  {
    if k == 0 {
      assert order[..0] == [];
    } else {
      BusesSum(desk, order, out, k - 1, i);
      TurnKept(desk, order, k - 1);
      BusStep(desk, order, out, k, i);
    }
  }

  // ---------- suspended slots ----------

  ghost predicate Quiet(slots: seq<SlotPlan>) {
    forall s :: 0 <= s < |slots| ==>
      && slots[s].primary.bus == PrimaryBus && !Runs(slots[s].primary)
      && slots[s].monitor.action != Process
      && (slots[s].monitor.bus == MonitorBus || slots[s].monitor.action == ReusePrimary)
  }

  lemma QuietSlot(rig: Rig, i: nat, s: nat, slot: SlotPlan, p: Stream, m: Stream, side: Stream)
    requires Quiet([slot])
    ensures RunSlot(rig, i, s, slot, p, m, side).0 == Delay(PrimarySamples(slot), p)
  {
    assert [slot][0] == slot;
    DelayZero(p);
  }

  // Suspended slots delay the primary bus by their total.
  lemma {:induction false} QuietSlots(rig: Rig, i: nat, slots: seq<SlotPlan>, x: Stream, y: Stream, side: Stream)
    requires Quiet(slots)
    ensures RunSlots(rig, i, slots, x, y, side).0 == Delay(PrimaryTotal(slots), x)
  {
    if slots == [] {
      DelayZero(x);
    } else {
      var s := |slots| - 1;
      QuietSlots(rig, i, slots[..s], x, y, side);
      var (p, m) := RunSlots(rig, i, slots[..s], x, y, side);
      QuietSlot(rig, i, s, slots[s], p, m, side);
      DelayCompose(PrimarySamples(slots[s]), PrimaryTotal(slots[..s]), x);
    }
  }

  lemma {:induction false} PlannedQuiet(slots: seq<SlotSpec>, required: bool, diverged: bool, track: TrackPlan)
    requires track.slots == PlanChain(slots, required, diverged).slots
    ensures Quiet(SuspendTrack(track).slots)
  {
    forall s | 0 <= s < |track.slots|
      ensures track.slots[s].primary.bus == PrimaryBus
      ensures track.slots[s].monitor.bus == MonitorBus || track.slots[s].monitor.action == ReusePrimary
    {
      ChainBuses(slots, required, diverged, s);
    }
  }

  lemma {:induction false} ChainBuses(slots: seq<SlotSpec>, required: bool, diverged: bool, s: nat)
    requires s < |PlanChain(slots, required, diverged).slots|
    ensures var slot := PlanChain(slots, required, diverged).slots[s];
      slot.primary.bus == PrimaryBus && (slot.monitor.bus == MonitorBus || slot.monitor.action == ReusePrimary)
  {
    if slots != [] {
      var before := PlanChain(slots[..|slots| - 1], required, diverged);
      if s < |before.slots| {
        ChainBuses(slots[..|slots| - 1], required, diverged, s);
      }
    }
  }

  // ---------- the plain mix ----------

  // Streams of an undelayed mix without plugins.
  ghost predicate PlainMix(desk: Desk, order: seq<nat>, plain: seq<Stream>)
    requires desk.Valid() && Below(order, |desk.tracks|)
  {
    && |plain| == |desk.tracks|
    && forall i: nat :: i < |desk.tracks| ==>
      plain[i] == Scale(Fader(desk, i), InputOf(desk, order, plain, false, i))
  }

  // A desk whose plan is silenced: no slot runs, per-track delays and edge delays are those of a solved plan.
  ghost predicate Compensated(desk: Desk, order: seq<nat>, job: Job, w: Walk) {
    && desk.Valid() && Below(order, |desk.tracks|) && Distinct(order) && SendsForward(desk, order)
    && Timing(job, w, desk.plan.latency.edgeDelays) && |job.nodes| == |desk.tracks|
    && (forall i: nat :: i < |desk.tracks| ==> Settled(desk, job.nodes, i))
  }

  ghost predicate Settled(desk: Desk, nodes: seq<PdcNode>, i: nat)
    requires desk.Valid() && |nodes| == |desk.tracks| && i < |desk.tracks|
  {
    && Quiet(desk.plan.tracks[i].slots)
    && PrimaryTotal(desk.plan.tracks[i].slots) == nodes[i].primaryLatency
    && nodes[i].trackId == desk.tracks[i].trackId
    && Distinct(desk.tracks[i].dests)
    && |desk.rig.source(i)| == desk.rig.length
    && (!desk.tracks[i].usesInputBus ==> IsRoot(nodes, i))
    && forall k :: 0 <= k < |desk.tracks[i].dests| ==>
      var v := desk.index[desk.tracks[i].dests[k]];
      Leg(nodes, i, v, false) && desk.tracks[v].trackId == desk.tracks[i].dests[k]
  }

  lemma {:induction false} ArriveSize(desk: Desk, u: nat, k: nat, i: nat, delayed: bool, x: Stream, bus: Stream)
    requires desk.Valid() && u < |desk.tracks| && k <= |Dests(desk, u, false)|
    ensures |Arrive(desk, u, false, k, i, delayed, x, bus)| == |bus|
  {
    if k > 0 {
      ArriveSize(desk, u, k - 1, i, delayed, x, bus);
    }
  }

  lemma {:induction false} SumSize(desk: Desk, seen: seq<nat>, vals: seq<Stream>, delayed: bool, i: nat)
    requires desk.Valid() && Below(seen, |desk.tracks|) && |vals| == |desk.tracks|
    ensures |BusSum(desk, seen, vals, false, delayed, i)| == desk.rig.length
  {
    if seen != [] {
      var u, before := seen[|seen| - 1], seen[..|seen| - 1];
      SumSize(desk, before, vals, delayed, i);
      ArriveSize(desk, u, |Dests(desk, u, false)|, i, delayed, vals[u],
                 BusSum(desk, before, vals, false, delayed, i));
    }
  }

  lemma PlainSize(desk: Desk, order: seq<nat>, job: Job, w: Walk, plain: seq<Stream>, i: nat)
    requires Compensated(desk, order, job, w) && PlainMix(desk, order, plain) && i < |desk.tracks|
    ensures |plain[i]| == desk.rig.length
  {
    assert Settled(desk, job.nodes, i);
    SumSize(desk, order, plain, false, i);
  }

  // The line on the k-th dest edge into i lifts the sender to the slowest input of i.
  lemma LineLifts(desk: Desk, order: seq<nat>, job: Job, w: Walk, u: nat, k: nat, i: nat)
    requires Compensated(desk, order, job, w) && u < |desk.tracks| && k < |desk.tracks[u].dests|
    requires desk.index[desk.tracks[u].dests[k]] == i && i < |desk.tracks| && job.reach[i]
    ensures job.reach[u] && Line(desk, u, false, k) + w.primary[u] == Input(job, w.primary, i)
  {
    assert Settled(desk, job.nodes, u) && Settled(desk, job.nodes, i);
    assert Leg(job.nodes, u, i, false);
    assert desk.tracks[u].dests[k] !in desk.tracks[u].dests[..k];
  }

  // Edges whose lines add up to `input` with the sender's own `late` delay the whole arrival by `input`.
  lemma {:induction false} ArriveDelayed(desk: Desk, u: nat, k: nat, i: nat, late: nat, input: nat,
                                         plain: Stream, bus: Stream)
    requires desk.Valid() && u < |desk.tracks| && k <= |desk.tracks[u].dests|
    requires forall j :: 0 <= j < k && desk.index[Dests(desk, u, false)[j]] == i ==>
      Line(desk, u, false, j) + late == input
    requires |plain| == |bus|
    ensures Arrive(desk, u, false, k, i, true, Delay(late, plain), Delay(input, bus))
            == Delay(input, Arrive(desk, u, false, k, i, false, plain, bus))
  {
    if k > 0 {
      ArriveDelayed(desk, u, k - 1, i, late, input, plain, bus);
      if desk.index[Dests(desk, u, false)[k - 1]] == i {
        DelayCompose(Line(desk, u, false, k - 1), late, plain);
        ArriveSize(desk, u, k - 1, i, false, plain, bus);
        DelayAdd(input, Arrive(desk, u, false, k - 1, i, false, plain, bus), plain);
      }
    }
  }

  // The compensated bus of i is its plain bus, delayed to its slowest input.
  lemma {:induction false} SumDelayed(desk: Desk, order: seq<nat>, job: Job, w: Walk, seen: seq<nat>,
                                      out: seq<Stream>, plain: seq<Stream>, i: nat)
    requires Compensated(desk, order, job, w) && Below(seen, |desk.tracks|) && |out| == |desk.tracks|
    requires PlainMix(desk, order, plain) && i < |desk.tracks| && job.reach[i]
    requires forall j :: 0 <= j < |seen| && job.reach[seen[j]] ==>
      out[seen[j]] == Delay(w.primary[seen[j]], plain[seen[j]])
    ensures BusSum(desk, seen, out, false, true, i)
            == Delay(Input(job, w.primary, i), BusSum(desk, seen, plain, false, false, i))
  {
    if seen == [] {
      DelaySilence(Input(job, w.primary, i), desk.rig.length);
    } else {
      var u, before := seen[|seen| - 1], seen[..|seen| - 1];
      SumDelayed(desk, order, job, w, before, out, plain, i);
      SumSize(desk, before, plain, false, i);
      PlainSize(desk, order, job, w, plain, u);
      var n := |desk.tracks[u].dests|;
      var bus := BusSum(desk, before, plain, false, false, i);
      var late := Delay(Input(job, w.primary, i), bus);
      forall k | 0 <= k < n && desk.index[Dests(desk, u, false)[k]] == i
        ensures job.reach[u] && Line(desk, u, false, k) + w.primary[u] == Input(job, w.primary, i)
      {
        LineLifts(desk, order, job, w, u, k, i);
      }
      ArriveDelayed(desk, u, n, i, w.primary[u], Input(job, w.primary, i), plain[u], bus);
      if !Joins(desk, u, false, n, i) {
        ArriveNothing(desk, u, false, n, i, true, out[u], late);
        ArriveNothing(desk, u, false, n, i, true, Delay(w.primary[u], plain[u]), late);
      }
    }
  }

  function InputBusOf(desk: Desk, mix: Mix, i: nat): Stream
    requires desk.Valid() && i < |desk.tracks| && mix.Sized(|desk.tracks|)
  {
    if desk.tracks[i].usesInputBus then mix.input[i] else desk.rig.source(i)
  }

  lemma QuietTrack(desk: Desk, mix: Mix, i: nat)
    requires desk.Valid() && i < |desk.tracks| && mix.Sized(|desk.tracks|) && Quiet(desk.plan.tracks[i].slots)
    ensures RunTrack(desk, mix, i).0 ==
            Scale(Fader(desk, i), Delay(PrimaryTotal(desk.plan.tracks[i].slots), InputBusOf(desk, mix, i)))
  {
    var y := if desk.tracks[i].usesInputBus then mix.monitor[i] else desk.rig.source(i);
    QuietSlots(desk.rig, i, desk.plan.tracks[i].slots, InputBusOf(desk, mix, i), y, mix.side[i]);
  }

  // At its turn, the input of a track is its plain input delayed to its slowest source.
  lemma TurnInput(desk: Desk, order: seq<nat>, job: Job, w: Walk, plain: seq<Stream>, k: nat)
    requires Compensated(desk, order, job, w) && PlainMix(desk, order, plain)
    requires k < |order| && job.reach[order[k]]
    requires forall j :: 0 <= j < k && job.reach[order[j]] ==>
      MixAll(desk, order).primaryOut[order[j]] == Delay(w.primary[order[j]], plain[order[j]])
    ensures InputBusOf(desk, MixAll(desk, order[..k]), order[k]) ==
            Delay(Input(job, w.primary, order[k]), InputOf(desk, order, plain, false, order[k]))
  {
    var u := order[k];
    assert Settled(desk, job.nodes, u);
    if desk.tracks[u].usesInputBus {
      BusesSum(desk, order, MixAll(desk, order).primaryOut, k, u);
      SumDelayed(desk, order, job, w, order[..k], MixAll(desk, order).primaryOut, plain, u);
      SumAll(desk, order, plain, false, false, k);
    } else {
      assert job.incoming[u] == [];
      DelayZero(desk.rig.source(u));
    }
  }

  // What the k-th track puts out, from its input at its turn.
  lemma TurnOut(desk: Desk, order: seq<nat>, k: nat)
    requires desk.Valid() && Below(order, |desk.tracks|) && Distinct(order)
    requires k < |order| && Quiet(desk.plan.tracks[order[k]].slots)
    ensures MixAll(desk, order).primaryOut[order[k]] ==
            Scale(Fader(desk, order[k]), Delay(PrimaryTotal(desk.plan.tracks[order[k]].slots),
                                               InputBusOf(desk, MixAll(desk, order[..k]), order[k])))
  {
    TurnKept(desk, order, k);
    QuietTrack(desk, MixAll(desk, order[..k]), order[k]);
  }

  // The k-th track puts out its plain stream delayed by its path latency.
  lemma TurnDelayed(desk: Desk, order: seq<nat>, job: Job, w: Walk, plain: seq<Stream>, k: nat)
    requires Compensated(desk, order, job, w) && PlainMix(desk, order, plain)
    requires k < |order| && job.reach[order[k]]
    requires forall j :: 0 <= j < k && job.reach[order[j]] ==>
      MixAll(desk, order).primaryOut[order[j]] == Delay(w.primary[order[j]], plain[order[j]])
    ensures MixAll(desk, order).primaryOut[order[k]] == Delay(w.primary[order[k]], plain[order[k]])
  {
    var u := order[k];
    var dry, late := InputOf(desk, order, plain, false, u), Input(job, w.primary, u);
    var own := job.nodes[u].primaryLatency;
    assert Quiet(desk.plan.tracks[u].slots) && PrimaryTotal(desk.plan.tracks[u].slots) == own by {
      assert Settled(desk, job.nodes, u);
    }
    var bus := InputBusOf(desk, MixAll(desk, order[..k]), u);
    assert bus == Delay(late, dry) by {
      TurnInput(desk, order, job, w, plain, k);
    }
    var out := MixAll(desk, order).primaryOut[u];
    assert out == Scale(Fader(desk, u), Delay(own, bus)) by {
      TurnOut(desk, order, k);
    }
    assert w.primary[u] == late + own by {
      assert Solved(job, w, u);
    }
    assert plain[u] == Scale(Fader(desk, u), dry);
    LateOutput(Fader(desk, u), own, late, w.primary[u], dry, bus, out, plain[u]);
  }

  lemma LateOutput(g: real, own: nat, input: nat, total: nat, dry: Stream, bus: Stream, out: Stream, plain: Stream)
    requires bus == Delay(input, dry) && out == Scale(g, Delay(own, bus))
    requires plain == Scale(g, dry) && total == input + own
    ensures out == Delay(total, plain)
  {
    DelayCompose(own, input, dry);
    DelayScale(input + own, g, dry);
  }

  lemma {:induction false} AllDelayed(desk: Desk, order: seq<nat>, job: Job, w: Walk, plain: seq<Stream>, k: nat)
    requires Compensated(desk, order, job, w) && PlainMix(desk, order, plain) && k <= |order|
    ensures forall j :: 0 <= j < k && job.reach[order[j]] ==>
      MixAll(desk, order).primaryOut[order[j]] == Delay(w.primary[order[j]], plain[order[j]])
  {
    if k > 0 {
      AllDelayed(desk, order, job, w, plain, k - 1);
      if job.reach[order[k - 1]] {
        TurnDelayed(desk, order, job, w, plain, k - 1);
      }
    }
  }

  // ---------- the suspended plan of a set of tracks ----------

  lemma SuspendedFits(desk: Desk)
    requires desk.Valid()
    ensures desk.(plan := SuspensionSpec(desk.plan)).Valid()
  {
  }

  // The mixer running the suspended plan.
  ghost function SuspendedDesk(tracks: seq<TrackSpec>, limits: Limits, rig: Rig): (desk: Desk)
    requires PlanRoutesSpec(tracks, limits).Ok()
    ensures desk.Valid() && desk.tracks == tracks && desk.plan == SuspensionSpec(PlanRoutesSpec(tracks, limits))
    ensures UniqueIds(TrackNodes(tracks)) && desk.index == IndexMap(TrackNodes(tracks)) && desk.rig == rig
  {
    var desk := DeskOf(tracks, limits, rig);
    SuspendedFits(desk);
    desk.(plan := SuspensionSpec(desk.plan))
  }

  // Dest lists have no repeats, capture streams have the common length, and tracks with their own
  // source take no input.
  ghost predicate Orderly(tracks: seq<TrackSpec>, rig: Rig) {
    forall i: nat :: i < |tracks| ==>
      && Distinct(tracks[i].dests)
      && |rig.source(i)| == rig.length
      && (!tracks[i].usesInputBus ==>
        forall u :: 0 <= u < |tracks| ==>
          tracks[i].trackId !in tracks[u].dests && tracks[i].trackId !in tracks[u].sidechainDests)
  }

  lemma TrackQuiet(tracks: seq<TrackSpec>, limits: Limits, i: nat)
    requires PlanRoutesSpec(tracks, limits).Ok() && i < |tracks|
    ensures |PlanRoutesSpec(tracks, limits).tracks| == |tracks|
    ensures Quiet(SuspendTrack(PlanRoutesSpec(tracks, limits).tracks[i]).slots)
  {
    var reach, edges, diverged := PlanEquation(tracks, limits, i);
    PlannedQuiet(tracks[i].slots, reach[i], diverged, PlanRoutesSpec(tracks, limits).tracks[i]);
  }

  lemma NoSenders(tracks: seq<TrackSpec>, nodes: seq<PdcNode>, rig: Rig, i: nat)
    requires SameTracks(tracks, nodes) && Orderly(tracks, rig) && i < |tracks| && !tracks[i].usesInputBus
    ensures IsRoot(nodes, i)
  {
    forall u: nat, aux | u < |nodes| ensures !Leg(nodes, u, i, aux) {
      assert nodes[u].dests == tracks[u].dests;
    }
  }

  lemma DestLeg(tracks: seq<TrackSpec>, nodes: seq<PdcNode>, i: nat, k: nat)
    requires SameTracks(tracks, nodes) && i < |tracks| && k < |tracks[i].dests|
    requires UniqueIds(TrackNodes(tracks)) && tracks[i].dests[k] in IndexMap(TrackNodes(tracks))
    ensures var v := IndexMap(TrackNodes(tracks))[tracks[i].dests[k]];
      Leg(nodes, i, v, false) && tracks[v].trackId == tracks[i].dests[k]
  {
    var v := IndexMap(TrackNodes(tracks))[tracks[i].dests[k]];
    assert IsIndex(TrackNodes(tracks), tracks[i].dests[k], v);
  }

  lemma SettledFrom(desk: Desk, nodes: seq<PdcNode>, i: nat)
    requires desk.Valid() && SameTracks(desk.tracks, nodes) && Orderly(desk.tracks, desk.rig) && i < |nodes|
    requires UniqueIds(TrackNodes(desk.tracks)) && desk.index == IndexMap(TrackNodes(desk.tracks))
    requires Quiet(desk.plan.tracks[i].slots)
    requires PrimaryTotal(desk.plan.tracks[i].slots) == nodes[i].primaryLatency
    ensures Settled(desk, nodes, i)
  {
    if !desk.tracks[i].usesInputBus {
      NoSenders(desk.tracks, nodes, desk.rig, i);
    }
    forall k | 0 <= k < |desk.tracks[i].dests|
      ensures var v := desk.index[desk.tracks[i].dests[k]];
        Leg(nodes, i, v, false) && desk.tracks[v].trackId == desk.tracks[i].dests[k]
    {
      DestLeg(desk.tracks, nodes, i, k);
    }
  }

  lemma SlotsSettled(tracks: seq<TrackSpec>, limits: Limits, i: nat)
    requires PlanRoutesSpec(tracks, limits).Ok() && i < |tracks|
    ensures |SuspensionSpec(PlanRoutesSpec(tracks, limits)).tracks| == |FinalNodes(tracks, limits)| == |tracks|
    ensures var track := SuspensionSpec(PlanRoutesSpec(tracks, limits)).tracks[i];
      Quiet(track.slots) && PrimaryTotal(track.slots) == FinalNodes(tracks, limits)[i].primaryLatency
  {
    TrackQuiet(tracks, limits, i);
    SuspensionKeepsLatencies(tracks, limits, i);
  }

  ghost predicate SameTracks(tracks: seq<TrackSpec>, nodes: seq<PdcNode>) {
    && |nodes| == |tracks|
    && forall i :: 0 <= i < |nodes| ==>
      && nodes[i].trackId == tracks[i].trackId && nodes[i].dests == tracks[i].dests
      && nodes[i].sidechainDests == tracks[i].sidechainDests
  }

  lemma FinalTracks(tracks: seq<TrackSpec>, limits: Limits)
    requires PlanRoutesSpec(tracks, limits).Ok()
    ensures SameTracks(tracks, FinalNodes(tracks, limits))
  {
    var nodes := FinalNodes(tracks, limits);
    forall i | 0 <= i < |nodes|
      ensures nodes[i].trackId == tracks[i].trackId && nodes[i].dests == tracks[i].dests
      ensures nodes[i].sidechainDests == tracks[i].sidechainDests
    {
      LatenciesAreSlotSums(tracks, limits, i);
    }
  }

  lemma CompensatedDesk(tracks: seq<TrackSpec>, limits: Limits, rig: Rig) returns (job: Job, w: Walk)
    requires PlanRoutesSpec(tracks, limits).Ok() && Orderly(tracks, rig)
    ensures Compensated(SuspendedDesk(tracks, limits, rig), OrderOf(tracks), job, w)
    ensures job.nodes == FinalNodes(tracks, limits)
    ensures KnownOutputs(job.nodes, LatencyOutputs(tracks))
    ensures job == JobOf(job.nodes, LatencyOutputs(tracks), limits)
    ensures w == WalkOf(job.nodes, LatencyOutputs(tracks), limits)
  {
    var nodes := FinalNodes(tracks, limits);
    job, w := PlanTiming(nodes, LatencyOutputs(tracks), limits);
    var desk := SuspendedDesk(tracks, limits, rig);
    OrderForward(desk);
    FinalTracks(tracks, limits);
    forall i: nat | i < |tracks| ensures Settled(desk, nodes, i) {
      SlotsSettled(tracks, limits, i);
      SettledFrom(desk, nodes, i);
    }
  }

  // Main result: on the suspended plan every full-PDC output carries the plain, undelayed,
  // plugin-free mix, late by exactly its reported total.
  lemma SuspendedMixIsDelayedMix(tracks: seq<TrackSpec>, limits: Limits, rig: Rig, plain: seq<Stream>, k: nat, v: nat)
    requires PlanRoutesSpec(tracks, limits).Ok() && Orderly(tracks, rig)
    requires PlainMix(SuspendedDesk(tracks, limits, rig), OrderOf(tracks), plain)
    requires k < |LatencyOutputs(tracks)| && LatencyOutputs(tracks)[k].policy == FullPdc
    requires v < |tracks| && tracks[v].trackId == LatencyOutputs(tracks)[k].trackId
    ensures var desk := SuspendedDesk(tracks, limits, rig);
      && k < |desk.plan.latency.outputs|
      && MixAll(desk, OrderOf(tracks)).primaryOut[v] == Delay(desk.plan.latency.outputs[k].total, plain[v])
  {
    var nodes := FinalNodes(tracks, limits);
    var job, w := CompensatedDesk(tracks, limits, rig);
    LatenciesAreSlotSums(tracks, limits, v);
    OutputNode(nodes, LatencyOutputs(tracks), limits, k, v);
    var desk, order := SuspendedDesk(tracks, limits, rig), OrderOf(tracks);
    AllDelayed(desk, order, job, w, plain, |order|);
    PlanParts(tracks, limits);
    DistinctFull(order, |tracks|, v);
  }

  // ---------- the plain mix exists ----------

  // The desk with its plugins taken out.
  function Bare(desk: Desk): Desk {
    desk.(tracks := seq(|desk.tracks|, i requires 0 <= i < |desk.tracks| => desk.tracks[i].(slots := [])))
  }

  lemma BareValid(desk: Desk)
    requires desk.Valid()
    ensures Bare(desk).Valid()
  {
  }

  lemma {:induction false} ArriveBare(desk: Desk, u: nat, k: nat, i: nat, x: Stream, bus: Stream)
    requires desk.Valid() && Bare(desk).Valid() && u < |desk.tracks| && k <= |Dests(desk, u, false)|
    ensures Arrive(Bare(desk), u, false, k, i, false, x, bus) == Arrive(desk, u, false, k, i, false, x, bus)
  {
    if k > 0 {
      ArriveBare(desk, u, k - 1, i, x, bus);
    }
  }

  lemma {:induction false} SumBare(desk: Desk, order: seq<nat>, vals: seq<Stream>, i: nat)
    requires desk.Valid() && Bare(desk).Valid() && Below(order, |desk.tracks|) && |vals| == |desk.tracks|
    ensures BusSum(Bare(desk), order, vals, false, false, i) == BusSum(desk, order, vals, false, false, i)
  {
    if order != [] {
      var u := order[|order| - 1];
      SumBare(desk, order[..|order| - 1], vals, i);
      ArriveBare(desk, u, |Dests(desk, u, false)|, i, vals[u],
                 BusSum(desk, order[..|order| - 1], vals, false, false, i));
    }
  }

  lemma BareTurn(desk: Desk, order: seq<nat>, k: nat)
    requires desk.Valid() && Below(order, |desk.tracks|) && Distinct(order) && SendsForward(desk, order)
    requires Bare(desk).Valid() && k < |order|
    ensures var low := RefAll(Bare(desk), order).1;
      low[order[k]] == Scale(Fader(desk, order[k]), InputOf(desk, order, low, false, order[k]))
  {
    var low := RefAll(Bare(desk), order).1;
    BareForward(desk, order);
    RefTurn(Bare(desk), order, k);
    SumBare(desk, order, low, order[k]);
  }

  lemma BareForward(desk: Desk, order: seq<nat>)
    requires desk.Valid() && Bare(desk).Valid() && Below(order, |desk.tracks|) && SendsForward(desk, order)
    ensures SendsForward(Bare(desk), order)
  {
    forall j, k, aux | 0 <= k <= j < |order|
      ensures !Joins(Bare(desk), order[j], aux, |Dests(Bare(desk), order[j], aux)|, order[k])
    {
      assert !Joins(desk, order[j], aux, |Dests(desk, order[j], aux)|, order[k]);
    }
  }

  // Every plan has a plain mix: what the low-latency outputs of the plugin-free mixer carry.
  lemma PlainMixExists(tracks: seq<TrackSpec>, limits: Limits, rig: Rig)
    requires PlanRoutesSpec(tracks, limits).Ok()
    ensures var desk := SuspendedDesk(tracks, limits, rig);
      Bare(desk).Valid() && PlainMix(desk, OrderOf(tracks), RefAll(Bare(desk), OrderOf(tracks)).1)
  {
    var desk, order := SuspendedDesk(tracks, limits, rig), OrderOf(tracks);
    PlanParts(tracks, limits);
    OrderForward(desk);
    BareValid(desk);
    forall i: nat | i < |tracks|
      ensures var low := RefAll(Bare(desk), order).1;
        low[i] == Scale(Fader(desk, i), InputOf(desk, order, low, false, i))
    {
      DistinctFull(order, |tracks|, i);
      var k :| 0 <= k < |order| && order[k] == i;
      BareTurn(desk, order, k);
    }
  }
}
