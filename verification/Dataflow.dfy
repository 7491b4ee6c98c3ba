/** What a route plan means to the audio callback (engine/src/audio_engine.cpp). */
module Dataflow {
  import opened Words
  import opened Audio
  import opened GraphTopo
  import opened PdcTheorems
  import opened RoutePlanner

  // AudioEngine::process as a dataflow over immutable streams in processing order, and a reference that
  // runs the primary and the low-latency chains as two fully separate signals. A stream is everything a
  // bus carried since it started; plugins are functions of their main and sidechain input histories;
  // faders are at rest.

  type Stream = seq<Frame>

  function Silence(n: nat): Stream {
    seq(n, _ => SILENT)
  }

  function Add(x: Stream, y: Stream): Stream {
    seq(|x|, k requires 0 <= k < |x| =>
      if k < |y| then Frame(x[k].left + y[k].left, x[k].right + y[k].right) else x[k])
  }

  function Scale(g: real, x: Stream): Stream {
    seq(|x|, k requires 0 <= k < |x| => Frame(g * x[k].left, g * x[k].right))
  }

  // x delayed by d frames.
  function Delay(d: nat, x: Stream): Stream {
    seq(|x|, k requires 0 <= k < |x| => if k < d then SILENT else x[k - d])
  }

  lemma DelayZero(x: Stream)
    ensures Delay(0, x) == x
  {
  }

  // ---------- the mixer ----------

  // The audio around the plan: capture streams, fader gains, and the two instances of each plugin.
  datatype Rig = Rig(
    length: nat, source: nat -> Stream, gain: nat -> real,
    plugin: (nat, nat, Stream, Stream) -> Stream, shadow: (nat, nat, Stream, Stream) -> Stream)

  datatype Desk = Desk(tracks: seq<TrackSpec>, plan: RoutePlan, index: map<Id, nat>, rig: Rig) {
    // The plan is for these tracks: one send per dest, primary to input bus and monitor to monitor bus.
    ghost predicate Valid() {
      && |plan.tracks| == |tracks|
      && forall i :: 0 <= i < |tracks| ==>
        && KnownIds(tracks, index, tracks[i].dests) && KnownIds(tracks, index, tracks[i].sidechainDests)
        && Planned(plan.tracks[i].sends, tracks[i].dests, MonitorBus)
        && Planned(plan.tracks[i].sidechainSends, tracks[i].sidechainDests, PrimaryBus)
        && plan.tracks[i].muted == tracks[i].muted
    }
  }

  predicate Planned(sends: seq<SendPlan>, ids: seq<Id>, monitorBus: RouteBus) {
    && |sends| == |ids|
    && forall k :: 0 <= k < |ids| ==>
      sends[k].toId == ids[k] && sends[k].primaryBus == PrimaryBus && sends[k].monitorBus == monitorBus
  }

  function Dests(desk: Desk, u: nat, aux: bool): seq<Id>
    requires u < |desk.tracks|
  {
    if aux then desk.tracks[u].sidechainDests else desk.tracks[u].dests
  }

  // The delay line on the k-th edge of one kind: a repeated id has only the first line.
  function Line(desk: Desk, u: nat, aux: bool, k: nat): u64
    requires u < |desk.tracks| && k < |Dests(desk, u, aux)|
  {
    var ids := Dests(desk, u, aux);
    if ids[k] in ids[..k] then 0
    else DelayOf(desk.plan.latency.edgeDelays, desk.tracks[u].trackId, ids[k], aux)
  }

  // What one path makes of its bus, given the plugin's output for it.
  function RunPath(path: PathPlan, x: Stream, processed: Stream): Stream {
    match path.action
    case Process => processed
    case DelayDry => Delay(path.dryDelay, x)
    case _ => x
  }

  // One slot on the primary and monitor buses p and m.
  function RunSlot(rig: Rig, i: nat, s: nat, slot: SlotPlan, p: Stream, m: Stream, side: Stream): (Stream, Stream) {
    var (p1, m1) :=
      if slot.primary.bus == PrimaryBus then (RunPath(slot.primary, p, rig.plugin(i, s, p, side)), m)
      else (p, RunPath(slot.primary, m, rig.plugin(i, s, m, side)));
    if slot.monitor.action == ReusePrimary then
      if slot.monitor.bus == PrimaryBus then (p1, p1) else (p1, m1)
    else if slot.monitor.bus == PrimaryBus then
      (RunPath(slot.monitor, p1, rig.shadow(i, s, p1, side)), m1)
    else
      (p1, RunPath(slot.monitor, m1, rig.shadow(i, s, m1, side)))
  }

  function RunSlots(rig: Rig, i: nat, slots: seq<SlotPlan>, p: Stream, m: Stream, side: Stream): (Stream, Stream) {
    if slots == [] then (p, m)
    else
      var s := |slots| - 1;
      var (p1, m1) := RunSlots(rig, i, slots[..s], p, m, side);
      RunSlot(rig, i, s, slots[s], p1, m1, side)
  }

  // The buses of all tracks, and what each processed track put out after its fader.
  datatype Mix = Mix(input: seq<Stream>, monitor: seq<Stream>, side: seq<Stream>, primaryOut: seq<Stream>,
                     lowOut: seq<Stream>) {
    predicate Sized(n: nat) { |input| == |monitor| == |side| == |primaryOut| == |lowOut| == n }
  }

  // The first k dest sends of track u.
  function PushSends(desk: Desk, u: nat, k: nat, p: Stream, m: Stream, mix: Mix): (r: Mix)
    requires desk.Valid() && u < |desk.tracks| && k <= |desk.tracks[u].dests| && mix.Sized(|desk.tracks|)
    ensures r.Sized(|desk.tracks|)
  {
    if k == 0 then mix
    else
      var before := PushSends(desk, u, k - 1, p, m, mix);
      var send := desk.plan.tracks[u].sends[k - 1];
      var dest := desk.index[send.toId];
      var primary := if send.primaryBus == PrimaryBus then p else m;
      var monitor := if send.monitorBus == PrimaryBus then p else m;
      before.(input := before.input[dest := Add(before.input[dest], Delay(Line(desk, u, false, k - 1), primary))],
              monitor := before.monitor[dest := Add(before.monitor[dest], monitor)])
  }

  // The first k sidechain sends of track u.
  function PushSides(desk: Desk, u: nat, k: nat, p: Stream, mix: Mix): (r: Mix)
    requires desk.Valid() && u < |desk.tracks| && k <= |desk.tracks[u].sidechainDests| && mix.Sized(|desk.tracks|)
    ensures r.Sized(|desk.tracks|)
  {
    if k == 0 then mix
    else
      var before := PushSides(desk, u, k - 1, p, mix);
      var dest := desk.index[desk.plan.tracks[u].sidechainSends[k - 1].toId];
      before.(side := before.side[dest := Add(before.side[dest], Delay(Line(desk, u, true, k - 1), p))])
  }

  function Fader(desk: Desk, i: nat): real
    requires desk.Valid() && i < |desk.tracks|
  {
    if desk.plan.tracks[i].muted then 0.0 else desk.rig.gain(i)
  }

  // The signals of track i after its fader, from its buses.
  function RunTrack(desk: Desk, mix: Mix, i: nat): (Stream, Stream)
    requires desk.Valid() && i < |desk.tracks| && mix.Sized(|desk.tracks|)
  {
    var own := !desk.tracks[i].usesInputBus;
    var x := if own then desk.rig.source(i) else mix.input[i];
    var y := if own then desk.rig.source(i) else mix.monitor[i];
    var plan := desk.plan.tracks[i];
    var (p, m) := RunSlots(desk.rig, i, plan.slots, x, y, mix.side[i]);
    (Scale(Fader(desk, i), p), Scale(Fader(desk, i), if plan.monitorDiverged then m else p))
  }

  function MixTrack(desk: Desk, mix: Mix, i: nat): (r: Mix)
    requires desk.Valid() && i < |desk.tracks| && mix.Sized(|desk.tracks|)
    ensures r.Sized(|desk.tracks|)
  {
    var (p, m) := RunTrack(desk, mix, i);
    var sent := PushSends(desk, i, |desk.tracks[i].dests|, p, m, mix);
    var all := PushSides(desk, i, |desk.tracks[i].sidechainDests|, p, sent);
    all.(primaryOut := all.primaryOut[i := p], lowOut := all.lowOut[i := m])
  }

  function MixAll(desk: Desk, order: seq<nat>): (r: Mix)
    requires desk.Valid() && Below(order, |desk.tracks|)
    ensures r.Sized(|desk.tracks|)
  {
    if order == [] then
      var silence := seq(|desk.tracks|, _ => Silence(desk.rig.length));
      Mix(silence, silence, silence, silence, silence)
    else
      MixTrack(desk, MixAll(desk, order[..|order| - 1]), order[|order| - 1])
  }

  // What the sink of track i receives.
  function SinkOf(desk: Desk, mix: Mix, i: nat): Stream
    requires desk.Valid() && i < |desk.tracks| && mix.Sized(|desk.tracks|)
  {
    if desk.plan.tracks[i].outputBus == MonitorBus then mix.lowOut[i] else mix.primaryOut[i]
  }

  // ---------- the reference: two separate chains ----------

  function RefPrimary(rig: Rig, i: nat, slots: seq<SlotSpec>, x: Stream, side: Stream): Stream {
    if slots == [] then x
    else
      var s := |slots| - 1;
      var before := RefPrimary(rig, i, slots[..s], x, side);
      if PrimaryProcesses(slots[s]) then rig.plugin(i, s, before, side) else before
  }

  function RefMonitor(rig: Rig, i: nat, slots: seq<SlotSpec>, y: Stream, side: Stream): Stream {
    if slots == [] then y
    else
      var s := |slots| - 1;
      var before := RefMonitor(rig, i, slots[..s], y, side);
      if PrimaryProcesses(slots[s]) && !slots[s].monitorBypassed then rig.shadow(i, s, before, side) else before
  }

  // What the first k edges of one kind out of u add to a bus of track i when u puts out x.
  function Arrive(desk: Desk, u: nat, aux: bool, k: nat, i: nat, delayed: bool, x: Stream, bus: Stream): Stream
    requires desk.Valid() && u < |desk.tracks| && k <= |Dests(desk, u, aux)|
  {
    if k == 0 then bus
    else
      var before := Arrive(desk, u, aux, k - 1, i, delayed, x, bus);
      if desk.index[Dests(desk, u, aux)[k - 1]] == i
      then Add(before, if delayed then Delay(Line(desk, u, aux, k - 1), x) else x)
      else before
  }

  // The sum on a bus of track i when the listed tracks put out vals.
  function BusSum(desk: Desk, order: seq<nat>, vals: seq<Stream>, aux: bool, delayed: bool, i: nat): Stream
    requires desk.Valid() && Below(order, |desk.tracks|) && |vals| == |desk.tracks|
  {
    if order == [] then Silence(desk.rig.length)
    else
      var u := order[|order| - 1];
      Arrive(desk, u, aux, |Dests(desk, u, aux)|, i, delayed, vals[u],
             BusSum(desk, order[..|order| - 1], vals, aux, delayed, i))
  }

  function InputOf(desk: Desk, order: seq<nat>, vals: seq<Stream>, delayed: bool, i: nat): Stream
    requires desk.Valid() && Below(order, |desk.tracks|) && |vals| == |desk.tracks| && i < |desk.tracks|
  {
    if desk.tracks[i].usesInputBus then BusSum(desk, order, vals, false, delayed, i) else desk.rig.source(i)
  }

  // The two chains of track i on what the tracks of `order` put out.
  function RefTrack(desk: Desk, order: seq<nat>, primary: seq<Stream>, low: seq<Stream>, i: nat): (Stream, Stream)
    requires desk.Valid() && Below(order, |desk.tracks|) && |primary| == |low| == |desk.tracks| && i < |desk.tracks|
  {
    var slots := desk.tracks[i].slots;
    var side := BusSum(desk, order, primary, true, true, i);
    (Scale(Fader(desk, i), RefPrimary(desk.rig, i, slots, InputOf(desk, order, primary, true, i), side)),
     Scale(Fader(desk, i), RefMonitor(desk.rig, i, slots, InputOf(desk, order, low, false, i), side)))
  }

  // Two full sets of streams: primaries over compensated edges, low-latency signals over undelayed
  // ones through their own plugin instances, both fed the primary sidechain.
  ghost predicate IsReference(desk: Desk, order: seq<nat>, primary: seq<Stream>, low: seq<Stream>)
    requires desk.Valid() && Below(order, |desk.tracks|)
  {
    && |primary| == |low| == |desk.tracks|
    && forall i: nat :: i < |desk.tracks| ==> (primary[i], low[i]) == RefTrack(desk, order, primary, low, i)
  }

  // ---------- one chain ----------

  ghost predicate Faithful(rig: Rig) {
    forall i, s, x, side :: rig.shadow(i, s, x, side) == rig.plugin(i, s, x, side)
  }

  // No slot asks for a shadow to be created and none drains a degraded one.
  predicate ShadowsReady(slots: seq<SlotPlan>) {
    forall s :: 0 <= s < |slots| ==> slots[s].shadow != Create && slots[s].monitor.action != DrainParameters
  }

  lemma SlotShares(rig: Rig, i: nat, s: nat, slot: SlotSpec, required: bool, diverged: bool, p: Stream, m: Stream,
                   side: Stream)
    ensures var step := PlanSlot(slot, required, diverged); var (p1, m1) := RunSlot(rig, i, s, step.plan, p, m, side);
      && p1 == (if PrimaryProcesses(slot) then rig.plugin(i, s, p, side) else p)
      && (Faithful(rig) && required && (!diverged ==> m == p)
          && step.plan.shadow != Create && step.plan.monitor.action != DrainParameters ==>
          && m1 == (if PrimaryProcesses(slot) && !slot.monitorBypassed then rig.shadow(i, s, m, side) else m)
          && (!step.diverged ==> m1 == p1))
  {
  }

  lemma RunSlotsSnoc(rig: Rig, i: nat, slots: seq<SlotPlan>, slot: SlotPlan, x: Stream, y: Stream, side: Stream)
    ensures var (p, m) := RunSlots(rig, i, slots, x, y, side);
      RunSlots(rig, i, slots + [slot], x, y, side) == RunSlot(rig, i, |slots|, slot, p, m, side)
  {
    assert (slots + [slot])[..|slots|] == slots;
  }

  lemma {:induction false} ChainLength(slots: seq<SlotSpec>, required: bool, diverged: bool)
    requires PlanChain(slots, required, diverged).latency.Some?
    ensures |PlanChain(slots, required, diverged).slots| == |slots|
  {
    if slots != [] {
      ChainLength(slots[..|slots| - 1], required, diverged);
    }
  }

  // The last slot of a planned chain, run on what the slots before it left on the buses.
  lemma ChainStep(rig: Rig, i: nat, slots: seq<SlotSpec>, required: bool, diverged: bool, x: Stream, y: Stream,
                  side: Stream)
    requires slots != [] && PlanChain(slots, required, diverged).latency.Some?
    ensures var s := |slots| - 1;
      var before, chain := PlanChain(slots[..s], required, diverged), PlanChain(slots, required, diverged);
      var (p, m) := RunSlots(rig, i, before.slots, x, y, side);
      var (p1, m1) := RunSlots(rig, i, chain.slots, x, y, side);
      && before.latency.Some? && |chain.slots| == |slots| && chain.slots[..s] == before.slots
      && p1 == (if PrimaryProcesses(slots[s]) then rig.plugin(i, s, p, side) else p)
      && (Faithful(rig) && required && (!before.diverged ==> m == p) && ShadowsReady(chain.slots) ==>
          && m1 == (if PrimaryProcesses(slots[s]) && !slots[s].monitorBypassed then rig.shadow(i, s, m, side) else m)
          && (!chain.diverged ==> m1 == p1))
  {
    var s := |slots| - 1;
    var before := PlanChain(slots[..s], required, diverged);
    ChainLength(slots[..s], required, diverged);
    var step := PlanSlot(slots[s], required, before.diverged);
    RunSlotsSnoc(rig, i, before.slots, step.plan, x, y, side);
    var (p, m) := RunSlots(rig, i, before.slots, x, y, side);
    SlotShares(rig, i, s, slots[s], required, before.diverged, p, m, side);
    var chain := PlanChain(slots, required, diverged);
    assert chain.slots == before.slots + [step.plan];
    assert chain.slots[s] == step.plan;
  }

  // A planned chain leaves on the primary bus what the plain primary chain yields, whatever the
  // shadows do.
  lemma {:induction false} ChainPrimary(rig: Rig, i: nat, slots: seq<SlotSpec>, required: bool, diverged: bool,
                                        x: Stream, y: Stream, side: Stream)
    requires PlanChain(slots, required, diverged).latency.Some?
    ensures RunSlots(rig, i, PlanChain(slots, required, diverged).slots, x, y, side).0
            == RefPrimary(rig, i, slots, x, side)
  {
    if slots != [] {
      ChainStep(rig, i, slots, required, diverged, x, y, side);
      ChainPrimary(rig, i, slots[..|slots| - 1], required, diverged, x, y, side);
    }
  }

  // A planned chain a low-latency output hears: the monitor bus carries the reference signal, and
  // while it has not diverged it is the primary bus.
  lemma {:induction false} ChainMonitor(rig: Rig, i: nat, slots: seq<SlotSpec>, diverged: bool,
                                        x: Stream, y: Stream, side: Stream)
    requires Faithful(rig) && PlanChain(slots, true, diverged).latency.Some?
    requires ShadowsReady(PlanChain(slots, true, diverged).slots)
    requires !diverged ==> y == x
    ensures var chain := PlanChain(slots, true, diverged);
      var (p, m) := RunSlots(rig, i, chain.slots, x, y, side);
      m == RefMonitor(rig, i, slots, y, side) && (!chain.diverged ==> m == p)
  {
    if slots != [] {
      var s := |slots| - 1;
      ChainStep(rig, i, slots, true, diverged, x, y, side);
      var before, chain := PlanChain(slots[..s], true, diverged), PlanChain(slots, true, diverged);
      assert forall k :: 0 <= k < s ==> before.slots[k] == chain.slots[k];
      ChainLength(slots[..s], true, diverged);
      assert ShadowsReady(before.slots);
      ChainMonitor(rig, i, slots[..s], diverged, x, y, side);
    }
  }
}
