/** What the mixer puts out, sample by sample. */
module MixSamples {
  import opened Words
  import opened Audio
  import opened GraphTopo
  import opened PdcPlanner
  import opened PdcTheorems
  import opened RoutePlanner
  import opened RouteTheorems
  import opened Dataflow
  import opened SharedMonitor

  // The buses are sums of delayed samples over the edges into a track, the outputs are the chains times
  // the fader gain, and a muted track is silent and sends nothing.

  // ---------- samples ----------

  function Side(f: Frame, left: bool): real {
    if left then f.left else f.right
  }

  // The sample of x at k when x comes d frames late.
  function Late(x: Stream, d: nat, k: nat, left: bool): real {
    if d <= k < |x| then Side(x[k - d], left) else 0.0
  }

  lemma AddSample(x: Stream, y: Stream, k: nat, left: bool)
    requires k < |x|
    ensures |Add(x, y)| == |x| && Side(Add(x, y)[k], left) == Side(x[k], left) + Late(y, 0, k, left)
  {
  }

  lemma DelaySample(d: nat, x: Stream, k: nat, left: bool)
    ensures Late(Delay(d, x), 0, k, left) == Late(x, d, k, left)
  {
  }

  // ---------- one edge after the other ----------

  // How late the k-th edge of one kind out of u delivers: the delay of its send in the plan, for the
  // first edge to its target; monitor signals are never late.
  function Lateness(desk: Desk, u: nat, aux: bool, k: nat): nat
    requires desk.Valid() && u < |desk.tracks| && k < |Dests(desk, u, aux)|
  {
    var sends := if aux then desk.plan.tracks[u].sidechainSends else desk.plan.tracks[u].sends;
    if exists j :: 0 <= j < k && Dests(desk, u, aux)[j] == Dests(desk, u, aux)[k] then 0 else sends[k].delay
  }

  // What the first n edges of one kind out of u deliver to track i at sample k when u puts out x.
  function Delivered(desk: Desk, u: nat, aux: bool, n: nat, i: nat, late: bool, x: Stream, k: nat, left: bool): real
    requires desk.Valid() && u < |desk.tracks| && i < |desk.tracks| && n <= |Dests(desk, u, aux)|
  {
    if n == 0 then 0.0
    else
      Delivered(desk, u, aux, n - 1, i, late, x, k, left)
      + if Dests(desk, u, aux)[n - 1] != desk.tracks[i].trackId then 0.0
        else Late(x, if late then Lateness(desk, u, aux, n - 1) else 0, k, left)
  }

  // The same over all edges of the listed tracks.
  function Summed(desk: Desk, order: seq<nat>, outs: seq<Stream>, aux: bool, i: nat, late: bool, k: nat,
                  left: bool): real
    requires desk.Valid() && Below(order, |desk.tracks|) && |outs| == |desk.tracks| && i < |desk.tracks|
  {
    if order == [] then 0.0
    else
      var u := order[|order| - 1];
      Summed(desk, order[..|order| - 1], outs, aux, i, late, k, left)
      + Delivered(desk, u, aux, |Dests(desk, u, aux)|, i, late, outs[u], k, left)
  }

  // The desk's index names its tracks, and its lines carry the delays of the sends.
  ghost predicate Wired(desk: Desk) {
    && desk.Valid() && IsIndexMap(TrackNodes(desk.tracks), desk.index)
    && forall u: nat, aux, k :: u < |desk.tracks| && 0 <= k < |Dests(desk, u, aux)| ==>
      Line(desk, u, aux, k) == Lateness(desk, u, aux, k)
  }

  lemma IndexNames(desk: Desk, id: Id, i: nat)
    requires Wired(desk) && id in desk.index && i < |desk.tracks|
    ensures desk.index[id] == i <==> id == desk.tracks[i].trackId
  {
    var nodes := TrackNodes(desk.tracks);
    assert IsIndex(nodes, id, desk.index[id]);
    assert nodes[i].trackId == desk.tracks[i].trackId;
  }

  lemma KnownDest(desk: Desk, u: nat, aux: bool, k: nat)
    requires desk.Valid() && u < |desk.tracks| && k < |Dests(desk, u, aux)|
    ensures Dests(desk, u, aux)[k] in desk.index && desk.index[Dests(desk, u, aux)[k]] < |desk.tracks|
  {
  }

  lemma {:induction false} ArriveSample(desk: Desk, u: nat, aux: bool, n: nat, i: nat, late: bool, x: Stream,
                                        bus: Stream, k: nat, left: bool)
    requires Wired(desk) && u < |desk.tracks| && i < |desk.tracks| && n <= |Dests(desk, u, aux)| && k < |bus|
    ensures |Arrive(desk, u, aux, n, i, late, x, bus)| == |bus|
    ensures Side(Arrive(desk, u, aux, n, i, late, x, bus)[k], left)
            == Side(bus[k], left) + Delivered(desk, u, aux, n, i, late, x, k, left)
  {
    if n > 0 {
      ArriveSample(desk, u, aux, n - 1, i, late, x, bus, k, left);
      KnownDest(desk, u, aux, n - 1);
      IndexNames(desk, Dests(desk, u, aux)[n - 1], i);
      var before := Arrive(desk, u, aux, n - 1, i, late, x, bus);
      var y := if late then Delay(Line(desk, u, aux, n - 1), x) else x;
      AddSample(before, y, k, left);
      DelaySample(Line(desk, u, aux, n - 1), x, k, left);
      assert Line(desk, u, aux, n - 1) == Lateness(desk, u, aux, n - 1);
    }
  }

  lemma {:induction false} BusSample(desk: Desk, order: seq<nat>, outs: seq<Stream>, aux: bool, late: bool, i: nat,
                                     k: nat, left: bool)
    requires Wired(desk) && Below(order, |desk.tracks|) && |outs| == |desk.tracks| && i < |desk.tracks|
    requires k < desk.rig.length
    ensures |BusSum(desk, order, outs, aux, late, i)| == desk.rig.length
    ensures Side(BusSum(desk, order, outs, aux, late, i)[k], left) == Summed(desk, order, outs, aux, i, late, k, left)
  {
    if order != [] {
      var u, seen := order[|order| - 1], order[..|order| - 1];
      BusSample(desk, seen, outs, aux, late, i, k, left);
      ArriveSample(desk, u, aux, |Dests(desk, u, aux)|, i, late, outs[u], BusSum(desk, seen, outs, aux, late, i),
        k, left);
    }
  }

  // ---------- the buses of the finished mix ----------

  lemma BusNext(desk: Desk, order: seq<nat>, k: nat, vals: seq<Stream>, aux: bool, late: bool, i: nat)
    requires desk.Valid() && Below(order, |desk.tracks|) && 0 < k <= |order| && |vals| == |desk.tracks|
    ensures var u := order[k - 1];
      BusSum(desk, order[..k], vals, aux, late, i) ==
      Arrive(desk, u, aux, |Dests(desk, u, aux)|, i, late, vals[u], BusSum(desk, order[..k - 1], vals, aux, late, i))
  {
    assert order[..k][..k - 1] == order[..k - 1];
  }

  lemma TurnNext(desk: Desk, order: seq<nat>, k: nat)
    requires desk.Valid() && Below(order, |desk.tracks|) && 0 < k <= |order|
    ensures MixAll(desk, order[..k]) == MixTrack(desk, MixAll(desk, order[..k - 1]), order[k - 1])
  {
    assert order[..k][..k - 1] == order[..k - 1];
  }

  // The buses of track i are the sums over what the tracks seen put out in the end.
  ghost predicate BusesAre(desk: Desk, seen: seq<nat>, mix: Mix, done: Mix, i: nat)
    requires desk.Valid() && Below(seen, |desk.tracks|) && i < |desk.tracks|
    requires mix.Sized(|desk.tracks|) && done.Sized(|desk.tracks|)
  {
    && mix.input[i] == BusSum(desk, seen, done.primaryOut, false, true, i)
    && mix.monitor[i] == BusSum(desk, seen, done.lowOut, false, false, i)
    && mix.side[i] == BusSum(desk, seen, done.primaryOut, true, true, i)
  }

  lemma BusesEmpty(desk: Desk, done: Mix, i: nat)
    requires desk.Valid() && i < |desk.tracks| && done.Sized(|desk.tracks|)
    ensures BusesAre(desk, [], MixAll(desk, []), done, i)
  {
  }

  lemma BusesStep(desk: Desk, order: seq<nat>, k: nat, mix: Mix, done: Mix, i: nat)
    requires desk.Valid() && Below(order, |desk.tracks|) && 0 < k <= |order| && i < |desk.tracks|
    requires mix.Sized(|desk.tracks|) && done.Sized(|desk.tracks|) && BusesAre(desk, order[..k - 1], mix, done, i)
    requires done.primaryOut[order[k - 1]] == RunTrack(desk, mix, order[k - 1]).0
    requires done.lowOut[order[k - 1]] == RunTrack(desk, mix, order[k - 1]).1
    ensures BusesAre(desk, order[..k], MixTrack(desk, mix, order[k - 1]), done, i)
  {
    Mixed(desk, mix, order[k - 1], i);
    BusNext(desk, order, k, done.primaryOut, false, true, i);
    BusNext(desk, order, k, done.lowOut, false, false, i);
    BusNext(desk, order, k, done.primaryOut, true, true, i);
  }

  // In the end the k-th track of the order still has what it put out at its turn.
  ghost predicate PutOut(desk: Desk, order: seq<nat>, done: Mix, k: nat)
    requires desk.Valid() && Below(order, |desk.tracks|) && k < |order| && done.Sized(|desk.tracks|)
  {
    && done.primaryOut[order[k]] == RunTrack(desk, MixAll(desk, order[..k]), order[k]).0
    && done.lowOut[order[k]] == RunTrack(desk, MixAll(desk, order[..k]), order[k]).1
  }

  lemma AllPutOut(desk: Desk, order: seq<nat>)
    requires desk.Valid() && Below(order, |desk.tracks|) && Distinct(order)
    ensures forall k: nat :: k < |order| ==> PutOut(desk, order, MixAll(desk, order), k)
  {
    assert order[..|order|] == order;
    forall k: nat | k < |order| ensures PutOut(desk, order, MixAll(desk, order), k) {
      OutputsKept(desk, order, |order|, k);
    }
  }

  lemma BusesNext(desk: Desk, order: seq<nat>, k: nat, done: Mix, i: nat)
    requires desk.Valid() && Below(order, |desk.tracks|) && 0 < k <= |order| && i < |desk.tracks|
    requires done.Sized(|desk.tracks|) && BusesAre(desk, order[..k - 1], MixAll(desk, order[..k - 1]), done, i)
    requires PutOut(desk, order, done, k - 1)
    ensures BusesAre(desk, order[..k], MixAll(desk, order[..k]), done, i)
  {
    TurnNext(desk, order, k);
    BusesStep(desk, order, k, MixAll(desk, order[..k - 1]), done, i);
  }

  // So they are after the first k turns.
  lemma {:induction false} MixBuses(desk: Desk, order: seq<nat>, k: nat, done: Mix, i: nat)
    requires desk.Valid() && Below(order, |desk.tracks|) && k <= |order| && i < |desk.tracks|
    requires done.Sized(|desk.tracks|) && forall j: nat :: j < |order| ==> PutOut(desk, order, done, j)
    ensures BusesAre(desk, order[..k], MixAll(desk, order[..k]), done, i)
  {
    if k == 0 {
      assert order[..0] == [];
      BusesEmpty(desk, done, i);
    } else {
      MixBuses(desk, order, k - 1, done, i);
      BusesNext(desk, order, k, done, i);
    }
  }

  // ---------- the outputs ----------

  // y is x after the fader: silence when muted, and gain times every sample otherwise.
  ghost predicate Faded(muted: bool, gain: real, x: Stream, y: Stream) {
    && |y| == |x|
    && forall k :: 0 <= k < |x| ==>
      if muted then y[k].left == 0.0 && y[k].right == 0.0
      else y[k].left == gain * x[k].left && y[k].right == gain * x[k].right
  }

  // The chain of track i on what the mixer's buses hold in the end.
  function Chained(desk: Desk, mix: Mix, i: nat): (Stream, Stream)
    requires desk.Valid() && i < |desk.tracks| && mix.Sized(|desk.tracks|)
  {
    var x := if desk.tracks[i].usesInputBus then mix.input[i] else desk.rig.source(i);
    var y := if desk.tracks[i].usesInputBus then mix.monitor[i] else desk.rig.source(i);
    RunSlots(desk.rig, i, desk.plan.tracks[i].slots, x, y, mix.side[i])
  }

  lemma ScaleFaded(muted: bool, gain: real, x: Stream)
    ensures Faded(muted, gain, x, Scale(if muted then 0.0 else gain, x))
  {
  }

  lemma TrackFaded(desk: Desk, mix: Mix, i: nat)
    requires desk.Valid() && i < |desk.tracks| && mix.Sized(|desk.tracks|)
    ensures var (p, m) := Chained(desk, mix, i); var (x, y) := RunTrack(desk, mix, i);
      && Faded(desk.tracks[i].muted, desk.rig.gain(i), p, x)
      && Faded(desk.tracks[i].muted, desk.rig.gain(i), if desk.plan.tracks[i].monitorDiverged then m else p, y)
  {
    var (p, m) := Chained(desk, mix, i);
    ScaleFaded(desk.tracks[i].muted, desk.rig.gain(i), p);
    ScaleFaded(desk.tracks[i].muted, desk.rig.gain(i), m);
  }

  // At its turn a track finds the buses it has in the end.
  lemma OutputsInTheEnd(desk: Desk, order: seq<nat>, k: nat)
    requires desk.Valid() && Below(order, |desk.tracks|) && Distinct(order) && SendsForward(desk, order) && k < |order|
    ensures var done := MixAll(desk, order);
      (done.primaryOut[order[k]], done.lowOut[order[k]]) == RunTrack(desk, done, order[k])
  {
    var done, i := MixAll(desk, order), order[k];
    assert order[..|order|] == order;
    AllPutOut(desk, order);
    MixBuses(desk, order, k, done, i);
    MixBuses(desk, order, |order|, done, i);
    assert PutOut(desk, order, done, k);
    SumAll(desk, order, done.primaryOut, false, true, k);
    SumAll(desk, order, done.lowOut, false, false, k);
    SumAll(desk, order, done.primaryOut, true, true, k);
  }

  // ---------- muted tracks ----------

  ghost predicate Silent(x: Stream) {
    forall k :: 0 <= k < |x| ==> x[k].left == 0.0 && x[k].right == 0.0
  }

  lemma AddSilent(x: Stream, y: Stream)
    requires Silent(y)
    ensures Add(x, y) == x
  {
    forall k | 0 <= k < |x| ensures Add(x, y)[k] == x[k] {
      assert k < |y| ==> y[k].left == 0.0 && y[k].right == 0.0;
    }
  }

  lemma {:induction false} ArriveSilent(desk: Desk, u: nat, aux: bool, n: nat, i: nat, late: bool, x: Stream,
                                        bus: Stream)
    requires desk.Valid() && u < |desk.tracks| && n <= |Dests(desk, u, aux)| && Silent(x)
    ensures Arrive(desk, u, aux, n, i, late, x, bus) == bus
  {
    if n > 0 {
      ArriveSilent(desk, u, aux, n - 1, i, late, x, bus);
      AddSilent(bus, x);
      AddSilent(bus, Delay(Line(desk, u, aux, n - 1), x));
    }
  }

  // The turn of a muted track leaves every bus as it was and puts out silence.
  lemma MutedTurn(desk: Desk, mix: Mix, i: nat)
    requires desk.Valid() && i < |desk.tracks| && mix.Sized(|desk.tracks|) && desk.tracks[i].muted
    ensures var r := MixTrack(desk, mix, i);
      && r.input == mix.input && r.monitor == mix.monitor && r.side == mix.side
      && Silent(r.primaryOut[i]) && Silent(r.lowOut[i])
  {
    var r := MixTrack(desk, mix, i);
    var (x, y) := RunTrack(desk, mix, i);
    TrackFaded(desk, mix, i);
    assert Silent(x) && Silent(y);
    forall j | 0 <= j < |desk.tracks|
      ensures r.input[j] == mix.input[j] && r.monitor[j] == mix.monitor[j] && r.side[j] == mix.side[j]
    {
      Mixed(desk, mix, i, j);
      ArriveSilent(desk, i, false, |desk.tracks[i].dests|, j, true, x, mix.input[j]);
      ArriveSilent(desk, i, false, |desk.tracks[i].dests|, j, false, y, mix.monitor[j]);
      ArriveSilent(desk, i, true, |desk.tracks[i].sidechainDests|, j, true, x, mix.side[j]);
    }
    MixedOutputs(desk, mix, i);
  }

  // ---------- the mixer of a plan ----------

  lemma LineIsSend(desk: Desk, u: nat, aux: bool, k: nat)
    requires desk.Valid() && u < |desk.tracks| && k < |Dests(desk, u, aux)|
    requires var sends := if aux then desk.plan.tracks[u].sidechainSends else desk.plan.tracks[u].sends;
      CarryDelays(sends, desk.plan.latency.edgeDelays, desk.tracks[u].trackId, Dests(desk, u, aux),
                  if aux then PrimaryBus else MonitorBus, aux)
    ensures Line(desk, u, aux, k) == Lateness(desk, u, aux, k)
  {
    var ids := Dests(desk, u, aux);
    if ids[k] in ids[..k] {
      var j :| 0 <= j < k && ids[..k][j] == ids[k];
      assert ids[j] == ids[k];
    } else {
      forall j | 0 <= j < k ensures ids[j] != ids[k] {
        assert ids[..k][j] == ids[j];
      }
    }
  }

  lemma LinesAreSends(tracks: seq<TrackSpec>, limits: Limits, rig: Rig, u: nat, aux: bool, k: nat)
    requires PlanRoutesSpec(tracks, limits).Ok() && u < |tracks|
    requires k < |Dests(DeskOf(tracks, limits, rig), u, aux)|
    ensures var desk := DeskOf(tracks, limits, rig); Line(desk, u, aux, k) == Lateness(desk, u, aux, k)
  {
    SendsUseFinalDelays(tracks, limits, u);
    LineIsSend(DeskOf(tracks, limits, rig), u, aux, k);
  }

  lemma PlanWired(tracks: seq<TrackSpec>, limits: Limits, rig: Rig)
    requires PlanRoutesSpec(tracks, limits).Ok()
    ensures Wired(DeskOf(tracks, limits, rig))
  {
    var desk := DeskOf(tracks, limits, rig);
    forall u: nat, aux, k | u < |tracks| && 0 <= k < |Dests(desk, u, aux)|
      ensures Line(desk, u, aux, k) == Lateness(desk, u, aux, k)
    {
      LinesAreSends(tracks, limits, rig, u, aux, k);
    }
  }

  ghost predicate SampleSummed(desk: Desk, order: seq<nat>, mix: Mix, i: nat, k: nat, left: bool)
    requires desk.Valid() && Below(order, |desk.tracks|) && mix.Sized(|desk.tracks|) && i < |desk.tracks|
  {
    && k < |mix.input[i]| && k < |mix.monitor[i]| && k < |mix.side[i]|
    && Side(mix.input[i][k], left) == Summed(desk, order, mix.primaryOut, false, i, true, k, left)
    && Side(mix.monitor[i][k], left) == Summed(desk, order, mix.lowOut, false, i, false, k, left)
    && Side(mix.side[i][k], left) == Summed(desk, order, mix.primaryOut, true, i, true, k, left)
  }

  // Every sample on a bus is the sum of what the edges into it deliver: primary signals late by the
  // delay of their send, monitor signals at once.
  ghost predicate BusesSummed(desk: Desk, order: seq<nat>, mix: Mix, i: nat)
    requires desk.Valid() && Below(order, |desk.tracks|) && mix.Sized(|desk.tracks|) && i < |desk.tracks|
  {
    forall k: nat, left :: k < desk.rig.length ==> SampleSummed(desk, order, mix, i, k, left)
  }

  lemma AllBusesSummed(desk: Desk, order: seq<nat>, i: nat)
    requires Wired(desk) && Below(order, |desk.tracks|) && Distinct(order) && i < |desk.tracks|
    ensures BusesSummed(desk, order, MixAll(desk, order), i)
  {
    var mix := MixAll(desk, order);
    assert order[..|order|] == order;
    AllPutOut(desk, order);
    MixBuses(desk, order, |order|, mix, i);
    forall k: nat, left | k < desk.rig.length ensures SampleSummed(desk, order, mix, i, k, left) {
      BusSample(desk, order, mix.primaryOut, false, true, i, k, left);
      BusSample(desk, order, mix.lowOut, false, false, i, k, left);
      BusSample(desk, order, mix.primaryOut, true, true, i, k, left);
    }
  }

  // Main result: on the mixer of a plan every bus is the sum of what is sent to it, and every track puts
  // out its chain, run on its buses or its source, after its fader; a muted track puts out silence.
  lemma MixSampled(tracks: seq<TrackSpec>, limits: Limits, rig: Rig, i: nat)
    requires PlanRoutesSpec(tracks, limits).Ok() && i < |tracks|
    ensures var desk := DeskOf(tracks, limits, rig); var mix := MixAll(desk, OrderOf(tracks));
      var (p, m) := Chained(desk, mix, i);
      && BusesSummed(desk, OrderOf(tracks), mix, i)
      && Faded(tracks[i].muted, rig.gain(i), p, mix.primaryOut[i])
      && Faded(tracks[i].muted, rig.gain(i), if desk.plan.tracks[i].monitorDiverged then m else p, mix.lowOut[i])
  {
    PlanParts(tracks, limits);
    PlanWired(tracks, limits, rig);
    var desk, order := DeskOf(tracks, limits, rig), OrderOf(tracks);
    OrderForward(desk);
    AllBusesSummed(desk, order, i);
    DistinctFull(order, |tracks|, i);
    var k :| 0 <= k < |order| && order[k] == i;
    OutputsInTheEnd(desk, order, k);
    TrackFaded(desk, MixAll(desk, order), i);
  }
}
