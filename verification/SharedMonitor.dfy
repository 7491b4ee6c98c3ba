/**
 Sharing is sound: evaluating a route plan, where the monitor reuses the primary signal until it
 diverges, gives every low-latency output the stream of the two-chain reference.
 */
module SharedMonitor {
  import opened GraphTopo
  import opened PdcPlanner
  import opened PdcTheorems
  import opened RoutePlanner
  import opened RouteTheorems
  import opened Dataflow

  // ---------- sends ----------

  lemma {:induction false} Pushed(desk: Desk, u: nat, k: nat, p: Stream, m: Stream, mix: Mix, i: nat)
    requires desk.Valid() && u < |desk.tracks| && k <= |desk.tracks[u].dests| && mix.Sized(|desk.tracks|)
    requires i < |desk.tracks|
    ensures var r := PushSends(desk, u, k, p, m, mix);
      && r.input[i] == Arrive(desk, u, false, k, i, true, p, mix.input[i])
      && r.monitor[i] == Arrive(desk, u, false, k, i, false, m, mix.monitor[i])
      && r.side == mix.side && r.primaryOut == mix.primaryOut && r.lowOut == mix.lowOut
  {
    if k > 0 {
      Pushed(desk, u, k - 1, p, m, mix, i);
    }
  }

  lemma {:induction false} PushedSides(desk: Desk, u: nat, k: nat, p: Stream, mix: Mix, i: nat)
    requires desk.Valid() && u < |desk.tracks| && k <= |desk.tracks[u].sidechainDests| && mix.Sized(|desk.tracks|)
    requires i < |desk.tracks|
    ensures var r := PushSides(desk, u, k, p, mix);
      && r.side[i] == Arrive(desk, u, true, k, i, true, p, mix.side[i])
      && r.(side := mix.side) == mix
  {
    if k > 0 {
      PushedSides(desk, u, k - 1, p, mix, i);
    }
  }

  lemma Mixed(desk: Desk, mix: Mix, u: nat, i: nat)
    requires desk.Valid() && u < |desk.tracks| && i < |desk.tracks| && mix.Sized(|desk.tracks|)
    ensures var r := MixTrack(desk, mix, u); var (p, m) := RunTrack(desk, mix, u);
      && r.input[i] == Arrive(desk, u, false, |desk.tracks[u].dests|, i, true, p, mix.input[i])
      && r.monitor[i] == Arrive(desk, u, false, |desk.tracks[u].dests|, i, false, m, mix.monitor[i])
      && r.side[i] == Arrive(desk, u, true, |desk.tracks[u].sidechainDests|, i, true, p, mix.side[i])
      && r.primaryOut == mix.primaryOut[u := p] && r.lowOut == mix.lowOut[u := m]
  {
    var (p, m) := RunTrack(desk, mix, u);
    Pushed(desk, u, |desk.tracks[u].dests|, p, m, mix, i);
    var sent := PushSends(desk, u, |desk.tracks[u].dests|, p, m, mix);
    PushedSides(desk, u, |desk.tracks[u].sidechainDests|, p, sent, i);
  }

  // Track u has an edge of the given kind into i among its first k.
  ghost predicate Joins(desk: Desk, u: nat, aux: bool, k: nat, i: nat)
    requires desk.Valid() && u < |desk.tracks| && k <= |Dests(desk, u, aux)|
  {
    exists j :: 0 <= j < k && desk.index[Dests(desk, u, aux)[j]] == i
  }

  lemma {:induction false} ArriveNothing(desk: Desk, u: nat, aux: bool, k: nat, i: nat, delayed: bool, x: Stream,
                                         bus: Stream)
    requires desk.Valid() && u < |desk.tracks| && k <= |Dests(desk, u, aux)|
    requires !Joins(desk, u, aux, k, i)
    ensures Arrive(desk, u, aux, k, i, delayed, x, bus) == bus
  {
    if k > 0 {
      ArriveNothing(desk, u, aux, k - 1, i, delayed, x, bus);
    }
  }

  lemma {:induction false} ArriveUndelayed(desk: Desk, u: nat, k: nat, i: nat, x: Stream, bus: Stream)
    requires desk.Valid() && u < |desk.tracks| && k <= |Dests(desk, u, false)|
    requires forall j :: 0 <= j < k && desk.index[Dests(desk, u, false)[j]] == i ==> Line(desk, u, false, j) == 0
    ensures Arrive(desk, u, false, k, i, true, x, bus) == Arrive(desk, u, false, k, i, false, x, bus)
  {
    if k > 0 {
      ArriveUndelayed(desk, u, k - 1, i, x, bus);
      DelayZero(x);
    }
  }

  // An input left unmarked was unmarked before, and every edge into it is undiverged and undelayed.
  lemma {:induction false} Unmarked(tracks: seq<TrackSpec>, index: map<Id, nat>, reach: seq<bool>,
                                    edges: seq<EdgeDelay>,
                                    from: Id, diverged: bool, dests: seq<Id>, incoming: seq<bool>, i: nat)
    requires KnownIds(tracks, index, dests) && |reach| == |incoming| == |tracks| && i < |tracks|
    requires !MarkDests(tracks, index, reach, edges, from, diverged, dests, incoming)[i]
    requires reach[i] && tracks[i].usesInputBus
    ensures !incoming[i]
    ensures forall k :: 0 <= k < |dests| && index[dests[k]] == i ==> !diverged && FindDelay(edges, from, dests[k]) == 0
  {
    if dests != [] {
      var n := |dests| - 1;
      Unmarked(tracks, index, reach, edges, from, diverged, dests[..n], incoming, i);
      forall k | 0 <= k < |dests| && index[dests[k]] == i
        ensures !diverged && FindDelay(edges, from, dests[k]) == 0
      {
        if k < n {
          assert dests[..n][k] == dests[k];
        }
      }
    }
  }

  // ---------- the situation the plan is evaluated in ----------

  // Whether the monitor input of the k-th track in order had diverged when it was planned.
  function Diverged(desk: Desk, reach: seq<bool>, edges: seq<EdgeDelay>, order: seq<nat>, k: nat): bool
    requires desk.Valid() && |reach| == |desk.tracks| && Below(order, |desk.tracks|) && k < |order|
  {
    var i := order[k];
    reach[i] && desk.tracks[i].usesInputBus
    && RouteAll(desk.tracks, desk.index, reach, edges, order[..k]).incoming[i]
  }

  ghost predicate StepPlanned(desk: Desk, reach: seq<bool>, edges: seq<EdgeDelay>, order: seq<nat>, k: nat)
    requires desk.Valid() && |reach| == |desk.tracks| && Below(order, |desk.tracks|) && k < |order|
  {
    var i, d := order[k], Diverged(desk, reach, edges, order, k);
    && desk.plan.tracks[i] == TrackPlanOf(desk.tracks, reach, edges, i, d)
    && PlanChain(desk.tracks[i].slots, reach[i], d).latency.Some?
    && !RouteAll(desk.tracks, desk.index, reach, edges, order[..k]).failed
  }

  // Sends: reachability runs back along edges, and the planner saw the delay of the dest line.
  ghost predicate SendsAgree(desk: Desk, reach: seq<bool>, edges: seq<EdgeDelay>, u: nat)
    requires desk.Valid() && |reach| == |desk.tracks| && u < |desk.tracks|
  {
    && (forall aux, k :: 0 <= k < |Dests(desk, u, aux)| && reach[desk.index[Dests(desk, u, aux)[k]]] ==> reach[u])
    && (forall k :: 0 <= k < |desk.tracks[u].dests| ==>
      FindDelay(edges, desk.tracks[u].trackId, desk.tracks[u].dests[k])
      == DelayOf(desk.plan.latency.edgeDelays, desk.tracks[u].trackId, desk.tracks[u].dests[k], false))
  }

  // No track sends to itself or to a track processed before it.
  ghost predicate SendsForward(desk: Desk, order: seq<nat>)
    requires desk.Valid() && Below(order, |desk.tracks|)
  {
    forall s, t, aux :: 0 <= s <= t < |order| ==>
      !Joins(desk, order[t], aux, |Dests(desk, order[t], aux)|, order[s])
  }

  // Every shadow the plan uses is there, active, and behaves as its primary.
  ghost predicate ShadowsServe(desk: Desk) {
    Faithful(desk.rig) && forall i :: 0 <= i < |desk.plan.tracks| ==> ShadowsReady(desk.plan.tracks[i].slots)
  }

  ghost predicate Situation(desk: Desk, reach: seq<bool>, edges: seq<EdgeDelay>, order: seq<nat>) {
    && desk.Valid() && |reach| == |desk.tracks| && Below(order, |desk.tracks|) && Distinct(order)
    && SendsForward(desk, order)
    && (forall i :: 0 <= i < |desk.tracks| ==> SendsAgree(desk, reach, edges, i))
    && (forall k :: 0 <= k < |order| ==> StepPlanned(desk, reach, edges, order, k))
  }

  // Once a track's turn has come its buses no longer change.
  lemma {:induction false} SumSettled(desk: Desk, order: seq<nat>, vals: seq<Stream>, aux: bool, delayed: bool,
                                      k: nat, t: nat)
    requires desk.Valid() && Below(order, |desk.tracks|) && |vals| == |desk.tracks|
    requires SendsForward(desk, order) && k <= t <= |order| && k < |order|
    ensures BusSum(desk, order[..t], vals, aux, delayed, order[k])
      == BusSum(desk, order[..k], vals, aux, delayed, order[k])
  {
    if k < t {
      SumSettled(desk, order, vals, aux, delayed, k, t - 1);
      var u := order[t - 1];
      assert order[..t][..t - 1] == order[..t - 1];
      ArriveNothing(desk, u, aux, |Dests(desk, u, aux)|, order[k], delayed, vals[u],
                    BusSum(desk, order[..t - 1], vals, aux, delayed, order[k]));
    }
  }

  lemma SumAll(desk: Desk, order: seq<nat>, vals: seq<Stream>, aux: bool, delayed: bool, k: nat)
    requires desk.Valid() && Below(order, |desk.tracks|) && |vals| == |desk.tracks|
    requires SendsForward(desk, order) && k < |order|
    ensures BusSum(desk, order, vals, aux, delayed, order[k]) == BusSum(desk, order[..k], vals, aux, delayed, order[k])
  {
    SumSettled(desk, order, vals, aux, delayed, k, |order|);
    assert order[..|order|] == order;
  }

  // ---------- the simulation ----------

  // The buses of track i after the tracks of `seen` hold the reference sums. If the shadows serve, so
  // does the monitor bus where a low-latency output hears i, and it equals the input bus unless it was
  // marked.
  ghost predicate BusesMatch(desk: Desk, reach: seq<bool>, edges: seq<EdgeDelay>, seen: seq<nat>,
                             primary: seq<Stream>, low: seq<Stream>, i: nat)
    requires desk.Valid() && |reach| == |primary| == |low| == |desk.tracks| && Below(seen, |desk.tracks|)
    requires i < |desk.tracks|
  {
    var mix := MixAll(desk, seen);
    && mix.input[i] == BusSum(desk, seen, primary, false, true, i)
    && mix.side[i] == BusSum(desk, seen, primary, true, true, i)
    && (ShadowsServe(desk) && reach[i] ==> mix.monitor[i] == BusSum(desk, seen, low, false, false, i))
    && (ShadowsServe(desk) && reach[i] && desk.tracks[i].usesInputBus &&
        !RouteAll(desk.tracks, desk.index, reach, edges, seen).incoming[i] ==>
        BusSum(desk, seen, low, false, false, i) == BusSum(desk, seen, primary, false, true, i))
  }

  // The k-th track puts out its reference streams, and an undiverged monitor is the primary.
  lemma TurnMatches(desk: Desk, reach: seq<bool>, edges: seq<EdgeDelay>, order: seq<nat>,
                    primary: seq<Stream>, low: seq<Stream>, k: nat)
    requires Situation(desk, reach, edges, order) && k < |order|
    requires IsReference(desk, order, primary, low)
    requires BusesMatch(desk, reach, edges, order[..k], primary, low, order[k])
    ensures var u := order[k]; var (p, m) := RunTrack(desk, MixAll(desk, order[..k]), u);
      && p == primary[u]
      && (ShadowsServe(desk) && reach[u] ==> m == low[u])
      && (ShadowsServe(desk) && !desk.plan.tracks[u].monitorDiverged ==> m == p)
  {
    var u := order[k];
    var mix := MixAll(desk, order[..k]);
    assert (primary[u], low[u]) == RefTrack(desk, order, primary, low, u);
    SumAll(desk, order, primary, false, true, k);
    SumAll(desk, order, primary, true, true, k);
    SumAll(desk, order, low, false, false, k);
    assert StepPlanned(desk, reach, edges, order, k);
    var d := Diverged(desk, reach, edges, order, k);
    var slots := desk.tracks[u].slots;
    var own := !desk.tracks[u].usesInputBus;
    var x := if own then desk.rig.source(u) else mix.input[u];
    var y := if own then desk.rig.source(u) else mix.monitor[u];
    ChainPrimary(desk.rig, u, slots, reach[u], d, x, y, mix.side[u]);
    if ShadowsServe(desk) && reach[u] {
      ChainMonitor(desk.rig, u, slots, d, x, y, mix.side[u]);
    }
  }

  lemma TurnSends(desk: Desk, reach: seq<bool>, edges: seq<EdgeDelay>, order: seq<nat>,
                  primary: seq<Stream>, low: seq<Stream>, k: nat, i: nat)
    requires Situation(desk, reach, edges, order) && k < |order| && i < |desk.tracks|
    requires IsReference(desk, order, primary, low)
    requires BusesMatch(desk, reach, edges, order[..k], primary, low, order[k])
    requires BusesMatch(desk, reach, edges, order[..k], primary, low, i)
    ensures BusesMatch(desk, reach, edges, order[..k + 1], primary, low, i)
  {
    var u, seen := order[k], order[..k];
    assert order[..k + 1][..k] == seen;
    var mix := MixAll(desk, seen);
    var (p, m) := RunTrack(desk, mix, u);
    TurnMatches(desk, reach, edges, order, primary, low, k);
    Mixed(desk, mix, u, i);
    var n := |desk.tracks[u].dests|;
    if ShadowsServe(desk) && reach[i] {
      MonitorArrives(desk, reach, edges, u, i, m, low[u], mix.monitor[i]);
      if desk.tracks[i].usesInputBus && !RouteAll(desk.tracks, desk.index, reach, edges, order[..k + 1]).incoming[i] {
        SameArrives(desk, reach, edges, order, primary, low, k, i);
      }
    }
  }

  // A track heard by a low-latency output gets the same from m and from low, since its senders are heard too.
  lemma MonitorArrives(desk: Desk, reach: seq<bool>, edges: seq<EdgeDelay>, u: nat, i: nat, m: Stream, low: Stream,
                       bus: Stream)
    requires desk.Valid() && |reach| == |desk.tracks| && u < |desk.tracks| && i < |desk.tracks|
    requires SendsAgree(desk, reach, edges, u) && reach[i] && (reach[u] ==> m == low)
    ensures Arrive(desk, u, false, |desk.tracks[u].dests|, i, false, m, bus)
            == Arrive(desk, u, false, |desk.tracks[u].dests|, i, false, low, bus)
  {
    var n := |desk.tracks[u].dests|;
    if !Joins(desk, u, false, n, i) {
      ArriveNothing(desk, u, false, n, i, false, m, bus);
      ArriveNothing(desk, u, false, n, i, false, low, bus);
    }
  }

  // An input still unmarked after the k-th turn was unmarked before it, and if the k-th track sends
  // there, it does so undiverged and undelayed.
  lemma UnmarkedTurn(desk: Desk, reach: seq<bool>, edges: seq<EdgeDelay>, order: seq<nat>, k: nat, i: nat)
    requires Situation(desk, reach, edges, order) && k < |order| && i < |desk.tracks|
    requires reach[i] && desk.tracks[i].usesInputBus
    requires !RouteAll(desk.tracks, desk.index, reach, edges, order[..k + 1]).incoming[i]
    ensures !RouteAll(desk.tracks, desk.index, reach, edges, order[..k]).incoming[i]
    ensures forall j :: 0 <= j < |desk.tracks[order[k]].dests| && desk.index[desk.tracks[order[k]].dests[j]] == i ==>
      reach[order[k]] && !desk.plan.tracks[order[k]].monitorDiverged && Line(desk, order[k], false, j) == 0
  {
    var u := order[k];
    assert order[..k + 1][..k] == order[..k];
    assert StepPlanned(desk, reach, edges, order, k);
    Unmarked(desk.tracks, desk.index, reach, edges, desk.tracks[u].trackId, desk.plan.tracks[u].monitorDiverged,
             desk.tracks[u].dests, RouteAll(desk.tracks, desk.index, reach, edges, order[..k]).incoming, i);
    forall j | 0 <= j < |desk.tracks[u].dests| && desk.index[desk.tracks[u].dests[j]] == i
      ensures reach[u] && Line(desk, u, false, j) == 0
    {
      assert SendsAgree(desk, reach, edges, u);
      assert Dests(desk, u, false)[j] == desk.tracks[u].dests[j];
      assert FindDelay(edges, desk.tracks[u].trackId, desk.tracks[u].dests[j]) == 0;
    }
  }

  lemma SameArrives(desk: Desk, reach: seq<bool>, edges: seq<EdgeDelay>, order: seq<nat>,
                    primary: seq<Stream>, low: seq<Stream>, k: nat, i: nat)
    requires Situation(desk, reach, edges, order) && k < |order| && i < |desk.tracks|
    requires IsReference(desk, order, primary, low)
    requires BusesMatch(desk, reach, edges, order[..k], primary, low, order[k])
    requires BusesMatch(desk, reach, edges, order[..k], primary, low, i)
    requires ShadowsServe(desk) && reach[i] && desk.tracks[i].usesInputBus
    requires !RouteAll(desk.tracks, desk.index, reach, edges, order[..k + 1]).incoming[i]
    ensures BusSum(desk, order[..k + 1], low, false, false, i) == BusSum(desk, order[..k + 1], primary, false, true, i)
  {
    UnmarkedTurn(desk, reach, edges, order, k, i);
    TurnMatches(desk, reach, edges, order, primary, low, k);
    assert order[..k + 1][..k] == order[..k];
    var u, bus := order[k], BusSum(desk, order[..k], primary, false, true, i);
    SameArrive(desk, u, i, primary[u], low[u], bus);
  }

  // Undelayed edges carry the same to a bus as edges without a line.
  lemma SameArrive(desk: Desk, u: nat, i: nat, x: Stream, y: Stream, bus: Stream)
    requires desk.Valid() && u < |desk.tracks|
    requires forall j :: 0 <= j < |Dests(desk, u, false)| && desk.index[Dests(desk, u, false)[j]] == i ==>
      y == x && Line(desk, u, false, j) == 0
    ensures Arrive(desk, u, false, |Dests(desk, u, false)|, i, false, y, bus)
            == Arrive(desk, u, false, |Dests(desk, u, false)|, i, true, x, bus)
  {
    var n := |Dests(desk, u, false)|;
    if Joins(desk, u, false, n, i) {
      ArriveUndelayed(desk, u, n, i, x, bus);
    } else {
      ArriveNothing(desk, u, false, n, i, false, y, bus);
      ArriveNothing(desk, u, false, n, i, true, x, bus);
    }
  }

  lemma {:induction false} BusesSimulate(desk: Desk, reach: seq<bool>, edges: seq<EdgeDelay>, order: seq<nat>,
                                         primary: seq<Stream>, low: seq<Stream>, k: nat)
    requires Situation(desk, reach, edges, order) && k <= |order|
    requires IsReference(desk, order, primary, low)
    ensures forall i :: 0 <= i < |desk.tracks| ==> BusesMatch(desk, reach, edges, order[..k], primary, low, i)
  {
    if k == 0 {
      assert order[..0] == [];
    } else {
      BusesSimulate(desk, reach, edges, order, primary, low, k - 1);
      forall i | 0 <= i < |desk.tracks| ensures BusesMatch(desk, reach, edges, order[..k], primary, low, i) {
        TurnSends(desk, reach, edges, order, primary, low, k - 1, i);
      }
    }
  }

  lemma TurnOutputs(desk: Desk, reach: seq<bool>, edges: seq<EdgeDelay>, order: seq<nat>,
                    primary: seq<Stream>, low: seq<Stream>, k: nat)
    requires Situation(desk, reach, edges, order) && k < |order|
    requires IsReference(desk, order, primary, low)
    ensures var (p, m) := RunTrack(desk, MixAll(desk, order[..k]), order[k]);
      p == primary[order[k]] && (ShadowsServe(desk) && reach[order[k]] ==> m == low[order[k]])
  {
    BusesSimulate(desk, reach, edges, order, primary, low, k);
    TurnMatches(desk, reach, edges, order, primary, low, k);
  }

  lemma MixedOutputs(desk: Desk, mix: Mix, u: nat)
    requires desk.Valid() && u < |desk.tracks| && mix.Sized(|desk.tracks|)
    ensures MixTrack(desk, mix, u).primaryOut == mix.primaryOut[u := RunTrack(desk, mix, u).0]
    ensures MixTrack(desk, mix, u).lowOut == mix.lowOut[u := RunTrack(desk, mix, u).1]
  {
    Mixed(desk, mix, u, u);
  }

  // What a track put out at its turn stays until the end of the block.
  lemma {:induction false} OutputsKept(desk: Desk, order: seq<nat>, t: nat, k: nat)
    requires desk.Valid() && Below(order, |desk.tracks|) && Distinct(order) && k < t <= |order|
    ensures MixAll(desk, order[..t]).primaryOut[order[k]] == RunTrack(desk, MixAll(desk, order[..k]), order[k]).0
    ensures MixAll(desk, order[..t]).lowOut[order[k]] == RunTrack(desk, MixAll(desk, order[..k]), order[k]).1
  {
    assert order[..t][..t - 1] == order[..t - 1];
    MixedOutputs(desk, MixAll(desk, order[..t - 1]), order[t - 1]);
    if k < t - 1 {
      OutputsKept(desk, order, t - 1, k);
      assert order[t - 1] != order[k];
    }
  }

  // ---------- the plan of a set of tracks ----------

  // One turn of the walk plans its own track and leaves the others.
  lemma RouteTurn(tracks: seq<TrackSpec>, index: map<Id, nat>, reach: seq<bool>, edges: seq<EdgeDelay>,
                  r: Routing, i: nat, j: nat)
    requires |reach| == |tracks| && r.Sized(|tracks|) && i < |tracks| && j < |tracks|
    requires KnownIds(tracks, index, tracks[i].dests) && !RouteTrack(tracks, index, reach, edges, r, i).failed
    ensures var s := RouteTrack(tracks, index, reach, edges, r, i);
      && !r.failed
      && (i == j ==> PlannedAs(tracks, reach, edges, s, i, reach[i] && tracks[i].usesInputBus && r.incoming[i]))
      && (i != j ==> s.tracks[j] == r.tracks[j] && s.chain[j] == r.chain[j])
  {
  }

  lemma {:induction false} RoutedAtStep(tracks: seq<TrackSpec>, index: map<Id, nat>, reach: seq<bool>,
                                        edges: seq<EdgeDelay>,
                                        order: seq<nat>, k: nat)
    requires |reach| == |tracks| && Below(order, |tracks|) && Distinct(order) && k < |order|
    requires forall i :: 0 <= i < |tracks| ==> KnownIds(tracks, index, tracks[i].dests)
    requires !RouteAll(tracks, index, reach, edges, order).failed
    ensures var i, before := order[k], RouteAll(tracks, index, reach, edges, order[..k]);
      var d := reach[i] && tracks[i].usesInputBus && before.incoming[i];
      && !before.failed
      && PlannedAs(tracks, reach, edges, RouteAll(tracks, index, reach, edges, order), i, d)
  {
    var n := |order| - 1;
    RouteTurn(tracks, index, reach, edges, RouteAll(tracks, index, reach, edges, order[..n]), order[n], order[k]);
    if k < n {
      assert order[..n][..k] == order[..k];
      RoutedAtStep(tracks, index, reach, edges, order[..n], k);
    }
  }

  // The mixer running the plan of the tracks.
  ghost function DeskOf(tracks: seq<TrackSpec>, limits: Limits, rig: Rig): (desk: Desk)
    requires PlanRoutesSpec(tracks, limits).Ok()
    ensures desk.Valid() && desk.tracks == tracks && desk.plan == PlanRoutesSpec(tracks, limits) && desk.rig == rig
    ensures UniqueIds(TrackNodes(tracks)) && desk.index == IndexMap(TrackNodes(tracks))
  {
    PlanParts(tracks, limits);
    PlanFits(tracks, limits);
    Desk(tracks, PlanRoutesSpec(tracks, limits), IndexMap(TrackNodes(tracks)), rig)
  }

  ghost predicate Fits(track: TrackSpec, plan: TrackPlan) {
    && Planned(plan.sends, track.dests, MonitorBus)
    && Planned(plan.sidechainSends, track.sidechainDests, PrimaryBus)
    && plan.muted == track.muted
  }

  lemma PlanFit(tracks: seq<TrackSpec>, reach: seq<bool>, edges: seq<EdgeDelay>, i: nat, diverged: bool)
    requires |reach| == |tracks| && i < |tracks|
    ensures Fits(tracks[i], TrackPlanOf(tracks, reach, edges, i, diverged))
  {
  }

  lemma PlanFits(tracks: seq<TrackSpec>, limits: Limits)
    requires PlanRoutesSpec(tracks, limits).Ok() && UniqueIds(TrackNodes(tracks)) && KnownTargets(TrackNodes(tracks))
    ensures |PlanRoutesSpec(tracks, limits).tracks| == |tracks|
    ensures forall i :: 0 <= i < |tracks| ==> Fits(tracks[i], PlanRoutesSpec(tracks, limits).tracks[i])
    ensures forall i :: 0 <= i < |tracks| ==> KnownIds(tracks, IndexMap(TrackNodes(tracks)), tracks[i].dests)
    ensures forall i :: 0 <= i < |tracks| ==> KnownIds(tracks, IndexMap(TrackNodes(tracks)), tracks[i].sidechainDests)
  {
    RoutableIds(tracks, IndexMap(TrackNodes(tracks)));
    RoutableSides(tracks, IndexMap(TrackNodes(tracks)));
    PlanSized(tracks, limits);
    var planned := PlanRoutesSpec(tracks, limits).tracks;
    forall i | 0 <= i < |tracks|
      ensures Fits(tracks[i], planned[i])
    {
      var reach, edges, diverged := PlanEquation(tracks, limits, i);
      PlanFit(tracks, reach, edges, i, diverged);
    }
  }

  lemma PlanSized(tracks: seq<TrackSpec>, limits: Limits)
    requires PlanRoutesSpec(tracks, limits).Ok()
    ensures |PlanRoutesSpec(tracks, limits).tracks| == |tracks|
  {
    PlanParts(tracks, limits);
  }

  lemma RoutableSides(tracks: seq<TrackSpec>, index: map<Id, nat>)
    requires IsIndexMap(TrackNodes(tracks), index) && KnownTargets(TrackNodes(tracks))
    ensures forall i :: 0 <= i < |tracks| ==> KnownIds(tracks, index, tracks[i].sidechainDests)
  {
    var nodes := TrackNodes(tracks);
    forall i, k | 0 <= i < |tracks| && 0 <= k < |tracks[i].sidechainDests|
      ensures tracks[i].sidechainDests[k] in index && index[tracks[i].sidechainDests[k]] < |tracks|
    {
      assert RowKnown(nodes, Targets(nodes[i]));
      assert Targets(nodes[i])[|tracks[i].dests| + k] == tracks[i].sidechainDests[k];
      IndexAgrees(nodes, index, tracks[i].sidechainDests[k]);
    }
  }

  // The planner's order and its low-latency reachability.
  ghost function OrderOf(tracks: seq<TrackSpec>): (order: seq<nat>)
    ensures Below(order, |tracks|) && Distinct(order)
  {
    KahnSound(Succ(TrackNodes(tracks)));
    KahnOrder(Succ(TrackNodes(tracks)))
  }

  ghost function HeardLow(tracks: seq<TrackSpec>): seq<bool> {
    Reach(Succ(TrackNodes(tracks)), LowSeeds(tracks))
  }

  lemma SendEdge(desk: Desk, u: nat, aux: bool, k: nat)
    requires desk.Valid() && u < |desk.tracks| && k < |Dests(desk, u, aux)|
    requires UniqueIds(TrackNodes(desk.tracks)) && desk.index == IndexMap(TrackNodes(desk.tracks))
    ensures Edge(Succ(TrackNodes(desk.tracks)), u, desk.index[Dests(desk, u, aux)[k]])
  {
    var nodes := TrackNodes(desk.tracks);
    var id := Dests(desk, u, aux)[k];
    assert IsIndex(nodes, id, desk.index[id]);
    assert id in if aux then nodes[u].sidechainDests else nodes[u].dests;
    SuccEdge(nodes, u, desk.index[id]);
  }

  lemma OrderForward(desk: Desk)
    requires desk.Valid() && UniqueIds(TrackNodes(desk.tracks)) && desk.index == IndexMap(TrackNodes(desk.tracks))
    ensures SendsForward(desk, OrderOf(desk.tracks))
  {
    var order := OrderOf(desk.tracks);
    var g := Succ(TrackNodes(desk.tracks));
    KahnSound(g);
    forall s, t, aux | 0 <= s <= t < |order|
      ensures !Joins(desk, order[t], aux, |Dests(desk, order[t], aux)|, order[s])
    {
      if Joins(desk, order[t], aux, |Dests(desk, order[t], aux)|, order[s]) {
        var j :| 0 <= j < |Dests(desk, order[t], aux)| && desk.index[Dests(desk, order[t], aux)[j]] == order[s];
        SendEdge(desk, order[t], aux, j);
        assert false;
      }
    }
  }

  lemma HeardBack(desk: Desk, u: nat, aux: bool, k: nat)
    requires desk.Valid() && u < |desk.tracks| && k < |Dests(desk, u, aux)|
    requires UniqueIds(TrackNodes(desk.tracks)) && desk.index == IndexMap(TrackNodes(desk.tracks))
    requires HeardLow(desk.tracks)[desk.index[Dests(desk, u, aux)[k]]]
    ensures HeardLow(desk.tracks)[u]
  {
    SendEdge(desk, u, aux, k);
    ReachesStep(Succ(TrackNodes(desk.tracks)), u, desk.index[Dests(desk, u, aux)[k]], Elems(LowSeeds(desk.tracks)));
  }

  lemma SendsAgreeOf(tracks: seq<TrackSpec>, limits: Limits, rig: Rig, u: nat)
    requires PlanRoutesSpec(tracks, limits).Ok() && u < |tracks|
    ensures PrimarySums(tracks)
    ensures SendsAgree(DeskOf(tracks, limits, rig), HeardLow(tracks), FirstPhase(tracks, limits).edgeDelays, u)
  {
    PlanParts(tracks, limits);
    var desk := DeskOf(tracks, limits, rig);
    forall aux, k | 0 <= k < |Dests(desk, u, aux)| && HeardLow(tracks)[desk.index[Dests(desk, u, aux)[k]]]
      ensures HeardLow(tracks)[u]
    {
      HeardBack(desk, u, aux, k);
    }
    FinalDelays(tracks, limits, u, tracks[u].dests, false);
  }

  lemma SituationOf(tracks: seq<TrackSpec>, limits: Limits, rig: Rig)
    requires PlanRoutesSpec(tracks, limits).Ok()
    ensures PrimarySums(tracks)
    ensures Situation(DeskOf(tracks, limits, rig), HeardLow(tracks), FirstPhase(tracks, limits).edgeDelays,
                      OrderOf(tracks))
  {
    PlanParts(tracks, limits);
    var desk := DeskOf(tracks, limits, rig);
    var edges := FirstPhase(tracks, limits).edgeDelays;
    var order := OrderOf(tracks);
    OrderForward(desk);
    forall i | 0 <= i < |tracks| ensures SendsAgree(desk, HeardLow(tracks), edges, i) {
      SendsAgreeOf(tracks, limits, rig, i);
    }
    RoutableIds(tracks, desk.index);
    forall k | 0 <= k < |order| ensures StepPlanned(desk, HeardLow(tracks), edges, order, k) {
      RoutedAtStep(tracks, desk.index, HeardLow(tracks), edges, order, k);
    }
  }

  lemma TrackSound(desk: Desk, reach: seq<bool>, edges: seq<EdgeDelay>, order: seq<nat>,
                   primary: seq<Stream>, low: seq<Stream>, i: nat)
    requires Situation(desk, reach, edges, order) && IsReference(desk, order, primary, low)
    requires i < |desk.tracks| == |order|
    ensures var mix := MixAll(desk, order);
      mix.primaryOut[i] == primary[i] && (ShadowsServe(desk) && reach[i] ==> mix.lowOut[i] == low[i])
  {
    DistinctFull(order, |desk.tracks|, i);
    var k :| 0 <= k < |order| && order[k] == i;
    assert order[..|order|] == order;
    TurnOutputs(desk, reach, edges, order, primary, low, k);
    OutputsKept(desk, order, |order|, k);
  }

  lemma OutputBusOf(tracks: seq<TrackSpec>, limits: Limits, i: nat)
    requires PlanRoutesSpec(tracks, limits).Ok() && i < |tracks| && tracks[i].isOutput
    ensures |PlanRoutesSpec(tracks, limits).tracks| == |tracks|
    ensures PlanRoutesSpec(tracks, limits).tracks[i].outputBus ==
            if tracks[i].policy == LowLatency then MonitorBus else PrimaryBus
    ensures tracks[i].policy == LowLatency ==> HeardLow(tracks)[i]
  {
    var d := PlanOfTrack(tracks, limits, i);
    if tracks[i].policy == LowLatency {
      ReachesSelf(Succ(TrackNodes(tracks)), i, Elems(LowSeeds(tracks)));
    }
  }

  // Every output puts out the bus its policy asks for, and a low-latency one is heard.
  ghost predicate OutputsPlanned(desk: Desk, heard: seq<bool>)
    requires desk.Valid() && |heard| == |desk.tracks|
  {
    forall i: nat :: i < |desk.tracks| && desk.tracks[i].isOutput ==>
      && desk.plan.tracks[i].outputBus == (if desk.tracks[i].policy == LowLatency then MonitorBus else PrimaryBus)
      && (desk.tracks[i].policy == LowLatency ==> heard[i])
  }

  lemma OutputsPlannedOf(tracks: seq<TrackSpec>, limits: Limits, rig: Rig)
    requires PlanRoutesSpec(tracks, limits).Ok()
    ensures OutputsPlanned(DeskOf(tracks, limits, rig), HeardLow(tracks))
  {
    forall i: nat | i < |tracks| && tracks[i].isOutput
      ensures PlanRoutesSpec(tracks, limits).tracks[i].outputBus
              == if tracks[i].policy == LowLatency then MonitorBus else PrimaryBus
      ensures tracks[i].policy == LowLatency ==> HeardLow(tracks)[i]
    {
      OutputBusOf(tracks, limits, i);
    }
  }

  lemma OutputsSound(desk: Desk, mix: Mix, heard: seq<bool>, primary: seq<Stream>, low: seq<Stream>)
    requires desk.Valid() && mix.Sized(|desk.tracks|) && |heard| == |primary| == |low| == |desk.tracks|
    requires OutputsPlanned(desk, heard)
    requires forall i: nat :: i < |desk.tracks| ==>
      mix.primaryOut[i] == primary[i] && (ShadowsServe(desk) && heard[i] ==> mix.lowOut[i] == low[i])
    ensures mix.primaryOut == primary
    ensures forall i: nat :: i < |desk.tracks| && desk.tracks[i].isOutput ==>
      && (desk.tracks[i].policy == FullPdc ==> SinkOf(desk, mix, i) == primary[i])
      && (desk.tracks[i].policy == LowLatency && ShadowsServe(desk) ==> SinkOf(desk, mix, i) == low[i])
  {
  }

  lemma MixIsReference(tracks: seq<TrackSpec>, limits: Limits, rig: Rig, primary: seq<Stream>, low: seq<Stream>)
    requires PlanRoutesSpec(tracks, limits).Ok()
    requires IsReference(DeskOf(tracks, limits, rig), OrderOf(tracks), primary, low)
    ensures var desk := DeskOf(tracks, limits, rig); var mix := MixAll(desk, OrderOf(tracks));
      forall i: nat :: i < |tracks| ==>
        mix.primaryOut[i] == primary[i] && (ShadowsServe(desk) && HeardLow(tracks)[i] ==> mix.lowOut[i] == low[i])
  {
    SituationOf(tracks, limits, rig);
    PlanParts(tracks, limits);
    var desk := DeskOf(tracks, limits, rig);
    var edges := FirstPhase(tracks, limits).edgeDelays;
    forall i: nat | i < |tracks|
      ensures var mix := MixAll(desk, OrderOf(tracks));
        mix.primaryOut[i] == primary[i] && (ShadowsServe(desk) && HeardLow(tracks)[i] ==> mix.lowOut[i] == low[i])
    {
      TrackSound(desk, HeardLow(tracks), edges, OrderOf(tracks), primary, low, i);
    }
  }

  // Main result: the planned mixer gives every track and every full-PDC output its primary reference,
  // whatever the shadows do. With its shadows ready and equal to their primaries it gives every track a
  // low-latency output hears, and every low-latency output, the separate-chain reference.
  lemma SharingIsSound(tracks: seq<TrackSpec>, limits: Limits, rig: Rig, primary: seq<Stream>, low: seq<Stream>)
    requires PlanRoutesSpec(tracks, limits).Ok()
    requires IsReference(DeskOf(tracks, limits, rig), OrderOf(tracks), primary, low)
    ensures var desk := DeskOf(tracks, limits, rig); var mix := MixAll(desk, OrderOf(tracks));
      && mix.primaryOut == primary
      && (ShadowsServe(desk) ==> forall i: nat :: i < |tracks| && HeardLow(tracks)[i] ==> mix.lowOut[i] == low[i])
      && forall i: nat :: i < |tracks| && tracks[i].isOutput ==>
        && (tracks[i].policy == FullPdc ==> SinkOf(desk, mix, i) == primary[i])
        && (tracks[i].policy == LowLatency && ShadowsServe(desk) ==> SinkOf(desk, mix, i) == low[i])
  {
    MixIsReference(tracks, limits, rig, primary, low);
    OutputsPlannedOf(tracks, limits, rig);
    var desk := DeskOf(tracks, limits, rig);
    OutputsSound(desk, MixAll(desk, OrderOf(tracks)), HeardLow(tracks), primary, low);
  }

  // ---------- the reference exists ----------

  // The reference streams of the listed tracks, computed in order.
  function RefAll(desk: Desk, order: seq<nat>): (r: (seq<Stream>, seq<Stream>))
    requires desk.Valid() && Below(order, |desk.tracks|)
    ensures |r.0| == |r.1| == |desk.tracks|
  {
    if order == [] then
      var silence := seq(|desk.tracks|, _ => Silence(desk.rig.length));
      (silence, silence)
    else
      var u, seen := order[|order| - 1], order[..|order| - 1];
      var (p, m) := RefAll(desk, seen);
      var (x, y) := RefTrack(desk, seen, p, m, u);
      (p[u := x], m[u := y])
  }

  lemma {:induction false} BusSumAgree(desk: Desk, seen: seq<nat>, a: seq<Stream>, b: seq<Stream>, aux: bool,
                                       delayed: bool, i: nat)
    requires desk.Valid() && Below(seen, |desk.tracks|) && |a| == |b| == |desk.tracks|
    requires forall j :: 0 <= j < |seen| ==> a[seen[j]] == b[seen[j]]
    ensures BusSum(desk, seen, a, aux, delayed, i) == BusSum(desk, seen, b, aux, delayed, i)
  {
    if seen != [] {
      BusSumAgree(desk, seen[..|seen| - 1], a, b, aux, delayed, i);
    }
  }

  // Two computations agree on the streams of track i.
  predicate SameAt(a: (seq<Stream>, seq<Stream>), b: (seq<Stream>, seq<Stream>), i: nat) {
    i < |a.0| == |b.0| && i < |a.1| == |b.1| && a.0[i] == b.0[i] && a.1[i] == b.1[i]
  }

  // Computing one more track leaves the streams of the others.
  lemma RefKept(desk: Desk, order: seq<nat>, t: nat, i: nat)
    requires desk.Valid() && Below(order, |desk.tracks|) && 0 < t <= |order| && i < |desk.tracks| && i != order[t - 1]
    ensures SameAt(RefAll(desk, order[..t]), RefAll(desk, order[..t - 1]), i)
  {
    assert order[..t][..t - 1] == order[..t - 1];
  }

  // A computed stream stays as its turn left it.
  lemma {:induction false} RefStable(desk: Desk, order: seq<nat>, k: nat, t: nat)
    requires desk.Valid() && Below(order, |desk.tracks|) && Distinct(order) && k < t <= |order|
    ensures SameAt(RefAll(desk, order[..t]), RefAll(desk, order[..k + 1]), order[k])
  {
    if k + 1 < t {
      RefKept(desk, order, t, order[k]);
      RefStable(desk, order, k, t - 1);
    }
  }

  lemma RefAgrees(desk: Desk, order: seq<nat>, k: nat)
    requires desk.Valid() && Below(order, |desk.tracks|) && Distinct(order) && k <= |order|
    ensures forall j :: 0 <= j < k ==> SameAt(RefAll(desk, order), RefAll(desk, order[..k]), order[j])
  {
    assert order[..|order|] == order;
    forall j | 0 <= j < k ensures SameAt(RefAll(desk, order), RefAll(desk, order[..k]), order[j]) {
      RefStable(desk, order, j, |order|);
      RefStable(desk, order, j, k);
    }
  }

  // The final sum on a bus whose turn has come is the sum its turn was computed from.
  lemma RefSum(desk: Desk, order: seq<nat>, k: nat, low: bool, aux: bool, delayed: bool)
    requires desk.Valid() && Below(order, |desk.tracks|) && Distinct(order) && SendsForward(desk, order) && k < |order|
    ensures var (p, m) := RefAll(desk, order); var (p0, m0) := RefAll(desk, order[..k]);
      BusSum(desk, order, if low then m else p, aux, delayed, order[k])
      == BusSum(desk, order[..k], if low then m0 else p0, aux, delayed, order[k])
  {
    var (p, m) := RefAll(desk, order);
    var (p0, m0) := RefAll(desk, order[..k]);
    RefAgrees(desk, order, k);
    SumAll(desk, order, if low then m else p, aux, delayed, k);
    BusSumAgree(desk, order[..k], if low then m else p, if low then m0 else p0, aux, delayed, order[k]);
  }

  lemma RefTurn(desk: Desk, order: seq<nat>, k: nat)
    requires desk.Valid() && Below(order, |desk.tracks|) && Distinct(order) && SendsForward(desk, order) && k < |order|
    ensures var (p, m) := RefAll(desk, order); (p[order[k]], m[order[k]]) == RefTrack(desk, order, p, m, order[k])
  {
    RefSum(desk, order, k, false, false, true);
    RefSum(desk, order, k, false, true, true);
    RefSum(desk, order, k, true, false, false);
    RefStep(desk, order, k);
    RefStable(desk, order, k, |order|);
    assert order[..|order|] == order;
  }

  lemma RefStep(desk: Desk, order: seq<nat>, k: nat)
    requires desk.Valid() && Below(order, |desk.tracks|) && k < |order|
    ensures var (p0, m0) := RefAll(desk, order[..k]); var (p1, m1) := RefAll(desk, order[..k + 1]);
      (p1[order[k]], m1[order[k]]) == RefTrack(desk, order[..k], p0, m0, order[k])
  {
    assert order[..k + 1][..k] == order[..k];
  }

  // Every plan has its reference, so SharingIsSound always applies to some streams.
  lemma ReferenceExists(tracks: seq<TrackSpec>, limits: Limits, rig: Rig)
    requires PlanRoutesSpec(tracks, limits).Ok()
    ensures var desk := DeskOf(tracks, limits, rig);
      IsReference(desk, OrderOf(tracks), RefAll(desk, OrderOf(tracks)).0, RefAll(desk, OrderOf(tracks)).1)
  {
    PlanParts(tracks, limits);
    var desk, order := DeskOf(tracks, limits, rig), OrderOf(tracks);
    OrderForward(desk);
    var (p, m) := RefAll(desk, order);
    forall i: nat | i < |tracks|
      ensures (p[i], m[i]) == RefTrack(desk, order, p, m, i)
    {
      DistinctFull(order, |tracks|, i);
      var k :| 0 <= k < |order| && order[k] == i;
      RefTurn(desk, order, k);
    }
  }
}
