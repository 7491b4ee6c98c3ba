/** Capturing plugin state while a safety graph is published (engine/src/audio_engine.cpp). */
module QuietCapture {
  import opened Gate
  import GraphRetire
  import opened RoutePlanner
  import opened RouteTheorems

  // A quiescent section publishes the suspension of the active plan, waits until it has seen no reader,
  // and captures the state of a plugin before anything else is published.

  // While the state is captured, no path of any slot of the graph a reader holds runs or drains a
  // plugin. `plans` gives the route plan of every graph; the graph made by the swap at i is suspended.
  lemma NoPluginRuns(states: seq<GraphRetire.State>, events: seq<GraphRetire.Event>,
                     plans: GraphRetire.Graph -> RoutePlan,
                     active: RoutePlan, i: nat, j: nat, k: nat, r: Thread, t: nat, s: nat)
    requires GraphRetire.Run(states, events) && i < j <= k < |states|
    requires events[i].Swap? && plans(states[i].made) == SuspensionSpec(active)
    requires states[j].count == 0 && forall m :: i < m < k ==> !GraphRetire.Exchanges(events[m])
    requires r in states[k].pc && states[k].pc[r].Holding?
    requires t < |plans(states[k].pc[r].graph).tracks| && s < |plans(states[k].pc[r].graph).tracks[t].slots|
    ensures var slot := plans(states[k].pc[r].graph).tracks[t].slots[s]; !Runs(slot.primary) && !Runs(slot.monitor)
  {
    GraphRetire.QuietReaders(states, events, i, j, k, r);
    assert GraphRetire.Step(states, events, i);
    SuspensionSilences(active, t, s);
  }
}
