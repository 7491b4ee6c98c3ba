/** When the routing commands are refused, and what they change. */
module RoutingCommands {
  import opened Wrappers
  import opened GraphTopo
  import opened SortedLists
  import opened TrackTable
  import opened TableInvariant

  // Dest and sidechain commands are refused exactly under the conditions below; a refused one changes
  // nothing, an accepted one exactly the listed edges.

  // ---------- when a routing command finds a cycle ----------

  ghost predicate IdReaches(tracks: seq<Track>, a: Id, b: Id) {
    exists p: seq<Id> :: IdPath(tracks, p) && p[0] == a && p[|p| - 1] == b
  }

  // The edges out of every track but `id` are the same.
  predicate SameElsewhere(a: seq<Track>, b: seq<Track>, id: Id) {
    && |a| == |b| && (forall i: nat :: i < |a| ==> a[i].id == b[i].id)
    && forall i: nat :: i < |a| && a[i].id != id ==>
      a[i].dests == b[i].dests && a[i].sidechainDests == b[i].sidechainDests
  }

  lemma EdgeElsewhere(a: seq<Track>, b: seq<Track>, id: Id, x: Id, y: Id)
    requires SameElsewhere(a, b, id) && x != id && IdEdge(a, x, y)
    ensures IdEdge(b, x, y)
  {
    SameIds(a, b, x);
    SameIds(a, b, y);
  }

  lemma {:induction false} FirstHit(p: seq<Id>, id: Id) returns (k: nat)
    requires |p| > 0 && p[|p| - 1] == id
    ensures k < |p| && p[k] == id && forall j :: 0 <= j < k ==> p[j] != id
  {
    if p[0] == id {
      k := 0;
    } else {
      k := FirstHit(p[1..], id);
      k := k + 1;
    }
  }

  // A path to `id` can be cut at its first visit, and then uses no edge out of `id`.
  lemma PathElsewhere(a: seq<Track>, b: seq<Track>, id: Id, p: seq<Id>) returns (q: seq<Id>)
    requires SameElsewhere(a, b, id) && IdPath(a, p) && p[|p| - 1] == id
    ensures IdPath(b, q) && q[0] == p[0] && q[|q| - 1] == id
  {
    var k := FirstHit(p, id);
    q := p[..k + 1];
    forall j: nat | j < |q| - 1 ensures IdStep(b, q, j) {
      assert IdStep(a, p, j);
      EdgeElsewhere(a, b, id, p[j], p[j + 1]);
    }
  }

  lemma CloseIds(tracks: seq<Track>, id: Id, p: seq<Id>)
    requires IdPath(tracks, p) && p[|p| - 1] == id && IdEdge(tracks, id, p[0])
    ensures IdCycle(tracks, [id] + p)
  {
    var q := [id] + p;
    forall k: nat | k < |q| - 1 ensures IdStep(tracks, q, k) {
      if k > 0 {
        assert IdStep(tracks, p, k - 1);
      }
    }
  }

  // Going round a cycle from the track after position k ends at position k.
  lemma Rotate(tracks: seq<Track>, q: seq<Id>, k: nat) returns (r: seq<Id>)
    requires IdCycle(tracks, q) && k < |q| - 1
    ensures IdPath(tracks, r) && r[0] == q[k + 1] && r[|r| - 1] == q[k]
  {
    r := q[k + 1..] + q[1..k + 1];
    var m := |q| - k - 1;
    forall j: nat | j < |r| - 1 ensures IdStep(tracks, r, j) {
      if j < m - 1 {
        assert IdStep(tracks, q, k + 1 + j);
      } else {
        assert IdStep(tracks, q, j - m + 1);
      }
    }
  }

  function Rerouted(tracks: seq<Track>, i: nat, dests: seq<Id>): seq<Track>
    requires i < |tracks|
  {
    tracks[i := tracks[i].(dests := Unique(Sort(dests)))]
  }

  lemma ReroutedEdge(tracks: seq<Track>, i: nat, dests: seq<Id>, b: Id)
    requires IdsUnique(tracks) && i < |tracks|
    ensures SameElsewhere(tracks, Rerouted(tracks, i, dests), tracks[i].id)
    ensures IdEdge(Rerouted(tracks, i, dests), tracks[i].id, b) <==>
      Exists(tracks, b) && (b in dests || b in tracks[i].sidechainDests)
  {
    var after := Rerouted(tracks, i, dests);
    SameIds(tracks, after, b);
    SameIds(tracks, after, tracks[i].id);
    FindUnique(tracks, i);
    SortUnique(dests);
  }

  lemma ReachMakesCycle(tracks: seq<Track>, i: nat, dests: seq<Id>, d: Id)
    requires IdsUnique(tracks) && i < |tracks| && d in dests && Exists(tracks, d) && IdReaches(tracks, d, tracks[i].id)
    ensures Cyclic(Rerouted(tracks, i, dests))
  {
    var id, after := tracks[i].id, Rerouted(tracks, i, dests);
    var p: seq<Id> :| IdPath(tracks, p) && p[0] == d && p[|p| - 1] == id;
    ReroutedEdge(tracks, i, dests, d);
    var q := PathElsewhere(tracks, after, id, p);
    CloseIds(after, id, q);
  }

  lemma CycleAvoids(before: seq<Track>, after: seq<Track>, id: Id, q: seq<Id>)
    requires IdsUnique(before) && SameElsewhere(after, before, id) && IdCycle(after, q)
    requires forall k: nat :: k < |q| - 1 ==> q[k] != id
    ensures Cyclic(before)
  {
    forall k: nat | k < |q| - 1 ensures IdStep(before, q, k) {
      assert IdStep(after, q, k);
      EdgeElsewhere(after, before, id, q[k], q[k + 1]);
    }
    assert IdCycle(before, q);
  }

  lemma CycleThrough(tracks: seq<Track>, i: nat, dests: seq<Id>, q: seq<Id>, k: nat)
    requires IdsUnique(tracks) && i < |tracks| && !Cyclic(tracks)
    requires IdCycle(Rerouted(tracks, i, dests), q) && k < |q| - 1 && q[k] == tracks[i].id
    ensures q[k + 1] in dests && IdReaches(tracks, q[k + 1], tracks[i].id)
  {
    var id, after := tracks[i].id, Rerouted(tracks, i, dests);
    assert IdStep(after, q, k);
    ReroutedEdge(tracks, i, dests, q[k + 1]);
    var r := Rotate(after, q, k);
    var p := PathElsewhere(after, tracks, id, r);
    if q[k + 1] !in dests {
      FindUnique(tracks, i);
      CloseIds(tracks, id, p);
    }
  }

  // Rerouting a track of an acyclic table closes a cycle exactly when some new dest already leads
  // back to it.
  lemma ReroutingCycle(tracks: seq<Track>, i: nat, dests: seq<Id>)
    requires IdsUnique(tracks) && i < |tracks| && !Cyclic(tracks) && forall d :: d in dests ==> Exists(tracks, d)
    ensures Cyclic(Rerouted(tracks, i, dests)) <==> exists d :: d in dests && IdReaches(tracks, d, tracks[i].id)
  {
    var id, after := tracks[i].id, Rerouted(tracks, i, dests);
    if d :| d in dests && IdReaches(tracks, d, id) {
      ReachMakesCycle(tracks, i, dests, d);
    }
    if Cyclic(after) {
      var q :| IdCycle(after, q);
      ReroutedEdge(tracks, i, dests, id);
      if forall k: nat :: k < |q| - 1 ==> q[k] != id {
        CycleAvoids(tracks, after, id, q);
      } else {
        var k: nat :| k < |q| - 1 && q[k] == id;
        CycleThrough(tracks, i, dests, q, k);
      }
    }
  }

  lemma {:induction false} CheckedExactly(tracks: seq<Track>, id: Id, ids: seq<Id>, sources: bool)
    ensures CheckAll(tracks, id, ids, sources).None? <==>
      forall d :: d in ids ==> (if sources then CheckSource(tracks, id, d) else CheckDest(tracks, id, d)).None?
    ensures CheckAll(tracks, id, ids, sources) != Some(CycleDetected)
  {
    if ids != [] {
      CheckedExactly(tracks, id, ids[..|ids| - 1], sources);
      assert ids == ids[..|ids| - 1] + [ids[|ids| - 1]];
    }
  }

  // Every listed dest is another existing track that takes input.
  predicate DestsAllowed(tracks: seq<Track>, id: Id, dests: seq<Id>) {
    forall d :: d in dests ==> d != id && Exists(tracks, d) && !SourceKind(tracks[Find(tracks, d)].kind)
  }

  // Some listed dest already leads to the track.
  ghost predicate LoopsBack(tracks: seq<Track>, id: Id, dests: seq<Id>) {
    exists d :: d in dests && IdReaches(tracks, d, id)
  }

  // The track's dests are now the listed ones in ascending order; nothing else has changed.
  ghost predicate OnlyDestsChanged(before: seq<Track>, after: seq<Track>, id: Id, dests: seq<Id>) {
    |after| == |before| && forall k: nat :: k < |before| ==>
      if before[k].id != id then after[k] == before[k]
      else
        && after[k] == before[k].(dests := after[k].dests)
        && Strict(after[k].dests) && forall d: Id :: d in after[k].dests <==> d in dests
  }

  // When a dest command is accepted, when it is refused for a cycle, and what it changes.
  lemma SetDestsOutcome(t: Table, id: Id, dests: seq<Id>, gates: Gates)
    requires Inv(t)
    ensures var (after, e) := SetDests(t, id, dests, gates);
      && (e.None? <==> Exists(t.tracks, id) && DestsAllowed(t.tracks, id, dests) && !LoopsBack(t.tracks, id, dests)
                       && gates.prepared && gates.committed)
      && (e == Some(CycleDetected) <==> Exists(t.tracks, id) && DestsAllowed(t.tracks, id, dests)
                                        && LoopsBack(t.tracks, id, dests))
      && (e.Some? ==> after == t)
      && (e.None? ==> after.nextId == t.nextId && OnlyDestsChanged(t.tracks, after.tracks, id, dests))
  {
    CheckedExactly(t.tracks, id, dests, false);
    var i := Find(t.tracks, id);
    if i < |t.tracks| && CheckAll(t.tracks, id, dests, false).None? {
      forall d | d in dests ensures Exists(t.tracks, d) {
        assert CheckDest(t.tracks, id, d).None?;
      }
      ReroutingCycle(t.tracks, i, dests);
      SortUnique(dests);
      forall k: nat | k < |t.tracks| && k != i ensures t.tracks[k].id != id {
      }
    }
  }

  lemma NoEdgeIntoSource(tracks: seq<Track>, a: Id, b: Id)
    requires AllOk(tracks) && IdEdge(tracks, a, b)
    ensures KindOf(tracks, b).Some? && !SourceKind(KindOf(tracks, b).value)
  {
    assert EdgesOk(tracks, tracks[Find(tracks, a)]);
  }

  // An edge out of a track that takes input is a dest edge, and those are untouched.
  lemma InnerEdge(t: Table, id: Id, sources: seq<Id>, a: Id, b: Id)
    requires Inv(t) && KindOf(t.tracks, id) == Some(FxTrack) && CheckAll(t.tracks, id, sources, true).None?
    requires IdEdge(Transposed(t.tracks, id, sources), a, b)
    requires KindOf(t.tracks, a).Some? ==> !SourceKind(KindOf(t.tracks, a).value)
    ensures IdEdge(t.tracks, a, b)
  {
    var after := Transposed(t.tracks, id, sources);
    KindsKept(t.tracks, after, a);
    KindsKept(t.tracks, after, b);
    var k := Find(t.tracks, a);
    assert EdgesOk(t.tracks, t.tracks[k]) && FieldsOk(t.tracks[k]);
    FeedingOk(t.tracks, k, id, sources);
  }

  lemma TransposedOk(t: Table, id: Id, sources: seq<Id>)
    requires Inv(t) && KindOf(t.tracks, id) == Some(FxTrack) && CheckAll(t.tracks, id, sources, true).None?
    ensures IdsUnique(Transposed(t.tracks, id, sources)) && AllOk(Transposed(t.tracks, id, sources))
  {
    var after := Transposed(t.tracks, id, sources);
    forall k: nat | k < |after| ensures EdgesOk(after, after[k]) && FieldsOk(after[k]) {
      FeedingOk(t.tracks, k, id, sources);
      forall d: Id ensures KindOf(after, d) == KindOf(t.tracks, d) {
        KindsKept(t.tracks, after, d);
      }
    }
  }

  // An edge that follows another one was there before.
  lemma FollowingEdge(t: Table, id: Id, sources: seq<Id>, a: Id, b: Id, c: Id)
    requires Inv(t) && KindOf(t.tracks, id) == Some(FxTrack) && CheckAll(t.tracks, id, sources, true).None?
    requires IdEdge(Transposed(t.tracks, id, sources), a, b) && IdEdge(Transposed(t.tracks, id, sources), b, c)
    ensures IdEdge(t.tracks, b, c)
  {
    TransposedOk(t, id, sources);
    NoEdgeIntoSource(Transposed(t.tracks, id, sources), a, b);
    KindsKept(t.tracks, Transposed(t.tracks, id, sources), b);
    InnerEdge(t, id, sources, b, c);
  }

  // Every edge of `after` that follows another is an edge of `before`.
  ghost predicate Follows(before: seq<Track>, after: seq<Track>) {
    forall a: Id, b: Id, c: Id :: IdEdge(after, a, b) && IdEdge(after, b, c) ==> IdEdge(before, b, c)
  }

  // On a cycle every edge follows another.
  lemma FollowingCycle(before: seq<Track>, after: seq<Track>)
    requires Follows(before, after) && Cyclic(after)
    ensures Cyclic(before)
  {
    var q :| IdCycle(after, q);
    forall k: nat | k < |q| - 1 ensures IdStep(before, q, k) {
      var j := if k == 0 then |q| - 2 else k - 1;
      assert IdStep(after, q, j) && IdStep(after, q, k) && q[j + 1] == q[k];
      assert IdEdge(after, q[j], q[k]) && IdEdge(after, q[k], q[k + 1]);
    }
    assert IdCycle(before, q);
  }

  // Input tracks have no incoming edges, so feeding an FX track from them can never close a cycle.
  lemma SidechainNeverCycles(t: Table, id: Id, sources: seq<Id>)
    requires Inv(t) && KindOf(t.tracks, id) == Some(FxTrack) && CheckAll(t.tracks, id, sources, true).None?
    ensures !Cyclic(Transposed(t.tracks, id, sources))
  {
    var after := Transposed(t.tracks, id, sources);
    forall a: Id, b: Id, c: Id | IdEdge(after, a, b) && IdEdge(after, b, c) ensures IdEdge(t.tracks, b, c) {
      FollowingEdge(t, id, sources, a, b, c);
    }
    if Cyclic(after) {
      FollowingCycle(t.tracks, after);
    }
  }

  // Every listed source is another existing input track.
  predicate SourcesAllowed(tracks: seq<Track>, id: Id, sources: seq<Id>) {
    forall s :: s in sources ==> s != id && Exists(tracks, s) && SourceKind(tracks[Find(tracks, s)].kind)
  }

  // When a sidechain command is accepted - on a valid table never refused for a cycle - and what it
  // changes: exactly the listed tracks feed the FX track, and no other edge is touched.
  lemma SetSidechainOutcome(t: Table, id: Id, sources: seq<Id>, gates: Gates)
    requires Inv(t)
    ensures var (after, e) := SetSidechain(t, id, sources, gates);
      && (e.None? <==> KindOf(t.tracks, id) == Some(FxTrack) && SourcesAllowed(t.tracks, id, sources)
                       && gates.prepared && gates.committed)
      && e != Some(CycleDetected)
      && (e.Some? ==> after == t)
      && (e.None? ==>
        && after.nextId == t.nextId && |after.tracks| == |t.tracks|
        && forall k: nat :: k < |t.tracks| ==> OnlyFeedChanged(t.tracks[k], after.tracks[k], id, sources))
  {
    CheckedExactly(t.tracks, id, sources, true);
    var i := Find(t.tracks, id);
    forall s | s in sources
      ensures CheckSource(t.tracks, id, s).None? <==>
        s != id && Exists(t.tracks, s) && SourceKind(t.tracks[Find(t.tracks, s)].kind)
    {
    }
    if i < |t.tracks| && t.tracks[i].kind == FxTrack && CheckAll(t.tracks, id, sources, true).None? {
      SidechainNeverCycles(t, id, sources);
      forall k: nat | k < |t.tracks|
        ensures OnlyFeedChanged(t.tracks[k], Transposed(t.tracks, id, sources)[k], id, sources)
      {
        FedBy(t.tracks[k], id, sources);
      }
    }
  }

  lemma FedBy(track: Track, id: Id, sources: seq<Id>)
    ensures OnlyFeedChanged(track, track.(sidechainDests := Feeding(track, id, Unique(Sort(sources)))), id, sources)
  {
    SortUnique(sources);
    forall d: Id
      ensures d in Feeding(track, id, Unique(Sort(sources))) <==>
        (if d == id then track.id in sources else d in track.sidechainDests)
    {
      FeedingElems(track, id, Unique(Sort(sources)), d);
    }
  }

  ghost predicate OnlyFeedChanged(before: Track, after: Track, id: Id, sources: seq<Id>) {
    && after == before.(sidechainDests := after.sidechainDests)
    && (id in after.sidechainDests <==> before.id in sources)
    && forall d: Id :: d != id ==> (d in after.sidechainDests <==> d in before.sidechainDests)
  }

  // ---------- what a refused command leaves ----------

  // A refused setting leaves the table as it was, except when a bad gain comes with a new color: the
  // color has already been stored.
  lemma RefusedSetting(t: Table, id: Id, color: Option<nat>, gain: Option<Gain>, mute: Option<bool>)
    requires Set(t, id, color, gain, mute).1.Some?
    ensures Set(t, id, color, gain, mute).0 == t <==>
      (!Exists(t.tracks, id) || color.None? || t.tracks[Find(t.tracks, id)].color == color.value % COLOR_RANGE)
  {
    var i := Find(t.tracks, id);
    if i < |t.tracks| {
      var painted := Set(t, id, color, gain, mute).0.tracks[i];
      assert Set(t, id, color, gain, mute).0.tracks == t.tracks[i := painted];
      if color.None? || t.tracks[i].color == color.value % COLOR_RANGE {
        assert t.tracks[i := t.tracks[i]] == t.tracks;
      } else {
        assert painted.color != t.tracks[i].color;
      }
    }
  }
}
