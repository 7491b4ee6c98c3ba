/**
 What every sequence of track commands keeps: ids are unique, edges are well-formed and acyclic, and
 the stored settings stay in range.
 */
module TableInvariant {
  import opened Words
  import opened Wrappers
  import opened GraphTopo
  import opened PdcPlanner
  import opened SortedLists
  import opened TrackTable

  // ---------- the invariant ----------

  function KindOf(tracks: seq<Track>, id: Id): Option<TrackKind> {
    if Exists(tracks, id) then Some(tracks[Find(tracks, id)].kind) else None
  }

  // Dests are other tracks that take input; sidechain edges run from input tracks to FX tracks.
  predicate EdgesOk(tracks: seq<Track>, t: Track) {
    && (forall d :: d in t.dests ==> d != t.id && KindOf(tracks, d).Some? && !SourceKind(KindOf(tracks, d).value))
    && (forall d :: d in t.sidechainDests ==> d != t.id && SourceKind(t.kind) && KindOf(tracks, d) == Some(FxTrack))
  }

  predicate FieldsOk(t: Track) {
    && Strict(t.dests) && Strict(t.sidechainDests)
    && 0.0 <= t.gain <= 4.0 && t.color < COLOR_RANGE
    && (t.kind != OutputTrack ==> t.policy == RolePolicy(t.role))
  }

  ghost predicate AllOk(tracks: seq<Track>) {
    forall i: nat :: i < |tracks| ==> EdgesOk(tracks, tracks[i]) && FieldsOk(tracks[i])
  }

  predicate IdsBelow(tracks: seq<Track>, n: Id) {
    forall i: nat :: i < |tracks| ==> tracks[i].id < n
  }

  ghost predicate Inv(t: Table) {
    IdsUnique(t.tracks) && IdsBelow(t.tracks, t.nextId) && AllOk(t.tracks) && !Cyclic(t.tracks)
  }

  // ---------- cycles ----------

  // A table whose edges all exist in an acyclic one is acyclic.
  lemma FewerEdges(before: seq<Track>, after: seq<Track>)
    requires IdsUnique(before) && IdsUnique(after) && !Cyclic(before)
    requires forall a: Id, b: Id :: IdEdge(after, a, b) ==> IdEdge(before, a, b)
    ensures !Cyclic(after)
  {
    if Cyclic(after) {
      var q :| IdCycle(after, q);
      forall k: nat | k < |q| - 1 ensures IdStep(before, q, k) {
        assert IdStep(after, q, k);
      }
      assert IdCycle(before, q);
    }
  }

  // ---------- tables with the same links ----------

  // The same tracks and edges in the same places; only other settings differ.
  predicate SameLink(a: Track, b: Track) {
    a.id == b.id && a.kind == b.kind && a.dests == b.dests && a.sidechainDests == b.sidechainDests
  }

  predicate SameLinks(a: seq<Track>, b: seq<Track>) {
    |a| == |b| && forall i: nat :: i < |a| ==> SameLink(a[i], b[i])
  }

  lemma SameFind(a: seq<Track>, b: seq<Track>, id: Id)
    requires SameLinks(a, b)
    ensures Find(a, id) == Find(b, id) && KindOf(a, id) == KindOf(b, id)
  {
    SameIds(a, b, id);
  }

  lemma SameLinksKeep(t: Table, after: seq<Track>)
    requires Inv(t) && SameLinks(t.tracks, after)
    requires forall i: nat :: i < |after| ==> FieldsOk(after[i])
    ensures Inv(t.(tracks := after))
  {
    var before := t.tracks;
    forall id: Id ensures Find(before, id) == Find(after, id) && KindOf(before, id) == KindOf(after, id) {
      SameFind(before, after, id);
    }
    FewerEdges(before, after);
    forall i: nat | i < |after| ensures EdgesOk(after, after[i]) {
      assert EdgesOk(before, before[i]) && SameLink(before[i], after[i]);
    }
  }

  lemma OneChanged(t: Table, i: nat, track: Track)
    requires Inv(t) && i < |t.tracks| && SameLink(t.tracks[i], track) && FieldsOk(track)
    ensures Inv(t.(tracks := t.tracks[i := track]))
  {
    SameLinksKeep(t, t.tracks[i := track]);
  }

  // ---------- adding ----------

  lemma PaletteSmall(id: Id)
    ensures PaletteColor(id) < COLOR_RANGE
  {
    var k := (id + ID_RANGE - 1) % ID_RANGE % 8;
    assert k == 0 || k == 1 || k == 2 || k == 3 || k == 4 || k == 5 || k == 6 || k == 7;
  }

  lemma NewTrackOk(id: Id, kind: TrackKind, color: nat)
    ensures FieldsOk(NewTrack(id, kind, color))
  {
    PaletteSmall(id);
  }

  lemma FindAppend(tracks: seq<Track>, track: Track, id: Id)
    ensures Find(tracks + [track], id) ==
            if Exists(tracks, id) then Find(tracks, id) else if track.id == id then |tracks| else |tracks| + 1
  {
    var all := tracks + [track];
    assert all[|tracks|] == track;
    assert forall j :: 0 <= j < |tracks| ==> all[j] == tracks[j];
  }

  lemma AppendKinds(tracks: seq<Track>, track: Track, id: Id)
    requires id != track.id
    ensures KindOf(tracks + [track], id) == KindOf(tracks, id)
  {
    FindAppend(tracks, track, id);
  }

  lemma AppendEdge(tracks: seq<Track>, track: Track, a: Id, b: Id)
    requires AllOk(tracks) && track.dests == [] && track.sidechainDests == [] && !Exists(tracks, track.id)
    requires IdEdge(tracks + [track], a, b)
    ensures IdEdge(tracks, a, b)
  {
    FindAppend(tracks, track, a);
    FindAppend(tracks, track, b);
    var i := Find(tracks + [track], a);
    assert EdgesOk(tracks, tracks[i]);
  }

  // A new unconnected track with an unused id.
  lemma AppendOk(t: Table, track: Track)
    requires Inv(t) && track.id == t.nextId && track.dests == [] && track.sidechainDests == [] && FieldsOk(track)
    ensures Inv(Table(t.tracks + [track], t.nextId + 1))
  {
    var before, after := t.tracks, t.tracks + [track];
    forall i: nat | i < |after| ensures EdgesOk(after, after[i]) && FieldsOk(after[i]) {
      if i < |before| {
        AppendEdges(before, track, before[i]);
      }
    }
    forall a: Id, b: Id | IdEdge(after, a, b) ensures IdEdge(before, a, b) {
      AppendEdge(before, track, a, b);
    }
    FewerEdges(before, after);
  }

  lemma AppendEdges(tracks: seq<Track>, track: Track, t: Track)
    requires EdgesOk(tracks, t) && !Exists(tracks, track.id)
    ensures EdgesOk(tracks + [track], t)
  {
    forall d | Linked(t, d) ensures KindOf(tracks + [track], d) == KindOf(tracks, d) {
      AppendKinds(tracks, track, d);
    }
  }

  lemma AddAppends(t: Table, kind: TrackKind, color: nat)
    requires |t.tracks| < MAX_TRACKS && t.nextId + 1 < ID_RANGE
    ensures Add(t, kind, color).0 == Table(t.tracks + [NewTrack(t.nextId, kind, color)], t.nextId + 1)
  {
  }

  lemma AddKeeps(t: Table, kind: TrackKind, color: nat)
    requires Inv(t) && t.nextId + 1 < ID_RANGE
    ensures Inv(Add(t, kind, color).0) && t.nextId <= Add(t, kind, color).0.nextId <= t.nextId + 1
  {
    if |t.tracks| < MAX_TRACKS {
      var track := NewTrack(t.nextId, kind, color);
      NewTrackOk(t.nextId, kind, color);
      AddAppends(t, kind, color);
      AppendOk(t, track);
    }
  }

  // ---------- removing and moving ----------

  lemma FindSkip(tracks: seq<Track>, i: nat, id: Id)
    requires i < |tracks| && tracks[i].id != id
    ensures Exists(tracks[..i] + tracks[i + 1..], id) == Exists(tracks, id)
    ensures Exists(tracks, id) ==>
      (tracks[..i] + tracks[i + 1..])[Find(tracks[..i] + tracks[i + 1..], id)] == tracks[Find(tracks, id)]
  {
    var rest := tracks[..i] + tracks[i + 1..];
    assert forall k: nat :: k < |rest| ==> rest[k] == tracks[if k < i then k else k + 1];
    var at := Find(tracks, id);
    if at < |tracks| {
      var r := if at < i then at else at - 1;
      assert rest[r] == tracks[at];
      assert Find(rest, id) <= r;
    }
  }

  lemma RemovedTrack(tracks: seq<Track>, i: nat, id: Id)
    requires IdsUnique(tracks) && i < |tracks| && id != tracks[i].id
    ensures Exists(Removed(tracks, i), id) == Exists(tracks, id)
    ensures Exists(tracks, id) ==>
      Removed(tracks, i)[Find(Removed(tracks, i), id)] == Forget(tracks[Find(tracks, id)], tracks[i].id)
  {
    var rest := tracks[..i] + tracks[i + 1..];
    FindSkip(tracks, i, id);
    SameIds(rest, Removed(tracks, i), id);
  }

  lemma SameIds(a: seq<Track>, b: seq<Track>, id: Id)
    requires |a| == |b| && forall i: nat :: i < |a| ==> a[i].id == b[i].id
    ensures Find(a, id) == Find(b, id)
  {
    var i, j := Find(a, id), Find(b, id);
    assert i < |a| ==> b[i].id == id;
    assert j < |b| ==> a[j].id == id;
  }

  lemma RemovedUnique(tracks: seq<Track>, i: nat)
    requires IdsUnique(tracks) && i < |tracks|
    ensures IdsUnique(Removed(tracks, i)) && !Exists(Removed(tracks, i), tracks[i].id)
    ensures forall k: nat :: k < |tracks| - 1 ==>
      (Removed(tracks, i)[k] == Forget(tracks[if k < i then k else k + 1], tracks[i].id))
  {
    var rest := tracks[..i] + tracks[i + 1..];
    assert forall k: nat :: k < |rest| ==> rest[k] == tracks[if k < i then k else k + 1];
  }

  lemma ForgetOk(tracks: seq<Track>, i: nat, t: Track)
    requires IdsUnique(tracks) && i < |tracks| && EdgesOk(tracks, t) && FieldsOk(t)
    ensures EdgesOk(Removed(tracks, i), Forget(t, tracks[i].id)) && FieldsOk(Forget(t, tracks[i].id))
  {
    var gone := tracks[i].id;
    WithoutStrict(t.dests, gone);
    WithoutStrict(t.sidechainDests, gone);
    forall d: Id
      ensures Linked(Forget(t, gone), d) ==> d != gone && KindOf(Removed(tracks, i), d) == KindOf(tracks, d)
    {
      WithoutElems(t.dests, gone, d);
      WithoutElems(t.sidechainDests, gone, d);
      if d != gone {
        RemovedTrack(tracks, i, d);
      }
    }
    forall d | d in Forget(t, gone).dests ensures d in t.dests {
      WithoutElems(t.dests, gone, d);
    }
    forall d | d in Forget(t, gone).sidechainDests ensures d in t.sidechainDests {
      WithoutElems(t.sidechainDests, gone, d);
    }
  }

  lemma RemovedEdge(tracks: seq<Track>, i: nat, a: Id, b: Id)
    requires IdsUnique(tracks) && i < |tracks| && IdEdge(Removed(tracks, i), a, b)
    ensures IdEdge(tracks, a, b)
  {
    RemovedUnique(tracks, i);
    RemovedTrack(tracks, i, a);
    RemovedTrack(tracks, i, b);
    var t := tracks[Find(tracks, a)];
    WithoutElems(t.dests, tracks[i].id, b);
    WithoutElems(t.sidechainDests, tracks[i].id, b);
  }

  lemma RemoveKeeps(t: Table, id: Id)
    requires Inv(t)
    ensures Inv(Remove(t, id).0)
  {
    var tracks, i := t.tracks, Find(t.tracks, id);
    if i < |tracks| && tracks[i].role == NoRole {
      var after := Removed(tracks, i);
      RemovedUnique(tracks, i);
      forall k: nat | k < |after| ensures EdgesOk(after, after[k]) && FieldsOk(after[k]) {
        ForgetOk(tracks, i, tracks[if k < i then k else k + 1]);
      }
      forall a: Id, b: Id | IdEdge(after, a, b) ensures IdEdge(tracks, a, b) {
        RemovedEdge(tracks, i, a, b);
      }
      FewerEdges(tracks, after);
    }
  }

  // The same tracks in another order.
  ghost predicate Reordered(a: seq<Track>, b: seq<Track>) {
    && (forall i: nat :: i < |a| ==> a[i] in b)
    && (forall i: nat :: i < |b| ==> b[i] in a)
  }

  lemma FoundToo(a: seq<Track>, b: seq<Track>, id: Id)
    requires IdsUnique(b) && forall i: nat :: i < |a| ==> a[i] in b
    ensures Exists(a, id) ==> Exists(b, id) && a[Find(a, id)] == b[Find(b, id)]
  {
    if Exists(a, id) {
      assert a[Find(a, id)] in b;
      var j :| 0 <= j < |b| && b[j] == a[Find(a, id)];
      FindUnique(b, j);
    }
  }

  lemma ReorderedFind(a: seq<Track>, b: seq<Track>, id: Id)
    requires IdsUnique(a) && IdsUnique(b) && Reordered(a, b)
    ensures Exists(a, id) == Exists(b, id)
    ensures Exists(a, id) ==> a[Find(a, id)] == b[Find(b, id)]
  {
    FoundToo(a, b, id);
    FoundToo(b, a, id);
  }

  lemma ReorderKeeps(t: Table, after: seq<Track>)
    requires Inv(t) && IdsUnique(after) && Reordered(t.tracks, after)
    ensures Inv(t.(tracks := after))
  {
    var before := t.tracks;
    forall i: nat | i < |after| ensures after[i].id < t.nextId && EdgesOk(after, after[i]) && FieldsOk(after[i]) {
      assert after[i] in before;
      var j :| 0 <= j < |before| && before[j] == after[i];
      assert EdgesOk(before, before[j]);
      forall d: Id ensures KindOf(after, d) == KindOf(before, d) {
        ReorderedFind(before, after, d);
      }
    }
    forall a: Id, b: Id | IdEdge(after, a, b) ensures IdEdge(before, a, b) {
      ReorderedFind(before, after, a);
      ReorderedFind(before, after, b);
    }
    FewerEdges(before, after);
  }

  // Where each track of a moved list comes from.
  function MovedFrom(i: nat, pos: nat, k: nat): nat {
    if k == pos then i
    else
      var r := if k < pos then k else k - 1;
      if r < i then r else r + 1
  }

  lemma MovedAt(tracks: seq<Track>, i: nat, newIndex: nat)
    requires i < |tracks|
    ensures var pos := Min(newIndex, |tracks| - 1); var after := Moved(tracks, i, newIndex);
      |after| == |tracks| && forall k: nat :: k < |tracks| ==>
        MovedFrom(i, pos, k) < |tracks| && after[k] == tracks[MovedFrom(i, pos, k)]
  {
    var rest, pos := tracks[..i] + tracks[i + 1..], Min(newIndex, |tracks| - 1);
    forall r: nat | r < |rest| ensures rest[r] == tracks[if r < i then r else r + 1] {
    }
    forall k: nat | k < |tracks|
      ensures MovedFrom(i, pos, k) < |tracks|
      ensures (rest[..pos] + [tracks[i]] + rest[pos..])[k] == tracks[MovedFrom(i, pos, k)]
    {
      Inserted(rest, pos, tracks[i], k);
    }
  }

  lemma Inserted(rest: seq<Track>, pos: nat, x: Track, k: nat)
    requires pos <= |rest| && k <= |rest|
    ensures (rest[..pos] + [x] + rest[pos..])[k] == if k == pos then x else if k < pos then rest[k] else rest[k - 1]
  {
  }

  lemma MovedReorders(tracks: seq<Track>, i: nat, newIndex: nat)
    requires i < |tracks| && IdsUnique(tracks)
    ensures IdsUnique(Moved(tracks, i, newIndex)) && Reordered(tracks, Moved(tracks, i, newIndex))
  {
    var pos, after := Min(newIndex, |tracks| - 1), Moved(tracks, i, newIndex);
    MovedAt(tracks, i, newIndex);
    forall k: nat | k < |tracks| ensures tracks[k] in after {
      var r := if k < i then k else k - 1;
      var at := if k == i then pos else if r < pos then r else r + 1;
      assert MovedFrom(i, pos, at) == k;
      assert after[at] == tracks[k];
    }
  }

  lemma MoveKeeps(t: Table, id: Id, newIndex: nat)
    requires Inv(t)
    ensures Inv(Move(t, id, newIndex).0)
  {
    var i := Find(t.tracks, id);
    if i < |t.tracks| && i != newIndex {
      MovedReorders(t.tracks, i, newIndex);
      ReorderKeeps(t, Moved(t.tracks, i, newIndex));
    }
  }

  // ---------- settings ----------

  lemma SetKeeps(t: Table, id: Id, color: Option<nat>, gain: Option<Gain>, mute: Option<bool>)
    requires Inv(t)
    ensures Inv(Set(t, id, color, gain, mute).0)
  {
    var i := Find(t.tracks, id);
    if i < |t.tracks| {
      OneChanged(t, i, Set(t, id, color, gain, mute).0.tracks[i]);
    }
  }

  lemma SetPolicyKeeps(t: Table, id: Id, policy: OutputLatencyPolicy, gates: Gates)
    requires Inv(t)
    ensures Inv(SetPolicy(t, id, policy, gates).0)
  {
    var i := Find(t.tracks, id);
    if i < |t.tracks| && t.tracks[i].kind == OutputTrack {
      OneChanged(t, i, t.tracks[i].(policy := policy));
    }
  }

  lemma SetRoleKeeps(t: Table, id: Id, role: SystemRole)
    requires Inv(t)
    ensures Inv(SetRole(t, id, role))
  {
    var i := Find(t.tracks, id);
    if i < |t.tracks| {
      OneChanged(t, i, WithRole(t.tracks[i], role));
    }
  }

  lemma DemotedLinks(tracks: seq<Track>, role: SystemRole)
    requires forall i: nat :: i < |tracks| ==> FieldsOk(tracks[i])
    ensures SameLinks(tracks, Demoted(tracks, role))
    ensures forall i: nat :: i < |tracks| ==> FieldsOk(Demoted(tracks, role)[i])
  {
  }

  lemma RoleAppends(t: Table, role: SystemRole)
    requires !HasRole(t.tracks, role) && FreeOutput(t.tracks) == |t.tracks| && t.nextId + 1 < ID_RANGE
    ensures EnsureRole(t, role) == Table(t.tracks + [NewOutput(t.nextId, role)], t.nextId + 1)
  {
  }

  lemma EnsureRoleKeeps(t: Table, role: SystemRole)
    requires Inv(t) && t.nextId + 1 < ID_RANGE
    ensures Inv(EnsureRole(t, role)) && t.nextId <= EnsureRole(t, role).nextId <= t.nextId + 1
  {
    if HasRole(t.tracks, role) {
      DemotedLinks(t.tracks, role);
      SameLinksKeep(t, Demoted(t.tracks, role));
    } else if FreeOutput(t.tracks) < |t.tracks| {
      OneChanged(t, FreeOutput(t.tracks), WithRole(t.tracks[FreeOutput(t.tracks)], role));
    } else {
      var track := NewOutput(t.nextId, role);
      NewTrackOk(t.nextId, OutputTrack, 0);
      RoleAppends(t, role);
      AppendOk(t, track);
    }
  }

  lemma EnsureKeeps(t: Table)
    requires Inv(t) && t.nextId + 2 < ID_RANGE
    ensures Inv(EnsureSystemOutputs(t)) && t.nextId <= EnsureSystemOutputs(t).nextId <= t.nextId + 2
  {
    EnsureRoleKeeps(t, MonitorRole);
    EnsureRoleKeeps(EnsureRole(t, MonitorRole), StreamRole);
  }

  // ---------- dests and sidechains ----------

  lemma {:induction false} AllChecked(tracks: seq<Track>, id: Id, ids: seq<Id>, sources: bool)
    requires CheckAll(tracks, id, ids, sources).None?
    ensures forall d :: d in ids ==> (if sources then CheckSource(tracks, id, d) else CheckDest(tracks, id, d)).None?
  {
    if ids != [] {
      AllChecked(tracks, id, ids[..|ids| - 1], sources);
      assert ids == ids[..|ids| - 1] + [ids[|ids| - 1]];
    }
  }

  lemma KindsKept(before: seq<Track>, after: seq<Track>, id: Id)
    requires |before| == |after| && forall i: nat :: i < |before| ==>
      before[i].id == after[i].id && before[i].kind == after[i].kind
    ensures Find(before, id) == Find(after, id) && KindOf(before, id) == KindOf(after, id)
  {
    SameIds(before, after, id);
  }

  lemma CommitKeeps(t: Table, candidate: seq<Track>, gates: Gates)
    requires Inv(t) && IdsUnique(candidate) && IdsBelow(candidate, t.nextId) && AllOk(candidate)
    ensures Inv(Commit(t, candidate, gates).0)
  {
  }

  lemma DestsOk(t: Table, i: nat, dests: seq<Id>)
    requires Inv(t) && i < |t.tracks| && CheckAll(t.tracks, t.tracks[i].id, dests, false).None?
    ensures AllOk(t.tracks[i := t.tracks[i].(dests := Unique(Sort(dests)))])
  {
    var before := t.tracks;
    var after := before[i := before[i].(dests := Unique(Sort(dests)))];
    SortUnique(dests);
    AllChecked(before, before[i].id, dests, false);
    forall k: nat | k < |after| ensures EdgesOk(after, after[k]) && FieldsOk(after[k]) {
      assert EdgesOk(before, before[k]) && FieldsOk(before[k]);
      forall d: Id ensures KindOf(after, d) == KindOf(before, d) {
        KindsKept(before, after, d);
      }
      if k == i {
        forall d | d in after[i].dests ensures CheckDest(before, before[i].id, d).None? {
          assert d in dests;
        }
      }
    }
  }

  lemma SetDestsKeeps(t: Table, id: Id, dests: seq<Id>, gates: Gates)
    requires Inv(t)
    ensures Inv(SetDests(t, id, dests, gates).0)
  {
    var i := Find(t.tracks, id);
    if i < |t.tracks| && CheckAll(t.tracks, id, dests, false).None? {
      DestsOk(t, i, dests);
      CommitKeeps(t, t.tracks[i := t.tracks[i].(dests := Unique(Sort(dests)))], gates);
    }
  }

  // A track feeds `id` afterwards exactly when it is listed; its other sidechain edges stay.
  lemma FeedingElems(track: Track, id: Id, sources: seq<Id>, d: Id)
    ensures d in Feeding(track, id, sources) <==>
      (if d == id then track.id in sources else d in track.sidechainDests)
  {
    var others := Without(track.sidechainDests, id);
    WithoutElems(track.sidechainDests, id, d);
    SortElems(others + [id], d);
  }

  lemma FeedingStrict(track: Track, id: Id, sources: seq<Id>)
    requires Strict(track.sidechainDests)
    ensures Strict(Feeding(track, id, sources))
  {
    var others := Without(track.sidechainDests, id);
    WithoutStrict(track.sidechainDests, id);
    WithoutElems(track.sidechainDests, id, id);
    if track.id in sources {
      var all := others + [id];
      forall x: nat, y: nat | x < y < |all| ensures all[x] != all[y] {
        if y == |others| {
          assert all[x] in others;
        }
      }
      SortStrict(all);
    }
  }

  lemma FeedingOk(tracks: seq<Track>, k: nat, id: Id, sources: seq<Id>)
    requires IdsUnique(tracks) && k < |tracks| && EdgesOk(tracks, tracks[k]) && FieldsOk(tracks[k])
    requires KindOf(tracks, id) == Some(FxTrack) && CheckAll(tracks, id, sources, true).None?
    ensures EdgesOk(tracks, Transposed(tracks, id, sources)[k]) && FieldsOk(Transposed(tracks, id, sources)[k])
  {
    var t, u := tracks[k], Transposed(tracks, id, sources)[k];
    var listed := Unique(Sort(sources));
    SortUnique(sources);
    AllChecked(tracks, id, sources, true);
    FeedingStrict(t, id, listed);
    FindUnique(tracks, k);
    forall d | d in u.sidechainDests ensures d != u.id && SourceKind(u.kind) && KindOf(tracks, d) == Some(FxTrack) {
      FeedingElems(t, id, listed, d);
      if d == id {
        assert CheckSource(tracks, id, t.id).None?;
      }
    }
  }

  lemma SetSidechainKeeps(t: Table, id: Id, sources: seq<Id>, gates: Gates)
    requires Inv(t)
    ensures Inv(SetSidechain(t, id, sources, gates).0)
  {
    var i := Find(t.tracks, id);
    if i < |t.tracks| && t.tracks[i].kind == FxTrack && CheckAll(t.tracks, id, sources, true).None? {
      var after := Transposed(t.tracks, id, sources);
      forall k: nat | k < |after| ensures EdgesOk(after, after[k]) && FieldsOk(after[k]) {
        FeedingOk(t.tracks, k, id, sources);
        forall d: Id ensures KindOf(after, d) == KindOf(t.tracks, d) {
          KindsKept(t.tracks, after, d);
        }
      }
      CommitKeeps(t, after, gates);
    }
  }

  // ---------- command sequences ----------

  datatype Command =
    | AddTrack(kind: TrackKind, color: nat)
    | RemoveTrack(id: Id)
    | SetTrack(id: Id, newColor: Option<nat>, gain: Option<Gain>, mute: Option<bool>)
    | SetTrackPolicy(id: Id, policy: OutputLatencyPolicy, gates: Gates)
    | SetTrackDests(id: Id, dests: seq<Id>, gates: Gates)
    | SetTrackSidechain(id: Id, sources: seq<Id>, gates: Gates)
    | MoveTrack(id: Id, newIndex: nat)
    | AssignRole(id: Id, role: SystemRole)
    | EnsureOutputs
    | ClearAll

  ghost function Apply(t: Table, c: Command): Table {
    match c
    case AddTrack(kind, color) => Add(t, kind, color).0
    case RemoveTrack(id) => Remove(t, id).0
    case SetTrack(id, color, gain, mute) => Set(t, id, color, gain, mute).0
    case SetTrackPolicy(id, policy, gates) => SetPolicy(t, id, policy, gates).0
    case SetTrackDests(id, dests, gates) => SetDests(t, id, dests, gates).0
    case SetTrackSidechain(id, sources, gates) => SetSidechain(t, id, sources, gates).0
    case MoveTrack(id, newIndex) => Move(t, id, newIndex).0
    case AssignRole(id, role) => SetRole(t, id, role)
    case EnsureOutputs => EnsureSystemOutputs(t)
    case ClearAll => Table([], t.nextId)
  }

  ghost function After(cs: seq<Command>): Table {
    if cs == [] then Table([], 1) else Apply(After(cs[..|cs| - 1]), cs[|cs| - 1])
  }

  lemma AfterOne(cs: seq<Command>, c: Command)
    ensures After(cs + [c]) == Apply(After(cs), c)
  {
    assert (cs + [c])[..|cs|] == cs;
  }

  // Before every command the 32-bit id counter was not about to wrap.
  ghost predicate FewIds(cs: seq<Command>) {
    cs == [] || (FewIds(cs[..|cs| - 1]) && After(cs[..|cs| - 1]).nextId + 2 < ID_RANGE)
  }

  lemma ApplyRoutes(t: Table, c: Command)
    requires Inv(t) && (c.SetTrackDests? || c.SetTrackSidechain?)
    ensures Inv(Apply(t, c))
  {
    if c.SetTrackDests? {
      SetDestsKeeps(t, c.id, c.dests, c.gates);
    } else {
      SetSidechainKeeps(t, c.id, c.sources, c.gates);
    }
  }

  lemma ApplyMoves(t: Table, c: Command)
    requires Inv(t) && (c.RemoveTrack? || c.MoveTrack?)
    ensures Inv(Apply(t, c))
  {
    if c.RemoveTrack? {
      RemoveKeeps(t, c.id);
    } else {
      MoveKeeps(t, c.id, c.newIndex);
    }
  }

  // Only adding tracks and ensuring outputs issue ids.
  lemma NextStays(t: Table, c: Command)
    requires !c.AddTrack? && !c.EnsureOutputs?
    ensures Apply(t, c).nextId == t.nextId
  {
  }

  lemma ApplySettings(t: Table, c: Command)
    requires Inv(t) && (c.SetTrack? || c.SetTrackPolicy? || c.AssignRole? || c.ClearAll?)
    ensures Inv(Apply(t, c))
  {
    match c
    case SetTrack(id, color, gain, mute) => SetKeeps(t, id, color, gain, mute);
    case SetTrackPolicy(id, policy, gates) => SetPolicyKeeps(t, id, policy, gates);
    case AssignRole(id, role) => SetRoleKeeps(t, id, role);
    case ClearAll => EmptyOk(t.nextId);
  }

  lemma ApplyKeeps(t: Table, c: Command)
    requires Inv(t) && t.nextId + 2 < ID_RANGE
    ensures Inv(Apply(t, c)) && t.nextId <= Apply(t, c).nextId <= t.nextId + 2
  {
    if c.AddTrack? {
      AddKeeps(t, c.kind, c.color);
    } else if c.EnsureOutputs? {
      EnsureKeeps(t);
    } else {
      NextStays(t, c);
      if c.SetTrackDests? || c.SetTrackSidechain? {
        ApplyRoutes(t, c);
      } else if c.RemoveTrack? || c.MoveTrack? {
        ApplyMoves(t, c);
      } else {
        ApplySettings(t, c);
      }
    }
  }

  lemma EmptyOk(nextId: Id)
    ensures Inv(Table([], nextId))
  {
    forall q: seq<Id> ensures !IdCycle([], q) {
      assert !IdStep([], q, 0);
    }
  }

  // Every command sequence keeps the invariant, as long as the id counter does not wrap.
  lemma {:induction false} CommandsKeepInvariant(cs: seq<Command>)
    requires FewIds(cs)
    ensures Inv(After(cs)) && After(cs).nextId <= 1 + 2 * |cs|
  {
    if cs == [] {
      EmptyOk(1);
    } else {
      CommandsKeepInvariant(cs[..|cs| - 1]);
      ApplyKeeps(After(cs[..|cs| - 1]), cs[|cs| - 1]);
    }
  }

  // It does not within two billion commands.
  lemma {:induction false} FewCommands(cs: seq<Command>)
    requires 2 * |cs| + 2 < ID_RANGE
    ensures FewIds(cs)
  {
    if cs != [] {
      FewCommands(cs[..|cs| - 1]);
      CommandsKeepInvariant(cs[..|cs| - 1]);
    }
  }
}
