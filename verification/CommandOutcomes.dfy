/** What every table command does. */
module CommandOutcomes {
  import opened Wrappers
  import opened GraphTopo
  import opened PdcPlanner
  import opened SortedLists
  import opened TrackTable
  import opened TableInvariant
  import opened RoutingCommands

  // For every command: exactly when it succeeds, the error of a refusal, and the whole table afterwards,
  // with the constants written out.

  // ---------- adding and removing ----------

  // A track as it is first made: no role, full compensation, unity gain, no edges, and one of eight
  // colors in turn unless a color was asked for.
  predicate Fresh(track: Track, id: Id, kind: TrackKind, color: nat) {
    && track.id == id && track.kind == kind && track.role == NoRole && track.policy == FullPdc
    && track.gain == 1.0 && !track.mute && track.dests == [] && track.sidechainDests == []
    && (color != 0 ==> track.color == color % 0x1000000)
    && (color == 0 ==>
      track.color == [0x4da3ff, 0x3ddc84, 0xffb454, 0xff5c5c, 0xb48cff, 0x4dd0e1, 0xf06292, 0xaed581][(id + 7) % 8])
  }

  // `after` is the table with one more track at the end, which has taken the id that was next.
  predicate Appended(t: Table, after: Table) {
    && |after.tracks| == |t.tracks| + 1 && after.tracks[..|t.tracks|] == t.tracks
    && after.tracks[|t.tracks|].id == t.nextId
    && after.nextId == if t.nextId == 0xFFFF_FFFF then 0 else t.nextId + 1
  }

  // Below 128 tracks a fresh track is appended; else nothing happens.
  lemma AddOutcome(t: Table, kind: TrackKind, color: nat)
    requires t.nextId <= 0xFFFF_FFFF
    ensures var (after, e) := Add(t, kind, color);
      if |t.tracks| >= 128 then e == Some(BadCommand) && after == t
      else e == None && Appended(t, after) && Fresh(after.tracks[|t.tracks|], t.nextId, kind, color)
  {
    assert (t.nextId + ID_RANGE - 1) % ID_RANGE % 8 == (t.nextId + 7) % 8;
  }

  // The track has lost its edges to `id`, and nothing else.
  ghost predicate OnlyCutFrom(before: Track, after: Track, id: Id) {
    && after == before.(dests := after.dests, sidechainDests := after.sidechainDests)
    && (forall d: Id :: d in after.dests <==> d in before.dests && d != id)
    && (forall d: Id :: d in after.sidechainDests <==> d in before.sidechainDests && d != id)
    && (Strict(before.dests) ==> Strict(after.dests))
    && (Strict(before.sidechainDests) ==> Strict(after.sidechainDests))
  }

  lemma ForgetCuts(track: Track, id: Id)
    ensures OnlyCutFrom(track, Forget(track, id), id)
  {
    forall d: Id
      ensures d in Forget(track, id).dests <==> d in track.dests && d != id
      ensures d in Forget(track, id).sidechainDests <==> d in track.sidechainDests && d != id
    {
      WithoutElems(track.dests, id, d);
      WithoutElems(track.sidechainDests, id, d);
    }
    if Strict(track.dests) {
      WithoutStrict(track.dests, id);
    }
    if Strict(track.sidechainDests) {
      WithoutStrict(track.sidechainDests, id);
    }
  }

  // Removing succeeds exactly for a known track without a system role. The others keep their order and
  // settings, and lose just their edges to the removed track.
  lemma RemoveOutcome(t: Table, id: Id)
    ensures var (after, e) := Remove(t, id); var i := Find(t.tracks, id);
      && (e.None? <==> i < |t.tracks| && t.tracks[i].role == NoRole)
      && (e.Some? ==> e == Some(TrackNotFound) && after == t)
      && (e.None? ==>
        && after.nextId == t.nextId && |after.tracks| == |t.tracks| - 1
        && forall k: nat :: k < |after.tracks| ==>
          OnlyCutFrom(t.tracks[if k < i then k else k + 1], after.tracks[k], id))
  {
    var i := Find(t.tracks, id);
    if i < |t.tracks| && t.tracks[i].role == NoRole {
      forall k: nat | k < |t.tracks| - 1
        ensures OnlyCutFrom(t.tracks[if k < i then k else k + 1], Removed(t.tracks, i)[k], id)
      {
        ForgetCuts(t.tracks[if k < i then k else k + 1], id);
      }
    }
  }

  // ---------- settings ----------

  // Only the track at i may differ.
  predicate OnlyAt(t: Table, after: Table, i: nat) {
    && after.nextId == t.nextId && |after.tracks| == |t.tracks|
    && forall k: nat :: k < |t.tracks| && k != i ==> after.tracks[k] == t.tracks[k]
  }

  // A setting is refused exactly for an unknown track or a gain outside 0 to 4; the color is stored for
  // any known track, gain and mute only when nothing is refused.
  lemma SetOutcome(t: Table, id: Id, color: Option<nat>, gain: Option<Gain>, mute: Option<bool>)
    ensures var (after, e) := Set(t, id, color, gain, mute); var i := Find(t.tracks, id);
      && (e.None? <==>
        && i < |t.tracks|
        && (gain.Some? ==> gain.value.Finite? && gain.value.value >= 0.0 && gain.value.value <= 4.0))
      && (e.Some? ==> e == Some(BadCommand))
      && OnlyAt(t, after, i)
      && (i < |t.tracks| ==>
        var before, now := t.tracks[i], after.tracks[i];
        && now == before.(color := now.color, gain := now.gain, mute := now.mute)
        && now.color == (if color.Some? then color.value % 0x1000000 else before.color)
        && now.gain == (if e.None? && gain.Some? then gain.value.value else before.gain)
        && now.mute == (if e.None? && mute.Some? then mute.value else before.mute))
  {
  }

  // A policy is for output tracks; the one already set always succeeds, another needs both gates.
  lemma SetPolicyOutcome(t: Table, id: Id, policy: OutputLatencyPolicy, gates: Gates)
    ensures var (after, e) := SetPolicy(t, id, policy, gates); var i := Find(t.tracks, id);
      && (e.None? <==>
        && i < |t.tracks| && t.tracks[i].kind == OutputTrack
        && (t.tracks[i].policy == policy || (gates.prepared && gates.committed)))
      && (e.Some? ==> e == Some(BadCommand) && after == t)
      && (e.None? ==> OnlyAt(t, after, i) && after.tracks[i] == t.tracks[i].(policy := policy))
  {
  }

  // ---------- order ----------

  // A known track lands at the asked index, at most the last one; the others keep their order.
  lemma MoveOutcome(t: Table, id: Id, newIndex: nat)
    ensures var (after, e) := Move(t, id, newIndex); var i := Find(t.tracks, id);
      && (e.None? <==> i < |t.tracks|)
      && (e.Some? ==> e == Some(BadCommand) && after == t)
      && (e.None? ==>
        var p := if newIndex < |t.tracks| then newIndex else |t.tracks| - 1;
        && after.nextId == t.nextId && |after.tracks| == |t.tracks|
        && after.tracks[p] == t.tracks[i]
        && after.tracks[..p] + after.tracks[p + 1..] == t.tracks[..i] + t.tracks[i + 1..])
  {
    var i := Find(t.tracks, id);
    if i < |t.tracks| && i != newIndex {
      var p := if newIndex < |t.tracks| then newIndex else |t.tracks| - 1;
      var rest := t.tracks[..i] + t.tracks[i + 1..];
      var after := Moved(t.tracks, i, newIndex);
      assert after == rest[..p] + [t.tracks[i]] + rest[p..];
      assert after[..p] == rest[..p] && after[p + 1..] == rest[p..];
      assert rest[..p] + rest[p..] == rest;
    }
  }

  // ---------- system outputs ----------

  // The monitor output is low-latency; the stream output, and a track without a role, has full
  // compensation.
  predicate RoleGiven(before: Track, after: Track, role: SystemRole) {
    && after == before.(role := role, policy := after.policy)
    && (role == MonitorRole ==> after.policy == LowLatency)
    && (role == StreamRole || role == NoRole ==> after.policy == FullPdc)
  }

  // Giving a role stores it with its policy for a known track, and does nothing for another.
  lemma SetRoleOutcome(t: Table, id: Id, role: SystemRole)
    ensures var after := SetRole(t, id, role); var i := Find(t.tracks, id);
      && OnlyAt(t, after, i)
      && (i < |t.tracks| ==> RoleGiven(t.tracks[i], after.tracks[i], role))
  {
  }

  predicate Free(track: Track) {
    track.kind == OutputTrack && track.role == NoRole
  }

  // Of several holders of a role the first stays, and the later ones are left without a role.
  lemma HoldersReduced(t: Table, role: SystemRole, first: nat)
    requires role != NoRole && first < |t.tracks| && t.tracks[first].role == role
    requires forall k: nat :: k < first ==> t.tracks[k].role != role
    ensures var after := EnsureRole(t, role);
      && after.nextId == t.nextId && |after.tracks| == |t.tracks|
      && forall k: nat :: k < |t.tracks| ==>
        if k > first && t.tracks[k].role == role then RoleGiven(t.tracks[k], after.tracks[k], NoRole)
        else after.tracks[k] == t.tracks[k]
  {
    forall k: nat | k < |t.tracks| ensures HasRole(t.tracks[..k], role) <==> k > first {
      if k > first {
        assert t.tracks[..k][first].role == role;
      }
    }
  }

  // Without a holder the first free output takes the role.
  lemma FreeOutputTaken(t: Table, role: SystemRole, first: nat)
    requires role != NoRole && forall k: nat :: k < |t.tracks| ==> t.tracks[k].role != role
    requires first < |t.tracks| && Free(t.tracks[first]) && forall k: nat :: k < first ==> !Free(t.tracks[k])
    ensures var after := EnsureRole(t, role);
      OnlyAt(t, after, first) && RoleGiven(t.tracks[first], after.tracks[first], role)
  {
    assert FreeOutput(t.tracks) == first;
  }

  // Without a holder and a free output a fresh output is made for the role, even beyond 128 tracks.
  lemma OutputMade(t: Table, role: SystemRole)
    requires role != NoRole && t.nextId <= 0xFFFF_FFFF
    requires forall k: nat :: k < |t.tracks| ==> t.tracks[k].role != role && !Free(t.tracks[k])
    ensures var after := EnsureRole(t, role);
      && Appended(t, after)
      && exists bare: Track ::
        Fresh(bare, t.nextId, OutputTrack, 0) && RoleGiven(bare, after.tracks[|t.tracks|], role)
  {
    assert FreeOutput(t.tracks) == |t.tracks|;
    AddOutcome(Table([], t.nextId), OutputTrack, 0);
    assert Fresh(NewTrack(t.nextId, OutputTrack, 0), t.nextId, OutputTrack, 0);
  }

  // Every track has kept all it had or has changed its role, with the policy that goes with the new
  // one; tracks that were added have a role.
  predicate RolesWithPolicies(before: seq<Track>, after: seq<Track>) {
    && |before| <= |after|
    && (forall k: nat :: k < |before| ==>
      after[k] == before[k] || (after[k].role != before[k].role && RoleGiven(before[k], after[k], after[k].role)))
    && forall k: nat :: |before| <= k < |after| ==>
      && after[k].kind == OutputTrack && after[k].role != NoRole && RoleGiven(after[k], after[k], after[k].role)
  }

  lemma EnsureRolePolicies(t: Table, role: SystemRole)
    requires role != NoRole
    ensures RolesWithPolicies(t.tracks, EnsureRole(t, role).tracks)
    ensures forall k: nat :: k < |t.tracks| && EnsureRole(t, role).tracks[k].role != t.tracks[k].role ==>
      t.tracks[k].role == NoRole || (t.tracks[k].role == role && EnsureRole(t, role).tracks[k].role == NoRole)
  {
  }

  // Whatever the system outputs were, ensuring them makes the monitor output low-latency and gives the
  // stream output full compensation wherever it assigns or creates one, and resets demoted holders.
  lemma SystemOutputPolicies(t: Table)
    ensures RolesWithPolicies(t.tracks, EnsureSystemOutputs(t).tracks)
  {
    var u := EnsureRole(t, MonitorRole);
    EnsureRolePolicies(t, MonitorRole);
    EnsureRolePolicies(u, StreamRole);
    forall k: nat | k < |t.tracks|
      ensures var x := EnsureRole(u, StreamRole).tracks[k];
        x == t.tracks[k] || (x.role != t.tracks[k].role && RoleGiven(t.tracks[k], x, x.role))
    {
    }
  }

  // The monitor output is seen to first: without one, the first free output becomes it, or else the
  // first track made, whatever is needed for the stream.
  lemma MonitorFirst(t: Table, first: nat)
    requires forall k: nat :: k < |t.tracks| ==> t.tracks[k].role != MonitorRole
    requires first <= |t.tracks| && (forall k: nat :: k < first ==> !Free(t.tracks[k]))
    requires first < |t.tracks| ==> Free(t.tracks[first])
    ensures var after := EnsureSystemOutputs(t).tracks; first < |after| && after[first].role == MonitorRole
  {
    assert FreeOutput(t.tracks) == first;
    var u := EnsureRole(t, MonitorRole);
    assert first < |u.tracks| && u.tracks[first].role == MonitorRole;
    EnsureRolePolicies(u, StreamRole);
  }

  // ---------- the errors of the routing commands ----------

  lemma {:induction false} FirstBad(tracks: seq<Track>, id: Id, ids: seq<Id>, sources: bool, k: nat)
    requires k < |ids|
    requires forall j: nat :: j < k ==>
      (if sources then CheckSource(tracks, id, ids[j]) else CheckDest(tracks, id, ids[j])).None?
    requires (if sources then CheckSource(tracks, id, ids[k]) else CheckDest(tracks, id, ids[k])).Some?
    ensures CheckAll(tracks, id, ids, sources) ==
      if sources then CheckSource(tracks, id, ids[k]) else CheckDest(tracks, id, ids[k])
  {
    CheckedExactly(tracks, id, ids[..k], sources);
    assert ids[..k + 1][..k] == ids[..k];
    CheckStuck(tracks, id, ids, sources, k + 1);
  }

  // A dest command names the first bad dest - unknown, or the track itself or an input track - before it
  // looks for cycles, and a cycle before the gates.
  lemma SetDestsErrors(t: Table, id: Id, dests: seq<Id>, gates: Gates, k: nat)
    requires Inv(t)
    ensures var e := SetDests(t, id, dests, gates).1;
      && (!Exists(t.tracks, id) ==> e == Some(TrackNotFound))
      && (Exists(t.tracks, id) && k < |dests| && DestsAllowed(t.tracks, id, dests[..k])
          && !DestsAllowed(t.tracks, id, [dests[k]]) ==>
        e == Some(if dests[k] != id && !Exists(t.tracks, dests[k]) then TrackNotFound else BadCommand))
      && (Exists(t.tracks, id) && DestsAllowed(t.tracks, id, dests) && !LoopsBack(t.tracks, id, dests) ==>
        && (!gates.prepared ==> e == Some(PluginStateFailed))
        && (gates.prepared && !gates.committed ==> e == Some(BadCommand)))
  {
    SetDestsOutcome(t, id, dests, gates);
    CheckedExactly(t.tracks, id, dests, false);
    if Exists(t.tracks, id) && k < |dests| && DestsAllowed(t.tracks, id, dests[..k])
       && !DestsAllowed(t.tracks, id, [dests[k]]) {
      forall j: nat | j < k ensures CheckDest(t.tracks, id, dests[j]).None? {
        assert dests[..k][j] == dests[j];
      }
      FirstBad(t.tracks, id, dests, false, k);
    }
  }

  // A sidechain command asks for an FX track, then names the first bad source, then asks the gates.
  lemma SetSidechainErrors(t: Table, id: Id, sources: seq<Id>, gates: Gates, k: nat)
    requires Inv(t)
    ensures var e := SetSidechain(t, id, sources, gates).1; var kind := KindOf(t.tracks, id);
      && (kind == None ==> e == Some(TrackNotFound))
      && (kind.Some? && kind != Some(FxTrack) ==> e == Some(BadCommand))
      && (kind == Some(FxTrack) && k < |sources| && SourcesAllowed(t.tracks, id, sources[..k])
          && !SourcesAllowed(t.tracks, id, [sources[k]]) ==>
        e == Some(if sources[k] != id && !Exists(t.tracks, sources[k]) then TrackNotFound else BadCommand))
      && (kind == Some(FxTrack) && SourcesAllowed(t.tracks, id, sources) ==>
        && (!gates.prepared ==> e == Some(PluginStateFailed))
        && (gates.prepared && !gates.committed ==> e == Some(BadCommand)))
  {
    SetSidechainOutcome(t, id, sources, gates);
    CheckedExactly(t.tracks, id, sources, true);
    if Exists(t.tracks, id) && k < |sources| && SourcesAllowed(t.tracks, id, sources[..k])
       && !SourcesAllowed(t.tracks, id, [sources[k]]) {
      forall j: nat | j < k ensures CheckSource(t.tracks, id, sources[j]).None? {
        assert sources[..k][j] == sources[j];
      }
      FirstBad(t.tracks, id, sources, true, k);
    }
    if SourcesAllowed(t.tracks, id, sources) {
      forall s | s in sources ensures CheckSource(t.tracks, id, s).None? {
      }
      if KindOf(t.tracks, id) == Some(FxTrack) {
        SidechainNeverCycles(t, id, sources);
      }
    }
  }
}
