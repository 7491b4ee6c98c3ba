/**
 Runs of track commands: an id is never issued twice, and once ensured the two system outputs exist
 exactly once each.
 */
module TableRuns {
  import opened Wrappers
  import opened GraphTopo
  import opened PdcPlanner
  import opened TrackTable
  import opened TableInvariant
  import opened RoutingCommands

  // ---------- ids are not issued again ----------

  lemma FoundId(tracks: seq<Track>, i: nat)
    requires i < |tracks|
    ensures Exists(tracks, tracks[i].id)
  {
  }

  lemma KeptIds(a: seq<Track>, b: seq<Track>, id: Id)
    requires |a| == |b| && forall i: nat :: i < |a| ==> a[i].id == b[i].id
    ensures Exists(a, id) == Exists(b, id)
  {
    SameIds(a, b, id);
  }

  lemma EnsureRoleIds(t: Table, role: SystemRole, id: Id)
    requires t.nextId + 1 < ID_RANGE && Exists(EnsureRole(t, role).tracks, id)
    ensures Exists(t.tracks, id) || id == t.nextId
  {
    if HasRole(t.tracks, role) {
      KeptIds(t.tracks, Demoted(t.tracks, role), id);
    } else if FreeOutput(t.tracks) < |t.tracks| {
      KeptIds(t.tracks, EnsureRole(t, role).tracks, id);
    } else {
      FindAppend(t.tracks, NewOutput(t.nextId, role), id);
    }
  }

  // Every track afterwards was there before in the same role, and no track with a role is gone.
  predicate Descends(a: seq<Track>, b: seq<Track>) {
    && (forall k: nat :: k < |b| ==> Exists(a, b[k].id) && a[Find(a, b[k].id)].role == b[k].role)
    && (forall j: nat :: j < |a| && a[j].role != NoRole ==> Exists(b, a[j].id))
  }

  lemma SameDescends(a: seq<Track>, b: seq<Track>)
    requires IdsUnique(a) && |a| == |b| && forall i: nat :: i < |a| ==> a[i].id == b[i].id && a[i].role == b[i].role
    ensures Descends(a, b)
  {
    forall k: nat | k < |b| ensures Exists(a, b[k].id) && a[Find(a, b[k].id)].role == b[k].role && Exists(b, a[k].id) {
      FindUnique(a, k);
      KeptIds(a, b, a[k].id);
    }
  }

  lemma RemoveDescends(tracks: seq<Track>, i: nat)
    requires IdsUnique(tracks) && i < |tracks| && tracks[i].role == NoRole
    ensures Descends(tracks, Removed(tracks, i))
  {
    var after := Removed(tracks, i);
    RemovedUnique(tracks, i);
    forall k: nat | k < |after|
      ensures Exists(tracks, after[k].id) && tracks[Find(tracks, after[k].id)].role == after[k].role
    {
      FindUnique(tracks, if k < i then k else k + 1);
    }
    forall j: nat | j < |tracks| && tracks[j].role != NoRole ensures Exists(after, tracks[j].id) {
      FindUnique(tracks, j);
      RemovedTrack(tracks, i, tracks[j].id);
    }
  }

  lemma MoveDescends(tracks: seq<Track>, i: nat, newIndex: nat)
    requires IdsUnique(tracks) && i < |tracks|
    ensures Descends(tracks, Moved(tracks, i, newIndex))
  {
    var after := Moved(tracks, i, newIndex);
    MovedReorders(tracks, i, newIndex);
    forall k: nat | k < |after|
      ensures Exists(tracks, after[k].id) && tracks[Find(tracks, after[k].id)].role == after[k].role
    {
      FindUnique(after, k);
      ReorderedFind(tracks, after, after[k].id);
    }
    forall j: nat | j < |tracks| ensures Exists(after, tracks[j].id) {
      FindUnique(tracks, j);
      ReorderedFind(tracks, after, tracks[j].id);
    }
  }

  lemma SetDestsResult(t: Table, id: Id, dests: seq<Id>, gates: Gates)
    ensures var after := SetDests(t, id, dests, gates).0.tracks; var i := Find(t.tracks, id);
      after == t.tracks || (i < |t.tracks| && after == Rerouted(t.tracks, i, dests))
  {
  }

  lemma DestsDescend(t: Table, id: Id, dests: seq<Id>, gates: Gates)
    requires IdsUnique(t.tracks)
    ensures Descends(t.tracks, SetDests(t, id, dests, gates).0.tracks)
  {
    SetDestsResult(t, id, dests, gates);
    RoutesDescend(t.tracks, SetDests(t, id, dests, gates).0.tracks);
  }

  // Tables that differ in edges only.
  lemma RoutesDescend(a: seq<Track>, b: seq<Track>)
    requires IdsUnique(a) && |a| == |b|
    requires forall i: nat :: i < |a| ==> b[i] == a[i].(dests := b[i].dests, sidechainDests := b[i].sidechainDests)
    ensures Descends(a, b)
  {
    SameDescends(a, b);
  }

  lemma SetSidechainResult(t: Table, id: Id, sources: seq<Id>, gates: Gates)
    ensures var after := SetSidechain(t, id, sources, gates).0.tracks;
      after == t.tracks || after == Transposed(t.tracks, id, sources)
  {
  }

  lemma SidechainDescends(t: Table, id: Id, sources: seq<Id>, gates: Gates)
    requires IdsUnique(t.tracks)
    ensures Descends(t.tracks, SetSidechain(t, id, sources, gates).0.tracks)
  {
    SetSidechainResult(t, id, sources, gates);
    RoutesDescend(t.tracks, SetSidechain(t, id, sources, gates).0.tracks);
  }

  lemma SettingShape(t: Table, id: Id, color: Option<nat>, gain: Option<Gain>, mute: Option<bool>,
                     policy: OutputLatencyPolicy,
                     gates: Gates)
    ensures var a := Set(t, id, color, gain, mute).0.tracks;
      |a| == |t.tracks| && forall i: nat :: i < |a| ==> a[i].id == t.tracks[i].id && a[i].role == t.tracks[i].role
    ensures var a := SetPolicy(t, id, policy, gates).0.tracks;
      |a| == |t.tracks| && forall i: nat :: i < |a| ==> a[i].id == t.tracks[i].id && a[i].role == t.tracks[i].role
  {
  }

  lemma OrderDescends(t: Table, c: Command)
    requires IdsUnique(t.tracks) && (c.RemoveTrack? || c.MoveTrack?)
    ensures Descends(t.tracks, Apply(t, c).tracks)
  {
    SameDescends(t.tracks, t.tracks);
    var i := Find(t.tracks, c.id);
    if i < |t.tracks| {
      if c.RemoveTrack? {
        if t.tracks[i].role == NoRole {
          RemoveDescends(t.tracks, i);
        }
      } else {
        MoveDescends(t.tracks, i, c.newIndex);
      }
    }
  }

  lemma SettingDescends(t: Table, c: Command)
    requires IdsUnique(t.tracks) && (c.SetTrack? || c.SetTrackPolicy?)
    ensures Descends(t.tracks, Apply(t, c).tracks)
  {
    if c.SetTrack? {
      SettingShape(t, c.id, c.newColor, c.gain, c.mute, FullPdc, Gates(true, true));
    } else {
      SettingShape(t, c.id, None, None, None, c.policy, c.gates);
    }
    SameDescends(t.tracks, Apply(t, c).tracks);
  }

  // All commands that neither make a track nor give a role.
  lemma EditDescends(t: Table, c: Command)
    requires IdsUnique(t.tracks) && !c.AddTrack? && !c.EnsureOutputs? && !c.AssignRole? && !c.ClearAll?
    ensures Descends(t.tracks, Apply(t, c).tracks)
  {
    if c.RemoveTrack? || c.MoveTrack? {
      OrderDescends(t, c);
    } else if c.SetTrackDests? {
      DestsDescend(t, c.id, c.dests, c.gates);
    } else if c.SetTrackSidechain? {
      SidechainDescends(t, c.id, c.sources, c.gates);
    } else {
      SettingDescends(t, c);
    }
  }

  lemma StepIds(t: Table, c: Command, id: Id)
    requires Inv(t) && t.nextId + 2 < ID_RANGE && Exists(Apply(t, c).tracks, id)
    ensures Exists(t.tracks, id) || id >= t.nextId
  {
    if c.AddTrack? {
      FindAppend(t.tracks, NewTrack(t.nextId, c.kind, c.color), id);
    } else if c.EnsureOutputs? {
      var u := EnsureRole(t, MonitorRole);
      EnsureRoleKeeps(t, MonitorRole);
      EnsureRoleIds(u, StreamRole, id);
      if Exists(u.tracks, id) {
        EnsureRoleIds(t, MonitorRole, id);
      }
    } else if c.AssignRole? {
      KeptIds(t.tracks, Apply(t, c).tracks, id);
    } else if !c.ClearAll? {
      EditDescends(t, c);
    }
  }

  // A track found after some commands was there before the last of them or has a later id: an id is
  // never issued twice, even after its track is removed.
  lemma {:induction false} IdsNotReissued(cs: seq<Command>, k: nat, id: Id)
    requires FewIds(cs) && k <= |cs| && Exists(After(cs).tracks, id)
    ensures Exists(After(cs[..k]).tracks, id) || id >= After(cs[..k]).nextId
  {
    if k == |cs| {
      assert cs[..k] == cs;
    } else {
      var before, c := cs[..|cs| - 1], cs[|cs| - 1];
      CommandsKeepInvariant(before);
      StepIds(After(before), c, id);
      assert before[..k] == cs[..k];
      if Exists(After(before).tracks, id) {
        IdsNotReissued(before, k, id);
      } else {
        NextGrows(before, k);
      }
    }
  }

  // A track that stays, and n more added and removed again.
  function Spin(n: nat): seq<Command> {
    if n == 0 then [AddTrack(AudioTrack, 0)]
    else Spin(n - 1) + [AddTrack(AudioTrack, 0)] + [RemoveTrack((n + 1) % ID_RANGE)]
  }

  ghost predicate Spun(t: Table, n: nat) {
    |t.tracks| == 1 && t.tracks[0].id == 1 && t.tracks[0].role == NoRole && t.nextId == (n + 2) % ID_RANGE
  }

  lemma SpinOnce(t: Table, n: nat)
    requires Spun(t, n) && n + 1 < ID_RANGE
    ensures Spun(Apply(Apply(t, AddTrack(AudioTrack, 0)), RemoveTrack((n + 2) % ID_RANGE)), n + 1)
  {
    var u := Apply(t, AddTrack(AudioTrack, 0));
    assert u.tracks == t.tracks + [NewTrack(t.nextId, AudioTrack, 0)];
    assert u.tracks[0].id != (n + 2) % ID_RANGE && u.tracks[1].id == (n + 2) % ID_RANGE;
    assert Find(u.tracks, (n + 2) % ID_RANGE) == 1;
  }

  lemma SpunNext(cs: seq<Command>, more: seq<Command>, n: nat)
    requires Spun(After(cs), n) && n + 1 < ID_RANGE
    requires more == cs + [AddTrack(AudioTrack, 0)] + [RemoveTrack((n + 2) % ID_RANGE)]
    ensures Spun(After(more), n + 1)
  {
    AfterOne(cs, AddTrack(AudioTrack, 0));
    AfterOne(cs + [AddTrack(AudioTrack, 0)], RemoveTrack((n + 2) % ID_RANGE));
    SpinOnce(After(cs), n);
  }

  lemma {:induction false} SpinsOn(n: nat)
    requires n < ID_RANGE
    ensures Spun(After(Spin(n)), n)
  {
    if n == 0 {
      SpinStart();
    } else {
      SpinsOn(n - 1);
      SpunNext(Spin(n - 1), Spin(n), n - 1);
    }
  }

  lemma SpinStart()
    ensures Spun(After(Spin(0)), 0)
  {
    AfterOne([], AddTrack(AudioTrack, 0));
    assert [] + [AddTrack(AudioTrack, 0)] == Spin(0);
  }

  // When the counter has wrapped, the id of a track still there is issued again: after one track that
  // stays and 2^32 - 1 others added and removed, the next track gets the same id.
  lemma WrapReissues()
    ensures !IdsUnique(After(Spin(ID_RANGE - 1) + [AddTrack(AudioTrack, 0)]).tracks)
  {
    SpinsOn(ID_RANGE - 1);
    AfterOne(Spin(ID_RANGE - 1), AddTrack(AudioTrack, 0));
    SpunAgain(After(Spin(ID_RANGE - 1)));
  }

  lemma SpunAgain(t: Table)
    requires Spun(t, ID_RANGE - 1)
    ensures !IdsUnique(Apply(t, AddTrack(AudioTrack, 0)).tracks)
  {
    var after := Apply(t, AddTrack(AudioTrack, 0)).tracks;
    assert after == t.tracks + [NewTrack(t.nextId, AudioTrack, 0)];
    assert after[0].id == 1 && after[1].id == 1;
  }

  lemma {:induction false} NextGrows(cs: seq<Command>, k: nat)
    requires FewIds(cs) && k <= |cs|
    ensures After(cs[..k]).nextId <= After(cs).nextId
  {
    if k == |cs| {
      assert cs[..k] == cs;
    } else {
      var before := cs[..|cs| - 1];
      assert before[..k] == cs[..k];
      NextGrows(before, k);
      CommandsKeepInvariant(before);
      ApplyKeeps(After(before), cs[|cs| - 1]);
    }
  }

  // ---------- system outputs ----------

  // The track h, and no other, has the role.
  predicate HolderIs(tracks: seq<Track>, role: SystemRole, h: Id) {
    Exists(tracks, h) && forall i: nat :: i < |tracks| ==> (tracks[i].role == role <==> tracks[i].id == h)
  }

  lemma DemotedHolder(tracks: seq<Track>, role: SystemRole) returns (h: Id)
    requires IdsUnique(tracks) && HasRole(tracks, role) && role != NoRole
    ensures HolderIs(Demoted(tracks, role), role, h)
  {
    var i := FirstHolder(tracks, role);
    var after := Demoted(tracks, role);
    h := tracks[i].id;
    FoundId(after, i);
    forall k: nat | k < |after| ensures after[k].role == role <==> after[k].id == h {
      if k > i {
        assert tracks[..k][i].role == role;
      }
    }
  }

  lemma AssignedHolder(tracks: seq<Track>, i: nat, role: SystemRole)
    requires IdsUnique(tracks) && i < |tracks| && !HasRole(tracks, role)
    ensures HolderIs(tracks[i := WithRole(tracks[i], role)], role, tracks[i].id)
  {
    FoundId(tracks[i := WithRole(tracks[i], role)], i);
  }

  lemma AppendedHolder(tracks: seq<Track>, track: Track)
    requires !HasRole(tracks, track.role) && !Exists(tracks, track.id)
    ensures HolderIs(tracks + [track], track.role, track.id)
  {
    FindAppend(tracks, track, track.id);
  }

  lemma EnsureRoleHolder(t: Table, role: SystemRole) returns (h: Id)
    requires Inv(t) && t.nextId + 1 < ID_RANGE && role != NoRole
    ensures HolderIs(EnsureRole(t, role).tracks, role, h)
  {
    if HasRole(t.tracks, role) {
      h := DemotedHolder(t.tracks, role);
    } else if FreeOutput(t.tracks) < |t.tracks| {
      AssignedHolder(t.tracks, FreeOutput(t.tracks), role);
      h := t.tracks[FreeOutput(t.tracks)].id;
    } else {
      AppendedHolder(t.tracks, NewOutput(t.nextId, role));
      h := t.nextId;
    }
  }

  lemma {:induction false} FirstHolder(tracks: seq<Track>, role: SystemRole) returns (i: nat)
    requires HasRole(tracks, role)
    ensures i < |tracks| && tracks[i].role == role && !HasRole(tracks[..i], role)
  {
    if tracks[0].role == role {
      i := 0;
    } else {
      var j :| 0 <= j < |tracks| && tracks[j].role == role;
      assert tracks[1..][j - 1].role == role;
      i := FirstHolder(tracks[1..], role);
      i := i + 1;
      forall k | 0 <= k < i ensures tracks[..i][k].role != role {
        if k > 0 {
          assert tracks[1..][..i - 1][k - 1] == tracks[k];
        }
      }
    }
  }

  lemma AssignedOther(tracks: seq<Track>, i: nat, role: SystemRole, other: SystemRole, h: Id)
    requires i < |tracks| && tracks[i].role == NoRole && HolderIs(tracks, role, h) && role != NoRole && role != other
    ensures HolderIs(tracks[i := WithRole(tracks[i], other)], role, h)
  {
    KeptIds(tracks, tracks[i := WithRole(tracks[i], other)], h);
  }

  // Ensuring another role moves no holder.
  lemma EnsureOtherRole(t: Table, role: SystemRole, other: SystemRole, h: Id)
    requires Inv(t) && t.nextId + 1 < ID_RANGE && HolderIs(t.tracks, role, h)
    requires role != NoRole && other != NoRole && role != other
    ensures HolderIs(EnsureRole(t, other).tracks, role, h)
  {
    var tracks := t.tracks;
    if HasRole(tracks, other) {
      KeptIds(tracks, Demoted(tracks, other), h);
    } else if FreeOutput(tracks) < |tracks| {
      AssignedOther(tracks, FreeOutput(tracks), role, other, h);
    } else {
      FindAppend(tracks, NewOutput(t.nextId, other), h);
    }
  }

  // Afterwards exactly one track is the monitor output and exactly one the stream output.
  lemma EnsureOutputsExactlyOne(t: Table) returns (monitor: Id, stream: Id)
    requires Inv(t) && t.nextId + 2 < ID_RANGE
    ensures HolderIs(EnsureSystemOutputs(t).tracks, MonitorRole, monitor)
    ensures HolderIs(EnsureSystemOutputs(t).tracks, StreamRole, stream)
  {
    var u := EnsureRole(t, MonitorRole);
    EnsureRoleKeeps(t, MonitorRole);
    monitor := EnsureRoleHolder(t, MonitorRole);
    stream := EnsureRoleHolder(u, StreamRole);
    EnsureOtherRole(u, MonitorRole, StreamRole, monitor);
  }

  lemma DescendantRoles(a: seq<Track>, b: seq<Track>, role: SystemRole, h: Id)
    requires IdsUnique(a) && Descends(a, b) && role != NoRole && HolderIs(a, role, h)
    ensures HolderIs(b, role, h)
  {
    assert a[Find(a, h)].role == role;
  }

  // No command but an explicit role assignment or clearing everything moves a system output.
  lemma RolesStay(t: Table, c: Command, role: SystemRole, h: Id)
    requires Inv(t) && t.nextId + 2 < ID_RANGE && role != NoRole && HolderIs(t.tracks, role, h)
    requires !c.AssignRole? && !c.ClearAll?
    ensures HolderIs(Apply(t, c).tracks, role, h)
  {
    if c.AddTrack? {
      FindAppend(t.tracks, NewTrack(t.nextId, c.kind, c.color), h);
    } else if c.EnsureOutputs? {
      EnsureStays(t, role, h);
    } else {
      EditDescends(t, c);
      DescendantRoles(t.tracks, Apply(t, c).tracks, role, h);
    }
  }

  lemma EnsureSameRole(t: Table, role: SystemRole, h: Id)
    requires Inv(t) && HolderIs(t.tracks, role, h)
    ensures EnsureRole(t, role) == t
  {
    var tracks := t.tracks;
    assert tracks[Find(tracks, h)].role == role;
    forall i: nat | i < |tracks| && tracks[i].role == role ensures !HasRole(tracks[..i], role) {
      forall j: nat | j < i ensures tracks[..i][j].role != role {
        assert tracks[j].id != tracks[i].id;
      }
    }
    assert Demoted(tracks, role) == tracks;
  }

  lemma EnsureStays(t: Table, role: SystemRole, h: Id)
    requires Inv(t) && t.nextId + 2 < ID_RANGE && role != NoRole && HolderIs(t.tracks, role, h)
    ensures HolderIs(EnsureSystemOutputs(t).tracks, role, h)
  {
    var u := EnsureRole(t, MonitorRole);
    EnsureRoleKeeps(t, MonitorRole);
    if role == MonitorRole {
      EnsureSameRole(t, MonitorRole, h);
      EnsureOtherRole(u, MonitorRole, StreamRole, h);
    } else {
      EnsureOtherRole(t, StreamRole, MonitorRole, h);
      EnsureSameRole(u, StreamRole, h);
    }
  }
}
