/** Saving the track table to a session and rebuilding it (engine/src/session.cpp). */
module Session {
  import opened Wrappers
  import opened GraphTopo
  import opened PdcPlanner
  import opened SortedLists
  import opened TrackTable

  // A session is what parsing its file yields: fields that are missing or of the wrong type are None.
  // Loading issues new ids, maps the old ones, and reconnects the edges through the track commands.

  const SESSION_VERSION := 4

  datatype FileTrack = FileTrack(
    kind: Option<string>, trackId: Option<nat>, role: Option<string>, policy: Option<string>, color: Option<nat>,
    gain: Option<Gain>, mute: Option<bool>, dests: Option<seq<Option<nat>>>, sidechain: Option<seq<Option<nat>>>)

  datatype File = File(version: Option<int>, tracks: Option<seq<Option<FileTrack>>>)

  datatype LoadError = NotASession | UnsupportedVersion | TooManyTracks

  // ---------- saving ----------

  function KindName(kind: TrackKind): string {
    match kind
    case AudioTrack => "audio"
    case AppTrack => "app"
    case FxTrack => "fx"
    case OutputTrack => "output"
  }

  function RoleName(role: SystemRole): Option<string> {
    match role
    case NoRole => None
    case MonitorRole => Some("monitor")
    case StreamRole => Some("stream")
  }

  function PolicyName(policy: OutputLatencyPolicy): string {
    if policy == LowLatency then "lowLatency" else "fullPdc"
  }

  function Present(ids: seq<Id>): seq<Option<nat>> {
    seq(|ids|, k requires 0 <= k < |ids| => Some(ids[k]))
  }

  // The tracks among the first k that feed an FX track's sidechain.
  function Feeders(tracks: seq<Track>, id: Id, k: nat): seq<Id>
    requires k <= |tracks|
  {
    if k == 0 then []
    else Feeders(tracks, id, k - 1) + if id in tracks[k - 1].sidechainDests then [tracks[k - 1].id] else []
  }

  function Record(tracks: seq<Track>, i: nat): FileTrack
    requires i < |tracks|
  {
    var t := tracks[i];
    FileTrack(
      Some(KindName(t.kind)), Some(t.id), RoleName(t.role), Some(PolicyName(t.policy)), Some(t.color),
      Some(Finite(t.gain)), Some(t.mute), Some(Present(t.dests)),
      Some(Present(if t.kind == FxTrack then Sort(Feeders(tracks, t.id, |tracks|)) else [])))
  }

  function Serialized(tracks: seq<Track>): File {
    File(Some(SESSION_VERSION), Some(seq(|tracks|, i requires 0 <= i < |tracks| => Some(Record(tracks, i)))))
  }

  method CollectFeeders(tracks: seq<Track>, id: Id) returns (sources: seq<Id>)
    ensures sources == Feeders(tracks, id, |tracks|)
  {
    sources := [];
    for k := 0 to |tracks|
      invariant sources == Feeders(tracks, id, k)
    {
      if id in tracks[k].sidechainDests {
        sources := sources + [tracks[k].id];
      }
    }
  }

  method Serialize(engine: AudioEngine) returns (file: File)
    ensures file == Serialized(engine.tracks)
  {
    var tracks := engine.tracks;
    var records: seq<Option<FileTrack>> := [];
    for i := 0 to |tracks|
      invariant |records| == i && forall k :: 0 <= k < i ==> records[k] == Some(Record(tracks, k))
    {
      var t := tracks[i];
      var sources: seq<Id> := [];
      if t.kind == FxTrack {
        sources := CollectFeeders(tracks, t.id);
        sources := Sort(sources);
      }
      records := records + [Some(FileTrack(
        Some(KindName(t.kind)), Some(t.id), RoleName(t.role), Some(PolicyName(t.policy)), Some(t.color),
        Some(Finite(t.gain)), Some(t.mute), Some(Present(t.dests)), Some(Present(sources))))];
    }
    assert records == Serialized(tracks).tracks.value;
    file := File(Some(SESSION_VERSION), Some(records));
  }

  // ---------- loading ----------

  // An unsigned number read into 32 bits.
  function Word(n: nat): Id {
    n % ID_RANGE
  }

  function KindFrom(name: string): TrackKind {
    if name == "app" then AppTrack
    else if name == "fx" then FxTrack
    else if name == "output" then OutputTrack
    else AudioTrack
  }

  function RoleFrom(name: string): SystemRole {
    if name == "monitor" then MonitorRole else if name == "stream" then StreamRole else NoRole
  }

  function PolicyFrom(name: string): OutputLatencyPolicy {
    if name == "lowLatency" then LowLatency else FullPdc
  }

  // The table so far, and the new id and kind of every old id.
  datatype Loading = Loading(table: Table, ids: map<Id, Id>, kinds: map<Id, TrackKind>)

  // The settings of a record on its new track.
  function Restored(t: Table, id: Id, version: int, r: FileTrack, gates: Gates): Table {
    var t1 := if r.role.Some? then SetRole(t, id, RoleFrom(r.role.value)) else t;
    var t2 := if version >= 3 && r.policy.Some? then SetPolicy(t1, id, PolicyFrom(r.policy.value), gates).0 else t1;
    if r.gain.Some? && r.mute.Some? then Set(t2, id, None, r.gain, r.mute).0 else t2
  }

  // One record of the first pass; a bad one is skipped.
  function Rebuild(l: Loading, version: int, record: Option<FileTrack>, gates: Gates): Loading {
    if record.None? || record.value.kind.None? then l
    else
      var r := record.value;
      var kind := KindFrom(r.kind.value);
      var (t, e) := Add(l.table, kind, if r.color.Some? then Word(r.color.value) else 0);
      if e.Some? then l
      else
        var id := l.table.nextId;
        Loading(Restored(t, id, version, r, gates),
                if r.trackId.Some? then l.ids[Word(r.trackId.value) := id] else l.ids,
                if r.trackId.Some? then l.kinds[Word(r.trackId.value) := kind] else l.kinds)
  }

  function RebuildAll(t: Table, version: int, records: seq<Option<FileTrack>>, gates: Gates): Loading {
    if records == [] then Loading(t, map[], map[])
    else
      Rebuild(RebuildAll(t, version, records[..|records| - 1], gates), version, records[|records| - 1], gates)
  }

  // The new ids of a list; entries that are no number, unknown, or of the wrong kind are dropped.
  function Mapped(l: Loading, ids: seq<Option<nat>>, sources: bool): seq<Id> {
    if ids == [] then []
    else
      var before := Mapped(l, ids[..|ids| - 1], sources);
      var last := ids[|ids| - 1];
      if last.None? || Word(last.value) !in l.ids then before
      else if Word(last.value) in l.kinds && SourceKind(l.kinds[Word(last.value)]) != sources then before
      else before + [l.ids[Word(last.value)]]
  }

  // The dest list of a record that found its track.
  predicate Reconnects(l: Loading, record: Option<FileTrack>, sidechain: bool) {
    && record.Some? && record.value.trackId.Some? && Word(record.value.trackId.value) in l.ids
    && (if sidechain then record.value.sidechain.Some? else record.value.dests.Some?)
  }

  ghost function Rewire(t: Table, l: Loading, record: Option<FileTrack>, gates: Gates): (Table, Option<Error>) {
    if !Reconnects(l, record, false) then (t, None)
    else
      var r := record.value;
      SetDests(t, l.ids[Word(r.trackId.value)], Mapped(l, r.dests.value, false), gates)
  }

  ghost function Refeed(t: Table, l: Loading, record: Option<FileTrack>, gates: Gates): (Table, Option<Error>) {
    if !Reconnects(l, record, true) then (t, None)
    else
      var r := record.value;
      SetSidechain(t, l.ids[Word(r.trackId.value)], Mapped(l, r.sidechain.value, true), gates)
  }

  ghost function RewireAll(t: Table, l: Loading, records: seq<Option<FileTrack>>, gates: Gates): Table {
    if records == [] then t
    else Rewire(RewireAll(t, l, records[..|records| - 1], gates), l, records[|records| - 1], gates).0
  }

  ghost function RefeedAll(t: Table, l: Loading, records: seq<Option<FileTrack>>, gates: Gates): Table {
    if records == [] then t
    else Refeed(RefeedAll(t, l, records[..|records| - 1], gates), l, records[|records| - 1], gates).0
  }

  // A version of any width is narrowed to a 32-bit integer.
  function Narrow(v: int): int {
    (v + 0x8000_0000) % 0x1_0000_0000 - 0x8000_0000
  }

  function CheckFile(file: File): Option<LoadError> {
    if file.version.None? then Some(NotASession)
    else if Narrow(file.version.value) < 2 || Narrow(file.version.value) > SESSION_VERSION then Some(UnsupportedVersion)
    else if file.tracks.Some? && |file.tracks.value| > MAX_TRACKS then Some(TooManyTracks)
    else None
  }

  // `gates` says how preparing and publishing graphs goes throughout the load.
  ghost function Loaded(t: Table, file: File, gates: Gates): (Table, Option<LoadError>) {
    if CheckFile(file).Some? then (t, CheckFile(file))
    else if file.tracks.None? then (Table([], t.nextId), None)
    else
      var records := file.tracks.value;
      var l := RebuildAll(Table([], t.nextId), Narrow(file.version.value), records, gates);
      var wired := RewireAll(l.table, l, records, gates);
      (EnsureSystemOutputs(RefeedAll(wired, l, records, gates)), None)
  }

  // ---------- the loops ----------

  method RestoreTrack(engine: AudioEngine, id: Id, version: int, r: FileTrack, gates: Gates)
    modifies engine
    ensures engine.Now() == Restored(old(engine.Now()), id, version, r, gates)
  {
    if r.role.Some? {
      engine.SetTrackSystemRole(id, RoleFrom(r.role.value));
    }
    if version >= 3 && r.policy.Some? {
      var _ := engine.TrackSetOutputLatencyPolicy(id, PolicyFrom(r.policy.value), gates);
    }
    if r.gain.Some? && r.mute.Some? {
      var _ := engine.TrackSet(id, None, r.gain, r.mute);
    }
  }

  method RebuildTracks(engine: AudioEngine, version: int, records: seq<Option<FileTrack>>, gates: Gates)
    returns (ids: map<Id, Id>, kinds: map<Id, TrackKind>)
    modifies engine
    ensures Loading(engine.Now(), ids, kinds) == RebuildAll(old(engine.Now()), version, records, gates)
  {
    ids, kinds := map[], map[];
    for k := 0 to |records|
      invariant Loading(engine.Now(), ids, kinds) == RebuildAll(old(engine.Now()), version, records[..k], gates)
    {
      assert records[..k + 1][..k] == records[..k];
      var record := records[k];
      if record.Some? && record.value.kind.Some? {
        var r := record.value;
        var kind := KindFrom(r.kind.value);
        var e, id := engine.TrackAdd(kind, if r.color.Some? then Word(r.color.value) else 0);
        if e.None? {
          if r.trackId.Some? {
            ids := ids[Word(r.trackId.value) := id];
            kinds := kinds[Word(r.trackId.value) := kind];
          }
          RestoreTrack(engine, id, version, r, gates);
        }
      }
    }
    assert records[..|records|] == records;
  }

  method MapIds(l: Loading, ids: seq<Option<nat>>, sources: bool) returns (r: seq<Id>)
    ensures r == Mapped(l, ids, sources)
  {
    r := [];
    for k := 0 to |ids|
      invariant r == Mapped(l, ids[..k], sources)
    {
      assert ids[..k + 1][..k] == ids[..k];
      if ids[k].Some? && Word(ids[k].value) in l.ids {
        var id := Word(ids[k].value);
        if !(id in l.kinds && SourceKind(l.kinds[id]) != sources) {
          r := r + [l.ids[id]];
        }
      }
    }
    assert ids[..|ids|] == ids;
  }

  // Reconnecting moves no track and no id.
  lemma SameTracks(t: Table, id: Id, ids: seq<Id>, gates: Gates)
    requires IdsUnique(t.tracks)
    ensures IdsUnique(SetDests(t, id, ids, gates).0.tracks)
    ensures IdsUnique(SetSidechain(t, id, ids, gates).0.tracks)
  {
  }

  method RewireTracks(engine: AudioEngine, l: Loading, records: seq<Option<FileTrack>>, gates: Gates)
    requires IdsUnique(engine.tracks)
    modifies engine
    ensures engine.Now() == RewireAll(old(engine.Now()), l, records, gates) && IdsUnique(engine.tracks)
  {
    for k := 0 to |records|
      invariant IdsUnique(engine.tracks) && engine.Now() == RewireAll(old(engine.Now()), l, records[..k], gates)
    {
      assert records[..k + 1][..k] == records[..k];
      if Reconnects(l, records[k], false) {
        var r := records[k].value;
        var dests := MapIds(l, r.dests.value, false);
        SameTracks(engine.Now(), l.ids[Word(r.trackId.value)], dests, gates);
        var _ := engine.TrackSetDests(l.ids[Word(r.trackId.value)], dests, gates);
      }
    }
    assert records[..|records|] == records;
  }

  method RefeedTracks(engine: AudioEngine, l: Loading, records: seq<Option<FileTrack>>, gates: Gates)
    requires IdsUnique(engine.tracks)
    modifies engine
    ensures engine.Now() == RefeedAll(old(engine.Now()), l, records, gates)
  {
    for k := 0 to |records|
      invariant IdsUnique(engine.tracks) && engine.Now() == RefeedAll(old(engine.Now()), l, records[..k], gates)
    {
      assert records[..k + 1][..k] == records[..k];
      if Reconnects(l, records[k], true) {
        var r := records[k].value;
        var sources := MapIds(l, r.sidechain.value, true);
        SameTracks(engine.Now(), l.ids[Word(r.trackId.value)], sources, gates);
        var _ := engine.TrackSetSidechain(l.ids[Word(r.trackId.value)], sources, gates);
      }
    }
    assert records[..|records|] == records;
  }

  predicate KeepsIds(t: Table, u: Table) {
    && u.nextId == t.nextId && |u.tracks| == |t.tracks|
    && forall i: nat :: i < |t.tracks| ==> u.tracks[i].id == t.tracks[i].id
  }

  lemma SetRoleIds(t: Table, id: Id, role: SystemRole)
    ensures KeepsIds(t, SetRole(t, id, role))
  {
  }

  lemma SetPolicyIds(t: Table, id: Id, policy: OutputLatencyPolicy, gates: Gates)
    ensures KeepsIds(t, SetPolicy(t, id, policy, gates).0)
  {
  }

  lemma SetIds(t: Table, id: Id, gain: Option<Gain>, mute: Option<bool>)
    ensures KeepsIds(t, Set(t, id, None, gain, mute).0)
  {
  }

  // Restoring settings issues no id and moves no track.
  lemma RestoredIds(t: Table, id: Id, version: int, r: FileTrack, gates: Gates)
    ensures KeepsIds(t, Restored(t, id, version, r, gates))
  {
    var t1 := if r.role.Some? then SetRole(t, id, RoleFrom(r.role.value)) else t;
    if r.role.Some? {
      SetRoleIds(t, id, RoleFrom(r.role.value));
    }
    var t2 := if version >= 3 && r.policy.Some? then SetPolicy(t1, id, PolicyFrom(r.policy.value), gates).0 else t1;
    if version >= 3 && r.policy.Some? {
      SetPolicyIds(t1, id, PolicyFrom(r.policy.value), gates);
    }
    SetIds(t2, id, r.gain, r.mute);
  }

  // The rebuilt tracks have consecutive ids while the counter does not wrap.
  lemma {:induction false} RebuiltIds(t: Table, version: int, records: seq<Option<FileTrack>>, gates: Gates)
    requires t.tracks == [] && t.nextId + |records| < ID_RANGE
    ensures var u := RebuildAll(t, version, records, gates).table;
      && u.nextId == t.nextId + |u.tracks| && |u.tracks| <= |records|
      && forall i: nat :: i < |u.tracks| ==> u.tracks[i].id == t.nextId + i
  {
    if records != [] {
      var before := RebuildAll(t, version, records[..|records| - 1], gates);
      var record := records[|records| - 1];
      RebuiltIds(t, version, records[..|records| - 1], gates);
      if record.Some? && record.value.kind.Some? {
        var r := record.value;
        var added := Add(before.table, KindFrom(r.kind.value), if r.color.Some? then Word(r.color.value) else 0);
        RestoredIds(added.0, before.table.nextId, version, r, gates);
      }
    }
  }

  method Load(engine: AudioEngine, file: File, gates: Gates) returns (e: Option<LoadError>)
    requires engine.nextId + MAX_TRACKS < ID_RANGE
    modifies engine
    ensures (engine.Now(), e) == Loaded(old(engine.Now()), file, gates)
  {
    e := CheckFile(file);
    if e.Some? {
      return;
    }
    engine.ClearAllTracks();
    if file.tracks.Some? {
      var records := file.tracks.value;
      RebuiltIds(engine.Now(), Narrow(file.version.value), records, gates);
      var ids, kinds := RebuildTracks(engine, Narrow(file.version.value), records, gates);
      var l := Loading(engine.Now(), ids, kinds);
      RewireTracks(engine, l, records, gates);
      RefeedTracks(engine, l, records, gates);
      var _ := engine.EnsureOutputs();
    }
  }
}
