/**
 Loading a session keeps the table invariant whatever the file says, and loading what was saved
 gives the same tracks and the same graph under new ids.
 */
module SessionTheorems {
  import opened Wrappers
  import opened GraphTopo
  import opened PdcPlanner
  import opened SortedLists
  import opened TrackTable
  import opened TableInvariant
  import opened RoutingCommands
  import opened TableRuns
  import opened Session

  // ---------- any file ----------

  lemma RestoredKeeps(t: Table, id: Id, version: int, r: FileTrack, gates: Gates)
    requires Inv(t)
    ensures Inv(Restored(t, id, version, r, gates)) && Restored(t, id, version, r, gates).nextId == t.nextId
  {
    RestoredIds(t, id, version, r, gates);
    var t1 := if r.role.Some? then SetRole(t, id, RoleFrom(r.role.value)) else t;
    if r.role.Some? {
      SetRoleKeeps(t, id, RoleFrom(r.role.value));
    }
    var t2 := if version >= 3 && r.policy.Some? then SetPolicy(t1, id, PolicyFrom(r.policy.value), gates).0 else t1;
    if version >= 3 && r.policy.Some? {
      SetPolicyKeeps(t1, id, PolicyFrom(r.policy.value), gates);
    }
    SetKeeps(t2, id, None, r.gain, r.mute);
  }

  lemma RebuildKeeps(l: Loading, version: int, record: Option<FileTrack>, gates: Gates)
    requires Inv(l.table) && l.table.nextId + 1 < ID_RANGE
    ensures Inv(Rebuild(l, version, record, gates).table)
    ensures l.table.nextId <= Rebuild(l, version, record, gates).table.nextId <= l.table.nextId + 1
  {
    if record.Some? && record.value.kind.Some? {
      var r := record.value;
      var kind, color := KindFrom(r.kind.value), if r.color.Some? then Word(r.color.value) else 0;
      AddKeeps(l.table, kind, color);
      RestoredKeeps(Add(l.table, kind, color).0, l.table.nextId, version, r, gates);
    }
  }

  lemma {:induction false} RebuildAllKeeps(t: Table, version: int, records: seq<Option<FileTrack>>, gates: Gates)
    requires Inv(t) && t.nextId + |records| < ID_RANGE
    ensures var u := RebuildAll(t, version, records, gates).table;
      Inv(u) && t.nextId <= u.nextId <= t.nextId + |records|
  {
    if records != [] {
      RebuildAllKeeps(t, version, records[..|records| - 1], gates);
      RebuildKeeps(RebuildAll(t, version, records[..|records| - 1], gates), version, records[|records| - 1], gates);
    }
  }

  lemma {:induction false} RewireAllKeeps(t: Table, l: Loading, records: seq<Option<FileTrack>>, gates: Gates)
    requires Inv(t)
    ensures Inv(RewireAll(t, l, records, gates)) && RewireAll(t, l, records, gates).nextId == t.nextId
  {
    if records != [] {
      var before, record := RewireAll(t, l, records[..|records| - 1], gates), records[|records| - 1];
      RewireAllKeeps(t, l, records[..|records| - 1], gates);
      if Reconnects(l, record, false) {
        SetDestsKeeps(before, l.ids[Word(record.value.trackId.value)], Mapped(l, record.value.dests.value, false),
                      gates);
      }
    }
  }

  lemma {:induction false} RefeedAllKeeps(t: Table, l: Loading, records: seq<Option<FileTrack>>, gates: Gates)
    requires Inv(t)
    ensures Inv(RefeedAll(t, l, records, gates)) && RefeedAll(t, l, records, gates).nextId == t.nextId
  {
    if records != [] {
      var before, record := RefeedAll(t, l, records[..|records| - 1], gates), records[|records| - 1];
      RefeedAllKeeps(t, l, records[..|records| - 1], gates);
      if Reconnects(l, record, true) {
        SetSidechainKeeps(before, l.ids[Word(record.value.trackId.value)],
                          Mapped(l, record.value.sidechain.value, true), gates);
      }
    }
  }

  // Whatever the file contains, a load ends in a valid table. If the file has a track list it ends
  // with exactly one monitor and one stream output, and without any track otherwise.
  lemma LoadKeepsInvariant(t: Table, file: File, gates: Gates) returns (monitor: Id, stream: Id)
    requires Inv(t) && t.nextId + MAX_TRACKS + 2 < ID_RANGE
    ensures Inv(Loaded(t, file, gates).0)
    ensures Loaded(t, file, gates).1.Some? ==> Loaded(t, file, gates).0 == t
    ensures Loaded(t, file, gates).1.None? && file.tracks.Some? ==>
      && HolderIs(Loaded(t, file, gates).0.tracks, MonitorRole, monitor)
      && HolderIs(Loaded(t, file, gates).0.tracks, StreamRole, stream)
    ensures Loaded(t, file, gates).1.None? && file.tracks.None? ==>
      && Loaded(t, file, gates).0 == Table([], t.nextId)
      && forall role, h :: !HolderIs(Loaded(t, file, gates).0.tracks, role, h)
  {
    monitor, stream := 0, 0;
    if CheckFile(file).None? {
      EmptyOk(t.nextId);
      if file.tracks.Some? {
        var records := file.tracks.value;
        var empty := Table([], t.nextId);
        RebuildAllKeeps(empty, Narrow(file.version.value), records, gates);
        var l := RebuildAll(empty, Narrow(file.version.value), records, gates);
        RewireAllKeeps(l.table, l, records, gates);
        var wired := RewireAll(l.table, l, records, gates);
        RefeedAllKeeps(wired, l, records, gates);
        var fed := RefeedAll(wired, l, records, gates);
        EnsureKeeps(fed);
        monitor, stream := EnsureOutputsExactlyOne(fed);
      }
    }
  }

  lemma NarrowTurns(v: int, k: int)
    ensures Narrow(v + k * 0x1_0000_0000) == Narrow(v)
    ensures -0x8000_0000 <= v < 0x8000_0000 ==> Narrow(v) == v
  {
  }

  // A file is loaded as the file whose version agrees with its own modulo 2^32.
  lemma VersionsNarrowed(t: Table, file: File, v: int, k: int, gates: Gates)
    requires file.version == Some(v)
    ensures Loaded(t, file.(version := Some(v + k * 0x1_0000_0000)), gates) == Loaded(t, file, gates)
    ensures Loaded(t, file, gates).1 != Some(NotASession)
    ensures -0x8000_0000 <= v < 0x8000_0000 ==>
      (Loaded(t, file, gates).1 == Some(UnsupportedVersion) <==> v < 2 || v > SESSION_VERSION)
  {
    NarrowTurns(v, k);
  }

  // ---------- the table a round trip leads to ----------

  // New ids of the listed tracks among the first k.
  function Image(ts: seq<Track>, n: Id, ids: seq<Id>, k: nat): seq<Id>
    requires k <= |ts|
  {
    if k == 0 then [] else Image(ts, n, ids, k - 1) + if ts[k - 1].id in ids then [n + k - 1] else []
  }

  // Black is the only color that does not survive: it asks for a palette color.
  function CopyColor(color: nat, id: Id): nat {
    if color == 0 then PaletteColor(id) else color
  }

  // Track i under its new id, its dests restored or not, and fed to the FX tracks before ks.
  function Copy(ts: seq<Track>, n: Id, i: nat, wired: bool, ks: nat): Track
    requires i < |ts| && ks <= |ts|
  {
    var t := ts[i];
    Track(n + i, t.kind, t.role, t.policy, CopyColor(t.color, n + i), t.gain, t.mute,
          if wired then Image(ts, n, t.dests, |ts|) else [], Image(ts, n, t.sidechainDests, ks))
  }

  function Stage(ts: seq<Track>, n: Id, kd: nat, ks: nat): seq<Track>
    requires ks <= |ts|
  {
    seq(|ts|, i requires 0 <= i < |ts| => Copy(ts, n, i, i < kd, ks))
  }

  lemma {:induction false} ImageElems(ts: seq<Track>, n: Id, ids: seq<Id>, k: nat, x: Id)
    requires k <= |ts|
    ensures x in Image(ts, n, ids, k) <==> n <= x < n + k && ts[x - n].id in ids
  {
    if k > 0 {
      ImageElems(ts, n, ids, k - 1, x);
    }
  }

  lemma {:induction false} ImageStrict(ts: seq<Track>, n: Id, ids: seq<Id>, k: nat)
    requires k <= |ts|
    ensures Strict(Image(ts, n, ids, k))
  {
    if k > 0 {
      ImageStrict(ts, n, ids, k - 1);
      var before := Image(ts, n, ids, k - 1);
      forall j | 0 <= j < |before| ensures before[j] < n + k - 1 {
        ImageElems(ts, n, ids, k - 1, before[j]);
      }
    }
  }

  lemma StageAt(ts: seq<Track>, n: Id, kd: nat, ks: nat)
    requires ks <= |ts|
    ensures IdsUnique(Stage(ts, n, kd, ks))
    ensures forall i: nat :: i < |ts| ==> Stage(ts, n, kd, ks)[i].id == n + i
  {
    var stage := Stage(ts, n, kd, ks);
    forall i: nat | i < |ts| ensures stage[i].id == n + i {
      assert stage[i] == Copy(ts, n, i, i < kd, ks);
    }
  }

  lemma StageFind(ts: seq<Track>, n: Id, kd: nat, ks: nat, id: Id)
    requires ks <= |ts|
    ensures Exists(Stage(ts, n, kd, ks), id) <==> n <= id < n + |ts|
    ensures n <= id < n + |ts| ==> Find(Stage(ts, n, kd, ks), id) == id - n
  {
    var stage := Stage(ts, n, kd, ks);
    StageAt(ts, n, kd, ks);
    if n <= id < n + |ts| {
      assert stage[id - n].id == n + (id - n);
      FindUnique(stage, id - n);
    }
  }

  lemma CopyLinked(ts: seq<Track>, n: Id, i: nat, wired: bool, ks: nat, b: Id)
    requires i < |ts| && ks <= |ts| && Linked(Copy(ts, n, i, wired, ks), b)
    ensures n <= b < n + |ts| && Linked(ts[i], ts[b - n].id)
  {
    ImageElems(ts, n, ts[i].dests, |ts|, b);
    ImageElems(ts, n, ts[i].sidechainDests, ks, b);
  }

  // An edge of a stage is an edge of the original.
  lemma StageEdge(ts: seq<Track>, n: Id, kd: nat, ks: nat, a: Id, b: Id)
    requires ks <= |ts| && IdsUnique(ts) && IdEdge(Stage(ts, n, kd, ks), a, b)
    ensures n <= a < n + |ts| && n <= b < n + |ts| && IdEdge(ts, ts[a - n].id, ts[b - n].id)
  {
    StageFind(ts, n, kd, ks, a);
    CopyLinked(ts, n, a - n, a - n < kd, ks, b);
    FindUnique(ts, a - n);
    FindUnique(ts, b - n);
  }

  // The old id of a track in the making.
  function OldId(ts: seq<Track>, n: Id, x: Id): Id {
    if n <= x < n + |ts| then ts[x - n].id else 0
  }

  lemma StageStep(ts: seq<Track>, n: Id, kd: nat, ks: nat, q: seq<Id>, k: nat)
    requires ks <= |ts| && IdsUnique(ts) && k < |q| - 1 && IdStep(Stage(ts, n, kd, ks), q, k)
    ensures IdEdge(ts, OldId(ts, n, q[k]), OldId(ts, n, q[k + 1]))
  {
    StageEdge(ts, n, kd, ks, q[k], q[k + 1]);
  }

  lemma StageCycle(ts: seq<Track>, n: Id, kd: nat, ks: nat, q: seq<Id>)
    requires ks <= |ts| && IdsUnique(ts) && IdCycle(Stage(ts, n, kd, ks), q)
    ensures Cyclic(ts)
  {
    var p := seq(|q|, k requires 0 <= k < |q| => OldId(ts, n, q[k]));
    forall k: nat | k < |p| - 1 ensures IdStep(ts, p, k) {
      StageStep(ts, n, kd, ks, q, k);
    }
    assert IdCycle(ts, p);
  }

  lemma StageAcyclic(ts: seq<Track>, n: Id, kd: nat, ks: nat)
    requires ks <= |ts| && IdsUnique(ts) && !Cyclic(ts)
    ensures !Cyclic(Stage(ts, n, kd, ks))
  {
    StageAt(ts, n, kd, ks);
    if Cyclic(Stage(ts, n, kd, ks)) {
      var q :| IdCycle(Stage(ts, n, kd, ks), q);
      StageCycle(ts, n, kd, ks, q);
    }
  }

  // ---------- rebuilding what was saved ----------

  const OPEN := Gates(true, true)

  // A table that can be saved: valid, within the limit, its ids in 32 bits.
  ghost predicate Savable(t: Table) {
    Inv(t) && |t.tracks| <= MAX_TRACKS && t.nextId <= ID_RANGE
  }

  // The maps know the first k tracks.
  predicate Knows(l: Loading, ts: seq<Track>, n: Id, k: nat) {
    k <= |ts| && forall j: nat :: j < k ==>
      && ts[j].id in l.ids && l.ids[ts[j].id] == n + j
      && ts[j].id in l.kinds && l.kinds[ts[j].id] == ts[j].kind
  }

  lemma FindLast(pre: seq<Track>, x: Track)
    requires forall j: nat :: j < |pre| ==> pre[j].id != x.id
    ensures Find(pre + [x], x.id) == |pre|
  {
    var all := pre + [x];
    assert forall j: nat :: j < |pre| ==> all[j] == pre[j];
    assert all[|pre|].id == x.id;
  }

  function WithPolicy(x: Track, policy: OutputLatencyPolicy): Track {
    if x.kind == OutputTrack then x.(policy := policy) else x
  }

  lemma SetRoleLast(pre: seq<Track>, x: Track, next: Id, role: SystemRole)
    requires forall j: nat :: j < |pre| ==> pre[j].id != x.id
    ensures SetRole(Table(pre + [x], next), x.id, role) == Table(pre + [WithRole(x, role)], next)
  {
    FindLast(pre, x);
    assert (pre + [x])[|pre| := WithRole(x, role)] == pre + [WithRole(x, role)];
  }

  lemma SetPolicyLast(pre: seq<Track>, x: Track, next: Id, policy: OutputLatencyPolicy)
    requires forall j: nat :: j < |pre| ==> pre[j].id != x.id
    ensures SetPolicy(Table(pre + [x], next), x.id, policy, OPEN).0 == Table(pre + [WithPolicy(x, policy)], next)
  {
    FindLast(pre, x);
    var y := x.(policy := policy);
    assert (pre + [x])[|pre| := y] == pre + [y];
  }

  lemma SetLast(pre: seq<Track>, x: Track, next: Id, gain: real, mute: bool)
    requires (forall j: nat :: j < |pre| ==> pre[j].id != x.id) && 0.0 <= gain <= 4.0
    ensures Set(Table(pre + [x], next), x.id, None, Some(Finite(gain)), Some(mute)).0
            == Table(pre + [x.(gain := gain, mute := mute)], next)
  {
    FindLast(pre, x);
    var y := x.(gain := gain, mute := mute);
    assert (pre + [x])[|pre| := y] == pre + [y];
  }

  lemma NamesRoundTrip(kind: TrackKind, role: SystemRole, policy: OutputLatencyPolicy)
    ensures KindFrom(KindName(kind)) == kind && PolicyFrom(PolicyName(policy)) == policy
    ensures role == NoRole <==> RoleName(role).None?
    ensures RoleName(role).Some? ==> RoleFrom(RoleName(role).value) == role
  {
  }

  lemma RestoredLast(ts: seq<Track>, i: nat, pre: seq<Track>, x: Track, next: Id)
    requires i < |ts| && FieldsOk(ts[i]) && (forall j: nat :: j < |pre| ==> pre[j].id != x.id)
    requires x == NewTrack(x.id, ts[i].kind, ts[i].color)
    ensures Restored(Table(pre + [x], next), x.id, SESSION_VERSION, Record(ts, i), OPEN) ==
      Table(pre + [x.(role := ts[i].role, policy := ts[i].policy, gain := ts[i].gain, mute := ts[i].mute)], next)
  {
    var t := ts[i];
    NamesRoundTrip(t.kind, t.role, t.policy);
    var y := if t.role == NoRole then x else WithRole(x, t.role);
    if t.role != NoRole {
      SetRoleLast(pre, x, next, t.role);
    }
    SetPolicyLast(pre, y, next, t.policy);
    var z := WithPolicy(y, t.policy);
    SetLast(pre, z, next, t.gain, t.mute);
    assert z == x.(role := t.role, policy := t.policy);
  }

  lemma AddLast(pre: seq<Track>, next: Id, t: Track)
    requires |pre| < MAX_TRACKS && next + 1 < ID_RANGE && t.color < COLOR_RANGE
    ensures Add(Table(pre, next), t.kind, Word(t.color))
      == (Table(pre + [NewTrack(next, t.kind, t.color)], next + 1), None)
    ensures NewTrack(next, t.kind, t.color).color == CopyColor(t.color, next)
  {
  }

  // A good record adds a track, restores its settings, and enters its ids.
  lemma RebuildGood(l: Loading, r: FileTrack, kind: TrackKind, color: nat, added: Table)
    requires r.kind.Some? && KindFrom(r.kind.value) == kind && r.color == Some(color) && r.trackId.Some?
    requires Add(l.table, kind, Word(color)) == (added, None)
    ensures Rebuild(l, SESSION_VERSION, Some(r), OPEN) ==
      Loading(Restored(added, l.table.nextId, SESSION_VERSION, r, OPEN),
              l.ids[Word(r.trackId.value) := l.table.nextId], l.kinds[Word(r.trackId.value) := kind])
  {
  }

  lemma RebuildRecord(ts: seq<Track>, n: Id, k: nat, l: Loading)
    requires k < |ts| && |l.table.tracks| < MAX_TRACKS && FieldsOk(ts[k]) && ts[k].id < ID_RANGE
    requires l.table.nextId == n + k && n + k + 1 < ID_RANGE
    requires forall j: nat :: j < |l.table.tracks| ==> l.table.tracks[j].id != n + k
    ensures Rebuild(l, SESSION_VERSION, Some(Record(ts, k)), OPEN) ==
      Loading(Table(l.table.tracks + [Copy(ts, n, k, false, 0)], n + k + 1),
              l.ids[ts[k].id := n + k], l.kinds[ts[k].id := ts[k].kind])
  {
    var pre, x := l.table.tracks, NewTrack(n + k, ts[k].kind, ts[k].color);
    NamesRoundTrip(ts[k].kind, ts[k].role, ts[k].policy);
    AddLast(pre, n + k, ts[k]);
    RestoredLast(ts, k, pre, x, n + k + 1);
    RebuildGood(l, Record(ts, k), ts[k].kind, ts[k].color, Table(pre + [x], n + k + 1));
    CopyFresh(ts, n, k);
  }

  lemma CopyFresh(ts: seq<Track>, n: Id, k: nat)
    requires k < |ts| && ts[k].color < COLOR_RANGE && ts[k].id < ID_RANGE
    ensures Copy(ts, n, k, false, 0) == NewTrack(n + k, ts[k].kind, ts[k].color).(
      role := ts[k].role, policy := ts[k].policy, gain := ts[k].gain, mute := ts[k].mute)
    ensures Word(ts[k].id) == ts[k].id
  {
  }

  lemma KnowsNext(l: Loading, ts: seq<Track>, n: Id, k: nat, l1: Loading)
    requires k < |ts| && IdsUnique(ts) && Knows(l, ts, n, k)
    requires l1.ids == l.ids[ts[k].id := n + k] && l1.kinds == l.kinds[ts[k].id := ts[k].kind]
    ensures Knows(l1, ts, n, k + 1)
  {
  }

  // The first pass after k records of a saved table.
  ghost predicate Rebuilt(l: Loading, ts: seq<Track>, n: Id, k: nat) {
    k <= |ts| && l.table == Table(Stage(ts, n, 0, 0)[..k], n + k) && Knows(l, ts, n, k)
  }

  lemma RebuildNext(t: Table, n: Id, k: nat, l: Loading)
    requires Savable(t) && k < |t.tracks| && n + |t.tracks| + 2 < ID_RANGE && Rebuilt(l, t.tracks, n, k)
    ensures Rebuilt(Rebuild(l, SESSION_VERSION, Some(Record(t.tracks, k)), OPEN), t.tracks, n, k + 1)
  {
    var ts := t.tracks;
    StageAt(ts, n, 0, 0);
    StageNext(ts, n, k);
    RebuildRecord(ts, n, k, l);
    KnowsNext(l, ts, n, k, Rebuild(l, SESSION_VERSION, Some(Record(ts, k)), OPEN));
  }

  lemma StageNext(ts: seq<Track>, n: Id, k: nat)
    requires k < |ts|
    ensures |Stage(ts, n, 0, 0)| == |ts|
    ensures Stage(ts, n, 0, 0)[..k + 1] == Stage(ts, n, 0, 0)[..k] + [Copy(ts, n, k, false, 0)]
  {
    StageAt(ts, n, 0, 0);
  }

  function Records(ts: seq<Track>): seq<Option<FileTrack>> {
    Serialized(ts).tracks.value
  }

  lemma RebuildAppend(t: Table, version: int, records: seq<Option<FileTrack>>, r: Option<FileTrack>, gates: Gates)
    ensures RebuildAll(t, version, records + [r], gates)
            == Rebuild(RebuildAll(t, version, records, gates), version, r, gates)
  {
    assert (records + [r])[..|records|] == records;
  }

  lemma RecordsNext(ts: seq<Track>, k: nat)
    requires k < |ts|
    ensures Records(ts)[..k + 1] == Records(ts)[..k] + [Some(Record(ts, k))]
  {
  }

  lemma RebuildSnoc(ts: seq<Track>, n: Id, k: nat)
    requires k < |ts|
    ensures var records := Records(ts);
      (RebuildAll(Table([], n), SESSION_VERSION, records[..k + 1], OPEN) ==
       Rebuild(RebuildAll(Table([], n), SESSION_VERSION, records[..k], OPEN),
               SESSION_VERSION, Some(Record(ts, k)), OPEN))
  {
    RecordsNext(ts, k);
    RebuildAppend(Table([], n), SESSION_VERSION, Records(ts)[..k], Some(Record(ts, k)), OPEN);
  }

  lemma {:induction false} RebuildSaved(t: Table, n: Id, k: nat)
    requires Savable(t) && k <= |t.tracks| && n + |t.tracks| + 2 < ID_RANGE
    ensures Rebuilt(RebuildAll(Table([], n), SESSION_VERSION, Records(t.tracks)[..k], OPEN), t.tracks, n, k)
  {
    if k == 0 {
      assert Records(t.tracks)[..0] == [] && Stage(t.tracks, n, 0, 0)[..0] == [];
    } else {
      RebuildSaved(t, n, k - 1);
      RebuildNext(t, n, k - 1, RebuildAll(Table([], n), SESSION_VERSION, Records(t.tracks)[..k - 1], OPEN));
      RebuildSnoc(t.tracks, n, k - 1);
    }
  }

  // ---------- reconnecting what was saved ----------

  // Lists that can be mapped whole: existing tracks, all sources or none.
  ghost predicate Mappable(ts: seq<Track>, ids: seq<Id>, sources: bool) {
    forall d :: d in ids ==> d < ID_RANGE && Exists(ts, d) && SourceKind(ts[Find(ts, d)].kind) == sources
  }

  lemma MappedSnoc(l: Loading, ids: seq<Id>, last: Id, sources: bool)
    requires last < ID_RANGE && last in l.ids && last in l.kinds && SourceKind(l.kinds[last]) == sources
    ensures Mapped(l, Present(ids + [last]), sources) == Mapped(l, Present(ids), sources) + [l.ids[last]]
  {
    var list := Present(ids + [last]);
    assert list[..|list| - 1] == Present(ids) && list[|list| - 1] == Some(last);
    assert Word(last) == last;
  }

  lemma {:induction false} MappedSaved(l: Loading, ts: seq<Track>, n: Id, ids: seq<Id>, sources: bool)
    requires Knows(l, ts, n, |ts|) && Mappable(ts, ids, sources)
    ensures |Mapped(l, Present(ids), sources)| == |ids|
    ensures forall k: nat :: k < |ids| ==> Mapped(l, Present(ids), sources)[k] == n + Find(ts, ids[k])
  {
    if ids == [] {
      assert Present(ids) == [];
    } else {
      var before, last := ids[..|ids| - 1], ids[|ids| - 1];
      forall d | d in before ensures d in ids {
      }
      MappedSaved(l, ts, n, before, sources);
      assert last in ids;
      assert ts[Find(ts, last)].id == last;
      MappedSnoc(l, before, last, sources);
      assert ids == before + [last];
    }
  }

  lemma MappedElems(l: Loading, ts: seq<Track>, n: Id, ids: seq<Id>, sources: bool)
    requires Knows(l, ts, n, |ts|) && Mappable(ts, ids, sources) && IdsUnique(ts)
    ensures forall x: Id :: x in Mapped(l, Present(ids), sources) <==> n <= x < n + |ts| && ts[x - n].id in ids
  {
    var list := Mapped(l, Present(ids), sources);
    MappedSaved(l, ts, n, ids, sources);
    forall x: Id ensures x in list <==> n <= x < n + |ts| && ts[x - n].id in ids {
      if n <= x < n + |ts| && ts[x - n].id in ids {
        var k :| 0 <= k < |ids| && ids[k] == ts[x - n].id;
        FindUnique(ts, x - n);
        assert list[k] == x;
      }
    }
  }

  // The list, sorted without repeats, is the given one.
  predicate Becomes(list: seq<Id>, sorted: seq<Id>) {
    Unique(Sort(list)) == sorted
  }

  lemma BecomesImage(ts: seq<Track>, n: Id, ids: seq<Id>, list: seq<Id>)
    requires forall x: Id :: x in list <==> n <= x < n + |ts| && ts[x - n].id in ids
    ensures Becomes(list, Image(ts, n, ids, |ts|))
  {
    SortUnique(list);
    ImageStrict(ts, n, ids, |ts|);
    forall x: Id ensures x in Unique(Sort(list)) <==> x in Image(ts, n, ids, |ts|) {
      ImageElems(ts, n, ids, |ts|, x);
    }
    StrictDetermined(Unique(Sort(list)), Image(ts, n, ids, |ts|));
  }

  predicate Unobjected(tracks: seq<Track>, id: Id, ids: seq<Id>, sources: bool) {
    CheckAll(tracks, id, ids, sources).None?
  }

  lemma {:induction false} NothingWrong(tracks: seq<Track>, id: Id, ids: seq<Id>, sources: bool)
    requires forall d :: d in ids ==> (if sources then CheckSource(tracks, id, d) else CheckDest(tracks, id, d)).None?
    ensures Unobjected(tracks, id, ids, sources)
  {
    if ids != [] {
      NothingWrong(tracks, id, ids[..|ids| - 1], sources);
      assert ids[|ids| - 1] in ids;
    }
  }

  lemma DestsMappable(t: Table, k: nat)
    requires Savable(t) && k < |t.tracks|
    ensures Mappable(t.tracks, t.tracks[k].dests, false)
  {
    assert EdgesOk(t.tracks, t.tracks[k]);
  }

  // What a reconnecting command is given for the k-th record.
  lemma RewireRecord(ts: seq<Track>, n: Id, k: nat, l: Loading, t: Table)
    requires k < |ts| && ts[k].id < ID_RANGE && Knows(l, ts, n, |ts|)
    ensures Rewire(t, l, Some(Record(ts, k)), OPEN) == SetDests(t, n + k, Mapped(l, Present(ts[k].dests), false), OPEN)
  {
    assert Word(ts[k].id) == ts[k].id;
  }

  function Fed(ts: seq<Track>, k: nat): seq<Id>
    requires k < |ts|
  {
    if ts[k].kind == FxTrack then Sort(Feeders(ts, ts[k].id, |ts|)) else []
  }

  lemma RefeedRecord(ts: seq<Track>, n: Id, k: nat, l: Loading, t: Table)
    requires k < |ts| && ts[k].id < ID_RANGE && Knows(l, ts, n, |ts|)
    ensures Refeed(t, l, Some(Record(ts, k)), OPEN)
      == SetSidechain(t, n + k, Mapped(l, Present(Fed(ts, k)), true), OPEN)
  {
    assert Word(ts[k].id) == ts[k].id;
  }

  // A dest command turns one list of tracks into the other.
  ghost predicate Routes(before: seq<Track>, after: seq<Track>, id: Id, dests: seq<Id>, next: Id) {
    SetDests(Table(before, next), id, dests, OPEN) == (Table(after, next), None)
  }

  lemma SetDestsGoes(before: seq<Track>, after: seq<Track>, i: nat, id: Id, dests: seq<Id>, next: Id)
    requires i < |before| && Find(before, id) == i && after == Rerouted(before, i, dests)
    requires Unobjected(before, id, dests, false) && !Cyclic(after)
    ensures Routes(before, after, id, dests, next)
  {
  }

  lemma StageKind(ts: seq<Track>, n: Id, kd: nat, ks: nat, j: nat)
    requires j < |ts| && ks <= |ts|
    ensures Exists(Stage(ts, n, kd, ks), n + j)
    ensures Stage(ts, n, kd, ks)[Find(Stage(ts, n, kd, ks), n + j)].kind == ts[j].kind
  {
    StageFind(ts, n, kd, ks, n + j);
    assert Stage(ts, n, kd, ks)[j] == Copy(ts, n, j, j < kd, ks);
  }

  lemma DestsChecked(ts: seq<Track>, n: Id, k: nat, list: seq<Id>)
    requires k < |ts| && IdsUnique(ts) && EdgesOk(ts, ts[k])
    requires forall x :: x in list ==> n <= x < n + |ts| && ts[x - n].id in ts[k].dests
    ensures Unobjected(Stage(ts, n, k, 0), n + k, list, false)
  {
    forall d | d in list ensures CheckDest(Stage(ts, n, k, 0), n + k, d).None? {
      StageKind(ts, n, k, 0, d - n);
      FindUnique(ts, d - n);
    }
    NothingWrong(Stage(ts, n, k, 0), n + k, list, false);
  }

  lemma StageRerouted(ts: seq<Track>, n: Id, k: nat, list: seq<Id>)
    requires k < |ts| && Becomes(list, Image(ts, n, ts[k].dests, |ts|))
    ensures Rerouted(Stage(ts, n, k, 0), k, list) == Stage(ts, n, k + 1, 0)
  {
    var a, b := Rerouted(Stage(ts, n, k, 0), k, list), Stage(ts, n, k + 1, 0);
    forall i: nat | i < |ts| ensures a[i] == b[i] {
      assert b[i] == Copy(ts, n, i, i < k + 1, 0);
      assert Stage(ts, n, k, 0)[i] == Copy(ts, n, i, i < k, 0);
    }
  }

  lemma ListedDestsGo(ts: seq<Track>, n: Id, k: nat, list: seq<Id>, next: Id)
    requires k < |ts| && IdsUnique(ts) && !Cyclic(ts) && EdgesOk(ts, ts[k])
    requires forall x :: x in list ==> n <= x < n + |ts| && ts[x - n].id in ts[k].dests
    requires Becomes(list, Image(ts, n, ts[k].dests, |ts|))
    ensures Routes(Stage(ts, n, k, 0), Stage(ts, n, k + 1, 0), n + k, list, next)
  {
    DestsChecked(ts, n, k, list);
    StageRerouted(ts, n, k, list);
    StageAcyclic(ts, n, k + 1, 0);
    StageFind(ts, n, k, 0, n + k);
    SetDestsGoes(Stage(ts, n, k, 0), Stage(ts, n, k + 1, 0), k, n + k, list, next);
  }

  lemma DestsGo(t: Table, n: Id, k: nat, l: Loading)
    requires Savable(t) && k < |t.tracks| && Knows(l, t.tracks, n, |t.tracks|)
    ensures Routes(Stage(t.tracks, n, k, 0), Stage(t.tracks, n, k + 1, 0), n + k,
                   Mapped(l, Present(t.tracks[k].dests), false), n + |t.tracks|)
  {
    var ts := t.tracks;
    var list := Mapped(l, Present(ts[k].dests), false);
    DestsMappable(t, k);
    MappedElems(l, ts, n, ts[k].dests, false);
    BecomesImage(ts, n, ts[k].dests, list);
    assert EdgesOk(ts, ts[k]);
    ListedDestsGo(ts, n, k, list, n + |ts|);
  }

  // The k-th dest command of a load is accepted and gives track k its edges.
  lemma RewireNext(t: Table, n: Id, k: nat, l: Loading)
    requires Savable(t) && k < |t.tracks| && Knows(l, t.tracks, n, |t.tracks|)
    ensures Rewire(Table(Stage(t.tracks, n, k, 0), n + |t.tracks|), l, Some(Record(t.tracks, k)), OPEN)
            == (Table(Stage(t.tracks, n, k + 1, 0), n + |t.tracks|), None)
  {
    RewireRecord(t.tracks, n, k, l, Table(Stage(t.tracks, n, k, 0), n + |t.tracks|));
    DestsGo(t, n, k, l);
  }

  lemma {:induction false} RewireSaved(t: Table, n: Id, k: nat, l: Loading)
    requires Savable(t) && k <= |t.tracks| && Knows(l, t.tracks, n, |t.tracks|)
    ensures RewireAll(Table(Stage(t.tracks, n, 0, 0), n + |t.tracks|), l, Records(t.tracks)[..k], OPEN)
            == Table(Stage(t.tracks, n, k, 0), n + |t.tracks|)
  {
    var records := Records(t.tracks);
    if k > 0 {
      RewireSaved(t, n, k - 1, l);
      assert records[..k][..k - 1] == records[..k - 1];
      RewireNext(t, n, k - 1, l);
    }
  }

  lemma {:induction false} FeedersElems(ts: seq<Track>, id: Id, k: nat, x: Id)
    requires k <= |ts|
    ensures x in Feeders(ts, id, k) <==> exists j: nat :: j < k && ts[j].id == x && id in ts[j].sidechainDests
  {
    if k > 0 {
      FeedersElems(ts, id, k - 1, x);
    }
  }

  lemma FeedersMappable(t: Table, k: nat)
    requires Savable(t) && k < |t.tracks|
    ensures Mappable(t.tracks, Sort(Feeders(t.tracks, t.tracks[k].id, |t.tracks|)), true)
    ensures forall j: nat :: j < |t.tracks| ==>
      (t.tracks[j].id in Sort(Feeders(t.tracks, t.tracks[k].id, |t.tracks|)) <==>
        t.tracks[k].id in t.tracks[j].sidechainDests)
  {
    var ts, id := t.tracks, t.tracks[k].id;
    var list := Feeders(ts, id, |ts|);
    forall d | d in Sort(list) ensures d < ID_RANGE && Exists(ts, d) && SourceKind(ts[Find(ts, d)].kind) {
      SortElems(list, d);
      FeedersElems(ts, id, |ts|, d);
      var j: nat :| j < |ts| && ts[j].id == d && id in ts[j].sidechainDests;
      FindUnique(ts, j);
      assert EdgesOk(ts, ts[j]);
    }
    forall j: nat | j < |ts| ensures ts[j].id in Sort(list) <==> id in ts[j].sidechainDests {
      SortElems(list, ts[j].id);
      FeedersElems(ts, id, |ts|, ts[j].id);
      if i: nat :| i < |ts| && ts[i].id == ts[j].id && id in ts[i].sidechainDests {
        assert i == j;
      }
    }
  }

  lemma {:induction false} SortAppend(s: seq<Id>, x: Id)
    requires Strict(s) && forall y :: y in s ==> y < x
    ensures Sort(s + [x]) == s + [x]
  {
    var all := s + [x];
    forall i: nat, j: nat | i < j < |all| ensures all[i] < all[j] {
      assert all[i] == s[i] && s[i] in s;
    }
    SortStrict(all);
    forall y: Id ensures y in Sort(s + [x]) <==> y in s + [x] {
      SortElems(s + [x], y);
    }
    StrictDetermined(Sort(s + [x]), s + [x]);
  }

  lemma FeedingGrows(track: Track, id: Id, sources: seq<Id>)
    requires Strict(track.sidechainDests) && forall y :: y in track.sidechainDests ==> y < id
    ensures Feeding(track, id, sources) == track.sidechainDests + if track.id in sources then [id] else []
  {
    WithoutAbsent(track.sidechainDests, id);
    SortAppend(track.sidechainDests, id);
  }

  lemma FeedingImage(track: Track, ts: seq<Track>, n: Id, ids: seq<Id>, k: nat, sources: seq<Id>)
    requires k < |ts| && track.sidechainDests == Image(ts, n, ids, k) && (track.id in sources <==> ts[k].id in ids)
    ensures Feeding(track, n + k, sources) == Image(ts, n, ids, k + 1)
  {
    ImageStrict(ts, n, ids, k);
    ImageBelow(ts, n, ids, k);
    ImageNext(ts, n, ids, k);
    FeedingGrows(track, n + k, sources);
  }

  // Feeding track i to the k-th FX track extends its image by one place.
  lemma FeedingNext(ts: seq<Track>, n: Id, i: nat, k: nat, sources: seq<Id>)
    requires i < |ts| && k < |ts|
    requires n + i in sources <==> ts[k].id in ts[i].sidechainDests
    ensures Feeding(Copy(ts, n, i, true, k), n + k, sources) == Image(ts, n, ts[i].sidechainDests, k + 1)
  {
    FeedingImage(Copy(ts, n, i, true, k), ts, n, ts[i].sidechainDests, k, sources);
  }

  lemma ImageNext(ts: seq<Track>, n: Id, ids: seq<Id>, k: nat)
    requires k < |ts|
    ensures Image(ts, n, ids, k + 1) == Image(ts, n, ids, k) + if ts[k].id in ids then [n + k] else []
  {
  }

  lemma {:induction false} ImageBelow(ts: seq<Track>, n: Id, ids: seq<Id>, k: nat)
    requires k <= |ts|
    ensures forall y :: y in Image(ts, n, ids, k) ==> y < n + k
  {
    if k > 0 {
      ImageBelow(ts, n, ids, k - 1);
      ImageNext(ts, n, ids, k - 1);
    }
  }

  lemma StageTransposed(ts: seq<Track>, n: Id, k: nat, list: seq<Id>)
    requires k < |ts| && forall i: nat :: i < |ts| ==> (n + i in list <==> ts[k].id in ts[i].sidechainDests)
    ensures Transposed(Stage(ts, n, |ts|, k), n + k, list) == Stage(ts, n, |ts|, k + 1)
  {
    var a, b := Transposed(Stage(ts, n, |ts|, k), n + k, list), Stage(ts, n, |ts|, k + 1);
    SortUnique(list);
    forall i: nat | i < |ts| ensures a[i] == b[i] {
      FeedingNext(ts, n, i, k, Unique(Sort(list)));
      assert b[i] == Copy(ts, n, i, true, k + 1);
      assert Stage(ts, n, |ts|, k)[i] == Copy(ts, n, i, true, k);
    }
  }

  lemma SourcesChecked(ts: seq<Track>, n: Id, k: nat, list: seq<Id>)
    requires k < |ts| && ts[k].kind == FxTrack
    requires forall x :: x in list ==> n <= x < n + |ts| && SourceKind(ts[x - n].kind)
    ensures Unobjected(Stage(ts, n, |ts|, k), n + k, list, true)
  {
    forall s | s in list ensures CheckSource(Stage(ts, n, |ts|, k), n + k, s).None? {
      StageKind(ts, n, |ts|, k, s - n);
    }
    NothingWrong(Stage(ts, n, |ts|, k), n + k, list, true);
  }

  // A sidechain command turns one list of tracks into the other.
  ghost predicate Fills(before: seq<Track>, after: seq<Track>, id: Id, sources: seq<Id>, next: Id, refused: bool) {
    SetSidechain(Table(before, next), id, sources, OPEN)
      == (Table(after, next), if refused then Some(BadCommand) else None)
  }

  lemma SetSidechainGoes(before: seq<Track>, after: seq<Track>, i: nat, id: Id, sources: seq<Id>, next: Id)
    requires i < |before| && Find(before, id) == i && before[i].kind == FxTrack
    requires after == Transposed(before, id, sources)
    requires Unobjected(before, id, sources, true) && !Cyclic(after)
    ensures Fills(before, after, id, sources, next, false)
  {
  }

  lemma SetSidechainRefused(before: seq<Track>, i: nat, id: Id, sources: seq<Id>, next: Id)
    requires i < |before| && Find(before, id) == i && before[i].kind != FxTrack
    ensures Fills(before, before, id, sources, next, true)
  {
  }

  // Nothing feeds a track that is no FX track.
  lemma NoFeed(t: Table, n: Id, k: nat)
    requires Savable(t) && k < |t.tracks| && t.tracks[k].kind != FxTrack
    ensures Stage(t.tracks, n, |t.tracks|, k + 1) == Stage(t.tracks, n, |t.tracks|, k)
  {
    var ts := t.tracks;
    forall i: nat | i < |ts| ensures Copy(ts, n, i, true, k + 1) == Copy(ts, n, i, true, k) {
      assert EdgesOk(ts, ts[i]);
      FindUnique(ts, k);
    }
  }

  lemma FeedersMapped(t: Table, n: Id, k: nat, l: Loading)
    requires Savable(t) && k < |t.tracks| && Knows(l, t.tracks, n, |t.tracks|)
    ensures var list := Mapped(l, Present(Sort(Feeders(t.tracks, t.tracks[k].id, |t.tracks|))), true);
      && (forall x :: x in list ==> n <= x < n + |t.tracks| && SourceKind(t.tracks[x - n].kind))
      && (forall i: nat :: i < |t.tracks| ==> (n + i in list <==> t.tracks[k].id in t.tracks[i].sidechainDests))
  {
    var ts := t.tracks;
    var feeders := Sort(Feeders(ts, ts[k].id, |ts|));
    FeedersMappable(t, k);
    MappedElems(l, ts, n, feeders, true);
    forall x | x in Mapped(l, Present(feeders), true) ensures SourceKind(ts[x - n].kind) {
      FindUnique(ts, x - n);
    }
  }

  lemma ListedFeedGoes(ts: seq<Track>, n: Id, k: nat, list: seq<Id>, next: Id)
    requires k < |ts| && IdsUnique(ts) && !Cyclic(ts) && ts[k].kind == FxTrack
    requires forall x :: x in list ==> n <= x < n + |ts| && SourceKind(ts[x - n].kind)
    requires forall i: nat :: i < |ts| ==> (n + i in list <==> ts[k].id in ts[i].sidechainDests)
    ensures Fills(Stage(ts, n, |ts|, k), Stage(ts, n, |ts|, k + 1), n + k, list, next, false)
  {
    SourcesChecked(ts, n, k, list);
    StageTransposed(ts, n, k, list);
    StageAcyclic(ts, n, |ts|, k + 1);
    StageKind(ts, n, |ts|, k, k);
    StageFind(ts, n, |ts|, k, n + k);
    SetSidechainGoes(Stage(ts, n, |ts|, k), Stage(ts, n, |ts|, k + 1), k, n + k, list, next);
  }

  lemma FxFed(t: Table, n: Id, k: nat, l: Loading)
    requires Savable(t) && k < |t.tracks| && Knows(l, t.tracks, n, |t.tracks|) && t.tracks[k].kind == FxTrack
    ensures Fills(Stage(t.tracks, n, |t.tracks|, k), Stage(t.tracks, n, |t.tracks|, k + 1), n + k,
                  Mapped(l, Present(Fed(t.tracks, k)), true), n + |t.tracks|, false)
  {
    FeedersMapped(t, n, k, l);
    ListedFeedGoes(t.tracks, n, k, Mapped(l, Present(Fed(t.tracks, k)), true), n + |t.tracks|);
  }

  lemma OtherFed(t: Table, n: Id, k: nat, list: seq<Id>)
    requires Savable(t) && k < |t.tracks| && t.tracks[k].kind != FxTrack
    ensures Fills(Stage(t.tracks, n, |t.tracks|, k), Stage(t.tracks, n, |t.tracks|, k + 1), n + k, list,
                  n + |t.tracks|, true)
  {
    var ts := t.tracks;
    NoFeed(t, n, k);
    StageKind(ts, n, |ts|, k, k);
    StageFind(ts, n, |ts|, k, n + k);
    SetSidechainRefused(Stage(ts, n, |ts|, k), k, n + k, list, n + |ts|);
  }

  // The k-th sidechain command of a load: an FX track gets its feeders, other tracks are refused and
  // have none.
  lemma RefeedNext(t: Table, n: Id, k: nat, l: Loading)
    requires Savable(t) && k < |t.tracks| && Knows(l, t.tracks, n, |t.tracks|)
    ensures Refeed(Table(Stage(t.tracks, n, |t.tracks|, k), n + |t.tracks|), l, Some(Record(t.tracks, k)), OPEN)
            == (Table(Stage(t.tracks, n, |t.tracks|, k + 1), n + |t.tracks|),
                if t.tracks[k].kind == FxTrack then None else Some(BadCommand))
  {
    var ts := t.tracks;
    var list := Mapped(l, Present(Fed(ts, k)), true);
    RefeedRecord(ts, n, k, l, Table(Stage(ts, n, |ts|, k), n + |ts|));
    if ts[k].kind == FxTrack {
      FxFed(t, n, k, l);
    } else {
      OtherFed(t, n, k, list);
    }
    assert Fills(Stage(ts, n, |ts|, k), Stage(ts, n, |ts|, k + 1), n + k, list, n + |ts|, ts[k].kind != FxTrack);
  }

  lemma {:induction false} RefeedSaved(t: Table, n: Id, k: nat, l: Loading)
    requires Savable(t) && k <= |t.tracks| && Knows(l, t.tracks, n, |t.tracks|)
    ensures RefeedAll(Table(Stage(t.tracks, n, |t.tracks|, 0), n + |t.tracks|), l, Records(t.tracks)[..k], OPEN)
            == Table(Stage(t.tracks, n, |t.tracks|, k), n + |t.tracks|)
  {
    var records := Records(t.tracks);
    if k > 0 {
      RefeedSaved(t, n, k - 1, l);
      assert records[..k][..k - 1] == records[..k - 1];
      RefeedNext(t, n, k - 1, l);
    }
  }

  // ---------- the round trip ----------

  // The saved table under ids from n on.
  function Renamed(ts: seq<Track>, n: Id): seq<Track> {
    Stage(ts, n, |ts|, |ts|)
  }

  lemma RenamedAt(ts: seq<Track>, n: Id, i: nat)
    requires i < |ts|
    ensures Renamed(ts, n)[i] == Copy(ts, n, i, true, |ts|)
  {
  }

  lemma RenamedHolder(ts: seq<Track>, n: Id, role: SystemRole, h: Id)
    requires IdsUnique(ts) && HolderIs(ts, role, h)
    ensures HolderIs(Renamed(ts, n), role, n + Find(ts, h))
  {
    var at, new_ := Find(ts, h), Renamed(ts, n);
    StageFind(ts, n, |ts|, |ts|, n + at);
    forall i: nat | i < |new_| ensures new_[i].role == role <==> new_[i].id == n + at {
      RenamedAt(ts, n, i);
      FindUnique(ts, i);
      assert ts[i].role == role <==> ts[i].id == h;
    }
  }

  // What a load comes to, pass by pass.
  lemma LoadedBy(u: Table, records: seq<Option<FileTrack>>, l: Loading, wired: Table, fed: Table)
    requires |records| <= MAX_TRACKS && l == RebuildAll(Table([], u.nextId), SESSION_VERSION, records, OPEN)
    requires wired == RewireAll(l.table, l, records, OPEN) && fed == RefeedAll(wired, l, records, OPEN)
    requires EnsureSystemOutputs(fed) == fed
    ensures Loaded(u, File(Some(SESSION_VERSION), Some(records)), OPEN) == (fed, None)
  {
  }

  lemma RebuildWhole(t: Table, n: Id)
    requires Savable(t) && n + |t.tracks| + 2 < ID_RANGE
    ensures var l := RebuildAll(Table([], n), SESSION_VERSION, Records(t.tracks), OPEN);
      l.table == Table(Stage(t.tracks, n, 0, 0), n + |t.tracks|) && Knows(l, t.tracks, n, |t.tracks|)
  {
    assert Records(t.tracks)[..|t.tracks|] == Records(t.tracks);
    assert Stage(t.tracks, n, 0, 0)[..|t.tracks|] == Stage(t.tracks, n, 0, 0);
    RebuildSaved(t, n, |t.tracks|);
  }

  lemma RewireWhole(t: Table, n: Id, l: Loading)
    requires Savable(t) && Knows(l, t.tracks, n, |t.tracks|)
    ensures RewireAll(Table(Stage(t.tracks, n, 0, 0), n + |t.tracks|), l, Records(t.tracks), OPEN)
            == Table(Stage(t.tracks, n, |t.tracks|, 0), n + |t.tracks|)
  {
    assert Records(t.tracks)[..|t.tracks|] == Records(t.tracks);
    RewireSaved(t, n, |t.tracks|, l);
  }

  lemma RefeedWhole(t: Table, n: Id, l: Loading)
    requires Savable(t) && Knows(l, t.tracks, n, |t.tracks|)
    ensures RefeedAll(Table(Stage(t.tracks, n, |t.tracks|, 0), n + |t.tracks|), l, Records(t.tracks), OPEN)
            == Table(Renamed(t.tracks, n), n + |t.tracks|)
  {
    assert Records(t.tracks)[..|t.tracks|] == Records(t.tracks);
    RefeedSaved(t, n, |t.tracks|, l);
  }

  lemma SavedPasses(t: Table, n: Id) returns (l: Loading, wired: Table, fed: Table)
    requires Savable(t) && n + |t.tracks| + 2 < ID_RANGE
    ensures l == RebuildAll(Table([], n), SESSION_VERSION, Records(t.tracks), OPEN)
    ensures wired == RewireAll(l.table, l, Records(t.tracks), OPEN)
    ensures fed == RefeedAll(wired, l, Records(t.tracks), OPEN)
    ensures fed == Table(Renamed(t.tracks, n), n + |t.tracks|)
  {
    RebuildWhole(t, n);
    l := RebuildAll(Table([], n), SESSION_VERSION, Records(t.tracks), OPEN);
    wired := RewireAll(l.table, l, Records(t.tracks), OPEN);
    fed := RefeedAll(wired, l, Records(t.tracks), OPEN);
    RewireWhole(t, n, l);
    RefeedWhole(t, n, l);
  }

  lemma PassesKeep(n: Id, records: seq<Option<FileTrack>>, l: Loading, wired: Table, fed: Table)
    requires n + |records| < ID_RANGE && l == RebuildAll(Table([], n), SESSION_VERSION, records, OPEN)
    requires wired == RewireAll(l.table, l, records, OPEN) && fed == RefeedAll(wired, l, records, OPEN)
    ensures Inv(fed)
  {
    EmptyOk(n);
    RebuildAllKeeps(Table([], n), SESSION_VERSION, records, OPEN);
    RewireAllKeeps(l.table, l, records, OPEN);
    RefeedAllKeeps(wired, l, records, OPEN);
  }

  lemma RenamedSettled(ts: seq<Track>, n: Id, monitor: Id, stream: Id)
    requires Inv(Table(Renamed(ts, n), n + |ts|)) && IdsUnique(ts)
    requires HolderIs(ts, MonitorRole, monitor) && HolderIs(ts, StreamRole, stream)
    ensures EnsureSystemOutputs(Table(Renamed(ts, n), n + |ts|)) == Table(Renamed(ts, n), n + |ts|)
  {
    var done := Table(Renamed(ts, n), n + |ts|);
    RenamedHolder(ts, n, MonitorRole, monitor);
    RenamedHolder(ts, n, StreamRole, stream);
    EnsureSameRole(done, MonitorRole, n + Find(ts, monitor));
    EnsureSameRole(done, StreamRole, n + Find(ts, stream));
  }

  lemma SavedLoads(t: Table, u: Table, monitor: Id, stream: Id)
    requires Savable(t) && HolderIs(t.tracks, MonitorRole, monitor) && HolderIs(t.tracks, StreamRole, stream)
    requires u.nextId + |t.tracks| + 2 < ID_RANGE
    ensures Loaded(u, Serialized(t.tracks), OPEN) == (Table(Renamed(t.tracks, u.nextId), u.nextId + |t.tracks|), None)
  {
    var l, wired, fed := SavedPasses(t, u.nextId);
    PassesKeep(u.nextId, Records(t.tracks), l, wired, fed);
    RenamedSettled(t.tracks, u.nextId, monitor, stream);
    LoadedBy(u, Records(t.tracks), l, wired, fed);
  }

  lemma LargeRefused(tracks: seq<Track>, u: Table)
    requires |tracks| > MAX_TRACKS
    ensures Loaded(u, Serialized(tracks), OPEN) == (u, Some(TooManyTracks))
  {
  }

  // Loading a saved table gives it back under new ids if it has at most 128 tracks, and is refused
  // otherwise. No dest command and no sidechain command of an FX track is refused on the way
  // (RewireNext, RefeedNext).
  lemma RoundTrip(t: Table, u: Table, monitor: Id, stream: Id)
    requires Inv(t) && t.nextId <= ID_RANGE
    requires HolderIs(t.tracks, MonitorRole, monitor) && HolderIs(t.tracks, StreamRole, stream)
    requires u.nextId + |t.tracks| + 2 < ID_RANGE
    ensures Loaded(u, Serialized(t.tracks), OPEN) ==
      if |t.tracks| <= MAX_TRACKS then (Table(Renamed(t.tracks, u.nextId), u.nextId + |t.tracks|), None)
      else (u, Some(TooManyTracks))
  {
    if |t.tracks| <= MAX_TRACKS {
      SavedLoads(t, u, monitor, stream);
    } else {
      LargeRefused(t.tracks, u);
    }
  }

  // ---------- a table that is saved but not loaded ----------

  function Adds(n: nat): seq<Command> {
    if n == 0 then [] else Adds(n - 1) + [AddTrack(FxTrack, 0)]
  }

  predicate AllPlainFx(tracks: seq<Track>) {
    forall i: nat :: i < |tracks| ==> tracks[i].kind == FxTrack && tracks[i].role == NoRole
  }

  lemma AddPlainFx(t: Table)
    requires |t.tracks| < MAX_TRACKS && t.nextId + 1 < ID_RANGE && AllPlainFx(t.tracks)
    ensures var u := Apply(t, AddTrack(FxTrack, 0));
      |u.tracks| == |t.tracks| + 1 && u.nextId == t.nextId + 1 && AllPlainFx(u.tracks)
  {
  }

  lemma {:induction false} AddsGrow(n: nat)
    requires n <= MAX_TRACKS
    ensures |Adds(n)| == n
    ensures var t := After(Adds(n)); |t.tracks| == n && t.nextId == n + 1 && AllPlainFx(t.tracks)
  {
    if n > 0 {
      AddsGrow(n - 1);
      AfterOne(Adds(n - 1), AddTrack(FxTrack, 0));
      AddPlainFx(After(Adds(n - 1)));
    }
  }

  // Without outputs or roles, both system outputs are created.
  lemma OutputsCreated(t: Table)
    requires AllPlainFx(t.tracks) && t.nextId + 2 < ID_RANGE
    ensures |EnsureSystemOutputs(t).tracks| == |t.tracks| + 2
  {
    assert FreeOutput(t.tracks) == |t.tracks|;
    var u := EnsureRole(t, MonitorRole);
    assert u.tracks == t.tracks + [NewOutput(t.nextId, MonitorRole)];
    assert u.tracks[|t.tracks|].role == MonitorRole;
    assert forall i: nat :: i < |t.tracks| ==> u.tracks[i] == t.tracks[i];
    assert FreeOutput(u.tracks) == |u.tracks|;
  }

  // The limit of 128 tracks can be passed by the system outputs: 128 added tracks and the two of them
  // make a valid table that is saved and refused when loaded.
  lemma TooManyToLoad(u: Table) returns (cs: seq<Command>)
    requires u.nextId + MAX_TRACKS + 4 < ID_RANGE
    ensures FewIds(cs) && Inv(After(cs)) && |After(cs).tracks| == MAX_TRACKS + 2
    ensures exists monitor, stream ::
      HolderIs(After(cs).tracks, MonitorRole, monitor) && HolderIs(After(cs).tracks, StreamRole, stream)
    ensures Loaded(u, Serialized(After(cs).tracks), OPEN) == (u, Some(TooManyTracks))
  {
    cs := Adds(MAX_TRACKS) + [EnsureOutputs];
    AddsGrow(MAX_TRACKS);
    var full := After(Adds(MAX_TRACKS));
    AfterOne(Adds(MAX_TRACKS), EnsureOutputs);
    OutputsCreated(full);
    FewCommands(cs);
    CommandsKeepInvariant(Adds(MAX_TRACKS));
    CommandsKeepInvariant(cs);
    var monitor, stream := EnsureOutputsExactlyOne(full);
    RoundTrip(After(cs), u, monitor, stream);
  }

  lemma RenamedLists(ts: seq<Track>, n: Id, i: nat)
    requires i < |ts|
    ensures Renamed(ts, n)[i].id == n + i
    ensures Renamed(ts, n)[i].dests == Image(ts, n, ts[i].dests, |ts|)
    ensures Renamed(ts, n)[i].sidechainDests == Image(ts, n, ts[i].sidechainDests, |ts|)
  {
    RenamedAt(ts, n, i);
  }

  // The edge from i to j is kept, of either kind.
  lemma RenamedEdges(ts: seq<Track>, n: Id, i: nat, j: nat)
    requires i < |ts| && j < |ts|
    ensures Renamed(ts, n)[j].id in Renamed(ts, n)[i].dests <==> ts[j].id in ts[i].dests
    ensures Renamed(ts, n)[j].id in Renamed(ts, n)[i].sidechainDests <==> ts[j].id in ts[i].sidechainDests
  {
    RenamedLists(ts, n, i);
    RenamedLists(ts, n, j);
    ImageElems(ts, n, ts[i].dests, |ts|, n + j);
    ImageElems(ts, n, ts[i].sidechainDests, |ts|, n + j);
  }

  // The renamed table is isomorphic to the saved one: same tracks in the same order with the same
  // edges between them, and the same settings but for the color black.
  lemma RenamedIsomorphic(ts: seq<Track>, n: Id, i: nat, j: nat)
    requires i < |ts| && j < |ts|
    ensures var was, now := ts[i], Renamed(ts, n)[i];
      && now == was.(id := n + i, color := now.color, dests := now.dests, sidechainDests := now.sidechainDests)
      && (now.color == was.color <==> was.color != 0)
      && (Renamed(ts, n)[j].id in now.dests <==> ts[j].id in was.dests)
      && (Renamed(ts, n)[j].id in now.sidechainDests <==> ts[j].id in was.sidechainDests)
  {
    RenamedAt(ts, n, i);
    RenamedEdges(ts, n, i, j);
    PaletteNotBlack(n + i);
  }

  lemma PaletteNotBlack(id: Id)
    ensures PaletteColor(id) != 0
  {
    var k := (id + ID_RANGE - 1) % ID_RANGE % 8;
    assert k == 0 || k == 1 || k == 2 || k == 3 || k == 4 || k == 5 || k == 6 || k == 7;
  }

  // The processing graph by index is the same graph.
  lemma RenamedSameGraph(ts: seq<Track>, n: Id, i: nat, j: nat)
    requires IdsUnique(ts) && i < |ts| && j < |ts|
    ensures Edge(Succ(Nodes(Renamed(ts, n))), i, j) <==> Edge(Succ(Nodes(ts)), i, j)
  {
    StageAt(ts, n, |ts|, |ts|);
    SuccEdge(Nodes(ts), i, j);
    SuccEdge(Nodes(Renamed(ts, n)), i, j);
    RenamedEdges(ts, n, i, j);
  }
}
