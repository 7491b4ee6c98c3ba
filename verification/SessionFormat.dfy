/** What a load makes of each record of a file. */
module SessionFormat {
  import opened Wrappers
  import opened GraphTopo
  import opened PdcPlanner
  import opened TrackTable
  import opened CommandOutcomes
  import opened Session
  import opened SessionTheorems

  // For any file: its names, numbers and version written out, and the tracks a load leaves.

  // ---------- the words of a file ----------

  // What is written for a kind, a role and a policy.
  lemma NamesSaved(tracks: seq<Track>, i: nat)
    requires i < |tracks|
    ensures var t, r := tracks[i], Record(tracks, i);
      && r.kind == Some(match t.kind case AudioTrack => "audio" case AppTrack => "app" case FxTrack => "fx"
                                     case OutputTrack => "output")
      && r.role == (match t.role case NoRole => None case MonitorRole => Some("monitor")
                                 case StreamRole => Some("stream"))
      && r.policy == Some(match t.policy case LowLatency => "lowLatency" case FullPdc => "fullPdc")
  {
  }

  // A file is refused for a missing version, one that is not 2, 3 or 4, or more than 128 tracks.
  lemma FileRefused(t: Table, file: File, gates: Gates)
    ensures var e := Loaded(t, file, gates).1;
      && (e == Some(NotASession) <==> file.version.None?)
      && (file.version.Some? && -0x8000_0000 <= file.version.value < 0x8000_0000 ==>
        && (e == Some(UnsupportedVersion) <==> !(2 <= file.version.value <= 4))
        && (e == Some(TooManyTracks) <==>
          2 <= file.version.value <= 4 && file.tracks.Some? && |file.tracks.value| > 128))
  {
    if file.version.Some? {
      NarrowTurns(file.version.value, 0);
    }
  }

  // ---------- one record ----------

  // The track made of a record: its kind, role and color, an output's policy from version 3 on while
  // the gates are open, and gain and mute when both are there and the gain is in range.
  predicate Remade(x: Track, id: Id, version: int, r: FileTrack, gates: Gates)
    requires r.kind.Some?
  {
    && x.id == id
    && (x.kind == AppTrack <==> r.kind.value == "app")
    && (x.kind == FxTrack <==> r.kind.value == "fx")
    && (x.kind == OutputTrack <==> r.kind.value == "output")
    && (x.role == MonitorRole <==> r.role == Some("monitor"))
    && (x.role == StreamRole <==> r.role == Some("stream"))
    && x.policy == PolicyOf(x, version, r, gates)
    && x.color == ColorOf(id, r)
    && (if r.gain.Some? && r.mute.Some? && r.gain.value.Finite? && 0.0 <= r.gain.value.value <= 4.0
        then x.gain == r.gain.value.value && x.mute == r.mute.value
        else x.gain == 1.0 && !x.mute)
  }

  function PolicyOf(x: Track, version: int, r: FileTrack, gates: Gates): OutputLatencyPolicy {
    if version >= 3 && x.kind == OutputTrack && r.policy.Some? && gates.prepared && gates.committed
    then if r.policy.value == "lowLatency" then LowLatency else FullPdc
    else if x.role == MonitorRole then LowLatency else FullPdc
  }

  // A color of zero, or none, asks for one of the eight of the palette in turn.
  function ColorOf(id: Id, r: FileTrack): nat {
    if r.color.Some? && r.color.value % 0x1_0000_0000 != 0 then r.color.value % 0x1_0000_0000 % 0x1000000
    else [0x4da3ff, 0x3ddc84, 0xffb454, 0xff5c5c, 0xb48cff, 0x4dd0e1, 0xf06292, 0xaed581][(id + 7) % 8]
  }

  predicate NewId(pre: seq<Track>, id: Id) {
    forall j: nat :: j < |pre| ==> pre[j].id != id
  }

  lemma PolicySetLast(pre: seq<Track>, x: Track, next: Id, policy: OutputLatencyPolicy, gates: Gates)
    requires NewId(pre, x.id)
    ensures SetPolicy(Table(pre + [x], next), x.id, policy, gates).0 ==
      Table(pre + [if x.kind == OutputTrack && gates.prepared && gates.committed then x.(policy := policy) else x],
            next)
  {
    FindLast(pre, x);
    var y := x.(policy := policy);
    assert (pre + [x])[|pre| := y] == pre + [y];
  }

  lemma GainSetLast(pre: seq<Track>, x: Track, next: Id, gain: Gain, mute: bool)
    requires NewId(pre, x.id)
    ensures Set(Table(pre + [x], next), x.id, None, Some(gain), Some(mute)).0 ==
      Table(pre + [if gain.Finite? && 0.0 <= gain.value <= 4.0 then x.(gain := gain.value, mute := mute) else x], next)
  {
    FindLast(pre, x);
    assert (pre + [x])[|pre| := x] == pre + [x];
    if gain.Finite? {
      var y := x.(gain := gain.value, mute := mute);
      assert (pre + [x])[|pre| := y] == pre + [y];
    }
  }

  function WithRoleOf(x: Track, r: FileTrack): Track {
    if r.role.Some? then WithRole(x, RoleFrom(r.role.value)) else x
  }

  function WithPolicyOf(x: Track, version: int, r: FileTrack, gates: Gates): Track {
    if version >= 3 && r.policy.Some? && x.kind == OutputTrack && gates.prepared && gates.committed
    then x.(policy := PolicyFrom(r.policy.value)) else x
  }

  function WithGainOf(x: Track, r: FileTrack): Track {
    if r.gain.Some? && r.mute.Some? && r.gain.value.Finite? && 0.0 <= r.gain.value.value <= 4.0
    then x.(gain := r.gain.value.value, mute := r.mute.value) else x
  }

  lemma RecordRestored(pre: seq<Track>, x: Track, next: Id, version: int, r: FileTrack, gates: Gates)
    requires NewId(pre, x.id)
    ensures Restored(Table(pre + [x], next), x.id, version, r, gates) ==
      Table(pre + [WithGainOf(WithPolicyOf(WithRoleOf(x, r), version, r, gates), r)], next)
  {
    var y := WithRoleOf(x, r);
    var z := WithPolicyOf(y, version, r, gates);
    if r.role.Some? {
      SetRoleLast(pre, x, next, RoleFrom(r.role.value));
    }
    if version >= 3 && r.policy.Some? {
      PolicySetLast(pre, y, next, PolicyFrom(r.policy.value), gates);
    }
    if r.gain.Some? && r.mute.Some? {
      GainSetLast(pre, z, next, r.gain.value, r.mute.value);
    }
  }

  lemma FreshRemade(x: Track, version: int, r: FileTrack, gates: Gates)
    requires r.kind.Some?
    requires Fresh(x, x.id, KindFrom(r.kind.value), if r.color.Some? then Word(r.color.value) else 0)
    ensures var y := WithGainOf(WithPolicyOf(WithRoleOf(x, r), version, r, gates), r);
      Remade(y, x.id, version, r, gates) && y.dests == [] && y.sidechainDests == []
  {
  }

  // ---------- all records ----------

  // A record with a kind; others are skipped.
  predicate Good(record: Option<FileTrack>) {
    record.Some? && record.value.kind.Some?
  }

  // How many of the first k records are good.
  function GoodBefore(records: seq<Option<FileTrack>>, k: nat): (n: nat)
    requires k <= |records|
    ensures n <= k
  {
    if k == 0 then 0 else GoodBefore(records, k - 1) + if Good(records[k - 1]) then 1 else 0
  }

  lemma {:induction false} GoodPrefix(records: seq<Option<FileTrack>>, n: nat, k: nat)
    requires k <= n <= |records|
    ensures GoodBefore(records[..n], k) == GoodBefore(records, k)
  {
    if k > 0 {
      GoodPrefix(records, n, k - 1);
    }
  }

  // The record names its track by the number w.
  predicate Names(record: Option<FileTrack>, w: Id) {
    Good(record) && record.value.trackId.Some? && record.value.trackId.value % 0x1_0000_0000 == w
  }

  // The table after the first pass: one track for each good record, in order and with the next ids, and
  // each number stands for the last record that names it.
  ghost predicate Rebuilt(l: Loading, first: Id, version: int, records: seq<Option<FileTrack>>, gates: Gates) {
    && |l.table.tracks| == GoodBefore(records, |records|) && l.table.nextId == first + |l.table.tracks|
    && (forall i: nat :: i < |l.table.tracks| ==> l.table.tracks[i].id == first + i)
    && (forall k: nat :: k < |records| && Good(records[k]) ==> TrackMade(l, first, version, records, k, gates))
    && l.ids.Keys == l.kinds.Keys
    && forall w: Id :: w in l.ids ==> exists k: nat :: LastNames(l, first, records, k, w)
  }

  predicate TrackMade(l: Loading, first: Id, version: int, records: seq<Option<FileTrack>>, k: nat, gates: Gates)
    requires k < |records| && Good(records[k])
  {
    var p := GoodBefore(records, k);
    && p < |l.table.tracks| && Remade(l.table.tracks[p], first + p, version, records[k].value, gates)
    && l.table.tracks[p].dests == [] && l.table.tracks[p].sidechainDests == []
    && (records[k].value.trackId.Some? ==> Word(records[k].value.trackId.value) in l.ids)
  }

  // Record k is the last that names w, and w stands for its track.
  ghost predicate LastNames(l: Loading, first: Id, records: seq<Option<FileTrack>>, k: nat, w: Id) {
    && k < |records| && Names(records[k], w) && (forall j: nat :: k < j < |records| ==> !Names(records[j], w))
    && w in l.ids && w in l.kinds && GoodBefore(records, k) < |l.table.tracks|
    && l.ids[w] == first + GoodBefore(records, k) && l.kinds[w] == l.table.tracks[GoodBefore(records, k)].kind
  }

  // The loading with one more track, which the record names.
  function Grown(l: Loading, r: FileTrack, y: Track): Loading {
    Loading(Table(l.table.tracks + [y], l.table.nextId + 1),
            if r.trackId.Some? then l.ids[Word(r.trackId.value) := l.table.nextId] else l.ids,
            if r.trackId.Some? then l.kinds[Word(r.trackId.value) := y.kind] else l.kinds)
  }

  lemma Restoring(l: Loading, x: Track, version: int, r: FileTrack, gates: Gates) returns (y: Track)
    requires r.kind.Some? && NewId(l.table.tracks, x.id) && x.id == l.table.nextId
    requires Fresh(x, x.id, KindFrom(r.kind.value), if r.color.Some? then Word(r.color.value) else 0)
    ensures Remade(y, l.table.nextId, version, r, gates) && y.dests == [] && y.sidechainDests == [] && y.kind == x.kind
    ensures Restored(Table(l.table.tracks + [x], l.table.nextId + 1), x.id, version, r, gates) ==
      Table(l.table.tracks + [y], l.table.nextId + 1)
  {
    RecordRestored(l.table.tracks, x, l.table.nextId + 1, version, r, gates);
    FreshRemade(x, version, r, gates);
    y := WithGainOf(WithPolicyOf(WithRoleOf(x, r), version, r, gates), r);
  }

  lemma AddsFresh(t: Table, kind: TrackKind, color: nat) returns (x: Track)
    requires |t.tracks| < 128 && t.nextId + 1 < ID_RANGE
    ensures Add(t, kind, color) == (Table(t.tracks + [x], t.nextId + 1), None)
    ensures Fresh(x, t.nextId, kind, color)
  {
    AddOutcome(t, kind, color);
    x := NewTrack(t.nextId, kind, color);
    assert Add(t, kind, color).0.tracks[|t.tracks|] == x;
  }

  lemma RebuildIs(l: Loading, version: int, record: Option<FileTrack>, gates: Gates, added: Table, kind: TrackKind)
    requires Good(record) && kind == KindFrom(record.value.kind.value)
    requires Add(l.table, kind, if record.value.color.Some? then Word(record.value.color.value) else 0) == (added, None)
    ensures var r := record.value;
      Rebuild(l, version, record, gates) == Loading(
        Restored(added, l.table.nextId, version, r, gates),
        if r.trackId.Some? then l.ids[Word(r.trackId.value) := l.table.nextId] else l.ids,
        if r.trackId.Some? then l.kinds[Word(r.trackId.value) := kind] else l.kinds)
  {
  }

  // A good record appends its track, while there is room.
  lemma RebuildGrows(l: Loading, version: int, record: Option<FileTrack>, gates: Gates) returns (y: Track)
    requires Good(record) && |l.table.tracks| < 128 && l.table.nextId + 1 < ID_RANGE
    requires NewId(l.table.tracks, l.table.nextId)
    ensures Remade(y, l.table.nextId, version, record.value, gates) && y.dests == [] && y.sidechainDests == []
    ensures Rebuild(l, version, record, gates) == Grown(l, record.value, y)
  {
    var r := record.value;
    var color := if r.color.Some? then Word(r.color.value) else 0;
    var x := AddsFresh(l.table, KindFrom(r.kind.value), color);
    RebuildIs(l, version, record, gates, Table(l.table.tracks + [x], l.table.nextId + 1), x.kind);
    y := Restoring(l, x, version, r, gates);
  }

  // ---------- what a whole load leaves ----------

  lemma TrackMadeStays(l: Loading, y: Track, first: Id, version: int, before: seq<Option<FileTrack>>,
                       record: Option<FileTrack>, k: nat, gates: Gates)
    requires Good(record) && k < |before| && Good(before[k]) && TrackMade(l, first, version, before, k, gates)
    ensures TrackMade(Grown(l, record.value, y), first, version, before + [record], k, gates)
  {
    GoodPrefix(before + [record], |before|, k);
    assert (before + [record])[..|before|] == before;
  }

  lemma LastTrackMade(l: Loading, y: Track, first: Id, version: int, before: seq<Option<FileTrack>>,
                      record: Option<FileTrack>, gates: Gates)
    requires Good(record) && |l.table.tracks| == GoodBefore(before, |before|)
    requires l.table.nextId == first + |l.table.tracks|
    requires Remade(y, l.table.nextId, version, record.value, gates) && y.dests == [] && y.sidechainDests == []
    ensures TrackMade(Grown(l, record.value, y), first, version, before + [record], |before|, gates)
  {
    GoodNext(before, record);
  }

  lemma SkippedStays(l: Loading, first: Id, version: int, before: seq<Option<FileTrack>>,
                     record: Option<FileTrack>, k: nat, gates: Gates)
    requires !Good(record) && k < |before| && Good(before[k]) && TrackMade(l, first, version, before, k, gates)
    ensures TrackMade(l, first, version, before + [record], k, gates)
  {
    GoodPrefix(before + [record], |before|, k);
    assert (before + [record])[..|before|] == before;
  }

  lemma GoodNext(before: seq<Option<FileTrack>>, record: Option<FileTrack>)
    ensures GoodBefore(before + [record], |before|) == GoodBefore(before, |before|)
    ensures GoodBefore(before + [record], |before| + 1) == GoodBefore(before, |before|) + if Good(record) then 1 else 0
  {
    GoodPrefix(before + [record], |before|, |before|);
    assert (before + [record])[..|before|] == before;
  }

  lemma NamesStay(l: Loading, u: Loading, first: Id, before: seq<Option<FileTrack>>, record: Option<FileTrack>,
                  k: nat, w: Id)
    requires LastNames(l, first, before, k, w) && !Names(record, w)
    requires u.ids.Keys >= l.ids.Keys && u.kinds.Keys >= l.kinds.Keys
    requires u.ids[w] == l.ids[w] && u.kinds[w] == l.kinds[w]
    requires l.table.tracks <= u.table.tracks
    ensures LastNames(u, first, before + [record], k, w)
  {
    GoodPrefix(before + [record], |before|, k);
    assert (before + [record])[..|before|] == before;
  }

  lemma RebuiltSkips(l: Loading, first: Id, version: int, before: seq<Option<FileTrack>>, record: Option<FileTrack>,
                     gates: Gates)
    requires Rebuilt(l, first, version, before, gates) && !Good(record)
    ensures Rebuilt(l, first, version, before + [record], gates)
  {
    var all := before + [record];
    GoodNext(before, record);
    forall k: nat | k < |all| && Good(all[k]) ensures TrackMade(l, first, version, all, k, gates) {
      SkippedStays(l, first, version, before, record, k, gates);
    }
    forall w: Id | w in l.ids ensures exists k: nat :: LastNames(l, first, all, k, w) {
      var k: nat :| LastNames(l, first, before, k, w);
      NamesStay(l, l, first, before, record, k, w);
    }
  }

  lemma LastOneNames(l: Loading, first: Id, before: seq<Option<FileTrack>>, record: Option<FileTrack>, y: Track)
    requires Good(record) && record.value.trackId.Some?
    requires |l.table.tracks| == GoodBefore(before, |before|) && l.table.nextId == first + |l.table.tracks|
    ensures LastNames(Grown(l, record.value, y), first, before + [record], |before|, Word(record.value.trackId.value))
  {
    GoodNext(before, record);
  }

  lemma GrownNames(l: Loading, first: Id, before: seq<Option<FileTrack>>, record: Option<FileTrack>, y: Track, w: Id)
    requires Good(record) && l.ids.Keys == l.kinds.Keys && w in Grown(l, record.value, y).ids
    requires |l.table.tracks| == GoodBefore(before, |before|) && l.table.nextId == first + |l.table.tracks|
    requires w in l.ids ==> exists k: nat :: LastNames(l, first, before, k, w)
    ensures exists k: nat :: LastNames(Grown(l, record.value, y), first, before + [record], k, w)
  {
    if Names(record, w) {
      LastOneNames(l, first, before, record, y);
    } else {
      var k: nat :| LastNames(l, first, before, k, w);
      NamesStay(l, Grown(l, record.value, y), first, before, record, k, w);
    }
  }

  lemma RebuiltExtends(l: Loading, first: Id, version: int, before: seq<Option<FileTrack>>,
                       record: Option<FileTrack>, y: Track, gates: Gates)
    requires Rebuilt(l, first, version, before, gates) && Good(record)
    requires Remade(y, l.table.nextId, version, record.value, gates) && y.dests == [] && y.sidechainDests == []
    ensures Rebuilt(Grown(l, record.value, y), first, version, before + [record], gates)
  {
    var all, u := before + [record], Grown(l, record.value, y);
    GoodNext(before, record);
    forall k: nat | k < |all| && Good(all[k]) ensures TrackMade(u, first, version, all, k, gates) {
      if k < |before| {
        TrackMadeStays(l, y, first, version, before, record, k, gates);
      } else {
        LastTrackMade(l, y, first, version, before, record, gates);
      }
    }
    forall w: Id | w in u.ids ensures exists k: nat :: LastNames(u, first, all, k, w) {
      GrownNames(l, first, before, record, y, w);
    }
  }

  // The first pass over any records, on an emptied table.
  lemma {:induction false} RecordsRebuilt(t: Table, version: int, records: seq<Option<FileTrack>>, gates: Gates)
    requires t.tracks == [] && t.nextId + |records| < ID_RANGE && |records| <= 128
    ensures Rebuilt(RebuildAll(t, version, records, gates), t.nextId, version, records, gates)
  {
    if records != [] {
      var before, record := records[..|records| - 1], records[|records| - 1];
      assert before + [record] == records;
      RecordsRebuilt(t, version, before, gates);
      var l := RebuildAll(t, version, before, gates);
      if Good(record) {
        var y := RebuildGrows(l, version, record, gates);
        RebuiltExtends(l, t.nextId, version, before, record, y, gates);
      } else {
        RebuiltSkips(l, t.nextId, version, before, record, gates);
      }
    }
  }

  // Tracks that differ in their edges only.
  predicate RoutesOnly(a: seq<Track>, b: seq<Track>) {
    |b| == |a| && forall k: nat :: k < |a| ==>
      b[k] == a[k].(dests := b[k].dests, sidechainDests := b[k].sidechainDests)
  }

  lemma CommandsRoute(t: Table, id: Id, ids: seq<Id>, gates: Gates)
    ensures RoutesOnly(t.tracks, SetDests(t, id, ids, gates).0.tracks)
    ensures RoutesOnly(t.tracks, SetSidechain(t, id, ids, gates).0.tracks)
  {
  }

  lemma {:induction false} RewireRoutes(t: Table, l: Loading, records: seq<Option<FileTrack>>, gates: Gates)
    ensures RoutesOnly(t.tracks, RewireAll(t, l, records, gates).tracks)
  {
    if records != [] {
      var before, record := RewireAll(t, l, records[..|records| - 1], gates), records[|records| - 1];
      RewireRoutes(t, l, records[..|records| - 1], gates);
      if Reconnects(l, record, false) {
        CommandsRoute(before, l.ids[Word(record.value.trackId.value)], Mapped(l, record.value.dests.value, false),
                      gates);
      }
    }
  }

  lemma {:induction false} RefeedRoutes(t: Table, l: Loading, records: seq<Option<FileTrack>>, gates: Gates)
    ensures RoutesOnly(t.tracks, RefeedAll(t, l, records, gates).tracks)
  {
    if records != [] {
      var before, record := RefeedAll(t, l, records[..|records| - 1], gates), records[|records| - 1];
      RefeedRoutes(t, l, records[..|records| - 1], gates);
      if Reconnects(l, record, true) {
        CommandsRoute(before, l.ids[Word(record.value.trackId.value)], Mapped(l, record.value.sidechain.value, true),
                      gates);
      }
    }
  }

  // The track is as its record made it, but for its edges; and if the system outputs have changed its
  // role, for the role and the policy that goes with it.
  ghost predicate MadeOf(x: Track, id: Id, version: int, r: FileTrack, gates: Gates)
    requires r.kind.Some?
  {
    exists made: Track :: Remade(made, id, version, r, gates)
      && x == made.(role := x.role, policy := x.policy, dests := x.dests, sidechainDests := x.sidechainDests)
      && (x.policy == made.policy || (x.role != made.role && (x.policy == LowLatency <==> x.role == MonitorRole)))
  }

  lemma Settled(made: seq<Track>, wired: seq<Track>, fed: seq<Track>, done: seq<Track>, p: nat, id: Id, version: int,
                r: FileTrack, gates: Gates)
    requires RoutesOnly(made, wired) && RoutesOnly(wired, fed) && RolesWithPolicies(fed, done)
    requires p < |made| && r.kind.Some? && Remade(made[p], id, version, r, gates)
    ensures p < |done| && MadeOf(done[p], id, version, r, gates)
  {
    var x, m, f := done[p], made[p], fed[p];
    assert f == m.(dests := f.dests, sidechainDests := f.sidechainDests);
    assert x == m.(role := x.role, policy := x.policy, dests := x.dests, sidechainDests := x.sidechainDests);
  }

  lemma PassesRoute(l: Loading, records: seq<Option<FileTrack>>, gates: Gates)
    ensures var wired := RewireAll(l.table, l, records, gates);
      var fed := RefeedAll(wired, l, records, gates);
      && RoutesOnly(l.table.tracks, wired.tracks) && RoutesOnly(wired.tracks, fed.tracks)
      && RolesWithPolicies(fed.tracks, EnsureSystemOutputs(fed).tracks)
  {
    var wired := RewireAll(l.table, l, records, gates);
    RewireRoutes(l.table, l, records, gates);
    RefeedRoutes(wired, l, records, gates);
    SystemOutputPolicies(RefeedAll(wired, l, records, gates));
  }

  // The i-th track a load leaves is made of the i-th good record.
  lemma LoadedTracks(t: Table, file: File, gates: Gates, k: nat)
    requires CheckFile(file).None? && file.tracks.Some? && t.nextId + 130 < ID_RANGE
    requires k < |file.tracks.value| && Good(file.tracks.value[k])
    ensures var u, p := Loaded(t, file, gates).0, GoodBefore(file.tracks.value, k);
      p < |u.tracks| &&
      MadeOf(u.tracks[p], t.nextId + p, Narrow(file.version.value), file.tracks.value[k].value, gates)
  {
    var records, version, p := file.tracks.value, Narrow(file.version.value), GoodBefore(file.tracks.value, k);
    RecordsRebuilt(Table([], t.nextId), version, records, gates);
    var l := RebuildAll(Table([], t.nextId), version, records, gates);
    PassesRoute(l, records, gates);
    assert TrackMade(l, t.nextId, version, records, k, gates);
    var wired := RewireAll(l.table, l, records, gates);
    var fed := RefeedAll(wired, l, records, gates);
    Settled(l.table.tracks, wired.tracks, fed.tracks, EnsureSystemOutputs(fed).tracks, p, t.nextId + p, version,
            records[k].value, gates);
  }

  // An output track that still has the role of its record has the policy the record names, in a file of
  // version 3 or 4; a file of version 2 leaves it the policy that goes with the role.
  lemma VersionPolicies(t: Table, file: File, gates: Gates, k: nat)
    requires CheckFile(file).None? && file.tracks.Some? && t.nextId + 130 < ID_RANGE
    requires gates.prepared && gates.committed && 2 <= file.version.value <= 4
    requires k < |file.tracks.value| && Good(file.tracks.value[k]) && file.tracks.value[k].value.kind == Some("output")
    ensures var u, p, r := Loaded(t, file, gates).0, GoodBefore(file.tracks.value, k), file.tracks.value[k].value;
      p < |u.tracks| &&
      ((u.tracks[p].role == MonitorRole <==> r.role == Some("monitor"))
       && (u.tracks[p].role == StreamRole <==> r.role == Some("stream")) ==>
        (u.tracks[p].policy == LowLatency <==>
          if file.version.value >= 3 && r.policy.Some? then r.policy == Some("lowLatency")
          else r.role == Some("monitor")))
  {
    NarrowTurns(file.version.value, 0);
    LoadedTracks(t, file, gates, k);
  }

  // ---------- the ids in a list ----------

  // Entry k of a list stands for the new id x: it is a number that names a track, and the track is an
  // input just when inputs are asked for.
  predicate StandsFor(l: Loading, ids: seq<Option<nat>>, sources: bool, k: nat, x: Id) {
    && k < |ids| && ids[k].Some? && ids[k].value % 0x1_0000_0000 in l.ids
    && l.ids[ids[k].value % 0x1_0000_0000] == x
    && (ids[k].value % 0x1_0000_0000 in l.kinds ==>
      (l.kinds[ids[k].value % 0x1_0000_0000] in {AudioTrack, AppTrack} <==> sources))
  }

  // What a list maps to: just what its entries stand for; the others are dropped.
  lemma {:induction false} MappedExactly(l: Loading, ids: seq<Option<nat>>, sources: bool, x: Id)
    ensures x in Mapped(l, ids, sources) <==> exists k: nat :: StandsFor(l, ids, sources, k, x)
  {
    if ids != [] {
      var n := |ids| - 1;
      MappedExactly(l, ids[..n], sources, x);
      if k: nat :| StandsFor(l, ids[..n], sources, k, x) {
        assert StandsFor(l, ids, sources, k, x);
      }
      if k: nat :| k < n && StandsFor(l, ids, sources, k, x) {
        assert StandsFor(l, ids[..n], sources, k, x);
      }
      assert x in Mapped(l, ids, sources) <==> x in Mapped(l, ids[..n], sources) || StandsFor(l, ids, sources, n, x);
    }
  }
}
