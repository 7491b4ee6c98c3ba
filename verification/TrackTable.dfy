/** The control-plane track table (track commands of engine/src/audio_engine.cpp). */
module TrackTable {
  import opened Words
  import opened Wrappers
  import opened GraphTopo
  import opened PdcPlanner
  import opened SortedLists

  // Each command is a function from a table to a table and an error, and a method of the engine that
  // carries it out in place, rolling its edits back when a later check fails. The system outputs are
  // ensured as in engine/src/track_graph.cpp.

  const MAX_TRACKS := 128
  const ID_RANGE := 0x1_0000_0000
  const COLOR_RANGE := 0x100_0000

  datatype TrackKind = AudioTrack | AppTrack | FxTrack | OutputTrack

  datatype SystemRole = NoRole | MonitorRole | StreamRole

  datatype Track = Track(
    id: Id, kind: TrackKind, role: SystemRole, policy: OutputLatencyPolicy, color: nat, gain: real, mute: bool,
    dests: seq<Id>, sidechainDests: seq<Id>)

  datatype Table = Table(tracks: seq<Track>, nextId: Id)

  datatype Error = BadCommand | TrackNotFound | CycleDetected | PluginStateFailed

  // A gain as a command gives it; infinities and not-a-number are refused.
  datatype Gain = Finite(value: real) | NotFinite

  // Whether the monitor variants could be prepared and the new graph could be published.
  datatype Gates = Gates(prepared: bool, committed: bool)

  predicate SourceKind(kind: TrackKind) {
    kind == AudioTrack || kind == AppTrack
  }

  function RolePolicy(role: SystemRole): OutputLatencyPolicy {
    if role == MonitorRole then LowLatency else FullPdc
  }

  // ---------- lookup and graph ----------

  function FindFrom(tracks: seq<Track>, id: Id, k: nat): (i: nat)
    requires k <= |tracks|
    ensures k <= i <= |tracks|
    ensures i < |tracks| ==> tracks[i].id == id
    ensures forall j :: k <= j < i ==> tracks[j].id != id
    decreases |tracks| - k
  {
    if k == |tracks| || tracks[k].id == id then k else FindFrom(tracks, id, k + 1)
  }

  // The position of the first track with an id, or the number of tracks.
  function Find(tracks: seq<Track>, id: Id): (i: nat)
    ensures i <= |tracks|
    ensures i < |tracks| ==> tracks[i].id == id
    ensures forall j :: 0 <= j < i ==> tracks[j].id != id
  {
    FindFrom(tracks, id, 0)
  }

  predicate Exists(tracks: seq<Track>, id: Id) {
    Find(tracks, id) < |tracks|
  }

  function Nodes(tracks: seq<Track>): seq<TopoNode> {
    seq(|tracks|, i requires 0 <= i < |tracks| => TopoNode(tracks[i].id, tracks[i].dests, tracks[i].sidechainDests))
  }

  predicate IdsUnique(tracks: seq<Track>) {
    forall i: nat, j: nat :: i < j < |tracks| ==> tracks[i].id != tracks[j].id
  }

  predicate Linked(t: Track, b: Id) {
    b in t.dests || b in t.sidechainDests
  }

  predicate IdEdge(tracks: seq<Track>, a: Id, b: Id) {
    Exists(tracks, a) && Exists(tracks, b) && Linked(tracks[Find(tracks, a)], b)
  }

  predicate IdStep(tracks: seq<Track>, p: seq<Id>, k: nat) {
    k + 1 < |p| && IdEdge(tracks, p[k], p[k + 1])
  }

  predicate IdPath(tracks: seq<Track>, p: seq<Id>) {
    |p| > 0 && forall k: nat :: k < |p| - 1 ==> IdStep(tracks, p, k)
  }

  ghost predicate IdCycle(tracks: seq<Track>, p: seq<Id>) {
    IdPath(tracks, p) && |p| > 1 && p[0] == p[|p| - 1]
  }

  // Some track leads back to itself over dest and sidechain edges.
  ghost predicate Cyclic(tracks: seq<Track>) {
    exists p: seq<Id> :: IdCycle(tracks, p)
  }

  lemma FindUnique(tracks: seq<Track>, i: nat)
    requires IdsUnique(tracks) && i < |tracks|
    ensures Find(tracks, tracks[i].id) == i
  {
  }

  lemma EdgeIds(tracks: seq<Track>, u: nat, v: nat)
    requires IdsUnique(tracks) && u < |tracks| && v < |tracks|
    ensures Edge(Succ(Nodes(tracks)), u, v) <==> IdEdge(tracks, tracks[u].id, tracks[v].id)
  {
    SuccEdge(Nodes(tracks), u, v);
    FindUnique(tracks, u);
    FindUnique(tracks, v);
  }

  lemma CycleToIds(tracks: seq<Track>)
    requires IdsUnique(tracks) && HasCycle(Succ(Nodes(tracks)))
    ensures Cyclic(tracks)
  {
    var g := Succ(Nodes(tracks));
    var p: seq<nat> :| IsPath(g, p) && |p| > 1 && p[0] == p[|p| - 1];
    forall k: nat | k < |p| ensures p[k] < |tracks| {
      if k < |p| - 1 {
        assert Edge(g, p[k], p[k + 1]);
      }
    }
    var q := seq(|p|, k requires 0 <= k < |p| => tracks[p[k]].id);
    forall k: nat | k < |q| - 1 ensures IdStep(tracks, q, k) {
      assert Edge(g, p[k], p[k + 1]);
      EdgeIds(tracks, p[k], p[k + 1]);
    }
    assert IdCycle(tracks, q);
  }

  lemma CycleFromIds(tracks: seq<Track>, q: seq<Id>)
    requires IdsUnique(tracks) && IdCycle(tracks, q)
    ensures HasCycle(Succ(Nodes(tracks)))
  {
    var g := Succ(Nodes(tracks));
    forall k: nat | k < |q| ensures Exists(tracks, q[k]) {
      assert IdStep(tracks, q, if k < |q| - 1 then k else k - 1);
    }
    var p := seq(|q|, k requires 0 <= k < |q| => Find(tracks, q[k]));
    forall k: nat | k < |p| - 1 ensures Edge(g, p[k], p[k + 1]) {
      assert IdStep(tracks, q, k);
      EdgeIds(tracks, p[k], p[k + 1]);
    }
    assert IsPath(g, p);
  }

  // The processing graph has a cycle exactly when the table has one.
  lemma CyclicGraph(tracks: seq<Track>)
    requires IdsUnique(tracks)
    ensures Cyclic(tracks) <==> HasCycle(Succ(Nodes(tracks)))
  {
    if HasCycle(Succ(Nodes(tracks))) {
      CycleToIds(tracks);
    }
    if Cyclic(tracks) {
      var q :| IdCycle(tracks, q);
      CycleFromIds(tracks, q);
    }
  }

  // ---------- commands ----------

  const PALETTE: seq<nat> := [0x4da3ff, 0x3ddc84, 0xffb454, 0xff5c5c, 0xb48cff, 0x4dd0e1, 0xf06292, 0xaed581]

  // (id - 1) % 8 in 32-bit arithmetic.
  function PaletteColor(id: Id): nat {
    PALETTE[(id + ID_RANGE - 1) % ID_RANGE % 8]
  }

  function NewTrack(id: Id, kind: TrackKind, color: nat): Track {
    Track(id, kind, NoRole, FullPdc, if color == 0 then PaletteColor(id) else color % COLOR_RANGE, 1.0, false, [], [])
  }

  function Add(t: Table, kind: TrackKind, color: nat): (Table, Option<Error>) {
    if |t.tracks| >= MAX_TRACKS then (t, Some(BadCommand))
    else (Table(t.tracks + [NewTrack(t.nextId, kind, color)], (t.nextId + 1) % ID_RANGE), None)
  }

  function Forget(track: Track, id: Id): Track {
    track.(dests := Without(track.dests, id), sidechainDests := Without(track.sidechainDests, id))
  }

  function Removed(tracks: seq<Track>, i: nat): seq<Track>
    requires i < |tracks|
  {
    var rest := tracks[..i] + tracks[i + 1..];
    seq(|rest|, k requires 0 <= k < |rest| => Forget(rest[k], tracks[i].id))
  }

  function Remove(t: Table, id: Id): (Table, Option<Error>) {
    var i := Find(t.tracks, id);
    if i == |t.tracks| then (t, Some(TrackNotFound))
    else if t.tracks[i].role != NoRole then (t, Some(TrackNotFound))
    else (t.(tracks := Removed(t.tracks, i)), None)
  }

  function GainOk(gain: Option<Gain>): bool {
    gain.None? || (gain.value.Finite? && 0.0 <= gain.value.value <= 4.0)
  }

  // The color is stored before the gain is checked.
  function Set(t: Table, id: Id, color: Option<nat>, gain: Option<Gain>, mute: Option<bool>): (Table, Option<Error>) {
    var i := Find(t.tracks, id);
    if i == |t.tracks| then (t, Some(BadCommand))
    else
      var track := t.tracks[i];
      var painted := if color.Some? then track.(color := color.value % COLOR_RANGE) else track;
      if !GainOk(gain) then (t.(tracks := t.tracks[i := painted]), Some(BadCommand))
      else
        var done := painted.(gain := if gain.Some? then gain.value.value else track.gain,
                            mute := if mute.Some? then mute.value else track.mute);
        (t.(tracks := t.tracks[i := done]), None)
  }

  function SetPolicy(t: Table, id: Id, policy: OutputLatencyPolicy, gates: Gates): (Table, Option<Error>) {
    var i := Find(t.tracks, id);
    if i == |t.tracks| || t.tracks[i].kind != OutputTrack then (t, Some(BadCommand))
    else if t.tracks[i].policy == policy then (t, None)
    else if !gates.prepared || !gates.committed then (t, Some(BadCommand))
    else (t.(tracks := t.tracks[i := t.tracks[i].(policy := policy)]), None)
  }

  function CheckDest(tracks: seq<Track>, id: Id, d: Id): Option<Error> {
    if d == id then Some(BadCommand)
    else if !Exists(tracks, d) then Some(TrackNotFound)
    else if SourceKind(tracks[Find(tracks, d)].kind) then Some(BadCommand)
    else None
  }

  function CheckSource(tracks: seq<Track>, id: Id, s: Id): Option<Error> {
    if s == id then Some(BadCommand)
    else if !Exists(tracks, s) then Some(TrackNotFound)
    else if !SourceKind(tracks[Find(tracks, s)].kind) then Some(BadCommand)
    else None
  }

  // The first complaint about a list of ids.
  function CheckAll(tracks: seq<Track>, id: Id, ids: seq<Id>, sources: bool): Option<Error> {
    if ids == [] then None
    else
      match CheckAll(tracks, id, ids[..|ids| - 1], sources)
      case Some(e) => Some(e)
      case None =>
        var last := ids[|ids| - 1];
        if sources then CheckSource(tracks, id, last) else CheckDest(tracks, id, last)
  }

  // A candidate table is taken if it has no cycle and passes both gates.
  ghost function Commit(t: Table, candidate: seq<Track>, gates: Gates): (Table, Option<Error>) {
    if Cyclic(candidate) then (t, Some(CycleDetected))
    else if !gates.prepared then (t, Some(PluginStateFailed))
    else if !gates.committed then (t, Some(BadCommand))
    else (t.(tracks := candidate), None)
  }

  ghost function SetDests(t: Table, id: Id, dests: seq<Id>, gates: Gates): (Table, Option<Error>) {
    var i := Find(t.tracks, id);
    if i == |t.tracks| then (t, Some(TrackNotFound))
    else
      var e := CheckAll(t.tracks, id, dests, false);
      if e.Some? then (t, e)
      else Commit(t, t.tracks[i := t.tracks[i].(dests := Unique(Sort(dests)))], gates)
  }

  // The outgoing sidechain edges of a track once exactly `sources` feed `id`.
  function Feeding(track: Track, id: Id, sources: seq<Id>): seq<Id> {
    var others := Without(track.sidechainDests, id);
    if track.id in sources then Sort(others + [id]) else others
  }

  function Transposed(tracks: seq<Track>, id: Id, sources: seq<Id>): seq<Track> {
    seq(|tracks|, k requires 0 <= k < |tracks| =>
      tracks[k].(sidechainDests := Feeding(tracks[k], id, Unique(Sort(sources)))))
  }

  function Feeds(tracks: seq<Track>, id: Id, sources: seq<Id>): seq<seq<Id>> {
    seq(|tracks|, k requires 0 <= k < |tracks| => Feeding(tracks[k], id, sources))
  }

  function Swapped(tracks: seq<Track>, lists: seq<seq<Id>>): seq<Track>
    requires |lists| == |tracks|
  {
    seq(|tracks|, k requires 0 <= k < |tracks| => tracks[k].(sidechainDests := lists[k]))
  }

  function Sidechains(tracks: seq<Track>): seq<seq<Id>> {
    seq(|tracks|, k requires 0 <= k < |tracks| => tracks[k].sidechainDests)
  }

  lemma SwapBack(tracks: seq<Track>, lists: seq<seq<Id>>)
    requires |lists| == |tracks|
    ensures Swapped(Swapped(tracks, lists), Sidechains(tracks)) == tracks
  {
  }

  lemma SwappedFeeds(tracks: seq<Track>, id: Id, sources: seq<Id>, lists: seq<seq<Id>>)
    requires lists == Feeds(tracks, id, Unique(Sort(sources)))
    ensures Swapped(tracks, lists) == Transposed(tracks, id, sources)
  {
  }

  ghost function SetSidechain(t: Table, id: Id, sources: seq<Id>, gates: Gates): (Table, Option<Error>) {
    var i := Find(t.tracks, id);
    if i == |t.tracks| then (t, Some(TrackNotFound))
    else if t.tracks[i].kind != FxTrack then (t, Some(BadCommand))
    else
      var e := CheckAll(t.tracks, id, sources, true);
      if e.Some? then (t, e) else Commit(t, Transposed(t.tracks, id, sources), gates)
  }

  function Moved(tracks: seq<Track>, i: nat, newIndex: nat): seq<Track>
    requires i < |tracks|
  {
    var rest := tracks[..i] + tracks[i + 1..];
    var pos := Min(newIndex, |rest|);
    rest[..pos] + [tracks[i]] + rest[pos..]
  }

  function Move(t: Table, id: Id, newIndex: nat): (Table, Option<Error>) {
    var i := Find(t.tracks, id);
    if i == |t.tracks| then (t, Some(BadCommand))
    else if i == newIndex then (t, None)
    else (t.(tracks := Moved(t.tracks, i, newIndex)), None)
  }

  function WithRole(track: Track, role: SystemRole): Track {
    track.(role := role, policy := RolePolicy(role))
  }

  function SetRole(t: Table, id: Id, role: SystemRole): Table {
    var i := Find(t.tracks, id);
    if i == |t.tracks| then t else t.(tracks := t.tracks[i := WithRole(t.tracks[i], role)])
  }

  // ---------- system outputs ----------

  predicate HasRole(tracks: seq<Track>, role: SystemRole) {
    exists i :: 0 <= i < |tracks| && tracks[i].role == role
  }

  // All holders of a role but the first lose it.
  function Demoted(tracks: seq<Track>, role: SystemRole): seq<Track> {
    seq(|tracks|, i requires 0 <= i < |tracks| =>
      if tracks[i].role == role && HasRole(tracks[..i], role) then WithRole(tracks[i], NoRole) else tracks[i])
  }

  // The first output track without a role, or the number of tracks.
  function FreeOutput(tracks: seq<Track>): (i: nat)
    ensures i <= |tracks|
    ensures i < |tracks| ==> tracks[i].kind == OutputTrack && tracks[i].role == NoRole
    ensures forall j :: 0 <= j < i ==> !(tracks[j].kind == OutputTrack && tracks[j].role == NoRole)
  {
    if tracks == [] then 0
    else if tracks[0].kind == OutputTrack && tracks[0].role == NoRole then 0
    else
      var i := FreeOutput(tracks[1..]);
      assert forall j :: 0 < j <= i ==> tracks[j] == tracks[1..][j - 1];
      i + 1
  }

  function NewOutput(id: Id, role: SystemRole): Track {
    WithRole(NewTrack(id, OutputTrack, 0), role)
  }

  function EnsureRole(t: Table, role: SystemRole): Table {
    if HasRole(t.tracks, role) then t.(tracks := Demoted(t.tracks, role))
    else
      var i := FreeOutput(t.tracks);
      if i < |t.tracks| then t.(tracks := t.tracks[i := WithRole(t.tracks[i], role)])
      else Table(t.tracks + [NewOutput(t.nextId, role)], (t.nextId + 1) % ID_RANGE)
  }

  function EnsureSystemOutputs(t: Table): Table {
    EnsureRole(EnsureRole(t, MonitorRole), StreamRole)
  }

  // ---------- the engine ----------

  class AudioEngine {
    var tracks: seq<Track>
    var nextId: Id

    function Now(): Table
      reads this
    {
      Table(tracks, nextId)
    }

    constructor ()
      ensures Now() == Table([], 1)
    {
      tracks, nextId := [], 1;
    }

    method HasRoutingCycle() returns (cyclic: bool)
      requires IdsUnique(tracks)
      ensures cyclic == Cyclic(tracks)
    {
      CyclicGraph(tracks);
      cyclic := GraphHasCycle(Nodes(tracks));
    }

    method FindTrack(id: Id) returns (i: nat)
      ensures i == Find(tracks, id)
    {
      i := 0;
      while i < |tracks| && tracks[i].id != id
        invariant i <= |tracks| && forall j :: 0 <= j < i ==> tracks[j].id != id
      {
        i := i + 1;
      }
    }

    method TrackAdd(kind: TrackKind, color: nat) returns (e: Option<Error>, id: Id)
      modifies this
      ensures (Now(), e) == Add(old(Now()), kind, color)
      ensures e.None? ==> id == old(nextId)
    {
      if |tracks| >= MAX_TRACKS {
        return Some(BadCommand), 0;
      }
      id := nextId;
      nextId := (nextId + 1) % ID_RANGE;
      tracks := tracks + [NewTrack(id, kind, color)];
      e := None;
    }

    method TrackRemove(id: Id) returns (e: Option<Error>)
      modifies this
      ensures (Now(), e) == Remove(old(Now()), id)
    {
      var i := FindTrack(id);
      if i == |tracks| || tracks[i].role != NoRole {
        return Some(TrackNotFound);
      }
      tracks := tracks[..i] + tracks[i + 1..];
      ghost var rest := tracks;
      for k := 0 to |tracks|
        invariant nextId == old(nextId) && |tracks| == |rest|
        invariant forall j :: 0 <= j < |rest| ==> tracks[j] == if j < k then Forget(rest[j], id) else rest[j]
      {
        tracks := tracks[k := tracks[k].(dests := Without(tracks[k].dests, id))];
        tracks := tracks[k := tracks[k].(sidechainDests := Without(tracks[k].sidechainDests, id))];
      }
      assert tracks == Removed(old(tracks), i);
      e := None;
    }

    method TrackSet(id: Id, color: Option<nat>, gain: Option<Gain>, mute: Option<bool>) returns (e: Option<Error>)
      modifies this
      ensures (Now(), e) == Set(old(Now()), id, color, gain, mute)
    {
      var i := FindTrack(id);
      if i == |tracks| {
        return Some(BadCommand);
      }
      ghost var was, track := tracks, tracks[i];
      if color.Some? {
        tracks := tracks[i := tracks[i].(color := color.value % COLOR_RANGE)];
      }
      ghost var painted := tracks[i];
      assert tracks == was[i := painted];
      if gain.Some? {
        if gain.value.NotFinite? || gain.value.value < 0.0 || gain.value.value > 4.0 {
          return Some(BadCommand);
        }
        tracks := tracks[i := tracks[i].(gain := gain.value.value)];
      }
      if mute.Some? {
        tracks := tracks[i := tracks[i].(mute := mute.value)];
      }
      assert tracks == was[i := tracks[i]];
      e := None;
    }

    method TrackSetOutputLatencyPolicy(id: Id, policy: OutputLatencyPolicy, gates: Gates) returns (e: Option<Error>)
      modifies this
      ensures (Now(), e) == SetPolicy(old(Now()), id, policy, gates)
    {
      var i := FindTrack(id);
      if i == |tracks| || tracks[i].kind != OutputTrack {
        return Some(BadCommand);
      }
      if tracks[i].policy == policy {
        return None;
      }
      var previous := tracks[i].policy;
      tracks := tracks[i := tracks[i].(policy := policy)];
      if !gates.prepared || !gates.committed {
        tracks := tracks[i := tracks[i].(policy := previous)];
        assert tracks == old(tracks);
        return Some(BadCommand);
      }
      e := None;
    }

    method CheckIds(id: Id, ids: seq<Id>, sources: bool) returns (e: Option<Error>)
      ensures e == CheckAll(tracks, id, ids, sources)
    {
      for k := 0 to |ids|
        invariant CheckAll(tracks, id, ids[..k], sources).None?
      {
        assert ids[..k + 1][..k] == ids[..k];
        e := if sources then CheckSource(tracks, id, ids[k]) else CheckDest(tracks, id, ids[k]);
        if e.Some? {
          CheckStuck(tracks, id, ids, sources, k + 1);
          return;
        }
      }
      assert ids[..|ids|] == ids;
      e := None;
    }

    method TrackSetDests(id: Id, dests: seq<Id>, gates: Gates) returns (e: Option<Error>)
      requires IdsUnique(tracks)
      modifies this
      ensures (Now(), e) == SetDests(old(Now()), id, dests, gates)
    {
      var i := FindTrack(id);
      if i == |tracks| {
        return Some(TrackNotFound);
      }
      e := CheckIds(id, dests, false);
      if e.Some? {
        return;
      }
      var kept := tracks[i].dests;
      tracks := tracks[i := tracks[i].(dests := Unique(Sort(dests)))];
      var cyclic := HasRoutingCycle();
      if cyclic {
        tracks := tracks[i := tracks[i].(dests := kept)];
        assert tracks == old(tracks);
        return Some(CycleDetected);
      }
      if !gates.prepared {
        tracks := tracks[i := tracks[i].(dests := kept)];
        assert tracks == old(tracks);
        return Some(PluginStateFailed);
      }
      if !gates.committed {
        tracks := tracks[i := tracks[i].(dests := kept)];
        assert tracks == old(tracks);
        return Some(BadCommand);
      }
      e := None;
    }

    // Exchanges the sidechain lists of all tracks with the given ones.
    method SwapSidechains(lists: seq<seq<Id>>) returns (previous: seq<seq<Id>>)
      requires |lists| == |tracks|
      modifies this`tracks
      ensures tracks == Swapped(old(tracks), lists) && previous == Sidechains(old(tracks))
    {
      previous := lists;
      for k := 0 to |tracks|
        invariant |tracks| == |old(tracks)| == |previous|
        invariant forall j :: k <= j < |tracks| ==> tracks[j] == old(tracks)[j] && previous[j] == lists[j]
        invariant forall j :: 0 <= j < k ==>
          tracks[j] == old(tracks)[j].(sidechainDests := lists[j]) && previous[j] == old(tracks)[j].sidechainDests
      {
        var mine := tracks[k].sidechainDests;
        tracks := tracks[k := tracks[k].(sidechainDests := previous[k])];
        previous := previous[k := mine];
      }
    }

    method BuildFeeds(id: Id, sources: seq<Id>) returns (lists: seq<seq<Id>>)
      ensures lists == Feeds(tracks, id, sources)
    {
      lists := [];
      for k := 0 to |tracks|
        invariant |lists| == k
        invariant forall j :: 0 <= j < k ==> lists[j] == Feeding(tracks[j], id, sources)
      {
        var dests := Without(tracks[k].sidechainDests, id);
        if tracks[k].id in sources {
          dests := Sort(dests + [id]);
        }
        lists := lists + [dests];
      }
    }

    // Puts candidate lists in place, and takes them back if they do not stand.
    method CommitSidechains(lists0: seq<seq<Id>>, gates: Gates) returns (e: Option<Error>)
      requires IdsUnique(tracks) && |lists0| == |tracks|
      modifies this`tracks
      ensures (Now(), e) == Commit(old(Now()), Swapped(old(tracks), lists0), gates)
    {
      SwapBack(tracks, lists0);
      var previous := SwapSidechains(lists0);
      var cyclic := HasRoutingCycle();
      if cyclic || !gates.prepared || !gates.committed {
        previous := SwapSidechains(previous);
        return Some(if cyclic then CycleDetected else if !gates.prepared then PluginStateFailed else BadCommand);
      }
      e := None;
    }

    method TrackSetSidechain(id: Id, sources: seq<Id>, gates: Gates) returns (e: Option<Error>)
      requires IdsUnique(tracks)
      modifies this
      ensures (Now(), e) == SetSidechain(old(Now()), id, sources, gates)
    {
      var i := FindTrack(id);
      if i == |tracks| {
        return Some(TrackNotFound);
      }
      if tracks[i].kind != FxTrack {
        return Some(BadCommand);
      }
      e := CheckIds(id, sources, true);
      if e.Some? {
        return;
      }
      var lists := BuildFeeds(id, Unique(Sort(sources)));
      SwappedFeeds(tracks, id, sources, lists);
      e := CommitSidechains(lists, gates);
    }

    method TrackMove(id: Id, newIndex: nat) returns (e: Option<Error>)
      modifies this
      ensures (Now(), e) == Move(old(Now()), id, newIndex)
    {
      var cur := FindTrack(id);
      if cur == |tracks| {
        return Some(BadCommand);
      }
      if cur == newIndex {
        return None;
      }
      var moved := tracks[cur];
      tracks := tracks[..cur] + tracks[cur + 1..];
      var pos := Min(newIndex, |tracks|);
      tracks := tracks[..pos] + [moved] + tracks[pos..];
      e := None;
    }

    method SetTrackSystemRole(id: Id, role: SystemRole)
      modifies this
      ensures Now() == SetRole(old(Now()), id, role)
    {
      var i := FindTrack(id);
      if i < |tracks| {
        tracks := tracks[i := tracks[i].(role := role, policy := if role == MonitorRole then LowLatency else FullPdc)];
      }
    }

    // Demotes later holders of the role; `seen` says whether there is one.
    method KeepFirst(role: SystemRole) returns (seen: bool, changed: bool)
      requires role != NoRole
      modifies this`tracks
      ensures tracks == Demoted(old(tracks), role) && seen == HasRole(old(tracks), role)
      ensures changed == (tracks != old(tracks))
    {
      seen, changed := false, false;
      for i := 0 to |tracks|
        invariant |tracks| == |old(tracks)| && seen == HasRole(old(tracks)[..i], role)
        invariant forall j :: 0 <= j < |tracks| ==>
          tracks[j] == if j < i then Demoted(old(tracks), role)[j] else old(tracks)[j]
        invariant changed == (tracks != old(tracks))
      {
        assert tracks[i] == old(tracks)[i];
        RoleNext(old(tracks), role, i);
        if tracks[i].role == role {
          if seen {
            tracks := tracks[i := tracks[i].(role := NoRole, policy := FullPdc)];
            changed := true;
            assert tracks[i].role != old(tracks)[i].role;
          }
          seen := true;
        }
      }
      assert old(tracks)[..|old(tracks)|] == old(tracks);
    }

    method EnsureOne(role: SystemRole) returns (changed: bool)
      requires role != NoRole
      modifies this
      ensures Now() == EnsureRole(old(Now()), role) && changed == (Now() != old(Now()))
    {
      var seen;
      seen, changed := KeepFirst(role);
      if seen {
        return;
      }
      NothingDemoted(old(tracks), role);
      var i := 0;
      while i < |tracks| && !(tracks[i].kind == OutputTrack && tracks[i].role == NoRole)
        invariant i <= |tracks| && tracks == old(tracks)
        invariant forall j :: 0 <= j < i ==> !(tracks[j].kind == OutputTrack && tracks[j].role == NoRole)
      {
        i := i + 1;
      }
      assert i == FreeOutput(tracks);
      if i < |tracks| {
        tracks := tracks[i := WithRole(tracks[i], role)];
        assert tracks[i].role != old(tracks)[i].role;
      } else {
        tracks := tracks + [NewOutput(nextId, role)];
        nextId := (nextId + 1) % ID_RANGE;
      }
      changed := true;
    }

    method EnsureOutputs() returns (changed: bool)
      modifies this
      ensures Now() == EnsureSystemOutputs(old(Now())) && changed == (Now() != old(Now()))
    {
      NothingUndone(Now());
      changed := EnsureOne(MonitorRole);
      var again := EnsureOne(StreamRole);
      changed := changed || again;
    }

    method ClearAllTracks()
      modifies this
      ensures Now() == Table([], old(nextId))
    {
      tracks := [];
    }
  }

  lemma {:induction false} CheckStuck(tracks: seq<Track>, id: Id, ids: seq<Id>, sources: bool, k: nat)
    requires k <= |ids| && CheckAll(tracks, id, ids[..k], sources).Some?
    ensures CheckAll(tracks, id, ids, sources) == CheckAll(tracks, id, ids[..k], sources)
  {
    if k == |ids| {
      assert ids[..k] == ids;
    } else {
      assert ids[..|ids| - 1][..k] == ids[..k];
      CheckStuck(tracks, id, ids[..|ids| - 1], sources, k);
    }
  }

  lemma RoleNext(tracks: seq<Track>, role: SystemRole, i: nat)
    requires i < |tracks|
    ensures HasRole(tracks[..i + 1], role) == (HasRole(tracks[..i], role) || tracks[i].role == role)
  {
    assert tracks[..i + 1] == tracks[..i] + [tracks[i]];
    if tracks[i].role == role {
      assert tracks[..i + 1][i].role == role;
    }
    if j :| 0 <= j < i && tracks[j].role == role {
      assert tracks[..i + 1][j].role == role && tracks[..i][j].role == role;
    }
  }

  // What is done for the monitor output is not undone for the stream output.
  lemma NothingUndone(t: Table)
    ensures EnsureRole(t, MonitorRole) != t ==> EnsureSystemOutputs(t) != t
  {
    var u := EnsureRole(t, MonitorRole);
    if |u.tracks| == |t.tracks| && u != t {
      var k :| 0 <= k < |t.tracks| && u.tracks[k] != t.tracks[k];
      assert u.tracks[k].role != t.tracks[k].role;
      assert EnsureRole(u, StreamRole).tracks[k].role != t.tracks[k].role;
    }
  }

  lemma NothingDemoted(tracks: seq<Track>, role: SystemRole)
    requires !HasRole(tracks, role)
    ensures Demoted(tracks, role) == tracks
  {
  }
}
