/** The preset container (preset code of engine/src/vst3_host.cpp). */
module Preset {
  import opened Words
  import opened Wrappers
  import opened Bytes

  // A file is a header with a class id, the component, controller and host-parameter chunks, and a chunk
  // list at the end. A double is its 64-bit pattern. What the plugin answers and what the file holds are
  // parameters.

  const PRESET_MAGIC: u32 := 0x33545356
  const PRESET_VERSION: u32 := 1
  const LIST_MAGIC: u32 := 0x7473694C
  const CHUNK_COMP: u32 := 0x706D6F43
  const CHUNK_CONT: u32 := 0x746E6F43
  const CHUNK_CNTC_OLD: u32 := 0x63746E43
  const CHUNK_RMXP: u32 := 0x50786D52
  const HEADER_SIZE := 48
  const MAX_CHUNKS := 64
  const MAX_PRESET_BYTES := 64 * 1024 * 1024

  datatype PresetError =
    | CannotOpen | TooLarge | BadHeader | ClassMismatch | ListCorrupt | ListTooLarge | EntryOutOfRange
    | ChunkOutOfRange | NoComponent

  datatype Range = Range(off: u64, size: u64)

  datatype Layout = Layout(comp: Range, ctrl: Range, rmxp: Range, haveComp: bool)

  const NO_RANGE := Range(0, 0)

  datatype Param = Param(id: u32, value: u64)

  // ---------- class ids ----------

  predicate Separator(c: u8) {
    c == 0x7B || c == 0x7D || c == 0x2D || c == 0x20
  }

  function ToUpper(c: u8): u8 {
    if 0x61 <= c <= 0x7A then c - 0x20 else c
  }

  predicate HexDigit(c: u8) {
    0x30 <= c <= 0x39 || 0x41 <= c <= 0x46 || 0x61 <= c <= 0x66
  }

  function Strip(s: seq<u8>): seq<u8> {
    if s == [] then []
    else Strip(s[..|s| - 1]) + if Separator(s[|s| - 1]) then [] else [ToUpper(s[|s| - 1])]
  }

  // The canonical 32 hex digits of a class id, or nothing.
  function Normalize(s: seq<u8>): seq<u8> {
    var out := Strip(s);
    if |out| == 32 && forall k :: 0 <= k < 32 ==> HexDigit(out[k]) then out else []
  }

  method NormalizeUid(s: seq<u8>) returns (r: seq<u8>)
    ensures r == Normalize(s)
  {
    var out: seq<u8> := [];
    for i := 0 to |s|
      invariant out == Strip(s[..i])
    {
      assert s[..i + 1][..i] == s[..i];
      if !Separator(s[i]) {
        out := out + [ToUpper(s[i])];
      }
    }
    assert s[..|s|] == s;
    if |out| != 32 {
      return [];
    }
    for i := 0 to 32
      invariant forall k :: 0 <= k < i ==> HexDigit(out[k])
    {
      if !HexDigit(out[i]) {
        return [];
      }
    }
    r := out;
  }

  // The characters of a fixed field before its first zero.
  function UntilZero(s: seq<u8>): seq<u8> {
    if s == [] || s[0] == 0 then [] else [s[0]] + UntilZero(s[1..])
  }

  // The first 32 characters of a class id, padded with zeros.
  function UidField(uid: seq<u8>): (s: seq<u8>)
    ensures |s| == 32
  {
    if |uid| >= 32 then uid[..32] else uid + seq(32 - |uid|, _ => 0)
  }

  // ---------- saving ----------

  function ParamBytes(params: seq<Param>): seq<u8> {
    if params == [] then []
    else ParamBytes(params[..|params| - 1]) + U32(params[|params| - 1].id) + U64(params[|params| - 1].value)
  }

  // The host parameter table, absent when empty.
  function RmxpBytes(params: seq<Param>): seq<u8> {
    if params == [] then [] else U32(|params| % 0x1_0000_0000) + ParamBytes(params)
  }

  function EntryBytes(id: u32, r: Range): (s: seq<u8>)
    ensures |s| == 20
  {
    U32(id) + U64(r.off) + U64(r.size)
  }

  // What the plugin and the host give to be saved; no controller state is None.
  datatype Contents = Contents(uid: seq<u8>, comp: seq<u8>, ctrl: Option<seq<u8>>, params: seq<Param>)

  function CtrlBytes(c: Contents): seq<u8> {
    if c.ctrl.Some? then c.ctrl.value else []
  }

  function ListOffset(c: Contents): nat {
    HEADER_SIZE + |c.comp| + |CtrlBytes(c)| + |RmxpBytes(c.params)|
  }

  // The chunk list must start within 64 bits, as any memory block does.
  predicate Fits(c: Contents) {
    ListOffset(c) <= MAX_U64
  }

  function SavedLayout(c: Contents): Layout
    requires Fits(c)
  {
    var ctrlOff := HEADER_SIZE + |c.comp|;
    var rmxpOff := ctrlOff + |CtrlBytes(c)|;
    Layout(Range(HEADER_SIZE, |c.comp|),
           if c.ctrl.Some? then Range(ctrlOff, |CtrlBytes(c)|) else NO_RANGE,
           if c.params != [] then Range(rmxpOff, |RmxpBytes(c.params)|) else NO_RANGE,
           true)
  }

  // The chunk list entries in order.
  function Entries(c: Contents): seq<(u32, Range)>
    requires Fits(c)
  {
    [(CHUNK_COMP, SavedLayout(c).comp)]
    + (if c.ctrl.Some? then [(CHUNK_CONT, SavedLayout(c).ctrl)] else [])
    + (if c.params != [] then [(CHUNK_RMXP, SavedLayout(c).rmxp)] else [])
  }

  function ListBytes(entries: seq<(u32, Range)>): seq<u8> {
    if entries == [] then []
    else ListBytes(entries[..|entries| - 1]) + EntryBytes(entries[|entries| - 1].0, entries[|entries| - 1].1)
  }

  function Saved(c: Contents): seq<u8>
    requires Fits(c)
  {
    U32(PRESET_MAGIC) + U32(PRESET_VERSION) + UidField(c.uid) + U64(ListOffset(c))
    + c.comp + CtrlBytes(c) + RmxpBytes(c.params)
    + U32(LIST_MAGIC) + U32(|Entries(c)|) + ListBytes(Entries(c))
  }

  method PushParams(params: seq<Param>) returns (rmxp: seq<u8>)
    ensures rmxp == RmxpBytes(params)
  {
    rmxp := [];
    if params != [] {
      var count := U32(|params| % 0x1_0000_0000);
      rmxp := count;
      for i := 0 to |params|
        invariant rmxp == count + ParamBytes(params[..i])
      {
        assert params[..i + 1][..i] == params[..i];
        rmxp := rmxp + U32(params[i].id);
        rmxp := rmxp + U64(params[i].value);
      }
      assert params[..|params|] == params;
    }
  }

  method PushEntries(entries: seq<(u32, Range)>) returns (out: seq<u8>)
    ensures out == ListBytes(entries)
  {
    out := [];
    for i := 0 to |entries|
      invariant out == ListBytes(entries[..i])
    {
      assert entries[..i + 1][..i] == entries[..i];
      out := out + EntryBytes(entries[i].0, entries[i].1);
    }
    assert entries[..|entries|] == entries;
  }

  // The chunk list is written entry by entry.
  method PushList(c: Contents, layout: Layout) returns (out: seq<u8>)
    requires Fits(c) && layout == SavedLayout(c)
    ensures out == ListBytes(Entries(c))
  {
    var entries := [(CHUNK_COMP, layout.comp)];
    if c.ctrl.Some? {
      entries := entries + [(CHUNK_CONT, layout.ctrl)];
    }
    if c.params != [] {
      entries := entries + [(CHUNK_RMXP, layout.rmxp)];
    }
    assert entries == Entries(c);
    out := PushEntries(entries);
  }

  method SavePreset(c: Contents) returns (out: seq<u8>)
    requires Fits(c)
    ensures out == Saved(c)
  {
    var rmxp := PushParams(c.params);
    var layout := SavedLayout(c);
    var chunkCount := 1;
    if c.ctrl.Some? {
      chunkCount := chunkCount + 1;
    }
    if rmxp != [] {
      chunkCount := chunkCount + 1;
    }
    out := U32(PRESET_MAGIC) + U32(PRESET_VERSION);
    out := out + UidField(c.uid);
    out := out + U64(ListOffset(c));
    out := out + c.comp;
    out := out + CtrlBytes(c);
    out := out + rmxp;
    out := out + U32(LIST_MAGIC) + U32(chunkCount);
    var list := PushList(c, layout);
    out := out + list;
  }

  // ---------- reading ----------

  // What is known after the first k entries of the chunk list at `at`.
  function Scan(data: seq<u8>, at: nat, k: nat): Result<Layout, PresetError>
    requires |data| <= MAX_U64
  {
    if k == 0 then Success(Layout(NO_RANGE, NO_RANGE, NO_RANGE, false))
    else
      match Scan(data, at, k - 1)
      case Failure(e) => Failure(e)
      case Success(found) =>
        var e := at + 8 + (k - 1) * 20;
        if e > |data| || |data| - e < 20 then Failure(EntryOutOfRange)
        else
          var id, r := ReadU32(data, e), Range(ReadU64(data, e + 4), ReadU64(data, e + 12));
          if r.off > |data| || |data| - r.off < r.size then Failure(ChunkOutOfRange)
          else Success(Enter(found, id, r))
  }

  function Enter(found: Layout, id: u32, r: Range): Layout {
    if id == CHUNK_COMP then found.(comp := r, haveComp := true)
    else if id == CHUNK_CONT || id == CHUNK_CNTC_OLD then found.(ctrl := r)
    else if id == CHUNK_RMXP then found.(rmxp := r)
    else found
  }

  function CheckList(data: seq<u8>, at: nat): Result<Layout, PresetError>
    requires at + 8 <= |data| <= MAX_U64
  {
    var count := ReadU32(data, at + 4);
    if count > MAX_CHUNKS then Failure(ListTooLarge)
    else
      match Scan(data, at, count)
      case Failure(e) => Failure(e)
      case Success(found) => if !found.haveComp || found.comp.size == 0 then Failure(NoComponent) else Success(found)
  }

  function HeaderUid(data: seq<u8>): seq<u8>
    requires |data| >= HEADER_SIZE
  {
    UntilZero(data[8..40])
  }

  function Validated(data: seq<u8>, uid: seq<u8>): Result<Layout, PresetError> {
    var total := |data|;
    if total > MAX_PRESET_BYTES then Failure(TooLarge)
    else if total < HEADER_SIZE + 8 + 20 || ReadU32(data, 0) != PRESET_MAGIC || ReadU32(data, 4) != PRESET_VERSION
    then Failure(BadHeader)
    else
      var want, got := Normalize(uid), Normalize(HeaderUid(data));
      if want == [] || got == [] || want != got then Failure(ClassMismatch)
      else
        var at := ReadU64(data, 40);
        if at > total - 8 || total - at < 8 || ReadU32(data, at) != LIST_MAGIC then Failure(ListCorrupt)
        else CheckList(data, at)
  }

  // The file is read in blocks of 4096 bytes and abandoned past the limit.
  method ReadFile(file: seq<u8>) returns (data: Option<seq<u8>>)
    ensures data == if |file| > MAX_PRESET_BYTES then None else Some(file)
  {
    var read: seq<u8> := [];
    var pos := 0;
    while pos < |file|
      invariant pos <= |file| && read == file[..pos] && |read| <= MAX_PRESET_BYTES
      decreases |file| - pos
    {
      var n := if |file| - pos < 4096 then |file| - pos else 4096;
      read := read + file[pos..pos + n];
      pos := pos + n;
      if |read| > MAX_PRESET_BYTES {
        return None;
      }
    }
    assert file[..|file|] == file;
    data := Some(read);
  }

  method ScanChunks(data: seq<u8>, at: nat, count: nat) returns (r: Result<Layout, PresetError>)
    requires |data| <= MAX_U64
    ensures r == Scan(data, at, count)
  {
    var found := Layout(NO_RANGE, NO_RANGE, NO_RANGE, false);
    for i := 0 to count
      invariant Scan(data, at, i) == Success(found)
    {
      var e := at + 8 + i * 20;
      if e > |data| || |data| - e < 20 {
        ScanStuck(data, at, i + 1, count);
        return Failure(EntryOutOfRange);
      }
      var id, off, size := ReadU32(data, e), ReadU64(data, e + 4), ReadU64(data, e + 12);
      if off > |data| || |data| - off < size {
        ScanStuck(data, at, i + 1, count);
        return Failure(ChunkOutOfRange);
      }
      if id == CHUNK_COMP {
        found := found.(comp := Range(off, size), haveComp := true);
      } else if id == CHUNK_CONT || id == CHUNK_CNTC_OLD {
        found := found.(ctrl := Range(off, size));
      } else if id == CHUNK_RMXP {
        found := found.(rmxp := Range(off, size));
      }
    }
    r := Success(found);
  }

  lemma {:induction false} ScanStuck(data: seq<u8>, at: nat, k: nat, count: nat)
    requires |data| <= MAX_U64 && k <= count && Scan(data, at, k).Failure?
    ensures Scan(data, at, count) == Scan(data, at, k)
  {
    if k < count {
      ScanStuck(data, at, k, count - 1);
    }
  }

  // `file` is None when it cannot be opened.
  method ReadAndValidate(file: Option<seq<u8>>, uid: seq<u8>) returns (r: Result<Layout, PresetError>)
    ensures r == if file.None? then Failure(CannotOpen) else Validated(file.value, uid)
  {
    if file.None? {
      return Failure(CannotOpen);
    }
    var read := ReadFile(file.value);
    if read.None? {
      return Failure(TooLarge);
    }
    var data := read.value;
    if |data| < HEADER_SIZE + 8 + 20 || ReadU32(data, 0) != PRESET_MAGIC || ReadU32(data, 4) != PRESET_VERSION {
      return Failure(BadHeader);
    }
    var want := NormalizeUid(uid);
    var got := NormalizeUid(HeaderUid(data));
    if want == [] || got == [] || want != got {
      return Failure(ClassMismatch);
    }
    var at := ReadU64(data, 40);
    if at > |data| - 8 || |data| - at < 8 || ReadU32(data, at) != LIST_MAGIC {
      return Failure(ListCorrupt);
    }
    var count := ReadU32(data, at + 4);
    if count > MAX_CHUNKS {
      return Failure(ListTooLarge);
    }
    r := ScanChunks(data, at, count);
    if r.Success? && (!r.value.haveComp || r.value.comp.size == 0) {
      r := Failure(NoComponent);
    }
  }

  // ---------- the host parameter table ----------

  // Stores a value under the first entry with its id.
  function Assign(host: seq<Param>, id: u32, value: u64): (r: seq<Param>)
    ensures |r| == |host|
  {
    if host == [] then []
    else if host[0].id == id then [Param(id, value)] + host[1..]
    else [host[0]] + Assign(host[1..], id, value)
  }

  // The table after the first n entries of the file's table at `at`.
  function AssignAll(data: seq<u8>, at: nat, n: nat, host: seq<Param>): (r: seq<Param>)
    requires at + 4 + n * 12 <= |data|
    ensures |r| == |host|
  {
    if n == 0 then host
    else
      var e := at + 4 + (n - 1) * 12;
      Assign(AssignAll(data, at, n - 1, host), ReadU32(data, e), ReadU64(data, e + 4))
  }

  // The host table after loading an accepted file, and whether it came from the file.
  function HostTable(data: seq<u8>, rmxp: Range, host: seq<Param>): (seq<Param>, bool)
    requires rmxp.off + rmxp.size <= |data|
  {
    if rmxp.size < 4 then (host, false)
    else
      var n := ReadU32(data, rmxp.off);
      if n > (rmxp.size - 4) / 12 then (host, false)
      else (AssignAll(data, rmxp.off, n, host), true)
  }

  lemma {:induction false} AssignHits(host: seq<Param>, id: u32, value: u64, i: nat)
    requires i <= |host| && (i < |host| ==> host[i].id == id)
    requires forall k :: 0 <= k < i ==> host[k].id != id
    ensures Assign(host, id, value) == if i < |host| then host[i := Param(id, value)] else host
  {
    if i > 0 {
      AssignHits(host[1..], id, value, i - 1);
    }
  }

  method AssignFirst(host: seq<Param>, id: u32, value: u64) returns (r: seq<Param>)
    ensures r == Assign(host, id, value)
  {
    r := host;
    for i := 0 to |host|
      invariant r == host && forall k :: 0 <= k < i ==> host[k].id != id
    {
      if host[i].id == id {
        AssignHits(host, id, value, i);
        r := host[i := Param(id, value)];
        return;
      }
    }
    AssignHits(host, id, value, |host|);
  }

  method RestoreParams(data: seq<u8>, rmxp: Range, host0: seq<Param>) returns (host: seq<Param>, fromFile: bool)
    requires rmxp.off + rmxp.size <= |data|
    ensures (host, fromFile) == HostTable(data, rmxp, host0)
  {
    host, fromFile := host0, false;
    if rmxp.size >= 4 {
      var n := ReadU32(data, rmxp.off);
      if n <= (rmxp.size - 4) / 12 {
        for i := 0 to n
          invariant host == AssignAll(data, rmxp.off, i, host0)
        {
          var e := rmxp.off + 4 + i * 12;
          host := AssignFirst(host, ReadU32(data, e), ReadU64(data, e + 4));
        }
        fromFile := true;
      }
    }
  }
}
