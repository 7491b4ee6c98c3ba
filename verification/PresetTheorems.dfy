/**
 Saving and reading a preset undo each other, exactly when the class id's first 32 characters carry
 no separator; and for arbitrary bytes every accepted range lies inside the file.
 */
module PresetTheorems {
  import opened Words
  import opened Wrappers
  import opened Bytes
  import opened Preset

  // ---------- arbitrary bytes ----------

  predicate Inside(data: seq<u8>, r: Range) {
    r.off + r.size <= |data|
  }

  lemma {:induction false} ScanInside(data: seq<u8>, at: nat, k: nat)
    requires |data| <= MAX_U64 && Scan(data, at, k).Success?
    ensures var found := Scan(data, at, k).value;
      Inside(data, found.comp) && Inside(data, found.ctrl) && Inside(data, found.rmxp)
    ensures k > 0 ==> at + 8 + k * 20 <= |data|
  {
    if k > 0 {
      ScanInside(data, at, k - 1);
    }
  }

  // Whatever the bytes, an accepted preset has its chunks inside the file, a component state that is
  // not empty, and a class id that matches.
  lemma AcceptedInside(data: seq<u8>, uid: seq<u8>)
    requires Validated(data, uid).Success?
    ensures var found := Validated(data, uid).value;
      && Inside(data, found.comp) && Inside(data, found.ctrl) && Inside(data, found.rmxp)
      && found.comp.size > 0
    ensures HEADER_SIZE <= |data| <= MAX_PRESET_BYTES
    ensures Normalize(HeaderUid(data)) == Normalize(uid) != []
  {
    var at := ReadU64(data, 40);
    ScanInside(data, at, ReadU32(data, at + 4));
  }

  // ---------- where the parts of a saved preset are ----------

  function Body(c: Contents): seq<u8> {
    c.comp + CtrlBytes(c) + RmxpBytes(c.params)
  }

  function Tail(c: Contents): seq<u8>
    requires Fits(c)
  {
    U32(LIST_MAGIC) + U32(|Entries(c)|) + ListBytes(Entries(c))
  }

  function Head(c: Contents): seq<u8>
    requires Fits(c)
  {
    U32(PRESET_MAGIC) + U32(PRESET_VERSION) + UidField(c.uid) + U64(ListOffset(c))
  }

  lemma Regroup(h: seq<u8>, a: seq<u8>, b: seq<u8>, d: seq<u8>, x: seq<u8>, y: seq<u8>, z: seq<u8>)
    ensures h + a + b + d + x + y + z == h + (a + b + d) + (x + y + z)
  {
  }

  lemma SavedParts(c: Contents)
    requires Fits(c)
    ensures Saved(c) == Head(c) + Body(c) + Tail(c)
    ensures |Head(c)| == HEADER_SIZE && |Body(c)| == ListOffset(c) - HEADER_SIZE
  {
    Regroup(Head(c), c.comp, CtrlBytes(c), RmxpBytes(c.params), U32(LIST_MAGIC), U32(|Entries(c)|),
            ListBytes(Entries(c)));
  }

  lemma HeadParts(c: Contents)
    requires Fits(c)
    ensures Has32(Head(c), 0, PRESET_MAGIC) && Has32(Head(c), 4, PRESET_VERSION)
    ensures Head(c)[8..40] == UidField(c.uid) && Has64(Head(c), 40, ListOffset(c))
  {
    FourParts(U32(PRESET_MAGIC), U32(PRESET_VERSION), UidField(c.uid), U64(ListOffset(c)));
  }

  lemma FourParts(a: seq<u8>, b: seq<u8>, c: seq<u8>, d: seq<u8>)
    requires |a| == 4 && |b| == 4 && |c| == 32 && |d| == 8
    ensures var all := a + b + c + d; all[0..4] == a && all[4..8] == b && all[8..40] == c && all[40..48] == d
  {
  }

  lemma SavedHead(c: Contents)
    requires Fits(c)
    ensures var data := Saved(c);
      && |data| >= HEADER_SIZE && Has32(data, 0, PRESET_MAGIC) && Has32(data, 4, PRESET_VERSION)
      && data[8..40] == UidField(c.uid) && Has64(data, 40, ListOffset(c))
  {
    SavedParts(c);
    HeadParts(c);
    HeadOf(Saved(c), Head(c), c);
  }

  lemma HeadOf(data: seq<u8>, head: seq<u8>, c: Contents)
    requires Fits(c) && |head| == HEADER_SIZE <= |data| && data[..HEADER_SIZE] == head
    requires Has32(head, 0, PRESET_MAGIC) && Has32(head, 4, PRESET_VERSION)
    requires head[8..40] == UidField(c.uid) && Has64(head, 40, ListOffset(c))
    ensures Has32(data, 0, PRESET_MAGIC) && Has32(data, 4, PRESET_VERSION)
    ensures data[8..40] == UidField(c.uid) && Has64(data, 40, ListOffset(c))
  {
    BlockHas32(data, 0, head, 0, PRESET_MAGIC);
    BlockHas32(data, 0, head, 4, PRESET_VERSION);
    BlockHas64(data, 0, head, 40, ListOffset(c));
    SubSlice(data, 0, HEADER_SIZE, 8, 32);
  }

  lemma TailParts(c: Contents)
    requires Fits(c)
    ensures Has32(Tail(c), 0, LIST_MAGIC) && Has32(Tail(c), 4, |Entries(c)|)
    ensures |Tail(c)| == 8 + |ListBytes(Entries(c))| && Tail(c)[8..] == ListBytes(Entries(c))
  {
    Joined(U32(LIST_MAGIC), U32(|Entries(c)|), ListBytes(Entries(c)));
  }

  lemma SavedTail(c: Contents)
    requires Fits(c)
    ensures var data, at := Saved(c), ListOffset(c);
      && |data| == at + 8 + |ListBytes(Entries(c))|
      && Has32(data, at, LIST_MAGIC) && Has32(data, at + 4, |Entries(c)|)
      && data[at + 8..] == ListBytes(Entries(c))
  {
    SavedParts(c);
    TailParts(c);
    TailOf(Saved(c), Head(c) + Body(c), Tail(c), |Entries(c)|, ListBytes(Entries(c)));
  }

  lemma TailOf(data: seq<u8>, before: seq<u8>, tail: seq<u8>, count: u32, list: seq<u8>)
    requires data == before + tail && |tail| == 8 + |list| && tail[8..] == list
    requires Has32(tail, 0, LIST_MAGIC) && Has32(tail, 4, count)
    ensures Has32(data, |before|, LIST_MAGIC) && Has32(data, |before| + 4, count) && data[|before| + 8..] == list
  {
    assert data[|before|..|before| + |tail|] == tail;
    BlockHas32(data, |before|, tail, 0, LIST_MAGIC);
    BlockHas32(data, |before|, tail, 4, count);
  }

  // The chunks themselves.
  lemma SavedChunks(c: Contents)
    requires Fits(c)
    ensures var data := Saved(c); var m := HEADER_SIZE + |c.comp|;
      && m + |CtrlBytes(c)| + |RmxpBytes(c.params)| <= |data|
      && data[HEADER_SIZE..m] == c.comp
      && data[m..m + |CtrlBytes(c)|] == CtrlBytes(c)
      && data[m + |CtrlBytes(c)|..m + |CtrlBytes(c)| + |RmxpBytes(c.params)|] == RmxpBytes(c.params)
  {
    SavedParts(c);
    ThreeParts(Saved(c), Head(c), c.comp, CtrlBytes(c), RmxpBytes(c.params), Tail(c));
  }

  lemma ThreeParts(data: seq<u8>, head: seq<u8>, a: seq<u8>, b: seq<u8>, d: seq<u8>, tail: seq<u8>)
    requires data == head + (a + b + d) + tail
    ensures var h := |head|;
      && h + |a| + |b| + |d| <= |data| && data[h..h + |a|] == a
      && data[h + |a|..h + |a| + |b|] == b
      && data[h + |a| + |b|..h + |a| + |b| + |d|] == d
  {
  }

  // ---------- the chunk list ----------

  lemma {:induction false} ListSize(entries: seq<(u32, Range)>)
    ensures |ListBytes(entries)| == |entries| * 20
  {
    if entries != [] {
      ListSize(entries[..|entries| - 1]);
    }
  }

  // An entry's twenty bytes are at a position.
  predicate Listed(data: seq<u8>, e: nat, id: u32, r: Range) {
    e + 20 <= |data| && data[e..e + 20] == EntryBytes(id, r)
  }

  lemma ListedBefore(a: seq<u8>, b: seq<u8>, e: nat, id: u32, r: Range)
    requires Listed(a, e, id, r)
    ensures Listed(a + b, e, id, r)
  {
    assert (a + b)[e..e + 20] == a[e..e + 20];
  }

  lemma ListedAfter(data: seq<u8>, from: nat, tail: seq<u8>, e: nat, id: u32, r: Range)
    requires from <= |data| && data[from..] == tail && Listed(tail, e, id, r)
    ensures Listed(data, from + e, id, r)
  {
    assert data[from + e..from + e + 20] == tail[e..e + 20];
  }

  lemma {:induction false} ListEntry(entries: seq<(u32, Range)>, i: nat)
    requires i < |entries|
    ensures Listed(ListBytes(entries), i * 20, entries[i].0, entries[i].1)
  {
    var before, last := entries[..|entries| - 1], entries[|entries| - 1];
    ListSize(before);
    if i < |before| {
      ListEntry(before, i);
      ListedBefore(ListBytes(before), EntryBytes(last.0, last.1), i * 20, entries[i].0, entries[i].1);
    }
  }

  lemma EntryHas(id: u32, r: Range)
    ensures Has32(EntryBytes(id, r), 0, id)
    ensures Has64(EntryBytes(id, r), 4, r.off) && Has64(EntryBytes(id, r), 12, r.size)
  {
    Joined(U32(id), U64(r.off), U64(r.size));
  }

  lemma Joined(a: seq<u8>, b: seq<u8>, c: seq<u8>)
    ensures (a + b + c)[0..|a|] == a && (a + b + c)[|a|..|a| + |b|] == b
    ensures (a + b + c)[|a| + |b|..|a| + |b| + |c|] == c
  {
  }

  lemma EntryReads(data: seq<u8>, e: nat, id: u32, r: Range)
    requires Listed(data, e, id, r)
    ensures ReadU32(data, e) == id && ReadU64(data, e + 4) == r.off && ReadU64(data, e + 12) == r.size
  {
    EntryHas(id, r);
    BlockHas32(data, e, EntryBytes(id, r), 0, id);
    BlockHas64(data, e, EntryBytes(id, r), 4, r.off);
    BlockHas64(data, e, EntryBytes(id, r), 12, r.size);
    ReadBack32(data, e, id);
    ReadBack64(data, e + 4, r.off);
    ReadBack64(data, e + 12, r.size);
  }

  // What entering the listed chunks in order gives.
  function EnterAll(entries: seq<(u32, Range)>): Layout {
    if entries == [] then Layout(NO_RANGE, NO_RANGE, NO_RANGE, false)
    else Enter(EnterAll(entries[..|entries| - 1]), entries[|entries| - 1].0, entries[|entries| - 1].1)
  }

  lemma ScanNext(data: seq<u8>, at: nat, k: nat, found: Layout, id: u32, r: Range)
    requires |data| <= MAX_U64 && Scan(data, at, k) == Success(found) && Inside(data, r)
    requires Listed(data, at + 8 + k * 20, id, r)
    ensures Scan(data, at, k + 1) == Success(Enter(found, id, r))
  {
    EntryReads(data, at + 8 + k * 20, id, r);
  }

  lemma EnterNext(entries: seq<(u32, Range)>, i: nat)
    requires i < |entries|
    ensures EnterAll(entries[..i + 1]) == Enter(EnterAll(entries[..i]), entries[i].0, entries[i].1)
  {
    assert entries[..i + 1][..i] == entries[..i];
  }

  // A list written at the end of the data is scanned back, if its ranges are inside.
  lemma {:induction false} ScanBack(data: seq<u8>, at: nat, entries: seq<(u32, Range)>, k: nat)
    requires at + 8 <= |data| <= MAX_U64 && data[at + 8..] == ListBytes(entries) && k <= |entries|
    requires forall i :: 0 <= i < |entries| ==> Inside(data, entries[i].1)
    ensures Scan(data, at, k) == Success(EnterAll(entries[..k]))
  {
    if k > 0 {
      ScanBack(data, at, entries, k - 1);
      ListEntry(entries, k - 1);
      ListedAfter(data, at + 8, ListBytes(entries), (k - 1) * 20, entries[k - 1].0, entries[k - 1].1);
      ScanNext(data, at, k - 1, EnterAll(entries[..k - 1]), entries[k - 1].0, entries[k - 1].1);
      EnterNext(entries, k - 1);
    }
  }

  lemma EntriesEntered(c: Contents)
    requires Fits(c)
    ensures EnterAll(Entries(c)) == SavedLayout(c)
    ensures 1 <= |Entries(c)| <= 3
  {
    var first := [(CHUNK_COMP, SavedLayout(c).comp)];
    var second := if c.ctrl.Some? then [(CHUNK_CONT, SavedLayout(c).ctrl)] else [];
    var third := if c.params != [] then [(CHUNK_RMXP, SavedLayout(c).rmxp)] else [];
    EnterMore([], CHUNK_COMP, SavedLayout(c).comp);
    assert [] + first == first;
    if c.ctrl.Some? {
      EnterMore(first, CHUNK_CONT, SavedLayout(c).ctrl);
    } else {
      assert first + second == first;
    }
    if c.params != [] {
      EnterMore(first + second, CHUNK_RMXP, SavedLayout(c).rmxp);
    } else {
      assert first + second + third == first + second;
    }
  }

  lemma EnterMore(entries: seq<(u32, Range)>, id: u32, r: Range)
    ensures EnterAll(entries + [(id, r)]) == Enter(EnterAll(entries), id, r)
  {
    assert (entries + [(id, r)])[..|entries|] == entries;
  }

  lemma EntriesInside(c: Contents)
    requires Fits(c)
    ensures forall i :: 0 <= i < |Entries(c)| ==> Inside(Saved(c), Entries(c)[i].1)
  {
    SavedTail(c);
  }

  lemma ListBack(c: Contents)
    requires Fits(c) && |Saved(c)| <= MAX_U64
    ensures ListOffset(c) + 8 <= |Saved(c)|
    ensures CheckList(Saved(c), ListOffset(c)) == if c.comp == [] then Failure(NoComponent) else Success(SavedLayout(c))
  {
    var data, at := Saved(c), ListOffset(c);
    SavedTail(c);
    EntriesInside(c);
    EntriesEntered(c);
    ReadBack32(data, at + 4, |Entries(c)|);
    ScanBack(data, at, Entries(c), |Entries(c)|);
    assert Entries(c)[..|Entries(c)|] == Entries(c);
  }

  // ---------- class ids ----------

  predicate Plain(s: seq<u8>) {
    forall k :: 0 <= k < |s| ==> !Separator(s[k])
  }

  lemma {:induction false} StripPlain(s: seq<u8>)
    ensures |Strip(s)| <= |s|
    ensures |Strip(s)| == |s| <==> Plain(s)
    ensures Plain(s) ==> forall k :: 0 <= k < |s| ==> Strip(s)[k] == ToUpper(s[k])
  {
    if s != [] {
      StripPlain(s[..|s| - 1]);
    }
  }

  lemma {:induction false} StripSplit(a: seq<u8>, b: seq<u8>)
    ensures Strip(a + b) == Strip(a) + Strip(b)
  {
    if b == [] {
      assert a + b == a;
    } else {
      StripSplit(a, b[..|b| - 1]);
      assert (a + b)[..|a + b| - 1] == a + b[..|b| - 1];
    }
  }

  lemma {:induction false} UntilZeroPrefix(s: seq<u8>)
    ensures UntilZero(s) <= s
    ensures (forall k :: 0 <= k < |s| ==> s[k] != 0) ==> UntilZero(s) == s
    ensures |UntilZero(s)| < |s| ==> s[|UntilZero(s)|] == 0
  {
    if s != [] && s[0] != 0 {
      UntilZeroPrefix(s[1..]);
      assert s == [s[0]] + s[1..];
    }
  }

  // The stored class id names the same class exactly when the first 32 characters are plain.
  lemma UidRoundTrip(uid: seq<u8>)
    requires Normalize(uid) != []
    ensures Normalize(UntilZero(UidField(uid))) == Normalize(uid) <==> (|uid| >= 32 && Plain(uid[..32]))
    ensures Normalize(UntilZero(UidField(uid))) == Normalize(uid) || Normalize(UntilZero(UidField(uid))) == []
  {
    StripPlain(uid);
    var first, rest := uid[..32], uid[32..];
    assert uid == first + rest;
    StripSplit(first, rest);
    StripPlain(first);
    UntilZeroPrefix(first);
    if Plain(first) {
      assert Strip(rest) == [];
      assert Strip(uid) == Strip(first);
      forall k | 0 <= k < 32 ensures first[k] != 0 {
        assert HexDigit(Strip(uid)[k]) && Strip(first)[k] == ToUpper(first[k]);
      }
      assert UidField(uid) == first && UntilZero(first) == first;
    } else {
      StripPlain(UntilZero(first));
      if UntilZero(first) == first {
        assert |Strip(first)| < 32;
      } else {
        assert |UntilZero(first)| < 32;
      }
    }
  }

  // ---------- the round trip ----------

  lemma HeaderBack(c: Contents)
    requires Fits(c)
    ensures |Saved(c)| >= HEADER_SIZE + 8 + 20
    ensures ReadU32(Saved(c), 0) == PRESET_MAGIC && ReadU32(Saved(c), 4) == PRESET_VERSION
    ensures HeaderUid(Saved(c)) == UntilZero(UidField(c.uid))
    ensures ReadU64(Saved(c), 40) == ListOffset(c)
  {
    SavedHead(c);
    SavedTail(c);
    EntriesEntered(c);
    ListSize(Entries(c));
    ReadBack32(Saved(c), 0, PRESET_MAGIC);
    ReadBack32(Saved(c), 4, PRESET_VERSION);
    ReadBack64(Saved(c), 40, ListOffset(c));
  }

  lemma MagicBack(c: Contents)
    requires Fits(c)
    ensures ListOffset(c) + 8 <= |Saved(c)| && ReadU32(Saved(c), ListOffset(c)) == LIST_MAGIC
  {
    SavedTail(c);
    ReadBack32(Saved(c), ListOffset(c), LIST_MAGIC);
  }

  // Reading a saved preset with the class id it was saved with finds exactly the saved chunks, if and
  // only if the file is within the limit, there is a component state, and the class id is a valid one
  // whose first 32 characters carry no separator.
  lemma SavedLoadsBack(c: Contents)
    requires Fits(c)
    ensures var good := |Saved(c)| <= MAX_PRESET_BYTES && c.comp != [] && Normalize(c.uid) != []
                        && |c.uid| >= 32 && Plain(c.uid[..32]);
      && (Validated(Saved(c), c.uid).Success? <==> good)
      && (good ==> Validated(Saved(c), c.uid) == Success(SavedLayout(c)))
  {
    HeaderBack(c);
    MagicBack(c);
    if |Saved(c)| <= MAX_PRESET_BYTES && Normalize(c.uid) != [] {
      UidRoundTrip(c.uid);
      ListBack(c);
    }
  }

  // The found ranges hold the saved bytes.
  lemma SavedRanges(c: Contents)
    requires Fits(c)
    ensures var data, found := Saved(c), SavedLayout(c);
      && Inside(data, found.comp) && Inside(data, found.ctrl) && Inside(data, found.rmxp)
      && data[found.comp.off..found.comp.off + found.comp.size] == c.comp
      && data[found.ctrl.off..found.ctrl.off + found.ctrl.size] == CtrlBytes(c)
      && data[found.rmxp.off..found.rmxp.off + found.rmxp.size] == RmxpBytes(c.params)
  {
    SavedChunks(c);
  }

  // ---------- host parameters ----------

  predicate DistinctIds(s: seq<Param>) {
    forall i: nat, j: nat :: i < j < |s| ==> s[i].id != s[j].id
  }

  predicate SameIds(a: seq<Param>, b: seq<Param>) {
    |a| == |b| && forall i: nat :: i < |a| ==> a[i].id == b[i].id
  }

  lemma {:induction false} ParamSize(params: seq<Param>)
    ensures |ParamBytes(params)| == 12 * |params|
  {
    if params != [] {
      ParamSize(params[..|params| - 1]);
    }
  }

  lemma {:induction false} ParamAt(params: seq<Param>, i: nat)
    requires i < |params|
    ensures 12 * i + 12 <= |ParamBytes(params)|
    ensures Has32(ParamBytes(params), 12 * i, params[i].id) && Has64(ParamBytes(params), 12 * i + 4, params[i].value)
  {
    var before, last := params[..|params| - 1], params[|params| - 1];
    ParamSize(params);
    ParamSize(before);
    if i < |before| {
      ParamAt(before, i);
      assert ParamBytes(params)[0..|ParamBytes(before)|] == ParamBytes(before);
      BlockHas32(ParamBytes(params), 0, ParamBytes(before), 12 * i, params[i].id);
      BlockHas64(ParamBytes(params), 0, ParamBytes(before), 12 * i + 4, params[i].value);
    } else {
      Joined(ParamBytes(before), U32(last.id), U64(last.value));
    }
  }

  lemma ParamReads(data: seq<u8>, at: nat, params: seq<Param>, i: nat)
    requires i < |params| && at + |ParamBytes(params)| <= |data|
    requires data[at..at + |ParamBytes(params)|] == ParamBytes(params)
    ensures at + 12 * i + 12 <= |data|
    ensures ReadU32(data, at + 12 * i) == params[i].id && ReadU64(data, at + 12 * i + 4) == params[i].value
  {
    ParamAt(params, i);
    BlockHas32(data, at, ParamBytes(params), 12 * i, params[i].id);
    BlockHas64(data, at, ParamBytes(params), 12 * i + 4, params[i].value);
    ReadBack32(data, at + 12 * i, params[i].id);
    ReadBack64(data, at + 12 * i + 4, params[i].value);
  }

  lemma AssignedNext(params: seq<Param>, host: seq<Param>, n: nat)
    requires n < |params| && SameIds(params, host) && DistinctIds(params)
    ensures Assign(params[..n] + host[n..], params[n].id, params[n].value) == params[..n + 1] + host[n + 1..]
  {
    var table := params[..n] + host[n..];
    assert SameIds(params, table) && table[n] == host[n];
    AssignHits(table, params[n].id, params[n].value, n);
    assert table[n := params[n]] == params[..n + 1] + host[n + 1..];
  }

  // The table after the first n saved entries: those values, then the old ones.
  lemma {:induction false} AssignedPrefix(data: seq<u8>, at: nat, params: seq<Param>, host: seq<Param>, n: nat)
    requires n <= |params| && at + 4 + |ParamBytes(params)| <= |data| && SameIds(params, host) && DistinctIds(params)
    requires data[at + 4..at + 4 + |ParamBytes(params)|] == ParamBytes(params)
    ensures at + 4 + n * 12 <= |data| && AssignAll(data, at, n, host) == params[..n] + host[n..]
  {
    ParamSize(params);
    if n > 0 {
      AssignedPrefix(data, at, params, host, n - 1);
      ParamReads(data, at + 4, params, n - 1);
      AssignedNext(params, host, n - 1);
    } else {
      assert params[..0] + host[0..] == host;
    }
  }

  lemma Prefixed(a: seq<u8>, b: seq<u8>)
    ensures (a + b)[0..|a|] == a && (a + b)[|a|..] == b
  {
  }

  lemma TableParts(params: seq<Param>)
    requires params != [] && |params| < 0x1_0000_0000
    ensures |RmxpBytes(params)| == 4 + |ParamBytes(params)| && |ParamBytes(params)| == 12 * |params|
    ensures Has32(RmxpBytes(params), 0, |params|) && RmxpBytes(params)[4..] == ParamBytes(params)
  {
    ParamSize(params);
    CountFits(|params|);
    Prefixed(U32(|params|), ParamBytes(params));
  }

  lemma CountFits(n: nat)
    requires n < 0x1_0000_0000
    ensures n % 0x1_0000_0000 == n
  {
  }

  lemma TableAt(data: seq<u8>, r: Range, whole: seq<u8>, n: u32, body: seq<u8>)
    requires Inside(data, r) && data[r.off..r.off + r.size] == whole
    requires |whole| == 4 + |body| && whole[4..] == body && Has32(whole, 0, n)
    ensures r.size == 4 + |body| && ReadU32(data, r.off) == n && data[r.off + 4..r.off + 4 + |body|] == body
  {
    BlockHas32(data, r.off, whole, 0, n);
    ReadBack32(data, r.off, n);
    SubSlice(data, r.off, r.size, 4, |body|);
  }

  lemma TableReads(data: seq<u8>, r: Range, params: seq<Param>)
    requires params != [] && |params| < 0x1_0000_0000 && Inside(data, r)
    requires data[r.off..r.off + r.size] == RmxpBytes(params)
    ensures r.size == 4 + 12 * |params| && |ParamBytes(params)| == 12 * |params|
    ensures ReadU32(data, r.off) == |params|
    ensures data[r.off + 4..r.off + 4 + |ParamBytes(params)|] == ParamBytes(params)
  {
    TableParts(params);
    TableAt(data, r, RmxpBytes(params), |params|, ParamBytes(params));
  }

  // Loading a saved preset into a table with the same parameters gives exactly the saved table,
  // whatever values it held. Without saved parameters the table is left alone.
  lemma ParamsRoundTrip(c: Contents, host: seq<Param>)
    requires Fits(c) && |c.params| < 0x1_0000_0000 && DistinctIds(c.params) && SameIds(c.params, host)
    ensures Inside(Saved(c), SavedLayout(c).rmxp)
    ensures HostTable(Saved(c), SavedLayout(c).rmxp, host) == (c.params, c.params != [])
  {
    SavedRanges(c);
    if c.params != [] {
      TableRestored(Saved(c), SavedLayout(c).rmxp, c.params, host);
    }
  }

  lemma TableRestored(data: seq<u8>, r: Range, params: seq<Param>, host: seq<Param>)
    requires params != [] && |params| < 0x1_0000_0000 && DistinctIds(params) && SameIds(params, host)
    requires Inside(data, r) && data[r.off..r.off + r.size] == RmxpBytes(params)
    ensures HostTable(data, r, host) == (params, true)
  {
    TableReads(data, r, params);
    AssignedPrefix(data, r.off, params, host, |params|);
    assert params[..|params|] + host[|params|..] == params;
  }
}
