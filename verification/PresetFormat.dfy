/** The preset file, byte by byte. */
module PresetFormat {
  import opened Words
  import opened Wrappers
  import opened Bytes
  import opened Preset
  import opened PresetTheorems

  // What the reader makes of arbitrary bytes, with tags as characters and words as sums of bytes.

  // ---------- words and tags ----------

  // Four bytes, the low one first.
  function Word(a: int, b: int, c: int, d: int): int {
    a + 256 * (b + 256 * (c + 256 * d))
  }

  lemma DecodeFour(s: seq<u8>)
    requires |s| == 4
    ensures Decode(s) == Word(s[0], s[1], s[2], s[3])
  {
    var b, c, d := s[1..], s[1..][1..], s[1..][1..][1..];
    assert d == [s[3]] && d[1..] == [];
    assert Decode(d) == s[3];
    assert Decode(c) == s[2] + 256 * Decode(d);
    assert Decode(b) == s[1] + 256 * Decode(c);
  }

  lemma Regroup(a: nat, b: nat)
    ensures 256 * (a * b) == (256 * a) * b
  {
  }

  lemma {:induction false} DecodeSplit(s: seq<u8>, k: nat)
    requires k <= |s|
    ensures Decode(s) == Decode(s[..k]) + Power(k) * Decode(s[k..])
  {
    if k == 0 {
      assert s[..0] == [] && s[0..] == s;
    } else {
      DecodeSplit(s[1..], k - 1);
      assert s[..k][1..] == s[1..][..k - 1] && s[1..][k - 1..] == s[k..];
      Regroup(Power(k - 1), Decode(s[k..]));
    }
  }

  // A word is read low byte first; what is written reads back (ReadBack32 and ReadBack64), so it is
  // written that way too.
  lemma WordsLittleEndian(data: seq<u8>, p: nat)
    ensures p + 4 <= |data| ==> ReadU32(data, p) == Word(data[p], data[p + 1], data[p + 2], data[p + 3])
    ensures p + 8 <= |data| ==> ReadU64(data, p) == ReadU32(data, p) + 0x1_0000_0000 * ReadU32(data, p + 4)
  {
    if p + 4 <= |data| {
      DecodeFour(data[p..p + 4]);
    }
    if p + 8 <= |data| {
      DecodeSplit(data[p..p + 8], 4);
      PowerValues();
      assert data[p..p + 8][..4] == data[p..p + 4] && data[p..p + 8][4..] == data[p + 4..p + 8];
    }
  }

  lemma LowDigit(a: int, m: int, b: int, n: int)
    requires 0 <= a < 256 && 0 <= b < 256 && a + 256 * m == b + 256 * n
    ensures a == b && m == n
  {
  }

  lemma SameDigits(a: u8, b: u8, c: u8, d: u8, e: u8, f: u8, g: u8, h: u8)
    requires Word(a, b, c, d) == Word(e, f, g, h)
    ensures a == e && b == f && c == g && d == h
  {
    LowDigit(a, b + 256 * (c + 256 * d), e, f + 256 * (g + 256 * h));
    LowDigit(b, c + 256 * d, f, g + 256 * h);
    LowDigit(c, d, g, h);
  }

  // The four characters of a tag are at p.
  predicate Tagged(data: seq<u8>, p: nat, tag: string) {
    && p + 4 <= |data| && |tag| == 4
    && data[p] == tag[0] as int && data[p + 1] == tag[1] as int
    && data[p + 2] == tag[2] as int && data[p + 3] == tag[3] as int
  }

  predicate Ascii(tag: string) {
    forall i: nat :: i < |tag| ==> tag[i] as int < 128
  }

  lemma TagWord(data: seq<u8>, p: nat, tag: string, word: u32)
    requires p + 4 <= |data| && |tag| == 4 && Ascii(tag)
    requires word == Word(tag[0] as int, tag[1] as int, tag[2] as int, tag[3] as int)
    ensures Tagged(data, p, tag) <==> ReadU32(data, p) == word
  {
    WordsLittleEndian(data, p);
    if ReadU32(data, p) == word {
      SameDigits(data[p], data[p + 1], data[p + 2], data[p + 3],
                 tag[0] as int, tag[1] as int, tag[2] as int, tag[3] as int);
    }
  }

  // The words the reader compares with are these characters.
  lemma TagsAreCharacters(data: seq<u8>, p: nat)
    requires p + 4 <= |data|
    ensures ReadU32(data, p) == PRESET_MAGIC <==> Tagged(data, p, "VST3")
    ensures ReadU32(data, p) == LIST_MAGIC <==> Tagged(data, p, "List")
    ensures ReadU32(data, p) == CHUNK_COMP <==> Tagged(data, p, "Comp")
    ensures ReadU32(data, p) == CHUNK_CONT <==> Tagged(data, p, "Cont")
    ensures ReadU32(data, p) == CHUNK_CNTC_OLD <==> Tagged(data, p, "Cntc")
    ensures ReadU32(data, p) == CHUNK_RMXP <==> Tagged(data, p, "RmxP")
  {
    TagWord(data, p, "VST3", PRESET_MAGIC);
    TagWord(data, p, "List", LIST_MAGIC);
    TagWord(data, p, "Comp", CHUNK_COMP);
    TagWord(data, p, "Cont", CHUNK_CONT);
    TagWord(data, p, "Cntc", CHUNK_CNTC_OLD);
    TagWord(data, p, "RmxP", CHUNK_RMXP);
  }

  // ---------- the chunk list ----------

  function EntryAt(at: nat, i: nat): nat {
    at + 8 + 20 * i
  }

  // The first k entries lie inside the file.
  predicate EntriesFit(data: seq<u8>, at: nat, k: nat) {
    k > 0 ==> EntryAt(at, k - 1) + 20 <= |data|
  }

  function RangeOf(data: seq<u8>, at: nat, i: nat): Range
    requires EntriesFit(data, at, i + 1)
  {
    Range(ReadU64(data, EntryAt(at, i) + 4), ReadU64(data, EntryAt(at, i) + 12))
  }

  // Entry i carries one of two tags.
  predicate Carries(data: seq<u8>, at: nat, i: nat, tag: string, other: string) {
    Tagged(data, EntryAt(at, i), tag) || Tagged(data, EntryAt(at, i), other)
  }

  // The range of the last of k entries with one of two tags; the empty range when there is none.
  function LastRange(data: seq<u8>, at: nat, k: nat, tag: string, other: string): Range
    requires EntriesFit(data, at, k)
  {
    if k == 0 then Range(0, 0)
    else if Carries(data, at, k - 1, tag, other) then RangeOf(data, at, k - 1)
    else LastRange(data, at, k - 1, tag, other)
  }

  lemma {:induction false} LastRangeIs(data: seq<u8>, at: nat, k: nat, tag: string, other: string, i: nat)
    requires EntriesFit(data, at, k) && i < k && Carries(data, at, i, tag, other)
    requires forall j: nat :: i < j < k ==> !Carries(data, at, j, tag, other)
    ensures LastRange(data, at, k, tag, other) == RangeOf(data, at, i)
  {
    if i < k - 1 {
      LastRangeIs(data, at, k - 1, tag, other, i);
    }
  }

  lemma TagsApart(data: seq<u8>, p: nat)
    ensures Tagged(data, p, "Comp") ==>
      !Tagged(data, p, "Cont") && !Tagged(data, p, "Cntc") && !Tagged(data, p, "RmxP")
    ensures Tagged(data, p, "Cont") || Tagged(data, p, "Cntc") ==> !Tagged(data, p, "RmxP")
  {
  }

  lemma {:induction false} ScanIsLast(data: seq<u8>, at: nat, k: nat)
    requires |data| <= MAX_U64 && Scan(data, at, k).Success?
    ensures EntriesFit(data, at, k)
    ensures var found := Scan(data, at, k).value;
      && found.comp == LastRange(data, at, k, "Comp", "Comp")
      && found.ctrl == LastRange(data, at, k, "Cont", "Cntc")
      && found.rmxp == LastRange(data, at, k, "RmxP", "RmxP")
      && (!found.haveComp ==> found.comp.size == 0)
  {
    if k > 0 {
      ScanIsLast(data, at, k - 1);
      TagsAreCharacters(data, EntryAt(at, k - 1));
      TagsApart(data, EntryAt(at, k - 1));
    }
  }

  // An entry that does not fit the file, or whose chunk does not.
  predicate BadEntry(data: seq<u8>, at: nat, i: nat) {
    !EntriesFit(data, at, i + 1) || RangeOf(data, at, i).off + RangeOf(data, at, i).size > |data|
  }

  // The scan stops at the first bad entry, and says what is out of range.
  lemma {:induction false} ScanStops(data: seq<u8>, at: nat, k: nat, i: nat)
    requires |data| <= MAX_U64 && i <= k && (forall j: nat :: j < i ==> !BadEntry(data, at, j))
    requires i < k ==> BadEntry(data, at, i)
    ensures i == k ==> Scan(data, at, k).Success?
    ensures i < k ==>
      Scan(data, at, k) == Failure(if !EntriesFit(data, at, i + 1) then EntryOutOfRange else ChunkOutOfRange)
  {
    if k > 0 {
      ScanStops(data, at, k - 1, if i < k - 1 then i else k - 1);
      assert i == k ==> !BadEntry(data, at, k - 1);
    }
  }

  lemma {:induction false} FirstBad(data: seq<u8>, at: nat, k: nat) returns (i: nat)
    ensures i <= k && (forall j: nat :: j < i ==> !BadEntry(data, at, j)) && (i < k ==> BadEntry(data, at, i))
  {
    i := 0;
    if k > 0 {
      i := FirstBad(data, at, k - 1);
      if i == k - 1 && !BadEntry(data, at, k - 1) {
        i := k;
      }
    }
  }

  lemma ScanSucceeds(data: seq<u8>, at: nat, k: nat)
    requires |data| <= MAX_U64
    ensures Scan(data, at, k).Success? <==> forall i: nat :: i < k ==> !BadEntry(data, at, i)
    ensures Scan(data, at, k).Failure? ==> Scan(data, at, k).error in {EntryOutOfRange, ChunkOutOfRange}
  {
    var i := FirstBad(data, at, k);
    ScanStops(data, at, k, i);
  }

  // ---------- every answer of the reader ----------

  const MIB64 := 67108864

  predicate GoodHeader(data: seq<u8>) {
    && |data| >= 76 && Tagged(data, 0, "VST3")
    && data[4] == 1 && data[5] == 0 && data[6] == 0 && data[7] == 0
  }

  // The class id in the header is the one asked for, and names a class at all.
  predicate SameClass(data: seq<u8>, uid: seq<u8>)
    requires |data| >= 76
  {
    Normalize(uid) != [] && Normalize(UntilZero(data[8..40])) == Normalize(uid)
  }

  // The chunk list with its tag and count lies where the header says.
  predicate ListThere(data: seq<u8>)
    requires |data| >= 76
  {
    ReadU64(data, 40) + 8 <= |data| && Tagged(data, ReadU64(data, 40), "List")
  }

  lemma HeaderWords(data: seq<u8>)
    requires |data| >= 76
    ensures GoodHeader(data) <==> ReadU32(data, 0) == PRESET_MAGIC && ReadU32(data, 4) == PRESET_VERSION
  {
    TagsAreCharacters(data, 0);
    WordsLittleEndian(data, 4);
    if ReadU32(data, 4) == 1 {
      SameDigits(data[4], data[5], data[6], data[7], 1, 0, 0, 0);
    }
  }

  lemma ListErrors(data: seq<u8>, at: nat)
    requires at + 8 <= |data| <= MAX_U64
    ensures CheckList(data, at) == Failure(ListTooLarge) <==> ReadU32(data, at + 4) > 64
    ensures CheckList(data, at).Failure? ==>
      CheckList(data, at).error in {ListTooLarge, EntryOutOfRange, ChunkOutOfRange, NoComponent}
  {
    ScanSucceeds(data, at, ReadU32(data, at + 4));
  }

  // The header's class id ends before its first zero.
  lemma {:induction false} UntilZeroHasNone(s: seq<u8>)
    ensures 0 !in UntilZero(s)
  {
    if s != [] {
      UntilZeroHasNone(s[1..]);
    }
  }

  // The first complaint, in order: size, header, class, chunk list, and its length of at most 64.
  lemma RefusedFirst(data: seq<u8>, uid: seq<u8>)
    ensures var v := Validated(data, uid);
      && (v == Failure(TooLarge) <==> |data| > MIB64)
      && (v == Failure(BadHeader) <==> |data| <= MIB64 && !GoodHeader(data))
      && (|data| <= MIB64 && GoodHeader(data) ==>
        && (v == Failure(ClassMismatch) <==> !SameClass(data, uid))
        && (v == Failure(ListCorrupt) <==> SameClass(data, uid) && !ListThere(data))
        && (v == Failure(ListTooLarge) <==>
          SameClass(data, uid) && ListThere(data) && ReadU32(data, ReadU64(data, 40) + 4) > 64))
  {
    if |data| <= MIB64 && |data| >= 76 {
      HeaderWords(data);
      var at := ReadU64(data, 40);
      if at + 8 <= |data| {
        TagsAreCharacters(data, at);
        ListErrors(data, at);
      }
    }
  }

  // What the reader makes of the chunk list once the rest is in order.
  predicate ListReached(data: seq<u8>, uid: seq<u8>) {
    && |data| <= MIB64 && GoodHeader(data) && SameClass(data, uid) && ListThere(data)
    && ReadU32(data, ReadU64(data, 40) + 4) <= 64
  }

  lemma ReachedList(data: seq<u8>, uid: seq<u8>)
    requires ListReached(data, uid)
    ensures Validated(data, uid) == CheckList(data, ReadU64(data, 40))
  {
    HeaderWords(data);
    TagsAreCharacters(data, ReadU64(data, 40));
  }

  lemma AcceptedReached(data: seq<u8>, uid: seq<u8>)
    requires Validated(data, uid).Success?
    ensures ListReached(data, uid)
  {
    RefusedFirst(data, uid);
  }

  // A saved file has the header, the first 32 characters of the class id filled up with zeros, and its
  // chunk list where the header says.
  lemma SavedHeader(c: Contents)
    requires Fits(c)
    ensures var data := Saved(c);
      && GoodHeader(data) && ListThere(data)
      && forall i: nat :: i < 32 ==> data[8 + i] == if i < |c.uid| then c.uid[i] else 0
  {
    HeaderBack(c);
    HeaderWords(Saved(c));
    MagicBack(c);
    TagsAreCharacters(Saved(c), ListOffset(c));
    SavedHead(c);
    forall i: nat | i < 32 ensures Saved(c)[8 + i] == if i < |c.uid| then c.uid[i] else 0 {
      assert Saved(c)[8..40][i] == UidField(c.uid)[i];
    }
  }

  // The chunks of a saved file stand one behind the other after the header, and the list behind them
  // names them in the same order.
  lemma SavedOrder(c: Contents)
    requires Fits(c)
    ensures var l, data, at := SavedLayout(c), Saved(c), ListOffset(c);
      && l.comp == Range(48, |c.comp|) && at == 48 + |c.comp| + |CtrlBytes(c)| + |RmxpBytes(c.params)|
      && (c.ctrl.Some? ==> l.ctrl == Range(48 + |c.comp|, |c.ctrl.value|))
      && (c.params != [] ==> l.rmxp == Range(48 + |c.comp| + |CtrlBytes(c)|, |RmxpBytes(c.params)|))
      && Tagged(data, EntryAt(at, 0), "Comp")
      && (c.ctrl.Some? ==> Tagged(data, EntryAt(at, 1), "Cont"))
      && (c.params != [] ==> Tagged(data, EntryAt(at, if c.ctrl.Some? then 2 else 1), "RmxP"))
  {
    SavedTag(c, 0);
    if c.ctrl.Some? {
      SavedTag(c, 1);
    }
    if c.params != [] {
      SavedTag(c, if c.ctrl.Some? then 2 else 1);
    }
  }

  lemma SavedTag(c: Contents, i: nat)
    requires Fits(c) && i < |Entries(c)|
    ensures EntriesFit(Saved(c), ListOffset(c), i + 1)
    ensures ReadU32(Saved(c), EntryAt(ListOffset(c), i)) == Entries(c)[i].0
    ensures var data, p := Saved(c), EntryAt(ListOffset(c), i);
      && (Entries(c)[i].0 == CHUNK_COMP ==> Tagged(data, p, "Comp"))
      && (Entries(c)[i].0 == CHUNK_CONT ==> Tagged(data, p, "Cont"))
      && (Entries(c)[i].0 == CHUNK_RMXP ==> Tagged(data, p, "RmxP"))
  {
    SavedTail(c);
    ListEntry(Entries(c), i);
    ListedAfter(Saved(c), ListOffset(c) + 8, ListBytes(Entries(c)), i * 20, Entries(c)[i].0, Entries(c)[i].1);
    EntryReads(Saved(c), EntryAt(ListOffset(c), i), Entries(c)[i].0, Entries(c)[i].1);
    TagsAreCharacters(Saved(c), EntryAt(ListOffset(c), i));
  }

  // The list is accepted exactly when no entry is bad and the last component state is not empty. The
  // ranges are those of the last entry of each kind: a controller state is tagged 'Cont' or, in files
  // of earlier versions, 'Cntc'.
  lemma AcceptedLast(data: seq<u8>, uid: seq<u8>)
    requires ListReached(data, uid)
    ensures var v, at := Validated(data, uid), ReadU64(data, 40); var k := ReadU32(data, at + 4);
      if exists i: nat :: i < k && BadEntry(data, at, i) then
        v == Failure(EntryOutOfRange) || v == Failure(ChunkOutOfRange)
      else
        && EntriesFit(data, at, k)
        && (v == Failure(NoComponent) <==> LastRange(data, at, k, "Comp", "Comp").size == 0)
        && (v != Failure(NoComponent) ==>
          && v.Success? && v.value.comp == LastRange(data, at, k, "Comp", "Comp")
          && v.value.ctrl == LastRange(data, at, k, "Cont", "Cntc")
          && v.value.rmxp == LastRange(data, at, k, "RmxP", "RmxP"))
  {
    ReachedList(data, uid);
    var at := ReadU64(data, 40);
    var k := ReadU32(data, at + 4);
    ScanSucceeds(data, at, k);
    if Scan(data, at, k).Success? {
      ScanIsLast(data, at, k);
    }
  }

  // A file of an earlier version, whose controller state is tagged 'Cntc', is read like any other.
  lemma LegacyController(data: seq<u8>, uid: seq<u8>, i: nat)
    requires Validated(data, uid).Success?
    requires var at := ReadU64(data, 40); var k := ReadU32(data, at + 4);
      && i < k && Tagged(data, EntryAt(at, i), "Cntc")
      && forall j: nat :: i < j < k ==> !Carries(data, at, j, "Cont", "Cntc")
    ensures var at := ReadU64(data, 40);
      EntriesFit(data, at, i + 1) && Validated(data, uid).value.ctrl == RangeOf(data, at, i)
  {
    AcceptedReached(data, uid);
    AcceptedLast(data, uid);
    var at := ReadU64(data, 40);
    LastRangeIs(data, at, ReadU32(data, at + 4), "Cont", "Cntc", i);
  }

  // ---------- class ids ----------

  predicate UpperHex(s: seq<u8>) {
    |s| == 32 && forall k: nat :: k < 32 ==> '0' as int <= s[k] <= '9' as int || 'A' as int <= s[k] <= 'F' as int
  }

  // A canonical id is itself, every other result is nothing or canonical.
  lemma NormalCanonical(s: seq<u8>)
    ensures UpperHex(s) ==> Normalize(s) == s
    ensures Normalize(s) == [] || UpperHex(Normalize(s))
  {
    StripRaised(s);
    StripPlain(s);
    if UpperHex(s) {
      assert Plain(s);
      assert Strip(s) == s;
    }
  }

  lemma {:induction false} StripRaised(s: seq<u8>)
    ensures forall k: nat :: k < |Strip(s)| ==> !('a' as int <= Strip(s)[k] <= 'z' as int)
  {
    if s != [] {
      StripRaised(s[..|s| - 1]);
    }
  }

  lemma StripInside(a: seq<u8>, c: u8, b: seq<u8>)
    ensures Strip(a + [c] + b) == Strip(a) + Strip([c]) + Strip(b)
    ensures Strip(a + b) == Strip(a) + Strip(b)
  {
    StripSplit(a + [c], b);
    StripSplit(a, [c]);
    StripSplit(a, b);
  }

  // Braces, dashes and spaces do not matter.
  lemma NormalIgnores(a: seq<u8>, c: u8, b: seq<u8>)
    requires c == '{' as int || c == '}' as int || c == '-' as int || c == ' ' as int
    ensures Normalize(a + [c] + b) == Normalize(a + b)
  {
    StripInside(a, c, b);
    StripOne(c);
    assert Strip(a) + [] == Strip(a);
  }

  // Nor does it matter whether a letter is small.
  lemma NormalRaises(a: seq<u8>, c: u8, b: seq<u8>)
    requires 'a' as int <= c <= 'z' as int
    ensures Normalize(a + [c] + b) == Normalize(a + [c - 32] + b)
  {
    StripInside(a, c, b);
    StripInside(a, c - 32, b);
    StripOne(c);
    StripOne(c - 32);
  }

  lemma StripOne(c: u8)
    ensures Strip([c]) == if Separator(c) then [] else [ToUpper(c)]
  {
    assert [c][..0] == [];
  }

  // Without those characters, anything but 32 hex digits is no class id.
  lemma NormalRefuses(s: seq<u8>, k: nat)
    requires forall j: nat :: j < |s| ==> s[j] !in {'{' as int, '}' as int, '-' as int, ' ' as int}
    requires |s| != 32 || (k < 32 && !('0' as int <= s[k] <= '9' as int) && !('A' as int <= s[k] <= 'F' as int)
                           && !('a' as int <= s[k] <= 'f' as int))
    ensures Normalize(s) == []
  {
    assert Plain(s);
    StripPlain(s);
  }

  // ---------- the host parameter table ----------

  predicate FirstWithId(host: seq<Param>, j: nat)
    requires j < |host|
  {
    forall k: nat :: k < j ==> host[k].id != host[j].id
  }

  lemma {:induction false} AssignAt(host: seq<Param>, id: u32, value: u64, j: nat)
    requires j < |host|
    ensures Assign(host, id, value)[j] ==
      if host[j].id == id && FirstWithId(host, j) then Param(id, value) else host[j]
  {
    if host[0].id != id && j > 0 {
      AssignAt(host[1..], id, value, j - 1);
      if host[0].id != host[j].id {
        FirstLater(host, j);
      }
    }
  }

  lemma FirstLater(host: seq<Param>, j: nat)
    requires 0 < j < |host| && host[0].id != host[j].id
    ensures FirstWithId(host[1..], j - 1) <==> FirstWithId(host, j)
  {
    if !FirstWithId(host, j) {
      var k: nat :| k < j && host[k].id == host[j].id;
      assert host[1..][k - 1].id == host[1..][j - 1].id;
    }
  }

  // The id and the value of entry i of the file's table.
  function TableEntry(data: seq<u8>, at: nat, i: nat): Param
    requires at + 4 + 12 * (i + 1) <= |data|
  {
    Param(ReadU32(data, at + 4 + 12 * i), ReadU64(data, at + 8 + 12 * i))
  }

  // A host parameter has taken the value of the last of n entries with its id, if there is one.
  ghost predicate Taken(data: seq<u8>, at: nat, n: nat, before: Param, after: Param)
    requires at + 4 + 12 * n <= |data|
  {
    if exists i: nat :: i < n && TableEntry(data, at, i).id == before.id then
      exists i: nat :: i < n && TableEntry(data, at, i) == after && after.id == before.id
        && forall k: nat :: i < k < n ==> TableEntry(data, at, k).id != before.id
    else after == before
  }

  // Host parameter j is as the first n entries leave it.
  ghost predicate LeftBy(data: seq<u8>, at: nat, n: nat, host: seq<Param>, after: seq<Param>, j: nat)
    requires at + 4 + n * 12 <= |data| && j < |host| == |after|
  {
    && after[j].id == host[j].id
    && (FirstWithId(host, j) ==> Taken(data, at, n, host[j], after[j]))
    && (!FirstWithId(host, j) ==> after[j] == host[j])
  }

  lemma LeftByNext(data: seq<u8>, at: nat, n: nat, host: seq<Param>, mid: seq<Param>, j: nat)
    requires at + 4 + (n + 1) * 12 <= |data| && j < |host| == |mid|
    requires LeftBy(data, at, n, host, mid, j) && forall k: nat :: k <= j ==> mid[k].id == host[k].id
    ensures var entry := TableEntry(data, at, n);
      LeftBy(data, at, n + 1, host, Assign(mid, entry.id, entry.value), j)
  {
    var entry := TableEntry(data, at, n);
    AssignAt(mid, entry.id, entry.value, j);
    SameFirst(mid, host, j);
    if FirstWithId(host, j) {
      TakenNext(data, at, n, host[j], mid[j]);
    }
  }

  lemma {:induction false} AssignedAt(data: seq<u8>, at: nat, n: nat, host: seq<Param>, j: nat)
    requires at + 4 + n * 12 <= |data| && j < |host|
    ensures LeftBy(data, at, n, host, AssignAll(data, at, n, host), j)
  {
    if n > 0 {
      var mid, entry := AssignAll(data, at, n - 1, host), TableEntry(data, at, n - 1);
      forall k: nat | k <= j ensures mid[k].id == host[k].id {
        AssignedAt(data, at, n - 1, host, k);
      }
      AssignedAt(data, at, n - 1, host, j);
      LeftByNext(data, at, n - 1, host, mid, j);
      assert AssignAll(data, at, n, host) == Assign(mid, entry.id, entry.value);
    }
  }

  lemma SameFirst(mid: seq<Param>, host: seq<Param>, j: nat)
    requires |mid| == |host| && j < |host| && forall k: nat :: k <= j ==> mid[k].id == host[k].id
    ensures FirstWithId(mid, j) <==> FirstWithId(host, j)
  {
    if !FirstWithId(host, j) {
      var k: nat :| k < j && host[k].id == host[j].id;
      assert mid[k].id == mid[j].id;
    }
    if !FirstWithId(mid, j) {
      var k: nat :| k < j && mid[k].id == mid[j].id;
      assert host[k].id == host[j].id;
    }
  }

  lemma TakenNext(data: seq<u8>, at: nat, n: nat, before: Param, mid: Param)
    requires at + 4 + 12 * (n + 1) <= |data| && Taken(data, at, n, before, mid)
    ensures var entry := TableEntry(data, at, n);
      Taken(data, at, n + 1, before, if entry.id == before.id then entry else mid)
  {
    var entry := TableEntry(data, at, n);
    if entry.id != before.id && exists i: nat :: i < n && TableEntry(data, at, i).id == before.id {
      var i: nat :| i < n && TableEntry(data, at, i) == mid && mid.id == before.id
        && forall k: nat :: i < k < n ==> TableEntry(data, at, k).id != before.id;
      assert forall k: nat :: i < k < n + 1 ==> TableEntry(data, at, k).id != before.id;
    }
  }

  // The table is taken from the file exactly when its chunk has room for the entries it counts. The
  // first host parameter with an id then has the value of the last entry with it; nothing else changes.
  lemma RestoreOutcome(data: seq<u8>, rmxp: Range, host: seq<Param>)
    requires rmxp.off + rmxp.size <= |data|
    ensures var (after, fromFile) := HostTable(data, rmxp, host);
      && (fromFile <==> rmxp.size >= 4 && 4 + 12 * ReadU32(data, rmxp.off) <= rmxp.size)
      && (!fromFile ==> after == host) && |after| == |host|
      && (fromFile ==> forall j: nat :: j < |host| ==>
        LeftBy(data, rmxp.off, ReadU32(data, rmxp.off), host, after, j))
  {
    if rmxp.size >= 4 && ReadU32(data, rmxp.off) <= (rmxp.size - 4) / 12 {
      forall j: nat | j < |host|
        ensures var n := ReadU32(data, rmxp.off); LeftBy(data, rmxp.off, n, host, AssignAll(data, rmxp.off, n, host), j)
      {
        AssignedAt(data, rmxp.off, ReadU32(data, rmxp.off), host, j);
      }
    }
  }
}
