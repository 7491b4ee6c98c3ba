/** The single-producer single-consumer frame ring (engine/src/spsc_fifo.hpp). */
module SpscFifo {
  import opened Audio
  import opened Modular
  import opened Words

  // The class is the ring as one thread at a time sees it: a bounded queue. The state machine below it
  // runs the same loads, cell copies and stores of one writer and one reader in every interleaving.
  // Positions are 64-bit counters that wrap; the capacity is a power of two.

  const WRAP: int := MAX_U64 + 1

  predicate PowerOfTwo(c: nat) {
    c == 1 || (c > 1 && c % 2 == 0 && PowerOfTwo(c / 2))
  }

  // w - r and p + n in 64-bit unsigned arithmetic.
  function Distance(w: u64, r: u64): u64 {
    if w >= r then w - r else w - r + WRAP
  }

  function Advance(p: u64, n: nat): u64 {
    (p + n) % WRAP
  }

  // ---------- arithmetic ----------

  lemma {:induction false} PowerDivides(c: nat, k: nat)
    requires PowerOfTwo(c) && c <= Pow2(k)
    ensures Pow2(k) % c == 0
  {
    if c > 1 {
      assert k > 0;
      var h, q := c / 2, Pow2(k - 1) / (c / 2);
      PowerDivides(h, k - 1);
      assert Pow2(k - 1) == h * q;
      DoubleProduct(h, q);
      Division(Pow2(k), c, q, 0);
    }
  }

  lemma DoubleProduct(a: nat, q: nat)
    ensures 2 * (a * q) == (2 * a) * q
  {
  }

  function Pow2(k: nat): nat {
    if k == 0 then 1 else 2 * Pow2(k - 1)
  }

  lemma WrapIsPower()
    ensures Pow2(64) == WRAP
  {
    assert Pow2(8) == 0x100;
    assert Pow2(16) == 0x1_0000;
    assert Pow2(24) == 0x100_0000;
    assert Pow2(32) == 0x1_0000_0000;
    assert Pow2(40) == 0x100_0000_0000;
    assert Pow2(48) == 0x1_0000_0000_0000;
    assert Pow2(56) == 0x100_0000_0000_0000;
  }

  // Reducing by a multiple of c first does not change the residue modulo c.
  lemma ModMod(a: nat, m: nat, c: nat)
    requires c > 0 && m > 0 && m % c == 0
    ensures (a % m) % c == a % c
  {
    var q, t, e := a / m, m / c, (a % m) / c;
    var r := (a % m) % c;
    assert m == c * t && a == m * q + (c * e + r);
    ProductSwap(c, t, q);
    assert c * (t * q + e) == c * (t * q) + c * e;
    Division(a, c, t * q + e, r);
  }

  lemma ProductSwap(c: nat, t: nat, q: nat)
    ensures (c * t) * q == c * (t * q)
  {
  }

  // The cell of an absolute position, through its wrapped counter.
  lemma CellOf(p: nat, c: nat)
    requires PowerOfTwo(c) && c < WRAP
    ensures (p % WRAP) % c == p % c
  {
    WrapIsPower();
    PowerDivides(c, 64);
    ModMod(p, WRAP, c);
  }

  lemma WrappedDistance(w: nat, r: nat)
    requires r <= w < r + WRAP
    ensures Distance(w % WRAP, r % WRAP) == w - r
  {
  }

  lemma SliceNext(history: seq<Frame>, from: nat, i: nat)
    requires from + i < |history|
    ensures history[from..from + i + 1] == history[from..from + i] + [history[from + i]]
  {
  }

  lemma SliceSplit(history: seq<Frame>, from: nat, n: nat)
    requires from + n <= |history|
    ensures history[from..] == history[from..from + n] + history[from + n..]
  {
  }

  // A distance that would be negative wraps around.
  lemma WrappedShort(w: nat, r: nat)
    requires w < r < w + WRAP
    ensures Distance(w % WRAP, r % WRAP) == WRAP - (r - w)
  {
  }

  lemma AdvanceWraps(p: nat, n: nat)
    ensures Advance(p % WRAP, n) == (p + n) % WRAP
  {
  }

  // ---------- the ring used by one thread at a time ----------

  class Fifo {
    const cells: array<Frame>
    var wpos: u64
    var rpos: u64
    ghost var history: seq<Frame>   // every frame ever accepted
    ghost var gone: nat             // how many of them were read or dropped

    ghost predicate Valid()
      reads this, cells
    {
      && PowerOfTwo(cells.Length) && cells.Length < WRAP
      && gone <= |history| <= gone + cells.Length
      && wpos == |history| % WRAP && rpos == gone % WRAP
      && forall j :: gone <= j < |history| ==> cells[j % cells.Length] == history[j]
    }

    ghost function Contents(): seq<Frame>
      reads this, cells
      requires Valid()
    {
      history[gone..]
    }

    constructor (capacity: nat)
      requires PowerOfTwo(capacity) && capacity < WRAP
      ensures Valid() && fresh(cells) && Contents() == [] && cells.Length == capacity
    {
      cells := new Frame[capacity](_ => SILENT);
      wpos, rpos, history, gone := 0, 0, [], 0;
    }

    method Size() returns (n: nat)
      requires Valid()
      ensures n == |Contents()| <= cells.Length
    {
      WrappedDistance(|history|, gone);
      n := Distance(wpos, rpos);
    }

    method Write(src: seq<Frame>) returns (n: nat)
      requires Valid()
      modifies this`wpos, this`history, cells
      ensures Valid() && n == Min(|src|, cells.Length - |old(Contents())|)
      ensures history == old(history) + src[..n] && Contents() == old(Contents()) + src[..n]
    {
      WrappedDistance(|history|, gone);
      var used := Distance(wpos, rpos);
      n := Min(|src|, cells.Length - used);
      var w := wpos;
      for i := 0 to n
        modifies this`history, cells
        invariant |history| == |old(history)| + i && history == old(history) + src[..i]
        invariant w == |history| % WRAP
        invariant forall j :: gone <= j < |history| ==> cells[j % cells.Length] == history[j]
      {
        var p := |history|;
        CellOf(p, cells.Length);
        forall j | gone <= j < p ensures j % cells.Length != p % cells.Length {
          DistinctCells(j, p, cells.Length);
        }
        cells[w % cells.Length] := src[i];
        AdvanceWraps(p, 1);
        w := Advance(w, 1);
        history := history + [src[i]];
      }
      wpos := w;
    }

    method Read(frames: nat) returns (dst: seq<Frame>)
      requires Valid()
      modifies this`rpos, this`gone
      ensures Valid() && |dst| == Min(frames, |old(Contents())|)
      ensures old(Contents()) == dst + Contents()
    {
      WrappedDistance(|history|, gone);
      var avail := Distance(wpos, rpos);
      var n := Min(frames, avail);
      var r := rpos;
      dst := [];
      for i := 0 to n
        modifies {}
        invariant r == (gone + i) % WRAP
        invariant dst == history[gone..gone + i]
      {
        CellOf(gone + i, cells.Length);
        SliceNext(history, gone, i);
        dst := dst + [cells[r % cells.Length]];
        AdvanceWraps(gone + i, 1);
        r := Advance(r, 1);
      }
      SliceSplit(history, gone, n);
      rpos := r;
      gone := gone + n;
    }

    // The read position moves on unchecked. Within the contents the oldest frames go; beyond them the
    // ring is broken: its size reads as a huge number until that many frames have been written.
    method DropOldest(n: nat)
      requires Valid()
      modifies this`rpos, this`gone
      ensures n <= |old(Contents())| ==> Valid() && Contents() == old(Contents())[n..]
      ensures |old(Contents())| < n < |old(Contents())| + WRAP ==>
        Distance(wpos, rpos) == WRAP - (n - |old(Contents())|)
    {
      AdvanceWraps(gone, n);
      if |Contents()| < n < |Contents()| + WRAP {
        WrappedShort(|history|, gone + n);
      }
      rpos := Advance(rpos, n);
      gone := gone + n;
    }
  }

  // ---------- one writer and one reader, interleaved ----------

  datatype WriterPc =
    | WriterIdle
    | WriterLoaded(src: seq<Frame>, r: u64)              // read position loaded
    | WriterCopying(src: seq<Frame>, n: nat, i: nat, w: u64)

  datatype ReaderPc =
    | ReaderIdle
    | ReaderLoaded(frames: nat, w: u64)                  // write position loaded
    | ReaderCopying(n: nat, i: nat, r: u64)
    | Sized(avail: u64)                                  // size() taken for a later drop

  // What became of an accepted frame.
  datatype Fate = Got(frame: Frame) | Dropped

  // put and taken are the unwrapped positions, stream the frames copied in, fates what left.
  datatype State = State(
    cells: seq<Frame>, wpos: u64, rpos: u64, writer: WriterPc, reader: ReaderPc,
    put: nat, taken: nat, stream: seq<Frame>, fates: seq<Fate>)

  datatype Event =
    | LoadRead(src: seq<Frame>) | BeginWrite | CopyIn | CommitWrite
    | LoadWrite(frames: nat) | BeginRead | CopyOut | CommitRead
    | TakeSize | Drop(count: nat) | KeepAll

  predicate Enabled(s: State, e: Event) {
    match e
    case LoadRead(_) => s.writer.WriterIdle?
    case BeginWrite => s.writer.WriterLoaded?
    case CopyIn => s.writer.WriterCopying? && s.writer.i < s.writer.n <= |s.writer.src|
    case CommitWrite => s.writer.WriterCopying? && s.writer.i >= s.writer.n
    case LoadWrite(_) => s.reader.ReaderIdle?
    case BeginRead => s.reader.ReaderLoaded?
    case CopyOut => s.reader.ReaderCopying? && s.reader.i < s.reader.n
    case CommitRead => s.reader.ReaderCopying? && s.reader.i >= s.reader.n
    case TakeSize => s.reader.ReaderIdle?
    case Drop(count) => s.reader.Sized? && count <= s.reader.avail
    case KeepAll => s.reader.Sized?
  }

  function Apply(s: State, e: Event): State
    requires 0 < |s.cells| < WRAP && Enabled(s, e)
  {
    match e
    case LoadRead(src) => s.(writer := WriterLoaded(src, s.rpos))
    case BeginWrite =>
      var used := Distance(s.wpos, s.writer.r);
      s.(writer := WriterCopying(s.writer.src, Min(|s.writer.src|, Distance(|s.cells|, used)), 0, s.wpos))
    case CopyIn =>
      var w := s.writer;
      s.(cells := s.cells[w.w % |s.cells| := w.src[w.i]], stream := s.stream + [w.src[w.i]],
         writer := w.(i := w.i + 1, w := Advance(w.w, 1)))
    case CommitWrite => s.(wpos := s.writer.w, put := s.put + s.writer.i, writer := WriterIdle)
    case LoadWrite(frames) => s.(reader := ReaderLoaded(frames, s.wpos))
    case BeginRead =>
      s.(reader := ReaderCopying(Min(s.reader.frames, Distance(s.reader.w, s.rpos)), 0, s.rpos))
    case CopyOut =>
      var r := s.reader;
      s.(fates := s.fates + [Got(s.cells[r.r % |s.cells|])], reader := r.(i := r.i + 1, r := Advance(r.r, 1)))
    case CommitRead => s.(rpos := s.reader.r, taken := s.taken + s.reader.i, reader := ReaderIdle)
    case TakeSize => s.(reader := Sized(Distance(s.wpos, s.rpos)))
    case Drop(count) =>
      s.(rpos := Advance(s.rpos, count), taken := s.taken + count,
         fates := s.fates + seq(count, _ => Dropped), reader := ReaderIdle)
    case KeepAll => s.(reader := ReaderIdle)
  }

  predicate Start(s: State) {
    && PowerOfTwo(|s.cells|) && |s.cells| < WRAP && s.wpos == s.rpos == 0
    && s.writer == WriterIdle && s.reader == ReaderIdle
    && s.put == s.taken == 0 && s.stream == [] && s.fates == []
  }

  // ---------- invariant ----------

  function Copied(w: WriterPc): nat { if w.WriterCopying? then w.i else 0 }

  function CopiedOut(r: ReaderPc): nat { if r.ReaderCopying? then r.i else 0 }

  ghost predicate Counters(s: State) {
    && PowerOfTwo(|s.cells|) && |s.cells| < WRAP
    && s.wpos == s.put % WRAP && s.rpos == s.taken % WRAP
    && s.taken <= s.put && |s.stream| == s.put + Copied(s.writer) <= s.taken + |s.cells|
    && |s.fates| == s.taken + CopiedOut(s.reader) <= s.put
  }

  // The writer's view: what it loaded can only be an older read position.
  ghost predicate WriterFits(s: State) {
    match s.writer
    case WriterLoaded(_, r) =>
      exists t: nat :: t <= s.taken && s.put <= t + |s.cells| && r == t % WRAP
    case WriterCopying(src, n, i, w) =>
      i <= n <= |src| && s.put + n <= s.taken + |s.cells| && w == (s.put + i) % WRAP
    case _ => true
  }

  ghost predicate ReaderFits(s: State) {
    match s.reader
    case ReaderLoaded(_, w) =>
      exists p: nat :: s.taken <= p <= s.put && w == p % WRAP
    case ReaderCopying(n, i, r) => i <= n && s.taken + n <= s.put && r == (s.taken + i) % WRAP
    case Sized(avail) => s.taken + avail <= s.put
    case _ => true
  }

  // The readable cells hold their frames.
  ghost predicate CellsHold(s: State) {
    |s.cells| > 0 && forall j: nat :: s.taken <= j < |s.stream| ==> s.cells[j % |s.cells|] == s.stream[j]
  }

  ghost predicate FatesTrue(s: State) {
    |s.fates| <= |s.stream| && forall j :: 0 <= j < |s.fates| ==>
      s.fates[j] == Dropped || s.fates[j] == Got(s.stream[j])
  }

  ghost predicate Inv(s: State) {
    Counters(s) && WriterFits(s) && ReaderFits(s) && CellsHold(s) && FatesTrue(s)
  }

  lemma BeginWriteFits(s: State)
    requires Counters(s) && WriterFits(s) && s.writer.WriterLoaded?
    ensures WriterFits(Apply(s, BeginWrite)) && Counters(Apply(s, BeginWrite))
  {
    var t: nat :| t <= s.taken && s.put <= t + |s.cells| && s.writer.r == t % WRAP;
    WrappedDistance(s.put, t);
  }

  lemma BeginReadFits(s: State)
    requires Counters(s) && ReaderFits(s) && s.reader.ReaderLoaded?
    ensures ReaderFits(Apply(s, BeginRead)) && Counters(Apply(s, BeginRead))
  {
    var p: nat :| s.taken <= p <= s.put && s.reader.w == p % WRAP;
    WrappedDistance(p, s.taken);
  }

  lemma CopyInKept(s: State)
    requires Inv(s) && Enabled(s, CopyIn)
    ensures Inv(Apply(s, CopyIn))
  {
    var p, c := |s.stream|, |s.cells|;
    CellOf(p, c);
    AdvanceWraps(p, 1);
    forall j: nat | s.taken <= j < p ensures j % c != p % c {
      DistinctCells(j, p, c);
    }
  }

  lemma CopyOutKept(s: State)
    requires Inv(s) && Enabled(s, CopyOut)
    ensures Inv(Apply(s, CopyOut))
  {
    CellOf(|s.fates|, |s.cells|);
    AdvanceWraps(|s.fates|, 1);
  }

  lemma DropKept(s: State, count: nat)
    requires Inv(s) && Enabled(s, Drop(count))
    ensures Inv(Apply(s, Drop(count)))
  {
    AdvanceWraps(s.taken, count);
    StaleOlder(s, Apply(s, Drop(count)));
  }

  // An older read position stays older when the reader moves on.
  lemma StaleOlder(s: State, t: State)
    requires WriterFits(s) && t.writer == s.writer && t.put == s.put && |t.cells| == |s.cells| && s.taken <= t.taken
    ensures WriterFits(t)
  {
  }

  lemma OtherKept(s: State, e: Event)
    requires Inv(s) && Enabled(s, e)
    requires e.LoadRead? || e.CommitWrite? || e.LoadWrite? || e.CommitRead? || e.TakeSize? || e.KeepAll?
    ensures Inv(Apply(s, e))
  {
    match e
    case LoadRead(_) => assert s.rpos == s.taken % WRAP;
    case LoadWrite(_) => assert s.wpos == s.put % WRAP;
    case TakeSize => WrappedDistance(s.put, s.taken);
    case CommitRead => StaleOlder(s, Apply(s, e));
    case _ =>
  }

  lemma InvStep(s: State, e: Event)
    requires Inv(s) && Enabled(s, e)
    ensures Inv(Apply(s, e))
  {
    match e
    case BeginWrite => BeginWriteFits(s);
    case BeginRead => BeginReadFits(s);
    case CopyIn => CopyInKept(s);
    case CopyOut => CopyOutKept(s);
    case Drop(count) => DropKept(s, count);
    case _ => OtherKept(s, e);
  }

  ghost predicate Step(states: seq<State>, events: seq<Event>, k: nat)
    requires |states| == |events| + 1 && k < |events|
  {
    0 < |states[k].cells| < WRAP && Enabled(states[k], events[k]) && states[k + 1] == Apply(states[k], events[k])
  }

  ghost predicate Run(states: seq<State>, events: seq<Event>) {
    && |states| == |events| + 1 && Start(states[0])
    && forall k :: 0 <= k < |events| ==> Step(states, events, k)
  }

  lemma {:induction false} RunInv(states: seq<State>, events: seq<Event>, k: nat)
    requires Run(states, events) && k < |states|
    ensures Inv(states[k])
  {
    if k > 0 {
      RunInv(states, events, k - 1);
      assert Step(states, events, k - 1);
      InvStep(states[k - 1], events[k - 1]);
    }
  }

  // ---------- every run ----------

  // What has left the ring is exactly a prefix of what was accepted: the k-th frame accepted was the
  // k-th to leave, delivered unchanged or dropped. Occupancy stays within the capacity.
  lemma FramesInOrder(states: seq<State>, events: seq<Event>, k: nat)
    requires Run(states, events) && k < |states|
    ensures |states[k].fates| <= states[k].put <= |states[k].stream|
    ensures forall j :: 0 <= j < |states[k].fates| ==>
      states[k].fates[j] == Dropped || states[k].fates[j] == Got(states[k].stream[j])
    ensures states[k].taken <= states[k].put <= states[k].taken + |states[k].cells|
  {
    RunInv(states, events, k);
  }

  // The frames accepted are recorded once and for all.
  lemma {:induction false} StreamGrows(states: seq<State>, events: seq<Event>, i: nat, k: nat)
    requires Run(states, events) && i <= k < |states|
    ensures states[i].stream <= states[k].stream && states[i].fates <= states[k].fates
  {
    if i < k {
      StreamGrows(states, events, i, k - 1);
      assert Step(states, events, k - 1);
    }
  }

  // The cell the writer is about to fill holds no frame the reader may still read.
  lemma WriterCellUnreadable(states: seq<State>, events: seq<Event>, k: nat, j: nat)
    requires Run(states, events) && k < |states| && Enabled(states[k], CopyIn) && |states[k].cells| > 0
    requires states[k].taken <= j < states[k].put
    ensures j % |states[k].cells| != states[k].writer.w % |states[k].cells|
  {
    RunInv(states, events, k);
    CellOf(|states[k].stream|, |states[k].cells|);
    DistinctCells(j, |states[k].stream|, |states[k].cells|);
  }

  // Dropping no more than an earlier size() said never passes the writer.
  lemma DropWithinSize(states: seq<State>, events: seq<Event>, k: nat, count: nat)
    requires Run(states, events) && k < |events| && events[k] == Drop(count)
    ensures states[k].taken + count <= states[k].put
  {
    RunInv(states, events, k);
    assert Step(states, events, k);
  }

  // ---------- what a call does ----------

  // A call under way has copied the first frames of its source in, or frames of the stream out.
  ghost predicate CopiesTrue(s: State) {
    && (s.writer.WriterCopying? ==>
      s.writer.i <= |s.writer.src| && s.put <= |s.stream| && s.stream[s.put..] == s.writer.src[..s.writer.i])
    && (s.reader.ReaderCopying? ==> forall j: nat :: s.taken <= j < |s.fates| ==> s.fates[j].Got?)
  }

  lemma CopiesStep(s: State, e: Event)
    requires Inv(s) && CopiesTrue(s) && Enabled(s, e)
    ensures CopiesTrue(Apply(s, e))
  {
    if e.CopyIn? {
      var t := Apply(s, e);
      assert t.stream[t.put..] == s.stream[s.put..] + [s.writer.src[s.writer.i]];
      assert t.writer.src[..t.writer.i] == s.writer.src[..s.writer.i] + [s.writer.src[s.writer.i]];
    }
  }

  lemma {:induction false} RunCopies(states: seq<State>, events: seq<Event>, k: nat)
    requires Run(states, events) && k < |states|
    ensures CopiesTrue(states[k])
  {
    if k > 0 {
      RunCopies(states, events, k - 1);
      assert Step(states, events, k - 1);
      RunInv(states, events, k - 1);
      CopiesStep(states[k - 1], events[k - 1]);
    }
  }

  // A write that commits has accepted exactly the first frames of its source, as many as it set out to;
  // a read that commits has delivered the oldest frames, none of them dropped; a drop drops its count.
  lemma CommitsWhole(states: seq<State>, events: seq<Event>, k: nat)
    requires Run(states, events) && k < |events|
    ensures events[k].CommitWrite? ==>
      var s, t := states[k], states[k + 1];
      && s.writer.WriterCopying? && s.writer.n <= |s.writer.src|
      && t.put == s.put + s.writer.n == |t.stream| && t.stream[s.put..] == s.writer.src[..s.writer.n]
    ensures events[k].CommitRead? ==>
      var s, t := states[k], states[k + 1];
      && s.reader.ReaderCopying? && t.taken == s.taken + s.reader.n == |t.fates| <= |t.stream|
      && forall j: nat :: s.taken <= j < t.taken ==> t.fates[j] == Got(t.stream[j])
    ensures events[k].Drop? ==>
      var s, t := states[k], states[k + 1];
      && t.taken == s.taken + events[k].count == |t.fates|
      && forall j: nat :: s.taken <= j < t.taken ==> t.fates[j] == Dropped
  {
    RunInv(states, events, k);
    RunCopies(states, events, k);
    assert Step(states, events, k);
  }

  // A write sets out to accept what fits, or the whole source, going by the read position it loaded: all
  // that fits now when the reader has not moved on since. A read sets out likewise, and the size taken
  // is the number of frames held.
  lemma AmountsSetOut(states: seq<State>, events: seq<Event>, k: nat)
    requires Run(states, events) && k < |events|
    ensures events[k].BeginWrite? ==>
      var s, t := states[k], states[k + 1];
      && s.writer.WriterLoaded? && t.writer.WriterCopying? && t.writer.src == s.writer.src
      && s.put + t.writer.n <= s.taken + |s.cells| && t.writer.n <= |s.writer.src|
      && (s.writer.r == s.rpos && t.writer.n < |s.writer.src| ==> s.put + t.writer.n == s.taken + |s.cells|)
    ensures events[k].BeginRead? ==>
      var s, t := states[k], states[k + 1];
      && s.reader.ReaderLoaded? && t.reader.ReaderCopying?
      && s.taken + t.reader.n <= s.put && t.reader.n <= s.reader.frames
      && (s.reader.w == s.wpos && t.reader.n < s.reader.frames ==> s.taken + t.reader.n == s.put)
    ensures events[k].TakeSize? ==>
      states[k + 1].reader.Sized? && states[k + 1].reader.avail == states[k].put - states[k].taken
  {
    RunInv(states, events, k);
    assert Step(states, events, k);
    if events[k].BeginWrite? {
      BeginWriteFits(states[k]);
      WrappedDistance(states[k].put, states[k].taken);
    }
    if events[k].BeginRead? {
      BeginReadFits(states[k]);
      WrappedDistance(states[k].put, states[k].taken);
    }
    if events[k].TakeSize? {
      WrappedDistance(states[k].put, states[k].taken);
    }
  }
}
