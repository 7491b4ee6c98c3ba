/**
 The drift-correcting reader of a FIFO (DriftReader in engine/src/resampler.hpp): it steps through
 the source at a rate nudged by the fill level and interpolates between neighbouring frames.
 Floating point is modelled by reals.

 The writer is another thread: between any two accesses of the reader to the FIFO it may have written
 whatever it liked. A call is described over the stream of accepted frames as it is at its end.
 */
module Resampler {
  import opened Audio
  import opened Words
  import opened SpscFifo

  const MAX_CORRECTION := 0.0005
  const SMOOTHING := 0.0001
  const GAIN := 0.02

  function Clamp(x: real, low: real, high: real): real {
    if x < low then low else if x > high then high else x
  }

  // The fill level aimed at: 20 ms in 32-bit arithmetic, at most a quarter of the ring.
  function Target(capacity: nat, srcRate: u32): nat {
    Min(capacity / 4, (srcRate * 20) % 0x1_0000_0000 / 1000)
  }

  function Smoothed(corr: real, avail: nat, target: nat, capacity: nat): real
    requires capacity > 0
  {
    var err := (avail as real - target as real) / capacity as real;
    corr + SMOOTHING * (Clamp(err * GAIN, -MAX_CORRECTION, MAX_CORRECTION) - corr)
  }

  type Correction = x: real | -MAX_CORRECTION <= x <= MAX_CORRECTION

  type NonNeg = x: real | x >= 0.0

  lemma StepNonNegative(srcRate: u32, dstRate: u32, corr: Correction)
    requires dstRate > 0
    ensures srcRate as real / dstRate as real * (1.0 + corr) >= 0.0
  {
    var ratio, d := srcRate as real / dstRate as real, dstRate as real;
    assert ratio * d == srcRate as real;
    RealOrder(0.0, ratio, d);
    RealOrder(0.0, ratio, 1.0 + corr);
  }

  // Source frames per output.
  function StepOf(srcRate: u32, dstRate: u32, corr: Correction): NonNeg
    requires dstRate > 0
  {
    StepNonNegative(srcRate, dstRate, corr);
    srcRate as real / dstRate as real * (1.0 + corr)
  }

  // The frames dropped to relieve an overrun: half of them, above three quarters of the ring.
  function Excess(avail: nat, capacity: nat): nat {
    if 4 * avail > 3 * capacity then avail / 2 else 0
  }

  // ---------- the head and the source ----------

  // How often 1 can be taken off: the whole frames in a distance.
  function Whole(x: NonNeg): (k: nat)
    ensures k as real <= x < k as real + 1.0
    decreases x.Floor
  {
    if x < 1.0 then 0 else Whole(x - 1.0) + 1
  }

  // The two frames around the head and how far it is between them.
  datatype Head = Head(prev: Frame, cur: Frame, pos: NonNeg)

  // The k-th source frame from the head on: it holds two, the rest are in the FIFO.
  function Tap(h: Head, source: seq<Frame>, k: int): Frame
    requires -1 <= k <= |source|
  {
    if k == -1 then h.prev else if k == 0 then h.cur else source[k - 1]
  }

  datatype Place = Place(head: Head, left: seq<Frame>)

  // The head at source position p and the source left; past its end everything is consumed and silent.
  function MoveTo(h: Head, source: seq<Frame>, p: NonNeg): Place {
    var k := Whole(p);
    if k <= |source| then Place(Head(Tap(h, source, k - 1), Tap(h, source, k), p - k as real), source[k..])
    else Place(Head(SILENT, SILENT, 0.0), [])
  }

  // Source position after i outputs.
  function Position(pos: NonNeg, step: NonNeg, i: nat): NonNeg {
    if i == 0 then pos else Position(pos, step, i - 1) + step
  }

  // The source suffices for i outputs.
  predicate Within(h: Head, source: seq<Frame>, step: NonNeg, i: nat) {
    Whole(Position(h.pos, step, i)) <= |source|
  }

  function Heard(h: Head): Frame {
    Toward(h.prev, h.cur, h.pos)
  }

  // The first n outputs of a call.
  function Outputs(h: Head, source: seq<Frame>, step: NonNeg, n: nat): seq<Frame> {
    if n == 0 then []
    else Outputs(h, source, step, n - 1) + [Heard(MoveTo(h, source, Position(h.pos, step, n)).head)]
  }

  // The same, output by output: a call stops at the first one the source cannot serve.
  datatype Trip = Trip(place: Place, ran: bool)

  function Next(t: Trip, step: NonNeg): Trip {
    if !t.ran then t
    else
      var p := t.place.head.pos + step;
      Trip(MoveTo(t.place.head, t.place.left, p), Whole(p) <= |t.place.left|)
  }

  function Walk(h: Head, source: seq<Frame>, step: NonNeg, i: nat): Trip {
    if i == 0 then Trip(Place(h, source), true) else Next(Walk(h, source, step, i - 1), step)
  }

  // ---------- properties ----------

  lemma {:induction false} PositionLinear(pos: NonNeg, step: NonNeg, i: nat)
    ensures Position(pos, step, i) == pos + i as real * step
  {
    if i > 0 {
      PositionLinear(pos, step, i - 1);
      assert (i - 1) as real * step + step == i as real * step;
    }
  }

  lemma CorrectionBounded(corr: real, avail: nat, target: nat, capacity: nat)
    requires capacity > 0 && -MAX_CORRECTION <= corr <= MAX_CORRECTION
    ensures -MAX_CORRECTION <= Smoothed(corr, avail, target, capacity) <= MAX_CORRECTION
  {
  }

  // More frames waiting never slow the reader down.
  lemma SmoothedGrows(corr: real, avail: nat, more: nat, target: nat, capacity: nat)
    requires capacity > 0 && avail <= more
    ensures Smoothed(corr, avail, target, capacity) <= Smoothed(corr, more, target, capacity)
  {
    var low := (avail as real - target as real) / capacity as real;
    var high := (more as real - target as real) / capacity as real;
    RealOrder(low, high, capacity as real);
    assert low * capacity as real == avail as real - target as real;
    assert high * capacity as real == more as real - target as real;
    Shrunk(low, high, 0.02);
  }

  lemma Shrunk(low: real, high: real, part: real)
    requires low <= high && part > 0.0
    ensures low * part <= high * part
  {
    RealOrder(low, high, part);
  }

  lemma Share(surplus: real, c: real) returns (err: real)
    requires c > 0.0
    ensures err == surplus / c && err * c == surplus
    ensures (err > 0.0 <==> surplus > 0.0) && (err < 0.0 <==> surplus < 0.0)
    ensures (err > 0.025 <==> 40.0 * surplus > c) && (err < -0.025 <==> 40.0 * surplus < -c)
  {
    err := surplus / c;
    assert err * c == surplus;
    RealOrder(err, 0.0, c);
    RealOrder(0.0, err, c);
    OneFortieth(err, surplus, c);
  }

  lemma OneFortieth(err: real, surplus: real, c: real)
    requires c > 0.0 && err * c == surplus
    ensures (err > 0.025 <==> 40.0 * surplus > c) && (err < -0.025 <==> 40.0 * surplus < -c)
  {
    RealOrder(1.0, 40.0 * err, c);
    RealOrder(40.0 * err, -1.0, c);
    assert (40.0 * err) * c == 40.0 * surplus;
  }

  lemma Scaled(err: real, c: real, surplus: real, part: real)
    requires err * c == surplus
    ensures (err * part) * c == part * surplus
  {
  }

  // A reader at the nominal rate speeds up when there are more frames than aimed at and slows down when
  // there are fewer: by a ten-thousandth of a fiftieth of the surplus, as a share of the ring, and by
  // at most a ten-thousandth of 500 parts in a million.
  lemma FeedbackFromRest(avail: nat, target: nat, capacity: nat)
    requires capacity > 0
    ensures var s := Smoothed(0.0, avail, target, capacity);
      && (s > 0.0 <==> avail > target) && (s < 0.0 <==> avail < target)
      && var surplus := avail as real - target as real;
        if 40.0 * surplus > capacity as real then s == 0.00000005
        else if 40.0 * surplus < -(capacity as real) then s == -0.00000005
        else s * capacity as real == 0.000002 * surplus
  {
    var surplus, c := avail as real - target as real, capacity as real;
    var err := Share(surplus, c);
    Scaled(err, c, surplus, 0.000002);
    var s := Smoothed(0.0, avail, target, capacity);
    assert s == 0.0001 * Clamp(err * 0.02, -0.0005, 0.0005);
    if -0.025 <= err <= 0.025 {
      assert s == err * 0.000002;
    }
  }

  // From any correction the smoothing goes a ten-thousandth of the way to where the feedback aims.
  lemma SmoothedForgets(corr: real, avail: nat, target: nat, capacity: nat)
    requires capacity > 0
    ensures Smoothed(corr, avail, target, capacity) == Smoothed(0.0, avail, target, capacity) + 0.9999 * corr
  {
  }

  // The fill level aimed at is 20 ms, or a quarter of the ring if that is less; rates that overflow the
  // 32-bit product aim lower.
  lemma TargetIs20Ms(capacity: nat, srcRate: u32)
    requires 20 * srcRate < 0x1_0000_0000
    ensures var level := Target(capacity, srcRate);
      && 4 * level <= capacity && 50 * level <= srcRate
      && (4 * (level + 1) > capacity || 50 * (level + 1) > srcRate)
  {
  }

  // As many outputs as the device plays in a second take a second of source, times the correction.
  lemma OneSecond(pos: NonNeg, srcRate: u32, dstRate: u32, corr: Correction)
    requires dstRate > 0
    ensures Position(pos, StepOf(srcRate, dstRate, corr), dstRate) == pos + srcRate as real * (1.0 + corr)
  {
    var ratio, d := srcRate as real / dstRate as real, dstRate as real;
    PositionLinear(pos, StepOf(srcRate, dstRate, corr), dstRate);
    assert ratio * d == srcRate as real;
    assert d * (ratio * (1.0 + corr)) == (ratio * d) * (1.0 + corr);
  }

  // An overrun leaves the newer half of the frames, rounded up; a FIFO filled to three quarters or less
  // is left alone.
  lemma RelievedToHalf(avail: nat, capacity: nat)
    ensures var kept := avail - Excess(avail, capacity);
      if 4 * avail <= 3 * capacity then kept == avail else avail <= 2 * kept <= avail + 1
  {
  }

  lemma WholeIs(x: NonNeg, k: nat)
    requires k as real <= x < k as real + 1.0
    ensures Whole(x) == k
  {
  }

  lemma WholeIsFloor(x: NonNeg)
    ensures Whole(x) == x.Floor
  {
  }

  // Whole frames taken off first make no difference.
  lemma WholeRest(p: NonNeg, step: NonNeg)
    ensures p - Whole(p) as real >= 0.0
    ensures Whole(p + step) == Whole(p) + Whole(p - Whole(p) as real + step)
  {
    WholeIs(p + step, Whole(p) + Whole(p - Whole(p) as real + step));
  }

  lemma TapShift(h: Head, source: seq<Frame>, k: nat, q: int, pos: NonNeg)
    requires k <= |source| && -1 <= q <= |source| - k
    ensures Tap(Head(Tap(h, source, k - 1), Tap(h, source, k), pos), source[k..], q) == Tap(h, source, k + q)
  {
  }

  // Taking q more frames after k is taking k + q.
  lemma PlaceShift(h: Head, source: seq<Frame>, k: nat, q: nat, pos: NonNeg, pos2: NonNeg)
    requires k + q <= |source|
    ensures var m := Head(Tap(h, source, k - 1), Tap(h, source, k), pos);
      Place(Head(Tap(m, source[k..], q - 1), Tap(m, source[k..], q), pos2), source[k..][q..]) ==
      Place(Head(Tap(h, source, k + q - 1), Tap(h, source, k + q), pos2), source[k + q..])
  {
    TapShift(h, source, k, q, pos);
    TapShift(h, source, k, q - 1, pos);
    assert source[k..][q..] == source[k + q..];
  }

  // Moving to p and then on by a step is moving to p + step.
  lemma MoveMove(h: Head, source: seq<Frame>, p: NonNeg, step: NonNeg)
    requires Whole(p) <= |source|
    ensures var m := MoveTo(h, source, p);
      && MoveTo(m.head, m.left, m.head.pos + step) == MoveTo(h, source, p + step)
      && (Whole(p + step) <= |source| <==> Whole(m.head.pos + step) <= |m.left|)
  {
    WholeRest(p, step);
    MoveWhole(h, source, p, p - Whole(p) as real, step, Whole(p), Whole(p - Whole(p) as real + step));
  }

  lemma MoveWhole(h: Head, source: seq<Frame>, p: NonNeg, rest: NonNeg, step: NonNeg, k: nat, q: nat)
    requires rest == p - k as real && Whole(p) == k <= |source| && Whole(rest + step) == q && Whole(p + step) == k + q
    ensures var m := MoveTo(h, source, p);
      && m.head.pos == rest && |m.left| == |source| - k
      && MoveTo(m.head, m.left, rest + step) == MoveTo(h, source, p + step)
  {
    if k + q <= |source| {
      PlaceShift(h, source, k, q, rest, rest + step - q as real);
    }
  }

  lemma {:induction false} OutputsAt(h: Head, source: seq<Frame>, step: NonNeg, n: nat, i: nat)
    requires i < n
    ensures |Outputs(h, source, step, n)| == n
    ensures Outputs(h, source, step, n)[i] == Heard(MoveTo(h, source, Position(h.pos, step, i + 1)).head)
  {
    if i < n - 1 {
      OutputsAt(h, source, step, n - 1, i);
    } else if n > 1 {
      OutputsAt(h, source, step, n - 1, 0);
    }
  }

  lemma HeardSilence()
    ensures Heard(Head(SILENT, SILENT, 0.0)) == SILENT
  {
  }

  // While the source suffices, an output lies between two source frames that follow each other, those
  // the position has got to; after that every output is silence.
  lemma OutputBetween(h: Head, source: seq<Frame>, step: NonNeg, n: nat, i: nat)
    requires i < n
    ensures |Outputs(h, source, step, n)| == n
    ensures var y, k := Outputs(h, source, step, n)[i], Whole(Position(h.pos, step, i + 1));
      if Within(h, source, step, i + 1) then
        && InRange(y.left, Tap(h, source, k - 1).left, Tap(h, source, k).left)
        && InRange(y.right, Tap(h, source, k - 1).right, Tap(h, source, k).right)
      else y == SILENT
  {
    OutputsAt(h, source, step, n, i);
    HeardSilence();
    var p := Position(h.pos, step, i + 1);
    if Whole(p) <= |source| {
      TowardBetween(Tap(h, source, Whole(p) - 1), Tap(h, source, Whole(p)), p - Whole(p) as real);
    }
  }

  // The frame lies the fraction f of the way from a to b, on both sides.
  predicate Divides(y: Frame, a: Frame, b: Frame, f: real) {
    y.left == a.left * (1.0 - f) + b.left * f && y.right == a.right * (1.0 - f) + b.right * f
  }

  lemma HeardDivides(h: Head)
    ensures Divides(Heard(h), h.prev, h.cur, h.pos)
  {
    Weighted(h.prev.left, h.cur.left, h.pos);
    Weighted(h.prev.right, h.cur.right, h.pos);
  }

  lemma MovedDivides(h: Head, source: seq<Frame>, p: NonNeg, k: int)
    requires k == p.Floor && Whole(p) <= |source|
    ensures k == Whole(p)
    ensures Divides(Heard(MoveTo(h, source, p).head), Tap(h, source, k - 1), Tap(h, source, k), p - k as real)
  {
    WholeIsFloor(p);
    HeardDivides(MoveTo(h, source, p).head);
  }

  // Output i is read at source position p, which is pos + (i + 1) * step by PositionLinear: its whole
  // part k counts the frames taken, and its fraction divides the last two of them.
  lemma OutputDivides(h: Head, source: seq<Frame>, step: NonNeg, n: nat, i: nat)
    requires i < n && Within(h, source, step, i + 1)
    ensures |Outputs(h, source, step, n)| == n
    ensures var p := Position(h.pos, step, i + 1); var k := p.Floor;
      && 0 <= k <= |source|
      && Divides(Outputs(h, source, step, n)[i], Tap(h, source, k - 1), Tap(h, source, k), p - k as real)
  {
    OutputsAt(h, source, step, n, i);
    MovedDivides(h, source, Position(h.pos, step, i + 1), Position(h.pos, step, i + 1).Floor);
  }

  lemma {:induction false} PositionGrows(pos: NonNeg, step: NonNeg, i: nat, n: nat)
    requires i <= n
    ensures Position(pos, step, i) <= Position(pos, step, n)
  {
    if i < n {
      PositionGrows(pos, step, i, n - 1);
    }
  }

  lemma WholeGrows(x: NonNeg, y: NonNeg)
    requires x <= y
    ensures Whole(x) <= Whole(y)
  {
  }

  // Once the source has run out, it stays so: the rest of a call is silence and nothing is left.
  lemma {:induction false} StoppedSilent(h: Head, source: seq<Frame>, step: NonNeg, i: nat, n: nat)
    requires i < n && !Within(h, source, step, i + 1)
    ensures !Within(h, source, step, n)
    ensures MoveTo(h, source, Position(h.pos, step, n)) == Place(Head(SILENT, SILENT, 0.0), [])
    ensures Outputs(h, source, step, n) == Outputs(h, source, step, i) + seq(n - i, _ => SILENT)
  {
    HeardSilence();
    PositionGrows(h.pos, step, i + 1, n);
    WholeGrows(Position(h.pos, step, i + 1), Position(h.pos, step, n));
    if n > i + 1 {
      StoppedSilent(h, source, step, i, n - 1);
      assert seq(n - i, _ => SILENT) == seq(n - 1 - i, _ => SILENT) + [SILENT];
    } else {
      assert seq(n - i, _ => SILENT) == [SILENT];
    }
  }

  // Frames that arrive later change nothing that came before.
  lemma MoveLater(h: Head, source: seq<Frame>, later: seq<Frame>, p: NonNeg)
    requires source <= later && Whole(p) <= |source|
    ensures MoveTo(h, later, p) == Place(MoveTo(h, source, p).head, later[Whole(p)..])
  {
  }

  lemma {:induction false} OutputsLater(h: Head, source: seq<Frame>, later: seq<Frame>, step: NonNeg, i: nat)
    requires source <= later && Within(h, source, step, i)
    ensures Outputs(h, later, step, i) == Outputs(h, source, step, i)
  {
    if i > 0 {
      PositionGrows(h.pos, step, i - 1, i);
      WholeGrows(Position(h.pos, step, i - 1), Position(h.pos, step, i));
      OutputsLater(h, source, later, step, i - 1);
      MoveLater(h, source, later, Position(h.pos, step, i));
    }
  }

  // One step from position p leads to p + step, or nowhere once the source has run out.
  lemma NextMoves(h: Head, source: seq<Frame>, p: NonNeg, step: NonNeg)
    ensures Next(Trip(MoveTo(h, source, p), Whole(p) <= |source|), step)
            == Trip(MoveTo(h, source, p + step), Whole(p + step) <= |source|)
  {
    WholeRest(p, step);
    if Whole(p) <= |source| {
      MoveMove(h, source, p, step);
    }
  }

  // Step by step or at once, the head gets to the same place.
  lemma {:induction false} WalkMoves(h: Head, source: seq<Frame>, step: NonNeg, i: nat)
    requires h.pos < 1.0
    ensures var p := Position(h.pos, step, i);
      Walk(h, source, step, i) == Trip(MoveTo(h, source, p), Whole(p) <= |source|)
  {
    if i == 0 {
      StayPut(h, source);
    } else {
      WalkMoves(h, source, step, i - 1);
      NextMoves(h, source, Position(h.pos, step, i - 1), step);
    }
  }

  lemma StayPut(h: Head, source: seq<Frame>)
    requires h.pos < 1.0
    ensures Whole(h.pos) == 0 && MoveTo(h, source, h.pos) == Place(h, source)
  {
  }

  lemma {:induction false} OutputsLength(h: Head, source: seq<Frame>, step: NonNeg, n: nat)
    ensures |Outputs(h, source, step, n)| == n
  {
    if n > 0 {
      OutputsLength(h, source, step, n - 1);
    }
  }

  // ---------- the reader ----------

  // The other thread, at a moment between two accesses of the reader: it may write anything.
  method WriterRuns(fifo: Fifo)
    requires fifo.Valid()
    modifies fifo`wpos, fifo`history, fifo.cells
    ensures fifo.Valid() && old(fifo.history) <= fifo.history
  {
    var frames: seq<Frame> := *;
    var n := fifo.Write(frames);
  }

  class DriftReader {
    var pos: NonNeg
    var corr: Correction
    var prev: Frame
    var cur: Frame
    var started: bool
    var underruns: u64

    ghost predicate Valid()
      reads this
    {
      pos < 1.0
    }

    function HeadNow(): Head
      reads this
    {
      Head(prev, cur, pos)
    }

    // The head and what is left in its FIFO.
    ghost function Here(fifo: Fifo): Place
      reads this, fifo, fifo.cells
      requires fifo.Valid()
    {
      Place(HeadNow(), fifo.Contents())
    }

    constructor ()
      ensures Valid() && HeadNow() == Head(SILENT, SILENT, 0.0) && !started && underruns == 0 && corr == 0.0
    {
      pos, corr, prev, cur, started, underruns := 0.0, 0.0, SILENT, SILENT, false, 0;
    }

    // Whether reading has begun, and the correction, after the fill level has been taken: it begins with
    // the first frames at or above the target, and is corrected from then on.
    predicate Adjusted(startedBefore: bool, corrBefore: real, avail: nat, capacity: nat, srcRate: u32)
      reads this
      requires capacity > 0
    {
      var target := Target(capacity, srcRate);
      && started == (startedBefore || (avail > 0 && avail >= target))
      && corr == if started then Smoothed(corrBefore, avail, target, capacity) else corrBefore
    }

    // The fill-level feedback of one call.
    method Adjust(avail: nat, capacity: nat, srcRate: u32)
      requires Valid() && capacity > 0
      modifies this`corr, this`started
      ensures Valid()
      ensures started == (old(started) || (avail > 0 && avail >= Target(capacity, srcRate)))
      ensures corr == if started then Smoothed(old(corr), avail, Target(capacity, srcRate), capacity) else old(corr)
    {
      var target := Target(capacity, srcRate);
      if avail > 0 || started {
        if !started && avail >= target {
          started := true;
        }
        if started {
          CorrectionBounded(corr, avail, target, capacity);
          corr := Smoothed(corr, avail, target, capacity);
        }
      }
    }

    // Takes the next source frame, or goes silent when there is none.
    method Take(fifo: Fifo) returns (ok: bool)
      requires fifo.Valid()
      modifies this`pos, this`prev, this`cur, this`underruns
      modifies fifo`wpos, fifo`rpos, fifo`history, fifo`gone, fifo.cells
      ensures fifo.Valid() && old(fifo.history) <= fifo.history
      ensures ok == (old(fifo.gone) < |fifo.history|)
      ensures ok ==>
        && fifo.gone == old(fifo.gone) + 1 && cur == fifo.history[old(fifo.gone)] && prev == old(cur)
        && pos == old(pos) && underruns == old(underruns)
      ensures !ok ==>
        && Here(fifo) == Place(Head(SILENT, SILENT, 0.0), [])
        && underruns == (old(underruns) + 1) % (MAX_U64 + 1)
    {
      prev := cur;
      WriterRuns(fifo);
      var s := fifo.Read(1);
      ok := |s| == 1;
      if ok {
        cur := s[0];
      } else {
        pos, prev, cur := 0.0, SILENT, SILENT;
        underruns := (underruns + 1) % (MAX_U64 + 1);
      }
    }

    // Moves the head by one output; `ok` is false when the source ran out.
    method Advance(fifo: Fifo, step: NonNeg) returns (ok: bool)
      requires Valid() && fifo.Valid()
      modifies this`pos, this`prev, this`cur, this`underruns
      modifies fifo`wpos, fifo`rpos, fifo`history, fifo`gone, fifo.cells
      ensures fifo.Valid() && Valid() && old(fifo.history) <= fifo.history
      ensures var source := fifo.history[old(fifo.gone)..];
        && ok == (Whole(old(pos) + step) <= |source|)
        && Here(fifo) == MoveTo(old(HeadNow()), source, old(pos) + step)
      ensures underruns == if ok then old(underruns) else (old(underruns) + 1) % (MAX_U64 + 1)
    {
      ghost var p, g, h := pos + step, fifo.gone, HeadNow();
      ghost var k: int := 0;
      pos := pos + step;
      ok := true;
      while pos >= 1.0
        invariant fifo.Valid() && old(fifo.history) <= fifo.history && fifo.gone == g + k
        invariant 0 <= k && pos == p - k as real && underruns == old(underruns)
        invariant prev == Tap(h, fifo.history[g..], k - 1) && cur == Tap(h, fifo.history[g..], k)
        decreases Whole(p) - k
      {
        ghost var before := fifo.history;
        ok := Take(fifo);
        if !ok {
          RanOut(h, fifo.history, g, k, p);
          return;
        }
        TapLater(h, before, fifo.history, g, k);
        k := k + 1;
        pos := pos - 1.0;
      }
      Arrived(h, fifo.history, g, k, p);
    }

    // One output, written at i unless the source ran out.
    method Emit(fifo: Fifo, out: array<Frame>, i: nat, step: NonNeg) returns (ok: bool)
      requires Valid() && fifo.Valid() && i < out.Length && out != fifo.cells
      modifies this`pos, this`prev, this`cur, this`underruns, out
      modifies fifo`wpos, fifo`rpos, fifo`history, fifo`gone, fifo.cells
      ensures fifo.Valid() && Valid() && old(fifo.history) <= fifo.history
      ensures var before := Place(old(HeadNow()), fifo.history[old(fifo.gone)..]);
        Trip(Here(fifo), ok) == Next(Trip(before, true), step)
      ensures underruns == if ok then old(underruns) else (old(underruns) + 1) % (MAX_U64 + 1)
      ensures out[..] == if ok then old(out[..])[i := Heard(HeadNow())] else old(out[..])
    {
      ok := Advance(fifo, step);
      if ok {
        out[i] := Toward(prev, cur, pos);
      }
    }

    // Silences the rest of a call that has put out i frames of its n.
    method FillSilence(out: array<Frame>, i: nat, n: nat, ghost done: seq<Frame>, ghost was: seq<Frame>)
      requires i <= n <= out.Length == |was| && |done| == i && out[..] == done + was[i..]
      modifies out
      ensures out[..] == done + seq(n - i, _ => SILENT) + was[n..]
    {
      for j := i to n
        invariant out[..] == done + seq(j - i, _ => SILENT) + was[j..]
      {
        out[j] := SILENT;
      }
    }

    // The head has made i outputs from position g of the stream without running out.
    ghost predicate Reached(h: Head, fifo: Fifo, g: nat, step: NonNeg, i: nat)
      reads this, fifo, fifo.cells
      requires fifo.Valid()
    {
      && g <= |fifo.history| && Within(h, fifo.history[g..], step, i)
      && Here(fifo) == MoveTo(h, fifo.history[g..], Position(h.pos, step, i))
    }

    // The i-th output of a call that began with head h at position g of the stream.
    method EmitNext(fifo: Fifo, out: array<Frame>, i: nat, step: NonNeg, ghost h: Head, ghost g: nat) returns (ok: bool)
      requires Valid() && fifo.Valid() && i < out.Length && out != fifo.cells && Reached(h, fifo, g, step, i)
      modifies this`pos, this`prev, this`cur, this`underruns, out
      modifies fifo`wpos, fifo`rpos, fifo`history, fifo`gone, fifo.cells
      ensures fifo.Valid() && Valid() && old(fifo.history) <= fifo.history
      ensures ok == Within(h, fifo.history[g..], step, i + 1)
      ensures Here(fifo) == MoveTo(h, fifo.history[g..], Position(h.pos, step, i + 1))
      ensures Outputs(h, fifo.history[g..], step, i) == Outputs(h, old(fifo.history)[g..], step, i)
      ensures underruns == if ok then old(underruns) else (old(underruns) + 1) % (MAX_U64 + 1)
      ensures out[..] == if ok then old(out[..])[i := Heard(HeadNow())] else old(out[..])
    {
      ghost var before, at := fifo.history, fifo.gone;
      ok := Emit(fifo, out, i, step);
      Emitted(h, before, fifo.history, g, at, step, i);
    }

    // The first i outputs stand in the buffer, before what was in it.
    ghost predicate Filled(out: array<Frame>, was: seq<Frame>, h: Head, source: seq<Frame>, step: NonNeg, i: nat)
      reads out
    {
      i <= out.Length == |was| && out[..] == Outputs(h, source, step, i) + was[i..]
    }

    // The i-th of n outputs, and silence for the rest when the source has run out.
    method FillNext(fifo: Fifo, out: array<Frame>, i: nat, n: nat, step: NonNeg, ghost h: Head, ghost g: nat,
                    ghost was: seq<Frame>)
      returns (ok: bool)
      requires Valid() && fifo.Valid() && i < n <= out.Length && out != fifo.cells
      requires Reached(h, fifo, g, step, i) && Filled(out, was, h, fifo.history[g..], step, i)
      modifies this`pos, this`prev, this`cur, this`underruns, out
      modifies fifo`wpos, fifo`rpos, fifo`history, fifo`gone, fifo.cells
      ensures fifo.Valid() && Valid() && old(fifo.history) <= fifo.history
      ensures ok ==> Reached(h, fifo, g, step, i + 1) && Filled(out, was, h, fifo.history[g..], step, i + 1)
      ensures !ok ==> !Within(h, fifo.history[g..], step, n) && Filled(out, was, h, fifo.history[g..], step, n)
      ensures !ok ==> Here(fifo) == MoveTo(h, fifo.history[g..], Position(h.pos, step, n))
      ensures underruns == if ok then old(underruns) else (old(underruns) + 1) % (MAX_U64 + 1)
    {
      ok := EmitNext(fifo, out, i, step, h, g);
      ghost var done := Outputs(h, fifo.history[g..], step, i);
      OutputsLength(h, fifo.history[g..], step, i);
      if ok {
        PrefixNext(done, was, i, Heard(HeadNow()));
      } else {
        StoppedSilent(h, fifo.history[g..], step, i, n);
        FillSilence(out, i, n, done, was);
      }
    }

    // The outputs of one call, at a fixed step.
    method Fill(fifo: Fifo, out: array<Frame>, n: nat, step: NonNeg)
      requires Valid() && fifo.Valid() && n <= out.Length && out != fifo.cells
      modifies this`pos, this`prev, this`cur, this`underruns, out
      modifies fifo`wpos, fifo`rpos, fifo`history, fifo`gone, fifo.cells
      ensures fifo.Valid() && Valid() && old(fifo.history) <= fifo.history
      ensures Served(old(HeadNow()), fifo, old(fifo.gone), step, n, old(underruns))
      ensures out[..] == Outputs(old(HeadNow()), fifo.history[old(fifo.gone)..], step, n) + old(out[n..])
    {
      ghost var h, g, was := HeadNow(), fifo.gone, out[..];
      StayPut(h, fifo.Contents());
      for i := 0 to n
        invariant fifo.Valid() && Valid() && underruns == old(underruns) && old(fifo.history) <= fifo.history
        invariant Reached(h, fifo, g, step, i) && Filled(out, was, h, fifo.history[g..], step, i)
      {
        var ok := FillNext(fifo, out, i, n, step, h, g, was);
        if !ok {
          return;
        }
      }
      Consumed(h, fifo.history, g, fifo.gone, Position(h.pos, step, n));
    }

    // Drops the excess seen when the fill level was taken.
    method Relieve(fifo: Fifo, avail: nat)
      requires fifo.Valid() && avail <= |fifo.Contents()|
      modifies fifo`wpos, fifo`rpos, fifo`history, fifo`gone, fifo.cells
      ensures fifo.Valid() && old(fifo.history) <= fifo.history
      ensures fifo.gone == old(fifo.gone) + Excess(avail, fifo.cells.Length)
    {
      if 4 * avail > 3 * fifo.cells.Length {
        WriterRuns(fifo);
        fifo.DropOldest(avail / 2);
      }
    }

    // Overrun relief, then exactly n outputs at a fixed step.
    method Serve(fifo: Fifo, out: array<Frame>, n: nat, avail: nat, step: NonNeg)
      requires Valid() && fifo.Valid() && n <= out.Length && out != fifo.cells && avail <= |fifo.Contents()|
      modifies this`pos, this`prev, this`cur, this`underruns, out
      modifies fifo`wpos, fifo`rpos, fifo`history, fifo`gone, fifo.cells
      ensures fifo.Valid() && Valid() && old(fifo.history) <= fifo.history
      ensures old(fifo.gone) + Excess(avail, fifo.cells.Length) <= |fifo.history|
      ensures var start := old(fifo.gone) + Excess(avail, fifo.cells.Length);
        Served(old(HeadNow()), fifo, start, step, n, old(underruns))
      ensures out[n..] == old(out[n..])
      ensures var start := old(fifo.gone) + Excess(avail, fifo.cells.Length);
        out[..n] == Outputs(old(HeadNow()), fifo.history[start..], step, n)
    {
      Relieve(fifo, avail);
      OutputsLength(HeadNow(), fifo.Contents(), step, n);
      Fill(fifo, out, n, step);
      OutputsLength(old(HeadNow()), fifo.history[old(fifo.gone) + Excess(avail, fifo.cells.Length)..], step, n);
    }

    // The state after n outputs from `start` of the stream: where the head is, what was consumed, and
    // whether the stream was long enough.
    ghost predicate Served(h: Head, fifo: Fifo, start: nat, step: NonNeg, n: nat, underrunsBefore: u64)
      reads this, fifo, fifo.cells
      requires fifo.Valid() && start <= |fifo.history|
    {
      var source := fifo.history[start..];
      && Here(fifo) == MoveTo(h, source, Position(h.pos, step, n))
      && (Within(h, source, step, n) ==> fifo.gone == start + Whole(Position(h.pos, step, n)))
      && underruns == if Within(h, source, step, n) then underrunsBefore else (underrunsBefore + 1) % (MAX_U64 + 1)
    }

    // One call: feedback, overrun relief, then exactly dstFrames outputs. Without an underrun it
    // consumes the whole frames of its final position, floor(pos + dstFrames * step) by ConsumesFloor.
    method Read(fifo: Fifo, out: array<Frame>, dstFrames: nat, srcRate0: u32, dstRate: u32)
      requires Valid() && fifo.Valid() && dstRate > 0 && dstFrames <= out.Length && out != fifo.cells
      modifies this, out, fifo`wpos, fifo`rpos, fifo`history, fifo`gone, fifo.cells
      ensures fifo.Valid() && Valid() && old(fifo.history) <= fifo.history
      ensures Adjusted(old(started), old(corr), |old(fifo.Contents())|, fifo.cells.Length,
                       if srcRate0 == 0 then dstRate else srcRate0)
      ensures old(fifo.gone) + Excess(|old(fifo.Contents())|, fifo.cells.Length) <= |fifo.history|
      ensures var start := old(fifo.gone) + Excess(|old(fifo.Contents())|, fifo.cells.Length);
        var step := StepOf(if srcRate0 == 0 then dstRate else srcRate0, dstRate, corr);
        && Served(old(HeadNow()), fifo, start, step, dstFrames, old(underruns))
        && out[..dstFrames] == Outputs(old(HeadNow()), fifo.history[start..], step, dstFrames)
        && out[dstFrames..] == old(out[dstFrames..])
    {
      var srcRate := if srcRate0 == 0 then dstRate else srcRate0;
      var avail := fifo.Size();
      Adjust(avail, fifo.cells.Length, srcRate);
      assert HeadNow() == old(HeadNow()) && underruns == old(underruns);
      Serve(fifo, out, dstFrames, avail, StepOf(srcRate, dstRate, corr));
    }
  }

  lemma Consumed(h: Head, history: seq<Frame>, start: nat, gone: nat, p: NonNeg)
    requires start <= |history| && gone <= |history| && history[gone..] == MoveTo(h, history[start..], p).left
    ensures Whole(p) <= |history[start..]| ==> gone == start + Whole(p)
  {
    assert |history[gone..]| == |history| - gone;
  }

  // The i-th output over a stream that has grown meanwhile.
  lemma Emitted(h: Head, before: seq<Frame>, after: seq<Frame>, g: nat, at: nat, step: NonNeg, i: nat)
    requires g <= |before| && before <= after && at <= |before|
    requires Within(h, before[g..], step, i) && MoveTo(h, before[g..], Position(h.pos, step, i)).left == before[at..]
    ensures Outputs(h, after[g..], step, i) == Outputs(h, before[g..], step, i)
    ensures Next(Trip(Place(MoveTo(h, before[g..], Position(h.pos, step, i)).head, after[at..]), true), step)
            == Trip(MoveTo(h, after[g..], Position(h.pos, step, i + 1)), Within(h, after[g..], step, i + 1))
  {
    var p := Position(h.pos, step, i);
    assert before[g..] <= after[g..];
    assert |before[g..][Whole(p)..]| == |before[at..]|;
    assert after[g..][Whole(p)..] == after[at..];
    OutputsLater(h, before[g..], after[g..], step, i);
    MoveLater(h, before[g..], after[g..], p);
    NextMoves(h, after[g..], p, step);
  }

  lemma Arrived(h: Head, history: seq<Frame>, g: nat, k: nat, p: NonNeg)
    requires g + k <= |history| && k as real <= p < k as real + 1.0
    ensures Whole(p) == k
    ensures MoveTo(h, history[g..], p) ==
      Place(Head(Tap(h, history[g..], k - 1), Tap(h, history[g..], k), p - k as real), history[g + k..])
  {
    WholeIs(p, k);
  }

  lemma RanOut(h: Head, history: seq<Frame>, g: nat, k: nat, p: NonNeg)
    requires g + k == |history| && p >= k as real + 1.0
    ensures Whole(p) > |history[g..]| && MoveTo(h, history[g..], p) == Place(Head(SILENT, SILENT, 0.0), [])
  {
    WholeIsFloor(p);
  }

  lemma TapLater(h: Head, before: seq<Frame>, after: seq<Frame>, g: nat, k: nat)
    requires g + k <= |before| && before <= after
    ensures Tap(h, after[g..], k) == Tap(h, before[g..], k)
  {
  }

  lemma PrefixNext(done: seq<Frame>, was: seq<Frame>, i: nat, y: Frame)
    requires |done| == i < |was|
    ensures (done + was[i..])[i := y] == (done + [y]) + was[i + 1..]
  {
  }

  // A call that does not run out consumes exactly floor(pos + n * step) frames.
  lemma ConsumesFloor(h: Head, source: seq<Frame>, step: NonNeg, n: nat)
    ensures Whole(Position(h.pos, step, n)) == (h.pos + n as real * step).Floor
    ensures Within(h, source, step, n) ==>
      var consumed := (h.pos + n as real * step).Floor;
      0 <= consumed <= |source| && MoveTo(h, source, Position(h.pos, step, n)).left == source[consumed..]
  {
    PositionLinear(h.pos, step, n);
    WholeIsFloor(Position(h.pos, step, n));
  }
}
