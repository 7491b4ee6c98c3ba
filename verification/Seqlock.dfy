/** The telemetry seqlock (engine/src/telemetry.cpp, src-tauri/src/shm.rs). */
module Seqlock {
  import opened Words

  // MeterAccumulator::publish rewrites the shared block word by word between two increments of its
  // sequence number, and any number of read_snapshot calls copy it word by word and accept the copy when
  // the number is even and unchanged.
  //
  // The sequence number is 32 bits wide and wraps; `moves` counts its increments without wrapping. Words
  // 0 and 1 of the block are the magic number and the layout version.

  type Word = int

  const MAGIC := 0x524D5854
  const ABI_VERSION := 4
  const ATTEMPTS := 64
  const RANGE := 0x1_0000_0000

  type Reader = nat

  datatype Publisher =
    | Quiet
    | Raising(next: seq<Word>, base: u32)
    | Storing(next: seq<Word>, base: u32, done: set<nat>)

  // A copy remembers the number it started from and how many moves there had been.
  datatype Snapshot =
    | Trying(n: nat)
    | Copying(n: nat, s1: u32, from: nat, copy: map<nat, Word>)
    | Took(block: seq<Word>, from: nat, until: nat)
    | GaveUp

  datatype State = State(
    sequence: u32, words: seq<Word>, publisher: Publisher, readers: map<Reader, Snapshot>,
    moves: nat, published: seq<seq<Word>>)

  datatype Event =
    | Begin(next: seq<Word>) | StoreOdd | StoreWord(j: nat) | RestoreOdd | StoreEven
    | LoadFirst(r: Reader) | CopyWord(r: Reader, i: nat) | Check(r: Reader) | Again(r: Reader)

  function Bump(s: u32, n: nat): u32 { (s + n) % RANGE }

  predicate Enabled(s: State, e: Event) {
    match e
    case Begin(next) => s.publisher == Quiet && |next| == |s.words|
    case StoreOdd => s.publisher.Raising?
    case StoreWord(j) => s.publisher.Storing? && j < |s.publisher.next| == |s.words|
    case RestoreOdd => s.publisher.Storing?
    case StoreEven => s.publisher.Storing? && forall j: nat :: j < |s.words| ==> j in s.publisher.done
    case LoadFirst(r) => r in s.readers && s.readers[r].Trying? && s.readers[r].n < ATTEMPTS
    case CopyWord(r, i) => r in s.readers && s.readers[r].Copying? && i < |s.words|
    case Check(r) =>
      && r in s.readers && s.readers[r].Copying? && |s.words| >= 2
      && forall i: nat :: i < |s.words| ==> i in s.readers[r].copy
    case Again(r) => r in s.readers && (s.readers[r].Took? || s.readers[r].GaveUp?)
  }

  function Retry(n: nat): Snapshot {
    if n + 1 >= ATTEMPTS then GaveUp else Trying(n + 1)
  }

  function FinishCopy(s: State, r: Reader): Snapshot
    requires Enabled(s, Check(r))
  {
    var c := s.readers[r];
    if s.sequence == c.s1 && c.copy[0] == MAGIC && c.copy[1] == ABI_VERSION
    then Took(seq(|s.words|, i requires 0 <= i < |s.words| => c.copy[i]), c.from, s.moves)
    else Retry(c.n)
  }

  // The header copy may rewrite the sequence word with its odd value at any time while storing.
  function Apply(s: State, e: Event): State
    requires Enabled(s, e)
  {
    match e
    case Begin(next) => s.(publisher := Raising(next, s.sequence))
    case StoreOdd =>
      s.(sequence := Bump(s.publisher.base, 1), moves := s.moves + 1,
         publisher := Storing(s.publisher.next, s.publisher.base, {}))
    case StoreWord(j) =>
      s.(words := s.words[j := s.publisher.next[j]], publisher := s.publisher.(done := s.publisher.done + {j}))
    case RestoreOdd => s.(sequence := Bump(s.publisher.base, 1))
    case StoreEven =>
      s.(sequence := Bump(s.publisher.base, 2), moves := s.moves + 1, publisher := Quiet,
         published := s.published + [s.publisher.next])
    case LoadFirst(r) =>
      s.(readers := s.readers[r := if s.sequence % 2 != 0 then Retry(s.readers[r].n)
                                   else Copying(s.readers[r].n, s.sequence, s.moves, map[])])
    case CopyWord(r, i) => s.(readers := s.readers[r := s.readers[r].(copy := s.readers[r].copy[i := s.words[i]])])
    case Check(r) => s.(readers := s.readers[r := FinishCopy(s, r)])
    case Again(r) => s.(readers := s.readers[r := Trying(0)])
  }

  predicate Start(s: State) {
    && s.sequence == 0 && s.moves == 0 && s.publisher == Quiet && s.published == [s.words]
    && forall r :: r in s.readers ==> s.readers[r] == Trying(0)
  }

  ghost predicate Step(states: seq<State>, events: seq<Event>, k: nat)
    requires |states| == |events| + 1 && k < |events|
  {
    Enabled(states[k], events[k]) && states[k + 1] == Apply(states[k], events[k])
  }

  ghost predicate Run(states: seq<State>, events: seq<Event>) {
    && |states| == |events| + 1 && Start(states[0])
    && forall k :: 0 <= k < |events| ==> Step(states, events, k)
  }

  // ---------- invariant ----------

  ghost predicate PublisherFits(s: State) {
    && s.sequence == s.moves % RANGE && |s.published| == s.moves / 2 + 1
    && (forall k :: 0 <= k < |s.published| ==> |s.published[k]| == |s.words|)
    && match s.publisher
       case Quiet => s.moves % 2 == 0 && s.words == s.published[s.moves / 2]
       case Raising(next, base) =>
         s.moves % 2 == 0 && s.words == s.published[s.moves / 2] && |next| == |s.words| && base == s.sequence
       case Storing(next, base, done) =>
         && s.moves % 2 == 1 && |next| == |s.words| && base == (s.moves - 1) % RANGE
         && forall j: nat :: j in done && j < |s.words| ==> s.words[j] == next[j]
  }

  ghost predicate SnapshotFits(s: State, c: Snapshot) {
    match c
    case Trying(n) => n < ATTEMPTS
    case Copying(n, s1, from, copy) =>
      && n < ATTEMPTS && from <= s.moves && from % 2 == 0 && s1 == from % RANGE
      && (s.moves == from ==> forall i: nat :: i in copy && i < |s.words| ==> copy[i] == s.words[i])
    case Took(block, from, until) =>
      && from <= until <= s.moves && from % 2 == 0 && from % RANGE == until % RANGE
      && |block| == |s.words| >= 2 && block[0] == MAGIC && block[1] == ABI_VERSION
      && from / 2 < |s.published| && (until == from ==> block == s.published[from / 2])
    case GaveUp => true
  }

  ghost predicate ReadersFit(s: State) {
    forall r :: r in s.readers ==> SnapshotFits(s, s.readers[r])
  }

  ghost predicate Inv(s: State) {
    PublisherFits(s) && ReadersFit(s)
  }

  predicate Publishes(e: Event) {
    e.Begin? || e.StoreOdd? || e.StoreWord? || e.RestoreOdd? || e.StoreEven?
  }

  lemma ParityOfWrapped(moves: nat)
    ensures (moves % RANGE) % 2 == moves % 2
  {
  }

  lemma StoreWordFits(s: State, j: nat)
    requires PublisherFits(s) && Enabled(s, StoreWord(j))
    ensures PublisherFits(Apply(s, StoreWord(j)))
  {
  }

  lemma StoreOddFits(s: State)
    requires PublisherFits(s) && Enabled(s, StoreOdd)
    ensures PublisherFits(Apply(s, StoreOdd))
  {
  }

  lemma StoreEvenFits(s: State)
    requires PublisherFits(s) && Enabled(s, StoreEven)
    ensures PublisherFits(Apply(s, StoreEven))
  {
    assert s.words == s.publisher.next;
    BumpTwice(s.moves);
  }

  lemma BumpTwice(moves: nat)
    requires moves % 2 == 1
    ensures Bump((moves - 1) % RANGE, 2) == (moves + 1) % RANGE
    ensures (moves + 1) / 2 == moves / 2 + 1 && (moves + 1) % 2 == 0
  {
  }

  lemma PublishFits(s: State, e: Event)
    requires PublisherFits(s) && Enabled(s, e) && Publishes(e)
    ensures PublisherFits(Apply(s, e))
  {
    match e
    case StoreOdd => StoreOddFits(s);
    case StoreWord(j) => StoreWordFits(s, j);
    case StoreEven => StoreEvenFits(s);
    case _ =>
  }

  // Publishing leaves old blocks as they are and disturbs only copies that see the number move.
  lemma PublishSpares(s: State, e: Event, c: Snapshot)
    requires PublisherFits(s) && Enabled(s, e) && Publishes(e) && SnapshotFits(s, c)
    ensures SnapshotFits(Apply(s, e), c)
  {
  }

  lemma ReadFits(s: State, e: Event)
    requires Inv(s) && Enabled(s, e) && (e.LoadFirst? || e.CopyWord? || e.Again?)
    ensures SnapshotFits(s, Apply(s, e).readers[e.r])
  {
    ParityOfWrapped(s.moves);
    assert SnapshotFits(s, s.readers[e.r]);
  }

  lemma CheckFits(s: State, r: Reader)
    requires Inv(s) && Enabled(s, Check(r))
    ensures SnapshotFits(s, FinishCopy(s, r))
  {
    var c := s.readers[r];
    assert SnapshotFits(s, c);
    if s.moves == c.from {
      assert seq(|s.words|, i requires 0 <= i < |s.words| => c.copy[i]) == s.words;
    }
  }

  lemma InvStep(s: State, e: Event)
    requires Inv(s) && Enabled(s, e)
    ensures Inv(Apply(s, e))
  {
    if Publishes(e) {
      PublishFits(s, e);
      forall r | r in s.readers ensures SnapshotFits(Apply(s, e), s.readers[r]) {
        PublishSpares(s, e, s.readers[r]);
      }
    } else if e.Check? {
      CheckFits(s, e.r);
      SameShared(s, Apply(s, e));
    } else {
      ReadFits(s, e);
      SameShared(s, Apply(s, e));
    }
  }

  // Steps of a reader leave the shared block alone.
  lemma SameShared(s: State, t: State)
    requires Inv(s) && t == s.(readers := t.readers)
    ensures PublisherFits(t) && forall c :: SnapshotFits(s, c) <==> SnapshotFits(t, c)
  {
  }

  lemma {:induction false} RunInv(states: seq<State>, events: seq<Event>, k: nat)
    requires Run(states, events) && k < |states|
    ensures Inv(states[k])
  {
    if k > 0 {
      RunInv(states, events, k - 1);
      assert Step(states, events, k - 1);
      InvStep(states[k - 1], events[k - 1]);
    }
  }

  // ---------- every run ----------

  // An accepted snapshot is one whole published block, the one current when the copy began, unless
  // during the copy the sequence number made one or more full turns of 2^32 moves, each of 2^31
  // publications.
  lemma AcceptedIsWhole(states: seq<State>, events: seq<Event>, k: nat, r: Reader)
    requires Run(states, events) && k < |states| && r in states[k].readers && states[k].readers[r].Took?
    ensures var c := states[k].readers[r];
      && c.from <= c.until && c.from % 2 == 0 && c.from / 2 < |states[k].published|
      && (c.until - c.from) % RANGE == 0
      && (c.until == c.from ==> c.block == states[k].published[c.from / 2])
  {
    RunInv(states, events, k);
    var c := states[k].readers[r];
    assert SnapshotFits(states[k], c);
    SameResidue(c.from, c.until);
  }

  lemma SameResidue(a: nat, b: nat)
    requires a <= b && a % RANGE == b % RANGE
    ensures (b - a) % RANGE == 0
  {
  }

  // A copy in progress has copied from one block as long as the number has not moved.
  lemma CopyIsCurrent(states: seq<State>, events: seq<Event>, k: nat, r: Reader, i: nat)
    requires Run(states, events) && k < |states| && r in states[k].readers && states[k].readers[r].Copying?
    requires states[k].moves == states[k].readers[r].from && i in states[k].readers[r].copy && i < |states[k].words|
    ensures states[k].moves / 2 < |states[k].published|
    ensures i < |states[k].published[states[k].moves / 2]|
    ensures states[k].readers[r].copy[i] == states[k].published[states[k].moves / 2][i]
  {
    RunInv(states, events, k);
    assert SnapshotFits(states[k], states[k].readers[r]);
  }

  // ---------- the bound is sharp ----------

  ghost predicate Reaches(s: State, t: State) {
    exists states, events :: Path(states, events, s, t)
  }

  ghost predicate Path(states: seq<State>, events: seq<Event>, s: State, t: State) {
    && |states| == |events| + 1 && states[0] == s && states[|events|] == t
    && forall k :: 0 <= k < |events| ==> Step(states, events, k)
  }

  lemma Here(s: State)
    ensures Reaches(s, s)
  {
    assert Path([s], [], s, s);
  }

  lemma Then(s: State, t: State, e: Event)
    requires Reaches(s, t) && Enabled(t, e)
    ensures Reaches(s, Apply(t, e))
  {
    var states, events :| Path(states, events, s, t);
    var states', events' := states + [Apply(t, e)], events + [e];
    forall k | 0 <= k < |events'| ensures Step(states', events', k) {
      if k < |events| {
        assert Step(states, events, k);
      }
    }
    assert Path(states', events', s, Apply(t, e));
  }

  const OLD_BLOCK: seq<Word> := [MAGIC, ABI_VERSION, 0, 0]
  const NEW_BLOCK: seq<Word> := [MAGIC, ABI_VERSION, 1, 1]
  const TORN_BLOCK: seq<Word> := [MAGIC, ABI_VERSION, 0, 1]

  // One publication of NEW_BLOCK in four-word memory.
  lemma PublishOnce(s: State, t: State) returns (u: State)
    requires Reaches(s, t) && t.publisher == Quiet && |t.words| == 4
    ensures Reaches(s, u)
    ensures u == t.(sequence := Bump(t.sequence, 2), words := NEW_BLOCK, moves := t.moves + 2,
                    published := t.published + [NEW_BLOCK])
  {
    u := t;
    Then(s, u, Begin(NEW_BLOCK));
    u := Apply(u, Begin(NEW_BLOCK));
    Then(s, u, StoreOdd);
    u := Apply(u, StoreOdd);
    Then(s, u, StoreWord(0));
    u := Apply(u, StoreWord(0));
    Then(s, u, StoreWord(1));
    u := Apply(u, StoreWord(1));
    Then(s, u, StoreWord(2));
    u := Apply(u, StoreWord(2));
    Then(s, u, StoreWord(3));
    u := Apply(u, StoreWord(3));
    Then(s, u, StoreEven);
    u := Apply(u, StoreEven);
    assert u.words == NEW_BLOCK;
  }

  lemma {:induction false} PublishTimes(s: State, t: State, n: nat) returns (u: State)
    requires Reaches(s, t) && t.publisher == Quiet && |t.words| == 4 && n > 0
    ensures Reaches(s, u)
    ensures u.sequence == Bump(t.sequence, 2 * n) && u.words == NEW_BLOCK && u.moves == t.moves + 2 * n
    ensures u.readers == t.readers && u.publisher == Quiet
    ensures |u.published| == |t.published| + n
    ensures forall b :: b in u.published ==> b in t.published || b == NEW_BLOCK
    decreases n
  {
    u := PublishOnce(s, t);
    if n > 1 {
      u := PublishTimes(s, u, n - 1);
    }
  }

  lemma CopyThree(s: State, r: Reader) returns (t: State)
    requires Start(s) && s.words == OLD_BLOCK && s.readers == map[r := Trying(0)]
    ensures Reaches(s, t)
    ensures t == s.(readers := map[r := Copying(0, 0, 0, map[0 := MAGIC, 1 := ABI_VERSION, 2 := 0])])
  {
    t := s;
    Here(s);
    Then(s, t, LoadFirst(r));
    t := Apply(t, LoadFirst(r));
    Then(s, t, CopyWord(r, 0));
    t := Apply(t, CopyWord(r, 0));
    Then(s, t, CopyWord(r, 1));
    t := Apply(t, CopyWord(r, 1));
    Then(s, t, CopyWord(r, 2));
    t := Apply(t, CopyWord(r, 2));
  }

  lemma Turns(m: nat)
    requires m >= 1
    ensures m * (RANGE / 2) >= 1 && 2 * (m * (RANGE / 2)) == m * RANGE && (m * RANGE) % RANGE == 0
  {
    assert m * (RANGE / 2) == m * 0x8000_0000;
    assert m * RANGE == m * 0x1_0000_0000;
  }

  // A reader stalled for any full number of turns, m times 2^31 publications, can accept a block that
  // was never published.
  lemma FullTurnsTear(s: State, r: Reader, m: nat) returns (t: State)
    requires m >= 1 && Start(s) && s.words == OLD_BLOCK && s.readers == map[r := Trying(0)]
    ensures Reaches(s, t) && t.readers == map[r := Took(TORN_BLOCK, 0, m * RANGE)]
    ensures TORN_BLOCK !in t.published
  {
    Turns(m);
    t := CopyThree(s, r);
    t := PublishTimes(s, t, m * (RANGE / 2));
    assert t.sequence == Bump(0, m * RANGE) == 0;
    Then(s, t, CopyWord(r, 3));
    t := Apply(t, CopyWord(r, 3));
    Then(s, t, Check(r));
    assert FinishCopy(t, r) == Took(TORN_BLOCK, 0, m * RANGE);
    t := Apply(t, Check(r));
    assert OLD_BLOCK[3] == 0 && NEW_BLOCK[2] == 1;
  }

  // A copy that spans `turns` moves can be accepted without being a published block exactly when
  // these are one or more full turns of the sequence number.
  lemma TearsExactly(moves: nat)
    ensures (exists states, events, k: nat, r: Reader :: TornBy(states, events, k, r, moves)) <==>
            moves >= 1 && moves % RANGE == 0
  {
    forall states, events, k: nat, r: Reader | TornBy(states, events, k, r, moves)
      ensures moves >= 1 && moves % RANGE == 0
    {
      AcceptedIsWhole(states, events, k, r);
    }
    if moves >= 1 && moves % RANGE == 0 {
      var s := State(0, OLD_BLOCK, Quiet, map[0 := Trying(0)], 0, [OLD_BLOCK]);
      var m := moves / RANGE;
      assert m * RANGE == moves && m >= 1;
      var t := FullTurnsTear(s, 0, m);
      var states, events :| Path(states, events, s, t);
      assert Run(states, events);
      assert TornBy(states, events, |events|, 0, moves);
    }
  }

  // The run leaves the reader with an accepted block that was never published, copied over `moves` moves.
  ghost predicate TornBy(states: seq<State>, events: seq<Event>, k: nat, r: Reader, moves: nat) {
    && Run(states, events) && k < |states| && r in states[k].readers && states[k].readers[r].Took?
    && states[k].readers[r].until == states[k].readers[r].from + moves
    && states[k].readers[r].block !in states[k].published
  }

  // ---------- what a call returns ----------

  // The reader has copied the first i words of a block that stands still.
  ghost function Midway(s: State, r: Reader, n: nat, i: nat): State
    requires i <= |s.words|
  {
    s.(readers := s.readers[r := Copying(n, s.sequence, s.moves, map j: nat | j < i :: s.words[j])])
  }

  lemma OneMoreWord(s: State, r: Reader, n: nat, i: nat)
    requires i < |s.words| && r in s.readers
    ensures Enabled(Midway(s, r, n, i), CopyWord(r, i))
    ensures Apply(Midway(s, r, n, i), CopyWord(r, i)) == Midway(s, r, n, i + 1)
  {
    var before, after := map j: nat | j < i :: s.words[j], map j: nat | j < i + 1 :: s.words[j];
    assert before[i := s.words[i]] == after;
    var c := Copying(n, s.sequence, s.moves, before);
    assert s.readers[r := c][r := c.(copy := after)] == s.readers[r := c.(copy := after)];
  }

  lemma {:induction false} CopyStill(s: State, r: Reader, n: nat, i: nat)
    requires s.sequence % 2 == 0 && r in s.readers && s.readers[r] == Trying(n) && n < 64 && i <= |s.words|
    ensures Reaches(s, Midway(s, r, n, i))
  {
    if i == 0 {
      Here(s);
      Then(s, s, LoadFirst(r));
      assert Apply(s, LoadFirst(r)) == Midway(s, r, n, 0);
    } else {
      CopyStill(s, r, n, i - 1);
      OneMoreWord(s, r, n, i - 1);
      Then(s, Midway(s, r, n, i - 1), CopyWord(r, i - 1));
    }
  }

  // What becomes of attempt n that ends without the block: after the 64th the call gives up.
  function Refused(n: nat): Snapshot {
    if n == 63 then GaveUp else Trying(n + 1)
  }

  // While no publication is under way, an attempt can be completed, and returns the whole block if its
  // first two words are the magic number and version 4; otherwise the attempt is lost.
  lemma StillRead(s: State, r: Reader, n: nat)
    requires s.sequence % 2 == 0 && r in s.readers && s.readers[r] == Trying(n) && n < 64 && |s.words| >= 2
    ensures var good := s.words[0] == 0x524D5854 && s.words[1] == 4;
      var c := if good then Took(s.words, s.moves, s.moves) else Refused(n);
      Reaches(s, s.(readers := s.readers[r := c]))
  {
    CopyStill(s, r, n, |s.words|);
    var t := Midway(s, r, n, |s.words|);
    Then(s, t, Check(r));
    assert seq(|s.words|, i requires 0 <= i < |s.words| => t.readers[r].copy[i]) == s.words;
    var good := s.words[0] == 0x524D5854 && s.words[1] == 4;
    var c := if good then Took(s.words, s.moves, s.moves) else Refused(n);
    assert Apply(t, Check(r)) == s.(readers := s.readers[r := c]);
  }

  // An attempt is lost when it begins during a publication, and when the number has moved at its end.
  lemma MovedRefused(s: State, r: Reader)
    ensures Enabled(s, LoadFirst(r)) && s.sequence % 2 != 0 ==>
      Apply(s, LoadFirst(r)) == s.(readers := s.readers[r := Refused(s.readers[r].n)])
    ensures Enabled(s, Check(r)) && s.readers[r].n < 64 && s.sequence != s.readers[r].s1 ==>
      Apply(s, Check(r)) == s.(readers := s.readers[r := Refused(s.readers[r].n)])
  {
  }
}
