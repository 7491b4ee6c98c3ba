/** Life cycle of a loudness capture (LoudnessCapture in engine/src/loudness.cpp). */
module Loudness {
  import opened Audio
  import opened Gate
  import opened Words

  // Capture calls enter through a writer gate, a worker drains the FIFO into the meter, and stop
  // deactivates the capture, waits for the writers, joins the worker and frees the buffers. Every atomic
  // access is one step; the FIFO is the bounded queue its protocol implements.

  const READ_FRAMES := 4096

  datatype Report = Measuring | Stopped | Error

  // Where a capture call is; from Filling on it uses the buffers.
  datatype CapturePc =
    | Outside
    | Arrived                               // saw the capture active
    | Counted                               // joined the writer count
    | Admitted                              // saw it active again
    | Filling(frames: seq<Frame>, k: nat)   // interleaving frame k
    | Writing(frames: seq<Frame>)
    | Overflowed
    | Departing

  datatype WorkerPc =
    | LoadExiting
    | Reading(exiting: bool)
    | Checking(exiting: bool, got: seq<Frame>)
    | Metering(exiting: bool, got: seq<Frame>)
    | Rejected(exiting: bool)
    | LoadFault(exiting: bool, empty: bool)
    | Deciding(exiting: bool, empty: bool, fault: nat)
    | Threw
    | Failing
    | Finished

  datatype StopPc = NotStopping | Spinning | Drained | Joining | Freeing

  datatype Config = Config(capacity: nat, block: nat)

  // offered, accepted, consumed and metered record the frames that passed each point.
  datatype State = State(
    active: bool, writers: nat, exiting: bool, fault: nat, pc: map<Thread, CapturePc>,
    fifo: seq<Frame>, worker: WorkerPc, stop: StopPc, freed: bool, report: Report,
    offered: seq<Frame>, accepted: seq<Frame>, consumed: seq<Frame>, metered: seq<Frame>)

  datatype Event =
    | Capture(r: Thread, call: CaptureStep)
    | Work(step: WorkerStep)
    | StopBy(stop: StopStep)

  datatype CaptureStep = Arrive | Join | Recheck | Admit(frames: seq<Frame>) | Copy | Write | Flag | Depart

  datatype WorkerStep =
    | ReadExiting | ReadFifo(n: nat) | CheckFault | Add | Reject(k: nat) | FlagInvalid | ReadFault
    | Publish(due: bool) | Throw | FlagThrow | ReportThrow

  datatype StopStep = Deactivate | BeginStop | Spin | SetExiting | Join | Free

  // ---------- capture ----------

  predicate CanCapture(s: State, r: Thread, step: CaptureStep) {
    r in s.pc &&
    match step
    case Arrive => s.pc[r] == Outside
    case Join => s.pc[r] == Arrived
    case Recheck => s.pc[r] == Counted
    case Admit(_) => s.pc[r] == Admitted
    case Copy => s.pc[r].Filling? && s.pc[r].k < |s.pc[r].frames|
    case Write => s.pc[r].Writing?
    case Flag => s.pc[r] == Overflowed
    case Depart => s.pc[r] == Departing
  }

  function At(s: State, r: Thread, pc: CapturePc): State {
    s.(pc := s.pc[r := pc])
  }

  function Fill(frames: seq<Frame>, k: nat): CapturePc {
    if k < |frames| then Filling(frames, k) else Writing(frames)
  }

  function CaptureNext(c: Config, s: State, r: Thread, step: CaptureStep): State
    requires CanCapture(s, r, step)
  {
    match step
    case Arrive => if s.active then At(s, r, Arrived) else s
    case Join => At(s.(writers := Up(s.writers)), r, Counted)
    case Recheck => At(s, r, if s.active then Admitted else Departing)
    case Admit(frames) =>
      if s.fault != 0 then At(s, r, Departing)
      else if |frames| > c.block then At(s, r, Overflowed)
      else At(s, r, Fill(frames, 0))
    case Copy => At(s, r, Fill(s.pc[r].frames, s.pc[r].k + 1))
    case Write => WriteFifo(c, s, r)
    case Flag => At(s.(fault := 1), r, Departing)
    case Depart => At(s.(writers := Down(s.writers)), r, Outside)
  }

  function WriteFifo(c: Config, s: State, r: Thread): State
    requires CanCapture(s, r, Write)
  {
    var frames := s.pc[r].frames;
    var n := Min(|frames|, if |s.fifo| < c.capacity then c.capacity - |s.fifo| else 0);
    At(s.(fifo := s.fifo + frames[..n], accepted := s.accepted + frames[..n], offered := s.offered + frames), r,
       if n != |frames| then Overflowed else Departing)
  }

  // ---------- worker ----------

  predicate CanWork(s: State, step: WorkerStep) {
    match step
    case ReadExiting => s.worker == LoadExiting
    case ReadFifo(n) => s.worker.Reading? && n == Min(|s.fifo|, READ_FRAMES)
    case CheckFault => s.worker.Checking?
    case Add => s.worker.Metering?
    case Reject(k) => s.worker.Metering? && k <= |s.worker.got|
    case FlagInvalid => s.worker.Rejected?
    case ReadFault => s.worker.LoadFault?
    case Publish(_) => s.worker.Deciding?
    case Throw => s.worker != Threw && s.worker != Failing && s.worker != Finished
    case FlagThrow => s.worker == Threw
    case ReportThrow => s.worker == Failing
  }

  // A rejected block may have been metered in part.
  function WorkNext(s: State, step: WorkerStep): State
    requires CanWork(s, step)
  {
    var w := s.worker;
    match step
    case ReadExiting => s.(worker := Reading(s.exiting))
    case ReadFifo(n) =>
      s.(worker := Checking(w.exiting, s.fifo[..n]), consumed := s.consumed + s.fifo[..n], fifo := s.fifo[n..])
    case CheckFault =>
      s.(worker :=
        if w.got == [] || s.fault != 0 then LoadFault(w.exiting, w.got == []) else Metering(w.exiting, w.got))
    case Add => s.(worker := LoadFault(w.exiting, w.got == []), metered := s.metered + w.got)
    case Reject(k) => s.(worker := Rejected(w.exiting), metered := s.metered + w.got[..k])
    case FlagInvalid => s.(worker := LoadFault(w.exiting, false), fault := 2)
    case ReadFault => s.(worker := Deciding(w.exiting, w.empty, s.fault))
    case Publish(due) =>
      if w.fault != 0 then s.(worker := Finished, report := Error)
      else if w.exiting && w.empty then s.(worker := Finished, report := Stopped)
      else s.(worker := LoadExiting, report := if due then Measuring else s.report)
    case Throw => s.(worker := Threw)
    case FlagThrow => s.(worker := Failing, fault := 2)
    case ReportThrow => s.(worker := Finished, report := Error)
  }

  // ---------- stop ----------

  // Deactivate is also what attaching another capture does.
  predicate CanStop(s: State, step: StopStep) {
    match step
    case Deactivate => s.stop == NotStopping
    case BeginStop => s.stop == NotStopping
    case Spin => s.stop == Spinning
    case SetExiting => s.stop == Drained
    case Join => s.stop == Joining && s.worker == Finished
    case Free => s.stop == Freeing
  }

  function StopNext(s: State, step: StopStep): State
    requires CanStop(s, step)
  {
    match step
    case Deactivate => s.(active := false)
    case BeginStop => s.(active := false, stop := Spinning)
    case Spin => if s.writers == 0 then s.(stop := Drained) else s
    case SetExiting => s.(exiting := true, stop := Joining)
    case Join => s.(stop := Freeing)
    case Free => s.(freed := true, stop := NotStopping)
  }

  // ---------- runs ----------

  predicate Enabled(s: State, e: Event) {
    match e
    case Capture(r, step) => CanCapture(s, r, step)
    case Work(step) => CanWork(s, step)
    case StopBy(step) => CanStop(s, step)
  }

  function Apply(c: Config, s: State, e: Event): State
    requires Enabled(s, e)
  {
    match e
    case Capture(r, step) => CaptureNext(c, s, r, step)
    case Work(step) => WorkNext(s, step)
    case StopBy(step) => StopNext(s, step)
  }

  predicate Start(s: State) {
    && s.active && s.writers == 0 && !s.exiting && s.fault == 0 && s.fifo == [] && s.worker == LoadExiting
    && s.stop == NotStopping && !s.freed && s.report == Measuring
    && s.offered == [] && s.accepted == [] && s.consumed == [] && s.metered == []
    && (forall r :: r in s.pc ==> s.pc[r] == Outside) && |s.pc.Keys| < COUNT_RANGE
  }

  ghost predicate Step(c: Config, states: seq<State>, events: seq<Event>, k: nat)
    requires |states| == |events| + 1 && k < |events|
  {
    Enabled(states[k], events[k]) && states[k + 1] == Apply(c, states[k], events[k])
  }

  ghost predicate Run(c: Config, states: seq<State>, events: seq<Event>) {
    && |states| == |events| + 1 && Start(states[0])
    && forall k :: 0 <= k < |events| ==> Step(c, states, events, k)
  }

  // ---------- the writer gate ----------

  predicate Joined(pc: CapturePc) { pc != Outside && pc != Arrived }

  // Calls that passed the second check and may still write or flag a fault.
  predicate Inside(pc: CapturePc) { Joined(pc) && pc != Counted && pc != Departing }

  function Writers(pc: map<Thread, CapturePc>): set<Thread> {
    set r | r in pc && Joined(pc[r])
  }

  predicate NobodyInside(s: State) {
    forall r :: r in s.pc ==> !Inside(s.pc[r])
  }

  ghost predicate GateExact(s: State) {
    Counts(s.writers, Writers(s.pc), s.pc.Keys)
  }

  // The stop call has seen the writer count at zero, now or in an earlier stop.
  predicate WritersGone(s: State) {
    s.exiting || s.freed || s.stop == Drained || s.stop == Joining || s.stop == Freeing
  }

  ghost predicate GateClosed(s: State) {
    && (WritersGone(s) ==> !s.active && NobodyInside(s))
    && (s.stop == Spinning ==> !s.active)
    && (s.freed || s.stop == Freeing ==> s.worker == Finished && s.exiting)
    && (s.stop == Joining ==> s.exiting)
  }

  lemma Moved(pc: map<Thread, CapturePc>, r: Thread, after: CapturePc)
    requires r in pc
    ensures pc[r := after].Keys == pc.Keys
    ensures Writers(pc[r := after]) == if Joined(after) then Writers(pc) + {r} else Writers(pc) - {r}
  {
  }

  lemma GateMoved(s: State, r: Thread, after: CapturePc)
    requires GateExact(s) && r in s.pc
    ensures var pc := s.pc[r := after];
      && (Joined(s.pc[r]) == Joined(after) ==> Counts(s.writers, Writers(pc), pc.Keys))
      && (!Joined(s.pc[r]) && Joined(after) ==> Counts(Up(s.writers), Writers(pc), pc.Keys))
      && (Joined(s.pc[r]) && !Joined(after) ==> Counts(Down(s.writers), Writers(pc), pc.Keys))
  {
    Moved(s.pc, r, after);
    if Joined(s.pc[r]) && !Joined(after) {
      ExitCounts(s.writers, Writers(s.pc), s.pc.Keys, r);
    } else if !Joined(s.pc[r]) && Joined(after) {
      EnterCounts(s.writers, Writers(s.pc), s.pc.Keys, r);
    } else if Joined(after) {
      assert Writers(s.pc) + {r} == Writers(s.pc);
    } else {
      assert Writers(s.pc) - {r} == Writers(s.pc);
    }
  }

  // A capture step moves its own thread only, and counts it in or out.
  lemma CaptureMoves(c: Config, s: State, r: Thread, step: CaptureStep)
    requires CanCapture(s, r, step)
    ensures var t := CaptureNext(c, s, r, step);
      && r in t.pc && t.pc == s.pc[r := t.pc[r]]
      && t.writers == (if Joined(s.pc[r]) == Joined(t.pc[r]) then s.writers
                       else if Joined(t.pc[r]) then Up(s.writers) else Down(s.writers))
  {
    assert s.pc[r := s.pc[r]] == s.pc;
  }

  lemma GateExactKept(c: Config, s: State, e: Event)
    requires GateExact(s) && Enabled(s, e)
    ensures GateExact(Apply(c, s, e))
  {
    if e.Capture? {
      CaptureMoves(c, s, e.r, e.call);
      GateMoved(s, e.r, CaptureNext(c, s, e.r, e.call).pc[e.r]);
    }
  }

  lemma ZeroWriters(s: State)
    requires GateExact(s) && s.writers == 0
    ensures NobodyInside(s)
  {
    assert Writers(s.pc) == {};
    forall r | r in s.pc ensures !Inside(s.pc[r]) {
      assert r !in Writers(s.pc);
    }
  }

  lemma GateClosedCapture(c: Config, s: State, r: Thread, step: CaptureStep)
    requires GateClosed(s) && CanCapture(s, r, step)
    ensures GateClosed(CaptureNext(c, s, r, step))
  {
  }

  lemma GateClosedStop(s: State, step: StopStep)
    requires GateExact(s) && GateClosed(s) && CanStop(s, step)
    ensures GateClosed(StopNext(s, step))
  {
    if s.writers == 0 {
      ZeroWriters(s);
    }
  }

  lemma GateClosedWork(s: State, step: WorkerStep)
    requires GateClosed(s) && CanWork(s, step)
    ensures GateClosed(WorkNext(s, step))
  {
  }

  lemma GateClosedKept(c: Config, s: State, e: Event)
    requires GateExact(s) && GateClosed(s) && Enabled(s, e)
    ensures GateClosed(Apply(c, s, e))
  {
    match e
    case Capture(r, step) => GateClosedCapture(c, s, r, step);
    case Work(step) => GateClosedWork(s, step);
    case StopBy(step) => GateClosedStop(s, step);
  }

  // ---------- the frames ----------

  // The frames the worker has read and not yet metered.
  function InHand(w: WorkerPc): seq<Frame> {
    if w.Checking? || w.Metering? then w.got else []
  }

  predicate Healthy(w: WorkerPc) {
    w != Threw && w != Failing && !w.Rejected?
  }

  ghost predicate FramesFit(c: Config, s: State) {
    && s.accepted == s.consumed + s.fifo && |s.fifo| <= c.capacity
    && s.metered <= s.consumed
    && (s.worker.Checking? || s.worker.Metering? ==> s.metered + s.worker.got <= s.consumed || s.fault != 0)
    && (s.fault == 0 && Healthy(s.worker) && s.worker != Finished ==> s.consumed == s.metered + InHand(s.worker))
    && (s.worker.Metering? ==> s.consumed == s.metered + s.worker.got)
  }

  ghost predicate NothingLost(s: State) {
    s.fault == 0 && (forall r :: r in s.pc ==> s.pc[r] != Overflowed) ==> s.offered == s.accepted
  }

  lemma FramesCapture(c: Config, s: State, r: Thread, step: CaptureStep)
    requires FramesFit(c, s) && CanCapture(s, r, step)
    ensures FramesFit(c, CaptureNext(c, s, r, step))
  {
  }

  lemma FramesWork(c: Config, s: State, step: WorkerStep)
    requires FramesFit(c, s) && CanWork(s, step)
    ensures FramesFit(c, WorkNext(s, step))
  {
    if step.ReadFifo? {
      FramesRead(c, s, step.n);
    } else if step.Add? || step.Reject? {
      FramesMetered(c, s, step);
    }
  }

  lemma FramesRead(c: Config, s: State, n: nat)
    requires FramesFit(c, s) && CanWork(s, ReadFifo(n))
    ensures FramesFit(c, WorkNext(s, ReadFifo(n)))
  {
    ReadSplits(s.consumed, s.fifo, n);
    PrefixOfMore(s.metered, s.consumed, s.fifo[..n]);
  }

  lemma ReadSplits(consumed: seq<Frame>, fifo: seq<Frame>, n: nat)
    requires n <= |fifo|
    ensures consumed + fifo == (consumed + fifo[..n]) + fifo[n..]
  {
  }

  lemma PrefixOfMore(a: seq<Frame>, b: seq<Frame>, more: seq<Frame>)
    requires a <= b
    ensures a <= b + more
  {
  }

  lemma FramesMetered(c: Config, s: State, step: WorkerStep)
    requires FramesFit(c, s) && CanWork(s, step) && (step.Add? || step.Reject?)
    ensures FramesFit(c, WorkNext(s, step))
  {
    if step.Reject? {
      assert s.worker.got == s.worker.got[..step.k] + s.worker.got[step.k..];
    }
  }

  lemma FramesStop(c: Config, s: State, step: StopStep)
    requires FramesFit(c, s) && CanStop(s, step)
    ensures FramesFit(c, StopNext(s, step))
  {
  }

  lemma FramesKept(c: Config, s: State, e: Event)
    requires FramesFit(c, s) && Enabled(s, e)
    ensures FramesFit(c, Apply(c, s, e))
  {
    if e.Capture? {
      FramesCapture(c, s, e.r, e.call);
    } else if e.Work? {
      FramesWork(c, s, e.step);
    } else {
      FramesStop(c, s, e.stop);
    }
  }

  lemma WriteOffers(c: Config, s: State, r: Thread, step: CaptureStep)
    requires CanCapture(s, r, step) && step != Flag
    requires CaptureNext(c, s, r, step).pc[r] != Overflowed && s.offered == s.accepted
    ensures CaptureNext(c, s, r, step).offered == CaptureNext(c, s, r, step).accepted
  {
    if step == Write {
      assert s.pc[r].frames[..|s.pc[r].frames|] == s.pc[r].frames;
    }
  }

  lemma NothingLostCapture(c: Config, s: State, r: Thread, step: CaptureStep)
    requires NothingLost(s) && CanCapture(s, r, step)
    ensures NothingLost(CaptureNext(c, s, r, step))
  {
    var t := CaptureNext(c, s, r, step);
    CaptureMoves(c, s, r, step);
    if step != Flag && t.fault == 0 && forall q :: q in t.pc ==> t.pc[q] != Overflowed {
      forall q | q in s.pc ensures s.pc[q] != Overflowed {
        assert q in t.pc;
      }
      WriteOffers(c, s, r, step);
    }
  }

  lemma NothingLostWork(s: State, step: WorkerStep)
    requires NothingLost(s) && CanWork(s, step)
    ensures NothingLost(WorkNext(s, step))
  {
  }

  lemma NothingLostKept(c: Config, s: State, e: Event)
    requires NothingLost(s) && Enabled(s, e)
    ensures NothingLost(Apply(c, s, e))
  {
    if e.Capture? {
      NothingLostCapture(c, s, e.r, e.call);
    } else if e.Work? {
      NothingLostWork(s, e.step);
    }
  }

  // ---------- what the worker knows ----------

  // With the exit flag seen, an empty read stays empty and a fault value stays current.
  ghost predicate WorkerKnows(s: State) {
    match s.worker
    case Reading(exiting) => exiting ==> s.exiting
    case Checking(exiting, got) => (exiting ==> s.exiting) && (exiting && got == [] ==> s.fifo == [])
    case Metering(exiting, got) => (exiting ==> s.exiting) && got != []
    case Rejected(exiting) => exiting ==> s.exiting
    case LoadFault(exiting, empty) => (exiting ==> s.exiting) && (exiting && empty ==> s.fifo == [])
    case Deciding(exiting, empty, fault) =>
      && (exiting ==> s.exiting && fault == s.fault) && (exiting && empty ==> s.fifo == [])
      && (fault != 0 ==> s.fault != 0)
    case Failing => s.fault != 0
    case Finished =>
      && s.report != Measuring && (s.report == Error <==> s.fault != 0)
      && (s.report == Stopped ==> s.exiting && s.fifo == [] && s.consumed == s.metered)
    case _ => true
  }

  ghost predicate ReportsLast(s: State) {
    s.worker != Finished ==> s.report == Measuring
  }

  lemma KnowsCapture(c: Config, s: State, r: Thread, step: CaptureStep)
    requires WorkerKnows(s) && GateClosed(s) && CanCapture(s, r, step)
    ensures WorkerKnows(CaptureNext(c, s, r, step))
  {
    if s.exiting {
      assert !Inside(s.pc[r]);
    }
  }

  lemma KnowsWork(c: Config, s: State, step: WorkerStep)
    requires WorkerKnows(s) && ReportsLast(s) && FramesFit(c, s) && CanWork(s, step)
    ensures WorkerKnows(WorkNext(s, step)) && ReportsLast(WorkNext(s, step))
  {
  }

  lemma KnowsKept(c: Config, s: State, e: Event)
    requires WorkerKnows(s) && ReportsLast(s) && FramesFit(c, s) && GateClosed(s) && Enabled(s, e)
    ensures WorkerKnows(Apply(c, s, e)) && ReportsLast(Apply(c, s, e))
  {
    match e
    case Capture(r, step) => KnowsCapture(c, s, r, step);
    case Work(step) => KnowsWork(c, s, step);
    case StopBy(step) =>
  }

  // ---------- every run ----------

  ghost predicate Inv(c: Config, s: State) {
    GateExact(s) && GateClosed(s) && FramesFit(c, s) && NothingLost(s) && WorkerKnows(s) && ReportsLast(s)
  }

  lemma InvStart(c: Config, s: State)
    requires Start(s)
    ensures Inv(c, s)
  {
    assert Writers(s.pc) == {};
  }

  lemma InvStep(c: Config, s: State, e: Event)
    requires Inv(c, s) && Enabled(s, e)
    ensures Inv(c, Apply(c, s, e))
  {
    GateExactKept(c, s, e);
    GateClosedKept(c, s, e);
    FramesKept(c, s, e);
    NothingLostKept(c, s, e);
    KnowsKept(c, s, e);
  }

  lemma {:induction false} RunInv(c: Config, states: seq<State>, events: seq<Event>, k: nat)
    requires Run(c, states, events) && k < |states|
    ensures Inv(c, states[k])
  {
    if k == 0 {
      InvStart(c, states[0]);
    } else {
      RunInv(c, states, events, k - 1);
      assert Step(c, states, events, k - 1);
      InvStep(c, states[k - 1], events[k - 1]);
    }
  }

  // After stop has freed the resources no capture call is past the second check, where it would read
  // the buffer size, fill the buffer or write to the FIFO; and the worker is gone.
  lemma NoTouchAfterFree(c: Config, states: seq<State>, events: seq<Event>, k: nat)
    requires Run(c, states, events) && k < |states| && states[k].freed
    ensures states[k].worker == Finished
    ensures forall r :: r in states[k].pc ==> !Inside(states[k].pc[r])
  {
    RunInv(c, states, events, k);
  }

  // When the worker reports Stopped, every frame offered to the FIFO was accepted, and metered exactly
  // once and in order; it stays so.
  lemma StoppedMetersAll(c: Config, states: seq<State>, events: seq<Event>, k: nat)
    requires Run(c, states, events) && k < |states| && states[k].report == Stopped
    ensures states[k].fault == 0 && states[k].fifo == []
    ensures states[k].metered == states[k].accepted == states[k].offered
  {
    RunInv(c, states, events, k);
    assert states[k].worker == Finished;
    forall r | r in states[k].pc ensures states[k].pc[r] != Overflowed {
      assert !Inside(states[k].pc[r]);
    }
  }

  // A finished worker reported an error exactly when a fault is set; it never finishes silently.
  lemma FinishedReports(c: Config, states: seq<State>, events: seq<Event>, k: nat)
    requires Run(c, states, events) && k < |states| && states[k].worker == Finished
    ensures states[k].report == if states[k].fault != 0 then Error else Stopped
  {
    RunInv(c, states, events, k);
  }

  // At any time the meter has seen a prefix of what the FIFO accepted, without gaps.
  lemma MeterSeesPrefix(c: Config, states: seq<State>, events: seq<Event>, k: nat)
    requires Run(c, states, events) && k < |states|
    ensures states[k].metered <= states[k].accepted
  {
    RunInv(c, states, events, k);
  }

  // ---------- how a capture ends ----------

  // The worker's steps of one round on an empty FIFO.
  function IdleRound(s: State, due: bool): State
    requires s.worker == LoadExiting && s.fifo == []
  {
    var read := WorkNext(WorkNext(s, ReadExiting), ReadFifo(0));
    WorkNext(WorkNext(WorkNext(read, CheckFault), ReadFault), Publish(due))
  }

  // A round that finds the FIFO empty ends the worker when a fault is set or stop has asked it to exit,
  // and is otherwise only reported, when that is due.
  lemma IdleRoundEnds(s: State, due: bool)
    requires s.worker == LoadExiting && s.fifo == []
    ensures var t := IdleRound(s, due);
      && (s.fault != 0 ==> t.worker == Finished && t.report == Error)
      && (s.fault == 0 && s.exiting ==> t.worker == Finished && t.report == Stopped)
      && (s.fault == 0 && !s.exiting ==>
        t.worker == LoadExiting && t.report == if due then Measuring else s.report)
      && t.metered == s.metered && t.fault == s.fault
  {
  }

  // ---------- why a capture ends in an error ----------

  // A call larger than the block buffer, frames that do not fit the FIFO, a meter that rejects a block,
  // or an exception in the worker.
  predicate Cause(c: Config, s: State, e: Event)
    requires Enabled(s, e)
  {
    match e
    case Capture(_, Admit(frames)) => |frames| > c.block
    case Capture(r, Write) => |s.fifo| + |s.pc[r].frames| > c.capacity
    case Work(step) => step.Reject? || step.Throw?
    case _ => false
  }

  // A fault is set or about to be.
  ghost predicate Troubled(s: State) {
    s.fault != 0 || (exists r :: r in s.pc && s.pc[r] == Overflowed)
    || s.worker.Rejected? || s.worker == Threw || s.worker == Failing
  }

  lemma CaptureStarts(c: Config, s: State, r: Thread, step: CaptureStep)
    requires CanCapture(s, r, step) && |s.fifo| <= c.capacity && s.pc[r] != Overflowed
    ensures var t := CaptureNext(c, s, r, step);
      t.pc[r] == Overflowed ==> Cause(c, s, Capture(r, step))
    ensures CaptureNext(c, s, r, step).fault == s.fault && CaptureNext(c, s, r, step).worker == s.worker
  {
  }

  lemma TroubleStarts(c: Config, s: State, e: Event)
    requires Enabled(s, e) && |s.fifo| <= c.capacity && !Troubled(s) && Troubled(Apply(c, s, e))
    ensures Cause(c, s, e)
  {
    if e.Capture? {
      CaptureMoves(c, s, e.r, e.call);
      CaptureStarts(c, s, e.r, e.call);
      var r :| r in Apply(c, s, e).pc && Apply(c, s, e).pc[r] == Overflowed;
      assert r != e.r ==> s.pc[r] == Overflowed;
    }
  }

  lemma CauseTroubles(c: Config, s: State, e: Event)
    requires Enabled(s, e) && |s.fifo| <= c.capacity && Cause(c, s, e)
    ensures Troubled(Apply(c, s, e))
  {
    if e.Capture? {
      var t := Apply(c, s, e);
      assert s.fault == 0 ==> e.r in t.pc && t.pc[e.r] == Overflowed;
    }
  }

  lemma TroubleStays(c: Config, s: State, e: Event)
    requires Inv(c, s) && Enabled(s, e) && Troubled(s)
    ensures Troubled(Apply(c, s, e))
  {
    if e.Capture? && s.fault == 0 {
      CaptureMoves(c, s, e.r, e.call);
      if r :| r in s.pc && s.pc[r] == Overflowed {
        assert r != e.r ==> Apply(c, s, e).pc[r] == Overflowed;
      }
    }
  }

  lemma TroubleNext(c: Config, s: State, e: Event)
    requires Inv(c, s) && Enabled(s, e)
    ensures Troubled(Apply(c, s, e)) <==> Troubled(s) || Cause(c, s, e)
  {
    if Troubled(s) {
      TroubleStays(c, s, e);
    } else if Troubled(Apply(c, s, e)) {
      TroubleStarts(c, s, e);
    }
    if Cause(c, s, e) {
      CauseTroubles(c, s, e);
    }
  }

  // Event j is a cause of trouble.
  ghost predicate CauseAt(c: Config, states: seq<State>, events: seq<Event>, j: nat)
    requires Run(c, states, events)
  {
    j < |events| && Step(c, states, events, j) && Cause(c, states[j], events[j])
  }

  ghost predicate CausedBefore(c: Config, states: seq<State>, events: seq<Event>, k: nat)
    requires Run(c, states, events)
  {
    exists j: nat :: j < k && CauseAt(c, states, events, j)
  }

  lemma CausedNext(c: Config, states: seq<State>, events: seq<Event>, k: nat)
    requires Run(c, states, events)
    ensures CausedBefore(c, states, events, k + 1) <==>
      CausedBefore(c, states, events, k) || CauseAt(c, states, events, k)
  {
    if j: nat :| j < k && CauseAt(c, states, events, j) {
      assert j < k + 1;
    }
    if CauseAt(c, states, events, k) {
      assert k < k + 1;
    }
  }

  lemma {:induction false} TroubledExactly(c: Config, states: seq<State>, events: seq<Event>, k: nat)
    requires Run(c, states, events) && k < |states|
    ensures Troubled(states[k]) <==> CausedBefore(c, states, events, k)
  {
    if k > 0 {
      TroubledExactly(c, states, events, k - 1);
      RunInv(c, states, events, k - 1);
      assert Step(c, states, events, k - 1);
      TroubleNext(c, states[k - 1], events[k - 1]);
      CausedNext(c, states, events, k - 1);
    }
  }

  // A finished worker has reported an error if and only if there was a cause for one before.
  lemma ErrorExactly(c: Config, states: seq<State>, events: seq<Event>, k: nat)
    requires Run(c, states, events) && k < |states| && states[k].worker == Finished
    ensures states[k].report == Error <==> CausedBefore(c, states, events, k)
  {
    TroubledExactly(c, states, events, k);
    FinishedReports(c, states, events, k);
    RunInv(c, states, events, k);
    if states[k].fault == 0 {
      forall r | r in states[k].pc ensures states[k].pc[r] != Overflowed {
        assert !Inside(states[k].pc[r]);
      }
    }
  }
}
