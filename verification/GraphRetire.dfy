/** Publication and reclamation of track graphs (engine/src/graph_retire.hpp). */
module GraphRetire {
  import opened Words
  import opened Wrappers
  import opened Gate

  // Any number of reader threads take the current graph through a reader count while one control thread
  // swaps graphs, retires the old ones and deletes them, in the graph transactions of
  // engine/src/audio_engine.cpp. Every atomic access is one step, and steps of different threads
  // interleave freely.

  type Graph = nat

  const GRACE_MS: u64 := 500

  datatype Entry = Entry(graph: Graph, tick: u64)

  // now - tick in 64-bit unsigned arithmetic.
  function Elapsed(now: u64, tick: u64): u64 {
    if now >= tick then now - tick else MAX_U64 - (tick - now) + 1
  }

  predicate Reapable(e: Entry, clear: bool, now: u64, force: bool) {
    clear && (force || Elapsed(now, e.tick) > GRACE_MS)
  }

  // The entries a reap leaves in the queue, in their order.
  function Survivors(entries: seq<Entry>, clear: bool, now: u64, force: bool): seq<Entry> {
    if entries == [] then []
    else
      var before := Survivors(entries[..|entries| - 1], clear, now, force);
      var e := entries[|entries| - 1];
      if Reapable(e, clear, now, force) then before else before + [e]
  }

  // The graphs a reap deletes, in that order.
  function Victims(entries: seq<Entry>, clear: bool, now: u64, force: bool): seq<Graph> {
    if entries == [] then []
    else
      var before := Victims(entries[..|entries| - 1], clear, now, force);
      var e := entries[|entries| - 1];
      if Reapable(e, clear, now, force) then before + [e.graph] else before
  }

  function Graphs(entries: seq<Entry>): seq<Graph> {
    seq(|entries|, k requires 0 <= k < |entries| => entries[k].graph)
  }

  lemma PushGraph(entries: seq<Entry>, e: Entry)
    ensures multiset(Graphs(entries + [e])) == multiset(Graphs(entries)) + multiset{e.graph}
  {
    assert Graphs(entries + [e]) == Graphs(entries) + [e.graph];
  }

  // A reap neither loses nor invents a graph.
  lemma {:induction false} ReapConserves(entries: seq<Entry>, clear: bool, now: u64, force: bool)
    ensures multiset(Graphs(entries)) ==
            multiset(Graphs(Survivors(entries, clear, now, force))) + multiset(Victims(entries, clear, now, force))
  {
    if entries != [] {
      var before, e := entries[..|entries| - 1], entries[|entries| - 1];
      ReapConserves(before, clear, now, force);
      PushGraph(before, e);
      assert entries == before + [e];
      PushGraph(Survivors(before, clear, now, force), e);
    }
  }

  // Without readers an unforced reap keeps exactly the entries queued for at most 500 ms, and deletes
  // exactly the graphs of the others.
  lemma {:induction false} ReapGrace(entries: seq<Entry>, now: u64)
    requires forall i :: 0 <= i < |entries| ==> entries[i].tick <= now
    ensures forall e :: e in Survivors(entries, true, now, false) <==> e in entries && now - e.tick <= 500
    ensures forall g :: g in Victims(entries, true, now, false) <==>
      exists i :: 0 <= i < |entries| && entries[i].graph == g && now - entries[i].tick > 500
  {
    if entries != [] {
      var n := |entries| - 1;
      ReapGrace(entries[..n], now);
      assert entries == entries[..n] + [entries[n]];
      assert forall i :: 0 <= i < n ==> entries[..n][i] == entries[i];
    }
  }

  // A queue in the order of its ticks is reaped from the front: the m oldest graphs go, in order.
  lemma {:induction false} ReapsFront(entries: seq<Entry>, now: u64) returns (m: nat)
    requires forall i, j :: 0 <= i < j < |entries| ==> entries[i].tick <= entries[j].tick
    requires forall i :: 0 <= i < |entries| ==> entries[i].tick <= now
    ensures m <= |entries|
    ensures Survivors(entries, true, now, false) == entries[m..]
    ensures Victims(entries, true, now, false) == Graphs(entries[..m])
  {
    m := 0;
    if entries != [] {
      var n := |entries| - 1;
      m := ReapsFront(entries[..n], now);
      if now - entries[n].tick > 500 {
        AllGone(entries[..n], now);
        assert |entries[..n][m..]| == n - m;
        m := n + 1;
        assert entries[..n][..n] == entries[..n] && entries[..m] == entries;
        assert Graphs(entries) == Graphs(entries[..n]) + [entries[n].graph];
      } else {
        assert entries[..n][m..] + [entries[n]] == entries[m..];
        assert entries[..n][..m] == entries[..m];
      }
    }
  }

  lemma {:induction false} AllGone(entries: seq<Entry>, now: u64)
    requires forall i :: 0 <= i < |entries| ==> entries[i].tick <= now && now - entries[i].tick > 500
    ensures Survivors(entries, true, now, false) == []
  {
    if entries != [] {
      AllGone(entries[..|entries| - 1], now);
    }
  }

  // With a reader present everything stays; a forced reap without readers clears the queue.
  lemma {:induction false} ReapExtremes(entries: seq<Entry>, now: u64, force: bool)
    ensures Survivors(entries, false, now, force) == entries && Victims(entries, false, now, force) == []
    ensures Survivors(entries, true, now, true) == [] && Victims(entries, true, now, true) == Graphs(entries)
  {
    if entries != [] {
      ReapExtremes(entries[..|entries| - 1], now, force);
      assert Graphs(entries) == Graphs(entries[..|entries| - 1]) + [entries[|entries| - 1].graph];
    }
  }

  class GraphRetireQueue {
    var entries: seq<Entry>
    var readers: nat

    constructor ()
      ensures entries == [] && readers == 0
    {
      entries, readers := [], 0;
    }

    method Retire(graph: Option<Graph>, now: u64)
      modifies `entries
      ensures entries == if graph.Some? then old(entries) + [Entry(graph.value, now)] else old(entries)
    {
      if graph.Some? {
        entries := entries + [Entry(graph.value, now)];
      }
    }

    method Reap(now: u64, force: bool) returns (freed: nat, ghost deleted: seq<Graph>)
      modifies `entries
      ensures entries == Survivors(old(entries), readers == 0, now, force)
      ensures deleted == Victims(old(entries), readers == 0, now, force) && freed == |deleted|
    {
      var present := readers != 0;
      freed, deleted := 0, [];
      var still: seq<Entry> := [];
      for k := 0 to |entries|
        invariant entries == old(entries)
        invariant still == Survivors(entries[..k], !present, now, force)
        invariant deleted == Victims(entries[..k], !present, now, force) && freed == |deleted|
      {
        assert entries[..k + 1][..k] == entries[..k];
        var e := entries[k];
        if !present && (force || Elapsed(now, e.tick) > GRACE_MS) {
          deleted := deleted + [e.graph];
          freed := freed + 1;
        } else {
          still := still + [e];
        }
      }
      assert entries[..|entries|] == entries;
      entries := still;
    }
  }

  // ---------- threads ----------

  // A reader enters the count, loads the current graph, uses it, and leaves; Leaving found none.
  datatype ReaderPc = Idle | Registered | Holding(graph: Graph) | Leaving

  datatype ControlPc =
    | Ready
    | Retiring(taken: Option<Graph>, reap: bool)                       // exchanged, old graph in hand
    | Counting(now: u64, force: bool, attach: bool)                  // about to load the reader count
    | Reaping(now: u64, force: bool, attach: bool, clear: bool, done: nat, kept: seq<Entry>)
    | AttachLoading
    | AttachRetiring(active: Graph)
    | AttachStoring(active: Graph)                                   // active is queued and still current

  datatype State = State(
    current: Option<Graph>, queue: seq<Entry>, count: nat, pc: map<Thread, ReaderPc>, control: ControlPc,
    made: nat, deleted: seq<Graph>, leaked: seq<Graph>)

  datatype Event =
    | Enter(r: Thread) | Load(r: Thread) | Exit(r: Thread)
    | Swap | Restore | Unlink | Retire(tick: u64, fails: bool, now: u64)
    | StartReap(now: u64, force: bool) | StartAttach(now: u64)
    | CountReaders | ReapEntry | EndReap
    | AttachLoad | AttachRetire(tick: u64, fails: bool) | AttachStore

  predicate Enabled(s: State, e: Event) {
    match e
    case Enter(r) => r in s.pc && s.pc[r] == Idle
    case Load(r) => r in s.pc && s.pc[r] == Registered
    case Exit(r) => r in s.pc && (s.pc[r].Holding? || s.pc[r] == Leaving)
    case Swap => s.control == Ready
    case Restore => s.control == Ready
    case Unlink => s.control == Ready
    case Retire(_, _, _) => s.control.Retiring?
    case StartReap(_, _) => s.control == Ready
    case StartAttach(_) => s.control == Ready
    case CountReaders => s.control.Counting?
    case ReapEntry => s.control.Reaping? && s.control.done < |s.queue|
    case EndReap => s.control.Reaping? && s.control.done >= |s.queue|
    case AttachLoad => s.control == AttachLoading
    case AttachRetire(_, _) => s.control.AttachRetiring?
    case AttachStore => s.control.AttachStoring?
  }

  function Apply(s: State, e: Event): State
    requires Enabled(s, e)
  {
    match e
    case Enter(r) => s.(count := Up(s.count), pc := s.pc[r := Registered])
    case Load(r) => s.(pc := s.pc[r := if s.current.Some? then Holding(s.current.value) else Leaving])
    case Exit(r) => s.(count := Down(s.count), pc := s.pc[r := Idle])
    case Swap => s.(current := Some(s.made), made := s.made + 1, control := Retiring(s.current, true))
    // Putting back the graph that a quiescent section had set aside: as a swap, but without a reap.
    case Restore => s.(current := Some(s.made), made := s.made + 1, control := Retiring(s.current, false))
    case Unlink => s.(current := None, control := Retiring(s.current, false))
    case Retire(tick, fails, now) => RetireOld(s, tick, fails, now)
    case StartReap(now, force) => s.(control := Counting(now, force, false))
    case StartAttach(now) => s.(control := Counting(now, false, true))
    case CountReaders =>
      var c := s.control;
      s.(control := Reaping(c.now, c.force, c.attach, s.count == 0, 0, []))
    case ReapEntry => ReapNext(s)
    case EndReap => s.(queue := s.control.kept, control := if s.control.attach then AttachLoading else Ready)
    case AttachLoad => s.(control := if s.current.Some? then AttachRetiring(s.current.value) else Ready)
    case AttachRetire(tick, fails) =>
      // A failed push drops the fresh copy and leaves everything as it was.
      if fails then s.(control := Ready)
      else s.(queue := s.queue + [Entry(s.control.active, tick)], control := AttachStoring(s.control.active))
    case AttachStore => s.(current := Some(s.made), made := s.made + 1, control := Ready)
  }

  // The old graph joins the queue; when the push fails it is leaked and the reap is skipped.
  function RetireOld(s: State, tick: u64, fails: bool, now: u64): State
    requires s.control.Retiring?
  {
    var c := s.control;
    if c.taken.None? then s.(control := if c.reap then Counting(now, false, false) else Ready)
    else if fails then s.(leaked := s.leaked + [c.taken.value], control := Ready)
    else
      s.(queue := s.queue + [Entry(c.taken.value, tick)],
         control := if c.reap then Counting(now, false, false) else Ready)
  }

  function ReapNext(s: State): State
    requires s.control.Reaping? && s.control.done < |s.queue|
  {
    var c := s.control;
    var e := s.queue[c.done];
    if Reapable(e, c.clear, c.now, c.force)
    then s.(deleted := s.deleted + [e.graph], control := c.(done := c.done + 1))
    else s.(control := c.(done := c.done + 1, kept := c.kept + [e]))
  }

  predicate Start(s: State) {
    && s.current.None? && s.queue == [] && s.count == 0 && s.control == Ready
    && (forall r :: r in s.pc ==> s.pc[r] == Idle) && |s.pc.Keys| < COUNT_RANGE
    && s.made == 0 && s.deleted == [] && s.leaked == []
  }

  // A run: the states an event list passes through.
  ghost predicate Run(states: seq<State>, events: seq<Event>) {
    && |states| == |events| + 1 && Start(states[0])
    && forall k :: 0 <= k < |events| ==> Step(states, events, k)
  }

  ghost predicate Step(states: seq<State>, events: seq<Event>, k: nat)
    requires |states| == |events| + 1 && k < |events|
  {
    Enabled(states[k], events[k]) && states[k + 1] == Apply(states[k], events[k])
  }

  // An exchange queues the old graph with its tick, or lets go of it undeleted when that fails. A swap
  // then reaps without force by the given clock; a restore and an unlink do not.
  lemma ExchangesReap(s: State, e: Event, tick: u64, fails: bool, now: u64)
    requires Enabled(s, e) && (e.Swap? || e.Restore? || e.Unlink?)
    ensures Enabled(Apply(s, e), Retire(tick, fails, now))
    ensures var t := Apply(Apply(s, e), Retire(tick, fails, now));
      && t.current == (if e.Unlink? then None else Some(s.made))
      && t.queue == (if s.current.Some? && !fails then s.queue + [Entry(s.current.value, tick)] else s.queue)
      && t.leaked == (if s.current.Some? && fails then s.leaked + [s.current.value] else s.leaked)
      && t.control ==
        (if e.Swap? && (s.current.None? || !fails) then Counting(now, false, false) else Ready)
      && t.deleted == s.deleted
  {
  }

  // ---------- invariant ----------

  function Active(pc: map<Thread, ReaderPc>): set<Thread> {
    set r | r in pc && pc[r] != Idle
  }

  ghost predicate CountExact(s: State) {
    Counts(s.count, Active(s.pc), s.pc.Keys)
  }

  function One(g: Option<Graph>): multiset<Graph> {
    if g.Some? then multiset{g.value} else multiset{}
  }

  // What the control thread still owns of the queue: while reaping, the kept entries and the rest.
  function Queued(s: State): seq<Entry> {
    if s.control.Reaping? && s.control.done <= |s.queue| then s.control.kept + s.queue[s.control.done..] else s.queue
  }

  // Every place a graph can be: published, in the control thread's hand, queued, deleted or leaked.
  function Places(s: State): multiset<Graph> {
    (if s.control.AttachStoring? then multiset{} else One(s.current))
    + (if s.control.Retiring? then One(s.control.taken) else multiset{})
    + multiset(Graphs(Queued(s))) + multiset(s.deleted) + multiset(s.leaked)
  }

  // Every graph made so far is in exactly one place.
  ghost predicate Accounted(s: State) {
    forall g: Graph :: Places(s)[g] == if g < s.made then 1 else 0
  }

  ghost predicate ControlFits(s: State) {
    match s.control
    case Reaping(now, force, _, clear, done, kept) =>
      && done <= |s.queue| && kept == Survivors(s.queue[..done], clear, now, force)
      && (clear ==> forall r :: r in s.pc && s.pc[r].Holding? ==> s.pc[r].graph !in Graphs(s.queue[done..]))
    case AttachRetiring(active) => s.current == Some(active)
    case AttachStoring(active) => s.current == Some(active) && active in Graphs(s.queue)
    case _ => true
  }

  ghost predicate Safe(s: State) {
    forall r :: r in s.pc && s.pc[r].Holding? ==> s.pc[r].graph < s.made && s.pc[r].graph !in s.deleted
  }

  ghost predicate Inv(s: State) {
    CountExact(s) && Accounted(s) && ControlFits(s) && Safe(s)
  }

  lemma Moved(pc: map<Thread, ReaderPc>, r: Thread, after: ReaderPc)
    requires r in pc
    ensures pc[r := after].Keys == pc.Keys
    ensures Active(pc[r := after]) == if after == Idle then Active(pc) - {r} else Active(pc) + {r}
  {
  }

  lemma CountMoved(s: State, r: Thread, after: ReaderPc)
    requires CountExact(s) && r in s.pc && s.pc[r] != after
    ensures var pc := s.pc[r := after];
      && (s.pc[r] == Idle ==> Counts(Up(s.count), Active(pc), pc.Keys))
      && (after == Idle ==> Counts(Down(s.count), Active(pc), pc.Keys))
      && (s.pc[r] != Idle && after != Idle ==> Counts(s.count, Active(pc), pc.Keys))
  {
    Moved(s.pc, r, after);
    if s.pc[r] == Idle {
      EnterCounts(s.count, Active(s.pc), s.pc.Keys, r);
    } else if after == Idle {
      ExitCounts(s.count, Active(s.pc), s.pc.Keys, r);
    } else {
      assert Active(s.pc) + {r} == Active(s.pc);
    }
  }

  lemma CountKept(s: State, e: Event)
    requires CountExact(s) && Enabled(s, e)
    ensures CountExact(Apply(s, e))
  {
    match e
    case Enter(r) => CountMoved(s, r, Registered);
    case Load(r) => CountMoved(s, r, if s.current.Some? then Holding(s.current.value) else Leaving);
    case Exit(r) => CountMoved(s, r, Idle);
    case _ =>
  }

  lemma GraphsSplit(a: seq<Entry>, b: seq<Entry>)
    ensures Graphs(a + b) == Graphs(a) + Graphs(b)
  {
  }

  lemma ReapEntryPlaces(s: State)
    requires s.control.Reaping? && s.control.done < |s.queue|
    ensures Places(ReapNext(s)) == Places(s)
  {
    var c, t := s.control, ReapNext(s);
    var e, rest := s.queue[c.done], s.queue[c.done + 1..];
    assert s.queue[c.done..] == [e] + rest;
    GraphsSplit(c.kept, [e] + rest);
    GraphsSplit([e], rest);
    GraphsSplit(c.kept + [e], rest);
    GraphsSplit(c.kept, rest);
    GraphsSplit(c.kept, [e]);
    assert Graphs([e]) == [e.graph];
  }

  lemma RetirePlaces(s: State, tick: u64, fails: bool, now: u64)
    requires s.control.Retiring?
    ensures Places(RetireOld(s, tick, fails, now)) == Places(s)
  {
    if s.control.taken.Some? {
      PushGraph(s.queue, Entry(s.control.taken.value, tick));
    }
  }

  // The events that replace the published graph.
  predicate Exchanges(e: Event) {
    e.Swap? || e.Restore? || e.Unlink? || e.AttachStore?
  }

  // The graph an event makes.
  function Made(s: State, e: Event): multiset<Graph> {
    if e.Swap? || e.Restore? || e.AttachStore? then multiset{s.made} else multiset{}
  }

  lemma ReapPlaces(s: State, e: Event)
    requires ControlFits(s) && Enabled(s, e) && (e.CountReaders? || e.ReapEntry? || e.EndReap?)
    ensures Places(Apply(s, e)) == Places(s)
  {
    match e
    case ReapEntry => ReapEntryPlaces(s);
    case CountReaders => assert [] + s.queue[0..] == s.queue;
    case EndReap => assert s.control.kept + s.queue[s.control.done..] == s.control.kept;
  }

  lemma PublishPlaces(s: State, e: Event)
    requires ControlFits(s) && Enabled(s, e) && Exchanges(e)
    ensures Places(Apply(s, e)) == Places(s) + Made(s, e)
  {
  }

  lemma AttachPlaces(s: State, tick: u64, fails: bool)
    requires ControlFits(s) && s.control.AttachRetiring?
    ensures Places(Apply(s, AttachRetire(tick, fails))) == Places(s)
  {
    PushGraph(s.queue, Entry(s.control.active, tick));
  }

  lemma OtherPlaces(s: State, e: Event)
    requires Enabled(s, e)
    requires e.Enter? || e.Load? || e.Exit? || e.StartReap? || e.StartAttach? || e.AttachLoad?
    ensures Places(Apply(s, e)) == Places(s)
  {
  }

  lemma PlacesKept(s: State, e: Event)
    requires ControlFits(s) && Enabled(s, e)
    ensures Places(Apply(s, e)) == Places(s) + Made(s, e)
  {
    if e.CountReaders? || e.ReapEntry? || e.EndReap? {
      ReapPlaces(s, e);
    } else if Exchanges(e) {
      PublishPlaces(s, e);
    } else if e.Retire? {
      RetirePlaces(s, e.tick, e.fails, e.now);
    } else if e.AttachRetire? {
      AttachPlaces(s, e.tick, e.fails);
    } else {
      OtherPlaces(s, e);
    }
  }

  lemma MadeNext(s: State, e: Event)
    requires Enabled(s, e)
    ensures Apply(s, e).made == s.made + |Made(s, e)|
  {
  }

  lemma AccountedNext(s: State, t: State, added: multiset<Graph>)
    requires Accounted(s) && Places(t) == Places(s) + added
    requires (added == multiset{} && t.made == s.made) || (added == multiset{s.made} && t.made == s.made + 1)
    ensures Accounted(t)
  {
    forall g: Graph ensures Places(t)[g] == if g < t.made then 1 else 0 {
      assert Places(s)[g] == if g < s.made then 1 else 0;
    }
  }

  lemma AccountedKept(s: State, e: Event)
    requires ControlFits(s) && Accounted(s) && Enabled(s, e)
    ensures Accounted(Apply(s, e))
  {
    PlacesKept(s, e);
    MadeNext(s, e);
    AccountedNext(s, Apply(s, e), Made(s, e));
  }

  // A graph still in the queue is not the published one.
  lemma RestUnpublished(s: State, g: Graph)
    requires Accounted(s) && s.control.Reaping? && s.control.done <= |s.queue|
    requires g in Graphs(s.queue[s.control.done..])
    ensures s.current != Some(g) && g !in s.deleted
  {
    GraphsSplit(s.control.kept, s.queue[s.control.done..]);
    assert multiset(Graphs(Queued(s)))[g] >= 1;
    assert Places(s)[g] <= 1;
    assert s.current == Some(g) ==> One(s.current)[g] == 1;
    assert g in s.deleted ==> multiset(s.deleted)[g] >= 1;
  }

  lemma CurrentKept(s: State)
    requires Accounted(s) && ControlFits(s) && s.current.Some?
    ensures s.current.value < s.made && s.current.value !in s.deleted
  {
    var g := s.current.value;
    if s.control.AttachStoring? {
      assert multiset(Graphs(s.queue))[g] >= 1;
    }
    assert Places(s)[g] >= 1;
  }

  lemma ReapFits(s: State)
    requires ControlFits(s) && s.control.Reaping? && s.control.done < |s.queue|
    ensures ControlFits(ReapNext(s))
  {
    var c := s.control;
    assert s.queue[..c.done + 1][..c.done] == s.queue[..c.done];
    assert s.queue[c.done..] == [s.queue[c.done]] + s.queue[c.done + 1..];
    GraphsSplit([s.queue[c.done]], s.queue[c.done + 1..]);
  }

  lemma NobodyInside(s: State, r: Thread)
    requires CountExact(s) && s.count == 0 && r in s.pc
    ensures s.pc[r] == Idle
  {
    assert Active(s.pc) == {};
    assert r !in Active(s.pc);
  }

  lemma FitsKept(s: State, e: Event)
    requires Inv(s) && Enabled(s, e)
    ensures ControlFits(Apply(s, e))
  {
    match e
    case ReapEntry => ReapFits(s);
    case Load(r) =>
      if s.control.Reaping? {
        forall g | g in Graphs(s.queue[s.control.done..]) ensures s.current != Some(g) {
          RestUnpublished(s, g);
        }
      }
    case CountReaders =>
      forall r | r in s.pc && s.count == 0 ensures s.pc[r] == Idle {
        NobodyInside(s, r);
      }
      assert s.queue[..0] == [];
    case AttachRetire(tick, fails) =>
      GraphsSplit(s.queue, [Entry(s.control.active, tick)]);
      assert Graphs([Entry(s.control.active, tick)])[0] == s.control.active;
    case _ =>
  }

  lemma SafeKept(s: State, e: Event)
    requires Inv(s) && Enabled(s, e)
    ensures Safe(Apply(s, e))
  {
    match e
    case Load(r) =>
      if s.current.Some? {
        CurrentKept(s);
      }
    case ReapEntry =>
      assert s.queue[s.control.done..][0] == s.queue[s.control.done];
      assert Graphs(s.queue[s.control.done..])[0] == s.queue[s.control.done].graph;
    case _ =>
  }

  lemma InvStart(s: State)
    requires Start(s)
    ensures Inv(s)
  {
    assert Active(s.pc) == {};
  }

  lemma InvStep(s: State, e: Event)
    requires Inv(s) && Enabled(s, e)
    ensures Inv(Apply(s, e))
  {
    CountKept(s, e);
    AccountedKept(s, e);
    FitsKept(s, e);
    SafeKept(s, e);
  }

  lemma {:induction false} RunInv(states: seq<State>, events: seq<Event>, k: nat)
    requires Run(states, events) && k < |states|
    ensures Inv(states[k])
  {
    if k == 0 {
      InvStart(states[0]);
    } else {
      RunInv(states, events, k - 1);
      assert Step(states, events, k - 1);
      InvStep(states[k - 1], events[k - 1]);
    }
  }

  // ---------- what every run keeps ----------

  // No reader ever holds a deleted graph.
  lemma NoReaderHoldsDeleted(states: seq<State>, events: seq<Event>, k: nat, r: Thread)
    requires Run(states, events) && k < |states| && r in states[k].pc && states[k].pc[r].Holding?
    ensures states[k].pc[r].graph !in states[k].deleted
  {
    RunInv(states, events, k);
  }

  // Every graph ever made is in exactly one place: none is deleted twice, none vanishes, and the
  // published one is not deleted.
  lemma EveryGraphInOnePlace(states: seq<State>, events: seq<Event>, k: nat, g: Graph)
    requires Run(states, events) && k < |states|
    ensures Places(states[k])[g] == if g < states[k].made then 1 else 0
    ensures multiset(states[k].deleted)[g] <= 1
    ensures states[k].current == Some(g) ==> g !in states[k].deleted
  {
    RunInv(states, events, k);
    if states[k].current == Some(g) {
      CurrentKept(states[k]);
    }
  }

  // A reap under way began by loading the reader count, and has dealt with the entries up to `done`
  // of the queue it began with as Reap does.
  ghost predicate ReapedSince(before: State, s: State)
    requires before.control.Counting? && s.control.Reaping?
  {
    var c := s.control;
    && c.now == before.control.now && c.force == before.control.force && c.clear == (before.count == 0)
    && s.queue == before.queue && c.done <= |s.queue|
    && c.kept == Survivors(s.queue[..c.done], c.clear, c.now, c.force)
    && s.deleted == before.deleted + Victims(s.queue[..c.done], c.clear, c.now, c.force)
  }

  lemma ReapEntrySince(before: State, s: State)
    requires before.control.Counting? && s.control.Reaping? && ReapedSince(before, s) && Enabled(s, ReapEntry)
    ensures ReapedSince(before, Apply(s, ReapEntry))
  {
    assert s.queue[..s.control.done + 1][..s.control.done] == s.queue[..s.control.done];
  }

  lemma {:induction false} ReapBegan(states: seq<State>, events: seq<Event>, k: nat) returns (j: nat)
    requires Run(states, events) && k < |states| && states[k].control.Reaping?
    ensures j < k && events[j].CountReaders? && states[j].control.Counting? && ReapedSince(states[j], states[k])
    ensures forall i :: j < i < k ==> !events[i].EndReap?
  {
    assert Step(states, events, k - 1);
    var e := events[k - 1];
    if e.CountReaders? {
      j := k - 1;
    } else {
      j := ReapBegan(states, events, k - 1);
      if e.ReapEntry? {
        ReapEntrySince(states[j], states[k - 1]);
      }
    }
  }

  // The steps of a reap, however the readers' steps fall between them, keep and delete exactly what
  // Reap does with the queue and the reader count found when it began.
  lemma ReapStepsAreReap(states: seq<State>, events: seq<Event>, k: nat) returns (j: nat)
    requires Run(states, events) && k < |events| && events[k].EndReap?
    ensures j < k && events[j].CountReaders? && states[j].control.Counting?
    ensures forall i :: j < i < k ==> !events[i].EndReap?
    ensures var c, clear := states[j].control, states[j].count == 0;
      && states[k + 1].queue == Survivors(states[j].queue, clear, c.now, c.force)
      && states[k + 1].deleted == states[j].deleted + Victims(states[j].queue, clear, c.now, c.force)
  {
    assert Step(states, events, k);
    j := ReapBegan(states, events, k);
    assert states[k].queue[..states[k].control.done] == states[k].queue;
  }

  // Everything published is b or later.
  ghost predicate PublishedFrom(s: State, b: Graph) {
    b <= s.made && (s.current.Some? ==> s.current.value >= b)
  }

  ghost predicate HeldFrom(s: State, b: Graph) {
    forall r :: r in s.pc && s.pc[r].Holding? ==> s.pc[r].graph >= b
  }

  lemma {:induction false} PublishedForward(states: seq<State>, events: seq<Event>, i: nat, k: nat, b: Graph)
    requires Run(states, events) && i <= k < |states| && PublishedFrom(states[i], b)
    ensures PublishedFrom(states[k], b)
  {
    if i < k {
      PublishedForward(states, events, i, k - 1, b);
      assert Step(states, events, k - 1);
    }
  }

  lemma {:induction false} HeldForward(states: seq<State>, events: seq<Event>, j: nat, k: nat, b: Graph)
    requires Run(states, events) && j <= k < |states| && PublishedFrom(states[j], b) && HeldFrom(states[j], b)
    ensures HeldFrom(states[k], b)
  {
    if j < k {
      HeldForward(states, events, j, k - 1, b);
      PublishedForward(states, events, j, k - 1, b);
      assert Step(states, events, k - 1);
    }
  }

  // An exchange unlinks what was published: the graph made by it, or the next one, is the first
  // that can be published afterwards.
  function Boundary(before: State): Graph {
    before.made
  }

  // Once zero readers are seen at some moment after an exchange, no reader ever again holds a graph
  // published before that exchange.
  lemma DrainedAfterExchange(states: seq<State>, events: seq<Event>, i: nat, j: nat, k: nat, r: Thread)
    requires Run(states, events) && i < j <= k < |states|
    requires Exchanges(events[i])
    requires states[j].count == 0
    requires r in states[k].pc && states[k].pc[r].Holding?
    ensures states[k].pc[r].graph >= Boundary(states[i])
    ensures states[i].current.Some? ==> states[i].current.value < Boundary(states[i])
  {
    var b := Boundary(states[i]);
    assert Step(states, events, i);
    RunInv(states, events, i);
    if states[i].current.Some? {
      CurrentKept(states[i]);
    }
    PublishedForward(states, events, i + 1, j, b);
    RunInv(states, events, j);
    forall q | q in states[j].pc ensures states[j].pc[q] == Idle {
      NobodyInside(states[j], q);
    }
    HeldForward(states, events, j, k, b);
  }

  lemma {:induction false} PublishedStays(states: seq<State>, events: seq<Event>, i: nat, k: nat)
    requires Run(states, events) && i <= k < |states|
    requires forall m :: i <= m < k ==> !Exchanges(events[m])
    ensures states[k].current == states[i].current && states[k].made == states[i].made
  {
    if i < k {
      PublishedStays(states, events, i, k - 1);
      assert Step(states, events, k - 1);
    }
  }

  // Between a drain and the next exchange every reader holds exactly the graph of the last exchange;
  // after an unlink none holds any.
  lemma QuietReaders(states: seq<State>, events: seq<Event>, i: nat, j: nat, k: nat, r: Thread)
    requires Run(states, events) && i < j <= k < |states|
    requires Exchanges(events[i]) && states[j].count == 0 && forall m :: i < m < k ==> !Exchanges(events[m])
    requires r in states[k].pc && states[k].pc[r].Holding?
    ensures states[i + 1].current == Some(states[k].pc[r].graph)
  {
    DrainedAfterExchange(states, events, i, j, k, r);
    PublishedStays(states, events, i + 1, k);
    RunInv(states, events, k);
    assert Step(states, events, i);
  }

  // The event put the entry into the queue.
  predicate Queues(s: State, e: Event, entry: Entry) {
    || (e.Retire? && s.control.Retiring? && s.control.taken == Some(entry.graph) && !e.fails && e.tick == entry.tick)
    || (e.AttachRetire? && s.control.AttachRetiring? && s.control.active == entry.graph && !e.fails && e.tick
      == entry.tick)
  }

  // Every queued entry was put there by a retirement, with its tick.
  lemma {:induction false} QueuedBy(states: seq<State>, events: seq<Event>, k: nat, entry: Entry) returns (m: nat)
    requires Run(states, events) && k < |states|
    requires entry in states[k].queue || (states[k].control.Reaping? && entry in states[k].control.kept)
    ensures m < k && Queues(states[m], events[m], entry)
  {
    assert Step(states, events, k - 1);
    var s, e := states[k - 1], events[k - 1];
    if Queues(s, e, entry) {
      m := k - 1;
    } else {
      m := QueuedBy(states, events, k - 1, entry);
    }
  }

  // A graph deleted by an unforced reap was retired more than 500 ms before the clock of that reap.
  lemma DeletedAfterGrace(states: seq<State>, events: seq<Event>, k: nat) returns (m: nat, entry: Entry)
    requires Run(states, events) && k < |events| && events[k].ReapEntry?
    requires states[k + 1].deleted != states[k].deleted
    ensures states[k].control.Reaping? && states[k + 1].deleted == states[k].deleted + [entry.graph]
    ensures m < k && Queues(states[m], events[m], entry)
    ensures !states[k].control.force && entry.tick <= states[k].control.now ==> states[k].control.now - entry.tick > 500
  {
    assert Step(states, events, k);
    entry := states[k].queue[states[k].control.done];
    m := QueuedBy(states, events, k, entry);
  }
}
