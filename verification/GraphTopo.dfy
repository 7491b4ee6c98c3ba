/** Topological sort and reverse reachability over tracks (engine/src/graph_topo.hpp). */
module GraphTopo {
  import opened Wrappers

  // Tracks carry ids; the algorithms, graph_topo_order of engine/src/track_graph.cpp among them, run on
  // a graph over indices, where `g[u]` lists the successors of `u`, dest edges first, then sidechain
  // edges, repeated edges kept.

  type Id = nat

  type Graph = seq<seq<nat>>

  datatype TopoNode = TopoNode(trackId: Id, dests: seq<Id>, sidechainDests: seq<Id>)

  datatype TopoError = DuplicateId | UnknownDest

  datatype Topo = Topo(index: map<Id, nat>, incoming: seq<seq<nat>>, order: seq<nat>) {
    predicate Complete() { |order| == |incoming| }
  }

  // ---------- graphs and paths ----------

  predicate Below(s: seq<nat>, n: nat) {
    forall k :: 0 <= k < |s| ==> s[k] < n
  }

  ghost predicate IsGraph(g: Graph) {
    forall u :: 0 <= u < |g| ==> Below(g[u], |g|)
  }

  predicate Edge(g: Graph, u: nat, v: nat) {
    u < |g| && v in g[u]
  }

  predicate IsPath(g: Graph, p: seq<nat>) {
    && |p| > 0 && p[0] < |g|
    && forall k: nat :: 0 <= k < |p| - 1 ==> Edge(g, p[k], p[k + 1])
  }

  ghost predicate HasCycle(g: Graph) {
    exists p: seq<nat> :: IsPath(g, p) && |p| > 1 && p[0] == p[|p| - 1]
  }

  ghost predicate Reaches(g: Graph, u: nat, targets: set<nat>) {
    exists p: seq<nat> :: IsPath(g, p) && p[0] == u && p[|p| - 1] in targets
  }

  predicate Distinct<T(==)>(s: seq<T>) {
    forall i: nat, j: nat :: 0 <= i < j < |s| ==> s[i] != s[j]
  }

  ghost function Elems(s: seq<nat>): set<nat> {
    set x | x in s
  }

  // Every edge into a listed node comes from a node listed before it.
  ghost predicate Forward(g: Graph, order: seq<nat>) {
    forall j: nat, u: nat :: 0 <= j < |order| && Edge(g, u, order[j]) ==> u in order[..j]
  }

  function Count(s: seq<nat>, v: nat): nat {
    if s == [] then 0 else (if s[0] == v then 1 else 0) + Count(s[1..], v)
  }

  // Number of edges into v from the nodes below k that are not in `done`.
  ghost function Pending(g: Graph, done: set<nat>, v: nat, k: nat): nat
    requires k <= |g|
  {
    if k == 0 then 0
    else Pending(g, done, v, k - 1) + if k - 1 in done then 0 else Count(g[k - 1], v)
  }

  function Repeat(x: nat, n: nat): seq<nat> {
    seq(n, _ => x)
  }

  // The sources of the edges into v from the nodes below k, one per edge, ascending.
  function Incoming(g: Graph, v: nat, k: nat): seq<nat>
    requires k <= |g|
  {
    if k == 0 then [] else Incoming(g, v, k - 1) + Repeat(k - 1, Count(g[k - 1], v))
  }

  lemma {:induction false} CountMember(s: seq<nat>, v: nat)
    ensures Count(s, v) > 0 <==> v in s
  {
    if s != [] {
      CountMember(s[1..], v);
    }
  }

  lemma {:induction false} CountAppend(s: seq<nat>, x: nat, v: nat)
    ensures Count(s + [x], v) == Count(s, v) + if x == v then 1 else 0
  {
    if s == [] {
      assert s + [x] == [x];
    } else {
      assert (s + [x])[1..] == s[1..] + [x];
      CountAppend(s[1..], x, v);
    }
  }

  lemma {:induction false} IncomingMember(g: Graph, v: nat, k: nat, u: nat)
    requires k <= |g|
    ensures u in Incoming(g, v, k) <==> u < k && Edge(g, u, v)
  {
    if k > 0 {
      IncomingMember(g, v, k - 1, u);
      CountMember(g[k - 1], v);
      var tail := Repeat(k - 1, Count(g[k - 1], v));
      assert u in tail ==> u == k - 1 && |tail| > 0;
      assert |tail| > 0 ==> tail[0] == k - 1;
    }
  }

  lemma {:induction false} PendingZero(g: Graph, done: set<nat>, v: nat, k: nat, u: nat)
    requires k <= |g| && Pending(g, done, v, k) == 0
    requires u < k && Edge(g, u, v)
    ensures u in done
  {
    CountMember(g[k - 1], v);
    if u < k - 1 {
      PendingZero(g, done, v, k - 1, u);
    }
  }

  lemma {:induction false} PendingSource(g: Graph, done: set<nat>, v: nat, k: nat) returns (u: nat)
    requires k <= |g| && Pending(g, done, v, k) > 0
    ensures u < k && u !in done && Edge(g, u, v)
  {
    CountMember(g[k - 1], v);
    if k - 1 !in done && Count(g[k - 1], v) > 0 {
      u := k - 1;
    } else {
      u := PendingSource(g, done, v, k - 1);
    }
  }

  lemma {:induction false} PendingAdd(g: Graph, done: set<nat>, w: nat, v: nat, k: nat)
    requires k <= |g| && w !in done
    ensures Pending(g, done, v, k) == Pending(g, done + {w}, v, k) + if w < k then Count(g[w], v) else 0
  {
    if k > 0 {
      PendingAdd(g, done, w, v, k - 1);
    }
  }

  lemma {:induction false} DistinctBounded(s: seq<nat>, n: nat)
    requires Distinct(s) && Below(s, n)
    ensures |s| <= n
  {
    if s == [] {
    } else if s[0] < n && n - 1 in s {
      var k :| 0 <= k < |s| && s[k] == n - 1;
      var t := s[..k] + s[k + 1..];
      DistinctBounded(t, n - 1);
    } else {
      DistinctBounded(s, n - 1);
    }
  }

  // A distinct list of all of 0..n lists every node.
  lemma DistinctFull(s: seq<nat>, n: nat, v: nat)
    requires Distinct(s) && Below(s, n) && |s| == n && v < n
    ensures v in s
  {
    if v !in s {
      DistinctBounded(s + [v], n);
    }
  }

  // ---------- Kahn's algorithm ----------

  datatype Kahn = Kahn(indegree: seq<int>, order: seq<nat>)

  // One decrement of the indegree of t, which joins the order when it reaches zero.
  function Hit(k: Kahn, t: nat): Kahn
    requires t < |k.indegree|
  {
    var d := k.indegree[t] - 1;
    Kahn(k.indegree[t := d], if d == 0 then k.order + [t] else k.order)
  }

  function Relax(k: Kahn, targets: seq<nat>): (r: Kahn)
    requires Below(targets, |k.indegree|)
    ensures |r.indegree| == |k.indegree|
    decreases |targets|
  {
    if targets == [] then k else Relax(Hit(k, targets[0]), targets[1..])
  }

  // Nodes are listed exactly when no unrelaxed edge enters them.
  ghost predicate Listed(k: Kahn) {
    && Distinct(k.order)
    && forall v: nat :: v in k.order <==> v < |k.indegree| && k.indegree[v] == 0
  }

  lemma {:induction false} RelaxLists(k: Kahn, targets: seq<nat>)
    requires Listed(k)
    requires Below(targets, |k.indegree|)
    requires forall v: nat :: 0 <= v < |k.indegree| ==> k.indegree[v] >= Count(targets, v)
    ensures var r := Relax(k, targets);
      && Listed(r) && k.order <= r.order
      && forall v: nat :: 0 <= v < |k.indegree| ==> r.indegree[v] == k.indegree[v] - Count(targets, v)
    decreases |targets|
  {
    if targets != [] {
      var t := targets[0];
      assert t in targets;
      assert Count(targets, t) >= 1;
      assert t !in k.order;
      RelaxLists(Hit(k, t), targets[1..]);
    }
  }

  ghost predicate KahnInv(g: Graph, k: Kahn, cursor: nat) {
    && IsGraph(g) && |k.indegree| == |g| && cursor <= |k.order| <= |g|
    && Listed(k)
    && (forall v: nat :: 0 <= v < |g| ==> k.indegree[v] == Pending(g, Elems(k.order[..cursor]), v, |g|))
    && Forward(g, k.order)
  }

  lemma PendingRelaxed(g: Graph, done: set<nat>, w: nat)
    requires w < |g| && w !in done
    ensures forall v: nat :: v < |g| ==> Pending(g, done, v, |g|) == Pending(g, done + {w}, v, |g|) + Count(g[w], v)
  {
    forall v: nat | v < |g|
      ensures Pending(g, done, v, |g|) == Pending(g, done + {w}, v, |g|) + Count(g[w], v)
    {
      PendingAdd(g, done, w, v, |g|);
    }
  }

  lemma NextDone(order: seq<nat>, longer: seq<nat>, cursor: nat)
    requires cursor < |order| && order <= longer && Distinct(order)
    ensures order[cursor] !in Elems(order[..cursor])
    ensures Elems(longer[..cursor + 1]) == Elems(order[..cursor]) + {order[cursor]}
  {
    assert longer[..cursor + 1] == order[..cursor] + [order[cursor]];
  }

  lemma KahnStepCounts(g: Graph, k: Kahn, cursor: nat)
    requires KahnInv(g, k, cursor) && cursor < |k.order|
    ensures k.order[cursor] < |g|
    ensures var w := k.order[cursor]; var r := Relax(k, g[w]);
      && Listed(r) && k.order <= r.order
      && (forall v: nat :: v < |g| ==> r.indegree[v] == Pending(g, Elems(r.order[..cursor + 1]), v, |g|))
  {
    var w := k.order[cursor];
    assert w in k.order;
    NextDone(k.order, k.order, cursor);
    PendingRelaxed(g, Elems(k.order[..cursor]), w);
    RelaxLists(k, g[w]);
    NextDone(k.order, Relax(k, g[w]).order, cursor);
  }

  lemma KahnStep(g: Graph, k: Kahn, cursor: nat)
    requires KahnInv(g, k, cursor) && cursor < |k.order|
    ensures k.order[cursor] < |g|
    ensures KahnInv(g, Relax(k, g[k.order[cursor]]), cursor + 1)
  {
    KahnStepCounts(g, k, cursor);
    var r := Relax(k, g[k.order[cursor]]);
    ListedBounded(r);
    forall j: nat, u: nat | j < |r.order| && Edge(g, u, r.order[j])
      ensures u in r.order[..j]
    {
      if j < |k.order| {
        assert r.order[..j] == k.order[..j];
      } else {
        assert r.order[j] in r.order;
        PendingZero(g, Elems(r.order[..cursor + 1]), r.order[j], |g|, u);
        assert r.order[..cursor + 1] <= r.order[..j];
      }
    }
  }

  lemma ListedBounded(k: Kahn)
    requires Listed(k)
    ensures Below(k.order, |k.indegree|) && |k.order| <= |k.indegree|
  {
    forall j | 0 <= j < |k.order| ensures k.order[j] < |k.indegree| {
      assert k.order[j] in k.order;
    }
    DistinctBounded(k.order, |k.indegree|);
  }

  ghost function KahnRun(g: Graph, k: Kahn, cursor: nat): (r: Kahn)
    requires KahnInv(g, k, cursor)
    ensures KahnInv(g, r, |r.order|)
    decreases |g| - cursor
  {
    if cursor == |k.order| then k
    else
      KahnStep(g, k, cursor);
      KahnRun(g, Relax(k, g[k.order[cursor]]), cursor + 1)
  }

  // The nodes below n no edge enters, ascending.
  function Roots(indegree: seq<int>, n: nat): (r: seq<nat>)
    requires n <= |indegree|
    ensures Distinct(r)
    ensures forall v: nat :: v in r <==> v < n && indegree[v] == 0
  {
    if n == 0 then []
    else if indegree[n - 1] == 0 then Roots(indegree, n - 1) + [n - 1]
    else Roots(indegree, n - 1)
  }

  ghost function Indegrees(g: Graph): seq<int> {
    seq(|g|, v requires 0 <= v < |g| => Pending(g, {}, v, |g|))
  }

  ghost function KahnStart(g: Graph): (k: Kahn)
    requires IsGraph(g)
    ensures KahnInv(g, k, 0)
  {
    var k := Kahn(Indegrees(g), Roots(Indegrees(g), |g|));
    assert KahnInv(g, k, 0) by {
      assert Elems(k.order[..0]) == {};
      ListedBounded(k);
      forall j: nat, u: nat | 0 <= j < |k.order| && u < |g|
        ensures !Edge(g, u, k.order[j])
      {
        assert k.order[j] in k.order;
        if Edge(g, u, k.order[j]) {
          PendingZero(g, {}, k.order[j], |g|, u);
          assert false;
        }
      }
    }
    k
  }

  ghost function KahnOrder(g: Graph): seq<nat>
    requires IsGraph(g)
  {
    KahnRun(g, KahnStart(g), 0).order
  }

  // The order lists distinct nodes and every edge, repeated or not, goes forward in it.
  lemma KahnSound(g: Graph)
    requires IsGraph(g)
    ensures Distinct(KahnOrder(g)) && |KahnOrder(g)| <= |g|
    ensures Below(KahnOrder(g), |g|)
    ensures Forward(g, KahnOrder(g))
  {
    var r := KahnRun(g, KahnStart(g), 0);
    forall k | 0 <= k < |r.order| ensures r.order[k] < |g| {
      assert r.order[k] in r.order;
    }
  }

  lemma {:induction false} ForwardPath(g: Graph, order: seq<nat>, p: seq<nat>, j: nat) returns (i: nat)
    requires Forward(g, order) && IsPath(g, p)
    requires j < |order| && order[j] == p[|p| - 1]
    ensures i + |p| - 1 <= j && order[i] == p[0]
  {
    if |p| == 1 {
      i := j;
    } else {
      var u := p[|p| - 2];
      assert Edge(g, u, order[j]);
      var m :| 0 <= m < j && order[m] == u;
      i := ForwardPath(g, order, p[..|p| - 1], m);
    }
  }

  ghost predicate HasPred(g: Graph, stuck: set<nat>, v: nat) {
    exists u: nat :: u in stuck && Edge(g, u, v)
  }

  // Walking backwards inside a set where every node has a predecessor closes a cycle.
  lemma FindCycle(g: Graph, stuck: set<nat>, p: seq<nat>)
    requires IsPath(g, p) && Elems(p) <= stuck
    requires forall v: nat :: v in stuck ==> HasPred(g, stuck, v)
    ensures HasCycle(g)
    decreases stuck - Elems(p)
  {
    var u := PredOf(g, stuck, p);
    if u in p {
      CloseCycle(g, u, p);
    } else {
      PathCons(g, u, p);
      var q := [u] + p;
      assert Elems(q) == Elems(p) + {u};
      FindCycle(g, stuck, q);
    }
  }

  lemma PredOf(g: Graph, stuck: set<nat>, p: seq<nat>) returns (u: nat)
    requires |p| > 0 && Elems(p) <= stuck
    requires forall v: nat :: v in stuck ==> HasPred(g, stuck, v)
    ensures u in stuck && Edge(g, u, p[0])
  {
    assert p[0] in Elems(p);
    assert HasPred(g, stuck, p[0]);
    u :| u in stuck && Edge(g, u, p[0]);
  }

  lemma CloseCycle(g: Graph, u: nat, p: seq<nat>)
    requires IsPath(g, p) && Edge(g, u, p[0]) && u in p
    ensures HasCycle(g)
  {
    var j :| 0 <= j < |p| && p[j] == u;
    var q := p[..j + 1];
    assert IsPath(g, q);
    PathCons(g, u, q);
    var c := [u] + q;
    assert IsPath(g, c) && |c| > 1 && c[0] == c[|c| - 1];
  }

  lemma PathCons(g: Graph, u: nat, p: seq<nat>)
    requires IsPath(g, p) && Edge(g, u, p[0])
    ensures IsPath(g, [u] + p)
  {
    var q := [u] + p;
    forall k | 0 <= k < |q| - 1 ensures Edge(g, q[k], q[k + 1]) {
      if k > 0 {
        assert Edge(g, p[k - 1], p[k]);
      }
    }
  }

  lemma OrderedAcyclic(g: Graph, order: seq<nat>)
    requires Forward(g, order) && Distinct(order) && Below(order, |g|) && |order| == |g|
    ensures !HasCycle(g)
  {
    if HasCycle(g) {
      var p: seq<nat> :| IsPath(g, p) && |p| > 1 && p[0] == p[|p| - 1];
      DistinctFull(order, |g|, p[0]);
      var j :| 0 <= j < |order| && order[j] == p[0];
      var i := ForwardPath(g, order, p, j);
      assert false;
    }
  }

  lemma MissingNode(order: seq<nat>, n: nat) returns (v: nat)
    requires |order| < n
    ensures v < n && v !in order
  {
    if forall v: nat :: v < n ==> v in order {
      FullIsLong(order, n);
      assert false;
    }
    v :| v < n && v !in order;
  }

  lemma StuckPred(g: Graph, k: Kahn, stuck: set<nat>, v: nat)
    requires KahnInv(g, k, |k.order|) && stuck == (set v: nat | v < |g| && v !in k.order)
    requires v in stuck
    ensures HasPred(g, stuck, v)
  {
    assert k.order[..|k.order|] == k.order;
    var u := PendingSource(g, Elems(k.order), v, |g|);
    assert u in stuck;
  }

  lemma StuckCycle(g: Graph, k: Kahn)
    requires KahnInv(g, k, |k.order|) && |k.order| < |g|
    ensures HasCycle(g)
  {
    var stuck := set v: nat | v < |g| && v !in k.order;
    var v := MissingNode(k.order, |g|);
    forall v | v in stuck ensures HasPred(g, stuck, v) {
      StuckPred(g, k, stuck, v);
    }
    assert Elems([v]) == {v};
    FindCycle(g, stuck, [v]);
  }

  // The order is complete exactly when the combined graph has no cycle.
  lemma KahnComplete(g: Graph)
    requires IsGraph(g)
    ensures |KahnOrder(g)| == |g| <==> !HasCycle(g)
  {
    var r := KahnRun(g, KahnStart(g), 0);
    KahnSound(g);
    if |r.order| == |g| {
      OrderedAcyclic(g, r.order);
    } else {
      StuckCycle(g, r);
    }
  }

  lemma {:induction false} FullIsLong(s: seq<nat>, n: nat)
    requires forall v: nat :: 0 <= v < n ==> v in s
    ensures |s| >= n
  {
    if n > 0 {
      assert n - 1 in s;
      var k :| 0 <= k < |s| && s[k] == n - 1;
      var t := s[..k] + s[k + 1..];
      forall v: nat | v < n - 1
        ensures v in t
      {
        assert v in s;
        var i :| 0 <= i < |s| && s[i] == v;
        assert i != k;
        assert t[if i < k then i else i - 1] == v;
      }
      FullIsLong(t, n - 1);
    }
  }

  // ---------- from tracks to graphs ----------

  function Targets(n: TopoNode): seq<Id> {
    n.dests + n.sidechainDests
  }

  predicate UniqueIds(nodes: seq<TopoNode>) {
    forall i: nat, j: nat :: 0 <= i < j < |nodes| ==> nodes[i].trackId != nodes[j].trackId
  }

  predicate IsIndex(nodes: seq<TopoNode>, id: Id, i: nat) {
    i < |nodes| && nodes[i].trackId == id
  }

  ghost predicate Known(nodes: seq<TopoNode>, id: Id) {
    exists i: nat :: IsIndex(nodes, id, i)
  }

  ghost function IndexOf(nodes: seq<TopoNode>, id: Id): (i: nat)
    requires Known(nodes, id)
    ensures IsIndex(nodes, id, i)
  {
    var i :| IsIndex(nodes, id, i); i
  }

  ghost predicate KnownTargets(nodes: seq<TopoNode>) {
    forall i :: 0 <= i < |nodes| ==> RowKnown(nodes, Targets(nodes[i]))
  }

  // Ids that name no track are skipped.
  ghost function Resolve(nodes: seq<TopoNode>, ids: seq<Id>): (r: seq<nat>)
    ensures Below(r, |nodes|)
    ensures (forall id: Id :: id in ids ==> Known(nodes, id)) ==>
              |r| == |ids| && forall k: nat :: 0 <= k < |r| ==> IsIndex(nodes, ids[k], r[k])
  {
    if ids == [] then []
    else if Known(nodes, ids[0]) then [IndexOf(nodes, ids[0])] + Resolve(nodes, ids[1..])
    else Resolve(nodes, ids[1..])
  }

  ghost function Succ(nodes: seq<TopoNode>): (g: Graph)
    ensures IsGraph(g) && |g| == |nodes|
  {
    seq(|nodes|, i requires 0 <= i < |nodes| => Resolve(nodes, Targets(nodes[i])))
  }

  lemma {:induction false} ResolveMember(nodes: seq<TopoNode>, ids: seq<Id>, i: nat)
    requires UniqueIds(nodes) && i < |nodes|
    ensures i in Resolve(nodes, ids) <==> nodes[i].trackId in ids
  {
    if ids != [] {
      ResolveMember(nodes, ids[1..], i);
      if ids[0] == nodes[i].trackId {
        assert IsIndex(nodes, ids[0], i);
      }
    }
  }

  // An edge of the index graph is a dest or a sidechain edge between the tracks.
  lemma SuccEdge(nodes: seq<TopoNode>, u: nat, v: nat)
    requires UniqueIds(nodes) && u < |nodes| && v < |nodes|
    ensures Edge(Succ(nodes), u, v) <==>
            nodes[v].trackId in nodes[u].dests || nodes[v].trackId in nodes[u].sidechainDests
  {
    ResolveMember(nodes, Targets(nodes[u]), v);
  }

  lemma {:induction false} CountIsMultiplicity(s: seq<nat>, v: nat)
    ensures Count(s, v) == multiset(s)[v]
  {
    if s != [] {
      assert s == [s[0]] + s[1..];
      CountIsMultiplicity(s[1..], v);
    }
  }

  lemma {:induction false} ResolveMultiplicity(nodes: seq<TopoNode>, ids: seq<Id>, i: nat)
    requires UniqueIds(nodes) && i < |nodes|
    ensures multiset(Resolve(nodes, ids))[i] == multiset(ids)[nodes[i].trackId]
  {
    if ids != [] {
      assert ids == [ids[0]] + ids[1..];
      ResolveMultiplicity(nodes, ids[1..], i);
      if ids[0] == nodes[i].trackId {
        assert IsIndex(nodes, ids[0], i);
      }
      assert Known(nodes, ids[0]) ==>
        multiset([IndexOf(nodes, ids[0])] + Resolve(nodes, ids[1..])) ==
        multiset{IndexOf(nodes, ids[0])} + multiset(Resolve(nodes, ids[1..]));
    }
  }

  lemma {:induction false} RepeatCount(x: nat, n: nat, u: nat)
    ensures multiset(Repeat(x, n))[u] == if u == x then n else 0
  {
    if n == 0 {
      assert Repeat(x, 0) == [];
    } else {
      RepeatCount(x, n - 1, u);
      assert Repeat(x, n) == Repeat(x, n - 1) + [x];
    }
  }

  lemma {:induction false} IncomingMultiplicity(g: Graph, v: nat, k: nat, u: nat)
    requires k <= |g|
    ensures multiset(Incoming(g, v, k))[u] == if u < k then Count(g[u], v) else 0
  {
    if k > 0 {
      var before, last := Incoming(g, v, k - 1), Repeat(k - 1, Count(g[k - 1], v));
      IncomingMultiplicity(g, v, k - 1, u);
      RepeatCount(k - 1, Count(g[k - 1], v), u);
      assert multiset(before + last) == multiset(before) + multiset(last);
    }
  }

  // A source stands in an incoming list as often as the track is listed among its dests and sidechain
  // dests together.
  lemma IncomingPerListing(nodes: seq<TopoNode>, u: nat, v: nat)
    requires UniqueIds(nodes) && u < |nodes| && v < |nodes|
    ensures multiset(Incoming(Succ(nodes), v, |nodes|))[u] ==
      multiset(nodes[u].dests)[nodes[v].trackId] + multiset(nodes[u].sidechainDests)[nodes[v].trackId]
  {
    IncomingMultiplicity(Succ(nodes), v, |nodes|, u);
    CountIsMultiplicity(Succ(nodes)[u], v);
    ResolveMultiplicity(nodes, Targets(nodes[u]), v);
  }

  // ---------- the algorithms ----------

  lemma {:induction false} ResolveAppend(nodes: seq<TopoNode>, ids: seq<Id>, id: Id)
    ensures Resolve(nodes, ids + [id]) ==
            Resolve(nodes, ids) + if Known(nodes, id) then [IndexOf(nodes, id)] else []
  {
    if ids == [] {
      assert ids + [id] == [id];
      assert [id][1..] == [];
    } else {
      assert (ids + [id])[1..] == ids[1..] + [id];
      ResolveAppend(nodes, ids[1..], id);
    }
  }

  lemma ResolveNext(nodes: seq<TopoNode>, ids: seq<Id>, j: nat)
    requires j < |ids|
    ensures var before, after := Resolve(nodes, ids[..j]), Resolve(nodes, ids[..j + 1]);
      after == if Known(nodes, ids[j]) then before + [IndexOf(nodes, ids[j])] else before
  {
    assert ids[..j + 1] == ids[..j] + [ids[j]];
    ResolveAppend(nodes, ids[..j], ids[j]);
  }

  // One more id of a row, counted if it is known.
  lemma DegreesNext(nodes: seq<TopoNode>, g: Graph, indegree: seq<int>, u: nat, ids: seq<Id>, j: nat)
    requires j < |ids| && |g| == |nodes| && Degrees(g, indegree, u, Resolve(nodes, ids[..j]))
    ensures Known(nodes, ids[j]) ==> IndexOf(nodes, ids[j]) < |g| && var t := IndexOf(nodes, ids[j]);
      Degrees(g, indegree[t := indegree[t] + 1], u, Resolve(nodes, ids[..j + 1]))
    ensures !Known(nodes, ids[j]) ==> Degrees(g, indegree, u, Resolve(nodes, ids[..j + 1]))
  {
    ResolveNext(nodes, ids, j);
    if Known(nodes, ids[j]) {
      DegreesMore(g, indegree, u, Resolve(nodes, ids[..j]), IndexOf(nodes, ids[j]));
    }
  }

  lemma ListingNext(nodes: seq<TopoNode>, g: Graph, incoming: seq<seq<nat>>, u: nat, ids: seq<Id>, j: nat)
    requires j < |ids| && |g| == |nodes| && Listing(g, incoming, u, Resolve(nodes, ids[..j])) && Known(nodes, ids[j])
    ensures IndexOf(nodes, ids[j]) < |g|
    ensures var t := IndexOf(nodes, ids[j]);
      Listing(g, incoming[t := incoming[t] + [u]], u, Resolve(nodes, ids[..j + 1]))
  {
    ResolveNext(nodes, ids, j);
    ListingMore(g, incoming, u, Resolve(nodes, ids[..j]), IndexOf(nodes, ids[j]));
  }

  // `index` sends the id of every track to its position.
  ghost predicate IsIndexMap(nodes: seq<TopoNode>, index: map<Id, nat>) {
    && UniqueIds(nodes)
    && (forall id: Id :: id in index ==> IsIndex(nodes, id, index[id]))
    && forall i: nat :: 0 <= i < |nodes| ==> nodes[i].trackId in index
  }

  // The indegrees after all edges of the nodes below u and the edges u -> row.
  ghost predicate Degrees(g: Graph, indegree: seq<int>, u: nat, row: seq<nat>) {
    && |indegree| == |g| && u <= |g|
    && forall v: nat :: 0 <= v < |g| ==> indegree[v] == Pending(g, {}, v, u) + Count(row, v)
  }

  // The same for the incoming lists.
  ghost predicate Listing(g: Graph, incoming: seq<seq<nat>>, u: nat, row: seq<nat>) {
    && |incoming| == |g| && u <= |g|
    && forall v: nat :: 0 <= v < |g| ==> incoming[v] == Incoming(g, v, u) + Repeat(u, Count(row, v))
  }

  lemma DegreesMore(g: Graph, indegree: seq<int>, u: nat, row: seq<nat>, t: nat)
    requires Degrees(g, indegree, u, row) && t < |g|
    ensures Degrees(g, indegree[t := indegree[t] + 1], u, row + [t])
  {
    forall v: nat ensures Count(row + [t], v) == Count(row, v) + if t == v then 1 else 0 {
      CountAppend(row, t, v);
    }
  }

  lemma ListingMore(g: Graph, incoming: seq<seq<nat>>, u: nat, row: seq<nat>, t: nat)
    requires Listing(g, incoming, u, row) && t < |g|
    ensures Listing(g, incoming[t := incoming[t] + [u]], u, row + [t])
  {
    forall v: nat ensures Repeat(u, Count(row + [t], v)) == Repeat(u, Count(row, v)) + if t == v then [u] else [] {
      CountAppend(row, t, v);
    }
  }

  method BuildTopo(nodes: seq<TopoNode>) returns (build: Result<Topo, TopoError>)
    ensures build == Failure(DuplicateId) <==> !UniqueIds(nodes)
    ensures build == Failure(UnknownDest) <==> UniqueIds(nodes) && !KnownTargets(nodes)
    ensures build.Success? <==> UniqueIds(nodes) && KnownTargets(nodes)
    ensures build.Success? ==> IsTopo(nodes, build.value)
  {
    var unique, index := IndexTracks(nodes);
    if !unique {
      return Failure(DuplicateId);
    }
    var known, incoming, indegree := CollectEdges(nodes, index);
    if !known {
      return Failure(UnknownDest);
    }
    var order := KahnWalk(nodes, index, indegree);
    build := Success(Topo(index, incoming, order));
  }

  method IndexTracks(nodes: seq<TopoNode>) returns (unique: bool, index: map<Id, nat>)
    ensures unique == UniqueIds(nodes)
    ensures unique ==> IsIndexMap(nodes, index)
  {
    index := map[];
    for i := 0 to |nodes|
      invariant forall id: Id :: id in index ==> index[id] < i && IsIndex(nodes, id, index[id])
      invariant forall k :: 0 <= k < i ==> nodes[k].trackId in index && index[nodes[k].trackId] == k
    {
      if nodes[i].trackId in index {
        return false, index;
      }
      index := index[nodes[i].trackId := i];
    }
    unique := true;
  }

  ghost predicate RowKnown(nodes: seq<TopoNode>, ids: seq<Id>) {
    forall k :: 0 <= k < |ids| ==> Known(nodes, ids[k])
  }

  lemma RowKnownNext(nodes: seq<TopoNode>, ids: seq<Id>, j: nat)
    requires j < |ids| && RowKnown(nodes, ids[..j])
    ensures RowKnown(nodes, ids[..j + 1]) <==> Known(nodes, ids[j])
    ensures !Known(nodes, ids[j]) ==> !RowKnown(nodes, ids)
  {
    assert ids[..j + 1] == ids[..j] + [ids[j]];
  }

  // All targets of the first n nodes are known.
  ghost predicate RowsKnown(nodes: seq<TopoNode>, n: nat)
    requires n <= |nodes|
  {
    n == 0 || (RowsKnown(nodes, n - 1) && RowKnown(nodes, Targets(nodes[n - 1])))
  }

  lemma {:induction false} RowsAreTargets(nodes: seq<TopoNode>, n: nat)
    requires n <= |nodes|
    ensures RowsKnown(nodes, n) <==> forall i :: 0 <= i < n ==> RowKnown(nodes, Targets(nodes[i]))
  {
    if n > 0 {
      RowsAreTargets(nodes, n - 1);
    }
  }

  lemma UnknownRow(nodes: seq<TopoNode>, from: nat)
    requires from < |nodes| && !RowKnown(nodes, Targets(nodes[from]))
    ensures !RowsKnown(nodes, |nodes|)
  {
    RowsAreTargets(nodes, |nodes|);
  }

  method CollectEdges(nodes: seq<TopoNode>, index: map<Id, nat>)
    returns (known: bool, incoming: seq<seq<nat>>, indegree: seq<int>)
    requires IsIndexMap(nodes, index)
    ensures known == KnownTargets(nodes)
    ensures known ==> Listing(Succ(nodes), incoming, |nodes|, []) && indegree == Indegrees(Succ(nodes))
  {
    known, incoming, indegree := CollectRows(nodes, index, Succ(nodes));
    RowsAreTargets(nodes, |nodes|);
    if known {
      DegreesFinal(Succ(nodes), indegree);
    }
  }

  method CollectRows(nodes: seq<TopoNode>, index: map<Id, nat>, ghost g: Graph)
    returns (known: bool, incoming: seq<seq<nat>>, indegree: seq<int>)
    requires IsIndexMap(nodes, index) && g == Succ(nodes)
    ensures known == RowsKnown(nodes, |nodes|)
    ensures known ==> Listing(g, incoming, |nodes|, []) && Degrees(g, indegree, |nodes|, [])
  {
    incoming := seq(|nodes|, _ => []);
    indegree := seq(|nodes|, _ => 0);
    known := true;
    EdgesStart(g, incoming, indegree);
    for from := 0 to |nodes|
      invariant Degrees(g, indegree, from, []) && Listing(g, incoming, from, [])
      invariant known && RowsKnown(nodes, from)
    {
      known, incoming, indegree := CollectTargets(nodes, index, g, from, incoming, indegree);
      if !known {
        UnknownRow(nodes, from);
        return;
      }
    }
  }

  // The edges from the tracks below `from` and those to the ids listed have been collected.
  ghost predicate Collected(nodes: seq<TopoNode>, g: Graph, incoming: seq<seq<nat>>, indegree: seq<int>, from: nat,
                            ids: seq<Id>)
  {
    Degrees(g, indegree, from, Resolve(nodes, ids)) && Listing(g, incoming, from, Resolve(nodes, ids))
  }

  lemma CollectedNext(nodes: seq<TopoNode>, index: map<Id, nat>, g: Graph, incoming: seq<seq<nat>>, indegree: seq<int>,
                      from: nat, ids: seq<Id>, j: nat)
    requires IsIndexMap(nodes, index) && |g| == |nodes| && j < |ids| && ids[j] in index
    requires Collected(nodes, g, incoming, indegree, from, ids[..j])
    ensures index[ids[j]] < |g|
    ensures var t := index[ids[j]];
      Collected(nodes, g, incoming[t := incoming[t] + [from]], indegree[t := indegree[t] + 1], from, ids[..j + 1])
  {
    assert IsIndex(nodes, ids[j], index[ids[j]]);
    assert IndexOf(nodes, ids[j]) == index[ids[j]];
    DegreesNext(nodes, g, indegree, from, ids, j);
    ListingNext(nodes, g, incoming, from, ids, j);
  }

  lemma CollectedDone(nodes: seq<TopoNode>, g: Graph, incoming: seq<seq<nat>>, indegree: seq<int>, from: nat)
    requires from < |nodes| == |g| && g[from] == Resolve(nodes, Targets(nodes[from]))
    requires Collected(nodes, g, incoming, indegree, from, Targets(nodes[from]))
    ensures Degrees(g, indegree, from + 1, []) && Listing(g, incoming, from + 1, [])
  {
    DegreesDone(g, indegree, from);
    ListingDone(g, incoming, from);
  }

  method CollectTargets(nodes: seq<TopoNode>, index: map<Id, nat>, ghost g: Graph, from: nat,
                        incoming0: seq<seq<nat>>, indegree0: seq<int>)
    returns (known: bool, incoming: seq<seq<nat>>, indegree: seq<int>)
    requires IsIndexMap(nodes, index) && from < |nodes| == |g|
    requires g[from] == Resolve(nodes, Targets(nodes[from]))
    requires Degrees(g, indegree0, from, []) && Listing(g, incoming0, from, [])
    ensures known == RowKnown(nodes, Targets(nodes[from]))
    ensures known ==> Degrees(g, indegree, from + 1, []) && Listing(g, incoming, from + 1, [])
  {
    known, incoming, indegree := true, incoming0, indegree0;
    var targets := nodes[from].dests + nodes[from].sidechainDests;
    for j := 0 to |targets|
      invariant RowKnown(nodes, targets[..j])
      invariant Collected(nodes, g, incoming, indegree, from, targets[..j])
    {
      var found := Lookup(nodes, index, targets[j]);
      RowKnownNext(nodes, targets, j);
      if !found {
        known := false;
        return;
      }
      var t := index[targets[j]];
      CollectedNext(nodes, index, g, incoming, indegree, from, targets, j);
      incoming := incoming[t := incoming[t] + [from]];
      indegree := indegree[t := indegree[t] + 1];
    }
    assert targets[..|targets|] == Targets(nodes[from]);
    CollectedDone(nodes, g, incoming, indegree, from);
  }

  lemma EdgesStart(g: Graph, incoming: seq<seq<nat>>, indegree: seq<int>)
    requires incoming == seq(|g|, _ => []) && indegree == seq(|g|, _ => 0)
    ensures Degrees(g, indegree, 0, []) && Listing(g, incoming, 0, [])
  {
  }

  lemma DegreesFinal(g: Graph, indegree: seq<int>)
    requires Degrees(g, indegree, |g|, [])
    ensures indegree == Indegrees(g)
  {
  }

  lemma DegreesDone(g: Graph, indegree: seq<int>, u: nat)
    requires u < |g| && Degrees(g, indegree, u, g[u])
    ensures Degrees(g, indegree, u + 1, [])
  {
  }

  lemma ListingDone(g: Graph, incoming: seq<seq<nat>>, u: nat)
    requires u < |g| && Listing(g, incoming, u, g[u])
    ensures Listing(g, incoming, u + 1, [])
  {
  }

  // The index lookup, tied to the tracks it stands for.
  method Lookup(nodes: seq<TopoNode>, index: map<Id, nat>, id: Id) returns (known: bool)
    requires IsIndexMap(nodes, index)
    ensures known == (id in index) == Known(nodes, id)
    ensures known ==> index[id] == IndexOf(nodes, id)
  {
    known := id in index;
    if !known {
      forall i: nat | i < |nodes| ensures !IsIndex(nodes, id, i) {
        assert nodes[i].trackId in index;
      }
    } else {
      assert IsIndex(nodes, id, index[id]);
    }
  }

  method CollectRoots(indegree: seq<int>) returns (order: seq<nat>)
    ensures order == Roots(indegree, |indegree|)
  {
    order := [];
    for i := 0 to |indegree|
      invariant order == Roots(indegree, i)
    {
      if indegree[i] == 0 {
        order := order + [i];
      }
    }
  }

  method KahnWalk(nodes: seq<TopoNode>, index: map<Id, nat>, indegrees: seq<int>) returns (order: seq<nat>)
    requires IsIndexMap(nodes, index)
    requires indegrees == Indegrees(Succ(nodes))
    ensures order == KahnOrder(Succ(nodes))
  {
    ghost var g := Succ(nodes);
    var indegree := indegrees;
    order := CollectRoots(indegree);
    assert Kahn(indegree, order) == KahnStart(g);
    var cursor := 0;
    while cursor < |order|
      invariant KahnInv(g, Kahn(indegree, order), cursor)
      invariant KahnRun(g, Kahn(indegree, order), cursor).order == KahnOrder(g)
      decreases |nodes| - cursor
    {
      KahnStep(g, Kahn(indegree, order), cursor);
      var from := order[cursor];
      assert g[from] == Resolve(nodes, Targets(nodes[from]));
      indegree, order := RelaxTargets(nodes, index, nodes[from].dests + nodes[from].sidechainDests, indegree, order);
      cursor := cursor + 1;
    }
  }

  // Relax straight from ids: ids that name no track are passed over.
  ghost function RelaxIds(nodes: seq<TopoNode>, k: Kahn, ids: seq<Id>): Kahn
    requires |k.indegree| == |nodes|
    decreases |ids|
  {
    if ids == [] then k
    else RelaxIds(nodes, if Known(nodes, ids[0]) then Hit(k, IndexOf(nodes, ids[0])) else k, ids[1..])
  }

  lemma {:induction false} RelaxIdsResolved(nodes: seq<TopoNode>, k: Kahn, ids: seq<Id>)
    requires |k.indegree| == |nodes|
    ensures RelaxIds(nodes, k, ids) == Relax(k, Resolve(nodes, ids))
    decreases |ids|
  {
    if ids != [] {
      if Known(nodes, ids[0]) {
        assert Resolve(nodes, ids)[1..] == Resolve(nodes, ids[1..]);
        RelaxIdsResolved(nodes, Hit(k, IndexOf(nodes, ids[0])), ids[1..]);
      } else {
        RelaxIdsResolved(nodes, k, ids[1..]);
      }
    }
  }

  method RelaxTargets(nodes: seq<TopoNode>, index: map<Id, nat>, targets: seq<Id>, indegree0: seq<int>,
                      order0: seq<nat>)
    returns (indegree: seq<int>, order: seq<nat>)
    requires IsIndexMap(nodes, index) && |indegree0| == |nodes|
    ensures Kahn(indegree, order) == Relax(Kahn(indegree0, order0), Resolve(nodes, targets))
  {
    indegree, order := indegree0, order0;
    ghost var goal := RelaxIds(nodes, Kahn(indegree0, order0), targets);
    RelaxIdsResolved(nodes, Kahn(indegree0, order0), targets);
    assert targets[0..] == targets;
    for j := 0 to |targets|
      invariant |indegree| == |nodes|
      invariant RelaxIds(nodes, Kahn(indegree, order), targets[j..]) == goal
    {
      var known := Lookup(nodes, index, targets[j]);
      assert targets[j..][1..] == targets[j + 1..];
      if known {
        var t := index[targets[j]];
        indegree := indegree[t := indegree[t] - 1];
        if indegree[t] == 0 {
          order := order + [t];
        }
      }
    }
    assert targets[|targets|..] == [];
  }

  ghost predicate IsTopo(nodes: seq<TopoNode>, t: Topo) {
    && IsIndexMap(nodes, t.index)
    && |t.incoming| == |nodes|
    && (forall v: nat :: 0 <= v < |nodes| ==> t.incoming[v] == Incoming(Succ(nodes), v, |nodes|))
    && t.order == KahnOrder(Succ(nodes))
  }

  /** graph_topo_order: the same order, or nothing when the graph has a cycle; unknown ids are skipped. */
  method GraphTopoOrder(nodes: seq<TopoNode>) returns (order: seq<nat>)
    requires UniqueIds(nodes)
    ensures order == if HasCycle(Succ(nodes)) then [] else KahnOrder(Succ(nodes))
    ensures nodes != [] ==> (order == [] <==> HasCycle(Succ(nodes)))
  {
    var _, index := IndexTracks(nodes);
    var indegree := CountIndegrees(nodes, index);
    order := KahnWalk(nodes, index, indegree);
    KahnComplete(Succ(nodes));
    if |order| != |nodes| {
      order := [];
    }
  }

  method CountIndegrees(nodes: seq<TopoNode>, index: map<Id, nat>) returns (indegree: seq<int>)
    requires IsIndexMap(nodes, index)
    ensures indegree == Indegrees(Succ(nodes))
  {
    ghost var g := Succ(nodes);
    indegree := seq(|nodes|, _ => 0);
    for from := 0 to |nodes|
      invariant Degrees(g, indegree, from, [])
    {
      indegree := CountTargets(nodes, index, g, from, indegree);
      DegreesDone(g, indegree, from);
    }
    DegreesFinal(g, indegree);
  }

  method CountTargets(nodes: seq<TopoNode>, index: map<Id, nat>, ghost g: Graph, from: nat, indegree0: seq<int>)
    returns (indegree: seq<int>)
    requires IsIndexMap(nodes, index) && from < |nodes| == |g|
    requires Degrees(g, indegree0, from, [])
    ensures Degrees(g, indegree, from, Resolve(nodes, Targets(nodes[from])))
  {
    indegree := indegree0;
    var targets := nodes[from].dests + nodes[from].sidechainDests;
    for j := 0 to |targets|
      invariant Degrees(g, indegree, from, Resolve(nodes, targets[..j]))
    {
      var known := Lookup(nodes, index, targets[j]);
      DegreesNext(nodes, g, indegree, from, targets, j);
      if known {
        var t := index[targets[j]];
        indegree := indegree[t := indegree[t] + 1];
      }
    }
    assert targets[..|targets|] == Targets(nodes[from]);
  }

  method GraphHasCycle(nodes: seq<TopoNode>) returns (cyclic: bool)
    requires UniqueIds(nodes)
    ensures cyclic == HasCycle(Succ(nodes))
  {
    if nodes == [] {
      cyclic := false;
    } else {
      var order := GraphTopoOrder(nodes);
      cyclic := order == [];
    }
  }

  // ---------- reverse reachability ----------

  // A backward-closed set that holds a path's end holds its start.
  lemma {:induction false} ClosedPath(g: Graph, closed: set<nat>, p: seq<nat>)
    requires IsPath(g, p) && p[|p| - 1] in closed
    requires forall u: nat, v: nat :: v in closed && Edge(g, u, v) ==> u in closed
    ensures p[0] in closed
  {
    if |p| > 1 {
      assert Edge(g, p[|p| - 2], p[|p| - 1]);
      ClosedPath(g, closed, p[..|p| - 1]);
    }
  }

  lemma ReachesStep(g: Graph, u: nat, v: nat, targets: set<nat>)
    requires Edge(g, u, v) && Reaches(g, v, targets)
    ensures Reaches(g, u, targets)
  {
    var p :| IsPath(g, p) && p[0] == v && p[|p| - 1] in targets;
    var q := [u] + p;
    assert IsPath(g, q) && q[0] == u && q[|q| - 1] in targets;
  }

  lemma ReachesSelf(g: Graph, u: nat, targets: set<nat>)
    requires u < |g| && u in targets
    ensures Reaches(g, u, targets)
  {
    assert IsPath(g, [u]);
  }

  ghost predicate Work(g: Graph, goal: set<nat>, reach: seq<bool>, work: seq<nat>) {
    && |reach| == |g| && Below(work, |g|)
    && (forall k :: 0 <= k < |work| ==> reach[work[k]] && Reaches(g, work[k], goal))
    && (forall u: nat :: u < |g| && reach[u] ==> u in work)
  }

  ghost predicate Visited(g: Graph, reach: seq<bool>, work: seq<nat>, cursor: nat)
    requires |reach| == |g| && cursor <= |work|
  {
    forall c, u: nat :: 0 <= c < cursor && Edge(g, u, work[c]) ==> reach[u]
  }

  ghost function Unreached(reach: seq<bool>): set<nat> {
    set u: nat | u < |reach| && !reach[u]
  }

  /** Exactly the nodes with a path to a seed. */
  method ReverseReach(nodes: seq<TopoNode>, t: Topo, seeds: seq<nat>) returns (reach: seq<bool>)
    requires IsTopo(nodes, t)
    requires Below(seeds, |nodes|)
    ensures |reach| == |nodes|
    ensures forall u: nat :: u < |nodes| ==> (reach[u] <==> Reaches(Succ(nodes), u, Elems(seeds)))
  {
    ghost var g := Succ(nodes);
    ghost var goal := Elems(seeds);
    reach := MarkSeeds(g, |nodes|, seeds);
    var work := seeds;
    var cursor := 0;
    while cursor < |work|
      invariant cursor <= |work| && seeds <= work
      invariant Work(g, goal, reach, work) && Visited(g, reach, work, cursor)
      decreases Unreached(reach), |work| - cursor
    {
      reach, work := PushSources(g, goal, t.incoming[work[cursor]], reach, work, cursor);
      cursor := cursor + 1;
    }
    ReachExact(g, goal, reach, work);
  }

  method MarkSeeds(ghost g: Graph, n: nat, seeds: seq<nat>) returns (reach: seq<bool>)
    requires n == |g| && Below(seeds, n)
    ensures Work(g, Elems(seeds), reach, seeds)
  {
    reach := seq(n, _ => false);
    for i := 0 to |seeds|
      invariant |reach| == |g|
      invariant forall u: nat :: u < |g| ==> (reach[u] <==> u in seeds[..i])
    {
      reach := reach[seeds[i] := true];
    }
    forall k | 0 <= k < |seeds| ensures Reaches(g, seeds[k], Elems(seeds)) {
      ReachesSelf(g, seeds[k], Elems(seeds));
    }
  }

  lemma ReachExact(g: Graph, goal: set<nat>, reach: seq<bool>, work: seq<nat>)
    requires Work(g, goal, reach, work) && Visited(g, reach, work, |work|) && goal <= Elems(work)
    ensures forall u: nat :: u < |g| ==> (reach[u] <==> Reaches(g, u, goal))
  {
    forall u: nat | u < |g| && Reaches(g, u, goal) ensures reach[u] {
      var p: seq<nat> :| IsPath(g, p) && p[0] == u && p[|p| - 1] in goal;
      ClosedPath(g, Elems(work), p);
    }
  }

  // One turn of the worklist: the unreached sources of work[cursor] join it.
  method PushSources(ghost g: Graph, ghost goal: set<nat>, froms: seq<nat>, reach0: seq<bool>, work0: seq<nat>,
                     ghost cursor: nat)
    returns (reach: seq<bool>, work: seq<nat>)
    requires Work(g, goal, reach0, work0)
    requires cursor < |work0| && Visited(g, reach0, work0, cursor)
    requires froms == Incoming(g, work0[cursor], |g|)
    ensures work0 <= work
    ensures Work(g, goal, reach, work) && Visited(g, reach, work, cursor + 1)
    ensures Unreached(reach) < Unreached(reach0) || (reach == reach0 && work == work0)
  {
    reach, work := reach0, work0;
    for j := 0 to |froms|
      invariant work0 <= work && Work(g, goal, reach, work)
      invariant forall u: nat :: u < |g| && reach0[u] ==> reach[u]
      invariant forall k :: 0 <= k < j ==> froms[k] < |g| && reach[froms[k]]
      invariant Unreached(reach) < Unreached(reach0) || (reach == reach0 && work == work0)
    {
      var from := froms[j];
      IncomingMember(g, work0[cursor], |g|, from);
      if !reach[from] {
        WorkMore(g, goal, reach, work, from, work0[cursor]);
        reach := reach[from := true];
        work := work + [from];
      }
    }
    forall u: nat | Edge(g, u, work0[cursor]) ensures reach[u] {
      IncomingMember(g, work0[cursor], |g|, u);
    }
  }

  lemma WorkMore(g: Graph, goal: set<nat>, reach: seq<bool>, work: seq<nat>, from: nat, v: nat)
    requires Work(g, goal, reach, work) && v in work && Edge(g, from, v) && !reach[from]
    ensures Work(g, goal, reach[from := true], work + [from])
    ensures Unreached(reach[from := true]) < Unreached(reach)
  {
    ReachesStep(g, from, v, goal);
    assert from in Unreached(reach);
    assert Unreached(reach[from := true]) == Unreached(reach) - {from};
  }
}
