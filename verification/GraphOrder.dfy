/** The order in which Kahn's algorithm lists nodes. */
module GraphOrder {
  import opened GraphTopo

  // Soundness and completeness leave open which of several orders is taken. The worklist is first in,
  // first out: nodes without sources come first and ascending; the others in the order of their last
  // sources, and behind one source in the order of their last listing there.

  // ---------- one source ----------

  // Every listing of a has a listing of b behind it.
  ghost predicate ListedLater(targets: seq<nat>, a: nat, b: nat) {
    forall x: nat :: x < |targets| && targets[x] == a ==> exists y: nat :: x < y < |targets| && targets[y] == b
  }

  // The nodes listed from position n on are in the order of their last listings in targets.
  ghost predicate LaterInRow(order: seq<nat>, n: nat, targets: seq<nat>) {
    && (forall j: nat :: n <= j < |order| ==> order[j] in targets)
    && forall j1: nat, j2: nat :: n <= j1 < j2 < |order| ==> ListedLater(targets, order[j1], order[j2])
  }

  lemma LaterBehind(t: nat, rest: seq<nat>, a: nat, b: nat)
    requires ListedLater(rest, a, b) && b in rest
    ensures ListedLater([t] + rest, a, b)
  {
    var all := [t] + rest;
    forall x: nat | x < |all| && all[x] == a ensures exists y: nat :: x < y < |all| && all[y] == b {
      if x == 0 {
        var y: nat :| y < |rest| && rest[y] == b;
        assert all[y + 1] == b;
      } else {
        assert rest[x - 1] == a;
        var y: nat :| x - 1 < y < |rest| && rest[y] == b;
        assert all[y + 1] == b;
      }
    }
  }

  // One more target in front, which joined the order at m if it does not come again.
  lemma RowNext(t: nat, rest: seq<nat>, order: seq<nat>, m: nat, n: nat)
    requires LaterInRow(order, n, rest) && m <= n <= |order|
    requires n == m || (n == m + 1 && order[m] == t && t !in rest)
    ensures LaterInRow(order, m, [t] + rest)
  {
    forall j1: nat, j2: nat | m <= j1 < j2 < |order| ensures ListedLater([t] + rest, order[j1], order[j2]) {
      assert order[j2] in rest;
      LaterBehind(t, rest, order[j1], order[j2]);
    }
  }

  lemma {:induction false} RelaxedInRow(k: Kahn, targets: seq<nat>)
    requires Listed(k) && Below(targets, |k.indegree|)
    requires forall v: nat :: v < |k.indegree| ==> k.indegree[v] >= Count(targets, v)
    ensures k.order <= Relax(k, targets).order
    ensures LaterInRow(Relax(k, targets).order, |k.order|, targets)
    decreases |targets|
  {
    RelaxLists(k, targets);
    if targets != [] {
      var t, rest := targets[0], targets[1..];
      assert targets == [t] + rest;
      CountMember(targets, t);
      CountMember(rest, t);
      assert t !in k.order;
      RelaxedInRow(Hit(k, t), rest);
      RowNext(t, rest, Relax(k, targets).order, |k.order|, |Hit(k, t).order|);
    }
  }

  // ---------- the whole order ----------

  // Every source of the j1-th node has a source of the j2-th node at or behind it.
  ghost predicate SourcesLater(g: Graph, order: seq<nat>, cursor: nat, j1: nat, j2: nat)
    requires cursor <= |order| && j1 < |order| && j2 < |order|
  {
    forall i: nat :: i < cursor && Edge(g, order[i], order[j1]) ==>
      exists i2: nat :: i <= i2 < cursor && Edge(g, order[i2], order[j2])
  }

  ghost predicate FirstInFirstOut(g: Graph, order: seq<nat>, cursor: nat)
    requires cursor <= |order|
  {
    forall j1: nat, j2: nat :: j1 < j2 < |order| ==> SourcesLater(g, order, cursor, j1, j2)
  }

  // A node that joins the order at the cursor has an edge from there; one that was in it before has not.
  lemma JoinedHere(g: Graph, k: Kahn, cursor: nat, j: nat)
    requires KahnInv(g, k, cursor) && cursor < |k.order| && k.order[cursor] < |g|
    requires j < |Relax(k, g[k.order[cursor]]).order| && k.order <= Relax(k, g[k.order[cursor]]).order
    ensures var v := Relax(k, g[k.order[cursor]]).order[j];
      Edge(g, k.order[cursor], v) <==> j >= |k.order|
  {
    var w := k.order[cursor];
    var r := Relax(k, g[w]);
    KahnStepCounts(g, k, cursor);
    NextDone(k.order, k.order, cursor);
    PendingRelaxed(g, Elems(k.order[..cursor]), w);
    RelaxLists(k, g[w]);
    assert r.order[j] in r.order;
    CountMember(g[w], r.order[j]);
    if j < |k.order| {
      assert r.order[j] == k.order[j] && k.order[j] in k.order;
    } else {
      forall i: nat | i < |k.order| ensures k.order[i] != r.order[j] {
        assert r.order[i] == k.order[i];
      }
    }
  }

  lemma OldPair(g: Graph, order: seq<nat>, longer: seq<nat>, cursor: nat, j1: nat, j2: nat)
    requires order <= longer && cursor < |order| && j1 < |order| && j2 < |order|
    requires SourcesLater(g, order, cursor, j1, j2) && !Edge(g, order[cursor], order[j1])
    ensures SourcesLater(g, longer, cursor + 1, j1, j2)
  {
    forall i: nat | i < cursor + 1 && Edge(g, longer[i], longer[j1])
      ensures exists i2: nat :: i <= i2 < cursor + 1 && Edge(g, longer[i2], longer[j2])
    {
      assert longer[i] == order[i];
      var i2: nat :| i <= i2 < cursor && Edge(g, order[i2], order[j2]);
      assert Edge(g, longer[i2], longer[j2]);
    }
  }

  lemma NewPair(g: Graph, order: seq<nat>, cursor: nat, j1: nat, j2: nat)
    requires cursor < |order| && j1 < |order| && j2 < |order| && Edge(g, order[cursor], order[j2])
    ensures SourcesLater(g, order, cursor + 1, j1, j2)
  {
  }

  lemma StepPair(g: Graph, k: Kahn, cursor: nat, j1: nat, j2: nat)
    requires KahnInv(g, k, cursor) && cursor < |k.order| && k.order[cursor] < |g|
    requires FirstInFirstOut(g, k.order, cursor)
    requires var r := Relax(k, g[k.order[cursor]]).order; k.order <= r && j1 < j2 < |r|
    ensures SourcesLater(g, Relax(k, g[k.order[cursor]]).order, cursor + 1, j1, j2)
  {
    var r := Relax(k, g[k.order[cursor]]).order;
    JoinedHere(g, k, cursor, j1);
    JoinedHere(g, k, cursor, j2);
    if j2 < |k.order| {
      OldPair(g, k.order, r, cursor, j1, j2);
    } else {
      NewPair(g, r, cursor, j1, j2);
    }
  }

  lemma OrderStep(g: Graph, k: Kahn, cursor: nat)
    requires KahnInv(g, k, cursor) && cursor < |k.order| && FirstInFirstOut(g, k.order, cursor)
    ensures k.order[cursor] < |g|
    ensures var r := Relax(k, g[k.order[cursor]]);
      && k.order <= r.order && FirstInFirstOut(g, r.order, cursor + 1)
  {
    KahnStepCounts(g, k, cursor);
    var r, next := Relax(k, g[k.order[cursor]]).order, cursor + 1;
    forall j1: nat, j2: nat | j1 < j2 < |r| ensures SourcesLater(g, r, next, j1, j2) {
      StepPair(g, k, cursor, j1, j2);
    }
  }

  lemma {:induction false} RunInOrder(g: Graph, k: Kahn, cursor: nat)
    requires KahnInv(g, k, cursor) && FirstInFirstOut(g, k.order, cursor)
    ensures var order := KahnRun(g, k, cursor).order;
      k.order <= order && FirstInFirstOut(g, order, |order|)
    decreases |g| - cursor
  {
    if cursor < |k.order| {
      OrderStep(g, k, cursor);
      KahnStep(g, k, cursor);
      RunInOrder(g, Relax(k, g[k.order[cursor]]), cursor + 1);
    }
  }

  ghost predicate Rising(s: seq<nat>) {
    forall j1: nat, j2: nat :: j1 < j2 < |s| ==> s[j1] < s[j2]
  }

  lemma {:induction false} RootsAscending(indegree: seq<int>, n: nat)
    requires n <= |indegree|
    ensures Rising(Roots(indegree, n))
  {
    if n > 0 {
      RootsAscending(indegree, n - 1);
      var before := Roots(indegree, n - 1);
      forall j: nat | j < |before| ensures before[j] < n - 1 {
        assert before[j] in before;
      }
      if indegree[n - 1] == 0 {
        assert Roots(indegree, n) == before + [n - 1];
      } else {
        assert Roots(indegree, n) == before;
      }
    }
  }

  lemma RootFirst(g: Graph, k: Kahn, order: seq<nat>, j1: nat, j2: nat)
    requires IsGraph(g) && k == KahnStart(g) && k.order <= order && Distinct(order) && Below(order, |g|)
    requires j1 < j2 < |order| && forall u :: !Edge(g, u, order[j2])
    ensures (forall u :: !Edge(g, u, order[j1])) && order[j1] < order[j2]
  {
    NoSourceRoot(g, order[j2]);
    assert order[j2] in k.order;
    var i: nat :| i < |k.order| && k.order[i] == order[j2];
    assert order[i] == k.order[i] && i == j2;
    RootsAscending(Indegrees(g), |g|);
    assert k.order == Roots(Indegrees(g), |g|);
    assert k.order[j1] == order[j1] && k.order[j1] in k.order;
    forall u ensures !Edge(g, u, order[j1]) {
      if Edge(g, u, order[j1]) {
        PendingZero(g, {}, order[j1], |g|, u);
      }
    }
  }

  // Nodes without sources come first, ascending; of the others, one whose sources are all listed earlier
  // comes earlier.
  lemma QueueOrder(g: Graph, j1: nat, j2: nat)
    requires IsGraph(g) && j1 < j2 < |KahnOrder(g)|
    ensures SourcesLater(g, KahnOrder(g), |KahnOrder(g)|, j1, j2)
    ensures (forall u :: !Edge(g, u, KahnOrder(g)[j2])) ==>
      (forall u :: !Edge(g, u, KahnOrder(g)[j1])) && KahnOrder(g)[j1] < KahnOrder(g)[j2]
  {
    var k, order := KahnStart(g), KahnOrder(g);
    KahnSound(g);
    assert FirstInFirstOut(g, k.order, 0);
    RunInOrder(g, k, 0);
    if forall u :: !Edge(g, u, order[j2]) {
      RootFirst(g, k, order, j1, j2);
    }
  }

  lemma NoSourceRoot(g: Graph, v: nat)
    requires IsGraph(g) && v < |g| && forall u :: !Edge(g, u, v)
    ensures Indegrees(g)[v] == 0
  {
    if Pending(g, {}, v, |g|) > 0 {
      var u := PendingSource(g, {}, v, |g|);
    }
  }
}
