/** A 32-bit counter of the threads inside a region. */
module Gate {
  // It is the reader latch of the graph retire queue and the writer gate of the loudness capture, exact
  // as long as there are fewer than 2^32 threads.

  type Thread = nat

  const COUNT_RANGE := 0x1_0000_0000

  function Up(count: nat): nat {
    (count + 1) % COUNT_RANGE
  }

  function Down(count: nat): nat {
    (count + COUNT_RANGE - 1) % COUNT_RANGE
  }

  ghost predicate Counts(count: nat, inside: set<Thread>, threads: set<Thread>) {
    count == |inside| && inside <= threads && |threads| < COUNT_RANGE
  }

  lemma SubsetSize(a: set<Thread>, b: set<Thread>)
    requires a <= b
    ensures |a| <= |b|
  {
    if a != {} {
      var x :| x in a;
      SubsetSize(a - {x}, b - {x});
    }
  }

  lemma EnterCounts(count: nat, inside: set<Thread>, threads: set<Thread>, r: Thread)
    requires Counts(count, inside, threads) && r in threads && r !in inside
    ensures Counts(Up(count), inside + {r}, threads)
  {
    SubsetSize(inside + {r}, threads);
  }

  lemma ExitCounts(count: nat, inside: set<Thread>, threads: set<Thread>, r: Thread)
    requires Counts(count, inside, threads) && r in inside
    ensures Counts(Down(count), inside - {r}, threads)
  {
    SubsetSize(inside, threads);
  }
}
