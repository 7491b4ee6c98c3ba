/** The delay line of one edge (engine/src/pdc_delay_line.cpp). */
module DelayLine {
  import opened Audio
  import opened Modular
  import opened Words
  import opened Wrappers
  import opened PdcPlanner
  import opened PdcTheorems
  import Dataflow

  // A ring buffer stands for the whole input history, and a change of delay glides in between blocks.
  // `Play` is the line over unbounded history; the class is the ring that computes it.

  const DELAY_RANGE := 0x1_0000_0000

  // ---------- the line over its input history ----------

  // A change of delay in progress: `remaining` of `total` samples to go; at rest when it is zero.
  datatype Glide = Glide(current: nat, target: nat, total: nat, remaining: nat) {
    ghost predicate Valid(max: nat) {
      current <= max && target <= max && remaining <= total && (remaining == 0 ==> current == target)
    }
  }

  // The input at position p; everything before the start is silence.
  function Past(x: seq<Frame>, p: int): Frame {
    if 0 <= p < |x| then x[p] else SILENT
  }

  function Alpha(g: Glide): real
    requires 0 < g.remaining <= g.total
  {
    1.0 - g.remaining as real / g.total as real
  }

  // What the line puts out at position n.
  function Heard(g: Glide, x: seq<Frame>, n: nat): Frame {
    if 0 < g.remaining <= g.total
    then Toward(Past(x, n - g.current), Past(x, n - g.target), Alpha(g))
    else Past(x, n - g.current)
  }

  function Tick(g: Glide): Glide {
    if g.remaining == 0 then g
    else if g.remaining == 1 then g.(remaining := 0, current := g.target)
    else g.(remaining := g.remaining - 1)
  }

  function Ticks(g: Glide, n: nat): Glide {
    if n == 0 then g else Tick(Ticks(g, n - 1))
  }

  // The outputs at n samples from `base` on.
  function Outputs(g: Glide, x: seq<Frame>, base: nat, n: nat): seq<Frame> {
    if n == 0 then []
    else Outputs(g, x, base, n - 1) + [Heard(Ticks(g, n - 1), x, base + (n - 1))]
  }

  // A request packs a delay and a transition length into 64 bits.
  function Pack(delay: nat, transition: u32): nat {
    delay * DELAY_RANGE + transition
  }

  function ApplyRequest(g: Glide, requested: nat, applied: nat): Glide {
    var delay, transition := requested / DELAY_RANGE, requested % DELAY_RANGE;
    if requested == applied then g
    else if transition == 0 || delay == g.current then Glide(delay, delay, 0, 0)
    else g.(target := delay, total := transition, remaining := transition)
  }

  // A line: its glide, the latest and the applied request, and everything it was fed.
  datatype Line = Line(glide: Glide, requested: nat, applied: nat, history: seq<Frame>)

  function Play(l: Line, block: seq<Frame>): (Line, seq<Frame>) {
    var g := ApplyRequest(l.glide, l.requested, l.applied);
    var x := l.history + block;
    (Line(Ticks(g, |block|), l.requested, l.requested, x), Outputs(g, x, |l.history|, |block|))
  }

  const FRESH := Line(Glide(0, 0, 0, 0), 0, 0, [])

  // ---------- properties ----------

  // How far the glide has moved from its current to its target delay.
  function Weight(g: Glide): real {
    if 0 < g.remaining <= g.total then Alpha(g) else 0.0
  }

  // Every output is a weighted mean of the input at two delays.
  lemma HeardIsMix(g: Glide, x: seq<Frame>, n: nat, max: nat)
    requires g.Valid(max)
    ensures 0.0 <= Weight(g) < 1.0 && (Weight(g) == 0.0 <==> g.remaining == g.total || g.remaining == 0)
    ensures Heard(g, x, n) == Blend(Past(x, n - g.current), Past(x, n - g.target), Weight(g))
  {
    var from, to := Past(x, n - g.current), Past(x, n - g.target);
    if g.remaining == 0 {
      assert Blend(from, to, 0.0) == from;
    } else {
      Fraction(g.remaining, g.total);
      TowardIsBlend(from, to, Alpha(g));
    }
  }

  lemma Fraction(k: nat, n: nat)
    requires 0 < k <= n
    ensures 0.0 < k as real / n as real <= 1.0 && (k as real / n as real == 1.0 <==> k == n)
  {
    var f, d := k as real / n as real, n as real;
    assert f * d == k as real;
    RealOrder(0.0, f, d);
    if k == n {
      assert f == 1.0;
    } else {
      RealOrder(f, 1.0, d);
    }
  }

  lemma {:induction false} TicksValid(g: Glide, n: nat, max: nat)
    requires g.Valid(max)
    ensures Ticks(g, n).Valid(max) && Ticks(g, n).remaining == (if g.remaining < n then 0 else g.remaining - n)
    ensures g.remaining <= n ==> Ticks(g, n).current == g.target
    ensures n < g.remaining ==> Ticks(g, n).current == g.current
    ensures Ticks(g, n).target == g.target
  {
    if n > 0 {
      TicksValid(g, n - 1, max);
    }
  }

  // Once the transition's samples have passed, outputs are the input at the new delay, exactly.
  lemma SettledOutput(g: Glide, x: seq<Frame>, n: nat, i: nat, max: nat)
    requires g.Valid(max) && g.remaining <= i
    ensures Heard(Ticks(g, i), x, n) == Past(x, n - g.target)
  {
    TicksValid(g, i, max);
  }

  lemma {:induction false} TicksAdd(g: Glide, m: nat, n: nat)
    ensures Ticks(Ticks(g, m), n) == Ticks(g, m + n)
  {
    if n > 0 {
      TicksAdd(g, m, n - 1);
    }
  }

  lemma {:induction false} OutputsAt(g: Glide, x: seq<Frame>, base: nat, n: nat, i: nat)
    requires i < n
    ensures |Outputs(g, x, base, n)| == n && Outputs(g, x, base, n)[i] == Heard(Ticks(g, i), x, base + i)
  {
    if i < n - 1 {
      OutputsAt(g, x, base, n - 1, i);
    } else if n > 1 {
      OutputsAt(g, x, base, n - 1, 0);
    }
  }

  // Outputs look back only, so input that comes later does not matter.
  lemma {:induction false} OutputsCausal(g: Glide, x: seq<Frame>, later: seq<Frame>, base: nat, n: nat)
    requires base + n <= |x|
    ensures Outputs(g, x + later, base, n) == Outputs(g, x, base, n)
  {
    if n > 0 {
      OutputsCausal(g, x, later, base, n - 1);
    }
  }

  lemma {:induction false} OutputsSplit(g: Glide, x: seq<Frame>, base: nat, m: nat, n: nat)
    ensures Outputs(g, x, base, m + n) == Outputs(g, x, base, m) + Outputs(Ticks(g, m), x, base + m, n)
  {
    if n > 0 {
      OutputsSplit(g, x, base, m, n - 1);
      TicksAdd(g, m, n - 1);
    }
  }

  // Cutting a block in two changes neither the outputs nor the line.
  lemma CutsDoNotMatter(l: Line, a: seq<Frame>, b: seq<Frame>)
    ensures var (l1, out1) := Play(l, a); var (l2, out2) := Play(l1, b);
      Play(l, a + b) == (l2, out1 + out2)
  {
    var g := ApplyRequest(l.glide, l.requested, l.applied);
    var x := l.history + a;
    assert l.history + (a + b) == x + b;
    TicksAdd(g, |a|, |b|);
    OutputsSplit(g, x + b, |l.history|, |a|, |b|);
    OutputsCausal(g, x, b, |l.history|, |a|);
  }

  function PlayAll(l: Line, blocks: seq<seq<Frame>>): (Line, seq<Frame>) {
    if blocks == [] then (l, [])
    else
      var (l1, out1) := PlayAll(l, blocks[..|blocks| - 1]);
      var (l2, out2) := Play(l1, blocks[|blocks| - 1]);
      (l2, out1 + out2)
  }

  function Joined(blocks: seq<seq<Frame>>): seq<Frame> {
    if blocks == [] then [] else Joined(blocks[..|blocks| - 1]) + blocks[|blocks| - 1]
  }

  // Between two requests only the samples count, however they are cut into blocks.
  lemma {:induction false} BlocksDoNotMatter(l: Line, blocks: seq<seq<Frame>>)
    requires blocks != []
    ensures PlayAll(l, blocks) == Play(l, Joined(blocks))
  {
    var init, last := blocks[..|blocks| - 1], blocks[|blocks| - 1];
    if init == [] {
      assert Joined(init) == [];
      assert Joined(blocks) == last;
      assert PlayAll(l, init) == (l, []);
      assert [] + Play(l, last).1 == Play(l, last).1;
    } else {
      BlocksDoNotMatter(l, init);
      CutsDoNotMatter(l, Joined(init), last);
    }
  }

  // What every line keeps: its target is the delay of the applied request, and it glides only to
  // another delay, for as long as that request asked.
  ghost predicate LineValid(l: Line, max: nat) {
    && l.glide.Valid(max) && l.requested / DELAY_RANGE <= max
    && l.glide.target == l.applied / DELAY_RANGE
    && (l.glide.remaining > 0 ==> l.glide.current != l.glide.target && l.glide.total == l.applied % DELAY_RANGE)
  }

  datatype Event = Request(delay: nat, transition: u32) | Block(frames: seq<Frame>)

  // A line under requests and blocks; a request out of range is refused.
  function Next(l: Line, e: Event, max: nat): Line {
    match e
    case Request(delay, transition) =>
      if delay <= max && delay < DELAY_RANGE then l.(requested := Pack(delay, transition)) else l
    case Block(frames) => Play(l, frames).0
  }

  function After(events: seq<Event>, max: nat): Line {
    if events == [] then FRESH else Next(After(events[..|events| - 1], max), events[|events| - 1], max)
  }

  lemma Unpack(delay: nat, transition: u32)
    ensures Pack(delay, transition) / DELAY_RANGE == delay && Pack(delay, transition) % DELAY_RANGE == transition
  {
  }

  // Applying the pending request keeps a line valid and aims at the requested delay.
  lemma RequestApplied(l: Line, max: nat)
    requires LineValid(l, max)
    ensures var g := ApplyRequest(l.glide, l.requested, l.applied);
      LineValid(l.(glide := g, applied := l.requested), max)
  {
  }

  lemma TicksKeep(l: Line, n: nat, max: nat)
    requires LineValid(l, max)
    ensures LineValid(l.(glide := Ticks(l.glide, n)), max)
  {
    TicksValid(l.glide, n, max);
    TicksTotal(l.glide, n);
  }

  lemma {:induction false} TicksTotal(g: Glide, n: nat)
    ensures Ticks(g, n).total == g.total
  {
    if n > 0 {
      TicksTotal(g, n - 1);
    }
  }

  lemma {:induction false} AfterValid(events: seq<Event>, max: nat)
    ensures LineValid(After(events, max), max)
  {
    if events != [] {
      var l, e := After(events[..|events| - 1], max), events[|events| - 1];
      AfterValid(events[..|events| - 1], max);
      match e
      case Request(delay, transition) => Unpack(delay, transition);
      case Block(frames) =>
        RequestApplied(l, max);
        TicksKeep(l.(glide := ApplyRequest(l.glide, l.requested, l.applied), applied := l.requested), |frames|, max);
    }
  }

  // The glide in force at the i-th output of the line's next block.
  function GlideAt(l: Line, i: nat): Glide {
    Ticks(ApplyRequest(l.glide, l.requested, l.applied), i)
  }

  // After any requests and blocks, every output of the next block is the input at the line's current
  // delay blended into the input at the delay requested last, both within the maximum.
  lemma OutputsAreMixes(events: seq<Event>, max: nat, block: seq<Frame>, i: nat)
    requires i < |block|
    ensures var l := After(events, max); var g := GlideAt(l, i);
      var x, n := l.history + block, |l.history| + i;
      && g.current <= max && g.target == l.requested / DELAY_RANGE <= max && 0.0 <= Weight(g) < 1.0
      && |Play(l, block).1| == |block|
      && Play(l, block).1[i] == Blend(Past(x, n - g.current), Past(x, n - g.target), Weight(g))
  {
    AfterValid(events, max);
    OutputIsMix(After(events, max), max, block, i);
  }

  lemma OutputIsMix(l: Line, max: nat, block: seq<Frame>, i: nat)
    requires LineValid(l, max) && i < |block|
    ensures var g := GlideAt(l, i);
      var x, n := l.history + block, |l.history| + i;
      && g.current <= max && g.target == l.requested / DELAY_RANGE <= max && 0.0 <= Weight(g) < 1.0
      && |Play(l, block).1| == |block|
      && Play(l, block).1[i] == Blend(Past(x, n - g.current), Past(x, n - g.target), Weight(g))
  {
    RequestApplied(l, max);
    var g := ApplyRequest(l.glide, l.requested, l.applied);
    TicksValid(g, i, max);
    OutputsAt(g, l.history + block, |l.history|, |block|, i);
    HeardIsMix(Ticks(g, i), l.history + block, |l.history| + i, max);
  }

  // A request takes effect: once its transition's samples have passed, every output is the input at
  // exactly the requested delay, whatever the line was doing before.
  lemma RequestTakesEffect(events: seq<Event>, max: nat, delay: nat, transition: u32, block: seq<Frame>, i: nat)
    requires delay <= max && delay < DELAY_RANGE && transition <= i < |block|
    ensures var l := After(events + [Request(delay, transition)], max);
      && |Play(l, block).1| == |block|
      && Play(l, block).1[i] == Past(l.history + block, |l.history| + i - delay)
  {
    var all := events + [Request(delay, transition)];
    assert all[..|events|] == events;
    var l := After(all, max);
    AfterValid(all, max);
    Unpack(delay, transition);
    RequestApplied(l, max);
    var g := ApplyRequest(l.glide, l.requested, l.applied);
    OutputsAt(g, l.history + block, |l.history|, |block|, i);
    SettledOutput(g, l.history + block, |l.history| + i, i, max);
  }

  lemma RestingOutput(g: Glide, x: seq<Frame>, i: nat)
    requires i < |x| && g.remaining == 0 && g.current == g.target
    ensures |Outputs(g, x, 0, |x|)| == |x| == |Dataflow.Delay(g.target, x)|
    ensures Outputs(g, x, 0, |x|)[i] == Dataflow.Delay(g.target, x)[i]
  {
    OutputsAt(g, x, 0, |x|, i);
    SettledOutput(g, x, i, i, g.target);
  }

  lemma SameFrames(a: seq<Frame>, b: seq<Frame>)
    requires |a| == |b| && forall i :: 0 <= i < |a| ==> a[i] == b[i]
    ensures a == b
  {
  }

  lemma RestingDelays(g: Glide, x: seq<Frame>)
    requires g.remaining == 0 && g.current == g.target
    ensures Outputs(g, x, 0, |x|) == Dataflow.Delay(g.target, x)
  {
    var y, z := Outputs(g, x, 0, |x|), Dataflow.Delay(g.target, x);
    OutputsLength(g, x, 0, |x|);
    forall i | 0 <= i < |x| ensures y[i] == z[i] {
      RestingOutput(g, x, i);
    }
    SameFrames(y, z);
  }

  // A prepared line with its delay set is the delay of the mixer's dataflow, however the stream is
  // cut into blocks.
  lemma SetLineDelays(delay: nat, max: nat, blocks: seq<seq<Frame>>)
    requires delay <= max && delay < DELAY_RANGE && blocks != []
    ensures PlayAll(Next(FRESH, Request(delay, 0), max), blocks).1 == Dataflow.Delay(delay, Joined(blocks))
  {
    var l := Next(FRESH, Request(delay, 0), max);
    BlocksDoNotMatter(l, blocks);
    Unpack(delay, 0);
    var g := ApplyRequest(l.glide, l.requested, l.applied);
    assert g.target == delay && l.history + Joined(blocks) == Joined(blocks);
    RestingDelays(g, Joined(blocks));
  }

  // After a request the line glides exactly when a transition to another delay is asked for, from
  // where it was and for that many samples; repeating the applied request goes on with its glide.
  lemma TransitionStarts(l: Line, delay: nat, transition: u32, max: nat)
    requires LineValid(l, max) && delay <= max && delay < DELAY_RANGE
    ensures var g := GlideAt(Next(l, Request(delay, transition), max), 0);
      && g.target == delay
      && (g.remaining > 0 <==> transition > 0 && delay != l.glide.current)
      && (g.remaining > 0 ==> g.current == l.glide.current && g.total == transition)
      && (g.remaining > 0 && Pack(delay, transition) != l.applied ==> g.remaining == transition)
      && (Pack(delay, transition) == l.applied ==> g == l.glide)
  {
    Unpack(delay, transition);
  }

  // The frame is i of n parts of the way from a to b, on both sides.
  predicate Parted(y: Frame, a: Frame, b: Frame, i: nat, n: nat) {
    && y.left * n as real == a.left * (n - i) as real + b.left * i as real
    && y.right * n as real == a.right * (n - i) as real + b.right * i as real
  }

  lemma PartOf(a: real, b: real, i: nat, n: nat, alpha: real)
    requires i < n && alpha * n as real == i as real
    ensures (a + (b - a) * alpha) * n as real == a * (n - i) as real + b * i as real
  {
    assert ((b - a) * alpha) * n as real == (b - a) * (alpha * n as real);
  }

  lemma AlphaIs(g: Glide, i: nat)
    requires i < g.total && g.remaining == g.total - i
    ensures Alpha(g) * g.total as real == i as real
  {
    var rest := g.remaining as real / g.total as real;
    assert rest * g.total as real == g.remaining as real;
  }

  lemma HeardParted(g: Glide, x: seq<Frame>, n: nat, i: nat)
    requires i < g.total && g.remaining == g.total - i
    ensures Parted(Heard(g, x, n), Past(x, n - g.current), Past(x, n - g.target), i, g.total)
  {
    AlphaIs(g, i);
    PartOf(Past(x, n - g.current).left, Past(x, n - g.target).left, i, g.total, Alpha(g));
    PartOf(Past(x, n - g.current).right, Past(x, n - g.target).right, i, g.total, Alpha(g));
  }

  // The transition of a new request is linear: its output i of n is i of n parts of the way from the
  // input at the delay so far to the input at the requested delay.
  lemma TransitionIsLinear(l: Line, delay: nat, transition: u32, max: nat, block: seq<Frame>, i: nat)
    requires LineValid(l, max) && delay <= max && delay < DELAY_RANGE && delay != l.glide.current
    requires delay != l.applied / DELAY_RANGE || transition != l.applied % DELAY_RANGE
    requires i < transition && i < |block|
    ensures var out := Play(Next(l, Request(delay, transition), max), block).1;
      var x, n := l.history + block, |l.history| + i;
      |out| == |block| && Parted(out[i], Past(x, n - l.glide.current), Past(x, n - delay), i, transition)
  {
    Unpack(delay, transition);
    var asked := Next(l, Request(delay, transition), max);
    var g := ApplyRequest(l.glide, asked.requested, l.applied);
    TicksValid(g, i, max);
    TicksTotal(g, i);
    OutputsAt(g, l.history + block, |l.history|, |block|, i);
    HeardParted(Ticks(g, i), l.history + block, |l.history| + i, i);
  }

  lemma RepeatedRequestIgnored(l: Line, delay: nat, transition: u32, max: nat, first: seq<Frame>, second: seq<Frame>)
    requires LineValid(l, max) && delay <= max && delay < DELAY_RANGE
    ensures var l1 := Next(l, Request(delay, transition), max);
      var l2 := Play(l1, first).0;
      Play(Next(l2, Request(delay, transition), max), second) == Play(l2, second)
  {
  }

  // ---------- the ring buffer ----------

  // The input frame at i; a missing channel is silent.
  function InFrame(left: Option<seq<real>>, right: Option<seq<real>>, i: nat): Frame
    requires (left.Some? ==> i < |left.value|) && (right.Some? ==> i < |right.value|)
  {
    Frame(if left.Some? then left.value[i] else 0.0, if right.Some? then right.value[i] else 0.0)
  }

  function InFrames(left: Option<seq<real>>, right: Option<seq<real>>, n: nat): seq<Frame>
    requires (left.Some? ==> n <= |left.value|) && (right.Some? ==> n <= |right.value|)
  {
    seq(n, i requires 0 <= i < n => InFrame(left, right, i))
  }

  // A line that delays by nothing puts out just what it is given: left on the left, right on the right,
  // and silence for a channel that is missing.
  lemma ChannelsKept(left: Option<seq<real>>, right: Option<seq<real>>, n: nat, i: nat)
    requires (left.Some? ==> n <= |left.value|) && (right.Some? ==> n <= |right.value|) && i < n
    ensures var out := Play(FRESH, InFrames(left, right, n)).1;
      && |out| == n
      && out[i].left == (if left.Some? then left.value[i] else 0.0)
      && out[i].right == (if right.Some? then right.value[i] else 0.0)
  {
    PassedOn(InFrames(left, right, n), i);
  }

  lemma PassedOn(x: seq<Frame>, i: nat)
    requires i < |x|
    ensures |Play(FRESH, x).1| == |x| && Play(FRESH, x).1[i] == x[i]
  {
    assert FRESH.history + x == x;
    OutputsAt(FRESH.glide, x, 0, |x|, i);
    SettledOutput(FRESH.glide, x, i, i, 0);
  }

  function Plus(a: Frame, b: Frame): Frame {
    Frame(a.left + b.left, a.right + b.right)
  }

  class PdcDelayLine {
    var ring: array<Frame>
    var write: nat
    var maxDelay: u64
    var current: nat
    var target: nat
    var total: u32
    var remaining: u32
    var requested: u64
    var applied: u64
    ghost var history: seq<Frame>   // every frame fed since the last reset

    function GlideNow(): Glide
      reads this
    {
      Glide(current, target, total, remaining)
    }

    ghost function Model(): Line
      reads this
    {
      Line(GlideNow(), requested, applied, history)
    }

    ghost predicate Window()
      reads this, ring
    {
      ring.Length > 0 &&
      forall p: int :: |history| - ring.Length <= p < |history| ==> ring[p % ring.Length] == Past(history, p)
    }

    // The ring holds the last `ring.Length` positions of the history.
    ghost predicate Holds()
      reads this, ring
    {
      Window() && write == |history| % ring.Length
    }

    ghost predicate Valid()
      reads this, ring
    {
      ring.Length > 0 ==> maxDelay < ring.Length && Holds() && LineValid(Model(), maxDelay)
    }

    constructor ()
      ensures Valid() && ring.Length == 0
    {
      ring := new Frame[0];
      write, maxDelay, current, target, total, remaining := 0, 0, 0, 0, 0, 0;
      requested, applied, history := 0, 0, [];
    }

    // `allocates` says whether the memory could be had. On failure the line is left without a ring.
    method Prepare(maxDelaySamples: u64, maxBlockFrames: u32, allocates: bool) returns (ok: bool)
      requires Valid()
      modifies this
      ensures Valid() && (ok ==> fresh(ring))
      ensures ok <==> maxDelaySamples + maxBlockFrames + 1 <= MAX_U64 && allocates
      ensures ok ==> Model() == FRESH && maxDelay == maxDelaySamples
      ensures ok ==> ring.Length == maxDelaySamples + maxBlockFrames + 1
      ensures !ok && !allocates && maxDelaySamples + maxBlockFrames + 1 <= MAX_U64 ==> ring.Length == 0
      ensures maxDelaySamples + maxBlockFrames + 1 > MAX_U64 ==> Model() == old(Model()) && ring == old(ring)
    {
      if maxDelaySamples > MAX_U64 - maxBlockFrames - 1 {
        return false;
      }
      if !allocates {
        ring := new Frame[0];
        return false;
      }
      ring := new Frame[maxDelaySamples + maxBlockFrames + 1](_ => SILENT);
      maxDelay := maxDelaySamples;
      Reset();
      ok := true;
    }

    method Reset()
      modifies this`write, this`current, this`target, this`total, this`remaining, this`requested, this`applied,
               this`history, ring
      requires ring.Length > 0 ==> maxDelay < ring.Length
      ensures Valid() && Model() == FRESH
    {
      forall i | 0 <= i < ring.Length {
        ring[i] := SILENT;
      }
      write, current, target, total, remaining := 0, 0, 0, 0, 0;
      requested, applied, history := 0, 0, [];
    }

    // Both rings, in bytes.
    function AllocatedBytes(): nat
      reads this, ring
    {
      (ring.Length + ring.Length) * 4
    }

    method SetDelay(delay: u64, transition: u32) returns (ok: bool)
      requires Valid()
      modifies this`requested
      ensures Valid()
      ensures ok <==> delay <= maxDelay && ring.Length > 0 && delay < DELAY_RANGE
      ensures Model() == if ok then old(Model()).(requested := Pack(delay, transition)) else old(Model())
      ensures ok ==> Model() == Next(old(Model()), Request(delay, transition), maxDelay)
    {
      if delay > maxDelay || ring.Length == 0 || delay > 0xFFFF_FFFF {
        return false;
      }
      Unpack(delay, transition);
      requested := delay * DELAY_RANGE + transition;
      ok := true;
    }

    method ApplyPendingRequest()
      requires Valid() && ring.Length > 0
      modifies this`applied, this`current, this`target, this`total, this`remaining
      ensures Valid()
      ensures Model() ==
        old(Model()).(glide := ApplyRequest(old(GlideNow()), requested, old(applied)), applied := requested)
    {
      RequestApplied(Model(), maxDelay);
      if requested == applied {
        return;
      }
      applied := requested;
      var delay, transition := requested / DELAY_RANGE, requested % DELAY_RANGE;
      if transition == 0 || delay == current {
        current, target, total, remaining := delay, delay, 0, 0;
        return;
      }
      target, total, remaining := delay, transition, transition;
    }

    // The ring cell `delay` positions back from the frame just written.
    method ReadBack(delay: nat) returns (f: Frame)
      requires Window() && write == (|history| - 1) % ring.Length && delay < ring.Length && |history| > 0
      ensures f == Past(history, |history| - 1 - delay)
    {
      var d := delay % ring.Length;
      var pos := (write + ring.Length - d) % ring.Length;
      CellBack(|history| - 1, ring.Length, delay);
      f := ring[pos];
    }

    method Store(f: Frame)
      requires Holds()
      modifies this`history, ring
      ensures Window() && history == old(history) + [f] && write == (|history| - 1) % ring.Length
    {
      var n := |history|;
      forall p: int | n - ring.Length < p < n ensures p % ring.Length != n % ring.Length {
        DistinctCells(p, n, ring.Length);
      }
      ring[write] := f;
      history := history + [f];
    }

    // One sample: store, read at the current delay, glide, advance.
    method ProcessSample(f: Frame) returns (y: Frame)
      requires Valid() && ring.Length > 0
      modifies this`write, this`current, this`remaining, this`history, ring
      ensures Valid() && history == old(history) + [f] && GlideNow() == Tick(old(GlideNow()))
      ensures y == Heard(old(GlideNow()), history, |old(history)|)
    {
      Store(f);
      y := ReadBack(current);
      if remaining > 0 {
        var alpha := 1.0 - remaining as real / total as real;
        var ahead := ReadBack(target);
        y := Toward(y, ahead, alpha);
        remaining := remaining - 1;
        if remaining == 0 {
          current := target;
        }
      }
      MoveOn();
    }

    // Moves the write position past the frame just written.
    method MoveOn()
      requires Window() && |history| > 0 && write == (|history| - 1) % ring.Length
      modifies this`write
      ensures Holds()
    {
      CellNext(|history| - 1, ring.Length);
      write := (write + 1) % ring.Length;
    }

    method AddSample(f: Frame, out: array<Frame>, i: nat)
      requires Valid() && ring.Length > 0 && i < out.Length && out != ring
      modifies this`write, this`current, this`target, this`remaining, this`history, ring, out
      ensures Valid() && history == old(history) + [f] && GlideNow() == Tick(old(GlideNow()))
      ensures out[..] == old(out[..])[i := Plus(old(out[i]), Heard(old(GlideNow()), history, |old(history)|))]
    {
      var y := ProcessSample(f);
      out[i] := Plus(out[i], y);
    }

    // The loop over a block, on a line whose request has been applied.
    method ProcessFrames(block: seq<Frame>, out: array<Frame>)
      requires Valid() && ring.Length > 0 && |block| <= out.Length && out != ring
      modifies this`write, this`current, this`target, this`remaining, this`history, ring, out
      ensures Valid() && history == old(history) + block
      ensures GlideNow() == Ticks(old(GlideNow()), |block|)
      ensures var heard := Outputs(old(GlideNow()), history, |old(history)|, |block|);
        |heard| == |block| && Added(old(out[..]), out[..], heard, |block|)
    {
      ghost var g, base, all := GlideNow(), |history|, history + block;
      ghost var was, heard := out[..], Outputs(g, all, base, |block|);
      OutputsLength(g, all, base, |block|);
      for i := 0 to |block|
        invariant Valid() && history == all[..base + i] && GlideNow() == Ticks(g, i)
        invariant Added(was, out[..], heard, i)
      {
        OutputTick(g, all, base, |block|, i);
        AddedNext(was, out[..], heard, i);
        AddSample(block[i], out, i);
      }
      assert all[..base + |block|] == all;
    }

    // Adds the delayed block to `out`. Without a ring or an output nothing happens.
    method ProcessAdd(left: Option<seq<real>>, right: Option<seq<real>>, out: array?<Frame>, frames: nat)
      requires Valid() && (left.Some? ==> frames <= |left.value|) && (right.Some? ==> frames <= |right.value|)
      requires out != null ==> frames <= out.Length && out != ring
      modifies this`write, this`current, this`target, this`total, this`remaining, this`applied, this`history, ring, out
      ensures Valid()
      ensures ring.Length == 0 || out == null ==> Model() == old(Model()) && (out != null ==> out[..] == old(out[..]))
      ensures ring.Length > 0 && out != null ==>
        var (line, heard) := Play(old(Model()), InFrames(left, right, frames));
        Model() == line && |heard| == frames && Added(old(out[..]), out[..], heard, frames)
    {
      if ring.Length == 0 || out == null {
        return;
      }
      ApplyPendingRequest();
      ProcessFrames(InFrames(left, right, frames), out);
    }
  }

  // The first n heard frames have been added to what was in a buffer.
  ghost predicate Added(was: seq<Frame>, now: seq<Frame>, heard: seq<Frame>, n: nat)
    requires n <= |heard|
  {
    |now| == |was| && forall k :: 0 <= k < |now| ==>
      now[k] == if k < n then Frame(was[k].left + heard[k].left, was[k].right + heard[k].right) else was[k]
  }

  lemma AddedNext(was: seq<Frame>, now: seq<Frame>, heard: seq<Frame>, i: nat)
    requires i < |heard| && i < |now| && Added(was, now, heard, i)
    ensures Added(was, now[i := Plus(now[i], heard[i])], heard, i + 1)
  {
  }

  // The i-th output needs the input up to its own position only.
  lemma OutputTick(g: Glide, x: seq<Frame>, base: nat, n: nat, i: nat)
    requires i < n && base + n <= |x|
    ensures |Outputs(g, x, base, n)| == n && x[..base + i] + [x[base + i]] == x[..base + i + 1]
    ensures Heard(Ticks(g, i), x[..base + i + 1], base + i) == Outputs(g, x, base, n)[i]
    ensures Tick(Ticks(g, i)) == Ticks(g, i + 1)
  {
    HeardCausal(Ticks(g, i), x, base + i + 1, base + i);
    OutputsAt(g, x, base, n, i);
  }

  lemma {:induction false} OutputsLength(g: Glide, x: seq<Frame>, base: nat, n: nat)
    ensures |Outputs(g, x, base, n)| == n
  {
    if n > 0 {
      OutputsLength(g, x, base, n - 1);
    }
  }

  lemma HeardCausal(g: Glide, x: seq<Frame>, m: nat, n: nat)
    requires n < m <= |x|
    ensures Heard(g, x[..m], n) == Heard(g, x, n)
  {
  }

  // ---------- the lines of a plan ----------

  // A line prepared for a plan's limits takes the bytes the planner counted for it, and accepts any
  // delay within the planned maximum that fits 32 bits.
  lemma PlannedLine(limits: Limits, line: PdcDelayLine)
    requires limits.channels == 2 && limits.bytesPerSample == 4 && EdgeSize(limits).Some?
    requires line.ring.Length == limits.maxPathSamples + limits.maxBlockFrames + 1
    ensures EdgeSize(limits).value == line.AllocatedBytes()
  {
  }

  // A line prepared for the plan's longest path takes every planned delay that fits 32 bits.
  lemma PlannedDelayAccepted(nodes: seq<PdcNode>, outputs: seq<PdcOutput>, limits: Limits, e: EdgeDelay,
                             line: PdcDelayLine)
    requires PlanSpec(nodes, outputs, limits).Ok() && e in PlanSpec(nodes, outputs, limits).edgeDelays
    requires line.ring.Length > 0 && line.maxDelay == limits.maxPathSamples
    ensures (e.delay <= line.maxDelay && line.ring.Length > 0 && e.delay < DELAY_RANGE) <==> e.delay < DELAY_RANGE
  {
    DelayBound(nodes, outputs, limits, e);
  }
}
