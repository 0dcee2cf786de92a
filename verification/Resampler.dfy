/**
 Linear resampling of audio over exact reals: the stateless form of
 rigflow-client/src/tci_server.rs and the streaming one of rigflow-client/src/mic.rs,
 which carries a phase and the last sample from block to block.
 */
module Resampler {
  import opened Ends

  const TX_RATE_HZ := 48000.0
  const TX_RING_MAX := 24_000

  /** Samples produced, and the position the next one would be taken at. */
  datatype Emission = Emission(out: seq<real>, pos: real)

  /** A full segment of `v` lies around `pos`. */
  predicate Inside(v: seq<real>, pos: real) {
    pos >= 0.0 && pos.Floor + 1 < |v|
  }

  /** The point a fraction of the way from one sample to the next. */
  function Mix(a: real, b: real, frac: real): real {
    a + (b - a) * frac
  }

  /** The value at `pos`, on the line between the two samples around it. */
  function Lerp(v: seq<real>, pos: real): real
    requires Inside(v, pos)
  {
    Mix(v[pos.Floor], v[pos.Floor + 1], pos - pos.Floor as real)
  }

  /** How many more steps fit before the end. */
  function StepsLeft(n: nat, pos: real, step: real): nat
    requires step > 0.0
  {
    var k := ((n as real - pos) / step).Floor;
    if k < 0 then 0 else k + 1
  }

  lemma DivideStep(d: real, step: real)
    requires step > 0.0
    ensures (d - step) / step == d / step - 1.0
    ensures d > 0.0 ==> d / step > 0.0
  {
    var q := d / step;
    assert q * step == d;
    assert (q - 1.0) * step == d - step;
    QuotientIs(d - step, step, q - 1.0);
  }

  lemma QuotientIs(x: real, step: real, q: real)
    requires step > 0.0 && q * step == x
    ensures x / step == q
  {
    var y := x / step;
    assert y * step == x;
    assert (y - q) * step == 0.0;
    if y > q {
      Positive(y - q, step);
    } else if y < q {
      Positive(q - y, step);
      assert (q - y) * step == -((y - q) * step);
    }
  }

  lemma Positive(a: real, b: real)
    requires a > 0.0 && b > 0.0
    ensures a * b > 0.0
  {
  }

  lemma StepTaken(n: nat, pos: real, step: real)
    requires step > 0.0 && pos < n as real
    ensures StepsLeft(n, pos + step, step) < StepsLeft(n, pos, step)
  {
    DivideStep(n as real - pos, step);
    assert n as real - (pos + step) == n as real - pos - step;
  }

  /** Interpolate from `pos` on, `step` apart, while a full segment is available. */
  function Emit(v: seq<real>, pos: real, step: real): Emission
    requires step > 0.0 && pos >= 0.0
    decreases StepsLeft(|v|, pos, step)
  {
    if Inside(v, pos) then
      StepTaken(|v|, pos, step);
      var rest := Emit(v, pos + step, step);
      Emission([Lerp(v, pos)] + rest.out, rest.pos)
    else Emission([], pos)
  }

  lemma EmitStep(v: seq<real>, pos: real, step: real, k: int, sample: real)
    requires step > 0.0 && pos >= 0.0 && k == pos.Floor && k + 1 < |v|
    requires sample == Mix(v[k], v[k + 1], pos - k as real)
    ensures Emit(v, pos, step) == Emission([sample] + Emit(v, pos + step, step).out, Emit(v, pos + step, step).pos)
  {
    hide StepsLeft, Mix;
  }

  lemma EmitNothing(v: seq<real>, pos: real, step: real)
    requires step > 0.0 && pos >= 0.0 && !Inside(v, pos)
    ensures Emit(v, pos, step) == Emission([], pos)
  {
  }

  /** The stateless resampler. */
  function Resample(input: seq<real>, fromHz: real, toHz: real): seq<real>
    requires fromHz > 0.0 && toHz > 0.0
  {
    if input == [] || -1.0 < fromHz - toHz < 1.0 then input
    else Emit(input, 0.0, fromHz / toHz).out
  }

  method ResampleLoop(input: seq<real>, fromHz: real, toHz: real) returns (out: seq<real>)
    requires fromHz > 0.0 && toHz > 0.0
    ensures out == Resample(input, fromHz, toHz)
  {
    if input == [] || -1.0 < fromHz - toHz < 1.0 {
      return input;
    }
    hide StepsLeft, Mix, Emit;
    var step := fromHz / toHz;
    out := [];
    var pos := 0.0;
    while pos.Floor + 1 < |input|
      invariant pos >= 0.0
      invariant out + Emit(input, pos, step).out == Emit(input, 0.0, step).out
      decreases StepsLeft(|input|, pos, step)
    {
      StepTaken(|input|, pos, step);
      var i := pos.Floor;
      var frac := pos - i as real;
      EmitStep(input, pos, step, i, Mix(input[i], input[i + 1], frac));
      out := out + [Mix(input[i], input[i + 1], frac)];
      pos := pos + step;
    }
    EmitNothing(input, pos, step);
  }

  // ---- what the samples are --------------------------------------------------------

  /** Where output `k` is taken: `k` steps on. */
  function Position(pos: real, step: real, k: nat): real {
    pos + k as real * step
  }

  lemma PositionStep(pos: real, step: real, k: nat)
    ensures Position(pos, step, 0) == pos
    ensures Position(pos + step, step, k) == Position(pos, step, k + 1)
  {
    assert (k + 1) as real * step == k as real * step + step;
  }

  /** Output `k` is the interpolation at `pos + k * step`, and output stops at the last full segment. */
  lemma {:induction false} EmitMeaning(v: seq<real>, pos: real, step: real)
    requires step > 0.0 && pos >= 0.0
    ensures var e := Emit(v, pos, step);
            && (forall k :: 0 <= k < |e.out| ==>
                  Inside(v, Position(pos, step, k)) && e.out[k] == Lerp(v, Position(pos, step, k)))
            && e.pos == Position(pos, step, |e.out|) && e.pos >= 0.0 && !Inside(v, e.pos)
    decreases StepsLeft(|v|, pos, step)
  {
    hide StepsLeft, Lerp, Inside, Emit, Position;
    if Inside(v, pos) {
      InsideIsBefore(v, pos);
      StepTaken(|v|, pos, step);
      EmitMeaning(v, pos + step, step);
      EmitOne(v, pos, step);
      var rest, out := Emit(v, pos + step, step).out, Emit(v, pos, step).out;
      PositionStep(pos, step, |rest|);
      forall k | 0 <= k < |out|
        ensures Inside(v, Position(pos, step, k)) && out[k] == Lerp(v, Position(pos, step, k))
      {
        PositionStep(pos, step, if k > 0 then k - 1 else 0);
        if k > 0 {
          assert out[k] == rest[k - 1];
        }
      }
    } else {
      PositionStep(pos, step, 0);
      EmitNothing(v, pos, step);
    }
  }

  lemma EmitOne(v: seq<real>, pos: real, step: real)
    requires step > 0.0 && Inside(v, pos)
    ensures pos >= 0.0
    ensures Emit(v, pos, step) == Emission([Lerp(v, pos)] + Emit(v, pos + step, step).out, Emit(v, pos + step, step).pos)
  {
    hide StepsLeft, Mix;
  }

  lemma InsideIsBefore(v: seq<real>, pos: real)
    requires Inside(v, pos)
    ensures pos < |v| as real
  {
  }

  /** An interpolated sample lies between its two neighbours. */
  lemma LerpBetween(v: seq<real>, pos: real)
    requires Inside(v, pos)
    ensures var a, b := v[pos.Floor], v[pos.Floor + 1];
            if a <= b then a <= Lerp(v, pos) <= b else b <= Lerp(v, pos) <= a
  {
    MixBetween(v[pos.Floor], v[pos.Floor + 1], pos - pos.Floor as real);
    hide Mix;
  }

  lemma MixBetween(a: real, b: real, frac: real)
    requires 0.0 <= frac < 1.0
    ensures if a <= b then a <= Mix(a, b, frac) <= b else b <= Mix(a, b, frac) <= a
  {
    var d := b - a;
    var part := d * frac;
    assert Mix(a, b, frac) == a + part;
    if a <= b {
      Weighted(d, frac, part);
    } else {
      WeightedDown(d, frac, part);
    }
  }

  lemma Weighted(d: real, f: real, part: real)
    requires 0.0 <= f < 1.0 && d >= 0.0 && part == d * f
    ensures 0.0 <= part <= d
  {
    var rest := d * (1.0 - f);
    assert rest == d - part;
    NonNegative(d, f);
    NonNegative(d, 1.0 - f);
  }

  lemma NonNegative(a: real, b: real)
    requires a >= 0.0 && b >= 0.0
    ensures a * b >= 0.0
  {
  }

  lemma WeightedDown(d: real, f: real, part: real)
    requires 0.0 <= f < 1.0 && d <= 0.0 && part == d * f
    ensures d <= part <= 0.0
  {
    var e := -d;
    assert e * f == -part;
    Weighted(e, f, -part);
  }

  // ---- cutting the input -----------------------------------------------------------

  /** Input that arrives later does not change what was produced, only adds to it. */
  lemma {:induction false} EmitExtend(v: seq<real>, w: seq<real>, pos: real, step: real)
    requires step > 0.0 && pos >= 0.0
    ensures Emit(v, pos, step).pos >= 0.0
    ensures var first := Emit(v, pos, step);
            Emit(v + w, pos, step) == Emission(first.out + Emit(v + w, first.pos, step).out, Emit(v + w, first.pos, step).pos)
    decreases StepsLeft(|v|, pos, step)
  {
    hide StepsLeft, Mix;
    if Inside(v, pos) {
      InsideIsBefore(v, pos);
      StepTaken(|v|, pos, step);
      EmitExtend(v, w, pos + step, step);
      assert Lerp(v + w, pos) == Lerp(v, pos);
    }
  }

  /** Counting positions from sample `c` instead of sample 0 produces the same. */
  lemma {:induction false} EmitShift(v: seq<real>, c: nat, pos: real, step: real)
    requires step > 0.0 && pos >= 0.0 && c <= |v|
    ensures Emit(v, pos + c as real, step) == Emission(Emit(v[c..], pos, step).out, Emit(v[c..], pos, step).pos + c as real)
    decreases StepsLeft(|v[c..]|, pos, step)
  {
    hide StepsLeft, Mix;
    assert (pos + c as real).Floor == pos.Floor + c;
    assert Inside(v, pos + c as real) <==> Inside(v[c..], pos);
    if Inside(v[c..], pos) {
      InsideIsBefore(v[c..], pos);
      StepTaken(|v[c..]|, pos, step);
      EmitShift(v, c, pos + step, step);
      assert pos + c as real + step == pos + step + c as real;
      assert Lerp(v, pos + c as real) == Lerp(v[c..], pos);
    }
  }

  // ---- the stream ------------------------------------------------------------------

  /** The phase and the last sample the stream carries to the next block. */
  datatype Carry = Carry(pos: real, prev: real)

  const INITIAL := Carry(0.0, 0.0)

  function BlockOut(c: Carry, mono: seq<real>, step: real): seq<real>
    requires step > 0.0 && c.pos >= 0.0
  {
    Emit([c.prev] + mono, c.pos, step).out
  }

  function BlockCarry(c: Carry, mono: seq<real>, step: real): (c': Carry)
    requires step > 0.0 && c.pos >= 0.0
    ensures c'.pos >= 0.0
  {
    var pos := Emit([c.prev] + mono, c.pos, step).pos - |mono| as real;
    Carry(if pos < 0.0 then 0.0 else pos, if mono == [] then c.prev else mono[|mono| - 1])
  }

  /** What a captured block adds to the ring: itself at 48 kHz, its resampling at any other rate. */
  function Share(c: Carry, block: seq<real>, inRate: real): seq<real>
    requires inRate > 0.0 && c.pos >= 0.0
  {
    if -1.0 < inRate - TX_RATE_HZ < 1.0 then block else BlockOut(c, block, inRate / TX_RATE_HZ)
  }

  /** The carry behind a captured block; 48 kHz leaves it alone. */
  function Moved(c: Carry, block: seq<real>, inRate: real): (c': Carry)
    requires inRate > 0.0 && c.pos >= 0.0
    ensures c'.pos >= 0.0
  {
    if -1.0 < inRate - TX_RATE_HZ < 1.0 then c else BlockCarry(c, block, inRate / TX_RATE_HZ)
  }

  function StreamOut(c: Carry, blocks: seq<seq<real>>, step: real): seq<real>
    requires step > 0.0 && c.pos >= 0.0
    decreases |blocks|
  {
    if blocks == [] then []
    else BlockOut(c, blocks[0], step) + StreamOut(BlockCarry(c, blocks[0], step), blocks[1..], step)
  }

  function Joined(blocks: seq<seq<real>>): seq<real> {
    if blocks == [] then [] else blocks[0] + Joined(blocks[1..])
  }

  /** The carry is where a resampler over everything so far would stand. */
  ghost predicate Caught(c: Carry, v: seq<real>, step: real)
    requires step > 0.0
  {
    && v != [] && c.prev == v[|v| - 1] && c.pos >= 0.0
    && Emit(v, 0.0, step).pos == c.pos + (|v| - 1) as real
  }

  lemma BlockCatchesUp(c: Carry, v: seq<real>, mono: seq<real>, step: real)
    requires step > 0.0 && Caught(c, v, step)
    ensures Caught(BlockCarry(c, mono, step), v + mono, step)
    ensures Emit(v + mono, 0.0, step).out == Emit(v, 0.0, step).out + BlockOut(c, mono, step)
  {
    var k := |v| - 1;
    var all := v + mono;
    assert all[k..] == [c.prev] + mono;
    EmitExtend(v, mono, 0.0, step);
    EmitShift(all, k, c.pos, step);
    var done := Emit([c.prev] + mono, c.pos, step).pos;
    EmitStops([c.prev] + mono, c.pos, step);
    assert Emit(all, 0.0, step).pos == done + k as real;
  }

  /** What is left over lies at or behind the last sample, so the phase never has to be clamped. */
  lemma EmitStops(v: seq<real>, pos: real, step: real)
    requires step > 0.0 && pos >= 0.0
    ensures Emit(v, pos, step).pos >= 0.0 && Emit(v, pos, step).pos.Floor + 1 >= |v|
  {
    hide Emit, Lerp;
    EmitMeaning(v, pos, step);
  }

  lemma {:induction false} StreamCatchesUp(c: Carry, v: seq<real>, blocks: seq<seq<real>>, step: real)
    requires step > 0.0 && Caught(c, v, step)
    ensures Emit(v + Joined(blocks), 0.0, step).out == Emit(v, 0.0, step).out + StreamOut(c, blocks, step)
    decreases |blocks|
  {
    hide Emit, Caught, BlockOut, BlockCarry;
    if blocks == [] {
      assert v + [] == v;
    } else {
      assert c.pos >= 0.0 by { CaughtPos(c, v, step); }
      BlockCatchesUp(c, v, blocks[0], step);
      StreamCatchesUp(BlockCarry(c, blocks[0], step), v + blocks[0], blocks[1..], step);
      assert v + blocks[0] + Joined(blocks[1..]) == v + Joined(blocks);
    }
  }

  lemma CaughtPos(c: Carry, v: seq<real>, step: real)
    requires step > 0.0 && Caught(c, v, step)
    ensures c.pos >= 0.0
  {
  }

  /**
   However a signal is cut into blocks, empty ones included, the stream puts out exactly
   what the stateless resampler makes of one zero followed by the whole signal.
   */
  lemma StreamIsResample(blocks: seq<seq<real>>, inRate: real)
    requires inRate > 0.0 && !(-1.0 < inRate - TX_RATE_HZ < 1.0)
    ensures StreamOut(INITIAL, blocks, inRate / TX_RATE_HZ) == Resample([0.0] + Joined(blocks), inRate, TX_RATE_HZ)
  {
    var step := inRate / TX_RATE_HZ;
    assert Emit([0.0], 0.0, step) == Emission([], 0.0);
    StreamCatchesUp(INITIAL, [0.0], blocks, step);
  }

  // ---- the capture objects -----------------------------------------------------------

  /** The outbound ring between the capture callback and the media thread. */
  class MicShared {
    var txStreaming: bool
    var externalTxSource: bool
    var ring: seq<real>

    constructor ()
      ensures !txStreaming && !externalTxSource && ring == []
    {
      txStreaming, externalTxSource, ring := false, false, [];
    }

    /** Switching clears the ring, so audio never leaks into the next transmission. */
    method SetTxStreaming(on: bool)
      modifies this
      ensures txStreaming == on && ring == if old(txStreaming) != on then [] else old(ring)
      ensures externalTxSource == old(externalTxSource)
    {
      var was := txStreaming;
      txStreaming := on;
      if was != on {
        ring := [];
      }
    }

    /** Append while streaming; the oldest samples go when the ring is full. */
    method PushTx(samples: seq<real>)
      modifies this`ring
      ensures ring == if txStreaming then Last(old(ring) + samples, TX_RING_MAX) else old(ring)
    {
      if !txStreaming {
        return;
      }
      ring := ring + samples;
      if |ring| > TX_RING_MAX {
        var drop := |ring| - TX_RING_MAX;
        ring := ring[drop..];
      }
    }

    method DrainTx() returns (samples: seq<real>)
      modifies this`ring
      ensures samples == old(ring) && ring == []
    {
      samples := ring;
      ring := [];
    }
  }

  /** The loop over one block: `V[0]` is the carried sample, `V[k]` the block's `k - 1`. */
  method ResampleBlock(prev: real, mono: seq<real>, start: real, step: real) returns (out: seq<real>, p: real)
    requires step > 0.0 && start >= 0.0
    ensures Emission(out, p) == Emit([prev] + mono, start, step)
  {
    hide StepsLeft, Mix, Emit;
    ghost var v := [prev] + mono;
    out, p := [], start;
    while p.Floor + 1 <= |mono|
      invariant p >= 0.0
      invariant Emit(v, start, step) == Emission(out + Emit(v, p, step).out, Emit(v, p, step).pos)
      decreases StepsLeft(|v|, p, step)
    {
      StepTaken(|v|, p, step);
      var k := p.Floor;
      var frac := p - k as real;
      var vk := if k == 0 then prev else mono[k - 1];
      var vk1 := mono[k];
      assert v[k] == vk && v[k + 1] == vk1;
      EmitStep(v, p, step, k, Mix(vk, vk1, frac));
      out := out + [Mix(vk, vk1, frac)];
      p := p + step;
    }
    EmitNothing(v, p, step);
  }

  class MicProc {
    const shared: MicShared
    const inRate: real
    var mono: seq<real>
    var resampled: seq<real>
    var pos: real
    var prev: real

    predicate Valid()
      reads this
    {
      inRate > 0.0 && pos >= 0.0
    }

    constructor (shared: MicShared, inRate: real)
      requires inRate > 0.0
      ensures Valid() && Carry(pos, prev) == INITIAL && this.shared == shared && this.inRate == inRate
    {
      this.shared, this.inRate := shared, inRate;
      mono, resampled, pos, prev := [], [], 0.0, 0.0;
    }

    /** Resample the block in `mono`, carrying phase and last sample across blocks. */
    method ResampleInto48k()
      requires Valid()
      modifies this`resampled, this`pos, this`prev
      ensures Valid()
      ensures resampled == BlockOut(Carry(old(pos), old(prev)), mono, inRate / TX_RATE_HZ)
      ensures Carry(pos, prev) == BlockCarry(Carry(old(pos), old(prev)), mono, inRate / TX_RATE_HZ)
    {
      var step := inRate / TX_RATE_HZ;
      var maxk := |mono|;
      var out, p := ResampleBlock(prev, mono, pos, step);
      p := p - maxk as real;
      pos := if p < 0.0 then 0.0 else p;
      if maxk > 0 {
        prev := mono[maxk - 1];
      }
      resampled := out;
    }

    /**
     One captured block: ignored unless the radio is keyed from the microphone; otherwise passed
     through at 48 kHz and resampled at any other rate.
     */
    method Transmit(block: seq<real>)
      requires Valid()
      modifies this, shared`ring
      ensures Valid()
      ensures var live, c := shared.txStreaming && !shared.externalTxSource, Carry(old(pos), old(prev));
              && shared.ring
                 == (if live then Last(old(shared.ring) + Share(c, block, inRate), TX_RING_MAX) else old(shared.ring))
              && Carry(pos, prev) == if live then Moved(c, block, inRate) else c
    {
      hide BlockOut, BlockCarry, Last;
      mono := block;
      if shared.txStreaming && !shared.externalTxSource {
        if -1.0 < inRate - TX_RATE_HZ < 1.0 {
          shared.PushTx(mono);
        } else {
          ResampleInto48k();
          shared.PushTx(resampled);
        }
      }
    }
  }

  /** The ring after a number of live blocks, trimmed as each of them arrives. */
  function RingAfter(ring: seq<real>, c: Carry, blocks: seq<seq<real>>, inRate: real): seq<real>
    requires inRate > 0.0 && c.pos >= 0.0
    decreases |blocks|
  {
    if blocks == [] then ring
    else RingAfter(Last(ring + Share(c, blocks[0], inRate), TX_RING_MAX), Moved(c, blocks[0], inRate), blocks[1..], inRate)
  }

  /** Within one hertz of 48 kHz the ring holds the newest of the captured samples themselves. */
  lemma {:induction false} PassesThrough(ring: seq<real>, c: Carry, blocks: seq<seq<real>>, inRate: real)
    requires c.pos >= 0.0 && |ring| <= TX_RING_MAX && 47_999.0 < inRate < 48_001.0
    ensures RingAfter(ring, c, blocks, inRate) == Last(ring + Joined(blocks), 24_000)
    decreases |blocks|
  {
    hide BlockOut, BlockCarry;
    if blocks == [] {
      assert ring + [] == ring;
    } else {
      PassesThrough(Last(ring + blocks[0], TX_RING_MAX), c, blocks[1..], inRate);
      LastAppend(ring + blocks[0], Joined(blocks[1..]), TX_RING_MAX);
      assert ring + blocks[0] + Joined(blocks[1..]) == ring + (blocks[0] + Joined(blocks[1..]));
    }
  }

  lemma {:induction false} RingIsTail(ring: seq<real>, c: Carry, blocks: seq<seq<real>>, inRate: real)
    requires inRate > 0.0 && c.pos >= 0.0 && |ring| <= TX_RING_MAX && !(-1.0 < inRate - TX_RATE_HZ < 1.0)
    ensures RingAfter(ring, c, blocks, inRate) == Last(ring + StreamOut(c, blocks, inRate / TX_RATE_HZ), TX_RING_MAX)
    decreases |blocks|
  {
    hide Emit, BlockOut, BlockCarry;
    var step := inRate / TX_RATE_HZ;
    if blocks == [] {
      assert ring + [] == ring;
    } else {
      var out := BlockOut(c, blocks[0], step);
      var next := BlockCarry(c, blocks[0], step);
      RingIsTail(Last(ring + out, TX_RING_MAX), next, blocks[1..], inRate);
      LastAppend(ring + out, StreamOut(next, blocks[1..], step), TX_RING_MAX);
      assert ring + out + StreamOut(next, blocks[1..], step) == ring + (out + StreamOut(next, blocks[1..], step));
    }
  }

  // ---- one transmission after another ---------------------------------------------------

  /** What the stream carries behind a number of blocks. */
  function CarryAfter(c: Carry, blocks: seq<seq<real>>, step: real): (c': Carry)
    requires step > 0.0 && c.pos >= 0.0
    ensures c'.pos >= 0.0
    decreases |blocks|
  {
    if blocks == [] then c else CarryAfter(BlockCarry(c, blocks[0], step), blocks[1..], step)
  }

  lemma {:induction false} StreamAppend(c: Carry, a: seq<seq<real>>, b: seq<seq<real>>, step: real)
    requires step > 0.0 && c.pos >= 0.0
    ensures StreamOut(c, a + b, step) == StreamOut(c, a, step) + StreamOut(CarryAfter(c, a, step), b, step)
    decreases |a|
  {
    hide BlockOut, BlockCarry;
    if a == [] {
      assert a + b == b;
      assert [] + StreamOut(c, b, step) == StreamOut(c, b, step);
    } else {
      var out, next := BlockOut(c, a[0], step), BlockCarry(c, a[0], step);
      assert (a + b)[1..] == a[1..] + b;
      StreamAppend(next, a[1..], b, step);
      assert out + (StreamOut(next, a[1..], step) + StreamOut(CarryAfter(next, a[1..], step), b, step))
          == (out + StreamOut(next, a[1..], step)) + StreamOut(CarryAfter(next, a[1..], step), b, step);
    }
  }

  /**
   Keying does not reset the phase: whatever was resampled `earlier`, a freshly emptied ring holds the
   newest half second of what the resampled signal gains by the new blocks, however they are cut.
   */
  lemma RingHoldsNewest(earlier: seq<seq<real>>, blocks: seq<seq<real>>, inRate: real)
    requires inRate > 0.0 && !(-1.0 < inRate - TX_RATE_HZ < 1.0)
    ensures var before := Resample([0.0] + Joined(earlier), inRate, TX_RATE_HZ);
            var after := Resample([0.0] + Joined(earlier + blocks), inRate, TX_RATE_HZ);
            && before <= after
            && RingAfter([], CarryAfter(INITIAL, earlier, inRate / TX_RATE_HZ), blocks, inRate)
               == Last(after[|before|..], TX_RING_MAX)
  {
    hide StreamOut, Resample, CarryAfter, RingAfter, Last, Joined;
    var step := inRate / TX_RATE_HZ;
    var c := CarryAfter(INITIAL, earlier, step);
    RingIsTail([], c, blocks, inRate);
    StreamIsResample(earlier, inRate);
    StreamIsResample(earlier + blocks, inRate);
    StreamAppend(INITIAL, earlier, blocks, step);
    assert [] + StreamOut(c, blocks, step) == StreamOut(c, blocks, step);
  }
}
