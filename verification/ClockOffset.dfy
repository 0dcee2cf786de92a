/**
 The clock-offset and one-way-latency estimator of rigflow-client/src/audio_metrics.rs,
 in nanoseconds.
 */
module ClockOffset {
  import opened Decimal
  import opened Division

  const I64_MAX: int := 0x7FFF_FFFF_FFFF_FFFF
  const ONE_WAY_MIN: int := -1_000_000_000
  const ONE_WAY_MAX: int := 5_000_000_000

  datatype Metrics = Metrics(
    minRtt: int, rtt: int, offset: int, haveOffset: bool, oneWay: int, haveOneWay: bool)

  const FRESH := Metrics(I64_MAX, 0, 0, false, 0, false)

  /** A 128-bit sum cast to 64 bits. */
  function WrapI64(n: int): int {
    (n + 0x8000_0000_0000_0000) % 0x1_0000_0000_0000_0000 - 0x8000_0000_0000_0000
  }

  /** The running minimum after a probe: it creeps up by 1/64 unless the probe is lower. */
  function MinAfter(minRtt: int, rtt: int): int {
    var relaxed := if minRtt == I64_MAX then rtt else minRtt + TruncDiv(minRtt, 64);
    if rtt < relaxed then rtt else relaxed
  }

  /** A probe counts for the offset when its round trip is within half of the cleanest. */
  predicate Accepts(minRtt: int, rtt: int) {
    rtt > 0 && rtt <= MinAfter(minRtt, rtt) + TruncDiv(MinAfter(minRtt, rtt), 2)
  }

  function Smooth(prev: int, sample: int, weight: int): int
    requires weight > 0
  {
    prev + TruncDiv(sample - prev, weight)
  }

  function Probe(m: Metrics, offset: int, rtt: int): Metrics {
    if rtt <= 0 then m
    else
      var seen := m.(minRtt := MinAfter(m.minRtt, rtt), rtt := rtt);
      if !Accepts(m.minRtt, rtt) then seen
      else seen.(offset := if m.haveOffset then Smooth(m.offset, offset, 4) else offset, haveOffset := true)
  }

  function AudioPacket(m: Metrics, recv: int, send: int): Metrics {
    if !m.haveOffset then m
    else
      var sample := WrapI64(recv - send + m.offset);
      if !(ONE_WAY_MIN <= sample <= ONE_WAY_MAX) then m
      else m.(oneWay := if m.haveOneWay then Smooth(m.oneWay, sample, 8) else sample, haveOneWay := true)
  }

  /** The shared metrics object; every field is one atomic of the source. */
  class AudioMetrics {
    var minRtt: int
    var rtt: int
    var offset: int
    var haveOffset: bool
    var oneWay: int
    var haveOneWay: bool

    ghost function Values(): Metrics
      reads this
    {
      Metrics(minRtt, rtt, offset, haveOffset, oneWay, haveOneWay)
    }

    constructor ()
      ensures Values() == FRESH
    {
      minRtt, rtt, offset, haveOffset, oneWay, haveOneWay := I64_MAX, 0, 0, false, 0, false;
    }

    method RecordProbe(offsetNs: int, rttNs: int)
      modifies this`minRtt, this`rtt, this`offset, this`haveOffset
      ensures Values() == Probe(old(Values()), offsetNs, rttNs)
    {
      if rttNs <= 0 {
        return;
      }
      var prevMin := minRtt;
      var relaxed := if prevMin == I64_MAX then rttNs else prevMin + TruncDiv(prevMin, 64);
      var lowest := if rttNs < relaxed then rttNs else relaxed;
      minRtt := lowest;
      rtt := rttNs;
      if rttNs > lowest + TruncDiv(lowest, 2) {
        return;
      }
      var next := offsetNs;
      if haveOffset {
        next := offset + TruncDiv(offsetNs - offset, 4);
      } else {
        haveOffset := true;
      }
      offset := next;
    }

    method RecordAudioOneWay(recvNs: int, sendNs: int)
      modifies this`oneWay, this`haveOneWay
      ensures Values() == AudioPacket(old(Values()), recvNs, sendNs)
    {
      if !haveOffset {
        return;
      }
      var sample := WrapI64(recvNs - sendNs + offset);
      if !(ONE_WAY_MIN <= sample <= ONE_WAY_MAX) {
        return;
      }
      var next := sample;
      if haveOneWay {
        next := oneWay + TruncDiv(sample - oneWay, 8);
      } else {
        haveOneWay := true;
      }
      oneWay := next;
    }
  }

  // ---- runs ------------------------------------------------------------------------

  /** A probe's round trip is a signed 64-bit number of the source. */
  datatype Sample = ProbeReply(offset: int, rtt: i64) | Packet(recv: int, send: int)

  function Take(m: Metrics, s: Sample): Metrics {
    match s
    case ProbeReply(offset, rtt) => Probe(m, offset, rtt)
    case Packet(recv, send) => AudioPacket(m, recv, send)
  }

  function TakeAll(m: Metrics, run: seq<Sample>): Metrics
    decreases |run|
  {
    if run == [] then m else TakeAll(Take(m, run[0]), run[1..])
  }

  /** The offsets of the probes that were accepted along a run. */
  function Accepted(m: Metrics, run: seq<Sample>): seq<int>
    decreases |run|
  {
    if run == [] then []
    else
      (if run[0].ProbeReply? && Accepts(m.minRtt, run[0].rtt) then [run[0].offset] else [])
      + Accepted(Take(m, run[0]), run[1..])
  }

  lemma SmoothBetween(prev: int, sample: int, weight: int, lo: int, hi: int)
    requires (weight == 4 || weight == 8) && lo <= prev <= hi && lo <= sample <= hi
    ensures lo <= Smooth(prev, sample, weight) <= hi
  {
    TruncShrinks(sample - prev, weight);
  }

  lemma TruncShrinks(a: int, b: int)
    requires b == 4 || b == 8
    ensures a >= 0 ==> 0 <= TruncDiv(a, b) <= a
    ensures a <= 0 ==> a <= TruncDiv(a, b) <= 0
  {
  }

  predicate AllWithin(xs: seq<int>, lo: int, hi: int) {
    forall i :: 0 <= i < |xs| ==> lo <= xs[i] <= hi
  }

  /** The published offset stays inside any range that holds every accepted sample, from the first one on. */
  lemma {:induction false} OffsetWithinSamples(m: Metrics, run: seq<Sample>, lo: int, hi: int)
    requires m.haveOffset ==> lo <= m.offset <= hi
    requires AllWithin(Accepted(m, run), lo, hi)
    ensures TakeAll(m, run).haveOffset <==> m.haveOffset || Accepted(m, run) != []
    ensures TakeAll(m, run).haveOffset ==> lo <= TakeAll(m, run).offset <= hi
    decreases |run|
  {
    hide Smooth, MinAfter, WrapI64, Accepts;
    if run != [] {
      var all, later := Accepted(m, run), Accepted(Take(m, run[0]), run[1..]);
      if run[0].ProbeReply? && Accepts(m.minRtt, run[0].rtt) {
        assert all[0] == run[0].offset && later == all[1..];
        if m.haveOffset {
          SmoothBetween(m.offset, run[0].offset, 4, lo, hi);
        }
        AcceptedIsPositive(m.minRtt, run[0].rtt);
      } else {
        assert all == later;
      }
      OffsetWithinSamples(Take(m, run[0]), run[1..], lo, hi);
    }
  }

  lemma AcceptedIsPositive(minRtt: int, rtt: int)
    requires Accepts(minRtt, rtt)
    ensures rtt > 0
  {
  }

  /** The one-way figure never leaves the plausible range. */
  lemma {:induction false} OneWayInRange(m: Metrics, run: seq<Sample>)
    requires m.haveOneWay ==> ONE_WAY_MIN <= m.oneWay <= ONE_WAY_MAX
    ensures TakeAll(m, run).haveOneWay ==> ONE_WAY_MIN <= TakeAll(m, run).oneWay <= ONE_WAY_MAX
    decreases |run|
  {
    hide Smooth, MinAfter, WrapI64, Accepts;
    if run != [] {
      match run[0] {
        case ProbeReply(_, _) =>
        case Packet(recv, send) =>
          var sample := WrapI64(recv - send + m.offset);
          if m.haveOffset && m.haveOneWay && ONE_WAY_MIN <= sample <= ONE_WAY_MAX {
            SmoothBetween(m.oneWay, sample, 8, ONE_WAY_MIN, ONE_WAY_MAX);
          }
      }
      OneWayInRange(Take(m, run[0]), run[1..]);
    }
  }

  // ---- the running minimum -----------------------------------------------------------

  /** `x` grown by 1/64 of itself `n` times. */
  function Grown(x: real, n: nat): real
    decreases n
  {
    if n == 0 then x else Grown(x * 65.0 / 64.0, n - 1)
  }

  lemma {:induction false} GrownMonotone(x: real, y: real, n: nat)
    requires x <= y
    ensures Grown(x, n) <= Grown(y, n)
    decreases n
  {
    if n > 0 {
      GrownMonotone(x * 65.0 / 64.0, y * 65.0 / 64.0, n - 1);
    }
  }

  lemma CreepsSlowly(minRtt: int, rtt: int)
    requires 0 < rtt <= I64_MAX && 0 < minRtt <= I64_MAX
    ensures 0 < MinAfter(minRtt, rtt) <= rtt
    ensures MinAfter(minRtt, rtt) as real <= minRtt as real * 65.0 / 64.0
  {
    var q := minRtt / 64;
    assert 64 * q <= minRtt;
    assert 64.0 * q as real <= minRtt as real;
  }

  /** The probes of a run that measured a positive round trip; the others change nothing. */
  function Probes(run: seq<Sample>): nat
    decreases |run|
  {
    if run == [] then 0 else (if run[0].ProbeReply? && run[0].rtt > 0 then 1 else 0) + Probes(run[1..])
  }

  /** From a minimum of at most `bound`, each later probe adds at most 1/64; audio packets add nothing. */
  lemma {:induction false} MinimumCreeps(m: Metrics, run: seq<Sample>, bound: real)
    requires 0 < m.minRtt <= I64_MAX && m.minRtt as real <= bound
    ensures 0 < TakeAll(m, run).minRtt <= I64_MAX
    ensures TakeAll(m, run).minRtt as real <= Grown(bound, Probes(run))
    decreases |run|
  {
    hide Smooth, MinAfter, WrapI64, Accepts;
    if run != [] {
      var next := Take(m, run[0]);
      if run[0].ProbeReply? && run[0].rtt > 0 {
        CreepsSlowly(m.minRtt, run[0].rtt);
        MinimumCreeps(next, run[1..], bound * 65.0 / 64.0);
      } else {
        MinimumCreeps(next, run[1..], bound);
      }
    }
  }

  lemma {:induction false} TakeAllAppend(m: Metrics, a: seq<Sample>, b: seq<Sample>)
    ensures TakeAll(m, a + b) == TakeAll(TakeAll(m, a), b)
    decreases |a|
  {
    hide Take;
    if a == [] {
      assert a + b == b;
    } else {
      assert (a + b)[1..] == a[1..] + b;
      TakeAllAppend(Take(m, a[0]), a[1..], b);
    }
  }

  /** A positive probe brings the minimum down to its own round trip, if it was not lower. */
  lemma ProbeLowers(m: Metrics, s: Sample)
    requires 0 < m.minRtt <= I64_MAX && s.ProbeReply? && s.rtt > 0
    ensures 0 < Take(m, s).minRtt <= s.rtt
  {
    hide Smooth, Accepts, MinAfter;
    CreepsSlowly(m.minRtt, s.rtt);
  }

  /**
   Over every run of a fresh estimator, and for each of its positive probes, the running minimum
   exceeds that probe's round trip by at most a factor 65/64 per positive probe behind it.
   */
  lemma MinimumBounded(run: seq<Sample>, k: nat)
    requires k < |run| && run[k].ProbeReply? && run[k].rtt > 0
    ensures TakeAll(FRESH, run).minRtt as real <= Grown(run[k].rtt as real, Probes(run[k + 1..]))
  {
    hide Take, TakeAll, Grown, Probes;
    var before := TakeAll(FRESH, run[..k]);
    MinimumCreeps(FRESH, run[..k], I64_MAX as real);
    ProbeLowers(before, run[k]);
    assert run == run[..k] + ([run[k]] + run[k + 1..]);
    TakeAllAppend(FRESH, run[..k], [run[k]] + run[k + 1..]);
    TakeAllCons(before, run[k], run[k + 1..]);
    MinimumCreeps(Take(before, run[k]), run[k + 1..], run[k].rtt as real);
  }

  lemma TakeAllCons(m: Metrics, s: Sample, rest: seq<Sample>)
    ensures TakeAll(m, [s] + rest) == TakeAll(Take(m, s), rest)
  {
    hide Take;
    assert ([s] + rest)[1..] == rest;
  }

  // ---- after a lasting change of the route ---------------------------------------------

  /** The minimum after `n` probes of the same round trip. */
  function MinAfterAll(minRtt: int, rtt: int, n: nat): int
    decreases n
  {
    if n == 0 then minRtt else MinAfterAll(MinAfter(minRtt, rtt), rtt, n - 1)
  }

  lemma Creeps(minRtt: int, rtt: int)
    requires 64 <= minRtt < rtt < I64_MAX
    ensures minRtt < MinAfter(minRtt, rtt) <= rtt
  {
  }

  lemma {:induction false} CreepsUp(minRtt: int, rtt: int) returns (n: nat)
    requires 64 <= minRtt <= rtt < I64_MAX
    ensures n <= rtt - minRtt && MinAfterAll(minRtt, rtt, n) == rtt
    decreases rtt - minRtt
  {
    if minRtt == rtt {
      n := 0;
    } else {
      Creeps(minRtt, rtt);
      var k := CreepsUp(MinAfter(minRtt, rtt), rtt);
      n := k + 1;
    }
  }

  /** From 64 ns on the distance to 63 ns grows by a factor 65/64 per probe, until the new round trip is reached. */
  lemma {:induction false} CreepsGeometrically(minRtt: int, rtt: int, n: nat)
    requires 64 <= minRtt <= rtt < I64_MAX
    ensures minRtt <= MinAfterAll(minRtt, rtt, n) <= rtt
    ensures Grown((minRtt - 63) as real, n) >= (rtt - 63) as real ==> MinAfterAll(minRtt, rtt, n) == rtt
    decreases n
  {
    if n > 0 {
      var next := MinAfter(minRtt, rtt);
      OneCreep(minRtt, rtt);
      CreepsGeometrically(next, rtt, n - 1);
      if next < rtt {
        GrownMonotone((minRtt - 63) as real * 65.0 / 64.0, (next - 63) as real, n - 1);
      } else {
        StaysAtRoundTrip(rtt, n - 1);
      }
    }
  }

  lemma OneCreep(minRtt: int, rtt: int)
    requires 64 <= minRtt <= rtt < I64_MAX
    ensures minRtt <= MinAfter(minRtt, rtt) <= rtt
    ensures MinAfter(minRtt, rtt) < rtt ==>
              (MinAfter(minRtt, rtt) - 63) as real >= (minRtt - 63) as real * 65.0 / 64.0
  {
    var q := minRtt / 64;
    assert 64 * q + 63 >= minRtt;
    assert 64.0 * q as real + 63.0 >= minRtt as real;
  }

  lemma {:induction false} StaysAtRoundTrip(rtt: int, n: nat)
    requires 64 <= rtt < I64_MAX
    ensures MinAfterAll(rtt, rtt, n) == rtt
    decreases n
  {
    if n > 0 {
      StaysAtRoundTrip(rtt, n - 1);
    }
  }

  /** Below 64 ns the minimum has nothing to creep by. */
  lemma {:induction false} StuckBelow64(minRtt: int, rtt: int, n: nat)
    requires 0 < minRtt < 64 && minRtt < rtt < I64_MAX
    ensures MinAfterAll(minRtt, rtt, n) == minRtt
    decreases n
  {
    if n > 0 {
      assert MinAfter(minRtt, rtt) == minRtt;
      StuckBelow64(minRtt, rtt, n - 1);
    }
  }

  /** Some later probe of this round trip is accepted. */
  ghost predicate AcceptedAgain(minRtt: int, rtt: int) {
    exists n: nat :: Accepts(MinAfterAll(minRtt, rtt, n), rtt)
  }

  lemma AcceptedAfter(minRtt: int, rtt: int, n: nat)
    requires Accepts(MinAfterAll(minRtt, rtt, n), rtt)
    ensures AcceptedAgain(minRtt, rtt)
  {
  }

  /**
   When the round trip settles at a new value, some later probe is accepted if and only if
   the minimum is at least 64 ns or the new value is acceptable right away.
   */
  lemma AcceptedAgainIff(minRtt: int, rtt: int)
    requires 0 < minRtt < I64_MAX && 0 < rtt < I64_MAX
    ensures AcceptedAgain(minRtt, rtt) <==> minRtt >= 64 || Accepts(minRtt, rtt)
  {
    if Accepts(minRtt, rtt) {
      AcceptedAfter(minRtt, rtt, 0);
    } else if minRtt >= 64 {
      var n := CreepsUp(minRtt, rtt);
      AcceptedAfter(minRtt, rtt, n);
    } else {
      forall n: nat
        ensures !Accepts(MinAfterAll(minRtt, rtt, n), rtt)
      {
        StuckBelow64(minRtt, rtt, n);
      }
    }
  }

  // ---- convergence -----------------------------------------------------------------------

  function Abs(n: int): nat {
    if n < 0 then -n else n
  }

  /** The offset after `n` accepted probes that all measure `sample`. */
  function Settled(offset: int, sample: int, n: nat): int
    decreases n
  {
    if n == 0 then offset else Settled(Smooth(offset, sample, 4), sample, n - 1)
  }

  lemma ErrorShrinks(offset: int, sample: int)
    ensures var before, after := Abs(sample - offset), Abs(sample - Smooth(offset, sample, 4));
            if before < 4 then Smooth(offset, sample, 4) == offset else after == before - before / 4
  {
  }

  /** `x` reduced to three quarters `n` times. */
  function Shrunk(x: real, n: nat): real
    decreases n
  {
    if n == 0 then x else Shrunk(x * 3.0 / 4.0, n - 1)
  }

  lemma {:induction false} ShrunkMonotone(x: real, y: real, n: nat)
    requires x <= y
    ensures Shrunk(x, n) <= Shrunk(y, n)
    decreases n
  {
    if n > 0 {
      ShrunkMonotone(x * 3.0 / 4.0, y * 3.0 / 4.0, n - 1);
    }
  }

  /** Above 3 ns, a measurement reduces the rest of the error to at most three quarters. */
  lemma ThreeQuarters(offset: int, sample: int)
    requires Abs(sample - offset) >= 4
    ensures (Abs(sample - Smooth(offset, sample, 4)) - 3) as real <= (Abs(sample - offset) - 3) as real * 3.0 / 4.0
  {
    hide Smooth;
    ErrorShrinks(offset, sample);
    var e := Abs(sample - offset);
    assert 4 * (e / 4) + 3 >= e;
    assert 4.0 * (e / 4) as real + 3.0 >= e as real;
  }

  /** `n` measurements settle an error: one per nanosecond, or so many that three quarters `n` times leave less than 1 ns above 3. */
  predicate Enough(error: nat, n: nat) {
    n >= error || Shrunk((error - 3) as real, n) < 1.0
  }

  /** Repeating one measurement brings the offset within 4 ns of it, the error above 3 ns shrinking by 3/4 each time. */
  lemma {:induction false} OffsetConverges(offset: int, sample: int, n: nat)
    requires Enough(Abs(sample - offset), n)
    ensures Abs(sample - Settled(offset, sample, n)) < 4
    decreases n
  {
    hide Smooth;
    if Abs(sample - offset) < 4 {
      StaysSettled(offset, sample, n);
    } else if n > 0 {
      var next := Smooth(offset, sample, 4);
      ErrorShrinks(offset, sample);
      ThreeQuarters(offset, sample);
      ShrunkMonotone((Abs(sample - next) - 3) as real, (Abs(sample - offset) - 3) as real * 3.0 / 4.0, n - 1);
      OffsetConverges(next, sample, n - 1);
    }
  }

  lemma {:induction false} StaysSettled(offset: int, sample: int, n: nat)
    requires Abs(sample - offset) < 4
    ensures Settled(offset, sample, n) == offset
    decreases n
  {
    if n > 0 {
      ErrorShrinks(offset, sample);
      StaysSettled(offset, sample, n - 1);
    }
  }

  lemma {:induction false} ProbesSettle(m: Metrics, sample: int, rtts: seq<int>)
    requires m.haveOffset && AllAccepted(m.minRtt, rtts)
    ensures ProbeAll(m, sample, rtts).haveOffset
    ensures ProbeAll(m, sample, rtts).offset == Settled(m.offset, sample, |rtts|)
    decreases |rtts|
  {
    hide Smooth, MinAfter;
    if rtts != [] {
      ProbesSettle(Probe(m, sample, rtts[0]), sample, rtts[1..]);
    }
  }

  /**
   The same on the estimator: accepted probes that all measure one offset bring the published
   one within 4 ns of it, at once when none was known.
   */
  lemma ProbesConverge(m: Metrics, sample: int, rtts: seq<int>)
    requires AllAccepted(m.minRtt, rtts) && rtts != []
    requires m.haveOffset ==> Enough(Abs(sample - m.offset), |rtts|)
    ensures ProbeAll(m, sample, rtts).haveOffset
    ensures Abs(sample - ProbeAll(m, sample, rtts).offset) < 4
  {
    hide Smooth, MinAfter, Enough, Settled;
    if m.haveOffset {
      ProbesSettle(m, sample, rtts);
      OffsetConverges(m.offset, sample, |rtts|);
    } else {
      ProbesSettle(Probe(m, sample, rtts[0]), sample, rtts[1..]);
      StaysSettled(sample, sample, |rtts| - 1);
    }
  }

  predicate AllAccepted(minRtt: int, rtts: seq<int>)
    decreases |rtts|
  {
    rtts != [] ==> Accepts(minRtt, rtts[0]) && AllAccepted(MinAfter(minRtt, rtts[0]), rtts[1..])
  }

  function ProbeAll(m: Metrics, offset: int, rtts: seq<int>): Metrics
    decreases |rtts|
  {
    if rtts == [] then m else ProbeAll(Probe(m, offset, rtts[0]), offset, rtts[1..])
  }
}
