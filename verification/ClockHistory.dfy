/** The clock estimator read off its measurements, and where its figures settle. */
module ClockHistory {
  import opened Decimal
  import opened ClockOffset

  // ---- one measurement ---------------------------------------------------------------

  /** `next` lies one `weight`th of the way from `prev` to `sample`, rounded towards `prev`. */
  predicate Moves(prev: int, sample: int, weight: int, next: int) {
    && (sample >= prev ==> 0 <= sample - prev - weight * (next - prev) < weight)
    && (sample <= prev ==> 0 <= prev - sample - weight * (prev - next) < weight)
  }

  lemma SmoothMoves(prev: int, sample: int)
    ensures Moves(prev, sample, 4, Smooth(prev, sample, 4)) && Moves(prev, sample, 8, Smooth(prev, sample, 8))
  {
  }

  /** A figure that takes its first sample as it is and moves towards later ones. */
  predicate Follows(had: bool, prev: int, sample: int, weight: int, has: bool, next: int) {
    has && if had then Moves(prev, sample, weight, next) else next == sample
  }

  /**
   A positive round trip is shown, lowers the minimum to itself or lets it creep by a sixty-fourth, and moves
   the offset if and only if it is at most one and a half times the new minimum. No other probe does anything.
   */
  lemma ProbeMeaning(m: Metrics, offset: int, rtt: int)
    requires 0 < m.minRtt <= I64_MAX
    ensures var m' := Probe(m, offset, rtt);
            if rtt <= 0 then m' == m
            else
              && m'.rtt == rtt && m'.oneWay == m.oneWay && m'.haveOneWay == m.haveOneWay
              && (m'.minRtt == rtt || (m.minRtt < I64_MAX && m'.minRtt < rtt && 0 <= 65 * m.minRtt - 64 * m'.minRtt < 64))
              && m'.minRtt <= rtt && (m.minRtt < I64_MAX ==> 64 * m'.minRtt <= 65 * m.minRtt)
              && if 2 * rtt <= 3 * m'.minRtt then Follows(m.haveOffset, m.offset, offset, 4, m'.haveOffset, m'.offset)
                 else m'.offset == m.offset && m'.haveOffset == m.haveOffset
  {
    if rtt > 0 {
      hide Smooth;
      SmoothMoves(m.offset, offset);
      Creep(m.minRtt, rtt);
      Gate(m.minRtt, rtt);
    }
  }

  lemma Creep(minRtt: int, rtt: int)
    requires 0 < rtt && 0 < minRtt <= I64_MAX
    ensures var after := MinAfter(minRtt, rtt);
            && 0 < after <= rtt
            && (after == rtt || (minRtt < I64_MAX && 0 <= 65 * minRtt - 64 * after < 64))
            && (minRtt < I64_MAX ==> 64 * after <= 65 * minRtt)
  {
    var q := minRtt / 64;
    assert 64 * q <= minRtt < 64 * q + 64;
  }

  lemma Gate(minRtt: int, rtt: int)
    requires 0 < rtt && 0 < minRtt <= I64_MAX
    ensures Accepts(minRtt, rtt) <==> 2 * rtt <= 3 * MinAfter(minRtt, rtt)
  {
    Creep(minRtt, rtt);
    hide MinAfter;
  }

  /** The one-way delay of a packet by the offset in force; nothing without one. */
  predicate Plausible(m: Metrics, delay: int) {
    m.haveOffset && -1_000_000_000 <= delay <= 5_000_000_000
  }

  /** A plausible delay moves the one-way figure and nothing else; any other packet does nothing. */
  lemma PacketMeaning(m: Metrics, recv: int, send: int)
    requires -I64_LIMIT <= recv - send + m.offset < I64_LIMIT
    ensures var m', delay := AudioPacket(m, recv, send), recv - send + m.offset;
            if Plausible(m, delay) then
              && m'.(oneWay := m.oneWay, haveOneWay := m.haveOneWay) == m
              && Follows(m.haveOneWay, m.oneWay, delay, 8, m'.haveOneWay, m'.oneWay)
            else m' == m
  {
    hide Smooth;
    SmoothMoves(m.oneWay, recv - send + m.offset);
  }

  // ---- whole runs --------------------------------------------------------------------------

  /** The last positive round trip of a run, or what was shown before. */
  function LastRoundTrip(run: seq<Sample>, before: int): int
    decreases |run|
  {
    if run == [] then before
    else
      var s := run[|run| - 1];
      if s.ProbeReply? && s.rtt > 0 then s.rtt else LastRoundTrip(run[..|run| - 1], before)
  }

  predicate Floor(run: seq<Sample>, lo: int) {
    forall k :: 0 <= k < |run| && run[k].ProbeReply? && run[k].rtt > 0 ==> lo <= run[k].rtt
  }

  lemma TakeAllSnoc(m: Metrics, run: seq<Sample>, s: Sample)
    ensures TakeAll(m, run + [s]) == Take(TakeAll(m, run), s)
  {
    hide Take;
    TakeAllAppend(m, run, [s]);
    assert [s] == [s] + [];
    TakeAllCons(TakeAll(m, run), s, []);
  }

  /** The shown round trip is the last positive one, and the minimum never falls below every one of them. */
  lemma {:induction false} RoundTripsShown(run: seq<Sample>, lo: int)
    requires Floor(run, lo) && lo <= I64_MAX
    ensures var m := TakeAll(FRESH, run);
            m.rtt == LastRoundTrip(run, 0) && lo <= m.minRtt && 0 < m.minRtt <= I64_MAX
    decreases |run|
  {
    hide Take;
    if run != [] {
      var n := |run| - 1;
      RoundTripsShown(run[..n], lo);
      assert run == run[..n] + [run[n]];
      TakeAllSnoc(FRESH, run[..n], run[n]);
      OneShown(TakeAll(FRESH, run[..n]), run[n], lo);
    }
  }

  lemma OneShown(m: Metrics, s: Sample, lo: int)
    requires lo <= m.minRtt && 0 < m.minRtt <= I64_MAX
    requires s.ProbeReply? && s.rtt > 0 ==> lo <= s.rtt
    ensures var m' := Take(m, s);
            && m'.rtt == (if s.ProbeReply? && s.rtt > 0 then s.rtt else m.rtt)
            && lo <= m'.minRtt && 0 < m'.minRtt <= I64_MAX
  {
    hide Smooth, WrapI64;
    if s.ProbeReply? && s.rtt > 0 {
      Creep(m.minRtt, s.rtt);
    }
  }

  // ---- where the one-way figure settles ----------------------------------------------------

  /** Packets that all show one delay. */
  predicate SameDelay(packets: seq<(int, int)>, offset: int, delay: int) {
    forall k :: 0 <= k < |packets| ==> packets[k].0 - packets[k].1 + offset == delay
  }

  function PacketAll(m: Metrics, packets: seq<(int, int)>): Metrics
    decreases |packets|
  {
    if packets == [] then m else PacketAll(AudioPacket(m, packets[0].0, packets[0].1), packets[1..])
  }

  lemma Nearer(prev: int, delay: int, next: int)
    requires Moves(prev, delay, 8, next)
    ensures if Abs(delay - prev) < 8 then next == prev
            else Abs(delay - next) == Abs(delay - prev) - Abs(delay - prev) / 8
  {
  }

  /** One plausible delay, measured again and again, brings the figure within 8 ns of it; at once when none was known. */
  lemma {:induction false} OneWayConverges(m: Metrics, packets: seq<(int, int)>, delay: int)
    requires Plausible(m, delay) && SameDelay(packets, m.offset, delay) && packets != []
    requires m.haveOneWay ==> Abs(delay - m.oneWay) < 8 || |packets| >= Abs(delay - m.oneWay)
    ensures var m' := PacketAll(m, packets);
            m'.haveOneWay && Abs(delay - m'.oneWay) < 8 && m'.offset == m.offset && m'.haveOffset
    decreases |packets|
  {
    hide AudioPacket, Moves;
    var p, next := packets[0], AudioPacket(m, packets[0].0, packets[0].1);
    assert p.0 - p.1 + m.offset == delay;
    PacketMeaning(m, p.0, p.1);
    if m.haveOneWay {
      Nearer(m.oneWay, delay, next.oneWay);
    }
    if |packets| > 1 {
      OneWayConverges(next, packets[1..], delay);
    } else {
      assert packets[1..] == [];
    }
  }
}
