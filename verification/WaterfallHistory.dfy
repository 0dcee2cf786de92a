/** Waterfall reassembly for any payloads at all: what was received decides the buffer and every emission. */
module WaterfallHistory {
  import opened Wrappers
  import opened Decimal
  import opened Waterfall
  import opened WaterfallLaws

  // ---- the wire --------------------------------------------------------------------------

  lemma FromLe32RoundTrip(b0: byte, b1: byte, b2: byte, b3: byte)
    ensures Le32(FromLe32(b0, b1, b2, b3)) == [b0, b1, b2, b3]
  {
    var rest := b1 + 0x100 * (b2 + 0x100 * b3);
    assert (b0 + 0x100 * rest) / 0x100 == rest;
    assert rest / 0x100 == b2 + 0x100 * b3;
  }

  lemma {:induction false} BytesRoundTrip(data: seq<byte>)
    requires |data| % 4 == 0
    ensures BinBytes(BinsOf(data)) == data
    decreases |data|
  {
    hide Le32, FromLe32;
    if data != [] {
      FromLe32RoundTrip(data[0], data[1], data[2], data[3]);
      BytesRoundTrip(data[4..]);
      assert BinsOf(data)[1..] == BinsOf(data[4..]);
      assert data == data[..4] + data[4..] && data[..4] == [data[0], data[1], data[2], data[3]];
    }
  }

  lemma FromBe16RoundTrip(hi: byte, lo: byte)
    ensures Be16(FromBe16(hi, lo)) == [hi, lo]
  {
  }

  /** A payload decodes exactly when it is the encoding of a chunk that fits its row, and then to that chunk. */
  lemma DecodesIffEncoded(payload: seq<byte>, c: Chunk)
    ensures Decode(payload) == Some(c) <==> Fits(c) && payload == Encode(c)
  {
    if Fits(c) {
      ChunkRoundTrip(c);
    }
    if Decode(payload) == Some(c) {
      hide BinsOf, BinBytes, Be16, FromBe16;
      BytesRoundTrip(payload[6..]);
      FromBe16RoundTrip(payload[0], payload[1]);
      FromBe16RoundTrip(payload[2], payload[3]);
      FromBe16RoundTrip(payload[4], payload[5]);
      assert payload == [payload[0], payload[1]] + [payload[2], payload[3]] + [payload[4], payload[5]] + payload[6..];
    }
  }

  lemma {:induction false} BinBytesAt(bins: seq<Bin>, k: nat)
    requires k < |bins|
    ensures BinBytes(bins)[4 * k..4 * k + 4] == Le32(bins[k])
    decreases k
  {
    hide Le32;
    var bytes := BinBytes(bins);
    if k == 0 {
      assert bytes[..4] == Le32(bins[0]);
    } else {
      BinBytesAt(bins[1..], k - 1);
      assert bytes[4..] == BinBytes(bins[1..]);
      assert bytes[4 * k..4 * k + 4] == bytes[4..][4 * (k - 1)..4 * (k - 1) + 4];
    }
  }

  function Big(hi: int, lo: int): int {
    0x100 * hi + lo
  }

  function Little(b0: int, b1: int, b2: int, b3: int): int {
    b0 + 0x100 * b1 + 0x1_0000 * b2 + 0x100_0000 * b3
  }

  lemma Le32Meaning(bin: Bin)
    ensures var b := Le32(bin); Little(b[0], b[1], b[2], b[3]) == bin
  {
  }

  /** Three 16-bit numbers, most significant byte first, then bins of four bytes each, least significant first. */
  lemma EncodingMeaning(c: Chunk)
    ensures var p := Encode(c);
            && |p| == 6 + 4 * |c.bins|
            && Big(p[0], p[1]) == c.row && Big(p[2], p[3]) == c.total && Big(p[4], p[5]) == c.offset
            && forall k :: 0 <= k < |c.bins| ==>
                 Little(p[6 + 4 * k], p[7 + 4 * k], p[8 + 4 * k], p[9 + 4 * k]) == c.bins[k]
  {
    hide BinBytes, Le32;
    var p := Encode(c);
    forall k | 0 <= k < |c.bins|
      ensures Little(p[6 + 4 * k], p[7 + 4 * k], p[8 + 4 * k], p[9 + 4 * k]) == c.bins[k]
    {
      BinBytesAt(c.bins, k);
      Le32Meaning(c.bins[k]);
      var quad := BinBytes(c.bins)[4 * k..4 * k + 4];
      assert forall i :: 0 <= i < 4 ==> p[6 + 4 * k + i] == quad[i];
    }
  }

  /** A bin is finite exactly when its magnitude lies below the bit pattern of infinity. */
  lemma FiniteMeaning(bin: Bin)
    ensures Finite(bin) <==> bin % 0x8000_0000 < 0x7F80_0000
  {
    assert bin == 0x8000_0000 * (bin / 0x8000_0000) + bin % 0x8000_0000;
    var magnitude := bin % 0x8000_0000;
    assert bin / 0x80_0000 == 0x100 * (bin / 0x8000_0000) + magnitude / 0x80_0000;
  }

  /** A counter is so many steps on, less a number of times its width, and stays below it. */
  lemma {:induction false} AdvanceMeaning(n: nat, steps: nat, limit: nat) returns (wraps: nat)
    requires n < limit
    ensures Advance(n, steps, limit) == n + steps - limit * wraps && 0 <= Advance(n, steps, limit) < limit
    decreases steps
  {
    if steps == 0 {
      wraps := 0;
    } else {
      wraps := AdvanceMeaning(Next(n, limit), steps - 1, limit);
      if n + 1 == limit {
        assert limit * (wraps + 1) == limit * wraps + limit;
        wraps := wraps + 1;
      }
    }
  }

  lemma AdvanceStep(n: nat, steps: nat, limit: nat)
    requires n < limit && steps > 0
    ensures Advance(n, steps, limit) == Advance(Next(n, limit), steps - 1, limit)
  {
    hide Next;
  }

  lemma PacketsStep(chunks: seq<Chunk>, sequence: u32, timestamp: u64, k: nat)
    requires k < |chunks|
    ensures var p := Packets(chunks, sequence, timestamp)[k];
            if k == 0 then p.sequence == sequence && p.timestamp == timestamp
            else p == Packets(chunks[1..], Next(sequence, U32_LIMIT), Next(timestamp, U64_LIMIT))[k - 1]
  {
    hide Next, Encode;
  }

  /** Packet `k` of a row carries the counters `k` steps on. */
  lemma {:induction false} PacketsAreNumbered(chunks: seq<Chunk>, sequence: u32, timestamp: u64, k: nat)
    requires k < |chunks|
    ensures var p := Packets(chunks, sequence, timestamp)[k];
            p.sequence == Advance(sequence, k, U32_LIMIT) && p.timestamp == Advance(timestamp, k, U64_LIMIT)
    decreases k
  {
    hide Next, Packets, Advance;
    PacketsStep(chunks, sequence, timestamp, k);
    if k == 0 {
      NoSteps(sequence, U32_LIMIT);
      NoSteps(timestamp, U64_LIMIT);
    } else {
      AdvanceStep(sequence, k, U32_LIMIT);
      AdvanceStep(timestamp, k, U64_LIMIT);
      PacketsAreNumbered(chunks[1..], Next(sequence, U32_LIMIT), Next(timestamp, U64_LIMIT), k - 1);
    }
  }

  lemma NoSteps(n: nat, limit: nat)
    requires n < limit
    ensures Advance(n, 0, limit) == n
  {
  }

  // ---- the chunks that count ----------------------------------------------------------------

  /** How many bins were received in chunks without a bad bin. */
  function Tally(cs: seq<Chunk>): nat
    decreases |cs|
  {
    if cs == [] then 0
    else Tally(cs[..|cs| - 1]) + if AllFinite(cs[|cs| - 1].bins) then |cs[|cs| - 1].bins| else 0
  }

  /** The chunks of a row up to the one that completes it. */
  function Live(cs: seq<Chunk>, total: nat): seq<Chunk>
    decreases |cs|
  {
    if cs == [] then []
    else
      var before := Live(cs[..|cs| - 1], total);
      if Tally(before) < total then before + [cs[|cs| - 1]] else before
  }

  /** A chunk writes a place when it has a bin for it and every bin up to that one is finite. */
  predicate Writes(c: Chunk, j: nat) {
    c.offset <= j < c.offset + |c.bins| && forall k :: 0 <= k <= j - c.offset ==> Finite(c.bins[k])
  }

  /** The bin last written to a place, or zero. */
  function LastWritten(cs: seq<Chunk>, j: nat): Bin
    decreases |cs|
  {
    if cs == [] then 0
    else
      var c := cs[|cs| - 1];
      if Writes(c, j) then c.bins[j - c.offset] else LastWritten(cs[..|cs| - 1], j)
  }

  /** The assembly that chunks of one row stand for. */
  predicate Shows(s: Assembly, cs: seq<Chunk>) {
    if cs == [] then s == NOTHING
    else
      var live := Live(cs, cs[0].total);
      && s.row == Some(cs[0].row) && s.total == cs[0].total == |s.buf|
      && s.filled == Tally(live) && (s.done <==> Tally(live) >= s.total)
      && forall j :: 0 <= j < s.total ==> s.buf[j] == LastWritten(live, j)
  }

  // ---- one chunk ------------------------------------------------------------------------------

  lemma {:induction false} WrittenAt(buf: seq<Bin>, c: Chunk, from: nat, j: nat)
    requires c.offset + |c.bins| <= |buf| && j < |buf| && from <= |c.bins|
    requires forall k :: 0 <= k < from ==> Finite(c.bins[k])
    ensures Written(buf, c.offset + from, c.bins[from..])[j]
            == if Writes(c, j) && j >= c.offset + from then c.bins[j - c.offset] else buf[j]
    decreases |c.bins| - from
  {
    hide Finite;
    if from < |c.bins| && Finite(c.bins[from]) {
      var next := buf[c.offset + from := c.bins[from]];
      CopyOne(buf, c.offset + from, c.bins[from..]);
      assert c.bins[from..][1..] == c.bins[from + 1..];
      WrittenAt(next, c, from + 1, j);
    }
  }

  lemma WrittenLast(buf: seq<Bin>, c: Chunk, j: nat)
    requires c.offset + |c.bins| <= |buf| && j < |buf|
    ensures Written(buf, c.offset, c.bins)[j] == if Writes(c, j) then c.bins[j - c.offset] else buf[j]
  {
    hide Written;
    WrittenAt(buf, c, 0, j);
    assert c.bins[0..] == c.bins;
  }

  /** The chunks of the row behind `c`: it goes on with a row or starts one. */
  function Behind(cs: seq<Chunk>, c: Chunk): seq<Chunk> {
    if GoesOn(cs, c) then cs + [c] else [c]
  }

  /** The bins counted before `c` came. */
  function TallyBefore(cs: seq<Chunk>, c: Chunk): nat {
    if GoesOn(cs, c) then Tally(Live(cs, c.total)) else 0
  }

  lemma LiveSnoc(cs: seq<Chunk>, c: Chunk, total: nat)
    ensures Live(cs + [c], total)
            == if Tally(Live(cs, total)) < total then Live(cs, total) + [c] else Live(cs, total)
  {
    assert (cs + [c])[..|cs|] == cs;
  }

  lemma TallySnoc(live: seq<Chunk>, c: Chunk)
    ensures Tally(live + [c]) == Tally(live) + if AllFinite(c.bins) then |c.bins| else 0
  {
    hide AllFinite;
    assert (live + [c])[..|live|] == live;
  }

  lemma LastSnoc(live: seq<Chunk>, c: Chunk, j: nat)
    ensures LastWritten(live + [c], j) == if Writes(c, j) then c.bins[j - c.offset] else LastWritten(live, j)
  {
    hide Finite;
    assert (live + [c])[..|live|] == live;
  }

  /** The opened assembly shows the chunks before `c`. */
  predicate OpenShows(o: Assembly, live: seq<Chunk>, c: Chunk) {
    && o.row == Some(c.row) && o.total == c.total == |o.buf|
    && o.filled == Tally(live) && (o.done <==> Tally(live) >= c.total)
    && forall j :: 0 <= j < c.total ==> o.buf[j] == LastWritten(live, j)
  }

  lemma OpensShown(s: Assembly, cs: seq<Chunk>, c: Chunk)
    requires Shows(s, cs) && Fits(c)
    ensures OpenShows(Opened(s, c), if GoesOn(cs, c) then Live(cs, c.total) else [], c)
  {
    hide Live;
    if !GoesOn(cs, c) {
      assert !SameRow(s, c);
    }
  }

  /** A chunk is written and counted until the row is complete; the one that completes it emits the buffer. */
  lemma AddsShown(s: Assembly, c: Chunk, live: seq<Chunk>)
    requires Valid(s) && Fits(c) && OpenShows(Opened(s, c), live, c)
    ensures var after := if Tally(live) < c.total then live + [c] else live;
            var (t, emitted) := Add(s, c);
            && OpenShows(t, after, c)
            && emitted == if Tally(live) < c.total <= Tally(after) then Some(t.buf) else None
  {
    hide Finite, Written, Tally, LastWritten, Writes;
    var o := Opened(s, c);
    TallySnoc(live, c);
    if o.done {
      DoneStaysOpen(s, c);
    } else {
      forall j | 0 <= j < c.total
        ensures Written(o.buf, c.offset, c.bins)[j] == LastWritten(live + [c], j)
      {
        WrittenLast(o.buf, c, j);
        LastSnoc(live, c, j);
      }
    }
  }

  lemma ShownBehind(s: Assembly, cs: seq<Chunk>, c: Chunk)
    requires Shows(s, cs) && Valid(s) && Fits(c)
    ensures var (t, emitted) := Add(s, c);
            && Shows(t, Behind(cs, c))
            && emitted == if TallyBefore(cs, c) < c.total <= Tally(Live(Behind(cs, c), c.total)) then Some(t.buf) else None
  {
    hide Add, Live, Tally, LastWritten, Opened;
    var before := if GoesOn(cs, c) then cs else [];
    var live := Live(before, c.total);
    NoneLive(c.total);
    OpensShown(s, cs, c);
    AddsShown(s, c, live);
    LiveSnoc(before, c, c.total);
    assert before + [c] == Behind(cs, c) && Behind(cs, c)[0].row == c.row && Behind(cs, c)[0].total == c.total;
  }

  lemma NoneLive(total: nat)
    ensures Live([], total) == [] && Tally([]) == 0
  {
  }

  // ---- any run ----------------------------------------------------------------------------------

  /**
   Whatever payloads came, the assembly shows the chunks since the row last changed: every place holds the last
   finite bin written to it before the row was complete, chunks with a bad bin are written up to it but not
   counted, and the row is done when the count reaches its size.
   */
  lemma {:induction false} ReceivedDecides(payloads: seq<seq<byte>>)
    ensures Shows(Receive(NOTHING, payloads).0, CurrentRow(payloads))
    decreases |payloads|
  {
    hide Push, Shows, Decode;
    if payloads == [] {
      assert Shows(NOTHING, []) by { NothingShown(); }
    } else {
      var before, payload := payloads[..|payloads| - 1], payloads[|payloads| - 1];
      ReceivedDecides(before);
      assert payloads == before + [payload];
      ReceiveOneMore(before, payload);
      PushShows(Receive(NOTHING, before).0, CurrentRow(before), payload);
    }
  }

  lemma NothingShown()
    ensures Shows(NOTHING, [])
  {
  }

  lemma PushShows(s: Assembly, cs: seq<Chunk>, payload: seq<byte>)
    requires Valid(s) && Shows(s, cs)
    ensures match Decode(payload)
            case None => Push(s, payload) == (s, None)
            case Some(c) =>
              && Shows(Push(s, payload).0, Behind(cs, c))
              && Push(s, payload).1
                 == if TallyBefore(cs, c) < c.total <= Tally(Live(Behind(cs, c), c.total))
                    then Some(Push(s, payload).0.buf) else None
  {
    hide Shows, Add, Decode, Live, Tally;
    match Decode(payload)
    case None =>
    case Some(c) => ShownBehind(s, cs, c);
  }

  /** And it emits its buffer exactly with the payload whose chunk brings the count to the row's size. */
  lemma EmissionDecided(payloads: seq<seq<byte>>, payload: seq<byte>)
    ensures var s, cs := Receive(NOTHING, payloads).0, CurrentRow(payloads);
            match Decode(payload)
            case None => Push(s, payload) == (s, None)
            case Some(c) =>
              Push(s, payload).1
              == if TallyBefore(cs, c) < c.total <= Tally(Live(Behind(cs, c), c.total))
                 then Some(Push(s, payload).0.buf) else None
  {
    hide Push, Shows, Decode, Live, Tally, Behind, TallyBefore, Receive, CurrentRow;
    ReceivedDecides(payloads);
    PushShows(Receive(NOTHING, payloads).0, CurrentRow(payloads), payload);
  }
}
