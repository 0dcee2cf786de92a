/**
 Waterfall rows over UDP: the server's split into chunks (rigflow-server/src/net/udp/udp_waterfall.rs)
 and the client's reassembly (rigflow-client/src/net/udp.rs). A bin is the bit pattern of an `f32`.
 */
module Waterfall {
  import opened Wrappers
  import opened Decimal

  type byte = n: int | 0 <= n < 0x100
  type u16 = n: int | 0 <= n < 0x1_0000
  type Bin = n: int | 0 <= n < 0x1_0000_0000

  /** `is_finite`: the exponent field is not all ones. */
  predicate Finite(bin: Bin) {
    bin / 0x80_0000 % 0x100 != 0xFF
  }

  predicate AllFinite(bins: seq<Bin>) {
    forall k :: 0 <= k < |bins| ==> Finite(bins[k])
  }

  // ---- wire format --------------------------------------------------------------------

  function Be16(n: u16): (bytes: seq<byte>)
    ensures |bytes| == 2
  {
    [n / 0x100, n % 0x100]
  }

  function FromBe16(hi: byte, lo: byte): u16 {
    hi * 0x100 + lo
  }

  function Le32(bin: Bin): (bytes: seq<byte>)
    ensures |bytes| == 4
  {
    [bin % 0x100, bin / 0x100 % 0x100, bin / 0x100 / 0x100 % 0x100, bin / 0x100 / 0x100 / 0x100]
  }

  function FromLe32(b0: byte, b1: byte, b2: byte, b3: byte): Bin {
    b0 + 0x100 * (b1 + 0x100 * (b2 + 0x100 * b3))
  }

  function BinBytes(bins: seq<Bin>): (bytes: seq<byte>)
    ensures |bytes| == 4 * |bins|
  {
    if bins == [] then [] else Le32(bins[0]) + BinBytes(bins[1..])
  }

  function BinsOf(data: seq<byte>): (bins: seq<Bin>)
    requires |data| % 4 == 0
    ensures |bins| == |data| / 4
  {
    if data == [] then [] else [FromLe32(data[0], data[1], data[2], data[3])] + BinsOf(data[4..])
  }

  /** A run of a row's bins. */
  datatype Chunk = Chunk(row: u16, total: u16, offset: u16, bins: seq<Bin>)

  /** A chunk of a nonempty row, inside that row. */
  predicate Fits(c: Chunk) {
    0 < c.total && c.offset + |c.bins| <= c.total
  }

  function Encode(c: Chunk): seq<byte> {
    Be16(c.row) + Be16(c.total) + Be16(c.offset) + BinBytes(c.bins)
  }

  /** The chunk a payload carries, unless it is malformed. */
  function Decode(payload: seq<byte>): (c: Option<Chunk>)
    ensures c.Some? ==> Fits(c.value)
  {
    if |payload| < 6 then None
    else
      var total := FromBe16(payload[2], payload[3]);
      var offset := FromBe16(payload[4], payload[5]);
      var data := payload[6..];
      if total == 0 || |data| % 4 != 0 || offset + |data| / 4 > total then None
      else Some(Chunk(FromBe16(payload[0], payload[1]), total, offset, BinsOf(data)))
  }

  lemma {:induction false} BinsRoundTrip(bins: seq<Bin>)
    ensures BinsOf(BinBytes(bins)) == bins
  {
    if bins != [] {
      hide Le32, FromLe32;
      var bytes := BinBytes(bins);
      assert bytes[..4] == Le32(bins[0]) && bytes[4..] == BinBytes(bins[1..]);
      BinsRoundTrip(bins[1..]);
      Le32RoundTrip(bins[0]);
    }
  }

  lemma Le32RoundTrip(bin: Bin)
    ensures var b := Le32(bin); FromLe32(b[0], b[1], b[2], b[3]) == bin
  {
  }

  /** Every chunk that fits survives the wire. */
  lemma ChunkRoundTrip(c: Chunk)
    requires Fits(c)
    ensures Decode(Encode(c)) == Some(c)
  {
    hide BinsOf, BinBytes, Be16, FromBe16;
    BinsRoundTrip(c.bins);
    assert Encode(c)[6..] == BinBytes(c.bins);
    Be16RoundTrip(c.row);
    Be16RoundTrip(c.total);
    Be16RoundTrip(c.offset);
  }

  lemma Be16RoundTrip(n: u16)
    ensures FromBe16(Be16(n)[0], Be16(n)[1]) == n
  {
  }

  // ---- reassembly -----------------------------------------------------------------------

  /** The row being reassembled. */
  datatype Assembly = Assembly(row: Option<u16>, total: nat, buf: seq<Bin>, filled: nat, done: bool)

  const NOTHING := Assembly(None, 0, [], 0, false)

  function Zeros(n: nat): (z: seq<Bin>)
    ensures |z| == n
    ensures forall k :: 0 <= k < n ==> z[k] == 0
  {
    seq(n, _ => 0)
  }

  /** The buffer after the leading finite bins were copied in; the first other bin stops the copy. */
  function Written(buf: seq<Bin>, offset: nat, bins: seq<Bin>): (r: seq<Bin>)
    requires offset + |bins| <= |buf|
    ensures |r| == |buf|
    decreases |bins|
  {
    if bins == [] || !Finite(bins[0]) then buf
    else Written(buf[offset := bins[0]], offset + 1, bins[1..])
  }

  predicate SameRow(s: Assembly, c: Chunk) {
    s.row == Some(c.row) && s.total == c.total
  }

  /** The assembly a chunk is added to: a new row drops the one before. */
  function Opened(s: Assembly, c: Chunk): Assembly {
    if SameRow(s, c) then s else Assembly(Some(c.row), c.total, Zeros(c.total), 0, false)
  }

  predicate Valid(s: Assembly) {
    |s.buf| == s.total
  }

  /** What one chunk does: the new assembly and the row it completes. */
  function Add(s: Assembly, c: Chunk): (r: (Assembly, Option<seq<Bin>>))
    requires Valid(s) && Fits(c)
    ensures Valid(r.0)
  {
    var o := Opened(s, c);
    if o.done then (s, None)
    else
      var buf := Written(o.buf, c.offset, c.bins);
      if !AllFinite(c.bins) then (o.(buf := buf), None)
      else if o.filled + |c.bins| >= o.total then
        (o.(buf := buf, filled := o.filled + |c.bins|, done := true), Some(buf))
      else (o.(buf := buf, filled := o.filled + |c.bins|), None)
  }

  function Push(s: Assembly, payload: seq<byte>): (r: (Assembly, Option<seq<Bin>>))
    requires Valid(s)
    ensures Valid(r.0)
  {
    match Decode(payload)
    case None => (s, None)
    case Some(c) => Add(s, c)
  }

  class WaterfallReassembler {
    var rowSeq: Option<u16>
    var totalBins: nat
    var buf: array<Bin>
    var filled: nat
    var done: bool

    ghost predicate Valid()
      reads this, buf
    {
      buf.Length == totalBins
    }

    ghost function State(): Assembly
      reads this, buf
    {
      Assembly(rowSeq, totalBins, buf[..], filled, done)
    }

    constructor ()
      ensures Valid() && fresh(buf) && State() == NOTHING
    {
      rowSeq, totalBins, filled, done := None, 0, 0, false;
      buf := new Bin[0];
    }

    /** Feed one payload; yields the full row once a payload completes it. */
    method PushChunk(payload: seq<byte>) returns (row: Option<seq<Bin>>)
      requires Valid()
      modifies this, buf
      ensures Valid() && (buf == old(buf) || fresh(buf))
      ensures (State(), row) == Push(old(State()), payload)
    {
      var decoded := Decode(payload);
      if decoded.None? {
        return None;
      }
      row := AddChunk(decoded.value);
    }

    method AddChunk(c: Chunk) returns (row: Option<seq<Bin>>)
      requires Valid() && Fits(c)
      modifies this, buf
      ensures Valid() && (buf == old(buf) || fresh(buf))
      ensures (State(), row) == Add(old(State()), c)
    {
      if rowSeq != Some(c.row) || totalBins != c.total {
        StartRow(c.row, c.total);
      } else if done {
        return None;
      }
      assert State() == Opened(old(State()), c);
      var ok := CopyBins(c.offset, c.bins);
      if !ok {
        return None;
      }
      filled := filled + |c.bins|;
      if filled >= totalBins {
        done := true;
        return Some(buf[..]);
      }
      return None;
    }

    method StartRow(row: u16, total: nat)
      modifies this
      ensures Valid() && fresh(buf)
      ensures State() == Assembly(Some(row), total, Zeros(total), 0, false)
    {
      rowSeq, totalBins, filled, done := Some(row), total, 0, false;
      buf := new Bin[total](_ => 0);
      assert buf[..] == Zeros(total);
    }

    /** Copies bins up to the first one that is not finite. */
    method CopyBins(offset: nat, bins: seq<Bin>) returns (ok: bool)
      requires offset + |bins| <= buf.Length
      modifies buf
      ensures buf[..] == Written(old(buf[..]), offset, bins)
      ensures ok == AllFinite(bins)
    {
      assert bins[0..] == bins;
      for j := 0 to |bins|
        invariant Written(buf[..], offset + j, bins[j..]) == Written(old(buf[..]), offset, bins)
        invariant AllFinite(bins[..j])
      {
        if !Finite(bins[j]) {
          return false;
        }
        CopyOne(buf[..], offset + j, bins[j..]);
        ghost var was := buf[..];
        buf[offset + j] := bins[j];
        assert buf[..] == was[offset + j := bins[j]] && bins[j..][1..] == bins[j + 1..];
      }
      return true;
    }
  }

  lemma CopyOne(buf: seq<Bin>, offset: nat, bins: seq<Bin>)
    requires offset + |bins| <= |buf| && bins != [] && Finite(bins[0])
    ensures Written(buf, offset, bins) == Written(buf[offset := bins[0]], offset + 1, bins[1..])
  {
  }

  // ---- sending ----------------------------------------------------------------------------

  const BINS_PER_CHUNK: nat := 256

  /** The chunks of a row from bin `from` on. */
  function Split(id: u16, row: seq<Bin>, from: nat): seq<Chunk>
    requires |row| < 0x1_0000
    decreases |row| - from
  {
    if from >= |row| then []
    else
      var to := if from + BINS_PER_CHUNK <= |row| then from + BINS_PER_CHUNK else |row|;
      [Chunk(id, |row|, from, row[from..to])] + Split(id, row, from + BINS_PER_CHUNK)
  }

  /** A datagram: the media header's counters and the payload behind it. */
  datatype Packet = Packet(sequence: u32, timestamp: u64, payload: seq<byte>)

  const U32_LIMIT: nat := 0x1_0000_0000

  type u32 = n: int | 0 <= n < U32_LIMIT

  /** `wrapping_add(1)`. */
  function Next(n: nat, limit: nat): (r: nat)
    requires n < limit
    ensures r < limit
  {
    if n + 1 == limit then 0 else n + 1
  }

  function Advance(n: nat, steps: nat, limit: nat): nat
    requires n < limit
    decreases steps
  {
    if steps == 0 then n else Advance(Next(n, limit), steps - 1, limit)
  }

  /** Chunks as packets, numbered on from `sequence` and `timestamp`. */
  function Packets(chunks: seq<Chunk>, sequence: u32, timestamp: u64): (packets: seq<Packet>)
    ensures |packets| == |chunks|
    ensures forall k :: 0 <= k < |chunks| ==> packets[k].payload == Encode(chunks[k])
    decreases |chunks|
  {
    if chunks == [] then []
    else [Packet(sequence, timestamp, Encode(chunks[0]))]
         + Packets(chunks[1..], Next(sequence, U32_LIMIT), Next(timestamp, U64_LIMIT))
  }

  lemma PeelChunk(id: u16, row: seq<Bin>, from: nat, to: nat, sequence: u32, timestamp: u64)
    requires from < |row| < 0x1_0000
    requires to == if from + BINS_PER_CHUNK <= |row| then from + BINS_PER_CHUNK else |row|
    ensures Packets(Split(id, row, from), sequence, timestamp)
            == [Packet(sequence, timestamp, Encode(Chunk(id, |row|, from, row[from..to])))]
               + Packets(Split(id, row, from + BINS_PER_CHUNK), Next(sequence, U32_LIMIT), Next(timestamp, U64_LIMIT))
    ensures |Split(id, row, from)| == 1 + |Split(id, row, from + BINS_PER_CHUNK)|
  {
    hide Next, Encode;
  }

  class UdpWaterfallSender {
    var sequence: u32
    var timestamp: u64
    var rowSeq: u16

    constructor ()
      ensures sequence == 0 && timestamp == 0 && rowSeq == 0
    {
      sequence, timestamp, rowSeq := 0, 0, 0;
    }

    /** One row as packets; an empty or oversized row sends nothing and uses no row id. */
    method SendRow(row: seq<Bin>) returns (packets: seq<Packet>)
      modifies this
      ensures |row| == 0 || |row| >= 0x1_0000 ==> packets == [] && unchanged(this)
      ensures 0 < |row| < 0x1_0000 ==>
                && packets == Packets(Split(old(rowSeq), row, 0), old(sequence), old(timestamp))
                && rowSeq == Next(old(rowSeq), 0x1_0000)
                && sequence == Advance(old(sequence), |packets|, U32_LIMIT)
                && timestamp == Advance(old(timestamp), |packets|, U64_LIMIT)
    {
      packets := [];
      if |row| == 0 || |row| >= 0x1_0000 {
        return;
      }
      var id := rowSeq;
      rowSeq := Next(rowSeq, 0x1_0000);
      packets := SendChunks(id, row);
    }

    method SendChunks(id: u16, row: seq<Bin>) returns (packets: seq<Packet>)
      requires |row| < 0x1_0000
      modifies `sequence, `timestamp
      ensures packets == Packets(Split(id, row, 0), old(sequence), old(timestamp))
      ensures sequence == Advance(old(sequence), |packets|, U32_LIMIT)
      ensures timestamp == Advance(old(timestamp), |packets|, U64_LIMIT)
    {
      hide Next, Encode, Split, Packets;
      packets := [];
      var offset := 0;
      ghost var all := Packets(Split(id, row, 0), sequence, timestamp);
      ghost var left := |all|;
      while offset < |row|
        invariant packets + Packets(Split(id, row, offset), sequence, timestamp) == all
        invariant left == |Split(id, row, offset)|
        invariant Advance(sequence, left, U32_LIMIT) == Advance(old(sequence), |all|, U32_LIMIT)
        invariant Advance(timestamp, left, U64_LIMIT) == Advance(old(timestamp), |all|, U64_LIMIT)
        decreases |row| - offset
      {
        var to := if offset + BINS_PER_CHUNK <= |row| then offset + BINS_PER_CHUNK else |row|;
        PeelChunk(id, row, offset, to, sequence, timestamp);
        packets := packets + [Packet(sequence, timestamp, Encode(Chunk(id, |row|, offset, row[offset..to])))];
        sequence := Next(sequence, U32_LIMIT);
        timestamp := Next(timestamp, U64_LIMIT);
        offset := offset + BINS_PER_CHUNK;
        left := left - 1;
      }
      NothingLeft(id, row, offset);
    }
  }

  lemma NothingLeft(id: u16, row: seq<Bin>, from: nat)
    requires |row| < 0x1_0000 && |row| <= from
    ensures Split(id, row, from) == []
  {
  }
}
