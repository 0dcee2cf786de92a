/**
 The DX-cluster spot book (rigflow-client/src/cluster/mod.rs) and the line reader that feeds it
 (rigflow-client/src/cluster/client.rs).
 */
module Cluster {
  import opened Wrappers

  /** A spot; `text` stands for its display-only fields, `receivedAt` for the local instant. */
  datatype DxSpot = DxSpot(dxCall: string, freqHz: nat, receivedAt: int, text: string)

  const DEDUPE_TOL_HZ: nat := 200
  const MAX_SPOTS: nat := 4000

  function AbsDiff(a: nat, b: nat): nat {
    if a < b then b - a else a - b
  }

  predicate FreqClose(a: nat, b: nat) {
    AbsDiff(a, b) <= DEDUPE_TOL_HZ
  }

  /** Two spots that count as the same spot. */
  predicate SameSpot(a: DxSpot, b: DxSpot) {
    a.dxCall == b.dxCall && FreqClose(a.freqHz, b.freqHz)
  }

  // ---- the book -----------------------------------------------------------------------

  /** `Vec::retain`. */
  function Retain(spots: seq<DxSpot>, keep: DxSpot -> bool): (kept: seq<DxSpot>)
    ensures |kept| <= |spots|
    decreases |spots|
  {
    if spots == [] then []
    else
      var front, last := Retain(spots[..|spots| - 1], keep), spots[|spots| - 1];
      if keep(last) then front + [last] else front
  }

  /** The spots that are not earlier reports of `spot`. */
  function Without(spots: seq<DxSpot>, spot: DxSpot): (kept: seq<DxSpot>)
    ensures |kept| <= |spots|
  {
    Retain(spots, (s: DxSpot) => !SameSpot(s, spot))
  }

  /** The first of the oldest spots. */
  function OldestIndex(spots: seq<DxSpot>): (i: nat)
    requires spots != []
    ensures i < |spots|
    ensures forall k :: 0 <= k < |spots| ==> spots[i].receivedAt <= spots[k].receivedAt
    ensures forall k :: 0 <= k < i ==> spots[i].receivedAt < spots[k].receivedAt
    decreases |spots|
  {
    if |spots| == 1 then 0
    else
      var i := OldestIndex(spots[..|spots| - 1]);
      if spots[|spots| - 1].receivedAt < spots[i].receivedAt then |spots| - 1 else i
  }

  function Removed(spots: seq<DxSpot>, i: nat): (r: seq<DxSpot>)
    requires i < |spots|
    ensures |r| == |spots| - 1
  {
    spots[..i] + spots[i + 1..]
  }

  /** The oldest spots dropped until the book fits. */
  function Bounded(spots: seq<DxSpot>): (r: seq<DxSpot>)
    ensures |r| <= MAX_SPOTS
    decreases |spots|
  {
    if |spots| <= MAX_SPOTS then spots else Bounded(Removed(spots, OldestIndex(spots)))
  }

  function Inserted(spots: seq<DxSpot>, spot: DxSpot): (r: seq<DxSpot>)
    ensures |r| <= MAX_SPOTS
  {
    Bounded(Without(spots, spot) + [spot])
  }

  /** `saturating_duration_since`. */
  function Age(spot: DxSpot, now: int): nat {
    if now < spot.receivedAt then 0 else now - spot.receivedAt
  }

  function Unexpired(spots: seq<DxSpot>, now: int, ttl: nat): seq<DxSpot> {
    Retain(spots, (s: DxSpot) => Age(s, now) < ttl)
  }

  class SpotBook {
    var spots: seq<DxSpot>

    constructor ()
      ensures spots == []
    {
      spots := [];
    }

    method RetainOnly(keep: DxSpot -> bool)
      modifies this
      ensures spots == Retain(old(spots), keep)
    {
      var kept: seq<DxSpot> := [];
      for k := 0 to |spots|
        invariant spots == old(spots)
        invariant kept == Retain(spots[..k], keep)
      {
        assert spots[..k + 1][..k] == spots[..k];
        if keep(spots[k]) {
          kept := kept + [spots[k]];
        }
      }
      assert spots[..|spots|] == spots;
      spots := kept;
    }

    /** The newest spot replaces earlier ones of its call and frequency; past the limit the oldest goes. */
    method InsertSpot(spot: DxSpot)
      modifies this
      ensures spots == Inserted(old(spots), spot)
    {
      hide OldestIndex, Removed, SameSpot, Retain;
      RetainOnly((s: DxSpot) => !SameSpot(s, spot));
      assert spots == Without(old(spots), spot);
      spots := spots + [spot];
      while |spots| > MAX_SPOTS
        invariant Bounded(spots) == Inserted(old(spots), spot)
        decreases |spots|
      {
        var i := OldestIndex(spots);
        spots := Removed(spots, i);
      }
    }

    /** Drops the spots at least `ttl` old. */
    method Expire(now: int, ttl: nat)
      modifies this
      ensures spots == Unexpired(old(spots), now, ttl)
    {
      hide Retain;
      RetainOnly((s: DxSpot) => Age(s, now) < ttl);
      assert spots == Unexpired(old(spots), now, ttl);
    }
  }

  // ---- the line reader ------------------------------------------------------------------

  /** Where the first line break is. */
  function FindBreak(acc: string): (i: Option<nat>)
    ensures i.Some? ==> i.value < |acc| && acc[i.value] == '\n' && forall k :: 0 <= k < i.value ==> acc[k] != '\n'
    ensures i.None? ==> forall k :: 0 <= k < |acc| ==> acc[k] != '\n'
    decreases |acc|
  {
    if acc == "" then None
    else if acc[0] == '\n' then Some(0)
    else match FindBreak(acc[1..])
      case Some(i) => Some(i + 1)
      case None => None
  }

  /** `trim_end_matches(['\r', '\n'])`. */
  function Chomp(line: string): string
    decreases |line|
  {
    if line != "" && (line[|line| - 1] == '\r' || line[|line| - 1] == '\n') then Chomp(line[..|line| - 1]) else line
  }

  /** The complete lines in front of the last break, and the partial line behind it. */
  function Lines(acc: string): (r: (seq<string>, string))
    decreases |acc|
  {
    match FindBreak(acc)
    case None => ([], acc)
    case Some(i) =>
      var rest := Lines(acc[i + 1..]);
      ([Chomp(acc[..i + 1])] + rest.0, rest.1)
  }

  /** The book after lines `from` on, the `k`-th line parsed at `clock(k)`. */
  function Ingested(
    spots: seq<DxSpot>, lines: seq<string>, from: nat,
    parse: (string, int) -> Option<DxSpot>, clock: nat -> int
  ): seq<DxSpot>
    decreases |lines|
  {
    if lines == [] then spots
    else
      var next := match parse(lines[0], clock(from))
                  case Some(spot) => Inserted(spots, spot)
                  case None => spots;
      Ingested(next, lines[1..], from + 1, parse, clock)
  }

  lemma TakeLine(acc: string, i: nat)
    requires FindBreak(acc) == Some(i)
    ensures Lines(acc) == ([Chomp(acc[..i + 1])] + Lines(acc[i + 1..]).0, Lines(acc[i + 1..]).1)
  {
  }

  lemma NoLineLeft(acc: string)
    requires FindBreak(acc) == None
    ensures Lines(acc) == ([], acc)
  {
  }

  lemma IngestLine(
    spots: seq<DxSpot>, lines: seq<string>, from: nat, parse: (string, int) -> Option<DxSpot>, clock: nat -> int
  )
    requires lines != []
    ensures Ingested(spots, lines, from, parse, clock)
            == Ingested(match parse(lines[0], clock(from)) case Some(spot) => Inserted(spots, spot) case None => spots,
                        lines[1..], from + 1, parse, clock)
  {
  }

  lemma NothingToIngest(spots: seq<DxSpot>, from: nat, parse: (string, int) -> Option<DxSpot>, clock: nat -> int)
    ensures Ingested(spots, [], from, parse, clock) == spots
  {
  }

  class LineReader {
    var acc: string
    /** Lines handled so far. */
    var count: nat
    const book: SpotBook

    constructor (book: SpotBook)
      ensures this.book == book && acc == "" && count == 0
    {
      this.book := book;
      acc, count := "", 0;
    }

    /** Parses and inserts every complete line; a partial one stays in the accumulator. */
    method DrainLines(parse: (string, int) -> Option<DxSpot>, clock: nat -> int)
      modifies this, book
      ensures acc == Lines(old(acc)).1
      ensures count == old(count) + |Lines(old(acc)).0|
      ensures book.spots == Ingested(old(book.spots), Lines(old(acc)).0, old(count), parse, clock)
    {
      hide Chomp, Inserted, FindBreak, Lines, Ingested;
      var i := FindBreak(acc);
      while i.Some?
        invariant i == FindBreak(acc)
        invariant Lines(acc).1 == Lines(old(acc)).1
        invariant count + |Lines(acc).0| == old(count) + |Lines(old(acc)).0|
        invariant Ingested(book.spots, Lines(acc).0, count, parse, clock)
                  == Ingested(old(book.spots), Lines(old(acc)).0, old(count), parse, clock)
        decreases |acc|
      {
        TakeLine(acc, i.value);
        IngestLine(book.spots, Lines(acc).0, count, parse, clock);
        ghost var before := acc;
        var line := Chomp(acc[..i.value + 1]);
        acc := acc[i.value + 1..];
        assert Lines(before).0[1..] == Lines(acc).0;
        var spot := parse(line, clock(count));
        if spot.Some? {
          book.InsertSpot(spot.value);
        }
        count := count + 1;
        i := FindBreak(acc);
      }
      NoLineLeft(acc);
      NothingToIngest(book.spots, count, parse, clock);
    }

    /** One read of ASCII text. */
    method Read(chunk: string, parse: (string, int) -> Option<DxSpot>, clock: nat -> int)
      modifies this, book
      ensures acc == Lines(old(acc) + chunk).1
      ensures count == old(count) + |Lines(old(acc) + chunk).0|
      ensures book.spots == Ingested(old(book.spots), Lines(old(acc) + chunk).0, old(count), parse, clock)
    {
      acc := acc + chunk;
      DrainLines(parse, clock);
    }
  }
}
