/** Waterfall rows come back whole whatever order their chunks arrive in. */
module WaterfallLaws {
  import opened Wrappers
  import opened Waterfall

  // ---- runs of chunks ---------------------------------------------------------------------

  function Emission(row: Option<seq<Bin>>): seq<seq<Bin>> {
    if row.Some? then [row.value] else []
  }

  predicate AllFit(cs: seq<Chunk>) {
    forall k :: 0 <= k < |cs| ==> Fits(cs[k])
  }

  /** The assembly behind a run of chunks and the rows emitted on the way. */
  function Feed(s: Assembly, cs: seq<Chunk>): (r: (Assembly, seq<seq<Bin>>))
    requires Valid(s) && AllFit(cs)
    ensures Valid(r.0)
    decreases |cs|
  {
    if cs == [] then (s, [])
    else
      var front := Feed(s, cs[..|cs| - 1]);
      var last := Add(front.0, cs[|cs| - 1]);
      (last.0, front.1 + Emission(last.1))
  }

  /** The same for datagram payloads. */
  function Receive(s: Assembly, payloads: seq<seq<byte>>): (r: (Assembly, seq<seq<Bin>>))
    requires Valid(s)
    ensures Valid(r.0)
    decreases |payloads|
  {
    if payloads == [] then (s, [])
    else
      var front := Receive(s, payloads[..|payloads| - 1]);
      var last := Push(front.0, payloads[|payloads| - 1]);
      (last.0, front.1 + Emission(last.1))
  }

  function Encoded(cs: seq<Chunk>): (payloads: seq<seq<byte>>)
    ensures |payloads| == |cs|
    ensures forall k :: 0 <= k < |cs| ==> payloads[k] == Encode(cs[k])
  {
    seq(|cs|, k requires 0 <= k < |cs| => Encode(cs[k]))
  }

  lemma {:induction false} ReceivesEncoded(s: Assembly, cs: seq<Chunk>)
    requires Valid(s) && AllFit(cs)
    ensures Receive(s, Encoded(cs)) == Feed(s, cs)
    decreases |cs|
  {
    hide Encode, Decode, Add, Fits;
    if cs != [] {
      var front := cs[..|cs| - 1];
      assert Encoded(cs)[..|cs| - 1] == Encoded(front);
      ReceivesEncoded(s, front);
      ChunkRoundTrip(cs[|cs| - 1]);
    }
  }

  lemma {:induction false} ReceiveAppend(s: Assembly, a: seq<seq<byte>>, b: seq<seq<byte>>)
    requires Valid(s)
    ensures Receive(s, a + b)
            == (Receive(Receive(s, a).0, b).0, Receive(s, a).1 + Receive(Receive(s, a).0, b).1)
    decreases |b|
  {
    hide Push;
    if b == [] {
      assert a + b == a && Receive(s, a).1 + [] == Receive(s, a).1;
    } else {
      assert (a + b)[..|a + b| - 1] == a + b[..|b| - 1];
      ReceiveAppend(s, a, b[..|b| - 1]);
      var mid := Receive(s, a);
      var front := Receive(mid.0, b[..|b| - 1]);
      var last := Push(front.0, b[|b| - 1]);
      assert (mid.1 + front.1) + Emission(last.1) == mid.1 + (front.1 + Emission(last.1));
    }
  }

  // ---- bins covered -------------------------------------------------------------------------

  /** The bins `0 .. n` starting at `from`. */
  function Span(from: nat, n: nat): (s: set<nat>)
    ensures forall j :: j in s <==> from <= j < from + n
    ensures |s| == n
    decreases n
  {
    if n == 0 then {} else Span(from, n - 1) + {from + n - 1}
  }

  function Range(c: Chunk): set<nat> {
    Span(c.offset, |c.bins|)
  }

  function Covered(cs: seq<Chunk>): set<nat>
    decreases |cs|
  {
    if cs == [] then {} else Covered(cs[..|cs| - 1]) + Range(cs[|cs| - 1])
  }

  function Count(cs: seq<Chunk>): nat
    decreases |cs|
  {
    if cs == [] then 0 else Count(cs[..|cs| - 1]) + |cs[|cs| - 1].bins|
  }

  predicate Disjoint(cs: seq<Chunk>) {
    forall i, k :: 0 <= i < k < |cs| ==> Range(cs[i]) !! Range(cs[k])
  }

  lemma {:induction false} CoveredMeaning(cs: seq<Chunk>)
    ensures forall j :: j in Covered(cs) <==> exists i :: 0 <= i < |cs| && j in Range(cs[i])
    decreases |cs|
  {
    hide Range;
    if cs != [] {
      var front := cs[..|cs| - 1];
      CoveredMeaning(front);
      forall j
        ensures j in Covered(cs) <==> exists i :: 0 <= i < |cs| && j in Range(cs[i])
      {
        if j in Covered(front) {
          var i :| 0 <= i < |front| && j in Range(front[i]);
          assert j in Range(cs[i]);
        }
        if i :| 0 <= i < |cs| && j in Range(cs[i]) {
          if i < |front| {
            assert j in Range(front[i]);
          }
        }
      }
    }
  }

  lemma DisjointFront(cs: seq<Chunk>)
    requires Disjoint(cs) && cs != []
    ensures Disjoint(cs[..|cs| - 1])
    ensures Covered(cs[..|cs| - 1]) !! Range(cs[|cs| - 1])
  {
    hide Range, Covered;
    CoveredMeaning(cs[..|cs| - 1]);
    assert forall i :: 0 <= i < |cs| - 1 ==> cs[..|cs| - 1][i] == cs[i];
  }

  /** Disjoint chunks cover as many bins as they carry. */
  lemma {:induction false} DisjointCount(cs: seq<Chunk>)
    requires Disjoint(cs)
    ensures |Covered(cs)| == Count(cs)
    decreases |cs|
  {
    if cs != [] {
      DisjointFront(cs);
      DisjointCount(cs[..|cs| - 1]);
    }
  }

  /** Chunks of one row of `total` bins, each finite and inside the row. */
  predicate OfRow(cs: seq<Chunk>, row: u16, total: nat) {
    forall k :: 0 <= k < |cs| ==>
      cs[k].row == row && cs[k].total == total && Fits(cs[k]) && AllFinite(cs[k].bins)
  }

  lemma InsideRow(cs: seq<Chunk>, row: u16, total: nat)
    requires OfRow(cs, row, total)
    ensures Covered(cs) <= Span(0, total)
  {
    hide Covered;
    CoveredMeaning(cs);
    forall j | j in Covered(cs)
      ensures j in Span(0, total)
    {
      var i :| 0 <= i < |cs| && j in Range(cs[i]);
    }
  }

  lemma {:induction false} SubsetSize(a: set<nat>, b: set<nat>)
    requires a <= b
    ensures |a| <= |b|
    ensures |a| == |b| ==> a == b
    decreases |a|
  {
    if a != {} {
      var x :| x in a;
      SubsetSize(a - {x}, b - {x});
      assert a == (a - {x}) + {x} && b == (b - {x}) + {x};
    }
  }

  /** Disjoint chunks carry as many bins as the row has exactly when they cover it. */
  lemma CountIsCoverage(cs: seq<Chunk>, row: u16, total: nat)
    requires OfRow(cs, row, total) && Disjoint(cs)
    ensures Count(cs) <= total
    ensures Count(cs) == total <==> Covered(cs) == Span(0, total)
  {
    hide Covered, Count, Range, Span, OfRow, Disjoint;
    DisjointCount(cs);
    InsideRow(cs, row, total);
    SubsetSize(Covered(cs), Span(0, total));
  }

  // ---- one row ------------------------------------------------------------------------------

  /** Every chunk's bins stand at its offset, and bins no chunk covers are zero. */
  predicate Carries(cs: seq<Chunk>, buf: seq<Bin>) {
    && (forall i :: 0 <= i < |cs| ==> Placed(cs[i], buf))
    && (forall j :: 0 <= j < |buf| && j !in Covered(cs) ==> buf[j] == 0)
  }

  predicate Placed(c: Chunk, buf: seq<Bin>) {
    c.offset + |c.bins| <= |buf| && buf[c.offset..c.offset + |c.bins|] == c.bins
  }

  lemma {:induction false} WrittenMeaning(buf: seq<Bin>, offset: nat, bins: seq<Bin>)
    requires offset + |bins| <= |buf| && AllFinite(bins)
    ensures forall j :: 0 <= j < |buf| ==>
              Written(buf, offset, bins)[j] == if offset <= j < offset + |bins| then bins[j - offset] else buf[j]
    decreases |bins|
  {
    if bins != [] {
      CopyOne(buf, offset, bins);
      WrittenMeaning(buf[offset := bins[0]], offset + 1, bins[1..]);
    }
  }

  /** Writing one more disjoint chunk leaves the others in place. */
  lemma CarriesOneMore(cs: seq<Chunk>, buf: seq<Bin>, total: nat)
    requires cs != [] && Disjoint(cs) && |buf| == total
    requires Carries(cs[..|cs| - 1], buf)
    requires cs[|cs| - 1].offset + |cs[|cs| - 1].bins| <= total && AllFinite(cs[|cs| - 1].bins)
    ensures Carries(cs, Written(buf, cs[|cs| - 1].offset, cs[|cs| - 1].bins))
  {
    hide Written, Covered, Disjoint, AllFinite;
    var front, c := cs[..|cs| - 1], cs[|cs| - 1];
    var written := Written(buf, c.offset, c.bins);
    WrittenMeaning(buf, c.offset, c.bins);
    forall i | 0 <= i < |cs|
      ensures Placed(cs[i], written)
    {
      if i < |front| {
        assert front[i] == cs[i] && Placed(front[i], buf);
        StaysPlaced(cs, i, buf, written);
      } else {
        assert written[c.offset..c.offset + |c.bins|] == c.bins;
      }
    }
    forall j | 0 <= j < |written| && j !in Covered(cs)
      ensures written[j] == 0
    {
      CoveredGrows(cs, j);
    }
  }

  lemma StaysPlaced(cs: seq<Chunk>, i: nat, buf: seq<Bin>, written: seq<Bin>)
    requires Disjoint(cs) && i < |cs| - 1 && |written| == |buf| && Placed(cs[i], buf)
    requires var c := cs[|cs| - 1];
             forall m :: 0 <= m < |buf| && !(c.offset <= m < c.offset + |c.bins|) ==> written[m] == buf[m]
    ensures Placed(cs[i], written)
  {
    hide Disjoint;
    var d := cs[i];
    forall j: nat | j < |d.bins|
      ensures written[d.offset + j] == d.bins[j]
    {
      OldBinIsApart(cs, i, j);
      assert buf[d.offset..d.offset + |d.bins|][j] == buf[d.offset + j];
    }
    assert written[d.offset..d.offset + |d.bins|] == d.bins;
  }

  lemma OldBinIsApart(cs: seq<Chunk>, i: nat, j: nat)
    requires Disjoint(cs) && i < |cs| - 1 && j < |cs[i].bins|
    ensures !(cs[|cs| - 1].offset <= cs[i].offset + j < cs[|cs| - 1].offset + |cs[|cs| - 1].bins|)
  {
    assert cs[i].offset + j in Range(cs[i]);
    assert Range(cs[i]) !! Range(cs[|cs| - 1]);
  }

  lemma CoveredGrows(cs: seq<Chunk>, j: nat)
    requires cs != [] && j !in Covered(cs)
    ensures j !in Covered(cs[..|cs| - 1])
    ensures !(cs[|cs| - 1].offset <= j < cs[|cs| - 1].offset + |cs[|cs| - 1].bins|)
  {
  }

  /** The assembly of a row whose chunks so far are `cs`. */
  predicate Holds(t: Assembly, cs: seq<Chunk>, row: u16, total: nat) {
    && t.row == Some(row) && t.total == total && |t.buf| == total
    && t.filled == Count(cs) && (t.done <==> Count(cs) == total)
    && Carries(cs, t.buf)
  }

  predicate NotOn(s: Assembly, row: u16, total: nat) {
    !(s.row == Some(row) && s.total == total)
  }

  lemma OpensRow(s: Assembly, c: Chunk)
    requires Fits(c) && NotOn(s, c.row, c.total)
    ensures Holds(Opened(s, c), [], c.row, c.total)
  {
  }

  /** One more disjoint chunk of the row: it is kept, and it emits the row exactly when it completes it. */
  lemma HoldsOneMore(s: Assembly, cs: seq<Chunk>, row: u16, total: nat)
    requires cs != [] && OfRow(cs, row, total) && Disjoint(cs) && Valid(s)
    requires Holds(Opened(s, cs[|cs| - 1]), cs[..|cs| - 1], row, total)
    ensures var c := cs[|cs| - 1];
            var (t, emitted) := Add(s, c);
            && Holds(t, cs, row, total)
            && emitted == (if Count(cs) == total && Count(cs[..|cs| - 1]) < total then Some(t.buf) else None)
            && (Count(cs[..|cs| - 1]) == total ==> t == s && Count(cs) == total)
  {
    hide Written, Covered, Carries, Disjoint, AllFinite;
    var front, c := cs[..|cs| - 1], cs[|cs| - 1];
    var o := Opened(s, c);
    CountIsCoverage(cs, row, total);
    if o.done {
      assert Count(cs) == Count(front) + |c.bins|;
      CarriesNothingMore(cs, o.buf);
      DoneStaysOpen(s, c);
    } else {
      CarriesOneMore(cs, o.buf, total);
    }
  }

  lemma DoneStaysOpen(s: Assembly, c: Chunk)
    requires Opened(s, c).done
    ensures Opened(s, c) == s
  {
  }

  lemma CarriesNothingMore(cs: seq<Chunk>, buf: seq<Bin>)
    requires cs != [] && cs[|cs| - 1].bins == [] && cs[|cs| - 1].offset <= |buf|
    requires Carries(cs[..|cs| - 1], buf)
    ensures Carries(cs, buf)
  {
    hide Covered;
    var front := cs[..|cs| - 1];
    forall i | 0 <= i < |cs|
      ensures Placed(cs[i], buf)
    {
      if i < |front| {
        assert Placed(front[i], buf);
      }
    }
    NothingCovered(cs);
  }

  lemma NothingCovered(cs: seq<Chunk>)
    requires cs != [] && cs[|cs| - 1].bins == []
    ensures Covered(cs) == Covered(cs[..|cs| - 1])
  {
    assert Range(cs[|cs| - 1]) == {};
  }

  /** After disjoint chunks of a row, in any order, the row was emitted once if they complete it and never otherwise. */
  lemma {:induction false} RowState(s: Assembly, cs: seq<Chunk>, row: u16, total: nat)
    requires Valid(s) && NotOn(s, row, total)
    requires cs != [] && OfRow(cs, row, total) && AllFit(cs) && Disjoint(cs)
    ensures Holds(Feed(s, cs).0, cs, row, total)
    ensures Feed(s, cs).1 == if Count(cs) == total then [Feed(s, cs).0.buf] else []
    decreases |cs|
  {
    hide Add, Carries, Covered, Disjoint, AllFinite, Fits;
    var front, c := cs[..|cs| - 1], cs[|cs| - 1];
    if front == [] {
      OpensRow(s, c);
    } else {
      DisjointFront(cs);
      RowState(s, front, row, total);
      CountIsCoverage(front, row, total);
    }
    HoldsOneMore(Feed(s, front).0, cs, row, total);
    assert Feed(s, cs).1 == Feed(s, front).1 + Emission(Add(Feed(s, front).0, c).1);
  }

  /** In a run of disjoint chunks of one row, the row is emitted at the chunk that completes its coverage, and only there. */
  lemma EmitsAtCoverage(s: Assembly, cs: seq<Chunk>, row: u16, total: nat, k: nat)
    requires Valid(s) && NotOn(s, row, total) && k < |cs|
    requires OfRow(cs, row, total) && AllFit(cs) && Disjoint(cs)
    ensures var (t, emitted) := Add(Feed(s, cs[..k]).0, cs[k]);
            var full := Span(0, total);
            && emitted == (if Covered(cs[..k]) != full && Covered(cs[..k + 1]) == full then Some(t.buf) else None)
            && forall i :: 0 <= i <= k ==> Placed(cs[i], t.buf)
  {
    hide Add, Covered, Fits, AllFinite, Placed, Feed, Opened, Count, Disjoint;
    var before, upto := cs[..k], cs[..k + 1];
    FrontOfRow(cs, row, total, k + 1);
    FrontOfRow(cs, row, total, k);
    assert upto[..k] == before && upto[k] == cs[k];
    CountIsCoverage(upto, row, total);
    CountIsCoverage(before, row, total);
    HoldsBefore(s, before, cs[k], row, total);
    HoldsOneMore(Feed(s, before).0, upto, row, total);
    assert forall i :: 0 <= i <= k ==> upto[i] == cs[i];
  }

  lemma FrontOfRow(cs: seq<Chunk>, row: u16, total: nat, k: nat)
    requires k <= |cs| && OfRow(cs, row, total) && Disjoint(cs)
    ensures OfRow(cs[..k], row, total) && AllFit(cs[..k]) && Disjoint(cs[..k])
  {
    hide Range, AllFinite, Fits;
  }

  lemma HoldsBefore(s: Assembly, before: seq<Chunk>, c: Chunk, row: u16, total: nat)
    requires Valid(s) && NotOn(s, row, total) && Fits(c) && c.row == row && c.total == total
    requires OfRow(before, row, total) && AllFit(before) && Disjoint(before)
    ensures Holds(Opened(Feed(s, before).0, c), before, row, total)
  {
    hide Feed, Carries, Disjoint, OfRow, AllFit;
    if before == [] {
      OpensRow(s, c);
      FeedNothing(s, before);
    } else {
      RowState(s, before, row, total);
      SameRowIsOpen(Feed(s, before).0, c);
    }
  }

  lemma FeedNothing(s: Assembly, cs: seq<Chunk>)
    requires Valid(s) && cs == []
    ensures Feed(s, cs) == (s, [])
  {
  }

  lemma SameRowIsOpen(s: Assembly, c: Chunk)
    requires s.row == Some(c.row) && s.total == c.total
    ensures Opened(s, c) == s
  {
  }

  // ---- a sent row, in any order -----------------------------------------------------------------

  /** A chunk of `row` as the sender cuts it. */
  predicate CutFrom(c: Chunk, id: u16, row: seq<Bin>) {
    && c.row == id && c.total == |row| && c.bins != []
    && c.offset + |c.bins| <= |row| && c.bins == row[c.offset..c.offset + |c.bins|]
  }

  lemma {:induction false} SplitCuts(id: u16, row: seq<Bin>, from: nat)
    requires |row| < 0x1_0000
    ensures forall c :: c in Split(id, row, from) ==> CutFrom(c, id, row) && from <= c.offset
    ensures forall c :: c in multiset(Split(id, row, from)) ==> multiset(Split(id, row, from))[c] == 1
    decreases |row| - from
  {
    if from < |row| {
      var rest := Split(id, row, from + BINS_PER_CHUNK);
      SplitCuts(id, row, from + BINS_PER_CHUNK);
      var head := Split(id, row, from)[0];
      assert Split(id, row, from) == [head] + rest;
      assert head !in rest;
    }
  }

  lemma {:induction false} SplitApart(id: u16, row: seq<Bin>, from: nat, c: Chunk, d: Chunk)
    requires |row| < 0x1_0000 && c != d
    requires c in Split(id, row, from) && d in Split(id, row, from)
    ensures Range(c) !! Range(d)
    decreases |row| - from
  {
    hide CutFrom;
    var rest := Split(id, row, from + BINS_PER_CHUNK);
    SplitCuts(id, row, from + BINS_PER_CHUNK);
    var head := Split(id, row, from)[0];
    assert Split(id, row, from) == [head] + rest;
    assert head.offset + |head.bins| <= from + BINS_PER_CHUNK;
    if c in rest && d in rest {
      SplitApart(id, row, from + BINS_PER_CHUNK, c, d);
    }
  }

  lemma {:induction false} SplitCovers(id: u16, row: seq<Bin>, from: nat, j: nat) returns (c: Chunk)
    requires from <= j < |row| < 0x1_0000
    ensures c in Split(id, row, from) && j in Range(c)
    decreases |row| - from
  {
    if j < from + BINS_PER_CHUNK {
      c := Split(id, row, from)[0];
    } else {
      c := SplitCovers(id, row, from + BINS_PER_CHUNK, j);
    }
  }

  lemma TwiceCountsTwo(cs: seq<Chunk>, i: nat, k: nat)
    requires i < k < |cs| && cs[i] == cs[k]
    ensures multiset(cs)[cs[i]] >= 2
  {
    assert cs == cs[..k] + ([cs[k]] + cs[k + 1..]);
    assert multiset(cs) == multiset(cs[..k]) + (multiset([cs[k]]) + multiset(cs[k + 1..]));
    assert cs[i] == cs[..k][i] && cs[i] in multiset(cs[..k]);
  }

  /** The chunks of a sent row in any order: of one row, disjoint, and covering it. */
  lemma ShuffledChunks(id: u16, row: seq<Bin>, cs: seq<Chunk>)
    requires 0 < |row| < 0x1_0000 && AllFinite(row)
    requires multiset(cs) == multiset(Split(id, row, 0))
    ensures cs != [] && OfRow(cs, id, |row|) && AllFit(cs) && Disjoint(cs)
    ensures Covered(cs) == Span(0, |row|)
    ensures forall k :: 0 <= k < |cs| ==> CutFrom(cs[k], id, row)
  {
    hide Split, CutFrom, Range, Covered;
    SplitCuts(id, row, 0);
    forall k | 0 <= k < |cs|
      ensures CutFrom(cs[k], id, row)
    {
      assert cs[k] in multiset(cs);
    }
    CutsFit(id, row, cs);
    forall i, k | 0 <= i < k < |cs|
      ensures Range(cs[i]) !! Range(cs[k])
    {
      assert cs[i] in multiset(cs) && cs[k] in multiset(cs);
      if cs[i] == cs[k] {
        TwiceCountsTwo(cs, i, k);
        assert false;
      }
      SplitApart(id, row, 0, cs[i], cs[k]);
    }
    ShuffledCover(id, row, cs);
  }

  lemma CutsFit(id: u16, row: seq<Bin>, cs: seq<Chunk>)
    requires 0 < |row| && AllFinite(row)
    requires forall k :: 0 <= k < |cs| ==> CutFrom(cs[k], id, row)
    ensures OfRow(cs, id, |row|) && AllFit(cs)
  {
    hide Finite;
  }

  lemma ShuffledCover(id: u16, row: seq<Bin>, cs: seq<Chunk>)
    requires 0 < |row| < 0x1_0000 && OfRow(cs, id, |row|)
    requires multiset(cs) == multiset(Split(id, row, 0))
    ensures cs != [] && Covered(cs) == Span(0, |row|)
  {
    hide Split, Range, Covered, AllFinite;
    InsideRow(cs, id, |row|);
    CoveredMeaning(cs);
    forall j: nat | j < |row|
      ensures j in Covered(cs)
    {
      var c := SplitCovers(id, row, 0, j);
      assert c in multiset(Split(id, row, 0));
      assert c in multiset(cs);
      var i :| 0 <= i < |cs| && cs[i] == c;
    }
    assert 0 in Covered(cs);
  }

  /** A buffer that carries a row's chunks and is covered by them is that row. */
  lemma CarriedRow(id: u16, row: seq<Bin>, cs: seq<Chunk>, buf: seq<Bin>)
    requires Carries(cs, buf) && |buf| == |row| && Covered(cs) == Span(0, |row|)
    requires forall k :: 0 <= k < |cs| ==> CutFrom(cs[k], id, row)
    ensures buf == row
  {
    hide Covered, Range;
    CoveredMeaning(cs);
    forall j | 0 <= j < |row|
      ensures buf[j] == row[j]
    {
      assert j in Covered(cs);
      var i :| 0 <= i < |cs| && j in Range(cs[i]);
      BinOfCut(cs[i], id, row, buf, j);
    }
  }

  lemma BinOfCut(c: Chunk, id: u16, row: seq<Bin>, buf: seq<Bin>, j: nat)
    requires CutFrom(c, id, row) && Placed(c, buf) && j in Range(c)
    ensures j < |buf| && j < |row| && buf[j] == row[j]
  {
    assert buf[c.offset..c.offset + |c.bins|][j - c.offset] == buf[j];
    assert row[c.offset..c.offset + |c.bins|][j - c.offset] == row[j];
  }

  /** A row's packets, delivered in any order to a client that is not on that row, yield exactly that row. */
  lemma RowArrivesInAnyOrder(s: Assembly, id: u16, row: seq<Bin>, cs: seq<Chunk>)
    requires Valid(s) && NotOn(s, id, |row|)
    requires 0 < |row| < 0x1_0000 && AllFinite(row)
    requires multiset(cs) == multiset(Split(id, row, 0))
    ensures Receive(s, Encoded(cs)).1 == [row]
    ensures Receive(s, Encoded(cs)).0.row == Some(id)
  {
    hide Split, Covered, Feed, Receive, Disjoint, CutFrom, Carries, AllFinite, Count, Span, OfRow, AllFit;
    ShuffledChunks(id, row, cs);
    ReceivesEncoded(s, cs);
    RowState(s, cs, id, |row|);
    CountIsCoverage(cs, id, |row|);
    CarriedRow(id, row, cs, Feed(s, cs).0.buf);
  }

  // ---- a stream of rows -----------------------------------------------------------------------------

  /** The id of the `k`-th row behind row `first`. */
  function RowId(first: u16, k: nat): u16 {
    if k == 0 then first else Next(RowId(first, k - 1), 0x1_0000)
  }

  function Concat(parts: seq<seq<seq<byte>>>): seq<seq<byte>>
    decreases |parts|
  {
    if parts == [] then [] else Concat(parts[..|parts| - 1]) + parts[|parts| - 1]
  }

  /** `parts[k]` is what arrives of row `k`: all its payloads, in some order. */
  ghost predicate Delivers(parts: seq<seq<seq<byte>>>, rows: seq<seq<Bin>>, first: u16) {
    && |parts| == |rows|
    && forall k :: 0 <= k < |rows| ==>
         && 0 < |rows[k]| < 0x1_0000 && AllFinite(rows[k])
         && Shuffled(parts[k], rows[k], RowId(first, k))
  }

  ghost predicate Shuffled(part: seq<seq<byte>>, row: seq<Bin>, id: u16)
    requires |row| < 0x1_0000
  {
    exists cs :: part == Encoded(cs) && multiset(cs) == multiset(Split(id, row, 0))
  }

  /** Every row of a stream comes out once, whole and in order, however its packets were reordered among themselves. */
  lemma {:induction false} StreamRoundTrip(parts: seq<seq<seq<byte>>>, rows: seq<seq<Bin>>, first: u16)
    requires Delivers(parts, rows, first)
    ensures Receive(NOTHING, Concat(parts)).1 == rows
    ensures rows != [] ==> Receive(NOTHING, Concat(parts)).0.row == Some(RowId(first, |rows| - 1))
    ensures rows == [] ==> Receive(NOTHING, Concat(parts)).0.row == None
    decreases |rows|
  {
    hide Split, AllFinite, Receive, Shuffled, RowId;
    if rows == [] {
      NothingReceived();
    } else {
      var n := |rows| - 1;
      assert forall k :: 0 <= k < n ==> parts[..n][k] == parts[k] && rows[..n][k] == rows[k];
      StreamRoundTrip(parts[..n], rows[..n], first);
      var s := Receive(NOTHING, Concat(parts[..n])).0;
      NextIdDiffers(first, n);
      NextRow(s, parts[n], rows[n], RowId(first, n));
      ReceiveAppend(NOTHING, Concat(parts[..n]), parts[n]);
      assert rows == rows[..n] + [rows[n]];
    }
  }

  lemma NothingReceived()
    ensures Receive(NOTHING, []) == (NOTHING, [])
  {
  }

  lemma NextIdDiffers(first: u16, k: nat)
    ensures k > 0 ==> RowId(first, k) != RowId(first, k - 1)
  {
  }

  lemma NextRow(s: Assembly, part: seq<seq<byte>>, row: seq<Bin>, id: u16)
    requires Valid(s) && NotOn(s, id, |row|)
    requires 0 < |row| < 0x1_0000 && AllFinite(row) && Shuffled(part, row, id)
    ensures Receive(s, part).1 == [row]
    ensures Receive(s, part).0.row == Some(id)
  {
    hide Split, AllFinite, Receive, Encoded;
    var cs :| part == Encoded(cs) && multiset(cs) == multiset(Split(id, row, 0));
    RowArrivesInAnyOrder(s, id, row, cs);
  }

  // ---- any payloads at all ----------------------------------------------------------------------------

  /** `c` belongs to the same row as the chunks so far. */
  predicate GoesOn(cs: seq<Chunk>, c: Chunk) {
    cs != [] && cs[0].row == c.row && cs[0].total == c.total
  }

  /** The chunks received since the row id or size last changed. */
  function CurrentRow(payloads: seq<seq<byte>>): seq<Chunk>
    decreases |payloads|
  {
    if payloads == [] then []
    else
      var cs := CurrentRow(payloads[..|payloads| - 1]);
      match Decode(payloads[|payloads| - 1])
      case None => cs
      case Some(c) =>
        if GoesOn(cs, c) then cs + [c] else [c]
  }

  /** A bin is zero, or a chunk of the run carried it at that place. */
  predicate CarriedBy(cs: seq<Chunk>, buf: seq<Bin>, j: nat)
    requires j < |buf|
  {
    buf[j] == 0 || exists i :: 0 <= i < |cs| && Brings(cs[i], buf, j)
  }

  predicate Brings(c: Chunk, buf: seq<Bin>, j: nat)
    requires j < |buf|
  {
    c.offset <= j < c.offset + |c.bins| && c.bins[j - c.offset] == buf[j]
  }

  /** The assembly is on the row of the current run, and holds finite bins of that run only. */
  predicate Sourced(s: Assembly, cs: seq<Chunk>) {
    && (if cs == [] then s == NOTHING else s.row == Some(cs[0].row) && s.total == cs[0].total)
    && (forall k :: 0 <= k < |cs| ==> cs[k].row == cs[0].row && cs[k].total == cs[0].total)
    && AllFinite(s.buf)
    && (forall j :: 0 <= j < |s.buf| ==> CarriedBy(cs, s.buf, j))
  }

  lemma {:induction false} WrittenIsSourced(buf: seq<Bin>, offset: nat, bins: seq<Bin>)
    requires offset + |bins| <= |buf| && AllFinite(buf)
    ensures AllFinite(Written(buf, offset, bins))
    ensures forall j :: 0 <= j < |buf| ==>
              || Written(buf, offset, bins)[j] == buf[j]
              || (offset <= j < offset + |bins| && Written(buf, offset, bins)[j] == bins[j - offset])
    decreases |bins|
  {
    hide Finite;
    if bins != [] && Finite(bins[0]) {
      CopyOne(buf, offset, bins);
      WrittenIsSourced(buf[offset := bins[0]], offset + 1, bins[1..]);
    }
  }

  lemma AddIsSourced(s: Assembly, cs: seq<Chunk>, c: Chunk)
    requires Valid(s) && Fits(c) && Sourced(Opened(s, c), cs + [c])
    ensures Sourced(Add(s, c).0, cs + [c])
  {
    hide Written, Finite, CarriedBy;
    var o := Opened(s, c);
    if o.done {
      DoneStaysOpen(s, c);
    } else {
      WrittenIsSourced(o.buf, c.offset, c.bins);
      var buf := Written(o.buf, c.offset, c.bins);
      forall j | 0 <= j < |buf|
        ensures CarriedBy(cs + [c], buf, j)
      {
        BinStaysCarried(cs, c, o.buf, buf, j);
      }
    }
  }

  lemma BinStaysCarried(cs: seq<Chunk>, c: Chunk, was: seq<Bin>, buf: seq<Bin>, j: nat)
    requires j < |was| == |buf| && CarriedBy(cs + [c], was, j)
    requires buf[j] == was[j] || (c.offset <= j < c.offset + |c.bins| && buf[j] == c.bins[j - c.offset])
    ensures CarriedBy(cs + [c], buf, j)
  {
    var all := cs + [c];
    if buf[j] != was[j] {
      assert Brings(all[|cs|], buf, j);
    } else if buf[j] != 0 {
      var i :| 0 <= i < |all| && Brings(all[i], was, j);
      assert Brings(all[i], buf, j);
    }
  }

  lemma SameRowStaysSourced(s: Assembly, cs: seq<Chunk>, c: Chunk)
    requires Valid(s) && Fits(c) && Sourced(s, cs) && GoesOn(cs, c)
    ensures Sourced(Opened(s, c), cs + [c])
  {
    hide Finite, Brings;
    forall j | 0 <= j < |s.buf|
      ensures CarriedBy(cs + [c], s.buf, j)
    {
      assert CarriedBy(cs, s.buf, j);
      if s.buf[j] != 0 {
        var i :| 0 <= i < |cs| && Brings(cs[i], s.buf, j);
        assert Brings((cs + [c])[i], s.buf, j);
      }
    }
  }

  lemma NewRowIsSourced(s: Assembly, cs: seq<Chunk>, c: Chunk)
    requires Valid(s) && Fits(c) && Sourced(s, cs) && !GoesOn(cs, c)
    ensures Sourced(Opened(s, c), [c])
  {
    hide Finite, Brings;
    ZeroIsFinite();
  }

  lemma ZeroIsFinite()
    ensures Finite(0)
  {
  }

  /** Whatever arrives, the assembly holds finite bins of the row it is on, and none of an earlier row. */
  lemma {:induction false} AssemblyIsSourced(payloads: seq<seq<byte>>)
    ensures Sourced(Receive(NOTHING, payloads).0, CurrentRow(payloads))
    decreases |payloads|
  {
    hide Add, Sourced, Decode;
    if payloads == [] {
      NothingIsSourced();
    } else {
      var front, last := payloads[..|payloads| - 1], payloads[|payloads| - 1];
      AssemblyIsSourced(front);
      if Decode(last).Some? {
        var c := Decode(last).value;
        var cs := CurrentRow(front);
        if GoesOn(cs, c) {
          SameRowStaysSourced(Receive(NOTHING, front).0, cs, c);
          AddIsSourced(Receive(NOTHING, front).0, cs, c);
        } else {
          assert [] + [c] == [c];
          NewRowIsSourced(Receive(NOTHING, front).0, cs, c);
          AddIsSourced(Receive(NOTHING, front).0, [], c);
        }
      }
    }
  }

  lemma NothingIsSourced()
    ensures Sourced(NOTHING, [])
  {
  }

  /** A row the client emits has the announced number of bins, all finite, each zero or sent for this very row. */
  lemma EmittedRowIsSourced(payloads: seq<seq<byte>>, payload: seq<byte>)
    ensures var (t, row) := Push(Receive(NOTHING, payloads).0, payload);
            var cs := CurrentRow(payloads + [payload]);
            row.Some? ==>
              && cs != [] && |row.value| == cs[0].total && AllFinite(row.value)
              && (forall k :: 0 <= k < |cs| ==> cs[k].row == cs[0].row && cs[k].total == cs[0].total)
              && forall j :: 0 <= j < |row.value| ==> CarriedBy(cs, row.value, j)
  {
    hide CarriedBy, Finite, Written, Decode, Receive, CurrentRow;
    var all := payloads + [payload];
    assert all[..|all| - 1] == payloads;
    AssemblyIsSourced(all);
    ReceiveOneMore(payloads, payload);
  }

  lemma ReceiveOneMore(payloads: seq<seq<byte>>, payload: seq<byte>)
    ensures Receive(NOTHING, payloads + [payload]).0 == Push(Receive(NOTHING, payloads).0, payload).0
  {
    hide Push;
    assert (payloads + [payload])[..|payloads|] == payloads;
  }

  // ---- one row, chunks overlapping or repeated ------------------------------------------------------------

  /** The assembly of a row that received `cs`, disjoint or not: done by count, and zero where nothing came. */
  predicate Counted(t: Assembly, cs: seq<Chunk>, row: u16, total: nat) {
    && t.row == Some(row) && t.total == total && |t.buf| == total
    && (t.done <==> Count(cs) >= total)
    && (!t.done ==> t.filled == Count(cs))
    && ZeroOutside(t.buf, Covered(cs))
  }

  predicate ZeroOutside(buf: seq<Bin>, covered: set<nat>) {
    forall j :: 0 <= j < |buf| && j !in covered ==> buf[j] == 0
  }

  lemma {:induction false} WrittenOutside(buf: seq<Bin>, offset: nat, bins: seq<Bin>)
    requires offset + |bins| <= |buf|
    ensures forall j :: 0 <= j < |buf| && !(offset <= j < offset + |bins|) ==> Written(buf, offset, bins)[j] == buf[j]
    decreases |bins|
  {
    hide Finite;
    if bins != [] && Finite(bins[0]) {
      CopyOne(buf, offset, bins);
      WrittenOutside(buf[offset := bins[0]], offset + 1, bins[1..]);
    }
  }

  lemma ZeroStaysOutside(buf: seq<Bin>, cs: seq<Chunk>)
    requires cs != [] && ZeroOutside(buf, Covered(cs[..|cs| - 1]))
    requires cs[|cs| - 1].offset + |cs[|cs| - 1].bins| <= |buf|
    ensures ZeroOutside(buf, Covered(cs))
    ensures ZeroOutside(Written(buf, cs[|cs| - 1].offset, cs[|cs| - 1].bins), Covered(cs))
  {
    hide Written, Covered;
    var c := cs[|cs| - 1];
    WrittenOutside(buf, c.offset, c.bins);
    forall j | 0 <= j < |buf| && j !in Covered(cs)
      ensures buf[j] == 0 && Written(buf, c.offset, c.bins)[j] == 0
    {
      CoveredGrows(cs, j);
    }
  }

  lemma OpensCounted(s: Assembly, c: Chunk)
    requires Fits(c) && NotOn(s, c.row, c.total)
    ensures Counted(Opened(s, c), [], c.row, c.total)
  {
  }

  /** One more chunk of the row emits it exactly when the count of bins reaches the row's size. */
  lemma CountedOneMore(s: Assembly, cs: seq<Chunk>, row: u16, total: nat)
    requires cs != [] && OfRow(cs, row, total) && Valid(s)
    requires Counted(Opened(s, cs[|cs| - 1]), cs[..|cs| - 1], row, total)
    ensures var (t, emitted) := Add(s, cs[|cs| - 1]);
            && Counted(t, cs, row, total)
            && emitted == (if Count(cs[..|cs| - 1]) < total <= Count(cs) then Some(t.buf) else None)
            && (Count(cs[..|cs| - 1]) >= total ==> t == s)
  {
    hide Written, Covered, ZeroOutside, AllFinite;
    var c := cs[|cs| - 1];
    var o := Opened(s, c);
    ZeroStaysOutside(o.buf, cs);
    if o.done {
      DoneStaysOpen(s, c);
    }
  }

  /** Whatever chunks of a row came, repeated or overlapping: one emission, of the buffer as it stood when enough bins were counted. */
  lemma {:induction false} CountedRun(s: Assembly, cs: seq<Chunk>, row: u16, total: nat)
    requires Valid(s) && NotOn(s, row, total)
    requires cs != [] && OfRow(cs, row, total) && AllFit(cs)
    ensures Counted(Feed(s, cs).0, cs, row, total)
    ensures Feed(s, cs).1 == if Count(cs) >= total then [Feed(s, cs).0.buf] else []
    decreases |cs|
  {
    hide Add, Covered, ZeroOutside, AllFinite, Fits, Count;
    var front, c := cs[..|cs| - 1], cs[|cs| - 1];
    CountGrows(cs);
    if front == [] {
      OpensCounted(s, c);
    } else {
      CountedRun(s, front, row, total);
      SameRowIsOpen(Feed(s, front).0, c);
    }
    CountedOneMore(Feed(s, front).0, cs, row, total);
    assert Feed(s, cs).1 == Feed(s, front).1 + Emission(Add(Feed(s, front).0, c).1);
  }

  lemma CountGrows(cs: seq<Chunk>)
    requires cs != []
    ensures Count(cs) == Count(cs[..|cs| - 1]) + |cs[|cs| - 1].bins|
    ensures cs[..|cs| - 1] == [] ==> Count(cs[..|cs| - 1]) == 0
  {
  }

  /** A chunk emits the row exactly when it brings the number of bins received, repeats included, to the row's size. */
  lemma EmitsAtCount(s: Assembly, cs: seq<Chunk>, row: u16, total: nat, k: nat)
    requires Valid(s) && NotOn(s, row, total) && k < |cs|
    requires OfRow(cs, row, total) && AllFit(cs)
    ensures var (t, emitted) := Add(Feed(s, cs[..k]).0, cs[k]);
            && emitted == (if Count(cs[..k]) < total <= Count(cs[..k + 1]) then Some(t.buf) else None)
            && ZeroOutside(t.buf, Covered(cs[..k + 1]))
  {
    hide Add, Covered, Fits, AllFinite, Feed, Opened, Count, ZeroOutside;
    var before, upto := cs[..k], cs[..k + 1];
    assert upto[..k] == before && upto[k] == cs[k];
    SliceOfRow(cs, row, total, k);
    SliceOfRow(cs, row, total, k + 1);
    CountedBefore(s, before, cs[k], row, total);
    CountedOneMore(Feed(s, before).0, upto, row, total);
  }

  lemma SliceOfRow(cs: seq<Chunk>, row: u16, total: nat, k: nat)
    requires k <= |cs| && OfRow(cs, row, total)
    ensures OfRow(cs[..k], row, total) && AllFit(cs[..k])
  {
    hide AllFinite, Fits;
  }

  lemma CountedBefore(s: Assembly, before: seq<Chunk>, c: Chunk, row: u16, total: nat)
    requires Valid(s) && NotOn(s, row, total) && Fits(c) && c.row == row && c.total == total
    requires OfRow(before, row, total) && AllFit(before)
    ensures Counted(Opened(Feed(s, before).0, c), before, row, total)
  {
    hide Feed, ZeroOutside, OfRow, AllFit, Count, Covered;
    if before == [] {
      OpensCounted(s, c);
      FeedNothing(s, before);
    } else {
      CountedRun(s, before, row, total);
      SameRowIsOpen(Feed(s, before).0, c);
    }
  }

  // ---- when repeated packets do no harm -------------------------------------------------------------------

  /** Packets of a sent row, each any number of times and in any order. */
  predicate OwnChunks(cs: seq<Chunk>, id: u16, row: seq<Bin>)
    requires |row| < 0x1_0000
  {
    AllFit(cs) && forall k :: 0 <= k < |cs| ==> cs[k] in Split(id, row, 0)
  }

  /** Rows of `n` bins come out whole or not at all, however often their packets are repeated or lost. */
  ghost predicate RepeatsAreHarmless(n: nat)
    requires n < 0x1_0000
  {
    forall s: Assembly, id: u16, row: seq<Bin>, cs: seq<Chunk> ::
      Valid(s) && NotOn(s, id, n) && |row| == n && AllFinite(row) && OwnChunks(cs, id, row) ==>
        Feed(s, cs).1 == [] || Feed(s, cs).1 == [row]
  }

  lemma OneChunkRow(id: u16, row: seq<Bin>)
    requires 0 < |row| <= BINS_PER_CHUNK
    ensures Split(id, row, 0) == [Chunk(id, |row|, 0, row)]
  {
    assert row[0..|row|] == row;
  }

  lemma FirstCopy(s: Assembly, c: Chunk, id: u16, row: seq<Bin>)
    requires Valid(s) && NotOn(s, id, |row|) && 0 < |row| < 0x1_0000 && AllFinite(row) && c == Chunk(id, |row|, 0, row)
    ensures Add(s, c) == (Assembly(Some(id), |row|, row, |row|, true), Some(row))
  {
    hide Written, AllFinite;
    WholeRowWritten(row);
    assert Opened(s, c).buf == Zeros(|row|);
  }

  /** A row of one packet: the first copy emits it, every further copy is ignored. */
  lemma {:induction false} CopiesOfOneChunk(s: Assembly, id: u16, row: seq<Bin>, cs: seq<Chunk>)
    requires Valid(s) && NotOn(s, id, |row|) && 0 < |row| < 0x1_0000 && AllFinite(row)
    requires AllFit(cs) && cs != [] && forall k :: 0 <= k < |cs| ==> cs[k] == Chunk(id, |row|, 0, row)
    ensures Feed(s, cs) == (Assembly(Some(id), |row|, row, |row|, true), [row])
    decreases |cs|
  {
    hide Written, AllFinite, Fits;
    var front, c := cs[..|cs| - 1], cs[|cs| - 1];
    if front == [] {
      FeedNothing(s, front);
      FirstCopy(s, c, id, row);
      assert Feed(s, cs).1 == [] + Emission(Some(row)) == [row];
    } else {
      CopiesOfOneChunk(s, id, row, front);
      assert Feed(s, cs).1 == [row] + Emission(None) == [row];
    }
  }

  lemma WholeRowWritten(row: seq<Bin>)
    requires AllFinite(row)
    ensures Written(Zeros(|row|), 0, row) == row
  {
    WrittenMeaning(Zeros(|row|), 0, row);
  }

  lemma SmallRowsSurvive(n: nat)
    requires 0 < n <= BINS_PER_CHUNK
    ensures RepeatsAreHarmless(n)
  {
    hide Feed, Split, AllFinite;
    forall s: Assembly, id: u16, row: seq<Bin>, cs: seq<Chunk>
      | Valid(s) && NotOn(s, id, n) && |row| == n && AllFinite(row) && OwnChunks(cs, id, row)
      ensures Feed(s, cs).1 == [] || Feed(s, cs).1 == [row]
    {
      OneChunkRow(id, row);
      if cs == [] {
        FeedNothing(s, cs);
      } else {
        CopiesOfOneChunk(s, id, row, cs);
      }
    }
  }

  lemma Ones(n: nat) returns (row: seq<Bin>)
    ensures |row| == n && AllFinite(row) && forall k :: 0 <= k < n ==> row[k] == 1
  {
    row := seq(n, _ => 1);
  }

  lemma {:induction false} CountOfCopies(cs: seq<Chunk>, c: Chunk)
    requires c.bins != [] && forall k :: 0 <= k < |cs| ==> cs[k] == c
    ensures Count(cs) >= |cs|
    decreases |cs|
  {
    if cs != [] {
      CountOfCopies(cs[..|cs| - 1], c);
    }
  }

  lemma {:induction false} CoverOfCopies(cs: seq<Chunk>, c: Chunk)
    requires forall k :: 0 <= k < |cs| ==> cs[k] == c
    ensures Covered(cs) <= Range(c)
    decreases |cs|
  {
    hide Range;
    if cs != [] {
      CoverOfCopies(cs[..|cs| - 1], c);
    }
  }

  lemma FirstChunkOf(id: u16, row: seq<Bin>) returns (c: Chunk)
    requires BINS_PER_CHUNK < |row| < 0x1_0000 && AllFinite(row)
    ensures c in Split(id, row, 0) && c == Chunk(id, |row|, 0, row[..BINS_PER_CHUNK]) && Fits(c) && AllFinite(c.bins)
  {
    hide Finite;
    c := Split(id, row, 0)[0];
    assert row[0..BINS_PER_CHUNK] == row[..BINS_PER_CHUNK];
  }

  /** A row of several packets is emitted incomplete when its first packet comes often enough. */
  lemma LargeRowsBreak(n: nat)
    requires BINS_PER_CHUNK < n < 0x1_0000
    ensures !RepeatsAreHarmless(n)
  {
    hide Split, Feed, AllFinite, Covered, Count, Fits, Range;
    var row := Ones(n);
    var c := FirstChunkOf(0, row);
    var cs := seq(n, _ => c);
    CountOfCopies(cs, c);
    CoverOfCopies(cs, c);
    CountedRun(NOTHING, cs, 0, n);
    LastBinIsApart(c, n);
    assert Feed(NOTHING, cs).1[0][n - 1] == 0;
    assert OwnChunks(cs, 0, row);
  }

  lemma LastBinIsApart(c: Chunk, n: nat)
    requires c.offset == 0 && |c.bins| < n
    ensures n - 1 !in Range(c)
  {
  }

  /**
   Repeated packets are harmless exactly for rows that fit one packet: only then is every row,
   whatever is repeated, lost or reordered, emitted whole or not at all.
   */
  lemma RepeatsAreHarmlessIff(n: nat)
    requires 0 < n < 0x1_0000
    ensures RepeatsAreHarmless(n) <==> n <= BINS_PER_CHUNK
  {
    hide RepeatsAreHarmless;
    if n <= BINS_PER_CHUNK {
      SmallRowsSurvive(n);
    } else {
      LargeRowsBreak(n);
    }
  }

  /** Overlapping chunks are counted twice: a repeated half row is emitted although the other half never came. */
  lemma RepeatedChunkCompletesRow(bin: Bin)
    requires Finite(bin)
    ensures var half := Chunk(7, 2, 0, [bin]);
            Feed(NOTHING, [half, half]).1 == [[bin, 0]]
  {
    hide Finite;
    var half := Chunk(7, 2, 0, [bin]);
    var once := Assembly(Some(7), 2, [bin, 0], 1, false);
    assert Zeros(2) == [0, 0];
    FirstHalf(half, bin);
    assert [half, half][..1] == [half];
    SecondHalf(half, bin, once);
    assert Feed(NOTHING, [half, half]).1 == [] + Emission(Some([bin, 0]));
  }

  lemma FirstHalf(half: Chunk, bin: Bin)
    requires Finite(bin) && half == Chunk(7, 2, 0, [bin])
    ensures Feed(NOTHING, [half]) == (Assembly(Some(7), 2, [bin, 0], 1, false), [])
  {
    hide Finite;
    assert Zeros(2)[0 := bin] == [bin, 0];
    assert [half][..|[half]| - 1] == [];
    FeedNothing(NOTHING, []);
    assert Feed(NOTHING, [half]).1 == [] + Emission(Add(NOTHING, half).1);
    assert Add(NOTHING, half) == (Assembly(Some(7), 2, [bin, 0], 1, false), None) by {
      WriteOne([0, 0], bin);
      assert Zeros(2) == [0, 0];
    }
  }

  lemma SecondHalf(half: Chunk, bin: Bin, once: Assembly)
    requires Finite(bin) && half == Chunk(7, 2, 0, [bin])
    requires once == Assembly(Some(7), 2, [bin, 0], 1, false)
    ensures Add(once, half) == (Assembly(Some(7), 2, [bin, 0], 2, true), Some([bin, 0]))
  {
    hide Finite;
    WriteOne([bin, 0], bin);
  }

  lemma WriteOne(buf: seq<Bin>, bin: Bin)
    requires |buf| == 2 && Finite(bin)
    ensures Written(buf, 0, [bin]) == [bin, buf[1]]
  {
    hide Finite;
    CopyOne(buf, 0, [bin]);
    assert [bin][1..] == [];
    assert buf[0 := bin] == [bin, buf[1]];
  }
}
