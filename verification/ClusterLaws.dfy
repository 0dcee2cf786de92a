/** Laws of the spot book over whole runs, and of the line reader over every way a stream is split. */
module ClusterLaws {
  import opened Wrappers
  import opened Ends
  import opened Cluster

  // ---- one insertion --------------------------------------------------------------------

  /** No two spots count as the same one. */
  predicate Distinct(spots: seq<DxSpot>) {
    forall i, k :: 0 <= i < k < |spots| ==> !SameSpot(spots[i], spots[k])
  }

  /** Spots stand in the order they were received. */
  predicate Chronological(spots: seq<DxSpot>) {
    forall i, k :: 0 <= i < k < |spots| ==> spots[i].receivedAt <= spots[k].receivedAt
  }

  predicate NoneAfter(spots: seq<DxSpot>, now: int) {
    forall k :: 0 <= k < |spots| ==> spots[k].receivedAt <= now
  }

  /** What every book keeps at instant `now`. */
  predicate Book(spots: seq<DxSpot>, now: int) {
    |spots| <= MAX_SPOTS && Distinct(spots) && Chronological(spots) && NoneAfter(spots, now)
  }

  /** Filtering keeps exactly the spots that pass, in their order. */
  lemma {:induction false} RetainMembers(spots: seq<DxSpot>, keep: DxSpot -> bool)
    ensures forall s :: s in Retain(spots, keep) <==> s in spots && keep(s)
    decreases |spots|
  {
    if spots != [] {
      var front := spots[..|spots| - 1];
      RetainMembers(front, keep);
      assert spots == front + [spots[|spots| - 1]];
    }
  }

  lemma {:induction false} RetainDistinct(spots: seq<DxSpot>, keep: DxSpot -> bool)
    requires Distinct(spots)
    ensures Distinct(Retain(spots, keep))
    decreases |spots|
  {
    hide SameSpot;
    if spots != [] {
      var front, last := spots[..|spots| - 1], spots[|spots| - 1];
      var kept := Retain(front, keep);
      RetainDistinct(front, keep);
      RetainMembers(front, keep);
      forall k | 0 <= k < |kept|
        ensures !SameSpot(kept[k], last)
      {
        assert kept[k] in kept;
        var j :| 0 <= j < |front| && front[j] == kept[k];
        assert spots[j] == kept[k];
      }
    }
  }

  lemma {:induction false} RetainChronological(spots: seq<DxSpot>, keep: DxSpot -> bool, now: int)
    requires Chronological(spots) && NoneAfter(spots, now)
    ensures Chronological(Retain(spots, keep)) && NoneAfter(Retain(spots, keep), now)
    decreases |spots|
  {
    if spots != [] {
      var front, last := spots[..|spots| - 1], spots[|spots| - 1];
      RetainChronological(front, keep, last.receivedAt);
    }
  }

  /** In chronological order the oldest spots are the first ones, so the newest `MAX_SPOTS` remain. */
  lemma {:induction false} BoundedIsLast(spots: seq<DxSpot>)
    requires Chronological(spots)
    ensures Bounded(spots) == Last(spots, MAX_SPOTS)
    decreases |spots|
  {
    hide OldestIndex, Removed;
    if |spots| > MAX_SPOTS {
      OldestIsFirst(spots);
      RemovedFirst(spots);
      BoundedIsLast(spots[1..]);
      assert Last(spots[1..], MAX_SPOTS) == Last(spots, MAX_SPOTS);
    }
  }

  lemma RemovedFirst(spots: seq<DxSpot>)
    requires spots != []
    ensures Removed(spots, 0) == spots[1..]
  {
  }

  lemma OldestIsFirst(spots: seq<DxSpot>)
    requires Chronological(spots) && spots != []
    ensures OldestIndex(spots) == 0
  {
    assert spots[0].receivedAt <= spots[OldestIndex(spots)].receivedAt;
  }

  /** An insertion under a clock that does not run backwards keeps the book, ends in the new spot, and drops only the oldest. */
  lemma InsertKeepsBook(spots: seq<DxSpot>, spot: DxSpot)
    requires Book(spots, spot.receivedAt)
    ensures Book(Inserted(spots, spot), spot.receivedAt)
    ensures Inserted(spots, spot) == Last(Without(spots, spot) + [spot], MAX_SPOTS)
    ensures spot in Inserted(spots, spot)
  {
    hide SameSpot, Bounded, Retain, Distinct, Chronological;
    var kept := Without(spots, spot);
    var all := kept + [spot];
    WithoutIsBook(spots, spot);
    BookWithSpot(kept, spot);
    BoundedIsLast(all);
    LastKeepsBook(all, spot.receivedAt);
    assert spot == Last(all, MAX_SPOTS)[|Last(all, MAX_SPOTS)| - 1];
  }

  lemma WithoutIsBook(spots: seq<DxSpot>, spot: DxSpot)
    requires Book(spots, spot.receivedAt)
    ensures Book(Without(spots, spot), spot.receivedAt)
    ensures forall k :: 0 <= k < |Without(spots, spot)| ==> !SameSpot(Without(spots, spot)[k], spot)
  {
    hide SameSpot, Retain, Distinct, Chronological;
    var keep := (s: DxSpot) => !SameSpot(s, spot);
    RetainMembers(spots, keep);
    RetainDistinct(spots, keep);
    RetainChronological(spots, keep, spot.receivedAt);
    assert forall k :: 0 <= k < |Retain(spots, keep)| ==> Retain(spots, keep)[k] in Retain(spots, keep);
  }

  lemma BookWithSpot(kept: seq<DxSpot>, spot: DxSpot)
    requires Book(kept, spot.receivedAt)
    requires forall k :: 0 <= k < |kept| ==> !SameSpot(kept[k], spot)
    ensures Distinct(kept + [spot]) && Chronological(kept + [spot]) && NoneAfter(kept + [spot], spot.receivedAt)
  {
    hide SameSpot;
  }

  lemma LastKeepsBook(all: seq<DxSpot>, now: int)
    requires Distinct(all) && Chronological(all) && NoneAfter(all, now)
    ensures Book(Last(all, MAX_SPOTS), now)
  {
    hide SameSpot;
    var n := if |all| <= MAX_SPOTS then 0 else |all| - MAX_SPOTS;
    var last := Last(all, MAX_SPOTS);
    assert forall k :: 0 <= k < |last| ==> last[k] == all[n + k];
  }

  /** On a full book one spot goes, and no remaining one is older. */
  lemma EvictsOldest(spots: seq<DxSpot>, spot: DxSpot)
    requires |Without(spots, spot)| == MAX_SPOTS
    ensures exists i :: 0 <= i <= MAX_SPOTS
              && Inserted(spots, spot) == Removed(Without(spots, spot) + [spot], i)
              && forall s :: s in Inserted(spots, spot) ==>
                   (Without(spots, spot) + [spot])[i].receivedAt <= s.receivedAt
  {
    hide Without;
    var all := Without(spots, spot) + [spot];
    var i := OldestIndex(all);
    OneTooMany(all);
  }

  lemma OneTooMany(all: seq<DxSpot>)
    requires |all| == MAX_SPOTS + 1
    ensures Bounded(all) == Removed(all, OldestIndex(all))
    ensures forall s :: s in Bounded(all) ==> all[OldestIndex(all)].receivedAt <= s.receivedAt
  {
    hide OldestIndex;
    var i := OldestIndex(all);
    assert Bounded(Removed(all, i)) == Removed(all, i);
    assert forall s :: s in Removed(all, i) ==> s in all;
  }

  /** Whatever the clock did: the new spot stays exactly when there is room, or a spot that is not newer to evict. */
  lemma StaysIff(spots: seq<DxSpot>, spot: DxSpot)
    requires |spots| <= MAX_SPOTS
    ensures spot in Inserted(spots, spot)
            <==> |Without(spots, spot)| < MAX_SPOTS
                 || exists s :: s in Without(spots, spot) && s.receivedAt <= spot.receivedAt
  {
    hide Without, SameSpot;
    var kept := Without(spots, spot);
    var all := kept + [spot];
    if |kept| < MAX_SPOTS {
      assert all[|kept|] == spot;
    } else {
      var i := OldestIndex(all);
      NewSpotIsNew(spots, spot);
      OneTooMany(all);
      if i < |kept| {
        assert all[i] == kept[i] && kept[i] in kept && all[i].receivedAt <= all[|kept|].receivedAt;
        assert Removed(all, i)[|kept| - 1] == spot;
      } else {
        assert Removed(all, i) == kept;
        forall s | s in kept
          ensures s.receivedAt > spot.receivedAt
        {
          var k :| 0 <= k < |kept| && kept[k] == s;
          assert all[k] == s;
        }
      }
    }
  }

  lemma NewSpotIsNew(spots: seq<DxSpot>, spot: DxSpot)
    ensures spot !in Without(spots, spot)
  {
    RetainMembers(spots, (s: DxSpot) => !SameSpot(s, spot));
    assert SameSpot(spot, spot);
  }

  // ---- whole runs -------------------------------------------------------------------------

  datatype Op = Insert(spot: DxSpot) | Expire(now: int, ttl: nat)

  function Time(op: Op): int {
    match op
    case Insert(spot) => spot.receivedAt
    case Expire(now, ttl) => now
  }

  function Apply(spots: seq<DxSpot>, op: Op): seq<DxSpot> {
    match op
    case Insert(spot) => Inserted(spots, spot)
    case Expire(now, ttl) => Unexpired(spots, now, ttl)
  }

  function Run(ops: seq<Op>): seq<DxSpot>
    decreases |ops|
  {
    if ops == [] then [] else Apply(Run(ops[..|ops| - 1]), ops[|ops| - 1])
  }

  predicate Monotone(ops: seq<Op>) {
    forall i, k :: 0 <= i < k < |ops| ==> Time(ops[i]) <= Time(ops[k])
  }

  /** Two reports of one station within 200 Hz of each other. */
  predicate OneReport(a: DxSpot, b: DxSpot) {
    a.dxCall == b.dxCall && a.freqHz <= b.freqHz + 200 && b.freqHz <= a.freqHz + 200
  }

  /** With room in the book, an insert drops exactly the earlier reports of its spot and adds it. */
  lemma InsertDropsReports(spots: seq<DxSpot>, spot: DxSpot)
    requires |spots| < 4000
    ensures forall s :: s in Inserted(spots, spot) <==> s == spot || (s in spots && !OneReport(s, spot))
  {
    hide Retain;
    RetainMembers(spots, (s: DxSpot) => !SameSpot(s, spot));
    var kept := Without(spots, spot);
    assert Inserted(spots, spot) == kept + [spot];
    assert forall s :: s in kept + [spot] <==> s in kept || s == spot;
    assert forall s :: SameSpot(s, spot) <==> OneReport(s, spot);
  }

  /** Expiry keeps the book, and of it exactly the spots younger than the time to live. */
  lemma ExpireKeepsBook(spots: seq<DxSpot>, now: int, ttl: nat)
    requires Book(spots, now)
    ensures Book(Unexpired(spots, now, ttl), now)
    ensures forall s :: s in Unexpired(spots, now, ttl) <==> s in spots && Age(s, now) < ttl
  {
    hide SameSpot, Age, Retain, Distinct, Chronological, NoneAfter;
    var keep := (s: DxSpot) => Age(s, now) < ttl;
    RetainMembers(spots, keep);
    RetainDistinct(spots, keep);
    RetainChronological(spots, keep, now);
  }

  lemma LaterBook(spots: seq<DxSpot>, now: int, later: int)
    requires Book(spots, now) && now <= later
    ensures Book(spots, later)
  {
    hide Distinct, Chronological;
  }

  /** Every book a monotone clock can build is bounded, free of double spots and chronological. */
  lemma {:induction false} RunKeepsBook(ops: seq<Op>)
    requires Monotone(ops)
    ensures ops == [] ==> Run(ops) == []
    ensures ops != [] ==> Book(Run(ops), Time(ops[|ops| - 1]))
    ensures ops != [] && ops[|ops| - 1].Insert? ==> ops[|ops| - 1].spot in Run(ops)
    decreases |ops|
  {
    hide Book, Inserted, Unexpired;
    if ops != [] {
      var front, op := ops[..|ops| - 1], ops[|ops| - 1];
      RunKeepsBook(front);
      if front == [] {
        EmptyBook(Time(op));
      } else {
        LaterBook(Run(front), Time(front[|front| - 1]), Time(op));
      }
      match op
      case Insert(spot) => InsertKeepsBook(Run(front), spot);
      case Expire(now, ttl) => ExpireKeepsBook(Run(front), now, ttl);
    }
  }

  lemma EmptyBook(now: int)
    ensures Book([], now)
  {
  }

  // ---- reading lines ------------------------------------------------------------------------

  /** The line breaks and carriage returns a line may end in. */
  predicate IsEnding(c: char) {
    c == '\r' || c == '\n'
  }

  /** Only the ending goes: what remains is a prefix that does not end in one, and the rest is nothing else. */
  lemma {:induction false} ChompIsExact(line: string)
    ensures Chomp(line) <= line
    ensures forall k :: |Chomp(line)| <= k < |line| ==> IsEnding(line[k])
    ensures Chomp(line) != "" ==> !IsEnding(Chomp(line)[|Chomp(line)| - 1])
  {
    if line != "" && IsEnding(line[|line| - 1]) {
      ChompIsExact(line[..|line| - 1]);
    }
  }

  /** The stretches of text up to and including each line break. */
  function Stretches(acc: string): seq<string>
    decreases |acc|
  {
    match FindBreak(acc)
    case None => []
    case Some(i) => [acc[..i + 1]] + Stretches(acc[i + 1..])
  }

  function Joined(stretches: seq<string>): string {
    if stretches == [] then "" else stretches[0] + Joined(stretches[1..])
  }

  /** The stretches and the remainder make up the text; each stretch holds one break, at its end, and yields one line. */
  lemma {:induction false} LinesAreWhole(acc: string)
    ensures var ss, (lines, rest) := Stretches(acc), Lines(acc);
            && acc == Joined(ss) + rest && '\n' !in rest && |lines| == |ss|
            && forall k :: 0 <= k < |ss| ==> lines[k] == Chomp(ss[k]) && OneBreak(ss[k])
    decreases |acc|
  {
    hide Chomp, FindBreak, Lines, Stretches, Joined, OneBreak;
    match FindBreak(acc)
    case None =>
      NoLineLeft(acc);
      NoStretch(acc);
    case Some(i) =>
      var rest := acc[i + 1..];
      LinesAreWhole(rest);
      TakeLine(acc, i);
      TakeStretch(acc, i);
      assert acc == acc[..i + 1] + (Joined(Stretches(rest)) + Lines(rest).1);
      assert Stretches(acc)[1..] == Stretches(rest);
  }

  lemma NoStretch(acc: string)
    requires FindBreak(acc) == None
    ensures Stretches(acc) == [] && Joined(Stretches(acc)) == ""
  {
    hide FindBreak;
  }

  lemma TakeStretch(acc: string, i: nat)
    requires FindBreak(acc) == Some(i)
    ensures Stretches(acc) == [acc[..i + 1]] + Stretches(acc[i + 1..])
    ensures Joined(Stretches(acc)) == acc[..i + 1] + Joined(Stretches(acc[i + 1..]))
    ensures OneBreak(acc[..i + 1])
  {
    hide FindBreak, OneBreak, Joined;
    TextCons(acc[..i + 1], Stretches(acc[i + 1..]));
    BreakEnds(acc, i);
  }

  lemma TextCons(stretch: string, more: seq<string>)
    ensures Joined([stretch] + more) == stretch + Joined(more)
  {
    assert ([stretch] + more)[1..] == more;
  }

  lemma BreakEnds(acc: string, i: nat)
    requires FindBreak(acc) == Some(i)
    ensures OneBreak(acc[..i + 1])
  {
    hide FindBreak;
    assert acc[..i + 1][..i] == acc[..i];
  }

  /** A line break at the end and nowhere else. */
  predicate OneBreak(s: string) {
    s != "" && s[|s| - 1] == '\n' && '\n' !in s[..|s| - 1]
  }

  /** Draining in two steps yields the lines and the remainder of draining once. */
  lemma {:induction false} LinesAppend(a: string, b: string)
    ensures Lines(a + b) == (Lines(a).0 + Lines(Lines(a).1 + b).0, Lines(Lines(a).1 + b).1)
    decreases |a|
  {
    hide Chomp, FindBreak, Lines;
    match FindBreak(a)
    case None =>
      NoLineLeft(a);
      assert [] + Lines(a + b).0 == Lines(a + b).0;
    case Some(i) =>
      BreakStays(a, b, i);
      var rest := a[i + 1..];
      assert (a + b)[..i + 1] == a[..i + 1] && (a + b)[i + 1..] == rest + b;
      TakeLine(a, i);
      TakeLine(a + b, i);
      LinesAppend(rest, b);
      var line, more := Chomp(a[..i + 1]), Lines(Lines(rest).1 + b).0;
      assert [line] + (Lines(rest).0 + more) == ([line] + Lines(rest).0) + more;
  }

  lemma BreakStays(a: string, b: string, i: nat)
    requires FindBreak(a) == Some(i)
    ensures FindBreak(a + b) == Some(i)
  {
    hide FindBreak;
    assert (a + b)[i] == '\n';
    assert forall k :: 0 <= k < i ==> (a + b)[k] == a[k];
  }

  function Concat(chunks: seq<string>): string
    decreases |chunks|
  {
    if chunks == [] then "" else Concat(chunks[..|chunks| - 1]) + chunks[|chunks| - 1]
  }

  /** A reader's state: the book, the accumulator and the lines handled. */
  datatype Reader = Reader(spots: seq<DxSpot>, acc: string, count: nat)

  function ReadChunk(
    r: Reader, chunk: string, parse: (string, int) -> Option<DxSpot>, clock: nat -> int
  ): Reader {
    var lines := Lines(r.acc + chunk);
    Reader(Ingested(r.spots, lines.0, r.count, parse, clock), lines.1, r.count + |lines.0|)
  }

  function ReadAll(
    r: Reader, chunks: seq<string>, parse: (string, int) -> Option<DxSpot>, clock: nat -> int
  ): Reader
    decreases |chunks|
  {
    if chunks == [] then r
    else ReadChunk(ReadAll(r, chunks[..|chunks| - 1], parse, clock), chunks[|chunks| - 1], parse, clock)
  }

  lemma {:induction false} IngestedAppend(
    spots: seq<DxSpot>, a: seq<string>, b: seq<string>, from: nat,
    parse: (string, int) -> Option<DxSpot>, clock: nat -> int
  )
    ensures Ingested(spots, a + b, from, parse, clock)
            == Ingested(Ingested(spots, a, from, parse, clock), b, from + |a|, parse, clock)
    decreases |a|
  {
    hide Inserted;
    if a == [] {
      assert a + b == b;
    } else {
      var next := match parse(a[0], clock(from))
                  case Some(spot) => Inserted(spots, spot)
                  case None => spots;
      assert (a + b)[1..] == a[1..] + b;
      IngestedAppend(next, a[1..], b, from + 1, parse, clock);
    }
  }

  /** However a stream is split into reads, the lines, the book and the remainder are those of a single read. */
  lemma {:induction false} SplitDoesNotMatter(
    r: Reader, chunks: seq<string>, parse: (string, int) -> Option<DxSpot>, clock: nat -> int
  )
    requires Lines(r.acc) == ([], r.acc)
    ensures ReadAll(r, chunks, parse, clock) == ReadChunk(r, Concat(chunks), parse, clock)
    decreases |chunks|
  {
    hide Lines, Ingested;
    if chunks == [] {
      assert r.acc + "" == r.acc;
      NothingToIngest(r.spots, r.count, parse, clock);
    } else {
      var front, chunk := chunks[..|chunks| - 1], chunks[|chunks| - 1];
      SplitDoesNotMatter(r, front, parse, clock);
      var text := r.acc + Concat(front);
      assert r.acc + Concat(chunks) == text + chunk;
      LinesAppend(text, chunk);
      IngestedAppend(r.spots, Lines(text).0, Lines(Lines(text).1 + chunk).0, r.count, parse, clock);
    }
  }

  // ---- the same stream at other times -------------------------------------------------------------

  /** A spot without the instant it was received at. */
  function Undated(s: DxSpot): DxSpot {
    s.(receivedAt := 0)
  }

  function UndatedAll(spots: seq<DxSpot>): (r: seq<DxSpot>)
    ensures |r| == |spots|
    ensures forall k :: 0 <= k < |spots| ==> r[k] == Undated(spots[k])
  {
    seq(|spots|, k requires 0 <= k < |spots| => Undated(spots[k]))
  }

  /** The parser uses the instant it is given for nothing but the stamp. */
  ghost predicate OnlyStamps(parse: (string, int) -> Option<DxSpot>) {
    forall line, t, u ::
      match (parse(line, t), parse(line, u))
      case (None, None) => true
      case (Some(a), Some(b)) => a.receivedAt == t && b.receivedAt == u && Undated(a) == Undated(b)
      case _ => false
  }

  ghost predicate NeverBackwards(clock: nat -> int) {
    forall i: nat, k: nat :: i <= k ==> clock(i) <= clock(k)
  }

  lemma {:induction false} UndatedWithout(spots: seq<DxSpot>, x: DxSpot, others: seq<DxSpot>, y: DxSpot)
    requires UndatedAll(spots) == UndatedAll(others) && Undated(x) == Undated(y)
    ensures UndatedAll(Without(spots, x)) == UndatedAll(Without(others, y))
    decreases |spots|
  {
    hide SameSpot;
    if spots == [] {
      assert |others| == |UndatedAll(others)|;
    } else {
      var n := |spots| - 1;
      assert |others| == |UndatedAll(others)| == n + 1;
      UndatedFronts(spots, others);
      UndatedWithout(spots[..n], x, others[..n], y);
      SameWhenUndated(spots[n], x, others[n], y);
      KeptOrNot(spots, x);
      KeptOrNot(others, y);
    }
  }

  lemma UndatedFronts(a: seq<DxSpot>, b: seq<DxSpot>)
    requires a != [] && b != [] && UndatedAll(a) == UndatedAll(b)
    ensures UndatedAll(a[..|a| - 1]) == UndatedAll(b[..|b| - 1])
    ensures Undated(a[|a| - 1]) == Undated(b[|b| - 1])
  {
    assert |a| == |UndatedAll(a)| == |b|;
    assert forall k :: 0 <= k < |a| ==> UndatedAll(a)[k] == UndatedAll(b)[k];
  }

  lemma SameWhenUndated(s: DxSpot, x: DxSpot, t: DxSpot, y: DxSpot)
    requires Undated(s) == Undated(t) && Undated(x) == Undated(y)
    ensures SameSpot(s, x) <==> SameSpot(t, y)
  {
  }

  lemma KeptOrNot(spots: seq<DxSpot>, x: DxSpot)
    requires spots != []
    ensures var n := |spots| - 1;
            Without(spots, x) == Without(spots[..n], x) + if SameSpot(spots[n], x) then [] else [spots[n]]
  {
    hide SameSpot;
  }

  /** Under clocks that do not run backwards, an insertion does the same to books that differ in stamps only. */
  lemma InsertionIgnoresStamps(a: seq<DxSpot>, x: DxSpot, b: seq<DxSpot>, y: DxSpot)
    requires Book(a, x.receivedAt) && Book(b, y.receivedAt)
    requires UndatedAll(a) == UndatedAll(b) && Undated(x) == Undated(y)
    ensures UndatedAll(Inserted(a, x)) == UndatedAll(Inserted(b, y))
  {
    hide Inserted, Without, Book, Last;
    InsertKeepsBook(a, x);
    InsertKeepsBook(b, y);
    UndatedWithout(a, x, b, y);
    var p, q := Without(a, x) + [x], Without(b, y) + [y];
    assert UndatedAll(p) == UndatedAll(Without(a, x)) + [Undated(x)];
    assert UndatedAll(q) == UndatedAll(Without(b, y)) + [Undated(y)];
    UndatedLast(p, MAX_SPOTS);
    UndatedLast(q, MAX_SPOTS);
  }

  lemma UndatedLast(p: seq<DxSpot>, n: nat)
    ensures UndatedAll(Last(p, n)) == Last(UndatedAll(p), n)
  {
    hide Undated;
    if |p| > n {
      assert UndatedAll(p[|p| - n..]) == UndatedAll(p)[|p| - n..];
    }
  }

  lemma {:induction false} IngestionIgnoresStamps(
    a: seq<DxSpot>, b: seq<DxSpot>, lines: seq<string>, from: nat,
    parse: (string, int) -> Option<DxSpot>, clock: nat -> int, other: nat -> int
  )
    requires Book(a, clock(from)) && Book(b, other(from)) && UndatedAll(a) == UndatedAll(b)
    requires OnlyStamps(parse) && NeverBackwards(clock) && NeverBackwards(other)
    ensures UndatedAll(Ingested(a, lines, from, parse, clock)) == UndatedAll(Ingested(b, lines, from, parse, other))
    decreases |lines|
  {
    hide Inserted, Book, Ingested, UndatedAll, Undated;
    if lines == [] {
      NothingToIngest(a, from, parse, clock);
      NothingToIngest(b, from, parse, other);
    } else {
      IngestLine(a, lines, from, parse, clock);
      IngestLine(b, lines, from, parse, other);
      var c, d := OneLineIgnoresStamps(a, b, lines[0], from, parse, clock, other);
      IngestionIgnoresStamps(c, d, lines[1..], from + 1, parse, clock, other);
    }
  }

  lemma OneLineIgnoresStamps(
    a: seq<DxSpot>, b: seq<DxSpot>, line: string, from: nat,
    parse: (string, int) -> Option<DxSpot>, clock: nat -> int, other: nat -> int
  ) returns (c: seq<DxSpot>, d: seq<DxSpot>)
    requires Book(a, clock(from)) && Book(b, other(from)) && UndatedAll(a) == UndatedAll(b)
    requires OnlyStamps(parse) && NeverBackwards(clock) && NeverBackwards(other)
    ensures c == match parse(line, clock(from)) case Some(spot) => Inserted(a, spot) case None => a
    ensures d == match parse(line, other(from)) case Some(spot) => Inserted(b, spot) case None => b
    ensures Book(c, clock(from + 1)) && Book(d, other(from + 1)) && UndatedAll(c) == UndatedAll(d)
  {
    hide Inserted, Book, UndatedAll, Undated;
    var p, q := parse(line, clock(from)), parse(line, other(from));
    assert clock(from) <= clock(from + 1) && other(from) <= other(from + 1);
    assert p.Some? <==> q.Some?;
    if p.Some? && q.Some? {
      var x, y := p.value, q.value;
      assert x.receivedAt == clock(from) && y.receivedAt == other(from) && Undated(x) == Undated(y);
      InsertKeepsBook(a, x);
      InsertKeepsBook(b, y);
      InsertionIgnoresStamps(a, x, b, y);
      LaterBook(Inserted(a, x), clock(from), clock(from + 1));
      LaterBook(Inserted(b, y), other(from), other(from + 1));
      c, d := Inserted(a, x), Inserted(b, y);
    } else {
      LaterBook(a, clock(from), clock(from + 1));
      LaterBook(b, other(from), other(from + 1));
      c, d := a, b;
    }
  }

  /**
   The split of a stream into reads decides when each line is handled, and so its stamp, but nothing else:
   two splits read under any two clocks leave the same remainder, as many lines, and the same spots in the same order.
   */
  lemma SplitMovesOnlyStamps(
    r: Reader, chunks: seq<string>, others: seq<string>,
    parse: (string, int) -> Option<DxSpot>, clock: nat -> int, other: nat -> int
  )
    requires Concat(chunks) == Concat(others) && Lines(r.acc) == ([], r.acc)
    requires Book(r.spots, clock(r.count)) && Book(r.spots, other(r.count))
    requires OnlyStamps(parse) && NeverBackwards(clock) && NeverBackwards(other)
    ensures var one, two := ReadAll(r, chunks, parse, clock), ReadAll(r, others, parse, other);
            && one.acc == two.acc && one.count == two.count
            && UndatedAll(one.spots) == UndatedAll(two.spots)
  {
    hide ReadAll, Book, Ingested, Lines, OnlyStamps, NeverBackwards, UndatedAll, Concat;
    SplitDoesNotMatter(r, chunks, parse, clock);
    SplitDoesNotMatter(r, others, parse, other);
    IngestionIgnoresStamps(r.spots, r.spots, Lines(r.acc + Concat(chunks)).0, r.count, parse, clock, other);
  }
}
