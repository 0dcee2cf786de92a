/** Paging through a QRZ logbook yields every record once, in order. */
module QrzLaws {
  import opened Wrappers
  import opened Ends
  import opened Text
  import opened Decimal
  import opened Adif
  import opened AdifRoundTrip
  import opened HtmlEntities
  import opened QrzPaging

  // ---- scanning rendered records -------------------------------------------------------

  lemma LowerConcat(a: string, b: string)
    ensures Lower(a + b) == Lower(a) + Lower(b)
  {
  }

  /** Text without a key is skipped when what follows cannot complete one. */
  lemma {:induction false} FindSkips(pre: string, rest: string)
    requires '<' !in pre || (FindKey(pre) == None && (rest == "" || rest[0] == '<'))
    ensures FindKey(pre + rest)
            == match FindKey(rest) case Some(i) => Some(|pre| + i) case None => None
    decreases |pre|
  {
    if pre == "" {
      assert pre + rest == rest;
    } else {
      NoKeyHere(pre, rest);
      assert (pre + rest)[1..] == pre[1..] + rest;
      FindSkips(pre[1..], rest);
    }
  }

  lemma NoKeyHere(pre: string, rest: string)
    requires pre != ""
    requires '<' !in pre || (FindKey(pre) == None && (rest == "" || rest[0] == '<'))
    ensures !(KEY <= pre + rest)
  {
    if '<' !in pre {
      assert pre[0] in pre && (pre + rest)[0] == pre[0];
      assert KEY[0] == '<';
    } else if |KEY| <= |pre| {
      assert (pre + rest)[..|KEY|] == pre[..|KEY|];
    } else if rest != "" {
      assert (pre + rest)[|pre|] == '<' && KEY[|pre|] != '<';
    }
  }

  lemma ScanSkips(pre: string, rest: string, best: nat)
    requires '<' !in pre || (FindKey(pre) == None && (rest == "" || rest[0] == '<'))
    ensures Scan(pre + rest, best) == Scan(rest, best)
  {
    hide FindKey, NextLogid, Larger;
    FindSkips(pre, rest);
    if FindKey(rest).Some? {
      var i := FindKey(rest).value;
      assert (pre + rest)[|pre| + i + |KEY|..] == rest[i + |KEY|..];
    }
  }

  lemma {:induction false} DecIsShort(n: nat)
    ensures |Dec(n)| <= if n == 0 then 1 else n
  {
    if n >= 10 {
      DecIsShort(n / 10);
    }
  }

  lemma LengthOfField(n: nat)
    requires n < U64_LIMIT
    ensures FieldLength(Dec(n)) == n
  {
    DigitsAreNotMarks(Dec(n));
    assert Dec(n)[..|Dec(n)|] == Dec(n);
    ParseU64OfDec(n);
  }

  lemma ValueOfField(id: nat, rest: string)
    requires id < U64_LIMIT
    ensures CutAt(Dec(id) + rest, |Dec(id)|) == Boundary(|Dec(id)|)
    ensures ValueOf(Dec(id) + rest, |Dec(id)|) == Some(id)
  {
    hide CutAt, ParseU64, Trim;
    assert forall k :: 0 <= k < |Dec(id)| ==> IsDigit(Dec(id)[k]);
    AsciiLen(Dec(id));
    CutPrefix(Dec(id), rest);
    assert (Dec(id) + rest)[..|Dec(id)|] == Dec(id);
    DigitsAreNotMarks(Dec(id));
    ParseU64OfDec(id);
  }

  lemma ReadsField(id: nat, rest: string)
    requires id < U64_LIMIT
    ensures NextLogid(Dec(|Dec(id)|) + ">" + Dec(id) + rest) == Field(Some(id), |Dec(|Dec(id)|)| + 1 + |Dec(id)|)
  {
    hide CutAt, ValueOf, FieldLength, IndexOf, Dec;
    var value := Dec(id);
    DecIsShort(id);
    var digits := Dec(|value|);
    var text := digits + ">" + value + rest;
    DigitsAreNotMarks(digits);
    IndexOfIs(text, '>', |digits|);
    LengthOfField(|value|);
    ValueOfField(id, rest);
    assert text[..|digits|] == digits && text[|digits| + 1..] == value + rest;
  }

  /** A rendered record contributes exactly its logid, and the scan goes on behind it. */
  lemma ScanRecord(r: LogRecord, rest: string, best: nat)
    requires Rendered(r)
    ensures Scan(Lower(RecordText(r)) + rest, best) == Scan(rest, Larger(best, Some(r.logid)))
  {
    hide Scan, FindKey, NextLogid, Dec, Larger;
    var lead, tail := Lower(r.before), Lower(r.behind) + EOR_TAG + "\n" + rest;
    var field := Dec(|Dec(r.logid)|) + ">" + Dec(r.logid);
    SplitRecord(r, rest, lead, field, tail);
    ScanSkips(lead, KEY + field + tail, best);
    ScanField(r.logid, field, tail, best);
    ScanTail(Lower(r.behind), rest, Larger(best, Some(r.logid)));
    assert tail == Lower(r.behind) + (EOR_TAG + "\n" + rest);
  }

  lemma SplitRecord(r: LogRecord, rest: string, lead: string, field: string, tail: string)
    requires Rendered(r) && lead == Lower(r.before) && field == Dec(|Dec(r.logid)|) + ">" + Dec(r.logid)
    requires tail == Lower(r.behind) + EOR_TAG + "\n" + rest
    ensures Lower(RecordText(r)) + rest == lead + (KEY + field + tail)
  {
    hide FindKey, Dec, RecordText, Lower;
    LowerOfRecord(r);
  }

  lemma LowerOfRecord(r: LogRecord)
    requires Rendered(r)
    ensures Lower(RecordText(r))
            == Lower(r.before) + KEY + (Dec(|Dec(r.logid)|) + ">" + Dec(r.logid)) + Lower(r.behind) + EOR_TAG + "\n"
  {
    hide FindKey, Dec, Lower;
    var digits, id := Dec(|Dec(r.logid)|), Dec(r.logid);
    DigitsStayLower(digits);
    DigitsStayLower(id);
    LowerConcat(r.before, r.tag);
    LowerConcat(r.before + r.tag, digits);
    LowerConcat(r.before + r.tag + digits, ">");
    LowerConcat(r.before + r.tag + digits + ">", id);
    LowerConcat(r.before + r.tag + digits + ">" + id, r.behind);
    LowerConcat(r.before + r.tag + digits + ">" + id + r.behind, r.end);
    LowerConcat(r.before + r.tag + digits + ">" + id + r.behind + r.end, "\n");
    MarksStayLower();
  }

  lemma DigitsStayLower(s: string)
    requires AllDigits(s)
    ensures Lower(s) == s
  {
    assert forall k :: 0 <= k < |s| ==> IsDigit(s[k]);
  }

  lemma MarksStayLower()
    ensures Lower(">") == ">" && Lower("\n") == "\n"
  {
  }

  lemma ScanField(id: nat, field: string, tail: string, best: nat)
    requires id < U64_LIMIT && field == Dec(|Dec(id)|) + ">" + Dec(id)
    ensures Scan(KEY + field + tail, best) == Scan(tail, Larger(best, Some(id)))
  {
    hide NextLogid, Dec, Larger, Scan;
    var text := KEY + field + tail;
    ReadsField(id, tail);
    assert text[|KEY|..] == Dec(|Dec(id)|) + ">" + Dec(id) + tail;
    assert KEY <= text;
    ScanStep(text, best, 0, Some(id), |field|);
    assert text[0 + |KEY| + |field|..] == tail;
  }

  lemma ScanTail(behind: string, rest: string, best: nat)
    requires FindKey(behind) == None
    ensures Scan(behind + (EOR_TAG + "\n" + rest), best) == Scan(rest, best)
  {
    hide Scan, FindKey;
    var end := "eor>\n";
    assert EOR_TAG + "\n" + rest == "<" + (end + rest);
    ScanSkips(behind, EOR_TAG + "\n" + rest, best);
    ScanSkipsTag(end + rest, best);
    ScanSkips(end, rest, best);
  }

  lemma ScanSkipsTag(rest: string, best: nat)
    requires rest != "" && rest[0] == 'e'
    ensures Scan("<" + rest, best) == Scan(rest, best)
  {
    hide NextLogid;
    var s := "<" + rest;
    assert s[1] == 'e' && KEY[1] != 'e' && s[1..] == rest;
    assert FindKey(s) == match FindKey(rest) case Some(i) => Some(i + 1) case None => None;
    if FindKey(rest).Some? {
      var i := FindKey(rest).value;
      assert s[i + 1 + |KEY|..] == rest[i + |KEY|..];
    }
  }

  // ---- one page --------------------------------------------------------------------------

  lemma {:induction false} TextAppend(a: seq<LogRecord>, b: seq<LogRecord>)
    ensures TextOf(a + b) == TextOf(a) + TextOf(b)
    decreases |a|
  {
    hide RecordText;
    if a == [] {
      assert a + b == b;
    } else {
      assert (a + b)[1..] == a[1..] + b;
      TextAppend(a[1..], b);
    }
  }

  /** The scan of a page of ascending records ends at the logid of its last one. */
  lemma {:induction false} LargestLogid(page: seq<LogRecord>, best: nat)
    requires Ascending(page) && page != [] && best < page[0].logid
    ensures Scan(Lower(TextOf(page)), best) == Some(page[|page| - 1].logid)
    decreases |page|
  {
    hide Scan, RecordText, Rendered;
    LowerConcat(RecordText(page[0]), TextOf(page[1..]));
    ScanRecord(page[0], Lower(TextOf(page[1..])), best);
    if |page| > 1 {
      LargestLogid(page[1..], page[0].logid);
    } else {
      NothingToScan(page[0].logid);
    }
  }

  lemma NothingToScan(best: nat)
    ensures Scan(Lower(TextOf([])), best) == Some(best)
  {
    assert Lower("") == "";
  }

  lemma {:induction false} MatchesOne(before: string, pattern: string, behind: string)
    requires pattern != ""
    ensures Matches(before + pattern + behind, pattern) > 0
  {
    var s := before + pattern + behind;
    if before == "" {
      assert pattern <= s;
    } else if !(pattern <= s) {
      assert s[1..] == before[1..] + pattern + behind;
      MatchesOne(before[1..], pattern, behind);
    }
  }

  lemma {:induction false} TrimKeeps(s: string, k: nat)
    requires k < |s| && !IsWhitespace(s[k])
    ensures Trim(s) != ""
    decreases |s|
  {
    if IsWhitespace(s[0]) {
      TrimKeeps(s[1..], k - 1);
    } else {
      TrimEndKeeps(s);
    }
  }

  lemma {:induction false} TrimEndKeeps(s: string)
    requires s != "" && !IsWhitespace(s[0])
    ensures TrimEnd(s) != ""
  {
    if IsWhitespace(s[|s| - 1]) {
      TrimEndKeeps(s[..|s| - 1]);
    }
  }

  /** A record ends in a record tag and a line break, so its page is neither blank nor without records. */
  lemma PageIsNotBlank(page: seq<LogRecord>)
    requires page != [] && Rendered(page[0])
    ensures Trim(TextOf(page)) != ""
    ensures Matches(Lower(TextOf(page)), EOR_TAG) > 0
  {
    hide Matches, FindKey, Dec, Trim, Lower;
    var r, rest := page[0], TextOf(page[1..]);
    var front := r.before + r.tag + Dec(|Dec(r.logid)|) + ">" + Dec(r.logid) + r.behind;
    var text := TextOf(page);
    assert text == front + r.end + ("\n" + rest);
    LowerConcat(front + r.end, "\n" + rest);
    LowerConcat(front, r.end);
    MatchesOne(Lower(front), EOR_TAG, Lower("\n" + rest));
    EndIsVisible(r);
    assert text[|front|] == r.end[0];
    TrimKeeps(text, |front|);
  }

  lemma EndIsVisible(r: LogRecord)
    requires Lower(r.end) == EOR_TAG
    ensures r.end != "" && r.end[0] == '<'
  {
    assert Lower(r.end)[0] == LowerChar(r.end[0]);
  }

  lemma {:induction false} EndsInNewline(page: seq<LogRecord>)
    requires page != []
    ensures TextOf(page) != "" && TextOf(page)[|TextOf(page)| - 1] == '\n'
    decreases |page|
  {
    hide Dec;
    if |page| > 1 {
      EndsInNewline(page[1..]);
    } else {
      assert page[1..] == [];
    }
  }

  // ---- the whole fetch ---------------------------------------------------------------------

  /** The logid behind which the records from `k` on lie. */
  function Cursor(records: seq<LogRecord>, k: nat): nat
    requires k <= |records|
  {
    if k == 0 then 0 else records[k - 1].logid
  }

  lemma {:induction false} AboveIsSuffix(records: seq<LogRecord>, after: nat, k: nat)
    requires k <= |records|
    requires forall i :: 0 <= i < k ==> records[i].logid <= after
    requires forall i :: k <= i < |records| ==> after < records[i].logid
    ensures Above(records, after) == records[k..]
    decreases |records|
  {
    if records != [] {
      AboveIsSuffix(records[1..], after, if k == 0 then 0 else k - 1);
    }
  }

  lemma AboveCursor(records: seq<LogRecord>, k: nat)
    requires Ascending(records) && k <= |records|
    ensures Above(records, Cursor(records, k)) == records[k..]
  {
    hide Above, Rendered;
    assert forall i :: 0 <= i < |records| ==> records[i].logid > 0 by {
      assert forall i :: 0 <= i < |records| ==> Rendered(records[i]);
      PositiveLogids(records);
    }
    AboveIsSuffix(records, Cursor(records, k), k);
  }

  lemma PositiveLogids(records: seq<LogRecord>)
    requires forall i :: 0 <= i < |records| ==> Rendered(records[i])
    ensures forall i :: 0 <= i < |records| ==> records[i].logid > 0
  {
    hide FindKey;
  }

  lemma StatsOfPage(page: seq<LogRecord>)
    requires Ascending(page) && page != []
    ensures PageStats(TextOf(page)) == Some((Matches(Lower(TextOf(page)), EOR_TAG), page[|page| - 1].logid))
  {
    hide Scan, Matches, TextOf, Lower, FindKey;
    assert Rendered(page[0]);
    LargestLogid(page, 0);
  }

  lemma PayloadOfPage(page: seq<LogRecord>)
    requires page != [] && Rendered(page[0])
    ensures Payload(Some(Escape(TextOf(page)))) == Some(TextOf(page))
  {
    hide Trim, HtmlDecode, Escape, TextOf, FindKey;
    DecodeInvertsEscape(TextOf(page));
    PageIsNotBlank(page);
  }

  lemma NewlineIsThere(out: string, text: string)
    requires text != "" && text[|text| - 1] == '\n'
    ensures NewlineEnded(out + text) == out + text
  {
    assert (out + text)[|out| + |text| - 1] == '\n';
  }

  /** A page moves the loop on to its last logid and appends exactly its records. */
  lemma TakesPage(answer: Answer, page: seq<LogRecord>, after: nat, out: string)
    requires Ascending(page) && page != [] && after < page[0].logid
    requires answer.Replied? && Accepted(answer.result) && answer.adif == Some(Escape(TextOf(page)))
    ensures TakePage(answer, after, out) == More(page[|page| - 1].logid, out + TextOf(page))
  {
    hide PageStats, Payload, NewlineEnded, Matches, Escape, TextOf, Lower, Rendered, Accepted;
    assert Rendered(page[0]);
    PayloadOfPage(page);
    PageIsNotBlank(page);
    StatsOfPage(page);
    EndsInNewline(page);
    NewlineIsThere(out, TextOf(page));
    assert page[0].logid <= page[|page| - 1].logid;
  }

  /** One accepted page leads from the cursor in front of record `k` to the cursor behind the page. */
  lemma TurnOfServer(server: nat -> Answer, records: seq<LogRecord>, cap: nat, k: nat, n: nat)
    requires Serves(server, records, cap) && Ascending(records)
    requires 0 < n && k + n <= |records| && First(records[k..], cap) == records[k..k + n]
    ensures TakePage(server(Cursor(records, k)), Cursor(records, k), TextOf(records[..k]))
            == More(Cursor(records, k + n), TextOf(records[..k + n]))
  {
    hide TakePage, Rendered, TextOf, Accepted, Above, First, Escape;
    var after, page := Cursor(records, k), records[k..k + n];
    AboveCursor(records, k);
    assert after < page[0].logid by {
      assert Rendered(records[0]);
      PositiveLogids(records);
    }
    TakesPage(server(after), page, after, TextOf(records[..k]));
    TextAppend(records[..k], page);
    assert records[..k] + page == records[..k + n];
  }

  lemma NoTurnLeft(server: nat -> Answer, records: seq<LogRecord>, cap: nat)
    requires Serves(server, records, cap) && Ascending(records)
    ensures TakePage(server(Cursor(records, |records|)), Cursor(records, |records|), TextOf(records))
            == Over(Log(TextOf(records)))
  {
    hide Rendered, TextOf, Above, Escape, PageStats, Payload;
    AboveCursor(records, |records|);
    if records != [] {
      EndsInNewline(records);
    }
  }

  /** From any cursor on, the fetch appends the records behind it in order, as many as its remaining pages hold. */
  lemma {:induction false} FetchesOn(server: nat -> Answer, records: seq<LogRecord>, cap: nat, k: nat, pages: nat)
    requires Serves(server, records, cap) && Ascending(records) && 0 < cap && k <= |records|
    ensures FetchFrom(server, Cursor(records, k), TextOf(records[..k]), pages)
            == Log(TextOf(First(records, k + cap * pages)))
    decreases pages
  {
    hide TakePage, Serves, Ascending, TextOf, First;
    if pages == 0 {
      FirstIsPrefix(records, k, 0);
    } else if k == |records| {
      NoTurnLeft(server, records, cap);
      assert records[..k] == records;
      FirstIsPrefix(records, k, cap * pages);
    } else {
      var n := if k + cap <= |records| then cap else |records| - k;
      FirstOfRest(records, cap, k, n);
      TurnOfServer(server, records, cap, k, n);
      FetchesOn(server, records, cap, k + n, pages - 1);
      PagesAddUp(records, cap, pages, k, n);
    }
  }

  lemma FirstIsPrefix(records: seq<LogRecord>, k: nat, more: nat)
    requires k <= |records|
    ensures First(records, k) == records[..k]
    ensures k == |records| ==> First(records, k + more) == records
  {
  }

  lemma FirstOfRest(records: seq<LogRecord>, cap: nat, k: nat, n: nat)
    requires k <= |records| && n == if k + cap <= |records| then cap else |records| - k
    ensures First(records[k..], cap) == records[k..k + n]
  {
    assert records[k..][..n] == records[k..k + n];
  }

  lemma PagesAddUp(records: seq<LogRecord>, cap: nat, pages: nat, k: nat, n: nat)
    requires 0 < pages && (n == cap || (n <= cap && k + n == |records|))
    ensures First(records, k + n + cap * (pages - 1)) == First(records, k + cap * pages)
  {
    assert cap * pages == cap + cap * (pages - 1);
  }

  /** A server as the service describes itself: the next `cap` confirmed records, then an accepted reply without ADIF. */
  function ServerOf(records: seq<LogRecord>, cap: nat): nat -> Answer {
    (after: nat) =>
      var page := First(Above(records, after), cap);
      Replied(Some("OK"), if page == [] then None else Some(Escape(TextOf(page))))
  }

  lemma ServerServes(records: seq<LogRecord>, cap: nat)
    ensures Serves(ServerOf(records, cap), records, cap)
  {
    hide Above, First, Escape, TextOf;
  }

  /** A fetch returns the first `MAX_PAGES * cap` records, each once and in ascending order. */
  lemma FetchReturnsInOrder(server: nat -> Answer, records: seq<LogRecord>, cap: nat)
    requires Serves(server, records, cap) && Ascending(records) && 0 < cap
    ensures FetchFrom(server, 0, "", MAX_PAGES) == Log(TextOf(First(records, cap * MAX_PAGES)))
  {
    hide FetchFrom, Serves, Ascending, First;
    assert records[..0] == [];
    FetchesOn(server, records, cap, 0, MAX_PAGES);
  }

  /** The download is complete exactly for logs of up to 100,000 confirmed records. */
  lemma FetchIsCompleteIff(server: nat -> Answer, records: seq<LogRecord>)
    requires Serves(server, records, PAGE) && Ascending(records)
    ensures FetchFrom(server, 0, "", MAX_PAGES) == Log(TextOf(records)) <==> |records| <= 100_000
  {
    hide FetchFrom, TextOf, Serves, Ascending;
    FetchReturnsInOrder(server, records, PAGE);
    if |records| > 100_000 {
      TextAppend(records[..100_000], records[100_000..]);
      assert records == records[..100_000] + records[100_000..];
      EndsInNewline(records[100_000..]);
    }
  }

  // ---- the slice out of range --------------------------------------------------------------------

  /** A logid field the scan comes to: its declared length, and the text behind its `>`. */
  datatype Visit = Visit(len: nat, after: string)

  /** The logid fields a scan of `s` comes to. */
  function Visits(s: string): seq<Visit>
    decreases |s|
  {
    match FindKey(s)
    case None => []
    case Some(i) =>
      var behind := s[i + |KEY|..];
      var gt := IndexOf(behind, '>');
      if gt == |behind| then []
      else
        var v := Visit(FieldLength(behind[..gt]), behind[gt + 1..]);
        match CutAt(v.after, Step(v))
        case Boundary(n) => [v] + Visits(v.after[n..])
        case _ => [v]
  }

  /** How many bytes the scan goes on: the declared length, at least one. */
  function Step(v: Visit): nat {
    if v.len == 0 then 1 else v.len
  }

  /** So many bytes end on a character boundary of the text that is there. */
  predicate InRange(v: Visit) {
    exists n :: 0 <= n <= |v.after| && ByteLen(v.after[..n]) == Step(v)
  }

  lemma InRangeIsBoundary(v: Visit)
    ensures InRange(v) <==> CutAt(v.after, Step(v)).Boundary?
  {
    hide CutAt, ByteLen, Step;
    CutMeaning(v.after, Step(v));
    match CutAt(v.after, Step(v))
    case Boundary(n) => assert ByteLen(v.after[..n]) == Step(v);
    case _ =>
  }

  /** The first field the scan comes to, if there is one. */
  function FirstVisit(s: string): Option<Visit> {
    match FindKey(s)
    case None => None
    case Some(i) =>
      var behind := s[i + |KEY|..];
      var gt := IndexOf(behind, '>');
      if gt == |behind| then None else Some(Visit(FieldLength(behind[..gt]), behind[gt + 1..]))
  }

  lemma NothingVisited(s: string, best: nat)
    requires FirstVisit(s) == None
    ensures Scan(s, best) == Some(best) && Visits(s) == []
  {
    hide FieldLength, ValueOf, Larger, CutAt;
  }

  lemma VisitOutOfRange(s: string, best: nat, v: Visit)
    requires FirstVisit(s) == Some(v) && !CutAt(v.after, Step(v)).Boundary?
    ensures Scan(s, best) == None && Visits(s) == [v]
  {
    hide FieldLength, ValueOf, Larger, CutAt, FindKey, IndexOf;
  }

  lemma VisitGoesOn(s: string, best: nat, v: Visit, n: nat)
    requires FirstVisit(s) == Some(v) && CutAt(v.after, Step(v)) == Boundary(n)
    ensures |v.after[n..]| < |s|
    ensures Scan(s, best) == Scan(v.after[n..], Larger(best, ValueOf(v.after, v.len)))
    ensures Visits(s) == [v] + Visits(v.after[n..])
  {
    hide FieldLength, ValueOf, Larger, CutAt, FindKey, IndexOf, Scan;
    var i := FindKey(s).value;
    var behind := s[i + |KEY|..];
    var gt := IndexOf(behind, '>');
    ScanStep(s, best, i, ValueOf(v.after, v.len), gt + 1 + n);
    assert s[i + |KEY| + (gt + 1 + n)..] == v.after[n..];
  }

  /** A scan goes out of range exactly when some field it comes to declares more bytes than follow, or ends inside a character. */
  lemma {:induction false} OutOfRangeIff(s: string, best: nat)
    ensures Scan(s, best) == None <==> exists k :: 0 <= k < |Visits(s)| && !InRange(Visits(s)[k])
    decreases |s|
  {
    hide Scan, Visits, FirstVisit, Larger, ValueOf, InRange, CutAt, Step;
    match FirstVisit(s)
    case None => NothingVisited(s, best);
    case Some(v) =>
      InRangeIsBoundary(v);
      match CutAt(v.after, Step(v))
      case Boundary(n) =>
        VisitGoesOn(s, best, v, n);
        OutOfRangeIff(v.after[n..], Larger(best, ValueOf(v.after, v.len)));
        VisitOrLater(v, Visits(v.after[n..]));
      case _ =>
        VisitOutOfRange(s, best, v);
        assert !InRange(Visits(s)[0]);
  }

  lemma VisitOrLater(v: Visit, rest: seq<Visit>)
    requires InRange(v)
    ensures (exists k :: 0 <= k < |[v] + rest| && !InRange(([v] + rest)[k]))
            <==> exists k :: 0 <= k < |rest| && !InRange(rest[k])
  {
    hide InRange;
    if k :| 0 <= k < |rest| && !InRange(rest[k]) {
      assert ([v] + rest)[k + 1] == rest[k];
    }
  }

  /** A page whose last logid field is empty and ends the text is out of range: the scan steps over one byte that is not there. */
  lemma EmptyFieldAtEnd()
    ensures Scan(KEY + ">", 0) == None
  {
    hide FindKey;
    assert KEY <= KEY + ">" && (KEY + ">")[|KEY|..] == ">";
    assert FindKey(KEY + ">") == Some(0) by { KeyIsFound(); }
    assert ">"[1..] == "";
  }

  lemma KeyIsFound()
    ensures FindKey(KEY + ">") == Some(0)
  {
    assert KEY <= KEY + ">";
  }

  /** A page with such a field, in an accepted reply. */
  predicate BadPage(answer: Answer) {
    && answer.Replied? && Accepted(answer.result) && Payload(answer.adif).Some?
    && exists k :: 0 <= k < |Visits(Lower(Payload(answer.adif).value))|
                   && !InRange(Visits(Lower(Payload(answer.adif).value))[k])
  }

  /** The worker's panic is the answer to such a page, and to nothing else. */
  lemma PanicsIffBadPage(answer: Answer, after: nat, out: string)
    ensures TakePage(answer, after, out) == Over(Panicked) <==> BadPage(answer)
  {
    hide Scan, Visits, InRange, Matches, Lower, Payload, NewlineEnded, Accepted;
    if answer.Replied? && Payload(answer.adif).Some? {
      OutOfRangeIff(Lower(Payload(answer.adif).value), 0);
    }
  }

  /** A fetch that panics was sent such a page. */
  lemma {:induction false} PanicMeansBadPage(server: nat -> Answer, after: nat, out: string, pages: nat)
    requires FetchFrom(server, after, out, pages) == Panicked
    ensures exists a: nat :: BadPage(server(a))
    decreases pages
  {
    hide TakePage, BadPage;
    PanicsIffBadPage(server(after), after, out);
    match TakePage(server(after), after, out)
    case Over(_) =>
    case More(next, more) => PanicMeansBadPage(server, next, more, pages - 1);
  }
}
