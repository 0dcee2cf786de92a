/** Paged download of a QRZ logbook, rigflow-client/src/logging/qrz.rs. */
module QrzPaging {
  import opened Wrappers
  import opened Ends
  import opened Text
  import opened Decimal
  import opened Adif
  import opened HtmlEntities

  // ---- what one page says: its records and its largest logid ------------------------

  const KEY := "<app_qrzlog_logid:"
  const EOR_TAG := "<eor>"

  /** `find`: where the key first occurs. */
  function FindKey(s: string): (i: Option<nat>)
    ensures i.Some? ==> i.value + |KEY| <= |s|
  {
    if KEY <= s then Some(0)
    else if s == "" then None
    else match FindKey(s[1..])
      case Some(i) => Some(i + 1)
      case None => None
  }

  /** `matches(..).count()`: occurrences found left to right, none overlapping. */
  function Matches(s: string, pattern: string): nat
    requires pattern != ""
  {
    if s == "" then 0
    else if pattern <= s then 1 + Matches(s[|pattern|..], pattern)
    else Matches(s[1..], pattern)
  }

  /** Reading one logid field behind its key: no `>`, an id (if it parses) and how far to go on, or a slice out of range. */
  datatype Hit = NoMore | Field(id: Option<nat>, chars: nat) | OutOfRange

  /** The length of the field, 0 when it does not parse. */
  function FieldLength(inside: string): nat {
    match ParseU64(Trim(inside[..IndexOf(inside, ':')]))
    case Some(n) => n
    case None => 0
  }

  function NextLogid(behindKey: string): (h: Hit)
    ensures h.Field? ==> h.chars <= |behindKey|
  {
    var gt := IndexOf(behindKey, '>');
    if gt == |behindKey| then NoMore
    else
      var len := FieldLength(behindKey[..gt]);
      var after := behindKey[gt + 1..];
      match CutAt(after, if len == 0 then 1 else len)
      case Boundary(n) => Field(ValueOf(after, len), gt + 1 + n)
      case _ => OutOfRange
  }

  function ValueOf(after: string, len: nat): Option<nat> {
    match CutAt(after, len)
    case Boundary(n) => ParseU64(Trim(after[..n]))
    case _ => None
  }

  function Larger(best: nat, id: Option<nat>): nat {
    if id.Some? && id.value > best then id.value else best
  }

  /** The largest logid in `s`; none when the scan slices out of range. */
  function Scan(s: string, best: nat): Option<nat>
    decreases |s|
  {
    match FindKey(s)
    case None => Some(best)
    case Some(i) =>
      match NextLogid(s[i + |KEY|..])
      case NoMore => Some(best)
      case OutOfRange => None
      case Field(id, chars) => Scan(s[i + |KEY|..][chars..], Larger(best, id))
  }

  /** Records on a page and its largest logid. */
  function PageStats(adif: string): Option<(nat, nat)> {
    match Scan(Lower(adif), 0)
    case Some(id) => Some((Matches(Lower(adif), EOR_TAG), id))
    case None => None
  }

  lemma ScanStep(s: string, best: nat, i: nat, id: Option<nat>, chars: nat)
    requires FindKey(s) == Some(i) && NextLogid(s[i + |KEY|..]) == Field(id, chars)
    ensures Scan(s, best) == Scan(s[i + |KEY| + chars..], Larger(best, id))
  {
    hide FindKey, NextLogid, Larger;
    assert s[i + |KEY|..][chars..] == s[i + |KEY| + chars..];
  }

  lemma ScanStops(s: string, best: nat)
    ensures FindKey(s) == None ==> Scan(s, best) == Some(best)
    ensures FindKey(s).Some? && NextLogid(s[FindKey(s).value + |KEY|..]) == NoMore ==> Scan(s, best) == Some(best)
    ensures FindKey(s).Some? && NextLogid(s[FindKey(s).value + |KEY|..]) == OutOfRange ==> Scan(s, best) == None
  {
  }

  /** The scan as a loop over a text position. */
  method ScanPage(adif: string) returns (r: Option<(nat, nat)>)
    ensures r == PageStats(adif)
  {
    hide Scan, FindKey, NextLogid, Matches, Larger;
    var lower := Lower(adif);
    var count := Matches(lower, EOR_TAG);
    var maxLogid: nat := 0;
    var from := 0;
    assert lower[0..] == lower;
    while true
      invariant 0 <= from <= |lower|
      invariant Scan(lower[from..], maxLogid) == Scan(lower, 0)
      decreases |lower| - from
    {
      ghost var rest := lower[from..];
      ScanStops(rest, maxLogid);
      var i := FindKey(lower[from..]);
      if i.None? {
        break;
      }
      var start := from + i.value + |KEY|;
      assert lower[start..] == rest[i.value + |KEY|..];
      match NextLogid(lower[start..]) {
        case NoMore => break;
        case OutOfRange => return None;
        case Field(id, chars) =>
          ScanStep(rest, maxLogid, i.value, id, chars);
          assert lower[start + chars..] == rest[i.value + |KEY| + chars..];
          from := start + chars;
          maxLogid := Larger(maxLogid, id);
      }
    }
    r := Some((count, maxLogid));
  }

  // ---- the fetch loop ----------------------------------------------------------------

  const PAGE: nat := 250
  const MAX_PAGES: nat := 400

  /** What a request comes back with: a transport error, or a reply's RESULT and its still escaped ADIF. */
  datatype Answer = Failed | Replied(result: Option<string>, adif: Option<string>)

  datatype Fetched = Log(adif: string) | FetchError | Panicked

  predicate Accepted(result: Option<string>) {
    result == Some("OK") || result == Some("PARTIAL")
  }

  /** The decoded ADIF of an accepted reply, unless it is blank. */
  function Payload(adif: Option<string>): Option<string> {
    if adif.Some? && Trim(HtmlDecode(adif.value)) != "" then Some(HtmlDecode(adif.value)) else None
  }

  function NewlineEnded(s: string): string {
    if s != "" && s[|s| - 1] == '\n' then s else s + "\n"
  }

  /** What one answer does to the loop: it ends with a result, or goes on behind `after`. */
  datatype Turn = Over(result: Fetched) | More(after: nat, out: string)

  function TakePage(answer: Answer, after: nat, out: string): (t: Turn)
    ensures t.More? ==> t.after > after
  {
    match answer
    case Failed => Over(FetchError)
    case Replied(result, adif) =>
      if !Accepted(result) then Over(if out == "" then FetchError else Log(out))
      else match Payload(adif)
        case None => Over(Log(out))
        case Some(text) =>
          match PageStats(text)
          case None => Over(Panicked)
          case Some((count, maxLogid)) =>
            if count == 0 then Over(Log(out))
            else if maxLogid <= after then Over(Log(NewlineEnded(out + text)))
            else More(maxLogid, NewlineEnded(out + text))
  }

  /** The rest of a fetch with `pages` requests left. */
  function FetchFrom(server: nat -> Answer, after: nat, out: string, pages: nat): Fetched
    decreases pages
  {
    if pages == 0 then Log(out)
    else match TakePage(server(after), after, out)
      case Over(result) => result
      case More(next, more) => FetchFrom(server, next, more, pages - 1)
  }

  /** The page loop. */
  method Fetch(server: nat -> Answer) returns (r: Fetched)
    ensures r == FetchFrom(server, 0, "", MAX_PAGES)
  {
    hide PageStats, Payload, NewlineEnded;
    var out := "";
    var after: nat := 0;
    for k := 0 to MAX_PAGES
      invariant FetchFrom(server, after, out, MAX_PAGES - k) == FetchFrom(server, 0, "", MAX_PAGES)
    {
      match server(after) {
        case Failed => return FetchError;
        case Replied(result, adif) =>
          if !Accepted(result) {
            if out == "" {
              return FetchError;
            }
            return Log(out);
          }
          var text := Payload(adif);
          if text.None? {
            return Log(out);
          }
          var stats := ScanPage(text.value);
          if stats.None? {
            return Panicked;
          }
          var (count, maxLogid) := stats.value;
          if count == 0 {
            return Log(out);
          }
          if maxLogid <= after {
            return Log(NewlineEnded(out + text.value));
          }
          out := NewlineEnded(out + text.value);
          after := maxLogid;
      }
    }
    r := Log(out);
  }

  // ---- the log a server holds ----------------------------------------------------------

  /** A confirmed record as text: its logid field, in any letter case, between other fields. */
  datatype LogRecord = LogRecord(before: string, tag: string, logid: nat, behind: string, end: string)

  function RecordText(r: LogRecord): string {
    r.before + r.tag + Dec(|Dec(r.logid)|) + ">" + Dec(r.logid) + r.behind + r.end + "\n"
  }

  function TextOf(records: seq<LogRecord>): string {
    if records == [] then "" else RecordText(records[0]) + TextOf(records[1..])
  }

  /** The logid is a positive machine word, and no other text passes for a logid field. */
  predicate Rendered(r: LogRecord) {
    && 0 < r.logid < U64_LIMIT
    && FindKey(Lower(r.before)) == None && FindKey(Lower(r.behind)) == None
    && Lower(r.tag) == KEY && Lower(r.end) == EOR_TAG
  }

  /** Records of distinct logids, in ascending order. */
  predicate Ascending(records: seq<LogRecord>) {
    && (forall k :: 0 <= k < |records| ==> Rendered(records[k]))
    && (forall i, k :: 0 <= i < k < |records| ==> records[i].logid < records[k].logid)
  }

  /** The records behind a logid. */
  function Above(records: seq<LogRecord>, after: nat): (above: seq<LogRecord>)
    ensures |above| <= |records|
  {
    if records == [] then []
    else (if records[0].logid > after then [records[0]] else []) + Above(records[1..], after)
  }

  /** An answer that there is nothing (more): accepted without ADIF, or refused once something was received. */
  predicate NothingMore(answer: Answer, first: bool) {
    && answer.Replied?
    && (if Accepted(answer.result) then Payload(answer.adif) == None else !first)
  }

  /** A server over `records` that answers with at most `cap` of the records behind the requested logid. */
  ghost predicate Serves(server: nat -> Answer, records: seq<LogRecord>, cap: nat) {
    forall after: nat ::
      var page := First(Above(records, after), cap);
      if page == [] then NothingMore(server(after), records == [])
      else server(after).Replied? && Accepted(server(after).result)
           && server(after).adif == Some(Escape(TextOf(page)))
  }
}
