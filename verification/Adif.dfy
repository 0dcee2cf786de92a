/**
 The ADI file format of ADIF 3.1.6 as rigflow-log/src/adif.rs reads and writes it.
 Text is a sequence of Unicode scalar values; a field's length counts UTF-8 bytes.
 */
module Adif {
  import opened Wrappers
  import opened Text
  import opened Decimal
  import opened Ordering

  type AdifRecord = map<string, string>

  datatype AdifError =
    | UnterminatedTag
    | MissingLength(tag: string)
    | BadLength(tag: string)
    | TruncatedValue(field: string, want: nat, have: nat)
    | NonUtf8(field: string)

  // ---- bytes -----------------------------------------------------------------

  function Utf8Len(c: char): (n: nat)
    ensures 1 <= n <= 4
  {
    if c < '\U{80}' then 1 else if c < '\U{800}' then 2 else if c < '\U{10000}' then 3 else 4
  }

  /** `str::len`: UTF-8 bytes, not characters. */
  function ByteLen(s: string): nat {
    if s == "" then 0 else Utf8Len(s[0]) + ByteLen(s[1..])
  }

  /** Where a byte offset falls: on a character boundary, inside a character, or past the end. */
  datatype Cut = Boundary(chars: nat) | InsideChar | PastEnd

  function CutAt(s: string, len: nat): (c: Cut)
    ensures c.Boundary? ==> c.chars <= |s|
  {
    if len == 0 then Boundary(0)
    else if s == "" then PastEnd
    else if Utf8Len(s[0]) > len then InsideChar
    else match CutAt(s[1..], len - Utf8Len(s[0]))
      case Boundary(n) => Boundary(n + 1)
      case other => other
  }

  /** A cut is a boundary exactly behind a prefix of that many bytes, and past the end exactly when bytes run out. */
  lemma {:induction false} CutMeaning(s: string, len: nat)
    ensures CutAt(s, len) == PastEnd <==> ByteLen(s) < len
    ensures forall n: nat | n <= |s| :: CutAt(s, len) == Boundary(n) <==> ByteLen(s[..n]) == len
    decreases |s|
  {
    if len > 0 && s != "" {
      var u := Utf8Len(s[0]);
      if u <= len {
        CutMeaning(s[1..], len - u);
      }
      forall n: nat | n <= |s|
        ensures CutAt(s, len) == Boundary(n) <==> ByteLen(s[..n]) == len
      {
        if n > 0 {
          assert s[..n][1..] == s[1..][..n - 1];
        }
      }
    } else if len == 0 {
      forall n: nat | n <= |s|
        ensures CutAt(s, len) == Boundary(n) <==> ByteLen(s[..n]) == len
      {
      }
    }
  }

  // ---- tags ------------------------------------------------------------------

  /** Index of the first `c`, or the length when there is none. */
  function IndexOf(s: string, c: char): (i: nat)
    ensures i <= |s|
    ensures i < |s| ==> s[i] == c
    ensures forall k :: 0 <= k < i ==> s[k] != c
  {
    if s == "" || s[0] == c then 0 else 1 + IndexOf(s[1..], c)
  }

  lemma {:induction false} IndexOfIs(s: string, c: char, i: nat)
    requires i < |s| && s[i] == c && forall k :: 0 <= k < i ==> s[k] != c
    ensures IndexOf(s, c) == i
  {
  }

  lemma IndexOfNone(s: string, c: char)
    requires forall k :: 0 <= k < |s| ==> s[k] != c
    ensures IndexOf(s, c) == |s|
  {
  }

  /** The upper-cased, trimmed text in front of the first `:` of a tag. */
  function TagName(inner: string): string {
    Upper(Trim(inner[..IndexOf(inner, ':')]))
  }

  /** The text between the first and the second `:`; what follows is a type indicator. */
  function TagLength(inner: string): Option<string> {
    var i := IndexOf(inner, ':');
    if i == |inner| then None
    else Some(inner[i + 1..][..IndexOf(inner[i + 1..], ':')])
  }

  const EOH := "EOH"
  const EOR := "EOR"
  const LOTW_EOF := "APP_LOTW_EOF"

  // ---- parsing ---------------------------------------------------------------

  /** A last record without `<EOR>` counts only behind other records. */
  function Finish(current: AdifRecord, records: seq<AdifRecord>): seq<AdifRecord> {
    if current != map[] && records != [] then records + [current] else records
  }

  function CloseRecord(current: AdifRecord, records: seq<AdifRecord>): seq<AdifRecord> {
    if current != map[] then records + [current] else records
  }

  /** What one tag does: go on `chars` characters behind it with a new state, or stop. */
  datatype Effect =
    | Go(chars: nat, current: AdifRecord, records: seq<AdifRecord>)
    | Stop(result: Result<seq<AdifRecord>, AdifError>)

  function TagEffect(inner: string, after: string, current: AdifRecord, records: seq<AdifRecord>): (e: Effect)
    ensures e.Go? ==> e.chars <= |after|
  {
    var name := TagName(inner);
    if name == EOH then Go(0, map[], records)
    else if name == EOR then Go(0, map[], CloseRecord(current, records))
    else if name == LOTW_EOF then Stop(Ok(Finish(current, records)))
    else match TagLength(inner)
      case None => Stop(Err(MissingLength(name)))
      case Some(text) =>
        match ParseU64(Trim(text))
        case None => Stop(Err(BadLength(name)))
        case Some(len) =>
          match CutAt(after, len)
          case PastEnd => Stop(Err(TruncatedValue(name, len, ByteLen(after))))
          case InsideChar => Stop(Err(NonUtf8(name)))
          case Boundary(n) => Go(n, current[name := after[..n]], records)
  }

  /** What the parser makes of the text `rest` that is still ahead of it. */
  function Parse(rest: string, current: AdifRecord, records: seq<AdifRecord>): Result<seq<AdifRecord>, AdifError>
    decreases |rest|
  {
    if rest == "" then Ok(Finish(current, records))
    else if rest[0] != '<' then Parse(rest[1..], current, records)
    else
      var close := IndexOf(rest, '>');
      if close == |rest| then Err(UnterminatedTag)
      else match TagEffect(rest[1..close], rest[close + 1..], current, records)
        case Stop(result) => result
        case Go(n, c, rs) => Parse(rest[close + 1..][n..], c, rs)
  }

  lemma ParseComment(rest: string, current: AdifRecord, records: seq<AdifRecord>)
    requires rest != "" && rest[0] != '<'
    ensures Parse(rest, current, records) == Parse(rest[1..], current, records)
  {
  }

  lemma ParseEnd(rest: string, current: AdifRecord, records: seq<AdifRecord>)
    requires rest == ""
    ensures Parse(rest, current, records) == Ok(Finish(current, records))
  {
  }

  lemma ParseUnterminated(rest: string, current: AdifRecord, records: seq<AdifRecord>)
    requires rest != "" && rest[0] == '<' && IndexOf(rest, '>') == |rest|
    ensures Parse(rest, current, records) == Err(UnterminatedTag)
  {
  }

  lemma ParseTag(rest: string, close: nat, current: AdifRecord, records: seq<AdifRecord>, e: Effect)
    requires 0 < close < |rest| && rest[0] == '<' && close == IndexOf(rest, '>')
    requires e == TagEffect(rest[1..close], rest[close + 1..], current, records)
    ensures Parse(rest, current, records)
            == match e
               case Stop(result) => result
               case Go(n, c, rs) => Parse(rest[close + 1 + n..], c, rs)
  {
    if e.Go? {
      assert rest[close + 1..][e.chars..] == rest[close + 1 + e.chars..];
    }
  }

  lemma SliceOfRest(text: string, i: nat, from: nat, to: nat)
    requires i <= from <= to <= |text|
    ensures text[from..to] == text[i..][from - i..to - i]
    ensures to == |text| ==> text[from..] == text[i..][from - i..]
  {
  }

  /** The parser's loop over a text position, the record being built and the finished ones. */
  method ParseAdif(text: string) returns (r: Result<seq<AdifRecord>, AdifError>)
    ensures r == Parse(text, map[], [])
  {
    hide Parse, TagEffect, Finish, IndexOf;
    var i := 0;
    var records: seq<AdifRecord> := [];
    var current: AdifRecord := map[];
    assert text[0..] == text;
    while i < |text|
      invariant 0 <= i <= |text|
      invariant Parse(text[i..], current, records) == Parse(text, map[], [])
    {
      ghost var rest := text[i..];
      if text[i] != '<' {
        ParseComment(rest, current, records);
        SliceOfRest(text, i, i + 1, |text|);
        i := i + 1;
      } else {
        var close := i + IndexOf(text[i..], '>');
        if close == |text| {
          ParseUnterminated(rest, current, records);
          return Err(UnterminatedTag);
        }
        SliceOfRest(text, i, i + 1, close);
        SliceOfRest(text, i, close + 1, |text|);
        var effect := HandleTag(text[i + 1..close], text[close + 1..], current, records);
        ParseTag(rest, close - i, current, records, effect);
        match effect {
          case Stop(result) => return result;
          case Go(n, c, rs) =>
            SliceOfRest(text, i, close + 1 + n, |text|);
            i, current, records := close + 1 + n, c, rs;
        }
      }
    }
    ParseEnd(text[i..], current, records);
    r := Ok(Finish(current, records));
  }

  /** The tag cases of the loop: control tags first, then a length-prefixed field. */
  method HandleTag(inner: string, after: string, current: AdifRecord, records: seq<AdifRecord>) returns (e: Effect)
    ensures e == TagEffect(inner, after, current, records)
  {
    var name := TagName(inner);
    var lenPart := TagLength(inner);
    if name == EOH {
      return Go(0, map[], records);
    } else if name == EOR {
      if current != map[] {
        return Go(0, map[], records + [current]);
      }
      return Go(0, map[], records);
    } else if name == LOTW_EOF {
      return Stop(Ok(Finish(current, records)));
    } else if lenPart.None? {
      return Stop(Err(MissingLength(name)));
    }
    var len := ParseU64(Trim(lenPart.value));
    if len.None? {
      return Stop(Err(BadLength(name)));
    }
    match CutAt(after, len.value) {
      case PastEnd => return Stop(Err(TruncatedValue(name, len.value, ByteLen(after))));
      case InsideChar => return Stop(Err(NonUtf8(name)));
      case Boundary(n) => return Go(n, current[name := after[..n]], records);
    }
  }

  // ---- writing ---------------------------------------------------------------

  function WriteField(name: string, value: string): string {
    "<" + name + ":" + Dec(ByteLen(value)) + ">" + value
  }

  function WriteFields(names: seq<string>, record: AdifRecord): string
    requires forall k :: 0 <= k < |names| ==> names[k] in record
  {
    if names == [] then "" else WriteField(names[0], record[names[0]]) + " " + WriteFields(names[1..], record)
  }

  /** One record, its fields in name order. */
  function WriteRecord(record: AdifRecord): string {
    WriteFields(Sorted(record.Keys), record) + "<EOR>\n"
  }

  /** The writer's loop over the ordered map. */
  method WriteRecordLoop(record: AdifRecord) returns (out: string)
    ensures out == WriteRecord(record)
  {
    hide WriteFields, WriteField, Sorted;
    var names := Sorted(record.Keys);
    ghost var fields := WriteFields(names, record);
    out := "";
    for k := 0 to |names|
      invariant out + WriteFields(names[k..], record) == fields
    {
      PeelField(names, k, record, out);
      var field := WriteField(names[k], record[names[k]]) + " ";
      out := out + field;
    }
    NoFieldLeft(names, record);
    out := out + "<EOR>\n";
  }

  lemma NoFieldLeft(names: seq<string>, record: AdifRecord)
    requires forall i :: 0 <= i < |names| ==> names[i] in record
    ensures WriteFields(names[|names|..], record) == ""
  {
    assert names[|names|..] == [];
  }

  lemma PeelField(names: seq<string>, k: nat, record: AdifRecord, out: string)
    requires k < |names| && forall i :: 0 <= i < |names| ==> names[i] in record
    ensures out + WriteFields(names[k..], record)
            == out + (WriteField(names[k], record[names[k]]) + " ") + WriteFields(names[k + 1..], record)
  {
    assert names[k..][1..] == names[k + 1..];
  }

  function WriteAll(records: seq<AdifRecord>): string {
    if records == [] then "" else WriteRecord(records[0]) + WriteAll(records[1..])
  }

  /** The header the journal starts with. */
  function AdifHeader(): string {
    "<ADIF_VER:5>3.1.6" + " " + "<PROGRAMID:7>rigflow" + " " + "<EOH>\n"
  }
}
