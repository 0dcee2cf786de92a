/**
 Documents as other programs write them: tags in any letter case, with blanks, type indicators, comments and
 end marks, and what is refused.
 */
module AdifGrammar {
  import opened Wrappers
  import opened Text
  import opened Decimal
  import opened Adif
  import opened AdifRoundTrip

  // ---- the pieces of a tag ---------------------------------------------------------------

  predicate Without(s: string, c: char) {
    forall k :: 0 <= k < |s| ==> s[k] != c
  }

  /** A name as it is written: nothing that would end it. */
  predicate NameText(pre: string) {
    Without(pre, ':') && Without(pre, '>')
  }

  /** What may follow a length or an end mark: nothing, or a further part behind `:`. */
  predicate Suffix(s: string) {
    Without(s, '>') && (s == "" || s[0] == ':')
  }

  function NameOf(pre: string): string {
    Upper(Trim(pre))
  }

  predicate IsControl(name: string) {
    name == "EOH" || name == "EOR" || name == "APP_LOTW_EOF"
  }

  lemma NameRead(pre: string, rest: string)
    requires NameText(pre) && Suffix(rest)
    ensures TagName(pre + rest) == NameOf(pre)
    ensures rest == "" ==> TagLength(pre + rest) == None
  {
    hide Trim, Upper, IndexOf;
    FirstMark(pre, rest);
    assert (pre + rest)[..|pre|] == pre;
  }

  lemma LengthRead(pre: string, len: string, suffix: string)
    requires NameText(pre) && Without(len, ':') && Suffix(suffix)
    ensures TagLength(pre + ":" + len + suffix) == Some(len)
  {
    hide IndexOf;
    var inner, behind := pre + ":" + len + suffix, len + suffix;
    assert inner == pre + (":" + behind);
    FirstMark(pre, ":" + behind);
    assert inner[|pre| + 1..] == behind;
    FirstMark(len, suffix);
    assert behind[..|len|] == len;
  }

  lemma FirstMark(front: string, rest: string)
    requires Without(front, ':') && (rest == "" || rest[0] == ':')
    ensures IndexOf(front + rest, ':') == |front|
  {
    if rest == "" {
      assert front + rest == front;
      IndexOfNone(front, ':');
    } else {
      IndexOfIs(front + rest, ':', |front|);
    }
  }

  /** A length between blanks is read. */
  lemma BlanksAroundLength(front: string, n: nat, back: string)
    requires Blank(front) && Blank(back) && n < U64_LIMIT
    ensures ParseU64(Trim(front + Dec(n) + back)) == Some(n)
    ensures Without(front + Dec(n) + back, ':') && Without(front + Dec(n) + back, '>')
  {
    hide Trim, ParseU64, Dec, Trimmed;
    DigitsAreNotMarks(Dec(n));
    TrimBlanks(front, Dec(n), back);
    ParseU64OfDec(n);
    BlanksAreNotMarks(front);
    BlanksAreNotMarks(back);
    assert forall k :: 0 <= k < |Dec(n)| ==> IsDigit(Dec(n)[k]);
  }

  lemma BlanksAreNotMarks(s: string)
    requires Blank(s)
    ensures Without(s, ':') && Without(s, '>')
  {
  }

  // ---- fields and end marks --------------------------------------------------------------------

  function FieldText(pre: string, front: string, value: string, back: string, suffix: string): string {
    "<" + (pre + ":" + (front + Dec(ByteLen(value)) + back) + suffix) + ">" + value
  }

  /**
   A field as documents write it: any letter case and blanks around the name, blanks around the length, and a
   type indicator behind it. It holds exactly its value, whatever the value contains.
   */
  lemma TypedFieldParses(
    pre: string, front: string, value: string, back: string, suffix: string, tail: string,
    current: AdifRecord, records: seq<AdifRecord>
  )
    requires NameText(pre) && !IsControl(NameOf(pre)) && Blank(front) && Blank(back) && Suffix(suffix)
    requires ByteLen(value) < U64_LIMIT
    ensures Parse(FieldText(pre, front, value, back, suffix) + tail, current, records)
            == Parse(tail, current[NameOf(pre) := value], records)
  {
    hide Parse, TagName, TagLength, CutAt, ParseU64, Trim, Upper, Dec, ByteLen, NameOf, Blank, Without;
    var len := front + Dec(ByteLen(value)) + back;
    var inner := pre + ":" + len + suffix;
    BlanksAroundLength(front, ByteLen(value), back);
    TypedTag(pre, len, suffix);
    CutPrefix(value, tail);
    assert (value + tail)[..|value|] == value && (value + tail)[|value|..] == tail;
    TagEffectParses(inner, value + tail, current, records, Go(|value|, current[NameOf(pre) := value], records));
    assert FieldText(pre, front, value, back, suffix) + tail == "<" + inner + ">" + (value + tail);
  }

  lemma TypedTag(pre: string, len: string, suffix: string)
    requires NameText(pre) && Without(len, ':') && Without(len, '>') && Suffix(suffix)
    ensures var inner := pre + ":" + len + suffix;
            && TagName(inner) == NameOf(pre) && TagLength(inner) == Some(len)
            && forall k :: 0 <= k < |inner| ==> inner[k] != '>'
  {
    hide TagName, TagLength, NameOf;
    var rest := ":" + len + suffix;
    assert pre + rest == pre + ":" + len + suffix;
    NameRead(pre, rest);
    LengthRead(pre, len, suffix);
  }

  function MarkText(pre: string, suffix: string): string {
    "<" + (pre + suffix) + ">"
  }

  function Closed(current: AdifRecord, records: seq<AdifRecord>): seq<AdifRecord> {
    if current == map[] then records else records + [current]
  }

  /** What is left at the end of a document: an open record counts only behind other records. */
  function AtEnd(current: AdifRecord, records: seq<AdifRecord>): seq<AdifRecord> {
    if current == map[] || records == [] then records else records + [current]
  }

  /** `<EOR>` in any letter case closes the record; an empty one is dropped. */
  lemma RecordEndParses(pre: string, suffix: string, tail: string, current: AdifRecord, records: seq<AdifRecord>)
    requires NameText(pre) && Suffix(suffix) && NameOf(pre) == "EOR"
    ensures Parse(MarkText(pre, suffix) + tail, current, records) == Parse(tail, map[], Closed(current, records))
  {
    hide Parse, TagName, TagLength, CutAt, ParseU64, NameOf;
    NameRead(pre, suffix);
    TagEffectParses(pre + suffix, tail, current, records, Go(0, map[], Closed(current, records)));
    assert tail[0..] == tail;
    assert MarkText(pre, suffix) + tail == "<" + (pre + suffix) + ">" + tail;
  }

  /** `<EOH>` in any letter case drops what was read as a record so far. */
  lemma HeaderEndParses(pre: string, suffix: string, tail: string, current: AdifRecord, records: seq<AdifRecord>)
    requires NameText(pre) && Suffix(suffix) && NameOf(pre) == "EOH"
    ensures Parse(MarkText(pre, suffix) + tail, current, records) == Parse(tail, map[], records)
  {
    hide Parse, TagName, TagLength, CutAt, ParseU64, NameOf;
    NameRead(pre, suffix);
    TagEffectParses(pre + suffix, tail, current, records, Go(0, map[], records));
    assert tail[0..] == tail;
    assert MarkText(pre, suffix) + tail == "<" + (pre + suffix) + ">" + tail;
  }

  /** `<APP_LoTW_EOF>` in any letter case ends the document, whatever follows. */
  lemma FileEndParses(pre: string, suffix: string, tail: string, current: AdifRecord, records: seq<AdifRecord>)
    requires NameText(pre) && Suffix(suffix) && NameOf(pre) == "APP_LOTW_EOF"
    ensures Parse(MarkText(pre, suffix) + tail, current, records) == Ok(AtEnd(current, records))
  {
    hide Parse, TagName, TagLength, CutAt, ParseU64, NameOf;
    NameRead(pre, suffix);
    TagEffectParses(pre + suffix, tail, current, records, Stop(Ok(AtEnd(current, records))));
    assert MarkText(pre, suffix) + tail == "<" + (pre + suffix) + ">" + tail;
  }

  /** Text in front of a tag is comment. */
  lemma {:induction false} CommentParses(comment: string, tail: string, current: AdifRecord, records: seq<AdifRecord>)
    requires Without(comment, '<')
    ensures Parse(comment + tail, current, records) == Parse(tail, current, records)
    decreases |comment|
  {
    hide Parse;
    if comment == "" {
      assert comment + tail == tail;
    } else {
      ParseComment(comment + tail, current, records);
      assert (comment + tail)[1..] == comment[1..] + tail;
      CommentParses(comment[1..], tail, current, records);
    }
  }

  // ---- whole documents ------------------------------------------------------------------------------

  datatype Item =
    | Comment(text: string)
    | Field(pre: string, front: string, value: string, back: string, suffix: string)
    | Mark(pre: string, suffix: string)

  predicate WellFormed(item: Item) {
    match item
    case Comment(text) => Without(text, '<')
    case Field(pre, front, value, back, suffix) =>
      && NameText(pre) && !IsControl(NameOf(pre)) && Blank(front) && Blank(back) && Suffix(suffix)
      && ByteLen(value) < U64_LIMIT
    case Mark(pre, suffix) => NameText(pre) && Suffix(suffix) && IsControl(NameOf(pre))
  }

  function ItemText(item: Item): string {
    match item
    case Comment(text) => text
    case Field(pre, front, value, back, suffix) => FieldText(pre, front, value, back, suffix)
    case Mark(pre, suffix) => MarkText(pre, suffix)
  }

  function TextOf(items: seq<Item>): string {
    if items == [] then "" else ItemText(items[0]) + TextOf(items[1..])
  }

  /** The records a list of items stands for. */
  function Meaning(items: seq<Item>, current: AdifRecord, records: seq<AdifRecord>): seq<AdifRecord>
    decreases |items|
  {
    if items == [] then AtEnd(current, records)
    else match items[0]
      case Comment(_) => Meaning(items[1..], current, records)
      case Field(pre, _, value, _, _) => Meaning(items[1..], current[NameOf(pre) := value], records)
      case Mark(pre, _) =>
        if NameOf(pre) == "EOH" then Meaning(items[1..], map[], records)
        else if NameOf(pre) == "EOR" then Meaning(items[1..], map[], Closed(current, records))
        else AtEnd(current, records)
  }

  lemma EndParses(current: AdifRecord, records: seq<AdifRecord>)
    ensures Parse("", current, records) == Ok(AtEnd(current, records))
  {
  }

  /** Every document made of comments, fields and end marks is read as what it stands for. */
  lemma {:induction false} DocumentMeaning(items: seq<Item>, current: AdifRecord, records: seq<AdifRecord>)
    requires forall k :: 0 <= k < |items| ==> WellFormed(items[k])
    ensures Parse(TextOf(items), current, records) == Ok(Meaning(items, current, records))
    decreases |items|
  {
    hide Parse, FieldText, MarkText, NameOf, Without, Blank, ByteLen, AtEnd, Closed;
    if items == [] {
      EndParses(current, records);
    } else {
      var tail, rest := TextOf(items[1..]), items[1..];
      match items[0]
      case Comment(text) =>
        CommentParses(text, tail, current, records);
        DocumentMeaning(rest, current, records);
      case Field(pre, front, value, back, suffix) =>
        TypedFieldParses(pre, front, value, back, suffix, tail, current, records);
        DocumentMeaning(rest, current[NameOf(pre) := value], records);
      case Mark(pre, suffix) =>
        if NameOf(pre) == "EOH" {
          HeaderEndParses(pre, suffix, tail, current, records);
          DocumentMeaning(rest, map[], records);
        } else if NameOf(pre) == "EOR" {
          RecordEndParses(pre, suffix, tail, current, records);
          DocumentMeaning(rest, map[], Closed(current, records));
        } else {
          FileEndParses(pre, suffix, tail, current, records);
        }
    }
  }

  // ---- what is refused --------------------------------------------------------------------------------

  /** A tag that is never closed. */
  lemma UnterminatedRefused(rest: string, current: AdifRecord, records: seq<AdifRecord>)
    requires Without(rest, '>')
    ensures Parse("<" + rest, current, records) == Err(UnterminatedTag)
  {
    hide Parse;
    IndexOfNone("<" + rest, '>');
    ParseUnterminated("<" + rest, current, records);
  }

  /** A field without a length. */
  lemma MissingLengthRefused(pre: string, tail: string, current: AdifRecord, records: seq<AdifRecord>)
    requires NameText(pre) && !IsControl(NameOf(pre))
    ensures Parse("<" + pre + ">" + tail, current, records) == Err(MissingLength(NameOf(pre)))
  {
    hide Parse, TagName, TagLength, CutAt, ParseU64, NameOf;
    NameRead(pre, "");
    assert pre + "" == pre;
    TagEffectParses(pre, tail, current, records, Stop(Err(MissingLength(NameOf(pre)))));
  }

  /** Digits, behind a plus sign if there is one, that fit a machine word. */
  predicate IsLength(s: string) {
    var digits := if s != "" && s[0] == '+' then s[1..] else s;
    digits != "" && AllDigits(digits) && Value(digits) < U64_LIMIT
  }

  /** A length is taken exactly when it is such a number. */
  lemma BadLengthRefused(
    pre: string, len: string, suffix: string, tail: string, current: AdifRecord, records: seq<AdifRecord>
  )
    requires NameText(pre) && !IsControl(NameOf(pre)) && Without(len, ':') && Without(len, '>') && Suffix(suffix)
    requires !IsLength(Trim(len))
    ensures Parse("<" + (pre + ":" + len + suffix) + ">" + tail, current, records) == Err(BadLength(NameOf(pre)))
  {
    hide Parse, TagName, TagLength, CutAt, NameOf, Trim, Without, Value;
    TypedTag(pre, len, suffix);
    TagEffectParses(pre + ":" + len + suffix, tail, current, records, Stop(Err(BadLength(NameOf(pre)))));
  }

  lemma BoundaryIsExact(s: string, n: nat)
    ensures CutAt(s, n).Boundary? ==> exists k :: 0 <= k <= |s| && ByteLen(s[..k]) == n
    ensures CutAt(s, n).PastEnd? <==> ByteLen(s) < n
  {
    CutMeaning(s, n);
    match CutAt(s, n)
    case Boundary(k) => assert ByteLen(s[..k]) == n;
    case _ =>
  }

  /** A length past the end of the text, or into the middle of a character. */
  lemma WrongLengthRefused(
    pre: string, front: string, n: nat, back: string, suffix: string, rest: string,
    current: AdifRecord, records: seq<AdifRecord>
  )
    requires NameText(pre) && !IsControl(NameOf(pre)) && Blank(front) && Blank(back) && Suffix(suffix) && n < U64_LIMIT
    requires forall k :: 0 <= k <= |rest| ==> ByteLen(rest[..k]) != n
    ensures Parse("<" + (pre + ":" + (front + Dec(n) + back) + suffix) + ">" + rest, current, records)
            == Err(if ByteLen(rest) < n then TruncatedValue(NameOf(pre), n, ByteLen(rest)) else NonUtf8(NameOf(pre)))
  {
    hide Parse, TagName, TagLength, CutAt, NameOf, Trim, Without, Blank, ByteLen, ParseU64, Dec;
    var len := front + Dec(n) + back;
    BlanksAroundLength(front, n, back);
    TypedTag(pre, len, suffix);
    BoundaryIsExact(rest, n);
    var error := if ByteLen(rest) < n then TruncatedValue(NameOf(pre), n, ByteLen(rest)) else NonUtf8(NameOf(pre));
    TagEffectParses(pre + ":" + len + suffix, rest, current, records, Stop(Err(error)));
  }
}
