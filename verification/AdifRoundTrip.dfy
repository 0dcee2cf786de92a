/** Parsing what was written, and writing what was parsed. */
module AdifRoundTrip {
  import opened Wrappers
  import opened Text
  import opened Decimal
  import opened Ordering
  import opened Adif

  /** A field name a parser can hand out: trimmed, upper case, without `:` or `>`, no control tag. */
  predicate WellFormedName(name: string) {
    && Trimmed(name) && Upper(name) == name
    && IndexOf(name, ':') == |name| && IndexOf(name, '>') == |name|
    && name != EOH && name != EOR && name != LOTW_EOF
  }

  /** A record some document can hold: at least one field, and lengths that fit a machine word. */
  predicate Writable(record: AdifRecord) {
    record != map[] && FieldsWritable(record)
  }

  predicate FieldsWritable(record: AdifRecord) {
    forall name | name in record :: WellFormedName(name) && ByteLen(record[name]) < U64_LIMIT
  }

  // ---- one field ---------------------------------------------------------------

  lemma {:induction false} CutPrefix(value: string, tail: string)
    ensures CutAt(value + tail, ByteLen(value)) == Boundary(|value|)
  {
    CutMeaning(value + tail, ByteLen(value));
    assert (value + tail)[..|value|] == value;
  }

  lemma DigitsAreNotMarks(s: string)
    requires AllDigits(s) && s != ""
    ensures IndexOf(s, ':') == |s| && IndexOf(s, '>') == |s| && Trimmed(s) && Trim(s) == s
  {
    assert IsDigit(s[0]) && IsDigit(s[|s| - 1]);
    TrimTrims(s);
  }

  /** The inside of a written tag splits back into its name and its length. */
  lemma TagParts(name: string, digits: string)
    requires WellFormedName(name) && AllDigits(digits) && digits != ""
    ensures TagName(name + ":" + digits) == name
    ensures TagLength(name + ":" + digits) == Some(digits)
  {
    var inner := name + ":" + digits;
    IndexOfIs(inner, ':', |name|);
    assert inner[..|name|] == name && inner[|name| + 1..] == digits;
    TrimTrims(name);
    DigitsAreNotMarks(digits);
    assert digits[..|digits|] == digits;
  }

  /** The first `>` of a tag closes it when its inside holds none. */
  lemma TagAt(inner: string, after: string, text: string)
    requires text == "<" + inner + ">" + after
    requires forall k :: 0 <= k < |inner| ==> inner[k] != '>'
    ensures IndexOf(text, '>') == |inner| + 1
    ensures text[0] == '<' && text[1..|inner| + 1] == inner && text[|inner| + 2..] == after
  {
    IndexOfIs(text, '>', |inner| + 1);
  }

  lemma FieldEffect(name: string, value: string, tail: string, current: AdifRecord, records: seq<AdifRecord>)
    requires WellFormedName(name) && ByteLen(value) < U64_LIMIT
    ensures TagEffect(name + ":" + Dec(ByteLen(value)), value + tail, current, records)
            == Go(|value|, current[name := value], records)
  {
    var digits := Dec(ByteLen(value));
    TagParts(name, digits);
    DigitsAreNotMarks(digits);
    ParseU64OfDec(ByteLen(value));
    CutPrefix(value, tail);
    assert (value + tail)[..|value|] == value;
  }

  lemma InsideOfField(name: string, digits: string)
    requires WellFormedName(name) && AllDigits(digits) && digits != ""
    ensures forall k :: 0 <= k < |name + ":" + digits| ==> (name + ":" + digits)[k] != '>'
  {
    DigitsAreNotMarks(digits);
  }

  /** A written field parses as exactly its value, whatever the value contains. */
  lemma FieldParses(name: string, value: string, tail: string, current: AdifRecord, records: seq<AdifRecord>)
    requires WellFormedName(name) && ByteLen(value) < U64_LIMIT
    ensures Parse(WriteField(name, value) + tail, current, records) == Parse(tail, current[name := value], records)
  {
    hide Parse, TagEffect, WellFormedName, Dec, ByteLen;
    var digits := Dec(ByteLen(value));
    var inner := name + ":" + digits;
    InsideOfField(name, digits);
    FieldEffect(name, value, tail, current, records);
    assert WriteField(name, value) + tail == "<" + inner + ">" + (value + tail);
    TagEffectParses(inner, value + tail, current, records, Go(|value|, current[name := value], records));
    assert (value + tail)[|value|..] == tail;
  }

  /** A closed tag does to the parse what its effect says. */
  lemma TagEffectParses(inner: string, after: string, current: AdifRecord, records: seq<AdifRecord>, e: Effect)
    requires forall k :: 0 <= k < |inner| ==> inner[k] != '>'
    requires e == TagEffect(inner, after, current, records)
    ensures Parse("<" + inner + ">" + after, current, records)
            == match e
               case Stop(result) => result
               case Go(n, c, rs) => Parse(after[n..], c, rs)
  {
    var text := "<" + inner + ">" + after;
    TagAt(inner, after, text);
    ParseTag(text, |inner| + 1, current, records, e);
    if e.Go? {
      assert text[|inner| + 2 + e.chars..] == after[e.chars..];
    }
  }

  // ---- records and documents -----------------------------------------------------

  lemma EndOfRecord(tail: string, current: AdifRecord, records: seq<AdifRecord>)
    requires current != map[]
    ensures Parse("<EOR>\n" + tail, current, records) == Parse(tail, map[], records + [current])
  {
    var inner := "EOR";
    assert TagName(inner) == EOR by {
      IndexOfNone(inner, ':');
      assert inner[..3] == inner;
      TrimTrims(inner);
    }
    assert "<EOR>\n" + tail == "<" + inner + ">" + ("\n" + tail);
    TagEffectParses(inner, "\n" + tail, current, records, Go(0, map[], records + [current]));
    ParseComment("\n" + tail, map[], records + [current]);
    assert ("\n" + tail)[1..] == tail;
  }

  /** `current` with the named fields of `record` added. */
  function Absorb(current: AdifRecord, names: seq<string>, record: AdifRecord): AdifRecord
    decreases |names|
    requires forall k :: 0 <= k < |names| ==> names[k] in record
  {
    if names == [] then current
    else Absorb(current[names[0] := record[names[0]]], names[1..], record)
  }

  lemma {:induction false} AbsorbHas(current: AdifRecord, names: seq<string>, record: AdifRecord)
    requires forall k :: 0 <= k < |names| ==> names[k] in record
    ensures forall name :: name in Absorb(current, names, record) <==> name in current || name in names
    ensures forall name | name in names :: Absorb(current, names, record)[name] == record[name]
    ensures forall name | name in current && name !in names :: Absorb(current, names, record)[name] == current[name]
    decreases |names|
  {
    if names != [] {
      AbsorbHas(current[names[0] := record[names[0]]], names[1..], record);
      assert names == [names[0]] + names[1..];
    }
  }

  lemma {:induction false} FieldsParse(
      names: seq<string>, record: AdifRecord, tail: string, current: AdifRecord, records: seq<AdifRecord>)
    requires FieldsWritable(record) && forall k :: 0 <= k < |names| ==> names[k] in record
    ensures Parse(WriteFields(names, record) + tail, current, records)
            == Parse(tail, Absorb(current, names, record), records)
    decreases |names|
  {
    hide Parse, TagEffect, WriteField;
    if names == [] {
      assert WriteFields(names, record) + tail == tail;
    } else {
      var value := record[names[0]];
      var rest := WriteFields(names[1..], record) + tail;
      assert WriteFields(names, record) + tail == WriteField(names[0], value) + (" " + rest);
      FieldParses(names[0], value, " " + rest, current, records);
      ParseComment(" " + rest, current[names[0] := value], records);
      assert (" " + rest)[1..] == rest;
      FieldsParse(names[1..], record, tail, current[names[0] := value], records);
    }
  }

  lemma RecordParses(record: AdifRecord, tail: string, records: seq<AdifRecord>)
    requires Writable(record)
    ensures Parse(WriteRecord(record) + tail, map[], records) == Parse(tail, map[], records + [record])
  {
    hide Parse, TagEffect, WriteFields, Absorb;
    var names := Sorted(record.Keys);
    assert WriteRecord(record) + tail == WriteFields(names, record) + ("<EOR>\n" + tail);
    FieldsParse(names, record, "<EOR>\n" + tail, map[], records);
    AbsorbHas(map[], names, record);
    assert Absorb(map[], names, record) == record;
    EndOfRecord(tail, record, records);
  }

  lemma EmptyParses(records: seq<AdifRecord>)
    ensures Parse("", map[], records) == Ok(records)
  {
  }

  /** Writing records and parsing the text gives back exactly those records, behind any earlier ones. */
  lemma {:induction false} WrittenParses(written: seq<AdifRecord>, records: seq<AdifRecord>)
    requires forall k :: 0 <= k < |written| ==> Writable(written[k])
    ensures Parse(WriteAll(written), map[], records) == Ok(records + written)
    decreases |written|
  {
    hide Parse, WriteRecord, Writable;
    if written == [] {
      EmptyParses(records);
      assert records + written == records;
    } else {
      RecordParses(written[0], WriteAll(written[1..]), records);
      WrittenParses(written[1..], records + [written[0]]);
      assert records + [written[0]] + written[1..] == records + written;
    }
  }

  // ---- what a parser hands out -----------------------------------------------------

  lemma TagNameWellFormed(inner: string)
    requires IndexOf(inner, '>') == |inner|
    requires TagName(inner) != EOH && TagName(inner) != EOR && TagName(inner) != LOTW_EOF
    ensures WellFormedName(TagName(inner))
  {
    var head := inner[..IndexOf(inner, ':')];
    TrimTrims(head);
    TrimIsSlice(head);
    UpperKeepsTrim(Trim(head));
    UpperAvoids(Trim(head), ':');
    UpperAvoids(Trim(head), '>');
  }

  /** A mark that is no letter stays out of upper-cased text. */
  lemma UpperAvoids(s: string, mark: char)
    requires mark !in s && mark in ":>"
    ensures IndexOf(Upper(s), mark) == |s|
  {
    forall k | 0 <= k < |s|
      ensures Upper(s)[k] != mark
    {
      assert s[k] in s;
    }
    IndexOfNone(Upper(s), mark);
  }

  lemma {:induction false} TrimIsSlice(s: string)
    ensures forall c :: c in Trim(s) ==> c in s
  {
    TrimStartIsSlice(s);
    TrimEndKeepsStart(TrimStart(s));
  }

  lemma {:induction false} TrimStartIsSlice(s: string)
    ensures forall c :: c in TrimStart(s) ==> c in s
  {
    if s != "" && IsWhitespace(s[0]) {
      TrimStartIsSlice(s[1..]);
    }
  }

  /** Parsing keeps every record, and the one being built, writable. */
  lemma {:induction false} ParsedIsWritable(rest: string, current: AdifRecord, records: seq<AdifRecord>)
    requires Parse(rest, current, records).Ok?
    requires FieldsWritable(current) && forall k :: 0 <= k < |records| ==> Writable(records[k])
    ensures var out := Parse(rest, current, records).value;
            forall k :: 0 <= k < |out| ==> Writable(out[k])
    decreases |rest|
  {
    hide TagEffect, Writable, FieldsWritable;
    if rest == "" {
      FinishIsWritable(current, records);
    } else if rest[0] != '<' {
      ParsedIsWritable(rest[1..], current, records);
    } else {
      var close := IndexOf(rest, '>');
      var inner, after := rest[1..close], rest[close + 1..];
      IndexOfNone(inner, '>');
      var e := TagEffect(inner, after, current, records);
      if e.Go? {
        EffectIsWritable(inner, after, current, records);
        ParsedIsWritable(after[e.chars..], e.current, e.records);
      } else {
        StopIsFinish(inner, after, current, records);
        FinishIsWritable(current, records);
      }
    }
  }

  lemma FinishIsWritable(current: AdifRecord, records: seq<AdifRecord>)
    requires FieldsWritable(current) && forall k :: 0 <= k < |records| ==> Writable(records[k])
    ensures forall k :: 0 <= k < |Finish(current, records)| ==> Writable(Finish(current, records)[k])
  {
  }

  lemma StopIsFinish(inner: string, after: string, current: AdifRecord, records: seq<AdifRecord>)
    requires TagEffect(inner, after, current, records).Stop?
    ensures TagEffect(inner, after, current, records).result.Ok? ==>
              TagEffect(inner, after, current, records).result.value == Finish(current, records)
  {
  }

  lemma EffectIsWritable(inner: string, after: string, current: AdifRecord, records: seq<AdifRecord>)
    requires IndexOf(inner, '>') == |inner| && TagEffect(inner, after, current, records).Go?
    requires FieldsWritable(current) && forall k :: 0 <= k < |records| ==> Writable(records[k])
    ensures var e := TagEffect(inner, after, current, records);
            FieldsWritable(e.current) && forall k :: 0 <= k < |e.records| ==> Writable(e.records[k])
  {
    var name := TagName(inner);
    if name != EOH && name != EOR {
      TagNameWellFormed(inner);
      var len := ParseU64(Trim(TagLength(inner).value)).value;
      CutMeaning(after, len);
    }
  }

  /**
   Every document the parser accepts survives a rewrite: parsing what is written for
   its records gives the same records.
   */
  lemma DocumentRoundTrip(text: string)
    requires Parse(text, map[], []).Ok?
    ensures Parse(WriteAll(Parse(text, map[], []).value), map[], []) == Parse(text, map[], [])
  {
    hide Parse, WriteAll;
    ParsedIsWritable(text, map[], []);
    var records := Parse(text, map[], []).value;
    WrittenParses(records, []);
    assert [] + records == records;
  }

  /** Records survive writing and parsing exactly when each could have come from a document. */
  lemma WrittenParsesIff(written: seq<AdifRecord>)
    ensures Parse(WriteAll(written), map[], []) == Ok(written)
            <==> forall k :: 0 <= k < |written| ==> Writable(written[k])
  {
    hide Parse, WriteAll, Writable;
    if Parse(WriteAll(written), map[], []) == Ok(written) {
      NothingIsWritable();
      ParsedIsWritable(WriteAll(written), map[], []);
    }
    if forall k :: 0 <= k < |written| ==> Writable(written[k]) {
      WrittenParses(written, []);
      assert [] + written == written;
    }
  }

  lemma NothingIsWritable()
    ensures FieldsWritable(map[])
  {
  }

  // ---- the journal's header --------------------------------------------------------

  lemma HeaderField(name: string, value: string, tail: string, current: AdifRecord)
    requires WellFormedName(name) && ByteLen(value) < U64_LIMIT
    ensures Parse(WriteField(name, value) + " " + tail, current, []) == Parse(tail, current[name := value], [])
  {
    hide Parse, WriteField, TagEffect, WellFormedName;
    assert WriteField(name, value) + " " + tail == WriteField(name, value) + (" " + tail);
    FieldParses(name, value, " " + tail, current, []);
    ParseComment(" " + tail, current[name := value], []);
    assert (" " + tail)[1..] == tail;
  }

  lemma EndOfHeader(tail: string, current: AdifRecord)
    ensures Parse("<EOH>\n" + tail, current, []) == Parse(tail, map[], [])
  {
    var inner := "EOH";
    assert TagName(inner) == EOH by {
      IndexOfNone(inner, ':');
      assert inner[..3] == inner;
      TrimTrims(inner);
    }
    assert "<EOH>\n" + tail == "<" + inner + ">" + ("\n" + tail);
    TagEffectParses(inner, "\n" + tail, current, [], Go(0, map[], []));
    ParseComment("\n" + tail, map[], []);
    assert ("\n" + tail)[1..] == tail;
  }

  lemma HeaderNames()
    ensures WellFormedName("ADIF_VER") && ByteLen("3.1.6") == 5
    ensures WellFormedName("PROGRAMID") && ByteLen("rigflow") == 7
  {
    hide WellFormedName;
    NameIsWellFormed("ADIF_VER");
    NameIsWellFormed("PROGRAMID");
    AsciiLen("3.1.6");
    AsciiLen("rigflow");
  }

  lemma VersionField()
    ensures ByteLen("3.1.6") == 5 ==> WriteField("ADIF_VER", "3.1.6") == "<ADIF_VER:5>3.1.6"
  {
    hide Parse, TagEffect, ByteLen, WellFormedName;
    assert Dec(5) == "5";
    assert "<" + "ADIF_VER" + ":" == "<ADIF_VER:";
  }

  lemma ProgramField()
    ensures ByteLen("rigflow") == 7 ==> WriteField("PROGRAMID", "rigflow") == "<PROGRAMID:7>rigflow"
  {
    hide Parse, TagEffect, ByteLen, WellFormedName;
    assert Dec(7) == "7";
    assert "<" + "PROGRAMID" + ":" == "<PROGRAMID:";
  }

  lemma HeaderTail(version: string, program: string, end: string, tail: string)
    ensures version + " " + (program + " " + (end + tail)) == version + " " + program + " " + end + tail
  {
  }

  /** The header's own fields never reach a record. */
  lemma HeaderParses(tail: string)
    ensures Parse(AdifHeader() + tail, map[], []) == Parse(tail, map[], [])
  {
    hide Parse, TagEffect, WriteField, WellFormedName, ByteLen;
    HeaderNames();
    VersionField();
    ProgramField();
    var version, program, end := WriteField("ADIF_VER", "3.1.6"), WriteField("PROGRAMID", "rigflow"), "<EOH>\n";
    assert AdifHeader() == version + " " + program + " " + end;
    HeaderTail(version, program, end, tail);
    HeaderField("ADIF_VER", "3.1.6", program + " " + (end + tail), map[]);
    HeaderField("PROGRAMID", "rigflow", end + tail, map["ADIF_VER" := "3.1.6"]);
    EndOfHeader(tail, map["ADIF_VER" := "3.1.6"]["PROGRAMID" := "rigflow"]);
  }

  lemma {:induction false} AsciiLen(s: string)
    requires forall k :: 0 <= k < |s| ==> s[k] < '\U{80}'
    ensures ByteLen(s) == |s|
  {
    if s != "" {
      AsciiLen(s[1..]);
    }
  }

  /** Upper-case letters, digits and underscores make a well-formed name. */
  lemma NameIsWellFormed(name: string)
    requires name != "" && name != EOH && name != EOR && name != LOTW_EOF
    requires forall k :: 0 <= k < |name| ==> 'A' <= name[k] <= 'Z' || name[k] == '_' || IsDigit(name[k])
    ensures WellFormedName(name)
  {
    IndexOfNone(name, ':');
    IndexOfNone(name, '>');
  }
}
