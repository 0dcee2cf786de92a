/**
 Contacts as ADIF records and back (rigflow-log/src/adif.rs). Frequencies are exact
 decimals here where the source goes through `f64`.
 */
module QsoRecord {
  import opened Wrappers
  import opened Text
  import opened Decimal
  import opened Ordering
  import opened Adif
  import opened Model

  /** The ADIF fields that are columns of a contact; every other field goes to `extra`. */
  const COLUMN_FIELDS: seq<string> := [
    "CALL", "QSO_DATE", "TIME_ON", "BAND", "MODE", "SUBMODE", "FREQ", "FREQ_RX",
    "BAND_RX", "RST_SENT", "RST_RCVD", "GRIDSQUARE", "DXCC"]

  // ---- frequencies -------------------------------------------------------------

  /** The last `width` decimal digits of `n`, with leading zeros. */
  function Pad(n: nat, width: nat): (s: string)
    ensures |s| == width && AllDigits(s)
  {
    if width == 0 then "" else Pad(n / 10, width - 1) + [Digit(n % 10)]
  }

  /** MHz with six decimals. */
  function HzToMhz(hz: u64): string {
    Dec(hz / 1_000_000) + "." + Pad(hz % 1_000_000, 6)
  }

  /** What `f64::from_str` reads, with exact finite values. */
  datatype Float = Finite(value: real) | Infinite(negative: bool) | NaN

  function Pow10(n: int): real
    decreases if n < 0 then -n else n
  {
    if n == 0 then 1.0 else if n > 0 then 10.0 * Pow10(n - 1) else Pow10(n + 1) / 10.0
  }

  function Unsign(s: string): string {
    if s != "" && s[0] in "+-" then s[1..] else s
  }

  predicate Negative(s: string) {
    s != "" && s[0] == '-'
  }

  function Exponent(s: string): Option<int> {
    match Unsigned(Unsign(s))
    case Some(n) => Some(if Negative(s) then 0 - (n as int) else n as int)
    case None => None
  }

  /** The number of some digits times a power of ten. */
  function Scaled(digits: string, exponent: int): real
    requires AllDigits(digits)
  {
    Value(digits) as real * Pow10(exponent)
  }

  /** Digits with an optional point, times a power of ten. */
  function Mantissa(s: string, exponent: int): Option<real> {
    var p := IndexOf(s, '.');
    var whole, fraction := s[..p], if p < |s| then s[p + 1..] else "";
    if AllDigits(whole) && AllDigits(fraction) && whole + fraction != ""
    then Some(Scaled(whole + fraction, exponent - |fraction|))
    else None
  }

  function Magnitude(s: string): Option<real> {
    var e := IndexOf(Lower(s), 'e');
    if e == |s| then Mantissa(s, 0)
    else match Exponent(s[e + 1..])
      case Some(x) => Mantissa(s[..e], x)
      case None => None
  }

  function ParseFloat(s: string): Option<Float> {
    var word := Lower(Unsign(s));
    if word == "inf" || word == "infinity" then Some(Infinite(Negative(s)))
    else if word == "nan" then Some(NaN)
    else match Magnitude(Unsign(s))
      case Some(m) => Some(Finite(if Negative(s) then -m else m))
      case None => None
  }

  /** A saturating cast of a rounded non-negative number. */
  function ToU64(x: real): u64 {
    var n := (x + 0.5).Floor;
    if n < 0 then 0 else if n >= U64_LIMIT then U64_LIMIT - 1 else n
  }

  /** MHz text to Hz, to the nearest Hz; `None` when it is no number or negative. */
  function MhzToHz(mhz: string): Option<u64> {
    match ParseFloat(Trim(mhz))
    case None => None
    case Some(NaN) => Some(0)
    case Some(Infinite(negative)) => if negative then None else Some(U64_LIMIT - 1)
    case Some(Finite(v)) => if v < 0.0 then None else Some(ToU64(v * 1000000.0))
  }

  function Power10(e: nat): (p: nat)
    ensures p > 0
  {
    if e == 0 then 1 else 10 * Power10(e - 1)
  }

  lemma {:induction false} ValueOfPad(prefix: string, n: nat, width: nat)
    requires AllDigits(prefix) && n < Power10(width)
    ensures Value(prefix + Pad(n, width)) == Value(prefix) * Power10(width) + n
  {
    if width == 0 {
      assert prefix + Pad(n, 0) == prefix;
    } else {
      var all := prefix + Pad(n, width);
      assert all[..|all| - 1] == prefix + Pad(n / 10, width - 1);
      ValueOfPad(prefix, n / 10, width - 1);
      Distribute(Value(prefix), Power10(width - 1), n / 10, n % 10, n);
    }
  }

  lemma Distribute(v: nat, p: nat, q: nat, r: nat, n: nat)
    requires n == 10 * q + r
    ensures 10 * (v * p + q) + r == v * (10 * p) + n
  {
  }

  lemma MillionthPower()
    ensures Power10(6) == 1_000_000 && Pow10(-6) == 0.000001
  {
    assert Power10(3) == 1000;
    assert Pow10(-3) == 0.001;
  }

  /** The text of a frequency reads back as that frequency, for every 64-bit number of Hz. */
  lemma FrequencyRoundTrip(hz: u64)
    ensures MhzToHz(HzToMhz(hz)) == Some(hz)
  {
    hide Dec, Pad, ParseFloat, Trim, Value, Pow10, Power10, ToU64;
    var whole, fraction := Dec(hz / 1_000_000), Pad(hz % 1_000_000, 6);
    MillionthPower();
    PlainNumber(whole, fraction);
    ValueOfPad(whole, hz % 1_000_000, 6);
    ValueOfDec(hz / 1_000_000);
    assert Value(whole + fraction) == hz;
    Millionths(hz);
  }

  lemma Millionths(hz: u64)
    ensures ToU64(hz as real * 0.000001 * 1000000.0) == hz
  {
  }

  /** `digits.digits` is read without sign, exponent or word. */
  lemma PlainNumber(whole: string, fraction: string)
    requires AllDigits(whole) && AllDigits(fraction) && whole != "" && fraction != ""
    ensures var s := whole + "." + fraction;
            Trim(s) == s
            && ParseFloat(s) == Some(Finite(Scaled(whole + fraction, -|fraction|)))
  {
    hide Trim, Lower, Scaled, IndexOf, Mantissa;
    var s := whole + "." + fraction;
    PlainText(s);
    MantissaIs(whole, fraction, 0);
  }

  lemma PlainText(s: string)
    requires s != "" && IsDigit(s[0]) && IsDigit(s[|s| - 1])
    requires forall k :: 0 <= k < |s| ==> IsDigit(s[k]) || s[k] == '.'
    ensures Trim(s) == s && Unsign(s) == s && !Negative(s)
    ensures Lower(s)[0] == s[0] && IndexOf(Lower(s), 'e') == |s|
  {
    hide Trim;
    TrimTrims(s);
    IndexOfNone(Lower(s), 'e');
  }

  lemma MantissaIs(whole: string, fraction: string, exponent: int)
    requires AllDigits(whole) && AllDigits(fraction) && whole != "" && fraction != ""
    ensures Mantissa(whole + "." + fraction, exponent) == Some(Scaled(whole + fraction, exponent - |fraction|))
  {
    hide Scaled;
    var s := whole + "." + fraction;
    IndexOfIs(s, '.', |whole|);
    assert s[..|whole|] == whole && s[|whole| + 1..] == fraction;
  }

  /** A frequency is written as whole megahertz, a point and six digits of hertz. */
  lemma MhzMeaning(hz: u64)
    ensures var s, p := HzToMhz(hz), |Dec(hz / 1_000_000)|;
            && |s| == p + 7 && s[p] == '.'
            && AllDigits(s[..p]) && AllDigits(s[p + 1..])
            && 1_000_000 * Value(s[..p]) + Value(s[p + 1..]) == hz
  {
    hide Dec, Pad, Value, Power10;
    var whole, fraction := Dec(hz / 1_000_000), Pad(hz % 1_000_000, 6);
    var s := HzToMhz(hz);
    assert s[..|whole|] == whole && s[|whole| + 1..] == fraction;
    MillionthPower();
    ValueOfDec(hz / 1_000_000);
    NoPrefix(fraction, hz % 1_000_000, 6);
  }

  lemma NoPrefix(digits: string, n: nat, width: nat)
    requires digits == Pad(n, width) && n < Power10(width)
    ensures Value(digits) == n
  {
    hide Pad, Power10;
    ValueOfPad("", n, width);
    assert "" + digits == digits;
  }

  /** Any plain decimal number of megahertz is read as the nearest number of hertz, halves upward, while it fits. */
  lemma ReadsNearestHz(whole: string, fraction: string, front: string, back: string)
    requires AllDigits(whole) && AllDigits(fraction) && whole != "" && fraction != "" && Blank(front) && Blank(back)
    ensures var hz := Scaled(whole + fraction, -|fraction|) * 1000000.0;
            hz < (U64_LIMIT - 1) as real ==>
              match MhzToHz(front + (whole + "." + fraction) + back)
              case Some(n) => n as real - 0.5 <= hz < n as real + 0.5
              case None => false
  {
    hide Trim, ParseFloat, Value, Pow10;
    var s := whole + "." + fraction;
    PlainNumber(whole, fraction);
    assert IsDigit(s[0]) && IsDigit(s[|s| - 1]);
    TrimBlanks(front, s, back);
    ScaledIsPositive(whole + fraction, -|fraction|);
  }

  /** A negative number of megahertz is no frequency; a negative zero is zero. */
  lemma NegativeIsRefused(whole: string, fraction: string)
    requires AllDigits(whole) && AllDigits(fraction) && whole != "" && fraction != ""
    ensures MhzToHz("-" + (whole + "." + fraction))
            == if Scaled(whole + fraction, -|fraction|) > 0.0 then None else Some(0)
  {
    hide Trim, ParseFloat, Value, Pow10, Lower;
    var s := whole + "." + fraction;
    var signed := "-" + s;
    PlainNumber(whole, fraction);
    assert Unsign(signed) == s && Negative(signed);
    assert IsDigit(s[0]) && IsDigit(s[|s| - 1]);
    TrimTrims(signed);
    SignedFloat(s);
    ScaledIsPositive(whole + fraction, -|fraction|);
  }

  /** The words for infinity and for no number, in any letter case, saturate; a negative infinity is no frequency. */
  lemma WordsSaturate(word: string)
    requires Trimmed(word) && Lower(word) in ["inf", "infinity", "nan"]
    ensures MhzToHz(word) == Some(if Lower(word) == "nan" then 0 else U64_LIMIT - 1)
    ensures MhzToHz("-" + word) == if Lower(word) == "nan" then Some(0) else None
  {
    hide Trim, Magnitude;
    assert Lower(word)[0] == LowerChar(word[0]);
    assert Unsign(word) == word && Unsign("-" + word) == word && !Negative(word) && Negative("-" + word);
    TrimTrims(word);
    TrimTrims("-" + word);
  }

  /** With an exponent behind it, the number is scaled by that power of ten. */
  lemma ReadsExponent(whole: string, fraction: string, mark: char, n: nat)
    requires AllDigits(whole) && AllDigits(fraction) && whole != "" && fraction != "" && mark in "eE"
    ensures ParseFloat(whole + "." + fraction + [mark] + Dec(n)) == Some(Finite(Scaled(whole + fraction, n - |fraction|)))
  {
    hide Value, Pow10, Dec, Scaled, IndexOf, Mantissa, Lower;
    var front := whole + "." + fraction;
    var s := front + [mark] + Dec(n);
    assert s[0] == whole[0] && IsDigit(s[0]);
    FirstMark(front, mark, Dec(n));
    assert s[..|front|] == front && s[|front| + 1..] == Dec(n);
    assert IsDigit(Dec(n)[0]);
    ValueOfDec(n);
    MantissaIs(whole, fraction, n);
  }

  lemma FirstMark(front: string, mark: char, digits: string)
    requires mark in "eE" && forall k :: 0 <= k < |front| ==> IsDigit(front[k]) || front[k] == '.'
    requires front != ""
    ensures var s := front + [mark] + digits;
            IndexOf(Lower(s), 'e') == |front| && Lower(s)[0] == front[0]
  {
    var s := front + [mark] + digits;
    assert s[|front|] == mark && Lower(s)[|front|] == 'e';
    assert forall k :: 0 <= k < |front| ==> s[k] == front[k];
    IndexOfIs(Lower(s), 'e', |front|);
  }

  lemma SignedFloat(s: string)
    requires ParseFloat(s).Some? && ParseFloat(s).value.Finite? && s != "" && IsDigit(s[0])
    ensures ParseFloat("-" + s) == Some(Finite(-ParseFloat(s).value.value))
  {
    hide Lower, Magnitude;
    assert Unsign("-" + s) == s && Unsign(s) == s && !Negative(s);
  }

  lemma {:induction false} Pow10IsPositive(n: int)
    ensures Pow10(n) > 0.0
    decreases if n < 0 then -n else n
  {
    if n > 0 {
      Pow10IsPositive(n - 1);
    } else if n < 0 {
      Pow10IsPositive(n + 1);
    }
  }

  lemma ScaledIsPositive(digits: string, exponent: int)
    requires AllDigits(digits)
    ensures Scaled(digits, exponent) >= 0.0
  {
    hide Value, Pow10;
    Pow10IsPositive(exponent);
    Product(Value(digits) as real, Pow10(exponent));
  }

  lemma Product(x: real, y: real)
    requires x >= 0.0 && y > 0.0
    ensures x * y >= 0.0
  {
  }

  // ---- contact to record -------------------------------------------------------

  function MhzField(freq: Option<u64>): Option<string> {
    match freq case Some(hz) => Some(HzToMhz(hz)) case None => None
  }

  /** The record field a column fills, if it fills one. */
  function Column(q: Qso, name: string): Option<string> {
    match name
    case "CALL" => Some(q.call)
    case "QSO_DATE" => Some(q.qsoDate)
    case "TIME_ON" => Some(q.timeOn)
    case "BAND" => if q.band != "" then Some(q.band) else None
    case "MODE" => Some(q.mode)
    case "SUBMODE" => q.submode
    case "FREQ" => MhzField(q.freqHz)
    case "FREQ_RX" => MhzField(q.freqRxHz)
    case "BAND_RX" => if q.freqRxHz.Some? then q.bandRx else None
    case "RST_SENT" => q.rstSent
    case "RST_RCVD" => q.rstRcvd
    case "GRIDSQUARE" => q.gridsquare
    case "DXCC" => if q.dxcc.Some? then Some(DecInt(q.dxcc.value)) else None
    case _ => None
  }

  function ColumnMap(q: Qso): AdifRecord {
    map name | name in COLUMN_FIELDS && Column(q, name).Some? :: Column(q, name).value
  }

  /** Columns win over `extra` fields of the same name. */
  function ToRecord(q: Qso): AdifRecord {
    q.extra + ColumnMap(q)
  }

  /** `r` holds the first `k` columns, and nothing else. */
  ghost predicate HasColumns(r: AdifRecord, q: Qso, k: nat)
    requires k <= |COLUMN_FIELDS|
  {
    && (forall name :: name in r <==> name in COLUMN_FIELDS[..k] && Column(q, name).Some?)
    && (forall name | name in r :: r[name] == Column(q, name).value)
  }

  lemma PutColumn(r: AdifRecord, q: Qso, k: nat, name: string, value: Option<string>)
    requires k < |COLUMN_FIELDS| && COLUMN_FIELDS[k] == name
    requires HasColumns(r, q, k) && value == Column(q, name)
    ensures HasColumns(if value.Some? then r[name := value.value] else r, q, k + 1)
  {
    hide Column, COLUMN_FIELDS;
    assert COLUMN_FIELDS[..k + 1] == COLUMN_FIELDS[..k] + [name];
  }

  lemma AllColumns(r: AdifRecord, q: Qso)
    requires HasColumns(r, q, |COLUMN_FIELDS|)
    ensures r == ColumnMap(q)
  {
    hide Column, COLUMN_FIELDS;
    assert COLUMN_FIELDS[..|COLUMN_FIELDS|] == COLUMN_FIELDS;
  }

  lemma NoColumns(q: Qso)
    ensures HasColumns(map[], q, 0)
  {
  }

  /** The inserts of the source, column by column, then the loop over `extra`. */
  method QsoToRecord(q: Qso) returns (r: AdifRecord)
    ensures r == ToRecord(q)
  {
    r := Columns(q);
    r := FillMissing(q.extra, r);
  }

  /** One insert of the source, column `k`: skipped when the column is empty. */
  method Insert(r: AdifRecord, ghost q: Qso, ghost k: nat, name: string, value: Option<string>)
    returns (r': AdifRecord)
    requires k < |COLUMN_FIELDS| && COLUMN_FIELDS[k] == name
    requires HasColumns(r, q, k) && value == Column(q, name)
    ensures HasColumns(r', q, k + 1)
  {
    hide Column, HasColumns, COLUMN_FIELDS;
    PutColumn(r, q, k, name, value);
    r' := r;
    if value.Some? {
      r' := r'[name := value.value];
    }
  }

  method Columns(q: Qso) returns (r: AdifRecord)
    ensures r == ColumnMap(q)
  {
    hide HasColumns, MhzField, DecInt, ColumnMap;
    NoColumns(q);
    r := map[];
    r := Insert(r, q, 0, "CALL", Some(q.call));
    r := Insert(r, q, 1, "QSO_DATE", Some(q.qsoDate));
    r := Insert(r, q, 2, "TIME_ON", Some(q.timeOn));
    r := Insert(r, q, 3, "BAND", if q.band != "" then Some(q.band) else None);
    r := Insert(r, q, 4, "MODE", Some(q.mode));
    r := Insert(r, q, 5, "SUBMODE", q.submode);
    r := FrequencyColumns(r, q);
    r := ReportColumns(r, q);
    AllColumns(r, q);
  }

  /** `BAND_RX` only beside a receive frequency. */
  method FrequencyColumns(before: AdifRecord, q: Qso) returns (r: AdifRecord)
    requires HasColumns(before, q, 6)
    ensures HasColumns(r, q, 9)
  {
    hide HasColumns, MhzField, DecInt, ColumnMap;
    r := before;
    r := Insert(r, q, 6, "FREQ", MhzField(q.freqHz));
    r := Insert(r, q, 7, "FREQ_RX", MhzField(q.freqRxHz));
    r := Insert(r, q, 8, "BAND_RX", if q.freqRxHz.Some? then q.bandRx else None);
  }

  method ReportColumns(before: AdifRecord, q: Qso) returns (r: AdifRecord)
    requires HasColumns(before, q, 9)
    ensures HasColumns(r, q, 13)
  {
    hide HasColumns, MhzField, DecInt, ColumnMap;
    r := before;
    r := Insert(r, q, 9, "RST_SENT", q.rstSent);
    r := Insert(r, q, 10, "RST_RCVD", q.rstRcvd);
    r := Insert(r, q, 11, "GRIDSQUARE", q.gridsquare);
    r := Insert(r, q, 12, "DXCC", if q.dxcc.Some? then Some(DecInt(q.dxcc.value)) else None);
  }

  // ---- record to contact -------------------------------------------------------

  function Get(r: AdifRecord, name: string): Option<string> {
    if name in r then Some(r[name]) else None
  }

  function GetOrEmpty(r: AdifRecord, name: string): string {
    if name in r then r[name] else ""
  }

  function FreqOf(r: AdifRecord, name: string): Option<u64> {
    match Get(r, name) case Some(mhz) => MhzToHz(mhz) case None => None
  }

  function DxccOf(r: AdifRecord): Option<i64> {
    match Get(r, "DXCC") case Some(n) => ParseI64(Trim(n)) case None => None
  }

  function ExtraOf(r: AdifRecord): map<string, string> {
    map name | name in r && name !in COLUMN_FIELDS :: r[name]
  }

  /** Columns from their fields, everything else to `extra`; nothing is normalized. */
  function ToQso(r: AdifRecord): Qso {
    Qso(
      GetOrEmpty(r, "CALL"), GetOrEmpty(r, "QSO_DATE"), GetOrEmpty(r, "TIME_ON"),
      GetOrEmpty(r, "BAND"), GetOrEmpty(r, "MODE"), Get(r, "SUBMODE"),
      FreqOf(r, "FREQ"), FreqOf(r, "FREQ_RX"), Get(r, "BAND_RX"),
      Get(r, "RST_SENT"), Get(r, "RST_RCVD"), Get(r, "GRIDSQUARE"), DxccOf(r), ExtraOf(r))
  }

  // ---- round trips -------------------------------------------------------------

  /** No extra field takes a column's name. */
  predicate ExtraApart(q: Qso) {
    forall name | name in q.extra :: name !in COLUMN_FIELDS
  }

  /** A receive band without a receive frequency is not written. */
  function Settled(q: Qso): Qso {
    q.(bandRx := if q.freqRxHz.Some? then q.bandRx else None)
  }

  lemma GetColumn(q: Qso, name: string)
    requires ExtraApart(q) && name in COLUMN_FIELDS
    ensures Get(ToRecord(q), name) == Column(q, name)
  {
    hide Column, COLUMN_FIELDS;
  }

  lemma ExtraBack(q: Qso)
    requires ExtraApart(q)
    ensures ExtraOf(ToRecord(q)) == q.extra
  {
    hide Column, COLUMN_FIELDS;
  }

  lemma TextColumnValues(q: Qso)
    ensures Column(q, "CALL") == Some(q.call) && Column(q, "QSO_DATE") == Some(q.qsoDate)
    ensures Column(q, "TIME_ON") == Some(q.timeOn) && Column(q, "MODE") == Some(q.mode)
    ensures Column(q, "BAND") == if q.band != "" then Some(q.band) else None
    ensures forall name | name in ["CALL", "QSO_DATE", "TIME_ON", "MODE", "BAND"] :: name in COLUMN_FIELDS
  {
  }

  lemma TextColumns(q: Qso)
    requires ExtraApart(q)
    ensures var r := ToRecord(q);
            && GetOrEmpty(r, "CALL") == q.call && GetOrEmpty(r, "QSO_DATE") == q.qsoDate
            && GetOrEmpty(r, "TIME_ON") == q.timeOn && GetOrEmpty(r, "BAND") == q.band
            && GetOrEmpty(r, "MODE") == q.mode
  {
    hide ToRecord, Column, COLUMN_FIELDS, ExtraApart;
    TextColumnValues(q);
    GetColumn(q, "CALL");
    GetColumn(q, "QSO_DATE");
    GetColumn(q, "TIME_ON");
    GetColumn(q, "BAND");
    GetColumn(q, "MODE");
  }

  lemma OptionalColumns(q: Qso)
    requires ExtraApart(q)
    ensures var r := ToRecord(q);
            && Get(r, "SUBMODE") == q.submode && Get(r, "BAND_RX") == Settled(q).bandRx
            && Get(r, "RST_SENT") == q.rstSent && Get(r, "RST_RCVD") == q.rstRcvd
            && Get(r, "GRIDSQUARE") == q.gridsquare
  {
    hide ToRecord;
    GetColumn(q, "SUBMODE");
    GetColumn(q, "BAND_RX");
    GetColumn(q, "RST_SENT");
    GetColumn(q, "RST_RCVD");
    GetColumn(q, "GRIDSQUARE");
  }

  lemma NumberColumns(q: Qso)
    requires ExtraApart(q)
    ensures var r := ToRecord(q);
            FreqOf(r, "FREQ") == q.freqHz && FreqOf(r, "FREQ_RX") == q.freqRxHz && DxccOf(r) == q.dxcc
  {
    hide ToRecord, MhzToHz, HzToMhz, ParseI64, Trim, DecInt;
    GetColumn(q, "FREQ");
    GetColumn(q, "FREQ_RX");
    GetColumn(q, "DXCC");
    if q.freqHz.Some? {
      FrequencyRoundTrip(q.freqHz.value);
    }
    if q.freqRxHz.Some? {
      FrequencyRoundTrip(q.freqRxHz.value);
    }
    if q.dxcc.Some? {
      DecIntTrimmed(q.dxcc.value);
      ParseI64OfDec(q.dxcc.value);
    }
  }

  lemma DecIntTrimmed(n: int)
    ensures Trim(DecInt(n)) == DecInt(n)
  {
    hide Trim;
    var digits := Dec(if n < 0 then -n else n);
    assert IsDigit(digits[0]) && IsDigit(digits[|digits| - 1]);
    TrimTrims(DecInt(n));
  }

  /** Everything but an unwritten receive band survives the way into a record and back. */
  lemma RecordKeepsQso(q: Qso)
    requires ExtraApart(q)
    ensures ToQso(ToRecord(q)) == Settled(q)
  {
    hide ToRecord, FreqOf, DxccOf, ExtraOf, GetOrEmpty, Get, ExtraApart;
    TextColumns(q);
    OptionalColumns(q);
    NumberColumns(q);
    ExtraBack(q);
  }

  /** A contact survives exactly when its extra fields avoid the columns and a receive band has its frequency. */
  lemma QsoRoundTripIff(q: Qso)
    ensures ToQso(ToRecord(q)) == q <==> ExtraApart(q) && (q.bandRx.Some? ==> q.freqRxHz.Some?)
  {
    if ExtraApart(q) {
      hide ToRecord, ToQso, ExtraApart;
      RecordKeepsQso(q);
    } else {
      hide ToRecord, FreqOf, DxccOf, GetOrEmpty, Get, COLUMN_FIELDS;
      var name :| name in q.extra && name in COLUMN_FIELDS;
      assert name !in ToQso(ToRecord(q)).extra;
    }
  }

  /** Reading any record and writing it again settles it: doing so twice changes nothing more. */
  lemma RecordProjection(r: AdifRecord)
    ensures var once := ToRecord(ToQso(r)); ToRecord(ToQso(once)) == once
  {
    var q := ToQso(r);
    assert ExtraApart(q) by {
      hide FreqOf, DxccOf, GetOrEmpty, Get, COLUMN_FIELDS;
    }
    SettledRecord(q);
    hide ToRecord, ToQso, ExtraApart;
    RecordKeepsQso(q);
  }

  lemma SettledRecord(q: Qso)
    ensures ToRecord(Settled(q)) == ToRecord(q)
  {
    hide COLUMN_FIELDS;
    forall name
      ensures Column(Settled(q), name) == Column(q, name)
    {
    }
  }
}
