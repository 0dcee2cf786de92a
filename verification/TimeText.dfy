/** Times of contacts as text: which digits are read, and as what. */
module TimeText {
  import opened Wrappers
  import opened Text
  import opened Decimal
  import opened Calendar
  import opened Timestamp
  import opened Model
  import opened Dedupe

  /** Four digits of a year, two of a month and two of a day. */
  function DateText(y: nat, m: nat, d: nat): string {
    Padded(y, 4) + Padded(m, 2) + Padded(d, 2)
  }

  function ClockText(h: nat, mi: nat): string {
    Padded(h, 2) + Padded(mi, 2)
  }

  predicate OnClock(h: nat, mi: nat, s: nat) {
    h < 24 && mi < 60 && s <= 60
  }

  function Seconds(day: Date, h: nat, mi: nat, s: nat): int
    requires ValidDate(day)
  {
    86400 * DaysFromCivil(day) + 3600 * h + 60 * mi + s
  }

  lemma PaddedWidth(n: nat, width: nat)
    requires (width == 2 && n < 100) || (width == 4 && n < 10_000)
    ensures |Padded(n, width)| == width && AllDigits(Padded(n, width)) && Value(Padded(n, width)) == n
  {
    hide ZeroPadded;
    PaddedIsReadable(n, width);
    DecWidth(n, width);
  }

  lemma DecWidth(n: nat, width: nat)
    requires (width == 2 && n < 100) || (width == 4 && n < 10_000)
    ensures |Dec(n)| <= width
  {
    if n >= 10 {
      assert |Dec(n)| == |Dec(n / 10)| + 1;
      if n >= 100 {
        assert |Dec(n / 10)| == |Dec(n / 10 / 10)| + 1;
        if n >= 1000 {
          assert |Dec(n / 10 / 10)| == |Dec(n / 10 / 10 / 10)| + 1;
        }
      }
    }
  }

  lemma DatePieces(y: nat, m: nat, d: nat)
    requires y < 10_000 && m < 100 && d < 100
    ensures var t := DateText(y, m, d);
            && |t| == 8 && AllDigits(t) && Number(t, 0, 4) == y && Number(t, 4, 2) == m && Number(t, 6, 2) == d
  {
    hide Padded, Value;
    PaddedWidth(y, 4);
    PaddedWidth(m, 2);
    PaddedWidth(d, 2);
    var t := DateText(y, m, d);
    assert t[0..4] == Padded(y, 4) && t[4..6] == Padded(m, 2) && t[6..8] == Padded(d, 2);
  }

  lemma ClockPieces(h: nat, mi: nat, tail: string)
    requires h < 100 && mi < 100 && AllDigits(tail)
    ensures var t := ClockText(h, mi) + tail;
            |t| == 4 + |tail| && AllDigits(t) && Number(t, 0, 2) == h && Number(t, 2, 2) == mi && t[4..] == tail
  {
    hide Padded, Value;
    PaddedWidth(h, 2);
    PaddedWidth(mi, 2);
    var t := ClockText(h, mi) + tail;
    assert t[0..2] == Padded(h, 2) && t[2..4] == Padded(mi, 2);
  }

  lemma DigitsTrimmed(s: string, front: string, back: string)
    requires s != "" && AllDigits(s) && Blank(front) && Blank(back)
    ensures Trim(front + s + back) == s
  {
    hide Trim;
    assert IsDigit(s[0]) && IsDigit(s[|s| - 1]);
    TrimBlanks(front, s, back);
  }

  /** What a date and a time of day read as. */
  function Reading(y: nat, m: nat, d: nat, h: nat, mi: nat, s: nat): Option<int> {
    if ValidDate(Date(y, m, d)) && OnClock(h, mi, s) then Some(Seconds(Date(y, m, d), h, mi, s)) else None
  }

  /** Eight digits and four or six, between any blanks, are read exactly when they name a date and a time of day. */
  lemma TimesRead(y: nat, m: nat, d: nat, h: nat, mi: nat, s: nat, front: string, back: string)
    requires y < 10_000 && m < 100 && d < 100 && h < 100 && mi < 100 && s < 100 && Blank(front) && Blank(back)
    ensures var date := front + DateText(y, m, d) + back;
            && ParseDt(date, front + (ClockText(h, mi) + Padded(s, 2)) + back) == Reading(y, m, d, h, mi, s)
            && ParseDt(date, front + ClockText(h, mi) + back) == Reading(y, m, d, h, mi, 0)
  {
    hide Trim, Padded, Value, DateText, ClockText, ValidDate, DaysFromCivil, Number;
    var date, long, short := DateText(y, m, d), ClockText(h, mi) + Padded(s, 2), ClockText(h, mi) + "";
    DatePieces(y, m, d);
    PaddedWidth(s, 2);
    ClockPieces(h, mi, Padded(s, 2));
    ClockPieces(h, mi, "");
    LastTwo(long, s);
    DigitsTrimmed(date, front, back);
    DigitsTrimmed(long, front, back);
    DigitsTrimmed(short, front, back);
    assert short == ClockText(h, mi);
  }

  lemma LastTwo(t: string, s: nat)
    requires |t| == 6 && AllDigits(t) && s < 100 && t[4..] == Padded(s, 2)
    ensures Number(t, 4, 2) == s
  {
    hide Padded, Value;
    PaddedWidth(s, 2);
    assert t[4..6] == t[4..];
  }

  /** A second of the years up to 9999, taken apart into its fields and written in digits, is read back as itself. */
  lemma StampReadsBack(secs: nat)
    requires StampOf(secs).date.y < 10_000
    ensures var t := StampOf(secs);
            && t.date.y > 0 && t.date.m > 0 && t.date.d > 0
            && ParseDt(DateText(t.date.y, t.date.m, t.date.d), ClockText(t.h, t.mi) + Padded(t.s, 2)) == Some(secs)
  {
    hide ParseDt, StampOf, DateText, ClockText, Padded, DaysFromCivil, ValidDate;
    var t := StampOf(secs);
    StampRoundTrip(secs);
    StampInRange(secs);
    TimesRead(t.date.y, t.date.m, t.date.d, t.h, t.mi, t.s, "", "");
    var date, time := DateText(t.date.y, t.date.m, t.date.d), ClockText(t.h, t.mi) + Padded(t.s, 2);
    assert "" + date + "" == date && "" + time + "" == time;
  }

  /** The digits of a file name between its separators. */
  function NameDigits(name: string): (string, string)
    requires |name| == 19
  {
    (name[0..4] + name[5..7] + name[8..10], name[11..13] + name[14..16] + name[17..19])
  }

  predicate Separated(name: string) {
    |name| == 19 && name[4] == '-' && name[7] == '-' && name[10] == '_' && name[13] == '-' && name[16] == '-'
  }

  /** A file name of the years up to 9999 is `YYYY-MM-DD_HH-MM-SS`, and its digits are read back as its second. */
  lemma NameReadsBack(secs: nat)
    requires StampOf(secs).date.y < 10_000
    ensures var name := TimestampCompact(secs);
            Separated(name) && ParseDt(NameDigits(name).0, NameDigits(name).1) == Some(secs)
  {
    hide ParseDt, StampOf, Padded;
    var t := StampOf(secs);
    StampInRange(secs);
    StampReadsBack(secs);
    PaddedWidth(t.date.y, 4);
    PaddedWidth(t.date.m, 2);
    PaddedWidth(t.date.d, 2);
    PaddedWidth(t.h, 2);
    PaddedWidth(t.mi, 2);
    PaddedWidth(t.s, 2);
    Layout(TimestampCompact(secs), Padded(t.date.y, 4), Padded(t.date.m, 2), Padded(t.date.d, 2),
           Padded(t.h, 2), Padded(t.mi, 2), Padded(t.s, 2));
  }

  lemma Layout(name: string, y: string, m: string, d: string, h: string, mi: string, s: string)
    requires |y| == 4 && |m| == 2 && |d| == 2 && |h| == 2 && |mi| == 2 && |s| == 2
    requires name == y + "-" + m + "-" + d + "_" + h + "-" + mi + "-" + s
    ensures Separated(name) && NameDigits(name) == (y + m + d, h + mi + s)
  {
    var date := y + "-" + m + "-" + d;
    var clock := h + "-" + mi + "-" + s;
    assert date[0..4] == y && date[5..7] == m && date[8..10] == d;
    assert clock[0..2] == h && clock[3..5] == mi && clock[6..8] == s;
    assert name == date + "_" + clock;
    assert name[0..4] == y && name[5..7] == m && name[8..10] == d;
    assert name[11..] == clock;
    assert name[11..13] == clock[0..2] && name[14..16] == clock[3..5] && name[17..19] == clock[6..8];
  }
}
