/** `timestamp_compact` of rigflow-client/src/ui/app_audio.rs: seconds since 1970 as file-name text. */
module Timestamp {
  import opened Decimal
  import opened Calendar

  datatype Stamp = Stamp(date: Date, h: nat, mi: nat, s: nat)

  function StampOf(secs: nat): Stamp {
    var sod := secs % 86400;
    Stamp(CivilFromDays(secs / 86400), sod / 3600, sod % 3600 / 60, sod % 60)
  }

  /** Zeros in front until `width` characters are reached (`{:02}`, `{:04}`). */
  function ZeroPadded(digits: string, width: nat): (r: string)
    ensures AllDigits(digits) ==> AllDigits(r)
    ensures |r| == if |digits| < width then width else |digits|
    decreases width - |digits|
  {
    if |digits| >= width then digits else ZeroPadded("0" + digits, width)
  }

  function Padded(n: nat, width: nat): string {
    ZeroPadded(Dec(n), width)
  }

  /** `YYYY-MM-DD_HH-MM-SS`. Years before 0 do not occur behind 1970. */
  function TimestampCompact(secs: nat): string {
    var t := StampOf(secs);
    DateIsPositive(secs);
    Padded(t.date.y, 4) + "-" + Padded(t.date.m, 2) + "-" + Padded(t.date.d, 2)
    + "_" + Padded(t.h, 2) + "-" + Padded(t.mi, 2) + "-" + Padded(t.s, 2)
  }

  function SecondsOf(t: Stamp): int
    requires ValidDate(t.date)
  {
    86400 * DaysFromCivil(t.date) + 3600 * t.h + 60 * t.mi + t.s
  }

  lemma SecondsSplit(sod: nat)
    requires sod < 86400
    ensures 3600 * (sod / 3600) + 60 * (sod % 3600 / 60) + sod % 60 == sod
    ensures sod / 3600 < 24 && sod % 3600 / 60 < 60
  {
    var h := sod / 3600;
    var rest := sod % 3600;
    assert sod == 3600 * h + rest;
    assert rest == 60 * (rest / 60) + rest % 60;
    assert sod % 60 == rest % 60;
  }

  /** The fields name a valid date and time of day, and give the seconds back. */
  lemma StampRoundTrip(secs: nat)
    ensures var t := StampOf(secs);
            && ValidDate(t.date) && t.h < 24 && t.mi < 60 && t.s < 60
            && SecondsOf(t) == secs
  {
    hide CivilFromDays, DaysFromCivil, ValidDate;
    CivilIsValid(secs / 86400);
    CivilRoundTrip(secs / 86400);
    SecondsSplit(secs % 86400);
  }

  lemma DateIsPositive(secs: nat)
    ensures var t := CivilFromDays(secs / 86400); t.y > 0 && 1 <= t.m <= 12 && 1 <= t.d <= 31
  {
    hide CivilFromDays;
    var t := CivilFromDays(secs / 86400);
    CivilIsValid(secs / 86400);
    CivilRoundTrip(secs / 86400);
    InsideYear(t);
    if t.y <= 0 {
      YearsMonotone(t.y + 1, 1);
    }
  }

  // ---- reading the text back ----------------------------------------------------------

  lemma {:induction false} LeadingZero(digits: string)
    requires AllDigits(digits)
    ensures AllDigits("0" + digits) && Value("0" + digits) == Value(digits)
    decreases |digits|
  {
    var s := "0" + digits;
    assert forall i :: 0 <= i < |digits| ==> s[i + 1] == digits[i];
    if digits == "" {
      assert s[..0] == "";
    } else {
      assert s[..|s| - 1] == "0" + digits[..|digits| - 1];
      LeadingZero(digits[..|digits| - 1]);
    }
  }

  lemma {:induction false} PaddingKeepsValue(digits: string, width: nat)
    requires AllDigits(digits)
    ensures AllDigits(ZeroPadded(digits, width)) && Value(ZeroPadded(digits, width)) == Value(digits)
    decreases width - |digits|
  {
    if |digits| < width {
      LeadingZero(digits);
      PaddingKeepsValue("0" + digits, width);
    }
  }

  lemma PaddedIsReadable(n: nat, width: nat)
    ensures AllDigits(Padded(n, width)) && Value(Padded(n, width)) == n
    ensures width == 2 && n < 100 ==> |Padded(n, width)| == 2
  {
    PaddingKeepsValue(Dec(n), width);
    ValueOfDec(n);
  }

  /** Two-digit fields behind a field of any width can be told apart. */
  lemma LastField(a: string, b: string, m: nat, n: nat)
    requires m < 100 && n < 100 && a + Padded(m, 2) == b + Padded(n, 2)
    ensures a == b && m == n
  {
    hide ZeroPadded, Padded, Value;
    PaddedIsReadable(m, 2);
    PaddedIsReadable(n, 2);
    var text := a + Padded(m, 2);
    assert |a| == |b|;
    assert text[..|a|] == a && text[..|b|] == b;
    assert text[|a|..] == Padded(m, 2) && text[|b|..] == Padded(n, 2);
  }

  lemma LastChar(a: string, b: string, c: char)
    requires a + [c] == b + [c]
    ensures a == b
  {
    assert (a + [c])[..|a|] == a && (b + [c])[..|b|] == b;
  }

  /** Different seconds have different names. */
  lemma TimestampIsUnique(secs: nat, other: nat)
    ensures TimestampCompact(secs) == TimestampCompact(other) <==> secs == other
  {
    hide Padded, StampOf;
    if TimestampCompact(secs) != TimestampCompact(other) {
      return;
    }
    var t, u := StampOf(secs), StampOf(other);
    StampInRange(secs);
    StampInRange(other);
    var y, y' := Padded(t.date.y, 4), Padded(u.date.y, 4);
    var m, m' := y + "-" + Padded(t.date.m, 2), y' + "-" + Padded(u.date.m, 2);
    var d, d' := m + "-" + Padded(t.date.d, 2), m' + "-" + Padded(u.date.d, 2);
    var h, h' := d + "_" + Padded(t.h, 2), d' + "_" + Padded(u.h, 2);
    var mi, mi' := h + "-" + Padded(t.mi, 2), h' + "-" + Padded(u.mi, 2);
    LastField(mi + "-", mi' + "-", t.s, u.s);
    LastChar(mi, mi', '-');
    LastField(h + "-", h' + "-", t.mi, u.mi);
    LastChar(h, h', '-');
    LastField(d + "_", d' + "_", t.h, u.h);
    LastChar(d, d', '_');
    LastField(m + "-", m' + "-", t.date.d, u.date.d);
    LastChar(m, m', '-');
    LastField(y + "-", y' + "-", t.date.m, u.date.m);
    LastChar(y, y', '-');
    PaddedIsReadable(t.date.y, 4);
    PaddedIsReadable(u.date.y, 4);
    StampRoundTrip(secs);
    StampRoundTrip(other);
  }

  lemma StampInRange(secs: nat)
    ensures var t := StampOf(secs);
            t.date.y > 0 && 1 <= t.date.m <= 12 && 1 <= t.date.d <= 31 && t.h < 24 && t.mi < 60 && t.s < 60
  {
    hide CivilFromDays;
    DateIsPositive(secs);
    SecondsSplit(secs % 86400);
  }
}
