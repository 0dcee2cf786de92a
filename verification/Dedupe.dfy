/** Duplicate detection: the natural key and the time window (rigflow-log/src/dedupe.rs). */
module Dedupe {
  import opened Wrappers
  import opened Text
  import opened Decimal
  import opened Calendar
  import opened Model

  /** The date and time digits of a contact, if they have the shape the format asks for. */
  predicate DigitsOf(date: string, time: string) {
    |Trim(date)| == 8 && AllDigits(Trim(date)) && (|Trim(time)| == 4 || |Trim(time)| == 6) && AllDigits(Trim(time))
  }

  function Number(s: string, from: nat, count: nat): nat
    requires AllDigits(s) && from + count <= |s|
  {
    Value(s[from..from + count])
  }

  /** Seconds since the epoch of `YYYYMMDD` and `HHMM` or `HHMMSS`; `None` off the calendar or the clock. */
  function ParseDt(date: string, time: string): Option<int> {
    if !DigitsOf(date, time) then None
    else
      var d, t := Trim(date), Trim(time);
      var day := Date(Number(d, 0, 4), Number(d, 4, 2), Number(d, 6, 2));
      var h, m := Number(t, 0, 2), Number(t, 2, 2);
      var s := if |t| == 6 then Number(t, 4, 2) else 0;
      if ValidDate(day) && h < 24 && m < 60 && s <= 60
      then Some(DaysFromCivil(day) * 86400 + h * 3600 + m * 60 + s)
      else None
  }

  function TimeOf(q: Qso): Option<int> {
    ParseDt(q.qsoDate, q.timeOn)
  }

  predicate SameText(a: string, b: string) {
    Lower(a) == Lower(b)
  }

  /** Call without regard to ASCII case, mode and band as they stand. */
  predicate SameNaturalKey(a: Qso, b: Qso) {
    SameText(a.call, Trim(b.call)) && a.mode == b.mode && a.band == b.band
  }

  predicate WithinWindow(a: Qso, b: Qso, windowSecs: int) {
    match (TimeOf(a), TimeOf(b))
    case (Some(x), Some(y)) => (if x < y then y - x else x - y) <= windowSecs
    case _ => false
  }

  predicate IsDuplicate(a: Qso, b: Qso, windowSecs: int) {
    SameNaturalKey(a, b) && WithinWindow(a, b, windowSecs)
  }

  /** How the database compares a stored contact with a new one: nothing is trimmed. */
  predicate SqlMatch(stored: Qso, q: Qso) {
    SameText(stored.call, q.call) && stored.mode == q.mode && stored.band == q.band
  }

  /** The key of the import index: call folded, everything trimmed. */
  function NaturalKey(q: Qso): (string, string, string) {
    (Upper(Trim(q.call)), Trim(q.band), Trim(q.mode))
  }

  lemma FoldsAgree(a: string, b: string)
    ensures Upper(a) == Upper(b) <==> Lower(a) == Lower(b)
  {
    if |a| == |b| {
      forall i | 0 <= i < |a|
        ensures UpperChar(a[i]) == UpperChar(b[i]) <==> LowerChar(a[i]) == LowerChar(b[i])
      {
      }
      if Upper(a) == Upper(b) {
        forall i | 0 <= i < |a|
          ensures Lower(a)[i] == Lower(b)[i]
        {
          assert Upper(a)[i] == Upper(b)[i];
        }
      }
      if Lower(a) == Lower(b) {
        forall i | 0 <= i < |a|
          ensures Upper(a)[i] == Upper(b)[i]
        {
          assert Lower(a)[i] == Lower(b)[i];
        }
      }
    }
  }

  /** No whitespace around the parts of the key. */
  predicate TidyKey(q: Qso) {
    Trimmed(q.call) && Trimmed(q.band) && Trimmed(q.mode)
  }

  /** On tidy contacts the three notions of "same station, mode and band" are one relation. */
  lemma KeysAgree(a: Qso, b: Qso)
    requires TidyKey(a) && TidyKey(b)
    ensures NaturalKey(a) == NaturalKey(b) <==> SqlMatch(a, b)
    ensures SqlMatch(a, b) <==> SameNaturalKey(a, b)
  {
    hide Trim, Trimmed, Upper, Lower;
    TrimTrims(a.call);
    TrimTrims(a.band);
    TrimTrims(a.mode);
    TrimTrims(b.call);
    TrimTrims(b.band);
    TrimTrims(b.mode);
    FoldsAgree(a.call, b.call);
  }

  /** Letter case and blanks around the second call do not matter to the natural key. */
  lemma NaturalKeyIff(a: Qso, b: Qso, front: string, call: string, back: string)
    requires b.call == front + call + back && Blank(front) && Blank(back) && call != "" && Trimmed(call)
    ensures SameNaturalKey(a, b) <==> Upper(a.call) == Upper(call) && a.mode == b.mode && a.band == b.band
  {
    hide Trim, Upper, Lower, Trimmed, Blank;
    TrimBlanks(front, call, back);
    FoldsAgree(a.call, call);
  }

  lemma WindowSymmetric(a: Qso, b: Qso, windowSecs: int)
    ensures WithinWindow(a, b, windowSecs) <==> WithinWindow(b, a, windowSecs)
  {
    hide TimeOf;
  }

  /** A contact duplicates itself exactly when its time can be read. */
  lemma WindowReflexive(q: Qso, windowSecs: int)
    requires windowSecs >= 0
    ensures WithinWindow(q, q, windowSecs) <==> TimeOf(q).Some?
  {
    hide TimeOf;
  }
}
