/** The contact and station values of rigflow-log/src/model.rs. */
module Model {
  import opened Wrappers
  import opened Text
  import opened Decimal
  import opened Normalize
  import opened Ordering

  /** A contact. Every ADIF field that is no column lives in `extra`. */
  datatype Qso = Qso(
    call: string, qsoDate: string, timeOn: string, band: string, mode: string,
    submode: Option<string>, freqHz: Option<u64>, freqRxHz: Option<u64>, bandRx: Option<string>,
    rstSent: Option<string>, rstRcvd: Option<string>, gridsquare: Option<string>,
    dxcc: Option<i64>, extra: map<string, string>)

  datatype Station = Station(
    stationCall: string, gridsquare: Option<string>, name: Option<string>,
    myState: Option<string>, myCounty: Option<string>, cqZone: Option<string>, ituZone: Option<string>)

  function DerivedBand(freq: Option<u64>): Option<string> {
    match freq case Some(hz) => BandForFreqHz(hz) case None => None
  }

  function NormalizedBand(band: string, freq: Option<u64>): string {
    var known := if Trim(band) == "" then DerivedBand(freq) else CanonicalBand(band);
    if known.Some? then known.value else band
  }

  function NormalizedBandRx(band: Option<string>, freq: Option<u64>): Option<string> {
    match band
    case None => DerivedBand(freq)
    case Some(b) => if CanonicalBand(b).Some? then CanonicalBand(b) else band
  }

  /** The contact with canonical mode, submode and bands. */
  function Normalized(q: Qso): Qso {
    var (mode, submode) := NormalizeMode(q.mode, q.submode);
    q.(mode := mode, submode := submode,
       band := NormalizedBand(q.band, q.freqHz), bandRx := NormalizedBandRx(q.bandRx, q.freqRxHz))
  }

  /** Field by field, as the source rewrites them. */
  method NormalizeFields(qso: Qso) returns (q: Qso)
    ensures q == Normalized(qso)
  {
    q := qso;
    var (mode, submode) := NormalizeMode(q.mode, q.submode);
    q := q.(mode := mode);
    q := q.(submode := submode);
    if Trim(q.band) == "" {
      var b := DerivedBand(q.freqHz);
      if b.Some? {
        q := q.(band := b.value);
      }
    } else {
      var b := CanonicalBand(q.band);
      if b.Some? {
        q := q.(band := b.value);
      }
    }
    match q.bandRx {
      case None =>
        var b := DerivedBand(q.freqRxHz);
        if b.Some? {
          q := q.(bandRx := b);
        }
      case Some(rx) =>
        var c := CanonicalBand(rx);
        if c.Some? {
          q := q.(bandRx := c);
        }
    }
  }

  lemma TidyStays(b: string)
    requires Tidy(b)
    ensures Trim(b) == b && b != ""
  {
    TrimTrims(b);
  }

  lemma NormalizedBandIdempotent(band: string, freq: Option<u64>)
    ensures NormalizedBand(NormalizedBand(band, freq), freq) == NormalizedBand(band, freq)
  {
    if Trim(band) == "" {
      if DerivedBand(freq).Some? {
        BandForFreqIsCanonical(freq.value);
        TidyStays(DerivedBand(freq).value);
      }
    } else if CanonicalBand(band).Some? {
      CanonicalBandIdempotent(band);
      TidyStays(CanonicalBand(band).value);
    }
  }

  lemma NormalizedBandRxIdempotent(band: Option<string>, freq: Option<u64>)
    ensures NormalizedBandRx(NormalizedBandRx(band, freq), freq) == NormalizedBandRx(band, freq)
  {
    if band.None? {
      if DerivedBand(freq).Some? {
        BandForFreqIsCanonical(freq.value);
      }
    } else if CanonicalBand(band.value).Some? {
      CanonicalBandIdempotent(band.value);
    }
  }

  /** Normalizing is safe to repeat, on every contact. */
  lemma NormalizeIdempotent(q: Qso)
    ensures Normalized(Normalized(q)) == Normalized(q)
  {
    hide NormalizeMode, NormalizedBand, NormalizedBandRx;
    NormalizeModeIdempotent(q.mode, q.submode);
    NormalizedBandIdempotent(q.band, q.freqHz);
    NormalizedBandRxIdempotent(q.bandRx, q.freqRxHz);
  }

  // ---- the station snapshot ----------------------------------------------------

  function TrimmedField(name: string, value: Option<string>): map<string, string> {
    if value.Some? && Trim(value.value) != "" then map[name := Trim(value.value)] else map[]
  }

  /** The `MY_*` fields a station contributes; blank ones contribute nothing. */
  function MyAdifFields(s: Station): map<string, string> {
    var call := Trim(s.stationCall);
    (if call != "" then map["STATION_CALLSIGN" := call, "OPERATOR" := call] else map[])
    + TrimmedField("MY_GRIDSQUARE", s.gridsquare)
    + TrimmedField("MY_NAME", s.name)
    + TrimmedField("MY_STATE", s.myState)
    + TrimmedField("MY_CNTY", s.myCounty)
    + TrimmedField("MY_CQ_ZONE", s.cqZone)
    + TrimmedField("MY_ITU_ZONE", s.ituZone)
  }

  /** The contact with the station's fields filled in where it carries none of its own. */
  function WithStationSnapshot(q: Qso, station: Station): Qso {
    q.(extra := MyAdifFields(station) + q.extra)
  }

  /** `fields` fill in what `extra` does not carry, once the names `done` are through. */
  ghost predicate Filled(
    filled: map<string, string>, fields: map<string, string>, extra: map<string, string>, done: seq<string>)
  {
    && (forall name :: name in filled <==> name in extra || (name in done && name in fields))
    && (forall name | name in extra :: name in filled && filled[name] == extra[name])
    && (forall name | name in filled && name !in extra :: name in fields && filled[name] == fields[name])
  }

  lemma FillOne(
    filled: map<string, string>, fields: map<string, string>, extra: map<string, string>, done: seq<string>, name: string)
    requires Filled(filled, fields, extra, done) && name in fields
    ensures Filled(if name in filled then filled else filled[name := fields[name]], fields, extra, done + [name])
  {
  }

  /** `entry(k).or_insert(v)` over a station's fields, in name order. */
  method FillMissing(fields: map<string, string>, extra: map<string, string>) returns (filled: map<string, string>)
    ensures filled == fields + extra
  {
    hide Filled, Before;
    var names := Sorted(fields.Keys);
    filled := extra;
    FillStart(fields, extra);
    for k := 0 to |names|
      invariant Filled(filled, fields, extra, names[..k])
    {
      FillOne(filled, fields, extra, names[..k], names[k]);
      assert names[..k + 1] == names[..k] + [names[k]];
      if names[k] !in filled {
        filled := filled[names[k] := fields[names[k]]];
      }
    }
    assert names[..|names|] == names;
    FillEnd(filled, fields, extra, names);
  }

  lemma FillStart(fields: map<string, string>, extra: map<string, string>)
    ensures Filled(extra, fields, extra, [])
  {
  }

  lemma FillEnd(
    filled: map<string, string>, fields: map<string, string>, extra: map<string, string>, names: seq<string>)
    requires Filled(filled, fields, extra, names) && forall name :: name in fields <==> name in names
    ensures filled == fields + extra
  {
  }
}
