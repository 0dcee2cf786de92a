/** Mode and band vocabulary (rigflow-log/src/normalize.rs). */
module Normalize {
  import opened Wrappers
  import opened Text

  /** `(lowest Hz, highest Hz, ADIF band)`, both ends inclusive, low to high. */
  const BANDS: seq<(nat, nat, string)> := [
    (135_700, 137_800, "2190m"), (472_000, 479_000, "630m"), (1_800_000, 2_000_000, "160m"),
    (3_500_000, 4_000_000, "80m"), (5_060_000, 5_450_000, "60m"), (7_000_000, 7_300_000, "40m"),
    (10_100_000, 10_150_000, "30m"), (14_000_000, 14_350_000, "20m"), (18_068_000, 18_168_000, "17m"),
    (21_000_000, 21_450_000, "15m"), (24_890_000, 24_990_000, "12m"), (28_000_000, 29_700_000, "10m"),
    (50_000_000, 54_000_000, "6m"), (70_000_000, 71_000_000, "4m"), (144_000_000, 148_000_000, "2m"),
    (222_000_000, 225_000_000, "1.25m"), (420_000_000, 450_000_000, "70cm"),
    (902_000_000, 928_000_000, "33cm"), (1_240_000_000, 1_300_000_000, "23cm")]

  function FindBand(bands: seq<(nat, nat, string)>, hz: nat): Option<string> {
    if bands == [] then None
    else if bands[0].0 <= hz <= bands[0].1 then Some(bands[0].2)
    else FindBand(bands[1..], hz)
  }

  function BandForFreqHz(hz: nat): Option<string> {
    FindBand(BANDS, hz)
  }

  function FindName(bands: seq<(nat, nat, string)>, lower: string): Option<string> {
    if bands == [] then None
    else if Lower(bands[0].2) == lower then Some(bands[0].2)
    else FindName(bands[1..], lower)
  }

  /** The table's spelling of a band, matched without regard to ASCII case. */
  function CanonicalBand(band: string): Option<string> {
    FindName(BANDS, Lower(Trim(band)))
  }

  function ParentOfSubmode(sm: string): Option<string> {
    match sm
    case "PSK31" => Some("PSK")
    case "PSK63" => Some("PSK")
    case "PSK125" => Some("PSK")
    case "QPSK31" => Some("PSK")
    case "QPSK63" => Some("PSK")
    case "FT4" => Some("MFSK")
    case "JS8" => Some("MFSK")
    case "JT65A" => Some("JT65")
    case "JT65B" => Some("JT65")
    case "JT65C" => Some("JT65")
    case _ => None
  }

  function AliasMode(mode: string): string {
    match mode
    case "USB" => "SSB"
    case "LSB" => "SSB"
    case "CWU" => "CW"
    case "CWL" => "CW"
    case "PKTUSB" => "MFSK"
    case "DIG" => "MFSK"
    case "DATA" => "MFSK"
    case _ => mode
  }

  /** Canonical `(MODE, SUBMODE)`: an explicit submode wins, then a submode in the mode field, then an alias. */
  function NormalizeMode(mode: string, submode: Option<string>): (string, Option<string>) {
    var m := Upper(Trim(mode));
    var sm := if submode.Some? then Upper(Trim(submode.value)) else "";
    if sm != "" then
      (match ParentOfSubmode(sm) case Some(p) => p case None => AliasMode(m), Some(sm))
    else match ParentOfSubmode(m)
      case Some(p) => (p, Some(m))
      case None => (AliasMode(m), None)
  }

  lemma UpperTrim(s: string)
    ensures Trim(Upper(Trim(s))) == Upper(Trim(s)) && Upper(Upper(Trim(s))) == Upper(Trim(s))
    ensures Trimmed(Upper(Trim(s)))
  {
    TrimTrims(s);
    UpperKeepsTrim(Trim(s));
    TrimTrims(Upper(Trim(s)));
  }

  predicate Canonical(m: string) {
    Trim(m) == m && Upper(m) == m
  }

  lemma AliasIsCanonical(m: string)
    requires Canonical(m) && Trimmed(m)
    ensures Canonical(AliasMode(m)) && Trimmed(AliasMode(m))
    ensures AliasMode(AliasMode(m)) == AliasMode(m)
    ensures ParentOfSubmode(m).None? ==> ParentOfSubmode(AliasMode(m)).None?
  {
    AliasIsStable(m);
    hide ParentOfSubmode;
    TrimTrims(AliasMode(m));
  }

  lemma AliasIsStable(m: string)
    ensures AliasMode(AliasMode(m)) == AliasMode(m)
    ensures ParentOfSubmode(m).None? ==> ParentOfSubmode(AliasMode(m)).None?
  {
  }

  lemma ParentIsCanonical(sm: string)
    requires ParentOfSubmode(sm).Some?
    ensures Canonical(ParentOfSubmode(sm).value) && Trimmed(ParentOfSubmode(sm).value) && sm != ""
  {
    TrimTrims(ParentOfSubmode(sm).value);
  }

  /** Normalizing a normalized mode changes nothing, and the mode carries no outer whitespace. */
  lemma NormalizeModeIdempotent(mode: string, submode: Option<string>)
    ensures var once := NormalizeMode(mode, submode); NormalizeMode(once.0, once.1) == once
    ensures Trimmed(NormalizeMode(mode, submode).0)
  {
    hide Trim, Upper, AliasMode, Trimmed, UpperChar, IsWhitespace, TrimStart, TrimEnd;
    var m := Upper(Trim(mode));
    UpperTrim(mode);
    AliasIsCanonical(m);
    if ParentOfSubmode(m).Some? {
      ParentIsCanonical(m);
    }
    if submode.Some? {
      var sm := Upper(Trim(submode.value));
      UpperTrim(submode.value);
      if ParentOfSubmode(sm).Some? {
        ParentIsCanonical(sm);
      }
    }
  }

  lemma {:induction false} FindNameFinds(bands: seq<(nat, nat, string)>, lower: string)
    requires forall i :: 0 <= i < |bands| ==> bands[i] in BANDS
    ensures var r := FindName(bands, lower); r.Some? ==> Lower(r.value) == lower && exists e :: e in BANDS && e.2 == r.value
  {
    if bands != [] && Lower(bands[0].2) != lower {
      FindNameFinds(bands[1..], lower);
    }
  }

  lemma {:induction false} FindBandFinds(bands: seq<(nat, nat, string)>, hz: nat)
    requires forall i :: 0 <= i < |bands| ==> bands[i] in BANDS
    ensures var r := FindBand(bands, hz); r.Some? ==> exists e :: e in BANDS && e.2 == r.value
  {
    if bands != [] && !(bands[0].0 <= hz <= bands[0].1) {
      FindBandFinds(bands[1..], hz);
    }
  }

  lemma LowerTrim(s: string)
    requires Trimmed(s)
    ensures Trim(s) == s
  {
    TrimTrims(s);
  }

  predicate Tidy(name: string) {
    name != "" && Trimmed(name) && Lower(name) == name
  }

  lemma LowBandTidy(i: nat)
    requires i < 6
    ensures Tidy(BANDS[i].2)
  {
  }

  lemma MiddleBandTidy(i: nat)
    requires 6 <= i < 12
    ensures Tidy(BANDS[i].2)
  {
  }

  lemma HighBandTidy(i: nat)
    requires 12 <= i < 16
    ensures Tidy(BANDS[i].2)
  {
  }

  lemma TopBandTidy(i: nat)
    requires 16 <= i < 19
    ensures Tidy(BANDS[i].2)
  {
  }

  lemma BandNamesTidy()
    ensures forall e | e in BANDS :: Tidy(e.2)
  {
    hide Tidy;
    forall e | e in BANDS
      ensures Tidy(e.2)
    {
      var i :| 0 <= i < |BANDS| && BANDS[i] == e;
      BandTidy(i);
    }
  }

  lemma BandTidy(i: nat)
    requires i < |BANDS|
    ensures Tidy(BANDS[i].2)
  {
    hide Tidy;
    if i < 6 {
      LowBandTidy(i);
    } else if i < 12 {
      MiddleBandTidy(i);
    } else if i < 16 {
      HighBandTidy(i);
    } else {
      TopBandTidy(i);
    }
  }

  /** Band names are found under their own spelling: canonicalizing twice is canonicalizing once. */
  lemma CanonicalBandIdempotent(band: string)
    requires CanonicalBand(band).Some?
    ensures var b := CanonicalBand(band).value; CanonicalBand(b) == Some(b) && Tidy(b)
  {
    hide Trim, Lower, LowerChar, BANDS;
    FindNameFinds(BANDS, Lower(Trim(band)));
    BandNamesTidy();
    LowerTrim(CanonicalBand(band).value);
  }

  /** A band derived from a frequency is spelled canonically. */
  lemma BandForFreqIsCanonical(hz: nat)
    requires BandForFreqHz(hz).Some?
    ensures var b := BandForFreqHz(hz).value; CanonicalBand(b) == Some(b) && Tidy(b)
  {
    FindBandFinds(BANDS, hz);
    BandNamesTidy();
    var b := BandForFreqHz(hz).value;
    LowerTrim(b);
    KnownBandFound(BANDS, b);
    FindNameFinds(BANDS, Lower(b));
  }

  lemma {:induction false} KnownBandFound(bands: seq<(nat, nat, string)>, b: string)
    requires exists e :: e in bands && e.2 == b
    ensures FindName(bands, Lower(b)).Some?
  {
    if bands != [] && Lower(bands[0].2) != Lower(b) {
      assert bands == [bands[0]] + bands[1..];
      KnownBandFound(bands[1..], b);
    }
  }
}
