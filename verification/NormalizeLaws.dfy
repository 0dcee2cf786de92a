/** What the mode and band vocabulary means for a contact. */
module NormalizeLaws {
  import opened Wrappers
  import opened Text
  import opened Normalize
  import opened Model

  // ---- bands ---------------------------------------------------------------------------

  type Band = (nat, nat, string)

  predicate Inside(band: Band, hz: nat) {
    band.0 <= hz <= band.1
  }

  /** Bands from low to high, apart from each other. */
  predicate Ordered(bands: seq<Band>) {
    forall i, j :: 0 <= i < j < |bands| ==> bands[i].1 < bands[j].0
  }

  lemma {:induction false} FindBandMeaning(bands: seq<Band>, hz: nat)
    requires Ordered(bands)
    ensures forall i :: 0 <= i < |bands| && Inside(bands[i], hz) ==> FindBand(bands, hz) == Some(bands[i].2)
    ensures FindBand(bands, hz).Some? ==> exists i :: 0 <= i < |bands| && Inside(bands[i], hz)
  {
    if bands != [] {
      FindBandMeaning(bands[1..], hz);
      if Inside(bands[0], hz) {
        assert forall i :: 1 <= i < |bands| ==> !Inside(bands[i], hz);
      } else {
        assert forall i :: 1 <= i < |bands| ==> bands[i] == bands[1..][i - 1];
        if FindBand(bands, hz).Some? {
          var i :| 0 <= i < |bands[1..]| && Inside(bands[1..][i], hz);
          assert Inside(bands[i + 1], hz);
        }
      }
    }
  }

  lemma BandsAreOrdered()
    ensures Ordered(BANDS)
  {
    assert forall i :: 0 <= i < |BANDS| - 1 ==> BANDS[i].1 < BANDS[i + 1].0;
    assert forall i :: 0 <= i < |BANDS| ==> BANDS[i].0 < BANDS[i].1;
    hide BANDS;
    StepsOrder(BANDS);
  }

  lemma {:induction false} StepsOrder(bands: seq<Band>)
    requires forall i :: 0 <= i < |bands| - 1 ==> bands[i].1 < bands[i + 1].0
    requires forall i :: 0 <= i < |bands| ==> bands[i].0 < bands[i].1
    ensures Ordered(bands)
    decreases |bands|
  {
    if bands != [] {
      var n := |bands| - 1;
      StepsOrder(bands[..n]);
      forall i | 0 <= i < n
        ensures bands[i].1 < bands[n].0
      {
        assert bands[..n][i] == bands[i] && (n > 1 ==> bands[..n][n - 1] == bands[n - 1]);
      }
    }
  }

  /** A frequency has the band it lies in, ends included, and none outside every band. */
  lemma BandForFreqIff(hz: nat)
    ensures forall i :: 0 <= i < |BANDS| && Inside(BANDS[i], hz) ==> BandForFreqHz(hz) == Some(BANDS[i].2)
    ensures BandForFreqHz(hz).Some? ==> exists i :: 0 <= i < |BANDS| && Inside(BANDS[i], hz)
  {
    hide BANDS;
    BandsAreOrdered();
    FindBandMeaning(BANDS, hz);
  }

  lemma {:induction false} FindNameMeaning(bands: seq<Band>, lower: string)
    ensures FindName(bands, lower).Some? <==> exists i :: 0 <= i < |bands| && Lower(bands[i].2) == lower
    ensures FindName(bands, lower).Some? ==> Lower(FindName(bands, lower).value) == lower
  {
    hide Lower;
    if bands != [] && Lower(bands[0].2) != lower {
      FindNameMeaning(bands[1..], lower);
      assert forall i :: 1 <= i < |bands| ==> bands[i] == bands[1..][i - 1];
      if FindName(bands, lower).Some? {
        var i :| 0 <= i < |bands[1..]| && Lower(bands[1..][i].2) == lower;
        assert Lower(bands[i + 1].2) == lower;
      }
    }
  }

  /** A band is known exactly when its trimmed text is a table name in some letter case; it then keeps that name. */
  lemma CanonicalBandIff(band: string)
    ensures CanonicalBand(band).Some?
            <==> exists i :: 0 <= i < |BANDS| && Lower(BANDS[i].2) == Lower(Trim(band))
    ensures CanonicalBand(band).Some? ==> Lower(CanonicalBand(band).value) == Lower(Trim(band))
  {
    hide BANDS, Lower, Trim;
    FindNameMeaning(BANDS, Lower(Trim(band)));
  }

  // ---- modes ------------------------------------------------------------------------------

  /** The text of an optional field, in the form the tables are written in. */
  function Plain(s: Option<string>): string {
    if s.Some? then Upper(Trim(s.value)) else ""
  }

  /**
   A submode is kept, or found in the mode field, or absent. A submode with a known parent brings that parent
   as the mode; otherwise the mode is the alias of what was written, which for an unknown mode is itself.
   */
  lemma ModeMeaning(mode: string, submode: Option<string>)
    ensures var (m, sm) := NormalizeMode(mode, submode);
            var written := Upper(Trim(mode));
            && (Plain(submode) != "" ==> sm == Some(Plain(submode)))
            && (Plain(submode) == "" ==> sm == if ParentOfSubmode(written).Some? then Some(written) else None)
            && (sm.Some? && ParentOfSubmode(sm.value).Some? ==> m == ParentOfSubmode(sm.value).value)
            && (sm.None? || ParentOfSubmode(sm.value).None? ==> m == AliasMode(written))
  {
    hide ParentOfSubmode, AliasMode, Upper, Trim;
  }

  // ---- contacts ------------------------------------------------------------------------------

  /** A band as it stands afterwards: the table's name for a known one, and an unknown text as it was. */
  predicate Renamed(before: string, after: string) {
    if CanonicalBand(before).Some? then CanonicalBand(before) == Some(after) else after == before
  }

  /** A blank band comes from the frequency, if that lies in a band; both directions are settled separately. */
  lemma NormalizedMeaning(q: Qso)
    ensures var n := Normalized(q);
            && n.(mode := q.mode, submode := q.submode, band := q.band, bandRx := q.bandRx) == q
            && (n.mode, n.submode) == NormalizeMode(q.mode, q.submode)
            && (Trim(q.band) != "" ==> Renamed(q.band, n.band))
            && (Trim(q.band) == "" ==>
                  if q.freqHz.Some? && BandForFreqHz(q.freqHz.value).Some?
                  then n.band == BandForFreqHz(q.freqHz.value).value else n.band == q.band)
            && (match q.bandRx
                case Some(b) => n.bandRx.Some? && Renamed(b, n.bandRx.value)
                case None => n.bandRx == if q.freqRxHz.Some? then BandForFreqHz(q.freqRxHz.value) else None)
  {
    hide CanonicalBand, BandForFreqHz, NormalizeMode, Trim;
  }
}
