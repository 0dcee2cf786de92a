/**
 The receive side: the block-by-block decoder of rigflow-client/src/cw_decode.rs.
 Every detection block contributes one boolean, whether the tone is on; how the
 signal processing arrives at it is not part of this model. Times are reals in ms.
 */
module CwDecode {
  import opened Wrappers
  import opened Morse
  import opened CwText
  import Ends

  const MAX_TEXT_CHARS := 4000

  /** The state the decoder carries from block to block. */
  datatype Decoder = Decoder(
    toneOn: bool, stateMs: real, symbol: string,
    charFlushed: bool, wordFlushed: bool, ditMs: real)

  /** A decoder state and the characters pushed on the way to it. */
  datatype Output = Output(decoder: Decoder, text: string)

  function ClampDit(ms: real): real {
    if ms < 24.0 then 24.0 else if ms > 240.0 then 240.0 else ms
  }

  function Adapt(d: Decoder, impliedMs: real): Decoder {
    d.(ditMs := ClampDit(0.8 * d.ditMs + 0.2 * impliedMs))
  }

  function Classify(d: Decoder, durMs: real): Decoder {
    if durMs < 2.0 * d.ditMs
    then Adapt(d.(symbol := d.symbol + "."), durMs)
    else Adapt(d.(symbol := d.symbol + "-"), durMs / 3.0)
  }

  function Decoded(symbol: string): char {
    match DecodeMorse(symbol)
    case Some(c) => c
    case None => '?'
  }

  function FlushChar(d: Decoder, offMs: real): Output {
    if !d.charFlushed && d.symbol != "" && offMs >= 2.0 * d.ditMs
    then Output(d.(symbol := "", charFlushed := true), [Decoded(d.symbol)])
    else Output(d, "")
  }

  function FlushWord(d: Decoder, offMs: real): Output {
    if !d.wordFlushed && offMs >= 5.0 * d.ditMs
    then Output(d.(wordFlushed := true), " ")
    else Output(d, "")
  }

  function OffGaps(d: Decoder, offMs: real): Output {
    var c := FlushChar(d, offMs);
    var w := FlushWord(c.decoder, offMs);
    Output(w.decoder, c.text + w.text)
  }

  /** A change of tone: a key-down that ended is classified, a new one resets the flags. */
  function SwitchTone(d: Decoder, on: bool): Decoder {
    if on then d.(toneOn := true, stateMs := 0.0, charFlushed := false, wordFlushed := false)
    else Classify(d, d.stateMs).(toneOn := false, stateMs := 0.0)
  }

  function Step(d: Decoder, on: bool, blockMs: real): Output {
    var s := if on != d.toneOn then SwitchTone(d, on) else d;
    var t := s.(stateMs := s.stateMs + blockMs);
    if t.toneOn then Output(t, "") else OffGaps(t, t.stateMs)
  }

  function Run(d: Decoder, blocks: seq<bool>, blockMs: real): Output
    decreases |blocks|
  {
    if blocks == [] then Output(d, "")
    else
      var first := Step(d, blocks[0], blockMs);
      var rest := Run(first.decoder, blocks[1..], blockMs);
      Output(rest.decoder, first.text + rest.text)
  }

  lemma {:induction false} RunAppend(d: Decoder, xs: seq<bool>, ys: seq<bool>, blockMs: real)
    ensures Run(d, xs + ys, blockMs)
            == Output(Run(Run(d, xs, blockMs).decoder, ys, blockMs).decoder,
                      Run(d, xs, blockMs).text + Run(Run(d, xs, blockMs).decoder, ys, blockMs).text)
    decreases |xs|
  {
    hide Step;
    if xs == [] {
      assert xs + ys == ys;
      assert "" + Run(d, ys, blockMs).text == Run(d, ys, blockMs).text;
    } else {
      var first := Step(d, xs[0], blockMs);
      assert (xs + ys)[1..] == xs[1..] + ys;
      RunAppend(first.decoder, xs[1..], ys, blockMs);
      var mid := Run(first.decoder, xs[1..], blockMs);
      var end := Run(mid.decoder, ys, blockMs);
      assert first.text + (mid.text + end.text) == (first.text + mid.text) + end.text;
    }
  }

  lemma NoBlocks(d: Decoder, blocks: seq<bool>, blockMs: real)
    requires blocks == []
    ensures Run(d, blocks, blockMs) == Output(d, "")
  {
  }

  lemma RunOne(d: Decoder, blocks: seq<bool>, i: nat, blockMs: real)
    requires i < |blocks|
    ensures var before := Run(d, blocks[..i], blockMs);
            var step := Step(before.decoder, blocks[i], blockMs);
            Run(d, blocks[..i + 1], blockMs) == Output(step.decoder, before.text + step.text)
  {
    assert blocks[..i + 1] == blocks[..i] + [blocks[i]];
    RunAppend(d, blocks[..i], [blocks[i]], blockMs);
    var before := Run(d, blocks[..i], blockMs);
    var step := Step(before.decoder, blocks[i], blockMs);
    assert [blocks[i]][1..] == [];
    assert step.text + "" == step.text;
  }

  /** The state after `reset_runtime`, with dit estimate `ditMs`. */
  function Fresh(ditMs: real): Decoder {
    Decoder(false, 0.0, "", true, true, ditMs)
  }

  /** Dit estimate seeded from a speed setting. */
  function SeedDit(wpm: nat): real {
    ClampDit(Unit(wpm))
  }

  function EstimatedWpm(ditMs: real): nat
    requires ditMs > 0.0
  {
    var w := (1200.0 / ditMs + 0.5).Floor;
    if w < 5 then 5 else if w > 50 then 50 else w
  }

  // ---- the objects of the source ---------------------------------------------

  /** Settings and decoded text, shared between the UI and the media thread. */
  class CwDecodeShared {
    var enabled: bool
    var wpm: nat
    var estWpm: nat
    var text: string

    predicate Valid()
      reads this
    {
      5 <= wpm <= 50 && |text| <= MAX_TEXT_CHARS
    }

    constructor ()
      ensures Valid() && !enabled && wpm == 20 && estWpm == 20 && text == ""
    {
      enabled, wpm, estWpm, text := false, 20, 20, "";
    }

    method SetWpm(w: nat)
      requires Valid()
      modifies this`wpm
      ensures Valid() && wpm == ClampWpm(w)
    {
      wpm := ClampWpm(w);
    }

    /** Append one character, keeping the newest `MAX_TEXT_CHARS`. */
    method Push(c: char)
      modifies this`text
      ensures text == Ends.Last(old(text) + [c], MAX_TEXT_CHARS)
    {
      text := text + [c];
      if |text| > MAX_TEXT_CHARS {
        text := text[|text| - MAX_TEXT_CHARS..];
      }
    }
  }

  lemma ShortEnough(text: string)
    requires |text| <= MAX_TEXT_CHARS
    ensures text + "" == text && Ends.Last(text, MAX_TEXT_CHARS) == text
  {
  }

  class CwDecoder {
    const shared: CwDecodeShared
    const blockMs: real
    var prevEnabled: bool
    var toneOn: bool
    var stateMs: real
    var symbol: string
    var charFlushed: bool
    var wordFlushed: bool
    var ditMs: real

    ghost function State(): Decoder
      reads this
    {
      Decoder(toneOn, stateMs, symbol, charFlushed, wordFlushed, ditMs)
    }

    constructor (shared: CwDecodeShared, blockMs: real)
      ensures this.shared == shared && this.blockMs == blockMs
      ensures !prevEnabled && State() == Fresh(60.0)
    {
      this.shared, this.blockMs := shared, blockMs;
      prevEnabled, toneOn, stateMs, symbol := false, false, 0.0, "";
      charFlushed, wordFlushed, ditMs := true, true, 60.0;
    }

    /**
     Feed detection blocks. Turning the decoder on resets it and seeds the dit
     estimate from the speed setting; from there every block is one `Step`, and what
     the steps push reaches the shared buffer, which keeps its newest characters.
     */
    method Process(blocks: seq<bool>)
      requires shared.Valid()
      modifies this, shared`text, shared`estWpm
      ensures shared.Valid() && prevEnabled == shared.enabled
      ensures !shared.enabled ==> State() == old(State()) && shared.text == old(shared.text)
      ensures shared.enabled ==>
                var start := if old(prevEnabled) then old(State()) else Fresh(SeedDit(shared.wpm));
                && State() == Run(start, blocks, blockMs).decoder
                && shared.text == Ends.Last(old(shared.text) + Run(start, blocks, blockMs).text, MAX_TEXT_CHARS)
    {
      if shared.enabled != prevEnabled {
        prevEnabled := shared.enabled;
        if shared.enabled {
          ResetRuntime();
          ditMs := ClampDit(1200.0 / shared.wpm as real);
        }
      }
      if !shared.enabled {
        return;
      }
      Feed(blocks);
    }

    /** The per-block loop of `Process`. */
    method Feed(blocks: seq<bool>)
      requires shared.Valid()
      modifies this, shared`text, shared`estWpm
      ensures shared.Valid() && prevEnabled == old(prevEnabled)
      ensures State() == Run(old(State()), blocks, blockMs).decoder
      ensures shared.text == Ends.Last(old(shared.text) + Run(old(State()), blocks, blockMs).text, MAX_TEXT_CHARS)
    {
      hide Run, Step, Ends.Last;
      ghost var start, text0 := State(), shared.text;
      ShortEnough(text0);
      NoBlocks(start, blocks[..0], blockMs);
      for i := 0 to |blocks|
        invariant shared.Valid() && prevEnabled == old(prevEnabled)
        invariant State() == Run(start, blocks[..i], blockMs).decoder
        invariant shared.text == Ends.Last(text0 + Run(start, blocks[..i], blockMs).text, MAX_TEXT_CHARS)
      {
        ghost var pushed := Run(start, blocks[..i], blockMs).text;
        ghost var out := ProcessBlock(blocks[i]);
        Ends.LastAppend(text0 + pushed, out, MAX_TEXT_CHARS);
        RunOne(start, blocks, i, blockMs);
        assert text0 + pushed + out == text0 + (pushed + out);
      }
      assert blocks[..|blocks|] == blocks;
    }

    method ProcessBlock(on: bool) returns (ghost out: string)
      requires shared.Valid()
      modifies this, shared`text, shared`estWpm
      ensures shared.Valid() && prevEnabled == old(prevEnabled)
      ensures Output(State(), out) == Step(old(State()), on, blockMs)
      ensures shared.text == Ends.Last(old(shared.text) + out, MAX_TEXT_CHARS)
    {
      if on != toneOn {
        if toneOn {
          ClassifyKeydown(stateMs);
        }
        toneOn := on;
        stateMs := 0.0;
        if on {
          charFlushed := false;
          wordFlushed := false;
        }
      }
      stateMs := stateMs + blockMs;
      out := "";
      assert shared.text == shared.text + out;
      if !toneOn {
        out := CheckOffGaps(stateMs);
      }
    }

    method ClassifyKeydown(durMs: real)
      modifies this`symbol, this`ditMs, shared`estWpm
      ensures State() == Classify(old(State()), durMs)
    {
      if durMs < 2.0 * ditMs {
        symbol := symbol + ".";
        AdaptDit(durMs);
      } else {
        symbol := symbol + "-";
        AdaptDit(durMs / 3.0);
      }
    }

    method AdaptDit(impliedMs: real)
      modifies this`ditMs, shared`estWpm
      ensures State() == Adapt(old(State()), impliedMs)
      ensures 24.0 <= ditMs <= 240.0 && shared.estWpm == EstimatedWpm(ditMs)
    {
      ditMs := ClampDit(0.8 * ditMs + 0.2 * impliedMs);
      shared.estWpm := EstimatedWpm(ditMs);
    }

    method CheckOffGaps(offMs: real) returns (ghost out: string)
      requires shared.Valid()
      modifies this`symbol, this`charFlushed, this`wordFlushed, shared`text
      ensures shared.Valid()
      ensures Output(State(), out) == OffGaps(old(State()), offMs)
      ensures shared.text == Ends.Last(old(shared.text) + out, MAX_TEXT_CHARS)
    {
      hide Decoded, Ends.Last;
      out := "";
      ShortEnough(shared.text);
      if !charFlushed && symbol != "" && offMs >= 2.0 * ditMs {
        shared.Push(Decoded(symbol));
        out := [Decoded(symbol)];
        symbol := "";
        charFlushed := true;
      }
      assert shared.text == Ends.Last(old(shared.text) + out, MAX_TEXT_CHARS);
      if !wordFlushed && offMs >= 5.0 * ditMs {
        Ends.LastAppend(old(shared.text) + out, " ", MAX_TEXT_CHARS);
        shared.Push(' ');
        assert old(shared.text) + out + " " == old(shared.text) + (out + " ");
        out := out + " ";
        wordFlushed := true;
      }
    }

    method ResetRuntime()
      modifies this`toneOn, this`stateMs, this`symbol, this`charFlushed, this`wordFlushed
      ensures State() == Fresh(ditMs)
    {
      toneOn, stateMs, symbol := false, 0.0, "";
      charFlushed, wordFlushed := true, true;
    }
  }
}
