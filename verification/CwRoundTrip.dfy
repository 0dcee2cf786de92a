/**
 Sender against receiver: what the decoder reads off a keyed text, while its dit
 estimate is still adapting to the speed of the sender.
 */
module CwRoundTrip {
  import opened Wrappers
  import opened Text
  import opened Morse
  import opened CwText
  import opened CwDecode

  // ---- a schedule as detection blocks ----------------------------------------

  function Blocks(on: bool, n: nat): (r: seq<bool>)
    ensures |r| == n && forall i :: 0 <= i < n ==> r[i] == on
  {
    seq(n, _ => on)
  }

  /** Detection blocks that fit into `ms`. */
  function BlockCount(ms: real, blockMs: real): nat
    requires blockMs > 0.0
  {
    var n := (ms / blockMs).Floor;
    if n < 0 then 0 else n
  }

  /** Tone on/off per block while `sched` is keyed. */
  function Expand(sched: seq<Keying>, blockMs: real): seq<bool>
    requires blockMs > 0.0
  {
    if sched == [] then []
    else
      Blocks(true, BlockCount(sched[0].on.Ms(), blockMs))
      + Blocks(false, BlockCount(sched[0].off.Ms(), blockMs))
      + Expand(sched[1..], blockMs)
  }

  // The same blocks by structure: `n` blocks per dot, `gap` blocks of silence behind.

  function ElementBlocks(sym: char, n: nat, gap: nat): seq<bool> {
    Blocks(true, if sym == '-' then 3 * n else n) + Blocks(false, gap)
  }

  function CharBlocks(morse: string, n: nat, gap: nat): seq<bool> {
    if morse == "" then []
    else ElementBlocks(morse[0], n, if |morse| > 1 then n else gap) + CharBlocks(morse[1..], n, gap)
  }

  function WordBlocks(word: seq<string>, n: nat, gap: nat): seq<bool> {
    if word == [] then []
    else CharBlocks(word[0], n, if |word| > 1 then 3 * n else gap) + WordBlocks(word[1..], n, gap)
  }

  function TextBlocks(words: seq<seq<string>>, n: nat, gap: nat): seq<bool> {
    if words == [] then []
    else WordBlocks(words[0], n, if |words| > 1 then 7 * n else gap) + TextBlocks(words[1..], n, gap)
  }

  // ---- elapsed time ----------------------------------------------------------

  /** The time `n` blocks take, as the decoder accumulates it. */
  function Span(n: nat, blockMs: real): real {
    if n == 0 then 0.0 else Span(n - 1, blockMs) + blockMs
  }

  lemma SpanAdd(m: nat, n: nat, b: real)
    ensures Span(m + n, b) == Span(m, b) + Span(n, b)
  {
    if n > 0 {
      SpanAdd(m, n - 1, b);
    }
  }

  lemma SpanMonotone(m: nat, n: nat, b: real)
    requires m <= n && b >= 0.0
    ensures 0.0 <= Span(m, b) <= Span(n, b)
  {
    if m < n {
      SpanMonotone(m, n - 1, b);
    } else if m > 0 {
      SpanMonotone(m - 1, m - 1, b);
    }
  }

  lemma SpanTriple(n: nat, b: real)
    ensures Span(3 * n, b) == 3.0 * Span(n, b)
  {
    SpanAdd(n, n, b);
    SpanAdd(2 * n, n, b);
  }

  lemma SpanSeven(n: nat, b: real)
    ensures Span(7 * n, b) == 7.0 * Span(n, b)
  {
    SpanTriple(n, b);
    SpanAdd(3 * n, 3 * n, b);
    SpanAdd(6 * n, n, b);
  }

  // ---- runs of equal blocks --------------------------------------------------

  lemma {:induction false} RunOn(d: Decoder, n: nat, b: real)
    requires d.toneOn
    ensures Run(d, Blocks(true, n), b) == Output(d.(stateMs := d.stateMs + Span(n, b)), "")
    decreases n
  {
    if n > 0 {
      assert Blocks(true, n)[1..] == Blocks(true, n - 1);
      RunOn(d.(stateMs := d.stateMs + b), n - 1, b);
    }
  }

  /** Checking the gaps early and again later is checking them once, later. */
  lemma GapsMerge(d: Decoder, t1: real, t2: real, early: Output, late: Output)
    requires 0.0 < d.ditMs && t1 <= t2
    requires early == OffGaps(d.(stateMs := t1), t1)
    requires late == OffGaps(early.decoder.(stateMs := t2), t2)
    ensures Output(late.decoder, early.text + late.text) == OffGaps(d.(stateMs := t2), t2)
  {
  }

  /** An off block checks the gap that has built up. */
  lemma StepOff(d: Decoder, b: real)
    requires !d.toneOn
    ensures Step(d, false, b) == OffGaps(d.(stateMs := d.stateMs + b), d.stateMs + b)
    ensures var after := OffGaps(d.(stateMs := d.stateMs + b), d.stateMs + b).decoder;
            !after.toneOn && after.stateMs == d.stateMs + b && after.ditMs == d.ditMs
  {
  }

  lemma RunCons(d: Decoder, blocks: seq<bool>, b: real, first: Output, rest: Output)
    requires blocks != [] && Step(d, blocks[0], b) == first && Run(first.decoder, blocks[1..], b) == rest
    ensures Run(d, blocks, b) == Output(rest.decoder, first.text + rest.text)
  {
  }

  lemma RunOneOff(d: Decoder, b: real)
    requires !d.toneOn
    ensures Run(d, Blocks(false, 1), b) == OffGaps(d.(stateMs := d.stateMs + b), d.stateMs + b)
  {
    var first := Step(d, false, b);
    RunCons(d, Blocks(false, 1), b, first, Output(first.decoder, ""));
    assert first.text + "" == first.text;
  }

  /** `n` off blocks in a row, up to time `t` behind the tone, act like one look at the whole gap. */
  lemma {:induction false} RunOff(d: Decoder, n: nat, b: real, t: real)
    requires !d.toneOn && n > 0 && b > 0.0 && d.ditMs > 0.0
    requires t == d.stateMs + Span(n, b)
    ensures Run(d, Blocks(false, n), b) == OffGaps(d.(stateMs := t), t)
    decreases n
  {
    if n == 1 {
      RunOneOff(d, b);
    } else {
      StepOff(d, b);
      var t1 := d.stateMs + b;
      var first := OffGaps(d.(stateMs := t1), t1);
      RunOff(first.decoder, n - 1, b, t);
      RunOffCons(d, n, b, t1, t, first, OffGaps(first.decoder.(stateMs := t), t));
    }
  }

  lemma RunOffCons(d: Decoder, n: nat, b: real, t1: real, t: real, first: Output, late: Output)
    requires !d.toneOn && n > 1 && b > 0.0 && d.ditMs > 0.0
    requires t1 == d.stateMs + b && t == d.stateMs + Span(n, b)
    requires first == Step(d, false, b) == OffGaps(d.(stateMs := t1), t1)
    requires late == OffGaps(first.decoder.(stateMs := t), t)
    requires Run(first.decoder, Blocks(false, n - 1), b) == late
    ensures Run(d, Blocks(false, n), b) == OffGaps(d.(stateMs := t), t)
  {
    assert Blocks(false, n)[1..] == Blocks(false, n - 1);
    RunCons(d, Blocks(false, n), b, first, late);
    SpanMonotone(0, n - 1, b);
    GapsMerge(d, t1, t, first, late);
  }

  // ---- one element -----------------------------------------------------------

  /** A key-down of `on` blocks and a pause of `off` blocks, whatever the estimate. */
  lemma RunKeying(d: Decoder, on: nat, off: nat, b: real)
    requires !d.toneOn && on > 0 && off > 0 && b > 0.0
    ensures Run(d, Blocks(true, on) + Blocks(false, off), b)
            == OffGaps(Heard(d, Span(on, b), Span(off, b)), Span(off, b))
  {
    var mid := SwitchTone(d, true).(stateMs := Span(on, b));
    RunOnAfterOff(d, on, b);
    RunOffAfterOn(mid, off, b);
    RunTwo(d, Blocks(true, on), Blocks(false, off), b, mid,
           OffGaps(SwitchTone(mid, false).(stateMs := Span(off, b)), Span(off, b)));
  }

  lemma RunTwo(d: Decoder, xs: seq<bool>, ys: seq<bool>, b: real, mid: Decoder, end: Output)
    requires Run(d, xs, b) == Output(mid, "") && Run(mid, ys, b) == end
    ensures Run(d, xs + ys, b) == end
  {
    RunAppend(d, xs, ys, b);
    assert "" + end.text == end.text;
  }

  /** The state at the end of a pause of `offMs` behind a key-down of `onMs`, before any flush. */
  function Heard(d: Decoder, onMs: real, offMs: real): Decoder {
    SwitchTone(SwitchTone(d, true).(stateMs := onMs), false).(stateMs := offMs)
  }

  lemma RunOnAfterOff(d: Decoder, n: nat, b: real)
    requires !d.toneOn && n > 0
    ensures Run(d, Blocks(true, n), b) == Output(SwitchTone(d, true).(stateMs := Span(n, b)), "")
  {
    assert Blocks(true, n)[1..] == Blocks(true, n - 1);
    RunOn(SwitchTone(d, true).(stateMs := 0.0 + b), n - 1, b);
  }

  lemma RunOffAfterOn(d: Decoder, n: nat, b: real)
    requires d.toneOn && n > 0 && b > 0.0
    ensures Run(d, Blocks(false, n), b)
            == OffGaps(SwitchTone(d, false).(stateMs := Span(n, b)), Span(n, b))
  {
    // The first off block acts on the switched state exactly as on one that was off already.
    var up := SwitchTone(d, false);
    assert Step(d, false, b) == Step(up, false, b);
    assert Blocks(false, n)[0] == false;
    RunOff(up, n, b, Span(n, b));
  }

  /**
   The estimate is close enough to a dot of `u` ms: dots and dashes are told apart, and
   the estimate behind the next element separates the three kinds of gap.
   */
  predicate InBand(ditMs: real, u: real) {
    24.0 <= ditMs <= 240.0 && 24.0 <= u <= 240.0 && u / 2.0 < ditMs <= 1.5 * u
  }

  function Next(ditMs: real, u: real): real {
    0.8 * ditMs + 0.2 * u
  }

  lemma ElementHeard(d: Decoder, sym: char, u: real, offMs: real)
    requires InBand(d.ditMs, u) && sym in ".-"
    ensures Heard(d, if sym == '-' then 3.0 * u else u, offMs)
            == Decoder(false, offMs, d.symbol + [sym], false, false, Next(d.ditMs, u))
    ensures InBand(Next(d.ditMs, u), u)
    ensures 0.6 * u < Next(d.ditMs, u) <= 1.4 * u
  {
  }

  /** The estimate behind `count` elements keyed at `u` ms per dot. */
  function Converged(ditMs: real, u: real, count: nat): real
    decreases count
  {
    if count == 0 then ditMs else Converged(Next(ditMs, u), u, count - 1)
  }

  lemma NothingKeyed(ditMs: real, u: real)
    ensures Converged(ditMs, u, 0) == ditMs
  {
  }

  lemma {:induction false} ConvergedAdd(ditMs: real, u: real, m: nat, n: nat)
    ensures Converged(Converged(ditMs, u, m), u, n) == Converged(ditMs, u, m + n)
    decreases m
  {
    if m > 0 {
      ConvergedAdd(Next(ditMs, u), u, m - 1, n);
    }
  }

  /** Every element brings the estimate a fifth of the way to the sender's speed, from either side. */
  lemma {:induction false} ConvergedShrinks(ditMs: real, u: real, count: nat)
    requires InBand(ditMs, u)
    ensures InBand(Converged(ditMs, u, count), u)
    ensures Converged(ditMs, u, count + 1) - u == 0.8 * (Converged(ditMs, u, count) - u)
    decreases count
  {
    assert Converged(ditMs, u, count + 1) == Converged(Next(ditMs, u), u, count);
    if count > 0 {
      ConvergedShrinks(Next(ditMs, u), u, count - 1);
    }
  }

  // ---- gaps ------------------------------------------------------------------

  /** What a pause of 1, 3 or at least 7 units does to a pending symbol. */
  lemma GapRead(h: Decoder, u: real)
    requires !h.toneOn && !h.charFlushed && !h.wordFlushed && h.symbol != ""
    requires u > 0.0 && 0.6 * u < h.ditMs <= 1.4 * u
    ensures h.stateMs == u ==> OffGaps(h, u) == Output(h, "")
    ensures h.stateMs == 3.0 * u ==>
              OffGaps(h, 3.0 * u) == Output(h.(symbol := "", charFlushed := true), [Decoded(h.symbol)])
    ensures h.stateMs >= 7.0 * u ==>
              OffGaps(h, h.stateMs)
              == Output(h.(symbol := "", charFlushed := true, wordFlushed := true), [Decoded(h.symbol), ' '])
  {
  }

  /** The gap lengths a sender uses: inside a character, between characters, between words. */
  predicate Inside(gap: nat, n: nat) {
    gap == n
  }

  predicate Between(gap: nat, n: nat) {
    gap == 3 * n || gap >= 7 * n
  }

  /** The space a gap of this length adds. */
  function Space(gap: nat, n: nat): string {
    if gap >= 7 * n then " " else ""
  }

  /** The state between elements: the key is up and these dots and dashes are pending. */
  predicate Pending(d: Decoder, symbol: string, ditMs: real) {
    !d.toneOn && d.symbol == symbol && d.ditMs == ditMs
  }

  /** The state at the end of the pause behind an in-band element, before any flush. */
  function AfterElement(d: Decoder, sym: char, u: real, offMs: real): Decoder {
    Decoder(false, offMs, d.symbol + [sym], false, false, Next(d.ditMs, u))
  }

  lemma ElementTimed(d: Decoder, sym: char, n: nat, gap: nat, b: real, u: real)
    requires !d.toneOn && sym in ".-" && n > 0 && gap > 0 && b > 0.0 && u == Span(n, b) && InBand(d.ditMs, u)
    ensures Run(d, ElementBlocks(sym, n, gap), b)
            == OffGaps(AfterElement(d, sym, u, Span(gap, b)), Span(gap, b))
  {
    RunKeying(d, if sym == '-' then 3 * n else n, gap, b);
    SpanTriple(n, b);
    ElementHeard(d, sym, u, Span(gap, b));
  }

  lemma GapTimed(n: nat, gap: nat, b: real, u: real)
    requires n > 0 && b > 0.0 && u == Span(n, b)
    ensures gap == 3 * n ==> Span(gap, b) == 3.0 * u
    ensures gap >= 7 * n ==> Span(gap, b) >= 7.0 * u
  {
    SpanTriple(n, b);
    SpanSeven(n, b);
    if gap >= 7 * n {
      SpanMonotone(7 * n, gap, b);
    }
  }

  lemma ElementRun(d: Decoder, sym: char, n: nat, gap: nat, b: real, u: real)
    requires !d.toneOn && sym in ".-" && n > 0 && b > 0.0 && u == Span(n, b) && InBand(d.ditMs, u)
    requires Inside(gap, n) || Between(gap, n)
    ensures var r := Run(d, ElementBlocks(sym, n, gap), b);
            if Inside(gap, n)
            then Pending(r.decoder, d.symbol + [sym], Next(d.ditMs, u)) && r.text == ""
            else Pending(r.decoder, "", Next(d.ditMs, u)) && r.text == [Decoded(d.symbol + [sym])] + Space(gap, n)
    ensures InBand(Next(d.ditMs, u), u)
  {
    ElementTimed(d, sym, n, gap, b, u);
    GapTimed(n, gap, b, u);
    GapRead(AfterElement(d, sym, u, Span(gap, b)), u);
  }

  // ---- characters, words, texts ----------------------------------------------

  predicate Dotted(morse: string) {
    morse != "" && forall i :: 0 <= i < |morse| ==> morse[i] in ".-"
  }

  /** One character is heard as the character its whole symbol decodes to. */
  lemma {:induction false} CharRun(d: Decoder, morse: string, n: nat, gap: nat, b: real, u: real)
    requires !d.toneOn && Dotted(morse) && n > 0 && b > 0.0 && u == Span(n, b) && InBand(d.ditMs, u)
    requires Between(gap, n)
    ensures var r := Run(d, CharBlocks(morse, n, gap), b);
            && Pending(r.decoder, "", Converged(d.ditMs, u, |morse|))
            && r.text == [Decoded(d.symbol + morse)] + Space(gap, n)
    decreases |morse|
  {
    hide Run, ElementBlocks, Decoded, Next, InBand;
    var after := if |morse| > 1 then n else gap;
    ElementRun(d, morse[0], n, after, b, u);
    var first := Run(d, ElementBlocks(morse[0], n, after), b);
    if |morse| == 1 {
      assert [morse[0]] == morse;
      assert CharBlocks(morse, n, gap) == ElementBlocks(morse[0], n, after);
    } else {
      CharRun(first.decoder, morse[1..], n, gap, b, u);
      assert first.decoder.symbol + morse[1..] == d.symbol + morse;
      RunAppend(d, ElementBlocks(morse[0], n, after), CharBlocks(morse[1..], n, gap), b);
    }
  }

  function Elements(word: seq<string>): nat {
    if word == [] then 0 else |word[0]| + Elements(word[1..])
  }

  /** The estimate behind a word, character by character. */
  function WordEstimate(ditMs: real, u: real, word: seq<string>): real
    decreases |word|
  {
    if word == [] then ditMs else WordEstimate(Converged(ditMs, u, |word[0]|), u, word[1..])
  }

  lemma {:induction false} WordEstimateCounts(ditMs: real, u: real, word: seq<string>)
    ensures WordEstimate(ditMs, u, word) == Converged(ditMs, u, Elements(word))
    decreases |word|
  {
    if word != [] {
      WordEstimateCounts(Converged(ditMs, u, |word[0]|), u, word[1..]);
      ConvergedAdd(ditMs, u, |word[0]|, Elements(word[1..]));
    }
  }

  function Letters(word: seq<string>): string {
    if word == [] then "" else [Decoded(word[0])] + Letters(word[1..])
  }

  predicate Spelled(word: seq<string>) {
    word != [] && forall i :: 0 <= i < |word| ==> Dotted(word[i])
  }

  lemma {:induction false} WordRun(d: Decoder, word: seq<string>, n: nat, gap: nat, b: real, u: real)
    requires !d.toneOn && d.symbol == "" && Spelled(word)
    requires n > 0 && b > 0.0 && u == Span(n, b) && InBand(d.ditMs, u) && gap >= 7 * n
    ensures var r := Run(d, WordBlocks(word, n, gap), b);
            && Pending(r.decoder, "", WordEstimate(d.ditMs, u, word))
            && r.text == Letters(word) + " "
    decreases |word|
  {
    hide Run, CharBlocks, Decoded, Converged, InBand, Dotted;
    var after := if |word| > 1 then 3 * n else gap;
    CharRun(d, word[0], n, after, b, u);
    assert d.symbol + word[0] == word[0];
    var first := Run(d, CharBlocks(word[0], n, after), b);
    if |word| == 1 {
      assert WordBlocks(word, n, gap) == CharBlocks(word[0], n, after);
    } else {
      ConvergedShrinks(d.ditMs, u, |word[0]|);
      WordRun(first.decoder, word[1..], n, gap, b, u);
      RunAppend(d, CharBlocks(word[0], n, after), WordBlocks(word[1..], n, gap), b);
    }
  }

  function AllElements(words: seq<seq<string>>): nat {
    if words == [] then 0 else Elements(words[0]) + AllElements(words[1..])
  }

  function AllLetters(words: seq<seq<string>>): string {
    if words == [] then "" else Letters(words[0]) + " " + AllLetters(words[1..])
  }

  lemma {:induction false} TextRun(d: Decoder, words: seq<seq<string>>, n: nat, gap: nat, b: real, u: real)
    requires !d.toneOn && d.symbol == "" && forall i :: 0 <= i < |words| ==> Spelled(words[i])
    requires n > 0 && b > 0.0 && u == Span(n, b) && InBand(d.ditMs, u) && gap >= 7 * n
    ensures var r := Run(d, TextBlocks(words, n, gap), b);
            && Pending(r.decoder, "", Converged(d.ditMs, u, AllElements(words)))
            && r.text == AllLetters(words)
    decreases |words|
  {
    hide Run, WordBlocks, Letters, Converged, InBand, Spelled;
    if words == [] {
      NoBlocks(d, TextBlocks(words, n, gap), b);
      assert Converged(d.ditMs, u, 0) == d.ditMs by { NothingKeyed(d.ditMs, u); }
    } else {
      var after := if |words| > 1 then 7 * n else gap;
      WordRun(d, words[0], n, after, b, u);
      WordEstimateCounts(d.ditMs, u, words[0]);
      var first := Run(d, WordBlocks(words[0], n, after), b);
      ConvergedShrinks(d.ditMs, u, Elements(words[0]));
      TextRun(first.decoder, words[1..], n, gap, b, u);
      ConvergedAdd(d.ditMs, u, Elements(words[0]), AllElements(words[1..]));
      RunAppend(d, WordBlocks(words[0], n, after), TextBlocks(words[1..], n, gap), b);
      var rest := Run(first.decoder, TextBlocks(words[1..], n, gap), b);
      assert Run(d, TextBlocks(words, n, gap), b) == Output(rest.decoder, first.text + rest.text);
    }
  }

  // ---- any patterns at all -----------------------------------------------------

  /** What a pattern is read as: its character, or a question mark when the code has none. */
  function ReadAs(morse: string): string {
    match DecodeMorse(morse)
    case Some(c) => [c]
    case None => "?"
  }

  function ReadWord(word: seq<string>): (text: string)
    ensures |text| == |word|
  {
    if word == [] then "" else ReadAs(word[0]) + ReadWord(word[1..])
  }

  function ReadText(words: seq<seq<string>>): string {
    if words == [] then "" else ReadWord(words[0]) + " " + ReadText(words[1..])
  }

  /** Every pattern of dots and dashes is read, in the table or not, and the gap behind it adds its space. */
  lemma PatternRun(d: Decoder, morse: string, n: nat, gap: nat, b: real, u: real)
    requires !d.toneOn && d.symbol == "" && Dotted(morse)
    requires n > 0 && b > 0.0 && u == Span(n, b) && InBand(d.ditMs, u) && Between(gap, n)
    ensures Run(d, CharBlocks(morse, n, gap), b).text == ReadAs(morse) + Space(gap, n)
  {
    hide Run, DecodeMorse, CharBlocks, Dotted, InBand;
    CharRun(d, morse, n, gap, b, u);
    assert "" + morse == morse;
  }

  lemma {:induction false} LettersAreRead(word: seq<string>)
    ensures Letters(word) == ReadWord(word)
  {
    hide DecodeMorse;
    if word != [] {
      LettersAreRead(word[1..]);
    }
  }

  lemma {:induction false} TextsAreRead(words: seq<seq<string>>)
    ensures AllLetters(words) == ReadText(words)
  {
    hide Letters, ReadWord;
    if words != [] {
      LettersAreRead(words[0]);
      TextsAreRead(words[1..]);
    }
  }

  /** Words of any patterns: one character for each pattern, none dropped, and one space behind each word. */
  lemma PatternsRun(d: Decoder, words: seq<seq<string>>, n: nat, gap: nat, b: real, u: real)
    requires !d.toneOn && d.symbol == "" && forall i :: 0 <= i < |words| ==> Spelled(words[i])
    requires n > 0 && b > 0.0 && u == Span(n, b) && InBand(d.ditMs, u) && gap >= 7 * n
    ensures Run(d, TextBlocks(words, n, gap), b).text == ReadText(words)
  {
    hide Run, AllLetters, ReadText, Spelled, InBand;
    TextRun(d, words, n, gap, b, u);
    TextsAreRead(words);
  }

  /** A decoder that was just reset pushes nothing while there is no tone. */
  lemma SilencePushesNothing(ditMs: real, n: nat, b: real)
    requires n > 0 && b > 0.0 && ditMs > 0.0
    ensures Run(Fresh(ditMs), Blocks(false, n), b).text == ""
  {
    RunOff(Fresh(ditMs), n, b, Span(n, b));
  }

  // ---- the estimate ---------------------------------------------------------------

  /** The clamp takes the nearest estimate within 24..240 ms. */
  lemma ClampIsNearest(ms: real, other: real)
    requires 24.0 <= other <= 240.0
    ensures 24.0 <= ClampDit(ms) <= 240.0
    ensures Distance(ClampDit(ms), ms) <= Distance(other, ms)
  {
  }

  function Distance(a: real, b: real): real {
    if a < b then b - a else a - b
  }

  /** The speed shown is the whole number of words per minute nearest to the estimate. */
  lemma SpeedIsNearest(ditMs: real)
    requires 24.0 <= ditMs <= 240.0
    ensures Distance(EstimatedWpm(ditMs) as real, 1200.0 / ditMs) <= 0.5
  {
    var exact := 1200.0 / ditMs;
    assert exact * ditMs == 1200.0;
    SpeedInRange(ditMs, exact);
  }

  lemma SpeedInRange(ditMs: real, exact: real)
    requires 24.0 <= ditMs <= 240.0 && exact * ditMs == 1200.0
    ensures 5.0 <= exact <= 50.0
  {
    if exact < 5.0 {
      Scale(exact, 5.0, ditMs);
      assert false;
    }
    if exact > 50.0 {
      Scale(50.0, exact, ditMs);
      assert false;
    }
  }

  // ---- the schedule of the sender has this structure --------------------------

  lemma {:induction false} SpanProduct(n: nat, b: real)
    ensures Span(n, b) == n as real * b
  {
    if n > 0 {
      SpanProduct(n - 1, b);
    }
  }

  lemma WholeBlocks(m: nat, b: real)
    requires b > 0.0
    ensures BlockCount(Span(m, b), b) == m
  {
    SpanProduct(m, b);
    assert (m as real * b) / b == m as real;
  }

  lemma UnitBlocks(unit: real, n: nat, b: real)
    requires b > 0.0 && unit == Span(n, b)
    ensures BlockCount(Duration(unit, 0).Ms(), b) == 0
    ensures BlockCount(Duration(unit, 1).Ms(), b) == n
    ensures BlockCount(Duration(unit, 3).Ms(), b) == 3 * n
    ensures BlockCount(Duration(unit, 7).Ms(), b) == 7 * n
  {
    WholeBlocks(0, b);
    WholeBlocks(n, b);
    SpanTriple(n, b);
    WholeBlocks(3 * n, b);
    SpanSeven(n, b);
    WholeBlocks(7 * n, b);
  }

  lemma {:induction false} ExpandAppend(xs: seq<Keying>, ys: seq<Keying>, b: real)
    requires b > 0.0
    ensures Expand(xs + ys, b) == Expand(xs, b) + Expand(ys, b)
    decreases |xs|
  {
    if xs == [] {
      assert xs + ys == ys;
    } else {
      assert (xs + ys)[1..] == xs[1..] + ys;
      ExpandAppend(xs[1..], ys, b);
    }
  }

  lemma {:induction false} ExpandChar(morse: string, after: nat, gap: nat, unit: real, n: nat, b: real)
    requires b > 0.0 && unit == Span(n, b)
    requires gap == BlockCount(Duration(unit, after).Ms(), b)
    ensures Expand(CharKeying(morse, after, unit), b) == CharBlocks(morse, n, gap)
    decreases |morse|
  {
    if morse != "" {
      UnitBlocks(unit, n, b);
      ExpandChar(morse[1..], after, gap, unit, n, b);
    }
  }

  lemma {:induction false} ExpandWord(word: seq<string>, after: nat, gap: nat, unit: real, n: nat, b: real)
    requires b > 0.0 && unit == Span(n, b)
    requires gap == BlockCount(Duration(unit, after).Ms(), b)
    ensures Expand(WordKeying(word, after, unit), b) == WordBlocks(word, n, gap)
    decreases |word|
  {
    if word != [] {
      UnitBlocks(unit, n, b);
      var behind := if |word| > 1 then 3 else after;
      ExpandChar(word[0], behind, if |word| > 1 then 3 * n else gap, unit, n, b);
      ExpandWord(word[1..], after, gap, unit, n, b);
      ExpandAppend(CharKeying(word[0], behind, unit), WordKeying(word[1..], after, unit), b);
    }
  }

  lemma {:induction false} ExpandText(words: seq<seq<string>>, unit: real, n: nat, b: real)
    requires b > 0.0 && unit == Span(n, b)
    ensures Expand(TextKeying(words, unit), b) == TextBlocks(words, n, 0)
    decreases |words|
  {
    if words != [] {
      UnitBlocks(unit, n, b);
      var behind := if |words| > 1 then 7 else 0;
      ExpandWord(words[0], behind, if |words| > 1 then 7 * n else 0, unit, n, b);
      ExpandText(words[1..], unit, n, b);
      ExpandAppend(WordKeying(words[0], behind, unit), TextKeying(words[1..], unit), b);
    }
  }

  // ---- silence behind the last element is its gap ------------------------------

  lemma {:induction false} SilenceChar(morse: string, n: nat, k: nat)
    requires morse != ""
    ensures CharBlocks(morse, n, 0) + Blocks(false, k) == CharBlocks(morse, n, k)
    decreases |morse|
  {
    if |morse| > 1 {
      SilenceChar(morse[1..], n, k);
    }
  }

  lemma {:induction false} SilenceWord(word: seq<string>, n: nat, k: nat)
    requires Spelled(word)
    ensures WordBlocks(word, n, 0) + Blocks(false, k) == WordBlocks(word, n, k)
    decreases |word|
  {
    if |word| > 1 {
      SilenceWord(word[1..], n, k);
    } else {
      SilenceChar(word[0], n, k);
      assert WordBlocks(word, n, k) == CharBlocks(word[0], n, k);
      assert WordBlocks(word, n, 0) == CharBlocks(word[0], n, 0);
    }
  }

  lemma {:induction false} SilenceText(words: seq<seq<string>>, n: nat, k: nat)
    requires words != [] && forall i :: 0 <= i < |words| ==> Spelled(words[i])
    ensures TextBlocks(words, n, 0) + Blocks(false, k) == TextBlocks(words, n, k)
    decreases |words|
  {
    if |words| > 1 {
      SilenceText(words[1..], n, k);
    } else {
      SilenceWord(words[0], n, k);
      assert TextBlocks(words, n, k) == WordBlocks(words[0], n, k);
      assert TextBlocks(words, n, 0) == WordBlocks(words[0], n, 0);
    }
  }

  // ---- the words spell the transcript ------------------------------------------

  lemma {:induction false} KnownSpelled(word: string)
    ensures forall i :: 0 <= i < |KnownMorse(word)| ==> Dotted(KnownMorse(word)[i])
    decreases |word|
  {
    if word != "" {
      KnownSpelled(word[1..]);
      if MorseFor(word[0]).Some? {
        DecodeInvertsEncode(word[0]);
      }
    }
  }

  lemma {:induction false} WordsSpelled(words: seq<string>)
    ensures forall i :: 0 <= i < |KeepNonEmpty(words)| ==> Spelled(KeepNonEmpty(words)[i])
    decreases |words|
  {
    if words != [] {
      WordsSpelled(words[1..]);
      KnownSpelled(words[0]);
    }
  }

  /** A run of non-blank characters contributes its known letters, and opens the word. */
  lemma {:induction false} TranscriptWord(word: string, rest: string, open: bool)
    requires forall i :: 0 <= i < |word| ==> !IsWhitespace(word[i])
    ensures Transcript(word + rest, open)
            == Letters(KnownMorse(word)) + Transcript(rest, open || KnownMorse(word) != [])
    decreases |word|
  {
    if word == "" {
      assert word + rest == rest;
    } else {
      assert (word + rest)[1..] == word[1..] + rest;
      if MorseFor(word[0]).Some? {
        DecodeInvertsEncode(word[0]);
        TranscriptWord(word[1..], rest, true);
      } else {
        TranscriptWord(word[1..], rest, open);
      }
    }
  }

  lemma {:induction false} WordLengthStops(s: string)
    ensures forall i :: 0 <= i < WordLength(s) ==> !IsWhitespace(s[i])
    ensures WordLength(s) < |s| ==> IsWhitespace(s[WordLength(s)])
    decreases |s|
  {
    if s != "" && !IsWhitespace(s[0]) {
      WordLengthStops(s[1..]);
    }
  }

  lemma {:induction false} TranscriptSpells(text: string)
    ensures Transcript(text, false) == AllLetters(WordsOf(text))
    decreases |text|
  {
    if text == "" {
    } else if IsWhitespace(text[0]) {
      TranscriptSpells(text[1..]);
    } else {
      var n := WordLength(text);
      var word, rest := text[..n], text[n..];
      WordLengthStops(text);
      assert text == word + rest;
      TranscriptWord(word, rest, false);
      TranscriptSpells(rest);
      assert SplitWhitespace(text)[0] == word && SplitWhitespace(text)[1..] == SplitWhitespace(rest);
    }
  }

  // ---- round trip --------------------------------------------------------------

  /** What a decoder that starts with estimate `ditMs` pushes while `text` is keyed, then `k` silent blocks. */
  function Copy(ditMs: real, text: string, wpm: nat, k: nat, b: real): Output
    requires b > 0.0
  {
    Run(Fresh(ditMs), Expand(Schedule(text, wpm), b) + Blocks(false, k), b)
  }

  /** A dot is `n` whole detection blocks of `b` ms. */
  predicate Aligned(wpm: nat, n: nat, b: real) {
    b > 0.0 && n > 0 && Unit(wpm) == n as real * b
  }

  lemma UnitRange(wpm: nat)
    ensures 24.0 <= Unit(wpm) <= 240.0
  {
    var w := ClampWpm(wpm) as real;
    assert 24.0 * w <= 1200.0 <= 240.0 * w;
    assert Unit(wpm) * w == 1200.0;
  }

  lemma CopyIsRun(ditMs: real, text: string, wpm: nat, n: nat, k: nat, b: real)
    requires Aligned(wpm, n, b) && WordsOf(text) != []
    ensures Copy(ditMs, text, wpm, k, b) == Run(Fresh(ditMs), TextBlocks(WordsOf(text), n, k), b)
    ensures forall i :: 0 <= i < |WordsOf(text)| ==> Spelled(WordsOf(text)[i])
  {
    SpanProduct(n, b);
    ExpandText(WordsOf(text), Unit(wpm), n, b);
    WordsSpelled(SplitWhitespace(text));
    SilenceText(WordsOf(text), n, k);
  }

  /**
   Whatever the text, a decoder whose estimate is in band copies it: the letters it
   knows in upper case, each word followed by one space, and its estimate closes in on
   the sender's dot with every element.
   */
  lemma RoundTrip(ditMs: real, text: string, wpm: nat, n: nat, k: nat, b: real)
    requires Aligned(wpm, n, b) && k >= 7 * n && InBand(ditMs, Unit(wpm))
    ensures Copy(ditMs, text, wpm, k, b).text == Transcript(text, false)
    ensures Copy(ditMs, text, wpm, k, b).decoder.ditMs
            == Converged(ditMs, Unit(wpm), AllElements(WordsOf(text)))
  {
    TranscriptSpells(text);
    if WordsOf(text) == [] {
      assert [] + Blocks(false, k) == Blocks(false, k);
      RunOff(Fresh(ditMs), k, b, Span(k, b));
    } else {
      SpanProduct(n, b);
      CopyIsRun(ditMs, text, wpm, n, k, b);
      TextRun(Fresh(ditMs), WordsOf(text), n, k, b, Unit(wpm));
    }
  }

  /** The decoder copies every text that is followed by at least a word gap of silence. */
  ghost predicate CopiesEveryText(ditMs: real, wpm: nat, n: nat, b: real)
    requires b > 0.0
  {
    forall text, k: nat | k >= 7 * n :: Copy(ditMs, text, wpm, k, b).text == Transcript(text, false)
  }

  lemma OneLetter(c: char, sym: char)
    requires !IsWhitespace(c) && MorseFor(c) == Some([sym]) && UpperChar(c) == c
    ensures WordsOf([c]) == [[[sym]]]
    ensures Transcript([c], false) == [c, ' ']
  {
    assert [c][1..] == "";
    assert WordLength([c]) == 1 && [c][..1] == [c];
    assert KnownMorse([c]) == [[sym]];
    var words: seq<string> := [[c]];
    assert SplitWhitespace([c]) == words;
    assert KeepNonEmpty(words[1..]) == [] && KeepNonEmpty(words) == [KnownMorse(words[0])];
  }

  lemma OneElementBlocks(sym: char, n: nat, k: nat)
    ensures TextBlocks([[[sym]]], n, k) == ElementBlocks(sym, n, k)
  {
    assert [sym][1..] == "" && CharBlocks("", n, k) == [];
    assert CharBlocks([sym], n, k) == ElementBlocks(sym, n, k);
    assert [[sym]][1..] == [] && WordBlocks([], n, k) == [];
    assert WordBlocks([[sym]], n, k) == ElementBlocks(sym, n, k);
    assert [[[sym]]][1..] == [] && TextBlocks([], n, k) == [];
  }

  /** What a pause pushes first is the pending symbol, or nothing but a space. */
  lemma FirstPush(h: Decoder, offMs: real)
    requires OffGaps(h, offMs).text != ""
    ensures OffGaps(h, offMs).text[0] in {Decoded(h.symbol), ' '}
  {
  }

  /** A single dot heard by a decoder that takes it for a dash, or the other way round. */
  lemma Misread(ditMs: real, c: char, sym: char, wpm: nat, n: nat, b: real)
    requires Aligned(wpm, n, b) && ditMs > 0.0
    requires (c == 'E' && sym == '.' && Unit(wpm) >= 2.0 * ditMs)
             || (c == 'T' && sym == '-' && 3.0 * Unit(wpm) < 2.0 * ditMs)
    ensures Copy(ditMs, [c], wpm, 7 * n, b).text != Transcript([c], false)
  {
    OneLetter(c, sym);
    CopyIsRun(ditMs, [c], wpm, n, 7 * n, b);
    OneElementBlocks(sym, n, 7 * n);
    SpanProduct(n, b);
    SpanTriple(n, b);
    var on := if sym == '-' then 3 * n else n;
    RunKeying(Fresh(ditMs), on, 7 * n, b);
    var h := Heard(Fresh(ditMs), Span(on, b), Span(7 * n, b));
    assert h.symbol == (if sym == '.' then "-" else ".");
    if OffGaps(h, Span(7 * n, b)).text != "" {
      FirstPush(h, Span(7 * n, b));
    }
  }

  /** In band is not only enough, it is exactly when every text is copied. */
  lemma CopiesEveryTextIff(ditMs: real, wpm: nat, n: nat, b: real)
    requires Aligned(wpm, n, b) && 24.0 <= ditMs <= 240.0
    ensures CopiesEveryText(ditMs, wpm, n, b) <==> Unit(wpm) / 2.0 < ditMs <= 1.5 * Unit(wpm)
  {
    UnitRange(wpm);
    if InBand(ditMs, Unit(wpm)) {
      forall text, k: nat | k >= 7 * n
        ensures Copy(ditMs, text, wpm, k, b).text == Transcript(text, false)
      {
        RoundTrip(ditMs, text, wpm, n, k, b);
      }
    } else if Unit(wpm) >= 2.0 * ditMs {
      Misread(ditMs, 'E', '.', wpm, n, b);
    } else {
      Misread(ditMs, 'T', '-', wpm, n, b);
    }
  }

  /** In terms of the two speed settings: the seed must be below twice and at least two thirds of the sender's. */
  lemma SeedCopiesIff(seedWpm: nat, wpm: nat, n: nat, b: real)
    requires Aligned(wpm, n, b) && 5 <= seedWpm <= 50 && 5 <= wpm <= 50
    ensures CopiesEveryText(SeedDit(seedWpm), wpm, n, b) <==> seedWpm < 2 * wpm && 2 * wpm <= 3 * seedWpm
  {
    hide CopiesEveryText, Unit, Aligned;
    UnitRange(seedWpm);
    UnitTimesSpeed(seedWpm);
    UnitTimesSpeed(wpm);
    CopiesEveryTextIff(SeedDit(seedWpm), wpm, n, b);
    SpeedRatio(seedWpm as real, wpm as real, Unit(seedWpm), Unit(wpm));
  }

  lemma UnitTimesSpeed(wpm: nat)
    requires 5 <= wpm <= 50
    ensures Unit(wpm) * wpm as real == 1200.0
  {
  }

  lemma SpeedRatio(s: real, w: real, us: real, uw: real)
    requires s > 0.0 && w > 0.0 && us * s == 1200.0 && uw * w == 1200.0
    ensures uw / 2.0 < us <==> s < 2.0 * w
    ensures us <= 1.5 * uw <==> 2.0 * w <= 3.0 * s
  {
    var p := s * w;
    assert p > 0.0;
    assert us * p == 1200.0 * w && uw * p == 1200.0 * s;
    Scale(uw / 2.0, us, p);
    Scale(1.5 * uw, us, p);
    assert uw / 2.0 * p == 600.0 * s && 1.5 * uw * p == 1800.0 * s;
  }

  lemma Scale(x: real, y: real, p: real)
    requires p > 0.0
    ensures x < y <==> x * p < y * p
  {
  }
}
