/**
 Text to keying: the timed key-down/key-up schedule of the CW sender
 (rigflow-client/src/cw_text.rs). Durations are exact reals in milliseconds.
 */
module CwText {
  import opened Wrappers
  import opened Text
  import opened Morse

  /** An exact integer multiple of the dot length. */
  datatype Duration = Duration(unit: real, count: nat) {
    function Ms(): real {
      unit * count as real
    }
  }

  /** One Morse element: how long the key is down, then how long it stays up. */
  datatype Keying = Keying(on: Duration, off: Duration)

  function ClampWpm(wpm: nat): (w: nat)
    ensures 5 <= w <= 50
  {
    if wpm < 5 then 5 else if wpm > 50 then 50 else wpm
  }

  /** Length of one dot, in ms. */
  function Unit(wpm: nat): real {
    1200.0 / ClampWpm(wpm) as real
  }

  // ---- words: whitespace-separated runs, unknown characters dropped ----------

  function WordLength(s: string): (n: nat)
    ensures n <= |s|
    ensures s != "" && !IsWhitespace(s[0]) ==> n > 0
  {
    if s == "" || IsWhitespace(s[0]) then 0 else 1 + WordLength(s[1..])
  }

  function SplitWhitespace(s: string): seq<string> {
    if s == "" then []
    else if IsWhitespace(s[0]) then SplitWhitespace(s[1..])
    else [s[..WordLength(s)]] + SplitWhitespace(s[WordLength(s)..])
  }

  function KnownMorse(word: string): seq<string> {
    if word == "" then []
    else match MorseFor(word[0])
      case Some(m) => [m] + KnownMorse(word[1..])
      case None => KnownMorse(word[1..])
  }

  function KeepNonEmpty(words: seq<string>): seq<seq<string>> {
    if words == [] then []
    else if KnownMorse(words[0]) == [] then KeepNonEmpty(words[1..])
    else [KnownMorse(words[0])] + KeepNonEmpty(words[1..])
  }

  /** The words of `text`, each a non-empty list of Morse strings. */
  function WordsOf(text: string): seq<seq<string>> {
    KeepNonEmpty(SplitWhitespace(text))
  }

  // ---- the schedule as a structure: 1/3 units on, 1/3/7 units off -------------

  function Length(sym: char): nat {
    if sym == '-' then 3 else 1
  }

  /** One element: `sym` sent, then `gap` units of silence. */
  function Element(sym: char, gap: nat, unit: real): Keying {
    Keying(Duration(unit, Length(sym)), Duration(unit, gap))
  }

  /** Elements of one character, `after` units of silence behind the last one. */
  function CharKeying(morse: string, after: nat, unit: real): seq<Keying> {
    if morse == "" then []
    else
      [Element(morse[0], if |morse| > 1 then 1 else after, unit)] + CharKeying(morse[1..], after, unit)
  }

  function WordKeying(word: seq<string>, after: nat, unit: real): seq<Keying> {
    if word == [] then []
    else CharKeying(word[0], if |word| > 1 then 3 else after, unit) + WordKeying(word[1..], after, unit)
  }

  function TextKeying(words: seq<seq<string>>, unit: real): seq<Keying> {
    if words == [] then []
    else WordKeying(words[0], if |words| > 1 then 7 else 0, unit) + TextKeying(words[1..], unit)
  }

  function Schedule(text: string, wpm: nat): seq<Keying> {
    TextKeying(WordsOf(text), Unit(wpm))
  }

  /** The sender's nested loops build exactly the structured schedule. */
  method EncodeSchedule(text: string, wpm: nat) returns (sched: seq<Keying>)
    ensures sched == Schedule(text, wpm)
  {
    var unit := Unit(wpm);
    var words := WordsOf(text);
    sched := [];
    for wi := 0 to |words|
      invariant sched + TextKeying(words[wi..], unit) == TextKeying(words, unit)
    {
      PeelText(words, wi, unit, sched);
      sched := ScheduleWord(sched, words[wi], wi + 1 < |words|, unit);
    }
  }

  /** The two inner loops: append one word's elements to the schedule. */
  method ScheduleWord(before: seq<Keying>, word: seq<string>, moreWords: bool, unit: real)
    returns (sched: seq<Keying>)
    ensures sched == before + WordKeying(word, if moreWords then 7 else 0, unit)
  {
    ghost var afterWord := if moreWords then 7 else 0;
    sched := before;
    for li := 0 to |word|
      invariant sched + WordKeying(word[li..], afterWord, unit) == before + WordKeying(word, afterWord, unit)
    {
      PeelWord(word, li, afterWord, unit, sched);
      var morse := word[li];
      ghost var afterChar := if li + 1 < |word| then 3 else afterWord;
      ghost var charStart := sched;
      for ei := 0 to |morse|
        invariant sched + CharKeying(morse[ei..], afterChar, unit) == charStart + CharKeying(morse, afterChar, unit)
      {
        var on := if morse[ei] == '-' then 3 else 1;
        var off := if ei + 1 < |morse| then 1
                   else if li + 1 < |word| then 3
                   else if moreWords then 7
                   else 0;
        PeelChar(morse, ei, afterChar, unit, sched);
        sched := sched + [Keying(Duration(unit, on), Duration(unit, off))];
      }
    }
  }

  /** Keying element `ei` moves it from what is still to send to what is scheduled. */
  lemma PeelChar(morse: string, ei: nat, after: nat, unit: real, sched: seq<Keying>)
    requires ei < |morse|
    ensures sched + CharKeying(morse[ei..], after, unit)
            == (sched + [Element(morse[ei], if ei + 1 < |morse| then 1 else after, unit)])
               + CharKeying(morse[ei + 1..], after, unit)
  {
    assert morse[ei..][1..] == morse[ei + 1..];
  }

  lemma PeelWord(word: seq<string>, li: nat, after: nat, unit: real, sched: seq<Keying>)
    requires li < |word|
    ensures sched + WordKeying(word[li..], after, unit)
            == (sched + CharKeying(word[li], if li + 1 < |word| then 3 else after, unit))
               + WordKeying(word[li + 1..], after, unit)
  {
    assert word[li..][1..] == word[li + 1..];
  }

  lemma PeelText(words: seq<seq<string>>, wi: nat, unit: real, sched: seq<Keying>)
    requires wi < |words|
    ensures sched + TextKeying(words[wi..], unit)
            == (sched + WordKeying(words[wi], if wi + 1 < |words| then 7 else 0, unit))
               + TextKeying(words[wi + 1..], unit)
  {
    assert words[wi..][1..] == words[wi + 1..];
  }

  // ---- speed ------------------------------------------------------------------

  function TotalMs(sched: seq<Keying>): real {
    if sched == [] then 0.0 else sched[0].on.Ms() + sched[0].off.Ms() + TotalMs(sched[1..])
  }

  /** Units of time a character takes with `after` units behind it. */
  function CharUnits(morse: string, after: nat): nat {
    if morse == "" then 0 else Length(morse[0]) + (if |morse| > 1 then 1 else after) + CharUnits(morse[1..], after)
  }

  function WordUnits(word: seq<string>, after: nat): nat {
    if word == [] then 0
    else CharUnits(word[0], if |word| > 1 then 3 else after) + WordUnits(word[1..], after)
  }

  lemma {:induction false} TotalAppend(a: seq<Keying>, b: seq<Keying>)
    ensures TotalMs(a + b) == TotalMs(a) + TotalMs(b)
    decreases |a|
  {
    if a == [] {
      assert a + b == b;
    } else {
      assert (a + b)[1..] == a[1..] + b;
      TotalAppend(a[1..], b);
    }
  }

  lemma {:induction false} CharTakes(morse: string, after: nat, unit: real)
    ensures TotalMs(CharKeying(morse, after, unit)) == unit * CharUnits(morse, after) as real
    decreases |morse|
  {
    if morse != "" {
      var gap := if |morse| > 1 then 1 else after;
      CharTakes(morse[1..], after, unit);
      assert CharKeying(morse, after, unit) == [Element(morse[0], gap, unit)] + CharKeying(morse[1..], after, unit);
      Spread(unit, Length(morse[0]), gap, CharUnits(morse[1..], after));
    }
  }

  lemma Spread(unit: real, a: nat, b: nat, c: nat)
    ensures unit * a as real + unit * b as real + unit * c as real == unit * (a + b + c) as real
  {
  }

  lemma {:induction false} WordTakes(word: seq<string>, after: nat, unit: real)
    ensures TotalMs(WordKeying(word, after, unit)) == unit * WordUnits(word, after) as real
    decreases |word|
  {
    hide CharKeying, CharUnits, TotalMs;
    if word == [] {
      NothingTakes(unit);
    } else {
      var gap := if |word| > 1 then 3 else after;
      CharTakes(word[0], gap, unit);
      WordTakes(word[1..], after, unit);
      TotalAppend(CharKeying(word[0], gap, unit), WordKeying(word[1..], after, unit));
      Spread(unit, CharUnits(word[0], gap), 0, WordUnits(word[1..], after));
    }
  }

  lemma NothingTakes(unit: real)
    ensures TotalMs([]) == 0.0 && unit * 0.0 == 0.0
  {
  }

  lemma ParisCodes()
    ensures KnownMorse("PARIS") == [".--.", ".-", ".-.", "..", "..."]
  {
    hide MorseFor;
    PrisAre();
    assert "PARIS"[1..] == "ARIS" && "ARIS"[1..] == "RIS" && "RIS"[1..] == "IS" && "IS"[1..] == "S" && "S"[1..] == "";
    assert KnownMorse("S") == ["..."];
    assert KnownMorse("IS") == ["..", "..."];
    assert KnownMorse("RIS") == [".-.", "..", "..."];
    assert KnownMorse("ARIS") == [".-", ".-.", "..", "..."];
  }

  lemma PrisAre()
    ensures MorseFor('P') == Some(".--.") && MorseFor('A') == Some(".-") && MorseFor('R') == Some(".-.")
    ensures MorseFor('I') == Some("..") && MorseFor('S') == Some("...")
  {
  }

  lemma ParisUnits()
    ensures WordUnits([".--.", ".-", ".-.", "..", "..."], 7) == 50
  {
    assert CharUnits(".", 3) == 4 && CharUnits("-", 3) == 6 && CharUnits(".", 7) == 8;
    assert ".."[1..] == "." && "..."[1..] == ".." && ".-"[1..] == "-" && "-."[1..] == "." && ".-."[1..] == "-.";
    assert "--."[1..] == "-." && ".--."[1..] == "--.";
    assert CharUnits("-.", 3) == 8;
    assert CharUnits("--.", 3) == 12 && CharUnits(".--.", 3) == 14;
    assert CharUnits(".-", 3) == 8 && CharUnits(".-.", 3) == 10;
    assert CharUnits("..", 3) == 6;
    assert CharUnits("..", 7) == 10 && CharUnits("...", 7) == 12;
    var w := [".--.", ".-", ".-.", "..", "..."];
    assert w[1..] == [".-", ".-.", "..", "..."] && w[1..][1..] == [".-.", "..", "..."];
    assert w[1..][1..][1..] == ["..", "..."] && w[1..][1..][1..][1..] == ["..."];
    assert WordUnits(["..."], 7) == 12;
    assert WordUnits(["..", "..."], 7) == 18;
    assert WordUnits([".-.", "..", "..."], 7) == 28;
    assert WordUnits([".-", ".-.", "..", "..."], 7) == 36;
  }

  /** The nearest speed a sender keeps. */
  predicate Kept(wpm: nat, speed: nat) {
    if wpm < 5 then speed == 5 else if wpm > 50 then speed == 50 else speed == wpm
  }

  /**
   Speeds are in standard words per minute: at the speed kept for a setting, the word PARIS and the gap behind it take
   exactly that part of a minute.
   */
  lemma SpeedIsWordsPerMinute(wpm: nat, speed: nat)
    requires Kept(wpm, speed)
    ensures TotalMs(WordKeying(KnownMorse("PARIS"), 7, Unit(wpm))) * speed as real == 60_000.0
  {
    hide KnownMorse, WordKeying, WordUnits, TotalMs;
    ParisCodes();
    ParisUnits();
    WordTakes(KnownMorse("PARIS"), 7, Unit(wpm));
    FiftyUnits(wpm, speed);
  }

  lemma FiftyUnits(wpm: nat, speed: nat)
    requires Kept(wpm, speed)
    ensures Unit(wpm) * 50.0 * speed as real == 60_000.0
  {
    var w := speed as real;
    assert Unit(wpm) * w == 1200.0;
    assert Unit(wpm) * 50.0 * w == 50.0 * (Unit(wpm) * w);
  }

  // ---- what a receiver should read -------------------------------------------

  /**
   The text as it should be copied: characters without a Morse code dropped, the
   rest in upper case, one space behind every word that keeps a character.
   `open` says that the current word already kept one.
   */
  function Transcript(text: string, open: bool): string {
    if text == "" then (if open then " " else "")
    else if IsWhitespace(text[0]) then (if open then " " else "") + Transcript(text[1..], false)
    else if MorseFor(text[0]).Some? then [UpperChar(text[0])] + Transcript(text[1..], true)
    else Transcript(text[1..], open)
  }
}
