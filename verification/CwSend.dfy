/**
 Keying a schedule with an abort flag: the sender thread of rigflow-client/src/cw_text.rs.
 Time passes only in sleeps; the flag is set at `abortAt` and stays set.
 */
module CwSend {
  import opened Wrappers
  import opened CwText

  const SLICE := 5.0

  /** A key-down or key-up sent to the radio and the sidetone. */
  datatype KeyEvent = KeyEvent(down: bool, at: real)

  predicate Aborted(now: real, abortAt: Option<real>) {
    abortAt.Some? && abortAt.value <= now
  }

  function Slice(remaining: real): real {
    if remaining < SLICE then remaining else SLICE
  }

  /** Slices still to sleep. */
  function Slices(remaining: real): nat {
    if remaining <= 0.0 then 0 else (remaining / SLICE).Floor + 1
  }

  lemma SlicesDecrease(remaining: real)
    requires remaining > 0.0
    ensures Slices(remaining - Slice(remaining)) < Slices(remaining)
  {
    if remaining >= SLICE {
      assert (remaining - SLICE) / SLICE == remaining / SLICE - 1.0;
    }
  }

  /** When a sleep ends, and whether the flag ended it. */
  function SleepEnd(remaining: real, now: real, abortAt: Option<real>): (r: (real, bool))
    decreases Slices(remaining)
  {
    if remaining > 0.0 && !Aborted(now, abortAt) then
      SlicesDecrease(remaining);
      SleepEnd(remaining - Slice(remaining), now + Slice(remaining), abortAt)
    else (now, Aborted(now, abortAt))
  }

  /** The sleep in slices, checking the flag in front of each and at the end. */
  method InterruptibleSleep(duration: real, start: real, abortAt: Option<real>) returns (now: real, aborted: bool)
    ensures (now, aborted) == SleepEnd(duration, start, abortAt)
  {
    hide Slices, Slice;
    var remaining := duration;
    now := start;
    while remaining > 0.0
      invariant SleepEnd(remaining, now, abortAt) == SleepEnd(duration, start, abortAt)
      decreases Slices(remaining)
    {
      if Aborted(now, abortAt) {
        return now, true;
      }
      SlicesDecrease(remaining);
      var s := Slice(remaining);
      now := now + s;
      remaining := remaining - s;
    }
    aborted := Aborted(now, abortAt);
  }

  /** One element: its two key events, and when the next one starts unless the flag ended it. */
  function Pressed(k: Keying, now: real, abortAt: Option<real>): (r: (seq<KeyEvent>, Option<real>))
    ensures |r.0| == 2 && r.0[0].down && !r.0[1].down
  {
    var (up, cut) := SleepEnd(k.on.Ms(), now, abortAt);
    var (next, stop) := if k.off.Ms() == 0.0 then (up, false) else SleepEnd(k.off.Ms(), up, abortAt);
    ([KeyEvent(true, now), KeyEvent(false, up)], if cut || stop then None else Some(next))
  }

  /** The key events of a schedule keyed from `now` on. */
  function Keyed(sched: seq<Keying>, now: real, abortAt: Option<real>): seq<KeyEvent>
    decreases |sched|
  {
    if sched == [] || Aborted(now, abortAt) then []
    else
      var (press, next) := Pressed(sched[0], now, abortAt);
      press + if next.Some? then Keyed(sched[1..], next.value, abortAt) else []
  }

  /** The keying loop, with the safety key-up behind it. */
  method KeySchedule(sched: seq<Keying>, start: real, abortAt: Option<real>) returns (events: seq<KeyEvent>)
    ensures events == Keyed(sched, start, abortAt)
  {
    hide Keyed, SleepEnd, Pressed;
    var keyed := false;
    var now := start;
    events := [];
    ghost var all := Keyed(sched, start, abortAt);
    assert sched[0..] == sched;
    for k := 0 to |sched|
      invariant !keyed
      invariant events + Keyed(sched[k..], now, abortAt) == all
    {
      NextElement(sched, k, now, abortAt);
      ghost var before, pressed := events, now;
      if Aborted(now, abortAt) {
        break;
      }
      keyed := true;
      events := events + [KeyEvent(true, now)];
      var up, cut := InterruptibleSleep(sched[k].on.Ms(), now, abortAt);
      PressedIs(sched[k], now, abortAt, up, cut);
      now := up;
      if cut {
        assert events + [KeyEvent(false, now)] == before + [KeyEvent(true, pressed), KeyEvent(false, up)];
        break;
      }
      keyed := false;
      events := events + [KeyEvent(false, now)];
      assert events == before + [KeyEvent(true, pressed), KeyEvent(false, up)];
      if sched[k].off.Ms() != 0.0 {
        var next, stop := InterruptibleSleep(sched[k].off.Ms(), now, abortAt);
        if stop {
          break;
        }
        now := next;
      }
    }
    NothingKeyed(sched, now, abortAt);
    if keyed {
      events := events + [KeyEvent(false, now)];
    }
  }

  lemma NothingKeyed(sched: seq<Keying>, now: real, abortAt: Option<real>)
    ensures Keyed(sched[|sched|..], now, abortAt) == []
  {
  }

  lemma NextElement(sched: seq<Keying>, k: nat, now: real, abortAt: Option<real>)
    requires k < |sched|
    ensures Keyed(sched[k..], now, abortAt)
            == if Aborted(now, abortAt) then []
               else
                 var (press, next) := Pressed(sched[k], now, abortAt);
                 press + if next.Some? then Keyed(sched[k + 1..], next.value, abortAt) else []
  {
    hide Pressed;
    assert sched[k..][1..] == sched[k + 1..];
  }

  lemma PressedIs(k: Keying, now: real, abortAt: Option<real>, up: real, cut: bool)
    requires (up, cut) == SleepEnd(k.on.Ms(), now, abortAt)
    ensures Pressed(k, now, abortAt).0 == [KeyEvent(true, now), KeyEvent(false, up)]
    ensures cut ==> Pressed(k, now, abortAt).1 == None
    ensures !cut ==> Pressed(k, now, abortAt).1
                     == if k.off.Ms() == 0.0 then Some(up)
                        else
                          var (next, stop) := SleepEnd(k.off.Ms(), up, abortAt);
                          if stop then None else Some(next)
  {
    hide SleepEnd;
  }

  /** The sender thread: encode, then key. */
  method SendText(text: string, wpm: nat, abortAt: Option<real>) returns (events: seq<KeyEvent>)
    ensures events == Keyed(Schedule(text, wpm), 0.0, abortAt)
  {
    var sched := EncodeSchedule(text, wpm);
    events := KeySchedule(sched, 0.0, abortAt);
  }

  // ---- laws ---------------------------------------------------------------------------

  predicate NonNegative(sched: seq<Keying>) {
    forall k :: 0 <= k < |sched| ==> sched[k].on.Ms() >= 0.0 && sched[k].off.Ms() >= 0.0
  }

  /** The key events a schedule means. */
  function Timed(sched: seq<Keying>, now: real): seq<KeyEvent>
    decreases |sched|
  {
    if sched == [] then []
    else
      [KeyEvent(true, now), KeyEvent(false, now + sched[0].on.Ms())]
      + Timed(sched[1..], now + sched[0].on.Ms() + sched[0].off.Ms())
  }

  /** Down and up in turn, ending with the key up. */
  predicate Released(events: seq<KeyEvent>) {
    && |events| % 2 == 0
    && forall k :: 0 <= k < |events| ==> (events[k].down <==> k % 2 == 0)
  }

  /** Whenever the flag is set, downs and ups alternate and the key ends up released. */
  lemma {:induction false} KeyIsReleased(sched: seq<Keying>, now: real, abortAt: Option<real>)
    ensures Released(Keyed(sched, now, abortAt))
    decreases |sched|
  {
    hide SleepEnd, Pressed;
    if sched != [] && !Aborted(now, abortAt) {
      var (press, next) := Pressed(sched[0], now, abortAt);
      if next.Some? {
        KeyIsReleased(sched[1..], next.value, abortAt);
      }
    }
  }

  /**
   A sleep that is not cut lasts exactly as long as asked. A cut one ends no earlier than the
   flag was set, and less than one slice later unless the flag was set before it began.
   */
  lemma {:induction false} SleepIsExact(remaining: real, now: real, abortAt: Option<real>)
    requires remaining >= 0.0
    ensures var (end, cut) := SleepEnd(remaining, now, abortAt);
            && now <= end <= now + remaining
            && (cut <==> Aborted(end, abortAt))
            && (!cut ==> end == now + remaining)
            && (cut && !Aborted(now, abortAt) ==> end < abortAt.value + SLICE)
    decreases Slices(remaining)
  {
    hide Slices;
    if remaining > 0.0 && !Aborted(now, abortAt) {
      SlicesDecrease(remaining);
      SleepIsExact(remaining - Slice(remaining), now + Slice(remaining), abortAt);
    }
  }

  /** Without an abort the key follows the schedule exactly. */
  lemma {:induction false} KeysTheSchedule(sched: seq<Keying>, now: real)
    requires NonNegative(sched)
    ensures Keyed(sched, now, None) == Timed(sched, now)
    decreases |sched|
  {
    hide SleepEnd;
    if sched != [] {
      SleepIsExact(sched[0].on.Ms(), now, None);
      SleepIsExact(sched[0].off.Ms(), now + sched[0].on.Ms(), None);
      KeysTheSchedule(sched[1..], now + sched[0].on.Ms() + sched[0].off.Ms());
    }
  }

  /** The schedule's events up to the `n`-th, and a key-up at `up` if the key is still down there. */
  predicate CutAt(events: seq<KeyEvent>, all: seq<KeyEvent>, n: nat, abort: real) {
    && n <= |all| && n <= |events|
    && events[..n] == all[..n]
    && (forall k :: 0 <= k < n ==> all[k].at < abort)
    && (n < |all| ==> abort <= all[n].at)
    && (if n % 2 == 0 then |events| == n
        else |events| == n + 1 && !events[n].down && abort <= events[n].at < abort + SLICE)
  }

  /**
   An abort keeps exactly the events before it: nothing is keyed afterwards, and a key that is
   down then is released less than one slice later.
   */
  lemma {:induction false} AbortIsPrompt(sched: seq<Keying>, now: real, abort: real) returns (n: nat)
    requires NonNegative(sched)
    ensures CutAt(Keyed(sched, now, Some(abort)), Timed(sched, now), n, abort)
    decreases |sched|
  {
    hide SleepEnd, CutAt, NonNegative;
    var flag := Some(abort);
    if sched == [] || Aborted(now, flag) {
      n := 0;
      CutAtStart(sched, now, abort);
    } else {
      var on, off := sched[0].on.Ms(), sched[0].off.Ms();
      FirstIsNonNegative(sched);
      SleepIsExact(on, now, flag);
      var (up, cut) := SleepEnd(on, now, flag);
      if cut {
        n := 1;
        CutInMark(sched, now, abort, up);
      } else {
        SleepIsExact(off, up, flag);
        if off != 0.0 && SleepEnd(off, up, flag).1 {
          n := 2;
          CutInGap(sched, now, abort, up);
        } else {
          var m := AbortIsPrompt(sched[1..], up + off, abort);
          n := m + 2;
          CutLater(sched, now, abort, up, m);
        }
      }
    }
  }

  lemma FirstIsNonNegative(sched: seq<Keying>)
    requires NonNegative(sched) && sched != []
    ensures sched[0].on.Ms() >= 0.0 && sched[0].off.Ms() >= 0.0 && NonNegative(sched[1..])
  {
  }

  lemma CutAtStart(sched: seq<Keying>, now: real, abort: real)
    requires sched == [] || Aborted(now, Some(abort))
    ensures CutAt(Keyed(sched, now, Some(abort)), Timed(sched, now), 0, abort)
  {
  }

  lemma CutInMark(sched: seq<Keying>, now: real, abort: real, up: real)
    requires sched != [] && !Aborted(now, Some(abort))
    requires SleepEnd(sched[0].on.Ms(), now, Some(abort)) == (up, true)
    requires abort <= up < abort + SLICE && up <= now + sched[0].on.Ms()
    ensures CutAt(Keyed(sched, now, Some(abort)), Timed(sched, now), 1, abort)
  {
    hide SleepEnd;
    assert Keyed(sched, now, Some(abort)) == [KeyEvent(true, now), KeyEvent(false, up)];
  }

  lemma CutInGap(sched: seq<Keying>, now: real, abort: real, up: real)
    requires sched != [] && !Aborted(now, Some(abort)) && !Aborted(up, Some(abort))
    requires up == now + sched[0].on.Ms() && SleepEnd(sched[0].on.Ms(), now, Some(abort)) == (up, false)
    requires sched[0].off.Ms() != 0.0 && SleepEnd(sched[0].off.Ms(), up, Some(abort)).1
    requires abort <= up + sched[0].off.Ms()
    ensures CutAt(Keyed(sched, now, Some(abort)), Timed(sched, now), 2, abort)
  {
    hide SleepEnd;
    assert Keyed(sched, now, Some(abort)) == [KeyEvent(true, now), KeyEvent(false, up)];
  }

  lemma CutLater(sched: seq<Keying>, now: real, abort: real, up: real, m: nat)
    requires sched != [] && !Aborted(now, Some(abort)) && !Aborted(up, Some(abort))
    requires up == now + sched[0].on.Ms() && SleepEnd(sched[0].on.Ms(), now, Some(abort)) == (up, false)
    requires sched[0].off.Ms() == 0.0 || SleepEnd(sched[0].off.Ms(), up, Some(abort)) == (up + sched[0].off.Ms(), false)
    requires CutAt(Keyed(sched[1..], up + sched[0].off.Ms(), Some(abort)),
                   Timed(sched[1..], up + sched[0].off.Ms()), m, abort)
    ensures CutAt(Keyed(sched, now, Some(abort)), Timed(sched, now), m + 2, abort)
  {
    hide SleepEnd;
    var next := up + sched[0].off.Ms();
    var press := [KeyEvent(true, now), KeyEvent(false, up)];
    CutBehind(press, Keyed(sched[1..], next, Some(abort)), Timed(sched[1..], next), m, abort);
  }

  lemma CutBehind(press: seq<KeyEvent>, events: seq<KeyEvent>, all: seq<KeyEvent>, m: nat, abort: real)
    requires |press| == 2 && press[0].at < abort && press[1].at < abort
    requires CutAt(events, all, m, abort)
    ensures CutAt(press + events, press + all, m + 2, abort)
  {
    assert (press + events)[..m + 2] == press + events[..m];
    assert (press + all)[..m + 2] == press + all[..m];
  }
}
