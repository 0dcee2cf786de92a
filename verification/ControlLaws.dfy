/** What the control task keeps over every run, and the bounds on its retries. */
module ControlLaws {
  import opened Wrappers
  import opened ControlTask

  // ---- runs ------------------------------------------------------------------------

  datatype Timed = Timed(event: Event, now: int)

  /**
   What an observer counts along a run: the radio last asked for and not let go since,
   failed reconnects in a row, timer-sent requests since the last reconnect, the first
   busy reply of the current streak, and the clock.
   */
  datatype Observer = Observer(
    requested: Option<string>, failures: nat, timerSends: nat, busySince: Option<int>, clock: int)

  datatype World = World(s: State, o: Observer)

  function Requested(o: Observer, e: Event, out: seq<Output>): Option<string> {
    if e.ReleaseRadio? || e.Disconnect? then None
    else if e.AcquireRadio? && e.sent && out != [] then Some(e.radio)
    else o.requested
  }

  /** Whether this step brings a connection up. */
  predicate Connects(e: Event, out: seq<Output>) {
    ((e.Connect? && e.ok) || (e.ReconnectTimer? && e.ok)) && out != []
  }

  function Failures(o: Observer, e: Event, out: seq<Output>): nat {
    if Connects(e, out) then 0 else if e.ReconnectTimer? then o.failures + 1 else o.failures
  }

  function TimerSends(o: Observer, e: Event, out: seq<Output>): nat {
    if e.ReconnectTimer? && e.ok then 0
    else if e.ReacquireTimer? && out != [] then o.timerSends + 1
    else o.timerSends
  }

  /** The start of a run of busy replies; any other radio message or a manual connection ends it, and so does giving up. */
  function BusySince(o: Observer, e: Event, out: seq<Output>, now: int, gaveUp: bool): Option<int> {
    if e.ServerBusy? then (if gaveUp then None else if o.busySince.Some? then o.busySince else Some(now))
    else if e.RadioAcquired? || e.RadioReleased? || e.OtherRadioMessage? then None
    else if e.Connect? && e.ok && out != [] then None
    else o.busySince
  }

  function Observe(w: World, e: Event, now: int): Observer {
    var step := Arm(w.s, e, now);
    Observer(Requested(w.o, e, step.out), Failures(w.o, e, step.out), TimerSends(w.o, e, step.out),
             BusySince(w.o, e, step.out, now, !step.state.writer), now)
  }

  function Next(w: World, t: Timed): World {
    World(Arm(w.s, t.event, t.now).state, Observe(w, t.event, t.now))
  }

  /** Events come one at a time, each enabled, under a clock that does not run backwards. */
  predicate Possible(w: World, run: seq<Timed>)
    decreases |run|
  {
    run != [] ==>
      Enabled(w.s, run[0].event, run[0].now) && w.o.clock <= run[0].now && Possible(Next(w, run[0]), run[1..])
  }

  function After(w: World, run: seq<Timed>): World
    decreases |run|
  {
    if run == [] then w else After(Next(w, run[0]), run[1..])
  }

  function Begin(now: int): World {
    World(START, Observer(None, 0, 0, None, now))
  }

  // ---- the invariant ---------------------------------------------------------------

  function Doubled(n: nat): int {
    if n == 0 then RECONNECT_BACKOFF_MIN else 2 * Doubled(n - 1)
  }

  /** The wait after `n` failed reconnects in a row. */
  function Backoff(n: nat): int {
    if Doubled(n) < RECONNECT_BACKOFF_MAX then Doubled(n) else RECONNECT_BACKOFF_MAX
  }

  /** The connection's parts agree, and a radio is held only over a connection. */
  predicate ConnectionAgrees(s: State) {
    s.writer == s.reader == s.serverIp.Some? == s.serverConnected && (s.radioAcquired ==> s.writer)
  }

  /** A pending reconnect has a server to go to, is armed, and has no connection in its way. */
  predicate ReconnectArmed(s: State) {
    (s.reconnectAt.Some? ==> s.autoReconnect && !s.writer) && (s.autoReconnect ==> s.targetIp.Some?)
  }

  predicate RadioRemembered(s: State, o: Observer) {
    (s.lastRadio.Some? ==> s.lastRadio == o.requested) && (s.reacquireAt.Some? ==> s.lastRadio.Some?)
  }

  predicate BackoffCounts(s: State, o: Observer) {
    s.backoff == Backoff(o.failures) && (s.writer ==> o.failures == 0)
  }

  /** Each timer-sent request used up one retry period of the give-up window. */
  predicate ReacquireBounded(s: State, o: Observer) {
    && o.timerSends <= 9
    && (s.reacquireAt.Some? ==>
          s.reacquireDeadline.Some?
          && s.reacquireAt.value >= s.reacquireDeadline.value - REACQUIRE_GIVE_UP + REACQUIRE_RETRY * o.timerSends)
  }

  predicate BusyTimed(s: State, o: Observer) {
    s.rejectedSince == o.busySince && (s.rejectedSince.Some? ==> s.rejectedSince.value <= o.clock)
  }

  predicate Inv(w: World) {
    && ConnectionAgrees(w.s) && ReconnectArmed(w.s) && RadioRemembered(w.s, w.o)
    && BackoffCounts(w.s, w.o) && ReacquireBounded(w.s, w.o) && BusyTimed(w.s, w.o)
  }

  lemma NextBackoffIs(n: nat)
    ensures NextBackoff(Backoff(n)) == Backoff(n + 1)
  {
  }

  lemma KeepsConnection(w: World, t: Timed)
    requires ConnectionAgrees(w.s) && ReconnectArmed(w.s) && Enabled(w.s, t.event, t.now)
    ensures ConnectionAgrees(Next(w, t).s) && ReconnectArmed(Next(w, t).s)
  {
    hide Observe, Fatal, OnRenewTick, OnAcquireRadio, OnReleaseRadio, OnReacquireTimer;
  }

  predicate TouchesRadio(e: Event) {
    e.AcquireRadio? || e.ReleaseRadio? || e.Disconnect? || e.ReconnectTimer? || e.ReacquireTimer?
  }

  lemma OthersKeepRadio(s: State, e: Event, now: int)
    requires !TouchesRadio(e)
    ensures SameRadio(s, Arm(s, e, now).state)
  {
    hide Fatal, OnRenewTick, OnConnect, OnServerBusy, OnSocketDown;
  }

  lemma AcquireKeepsRadio(w: World, e: Event, now: int)
    requires RadioRemembered(w.s, w.o) && e.AcquireRadio?
    ensures RadioRemembered(Next(w, Timed(e, now)).s, Next(w, Timed(e, now)).o)
  {
    assert Arm(w.s, e, now) == OnAcquireRadio(w.s, e.radio, e.sent);
  }

  lemma LettingGoKeepsRadio(w: World, e: Event, now: int)
    requires RadioRemembered(w.s, w.o) && (e.ReleaseRadio? || e.Disconnect?)
    ensures RadioRemembered(Next(w, Timed(e, now)).s, Next(w, Timed(e, now)).o)
  {
    assert Arm(w.s, e, now).state.lastRadio == None && Arm(w.s, e, now).state.reacquireAt == None;
  }

  lemma ReconnectKeepsRadio(w: World, e: Event, now: int)
    requires RadioRemembered(w.s, w.o) && e.ReconnectTimer?
    ensures RadioRemembered(Next(w, Timed(e, now)).s, Next(w, Timed(e, now)).o)
  {
    assert Arm(w.s, e, now) == OnReconnectTimer(w.s, e.ok, now);
  }

  lemma ReacquireKeepsRadio(w: World, e: Event, now: int)
    requires RadioRemembered(w.s, w.o) && e.ReacquireTimer?
    ensures RadioRemembered(Next(w, Timed(e, now)).s, Next(w, Timed(e, now)).o)
  {
    hide TimerSends, Failures, BusySince, SameLink, OnReacquireTimer;
    ReacquireRemembers(w.s, now);
    assert Arm(w.s, e, now) == OnReacquireTimer(w.s, now);
  }

  lemma ReacquireRemembers(s: State, now: int)
    requires s.reacquireAt.Some? ==> s.lastRadio.Some?
    ensures var t := OnReacquireTimer(s, now).state;
            (t.lastRadio.Some? ==> t.lastRadio == s.lastRadio) && (t.reacquireAt.Some? ==> t.lastRadio.Some?)
  {
    hide SameLink;
    if s.radioAcquired {
    } else if s.reacquireDeadline.Some? && now >= s.reacquireDeadline.value {
    } else if s.lastRadio.Some? && s.serverIp.Some? && s.writer {
    }
  }

  lemma KeepsRadio(w: World, t: Timed)
    requires RadioRemembered(w.s, w.o)
    ensures RadioRemembered(Next(w, t).s, Next(w, t).o)
  {
    if !TouchesRadio(t.event) {
      OthersKeepRadio(w.s, t.event, t.now);
      hide Arm, BusySince, Failures, TimerSends;
    } else {
      hide Next, RadioRemembered;
      match t.event {
        case AcquireRadio(_, _) => AcquireKeepsRadio(w, t.event, t.now);
        case ReleaseRadio(_) => LettingGoKeepsRadio(w, t.event, t.now);
        case Disconnect => LettingGoKeepsRadio(w, t.event, t.now);
        case ReconnectTimer(_) => ReconnectKeepsRadio(w, t.event, t.now);
        case ReacquireTimer(_) => ReacquireKeepsRadio(w, t.event, t.now);
      }
    }
  }

  lemma KeepsBackoff(w: World, t: Timed)
    requires BackoffCounts(w.s, w.o) && ReconnectArmed(w.s) && ConnectionAgrees(w.s) && Enabled(w.s, t.event, t.now)
    ensures BackoffCounts(Next(w, t).s, Next(w, t).o)
  {
    hide BusySince, Requested, TimerSends, Backoff;
    NextBackoffIs(w.o.failures);
    assert Backoff(0) == RECONNECT_BACKOFF_MIN by { BackoffAtFirst(); }
  }

  lemma BackoffAtFirst()
    ensures Backoff(0) == RECONNECT_BACKOFF_MIN
  {
  }

  lemma ReconnectStartsBound(w: World, e: Event, now: int)
    requires ReacquireBounded(w.s, w.o) && e.ReconnectTimer? && RadioRemembered(w.s, w.o)
    ensures ReacquireBounded(Next(w, Timed(e, now)).s, Next(w, Timed(e, now)).o)
  {
    assert Arm(w.s, e, now) == OnReconnectTimer(w.s, e.ok, now);
  }

  lemma ReacquireUsesBound(w: World, e: Event, now: int)
    requires ReacquireBounded(w.s, w.o) && e.ReacquireTimer? && Enabled(w.s, e, now)
    ensures ReacquireBounded(Next(w, Timed(e, now)).s, Next(w, Timed(e, now)).o)
  {
    hide Requested, Failures, BusySince, SameLink;
    assert Arm(w.s, e, now) == OnReacquireTimer(w.s, now);
  }

  lemma UserKeepsBound(w: World, e: Event, now: int)
    requires ReacquireBounded(w.s, w.o) && (e.AcquireRadio? || e.ReleaseRadio? || e.Disconnect?)
    ensures ReacquireBounded(Next(w, Timed(e, now)).s, Next(w, Timed(e, now)).o)
  {
    var s' := Arm(w.s, e, now).state;
    assert s'.reacquireAt == None
           || (s'.reacquireAt == w.s.reacquireAt && s'.reacquireDeadline == w.s.reacquireDeadline);
  }

  lemma KeepsReacquire(w: World, t: Timed)
    requires ReacquireBounded(w.s, w.o) && RadioRemembered(w.s, w.o) && Enabled(w.s, t.event, t.now)
    ensures ReacquireBounded(Next(w, t).s, Next(w, t).o)
  {
    if !TouchesRadio(t.event) {
      OthersKeepRadio(w.s, t.event, t.now);
      hide Arm, BusySince, Failures, Requested;
    } else {
      hide Next, ReacquireBounded, RadioRemembered;
      match t.event {
        case AcquireRadio(_, _) => UserKeepsBound(w, t.event, t.now);
        case ReleaseRadio(_) => UserKeepsBound(w, t.event, t.now);
        case Disconnect => UserKeepsBound(w, t.event, t.now);
        case ReconnectTimer(_) => ReconnectStartsBound(w, t.event, t.now);
        case ReacquireTimer(_) => ReacquireUsesBound(w, t.event, t.now);
      }
    }
  }

  /** Events that can start, go on with or end a streak of busy replies. */
  predicate TouchesBusy(e: Event) {
    e.ServerBusy? || e.Connect? || e.RadioAcquired? || e.RadioReleased? || e.OtherRadioMessage?
  }

  lemma OthersKeepBusy(s: State, e: Event, now: int)
    requires !TouchesBusy(e)
    ensures Arm(s, e, now).state.rejectedSince == s.rejectedSince
  {
    hide SameRadio, SameLink, Fatal, OnRenewTick, OnAcquireRadio, OnReleaseRadio, OnDisconnect, OnSocketDown,
         OnReconnectTimer, OnReacquireTimer, OnConnect, OnServerBusy;
  }

  lemma BusyKeepsBusy(w: World, e: Event, now: int)
    requires BusyTimed(w.s, w.o) && ConnectionAgrees(w.s) && Enabled(w.s, e, now) && w.o.clock <= now && e.ServerBusy?
    ensures BusyTimed(Next(w, Timed(e, now)).s, Next(w, Timed(e, now)).o)
  {
    hide Requested, Failures, TimerSends, SameRadio, SameLink;
    assert Arm(w.s, e, now) == OnServerBusy(w.s, now);
  }

  lemma KeepsBusy(w: World, t: Timed)
    requires BusyTimed(w.s, w.o) && ConnectionAgrees(w.s) && Enabled(w.s, t.event, t.now) && w.o.clock <= t.now
    ensures BusyTimed(Next(w, t).s, Next(w, t).o)
  {
    hide Requested, Failures, TimerSends, SameRadio, SameLink;
    if !TouchesBusy(t.event) {
      OthersKeepBusy(w.s, t.event, t.now);
      hide Arm;
    } else if t.event.ServerBusy? {
      BusyKeepsBusy(w, t.event, t.now);
      hide Arm, Observe;
    } else {
      hide OnServerBusy, OnSocketDown;
    }
  }

  lemma {:induction false} RunKeepsInv(w: World, run: seq<Timed>)
    requires Inv(w) && Possible(w, run)
    ensures Inv(After(w, run))
    decreases |run|
  {
    hide ConnectionAgrees, ReconnectArmed, RadioRemembered, BackoffCounts, ReacquireBounded, BusyTimed, Enabled, Next;
    if run != [] {
      KeepsConnection(w, run[0]);
      KeepsRadio(w, run[0]);
      KeepsBackoff(w, run[0]);
      KeepsReacquire(w, run[0]);
      KeepsBusy(w, run[0]);
      assert Next(w, run[0]).o.clock == run[0].now by { ClockMoves(w, run[0]); }
      RunKeepsInv(Next(w, run[0]), run[1..]);
    }
  }

  lemma ClockMoves(w: World, t: Timed)
    ensures Next(w, t).o.clock == t.now
  {
  }

  lemma BeginsWell(now: int)
    ensures Inv(Begin(now))
  {
  }

  /** In every state a run can reach, the invariant holds. */
  lemma ReachableInv(start: int, run: seq<Timed>)
    requires Possible(Begin(start), run)
    ensures Inv(After(Begin(start), run))
  {
    hide Inv, After, Possible;
    BeginsWell(start);
    RunKeepsInv(Begin(start), run);
  }

  // ---- what timers may send ----------------------------------------------------------

  /** A timer only asks for the radio that was asked for last and not let go since, over a live connection. */
  lemma TimerAsksForRequested(start: int, run: seq<Timed>, t: Timed)
    requires Possible(Begin(start), run)
    requires Enabled(After(Begin(start), run).s, t.event, t.now)
    ensures var w := After(Begin(start), run);
            forall o | o in Arm(w.s, t.event, t.now).out ::
              && (o.SendAcquire? && o.byTimer ==> w.o.requested == Some(o.radio) && w.s.serverIp == Some(o.ip))
              && (o.TryConnect? && o.byTimer ==> w.s.targetIp == Some(o.ip) && w.s.autoReconnect && !w.s.writer)
  {
    var w := After(Begin(start), run);
    ReachableInv(start, run);
    hide After, Possible, Begin, BackoffCounts, ReacquireBounded, BusyTimed, OnConnect, OnDisconnect, OnServerBusy;
    OutputsByTimer(w.s, t.event, t.now);
  }

  lemma OutputsByTimer(s: State, e: Event, now: int)
    ensures forall o | o in Arm(s, e, now).out ::
              && (o.SendAcquire? && o.byTimer ==> e.ReacquireTimer? && s.lastRadio == Some(o.radio) && s.serverIp == Some(o.ip))
              && (o.TryConnect? && o.byTimer ==> e.ReconnectTimer? && (s.targetIp.Some? ==> s.targetIp == Some(o.ip)))
  {
  }

  /** A radio is asked for, and the request is sent. */
  predicate AsksAny(w: World, t: Timed) {
    t.event.AcquireRadio? && t.event.sent && Arm(w.s, t.event, t.now).out != []
  }

  predicate Asks(w: World, t: Timed, radio: string) {
    AsksAny(w, t) && t.event.radio == radio
  }

  predicate LetsGo(e: Event) {
    e.ReleaseRadio? || e.Disconnect?
  }

  /** From event `i` on nothing is let go, and no radio is asked for successfully. */
  predicate Untouched(w: World, run: seq<Timed>, i: nat) {
    forall j :: i <= j < |run| ==> !LetsGo(run[j].event) && !AsksAny(After(w, run[..j]), run[j])
  }

  predicate AskedLast(w: World, run: seq<Timed>, radio: string) {
    exists i :: 0 <= i < |run| && Asks(After(w, run[..i]), run[i], radio) && Untouched(w, run, i + 1)
  }

  lemma {:induction false} AfterOneMore(w: World, run: seq<Timed>)
    requires run != []
    ensures After(w, run) == Next(After(w, run[..|run| - 1]), run[|run| - 1])
    decreases |run|
  {
    hide Next;
    var n := |run| - 1;
    if n > 0 {
      assert run[..n][1..] == run[1..][..n - 1];
      AfterOneMore(Next(w, run[0]), run[1..]);
    }
  }

  /** What one event does to the radio requested last. */
  lemma RequestedStep(w: World, t: Timed)
    ensures Next(w, t).o.requested
            == if AsksAny(w, t) then Some(t.event.radio) else if LetsGo(t.event) then None else w.o.requested
    ensures !(AsksAny(w, t) && LetsGo(t.event))
  {
    hide Arm, Failures, TimerSends, BusySince;
  }

  lemma UntouchedOneMore(w: World, run: seq<Timed>, i: nat)
    requires run != [] && i < |run|
    ensures var n := |run| - 1;
            Untouched(w, run, i) <==>
            Untouched(w, run[..n], i) && !LetsGo(run[n].event) && !AsksAny(After(w, run[..n]), run[n])
  {
    hide After, LetsGo, AsksAny;
    var n := |run| - 1;
    assert forall j :: 0 <= j < n ==> run[..n][..j] == run[..j];
    assert forall j :: 0 <= j < n ==> run[..n][j] == run[j];
  }

  /**
   "Requested" on the run itself: a radio counts as requested exactly when it was the last one
   asked for successfully, and nothing was let go behind that.
   */
  lemma {:induction false} RequestedMeaning(w: World, run: seq<Timed>, radio: string)
    ensures After(w, run).o.requested == Some(radio)
            <==> (w.o.requested == Some(radio) && Untouched(w, run, 0)) || AskedLast(w, run, radio)
    decreases |run|
  {
    hide After, Next, LetsGo, AsksAny, Untouched, AskedLast;
    if run == [] {
      NothingHappened(w, run, radio);
    } else {
      var n := |run| - 1;
      RequestedMeaning(w, run[..n], radio);
      AfterOneMore(w, run);
      RequestedStep(After(w, run[..n]), run[n]);
      UntouchedOneMore(w, run, 0);
      AskedOneMore(w, run, radio);
    }
  }

  lemma NothingHappened(w: World, run: seq<Timed>, radio: string)
    requires run == []
    ensures After(w, run) == w && Untouched(w, run, 0) && !AskedLast(w, run, radio)
  {
  }

  lemma AskedOneMore(w: World, run: seq<Timed>, radio: string)
    requires run != []
    ensures var n := |run| - 1;
            var before := After(w, run[..n]);
            AskedLast(w, run, radio) <==>
            || Asks(before, run[n], radio)
            || (AskedLast(w, run[..n], radio) && !LetsGo(run[n].event) && !AsksAny(before, run[n]))
  {
    hide After, LetsGo, Asks, AsksAny, Untouched;
    var n := |run| - 1;
    var front := run[..n];
    assert forall i :: 0 <= i < n ==> front[..i] == run[..i] && front[i] == run[i];
    if AskedLast(w, run, radio) {
      var i :| 0 <= i < |run| && Asks(After(w, run[..i]), run[i], radio) && Untouched(w, run, i + 1);
      if i < n {
        UntouchedOneMore(w, run, i + 1);
        assert Asks(After(w, front[..i]), front[i], radio);
      }
    }
    if Asks(After(w, front), run[n], radio) {
      NothingBehind(w, run);
      assert Asks(After(w, run[..n]), run[n], radio);
    }
    if AskedLast(w, front, radio) && !LetsGo(run[n].event) && !AsksAny(After(w, front), run[n]) {
      var i :| 0 <= i < |front| && Asks(After(w, front[..i]), front[i], radio) && Untouched(w, front, i + 1);
      UntouchedOneMore(w, run, i + 1);
      assert Asks(After(w, run[..i]), run[i], radio);
    }
  }

  lemma NothingBehind(w: World, run: seq<Timed>)
    ensures Untouched(w, run, |run|)
  {
  }

  // ---- retry bounds --------------------------------------------------------------------

  /** Between one and thirty seconds, doubling with every failed reconnect in a row; at most nine timer requests per reconnect. */
  lemma RetriesBounded(start: int, run: seq<Timed>)
    requires Possible(Begin(start), run)
    ensures var w := After(Begin(start), run);
            && w.s.backoff == Backoff(w.o.failures)
            && RECONNECT_BACKOFF_MIN <= w.s.backoff <= RECONNECT_BACKOFF_MAX
            && w.o.timerSends <= 9
  {
    ReachableInv(start, run);
    DoubledGrows(After(Begin(start), run).o.failures);
  }

  lemma {:induction false} DoubledGrows(n: nat)
    ensures Doubled(n) >= RECONNECT_BACKOFF_MIN
  {
    if n > 0 {
      DoubledGrows(n - 1);
    }
  }

  // ---- giving up and staying down --------------------------------------------------------

  /** Disconnected with every retry disarmed. */
  predicate Quiet(s: State) {
    !s.writer && !s.reader && s.serverIp.None? && !s.autoReconnect && s.reconnectAt.None?
  }

  /**
   A busy reply ends in quiet at once when the user made the connection, and otherwise
   exactly when the streak of busy replies is at least 45 seconds old.
   */
  lemma BusyGivesUpIff(start: int, run: seq<Timed>, now: int)
    requires Possible(Begin(start), run) && Enabled(After(Begin(start), run).s, ServerBusy, now)
    ensures var w := After(Begin(start), run);
            var since := if w.o.busySince.Some? then w.o.busySince.value else now;
            var next := Next(w, Timed(ServerBusy, now));
            if w.s.connectWasManual || now - since >= SERVER_BUSY_GIVE_UP
            then Quiet(next.s)
            else next.s == w.s.(rejectedSince := Some(since)) && next.o.busySince == Some(since) && !Quiet(next.s)
  {
    ReachableInv(start, run);
    hide After, Possible, Begin;
  }

  lemma DisconnectIsQuiet(w: World, now: int)
    ensures Quiet(Next(w, Timed(Disconnect, now)).s)
  {
  }

  /** No user connection succeeds during the run. */
  predicate NoUserConnect(run: seq<Timed>) {
    forall i :: 0 <= i < |run| ==> !(run[i].event.Connect? && run[i].event.ok)
  }

  function Outputs(w: World, run: seq<Timed>): seq<Output>
    decreases |run|
  {
    if run == [] then [] else Arm(w.s, run[0].event, run[0].now).out + Outputs(Next(w, run[0]), run[1..])
  }

  predicate OnlyUserAttempts(out: seq<Output>) {
    forall o | o in out :: o.TryConnect? && !o.byTimer
  }

  lemma QuietStep(w: World, t: Timed)
    requires Quiet(w.s) && Enabled(w.s, t.event, t.now) && !(t.event.Connect? && t.event.ok)
    ensures Quiet(Next(w, t).s) && OnlyUserAttempts(Arm(w.s, t.event, t.now).out)
  {
    hide Observe;
  }

  /** From quiet on, nothing is sent and nothing reconnects until a user's Connect succeeds. */
  lemma {:induction false} QuietStays(w: World, run: seq<Timed>)
    requires Quiet(w.s) && Possible(w, run) && NoUserConnect(run)
    ensures Quiet(After(w, run).s) && OnlyUserAttempts(Outputs(w, run))
    decreases |run|
  {
    hide Quiet, Arm, Observe, Enabled;
    if run != [] {
      QuietStep(w, run[0]);
      QuietStays(Next(w, run[0]), run[1..]);
    }
  }
}
