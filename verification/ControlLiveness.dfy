/** What the control task must do: what every event sends, and when its timers are due. */
module ControlLiveness {
  import opened Wrappers
  import opened ControlTask
  import opened ControlLaws
  import opened ControlHistory

  // ---- what is sent ------------------------------------------------------------------------

  /** The sends of an event, from the connection, the radio and the give-up time alone. */
  function Sends(
    connected: bool, held: bool, server: string, radio: Option<string>, giveUp: Option<int>, e: Event, now: int
  ): seq<Output> {
    match e
    case RenewTick(_) => if held then [SendOther] else []
    case AcquireRadio(wanted, _) => if connected then [SendAcquire(wanted, server, false)] else []
    case ReleaseRadio(_) => if connected then [SendRelease] else []
    case Connect(ip, _) => if connected then [] else [TryConnect(ip, false)]
    case RadioMessage(_) => if connected then [SendOther] else []
    case Ping(_) => if connected then [SendOther] else []
    case ReconnectTimer(_) => [TryConnect(server, true)]
    case ReacquireTimer(_) =>
      if connected && !held && radio.Some? && (giveUp.Some? ==> now < giveUp.value)
      then [SendAcquire(radio.value, server, true)] else []
    case _ => []
  }

  function NameOf(server: Option<string>): string {
    if server.Some? then server.value else ""
  }

  function SendsIn(s: State, server: Option<string>, e: Event, now: int): seq<Output> {
    Sends(s.serverConnected, s.radioAcquired, NameOf(server), s.lastRadio, s.reacquireDeadline, e, now)
  }

  lemma UserSends(s: State, server: Option<string>, e: Event, now: int)
    requires ConnectionAgrees(s) && ServersAre(s, server)
    requires e.AcquireRadio? || e.ReleaseRadio? || e.Connect? || e.Disconnect?
    ensures Arm(s, e, now).out == SendsIn(s, server, e, now)
  {
    hide SameRadio, SameLink;
  }

  lemma TimerSendsAre(s: State, server: Option<string>, e: Event, now: int)
    requires ConnectionAgrees(s) && ServersAre(s, server) && (s.reconnectAt.Some? ==> s.autoReconnect)
    requires (e.ReconnectTimer? && s.reconnectAt.Some?) || e.ReacquireTimer?
    ensures Arm(s, e, now).out == SendsIn(s, server, e, now)
  {
    hide SameLink, Reconnected, BackedOff;
  }

  lemma OtherSends(s: State, server: Option<string>, e: Event, now: int)
    requires ConnectionAgrees(s)
    requires !(e.AcquireRadio? || e.ReleaseRadio? || e.Connect? || e.Disconnect? || e.ReconnectTimer? || e.ReacquireTimer?)
    ensures Arm(s, e, now).out == SendsIn(s, server, e, now)
  {
    hide SameRadio, SameLink;
  }

  /** In every reachable state, an event sends exactly what the history calls for: to the server chosen last, for the radio asked for last. */
  lemma SendsExactly(start: int, run: seq<Timed>, t: Timed)
    requires Possible(Begin(start), run) && Enabled(After(Begin(start), run).s, t.event, t.now)
    ensures var w := Begin(start);
            Arm(After(w, run).s, t.event, t.now).out
            == Sends(LastMark(Link, w, run) == Some(true), LastMark(Held, w, run) == Some(true),
                     NameOf(LastMark(Server, w, run)), Flat(LastMark(Radio, w, run)), Flat(LastMark(GiveUpAt, w, run)),
                     t.event, t.now)
  {
    hide After, Begin, Possible, Sends, ServersAre, LastMark, NameOf, Arm, BackoffCounts, ReacquireBounded, BusyTimed,
         RadioRemembered;
    var s, e := After(Begin(start), run).s, t.event;
    var server := LastMark(Server, Begin(start), run);
    HistoryDecides(start, run);
    ReachableInv(start, run);
    if e.AcquireRadio? || e.ReleaseRadio? || e.Connect? || e.Disconnect? {
      UserSends(s, server, e, t.now);
    } else if e.ReconnectTimer? || e.ReacquireTimer? {
      TimerSendsAre(s, server, e, t.now);
    } else {
      OtherSends(s, server, e, t.now);
    }
  }

  // ---- reconnecting ---------------------------------------------------------------------------

  /** A drop, or a user's Connect that fails. */
  function Failing(w: World, t: Timed): Option<bool> {
    if t.event.SocketDown? then Some(false) else if TriesUser(w, t) && !t.event.ok then Some(true) else None
  }

  /** A user's Connect failed, and no drop came behind it. */
  predicate FailedSinceDrop(w: World, run: seq<Timed>) {
    MarkedLast(Failing, w, run, true)
  }

  predicate Pending(s: State, failed: bool) {
    s.autoReconnect && !s.serverConnected ==> (s.reconnectAt.Some? <==> !failed)
  }

  lemma PendingStep(w: World, t: Timed, s': State, failed: bool)
    requires Inv(w) && Enabled(w.s, t.event, t.now) && Follows(w, t, s') && Pending(w.s, failed)
    ensures Pending(s', Given(Failing(w, t), failed))
  {
    hide Backoff, BackoffCounts, ReacquireBounded, BusyTimed, RadioRemembered, Held, Radio, ReacquireDue, GiveUpAt, Ends;
  }

  lemma {:induction false} PendingTold(start: int, run: seq<Timed>)
    requires Possible(Begin(start), run)
    ensures Pending(After(Begin(start), run).s, LastMark(Failing, Begin(start), run) == Some(true))
    decreases |run|
  {
    hide After, Next, Possible, Enabled, Inv, Follows, Pending, Failing;
    if run == [] {
      NothingPending(start);
    } else {
      var n := |run| - 1;
      var v := After(Begin(start), run[..n]);
      PossibleFront(Begin(start), run);
      PendingTold(start, run[..n]);
      ReachableInv(start, run[..n]);
      AfterOneMore(Begin(start), run);
      StepFollows(v, run[n]);
      PendingStep(v, run[n], Next(v, run[n]).s, LastMark(Failing, Begin(start), run[..n]) == Some(true));
    }
  }

  lemma NothingPending(start: int)
    ensures Pending(After(Begin(start), []).s, false)
  {
  }

  lemma MarkIsLast(w: World, run: seq<Timed>)
    ensures FailedSinceDrop(w, run) <==> LastMark(Failing, w, run) == Some(true)
  {
    hide After, Failing;
    LastMarkMeaning(Failing, w, run);
    if FailedSinceDrop(w, run) {
      var i :| 0 <= i < |run| && Failing(After(w, run[..i]), run[i]) == Some(true) && Unmarked(Failing, w, run, i + 1);
      LastMarkStays(Failing, w, run, i + 1);
      assert run[..i + 1][..i] == run[..i];
    }
  }

  /**
   An armed task without a connection has a reconnect pending if and only if no user's Connect failed since the
   last drop: such a failure is the one thing that leaves it armed and idle.
   */
  lemma ReconnectPendingIff(start: int, run: seq<Timed>)
    requires Possible(Begin(start), run)
    ensures var s := After(Begin(start), run).s;
            s.autoReconnect && !s.writer ==> (s.reconnectAt.Some? <==> !FailedSinceDrop(Begin(start), run))
  {
    hide After, Begin, Possible, LastMark, FailedSinceDrop, BackoffCounts, ReacquireBounded, BusyTimed, RadioRemembered;
    PendingTold(start, run);
    MarkIsLast(Begin(start), run);
    ReachableInv(start, run);
  }

  /** Down, armed, and due to reconnect at `due`. */
  predicate Waiting(s: State, due: int) {
    s.running && s.autoReconnect && !s.writer && s.reconnectAt == Some(due)
  }

  /** Events that leave the connection alone and do not end the task. */
  predicate LeavesLink(e: Event) {
    !TouchesLink(e) && !e.CommandsClosed?
  }

  predicate AllLeaveLink(run: seq<Timed>) {
    forall i :: 0 <= i < |run| ==> LeavesLink(run[i].event)
  }

  lemma WaitingStep(w: World, t: Timed, s': State, due: int)
    requires Inv(w) && Enabled(w.s, t.event, t.now) && Follows(w, t, s') && ConnectionAgrees(s')
    requires Waiting(w.s, due) && LeavesLink(t.event)
    ensures Waiting(s', due)
  {
    hide Backoff, BackoffCounts, ReacquireBounded, BusyTimed, RadioRemembered, Held, Radio, ReacquireDue, GiveUpAt;
  }

  lemma {:induction false} StaysWaiting(w: World, run: seq<Timed>, due: int)
    requires Inv(w) && Possible(w, run) && AllLeaveLink(run) && Waiting(w.s, due)
    ensures Waiting(After(w, run).s, due)
    decreases |run|
  {
    hide Next, Enabled, Follows, Waiting, LeavesLink, Inv;
    if run != [] {
      StepFollows(w, run[0]);
      InvStep(w, run[0]);
      WaitingStep(w, run[0], Next(w, run[0]).s, due);
      StaysWaiting(Next(w, run[0]), run[1..], due);
    }
  }

  lemma InvStep(w: World, t: Timed)
    requires Inv(w) && Enabled(w.s, t.event, t.now) && w.o.clock <= t.now
    ensures Inv(Next(w, t)) && ConnectionAgrees(Next(w, t).s)
  {
    hide Inv, Next, Enabled;
    RunKeepsInv(w, [t]);
    assert After(w, [t]) == Next(w, t);
    InvAgrees(Next(w, t));
  }

  lemma InvAgrees(w: World)
    requires Inv(w)
    ensures ConnectionAgrees(w.s)
  {
  }

  lemma DropStartsWaiting(w: World, t: Timed, s': State)
    requires Inv(w) && Enabled(w.s, t.event, t.now) && Follows(w, t, s') && ConnectionAgrees(s')
    requires t.event.SocketDown? && w.s.autoReconnect
    ensures Waiting(s', t.now + 1_000)
  {
    hide Backoff, BackoffCounts, ReacquireBounded, BusyTimed, RadioRemembered, Held, Radio, ReacquireDue, GiveUpAt;
  }

  lemma FailureStartsWaiting(w: World, t: Timed, s': State)
    requires Inv(w) && Enabled(w.s, t.event, t.now) && Follows(w, t, s') && ConnectionAgrees(s')
    requires t.event.ReconnectTimer? && !t.event.ok
    ensures Waiting(s', t.now + Backoff(w.o.failures + 1))
  {
    hide Backoff, BackoffCounts, ReacquireBounded, BusyTimed, RadioRemembered, Held, Radio, ReacquireDue, GiveUpAt;
  }

  /**
   After a drop in an armed state the reconnect timer is due one second later, and stays due until something happens
   to the connection.
   */
  lemma DropReconnects(start: int, run: seq<Timed>, drop: Timed, later: seq<Timed>, now: int, ok: bool)
    requires Possible(Begin(start), run) && After(Begin(start), run).s.autoReconnect && drop.event.SocketDown?
    requires var w := After(Begin(start), run);
             Enabled(w.s, drop.event, drop.now) && w.o.clock <= drop.now && Possible(Next(w, drop), later)
    requires AllLeaveLink(later)
    ensures Enabled(After(Next(After(Begin(start), run), drop), later).s, ReconnectTimer(ok), now)
            <==> now >= drop.now + 1_000
  {
    hide After, Begin, Possible, Next, Follows, Inv, AllLeaveLink;
    var w := After(Begin(start), run);
    ReachableInv(start, run);
    StepFollows(w, drop);
    InvStep(w, drop);
    DropStartsWaiting(w, drop, Next(w, drop).s);
    StaysWaiting(Next(w, drop), later, drop.now + 1_000);
  }

  /** After the `n`-th failed reconnect in a row the next one is due `min(2^n, 30)` seconds later. */
  lemma FailureReconnects(start: int, run: seq<Timed>, failure: Timed, later: seq<Timed>, now: int, ok: bool)
    requires Possible(Begin(start), run) && failure.event == ReconnectTimer(false)
    requires var w := After(Begin(start), run);
             Enabled(w.s, failure.event, failure.now) && w.o.clock <= failure.now && Possible(Next(w, failure), later)
    requires AllLeaveLink(later)
    ensures var w := After(Begin(start), run);
            Enabled(After(Next(w, failure), later).s, ReconnectTimer(ok), now)
            <==> now >= failure.now + Backoff(w.o.failures + 1)
  {
    hide After, Begin, Possible, Next, Follows, Inv, AllLeaveLink, Backoff;
    var w := After(Begin(start), run);
    ReachableInv(start, run);
    StepFollows(w, failure);
    InvStep(w, failure);
    FailureStartsWaiting(w, failure, Next(w, failure).s);
    StaysWaiting(Next(w, failure), later, failure.now + Backoff(w.o.failures + 1));
  }

  // ---- asking for the radio again -----------------------------------------------------------------

  /** Connected, without the radio, asking for it until `giveUp`, next at `due`. */
  predicate Asking(s: State, radio: string, due: int, giveUp: int) {
    && s.running && s.writer && !s.radioAcquired && s.lastRadio == Some(radio)
    && s.reacquireAt == Some(due) && s.reacquireDeadline == Some(giveUp)
  }

  /** Nothing but timer requests inside the window, and events that concern neither the radio nor the connection. */
  predicate KeepsAsking(t: Timed, giveUp: int) {
    match t.event
    case ReacquireTimer(_) => t.now < giveUp
    case RenewTick(_) => true
    case RadioMessage(sent) => sent
    case Ping(sent) => sent
    case OtherRadioMessage => true
    case OtherFrame => true
    case _ => false
  }

  function DueAfter(due: int, t: Timed): int {
    if t.event.ReacquireTimer? then t.now + 4_000 else due
  }

  function DueAfterAll(due: int, run: seq<Timed>): int
    decreases |run|
  {
    if run == [] then due else DueAfterAll(DueAfter(due, run[0]), run[1..])
  }

  lemma AskingStep(w: World, t: Timed, s': State, radio: string, due: int, giveUp: int)
    requires Inv(w) && Enabled(w.s, t.event, t.now) && Follows(w, t, s') && ConnectionAgrees(s')
    requires Asking(w.s, radio, due, giveUp) && KeepsAsking(t, giveUp)
    ensures Asking(s', radio, DueAfter(due, t), giveUp)
  {
    hide Backoff, BackoffCounts, ReacquireBounded, BusyTimed, RadioRemembered, ReconnectDue;
  }

  lemma {:induction false} StaysAsking(w: World, run: seq<Timed>, radio: string, due: int, giveUp: int)
    requires Inv(w) && Possible(w, run) && Asking(w.s, radio, due, giveUp)
    requires forall i :: 0 <= i < |run| ==> KeepsAsking(run[i], giveUp)
    ensures Asking(After(w, run).s, radio, DueAfterAll(due, run), giveUp) && Inv(After(w, run))
    decreases |run|
  {
    hide Next, Enabled, Follows, Asking, KeepsAsking, Inv, DueAfter;
    if run != [] {
      StepFollows(w, run[0]);
      InvStep(w, run[0]);
      AskingStep(w, run[0], Next(w, run[0]).s, radio, due, giveUp);
      StaysAsking(Next(w, run[0]), run[1..], radio, DueAfter(due, run[0]), giveUp);
    }
  }

  lemma ReconnectStartsAsking(w: World, t: Timed, s': State, radio: string)
    requires Inv(w) && Enabled(w.s, t.event, t.now) && Follows(w, t, s') && ConnectionAgrees(s')
    requires t.event == ReconnectTimer(true) && w.s.lastRadio == Some(radio)
    ensures Asking(s', radio, t.now, t.now + 35_000)
  {
    hide Backoff, BackoffCounts, ReacquireBounded, BusyTimed, RadioRemembered;
  }

  lemma AskingSends(s: State, server: Option<string>, radio: string, due: int, giveUp: int, now: int)
    requires ConnectionAgrees(s) && ServersAre(s, server) && Asking(s, radio, due, giveUp)
    ensures var step := OnReacquireTimer(s, now);
            if now < giveUp then step.out == [SendAcquire(radio, NameOf(server), true)]
            else step.out == [] && step.state.lastRadio == None && step.state.reacquireAt == None
  {
    hide SameLink;
  }

  /**
   A reconnect that remembers a radio asks for it at once and every four seconds: until 35 seconds are over each firing
   of the timer sends exactly one request for that radio to the user's server, then none, and the radio is forgotten.
   */
  lemma ReconnectAsks(start: int, run: seq<Timed>, up: Timed, later: seq<Timed>, radio: string, now: int, sent: bool)
    requires Possible(Begin(start), run) && up.event == ReconnectTimer(true)
    requires LastMark(Radio, Begin(start), run) == Some(Some(radio))
    requires var w := After(Begin(start), run);
             Enabled(w.s, up.event, up.now) && w.o.clock <= up.now && Possible(Next(w, up), later)
    requires forall i :: 0 <= i < |later| ==> KeepsAsking(later[i], up.now + 35_000)
    ensures var s := After(Next(After(Begin(start), run), up), later).s;
            && (Enabled(s, ReacquireTimer(sent), now) <==> now >= DueAfterAll(up.now, later))
            && var step := Arm(s, ReacquireTimer(sent), now);
               if now < up.now + 35_000
               then step.out == [SendAcquire(radio, NameOf(LastMark(Server, Begin(start), run)), true)]
               else step.out == [] && step.state.lastRadio == None && step.state.reacquireAt == None
  {
    hide After, Begin, Possible, Next, Follows, Inv, KeepsAsking, ServersAre, NameOf, LastMark, OnReacquireTimer;
    var w := After(Begin(start), run);
    var server := LastMark(Server, Begin(start), run);
    HistoryDecides(start, run);
    ReachableInv(start, run);
    StepFollows(w, up);
    InvStep(w, up);
    ReconnectStartsAsking(w, up, Next(w, up).s, radio);
    StaysAsking(Next(w, up), later, radio, up.now, up.now + 35_000);
    StepKeepsServers(w, up, server);
    ServersStay(Next(w, up), later, server, up.now + 35_000);
    var v := After(Next(w, up), later);
    InvAgrees(v);
    AskingSends(v.s, server, radio, DueAfterAll(up.now, later), up.now + 35_000, now);
  }

  lemma {:induction false} ServersStay(w: World, run: seq<Timed>, server: Option<string>, giveUp: int)
    requires Inv(w) && Possible(w, run) && ServersAre(w.s, server)
    requires forall i :: 0 <= i < |run| ==> KeepsAsking(run[i], giveUp)
    ensures ServersAre(After(w, run).s, server)
    decreases |run|
  {
    hide Next, Enabled, ServersAre, Inv;
    if run != [] {
      InvStep(w, run[0]);
      StepKeepsServers(w, run[0], server);
      ServersStay(Next(w, run[0]), run[1..], server, giveUp);
    }
  }
}
