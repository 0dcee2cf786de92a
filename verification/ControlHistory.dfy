/** The control task read off its history: every variable is decided by the last event that bears on it. */
module ControlHistory {
  import opened Wrappers
  import opened ControlTask
  import opened ControlLaws

  // ---- the last event that matters -----------------------------------------------------

  /** The value given by the last event of a run that gives one. */
  function LastMark<T>(mark: (World, Timed) -> Option<T>, w: World, run: seq<Timed>): Option<T>
    decreases |run|
  {
    if run == [] then None
    else
      var n := |run| - 1;
      var m := mark(After(w, run[..n]), run[n]);
      if m.Some? then m else LastMark(mark, w, run[..n])
  }

  /** Events from `i` on give no value. */
  predicate Unmarked<T(==)>(mark: (World, Timed) -> Option<T>, w: World, run: seq<Timed>, i: nat) {
    forall j :: i <= j < |run| ==> mark(After(w, run[..j]), run[j]) == None
  }

  /** An event gives `v`, and none behind it gives anything. */
  predicate MarkedLast<T(==)>(mark: (World, Timed) -> Option<T>, w: World, run: seq<Timed>, v: T) {
    exists i :: 0 <= i < |run| && mark(After(w, run[..i]), run[i]) == Some(v) && Unmarked(mark, w, run, i + 1)
  }

  lemma {:induction false} LastMarkMeaning<T>(mark: (World, Timed) -> Option<T>, w: World, run: seq<Timed>)
    ensures LastMark(mark, w, run) == None <==> Unmarked(mark, w, run, 0)
    ensures LastMark(mark, w, run).Some? ==> MarkedLast(mark, w, run, LastMark(mark, w, run).value)
    decreases |run|
  {
    hide After;
    if run != [] {
      var n := |run| - 1;
      var front := run[..n];
      LastMarkMeaning(mark, w, front);
      assert forall j :: 0 <= j < n ==> front[..j] == run[..j] && front[j] == run[j];
      var m := mark(After(w, run[..n]), run[n]);
      if m.Some? {
        assert mark(After(w, run[..n]), run[n]) == Some(m.value) && Unmarked(mark, w, run, n + 1);
      } else if LastMark(mark, w, front).Some? {
        var v := LastMark(mark, w, front).value;
        var i :| 0 <= i < |front| && mark(After(w, front[..i]), front[i]) == Some(v) && Unmarked(mark, w, front, i + 1);
        assert mark(After(w, run[..i]), run[i]) == Some(v) && Unmarked(mark, w, run, i + 1);
      }
    }
  }

  lemma {:induction false} LastMarkStays<T>(mark: (World, Timed) -> Option<T>, w: World, run: seq<Timed>, k: nat)
    requires k <= |run| && Unmarked(mark, w, run, k)
    ensures LastMark(mark, w, run) == LastMark(mark, w, run[..k])
    decreases |run|
  {
    hide After;
    if k == |run| {
      assert run[..k] == run;
    } else {
      var front := run[..|run| - 1];
      assert forall j :: 0 <= j < |front| ==> front[..j] == run[..j] && front[j] == run[j];
      assert front[..k] == run[..k];
      LastMarkStays(mark, w, front, k);
    }
  }

  // ---- what bears on what -----------------------------------------------------------------

  /** A user's Connect is tried: ignored while connected. */
  predicate TriesUser(w: World, t: Timed) {
    t.event.Connect? && !w.s.writer
  }

  predicate OpensByUser(w: World, t: Timed) {
    TriesUser(w, t) && t.event.ok
  }

  predicate OpensByTimer(t: Timed) {
    t.event.ReconnectTimer? && t.event.ok
  }

  /** A busy reply that ends the attempt: on a user's connection, or once the streak is 45 seconds old. */
  predicate GivesUp(w: World, t: Timed) {
    && t.event.ServerBusy?
    && (w.s.connectWasManual
        || t.now - (if w.o.busySince.Some? then w.o.busySince.value else t.now) >= 45_000)
  }

  predicate Closes(w: World, t: Timed) {
    t.event.Disconnect? || t.event.SocketDown? || GivesUp(w, t)
  }

  /** Connected or not. */
  function Link(w: World, t: Timed): Option<bool> {
    if OpensByUser(w, t) || OpensByTimer(t) then Some(true) else if Closes(w, t) then Some(false) else None
  }

  /** Whether the radio is held. */
  function Held(w: World, t: Timed): Option<bool> {
    if t.event.RadioAcquired? then Some(true) else if t.event.RadioReleased? || Closes(w, t) then Some(false) else None
  }

  /** Whether reconnects are armed. */
  function Armed(w: World, t: Timed): Option<bool> {
    if OpensByUser(w, t) then Some(true) else if t.event.Disconnect? || GivesUp(w, t) then Some(false) else None
  }

  /** Whether the connection is a user's own. */
  function Manual(w: World, t: Timed): Option<bool> {
    if OpensByUser(w, t) then Some(true) else if OpensByTimer(t) then Some(false) else None
  }

  /** The server a user connected to. */
  function Server(w: World, t: Timed): Option<string> {
    if OpensByUser(w, t) then Some(t.event.ip) else None
  }

  /** The re-acquire window has closed without the radio. */
  predicate Expires(w: World, t: Timed) {
    && t.event.ReacquireTimer? && !w.s.radioAcquired
    && w.s.reacquireDeadline.Some? && w.s.reacquireDeadline.value <= t.now
  }

  /** The radio to ask for again, or that there is none. */
  function Radio(w: World, t: Timed): Option<Option<string>> {
    if AsksAny(w, t) then Some(Some(t.event.radio))
    else if LetsGo(t.event) || Expires(w, t) then Some(None)
    else None
  }

  /** When a reconnect is due. */
  function ReconnectDue(w: World, t: Timed): Option<Option<int>> {
    if t.event.SocketDown? then (if w.s.autoReconnect then Some(Some(t.now + 1_000)) else None)
    else if t.event.ReconnectTimer? && !t.event.ok then Some(Some(t.now + Backoff(w.o.failures + 1)))
    else if OpensByTimer(t) || TriesUser(w, t) || t.event.Disconnect? || GivesUp(w, t) then Some(None)
    else None
  }

  /** When the radio is to be asked for again. */
  function ReacquireDue(w: World, t: Timed): Option<Option<int>> {
    if OpensByTimer(t) && w.s.lastRadio.Some? then Some(Some(t.now))
    else if LetsGo(t.event) then Some(None)
    else if t.event.ReacquireTimer? then
      Some(if !w.s.radioAcquired && !Expires(w, t) && w.s.lastRadio.Some? && w.s.writer then Some(t.now + 4_000) else None)
    else None
  }

  /** When asking is given up. */
  function GiveUpAt(w: World, t: Timed): Option<Option<int>> {
    if OpensByTimer(t) && w.s.lastRadio.Some? then Some(Some(t.now + 35_000))
    else if LetsGo(t.event) || Expires(w, t) || (t.event.ReacquireTimer? && w.s.radioAcquired) then Some(None)
    else None
  }

  /** A send that fails ends the task, as does the end of the command channel. */
  function Ends(w: World, t: Timed): Option<bool> {
    if t.event.CommandsClosed? then Some(true)
    else if t.event.RenewTick? && !t.event.sent && w.s.radioAcquired then Some(true)
    else if (t.event.ReleaseRadio? || t.event.RadioMessage? || t.event.Ping?) && !t.event.sent && w.s.writer then Some(true)
    else None
  }

  function Flat<T>(m: Option<Option<T>>): Option<T> {
    match m
    case Some(v) => v
    case None => None
  }

  function Given<T>(m: Option<T>, was: T): T {
    match m
    case Some(v) => v
    case None => was
  }

  // ---- one step -----------------------------------------------------------------------------

  /** The new state is the old one but for what the event bears on. */
  predicate Follows(w: World, t: Timed, s': State) {
    && s'.serverConnected == Given(Link(w, t), w.s.serverConnected)
    && s'.radioAcquired == Given(Held(w, t), w.s.radioAcquired)
    && s'.autoReconnect == Given(Armed(w, t), w.s.autoReconnect)
    && s'.connectWasManual == Given(Manual(w, t), w.s.connectWasManual)
    && s'.lastRadio == Given(Radio(w, t), w.s.lastRadio)
    && s'.reconnectAt == Given(ReconnectDue(w, t), w.s.reconnectAt)
    && s'.reacquireAt == Given(ReacquireDue(w, t), w.s.reacquireAt)
    && s'.reacquireDeadline == Given(GiveUpAt(w, t), w.s.reacquireDeadline)
    && s'.running == !Given(Ends(w, t), !w.s.running)
  }

  lemma QuietEventFollows(w: World, t: Timed)
    requires t.event.RenewTick? || t.event.RadioMessage? || t.event.Ping? || t.event.CommandsClosed? || t.event.OtherFrame?
    requires ConnectionAgrees(w.s)
    ensures Follows(w, t, Arm(w.s, t.event, t.now).state)
  {
    hide Backoff, SameRadio, SameLink;
  }

  lemma MessageFollows(w: World, t: Timed)
    requires t.event.RadioAcquired? || t.event.RadioReleased? || t.event.OtherRadioMessage?
    ensures Follows(w, t, Arm(w.s, t.event, t.now).state)
  {
    hide Backoff;
  }

  lemma AcquireFollows(w: World, t: Timed)
    requires t.event.AcquireRadio? && ConnectionAgrees(w.s)
    ensures Follows(w, t, OnAcquireRadio(w.s, t.event.radio, t.event.sent).state)
  {
    hide Backoff, SameLink;
    assert Arm(w.s, t.event, t.now) == OnAcquireRadio(w.s, t.event.radio, t.event.sent);
  }

  lemma ReleaseFollows(w: World, t: Timed)
    requires t.event.ReleaseRadio? && ConnectionAgrees(w.s)
    ensures Follows(w, t, OnReleaseRadio(w.s, t.event.sent).state)
  {
    hide Backoff, SameLink, SameRadio;
  }

  lemma ConnectFollows(w: World, t: Timed)
    requires t.event.Connect? && ConnectionAgrees(w.s) && ReconnectArmed(w.s)
    ensures Follows(w, t, OnConnect(w.s, t.event.ip, t.event.ok).state)
  {
    hide Backoff, SameRadio;
  }

  lemma DisconnectFollows(w: World, t: Timed)
    requires t.event.Disconnect?
    ensures Follows(w, t, OnDisconnect(w.s).state)
  {
    hide Backoff;
  }

  lemma BusyFollows(w: World, t: Timed)
    requires t.event.ServerBusy? && BusyTimed(w.s, w.o)
    ensures Follows(w, t, OnServerBusy(w.s, t.now).state)
  {
    hide Backoff, SameRadio;
  }

  lemma DownFollows(w: World, t: Timed)
    requires t.event.SocketDown? && ConnectionAgrees(w.s) && w.s.reader && ReconnectArmed(w.s)
    ensures Follows(w, t, OnSocketDown(w.s, t.now).state)
  {
    hide Backoff, SameRadio;
  }

  lemma ReconnectedFollows(w: World, t: Timed)
    requires OpensByTimer(t) && ConnectionAgrees(w.s)
    ensures Follows(w, t, OnReconnectTimer(w.s, true, t.now).state)
  {
    hide Backoff, BackedOff, NextBackoff, Reconnected;
    var s' := OnReconnectTimer(w.s, true, t.now).state;
    ReconnectedIs(w.s, t.now, s');
  }

  lemma ReconnectedIs(s: State, now: int, s': State)
    requires s' == OnReconnectTimer(s, true, now).state
    ensures s'.serverConnected && s'.radioAcquired == s.radioAcquired && s'.autoReconnect == s.autoReconnect
    ensures !s'.connectWasManual && s'.lastRadio == s.lastRadio && s'.reconnectAt == None && s'.running == s.running
    ensures s'.reacquireAt == (if s.lastRadio.Some? then Some(now) else s.reacquireAt)
    ensures s'.reacquireDeadline == (if s.lastRadio.Some? then Some(now + 35_000) else s.reacquireDeadline)
  {
    hide BackedOff;
  }

  lemma BackedOffFollows(w: World, t: Timed)
    requires t.event.ReconnectTimer? && !t.event.ok && BackoffCounts(w.s, w.o)
    ensures Follows(w, t, OnReconnectTimer(w.s, false, t.now).state)
  {
    hide Backoff, Reconnected, NextBackoff;
    NextBackoffIs(w.o.failures);
  }

  lemma ReacquireFollows(w: World, t: Timed)
    requires t.event.ReacquireTimer? && ConnectionAgrees(w.s)
    requires RadioRemembered(w.s, w.o) && w.s.reacquireAt.Some? && ReacquireBounded(w.s, w.o)
    ensures Follows(w, t, OnReacquireTimer(w.s, t.now).state)
  {
    hide Backoff, SameLink;
  }

  lemma StepFollows(w: World, t: Timed)
    requires Inv(w) && Enabled(w.s, t.event, t.now)
    ensures Follows(w, t, Next(w, t).s)
  {
    hide Follows, Observe, OnRenewTick, OnAcquireRadio, OnReleaseRadio, OnConnect, OnDisconnect, OnServerBusy, OnSocketDown,
         OnReconnectTimer, OnReacquireTimer, BackoffCounts, ReacquireBounded, BusyTimed, RadioRemembered, ReconnectArmed;
    match t.event {
      case AcquireRadio(_, _) => AcquireFollows(w, t);
      case ReleaseRadio(_) => ReleaseFollows(w, t);
      case Connect(_, _) => ConnectFollows(w, t);
      case Disconnect => DisconnectFollows(w, t);
      case ServerBusy => BusyFollows(w, t);
      case RadioAcquired => MessageFollows(w, t);
      case RadioReleased => MessageFollows(w, t);
      case OtherRadioMessage => MessageFollows(w, t);
      case SocketDown => DownFollows(w, t);
      case ReconnectTimer(ok) => if ok { ReconnectedFollows(w, t); } else { BackedOffFollows(w, t); }
      case ReacquireTimer(_) => ReacquireFollows(w, t);
      case _ => QuietEventFollows(w, t);
    }
  }

  /** The servers of the state are the one a user connected to last, and a connection keeps reconnects armed. */
  predicate ServersAre(s: State, server: Option<string>) {
    && s.targetIp == (if s.autoReconnect then server else None)
    && s.serverIp == (if s.serverConnected then server else None)
    && (s.serverConnected ==> s.autoReconnect)
    && (s.autoReconnect ==> server.Some?)
  }

  predicate TouchesLink(e: Event) {
    e.Connect? || e.Disconnect? || e.ServerBusy? || e.SocketDown? || e.ReconnectTimer?
  }

  predicate SameServers(s: State, s': State) {
    && s'.targetIp == s.targetIp && s'.autoReconnect == s.autoReconnect
    && s'.serverIp == s.serverIp && s'.serverConnected == s.serverConnected
  }

  lemma LinkStays(s: State, e: Event, now: int)
    requires !TouchesLink(e)
    ensures SameServers(s, Arm(s, e, now).state)
  {
    hide Arm, SameServers;
    match e {
      case AcquireRadio(radio, sent) => RadioArmsKeepLink(s, e, now);
      case ReleaseRadio(sent) => RadioArmsKeepLink(s, e, now);
      case ReacquireTimer(_) => RadioArmsKeepLink(s, e, now);
      case _ => SmallArmsKeepLink(s, e, now);
    }
  }

  lemma RadioArmsKeepLink(s: State, e: Event, now: int)
    requires e.AcquireRadio? || e.ReleaseRadio? || e.ReacquireTimer?
    ensures SameServers(s, Arm(s, e, now).state)
  {
    hide OnAcquireRadio, OnReleaseRadio, OnReacquireTimer, SameRadio;
  }

  lemma SmallArmsKeepLink(s: State, e: Event, now: int)
    requires !TouchesLink(e) && !e.AcquireRadio? && !e.ReleaseRadio? && !e.ReacquireTimer?
    ensures SameServers(s, Arm(s, e, now).state)
  {
    hide OnRenewTick, SameRadio;
  }

  lemma OthersKeepServers(w: World, t: Timed, server: Option<string>)
    requires !TouchesLink(t.event) && ServersAre(w.s, server)
    ensures ServersAre(Arm(w.s, t.event, t.now).state, server) && Server(w, t) == None
  {
    hide Arm;
    LinkStays(w.s, t.event, t.now);
  }

  lemma ConnectKeepsServers(w: World, t: Timed, server: Option<string>)
    requires t.event.Connect? && ServersAre(w.s, server) && ConnectionAgrees(w.s)
    ensures ServersAre(OnConnect(w.s, t.event.ip, t.event.ok).state, if Server(w, t).Some? then Server(w, t) else server)
  {
    hide SameRadio;
  }

  lemma LosingKeepsServers(w: World, t: Timed, server: Option<string>)
    requires t.event.Disconnect? || t.event.ServerBusy? || t.event.SocketDown?
    requires ServersAre(w.s, server) && ConnectionAgrees(w.s)
    ensures ServersAre(Arm(w.s, t.event, t.now).state, server) && Server(w, t) == None
  {
    hide SameRadio;
  }

  lemma TimerKeepsServers(w: World, t: Timed, server: Option<string>)
    requires t.event.ReconnectTimer? && ServersAre(w.s, server) && ConnectionAgrees(w.s)
    requires ReconnectArmed(w.s) && w.s.reconnectAt.Some?
    ensures ServersAre(OnReconnectTimer(w.s, t.event.ok, t.now).state, server) && Server(w, t) == None
  {
  }

  lemma StepKeepsServers(w: World, t: Timed, server: Option<string>)
    requires Inv(w) && Enabled(w.s, t.event, t.now) && ServersAre(w.s, server)
    ensures ServersAre(Next(w, t).s, if Server(w, t).Some? then Server(w, t) else server)
  {
    hide ServersAre, Server, Observe, OnConnect, OnReconnectTimer, OnDisconnect, OnServerBusy, OnSocketDown,
         BackoffCounts, ReacquireBounded, BusyTimed, RadioRemembered, ReconnectArmed, ConnectionAgrees;
    if !TouchesLink(t.event) {
      OthersKeepServers(w, t, server);
    } else {
      match t.event {
        case Connect(_, _) => ConnectKeepsServers(w, t, server);
        case ReconnectTimer(_) => TimerKeepsServers(w, t, server);
        case Disconnect => LosingKeepsServers(w, t, server);
        case ServerBusy => LosingKeepsServers(w, t, server);
        case SocketDown => LosingKeepsServers(w, t, server);
      }
    }
  }

  // ---- whole runs -----------------------------------------------------------------------------

  /** The state as the run's history tells it. */
  predicate Told(start: int, run: seq<Timed>) {
    var w := Begin(start);
    var s := After(w, run).s;
    && s.serverConnected == (LastMark(Link, w, run) == Some(true))
    && s.radioAcquired == (LastMark(Held, w, run) == Some(true))
    && s.autoReconnect == (LastMark(Armed, w, run) == Some(true))
    && s.connectWasManual == (LastMark(Manual, w, run) == Some(true))
    && s.lastRadio == Flat(LastMark(Radio, w, run))
    && s.reconnectAt == Flat(LastMark(ReconnectDue, w, run))
    && s.reacquireAt == Flat(LastMark(ReacquireDue, w, run))
    && s.reacquireDeadline == Flat(LastMark(GiveUpAt, w, run))
    && s.running == (LastMark(Ends, w, run) != Some(true))
    && ServersAre(s, LastMark(Server, w, run))
  }

  lemma {:induction false} PossibleFront(w: World, run: seq<Timed>)
    requires run != [] && Possible(w, run)
    ensures Possible(w, run[..|run| - 1])
    ensures var v := After(w, run[..|run| - 1]);
            Enabled(v.s, run[|run| - 1].event, run[|run| - 1].now) && v.o.clock <= run[|run| - 1].now
    decreases |run|
  {
    hide Next, Enabled;
    var n := |run| - 1;
    if n > 0 {
      assert run[..n][1..] == run[1..][..n - 1];
      PossibleFront(Next(w, run[0]), run[1..]);
    }
  }

  lemma ToldAtStart(start: int)
    ensures Told(start, [])
  {
  }

  lemma ToldOneMore(start: int, run: seq<Timed>)
    requires run != []
    requires var n := |run| - 1; Told(start, run[..n])
    requires var n := |run| - 1; var v := After(Begin(start), run[..n]);
             && After(Begin(start), run) == Next(v, run[n])
             && Follows(v, run[n], Next(v, run[n]).s)
             && ServersAre(Next(v, run[n]).s,
                           if Server(v, run[n]).Some? then Server(v, run[n]) else LastMark(Server, Begin(start), run[..n]))
    ensures Told(start, run)
  {
    hide After, Begin, Next, ServersAre, Link, Held, Armed, Manual, Radio, ReconnectDue, ReacquireDue, GiveUpAt, Ends,
         Server;
  }

  /**
   In every state a run can reach, each variable is what the last event that bears on it made it: who opened or closed
   the connection, which radio was asked for, when each timer is due, and which server a user chose.
   */
  lemma {:induction false} HistoryDecides(start: int, run: seq<Timed>)
    requires Possible(Begin(start), run)
    ensures Told(start, run)
    decreases |run|
  {
    hide Told, After, Begin, Next, Possible, Enabled, Inv, Follows, ServersAre;
    if run == [] {
      ToldAtStart(start);
    } else {
      var n := |run| - 1;
      var v := After(Begin(start), run[..n]);
      PossibleFront(Begin(start), run);
      HistoryDecides(start, run[..n]);
      ReachableInv(start, run[..n]);
      AfterOneMore(Begin(start), run);
      StepFollows(v, run[n]);
      ServersTold(start, run[..n]);
      StepKeepsServers(v, run[n], LastMark(Server, Begin(start), run[..n]));
      ToldOneMore(start, run);
    }
  }

  lemma ServersTold(start: int, run: seq<Timed>)
    requires Told(start, run)
    ensures ServersAre(After(Begin(start), run).s, LastMark(Server, Begin(start), run))
  {
    hide LastMark, After, Begin, ServersAre;
  }

  // ---- the attempts shown -----------------------------------------------------------------------

  /** The reconnect attempt after an event: none once connected, the first after a drop, one more per failure. */
  function Tries(w: World, t: Timed, was: nat): nat {
    if OpensByUser(w, t) || OpensByTimer(t) || t.event.Disconnect? then 0
    else if t.event.ReconnectTimer? then was + 1
    else if t.event.SocketDown? && w.s.autoReconnect && w.o.busySince.None? then 1
    else was
  }

  function Tried(w: World, run: seq<Timed>): nat
    decreases |run|
  {
    if run == [] then 0
    else
      var n := |run| - 1;
      Tries(After(w, run[..n]), run[n], Tried(w, run[..n]))
  }

  predicate Counts(e: Event) {
    e.Connect? || e.Disconnect? || e.SocketDown? || e.ReconnectTimer?
  }

  lemma RequestsKeepCount(s: State, radio: string, sent: bool)
    ensures OnAcquireRadio(s, radio, sent).state.attempt == s.attempt
    ensures OnReleaseRadio(s, sent).state.attempt == s.attempt
  {
    hide SameRadio, SameLink;
  }

  lemma TimedArmsKeepCount(s: State, now: int)
    ensures OnReacquireTimer(s, now).state.attempt == s.attempt
    ensures OnServerBusy(s, now).state.attempt == s.attempt
  {
    hide SameRadio, SameLink;
  }

  lemma RadioArmsKeepCount(s: State, e: Event, now: int)
    requires e.AcquireRadio? || e.ReleaseRadio? || e.ReacquireTimer? || e.ServerBusy?
    ensures Arm(s, e, now).state.attempt == s.attempt
  {
    hide SameRadio, SameLink, OnAcquireRadio, OnReleaseRadio, OnReacquireTimer, OnServerBusy;
    TimedArmsKeepCount(s, now);
    match e {
      case AcquireRadio(radio, sent) => RequestsKeepCount(s, radio, sent);
      case ReleaseRadio(sent) => RequestsKeepCount(s, "", sent);
      case ReacquireTimer(_) =>
      case ServerBusy =>
    }
  }

  lemma SmallArmsKeepCount(s: State, e: Event, now: int)
    requires !Counts(e) && !e.AcquireRadio? && !e.ReleaseRadio? && !e.ReacquireTimer? && !e.ServerBusy?
    ensures Arm(s, e, now).state.attempt == s.attempt
  {
    hide SameRadio, SameLink;
  }

  lemma StepCounts(w: World, t: Timed)
    requires Inv(w) && Enabled(w.s, t.event, t.now)
    ensures Next(w, t).s.attempt == Tries(w, t, w.s.attempt)
  {
    hide Observe, BackoffCounts, ReacquireBounded, RadioRemembered, ReconnectArmed, SameRadio, SameLink, NextBackoff,
         OnAcquireRadio, OnReleaseRadio, OnReacquireTimer, OnServerBusy, OnRenewTick;
    if t.event.AcquireRadio? || t.event.ReleaseRadio? || t.event.ReacquireTimer? || t.event.ServerBusy? {
      RadioArmsKeepCount(w.s, t.event, t.now);
    } else if !Counts(t.event) {
      SmallArmsKeepCount(w.s, t.event, t.now);
    }
  }

  /** The attempt shown to the user is the one its history counts. */
  lemma {:induction false} AttemptsAreCounted(start: int, run: seq<Timed>)
    requires Possible(Begin(start), run)
    ensures After(Begin(start), run).s.attempt == Tried(Begin(start), run)
    decreases |run|
  {
    hide After, Next, Possible, Enabled, Inv, Tries;
    if run == [] {
      NothingTried(start);
    } else {
      var n := |run| - 1;
      PossibleFront(Begin(start), run);
      AttemptsAreCounted(start, run[..n]);
      ReachableInv(start, run[..n]);
      AfterOneMore(Begin(start), run);
      StepCounts(After(Begin(start), run[..n]), run[n]);
    }
  }

  lemma NothingTried(start: int)
    ensures After(Begin(start), []).s.attempt == 0
  {
  }
}
