/**
 The client's control task (rigflow-client/src/net/websocket.rs): one loop over user
 commands, server frames and two retry timers. Every arm of the loop is one event with
 the clock reading it acts on, in milliseconds; whether the network cooperates is part
 of the event.
 */
module ControlTask {
  import opened Wrappers

  const SERVER_BUSY_GIVE_UP := 45_000
  const RECONNECT_BACKOFF_MIN := 1_000
  const RECONNECT_BACKOFF_MAX := 30_000
  const REACQUIRE_GIVE_UP := 35_000
  const REACQUIRE_RETRY := 4_000

  /** The loop's local variables, and the two flags it keeps in the UI state. */
  datatype State = State(
    running: bool,
    writer: bool, reader: bool, serverIp: Option<string>,
    autoReconnect: bool, targetIp: Option<string>, reconnectAt: Option<int>, backoff: int, attempt: nat,
    lastRadio: Option<string>, reacquireAt: Option<int>, reacquireDeadline: Option<int>,
    rejectedSince: Option<int>, connectWasManual: bool,
    serverConnected: bool, radioAcquired: bool)

  const START := State(true, false, false, None, false, None, None, RECONNECT_BACKOFF_MIN, 0,
                       None, None, None, None, false, false, false)

  datatype Event =
    | RenewTick(sent: bool)
    | AcquireRadio(radio: string, sent: bool)
    | ReleaseRadio(sent: bool)
    | Connect(ip: string, ok: bool)
    | Disconnect
    | RadioMessage(sent: bool)
    | CommandsClosed
    | ServerBusy
    | RadioAcquired
    | RadioReleased
    | OtherRadioMessage
    | OtherFrame
    | Ping(sent: bool)
    | SocketDown
    | ReconnectTimer(ok: bool)
    | ReacquireTimer(sent: bool)

  /** What leaves the task. */
  datatype Output =
    | TryConnect(ip: string, byTimer: bool)
    | SendAcquire(radio: string, ip: string, byTimer: bool)
    | SendRelease
    | SendOther

  datatype Step = Step(state: State, out: seq<Output>)

  predicate IsFrame(e: Event) {
    e.ServerBusy? || e.RadioAcquired? || e.RadioReleased? || e.OtherRadioMessage? || e.OtherFrame? || e.Ping?
    || e.SocketDown?
  }

  /** An arm can fire only while its guard holds: frames need a socket, timers a deadline that has passed. */
  predicate Enabled(s: State, e: Event, now: int) {
    && s.running
    && (IsFrame(e) ==> s.reader)
    && (e.ReconnectTimer? ==> s.reconnectAt.Some? && s.reconnectAt.value <= now)
    && (e.ReacquireTimer? ==> s.reacquireAt.Some? && s.reacquireAt.value <= now)
  }

  // ---- the arms ------------------------------------------------------------------

  /** Neither the remembered radio nor its timer changes. */
  predicate SameRadio(s: State, s': State) {
    s'.lastRadio == s.lastRadio && s'.reacquireAt == s.reacquireAt && s'.reacquireDeadline == s.reacquireDeadline
  }

  /** Neither the connection nor the reconnect timer changes. */
  predicate SameLink(s: State, s': State) {
    && s'.writer == s.writer && s'.reader == s.reader && s'.serverIp == s.serverIp
    && s'.serverConnected == s.serverConnected && s'.radioAcquired == s.radioAcquired
    && s'.autoReconnect == s.autoReconnect && s'.targetIp == s.targetIp && s'.reconnectAt == s.reconnectAt
  }

  /** A send with `?`: failure ends the task. */
  function Fatal(s: State, sent: bool, out: Output): (r: Step)
    ensures SameRadio(s, r.state) && SameLink(s, r.state)
    ensures r.state.rejectedSince == s.rejectedSince
  {
    Step(s.(running := s.running && sent), [out])
  }

  function OnRenewTick(s: State, sent: bool): (r: Step)
    ensures SameRadio(s, r.state) && SameLink(s, r.state)
    ensures r.state.rejectedSince == s.rejectedSince
  {
    if s.radioAcquired && s.writer then Fatal(s, sent, SendOther) else Step(s, [])
  }

  function OnAcquireRadio(s: State, radio: string, sent: bool): (r: Step)
    ensures SameLink(s, r.state)
    ensures r.state.rejectedSince == s.rejectedSince
  {
    if s.serverIp.None? || !s.writer then Step(s, [])
    else Step(if sent then s.(lastRadio := Some(radio)) else s, [SendAcquire(radio, s.serverIp.value, false)])
  }

  function OnReleaseRadio(s: State, sent: bool): (r: Step)
    ensures SameLink(s, r.state)
    ensures r.state.rejectedSince == s.rejectedSince
  {
    var forgot := s.(lastRadio := None, reacquireAt := None, reacquireDeadline := None);
    if s.writer then Fatal(forgot, sent, SendRelease) else Step(forgot, [])
  }

  function OnConnect(s: State, ip: string, ok: bool): (r: Step)
    ensures SameRadio(s, r.state)
  {
    if s.writer then Step(s, [])
    else
      var idle := s.(reconnectAt := None);
      Step(
        if ok then
          idle.(writer := true, reader := true, serverIp := Some(ip), serverConnected := true,
                autoReconnect := true, targetIp := Some(ip), backoff := RECONNECT_BACKOFF_MIN, attempt := 0,
                rejectedSince := None, connectWasManual := true)
        else idle.(serverConnected := false),
        [TryConnect(ip, false)])
  }

  function OnDisconnect(s: State): (r: Step)
    ensures r.out == []
    ensures r.state.rejectedSince == s.rejectedSince
  {
    Step(s.(writer := false, reader := false, serverIp := None, autoReconnect := false, targetIp := None,
            reconnectAt := None, attempt := 0, lastRadio := None, reacquireAt := None, reacquireDeadline := None,
            serverConnected := false, radioAcquired := false), [])
  }

  function OnServerBusy(s: State, now: int): (r: Step)
    ensures r.out == [] && SameRadio(s, r.state)
  {
    var since := if s.rejectedSince.Some? then s.rejectedSince.value else now;
    if s.connectWasManual || now - since >= SERVER_BUSY_GIVE_UP then
      Step(s.(autoReconnect := false, reconnectAt := None, targetIp := None, rejectedSince := None,
              writer := false, reader := false, serverIp := None,
              serverConnected := false, radioAcquired := false), [])
    else Step(s.(rejectedSince := Some(since)), [])
  }

  function OnSocketDown(s: State, now: int): (r: Step)
    ensures r.out == [] && SameRadio(s, r.state)
    ensures r.state.rejectedSince == s.rejectedSince
  {
    var dropped := s.(writer := false, reader := false, serverIp := None, serverConnected := false, radioAcquired := false);
    Step(
      if s.autoReconnect then
        dropped.(backoff := RECONNECT_BACKOFF_MIN, reconnectAt := Some(now + RECONNECT_BACKOFF_MIN),
                 attempt := if s.rejectedSince.Some? then s.attempt else 1)
      else dropped, [])
  }

  function NextBackoff(backoff: int): int {
    if 2 * backoff < RECONNECT_BACKOFF_MAX then 2 * backoff else RECONNECT_BACKOFF_MAX
  }

  /** A reconnect by timer: a busy streak goes on, so `rejectedSince` stays, and a remembered radio is asked for again. */
  function Reconnected(s: State, ip: string, now: int): State {
    var up := s.(writer := true, reader := true, serverIp := Some(ip), reconnectAt := None,
                 backoff := RECONNECT_BACKOFF_MIN, attempt := 0, connectWasManual := false, serverConnected := true);
    if s.lastRadio.Some?
    then up.(reacquireAt := Some(now), reacquireDeadline := Some(now + REACQUIRE_GIVE_UP)) else up
  }

  function BackedOff(s: State, now: int): State {
    var wait := NextBackoff(s.backoff);
    s.(attempt := s.attempt + 1, backoff := wait, reconnectAt := Some(now + wait))
  }

  function OnReconnectTimer(s: State, ok: bool, now: int): (r: Step)
    ensures r.state.rejectedSince == s.rejectedSince
  {
    var ip := if s.targetIp.Some? then s.targetIp.value else "";
    Step(if ok then Reconnected(s, ip, now) else BackedOff(s, now), [TryConnect(ip, true)])
  }

  function OnReacquireTimer(s: State, now: int): (r: Step)
    ensures SameLink(s, r.state)
    ensures r.state.rejectedSince == s.rejectedSince
  {
    if s.radioAcquired then Step(s.(reacquireAt := None, reacquireDeadline := None), [])
    else if s.reacquireDeadline.Some? && now >= s.reacquireDeadline.value then
      Step(s.(reacquireAt := None, reacquireDeadline := None, lastRadio := None), [])
    else if s.lastRadio.Some? && s.serverIp.Some? && s.writer then
      Step(s.(reacquireAt := Some(now + REACQUIRE_RETRY)),
           [SendAcquire(s.lastRadio.value, s.serverIp.value, true)])
    else Step(s.(reacquireAt := None), [])
  }

  function Arm(s: State, e: Event, now: int): Step {
    match e
    case RenewTick(sent) => OnRenewTick(s, sent)
    case AcquireRadio(radio, sent) => OnAcquireRadio(s, radio, sent)
    case ReleaseRadio(sent) => OnReleaseRadio(s, sent)
    case Connect(ip, ok) => OnConnect(s, ip, ok)
    case Disconnect => OnDisconnect(s)
    case RadioMessage(sent) => if s.writer then Fatal(s, sent, SendOther) else Step(s, [])
    case CommandsClosed => Step(s.(running := false), [])
    case ServerBusy => OnServerBusy(s, now)
    case RadioAcquired => Step(s.(rejectedSince := None, radioAcquired := true), [])
    case RadioReleased => Step(s.(rejectedSince := None, radioAcquired := false), [])
    case OtherRadioMessage => Step(s.(rejectedSince := None), [])
    case OtherFrame => Step(s, [])
    case Ping(sent) => if s.writer then Fatal(s, sent, SendOther) else Step(s, [])
    case SocketDown => OnSocketDown(s, now)
    case ReconnectTimer(ok) => OnReconnectTimer(s, ok, now)
    case ReacquireTimer(_) => OnReacquireTimer(s, now)
  }

  // ---- the loop's variables as an object -------------------------------------------

  class Task {
    var running: bool
    var writer: bool
    var reader: bool
    var serverIp: Option<string>
    var autoReconnect: bool
    var targetIp: Option<string>
    var reconnectAt: Option<int>
    var backoff: int
    var attempt: nat
    var lastRadio: Option<string>
    var reacquireAt: Option<int>
    var reacquireDeadline: Option<int>
    var rejectedSince: Option<int>
    var connectWasManual: bool
    var serverConnected: bool
    var radioAcquired: bool
    var sent: seq<Output>

    ghost function Vars(): State
      reads this
    {
      State(running, writer, reader, serverIp, autoReconnect, targetIp, reconnectAt, backoff, attempt,
            lastRadio, reacquireAt, reacquireDeadline, rejectedSince, connectWasManual, serverConnected, radioAcquired)
    }

    constructor ()
      ensures Vars() == START && sent == []
    {
      running, writer, reader, serverIp, autoReconnect, targetIp := true, false, false, None, false, None;
      reconnectAt, backoff, attempt, lastRadio := None, RECONNECT_BACKOFF_MIN, 0, None;
      reacquireAt, reacquireDeadline, rejectedSince := None, None, None;
      connectWasManual, serverConnected, radioAcquired, sent := false, false, false, [];
    }

    /** One turn of the loop. */
    method Turn(e: Event, now: int)
      modifies this
      ensures Step(Vars(), sent) == Step(Arm(old(Vars()), e, now).state, old(sent) + Arm(old(Vars()), e, now).out)
    {
      hide Arm;
      if IsFrame(e) {
        HandleFrame(e, now);
      } else {
        HandleCommand(e, now);
      }
    }

    /** A user command, or one of the timers. */
    method HandleCommand(e: Event, now: int)
      requires !IsFrame(e)
      modifies this
      ensures Step(Vars(), sent) == Step(Arm(old(Vars()), e, now).state, old(sent) + Arm(old(Vars()), e, now).out)
    {
      hide OnAcquireRadio, OnReleaseRadio, OnConnect, OnDisconnect, OnReconnectTimer, OnReacquireTimer, SameRadio, SameLink;
      assert sent + [] == sent;
      match e {
        case RenewTick(ok) => if radioAcquired && writer { Send(SendOther, ok); }
        case AcquireRadio(radio, ok) => Acquire(radio, ok);
        case ReleaseRadio(ok) => Release(ok);
        case Connect(ip, ok) => ManualConnect(ip, ok);
        case Disconnect => UserDisconnect();
        case RadioMessage(ok) => if writer { Send(SendOther, ok); }
        case CommandsClosed => running := false;
        case ReconnectTimer(ok) => Reconnect(ok, now);
        case ReacquireTimer(_) => Reacquire(now);
      }
    }

    /** A frame from the server, or the end of the socket. */
    method HandleFrame(e: Event, now: int)
      requires IsFrame(e)
      modifies this
      ensures Step(Vars(), sent) == Step(Arm(old(Vars()), e, now).state, old(sent) + Arm(old(Vars()), e, now).out)
    {
      hide OnServerBusy, OnSocketDown, SameRadio, SameLink;
      assert sent + [] == sent;
      match e {
        case ServerBusy => Busy(now);
        case Ping(ok) => if writer { Send(SendOther, ok); }
        case SocketDown => Dropped(now);
        case OtherFrame =>
        case RadioAcquired => HandleMessage(e, now);
        case RadioReleased => HandleMessage(e, now);
        case OtherRadioMessage => HandleMessage(e, now);
      }
    }

    /** A radio message other than a busy reply: it ends a busy streak. */
    method HandleMessage(e: Event, now: int)
      requires e.RadioAcquired? || e.RadioReleased? || e.OtherRadioMessage?
      modifies this`rejectedSince, this`radioAcquired
      ensures Vars() == Arm(old(Vars()), e, now).state && Arm(old(Vars()), e, now).out == []
    {
      rejectedSince := None;
      if e.RadioAcquired? {
        radioAcquired := true;
      } else if e.RadioReleased? {
        radioAcquired := false;
      }
    }

    method Send(o: Output, ok: bool)
      modifies this`running, this`sent
      ensures running == (old(running) && ok) && sent == old(sent) + [o]
    {
      sent := sent + [o];
      if !ok {
        running := false;
      }
    }

    method Acquire(radio: string, ok: bool)
      modifies this`lastRadio, this`sent
      ensures Step(Vars(), sent)
              == Step(OnAcquireRadio(old(Vars()), radio, ok).state, old(sent) + OnAcquireRadio(old(Vars()), radio, ok).out)
    {
      hide SameRadio, SameLink;
      assert sent + [] == sent;
      if serverIp.Some? && writer {
        sent := sent + [SendAcquire(radio, serverIp.value, false)];
        if ok {
          lastRadio := Some(radio);
        }
      }
    }

    method Release(ok: bool)
      modifies this`lastRadio, this`reacquireAt, this`reacquireDeadline, this`running, this`sent
      ensures Step(Vars(), sent)
              == Step(OnReleaseRadio(old(Vars()), ok).state, old(sent) + OnReleaseRadio(old(Vars()), ok).out)
    {
      hide SameRadio, SameLink;
      assert sent + [] == sent;
      ForgetRadio();
      if writer {
        Send(SendRelease, ok);
      }
    }

    /** A connection that is up: both halves, the server's address, the UI flag. */
    method Open(ip: string)
      modifies this`writer, this`reader, this`serverIp, this`serverConnected
      ensures writer && reader && serverIp == Some(ip) && serverConnected
    {
      writer := true;
      reader := true;
      serverIp := Some(ip);
      serverConnected := true;
    }

    method Close()
      modifies this`writer, this`reader, this`serverIp, this`serverConnected, this`radioAcquired
      ensures !writer && !reader && serverIp == None && !serverConnected && !radioAcquired
    {
      writer := false;
      reader := false;
      serverIp := None;
      serverConnected := false;
      radioAcquired := false;
    }

    method Disarm()
      modifies this`autoReconnect, this`targetIp, this`reconnectAt
      ensures !autoReconnect && targetIp == None && reconnectAt == None
    {
      autoReconnect := false;
      targetIp := None;
      reconnectAt := None;
    }

    method ForgetRadio()
      modifies this`lastRadio, this`reacquireAt, this`reacquireDeadline
      ensures lastRadio == None && reacquireAt == None && reacquireDeadline == None
    {
      lastRadio := None;
      reacquireAt := None;
      reacquireDeadline := None;
    }

    method ManualConnect(ip: string, ok: bool)
      modifies this`writer, this`reader, this`serverIp, this`serverConnected, this`reconnectAt, this`sent,
               this`autoReconnect, this`targetIp, this`backoff, this`attempt, this`rejectedSince, this`connectWasManual
      ensures Step(Vars(), sent)
              == Step(OnConnect(old(Vars()), ip, ok).state, old(sent) + OnConnect(old(Vars()), ip, ok).out)
    {
      hide SameRadio, SameLink;
      assert sent + [] == sent;
      if writer {
        return;
      }
      reconnectAt := None;
      sent := sent + [TryConnect(ip, false)];
      if ok {
        Connected(ip);
      } else {
        serverConnected := false;
      }
    }

    /** A user's connection: open, and armed for reconnects to the same server. */
    method Connected(ip: string)
      modifies this`writer, this`reader, this`serverIp, this`serverConnected, this`autoReconnect, this`targetIp,
               this`backoff, this`attempt, this`rejectedSince, this`connectWasManual
      ensures writer && reader && serverIp == Some(ip) && serverConnected
      ensures autoReconnect && targetIp == Some(ip) && backoff == RECONNECT_BACKOFF_MIN && attempt == 0
      ensures rejectedSince == None && connectWasManual
    {
      Open(ip);
      Rearm(ip);
      rejectedSince := None;
      connectWasManual := true;
    }

    method UserDisconnect()
      modifies this`writer, this`reader, this`serverIp, this`serverConnected, this`radioAcquired, this`autoReconnect,
               this`targetIp, this`reconnectAt, this`attempt, this`lastRadio, this`reacquireAt, this`reacquireDeadline
      ensures Step(Vars(), sent) == Step(OnDisconnect(old(Vars())).state, old(sent))
    {
      hide SameRadio, SameLink;
      Close();
      Disarm();
      attempt := 0;
      ForgetRadio();
    }

    method Busy(now: int)
      modifies this`writer, this`reader, this`serverIp, this`serverConnected, this`radioAcquired, this`autoReconnect,
               this`targetIp, this`reconnectAt, this`rejectedSince
      ensures Step(Vars(), sent) == Step(OnServerBusy(old(Vars()), now).state, old(sent))
    {
      hide SameRadio, SameLink;
      if rejectedSince.None? {
        rejectedSince := Some(now);
      }
      if connectWasManual || now - rejectedSince.value >= SERVER_BUSY_GIVE_UP {
        Disarm();
        rejectedSince := None;
        Close();
      }
    }

    method Dropped(now: int)
      modifies this`writer, this`reader, this`serverIp, this`serverConnected, this`radioAcquired, this`backoff,
               this`reconnectAt, this`attempt
      ensures Step(Vars(), sent) == Step(OnSocketDown(old(Vars()), now).state, old(sent))
    {
      hide SameRadio, SameLink;
      Close();
      if autoReconnect {
        backoff := RECONNECT_BACKOFF_MIN;
        reconnectAt := Some(now + backoff);
        if rejectedSince.None? {
          attempt := 1;
        }
      }
    }

    method Reconnect(ok: bool, now: int)
      modifies this`writer, this`reader, this`serverIp, this`serverConnected, this`reconnectAt, this`sent, this`backoff,
               this`attempt, this`connectWasManual, this`reacquireAt, this`reacquireDeadline
      ensures Step(Vars(), sent)
              == Step(OnReconnectTimer(old(Vars()), ok, now).state, old(sent) + OnReconnectTimer(old(Vars()), ok, now).out)
    {
      hide Reconnected, BackedOff;
      var ip := if targetIp.Some? then targetIp.value else "";
      if ok {
        ComeUp(ip, now);
      } else {
        BackOff(now);
      }
      sent := sent + [TryConnect(ip, true)];
    }

    method ComeUp(ip: string, now: int)
      modifies this`writer, this`reader, this`serverIp, this`serverConnected, this`reconnectAt, this`backoff,
               this`attempt, this`connectWasManual, this`reacquireAt, this`reacquireDeadline
      ensures Vars() == Reconnected(old(Vars()), ip, now)
    {
      Open(ip);
      reconnectAt := None;
      ResetBackoff();
      connectWasManual := false;
      if lastRadio.Some? {
        StartReacquire(now);
      }
    }

    method StartReacquire(now: int)
      modifies this`reacquireAt, this`reacquireDeadline
      ensures reacquireAt == Some(now) && reacquireDeadline == Some(now + REACQUIRE_GIVE_UP)
    {
      reacquireAt := Some(now);
      reacquireDeadline := Some(now + REACQUIRE_GIVE_UP);
    }

    method ResetBackoff()
      modifies this`backoff, this`attempt
      ensures backoff == RECONNECT_BACKOFF_MIN && attempt == 0
    {
      backoff := RECONNECT_BACKOFF_MIN;
      attempt := 0;
    }

    /** Arm auto-reconnect for a server. */
    method Rearm(ip: string)
      modifies this`autoReconnect, this`targetIp, this`backoff, this`attempt
      ensures autoReconnect && targetIp == Some(ip) && backoff == RECONNECT_BACKOFF_MIN && attempt == 0
    {
      autoReconnect := true;
      targetIp := Some(ip);
      ResetBackoff();
    }

    method BackOff(now: int)
      modifies this`attempt, this`backoff, this`reconnectAt
      ensures Vars() == BackedOff(old(Vars()), now)
    {
      attempt := attempt + 1;
      backoff := if backoff * 2 < RECONNECT_BACKOFF_MAX then backoff * 2 else RECONNECT_BACKOFF_MAX;
      reconnectAt := Some(now + backoff);
    }

    method Reacquire(now: int)
      modifies this`reacquireAt, this`reacquireDeadline, this`lastRadio, this`sent
      ensures Step(Vars(), sent)
              == Step(OnReacquireTimer(old(Vars()), now).state, old(sent) + OnReacquireTimer(old(Vars()), now).out)
    {
      hide SameRadio, SameLink;
      assert sent + [] == sent;
      if radioAcquired {
        reacquireAt, reacquireDeadline := None, None;
      } else if reacquireDeadline.Some? && now >= reacquireDeadline.value {
        reacquireAt, reacquireDeadline, lastRadio := None, None, None;
      } else if lastRadio.Some? && serverIp.Some? && writer {
        sent := sent + [SendAcquire(lastRadio.value, serverIp.value, true)];
        reacquireAt := Some(now + REACQUIRE_RETRY);
      } else {
        reacquireAt := None;
      }
    }
  }
}
