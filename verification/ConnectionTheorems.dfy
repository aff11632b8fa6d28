/** What every run of the connection keeps: promises, wire order, stale events. */
module ConnectionTheorems {
  import opened Options
  import opened Connection

  /** The socket an event belongs to. */
  function SocketOf(e: Event): Option<nat> {
    match e
    case SocketOpened(g) => Some(g)
    case FrameArrived(g, _) => Some(g)
    case PeerClosing(g) => Some(g)
    case SocketFailed(g) => Some(g)
    case SocketClosed(g, _) => Some(g)
    case TimeoutFired(g) => Some(g)
    case _ => None
  }

  predicate Resets(s: Conn, e: Event) {
    e.Connect? || e.Disconnect? || (e.TimerFired? && e.id in s.timers)
  }

  /** The same sockets, and none but that of `h` changed. */
  predicate TouchesOne(s: Conn, s': Conn, h: nat) {
    && s'.sockets.Keys == s.sockets.Keys
    && (forall g | g in s.sockets && g != h :: s'.sockets[g] == s.sockets[g])
    && (h in s.sockets ==> (s.sockets[h].gone ==> s'.sockets[h].gone))
  }

  lemma AttemptLeaves(s: Conn, random: real)
    ensures var s' := AttemptReconnect(s, random);
            s' == s.(wasReconnecting := s'.wasReconnecting, timers := s'.timers, reconnectTimer := s'.reconnectTimer,
                     timersMade := s'.timersMade)
  {
    hide Delay;
  }

  lemma CloseTouchesOne(s: Conn, h: nat, random: real)
    requires h in s.sockets
    ensures TouchesOne(s, OnClose(s, h, random), h)
  {
    AttemptLeaves(WithSocket(s, h, s.sockets[h].(state := Closed, gone := true)), random);
    hide AttemptReconnect;
  }

  lemma FrameTouchesOne(s: Conn, h: nat, data: Incoming)
    requires h in s.sockets
    ensures TouchesOne(s, OnMessage(s, h, data), h)
  {
  }

  lemma WithSocketTouchesOne(s: Conn, h: nat, socket: Socket)
    requires h in s.sockets && (s.sockets[h].gone ==> socket.gone)
    ensures TouchesOne(s, WithSocket(s, h, socket), h)
  {
  }

  lemma OpenOrFailTouchesOne(s: Conn, h: nat)
    requires h in s.sockets
    ensures TouchesOne(s, OnOpen(s, h), h) && TouchesOne(s, OnError(s, h), h)
  {
  }

  lemma TimeoutTouchesOne(s: Conn, h: nat)
    requires h in s.sockets
    ensures TouchesOne(s, OnTimeout(s, h), h)
  {
  }

  /** An event of a socket changes no other socket. */
  lemma SocketEventTouchesOne(s: Conn, e: Event)
    requires SocketOf(e).Some?
    ensures TouchesOne(s, Apply(s, e), SocketOf(e).value)
  {
    hide OnOpen, OnMessage, OnError, OnTimeout, OnClose, WithSocket;
    if Enabled(s, e) {
      var h := SocketOf(e).value;
      match e
      case SocketOpened(_) => OpenOrFailTouchesOne(s, h);
      case FrameArrived(_, data) => FrameTouchesOne(s, h, data);
      case PeerClosing(_) => WithSocketTouchesOne(s, h, s.sockets[h].(state := Closing));
      case SocketFailed(_) => OpenOrFailTouchesOne(s, h);
      case SocketClosed(_, random) => CloseTouchesOne(s, h, random);
      case TimeoutFired(_) => TimeoutTouchesOne(s, h);
    }
  }

  predicate WireSound(socket: Socket) {
    && (socket.state == Connecting ==> socket.wire == [])
    && (socket.state == Open ==> socket.wire != [])
    && (socket.wire != [] ==> socket.wire[0] == JoinFrame(socket) && AllPayload(socket.wire[1..]))
  }

  predicate AllPayload(frames: seq<Frame>) {
    forall i | 0 <= i < |frames| :: frames[i].Payload?
  }

  /** The promise was resolved by `history`, or rejected by an early kick. */
  predicate Admitted(g: nat, settled: map<nat, Outcome>) {
    g in settled && (settled[g] == Resolved || settled[g] == KickedOut)
  }

  /** Only admitted sockets have more than the join on the wire; older ones are closing or closed. */
  predicate SocketSound(socket: Socket, g: nat, generation: nat, settled: map<nat, Outcome>) {
    && 0 < g <= generation
    && WireSound(socket)
    && (|socket.wire| > 1 ==> Admitted(g, settled))
    && (g < generation ==> !Live(socket.state))
    && (socket.gone ==> socket.state == Closed)
  }

  predicate SocketsSound(sockets: map<nat, Socket>, generation: nat, settled: map<nat, Outcome>) {
    forall g | g in sockets :: SocketSound(sockets[g], g, generation, settled)
  }

  predicate ControlSound(s: Conn) {
    && s.settled.Keys <= s.sockets.Keys
    && (s.ws.Some? <==> s.generation in s.sockets)
    && (s.ws.Some? ==> s.ws == Some(s.generation))
    && (s.pendingJoin.Some? ==> s.pendingJoin == s.ws && s.generation !in s.settled)
    && (HasSocket(s) && Live(s.sockets[s.generation].state) && s.pendingJoin == None ==>
          s.sockets[s.generation].state == Open && Admitted(s.generation, s.settled))
    && |s.queue| <= QUEUE_CAP
    && AllPayload(s.queue)
    && (forall id | id in s.timers :: id < s.timersMade)
  }

  predicate Sound(s: Conn) {
    SocketsSound(s.sockets, s.generation, s.settled) && ControlSound(s)
  }

  lemma SocketAt(s: Conn, g: nat)
    requires Sound(s) && g in s.sockets
    ensures SocketSound(s.sockets[g], g, s.generation, s.settled)
    ensures g == s.generation && s.pendingJoin.Some? ==>
              s.generation !in s.settled && |s.sockets[g].wire| <= 1 && (s.sockets[g].state == Open ==> |s.sockets[g].wire| == 1)
    ensures g == s.generation ==> s.ws == Some(g)
    ensures s.pendingJoin.Some? ==> s.generation in s.sockets
    ensures AllPayload(s.queue)
  {
  }

  /** One socket changes, and nothing else. */
  lemma TouchKeepsSound(s: Conn, g: nat, socket: Socket)
    requires Sound(s) && g in s.sockets && SocketSound(socket, g, s.generation, s.settled)
    requires Live(socket.state) ==> socket.state == s.sockets[g].state
    ensures Sound(WithSocket(s, g, socket))
  {
    hide SocketSound;
  }

  /** The promise settles, its socket changes, and nothing else. */
  lemma SettlingKeepsSound(s: Conn, socket: Socket, outcome: Outcome)
    requires Sound(s) && s.pendingJoin.Some?
    requires SocketSound(socket, s.generation, s.generation, s.settled[s.generation := outcome])
    requires Live(socket.state) ==> socket.state == Open && (outcome == Resolved || outcome == KickedOut)
    ensures Sound(Settling(s, socket, outcome))
  {
    var g, settled := s.generation, s.settled[s.generation := outcome];
    forall h | h in s.sockets && h != g ensures SocketSound(s.sockets[h], h, g, settled) {
      assert SocketSound(s.sockets[h], h, g, s.settled);
    }
    hide SocketSound;
  }

  /** Closing the current socket makes every socket an old one. */
  lemma ShutBeforeNext(s: Conn)
    requires Sound(s)
    ensures ShutSockets(s).Keys == s.sockets.Keys && s.generation + 1 !in s.sockets
    ensures SocketsSound(ShutSockets(s), s.generation + 1, s.settled)
  {
    forall g | g in s.sockets
      ensures g <= s.generation && SocketSound(ShutSockets(s)[g], g, s.generation + 1, s.settled)
    {
      assert SocketSound(s.sockets[g], g, s.generation, s.settled);
    }
  }

  lemma DoConnectKeepsSound(s: Conn, username: string, token: Option<string>)
    requires Sound(s)
    ensures Sound(DoConnect(s, username, token))
  {
    ShutBeforeNext(s);
    hide ShutSockets;
    var socket := Socket(Connecting, false, username, token, true, []);
    assert SocketSound(socket, s.generation + 1, s.generation + 1, s.settled);
    OneSocketMore(ShutSockets(s), s.generation + 1, s.settled, socket);
    hide SocketsSound;
  }

  lemma OneSocketMore(sockets: map<nat, Socket>, g: nat, settled: map<nat, Outcome>, socket: Socket)
    requires SocketsSound(sockets, g, settled) && SocketSound(socket, g, g, settled)
    ensures SocketsSound(sockets[g := socket], g, settled)
  {
    hide SocketSound;
  }

  lemma SendKeepsSound(s: Conn, text: string)
    requires Sound(s)
    ensures Sound(DoSend(s, Payload(text)))
  {
    if SocketOpen(s) && s.pendingJoin == None {
      var socket := s.sockets[s.generation];
      SocketAt(s, s.generation);
      assert (socket.wire + [Payload(text)])[1..] == socket.wire[1..] + [Payload(text)];
      assert Admitted(s.generation, s.settled);
      TouchKeepsSound(s, s.generation, socket.(wire := socket.wire + [Payload(text)]));
      hide Sound;
    }
  }

  lemma DisconnectKeepsSound(s: Conn)
    requires Sound(s)
    ensures Sound(DoDisconnect(s))
  {
    ShutBeforeNext(s);
    hide SocketsSound, ShutSockets;
  }

  lemma OpenKeepsSound(s: Conn, g: nat)
    requires Sound(s) && Enabled(s, SocketOpened(g))
    ensures Sound(OnOpen(s, g))
  {
    SocketAt(s, g);
    var socket := OnOpen(s, g).sockets[g];
    assert g == s.generation && s.pendingJoin.Some?;
    assert SocketSound(socket, g, s.generation, s.settled);
    forall h | h in s.sockets && h != g ensures SocketSound(s.sockets[h], h, s.generation, s.settled) {
      SocketAt(s, h);
    }
    hide SocketSound;
  }

  lemma MessageKeepsSound(s: Conn, g: nat, data: Incoming)
    requires Sound(s) && Enabled(s, FrameArrived(g, data))
    ensures Sound(OnMessage(s, g, data))
  {
    SocketAt(s, g);
    var socket := s.sockets[g].(timeout := false);
    if g == s.generation && s.pendingJoin.Some? {
      match data
      case ErrorFrame(content) => SettlingKeepsSound(s, socket.(state := Shut(socket.state)), Refused(content));
      case Kicked => SettlingKeepsSound(s, socket, KickedOut);
      case History =>
        assert (socket.wire + s.queue)[1..] == s.queue;
        SettlingKeepsSound(s, socket.(wire := socket.wire + s.queue), Resolved);
      case _ =>
    }
    hide SocketsSound, SocketSound;
  }

  lemma PeerClosingKeepsSound(s: Conn, g: nat)
    requires Sound(s) && Enabled(s, PeerClosing(g))
    ensures Sound(WithSocket(s, g, s.sockets[g].(state := Closing)))
  {
    SocketAt(s, g);
    TouchKeepsSound(s, g, s.sockets[g].(state := Closing));
  }

  lemma ErrorKeepsSound(s: Conn, g: nat)
    requires Sound(s) && Enabled(s, SocketFailed(g))
    ensures Sound(OnError(s, g))
  {
    SocketAt(s, g);
    hide SocketsSound, ControlSound;
    var socket := s.sockets[g].(state := Closed);
    if g == s.generation && s.pendingJoin.Some? {
      SettlingKeepsSound(s, socket.(timeout := false), CannotConnect);
    } else {
      TouchKeepsSound(s, g, socket);
    }
  }

  lemma CloseKeepsSound(s: Conn, g: nat, random: real)
    requires Sound(s) && Enabled(s, SocketClosed(g, random))
    ensures Sound(OnClose(s, g, random))
  {
    SocketAt(s, g);
    hide SocketsSound, ControlSound, AttemptReconnect;
    var socket := s.sockets[g].(state := Closed, gone := true);
    if g == s.generation && s.pendingJoin.Some? {
      SettlingKeepsSound(s, socket.(timeout := false), ClosedEarly);
    } else {
      TouchKeepsSound(s, g, socket);
      AttemptKeepsSound(WithSocket(s, g, socket), random);
    }
  }

  lemma AttemptKeepsSound(s: Conn, random: real)
    requires Sound(s)
    ensures Sound(AttemptReconnect(s, random))
  {
    hide SocketsSound, Delay;
  }

  lemma TimeoutKeepsSound(s: Conn, g: nat)
    requires Sound(s) && Enabled(s, TimeoutFired(g))
    ensures Sound(OnTimeout(s, g))
  {
    SocketAt(s, g);
    hide SocketsSound, ControlSound;
    var socket := s.sockets[g].(timeout := false);
    if g == s.generation && s.pendingJoin.Some? {
      SettlingKeepsSound(s, socket.(state := Shut(socket.state)), TimedOut);
    } else if g == s.generation {
      TouchKeepsSound(s, g, socket.(state := Shut(socket.state)));
    } else {
      TouchKeepsSound(s, g, socket);
    }
  }

  lemma TimerKeepsSound(s: Conn, id: nat)
    requires Sound(s) && id in s.timers
    ensures Sound(OnTimer(s, id))
  {
    var fired := s.(timers := s.timers - {id}, attempt := s.attempt + 1);
    assert Sound(fired);
    DoConnectKeepsSound(fired, s.timers[id].username, s.token);
  }

  lemma EventKeepsSound(s: Conn, e: Event)
    requires Sound(s)
    ensures Sound(Apply(s, e))
  {
    hide Sound;
    if Enabled(s, e) {
      match e
      case Connect(username, token) => DoConnectKeepsSound(s, username, token);
      case Send(text) => SendKeepsSound(s, text);
      case Disconnect => DisconnectKeepsSound(s);
      case SocketOpened(g) => OpenKeepsSound(s, g);
      case FrameArrived(g, data) => MessageKeepsSound(s, g, data);
      case PeerClosing(g) => PeerClosingKeepsSound(s, g);
      case SocketFailed(g) => ErrorKeepsSound(s, g);
      case SocketClosed(g, random) => CloseKeepsSound(s, g, random);
      case TimeoutFired(g) => TimeoutKeepsSound(s, g);
      case TimerFired(id) => TimerKeepsSound(s, id);
    }
  }

  lemma {:induction false} AlwaysSound(events: seq<Event>)
    ensures Sound(Run(events))
  {
    if events != [] {
      AlwaysSound(events[..|events| - 1]);
      EventKeepsSound(Run(events[..|events| - 1]), events[|events| - 1]);
    }
  }
}
