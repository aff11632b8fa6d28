/** The chat client's WebSocket connection as a state machine: what the caller, the socket and
    the timers can do, and what the client does in answer. One generation number per `connect`
    or `disconnect`; a socket is named by the generation that opened it. Socket states follow
    the WebSockets standard: `close()` leaves CONNECTING or OPEN for CLOSING at once, an open
    event means OPEN, an error event means CLOSED, frames arrive only while OPEN, and every
    socket fires one close event. */
module Connection {
  import opened Options

  datatype Frame = Join(username: string, token: Option<string>) | Payload(text: string)

  datatype Incoming = ErrorFrame(content: string) | Kicked | History | Other | Malformed

  /** How a `connect` promise settles. */
  datatype Outcome = Resolved | TimedOut | ClosedEarly | CannotConnect | Refused(content: string) | KickedOut

  datatype ReadyState = Connecting | Open | Closing | Closed

  /** A socket with the closure its `connect` call made: captured name and token, armed
      15-second timeout. `wire` is everything ever written to it. */
  datatype Socket = Socket(state: ReadyState, gone: bool, username: string, token: Option<string>, timeout: bool,
                           wire: seq<Frame>)

  /** A reconnection timer with the name its callback captured. */
  datatype Timer = Timer(username: string, delay: int)

  const QUEUE_CAP := 100
  const MAX_RECONNECT_ATTEMPTS := 10
  const BASE_DELAY := 1000
  const MAX_DELAY := 30000

  datatype Conn = Conn(
    // fields of the client
    ws: Option<nat>,
    generation: nat,
    username: Option<string>,
    token: Option<string>,
    wasReconnecting: bool,
    attempt: nat,
    pendingJoin: Option<nat>,        // the unsettled promise, named by its generation
    queue: seq<Frame>,
    reconnectTimer: Option<nat>,     // handle of the timer armed last
    // the browser's side
    sockets: map<nat, Socket>,
    timers: map<nat, Timer>,         // armed reconnection timers
    timersMade: nat,
    settled: map<nat, Outcome>)

  const INIT := Conn(None, 0, None, None, false, 0, None, [], None, map[], map[], 0, map[])

  datatype Event =
    | Connect(username: string, token: Option<string>)
    | Send(text: string)                        // every public sender; none of them sends a join
    | Disconnect
    | SocketOpened(g: nat)
    | FrameArrived(g: nat, data: Incoming)
    | PeerClosing(g: nat)
    | SocketFailed(g: nat)
    | SocketClosed(g: nat, random: real)
    | TimeoutFired(g: nat)
    | TimerFired(id: nat)

  /** A JavaScript string that counts as present. */
  predicate Truthy(s: Option<string>) {
    s.Some? && s.value != ""
  }

  /** Neither closing nor closed. */
  predicate Live(state: ReadyState) {
    state == Connecting || state == Open
  }

  /** The state after `close()`. */
  function Shut(state: ReadyState): ReadyState {
    if Live(state) then Closing else state
  }

  /** The client's socket; its name is the current generation. */
  predicate HasSocket(s: Conn) {
    s.ws.Some? && s.generation in s.sockets
  }

  predicate SocketOpen(s: Conn) {
    HasSocket(s) && s.sockets[s.generation].state == Open
  }

  function WithSocket(s: Conn, g: nat, socket: Socket): Conn {
    s.(sockets := s.sockets[g := socket])
  }

  /** All sockets once the client's own has been told to close. */
  function ShutSockets(s: Conn): map<nat, Socket> {
    if !HasSocket(s) then s.sockets
    else
      var socket := s.sockets[s.generation];
      s.sockets[s.generation := socket.(state := Shut(socket.state))]
  }

  /** The unsettled promise settles, and its socket becomes `socket`. */
  function Settling(s: Conn, socket: Socket, outcome: Outcome): Conn {
    s.(sockets := s.sockets[s.generation := socket], settled := s.settled[s.generation := outcome], pendingJoin := None)
  }

  function Enqueue(queue: seq<Frame>, frame: Frame): seq<Frame> {
    var longer := queue + [frame];
    if |longer| > QUEUE_CAP then longer[1..] else longer
  }

  /** `send`: straight to the wire once joined, else queued; a join is never queued. */
  function DoSend(s: Conn, frame: Frame): Conn {
    if SocketOpen(s) && (s.pendingJoin == None || frame.Join?) then
      var socket := s.sockets[s.generation];
      WithSocket(s, s.generation, socket.(wire := socket.wire + [frame]))
    else if frame.Join? then s
    else s.(queue := Enqueue(s.queue, frame))
  }

  function DoConnect(s: Conn, username: string, token: Option<string>): Conn {
    var g := s.generation + 1;
    s.(sockets := ShutSockets(s)[g := Socket(Connecting, false, username, token, true, [])],
       queue := [], generation := g, username := Some(username), token := token, pendingJoin := Some(g), ws := Some(g))
  }

  function JoinFrame(socket: Socket): Frame {
    Join(socket.username, if Truthy(socket.token) then socket.token else None)
  }

  /** The promise is still pending: reset the attempts and write the join. */
  function OnOpen(s: Conn, g: nat): Conn
    requires g in s.sockets
  {
    var socket := s.sockets[g].(state := Open);
    if g != s.generation then WithSocket(s, g, socket)
    else if s.pendingJoin == None then WithSocket(s, g, socket.(timeout := false))
    else WithSocket(s, g, socket.(timeout := false, wire := socket.wire + [JoinFrame(socket)])).(attempt := 0)
  }

  function OnMessage(s: Conn, g: nat, data: Incoming): Conn
    requires g in s.sockets
  {
    var socket := s.sockets[g].(timeout := false);
    if g != s.generation then s
    else if s.pendingJoin.Some? then
      match data
      case ErrorFrame(content) => Settling(s, socket.(state := Shut(socket.state)), Refused(content))
      case Kicked => Settling(s, socket, KickedOut)
      case History =>
        Settling(s, socket.(wire := socket.wire + s.queue), Resolved).(queue := [], wasReconnecting := false)
      case _ => s
    else if data.Kicked? then s.(username := None, token := None, wasReconnecting := false)
    else s
  }

  function OnClose(s: Conn, g: nat, random: real): Conn
    requires g in s.sockets
  {
    var socket := s.sockets[g].(state := Closed, gone := true);
    if g == s.generation && s.pendingJoin.Some? then Settling(s, socket.(timeout := false), ClosedEarly)
    else if g == s.generation then AttemptReconnect(WithSocket(s, g, socket), random)
    else WithSocket(s, g, socket)
  }

  function OnError(s: Conn, g: nat): Conn
    requires g in s.sockets
  {
    var socket := s.sockets[g].(state := Closed);
    if g == s.generation && s.pendingJoin.Some? then Settling(s, socket.(timeout := false), CannotConnect)
    else WithSocket(s, g, socket)
  }

  function OnTimeout(s: Conn, g: nat): Conn
    requires g in s.sockets
  {
    var socket := s.sockets[g].(timeout := false);
    if g != s.generation then WithSocket(s, g, socket)
    else if s.pendingJoin.Some? then Settling(s, socket.(state := Shut(socket.state)), TimedOut)
    else WithSocket(s, g, socket.(state := Shut(socket.state)))
  }

  function Pow2(k: nat): nat {
    if k == 0 then 1 else 2 * Pow2(k - 1)
  }

  function RawDelay(attempt: nat): nat {
    var d := BASE_DELAY * Pow2(attempt);
    if d < MAX_DELAY then d else MAX_DELAY
  }

  /** Up to a fifth either way. */
  function Jitter(attempt: nat, random: real): real {
    RawDelay(attempt) as real * 0.2 * (random * 2.0 - 1.0)
  }

  /** Exponential backoff with jitter, rounded to the nearest millisecond, halves up. */
  function Delay(attempt: nat, random: real): int {
    (RawDelay(attempt) as real + Jitter(attempt, random) + 0.5).Floor
  }

  predicate MayReconnect(s: Conn) {
    Truthy(s.username) && s.attempt < MAX_RECONNECT_ATTEMPTS
  }

  function AttemptReconnect(s: Conn, random: real): Conn {
    if !MayReconnect(s) then s
    else
      s.(wasReconnecting := true,
         timers := s.timers[s.timersMade := Timer(s.username.value, Delay(s.attempt, random))],
         reconnectTimer := Some(s.timersMade),
         timersMade := s.timersMade + 1)
  }

  function OnTimer(s: Conn, id: nat): Conn
    requires id in s.timers
  {
    DoConnect(s.(timers := s.timers - {id}, attempt := s.attempt + 1), s.timers[id].username, s.token)
  }

  function DoDisconnect(s: Conn): Conn {
    s.(sockets := ShutSockets(s), generation := s.generation + 1, wasReconnecting := false,
       username := None, token := None, pendingJoin := None, queue := [],
       timers := if s.reconnectTimer.Some? then s.timers - {s.reconnectTimer.value} else s.timers,
       reconnectTimer := None, ws := None)
  }

  predicate Enabled(s: Conn, e: Event) {
    match e
    case Connect(_, _) => true
    case Send(_) => true
    case Disconnect => true
    case SocketOpened(g) => g in s.sockets && s.sockets[g].state == Connecting
    case FrameArrived(g, _) => g in s.sockets && s.sockets[g].state == Open
    case PeerClosing(g) => g in s.sockets && s.sockets[g].state == Open
    case SocketFailed(g) => g in s.sockets && s.sockets[g].state != Closed
    case SocketClosed(g, random) => g in s.sockets && !s.sockets[g].gone && 0.0 <= random < 1.0
    case TimeoutFired(g) => g in s.sockets && s.sockets[g].timeout
    case TimerFired(id) => id in s.timers
  }

  /** The state after one event; an event that cannot happen changes nothing. */
  function Apply(s: Conn, e: Event): Conn {
    if !Enabled(s, e) then s else
    match e
    case Connect(username, token) => DoConnect(s, username, token)
    case Send(text) => DoSend(s, Payload(text))
    case Disconnect => DoDisconnect(s)
    case SocketOpened(g) => OnOpen(s, g)
    case FrameArrived(g, data) => OnMessage(s, g, data)
    case PeerClosing(g) => WithSocket(s, g, s.sockets[g].(state := Closing))
    case SocketFailed(g) => OnError(s, g)
    case SocketClosed(g, random) => OnClose(s, g, random)
    case TimeoutFired(g) => OnTimeout(s, g)
    case TimerFired(id) => OnTimer(s, id)
  }

  function Run(events: seq<Event>): Conn {
    if events == [] then INIT else Apply(Run(events[..|events| - 1]), events[|events| - 1])
  }

  lemma OneMoreEvent(events: seq<Event>, e: Event)
    ensures Run(events + [e]) == Apply(Run(events), e)
  {
    assert (events + [e])[..|events|] == events;
  }
}
