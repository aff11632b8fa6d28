/** The connection registry and its fan-out: clients register under a name, a new login takes the
    name over, and every send is a non-blocking offer to a bounded channel that may be closed.
    Nothing here depends on the order in which a Go map is walked, except the choice of the client
    to kick, which is part of the event. */
module Hub {
  import opened Options

  const CHANNEL_CAP := 256

  datatype Payload =
    | Kicked
    | UserLeft(name: string, online: set<string>)
    | UserStatus
    | OnlineUsers(online: set<string>)
    | Data(bytes: string)

  /** A client and its channel. `taken` logs what the writer has taken out of the channel. */
  datatype Conn = Conn(name: string, room: string, queue: seq<Payload>, closed: bool, taken: seq<Payload>)

  /** `panicked` is set by a send on a closed channel and by a second close. */
  datatype State<C(==)> = State(clients: set<C>, conns: map<C, Conn>, panicked: bool)

  datatype Event<C(==)> =
    | Connect(c: C, room: string)
    | Register(c: C, name: string, victim: Option<C>)
    | Unregister(c: C)
    | Broadcast(data: Payload)
    | SyncTick
    | SendTo(c: C, data: Payload)
    | ToRoom(data: Payload, room: string)
    | SetRoom(c: C, room: string)
    | Take(c: C)                            // the client's writer takes one message
    | Shutdown

  predicate WellFormed<C>(s: State<C>) {
    s.clients <= s.conns.Keys
  }

  function Empty<C(==)>(): State<C> {
    State({}, map[], false)
  }

  // One channel.

  /** `select { case c.send <- p: default: }` on a channel that is open. */
  function Offered(conn: Conn, p: Payload): Conn {
    if conn.closed || |conn.queue| >= CHANNEL_CAP then conn else conn.(queue := conn.queue + [p])
  }

  function OfferAll<C>(s: State<C>, targets: set<C>, p: Payload): (s': State<C>)
    requires targets <= s.conns.Keys
    ensures s'.conns.Keys == s.conns.Keys && s'.clients == s.clients
  {
    s.(conns := map c | c in s.conns :: if c in targets then Offered(s.conns[c], p) else s.conns[c],
       panicked := s.panicked || exists c :: c in targets && s.conns[c].closed)
  }

  /** Taken off the registry and closed. */
  function Dropped<C>(s: State<C>, targets: set<C>): (s': State<C>)
    requires targets <= s.conns.Keys
    ensures s'.conns.Keys == s.conns.Keys && s'.clients == s.clients - targets
  {
    State(s.clients - targets,
          map c | c in s.conns :: if c in targets then s.conns[c].(closed := true) else s.conns[c],
          s.panicked || exists c :: c in targets && s.conns[c].closed)
  }

  // The events.

  function Names<C>(s: State<C>): set<string>
    requires WellFormed(s)
  {
    set c | c in s.clients && s.conns[c].name != "" :: s.conns[c].name
  }

  /** Others registered under the name. */
  function Rivals<C>(s: State<C>, c: C, name: string): set<C>
    requires WellFormed(s)
  {
    set d | d in s.clients && d != c && s.conns[d].name == name
  }

  predicate Picked<C>(s: State<C>, c: C, name: string, victim: Option<C>)
    requires WellFormed(s)
  {
    if victim.Some? then victim.value in Rivals(s, c, name) else Rivals(s, c, name) == {}
  }

  predicate Possible<C>(s: State<C>, e: Event<C>)
    requires WellFormed(s)
  {
    match e
    case Connect(c, _) => c !in s.conns
    case Register(c, name, victim) => c in s.conns && Picked(s, c, name, victim)
    case Unregister(c) => c in s.conns
    case SetRoom(c, _) => c in s.conns
    case Take(c) => c in s.conns
    case _ => true
  }

  function Registered<C>(s: State<C>, c: C, name: string, victim: Option<C>): (s': State<C>)
    requires WellFormed(s) && c in s.conns && Picked(s, c, name, victim)
    ensures WellFormed(s')
  {
    var named := s.(conns := s.conns[c := s.conns[c].(name := name)]);
    var kicked := if victim.Some? then Dropped(OfferAll(named, {victim.value}, Kicked), {victim.value}) else named;
    kicked.(clients := kicked.clients + {c})
  }

  function Unregistered<C>(s: State<C>, c: C): (s': State<C>)
    requires WellFormed(s) && c in s.conns
    ensures WellFormed(s')
  {
    var gone := if c in s.clients then Dropped(s, {c}) else s;
    var name := gone.conns[c].name;
    var told := if name != "" then OfferAll(gone, gone.clients, UserLeft(name, Names(gone))) else gone;
    OfferAll(told, told.clients, UserStatus)
  }

  function InRoom<C>(s: State<C>, room: string): set<C>
    requires WellFormed(s)
  {
    set c | c in s.clients && (room == "" || s.conns[c].room == room)
  }

  function Taken(conn: Conn): Conn {
    if conn.queue == [] then conn else conn.(queue := conn.queue[1..], taken := conn.taken + [conn.queue[0]])
  }

  function Step<C>(s: State<C>, e: Event<C>): (s': State<C>)
    requires WellFormed(s) && Possible(s, e)
    ensures WellFormed(s')
  {
    match e
    case Connect(c, room) => s.(conns := s.conns[c := Conn("", room, [], false, [])])
    case Register(c, name, victim) => Registered(s, c, name, victim)
    case Unregister(c) => Unregistered(s, c)
    case Broadcast(p) => OfferAll(s, s.clients, p)
    case SyncTick => OfferAll(s, s.clients, OnlineUsers(Names(s)))
    case SendTo(c, p) => if c in s.clients then OfferAll(s, {c}, p) else s
    case ToRoom(p, room) => OfferAll(s, InRoom(s, room), p)
    case SetRoom(c, room) => s.(conns := s.conns[c := s.conns[c].(room := room)])
    case Take(c) => s.(conns := s.conns[c := Taken(s.conns[c])])
    case Shutdown => Dropped(s, s.clients)
  }

  // Runs.

  predicate Executes<C>(events: seq<Event<C>>)
    decreases |events|, 0
  {
    events != [] ==>
      Executes(events[..|events| - 1]) && Possible(Run(events[..|events| - 1]), events[|events| - 1])
  }

  function Run<C>(events: seq<Event<C>>): (s: State<C>)
    requires Executes(events)
    ensures WellFormed(s)
    decreases |events|, 1
  {
    if events == [] then Empty() else Step(Run(events[..|events| - 1]), events[|events| - 1])
  }

  predicate EverRegistered<C>(events: seq<Event<C>>, c: C) {
    exists i | 0 <= i < |events| :: events[i].Register? && events[i].c == c
  }

  /** The discipline the hub relies on: a connection joins at most once. */
  predicate JoinsOnce<C>(events: seq<Event<C>>) {
    forall i, j | 0 <= i < j < |events| && events[i].Register? && events[j].Register? :: events[i].c != events[j].c
  }

  /** Who holds a name: the last to register under it, until it unregisters or the hub stops. */
  function Owner<C(==)>(events: seq<Event<C>>, name: string): Option<C> {
    if events == [] then None
    else
      var before := Owner(events[..|events| - 1], name);
      match events[|events| - 1]
      case Register(c, n, _) => if n == name then Some(c) else before
      case Unregister(c) => if before == Some(c) then None else before
      case Shutdown => None
      case _ => before
  }
}
