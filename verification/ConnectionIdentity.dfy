/** Under whose name the client reconnects. */
module ConnectionIdentity {
  import opened Options
  import opened Connection
  import opened ConnectionTheorems
  import opened ConnectionRecovery

  datatype Credentials = Credentials(username: string, token: Option<string>)

  function Identified(s: Conn, who: Option<Credentials>, e: Event): Option<Credentials> {
    if e.Connect? then Some(Credentials(e.username, e.token))
    else if e.Disconnect? || LateKick(s, e) then None
    else who
  }

  /** What the caller last connected with, unless it disconnected or was kicked since. */
  function LastConnected(events: seq<Event>): Option<Credentials> {
    if events == [] then None
    else Identified(Run(events[..|events| - 1]), LastConnected(events[..|events| - 1]), events[|events| - 1])
  }

  predicate Remembers(s: Conn, who: Option<Credentials>) {
    match who
    case None => s.username == None && s.timers == map[]
    case Some(c) => s.username == Some(c.username) && s.token == c.token
                    && forall id | id in s.timers :: s.timers[id].username == c.username
  }

  predicate SameIdentity(s: Conn, s': Conn) {
    s'.username == s.username && s'.token == s.token && s'.timers == s.timers
  }

  lemma FrameRemembers(s: Conn, g: nat, data: Incoming)
    requires g in s.sockets && !(data.Kicked? && g == s.generation && s.pendingJoin == None)
    ensures SameIdentity(s, OnMessage(s, g, data))
  {
  }

  /** Only a close arms a timer, and only a kick forgets; the other socket events do neither. */
  lemma SocketEventRemembers(s: Conn, e: Event)
    requires Enabled(s, e) && SocketOf(e).Some? && !e.SocketClosed? && !LateKick(s, e)
    ensures SameIdentity(s, Apply(s, e))
  {
    match e
    case SocketOpened(g) => assert SameIdentity(s, OnOpen(s, g));
    case FrameArrived(g, data) => FrameRemembers(s, g, data);
    case PeerClosing(g) => assert SameIdentity(s, WithSocket(s, g, s.sockets[g].(state := Closing)));
    case SocketFailed(g) => assert SameIdentity(s, OnError(s, g));
    case TimeoutFired(g) => assert SameIdentity(s, OnTimeout(s, g));
    hide OnOpen, OnMessage, OnError, OnTimeout, WithSocket, SameIdentity;
  }

  lemma CloseRemembers(s: Conn, who: Option<Credentials>, g: nat, random: real)
    requires Remembers(s, who) && Enabled(s, SocketClosed(g, random))
    ensures Remembers(OnClose(s, g, random), who)
  {
    hide Delay, RawDelay, ShutSockets;
  }

  lemma EventRemembers(s: Conn, who: Option<Credentials>, e: Event)
    requires Sound(s) && OneTimer(s) && Remembers(s, who) && (e.Connect? ==> s.timers == map[])
    ensures Remembers(Apply(s, e), Identified(s, who, e))
  {
    if e.Disconnect? || LateKick(s, e) {
      TimersGone(s, e);
      hide Sound, OneTimer, ShutSockets;
    } else if e.SocketClosed? && Enabled(s, e) {
      CloseRemembers(s, who, e.g, e.random);
    } else if Enabled(s, e) && SocketOf(e).Some? {
      SocketEventRemembers(s, e);
      hide Apply, Sound, OneTimer, Enabled;
    } else {
      hide Sound, OneTimer, ShutSockets;
    }
  }

  /** Name and token, event by event, for any caller: a connect sets both, a disconnect or late kick
      clears both, and a timer brings back its own name but not its token. */
  lemma IdentityAfter(s: Conn, e: Event)
    ensures Apply(s, e).username == if e.Connect? then Some(e.username)
                                    else if e.Disconnect? || LateKick(s, e) then None
                                    else if e.TimerFired? && e.id in s.timers then Some(s.timers[e.id].username)
                                    else s.username
    ensures Apply(s, e).token == if e.Connect? then e.token
                                 else if e.Disconnect? || LateKick(s, e) then None
                                 else s.token
  {
    if Enabled(s, e) && SocketOf(e).Some? && !e.SocketClosed? && !LateKick(s, e) {
      SocketEventRemembers(s, e);
      hide Apply;
    } else {
      hide Delay, ShutSockets;
    }
  }

  lemma {:induction false} AlwaysRemembers(events: seq<Event>)
    requires Patient(events)
    ensures Remembers(Run(events), LastConnected(events))
  {
    if events != [] {
      var before := events[..|events| - 1];
      AlwaysRemembers(before);
      AlwaysSound(before);
      AlwaysOneTimer(before);
      EventRemembers(Run(before), LastConnected(before), events[|events| - 1]);
    }
  }

  /** A patient caller's client reconnects with the name and token of the caller's last `connect`,
      and not at all after a `disconnect` or a late kick. */
  lemma ReconnectsAsLastConnected(events: seq<Event>, id: nat)
    requires Patient(events) && id in Run(events).timers
    ensures var who, s' := LastConnected(events), Apply(Run(events), TimerFired(id));
            who.Some? && s'.generation in s'.sockets
            && s'.sockets[s'.generation].username == who.value.username
            && s'.sockets[s'.generation].token == who.value.token
            && Truthy(Some(who.value.username))
  {
    AlwaysRemembers(events);
    AlwaysTruthy(events);
    hide Run, LastConnected, ShutSockets, Patient;
  }

  /** No timer is armed without a name. */
  lemma {:induction false} AlwaysTruthy(events: seq<Event>)
    ensures forall id | id in Run(events).timers :: Run(events).timers[id].username != ""
  {
    if events != [] {
      var before, e := events[..|events| - 1], events[|events| - 1];
      AlwaysTruthy(before);
      TimersAfter(Run(before), e);
    }
  }

  lemma TimersAfter(s: Conn, e: Event)
    requires forall id | id in s.timers :: s.timers[id].username != ""
    ensures forall id | id in Apply(s, e).timers :: Apply(s, e).timers[id].username != ""
  {
    hide Delay, RawDelay, ShutSockets;
  }
}
