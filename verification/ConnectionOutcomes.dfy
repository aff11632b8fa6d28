/** How a `connect` promise is answered, and by what; and what else an event does to a socket. */
module ConnectionOutcomes {
  import opened Options
  import opened Connection
  import opened ConnectionTheorems
  import opened ConnectionGuarantees
  import opened ConnectionRecovery

  /** What an event of its own socket makes of a promise that is still pending. */
  function Verdict(e: Event): Option<Outcome> {
    match e
    case FrameArrived(_, History) => Some(Resolved)
    case FrameArrived(_, ErrorFrame(content)) => Some(Refused(content))
    case FrameArrived(_, Kicked) => Some(KickedOut)
    case TimeoutFired(_) => Some(TimedOut)
    case SocketFailed(_) => Some(CannotConnect)
    case SocketClosed(_, _) => Some(ClosedEarly)
    case _ => None
  }

  /** The event happens while the promise `g` is pending, on its socket. */
  predicate Decides(s: Conn, e: Event, g: nat, outcome: Outcome) {
    s.pendingJoin == Some(g) && Enabled(s, e) && SocketOf(e) == Some(g) && Verdict(e) == Some(outcome)
  }

  lemma FrameDecides(s: Conn, h: nat, data: Incoming)
    requires PendingSound(s) && h in s.sockets
    ensures var verdict := Verdict(FrameArrived(h, data));
            OnMessage(s, h, data).settled
            == if s.pendingJoin == Some(h) && verdict.Some? then s.settled[h := verdict.value] else s.settled
  {
  }

  lemma CloseDecides(s: Conn, h: nat, random: real)
    requires PendingSound(s) && h in s.sockets
    ensures OnClose(s, h, random).settled == if s.pendingJoin == Some(h) then s.settled[h := ClosedEarly] else s.settled
  {
    AttemptLeaves(WithSocket(s, h, s.sockets[h].(state := Closed, gone := true)), random);
    hide AttemptReconnect;
  }

  lemma SettledAfter(s: Conn, e: Event)
    requires PendingSound(s)
    ensures var own, verdict := SocketOf(e), Verdict(e);
            Apply(s, e).settled
            == if Enabled(s, e) && own.Some? && s.pendingJoin == own && verdict.Some? then s.settled[own.value := verdict.value]
               else s.settled
  {
    if Enabled(s, e) {
      match e
      case FrameArrived(h, data) => FrameDecides(s, h, data);
      case SocketClosed(h, random) => CloseDecides(s, h, random);
      case _ =>
      hide OnMessage, OnClose, Delay, ShutSockets;
    }
  }

  /** An event answers a promise iff it is an event of that promise's socket, the promise is pending,
      and the event is a history, an error frame, a kick, the timeout, a failure or a close; and
      which of them it is says what the answer is. */
  lemma AnswersIff(s: Conn, e: Event, g: nat, outcome: Outcome)
    requires PendingSound(s) && g !in s.settled
    ensures (g in Apply(s, e).settled && Apply(s, e).settled[g] == outcome) <==> Decides(s, e, g, outcome)
  {
    SettledAfter(s, e);
    hide Apply, Enabled;
  }

  /** The event number `i` of the run answers the promise `g`. */
  ghost predicate DecidedAt(events: seq<Event>, i: nat, g: nat, outcome: Outcome) {
    i < |events| && Decides(Run(events[..i]), events[i], g, outcome)
  }

  lemma DecidedEarlier(before: seq<Event>, e: Event, i: nat, g: nat, outcome: Outcome)
    requires i < |before|
    ensures DecidedAt(before + [e], i, g, outcome) <==> DecidedAt(before, i, g, outcome)
  {
    assert (before + [e])[..i] == before[..i];
    hide Run, Decides;
  }

  lemma DecidedLast(before: seq<Event>, e: Event, g: nat, outcome: Outcome)
    ensures DecidedAt(before + [e], |before|, g, outcome) <==> Decides(Run(before), e, g, outcome)
  {
    assert (before + [e])[..|before|] == before;
    hide Run, Decides;
  }

  /** In every run a promise has been resolved, refused, kicked out, timed out, could not connect or
      was closed early iff just that happened on its own socket while it was pending. */
  lemma {:induction false} AnsweredIff(events: seq<Event>, g: nat, outcome: Outcome)
    ensures (g in Run(events).settled && Run(events).settled[g] == outcome)
            <==> exists i: nat :: DecidedAt(events, i, g, outcome)
  {
    if events != [] {
      var before, e := events[..|events| - 1], events[|events| - 1];
      assert events == before + [e];
      AnsweredIff(before, g, outcome);
      OneMoreEvent(before, e);
      PendingIsCurrent(before);
      AnsweredNext(Run(before), e, g, outcome);
      hide Run, DecidedAt, Decides, Apply;
      forall i: nat | i < |before| ensures DecidedAt(events, i, g, outcome) <==> DecidedAt(before, i, g, outcome) {
        DecidedEarlier(before, e, i, g, outcome);
      }
      DecidedLast(before, e, g, outcome);
      DecidedWithin(before, g, outcome);
      DecidedWithin(events, g, outcome);
    }
  }

  lemma DecidedWithin(events: seq<Event>, g: nat, outcome: Outcome)
    ensures forall i: nat :: DecidedAt(events, i, g, outcome) ==> i < |events|
  {
  }

  lemma AnsweredNext(s: Conn, e: Event, g: nat, outcome: Outcome)
    requires PendingSound(s)
    ensures (g in Apply(s, e).settled && Apply(s, e).settled[g] == outcome)
            <==> (g in s.settled && s.settled[g] == outcome) || Decides(s, e, g, outcome)
  {
    SettledAfter(s, e);
    hide Apply, Enabled;
  }

  predicate PendingExact(s: Conn) {
    s.pendingJoin == if s.ws.Some? && s.generation !in s.settled then Some(s.generation) else None
  }

  /** A promise is pending iff it is that of the socket the client holds and is not answered. */
  lemma {:induction false} PendingIff(events: seq<Event>)
    ensures PendingExact(Run(events))
  {
    if events != [] {
      var before, e := events[..|events| - 1], events[|events| - 1];
      PendingIff(before);
      AlwaysSound(before);
      PendingAfter(Run(before), e);
    }
  }

  lemma PendingAfter(s: Conn, e: Event)
    requires Sound(s) && PendingExact(s)
    ensures PendingExact(Apply(s, e))
  {
    EventKeepsSound(s, e);
    if Enabled(s, e) && SocketOf(e).Some? {
      SocketEventPending(s, e);
      SettledAfter(s, e);
      hide Apply, SocketsSound, Enabled;
    } else {
      assert s.generation + 1 !in s.settled by {
        ShutBeforeNext(s);
      }
      hide SocketsSound, Delay, ShutSockets;
    }
  }

  /** A socket's event ends the wait iff it answers the promise; it changes neither generation nor socket held. */
  lemma SocketEventPending(s: Conn, e: Event)
    requires PendingSound(s) && Enabled(s, e) && SocketOf(e).Some?
    ensures var s' := Apply(s, e);
            && s'.generation == s.generation && s'.ws == s.ws
            && s'.pendingJoin == if s.pendingJoin == SocketOf(e) && Verdict(e).Some? then None else s.pendingJoin
  {
    match e
    case FrameArrived(h, data) =>
    case SocketClosed(h, random) =>
      AttemptLeaves(WithSocket(s, h, s.sockets[h].(state := Closed, gone := true)), random);
      hide AttemptReconnect;
    case _ =>
  }

  // The other things an event does to a socket or to the client.

  /** What an event makes of its own socket, the wire aside: only a refusal or the timeout of the
      pending promise makes the client close it. */
  predicate OwnSocketAfter(s: Conn, e: Event, g: nat, s': Conn)
    requires g in s.sockets
  {
    var pending := s.pendingJoin == Some(g);
    var state := s.sockets[g].state;
    && g in s'.sockets
    && s'.sockets[g].username == s.sockets[g].username && s'.sockets[g].token == s.sockets[g].token
    && (s'.sockets[g].gone <==> s.sockets[g].gone || e.SocketClosed?)
    && (s'.sockets[g].timeout
        <==> s.sockets[g].timeout && !e.TimeoutFired? && !(e.SocketOpened? && g == s.generation)
             && !(pending && Verdict(e).Some?))
    && s'.sockets[g].state
       == if e.SocketOpened? then Open
          else if e.PeerClosing? then Closing
          else if e.SocketFailed? || e.SocketClosed? then Closed
          else if pending && (e.TimeoutFired? || (e.FrameArrived? && e.data.ErrorFrame?))
               then (if state == Connecting || state == Open then Closing else state)
          else state
  }

  lemma OpenOrFailOwn(s: Conn, g: nat)
    requires PendingSound(s) && g in s.sockets
    ensures OwnSocketAfter(s, SocketOpened(g), g, OnOpen(s, g))
    ensures OwnSocketAfter(s, SocketFailed(g), g, OnError(s, g))
    ensures OwnSocketAfter(s, PeerClosing(g), g, WithSocket(s, g, s.sockets[g].(state := Closing)))
  {
  }

  lemma FrameOwn(s: Conn, g: nat, data: Incoming)
    requires PendingSound(s) && g in s.sockets
    ensures OwnSocketAfter(s, FrameArrived(g, data), g, OnMessage(s, g, data))
  {
  }

  lemma CloseOwn(s: Conn, g: nat, random: real)
    requires PendingSound(s) && g in s.sockets
    ensures OwnSocketAfter(s, SocketClosed(g, random), g, OnClose(s, g, random))
  {
    AttemptLeaves(WithSocket(s, g, s.sockets[g].(state := Closed, gone := true)), random);
    hide AttemptReconnect;
  }

  lemma TimeoutOwn(s: Conn, g: nat)
    requires PendingSound(s) && g in s.sockets && (s.pendingJoin == Some(g) || g != s.generation)
    ensures OwnSocketAfter(s, TimeoutFired(g), g, OnTimeout(s, g))
  {
  }

  lemma OwnSocket(s: Conn, e: Event, g: nat)
    requires PendingSound(s) && Enabled(s, e) && SocketOf(e) == Some(g)
    requires e.TimeoutFired? ==> s.pendingJoin == Some(g) || g != s.generation
    ensures OwnSocketAfter(s, e, g, Apply(s, e))
  {
    hide OnOpen, OnMessage, OnError, OnTimeout, OnClose, WithSocket, OwnSocketAfter;
    match e
    case SocketOpened(_) => OpenOrFailOwn(s, g);
    case FrameArrived(_, data) => FrameOwn(s, g, data);
    case PeerClosing(_) => OpenOrFailOwn(s, g);
    case SocketFailed(_) => OpenOrFailOwn(s, g);
    case SocketClosed(_, random) => CloseOwn(s, g, random);
    case TimeoutFired(_) => TimeoutOwn(s, g);
  }

  /** What the other events make of a socket: the client's own is told to close when its generation
      passes, and no other is touched. */
  predicate OtherSocketAfter(s: Conn, e: Event, g: nat, s': Conn)
    requires g in s.sockets
  {
    var state := s.sockets[g].state;
    && g in s'.sockets
    && s'.sockets[g] == s.sockets[g].(
         wire := s'.sockets[g].wire,
         state := if Resets(s, e) && g == s.generation && (state == Connecting || state == Open) then Closing else state)
  }

  lemma ShutOthers(s: Conn, e: Event, g: nat)
    requires g in s.sockets && g <= s.generation && Resets(s, e) && (g < s.generation || s.ws.Some?)
    ensures OtherSocketAfter(s, e, g, Apply(s, e))
  {
    assert HasSocket(s) || g != s.generation;
    assert forall h | h in ShutSockets(s) && h != s.generation :: ShutSockets(s)[h] == s.sockets[h];
    hide Delay;
  }

  lemma SendOthers(s: Conn, text: string, g: nat)
    requires g in s.sockets
    ensures OtherSocketAfter(s, Send(text), g, DoSend(s, Payload(text)))
  {
  }

  lemma OtherSocket(s: Conn, e: Event, g: nat)
    requires Sound(s) && g in s.sockets && SocketOf(e) != Some(g)
    ensures OtherSocketAfter(s, e, g, Apply(s, e))
  {
    SocketAt(s, g);
    if SocketOf(e).Some? {
      SocketEventTouchesOne(s, e);
      hide Apply, Sound;
    } else if e.Send? {
      SendOthers(s, e.text, g);
      hide Sound, OtherSocketAfter;
    } else if Resets(s, e) {
      ShutOthers(s, e, g);
      hide Apply, Sound;
    }
  }

  /** A new socket is the client's own, and carries the name and token of the caller's `connect`, or
      the timer's name and the stored token. */
  lemma OpenedAs(s: Conn, e: Event, g: nat)
    requires Sound(s) && g !in s.sockets && g in Apply(s, e).sockets
    ensures g == s.generation + 1 && Apply(s, e).ws == Some(g) && Apply(s, e).pendingJoin == Some(g)
    ensures || (e.Connect? && Apply(s, e).sockets[g] == Socket(Connecting, false, e.username, e.token, true, []))
            || (e.TimerFired? && e.id in s.timers
                && Apply(s, e).sockets[g] == Socket(Connecting, false, s.timers[e.id].username, s.token, true, []))
  {
    if SocketOf(e).Some? {
      SocketEventTouchesOne(s, e);
      hide Apply, Sound;
    } else {
      ShutBeforeNext(s);
      hide ShutSockets, SocketsSound, Delay;
    }
  }

  /** The client remembers that it is reconnecting from the moment it arms a timer until a join is
      confirmed, it disconnects, or it is kicked once joined. */
  lemma ReconnectingAfter(s: Conn, e: Event)
    ensures Apply(s, e).wasReconnecting
            == if e.Disconnect? || LateKick(s, e) then false
               else if Enabled(s, e) && e.FrameArrived? && e.data.History? && e.g == s.generation && s.pendingJoin.Some? then false
               else s.wasReconnecting || Apply(s, e).timersMade > s.timersMade
  {
    hide Delay, ShutSockets;
    match e
    case FrameArrived(g, data) =>
    case SocketClosed(g, random) =>
    case _ =>
  }

  /** The current socket's timeout is armed only while its promise is pending, and then the close
      that every socket ends with has not come yet. */
  predicate Waiting(s: Conn) {
    s.generation in s.sockets ==>
      && (s.sockets[s.generation].timeout ==> s.pendingJoin == Some(s.generation))
      && (s.pendingJoin.Some? ==> !s.sockets[s.generation].gone)
  }

  lemma OwnKeepsWaiting(s: Conn, e: Event)
    requires Sound(s) && Waiting(s) && Enabled(s, e) && SocketOf(e).Some?
    ensures Waiting(Apply(s, e))
  {
    var g := SocketOf(e).value;
    SocketEventPending(s, e);
    SocketEventTouchesOne(s, e);
    OwnSocket(s, e, g);
    hide Apply, Sound;
  }

  lemma WaitingAfter(s: Conn, e: Event)
    requires Sound(s) && Waiting(s)
    ensures Waiting(Apply(s, e))
  {
    if Enabled(s, e) && SocketOf(e).Some? {
      OwnKeepsWaiting(s, e);
      hide Apply, Sound;
    } else {
      ShutBeforeNext(s);
      hide SocketsSound, ShutSockets, Delay;
    }
  }

  lemma {:induction false} AlwaysWaiting(events: seq<Event>)
    ensures Waiting(Run(events))
  {
    if events != [] {
      var before, e := events[..|events| - 1], events[|events| - 1];
      assert events == before + [e];
      AlwaysWaiting(before);
      AlwaysSound(before);
      OneMoreEvent(before, e);
      WaitingAfter(Run(before), e);
      hide Run, Apply;
    }
  }

  /** In every run, every event does to every socket just what is said above. */
  lemma SocketsFollow(events: seq<Event>, e: Event, g: nat)
    requires g in Run(events).sockets && Enabled(Run(events), e)
    ensures var s, s' := Run(events), Apply(Run(events), e);
            if SocketOf(e) == Some(g) then OwnSocketAfter(s, e, g, s') else OtherSocketAfter(s, e, g, s')
  {
    AlwaysWaiting(events);
    AlwaysSound(events);
    PendingIsCurrent(events);
    if SocketOf(e) == Some(g) {
      OwnSocket(Run(events), e, g);
    } else {
      OtherSocket(Run(events), e, g);
    }
    hide Run, Apply, Sound, OwnSocketAfter, OtherSocketAfter;
  }

  /** No promise of the current generation is stuck: the event that would answer it at the latest is
      always still to come. */
  lemma NeverStuck(events: seq<Event>, g: nat)
    requires Run(events).pendingJoin == Some(g)
    ensures Decides(Run(events), SocketClosed(g, 0.0), g, ClosedEarly)
    ensures Run(events + [SocketClosed(g, 0.0)]).settled == Run(events).settled[g := ClosedEarly]
  {
    AlwaysWaiting(events);
    AlwaysSound(events);
    PendingIsCurrent(events);
    OneMoreEvent(events, SocketClosed(g, 0.0));
    SettledAfter(Run(events), SocketClosed(g, 0.0));
    assert Run(events).generation in Run(events).sockets;
    hide Run, Apply, SocketsSound;
  }
}
