/** How promises settle over whole runs, and what events of older sockets can do. */
module ConnectionGuarantees {
  import opened Options
  import opened Connection
  import opened ConnectionTheorems

  predicate PendingSound(s: Conn) {
    s.pendingJoin.Some? ==> s.pendingJoin == Some(s.generation) == s.ws && s.generation !in s.settled
  }

  /** Nothing settles, or the pending promise does. */
  predicate SettlesPending(s: Conn, s': Conn) {
    || s'.settled == s.settled
    || (s.pendingJoin.Some? && s'.pendingJoin == None && s.generation in s'.settled
        && s'.settled == s.settled[s.generation := s'.settled[s.generation]])
  }

  lemma CloseSettles(s: Conn, g: nat, random: real)
    requires g in s.sockets
    ensures SettlesPending(s, OnClose(s, g, random)) && (g != s.generation ==> OnClose(s, g, random).settled == s.settled)
  {
    AttemptLeaves(WithSocket(s, g, s.sockets[g].(state := Closed, gone := true)), random);
    hide AttemptReconnect;
  }

  lemma FrameSettles(s: Conn, g: nat, data: Incoming)
    requires g in s.sockets
    ensures SettlesPending(s, OnMessage(s, g, data)) && (g != s.generation ==> OnMessage(s, g, data).settled == s.settled)
  {
  }

  lemma EventSettles(s: Conn, e: Event)
    ensures SettlesPending(s, Apply(s, e))
    ensures SocketOf(e) != Some(s.generation) ==> Apply(s, e).settled == s.settled
  {
    if Enabled(s, e) {
      match e
      case FrameArrived(g, data) => FrameSettles(s, g, data);
      case SocketClosed(g, random) => CloseSettles(s, g, random);
      case _ =>
      hide OnMessage, OnClose, Delay, ShutSockets;
    }
  }

  /** An event settles at most the current promise, and only if it is an event of the socket
      that promise belongs to; a settled promise never settles again. */
  lemma SettlesOnceByItsOwnEvents(s: Conn, e: Event)
    requires PendingSound(s)
    ensures forall g | g in s.settled :: g in Apply(s, e).settled && Apply(s, e).settled[g] == s.settled[g]
    ensures forall g | g in Apply(s, e).settled && g !in s.settled ::
              s.pendingJoin == Some(g) && SocketOf(e) == Some(g) && Apply(s, e).pendingJoin == None
  {
    EventSettles(s, e);
    hide Apply;
  }

  /** A pending promise always belongs to the current generation, and is unsettled. */
  lemma PendingIsCurrent(events: seq<Event>)
    ensures var s := Run(events);
            s.pendingJoin.Some? ==> s.pendingJoin == Some(s.generation) == s.ws && s.generation !in s.settled
  {
    AlwaysSound(events);
    hide SocketsSound, Run;
  }

  /** Events of older sockets change nothing but those sockets. */
  lemma StaleEventsIgnored(s: Conn, e: Event, g: nat)
    requires SocketOf(e) == Some(g) && g != s.generation
    ensures Apply(s, e).(sockets := s.sockets) == s
    ensures g in s.sockets ==> Apply(s, e).sockets - {g} == s.sockets - {g}
    ensures g !in s.sockets ==> Apply(s, e) == s
  {
    hide Delay;
  }

  /** A promise left unsettled when its generation passes stays unsettled for ever: a second
      `connect`, or a `disconnect`, never answers the first caller. */
  lemma {:induction false} SupersededNeverSettles(events: seq<Event>, more: seq<Event>, g: nat)
    requires g < Run(events).generation && g !in Run(events).settled
    ensures g < Run(events + more).generation && g !in Run(events + more).settled
  {
    if more == [] {
      assert events + more == events;
    } else {
      var n := |more| - 1;
      assert events + more == (events + more[..n]) + [more[n]];
      SupersededNeverSettles(events, more[..n], g);
      PendingIsCurrent(events + more[..n]);
      OneMoreEvent(events + more[..n], more[n]);
      GenerationGrows(Run(events + more[..n]), more[n]);
      SettlesOnceByItsOwnEvents(Run(events + more[..n]), more[n]);
      hide Run, Apply;
    }
  }

  lemma GenerationGrows(s: Conn, e: Event)
    ensures s.generation <= Apply(s, e).generation
  {
    hide Delay;
    match e
    case SocketOpened(h) =>
    case FrameArrived(h, data) =>
    case PeerClosing(h) =>
    case SocketFailed(h) =>
    case SocketClosed(h, random) =>
    case TimeoutFired(h) =>
    case _ =>
  }
}
