/** What reaches the wire, and in which order, over whole runs. */
module ConnectionOrder {
  import opened Options
  import opened Connection
  import opened ConnectionTheorems

  /** On every socket the join comes first, with the socket's name and its token if it has one that
      is not empty, and nothing else precedes that socket's `history`; the one exception is a kick
      during the join, which lets later sends through unjoined. */
  lemma JoinFirst(events: seq<Event>, g: nat)
    requires g in Run(events).sockets
    ensures var s := Run(events);
            var wire := s.sockets[g].wire;
            var token := s.sockets[g].token;
            && (wire != [] ==> wire[0] == Join(s.sockets[g].username, if token == Some("") then None else token))
            && (forall i | 1 <= i < |wire| :: wire[i].Payload?)
            && (|wire| > 1 ==> g in s.settled && (s.settled[g] == Resolved || s.settled[g] == KickedOut))
  {
    AlwaysSound(events);
    SocketAt(Run(events), g);
    var wire := Run(events).sockets[g].wire;
    assert forall i | 1 <= i < |wire| :: wire[i] == wire[1..][i - 1];
  }

  /** The frames handed to `send` since the connection was last opened or closed by the client. */
  function Given(events: seq<Event>): seq<Frame> {
    if events == [] then []
    else
      var before, e := events[..|events| - 1], events[|events| - 1];
      match e
      case Send(text) => Given(before) + [Payload(text)]
      case Connect(_, _) => []
      case Disconnect => []
      case TimerFired(id) => if id in Run(before).timers then [] else Given(before)
      case _ => Given(before)
  }

  /** What the current socket has carried besides its join. */
  function Written(s: Conn): seq<Frame> {
    if HasSocket(s) && s.sockets[s.generation].wire != [] then s.sockets[s.generation].wire[1..] else []
  }

  predicate KickedEarly(s: Conn) {
    s.generation in s.settled && s.settled[s.generation] == KickedOut
  }

  predicate Joined(s: Conn) {
    SocketOpen(s) && s.pendingJoin == None
  }

  /** The frames given, cut into stretches around those written: `shed` and `late` were dropped as
      the oldest of a full queue, before and after the written ones; `held` were queued when a kick
      ended the join, and are queued still; `tail` is queued behind them. */
  datatype Layers = Layers(shed: seq<Frame>, held: seq<Frame>, late: seq<Frame>, tail: seq<Frame>)

  predicate Layered(s: Conn, given: seq<Frame>, l: Layers) {
    && given == l.shed + l.held + Written(s) + l.late + l.tail
    && s.queue == l.held + l.tail
    && (l.held != [] ==> KickedEarly(s) && l.late == [])
    && (l.late != [] ==> Written(s) != [] && |s.queue| == 100)
    && (l.shed != [] ==> if Written(s) == [] || KickedEarly(s) then |s.queue| == 100 else |Written(s)| >= 100)
    && (Joined(s) ==> l.tail == [] && l.late == [])
  }

  /** A kick that arrives during the join. */
  predicate KicksEarly(s: Conn, e: Event) {
    Enabled(s, e) && e.FrameArrived? && e.data.Kicked? && e.g == s.generation && s.pendingJoin.Some?
  }

  /** How many frames that were queued when a kick ended the join are queued still. */
  function Held(events: seq<Event>): nat {
    if events == [] then 0
    else
      var s, e, before := Run(events[..|events| - 1]), events[|events| - 1], Held(events[..|events| - 1]);
      if Resets(s, e) then 0
      else if KicksEarly(s, e) then |s.queue|
      else if e.Send? && !Joined(s) && |s.queue| == 100 && before > 0 then before - 1
      else before
  }

  lemma SendWrites(s: Conn, text: string)
    requires Sound(s) && SocketOpen(s) && s.pendingJoin == None
    ensures var s' := DoSend(s, Payload(text));
            Written(s') == Written(s) + [Payload(text)] && s'.queue == s.queue
  {
    SocketAt(s, s.generation);
    var wire := s.sockets[s.generation].wire;
    assert wire != [] && (wire + [Payload(text)])[1..] == wire[1..] + [Payload(text)];
  }

  lemma SendJoined(s: Conn, text: string, given: seq<Frame>, l: Layers)
    requires Sound(s) && Layered(s, given, l) && Joined(s)
    ensures Layered(DoSend(s, Payload(text)), given + [Payload(text)], l)
  {
    SendWrites(s, text);
    assert given + [Payload(text)] == l.shed + l.held + (Written(s) + [Payload(text)]) + [] + [];
    assert KickedEarly(DoSend(s, Payload(text))) == KickedEarly(s);
    hide Sound, Written;
  }

  /** A frame joins the queue; the oldest leaves a full one. */
  function Queued(l: Layers, written: seq<Frame>, frame: Frame): Layers {
    if |l.held + l.tail| < QUEUE_CAP then l.(tail := l.tail + [frame])
    else if l.held != [] then l.(shed := l.shed + [l.held[0]], held := l.held[1..], tail := l.tail + [frame])
    else if written == [] then l.(shed := l.shed + [l.tail[0]], tail := l.tail[1..] + [frame])
    else l.(late := l.late + [l.tail[0]], tail := l.tail[1..] + [frame])
  }

  lemma QueuedInOrder(l: Layers, written: seq<Frame>, frame: Frame)
    requires l.held != [] || written == [] ==> l.late == []
    ensures var l' := Queued(l, written, frame);
            l'.shed + l'.held + written + l'.late + l'.tail == l.shed + l.held + written + l.late + l.tail + [frame]
  {
    if |l.held + l.tail| >= QUEUE_CAP {
      if l.held != [] {
        assert l.held == [l.held[0]] + l.held[1..];
      } else {
        assert l.tail == [l.tail[0]] + l.tail[1..];
      }
    }
  }

  lemma QueuedIsEnqueue(l: Layers, written: seq<Frame>, frame: Frame)
    requires |l.held + l.tail| <= QUEUE_CAP
    ensures var l' := Queued(l, written, frame);
            l'.held + l'.tail == Enqueue(l.held + l.tail, frame)
            && |l'.held| == (if |l.held + l.tail| == QUEUE_CAP && l.held != [] then |l.held| - 1 else |l.held|)
  {
    var all := l.held + l.tail;
    if |all| == QUEUE_CAP {
      assert Enqueue(all, frame) == all[1..] + [frame];
      if l.held != [] {
        assert all[1..] == l.held[1..] + l.tail;
      } else {
        assert all == l.tail;
      }
    }
  }

  lemma SendQueued(s: Conn, text: string, given: seq<Frame>, l: Layers)
    requires Sound(s) && Layered(s, given, l) && !Joined(s)
    ensures Layered(DoSend(s, Payload(text)), given + [Payload(text)], Queued(l, Written(s), Payload(text)))
  {
    var s' := DoSend(s, Payload(text));
    assert |s.queue| <= QUEUE_CAP;
    QueuedInOrder(l, Written(s), Payload(text));
    QueuedIsEnqueue(l, Written(s), Payload(text));
    assert Written(s') == Written(s) && KickedEarly(s') == KickedEarly(s) && !Joined(s');
    hide Sound, Written, KickedEarly, Joined;
  }

  /** The queue goes to the wire in one piece when the join is confirmed. */
  lemma HistoryLayers(s: Conn, given: seq<Frame>, l: Layers)
    requires Sound(s) && SocketOpen(s) && s.pendingJoin.Some? && Layered(s, given, l)
    ensures l.held == [] && Layered(OnMessage(s, s.generation, History), given, Layers(l.shed, [], [], []))
  {
    SocketAt(s, s.generation);
    var s' := OnMessage(s, s.generation, History);
    assert Written(s) == [] && Written(s') == s.queue && !KickedEarly(s) && !KickedEarly(s');
    hide Sound, Written;
  }

  /** A kick during the join leaves the queue where it is, on a socket that now takes frames. */
  lemma KickLayers(s: Conn, given: seq<Frame>, l: Layers)
    requires Sound(s) && SocketOpen(s) && s.pendingJoin.Some? && Layered(s, given, l)
    ensures Layered(OnMessage(s, s.generation, Kicked), given, Layers(l.shed, s.queue, [], []))
  {
    SocketAt(s, s.generation);
    var s' := OnMessage(s, s.generation, Kicked);
    assert Written(s) == [] && Written(s') == [] && !KickedEarly(s) && KickedEarly(s') && s'.queue == s.queue;
    hide Sound, Written;
  }

  lemma ResetLayers(s: Conn, e: Event)
    requires Sound(s) && Resets(s, e)
    ensures Layered(Apply(s, e), [], Layers([], [], [], []))
  {
    if e.Disconnect? {
      ShutBeforeNext(s);
    }
  }

  /** The current wire's payload and the queue are as they were. */
  predicate Undisturbed(s: Conn, s': Conn) {
    && Written(s') == Written(s) && s'.queue == s.queue
    && (KickedEarly(s') <==> KickedEarly(s)) && (Joined(s') ==> Joined(s))
  }

  lemma OpenUndisturbed(s: Conn, g: nat)
    requires Sound(s) && Enabled(s, SocketOpened(g))
    ensures Undisturbed(s, OnOpen(s, g))
  {
    SocketAt(s, g);
    hide Sound, SocketsSound, Delay;
  }

  lemma MessageUndisturbed(s: Conn, g: nat, data: Incoming)
    requires Sound(s) && Enabled(s, FrameArrived(g, data))
    requires !(data.History? && s.pendingJoin.Some?) && !KicksEarly(s, FrameArrived(g, data))
    ensures Undisturbed(s, OnMessage(s, g, data))
  {
    SocketAt(s, g);
    hide Sound, SocketsSound, Delay;
  }

  lemma PeerClosingUndisturbed(s: Conn, g: nat)
    requires Sound(s) && Enabled(s, PeerClosing(g))
    ensures Undisturbed(s, WithSocket(s, g, s.sockets[g].(state := Closing)))
  {
    SocketAt(s, g);
    hide Sound, SocketsSound, Delay;
  }

  lemma ErrorUndisturbed(s: Conn, g: nat)
    requires Sound(s) && Enabled(s, SocketFailed(g))
    ensures Undisturbed(s, OnError(s, g))
  {
    SocketAt(s, g);
    hide Sound, SocketsSound, Delay;
  }

  lemma GoneUndisturbed(s: Conn, g: nat)
    requires Sound(s) && g in s.sockets
    ensures Undisturbed(s, WithSocket(s, g, s.sockets[g].(state := Closed, gone := true)))
  {
    hide Sound;
  }

  lemma PendingUndisturbed(s: Conn, g: nat)
    requires Sound(s) && g in s.sockets && g == s.generation && s.pendingJoin.Some?
    ensures Undisturbed(s, Settling(s, s.sockets[g].(state := Closed, gone := true, timeout := false), ClosedEarly))
  {
    SocketAt(s, g);
    hide Sound;
  }

  lemma CloseUndisturbed(s: Conn, g: nat, random: real)
    requires Sound(s) && Enabled(s, SocketClosed(g, random))
    ensures Undisturbed(s, OnClose(s, g, random))
  {
    var gone := WithSocket(s, g, s.sockets[g].(state := Closed, gone := true));
    if g == s.generation && s.pendingJoin.Some? {
      PendingUndisturbed(s, g);
    } else {
      GoneUndisturbed(s, g);
      AttemptLeaves(gone, random);
    }
    hide Sound, Settling, WithSocket, AttemptReconnect;
  }

  lemma TimeoutUndisturbed(s: Conn, g: nat)
    requires Sound(s) && Enabled(s, TimeoutFired(g))
    ensures Undisturbed(s, OnTimeout(s, g))
  {
    SocketAt(s, g);
    hide Sound, SocketsSound, Delay;
  }

  lemma OthersUndisturbed(s: Conn, e: Event)
    requires Sound(s) && !Resets(s, e) && !e.Send? && !KicksEarly(s, e)
    requires !(e.FrameArrived? && e.data.History? && s.pendingJoin.Some?)
    ensures Undisturbed(s, Apply(s, e))
  {
    if Enabled(s, e) {
      hide Undisturbed;
      match e
      case SocketOpened(g) => OpenUndisturbed(s, g);
      case FrameArrived(g, data) => MessageUndisturbed(s, g, data);
      case PeerClosing(g) => PeerClosingUndisturbed(s, g);
      case SocketFailed(g) => ErrorUndisturbed(s, g);
      case SocketClosed(g, random) => CloseUndisturbed(s, g, random);
      case TimeoutFired(g) => TimeoutUndisturbed(s, g);
    }
  }

  lemma GivenStep(before: seq<Event>, e: Event)
    ensures Resets(Run(before), e) ==> Given(before + [e]) == []
    ensures e.Send? ==> Given(before + [e]) == Given(before) + [Payload(e.text)]
    ensures !Resets(Run(before), e) && !e.Send? ==> Given(before + [e]) == Given(before)
  {
    hide Run;
    assert (before + [e])[..|before|] == before;
  }

  lemma HeldStep(before: seq<Event>, e: Event)
    ensures var s := Run(before);
            Held(before + [e]) == if Resets(s, e) then 0
                                  else if KicksEarly(s, e) then |s.queue|
                                  else if e.Send? && !Joined(s) && |s.queue| == 100 && Held(before) > 0 then Held(before) - 1
                                  else Held(before)
  {
    hide Run;
    assert (before + [e])[..|before|] == before;
  }

  lemma EventLayers(before: seq<Event>, e: Event, l: Layers) returns (l': Layers)
    requires Sound(Run(before)) && Layered(Run(before), Given(before), l) && |l.held| == Held(before)
    ensures Layered(Apply(Run(before), e), Given(before + [e]), l') && |l'.held| == Held(before + [e])
  {
    GivenStep(before, e);
    HeldStep(before, e);
    var s := Run(before);
    hide Run, Given, Held, Sound;
    l' := l;
    if Resets(s, e) {
      ResetLayers(s, e);
      l' := Layers([], [], [], []);
    } else if e.Send? && Joined(s) {
      SendJoined(s, e.text, Given(before), l);
    } else if e.Send? {
      SendQueued(s, e.text, Given(before), l);
      QueueWithinCap(s);
      QueuedIsEnqueue(l, Written(s), Payload(e.text));
      l' := Queued(l, Written(s), Payload(e.text));
    } else if KicksEarly(s, e) {
      PendingHasSocket(s);
      KickLayers(s, Given(before), l);
      l' := Layers(l.shed, s.queue, [], []);
    } else if e.FrameArrived? && e.data.History? && s.pendingJoin.Some? {
      if Enabled(s, e) && e.g == s.generation {
        PendingHasSocket(s);
        HistoryLayers(s, Given(before), l);
        l' := Layers(l.shed, [], [], []);
      }
    } else {
      OthersUndisturbed(s, e);
      hide Apply, Written;
    }
  }

  lemma QueueWithinCap(s: Conn)
    requires Sound(s)
    ensures |s.queue| <= QUEUE_CAP
  {
  }

  lemma PendingHasSocket(s: Conn)
    requires Sound(s) && s.pendingJoin.Some?
    ensures HasSocket(s)
  {
  }

  /** In every run the frames given to `send` in the current generation are, in order, the layers
      above: shed, held, written, shed late and queued; `Held` says how many are held. */
  lemma {:induction false} SentInOrder(events: seq<Event>) returns (l: Layers)
    ensures Layered(Run(events), Given(events), l) && |l.held| == Held(events)
  {
    l := Layers([], [], [], []);
    if events != [] {
      var before, e := events[..|events| - 1], events[|events| - 1];
      assert events == before + [e];
      l := SentInOrder(before);
      AlwaysSound(before);
      OneMoreEvent(before, e);
      l := EventLayers(before, e, l);
    }
  }

  // When the order is kept.

  function Assembled(early: seq<Frame>, s: Conn, late: seq<Frame>): seq<Frame> {
    early + Written(s) + late + s.queue
  }

  /** The written frames followed by the queued ones are the given ones, less some dropped. */
  ghost predicate InOrder(s: Conn, given: seq<Frame>) {
    exists early, late :: given == Assembled(early, s, late)
  }

  predicate NoRepeats(frames: seq<Frame>) {
    forall i, j | 0 <= i < j < |frames| :: frames[i] != frames[j]
  }

  lemma LayersInOrder(s: Conn, given: seq<Frame>, l: Layers)
    requires Layered(s, given, l) && (Written(s) == [] || l.held == [])
    ensures InOrder(s, given)
  {
    if l.held == [] {
      assert given == Assembled(l.shed, s, l.late);
    } else {
      assert given == Assembled(l.shed, s, []);
    }
  }

  lemma HeldOvertaken(s: Conn, given: seq<Frame>, l: Layers)
    requires Layered(s, given, l) && Written(s) != [] && l.held != [] && NoRepeats(given)
    ensures !InOrder(s, given)
  {
    var w := Written(s);
    forall early, late ensures given != Assembled(early, s, late) {
      var i, k, all := |l.shed|, |early|, Assembled(early, s, late);
      assert given[i] == l.held[0] && given[i + |l.held|] == w[0];
      assert all[k] == w[0] && all[k + |w| + |late|] == s.queue[0] == l.held[0];
      assert given == all ==> k == i + |l.held| && k + |w| + |late| == i;
    }
  }

  /** The exact condition: the order is kept if nothing was written yet, or no frame queued before
      an early kick is queued still; and, where no two frames are alike, only then. */
  lemma OrderKeptIff(events: seq<Event>)
    ensures Written(Run(events)) == [] || Held(events) == 0 ==> InOrder(Run(events), Given(events))
    ensures NoRepeats(Given(events)) ==>
              (InOrder(Run(events), Given(events)) <==> Written(Run(events)) == [] || Held(events) == 0)
  {
    var l := SentInOrder(events);
    if Written(Run(events)) == [] || l.held == [] {
      LayersInOrder(Run(events), Given(events), l);
    } else if NoRepeats(Given(events)) {
      HeldOvertaken(Run(events), Given(events), l);
    }
    hide Run, Given, Held, Written, InOrder, NoRepeats;
  }

  /** A frame is written ahead of queued ones iff a kick ended the join of the socket, the socket is
      still open, and something is queued. */
  lemma OvertakesIff(events: seq<Event>, text: string)
    ensures var s := Run(events);
            (|Written(Apply(s, Send(text)))| > |Written(s)| && s.queue != [])
            <==> (KickedEarly(s) && SocketOpen(s) && s.queue != [])
  {
    var s := Run(events);
    AlwaysSound(events);
    var l := SentInOrder(events);
    if Joined(s) {
      SendWrites(s, text);
    } else {
      assert Written(DoSend(s, Payload(text))) == Written(s);
      assert s.pendingJoin.Some? ==> !KickedEarly(s);
    }
    hide Run, Sound, Given, Held, Written;
  }

  /** Nothing crosses over: an event adds to the current socket's wire only. */
  lemma OldWiresFrozen(s: Conn, e: Event, g: nat)
    requires g in s.sockets && g <= s.generation && (g != s.generation || Resets(s, e))
    ensures g in Apply(s, e).sockets && Apply(s, e).sockets[g].wire == s.sockets[g].wire
  {
    hide Delay, Settling;
    if Resets(s, e) {
      assert ShutSockets(s)[g].wire == s.sockets[g].wire;
      hide ShutSockets;
    } else if SocketOf(e) == Some(g) {
      OldSocketKeepsWire(s, e, g);
    } else if SocketOf(e).Some? {
      SocketEventTouchesOne(s, e);
      hide Apply;
    }
  }

  lemma OldSocketKeepsWire(s: Conn, e: Event, g: nat)
    requires g in s.sockets && SocketOf(e) == Some(g) && g != s.generation
    ensures g in Apply(s, e).sockets && Apply(s, e).sockets[g].wire == s.sockets[g].wire
  {
    hide Settling, AttemptReconnect;
  }

  /** A kick during the join is the exception: with the socket still open, a frame sent after
      it overtakes one queued before it, on a socket that was never admitted. */
  lemma EarlyKickBreaksOrder(first: string, second: string)
    ensures var joining := Apply(Apply(Apply(INIT, Connect("ann", None)), Send(first)), SocketOpened(1));
            var s := Apply(Apply(joining, FrameArrived(1, Kicked)), Send(second));
            && s.queue == [Payload(first)]
            && 1 in s.sockets && s.sockets[1].wire == [Join("ann", None), Payload(second)]
  {
    hide Apply;
    JoiningEarly(first);
    KickedThenSends(first, second);
  }

  const EARLY := Conn(Some(1), 1, Some("ann"), None, false, 0, Some(1), [], None,
                      map[1 := Socket(Connecting, false, "ann", None, true, [])], map[], 0, map[])

  lemma JoiningEarly(first: string)
    ensures Apply(INIT, Connect("ann", None)) == EARLY
    ensures Apply(EARLY, Send(first)) == EARLY.(queue := [Payload(first)])
    ensures Apply(EARLY.(queue := [Payload(first)]), SocketOpened(1))
            == EARLY.(queue := [Payload(first)], sockets := map[1 := Socket(Open, false, "ann", None, false, [Join("ann", None)])])
  {
    var open := Socket(Open, false, "ann", None, false, [Join("ann", None)]);
    assert Apply(INIT, Connect("ann", None)).sockets == EARLY.sockets;
    assert Apply(EARLY, Send(first)).queue == [Payload(first)];
    assert [] + [Join("ann", None)] == open.wire;
    assert OnOpen(EARLY.(queue := [Payload(first)]), 1).sockets[1] == open;
    assert Apply(EARLY.(queue := [Payload(first)]), SocketOpened(1)).sockets == map[1 := open];
  }

  lemma KickedThenSends(first: string, second: string)
    ensures var joining := EARLY.(queue := [Payload(first)],
                                  sockets := map[1 := Socket(Open, false, "ann", None, false, [Join("ann", None)])]);
            var kicked := joining.(pendingJoin := None, settled := map[1 := KickedOut]);
            && Apply(joining, FrameArrived(1, Kicked)) == kicked
            && Apply(kicked, Send(second)) ==
               kicked.(sockets := map[1 := Socket(Open, false, "ann", None, false, [Join("ann", None), Payload(second)])])
  {
    var open := Socket(Open, false, "ann", None, false, [Join("ann", None)]);
    var joining := EARLY.(queue := [Payload(first)], sockets := map[1 := open]);
    var kicked := joining.(pendingJoin := None, settled := map[1 := KickedOut]);
    assert Apply(joining, FrameArrived(1, Kicked)).sockets == map[1 := open];
    assert Apply(joining, FrameArrived(1, Kicked)).settled == map[1 := KickedOut];
    assert open.wire + [Payload(second)] == [Join("ann", None), Payload(second)];
    assert Apply(kicked, Send(second)).sockets == map[1 := open.(wire := [Join("ann", None), Payload(second)])];
  }
}
