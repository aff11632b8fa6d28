/** How long a client keeps reconnecting, and what stops it. */
module ConnectionRecovery {
  import opened Options
  import opened Connection
  import opened ConnectionTheorems

  /** The jitter moves a delay by at most a fifth, and rounding does not move it further. */
  lemma DelayWithinAFifth(attempt: nat, random: real)
    requires 0.0 <= random < 1.0
    ensures 4 * RawDelay(attempt) <= 5 * Delay(attempt, random) <= 6 * RawDelay(attempt)
  {
    RawDelayDivides(attempt);
    JitterWithinAFifth(attempt, random);
    var fifth := RawDelay(attempt) / 5;
    hide RawDelay, Jitter;
    RoundBetween(RawDelay(attempt) as real + Jitter(attempt, random), 4 * fifth, 6 * fifth);
  }

  /** The exact delay: somewhere between 80 and 120 per cent of 1, 2, 4, ... seconds, at most thirty,
      as the random number lies between 0 and 1; to the nearest millisecond, halves up. */
  lemma DelayIsRounded(attempt: nat, random: real)
    ensures var raw := if 1000 * Pow2(attempt) < 30000 then 1000 * Pow2(attempt) else 30000;
            var exact := raw as real * (0.8 + 0.4 * random);
            exact - 0.5 < Delay(attempt, random) as real <= exact + 0.5
  {
    JitterSpreads(RawDelay(attempt) as real, random);
    hide Pow2;
  }

  lemma JitterSpreads(raw: real, random: real)
    ensures raw + raw * 0.2 * (random * 2.0 - 1.0) == raw * (0.8 + 0.4 * random)
  {
  }

  lemma JitterWithinAFifth(attempt: nat, random: real)
    requires 0.0 <= random < 1.0
    ensures -(RawDelay(attempt) as real) <= 5.0 * Jitter(attempt, random) <= RawDelay(attempt) as real
  {
    hide RawDelay;
    ProductBound(RawDelay(attempt) as real * 0.2, random * 2.0 - 1.0);
  }

  lemma RoundBetween(y: real, lo: int, hi: int)
    requires lo as real <= y <= hi as real
    ensures lo <= (y + 0.5).Floor <= hi
  {
  }

  lemma ProductBound(a: real, x: real)
    requires a >= 0.0 && -1.0 <= x <= 1.0
    ensures -a <= a * x <= a
  {
  }

  lemma RawDelayDivides(attempt: nat)
    ensures RawDelay(attempt) % 5 == 0
  {
    var d := BASE_DELAY * Pow2(attempt);
    assert d == 5 * (200 * Pow2(attempt));
  }

  /** The longest possible wait for the first n attempts. */
  function WaitBudget(n: nat): nat {
    if n == 0 then 0 else WaitBudget(n - 1) + 6 * RawDelay(n - 1) / 5
  }

  lemma WholeBudget()
    ensures WaitBudget(MAX_RECONNECT_ATTEMPTS) == 217200
  {
    assert Pow2(1) == 2 && Pow2(2) == 4 && Pow2(3) == 8 && Pow2(4) == 16 && Pow2(5) == 32;
    assert WaitBudget(5) == 37200;
    LongDelays(5);
    LongDelays(6);
    LongDelays(7);
    LongDelays(8);
    LongDelays(9);
    assert WaitBudget(6) == 73200 && WaitBudget(7) == 109200 && WaitBudget(8) == 145200;
    assert WaitBudget(9) == 181200;
  }

  lemma {:induction false} LongDelays(k: nat)
    requires k >= 5
    ensures RawDelay(k) == MAX_DELAY && Pow2(k) >= 32
  {
    if k > 5 {
      LongDelays(k - 1);
    } else {
      assert Pow2(1) == 2 && Pow2(2) == 4 && Pow2(3) == 8 && Pow2(4) == 16;
    }
  }

  /** A join that reaches an open socket: the attempts start again. */
  predicate Opens(s: Conn, e: Event) {
    Enabled(s, e) && e.SocketOpened? && e.g == s.generation && s.pendingJoin.Some?
  }

  /** Sockets opened by a timer since the last successful open, and the time those timers ran. */
  function TimerSockets(events: seq<Event>): nat {
    if events == [] then 0
    else
      var before, e := events[..|events| - 1], events[|events| - 1];
      if Opens(Run(before), e) then 0
      else if e.TimerFired? && e.id in Run(before).timers then TimerSockets(before) + 1
      else TimerSockets(before)
  }

  function Waited(events: seq<Event>): int {
    if events == [] then 0
    else
      var before, e := events[..|events| - 1], events[|events| - 1];
      if Opens(Run(before), e) then 0
      else if e.TimerFired? && e.id in Run(before).timers then Waited(before) + Run(before).timers[e.id].delay
      else Waited(before)
  }

  /** The caller never connects while a reconnection timer is armed. */
  predicate Patient(events: seq<Event>) {
    events != [] ==>
      var before, e := events[..|events| - 1], events[|events| - 1];
      Patient(before) && (e.Connect? ==> Run(before).timers == map[])
  }

  /** At most the timer the client holds is armed, and only once its socket is gone. */
  predicate OneTimer(s: Conn) {
    && s.attempt <= MAX_RECONNECT_ATTEMPTS
    && (forall id | id in s.timers ::
          && s.reconnectTimer == Some(id) && id < s.timersMade
          && s.attempt < MAX_RECONNECT_ATTEMPTS
          && 5 * s.timers[id].delay <= 6 * RawDelay(s.attempt)
          && HasSocket(s) && s.sockets[s.generation].gone && s.pendingJoin == None)
  }

  /** Only a close arms a timer; the other events of a socket leave what timers rely on. */
  predicate TimersKept(s: Conn, s': Conn) {
    && s'.timers == s.timers && s'.timersMade == s.timersMade && s'.reconnectTimer == s.reconnectTimer
    && s'.generation == s.generation && s'.ws == s.ws
    && (s'.pendingJoin == None || s'.pendingJoin == s.pendingJoin)
    && (s'.attempt == s.attempt || (s'.attempt == 0 && s.pendingJoin.Some?))
    && (s'.username == s.username || s'.username == None)
  }

  lemma FrameKeepsTimers(s: Conn, g: nat, data: Incoming)
    requires g in s.sockets
    ensures TimersKept(s, OnMessage(s, g, data))
  {
  }

  lemma SocketEventKeepsTimers(s: Conn, e: Event)
    requires Enabled(s, e) && SocketOf(e).Some? && !e.SocketClosed?
    ensures TimersKept(s, Apply(s, e))
  {
    match e
    case SocketOpened(g) => assert TimersKept(s, OnOpen(s, g));
    case FrameArrived(g, data) => FrameKeepsTimers(s, g, data);
    case PeerClosing(g) => assert TimersKept(s, WithSocket(s, g, s.sockets[g].(state := Closing)));
    case SocketFailed(g) => assert TimersKept(s, OnError(s, g));
    case TimeoutFired(g) => assert TimersKept(s, OnTimeout(s, g));
    hide OnOpen, OnMessage, OnError, OnTimeout, WithSocket, TimersKept;
  }

  lemma EventKeepsOneTimer(s: Conn, e: Event)
    requires Sound(s) && OneTimer(s) && (e.Connect? ==> s.timers == map[])
    ensures OneTimer(Apply(s, e))
  {
    if e.SocketClosed? && Enabled(s, e) {
      CloseKeepsOneTimer(s, e.g, e.random);
    } else if Enabled(s, e) && SocketOf(e).Some? {
      SocketAt(s, SocketOf(e).value);
      SocketEventKeepsTimers(s, e);
      SocketEventTouchesOne(s, e);
      hide Sound, RawDelay, Apply;
    } else {
      hide Sound, Delay, RawDelay, ShutSockets;
    }
  }

  lemma CloseKeepsOneTimer(s: Conn, g: nat, random: real)
    requires Sound(s) && OneTimer(s) && Enabled(s, SocketClosed(g, random))
    ensures OneTimer(OnClose(s, g, random))
  {
    SocketAt(s, g);
    if g == s.generation {
      assert s.timers == map[];
    }
    DelayWithinAFifth(s.attempt, random);
    hide Sound, Delay, RawDelay;
  }

  lemma {:induction false} AlwaysOneTimer(events: seq<Event>)
    requires Patient(events)
    ensures OneTimer(Run(events))
  {
    if events != [] {
      var before := events[..|events| - 1];
      AlwaysOneTimer(before);
      AlwaysSound(before);
      EventKeepsOneTimer(Run(before), events[|events| - 1]);
    }
  }

  lemma AttemptAfter(s: Conn, e: Event)
    ensures Apply(s, e).attempt == if Opens(s, e) then 0
                                   else if e.TimerFired? && e.id in s.timers then s.attempt + 1
                                   else s.attempt
  {
    hide Delay, RawDelay, ShutSockets;
    match e
    case SocketOpened(g) =>
    case FrameArrived(g, data) =>
    case SocketClosed(g, random) =>
    case TimeoutFired(g) =>
    case _ =>
  }

  lemma {:induction false} WithinBudget(events: seq<Event>)
    requires Patient(events)
    ensures TimerSockets(events) == Run(events).attempt && Waited(events) <= WaitBudget(Run(events).attempt)
  {
    if events != [] {
      var before, e := events[..|events| - 1], events[|events| - 1];
      assert Patient(before) && events == before + [e];
      hide Patient, Run, Waited, TimerSockets, WaitBudget, Apply;
      WithinBudget(before);
      AlwaysOneTimer(before);
      OneMoreEvent(before, e);
      BudgetStep(before, e);
    }
  }

  /** Reconnection is bounded: between two successful opens a patient caller's client opens at
      most ten sockets by itself, after waiting at most 217.2 seconds in all. */
  lemma ReconnectionIsBounded(events: seq<Event>)
    requires Patient(events)
    ensures TimerSockets(events) == Run(events).attempt <= 10
    ensures Waited(events) <= WaitBudget(Run(events).attempt) <= 217200
  {
    hide Patient, Run, Waited, TimerSockets, WaitBudget;
    AlwaysOneTimer(events);
    WithinBudget(events);
    BudgetGrows(Run(events).attempt, MAX_RECONNECT_ATTEMPTS);
    WholeBudget();
  }

  lemma BudgetStep(before: seq<Event>, e: Event)
    requires OneTimer(Run(before))
    requires TimerSockets(before) == Run(before).attempt && Waited(before) <= WaitBudget(Run(before).attempt)
    ensures var attempt := Apply(Run(before), e).attempt;
            TimerSockets(before + [e]) == attempt && Waited(before + [e]) <= WaitBudget(attempt)
  {
    var s := Run(before);
    CountersStep(before, e);
    AttemptAfter(s, e);
    assert WaitBudget(0) == 0;
    assert WaitBudget(s.attempt + 1) == WaitBudget(s.attempt) + 6 * RawDelay(s.attempt) / 5;
    hide Apply, Run, RawDelay, WaitBudget, Waited, TimerSockets, Opens;
  }

  lemma CountersStep(before: seq<Event>, e: Event)
    ensures var s := Run(before);
            var fires := e.TimerFired? && e.id in s.timers;
            && TimerSockets(before + [e])
               == (if Opens(s, e) then 0 else if fires then TimerSockets(before) + 1 else TimerSockets(before))
            && Waited(before + [e])
               == (if Opens(s, e) then 0 else if fires then Waited(before) + s.timers[e.id].delay else Waited(before))
  {
    hide Run, Opens;
    assert (before + [e])[..|before|] == before;
  }

  lemma {:induction false} BudgetGrows(m: nat, n: nat)
    requires m <= n
    ensures WaitBudget(m) <= WaitBudget(n)
    decreases n
  {
    if m < n {
      BudgetGrows(m, n - 1);
    }
  }

  // What stops the client.

  predicate ConnectFree(more: seq<Event>) {
    forall i | 0 <= i < |more| :: !more[i].Connect?
  }

  /** A kick that arrives once joined. */
  predicate LateKick(s: Conn, e: Event) {
    Enabled(s, e) && e.FrameArrived? && e.data.Kicked? && e.g == s.generation && s.pendingJoin == None
  }

  /** With no name to reconnect under and no timer armed, nothing but the caller's `connect`
      opens a socket. */
  lemma {:induction false} StaysOffline(events: seq<Event>, more: seq<Event>)
    requires Run(events).timers == map[] && !Truthy(Run(events).username)
    requires ConnectFree(more)
    ensures Run(events + more).sockets.Keys == Run(events).sockets.Keys
    ensures Run(events + more).timers == map[] && !Truthy(Run(events + more).username)
  {
    if more == [] {
      assert events + more == events;
    } else {
      var n := |more| - 1;
      assert events + more == (events + more[..n]) + [more[n]];
      StaysOffline(events, more[..n]);
      OneMoreEvent(events + more[..n], more[n]);
      AlwaysSound(events + more[..n]);
      OfflineStep(Run(events + more[..n]), more[n]);
      hide Run, Apply;
    }
  }

  lemma OfflineStep(s: Conn, e: Event)
    requires Sound(s) && s.timers == map[] && !Truthy(s.username) && !e.Connect?
    ensures Apply(s, e).sockets.Keys == s.sockets.Keys
    ensures Apply(s, e).timers == map[] && !Truthy(Apply(s, e).username)
  {
    assert s.pendingJoin.Some? ==> HasSocket(s);
    hide Sound, Delay;
    if Enabled(s, e) && SocketOf(e).Some? {
      SocketEventOffline(s, e);
    }
  }

  lemma SocketEventOffline(s: Conn, e: Event)
    requires Enabled(s, e) && SocketOf(e).Some? && !Truthy(s.username)
    ensures Apply(s, e).sockets.Keys == s.sockets.Keys
    ensures Apply(s, e).timers == s.timers && !Truthy(Apply(s, e).username)
  {
    SocketEventTouchesOne(s, e);
    if e.SocketClosed? {
      assert !MayReconnect(WithSocket(s, e.g, s.sockets[e.g].(state := Closed, gone := true)));
    } else {
      SocketEventKeepsTimers(s, e);
      hide Apply;
    }
  }

  /** After `disconnect`, or a kick that arrives once joined, a patient caller's client is off
      for good: whatever happens next opens no socket until the caller connects. */
  lemma DisconnectOrKickIsFinal(events: seq<Event>, e: Event, more: seq<Event>)
    requires Patient(events)
    requires (e.Disconnect? || LateKick(Run(events), e)) && ConnectFree(more)
    ensures Run(events + [e] + more).sockets.Keys == Run(events).sockets.Keys
  {
    AlwaysOneTimer(events);
    AlwaysSound(events);
    OneMoreEvent(events, e);
    TimersGone(Run(events), e);
    StaysOffline(events + [e], more);
  }

  lemma TimersGone(s: Conn, e: Event)
    requires Sound(s) && OneTimer(s)
    requires e.Disconnect? || LateKick(s, e)
    ensures Apply(s, e).timers == map[] && !Truthy(Apply(s, e).username)
    ensures Apply(s, e).sockets.Keys == s.sockets.Keys
  {
    if e.FrameArrived? {
      SocketAt(s, e.g);
      assert s.timers == map[];
    } else {
      assert s.timers != map[] ==> s.reconnectTimer.Some?;
      assert Apply(s, e).timers == map[];
    }
  }

  /** Whatever happens next, short of the caller's `connect`, opens no socket. */
  ghost predicate Final(events: seq<Event>) {
    forall more | ConnectFree(more) :: Run(events + more).sockets.Keys == Run(events).sockets.Keys
  }

  lemma FinalIffNoTimer(events: seq<Event>)
    requires !Truthy(Run(events).username)
    ensures Final(events) <==> Run(events).timers == map[]
  {
    if Run(events).timers == map[] {
      forall more | ConnectFree(more) ensures Run(events + more).sockets.Keys == Run(events).sockets.Keys {
        StaysOffline(events, more);
      }
    } else {
      var id :| id in Run(events).timers;
      OneMoreEvent(events, TimerFired(id));
      AlwaysSound(events);
      TimerOpensSocket(Run(events), id);
      assert ConnectFree([TimerFired(id)]);
      hide Run, Apply;
    }
  }

  lemma TimerOpensSocket(s: Conn, id: nat)
    requires Sound(s) && id in s.timers
    ensures Apply(s, TimerFired(id)).sockets.Keys != s.sockets.Keys
  {
    ShutBeforeNext(s);
    assert s.generation + 1 in Apply(s, TimerFired(id)).sockets;
  }

  /** Patient or not, `disconnect` is final exactly when the only timer armed is the one whose
      handle the client still holds. */
  lemma DisconnectIsFinalIff(events: seq<Event>)
    ensures Final(events + [Disconnect])
            <==> forall id | id in Run(events).timers :: Run(events).reconnectTimer == Some(id)
  {
    OneMoreEvent(events, Disconnect);
    DisconnectStopsTimersIff(Run(events));
    FinalIffNoTimer(events + [Disconnect]);
    hide Final, Run;
  }

  lemma DisconnectStopsTimersIff(s: Conn)
    ensures Apply(s, Disconnect).timers == map[] <==> forall id | id in s.timers :: s.reconnectTimer == Some(id)
  {
    var left := Apply(s, Disconnect).timers;
    if forall id | id in s.timers :: s.reconnectTimer == Some(id) {
      assert forall id :: id !in left;
    } else {
      var id :| id in s.timers && s.reconnectTimer != Some(id);
      assert id in left;
    }
  }

  /** A kick that arrives once joined stops no timer: it is final exactly when none is armed. */
  lemma LateKickIsFinalIff(events: seq<Event>, g: nat)
    requires LateKick(Run(events), FrameArrived(g, Kicked))
    ensures Final(events + [FrameArrived(g, Kicked)]) <==> Run(events).timers == map[]
  {
    OneMoreEvent(events, FrameArrived(g, Kicked));
    FinalIffNoTimer(events + [FrameArrived(g, Kicked)]);
    hide Final, Run;
  }

  /** And an impatient caller can get there. If `connect` is called while a timer is armed and
      that connection fails, a second timer takes over the handle; `disconnect` then misses the
      first one, which fires and opens a socket after all. */
  lemma ImpatienceSurvivesDisconnect(s: Conn, id: nat, username: string, random: real)
    requires Sound(s) && id in s.timers && s.attempt < MAX_RECONNECT_ATTEMPTS
    requires username != "" && 0.0 <= random < 1.0
    ensures var g := s.generation + 1;
            var dropped := Apply(Apply(Apply(s, Connect(username, None)), SocketFailed(g)), SocketClosed(g, random));
            var stopped := Apply(dropped, Disconnect);
            && id in stopped.timers && stopped.ws == None
            && Apply(stopped, TimerFired(id)).ws == Some(g + 2)
  {
    assert id < s.timersMade;
    SecondTimer(s, id, username, random);
    var g := s.generation + 1;
    var dropped := Apply(Apply(Apply(s, Connect(username, None)), SocketFailed(g)), SocketClosed(g, random));
    assert Apply(s, Connect(username, None)) == DoConnect(s, username, None);
    hide Apply, DoConnect, Sound;
    StrayTimerFires(dropped, id);
  }

  /** The same with a kick: the caller connects while a timer is armed, joins, and is kicked; the
      timer is armed still, and opens a socket although the kick was to prevent just that. */
  lemma ImpatienceSurvivesKick(s: Conn, id: nat, username: string)
    requires Sound(s) && id in s.timers
    ensures var g := s.generation + 1;
            var joined := Apply(Apply(Apply(s, Connect(username, None)), SocketOpened(g)), FrameArrived(g, History));
            var kicked := Apply(joined, FrameArrived(g, Kicked));
            && LateKick(joined, FrameArrived(g, Kicked)) && id in kicked.timers
            && Apply(kicked, TimerFired(id)).ws == Some(g + 1)
  {
    var g := s.generation + 1;
    JoinsAgain(s, username);
    var open := Apply(Apply(s, Connect(username, None)), SocketOpened(g));
    hide ShutSockets, Delay, OnOpen, DoConnect;
    var joined := Apply(open, FrameArrived(g, History));
    assert joined.sockets[g].state == Open && joined.pendingJoin == None && joined.timers == s.timers;
    KickedAndFires(joined, g, id);
  }

  lemma JoinsAgain(s: Conn, username: string)
    ensures var g := s.generation + 1;
            var open := Apply(Apply(s, Connect(username, None)), SocketOpened(g));
            open.pendingJoin == Some(g) && g in open.sockets && open.sockets[g].state == Open
            && open.timers == s.timers && open.generation == g && open.ws == Some(g)
  {
    hide ShutSockets;
  }

  lemma KickedAndFires(joined: Conn, g: nat, id: nat)
    requires g in joined.sockets && joined.sockets[g].state == Open && joined.generation == g
    requires joined.pendingJoin == None && id in joined.timers
    ensures var kicked := Apply(joined, FrameArrived(g, Kicked));
            LateKick(joined, FrameArrived(g, Kicked)) && id in kicked.timers
            && Apply(kicked, TimerFired(id)).ws == Some(g + 1)
  {
    hide ShutSockets;
  }

  /** A timer is armed in three events: a first connection that fails. */
  lemma TimerGetsArmed(username: string, random: real)
    requires username != "" && 0.0 <= random < 1.0
    ensures 0 in Run([Connect(username, None)] + [SocketFailed(1)] + [SocketClosed(1, random)]).timers
  {
    var e1: seq<Event> := [Connect(username, None)];
    var e2 := e1 + [SocketFailed(1)];
    assert e1 == [] + e1 && Run([]) == INIT;
    OneMoreEvent([], Connect(username, None));
    OneMoreEvent(e1, SocketFailed(1));
    OneMoreEvent(e2, SocketClosed(1, random));
    hide Run, Delay;
    var failed := Apply(DoConnect(INIT, username, None), SocketFailed(1));
    assert failed.pendingJoin == None && failed.username == Some(username) && failed.attempt == 0 && failed.timersMade == 0;
    assert 1 in failed.sockets && !failed.sockets[1].gone && failed.generation == 1;
    hide OnError, DoConnect;
  }

  lemma StrayTimerFires(s: Conn, id: nat)
    requires id in s.timers && s.reconnectTimer != Some(id)
    ensures var stopped := Apply(s, Disconnect);
            && id in stopped.timers && stopped.ws == None
            && Apply(stopped, TimerFired(id)).ws == Some(s.generation + 2)
  {
    hide ShutSockets;
  }

  lemma SecondTimer(s: Conn, id: nat, username: string, random: real)
    requires id in s.timers && id < s.timersMade && username != "" && 0.0 <= random < 1.0
    requires s.attempt < MAX_RECONNECT_ATTEMPTS
    ensures var g := s.generation + 1;
            var dropped := Apply(Apply(DoConnect(s, username, None), SocketFailed(g)), SocketClosed(g, random));
            && dropped.generation == g
            && id in dropped.timers && dropped.reconnectTimer == Some(s.timersMade)
  {
    hide Delay, ShutSockets;
    var g := s.generation + 1;
    var failed := Apply(DoConnect(s, username, None), SocketFailed(g));
    assert failed.pendingJoin == None && failed.timers == s.timers && MayReconnect(failed);
  }

  /** A socket that closes arms a timer iff it is the current one, no promise is pending, a name
      is known and fewer than ten attempts were made; the timer has that name and the delay of the
      attempts made, and its handle replaces the one held. */
  lemma CloseArmsTimerIff(s: Conn, g: nat, random: real)
    requires Sound(s) && Enabled(s, SocketClosed(g, random))
    ensures var s' := Apply(s, SocketClosed(g, random));
            if g == s.generation && s.pendingJoin == None && s.username.Some? && s.username.value != "" && s.attempt < 10
            then s.timersMade !in s.timers && s'.reconnectTimer == Some(s.timersMade) && s'.timersMade == s.timersMade + 1
                 && s'.timers == s.timers[s.timersMade := Timer(s.username.value, Delay(s.attempt, random))]
            else s'.timers == s.timers && s'.reconnectTimer == s.reconnectTimer && s'.timersMade == s.timersMade
  {
    assert s.timersMade !in s.timers;
    hide Delay, SocketsSound;
  }

  /** So a first connection that fails with an error event does reconnect by itself, although
      it rejects the caller's promise: the error settles the promise, and the close event that
      follows finds none pending. */
  lemma FailedFirstConnectionReconnects(s: Conn, random: real)
    requires Sound(s) && s.pendingJoin.Some? && MayReconnect(s) && 0.0 <= random < 1.0
    requires s.generation in s.sockets && s.sockets[s.generation].state != Closed
    ensures var g := s.generation;
            var closed := Apply(Apply(s, SocketFailed(g)), SocketClosed(g, random));
            && g in closed.settled && closed.settled[g] == CannotConnect
            && closed.timers != s.timers
  {
    var g := s.generation;
    SocketAt(s, g);
    ErrorKeepsSound(s, g);
    var failed := OnError(s, g);
    CloseArmsTimerIff(failed, g, random);
    hide Sound, Delay;
    assert OnClose(failed, g, random).settled == failed.settled;
    hide OnClose;
  }
}
