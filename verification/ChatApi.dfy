/** The chat client object as the source keeps it: fields updated in place by its own methods and
    by the callbacks that `connect` installs. Every method is tied to the functions of
    `Connection`, whose run lemmas then speak about this class. */
module ChatApi {
  import opened Options
  import opened Connection
  import opened ConnectionTheorems

  lemma JoinGoesOut(s: Conn, frame: Frame)
    requires SocketOpen(s) && frame.Join?
    ensures DoSend(s, frame)
            == WithSocket(s, s.generation, s.sockets[s.generation].(wire := s.sockets[s.generation].wire + [frame]))
  {
  }

  class ChatApi {
    var ws: Option<nat>
    var connectGeneration: nat
    var reconnectUsername: Option<string>
    var reconnectToken: Option<string>
    var wasReconnecting: bool
    var reconnectAttempt: nat
    var pendingJoin: Option<nat>
    var outboundQueue: seq<Frame>
    var reconnectTimer: Option<nat>
    // What the browser keeps for the client.
    var sockets: map<nat, Socket>
    var timers: map<nat, Timer>
    var timersMade: nat
    var settled: map<nat, Outcome>

    ghost function View(): Conn
      reads this
    {
      Conn(ws, connectGeneration, reconnectUsername, reconnectToken, wasReconnecting, reconnectAttempt, pendingJoin,
           outboundQueue, reconnectTimer, sockets, timers, timersMade, settled)
    }

    ghost predicate Valid()
      reads this
    {
      Sound(View())
    }

    /** What the methods rely on: the socket held and the promise pending are the current ones. */
    predicate Current()
      reads this
    {
      && (connectGeneration in sockets <==> ws.Some?)
      && (ws.Some? ==> ws == Some(connectGeneration))
      && (pendingJoin.Some? ==> pendingJoin == Some(connectGeneration))
    }

    lemma ValidIsCurrent()
      requires Valid()
      ensures Current()
    {
    }

    constructor ()
      ensures View() == INIT
    {
      ws, connectGeneration, reconnectUsername, reconnectToken := None, 0, None, None;
      wasReconnecting, reconnectAttempt, pendingJoin := false, 0, None;
      outboundQueue, reconnectTimer := [], None;
      sockets, timers, timersMade, settled := map[], map[], 0, map[];
    }

    /** `this.ws?.close()` */
    method CloseSocket()
      requires ws.Some? ==> ws.value in sockets
      modifies this`sockets
      ensures View() == old(View()).(sockets := if ws.Some? then ToldToClose(old(sockets), ws.value) else old(sockets))
    {
      if ws.Some? {
        var socket := sockets[ws.value];
        sockets := sockets[ws.value := socket.(state := Shut(socket.state))];
      }
    }

    static function ToldToClose(sockets: map<nat, Socket>, g: nat): map<nat, Socket>
      requires g in sockets
    {
      sockets[g := sockets[g].(state := Shut(sockets[g].state))]
    }

    method Connect(username: string, token: Option<string>)
      requires Current()
      modifies this
      ensures View() == DoConnect(old(View()), username, token)
    {
      ghost var before := View();
      CloseSocket();
      assert sockets == ShutSockets(before);
      hide ToldToClose, ShutSockets;
      OpenSession(username, token);
    }

    /** A new generation with its own socket and promise. */
    method OpenSession(username: string, token: Option<string>)
      modifies this
      ensures var g := old(connectGeneration) + 1;
              View() == Conn(Some(g), g, Some(username), token, old(wasReconnecting), old(reconnectAttempt), Some(g), [],
                             old(reconnectTimer), old(sockets)[g := Socket(Connecting, false, username, token, true, [])],
                             old(timers), old(timersMade), old(settled))
    {
      outboundQueue, connectGeneration := [], connectGeneration + 1;
      reconnectUsername, reconnectToken := Some(username), token;
      pendingJoin, ws := Some(connectGeneration), Some(connectGeneration);
      sockets := sockets[connectGeneration := Socket(Connecting, false, username, token, true, [])];
    }

    /** Writes when the socket is open and joined, or the frame is the join; otherwise queues
        everything but a join and sheds the oldest of a queue over the cap. */
    method SendFrame(frame: Frame)
      requires Current()
      modifies this`sockets, this`outboundQueue
      ensures View() == DoSend(old(View()), frame)
    {
      if ws.Some? && sockets[ws.value].state == Open && (pendingJoin == None || frame.Join?) {
        var socket := sockets[ws.value];
        sockets := sockets[ws.value := socket.(wire := socket.wire + [frame])];
        return;
      }
      if !frame.Join? {
        outboundQueue := outboundQueue + [frame];
        if |outboundQueue| > QUEUE_CAP {
          outboundQueue := outboundQueue[1..];
        }
      }
    }

    method FlushOutboundQueue()
      requires Current() && ws.Some?
      modifies this`sockets, this`outboundQueue
      ensures if old(sockets[ws.value].state) == Open && pendingJoin == None then
                && outboundQueue == []
                && sockets == old(sockets)[ws.value := old(sockets[ws.value]).(wire := old(sockets[ws.value].wire + outboundQueue))]
              else View() == old(View())
    {
      if sockets[ws.value].state != Open || pendingJoin.Some? {
        return;
      }
      var queued := outboundQueue;
      outboundQueue := [];
      var socket := sockets[ws.value];
      assert socket.wire + queued[..0] == socket.wire;
      for i := 0 to |queued|
        invariant outboundQueue == []
        invariant sockets == old(sockets)[ws.value := socket.(wire := socket.wire + queued[..i])]
      {
        assert queued[..i + 1] == queued[..i] + [queued[i]];
        var open := sockets[ws.value];
        sockets := sockets[ws.value := open.(wire := open.wire + [queued[i]])];
        assert sockets[ws.value] == socket.(wire := socket.wire + queued[..i + 1]);
      }
      assert queued[..|queued|] == queued;
    }

    /** Settles the pending promise, if there is one. */
    method Settle(outcome: Outcome)
      modifies this`settled, this`pendingJoin
      ensures View() == old(View()).(pendingJoin := None,
                settled := if old(pendingJoin).Some? then old(settled)[old(pendingJoin).value := outcome] else old(settled))
    {
      if pendingJoin.Some? {
        settled := settled[pendingJoin.value := outcome];
        pendingJoin := None;
      }
    }

    method ClearJoinTimeout(gen: nat)
      requires gen in sockets
      modifies this`sockets
      ensures View() == old(View()).(sockets := old(sockets)[gen := old(sockets[gen]).(timeout := false)])
    {
      sockets := sockets[gen := sockets[gen].(timeout := false)];
    }

    /** The socket of `gen` opens: `ws.onopen`. */
    method SocketOpened(gen: nat)
      requires Current() && gen in sockets && Enabled(View(), Event.SocketOpened(gen))
      modifies this
      ensures View() == OnOpen(old(View()), gen)
    {
      sockets := sockets[gen := sockets[gen].(state := Open)];
      if gen != connectGeneration {
        return;
      }
      ClearJoinTimeout(gen);
      assert sockets == old(sockets)[gen := old(sockets[gen]).(state := Open, timeout := false)];
      if pendingJoin.Some? {
        SendJoin(gen);
        assert sockets == OnOpen(old(View()), gen).sockets;
      }
    }

    /** The attempts start again and the join goes out. */
    method SendJoin(gen: nat)
      requires Current() && gen in sockets && gen == connectGeneration && sockets[gen].state == Open
      modifies this
      ensures var socket := old(sockets)[gen];
              View() == old(View()).(attempt := 0,
                sockets := old(sockets)[gen := socket.(wire := socket.wire + [JoinFrame(socket)])])
    {
      reconnectAttempt := 0;
      JoinGoesOut(View(), JoinFrame(sockets[gen]));
      hide DoSend;
      SendFrame(JoinFrame(sockets[gen]));
    }

    /** A frame arrives on the socket of `gen`: `ws.onmessage`. */
    method FrameArrived(gen: nat, data: Incoming)
      requires Current() && gen in sockets && Enabled(View(), Event.FrameArrived(gen, data))
      modifies this
      ensures View() == OnMessage(old(View()), gen, data)
      ensures settled == if old(pendingJoin) != Some(gen) then old(settled)
                         else match data
                         case History => old(settled)[gen := Resolved]
                         case ErrorFrame(content) => old(settled)[gen := Refused(content)]
                         case Kicked => old(settled)[gen := KickedOut]
                         case _ => old(settled)
    {
      if gen != connectGeneration {
        return;
      }
      if data.ErrorFrame? && pendingJoin.Some? {
        ClearJoinTimeout(gen);
        Settle(Refused(data.content));
        sockets := sockets[gen := sockets[gen].(state := Shut(sockets[gen].state))];
        return;
      }
      if data.Kicked? && pendingJoin.Some? {
        ClearJoinTimeout(gen);
        Settle(KickedOut);
        return;
      }
      if data.Kicked? {
        reconnectUsername, reconnectToken, wasReconnecting := None, None, false;
      }
      if data.History? && pendingJoin.Some? {
        ConfirmJoin(gen);
      }
    }

    /** The `history` that confirms a join: the promise resolves and the queue goes out. */
    method ConfirmJoin(gen: nat)
      requires Current() && gen in sockets && gen == connectGeneration && pendingJoin.Some?
      requires ws == Some(gen) && sockets[gen].state == Open
      modifies this
      ensures View() == OnMessage(old(View()), gen, History)
    {
      ClearJoinTimeout(gen);
      Settle(Resolved);
      FlushOutboundQueue();
      if wasReconnecting {
        wasReconnecting := false;
      }
      ghost var confirmed := OnMessage(old(View()), gen, History);
      assert sockets == confirmed.sockets && settled == confirmed.settled;
    }

    /** The socket of `gen` is gone: `ws.onclose`. */
    method SocketClosed(gen: nat, random: real)
      requires Current() && gen in sockets && Enabled(View(), Event.SocketClosed(gen, random))
      modifies this
      ensures View() == OnClose(old(View()), gen, random)
    {
      sockets := sockets[gen := sockets[gen].(state := Closed, gone := true)];
      if gen != connectGeneration {
        return;
      }
      if pendingJoin.Some? {
        ClearJoinTimeout(gen);
        Settle(ClosedEarly);
        return;
      }
      AttemptReconnect(random);
    }

    /** The socket of `gen` fails: `ws.onerror`. */
    method SocketFailed(gen: nat)
      requires Current() && gen in sockets && Enabled(View(), Event.SocketFailed(gen))
      modifies this
      ensures View() == OnError(old(View()), gen)
    {
      sockets := sockets[gen := sockets[gen].(state := Closed)];
      if gen != connectGeneration {
        return;
      }
      if pendingJoin.Some? {
        ClearJoinTimeout(gen);
        Settle(CannotConnect);
      }
    }

    /** The 15-second timeout of `gen` fires. */
    method TimeoutFired(gen: nat)
      requires Current() && gen in sockets && Enabled(View(), Event.TimeoutFired(gen))
      modifies this
      ensures View() == OnTimeout(old(View()), gen)
    {
      sockets := sockets[gen := sockets[gen].(timeout := false)];
      if gen != connectGeneration {
        return;
      }
      Settle(TimedOut);
      sockets := sockets[gen := sockets[gen].(state := Shut(sockets[gen].state))];
    }

    method AttemptReconnect(random: real)
      modifies this`wasReconnecting, this`timers, this`reconnectTimer, this`timersMade
      ensures View() == Connection.AttemptReconnect(old(View()), random)
    {
      if !Truthy(reconnectUsername) {
        return;
      }
      if reconnectAttempt >= MAX_RECONNECT_ATTEMPTS {
        return;
      }
      wasReconnecting := true;
      var delay := Delay(reconnectAttempt, random);
      timers := timers[timersMade := Timer(reconnectUsername.value, delay)];
      reconnectTimer := Some(timersMade);
      timersMade := timersMade + 1;
    }

    /** A reconnection timer fires. */
    method TimerFired(id: nat)
      requires Current() && id in timers
      modifies this
      ensures View() == OnTimer(old(View()), id)
    {
      var username := timers[id].username;
      timers := timers - {id};
      reconnectAttempt := reconnectAttempt + 1;
      Connect(username, reconnectToken);
    }

    method Disconnect()
      requires Current()
      modifies this
      ensures View() == DoDisconnect(old(View()))
    {
      ghost var before := View();
      connectGeneration := connectGeneration + 1;
      ForgetSession();
      StopTimer();
      CloseSocket();
      assert sockets == ShutSockets(before);
      hide ToldToClose, ShutSockets;
      ws := None;
    }

    method ForgetSession()
      modifies this`wasReconnecting, this`reconnectUsername, this`reconnectToken, this`pendingJoin, this`outboundQueue
      ensures View() == old(View()).(wasReconnecting := false, username := None, token := None, pendingJoin := None, queue := [])
    {
      wasReconnecting, reconnectUsername, reconnectToken := false, None, None;
      pendingJoin, outboundQueue := None, [];
    }

    method StopTimer()
      modifies this`timers, this`reconnectTimer
      ensures View() == old(View()).(reconnectTimer := None,
                timers := if old(reconnectTimer).Some? then old(timers) - {old(reconnectTimer).value} else old(timers))
    {
      if reconnectTimer.Some? {
        timers := timers - {reconnectTimer.value};
        reconnectTimer := None;
      }
    }

    /** Whatever event comes next, the object follows the state machine and stays valid. */
    method Handle(e: Event)
      requires Valid() && Enabled(View(), e)
      modifies this
      ensures Valid() && View() == Apply(old(View()), e)
    {
      EventKeepsSound(View(), e);
      ValidIsCurrent();
      hide Valid;
      match e {
        case Connect(username, token) => Connect(username, token);
        case Send(text) => SendFrame(Payload(text));
        case Disconnect => Disconnect();
        case SocketOpened(g) => SocketOpened(g);
        case FrameArrived(g, data) => FrameArrived(g, data);
        case PeerClosing(g) => sockets := sockets[g := sockets[g].(state := Closing)];
        case SocketFailed(g) => SocketFailed(g);
        case SocketClosed(g, random) => SocketClosed(g, random);
        case TimeoutFired(g) => TimeoutFired(g);
        case TimerFired(id) => TimerFired(id);
      }
    }
  }
}
