/** The hub as it runs: a registry of client objects with their channels, changed one case of the
    event loop at a time. Each method is the event of the same name. */
module HubLoop {
  import opened Options
  import opened Hub

  class Client {
    var username: string
    var currentRoomId: string
    var queue: seq<Payload>
    var closed: bool
    ghost var taken: seq<Payload>

    constructor (room: string)
      ensures View() == Conn("", room, [], false, [])
    {
      username, currentRoomId, queue, closed, taken := "", room, [], false, [];
    }

    ghost function View(): Conn
      reads this
    {
      Conn(username, currentRoomId, queue, closed, taken)
    }

    /** `select { case c.send <- p: default: }` */
    method Send(p: Payload) returns (panics: bool)
      modifies this`queue
      ensures View() == Offered(old(View()), p) && panics == closed
    {
      if closed {
        return true;
      }
      if |queue| < CHANNEL_CAP {
        queue := queue + [p];
      }
      return false;
    }

    method Close() returns (panics: bool)
      modifies this`closed
      ensures View() == old(View()).(closed := true) && panics == old(closed)
    {
      panics := closed;
      closed := true;
    }

    /** The writer takes the next message, if there is one. */
    method Take() returns (message: Option<Payload>)
      modifies this`queue, this`taken
      ensures View() == Taken(old(View()))
      ensures message == if old(queue) == [] then None else Some(old(queue)[0])
    {
      if |queue| == 0 {
        return None;
      }
      message := Some(queue[0]);
      taken := taken + [queue[0]];
      queue := queue[1..];
    }

    method SetCurrentRoomId(room: string)
      modifies this`currentRoomId
      ensures View() == old(View()).(room := room)
    {
      currentRoomId := room;
    }
  }

  class Registry {
    var clients: set<Client>
    var panicked: bool
    /** All connections so far. */
    ghost var everyone: set<Client>

    ghost predicate Valid()
      reads this
    {
      clients <= everyone
    }

    ghost function View(): (s: State<Client>)
      reads this, everyone
      requires Valid()
      ensures WellFormed(s) && s.clients == clients && s.conns.Keys == everyone
    {
      State(clients, map c | c in everyone :: c.View(), panicked)
    }

    constructor ()
      ensures Valid() && View() == Empty() && everyone == {}
    {
      clients, panicked, everyone := {}, false, {};
      new;
      assert (map c | c in everyone :: c.View()) == map[];
    }

    method NewClient(room: string) returns (client: Client)
      requires Valid()
      modifies this`everyone
      ensures Valid() && fresh(client) && everyone == old(everyone) + {client}
      ensures View() == Step(old(View()), Connect(client, room))
    {
      client := new Client(room);
      everyone := everyone + {client};
    }

    /** One non-blocking send under the lock. */
    method SendOne(c: Client, p: Payload)
      requires Valid() && c in everyone
      modifies this`panicked, c`queue
      ensures Valid() && View() == OfferAll(old(View()), {c}, p)
    {
      ghost var before := View();
      OneTarget(before, c, p);
      hide OfferAll;
      var panics := c.Send(p);
      panicked := panicked || panics;
      assert View().conns == before.conns[c := Offered(before.conns[c], p)];
    }

    /** The loop over targets that every fan-out has. */
    method SendToEach(targets: set<Client>, p: Payload)
      requires Valid() && targets <= everyone
      modifies this`panicked, targets`queue
      ensures Valid() && View() == OfferAll(old(View()), targets, p)
    {
      ghost var before := View();
      var todo := targets;
      NoTargets(before, p);
      while todo != {}
        invariant todo <= targets && Valid()
        invariant View() == OfferAll(before, targets - todo, p)
      {
        var c :| c in todo;
        SendToOneMore(c, before, targets - todo, p);
        assert targets - (todo - {c}) == targets - todo + {c};
        todo := todo - {c};
      }
      assert targets - todo == targets;
    }

    /** Taken off the registry, its channel closed. */
    method Remove(c: Client)
      requires Valid() && c in everyone
      modifies this`clients, this`panicked, c`closed
      ensures Valid() && View() == Dropped(old(View()), {c})
    {
      ghost var before := View();
      clients := clients - {c};
      var panics := c.Close();
      panicked := panicked || panics;
      assert before.conns[c].closed == panics;
      assert View().conns == Dropped(before, {c}).conns;
    }

    /** Some other client registered under the name, in whatever order the registry is walked. */
    method FindRival(client: Client, username: string) returns (rival: Option<Client>)
      requires Valid()
      ensures Picked(View(), client, username, rival)
    {
      var todo := clients;
      while todo != {}
        invariant todo <= clients
        invariant forall c :: c in clients - todo ==> c.username != username || c == client
      {
        var c :| c in todo;
        if c.username == username && c != client {
          assert c in View().clients && View().conns[c].name == username;
          return Some(c);
        }
        todo := todo - {c};
      }
      return None;
    }

    /** A new login takes the name over. */
    method Register(client: Client, username: string) returns (kicked: Option<Client>)
      requires Valid() && client in everyone
      modifies this`clients, this`panicked, everyone
      ensures Valid() && everyone == old(everyone)
      ensures Possible(old(View()), Event.Register(client, username, kicked))
      ensures View() == Step(old(View()), Event.Register(client, username, kicked))
    {
      ghost var before := View();
      SetUsername(client, username);
      kicked := FindRival(client, username);
      assert Rivals(View(), client, username) == Rivals(before, client, username);
      hide View, OfferAll, Dropped, Rivals;
      if kicked.Some? {
        SendOne(kicked.value, Kicked);
        Remove(kicked.value);
      }
      Add(client);
    }

    method SetUsername(client: Client, username: string)
      requires Valid() && client in everyone
      modifies client`username
      ensures View() == old(View()).(conns := old(View()).conns[client := old(View()).conns[client].(name := username)])
    {
      ghost var before := View();
      client.username := username;
      assert View().conns == before.conns[client := before.conns[client].(name := username)];
    }

    method Add(client: Client)
      requires Valid() && client in everyone
      modifies this`clients
      ensures Valid() && View() == old(View()).(clients := old(View()).clients + {client})
    {
      ghost var before := View();
      clients := clients + {client};
      assert View().conns == before.conns;
    }

    /** Whoever was registered leaves, once; the rest are told, also about a client that was
        already gone. */
    method Unregister(client: Client)
      requires Valid() && client in everyone
      modifies this`clients, this`panicked, everyone
      ensures Valid() && everyone == old(everyone)
      ensures View() == Step(old(View()), Event.Unregister(client))
    {
      if client in clients {
        Remove(client);
      }
      assert View().conns[client].name == client.username;
      hide View, OfferAll, Dropped, Names;
      AnnounceLeft(client.username);
      SendToEach(clients, UserStatus);
    }

    method AnnounceLeft(username: string)
      requires Valid()
      modifies this`panicked, everyone`queue
      ensures Valid()
      ensures View() == if username != "" then OfferAll(old(View()), old(View()).clients, UserLeft(username, Names(old(View()))))
                        else old(View())
    {
      hide View, OfferAll, Names;
      if username != "" {
        var online := OnlineUsers();
        SendToEach(clients, UserLeft(username, set n | n in online));
      }
    }

    method Broadcast(message: Payload)
      requires Valid()
      modifies this`panicked, everyone
      ensures Valid() && everyone == old(everyone) && View() == Step(old(View()), Event.Broadcast(message))
    {
      SendToEach(clients, message);
    }

    method SyncTick()
      requires Valid()
      modifies this`panicked, everyone
      ensures Valid() && everyone == old(everyone) && View() == Step(old(View()), Event.SyncTick)
    {
      var online := OnlineUsers();
      SendToEach(clients, Payload.OnlineUsers(set n | n in online));
    }

    method SendToClient(c: Client, message: Payload)
      requires Valid()
      modifies this`panicked, everyone
      ensures Valid() && everyone == old(everyone) && View() == Step(old(View()), SendTo(c, message))
    {
      if c !in clients {
        return;
      }
      SendOne(c, message);
    }

    method BroadcastToRoom(message: Payload, room: string)
      requires Valid()
      modifies this`panicked, everyone
      ensures Valid() && everyone == old(everyone) && View() == Step(old(View()), ToRoom(message, room))
    {
      if room == "" {
        assert InRoom(View(), room) == clients;
        SendToEach(clients, message);
        return;
      }
      SendToMembers(message, room);
    }

    method SendToMembers(message: Payload, room: string)
      requires Valid() && room != ""
      modifies this`panicked, everyone`queue
      ensures Valid() && View() == OfferAll(old(View()), InRoom(old(View()), room), message)
    {
      ghost var before := View();
      ghost var members := InRoom(before, room);
      var todo := clients;
      NoTargets(before, message);
      assert members - todo == {};
      assert forall c :: c in clients ==> (c in members <==> c.currentRoomId == room);
      hide View, OfferAll, InRoom;
      while todo != {}
        invariant todo <= clients && Valid()
        invariant View() == OfferAll(before, members - todo, message)
      {
        var c :| c in todo;
        OneLess(members, todo, c);
        if c.currentRoomId == room {
          SendToOneMore(c, before, members - todo, message);
        }
        todo := todo - {c};
      }
      assert members - todo == members;
    }

    method SendToOneMore(c: Client, ghost before: State<Client>, ghost sent: set<Client>, message: Payload)
      requires Valid() && c in everyone && c !in sent && sent <= before.conns.Keys == everyone
      requires View() == OfferAll(before, sent, message)
      modifies this`panicked, c`queue
      ensures Valid() && View() == OfferAll(before, sent + {c}, message)
    {
      hide View, OfferAll;
      OneMoreTarget(before, sent, c, message);
      SendOne(c, message);
    }

    /** Every name once, the empty one never. */
    method OnlineUsers() returns (users: seq<string>)
      requires Valid()
      ensures forall i, j | 0 <= i < j < |users| :: users[i] != users[j]
      ensures (set n | n in users) == Names(View())
    {
      users := [];
      var seen: set<string> := {};
      var todo := clients;
      while todo != {}
        invariant todo <= clients
        invariant forall n :: n in seen <==> n in users
        invariant forall i, j | 0 <= i < j < |users| :: users[i] != users[j]
        invariant seen == set c | c in clients - todo && c.username != "" :: c.username
      {
        var c :| c in todo;
        if c.username != "" && c.username !in seen {
          seen := seen + {c.username};
          users := users + [c.username];
        }
        todo := todo - {c};
      }
      NamesAre(seen);
    }

    lemma NamesAre(names: set<string>)
      requires Valid() && names == set c | c in clients && c.username != "" :: c.username
      ensures names == Names(View())
    {
      var s := View();
      assert forall c :: c in clients ==> s.conns[c].name == c.username;
      forall n | n in names ensures n in Names(s) {
        var c :| c in clients && c.username != "" && c.username == n;
        assert c in s.clients && s.conns[c].name == n;
      }
      forall n | n in Names(s) ensures n in names {
        var c :| c in s.clients && s.conns[c].name != "" && s.conns[c].name == n;
        assert c in clients && c.username == n;
      }
    }

    /** Every registered channel is closed and the registry emptied. */
    method Shutdown()
      requires Valid()
      modifies this`clients, this`panicked, everyone
      ensures Valid() && everyone == old(everyone) && View() == Step(old(View()), Event.Shutdown)
    {
      ghost var before := View();
      var todo := clients;
      ghost var done: set<Client> := {};
      NoneClosed(before);
      hide View, Dropped;
      while todo != {}
        invariant todo <= clients == done + todo && done !! todo && clients == before.clients
        invariant Valid() && everyone == old(everyone) == before.conns.Keys
        invariant View() == Dropped(before, done).(clients := before.clients)
      {
        var c :| c in todo;
        OneMoreClosed(before, done, c);
        CloseOne(c);
        todo, done := todo - {c}, done + {c};
      }
      assert done == before.clients;
      Clear();
    }

    method Clear()
      requires Valid()
      modifies this`clients
      ensures Valid() && View() == old(View()).(clients := {})
    {
      ghost var before := View();
      clients := {};
      assert View().conns == before.conns;
    }

    method CloseOne(c: Client)
      requires Valid() && c in clients
      modifies this`panicked, c`closed
      ensures Valid() && View() == Dropped(old(View()), {c}).(clients := old(View()).clients)
    {
      ghost var before := View();
      OneDropped(before, c);
      hide Dropped;
      var panics := c.Close();
      panicked := panicked || panics;
      assert View().conns == before.conns[c := before.conns[c].(closed := true)];
    }
  }

  lemma OneMoreClosed<C>(s: State<C>, done: set<C>, c: C)
    requires done <= s.conns.Keys && c in s.conns && c !in done
    ensures Dropped(Dropped(s, done).(clients := s.clients), {c}).(clients := s.clients)
            == Dropped(s, done + {c}).(clients := s.clients)
  {
    var one, both := Dropped(Dropped(s, done).(clients := s.clients), {c}), Dropped(s, done + {c});
    assert one.conns == both.conns;
    assert one.panicked == both.panicked;
  }

  lemma NoneClosed<C>(s: State<C>)
    ensures Dropped(s, {}) == s
  {
    assert Dropped(s, {}).conns == s.conns;
  }

  lemma OneLess<C>(members: set<C>, todo: set<C>, c: C)
    requires c in todo
    ensures members - (todo - {c}) == if c in members then members - todo + {c} else members - todo
  {
  }

  lemma OneTarget<C>(s: State<C>, c: C, p: Payload)
    requires c in s.conns
    ensures OfferAll(s, {c}, p)
            == s.(conns := s.conns[c := Offered(s.conns[c], p)], panicked := s.panicked || s.conns[c].closed)
  {
    assert OfferAll(s, {c}, p).conns == s.conns[c := Offered(s.conns[c], p)];
    assert c in {c};
  }

  lemma OneDropped<C>(s: State<C>, c: C)
    requires c in s.conns
    ensures Dropped(s, {c}) == State(s.clients - {c}, s.conns[c := s.conns[c].(closed := true)],
                                     s.panicked || s.conns[c].closed)
  {
    assert Dropped(s, {c}).conns == s.conns[c := s.conns[c].(closed := true)];
    assert c in {c};
  }

  lemma NoTargets<C>(s: State<C>, p: Payload)
    ensures OfferAll(s, {}, p) == s
  {
    assert OfferAll(s, {}, p).conns == s.conns;
  }

  lemma OneMoreTarget<C>(s: State<C>, targets: set<C>, c: C, p: Payload)
    requires targets <= s.conns.Keys && c in s.conns && c !in targets
    ensures OfferAll(OfferAll(s, targets, p), {c}, p) == OfferAll(s, targets + {c}, p)
  {
    var one, both := OfferAll(OfferAll(s, targets, p), {c}, p), OfferAll(s, targets + {c}, p);
    assert one.conns == both.conns;
    assert one.panicked == both.panicked;
  }
}
