/** What every run of the hub keeps. */
module HubTheorems {
  import opened Options
  import opened Hub

  /** Open channels for all who are registered, closed ones for all who were. */
  predicate Sound<C>(s: State<C>, events: seq<Event<C>>) {
    && WellFormed(s) && !s.panicked
    && (forall c :: c in s.clients ==> EverRegistered(events, c) && !s.conns[c].closed)
    && (forall c :: c in s.conns ==> (s.conns[c].closed <==> EverRegistered(events, c) && c !in s.clients))
  }

  /** The registry is the fold over the run. */
  ghost predicate Owned<C>(s: State<C>, events: seq<Event<C>>)
    requires WellFormed(s)
  {
    && (forall c :: c in s.clients ==> Owner(events, s.conns[c].name) == Some(c))
    && (forall n :: Owner(events, n).Some? ==> Holds(s, Owner(events, n).value, n))
  }

  predicate Holds<C>(s: State<C>, c: C, name: string)
    requires WellFormed(s)
  {
    c in s.clients && s.conns[c].name == name
  }

  lemma OneMoreRegistered<C>(events: seq<Event<C>>, e: Event<C>, c: C)
    ensures EverRegistered(events + [e], c) <==> EverRegistered(events, c) || (e.Register? && e.c == c)
  {
    var all := events + [e];
    if EverRegistered(events, c) {
      var i :| 0 <= i < |events| && events[i].Register? && events[i].c == c;
      assert all[i].Register? && all[i].c == c;
    }
    if e.Register? && e.c == c {
      assert all[|events|].Register? && all[|events|].c == c;
    }
  }

  lemma OneMoreEvent<C>(events: seq<Event<C>>, e: Event<C>)
    requires Executes(events + [e])
    ensures Executes(events) && Possible(Run(events), e) && Run(events + [e]) == Step(Run(events), e)
  {
    assert (events + [e])[..|events|] == events;
  }

  lemma OwnerSteps<C>(events: seq<Event<C>>, e: Event<C>, name: string)
    ensures var before := Owner(events, name);
            Owner(events + [e], name) == match e
            case Register(c, n, _) => if n == name then Some(c) else before
            case Unregister(c) => if before == Some(c) then None else before
            case Shutdown => None
            case _ => before
  {
    assert (events + [e])[..|events|] == events;
  }

  // Channel safety.

  /** Exactly one event can put a closed channel into the registry: a second join on a connection
      that was dropped. */
  lemma StaysOpenIff<C>(s: State<C>, e: Event<C>)
    requires WellFormed(s) && Possible(s, e) && forall c :: c in s.clients ==> !s.conns[c].closed
    ensures (forall c :: c in Step(s, e).clients ==> !Step(s, e).conns[c].closed)
            <==> !(e.Register? && s.conns[e.c].closed)
    ensures Step(s, e).panicked == s.panicked
  {
    if e.Register? {
      assert e.c in Step(s, e).clients && Step(s, e).conns[e.c].closed == s.conns[e.c].closed;
    }
  }

  lemma Quiet<C>(s: State<C>, e: Event<C>)
    requires WellFormed(s) && Possible(s, e) && !e.Register? && !e.Unregister? && !e.Shutdown? && !e.Connect?
    ensures var s' := Step(s, e);
            s'.clients == s.clients && s'.conns.Keys == s.conns.Keys
            && forall c :: c in s.conns ==> s'.conns[c].name == s.conns[c].name && s'.conns[c].closed == s.conns[c].closed
  {
  }

  lemma RegisterSound<C>(s: State<C>, events: seq<Event<C>>, c: C, name: string, victim: Option<C>)
    requires Sound(s, events) && Possible(s, Register(c, name, victim)) && !EverRegistered(events, c)
    ensures Sound(Step(s, Register(c, name, victim)), events + [Register(c, name, victim)])
  {
    var e := Register(c, name, victim);
    forall d | d in s.conns ensures EverRegistered(events + [e], d) <==> EverRegistered(events, d) || d == c {
      OneMoreRegistered(events, e, d);
    }
    StaysOpenIff(s, e);
    hide EverRegistered;
  }

  lemma EventSound<C>(s: State<C>, events: seq<Event<C>>, e: Event<C>)
    requires Sound(s, events) && Possible(s, e) && (e.Register? ==> !EverRegistered(events, e.c))
    requires e.Connect? ==> !EverRegistered(events, e.c)
    ensures Sound(Step(s, e), events + [e])
  {
    forall d ensures EverRegistered(events + [e], d) <==> EverRegistered(events, d) || (e.Register? && e.c == d) {
      OneMoreRegistered(events, e, d);
    }
    StaysOpenIff(s, e);
    hide EverRegistered;
    if e.Register? {
      RegisterSound(s, events, e.c, e.name, e.victim);
    } else if e.Unregister? || e.Shutdown? || e.Connect? {
    } else {
      Quiet(s, e);
      hide Step;
    }
  }

  lemma {:induction false} RegisteredAreKnown<C>(events: seq<Event<C>>, c: C)
    requires Executes(events) && EverRegistered(events, c)
    ensures c in Run(events).conns
  {
    var n := |events| - 1;
    assert events == events[..n] + [events[n]];
    OneMoreRegistered(events[..n], events[n], c);
    if EverRegistered(events[..n], c) {
      RegisteredAreKnown(events[..n], c);
    }
  }

  /** Channel safety: with one join a connection, nothing is ever sent on a closed channel or
      closed twice, whatever the order of kicks, unregistrations and shutdown; a channel is closed
      exactly when its client was registered and is not any more. */
  lemma {:induction false} ChannelsAreSafe<C>(events: seq<Event<C>>)
    requires Executes(events) && JoinsOnce(events)
    ensures Sound(Run(events), events)
  {
    if events != [] {
      var n := |events| - 1;
      ChannelsAreSafe(events[..n]);
      var e := events[n];
      assert events == events[..n] + [e];
      if e.Register? && EverRegistered(events[..n], e.c) {
        assert false;
      }
      if e.Connect? && EverRegistered(events[..n], e.c) {
        RegisteredAreKnown(events[..n], e.c);
        assert false;
      }
      hide Sound, EverRegistered, JoinsOnce;
      EventSound(Run(events[..n]), events[..n], e);
    }
  }

  // Last login wins.

  /** Same names for all who stay. */
  predicate SameNames<C>(s: State<C>, s': State<C>)
    requires WellFormed(s) && WellFormed(s')
  {
    forall c :: c in s.clients && c in s'.clients ==> s'.conns[c].name == s.conns[c].name
  }

  lemma RegisterShape<C>(s: State<C>, c: C, name: string, victim: Option<C>)
    requires WellFormed(s) && c in s.conns && c !in s.clients && Picked(s, c, name, victim)
    ensures var s' := Registered(s, c, name, victim);
            SameNames(s, s') && s'.conns[c].name == name
            && s'.clients == (if victim.Some? then s.clients - {victim.value} else s.clients) + {c}
  {
  }

  lemma UnregisterShape<C>(s: State<C>, c: C)
    requires WellFormed(s) && c in s.conns
    ensures SameNames(s, Unregistered(s, c)) && Unregistered(s, c).clients == s.clients - {c}
  {
  }

  lemma RegisterOwned<C>(s: State<C>, events: seq<Event<C>>, c: C, name: string, victim: Option<C>)
    requires WellFormed(s) && Owned(s, events) && c in s.conns && c !in s.clients && Picked(s, c, name, victim)
    ensures Owned(Registered(s, c, name, victim), events + [Register(c, name, victim)])
  {
    var e, s' := Register(c, name, victim), Registered(s, c, name, victim);
    RegisterShape(s, c, name, victim);
    forall n ensures Owner(events + [e], n) == if n == name then Some(c) else Owner(events, n) {
      OwnerSteps(events, e, n);
    }
    hide Owner, Registered;
    forall d | d in s'.clients && d != c ensures s.conns[d].name != name {
      assert victim != Some(d) && (d in Rivals(s, c, name) <==> s.conns[d].name == name);
    }
    hide Picked, Rivals;
    assert SameNames(s, s');
  }

  lemma UnregisterOwned<C>(s: State<C>, events: seq<Event<C>>, c: C)
    requires WellFormed(s) && Owned(s, events) && c in s.conns
    ensures Owned(Unregistered(s, c), events + [Unregister(c)])
  {
    UnregisterShape(s, c);
    forall n ensures Owner(events + [Unregister(c)], n) == if Owner(events, n) == Some(c) then None else Owner(events, n) {
      OwnerSteps(events, Unregister(c), n);
    }
    hide Owner, Unregistered;
  }

  lemma OthersOwned<C>(s: State<C>, events: seq<Event<C>>, e: Event<C>)
    requires WellFormed(s) && Owned(s, events) && Possible(s, e) && !e.Register? && !e.Unregister?
    ensures Owned(Step(s, e), events + [e])
  {
    forall n ensures Owner(events + [e], n) == if e.Shutdown? then None else Owner(events, n) {
      OwnerSteps(events, e, n);
    }
    hide Owner;
    if !e.Shutdown? && !e.Connect? {
      Quiet(s, e);
      hide Step;
    }
  }

  lemma EventOwned<C>(s: State<C>, events: seq<Event<C>>, e: Event<C>)
    requires WellFormed(s) && Owned(s, events) && Possible(s, e) && (e.Register? ==> e.c !in s.clients)
    ensures Owned(Step(s, e), events + [e])
  {
    hide Owned;
    match e
    case Register(c, name, victim) => RegisterOwned(s, events, c, name, victim);
    case Unregister(c) => UnregisterOwned(s, events, c);
    case _ => OthersOwned(s, events, e);
  }

  /** The client registered under a name is exactly the last one to register under it, unless it
      unregistered or the hub stopped since: there is at most one, and no other client's late
      unregistration removes it. */
  lemma {:induction false} LastLoginWins<C>(events: seq<Event<C>>)
    requires Executes(events) && JoinsOnce(events)
    ensures Owned(Run(events), events)
  {
    if events != [] {
      var n := |events| - 1;
      LastLoginWins(events[..n]);
      ChannelsAreSafe(events[..n]);
      var e := events[n];
      assert events == events[..n] + [e];
      assert e.Register? ==> !EverRegistered(events[..n], e.c);
      hide Owned, EverRegistered, JoinsOnce;
      EventOwned(Run(events[..n]), events[..n], e);
    }
  }

  /** Hence the `break` in the kick loop is sound: after a registration the name has no rival. */
  lemma NoRivalAfterRegister<C>(events: seq<Event<C>>, c: C, name: string, victim: Option<C>)
    requires Executes(events + [Register(c, name, victim)]) && JoinsOnce(events + [Register(c, name, victim)])
    ensures Rivals(Run(events + [Register(c, name, victim)]), c, name) == {}
  {
    LastLoginWins(events + [Register(c, name, victim)]);
  }

  /** The list of users online names each registered user once. */
  lemma {:induction false} NamesCountClients<C>(s: State<C>, clients: set<C>)
    requires WellFormed(s) && clients <= s.clients
    requires forall c, d | c in clients && d in clients && s.conns[c].name == s.conns[d].name :: c == d
    ensures |set c | c in clients :: s.conns[c].name| == |clients|
  {
    if clients != {} {
      var c :| c in clients;
      NamesCountClients(s, clients - {c});
      assert (set d | d in clients :: s.conns[d].name) == (set d | d in clients - {c} :: s.conns[d].name) + {s.conns[c].name};
    }
  }

  lemma OnlineOncePerClient<C>(events: seq<Event<C>>)
    requires Executes(events) && JoinsOnce(events)
    ensures var s := Run(events);
            |Names(s)| == |set c | c in s.clients && s.conns[c].name != ""|
  {
    LastLoginWins(events);
    var s := Run(events);
    var named := set c | c in s.clients && s.conns[c].name != "";
    NamesCountClients(s, named);
    assert Names(s) == set c | c in named :: s.conns[c].name;
  }

  lemma Extend<C>(events: seq<Event<C>>, e: Event<C>)
    requires Executes(events) && Possible(Run(events), e)
    ensures Executes(events + [e]) && Run(events + [e]) == Step(Run(events), e)
  {
    assert (events + [e])[..|events|] == events;
  }

  /** Without the discipline: a dropped connection that joins again puts its closed channel back,
      and the next broadcast panics. */
  lemma RejoinPanics<C>(events: seq<Event<C>>, c: C, name: string, victim: Option<C>, p: Payload)
    requires Executes(events) && Possible(Run(events), Register(c, name, victim)) && Run(events).conns[c].closed
    ensures var run := events + [Register(c, name, victim)] + [Broadcast(p)];
            Executes(run) && Run(run).panicked
  {
    Extend(events, Register(c, name, victim));
    var s := Run(events + [Register(c, name, victim)]);
    assert c in s.clients && s.conns[c].closed;
    Extend(events + [Register(c, name, victim)], Broadcast(p));
  }

  /** Such a run exists: two connections log in under one name, then the first joins again. */
  lemma RejoinHappens<C>(a: C, b: C, room: string, name: string)
    requires a != b
    ensures var events := [Connect(a, room)] + [Connect(b, room)] + [Register(a, name, None)] + [Register(b, name, Some(a))];
            Executes(events) && Run(events).conns[a].closed && Possible(Run(events), Register(a, name, Some(b)))
  {
    var e0: seq<Event<C>> := [Connect(a, room)];
    assert e0 == [] + e0 && Executes<C>([]) && Run<C>([]) == Empty();
    Extend([], Connect(a, room));
    Extend(e0, Connect(b, room));
    var e1 := e0 + [Connect(b, room)];
    Extend(e1, Register(a, name, None));
    var e2 := e1 + [Register(a, name, None)];
    assert Rivals(Run(e2), b, name) == {a};
    Extend(e2, Register(b, name, Some(a)));
  }

  // Delivery.

  /** What one event makes the hub offer to a client, in order. */
  function OffersTo<C>(s: State<C>, e: Event<C>, c: C): seq<Payload>
    requires WellFormed(s) && Possible(s, e)
  {
    match e
    case Register(_, _, victim) => if victim == Some(c) then [Kicked] else []
    case Unregister(d) =>
      if c !in s.clients || c == d then []
      else (if s.conns[d].name != "" then [UserLeft(s.conns[d].name, OthersNames(s, d))] else []) + [UserStatus]
    case Broadcast(p) => if c in s.clients then [p] else []
    case SyncTick => if c in s.clients then [OnlineUsers(Names(s))] else []
    case SendTo(d, p) => if c == d && c in s.clients then [p] else []
    case ToRoom(p, room) => if c in s.clients && (room == "" || s.conns[c].room == room) then [p] else []
    case _ => []
  }

  function OthersNames<C>(s: State<C>, d: C): set<string>
    requires WellFormed(s)
  {
    set c | c in s.clients && c != d && s.conns[c].name != "" :: s.conns[c].name
  }

  /** All that went into a client's channel: what was taken, then what waits. */
  function Accepted<C>(s: State<C>, c: C): seq<Payload>
    requires c in s.conns
  {
    s.conns[c].taken + s.conns[c].queue
  }

  function Least(m: int, n: int): int {
    if m <= n then m else n
  }

  /** A channel takes as many of the offers, in order, as it has room for. */
  predicate Delivers(before: Conn, after: Conn, offers: seq<Payload>) {
    var fit := Least(|offers|, 256 - |before.queue|);
    && |before.queue| <= 256 && |after.queue| <= 256
    && after.taken + after.queue == before.taken + before.queue + offers[..fit]
    && (fit < |offers| ==> |after.queue| == 256)
  }

  lemma OfferedDelivers(conn: Conn, p: Payload)
    requires |conn.queue| <= CHANNEL_CAP && !conn.closed
    ensures Delivers(conn, Offered(conn, p), [p])
  {
    assert [p][..1] == [p] && [p][..0] == [];
  }

  lemma NothingDelivers(conn: Conn, after: Conn)
    requires |conn.queue| <= CHANNEL_CAP && after.taken == conn.taken && after.queue == conn.queue
    ensures Delivers(conn, after, [])
  {
  }

  lemma TwoDeliver(conn: Conn, p: Payload, q: Payload)
    requires |conn.queue| <= CHANNEL_CAP && !conn.closed
    ensures Delivers(conn, Offered(Offered(conn, p), q), [p] + [q])
  {
    assert ([p] + [q])[..2] == [p, q] && ([p] + [q])[..1] == [p] && ([p] + [q])[..0] == [];
    assert |conn.queue| + 2 <= CHANNEL_CAP ==> conn.queue + [p] + [q] == conn.queue + [p, q];
  }

  lemma OfferDelivers<C>(s: State<C>, targets: set<C>, p: Payload, c: C)
    requires targets <= s.conns.Keys && c in s.conns
    requires |s.conns[c].queue| <= CHANNEL_CAP && (c in targets ==> !s.conns[c].closed)
    ensures Delivers(s.conns[c], OfferAll(s, targets, p).conns[c], if c in targets then [p] else [])
  {
    if c in targets {
      OfferedDelivers(s.conns[c], p);
    }
    NothingDelivers(s.conns[c], s.conns[c]);
    hide Delivers, Offered;
  }

  lemma RegisterDelivers<C>(s: State<C>, d: C, name: string, victim: Option<C>, c: C)
    requires WellFormed(s) && d in s.conns && Picked(s, d, name, victim) && c in s.conns
    requires |s.conns[c].queue| <= CHANNEL_CAP && (c in s.clients ==> !s.conns[c].closed)
    ensures Delivers(s.conns[c], Registered(s, d, name, victim).conns[c], if victim == Some(c) then [Kicked] else [])
  {
    if victim == Some(c) {
      OfferedDelivers(s.conns[c], Kicked);
    } else {
      NothingDelivers(s.conns[c], Registered(s, d, name, victim).conns[c]);
    }
  }

  lemma ConnAfterUnregister<C>(s: State<C>, d: C, c: C)
    requires WellFormed(s) && d in s.conns && c in s.conns
    ensures var conn, name := s.conns[c], s.conns[d].name;
            var left := UserLeft(name, OthersNames(s, d));
            Unregistered(s, d).conns[c]
            == if c in s.clients && c != d then Offered(if name != "" then Offered(conn, left) else conn, UserStatus)
               else if c in s.clients then conn.(closed := true) else conn
  {
    var gone := if d in s.clients then Dropped(s, {d}) else s;
    assert Names(gone) == OthersNames(s, d) && gone.conns[d].name == s.conns[d].name;
    assert gone.conns[c] == if c == d && d in s.clients then s.conns[c].(closed := true) else s.conns[c];
    hide Names, OthersNames, Dropped, Offered;
  }

  lemma UnregisterDelivers<C>(s: State<C>, d: C, c: C)
    requires WellFormed(s) && d in s.conns && c in s.conns
    requires |s.conns[c].queue| <= CHANNEL_CAP && (c in s.clients ==> !s.conns[c].closed)
    ensures Delivers(s.conns[c], Unregistered(s, d).conns[c], OffersTo(s, Unregister(d), c))
  {
    ConnAfterUnregister(s, d, c);
    var conn, name := s.conns[c], s.conns[d].name;
    hide Unregistered, Delivers, Offered, OthersNames;
    if c !in s.clients || c == d {
      NothingDelivers(conn, Unregistered(s, d).conns[c]);
    } else if name != "" {
      TwoDeliver(conn, UserLeft(name, OthersNames(s, d)), UserStatus);
    } else {
      OfferedDelivers(conn, UserStatus);
      assert [] + [UserStatus] == [UserStatus];
    }
  }

  lemma TakeDelivers(conn: Conn)
    requires |conn.queue| <= CHANNEL_CAP
    ensures Delivers(conn, Taken(conn), [])
  {
    if conn.queue != [] {
      assert conn.queue == [conn.queue[0]] + conn.queue[1..];
      assert conn.taken + [conn.queue[0]] + conn.queue[1..] == conn.taken + conn.queue;
    }
  }

  /** In one event a client gets the hub's offers in order, as many as its channel has room for. */
  lemma EventDelivers<C>(s: State<C>, e: Event<C>, c: C)
    requires WellFormed(s) && Possible(s, e) && c in s.conns
    requires |s.conns[c].queue| <= CHANNEL_CAP && (c in s.clients ==> !s.conns[c].closed)
    ensures c in Step(s, e).conns && Delivers(s.conns[c], Step(s, e).conns[c], OffersTo(s, e, c))
  {
    TakeDelivers(s.conns[c]);
    NothingDelivers(s.conns[c], Step(s, e).conns[c].(taken := s.conns[c].taken, queue := s.conns[c].queue));
    match e
    case Unregister(d) => UnregisterDelivers(s, d, c);
    case Register(d, name, victim) => RegisterDelivers(s, d, name, victim, c);
    case Broadcast(p) => OfferDelivers(s, s.clients, p, c);
    case SyncTick => OfferDelivers(s, s.clients, OnlineUsers(Names(s)), c);
    case SendTo(d, p) => if d in s.clients { OfferDelivers(s, {d}, p, c); }
    case ToRoom(p, room) => OfferDelivers(s, InRoom(s, room), p, c);
    case _ =>
    hide Delivers, OfferAll, Registered, Unregistered, Names;
  }

  /** The fold of what was offered, each time cut to the room there was. */
  function Delivered<C>(events: seq<Event<C>>, c: C): seq<Payload>
    requires Executes(events)
  {
    if events == [] then []
    else
      var s, e := Run(events[..|events| - 1]), events[|events| - 1];
      Delivered(events[..|events| - 1], c)
      + if c in s.conns then Fitting(OffersTo(s, e, c), |s.conns[c].queue|) else []
  }

  function Fitting(offers: seq<Payload>, waiting: nat): seq<Payload> {
    if waiting >= 256 then [] else offers[..Least(|offers|, 256 - waiting)]
  }

  /** Delivery over a run: what a client has taken and what waits for it are exactly the offers
      that met a channel with room, in order; nothing is lost, doubled or swapped otherwise. */
  lemma {:induction false} DeliveryIsExact<C>(events: seq<Event<C>>, c: C)
    requires Executes(events) && JoinsOnce(events) && c in Run(events).conns
    ensures Accepted(Run(events), c) == Delivered(events, c)
    ensures |Run(events).conns[c].queue| <= 256
  {
    if events != [] {
      var n := |events| - 1;
      var s, e := Run(events[..n]), events[n];
      ChannelsAreSafe(events[..n]);
      if c in s.conns {
        DeliveryIsExact(events[..n], c);
        EventDelivers(s, e, c);
      } else {
        NothingBefore(events[..n], c);
      }
      hide OffersTo, Sound, JoinsOnce;
    }
  }

  lemma {:induction false} NothingBefore<C>(events: seq<Event<C>>, c: C)
    requires Executes(events) && c !in Run(events).conns
    ensures Delivered(events, c) == []
  {
    if events != [] {
      NothingBefore(events[..|events| - 1], c);
    }
  }

  // Who is registered, under which name and in which room, as a fold over the run.

  /** Registered, and not kicked, unregistered or swept away by the end since. */
  predicate Member<C(==)>(events: seq<Event<C>>, c: C) {
    events != [] &&
      var before, e := events[..|events| - 1], events[|events| - 1];
      match e
      case Register(d, _, victim) => d == c || (victim != Some(c) && Member(before, c))
      case Unregister(d) => d != c && Member(before, c)
      case Shutdown => false
      case _ => Member(before, c)
  }

  /** The name last registered under; a new connection has none. */
  function LastName<C(==)>(events: seq<Event<C>>, c: C): string {
    if events == [] then ""
    else
      var before, e := events[..|events| - 1], events[|events| - 1];
      match e
      case Connect(d, _) => if d == c then "" else LastName(before, c)
      case Register(d, name, _) => if d == c then name else LastName(before, c)
      case _ => LastName(before, c)
  }

  /** The room last set, or the one connected to. */
  function LastRoom<C(==)>(events: seq<Event<C>>, c: C): string {
    if events == [] then ""
    else
      var before, e := events[..|events| - 1], events[|events| - 1];
      match e
      case Connect(d, room) => if d == c then room else LastRoom(before, c)
      case SetRoom(d, room) => if d == c then room else LastRoom(before, c)
      case _ => LastRoom(before, c)
  }

  predicate Recorded<C>(s: State<C>, events: seq<Event<C>>, c: C) {
    && (c in s.clients <==> Member(events, c))
    && (c in s.conns ==> s.conns[c].name == LastName(events, c) && s.conns[c].room == LastRoom(events, c))
  }

  lemma RegisterRecorded<C>(s: State<C>, d: C, name: string, victim: Option<C>, c: C)
    requires WellFormed(s) && d in s.conns && Picked(s, d, name, victim)
    ensures var s' := Registered(s, d, name, victim);
            && (c in s'.clients <==> c == d || (c in s.clients && victim != Some(c)))
            && s'.conns.Keys == s.conns.Keys
            && (c in s.conns ==> s'.conns[c].name == (if c == d then name else s.conns[c].name)
                                 && s'.conns[c].room == s.conns[c].room)
  {
  }

  lemma UnregisterRecorded<C>(s: State<C>, d: C, c: C)
    requires WellFormed(s) && d in s.conns
    ensures var s' := Unregistered(s, d);
            && (c in s'.clients <==> c in s.clients && c != d)
            && s'.conns.Keys == s.conns.Keys
            && (c in s.conns ==> s'.conns[c].name == s.conns[c].name && s'.conns[c].room == s.conns[c].room)
  {
    if c in s.conns {
      ConnAfterUnregister(s, d, c);
    }
    UnregisterShape(s, d);
    hide OthersNames;
  }

  /** In every run the registry, the names and the rooms are those of the fold. */
  lemma {:induction false} RegistryIsRecorded<C>(events: seq<Event<C>>, c: C)
    requires Executes(events)
    ensures Recorded(Run(events), events, c)
  {
    if events != [] {
      var before, e := events[..|events| - 1], events[|events| - 1];
      RegistryIsRecorded(before, c);
      var s := Run(before);
      match e
      case Register(d, name, victim) => RegisterRecorded(s, d, name, victim, c);
      case Unregister(d) => UnregisterRecorded(s, d, c);
      case _ =>
      hide Registered, Unregistered, Names, Picked;
    }
  }

  /** A message to a room reaches exactly the registered clients whose last room it is, and without
      a room all of them, as long as they have room in their channels. */
  lemma ToRoomReaches<C>(events: seq<Event<C>>, p: Payload, room: string, c: C)
    requires Executes(events) && JoinsOnce(events) && c in Run(events).conns
    ensures var s := Run(events);
            var s' := Step(s, ToRoom(p, room));
            var reached := Member(events, c) && (room == "" || LastRoom(events, c) == room);
            Accepted(s', c) == Accepted(s, c) + if reached && |s.conns[c].queue| < 256 then [p] else []
  {
    RegistryIsRecorded(events, c);
    DeliveryIsExact(events, c);
    ChannelsAreSafe(events);
    var s := Run(events);
    EventDelivers(s, ToRoom(p, room), c);
    assert [p][..1] == [p] && [p][..0] == [];
    hide Run, Member, LastRoom, LastName, Delivered, JoinsOnce, EverRegistered, Step;
  }

  /** Only the writer takes a message out, the oldest, one at a time. */
  lemma TakenAfter<C>(s: State<C>, e: Event<C>, c: C)
    requires WellFormed(s) && Possible(s, e) && c in s.conns
    ensures c in Step(s, e).conns
    ensures Step(s, e).conns[c].taken
            == s.conns[c].taken + if e == Take(c) && s.conns[c].queue != [] then [s.conns[c].queue[0]] else []
  {
    assert s.conns[c].taken + [] == s.conns[c].taken;
    if e.Unregister? {
      ConnAfterUnregister(s, e.c, c);
      hide Unregistered, OthersNames;
    }
    hide Names;
  }
}
