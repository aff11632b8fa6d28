/** Concurrent calls of `allow`, one lock operation or one protected update at a time. The
    global mutex is taken first, each entry has its own, and a caller takes its entry's mutex
    before it lets go of the global one. The run is compared with the atomic limiter of
    `Limiter`, called in the order in which the global mutex was taken. */
module LimiterThreads {
  import opened Options
  import opened SlidingWindow
  import opened Limiter

  type ThreadId = int
  type EntryId = int

  /** Where a thread is. `turn` is the position of its call in the log of global acquisitions. */
  datatype Place =
    | Idle
    | Waiting(call: Call)                                          // clock read, wants the global mutex
    | Pruning(call: Call, todo: set<Key>)                          // holds the global mutex
    | Visiting(call: Call, todo: set<Key>, at: Key)                // and the mutex of the visited entry
    | Visited(call: Call, todo: set<Key>, at: Key, empty: bool)    // entry mutex released, entry not yet deleted
    | Fetched(call: Call, entry: EntryId)                          // wants the entry's mutex
    | Handover(call: Call, entry: EntryId)                         // holds both
    | Critical(call: Call, entry: EntryId, turn: int)              // holds the entry's mutex only
    | Leaving(call: Call, entry: EntryId, turn: int, ok: bool)     // decided, about to release it

  datatype Entry = Entry(stamps: seq<Time>, owner: Option<ThreadId>)

  datatype System = System(
    places: map<ThreadId, Place>,       // absent: idle
    global: Option<ThreadId>,
    table: map<Key, EntryId>,
    heap: map<EntryId, Entry>,          // keeps entries that the table has dropped
    lastPrune: map<Bucket, Time>,
    log: seq<Call>,                     // calls in the order of the global mutex
    answers: map<int, bool>)            // what the finished calls returned, by position in `log`

  function PlaceOf(s: System, t: ThreadId): Place {
    if t in s.places then s.places[t] else Idle
  }

  predicate Init(s: System) {
    s == System(map[], None, map[], map[], map[], [], map[])
  }

  function KeysIn(table: map<Key, EntryId>, bucket: Bucket): set<Key> {
    set key | key in table && key.bucket == bucket
  }

  function Move(s: System, t: ThreadId, p: Place): System {
    s.(places := s.places[t := p])
  }

  function SetOwner(s: System, e: EntryId, owner: Option<ThreadId>): System
    requires e in s.heap
  {
    s.(heap := s.heap[e := s.heap[e].(owner := owner)])
  }

  // The steps of one thread, in program order.

  predicate Start(s: System, s': System, t: ThreadId, c: Call) {
    PlaceOf(s, t) == Idle && s' == Move(s, t, Waiting(c))
  }

  /** Takes the global mutex, and decides whether to prune. */
  predicate LockGlobal(s: System, s': System, t: ThreadId) {
    var p := PlaceOf(s, t);
    && p.Waiting? && s.global == None
    && var c := p.call;
       var due := Due(s.lastPrune, c.key.bucket, c.now);
       s' == Move(s, t, Pruning(c, if due then KeysIn(s.table, c.key.bucket) else {}))
             .(global := Some(t),
               log := s.log + [c],
               lastPrune := if due then s.lastPrune[c.key.bucket := c.now] else s.lastPrune)
  }

  predicate LockVisited(s: System, s': System, t: ThreadId, at: Key) {
    var p := PlaceOf(s, t);
    && p.Pruning? && at in p.todo && at in s.table && s.table[at] in s.heap && s.heap[s.table[at]].owner == None
    && s' == SetOwner(Move(s, t, Visiting(p.call, p.todo - {at}, at)), s.table[at], Some(t))
  }

  predicate FilterVisited(s: System, s': System, t: ThreadId) {
    var p := PlaceOf(s, t);
    && p.Visiting? && p.at in s.table && s.table[p.at] in s.heap
    && var kept := After(s.heap[s.table[p.at]].stamps, p.call.now - Window(p.call.key.bucket));
       s' == Move(s, t, Visited(p.call, p.todo, p.at, kept == []))
             .(heap := s.heap[s.table[p.at] := Entry(kept, None)])
  }

  predicate DeleteVisited(s: System, s': System, t: ThreadId) {
    var p := PlaceOf(s, t);
    && p.Visited?
    && s' == Move(s, t, Pruning(p.call, p.todo)).(table := if p.empty then s.table - {p.at} else s.table)
  }

  predicate Fetch(s: System, s': System, t: ThreadId, unused: EntryId) {
    var p := PlaceOf(s, t);
    && p.Pruning? && p.todo == {}
    && if p.call.key in s.table then
         s' == Move(s, t, Fetched(p.call, s.table[p.call.key]))
       else
         unused !in s.heap
         && s' == Move(s, t, Fetched(p.call, unused))
                  .(table := s.table[p.call.key := unused], heap := s.heap[unused := Entry([], None)])
  }

  predicate LockEntry(s: System, s': System, t: ThreadId) {
    var p := PlaceOf(s, t);
    && p.Fetched? && p.entry in s.heap && s.heap[p.entry].owner == None
    && s' == SetOwner(Move(s, t, Handover(p.call, p.entry)), p.entry, Some(t))
  }

  predicate UnlockGlobal(s: System, s': System, t: ThreadId) {
    var p := PlaceOf(s, t);
    && p.Handover? && s.log != []
    && s' == Move(s, t, Critical(p.call, p.entry, |s.log| - 1)).(global := None)
  }

  predicate Decide(s: System, s': System, t: ThreadId) {
    var p := PlaceOf(s, t);
    && p.Critical? && p.entry in s.heap
    && var a := Admit(s.heap[p.entry].stamps, p.call.now, Window(p.call.key.bucket), p.call.max);
       s' == Move(s, t, Leaving(p.call, p.entry, p.turn, a.ok))
             .(heap := s.heap[p.entry := s.heap[p.entry].(stamps := a.stamps)])
  }

  predicate Return(s: System, s': System, t: ThreadId) {
    var p := PlaceOf(s, t);
    && p.Leaving? && p.entry in s.heap
    && s' == SetOwner(Move(s, t, Idle), p.entry, None).(answers := s.answers[p.turn := p.ok])
  }

  datatype Step =
    | DoStart(c: Call) | DoLockGlobal | DoLockVisited(at: Key) | DoFilterVisited | DoDeleteVisited
    | DoFetch(unused: EntryId) | DoLockEntry | DoUnlockGlobal | DoDecide | DoReturn

  predicate Next(s: System, s': System, t: ThreadId, step: Step) {
    match step
    case DoStart(c) => Start(s, s', t, c)
    case DoLockGlobal => LockGlobal(s, s', t)
    case DoLockVisited(at) => LockVisited(s, s', t, at)
    case DoFilterVisited => FilterVisited(s, s', t)
    case DoDeleteVisited => DeleteVisited(s, s', t)
    case DoFetch(unused) => Fetch(s, s', t, unused)
    case DoLockEntry => LockEntry(s, s', t)
    case DoUnlockGlobal => UnlockGlobal(s, s', t)
    case DoDecide => Decide(s, s', t)
    case DoReturn => Return(s, s', t)
  }

  datatype Event = Event(thread: ThreadId, step: Step, after: System)

  function Final(s0: System, events: seq<Event>): System {
    if events == [] then s0 else events[|events| - 1].after
  }

  /** Any interleaving, of any number of threads. */
  predicate Execution(s0: System, events: seq<Event>) {
    if events == [] then Init(s0)
    else
      var before, last := events[..|events| - 1], events[|events| - 1];
      Execution(s0, before) && Next(Final(s0, before), last.after, last.thread, last.step)
  }

  // The lock discipline.

  predicate HoldsGlobal(p: Place) {
    p.Pruning? || p.Visiting? || p.Visited? || p.Fetched? || p.Handover?
  }

  predicate HasEntry(p: Place) {
    p.Fetched? || p.Handover? || p.Critical? || p.Leaving?
  }

  function EntryHeld(s: System, p: Place): Option<EntryId> {
    match p
    case Visiting(_, _, at) => if at in s.table then Some(s.table[at]) else None
    case Handover(_, e) => Some(e)
    case Critical(_, e, _) => Some(e)
    case Leaving(_, e, _, _) => Some(e)
    case _ => None
  }

  ghost predicate TableSound(s: System) {
    && (forall key | key in s.table :: s.table[key] in s.heap)
    && (forall a, b | a in s.table && b in s.table && a != b :: s.table[a] != s.table[b])
  }

  predicate ThreadSound(s: System, t: ThreadId) {
    var p := PlaceOf(s, t);
    && (s.global == Some(t) <==> HoldsGlobal(p))
    && (EntryHeld(s, p).Some? ==> EntryHeld(s, p).value in s.heap && s.heap[EntryHeld(s, p).value].owner == Some(t))
    // A thread that has fetched an entry and not returned has the entry now mapped for its key.
    && (HasEntry(p) ==> p.call.key in s.table && s.table[p.call.key] == p.entry)
    && (p.Pruning? || p.Visiting? || p.Visited? ==> p.todo <= KeysIn(s.table, p.call.key.bucket))
    && (p.Visiting? || p.Visited? ==>
          p.at !in p.todo && p.at in s.table && p.at.bucket == p.call.key.bucket && s.table[p.at] in s.heap)
    && (p.Visited? ==> s.heap[s.table[p.at]].owner == None && (p.empty <==> s.heap[s.table[p.at]].stamps == []))
  }

  predicate EntrySound(s: System, e: EntryId) {
    e in s.heap && s.heap[e].owner.Some? ==> EntryHeld(s, PlaceOf(s, s.heap[e].owner.value)) == Some(e)
  }

  ghost predicate Sound(s: System) {
    TableSound(s) && (forall t :: ThreadSound(s, t)) && (forall e :: EntrySound(s, e))
  }

  // Each step keeps the lock discipline.

  /** What a step of `t` leaves alone: the places of others, entries locked by others, their keys,
      and, unless `t` holds the global mutex, the table and every unlocked entry. */
  ghost predicate Framed(s: System, s': System, t: ThreadId) {
    && (forall u | u != t :: PlaceOf(s', u) == PlaceOf(s, u))
    && (s'.global == s.global || (s.global == None && s'.global == Some(t)) || (s.global == Some(t) && s'.global == None))
    && (forall e | e in s.heap :: e in s'.heap
          && (s'.heap[e] == s.heap[e] || s.heap[e].owner == Some(t) || (s.heap[e].owner == None && s.global == Some(t))))
    && (s.global != Some(t) ==> s'.table == s.table)
    && (forall key | key in s.table && s.table[key] in s.heap && s.heap[s.table[key]].owner.Some? ::
          key in s'.table && s'.table[key] == s.table[key])
  }

  predicate VisitsEntry(step: Step) {
    step.DoLockVisited? || step.DoFilterVisited?
  }

  predicate ChangesTable(step: Step) {
    step.DoDeleteVisited? || step.DoFetch?
  }

  lemma VisitFramed(s: System, s': System, t: ThreadId, step: Step)
    requires Sound(s) && Next(s, s', t, step) && VisitsEntry(step)
    ensures Framed(s, s', t)
  {
    hide After;
    assert ThreadSound(s, t);
  }

  lemma TableStepFramed(s: System, s': System, t: ThreadId, step: Step)
    requires Sound(s) && Next(s, s', t, step) && ChangesTable(step)
    ensures Framed(s, s', t)
  {
    assert ThreadSound(s, t);
  }

  lemma StepFramed(s: System, s': System, t: ThreadId, step: Step)
    requires Sound(s) && Next(s, s', t, step)
    ensures Framed(s, s', t)
  {
    hide After, Admit, Due;
    if VisitsEntry(step) {
      VisitFramed(s, s', t, step);
    } else if ChangesTable(step) {
      TableStepFramed(s, s', t, step);
    } else {
      assert ThreadSound(s, t);
    }
  }

  lemma TableStays(s: System, s': System, t: ThreadId, step: Step)
    requires Sound(s) && Next(s, s', t, step)
    ensures TableSound(s')
  {
    hide After, Admit, Due;
    assert ThreadSound(s, t);
  }

  lemma OtherStays(s: System, s': System, t: ThreadId, u: ThreadId)
    requires Sound(s) && Framed(s, s', t) && u != t
    ensures ThreadSound(s', u)
  {
    assert ThreadSound(s, t) && ThreadSound(s, u);
    assert PlaceOf(s', u) == PlaceOf(s, u);
  }

  predicate OwnsOnlyHeld(s: System, t: ThreadId) {
    forall e | e in s.heap && s.heap[e].owner == Some(t) :: EntryHeld(s, PlaceOf(s, t)) == Some(e)
  }

  /** Only `t` may have gained a lock. */
  predicate LocksKept(s: System, s': System, t: ThreadId) {
    forall e | e in s'.heap && (e !in s.heap || s'.heap[e].owner != s.heap[e].owner) ::
      s'.heap[e].owner == None || s'.heap[e].owner == Some(t)
  }

  lemma VisitStays(s: System, s': System, t: ThreadId, step: Step)
    requires TableSound(s) && ThreadSound(s, t) && OwnsOnlyHeld(s, t) && Next(s, s', t, step) && VisitsEntry(step)
    ensures ThreadSound(s', t) && OwnsOnlyHeld(s', t) && LocksKept(s, s', t)
  {
    hide After;
  }

  lemma TableStepStays(s: System, s': System, t: ThreadId, step: Step)
    requires TableSound(s) && ThreadSound(s, t) && OwnsOnlyHeld(s, t) && Next(s, s', t, step) && ChangesTable(step)
    ensures ThreadSound(s', t) && OwnsOnlyHeld(s', t) && LocksKept(s, s', t)
  {
  }

  lemma CriticalStays(s: System, s': System, t: ThreadId, step: Step)
    requires TableSound(s) && ThreadSound(s, t) && OwnsOnlyHeld(s, t) && Next(s, s', t, step)
    requires step.DoDecide? || step.DoReturn?
    ensures ThreadSound(s', t) && OwnsOnlyHeld(s', t) && LocksKept(s, s', t)
  {
    hide Admit;
  }

  lemma LockStays(s: System, s': System, t: ThreadId, step: Step)
    requires TableSound(s) && ThreadSound(s, t) && OwnsOnlyHeld(s, t) && Next(s, s', t, step)
    requires step.DoStart? || step.DoLockGlobal? || step.DoLockEntry? || step.DoUnlockGlobal?
    ensures ThreadSound(s', t) && OwnsOnlyHeld(s', t) && LocksKept(s, s', t)
  {
    hide Due;
  }

  /** The thread that steps: what its place says holds, and the locks it owns are those it should. */
  lemma SteppedStays(s: System, s': System, t: ThreadId, step: Step)
    requires TableSound(s) && ThreadSound(s, t) && OwnsOnlyHeld(s, t) && Next(s, s', t, step)
    ensures ThreadSound(s', t) && OwnsOnlyHeld(s', t) && LocksKept(s, s', t)
  {
    hide Next, TableSound, ThreadSound, OwnsOnlyHeld, LocksKept;
    if VisitsEntry(step) {
      VisitStays(s, s', t, step);
    } else if ChangesTable(step) {
      TableStepStays(s, s', t, step);
    } else if step.DoDecide? || step.DoReturn? {
      CriticalStays(s, s', t, step);
    } else {
      LockStays(s, s', t, step);
    }
  }

  lemma EntryStays(s: System, s': System, t: ThreadId, e: EntryId)
    requires Sound(s) && Framed(s, s', t)
    requires e in s.heap && e in s'.heap && s'.heap[e].owner == s.heap[e].owner && s.heap[e].owner != Some(t)
    ensures EntrySound(s', e)
  {
    assert EntrySound(s, e);
    if s.heap[e].owner.Some? {
      var u := s.heap[e].owner.value;
      assert ThreadSound(s, u) && ThreadSound(s, t) && PlaceOf(s', u) == PlaceOf(s, u);
    }
  }

  lemma StepKeepsSound(s: System, s': System, t: ThreadId, step: Step)
    requires Sound(s) && Next(s, s', t, step)
    ensures Sound(s')
  {
    StepFramed(s, s', t, step);
    TableStays(s, s', t, step);
    forall e | e in s.heap && s.heap[e].owner == Some(t) ensures EntryHeld(s, PlaceOf(s, t)) == Some(e) {
      assert EntrySound(s, e);
    }
    SteppedStays(s, s', t, step);
    hide Next, Framed, TableSound, ThreadSound, PlaceOf, EntryHeld;
    forall u ensures ThreadSound(s', u) {
      if u != t {
        OtherStays(s, s', t, u);
      }
    }
    forall e ensures EntrySound(s', e) {
      if e in s'.heap && s'.heap[e].owner.Some? && s'.heap[e].owner != Some(t) {
        EntryStays(s, s', t, e);
      }
    }
  }
}
