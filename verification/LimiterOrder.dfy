/** Every interleaving of `LimiterThreads` answers as the atomic limiter of `Limiter` does on the
    calls taken in the order of the global mutex. The link is the state the limiter will be in
    once the work already decided on is done: prunes still to visit an entry, and decisions of
    threads that hold an entry's mutex. */
module LimiterOrder {
  import opened Options
  import opened SlidingWindow
  import opened Limiter
  import opened LimiterThreads

  function Base(s: System, key: Key): seq<Time> {
    if key in s.table && s.table[key] in s.heap then s.heap[s.table[key]].stamps else []
  }

  function Owner(s: System, key: Key): Option<ThreadId> {
    if key in s.table && s.table[key] in s.heap then s.heap[s.table[key]].owner else None
  }

  function Decision(stamps: seq<Time>, c: Call): Admission {
    Admit(stamps, c.now, Window(c.key.bucket), c.max)
  }

  /** With the pending decision of the thread inside the entry's critical section. */
  function Settled(s: System, key: Key): seq<Time> {
    var owner := Owner(s, key);
    if owner.Some? && PlaceOf(s, owner.value).Critical?
    then Decision(Base(s, key), PlaceOf(s, owner.value).call).stamps
    else Base(s, key)
  }

  function StillToPrune(p: Place): set<Key> {
    match p
    case Pruning(_, todo) => todo
    case Visiting(_, todo, at) => todo + {at}
    case Visited(_, todo, _, _) => todo
    case _ => {}
  }

  /** And with what the prune in progress will drop. */
  function Swept(s: System, key: Key): seq<Time> {
    if s.global.Some? && key in StillToPrune(PlaceOf(s, s.global.value))
    then var c := PlaceOf(s, s.global.value).call;
         After(Settled(s, key), c.now - Window(c.key.bucket))
    else Settled(s, key)
  }

  /** And with the decision of the thread that holds the global mutex. */
  function Pending(s: System, key: Key): seq<Time> {
    if s.global.Some? && HoldsGlobal(PlaceOf(s, s.global.value)) && PlaceOf(s, s.global.value).call.key == key
    then Decision(Swept(s, key), PlaceOf(s, s.global.value).call).stamps
    else Swept(s, key)
  }

  /** The position of a thread's call in the log, from taking the global mutex to returning. */
  function TurnOf(s: System, t: ThreadId): Option<int> {
    var p := PlaceOf(s, t);
    if HoldsGlobal(p) then Some(|s.log| - 1)
    else if p.Critical? || p.Leaving? then Some(p.turn)
    else None
  }

  /** What a thread with a turn is going to answer. */
  function Promise(s: System, t: ThreadId): bool {
    var p := PlaceOf(s, t);
    if HoldsGlobal(p) then Decision(Swept(s, p.call.key), p.call).ok
    else if p.Critical? && p.entry in s.heap then Decision(s.heap[p.entry].stamps, p.call).ok
    else p.Leaving? && p.ok
  }

  predicate SameCall(p: Place, q: Place) {
    !p.Idle? && !q.Idle? && p.call == q.call
  }

  predicate TurnSound(s: System, t: ThreadId) {
    TurnOf(s, t).Some? ==>
      var turn := TurnOf(s, t).value;
      && 0 <= turn < |s.log| && turn !in s.answers
      && !PlaceOf(s, t).Idle? && s.log[turn] == PlaceOf(s, t).call
      && Promise(s, t) == Results(s.log)[turn]
  }

  ghost predicate TurnsDistinct(s: System) {
    forall t, u | t != u && TurnOf(s, t).Some? :: TurnOf(s, t) != TurnOf(s, u)
  }

  /** Every logged call is answered, or some thread still works on it. */
  ghost predicate NoneLost(s: System) {
    forall i | 0 <= i < |s.log| && i !in s.answers :: exists t :: TurnOf(s, t) == Some(i)
  }

  predicate AnswersSound(s: System) {
    forall i | i in s.answers :: 0 <= i < |s.log| && s.answers[i] == Results(s.log)[i]
  }

  ghost predicate StoreSound(s: System) {
    && s.lastPrune == Run(s.log).lastPrune
    && (forall key :: Pending(s, key) == Stored(Run(s.log).store, key))
  }

  ghost predicate Ordered(s: System) {
    && Sound(s) && StoreSound(s) && AnswersSound(s) && NoneLost(s) && TurnsDistinct(s)
    && (forall t :: TurnSound(s, t))
  }

  // Steps that take no turn leave the pending state of every key alone.

  lemma FactsAt(s: System, t: ThreadId, key: Key)
    requires Sound(s)
    ensures ThreadSound(s, t) && (s.global.Some? ==> ThreadSound(s, s.global.value))
    ensures key in s.table ==> EntrySound(s, s.table[key])
    ensures Owner(s, key).Some? ==> ThreadSound(s, Owner(s, key).value)
  {
  }

  lemma StartKeepsPending(s: System, s': System, t: ThreadId, c: Call, key: Key)
    requires Sound(s) && Start(s, s', t, c)
    ensures Pending(s', key) == Pending(s, key) && Swept(s', key) == Swept(s, key)
  {
    hide After, Admit;
    FactsAt(s, t, key);
  }

  lemma LockVisitedKeepsPending(s: System, s': System, t: ThreadId, at: Key, key: Key)
    requires Sound(s) && LockVisited(s, s', t, at)
    ensures Pending(s', key) == Pending(s, key) && Swept(s', key) == Swept(s, key)
  {
    hide After, Admit;
    FactsAt(s, t, key);
  }

  lemma FilterVisitedKeepsPending(s: System, s': System, t: ThreadId, key: Key)
    requires Sound(s) && FilterVisited(s, s', t)
    ensures Pending(s', key) == Pending(s, key) && Swept(s', key) == Swept(s, key)
  {
    hide After, Admit;
    FactsAt(s, t, key);
  }

  lemma DeleteVisitedKeepsSettled(s: System, s': System, t: ThreadId, key: Key)
    requires Sound(s) && DeleteVisited(s, s', t)
    ensures Settled(s', key) == Settled(s, key)
  {
    hide After, Admit;
    FactsAt(s, t, key);
  }

  lemma DeleteVisitedKeepsPending(s: System, s': System, t: ThreadId, key: Key)
    requires Sound(s) && DeleteVisited(s, s', t)
    ensures Pending(s', key) == Pending(s, key) && Swept(s', key) == Swept(s, key)
  {
    hide After, Decision, Settled;
    FactsAt(s, t, key);
    DeleteVisitedKeepsSettled(s, s', t, key);
  }

  lemma FetchKeepsSettled(s: System, s': System, t: ThreadId, unused: EntryId, key: Key)
    requires Sound(s) && Fetch(s, s', t, unused)
    ensures Settled(s', key) == Settled(s, key)
  {
    hide After, Admit;
    FactsAt(s, t, key);
  }

  lemma FetchKeepsPending(s: System, s': System, t: ThreadId, unused: EntryId, key: Key)
    requires Sound(s) && Fetch(s, s', t, unused)
    ensures Pending(s', key) == Pending(s, key) && Swept(s', key) == Swept(s, key)
  {
    hide After, Decision, Settled;
    FactsAt(s, t, key);
    FetchKeepsSettled(s, s', t, unused, key);
  }

  lemma LockEntryKeepsPending(s: System, s': System, t: ThreadId, key: Key)
    requires Sound(s) && LockEntry(s, s', t)
    ensures Pending(s', key) == Pending(s, key) && Swept(s', key) == Swept(s, key)
  {
    hide After, Admit;
    FactsAt(s, t, key);
  }

  lemma UnlockGlobalKeepsPending(s: System, s': System, t: ThreadId, key: Key)
    requires Sound(s) && UnlockGlobal(s, s', t)
    ensures Pending(s', key) == Pending(s, key)
  {
    hide After, Admit;
    FactsAt(s, t, key);
  }

  lemma DecideKeepsSettled(s: System, s': System, t: ThreadId, key: Key)
    requires Sound(s) && Decide(s, s', t)
    ensures Settled(s', key) == Settled(s, key)
  {
    hide After, Admit;
    FactsAt(s, t, key);
  }

  lemma DecideKeepsPending(s: System, s': System, t: ThreadId, key: Key)
    requires Sound(s) && Decide(s, s', t)
    ensures Pending(s', key) == Pending(s, key) && Swept(s', key) == Swept(s, key)
  {
    hide After, Decision, Settled;
    FactsAt(s, t, key);
    DecideKeepsSettled(s, s', t, key);
  }

  lemma ReturnKeepsSettled(s: System, s': System, t: ThreadId, key: Key)
    requires Sound(s) && Return(s, s', t)
    ensures Settled(s', key) == Settled(s, key)
  {
    hide After, Admit;
    FactsAt(s, t, key);
  }

  lemma ReturnKeepsPending(s: System, s': System, t: ThreadId, key: Key)
    requires Sound(s) && Return(s, s', t)
    ensures Pending(s', key) == Pending(s, key) && Swept(s', key) == Swept(s, key)
  {
    hide After, Decision, Settled;
    FactsAt(s, t, key);
    ReturnKeepsSettled(s, s', t, key);
  }

  lemma StepKeepsPending(s: System, s': System, t: ThreadId, step: Step, key: Key)
    requires Sound(s) && Next(s, s', t, step) && step != DoLockGlobal
    ensures Pending(s', key) == Pending(s, key)
    ensures step != DoUnlockGlobal ==> Swept(s', key) == Swept(s, key)
  {
    hide Pending, Swept;
    match step
    case DoLockGlobal =>
    case DoStart(c) => StartKeepsPending(s, s', t, c, key);
    case DoLockVisited(at) => LockVisitedKeepsPending(s, s', t, at, key);
    case DoFilterVisited => FilterVisitedKeepsPending(s, s', t, key);
    case DoDeleteVisited => DeleteVisitedKeepsPending(s, s', t, key);
    case DoFetch(unused) => FetchKeepsPending(s, s', t, unused, key);
    case DoLockEntry => LockEntryKeepsPending(s, s', t, key);
    case DoUnlockGlobal => UnlockGlobalKeepsPending(s, s', t, key);
    case DoDecide => DecideKeepsPending(s, s', t, key);
    case DoReturn => ReturnKeepsPending(s, s', t, key);
  }

  lemma HolderUndisturbed(s: System, s': System, t: ThreadId, step: Step, u: ThreadId)
    requires Sound(s) && Next(s, s', t, step) && HoldsGlobal(PlaceOf(s, u)) && u != t
    ensures step != DoLockGlobal && step != DoUnlockGlobal && s'.log == s.log && PlaceOf(s', u) == PlaceOf(s, u)
  {
    hide After, Admit, Due;
    assert ThreadSound(s, t) && ThreadSound(s, u);
  }

  lemma OthersKeepPromise(s: System, s': System, t: ThreadId, step: Step, u: ThreadId)
    requires Sound(s) && Next(s, s', t, step)
    requires TurnOf(s, u).Some? && u != t
    ensures TurnOf(s', u) == TurnOf(s, u) && SameCall(PlaceOf(s', u), PlaceOf(s, u))
    ensures Promise(s', u) == Promise(s, u)
  {
    if HoldsGlobal(PlaceOf(s, u)) {
      HolderUndisturbed(s, s', t, step, u);
      StepKeepsPending(s, s', t, step, PlaceOf(s, u).call.key);
    } else {
      CriticalUntouched(s, s', t, step, u);
    }
    hide Sound, Next, Pending, Swept, Decision, PlaceOf;
  }

  /** Only its owner changes an entry in a critical section. */
  lemma CriticalUntouched(s: System, s': System, t: ThreadId, step: Step, u: ThreadId)
    requires Sound(s) && Next(s, s', t, step) && u != t
    ensures PlaceOf(s', u) == PlaceOf(s, u)
    ensures PlaceOf(s, u).Critical? ==>
              PlaceOf(s, u).entry in s.heap && PlaceOf(s, u).entry in s'.heap
              && s'.heap[PlaceOf(s, u).entry].stamps == s.heap[PlaceOf(s, u).entry].stamps
  {
    StepFramed(s, s', t, step);
    assert ThreadSound(s, u);
    hide Next, PlaceOf;
  }

  lemma UnlockKeepsPromise(s: System, s': System, t: ThreadId)
    requires Sound(s) && UnlockGlobal(s, s', t)
    ensures TurnOf(s', t) == TurnOf(s, t) && SameCall(PlaceOf(s', t), PlaceOf(s, t))
    ensures Promise(s', t) == Promise(s, t)
  {
    FactsAt(s, t, PlaceOf(s, t).call.key);
    hide After, Admit, Sound;
  }

  lemma DecideKeepsPromise(s: System, s': System, t: ThreadId)
    requires Sound(s) && Decide(s, s', t)
    ensures TurnOf(s', t) == TurnOf(s, t) && SameCall(PlaceOf(s', t), PlaceOf(s, t))
    ensures Promise(s', t) == Promise(s, t)
  {
    hide After, Sound, Admit;
  }

  lemma StillHolds(s: System, s': System, t: ThreadId, step: Step)
    requires Sound(s) && Next(s, s', t, step) && step != DoReturn && step != DoUnlockGlobal && step != DoDecide
    requires TurnOf(s, t).Some?
    ensures step != DoLockGlobal && HoldsGlobal(PlaceOf(s, t)) && HoldsGlobal(PlaceOf(s', t))
    ensures SameCall(PlaceOf(s', t), PlaceOf(s, t)) && s'.log == s.log
    ensures s.global == Some(t) == s'.global
  {
    hide After, Admit, Due;
    assert ThreadSound(s, t);
  }

  lemma OwnerKeepsPromise(s: System, s': System, t: ThreadId, step: Step)
    requires Sound(s) && Next(s, s', t, step) && step != DoReturn
    requires TurnOf(s, t).Some?
    ensures TurnOf(s', t) == TurnOf(s, t) && SameCall(PlaceOf(s', t), PlaceOf(s, t))
    ensures Promise(s', t) == Promise(s, t)
  {
    if step == DoUnlockGlobal {
      UnlockKeepsPromise(s, s', t);
    } else if step == DoDecide {
      DecideKeepsPromise(s, s', t);
    } else {
      StillHolds(s, s', t, step);
      StepKeepsPending(s, s', t, step, PlaceOf(s, t).call.key);
      hide Pending, Swept, Next, Sound, PlaceOf, Decision;
    }
  }

  /** No step but the last one of a call changes what any thread is going to answer, a step in
      which another thread takes the global mutex included. */
  lemma StepKeepsPromise(s: System, s': System, t: ThreadId, step: Step, u: ThreadId)
    requires Sound(s) && Next(s, s', t, step)
    requires TurnOf(s, u).Some? && !(step == DoReturn && u == t)
    ensures TurnOf(s', u) == TurnOf(s, u) && SameCall(PlaceOf(s', u), PlaceOf(s, u))
    ensures Promise(s', u) == Promise(s, u)
  {
    if u == t {
      OwnerKeepsPromise(s, s', t, step);
    } else {
      OthersKeepPromise(s, s', t, step, u);
    }
  }

  /** A thread without a turn gets one only from the global mutex. */
  lemma NoTurnFromElsewhere(s: System, s': System, t: ThreadId, step: Step, u: ThreadId)
    requires Sound(s) && Next(s, s', t, step) && step != DoLockGlobal
    requires TurnOf(s, u) == None || (step == DoReturn && u == t)
    ensures TurnOf(s', u) == None
  {
    hide After, Admit;
    assert ThreadSound(s, t) && ThreadSound(s, u);
  }

  lemma StepKeepsOrder(s: System, s': System, t: ThreadId, step: Step)
    requires Ordered(s) && Next(s, s', t, step) && step != DoLockGlobal && step != DoReturn
    ensures Ordered(s')
  {
    StepKeepsSound(s, s', t, step);
    LogStays(s, s', t, step);
    forall key ensures Pending(s', key) == Pending(s, key) {
      StepKeepsPending(s, s', t, step, key);
    }
    forall u
      ensures TurnOf(s', u) == TurnOf(s, u)
      ensures TurnOf(s, u).Some? ==> Promise(s', u) == Promise(s, u) && SameCall(PlaceOf(s', u), PlaceOf(s, u))
    {
      if TurnOf(s, u).Some? {
        StepKeepsPromise(s, s', t, step, u);
      } else {
        NoTurnFromElsewhere(s, s', t, step, u);
      }
    }
    SameTurnsSameOrder(s, s');
  }

  lemma SameTurnsSameOrder(s: System, s': System)
    requires Ordered(s) && Sound(s')
    requires s'.log == s.log && s'.answers == s.answers && s'.lastPrune == s.lastPrune
    requires forall key :: Pending(s', key) == Pending(s, key)
    requires forall u :: TurnOf(s', u) == TurnOf(s, u)
    requires forall u | TurnOf(s, u).Some? :: Promise(s', u) == Promise(s, u) && SameCall(PlaceOf(s', u), PlaceOf(s, u))
    ensures Ordered(s')
  {
    hide Pending, TurnOf, Promise, Run, Results, PlaceOf, Sound;
    forall u ensures TurnSound(s', u) {
      assert TurnSound(s, u);
    }
    forall i | 0 <= i < |s'.log| && i !in s'.answers ensures exists u :: TurnOf(s', u) == Some(i) {
      var u :| TurnOf(s, u) == Some(i);
      assert TurnOf(s', u) == Some(i);
    }
  }

  lemma LogStays(s: System, s': System, t: ThreadId, step: Step)
    requires Next(s, s', t, step) && step != DoLockGlobal
    ensures s'.log == s.log && s'.lastPrune == s.lastPrune
    ensures step != DoReturn ==> s'.answers == s.answers
    ensures step == DoReturn ==>
              TurnOf(s, t).Some? && s'.answers == s.answers[TurnOf(s, t).value := Promise(s, t)]
  {
    hide After, Admit;
  }

  /** The answer a call returns is the one the atomic limiter gives at that place in the log. */
  lemma ReturnKeepsOrder(s: System, s': System, t: ThreadId)
    requires Ordered(s) && Return(s, s', t)
    ensures Ordered(s')
  {
    StepKeepsSound(s, s', t, DoReturn);
    LogStays(s, s', t, DoReturn);
    forall key ensures Pending(s', key) == Pending(s, key) {
      StepKeepsPending(s, s', t, DoReturn, key);
    }
    NoTurnFromElsewhere(s, s', t, DoReturn, t);
    forall u | u != t
      ensures TurnOf(s', u) == TurnOf(s, u)
      ensures TurnOf(s, u).Some? ==> Promise(s', u) == Promise(s, u) && SameCall(PlaceOf(s', u), PlaceOf(s, u))
    {
      if TurnOf(s, u).Some? {
        StepKeepsPromise(s, s', t, DoReturn, u);
      } else {
        NoTurnFromElsewhere(s, s', t, DoReturn, u);
      }
    }
    OneTurnLess(s, s', t);
  }

  lemma OneTurnLess(s: System, s': System, t: ThreadId)
    requires Ordered(s) && Sound(s') && TurnOf(s, t).Some?
    requires s'.log == s.log && s'.answers == s.answers[TurnOf(s, t).value := Promise(s, t)]
    requires s'.lastPrune == s.lastPrune
    requires forall key :: Pending(s', key) == Pending(s, key)
    requires TurnOf(s', t) == None
    requires forall u | u != t :: TurnOf(s', u) == TurnOf(s, u)
    requires forall u | u != t && TurnOf(s, u).Some? ::
               Promise(s', u) == Promise(s, u) && SameCall(PlaceOf(s', u), PlaceOf(s, u))
    ensures Ordered(s')
  {
    hide Pending, TurnOf, Promise, Run, Results, PlaceOf, Sound;
    assert TurnSound(s, t);
    forall u ensures TurnSound(s', u) {
      assert TurnSound(s, u);
    }
    forall i | 0 <= i < |s'.log| && i !in s'.answers ensures exists u :: TurnOf(s', u) == Some(i) {
      var u :| TurnOf(s, u) == Some(i);
      assert TurnOf(s', u) == Some(i);
    }
  }

  /** Taking the global mutex is where a call takes effect: for every key, the pending state
      becomes what the atomic call leaves. */
  lemma LockGlobalTakesEffect(s: System, s': System, t: ThreadId, key: Key)
    requires Sound(s) && StoreSound(s) && LockGlobal(s, s', t)
    ensures Pending(s', key) == Stored(Run(s'.log).store, key)
    ensures s'.lastPrune == Run(s'.log).lastPrune
    ensures Promise(s', t) == Allow(Run(s.log), PlaceOf(s, t).call).ok
  {
    var c := PlaceOf(s, t).call;
    assert After([], c.now - Window(c.key.bucket)) == [];
    hide Run, Allow, After, Admit;
    OneMoreCall(s.log, c, key);
    StoredAfterAllow(Run(s.log), c, key);
    SweptByPrune(s, s', t, key);
    SweptByPrune(s, s', t, c.key);
    hide Swept, KeptStamps;
  }

  lemma LockGlobalKeepsSettled(s: System, s': System, t: ThreadId, key: Key)
    requires Sound(s) && LockGlobal(s, s', t)
    ensures Settled(s', key) == Settled(s, key)
  {
    hide After, Admit, Due;
    FactsAt(s, t, key);
  }

  /** With the global mutex free, nothing but decisions is pending. */
  lemma SettledIsStored(s: System, key: Key)
    requires StoreSound(s) && s.global == None
    ensures Settled(s, key) == Stored(Run(s.log).store, key)
  {
    assert Pending(s, key) == Stored(Run(s.log).store, key);
    hide Run, Settled;
  }

  lemma SettledUnmapped(s: System, key: Key)
    requires Sound(s) && key !in s.table
    ensures Settled(s, key) == []
  {
  }

  lemma SweptByPrune(s: System, s': System, t: ThreadId, key: Key)
    requires Sound(s) && StoreSound(s) && LockGlobal(s, s', t)
    ensures Swept(s', key) == KeptStamps(Run(s.log), PlaceOf(s, t).call, key)
  {
    var c := PlaceOf(s, t).call;
    assert After([], c.now - Window(c.key.bucket)) == [];
    assert s.global == None && s.lastPrune == Run(s.log).lastPrune && s'.global == Some(t);
    assert PlaceOf(s', t) == Pruning(c, if Due(s.lastPrune, c.key.bucket, c.now) then KeysIn(s.table, c.key.bucket) else {});
    hide Run, After, Settled, Sound, StoreSound, Due, PlaceOf;
    SettledIsStored(s, key);
    LockGlobalKeepsSettled(s, s', t, key);
    if key !in s.table {
      SettledUnmapped(s, key);
    }
  }

  lemma LockGlobalKeepsOrder(s: System, s': System, t: ThreadId)
    requires Ordered(s) && LockGlobal(s, s', t)
    ensures Ordered(s')
  {
    StepKeepsSound(s, s', t, DoLockGlobal);
    var c := PlaceOf(s, t).call;
    OneMoreCall(s.log, c, c.key);
    LockGlobalTakesEffect(s, s', t, c.key);
    forall key ensures Pending(s', key) == Stored(Run(s'.log).store, key) {
      LockGlobalTakesEffect(s, s', t, key);
    }
    TurnsAtLock(s, s', t);
    OneTurnMore(s, s', t, c);
  }

  lemma OneTurnMore(s: System, s': System, t: ThreadId, c: Call)
    requires Ordered(s) && Sound(s') && StoreSound(s') && !PlaceOf(s', t).Idle? && PlaceOf(s', t).call == c
    requires s'.log == s.log + [c] && s'.answers == s.answers
    requires Results(s'.log) == Results(s.log) + [Promise(s', t)]
    requires TurnOf(s, t) == None && TurnOf(s', t) == Some(|s.log|)
    requires forall u | u != t :: TurnOf(s', u) == TurnOf(s, u) && PlaceOf(s', u) == PlaceOf(s, u)
    requires forall u | u != t && TurnOf(s, u).Some? :: Promise(s', u) == Promise(s, u)
    ensures Ordered(s')
  {
    hide Pending, TurnOf, Promise, Run, Results, Sound, StoreSound, PlaceOf;
    forall u ensures TurnSound(s', u) {
      assert TurnSound(s, u);
    }
    forall u ensures TurnOf(s, u) != Some(|s.log|) {
      assert TurnSound(s, u);
    }
    forall i | 0 <= i < |s'.log| && i !in s'.answers ensures exists u :: TurnOf(s', u) == Some(i) {
      if i == |s.log| {
        assert TurnOf(s', t) == Some(i);
      } else {
        var u :| TurnOf(s, u) == Some(i);
        assert TurnOf(s', u) == Some(i);
      }
    }
  }

  lemma TurnsAtLock(s: System, s': System, t: ThreadId)
    requires Sound(s) && LockGlobal(s, s', t)
    ensures s'.log == s.log + [PlaceOf(s, t).call] && s'.answers == s.answers
    ensures SameCall(PlaceOf(s', t), PlaceOf(s, t))
    ensures TurnOf(s, t) == None && TurnOf(s', t) == Some(|s.log|)
    ensures forall u | u != t :: TurnOf(s', u) == TurnOf(s, u) && PlaceOf(s', u) == PlaceOf(s, u)
    ensures forall u | u != t && TurnOf(s, u).Some? :: Promise(s', u) == Promise(s, u)
  {
    hide After, Admit, Swept, Promise;
    assert ThreadSound(s, t);
    forall u | u != t
      ensures TurnOf(s', u) == TurnOf(s, u) && PlaceOf(s', u) == PlaceOf(s, u)
      ensures TurnOf(s, u).Some? ==> Promise(s', u) == Promise(s, u)
    {
      assert ThreadSound(s, u);
      if TurnOf(s, u).Some? {
        StepKeepsPromise(s, s', t, DoLockGlobal, u);
      }
    }
  }

  lemma InitOrdered(s: System)
    requires Init(s)
    ensures Ordered(s)
  {
    forall t ensures ThreadSound(s, t) && TurnSound(s, t) && TurnOf(s, t) == None {
      assert PlaceOf(s, t) == Idle;
    }
  }

  /** In every reachable state of every interleaving the order of the global mutex explains
      everything: see `Ordered`. */
  lemma {:induction false} AlwaysOrdered(s0: System, events: seq<Event>)
    requires Execution(s0, events)
    ensures Ordered(Final(s0, events))
  {
    if events == [] {
      InitOrdered(s0);
    } else {
      var before, last := events[..|events| - 1], events[|events| - 1];
      AlwaysOrdered(s0, before);
      var s, s' := Final(s0, before), last.after;
      assert Next(s, s', last.thread, last.step);
      hide Ordered, Execution;
      if last.step == DoLockGlobal {
        LockGlobalKeepsOrder(s, s', last.thread);
      } else if last.step == DoReturn {
        ReturnKeepsOrder(s, s', last.thread);
      } else {
        StepKeepsOrder(s, s', last.thread, last.step);
      }
    }
  }
}
