/** What the concurrent limiter guarantees, for every interleaving of any number of threads. */
module LimiterTheorems {
  import opened Options
  import opened SlidingWindow
  import opened Limiter
  import opened LimiterThreads
  import opened LimiterOrder

  /** No request is recorded in an entry that a prune has dropped: from the moment a call has
      fetched its entry until it returns, that entry is the one mapped for its key. */
  lemma NoOrphanEntries(s0: System, events: seq<Event>, t: ThreadId)
    requires Execution(s0, events)
    ensures var s := Final(s0, events);
            var p := PlaceOf(s, t);
            HasEntry(p) ==> p.call.key in s.table && s.table[p.call.key] == p.entry
  {
    AlwaysOrdered(s0, events);
    assert ThreadSound(Final(s0, events), t);
  }

  /** Once all calls have returned, each got the atomic limiter's answer at its place in the
      order of the global mutex, and the table holds exactly what that limiter stores. */
  lemma QuietIsAtomic(s0: System, events: seq<Event>)
    requires Execution(s0, events)
    requires forall t :: PlaceOf(Final(s0, events), t) == Idle
    ensures var s := Final(s0, events);
            && (forall i :: 0 <= i < |s.log| <==> i in s.answers)
            && (forall i | i in s.answers :: s.answers[i] == Results(s.log)[i])
            && (forall key :: Base(s, key) == Stored(Run(s.log).store, key))
  {
    AlwaysOrdered(s0, events);
    var s := Final(s0, events);
    hide Execution, Final, Run, Results, Sound;
    forall t ensures TurnOf(s, t) == None {
      assert PlaceOf(s, t) == Idle;
    }
    assert forall i | 0 <= i < |s.log| && i !in s.answers :: exists t :: TurnOf(s, t) == Some(i);
    hide TurnOf;
    forall key ensures Base(s, key) == Stored(Run(s.log).store, key) {
      assert Pending(s, key) == Stored(Run(s.log).store, key);
      IdleIsBase(s, key);
    }
    hide Pending, Base;
  }

  /** With every thread idle nothing is pending. */
  lemma IdleIsBase(s: System, key: Key)
    requires forall t :: PlaceOf(s, t) == Idle
    ensures Pending(s, key) == Base(s, key)
  {
    assert Owner(s, key).Some? ==> PlaceOf(s, Owner(s, key).value) == Idle;
    assert s.global.Some? ==> PlaceOf(s, s.global.value) == Idle;
  }

  /** The time stamps of the calls of `key` that have returned yes so far, in log order. */
  function AnsweredYes(log: seq<Call>, answers: map<int, bool>, key: Key): seq<Time> {
    if log == [] then []
    else
      var n := |log| - 1;
      Logged(AnsweredYes(log[..n], answers, key), log[n].now, log[n].key == key && n in answers && answers[n])
  }

  lemma {:induction false} AnswersAreGrants(log: seq<Call>, answers: map<int, bool>, key: Key, lo: Time, hi: Time)
    requires forall i | 0 <= i < |log| && i in answers :: answers[i] == Results(log)[i]
    ensures CountIn(AnsweredYes(log, answers, key), lo, hi) <= CountIn(Grants(log, key), lo, hi)
  {
    if log != [] {
      var n := |log| - 1;
      var before, c := log[..n], log[n];
      assert log == before + [c];
      var yes := AnsweredYes(before, answers, key);
      assert AnsweredYes(log, answers, key) == Logged(yes, c.now, c.key == key && n in answers && answers[n]);
      hide Run, Allow, Grants, AnsweredYes, CountIn, Results;
      OneMoreCall(before, c, key);
      assert forall i | 0 <= i < n && i in answers :: answers[i] == Results(before)[i];
      AnswersAreGrants(before, answers, key, lo, hi);
      CountSnoc(yes, c.now, lo, hi);
      CountSnoc(Grants(before, key), c.now, lo, hi);
    }
  }

  /** The advertised limit under concurrency and skew: at no point of any interleaving have
      more than `bound` requests of an IP been let through in an interval of one window less
      the skew between the clocks of successive holders of the global mutex. */
  lemma ConcurrentWindowBound(s0: System, events: seq<Event>, key: Key, bound: nat, skew: nat, lo: Time)
    requires Execution(s0, events)
    requires SkewAtMost(Final(s0, events).log, key.bucket, skew)
    requires MaxAtMost(Final(s0, events).log, key, bound)
    ensures var s := Final(s0, events);
            var window := if key.bucket.Ws? then 10_000_000_000 else 60_000_000_000;
            CountIn(AnsweredYes(s.log, s.answers, key), lo, lo + window - skew) <= bound
  {
    hide Execution, AnsweredYes, Grants, Run, Results, CountIn;
    AlwaysOrdered(s0, events);
    var s := Final(s0, events);
    assert AnswersSound(s);
    AnswersAreGrants(s.log, s.answers, key, lo, lo + Window(key.bucket) - skew);
    WindowBound(s.log, key, bound, skew, lo);
  }

  /** No deadlock: while any call is unfinished, some unfinished call can take a step. */
  lemma SomeoneCanStep(s0: System, events: seq<Event>, waiting: ThreadId)
      returns (t: ThreadId, step: Step, s': System)
    requires Execution(s0, events) && PlaceOf(Final(s0, events), waiting) != Idle
    ensures PlaceOf(Final(s0, events), t) != Idle && Next(Final(s0, events), s', t, step)
  {
    AlwaysOrdered(s0, events);
    var s := Final(s0, events);
    if s.global == None {
      assert ThreadSound(s, waiting);
      t := waiting;
      if PlaceOf(s, waiting).Waiting? {
        step := DoLockGlobal;
        s' := LockGlobalStep(s, t);
      } else {
        step, s' := LeaveEntry(s, t);
      }
    } else {
      assert ThreadSound(s, s.global.value) && TurnSound(s, s.global.value);
      t, step, s' := HolderOrOwnerSteps(s, s.global.value);
    }
  }

  lemma LockGlobalStep(s: System, t: ThreadId) returns (s': System)
    requires PlaceOf(s, t).Waiting? && s.global == None
    ensures LockGlobal(s, s', t)
  {
    var c := PlaceOf(s, t).call;
    var due := Due(s.lastPrune, c.key.bucket, c.now);
    s' := Move(s, t, Pruning(c, if due then KeysIn(s.table, c.key.bucket) else {}))
          .(global := Some(t), log := s.log + [c],
            lastPrune := if due then s.lastPrune[c.key.bucket := c.now] else s.lastPrune);
  }

  /** A thread inside an entry's critical section waits for nobody. */
  lemma LeaveEntry(s: System, t: ThreadId) returns (step: Step, s': System)
    requires ThreadSound(s, t) && (PlaceOf(s, t).Critical? || PlaceOf(s, t).Leaving?)
    ensures Next(s, s', t, step)
  {
    var p := PlaceOf(s, t);
    if p.Critical? {
      var a := Admit(s.heap[p.entry].stamps, p.call.now, Window(p.call.key.bucket), p.call.max);
      step := DoDecide;
      s' := Move(s, t, Leaving(p.call, p.entry, p.turn, a.ok))
            .(heap := s.heap[p.entry := s.heap[p.entry].(stamps := a.stamps)]);
    } else {
      step := DoReturn;
      s' := SetOwner(Move(s, t, Idle), p.entry, None).(answers := s.answers[p.turn := p.ok]);
    }
  }

  /** The owner of an entry that the holder of the global mutex waits for. */
  lemma OwnerLeaves(s: System, h: ThreadId, e: EntryId) returns (t: ThreadId, step: Step, s': System)
    requires Sound(s) && s.global == Some(h) && EntryHeld(s, PlaceOf(s, h)) != Some(e)
    requires e in s.heap && s.heap[e].owner.Some?
    ensures PlaceOf(s, t) != Idle && Next(s, s', t, step)
  {
    t := s.heap[e].owner.value;
    assert EntrySound(s, e) && ThreadSound(s, t);
    step, s' := LeaveEntry(s, t);
  }

  lemma PrunerOrOwnerSteps(s: System, h: ThreadId) returns (t: ThreadId, step: Step, s': System)
    requires Sound(s) && s.global == Some(h) && PlaceOf(s, h).Pruning?
    ensures PlaceOf(s, t) != Idle && Next(s, s', t, step)
  {
    assert ThreadSound(s, h);
    var c, todo := PlaceOf(s, h).call, PlaceOf(s, h).todo;
    t := h;
    if todo == {} {
      var unused := UnusedId(s.heap.Keys);
      step := DoFetch(unused);
      s' := if c.key in s.table then Move(s, t, Fetched(c, s.table[c.key]))
            else Move(s, t, Fetched(c, unused))
                 .(table := s.table[c.key := unused], heap := s.heap[unused := Entry([], None)]);
    } else {
      var at :| at in todo;
      assert at in s.table;
      if s.heap[s.table[at]].owner == None {
        step := DoLockVisited(at);
        s' := SetOwner(Move(s, t, Visiting(c, todo - {at}, at)), s.table[at], Some(t));
      } else {
        t, step, s' := OwnerLeaves(s, h, s.table[at]);
      }
    }
  }

  lemma HolderOrOwnerSteps(s: System, h: ThreadId) returns (t: ThreadId, step: Step, s': System)
    requires Sound(s) && s.global == Some(h) && s.log != []
    ensures PlaceOf(s, t) != Idle && Next(s, s', t, step)
  {
    hide After, Admit;
    assert ThreadSound(s, h);
    var p := PlaceOf(s, h);
    t := h;
    match p
    case Pruning(c, todo) =>
      t, step, s' := PrunerOrOwnerSteps(s, h);
    case Visiting(c, todo, at) =>
      var kept := After(s.heap[s.table[at]].stamps, c.now - Window(c.key.bucket));
      step := DoFilterVisited;
      s' := Move(s, t, Visited(c, todo, at, kept == [])).(heap := s.heap[s.table[at] := Entry(kept, None)]);
    case Visited(c, todo, at, empty) =>
      step := DoDeleteVisited;
      s' := Move(s, t, Pruning(c, todo)).(table := if empty then s.table - {at} else s.table);
    case Fetched(c, e) =>
      if s.heap[e].owner == None {
        step := DoLockEntry;
        s' := SetOwner(Move(s, t, Handover(c, e)), e, Some(t));
      } else {
        t, step, s' := OwnerLeaves(s, h, e);
      }
    case Handover(c, e) =>
      step := DoUnlockGlobal;
      s' := Move(s, t, Critical(c, e, |s.log| - 1)).(global := None);
    case _ =>
  }

  lemma {:induction false} UnusedId(used: set<int>) returns (id: EntryId)
    ensures forall e | e in used :: e < id
  {
    id := 0;
    if e :| e in used {
      var some := e;
      var rest := UnusedId(used - {some});
      id := if some < rest then rest else some + 1;
      forall e | e in used ensures e < id {
        assert e == some || e in used - {some};
      }
    }
  }
}
