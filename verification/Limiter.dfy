/** The per-IP limiter as a sequence of atomic calls: the state one call leaves, the answers
    of a whole run, the limiter that never forgets, and the bounds both obey. */
module Limiter {
  import opened SlidingWindow

  type Ip = string

  /** One sync.Map of the source each; they share one mutex and one table of prune times. */
  datatype Bucket = Ws | Api | Auth | Oidc

  datatype Key = Key(bucket: Bucket, ip: Ip)

  /** `max` is an argument: the API bucket reads it from the environment at every call. */
  datatype Call = Call(key: Key, max: int, now: Time)

  const SECOND := 1_000_000_000
  const PRUNE_INTERVAL := 30 * SECOND
  const WS_MAX := 50
  const API_MAX_DEFAULT := 30
  const AUTH_MAX := 5
  const OIDC_MAX := 20

  function Window(bucket: Bucket): (w: nat)
  {
    if bucket == Ws then 10 * SECOND else 60 * SECOND
  }

  type Store = map<Key, seq<Time>>

  datatype State = State(store: Store, lastPrune: map<Bucket, Time>)

  const EMPTY := State(map[], map[])

  /** A key without an entry has no stamps. */
  function Stored(store: Store, key: Key): seq<Time> {
    if key in store then store[key] else []
  }

  predicate Due(lastPrune: map<Bucket, Time>, bucket: Bucket, now: Time) {
    bucket in lastPrune ==> now - lastPrune[bucket] >= PRUNE_INTERVAL
  }

  function PruneStore(store: Store, bucket: Bucket, cutoff: Time): Store {
    map key | key in store && (key.bucket == bucket ==> After(store[key], cutoff) != [])
      :: if key.bucket == bucket then After(store[key], cutoff) else store[key]
  }

  function PruneIfDue(s: State, bucket: Bucket, now: Time): State {
    if Due(s.lastPrune, bucket, now)
    then State(PruneStore(s.store, bucket, now - Window(bucket)), s.lastPrune[bucket := now])
    else s
  }

  datatype Answer = Answer(state: State, ok: bool)

  function Allow(s: State, c: Call): Answer {
    var p := PruneIfDue(s, c.key.bucket, c.now);
    var a := Admit(Stored(p.store, c.key), c.now, Window(c.key.bucket), c.max);
    Answer(p.(store := p.store[c.key := a.stamps]), a.ok)
  }

  function Run(calls: seq<Call>): State {
    if calls == [] then EMPTY
    else Allow(Run(calls[..|calls| - 1]), calls[|calls| - 1]).state
  }

  function Results(calls: seq<Call>): (r: seq<bool>)
    ensures |r| == |calls|
  {
    if calls == [] then []
    else
      var n := |calls| - 1;
      Results(calls[..n]) + [Allow(Run(calls[..n]), calls[n]).ok]
  }

  /** The time stamps of the granted requests of `key`, oldest call first: all of them. */
  function Grants(calls: seq<Call>, key: Key): seq<Time> {
    if calls == [] then []
    else
      var before, c := calls[..|calls| - 1], calls[|calls| - 1];
      Logged(Grants(before, key), c.now, c.key == key && Allow(Run(before), c).ok)
  }

  /** The limiter that keeps everything: yes iff fewer than `max` requests of that IP were granted
      in the last ten seconds (WebSocket handshakes) or sixty (everything else). */
  predicate IdealOk(grants: seq<Time>, c: Call) {
    |After(grants, c.now - if c.key.bucket.Ws? then 10_000_000_000 else 60_000_000_000)| < c.max
  }

  function IdealGrants(calls: seq<Call>, key: Key): seq<Time> {
    if calls == [] then []
    else
      var before, c := calls[..|calls| - 1], calls[|calls| - 1];
      Logged(IdealGrants(before, key), c.now, c.key == key && IdealOk(IdealGrants(before, c.key), c))
  }

  function IdealResults(calls: seq<Call>): (r: seq<bool>)
    ensures |r| == |calls|
  {
    if calls == [] then []
    else
      var before, c := calls[..|calls| - 1], calls[|calls| - 1];
      IdealResults(before) + [IdealOk(IdealGrants(before, c.key), c)]
  }

  /** Nobody's clock in `bucket` is behind an earlier call's by more than `skew`. */
  predicate SkewAtMost(calls: seq<Call>, bucket: Bucket, skew: nat) {
    forall i, j | 0 <= i < j < |calls| && calls[i].key.bucket == bucket && calls[j].key.bucket == bucket
      :: calls[i].now <= calls[j].now + skew
  }

  predicate ClocksBelow(calls: seq<Call>, bucket: Bucket, latest: Time) {
    forall i | 0 <= i < |calls| && calls[i].key.bucket == bucket :: calls[i].now <= latest
  }

  predicate MaxAtMost(calls: seq<Call>, key: Key, bound: int) {
    forall i | 0 <= i < |calls| && calls[i].key == key :: calls[i].max <= bound
  }

  lemma OneMoreCall(calls: seq<Call>, c: Call, key: Key)
    ensures Run(calls + [c]) == Allow(Run(calls), c).state
    ensures Results(calls + [c]) == Results(calls) + [Allow(Run(calls), c).ok]
    ensures Grants(calls + [c], key) == Logged(Grants(calls, key), c.now, c.key == key && Allow(Run(calls), c).ok)
  {
    assert (calls + [c])[..|calls|] == calls;
  }

  lemma OneMoreIdeal(calls: seq<Call>, c: Call, key: Key)
    ensures IdealResults(calls + [c]) == IdealResults(calls) + [IdealOk(IdealGrants(calls, c.key), c)]
    ensures IdealGrants(calls + [c], key)
            == Logged(IdealGrants(calls, key), c.now, c.key == key && IdealOk(IdealGrants(calls, c.key), c))
  {
    assert (calls + [c])[..|calls|] == calls;
  }

  function KeptStamps(s: State, c: Call, key: Key): seq<Time> {
    if key.bucket == c.key.bucket && Due(s.lastPrune, c.key.bucket, c.now)
    then After(Stored(s.store, key), c.now - Window(c.key.bucket))
    else Stored(s.store, key)
  }

  lemma StoredAfterPrune(s: State, c: Call, key: Key)
    ensures var s' := PruneIfDue(s, c.key.bucket, c.now);
            && Stored(s'.store, key) == KeptStamps(s, c, key)
            && s'.lastPrune == if Due(s.lastPrune, c.key.bucket, c.now) then s.lastPrune[c.key.bucket := c.now] else s.lastPrune
  {
    assert After([], c.now - Window(c.key.bucket)) == [];
    hide After, Due;
  }

  /** What a call leaves behind for any key, with or without a prune, as if the key's stamps
      were stored alone. */
  lemma StoredAfterAllow(s: State, c: Call, key: Key)
    ensures var a := Admit(KeptStamps(s, c, c.key), c.now, Window(c.key.bucket), c.max);
            && Stored(Allow(s, c).state.store, key) == (if key == c.key then a.stamps else KeptStamps(s, c, key))
            && Allow(s, c).ok == a.ok
            && Allow(s, c).state.lastPrune
               == if Due(s.lastPrune, c.key.bucket, c.now) then s.lastPrune[c.key.bucket := c.now] else s.lastPrune
  {
    StoredAfterPrune(s, c, key);
    StoredAfterPrune(s, c, c.key);
    hide PruneIfDue, KeptStamps, Due, Admit;
  }

  /** A call tidies up behind every other IP of its bucket iff the bucket was never pruned, or not
      for thirty seconds: only stamps in the window stay, and an IP left without any is forgotten. */
  lemma PrunesAfterThirtySeconds(s: State, c: Call, key: Key)
    requires key != c.key
    ensures var s', last := Allow(s, c).state, s.lastPrune;
            var kept := After(Stored(s.store, key), c.now - if key.bucket.Ws? then 10_000_000_000 else 60_000_000_000);
            var due := c.key.bucket in last ==> c.now - last[c.key.bucket] >= 30_000_000_000;
            if due && key.bucket == c.key.bucket
            then (key in s'.store <==> kept != []) && Stored(s'.store, key) == kept && s'.lastPrune == last[key.bucket := c.now]
            else (key in s'.store <==> key in s.store) && Stored(s'.store, key) == Stored(s.store, key)
                 && s'.lastPrune == if due then last[c.key.bucket := c.now] else last
  {
    StoredAfterAllow(s, c, key);
    assert After([], c.now - Window(key.bucket)) == [];
    hide After;
  }

  /** A prune in the same call does not change what the call decides. */
  lemma PruneThenDecide(s: State, c: Call)
    ensures Allow(s, c).ok <==> |After(Stored(s.store, c.key), c.now - Window(c.key.bucket))| < c.max
  {
    hide Allow, After;
    StoredAfterAllow(s, c, c.key);
    var cutoff := c.now - Window(c.key.bucket);
    AfterAfter(Stored(s.store, c.key), cutoff, cutoff);
  }

  lemma StepInvisible(s: State, history: seq<Time>, c: Call, key: Key, latest: Time)
    requires After(Stored(s.store, key), latest - Window(key.bucket)) == After(history, latest - Window(key.bucket))
    requires c.key.bucket == key.bucket ==> c.now <= latest
    ensures After(Stored(Allow(s, c).state.store, key), latest - Window(key.bucket))
            == After(Logged(history, c.now, c.key == key && Allow(s, c).ok), latest - Window(key.bucket))
  {
    hide Allow, After;
    StoredAfterAllow(s, c, key);
    var w := Window(key.bucket);
    if c.key.bucket == key.bucket {
      AfterAfter(Stored(s.store, key), c.now - w, latest - w);
      if c.key == key {
        AdmitAgrees(KeptStamps(s, c, key), history, c.now, w, c.max, latest - w);
      }
    }
  }

  /** Pruning is invisible: whatever was pruned, by this IP's calls or by any other's, the
      stored stamps and the full record of granted ones agree beyond every cutoff used. */
  lemma {:induction false} PruningInvisible(calls: seq<Call>, key: Key, latest: Time)
    requires ClocksBelow(calls, key.bucket, latest)
    ensures After(Stored(Run(calls).store, key), latest - Window(key.bucket))
            == After(Grants(calls, key), latest - Window(key.bucket))
  {
    if calls != [] {
      var before, c := calls[..|calls| - 1], calls[|calls| - 1];
      assert calls == before + [c];
      hide Run, Allow, After, Grants;
      PruningInvisible(before, key, latest);
      OneMoreCall(before, c, key);
      StepInvisible(Run(before), Grants(before, key), c, key, latest);
    }
  }

  /** With clocks that never run backwards the forgetful limiter answers exactly as the one
      that keeps its whole history. */
  lemma {:induction false} RefinesFullHistory(calls: seq<Call>)
    requires forall bucket :: SkewAtMost(calls, bucket, 0)
    ensures Results(calls) == IdealResults(calls)
    ensures forall key :: Grants(calls, key) == IdealGrants(calls, key)
  {
    if calls != [] {
      hide Run, Allow, After, Results, Grants, IdealResults, IdealGrants, IdealOk;
      var before, c := calls[..|calls| - 1], calls[|calls| - 1];
      assert calls == before + [c];
      forall bucket ensures SkewAtMost(before, bucket, 0) {
        assert SkewAtMost(calls, bucket, 0);
      }
      RefinesFullHistory(before);
      hide SkewAtMost;
      SameDecision(before, c);
      OneMoreCall(before, c, c.key);
      OneMoreIdeal(before, c, c.key);
      forall key ensures Grants(calls, key) == IdealGrants(calls, key) {
        OneMoreCall(before, c, key);
        OneMoreIdeal(before, c, key);
      }
    }
  }

  lemma SameDecision(before: seq<Call>, c: Call)
    requires SkewAtMost(before + [c], c.key.bucket, 0) && Grants(before, c.key) == IdealGrants(before, c.key)
    ensures Allow(Run(before), c).ok == IdealOk(IdealGrants(before, c.key), c)
  {
    hide Run, Allow, After, Grants, IdealGrants;
    var latest := Latest(before, c, 0);
    assert latest == c.now;
    PruningInvisible(before, c.key, c.now);
    PruneThenDecide(Run(before), c);
  }

  /** The bound that survives skewed clocks: if no clock lags an earlier call by more than
      `skew`, an interval one window less `skew` long holds at most `bound` granted requests
      of an IP. With skew 0 this is the advertised window. */
  lemma {:induction false} WindowBound(calls: seq<Call>, key: Key, bound: nat, skew: nat, lo: Time)
    requires SkewAtMost(calls, key.bucket, skew)
    requires MaxAtMost(calls, key, bound)
    ensures CountIn(Grants(calls, key), lo, lo + (if key.bucket.Ws? then 10_000_000_000 else 60_000_000_000) - skew) <= bound
  {
    if calls != [] {
      var before, c := calls[..|calls| - 1], calls[|calls| - 1];
      hide Run, Allow, After, CountIn, Grants;
      assert calls == before + [c];
      WindowBound(before, key, bound, skew, lo);
      assert c.key == key ==> c.max <= bound;
      CallKeepsBound(before, c, key, bound, skew, lo);
    }
  }

  lemma CallKeepsBound(before: seq<Call>, c: Call, key: Key, bound: nat, skew: nat, lo: Time)
    requires SkewAtMost(before + [c], key.bucket, skew)
    requires c.key == key ==> c.max <= bound
    requires CountIn(Grants(before, key), lo, lo + Window(key.bucket) - skew) <= bound
    ensures CountIn(Grants(before + [c], key), lo, lo + Window(key.bucket) - skew) <= bound
  {
    hide Run, Allow, Grants, After, CountIn;
    OneMoreCall(before, c, key);
    if c.key == key {
      var latest := Latest(before, c, skew);
      PruningInvisible(before, key, latest);
      StepBound(Run(before), Grants(before, key), c, bound, latest, skew, lo);
    }
  }

  lemma StepBound(s: State, history: seq<Time>, c: Call, bound: nat, latest: Time, skew: nat, lo: Time)
    requires After(Stored(s.store, c.key), latest - Window(c.key.bucket)) == After(history, latest - Window(c.key.bucket))
    requires c.max <= bound && c.now <= latest <= c.now + skew
    requires CountIn(history, lo, lo + Window(c.key.bucket) - skew) <= bound
    ensures CountIn(Logged(history, c.now, Allow(s, c).ok), lo, lo + Window(c.key.bucket) - skew) <= bound
  {
    hide Allow, After, CountIn;
    var w := Window(c.key.bucket);
    StoredAfterAllow(s, c, c.key);
    AfterAfter(Stored(s.store, c.key), c.now - w, latest - w);
    AdmitKeepsBound(KeptStamps(s, c, c.key), history, c.now, w, c.max, bound, latest, skew, lo);
  }

  /** The largest clock of the bucket so far; the last call is at most `skew` behind it. */
  lemma {:induction false} Latest(before: seq<Call>, last: Call, skew: nat) returns (latest: Time)
    requires SkewAtMost(before + [last], last.key.bucket, skew)
    ensures ClocksBelow(before, last.key.bucket, latest)
    ensures last.now <= latest <= last.now + skew
  {
    latest := last.now;
    for i := 0 to |before|
      invariant ClocksBelow(before[..i], last.key.bucket, latest)
      invariant last.now <= latest <= last.now + skew
    {
      assert (before + [last])[i] == before[i] && (before + [last])[|before|] == last;
      if before[i].key.bucket == last.key.bucket && before[i].now > latest {
        latest := before[i].now;
      }
    }
    assert before[..|before|] == before;
  }

  /** The bound is tight. One request per window, and a clock `skew` behind: another IP's call
      prunes the first grant, and the late clock is granted again, so an interval just one
      tick longer than the window less `skew` holds two grants. The limiter that keeps its
      history would have refused. */
  lemma SkewBoundIsTight(bucket: Bucket, skew: nat) returns (calls: seq<Call>, key: Key, lo: Time)
    requires 1 <= skew <= if bucket.Ws? then 10_000_000_000 else 60_000_000_000
    ensures SkewAtMost(calls, bucket, skew)
    ensures MaxAtMost(calls, key, 1)
    ensures CountIn(Grants(calls, key), lo, lo + (if bucket.Ws? then 10_000_000_000 else 60_000_000_000) - skew + 1) == 2
    ensures Results(calls) != IdealResults(calls)
  {
    hide Run, Allow, After, Results, Grants, IdealResults, IdealGrants, CountIn;
    var w := Window(bucket);
    key, lo := Key(bucket, "a"), PRUNE_INTERVAL - 1;
    var other := Key(bucket, "b");
    var middle := [Call(other, 1, 0), Call(key, 1, lo), Call(other, 1, lo + w)];
    var late := Call(key, 1, lo + w - skew);
    calls := middle + [late];
    LateClock(middle, late, bucket, skew, lo);
    hide SkewAtMost, MaxAtMost, Window;
    AfterPruneByOther(key, other, lo);
    StepRegrants(middle, late, lo);
    TwoGrants(lo, late.now, lo + w - skew + 1);
  }

  lemma LateClock(middle: seq<Call>, late: Call, bucket: Bucket, skew: nat, lo: Time)
    requires |middle| == 3 && late.max == 1 && forall i | 0 <= i < 3 :: middle[i].max == 1
    requires middle[0].now <= middle[1].now <= middle[2].now <= late.now + skew && middle[1].now <= late.now
    ensures SkewAtMost(middle + [late], bucket, skew) && MaxAtMost(middle + [late], late.key, 1)
  {
  }

  lemma TwoGrants(first: Time, second: Time, hi: Time)
    requires first <= second < hi
    ensures CountIn([first, second], first, hi) == 2
  {
    CountSnoc([], first, first, hi);
    CountSnoc([first], second, first, hi);
    assert [] + [first] == [first] && [first] + [second] == [first, second];
  }

  /** One grant at `lo`, and one window later the prune by another IP's call that forgets it. */
  lemma {:induction false} AfterPruneByOther(key: Key, other: Key, lo: Time)
    requires key != other && key.bucket == other.bucket && lo == PRUNE_INTERVAL - 1
    ensures var calls := [Call(other, 1, 0), Call(key, 1, lo), Call(other, 1, lo + Window(key.bucket))];
            Grants(calls, key) == IdealGrants(calls, key) == [lo] && Stored(Run(calls).store, key) == []
  {
    var c0, c1, c2 := Call(other, 1, 0), Call(key, 1, lo), Call(other, 1, lo + Window(key.bucket));
    assert [] + [c0] == [c0] && [c0] + [c1] == [c0, c1] && [c0, c1] + [c2] == [c0, c1, c2];
    var s1, s2 := [c0], [c0, c1];
    assert Run([]) == EMPTY && Grants([], key) == IdealGrants([], key) == [];
    hide Run, Allow, Grants, IdealGrants;
    OneMoreCall([], c0, key);
    OneMoreIdeal([], c0, key);
    StoredAfterAllow(EMPTY, c0, key);
    assert Grants(s1, key) == IdealGrants(s1, key) == [] && Stored(Run(s1).store, key) == [];
    assert Run(s1).lastPrune == map[key.bucket := 0];
    OneMoreCall(s1, c1, key);
    OneMoreIdeal(s1, c1, key);
    StoredAfterAllow(Run(s1), c1, key);
    assert Grants(s2, key) == IdealGrants(s2, key) == [lo] && Stored(Run(s2).store, key) == [lo];
    assert Run(s2).lastPrune == map[key.bucket := 0];
    OneMoreCall(s2, c2, key);
    OneMoreIdeal(s2, c2, key);
    StoredAfterAllow(Run(s2), c2, key);
    AfterSnoc([], lo, lo);
    assert [] + [lo] == [lo];
  }

  lemma StepRegrants(before: seq<Call>, late: Call, lo: Time)
    requires Grants(before, late.key) == IdealGrants(before, late.key) == [lo]
    requires Stored(Run(before).store, late.key) == []
    requires late.max == 1 && late.now - Window(late.key.bucket) < lo
    ensures Grants(before + [late], late.key) == [lo, late.now]
    ensures Results(before + [late]) != IdealResults(before + [late])
  {
    GrantsAgain(Run(before), late, lo);
    hide Run, Allow, After, Results, Grants, IdealResults, IdealGrants, Window, IdealOk;
    OneMoreCall(before, late, late.key);
    OneMoreIdeal(before, late, late.key);
    assert Results(before + [late])[|before|] && !IdealResults(before + [late])[|before|];
  }

  /** The forgetful limiter says yes where the one with full history says no. */
  lemma GrantsAgain(s: State, late: Call, lo: Time)
    requires Stored(s.store, late.key) == [] && late.max == 1 && late.now - Window(late.key.bucket) < lo
    ensures Allow(s, late).ok && !IdealOk([lo], late)
  {
    assert After([], late.now - Window(late.key.bucket)) == [];
    PruneThenDecide(s, late);
    AfterSnoc([], lo, late.now - Window(late.key.bucket));
    assert [] + [lo] == [lo];
    hide Allow, After, Window;
  }
}
