/** The two in-memory stores of a login with an identity provider: the `state` of section 4.1.1 of
    RFC 6749 with the `code_verifier` of section 4.1 of RFC 7636, and the tokens a callback leaves
    for redemption. An entry can be taken once, while it is young; expired ones are pruned on every
    put and by a ticker, and a full store refuses. Times are in nanoseconds. */
module OneTimeStore {
  import opened Options

  datatype Entry<V> = Entry(value: V, createdAt: int)

  datatype Config = Config(ttl: nat, cap: nat)

  const STATES := Config(600_000_000_000, 1024)
  const TOKENS := Config(300_000_000_000, 256)

  datatype Call<V> =
    | Put(key: string, entry: Entry<V>, now: int)
    | Take(key: string, now: int)
    | Tick(now: int)

  datatype Answer<V> = Stored(ok: bool) | Got(entry: Option<Entry<V>>) | Silent

  predicate Live<V>(c: Config, e: Entry<V>, now: int) {
    now - e.createdAt <= c.ttl
  }

  function Pruned<V>(c: Config, m: map<string, Entry<V>>, now: int): map<string, Entry<V>> {
    map k | k in m && Live(c, m[k], now) :: m[k]
  }

  function Without<V>(m: map<string, Entry<V>>, key: string): map<string, Entry<V>> {
    map k | k in m && k != key :: m[k]
  }

  // The store.

  function Do<V>(c: Config, m: map<string, Entry<V>>, call: Call<V>): (map<string, Entry<V>>, Answer<V>) {
    match call
    case Put(key, entry, now) =>
      var left := Pruned(c, m, now);
      if key !in left && |left| >= c.cap then (left, Stored(false)) else (left[key := entry], Stored(true))
    case Take(key, now) =>
      (Without(m, key), Got(if key in m && Live(c, m[key], now) then Some(m[key]) else None))
    case Tick(now) => (Pruned(c, m, now), Silent)
  }

  function Run<V>(c: Config, calls: seq<Call<V>>): map<string, Entry<V>> {
    if calls == [] then map[] else Do(c, Run(c, calls[..|calls| - 1]), calls[|calls| - 1]).0
  }

  function Answers<V>(c: Config, calls: seq<Call<V>>): (a: seq<Answer<V>>)
    ensures |a| == |calls|
  {
    if calls == [] then []
    else Answers(c, calls[..|calls| - 1]) + [Do(c, Run(c, calls[..|calls| - 1]), calls[|calls| - 1]).1]
  }

  /** The clock is read under the store's lock. */
  predicate InOrder<V>(calls: seq<Call<V>>) {
    forall i, j | 0 <= i < j < |calls| :: calls[i].now <= calls[j].now
  }

  /** The stores as they run; one class, two configurations. */
  class Store<V> {
    const config: Config
    var store: map<string, Entry<V>>

    constructor (c: Config)
      ensures config == c && store == map[]
    {
      config, store := c, map[];
    }

    method PruneExpired(now: int)
      modifies this
      ensures store == Pruned(config, old(store), now)
    {
      var cutoff := now - config.ttl;
      var todo := store.Keys;
      while todo != {}
        invariant todo <= store.Keys <= old(store).Keys
        invariant forall k | k in store :: store[k] == old(store)[k]
        invariant forall k | k in old(store) && k !in todo :: k in store <==> old(store)[k].createdAt >= cutoff
      {
        var k :| k in todo;
        if store[k].createdAt < cutoff {
          store := store - {k};
        }
        todo := todo - {k};
      }
    }

    method PutEntry(key: string, entry: Entry<V>, now: int) returns (ok: bool)
      modifies this
      ensures (store, Stored(ok)) == Do(config, old(store), Put(key, entry, now))
    {
      PruneExpired(now);
      if key !in store && |store| >= config.cap {
        return false;
      }
      store := store[key := entry];
      return true;
    }

    method TakeEntry(key: string, now: int) returns (entry: Option<Entry<V>>)
      modifies this
      ensures (store, Got(entry)) == Do(config, old(store), Take(key, now))
    {
      entry := if key in store then Some(store[key]) else None;
      store := store - {key};
      assert store == Without(old(store), key);
      if entry.None? || now - entry.value.createdAt > config.ttl {
        return None;
      }
    }
  }

  // The reference: a map that is never pruned.

  function Ideal<V>(c: Config, m: map<string, Entry<V>>, call: Call<V>): (map<string, Entry<V>>, Answer<V>) {
    match call
    case Put(key, entry, now) =>
      if !(key in m && Live(c, m[key], now)) && |Pruned(c, m, now)| >= c.cap then (m, Stored(false))
      else (m[key := entry], Stored(true))
    case Take(key, now) =>
      (Without(m, key), Got(if key in m && Live(c, m[key], now) then Some(m[key]) else None))
    case Tick(now) => (m, Silent)
  }

  function IdealRun<V>(c: Config, calls: seq<Call<V>>): map<string, Entry<V>> {
    if calls == [] then map[] else Ideal(c, IdealRun(c, calls[..|calls| - 1]), calls[|calls| - 1]).0
  }

  function IdealAnswers<V>(c: Config, calls: seq<Call<V>>): (a: seq<Answer<V>>)
    ensures |a| == |calls|
  {
    if calls == [] then []
    else IdealAnswers(c, calls[..|calls| - 1]) + [Ideal(c, IdealRun(c, calls[..|calls| - 1]), calls[|calls| - 1]).1]
  }

  ghost predicate SameLive<V>(c: Config, m: map<string, Entry<V>>, ideal: map<string, Entry<V>>, now: int) {
    Pruned(c, m, now) == Pruned(c, ideal, now)
  }

  lemma SameLiveLater<V>(c: Config, m: map<string, Entry<V>>, ideal: map<string, Entry<V>>, now: int, later: int)
    requires SameLive(c, m, ideal, now) && now <= later
    ensures SameLive(c, m, ideal, later)
  {
    forall k ensures k in Pruned(c, m, later) <==> k in Pruned(c, ideal, later) {
      assert k in Pruned(c, m, now) <==> k in Pruned(c, ideal, now);
    }
    forall k | k in Pruned(c, m, later) ensures m[k] == ideal[k] {
      assert k in Pruned(c, m, now) && Pruned(c, m, now)[k] == Pruned(c, ideal, now)[k];
    }
  }

  /** One call: the same answer, and the same entries live after it. */
  lemma CallRefines<V>(c: Config, m: map<string, Entry<V>>, ideal: map<string, Entry<V>>, call: Call<V>)
    requires SameLive(c, m, ideal, call.now)
    ensures Do(c, m, call).1 == Ideal(c, ideal, call).1
    ensures SameLive(c, Do(c, m, call).0, Ideal(c, ideal, call).0, call.now)
  {
    var now, live := call.now, Pruned(c, m, call.now);
    assert forall k :: k in live <==> k in ideal && Live(c, ideal[k], now);
    assert forall k | k in live :: live[k] == m[k] == ideal[k];
    var m', ideal' := Do(c, m, call).0, Ideal(c, ideal, call).0;
    assert Pruned(c, m', now) == Pruned(c, ideal', now);
  }

  /** Pruning, the ticker and the order of deletions cannot be observed: the store answers every
      run of calls like a map that never forgets, whose capacity counts live entries only. */
  lemma {:induction false} RefinesNeverPruned<V>(c: Config, calls: seq<Call<V>>)
    requires InOrder(calls)
    ensures Answers(c, calls) == IdealAnswers(c, calls)
    ensures calls != [] ==> SameLive(c, Run(c, calls), IdealRun(c, calls), calls[|calls| - 1].now)
  {
    if calls != [] {
      var n := |calls| - 1;
      RefinesNeverPruned(c, calls[..n]);
      var m, ideal := Run(c, calls[..n]), IdealRun(c, calls[..n]);
      if n > 0 {
        SameLiveLater(c, m, ideal, calls[n - 1].now, calls[n].now);
      }
      CallRefines(c, m, ideal, calls[n]);
      hide SameLive, Do, Ideal;
    }
  }

  // The history: which entry is held under a key.

  /** The last accepted put under the key that no take has followed. */
  function Held<V>(calls: seq<Call<V>>, answers: seq<Answer<V>>, key: string): Option<Entry<V>>
    requires |answers| == |calls|
  {
    if calls == [] then None
    else
      var n := |calls| - 1;
      var before := Held(calls[..n], answers[..n], key);
      match calls[n]
      case Put(k, entry, _) => if k == key && answers[n] == Stored(true) then Some(entry) else before
      case Take(k, _) => if k == key then None else before
      case Tick(_) => before
  }

  function KeysPut<V>(calls: seq<Call<V>>): set<string> {
    set i | 0 <= i < |calls| && calls[i].Put? :: calls[i].key
  }

  /** The keys with a held entry that is at most `ttl` old. */
  function LiveKeys<V>(ttl: nat, calls: seq<Call<V>>, answers: seq<Answer<V>>, now: int): set<string>
    requires |answers| == |calls|
  {
    set k | k in KeysPut(calls) && Held(calls, answers, k).Some? && now - Held(calls, answers, k).value.createdAt <= ttl
  }

  lemma {:induction false} IdealHolds<V>(c: Config, calls: seq<Call<V>>, key: string)
    ensures Held(calls, IdealAnswers(c, calls), key)
            == if key in IdealRun(c, calls) then Some(IdealRun(c, calls)[key]) else None
    ensures key in IdealRun(c, calls) ==> key in KeysPut(calls)
  {
    if calls != [] {
      var n := |calls| - 1;
      IdealHolds(c, calls[..n], key);
      assert IdealAnswers(c, calls)[..n] == IdealAnswers(c, calls[..n]);
      if key in KeysPut(calls[..n]) {
        var i :| 0 <= i < n && calls[..n][i].Put? && calls[..n][i].key == key;
        assert calls[i].Put? && calls[i].key == key;
      }
    }
  }

  lemma NextAnswer<V>(c: Config, calls: seq<Call<V>>, call: Call<V>)
    requires InOrder(calls + [call])
    ensures Answers(c, calls + [call])[|calls|] == Ideal(c, IdealRun(c, calls), call).1
    ensures Answers(c, calls) == IdealAnswers(c, calls)
  {
    var all := calls + [call];
    assert all[..|calls|] == calls;
    assert forall i | 0 <= i < |calls| :: calls[i] == all[i];
    RefinesNeverPruned(c, all);
    RefinesNeverPruned(c, calls);
  }

  /** A take succeeds iff an accepted put that no take has followed is young enough, and gives that
      put's entry. */
  lemma TakeExplained<V>(c: Config, calls: seq<Call<V>>, key: string, now: int)
    requires InOrder(calls + [Take(key, now)])
    ensures var held := Held(calls, Answers(c, calls), key);
            Answers(c, calls + [Take(key, now)])[|calls|]
            == Got(if held.Some? && now - held.value.createdAt <= c.ttl then held else None)
  {
    NextAnswer(c, calls, Take(key, now));
    IdealHolds(c, calls, key);
  }

  lemma LiveKeysArePruned<V>(c: Config, calls: seq<Call<V>>, now: int)
    ensures LiveKeys(c.ttl, calls, IdealAnswers(c, calls), now) == Pruned(c, IdealRun(c, calls), now).Keys
  {
    var ideal, answers := IdealRun(c, calls), IdealAnswers(c, calls);
    forall k ensures Held(calls, answers, k) == (if k in ideal then Some(ideal[k]) else None)
                     && (k in ideal ==> k in KeysPut(calls)) {
      IdealHolds(c, calls, k);
    }
    hide Held, KeysPut, IdealAnswers, IdealRun;
  }

  /** A put is refused iff its key is not live and the live entries fill the store. */
  lemma PutExplained<V>(c: Config, calls: seq<Call<V>>, key: string, entry: Entry<V>, now: int)
    requires InOrder(calls + [Put(key, entry, now)])
    ensures var live := LiveKeys(c.ttl, calls, Answers(c, calls), now);
            Answers(c, calls + [Put(key, entry, now)])[|calls|] == Stored(key in live || |live| < c.cap)
  {
    NextAnswer(c, calls, Put(key, entry, now));
    LiveKeysArePruned(c, calls, now);
    hide LiveKeys, Answers, IdealAnswers, IdealRun, InOrder, Live;
    var live := Pruned(c, IdealRun(c, calls), now);
    assert key in live.Keys <==> key in IdealRun(c, calls) && Live(c, IdealRun(c, calls)[key], now);
    assert |live| == |live.Keys|;
  }

  /** A login's state is good for ten minutes, and 1024 logins can be under way. */
  lemma StatesLastTenMinutes<V>(calls: seq<Call<V>>, key: string, entry: Entry<V>, now: int)
    requires InOrder(calls) && forall i | 0 <= i < |calls| :: calls[i].now <= now
    ensures var held := Held(calls, Answers(STATES, calls), key);
            Answers(STATES, calls + [Take(key, now)])[|calls|]
            == Got(if held.Some? && now - held.value.createdAt <= 600_000_000_000 then held else None)
    ensures var live := LiveKeys(600_000_000_000, calls, Answers(STATES, calls), now);
            Answers(STATES, calls + [Put(key, entry, now)])[|calls|] == Stored(key in live || |live| < 1024)
  {
    hide Answers, Held, LiveKeys;
    TakeExplained(STATES, calls, key, now);
    PutExplained(STATES, calls, key, entry, now);
  }

  /** The tokens of a callback are good for five minutes, and 256 can wait for redemption. */
  lemma TokensLastFiveMinutes<V>(calls: seq<Call<V>>, key: string, entry: Entry<V>, now: int)
    requires InOrder(calls) && forall i | 0 <= i < |calls| :: calls[i].now <= now
    ensures var held := Held(calls, Answers(TOKENS, calls), key);
            Answers(TOKENS, calls + [Take(key, now)])[|calls|]
            == Got(if held.Some? && now - held.value.createdAt <= 300_000_000_000 then held else None)
    ensures var live := LiveKeys(300_000_000_000, calls, Answers(TOKENS, calls), now);
            Answers(TOKENS, calls + [Put(key, entry, now)])[|calls|] == Stored(key in live || |live| < 256)
  {
    hide Answers, Held, LiveKeys;
    TakeExplained(TOKENS, calls, key, now);
    PutExplained(TOKENS, calls, key, entry, now);
  }

  // Counting.

  function AcceptedPuts<V>(calls: seq<Call<V>>, answers: seq<Answer<V>>, key: string): nat
    requires |answers| == |calls|
  {
    if calls == [] then 0
    else
      var n := |calls| - 1;
      AcceptedPuts(calls[..n], answers[..n], key)
      + if calls[n].Put? && calls[n].key == key && answers[n] == Stored(true) then 1 else 0
  }

  function SuccessfulTakes<V>(calls: seq<Call<V>>, answers: seq<Answer<V>>, key: string): nat
    requires |answers| == |calls|
  {
    if calls == [] then 0
    else
      var n := |calls| - 1;
      SuccessfulTakes(calls[..n], answers[..n], key)
      + if calls[n].Take? && calls[n].key == key && answers[n].Got? && answers[n].entry.Some? then 1 else 0
  }

  /** Takes are paid for by puts, whatever the clock does. */
  lemma {:induction false} TakesNeverExceedPuts<V>(c: Config, calls: seq<Call<V>>, key: string)
    ensures SuccessfulTakes(calls, Answers(c, calls), key) + (if key in Run(c, calls) then 1 else 0)
            <= AcceptedPuts(calls, Answers(c, calls), key)
  {
    if calls != [] {
      var n := |calls| - 1;
      TakesNeverExceedPuts(c, calls[..n], key);
      assert Answers(c, calls)[..n] == Answers(c, calls[..n]);
    }
  }

  lemma {:induction false} AnswerAt<V>(c: Config, calls: seq<Call<V>>, k: nat)
    requires k < |calls|
    ensures Answers(c, calls)[k] == Do(c, Run(c, calls[..k]), calls[k]).1
  {
    var n := |calls| - 1;
    var before := calls[..n];
    assert Answers(c, calls) == Answers(c, before) + [Do(c, Run(c, before), calls[n]).1];
    hide Answers, Run, Do;
    if k < n {
      AnswerAt(c, before, k);
      assert before[..k] == calls[..k];
    }
  }

  /** What one call does to an entry: an accepted put replaces it, a take removes it, nothing else
      changes it. */
  lemma EntryAfter<V>(c: Config, m: map<string, Entry<V>>, call: Call<V>, key: string)
    requires key in Do(c, m, call).0
    ensures if call.Put? && call.key == key && Do(c, m, call).1 == Stored(true) then Do(c, m, call).0[key] == call.entry
            else key in m && Do(c, m, call).0[key] == m[key] && !(call.Take? && call.key == key)
  {
  }

  /** The call at `k` is an accepted put of this entry, and no take of its key has followed. */
  ghost predicate PutSince<V>(c: Config, calls: seq<Call<V>>, key: string, entry: Entry<V>, k: nat) {
    && k < |calls| && calls[k].Put? && calls[k].key == key && calls[k].entry == entry
    && Do(c, Run(c, calls[..k]), calls[k]).1 == Stored(true)
    && forall i | k < i < |calls| :: !(calls[i].Take? && calls[i].key == key)
  }

  lemma PutSinceGrows<V>(c: Config, before: seq<Call<V>>, last: Call<V>, key: string, entry: Entry<V>, k: nat)
    requires PutSince(c, before, key, entry, k) && !(last.Take? && last.key == key)
    ensures PutSince(c, before + [last], key, entry, k)
  {
    hide Run, Do;
    assert (before + [last])[..k] == before[..k];
  }

  lemma RunOneMore<V>(c: Config, before: seq<Call<V>>, last: Call<V>)
    ensures Run(c, before + [last]) == Do(c, Run(c, before), last).0
  {
    assert (before + [last])[..|before|] == before;
  }

  lemma PutSinceLast<V>(c: Config, before: seq<Call<V>>, last: Call<V>, key: string)
    requires last.Put? && last.key == key && Do(c, Run(c, before), last).1 == Stored(true)
    ensures PutSince(c, before + [last], key, last.entry, |before|)
  {
    hide Run, Do;
    assert (before + [last])[..|before|] == before;
  }

  /** An entry in the store comes from an accepted put that no take of its key has followed. */
  lemma {:induction false} StoredSincePut<V>(c: Config, calls: seq<Call<V>>, key: string) returns (k: nat)
    requires key in Run(c, calls)
    ensures PutSince(c, calls, key, Run(c, calls)[key], k)
  {
    assert calls != [];
    hide Run, Do, PutSince;
    var before, last := calls[..|calls| - 1], calls[|calls| - 1];
    assert calls == before + [last];
    RunOneMore(c, before, last);
    EntryAfter(c, Run(c, before), last, key);
    if last.Put? && last.key == key && Do(c, Run(c, before), last).1 == Stored(true) {
      k := |before|;
      PutSinceLast(c, before, last, key);
    } else {
      k := StoredSincePut(c, before, key);
      PutSinceGrows(c, before, last, key, Run(c, before)[key], k);
    }
  }

  /** One use: between a take of a key and a later successful one lies an accepted put of that key,
      and the entry given is that put's. */
  lemma OnePutOneTake<V>(c: Config, calls: seq<Call<V>>, key: string, i: nat, j: nat) returns (k: nat)
    requires i < j < |calls| && calls[i].Take? && calls[i].key == key && calls[j].Take? && calls[j].key == key
    requires Answers(c, calls)[j].Got? && Answers(c, calls)[j].entry.Some?
    ensures i < k < j && calls[k].Put? && calls[k].key == key && Answers(c, calls)[k] == Stored(true)
    ensures Answers(c, calls)[j] == Got(Some(calls[k].entry))
  {
    AnswerAt(c, calls, j);
    var before := calls[..j];
    assert key in Run(c, before) && Answers(c, calls)[j] == Got(Some(Run(c, before)[key]));
    hide Run, Do, Answers;
    k := StoredSincePut(c, before, key);
    AnswerAt(c, calls, k);
    assert before[..k] == calls[..k] && before[i] == calls[i];
  }

  /** The store never outgrows its cap. */
  lemma {:induction false} SizeWithinCap<V>(c: Config, calls: seq<Call<V>>)
    ensures |Run(c, calls)| <= c.cap
  {
    if calls != [] {
      var n := |calls| - 1;
      SizeWithinCap(c, calls[..n]);
      CallWithinCap(c, Run(c, calls[..n]), calls[n]);
    }
  }

  lemma CallWithinCap<V>(c: Config, m: map<string, Entry<V>>, call: Call<V>)
    requires |m| <= c.cap
    ensures |Do(c, m, call).0| <= c.cap
  {
    match call
    case Put(key, entry, now) =>
      SubmapSize(Pruned(c, m, now), m);
      var left := Pruned(c, m, now);
      if key in left {
        assert left[key := entry].Keys == left.Keys;
      } else {
        assert left[key := entry].Keys == left.Keys + {key};
      }
    case Take(key, now) => SubmapSize(Without(m, key), m);
    case Tick(now) => SubmapSize(Pruned(c, m, now), m);
  }

  lemma SubmapSize<V>(part: map<string, Entry<V>>, m: map<string, Entry<V>>)
    requires part.Keys <= m.Keys
    ensures |part| <= |m|
  {
    SubsetSize(part.Keys, m.Keys);
    assert |part| == |part.Keys| && |m| == |m.Keys|;
  }

  lemma {:induction false} SubsetSize(part: set<string>, all: set<string>)
    requires part <= all
    ensures |part| <= |all|
  {
    if part != {} {
      var x :| x in part;
      SubsetSize(part - {x}, all - {x});
    }
  }
}
