/** The rate limiter as the source keeps it: one entry object per key, each entry a slice over
    a backing array that is compacted in place. Every method is tied to the functions of
    `Limiter`, whose lemmas then speak about this class. */
module RateLimiter {
  import opened Options
  import opened SlidingWindow
  import opened Limiter

  /** A Go slice of time stamps: the first `len` cells of `data`. */
  class Entry {
    var data: array<Time>
    var len: nat

    ghost predicate Valid()
      reads this
    {
      len <= data.Length
    }

    ghost function Contents(): seq<Time>
      reads this, data
      requires Valid()
    {
      data[..len]
    }

    constructor ()
      ensures Valid() && fresh(data) && Contents() == []
    {
      data, len := new Time[0], 0;
    }

    /** Filters while reading and writing the same backing array. */
    method DropExpired(cutoff: Time)
      requires Valid()
      modifies this`len, data
      ensures Valid() && Contents() == After(old(Contents()), cutoff)
    {
      hide After;
      ghost var stamps := Contents();
      len := Compact(cutoff, stamps);
      assert data[..len] == After(stamps, cutoff);
    }

    /** Moves the late stamps to the front. */
    method Compact(cutoff: Time, ghost stamps: seq<Time>) returns (kept: nat)
      requires Valid() && |stamps| == len && forall j | 0 <= j < len :: data[j] == stamps[j]
      modifies data
      ensures kept <= len && kept == |After(stamps, cutoff)|
      ensures forall j | 0 <= j < kept :: data[j] == After(stamps, cutoff)[j]
    {
      ghost var filtered: seq<Time> := [];
      assert stamps[..0] == [] && After([], cutoff) == [];
      assert stamps[..len] == stamps;
      hide *;
      kept := 0;
      for i := 0 to len
        invariant kept == |filtered| <= i && filtered == After(stamps[..i], cutoff)
        invariant forall j | i <= j < len :: data[j] == stamps[j]
        invariant forall j | 0 <= j < kept :: data[j] == filtered[j]
      {
        AfterNext(stamps, i, cutoff);
        var stamp := data[i];
        if stamp > cutoff {
          data[kept] := stamp;
          kept, filtered := kept + 1, filtered + [stamp];
        }
      }
    }

    /** Go's append: in place while the capacity lasts, else into a larger array. */
    method Append(stamp: Time)
      requires Valid()
      modifies this, data
      ensures Valid() && Contents() == old(Contents()) + [stamp]
      ensures data == old(data) || fresh(data)
    {
      if len == data.Length {
        var grown := new Time[2 * len + 1];
        for i := 0 to len
          invariant unchanged(this) && unchanged(data)
          invariant grown[..i] == data[..i]
        {
          grown[i] := data[i];
        }
        data := grown;
      }
      data[len] := stamp;
      len := len + 1;
    }
  }

  /** The stored stamps while a prune of `bucket` still has to visit the keys in `todo`. */
  ghost predicate PartlyPruned(store: Store, before: Store, bucket: Bucket, cutoff: Time, todo: set<Key>) {
    && store.Keys <= before.Keys
    && todo <= store.Keys
    && (forall key | key in todo :: key.bucket == bucket)
    && (forall key | key in before && (key in todo || key.bucket != bucket) :: key in store && store[key] == before[key])
    && (forall key | key in before && key !in todo && key.bucket == bucket ::
          && (key in store <==> After(before[key], cutoff) != [])
          && (key in store ==> store[key] == After(before[key], cutoff)))
  }

  function VisitedStore(store: Store, key: Key, cutoff: Time): Store
    requires key in store
  {
    var kept := After(store[key], cutoff);
    if kept == [] then store - {key} else store[key := kept]
  }

  lemma PruneBegins(before: Store, bucket: Bucket, cutoff: Time, todo: set<Key>)
    requires todo == set key | key in before && key.bucket == bucket
    ensures PartlyPruned(before, before, bucket, cutoff, todo)
  {
  }

  lemma PruneContinues(store: Store, before: Store, bucket: Bucket, cutoff: Time, todo: set<Key>, key: Key)
    requires PartlyPruned(store, before, bucket, cutoff, todo) && key in todo
    ensures key in store
    ensures PartlyPruned(VisitedStore(store, key, cutoff), before, bucket, cutoff, todo - {key})
    ensures todo - {key} <= VisitedStore(store, key, cutoff).Keys
  {
    hide After;
  }

  lemma PruneEnds(store: Store, before: Store, bucket: Bucket, cutoff: Time)
    requires PartlyPruned(store, before, bucket, cutoff, {})
    ensures store == PruneStore(before, bucket, cutoff)
  {
    hide After;
  }

  lemma OneKeyChanged(before: Store, after: Store, key: Key)
    requires key in after && after.Keys == before.Keys + {key}
    requires forall k | k in before && k != key :: after[k] == before[k]
    ensures after == before[key := after[key]]
  {
  }

  class RateLimiter {
    var entries: map<Key, Entry>
    var lastPrune: map<Bucket, Time>
    ghost var Repr: set<object>

    /** No two keys share an entry or a backing array. */
    ghost predicate Valid()
      reads this, Repr
    {
      && this in Repr
      && (forall key | key in entries :: Owned(entries[key]))
      && (forall a, b | a in entries && b in entries && a != b ::
            entries[a] != entries[b] && entries[a].data != entries[b].data)
    }

    ghost predicate Owned(entry: Entry)
      reads this, Repr
    {
      entry in Repr && entry.data in Repr && entry.Valid() && (entry as object) != this
    }

    ghost function Store(): Store
      reads this, Repr
      requires Valid()
    {
      map key | key in entries :: entries[key].Contents()
    }

    ghost function View(): State
      reads this, Repr
      requires Valid()
    {
      State(Store(), lastPrune)
    }

    constructor ()
      ensures Valid() && fresh(Repr) && View() == EMPTY
    {
      entries, lastPrune := map[], map[];
      Repr := {this};
    }

    /** The filtering loop on one stored entry; no other key's stamps change. */
    method DropExpiredAt(key: Key, cutoff: Time)
      requires Valid() && key in entries
      modifies Repr - {this}
      ensures Valid()
      ensures Store() == old(Store())[key := After(old(Store())[key], cutoff)]
    {
      var entry := entries[key];
      entry.DropExpired(cutoff);
      OnlyChanged(key);
    }

    method AppendAt(key: Key, now: Time)
      requires Valid() && key in entries
      modifies this`Repr, Repr - {this}
      ensures Valid() && fresh(Repr - old(Repr))
      ensures Store() == old(Store())[key := old(Store())[key] + [now]]
    {
      var entry := entries[key];
      entry.Append(now);
      Repr := Repr + {entry.data};
      OnlyChanged(key);
    }

    /** Of what the class owned, only the entry of `key` and its array may have changed. */
    twostate predicate ChangedOnly(key: Key)
      requires key in old(entries) && key in entries && old(Repr) <= Repr
      reads this, Repr
    {
      && entries == old(entries)
      && (forall o | o in old(Repr) && o != this && o != old(entries[key]) && o != old(entries[key].data) :: unchanged(o))
      && Owned(entries[key])
      && (entries[key].data == old(entries[key].data) || fresh(entries[key].data))
    }

    twostate lemma StoreOnlyChanged(key: Key)
      requires old(Valid()) && Valid() && key in old(entries) && key in entries && old(Repr) <= Repr && ChangedOnly(key)
      ensures Store() == old(Store())[key := entries[key].Contents()]
    {
      assert Store().Keys == entries.Keys == old(Store().Keys);
      forall k | k in entries && k != key ensures Store()[k] == old(Store())[k] {
        assert old(Owned(entries[k]) && Owned(entries[key]));
        assert entries[k].Contents() == old(entries[k].Contents());
      }
      OneKeyChanged(old(Store()), Store(), key);
    }

    twostate lemma StillValid(key: Key)
      requires old(Valid()) && this in Repr && key in old(entries) && key in entries && old(Repr) <= Repr && ChangedOnly(key)
      ensures Valid()
    {
      assert entries == old(entries) && Owned(entries[key]);
      forall k | k in entries && k != key
        ensures Owned(entries[k]) && entries[k].data == old(entries[k].data)
        ensures entries[k] != entries[key] && entries[k].data != entries[key].data
      {
        assert old(Owned(entries[k]) && Owned(entries[key]));
      }
      forall a, b | a in entries && b in entries && a != b
        ensures entries[a] != entries[b] && entries[a].data != entries[b].data {
        assert old(entries[a] != entries[b] && entries[a].data != entries[b].data);
      }
    }

    /** Changing one entry object cannot change what another key stores. */
    twostate lemma OnlyChanged(key: Key)
      requires old(Valid()) && this in Repr && key in old(entries) && key in entries && old(Repr) <= Repr && ChangedOnly(key)
      ensures Valid()
      ensures Store() == old(Store())[key := entries[key].Contents()]
    {
      StillValid(key);
      StoreOnlyChanged(key);
    }

    method Delete(key: Key)
      requires Valid() && key in entries
      modifies this`entries
      ensures Valid() && Store() == old(Store()) - {key}
    {
      entries := entries - {key};
    }

    /** One callback of the range: filter the entry, drop it when nothing is left. */
    method Visit(key: Key, cutoff: Time)
      requires Valid() && key in entries
      modifies this`entries, Repr - {this}
      ensures Valid() && Store() == VisitedStore(old(Store()), key, cutoff)
    {
      hide Valid, Store;
      KeysOfStore();
      DropExpiredAt(key, cutoff);
      KeysOfStore();
      if entries[key].len == 0 {
        Delete(key);
      }
    }

    /** Visits the entries of one bucket in any order, as a sync.Map is ranged over. */
    method PruneExpired(bucket: Bucket, now: Time)
      requires Valid()
      modifies this`entries, Repr - {this}
      ensures Valid()
      ensures Store() == PruneStore(old(Store()), bucket, now - Window(bucket))
    {
      hide Valid, Store, PartlyPruned, VisitedStore, PruneStore;
      var cutoff := now - Window(bucket);
      ghost var before := Store();
      KeysOfStore();
      var todo := set key | key in entries && key.bucket == bucket;
      PruneBegins(before, bucket, cutoff, todo);
      while todo != {}
        invariant Valid() && todo <= entries.Keys
        invariant PartlyPruned(Store(), before, bucket, cutoff, todo)
        decreases todo
      {
        var key :| key in todo;
        PruneContinues(Store(), before, bucket, cutoff, todo, key);
        Visit(key, cutoff);
        todo := todo - {key};
        KeysOfStore();
      }
      PruneEnds(Store(), before, bucket, cutoff);
    }

    lemma KeysOfStore()
      requires Valid()
      ensures this in Repr && Store().Keys == entries.Keys
      ensures forall key | key in entries :: entries[key] in Repr && |Store()[key]| == entries[key].len
    {
    }

    method PruneExpiredIfDue(bucket: Bucket, now: Time)
      requires Valid()
      modifies Repr
      ensures Valid() && Repr == old(Repr)
      ensures View() == PruneIfDue(old(View()), bucket, now)
    {
      if bucket in lastPrune && now - lastPrune[bucket] < PRUNE_INTERVAL {
        return;
      }
      lastPrune := lastPrune[bucket := now];
      assert Store() == old(Store());
      hide Valid, Store, PruneStore;
      PruneExpired(bucket, now);
    }

    /** The entry of a key, created empty when there is none. */
    method GetOrCreate(key: Key) returns (entry: Entry)
      requires Valid()
      modifies this
      ensures Valid() && fresh(Repr - old(Repr)) && lastPrune == old(lastPrune)
      ensures key in entries && entry == entries[key]
      ensures Store() == old(Store())[key := Stored(old(Store()), key)]
    {
      if key in entries {
        entry := entries[key];
        assert Store() == old(Store())[key := old(Store())[key]];
      } else {
        entry := Create(key);
      }
    }

    method Create(key: Key) returns (entry: Entry)
      requires Valid() && key !in entries
      modifies this
      ensures Valid() && fresh(Repr - old(Repr)) && lastPrune == old(lastPrune)
      ensures key in entries && entry == entries[key]
      ensures Store() == old(Store())[key := []]
    {
      entry := new Entry();
      entries := entries[key := entry];
      Repr := Repr + {entry, entry.data};
      AddedIsValid(key);
      StoreAfterAdding(key);
    }

    /** One new entry object under a new key; nothing else changed but the map. */
    twostate predicate Added(key: Key)
      reads this, Repr
    {
      && key !in old(entries) && key in entries && entries == old(entries)[key := entries[key]]
      && old(Repr) <= Repr && this in Repr && Owned(entries[key])
      && fresh(entries[key]) && fresh(entries[key].data)
      && forall o | o in old(Repr) && o != this :: unchanged(o)
    }

    twostate lemma AddedIsValid(key: Key)
      requires old(Valid()) && Added(key)
      ensures Valid()
    {
      forall k | k in entries && k != key
        ensures Owned(entries[k]) && entries[k].data == old(entries[k].data) && old(entries[k].data in Repr)
      {
        assert old(Owned(entries[k]));
      }
      forall a, b | a in entries && b in entries && a != b
        ensures entries[a] != entries[b] && entries[a].data != entries[b].data {
        if a != key && b != key {
          assert old(entries[a] != entries[b] && entries[a].data != entries[b].data);
        }
      }
    }

    twostate lemma StoreAfterAdding(key: Key)
      requires old(Valid()) && Added(key) && Valid()
      ensures Store() == old(Store())[key := entries[key].Contents()]
    {
      assert Store().Keys == entries.Keys == old(Store().Keys) + {key};
      forall k | k in entries && k != key ensures Store()[k] == old(Store())[k] {
        assert old(Owned(entries[k]));
        assert entries[k].Contents() == old(entries[k].Contents());
      }
      OneKeyChanged(old(Store()), Store(), key);
    }

    /** One request. The whole new state is that of `Limiter.Allow`. */
    method AllowRequest(key: Key, max: int, now: Time) returns (ok: bool)
      requires Valid()
      modifies Repr
      ensures Valid() && fresh(Repr - old(Repr))
      ensures Answer(View(), ok) == Allow(old(View()), Call(key, max, now))
    {
      hide Valid, Store, After, PruneIfDue;
      KeysOfStore();
      PruneExpiredIfDue(key.bucket, now);
      var entry := GetOrCreate(key);
      ok := AdmitAt(key, max, now);
    }

    method AllowWS(ip: Ip, now: Time) returns (ok: bool)
      requires Valid()
      modifies Repr
      ensures Valid() && fresh(Repr - old(Repr))
      ensures Answer(View(), ok) == Allow(old(View()), Call(Key(Ws, ip), 50, now))
    {
      ok := AllowRequest(Key(Ws, ip), WS_MAX, now);
    }

    method AllowAuth(ip: Ip, now: Time) returns (ok: bool)
      requires Valid()
      modifies Repr
      ensures Valid() && fresh(Repr - old(Repr))
      ensures Answer(View(), ok) == Allow(old(View()), Call(Key(Auth, ip), 5, now))
    {
      ok := AllowRequest(Key(Auth, ip), AUTH_MAX, now);
    }

    method AllowOIDC(ip: Ip, now: Time) returns (ok: bool)
      requires Valid()
      modifies Repr
      ensures Valid() && fresh(Repr - old(Repr))
      ensures Answer(View(), ok) == Allow(old(View()), Call(Key(Oidc, ip), 20, now))
    {
      ok := AllowRequest(Key(Oidc, ip), OIDC_MAX, now);
    }

    /** `configured` is the number the environment variable holds, if it holds one. */
    method AllowAPI(ip: Ip, configured: Option<int>, now: Time) returns (ok: bool)
      requires Valid()
      modifies Repr
      ensures Valid() && fresh(Repr - old(Repr))
      ensures var max := if configured.Some? && configured.value >= 1 then configured.value else 30;
              Answer(View(), ok) == Allow(old(View()), Call(Key(Api, ip), max, now))
    {
      var max := API_MAX_DEFAULT;
      if configured.Some? && configured.value > 0 {
        max := configured.value;
      }
      ok := AllowRequest(Key(Api, ip), max, now);
    }

    /** The critical section of the entry's own lock: filter, compare, record. */
    method AdmitAt(key: Key, max: int, now: Time) returns (ok: bool)
      requires Valid() && key in entries
      modifies this`Repr, Repr - {this}
      ensures Valid() && fresh(Repr - old(Repr))
      ensures var a := Admit(old(Store())[key], now, Window(key.bucket), max);
              Store() == old(Store())[key := a.stamps] && ok == a.ok
    {
      hide Valid, Store, After;
      KeysOfStore();
      DropExpiredAt(key, now - Window(key.bucket));
      KeysOfStore();
      if entries[key].len >= max {
        return false;
      }
      AppendAt(key, now);
      return true;
    }
  }
}
