/** The cache-aside service over many keys, one operation after the other. */
module RedisCacheAsideService {
  import opened Options
  import opened CacheAside

  type Key = int

  class RedisCacheAsideService {
    // The table behind the cache; a key without a row makes the loader throw.
    var table: map<Key, Value>
    var cache: map<Key, Entry>

    constructor (table: map<Key, Value>)
      ensures this.table == table && cache == map[] && Coherent()
    {
      this.table, cache := table, map[];
    }

    // Every good entry is the value in the table.
    ghost predicate Coherent()
      reads this
    {
      forall key <- cache :: cache[key].Good? ==> key in table && cache[key].value == table[key]
    }

    method Get(key: Key, now: int, readFails: bool, deleteFails: bool) returns (value: Option<Value>)
      modifies this`cache
      ensures value.Some? <==>
                !readFails && key in old(cache) && old(cache)[key].expiresAt > now && old(cache)[key].Good?
      ensures value.Some? ==> value.value == old(cache)[key].value
      ensures cache == if !readFails && key in old(cache) && old(cache)[key].expiresAt > now &&
                           old(cache)[key].Malformed? && !deleteFails
                       then old(cache) - {key} else old(cache)
      ensures old(Coherent()) ==> Coherent()
    {
      if readFails || key !in cache || cache[key].expiresAt <= now {
        return None;
      }
      if cache[key].Good? {
        return Some(cache[key].value);
      }
      if cache[key].Malformed? {
        Invalidate({key}, deleteFails);
      }
      return None;
    }

    method Invalidate(keys: set<Key>, deleteFails: bool)
      modifies this`cache
      ensures cache == if deleteFails then old(cache) else old(cache) - keys
    {
      if keys == {} || deleteFails {
        return;
      }
      cache := cache - keys;
    }

    // A read of the key finds a live value of the expected shape.
    ghost predicate Hits(key: Key, now: int, readFails: bool)
      reads this
    {
      !readFails && key in cache && cache[key].Good? && now < cache[key].expiresAt
    }

    // Served from the cache or loaded and cached for its own time to live; throws exactly when there is
    // nothing to load.
    method GetOrLoad(key: Key, now: int, timeToLive: Value -> nat, readFails: bool, deleteFails: bool, writeFails: bool)
      returns (result: Result<Value, ()>)
      requires Coherent()
      modifies this`cache
      ensures Coherent()
      ensures result == if key in table then Done(table[key]) else Thrown(())
      ensures old(Hits(key, now, readFails)) ==> cache == old(cache)
      ensures !old(Hits(key, now, readFails)) && key in table && !writeFails ==>
                key in cache && cache[key] == Good(table[key], now + timeToLive(table[key]))
      ensures !old(Hits(key, now, readFails)) && (key !in table || writeFails) ==>
                (key in cache <==>
                  key in old(cache) &&
                  !(!readFails && !deleteFails && old(cache)[key].Malformed? && now < old(cache)[key].expiresAt)) &&
                (key in cache ==> cache[key] == old(cache)[key])
      ensures forall other | other != key ::
                (other in cache <==> other in old(cache)) && (other in cache ==> cache[other] == old(cache)[other])
    {
      var cached := Get(key, now, readFails, deleteFails);
      if cached.Some? {
        return Done(cached.value);
      }
      if key !in table {
        return Thrown(());
      }
      var loaded := table[key];
      if !writeFails {
        cache := cache[key := Good(loaded, now + timeToLive(loaded))];
      }
      return Done(loaded);
    }

    // With the deletion succeeding the cache stays coherent; with it failing only this key may go stale.
    method WriteAndInvalidate(key: Key, value: Value, deleteFails: bool)
      modifies this
      ensures table == old(table)[key := value]
      ensures cache == if deleteFails then old(cache) else old(cache) - {key}
      ensures old(Coherent()) ==>
                (Coherent() <==> !(deleteFails && key in old(cache) && old(cache)[key].Good? &&
                                   old(cache)[key].value != value))
    {
      table := table[key := value];
      Invalidate({key}, deleteFails);
    }
  }

  // One read of the machine, from its GET to its return, with nothing in between.
  ghost function WholeRead(limits: Limits, s: State, c: CallId, timeToLive: nat, readFails: bool, deleteFails: bool,
                           writeFails: bool): State
    requires Enabled(limits, s, CacheAside.Get(c, readFails)) && timeToLive <= limits.timeToLive
  {
    var t := Apply(limits, s, CacheAside.Get(c, readFails));
    var u := if t.readers[c].Purging? then Apply(limits, t, Purge(c, deleteFails)) else t;
    if u.readers[c].Loading?
    then Apply(limits, Apply(limits, u, Load(c, false)), Set(c, timeToLive, writeFails))
    else u
  }

  // The machine's steps of one read, uninterrupted, leave what GetOrLoad leaves.
  lemma {:induction false} UninterruptedRead(limits: Limits, s: State, c: CallId, timeToLive: nat, readFails: bool,
                                             deleteFails: bool, writeFails: bool)
    requires ReaderIn(s, c, Getting) && timeToLive <= limits.timeToLive
    ensures var t := WholeRead(limits, s, c, timeToLive, readFails, deleteFails, writeFails);
            var live := !readFails && s.cache.Some? && s.now < s.cache.value.expiresAt;
            && t.readers == s.readers[c := t.readers[c]] && t.stored == s.stored && t.writers == s.writers
            && (live && s.cache.value.Good? ==>
                  t.readers[c] == Returned(s.cache.value.value, s.now) && t.cache == s.cache)
            && (!(live && s.cache.value.Good?) ==>
                  t.readers[c] == Returned(s.stored, s.now) &&
                  t.cache == if !writeFails then Some(Good(s.stored, s.now + timeToLive))
                             else if live && s.cache.value.Malformed? && !deleteFails then None else s.cache)
  {
  }

  // Garbage can get into the cache at any time; a read that finds it live drops it or passes over it, and
  // whatever happens to its deletion goes on to load. A loader that throws ends the read without a value.
  lemma GarbageIsPassedOver(limits: Limits, s: State, c: CallId, garbage: Entry, deleteFails: bool)
    requires ReaderIn(s, c, Getting) && !garbage.Good? && s.now < garbage.expiresAt
    ensures Enabled(limits, s, Corrupt(garbage))
    ensures var t := Apply(limits, s, Corrupt(garbage));
            var u := Apply(limits, t, CacheAside.Get(c, false));
            && t.cache == Some(garbage) && ReaderIn(t, c, Getting)
            && (garbage.Unreadable? ==> ReaderIn(u, c, Loading) && u.cache == t.cache)
            && (garbage.Malformed? ==>
                  && ReaderIn(u, c, Purging)
                  && var v := Apply(limits, u, Purge(c, deleteFails));
                     ReaderIn(v, c, Loading) && v.cache == (if deleteFails then t.cache else None) &&
                     ReaderIn(Apply(limits, v, Load(c, true)), c, Threw))
  {
  }

  // The machine's two steps of one write, uninterrupted, leave what WriteAndInvalidate leaves: a deletion that
  // fails leaves the entry, which a read then serves while it lives.
  lemma {:induction false} UninterruptedWrite(limits: Limits, s: State, w: CallId, c: CallId, value: Value, fails: bool)
    requires w !in s.writers && ReaderIn(s, c, Getting)
    ensures Enabled(limits, s, Write(w, value)) && Enabled(limits, Apply(limits, s, Write(w, value)), Delete(w, fails))
    ensures var t := Apply(limits, Apply(limits, s, Write(w, value)), Delete(w, fails));
            && t.stored == value && t.writers == s.writers && t.readers == s.readers
            && t.cache == (if fails then s.cache else None)
            && (fails && s.cache.Some? && s.cache.value.Good? && s.now < s.cache.value.expiresAt ==>
                  ReaderIn(Apply(limits, t, CacheAside.Get(c, false)), c, Returned(s.cache.value.value, s.now)))
  {
    assert s.writers + {w} - {w} == s.writers;
  }
}
