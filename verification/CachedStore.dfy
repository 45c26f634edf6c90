/** The two-level store: L1 in front of a backend. */
module CachedStores {
  import opened Expiry
  import opened Stores
  import LocalCaches

  /** The instants of one call, in the order the code meets them: lookup, second look before
      eviction, backend, and the L1 expiry sample or the return of an error. */
  datatype Samples = Samples(read: Time, again: Time, commit: Time, stamp: Time)

  predicate Ordered(t: Samples) {
    t.read <= t.again <= t.commit <= t.stamp
  }

  /** A call in which no time passes. */
  function Once(now: Time): Samples {
    Samples(now, now, now, now)
  }

  datatype Tiers = Tiers(l1: Table, l2: Table)

  datatype Outcome = Outcome(reply: Reply, tiers: Tiers, missed: bool)

  /** The whole call as a function of what it reads. */
  function Call(s: Tiers, fault: Fault, key: Key, ttl: Time, t: Samples): Outcome {
    if Hit(s.l1, key, t.read) then
      Outcome(Answer(true), s, false)
    else
      var l1, l2 := AfterLookup(s.l1, key, t.read, t.again), SetIfAbsent(s.l2, key, ttl, t.commit);
      match fault
      case RequestLost => Outcome(Unavailable, Tiers(l1, s.l2), true)
      case ReplyLost => Outcome(Unavailable, Tiers(l1, l2), true)
      case NoFault => Outcome(Answer(Present(s.l2, key, t.commit)), Tiers(l1[key := t.stamp + ttl], l2), true)
  }

  class CachedStore {
    const backend: Backend
    const cache: LocalCaches.LocalCache
    var hits: nat
    var misses: nat
    ghost var backendCalls: nat
    ghost var backendDuplicates: nat
    ghost var backendErrors: nat
    ghost var l1Writes: nat

    /** Besides shape, the ledger: every miss is one backend call, and every call that
        did not fail wrote L1 once. */
    ghost predicate Valid()
      reads this, cache, cache.shards
    {
      && cache.Valid()
      && misses == backendCalls
      && l1Writes + backendErrors == misses
      && backendDuplicates <= l1Writes
    }

    ghost function View(): Tiers
      reads this, cache, cache.shards, backend.Repr()
      requires Valid()
    {
      Tiers(cache.Flat(), backend.Data())
    }

    constructor (backend: Backend)
      ensures Valid() && this.backend == backend && fresh(cache) && fresh(cache.shards)
      ensures View() == Tiers(map[], backend.Data())
      ensures hits == misses == backendDuplicates == backendErrors == 0
    {
      this.backend := backend;
      var c := new LocalCaches.LocalCache();
      cache := c;
      hits, misses := 0, 0;
      backendCalls, backendDuplicates, backendErrors, l1Writes := 0, 0, 0, 0;
    }

    method IsDuplicate(key: Key, ttl: Time, t: Samples, network: Fault) returns (r: Reply)
      requires Valid()
      modifies this, backend.Repr(), cache.shards
      ensures Valid() && backend.Suffers(network) == old(backend.Suffers(network))
      ensures var o := Call(old(View()), backend.Suffers(network), key, ttl, t);
              && r == o.reply && View() == o.tiers
              && misses == old(misses) + (if o.missed then 1 else 0)
              && hits == old(hits) + (if o.missed then 0 else 1)
              && backendDuplicates == old(backendDuplicates) + (if o.missed && r == Answer(true) then 1 else 0)
              && backendErrors == old(backendErrors) + (if r.Unavailable? then 1 else 0)
      ensures old(Hit(cache.Flat(), key, t.read)) ==> r == Answer(true)
      ensures !old(Hit(cache.Flat(), key, t.read)) ==>
                (r.Unavailable? <==> if backend.Redis? then !network.NoFault? else old(backend.memory.down))
    {
      var known := cache.Contains(key, t.read, t.again);
      if known {
        hits := hits + 1;
        return Answer(true);
      }
      misses := misses + 1;
      r := FallThrough(key, ttl, t, network);
    }

    /** The call after an L1 miss: ask the backend, then arm L1 whatever a non-error answer said. */
    method FallThrough(key: Key, ttl: Time, t: Samples, network: Fault) returns (r: Reply)
      requires cache.Valid()
      modifies `backendCalls, `backendDuplicates, `backendErrors, `l1Writes, backend.Repr(), cache.shards
      ensures cache.Valid() && backendCalls == old(backendCalls) + 1
      ensures backend.Suffers(network) == old(backend.Suffers(network))
      ensures r.Unavailable? <==> if backend.Redis? then !network.NoFault? else old(backend.memory.down)
      ensures backend.Data() == if backend.Suffers(network).RequestLost? then old(backend.Data())
                                else SetIfAbsent(old(backend.Data()), key, ttl, t.commit)
      ensures if backend.Suffers(network).NoFault? then
                && r == Answer(Present(old(backend.Data()), key, t.commit))
                && cache.Flat() == old(cache.Flat())[key := t.stamp + ttl]
                && backendErrors == old(backendErrors) && l1Writes == old(l1Writes) + 1
                && backendDuplicates == old(backendDuplicates) + (if r.duplicate then 1 else 0)
              else
                && r == Unavailable && cache.Flat() == old(cache.Flat())
                && backendErrors == old(backendErrors) + 1 && l1Writes == old(l1Writes)
                && backendDuplicates == old(backendDuplicates)
    {
      r := backend.IsDuplicate(key, ttl, t.commit, network);
      backendCalls := backendCalls + 1;
      if r.Unavailable? {
        backendErrors := backendErrors + 1;
        return;
      }
      backendDuplicates := backendDuplicates + if r.duplicate then 1 else 0;
      l1Writes := l1Writes + 1;
      cache.Set(key, ttl, t.stamp);
    }

    method CacheLen() returns (n: nat)
      requires Valid()
      ensures n == |View().l1|
    {
      n := cache.Len();
    }
  }
}
