/** Key-to-expiry tables as values: what the L1 cache means, independent of shards and objects. */
module Expiry {
  import Fnv1a

  type Time = int

  /** A store key: the bytes of a string. */
  datatype Key = Key(bytes: Fnv1a.Bytes)

  type Table = map<Key, Time>

  /** The shard a key lives in. */
  function HomeOf(k: Key): (i: nat)
    ensures i < Fnv1a.SHARDS
  {
    Fnv1a.ShardOf(k.bytes)
  }

  /** An L1 entry is expired as soon as the clock reaches its expiry. */
  predicate Hit(m: Table, k: Key, now: Time) {
    k in m && now < m[k]
  }

  /** The entries a sweep at `now` keeps. */
  function Live(m: Table, now: Time): Table {
    map k | k in m && now < m[k] :: m[k]
  }

  /** What a lookup leaves behind: `now` decided the miss, `again` is the sample taken under the write lock. */
  function AfterLookup(m: Table, k: Key, now: Time, again: Time): Table {
    if k in m && m[k] <= now && m[k] <= again then m - {k} else m
  }
}
