/** The sharded in-process cache. `Flat()` is the single table the 256 shards stand for;
    every operation is specified on it. Clock readings are parameters. */
module LocalCaches {
  import opened Expiry
  import Fnv1a

  /** Every key lives in the shard that `at` selects for it. */
  ghost predicate Placed(at: Key -> nat, shards: seq<Table>) {
    forall i, k :: 0 <= i < |shards| && k in shards[i] ==> at(k) == i
  }

  function Merge(shards: seq<Table>): Table {
    if shards == [] then map[] else Merge(shards[..|shards| - 1]) + shards[|shards| - 1]
  }

  lemma {:induction false} MergeLookup(at: Key -> nat, shards: seq<Table>, k: Key)
    requires Placed(at, shards)
    ensures k in Merge(shards) <==> at(k) < |shards| && k in shards[at(k)]
    ensures k in Merge(shards) ==> Merge(shards)[k] == shards[at(k)][k]
  {
    if shards != [] {
      MergeLookup(at, shards[..|shards| - 1], k);
    }
  }

  lemma MergeLookups(at: Key -> nat, shards: seq<Table>)
    requires Placed(at, shards)
    ensures forall k :: k in Merge(shards) <==> at(k) < |shards| && k in shards[at(k)]
    ensures forall k :: k in Merge(shards) ==> Merge(shards)[k] == shards[at(k)][k]
  {
  }

  predicate Agree(m: Table, n: Table, k: Key) {
    (k in m <==> k in n) && (k in m && k in n ==> m[k] == n[k])
  }

  lemma SameTable(m: Table, n: Table)
    requires forall k :: Agree(m, n, k)
    ensures m == n
  {
    assert forall k :: k in m ==> Agree(m, n, k);
    assert forall k :: k in n ==> Agree(m, n, k);
  }

  lemma MergeEmpty(at: Key -> nat, shards: seq<Table>)
    requires forall i :: 0 <= i < |shards| ==> shards[i] == map[]
    ensures Placed(at, shards) && Merge(shards) == map[]
  {
  }

  lemma MergeSet(at: Key -> nat, shards: seq<Table>, k: Key, e: Time)
    requires Placed(at, shards) && at(k) < |shards|
    ensures var after := shards[at(k) := shards[at(k)][k := e]];
            Placed(at, after) && Merge(after) == Merge(shards)[k := e]
  {
    var after := shards[at(k) := shards[at(k)][k := e]];
    var m, n := Merge(after), Merge(shards)[k := e];
    forall j ensures Agree(m, n, j) {
      MergeLookup(at, shards, j);
      MergeLookup(at, after, j);
    }
    SameTable(m, n);
  }

  lemma MergeDelete(at: Key -> nat, shards: seq<Table>, k: Key)
    requires Placed(at, shards) && at(k) < |shards|
    ensures var after := shards[at(k) := shards[at(k)] - {k}];
            Placed(at, after) && Merge(after) == Merge(shards) - {k}
  {
    var after := shards[at(k) := shards[at(k)] - {k}];
    var m, n := Merge(after), Merge(shards) - {k};
    forall j ensures Agree(m, n, j) {
      MergeLookup(at, shards, j);
      MergeLookup(at, after, j);
    }
    SameTable(m, n);
  }

  lemma MergeLive(at: Key -> nat, shards: seq<Table>, after: seq<Table>, now: Time)
    requires Placed(at, shards) && |after| == |shards|
    requires forall i :: 0 <= i < |shards| ==> after[i] == Live(shards[i], now)
    ensures Placed(at, after) && Merge(after) == Live(Merge(shards), now)
  {
    var m, n := Merge(after), Live(Merge(shards), now);
    forall j ensures Agree(m, n, j) {
      MergeLookup(at, shards, j);
      MergeLookup(at, after, j);
    }
    SameTable(m, n);
  }

  /** Shards are disjoint, so adding the next one adds its size. */
  lemma MergeGrows(at: Key -> nat, shards: seq<Table>, i: nat)
    requires Placed(at, shards) && i < |shards|
    ensures |Merge(shards[..i + 1])| == |Merge(shards[..i])| + |shards[i]|
  {
    var before := Merge(shards[..i]);
    MergeLookups(at, shards[..i]);
    assert shards[..i + 1][..i] == shards[..i];
    assert Merge(shards[..i + 1]) == before + shards[i];
    assert (before + shards[i]).Keys == before.Keys + shards[i].Keys;
    assert before.Keys !! shards[i].Keys;
    assert |(before + shards[i]).Keys| == |before.Keys| + |shards[i].Keys|;
  }

  datatype Event = Tick(now: Time) | Done

  /** What is left of `m` after sweeps at the first `n` of the given ticks. */
  ghost predicate SweptBy(m: Table, left: Table, events: seq<Event>, n: nat)
    requires n <= |events| && forall j :: 0 <= j < n ==> events[j].Tick?
  {
    && (forall k :: k in left <==> k in m && forall i :: 0 <= i < n ==> events[i].now < m[k])
    && (forall k :: k in left ==> left[k] == m[k])
  }

  lemma SweptOnce(m: Table, left: Table, events: seq<Event>, n: nat)
    requires n < |events| && forall j :: 0 <= j <= n ==> events[j].Tick?
    requires SweptBy(m, left, events, n)
    ensures SweptBy(m, Live(left, events[n].now), events, n + 1)
  {
  }

  class LocalCache {
    const shards: array<Table>

    ghost predicate Valid()
      reads this, shards
    {
      shards.Length == Fnv1a.SHARDS && Placed(HomeOf, shards[..])
    }

    ghost function Flat(): Table
      reads this, shards
    {
      Merge(shards[..])
    }

    constructor ()
      ensures Valid() && fresh(shards)
      ensures Flat() == map[]
    {
      shards := new Table[Fnv1a.SHARDS](_ => map[]);
      new;
      MergeEmpty(HomeOf, shards[..]);
    }

    method Contains(key: Key, now: Time, again: Time) returns (hit: bool)
      requires Valid()
      modifies shards
      ensures Valid()
      ensures hit == Hit(old(Flat()), key, now)
      ensures Flat() == AfterLookup(old(Flat()), key, now, again)
    {
      MergeLookup(HomeOf, shards[..], key);
      var sh := Fnv1a.ShardIndex(key.bytes);
      var idx := sh as int;
      if key !in shards[idx] {
        return false;
      }
      var expiry := shards[idx][key];
      if now >= expiry {
        if key in shards[idx] && again >= shards[idx][key] {
          MergeDelete(HomeOf, shards[..], key);
          ghost var after := shards[..][idx := shards[idx] - {key}];
          shards[idx] := shards[idx] - {key};
          assert shards[..] == after;
        }
        return false;
      }
      return true;
    }

    method Set(key: Key, ttl: Time, now: Time)
      requires Valid()
      modifies shards
      ensures Valid()
      ensures Flat() == old(Flat())[key := now + ttl]
      ensures key in shards[Fnv1a.Shard(key.bytes) as int]
    {
      var sh := Fnv1a.ShardIndex(key.bytes);
      var idx := sh as int;
      var expiry := now + ttl;
      MergeSet(HomeOf, shards[..], key, expiry);
      ghost var after := shards[..][idx := shards[idx][key := expiry]];
      shards[idx] := shards[idx][key := expiry];
      assert shards[..] == after;
    }

    method Len() returns (n: nat)
      requires Valid()
      ensures n == |Flat()|
    {
      n := 0;
      for i := 0 to shards.Length
        invariant n == |Merge(shards[..i])|
      {
        MergeGrows(HomeOf, shards[..], i);
        assert shards[..][..i + 1] == shards[..i + 1] && shards[..][..i] == shards[..i];
        n := n + |shards[i]|;
      }
      assert shards[..shards.Length] == shards[..];
    }

    method SweepShard(i: nat, now: Time)
      requires i < shards.Length
      modifies shards
      ensures shards[..] == old(shards[..])[i := Live(old(shards[i]), now)]
    {
      var todo := shards[i].Keys;
      while todo != {}
        invariant todo <= old(shards[i]).Keys
        invariant shards[..] == old(shards[..])[i := shards[i]]
        invariant forall k :: k in shards[i] <==> k in old(shards[i]) && (k in todo || now < old(shards[i])[k])
        invariant forall k :: k in shards[i] ==> shards[i][k] == old(shards[i])[k]
        decreases |todo|
      {
        var k :| k in todo;
        todo := todo - {k};
        if now >= shards[i][k] {
          shards[i] := shards[i] - {k};
        }
      }
      assert shards[i] == Live(old(shards[i]), now);
    }

    method Sweep(now: Time)
      requires Valid()
      modifies shards
      ensures Valid()
      ensures Flat() == Live(old(Flat()), now)
    {
      ghost var before := shards[..];
      for i := 0 to shards.Length
        invariant forall j :: 0 <= j < i ==> shards[..][j] == Live(before[j], now)
        invariant forall j :: i <= j < shards.Length ==> shards[..][j] == before[j]
      {
        SweepShard(i, now);
      }
      MergeLive(HomeOf, before, shards[..], now);
    }

    /** The ticker loop; it ends when the context is done. */
    method SweepLoop(events: seq<Event>)
      requires Valid()
      modifies shards
      ensures Valid()
      ensures forall k :: k in Flat() ==> k in old(Flat()) && Flat()[k] == old(Flat())[k]
      ensures forall i, k :: 0 <= i < |events| && (forall j :: 0 <= j <= i ==> events[j].Tick?) && k in Flat() ==>
                               events[i].now < Flat()[k]
      ensures forall k :: k in old(Flat()) &&
                          (forall i :: 0 <= i < |events| && (forall j :: 0 <= j <= i ==> events[j].Tick?) ==>
                                         events[i].now < old(Flat())[k]) ==>
                            k in Flat()
    {
      var n := 0;
      while n < |events| && events[n].Tick?
        invariant Valid()
        invariant 0 <= n <= |events| && forall j :: 0 <= j < n ==> events[j].Tick?
        invariant SweptBy(old(Flat()), Flat(), events, n)
      {
        SweptOnce(old(Flat()), Flat(), events, n);
        Sweep(events[n].now);
        n := n + 1;
      }
    }
  }

  /** Every entry sits in the shard of the 8-bit recurrence, so the balance laws are laws of the cache. */
  lemma EntriesSitInTheirShard(c: LocalCache, i: nat, k: Key)
    requires c.Valid() && i < c.shards.Length && k in c.shards[i]
    ensures i == Fnv1a.Reduced(k.bytes) as int && i == Fnv1a.Shard(k.bytes) as int
  {
    assert k in c.shards[..][i];
    assert HomeOf(k) == i;
    Fnv1a.LowByteRecurrence(k.bytes);
  }
}
