/** The shard selector of the L1 cache: 64-bit FNV-1a reduced to its low byte.

    `ShardIndex` is the loop of the source. `Reduced` is an independent 8-bit recurrence;
    the two agree, and the recurrence is what makes the balance results provable. */
module Fnv1a {
  import Words

  type Bytes = seq<bv8>

  const OFFSET_BASIS: bv64 := 14695981039346656037
  const PRIME: bv64 := 1099511628211
  const SHARDS: nat := 256

  /** One round of the loop; `*` on bv64 wraps at 2^64. */
  function Absorb(h: bv64, b: bv8): bv64 {
    (h ^ (b as bv64)) * PRIME
  }

  function Hash(key: Bytes): bv64 {
    if key == [] then OFFSET_BASIS else Absorb(Hash(key[..|key| - 1]), key[|key| - 1])
  }

  function LowByte(h: bv64): bv8 {
    (h & 0xFF) as bv8
  }

  function Shard(key: Bytes): bv8 {
    LowByte(Hash(key))
  }

  function ShardOf(key: Bytes): (i: nat)
    ensures i < SHARDS
  {
    Shard(key) as int
  }

  method ShardIndex(key: Bytes) returns (idx: bv8)
    ensures idx == Shard(key)
  {
    var h := OFFSET_BASIS;
    for i := 0 to |key|
      invariant h == Hash(key[..i])
    {
      assert key[..i + 1][..i] == key[..i];
      h := Absorb(h, key[i]);
    }
    assert key[..|key|] == key;
    idx := LowByte(h);
  }

  // ---------------------------------------------------------------- the 8-bit recurrence

  function Mix(x: bv8, b: bv8): bv8 {
    (x ^ b) * 0xB3
  }

  function Reduced(key: Bytes): bv8 {
    Words.Fold(Mix, 0x25, key)
  }

  lemma LowByteOfProduct(x: bv64)
    ensures LowByte(x * PRIME) == LowByte(x) * 0xB3
  {
  }

  lemma LowByteOfXor(h: bv64, b: bv8)
    ensures LowByte(h ^ (b as bv64)) == LowByte(h) ^ b
  {
  }

  lemma AbsorbLowByte(h: bv64, b: bv8)
    ensures LowByte(Absorb(h, b)) == Mix(LowByte(h), b)
  {
    LowByteOfXor(h, b);
    LowByteOfProduct(h ^ (b as bv64));
  }

  /** The 56 high bits never reach the shard index. */
  lemma {:induction false} LowByteRecurrence(key: Bytes)
    ensures Shard(key) == Reduced(key)
  {
    if key != [] {
      LowByteRecurrence(key[..|key| - 1]);
      AbsorbLowByte(Hash(key[..|key| - 1]), key[|key| - 1]);
    }
  }

  /** 0xB3 is odd; 0x7B is its inverse modulo 256. */
  lemma OddFactorInverts(y: bv8)
    ensures (y * 0xB3) * 0x7B == y && (y * 0x7B) * 0xB3 == y
  {
  }

  /** The byte that takes accumulator `x` to `target`. */
  function Solve(x: bv8, target: bv8): bv8 {
    x ^ (target * 0x7B)
  }

  lemma MixSolves(x: bv8, target: bv8, b: bv8)
    ensures Mix(x, b) == target <==> b == Solve(x, target)
  {
    if Mix(x, b) == target {
      OddFactorInverts(x ^ b);
    } else {
      OddFactorInverts(target);
    }
  }

  lemma MixCancels(x: bv8, y: bv8, b: bv8)
    ensures Mix(x, b) == Mix(y, b) ==> x == y
  {
  }

  lemma MixIsInvertible()
    ensures Words.Solves(Mix, Solve) && Words.Cancels(Mix)
  {
    forall x: bv8, t: bv8, b: bv8 ensures Mix(x, b) == t <==> b == Solve(x, t) { MixSolves(x, t, b); }
    forall x: bv8, y: bv8, b: bv8 ensures Mix(x, b) == Mix(y, b) ==> x == y { MixCancels(x, y, b); }
  }

  // ---------------------------------------------------------------- separation and balance

  /** Keys that differ in exactly one byte never share a shard. */
  lemma OneByteApart(key: Bytes, i: nat, b: bv8)
    requires i < |key| && key[i] != b
    ensures Shard(key) != Shard(key[i := b])
  {
    var head, tail := key[..i], key[i + 1..];
    var p, q := head + [key[i]], head + [b];
    assert key == p + tail && key[i := b] == q + tail;
    assert p[..i] == head && q[..i] == head;
    MixIsInvertible();
    MixSolves(Reduced(head), Reduced(p), key[i]);
    MixSolves(Reduced(head), Reduced(p), b);
    Words.FoldFollowsPrefix(Mix, 0x25, p, q, tail);
    LowByteRecurrence(key);
    LowByteRecurrence(key[i := b]);
  }

  /** The bytes smaller than `b`. */
  function Below(b: bv8): set<bv8>
    decreases b as int
  {
    if b == 0 then {} else BytePredecessor(b); Below(b - 1) + {b - 1}
  }

  function AllBytes(): set<bv8> {
    Below(0xFF) + {0xFF}
  }

  lemma BytePredecessor(b: bv8)
    requires b != 0
    ensures (b - 1) as int == b as int - 1
  {
  }

  lemma ByteOrder(c: bv8, b: bv8)
    requires b != 0
    ensures c < b <==> c < b - 1 || c == b - 1
  {
  }

  lemma {:induction false} BelowMember(b: bv8, c: bv8)
    ensures c in Below(b) <==> c < b
    decreases b as int
  {
    if b != 0 {
      BytePredecessor(b);
      BelowMember(b - 1, c);
      ByteOrder(c, b);
    }
  }

  lemma {:induction false} BelowSize(b: bv8)
    ensures |Below(b)| == b as int
    decreases b as int
  {
    if b != 0 {
      BytePredecessor(b);
      BelowSize(b - 1);
      BelowMember(b - 1, b - 1);
    }
  }

  lemma AllBytesIsEveryByte()
    ensures Words.Total(AllBytes()) && |AllBytes()| == 256
  {
    forall b: bv8 ensures b in AllBytes() { BelowMember(0xFF, b); }
    BelowMember(0xFF, 0xFF);
    BelowSize(0xFF);
  }

  /** Every byte string of length `n`. */
  function Strings(n: nat): set<Bytes> {
    Words.WordsOf(AllBytes(), n)
  }

  /** The byte strings of length `n` that land in shard `sh`. */
  function Bucket(n: nat, sh: bv8): set<Bytes> {
    set s | s in Strings(n) && Shard(s) == sh
  }

  lemma StringsAreExactlyLengthN(n: nat, s: Bytes)
    ensures s in Strings(n) <==> |s| == n
  {
    AllBytesIsEveryByte();
    Words.WordsOfLengthN(AllBytes(), n, s);
  }

  /** Perfect balance: of the 256^(n+1) strings of length n+1 every shard receives 256^n. */
  lemma ShardsAreBalanced(n: nat, sh: bv8)
    ensures |Strings(n + 1)| == Words.Power(256, n + 1)
    ensures |Bucket(n + 1, sh)| == Words.Power(256, n)
  {
    AllBytesIsEveryByte();
    MixIsInvertible();
    Words.WordsOfSize(AllBytes(), n + 1);
    Words.ClassSize(Mix, Solve, 0x25, AllBytes(), n, sh);
    forall s: Bytes ensures Shard(s) == Reduced(s) { LowByteRecurrence(s); }
    assert Bucket(n + 1, sh) == Words.Class(Mix, 0x25, AllBytes(), n + 1, sh);
  }
}
