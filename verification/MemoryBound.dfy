/** The memory bound: sweeping every `period` keeps only entries written in the last window plus period. */
module MemoryBound {
  import opened Expiry
  import opened Protocol
  import opened Invariant
  import Fnv1a
  import Solo

  /** The entry is unexpired at `t`, or was written no earlier. */
  ghost predicate Outlived(s: State, slot: Slot, t: Time)
    requires slot in s.l1 && slot in s.writer && s.writer[slot] in s.wrote
  {
    t < s.l1[slot] || t <= s.wrote[s.writer[slot]].at
  }

  /** Sample time of the last complete sweep; the service starts at time 0. */
  function LastSweep(s: State, inst: Inst): Time {
    if inst in s.swept then s.swept[inst] else 0
  }

  ghost predicate SweptOk(s: State, slot: Slot) {
    && slot in s.l1 && slot in s.writer && s.writer[slot] in s.wrote
    && Outlived(s, slot, LastSweep(s, slot.inst))
    && (slot.inst in s.sweeps && HomeOf(slot.key) < s.sweeps[slot.inst].next ==>
          Outlived(s, slot, s.sweeps[slot.inst].now))
  }

  /** Only a call that missed L1 and got a backend answer writes L1. */
  predicate IsWriter(p: Phase) {
    p.Admitted? || (p.Refused? && !p.hit)
  }

  ghost predicate Kept(s: State) {
    && 0 <= s.clock
    && (forall slot :: slot in s.l1 ==> SweptOk(s, slot))
    && (forall inst :: inst in s.swept ==> s.swept[inst] <= s.clock)
    && (forall i :: i in s.wrote ==> 0 <= s.wrote[i].at && i in s.calls)
    && (forall i :: i in s.calls ==> (i in s.wrote <==> IsWriter(s.calls[i].phase)))
  }

  lemma PutKeeps(cfg: Config, s: State, id: Id)
    requires cfg.Valid() && Inv(cfg, s) && Kept(s) && Enabled(cfg, s, Act(id, Store))
    ensures Kept(Apply(cfg, s, Act(id, Store)))
  {
    var s' := Apply(cfg, s, Act(id, Store));
    forall t | t in s'.l1 ensures SweptOk(s', t) {
      PutKeepsSlot(cfg, s, id, t);
    }
  }

  lemma PutKeepsSlot(cfg: Config, s: State, id: Id, t: Slot)
    requires cfg.Valid() && Inv(cfg, s) && Kept(s) && Enabled(cfg, s, Act(id, Store)) && t in Apply(cfg, s, Act(id, Store)).l1
    ensures SweptOk(Apply(cfg, s, Act(id, Store)), t)
  {
    if t != SlotOf(s.calls[id]) {
      assert SweptOk(s, t) && SlotOk(s, t);
      OtherSlotKept(s, Apply(cfg, s, Act(id, Store)), t);
    }
  }

  /** A slot with the same entry and the same last write stays as it is. */
  lemma OtherSlotKept(s: State, s': State, t: Slot)
    requires SweptOk(s, t) && t in s'.l1 && s'.l1[t] == s.l1[t] && t in s'.writer && s'.writer[t] == s.writer[t]
    requires s'.writer[t] in s'.wrote && s'.wrote[s'.writer[t]] == s.wrote[s.writer[t]]
    requires s'.sweeps == s.sweeps && s'.swept == s.swept
    ensures SweptOk(s', t)
  {
  }

  /** Steps that only remove entries, or touch no table, keep it. */
  lemma KeptFrame(s: State, s': State)
    requires Kept(s) && s.clock <= s'.clock && s'.wrote == s.wrote && s'.writer == s.writer
    requires s'.sweeps == s.sweeps && s'.swept == s.swept
    requires forall t :: t in s'.l1 ==> t in s.l1 && s'.l1[t] == s.l1[t]
    requires forall i :: i in s.calls ==> i in s'.calls
    requires forall i :: i in s'.calls ==> (IsWriter(s'.calls[i].phase) <==> i in s.calls && IsWriter(s.calls[i].phase))
    ensures Kept(s')
  {
  }

  lemma ActKeeps(cfg: Config, s: State, id: Id, action: Action)
    requires cfg.Valid() && Inv(cfg, s) && Kept(s) && Enabled(cfg, s, Act(id, action))
    ensures Kept(Apply(cfg, s, Act(id, action)))
  {
    if action.Store? {
      PutKeeps(cfg, s, id);
    } else {
      NoWriter(cfg, s, id, action);
      MemoryFrame(cfg, s, id, action);
      KeptFrame(s, Apply(cfg, s, Act(id, action)));
    }
  }

  lemma NoWriter(cfg: Config, s: State, id: Id, action: Action)
    requires Enabled(cfg, s, Act(id, action)) && !action.Store?
    ensures !IsWriter(s.calls[id].phase) && !IsWriter(Next(cfg, s, id, action))
  {
  }

  /** After the shard at `next` is done, everything up to it has outlived the sweep. */
  lemma DropKeeps(s: State, inst: Inst)
    requires Kept(s) && inst in s.sweeps
    ensures var d := Drop(s, Swept(s, inst));
            && Kept(d)
            && forall t :: t in d.l1 && t.inst == inst && HomeOf(t.key) <= s.sweeps[inst].next ==>
                             SweptOk(d, t) && Outlived(d, t, s.sweeps[inst].now)
  {
  }

  lemma AdvanceKeeps(s: State, inst: Inst)
    requires Kept(s) && inst in s.sweeps && s.sweeps[inst].now <= s.clock
    requires forall t :: t in s.l1 && t.inst == inst && HomeOf(t.key) <= s.sweeps[inst].next ==>
                           SweptOk(s, t) && Outlived(s, t, s.sweeps[inst].now)
    ensures Kept(Advance(s, inst))
  {
  }

  lemma StepKeeps(cfg: Config, s: State, step: Step)
    requires cfg.Valid() && Inv(cfg, s) && Kept(s) && Enabled(cfg, s, step)
    ensures Kept(Apply(cfg, s, step))
  {
    match step
    case Act(id, action) => ActKeeps(cfg, s, id, action);
    case SweepShard(inst) =>
      DropKeeps(s, inst);
      AdvanceKeeps(Drop(s, Swept(s, inst)), inst);
    case SweepStart(inst) => StartKeeps(cfg, s, inst);
    case Tick(_) => KeptFrame(s, Apply(cfg, s, step));
    case Invoke(_, _, _) => KeptFrame(s, Apply(cfg, s, step));
  }

  lemma StartKeeps(cfg: Config, s: State, inst: Inst)
    requires Kept(s) && inst !in s.sweeps
    ensures Kept(Apply(cfg, s, SweepStart(inst)))
  {
  }

  lemma {:induction false} RunKeeps(cfg: Config, s: State, run: seq<Step>)
    requires cfg.Valid() && Inv(cfg, s) && Kept(s) && IsRun(cfg, s, run)
    ensures Kept(After(cfg, s, run))
    decreases |run|
  {
    if run != [] {
      StepKeeps(cfg, s, run[0]);
      StepKeepsInv(cfg, s, run[0]);
      RunKeeps(cfg, Apply(cfg, s, run[0]), run[1..]);
    }
  }

  lemma ReachableKept(cfg: Config, s: State)
    requires cfg.Valid() && Reachable(cfg, s)
    ensures Kept(s) && Inv(cfg, s)
  {
    var run :| IsRun(cfg, INITIAL, run) && After(cfg, INITIAL, run) == s;
    RunKeeps(cfg, INITIAL, run);
    ReachableInv(cfg, s);
  }

  /** As long as a sweep completes every `period`, an entry is less than a window and a period old. */
  lemma EntriesAreYoung(cfg: Config, s: State, slot: Slot, period: Time)
    requires cfg.Valid() && Reachable(cfg, s) && slot in s.l1 && s.clock <= LastSweep(s, slot.inst) + period
    ensures slot in s.writer && s.writer[slot] in s.wrote && s.writer[slot] in s.calls
    ensures var i := s.writer[slot];
            SlotOf(s.calls[i]) == slot && IsWriter(s.calls[i].phase) && s.clock < s.wrote[i].at + cfg.window + period
  {
    ReachableKept(cfg, s);
    assert SweptOk(s, slot) && SlotOk(s, slot) && WriteOk(cfg, s, s.writer[slot]);
  }

  /** In every interleaving the L1 writes are exactly the finished calls that missed L1 and got an
      answer: misses minus errors, each once. */
  lemma WritesAreAnsweredMisses(cfg: Config, s: State)
    requires cfg.Valid() && Reachable(cfg, s)
    ensures s.wrote.Keys == set i | i in s.calls && IsWriter(s.calls[i].phase)
  {
    ReachableKept(cfg, s);
    var writers := set i | i in s.calls && IsWriter(s.calls[i].phase);
    forall i ensures i in s.wrote.Keys <==> i in writers {
      assert i in s.wrote ==> i in s.calls;
    }
  }

  /** The keys in the L1 of `inst`; `CacheLen` is their number. */
  function CachedKeys(s: State, inst: Inst): set<Key> {
    set t | t in s.l1 && t.inst == inst :: t.key
  }

  /** The distinct keys that missed L1 on `inst`, got a backend answer and were written since `from`. */
  function KeysWrittenSince(s: State, inst: Inst, from: Time): set<Key> {
    set i | i in s.wrote && i in s.calls && s.calls[i].inst == inst && IsWriter(s.calls[i].phase) && from < s.wrote[i].at
      :: s.calls[i].key
  }

  lemma CacheLenIsBounded(cfg: Config, s: State, inst: Inst, period: Time)
    requires cfg.Valid() && Reachable(cfg, s) && s.clock <= LastSweep(s, inst) + period
    ensures |CachedKeys(s, inst)| == |Solo.View(s, inst).l1|
    ensures |CachedKeys(s, inst)| <= |KeysWrittenSince(s, inst, s.clock - cfg.window - period)|
  {
    var from := s.clock - cfg.window - period;
    forall k | k in CachedKeys(s, inst) ensures k in KeysWrittenSince(s, inst, from) {
      var slot := Slot(inst, k);
      EntriesAreYoung(cfg, s, slot, period);
      assert s.calls[s.writer[slot]].key == k;
    }
    SubsetSize(CachedKeys(s, inst), KeysWrittenSince(s, inst, from));
    assert Solo.View(s, inst).l1.Keys == CachedKeys(s, inst);
  }

  lemma {:induction false} SubsetSize<T>(a: set<T>, b: set<T>)
    requires a <= b
    ensures |a| <= |b|
  {
    if a != {} {
      var x :| x in a;
      SubsetSize(a - {x}, b - {x});
    }
  }

  // ---------------------------------------------------------------- counting shard by shard

  /** No step revises an L1 write. */
  lemma WritesKept(cfg: Config, s: State, step: Step)
    requires Kept(s) && Enabled(cfg, s, step)
    ensures forall i :: i in s.wrote ==> i in Apply(cfg, s, step).wrote && Apply(cfg, s, step).wrote[i] == s.wrote[i]
  {
    match step
    case Act(id, action) =>
      if !action.Store? {
        MemoryFrame(cfg, s, id, action);
      }
    case SweepShard(inst) => AdvanceFields(Drop(s, Swept(s, inst)), inst);
    case _ =>
  }

  /** `t` has every call and every L1 write of `s`. */
  ghost predicate WritesExtend(s: State, t: State) {
    Extends(s, t) && forall i :: i in s.wrote ==> i in t.wrote && t.wrote[i] == s.wrote[i]
  }

  lemma {:induction false} RunKeepsWrites(cfg: Config, s: State, run: seq<Step>)
    requires cfg.Valid() && Inv(cfg, s) && Kept(s) && IsRun(cfg, s, run)
    ensures WritesExtend(s, After(cfg, s, run))
    decreases |run|
  {
    if run != [] {
      var m := Apply(cfg, s, run[0]);
      StepKeeps(cfg, s, run[0]);
      StepKeepsInv(cfg, s, run[0]);
      WritesKept(cfg, s, run[0]);
      RunKeepsWrites(cfg, m, run[1..]);
      ExtendsTransitive(s, m, After(cfg, s, run));
    }
  }

  lemma KeysWrittenGrow(cfg: Config, s: State, t: State, inst: Inst, from: Time, earlier: Time)
    requires cfg.Valid() && Reachable(cfg, s) && Reaches(cfg, s, t) && earlier <= from
    ensures KeysWrittenSince(s, inst, from) <= KeysWrittenSince(t, inst, earlier)
  {
    ReachableKept(cfg, s);
    var run :| IsRun(cfg, s, run) && After(cfg, s, run) == t;
    RunKeepsWrites(cfg, s, run);
    RunKeeps(cfg, s, run);
    forall i | i in s.wrote && i in s.calls && s.calls[i].inst == inst && from < s.wrote[i].at
      ensures s.calls[i].key in KeysWrittenSince(t, inst, earlier)
    {
      assert SlotOf(t.calls[i]) == SlotOf(s.calls[i]) && IsWriter(t.calls[i].phase);
    }
  }

  /** `Len` meets one state per shard, since it locks the shards one after the other and everything
      else goes on in between. */
  ghost predicate Observed(cfg: Config, obs: seq<State>) {
    && |obs| == Fnv1a.SHARDS && Reachable(cfg, obs[0])
    && forall k :: 0 < k < |obs| ==> Reaches(cfg, obs[k - 1], obs[k])
  }

  function ShardKeys(s: State, inst: Inst, n: int): set<Key> {
    set t | t in s.l1 && t.inst == inst && HomeOf(t.key) == n :: t.key
  }

  /** The sum after the first `n` shards. */
  function Count(obs: seq<State>, inst: Inst, n: nat): nat
    requires n <= |obs|
  {
    if n == 0 then 0 else Count(obs, inst, n - 1) + |ShardKeys(obs[n - 1], inst, n - 1)|
  }

  /** Undisturbed, the count is the size of the table. */
  lemma {:induction false} UndisturbedCount(obs: seq<State>, s: State, inst: Inst, n: nat)
    requires n <= |obs| && forall k :: 0 <= k < |obs| ==> obs[k] == s
    ensures Count(obs, inst, n) == |HomedBelow(CachedKeys(s, inst), n)|
  {
    if n > 0 {
      UndisturbedCount(obs, s, inst, n - 1);
      var a, b := HomedBelow(CachedKeys(s, inst), n - 1), ShardKeys(s, inst, n - 1);
      assert HomedBelow(CachedKeys(s, inst), n) == a + b && a !! b;
    }
  }

  lemma UndisturbedLen(obs: seq<State>, s: State, inst: Inst)
    requires |obs| == Fnv1a.SHARDS && forall k :: 0 <= k < |obs| ==> obs[k] == s
    ensures Count(obs, inst, |obs|) == |CachedKeys(s, inst)|
  {
    UndisturbedCount(obs, s, inst, |obs|);
    assert HomedBelow(CachedKeys(s, inst), |obs|) == CachedKeys(s, inst);
  }

  lemma {:induction false} LaterObserved(cfg: Config, obs: seq<State>, j: nat, k: nat)
    requires Observed(cfg, obs) && j <= k < |obs|
    ensures Reaches(cfg, obs[j], obs[k])
    decreases k - j
  {
    if j == k {
      Solo.ReachesSelf(cfg, obs[j]);
    } else {
      LaterObserved(cfg, obs, j, k - 1);
      Solo.ReachesTransitive(cfg, obs[j], obs[k - 1], obs[k]);
    }
  }

  /** What the count meets in a shard was written in the span, as seen from the last state. */
  lemma CountedWereWritten(cfg: Config, obs: seq<State>, inst: Inst, period: Time, n: nat)
    requires cfg.Valid() && Observed(cfg, obs) && n < |obs| && obs[n].clock <= LastSweep(obs[n], inst) + period
    ensures ShardKeys(obs[n], inst, n) <= KeysWrittenSince(obs[|obs| - 1], inst, obs[0].clock - cfg.window - period)
  {
    var s, from := obs[n], obs[n].clock - cfg.window - period;
    LaterObserved(cfg, obs, 0, n);
    LaterObserved(cfg, obs, n, |obs| - 1);
    Solo.ReachesTransitive(cfg, INITIAL, obs[0], s);
    NoEarlier(cfg, obs[0], s);
    forall k | k in ShardKeys(s, inst, n) ensures k in KeysWrittenSince(s, inst, from) {
      var slot := Slot(inst, k);
      EntriesAreYoung(cfg, s, slot, period);
      assert s.calls[s.writer[slot]].key == k;
    }
    KeysWrittenGrow(cfg, s, obs[|obs| - 1], inst, from, obs[0].clock - cfg.window - period);
  }

  lemma NoEarlier(cfg: Config, s: State, t: State)
    requires cfg.Valid() && Reachable(cfg, s) && Reaches(cfg, s, t)
    ensures s.clock <= t.clock
  {
    ReachableInv(cfg, s);
    var run :| IsRun(cfg, s, run) && After(cfg, s, run) == t;
    RunKeepsInv(cfg, s, run);
  }

  /** The keys of a set that live in the first `n` shards. */
  function HomedBelow(keys: set<Key>, n: int): set<Key> {
    set k | k in keys && HomeOf(k) < n
  }

  /** Shards hold disjoint keys, so the sum never counts a key twice. */
  lemma {:induction false} CountIsNoLarger(obs: seq<State>, inst: Inst, keys: set<Key>, n: nat)
    requires n <= |obs| && forall m :: 0 <= m < |obs| ==> ShardKeys(obs[m], inst, m) <= keys
    ensures Count(obs, inst, n) <= |HomedBelow(keys, n)|
  {
    if n > 0 {
      CountIsNoLarger(obs, inst, keys, n - 1);
      var b := ShardKeys(obs[n - 1], inst, n - 1);
      assert b <= keys;
      NextShardIsNew(keys, b, n - 1);
      DisjointSizes(HomedBelow(keys, n - 1), b, HomedBelow(keys, n));
    }
  }

  lemma NextShardIsNew(keys: set<Key>, shard: set<Key>, n: int)
    requires shard <= keys && forall k :: k in shard ==> HomeOf(k) == n
    ensures HomedBelow(keys, n) !! shard && HomedBelow(keys, n) <= HomedBelow(keys, n + 1) && shard <= HomedBelow(keys, n + 1)
  {
  }

  lemma DisjointSizes<T>(a: set<T>, b: set<T>, c: set<T>)
    requires a !! b && a <= c && b <= c
    ensures |a| + |b| <= |c|
  {
    SubsetSize(a + b, c);
  }

  /** The count itself is bounded while the system runs on: if a sweep completes every period, it is no
      larger than the number of distinct keys written from a window and a period before its start
      until its end. */
  lemma LenIsBounded(cfg: Config, obs: seq<State>, inst: Inst, period: Time)
    requires cfg.Valid() && Observed(cfg, obs)
    requires forall n :: 0 <= n < |obs| ==> obs[n].clock <= LastSweep(obs[n], inst) + period
    ensures Count(obs, inst, |obs|) <= |KeysWrittenSince(obs[|obs| - 1], inst, obs[0].clock - cfg.window - period)|
  {
    var keys := KeysWrittenSince(obs[|obs| - 1], inst, obs[0].clock - cfg.window - period);
    forall n | 0 <= n < |obs| ensures ShardKeys(obs[n], inst, n) <= keys {
      CountedWereWritten(cfg, obs, inst, period, n);
    }
    CountIsNoLarger(obs, inst, keys, |obs|);
    SubsetSize(HomedBelow(keys, |obs|), keys);
  }
}
