/** The inductive invariant of the protocol: every L1 entry, every backend entry and every
    answer is traced back to the arming that justifies it. */
module Invariant {
  import opened Expiry
  import opened Protocol
  import Stores
  import Fnv1a

  /** `source` armed `key` no more than a window before `commit`. */
  ghost predicate Sourced(cfg: Config, s: State, key: Key, commit: Time, source: Id) {
    && source in s.arms && source in s.calls && s.calls[source].key == key
    && s.arms[source] <= commit <= s.arms[source] + cfg.window
  }

  /** The refusal bound: just under two windows plus the lag. */
  ghost predicate Justified(cfg: Config, s: State, key: Key, sample: Time, seen: Time, source: Id) {
    && source in s.arms && source in s.calls && s.calls[source].key == key
    && s.arms[source] <= seen
    && sample < s.arms[source] + 2 * cfg.window + cfg.lag
  }

  ghost predicate CallOk(cfg: Config, s: State, i: Id)
    requires i in s.calls
  {
    var key := s.calls[i].key;
    match s.calls[i].phase
    case Invoked => i !in s.arms
    case Sampled(now) => i !in s.arms && now <= s.clock
    case Stale(now) => i !in s.arms && now <= s.clock
    case Missed => i !in s.arms
    case Unanswered => true
    case Replied(dup, commit, source) =>
      Sourced(cfg, s, key, commit, source) && commit <= s.clock
      && (dup ==> i !in s.arms) && (!dup ==> source == i && s.arms[i] == commit)
    case Stamped(dup, commit, source, expiry) =>
      Sourced(cfg, s, key, commit, source) && expiry <= s.clock + cfg.window
      && (dup ==> i !in s.arms) && (!dup ==> source == i && s.arms[i] == commit)
      && commit + cfg.window <= expiry <= commit + cfg.lag + cfg.window
    case Admitted(commit) => i in s.arms && s.arms[i] == commit
    case Refused(sample, seen, source, hit) =>
      i !in s.arms && sample <= seen <= s.clock && Justified(cfg, s, key, sample, seen, source)
      && (!hit ==> seen == sample <= s.arms[source] + cfg.window)
    case Failed(at, pending) => at <= s.clock && (pending ==> i !in s.arms)
  }

  ghost predicate CallsOk(cfg: Config, s: State) {
    forall i :: i in s.calls ==> CallOk(cfg, s, i)
  }

  ghost predicate Armed(cfg: Config, s: State, i: Id)
    requires i in s.arms
  {
    && i in s.calls && s.arms[i] <= s.clock
    && s.calls[i].key in s.backend && s.arms[i] + cfg.window <= s.backend[s.calls[i].key]
  }

  ghost predicate Held(cfg: Config, s: State, k: Key)
    requires k in s.backend
  {
    && k in s.holder && s.holder[k] in s.arms && s.holder[k] in s.calls && s.calls[s.holder[k]].key == k
    && s.backend[k] == s.arms[s.holder[k]] + cfg.window
  }

  /** Two armings of one key are strictly more than a window apart. */
  ghost predicate Apart(cfg: Config, s: State, i: Id, j: Id)
    requires i in s.arms && j in s.arms
  {
    s.arms[i] + cfg.window < s.arms[j] || s.arms[j] + cfg.window < s.arms[i]
  }

  ghost predicate SameKey(s: State, i: Id, j: Id) {
    i in s.calls && j in s.calls && s.calls[i].key == s.calls[j].key
  }

  ghost predicate ArmsOk(cfg: Config, s: State) {
    && (forall i :: i in s.arms ==> Armed(cfg, s, i))
    && (forall k :: k in s.backend ==> Held(cfg, s, k))
    && (forall i, j :: i in s.arms && j in s.arms && i != j && SameKey(s, i, j) ==> Apart(cfg, s, i, j))
  }

  ghost predicate WriteOk(cfg: Config, s: State, i: Id)
    requires i in s.wrote
  {
    var w := s.wrote[i];
    && i in s.calls
    && Sourced(cfg, s, s.calls[i].key, w.commit, w.source)
    && w.commit + cfg.window <= w.expiry <= w.commit + cfg.lag + cfg.window
    && w.expiry <= w.at + cfg.window && w.at <= s.clock
  }

  /** The last write of a slot is still there, or its expiry has passed. */
  ghost predicate SlotOk(s: State, slot: Slot)
    requires slot in s.writer
  {
    var i := s.writer[slot];
    && i in s.wrote && i in s.calls && SlotOf(s.calls[i]) == slot
    && (slot in s.l1 ==> s.l1[slot] == s.wrote[i].expiry)
    && (slot !in s.l1 ==> s.wrote[i].expiry <= s.clock)
  }

  ghost predicate L1Ok(cfg: Config, s: State) {
    && (forall slot :: slot in s.l1 ==> slot in s.writer)
    && (forall slot :: slot in s.writer ==> SlotOk(s, slot))
    && (forall i :: i in s.wrote ==> WriteOk(cfg, s, i))
    && (forall inst :: inst in s.sweeps ==> s.sweeps[inst].now <= s.clock && 0 <= s.sweeps[inst].next < Fnv1a.SHARDS)
  }

  ghost predicate Inv(cfg: Config, s: State) {
    ArmsOk(cfg, s) && CallsOk(cfg, s) && L1Ok(cfg, s)
  }

  // ---------------------------------------------------------------- what every step keeps

  /** Calls keep their instance and key, armings are never revised, time does not run back. */
  ghost predicate Extends(s: State, s': State) {
    && s.clock <= s'.clock
    && (forall i :: i in s.calls ==> i in s'.calls && SlotOf(s'.calls[i]) == SlotOf(s.calls[i]))
    && (forall i :: i in s.arms ==> i in s'.arms && s'.arms[i] == s.arms[i])
  }

  lemma ExtendsTransitive(s: State, m: State, t: State)
    requires Extends(s, m) && Extends(m, t)
    ensures Extends(s, t)
  {
  }

  /** Only the final write of a call adds to L1; every other action at most evicts an expired entry. */
  lemma MemoryFrame(cfg: Config, s: State, id: Id, action: Action)
    requires Enabled(cfg, s, Act(id, action)) && !action.Store?
    ensures var m := Memory(cfg, s, id, action);
            && m.calls == s.calls && m.clock == s.clock && m.sweeps == s.sweeps && m.swept == s.swept
            && m.wrote == s.wrote && m.writer == s.writer
            && (forall t :: t in m.l1 ==> t in s.l1 && m.l1[t] == s.l1[t])
            && (forall t :: t in s.l1 && t !in m.l1 ==> s.l1[t] <= s.clock)
  {
    if action.Evict? {
      var slot := SlotOf(s.calls[id]);
      var m := Memory(cfg, s, id, action);
      assert m == s || m == Drop(s, {slot});
    } else {
      assert Memory(cfg, s, id, action) == s || Memory(cfg, s, id, action) == Commit(cfg, s, id);
    }
  }

  /** Only a call that has not armed yet commits. */
  lemma MemoryExtends(cfg: Config, s: State, id: Id, action: Action)
    requires CallsOk(cfg, s) && Enabled(cfg, s, Act(id, action))
    ensures Extends(s, Memory(cfg, s, id, action)) && Memory(cfg, s, id, action).calls == s.calls
    ensures forall i :: i in Memory(cfg, s, id, action).arms ==> i in s.arms || i == id
  {
    assert CallOk(cfg, s, id);
  }

  lemma GotoExtends(s: State, id: Id, p: Phase)
    requires id in s.calls
    ensures Extends(s, Goto(s, id, p))
  {
  }

  lemma SameCallsExtend(s: State, s': State)
    requires s'.calls == s.calls && s'.arms == s.arms && s.clock <= s'.clock
    ensures Extends(s, s')
  {
  }

  /** A sweeper that moves on changes only its own progress. */
  lemma AdvanceFields(s: State, inst: Inst)
    requires inst in s.sweeps
    ensures var s' := Advance(s, inst);
            && s'.clock == s.clock && s'.calls == s.calls && s'.l1 == s.l1 && s'.backend == s.backend
            && s'.arms == s.arms && s'.holder == s.holder && s'.wrote == s.wrote && s'.writer == s.writer
  {
  }

  lemma AdvanceSweeps(s: State, inst: Inst, j: Inst)
    requires inst in s.sweeps && j in Advance(s, inst).sweeps
    ensures j in s.sweeps && Advance(s, inst).sweeps[j].now == s.sweeps[j].now
    ensures Advance(s, inst).sweeps[j] == s.sweeps[j] || s.sweeps[j].next < Advance(s, inst).sweeps[j].next < Fnv1a.SHARDS
  {
  }

  lemma SweepExtends(s: State, inst: Inst)
    requires inst in s.sweeps
    ensures var s' := Advance(Drop(s, Swept(s, inst)), inst);
            Extends(s, s') && s'.calls == s.calls && s'.arms == s.arms
  {
  }

  lemma StepExtends(cfg: Config, s: State, step: Step)
    requires CallsOk(cfg, s) && Enabled(cfg, s, step)
    ensures Extends(s, Apply(cfg, s, step))
  {
    match step
    case Act(id, action) =>
      MemoryExtends(cfg, s, id, action);
      GotoExtends(Memory(cfg, s, id, action), id, Next(cfg, s, id, action));
      ExtendsTransitive(s, Memory(cfg, s, id, action), Apply(cfg, s, step));
    case SweepShard(inst) =>
      SweepExtends(s, inst);
    case _ =>
  }

  lemma CommitKeepsArms(cfg: Config, s: State, id: Id)
    requires cfg.Valid() && ArmsOk(cfg, s) && id in s.calls && id !in s.arms
    ensures ArmsOk(cfg, Commit(cfg, s, id))
  {
    var s' := Commit(cfg, s, id);
    if s' != s {
      var key := s.calls[id].key;
      forall i | i in s'.arms ensures Armed(cfg, s', i) {
        if i != id { assert Armed(cfg, s, i); }
      }
      forall k | k in s'.backend ensures Held(cfg, s', k) {
        if k != key { assert Held(cfg, s, k); }
      }
      forall i, j | i in s'.arms && j in s'.arms && i != j && SameKey(s', i, j) ensures Apart(cfg, s', i, j) {
        if i != id && j != id { assert SameKey(s, i, j) && Apart(cfg, s, i, j); }
        if i == id { assert Armed(cfg, s, j); }
        if j == id { assert Armed(cfg, s, i); }
      }
    }
  }

  /** Steps that leave the backend alone keep the arming facts. */
  lemma ArmsFrame(cfg: Config, s: State, s': State)
    requires ArmsOk(cfg, s) && Extends(s, s')
    requires s'.arms == s.arms && s'.backend == s.backend && s'.holder == s.holder
    ensures ArmsOk(cfg, s')
  {
    forall i | i in s'.arms ensures Armed(cfg, s', i) {
      assert Armed(cfg, s, i) && SlotOf(s'.calls[i]) == SlotOf(s.calls[i]);
    }
    forall k | k in s'.backend ensures Held(cfg, s', k) {
      assert Held(cfg, s, k);
      var h := s.holder[k];
      assert SlotOf(s'.calls[h]) == SlotOf(s.calls[h]);
    }
    forall i, j | i in s'.arms && j in s'.arms && i != j && SameKey(s', i, j) ensures Apart(cfg, s', i, j) {
      assert Armed(cfg, s, i) && Armed(cfg, s, j);
      assert SlotOf(s'.calls[i]) == SlotOf(s.calls[i]) && SlotOf(s'.calls[j]) == SlotOf(s.calls[j]);
      assert SameKey(s, i, j) && Apart(cfg, s, i, j);
    }
  }

  lemma MemoryKeepsArms(cfg: Config, s: State, id: Id, action: Action)
    requires cfg.Valid() && Inv(cfg, s) && Enabled(cfg, s, Act(id, action))
    ensures ArmsOk(cfg, Memory(cfg, s, id, action))
  {
    assert CallOk(cfg, s, id);
    match action
    case Ask => CommitKeepsArms(cfg, s, id);
    case Late => CommitKeepsArms(cfg, s, id);
    case Lose => CommitKeepsArms(cfg, s, id);
    case Store => ArmsFrame(cfg, s, Memory(cfg, s, id, action));
    case Evict => ArmsFrame(cfg, s, Memory(cfg, s, id, action));
    case _ =>
  }

  lemma ActKeepsTables(cfg: Config, s: State, id: Id, action: Action)
    requires cfg.Valid() && Inv(cfg, s) && Enabled(cfg, s, Act(id, action))
    ensures ArmsOk(cfg, Apply(cfg, s, Act(id, action)))
    ensures L1Ok(cfg, Apply(cfg, s, Act(id, action)))
  {
    MemoryKeepsArms(cfg, s, id, action);
    MemoryKeepsL1(cfg, s, id, action);
    GotoKeepsTables(cfg, Memory(cfg, s, id, action), id, Next(cfg, s, id, action));
  }

  /** A call that did not move keeps its fact. */
  lemma CallStable(cfg: Config, s: State, s': State, i: Id)
    requires Extends(s, s') && i in s.calls && s'.calls[i] == s.calls[i] && CallOk(cfg, s, i)
    requires i in s'.arms ==> i in s.arms
    ensures CallOk(cfg, s', i)
  {
  }

  /** An L1 hit inherits the source of the entry it hit. */
  lemma HitIsJustified(cfg: Config, s: State, slot: Slot, sample: Time, otherwise: Id)
    requires cfg.Valid() && L1Ok(cfg, s) && ArmsOk(cfg, s) && slot in s.l1 && sample < s.l1[slot]
    ensures Justified(cfg, s, slot.key, sample, s.clock, SourceOf(s, slot, otherwise))
  {
  }

  lemma ReadKept(cfg: Config, s: State, id: Id)
    requires cfg.Valid() && Inv(cfg, s) && Enabled(cfg, s, Act(id, Read))
    ensures CallOk(cfg, Apply(cfg, s, Act(id, Read)), id)
  {
    assert CallOk(cfg, s, id);
    var c := s.calls[id];
    if SlotOf(c) in s.l1 && c.phase.now < s.l1[SlotOf(c)] {
      HitIsJustified(cfg, s, SlotOf(c), c.phase.now, id);
    }
  }

  lemma AskKept(cfg: Config, s: State, id: Id)
    requires cfg.Valid() && Inv(cfg, s) && Enabled(cfg, s, Act(id, Ask))
    ensures CallOk(cfg, Apply(cfg, s, Act(id, Ask)), id)
  {
  }

  lemma BreakKept(cfg: Config, s: State, id: Id, action: Action)
    requires CallsOk(cfg, s) && Enabled(cfg, s, Act(id, action)) && (action.Lose? || action.Break? || action.Late?)
    ensures CallOk(cfg, Apply(cfg, s, Act(id, action)), id)
  {
  }

  lemma SetKept(cfg: Config, s: State, id: Id, action: Action)
    requires cfg.Valid() && CallsOk(cfg, s) && Enabled(cfg, s, Act(id, action)) && (action.Stamp? || action.Store?)
    ensures CallOk(cfg, Apply(cfg, s, Act(id, action)), id)
  {
  }

  lemma LookKept(cfg: Config, s: State, id: Id, action: Action)
    requires CallsOk(cfg, s) && Enabled(cfg, s, Act(id, action)) && (action.Sample? || action.Evict?)
    ensures CallOk(cfg, Apply(cfg, s, Act(id, action)), id)
  {
  }

  lemma ActorKept(cfg: Config, s: State, id: Id, action: Action)
    requires cfg.Valid() && Inv(cfg, s) && Enabled(cfg, s, Act(id, action))
    ensures CallOk(cfg, Apply(cfg, s, Act(id, action)), id)
  {
    match action
    case Read => ReadKept(cfg, s, id);
    case Ask => AskKept(cfg, s, id);
    case Lose => BreakKept(cfg, s, id, action);
    case Break(_) => BreakKept(cfg, s, id, action);
    case Late => BreakKept(cfg, s, id, action);
    case Stamp => SetKept(cfg, s, id, action);
    case Store => SetKept(cfg, s, id, action);
    case _ => LookKept(cfg, s, id, action);
  }

  lemma ActKeepsCalls(cfg: Config, s: State, id: Id, action: Action)
    requires cfg.Valid() && Inv(cfg, s) && Enabled(cfg, s, Act(id, action))
    ensures CallsOk(cfg, Apply(cfg, s, Act(id, action)))
  {
    var m, s' := Memory(cfg, s, id, action), Apply(cfg, s, Act(id, action));
    StepExtends(cfg, s, Act(id, action));
    MemoryExtends(cfg, s, id, action);
    ActorKept(cfg, s, id, action);
    forall i | i in s'.calls && i != id ensures CallOk(cfg, s', i) {
      CallStable(cfg, s, s', i);
    }
  }

  lemma StepKeepsCalls(cfg: Config, s: State, step: Step)
    requires cfg.Valid() && Inv(cfg, s) && Enabled(cfg, s, step)
    ensures CallsOk(cfg, Apply(cfg, s, step))
  {
    var s' := Apply(cfg, s, step);
    match step
    case Act(id, action) => ActKeepsCalls(cfg, s, id, action);
    case Invoke(id, _, _) =>
      StepExtends(cfg, s, step);
      assert id in s.arms ==> Armed(cfg, s, id);
      forall i | i in s'.calls && i != id ensures CallOk(cfg, s', i) { CallStable(cfg, s, s', i); }
    case SweepShard(inst) =>
      SweepExtends(s, inst);
      forall i | i in s'.calls ensures CallOk(cfg, s', i) { CallStable(cfg, s, s', i); }
    case _ =>
      StepExtends(cfg, s, step);
      forall i | i in s'.calls ensures CallOk(cfg, s', i) { CallStable(cfg, s, s', i); }
  }

  lemma WriteStable(cfg: Config, s: State, s': State, i: Id)
    requires Extends(s, s') && i in s.wrote && i in s'.wrote && s'.wrote[i] == s.wrote[i] && WriteOk(cfg, s, i)
    ensures WriteOk(cfg, s', i)
  {
  }

  /** Steps that write no L1 entry and remove only expired ones keep the L1 facts. */
  lemma L1Frame(cfg: Config, s: State, s': State)
    requires L1Ok(cfg, s) && Extends(s, s')
    requires s'.wrote == s.wrote && s'.writer == s.writer
    requires forall slot :: slot in s'.l1 ==> slot in s.l1 && s'.l1[slot] == s.l1[slot]
    requires forall slot :: slot in s.l1 && slot !in s'.l1 ==> s.l1[slot] <= s.clock
    requires forall inst :: inst in s'.sweeps ==> s'.sweeps[inst].now <= s'.clock && 0 <= s'.sweeps[inst].next < Fnv1a.SHARDS
    ensures L1Ok(cfg, s')
  {
  }

  /** Moving a call to another phase touches no table. */
  lemma GotoKeepsTables(cfg: Config, s: State, id: Id, p: Phase)
    requires id in s.calls
    ensures ArmsOk(cfg, s) ==> ArmsOk(cfg, Goto(s, id, p))
    ensures L1Ok(cfg, s) ==> L1Ok(cfg, Goto(s, id, p))
  {
    GotoExtends(s, id, p);
    if ArmsOk(cfg, s) { ArmsFrame(cfg, s, Goto(s, id, p)); }
    if L1Ok(cfg, s) { L1Frame(cfg, s, Goto(s, id, p)); }
  }

  lemma PutKeepsL1(cfg: Config, s: State, id: Id)
    requires cfg.Valid() && Inv(cfg, s) && Enabled(cfg, s, Act(id, Store))
    ensures L1Ok(cfg, Memory(cfg, s, id, Store))
  {
    var s', slot := Memory(cfg, s, id, Store), SlotOf(s.calls[id]);
    assert CallOk(cfg, s, id);
    forall i | i in s'.wrote ensures WriteOk(cfg, s', i) {
      if i != id {
        WriteStable(cfg, s, s', i);
      }
    }
    forall t | t in s'.writer ensures SlotOk(s', t) {
      if t != slot {
        assert SlotOk(s, t);
      }
    }
  }

  lemma MemoryKeepsL1(cfg: Config, s: State, id: Id, action: Action)
    requires cfg.Valid() && Inv(cfg, s) && Enabled(cfg, s, Act(id, action))
    ensures L1Ok(cfg, Memory(cfg, s, id, action))
  {
    if action.Store? {
      PutKeepsL1(cfg, s, id);
    } else {
      MemoryExtends(cfg, s, id, action);
      MemoryFrame(cfg, s, id, action);
      L1Frame(cfg, s, Memory(cfg, s, id, action));
    }
  }

  lemma TickKeepsTables(cfg: Config, s: State, d: nat)
    requires Inv(cfg, s)
    ensures ArmsOk(cfg, Apply(cfg, s, Tick(d))) && L1Ok(cfg, Apply(cfg, s, Tick(d)))
  {
    var s' := Apply(cfg, s, Tick(d));
    assert Extends(s, s');
    ArmsFrame(cfg, s, s');
    L1Frame(cfg, s, s');
  }

  lemma InvokeKeepsTables(cfg: Config, s: State, id: Id, inst: Inst, key: Key)
    requires Inv(cfg, s) && id !in s.calls
    ensures var s' := Apply(cfg, s, Invoke(id, inst, key)); ArmsOk(cfg, s') && L1Ok(cfg, s')
  {
    var s' := Apply(cfg, s, Invoke(id, inst, key));
    assert Extends(s, s');
    ArmsFrame(cfg, s, s');
    L1Frame(cfg, s, s');
  }

  lemma SweepStartKeepsTables(cfg: Config, s: State, inst: Inst)
    requires Inv(cfg, s) && inst !in s.sweeps
    ensures var s' := Apply(cfg, s, SweepStart(inst)); ArmsOk(cfg, s') && L1Ok(cfg, s')
  {
    var s' := Apply(cfg, s, SweepStart(inst));
    assert Extends(s, s');
    ArmsFrame(cfg, s, s');
    L1Frame(cfg, s, s');
  }

  lemma DropKeepsTables(cfg: Config, s: State, slots: set<Slot>)
    requires ArmsOk(cfg, s) && L1Ok(cfg, s)
    requires forall t :: t in slots && t in s.l1 ==> s.l1[t] <= s.clock
    ensures ArmsOk(cfg, Drop(s, slots)) && L1Ok(cfg, Drop(s, slots))
  {
    SameCallsExtend(s, Drop(s, slots));
    ArmsFrame(cfg, s, Drop(s, slots));
    L1Frame(cfg, s, Drop(s, slots));
  }

  lemma AdvanceKeepsTables(cfg: Config, s: State, inst: Inst)
    requires ArmsOk(cfg, s) && L1Ok(cfg, s) && inst in s.sweeps
    ensures ArmsOk(cfg, Advance(s, inst)) && L1Ok(cfg, Advance(s, inst))
  {
    AdvanceFields(s, inst);
    var s' := Advance(s, inst);
    SameCallsExtend(s, s');
    forall j | j in s'.sweeps ensures s'.sweeps[j].now <= s'.clock && 0 <= s'.sweeps[j].next < Fnv1a.SHARDS {
      AdvanceSweeps(s, inst, j);
    }
    ArmsFrame(cfg, s, s');
    L1Frame(cfg, s, s');
  }

  lemma SweepShardKeepsTables(cfg: Config, s: State, inst: Inst)
    requires Inv(cfg, s) && inst in s.sweeps
    ensures var s' := Apply(cfg, s, SweepShard(inst)); ArmsOk(cfg, s') && L1Ok(cfg, s')
  {
    DropKeepsTables(cfg, s, Swept(s, inst));
    AdvanceKeepsTables(cfg, Drop(s, Swept(s, inst)), inst);
  }

  lemma StepKeepsTables(cfg: Config, s: State, step: Step)
    requires cfg.Valid() && Inv(cfg, s) && Enabled(cfg, s, step)
    ensures ArmsOk(cfg, Apply(cfg, s, step)) && L1Ok(cfg, Apply(cfg, s, step))
  {
    match step
    case Act(id, action) => ActKeepsTables(cfg, s, id, action);
    case Tick(d) => TickKeepsTables(cfg, s, d);
    case Invoke(id, inst, key) => InvokeKeepsTables(cfg, s, id, inst, key);
    case SweepStart(inst) => SweepStartKeepsTables(cfg, s, inst);
    case SweepShard(inst) => SweepShardKeepsTables(cfg, s, inst);
  }

  lemma StepKeepsInv(cfg: Config, s: State, step: Step)
    requires cfg.Valid() && Inv(cfg, s) && Enabled(cfg, s, step)
    ensures Inv(cfg, Apply(cfg, s, step)) && Extends(s, Apply(cfg, s, step))
  {
    StepExtends(cfg, s, step);
    StepKeepsTables(cfg, s, step);
    StepKeepsCalls(cfg, s, step);
  }

  lemma {:induction false} RunKeepsInv(cfg: Config, s: State, run: seq<Step>)
    requires cfg.Valid() && Inv(cfg, s) && IsRun(cfg, s, run)
    ensures Inv(cfg, After(cfg, s, run)) && Extends(s, After(cfg, s, run))
    decreases |run|
  {
    if run != [] {
      StepKeepsInv(cfg, s, run[0]);
      RunKeepsInv(cfg, Apply(cfg, s, run[0]), run[1..]);
      ExtendsTransitive(s, Apply(cfg, s, run[0]), After(cfg, s, run));
    }
  }

  lemma ReachableInv(cfg: Config, s: State)
    requires cfg.Valid() && Reachable(cfg, s)
    ensures Inv(cfg, s)
  {
    var run :| IsRun(cfg, INITIAL, run) && After(cfg, INITIAL, run) == s;
    RunKeepsInv(cfg, INITIAL, run);
  }
}
