/** The converse of `Solo`: a run in which one call, or one sweep, is left alone with the clock can
    only do what the sequential code does. */
module Alone {
  import opened Expiry
  import opened Protocol
  import opened Solo
  import CachedStores
  import Fnv1a
  import Invariant
  import Safety
  import Stores

  // ---------------------------------------------------------------- calls

  /** Time passes, or call `id` goes on. A write that arrives after the error was reported is not the call's. */
  predicate OwnStep(id: Id, step: Step) {
    step.Tick? || (step.Act? && step.id == id && !step.action.Late?)
  }

  ghost predicate OwnRun(id: Id, run: seq<Step>) {
    forall k :: 0 <= k < |run| ==> OwnStep(id, run[k])
  }

  predicate TablesKept(s0: State, s: State) {
    s.l1 == s0.l1 && s.backend == s0.backend
  }

  /** The lookup at `t.read` missed, and left no entry behind. */
  predicate Looked(s0: State, s: State, slot: Slot, t: Samples) {
    s0.clock <= t.read <= t.again && (slot in s0.l1 ==> s0.l1[slot] <= t.read) && s.l1 == s0.l1 - {slot}
  }

  /** The backend has executed the call at `t.commit`. */
  predicate Executed(cfg: Config, s0: State, s: State, slot: Slot, t: Samples) {
    t.again <= t.commit && s.backend == Stores.SetIfAbsent(s0.backend, slot.key, cfg.window, t.commit)
  }

  /** The call was answered and has written L1. */
  ghost predicate Stored(cfg: Config, s0: State, s: State, slot: Slot, t: Samples) {
    && s0.clock <= t.read && InOrder(cfg, Stores.NoFault, t) && t.stamp <= s.clock && (slot in s0.l1 ==> s0.l1[slot] <= t.read)
    && s.l1 == (s0.l1 - {slot})[slot := t.stamp + cfg.window] && Executed(cfg, s0, s, slot, t)
  }

  /** The instants a call has met so far, and the fault. */
  datatype Account = Account(t: Samples, fault: Fault)

  /** The account of a call that has not read the clock yet. */
  function Opening(now: Time): Account {
    Account(CachedStores.Once(now), Stores.NoFault)
  }

  /** How far the call has come in `s`, by its account. */
  ghost predicate Along(cfg: Config, s0: State, s: State, slot: Slot, p: Phase, a: Account) {
    var t := a.t;
    && (a.fault.NoFault? <==> !p.Unanswered? && !p.Failed?)
    && match p
       case Invoked => TablesKept(s0, s) && s0.clock <= s.clock
       case Sampled(now) => TablesKept(s0, s) && t == CachedStores.Once(now) && s0.clock <= now <= s.clock
       case Stale(now) =>
         && TablesKept(s0, s) && t == CachedStores.Once(now) && s0.clock <= now <= s.clock
         && slot in s0.l1 && s0.l1[slot] <= now
       case Missed => Looked(s0, s, slot, t) && t.again <= s.clock && s.backend == s0.backend
       case Unanswered =>
         Looked(s0, s, slot, t) && Executed(cfg, s0, s, slot, t) && t.commit <= s.clock && a.fault.ReplyLost?
       case Replied(dup, commit, _) =>
         && Looked(s0, s, slot, t) && Executed(cfg, s0, s, slot, t) && t.commit <= s.clock
         && commit == t.commit && dup == Stores.Present(s0.backend, slot.key, commit)
       case Stamped(dup, commit, _, expiry) =>
         && Looked(s0, s, slot, t) && Executed(cfg, s0, s, slot, t) && InOrder(cfg, Stores.NoFault, t) && t.stamp <= s.clock
         && commit == t.commit && dup == Stores.Present(s0.backend, slot.key, commit) && expiry == t.stamp + cfg.window
       case Admitted(_) => Stored(cfg, s0, s, slot, t) && Verdict(p, Stores.Present(s0.backend, slot.key, t.commit), t.commit)
       case Refused(sample, _, _, true) =>
         && TablesKept(s0, s) && t == CachedStores.Once(sample) && s0.clock <= sample <= s.clock
         && slot in s0.l1 && sample < s0.l1[slot]
       case Refused(_, _, _, false) =>
         Stored(cfg, s0, s, slot, t) && Verdict(p, Stores.Present(s0.backend, slot.key, t.commit), t.commit)
       case Failed(at, pending) =>
         && Looked(s0, s, slot, t) && t.again <= t.commit <= t.stamp <= s.clock && at == t.stamp
         && (a.fault.RequestLost? ==> s.backend == s0.backend)
         && (a.fault.ReplyLost? ==> Executed(cfg, s0, s, slot, t) && !pending)
  }

  /** The account after an action. */
  function Note(s: State, a: Account, p: Phase, action: Action): Account {
    var t, now := a.t, s.clock;
    match action
    case Sample => a.(t := CachedStores.Once(now))
    case Evict => a.(t := t.(again := now))
    case Ask => a.(t := t.(commit := now))
    case Lose => Account(t.(commit := now), Stores.ReplyLost)
    case Stamp => a.(t := t.(stamp := now))
    case Break(_) =>
      if p.Missed? then Account(t.(commit := now, stamp := now), Stores.RequestLost) else a.(t := t.(stamp := now))
    case _ => a
  }

  /** The account of call `id` after a step. */
  function Follow(s: State, id: Id, a: Account, step: Step): Account {
    if step.Act? && step.id == id && id in s.calls then Note(s, a, s.calls[id].phase, step.action) else a
  }

  /** The account of call `id` after a run: the clock at each of its own steps, and the fault they show. */
  function FollowRun(cfg: Config, s: State, id: Id, a: Account, run: seq<Step>): Account
    requires IsRun(cfg, s, run)
    decreases |run|
  {
    if run == [] then a else FollowRun(cfg, Apply(cfg, s, run[0]), id, Follow(s, id, a, run[0]), run[1..])
  }

  /** An account holds the clock readings of the call's own steps, and its earlier readings stay. */
  lemma AccountReadsTheClock(cfg: Config, s: State, id: Id, a: Account, action: Action)
    requires Enabled(cfg, s, Act(id, action))
    ensures var b := Follow(s, id, a, Act(id, action));
            && (action.Sample? ==> b.t.read == s.clock)
            && (action.Evict? ==> b.t.again == s.clock && b.t.read == a.t.read)
            && (action.Ask? || action.Lose? ==> b.t.commit == s.clock && b.t.again == a.t.again && b.t.read == a.t.read)
            && (action.Stamp? || action.Break? ==> b.t.stamp == s.clock && b.t.again == a.t.again && b.t.read == a.t.read)
            && (action.Stamp? ==> b.t.commit == a.t.commit)
            && (action.Read? || action.Store? || action.Late? ==> b == a)
  {
  }

  /** Where the backend executes the call, it does so now. */
  lemma CommitExecutes(cfg: Config, s0: State, s: State, id: Id, t: Samples)
    requires id in s.calls && t.again <= s.clock && s.backend == s0.backend
    ensures var m := Commit(cfg, s, id);
            m.l1 == s.l1 && m.clock == s.clock && Executed(cfg, s0, m, SlotOf(s.calls[id]), t.(commit := s.clock))
  {
  }

  /** Each action takes the call one stage further. */
  lemma AlongAct(cfg: Config, s0: State, s: State, id: Id, action: Action, a: Account)
    requires Enabled(cfg, s, Act(id, action)) && !action.Late?
    requires Along(cfg, s0, s, SlotOf(s.calls[id]), s.calls[id].phase, a)
    ensures Along(cfg, s0, Memory(cfg, s, id, action), SlotOf(s.calls[id]), Next(cfg, s, id, action),
                  Note(s, a, s.calls[id].phase, action))
  {
    if action.Ask? || action.Lose? {
      CommitExecutes(cfg, s0, s, id, a.t);
    }
  }

  lemma GotoKeepsAlong(cfg: Config, s0: State, m: State, id: Id, slot: Slot, p: Phase, a: Account)
    requires id in m.calls && Along(cfg, s0, m, slot, p, a) && SlotOf(m.calls[id]) == slot
    ensures Along(cfg, s0, Goto(m, id, p), slot, p, a) && SlotOf(Goto(m, id, p).calls[id]) == slot
  {
  }

  lemma TickKeepsAlong(cfg: Config, s0: State, s: State, d: nat, slot: Slot, p: Phase, a: Account)
    requires Along(cfg, s0, s, slot, p, a)
    ensures Along(cfg, s0, Apply(cfg, s, Tick(d)), slot, p, a)
  {
  }

  lemma AlongStep(cfg: Config, s0: State, s: State, step: Step, id: Id, slot: Slot, a: Account)
    requires id in s.calls && SlotOf(s.calls[id]) == slot && Along(cfg, s0, s, slot, s.calls[id].phase, a)
    requires Enabled(cfg, s, step) && OwnStep(id, step)
    ensures var s' := Apply(cfg, s, step);
            && id in s'.calls && SlotOf(s'.calls[id]) == slot
            && Along(cfg, s0, s', slot, s'.calls[id].phase, Follow(s, id, a, step))
  {
    match step
    case Tick(d) => TickKeepsAlong(cfg, s0, s, d, slot, s.calls[id].phase, a);
    case Act(_, action) =>
      AlongAct(cfg, s0, s, id, action, a);
      MemoryCalls(cfg, s, id, action);
      GotoKeepsAlong(cfg, s0, Memory(cfg, s, id, action), id, slot, Next(cfg, s, id, action), Follow(s, id, a, step));
  }

  lemma MemoryCalls(cfg: Config, s: State, id: Id, action: Action)
    requires Enabled(cfg, s, Act(id, action))
    ensures Memory(cfg, s, id, action).calls == s.calls
  {
  }

  lemma {:induction false} AlongRun(cfg: Config, s0: State, s: State, run: seq<Step>, id: Id, slot: Slot, a: Account)
    requires id in s.calls && SlotOf(s.calls[id]) == slot && Along(cfg, s0, s, slot, s.calls[id].phase, a)
    requires IsRun(cfg, s, run) && OwnRun(id, run)
    ensures var s' := After(cfg, s, run);
            && id in s'.calls && SlotOf(s'.calls[id]) == slot
            && Along(cfg, s0, s', slot, s'.calls[id].phase, FollowRun(cfg, s, id, a, run))
    decreases |run|
  {
    if run != [] {
      AlongStep(cfg, s0, s, run[0], id, slot, a);
      AlongRun(cfg, s0, Apply(cfg, s, run[0]), run[1..], id, slot, Follow(s, id, a, run[0]));
    }
  }

  /** What a finished call did is the sequential call by its account. */
  lemma FinishedIsSequential(cfg: Config, s0: State, s: State, id: Id, inst: Inst, key: Key, a: Account)
    requires cfg.Valid() && id in s.calls && Safety.Over(s.calls[id].phase)
    requires Along(cfg, s0, s, Slot(inst, key), s.calls[id].phase, a)
    ensures s0.clock <= a.t.read && a.t.stamp <= s.clock && InOrder(cfg, a.fault, a.t)
    ensures Agrees(s, id, inst, CachedStores.Call(View(s0, inst), a.fault, key, cfg.window, a.t), a.t)
    ensures OthersKept(s0, s, inst)
  {
    var p := s.calls[id].phase;
    if p.Failed? {
      ErrorAgrees(cfg, s0, s, a.fault, id, inst, key, a.t);
    } else if p.Refused? && p.hit {
      HitAgrees(cfg, s0, s, a.fault, id, inst, key, a.t);
    } else {
      MissAgrees(cfg, s0, s, id, inst, key, a.t);
    }
  }

  /** Whatever a call does that is left alone with the clock until it returns, it is the sequential
      call for the instants and the fault of its own steps, which are in order.
      `Solo.SequentialCallIsARun` is the converse. */
  lemma SoloRunsAreSequentialCalls(cfg: Config, s0: State, id: Id, inst: Inst, key: Key, run: seq<Step>, s: State)
    requires cfg.Valid() && id !in s0.calls && IsRun(cfg, Apply(cfg, s0, Invoke(id, inst, key)), run) && OwnRun(id, run)
    requires s == After(cfg, Apply(cfg, s0, Invoke(id, inst, key)), run) && id in s.calls && Safety.Over(s.calls[id].phase)
    ensures var a := FollowRun(cfg, Apply(cfg, s0, Invoke(id, inst, key)), id, Opening(s0.clock), run);
            && s0.clock <= a.t.read && a.t.stamp <= s.clock && InOrder(cfg, a.fault, a.t) && OthersKept(s0, s, inst)
            && Agrees(s, id, inst, CachedStores.Call(View(s0, inst), a.fault, key, cfg.window, a.t), a.t)
  {
    var s1 := Apply(cfg, s0, Invoke(id, inst, key));
    AlongRun(cfg, s0, s1, run, id, Slot(inst, key), Opening(s0.clock));
    FinishedIsSequential(cfg, s0, s, id, inst, key, FollowRun(cfg, s1, id, Opening(s0.clock), run));
  }

  // ---------------------------------------------------------------- sweeps

  ghost predicate SweeperRun(inst: Inst, run: seq<Step>) {
    forall k :: 0 <= k < |run| ==> run[k].Tick? || run[k] == SweepShard(inst)
  }

  /** The sweep is at shard `next`, or done, and has removed what it should from `before`. */
  ghost predicate SweepingAlong(s: State, inst: Inst, now: Time, before: map<Slot, Time>) {
    if inst in s.sweeps then
      && s.sweeps[inst].now == now && 0 <= s.sweeps[inst].next < Fnv1a.SHARDS
      && SweptUpto(before, s.l1, inst, now, s.sweeps[inst].next)
    else
      SweptUpto(before, s.l1, inst, now, Fnv1a.SHARDS)
  }

  lemma ShardAlong(cfg: Config, s: State, inst: Inst, now: Time, before: map<Slot, Time>)
    requires inst in s.sweeps && SweepingAlong(s, inst, now, before)
    ensures SweepingAlong(Apply(cfg, s, SweepShard(inst)), inst, now, before)
    ensures Apply(cfg, s, SweepShard(inst)).backend == s.backend
  {
    var m := Drop(s, Swept(s, inst));
    Invariant.AdvanceFields(m, inst);
    ShardStep(s, m, inst, before);
    AdvancedAlong(m, inst, now, before);
  }

  lemma AdvancedAlong(m: State, inst: Inst, now: Time, before: map<Slot, Time>)
    requires inst in m.sweeps && m.sweeps[inst].now == now && 0 <= m.sweeps[inst].next < Fnv1a.SHARDS
    requires SweptUpto(before, m.l1, inst, now, m.sweeps[inst].next + 1)
    ensures SweepingAlong(Advance(m, inst), inst, now, before)
  {
    Invariant.AdvanceFields(m, inst);
  }

  lemma SweepStep(cfg: Config, s: State, inst: Inst, now: Time, before: map<Slot, Time>, step: Step)
    requires SweepingAlong(s, inst, now, before) && Enabled(cfg, s, step) && (step.Tick? || step == SweepShard(inst))
    ensures SweepingAlong(Apply(cfg, s, step), inst, now, before) && Apply(cfg, s, step).backend == s.backend
  {
    if step.SweepShard? {
      ShardAlong(cfg, s, inst, now, before);
    }
  }

  lemma {:induction false} SweepRun(cfg: Config, s: State, inst: Inst, now: Time, before: map<Slot, Time>, run: seq<Step>)
    requires SweepingAlong(s, inst, now, before) && IsRun(cfg, s, run) && SweeperRun(inst, run)
    ensures SweepingAlong(After(cfg, s, run), inst, now, before) && After(cfg, s, run).backend == s.backend
    decreases |run|
  {
    if run != [] {
      SweepStep(cfg, s, inst, now, before, run[0]);
      SweepRun(cfg, Apply(cfg, s, run[0]), inst, now, before, run[1..]);
    }
  }

  /** Whatever a sweep does that is left alone with the clock until it ends, it leaves what
      `LocalCache.Sweep` leaves for the clock sample it started with. */
  lemma SoloSweepsAreSequentialSweeps(cfg: Config, s0: State, inst: Inst, run: seq<Step>, s: State)
    requires inst !in s0.sweeps && IsRun(cfg, Apply(cfg, s0, SweepStart(inst)), run) && SweeperRun(inst, run)
    requires s == After(cfg, Apply(cfg, s0, SweepStart(inst)), run) && inst !in s.sweeps
    ensures View(s, inst) == CachedStores.Tiers(Live(View(s0, inst).l1, s0.clock), s0.backend) && OthersKept(s0, s, inst)
  {
    SweepRun(cfg, Apply(cfg, s0, SweepStart(inst)), inst, s0.clock, s0.l1, run);
    SweptView(s0, s, inst);
  }
}
