/** Blocking ends: refusals do not slide, the bound is met exactly, and L1 lookups race only
    with expiry. */
module Liveness {
  import opened Expiry
  import opened Protocol
  import opened Invariant
  import opened Solo
  import Safety
  import Stores
  import CachedStores

  // ---------------------------------------------------------------- refusals do not slide

  /** Every time recorded in a phase is at or after `from`. */
  predicate Since(from: Time, p: Phase) {
    match p
    case Sampled(now) => from <= now
    case Stale(now) => from <= now
    case Replied(_, commit, _) => from <= commit
    case Stamped(_, commit, _, _) => from <= commit
    case Admitted(commit) => from <= commit
    case Refused(sample, _, _, _) => from <= sample
    case Failed(at, _) => from <= at
    case _ => true
  }

  /** Calls and armings that appeared after `s0` carry only later times. */
  ghost predicate Recent(s0: State, s: State) {
    && s0.clock <= s.clock
    && (forall i :: i in s.calls && i !in s0.calls ==> Since(s0.clock, s.calls[i].phase))
    && (forall i :: i in s.arms && i !in s0.arms ==> s0.clock <= s.arms[i])
  }

  lemma RecentAct(cfg: Config, s0: State, s: State, id: Id, action: Action)
    requires Recent(s0, s) && CallsOk(cfg, s) && Enabled(cfg, s, Act(id, action))
    ensures Recent(s0, Apply(cfg, s, Act(id, action)))
  {
    MemoryExtends(cfg, s, id, action);
    NextSince(cfg, s0, s, id, action);
    MemoryArms(cfg, s, id, action);
    ArmingKeepsRecent(s0, s, Memory(cfg, s, id, action), id);
    GotoKeepsRecent(s0, Memory(cfg, s, id, action), id, Next(cfg, s, id, action));
  }

  lemma ArmingKeepsRecent(s0: State, s: State, m: State, id: Id)
    requires Recent(s0, s) && m.clock == s.clock && m.calls == s.calls
    requires m.arms == s.arms || m.arms == s.arms[id := s.clock]
    ensures Recent(s0, m)
  {
  }

  lemma GotoKeepsRecent(s0: State, s: State, id: Id, p: Phase)
    requires Recent(s0, s) && id in s.calls && (id !in s0.calls ==> Since(s0.clock, p))
    ensures Recent(s0, Goto(s, id, p))
  {
  }

  lemma NextSince(cfg: Config, s0: State, s: State, id: Id, action: Action)
    requires Recent(s0, s) && Enabled(cfg, s, Act(id, action))
    ensures id !in s0.calls ==> Since(s0.clock, Next(cfg, s, id, action))
  {
  }

  lemma MemoryArms(cfg: Config, s: State, id: Id, action: Action)
    requires Enabled(cfg, s, Act(id, action))
    ensures var m := Memory(cfg, s, id, action);
            m.clock == s.clock && (m.arms == s.arms || m.arms == s.arms[id := s.clock])
  {
  }

  lemma RecentStep(cfg: Config, s0: State, s: State, step: Step)
    requires Recent(s0, s) && Extends(s0, s) && CallsOk(cfg, s) && Enabled(cfg, s, step)
    ensures Recent(s0, Apply(cfg, s, step))
  {
    match step
    case Act(id, action) => RecentAct(cfg, s0, s, id, action);
    case SweepShard(inst) => AdvanceFields(Drop(s, Swept(s, inst)), inst);
    case _ =>
  }

  lemma {:induction false} RecentRun(cfg: Config, s0: State, s: State, run: seq<Step>)
    requires cfg.Valid() && Recent(s0, s) && Extends(s0, s) && Inv(cfg, s) && IsRun(cfg, s, run)
    ensures Recent(s0, After(cfg, s, run))
    decreases |run|
  {
    if run != [] {
      RecentStep(cfg, s0, s, run[0]);
      StepKeepsInv(cfg, s, run[0]);
      ExtendsTransitive(s0, s, Apply(cfg, s, run[0]));
      RecentRun(cfg, s0, Apply(cfg, s, run[0]), run[1..]);
    }
  }

  /** Two windows and the lag have passed since the last arming of `key`. */
  ghost predicate Quiet(cfg: Config, s: State, key: Key) {
    forall i :: i in s.arms && i in s.calls && s.calls[i].key == key ==> s.arms[i] + 2 * cfg.window + cfg.lag <= s.clock
  }

  /** However often a key was refused before, once it is quiet a later call can be refused only
      because somebody armed the key again in the meantime. */
  lemma RefusalsDoNotSlide(cfg: Config, s0: State, run: seq<Step>, s: State, i: Id)
    requires cfg.Valid() && Reachable(cfg, s0) && IsRun(cfg, s0, run) && s == After(cfg, s0, run)
    requires i in s.calls && i !in s0.calls && s.calls[i].phase.Refused? && Quiet(cfg, s0, s.calls[i].key)
    ensures var source := s.calls[i].phase.source;
            source in s.arms && SameKey(s, source, i) && source !in s0.arms && s0.clock <= s.arms[source]
  {
    ReachableInv(cfg, s0);
    RunKeepsInv(cfg, s0, run);
    RecentRun(cfg, s0, s0, run);
    forall j | j in s0.arms ensures j in s.arms && (SameKey(s, j, i) ==> s.arms[j] + 2 * cfg.window + cfg.lag <= s0.clock) {
      assert Armed(cfg, s0, j) && SlotOf(s.calls[j]) == SlotOf(s0.calls[j]);
    }
    assert CallOk(cfg, s, i);
  }

  /** So any call made on a quiet key, in whatever interleaving, is admitted once it is over, unless
      it failed or another call armed the key in the meantime. */
  lemma QuietCallIsAdmitted(cfg: Config, s0: State, run: seq<Step>, s: State, i: Id)
    requires cfg.Valid() && Reachable(cfg, s0) && IsRun(cfg, s0, run) && s == After(cfg, s0, run)
    requires i in s.calls && i !in s0.calls && Quiet(cfg, s0, s.calls[i].key)
    requires Safety.Over(s.calls[i].phase) && !s.calls[i].phase.Failed?
    requires forall j :: j in s.arms && j != i && SameKey(s, j, i) ==> j in s0.arms
    ensures s.calls[i].phase.Admitted? && s0.clock <= s.calls[i].phase.commit
  {
    ReachableInv(cfg, s0);
    RunKeepsInv(cfg, s0, run);
    RecentRun(cfg, s0, s0, run);
    assert CallOk(cfg, s, i);
    if s.calls[i].phase.Refused? {
      RefusalsDoNotSlide(cfg, s0, run, s, i);
    }
  }

  /** And such a call exists: one that runs alone on a quiet key is admitted, on any instance. */
  lemma QuietKeyIsAdmitted(cfg: Config, s: State, id: Id, inst: Inst, key: Key) returns (t: State)
    requires cfg.Valid() && Reachable(cfg, s) && Quiet(cfg, s, key) && id !in s.calls
    ensures Reaches(cfg, s, t) && id in t.calls && t.calls[id].phase == Admitted(s.clock)
  {
    ReachableInv(cfg, s);
    var slot := Slot(inst, key);
    if slot in s.l1 {
      assert SlotOk(s, slot) && WriteOk(cfg, s, s.writer[slot]);
    }
    if key in s.backend {
      assert Held(cfg, s, key);
      var h := s.holder[key];
      assert s.calls[h].key == key && s.arms[h] + 2 * cfg.window + cfg.lag <= s.clock;
    }
    assert !Stores.Present(s.backend, key, s.clock);
    var now := s.clock;
    t := SoloMiss(cfg, s, id, inst, key, CachedStores.Once(now));
  }

  // ---------------------------------------------------------------- the bound is tight

  /** A first call on an untouched slot and key, without interference. */
  lemma FirstCall(cfg: Config, s: State, id: Id, inst: Inst, key: Key) returns (t: State)
    requires cfg.Valid() && id !in s.calls && Slot(inst, key) !in s.l1 && !Stores.Present(s.backend, key, s.clock)
    ensures Reaches(cfg, s, t)
    ensures t.clock == s.clock && t.backend == s.backend[key := s.clock + cfg.window] && t.arms == s.arms[id := s.clock]
    ensures t.l1 == s.l1[Slot(inst, key) := s.clock + cfg.window]
    ensures t.calls == s.calls[id := Call(inst, key, Admitted(s.clock))]
    ensures t.writer == s.writer[Slot(inst, key) := id] && id in t.wrote && t.wrote[id].expiry == s.clock + cfg.window
  {
    var m := Look(cfg, s, id, inst, key);
    t := Finish(cfg, m, id, 0);
    ReachesTransitive(cfg, s, m, t);
    CallReplaced(s.calls, id, Call(inst, key, Missed), Call(inst, key, Admitted(s.clock)));
  }

  lemma CallReplaced(calls: map<Id, Call>, id: Id, c: Call, d: Call)
    ensures calls[id := c][id := d] == calls[id := d]
  {
  }

  /** The two windows are really reached: for every configuration some run still refuses, on the
      last instant the bound allows, with a single arming in the whole run. */
  lemma BoundIsTight(cfg: Config, key: Key) returns (s: State, i: Id)
    requires cfg.Valid()
    ensures Reachable(cfg, s) && i in s.calls && s.calls[i].phase.Refused?
    ensures s.arms == map[1 := 0]
    ensures s.calls[i].phase.sample == 0 + 2 * cfg.window + cfg.lag - 1
  {
    var slot := Slot(0, key);
    var a := FirstCall(cfg, INITIAL, 1, 0, key);
    var b := Wait(cfg, a, cfg.window);
    ReachesTransitive(cfg, INITIAL, a, b);
    var c := Look(cfg, b, 2, 0, key);
    ReachesTransitive(cfg, INITIAL, b, c);
    var d := Miss(cfg, c, 2);
    ReachesTransitive(cfg, INITIAL, c, d);
    assert d.calls[2] == Call(0, key, Missed);
    var e := Finish(cfg, d, 2, cfg.lag);
    ReachesTransitive(cfg, INITIAL, d, e);
    s, i := RefusedAtTheEnd(cfg, key, e);
  }

  lemma RefusedAtTheEnd(cfg: Config, key: Key, e: State) returns (s: State, i: Id)
    requires cfg.Valid() && Reachable(cfg, e) && e.clock == cfg.window + cfg.lag && 3 !in e.calls
    requires Slot(0, key) in e.l1 && e.l1[Slot(0, key)] == 2 * cfg.window + cfg.lag
    ensures Reachable(cfg, s) && i in s.calls && s.calls[i].phase.Refused? && s.arms == e.arms
    ensures s.calls[i].phase.sample == 2 * cfg.window + cfg.lag - 1
  {
    var f := Wait(cfg, e, cfg.window - 1);
    ReachesTransitive(cfg, INITIAL, e, f);
    s := Look(cfg, f, 3, 0, key);
    ReachesTransitive(cfg, INITIAL, f, s);
    i := 3;
  }

  // ---------------------------------------------------------------- eviction and lookups

  /** No step removes an entry before its expiry. */
  lemma RemovedEntriesHaveExpired(cfg: Config, s: State, step: Step, slot: Slot)
    requires cfg.Valid() && Reachable(cfg, s) && Enabled(cfg, s, step)
    requires slot in s.l1 && slot !in Apply(cfg, s, step).l1
    ensures s.l1[slot] <= s.clock
  {
    match step
    case Act(id, action) =>
      if !action.Store? {
        MemoryFrame(cfg, s, id, action);
      }
    case SweepShard(inst) => SweepRemovesExpired(cfg, s, inst, slot);
    case _ =>
  }

  lemma SweepRemovesExpired(cfg: Config, s: State, inst: Inst, slot: Slot)
    requires cfg.Valid() && Reachable(cfg, s) && inst in s.sweeps
    requires slot in s.l1 && slot !in Apply(cfg, s, SweepShard(inst)).l1
    ensures s.l1[slot] <= s.clock
  {
    ReachableInv(cfg, s);
    AdvanceFields(Drop(s, Swept(s, inst)), inst);
    assert s.sweeps[inst].now <= s.clock;
  }

  /** Call `id` has sampled `n` and is about to look up a slot last written with expiry `e`. */
  ghost predicate AboutToRead(cfg: Config, s: State, id: Id, n: Time, e: Time) {
    && id in s.calls && s.calls[id].phase == Sampled(n)
    && SlotOf(s.calls[id]) in s.writer && s.writer[SlotOf(s.calls[id])] in s.wrote
    && s.wrote[s.writer[SlotOf(s.calls[id])]].expiry == e
  }

  lemma UnexpiredEntryIsHit(cfg: Config, s: State, id: Id, n: Time, e: Time)
    requires cfg.Valid() && Reachable(cfg, s) && AboutToRead(cfg, s, id, n, e) && n < e && s.clock < e
    ensures Next(cfg, s, id, Read).Refused?
  {
    ReachableInv(cfg, s);
    assert SlotOk(s, SlotOf(s.calls[id]));
  }

  /** Call 1 wrote the slot at `written`; call 2 has sampled the clock at `n`, before or after. */
  ghost predicate Raced(cfg: Config, s: State, key: Key, written: Time, n: Time) {
    && s.calls.Keys == {1, 2} && s.calls[2] == Call(0, key, Sampled(n)) && s.arms == map[1 := written]
    && s.l1 == map[Slot(0, key) := written + cfg.window] && AboutToRead(cfg, s, 2, n, written + cfg.window)
  }

  lemma SampledAfterWrite(cfg: Config, key: Key, written: nat, n: nat) returns (s: State)
    requires cfg.Valid() && written <= n
    ensures Reachable(cfg, s) && s.clock == n && Raced(cfg, s, key, written, n)
  {
    var s0 := Wait(cfg, INITIAL, written);
    var s1 := FirstCall(cfg, s0, 1, 0, key);
    ReachesTransitive(cfg, INITIAL, s0, s1);
    var s2 := Wait(cfg, s1, n - written);
    ReachesTransitive(cfg, INITIAL, s1, s2);
    ReachesStep(cfg, INITIAL, s2, Invoke(2, 0, key));
    var s3 := Apply(cfg, s2, Invoke(2, 0, key));
    ReachesStep(cfg, INITIAL, s3, Act(2, Sample));
    s := Apply(cfg, s3, Act(2, Sample));
  }

  lemma SampledBeforeWrite(cfg: Config, key: Key, n: nat, written: nat) returns (s: State)
    requires cfg.Valid() && n <= written
    ensures Reachable(cfg, s) && s.clock == written && Raced(cfg, s, key, written, n)
  {
    var s0 := Wait(cfg, INITIAL, n);
    ReachesStep(cfg, INITIAL, s0, Invoke(2, 0, key));
    var s1 := Apply(cfg, s0, Invoke(2, 0, key));
    ReachesStep(cfg, INITIAL, s1, Act(2, Sample));
    var s2 := Apply(cfg, s1, Act(2, Sample));
    var s3 := Wait(cfg, s2, written - n);
    ReachesTransitive(cfg, INITIAL, s2, s3);
    s := FirstCall(cfg, s3, 1, 0, key);
    ReachesTransitive(cfg, INITIAL, s3, s);
  }

  /** Call 3 meets the entry after its expiry and evicts it; call 2 has still not looked. */
  lemma EvictedBeforeLookup(cfg: Config, key: Key, s: State, written: Time, n: Time) returns (t: State)
    requires Raced(cfg, s, key, written, n) && written + cfg.window <= s.clock
    ensures Reaches(cfg, s, t) && t.clock == s.clock && AboutToRead(cfg, t, 2, n, written + cfg.window)
    ensures SlotOf(t.calls[2]) !in t.l1
  {
    var u := Look(cfg, s, 3, 0, key);
    t := Miss(cfg, u, 3);
    ReachesTransitive(cfg, s, u, t);
    assert t.calls[2] == s.calls[2];
  }

  /** A state in which the entry expired and was evicted between the sample and the lookup. */
  lemma LostEntry(cfg: Config, key: Key, written: nat, n: nat, c: nat) returns (s: State)
    requires cfg.Valid() && n <= c && written + cfg.window <= c
    ensures Reachable(cfg, s) && s.clock == c && AboutToRead(cfg, s, 2, n, written + cfg.window)
    ensures Next(cfg, s, 2, Read) == Missed
  {
    var a: State;
    if written <= n {
      a := SampledAfterWrite(cfg, key, written, n);
    } else {
      a := SampledBeforeWrite(cfg, key, n, written);
    }
    var b := Wait(cfg, a, c - a.clock);
    ReachesTransitive(cfg, INITIAL, a, b);
    s := EvictedBeforeLookup(cfg, key, b, written, n);
    ReachesTransitive(cfg, INITIAL, b, s);
  }

  ghost predicate AlwaysHits(cfg: Config, n: Time, e: Time, c: Time) {
    forall s, id :: Reachable(cfg, s) && s.clock == c && AboutToRead(cfg, s, id, n, e) ==> Next(cfg, s, id, Read).Refused?
  }

  /** A lookup at clock `c` with a sample `n` before the expiry `e` of the last write is sure to hit
      exactly when `c`, too, is before `e`: the sample alone is no guarantee. */
  lemma LookupSureToHitIff(cfg: Config, written: nat, n: nat, c: nat)
    requires cfg.Valid() && n < written + cfg.window && n <= c
    ensures AlwaysHits(cfg, n, written + cfg.window, c) <==> c < written + cfg.window
  {
    var e := written + cfg.window;
    if c < e {
      forall s, id | Reachable(cfg, s) && s.clock == c && AboutToRead(cfg, s, id, n, e)
        ensures Next(cfg, s, id, Read).Refused?
      {
        UnexpiredEntryIsHit(cfg, s, id, n, e);
      }
    } else {
      var s := LostEntry(cfg, Key([]), written, n, c);
      assert Reachable(cfg, s) && AboutToRead(cfg, s, 2, n, e) && !Next(cfg, s, 2, Read).Refused?;
    }
  }

  /** Every reachable hit with clock sample `n` and lookup at `c` rests on an arming no later than `n`. */
  ghost predicate ArmingAlwaysPrecedes(cfg: Config, n: Time, c: Time) {
    forall s, i :: Reachable(cfg, s) && i in s.calls && IsHit(s.calls[i].phase, n, c) ==>
                     s.calls[i].phase.source in s.arms && s.arms[s.calls[i].phase.source] <= n
  }

  predicate IsHit(p: Phase, n: Time, c: Time) {
    p.Refused? && p.hit && p.sample == n && p.seen == c
  }

  /** Whenever time passes between sample and lookup, the key may be armed in between. */
  lemma LateArming(cfg: Config, key: Key, n: nat, c: nat) returns (s: State)
    requires cfg.Valid() && n < c
    ensures Reachable(cfg, s) && 2 in s.calls && IsHit(s.calls[2].phase, n, c)
    ensures var source := s.calls[2].phase.source; source in s.arms && n < s.arms[source]
  {
    var a := SampledBeforeWrite(cfg, key, n, c);
    ReachesStep(cfg, INITIAL, a, Act(2, Read));
    s := Apply(cfg, a, Act(2, Read));
    Safety.RefusalsAreJustified(cfg, s, 2);
  }

  /** The arming behind an L1 refusal is sure to precede the refusal's clock sample exactly when
      the lookup happens at the instant of the sample. */
  lemma ArmingPrecedesIff(cfg: Config, n: nat, c: nat)
    requires cfg.Valid() && n <= c
    ensures ArmingAlwaysPrecedes(cfg, n, c) <==> n == c
  {
    if n == c {
      forall s, i | Reachable(cfg, s) && i in s.calls && IsHit(s.calls[i].phase, n, c)
        ensures s.calls[i].phase.source in s.arms && s.arms[s.calls[i].phase.source] <= n
      {
        Safety.RefusalsAreJustified(cfg, s, i);
      }
    } else {
      var s := LateArming(cfg, Key([]), n, c);
      assert Reachable(cfg, s) && IsHit(s.calls[2].phase, n, c) && s.arms[s.calls[2].phase.source] > n;
    }
  }
}
