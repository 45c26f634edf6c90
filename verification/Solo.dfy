/** Runs of a single call or sweep: every sequential `CachedStores.Call`, which is what
    `CachedStore.IsDuplicate` is proved to compute, is a run of the protocol. */
module Solo {
  import opened Expiry
  import opened Protocol
  import Stores
  import CachedStores
  import Fnv1a

  type Samples = CachedStores.Samples
  type Fault = Stores.Fault

  lemma ReachesSelf(cfg: Config, s: State)
    ensures Reaches(cfg, s, s)
  {
    assert IsRun(cfg, s, []) && After(cfg, s, []) == s;
  }

  lemma ReachesStep(cfg: Config, s: State, t: State, step: Step)
    requires Reaches(cfg, s, t) && Enabled(cfg, t, step)
    ensures Reaches(cfg, s, Apply(cfg, t, step))
  {
    var run :| IsRun(cfg, s, run) && After(cfg, s, run) == t;
    assert [step][1..] == [];
    RunsCompose(cfg, s, run, [step]);
  }

  lemma ReachesTransitive(cfg: Config, s: State, t: State, u: State)
    requires Reaches(cfg, s, t) && Reaches(cfg, t, u)
    ensures Reaches(cfg, s, u)
  {
    var first :| IsRun(cfg, s, first) && After(cfg, s, first) == t;
    var second :| IsRun(cfg, t, second) && After(cfg, t, second) == u;
    RunsCompose(cfg, s, first, second);
  }

  // ---------------------------------------------------------------- the stages of a call

  /** Where a lookup that starts now ends up. */
  function LookPhase(s: State, slot: Slot, id: Id): Phase {
    if slot !in s.l1 then Missed
    else if s.l1[slot] <= s.clock then Stale(s.clock)
    else Refused(s.clock, s.clock, SourceOf(s, slot, id), true)
  }

  lemma Look(cfg: Config, s: State, id: Id, inst: Inst, key: Key) returns (t: State)
    requires id !in s.calls
    ensures Reaches(cfg, s, t)
    ensures t == s.(calls := s.calls[id := Call(inst, key, LookPhase(s, Slot(inst, key), id))])
  {
    ReachesSelf(cfg, s);
    ReachesStep(cfg, s, s, Invoke(id, inst, key));
    t := Apply(cfg, s, Invoke(id, inst, key));
    ReachesStep(cfg, s, t, Act(id, Sample));
    t := Apply(cfg, t, Act(id, Sample));
    ReachesStep(cfg, s, t, Act(id, Read));
    t := Apply(cfg, t, Act(id, Read));
    var c := t.calls[id];
    assert c == Call(inst, key, LookPhase(s, Slot(inst, key), id));
    assert t.calls == s.calls[id := c];
  }

  lemma Wait(cfg: Config, s: State, d: nat) returns (t: State)
    ensures Reaches(cfg, s, t) && t == s.(clock := s.clock + d)
  {
    ReachesSelf(cfg, s);
    ReachesStep(cfg, s, s, Tick(d));
    t := Apply(cfg, s, Tick(d));
  }

  /** From the lookup to the decision to ask the backend. */
  lemma Miss(cfg: Config, s: State, id: Id) returns (t: State)
    requires id in s.calls && (s.calls[id].phase.Missed? || s.calls[id].phase.Stale?)
    ensures Reaches(cfg, s, t)
    ensures var slot := SlotOf(s.calls[id]);
            var l1 := if s.calls[id].phase.Stale? && slot in s.l1 && s.l1[slot] <= s.clock then s.l1 - {slot} else s.l1;
            t == s.(l1 := l1, calls := s.calls[id := s.calls[id].(phase := Missed)])
  {
    ReachesSelf(cfg, s);
    if s.calls[id].phase.Stale? {
      ReachesStep(cfg, s, s, Act(id, Evict));
      t := Apply(cfg, s, Act(id, Evict));
    } else {
      t := s;
      assert t.calls == s.calls[id := s.calls[id].(phase := Missed)];
    }
  }

  lemma AskAlone(cfg: Config, s: State, id: Id) returns (t: State)
    requires id in s.calls && s.calls[id].phase.Missed?
    ensures Reaches(cfg, s, t)
    ensures t.backend == Stores.SetIfAbsent(s.backend, s.calls[id].key, cfg.window, s.clock)
    ensures t.clock == s.clock && t.l1 == s.l1 && t.sweeps == s.sweeps && t.writer == s.writer
    ensures var dup := Stores.Present(s.backend, s.calls[id].key, s.clock);
            && t.arms == (if dup then s.arms else s.arms[id := s.clock])
            && exists src :: t.calls == s.calls[id := s.calls[id].(phase := Replied(dup, s.clock, src))]
  {
    ReachesSelf(cfg, s);
    ReachesStep(cfg, s, s, Act(id, Ask));
    t := Apply(cfg, s, Act(id, Ask));
    var p := Next(cfg, s, id, Ask);
    assert t.calls == s.calls[id := s.calls[id].(phase := Replied(p.dup, s.clock, p.source))];
  }

  lemma SetAlone(cfg: Config, s: State, id: Id, d: nat) returns (t: State)
    requires id in s.calls && s.calls[id].phase.Replied? && s.clock + d <= s.calls[id].phase.commit + cfg.lag
    ensures Reaches(cfg, s, t)
    ensures t.clock == s.clock + d && t.l1 == s.l1[SlotOf(s.calls[id]) := s.clock + d + cfg.window]
    ensures t.backend == s.backend && t.arms == s.arms && t.sweeps == s.sweeps
    ensures t.writer == s.writer[SlotOf(s.calls[id]) := id]
    ensures id in t.wrote && t.wrote[id].expiry == s.clock + d + cfg.window
    ensures var p := s.calls[id].phase;
            var q := if p.dup then Refused(p.commit, p.commit, p.source, false) else Admitted(p.commit);
            t.calls == s.calls[id := s.calls[id].(phase := q)]
  {
    var m := StampAlone(cfg, s, id, d);
    t := StoreAlone(cfg, m, id);
    ReachesTransitive(cfg, s, m, t);
  }

  lemma StampAlone(cfg: Config, s: State, id: Id, d: nat) returns (t: State)
    requires id in s.calls && s.calls[id].phase.Replied? && s.clock + d <= s.calls[id].phase.commit + cfg.lag
    ensures Reaches(cfg, s, t)
    ensures var p := s.calls[id].phase;
            t == s.(clock := s.clock + d,
                    calls := s.calls[id := s.calls[id].(phase := Stamped(p.dup, p.commit, p.source, s.clock + d + cfg.window))])
  {
    ReachesSelf(cfg, s);
    ReachesStep(cfg, s, s, Tick(d));
    t := Apply(cfg, s, Tick(d));
    ReachesStep(cfg, s, t, Act(id, Stamp));
    t := Apply(cfg, t, Act(id, Stamp));
  }

  lemma StoreAlone(cfg: Config, s: State, id: Id) returns (t: State)
    requires id in s.calls && s.calls[id].phase.Stamped?
    ensures Reaches(cfg, s, t)
    ensures var p := s.calls[id].phase;
            && t.clock == s.clock && t.l1 == s.l1[SlotOf(s.calls[id]) := p.expiry]
            && t.backend == s.backend && t.arms == s.arms && t.sweeps == s.sweeps
            && t.writer == s.writer[SlotOf(s.calls[id]) := id] && id in t.wrote && t.wrote[id].expiry == p.expiry
            && var q := if p.dup then Refused(p.commit, p.commit, p.source, false) else Admitted(p.commit);
               t.calls == s.calls[id := s.calls[id].(phase := q)]
  {
    ReachesSelf(cfg, s);
    ReachesStep(cfg, s, s, Act(id, Store));
    t := Apply(cfg, s, Act(id, Store));
  }

  /** The whole call after its lookup, when the backend does not fail. */
  ghost predicate Answered(cfg: Config, s: State, t: State, id: Id, d: nat)
    requires id in s.calls
  {
    var c, dup := s.calls[id], Stores.Present(s.backend, s.calls[id].key, s.clock);
    && t.clock == s.clock + d && t.sweeps == s.sweeps
    && t.backend == Stores.SetIfAbsent(s.backend, c.key, cfg.window, s.clock)
    && t.l1 == s.l1[SlotOf(c) := s.clock + d + cfg.window]
    && t.writer == s.writer[SlotOf(c) := id] && id in t.wrote && t.wrote[id].expiry == s.clock + d + cfg.window
    && t.arms == (if dup then s.arms else s.arms[id := s.clock])
    && (!dup ==> t.calls == s.calls[id := c.(phase := Admitted(s.clock))])
    && (dup ==> exists src :: t.calls == s.calls[id := c.(phase := Refused(s.clock, s.clock, src, false))])
  }

  lemma Finish(cfg: Config, s: State, id: Id, d: nat) returns (t: State)
    requires id in s.calls && s.calls[id].phase.Missed? && d <= cfg.lag
    ensures Reaches(cfg, s, t) && Answered(cfg, s, t, id, d)
  {
    var m := AskAlone(cfg, s, id);
    var dup := Stores.Present(s.backend, s.calls[id].key, s.clock);
    var src :| m.calls == s.calls[id := s.calls[id].(phase := Replied(dup, s.clock, src))];
    t := SetAlone(cfg, m, id, d);
    ReachesTransitive(cfg, s, m, t);
    var q := if dup then Refused(s.clock, s.clock, src, false) else Admitted(s.clock);
    assert t.calls == s.calls[id := s.calls[id].(phase := q)];
  }

  // ---------------------------------------------------------------- the sequential call, refined

  /** What instance `inst` sees: its own L1 and the shared backend. */
  function View(s: State, inst: Inst): CachedStores.Tiers {
    CachedStores.Tiers(map t | t in s.l1 && t.inst == inst :: t.key := s.l1[t], s.backend)
  }

  lemma ViewLookup(s: State, inst: Inst, k: Key)
    ensures k in View(s, inst).l1 <==> Slot(inst, k) in s.l1
    ensures k in View(s, inst).l1 ==> View(s, inst).l1[k] == s.l1[Slot(inst, k)]
  {
  }

  lemma ViewEquals(s: State, inst: Inst, m: Table)
    requires forall k :: k in m <==> Slot(inst, k) in s.l1
    requires forall k :: k in m ==> m[k] == s.l1[Slot(inst, k)]
    ensures View(s, inst).l1 == m
  {
  }

  /** L1 of the other instances is untouched. */
  ghost predicate OthersKept(s: State, t: State, inst: Inst) {
    forall u: Slot :: u.inst != inst ==> (u in t.l1 <==> u in s.l1) && (u in s.l1 ==> t.l1[u] == s.l1[u])
  }

  /** Only call `id` has moved; every other call and all sweeps are where they were. */
  ghost predicate OnlyMoved(s: State, t: State, id: Id, inst: Inst, key: Key) {
    t.sweeps == s.sweeps && id in t.calls && t.calls == s.calls[id := Call(inst, key, t.calls[id].phase)]
  }

  lemma MovedTransitive(s: State, m: State, t: State, id: Id, inst: Inst, key: Key)
    requires OnlyMoved(s, m, id, inst, key) && OnlyMoved(m, t, id, inst, key)
    ensures OnlyMoved(s, t, id, inst, key)
  {
  }

  lemma ViewSet(s: State, t: State, inst: Inst, key: Key, e: Time)
    requires t.l1 == (s.l1 - {Slot(inst, key)})[Slot(inst, key) := e]
    ensures View(t, inst).l1 == View(s, inst).l1[key := e] && OthersKept(s, t, inst)
  {
    var m := View(s, inst).l1[key := e];
    forall k: Key ensures k in m <==> Slot(inst, k) in t.l1 { ViewLookup(s, inst, k); }
    forall k | k in m ensures m[k] == t.l1[Slot(inst, k)] { ViewLookup(s, inst, k); }
    ViewEquals(t, inst, m);
  }

  lemma ViewDrop(s: State, t: State, inst: Inst, key: Key, read: Time, again: Time)
    requires Slot(inst, key) in s.l1 ==> s.l1[Slot(inst, key)] <= read <= again
    requires t.l1 == s.l1 - {Slot(inst, key)}
    ensures View(t, inst).l1 == AfterLookup(View(s, inst).l1, key, read, again) && OthersKept(s, t, inst)
  {
    ViewLookup(s, inst, key);
    var m := AfterLookup(View(s, inst).l1, key, read, again);
    forall k: Key ensures k in m <==> Slot(inst, k) in t.l1 { ViewLookup(s, inst, k); }
    forall k | k in m ensures m[k] == t.l1[Slot(inst, k)] { ViewLookup(s, inst, k); }
    ViewEquals(t, inst, m);
  }

  lemma WithoutAbsent(m: map<Slot, Time>, slot: Slot)
    requires slot !in m
    ensures m - {slot} == m
  {
  }

  /** A call that misses L1, up to its return from the cache. */
  lemma LookAndMiss(cfg: Config, s: State, id: Id, inst: Inst, key: Key, again: Time) returns (w: State)
    requires id !in s.calls && (Slot(inst, key) in s.l1 ==> s.l1[Slot(inst, key)] <= s.clock) && s.clock <= again
    ensures Reaches(cfg, s, w)
    ensures w == s.(clock := again, l1 := s.l1 - {Slot(inst, key)}, calls := s.calls[id := Call(inst, key, Missed)])
  {
    var a := Look(cfg, s, id, inst, key);
    var b := Wait(cfg, a, again - s.clock);
    ReachesTransitive(cfg, s, a, b);
    w := Miss(cfg, b, id);
    ReachesTransitive(cfg, s, b, w);
    if Slot(inst, key) !in s.l1 {
      WithoutAbsent(s.l1, Slot(inst, key));
    }
  }

  /** And up to the instant it asks the backend. */
  lemma ToBackend(cfg: Config, s: State, id: Id, inst: Inst, key: Key, again: Time, commit: Time) returns (w: State)
    requires id !in s.calls && (Slot(inst, key) in s.l1 ==> s.l1[Slot(inst, key)] <= s.clock)
    requires s.clock <= again <= commit
    ensures Reaches(cfg, s, w)
    ensures w == s.(clock := commit, l1 := s.l1 - {Slot(inst, key)}, calls := s.calls[id := Call(inst, key, Missed)])
  {
    var c := LookAndMiss(cfg, s, id, inst, key, again);
    w := Wait(cfg, c, commit - again);
    ReachesTransitive(cfg, s, c, w);
  }

  /** A finished call with the outcome's answer, decided at the instant the code decides it. */
  predicate Shows(p: Phase, o: CachedStores.Outcome, t: Samples) {
    match o.reply
    case Unavailable => p.Failed? && p.at == t.stamp
    case Answer(true) => p.Refused? && p.hit == !o.missed && p.sample == if p.hit then t.read else t.commit
    case Answer(false) => p == Admitted(t.commit)
  }

  /** The state a call left behind is the one the sequential outcome describes. */
  ghost predicate Agrees(t: State, id: Id, inst: Inst, o: CachedStores.Outcome, samples: Samples) {
    View(t, inst) == o.tiers && id in t.calls && Shows(t.calls[id].phase, o, samples)
  }

  /** What the backend's answer at `commit` makes of a call. */
  predicate Verdict(p: Phase, dup: bool, commit: Time) {
    if dup then p.Refused? && !p.hit && p.sample == commit else p == Admitted(commit)
  }

  /** The instants follow each other, and an answered call stamps its entry within the lag. */
  predicate InOrder(cfg: Config, fault: Fault, t: Samples) {
    CachedStores.Ordered(t) && (fault.NoFault? ==> t.stamp <= t.commit + cfg.lag)
  }

  lemma HitAgrees(cfg: Config, s: State, t: State, fault: Fault, id: Id, inst: Inst, key: Key, samples: Samples)
    requires Slot(inst, key) in s.l1 && samples.read < s.l1[Slot(inst, key)]
    requires t.l1 == s.l1 && t.backend == s.backend && id in t.calls
    requires var p := t.calls[id].phase; p.Refused? && p.hit && p.sample == samples.read
    ensures Agrees(t, id, inst, CachedStores.Call(View(s, inst), fault, key, cfg.window, samples), samples)
    ensures OthersKept(s, t, inst)
  {
    ViewLookup(s, inst, key);
    assert View(t, inst) == View(s, inst);
  }

  /** A call that the backend answered. */
  lemma MissAgrees(cfg: Config, s: State, t: State, id: Id, inst: Inst, key: Key, samples: Samples)
    requires id in t.calls && (Slot(inst, key) in s.l1 ==> s.l1[Slot(inst, key)] <= samples.read)
    requires t.l1 == (s.l1 - {Slot(inst, key)})[Slot(inst, key) := samples.stamp + cfg.window]
    requires t.backend == Stores.SetIfAbsent(s.backend, key, cfg.window, samples.commit)
    requires Verdict(t.calls[id].phase, Stores.Present(s.backend, key, samples.commit), samples.commit)
    ensures Agrees(t, id, inst, CachedStores.Call(View(s, inst), Stores.NoFault, key, cfg.window, samples), samples)
    ensures OthersKept(s, t, inst)
  {
    ViewLookup(s, inst, key);
    ViewSet(s, t, inst, key, samples.stamp + cfg.window);
    MissedCall(View(s, inst), key, cfg.window, samples);
    VerdictShows(t.calls[id].phase, View(s, inst), key, cfg.window, samples);
  }

  lemma VerdictShows(p: Phase, before: CachedStores.Tiers, key: Key, ttl: Time, t: Samples)
    requires !Hit(before.l1, key, t.read) && Verdict(p, Stores.Present(before.l2, key, t.commit), t.commit)
    ensures Shows(p, CachedStores.Call(before, Stores.NoFault, key, ttl, t), t)
  {
  }

  /** A miss that is answered overwrites whatever the lookup left of the entry. */
  lemma MissedCall(before: CachedStores.Tiers, key: Key, ttl: Time, t: Samples)
    requires !Hit(before.l1, key, t.read)
    ensures var after := CachedStores.Tiers(before.l1[key := t.stamp + ttl], Stores.SetIfAbsent(before.l2, key, ttl, t.commit));
            CachedStores.Call(before, Stores.NoFault, key, ttl, t) ==
            CachedStores.Outcome(Stores.Answer(Stores.Present(before.l2, key, t.commit)), after, true)
  {
  }

  /** A call that failed: L1 is as the lookup left it, and only a lost reply has written the backend. */
  lemma ErrorAgrees(cfg: Config, s: State, t: State, fault: Fault, id: Id, inst: Inst, key: Key, samples: Samples)
    requires !fault.NoFault? && samples.read <= samples.again
    requires Slot(inst, key) in s.l1 ==> s.l1[Slot(inst, key)] <= samples.read
    requires t.l1 == s.l1 - {Slot(inst, key)}
    requires t.backend == if fault.RequestLost? then s.backend else Stores.SetIfAbsent(s.backend, key, cfg.window, samples.commit)
    requires id in t.calls && t.calls[id].phase.Failed? && t.calls[id].phase.at == samples.stamp
    ensures Agrees(t, id, inst, CachedStores.Call(View(s, inst), fault, key, cfg.window, samples), samples)
    ensures OthersKept(s, t, inst)
  {
    ViewLookup(s, inst, key);
    ViewDrop(s, t, inst, key, samples.read, samples.again);
  }

  lemma SoloMiss(cfg: Config, s: State, id: Id, inst: Inst, key: Key, samples: Samples) returns (t: State)
    requires id !in s.calls && samples.read == s.clock && (Slot(inst, key) in s.l1 ==> s.l1[Slot(inst, key)] <= s.clock)
    requires InOrder(cfg, Stores.NoFault, samples)
    ensures Reaches(cfg, s, t) && OnlyMoved(s, t, id, inst, key) && t.clock == samples.stamp
    ensures t.backend == Stores.SetIfAbsent(s.backend, key, cfg.window, samples.commit)
    ensures t.l1 == (s.l1 - {Slot(inst, key)})[Slot(inst, key) := samples.stamp + cfg.window]
    ensures Verdict(t.calls[id].phase, Stores.Present(s.backend, key, samples.commit), samples.commit)
  {
    var w := ToBackend(cfg, s, id, inst, key, samples.again, samples.commit);
    t := Finish(cfg, w, id, samples.stamp - samples.commit);
    AnsweredMoves(cfg, w, t, id, samples.stamp - samples.commit);
    ReachesTransitive(cfg, s, w, t);
    MovedTransitive(s, w, t, id, inst, key);
  }

  lemma AnsweredMoves(cfg: Config, s: State, t: State, id: Id, d: nat)
    requires id in s.calls && Answered(cfg, s, t, id, d)
    ensures OnlyMoved(s, t, id, s.calls[id].inst, s.calls[id].key)
    ensures Verdict(t.calls[id].phase, Stores.Present(s.backend, s.calls[id].key, s.clock), s.clock)
  {
  }

  lemma SoloError(cfg: Config, s: State, fault: Fault, id: Id, inst: Inst, key: Key, samples: Samples)
    returns (t: State)
    requires id !in s.calls && samples.read == s.clock && (Slot(inst, key) in s.l1 ==> s.l1[Slot(inst, key)] <= s.clock)
    requires !fault.NoFault? && InOrder(cfg, fault, samples)
    ensures Reaches(cfg, s, t) && OnlyMoved(s, t, id, inst, key) && t.clock == samples.stamp
    ensures t.calls[id].phase == Failed(samples.stamp, fault.RequestLost?)
    ensures t.backend == if fault.RequestLost? then s.backend else Stores.SetIfAbsent(s.backend, key, cfg.window, samples.commit)
    ensures t.l1 == s.l1 - {Slot(inst, key)}
  {
    var w := ToBackend(cfg, s, id, inst, key, samples.again, samples.commit);
    var u := Lost(cfg, w, fault, id);
    ReachesTransitive(cfg, s, w, u);
    MovedTransitive(s, w, u, id, inst, key);
    t := BreakAlone(cfg, u, id, samples.stamp - samples.commit, fault.RequestLost?);
    ReachesTransitive(cfg, s, u, t);
    MovedTransitive(s, u, t, id, inst, key);
  }

  /** The fault strikes: a lost request never reaches the backend, a lost reply comes after the write. */
  lemma Lost(cfg: Config, s: State, fault: Fault, id: Id) returns (t: State)
    requires id in s.calls && s.calls[id].phase.Missed?
    ensures Reaches(cfg, s, t) && t.clock == s.clock && t.l1 == s.l1 && OnlyMoved(s, t, id, s.calls[id].inst, s.calls[id].key)
    ensures t.backend == if fault.ReplyLost? then Stores.SetIfAbsent(s.backend, s.calls[id].key, cfg.window, s.clock) else s.backend
    ensures t.calls[id].phase == if fault.ReplyLost? then Unanswered else Missed
  {
    if fault.ReplyLost? {
      t := LoseAlone(cfg, s, id);
    } else {
      t := s;
      ReachesSelf(cfg, s);
      StaysPut(s, id);
    }
  }

  lemma LoseAlone(cfg: Config, s: State, id: Id) returns (t: State)
    requires id in s.calls && s.calls[id].phase.Missed?
    ensures Reaches(cfg, s, t) && t.clock == s.clock && t.l1 == s.l1 && OnlyMoved(s, t, id, s.calls[id].inst, s.calls[id].key)
    ensures t.backend == Stores.SetIfAbsent(s.backend, s.calls[id].key, cfg.window, s.clock)
    ensures t.calls[id].phase.Unanswered?
  {
    ReachesSelf(cfg, s);
    ReachesStep(cfg, s, s, Act(id, Lose));
    t := Apply(cfg, s, Act(id, Lose));
  }

  lemma StaysPut(s: State, id: Id)
    requires id in s.calls
    ensures OnlyMoved(s, s, id, s.calls[id].inst, s.calls[id].key)
  {
  }

  lemma BreakAlone(cfg: Config, s: State, id: Id, d: nat, pending: bool) returns (t: State)
    requires id in s.calls && (s.calls[id].phase.Missed? || (s.calls[id].phase.Unanswered? && !pending))
    ensures Reaches(cfg, s, t) && OnlyMoved(s, t, id, s.calls[id].inst, s.calls[id].key)
    ensures t.clock == s.clock + d && t.l1 == s.l1 && t.backend == s.backend && t.calls[id].phase == Failed(s.clock + d, pending)
  {
    var u := Wait(cfg, s, d);
    t := Goto(u, id, Failed(u.clock, pending));
    assert t == Apply(cfg, u, Act(id, Break(pending)));
    ReachesStep(cfg, s, u, Act(id, Break(pending)));
  }

  lemma SoloAtOnce(cfg: Config, s: State, fault: Fault, id: Id, inst: Inst, key: Key, samples: Samples)
    returns (t: State)
    requires id !in s.calls && s.clock == samples.read && InOrder(cfg, fault, samples)
    ensures Reaches(cfg, s, t) && OthersKept(s, t, inst) && OnlyMoved(s, t, id, inst, key) && t.clock <= samples.stamp
    ensures Agrees(t, id, inst, CachedStores.Call(View(s, inst), fault, key, cfg.window, samples), samples)
    ensures t.calls[id].phase.Failed? && fault.RequestLost? ==> t.calls[id].phase.pending
  {
    if Slot(inst, key) in s.l1 && s.clock < s.l1[Slot(inst, key)] {
      t := Look(cfg, s, id, inst, key);
      HitAgrees(cfg, s, t, fault, id, inst, key, samples);
    } else if fault.NoFault? {
      t := SoloMiss(cfg, s, id, inst, key, samples);
      MissAgrees(cfg, s, t, id, inst, key, samples);
    } else {
      t := SoloError(cfg, s, fault, id, inst, key, samples);
      ErrorAgrees(cfg, s, t, fault, id, inst, key, samples);
    }
  }

  /** Every sequential call is a run of the protocol, clock reading by clock reading and fault by
      fault; the write of a lost request may still come late. `Alone.SoloRunsAreSequentialCalls` is the converse. */
  lemma SequentialCallIsARun(cfg: Config, s: State, fault: Fault, id: Id, inst: Inst, key: Key, samples: Samples)
    returns (t: State)
    requires id !in s.calls && s.clock <= samples.read && InOrder(cfg, fault, samples)
    ensures Reaches(cfg, s, t) && OthersKept(s, t, inst) && OnlyMoved(s, t, id, inst, key) && t.clock <= samples.stamp
    ensures Agrees(t, id, inst, CachedStores.Call(View(s, inst), fault, key, cfg.window, samples), samples)
    ensures t.calls[id].phase.Failed? && fault.RequestLost? ==> t.calls[id].phase.pending
  {
    var w := Wait(cfg, s, samples.read - s.clock);
    assert View(w, inst) == View(s, inst);
    t := SoloAtOnce(cfg, w, fault, id, inst, key, samples);
    ReachesTransitive(cfg, s, w, t);
  }

  // ---------------------------------------------------------------- the sequential sweep, refined

  /** What the first `n` shards of a sweep with sample `now` leave of `before`. */
  ghost predicate SweptUpto(before: map<Slot, Time>, after: map<Slot, Time>, inst: Inst, now: Time, n: int) {
    && (forall u :: u in after ==> u in before && after[u] == before[u])
    && (forall u :: u in before ==> (u in after <==> !(u.inst == inst && HomeOf(u.key) < n && before[u] <= now)))
  }

  /** The rest of a sweep from shard `n` on, shard by shard. */
  lemma SweepOn(cfg: Config, s: State, inst: Inst, before: map<Slot, Time>) returns (t: State)
    requires inst in s.sweeps && 0 <= s.sweeps[inst].next < Fnv1a.SHARDS
    requires SweptUpto(before, s.l1, inst, s.sweeps[inst].now, s.sweeps[inst].next)
    ensures Reaches(cfg, s, t) && SweptUpto(before, t.l1, inst, s.sweeps[inst].now, Fnv1a.SHARDS)
    ensures t.clock == s.clock && t.calls == s.calls && t.backend == s.backend
    ensures t.sweeps == s.sweeps - {inst} && inst in t.swept && t.swept[inst] == s.sweeps[inst].now
    decreases Fnv1a.SHARDS - s.sweeps[inst].next
  {
    ReachesSelf(cfg, s);
    ReachesStep(cfg, s, s, SweepShard(inst));
    var m := Apply(cfg, s, SweepShard(inst));
    ShardStep(s, m, inst, before);
    if s.sweeps[inst].next + 1 == Fnv1a.SHARDS {
      t := m;
    } else {
      t := SweepOn(cfg, m, inst, before);
      ReachesTransitive(cfg, s, m, t);
    }
  }

  lemma ShardStep(s: State, m: State, inst: Inst, before: map<Slot, Time>)
    requires inst in s.sweeps && SweptUpto(before, s.l1, inst, s.sweeps[inst].now, s.sweeps[inst].next)
    requires m.l1 == s.l1 - Swept(s, inst)
    ensures SweptUpto(before, m.l1, inst, s.sweeps[inst].now, s.sweeps[inst].next + 1)
  {
  }

  lemma WithoutAdded(m: map<Inst, Sweep>, inst: Inst, w: Sweep)
    requires inst !in m
    ensures m[inst := w] - {inst} == m
  {
  }

  /** `LocalCache.Sweep` on the table of one instance is a run of the protocol.
      `Alone.SoloSweepsAreSequentialSweeps` is the converse. */
  lemma SequentialSweepIsARun(cfg: Config, s: State, inst: Inst) returns (t: State)
    requires inst !in s.sweeps
    ensures Reaches(cfg, s, t) && OthersKept(s, t, inst)
    ensures View(t, inst) == CachedStores.Tiers(Live(View(s, inst).l1, s.clock), s.backend)
    ensures t.clock == s.clock && t.calls == s.calls && t.sweeps == s.sweeps
    ensures inst in t.swept && t.swept[inst] == s.clock
  {
    ReachesSelf(cfg, s);
    ReachesStep(cfg, s, s, SweepStart(inst));
    var m := Apply(cfg, s, SweepStart(inst));
    t := SweepOn(cfg, m, inst, s.l1);
    WithoutAdded(s.sweeps, inst, Sweep(s.clock, 0));
    ReachesTransitive(cfg, s, m, t);
    SweptView(s, t, inst);
  }

  lemma SweptView(s: State, t: State, inst: Inst)
    requires SweptUpto(s.l1, t.l1, inst, s.clock, Fnv1a.SHARDS)
    ensures View(t, inst).l1 == Live(View(s, inst).l1, s.clock) && OthersKept(s, t, inst)
  {
    var m := Live(View(s, inst).l1, s.clock);
    forall k: Key ensures k in m <==> Slot(inst, k) in t.l1 { SweptKey(s, t, inst, k); }
    forall k | k in m ensures m[k] == t.l1[Slot(inst, k)] { SweptKey(s, t, inst, k); }
    ViewEquals(t, inst, m);
  }

  lemma SweptKey(s: State, t: State, inst: Inst, k: Key)
    requires SweptUpto(s.l1, t.l1, inst, s.clock, Fnv1a.SHARDS)
    ensures var m := Live(View(s, inst).l1, s.clock);
            && (k in m <==> Slot(inst, k) in t.l1)
            && (k in m ==> m[k] == t.l1[Slot(inst, k)])
  {
    ViewLookup(s, inst, k);
  }
}
