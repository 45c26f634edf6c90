/** The histories of `Refinement` are runs of the protocol, so what is proved of them happens there. */
module Histories {
  import opened Expiry
  import opened Protocol
  import opened Solo
  import CachedStores
  import Invariant
  import Refinement
  import Safety
  import Stores

  type Event = Refinement.Event

  predicate IsCall(evs: seq<Event>, i: int, id: Id) {
    0 <= i < |evs| && evs[i].Query? && evs[i].id == id
  }

  /** A query is a call that was answered as the fleet answers it, decided at the instant the query has
      for that; a late write belongs to a call that failed. */
  ghost predicate Reflected(cfg: Config, evs: seq<Event>, s: State, i: int)
    requires 0 <= i < |evs|
  {
    evs[i].Sweep? ||
    (&& evs[i].id in s.calls && SlotOf(s.calls[evs[i].id]) == Slot(evs[i].inst, evs[i].key)
     && if evs[i].Query? then Shows(s.calls[evs[i].id].phase, Refinement.Outcome(cfg.window, evs, i), evs[i].t)
        else s.calls[evs[i].id].phase.Failed?)
  }

  /** The calls of `s` are the queries of the history, one for one. */
  ghost predicate Recorded(cfg: Config, evs: seq<Event>, s: State) {
    && (forall i :: 0 <= i < |evs| ==> Reflected(cfg, evs, s, i))
    && (forall id :: id in s.calls ==> exists i :: IsCall(evs, i, id))
    && (forall i, j, id :: IsCall(evs, i, id) && IsCall(evs, j, id) ==> i == j)
  }

  /** Every instance sees the tiers the fleet has after the history. */
  ghost predicate Sees(cfg: Config, evs: seq<Event>, s: State) {
    forall inst: Inst :: View(s, inst) == Refinement.Cached(cfg.window, evs, |evs|).Tiers(inst)
  }

  /** `s` is what the history leaves behind. */
  ghost predicate Replays(cfg: Config, evs: seq<Event>, s: State) {
    s.sweeps == map[] && Sees(cfg, evs, s) && Recorded(cfg, evs, s)
  }

  // ---------------------------------------------------------------- one more event

  lemma OtherSees(cfg: Config, evs: seq<Event>, e: Event, s: State, t: State, inst: Inst)
    requires OthersKept(s, t, e.inst) && inst != e.inst
    requires View(s, inst) == Refinement.Cached(cfg.window, evs, |evs|).Tiers(inst)
    requires t.backend == Refinement.Cached(cfg.window, evs + [e], |evs| + 1).l2
    ensures View(t, inst) == Refinement.Cached(cfg.window, evs + [e], |evs| + 1).Tiers(inst)
  {
    var m := View(s, inst).l1;
    forall k: Key ensures k in m <==> Slot(inst, k) in t.l1 { ViewLookup(s, inst, k); }
    forall k | k in m ensures m[k] == t.l1[Slot(inst, k)] { ViewLookup(s, inst, k); }
    ViewEquals(t, inst, m);
    Refinement.CachedPrefix(cfg.window, evs, e, |evs|);
  }

  /** An event that changes its own instance's tiers as the fleet does keeps the views in step. */
  lemma SeesNext(cfg: Config, evs: seq<Event>, e: Event, s: State, t: State)
    requires Sees(cfg, evs, s) && OthersKept(s, t, e.inst)
    requires View(t, e.inst) == Refinement.Step(cfg.window, View(s, e.inst), e)
    ensures Sees(cfg, evs + [e], t)
  {
    Refinement.CachedPrefix(cfg.window, evs, e, |evs|);
    var after := Refinement.Cached(cfg.window, evs + [e], |evs| + 1);
    forall inst: Inst ensures View(t, inst) == after.Tiers(inst) {
      assert View(s, inst) == Refinement.Cached(cfg.window, evs, |evs|).Tiers(inst);
      if inst != e.inst {
        OtherSees(cfg, evs, e, s, t, inst);
      }
    }
  }

  /** A call keeps its slot and its answer; a failed one may have had its write delivered. */
  predicate SameCall(c: Call, d: Call) {
    SlotOf(c) == SlotOf(d) && (c.phase == d.phase || (c.phase.Failed? && d.phase.Failed? && d.phase.at == c.phase.at))
  }

  ghost predicate KeepsCalls(s: State, t: State) {
    forall id :: id in s.calls ==> id in t.calls && SameCall(s.calls[id], t.calls[id])
  }

  lemma NewCallKeepsCalls(s: State, t: State, id: Id, inst: Inst, key: Key)
    requires id !in s.calls && OnlyMoved(s, t, id, inst, key)
    ensures KeepsCalls(s, t) && t.calls.Keys == s.calls.Keys + {id} && SlotOf(t.calls[id]) == Slot(inst, key)
  {
  }

  lemma ReflectionStays(cfg: Config, evs: seq<Event>, e: Event, s: State, t: State, i: int)
    requires 0 <= i < |evs| && Reflected(cfg, evs, s, i)
    requires KeepsCalls(s, t)
    ensures Reflected(cfg, evs + [e], t, i)
  {
    Refinement.CachedPrefix(cfg.window, evs, e, i);
  }

  lemma QueryIsReflected(cfg: Config, evs: seq<Event>, e: Event, s: State, t: State)
    requires e.Query? && Sees(cfg, evs, s) && e.id in t.calls && SlotOf(t.calls[e.id]) == Slot(e.inst, e.key)
    requires Agrees(t, e.id, e.inst, CachedStores.Call(View(s, e.inst), e.fault, e.key, cfg.window, e.t), e.t)
    ensures Reflected(cfg, evs + [e], t, |evs|)
  {
    Refinement.CachedPrefix(cfg.window, evs, e, |evs|);
    assert View(s, e.inst) == Refinement.Cached(cfg.window, evs, |evs|).Tiers(e.inst);
  }

  /** The record grows by one event: by a new call if it is a query, by no call otherwise. */
  lemma RecordsNext(cfg: Config, evs: seq<Event>, e: Event, s: State, t: State)
    requires Recorded(cfg, evs, s) && Reflected(cfg, evs + [e], t, |evs|)
    requires KeepsCalls(s, t)
    requires t.calls.Keys == s.calls.Keys + if e.Query? then {e.id} else {}
    requires e.Query? ==> e.id !in s.calls
    ensures Recorded(cfg, evs + [e], t)
  {
    var more := evs + [e];
    forall i | 0 <= i < |more| ensures Reflected(cfg, more, t, i) {
      if i < |evs| {
        ReflectionStays(cfg, evs, e, s, t, i);
      }
    }
    forall id | id in t.calls ensures exists i :: IsCall(more, i, id) {
      if id in s.calls {
        var i :| IsCall(evs, i, id);
        assert IsCall(more, i, id);
      } else {
        assert IsCall(more, |evs|, id);
      }
    }
    forall i, j, id | IsCall(more, i, id) && IsCall(more, j, id) ensures i == j {
      CallBefore(cfg, evs, e, s, i, id);
      CallBefore(cfg, evs, e, s, j, id);
    }
  }

  /** An appended query is the only one of its call. */
  lemma CallBefore(cfg: Config, evs: seq<Event>, e: Event, s: State, i: int, id: Id)
    requires Recorded(cfg, evs, s) && (e.Query? ==> e.id !in s.calls) && IsCall(evs + [e], i, id)
    ensures if id in s.calls then IsCall(evs, i, id) else i == |evs|
  {
    if i < |evs| {
      assert Reflected(cfg, evs, s, i);
    }
  }

  /** A call that did what the sequential one does extends the history by its query. */
  lemma QueryExtends(cfg: Config, evs: seq<Event>, s: State, e: Event, t: State)
    requires Replays(cfg, evs, s) && e.Query? && e.id !in s.calls
    requires OnlyMoved(s, t, e.id, e.inst, e.key) && OthersKept(s, t, e.inst)
    requires Agrees(t, e.id, e.inst, CachedStores.Call(View(s, e.inst), e.fault, e.key, cfg.window, e.t), e.t)
    ensures Replays(cfg, evs + [e], t)
  {
    NewCallKeepsCalls(s, t, e.id, e.inst, e.key);
    SeesNext(cfg, evs, e, s, t);
    QueryIsReflected(cfg, evs, e, s, t);
    RecordsNext(cfg, evs, e, s, t);
  }

  /** So does a sweep that did what the sequential one does, */
  lemma SweepExtends(cfg: Config, evs: seq<Event>, s: State, e: Event, t: State)
    requires Replays(cfg, evs, s) && e.Sweep? && t.calls == s.calls && t.sweeps == map[] && OthersKept(s, t, e.inst)
    requires View(t, e.inst) == CachedStores.Tiers(Live(View(s, e.inst).l1, e.at), s.backend)
    ensures Replays(cfg, evs + [e], t)
  {
    SeesNext(cfg, evs, e, s, t);
    RecordsNext(cfg, evs, e, s, t);
  }

  /** and a late write. */
  lemma LateExtends(cfg: Config, evs: seq<Event>, s: State, id: Id)
    requires Replays(cfg, evs, s) && Enabled(cfg, s, Act(id, Protocol.Late))
    ensures Replays(cfg, evs + [LateEvent(s, id)], Apply(cfg, s, Act(id, Protocol.Late)))
  {
    var e, t := LateEvent(s, id), Apply(cfg, s, Act(id, Protocol.Late));
    LateEffect(cfg, s, id);
    LateKeepsCalls(cfg, s, id);
    SameL1SameViews(s, t, e.inst);
    SeesNext(cfg, evs, e, s, t);
    RecordsNext(cfg, evs, e, s, t);
  }

  function LateEvent(s: State, id: Id): Event
    requires id in s.calls
  {
    Refinement.Late(id, s.calls[id].inst, s.calls[id].key, s.clock)
  }

  lemma LateEffect(cfg: Config, s: State, id: Id)
    requires Enabled(cfg, s, Act(id, Protocol.Late))
    ensures var t, e := Apply(cfg, s, Act(id, Protocol.Late)), LateEvent(s, id);
            && t.l1 == s.l1 && t.clock == s.clock && t.sweeps == s.sweeps
            && t.backend == Stores.SetIfAbsent(s.backend, e.key, cfg.window, s.clock)
            && t.calls == s.calls[id := s.calls[id].(phase := Failed(s.calls[id].phase.at, false))]
  {
  }

  lemma LateKeepsCalls(cfg: Config, s: State, id: Id)
    requires Enabled(cfg, s, Act(id, Protocol.Late))
    ensures var t := Apply(cfg, s, Act(id, Protocol.Late)); KeepsCalls(s, t) && t.calls.Keys == s.calls.Keys
  {
    LateEffect(cfg, s, id);
  }

  lemma SameL1SameViews(s: State, t: State, inst: Inst)
    requires t.l1 == s.l1
    ensures View(t, inst).l1 == View(s, inst).l1 && OthersKept(s, t, inst)
  {
  }

  lemma NothingReplayed(cfg: Config)
    ensures Replays(cfg, [], INITIAL)
  {
  }

  // ---------------------------------------------------------------- histories that make sense

  predicate Delivered(evs: seq<Event>, id: Id) {
    exists j :: 0 <= j < |evs| && evs[j].Late? && evs[j].id == id
  }

  /** Query `i` missed L1, its request was lost and its write has not arrived so far. */
  predicate Undelivered(cfg: Config, evs: seq<Event>, i: int) {
    && 0 <= i < |evs| && evs[i].Query? && evs[i].fault.RequestLost? && Refinement.Outcome(cfg.window, evs, i).missed
    && !Delivered(evs, evs[i].id)
  }

  /** `e` can come next: a query is a new call that stamps its entry within the lag, and a late write is
      the one of a lost request. */
  ghost predicate Fits(cfg: Config, evs: seq<Event>, e: Event) {
    match e
    case Query(id, _, _, t, fault) => InOrder(cfg, fault, t) && forall i :: !IsCall(evs, i, id)
    case Late(id, inst, key, _) =>
      exists i :: IsCall(evs, i, id) && Undelivered(cfg, evs, i) && evs[i].inst == inst && evs[i].key == key
    case Sweep(_, _) => true
  }

  ghost predicate WellMade(cfg: Config, evs: seq<Event>) {
    && Refinement.Chronological(evs) && (evs != [] ==> 0 <= Refinement.Start(evs[0]))
    && forall n :: 0 <= n < |evs| ==> Fits(cfg, evs[..n], evs[n])
  }

  lemma UndeliveredBefore(cfg: Config, evs: seq<Event>, e: Event, i: int)
    requires 0 <= i < |evs|
    ensures Undelivered(cfg, evs + [e], i) <==> Undelivered(cfg, evs, i) && !(e.Late? && e.id == evs[i].id)
  {
    Refinement.CachedPrefix(cfg.window, evs, e, i);
    DeliveredNext(evs, e, if evs[i].Sweep? then 0 else evs[i].id);
  }

  lemma DeliveredNext(evs: seq<Event>, e: Event, id: Id)
    ensures Delivered(evs + [e], id) <==> Delivered(evs, id) || (e.Late? && e.id == id)
  {
    var more := evs + [e];
    if j :| 0 <= j < |evs| && evs[j].Late? && evs[j].id == id {
      assert more[j].Late? && more[j].id == id;
    }
    if e.Late? && e.id == id {
      assert more[|evs|].Late? && more[|evs|].id == id;
    }
  }

  // ---------------------------------------------------------------- every history is a run

  /** Every write that has not arrived still can. */
  ghost predicate Awaited(cfg: Config, evs: seq<Event>, s: State) {
    forall i :: Undelivered(cfg, evs, i) ==> evs[i].id in s.calls && IsPending(s.calls[evs[i].id].phase)
  }

  predicate IsPending(p: Phase) {
    p.Failed? && p.pending
  }

  lemma WaitAndSweep(cfg: Config, s: State, inst: Inst, at: Time) returns (t: State)
    requires inst !in s.sweeps && s.clock <= at
    ensures Reaches(cfg, s, t) && OthersKept(s, t, inst)
    ensures View(t, inst) == CachedStores.Tiers(Live(View(s, inst).l1, at), s.backend)
    ensures t.clock == at && t.calls == s.calls && t.sweeps == s.sweeps
  {
    var w := Wait(cfg, s, at - s.clock);
    t := SequentialSweepIsARun(cfg, w, inst);
    ReachesTransitive(cfg, s, w, t);
    assert View(w, inst) == View(s, inst);
  }

  lemma ReplaysLater(cfg: Config, evs: seq<Event>, s: State, t: State)
    requires Replays(cfg, evs, s) && t.calls == s.calls && t.l1 == s.l1 && t.backend == s.backend && t.sweeps == s.sweeps
    ensures Replays(cfg, evs, t)
  {
    forall inst: Inst ensures View(t, inst) == View(s, inst) {
    }
    forall i | 0 <= i < |evs| ensures Reflected(cfg, evs, t, i) {
      assert Reflected(cfg, evs, s, i);
    }
  }

  /** The state before the next event. */
  ghost predicate Before(cfg: Config, evs: seq<Event>, s: State, e: Event) {
    cfg.Valid() && Replays(cfg, evs, s) && Awaited(cfg, evs, s) && s.clock <= Refinement.Start(e) && Fits(cfg, evs, e)
  }

  /** Every pending write stays pending, unless it is the one that arrives. */
  ghost predicate KeepsPending(s: State, t: State, e: Event) {
    forall id :: id in s.calls && !(e.Late? && e.id == id) ==>
                   id in t.calls && (IsPending(s.calls[id].phase) ==> IsPending(t.calls[id].phase))
  }

  lemma AwaitedNext(cfg: Config, evs: seq<Event>, e: Event, s: State, t: State)
    requires Awaited(cfg, evs, s)
    requires KeepsPending(s, t, e)
    requires Undelivered(cfg, evs + [e], |evs|) ==> e.id in t.calls && IsPending(t.calls[e.id].phase)
    ensures Awaited(cfg, evs + [e], t)
  {
    var more := evs + [e];
    forall i | Undelivered(cfg, more, i) ensures more[i].id in t.calls && IsPending(t.calls[more[i].id].phase) {
      if i < |evs| {
        UndeliveredBefore(cfg, evs, e, i);
      }
    }
  }

  lemma NewCall(cfg: Config, evs: seq<Event>, s: State, id: Id)
    requires Recorded(cfg, evs, s) && forall i :: !IsCall(evs, i, id)
    ensures id !in s.calls
  {
  }

  lemma ReplayQuery(cfg: Config, evs: seq<Event>, s: State, e: Event) returns (t: State)
    requires e.Query? && Before(cfg, evs, s, e)
    ensures Reaches(cfg, s, t) && Replays(cfg, evs + [e], t) && Awaited(cfg, evs + [e], t) && t.clock <= Refinement.End(e)
  {
    NewCall(cfg, evs, s, e.id);
    t := SequentialCallIsARun(cfg, s, e.fault, e.id, e.inst, e.key, e.t);
    QueryExtends(cfg, evs, s, e, t);
    LostIsPending(cfg, evs, e, t);
    NewCallKeepsPending(s, t, e);
    AwaitedNext(cfg, evs, e, s, t);
  }

  lemma NewCallKeepsPending(s: State, t: State, e: Event)
    requires e.Query? && e.id !in s.calls && OnlyMoved(s, t, e.id, e.inst, e.key)
    ensures KeepsPending(s, t, e)
  {
  }

  lemma LostIsPending(cfg: Config, evs: seq<Event>, e: Event, t: State)
    requires e.Query? && Recorded(cfg, evs + [e], t)
    requires e.id in t.calls && (t.calls[e.id].phase.Failed? && e.fault.RequestLost? ==> t.calls[e.id].phase.pending)
    ensures Undelivered(cfg, evs + [e], |evs|) ==> IsPending(t.calls[e.id].phase)
  {
    assert Reflected(cfg, evs + [e], t, |evs|);
  }

  lemma ReplaySweep(cfg: Config, evs: seq<Event>, s: State, e: Event) returns (t: State)
    requires e.Sweep? && Before(cfg, evs, s, e)
    ensures Reaches(cfg, s, t) && Replays(cfg, evs + [e], t) && Awaited(cfg, evs + [e], t) && t.clock <= Refinement.End(e)
  {
    t := WaitAndSweep(cfg, s, e.inst, e.at);
    SweepExtends(cfg, evs, s, e, t);
    AwaitedNext(cfg, evs, e, s, t);
  }

  lemma ReplayLate(cfg: Config, evs: seq<Event>, s: State, e: Event) returns (t: State)
    requires e.Late? && Before(cfg, evs, s, e)
    ensures Reaches(cfg, s, t) && Replays(cfg, evs + [e], t) && Awaited(cfg, evs + [e], t) && t.clock <= Refinement.End(e)
  {
    var w := WaitForLate(cfg, evs, s, e);
    t := LateStep(cfg, evs, w, e);
    ReachesTransitive(cfg, s, w, t);
  }

  lemma WaitForLate(cfg: Config, evs: seq<Event>, s: State, e: Event) returns (t: State)
    requires e.Late? && Before(cfg, evs, s, e)
    ensures Reaches(cfg, s, t) && Replays(cfg, evs, t) && Awaited(cfg, evs, t) && t.clock == e.at
    ensures Enabled(cfg, t, Act(e.id, Protocol.Late)) && e == LateEvent(t, e.id)
  {
    t := Wait(cfg, s, e.at - s.clock);
    ReplaysLater(cfg, evs, s, t);
    StillAwaited(cfg, evs, s, t);
    LateIsEnabled(cfg, evs, t, e);
  }

  lemma StillAwaited(cfg: Config, evs: seq<Event>, s: State, t: State)
    requires Awaited(cfg, evs, s) && t.calls == s.calls
    ensures Awaited(cfg, evs, t)
  {
  }

  lemma LateStep(cfg: Config, evs: seq<Event>, s: State, e: Event) returns (t: State)
    requires e.Late? && Replays(cfg, evs, s) && Awaited(cfg, evs, s) && s.clock == e.at
    requires Enabled(cfg, s, Act(e.id, Protocol.Late)) && e == LateEvent(s, e.id)
    ensures Reaches(cfg, s, t) && Replays(cfg, evs + [e], t) && Awaited(cfg, evs + [e], t) && t.clock == e.at
  {
    ReachesSelf(cfg, s);
    ReachesStep(cfg, s, s, Act(e.id, Protocol.Late));
    t := Apply(cfg, s, Act(e.id, Protocol.Late));
    LateExtends(cfg, evs, s, e.id);
    LateKeepsPending(cfg, s, e.id);
    AwaitedNext(cfg, evs, e, s, t);
  }

  lemma LateKeepsPending(cfg: Config, s: State, id: Id)
    requires Enabled(cfg, s, Act(id, Protocol.Late))
    ensures var t := Apply(cfg, s, Act(id, Protocol.Late)); KeepsPending(s, t, LateEvent(s, id)) && t.clock == s.clock
  {
    LateEffect(cfg, s, id);
  }

  lemma LateIsEnabled(cfg: Config, evs: seq<Event>, s: State, e: Event)
    requires e.Late? && Fits(cfg, evs, e) && Recorded(cfg, evs, s) && Awaited(cfg, evs, s) && s.clock == e.at
    ensures Enabled(cfg, s, Act(e.id, Protocol.Late)) && e == LateEvent(s, e.id)
  {
    var i :| IsCall(evs, i, e.id) && Undelivered(cfg, evs, i) && evs[i].inst == e.inst && evs[i].key == e.key;
    assert Reflected(cfg, evs, s, i);
  }

  lemma ReplayNext(cfg: Config, evs: seq<Event>, s: State, e: Event) returns (t: State)
    requires Before(cfg, evs, s, e)
    ensures Reaches(cfg, s, t) && Replays(cfg, evs + [e], t) && Awaited(cfg, evs + [e], t) && t.clock <= Refinement.End(e)
  {
    match e
    case Query(_, _, _, _, _) => t := ReplayQuery(cfg, evs, s, e);
    case Late(_, _, _, _) => t := ReplayLate(cfg, evs, s, e);
    case Sweep(_, _) => t := ReplaySweep(cfg, evs, s, e);
  }

  /** Every history that makes sense is a run: the protocol can give every query the fleet's answer at
      the query's own instant and end in the fleet's tables; the instants and the fault that a hit
      never meets are free. `Serial.SerialRunIsAHistory` is the converse. */
  lemma {:induction false} HistoryIsARun(cfg: Config, evs: seq<Event>) returns (s: State)
    requires cfg.Valid() && WellMade(cfg, evs)
    ensures Reachable(cfg, s) && Replays(cfg, evs, s) && Awaited(cfg, evs, s)
    ensures s.clock <= if evs == [] then 0 else Refinement.End(evs[|evs| - 1])
  {
    if evs == [] {
      s := INITIAL;
      ReachesSelf(cfg, INITIAL);
      NothingReplayed(cfg);
    } else {
      var n := |evs| - 1;
      var e := evs[n];
      ShorterIsWellMade(cfg, evs, n);
      var r := HistoryIsARun(cfg, evs[..n]);
      assert evs == evs[..n] + [e];
      s := ReplayNext(cfg, evs[..n], r, e);
      ReachesTransitive(cfg, INITIAL, r, s);
    }
  }

  lemma ShorterIsWellMade(cfg: Config, evs: seq<Event>, n: nat)
    requires WellMade(cfg, evs) && n <= |evs|
    ensures WellMade(cfg, evs[..n])
  {
    forall m | 0 <= m < n ensures Fits(cfg, evs[..n][..m], evs[..n][m]) {
      assert evs[..n][..m] == evs[..m];
    }
  }

  // ---------------------------------------------------------------- false positives happen

  /** Call `id` was refused by L1 at `t`, when the backend no longer held its key. */
  ghost predicate WronglyRefused(s: State, id: Id, key: Key, t: Time) {
    && id in s.calls && s.calls[id].key == key && s.clock == t && !Stores.Present(s.backend, key, t)
    && var p := s.calls[id].phase; p.Refused? && p.hit && p.sample == t
  }

  lemma HitAtTheEnd(cfg: Config, s: State, id: Id, t: Time)
    requires cfg.Valid() && Reachable(cfg, s) && id in s.calls && s.calls[id].phase.Refused? && s.calls[id].phase.sample == t
    requires s.clock <= t
    ensures s.clock == t
  {
    Invariant.ReachableInv(cfg, s);
    assert Invariant.CallOk(cfg, s, id);
  }

  lemma InstantsAreWellMade(cfg: Config, evs: seq<Event>)
    requires cfg.Valid() && Refinement.Chronological(evs) && (evs != [] ==> 0 <= Refinement.Start(evs[0]))
    requires forall i :: 0 <= i < |evs| ==> evs[i].Query? && evs[i].id == i && InOrder(cfg, evs[i].fault, evs[i].t)
    ensures WellMade(cfg, evs)
  {
  }

  /** The protocol itself refuses a request whose key the backend no longer holds: because another
      instance armed its L1 late, */
  lemma FalsePositiveHappens(cfg: Config, key: Key, d: Time, t: Time) returns (s: State)
    requires cfg.Valid() && 0 < d <= cfg.window < t < d + cfg.window
    ensures Reachable(cfg, s) && WronglyRefused(s, 2, key, t)
  {
    var evs := [Refinement.At(0, 0, key, 0), Refinement.At(1, 1, key, d), Refinement.At(2, 1, key, t)];
    Refinement.FalsePositive(cfg.window, key, 0, 1, d, t);
    InstantsAreWellMade(cfg, evs);
    s := HistoryIsARun(cfg, evs);
    assert Reflected(cfg, evs, s, 2) && View(s, 1) == Refinement.Cached(cfg.window, evs, 3).Tiers(1);
    HitAtTheEnd(cfg, s, 2, t);
  }

  /** or because the same instance stamped its entry `d` after the backend had answered. */
  lemma SlowStampHappens(cfg: Config, key: Key, d: Time, t: Time) returns (s: State)
    requires cfg.Valid() && d <= cfg.lag && d <= t && cfg.window < t < d + cfg.window
    ensures Reachable(cfg, s) && WronglyRefused(s, 1, key, t)
  {
    var evs := [Refinement.Query(0, 0, key, CachedStores.Samples(0, 0, 0, d), Stores.NoFault), Refinement.At(1, 0, key, t)];
    Refinement.SlowStamp(cfg.window, key, 0, d, t);
    InstantsAreWellMade(cfg, evs);
    s := HistoryIsARun(cfg, evs);
    assert Reflected(cfg, evs, s, 1) && View(s, 0) == Refinement.Cached(cfg.window, evs, 2).Tiers(0);
    HitAtTheEnd(cfg, s, 1, t);
  }
}
