/** Runs in which calls, sweeps and late writes take turns. Each has one history, read off its steps and
    their instants, and the refinement condition on that history decides the run. */
module Serial {
  import opened Expiry
  import opened Protocol
  import opened Solo
  import opened Histories
  import Alone
  import CachedStores
  import Invariant
  import Refinement
  import Safety

  type Account = Alone.Account

  /** No call and no sweep is under way. */
  ghost predicate AtRest(s: State) {
    s.sweeps == map[] && forall i :: i in s.calls ==> Safety.Over(s.calls[i].phase)
  }

  /** Calls, sweeps and late writes begin only at rest. */
  ghost predicate InTurn(s: State, step: Step) {
    match step
    case Invoke(_, _, _) => AtRest(s)
    case SweepStart(_) => AtRest(s)
    case Act(_, action) => action.Late? ==> AtRest(s)
    case _ => true
  }

  ghost predicate IsSerial(cfg: Config, s: State, run: seq<Step>)
    requires IsRun(cfg, s, run)
    decreases |run|
  {
    run == [] || (InTurn(s, run[0]) && IsSerial(cfg, Apply(cfg, s, run[0]), run[1..]))
  }

  // ---------------------------------------------------------------- the history of a run

  /** Whose turn it is, with the instants met so far. */
  datatype Turn = Nobodys | Calls(id: Id, a: Account) | Sweeps(inst: Inst, at: Time)

  function TurnAfter(s: State, turn: Turn, step: Step): Turn {
    match step
    case Invoke(id, _, _) => Calls(id, Alone.Opening(s.clock))
    case SweepStart(inst) => Sweeps(inst, s.clock)
    case _ => if turn.Calls? then Calls(turn.id, Alone.Follow(s, turn.id, turn.a, step)) else turn
  }

  /** The event of a turn that has ended in `s`. */
  function Ended(s: State, turn: Turn): seq<Event> {
    match turn
    case Nobodys => []
    case Calls(id, a) =>
      if id in s.calls && Safety.Over(s.calls[id].phase) then
        [Refinement.Query(id, s.calls[id].inst, s.calls[id].key, a.t, a.fault)]
      else []
    case Sweeps(inst, at) => if inst !in s.sweeps then [Refinement.Sweep(inst, at)] else []
  }

  /** The event, if any, that a step completes. */
  function Completed(cfg: Config, s: State, turn: Turn, step: Step): seq<Event>
    requires Enabled(cfg, s, step)
  {
    if step.Act? && step.action.Late? then [LateEvent(s, step.id)]
    else Ended(Apply(cfg, s, step), TurnAfter(s, turn, step))
  }

  /** The history of a run: each event with the clock readings and the fault of the steps that made it. */
  function History(cfg: Config, s: State, turn: Turn, run: seq<Step>): seq<Event>
    requires IsRun(cfg, s, run)
    decreases |run|
  {
    if run == [] then []
    else
      var done := Completed(cfg, s, turn, run[0]);
      done + History(cfg, Apply(cfg, s, run[0]), if done == [] then TurnAfter(s, turn, run[0]) else Nobodys, run[1..])
  }

  // ---------------------------------------------------------------- what a history tells

  /** Only the write of a lost request can still arrive. */
  ghost predicate Owed(cfg: Config, evs: seq<Event>, s: State) {
    forall i :: 0 <= i < |evs| && evs[i].Query? && evs[i].id in s.calls && IsPending(s.calls[evs[i].id].phase) ==>
                  Undelivered(cfg, evs, i)
  }

  /** `evs` makes sense, lies in the past, and is what `s` comes from. */
  ghost predicate Told(cfg: Config, evs: seq<Event>, s: State) {
    && 0 <= s.clock && Replays(cfg, evs, s) && WellMade(cfg, evs) && Owed(cfg, evs, s)
    && (forall i :: 0 <= i < |evs| ==> Refinement.End(evs[i]) <= s.clock)
  }

  lemma ToldIsAtRest(cfg: Config, evs: seq<Event>, s: State)
    requires Replays(cfg, evs, s)
    ensures AtRest(s)
  {
    forall id | id in s.calls ensures Safety.Over(s.calls[id].phase) {
      var i :| IsCall(evs, i, id);
      assert Reflected(cfg, evs, s, i);
    }
  }

  lemma ToldLater(cfg: Config, evs: seq<Event>, s: State, d: nat)
    requires Told(cfg, evs, s)
    ensures Told(cfg, evs, Apply(cfg, s, Tick(d)))
  {
    ReplaysLater(cfg, evs, s, Apply(cfg, s, Tick(d)));
  }

  lemma ToldMore(cfg: Config, evs: seq<Event>, s: State, e: Event, t: State)
    requires Told(cfg, evs, s) && Replays(cfg, evs + [e], t) && Owed(cfg, evs + [e], t) && Fits(cfg, evs, e)
    requires s.clock <= Refinement.Start(e) <= Refinement.End(e) <= t.clock
    requires e.Query? ==> CachedStores.Ordered(e.t)
    ensures Told(cfg, evs + [e], t)
  {
    var more := evs + [e];
    forall n | 0 <= n < |more| ensures Fits(cfg, more[..n], more[n]) {
      assert more[..n] == evs[..n];
      if n == |evs| {
        assert evs[..n] == evs;
      }
    }
  }

  lemma OwedNext(cfg: Config, evs: seq<Event>, e: Event, s: State, t: State)
    requires Owed(cfg, evs, s) && Recorded(cfg, evs, s) && (e.Query? ==> e.id !in s.calls)
    requires forall id :: id in s.calls && id in t.calls && IsPending(t.calls[id].phase) ==>
                            IsPending(s.calls[id].phase) && !(e.Late? && e.id == id)
    requires e.Query? && e.id in t.calls && IsPending(t.calls[e.id].phase) ==> Undelivered(cfg, evs + [e], |evs|)
    ensures Owed(cfg, evs + [e], t)
  {
    var more := evs + [e];
    forall i | 0 <= i < |more| && more[i].Query? && more[i].id in t.calls && IsPending(t.calls[more[i].id].phase)
      ensures Undelivered(cfg, more, i)
    {
      if i < |evs| {
        assert Reflected(cfg, evs, s, i);
        UndeliveredBefore(cfg, evs, e, i);
      }
    }
  }

  // ---------------------------------------------------------------- a call's turn

  /** Call `id`, invoked at `s0`, is under way, and nothing else has moved since. */
  ghost predicate Calling(cfg: Config, s0: State, s: State, id: Id, slot: Slot, a: Account) {
    && id !in s0.calls && OnlyMoved(s0, s, id, slot.inst, slot.key)
    && Alone.Along(cfg, s0, s, slot, s.calls[id].phase, a)
  }

  lemma CallBegins(cfg: Config, s0: State, id: Id, slot: Slot)
    requires id !in s0.calls
    ensures var s := Apply(cfg, s0, Invoke(id, slot.inst, slot.key));
            Calling(cfg, s0, s, id, slot, Alone.Opening(s0.clock)) && !Safety.Over(s.calls[id].phase)
  {
  }

  /** Only the call whose turn it is can move, besides the clock. */
  lemma StepIsOwn(cfg: Config, s0: State, s: State, id: Id, slot: Slot, a: Account, step: Step)
    requires AtRest(s0) && Calling(cfg, s0, s, id, slot, a) && !Safety.Over(s.calls[id].phase)
    requires Enabled(cfg, s, step) && InTurn(s, step)
    ensures Alone.OwnStep(id, step)
  {
  }

  lemma CallGoesOn(cfg: Config, s0: State, s: State, id: Id, slot: Slot, a: Account, step: Step)
    requires Calling(cfg, s0, s, id, slot, a) && Enabled(cfg, s, step) && Alone.OwnStep(id, step)
    ensures Calling(cfg, s0, Apply(cfg, s, step), id, slot, Alone.Follow(s, id, a, step))
  {
    Alone.AlongStep(cfg, s0, s, step, id, slot, a);
    OwnStepMoves(cfg, s, step, id);
    MovedTransitive(s0, s, Apply(cfg, s, step), id, slot.inst, slot.key);
  }

  lemma OwnStepMoves(cfg: Config, s: State, step: Step, id: Id)
    requires id in s.calls && Enabled(cfg, s, step) && Alone.OwnStep(id, step)
    ensures OnlyMoved(s, Apply(cfg, s, step), id, s.calls[id].inst, s.calls[id].key)
  {
    if step.Tick? {
      StaysPut(s, id);
    } else {
      Alone.MemoryCalls(cfg, s, id, step.action);
    }
  }

  /** A call that has returned extends the history. */
  lemma CallEnds(cfg: Config, evs: seq<Event>, s0: State, s: State, id: Id, slot: Slot, a: Account)
    requires cfg.Valid() && Told(cfg, evs, s0) && Calling(cfg, s0, s, id, slot, a) && Safety.Over(s.calls[id].phase)
    ensures Told(cfg, evs + [Refinement.Query(id, slot.inst, slot.key, a.t, a.fault)], s)
  {
    var e := Refinement.Query(id, slot.inst, slot.key, a.t, a.fault);
    Alone.FinishedIsSequential(cfg, s0, s, id, slot.inst, slot.key, a);
    QueryExtends(cfg, evs, s0, e, s);
    NewCallFits(cfg, evs, s0, e);
    PendingIsUndelivered(cfg, evs, s0, e, s);
    OwedNext(cfg, evs, e, s0, s);
    ToldMore(cfg, evs, s0, e, s);
  }

  lemma NewCallFits(cfg: Config, evs: seq<Event>, s: State, e: Event)
    requires Recorded(cfg, evs, s) && e.Query? && e.id !in s.calls && InOrder(cfg, e.fault, e.t)
    ensures Fits(cfg, evs, e) && !Delivered(evs, e.id)
  {
    forall i | 0 <= i < |evs| && !evs[i].Sweep? ensures evs[i].id != e.id {
      assert Reflected(cfg, evs, s, i);
    }
  }

  lemma PendingIsUndelivered(cfg: Config, evs: seq<Event>, s0: State, e: Event, s: State)
    requires e.Query? && !Delivered(evs, e.id) && Recorded(cfg, evs + [e], s)
    requires e.id in s.calls && (IsPending(s.calls[e.id].phase) ==> e.fault.RequestLost?)
    ensures IsPending(s.calls[e.id].phase) ==> Undelivered(cfg, evs + [e], |evs|)
  {
    assert Reflected(cfg, evs + [e], s, |evs|);
    DeliveredNext(evs, e, e.id);
  }

  // ---------------------------------------------------------------- a sweep's turn

  /** A sweep of `inst`, started at `s0`, is under way, and nothing else has moved since. */
  ghost predicate Sweeping(s0: State, s: State, inst: Inst) {
    && s0.clock <= s.clock && s.calls == s0.calls && s.backend == s0.backend
    && Alone.SweepingAlong(s, inst, s0.clock, s0.l1) && (s.sweeps == map[] || s.sweeps.Keys == {inst})
  }

  lemma SweepBegins(cfg: Config, s0: State, inst: Inst)
    requires s0.sweeps == map[]
    ensures var s := Apply(cfg, s0, SweepStart(inst)); Sweeping(s0, s, inst) && inst in s.sweeps
  {
  }

  /** Only the sweep whose turn it is can move, besides the clock. */
  lemma StepIsSweeping(cfg: Config, s0: State, s: State, inst: Inst, step: Step)
    requires AtRest(s0) && Sweeping(s0, s, inst) && inst in s.sweeps && Enabled(cfg, s, step) && InTurn(s, step)
    ensures step.Tick? || step == SweepShard(inst)
  {
  }

  lemma SweepGoesOn(cfg: Config, s0: State, s: State, inst: Inst, step: Step)
    requires Sweeping(s0, s, inst) && Enabled(cfg, s, step) && (step.Tick? || step == SweepShard(inst))
    ensures Sweeping(s0, Apply(cfg, s, step), inst)
  {
    Alone.SweepStep(cfg, s, inst, s0.clock, s0.l1, step);
    if step.SweepShard? {
      Invariant.AdvanceFields(Drop(s, Swept(s, inst)), inst);
      AdvanceKeys(Drop(s, Swept(s, inst)), inst);
    }
  }

  lemma AdvanceKeys(s: State, inst: Inst)
    requires s.sweeps.Keys == {inst}
    ensures Advance(s, inst).sweeps == map[] || Advance(s, inst).sweeps.Keys == {inst}
  {
  }

  lemma SweepEnds(cfg: Config, evs: seq<Event>, s0: State, s: State, inst: Inst)
    requires Told(cfg, evs, s0) && Sweeping(s0, s, inst) && s.sweeps == map[]
    ensures Told(cfg, evs + [Refinement.Sweep(inst, s0.clock)], s)
  {
    var e := Refinement.Sweep(inst, s0.clock);
    SweptView(s0, s, inst);
    SweepExtends(cfg, evs, s0, e, s);
    OwedNext(cfg, evs, e, s0, s);
    ToldMore(cfg, evs, s0, e, s);
  }

  // ---------------------------------------------------------------- a late write's turn

  lemma LateFits(cfg: Config, evs: seq<Event>, s: State, id: Id)
    requires Replays(cfg, evs, s) && Owed(cfg, evs, s) && Enabled(cfg, s, Act(id, Protocol.Late))
    ensures Fits(cfg, evs, LateEvent(s, id))
  {
    var i :| IsCall(evs, i, id);
    assert Reflected(cfg, evs, s, i) && Undelivered(cfg, evs, i);
  }

  lemma LateArrives(cfg: Config, evs: seq<Event>, s: State, id: Id)
    requires Told(cfg, evs, s) && Enabled(cfg, s, Act(id, Protocol.Late))
    ensures Told(cfg, evs + [LateEvent(s, id)], Apply(cfg, s, Act(id, Protocol.Late)))
  {
    var e, t := LateEvent(s, id), Apply(cfg, s, Act(id, Protocol.Late));
    LateFits(cfg, evs, s, id);
    LateExtends(cfg, evs, s, id);
    LateEffect(cfg, s, id);
    OwedNext(cfg, evs, e, s, t);
    ToldMore(cfg, evs, s, e, t);
  }

  // ---------------------------------------------------------------- whole runs

  lemma HistoryGoesOn(cfg: Config, s: State, turn: Turn, run: seq<Step>)
    requires run != [] && IsRun(cfg, s, run) && Completed(cfg, s, turn, run[0]) == []
    ensures History(cfg, s, turn, run) == History(cfg, Apply(cfg, s, run[0]), TurnAfter(s, turn, run[0]), run[1..])
  {
    var rest := History(cfg, Apply(cfg, s, run[0]), TurnAfter(s, turn, run[0]), run[1..]);
    assert [] + rest == rest;
  }

  lemma HistoryGrows(cfg: Config, s: State, turn: Turn, run: seq<Step>, evs: seq<Event>, e: Event)
    requires run != [] && IsRun(cfg, s, run) && Completed(cfg, s, turn, run[0]) == [e]
    ensures evs + History(cfg, s, turn, run) == (evs + [e]) + History(cfg, Apply(cfg, s, run[0]), Nobodys, run[1..])
  {
    var rest := History(cfg, Apply(cfg, s, run[0]), Nobodys, run[1..]);
    assert evs + ([e] + rest) == (evs + [e]) + rest;
  }

  /** A step of the call whose turn it is completes its query exactly when the call returns. */
  lemma CallStep(cfg: Config, s: State, id: Id, slot: Slot, a: Account, step: Step)
    requires Enabled(cfg, s, step) && Alone.OwnStep(id, step) && id in s.calls && SlotOf(s.calls[id]) == slot
    ensures TurnAfter(s, Calls(id, a), step) == Calls(id, Alone.Follow(s, id, a, step))
    ensures var s', b := Apply(cfg, s, step), Alone.Follow(s, id, a, step);
            && id in s'.calls
            && Completed(cfg, s, Calls(id, a), step) ==
               if Safety.Over(s'.calls[id].phase) then [Refinement.Query(id, slot.inst, slot.key, b.t, b.fault)] else []
  {
    OwnStepMoves(cfg, s, step, id);
  }

  lemma SweeperStep(cfg: Config, s: State, inst: Inst, at: Time, step: Step)
    requires Enabled(cfg, s, step) && (step.Tick? || step == SweepShard(inst))
    ensures TurnAfter(s, Sweeps(inst, at), step) == Sweeps(inst, at)
    ensures Completed(cfg, s, Sweeps(inst, at), step) ==
            if inst in Apply(cfg, s, step).sweeps then [] else [Refinement.Sweep(inst, at)]
  {
  }

  /** At rest a step begins a turn or is a late write. */
  lemma RestStep(cfg: Config, s: State, step: Step)
    requires AtRest(s) && Enabled(cfg, s, step)
    ensures !step.SweepShard? && (step.Act? ==> step.action.Late?)
    ensures !step.Act? ==> Completed(cfg, s, Nobodys, step) == []
  {
  }

  lemma FromRest(cfg: Config, s: State, run: seq<Step>, evs: seq<Event>)
    requires cfg.Valid() && Told(cfg, evs, s) && IsRun(cfg, s, run) && IsSerial(cfg, s, run)
    requires AtRest(After(cfg, s, run))
    ensures Told(cfg, evs + History(cfg, s, Nobodys, run), After(cfg, s, run))
    decreases |run|
  {
    if run == [] {
      assert evs + [] == evs;
    } else {
      var step := run[0];
      var s' := Apply(cfg, s, step);
      ToldIsAtRest(cfg, evs, s);
      RestStep(cfg, s, step);
      if step.Act? {
        LateArrives(cfg, evs, s, step.id);
        FromRest(cfg, s', run[1..], evs + [LateEvent(s, step.id)]);
        HistoryGrows(cfg, s, Nobodys, run, evs, LateEvent(s, step.id));
      } else {
        HistoryGoesOn(cfg, s, Nobodys, run);
        Begins(cfg, s, run, evs);
      }
    }
  }

  lemma Begins(cfg: Config, s: State, run: seq<Step>, evs: seq<Event>)
    requires run != [] && cfg.Valid() && Told(cfg, evs, s) && IsRun(cfg, s, run) && IsSerial(cfg, s, run)
    requires AtRest(After(cfg, s, run)) && !run[0].Act? && !run[0].SweepShard?
    ensures Told(cfg, evs + History(cfg, Apply(cfg, s, run[0]), TurnAfter(s, Nobodys, run[0]), run[1..]), After(cfg, s, run))
    decreases |run|, 0
  {
    var s' := Apply(cfg, s, run[0]);
    assert IsRun(cfg, s', run[1..]) && IsSerial(cfg, s', run[1..]) && After(cfg, s, run) == After(cfg, s', run[1..]);
    match run[0]
    case Tick(d) =>
      ToldLater(cfg, evs, s, d);
      FromRest(cfg, s', run[1..], evs);
    case Invoke(id, inst, key) =>
      var slot := Slot(inst, key);
      CallBegins(cfg, s, id, slot);
      FromCall(cfg, s, s', id, slot, Alone.Opening(s.clock), run[1..], evs);
    case SweepStart(inst) =>
      SweepBegins(cfg, s, inst);
      FromSweep(cfg, s, s', inst, run[1..], evs);
  }

  lemma FromCall(cfg: Config, s0: State, s: State, id: Id, slot: Slot, a: Account, run: seq<Step>, evs: seq<Event>)
    requires cfg.Valid() && Told(cfg, evs, s0) && Calling(cfg, s0, s, id, slot, a) && !Safety.Over(s.calls[id].phase)
    requires IsRun(cfg, s, run) && IsSerial(cfg, s, run) && AtRest(After(cfg, s, run))
    ensures Told(cfg, evs + History(cfg, s, Calls(id, a), run), After(cfg, s, run))
    decreases |run|
  {
    var step := run[0];
    var s', b := Apply(cfg, s, step), Alone.Follow(s, id, a, step);
    ToldIsAtRest(cfg, evs, s0);
    StepIsOwn(cfg, s0, s, id, slot, a, step);
    CallGoesOn(cfg, s0, s, id, slot, a, step);
    CallStep(cfg, s, id, slot, a, step);
    if Safety.Over(s'.calls[id].phase) {
      var e := Refinement.Query(id, slot.inst, slot.key, b.t, b.fault);
      CallEnds(cfg, evs, s0, s', id, slot, b);
      FromRest(cfg, s', run[1..], evs + [e]);
      HistoryGrows(cfg, s, Calls(id, a), run, evs, e);
    } else {
      HistoryGoesOn(cfg, s, Calls(id, a), run);
      FromCall(cfg, s0, s', id, slot, b, run[1..], evs);
    }
  }

  lemma FromSweep(cfg: Config, s0: State, s: State, inst: Inst, run: seq<Step>, evs: seq<Event>)
    requires cfg.Valid() && Told(cfg, evs, s0) && Sweeping(s0, s, inst) && inst in s.sweeps
    requires IsRun(cfg, s, run) && IsSerial(cfg, s, run) && AtRest(After(cfg, s, run))
    ensures Told(cfg, evs + History(cfg, s, Sweeps(inst, s0.clock), run), After(cfg, s, run))
    decreases |run|
  {
    var step, turn, e := run[0], Sweeps(inst, s0.clock), Refinement.Sweep(inst, s0.clock);
    var s' := Apply(cfg, s, step);
    ToldIsAtRest(cfg, evs, s0);
    StepIsSweeping(cfg, s0, s, inst, step);
    SweepGoesOn(cfg, s0, s, inst, step);
    SweeperStep(cfg, s, inst, s0.clock, step);
    if inst in s'.sweeps {
      HistoryGoesOn(cfg, s, turn, run);
      FromSweep(cfg, s0, s', inst, run[1..], evs);
    } else {
      assert inst !in s'.sweeps.Keys;
      SweepEnds(cfg, evs, s0, s', inst);
      FromRest(cfg, s', run[1..], evs + [e]);
      HistoryGrows(cfg, s, turn, run, evs, e);
    }
  }

  /** A run from the start in which everything took its turn and has ended. */
  ghost predicate SerialRun(cfg: Config, run: seq<Step>) {
    cfg.Valid() && IsRun(cfg, INITIAL, run) && IsSerial(cfg, INITIAL, run) && AtRest(After(cfg, INITIAL, run))
  }

  /** The history of every such run makes sense: each call is one of its queries, is answered as the fleet
      answers it at the instant the query has for that, and the tables are the fleet's. */
  lemma SerialRunIsAHistory(cfg: Config, run: seq<Step>)
    requires SerialRun(cfg, run)
    ensures Told(cfg, History(cfg, INITIAL, Nobodys, run), After(cfg, INITIAL, run))
  {
    NothingReplayed(cfg);
    FromRest(cfg, INITIAL, run, []);
    assert [] + History(cfg, INITIAL, Nobodys, run) == History(cfg, INITIAL, Nobodys, run);
  }

  /** Every call was answered as the bare backend answers its query. */
  ghost predicate AnsweredLikeBare(cfg: Config, evs: seq<Event>, s: State) {
    forall i :: 0 <= i < |evs| && evs[i].Query? ==>
                  evs[i].id in s.calls && Safety.ReplyOf(s.calls[evs[i].id].phase) == Refinement.BareReply(cfg.window, evs, i)
  }

  /** Every such run answers its calls as the bare backend would if and only if none of them looked up
      inside its instance's own refresh period when the backend would not confirm the duplicate. */
  lemma SerialRefinesBareIff(cfg: Config, run: seq<Step>)
    requires SerialRun(cfg, run)
    ensures var evs := History(cfg, INITIAL, Nobodys, run);
            AnsweredLikeBare(cfg, evs, After(cfg, INITIAL, run)) <==>
            forall n :: 0 <= n < |evs| ==> !Refinement.Overheld(cfg.window, evs, n)
  {
    var evs := History(cfg, INITIAL, Nobodys, run);
    SerialRunIsAHistory(cfg, run);
    Refinement.CachedRefinesBareIff(cfg.window, evs);
    AgreeIffAnsweredLikeBare(cfg, evs, After(cfg, INITIAL, run));
  }

  lemma AgreeIffAnsweredLikeBare(cfg: Config, evs: seq<Event>, s: State)
    requires Recorded(cfg, evs, s)
    ensures AnsweredLikeBare(cfg, evs, s) <==> forall n :: 0 <= n < |evs| ==> Refinement.Agree(cfg.window, evs, n)
  {
    forall i | 0 <= i < |evs| && evs[i].Query?
      ensures evs[i].id in s.calls
      ensures Refinement.Agree(cfg.window, evs, i) <==>
              Safety.ReplyOf(s.calls[evs[i].id].phase) == Refinement.BareReply(cfg.window, evs, i)
    {
      assert Reflected(cfg, evs, s, i);
    }
  }
}
