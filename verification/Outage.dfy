/** A backend that stops answering: L1 drains within a window and the fail-open flag decides alone. */
module Outage {
  import opened Expiry
  import opened Protocol
  import opened Invariant
  import Handlers
  import Liveness
  import Safety
  import Stores

  /** No backend call in `run` is answered; failed ones may still commit, at once or late. */
  ghost predicate Down(run: seq<Step>) {
    forall k :: 0 <= k < |run| ==> !(run[k].Act? && run[k].action.Ask?)
  }

  /** The call is not between a backend answer and its L1 write. */
  predicate HoldsNoAnswer(p: Phase) {
    !p.Replied? && !p.Stamped?
  }

  ghost predicate NothingInFlight(s: State) {
    forall i :: i in s.calls ==> HoldsNoAnswer(s.calls[i].phase)
  }

  /** The call had returned before the outage. */
  ghost predicate OverAt(s0: State, i: Id) {
    i in s0.calls && Safety.Over(s0.calls[i].phase)
  }

  /** What can become of a call that had not. */
  predicate Drained(until: Time, p: Phase) {
    !p.Admitted? && (p.Refused? ==> p.hit && p.sample < until)
  }

  ghost predicate Draining(cfg: Config, s0: State, s: State) {
    && NothingInFlight(s) && s.wrote == s0.wrote && s.writer == s0.writer
    && (forall t :: t in s.l1 ==> t in s0.l1 && s.l1[t] == s0.l1[t])
    && (forall i :: i in s.calls && !OverAt(s0, i) ==> Drained(s0.clock + cfg.window, s.calls[i].phase))
  }

  lemma L1ExpiresWithinAWindow(cfg: Config, s: State, slot: Slot)
    requires L1Ok(cfg, s) && slot in s.l1
    ensures s.l1[slot] <= s.clock + cfg.window
  {
  }

  lemma DrainingAct(cfg: Config, s0: State, s: State, id: Id, action: Action)
    requires Inv(cfg, s0) && Draining(cfg, s0, s) && Enabled(cfg, s, Act(id, action)) && !action.Ask?
    ensures Draining(cfg, s0, Apply(cfg, s, Act(id, action)))
  {
    var slot := SlotOf(s.calls[id]);
    assert HoldsNoAnswer(s.calls[id].phase);
    if slot in s0.l1 {
      L1ExpiresWithinAWindow(cfg, s0, slot);
    }
    DrainingNext(cfg, s0, s, id, action);
    MemoryFrame(cfg, s, id, action);
  }

  lemma DrainingNext(cfg: Config, s0: State, s: State, id: Id, action: Action)
    requires Draining(cfg, s0, s) && Enabled(cfg, s, Act(id, action)) && !action.Ask?
    requires HoldsNoAnswer(s.calls[id].phase)
    requires SlotOf(s.calls[id]) in s0.l1 ==> s0.l1[SlotOf(s.calls[id])] <= s0.clock + cfg.window
    ensures HoldsNoAnswer(Next(cfg, s, id, action))
    ensures Drained(s0.clock + cfg.window, Next(cfg, s, id, action))
  {
  }

  lemma DrainingStep(cfg: Config, s0: State, s: State, step: Step)
    requires Inv(cfg, s0) && Draining(cfg, s0, s) && Enabled(cfg, s, step) && !(step.Act? && step.action.Ask?)
    ensures Draining(cfg, s0, Apply(cfg, s, step))
  {
    match step
    case Act(id, action) => DrainingAct(cfg, s0, s, id, action);
    case Invoke(id, inst, key) => DrainingInvoke(cfg, s0, s, id, inst, key);
    case SweepShard(inst) =>
      AdvanceFields(Drop(s, Swept(s, inst)), inst);
      DrainingFrame(cfg, s0, s, Apply(cfg, s, step));
    case _ => DrainingFrame(cfg, s0, s, Apply(cfg, s, step));
  }

  lemma DrainingInvoke(cfg: Config, s0: State, s: State, id: Id, inst: Inst, key: Key)
    requires Draining(cfg, s0, s) && id !in s.calls
    ensures Draining(cfg, s0, Apply(cfg, s, Invoke(id, inst, key)))
  {
  }

  lemma DrainingFrame(cfg: Config, s0: State, s: State, s': State)
    requires Draining(cfg, s0, s) && s'.calls == s.calls && s'.wrote == s.wrote && s'.writer == s.writer
    requires forall t :: t in s'.l1 ==> t in s.l1 && s'.l1[t] == s.l1[t]
    ensures Draining(cfg, s0, s')
  {
  }

  lemma {:induction false} DrainingRun(cfg: Config, s0: State, s: State, run: seq<Step>)
    requires Inv(cfg, s0) && Draining(cfg, s0, s) && IsRun(cfg, s, run) && Down(run)
    ensures Draining(cfg, s0, After(cfg, s, run))
    decreases |run|
  {
    if run != [] {
      DrainingStep(cfg, s0, s, run[0]);
      DrainingRun(cfg, s0, Apply(cfg, s, run[0]), run[1..]);
    }
  }

  /** From the moment no backend call is answered and none is half done, L1 is never written again,
      no call that had not returned is admitted, and each that is refused hit L1 with a sample within
      one window. */
  lemma OutageDrainsL1(cfg: Config, s0: State, run: seq<Step>, s: State)
    requires cfg.Valid() && Reachable(cfg, s0) && NothingInFlight(s0)
    requires IsRun(cfg, s0, run) && Down(run) && s == After(cfg, s0, run)
    ensures s.wrote == s0.wrote && forall t :: t in s.l1 ==> t in s0.l1 && s.l1[t] == s0.l1[t]
    ensures forall i :: i in s.calls && !OverAt(s0, i) ==> Drained(s0.clock + cfg.window, s.calls[i].phase)
  {
    ReachableInv(cfg, s0);
    DrainingRun(cfg, s0, s0, run);
  }

  lemma LaterCallsFail(cfg: Config, s0: State, first: seq<Step>, s1: State, second: seq<Step>, s: State, i: Id)
    requires cfg.Valid() && Reachable(cfg, s0) && NothingInFlight(s0)
    requires IsRun(cfg, s0, first) && Down(first) && s1 == After(cfg, s0, first) && s0.clock + cfg.window <= s1.clock
    requires IsRun(cfg, s1, second) && Down(second) && s == After(cfg, s1, second)
    requires i in s.calls && i !in s1.calls
    ensures !s.calls[i].phase.Admitted? && !s.calls[i].phase.Refused?
  {
    LaterCallIsDrained(cfg, s0, first, s1, second, s, i);
    LaterCallIsRecent(cfg, s0, first, s1, second, s, i);
  }

  lemma LaterCallIsDrained(cfg: Config, s0: State, first: seq<Step>, s1: State, second: seq<Step>, s: State, i: Id)
    requires cfg.Valid() && Reachable(cfg, s0) && NothingInFlight(s0)
    requires IsRun(cfg, s0, first) && Down(first) && s1 == After(cfg, s0, first)
    requires IsRun(cfg, s1, second) && Down(second) && s == After(cfg, s1, second)
    requires i in s.calls && i !in s1.calls
    ensures Drained(s0.clock + cfg.window, s.calls[i].phase)
  {
    OutageSoFar(cfg, s0, first, s1);
    ReachableInv(cfg, s0);
    DrainingRun(cfg, s0, s1, second);
    assert i !in s0.calls;
  }

  lemma OutageSoFar(cfg: Config, s0: State, run: seq<Step>, s: State)
    requires cfg.Valid() && Reachable(cfg, s0) && NothingInFlight(s0)
    requires IsRun(cfg, s0, run) && Down(run) && s == After(cfg, s0, run)
    ensures Draining(cfg, s0, s) && Extends(s0, s)
  {
    ReachableInv(cfg, s0);
    RunKeepsInv(cfg, s0, run);
    DrainingRun(cfg, s0, s0, run);
  }

  lemma LaterCallIsRecent(cfg: Config, s0: State, first: seq<Step>, s1: State, second: seq<Step>, s: State, i: Id)
    requires cfg.Valid() && Reachable(cfg, s0) && IsRun(cfg, s0, first) && s1 == After(cfg, s0, first)
    requires IsRun(cfg, s1, second) && s == After(cfg, s1, second) && i in s.calls && i !in s1.calls
    ensures Liveness.Since(s1.clock, s.calls[i].phase)
  {
    ReachableInv(cfg, s0);
    RunKeepsInv(cfg, s0, first);
    Liveness.RecentRun(cfg, s1, s1, second);
  }

  /** A window into the outage, the response every later request gets is the one for an unavailable
      store: a redirect if the handler fails open, a 500 otherwise. */
  lemma OutageIsDecidedByFlag(cfg: Config, h: Handlers.Config, uri: Handlers.Bytes,
                              s0: State, first: seq<Step>, s1: State, second: seq<Step>, s: State, i: Id)
    requires cfg.Valid() && Reachable(cfg, s0) && NothingInFlight(s0)
    requires IsRun(cfg, s0, first) && Down(first) && s1 == After(cfg, s0, first) && s0.clock + cfg.window <= s1.clock
    requires IsRun(cfg, s1, second) && Down(second) && s == After(cfg, s1, second)
    requires i in s.calls && i !in s1.calls && Safety.Over(s.calls[i].phase)
    ensures Handlers.Respond(h, uri, Safety.ReplyOf(s.calls[i].phase)) ==
            if h.failOpen then Handlers.Redirect(h.prefix + uri) else Handlers.ServerError
  {
    LaterCallsFail(cfg, s0, first, s1, second, s, i);
  }

  /** A store that errors from the start leaves L1 empty and refuses nobody. */
  lemma NeverUp(cfg: Config, run: seq<Step>, s: State)
    requires cfg.Valid() && IsRun(cfg, INITIAL, run) && Down(run) && s == After(cfg, INITIAL, run)
    ensures s.l1 == map[] && s.wrote == map[]
    ensures forall i :: i in s.calls ==> !s.calls[i].phase.Refused? && !s.calls[i].phase.Admitted?
  {
    DrainingRun(cfg, INITIAL, INITIAL, run);
    NoHits(cfg, INITIAL, run);
  }

  ghost predicate Unrefused(s: State) {
    && NothingInFlight(s) && s.l1 == map[]
    && forall i :: i in s.calls ==> !s.calls[i].phase.Refused? && !s.calls[i].phase.Admitted?
  }

  lemma {:induction false} NoHits(cfg: Config, s: State, run: seq<Step>)
    requires Unrefused(s) && IsRun(cfg, s, run) && Down(run)
    ensures Unrefused(After(cfg, s, run))
    decreases |run|
  {
    if run != [] {
      NoHitsStep(cfg, s, run[0]);
      NoHits(cfg, Apply(cfg, s, run[0]), run[1..]);
    }
  }

  lemma NoHitsStep(cfg: Config, s: State, step: Step)
    requires Unrefused(s) && Enabled(cfg, s, step) && !(step.Act? && step.action.Ask?)
    ensures Unrefused(Apply(cfg, s, step))
  {
    match step
    case Act(id, action) =>
      assert HoldsNoAnswer(s.calls[id].phase);
      MemoryFrame(cfg, s, id, action);
      NoHitsNext(cfg, s, id, action);
      assert Memory(cfg, s, id, action).l1 == map[];
    case SweepShard(inst) => AdvanceFields(Drop(s, Swept(s, inst)), inst);
    case _ =>
  }

  lemma NoHitsNext(cfg: Config, s: State, id: Id, action: Action)
    requires Enabled(cfg, s, Act(id, action)) && s.l1 == map[] && !action.Ask? && HoldsNoAnswer(s.calls[id].phase)
    ensures var p := Next(cfg, s, id, action); HoldsNoAnswer(p) && !p.Refused? && !p.Admitted?
  {
  }
}
