/** Redirects by the instant they leave the service, not by the instant that decided them. */
module Responses {
  import opened Expiry
  import opened Protocol
  import opened Invariant
  import Handlers
  import Safety

  /** An admitted call returns when it writes L1, at or after its commit. */
  ghost predicate Returned(s: State, i: Id)
    requires i in s.calls
  {
    s.calls[i].phase.Admitted? ==>
      i in s.wrote && s.wrote[i].commit == s.calls[i].phase.commit <= s.wrote[i].at <= s.clock
  }

  ghost predicate AllReturned(s: State) {
    forall i :: i in s.calls ==> Returned(s, i)
  }

  lemma StoreReturns(cfg: Config, s: State, id: Id)
    requires cfg.Valid() && CallsOk(cfg, s) && Enabled(cfg, s, Act(id, Store))
    ensures Returned(Apply(cfg, s, Act(id, Store)), id)
  {
    assert CallOk(cfg, s, id);
  }

  lemma ActReturns(cfg: Config, s: State, id: Id, action: Action)
    requires cfg.Valid() && CallsOk(cfg, s) && AllReturned(s) && Enabled(cfg, s, Act(id, action))
    ensures AllReturned(Apply(cfg, s, Act(id, action)))
  {
    var s' := Apply(cfg, s, Act(id, action));
    if action.Store? {
      StoreReturns(cfg, s, id);
    } else {
      MemoryFrame(cfg, s, id, action);
      assert !Next(cfg, s, id, action).Admitted?;
    }
    forall i | i in s'.calls && i != id ensures Returned(s', i) {
      assert Returned(s, i);
    }
  }

  lemma StepReturns(cfg: Config, s: State, step: Step)
    requires cfg.Valid() && CallsOk(cfg, s) && AllReturned(s) && Enabled(cfg, s, step)
    ensures AllReturned(Apply(cfg, s, step))
  {
    match step
    case Act(id, action) => ActReturns(cfg, s, id, action);
    case SweepShard(inst) => AdvanceFields(Drop(s, Swept(s, inst)), inst);
    case _ =>
  }

  lemma {:induction false} RunReturns(cfg: Config, s: State, run: seq<Step>)
    requires cfg.Valid() && Inv(cfg, s) && AllReturned(s) && IsRun(cfg, s, run)
    ensures AllReturned(After(cfg, s, run))
    decreases |run|
  {
    if run != [] {
      StepReturns(cfg, s, run[0]);
      StepKeepsInv(cfg, s, run[0]);
      RunReturns(cfg, Apply(cfg, s, run[0]), run[1..]);
    }
  }

  lemma ReachableReturned(cfg: Config, s: State)
    requires cfg.Valid() && Reachable(cfg, s)
    ensures AllReturned(s)
  {
    var run :| IsRun(cfg, INITIAL, run) && After(cfg, INITIAL, run) == s;
    RunReturns(cfg, INITIAL, run);
  }

  /** When a finished call returned: an admission after its L1 write, an error when it was reported. */
  function ReturnedAt(s: State, i: Id): Time
    requires i in s.calls && Safety.Over(s.calls[i].phase)
  {
    if s.calls[i].phase.Admitted? && i in s.wrote then s.wrote[i].at else Safety.DecidedAt(s.calls[i].phase)
  }

  /** The calls on `key` that the handler answered with a redirect during the interval. */
  function Redirected(h: Handlers.Config, s: State, key: Key, lo: Time, hi: Time): set<Id> {
    set i | i in s.calls && s.calls[i].key == key && Safety.Over(s.calls[i].phase) && lo <= ReturnedAt(s, i) <= hi
            && Handlers.Respond(h, [], Safety.ReplyOf(s.calls[i].phase)).Redirect?
  }

  /** No admission of `key` took longer than `slow` from its commit to its return. */
  ghost predicate Prompt(s: State, key: Key, slow: Time) {
    forall i :: i in s.calls && s.calls[i].key == key && s.calls[i].phase.Admitted? ==>
                  ReturnedAt(s, i) <= s.calls[i].phase.commit + slow
  }

  /** Two admitted responses are more than a window less the slowest return apart. */
  lemma ResponsesApart(cfg: Config, s: State, key: Key, slow: Time, i: Id, j: Id)
    requires cfg.Valid() && Reachable(cfg, s) && Prompt(s, key, slow)
    requires i != j && SameKey(s, i, j) && s.calls[i].key == key
    requires s.calls[i].phase.Admitted? && s.calls[j].phase.Admitted?
    ensures || ReturnedAt(s, i) + cfg.window - slow < ReturnedAt(s, j)
            || ReturnedAt(s, j) + cfg.window - slow < ReturnedAt(s, i)
  {
    ReachableReturned(cfg, s);
    assert Returned(s, i) && Returned(s, j);
    Safety.AdmissionsExclude(cfg, s, i, j);
  }

  function AdmittedResponses(s: State, key: Key, lo: Time, hi: Time): set<Id> {
    set i | i in s.calls && s.calls[i].key == key && s.calls[i].phase.Admitted? && lo <= ReturnedAt(s, i) <= hi
  }

  lemma AtMostOneResponse(cfg: Config, s: State, key: Key, slow: Time, lo: Time, hi: Time)
    requires cfg.Valid() && Reachable(cfg, s) && Prompt(s, key, slow) && hi <= lo + cfg.window - slow
    ensures |AdmittedResponses(s, key, lo, hi)| <= 1
  {
    var a := AdmittedResponses(s, key, lo, hi);
    if |a| > 0 {
      var i := Safety.Member(a);
      forall j | j in a ensures j == i {
        if j != i {
          ResponsesApart(cfg, s, key, slow, i, j);
        }
      }
      assert a == {i};
    }
  }

  lemma RedirectedSplits(h: Handlers.Config, s: State, key: Key, lo: Time, hi: Time)
    ensures var failures := if h.failOpen then Safety.Failures(s, key, lo, hi) else {};
            Redirected(h, s, key, lo, hi) == AdmittedResponses(s, key, lo, hi) + failures
  {
    var r, a, f := Redirected(h, s, key, lo, hi), AdmittedResponses(s, key, lo, hi), Safety.Failures(s, key, lo, hi);
    forall i ensures i in r <==> i in a || (h.failOpen && i in f) {
      if i in s.calls && Safety.Over(s.calls[i].phase) {
        Safety.ResponseOfCall(h, [], s.calls[i].phase);
      }
    }
  }

  /** In any interval of a window less the slowest return, a key is redirected at most once, plus once
      per failure reported in that interval when the handler fails open. */
  lemma ResponsesAreBounded(cfg: Config, h: Handlers.Config, s: State, key: Key, slow: Time, lo: Time, hi: Time)
    requires cfg.Valid() && Reachable(cfg, s) && Prompt(s, key, slow) && hi <= lo + cfg.window - slow
    ensures |Redirected(h, s, key, lo, hi)| <= 1 + if h.failOpen then |Safety.Failures(s, key, lo, hi)| else 0
  {
    AtMostOneResponse(cfg, s, key, slow, lo, hi);
    RedirectedSplits(h, s, key, lo, hi);
    Safety.UnionIsNoLarger(AdmittedResponses(s, key, lo, hi), if h.failOpen then Safety.Failures(s, key, lo, hi) else {});
  }
}
