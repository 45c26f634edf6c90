/** Safety over every run: what a refusal, an admission and a burst of calls guarantee. */
module Safety {
  import opened Expiry
  import opened Protocol
  import opened Invariant
  import Handlers
  import Stores

  // ---------------------------------------------------------------- refusals

  /** Every refusal has an arming of its key behind it, less than two windows and the lag before
      the clock sample that decided it, or no more than one window if the backend refused. When no
      time passes between sample and lookup the arming precedes the sample. */
  lemma RefusalsAreJustified(cfg: Config, s: State, i: Id)
    requires cfg.Valid() && Reachable(cfg, s) && i in s.calls && s.calls[i].phase.Refused?
    ensures var p := s.calls[i].phase;
            && p.source in s.arms && SameKey(s, p.source, i) && p.source != i
            && s.arms[p.source] <= p.seen && p.sample <= p.seen <= s.clock
            && p.sample < s.arms[p.source] + 2 * cfg.window + cfg.lag
            && (p.sample == p.seen || !p.hit ==> s.arms[p.source] <= p.sample)
            && (!p.hit ==> p.sample <= s.arms[p.source] + cfg.window)
  {
    ReachableInv(cfg, s);
    assert CallOk(cfg, s, i);
  }

  // ---------------------------------------------------------------- admissions

  lemma AdmissionsApart(cfg: Config, s: State, i: Id, j: Id)
    requires Inv(cfg, s) && SameKey(s, i, j)
    requires s.calls[i].phase.Admitted? && (s.calls[j].phase.Admitted? || j in s.arms)
    ensures i in s.arms && s.arms[i] == s.calls[i].phase.commit
    ensures j in s.arms && (s.calls[j].phase.Admitted? ==> s.arms[j] == s.calls[j].phase.commit)
    ensures i == j || s.arms[i] + cfg.window < s.arms[j] || s.arms[j] + cfg.window < s.arms[i]
  {
  }

  /** Two admissions of one key, on whatever instances, commit strictly more than a window apart;
      so do an admission and a write that a failed call left behind. */
  lemma AdmissionsExclude(cfg: Config, s: State, i: Id, j: Id)
    requires cfg.Valid() && Reachable(cfg, s) && i != j && SameKey(s, i, j)
    requires s.calls[i].phase.Admitted? && (s.calls[j].phase.Admitted? || j in s.arms)
    ensures i in s.arms && s.arms[i] == s.calls[i].phase.commit
    ensures j in s.arms && (s.calls[j].phase.Admitted? ==> s.arms[j] == s.calls[j].phase.commit)
    ensures s.arms[i] + cfg.window < s.arms[j] || s.arms[j] + cfg.window < s.arms[i]
  {
    ReachableInv(cfg, s);
    AdmissionsApart(cfg, s, i, j);
  }

  /** No false negatives at the backend: for a whole window after an arming, even one left behind by
      a call that reported an error, every backend answer on the key is "duplicate". */
  lemma ArmedKeyIsRefused(cfg: Config, s: State, j: Id, id: Id)
    requires cfg.Valid() && Reachable(cfg, s) && j in s.arms && SameKey(s, j, id) && s.calls[id].phase.Missed?
    requires s.clock <= s.arms[j] + cfg.window
    ensures Next(cfg, s, id, Ask).dup && Memory(cfg, s, id, Ask).backend == s.backend
  {
    ReachableInv(cfg, s);
    assert Armed(cfg, s, j);
  }

  /** A backend write blocks its key for a full window in every continuation, whether the call that
      made it was admitted or reported an error. */
  lemma WriteBlocksForAWindow(cfg: Config, s: State, id: Id, action: Action, run: seq<Step>, u: State, j: Id)
    requires cfg.Valid() && Reachable(cfg, s) && Enabled(cfg, s, Act(id, action)) && Commits(action)
    requires !Stores.Present(s.backend, s.calls[id].key, s.clock)
    requires IsRun(cfg, Apply(cfg, s, Act(id, action)), run) && u == After(cfg, Apply(cfg, s, Act(id, action)), run)
    requires j in u.calls && u.calls[j].key == s.calls[id].key && u.calls[j].phase.Missed?
    requires u.clock <= s.clock + cfg.window
    ensures Next(cfg, u, j, Ask).dup
  {
    var s' := Apply(cfg, s, Act(id, action));
    ReachableInv(cfg, s);
    StepKeepsInv(cfg, s, Act(id, action));
    RunKeepsInv(cfg, s', run);
    assert id in Commit(cfg, s, id).arms && s'.arms[id] == s.clock;
    assert SlotOf(u.calls[id]) == SlotOf(s'.calls[id]) && Armed(cfg, u, id);
  }

  lemma Member<T>(m: set<T>) returns (x: T)
    requires |m| > 0
    ensures x in m
  {
    assert m != {};
    x :| x in m;
  }

  function Admissions(s: State, key: Key, lo: Time, hi: Time): set<Id> {
    set i | i in s.calls && s.calls[i].key == key && s.calls[i].phase.Admitted? && lo <= s.calls[i].phase.commit <= hi
  }

  function Failures(s: State, key: Key, lo: Time, hi: Time): set<Id> {
    set i | i in s.calls && s.calls[i].key == key && s.calls[i].phase.Failed? && lo <= s.calls[i].phase.at <= hi
  }

  predicate Over(p: Phase) {
    p.Admitted? || p.Refused? || p.Failed?
  }

  /** The store's reply as the handler sees it. */
  function ReplyOf(p: Phase): Stores.Reply {
    if p.Admitted? then Stores.Answer(false) else if p.Refused? then Stores.Answer(true) else Stores.Unavailable
  }

  /** The instant that decided a finished call. */
  function DecidedAt(p: Phase): Time
    requires Over(p)
  {
    if p.Admitted? then p.commit else if p.Refused? then p.sample else p.at
  }

  ghost predicate SameAnswer(p: Phase, q: Phase) {
    Over(p) ==> Over(q) && ReplyOf(q) == ReplyOf(p) && DecidedAt(q) == DecidedAt(p)
  }

  lemma AnswerKept(cfg: Config, s: State, step: Step, i: Id)
    requires Enabled(cfg, s, step) && i in s.calls
    ensures i in Apply(cfg, s, step).calls && SameAnswer(s.calls[i].phase, Apply(cfg, s, step).calls[i].phase)
  {
    match step
    case Act(id, action) =>
      if !action.Store? {
        MemoryFrame(cfg, s, id, action);
      }
    case SweepShard(inst) => AdvanceFields(Drop(s, Swept(s, inst)), inst);
    case _ =>
  }

  /** A finished call keeps its answer and the instant that decided it in every continuation, even
      if its failed write arrives late. */
  lemma {:induction false} AnswersAreFinal(cfg: Config, s: State, run: seq<Step>, i: Id)
    requires IsRun(cfg, s, run) && i in s.calls && Over(s.calls[i].phase)
    ensures i in After(cfg, s, run).calls && SameAnswer(s.calls[i].phase, After(cfg, s, run).calls[i].phase)
    decreases |run|
  {
    if run != [] {
      AnswerKept(cfg, s, run[0], i);
      AnswersAreFinal(cfg, Apply(cfg, s, run[0]), run[1..], i);
    }
  }

  /** The calls on `key` decided in the interval that the handler answers with a redirect. */
  function Redirects(h: Handlers.Config, s: State, key: Key, lo: Time, hi: Time): set<Id> {
    set i | i in s.calls && s.calls[i].key == key && Over(s.calls[i].phase) && lo <= DecidedAt(s.calls[i].phase) <= hi
            && Handlers.Respond(h, [], ReplyOf(s.calls[i].phase)).Redirect?
  }

  lemma AtMostOneAdmission(cfg: Config, s: State, key: Key, lo: Time, hi: Time)
    requires cfg.Valid() && Reachable(cfg, s) && hi <= lo + cfg.window
    ensures |Admissions(s, key, lo, hi)| <= 1
  {
    var a := Admissions(s, key, lo, hi);
    if |a| > 0 {
      var i := Member(a);
      forall j | j in a ensures j == i {
        if j != i {
          AdmissionsExclude(cfg, s, i, j);
        }
      }
      assert a == {i};
    }
  }

  /** End to end: in any closed interval of one window a key is redirected at most once, plus once
      per failure on it in that interval when the handler fails open. */
  lemma RedirectsAreBounded(cfg: Config, h: Handlers.Config, s: State, key: Key, lo: Time, hi: Time)
    requires cfg.Valid() && Reachable(cfg, s) && hi <= lo + cfg.window
    ensures |Redirects(h, s, key, lo, hi)| <= 1 + if h.failOpen then |Failures(s, key, lo, hi)| else 0
  {
    AtMostOneAdmission(cfg, s, key, lo, hi);
    RedirectsSplit(h, s, key, lo, hi);
    UnionIsNoLarger(Admissions(s, key, lo, hi), if h.failOpen then Failures(s, key, lo, hi) else {});
  }

  lemma RedirectsSplit(h: Handlers.Config, s: State, key: Key, lo: Time, hi: Time)
    ensures Redirects(h, s, key, lo, hi) == Admissions(s, key, lo, hi) + if h.failOpen then Failures(s, key, lo, hi) else {}
  {
    var r, a, f := Redirects(h, s, key, lo, hi), Admissions(s, key, lo, hi), Failures(s, key, lo, hi);
    forall i ensures i in r <==> i in a || (h.failOpen && i in f) {
      if i in s.calls && Over(s.calls[i].phase) {
        ResponseOfCall(h, [], s.calls[i].phase);
      }
    }
  }

  lemma UnionIsNoLarger<T>(a: set<T>, b: set<T>)
    ensures |a + b| <= |a| + |b|
  {
    assert a + b == a + (b - a);
  }

  /** What the handler sends for a finished call: a refusal is a 409 and nothing else is, an admission a
      redirect to the prefixed target, a failure what the flag selects. */
  lemma ResponseOfCall(h: Handlers.Config, uri: Handlers.Bytes, p: Phase)
    requires Over(p)
    ensures p.Refused? <==> Handlers.Respond(h, uri, ReplyOf(p)) == Handlers.Conflict
    ensures p.Admitted? ==> Handlers.Respond(h, uri, ReplyOf(p)) == Handlers.Redirect(h.prefix + uri)
    ensures p.Failed? ==> Handlers.Respond(h, uri, ReplyOf(p)) ==
                          if h.failOpen then Handlers.Redirect(h.prefix + uri) else Handlers.ServerError
  {
  }

  // ---------------------------------------------------------------- fan-out

  predicate Settled(p: Phase) {
    p.Admitted? || p.Refused? || (p.Failed? && !p.pending)
  }

  /** Nothing about `key` is live or under way. */
  ghost predicate Idle(s: State, key: Key) {
    && !Stores.Present(s.backend, key, s.clock)
    && (forall t :: t in s.l1 && t.key == key ==> s.l1[t] <= s.clock)
    && (forall i :: i in s.calls && s.calls[i].key == key ==> Settled(s.calls[i].phase))
  }

  ghost predicate IsNew(s0: State, s: State, key: Key, i: Id) {
    i in s.calls && i !in s0.calls && s.calls[i].key == key
  }

  /** Before an answer, and with a clock sample no older than the starting point. */
  predicate Fresh(from: Time, p: Phase) {
    p.Invoked? || (p.Sampled? && from <= p.now) || (p.Stale? && from <= p.now) || p.Missed? || p.Failed?
  }

  ghost predicate OldSettled(s0: State, s: State, key: Key) {
    forall i :: i in s.calls && i in s0.calls && s.calls[i].key == key ==> Settled(s.calls[i].phase)
  }

  /** No call invoked since `s0` has armed the key. */
  ghost predicate Untouched(s0: State, s: State, key: Key) {
    forall i :: i in s.arms ==> !IsNew(s0, s, key, i)
  }

  /** Until some new call arms the key, no entry of it is live anywhere and no new call is answered. */
  ghost predicate Dormant(s0: State, s: State, key: Key) {
    && (key in s.backend ==> s.backend[key] < s0.clock)
    && (forall t :: t in s.l1 && t.key == key ==> s.l1[t] <= s0.clock)
    && (forall i :: IsNew(s0, s, key, i) ==> Fresh(s0.clock, s.calls[i].phase))
  }

  ghost predicate Burst(s0: State, s: State, key: Key) {
    s0.clock <= s.clock && OldSettled(s0, s, key) && (Untouched(s0, s, key) ==> Dormant(s0, s, key))
  }

  lemma SettledIsFinal(cfg: Config, s: State, id: Id, action: Action)
    requires Enabled(cfg, s, Act(id, action))
    ensures !Settled(s.calls[id].phase)
  {
  }

  lemma BurstAct(cfg: Config, s0: State, s: State, key: Key, id: Id, action: Action)
    requires cfg.Valid() && Inv(cfg, s) && Burst(s0, s, key) && Enabled(cfg, s, Act(id, action))
    ensures Burst(s0, Apply(cfg, s, Act(id, action)), key)
  {
    SettledIsFinal(cfg, s, id, action);
    MemoryExtends(cfg, s, id, action);
    if Untouched(s0, Apply(cfg, s, Act(id, action)), key) {
      UntouchedBefore(cfg, s0, s, key, id, action);
      DormantAct(cfg, s0, s, key, id, action);
    }
  }

  lemma UntouchedBefore(cfg: Config, s0: State, s: State, key: Key, id: Id, action: Action)
    requires CallsOk(cfg, s) && Enabled(cfg, s, Act(id, action)) && Untouched(s0, Apply(cfg, s, Act(id, action)), key)
    ensures Untouched(s0, s, key)
  {
    var s' := Apply(cfg, s, Act(id, action));
    MemoryExtends(cfg, s, id, action);
    forall i | i in s.arms ensures !IsNew(s0, s, key, i) {
      assert i in s'.arms && !IsNew(s0, s', key, i);
    }
  }

  /** An action after which the key is still unarmed leaves it dormant. */
  lemma DormantAct(cfg: Config, s0: State, s: State, key: Key, id: Id, action: Action)
    requires Dormant(s0, s, key) && s0.clock <= s.clock && OldSettled(s0, s, key)
    requires Enabled(cfg, s, Act(id, action)) && Untouched(s0, Apply(cfg, s, Act(id, action)), key)
    ensures Dormant(s0, Apply(cfg, s, Act(id, action)), key)
  {
    SettledIsFinal(cfg, s, id, action);
    if s.calls[id].key != key {
      BurstBystander(cfg, s0, s, key, id, action);
    } else {
      NewActor(cfg, s0, s, id, action);
      BurstActor(cfg, s0, s, id, action);
    }
  }

  /** A call that moves on an unarmed key is new and does not commit. */
  lemma NewActor(cfg: Config, s0: State, s: State, id: Id, action: Action)
    requires Enabled(cfg, s, Act(id, action)) && !Settled(s.calls[id].phase)
    requires Dormant(s0, s, s.calls[id].key) && s0.clock <= s.clock && OldSettled(s0, s, s.calls[id].key)
    requires Untouched(s0, Apply(cfg, s, Act(id, action)), s.calls[id].key)
    ensures IsNew(s0, s, s.calls[id].key, id) && !Commits(action)
  {
    assert IsNew(s0, Apply(cfg, s, Act(id, action)), s.calls[id].key, id);
    if Commits(action) {
      CommitArms(cfg, s0, s, id, action);
    }
  }

  /** Whatever a call does, it does to its own key. */
  lemma OtherKeysKept(cfg: Config, s: State, id: Id, action: Action, key: Key)
    requires Enabled(cfg, s, Act(id, action)) && s.calls[id].key != key
    ensures var m := Memory(cfg, s, id, action);
            && m.calls == s.calls
            && (key in m.backend ==> key in s.backend && m.backend[key] == s.backend[key])
            && (forall t :: t in m.l1 && t.key == key ==> t in s.l1 && m.l1[t] == s.l1[t])
  {
  }

  /** A call on another key leaves the key dormant. */
  lemma BurstBystander(cfg: Config, s0: State, s: State, key: Key, id: Id, action: Action)
    requires Dormant(s0, s, key) && Enabled(cfg, s, Act(id, action)) && s.calls[id].key != key
    ensures Dormant(s0, Apply(cfg, s, Act(id, action)), key)
  {
    OtherKeysKept(cfg, s, id, action, key);
    DormantGoto(s0, s, Memory(cfg, s, id, action), key, id, Next(cfg, s, id, action));
  }

  lemma DormantGoto(s0: State, s: State, m: State, key: Key, id: Id, p: Phase)
    requires Dormant(s0, s, key) && id in s.calls && s.calls[id].key != key && m.calls == s.calls
    requires key in m.backend ==> key in s.backend && m.backend[key] == s.backend[key]
    requires forall t :: t in m.l1 && t.key == key ==> t in s.l1 && m.l1[t] == s.l1[t]
    ensures Dormant(s0, Goto(m, id, p), key)
  {
  }

  predicate Commits(action: Action) {
    action.Ask? || action.Lose? || action.Late?
  }

  lemma CommitArms(cfg: Config, s0: State, s: State, id: Id, action: Action)
    requires Enabled(cfg, s, Act(id, action)) && Commits(action) && s0.clock <= s.clock
    requires Dormant(s0, s, s.calls[id].key)
    ensures id in Apply(cfg, s, Act(id, action)).arms
  {
  }

  /** A new call on the key cannot be answered before it arms the key itself. */
  lemma BurstActor(cfg: Config, s0: State, s: State, id: Id, action: Action)
    requires Enabled(cfg, s, Act(id, action)) && Dormant(s0, s, s.calls[id].key) && s0.clock <= s.clock
    requires IsNew(s0, s, s.calls[id].key, id) && !Commits(action)
    ensures Dormant(s0, Apply(cfg, s, Act(id, action)), s.calls[id].key)
  {
    var m, p, key := Memory(cfg, s, id, action), Next(cfg, s, id, action), s.calls[id].key;
    assert Fresh(s0.clock, s.calls[id].phase);
    NextStaysFresh(cfg, s0, s, id, action);
    MemoryFrame(cfg, s, id, action);
    BackendKept(cfg, s, id, action);
    var s' := Goto(m, id, p);
    forall i | IsNew(s0, s', key, i) ensures Fresh(s0.clock, s'.calls[i].phase) {
      if i != id { assert IsNew(s0, s, key, i); }
    }
  }

  lemma BackendKept(cfg: Config, s: State, id: Id, action: Action)
    requires Enabled(cfg, s, Act(id, action)) && !Commits(action)
    ensures Memory(cfg, s, id, action).backend == s.backend
  {
  }

  lemma NextStaysFresh(cfg: Config, s0: State, s: State, id: Id, action: Action)
    requires Enabled(cfg, s, Act(id, action)) && Dormant(s0, s, s.calls[id].key) && s0.clock <= s.clock
    requires Fresh(s0.clock, s.calls[id].phase) && !Commits(action)
    ensures Fresh(s0.clock, Next(cfg, s, id, action))
  {
  }

  lemma BurstStep(cfg: Config, s0: State, s: State, key: Key, step: Step)
    requires cfg.Valid() && Inv(cfg, s) && Extends(s0, s) && Burst(s0, s, key) && Enabled(cfg, s, step)
    ensures Burst(s0, Apply(cfg, s, step), key)
  {
    var s' := Apply(cfg, s, step);
    match step
    case Act(id, action) => BurstAct(cfg, s0, s, key, id, action);
    case Invoke(id, inst, k) =>
      assert forall i :: i in s.calls ==> s'.calls[i] == s.calls[i];
      assert id !in s0.calls;
      if Untouched(s0, s', key) {
        forall i | i in s.arms ensures !IsNew(s0, s, key, i) { assert !IsNew(s0, s', key, i); }
        forall i | IsNew(s0, s', key, i) ensures Fresh(s0.clock, s'.calls[i].phase) {
          if i != id { assert IsNew(s0, s, key, i); }
        }
      }
    case Tick(_) => BurstFrame(s0, s, s', key);
    case SweepStart(_) => BurstFrame(s0, s, s', key);
    case SweepShard(inst) =>
      AdvanceFields(Drop(s, Swept(s, inst)), inst);
      BurstFrame(s0, s, s', key);
  }

  lemma BurstFrame(s0: State, s: State, s': State, key: Key)
    requires Burst(s0, s, key) && s.clock <= s'.clock && s'.calls == s.calls && s'.arms == s.arms && s'.backend == s.backend
    requires forall t :: t in s'.l1 ==> t in s.l1 && s'.l1[t] == s.l1[t]
    ensures Burst(s0, s', key)
  {
  }

  lemma {:induction false} BurstRun(cfg: Config, s0: State, s: State, key: Key, run: seq<Step>)
    requires cfg.Valid() && Inv(cfg, s) && Extends(s0, s) && Burst(s0, s, key) && IsRun(cfg, s, run)
    ensures Burst(s0, After(cfg, s, run), key)
    decreases |run|
  {
    if run != [] {
      BurstStep(cfg, s0, s, key, run[0]);
      StepKeepsInv(cfg, s, run[0]);
      ExtendsTransitive(s0, s, Apply(cfg, s, run[0]));
      BurstRun(cfg, s0, Apply(cfg, s, run[0]), key, run[1..]);
    }
  }

  function NewCalls(s0: State, s: State, key: Key): set<Id> {
    set i | i in s.calls && i !in s0.calls && s.calls[i].key == key
  }

  function NewAdmissions(s0: State, s: State, key: Key): set<Id> {
    set i | i in NewCalls(s0, s, key) && s.calls[i].phase.Admitted?
  }

  /** Once some new call has an answer, some new call has armed the key. */
  lemma SomeNewCallArmed(s0: State, s: State, key: Key, c: Id)
    requires Burst(s0, s, key) && IsNew(s0, s, key, c) && (s.calls[c].phase.Admitted? || s.calls[c].phase.Refused?)
    ensures exists i :: i in s.arms && IsNew(s0, s, key, i)
  {
  }

  predicate WithinAWindow(cfg: Config, s: State, calls: set<Id>)
    requires forall i :: i in calls ==> i in s.calls && s.calls[i].phase.Admitted?
  {
    forall i, j :: i in calls && j in calls ==> s.calls[i].phase.commit <= s.calls[j].phase.commit + cfg.window
  }

  /** Fan-out: of any positive number of overlapping error-free calls on an idle key, over any
      instances, whose commits fall within a window of each other, exactly one is admitted. */
  lemma ExactlyOneIsAdmitted(cfg: Config, s0: State, run: seq<Step>, s: State, key: Key)
    requires cfg.Valid() && Reachable(cfg, s0) && Idle(s0, key) && IsRun(cfg, s0, run) && s == After(cfg, s0, run)
    requires |NewCalls(s0, s, key)| > 0
    requires forall i :: i in NewCalls(s0, s, key) ==> s.calls[i].phase.Admitted? || s.calls[i].phase.Refused?
    requires WithinAWindow(cfg, s, NewAdmissions(s0, s, key))
    ensures |NewAdmissions(s0, s, key)| == 1
  {
    ReachableInv(cfg, s0);
    BurstRun(cfg, s0, s0, key, run);
    RunKeepsInv(cfg, s0, run);
    var c := Member(NewCalls(s0, s, key));
    SomeNewCallArmed(s0, s, key, c);
    var i :| i in s.arms && IsNew(s0, s, key, i);
    assert i in NewCalls(s0, s, key);
    TheArmingCallIsAlone(cfg, s0, s, key, i);
  }

  lemma TheArmingCallIsAlone(cfg: Config, s0: State, s: State, key: Key, i: Id)
    requires Inv(cfg, s) && i in s.arms && i in NewCalls(s0, s, key)
    requires s.calls[i].phase.Admitted? || s.calls[i].phase.Refused?
    requires WithinAWindow(cfg, s, NewAdmissions(s0, s, key))
    ensures NewAdmissions(s0, s, key) == {i}
  {
    var a := NewAdmissions(s0, s, key);
    assert CallOk(cfg, s, i);
    assert i in a;
    forall j | j in a ensures j == i {
      AdmissionsApart(cfg, s, i, j);
    }
  }

  /** And so exactly one of them is redirected, to its prefixed target, and all others get a 409. */
  lemma BurstIsAnswered(cfg: Config, h: Handlers.Config, uri: Handlers.Bytes, s0: State, run: seq<Step>, s: State, key: Key)
    returns (winner: Id)
    requires cfg.Valid() && Reachable(cfg, s0) && Idle(s0, key) && IsRun(cfg, s0, run) && s == After(cfg, s0, run)
    requires |NewCalls(s0, s, key)| > 0
    requires forall i :: i in NewCalls(s0, s, key) ==> s.calls[i].phase.Admitted? || s.calls[i].phase.Refused?
    requires WithinAWindow(cfg, s, NewAdmissions(s0, s, key))
    ensures winner in NewCalls(s0, s, key)
    ensures Handlers.Respond(h, uri, ReplyOf(s.calls[winner].phase)) == Handlers.Redirect(h.prefix + uri)
    ensures forall i :: i in NewCalls(s0, s, key) && i != winner ==>
                          Handlers.Respond(h, uri, ReplyOf(s.calls[i].phase)) == Handlers.Conflict
  {
    ExactlyOneIsAdmitted(cfg, s0, run, s, key);
    winner := Member(NewAdmissions(s0, s, key));
    OnlyMember(NewAdmissions(s0, s, key), winner);
    ResponseOfCall(h, uri, s.calls[winner].phase);
    forall i | i in NewCalls(s0, s, key) && i != winner
      ensures Handlers.Respond(h, uri, ReplyOf(s.calls[i].phase)) == Handlers.Conflict
    {
      assert i !in NewAdmissions(s0, s, key);
      ResponseOfCall(h, uri, s.calls[i].phase);
    }
  }

  lemma OnlyMember<T>(m: set<T>, x: T)
    requires |m| == 1 && x in m
    ensures m == {x}
  {
    assert |m - {x}| == 0;
  }
}
