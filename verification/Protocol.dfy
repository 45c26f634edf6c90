/** The deduplication engine as a timed transition system.

    Any number of instances, each with its own L1, share one backend. Every call advances through
    the phases between which the code holds no lock, so calls, sweeps and the clock interleave
    freely; a run is any sequence of enabled steps. The last five fields of the state are history:
    they decide no branch and only record where entries and answers came from. */
module Protocol {
  import opened Expiry
  import Stores
  import Fnv1a

  type Inst = int
  type Id = int

  /** `lag` bounds the time between a backend reply and the L1 expiry sample of the same call. */
  datatype Config = Config(window: Time, lag: Time) {
    predicate Valid() {
      window > 0 && lag >= 0
    }
  }

  datatype Slot = Slot(inst: Inst, key: Key)

  datatype Phase =
    | Invoked
    | Sampled(now: Time)                                                  // Contains has read the clock
    | Stale(now: Time)                                                    // it found an expired entry
    | Missed                                                              // Contains returned false
    | Unanswered                                                          // the backend executed the call, its reply is lost
    | Replied(dup: bool, commit: Time, source: Id)                        // the backend answered
    | Stamped(dup: bool, commit: Time, source: Id, expiry: Time)          // Set has read the clock
    | Admitted(commit: Time)                                              // returned (false, nil)
    | Refused(sample: Time, seen: Time, source: Id, hit: bool)            // returned (true, nil)
    | Failed(at: Time, pending: bool)                                     // returned an error

  datatype Call = Call(inst: Inst, key: Key, phase: Phase)

  function SlotOf(c: Call): Slot {
    Slot(c.inst, c.key)
  }

  datatype Sweep = Sweep(now: Time, next: int)

  /** An L1 write, with the backend reply that caused it and the arming behind that reply. */
  datatype Write = Write(expiry: Time, at: Time, commit: Time, source: Id)

  datatype State = State(
    clock: Time,
    backend: Table,
    l1: map<Slot, Time>,
    calls: map<Id, Call>,
    sweeps: map<Inst, Sweep>,     // sweeps in progress
    arms: map<Id, Time>,          // calls that created a backend entry, and when
    holder: map<Key, Id>,         // the call behind the current backend entry
    wrote: map<Id, Write>,        // L1 writes by call
    writer: map<Slot, Id>,        // the last writer of each slot
    swept: map<Inst, Time>        // clock sample of the last complete sweep
  )

  const INITIAL := State(0, map[], map[], map[], map[], map[], map[], map[], map[], map[])

  /** What a call can do next, one lock region or clock reading at a time. */
  datatype Action =
    | Sample                                  // Contains reads the clock
    | Read                                    // Contains looks the key up
    | Evict                                   // Contains re-checks and deletes an expired entry
    | Ask                                     // the backend answers
    | Lose                                    // the backend executes the call but its reply is lost
    | Break(pending: bool)                    // the call reports an error; its write may still be under way
    | Late                                    // the write of a failed call reaches the backend after all
    | Stamp                                   // Set reads the clock
    | Store                                   // Set writes the entry and the call returns

  datatype Step =
    | Tick(d: nat)
    | Invoke(id: Id, inst: Inst, key: Key)
    | Act(id: Id, action: Action)
    | SweepStart(inst: Inst)
    | SweepShard(inst: Inst)

  predicate Ready(cfg: Config, s: State, p: Phase, action: Action) {
    match action
    case Sample => p.Invoked?
    case Read => p.Sampled?
    case Evict => p.Stale?
    case Ask => p.Missed?
    case Lose => p.Missed?
    case Break(pending) => p.Missed? || (p.Unanswered? && !pending)
    case Late => p.Failed? && p.pending
    case Stamp => p.Replied? && s.clock <= p.commit + cfg.lag
    case Store => p.Stamped?
  }

  predicate Enabled(cfg: Config, s: State, step: Step) {
    match step
    case Tick(_) => true
    case Invoke(id, _, _) => id !in s.calls
    case Act(id, action) => id in s.calls && Ready(cfg, s, s.calls[id].phase, action)
    case SweepStart(inst) => inst !in s.sweeps
    case SweepShard(inst) => inst in s.sweeps
  }

  function Goto(s: State, id: Id, p: Phase): State
    requires id in s.calls
  {
    s.(calls := s.calls[id := s.calls[id].(phase := p)])
  }

  /** The backend executes set-if-absent on behalf of `id`. */
  function Commit(cfg: Config, s: State, id: Id): State
    requires id in s.calls
  {
    var key := s.calls[id].key;
    if Stores.Present(s.backend, key, s.clock) then s
    else s.(backend := s.backend[key := s.clock + cfg.window],
            arms := s.arms[id := s.clock],
            holder := s.holder[key := id])
  }

  /** Removes L1 entries. */
  function Drop(s: State, slots: set<Slot>): State {
    s.(l1 := s.l1 - slots)
  }

  function Put(s: State, id: Id, expiry: Time, commit: Time, source: Id): State
    requires id in s.calls
  {
    var slot := SlotOf(s.calls[id]);
    s.(l1 := s.l1[slot := expiry],
       wrote := s.wrote[id := Write(expiry, s.clock, commit, source)],
       writer := s.writer[slot := id])
  }

  /** The arming behind the current backend entry of a key. */
  function HolderOf(s: State, key: Key, otherwise: Id): Id {
    if key in s.holder then s.holder[key] else otherwise
  }

  function SourceOf(s: State, slot: Slot, otherwise: Id): Id {
    if slot in s.writer && s.writer[slot] in s.wrote then s.wrote[s.writer[slot]].source else otherwise
  }

  /** The effect of an action on the shared tables. */
  function Memory(cfg: Config, s: State, id: Id, action: Action): State
    requires Enabled(cfg, s, Act(id, action))
  {
    var slot, p := SlotOf(s.calls[id]), s.calls[id].phase;
    match action
    case Evict => if slot in s.l1 && s.l1[slot] <= s.clock then Drop(s, {slot}) else s
    case Ask => Commit(cfg, s, id)
    case Lose => Commit(cfg, s, id)
    case Late => Commit(cfg, s, id)
    case Store => Put(s, id, p.expiry, p.commit, p.source)
    case _ => s
  }

  /** The phase an action leads to. */
  function Next(cfg: Config, s: State, id: Id, action: Action): Phase
    requires Enabled(cfg, s, Act(id, action))
  {
    var slot, p := SlotOf(s.calls[id]), s.calls[id].phase;
    match action
    case Sample => Sampled(s.clock)
    case Read =>
      if slot !in s.l1 then Missed
      else if s.l1[slot] <= p.now then Stale(p.now)
      else Refused(p.now, s.clock, SourceOf(s, slot, id), true)
    case Evict => Missed
    case Ask =>
      var dup := Stores.Present(s.backend, slot.key, s.clock);
      Replied(dup, s.clock, if dup then HolderOf(s, slot.key, id) else id)
    case Lose => Unanswered
    case Break(pending) => Failed(s.clock, pending)
    case Late => Failed(p.at, false)
    case Stamp => Stamped(p.dup, p.commit, p.source, s.clock + cfg.window)
    case Store => if p.dup then Refused(p.commit, p.commit, p.source, false) else Admitted(p.commit)
  }

  /** The entries one shard of a sweep removes. */
  function Swept(s: State, inst: Inst): set<Slot>
    requires inst in s.sweeps
  {
    set slot | slot in s.l1 && slot.inst == inst && HomeOf(slot.key) == s.sweeps[inst].next
               && s.l1[slot] <= s.sweeps[inst].now
  }

  /** The sweeper moves on to the next shard, or finishes. */
  function Advance(s: State, inst: Inst): State
    requires inst in s.sweeps
  {
    var w := s.sweeps[inst];
    var more := w.next + 1 < Fnv1a.SHARDS;
    s.(sweeps := if more then s.sweeps[inst := Sweep(w.now, w.next + 1)] else s.sweeps - {inst},
       swept := if more then s.swept else s.swept[inst := w.now])
  }

  function Apply(cfg: Config, s: State, step: Step): State
    requires Enabled(cfg, s, step)
  {
    match step
    case Tick(d) => s.(clock := s.clock + d)
    case Invoke(id, inst, key) => s.(calls := s.calls[id := Call(inst, key, Invoked)])
    case Act(id, action) => Goto(Memory(cfg, s, id, action), id, Next(cfg, s, id, action))
    case SweepStart(inst) => s.(sweeps := s.sweeps[inst := Sweep(s.clock, 0)])
    case SweepShard(inst) => Advance(Drop(s, Swept(s, inst)), inst)
  }

  // ---------------------------------------------------------------- runs

  predicate IsRun(cfg: Config, s: State, run: seq<Step>)
    decreases |run|
  {
    run == [] || (Enabled(cfg, s, run[0]) && IsRun(cfg, Apply(cfg, s, run[0]), run[1..]))
  }

  function After(cfg: Config, s: State, run: seq<Step>): State
    requires IsRun(cfg, s, run)
    decreases |run|
  {
    if run == [] then s else After(cfg, Apply(cfg, s, run[0]), run[1..])
  }

  ghost predicate Reaches(cfg: Config, s: State, t: State) {
    exists run :: IsRun(cfg, s, run) && After(cfg, s, run) == t
  }

  /** `s` is the outcome of some run of the whole system. */
  ghost predicate Reachable(cfg: Config, s: State) {
    Reaches(cfg, INITIAL, s)
  }

  lemma {:induction false} RunsCompose(cfg: Config, s: State, first: seq<Step>, second: seq<Step>)
    requires IsRun(cfg, s, first) && IsRun(cfg, After(cfg, s, first), second)
    ensures IsRun(cfg, s, first + second)
    ensures After(cfg, s, first + second) == After(cfg, After(cfg, s, first), second)
    decreases |first|
  {
    if first == [] {
      assert first + second == second;
    } else {
      assert (first + second)[1..] == first[1..] + second;
      RunsCompose(cfg, Apply(cfg, s, first[0]), first[1..], second);
    }
  }
}
