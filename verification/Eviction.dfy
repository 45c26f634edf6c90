/** Sequential histories of one cache: sweeping and lazy eviction are unobservable. */
module Eviction {
  import opened Expiry

  datatype Op =
    | Put(key: Key, ttl: Time, at: Time)
    | Look(key: Key, at: Time, again: Time)  // the second sample is taken under the write lock
    | Sweep(at: Time)

  function Apply(m: Table, op: Op): Table {
    match op
    case Put(k, ttl, at) => m[k := at + ttl]
    case Look(k, at, again) => AfterLookup(m, k, at, again)
    case Sweep(at) => Live(m, at)
  }

  /** The same history in a table from which nothing is ever removed. */
  function Remember(m: Table, op: Op): Table {
    if op.Put? then m[op.key := op.at + op.ttl] else m
  }

  /** The last clock reading of an operation. */
  function End(op: Op): Time {
    if op.Look? then op.again else op.at
  }

  ghost predicate Chronological(ops: seq<Op>) {
    && (forall i :: 0 <= i < |ops| ==> ops[i].at <= End(ops[i]))
    && (forall i, j :: 0 <= i < j < |ops| ==> End(ops[i]) <= ops[j].at)
  }

  /** The answers of the lookups, in order. */
  function Answers(m: Table, ops: seq<Op>): seq<bool>
    decreases |ops|
  {
    if ops == [] then []
    else (if ops[0].Look? then [Hit(m, ops[0].key, ops[0].at)] else []) + Answers(Apply(m, ops[0]), ops[1..])
  }

  function AnswersWithoutEviction(m: Table, ops: seq<Op>): seq<bool>
    decreases |ops|
  {
    if ops == [] then []
    else (if ops[0].Look? then [Hit(m, ops[0].key, ops[0].at)] else [])
         + AnswersWithoutEviction(Remember(m, ops[0]), ops[1..])
  }

  /** `m` may lack only entries of `full` that are already expired at `from`. */
  ghost predicate Trimmed(m: Table, full: Table, from: Time) {
    && (forall k :: k in m ==> k in full && m[k] == full[k])
    && (forall k :: k in full && k !in m ==> full[k] <= from)
  }

  /** In every chronological history, sweeping and lazy eviction change no lookup's answer. */
  lemma {:induction false} EvictionIsUnobservable(m: Table, full: Table, from: Time, ops: seq<Op>)
    requires Chronological(ops) && (ops != [] ==> from <= ops[0].at)
    requires Trimmed(m, full, from)
    ensures Answers(m, ops) == AnswersWithoutEviction(full, ops)
    decreases |ops|
  {
    if ops != [] {
      var op := ops[0];
      EvictionIsUnobservable(Apply(m, op), Remember(full, op), End(op), ops[1..]);
    }
  }
}
