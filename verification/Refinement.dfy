/** Histories in which calls and sweeps on any number of instances follow one another, each call with
    its own instants and its own fault, and in which the write of a failed call may arrive late: when
    does the fleet of cached stores answer exactly like the bare backend? */
module Refinement {
  import opened Expiry
  import opened Stores
  import CachedStores

  type Inst = int
  type Samples = CachedStores.Samples

  datatype Event =
    | Query(id: int, inst: Inst, key: Key, t: Samples, fault: Fault)
    | Late(id: int, inst: Inst, key: Key, at: Time)    // the write of failed call `id` reaches the backend
    | Sweep(inst: Inst, at: Time)

  function Start(e: Event): Time {
    if e.Query? then e.t.read else e.at
  }

  function End(e: Event): Time {
    if e.Query? then e.t.stamp else e.at
  }

  /** The instants of a call follow each other, and each event ends before the next one starts. */
  ghost predicate Chronological(evs: seq<Event>) {
    && (forall i :: 0 <= i < |evs| && evs[i].Query? ==> CachedStores.Ordered(evs[i].t))
    && (forall i, j :: 0 <= i < j < |evs| ==> End(evs[i]) <= Start(evs[j]))
  }

  predicate IsQuery(evs: seq<Event>, i: int, k: Key) {
    0 <= i < |evs| && evs[i].Query? && evs[i].key == k
  }

  // ---------------------------------------------------------------- the bare backend

  /** The bare backend after the first `n` events. */
  function Bare(w: Time, evs: seq<Event>, n: nat): Table
    requires n <= |evs|
  {
    if n == 0 then map[]
    else
      var m, e := Bare(w, evs, n - 1), evs[n - 1];
      if Writes(e) then SetIfAbsent(m, e.key, w, Committed(e)) else m
  }

  /** The backend executes a set-if-absent. */
  predicate Writes(e: Event) {
    e.Late? || (e.Query? && !e.fault.RequestLost?)
  }

  function Committed(e: Event): Time
    requires Writes(e)
  {
    if e.Late? then e.at else e.t.commit
  }

  /** What the bare backend answers to query `n`. */
  function BareReply(w: Time, evs: seq<Event>, n: nat): Reply
    requires n < |evs| && evs[n].Query?
  {
    if evs[n].fault.NoFault? then Answer(Present(Bare(w, evs, n), evs[n].key, evs[n].t.commit)) else Unavailable
  }

  /** Event `i` creates the backend entry of `k`, whether or not its call gets to know. */
  predicate Arms(w: Time, evs: seq<Event>, i: int, k: Key) {
    && 0 <= i < |evs| && Writes(evs[i]) && evs[i].key == k
    && !Present(Bare(w, evs, i), k, Committed(evs[i]))
  }

  /** The entry of a key is its latest arming, plus the window. */
  lemma {:induction false} EntryIsLatestArming(w: Time, evs: seq<Event>, n: nat, k: Key)
    requires w > 0 && Chronological(evs) && n <= |evs|
    ensures k in Bare(w, evs, n) ==>
              exists i :: 0 <= i < n && Arms(w, evs, i, k) && Bare(w, evs, n)[k] == Committed(evs[i]) + w
    ensures forall i :: 0 <= i < n && Arms(w, evs, i, k) ==>
                          k in Bare(w, evs, n) && Committed(evs[i]) + w <= Bare(w, evs, n)[k]
  {
    if n > 0 {
      EntryIsLatestArming(w, evs, n - 1, k);
      if k in Bare(w, evs, n) && !Arms(w, evs, n - 1, k) {
        var i :| 0 <= i < n - 1 && Arms(w, evs, i, k) && Bare(w, evs, n - 1)[k] == Committed(evs[i]) + w;
        assert Bare(w, evs, n)[k] == Committed(evs[i]) + w;
      }
    }
  }

  /** What the store contract means over a history: a query finds its key taken exactly when an earlier
      event armed the key no more than a window ago. */
  lemma DuplicateIff(w: Time, evs: seq<Event>, n: nat)
    requires w > 0 && Chronological(evs) && n < |evs| && evs[n].Query?
    ensures Present(Bare(w, evs, n), evs[n].key, evs[n].t.commit) <==>
            exists i :: 0 <= i < n && Arms(w, evs, i, evs[n].key) && evs[n].t.commit <= Committed(evs[i]) + w
    ensures BareReply(w, evs, n).Unavailable? <==> !evs[n].fault.NoFault?
    ensures BareReply(w, evs, n).Answer? ==>
              (BareReply(w, evs, n).duplicate <==> Present(Bare(w, evs, n), evs[n].key, evs[n].t.commit))
  {
    EntryIsLatestArming(w, evs, n, evs[n].key);
  }

  // ---------------------------------------------------------------- the fleet

  /** One L1 per instance in front of the shared backend. */
  datatype Fleet = Fleet(l1: map<Inst, Table>, l2: Table) {
    /** What one instance sees; it starts with an empty L1. */
    function Tiers(inst: Inst): CachedStores.Tiers {
      CachedStores.Tiers(if inst in l1 then l1[inst] else map[], l2)
    }
  }

  /** What event `e` makes of the tiers of its instance. */
  function Step(w: Time, s: CachedStores.Tiers, e: Event): CachedStores.Tiers {
    match e
    case Query(_, _, key, t, fault) => CachedStores.Call(s, fault, key, w, t).tiers
    case Late(_, _, key, at) => CachedStores.Tiers(s.l1, SetIfAbsent(s.l2, key, w, at))
    case Sweep(_, at) => CachedStores.Tiers(Live(s.l1, at), s.l2)
  }

  /** The fleet after the first `n` events. */
  function Cached(w: Time, evs: seq<Event>, n: nat): Fleet
    requires n <= |evs|
  {
    if n == 0 then Fleet(map[], map[])
    else
      var f, e := Cached(w, evs, n - 1), evs[n - 1];
      var t := Step(w, f.Tiers(e.inst), e);
      Fleet(f.l1[e.inst := t.l1], t.l2)
  }

  /** What happened does not depend on what follows. */
  lemma {:induction false} CachedPrefix(w: Time, evs: seq<Event>, e: Event, n: nat)
    requires n <= |evs|
    ensures Cached(w, evs + [e], n) == Cached(w, evs, n)
  {
    if n > 0 {
      CachedPrefix(w, evs, e, n - 1);
    }
  }

  /** The fleet's outcome for query `n`. */
  function Outcome(w: Time, evs: seq<Event>, n: nat): CachedStores.Outcome
    requires n < |evs| && evs[n].Query?
  {
    CachedStores.Call(Cached(w, evs, n).Tiers(evs[n].inst), evs[n].fault, evs[n].key, w, evs[n].t)
  }

  /** Event `n` is a query that fleet and bare backend answer alike, or no query. */
  predicate Agree(w: Time, evs: seq<Event>, n: nat)
    requires n < |evs|
  {
    evs[n].Query? ==> Outcome(w, evs, n).reply == BareReply(w, evs, n)
  }

  // ---------------------------------------------------------------- refresh periods

  /** The last answered query of `k` on `inst`, among the first `n` events, that looked up outside the
      window its own predecessor of this kind had opened; -1 if there is none. It depends on that
      instance's queries, their instants and faults alone, not on what anybody was answered. */
  function Refresh(w: Time, evs: seq<Event>, n: nat, inst: Inst, k: Key): (i: int)
    requires n <= |evs|
    ensures -1 <= i < n && (i >= 0 ==> IsQuery(evs, i, k) && evs[i].inst == inst && evs[i].fault.NoFault?)
  {
    if n == 0 then -1
    else
      var i, e := Refresh(w, evs, n - 1, inst, k), evs[n - 1];
      if e.Query? && e.inst == inst && e.key == k && e.fault.NoFault? && (i < 0 || evs[i].t.stamp + w <= e.t.read)
      then n - 1 else i
  }

  /** The L1 entry of `k` on `inst` runs out a window after the last refresh, and is there until then. */
  ghost predicate Mirrors(w: Time, evs: seq<Event>, n: nat, inst: Inst, k: Key)
    requires n <= |evs|
  {
    var l1, i := Cached(w, evs, n).Tiers(inst).l1, Refresh(w, evs, n, inst, k);
    if i < 0 then k !in l1
    else if k in l1 then l1[k] == evs[i].t.stamp + w
    else evs[i].t.stamp + w <= End(evs[n - 1])
  }

  lemma {:induction false} L1MirrorsRefresh(w: Time, evs: seq<Event>, n: nat, inst: Inst, k: Key)
    requires w > 0 && Chronological(evs) && n <= |evs|
    ensures Mirrors(w, evs, n, inst, k)
  {
    if n > 0 {
      L1MirrorsRefresh(w, evs, n - 1, inst, k);
      MirrorStep(w, evs, n - 1, inst, k);
    }
  }

  lemma MirrorStep(w: Time, evs: seq<Event>, n: nat, inst: Inst, k: Key)
    requires w > 0 && Chronological(evs) && n < |evs| && Mirrors(w, evs, n, inst, k)
    ensures Mirrors(w, evs, n + 1, inst, k)
  {
  }

  /** Query `n` looks up inside the refresh period of its own instance. */
  predicate Covered(w: Time, evs: seq<Event>, n: nat)
    requires n < |evs|
  {
    evs[n].Query? &&
    var i := Refresh(w, evs, n, evs[n].inst, evs[n].key);
    i >= 0 && evs[n].t.read < evs[i].t.stamp + w
  }

  /** L1 answers exactly the queries inside their instance's own refresh period. */
  lemma HitIffCovered(w: Time, evs: seq<Event>, n: nat)
    requires w > 0 && Chronological(evs) && n < |evs| && evs[n].Query?
    ensures Outcome(w, evs, n).missed <==> !Covered(w, evs, n)
  {
    L1MirrorsRefresh(w, evs, n, evs[n].inst, evs[n].key);
  }

  // ---------------------------------------------------------------- the exact condition

  /** The backend would not answer "duplicate" to query `n`: the call fails, or the key is free. */
  predicate Unconfirmed(w: Time, evs: seq<Event>, n: nat)
    requires n < |evs| && evs[n].Query?
  {
    !evs[n].fault.NoFault? || !Present(Bare(w, evs, n), evs[n].key, evs[n].t.commit)
  }

  /** The instance's own refresh period outlives what the backend would confirm at query `n`. */
  predicate Overheld(w: Time, evs: seq<Event>, n: nat)
    requires n < |evs|
  {
    Covered(w, evs, n) && Unconfirmed(w, evs, n)
  }

  /** As long as nothing is overheld, the fleet's backend is the bare one. */
  lemma {:induction false} SameBackend(w: Time, evs: seq<Event>, n: nat)
    requires w > 0 && Chronological(evs) && n <= |evs| && forall m :: 0 <= m < n ==> !Overheld(w, evs, m)
    ensures Cached(w, evs, n).l2 == Bare(w, evs, n)
  {
    if n > 0 {
      SameBackend(w, evs, n - 1);
      AgreesNext(w, evs, n - 1);
    }
  }

  lemma AgreesNext(w: Time, evs: seq<Event>, n: nat)
    requires w > 0 && Chronological(evs) && n < |evs| && !Overheld(w, evs, n) && Cached(w, evs, n).l2 == Bare(w, evs, n)
    ensures Cached(w, evs, n + 1).l2 == Bare(w, evs, n + 1) && Agree(w, evs, n)
  {
    if evs[n].Query? {
      HitIffCovered(w, evs, n);
    }
  }

  /** Any number of instances, any delays and faults, sweeps anywhere: the answers are those of the bare
      backend if and only if no query looks up inside its instance's own refresh period when the
      backend would not confirm the duplicate. */
  lemma CachedRefinesBareIff(w: Time, evs: seq<Event>)
    requires w > 0 && Chronological(evs)
    ensures (forall n :: 0 <= n < |evs| ==> Agree(w, evs, n)) <==> (forall n :: 0 <= n < |evs| ==> !Overheld(w, evs, n))
  {
    if n :| 0 <= n < |evs| && Overheld(w, evs, n) {
      HitIffCovered(w, evs, n);
      assert !Agree(w, evs, n);
    } else {
      forall n | 0 <= n < |evs| ensures Agree(w, evs, n) {
        SameBackend(w, evs, n);
        AgreesNext(w, evs, n);
      }
    }
  }

  /** An answered query that takes no time. */
  function At(id: int, inst: Inst, k: Key, at: Time): Event {
    Query(id, inst, k, CachedStores.Once(at), NoFault)
  }

  /** The false positive of several instances: one arms the key at 0, another is told "duplicate" at `d`
      and refuses on its own until `d + w`, though the backend forgets the key after `w`. With
      `d == w` one instance suffices. */
  lemma FalsePositive(w: Time, k: Key, first: Inst, second: Inst, d: Time, t: Time)
    requires 0 < d <= w < t < d + w && (first != second || d == w)
    ensures var evs := [At(0, first, k, 0), At(1, second, k, d), At(2, second, k, t)];
            && Chronological(evs) && !Outcome(w, evs, 2).missed && Outcome(w, evs, 2).reply == Answer(true)
            && BareReply(w, evs, 2) == Answer(false)
            && !Present(Cached(w, evs, 3).l2, k, t)
  {
    var evs := [At(0, first, k, 0), At(1, second, k, d), At(2, second, k, t)];
    assert Bare(w, evs, 1) == map[k := w];
    assert Bare(w, evs, 2) == map[k := w];
    assert Refresh(w, evs, 1, second, k) == if first == second then 0 else -1;
    assert Refresh(w, evs, 2, second, k) == 1;
    HitIffCovered(w, evs, 2);
    SameBackend(w, evs, 2);
  }

  /** The false positive of a slow stamp: the only call before commits at 0 but reads the clock for L1
      at `d`, so its instance refuses until `d + w`. */
  lemma SlowStamp(w: Time, k: Key, inst: Inst, d: Time, t: Time)
    requires 0 < w < t < d + w && d <= t
    ensures var evs := [Query(0, inst, k, CachedStores.Samples(0, 0, 0, d), NoFault), At(1, inst, k, t)];
            && Chronological(evs) && !Outcome(w, evs, 1).missed && Outcome(w, evs, 1).reply == Answer(true)
            && BareReply(w, evs, 1) == Answer(false)
            && !Present(Cached(w, evs, 2).l2, k, t)
  {
    var evs := [Query(0, inst, k, CachedStores.Samples(0, 0, 0, d), NoFault), At(1, inst, k, t)];
    assert Bare(w, evs, 1) == map[k := w];
    assert Refresh(w, evs, 1, inst, k) == 0;
    HitIffCovered(w, evs, 1);
    SameBackend(w, evs, 1);
  }

  // ---------------------------------------------------------------- sticky routing

  /** Every key is always queried on the same instance, as in a deployment with a single one. */
  ghost predicate Sticky(evs: seq<Event>) {
    forall i, j :: 0 <= i < |evs| && 0 <= j < |evs| && evs[i].Query? && evs[j].Query? && evs[i].key == evs[j].key ==>
                     evs[i].inst == evs[j].inst
  }

  ghost predicate OnlyOn(evs: seq<Event>, inst: Inst, k: Key) {
    forall i :: IsQuery(evs, i, k) ==> evs[i].inst == inst
  }

  /** The backend entry of `k` was left by a call that reported an error: its reply was lost, or its
      write came late. */
  ghost predicate Orphaned(w: Time, evs: seq<Event>, n: nat, k: Key)
    requires n <= |evs|
  {
    exists m :: 0 <= m < n && WritesUnseen(evs[m], k) && k in Cached(w, evs, n).l2
                && Cached(w, evs, n).l2[k] == Committed(evs[m]) + w
  }

  predicate WritesUnseen(e: Event, k: Key) {
    Writes(e) && e.key == k && (e.Query? ==> e.fault.ReplyLost?)
  }

  /** The backend entry of a key queried on `inst` only does not outlive its refresh, unless orphaned. */
  ghost predicate Paired(w: Time, evs: seq<Event>, n: nat, inst: Inst, k: Key)
    requires n <= |evs|
  {
    var l2, i := Cached(w, evs, n).l2, Refresh(w, evs, n, inst, k);
    k in l2 ==> Orphaned(w, evs, n, k) || (i >= 0 && l2[k] <= evs[i].t.commit + w)
  }

  lemma {:induction false} EntryFollowsRefresh(w: Time, evs: seq<Event>, n: nat, inst: Inst, k: Key)
    requires w > 0 && Chronological(evs) && n <= |evs| && OnlyOn(evs, inst, k)
    ensures Paired(w, evs, n, inst, k)
  {
    if n > 0 {
      EntryFollowsRefresh(w, evs, n - 1, inst, k);
      PairedStep(w, evs, n - 1, inst, k);
    }
  }

  lemma PairedStep(w: Time, evs: seq<Event>, n: nat, inst: Inst, k: Key)
    requires w > 0 && Chronological(evs) && n < |evs| && OnlyOn(evs, inst, k) && Paired(w, evs, n, inst, k)
    ensures Paired(w, evs, n + 1, inst, k)
  {
    if IsQuery(evs, n, k) {
      HitIffCovered(w, evs, n);
      L2Changes(w, evs, n);
    }
    OrphanStays(w, evs, n, k);
  }

  /** A query writes the backend only if it misses L1 and reaches a free key. */
  lemma L2Changes(w: Time, evs: seq<Event>, n: nat)
    requires n < |evs| && evs[n].Query?
    ensures var e, l2 := evs[n], Cached(w, evs, n).l2;
            Cached(w, evs, n + 1).l2 ==
            if Outcome(w, evs, n).missed && !e.fault.RequestLost? then SetIfAbsent(l2, e.key, w, e.t.commit) else l2
  {
  }

  lemma OrphanStays(w: Time, evs: seq<Event>, n: nat, k: Key)
    requires n < |evs|
    ensures var a, b := Cached(w, evs, n).l2, Cached(w, evs, n + 1).l2;
            k in a && k in b && a[k] == b[k] && Orphaned(w, evs, n, k) ==> Orphaned(w, evs, n + 1, k)
  {
  }

  /** A query that falls through to the backend and is answered is an admission, except at an expiry
      instant, or while a key lives on that a call which reported an error had armed. */
  lemma BackendCallsAdmitIff(w: Time, evs: seq<Event>, n: nat)
    requires w > 0 && Chronological(evs) && Sticky(evs) && n < |evs| && evs[n].Query? && evs[n].fault.NoFault?
    requires Outcome(w, evs, n).missed
    ensures var l2, k, now := Cached(w, evs, n).l2, evs[n].key, evs[n].t.commit;
            Outcome(w, evs, n).reply == Answer(false) <==>
            !(k in l2 && (now == l2[k] || (now < l2[k] && Orphaned(w, evs, n, k))))
  {
    EntryFollowsRefresh(w, evs, n, evs[n].inst, evs[n].key);
    HitIffCovered(w, evs, n);
  }

  /** Query `i` refreshed L1, and query `j` looks up within a window of its stamp, but fails or reaches
      the backend after the entry that `i` found or left there, and no late write in between has armed
      the key again. */
  ghost predicate Slide(w: Time, evs: seq<Event>, i: int, j: int) {
    && 0 <= i < j < |evs| && evs[i].Query? && evs[i].fault.NoFault? && !Covered(w, evs, i)
    && IsQuery(evs, j, evs[i].key) && evs[j].t.read < evs[i].t.stamp + w
    && (!evs[j].fault.NoFault? ||
        (&& !Present(Bare(w, evs, i + 1), evs[i].key, evs[j].t.commit)
         && forall m :: LateArming(w, evs, i, m, j, evs[i].key) ==> evs[m].at + w < evs[j].t.commit))
  }

  /** A late write between events `i` and `n` creates the entry of `k`. */
  predicate LateArming(w: Time, evs: seq<Event>, i: int, m: int, n: int, k: Key) {
    i < m < n && Arms(w, evs, m, k) && evs[m].Late?
  }

  /** While no query is overheld, nothing touches the refresh at `i` until its period is over, and only
      late writes touch the key's entry. */
  lemma {:induction false} RefreshLasts(w: Time, evs: seq<Event>, i: nat, m: nat)
    requires w > 0 && Chronological(evs) && Sticky(evs) && i < m <= |evs|
    requires evs[i].Query? && evs[i].fault.NoFault? && !Covered(w, evs, i)
    requires m == i + 1 || Start(evs[m - 1]) < evs[i].t.stamp + w
    requires forall n :: i < n < m ==> !Overheld(w, evs, n)
    ensures Refresh(w, evs, m, evs[i].inst, evs[i].key) == i
    ensures var k := evs[i].key;
            && k in Bare(w, evs, i + 1) && k in Bare(w, evs, m) && Bare(w, evs, i + 1)[k] <= Bare(w, evs, m)[k]
            && (Bare(w, evs, m)[k] == Bare(w, evs, i + 1)[k] ||
                exists x :: LateArming(w, evs, i, x, m, k) && Bare(w, evs, m)[k] == evs[x].at + w)
    decreases m
  {
    if m > i + 1 {
      assert Start(evs[m - 2]) <= End(evs[m - 2]) <= Start(evs[m - 1]);
      RefreshLasts(w, evs, i, m - 1);
      assert !Overheld(w, evs, m - 1);
      OnlyLateArms(w, evs, i, m - 1);
      if x :| LateArming(w, evs, i, x, m - 1, evs[i].key) && Bare(w, evs, m - 1)[evs[i].key] == evs[x].at + w {
        assert LateArming(w, evs, i, x, m, evs[i].key);
      }
    }
  }

  /** Inside the refresh period of `i`, an event that arms the key is a late write, if nothing is overheld. */
  lemma OnlyLateArms(w: Time, evs: seq<Event>, i: nat, n: nat)
    requires w > 0 && Chronological(evs) && Sticky(evs) && i < n < |evs| && evs[i].Query?
    requires Refresh(w, evs, n, evs[i].inst, evs[i].key) == i && Start(evs[n]) < evs[i].t.stamp + w && !Overheld(w, evs, n)
    ensures Arms(w, evs, n, evs[i].key) ==> LateArming(w, evs, i, n, n + 1, evs[i].key)
    ensures Refresh(w, evs, n + 1, evs[i].inst, evs[i].key) == i
  {
  }

  lemma {:induction false} RefreshIsUncovered(w: Time, evs: seq<Event>, n: nat, inst: Inst, k: Key)
    requires n <= |evs| && Refresh(w, evs, n, inst, k) >= 0
    ensures !Covered(w, evs, Refresh(w, evs, n, inst, k))
  {
    if Refresh(w, evs, n, inst, k) < n - 1 {
      RefreshIsUncovered(w, evs, n - 1, inst, k);
    }
  }

  /** The first overheld query comes from a slide. */
  lemma OverheldIsSlide(w: Time, evs: seq<Event>, n: nat) returns (i: int)
    requires w > 0 && Chronological(evs) && Sticky(evs) && n < |evs| && Overheld(w, evs, n)
    requires forall m :: 0 <= m < n ==> !Overheld(w, evs, m)
    ensures Slide(w, evs, i, n)
  {
    i := Refresh(w, evs, n, evs[n].inst, evs[n].key);
    RefreshIsUncovered(w, evs, n, evs[n].inst, evs[n].key);
    assert End(evs[n - 1]) <= Start(evs[n]);
    RefreshLasts(w, evs, i, n);
    EntryIsLatestArming(w, evs, n, evs[n].key);
  }

  lemma SlideOverholds(w: Time, evs: seq<Event>, i: int, j: int)
    requires w > 0 && Chronological(evs) && Sticky(evs) && Slide(w, evs, i, j)
    ensures exists n :: 0 <= n < |evs| && Overheld(w, evs, n)
  {
    if forall n :: i < n < j ==> !Overheld(w, evs, n) {
      assert End(evs[j - 1]) <= Start(evs[j]);
      RefreshLasts(w, evs, i, j);
      assert Overheld(w, evs, j);
    }
  }

  lemma FirstOverheld(w: Time, evs: seq<Event>, n: nat) returns (m: nat)
    requires n < |evs| && Overheld(w, evs, n)
    ensures m < |evs| && Overheld(w, evs, m) && forall x :: 0 <= x < m ==> !Overheld(w, evs, x)
  {
    m := n;
    if x :| 0 <= x < n && Overheld(w, evs, x) {
      m := FirstOverheld(w, evs, x);
    }
  }

  /** With sticky routing the answers are those of the bare backend if and only if no query starts
      within a window of the stamp of a refresh and then fails, or reaches the backend only after
      the entry of that refresh, and of any late write since, has expired. */
  lemma StickyRefinesBareIff(w: Time, evs: seq<Event>)
    requires w > 0 && Chronological(evs) && Sticky(evs)
    ensures (forall n :: 0 <= n < |evs| ==> Agree(w, evs, n)) <==> (forall i, j :: !Slide(w, evs, i, j))
  {
    CachedRefinesBareIff(w, evs);
    if i, j :| Slide(w, evs, i, j) {
      SlideOverholds(w, evs, i, j);
    } else if n :| 0 <= n < |evs| && Overheld(w, evs, n) {
      var m := FirstOverheld(w, evs, n);
      var i := OverheldIsSlide(w, evs, m);
    }
  }

  // ---------------------------------------------------------------- calls that take no time

  /** No call takes time or fails. */
  ghost predicate Instant(evs: seq<Event>) {
    forall i :: 0 <= i < |evs| ==>
                  evs[i].Sweep? || (evs[i].Query? && evs[i] == At(evs[i].id, evs[i].inst, evs[i].key, evs[i].t.read))
  }

  /** Query `i` comes the very instant its backend entry expires, and query `j` within a window after. */
  ghost predicate AtExpiry(w: Time, evs: seq<Event>, i: int, j: int) {
    && 0 <= i < j < |evs| && evs[i].Query? && IsQuery(evs, j, evs[i].key)
    && evs[i].key in Bare(w, evs, i) && evs[i].t.commit == Bare(w, evs, i)[evs[i].key]
    && evs[i].t.commit < evs[j].t.commit < evs[i].t.commit + w
  }

  /** What a refresh leaves in the backend: a fresh entry, or one that expires as it looks. */
  lemma InstantRefresh(w: Time, evs: seq<Event>, i: nat)
    requires w > 0 && Chronological(evs) && Sticky(evs) && Instant(evs) && i < |evs| && evs[i].Query? && !Covered(w, evs, i)
    requires forall m :: 0 <= m < i ==> !Overheld(w, evs, m)
    ensures var k, at := evs[i].key, evs[i].t.commit;
            k in Bare(w, evs, i + 1) &&
            (Bare(w, evs, i + 1)[k] == at + w || (k in Bare(w, evs, i) && Bare(w, evs, i)[k] == Bare(w, evs, i + 1)[k] == at))
  {
    SameBackend(w, evs, i);
    HitIffCovered(w, evs, i);
    BackendCallsAdmitIff(w, evs, i);
  }

  lemma AtExpirySlides(w: Time, evs: seq<Event>, i: int, j: int) returns (r: int)
    requires w > 0 && Chronological(evs) && Sticky(evs) && Instant(evs) && AtExpiry(w, evs, i, j)
    requires forall m :: 0 <= m < |evs| ==> !Overheld(w, evs, m)
    ensures Slide(w, evs, r, j)
  {
    if Covered(w, evs, i) {
      r := Refresh(w, evs, i, evs[i].inst, evs[i].key);
      RefreshIsUncovered(w, evs, i, evs[i].inst, evs[i].key);
      assert End(evs[i - 1]) <= Start(evs[i]);
      RefreshLasts(w, evs, r, i);
      InstantRefresh(w, evs, r);
    } else {
      r := i;
      InstantRefresh(w, evs, i);
    }
  }

  lemma OverheldIsAtExpiry(w: Time, evs: seq<Event>, n: nat) returns (i: int)
    requires w > 0 && Chronological(evs) && Sticky(evs) && Instant(evs) && n < |evs| && Overheld(w, evs, n)
    requires forall m :: 0 <= m < n ==> !Overheld(w, evs, m)
    ensures AtExpiry(w, evs, i, n)
  {
    i := OverheldIsSlide(w, evs, n);
    InstantRefresh(w, evs, i);
  }

  /** If moreover calls take no time and never fail, only the expiry instant matters: the answers are
      those of the bare backend if and only if no key is queried at the instant its entry expires
      and again within a window. */
  lemma InstantRefinesBareIff(w: Time, evs: seq<Event>)
    requires w > 0 && Chronological(evs) && Sticky(evs) && Instant(evs)
    ensures (forall n :: 0 <= n < |evs| ==> Agree(w, evs, n)) <==> (forall i, j :: !AtExpiry(w, evs, i, j))
  {
    CachedRefinesBareIff(w, evs);
    if n :| 0 <= n < |evs| && Overheld(w, evs, n) {
      var m := FirstOverheld(w, evs, n);
      var i := OverheldIsAtExpiry(w, evs, m);
    } else if i, j :| AtExpiry(w, evs, i, j) {
      var r := AtExpirySlides(w, evs, i, j);
      SlideOverholds(w, evs, r, j);
    }
  }
}
