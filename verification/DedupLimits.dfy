/**
 What the limit does to whole runs of the store: exactly when cleanups can show in an outcome, and
 exactly when a held state is lost without its clear.
 */
module DedupLimits {
  import opened Basics
  import opened Dedup
  import opened DedupRuns

  // ------------------------------------------------------------ runs with room for all

  /** The keys that arrive in a run. */
  function Keys(run: Run): set<Key> {
    match run
    case Start => {}
    case Then(before, act) => if act.Arrive? then Keys(before) + {act.key} else Keys(before)
  }

  /** The store has room for all of the keys. */
  predicate Roomy(limit: int, keys: set<Key>) {
    limit <= 0 || |keys| <= limit
  }

  predicate NothingEvicted(run: Run) {
    match run
    case Start => true
    case Then(before, act) => NothingEvicted(before) && (act.Arrive? ==> act.victim.None?)
  }

  lemma {:induction false} StoredKeysArrived(run: Run)
    ensures After(run).Keys <= Keys(run)
  {
    if run.Then? { StoredKeysArrived(run.before); }
  }

  lemma RoomForFewer(limit: int, few: set<Key>, many: set<Key>)
    requires few <= many && Roomy(limit, many)
    ensures Roomy(limit, few)
  {
    SubsetSize(few, many);
  }

  /** A store with room for all arriving keys is never full when one of them is missing. */
  lemma RoomAtMiss(limit: int, before: Run, a: Action)
    requires a.Arrive? && !Hits(After(before), a) && Roomy(limit, Keys(Then(before, a)))
    ensures !Full(AfterGet(After(before), a.key, a.event.receivedAt), limit)
  {
    var m1 := AfterGet(After(before), a.key, a.event.receivedAt);
    StoredKeysArrived(before);
    assert a.key !in m1;
    SubsetSize(m1.Keys + {a.key}, Keys(Then(before, a)));
  }

  /** Then evicting nothing is the one thing the store may do, and it always may. */
  lemma {:induction false} RoomyIsValid(limit: int, run: Run)
    requires Roomy(limit, Keys(run))
    ensures Valid(limit, run) <==> NothingEvicted(run)
  {
    match run
    case Start =>
    case Then(before, act) =>
      RoomForFewer(limit, Keys(before), Keys(run));
      RoomyIsValid(limit, before);
      if act.Arrive? && !Hits(After(before), act) { RoomAtMiss(limit, before, act); }
  }

  // ------------------------------------------------------------------ cleanups

  lemma {:induction false} SweepsLeaveVictims(run: Run)
    ensures Keys(WithoutSweeps(run)) == Keys(run)
    ensures NothingEvicted(WithoutSweeps(run)) <==> NothingEvicted(run)
  {
    if run.Then? { SweepsLeaveVictims(run.before); }
  }

  /** With room for all keys, removing the cleanups of a run changes no outcome. */
  lemma RoomySweepsAreInvisible(limit: int, run: Run)
    requires Roomy(limit, Keys(run)) && Valid(limit, run) && Ordered(run)
    ensures Valid(limit, WithoutSweeps(run))
    ensures Outcomes(WithoutSweeps(run)) == Outcomes(run)
  {
    RoomyIsValid(limit, run);
    SweepsLeaveVictims(run);
    RoomyIsValid(limit, WithoutSweeps(run));
    SameEvictionsSameOutcomes(limit, run);
  }

  /** What comes in from outside: the arrivals and clears, without cleanups and evictions. */
  function Traffic(run: Run): Run {
    match run
    case Start => Start
    case Then(before, act) =>
      match act
      case Sweep(_) => Traffic(before)
      case Clear(_) => Then(Traffic(before), act)
      case Arrive(key, event, ttl, hold, _) => Then(Traffic(before), Arrive(key, event, ttl, hold, None))
  }

  predicate Unswept(run: Run) {
    match run
    case Start => true
    case Then(before, act) => Unswept(before) && !act.Sweep?
  }

  lemma {:induction false} TrafficOfRoomy(run: Run)
    requires NothingEvicted(run)
    ensures Traffic(run) == WithoutSweeps(run)
  {
    if run.Then? { TrafficOfRoomy(run.before); }
  }

  lemma {:induction false} TrafficKeepsKeys(run: Run)
    ensures Keys(Traffic(run)) == Keys(run)
  {
    if run.Then? { TrafficKeepsKeys(run.before); }
  }

  lemma {:induction false} TrafficKeepsOrder(run: Run, t: int)
    ensures UpTo(run, t) ==> UpTo(Traffic(run), t)
    ensures Unswept(run) && UpTo(Traffic(run), t) ==> UpTo(run, t)
    ensures Ordered(run) ==> Ordered(Traffic(run))
    ensures Unswept(run) && Ordered(Traffic(run)) ==> Ordered(run)
  {
    match run
    case Start =>
    case Then(before, act) =>
      TrafficKeepsOrder(before, t);
      if act.Arrive? { TrafficKeepsOrder(before, act.event.receivedAt); }
  }

  predicate OnlyWindowCovers(last: Option<(Key, Suppression)>, key: Key, t: int) {
    last.Some? && last.value.0 == key && last.value.1.Covers(t)
  }

  /** A store with a single slot, without the store: what one step does to the latest window. */
  function NextWindow(last: Option<(Key, Suppression)>, a: Action): Option<(Key, Suppression)> {
    match a
    case Sweep(_) => last
    case Clear(k) => if last.Some? && last.value.0 == k then None else last
    case Arrive(k, event, ttl, hold, _) =>
      if OnlyWindowCovers(last, k, event.receivedAt) then last
      else Some((k, Suppression(event.receivedAt, event.receivedAt + Window(ttl), hold)))
  }

  function LastWindow(run: Run): Option<(Key, Suppression)> {
    match run
    case Start => None
    case Then(before, act) => NextWindow(LastWindow(before), act)
  }

  /** The slot holds the last window or nothing; a window that is not in the slot is over. */
  predicate SlotAgrees(m: States, last: Option<(Key, Suppression)>, t: int) {
    && (forall k | k in m :: last.Some? && last.value.0 == k &&
          m[k].ExpiresAt() == last.value.1.closesAt && m[k].holdUntilClear == last.value.1.held)
    && (last.Some? && last.value.0 !in m ==> !last.value.1.Covers(t))
  }

  lemma OneEntryLeaves(m: States, victim: Key)
    requires |m| <= 1 && victim in m
    ensures m - {victim} == map[]
  {
    forall k | k in m ensures k == victim {
      SubsetSize({k, victim}, m.Keys);
    }
  }

  lemma SlotHit(m: States, last: Option<(Key, Suppression)>, a: Action)
    requires a.Arrive? && SlotAgrees(m, last, a.event.receivedAt)
    ensures Hits(m, a) <==> OnlyWindowCovers(last, a.key, a.event.receivedAt)
  {
  }

  /** A miss leaves nothing but the new entry. */
  lemma SlotMiss(m: States, a: Action)
    requires a.Arrive? && |m| <= 1 && Legal(m, 1, a) && !Hits(m, a)
    ensures Step(m, a) == map[a.key := FreshState(a.key, a.event, a.ttlSeconds, a.hold)]
  {
    var m1 := AfterGet(m, a.key, a.event.receivedAt);
    SmallerMap(m, {a.key});
    assert Evicted(m1, a.victim) == map[] by {
      if a.victim.Some? { OneEntryLeaves(m1, a.victim.value); }
    }
  }

  lemma SlotStep(m: States, last: Option<(Key, Suppression)>, a: Action, t: int)
    requires |m| <= 1 && Legal(m, 1, a) && SlotAgrees(m, last, t)
    requires a.Arrive? ==> a.event.receivedAt <= t && SlotAgrees(m, last, a.event.receivedAt)
    requires a.Sweep? ==> a.now <= t
    ensures SlotAgrees(Step(m, a), NextWindow(last, a), t)
  {
    if a.Arrive? {
      SlotHit(m, last, a);
      if !Hits(m, a) { SlotMiss(m, a); }
    }
  }

  lemma {:induction false} SingleSlotAgrees(run: Run, t: int)
    requires Valid(1, run) && Ordered(run) && UpTo(run, t)
    ensures SlotAgrees(After(run), LastWindow(run), t)
  {
    match run
    case Start =>
    case Then(before, act) =>
      SingleSlotAgrees(before, t);
      if act.Arrive? { SingleSlotAgrees(before, act.event.receivedAt); }
      CapacityKept(1, before);
      SlotStep(After(before), LastWindow(before), act, t);
  }

  /** Outcomes read off the last window. */
  function SingleSlotOutcomes(run: Run): seq<bool> {
    match run
    case Start => []
    case Then(before, act) =>
      if act.Arrive? then
        SingleSlotOutcomes(before) + [OnlyWindowCovers(LastWindow(before), act.key, act.event.receivedAt)]
      else SingleSlotOutcomes(before)
  }

  lemma {:induction false} SingleSlotDecides(run: Run)
    requires Valid(1, run) && Ordered(run)
    ensures Outcomes(run) == SingleSlotOutcomes(run)
  {
    match run
    case Start =>
    case Then(before, act) =>
      SingleSlotDecides(before);
      if act.Arrive? { SingleSlotAgrees(before, act.event.receivedAt); }
  }

  lemma {:induction false} SingleSlotSeesTraffic(run: Run)
    ensures LastWindow(Traffic(run)) == LastWindow(run)
    ensures SingleSlotOutcomes(Traffic(run)) == SingleSlotOutcomes(run)
  {
    if run.Then? { SingleSlotSeesTraffic(run.before); }
  }

  /** With room for all keys, or for one entry only, the traffic decides every outcome. */
  lemma TrafficDecides(limit: int, run: Run, other: Run)
    requires limit == 1 || Roomy(limit, Keys(run))
    requires Valid(limit, run) && Ordered(run) && Valid(limit, other) && Ordered(other)
    requires Traffic(other) == Traffic(run)
    ensures Outcomes(other) == Outcomes(run)
  {
    if limit == 1 {
      SingleSlotDecides(run);
      SingleSlotDecides(other);
      SingleSlotSeesTraffic(run);
      SingleSlotSeesTraffic(other);
    } else {
      TrafficKeepsKeys(run);
      TrafficKeepsKeys(other);
      RoomyIsValid(limit, run);
      RoomyIsValid(limit, other);
      TrafficOfRoomy(run);
      TrafficOfRoomy(other);
      RoomySweepsAreInvisible(limit, run);
      RoomySweepsAreInvisible(limit, other);
    }
  }

  // ------------------------------------------------------------- filling the store

  predicate Distinct(keys: seq<Key>) {
    forall i, j | 0 <= i < j < |keys| :: keys[i] != keys[j]
  }

  function Stamp(t: int): CompactEvent {
    CompactEvent(t, "192.0.2.1", 162, "1")
  }

  /** The i-th key arrives at time i; the first is held, the others last a second. */
  function Put(keys: seq<Key>, i: nat): Action
    requires i < |keys|
  {
    Arrive(keys[i], Stamp(i), 1, i == 0, None)
  }

  /** The first n keys arrive one after the other. */
  function Filling(keys: seq<Key>, n: nat): Run
    requires n <= |keys|
  {
    if n == 0 then Start else Then(Filling(keys, n - 1), Put(keys, n - 1))
  }

  /** The entry the i-th key gets. */
  function Entry(keys: seq<Key>, i: nat): DedupState
    requires i < |keys|
  {
    FreshState(keys[i], Stamp(i), 1, i == 0)
  }

  function Filled(keys: seq<Key>, n: nat): States
    requires n <= |keys|
  {
    if n == 0 then map[] else Filled(keys, n - 1)[keys[n - 1] := Entry(keys, n - 1)]
  }

  lemma {:induction false} FilledOnlyWith(keys: seq<Key>, n: nat, k: Key) returns (i: nat)
    requires n <= |keys| && k in Filled(keys, n)
    ensures i < n && keys[i] == k
  {
    if k == keys[n - 1] { i := n - 1; } else { i := FilledOnlyWith(keys, n - 1, k); }
  }

  lemma {:induction false} FilledAt(keys: seq<Key>, n: nat, i: nat)
    requires Distinct(keys) && i < n <= |keys|
    ensures keys[i] in Filled(keys, n) && Filled(keys, n)[keys[i]] == Entry(keys, i)
  {
    if i < n - 1 { FilledAt(keys, n - 1, i); }
  }

  lemma NextIsMissing(keys: seq<Key>, n: nat)
    requires Distinct(keys) && n < |keys|
    ensures keys[n] !in Filled(keys, n)
  {
    if keys[n] in Filled(keys, n) {
      var i := FilledOnlyWith(keys, n, keys[n]);
      assert false;
    }
  }

  lemma {:induction false} FilledSize(keys: seq<Key>, n: nat)
    requires Distinct(keys) && n <= |keys|
    ensures |Filled(keys, n)| == n
  {
    if n > 0 {
      FilledSize(keys, n - 1);
      NextIsMissing(keys, n - 1);
      assert Filled(keys, n).Keys == Filled(keys, n - 1).Keys + {keys[n - 1]};
    }
  }

  /** The first key was seen least recently. */
  lemma FirstIsOldest(keys: seq<Key>, n: nat)
    requires Distinct(keys) && 0 < n <= |keys|
    ensures Oldest(Filled(keys, n), keys[0])
  {
    FilledAt(keys, n, 0);
    forall k | k in Filled(keys, n)
      ensures Filled(keys, n)[keys[0]].lastSeenAt <= Filled(keys, n)[k].lastSeenAt
    {
      var i := FilledOnlyWith(keys, n, k);
      FilledAt(keys, n, i);
    }
  }

  /** A Put of a missing key adds its entry and nothing else. */
  lemma PutAdds(run: Run, a: Action)
    requires a.Arrive? && a.victim.None? && a.key !in After(run)
    ensures After(Then(run, a)) == After(run)[a.key := FreshState(a.key, a.event, a.ttlSeconds, a.hold)]
  {
  }

  lemma PutIsLegal(limit: int, run: Run, a: Action)
    requires Valid(limit, run) && a.Arrive? && a.victim.None? && a.key !in After(run) && !Full(After(run), limit)
    ensures Valid(limit, Then(run, a))
  {
  }

  lemma {:induction false} FillingStores(keys: seq<Key>, n: nat)
    requires Distinct(keys) && n <= |keys|
    ensures After(Filling(keys, n)) == Filled(keys, n)
  {
    if n > 0 {
      FillingStores(keys, n - 1);
      NextIsMissing(keys, n - 1);
      PutAdds(Filling(keys, n - 1), Put(keys, n - 1));
    }
  }

  /** Below the limit, one more key can arrive. */
  lemma FillingGoesOn(limit: int, keys: seq<Key>, n: nat)
    requires Distinct(keys) && n < |keys| && n < limit && Valid(limit, Filling(keys, n))
    ensures Valid(limit, Then(Filling(keys, n), Put(keys, n)))
  {
    FillingStores(keys, n);
    FilledSize(keys, n);
    NextIsMissing(keys, n);
    PutIsLegal(limit, Filling(keys, n), Put(keys, n));
  }

  lemma {:induction false} FillingIsLegal(limit: int, keys: seq<Key>, n: nat)
    requires Distinct(keys) && n <= |keys| && n <= limit
    ensures Valid(limit, Filling(keys, n))
  {
    if n > 0 {
      FillingIsLegal(limit, keys, n - 1);
      FillingGoesOn(limit, keys, n - 1);
      assert Filling(keys, n) == Then(Filling(keys, n - 1), Put(keys, n - 1));
    }
  }

  lemma FillingFills(limit: int, keys: seq<Key>, n: nat)
    requires Distinct(keys) && n <= |keys| && n <= limit
    ensures Valid(limit, Filling(keys, n)) && After(Filling(keys, n)) == Filled(keys, n)
  {
    FillingIsLegal(limit, keys, n);
    FillingStores(keys, n);
  }

  lemma {:induction false} FillingIsOrdered(keys: seq<Key>, n: nat, t: int)
    requires n <= |keys| && n <= t
    ensures Ordered(Filling(keys, n)) && StrictArrivals(Filling(keys, n))
    ensures UpTo(Filling(keys, n), t) && ArrivalsBefore(Filling(keys, n), t)
  {
    if n > 0 {
      FillingIsOrdered(keys, n - 1, t);
      FillingIsOrdered(keys, n - 1, n - 1);
    }
  }

  lemma {:induction false} FillingArrivals(keys: seq<Key>, n: nat)
    requires n <= |keys|
    ensures Keys(Filling(keys, n)) == set k | k in keys[..n]
  {
    if n > 0 {
      FillingArrivals(keys, n - 1);
      assert keys[..n] == keys[..n - 1] + [keys[n - 1]];
    }
  }

  /** Some n of the keys, one after the other. */
  lemma {:induction false} Enumerate(keys: set<Key>, n: nat) returns (list: seq<Key>)
    requires n <= |keys|
    ensures |list| == n && Distinct(list) && forall k | k in list :: k in keys
  {
    list := [];
    if n > 0 {
      var k :| k in keys;
      var rest := Enumerate(keys - {k}, n - 1);
      list := [k] + rest;
      assert forall i | 0 <= i < |rest| :: rest[i] in rest;
    }
  }

  // -------------------------------------------------- when cleanups show in an outcome

  /** A time at which all but the held first entry are over. */
  function Later(n: nat): int {
    n + Window(1)
  }

  /** The store is full of one held and other expired entries when one more key, then the first, arrives. */
  function WithoutCleanup(keys: seq<Key>, n: nat): Run
    requires 1 < n < |keys|
  {
    Then(Then(Filling(keys, n), Arrive(keys[n], Stamp(Later(n)), 1, false, Some(keys[0]))),
         Arrive(keys[0], Stamp(Later(n) + 1), 1, false, Some(keys[1])))
  }

  /** The same with a cleanup first, which makes room. */
  function WithCleanup(keys: seq<Key>, n: nat): Run
    requires 1 < n < |keys|
  {
    Then(Then(Then(Filling(keys, n), Sweep(Later(n))), Arrive(keys[n], Stamp(Later(n)), 1, false, None)),
         Arrive(keys[0], Stamp(Later(n) + 1), 1, false, None))
  }

  lemma OnlyHeldSurvives(keys: seq<Key>, n: nat)
    requires Distinct(keys) && 0 < n <= |keys|
    ensures AfterCleanup(Filled(keys, n), Later(n)) == map[keys[0] := Entry(keys, 0)]
  {
    var m := Filled(keys, n);
    FilledAt(keys, n, 0);
    forall k | k in m ensures m[k].Live(Later(n)) <==> k == keys[0] {
      var i := FilledOnlyWith(keys, n, k);
      FilledAt(keys, n, i);
    }
  }

  lemma CleanupSaves(limit: int, keys: seq<Key>)
    requires limit > 1 && |keys| == limit + 1 && Distinct(keys)
    ensures var run := WithCleanup(keys, limit);
            Valid(limit, run) && Outcomes(run) == Outcomes(Filling(keys, limit)) + [false, true]
  {
    var n := limit;
    FillingFills(limit, keys, n);
    OnlyHeldSurvives(keys, n);
    var m := map[keys[0] := Entry(keys, 0)];
    var full := Filling(keys, n);
    var swept := Then(full, Sweep(Later(n)));
    assert Valid(limit, swept) && After(swept) == m;
    assert m.Keys == {keys[0]} && |m| == |m.Keys|;
    assert keys[n] !in m;
    var one := Then(swept, Arrive(keys[n], Stamp(Later(n)), 1, false, None));
    assert Valid(limit, one) && Outcomes(one) == Outcomes(full) + [false];
    assert Hits(After(one), Arrive(keys[0], Stamp(Later(n) + 1), 1, false, None));
  }

  /** The state after the first entry was evicted: the second is the oldest now. */
  lemma SecondIsNext(keys: seq<Key>, n: nat, s: DedupState)
    requires Distinct(keys) && 1 < n < |keys| && s == FreshState(keys[n], Stamp(Later(n)), 1, false)
    ensures var m := AfterPut(Filled(keys, n), s, Some(keys[0]));
            && keys[0] !in m && |m| == n && Oldest(m, keys[1])
  {
    var m0 := Filled(keys, n);
    var m := AfterPut(m0, s, Some(keys[0]));
    FilledAt(keys, n, 0);
    FilledAt(keys, n, 1);
    FilledSize(keys, n);
    NextIsMissing(keys, n);
    assert m.Keys == m0.Keys - {keys[0]} + {keys[n]};
    forall k | k in m ensures m[keys[1]].lastSeenAt <= m[k].lastSeenAt {
      if k != keys[n] {
        var i := FilledOnlyWith(keys, n, k);
        FilledAt(keys, n, i);
      }
    }
  }

  lemma EvictionLoses(limit: int, keys: seq<Key>)
    requires limit > 1 && |keys| == limit + 1 && Distinct(keys)
    ensures var run := WithoutCleanup(keys, limit);
            Valid(limit, run) && Outcomes(run) == Outcomes(Filling(keys, limit)) + [false, false]
  {
    var n := limit;
    var s := FreshState(keys[n], Stamp(Later(n)), 1, false);
    FillingFills(limit, keys, n);
    FilledSize(keys, n);
    NextIsMissing(keys, n);
    FirstIsOldest(keys, n);
    SecondIsNext(keys, n, s);
    var full := Filling(keys, n);
    var one := Then(full, Arrive(keys[n], Stamp(Later(n)), 1, false, Some(keys[0])));
    assert Valid(limit, one) && After(one) == AfterPut(Filled(keys, n), s, Some(keys[0]));
    assert Outcomes(one) == Outcomes(full) + [false];
  }

  lemma BothOrdered(keys: seq<Key>, n: nat)
    requires 1 < n < |keys|
    ensures var run := WithCleanup(keys, n); Ordered(run) && StrictArrivals(run)
    ensures var run := WithoutCleanup(keys, n); Ordered(run) && StrictArrivals(run)
  {
    FillingIsOrdered(keys, n, Later(n));
    FillingIsOrdered(keys, n, Later(n) + 1);
  }

  lemma SameTraffic(keys: seq<Key>, n: nat)
    requires 1 < n < |keys|
    ensures Traffic(WithoutCleanup(keys, n)) == Traffic(WithCleanup(keys, n)) && Unswept(WithoutCleanup(keys, n))
    ensures forall k | k in Keys(WithCleanup(keys, n)) :: k in keys
  {
    FillingIsUnswept(keys, n);
    FillingArrivals(keys, n);
    var full, calm := Filling(keys, n), WithoutCleanup(keys, n);
    var swept := WithCleanup(keys, n).before;
    assert Traffic(swept.before) == Traffic(full) && Traffic(swept) == Traffic(calm.before);
    assert Keys(swept) == Keys(full) + {keys[n]};
  }

  /**
   The failing family: with room for two or more and one key more than that, a cleanup makes room,
   so that a held state survives that would be evicted without it, and its next event is a duplicate.
   */
  lemma CleanupMayShow(limit: int, keys: seq<Key>)
    requires limit > 1 && |keys| == limit + 1 && Distinct(keys)
    ensures var run, calm := WithCleanup(keys, limit), WithoutCleanup(keys, limit);
            && Valid(limit, run) && Ordered(run) && StrictArrivals(run)
            && Valid(limit, calm) && Ordered(calm) && StrictArrivals(calm) && Unswept(calm)
            && Traffic(calm) == Traffic(run) && Outcomes(calm) != Outcomes(run)
            && (forall k | k in Keys(run) :: k in keys)
  {
    CleanupSaves(limit, keys);
    EvictionLoses(limit, keys);
    var before := Outcomes(Filling(keys, limit));
    assert (before + [false, true])[|before| + 1] != (before + [false, false])[|before| + 1];
    BothOrdered(keys, limit);
    SameTraffic(keys, limit);
  }

  lemma {:induction false} FillingIsUnswept(keys: seq<Key>, n: nat)
    requires n <= |keys|
    ensures Unswept(Filling(keys, n))
  {
    if n > 0 { FillingIsUnswept(keys, n - 1); }
  }

  /** Over these keys, a run has the outcomes of every run of the same traffic without cleanups. */
  ghost predicate CleanupsInvisible(limit: int, keys: set<Key>) {
    forall run, calm |
      && Valid(limit, run) && Ordered(run) && Keys(run) <= keys
      && Valid(limit, calm) && Unswept(calm) && Traffic(calm) == Traffic(run)
      :: Outcomes(calm) == Outcomes(run)
  }

  /**
   Periodic cleanup never changes an outcome if and only if the store has no limit, room for all
   keys in use, or room for one entry only.
   */
  lemma CleanupsInvisibleIff(limit: int, keys: set<Key>)
    ensures CleanupsInvisible(limit, keys) <==> limit == 1 || Roomy(limit, keys)
  {
    if limit == 1 || Roomy(limit, keys) {
      forall run, calm |
        && Valid(limit, run) && Ordered(run) && Keys(run) <= keys
        && Valid(limit, calm) && Unswept(calm) && Traffic(calm) == Traffic(run)
        ensures Outcomes(calm) == Outcomes(run)
      {
        if limit != 1 { RoomForFewer(limit, Keys(run), keys); }
        TrafficKeepsOrder(run, 0);
        TrafficKeepsOrder(calm, 0);
        TrafficDecides(limit, run, calm);
      }
    } else {
      var list := Enumerate(keys, limit + 1);
      CleanupMayShow(limit, list);
      var run, calm := WithCleanup(list, limit), WithoutCleanup(list, limit);
      assert Keys(run) <= keys;
      assert Traffic(calm) == Traffic(run) && Outcomes(calm) != Outcomes(run);
    }
  }

  lemma {:induction false} OldestExists(m: States) returns (k: Key)
    requires m != map[]
    ensures Oldest(m, k)
    decreases |m|
  {
    k :| k in m;
    var rest := m - {k};
    assert rest.Keys == m.Keys - {k};
    assert forall q | q in m :: q == k || q in rest;
    if rest != map[] {
      var j := OldestExists(rest);
      if m[j].lastSeenAt < m[k].lastSeenAt { k := j; }
    }
  }

  /** Every traffic has a run without cleanups, so the comparison is never empty. */
  lemma {:induction false} CalmRunExists(limit: int, run: Run) returns (calm: Run)
    ensures Valid(limit, calm) && Unswept(calm) && Traffic(calm) == Traffic(run)
  {
    match run
    case Start => calm := Start;
    case Then(before, act) =>
      calm := CalmRunExists(limit, before);
      match act
      case Sweep(_) =>
      case Clear(_) => calm := Then(calm, act);
      case Arrive(key, event, ttl, hold, _) =>
        var m1 := AfterGet(After(calm), key, event.receivedAt);
        var victim: Option<Key> := None;
        if key !in m1 && Full(m1, limit) {
          var v := OldestExists(m1);
          victim := Some(v);
        }
        calm := Then(calm, Arrive(key, event, ttl, hold, victim));
  }

  // ------------------------------------------------- when a held state is lost

  /** Of two entries, the one that arrived since the other did was seen later. */
  lemma {:induction false} ArrivedSinceWasSeenLater(run: Run, k: Key, q: Key)
    requires StrictArrivals(run) && k in After(run) && q in After(run) && q in OthersSince(run, k)
    ensures After(run)[k].lastSeenAt < After(run)[q].lastSeenAt
  {
    var before, act := run.before, run.act;
    if act.Arrive? && act.key == q {
      LastSeenBefore(before, act.event.receivedAt, k);
    } else {
      ArrivedSinceWasSeenLater(before, k, q);
    }
  }

  /** Every other entry of the store arrived after k last did. */
  predicate AllArrivedSince(m: States, run: Run, k: Key) {
    forall q | q in m && q != k :: q in OthersSince(run, k)
  }

  /** The arrival has no entry and finds the store full of entries that arrived after k last did. */
  predicate Displaces(limit: int, run: Run, a: Action, k: Key) {
    && a.Arrive? && a.key != k && !Hits(After(run), a)
    && var m1 := AfterGet(After(run), a.key, a.event.receivedAt);
       Full(m1, limit) && AllArrivedSince(m1, run, k)
  }

  /** An entry is a least recently seen one exactly when all others arrived since it did. */
  lemma OldestIff(run: Run, m: States, k: Key)
    requires StrictArrivals(run) && k in m
    requires forall q | q in m :: q in After(run) && m[q] == After(run)[q]
    ensures Oldest(m, k) <==> AllArrivedSince(m, run, k)
  {
    forall q | q in m && q != k
      ensures m[k].lastSeenAt <= m[q].lastSeenAt <==> q in OthersSince(run, k)
    {
      if q in OthersSince(run, k) {
        ArrivedSinceWasSeenLater(run, k, q);
      } else if m[k].lastSeenAt <= m[q].lastSeenAt {
        SeenLaterArrivedSince(run, k, q);
      }
    }
  }

  lemma OldestIsUnique(run: Run, m: States, k: Key, q: Key)
    requires StrictArrivals(run) && Oldest(m, k) && Oldest(m, q)
    requires forall q | q in m :: q in After(run) && m[q] == After(run)[q]
    ensures k == q
  {
    if k != q {
      SeenLaterArrivedSince(run, k, q);
      ArrivedSinceWasSeenLater(run, k, q);
      assert false;
    }
  }

  /** With strictly increasing times, exactly that evicts k. */
  lemma EvictedIff(limit: int, run: Run, a: Action, k: Key)
    requires Legal(After(run), limit, a) && StrictArrivals(run)
    requires a.Arrive? && a.key != k && k in After(run)
    ensures a.victim == Some(k) <==> Displaces(limit, run, a, k)
  {
    var m1 := AfterGet(After(run), a.key, a.event.receivedAt);
    OldestIff(run, m1, k);
    if Displaces(limit, run, a, k) { OldestIsUnique(run, m1, k, a.victim.value); }
  }

  /** The key's window is held and has not been cleared or evicted. */
  predicate IsHeld(run: Run, key: Key) {
    OpenWindow(run, key).Some? && OpenWindow(run, key).value.held
  }

  lemma {:induction false} SomeTimeAfter(run: Run) returns (t: int)
    ensures UpTo(run, t)
  {
    match run
    case Start => t := 0;
    case Then(before, act) =>
      var u := SomeTimeAfter(before);
      t := u;
      if act.Arrive? && t < act.event.receivedAt { t := act.event.receivedAt; }
      if act.Sweep? && t < act.now { t := act.now; }
      LaterStill(before, u, t);
  }

  lemma {:induction false} LaterStill(run: Run, t: int, u: int)
    requires UpTo(run, t) && t <= u
    ensures UpTo(run, u)
  {
    if run.Then? { LaterStill(run.before, t, u); }
  }

  lemma HeldIsStored(limit: int, run: Run, key: Key)
    requires Valid(limit, run) && Ordered(run) && IsHeld(run, key)
    ensures key in After(run) && After(run)[key].holdUntilClear
  {
    var t := SomeTimeAfter(run);
    StoreAgrees(limit, run, key, t);
  }

  /** A step takes a held state away if and only if it is its clear, or an arrival that displaces it. */
  lemma HeldLostIff(limit: int, run: Run, a: Action, k: Key)
    requires Valid(limit, Then(run, a)) && Ordered(Then(run, a)) && StrictArrivals(Then(run, a))
    requires IsHeld(run, k)
    ensures !IsHeld(Then(run, a), k) <==> a == Clear(k) || Displaces(limit, run, a, k)
  {
    HeldIsStored(limit, run, k);
    if a.Arrive? {
      assert a.key == k ==> Suppressed(run, k, a.event.receivedAt);
      if a.key != k { EvictedIff(limit, run, a, k); }
    }
  }

  /** A forwarded arrival asked to hold the key; since then no clear of it and no arrival that displaces it came. */
  predicate HeldThroughout(limit: int, run: Run, key: Key) {
    match run
    case Start => false
    case Then(before, act) =>
      match act
      case Sweep(_) => HeldThroughout(limit, before, key)
      case Clear(k) => k != key && HeldThroughout(limit, before, key)
      case Arrive(k, event, _, hold, _) =>
        if k == key then
          HeldThroughout(limit, before, key) || (hold && !Suppressed(before, key, event.receivedAt))
        else
          HeldThroughout(limit, before, key) && !Displaces(limit, before, act, key)
  }

  /** A window that is not held stops suppressing at its end. */
  lemma OnlyHeldLasts(run: Run, key: Key)
    ensures (forall t :: Suppressed(run, key, t)) <==> IsHeld(run, key)
  {
    if IsHeld(run, key) {
      assert forall t :: Suppressed(run, key, t);
    } else {
      var t := if OpenWindow(run, key).Some? then OpenWindow(run, key).value.closesAt else 0;
      assert !Suppressed(run, key, t);
    }
  }

  /** Over whole runs: a key is suppressed at every later time if and only if it is held throughout. */
  lemma {:induction false} SuppressedForeverIff(limit: int, run: Run, key: Key)
    requires Valid(limit, run) && Ordered(run) && StrictArrivals(run)
    ensures IsHeld(run, key) <==> HeldThroughout(limit, run, key)
    ensures (forall t :: Suppressed(run, key, t)) <==> HeldThroughout(limit, run, key)
  {
    if run.Then? {
      SuppressedForeverIff(limit, run.before, key);
      if IsHeld(run.before, key) { HeldLostIff(limit, run.before, run.act, key); }
    }
    OnlyHeldLasts(run, key);
  }

  /** Fewer than `limit` other active keys never displace it. */
  lemma ActiveIsHeldThroughout(limit: int, run: Run, key: Key)
    requires limit > 0 && Valid(limit, run) && Ordered(run) && StrictArrivals(run) && HeldAndActive(limit, run, key)
    ensures HeldThroughout(limit, run, key)
  {
    forall t ensures Suppressed(run, key, t) {
      HeldStaysSuppressed(limit, run, key, t);
    }
    SuppressedForeverIff(limit, run, key);
  }

  /** A forwarded arrival asked to hold the key, and no clear came since. */
  predicate HeldUncleared(run: Run, key: Key) {
    match run
    case Start => false
    case Then(before, act) =>
      match act
      case Sweep(_) => HeldUncleared(before, key)
      case Clear(k) => k != key && HeldUncleared(before, key)
      case Arrive(k, event, _, hold, _) =>
        HeldUncleared(before, key) || (k == key && hold && !Suppressed(before, key, event.receivedAt))
  }

  /** As documented: over these keys, a held state goes on suppressing until its clear. */
  ghost predicate OnlyClearsRelease(limit: int, keys: set<Key>) {
    forall run, key, t |
      Valid(limit, run) && Ordered(run) && StrictArrivals(run) && Keys(run) <= keys && HeldUncleared(run, key)
      :: Suppressed(run, key, t)
  }

  lemma {:induction false} NothingEvictedKeepsHeld(run: Run, key: Key)
    requires NothingEvicted(run) && HeldUncleared(run, key)
    ensures IsHeld(run, key)
  {
    if HeldUncleared(run.before, key) { NothingEvictedKeepsHeld(run.before, key); }
  }

  /** The first key is held; then as many others as the store has room for arrive, and the last evicts it. */
  function HeldThenEvicted(keys: seq<Key>, n: nat): Run
    requires 0 < n < |keys|
  {
    Then(Filling(keys, n), Arrive(keys[n], Stamp(n), 1, false, Some(keys[0])))
  }

  lemma {:induction false} FirstIsHeld(keys: seq<Key>, n: nat)
    requires Distinct(keys) && 0 < n <= |keys|
    ensures HeldUncleared(Filling(keys, n), keys[0])
    ensures OthersSince(Filling(keys, n), keys[0]) == (set k | k in keys[1..n])
  {
    if n == 1 {
      assert Filling(keys, 0) == Start;
    } else {
      FirstIsHeld(keys, n - 1);
      assert keys[1..n] == keys[1..n - 1] + [keys[n - 1]];
    }
  }

  lemma LastDisplacesFirst(limit: int, keys: seq<Key>)
    requires limit >= 1 && |keys| == limit + 1 && Distinct(keys)
    ensures Valid(limit, HeldThenEvicted(keys, limit))
  {
    var n := limit;
    FillingFills(limit, keys, n);
    FilledSize(keys, n);
    NextIsMissing(keys, n);
    FirstIsOldest(keys, n);
    assert AfterGet(Filled(keys, n), keys[n], n) == Filled(keys, n);
  }

  lemma OthersAreTheRest(keys: seq<Key>, n: nat)
    requires Distinct(keys) && 0 < n && |keys| == n + 1
    ensures OthersSince(HeldThenEvicted(keys, n), keys[0]) == (set k | k in keys[1..])
  {
    FirstIsHeld(keys, n);
    assert keys[1..] == keys[1..n] + [keys[n]];
  }

  lemma AllArrive(keys: seq<Key>, n: nat)
    requires 0 < n && |keys| == n + 1
    ensures Keys(HeldThenEvicted(keys, n)) == (set k | k in keys)
  {
    FillingArrivals(keys, n);
    assert keys == keys[..n] + [keys[n]];
  }

  lemma FirstIsLost(keys: seq<Key>, n: nat)
    requires Distinct(keys) && 0 < n < |keys|
    ensures HeldUncleared(HeldThenEvicted(keys, n), keys[0])
    ensures OpenWindow(HeldThenEvicted(keys, n), keys[0]) == None
  {
    FirstIsHeld(keys, n);
  }

  /** At any limit, `limit` other keys are enough to lose a held alarm without its clear. */
  lemma HeldAlarmMayBeEvicted(limit: int, keys: seq<Key>)
    requires limit >= 1 && |keys| == limit + 1 && Distinct(keys)
    ensures var run := HeldThenEvicted(keys, limit);
            && Valid(limit, run) && StrictArrivals(run) && Ordered(run)
            && HeldUncleared(run, keys[0]) && OthersSince(run, keys[0]) == (set k | k in keys[1..])
            && Keys(run) == (set k | k in keys)
            && forall t :: !Suppressed(run, keys[0], t)
  {
    LastDisplacesFirst(limit, keys);
    FillingIsOrdered(keys, limit, limit);
    FirstIsLost(keys, limit);
    OthersAreTheRest(keys, limit);
    AllArrive(keys, limit);
    var run := HeldThenEvicted(keys, limit);
    assert StrictArrivals(run) && Ordered(run);
    forall t ensures !Suppressed(run, keys[0], t) {
    }
  }

  /** A held state is removed only by its clear if and only if the store has room for all keys in use. */
  lemma OnlyClearsReleaseIff(limit: int, keys: set<Key>)
    ensures OnlyClearsRelease(limit, keys) <==> Roomy(limit, keys)
  {
    if Roomy(limit, keys) {
      forall run, key, t |
        Valid(limit, run) && Ordered(run) && StrictArrivals(run) && Keys(run) <= keys && HeldUncleared(run, key)
        ensures Suppressed(run, key, t)
      {
        RoomForFewer(limit, Keys(run), keys);
        RoomyIsValid(limit, run);
        NothingEvictedKeepsHeld(run, key);
      }
    } else {
      var list := Enumerate(keys, limit + 1);
      HeldAlarmMayBeEvicted(limit, list);
      var run := HeldThenEvicted(list, limit);
      assert Keys(run) <= keys && HeldUncleared(run, list[0]) && !Suppressed(run, list[0], 0);
    }
  }
}
