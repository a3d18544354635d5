/**
 Whole runs of the store under one worker. Every claim is made against a reading of the run alone
 (who arrived when, what was cleared or evicted), not against the store's map.
 */
module DedupRuns {
  import opened Basics
  import opened Dedup

  /** One step: an event reaching dedup (Get, then Touch or Put), a clear, or a periodic sweep. */
  datatype Action =
    | Arrive(key: Key, event: CompactEvent, ttlSeconds: int, hold: bool, victim: Option<Key>)
    | Clear(key: Key)
    | Sweep(now: int)

  datatype Run = Start | Then(before: Run, act: Action)

  // ------------------------------------------------------------------ the store

  /** The arrival finds a live entry. */
  predicate Hits(m: States, a: Action)
    requires a.Arrive?
  {
    Found(m, a.key, a.event.receivedAt).Some?
  }

  function Step(m: States, a: Action): States {
    match a
    case Arrive(key, event, ttl, hold, victim) =>
      var m1 := AfterGet(m, key, event.receivedAt);
      if Hits(m, a) then AfterTouch(m1, key, event.receivedAt)
      else AfterPut(m1, FreshState(key, event, ttl, hold), victim)
    case Clear(key) => AfterClear(m, key)
    case Sweep(now) => AfterCleanup(m, now)
  }

  /** The recorded victim is one the store may choose. */
  predicate Legal(m: States, limit: int, a: Action) {
    a.Arrive? ==>
      if Hits(m, a) then a.victim.None? else MayEvict(AfterGet(m, a.key, a.event.receivedAt), limit, a.victim)
  }

  function After(run: Run): States {
    match run
    case Start => map[]
    case Then(before, act) => Step(After(before), act)
  }

  predicate Valid(limit: int, run: Run) {
    match run
    case Start => true
    case Then(before, act) => Valid(limit, before) && Legal(After(before), limit, act)
  }

  // ---------------------------------------------------------------------- times

  /** No time in the run is later than t. */
  predicate UpTo(run: Run, t: int) {
    match run
    case Start => true
    case Then(before, act) =>
      && UpTo(before, t)
      && (act.Arrive? ==> act.event.receivedAt <= t)
      && (act.Sweep? ==> act.now <= t)
  }

  /** Times never decrease. */
  predicate Ordered(run: Run) {
    match run
    case Start => true
    case Then(before, act) =>
      && Ordered(before)
      && (act.Arrive? ==> UpTo(before, act.event.receivedAt))
      && (act.Sweep? ==> UpTo(before, act.now))
  }

  /** Arrivals strictly before t. */
  predicate ArrivalsBefore(run: Run, t: int) {
    match run
    case Start => true
    case Then(before, act) => ArrivalsBefore(before, t) && (act.Arrive? ==> act.event.receivedAt < t)
  }

  predicate StrictArrivals(run: Run) {
    match run
    case Start => true
    case Then(before, act) =>
      StrictArrivals(before) && (act.Arrive? ==> ArrivalsBefore(before, act.event.receivedAt))
  }

  // ---------------------------------------------------------- the reference reading

  /** A suppression window: when it opened, when it closes, and whether it waits for a clear instead. */
  datatype Suppression = Suppression(openedAt: int, closesAt: int, held: bool) {
    predicate Covers(t: int) {
      held || t < closesAt
    }
  }

  /**
   The window of the latest forwarded arrival of the key, unless the key was cleared or evicted
   afterwards. Sweeps play no part.
   */
  function OpenWindow(run: Run, key: Key): Option<Suppression>
    decreases run, 0
  {
    match run
    case Start => None
    case Then(before, act) =>
      match act
      case Sweep(_) => OpenWindow(before, key)
      case Clear(k) => if k == key then None else OpenWindow(before, key)
      case Arrive(k, event, ttl, hold, victim) =>
        if k == key && !Suppressed(before, k, event.receivedAt) then
          Some(Suppression(event.receivedAt, event.receivedAt + Window(ttl), hold))
        else if k != key && victim == Some(key) then None
        else OpenWindow(before, key)
  }

  /** The specified outcome of an arrival after the run. */
  predicate Suppressed(run: Run, key: Key, t: int)
    decreases run, 1
  {
    OpenWindow(run, key).Some? && OpenWindow(run, key).value.Covers(t)
  }

  /** The store holds the open window, and nothing that would still suppress without one. */
  predicate Agrees(m: States, w: Option<Suppression>, key: Key, t: int) {
    && (Found(m, key, t).Some? <==> w.Some? && w.value.Covers(t))
    && (Found(m, key, t).Some? ==>
          var s := m[key];
          s.firstSeenAt == w.value.openedAt && s.ExpiresAt() == w.value.closesAt && s.holdUntilClear == w.value.held)
  }

  lemma {:induction false} StepAgrees(limit: int, before: Run, a: Action, key: Key, t: int)
    requires Legal(After(before), limit, a)
    requires a.Arrive? ==> a.event.receivedAt <= t
    requires a.Sweep? ==> a.now <= t
    requires Agrees(After(before), OpenWindow(before, key), key, t)
    requires a.Arrive? && a.key == key ==>
               Agrees(After(before), OpenWindow(before, key), key, a.event.receivedAt)
    ensures Agrees(After(Then(before, a)), OpenWindow(Then(before, a), key), key, t)
  {
  }

  /** At every moment from the end of the run on, the store and the reading agree on the key. */
  lemma {:induction false} StoreAgrees(limit: int, run: Run, key: Key, t: int)
    requires Valid(limit, run) && Ordered(run) && UpTo(run, t)
    ensures Agrees(After(run), OpenWindow(run, key), key, t)
  {
    match run
    case Start =>
    case Then(before, act) =>
      StoreAgrees(limit, before, key, t);
      if act.Arrive? {
        StoreAgrees(limit, before, key, act.event.receivedAt);
      }
      StepAgrees(limit, before, act, key, t);
  }

  /**
   Refinement over whole runs: with non-decreasing times, an arrival is suppressed exactly when an
   earlier forwarded arrival of its key opened a window that was neither cleared nor evicted since
   and that is held or still open.
   */
  lemma {:induction false} DuplicateIffWindowOpen(limit: int, run: Run, a: Action)
    requires a.Arrive? && Valid(limit, run) && Ordered(Then(run, a))
    ensures Hits(After(run), a) <==> Suppressed(run, a.key, a.event.receivedAt)
  {
    StoreAgrees(limit, run, a.key, a.event.receivedAt);
  }

  // -------------------------------------------------------------------- entries

  /** What a key's arrivals tell: the last forwarded one, the time of the last, and the duplicates since. */
  datatype History = History(opener: CompactEvent, last: int, duplicates: nat)

  function HistoryOf(run: Run, key: Key): Option<History> {
    match run
    case Start => None
    case Then(before, act) =>
      if !act.Arrive? || act.key != key then HistoryOf(before, key)
      else
        match HistoryOf(before, key)
        case Some(h) =>
          if Suppressed(before, key, act.event.receivedAt) then
            Some(h.(last := act.event.receivedAt, duplicates := h.duplicates + 1))
          else Some(History(act.event, act.event.receivedAt, 0))
        case None => Some(History(act.event, act.event.receivedAt, 0))
  }

  /** An entry of the store is what the arrivals of its key tell. */
  predicate Tells(m: States, h: Option<History>, key: Key) {
    key in m ==>
      && h.Some? && m[key].key == key
      && m[key].firstEvent == h.value.opener && m[key].firstSeenAt == h.value.opener.receivedAt
      && m[key].lastSeenAt == h.value.last && m[key].suppressedCount == h.value.duplicates
  }

  lemma StepTells(before: Run, a: Action, key: Key)
    requires Tells(After(before), HistoryOf(before, key), key)
    requires a.Arrive? ==> (Hits(After(before), a) <==> Suppressed(before, a.key, a.event.receivedAt))
    ensures Tells(After(Then(before, a)), HistoryOf(Then(before, a), key), key)
  {
  }

  /**
   Every entry, over any run: its first event is the key's last forwarded arrival, its last-seen time
   that of the key's last arrival, and its count the number of duplicates in between.
   */
  lemma {:induction false} EntriesTell(limit: int, run: Run, key: Key)
    requires Valid(limit, run) && Ordered(run) && key in After(run)
    ensures Tells(After(run), HistoryOf(run, key), key)
  {
    match run
    case Start =>
    case Then(before, act) =>
      if act.Arrive? { DuplicateIffWindowOpen(limit, before, act); }
      if key in After(before) { EntriesTell(limit, before, key); }
      StepTells(before, act, key);
  }

  /** A cleanup leaves the entries whose windows are held or still open, and no others. */
  lemma SweepLeavesOpenWindows(limit: int, run: Run, now: int, key: Key)
    requires Valid(limit, run) && Ordered(Then(run, Sweep(now)))
    ensures key in After(Then(run, Sweep(now))) <==> Suppressed(run, key, now)
  {
    StoreAgrees(limit, run, key, now);
  }

  // ------------------------------------------------------------- sweeps are invisible

  function WithoutSweeps(run: Run): Run {
    match run
    case Start => Start
    case Then(before, act) => if act.Sweep? then WithoutSweeps(before) else Then(WithoutSweeps(before), act)
  }

  /** The outcome of every arrival, in order: true for a duplicate. */
  function Outcomes(run: Run): seq<bool> {
    match run
    case Start => []
    case Then(before, act) => if act.Arrive? then Outcomes(before) + [Hits(After(before), act)] else Outcomes(before)
  }

  lemma {:induction false} SweepsLeaveWindows(run: Run, key: Key)
    ensures OpenWindow(WithoutSweeps(run), key) == OpenWindow(run, key)
  {
    match run
    case Start =>
    case Then(before, act) => SweepsLeaveWindows(before, key);
  }

  lemma {:induction false} SweepsLeaveOrder(run: Run, t: int)
    ensures UpTo(run, t) ==> UpTo(WithoutSweeps(run), t)
    ensures Ordered(run) ==> Ordered(WithoutSweeps(run))
  {
    match run
    case Start =>
    case Then(before, act) =>
      SweepsLeaveOrder(before, t);
      if act.Arrive? { SweepsLeaveOrder(before, act.event.receivedAt); }
  }

  /** Removing the cleanups of a run changes no outcome, if it leaves the recorded evictions legal. */
  lemma {:induction false} SameEvictionsSameOutcomes(limit: int, run: Run)
    requires Valid(limit, run) && Valid(limit, WithoutSweeps(run)) && Ordered(run)
    ensures Outcomes(WithoutSweeps(run)) == Outcomes(run)
  {
    match run
    case Start =>
    case Then(before, act) =>
      SameEvictionsSameOutcomes(limit, before);
      if act.Arrive? {
        SweepsLeaveWindows(before, act.key);
        SweepsLeaveOrder(before, act.event.receivedAt);
        DuplicateIffWindowOpen(limit, before, act);
        DuplicateIffWindowOpen(limit, WithoutSweeps(before), act);
      }
  }

  // ------------------------------------------------------------------- eviction

  lemma {:induction false} CapacityKept(limit: int, run: Run)
    requires limit > 0 && Valid(limit, run)
    ensures |After(run)| <= limit
  {
    match run
    case Start =>
    case Then(before, act) =>
      CapacityKept(limit, before);
      StepCapacity(limit, After(before), act);
  }

  lemma SmallerMap(m: States, ks: set<Key>)
    ensures |m - ks| <= |m|
  {
    assert (m - ks).Keys == m.Keys - ks;
  }

  lemma PutCapacity(limit: int, m: States, s: DedupState, victim: Option<Key>)
    requires limit > 0 && |m| <= limit && MayEvict(m, limit, victim)
    ensures |AfterPut(m, s, victim)| <= limit
  {
    var m1 := Evicted(m, victim);
    assert victim.Some? ==> m1.Keys == m.Keys - {victim.value};
    assert AfterPut(m, s, victim).Keys == m1.Keys + {s.key};
  }

  lemma StepCapacity(limit: int, m: States, a: Action)
    requires limit > 0 && |m| <= limit && Legal(m, limit, a)
    ensures |Step(m, a)| <= limit
  {
    match a
    case Clear(key) => SmallerMap(m, {key});
    case Sweep(now) => SmallerMap(m, Expired(m, now));
    case Arrive(key, event, ttl, hold, victim) =>
      var m1 := AfterGet(m, key, event.receivedAt);
      SmallerMap(m, {key});
      if Hits(m, a) {
        assert AfterTouch(m1, key, event.receivedAt).Keys == m1.Keys;
      } else {
        PutCapacity(limit, m1, FreshState(key, event, ttl, hold), victim);
      }
  }

  /** Keys other than this one that arrived since it last arrived. */
  function OthersSince(run: Run, key: Key): set<Key> {
    match run
    case Start => {}
    case Then(before, act) =>
      if !act.Arrive? then OthersSince(before, key)
      else if act.key == key then {}
      else OthersSince(before, key) + {act.key}
  }

  lemma {:induction false} LastSeenBefore(run: Run, t: int, k: Key)
    requires ArrivalsBefore(run, t) && k in After(run)
    ensures After(run)[k].lastSeenAt < t
  {
    match run
    case Start =>
    case Then(before, act) =>
      if k in After(before) { LastSeenBefore(before, t, k); }
  }

  /** Of two entries, the one seen later arrived since the other did; no two were last seen together. */
  lemma {:induction false} SeenLaterArrivedSince(run: Run, k: Key, q: Key)
    requires StrictArrivals(run) && k in After(run) && q in After(run) && k != q
    requires After(run)[k].lastSeenAt <= After(run)[q].lastSeenAt
    ensures q in OthersSince(run, k)
  {
    match run
    case Start =>
    case Then(before, act) =>
      var m := After(before);
      if act.Arrive? && act.key == k {
        LastSeenBefore(before, act.event.receivedAt, q);
      } else if !(act.Arrive? && act.key == q) {
        SeenLaterArrivedSince(before, k, q);
      }
  }

  /**
   LRU guarantee: with strictly increasing arrival times, an entry is evicted only after at least
   `limit` other keys arrived since it last did.
   */
  lemma EvictionNeedsActivity(limit: int, run: Run, a: Action, victim: Key)
    requires limit > 0 && Valid(limit, Then(run, a)) && StrictArrivals(Then(run, a))
    requires a.Arrive? && a.victim == Some(victim)
    ensures victim != a.key && |OthersSince(Then(run, a), victim)| >= limit
  {
    var m := After(run);
    var m1 := AfterGet(m, a.key, a.event.receivedAt);
    assert a.key !in m1;
    forall q | q in m1.Keys - {victim} ensures q in OthersSince(run, victim) {
      SeenLaterArrivedSince(run, victim, q);
    }
    SubsetSize(m1.Keys - {victim} + {a.key}, OthersSince(Then(run, a), victim));
  }

  /**
   The key is held: a forwarded arrival asked to hold it, no clear came since, and fewer than
   `limit` other keys have arrived between any two of its arrivals and since the last.
   */
  predicate HeldAndActive(limit: int, run: Run, key: Key) {
    match run
    case Start => false
    case Then(before, act) =>
      match act
      case Sweep(_) => HeldAndActive(limit, before, key)
      case Clear(k) => k != key && HeldAndActive(limit, before, key)
      case Arrive(k, event, _, hold, _) =>
        if k == key then
          HeldAndActive(limit, before, key) || (hold && !Suppressed(before, key, event.receivedAt))
        else
          HeldAndActive(limit, before, key) && |OthersSince(run, key)| < limit
  }

  /** A held alarm keeps suppressing, at any later time, while fewer than `limit` other keys are active. */
  lemma {:induction false} HeldStaysSuppressed(limit: int, run: Run, key: Key, t: int)
    requires limit > 0 && Valid(limit, run) && StrictArrivals(run) && Ordered(run)
    requires HeldAndActive(limit, run, key)
    ensures Suppressed(run, key, t) && key in After(run) && After(run)[key].holdUntilClear
  {
    match run
    case Start =>
    case Then(before, act) =>
      if HeldAndActive(limit, before, key) {
        HeldStaysSuppressed(limit, before, key, t);
        if act.Arrive? && act.key == key {
          HeldStaysSuppressed(limit, before, key, act.event.receivedAt);
        }
        if act.Arrive? && act.victim.Some? {
          EvictionNeedsActivity(limit, before, act, act.victim.value);
        }
      } else {
        DuplicateIffWindowOpen(limit, before, act);
      }
  }

  // ------------------------------------------------------------------ spacing

  /** The arrivals of the key that were forwarded since it was last cleared or evicted. */
  function ForwardedTimes(run: Run, key: Key): seq<int> {
    match run
    case Start => []
    case Then(before, act) =>
      match act
      case Sweep(_) => ForwardedTimes(before, key)
      case Clear(k) => if k == key then [] else ForwardedTimes(before, key)
      case Arrive(k, event, _, _, victim) =>
        if k == key && !Hits(After(before), act) then ForwardedTimes(before, key) + [event.receivedAt]
        else if k != key && victim == Some(key) then []
        else ForwardedTimes(before, key)
  }

  /** Every arrival of the key carries this TTL. */
  predicate ConstantTtl(run: Run, key: Key, ttlSeconds: int) {
    match run
    case Start => true
    case Then(before, act) =>
      ConstantTtl(before, key, ttlSeconds) && (act.Arrive? && act.key == key ==> act.ttlSeconds == ttlSeconds)
  }

  lemma {:induction false} LastForwardOpenedWindow(limit: int, run: Run, key: Key, ttlSeconds: int)
    requires Valid(limit, run) && Ordered(run) && ConstantTtl(run, key, ttlSeconds)
    requires ForwardedTimes(run, key) != []
    ensures var times := ForwardedTimes(run, key);
            var w := OpenWindow(run, key);
            w.Some? && w.value.openedAt == times[|times| - 1] &&
            w.value.closesAt == times[|times| - 1] + Window(ttlSeconds)
  {
    var act := run.act;
    if act.Arrive? { DuplicateIffWindowOpen(limit, run.before, act); }
    if ForwardedTimes(run, key) == ForwardedTimes(run.before, key) {
      LastForwardOpenedWindow(limit, run.before, key, ttlSeconds);
    }
  }

  /**
   Window spacing: with non-decreasing times and one TTL, any two consecutive forwarded arrivals
   of a key, with no clear or eviction of it between them, are at least the TTL apart.
   */
  lemma {:induction false} ForwardsAreSpaced(limit: int, run: Run, key: Key, ttlSeconds: int, i: nat)
    requires Valid(limit, run) && Ordered(run) && ConstantTtl(run, key, ttlSeconds)
    requires i + 1 < |ForwardedTimes(run, key)|
    ensures ForwardedTimes(run, key)[i + 1] >= ForwardedTimes(run, key)[i] + Window(ttlSeconds)
    ensures 0 <= ttlSeconds <= MAX_TTL ==>
              ForwardedTimes(run, key)[i + 1] >= ForwardedTimes(run, key)[i] + ttlSeconds * 1_000_000_000
  {
    WindowIsSecondsIff(ttlSeconds);
    var times, earlier := ForwardedTimes(run, key), ForwardedTimes(run.before, key);
    if i + 1 < |earlier| {
      ForwardsAreSpaced(limit, run.before, key, ttlSeconds, i);
    } else {
      LastForwardOpenedWindow(limit, run.before, key, ttlSeconds);
      DuplicateIffWindowOpen(limit, run.before, run.act);
    }
  }

  /** N forwarded arrivals therefore span at least N - 1 windows. */
  lemma {:induction false} ForwardsSpan(limit: int, run: Run, key: Key, ttlSeconds: int, n: nat)
    requires Valid(limit, run) && Ordered(run) && ConstantTtl(run, key, ttlSeconds)
    requires 1 <= n <= |ForwardedTimes(run, key)|
    ensures ForwardedTimes(run, key)[n - 1] - ForwardedTimes(run, key)[0] >= (n - 1) * Window(ttlSeconds)
    ensures 0 <= ttlSeconds <= MAX_TTL ==>
              ForwardedTimes(run, key)[n - 1] - ForwardedTimes(run, key)[0] >= (n - 1) * (ttlSeconds * 1_000_000_000)
  {
    WindowIsSecondsIff(ttlSeconds);
    if n > 1 {
      ForwardsSpan(limit, run, key, ttlSeconds, n - 1);
      ForwardsAreSpaced(limit, run, key, ttlSeconds, n - 2);
      Distribute(n, Window(ttlSeconds));
    }
  }

  lemma Distribute(n: int, w: int)
    ensures (n - 1) * w == (n - 2) * w + w
  {
  }
}
