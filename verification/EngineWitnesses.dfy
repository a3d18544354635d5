/**
 Exactly when the limit shows from outside: traffic that fills the store of the engine, and the
 equivalences it completes.
 */
module EngineWitnesses {
  import opened Basics
  import opened Config
  import opened Model
  import opened Dedup
  import opened Match
  import opened Engine
  import opened EngineRuns
  import opened EngineLimits
  import opened EngineCleanups
  import opened AlarmLifecycle
  import opened ClearTheorems

  // ------------------------------------------------------------- one alarm, many ports

  /** An alarm for trap OID 1, told apart by port, cleared by trap OID 2; held or open for a second. */
  function LinkDown(hold: bool): AlarmRule {
    var clear := ClearRule(map[TRAP := Str("2")], [], "", "");
    AlarmRule("link", map[TRAP := Str("1")], DedupConfig(1, ["port"], hold, Some(clear)))
  }

  function Settings(hold: bool): AppConfig {
    AppConfig("keep", [], [LinkDown(hold)])
  }

  /** A name for each port. */
  function Port(i: nat): string {
    seq(i + 1, _ => 'x')
  }

  function PortDown(i: nat, at: int): Trap {
    Trap(at, "192.0.2.1", 162, [], 1, "public", "0xa7", "", "", "", "", "", "", 1, 0, 0, "1", [], map[],
         map[TRAP := "1", "port" := Port(i)], false)
  }

  function PortKey(i: nat): Key {
    Key("link", [KeyItem("port", Port(i))])
  }

  function PortKeys(n: nat): (keys: seq<Key>)
    ensures |keys| == n && forall i | 0 <= i < n :: keys[i] == PortKey(i)
  {
    seq(n, i requires 0 <= i < n => PortKey(i))
  }

  lemma PortsDiffer(n: nat)
    ensures Limits.Distinct(PortKeys(n))
  {
    forall i, j | 0 <= i < j < n ensures PortKey(i) != PortKey(j) {
      assert |Port(i)| != |Port(j)|;
      assert PortKey(i).keyHash[0] != PortKey(j).keyHash[0];
    }
  }

  lemma NotCleared(lib: Lib, hold: bool, i: nat, at: int)
    ensures var t := PortDown(i, at);
            Cleared(lib, Settings(hold), t) == {} && !IsClear(lib, Settings(hold), t)
  {
    var t := PortDown(i, at);
    FlatTrapOid(lib, t.fields, "2");
    TwoNormalTexts();
    assert ResolveField(t.fields, TRAP) == "1";
    var alarms, raw := [LinkDown(hold)], t.rawVarBindMap;
    assert ClearEffectOf(lib, alarms[0], t.fields, raw) == NotAClear && alarms[1..] == [];
    assert FlagFrom(lib, false, alarms, t.fields, raw) == FlagFrom(lib, false, [], t.fields, raw);
    assert ClearedKeys(lib, alarms, t.fields, raw) == ClearedKeys(lib, [], t.fields, raw);
  }

  lemma PortArrives(lib: Lib, hold: bool, i: nat, at: int)
    ensures ArrivalOf(lib, Settings(hold), PortDown(i, at)) == Some(Arrival(LinkDown(hold), PortKey(i)))
    ensures PassesFilters(lib, Settings(hold), PortDown(i, at))
  {
    var t := PortDown(i, at);
    NotCleared(lib, hold, i, at);
    FlatTrapOid(lib, t.fields, "1");
    assert FirstAlarm(lib, [LinkDown(hold)], t.fields) == Ok(Some(LinkDown(hold)));
    assert ResolveField(t.fields, "port") == Port(i) != "";
    assert Items(t.fields, ["port"]) == [KeyItem("port", Port(i))];
  }

  /** A port goes down: the trace gets one arrival. */
  lemma PortTrace(lib: Lib, run: Run, hold: bool, i: nat, at: int, victim: Option<Key>)
    requires CfgAt(run) == Settings(hold)
    ensures ArrivesUnder(lib, run, Event(PortDown(i, at), true, victim), PortKey(i))
    ensures Trace(lib, Fed(run, Event(PortDown(i, at), true, victim))) ==
            Runs.Then(Trace(lib, run), Runs.Arrive(PortKey(i), Limits.Stamp(at), 1, hold, victim))
  {
    PortArrives(lib, hold, i, at);
    NotCleared(lib, hold, i, at);
    EventTrace(lib, run, Event(PortDown(i, at), true, victim));
    assert Clearing(Trace(lib, run), {}) == Trace(lib, run);
  }

  // ------------------------------------------------------------- filling the store

  /** The n-th port goes down; behind the first, the configuration changes and holds no others. */
  function OneMore(before: Run, out: Outlets, n: nat): Run
    requires n > 0
  {
    var down := Fed(before, Event(PortDown(n - 1, n - 1), true, None));
    if n == 1 then Fed(down, Reload(Settings(false), out)) else down
  }

  /** The first n ports go down one after the other. */
  function Filling(out: Outlets, n: nat): Run {
    if n == 0 then Fresh(Settings(true), out) else OneMore(Filling(out, n - 1), out, n)
  }

  lemma {:induction false} FillingSettings(out: Outlets, n: nat)
    ensures CfgAt(Filling(out, n)) == Settings(n == 0)
  {
    if n > 1 { FillingSettings(out, n - 1); }
  }

  lemma OneMoreTrace(lib: Lib, before: Run, out: Outlets, n: nat)
    requires n > 0 && CfgAt(before) == Settings(n == 1)
    ensures Trace(lib, OneMore(before, out, n)) ==
            Runs.Then(Trace(lib, before), Runs.Arrive(PortKey(n - 1), Limits.Stamp(n - 1), 1, n == 1, None))
  {
    PortTrace(lib, before, n == 1, n - 1, n - 1, None);
  }

  lemma {:induction false} FillingTrace(lib: Lib, out: Outlets, n: nat, all: nat)
    requires n <= all
    ensures Trace(lib, Filling(out, n)) == Limits.Filling(PortKeys(all), n)
  {
    if n > 0 {
      FillingTrace(lib, out, n - 1, all);
      FillingSettings(out, n - 1);
      OneMoreTrace(lib, Filling(out, n - 1), out, n);
      assert Limits.Filling(PortKeys(all), n) ==
             Runs.Then(Limits.Filling(PortKeys(all), n - 1), Limits.Put(PortKeys(all), n - 1));
    }
  }

  lemma {:induction false} FillingTimes(out: Outlets, n: nat, t: int)
    requires n <= t
    ensures Ordered(Filling(out, n)) && StrictEvents(Filling(out, n))
    ensures UpTo(Filling(out, n), t) && EventsBefore(Filling(out, n), t)
  {
    if n > 0 {
      FillingTimes(out, n - 1, t);
      FillingTimes(out, n - 1, n - 1);
    }
  }

  lemma OneMoreVictims(lib: Lib, before: Run, out: Outlets, n: nat)
    requires n > 0 && VictimsFit(lib, before) && WithoutTicks(before) == before
    ensures VictimsFit(lib, OneMore(before, out, n)) && WithoutTicks(OneMore(before, out, n)) == OneMore(before, out, n)
  {
    var down := Event(PortDown(n - 1, n - 1), true, None);
    assert VictimsFit(lib, Fed(before, down)) && WithoutTicks(Fed(before, down)) == Fed(before, down);
  }

  lemma {:induction false} FillingVictims(lib: Lib, out: Outlets, n: nat)
    ensures VictimsFit(lib, Filling(out, n)) && WithoutTicks(Filling(out, n)) == Filling(out, n)
  {
    if n > 0 {
      FillingVictims(lib, out, n - 1);
      OneMoreVictims(lib, Filling(out, n - 1), out, n);
    }
  }

  // ----------------------------------------------------- when cleanups show from outside

  /** One more port goes down later, which evicts the first, and the first again, which evicts the second. */
  function WithoutCleanup(out: Outlets, n: nat): Run {
    Fed(Fed(Filling(out, n), Event(PortDown(n, Limits.Later(n)), true, Some(PortKey(0)))),
        Event(PortDown(0, Limits.Later(n) + 1), true, Some(PortKey(1))))
  }

  /** The same behind a cleanup, which makes room. */
  function WithCleanup(out: Outlets, n: nat): Run {
    Fed(Fed(Fed(Filling(out, n), Tick(Limits.Later(n))), Event(PortDown(n, Limits.Later(n)), true, None)),
        Event(PortDown(0, Limits.Later(n) + 1), true, None))
  }

  lemma WithoutTrace(lib: Lib, out: Outlets, n: nat)
    requires n > 1
    ensures Trace(lib, WithoutCleanup(out, n)) == Limits.WithoutCleanup(PortKeys(n + 1), n)
  {
    FillingTrace(lib, out, n, n + 1);
    FillingSettings(out, n);
    PortTrace(lib, Filling(out, n), false, n, Limits.Later(n), Some(PortKey(0)));
    PortTrace(lib, WithoutCleanup(out, n).before, false, 0, Limits.Later(n) + 1, Some(PortKey(1)));
  }

  lemma WithTrace(lib: Lib, out: Outlets, n: nat)
    requires n > 1
    ensures Trace(lib, WithCleanup(out, n)) == Limits.WithCleanup(PortKeys(n + 1), n)
  {
    FillingTrace(lib, out, n, n + 1);
    FillingSettings(out, n);
    PortTrace(lib, Fed(Filling(out, n), Tick(Limits.Later(n))), false, n, Limits.Later(n), None);
    PortTrace(lib, WithCleanup(out, n).before, false, 0, Limits.Later(n) + 1, None);
  }

  /** A port that goes down reaches dedup and so may evict. */
  lemma PortFits(lib: Lib, run: Run, i: nat, at: int, victim: Option<Key>)
    requires VictimsFit(lib, run) && CfgAt(run) == Settings(false)
    ensures VictimsFit(lib, Fed(run, Event(PortDown(i, at), true, victim)))
  {
    PortArrives(lib, false, i, at);
  }

  lemma PairVictims(lib: Lib, out: Outlets, n: nat)
    requires n > 1
    ensures VictimsFit(lib, WithCleanup(out, n)) && VictimsFit(lib, WithoutCleanup(out, n))
  {
    var full := Filling(out, n);
    FillingSettings(out, n);
    FillingVictims(lib, out, n);
    PortFits(lib, full, n, Limits.Later(n), Some(PortKey(0)));
    PortFits(lib, WithoutCleanup(out, n).before, 0, Limits.Later(n) + 1, Some(PortKey(1)));
    PortFits(lib, Fed(full, Tick(Limits.Later(n))), n, Limits.Later(n), None);
    PortFits(lib, WithCleanup(out, n).before, 0, Limits.Later(n) + 1, None);
  }

  lemma PairTimes(out: Outlets, n: nat)
    ensures Ordered(WithCleanup(out, n)) && Ordered(WithoutCleanup(out, n))
  {
    FillingTimes(out, n, Limits.Later(n));
    FillingTimes(out, n, Limits.Later(n) + 1);
  }

  lemma PairTraffic(lib: Lib, out: Outlets, n: nat)
    ensures Traffic(WithoutCleanup(out, n)) == Traffic(WithCleanup(out, n))
    ensures WithoutTicks(WithoutCleanup(out, n)) == WithoutCleanup(out, n)
  {
    FillingVictims(lib, out, n);
    assert Traffic(WithoutCleanup(out, n).before) == Traffic(WithCleanup(out, n).before);
  }

  lemma PairValid(lib: Lib, limit: int, out: Outlets)
    requires limit > 1
    ensures Valid(lib, limit, WithCleanup(out, limit)) && Valid(lib, limit, WithoutCleanup(out, limit))
  {
    var keys := PortKeys(limit + 1);
    PortsDiffer(limit + 1);
    Limits.CleanupMayShow(limit, keys);
    WithTrace(lib, out, limit);
    WithoutTrace(lib, out, limit);
    PairVictims(lib, out, limit);
    ValidByTrace(lib, limit, WithCleanup(out, limit));
    ValidByTrace(lib, limit, WithoutCleanup(out, limit));
  }

  /** With a cleanup the first port's second event is a duplicate. */
  lemma CleanupSaves(lib: Lib, limit: int, out: Outlets)
    requires limit > 1 && Valid(lib, limit, WithCleanup(out, limit))
    ensures var run := WithCleanup(out, limit); HandledAt(lib, run.before, run.input).outcome.reason.Duplicate?
  {
    var run := WithCleanup(out, limit);
    PortsDiffer(limit + 1);
    Limits.CleanupSaves(limit, PortKeys(limit + 1));
    WithTrace(lib, out, limit);
    FillingSettings(out, limit);
    PortArrives(lib, false, 0, Limits.Later(limit) + 1);
    DuplicateInTrace(lib, limit, run.before, run.input);
  }

  /** Without one it is not. */
  lemma EvictionLoses(lib: Lib, limit: int, out: Outlets)
    requires limit > 1 && Valid(lib, limit, WithoutCleanup(out, limit))
    ensures var run := WithoutCleanup(out, limit); !HandledAt(lib, run.before, run.input).outcome.reason.Duplicate?
  {
    var run := WithoutCleanup(out, limit);
    PortsDiffer(limit + 1);
    Limits.EvictionLoses(limit, PortKeys(limit + 1));
    WithoutTrace(lib, out, limit);
    DuplicateInTrace(lib, limit, run.before, run.input);
  }

  lemma {:induction false} ListedSize(list: seq<Key>, keys: set<Key>)
    requires forall k | k in keys :: k in list
    ensures |keys| <= |list|
  {
    if list != [] {
      var last := list[|list| - 1];
      assert forall k | k in keys && k != last :: k in list[..|list| - 1];
      ListedSize(list[..|list| - 1], keys - {last});
    } else {
      assert keys == {};
    }
  }

  /**
   The failing family seen from outside: at every limit above 1, two runs of the same events over one
   key more, one with a cleanup and one without, in which the relay reports the last event differently.
   */
  lemma CleanupMayShow(lib: Lib, limit: int, out: Outlets)
    requires limit > 1
    ensures var run, calm := WithCleanup(out, limit), WithoutCleanup(out, limit);
            && Valid(lib, limit, run) && Ordered(run) && |Limits.Keys(Trace(lib, run))| <= limit + 1
            && Valid(lib, limit, calm) && WithoutTicks(calm) == calm && Traffic(calm) == Traffic(run)
            && Reports(lib, calm) != Reports(lib, run)
  {
    var run, calm := WithCleanup(out, limit), WithoutCleanup(out, limit);
    PairValid(lib, limit, out);
    PairTimes(out, limit);
    PairTraffic(lib, out, limit);
    CleanupSaves(lib, limit, out);
    EvictionLoses(lib, limit, out);
    var r, c := Reports(lib, run), Reports(lib, calm);
    assert r[|r| - 1] == HandledAt(lib, run.before, run.input).outcome;
    assert c[|c| - 1] == HandledAt(lib, calm.before, calm.input).outcome;
    PortsDiffer(limit + 1);
    WithTrace(lib, out, limit);
    Limits.CleanupMayShow(limit, PortKeys(limit + 1));
    ListedSize(PortKeys(limit + 1), Limits.Keys(Trace(lib, run)));
  }

  /** While at most n keys reach dedup, no cleanup changes what the relay reports, sends or writes. */
  ghost predicate CleanupsInvisible(lib: Lib, limit: int, n: nat) {
    forall run, calm |
      && Valid(lib, limit, run) && Ordered(run) && |Limits.Keys(Trace(lib, run))| <= n
      && Valid(lib, limit, calm) && WithoutTicks(calm) == calm && Traffic(calm) == Traffic(run)
      :: Reports(lib, calm) == Reports(lib, run) && LooksAlike(WorldAt(lib, calm), WorldAt(lib, run))
  }

  lemma CleanupsInvisibleWithRoom(lib: Lib, limit: int, n: nat)
    requires limit <= 1 || n <= limit
    ensures CleanupsInvisible(lib, limit, n)
  {
    forall run, calm |
      && Valid(lib, limit, run) && Ordered(run) && |Limits.Keys(Trace(lib, run))| <= n
      && Valid(lib, limit, calm) && WithoutTicks(calm) == calm && Traffic(calm) == Traffic(run)
      ensures Reports(lib, calm) == Reports(lib, run) && LooksAlike(WorldAt(lib, calm), WorldAt(lib, run))
    {
      TrafficOrder(run, 0);
      TrafficOrder(calm, 0);
      TrafficDecides(lib, limit, run, calm);
    }
  }

  lemma PairRefutes(lib: Lib, limit: int, n: nat, run: Run, calm: Run)
    requires Valid(lib, limit, run) && Ordered(run) && |Limits.Keys(Trace(lib, run))| <= n
    requires Valid(lib, limit, calm) && WithoutTicks(calm) == calm && Traffic(calm) == Traffic(run)
    requires Reports(lib, calm) != Reports(lib, run)
    ensures !CleanupsInvisible(lib, limit, n)
  {
  }

  lemma CleanupsVisibleWithoutRoom(lib: Lib, limit: int, n: nat)
    requires 1 < limit < n
    ensures !CleanupsInvisible(lib, limit, n)
  {
    var out := Outlets(0, false);
    CleanupMayShow(lib, limit, out);
    PairRefutes(lib, limit, n, WithCleanup(out, limit), WithoutCleanup(out, limit));
  }

  /**
   Periodic cleanup never changes what is reported, sent or written if and only if the store has no
   limit, room for as many keys as are in use, or room for one entry only.
   */
  lemma CleanupsInvisibleIff(lib: Lib, limit: int, n: nat)
    ensures CleanupsInvisible(lib, limit, n) <==> limit <= 1 || n <= limit
  {
    if limit <= 1 || n <= limit {
      CleanupsInvisibleWithRoom(lib, limit, n);
    } else {
      CleanupsVisibleWithoutRoom(lib, limit, n);
    }
  }

  // --------------------------------------------------- when a held alarm is lost

  /** One more port goes down at once and evicts the first, which is held. */
  function HeldThenEvicted(out: Outlets, n: nat): Run {
    Fed(Filling(out, n), Event(PortDown(n, n), true, Some(PortKey(0))))
  }

  /** As documented: while at most n keys reach dedup, a held alarm suppresses its events until its clear. */
  ghost predicate OnlyClearsRelease(lib: Lib, limit: int, n: nat) {
    forall run, input, key |
      && Valid(lib, limit, run) && Ordered(Fed(run, input)) && StrictEvents(Fed(run, input))
      && |Limits.Keys(Trace(lib, run))| <= n && Limits.HeldUncleared(Trace(lib, run), key)
      && ArrivesUnder(lib, run, input, key) && key !in Cleared(lib, CfgAt(run), input.t)
      :: HandledAt(lib, run, input).outcome.reason.Duplicate?
  }

  lemma HeldTrace(lib: Lib, out: Outlets, n: nat)
    requires n > 0
    ensures Trace(lib, HeldThenEvicted(out, n)) == Limits.HeldThenEvicted(PortKeys(n + 1), n)
    ensures VictimsFit(lib, HeldThenEvicted(out, n))
  {
    FillingTrace(lib, out, n, n + 1);
    FillingSettings(out, n);
    FillingVictims(lib, out, n);
    PortTrace(lib, Filling(out, n), false, n, n, Some(PortKey(0)));
  }

  /** The first port goes down once more. */
  function Again(n: nat): Input {
    Event(PortDown(0, n + 1), true, None)
  }

  lemma HeldTimes(out: Outlets, n: nat)
    ensures Ordered(Fed(HeldThenEvicted(out, n), Again(n))) && StrictEvents(Fed(HeldThenEvicted(out, n), Again(n)))
  {
    FillingTimes(out, n, n);
    FillingTimes(out, n, n + 1);
  }

  lemma HeldIsLegal(lib: Lib, limit: int, out: Outlets)
    requires limit >= 1
    ensures var run := HeldThenEvicted(out, limit);
            && Valid(lib, limit, run) && |Limits.Keys(Trace(lib, run))| <= limit + 1
            && Limits.HeldUncleared(Trace(lib, run), PortKey(0))
            && forall t :: !Runs.Suppressed(Trace(lib, run), PortKey(0), t)
  {
    var run := HeldThenEvicted(out, limit);
    PortsDiffer(limit + 1);
    Limits.HeldAlarmMayBeEvicted(limit, PortKeys(limit + 1));
    HeldTrace(lib, out, limit);
    ValidByTrace(lib, limit, run);
    ListedSize(PortKeys(limit + 1), Limits.Keys(Trace(lib, run)));
  }

  lemma AgainArrives(lib: Lib, n: nat, out: Outlets)
    requires n > 0
    ensures var run := HeldThenEvicted(out, n);
            ArrivesUnder(lib, run, Again(n), PortKey(0)) && PortKey(0) !in Cleared(lib, CfgAt(run), Again(n).t)
  {
    FillingSettings(out, n);
    PortTrace(lib, HeldThenEvicted(out, n), false, 0, n + 1, None);
    NotCleared(lib, false, 0, n + 1);
  }

  /** At any limit, `limit` other keys are enough: the held alarm's next event is sent, without any clear. */
  lemma HeldAlarmMayBeEvicted(lib: Lib, limit: int, out: Outlets)
    requires limit >= 1
    ensures var run, again := HeldThenEvicted(out, limit), Again(limit);
            && Valid(lib, limit, run) && Ordered(Fed(run, again)) && StrictEvents(Fed(run, again))
            && |Limits.Keys(Trace(lib, run))| <= limit + 1 && Limits.HeldUncleared(Trace(lib, run), PortKey(0))
            && ArrivesUnder(lib, run, again, PortKey(0)) && PortKey(0) !in Cleared(lib, CfgAt(run), again.t)
            && !HandledAt(lib, run, again).outcome.reason.Duplicate?
  {
    HeldTimes(out, limit);
    HeldIsLegal(lib, limit, out);
    AgainArrives(lib, limit, out);
    DuplicateByWindow(lib, limit, HeldThenEvicted(out, limit), Again(limit), PortKey(0));
  }

  /** A held alarm is released only by its clear if and only if the store has room for as many keys as are in use. */
  lemma OnlyClearsReleaseIff(lib: Lib, limit: int, n: nat)
    ensures OnlyClearsRelease(lib, limit, n) <==> limit <= 0 || n <= limit
  {
    if limit <= 0 || n <= limit {
      forall run, input, key |
        && Valid(lib, limit, run) && Ordered(Fed(run, input)) && StrictEvents(Fed(run, input))
        && |Limits.Keys(Trace(lib, run))| <= n && Limits.HeldUncleared(Trace(lib, run), key)
        && ArrivesUnder(lib, run, input, key) && key !in Cleared(lib, CfgAt(run), input.t)
        ensures HandledAt(lib, run, input).outcome.reason.Duplicate?
      {
        TraceIsFaithful(lib, limit, run);
        Limits.RoomyIsValid(limit, Trace(lib, run));
        Limits.NothingEvictedKeepsHeld(Trace(lib, run), key);
        DuplicateByWindow(lib, limit, run, input, key);
      }
    } else {
      HeldAlarmMayBeEvicted(lib, limit, Outlets(0, false));
    }
  }
}
