/** The bounded dedup store (internal/dedup/store.go). */
module Dedup {
  import opened Basics
  import opened Model

  datatype KeyItem = KeyItem(field: string, value: string)

  /**
   The hash of a dedup key. SHA-256 of the JSON text is taken to be injective, so the hash is the
   hashed list itself; the empty hash is the empty list.
   */
  type KeyHash = seq<KeyItem>

  datatype Key = Key(ruleId: string, keyHash: KeyHash)

  /** What the store remembers of the first event of a window. */
  datatype CompactEvent = CompactEvent(receivedAt: int, sourceIP: string, sourcePort: int, trapOid: string)

  function Compact(t: Trap): CompactEvent {
    CompactEvent(t.receivedAt, t.sourceIP, t.sourcePort, t.trapOid)
  }

  /** A count of seconds as a duration in nanoseconds, in 64-bit arithmetic. */
  function Window(ttlSeconds: int): int {
    Wrap64(ttlSeconds * 1_000_000_000)
  }

  /** The longest TTL, in seconds, whose duration fits 64 bits. */
  const MAX_TTL: int := 9_223_372_036

  /** The duration is the TTL in nanoseconds if and only if that fits 64 bits. */
  lemma WindowIsSecondsIff(ttlSeconds: int)
    ensures Window(ttlSeconds) == ttlSeconds * 1_000_000_000 <==> -MAX_TTL <= ttlSeconds <= MAX_TTL
  {
  }

  datatype DedupState = DedupState(
    key: Key,
    firstEvent: CompactEvent,
    firstSeenAt: int,
    lastSeenAt: int,
    ttlSeconds: int,
    holdUntilClear: bool,
    suppressedCount: nat)
  {
    function ExpiresAt(): int {
      firstSeenAt + Window(ttlSeconds)
    }

    /** Still suppressing at the given time. */
    predicate Live(now: int) {
      holdUntilClear || ExpiresAt() > now
    }
  }

  type States = map<Key, DedupState>

  // ------------------------------------------------- what each operation does

  function AfterGet(m: States, key: Key, now: int): States {
    if key in m && !m[key].Live(now) then m - {key} else m
  }

  function Found(m: States, key: Key, now: int): Option<DedupState> {
    if key in m && m[key].Live(now) then Some(m[key]) else None
  }

  function Touched(s: DedupState, at: int): DedupState {
    s.(lastSeenAt := at, suppressedCount := s.suppressedCount + 1)
  }

  function AfterTouch(m: States, key: Key, at: int): States {
    if key in m then m[key := Touched(m[key], at)] else m
  }

  function FreshState(key: Key, event: CompactEvent, ttlSeconds: int, hold: bool): DedupState {
    DedupState(key, event, event.receivedAt, event.receivedAt, ttlSeconds, hold, 0)
  }

  predicate Full(m: States, limit: int) {
    limit > 0 && |m| >= limit
  }

  /** No state was seen less recently than this one. */
  predicate Oldest(m: States, key: Key) {
    key in m && forall other | other in m :: m[key].lastSeenAt <= m[other].lastSeenAt
  }

  /** The entry a Put may evict: any least recently seen one when the store is full, else none. */
  predicate MayEvict(m: States, limit: int, victim: Option<Key>) {
    match victim
    case None => !Full(m, limit)
    case Some(v) => Full(m, limit) && Oldest(m, v)
  }

  function Evicted(m: States, victim: Option<Key>): States {
    if victim.Some? then m - {victim.value} else m
  }

  function AfterPut(m: States, s: DedupState, victim: Option<Key>): States {
    Evicted(m, victim)[s.key := s]
  }

  function Expired(m: States, now: int): set<Key> {
    set k | k in m && !m[k].Live(now)
  }

  function AfterCleanup(m: States, now: int): States {
    m - Expired(m, now)
  }

  function AfterClear(m: States, key: Key): States {
    m - {key}
  }

  /** Looking at one more entry: it joins the expired ones or it does not. */
  lemma SweepOne(m: States, now: int, rest: set<Key>, k: Key)
    requires rest <= m.Keys && k in rest
    ensures var gone := Expired(m, now) - rest;
            && k in m - gone && (m - gone)[k] == m[k] && k !in gone
            && (m - gone) - {k} == m - (gone + {k})
            && Expired(m, now) - (rest - {k}) == if m[k].Live(now) then gone else gone + {k}
  {
  }

  /** The list holds the entries of these keys and nothing more. */
  predicate Collected(m: States, keys: set<Key>, list: seq<DedupState>) {
    keys <= m.Keys && |list| == |keys| && forall k | k in keys :: m[k] in list
  }

  lemma CollectOne(m: States, keys: set<Key>, list: seq<DedupState>, k: Key)
    requires Collected(m, keys, list) && k in m && k !in keys
    ensures Collected(m, keys + {k}, list + [m[k]])
  {
  }

  // --------------------------------------------------------------- the store

  class Store {
    const limit: int
    var states: States

    constructor (limit: int)
      ensures this.limit == limit && states == map[]
    {
      this.limit, states := limit, map[];
    }

    method Cleanup(now: int) returns (expired: seq<DedupState>)
      modifies this
      ensures states == AfterCleanup(old(states), now)
      ensures Collected(old(states), Expired(old(states), now), expired)
    {
      expired := [];
      var rest := states.Keys;
      ghost var start, due := states, Expired(states, now);
      ghost var gone: set<Key> := {};
      while rest != {}
        invariant rest <= start.Keys && gone == due - rest
        invariant states == start - gone
        invariant Collected(start, gone, expired)
        decreases |rest|
      {
        var k :| k in rest;
        SweepOne(start, now, rest, k);
        rest := rest - {k};
        var state := states[k];
        if !state.Live(now) {
          CollectOne(start, gone, expired, k);
          expired := expired + [state];
          states := states - {k};
          gone := gone + {k};
        }
      }
      assert gone == due;
    }

    method Get(key: Key, now: int) returns (r: Option<DedupState>)
      modifies this
      ensures states == AfterGet(old(states), key, now)
      ensures r == Found(old(states), key, now)
    {
      if key !in states { return None; }
      var state := states[key];
      if !state.holdUntilClear && !(state.ExpiresAt() > now) {
        states := states - {key};
        return None;
      }
      r := Some(state);
    }

    /** Map order decides between equally old entries, so the victim is reported, not computed. */
    method Put(key: Key, event: CompactEvent, ttlSeconds: int, hold: bool)
      returns (state: DedupState, ghost victim: Option<Key>)
      modifies this
      ensures MayEvict(old(states), limit, victim)
      ensures state == FreshState(key, event, ttlSeconds, hold)
      ensures states == AfterPut(old(states), state, victim)
    {
      victim := None;
      if limit > 0 && |states| >= limit {
        victim := EvictOldest();
      }
      state := FreshState(key, event, ttlSeconds, hold);
      states := states[key := state];
    }

    method EvictOldest() returns (victim: Option<Key>)
      modifies this
      ensures victim.None? <==> old(states) == map[]
      ensures victim.Some? ==> Oldest(old(states), victim.value)
      ensures states == Evicted(old(states), victim)
    {
      victim := None;
      var rest := states.Keys;
      while rest != {}
        invariant rest <= states.Keys && states == old(states)
        invariant victim.None? <==> rest == states.Keys
        invariant victim.Some? ==> victim.value in states
        invariant victim.Some? ==>
                    forall k | k in states && k !in rest :: states[victim.value].lastSeenAt <= states[k].lastSeenAt
        decreases |rest|
      {
        var k :| k in rest;
        rest := rest - {k};
        if victim.None? || states[k].lastSeenAt < states[victim.value].lastSeenAt {
          victim := Some(k);
        }
      }
      if victim.Some? {
        states := states - {victim.value};
      }
    }

    method Touch(key: Key, at: int) returns (r: Option<DedupState>)
      modifies this
      ensures states == AfterTouch(old(states), key, at)
      ensures r == if key in old(states) then Some(states[key]) else None
    {
      if key !in states { return None; }
      var state := Touched(states[key], at);
      states := states[key := state];
      r := Some(state);
    }

    method Clear(key: Key) returns (r: Option<DedupState>)
      modifies this
      ensures states == AfterClear(old(states), key)
      ensures r == if key in old(states) then Some(old(states)[key]) else None
    {
      r := if key in states then Some(states[key]) else None;
      states := states - {key};
    }
  }
}
