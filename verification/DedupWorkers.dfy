/**
 The store under several workers. HandleEvent calls Get, Touch, Put and Send one after the other, each
 atomic on its own, so steps of different workers, clears and sweeps interleave freely.
 */
module DedupWorkers {
  import opened Basics
  import opened Dedup
  import Engine
  import EngineTheorems
  import Runs = DedupRuns

  /** An event on its way through dedup: its key and the window its rule asks for. */
  datatype Job = Job(key: Key, event: CompactEvent, ttlSeconds: int, hold: bool)

  /** Where a worker stands in HandleEvent. */
  datatype Pc =
    | Idle
    | AtGet(job: Job)
    | AtTouch(job: Job)
    | AtPut(job: Job)
    | AtSend(job: Job)

  /** What HandleEvent returns for one event. */
  datatype Report = Report(outcome: Engine.Outcome, error: Option<Engine.EngineError>)

  datatype State = State(
    store: States,
    workers: seq<Pc>,
    duplicates: nat,       // events reported as duplicates
    retired: nat,          // suppressions counted on entries that are no longer in the store
    begun: nat,            // events taken up
    puts: nat,             // entries stored
    reports: seq<Report>)  // what was returned for the events finished so far

  datatype Step =
    | Begin(i: nat, job: Job)
    | DoGet(i: nat)
    | DoTouch(i: nat)
    | DoPut(i: nat, victim: Option<Key>)
    | DoSend(i: nat, ok: bool)
    | DoClear(key: Key)
    | DoSweep(now: int)

  datatype Run = Start(workers: nat) | Then(before: Run, step: Step)

  predicate Enabled(limit: int, s: State, step: Step) {
    match step
    case Begin(i, _) => i < |s.workers| && s.workers[i].Idle?
    case DoGet(i) => i < |s.workers| && s.workers[i].AtGet?
    case DoTouch(i) => i < |s.workers| && s.workers[i].AtTouch?
    case DoPut(i, victim) => i < |s.workers| && s.workers[i].AtPut? && MayEvict(s.store, limit, victim)
    case DoSend(i, _) => i < |s.workers| && s.workers[i].AtSend?
    case DoClear(_) => true
    case DoSweep(_) => true
  }

  function DuplicateReport(job: Job): Report {
    Report(Engine.Outcome(false, false, Engine.Duplicate, job.key.ruleId), None)
  }

  function SendReport(job: Job, ok: bool): Report {
    if ok then Report(Engine.Outcome(true, true, Engine.Alarm, job.key.ruleId), None)
    else Report(Engine.Outcome(true, false, Engine.ForwardFailed, job.key.ruleId), Some(Engine.SendFailed))
  }

  /** The state with a new store; suppressions on entries that disappear are retired. */
  ghost function WithStore(s: State, m: States): State {
    s.(store := m, retired := s.retired + Suppressions(s.store - m.Keys))
  }

  ghost function Next(limit: int, s: State, step: Step): State
    requires Enabled(limit, s, step)
  {
    match step
    case Begin(i, job) => s.(workers := s.workers[i := AtGet(job)], begun := s.begun + 1)
    case DoGet(i) =>
      var job := s.workers[i].job;
      var pc := if Found(s.store, job.key, job.event.receivedAt).Some? then AtTouch(job) else AtPut(job);
      WithStore(s, AfterGet(s.store, job.key, job.event.receivedAt)).(workers := s.workers[i := pc])
    case DoTouch(i) =>
      var job := s.workers[i].job;
      if job.key in s.store then
        s.(store := AfterTouch(s.store, job.key, job.event.receivedAt),
           workers := s.workers[i := Idle],
           duplicates := s.duplicates + 1,
           reports := s.reports + [DuplicateReport(job)])
      else
        s.(workers := s.workers[i := AtPut(job)])
    case DoPut(i, victim) =>
      var job := s.workers[i].job;
      var kept := Evicted(s.store, victim) - {job.key};
      WithStore(s, kept).(store := AfterPut(s.store, FreshState(job.key, job.event, job.ttlSeconds, job.hold), victim),
                          workers := s.workers[i := AtSend(job)],
                          puts := s.puts + 1)
    case DoSend(i, ok) =>
      s.(workers := s.workers[i := Idle], reports := s.reports + [SendReport(s.workers[i].job, ok)])
    case DoClear(key) => WithStore(s, AfterClear(s.store, key))
    case DoSweep(now) => WithStore(s, AfterCleanup(s.store, now))
  }

  /** The event of a job as one arrival at the store. */
  function ArrivalOf(job: Job, victim: Option<Key>): Runs.Action {
    Runs.Arrive(job.key, job.event, job.ttlSeconds, job.hold, victim)
  }

  /** A worker takes up the job and goes through Get, Touch or Put and Send with nothing happening in between. */
  ghost function Undisturbed(limit: int, s: State, i: nat, job: Job, victim: Option<Key>, ok: bool): State
    requires Enabled(limit, s, Begin(i, job)) && Runs.Legal(s.store, limit, ArrivalOf(job, victim))
  {
    var looked := Next(limit, Next(limit, s, Begin(i, job)), DoGet(i));
    if looked.workers[i].AtTouch? then Next(limit, looked, DoTouch(i))
    else Next(limit, Next(limit, looked, DoPut(i, victim)), DoSend(i, ok))
  }

  /** Undisturbed, the steps of a worker add up to one arrival of the sequential runs. */
  lemma StepsAddUp(limit: int, s: State, i: nat, job: Job, victim: Option<Key>, ok: bool)
    requires Enabled(limit, s, Begin(i, job)) && Runs.Legal(s.store, limit, ArrivalOf(job, victim))
    ensures var s', a := Undisturbed(limit, s, i, job, victim, ok), ArrivalOf(job, victim);
            && s'.store == Runs.Step(s.store, a) && s'.workers == s.workers
            && s'.reports == s.reports + [if Runs.Hits(s.store, a) then DuplicateReport(job) else SendReport(job, ok)]
  {
    assert s.workers[i := Idle] == s.workers;
  }

  ghost predicate Valid(limit: int, run: Run)
    decreases run, 0
  {
    match run
    case Start(_) => true
    case Then(before, step) => Valid(limit, before) && Enabled(limit, At(limit, before), step)
  }

  ghost function At(limit: int, run: Run): State
    requires Valid(limit, run)
    decreases run, 1
  {
    match run
    case Start(n) => State(map[], seq(n, _ => Idle), 0, 0, 0, 0, [])
    case Then(before, step) => Next(limit, At(limit, before), step)
  }

  function WorkerCount(run: Run): nat {
    match run
    case Start(n) => n
    case Then(before, _) => WorkerCount(before)
  }

  lemma {:induction false} WorkersStay(limit: int, run: Run)
    requires Valid(limit, run)
    ensures |At(limit, run).workers| == WorkerCount(run)
  {
    if run.Then? { WorkersStay(limit, run.before); }
  }

  // -------------------------------------------------------------- counting workers

  predicate Putting(pc: Pc, key: Key) {
    pc.AtPut? && pc.job.key == key
  }

  /** Workers about to Put the key. */
  function Putters(workers: seq<Pc>, key: Key): nat {
    if workers == [] then 0 else Putters(workers[1..], key) + if Putting(workers[0], key) then 1 else 0
  }

  lemma {:induction false} PuttersBounded(workers: seq<Pc>, key: Key)
    ensures Putters(workers, key) <= |workers|
  {
    if workers != [] { PuttersBounded(workers[1..], key); }
  }

  lemma {:induction false} PuttersUpdate(workers: seq<Pc>, i: nat, pc: Pc, key: Key)
    requires i < |workers|
    ensures Putters(workers[i := pc], key) ==
            Putters(workers, key) - (if Putting(workers[i], key) then 1 else 0) + (if Putting(pc, key) then 1 else 0)
  {
    if i == 0 {
      assert workers[i := pc][1..] == workers[1..];
    } else {
      assert workers[i := pc][1..] == workers[1..][i - 1 := pc];
      PuttersUpdate(workers[1..], i - 1, pc, key);
    }
  }

  // ---------------------------------------------------------- forwards of one key

  /** The step takes the key's entry out of the store. */
  ghost predicate Removes(limit: int, s: State, step: Step, key: Key)
    requires Enabled(limit, s, step)
  {
    key in s.store &&
    (key !in Next(limit, s, step).store || (step.DoPut? && step.victim == Some(key)))
  }

  ghost predicate Puts(limit: int, s: State, step: Step, key: Key)
    requires Enabled(limit, s, step)
  {
    step.DoPut? && s.workers[step.i].job.key == key
  }

  /** Puts of the key, each followed by a send, since its entry was last removed. */
  ghost function PutsSinceRemoval(limit: int, run: Run, key: Key): nat
    requires Valid(limit, run)
  {
    match run
    case Start(_) => 0
    case Then(before, step) =>
      var s := At(limit, before);
      (if Removes(limit, s, step, key) then 0 else PutsSinceRemoval(limit, before, key)) +
      (if Puts(limit, s, step, key) then 1 else 0)
  }

  lemma StepPuts(limit: int, s: State, step: Step, key: Key, puts: nat)
    requires Enabled(limit, s, step)
    requires key in s.store ==> 1 <= puts && puts + Putters(s.workers, key) <= |s.workers|
    requires key !in s.store ==> puts == 0
    ensures var s' := Next(limit, s, step);
            var puts' := (if Removes(limit, s, step, key) then 0 else puts) +
                         (if Puts(limit, s, step, key) then 1 else 0);
            && (key in s'.store ==> 1 <= puts' && puts' + Putters(s'.workers, key) <= |s'.workers|)
            && (key !in s'.store ==> puts' == 0)
  {
    var s' := Next(limit, s, step);
    PuttersBounded(s.workers, key);
    if !step.DoClear? && !step.DoSweep? {
      PuttersUpdate(s.workers, step.i, s'.workers[step.i], key);
    }
  }

  /** While the entry is present, no further worker can set out to Put it. */
  lemma {:induction false} PresentEntryStopsPutters(limit: int, run: Run, key: Key)
    requires Valid(limit, run)
    ensures var s, puts := At(limit, run), PutsSinceRemoval(limit, run, key);
            && (key in s.store ==> 1 <= puts && puts + Putters(s.workers, key) <= WorkerCount(run))
            && (key !in s.store ==> puts == 0)
  {
    WorkersStay(limit, run);
    if run.Then? {
      PresentEntryStopsPutters(limit, run.before, key);
      WorkersStay(limit, run.before);
      StepPuts(limit, At(limit, run.before), run.step, key, PutsSinceRemoval(limit, run.before, key));
    }
  }

  /**
   Concurrent bound: over every interleaving, from the moment a key is absent until its entry is
   next removed, at most one Put of it happens per worker; with one worker, exactly one while the
   entry is there.
   */
  lemma AtMostOnePutPerWorker(limit: int, run: Run, key: Key)
    requires Valid(limit, run)
    ensures PutsSinceRemoval(limit, run, key) <= WorkerCount(run)
    ensures WorkerCount(run) == 1 && key in At(limit, run).store ==> PutsSinceRemoval(limit, run, key) == 1
  {
    PresentEntryStopsPutters(limit, run, key);
  }

  // ----------------------------------------------------------------- the race

  /** The first n of the workers have moved on to the given place. */
  function Moved(workers: nat, n: nat, from: Pc, to: Pc): (pcs: seq<Pc>)
    requires n <= workers
    ensures |pcs| == workers
  {
    seq(workers, i => if i < n then to else from)
  }

  lemma MoveNext(workers: nat, n: nat, from: Pc, to: Pc)
    requires n < workers
    ensures Moved(workers, n, from, to)[n := to] == Moved(workers, n + 1, from, to)
  {
  }

  lemma AllMoved(workers: nat, from: Pc, to: Pc, next: Pc)
    ensures Moved(workers, workers, from, to) == Moved(workers, 0, to, next)
  {
  }

  /** Nothing is stored, and the first n of the workers have taken up the job. */
  predicate Begun(s: State, workers: nat, n: nat, job: Job)
    requires n <= workers
  {
    s.store == map[] && s.workers == Moved(workers, n, Idle, AtGet(job))
  }

  lemma BeginNext(limit: int, run: Run, workers: nat, n: nat, job: Job)
    requires n < workers && Valid(limit, run) && Begun(At(limit, run), workers, n, job)
    ensures var next := Then(run, Begin(n, job)); Valid(limit, next) && Begun(At(limit, next), workers, n + 1, job)
  {
    MoveNext(workers, n, Idle, AtGet(job));
  }

  /** The first n workers begin, all with the same job. */
  lemma {:induction false} AllBegin(limit: int, workers: nat, n: nat, job: Job) returns (run: Run)
    requires n <= workers
    ensures Valid(limit, run) && WorkerCount(run) == workers && Begun(At(limit, run), workers, n, job)
  {
    if n == 0 {
      run := Start(workers);
    } else {
      var before := AllBegin(limit, workers, n - 1, job);
      BeginNext(limit, before, workers, n - 1, job);
      run := Then(before, Begin(n - 1, job));
    }
  }

  /** Nothing is stored, and the first n workers have looked the absent key up. */
  predicate Looking(s: State, workers: nat, n: nat, job: Job)
    requires n <= workers
  {
    s.store == map[] && s.workers == Moved(workers, n, AtGet(job), AtPut(job))
  }

  lemma LookNext(limit: int, run: Run, workers: nat, n: nat, job: Job)
    requires n < workers && Valid(limit, run) && Looking(At(limit, run), workers, n, job)
    ensures var next := Then(run, DoGet(n)); Valid(limit, next) && Looking(At(limit, next), workers, n + 1, job)
  {
    MoveNext(workers, n, AtGet(job), AtPut(job));
  }

  /** All workers begin, and then the first n look up. */
  lemma {:induction false} AllLookUp(limit: int, workers: nat, n: nat, job: Job) returns (run: Run)
    requires n <= workers
    ensures Valid(limit, run) && WorkerCount(run) == workers && Looking(At(limit, run), workers, n, job)
  {
    if n == 0 {
      run := AllBegin(limit, workers, workers, job);
      AllMoved(workers, Idle, AtGet(job), AtPut(job));
    } else {
      var before := AllLookUp(limit, workers, n - 1, job);
      LookNext(limit, before, workers, n - 1, job);
      run := Then(before, DoGet(n - 1));
    }
  }

  /** The entry every worker puts. */
  function RaceState(job: Job): DedupState {
    FreshState(job.key, job.event, job.ttlSeconds, job.hold)
  }

  /** After n of the Puts. */
  predicate Raced(s: State, workers: nat, n: nat, job: Job)
    requires n <= workers
  {
    && s.workers == Moved(workers, n, AtPut(job), AtSend(job))
    && s.store == if n == 0 then map[] else map[job.key := RaceState(job)]
  }

  lemma RaceStep(limit: int, s: State, workers: nat, n: nat, job: Job)
    requires n < workers && Raced(s, workers, n, job) && (limit != 1 || n == 0)
    ensures Enabled(limit, s, DoPut(n, None))
    ensures Raced(Next(limit, s, DoPut(n, None)), workers, n + 1, job)
    ensures !Removes(limit, s, DoPut(n, None), job.key) && Puts(limit, s, DoPut(n, None), job.key)
  {
    assert s.workers[n] == AtPut(job);
    MoveNext(workers, n, AtPut(job), AtSend(job));
    assert s.store.Keys <= {job.key} && |s.store| == |s.store.Keys|;
    SubsetSize(s.store.Keys, {job.key});
    assert AfterPut(s.store, RaceState(job), None) == map[job.key := RaceState(job)];
  }

  lemma PutNext(limit: int, run: Run, workers: nat, n: nat, job: Job)
    requires n < workers && (limit != 1 || n == 0)
    requires Valid(limit, run) && Raced(At(limit, run), workers, n, job)
    ensures var next := Then(run, DoPut(n, None));
            && Valid(limit, next) && Raced(At(limit, next), workers, n + 1, job)
            && PutsSinceRemoval(limit, next, job.key) == PutsSinceRemoval(limit, run, job.key) + 1
  {
    RaceStep(limit, At(limit, run), workers, n, job);
  }

  /** All workers begin, then all look up, and then the first n store the key: n Puts, none undone. */
  lemma {:induction false} AllPut(limit: int, workers: nat, n: nat, job: Job) returns (run: Run)
    requires n <= workers && (limit != 1 || n <= 1)
    ensures Valid(limit, run) && WorkerCount(run) == workers && Raced(At(limit, run), workers, n, job)
    ensures PutsSinceRemoval(limit, run, job.key) == n
  {
    if n == 0 {
      run := AllLookUp(limit, workers, workers, job);
      AllMoved(workers, AtGet(job), AtPut(job), AtSend(job));
      PresentEntryStopsPutters(limit, run, job.key);
    } else {
      var before := AllPut(limit, workers, n - 1, job);
      PutNext(limit, before, workers, n - 1, job);
      run := Then(before, DoPut(n - 1, None));
    }
  }

  /** With room for one entry only, a Put of a present key removes the entry it replaces. */
  lemma {:induction false} SingleSlotPutsOnce(run: Run, key: Key)
    requires Valid(1, run)
    ensures PutsSinceRemoval(1, run, key) <= 1
  {
    if run.Then? {
      var s := At(1, run.before);
      SingleSlotPutsOnce(run.before, key);
      CapacityHolds(1, run.before);
      PresentEntryStopsPutters(1, run.before, key);
      if Puts(1, s, run.step, key) && key in s.store {
        assert run.step.victim.Some?;
        SubsetSize({key, run.step.victim.value}, s.store.Keys);
      }
    }
  }

  /**
   The bound is reached: any number of workers can all store, and so forward, the same key before
   its entry is removed, unless the store has room for one entry only.
   */
  lemma RaceReachesBoundIff(limit: int, workers: nat, key: Key)
    ensures (exists run | Valid(limit, run) && WorkerCount(run) == workers ::
               PutsSinceRemoval(limit, run, key) == workers) <==> limit != 1 || workers <= 1
  {
    var job := Job(key, CompactEvent(0, "", 0, ""), 1, false);
    if limit != 1 || workers <= 1 {
      var race := AllPut(limit, workers, workers, job);
      assert PutsSinceRemoval(limit, race, key) == workers;
    } else {
      forall run | Valid(limit, run) ensures PutsSinceRemoval(limit, run, key) <= 1 {
        SingleSlotPutsOnce(run, key);
      }
    }
  }

  // ------------------------------------------------------------------ outcomes

  /** Workers with a job or, if only those about to send are asked for, with a stored one. */
  function Busy(workers: seq<Pc>, sending: bool): nat {
    if workers == [] then 0
    else Busy(workers[1..], sending) + if Counts(workers[0], sending) then 1 else 0
  }

  predicate Counts(pc: Pc, sending: bool) {
    if sending then pc.AtSend? else !pc.Idle?
  }

  lemma {:induction false} BusyUpdate(workers: seq<Pc>, i: nat, pc: Pc, sending: bool)
    requires i < |workers|
    ensures Busy(workers[i := pc], sending) ==
            Busy(workers, sending) - (if Counts(workers[i], sending) then 1 else 0) +
            (if Counts(pc, sending) then 1 else 0)
  {
    if i == 0 {
      assert workers[i := pc][1..] == workers[1..];
    } else {
      assert workers[i := pc][1..] == workers[1..][i - 1 := pc];
      BusyUpdate(workers[1..], i - 1, pc, sending);
    }
  }

  lemma {:induction false} NoneBusy(n: nat, sending: bool)
    ensures Busy(seq(n, _ => Idle), sending) == 0
  {
    if n > 0 {
      assert seq(n, _ => Idle)[1..] == seq(n - 1, _ => Idle);
      NoneBusy(n - 1, sending);
    }
  }

  /** A report the sequential engine could give for an event that reaches dedup with a complete key. */
  predicate FromDedup(r: Report) {
    EngineTheorems.Possible(r.outcome, r.error) &&
    (r.outcome.reason.Duplicate? || r.outcome.reason.Alarm? || r.outcome.reason.ForwardFailed?)
  }

  /** Every event taken up is finished with one report or still with a worker; each report has its touch or Put. */
  predicate Accounted(s: State) {
    && (forall r | r in s.reports :: FromDedup(r))
    && s.begun == |s.reports| + Busy(s.workers, false)
    && s.duplicates + s.puts == |s.reports| + Busy(s.workers, true)
  }

  lemma StepAccounts(limit: int, s: State, step: Step)
    requires Enabled(limit, s, step) && Accounted(s)
    ensures Accounted(Next(limit, s, step))
  {
    if !step.DoClear? && !step.DoSweep? {
      BusyUpdate(s.workers, step.i, Next(limit, s, step).workers[step.i], false);
      BusyUpdate(s.workers, step.i, Next(limit, s, step).workers[step.i], true);
    }
  }

  /**
   However the workers interleave, every path through HandleEvent ends in exactly one report: as a
   duplicate after a Touch that found the entry, or, after a Put, as an alarm sent or a failed send.
   This includes a Touch that misses because the entry was cleared in between.
   */
  lemma {:induction false} EveryJobIsReportedOnce(limit: int, run: Run)
    requires Valid(limit, run)
    ensures Accounted(At(limit, run))
  {
    match run
    case Start(n) =>
      NoneBusy(n, false);
      NoneBusy(n, true);
    case Then(before, step) =>
      EveryJobIsReportedOnce(limit, before);
      StepAccounts(limit, At(limit, before), step);
  }

  // ------------------------------------------------------- suppression accounting

  /** Suppressions recorded on the entries of a store. */
  ghost function Suppressions(m: States): nat
    decreases |m|
  {
    if m == map[] then 0
    else
      var k :| k in m;
      Smaller(m, k);
      m[k].suppressedCount + Suppressions(m - {k})
  }

  lemma Smaller(m: States, k: Key)
    requires k in m
    ensures |m - {k}| == |m| - 1
  {
    assert (m - {k}).Keys == m.Keys - {k};
  }

  /** The sum does not depend on the order in which entries are taken. */
  lemma {:induction false} TakeOut(m: States, k: Key)
    requires k in m
    ensures Suppressions(m) == m[k].suppressedCount + Suppressions(m - {k})
    decreases |m|
  {
    assert m != map[];
    var j :| j in m && Suppressions(m) == m[j].suppressedCount + Suppressions(m - {j});
    if j != k {
      Smaller(m, j);
      Smaller(m, k);
      TakeOut(m - {j}, k);
      TakeOut(m - {k}, j);
      assert m - {j} - {k} == m - {k} - {j};
    }
  }

  /** Splitting a store in two splits the sum. */
  lemma {:induction false} SplitSum(m: States, kept: set<Key>)
    ensures Suppressions(m) == Suppressions(m - kept) + Suppressions(m - (m.Keys - kept))
    decreases |m|
  {
    if k :| k in m {
      Smaller(m, k);
      SplitSum(m - {k}, kept);
      TakeOut(m, k);
      if k in kept {
        assert (m - {k}) - kept == m - kept;
        assert (m - (m.Keys - kept)) - {k} == (m - {k}) - ((m - {k}).Keys - kept);
        TakeOut(m - (m.Keys - kept), k);
      } else {
        assert (m - {k}) - ((m - {k}).Keys - kept) == m - (m.Keys - kept);
        assert (m - kept) - {k} == (m - {k}) - kept;
        TakeOut(m - kept, k);
      }
    } else {
      assert m - kept == m && m - (m.Keys - kept) == m;
    }
  }

  /** Shrinking the store retires exactly what it drops. */
  lemma ShrinkKeepsSum(s: State, m: States)
    requires forall k | k in m :: k in s.store && m[k] == s.store[k]
    ensures Suppressions(m) + WithStore(s, m).retired == Suppressions(s.store) + s.retired
  {
    SplitSum(s.store, m.Keys);
    assert s.store - (s.store.Keys - m.Keys) == m;
  }

  lemma TouchAddsOne(m: States, key: Key, at: int)
    requires key in m
    ensures Suppressions(AfterTouch(m, key, at)) == Suppressions(m) + 1
  {
    var m' := AfterTouch(m, key, at);
    TakeOut(m, key);
    TakeOut(m', key);
    assert m' - {key} == m - {key};
  }

  lemma PutAddsNone(m: States, s: DedupState, victim: Option<Key>)
    requires s.suppressedCount == 0
    ensures Suppressions(AfterPut(m, s, victim)) == Suppressions(Evicted(m, victim) - {s.key})
  {
    var m' := AfterPut(m, s, victim);
    TakeOut(m', s.key);
    assert m' - {s.key} == Evicted(m, victim) - {s.key};
  }

  lemma StepConserves(limit: int, s: State, step: Step)
    requires Enabled(limit, s, step) && s.duplicates == Suppressions(s.store) + s.retired
    ensures var s' := Next(limit, s, step); s'.duplicates == Suppressions(s'.store) + s'.retired
  {
    match step
    case Begin(_, _) =>
    case DoSend(_, _) =>
    case DoGet(i) => ShrinkKeepsSum(s, AfterGet(s.store, s.workers[i].job.key, s.workers[i].job.event.receivedAt));
    case DoTouch(i) =>
      var job := s.workers[i].job;
      if job.key in s.store { TouchAddsOne(s.store, job.key, job.event.receivedAt); }
    case DoPut(i, victim) =>
      var job := s.workers[i].job;
      ShrinkKeepsSum(s, Evicted(s.store, victim) - {job.key});
      PutAddsNone(s.store, FreshState(job.key, job.event, job.ttlSeconds, job.hold), victim);
    case DoClear(key) => ShrinkKeepsSum(s, AfterClear(s.store, key));
    case DoSweep(now) => ShrinkKeepsSum(s, AfterCleanup(s.store, now));
  }

  /**
   Suppression conservation: over every interleaving, the duplicates reported are exactly the
   suppressions recorded on live entries plus those on entries removed or overwritten since.
   */
  lemma {:induction false} SuppressionsConserved(limit: int, run: Run)
    requires Valid(limit, run)
    ensures At(limit, run).duplicates == Suppressions(At(limit, run).store) + At(limit, run).retired
  {
    if run.Then? {
      SuppressionsConserved(limit, run.before);
      StepConserves(limit, At(limit, run.before), run.step);
    }
  }

  // ------------------------------------------------------------------- capacity

  lemma ShrinkCapacity(limit: int, m: States, m': States)
    requires |m| <= limit && m'.Keys <= m.Keys
    ensures |m'| <= limit
  {
    SubsetSize(m'.Keys, m.Keys);
  }

  lemma StepCapacity(limit: int, s: State, step: Step)
    requires limit > 0 && Enabled(limit, s, step) && |s.store| <= limit
    ensures |Next(limit, s, step).store| <= limit
  {
    match step
    case DoPut(i, victim) =>
      var job := s.workers[i].job;
      Runs.PutCapacity(limit, s.store, FreshState(job.key, job.event, job.ttlSeconds, job.hold), victim);
    case _ => ShrinkCapacity(limit, s.store, Next(limit, s, step).store);
  }

  /** The store never holds more than `limit` entries, whatever the interleaving. */
  lemma {:induction false} CapacityHolds(limit: int, run: Run)
    requires limit > 0 && Valid(limit, run)
    ensures |At(limit, run).store| <= limit
  {
    if run.Then? {
      CapacityHolds(limit, run.before);
      StepCapacity(limit, At(limit, run.before), run.step);
    }
  }
}
