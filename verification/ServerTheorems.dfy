/** What holds in every state of every run of the server. */
module ServerTheorems {
  import opened Basics
  import opened Engine
  import opened EngineTheorems
  import opened Server
  import opened ServerRuns
  import opened ParserTheorems
  import opened PerfEncoder
  import opened Text
  import Framing = TlvTheorems
  import Messages = MessageTheorems

  // -------------------------------------------------------------------- steps

  lemma {:induction false} WorkersStay(capacity: nat, workers: nat, run: seq<State>, i: nat)
    requires IsRun(capacity, workers, run) && i < |run|
    ensures |run[i].workers| == workers
  {
    if i > 0 {
      WorkersStay(capacity, workers, run, i - 1);
      assert StepsAt(capacity, run, i - 1);
    }
  }

  /** The steps of one packet add up to the counters of one call of ProcessPacket. */
  lemma StepsAddUp(s: Stats, v: Verdict)
    requires v.Done? ==> Possible(v.outcome, v.error)
    ensures var s1 := VerdictStats(s, v);
            match v
            case Unparsed => s1 == Tallied(s, v)
            case Done(o, Some(_)) => TallyStats(s1, Failing(o)) == Tallied(s, v)
            case Done(o, None) =>
              TallyStats(TallyStats(TallyStats(s1, Accepting(o)), Forwarding(o)), Reporting(o)) == Tallied(s, v)
  {
  }

  // -------------------------------------------------------------- counting workers

  lemma {:induction false} TotalUpdate(workers: seq<Worker>, i: nat, w: Worker, kind: Kind)
    requires i < |workers|
    ensures Total(workers[i := w], kind) == Total(workers, kind) - Weight(workers[i], kind) + Weight(w, kind)
  {
    if i == 0 {
      assert workers[i := w][1..] == workers[1..];
    } else {
      assert workers[i := w][1..] == workers[1..][i - 1 := w];
      TotalUpdate(workers[1..], i - 1, w, kind);
    }
  }

  lemma {:induction false} TotalIdle(workers: seq<Worker>, kind: Kind)
    requires forall i | 0 <= i < |workers| :: workers[i].Idle?
    ensures Total(workers, kind) == 0
  {
    if workers != [] { TotalIdle(workers[1..], kind); }
  }

  lemma {:induction false} TotalBounded(workers: seq<Worker>, kind: Kind)
    ensures Total(workers, kind) <= |workers|
  {
    if workers != [] { TotalBounded(workers[1..], kind); }
  }

  // ------------------------------------------------------------------ accounting

  lemma StepTotal(capacity: nat, s: State, step: Step, kind: Kind)
    requires Enabled(s, step)
    ensures if IsWorkerStep(step) then
              Total(Next(capacity, s, step).workers, kind) ==
              Total(s.workers, kind) - Weight(s.workers[step.i], kind) + Weight(MovedTo(s, step), kind)
            else Next(capacity, s, step).workers == s.workers
  {
    if IsWorkerStep(step) { TotalUpdate(s.workers, step.i, MovedTo(s, step), kind); }
  }

  lemma StepSound(capacity: nat, s: State, step: Step, s': State)
    requires AllSound(s.workers) && Enabled(s, step) && s' == Next(capacity, s, step)
    ensures AllSound(s'.workers)
  {
  }

  lemma TallyMovesFinished(stats: Stats, w: Worker)
    requires Sound(w)
    ensures Finished(TallyStats(stats, w)) == Finished(stats) + One(w.Reporting?)
    ensures Delivered(TallyStats(stats, w)) == Delivered(stats) + One(w.Reporting? && w.o.accepted)
    ensures w.Reporting? ==> w.o.accepted == w.o.forwarded
    ensures TallyStats(stats, w).received == stats.received && TallyStats(stats, w).handleFailed == stats.handleFailed
    ensures TallyStats(stats, w).accepted == stats.accepted + One(w.Accepting? && w.o.accepted)
    ensures TallyStats(stats, w).forwarded == stats.forwarded + One(w.Forwarding? && w.o.forwarded)
    ensures TallyStats(stats, w).forwardFailed ==
            stats.forwardFailed + One(w.Failing? && w.o.reason.ForwardFailed?)
  {
  }

  lemma StepConserves(capacity: nat, s: State, step: Step, s': State)
    requires Conserved(s) && AllSound(s.workers) && Enabled(s, step) && s' == Next(capacity, s, step)
    ensures Conserved(s')
  {
    StepTotal(capacity, s, step, InFlight);
    if step.Tally? { TallyMovesFinished(s.stats, s.workers[step.i]); }
  }

  lemma StepDeliveries(capacity: nat, s: State, step: Step, s': State)
    requires DeliveriesLag(s) && AllSound(s.workers) && Enabled(s, step) && s' == Next(capacity, s, step)
    ensures DeliveriesLag(s')
  {
    StepTotal(capacity, s, step, PastAccepted);
    StepTotal(capacity, s, step, PastForwarded);
    if step.Tally? { TallyMovesFinished(s.stats, s.workers[step.i]); }
  }

  lemma StepFailures(capacity: nat, s: State, step: Step, s': State)
    requires FailuresLag(s) && AllSound(s.workers) && Enabled(s, step) && s' == Next(capacity, s, step)
    ensures FailuresLag(s')
  {
    StepTotal(capacity, s, step, MayFail);
    if step.Tally? { TallyMovesFinished(s.stats, s.workers[step.i]); }
  }

  lemma StepGauge(capacity: nat, s: State, step: Step, s': State)
    requires GaugeFollows(s, capacity) && Enabled(s, step) && s' == Next(capacity, s, step)
    ensures GaugeFollows(s', capacity)
  {
    StepTotal(capacity, s, step, NotLowered);
  }

  lemma {:induction false} AlwaysSound(capacity: nat, workers: nat, run: seq<State>, i: nat)
    requires IsRun(capacity, workers, run) && i < |run|
    ensures AllSound(run[i].workers)
  {
    if i == 0 {
    } else {
      AlwaysSound(capacity, workers, run, i - 1);
      assert StepsAt(capacity, run, i - 1);
      var step :| Enabled(run[i - 1], step) && run[i] == Next(capacity, run[i - 1], step);
      StepSound(capacity, run[i - 1], step, run[i]);
    }
  }

  lemma TurnConserves(capacity: nat, run: seq<State>, i: nat)
    requires i + 1 < |run| && StepsAt(capacity, run, i)
    requires AllSound(run[i].workers) && Conserved(run[i])
    ensures Conserved(run[i + 1])
  {
    var step :| Enabled(run[i], step) && run[i + 1] == Next(capacity, run[i], step);
    StepConserves(capacity, run[i], step, run[i + 1]);
  }

  lemma {:induction false} AlwaysConserved(capacity: nat, workers: nat, run: seq<State>, i: nat)
    requires IsRun(capacity, workers, run) && i < |run|
    ensures Conserved(run[i])
  {
    if i == 0 {
      TotalIdle(run[0].workers, InFlight);
    } else {
      AlwaysSound(capacity, workers, run, i - 1);
      AlwaysConserved(capacity, workers, run, i - 1);
      assert StepsAt(capacity, run, i - 1);
      TurnConserves(capacity, run, i - 1);
    }
  }

  lemma TurnDeliveries(capacity: nat, run: seq<State>, i: nat)
    requires i + 1 < |run| && StepsAt(capacity, run, i)
    requires AllSound(run[i].workers) && DeliveriesLag(run[i])
    ensures DeliveriesLag(run[i + 1])
  {
    var step :| Enabled(run[i], step) && run[i + 1] == Next(capacity, run[i], step);
    StepDeliveries(capacity, run[i], step, run[i + 1]);
  }

  lemma {:induction false} AlwaysDelivered(capacity: nat, workers: nat, run: seq<State>, i: nat)
    requires IsRun(capacity, workers, run) && i < |run|
    ensures DeliveriesLag(run[i])
  {
    if i == 0 {
      TotalIdle(run[0].workers, PastAccepted);
      TotalIdle(run[0].workers, PastForwarded);
    } else {
      AlwaysSound(capacity, workers, run, i - 1);
      AlwaysDelivered(capacity, workers, run, i - 1);
      assert StepsAt(capacity, run, i - 1);
      TurnDeliveries(capacity, run, i - 1);
    }
  }

  lemma TurnFailures(capacity: nat, run: seq<State>, i: nat)
    requires i + 1 < |run| && StepsAt(capacity, run, i)
    requires AllSound(run[i].workers) && FailuresLag(run[i])
    ensures FailuresLag(run[i + 1])
  {
    var step :| Enabled(run[i], step) && run[i + 1] == Next(capacity, run[i], step);
    StepFailures(capacity, run[i], step, run[i + 1]);
  }

  lemma {:induction false} FailuresAlwaysLag(capacity: nat, workers: nat, run: seq<State>, i: nat)
    requires IsRun(capacity, workers, run) && i < |run|
    ensures FailuresLag(run[i])
  {
    if i == 0 {
      TotalIdle(run[0].workers, MayFail);
    } else {
      AlwaysSound(capacity, workers, run, i - 1);
      FailuresAlwaysLag(capacity, workers, run, i - 1);
      assert StepsAt(capacity, run, i - 1);
      TurnFailures(capacity, run, i - 1);
    }
  }

  lemma {:induction false} GaugeAlwaysFollows(capacity: nat, workers: nat, run: seq<State>, i: nat)
    requires IsRun(capacity, workers, run) && i < |run|
    ensures GaugeFollows(run[i], capacity)
  {
    if i == 0 {
      TotalIdle(run[0].workers, NotLowered);
    } else {
      GaugeAlwaysFollows(capacity, workers, run, i - 1);
      assert StepsAt(capacity, run, i - 1);
      var step :| Enabled(run[i - 1], step) && run[i] == Next(capacity, run[i - 1], step);
      StepGauge(capacity, run[i - 1], step, run[i]);
    }
  }

  /**
   Packet conservation: at every moment each received packet is dropped, queued, in flight or
   counted under exactly one reason; forward failures never outnumber handling failures; and with
   no worker in the middle of a packet, accepted = forwarded = the deliveries counted.
   */
  lemma PacketsConserved(capacity: nat, workers: nat, run: seq<State>, i: nat)
    requires IsRun(capacity, workers, run) && i < |run|
    ensures var s := run[i];
            && s.stats.received ==
               Finished(s.stats) + |s.queue| + One(AtReader(s.reader)) + Total(s.workers, InFlight)
            && s.stats.forwardFailed <= s.stats.handleFailed
            && (Quiet(s) ==> s.stats.accepted == s.stats.forwarded == Delivered(s.stats))
            && (Quiet(s) && s.reader.Reading? && s.queue == [] ==> s.stats.received == Finished(s.stats))
  {
    AlwaysConserved(capacity, workers, run, i);
    AlwaysDelivered(capacity, workers, run, i);
    FailuresAlwaysLag(capacity, workers, run, i);
    if Quiet(run[i]) {
      TotalIdle(run[i].workers, InFlight);
      TotalIdle(run[i].workers, PastAccepted);
      TotalIdle(run[i].workers, PastForwarded);
    }
  }

  /**
   Gauge drift: the queue gauge differs from the queue length by one for a reader between its send
   and its increment and by one for each worker between its receive and its decrement.
   */
  lemma GaugeDrift(capacity: nat, workers: nat, run: seq<State>, i: nat)
    requires IsRun(capacity, workers, run) && i < |run|
    ensures var s := run[i];
            && s.queueDepth == |s.queue| - One(s.reader.Queued?) + Total(s.workers, NotLowered)
            && |s.queue| <= capacity
            && -1 <= s.queueDepth <= capacity + workers
            && (Quiet(s) && !s.reader.Queued? ==> s.queueDepth == |s.queue|)
  {
    GaugeAlwaysFollows(capacity, workers, run, i);
    TotalBounded(run[i].workers, NotLowered);
    WorkersStay(capacity, workers, run, i);
    if Quiet(run[i]) { TotalIdle(run[i].workers, NotLowered); }
  }

  // ------------------------------------------------------------------- verdicts

  /** One packet, handled by itself, moves exactly the counters of its verdict, by one. */
  lemma TalliesItsCauses(s: Stats, v: Verdict, cause: Cause)
    requires cause != Because(NoReason) && (v.Done? ==> Possible(v.outcome, v.error))
    ensures Counter(Tallied(s, v), cause) == Counter(s, cause) + One(Bears(v, cause))
  {
  }

  lemma FinishOwes(stats: Stats, v: Verdict, cause: Cause)
    requires cause != Because(NoReason) && (v.Done? ==> Possible(v.outcome, v.error))
    ensures Counter(VerdictStats(stats, v), cause) + Weight(Verdicted(v), Owing(cause)) ==
            Counter(stats, cause) + One(Bears(v, cause))
  {
  }

  lemma TallyPays(stats: Stats, w: Worker, cause: Cause)
    requires cause != Because(NoReason)
    ensures Counter(TallyStats(stats, w), cause) + Weight(TalliedWorker(w), Owing(cause)) ==
            Counter(stats, cause) + Weight(w, Owing(cause))
  {
  }

  lemma NumberOneMore(verdicts: seq<Verdict>, v: Verdict, cause: Cause)
    ensures Number(verdicts + [v], cause) == Number(verdicts, cause) + One(Bears(v, cause))
  {
    assert (verdicts + [v])[..|verdicts|] == verdicts;
  }

  lemma FinishCounts(capacity: nat, s: State, step: Step, s': State, cause: Cause)
    requires cause != Because(NoReason) && step.Finish?
    requires CountsVerdicts(s, cause) && Enabled(s, step) && s' == Next(capacity, s, step)
    ensures CountsVerdicts(s', cause)
  {
    StepTotal(capacity, s, step, Owing(cause));
    FinishOwes(s.stats, step.verdict, cause);
    NumberOneMore(s.verdicts, step.verdict, cause);
  }

  lemma TallyCounts(capacity: nat, s: State, step: Step, s': State, cause: Cause)
    requires cause != Because(NoReason) && step.Tally?
    requires CountsVerdicts(s, cause) && Enabled(s, step) && s' == Next(capacity, s, step)
    ensures CountsVerdicts(s', cause)
  {
    StepTotal(capacity, s, step, Owing(cause));
    TallyPays(s.stats, s.workers[step.i], cause);
  }

  lemma StepCounts(capacity: nat, s: State, step: Step, s': State, cause: Cause)
    requires cause != Because(NoReason)
    requires CountsVerdicts(s, cause) && Enabled(s, step) && s' == Next(capacity, s, step)
    ensures CountsVerdicts(s', cause)
  {
    if step.Finish? {
      FinishCounts(capacity, s, step, s', cause);
    } else if step.Tally? {
      TallyCounts(capacity, s, step, s', cause);
    } else {
      StepTotal(capacity, s, step, Owing(cause));
    }
  }

  /**
   Every counter counts its own verdicts: over every interleaving it equals the number of verdicts of
   its cause less the workers that have yet to count theirs, and exactly that number when none has.
   */
  lemma {:induction false} CountersCountVerdicts(capacity: nat, workers: nat, run: seq<State>, i: nat, cause: Cause)
    requires IsRun(capacity, workers, run) && i < |run| && cause != Because(NoReason)
    ensures Counter(run[i].stats, cause) + Total(run[i].workers, Owing(cause)) == Number(run[i].verdicts, cause)
    ensures Quiet(run[i]) ==> Counter(run[i].stats, cause) == Number(run[i].verdicts, cause)
  {
    if i == 0 {
      TotalIdle(run[0].workers, Owing(cause));
    } else {
      CountersCountVerdicts(capacity, workers, run, i - 1, cause);
      assert StepsAt(capacity, run, i - 1);
      var step :| Enabled(run[i - 1], step) && run[i] == Next(capacity, run[i - 1], step);
      StepCounts(capacity, run[i - 1], step, run[i], cause);
    }
    if Quiet(run[i]) { TotalIdle(run[i].workers, Owing(cause)); }
  }

  // ------------------------------------------------------------------- payloads

  lemma ReadIntact(capacity: nat, s: State, datagram: seq<byte>, s': State)
    requires Intact(s) && s.reader.Reading?
    requires s' == Next(capacity, s, Read(datagram))
    ensures Intact(s')
  {
    assert forall p | Genuine(s, p) :: Genuine(s', p) && p.id < s'.reader.pkt.id;
  }

  lemma OfferIntact(capacity: nat, s: State, s': State)
    requires Intact(s) && s.reader.Offering?
    requires s' == Next(capacity, s, Offer)
    ensures Intact(s')
  {
    assert forall p | Genuine(s, p) :: Genuine(s', p);
    assert forall p | Ahead(s, p) :: Ahead(s', p);
  }

  /** Taking the head of the queue: it stays ahead of the rest and was ahead of nothing before. */
  lemma TakeHead(capacity: nat, s: State, i: nat, s': State)
    requires Intact(s) && Enabled(s, Take(i)) && s' == Next(capacity, s, Take(i))
    ensures QueueIntact(s') && Genuine(s', s.queue[0]) && Ahead(s', s.queue[0])
    ensures forall p | Ahead(s, p) :: Ahead(s', p) && p.id < s.queue[0].id
    ensures forall p | Genuine(s, p) :: Genuine(s', p)
  {
    assert s.queue[0] in s.queue;
    assert forall q | q in s'.queue :: q in s.queue;
  }

  lemma TakeWorkers(capacity: nat, s: State, i: nat, s': State)
    requires Intact(s) && Enabled(s, Take(i)) && s' == Next(capacity, s, Take(i))
    ensures WorkersIntact(s')
  {
    TakeHead(capacity, s, i, s');
    assert forall j | 0 <= j < |s'.workers| && j != i :: s'.workers[j] == s.workers[j];
  }

  lemma TakeSent(capacity: nat, s: State, i: nat, s': State)
    requires Intact(s) && Enabled(s, Take(i)) && s' == Next(capacity, s, Take(i))
    ensures SentIntact(s')
  {
    TakeHead(capacity, s, i, s');
    assert forall j | 0 <= j < |s'.workers| && j != i :: s'.workers[j] == s.workers[j];
  }

  /** Working on a packet moves nothing else, and a worker holds at most what it held. */
  lemma WorkKeeps(capacity: nat, s: State, step: Step, s': State)
    requires Intact(s) && Enabled(s, step) && IsWork(step) && s' == Next(capacity, s, step)
    ensures forall p | Genuine(s, p) :: Genuine(s', p)
    ensures forall p | Ahead(s, p) :: Ahead(s', p)
    ensures |s'.workers| == |s.workers|
    ensures forall j | 0 <= j < |s'.workers| && Holds(s'.workers[j]) ::
              Holds(s.workers[j]) && s'.workers[j].pkt == s.workers[j].pkt
  {
  }

  lemma WorkWorkers(capacity: nat, s: State, step: Step, s': State)
    requires Intact(s) && Enabled(s, step) && IsWork(step) && s' == Next(capacity, s, step)
    ensures QueueIntact(s') && WorkersIntact(s')
  {
    WorkKeeps(capacity, s, step, s');
  }

  /** A packet given to the forwarder was held by its worker alone and is held by none afterwards. */
  lemma FinishSent(capacity: nat, s: State, i: nat, v: Verdict, s': State)
    requires Intact(s) && Enabled(s, Finish(i, v)) && s' == Next(capacity, s, Finish(i, v))
    ensures SentIntact(s')
  {
    WorkKeeps(capacity, s, Finish(i, v), s');
    assert !Holds(s'.workers[i]);
    var p := s.workers[i].pkt;
    assert Genuine(s, p) && Ahead(s, p);
  }

  lemma WorkIntact(capacity: nat, s: State, step: Step, s': State)
    requires Intact(s) && Enabled(s, step) && IsWork(step) && s' == Next(capacity, s, step)
    ensures Intact(s')
  {
    WorkWorkers(capacity, s, step, s');
    if step.Finish? {
      FinishSent(capacity, s, step.i, step.verdict, s');
    } else {
      WorkKeeps(capacity, s, step, s');
    }
  }

  lemma RaiseIntact(capacity: nat, s: State, s': State)
    requires Intact(s) && s.reader.Queued? && s' == Next(capacity, s, Raise)
    ensures Intact(s')
  {
    assert forall p | Genuine(s, p) :: Genuine(s', p);
    assert forall p | Ahead(s, p) :: Ahead(s', p);
  }

  lemma CountDropIntact(capacity: nat, s: State, s': State)
    requires Intact(s) && s.reader.Refused? && s' == Next(capacity, s, CountDrop)
    ensures Intact(s')
  {
    assert forall p | Genuine(s, p) :: Genuine(s', p);
    assert forall p | Ahead(s, p) :: Ahead(s', p);
  }

  lemma StepIntact(capacity: nat, s: State, step: Step, s': State)
    requires Intact(s) && Enabled(s, step) && s' == Next(capacity, s, step)
    ensures Intact(s')
  {
    match step
    case Read(datagram) => ReadIntact(capacity, s, datagram, s');
    case Offer => OfferIntact(capacity, s, s');
    case Raise => RaiseIntact(capacity, s, s');
    case CountDrop => CountDropIntact(capacity, s, s');
    case Take(i) =>
      TakeHead(capacity, s, i, s');
      TakeWorkers(capacity, s, i, s');
      TakeSent(capacity, s, i, s');
    case _ => WorkIntact(capacity, s, step, s');
  }

  lemma {:induction false} AlwaysIntact(capacity: nat, workers: nat, run: seq<State>, i: nat)
    requires IsRun(capacity, workers, run) && i < |run|
    ensures Intact(run[i])
  {
    if i > 0 {
      AlwaysIntact(capacity, workers, run, i - 1);
      assert StepsAt(capacity, run, i - 1);
      var step :| Enabled(run[i - 1], step) && run[i] == Next(capacity, run[i - 1], step);
      StepIntact(capacity, run[i - 1], step, run[i]);
    }
  }

  lemma {:induction false} BufferStays(capacity: nat, workers: nat, run: seq<State>, i: nat)
    requires IsRun(capacity, workers, run) && i < |run|
    ensures run[i].bufferSize == run[0].bufferSize
  {
    if i > 0 {
      BufferStays(capacity, workers, run, i - 1);
      assert StepsAt(capacity, run, i - 1);
    }
  }

  /**
   Payload integrity: over every interleaving, the forwarder is given datagrams cut to the size of
   the read buffer and otherwise as they arrived, and no datagram twice. So what is sent is the
   datagram itself if and only if the datagram fits the buffer.
   */
  lemma SentAsReceived(capacity: nat, workers: nat, run: seq<State>, i: nat)
    requires IsRun(capacity, workers, run) && i < |run|
    ensures var s, size := run[i], run[0].bufferSize;
            && (forall p | p in s.sent ::
                  p.id < |s.arrived| && p.payload == Truncated(s.arrived[p.id], size) &&
                  (p.payload == s.arrived[p.id] <==> |s.arrived[p.id]| <= size))
            && (forall k, l | 0 <= k < l < |s.sent| :: s.sent[k].id != s.sent[l].id)
  {
    AlwaysIntact(capacity, workers, run, i);
    BufferStays(capacity, workers, run, i);
    assert forall p | p in run[i].sent :: Genuine(run[i], p);
  }

  /**
   Datagrams that do not fit: a trap message with octets behind it, in a buffer that holds just the
   message, is parsed like the whole and stored, and so forwarded, without those octets.
   */
  lemma OversizedIsForwardedCut(decoder: Decoder, community: string, binds: seq<VarBind>,
                                tail: seq<byte>, from: Parser.Origin)
    requires IsGoString(community) && (forall b | b in binds :: Messages.CanonicalOid(b.oid))
    requires Message(community, binds).Some? ==> |Message(community, binds).value| <= Framing.TWO_32
    requires Messages.AllDecode(decoder.printers, binds) && tail != []
    ensures Message(community, binds).Some?
    ensures var msg := Message(community, binds).value;
            var whole := Parser.TrapOf(decoder.printers, decoder.aliases, msg + tail, from);
            var cut := Truncated(msg + tail, |msg|);
            var stored := Parser.TrapOf(decoder.printers, decoder.aliases, cut, from);
            && whole.Ok? && stored == Ok(whole.value.(rawBytes := cut))
            && cut == msg && cut != msg + tail
  {
    Messages.MessageRoundTrip(decoder.printers, decoder.aliases, community, binds, from);
    var msg := Message(community, binds).value;
    assert Truncated(msg + tail, |msg|) == msg;
    TrailingOctetsIgnored(decoder.printers, decoder.aliases, msg, tail, from);
    ParsedKeepsDatagram(decoder.printers, decoder.aliases, msg, from);
  }

  lemma TakeInOrder(capacity: nat, s: State, i: nat, s': State)
    requires InOrder(s) && Intact(s) && Enabled(s, Take(i)) && s' == Next(capacity, s, Take(i))
    ensures |s.workers| == 1 ==> InOrder(s')
  {
    assert s.queue[0] in s.queue;
    assert forall p | p in s.sent :: Ahead(s, p);
  }

  lemma StepInOrder(capacity: nat, s: State, step: Step, s': State)
    requires InOrder(s) && Intact(s) && |s.workers| == 1 && Enabled(s, step) && s' == Next(capacity, s, step)
    ensures InOrder(s')
  {
    if step.Take? {
      TakeInOrder(capacity, s, step.i, s');
    } else if step.Finish? {
      assert !Holds(s'.workers[0]);
    }
  }

  /** With a single worker the datagrams sent are a subsequence of those received, in order of arrival. */
  lemma {:induction false} OneWorkerKeepsOrder(capacity: nat, run: seq<State>, i: nat)
    requires IsRun(capacity, 1, run) && i < |run|
    ensures InOrder(run[i])
  {
    if i > 0 {
      OneWorkerKeepsOrder(capacity, run, i - 1);
      WorkersStay(capacity, 1, run, i - 1);
      AlwaysIntact(capacity, 1, run, i - 1);
      assert StepsAt(capacity, run, i - 1);
      var step :| Enabled(run[i - 1], step) && run[i] == Next(capacity, run[i - 1], step);
      StepInOrder(capacity, run[i - 1], step, run[i]);
    }
  }

}
