/**
 One reader, a bounded queue, any number of workers and their atomic counters, over every
 interleaving of their steps.
 */
module ServerRuns {
  import opened Basics
  import opened Engine
  import opened EngineTheorems
  import opened Server

  /** A datagram with its position in the order of arrival. */
  datatype Packet = Packet(id: nat, payload: seq<byte>)

  datatype Reader =
    | Reading              // at the socket
    | Offering(pkt: Packet) // counted as received, not yet offered to the queue
    | Queued               // in the queue, gauge not yet raised
    | Refused              // the queue was full, drop not yet counted

  datatype Worker =
    | Idle
    | Taken(pkt: Packet)      // received from the queue, gauge not yet lowered
    | Working(pkt: Packet)    // parsing and handling
    | Failing(o: Outcome)     // handle_failed counted, forward_failed not yet
    | Accepting(o: Outcome)   // about to count accepted
    | Forwarding(o: Outcome)  // about to count forwarded
    | Reporting(o: Outcome)   // about to count the reason

  datatype State = State(
    reader: Reader,
    queue: seq<Packet>,
    workers: seq<Worker>,
    stats: Stats,
    queueDepth: int,
    bufferSize: nat,         // the size of the read buffer, which never changes
    arrived: seq<seq<byte>>, // every datagram that came in, in order and whole
    sent: seq<Packet>,       // every packet given to the forwarder, in order
    verdicts: seq<Verdict>)  // every verdict, in the order of handling

  datatype Step =
    | Read(datagram: seq<byte>)
    | Offer
    | Raise
    | CountDrop
    | Take(i: nat)
    | Lower(i: nat)
    | Finish(i: nat, verdict: Verdict)
    | Tally(i: nat)

  // -------------------------------------------------------------------- steps

  predicate Enabled(s: State, step: Step) {
    match step
    case Read(_) => s.reader.Reading?
    case Offer => s.reader.Offering?
    case Raise => s.reader.Queued?
    case CountDrop => s.reader.Refused?
    case Take(i) => i < |s.workers| && s.workers[i].Idle? && s.queue != []
    case Lower(i) => i < |s.workers| && s.workers[i].Taken?
    case Finish(i, v) => i < |s.workers| && s.workers[i].Working? && (v.Done? ==> Possible(v.outcome, v.error))
    case Tally(i) =>
      i < |s.workers| &&
      (s.workers[i].Failing? || s.workers[i].Accepting? || s.workers[i].Forwarding? || s.workers[i].Reporting?)
  }

  /** Where a worker goes with a verdict. */
  function Verdicted(v: Verdict): Worker {
    match v
    case Unparsed => Idle
    case Done(o, Some(_)) => Failing(o)
    case Done(o, None) => Accepting(o)
  }

  function VerdictStats(s: Stats, v: Verdict): Stats {
    match v
    case Unparsed => s.(parseFailed := s.parseFailed + 1)
    case Done(o, Some(_)) => s.(handleFailed := s.handleFailed + 1)
    case Done(o, None) => s
  }

  function TalliedWorker(w: Worker): Worker {
    match w
    case Accepting(o) => Forwarding(o)
    case Forwarding(o) => Reporting(o)
    case _ => Idle
  }

  function TallyStats(s: Stats, w: Worker): Stats {
    match w
    case Failing(o) => CountFailure(s, o)
    case Accepting(o) => CountAccepted(s, o)
    case Forwarding(o) => CountForwarded(s, o)
    case Reporting(o) => CountReason(s, o)
    case _ => s
  }

  function Next(capacity: nat, s: State, step: Step): State
    requires Enabled(s, step)
  {
    match step
    case Read(datagram) =>
      s.(reader := Offering(Packet(|s.arrived|, Truncated(datagram, s.bufferSize))),
         arrived := s.arrived + [datagram],
         stats := s.stats.(received := s.stats.received + 1))
    case Offer =>
      if |s.queue| < capacity then s.(reader := Queued, queue := s.queue + [s.reader.pkt])
      else s.(reader := Refused)
    case Raise => s.(reader := Reading, queueDepth := s.queueDepth + 1)
    case CountDrop => s.(reader := Reading, stats := s.stats.(queueDropped := s.stats.queueDropped + 1))
    case Take(i) => s.(queue := s.queue[1..], workers := s.workers[i := Taken(s.queue[0])])
    case Lower(i) => s.(queueDepth := s.queueDepth - 1, workers := s.workers[i := Working(s.workers[i].pkt)])
    case Finish(i, v) =>
      s.(workers := s.workers[i := Verdicted(v)],
         stats := VerdictStats(s.stats, v),
         sent := if v.Done? && v.outcome.accepted then s.sent + [s.workers[i].pkt] else s.sent,
         verdicts := s.verdicts + [v])
    case Tally(i) =>
      s.(workers := s.workers[i := TalliedWorker(s.workers[i])], stats := TallyStats(s.stats, s.workers[i]))
  }

  /** Every counter is zero; those summed up by Finished and Delivered cannot be negative. */
  predicate NothingCounted(s: Stats) {
    s.received == 0 && s.accepted == 0 && s.forwarded == 0 && s.forwardFailed == 0 &&
    Finished(s) == 0 && Delivered(s) == 0
  }

  /** Nothing has happened yet and all workers wait at the queue. */
  predicate IsInitial(s: State, workers: nat) {
    && s.reader.Reading? && s.queue == [] && s.arrived == [] && s.sent == [] && s.verdicts == []
    && |s.workers| == workers && (forall i | 0 <= i < workers :: s.workers[i].Idle?)
    && NothingCounted(s.stats) && s.queueDepth == 0
  }

  ghost predicate StepsAt(capacity: nat, run: seq<State>, i: nat)
    requires i + 1 < |run|
  {
    exists step :: Enabled(run[i], step) && run[i + 1] == Next(capacity, run[i], step)
  }

  /** The states a server with this queue capacity and number of workers passes through. */
  ghost predicate IsRun(capacity: nat, workers: nat, run: seq<State>) {
    && run != [] && IsInitial(run[0], workers)
    && forall i | 0 <= i < |run| - 1 :: StepsAt(capacity, run, i)
  }

  // -------------------------------------------------------------- counting workers

  /** What a counter counts verdicts for. */
  datatype Cause = NotParsed | NotHandled | WasAccepted | WasForwarded | Because(reason: Reason)

  datatype Kind = InFlight | PastAccepted | PastForwarded | NotLowered | MayFail | Owing(cause: Cause)

  /** Whether a worker still has to count its verdict for a cause. */
  predicate Owes(w: Worker, cause: Cause) {
    match cause
    case NotParsed => false
    case NotHandled => false
    case WasAccepted => w.Accepting? && w.o.accepted
    case WasForwarded => (w.Accepting? || w.Forwarding?) && w.o.forwarded
    case Because(reason) =>
      (w.Accepting? || w.Forwarding? || w.Reporting? || (w.Failing? && w.o.reason.ForwardFailed?)) &&
      w.o.reason == reason
  }

  /** Whether a worker counts towards a kind. */
  function Weight(w: Worker, kind: Kind): nat {
    match kind
    case InFlight => One(!w.Idle? && !w.Failing?)
    case PastAccepted => One((w.Forwarding? || w.Reporting?) && w.o.accepted)
    case PastForwarded => One(w.Reporting? && w.o.forwarded)
    case NotLowered => One(w.Taken?)
    case MayFail => One(w.Failing? && w.o.reason.ForwardFailed?)
    case Owing(cause) => One(Owes(w, cause))
  }

  function Total(workers: seq<Worker>, kind: Kind): nat {
    if workers == [] then 0 else Weight(workers[0], kind) + Total(workers[1..], kind)
  }

  // ------------------------------------------------------------------ accounting

  /** Packets the counters report as finished. */
  function Finished(s: Stats): nat {
    s.queueDropped + s.parseFailed + s.handleFailed + s.filtered + s.duplicates +
    s.passThrough + s.alarms + s.dedupDisabled
  }

  function Delivered(s: Stats): nat {
    s.passThrough + s.alarms + s.dedupDisabled
  }

  /** An outcome still to be counted is one the engine can return. */
  predicate Sound(w: Worker) {
    w.Accepting? || w.Forwarding? || w.Reporting? ==> Possible(w.o, None)
  }

  predicate AllSound(workers: seq<Worker>) {
    forall i | 0 <= i < |workers| :: Sound(workers[i])
  }

  /** The reader has counted a packet as received that is neither queued nor counted as dropped. */
  predicate AtReader(r: Reader) {
    r.Offering? || r.Refused?
  }

  /** Every received packet is finished, queued, with the reader or in flight. */
  predicate Conserved(s: State) {
    s.stats.received == Finished(s.stats) + |s.queue| + One(AtReader(s.reader)) + Total(s.workers, InFlight)
  }

  /** Accepted and forwarded run ahead of the delivery counters by the workers in between. */
  predicate DeliveriesLag(s: State) {
    && s.stats.accepted == Delivered(s.stats) + Total(s.workers, PastAccepted)
    && s.stats.forwarded == Delivered(s.stats) + Total(s.workers, PastForwarded)
  }

  /** The counter of a cause. */
  function Counter(s: Stats, cause: Cause): nat {
    match cause
    case NotParsed => s.parseFailed
    case NotHandled => s.handleFailed
    case WasAccepted => s.accepted
    case WasForwarded => s.forwarded
    case Because(Filtered) => s.filtered
    case Because(Duplicate) => s.duplicates
    case Because(PassThrough) => s.passThrough
    case Because(Alarm) => s.alarms
    case Because(DedupDisabled) => s.dedupDisabled
    case Because(ForwardFailed) => s.forwardFailed
    case Because(NoReason) => 0
  }

  /** Which verdicts the counter of a cause is for. */
  predicate Bears(v: Verdict, cause: Cause) {
    match cause
    case NotParsed => v.Unparsed?
    case NotHandled => v.Done? && v.error.Some?
    case WasAccepted => v.Done? && v.error.None? && v.outcome.accepted
    case WasForwarded => v.Done? && v.error.None? && v.outcome.forwarded
    case Because(reason) => v.Done? && v.outcome.reason == reason
  }

  function Number(verdicts: seq<Verdict>, cause: Cause): nat {
    if verdicts == [] then 0
    else Number(verdicts[..|verdicts| - 1], cause) + One(Bears(verdicts[|verdicts| - 1], cause))
  }

  /** A counter runs behind the verdicts of its cause by the workers that still have to count theirs. */
  predicate CountsVerdicts(s: State, cause: Cause) {
    Counter(s.stats, cause) + Total(s.workers, Owing(cause)) == Number(s.verdicts, cause)
  }

  predicate FailuresLag(s: State) {
    s.stats.forwardFailed + Total(s.workers, MayFail) <= s.stats.handleFailed
  }

  predicate GaugeFollows(s: State, capacity: nat) {
    && s.queueDepth == |s.queue| - One(s.reader.Queued?) + Total(s.workers, NotLowered)
    && |s.queue| <= capacity
    && (s.reader.Queued? ==> capacity > 0)
  }

  predicate IsWorkerStep(step: Step) {
    step.Take? || step.Lower? || step.Finish? || step.Tally?
  }

  /** Where a step takes its worker. */
  function MovedTo(s: State, step: Step): Worker
    requires Enabled(s, step) && IsWorkerStep(step)
  {
    match step
    case Take(i) => Taken(s.queue[0])
    case Lower(i) => Working(s.workers[i].pkt)
    case Finish(i, v) => Verdicted(v)
    case Tally(i) => TalliedWorker(s.workers[i])
  }

  predicate Quiet(s: State) {
    forall i | 0 <= i < |s.workers| :: s.workers[i].Idle?
  }

  // ------------------------------------------------------------------- payloads

  /** The packet is a datagram as it arrived, cut to the size of the read buffer. */
  predicate Genuine(s: State, p: Packet) {
    p.id < |s.arrived| && p.payload == Truncated(s.arrived[p.id], s.bufferSize)
  }

  /** The packet was received before everything still on its way to the workers. */
  predicate Ahead(s: State, p: Packet) {
    && (forall q | q in s.queue :: p.id < q.id)
    && (s.reader.Offering? ==> p.id < s.reader.pkt.id)
  }

  predicate Holds(w: Worker) {
    w.Taken? || w.Working?
  }

  /** What waits is genuine and in order of arrival. */
  predicate QueueIntact(s: State) {
    && (forall q | q in s.queue :: Genuine(s, q))
    && (forall i, j | 0 <= i < j < |s.queue| :: s.queue[i].id < s.queue[j].id)
    && (s.reader.Offering? ==> Genuine(s, s.reader.pkt) && forall q | q in s.queue :: q.id < s.reader.pkt.id)
  }

  /** What the workers hold is genuine, ahead of what waits, and no two hold the same packet. */
  predicate WorkersIntact(s: State) {
    && (forall i | 0 <= i < |s.workers| && Holds(s.workers[i]) ::
          Genuine(s, s.workers[i].pkt) && Ahead(s, s.workers[i].pkt))
    && (forall i, j | 0 <= i < j < |s.workers| && Holds(s.workers[i]) && Holds(s.workers[j]) ::
          s.workers[i].pkt.id != s.workers[j].pkt.id)
  }

  /** What was sent is genuine, was sent once, and is held by no worker any more. */
  predicate SentIntact(s: State) {
    && (forall p | p in s.sent :: Genuine(s, p) && Ahead(s, p))
    && (forall p, i | p in s.sent && 0 <= i < |s.workers| && Holds(s.workers[i]) :: p.id != s.workers[i].pkt.id)
    && (forall k, l | 0 <= k < l < |s.sent| :: s.sent[k].id != s.sent[l].id)
  }

  predicate Intact(s: State) {
    QueueIntact(s) && WorkersIntact(s) && SentIntact(s)
  }

  predicate IsWork(step: Step) {
    step.Lower? || step.Finish? || step.Tally?
  }

  /** What has been sent went out in order of arrival, and so will what the one worker holds. */
  predicate InOrder(s: State) {
    && (forall k, l | 0 <= k < l < |s.sent| :: s.sent[k].id < s.sent[l].id)
    && (|s.workers| == 1 && Holds(s.workers[0]) ==> forall p | p in s.sent :: p.id < s.workers[0].pkt.id)
  }
}
