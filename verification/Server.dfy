/** Receiving datagrams and accounting for them (internal/server/server.go). */
module Server {
  import opened Basics
  import opened Model
  import opened Parser
  import opened Engine
  import opened EngineTheorems
  import opened ParserTheorems

  datatype Stats = Stats(
    received: nat,
    queueDropped: nat,
    parseFailed: nat,
    handleFailed: nat,
    accepted: nat,
    forwarded: nat,
    filtered: nat,
    duplicates: nat,
    passThrough: nat,
    alarms: nat,
    dedupDisabled: nat,
    forwardFailed: nat)

  const ZERO := Stats(0, 0, 0, 0, 0, 0, 0, 0, 0, 0, 0, 0)

  /** What became of one packet. */
  datatype Verdict = Unparsed | Done(outcome: Outcome, error: Option<EngineError>)

  function One(b: bool): nat {
    if b then 1 else 0
  }

  function CountAccepted(s: Stats, o: Outcome): Stats {
    s.(accepted := s.accepted + One(o.accepted))
  }

  function CountForwarded(s: Stats, o: Outcome): Stats {
    s.(forwarded := s.forwarded + One(o.forwarded))
  }

  function CountReason(s: Stats, o: Outcome): Stats {
    match o.reason
    case Filtered => s.(filtered := s.filtered + 1)
    case Duplicate => s.(duplicates := s.duplicates + 1)
    case PassThrough => s.(passThrough := s.passThrough + 1)
    case Alarm => s.(alarms := s.alarms + 1)
    case DedupDisabled => s.(dedupDisabled := s.dedupDisabled + 1)
    case ForwardFailed => s.(forwardFailed := s.forwardFailed + 1)
    case NoReason => s
  }

  function CountFailure(s: Stats, o: Outcome): Stats {
    s.(forwardFailed := s.forwardFailed + One(o.reason.ForwardFailed?))
  }

  /** The counters after one packet has been processed. */
  function Tallied(s: Stats, v: Verdict): Stats {
    match v
    case Unparsed => s.(parseFailed := s.parseFailed + 1)
    case Done(o, Some(_)) => CountFailure(s.(handleFailed := s.handleFailed + 1), o)
    case Done(o, None) => CountReason(CountForwarded(CountAccepted(s, o), o), o)
  }

  /** The octets of a datagram that fit the read buffer. */
  function Truncated(datagram: seq<byte>, size: nat): seq<byte> {
    if |datagram| <= size then datagram else datagram[..size]
  }

  class Server {
    const engine: Engine
    const queueSize: nat
    const buf: array<byte>
    var packets: seq<array<byte>>
    var stats: Stats
    var queueDepth: int

    /** The read buffer is never one of the queued payloads. */
    ghost predicate Valid()
      reads this
    {
      buf !in packets && |packets| <= queueSize
    }

    /** The octets of every queued payload, in order. */
    ghost function Queued(): (q: seq<seq<byte>>)
      reads this, packets
      ensures |q| == |packets|
    {
      seq(|packets|, i requires 0 <= i < |packets| reads this, packets => packets[i][..])
    }

    constructor (engine: Engine, queueSize: nat, maxDatagramSize: nat)
      ensures Valid() && Queued() == [] && stats == ZERO && queueDepth == 0
      ensures this.engine == engine && this.queueSize == queueSize
      ensures fresh(buf) && buf.Length == maxDatagramSize
    {
      this.engine, this.queueSize := engine, queueSize;
      buf := new byte[maxDatagramSize](_ => 0);
      packets, stats, queueDepth := [], ZERO, 0;
    }

    /** The socket read: the datagram's first octets overwrite the front of the reused buffer. */
    method ReadFromUdp(datagram: seq<byte>) returns (n: nat)
      modifies buf
      ensures n <= buf.Length && buf[..n] == Truncated(datagram, buf.Length)
    {
      n := if |datagram| <= buf.Length then |datagram| else buf.Length;
      forall i | 0 <= i < n {
        buf[i] := datagram[i];
      }
      assert buf[..n] == datagram[..n];
    }

    /**
     One turn of the read loop. The datagram is queued behind the others or, with a full queue,
     dropped; either way no payload already queued changes, although the buffer is reused.
     */
    method Receive(datagram: seq<byte>) returns (queued: bool)
      requires Valid()
      modifies this, buf
      ensures Valid()
      ensures queued <==> old(|packets|) < queueSize
      ensures Queued() == old(Queued()) + if queued then [Truncated(datagram, buf.Length)] else []
      ensures queueDepth == old(queueDepth) + One(queued)
      ensures stats == old(stats).(received := old(stats).received + 1,
                                   queueDropped := old(stats).queueDropped + One(!queued))
      ensures packets[..old(|packets|)] == old(packets)
      ensures forall p | p in packets && p !in old(packets) :: fresh(p)
    {
      ghost var before := Queued();
      var n := ReadFromUdp(datagram);
      var pkt := new byte[n](i requires 0 <= i < n && n <= buf.Length reads this, buf => buf[i]);
      assert pkt[..] == buf[..n];
      stats := stats.(received := stats.received + 1);
      queued := |packets| < queueSize;
      assert Queued() == before;
      if queued {
        packets := packets + [pkt];
        queueDepth := queueDepth + 1;
        assert Queued() == before + [pkt[..]];
      } else {
        stats := stats.(queueDropped := stats.queueDropped + 1);
      }
    }

    /** A worker's receive: the oldest queued payload leaves the queue. */
    method TakePacket() returns (pkt: array<byte>)
      requires Valid() && packets != []
      modifies this`packets, this`queueDepth
      ensures Valid() && pkt == old(packets)[0]
      ensures [pkt[..]] + Queued() == old(Queued())
      ensures queueDepth == old(queueDepth) - 1
    {
      pkt := packets[0];
      packets := packets[1..];
      queueDepth := queueDepth - 1;
    }

    method RecordOutcome(outcome: Outcome)
      modifies this`stats
      ensures stats == Tallied(old(stats), Done(outcome, None))
    {
      if outcome.accepted { stats := stats.(accepted := stats.accepted + 1); }
      if outcome.forwarded { stats := stats.(forwarded := stats.forwarded + 1); }
      match outcome.reason
      case Filtered => stats := stats.(filtered := stats.filtered + 1);
      case Duplicate => stats := stats.(duplicates := stats.duplicates + 1);
      case PassThrough => stats := stats.(passThrough := stats.passThrough + 1);
      case Alarm => stats := stats.(alarms := stats.alarms + 1);
      case DedupDisabled => stats := stats.(dedupDisabled := stats.dedupDisabled + 1);
      case ForwardFailed => stats := stats.(forwardFailed := stats.forwardFailed + 1);
      case NoReason =>
    }

    /** Runs the engine on a parsed event; what it returns and sends is as the engine promises. */
    method HandleParsed(event: TrapEvent, sendOk: bool) returns (outcome: Outcome, error: Option<EngineError>)
      modifies engine`sends, engine`lines, engine.dedup, event
      ensures Possible(outcome, error)
      ensures engine.sends == old(engine.sends) +
              if outcome.accepted then [Sent(engine.outlets.forwarder, old(event.rawBytes), sendOk)] else []
    {
      ghost var w, t := engine.Snapshot(), event.View();
      ghost var lib, cfg, out := engine.lib, engine.cfg, engine.outlets;
      ghost var victim;
      outcome, error, victim := engine.HandleEvent(event, sendOk);
      ghost var h := Handled(engine.Snapshot(), event.alertsLogged, outcome, error);
      assert h.world.sends == engine.sends && w.sends == old(engine.sends);
      OutcomesArePossible(lib, cfg, out, w, t, sendOk, victim);
      SendsTheDatagramOnce(lib, cfg, out, w, t, sendOk, victim);
    }

    method RecordFailure(outcome: Outcome, error: EngineError)
      modifies this`stats
      ensures stats == Tallied(old(stats), Done(outcome, Some(error)))
    {
      stats := stats.(handleFailed := stats.handleFailed + 1);
      if outcome.reason.ForwardFailed? {
        stats := stats.(forwardFailed := stats.forwardFailed + 1);
      }
    }

    method Record(outcome: Outcome, error: Option<EngineError>)
      modifies this`stats
      ensures stats == Tallied(old(stats), Done(outcome, error))
    {
      if error.Some? {
        RecordFailure(outcome, error.value);
      } else {
        RecordOutcome(outcome);
      }
    }

    /** The parsed event stores the payload it came from. */
    method ParsePayload(payload: seq<byte>, from: Origin) returns (event: Option<TrapEvent>)
      ensures event.None? <==> TrapOf(engine.decoder.printers, engine.decoder.aliases, payload, from).Err?
      ensures event.Some? ==> fresh(event.value) && event.value.rawBytes == payload
    {
      var parsed := engine.Parse(payload, from);
      if parsed.Err? { return None; }
      ParsedKeepsDatagram(engine.decoder.printers, engine.decoder.aliases, payload, from);
      assert parsed.value.rawBytes == parsed.value.View().rawBytes;
      event := Some(parsed.value);
    }

    /**
     Parses and handles one payload. The verdict is possible, the counters move accordingly, and the
     only octets the forwarder can see are those of the payload, unmodified, at most once.
     */
    method ProcessPacket(payload: seq<byte>, from: Origin, sendOk: bool) returns (v: Verdict)
      modifies this`stats, engine`sends, engine`lines, engine.dedup
      ensures stats == Tallied(old(stats), v)
      ensures v.Unparsed? <==> TrapOf(engine.decoder.printers, engine.decoder.aliases, payload, from).Err?
      ensures v.Done? ==> Possible(v.outcome, v.error)
      ensures engine.sends == old(engine.sends) +
              if v.Done? && v.outcome.accepted then [Sent(engine.outlets.forwarder, payload, sendOk)] else []
    {
      var event := ParsePayload(payload, from);
      if event.None? {
        stats := stats.(parseFailed := stats.parseFailed + 1);
        return Unparsed;
      }
      var outcome, error := HandleParsed(event.value, sendOk);
      Record(outcome, error);
      v := Done(outcome, error);
    }
  }
}
