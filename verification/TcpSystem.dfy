/** Two connected sockets over a network that may lose, duplicate and reorder packets. */
module TcpSystem {
  import opened TcpTypes
  import opened TcpSteps
  import opened TcpReassembly
  import opened TcpSending

  /** A socket with its history: the bytes VWrite took, the bytes VRead gave out, how the sent bytes were
      cut into segments, and whether the peer's FIN was ever handled in sequence. */
  datatype Endpoint = Endpoint(
    sock: Socket,
    accepted: seq<Byte>,
    delivered: seq<Byte>,
    log: map<int, seq<Byte>>,
    finTaken: bool)

  /** fromA and fromB hold every packet ever sent. A packet never taken out is lost; one taken out
      several times was duplicated; any order of taking is allowed. */
  datatype System = System(a: Endpoint, b: Endpoint, fromA: set<Packet>, fromB: set<Packet>)

  datatype Action =
    | Write(chunk: seq<Byte>)
    | Read(n: int)
    | Shutdown(read: bool, write: bool)
    | Fin
    | Probe
    | PushProbeItem
    | StartBurst
    | SendNext
    | PushItem
    | CountItem
    | Retransmit
    | Deliver(p: Packet, checksumOk: bool)

  predicate Enabled(e: Endpoint, inbox: set<Packet>, act: Action)
  {
    var s := e.sock;
    && |s.rcv.readRing| <= BUFFER_SIZE
    && match act
       case Write(chunk) => chunk != [] && |s.snd.writeRing| + |chunk| <= BUFFER_SIZE
       case Read(n) => 0 < n <= |s.rcv.readRing|
       case Shutdown(_, _) => true
       case Fin => CanSendFin(s)
       case Probe => CanProbe(s.snd)
       case PushProbeItem => s.snd.writer.ProbeSent?
       case StartBurst => CanBurst(s.snd)
       case SendNext => s.snd.writer.Burst? && s.snd.writer.rest != []
       case PushItem => s.snd.writer.Sent?
       case CountItem => s.snd.writer.Pushed?
       case Retransmit => s.snd.inFlight != [] && !s.closed
       case Deliver(p, _) => p in inbox
  }

  datatype Outcome = Outcome(e: Endpoint, out: set<Packet>)

  function WithSender(e: Endpoint, x: Sender): Endpoint
  {
    e.(sock := e.sock.(snd := x))
  }

  function Emitted(e: Endpoint, y: Sender): Outcome
    requires HasUnpushed(y.writer)
  {
    var p := y.writer.item.packet;
    Outcome(WithSender(e, y).(log := e.log[e.sock.snd.bytesSent + 1 := p.data]), {p})
  }

  function Act(e: Endpoint, inbox: set<Packet>, act: Action): Outcome
    requires Enabled(e, inbox, act)
  {
    var s := e.sock;
    match act
    case Write(chunk) =>
      Outcome(WithSender(e, s.snd.(writeRing := s.snd.writeRing + chunk)).(accepted := e.accepted + chunk), {})
    case Read(n) =>
      Outcome(e.(sock := s.(rcv := s.rcv.(readRing := s.rcv.readRing[n..])),
                 delivered := e.delivered + s.rcv.readRing[..n]), {})
    case Shutdown(read, write) =>
      Outcome(e.(sock := s.(canRead := s.canRead && !read, canWrite := s.canWrite && !write)), {})
    case Fin => Outcome(e.(sock := SendFin(s)), {FinPacket(s)})
    case Probe => Emitted(e, SendProbe(s.snd, s.rcv))
    case PushProbeItem => Outcome(WithSender(e, PushProbe(s.snd)), {})
    case StartBurst => Outcome(WithSender(e, BeginBurst(s.snd)), {})
    case SendNext => Emitted(e, SendSegment(s.snd, s.rcv))
    case PushItem => Outcome(WithSender(e, PushSegment(s.snd)), {})
    case CountItem => Outcome(WithSender(e, AddFlight(s.snd)), {})
    case Retransmit => Outcome(e, {s.snd.inFlight[0].packet})
    case Deliver(p, ok) =>
      var h := HandlePacket(s, p, ok);
      Outcome(e.(sock := h.sock, finTaken := e.finTaken || FinInSequence(s, p, ok)), h.out)
  }

  /** The packet is the peer's FIN, and it is the next byte expected. */
  predicate FinInSequence(s: Socket, p: Packet, checksumOk: bool)
  {
    !s.closed && checksumOk && p.flags != FLAG_ACK && p.flags.fin && RelSeq(s.rcv, p) == s.rcv.expected
  }

  /** A step of either side. */
  datatype Step = Step(byA: bool, act: Action)

  function Flip(s: System): System
  {
    System(s.b, s.a, s.fromB, s.fromA)
  }

  function StepA(s: System, act: Action): System
    requires Enabled(s.a, s.fromB, act)
  {
    var o := Act(s.a, s.fromB, act);
    s.(a := o.e, fromA := s.fromA + o.out)
  }

  predicate CanStep(s: System, st: Step)
  {
    if st.byA then Enabled(s.a, s.fromB, st.act) else Enabled(s.b, s.fromA, st.act)
  }

  function Next(s: System, st: Step): System
    requires CanStep(s, st)
  {
    if st.byA then StepA(s, st.act) else Flip(StepA(Flip(s), st.act))
  }

  predicate IsRun(s: System, steps: seq<Step>)
    decreases |steps|
  {
    steps == [] || (CanStep(s, steps[0]) && IsRun(Next(s, steps[0]), steps[1..]))
  }

  function Final(s: System, steps: seq<Step>): System
    requires IsRun(s, steps)
    decreases |steps|
  {
    if steps == [] then s else Final(Next(s, steps[0]), steps[1..])
  }

  // ----- the invariant of one direction -------------------------------------------------

  /** A stream of 2^32 - 2 bytes or more would reuse relative sequence numbers. */
  predicate Short(s: System)
  {
    |s.a.accepted| + 2 < MOD32 && |s.b.accepted| + 2 < MOD32
  }

  ghost predicate SendingOk(a: Endpoint, fromA: set<Packet>)
  {
    SenderOk(a.sock.snd, a.accepted, a.log, fromA)
  }

  function StreamFrom(a: Endpoint): Stream
    requires 0 <= DataSent(a.sock.snd) <= |a.accepted|
  {
    StreamOf(a.sock.snd, a.accepted, a.log)
  }

  /** The largest ack a receiver standing at `expected` may have given: one more once it took the FIN. */
  function AckLimit(expected: int, finTaken: bool): int
  {
    if finTaken then expected + 1 else expected
  }

  /** An ack of nothing but what was received; or a bare raw number 0, which is never above any other. */
  predicate AckOk(q: Packet, isn: Word32, expected: int, finTaken: bool)
  {
    q.flags == FLAG_ACK ==>
      || (q.ackNum == 0 && q.data == [])
      || (&& Sub32(q.ackNum, isn) <= AckLimit(expected, finTaken)
          && (q.data != [] ==> Sub32(q.ackNum, isn) <= expected))
  }

  ghost predicate AcksOk(net: set<Packet>, isn: Word32, expected: int, finTaken: bool)
  {
    forall q :: q in net ==> AckOk(q, isn, expected, finTaken)
  }

  /** A FIN is taken behind the whole stream. */
  predicate FinBehind(t: Stream, expected: int, finTaken: bool)
  {
    finTaken ==> t.fin && expected == End(t)
  }

  /** Data from a to b, acks from b to a. */
  ghost predicate Flow(a: Endpoint, b: Endpoint, fromA: set<Packet>, fromB: set<Packet>)
  {
    && SendingOk(a, fromA)
    && ReceiverOk(b.sock.rcv, b.delivered, StreamFrom(a))
    && b.sock.rcv.foreignIsn == a.sock.snd.isn
    && FinBehind(StreamFrom(a), b.sock.rcv.expected, b.finTaken)
    && AcksOk(fromB, a.sock.snd.isn, b.sock.rcv.expected, b.finTaken)
    && Head(a.sock.snd) <= AckLimit(b.sock.rcv.expected, b.finTaken)
  }

  lemma AcksOkMonotone(net: set<Packet>, isn: Word32, e: int, e': int, fin: bool, fin': bool)
    requires AcksOk(net, isn, e, fin) && e <= e' && (fin ==> fin')
    ensures AcksOk(net, isn, e', fin')
  {
    forall q | q in net ensures AckOk(q, isn, e', fin') { assert AckOk(q, isn, e, fin); }
  }

  /** The sender moved; the receiver did not. */
  lemma SenderMoves(a: Endpoint, a': Endpoint, b: Endpoint, fromA: set<Packet>, fromA': set<Packet>, fromB: set<Packet>)
    requires Flow(a, b, fromA, fromB) && SendingOk(a', fromA') && a'.sock.snd.isn == a.sock.snd.isn
    requires Grows(StreamFrom(a), StreamFrom(a'))
    requires Head(a'.sock.snd) == Head(a.sock.snd)
             || Head(a'.sock.snd) <= AckLimit(b.sock.rcv.expected, b.finTaken)
    ensures Flow(a', b, fromA', fromB)
  {
    GrowthKeepsReceiver(b.sock.rcv, b.delivered, StreamFrom(a), StreamFrom(a'));
  }

  /** The receiver moved forward and sent `out`; the sender did not move. */
  lemma ReceiverMoves(a: Endpoint, b: Endpoint, b': Endpoint, fromA: set<Packet>, fromB: set<Packet>, out: set<Packet>)
    requires Flow(a, b, fromA, fromB)
    requires ReceiverOk(b'.sock.rcv, b'.delivered, StreamFrom(a)) && b'.sock.rcv.foreignIsn == b.sock.rcv.foreignIsn
    requires b.sock.rcv.expected <= b'.sock.rcv.expected
    requires (b.finTaken ==> b'.finTaken) && FinBehind(StreamFrom(a), b'.sock.rcv.expected, b'.finTaken)
    requires AcksOk(out, a.sock.snd.isn, b'.sock.rcv.expected, b'.finTaken)
    ensures Flow(a, b', fromA, fromB + out)
  {
    AcksOkMonotone(fromB, a.sock.snd.isn, b.sock.rcv.expected, b'.sock.rcv.expected, b.finTaken, b'.finTaken);
  }

  lemma AckPacketOk(x: Sender, r: Receiver, data: seq<Byte>, fin: bool)
    requires 0 <= Free(r) && 1 <= r.expected
    ensures AckOk(AckPacket(x, r, data), r.foreignIsn, r.expected, fin)
  {
    RelOfRaw(r.foreignIsn, r.expected);
  }

  // ----- steps of a that are not packet arrivals ------------------------------------------

  /** The sending half of a moved on its own account. */
  ghost predicate Progress(a: Endpoint, o: Outcome, fromA: set<Packet>)
    requires SendingOk(a, fromA)
  {
    && SendingOk(o.e, fromA + o.out)
    && o.e.sock.snd.isn == a.sock.snd.isn
    && Grows(StreamFrom(a), StreamFrom(o.e))
    && Head(o.e.sock.snd) == Head(a.sock.snd)
  }

  lemma NoOutput(fromA: set<Packet>)
    ensures fromA + {} == fromA
  {
  }

  lemma WriteProgress(a: Endpoint, inbox: set<Packet>, fromA: set<Packet>, chunk: seq<Byte>)
    requires SendingOk(a, fromA) && Enabled(a, inbox, Write(chunk)) && |a.accepted| + |chunk| + 2 < MOD32
    ensures Progress(a, Act(a, inbox, Write(chunk)), fromA)
  {
    WriteOk(a.sock.snd, a.accepted, a.log, fromA, chunk);
    NoOutput(fromA);
  }

  lemma FinProgress(a: Endpoint, inbox: set<Packet>, fromA: set<Packet>)
    requires SendingOk(a, fromA) && Enabled(a, inbox, Fin)
    ensures Progress(a, Act(a, inbox, Fin), fromA)
  {
    SendFinOk(a.sock, a.accepted, a.log, fromA);
  }

  lemma ProbeProgress(a: Endpoint, inbox: set<Packet>, fromA: set<Packet>)
    requires SendingOk(a, fromA) && Enabled(a, inbox, Probe)
    ensures Progress(a, Act(a, inbox, Probe), fromA)
  {
    SendProbeOk(a.sock.snd, a.sock.rcv, a.accepted, a.log, fromA);
  }

  lemma SegmentProgress(a: Endpoint, inbox: set<Packet>, fromA: set<Packet>)
    requires SendingOk(a, fromA) && Enabled(a, inbox, SendNext)
    ensures Progress(a, Act(a, inbox, SendNext), fromA)
  {
    SendSegmentOk(a.sock.snd, a.sock.rcv, a.accepted, a.log, fromA);
  }

  lemma PushItemProgress(a: Endpoint, inbox: set<Packet>, fromA: set<Packet>)
    requires SendingOk(a, fromA) && Enabled(a, inbox, PushItem)
    ensures Progress(a, Act(a, inbox, PushItem), fromA)
  {
    PushOk(a.sock.snd, a.accepted, a.log, fromA, PushSegment(a.sock.snd));
    NoOutput(fromA);
  }

  lemma PushProbeProgress(a: Endpoint, inbox: set<Packet>, fromA: set<Packet>)
    requires SendingOk(a, fromA) && Enabled(a, inbox, PushProbeItem)
    ensures Progress(a, Act(a, inbox, PushProbeItem), fromA)
  {
    PushOk(a.sock.snd, a.accepted, a.log, fromA, PushProbe(a.sock.snd));
    NoOutput(fromA);
  }

  lemma BurstProgress(a: Endpoint, inbox: set<Packet>, fromA: set<Packet>, act: Action)
    requires SendingOk(a, fromA) && Enabled(a, inbox, act) && (act.StartBurst? || act.CountItem?)
    ensures Progress(a, Act(a, inbox, act), fromA)
  {
    if act.StartBurst? { BeginBurstOk(a.sock.snd, a.accepted, a.log, fromA); }
    NoOutput(fromA);
  }

  /** A retransmission is a packet that was sent before. */
  lemma RetransmitsOldPacket(a: Endpoint, fromA: set<Packet>)
    requires SendingOk(a, fromA) && a.sock.snd.inFlight != []
    ensures a.sock.snd.inFlight[0].packet in fromA
    ensures fromA + {a.sock.snd.inFlight[0].packet} == fromA
  {
    assert ItemOk(a.sock.snd.inFlight[0], StreamFrom(a), a.sock.snd.isn, fromA);
  }

  lemma IdleProgress(a: Endpoint, inbox: set<Packet>, fromA: set<Packet>, act: Action)
    requires SendingOk(a, fromA) && Enabled(a, inbox, act) && (act.Read? || act.Shutdown? || act.Retransmit?)
    ensures Progress(a, Act(a, inbox, act), fromA)
  {
    if act.Retransmit? { RetransmitsOldPacket(a, fromA); }
    NoOutput(fromA);
  }

  lemma LocalProgress(a: Endpoint, inbox: set<Packet>, fromA: set<Packet>, act: Action)
    requires SendingOk(a, fromA) && Enabled(a, inbox, act) && !act.Deliver?
    requires act.Write? ==> |a.accepted| + |act.chunk| + 2 < MOD32
    ensures Progress(a, Act(a, inbox, act), fromA)
  {
    match act {
      case Write(chunk) => WriteProgress(a, inbox, fromA, chunk);
      case Fin => FinProgress(a, inbox, fromA);
      case Probe => ProbeProgress(a, inbox, fromA);
      case SendNext => SegmentProgress(a, inbox, fromA);
      case PushProbeItem => PushProbeProgress(a, inbox, fromA);
      case PushItem => PushItemProgress(a, inbox, fromA);
      case StartBurst => BurstProgress(a, inbox, fromA, act);
      case CountItem => BurstProgress(a, inbox, fromA, act);
      case _ => IdleProgress(a, inbox, fromA, act);
    }
  }

  /** Every packet a sends on its own account carries an honest ack for b's stream. */
  lemma LocalAcks(a: Endpoint, inbox: set<Packet>, fromA: set<Packet>, act: Action)
    requires SendingOk(a, fromA) && Enabled(a, inbox, act) && !act.Deliver? && 1 <= a.sock.rcv.expected
    requires AcksOk(fromA, a.sock.rcv.foreignIsn, a.sock.rcv.expected, a.finTaken)
    ensures AcksOk(Act(a, inbox, act).out, a.sock.rcv.foreignIsn, a.sock.rcv.expected, a.finTaken)
  {
    var x, r := a.sock.snd, a.sock.rcv;
    match act {
      case Probe => AckPacketOk(x, r, x.writeRing[..1], a.finTaken);
      case SendNext => AckPacketOk(x, r, x.writer.rest[..Min(MAX_SEGMENT_SIZE, |x.writer.rest|)], a.finTaken);
      case Retransmit => RetransmitsOldPacket(a, fromA);
      case _ =>
    }
  }

  lemma LocalReceiver(a: Endpoint, inbox: set<Packet>, act: Action, t: Stream)
    requires Enabled(a, inbox, act) && !act.Deliver? && ReceiverOk(a.sock.rcv, a.delivered, t)
    ensures ReceiverOk(Act(a, inbox, act).e.sock.rcv, Act(a, inbox, act).e.delivered, t)
    ensures Act(a, inbox, act).e.sock.rcv.expected == a.sock.rcv.expected
    ensures Act(a, inbox, act).e.sock.rcv.foreignIsn == a.sock.rcv.foreignIsn
  {
    if act.Read? { ReadKeepsReceiver(a.sock.rcv, a.delivered, act.n, t); }
  }

  ghost predicate Flows(s: System)
  {
    Flow(s.a, s.b, s.fromA, s.fromB) && Flow(s.b, s.a, s.fromB, s.fromA)
  }

  lemma LocalStep(s: System, act: Action)
    requires Flows(s) && Enabled(s.a, s.fromB, act) && !act.Deliver? && Short(StepA(s, act))
    ensures Flows(StepA(s, act))
  {
    var o := Act(s.a, s.fromB, act);
    LocalProgress(s.a, s.fromB, s.fromA, act);
    SenderMoves(s.a, o.e, s.b, s.fromA, s.fromA + o.out, s.fromB);
    LocalAcks(s.a, s.fromB, s.fromA, act);
    LocalReceiver(s.a, s.fromB, act, StreamFrom(s.b));
    ReceiverMoves(s.b, s.a, o.e, s.fromB, s.fromA, o.out);
  }

  // ----- packet arrivals --------------------------------------------------------------------

  ghost predicate PureAcks(out: set<Packet>)
  {
    forall q :: q in out ==> q.flags == FLAG_ACK && q.data == []
  }

  lemma PureAcksKeepSender(x: Sender, accepted: seq<Byte>, log: map<int, seq<Byte>>, net: set<Packet>, out: set<Packet>)
    requires SenderOk(x, accepted, log, net) && PureAcks(out)
    ensures SenderOk(x, accepted, log, net + out)
  {
    var t := StreamOf(x, accepted, log);
    forall i | 0 <= i < |x.inFlight| ensures ItemOk(x.inFlight[i], t, x.isn, net + out) {
      assert ItemOk(x.inFlight[i], t, x.isn, net);
    }
  }

  lemma ZeroAckKeepsHead(x: Sender, st: ConnState, p: Packet)
    requires p.ackNum == 0 && ReceiveAck(x, st, p).AckTaken?
    ensures Head(ReceiveAck(x, st, p).snd) == Head(x)
  {
  }

  /** The handler of any packet keeps the sending half in order: either it stays as it is, or an
      honest ack cuts the in-flight list. */
  lemma ArrivalSends(s: System, p: Packet, e: Endpoint, out: set<Packet>)
    requires Flow(s.a, s.b, s.fromA, s.fromB) && p in s.fromB && PureAcks(out)
    requires e.accepted == s.a.accepted && e.log == s.a.log
    requires || e.sock.snd == s.a.sock.snd
             || (p.flags == FLAG_ACK && ReceiveAck(s.a.sock.snd, s.a.sock.connState, p).AckTaken?
                 && e.sock.snd == ReceiveAck(s.a.sock.snd, s.a.sock.connState, p).snd)
    ensures Flow(e, s.b, s.fromA + out, s.fromB)
  {
    var x := s.a.sock.snd;
    if e.sock.snd != x {
      ReceiveAckOk(x, s.a.sock.connState, p, s.a.accepted, s.a.log, s.fromA);
      assert AckOk(p, x.isn, s.b.sock.rcv.expected, s.b.finTaken);
      if p.ackNum == 0 { ZeroAckKeepsHead(x, s.a.sock.connState, p); }
    }
    PureAcksKeepSender(e.sock.snd, e.accepted, e.log, s.fromA, out);
    SenderMoves(s.a, e, s.b, s.fromA, s.fromA + out, s.fromB);
  }

  lemma NothingArrives(s: System, p: Packet, ok: bool)
    requires Flows(s) && p in s.fromB && Free(s.a.sock.rcv) >= 0
    requires HandlePacket(s.a.sock, p, ok) == Handled(s.a.sock, {})
    ensures Flows(StepA(s, Deliver(p, ok)))
  {
    NoOutput(s.fromA);
    assert StepA(s, Deliver(p, ok)) == s;
  }

  /** An ack without data, or one that is not followed up because it closed the socket. */
  lemma BareAckArrives(s: System, p: Packet, e: Endpoint)
    requires Flows(s) && p in s.fromB && p.flags == FLAG_ACK
    requires ReceiveAck(s.a.sock.snd, s.a.sock.connState, p).AckTaken?
    requires e.sock.snd == ReceiveAck(s.a.sock.snd, s.a.sock.connState, p).snd && e.sock.rcv == s.a.sock.rcv
    requires e == s.a.(sock := e.sock)
    ensures Flow(e, s.b, s.fromA + {}, s.fromB) && Flow(s.b, e, s.fromB, s.fromA + {})
  {
    ArrivalSends(s, p, e, {});
    ReceiverMoves(s.b, s.a, e, s.fromB, s.fromA, {});
  }

  /** What p may be, seen from the receiver a. */
  lemma ArrivalFromStream(s: System, p: Packet)
    requires Flows(s) && p in s.fromB
    ensures p.flags == FLAG_ACK && p.data != [] ==> FromStream(StreamFrom(s.b), RelSeq(s.a.sock.rcv, p), p)
    ensures p.flags.fin ==> p.flags == FLAG_FIN && FromStream(StreamFrom(s.b), RelSeq(s.a.sock.rcv, p), p)
  {
    assert PacketOk(p, StreamFrom(s.b), s.b.sock.snd.isn);
  }

  /** The receiving half after a data segment, and the ack it sends. */
  lemma DataReceived(s: System, p: Packet, st: ConnState, e: Endpoint, out: set<Packet>)
    requires Flows(s) && p in s.fromB && p.flags == FLAG_ACK && p.data != []
    requires e.sock.rcv == ReceiveData(s.a.sock.rcv, st, p).rcv && e.delivered == s.a.delivered && e.finTaken == s.a.finTaken
    requires Free(e.sock.rcv) >= 0 && out <= {AckPacket(e.sock.snd, e.sock.rcv, [])}
    ensures Flow(s.b, e, s.fromB, s.fromA + out)
  {
    ArrivalFromStream(s, p);
    ReceiveDataOk(s.a.sock.rcv, s.a.delivered, st, p, StreamFrom(s.b));
    AckPacketOk(e.sock.snd, e.sock.rcv, [], e.finTaken);
    ReceiverMoves(s.b, s.a, e, s.fromB, s.fromA, out);
  }

  lemma DataArrives(s: System, p: Packet, e: Endpoint, out: set<Packet>)
    requires Flows(s) && p in s.fromB && p.flags == FLAG_ACK && p.data != []
    requires ReceiveAck(s.a.sock.snd, s.a.sock.connState, p).AckTaken?
    requires e.sock.snd == ReceiveAck(s.a.sock.snd, s.a.sock.connState, p).snd
    requires e.sock.rcv == ReceiveData(s.a.sock.rcv, ReceiveAck(s.a.sock.snd, s.a.sock.connState, p).connState, p).rcv
    requires e == s.a.(sock := e.sock)
    requires Free(e.sock.rcv) >= 0 && out <= {AckPacket(e.sock.snd, e.sock.rcv, [])}
    ensures Flow(e, s.b, s.fromA + out, s.fromB) && Flow(s.b, e, s.fromB, s.fromA + out)
  {
    DataReceived(s, p, ReceiveAck(s.a.sock.snd, s.a.sock.connState, p).connState, e, out);
    ArrivalSends(s, p, e, out);
  }

  lemma FinAckOk(x: Sender, r: Receiver)
    requires 0 <= Free(r) && 1 <= r.expected && r.expected + 1 < MOD32
    ensures var q := AckPacket(x, r, []);
            AckOk(q.(ackNum := Add32(q.ackNum, 1)), r.foreignIsn, r.expected, true)
  {
    RelOfRaw(r.foreignIsn, r.expected + 1);
    assert Add32(Add32(r.foreignIsn, r.expected), 1) == Add32(r.foreignIsn, r.expected + 1);
  }

  /** The receiving half after a FIN, and the ack it sends. */
  lemma FinReceived(s: System, p: Packet, e: Endpoint, out: set<Packet>)
    requires Flows(s) && p in s.fromB && p.flags == FLAG_FIN && Free(s.a.sock.rcv) >= 0
    requires e.sock.rcv == ReceiveFin(s.a.sock.rcv, s.a.sock.connState, p).rcv && e.delivered == s.a.delivered
    requires e.finTaken == (s.a.finTaken || RelSeq(s.a.sock.rcv, p) == s.a.sock.rcv.expected)
    requires out == HandleFinPacket(s.a.sock, p).out
    ensures Flow(s.b, e, s.fromB, s.fromA + out)
  {
    ArrivalFromStream(s, p);
    ReceiveFinOk(s.a.sock.rcv, s.a.delivered, s.a.sock.connState, p, StreamFrom(s.b));
    if RelSeq(s.a.sock.rcv, p) == s.a.sock.rcv.expected {
      FinAckOk(s.a.sock.snd, s.a.sock.rcv);
    }
    ReceiverMoves(s.b, s.a, e, s.fromB, s.fromA, out);
  }

  lemma FinArrives(s: System, p: Packet, e: Endpoint, out: set<Packet>)
    requires Flows(s) && p in s.fromB && p.flags == FLAG_FIN && Free(s.a.sock.rcv) >= 0
    requires e.sock.snd == s.a.sock.snd && e.sock.rcv == ReceiveFin(s.a.sock.rcv, s.a.sock.connState, p).rcv
    requires e == s.a.(sock := e.sock, finTaken := s.a.finTaken || RelSeq(s.a.sock.rcv, p) == s.a.sock.rcv.expected)
    requires out == HandleFinPacket(s.a.sock, p).out
    ensures Flow(e, s.b, s.fromA + out, s.fromB) && Flow(s.b, e, s.fromB, s.fromA + out)
  {
    FinReceived(s, p, e, out);
    ArrivalSends(s, p, e, out);
  }

  lemma DeliverStep(s: System, p: Packet, ok: bool)
    requires Flows(s) && Enabled(s.a, s.fromB, Deliver(p, ok))
    ensures Flows(StepA(s, Deliver(p, ok)))
  {
    var k := s.a.sock;
    var h := HandlePacket(k, p, ok);
    var e := s.a.(sock := h.sock, finTaken := s.a.finTaken || FinInSequence(k, p, ok));
    if k.closed || !ok || (p.flags != FLAG_ACK && !p.flags.fin) {
      NothingArrives(s, p, ok);
    } else if p.flags == FLAG_ACK {
      var res := ReceiveAck(k.snd, k.connState, p);
      if res.OldAck? {
        NothingArrives(s, p, ok);
      } else if res.closed || p.data == [] {
        BareAckArrives(s, p, e);
      } else {
        DataArrives(s, p, e, h.out);
      }
    } else {
      ArrivalFromStream(s, p);
      FinArrives(s, p, e, h.out);
    }
  }

  lemma FlowsStepA(s: System, act: Action)
    requires Flows(s) && Enabled(s.a, s.fromB, act) && Short(StepA(s, act))
    ensures Flows(StepA(s, act))
  {
    if act.Deliver? { DeliverStep(s, act.p, act.checksumOk); } else { LocalStep(s, act); }
  }

  /** Every step of either side keeps both directions in order. */
  lemma FlowsStep(s: System, st: Step)
    requires Flows(s) && CanStep(s, st) && Short(Next(s, st))
    ensures Flows(Next(s, st))
  {
    FlowsStepA(if st.byA then s else Flip(s), st.act);
  }
}
