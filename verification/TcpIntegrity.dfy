/** Theorems over whole runs of two connected sockets: stream integrity and no early discard. */
module TcpIntegrity {
  import opened TcpTypes
  import opened TcpSteps
  import opened TcpReassembly
  import opened TcpSending
  import opened TcpSystem

  // ----- from the start of the connection to the end of a run ---------------------------

  predicate FreshSocket(e: Endpoint, foreignIsn: Word32)
  {
    var k := e.sock;
    && k.connState == Established && k.canRead && k.canWrite && !k.closed
    && k.snd.bytesSent == 0 && k.snd.writeRing == [] && k.snd.inFlight == [] && k.snd.inFlightSize == 0
    && k.snd.window <= BUFFER_SIZE && k.snd.writer == Ready
    && k.rcv == Receiver(foreignIsn, 1, [], [], {}, 0)
    && e.accepted == [] && e.delivered == [] && e.log == map[] && !e.finTaken
  }

  /** An ack that acknowledges no byte of a side with initial number isn that has received none: it is at
      most the ack of the SYN, or the raw number 0. */
  predicate Harmless(ackNum: Word32, isn: Word32)
  {
    ackNum == 0 || Sub32(ackNum, isn) <= 1
  }

  /** Packets left over from handshakes: SYNs, SYN-ACKs and clients' first acks, all of them harmless. */
  ghost predicate HandshakePackets(net: set<Packet>, foreignIsn: Word32)
  {
    forall p :: p in net ==> !p.flags.fin && (p.flags == FLAG_ACK ==> p.data == [] && Harmless(p.ackNum, foreignIsn))
  }

  ghost predicate Start(s: System)
  {
    && FreshSocket(s.a, s.b.sock.snd.isn) && FreshSocket(s.b, s.a.sock.snd.isn)
    && HandshakePackets(s.fromA, s.b.sock.snd.isn) && HandshakePackets(s.fromB, s.a.sock.snd.isn)
  }

  lemma StartFlow(a: Endpoint, b: Endpoint, fromA: set<Packet>, fromB: set<Packet>)
    requires FreshSocket(a, b.sock.snd.isn) && FreshSocket(b, a.sock.snd.isn)
    requires HandshakePackets(fromA, b.sock.snd.isn) && HandshakePackets(fromB, a.sock.snd.isn)
    ensures Flow(a, b, fromA, fromB)
  {
    var t := Stream([], map[], false);
    assert StreamFrom(a) == t;
    assert Represents([], map[]);
    PendingIsRepresented([], map[]);
    assert AcksOk(fromB, a.sock.snd.isn, 1, false);
  }

  /** Streams never shrink, so a run that ends short was short all along. */
  lemma AcceptedGrows(s: System, st: Step)
    requires CanStep(s, st)
    ensures |s.a.accepted| <= |Next(s, st).a.accepted| && |s.b.accepted| <= |Next(s, st).b.accepted|
  {
  }

  lemma {:induction false} ShortAllAlong(s: System, steps: seq<Step>)
    requires IsRun(s, steps) && Short(Final(s, steps))
    ensures Short(s)
    decreases |steps|
  {
    if steps != [] {
      ShortAllAlong(Next(s, steps[0]), steps[1..]);
      AcceptedGrows(s, steps[0]);
    }
  }

  lemma {:induction false} FlowsRun(s: System, steps: seq<Step>)
    requires Flows(s) && IsRun(s, steps) && Short(Final(s, steps))
    ensures Flows(Final(s, steps))
    decreases |steps|
  {
    if steps != [] {
      ShortAllAlong(Next(s, steps[0]), steps[1..]);
      FlowsStep(s, steps[0]);
      FlowsRun(Next(s, steps[0]), steps[1..]);
    }
  }

  /** Both directions are in order in every state reachable from a fresh connection. */
  lemma ReachableFlows(s: System, steps: seq<Step>)
    requires Start(s) && IsRun(s, steps) && Short(Final(s, steps))
    ensures Flows(Final(s, steps))
  {
    StartFlow(s.a, s.b, s.fromA, s.fromB);
    StartFlow(s.b, s.a, s.fromB, s.fromA);
    FlowsRun(s, steps);
  }

  // ----- stream integrity ------------------------------------------------------------------

  function At(s: System, atA: bool): Endpoint
  {
    if atA then s.a else s.b
  }

  function Got(e: Endpoint): seq<Byte>
  {
    e.delivered + e.sock.rcv.readRing
  }

  /** What the reader got, followed by the read ring, is exactly the first nextExpectedByte - 1
      bytes the peer's application handed over. */
  predicate Intact(rcvr: Endpoint, sndr: Endpoint)
  {
    var n := rcvr.sock.rcv.expected - 1;
    0 <= n <= |sndr.accepted| && Got(rcvr) == sndr.accepted[..n]
  }

  /** The data of p reaches step 2 of HandlePacket. */
  predicate DataIsTaken(k: Socket, p: Packet, ok: bool)
  {
    && !k.closed && ok && p.flags == FLAG_ACK && p.data != []
    && ReceiveAck(k.snd, k.connState, p).AckTaken? && !ReceiveAck(k.snd, k.connState, p).closed
  }

  /** Bytes a step writes too many into the read ring of the given side; known before the step. */
  ghost function StepSpill(s: System, st: Step, atA: bool): int
    requires CanStep(s, st)
  {
    if st.byA == atA && st.act.Deliver? && DataIsTaken(At(s, atA).sock, st.act.p, st.act.checksumOk)
    then Spill(At(s, atA).sock.rcv, st.act.p)
    else 0
  }

  /** The three things a packet can do to the receiving half. */
  lemma HandledReceiver(k: Socket, p: Packet, ok: bool)
    requires Free(k.rcv) >= 0
    ensures HandlePacket(k, p, ok).sock.rcv ==
            if DataIsTaken(k, p, ok) then ReceiveData(k.rcv, ReceiveAck(k.snd, k.connState, p).connState, p).rcv
            else if !k.closed && ok && p.flags != FLAG_ACK && p.flags.fin then ReceiveFin(k.rcv, k.connState, p).rcv
            else k.rcv
  {
  }

  lemma ExcessLocal(s: System, act: Action)
    requires Enabled(s.a, s.fromB, act) && !act.Deliver?
    ensures Excess(StepA(s, act).a.sock.rcv, StepA(s, act).a.delivered) == Excess(s.a.sock.rcv, s.a.delivered)
  {
  }

  lemma ExcessDeliver(s: System, p: Packet, ok: bool)
    requires Flows(s) && Enabled(s.a, s.fromB, Deliver(p, ok))
    ensures Excess(HandlePacket(s.a.sock, p, ok).sock.rcv, s.a.delivered)
            == Excess(s.a.sock.rcv, s.a.delivered)
               + if DataIsTaken(s.a.sock, p, ok) then Spill(s.a.sock.rcv, p) else 0
  {
    var k := s.a.sock;
    HandledReceiver(k, p, ok);
    ArrivalFromStream(s, p);
    if DataIsTaken(k, p, ok) {
      ReceiveDataOk(k.rcv, s.a.delivered, ReceiveAck(k.snd, k.connState, p).connState, p, StreamFrom(s.b));
    } else if p.flags.fin {
      ReceiveFinOk(k.rcv, s.a.delivered, k.connState, p, StreamFrom(s.b));
    }
  }

  lemma ExcessStepA(s: System, act: Action)
    requires Flows(s) && Enabled(s.a, s.fromB, act)
    ensures Excess(StepA(s, act).a.sock.rcv, StepA(s, act).a.delivered)
            == Excess(s.a.sock.rcv, s.a.delivered) + StepSpill(s, Step(true, act), true)
  {
    if act.Deliver? { ExcessDeliver(s, act.p, act.checksumOk); } else { ExcessLocal(s, act); }
  }

  lemma ExcessStep(s: System, st: Step, atA: bool)
    requires Flows(s) && CanStep(s, st)
    ensures Excess(At(Next(s, st), atA).sock.rcv, At(Next(s, st), atA).delivered)
            == Excess(At(s, atA).sock.rcv, At(s, atA).delivered) + StepSpill(s, st, atA)
  {
    if st.byA == atA {
      ExcessStepA(if st.byA then s else Flip(s), st.act);
    }
  }

  /** No step of the run leaves a half-written segment in the read ring of that side. */
  ghost predicate NoSpill(s: System, steps: seq<Step>, atA: bool)
    requires IsRun(s, steps)
    decreases |steps|
  {
    steps == [] || (StepSpill(s, steps[0], atA) == 0 && NoSpill(Next(s, steps[0]), steps[1..], atA))
  }

  lemma {:induction false} ExcessRun(s: System, steps: seq<Step>, atA: bool)
    requires Flows(s) && IsRun(s, steps) && Short(Final(s, steps))
    ensures var e, e' := At(s, atA), At(Final(s, steps), atA);
            && Excess(e.sock.rcv, e.delivered) <= Excess(e'.sock.rcv, e'.delivered)
            && (NoSpill(s, steps, atA) <==> Excess(e.sock.rcv, e.delivered) == Excess(e'.sock.rcv, e'.delivered))
    decreases |steps|
  {
    if steps != [] {
      var s' := Next(s, steps[0]);
      ShortAllAlong(s', steps[1..]);
      FlowsStep(s, steps[0]);
      ExcessStep(s, steps[0], atA);
      SpillNotNegative(s, steps[0], atA);
      ExcessRun(s', steps[1..], atA);
    }
  }

  lemma SpillNotNegative(s: System, st: Step, atA: bool)
    requires CanStep(s, st)
    ensures StepSpill(s, st, atA) >= 0
  {
  }

  lemma IntactIffNoExcess(a: Endpoint, b: Endpoint, fromA: set<Packet>, fromB: set<Packet>)
    requires Flow(a, b, fromA, fromB)
    ensures Intact(b, a) <==> Excess(b.sock.rcv, b.delivered) == 0
  {
    var n := b.sock.rcv.expected - 1;
    assert StreamFrom(a).bytes[..n] == a.accepted[..n];
  }

  /** End-to-end stream integrity. Over every run with loss, duplication and reordering, the bytes
      received at a side are exactly the first bytes the peer handed over if and only if no arrival
      in the run was followed by a queued segment that fits the read ring only in part. */
  lemma StreamIntegrityIff(s: System, steps: seq<Step>, atA: bool)
    requires Start(s) && IsRun(s, steps) && Short(Final(s, steps))
    ensures Intact(At(Final(s, steps), atA), At(Final(s, steps), !atA)) <==> NoSpill(s, steps, atA)
  {
    StartFlow(s.a, s.b, s.fromA, s.fromB);
    StartFlow(s.b, s.a, s.fromB, s.fromA);
    ExcessRun(s, steps, atA);
    FlowsRun(s, steps);
    var f := Final(s, steps);
    if atA {
      IntactIffNoExcess(f.b, f.a, f.fromB, f.fromA);
    } else {
      IntactIffNoExcess(f.a, f.b, f.fromA, f.fromB);
    }
  }

  // ----- no early discard ------------------------------------------------------------------------

  /** Data bytes that have left the in-flight list. */
  function Removed(x: Sender): int
  {
    Min(Head(x) - 1, DataSent(x))
  }

  lemma HeadInStream(x: Sender, accepted: seq<Byte>, log: map<int, seq<Byte>>, net: set<Packet>)
    requires SenderOk(x, accepted, log, net)
    ensures 1 <= Head(x) <= x.bytesSent + 1
    ensures 0 <= Removed(x) <= DataSent(x)
  {
    var t := StreamOf(x, accepted, log);
    if x.inFlight != [] {
      assert ItemOk(x.inFlight[0], t, x.isn, net);
      assert FromStream(t, x.inFlight[0].priority, x.inFlight[0].packet);
    } else if HasUnpushed(x.writer) {
      assert ItemOk(x.writer.item, t, x.isn, net);
    }
  }

  lemma DiscardedWasReceived(a: Endpoint, b: Endpoint, fromA: set<Packet>, fromB: set<Packet>)
    requires Flow(a, b, fromA, fromB)
    ensures 0 <= Removed(a.sock.snd) <= b.sock.rcv.expected - 1
    ensures Intact(b, a) ==> a.accepted[..Removed(a.sock.snd)] <= Got(b)
    ensures a.sock.snd.writer.Done? && a.sock.snd.inFlight == [] ==> b.finTaken && b.sock.rcv.expected == DataSent(a.sock.snd) + 1
  {
    HeadInStream(a.sock.snd, a.accepted, a.log, fromA);
  }

  /** No early discard. In every reachable state the data that left a side's in-flight list is in
      the peer's received stream, and the FIN left only after the peer took it in sequence, behind
      everything before it. */
  lemma NoEarlyDiscard(s: System, steps: seq<Step>, atA: bool)
    requires Start(s) && IsRun(s, steps) && Short(Final(s, steps))
    ensures var a, b := At(Final(s, steps), atA), At(Final(s, steps), !atA); var x := a.sock.snd;
            && 0 <= Removed(x) <= b.sock.rcv.expected - 1
            && (Intact(b, a) ==> a.accepted[..Removed(x)] <= Got(b))
            && (x.writer.Done? && x.inFlight == [] ==> b.finTaken && b.sock.rcv.expected == DataSent(x) + 1)
  {
    ReachableFlows(s, steps);
    var f := Final(s, steps);
    if atA {
      DiscardedWasReceived(f.a, f.b, f.fromA, f.fromB);
    } else {
      DiscardedWasReceived(f.b, f.a, f.fromB, f.fromA);
    }
  }

  // ----- conservation --------------------------------------------------------------------------------

  function FlightBytes(items: seq<Item>): seq<Byte>
  {
    if items == [] then [] else items[0].packet.data + FlightBytes(items[1..])
  }

  lemma HeadItem(items: seq<Item>, upto: int, t: Stream, isn: Word32, net: set<Packet>)
    requires items != [] && ItemsOk(items, t, isn, net) && Contiguous(items, upto) && StreamOk(t)
    ensures 1 <= items[0].priority
    ensures items[0].packet.flags.fin ==> items[0].priority == End(t) && items[0].packet.data == []
    ensures !items[0].packet.flags.fin ==>
              && items[0].priority + |items[0].packet.data| <= End(t)
              && items[0].packet.data == t.bytes[items[0].priority - 1..items[0].priority - 1 + |items[0].packet.data|]
              && PriorityAt(items[1..], 0, upto) == items[0].priority + |items[0].packet.data|
  {
    assert ItemOk(items[0], t, isn, net);
    TailOk(items, upto, t, isn, net);
  }

  lemma SplitSlice(s: seq<Byte>, i: int, j: int, k: int)
    requires 0 <= i <= j <= k <= |s|
    ensures s[i..k] == s[i..j] + s[j..k]
  {
  }

  lemma SliceOfPrefix(s: seq<Byte>, i: int, j: int, k: int)
    requires 0 <= i <= j <= k <= |s|
    ensures s[..k][i..j] == s[i..j]
  {
  }

  /** The in-flight list holds one slice of the stream: from its head to its end. */
  lemma HeadThenSlice(items: seq<Item>, bytes: seq<Byte>, h: int, h': int, to: int)
    requires items != [] && 0 <= h <= h' <= to <= |bytes|
    requires items[0].packet.data == bytes[h..h'] && FlightBytes(items[1..]) == bytes[h'..to]
    ensures FlightBytes(items) == bytes[h..to]
  {
    SplitSlice(bytes, h, h', to);
  }

  /** The first item's data lies between its own place in the stream and the next item's. */
  lemma HeadPlace(items: seq<Item>, upto: int, t: Stream, isn: Word32, net: set<Packet>, h: int, h': int)
    requires items != [] && ItemsOk(items, t, isn, net) && Contiguous(items, upto) && StreamOk(t)
    requires h == Min(items[0].priority - 1, |t.bytes|) && h' == Min(PriorityAt(items[1..], 0, upto) - 1, |t.bytes|)
    ensures 0 <= h <= h' && items[0].packet.data == t.bytes[h..h']
  {
    HeadItem(items, upto, t, isn, net);
    if items[0].packet.flags.fin { TailOk(items, upto, t, isn, net); }
  }

  lemma {:induction false} FlightIsSlice(items: seq<Item>, upto: int, t: Stream, isn: Word32, net: set<Packet>, to: int)
    requires ItemsOk(items, t, isn, net) && Contiguous(items, upto) && StreamOk(t)
    requires 1 <= upto && to == Min(upto - 1, |t.bytes|)
    ensures 0 <= Min(PriorityAt(items, 0, upto) - 1, |t.bytes|) <= to
    ensures FlightBytes(items) == t.bytes[Min(PriorityAt(items, 0, upto) - 1, |t.bytes|)..to]
  {
    if items != [] {
      TailOk(items, upto, t, isn, net);
      FlightIsSlice(items[1..], upto, t, isn, net, to);
      var h := Min(items[0].priority - 1, |t.bytes|);
      var h' := Min(PriorityAt(items[1..], 0, upto) - 1, |t.bytes|);
      HeadPlace(items, upto, t, isn, net, h, h');
      HeadThenSlice(items, t.bytes, h, h', to);
    }
  }

  function UnpushedBytes(w: Writer): seq<Byte>
  {
    if HasUnpushed(w) then w.item.packet.data else []
  }

  lemma UnpushedIsSlice(x: Sender, accepted: seq<Byte>, log: map<int, seq<Byte>>, net: set<Packet>, to: int)
    requires SenderOk(x, accepted, log, net) && to == Min(Upto(x) - 1, DataSent(x))
    ensures 0 <= to <= DataSent(x) && UnpushedBytes(x.writer) == accepted[to..DataSent(x)]
  {
    if HasUnpushed(x.writer) { assert ItemOk(x.writer.item, StreamOf(x, accepted, log), x.isn, net); }
  }

  lemma Reassembling(s: seq<Byte>, i: int, j: int, k: int)
    requires 0 <= i <= j <= k <= |s|
    ensures s == s[..i] + s[i..j] + s[j..k] + s[k..]
  {
  }

  lemma ConservedNow(x: Sender, accepted: seq<Byte>, log: map<int, seq<Byte>>, net: set<Packet>)
    requires SenderOk(x, accepted, log, net)
    ensures 0 <= Removed(x) <= |accepted|
    ensures accepted == accepted[..Removed(x)] + FlightBytes(x.inFlight) + UnpushedBytes(x.writer)
                        + (Rest(x.writer) + x.writeRing)
  {
    var t := StreamOf(x, accepted, log);
    var d := DataSent(x);
    var to := Min(Upto(x) - 1, d);
    HeadInStream(x, accepted, log, net);
    UnpushedIsSlice(x, accepted, log, net, to);
    FlightIsSlice(x.inFlight, Upto(x), t, x.isn, net, to);
    SliceOfPrefix(accepted, Removed(x), to, d);
    Reassembling(accepted, Removed(x), to, d);
  }

  /** Sender conservation. In every reachable state the bytes the application handed over are, in
      order: those removed after an ack, those in flight, the segment sent but not yet listed, the
      burst being segmented, the write ring. */
  lemma SenderConservation(s: System, steps: seq<Step>, atA: bool)
    requires Start(s) && IsRun(s, steps) && Short(Final(s, steps))
    ensures var e := At(Final(s, steps), atA); var x := e.sock.snd;
            && 0 <= Removed(x) <= |e.accepted|
            && e.accepted == e.accepted[..Removed(x)] + FlightBytes(x.inFlight) + UnpushedBytes(x.writer)
                             + (Rest(x.writer) + x.writeRing)
            && (forall i :: 0 <= i < |x.inFlight| && !x.inFlight[i].packet.flags.fin ==>
                  0 < |x.inFlight[i].packet.data| <= MAX_SEGMENT_SIZE)
            && Contiguous(x.inFlight, Upto(x))
  {
    ReachableFlows(s, steps);
    var f := Final(s, steps);
    var e := At(f, atA);
    var net := if atA then f.fromA else f.fromB;
    assert SendingOk(e, net);
    ConservedNow(e.sock.snd, e.accepted, e.log, net);
    SegmentSizes(e.sock.snd, e.accepted, e.log, net);
  }

  lemma SegmentSizes(x: Sender, accepted: seq<Byte>, log: map<int, seq<Byte>>, net: set<Packet>)
    requires SenderOk(x, accepted, log, net)
    ensures forall i :: 0 <= i < |x.inFlight| && !x.inFlight[i].packet.flags.fin ==>
              0 < |x.inFlight[i].packet.data| <= MAX_SEGMENT_SIZE
  {
    var t := StreamOf(x, accepted, log);
    forall i | 0 <= i < |x.inFlight| && !x.inFlight[i].packet.flags.fin
      ensures 0 < |x.inFlight[i].packet.data| <= MAX_SEGMENT_SIZE
    {
      assert ItemOk(x.inFlight[i], t, x.isn, net);
    }
  }
}
