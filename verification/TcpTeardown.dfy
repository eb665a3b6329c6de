/** Connection teardown over whole runs: which states are reachable, and what they imply about both
    sides; and what becomes of the peer's data once the own FIN is acknowledged. */
module TcpTeardown {
  import opened TcpTypes
  import opened TcpSteps
  import opened TcpReassembly
  import opened TcpSending
  import opened TcpSystem
  import opened TcpIntegrity

  /** The code's state graph. */
  predicate Edge(st: ConnState, st': ConnState)
  {
    || (st == Established && (st' == CloseWait || st' == FinWait1))
    || (st == FinWait1 && st' == FinWait2)
    || (st == FinWait2 && st' == TimeWait)
    || (st == CloseWait && st' == LastAck)
    || (st == LastAck && st' == Closed)
  }

  predicate FinSentState(st: ConnState)
  {
    st == FinWait1 || st == FinWait2 || st == TimeWait || st == LastAck || st == Closed
  }

  predicate OwnFinAcked(st: ConnState)
  {
    st == FinWait2 || st == TimeWait || st == Closed
  }

  predicate PeerFinTaken(st: ConnState)
  {
    st == CloseWait || st == LastAck || st == Closed || st == TimeWait
  }

  /** What a side's own state says about its in-flight list. */
  predicate StateMatchesList(k: Socket)
  {
    && (k.connState == Established || k.connState == CloseWait || FinSentState(k.connState))
    && (k.snd.writer.Done? <==> FinSentState(k.connState))
    && (k.closed <==> k.connState == Closed)
    && (k.connState == FinWait1 || k.connState == LastAck ==> FinLast(k.snd.inFlight))
    && (k.connState == FinWait2 || k.connState == TimeWait ==> k.snd.inFlight == [])
    && (k.connState == Closed ==> |k.snd.inFlight| == 1 && FinLast(k.snd.inFlight))
  }

  /** What a's state says about b: an acked FIN means b took it in sequence, behind the whole stream of
      a; a recorded FIN means a has the whole stream of b. */
  ghost predicate StateMatchesPeer(a: Endpoint, b: Endpoint)
    requires 0 <= DataSent(a.sock.snd) <= |a.accepted| && 0 <= DataSent(b.sock.snd) <= |b.accepted|
  {
    && (OwnFinAcked(a.sock.connState) ==> b.finTaken && b.sock.rcv.expected == End(StreamFrom(a)))
    && (PeerFinTaken(a.sock.connState) ==> StreamFrom(b).fin && a.sock.rcv.expected == End(StreamFrom(b)))
  }

  /** A side that took the FIN in sequence is not in ESTABLISHED any more. */
  predicate FinLeavesEstablished(e: Endpoint)
  {
    e.finTaken ==> e.sock.connState != Established
  }

  /** All FIN packets sent are one packet, and there is none before the writer is done. */
  ghost predicate OneFin(net: set<Packet>, done: bool)
  {
    && (forall p :: p in net && p.flags.fin ==> done)
    && (forall p, q :: p in net && q in net && p.flags.fin && q.flags.fin ==> p == q)
  }

  ghost predicate Orderly(s: System)
  {
    && Flows(s)
    && OneFin(s.fromA, s.a.sock.snd.writer.Done?) && OneFin(s.fromB, s.b.sock.snd.writer.Done?)
    && FinLeavesEstablished(s.a) && FinLeavesEstablished(s.b)
    && StateMatchesList(s.a.sock) && StateMatchesList(s.b.sock)
    && StateMatchesPeer(s.a, s.b) && StateMatchesPeer(s.b, s.a)
  }

  predicate StaysOrMoves(st: ConnState, st': ConnState)
  {
    st' == st || Edge(st, st')
  }

  // ----- one packet ---------------------------------------------------------------------------

  /** The socket after the ack part of HandlePacket. */
  function AfterAck(k: Socket, p: Packet): Socket
    requires ReceiveAck(k.snd, k.connState, p).AckTaken?
  {
    var res := ReceiveAck(k.snd, k.connState, p);
    k.(snd := res.snd, connState := res.connState, closed := res.closed)
  }

  lemma AckMovesList(k: Socket, p: Packet, t: Stream, net: set<Packet>)
    requires ItemsOk(k.snd.inFlight, t, k.snd.isn, net) && Contiguous(k.snd.inFlight, Upto(k.snd)) && StreamOk(t)
    requires StateMatchesList(k) && !k.closed && ReceiveAck(k.snd, k.connState, p).AckTaken?
    ensures StateMatchesList(AfterAck(k, p))
    ensures StaysOrMoves(k.connState, AfterAck(k, p).connState)
    ensures AfterAck(k, p).connState != k.connState ==>
              OwnFinAcked(AfterAck(k, p).connState) && t.fin && End(t) < Sub32(p.ackNum, k.snd.isn) && p.ackNum != 0
  {
    var x := k.snd;
    if p.ackNum > x.largestAck {
      AckLoopMoves(k.connState, x.inFlight, x.inFlightSize, Sub32(p.ackNum, x.isn), Upto(x), t, x.isn, net);
    }
  }

  /** An ack moves the state of a only along an edge, and only when b stands behind a's FIN. */
  lemma AckMovesState(s: System, p: Packet)
    requires Orderly(s) && p in s.fromB && p.flags == FLAG_ACK && !s.a.sock.closed
    requires ReceiveAck(s.a.sock.snd, s.a.sock.connState, p).AckTaken?
    ensures StateMatchesList(AfterAck(s.a.sock, p))
    ensures StaysOrMoves(s.a.sock.connState, AfterAck(s.a.sock, p).connState)
    ensures AfterAck(s.a.sock, p).connState != s.a.sock.connState ==>
              OwnFinAcked(AfterAck(s.a.sock, p).connState) && p.data == []
              && s.b.finTaken && s.b.sock.rcv.expected == End(StreamFrom(s.a))
  {
    var t := StreamFrom(s.a);
    assert AckOk(p, s.a.sock.snd.isn, s.b.sock.rcv.expected, s.b.finTaken);
    AckMovesList(s.a.sock, p, t, s.fromA);
  }

  lemma TakeFinMatches(k: Socket, r: Receiver)
    requires StateMatchesList(k)
    ensures StateMatchesList(k.(connState := TakeFin(k.connState), rcv := r))
    ensures StaysOrMoves(k.connState, TakeFin(k.connState))
    ensures OwnFinAcked(TakeFin(k.connState)) <==> OwnFinAcked(k.connState)
  {
  }

  /** What a packet may do to the state of a: at most one edge, with the peer where it should be. */
  ghost predicate ArrivalOk(s: System, k: Socket)
    requires Flows(s)
  {
    && StateMatchesList(k)
    && StaysOrMoves(s.a.sock.connState, k.connState)
    && (OwnFinAcked(k.connState) ==> s.b.finTaken && s.b.sock.rcv.expected == End(StreamFrom(s.a)))
    && (PeerFinTaken(k.connState) ==> StreamFrom(s.b).fin && k.rcv.expected == End(StreamFrom(s.b)))
  }

  /** The receiving half moved on; its state moved by TakeFin at most. */
  lemma ReceivedArrivalOk(s: System, k: Socket, d: RcvResult, delivered: seq<Byte>, spill: int)
    requires Orderly(s) && StateMatchesList(k) && k.connState == s.a.sock.connState && k.rcv == s.a.sock.rcv
    requires Received(k.rcv, d, delivered, k.connState, spill, StreamFrom(s.b))
    ensures ArrivalOk(s, k.(rcv := d.rcv, connState := d.connState))
  {
    TakeFinMatches(k, d.rcv);
  }

  lemma DataArrivalOk(s: System, p: Packet)
    requires Orderly(s) && p in s.fromB && p.flags == FLAG_ACK && p.data != [] && !s.a.sock.closed
    requires ReceiveAck(s.a.sock.snd, s.a.sock.connState, p).AckTaken?
    ensures ArrivalOk(s, HandleAckPacket(s.a.sock, p).sock)
  {
    var k := s.a.sock;
    AckMovesState(s, p);
    ArrivalFromStream(s, p);
    ReceiveDataOk(k.rcv, s.a.delivered, k.connState, p, StreamFrom(s.b));
    ReceivedArrivalOk(s, AfterAck(k, p), ReceiveData(k.rcv, k.connState, p), s.a.delivered, Spill(k.rcv, p));
  }

  lemma BareAckArrivalOk(s: System, p: Packet)
    requires Orderly(s) && p in s.fromB && p.flags == FLAG_ACK && p.data == [] && !s.a.sock.closed
    requires ReceiveAck(s.a.sock.snd, s.a.sock.connState, p).AckTaken?
    ensures ArrivalOk(s, HandleAckPacket(s.a.sock, p).sock)
  {
    AckMovesState(s, p);
  }

  lemma FinArrivalOk(s: System, p: Packet)
    requires Orderly(s) && p in s.fromB && p.flags.fin && p.flags != FLAG_ACK
    ensures ArrivalOk(s, HandleFinPacket(s.a.sock, p).sock)
  {
    var k := s.a.sock;
    ArrivalFromStream(s, p);
    ReceiveFinOk(k.rcv, s.a.delivered, k.connState, p, StreamFrom(s.b));
    ReceivedArrivalOk(s, k, ReceiveFin(k.rcv, k.connState, p), s.a.delivered, 0);
  }

  lemma DeliverOk(s: System, p: Packet, ok: bool)
    requires Orderly(s) && Enabled(s.a, s.fromB, Deliver(p, ok))
    ensures ArrivalOk(s, HandlePacket(s.a.sock, p, ok).sock)
  {
    var k := s.a.sock;
    if k.closed || !ok {
    } else if p.flags == FLAG_ACK {
      if ReceiveAck(k.snd, k.connState, p).AckTaken? {
        if p.data == [] { BareAckArrivalOk(s, p); } else { DataArrivalOk(s, p); }
      }
    } else if p.flags.fin {
      FinArrivalOk(s, p);
    }
  }

  // ----- every step ----------------------------------------------------------------------------

  lemma LocalState(s: System, act: Action)
    requires StateMatchesList(s.a.sock) && Enabled(s.a, s.fromB, act) && !act.Deliver?
    ensures var k, k' := s.a.sock, StepA(s, act).a.sock;
            && StateMatchesList(k') && StaysOrMoves(k.connState, k'.connState)
            && (OwnFinAcked(k'.connState) <==> OwnFinAcked(k.connState))
            && (PeerFinTaken(k'.connState) <==> PeerFinTaken(k.connState))
            && k'.rcv.expected == k.rcv.expected
  {
  }

  /** A packet adds nothing to what the side that receives it has sent. */
  lemma DeliverKeepsStream(s: System, p: Packet, ok: bool)
    requires Flows(s) && Enabled(s.a, s.fromB, Deliver(p, ok)) && Flows(StepA(s, Deliver(p, ok)))
    ensures StreamFrom(StepA(s, Deliver(p, ok)).a) == StreamFrom(s.a)
    ensures s.a.sock.rcv.expected <= StepA(s, Deliver(p, ok)).a.sock.rcv.expected
  {
    var k := s.a.sock;
    HandledReceiver(k, p, ok);
    ArrivalFromStream(s, p);
    if DataIsTaken(k, p, ok) {
      ReceiveDataOk(k.rcv, s.a.delivered, ReceiveAck(k.snd, k.connState, p).connState, p, StreamFrom(s.b));
    } else if p.flags.fin {
      ReceiveFinOk(k.rcv, s.a.delivered, k.connState, p, StreamFrom(s.b));
    }
    if p.flags == FLAG_ACK && ReceiveAck(k.snd, k.connState, p).AckTaken? {
      ReceiveAckOk(k.snd, k.connState, p, s.a.accepted, s.a.log, s.fromA);
    }
  }

  lemma StepGrowth(s: System, act: Action)
    requires Flows(s) && Enabled(s.a, s.fromB, act) && Short(StepA(s, act)) && Flows(StepA(s, act))
    ensures Grows(StreamFrom(s.a), StreamFrom(StepA(s, act).a))
    ensures s.a.sock.rcv.expected <= StepA(s, act).a.sock.rcv.expected
  {
    if act.Deliver? {
      DeliverKeepsStream(s, act.p, act.checksumOk);
    } else {
      LocalProgress(s.a, s.fromB, s.fromA, act);
    }
  }

  /** b did not move: what its state says about a stays true. */
  lemma PeerStays(a: Endpoint, a': Endpoint, b: Endpoint)
    requires 0 <= DataSent(a.sock.snd) <= |a.accepted| && 0 <= DataSent(a'.sock.snd) <= |a'.accepted|
    requires 0 <= DataSent(b.sock.snd) <= |b.accepted| && StateMatchesPeer(b, a)
    requires Grows(StreamFrom(a), StreamFrom(a')) && (a.finTaken ==> a'.finTaken)
    requires a.sock.rcv.expected <= a'.sock.rcv.expected <= End(StreamFrom(b))
    ensures StateMatchesPeer(b, a')
  {
  }

  /** Only the Fin step makes a FIN, and only once. */
  lemma OneFinStep(s: System, act: Action)
    requires Orderly(s) && Enabled(s.a, s.fromB, act)
    ensures OneFin(StepA(s, act).fromA, StepA(s, act).a.sock.snd.writer.Done?)
  {
    if act.Retransmit? {
      RetransmitsOldPacket(s.a, s.fromA);
    } else if act.Deliver? {
      HandledWriter(s.a.sock, act.p, act.checksumOk);
    } else {
      ActMakesFin(s.a, s.fromB, act);
    }
  }

  lemma ActMakesFin(e: Endpoint, inbox: set<Packet>, act: Action)
    requires Enabled(e, inbox, act) && !act.Deliver? && !act.Retransmit?
    ensures act == Fin ==> !e.sock.snd.writer.Done? && Act(e, inbox, act).e.sock.snd.writer.Done?
    ensures act == Fin ==> Act(e, inbox, act).out == {FinPacket(e.sock)}
    ensures act != Fin ==> Act(e, inbox, act).e.sock.snd.writer.Done? == e.sock.snd.writer.Done?
    ensures act != Fin ==> forall p :: p in Act(e, inbox, act).out ==> !p.flags.fin
  {
  }

  lemma HandledWriter(k: Socket, p: Packet, ok: bool)
    requires Free(k.rcv) >= 0
    ensures HandlePacket(k, p, ok).sock.snd.writer.Done? <==> k.snd.writer.Done?
    ensures forall q :: q in HandlePacket(k, p, ok).out ==> !q.flags.fin
  {
  }

  lemma FinTakenLeaves(s: System, p: Packet, ok: bool)
    requires Orderly(s) && Enabled(s.a, s.fromB, Deliver(p, ok))
    requires StaysOrMoves(s.a.sock.connState, HandlePacket(s.a.sock, p, ok).sock.connState)
    ensures FinLeavesEstablished(StepA(s, Deliver(p, ok)).a)
  {
  }

  lemma OrderlyStepA(s: System, act: Action)
    requires Orderly(s) && Enabled(s.a, s.fromB, act) && Short(StepA(s, act))
    ensures Orderly(StepA(s, act))
    ensures StaysOrMoves(s.a.sock.connState, StepA(s, act).a.sock.connState)
  {
    var s' := StepA(s, act);
    FlowsStepA(s, act);
    StepGrowth(s, act);
    PeerStays(s.a, s'.a, s.b);
    OneFinStep(s, act);
    if act.Deliver? {
      DeliverOk(s, act.p, act.checksumOk);
      DeliverKeepsStream(s, act.p, act.checksumOk);
      FinTakenLeaves(s, act.p, act.checksumOk);
    } else {
      LocalState(s, act);
    }
  }

  /** Every step keeps the protocol orderly and moves each side's state by one edge at most. */
  lemma OrderlyStep(s: System, st: Step)
    requires Orderly(s) && CanStep(s, st) && Short(Next(s, st))
    ensures Orderly(Next(s, st))
    ensures StaysOrMoves(s.a.sock.connState, Next(s, st).a.sock.connState)
    ensures StaysOrMoves(s.b.sock.connState, Next(s, st).b.sock.connState)
  {
    OrderlyStepA(if st.byA then s else Flip(s), st.act);
  }

  lemma {:induction false} OrderlyRun(s: System, steps: seq<Step>)
    requires Orderly(s) && IsRun(s, steps) && Short(Final(s, steps))
    ensures Orderly(Final(s, steps))
    decreases |steps|
  {
    if steps != [] {
      ShortAllAlong(Next(s, steps[0]), steps[1..]);
      OrderlyStep(s, steps[0]);
      OrderlyRun(Next(s, steps[0]), steps[1..]);
    }
  }

  lemma StartOrderly(s: System)
    requires Start(s)
    ensures Orderly(s)
  {
    StartFlow(s.a, s.b, s.fromA, s.fromB);
    StartFlow(s.b, s.a, s.fromB, s.fromA);
  }

  /** Teardown. In every reachable state: at most one FIN packet was ever made, and one can be made only in
      ESTABLISHED or CLOSE_WAIT; FIN_WAIT_2, TIME_WAIT and CLOSED mean that the peer took the own FIN in
      sequence, behind every byte sent, and that no data is in flight; CLOSE_WAIT, LAST_ACK, CLOSED and
      TIME_WAIT mean that the peer's FIN was taken after all its data. */
  lemma TeardownSafety(s: System, steps: seq<Step>, atA: bool)
    requires Start(s) && IsRun(s, steps) && Short(Final(s, steps))
    ensures SafelyClosing(At(Final(s, steps), atA), At(Final(s, steps), !atA))
    ensures OneFin(SentBy(Final(s, steps), atA), At(Final(s, steps), atA).sock.snd.writer.Done?)
  {
    StartOrderly(s);
    OrderlyRun(s, steps);
    var f := Final(s, steps);
    OrderlyIsSafe(if atA then f else Flip(f));
  }

  function SentBy(s: System, atA: bool): set<Packet>
  {
    if atA then s.fromA else s.fromB
  }

  ghost predicate SafelyClosing(a: Endpoint, b: Endpoint)
  {
    && StateMatchesList(a.sock)
    && (CanSendFin(a.sock) ==> a.sock.connState == Established || a.sock.connState == CloseWait)
    && (OwnFinAcked(a.sock.connState) ==>
          && b.finTaken && b.sock.rcv.expected == DataSent(a.sock.snd) + 1
          && (PeerFinTaken(b.sock.connState) || b.sock.connState == FinWait1 || b.sock.connState == FinWait2)
          && FlightBytes(a.sock.snd.inFlight) == [])
    && (PeerFinTaken(a.sock.connState) ==>
          b.sock.snd.writer.Done? && a.sock.rcv.expected == DataSent(b.sock.snd) + 1)
  }

  lemma OrderlyIsSafe(f: System)
    requires Orderly(f)
    ensures SafelyClosing(f.a, f.b)
  {
    if OwnFinAcked(f.a.sock.connState) { OnlyFinLeft(f.a, f.fromA); }
  }

  lemma OnlyFinLeft(a: Endpoint, net: set<Packet>)
    requires SendingOk(a, net) && StateMatchesList(a.sock) && OwnFinAcked(a.sock.connState)
    ensures FlightBytes(a.sock.snd.inFlight) == []
  {
    var items := a.sock.snd.inFlight;
    if items != [] { assert ItemOk(items[0], StreamFrom(a), a.sock.snd.isn, net); }
  }

  lemma AllReceived(a: Endpoint, b: Endpoint)
    requires Conserved(a.sock.snd, a.accepted) && a.sock.snd.writer.Done? && Intact(b, a)
    requires b.sock.rcv.expected == DataSent(a.sock.snd) + 1
    ensures a.accepted == Got(b) + a.sock.snd.writeRing
  {
    var d := DataSent(a.sock.snd);
    assert a.accepted == a.accepted[..d] + a.accepted[d..];
  }

  lemma ReachableConserved(s: System, steps: seq<Step>, atA: bool)
    requires Start(s) && IsRun(s, steps) && Short(Final(s, steps))
    ensures Conserved(At(Final(s, steps), atA).sock.snd, At(Final(s, steps), atA).accepted)
  {
    ReachableFlows(s, steps);
  }

  /** When b has taken a's FIN, b has every byte that a's application handed over except those still
      in a's write ring, which were written after the FIN went out and will never be sent. */
  lemma FinMeansAll(s: System, steps: seq<Step>, atA: bool)
    requires Start(s) && IsRun(s, steps) && Short(Final(s, steps)) && NoSpill(s, steps, !atA)
    ensures PeerFinTaken(At(Final(s, steps), !atA).sock.connState) ==>
              At(Final(s, steps), atA).accepted
              == Got(At(Final(s, steps), !atA)) + At(Final(s, steps), atA).sock.snd.writeRing
  {
    var a, b := At(Final(s, steps), atA), At(Final(s, steps), !atA);
    if PeerFinTaken(b.sock.connState) {
      TeardownSafety(s, steps, !atA);
      StreamIntegrityIff(s, steps, !atA);
      ReachableConserved(s, steps, atA);
      AllReceived(a, b);
    }
  }
}
