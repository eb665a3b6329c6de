/** Half-close does not work: a side whose FIN was acknowledged drops the data its peer goes on sending,
    because that data still carries the smaller ack that excludes the FIN. */
module TcpHalfClose {
  import opened TcpTypes
  import opened TcpSteps
  import opened TcpReassembly
  import opened TcpSending
  import opened TcpSystem
  import opened TcpIntegrity
  import opened TcpTeardown

  predicate HalfClosed(k: Socket)
  {
    k.connState == FinWait2 || k.connState == TimeWait
  }

  /** The raw number of the ack that covers the FIN. */
  function FinAckNum(x: Sender): Word32
  {
    Add32(x.isn, x.bytesSent + 1)
  }

  /** Once the own FIN is acked, largestAckReceived is at or beyond that number, which is not zero: as an
      ack it was greater than another. */
  predicate FinAckRecorded(k: Socket)
  {
    HalfClosed(k) ==> 1 <= FinAckNum(k.snd) <= k.snd.largestAck
  }

  /** Data whose raw ack is below largestAckReceived: the guard at which HandlePacket turns old acks away. */
  predicate Stale(p: Packet, largestAck: Word32)
  {
    p.flags == FLAG_ACK && p.data != [] ==> p.ackNum < largestAck
  }

  ghost predicate AllStale(net: set<Packet>, largestAck: Word32)
  {
    forall p :: p in net ==> Stale(p, largestAck)
  }

  // ----- the ack of the FIN is recorded -------------------------------------------------------

  lemma OneBelow(isn: Word32, n: int)
    requires 1 <= Add32(isn, n + 1)
    ensures Add32(isn, n) == Add32(isn, n + 1) - 1
  {
  }

  lemma RawAgain(isn: Word32, raw: Word32)
    ensures Add32(isn, Sub32(raw, isn)) == raw
  {
    assert Sub32(raw, isn) == if isn <= raw then raw - isn else raw - isn + MOD32;
  }

  /** An ack that covers the FIN is exactly its number. */
  lemma CoversFin(s: System, p: Packet)
    requires Orderly(s) && p in s.fromB && p.flags == FLAG_ACK && p.ackNum != 0 && s.a.sock.snd.writer.Done?
    requires End(StreamFrom(s.a)) < Sub32(p.ackNum, s.a.sock.snd.isn)
    ensures p.ackNum == FinAckNum(s.a.sock.snd)
  {
    assert AckOk(p, s.a.sock.snd.isn, s.b.sock.rcv.expected, s.b.finTaken);
    ExactlyFin(s.a.sock.snd, p, s.b.sock.rcv.expected, s.b.finTaken);
  }

  lemma ExactlyFin(x: Sender, p: Packet, expected: int, fin: bool)
    requires AckOk(p, x.isn, expected, fin) && p.flags == FLAG_ACK && p.ackNum != 0
    requires expected <= x.bytesSent < Sub32(p.ackNum, x.isn)
    ensures p.ackNum == FinAckNum(x)
  {
    RawAgain(x.isn, p.ackNum);
  }

  lemma AckFields(k: Socket, p: Packet)
    requires ReceiveAck(k.snd, k.connState, p).AckTaken?
    ensures k.snd.largestAck <= AfterAck(k, p).snd.largestAck
    ensures AfterAck(k, p).snd.largestAck == if p.ackNum > k.snd.largestAck then p.ackNum else k.snd.largestAck
    ensures AfterAck(k, p).snd.isn == k.snd.isn && AfterAck(k, p).snd.bytesSent == k.snd.bytesSent
    ensures p.ackNum == k.snd.largestAck ==> AfterAck(k, p).connState == k.connState
  {
  }

  lemma AckRecordsFin(s: System, p: Packet)
    requires Orderly(s) && FinAckRecorded(s.a.sock) && p in s.fromB && p.flags == FLAG_ACK && !s.a.sock.closed
    requires ReceiveAck(s.a.sock.snd, s.a.sock.connState, p).AckTaken?
    ensures KeepsRecord(s.a.sock, AfterAck(s.a.sock, p))
  {
    var k := s.a.sock;
    AckFields(k, p);
    AckMovesList(k, p, StreamFrom(s.a), s.fromA);
    if HalfClosed(AfterAck(k, p)) && !HalfClosed(k) { CoversFin(s, p); }
  }

  /** What a packet does to the fields that matter here. */
  ghost predicate KeepsRecord(k: Socket, k': Socket)
  {
    && FinAckRecorded(k') && k.snd.largestAck <= k'.snd.largestAck
    && k'.snd.isn == k.snd.isn && k'.snd.bytesSent == k.snd.bytesSent
  }

  lemma DeliverKeepsRecord(s: System, p: Packet, ok: bool)
    requires Orderly(s) && FinAckRecorded(s.a.sock) && Enabled(s.a, s.fromB, Deliver(p, ok))
    ensures KeepsRecord(s.a.sock, HandlePacket(s.a.sock, p, ok).sock)
  {
    var k := s.a.sock;
    if !k.closed && ok && p.flags == FLAG_ACK && ReceiveAck(k.snd, k.connState, p).AckTaken? {
      AckRecordsFin(s, p);
      if p.data != [] { DataKeepsRecord(s, p, ok); }
    } else {
      OtherKeepsRecord(k, p, ok);
    }
  }

  lemma OtherKeepsRecord(k: Socket, p: Packet, ok: bool)
    requires Free(k.rcv) >= 0 && FinAckRecorded(k)
    requires k.closed || !ok || p.flags != FLAG_ACK || ReceiveAck(k.snd, k.connState, p).OldAck?
    ensures KeepsRecord(k, HandlePacket(k, p, ok).sock)
  {
  }

  lemma DataKeepsRecord(s: System, p: Packet, ok: bool)
    requires Orderly(s) && FinAckRecorded(s.a.sock) && Enabled(s.a, s.fromB, Deliver(p, ok)) && !s.a.sock.closed && ok
    requires p.flags == FLAG_ACK && p.data != [] && ReceiveAck(s.a.sock.snd, s.a.sock.connState, p).AckTaken?
    requires KeepsRecord(s.a.sock, AfterAck(s.a.sock, p))
    ensures KeepsRecord(s.a.sock, HandlePacket(s.a.sock, p, ok).sock)
  {
    var k := s.a.sock;
    DeliverOk(s, p, ok);
    if HalfClosed(HandlePacket(k, p, ok).sock) && !HalfClosed(k) { AckMovesState(s, p); }
  }

  lemma FinAckStepA(s: System, act: Action)
    requires Orderly(s) && FinAckRecorded(s.a.sock) && Enabled(s.a, s.fromB, act)
    ensures FinAckRecorded(StepA(s, act).a.sock)
    ensures HalfClosed(s.a.sock) ==> KeepsRecord(s.a.sock, StepA(s, act).a.sock)
  {
    if act.Deliver? {
      DeliverKeepsRecord(s, act.p, act.checksumOk);
    } else {
      LocalKeepsRecord(s.a, s.fromB, act);
    }
  }

  lemma LocalKeepsRecord(e: Endpoint, inbox: set<Packet>, act: Action)
    requires StateMatchesList(e.sock) && FinAckRecorded(e.sock) && Enabled(e, inbox, act) && !act.Deliver?
    ensures FinAckRecorded(Act(e, inbox, act).e.sock)
    ensures HalfClosed(e.sock) ==> KeepsRecord(e.sock, Act(e, inbox, act).e.sock)
  {
  }

  lemma FinAckStep(s: System, st: Step)
    requires Orderly(s) && CanStep(s, st) && FinAckRecorded(s.a.sock) && FinAckRecorded(s.b.sock)
    ensures FinAckRecorded(Next(s, st).a.sock) && FinAckRecorded(Next(s, st).b.sock)
  {
    FinAckStepA(if st.byA then s else Flip(s), st.act);
  }

  lemma {:induction false} FinAckRun(s: System, steps: seq<Step>)
    requires Orderly(s) && FinAckRecorded(s.a.sock) && FinAckRecorded(s.b.sock)
    requires IsRun(s, steps) && Short(Final(s, steps))
    ensures Orderly(Final(s, steps))
    ensures FinAckRecorded(Final(s, steps).a.sock) && FinAckRecorded(Final(s, steps).b.sock)
    decreases |steps|
  {
    if steps != [] {
      ShortAllAlong(Next(s, steps[0]), steps[1..]);
      OrderlyStep(s, steps[0]);
      FinAckStep(s, steps[0]);
      FinAckRun(Next(s, steps[0]), steps[1..]);
    }
  }

  // ----- deafness -------------------------------------------------------------------------------

  /** A half-closed a, from which on all data of b is stale. */
  ghost predicate Deaf(s: System)
  {
    Orderly(s) && HalfClosed(s.a.sock) && FinAckRecorded(s.a.sock) && AllStale(s.fromB, s.a.sock.snd.largestAck)
  }

  /** All that b sends from now on is stale: b has the whole stream of a, so its data carries the number just
      below that of the FIN's ack. */
  lemma PeerSendsStale(s: System, act: Action)
    requires Deaf(s) && Enabled(s.b, s.fromA, act)
    ensures AllStale(Act(s.b, s.fromA, act).out, s.a.sock.snd.largestAck)
  {
    if act.Retransmit? {
      RetransmitsOldPacket(s.b, s.fromB);
    } else if act.Deliver? {
      RepliesBare(s.b.sock, act.p, act.checksumOk);
    } else {
      PeerStandsBelow(s);
      ActsCarryAck(s.b, s.fromA, act);
    }
  }

  lemma PeerStandsBelow(s: System)
    requires Orderly(s) && HalfClosed(s.a.sock) && FinAckRecorded(s.a.sock)
    ensures Add32(s.b.sock.rcv.foreignIsn, s.b.sock.rcv.expected) < s.a.sock.snd.largestAck
  {
    assert s.b.sock.rcv.expected == End(StreamFrom(s.a)) == s.a.sock.snd.bytesSent;
    OneBelow(s.a.sock.snd.isn, s.a.sock.snd.bytesSent);
  }

  lemma RepliesBare(k: Socket, p: Packet, ok: bool)
    requires Free(k.rcv) >= 0
    ensures forall q :: q in HandlePacket(k, p, ok).out ==> q.data == []
  {
  }

  lemma ActsCarryAck(e: Endpoint, inbox: set<Packet>, act: Action)
    requires Enabled(e, inbox, act) && !act.Deliver? && !act.Retransmit?
    ensures forall q :: q in Act(e, inbox, act).out ==> q.ackNum == Add32(e.sock.rcv.foreignIsn, e.sock.rcv.expected)
  {
  }

  /** A packet without data changes nothing that was received. */
  lemma BareIsDeaf(k: Socket, p: Packet, ok: bool)
    requires Free(k.rcv) >= 0 && p.data == []
    ensures HandlePacket(k, p, ok).sock.rcv.readRing == k.rcv.readRing
    ensures HandlePacket(k, p, ok).sock.rcv.expected == k.rcv.expected
  {
  }

  lemma StaleIsDropped(k: Socket, p: Packet, ok: bool)
    requires Free(k.rcv) >= 0 && p.data != [] && Stale(p, k.snd.largestAck) && (p.flags.fin ==> p.data == [])
    ensures HandlePacket(k, p, ok) == Handled(k, {}) && !DataIsTaken(k, p, ok)
  {
  }

  ghost predicate SameReceived(e: Endpoint, e': Endpoint)
  {
    Got(e') == Got(e) && e'.sock.rcv.expected == e.sock.rcv.expected
  }

  lemma DeafDeliver(s: System, p: Packet, ok: bool)
    requires Deaf(s) && Enabled(s.a, s.fromB, Deliver(p, ok))
    ensures SameReceived(s.a, StepA(s, Deliver(p, ok)).a) && !DataIsTaken(s.a.sock, p, ok)
  {
    assert PacketOk(p, StreamFrom(s.b), s.b.sock.snd.isn);
    if p.data == [] { BareIsDeaf(s.a.sock, p, ok); } else { StaleIsDropped(s.a.sock, p, ok); }
  }

  lemma ReadSame(e: Endpoint, inbox: set<Packet>, act: Action)
    requires Enabled(e, inbox, act) && !act.Deliver?
    ensures SameReceived(e, Act(e, inbox, act).e)
  {
    if act.Read? {
      var ring := e.sock.rcv.readRing;
      assert e.delivered + ring[..act.n] + ring[act.n..] == e.delivered + ring;
    }
  }

  lemma DeafStepA(s: System, act: Action)
    requires Deaf(s) && Enabled(s.a, s.fromB, act) && Short(StepA(s, act))
    ensures Deaf(StepA(s, act)) && SameReceived(s.a, StepA(s, act).a)
    ensures act.Deliver? ==> !DataIsTaken(s.a.sock, act.p, act.checksumOk)
  {
    OrderlyStepA(s, act);
    FinAckStepA(s, act);
    if act.Deliver? { DeafDeliver(s, act.p, act.checksumOk); } else { ReadSame(s.a, s.fromB, act); }
    forall p | p in s.fromB ensures Stale(p, StepA(s, act).a.sock.snd.largestAck) {
      assert Stale(p, s.a.sock.snd.largestAck);
    }
  }

  lemma DeafStepB(s: System, act: Action)
    requires Deaf(s) && Enabled(s.b, s.fromA, act) && Short(Next(s, Step(false, act)))
    ensures Deaf(Next(s, Step(false, act)))
  {
    OrderlyStep(s, Step(false, act));
    PeerSendsStale(s, act);
  }

  /** The system as the given side sees it. */
  function SeenFrom(s: System, atA: bool): System
  {
    if atA then s else Flip(s)
  }

  /** Some step of the run hands data of the peer to the given side. */
  ghost predicate Hears(s: System, steps: seq<Step>, atA: bool)
    requires IsRun(s, steps)
    decreases |steps|
  {
    && steps != []
    && ((steps[0].byA == atA && steps[0].act.Deliver?
         && DataIsTaken(At(s, atA).sock, steps[0].act.p, steps[0].act.checksumOk))
        || Hears(Next(s, steps[0]), steps[1..], atA))
  }

  lemma {:induction false} DeafForever(s: System, steps: seq<Step>, atA: bool)
    requires Deaf(SeenFrom(s, atA)) && IsRun(s, steps) && Short(Final(s, steps))
    ensures SameReceived(At(s, atA), At(Final(s, steps), atA)) && !Hears(s, steps, atA)
    decreases |steps|
  {
    if steps != [] {
      ShortAllAlong(Next(s, steps[0]), steps[1..]);
      DeafStep(s, steps[0], atA);
      DeafForever(Next(s, steps[0]), steps[1..], atA);
    }
  }

  lemma DeafStep(s: System, st: Step, atA: bool)
    requires Deaf(SeenFrom(s, atA)) && CanStep(s, st) && Short(Next(s, st))
    ensures Deaf(SeenFrom(Next(s, st), atA)) && SameReceived(At(s, atA), At(Next(s, st), atA))
    ensures st.byA == atA && st.act.Deliver? ==> !DataIsTaken(At(s, atA).sock, st.act.p, st.act.checksumOk)
  {
    if st.byA == atA { DeafStepA(SeenFrom(s, atA), st.act); } else { DeafStepB(SeenFrom(s, atA), st.act); }
  }

  // ----- over whole runs -----------------------------------------------------------------------------

  lemma ReachesRecorded(s: System, steps: seq<Step>, atA: bool)
    requires Start(s) && IsRun(s, steps) && Short(Final(s, steps))
    ensures Orderly(SeenFrom(Final(s, steps), atA)) && FinAckRecorded(At(Final(s, steps), atA).sock)
  {
    StartOrderly(s);
    FinAckRun(s, steps);
  }

  /** All data on its way to the given side is stale. */
  ghost predicate AllStaleAt(f: System, atA: bool)
  {
    AllStale(SeenFrom(f, atA).fromB, At(f, atA).sock.snd.largestAck)
  }

  /** No continuation hands the given side another segment. */
  ghost predicate NeverHears(f: System, atA: bool)
  {
    forall after :: IsRun(f, after) && Short(Final(f, after)) ==> !Hears(f, after, atA)
  }

  /** Half-close, for any run that puts a side into FIN_WAIT_2: no continuation hands it another segment if
      and only if all data now in the network is stale. */
  lemma HalfCloseIsDeafIff(s: System, before: seq<Step>, atA: bool)
    requires Start(s) && IsRun(s, before) && Short(Final(s, before)) && HalfClosed(At(Final(s, before), atA).sock)
    ensures NeverHears(Final(s, before), atA) <==> AllStaleAt(Final(s, before), atA)
  {
    ReachesRecorded(s, before, atA);
    DeafIff(Final(s, before), atA);
  }

  lemma DeafIff(f: System, atA: bool)
    requires Orderly(SeenFrom(f, atA)) && HalfClosed(At(f, atA).sock) && FinAckRecorded(At(f, atA).sock) && Short(f)
    ensures NeverHears(f, atA) <==> AllStaleAt(f, atA)
  {
    if AllStaleAt(f, atA) {
      forall after | IsRun(f, after) && Short(Final(f, after)) ensures !Hears(f, after, atA) { DeafForever(f, after, atA); }
    } else {
      var p :| p in SeenFrom(f, atA).fromB && !Stale(p, At(f, atA).sock.snd.largestAck);
      FreshIsHeard(f, p, atA);
    }
  }

  lemma FreshIsTaken(v: System, p: Packet)
    requires Orderly(v) && HalfClosed(v.a.sock) && p in v.fromB && !Stale(p, v.a.sock.snd.largestAck)
    ensures DataIsTaken(v.a.sock, p, true) && |v.a.sock.rcv.readRing| <= BUFFER_SIZE
  {
    AckMovesList(v.a.sock, p, StreamFrom(v.a), v.fromA);
  }

  lemma FreshIsHeard(f: System, p: Packet, atA: bool)
    requires Orderly(SeenFrom(f, atA)) && HalfClosed(At(f, atA).sock) && Short(f)
    requires p in SeenFrom(f, atA).fromB && !Stale(p, At(f, atA).sock.snd.largestAck)
    ensures !NeverHears(f, atA)
  {
    var st := Step(atA, Deliver(p, true));
    FreshIsTaken(SeenFrom(f, atA), p);
    assert CanStep(f, st);
    assert [st][1..] == [];
    assert IsRun(Next(f, st), []) && Final(Next(f, st), []) == Next(f, st);
    assert IsRun(f, [st]) && Hears(f, [st], atA);
  }

  /** And then what the side has received stays as it is, whatever happens. */
  lemma HalfCloseIsDeaf(s: System, before: seq<Step>, after: seq<Step>, atA: bool)
    requires Start(s) && IsRun(s, before) && IsRun(Final(s, before), after) && Short(Final(Final(s, before), after))
    requires HalfClosed(At(Final(s, before), atA).sock) && AllStaleAt(Final(s, before), atA)
    ensures SameReceived(At(Final(s, before), atA), At(Final(Final(s, before), after), atA))
  {
    ShortAllAlong(Final(s, before), after);
    ReachesRecorded(s, before, atA);
    DeafForever(Final(s, before), after, atA);
  }

  /** The sender's raw sequence numbers do not pass 2^32. */
  predicate NoRawWrap(x: Sender)
  {
    x.isn + x.bytesSent + 1 < MOD32
  }

  lemma RawPlace(isn: Word32, raw: Word32, rel: int, top: int)
    requires rel == Sub32(raw, isn) && rel <= top && isn + top < MOD32
    ensures raw == isn + rel
  {
    assert rel == if isn <= raw then raw - isn else raw - isn + MOD32;
  }

  /** Without a wrap all data is stale, always. */
  lemma UnwrappedIsStale(s: System, before: seq<Step>, atA: bool)
    requires Start(s) && IsRun(s, before) && Short(Final(s, before)) && HalfClosed(At(Final(s, before), atA).sock)
    requires NoRawWrap(At(Final(s, before), atA).sock.snd)
    ensures AllStaleAt(Final(s, before), atA)
  {
    var v := SeenFrom(Final(s, before), atA);
    ReachesRecorded(s, before, atA);
    forall p | p in v.fromB ensures Stale(p, v.a.sock.snd.largestAck) { UnwrappedPacket(v, p); }
  }

  lemma UnwrappedPacket(f: System, p: Packet)
    requires Orderly(f) && FinAckRecorded(f.a.sock) && HalfClosed(f.a.sock) && NoRawWrap(f.a.sock.snd) && p in f.fromB
    ensures Stale(p, f.a.sock.snd.largestAck)
  {
    assert AckOk(p, f.a.sock.snd.isn, f.b.sock.rcv.expected, f.b.finTaken);
    BelowFin(f.a.sock.snd, p, f.b.sock.rcv.expected, f.b.finTaken);
  }

  lemma BelowFin(x: Sender, p: Packet, expected: int, fin: bool)
    requires AckOk(p, x.isn, expected, fin) && expected == x.bytesSent && NoRawWrap(x) && FinAckNum(x) <= x.largestAck
    ensures Stale(p, x.largestAck)
  {
    if p.flags == FLAG_ACK && p.data != [] { RawPlace(x.isn, p.ackNum, Sub32(p.ackNum, x.isn), x.bytesSent + 1); }
  }
}
