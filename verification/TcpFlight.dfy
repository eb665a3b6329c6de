/** Accounting of bytes in flight over whole runs: inFlightPacketSize against the list, and the bound
    that the window check and the zero-window probe enforce. */
module TcpFlight {
  import opened TcpTypes
  import opened TcpSteps
  import opened TcpReassembly
  import opened TcpSending
  import opened TcpSystem
  import opened TcpIntegrity

  /** Pushed on the list, but not yet added to inFlightPacketSize. */
  function Uncounted(w: Writer): int
  {
    if w.Pushed? then w.len else 0
  }

  function FinCount(w: Writer): int
  {
    if w.Done? then 1 else 0
  }

  /** inFlightPacketSize, modulo 2^32: the list, less what is not yet counted, less one for a FIN,
      which is never added but is subtracted when it is acked. */
  predicate SizeOk(x: Sender)
  {
    x.inFlightSize == Sub32(SizeOf(x.inFlight), Uncounted(x.writer) + FinCount(x.writer))
  }

  /** Bytes on their way, in the list or about to be. */
  predicate Bounded(x: Sender)
  {
    && x.window <= BUFFER_SIZE
    && |x.writeRing| <= BUFFER_SIZE
    && match x.writer
       case Ready => SizeOf(x.inFlight) < 2 * BUFFER_SIZE
       case Burst(rest) => SizeOf(x.inFlight) + |rest| < 2 * BUFFER_SIZE
       case Sent(item, rest) => SizeOf(x.inFlight) + ItemSize(item) + |rest| < 2 * BUFFER_SIZE && item.packet.data != []
       case Pushed(len, rest) => SizeOf(x.inFlight) + |rest| < 2 * BUFFER_SIZE && 0 <= len
       case ProbeSent(item) => SizeOf(x.inFlight) < 2 * BUFFER_SIZE && |item.packet.data| == 1
       case ProbeWait => SizeOf(x.inFlight) <= 2 * BUFFER_SIZE
       case Done => SizeOf(x.inFlight) <= 2 * BUFFER_SIZE
  }

  /** Every item carries data, except the FIN, which is last. */
  ghost predicate DataButFin(items: seq<Item>, fin: bool)
  {
    forall i :: 0 <= i < |items| ==> (items[i].packet.data == [] <==> fin && i == |items| - 1)
  }

  /** A segment being counted is the last of the list, if the list has not lost it to an ack already. */
  ghost predicate Shaped(x: Sender)
  {
    && DataButFin(x.inFlight, x.writer.Done?)
    && (HasUnpushed(x.writer) ==> 0 < |x.writer.item.packet.data| <= MAX_SEGMENT_SIZE)
    && (x.writer.Pushed? ==>
          && 0 < x.writer.len <= MAX_SEGMENT_SIZE
          && (x.inFlight != [] ==> |x.inFlight[|x.inFlight| - 1].packet.data| == x.writer.len))
  }

  ghost predicate FlightOk(x: Sender)
  {
    SizeOk(x) && Bounded(x) && Shaped(x)
  }

  lemma {:induction false} SizeOfAppend(items: seq<Item>, it: Item)
    ensures SizeOf(items + [it]) == SizeOf(items) + ItemSize(it)
  {
    if items != [] {
      assert (items + [it])[1..] == items[1..] + [it];
      SizeOfAppend(items[1..], it);
    } else {
      assert items + [it] == [it];
    }
  }

  lemma ModAdd(s: int, u: int, n: int)
    ensures Sub32(s + n, u + n) == Sub32(s, u)
    ensures Add32(Sub32(s, u), n) == Sub32(s + n, u)
    ensures Sub32(Sub32(s, u), n) == Sub32(s - n, u)
  {
  }

  lemma SmallSize(x: Sender)
    requires FlightOk(x) && (x.writer.Ready? || x.writer.ProbeWait?)
    ensures x.inFlightSize == SizeOf(x.inFlight)
  {
  }

  // ----- the writer -------------------------------------------------------------------------

  lemma BeginBurstFlight(x: Sender)
    requires FlightOk(x) && CanBurst(x)
    ensures FlightOk(BeginBurst(x))
  {
    SmallSize(x);
  }

  lemma SendSegmentFlight(x: Sender, r: Receiver)
    requires FlightOk(x) && x.writer.Burst? && x.writer.rest != [] && 0 <= Free(r)
    ensures FlightOk(SendSegment(x, r))
  {
  }

  lemma PushSegmentFlight(x: Sender)
    requires FlightOk(x) && x.writer.Sent?
    ensures FlightOk(PushSegment(x))
  {
    SizeOfAppend(x.inFlight, x.writer.item);
    ModAdd(SizeOf(x.inFlight), 0, |x.writer.item.packet.data|);
  }

  lemma AddFlightFlight(x: Sender)
    requires FlightOk(x) && x.writer.Pushed?
    ensures FlightOk(AddFlight(x))
  {
    ModAdd(SizeOf(x.inFlight), x.writer.len, x.writer.len);
    ModAdd(SizeOf(x.inFlight), 0, x.writer.len);
  }

  lemma PushProbeFlight(x: Sender)
    requires FlightOk(x) && x.writer.ProbeSent?
    ensures FlightOk(PushProbe(x))
  {
    SizeOfAppend(x.inFlight, x.writer.item);
    ModAdd(SizeOf(x.inFlight), 0, 1);
  }

  lemma SendFinFlight(s: Socket)
    requires FlightOk(s.snd) && CanSendFin(s) && 0 <= Free(s.rcv)
    ensures FlightOk(SendFin(s).snd)
  {
    var x, p := s.snd, FinPacket(s);
    SizeOfAppend(x.inFlight, Item(Sub32(p.seqNum, x.isn), p));
    ModAdd(SizeOf(x.inFlight), 0, 1);
  }

  // ----- acks -------------------------------------------------------------------------------

  lemma {:induction false} AckLoopShrinks(st: ConnState, items: seq<Item>, size: Word32, rel: int)
    ensures SizeOf(AckLoop(st, items, size, rel).inFlight) <= SizeOf(items)
    decreases |items|
  {
    if items != [] && Covered(items[0], rel) && !(items[0].packet.flags.fin && st == LastAck) {
      var st' := if items[0].packet.flags.fin && st == FinWait1 then FinWait2 else st;
      AckLoopShrinks(st', items[1..], Sub32(size, ItemSize(items[0])), rel);
    }
  }

  lemma {:induction false} AckLoopSuffix(st: ConnState, items: seq<Item>, size: Word32, rel: int) returns (n: nat)
    ensures n <= |items| && AckLoop(st, items, size, rel).inFlight == items[n..]
    decreases |items|
  {
    n := 0;
    if items != [] && Covered(items[0], rel) && !(items[0].packet.flags.fin && st == LastAck) {
      var st' := if items[0].packet.flags.fin && st == FinWait1 then FinWait2 else st;
      var k := AckLoopSuffix(st', items[1..], Sub32(size, ItemSize(items[0])), rel);
      assert items[1..][k..] == items[k + 1..];
      n := k + 1;
    }
  }

  lemma SuffixShaped(x: Sender, n: nat, y: Sender)
    requires Shaped(x) && n <= |x.inFlight| && y.inFlight == x.inFlight[n..] && y.writer == x.writer
    ensures Shaped(y)
  {
  }

  lemma WakeFlight(x: Sender)
    requires FlightOk(x)
    ensures FlightOk(Wake(x))
  {
    if x.writer.ProbeWait? { SmallSize(x); }
  }

  lemma AckFlight(x: Sender, st: ConnState, p: Packet)
    requires FlightOk(x) && ReceiveAck(x, st, p).AckTaken?
    ensures FlightOk(ReceiveAck(x, st, p).snd)
  {
    if p.ackNum == x.largestAck {
      WakeFlight(if x.window < p.window then x.(window := p.window) else x);
    } else {
      var rel := Sub32(p.ackNum, x.isn);
      var res := AckLoop(st, x.inFlight, x.inFlightSize, rel);
      var y := x.(window := p.window, largestAck := p.ackNum, inFlight := res.inFlight, inFlightSize := res.size);
      NewAckFlight(x, st, rel, y);
      WakeFlight(y);
    }
  }

  lemma NewAckFlight(x: Sender, st: ConnState, rel: int, y: Sender)
    requires FlightOk(x) && y.writer == x.writer && y.writeRing == x.writeRing && y.window <= BUFFER_SIZE
    requires y.inFlight == AckLoop(st, x.inFlight, x.inFlightSize, rel).inFlight
    requires y.inFlightSize == AckLoop(st, x.inFlight, x.inFlightSize, rel).size
    ensures FlightOk(y)
  {
    AckLoopSize(st, x.inFlight, x.inFlightSize, rel);
    AckLoopShrinks(st, x.inFlight, x.inFlightSize, rel);
    ModAdd(SizeOf(x.inFlight), Uncounted(x.writer) + FinCount(x.writer), SizeOf(x.inFlight) - SizeOf(y.inFlight));
    var n := AckLoopSuffix(st, x.inFlight, x.inFlightSize, rel);
    SuffixShaped(x, n, y);
  }

  // ----- every step ----------------------------------------------------------------------------

  lemma DeliverFlight(k: Socket, p: Packet, ok: bool)
    requires FlightOk(k.snd) && Free(k.rcv) >= 0
    ensures FlightOk(HandlePacket(k, p, ok).sock.snd)
  {
    if p.flags == FLAG_ACK && ReceiveAck(k.snd, k.connState, p).AckTaken? { AckFlight(k.snd, k.connState, p); }
  }

  lemma FlightActs(e: Endpoint, inbox: set<Packet>, act: Action)
    requires FlightOk(e.sock.snd) && Enabled(e, inbox, act)
    ensures FlightOk(Act(e, inbox, act).e.sock.snd)
  {
    if act.Deliver? { DeliverFlight(e.sock, act.p, act.checksumOk); } else { LocalFlight(e, inbox, act); }
  }

  lemma LocalFlight(e: Endpoint, inbox: set<Packet>, act: Action)
    requires FlightOk(e.sock.snd) && Enabled(e, inbox, act) && !act.Deliver?
    ensures FlightOk(Act(e, inbox, act).e.sock.snd)
  {
    var x, r := e.sock.snd, e.sock.rcv;
    match act {
      case Fin => SendFinFlight(e.sock);
      case Probe =>
      case PushProbeItem => PushProbeFlight(x);
      case StartBurst => BeginBurstFlight(x);
      case SendNext => SendSegmentFlight(x, r);
      case PushItem => PushSegmentFlight(x);
      case CountItem => AddFlightFlight(x);
      case _ =>
    }
  }

  lemma {:induction false} FlightRun(s: System, steps: seq<Step>)
    requires FlightOk(s.a.sock.snd) && FlightOk(s.b.sock.snd) && IsRun(s, steps)
    ensures FlightOk(Final(s, steps).a.sock.snd) && FlightOk(Final(s, steps).b.sock.snd)
    decreases |steps|
  {
    if steps != [] {
      if steps[0].byA {
        FlightActs(s.a, s.fromB, steps[0].act);
      } else {
        FlightActs(s.b, s.fromA, steps[0].act);
      }
      FlightRun(Next(s, steps[0]), steps[1..]);
    }
  }

  /** Flight in data bytes and in sequence space: the FIN makes the difference. */
  lemma {:induction false} BytesAndSize(items: seq<Item>, fin: bool)
    requires DataButFin(items, fin)
    ensures SizeOf(items) == |FlightBytes(items)| + if fin && items != [] then 1 else 0
  {
    if items != [] {
      forall i | 0 <= i < |items[1..]| ensures items[1..][i].packet.data == [] <==> fin && i == |items[1..]| - 1 {
        assert items[1..][i] == items[i + 1];
      }
      BytesAndSize(items[1..], fin);
    }
  }

  /** Flight bound. In every reachable state at most 2 * 65535 data bytes are in flight. */
  lemma FlightBound(s: System, steps: seq<Step>, atA: bool)
    requires Start(s) && IsRun(s, steps)
    ensures |FlightBytes(At(Final(s, steps), atA).sock.snd.inFlight)| <= 2 * BUFFER_SIZE
  {
    FlightRun(s, steps);
    var x := At(Final(s, steps), atA).sock.snd;
    BytesAndSize(x.inFlight, x.writer.Done?);
  }

  /** Accounting, in every reachable state. inFlightPacketSize is the number of data bytes in the list except
      in two cases: while a listed segment is not yet counted, and for good once the FIN has left the list.
      It lies above the true number exactly when, in one of these cases, the list is empty. */
  lemma CounterExactIff(s: System, steps: seq<Step>, atA: bool)
    requires Start(s) && IsRun(s, steps)
    ensures var x := At(Final(s, steps), atA).sock.snd; var n := |FlightBytes(x.inFlight)|;
            && (x.inFlightSize == n <==> !x.writer.Pushed? && !(x.writer.Done? && x.inFlight == []))
            && (x.inFlightSize > n <==> (x.writer.Pushed? || x.writer.Done?) && x.inFlight == [])
            && (x.inFlightSize > n ==> x.inFlightSize == MOD32 - if x.writer.Pushed? then x.writer.len else 1)
  {
    FlightRun(s, steps);
    CounterFacts(At(Final(s, steps), atA).sock.snd);
  }

  lemma CounterFacts(x: Sender)
    requires FlightOk(x)
    ensures x.inFlightSize == |FlightBytes(x.inFlight)| <==> !x.writer.Pushed? && !(x.writer.Done? && x.inFlight == [])
    ensures x.inFlightSize > |FlightBytes(x.inFlight)| <==> (x.writer.Pushed? || x.writer.Done?) && x.inFlight == []
    ensures x.inFlightSize > |FlightBytes(x.inFlight)| ==> x.inFlightSize == MOD32 - if x.writer.Pushed? then x.writer.len else 1
  {
    BytesAndSize(x.inFlight, x.writer.Done?);
    if x.writer.Pushed? && x.inFlight != [] { LastFits(x.inFlight); }
  }

  lemma {:induction false} LastFits(items: seq<Item>)
    requires items != []
    ensures |items[|items| - 1].packet.data| <= |FlightBytes(items)|
  {
    if |items| > 1 { LastFits(items[1..]); }
  }

  /** When the writer looks at the window nothing is uncounted and no FIN is out, so it compares the
      true number of bytes in flight; it never finds a burst of zero bytes. */
  lemma WriterSeesTrueFlight(s: System, steps: seq<Step>, atA: bool)
    requires Start(s) && IsRun(s, steps) && At(Final(s, steps), atA).sock.snd.writer.Ready?
    ensures var x := At(Final(s, steps), atA).sock.snd;
            && x.inFlightSize == |FlightBytes(x.inFlight)|
            && (CanBurst(x) ==> |FlightBytes(x.inFlight)| < x.window && |BeginBurst(x).writer.rest| > 0)
  {
    FlightRun(s, steps);
    CounterFacts(At(Final(s, steps), atA).sock.snd);
  }

  /** After a probe nothing new goes out until the flight has been seen below the window. From any reachable
      state in which a side waits after a probe, and along any continuation, bytesSent stands still up to
      a point i; there the continuation ends with the side still waiting, or the bytes in flight are fewer
      than the window. */
  lemma ProbeBlocks(s: System, before: seq<Step>, after: seq<Step>, atA: bool) returns (i: nat)
    requires Start(s) && IsRun(s, before) && IsRun(Final(s, before), after)
    requires At(Final(s, before), atA).sock.snd.writer.ProbeWait?
    ensures i <= |after| && IsRun(Final(s, before), after[..i])
    ensures var x := At(Final(s, before), atA).sock.snd; var y := At(Final(Final(s, before), after[..i]), atA).sock.snd;
            && y.bytesSent == x.bytesSent
            && ((i == |after| && y.writer.ProbeWait?) || |FlightBytes(y.inFlight)| < y.window)
  {
    FlightRun(s, before);
    i := ProbeRun(Final(s, before), after, atA);
  }

  lemma {:induction false} ProbeRun(s: System, steps: seq<Step>, atA: bool) returns (i: nat)
    requires FlightOk(s.a.sock.snd) && FlightOk(s.b.sock.snd) && IsRun(s, steps)
    requires At(s, atA).sock.snd.writer.ProbeWait?
    ensures i <= |steps| && IsRun(s, steps[..i])
    ensures At(Final(s, steps[..i]), atA).sock.snd.bytesSent == At(s, atA).sock.snd.bytesSent
    ensures var y := At(Final(s, steps[..i]), atA).sock.snd;
            (i == |steps| && y.writer.ProbeWait?) || |FlightBytes(y.inFlight)| < y.window
    decreases |steps|
  {
    i := 0;
    if steps != [] {
      var s' := Next(s, steps[0]);
      ProbeStep(s, steps[0], atA);
      if At(s', atA).sock.snd.writer.ProbeWait? {
        var k := ProbeRun(s', steps[1..], atA);
        i := k + 1;
        assert steps[..i][1..] == steps[1..][..k];
      } else {
        i := 1;
        assert steps[..1][1..] == [];
      }
    }
  }

  lemma ProbeStep(s: System, st: Step, atA: bool)
    requires FlightOk(s.a.sock.snd) && FlightOk(s.b.sock.snd) && CanStep(s, st)
    requires At(s, atA).sock.snd.writer.ProbeWait?
    ensures FlightOk(Next(s, st).a.sock.snd) && FlightOk(Next(s, st).b.sock.snd)
    ensures var x, y := At(s, atA).sock.snd, At(Next(s, st), atA).sock.snd;
            y.bytesSent == x.bytesSent && (y.writer.ProbeWait? || |FlightBytes(y.inFlight)| < y.window)
  {
    if st.byA { FlightActs(s.a, s.fromB, st.act); } else { FlightActs(s.b, s.fromA, st.act); }
    if st.byA == atA {
      ProbeWaits(At(s, atA), if atA then s.fromB else s.fromA, st.act);
      var y := At(Next(s, st), atA).sock.snd;
      if y.writer.Ready? { CounterFacts(y); }
    }
  }

  lemma ProbeWaits(e: Endpoint, inbox: set<Packet>, act: Action)
    requires Enabled(e, inbox, act) && e.sock.snd.writer.ProbeWait?
    ensures Act(e, inbox, act).e.sock.snd.bytesSent == e.sock.snd.bytesSent
    ensures var x := Act(e, inbox, act).e.sock.snd;
            x.writer.ProbeWait? || (x.writer.Ready? && x.inFlightSize < x.window)
  {
    if act.Deliver? { ProbeHears(e.sock, act.p, act.checksumOk); }
  }

  lemma ProbeHears(k: Socket, p: Packet, ok: bool)
    requires Free(k.rcv) >= 0 && k.snd.writer.ProbeWait?
    ensures HandlePacket(k, p, ok).sock.snd.bytesSent == k.snd.bytesSent
    ensures var x := HandlePacket(k, p, ok).sock.snd;
            x.writer.ProbeWait? || (x.writer.Ready? && x.inFlightSize < x.window)
  {
  }
}
