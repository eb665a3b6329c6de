/** The sending half of a socket: what the write ring, the burst being segmented, the in-flight
    list and the packets on the wire have to do with the bytes the application handed over. */
module TcpSending {
  import opened TcpTypes
  import opened TcpSteps
  import opened TcpReassembly

  // ----- reading the sender's state ------------------------------------------------

  /** Bytes taken out of the write ring but not yet sent. */
  function Rest(w: Writer): seq<Byte>
  {
    match w
    case Burst(rest) => rest
    case Sent(_, rest) => rest
    case Pushed(_, rest) => rest
    case _ => []
  }

  /** Data bytes sent so far; numBytesSent also counts the FIN. */
  function DataSent(x: Sender): int
  {
    if x.writer.Done? then x.bytesSent - 1 else x.bytesSent
  }

  predicate HasUnpushed(w: Writer)
  {
    w.Sent? || w.ProbeSent?
  }

  /** One past the sequence space of the in-flight list: a segment that was sent but not yet
      pushed is not in it. */
  function Upto(x: Sender): int
  {
    if HasUnpushed(x.writer) then x.writer.item.priority else x.bytesSent + 1
  }

  function PriorityAt(items: seq<Item>, i: int, upto: int): int
    requires 0 <= i
  {
    if i < |items| then items[i].priority else upto
  }

  /** First sequence number not yet removed from the in-flight list. */
  function Head(x: Sender): int
  {
    PriorityAt(x.inFlight, 0, Upto(x))
  }

  function StreamOf(x: Sender, accepted: seq<Byte>, log: map<int, seq<Byte>>): Stream
    requires 0 <= DataSent(x) <= |accepted|
  {
    Stream(accepted[..DataSent(x)], log, x.writer.Done?)
  }

  // ----- invariants ------------------------------------------------------------------

  ghost predicate ItemOk(it: Item, t: Stream, isn: Word32, net: set<Packet>)
  {
    && 1 <= it.priority
    && FromStream(t, it.priority, it.packet)
    && it.packet.seqNum == Add32(isn, it.priority)
    && it.packet in net
  }

  /** The list is contiguous in sequence space and ends at `upto`. */
  ghost predicate Contiguous(items: seq<Item>, upto: int)
  {
    forall i {:trigger ItemSize(items[i])} ::
      0 <= i < |items| ==> items[i].priority + ItemSize(items[i]) == PriorityAt(items, i + 1, upto)
  }

  ghost predicate ItemsOk(items: seq<Item>, t: Stream, isn: Word32, net: set<Packet>)
  {
    forall i :: 0 <= i < |items| ==> ItemOk(items[i], t, isn, net)
  }

  ghost predicate PacketOk(p: Packet, t: Stream, isn: Word32)
  {
    && (p.flags == FLAG_ACK ==> p.data == [] || FromStream(t, Sub32(p.seqNum, isn), p))
    && (p.flags.fin ==> p.flags == FLAG_FIN && FromStream(t, Sub32(p.seqNum, isn), p))
  }

  ghost predicate NetOk(net: set<Packet>, t: Stream, isn: Word32)
  {
    forall p :: p in net ==> PacketOk(p, t, isn)
  }

  /** Conservation: what the application handed over is what was sent, then the burst being
      segmented, then the write ring. */
  ghost predicate Conserved(x: Sender, accepted: seq<Byte>)
  {
    && |accepted| + 2 < MOD32
    && 0 <= DataSent(x) <= |accepted|
    && accepted[DataSent(x)..] == Rest(x.writer) + x.writeRing
    && |x.writeRing| <= BUFFER_SIZE
  }

  ghost predicate UnpushedOk(x: Sender, t: Stream, net: set<Packet>)
  {
    HasUnpushed(x.writer) ==>
      && ItemOk(x.writer.item, t, x.isn, net)
      && x.writer.item.packet.data != []
      && x.writer.item.priority + ItemSize(x.writer.item) == x.bytesSent + 1
  }

  ghost predicate SenderOk(x: Sender, accepted: seq<Byte>, log: map<int, seq<Byte>>, net: set<Packet>)
  {
    && Conserved(x, accepted)
    && StreamOk(StreamOf(x, accepted, log))
    && ItemsOk(x.inFlight, StreamOf(x, accepted, log), x.isn, net)
    && Contiguous(x.inFlight, Upto(x))
    && UnpushedOk(x, StreamOf(x, accepted, log), net)
    && NetOk(net, StreamOf(x, accepted, log), x.isn)
  }

  // ----- growth of the stream ----------------------------------------------------------

  lemma GrowthKeepsNet(net: set<Packet>, t: Stream, t': Stream, isn: Word32, p: Packet)
    requires NetOk(net, t, isn) && Grows(t, t') && PacketOk(p, t', isn)
    ensures NetOk(net + {p}, t', isn)
  {
    forall q | q in net + {p} ensures PacketOk(q, t', isn) {
      if q in net { assert PacketOk(q, t, isn); }
    }
  }

  lemma GrowthKeepsItems(items: seq<Item>, t: Stream, t': Stream, isn: Word32, net: set<Packet>, net': set<Packet>)
    requires ItemsOk(items, t, isn, net) && Grows(t, t') && net <= net'
    ensures ItemsOk(items, t', isn, net')
  {
    forall i | 0 <= i < |items| ensures ItemOk(items[i], t', isn, net') {
      assert ItemOk(items[i], t, isn, net);
    }
  }

  // ----- VWrite and the burst ------------------------------------------------------------

  lemma WriteOk(x: Sender, accepted: seq<Byte>, log: map<int, seq<Byte>>, net: set<Packet>, chunk: seq<Byte>)
    requires SenderOk(x, accepted, log, net)
    requires |x.writeRing| + |chunk| <= BUFFER_SIZE && |accepted| + |chunk| + 2 < MOD32
    ensures SenderOk(x.(writeRing := x.writeRing + chunk), accepted + chunk, log, net)
    ensures StreamOf(x.(writeRing := x.writeRing + chunk), accepted + chunk, log) == StreamOf(x, accepted, log)
  {
    var d := DataSent(x);
    assert (accepted + chunk)[..d] == accepted[..d];
    assert (accepted + chunk)[d..] == accepted[d..] + chunk;
  }

  lemma BeginBurstOk(x: Sender, accepted: seq<Byte>, log: map<int, seq<Byte>>, net: set<Packet>)
    requires SenderOk(x, accepted, log, net) && CanBurst(x)
    ensures SenderOk(BeginBurst(x), accepted, log, net)
    ensures StreamOf(BeginBurst(x), accepted, log) == StreamOf(x, accepted, log)
    ensures BeginBurst(x).writer.rest != []
  {
  }

  /** A fresh segment on the wire: the stream grows by the next bytes, cut as one segment. */
  lemma SegmentGrows(t: Stream, data: seq<Byte>)
    requires StreamOk(t) && !t.fin && 0 < |data| <= MAX_SEGMENT_SIZE && |t.bytes| + |data| + 2 < MOD32
    ensures StreamOk(Stream(t.bytes + data, t.log[End(t) := data], false))
    ensures Grows(t, Stream(t.bytes + data, t.log[End(t) := data], false))
  {
    LogGrows(t, Stream(t.bytes + data, t.log[End(t) := data], false), data);
  }

  lemma LogGrows(t: Stream, t': Stream, data: seq<Byte>)
    requires StreamOk(t) && 0 < |data| <= MAX_SEGMENT_SIZE && |t.bytes| + |data| + 2 < MOD32
    requires t'.bytes == t.bytes + data && t'.log == t.log[End(t) := data]
    ensures StreamOk(t')
  {
    forall s | s in t'.log
      ensures 1 <= s && 0 < |t'.log[s]| <= MAX_SEGMENT_SIZE && s + |t'.log[s]| <= End(t')
              && t'.bytes[s - 1..s - 1 + |t'.log[s]|] == t'.log[s]
    {
      LogEntryStays(t, t', data, s);
    }
    LogStaysDisjoint(t, t', data);
  }

  lemma LogEntryStays(t: Stream, t': Stream, data: seq<Byte>, s: int)
    requires StreamOk(t) && 0 < |data| <= MAX_SEGMENT_SIZE && s in t'.log
    requires t'.bytes == t.bytes + data && t'.log == t.log[End(t) := data]
    ensures 1 <= s && 0 < |t'.log[s]| <= MAX_SEGMENT_SIZE && s + |t'.log[s]| <= End(t')
    ensures t'.bytes[s - 1..s - 1 + |t'.log[s]|] == t'.log[s]
  {
    if s != End(t) { SliceStays(t.bytes, data, s - 1, s - 1 + |t.log[s]|); }
  }

  lemma LogStaysDisjoint(t: Stream, t': Stream, data: seq<Byte>)
    requires StreamOk(t) && t'.log == t.log[End(t) := data]
    ensures forall s, u :: s in t'.log && u in t'.log && s < u ==> s + |t'.log[s]| <= u
  {
    forall s, u | s in t'.log && u in t'.log && s < u ensures s + |t'.log[s]| <= u {
      assert s in t.log;
    }
  }

  lemma SliceStays(bytes: seq<Byte>, data: seq<Byte>, i: int, j: int)
    requires 0 <= i <= j <= |bytes|
    ensures (bytes + data)[i..j] == bytes[i..j]
  {
  }

  lemma SegmentItemFacts(x: Sender, r: Receiver, data: seq<Byte>)
    requires 0 <= Free(r) && x.bytesSent + 1 < MOD32
    ensures SegmentItem(x, r, data).priority == x.bytesSent + 1
    ensures SegmentItem(x, r, data).packet == AckPacket(x, r, data)
    ensures Sub32(AckPacket(x, r, data).seqNum, x.isn) == x.bytesSent + 1
  {
    RelOfRaw(x.isn, x.bytesSent + 1);
  }

  /** Sending a segment, whether of a burst or a probe: y is the sender afterwards. */
  lemma EmitOk(x: Sender, r: Receiver, accepted: seq<Byte>, log: map<int, seq<Byte>>, net: set<Packet>,
               data: seq<Byte>, y: Sender)
    requires SenderOk(x, accepted, log, net) && 0 <= Free(r)
    requires !x.writer.Done? && !HasUnpushed(x.writer)
    requires 0 < |data| <= MAX_SEGMENT_SIZE && data <= accepted[DataSent(x)..]
    requires Conserved(y, accepted) && HasUnpushed(y.writer) && y.writer.item == SegmentItem(x, r, data)
    requires y.isn == x.isn && y.inFlight == x.inFlight && y.bytesSent == x.bytesSent + |data|
    ensures SentBehind(x, y, AckPacket(x, r, data), accepted, log, log[x.bytesSent + 1 := data], net)
  {
    var t := StreamOf(x, accepted, log);
    var t' := StreamOf(y, accepted, log[x.bytesSent + 1 := data]);
    var p := AckPacket(x, r, data);
    var net' := net + {p};
    SegmentItemFacts(x, r, data);
    assert t' == Stream(t.bytes + data, t.log[End(t) := data], false);
    SegmentGrows(t, data);
    assert PacketOk(p, t', x.isn);
    GrowthKeepsNet(net, t, t', x.isn, p);
    GrowthKeepsItems(x.inFlight, t, t', x.isn, net, net');
    assert ItemOk(y.writer.item, t', x.isn, net');
  }

  lemma CutSegment(accepted: seq<Byte>, i: int, rest: seq<Byte>, ring: seq<Byte>, n: int)
    requires 0 <= i <= |accepted| && accepted[i..] == rest + ring && 0 <= n <= |rest|
    ensures rest[..n] <= accepted[i..] && accepted[i + n..] == rest[n..] + ring
  {
    assert accepted[i + n..] == accepted[i..][n..];
  }

  /** The stream after y has sent its unlisted segment behind what x had sent. */
  ghost predicate SentBehind(x: Sender, y: Sender, p: Packet, accepted: seq<Byte>, log: map<int, seq<Byte>>,
                             log': map<int, seq<Byte>>, net: set<Packet>)
    requires 0 <= DataSent(x) <= |accepted|
  {
    && SenderOk(y, accepted, log', net + {p})
    && Grows(StreamOf(x, accepted, log), StreamOf(y, accepted, log')) && Upto(y) == Upto(x)
  }

  lemma SendSegmentOk(x: Sender, r: Receiver, accepted: seq<Byte>, log: map<int, seq<Byte>>, net: set<Packet>)
    requires SenderOk(x, accepted, log, net) && 0 <= Free(r) && x.writer.Burst? && x.writer.rest != []
    ensures var p := SendSegment(x, r).writer.item.packet;
            SentBehind(x, SendSegment(x, r), p, accepted, log, log[x.bytesSent + 1 := p.data], net)
  {
    var n := Min(MAX_SEGMENT_SIZE, |x.writer.rest|);
    CutSegment(accepted, DataSent(x), x.writer.rest, x.writeRing, n);
    EmitOk(x, r, accepted, log, net, x.writer.rest[..n], SendSegment(x, r));
  }

  lemma SendProbeOk(x: Sender, r: Receiver, accepted: seq<Byte>, log: map<int, seq<Byte>>, net: set<Packet>)
    requires SenderOk(x, accepted, log, net) && 0 <= Free(r) && CanProbe(x)
    ensures var p := SendProbe(x, r).writer.item.packet;
            SentBehind(x, SendProbe(x, r), p, accepted, log, log[x.bytesSent + 1 := p.data], net)
  {
    var y := SendProbe(x, r);
    assert x.writeRing == x.writeRing[..1] + x.writeRing[1..];
    assert accepted[DataSent(y)..] == accepted[DataSent(x)..][1..];
    EmitOk(x, r, accepted, log, net, x.writeRing[..1], y);
  }

  lemma AppendContiguous(items: seq<Item>, it: Item, upto: int)
    requires Contiguous(items, it.priority) && it.priority + ItemSize(it) == upto
    ensures Contiguous(items + [it], upto)
  {
    var all := items + [it];
    forall i | 0 <= i < |all| ensures all[i].priority + ItemSize(all[i]) == PriorityAt(all, i + 1, upto) {
      if i < |items| {
        assert items[i].priority + ItemSize(items[i]) == PriorityAt(items, i + 1, it.priority);
      }
    }
  }

  /** Pushing the sent segment on the in-flight list; y differs from x in the list and in bookkeeping. */
  lemma PushOk(x: Sender, accepted: seq<Byte>, log: map<int, seq<Byte>>, net: set<Packet>, y: Sender)
    requires SenderOk(x, accepted, log, net) && HasUnpushed(x.writer)
    requires !HasUnpushed(y.writer) && !y.writer.Done? && Rest(y.writer) == Rest(x.writer)
    requires y == x.(inFlight := x.inFlight + [x.writer.item], inFlightSize := y.inFlightSize, writer := y.writer)
    ensures SenderOk(y, accepted, log, net)
    ensures StreamOf(y, accepted, log) == StreamOf(x, accepted, log) && Head(y) == Head(x)
  {
    AppendContiguous(x.inFlight, x.writer.item, x.bytesSent + 1);
  }

  lemma FinStream(x: Sender, accepted: seq<Byte>, log: map<int, seq<Byte>>, y: Sender)
    requires Conserved(x, accepted) && x.writer.Ready? && x.writeRing == []
    requires y.bytesSent == x.bytesSent + 1 && y.writer.Done? && y.writeRing == []
    ensures Conserved(y, accepted) && DataSent(y) == DataSent(x) == |accepted|
    ensures StreamOf(y, accepted, log) == StreamOf(x, accepted, log).(fin := true)
    ensures StreamOf(y, accepted, log).bytes == accepted
  {
  }

  lemma FinItemOk(x: Sender, accepted: seq<Byte>, log: map<int, seq<Byte>>, net: set<Packet>, p: Packet, y: Sender)
    requires SenderOk(x, accepted, log, net) && x.writer.Ready? && x.writeRing == []
    requires p.flags == FLAG_FIN && p.data == [] && p.seqNum == Add32(x.isn, x.bytesSent + 1)
    requires y == x.(bytesSent := x.bytesSent + 1, writer := Done, inFlight := x.inFlight + [Item(x.bytesSent + 1, p)])
    ensures SenderOk(y, accepted, log, net + {p})
  {
    var t, t' := StreamOf(x, accepted, log), StreamOf(y, accepted, log);
    FinStream(x, accepted, log, y);
    RelOfRaw(x.isn, x.bytesSent + 1);
    GrowthKeepsNet(net, t, t', x.isn, p);
    GrowthKeepsItems(x.inFlight, t, t', x.isn, net, net + {p});
    assert ItemOk(Item(x.bytesSent + 1, p), t', x.isn, net + {p});
    AppendContiguous(x.inFlight, Item(x.bytesSent + 1, p), x.bytesSent + 2);
  }

  /** The FIN ends the stream: it comes after every byte handed over before the writer ran dry. */
  lemma SendFinOk(s: Socket, accepted: seq<Byte>, log: map<int, seq<Byte>>, net: set<Packet>)
    requires SenderOk(s.snd, accepted, log, net) && 0 <= Free(s.rcv) && CanSendFin(s)
    ensures SenderOk(SendFin(s).snd, accepted, log, net + {FinPacket(s)})
    ensures Grows(StreamOf(s.snd, accepted, log), StreamOf(SendFin(s).snd, accepted, log))
    ensures Head(SendFin(s).snd) == Head(s.snd)
    ensures StreamOf(SendFin(s).snd, accepted, log).bytes == accepted
  {
    RelOfRaw(s.snd.isn, s.snd.bytesSent + 1);
    FinStream(s.snd, accepted, log, SendFin(s).snd);
    FinItemOk(s.snd, accepted, log, net, FinPacket(s), SendFin(s).snd);
  }

  // ----- acks ------------------------------------------------------------------------------

  /** Length of the longest prefix of the list wholly covered by an ack. */
  function CoveredCount(items: seq<Item>, rel: int): (k: int)
    ensures 0 <= k <= |items|
    ensures forall i :: 0 <= i < k ==> Covered(items[i], rel)
    ensures k < |items| ==> !Covered(items[k], rel)
  {
    if items == [] || !Covered(items[0], rel) then 0 else 1 + CoveredCount(items[1..], rel)
  }

  function SizeOf(items: seq<Item>): (n: int)
    ensures n >= |items|
  {
    if items == [] then 0 else ItemSize(items[0]) + SizeOf(items[1..])
  }

  /** The ack loop removes exactly the longest covered prefix, unless it closes the socket. */
  lemma {:induction false} AckLoopRemovesCoveredPrefix(st: ConnState, items: seq<Item>, size: Word32, rel: int)
    ensures !AckLoop(st, items, size, rel).closed ==>
              AckLoop(st, items, size, rel).inFlight == items[CoveredCount(items, rel)..]
    decreases |items|
  {
    if items != [] && Covered(items[0], rel) && !(items[0].packet.flags.fin && st == LastAck) {
      var st' := if items[0].packet.flags.fin && st == FinWait1 then FinWait2 else st;
      AckLoopRemovesCoveredPrefix(st', items[1..], Sub32(size, ItemSize(items[0])), rel);
    }
  }

  lemma SubTwice(size: int, a: int, b: int)
    ensures Sub32(Sub32(size, a), b) == Sub32(size, a + b)
  {
  }

  /** What leaves the list leaves inFlightPacketSize. */
  lemma {:induction false} AckLoopSize(st: ConnState, items: seq<Item>, size: Word32, rel: int)
    ensures AckLoop(st, items, size, rel).size == Sub32(size, SizeOf(items) - SizeOf(AckLoop(st, items, size, rel).inFlight))
    decreases |items|
  {
    if items != [] && Covered(items[0], rel) && !(items[0].packet.flags.fin && st == LastAck) {
      var st' := if items[0].packet.flags.fin && st == FinWait1 then FinWait2 else st;
      var size' := Sub32(size, ItemSize(items[0]));
      AckLoopSize(st', items[1..], size', rel);
      SubTwice(size, ItemSize(items[0]), SizeOf(items[1..]) - SizeOf(AckLoop(st, items, size, rel).inFlight));
    }
  }

  /** The last item of the list is a FIN. */
  predicate FinLast(items: seq<Item>)
  {
    items != [] && items[|items| - 1].packet.flags.fin
  }

  lemma TailOk(items: seq<Item>, upto: int, t: Stream, isn: Word32, net: set<Packet>)
    requires items != [] && ItemsOk(items, t, isn, net) && Contiguous(items, upto) && StreamOk(t)
    ensures ItemsOk(items[1..], t, isn, net) && Contiguous(items[1..], upto)
    ensures PriorityAt(items[1..], 0, upto) == items[0].priority + ItemSize(items[0])
    ensures items[0].packet.flags.fin ==> items[1..] == [] && t.fin && items[0].priority == End(t) && ItemSize(items[0]) == 1
  {
    var r := items[1..];
    assert ItemOk(items[0], t, isn, net);
    forall i | 0 <= i < |r| ensures r[i].priority + ItemSize(r[i]) == PriorityAt(r, i + 1, upto) {
      assert items[i + 1].priority + ItemSize(items[i + 1]) == PriorityAt(items, i + 2, upto);
    }
    assert r != [] ==> ItemOk(r[0], t, isn, net);
  }

  /** An ack for `rel` cuts the list at the front, and never beyond `rel`. */
  lemma {:induction false} AckLoopCuts(st: ConnState, items: seq<Item>, size: Word32, rel: int,
                                       upto: int, t: Stream, isn: Word32, net: set<Packet>)
    requires ItemsOk(items, t, isn, net) && Contiguous(items, upto) && StreamOk(t)
    ensures ItemsOk(AckLoop(st, items, size, rel).inFlight, t, isn, net)
    ensures Contiguous(AckLoop(st, items, size, rel).inFlight, upto)
    ensures PriorityAt(items, 0, upto) <= PriorityAt(AckLoop(st, items, size, rel).inFlight, 0, upto)
    ensures PriorityAt(AckLoop(st, items, size, rel).inFlight, 0, upto) == PriorityAt(items, 0, upto)
            || PriorityAt(AckLoop(st, items, size, rel).inFlight, 0, upto) <= rel
    decreases |items|
  {
    if items != [] && Covered(items[0], rel) && !(items[0].packet.flags.fin && st == LastAck) {
      TailOk(items, upto, t, isn, net);
      var st' := if items[0].packet.flags.fin && st == FinWait1 then FinWait2 else st;
      AckLoopCuts(st', items[1..], Sub32(size, ItemSize(items[0])), rel, upto, t, isn, net);
    }
  }

  /** The state moves only when the FIN itself is covered, and then no data is left in flight. */
  ghost predicate AckMoves(st: ConnState, items: seq<Item>, rel: int, t: Stream, res: AckResult)
  {
    || (res.connState == st && !res.closed
        && (st == FinWait1 || st == LastAck ==> FinLast(items) ==> FinLast(res.inFlight)))
    || (st == FinWait1 && res.connState == FinWait2 && !res.closed && res.inFlight == [] && t.fin && End(t) < rel)
    || (st == LastAck && res.connState == Closed && res.closed && |res.inFlight| == 1 && FinLast(res.inFlight)
        && t.fin && End(t) < rel)
  }

  lemma {:induction false} AckLoopMoves(st: ConnState, items: seq<Item>, size: Word32, rel: int,
                                        upto: int, t: Stream, isn: Word32, net: set<Packet>)
    requires ItemsOk(items, t, isn, net) && Contiguous(items, upto) && StreamOk(t)
    ensures AckMoves(st, items, rel, t, AckLoop(st, items, size, rel))
    decreases |items|
  {
    if items != [] && Covered(items[0], rel) {
      TailOk(items, upto, t, isn, net);
      if !(items[0].packet.flags.fin && st == LastAck) {
        var st' := if items[0].packet.flags.fin && st == FinWait1 then FinWait2 else st;
        AckLoopMoves(st', items[1..], Sub32(size, ItemSize(items[0])), rel, upto, t, isn, net);
      }
    }
  }

  lemma WakeOk(x: Sender, accepted: seq<Byte>, log: map<int, seq<Byte>>, net: set<Packet>)
    requires SenderOk(x, accepted, log, net)
    ensures SenderOk(Wake(x), accepted, log, net)
    ensures StreamOf(Wake(x), accepted, log) == StreamOf(x, accepted, log) && Head(Wake(x)) == Head(x)
  {
  }

  lemma NewAckOk(x: Sender, st: ConnState, p: Packet, accepted: seq<Byte>, log: map<int, seq<Byte>>, net: set<Packet>, y: Sender)
    requires SenderOk(x, accepted, log, net)
    requires var res := AckLoop(st, x.inFlight, x.inFlightSize, Sub32(p.ackNum, x.isn));
             y == x.(window := p.window, largestAck := p.ackNum, inFlight := res.inFlight, inFlightSize := res.size)
    ensures SenderOk(y, accepted, log, net)
    ensures StreamOf(y, accepted, log) == StreamOf(x, accepted, log)
    ensures Head(y) == Head(x) || Head(y) <= Sub32(p.ackNum, x.isn)
  {
    var rel := Sub32(p.ackNum, x.isn);
    AckLoopCuts(st, x.inFlight, x.inFlightSize, rel, Upto(x), StreamOf(x, accepted, log), x.isn, net);
  }

  /** What an ack leaves alone, and how far it may move the head of the list. */
  ghost predicate AckKeeps(x: Sender, y: Sender, p: Packet, accepted: seq<Byte>, log: map<int, seq<Byte>>, net: set<Packet>)
    requires 0 <= DataSent(x) <= |accepted|
  {
    && SenderOk(y, accepted, log, net)
    && y.isn == x.isn && y.bytesSent == x.bytesSent && y.writer.Done? == x.writer.Done?
    && StreamOf(y, accepted, log) == StreamOf(x, accepted, log)
    && (Head(y) == Head(x) || Head(y) <= Sub32(p.ackNum, x.isn))
  }

  /** An ack changes nothing about what was sent; it may move the head of the list, up to the ack. */
  lemma ReceiveAckOk(x: Sender, st: ConnState, p: Packet, accepted: seq<Byte>, log: map<int, seq<Byte>>, net: set<Packet>)
    requires SenderOk(x, accepted, log, net) && ReceiveAck(x, st, p).AckTaken?
    ensures AckKeeps(x, ReceiveAck(x, st, p).snd, p, accepted, log, net)
  {
    if p.ackNum == x.largestAck {
      WakeOk(if x.window < p.window then x.(window := p.window) else x, accepted, log, net);
    } else {
      var res := AckLoop(st, x.inFlight, x.inFlightSize, Sub32(p.ackNum, x.isn));
      var y := x.(window := p.window, largestAck := p.ackNum, inFlight := res.inFlight, inFlightSize := res.size);
      NewAckOk(x, st, p, accepted, log, net, y);
      WakeOk(y, accepted, log, net);
    }
  }
}
