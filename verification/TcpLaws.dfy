/** What one packet does to a socket, field by field and in plain arithmetic: which segments are answered and with
    what, what an ack removes, what it does to the window and to the waiting writer, and what a FIN draws. */
module TcpLaws {
  import opened Heap
  import opened TcpTypes
  import opened TcpSteps
  import opened TcpReassembly
  import opened TcpSending

  // ----- packets that do nothing -----------------------------------------------------------------

  /** A closed socket, a bad checksum, flags that are neither exactly ACK nor contain FIN, and an ack below the
      largest received: nothing changes and nothing is sent. */
  lemma Ignored(k: Socket, p: Packet, ok: bool)
    requires |k.rcv.readRing| <= 65535
    requires || k.closed || !ok
             || (p.flags != Flags(false, false, true) && !p.flags.fin)
             || (p.flags == Flags(false, false, true) && p.ackNum < k.snd.largestAck)
    ensures HandlePacket(k, p, ok) == Handled(k, {})
  {
  }

  // ----- data --------------------------------------------------------------------------------------

  /** An intact data segment whose ack is not old and did not close the socket. */
  predicate DataComesIn(k: Socket, p: Packet)
  {
    && |k.rcv.readRing| <= 65535 && !k.closed && p.flags == Flags(false, false, true) && p.data != []
    && k.snd.largestAck <= p.ackNum && !HandlePacket(k, p, true).sock.closed
  }

  /** Which segments are answered, and with what. The only segment without an answer is the next one when the ring has
      no room for all of it; any other draws one bare ack that names, after the step, the next byte expected and
      the room left, under the number of the next byte to send. */
  lemma DataAnswered(k: Socket, p: Packet)
    requires DataComesIn(k, p)
    ensures Answered(k, p, HandlePacket(k, p, true).sock, HandlePacket(k, p, true).out)
  {
    var h := HandlePacket(k, p, true);
    if h.out != {} {
      assert h.out == {AckPacket(h.sock.snd, h.sock.rcv, [])};
      assert IsAnswer(AckPacket(h.sock.snd, h.sock.rcv, []), h.sock);
    }
  }

  /** From k to k' segment p came in, and `out` was sent. */
  ghost predicate Answered(k: Socket, p: Packet, k': Socket, out: set<Packet>)
  {
    var rel := (p.seqNum - k.rcv.foreignIsn) % 0x1_0000_0000;
    && (out == {} <==> rel == k.rcv.expected && 65535 - |k.rcv.readRing| < |p.data|)
    && (out != {} ==> exists q :: out == {q} && IsAnswer(q, k'))
  }

  /** A bare ack for what k has received. */
  predicate IsAnswer(q: Packet, k: Socket)
  {
    && q.flags == Flags(false, false, true) && q.data == []
    && q.ackNum == (k.rcv.foreignIsn + k.rcv.expected) % 0x1_0000_0000
    && q.window == 65535 - |k.rcv.readRing|
    && q.seqNum == (k.snd.isn + k.snd.bytesSent + 1) % 0x1_0000_0000
  }

  /** Where the data goes: the next segment into the ring if it fits whole, one from further on into the queue unless
      its number was there before, and any other nowhere. */
  lemma DataPlaced(k: Socket, p: Packet)
    requires DataComesIn(k, p)
    ensures var r, r' := k.rcv, HandlePacket(k, p, true).sock.rcv; var rel := (p.seqNum - r.foreignIsn) % 0x1_0000_0000;
            && (rel == r.expected && |r.readRing| + |p.data| <= 65535 ==> r.readRing + p.data <= r'.readRing)
            && (rel == r.expected && |r.readRing| + |p.data| > 65535 ==> r' == r)
            && (rel < r.expected || (rel > r.expected && rel in r.seen) ==> r' == r)
            && (rel > r.expected && rel !in r.seen ==>
                  && r' == r.(early := r'.early, seen := r.seen + {rel}, earlySize := (r.earlySize + |p.data|) % 0x1_0000_0000)
                  && multiset(r'.early) == multiset(r.early) + multiset{Entry(rel, p)})
  {
    var r := k.rcv;
    var rel := RelSeq(r, p);
    if rel == r.expected && |p.data| <= Free(r) {
      DrainExtends(WriteIntoReadBuffer(r, p.data), ReceiveAck(k.snd, k.connState, p).connState);
    } else if rel > r.expected && rel !in r.seen {
      PushOrders(r.early, Entry(rel, p));
    }
  }

  lemma {:induction false} DrainExtends(r: Receiver, st: ConnState)
    requires Free(r) >= 0
    ensures r.readRing <= Drain(r, st).rcv.readRing
    decreases |r.early|
  {
    if |r.early| != 0 && r.early[0].priority == r.expected {
      var p := r.early[0].value;
      DrainExtends(WriteIntoReadBuffer(PopEarly(r), p.data), if p.flags == FLAG_FIN then TakeFin(st) else st);
    }
  }

  // ----- acks ---------------------------------------------------------------------------------------

  /** One past the last number an item takes. */
  function EndOf(it: Item): int
  {
    it.priority + if |it.packet.data| == 0 then 1 else |it.packet.data|
  }

  /** The first n items, and no more, end at or before rel. */
  predicate Covers(items: seq<Item>, n: nat, rel: int)
  {
    && n <= |items|
    && (forall i :: 0 <= i < n ==> EndOf(items[i]) <= rel)
    && (n < |items| ==> EndOf(items[n]) > rel)
  }

  function Sizes(items: seq<Item>): int
  {
    if items == [] then 0 else EndOf(items[0]) - items[0].priority + Sizes(items[1..])
  }

  /** A new ack, one above the largest received. It is recorded, the window is the packet's, the counter loses the sizes
      of what left, and what left is the front of the list: all items that end at or before the ack, unless
      the FIN of a LAST_ACK side is among them. Then everything before the FIN leaves and the socket closes. */
  lemma NewAckLaw(k: Socket, p: Packet) returns (n: nat)
    requires |k.rcv.readRing| <= 65535 && !k.closed && p.flags == Flags(false, false, true) && k.snd.largestAck < p.ackNum
    ensures var h := HandlePacket(k, p, true); var x, y := k.snd, h.sock.snd; var rel := (p.ackNum - x.isn) % 0x1_0000_0000;
            && n <= |x.inFlight| && y.inFlight == x.inFlight[n..]
            && y.largestAck == p.ackNum && y.window == p.window
            && y.inFlightSize == (x.inFlightSize - Sizes(x.inFlight[..n])) % 0x1_0000_0000
            && (forall i :: 0 <= i < n ==> EndOf(x.inFlight[i]) <= rel)
            && (!h.sock.closed ==> Covers(x.inFlight, n, rel))
            && (h.sock.closed <==> k.connState == LastAck && n < |x.inFlight|
                                   && x.inFlight[n].packet.flags.fin && EndOf(x.inFlight[n]) <= rel)
  {
    var x := k.snd;
    var rel := Sub32(p.ackNum, x.isn);
    n := LoopLaw(k.connState, x.inFlight, x.inFlightSize, rel);
    AckLoopSize(k.connState, x.inFlight, x.inFlightSize, rel);
    SizesSplit(x.inFlight, n);
  }

  lemma {:induction false} LoopLaw(st: ConnState, items: seq<Item>, size: Word32, rel: int) returns (n: nat)
    ensures n <= |items| && AckLoop(st, items, size, rel).inFlight == items[n..]
    ensures forall i :: 0 <= i < n ==> EndOf(items[i]) <= rel
    ensures !AckLoop(st, items, size, rel).closed ==> Covers(items, n, rel)
    ensures AckLoop(st, items, size, rel).closed <==>
              st == LastAck && n < |items| && items[n].packet.flags.fin && EndOf(items[n]) <= rel
    decreases |items|
  {
    n := 0;
    if items != [] && Covered(items[0], rel) && !(items[0].packet.flags.fin && st == LastAck) {
      var st' := if items[0].packet.flags.fin && st == FinWait1 then FinWait2 else st;
      var size' := Sub32(size, ItemSize(items[0]));
      var m := LoopLaw(st', items[1..], size', rel);
      n := m + 1;
      assert items[1..][m..] == items[n..];
      forall i | 0 <= i < n ensures EndOf(items[i]) <= rel { if i > 0 { assert items[1..][i - 1] == items[i]; } }
    }
  }

  lemma {:induction false} SizesSplit(items: seq<Item>, n: nat)
    requires n <= |items|
    ensures SizeOf(items) == Sizes(items[..n]) + SizeOf(items[n..])
  {
    if n == 0 {
      assert items[..0] == [] && items[0..] == items;
    } else {
      SizesSplit(items[1..], n - 1);
      assert items[..n][0] == items[0] && items[..n][1..] == items[1..][..n - 1];
      assert items[1..][n - 1..] == items[n..];
    }
  }

  /** An ack equal to the largest received: the list stays, and the window may only widen. */
  lemma SameAckLaw(k: Socket, p: Packet)
    requires |k.rcv.readRing| <= 65535 && !k.closed && p.flags == Flags(false, false, true) && k.snd.largestAck == p.ackNum
    ensures var h := HandlePacket(k, p, true); var x, y := k.snd, h.sock.snd;
            && y.inFlight == x.inFlight && y.inFlightSize == x.inFlightSize && y.largestAck == x.largestAck && !h.sock.closed
            && y.window == if x.window < p.window then p.window else x.window
  {
  }

  /** What every ack that is not old does to the rest of the sending half: a writer that waits after a probe goes on
      exactly when the counter is now below the window; nothing else moves, and without data nothing is sent. */
  lemma AckWakes(k: Socket, p: Packet)
    requires |k.rcv.readRing| <= 65535 && !k.closed && p.flags == Flags(false, false, true) && k.snd.largestAck <= p.ackNum
    ensures var h := HandlePacket(k, p, true); var x, y := k.snd, h.sock.snd;
            && y.isn == x.isn && y.bytesSent == x.bytesSent && y.writeRing == x.writeRing
            && (!h.sock.closed ==> y.writer == if x.writer == ProbeWait && y.inFlightSize < y.window then Ready else x.writer)
            && (p.data == [] ==> h.out == {} && h.sock.rcv == k.rcv)
  {
  }

  // ----- FINs --------------------------------------------------------------------------------------------

  /** A FIN: the next number is acked with one more than the data and moves ESTABLISHED to CLOSE_WAIT and FIN_WAIT_2 to
      TIME_WAIT; one from further on is queued in silence, once; an older one does nothing. */
  lemma FinLaw(k: Socket, p: Packet)
    requires |k.rcv.readRing| <= 65535 && !k.closed && p.flags.fin
    ensures var h := HandlePacket(k, p, true); var r := k.rcv; var rel := (p.seqNum - r.foreignIsn) % 0x1_0000_0000;
            && h.sock.snd == k.snd
            && (rel == r.expected ==>
                  && (exists q: Packet :: IsAnswer(q, k) && h.out == {q.(ackNum := (q.ackNum + 1) % 0x1_0000_0000)})
                  && h.sock == k.(connState := if k.connState == Established then CloseWait
                                               else if k.connState == FinWait2 then TimeWait else k.connState))
            && (rel != r.expected ==> h.out == {} && h.sock.connState == k.connState)
            && (rel < r.expected || rel in r.seen ==> h.sock.rcv == r)
            && (rel > r.expected && rel !in r.seen ==>
                  multiset(h.sock.rcv.early) == multiset(r.early) + multiset{Entry(rel, p)} && h.sock.rcv.seen == r.seen + {rel})
  {
    var r := k.rcv;
    if RelSeq(r, p) == r.expected {
      assert IsAnswer(AckPacket(k.snd, r, []), k);
    } else if RelSeq(r, p) > r.expected {
      PushOrders(r.early, Entry(RelSeq(r, p), p));
    }
  }
}
