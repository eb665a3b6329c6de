/** The atomic steps of a TcpSocket as functions on its state: what HandlePacket, HandleWrites,
    VWrite and VRead do between two points where another goroutine may run. */
module TcpSteps {
  import opened Heap
  import opened TcpTypes

  // ----- receiving data: read ring and early-arrival queue ---------------------

  function Free(r: Receiver): int
  {
    BUFFER_SIZE - |r.readRing|
  }

  /** writeIntoReadBuffer: the ring takes what fits, nextExpectedByte moves only when all did. */
  function WriteIntoReadBuffer(r: Receiver, data: seq<Byte>): Receiver
    requires Free(r) >= 0
  {
    if |data| <= Free(r) then
      r.(readRing := r.readRing + data, expected := Add32(r.expected, |data|))
    else
      r.(readRing := r.readRing + data[..Free(r)])
  }

  /** The reaction of connState to the peer's FIN. */
  function TakeFin(st: ConnState): ConnState
  {
    match st
    case Established => CloseWait
    case FinWait2 => TimeWait
    case _ => st
  }

  datatype RcvResult = RcvResult(rcv: Receiver, connState: ConnState)

  function PopEarly(r: Receiver): Receiver
    requires |r.early| > 0
  {
    r.(early := PopRest(r.early), earlySize := Sub32(r.earlySize, |r.early[0].value.data|))
  }

  /** The drain loop: as long as the queue's head is the next expected byte, pop and write it. */
  function Drain(r: Receiver, st: ConnState): (res: RcvResult)
    requires Free(r) >= 0
    ensures Free(res.rcv) >= 0
    decreases |r.early|
  {
    if |r.early| == 0 || r.early[0].priority != r.expected then RcvResult(r, st)
    else
      var p := r.early[0].value;
      Drain(WriteIntoReadBuffer(PopEarly(r), p.data), if p.flags == FLAG_FIN then TakeFin(st) else st)
  }

  /** Queue an early arrival unless its sequence number was ever queued before. */
  function Enqueue(r: Receiver, rel: Word32, p: Packet): Receiver
  {
    if rel in r.seen then r
    else r.(early := Push(r.early, Entry(rel, p)), seen := r.seen + {rel},
            earlySize := Add32(r.earlySize, |p.data|))
  }

  function RelSeq(r: Receiver, p: Packet): Word32
  {
    Sub32(p.seqNum, r.foreignIsn)
  }

  /** A segment in sequence that does not fit is dropped without an ack. */
  predicate DropsUnacked(r: Receiver, p: Packet)
  {
    RelSeq(r, p) == r.expected && Free(r) < |p.data|
  }

  function ReceiveData(r: Receiver, st: ConnState, p: Packet): (res: RcvResult)
    requires Free(r) >= 0
    ensures Free(res.rcv) >= 0
  {
    var rel := RelSeq(r, p);
    if rel == r.expected then
      if Free(r) >= |p.data| then Drain(WriteIntoReadBuffer(r, p.data), st) else RcvResult(r, st)
    else if rel > r.expected then RcvResult(Enqueue(r, rel, p), st)
    else RcvResult(r, st)
  }

  function ReceiveFin(r: Receiver, st: ConnState, p: Packet): RcvResult
  {
    var rel := RelSeq(r, p);
    if rel == r.expected then RcvResult(r, TakeFin(st))
    else if rel > r.expected then RcvResult(Enqueue(r, rel, p), st)
    else RcvResult(r, st)
  }

  // ----- receiving acks --------------------------------------------------------

  datatype AckResult = AckResult(connState: ConnState, inFlight: seq<Item>, size: Word32, closed: bool)

  predicate Covered(it: Item, rel: int)
  {
    it.priority + ItemSize(it) <= rel
  }

  /** The loop that removes acknowledged items from the front of the in-flight list. */
  function AckLoop(st: ConnState, items: seq<Item>, size: Word32, rel: int): AckResult
    decreases |items|
  {
    if items == [] || !Covered(items[0], rel) then AckResult(st, items, size, false)
    else if items[0].packet.flags.fin && st == LastAck then AckResult(Closed, items, size, true)
    else
      AckLoop(if items[0].packet.flags.fin && st == FinWait1 then FinWait2 else st,
              items[1..], Sub32(size, ItemSize(items[0])), rel)
  }

  /** windowNotEmpty.Broadcast(), sent when the flight is below the window. */
  function Wake(x: Sender): Sender
  {
    if x.writer.ProbeWait? && x.inFlightSize < x.window then x.(writer := Ready) else x
  }

  datatype SndResult = OldAck | AckTaken(snd: Sender, connState: ConnState, closed: bool)

  function ReceiveAck(x: Sender, st: ConnState, p: Packet): SndResult
  {
    if p.ackNum < x.largestAck then OldAck
    else if p.ackNum == x.largestAck then
      AckTaken(Wake(if x.window < p.window then x.(window := p.window) else x), st, false)
    else
      var res := AckLoop(st, x.inFlight, x.inFlightSize, Sub32(p.ackNum, x.isn));
      var y := x.(window := p.window, largestAck := p.ackNum,
                  inFlight := res.inFlight, inFlightSize := res.size);
      AckTaken(if res.closed then y else Wake(y), res.connState, res.closed)
  }

  // ----- HandlePacket ----------------------------------------------------------

  /** getAckHeader: an ack for everything received so far. */
  function AckPacket(x: Sender, r: Receiver, data: seq<Byte>): Packet
    requires 0 <= Free(r)
  {
    Packet(Add32(x.isn, x.bytesSent + 1), Add32(r.foreignIsn, r.expected), FLAG_ACK, Free(r), data)
  }

  datatype Handled = Handled(sock: Socket, out: set<Packet>)

  function HandleAckPacket(s: Socket, p: Packet): Handled
    requires Free(s.rcv) >= 0
  {
    match ReceiveAck(s.snd, s.connState, p)
    case OldAck => Handled(s, {})
    case AckTaken(x, st, closedNow) =>
      var s1 := s.(snd := x, connState := st, closed := closedNow);
      if closedNow || p.data == [] then Handled(s1, {})
      else
        var d := ReceiveData(s.rcv, st, p);
        var s2 := s1.(rcv := d.rcv, connState := d.connState);
        Handled(s2, if DropsUnacked(s.rcv, p) then {} else {AckPacket(x, d.rcv, [])})
  }

  function HandleFinPacket(s: Socket, p: Packet): Handled
    requires Free(s.rcv) >= 0
  {
    var d := ReceiveFin(s.rcv, s.connState, p);
    var a := AckPacket(s.snd, s.rcv, []);
    Handled(s.(rcv := d.rcv, connState := d.connState),
            if RelSeq(s.rcv, p) == s.rcv.expected then {a.(ackNum := Add32(a.ackNum, 1))} else {})
  }

  /** One call of HandlePacket, which holds varLock from beginning to end. */
  function HandlePacket(s: Socket, p: Packet, checksumOk: bool): Handled
    requires Free(s.rcv) >= 0
  {
    if s.closed || !checksumOk then Handled(s, {})
    else if p.flags == FLAG_ACK then HandleAckPacket(s, p)
    else if p.flags.fin then HandleFinPacket(s, p)
    else Handled(s, {})
  }

  // ----- HandleWrites ----------------------------------------------------------

  predicate CanSendFin(s: Socket)
  {
    s.snd.writer.Ready? && s.snd.writeRing == [] && !s.canWrite
  }

  function FinPacket(s: Socket): Packet
    requires 0 <= Free(s.rcv)
  {
    AckPacket(s.snd, s.rcv, []).(flags := FLAG_FIN)
  }

  function SendFin(s: Socket): Socket
    requires 0 <= Free(s.rcv)
  {
    var p := FinPacket(s);
    s.(connState := (match s.connState
                     case Established => FinWait1
                     case CloseWait => LastAck
                     case st => st),
       snd := s.snd.(bytesSent := Add32(s.snd.bytesSent, 1), writer := Done,
                     inFlight := s.snd.inFlight + [Item(Sub32(p.seqNum, s.snd.isn), p)]))
  }

  predicate CanProbe(x: Sender)
  {
    x.writer.Ready? && x.writeRing != [] && x.window <= x.inFlightSize
  }

  function SegmentItem(x: Sender, r: Receiver, data: seq<Byte>): Item
    requires 0 <= Free(r)
  {
    var p := AckPacket(x, r, data);
    Item(Sub32(p.seqNum, x.isn), p)
  }

  /** The zero-window probe: one byte goes out although the window is full. */
  function SendProbe(x: Sender, r: Receiver): Sender
    requires CanProbe(x) && 0 <= Free(r)
  {
    x.(writeRing := x.writeRing[1..], bytesSent := Add32(x.bytesSent, 1),
       writer := ProbeSent(SegmentItem(x, r, x.writeRing[..1])))
  }

  function PushProbe(x: Sender): Sender
    requires x.writer.ProbeSent?
  {
    x.(inFlight := x.inFlight + [x.writer.item],
       inFlightSize := Add32(x.inFlightSize, |x.writer.item.packet.data|),
       writer := ProbeWait)
  }

  predicate CanBurst(x: Sender)
  {
    x.writer.Ready? && x.writeRing != [] && x.inFlightSize < x.window
  }

  /** Takes min(window, buffered) bytes out of the write ring; bytes in flight are not deducted. */
  function BeginBurst(x: Sender): Sender
    requires CanBurst(x)
  {
    var n := Min(x.window, |x.writeRing|);
    x.(writeRing := x.writeRing[n..], writer := Burst(x.writeRing[..n]))
  }

  function SendSegment(x: Sender, r: Receiver): Sender
    requires x.writer.Burst? && 0 <= Free(r)
  {
    var n := Min(MAX_SEGMENT_SIZE, |x.writer.rest|);
    x.(bytesSent := Add32(x.bytesSent, n),
       writer := Sent(SegmentItem(x, r, x.writer.rest[..n]), x.writer.rest[n..]))
  }

  function PushSegment(x: Sender): Sender
    requires x.writer.Sent?
  {
    x.(inFlight := x.inFlight + [x.writer.item],
       writer := Pushed(|x.writer.item.packet.data|, x.writer.rest))
  }

  function AddFlight(x: Sender): Sender
    requires x.writer.Pushed?
  {
    x.(inFlightSize := Add32(x.inFlightSize, x.writer.len),
       writer := if x.writer.rest == [] then Ready else Burst(x.writer.rest))
  }
}
