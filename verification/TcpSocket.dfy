/** The TcpSocket object: HandlePacket, the sections of HandleWrites, VWrite, VRead and VShutdown as
    they update its fields, each proved against the step functions of module TcpSteps. */
module TcpSockets {
  import opened Heap
  import opened TcpTypes
  import Steps = TcpSteps
  import opened TcpReassembly
  import opened TcpSending
  import opened TcpIntegrity
  import Bursts = TcpBursts
  import Laws = TcpLaws
  import Handshake

  datatype Error = NoError | WriteShutdown | AlreadyShutdown | InvalidShutdown

  /** What a reader finds when it is woken: bytes that arrived, and the state. */
  datatype Wake = Wake(data: seq<Byte>, connState: ConnState)

  datatype ReadOutcome = Bytes(got: seq<Byte>) | EndOfStream | Waiting | Spinning

  const SHUTDOWN_READ := 1
  const SHUTDOWN_WRITE := 2
  const SHUTDOWN_BOTH := 3

  class TcpSocket {
    var connState: ConnState
    var canRead: bool
    var canWrite: bool
    var closed: bool

    var readBuffer: seq<Byte>
    var earlyArrivalQueue: seq<Entry<Packet>>
    var earlyArrivalSeqNumSet: set<Word32>
    var earlyArrivalPacketSize: Word32

    var writeBuffer: seq<Byte>
    var inFlightList: seq<Item>
    var inFlightPacketSize: Word32
    var writer: Writer

    const myInitSeqNum: Word32
    var numBytesSent: Word32
    var nextExpectedByte: Word32
    var foreignInitSeqNum: Word32
    var largestAckReceived: Word32
    var foreignWindowSize: Word32

    /** MakeTcpSocket. */
    constructor (state: ConnState, isn: Word32, foreignIsn: Word32)
      ensures State() == Handshake.MakeSocket(state, isn, foreignIsn)
    {
      connState, canRead, canWrite, closed := state, true, true, false;
      readBuffer, earlyArrivalQueue, earlyArrivalSeqNumSet, earlyArrivalPacketSize := [], [], {}, 0;
      writeBuffer, inFlightList, inFlightPacketSize, writer := [], [], 0, Ready;
      myInitSeqNum, numBytesSent, nextExpectedByte := isn, 0, 0;
      foreignInitSeqNum, largestAckReceived, foreignWindowSize := foreignIsn, 0, 0;
    }

    // ----- handshake -------------------------------------------------------------------

    /** VConnect takes the first packet for its socket; on success the caller sends `reply`. */
    method TakeSynAck(p: Packet, checksumOk: bool) returns (ok: bool, reply: Packet)
      modifies this`connState, this`foreignInitSeqNum, this`nextExpectedByte, this`largestAckReceived, this`foreignWindowSize
      ensures ok <==> Handshake.ConnectOutcome(old(State()), p, checksumOk).Returned?
      ensures ok ==> Handshake.ConnectOutcome(old(State()), p, checksumOk).sock == State()
      ensures ok ==> reply == Handshake.ConnectReply(p)
      ensures !ok ==> State() == old(State())
    {
      reply := p;
      if p.flags != Handshake.FLAG_SYN_ACK || !checksumOk || Sub32(p.ackNum, myInitSeqNum) != 1 {
        return false, p;
      }
      foreignInitSeqNum, nextExpectedByte, largestAckReceived := p.seqNum, 1, p.ackNum;
      reply := Packet(p.ackNum, Add32(p.seqNum, 1), FLAG_ACK, BUFFER_SIZE, []);
      connState, foreignWindowSize := Established, p.window;
      ok := true;
    }

    /** VAccept answers the SYN its new socket was made for. */
    method AnswerSyn(syn: Packet) returns (synAck: Packet)
      requires State() == Handshake.MakeSocket(SynReceived, myInitSeqNum, syn.seqNum)
      modifies this`connState, this`nextExpectedByte
      ensures State() == Handshake.AcceptSocket(myInitSeqNum, syn.seqNum)
      ensures synAck == Handshake.SynAckPacket(syn, myInitSeqNum)
    {
      synAck := Packet(myInitSeqNum, Add32(syn.seqNum, 1), Handshake.FLAG_SYN_ACK, BUFFER_SIZE, []);
      nextExpectedByte := 1;
      connState := SynSent;
    }

    /** VAccept takes the next packet for its socket. */
    method TakeLastAck(p: Packet) returns (ok: bool)
      modifies this`connState, this`foreignWindowSize
      ensures ok <==> Handshake.AcceptOutcome(old(State()), p).Returned?
      ensures ok ==> Handshake.AcceptOutcome(old(State()), p).sock == State()
      ensures !ok ==> State() == old(State())
    {
      if p.flags.ack {
        if Sub32(p.seqNum, foreignInitSeqNum) != 1 { return false; }
        if Sub32(p.ackNum, myInitSeqNum) != 1 { return false; }
        connState, foreignWindowSize := Established, p.window;
      }
      ok := true;
    }

    ghost function SendState(): Sender
      reads this
    {
      Sender(myInitSeqNum, numBytesSent, writeBuffer, inFlightList, inFlightPacketSize,
             largestAckReceived, foreignWindowSize, writer)
    }

    ghost function ReceiveState(): Receiver
      reads this
    {
      Receiver(foreignInitSeqNum, nextExpectedByte, readBuffer, earlyArrivalQueue,
               earlyArrivalSeqNumSet, earlyArrivalPacketSize)
    }

    ghost function State(): Socket
      reads this
    {
      Socket(connState, canRead, canWrite, closed, SendState(), ReceiveState())
    }

    ghost predicate Valid()
      reads this
    {
      |readBuffer| <= BUFFER_SIZE && |writeBuffer| <= BUFFER_SIZE
    }

    // ----- HandlePacket ----------------------------------------------------------------

    method WriteIntoReadBuffer(data: seq<Byte>)
      requires Valid()
      modifies this`readBuffer, this`nextExpectedByte
      ensures Valid() && ReceiveState() == Steps.WriteIntoReadBuffer(old(ReceiveState()), data)
    {
      var free := BUFFER_SIZE - |readBuffer|;
      if free < |data| {
        readBuffer := readBuffer + data[..free];
      } else {
        readBuffer := readBuffer + data;
        nextExpectedByte := Add32(nextExpectedByte, |data|);
      }
    }

    /** Body of the drain loop: pop the head of the queue, react to a FIN, write the data. */
    method DrainOne()
      requires Valid() && |earlyArrivalQueue| != 0
      modifies this`readBuffer, this`nextExpectedByte, this`earlyArrivalQueue, this`earlyArrivalPacketSize, this`connState
      ensures Valid()
      ensures ReceiveState() == Steps.WriteIntoReadBuffer(Steps.PopEarly(old(ReceiveState())), old(earlyArrivalQueue[0].value.data))
      ensures connState == if old(earlyArrivalQueue[0].value.flags) == FLAG_FIN then Steps.TakeFin(old(connState)) else old(connState)
    {
      var smallest := earlyArrivalQueue[0].value;
      earlyArrivalQueue := PopRest(earlyArrivalQueue);
      earlyArrivalPacketSize := Sub32(earlyArrivalPacketSize, |smallest.data|);
      if smallest.flags == FLAG_FIN {
        if connState == Established {
          connState := CloseWait;
        } else if connState == FinWait2 {
          connState := TimeWait;
        }
      }
      WriteIntoReadBuffer(smallest.data);
    }

    /** The drain loop. */
    method DrainQueue()
      requires Valid()
      modifies this`readBuffer, this`nextExpectedByte, this`earlyArrivalQueue, this`earlyArrivalPacketSize, this`connState
      ensures Valid()
      ensures Steps.RcvResult(ReceiveState(), connState) == Steps.Drain(old(ReceiveState()), old(connState))
    {
      while |earlyArrivalQueue| != 0 && earlyArrivalQueue[0].priority == nextExpectedByte
        invariant Valid()
        invariant Steps.Drain(ReceiveState(), connState) == Steps.Drain(old(ReceiveState()), old(connState))
        decreases |earlyArrivalQueue|
      {
        DrainOne();
      }
    }

    method Enqueue(rel: Word32, p: Packet)
      modifies this`earlyArrivalQueue, this`earlyArrivalSeqNumSet, this`earlyArrivalPacketSize
      ensures ReceiveState() == Steps.Enqueue(old(ReceiveState()), rel, p)
    {
      if rel !in earlyArrivalSeqNumSet {
        earlyArrivalQueue := Push(earlyArrivalQueue, Entry(rel, p));
        earlyArrivalSeqNumSet := earlyArrivalSeqNumSet + {rel};
        earlyArrivalPacketSize := Add32(earlyArrivalPacketSize, |p.data|);
      }
    }

    /** The loop that takes acknowledged items off the in-flight list. */
    method RemoveAcked(rel: int) returns (closedNow: bool)
      modifies this`inFlightList, this`inFlightPacketSize, this`connState
      ensures Steps.AckResult(connState, inFlightList, inFlightPacketSize, closedNow)
              == Steps.AckLoop(old(connState), old(inFlightList), old(inFlightPacketSize), rel)
    {
      while |inFlightList| != 0
        invariant Steps.AckLoop(connState, inFlightList, inFlightPacketSize, rel)
                  == Steps.AckLoop(old(connState), old(inFlightList), old(inFlightPacketSize), rel)
        decreases |inFlightList|
      {
        var first := inFlightList[0];
        var payloadSize := |first.packet.data|;
        if payloadSize == 0 { payloadSize := 1; }
        if first.priority + payloadSize > rel { break; }
        if first.packet.flags.fin {
          if connState == FinWait1 {
            connState := FinWait2;
          } else if connState == LastAck {
            connState := Closed;
            return true;
          }
        }
        inFlightList := inFlightList[1..];
        inFlightPacketSize := Sub32(inFlightPacketSize, payloadSize);
      }
      closedNow := false;
    }

    method WakeWriter()
      modifies this`writer
      ensures SendState() == Steps.Wake(old(SendState()))
    {
      if writer.ProbeWait? && inFlightPacketSize < foreignWindowSize { writer := Ready; }
    }

    /** Step 1 of HandlePacket: taken is false for an old ack. */
    method ProcessAck(p: Packet) returns (taken: bool, closedNow: bool)
      modifies this`inFlightList, this`inFlightPacketSize, this`connState, this`foreignWindowSize,
               this`largestAckReceived, this`writer
      ensures taken <==> Steps.ReceiveAck(old(SendState()), old(connState), p).AckTaken?
      ensures taken ==> Steps.AckTaken(SendState(), connState, closedNow) == Steps.ReceiveAck(old(SendState()), old(connState), p)
      ensures !taken ==> SendState() == old(SendState()) && connState == old(connState)
    {
      closedNow := false;
      if p.ackNum < largestAckReceived { return false, false; }
      taken := true;
      if p.ackNum == largestAckReceived {
        if foreignWindowSize < p.window { foreignWindowSize := p.window; }
        WakeWriter();
      } else {
        foreignWindowSize := p.window;
        largestAckReceived := p.ackNum;
        closedNow := RemoveAcked(Sub32(p.ackNum, myInitSeqNum));
        if !closedNow { WakeWriter(); }
      }
    }

    function AckHeader(data: seq<Byte>): (p: Packet)
      reads this
      requires |readBuffer| <= BUFFER_SIZE
      ensures p == Steps.AckPacket(SendState(), ReceiveState(), data)
    {
      Packet(Add32(myInitSeqNum, numBytesSent + 1), Add32(foreignInitSeqNum, nextExpectedByte), FLAG_ACK,
             BUFFER_SIZE - |readBuffer|, data)
    }

    /** Step 2: into the read buffer or the queue; reply is false when the segment is dropped unacked. */
    method ProcessData(p: Packet) returns (reply: bool)
      requires Valid()
      modifies this`readBuffer, this`nextExpectedByte, this`earlyArrivalQueue, this`earlyArrivalSeqNumSet,
               this`earlyArrivalPacketSize, this`connState
      ensures Valid()
      ensures Steps.RcvResult(ReceiveState(), connState) == Steps.ReceiveData(old(ReceiveState()), old(connState), p)
      ensures reply == !Steps.DropsUnacked(old(ReceiveState()), p)
    {
      var rel := Sub32(p.seqNum, foreignInitSeqNum);
      reply := true;
      if rel == nextExpectedByte {
        if BUFFER_SIZE - |readBuffer| >= |p.data| {
          WriteIntoReadBuffer(p.data);
          DrainQueue();
        } else {
          reply := false;
        }
      } else if rel > nextExpectedByte {
        Enqueue(rel, p);
      }
    }

    method ProcessFin(p: Packet) returns (out: set<Packet>)
      requires Valid()
      modifies this`earlyArrivalQueue, this`earlyArrivalSeqNumSet, this`earlyArrivalPacketSize, this`connState
      ensures Valid()
      ensures Steps.Handled(State(), out) == Steps.HandleFinPacket(old(State()), p)
    {
      var rel := Sub32(p.seqNum, foreignInitSeqNum);
      out := {};
      if rel == nextExpectedByte {
        var ack := AckHeader([]);
        out := {ack.(ackNum := Add32(ack.ackNum, 1))};
        if connState == Established {
          connState := CloseWait;
        } else if connState == FinWait2 {
          connState := TimeWait;
        }
      } else if rel > nextExpectedByte {
        Enqueue(rel, p);
      }
    }

    /** Step 2 and the ack that answers it. */
    method AnswerData(p: Packet) returns (out: set<Packet>)
      requires Valid()
      modifies this`readBuffer, this`nextExpectedByte, this`earlyArrivalQueue, this`earlyArrivalSeqNumSet,
               this`earlyArrivalPacketSize, this`connState
      ensures Valid()
      ensures Steps.RcvResult(ReceiveState(), connState) == Steps.ReceiveData(old(ReceiveState()), old(connState), p)
      ensures out == if Steps.DropsUnacked(old(ReceiveState()), p) then {} else {Steps.AckPacket(SendState(), ReceiveState(), [])}
    {
      var reply := ProcessData(p);
      out := {};
      if reply { out := {AckHeader([])}; }
    }

    method HandleAck(p: Packet) returns (out: set<Packet>)
      requires Valid() && !closed
      modifies this
      ensures Valid()
      ensures Steps.Handled(State(), out) == Steps.HandleAckPacket(old(State()), p)
    {
      out := {};
      var taken, closedNow := ProcessAck(p);
      if taken {
        closed := closedNow;
        if !closedNow && p.data != [] {
          out := AnswerData(p);
        }
      }
    }

    /** One packet, under varLock from beginning to end. */
    method HandlePacket(p: Packet, checksumOk: bool) returns (out: set<Packet>)
      requires Valid()
      modifies this
      ensures Valid()
      ensures Steps.Handled(State(), out) == Steps.HandlePacket(old(State()), p, checksumOk)
      ensures checksumOk && Laws.DataComesIn(old(State()), p) ==> Laws.Answered(old(State()), p, State(), out)
    {
      if checksumOk && Laws.DataComesIn(State(), p) { Laws.DataAnswered(State(), p); }
      out := {};
      if closed || !checksumOk { return; }
      if p.flags == FLAG_ACK {
        out := HandleAck(p);
      } else if p.flags.fin {
        out := ProcessFin(p);
      }
    }

    // ----- HandleWrites ------------------------------------------------------------------

    /** The write buffer ran empty after a shutdown: create the FIN. */
    method SendFin() returns (p: Packet)
      requires Valid() && Steps.CanSendFin(State())
      modifies this`connState, this`numBytesSent, this`inFlightList, this`writer
      ensures Valid() && p == Steps.FinPacket(old(State())) && State() == Steps.SendFin(old(State()))
    {
      p := AckHeader([]).(flags := FLAG_FIN);
      numBytesSent := Add32(numBytesSent, 1);
      inFlightList := inFlightList + [Item(Sub32(p.seqNum, myInitSeqNum), p)];
      if connState == Established {
        connState := FinWait1;
      } else if connState == CloseWait {
        connState := LastAck;
      }
      writer := Done;
    }

    /** A zero-window probe, up to the point where the writer waits for the window. */
    method Probe() returns (p: Packet)
      requires Valid() && Steps.CanProbe(SendState())
      modifies this`writeBuffer, this`numBytesSent, this`inFlightList, this`inFlightPacketSize, this`writer
      ensures Valid()
      ensures SendState() == Steps.PushProbe(Steps.SendProbe(old(SendState()), old(ReceiveState())))
      ensures p == Steps.SendProbe(old(SendState()), old(ReceiveState())).writer.item.packet
    {
      p := AckHeader(writeBuffer[..1]);
      writeBuffer := writeBuffer[1..];
      numBytesSent := Add32(numBytesSent, 1);
      inFlightList := inFlightList + [Item(Sub32(p.seqNum, myInitSeqNum), p)];
      inFlightPacketSize := Add32(inFlightPacketSize, |p.data|);
      writer := ProbeWait;
    }

    /** One round of the segmentation loop. */
    method SendOneSegment()
      requires Valid() && writer.Burst? && writer.rest != []
      modifies this`numBytesSent, this`inFlightList, this`inFlightPacketSize, this`writer
      ensures Valid() && SendState() == Bursts.BurstRound(old(SendState()), ReceiveState())
    {
      var rest := writer.rest;
      var segmentSize := Min(MAX_SEGMENT_SIZE, |rest|);
      var p := AckHeader(rest[..segmentSize]);
      numBytesSent := Add32(numBytesSent, segmentSize);
      inFlightList := inFlightList + [Item(Sub32(p.seqNum, myInitSeqNum), p)];
      inFlightPacketSize := Add32(inFlightPacketSize, |p.data|);
      writer := if |rest| == segmentSize then Ready else Burst(rest[segmentSize..]);
    }

    /** The segmentation loop, not interrupted by another goroutine. */
    method SegmentBurst()
      requires Valid() && writer.Burst? && writer.rest != []
      modifies this`numBytesSent, this`inFlightList, this`inFlightPacketSize, this`writer
      ensures Valid() && SendState() == Bursts.BurstRounds(old(SendState()), ReceiveState())
    {
      while writer != Ready
        invariant Valid() && Bursts.AtRound(SendState())
        invariant Bursts.BurstRounds(SendState(), ReceiveState()) == Bursts.BurstRounds(old(SendState()), ReceiveState())
        decreases |Rest(writer)|
      {
        SendOneSegment();
      }
    }

    /** The bytes of a burst leave the write buffer. */
    method TakeBurst()
      requires Valid() && Steps.CanBurst(SendState())
      modifies this`writeBuffer, this`writer
      ensures Valid() && SendState() == Steps.BeginBurst(old(SendState()))
      ensures writer.Burst? && writer.rest != [] && writer.rest + writeBuffer == old(writeBuffer)
      ensures |writer.rest| == Min(foreignWindowSize, |old(writeBuffer)|)
    {
      var n := Min(foreignWindowSize, |writeBuffer|);
      writer := Burst(writeBuffer[..n]);
      writeBuffer := writeBuffer[n..];
    }

    /** A whole burst, with no one in between: the bytes taken from the write buffer end up in the in-flight list, cut
        into segments, in order. */
    method SendBurst() returns (ghost items: seq<Item>)
      requires Valid() && Steps.CanBurst(SendState())
      modifies this`writeBuffer, this`numBytesSent, this`inFlightList, this`inFlightPacketSize, this`writer
      ensures Valid() && SendState() == Bursts.BurstRounds(Steps.BeginBurst(old(SendState())), ReceiveState())
      ensures writer == Ready && inFlightList == old(inFlightList) + items
      ensures FlightBytes(items) + writeBuffer == old(writeBuffer)
      ensures |writeBuffer| == |old(writeBuffer)| - Min(foreignWindowSize, |old(writeBuffer)|)
      ensures Bursts.Segments(items)
    {
      TakeBurst();
      items := Bursts.RoundsList(SendState(), ReceiveState());
      SegmentBurst();
    }

    // ----- the application's side ------------------------------------------------------------

    /** VWrite fills the ring, waiting whenever it is full; during the i-th wait the writer goroutine takes
        takes[i] bytes out. All bytes go through in order, and the call ends with the whole of buff handed
        over, or it waits on a full ring after all takes are used up. */
    method VWrite(buff: seq<Byte>, takes: seq<nat>) returns (n: int, err: Error, removed: seq<Byte>, waits: nat)
      requires Valid()
      modifies this`writeBuffer
      ensures Valid()
      ensures err == if buff != [] && !canWrite then WriteShutdown else NoError
      ensures 0 <= n <= |buff| && removed + writeBuffer == old(writeBuffer) + buff[..n]
      ensures err != NoError ==> n == 0 && removed == []
      ensures waits <= |takes| && |removed| == Taken(takes[..waits])
      ensures err == NoError && n < |buff| ==> |writeBuffer| == BUFFER_SIZE && waits == |takes|
      ensures |buff| <= BUFFER_SIZE - |old(writeBuffer)| && err == NoError ==> n == |buff| && removed == []
    {
      n, err, removed, waits := 0, NoError, [], 0;
      if |buff| == 0 { return; }
      if !canWrite { return 0, WriteShutdown, [], 0; }
      while n < |buff|
        invariant 0 <= n <= |buff| && waits <= |takes| && Valid()
        invariant |removed| == Taken(takes[..waits])
        invariant removed + writeBuffer == old(writeBuffer) + buff[..n]
        invariant |buff| <= BUFFER_SIZE - |old(writeBuffer)| ==> removed == []
        decreases |takes| - waits, |buff| - n
      {
        if |writeBuffer| == BUFFER_SIZE {
          if waits == |takes| { return; }
          var k := Min(takes[waits], |writeBuffer|);
          TakesFront(removed, writeBuffer, k);
          TakenSnoc(takes, waits);
          removed, writeBuffer := removed + writeBuffer[..k], writeBuffer[k..];
          waits := waits + 1;
        } else {
          var w := Min(|buff| - n, BUFFER_SIZE - |writeBuffer|);
          GoesBehind(removed, writeBuffer, old(writeBuffer), buff, n, n + w);
          writeBuffer := writeBuffer + buff[n..n + w];
          n := n + w;
        }
      }
    }

    /** VRead takes what is there, up to `room` bytes. On an empty ring it waits while ESTABLISHED; the i-th
        wake-up finds wakes[i] arrived. In CLOSE_WAIT an empty ring is the end of the stream, and in any other
        state the loop spins, holding the lock that arriving data needs. */
    method VRead(room: nat, wakes: seq<Wake>) returns (r: ReadOutcome, used: nat)
      requires Valid() && forall i :: 0 <= i < |wakes| ==> |wakes[i].data| <= BUFFER_SIZE
      modifies this`readBuffer, this`connState
      ensures Valid() && used <= |wakes|
      ensures used > 0 ==> old(readBuffer) == [] && old(connState) == Established && connState == wakes[used - 1].connState
      ensures used == 0 ==> connState == old(connState)
      ensures r.Bytes? ==> r.got + readBuffer == if used == 0 then old(readBuffer) else wakes[used - 1].data
      ensures r.Bytes? ==> canRead && |r.got| == Min(room, |r.got + readBuffer|) && r.got + readBuffer != []
      ensures !r.Bytes? ==> readBuffer == old(readBuffer)
      ensures r.EndOfStream? <==> !canRead || (readBuffer == [] && connState == CloseWait && !r.Bytes?)
      ensures r.Waiting? ==> used == |wakes| && readBuffer == [] && connState == Established
      ensures r.Spinning? ==> readBuffer == [] && connState != Established && connState != CloseWait
      ensures forall i :: 0 <= i < used - 1 ==> wakes[i] == Wake([], Established)
    {
      used := 0;
      if !canRead { return EndOfStream, 0; }
      while readBuffer == []
        invariant Valid() && used <= |wakes|
        invariant used > 0 ==> old(readBuffer) == [] && old(connState) == Established
        invariant used > 0 ==> readBuffer == wakes[used - 1].data && connState == wakes[used - 1].connState
        invariant used == 0 ==> readBuffer == old(readBuffer) && connState == old(connState)
        invariant forall i :: 0 <= i < used - 1 ==> wakes[i] == Wake([], Established)
        decreases |wakes| - used
      {
        if connState == CloseWait { return EndOfStream, used; }
        if connState != Established { return Spinning, used; }
        if used == |wakes| { return Waiting, used; }
        readBuffer, connState := wakes[used].data, wakes[used].connState;
        used := used + 1;
      }
      var n := Min(room, |readBuffer|);
      r := Bytes(readBuffer[..n]);
      readBuffer := readBuffer[n..];
    }

    /** VShutdown clears a direction once; a direction already shut down is an error and changes nothing. */
    method VShutdown(sdType: int) returns (err: Error)
      modifies this`canRead, this`canWrite
      ensures sdType !in {SHUTDOWN_READ, SHUTDOWN_WRITE, SHUTDOWN_BOTH} <==> err == InvalidShutdown
      ensures err == NoError ==>
                && (sdType in {SHUTDOWN_READ, SHUTDOWN_BOTH} ==> old(canRead) && !canRead)
                && (sdType in {SHUTDOWN_WRITE, SHUTDOWN_BOTH} ==> old(canWrite) && !canWrite)
                && (sdType == SHUTDOWN_READ ==> canWrite == old(canWrite))
                && (sdType == SHUTDOWN_WRITE ==> canRead == old(canRead))
      ensures err != NoError ==> canRead == old(canRead) && canWrite == old(canWrite)
      ensures err == AlreadyShutdown ==>
                (sdType in {SHUTDOWN_READ, SHUTDOWN_BOTH} && !old(canRead))
                || (sdType in {SHUTDOWN_WRITE, SHUTDOWN_BOTH} && !old(canWrite))
      ensures err in {NoError, AlreadyShutdown, InvalidShutdown}
    {
      err := NoError;
      if sdType == SHUTDOWN_BOTH {
        if !canRead || !canWrite { return AlreadyShutdown; }
        canRead, canWrite := false, false;
      } else if sdType == SHUTDOWN_READ {
        if !canRead { return AlreadyShutdown; }
        canRead := false;
      } else if sdType == SHUTDOWN_WRITE {
        if !canWrite { return AlreadyShutdown; }
        canWrite := false;
      } else {
        err := InvalidShutdown;
      }
    }
  }

  /** Bytes taken out of a ring that was full each time. */
  function Taken(takes: seq<nat>): nat
  {
    if takes == [] then 0 else Taken(takes[..|takes| - 1]) + Min(takes[|takes| - 1], BUFFER_SIZE)
  }

  lemma TakenSnoc(takes: seq<nat>, i: nat)
    requires i < |takes|
    ensures Taken(takes[..i + 1]) == Taken(takes[..i]) + Min(takes[i], BUFFER_SIZE)
  {
    assert takes[..i + 1][..i] == takes[..i];
  }

  lemma TakesFront(removed: seq<Byte>, ring: seq<Byte>, k: int)
    requires 0 <= k <= |ring|
    ensures removed + ring[..k] + ring[k..] == removed + ring
  {
  }

  lemma GoesBehind(removed: seq<Byte>, ring: seq<Byte>, before: seq<Byte>, buff: seq<Byte>, n: int, m: int)
    requires 0 <= n <= m <= |buff| && removed + ring == before + buff[..n]
    ensures removed + (ring + buff[n..m]) == before + buff[..m]
  {
    Regroup(removed, ring, buff[n..m]);
    Regroup(before, buff[..n], buff[n..m]);
    assert buff[..n] + buff[n..m] == buff[..m];
  }
}
