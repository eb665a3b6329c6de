/** Packets, 32-bit sequence arithmetic and the socket state of pkg/applications/tcp. */
module TcpTypes {
  import opened Heap

  const MOD32: int := 0x1_0000_0000
  const BUFFER_SIZE: int := 65535
  const MAX_SEGMENT_SIZE: int := 1024

  type Byte = b: int | 0 <= b < 256
  type Word16 = w: int | 0 <= w < 0x1_0000
  type Word32 = w: int | 0 <= w < 0x1_0000_0000

  /** uint32 addition and subtraction, with Go's wrap-around. */
  function Add32(a: int, b: int): Word32
  {
    (a + b) % MOD32
  }

  function Sub32(a: int, b: int): Word32
  {
    (a - b) % MOD32
  }

  /** Raw and relative sequence numbers: relative to raw and back is the identity below 2^32. */
  lemma RelOfRaw(isn: Word32, rel: int)
    requires 0 <= rel < MOD32
    ensures Sub32(Add32(isn, rel), isn) == rel
  {
    if isn + rel < MOD32 {
      assert Add32(isn, rel) == isn + rel;
    } else {
      assert Add32(isn, rel) == isn + rel - MOD32;
    }
  }

  /** The code compares acks as raw numbers. For two positions of one stream this agrees with
      stream order exactly when they lie on the same side of the 2^32 wrap. */
  lemma RawOrderAgreesIff(isn: Word32, x: int, y: int)
    requires 0 <= x < y < MOD32
    ensures Add32(isn, x) < Add32(isn, y) <==> (isn + x < MOD32 <==> isn + y < MOD32)
  {
    assert Add32(isn, x) == if isn + x < MOD32 then isn + x else isn + x - MOD32;
    assert Add32(isn, y) == if isn + y < MOD32 then isn + y else isn + y - MOD32;
  }

  function Min(a: int, b: int): int
  {
    if a < b then a else b
  }

  // ----- packets ---------------------------------------------------------------

  datatype Flags = Flags(fin: bool, syn: bool, ack: bool)

  const FLAG_ACK := Flags(false, false, true)
  const FLAG_FIN := Flags(true, false, false)

  datatype Packet = Packet(seqNum: Word32, ackNum: Word32, flags: Flags, window: Word16, data: seq<Byte>)

  /** An element of inFlightList; Priority is the relative sequence number. */
  datatype Item = Item(priority: int, packet: Packet)

  /** Sequence space an item takes: a FIN, which has no payload, counts one. */
  function ItemSize(it: Item): (n: int)
    ensures n > 0
  {
    if |it.packet.data| == 0 then 1 else |it.packet.data|
  }

  // ----- socket state ----------------------------------------------------------

  datatype ConnState = SynReceived | SynSent | Established | FinWait1 | FinWait2
    | CloseWait | TimeWait | LastAck | Closed

  /** Where the HandleWrites goroutine stands. Sending a segment, pushing it on the in-flight
      list and adding its length to inFlightPacketSize are three separate moments. */
  datatype Writer =
    | Ready
    | Burst(rest: seq<Byte>)
    | Sent(item: Item, rest: seq<Byte>)
    | Pushed(len: int, rest: seq<Byte>)
    | ProbeSent(item: Item)
    | ProbeWait
    | Done

  datatype Sender = Sender(
    isn: Word32,
    bytesSent: Word32,
    writeRing: seq<Byte>,
    inFlight: seq<Item>,
    inFlightSize: Word32,
    largestAck: Word32,
    window: Word32,
    writer: Writer)

  datatype Receiver = Receiver(
    foreignIsn: Word32,
    expected: Word32,
    readRing: seq<Byte>,
    early: seq<Entry<Packet>>,
    seen: set<Word32>,
    earlySize: Word32)

  datatype Socket = Socket(
    connState: ConnState,
    canRead: bool,
    canWrite: bool,
    closed: bool,
    snd: Sender,
    rcv: Receiver)
}
