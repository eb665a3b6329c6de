/** The three-way handshake of VConnect (pkg/applications/tcp/connect.go) and VAccept
    (pkg/applications/tcp/listener.go) between one pair of addresses and ports: any number of connect
    attempts and of server incarnations, one after the other, over a network that loses, repeats, delays and
    reorders. */
module Handshake {
  import opened TcpTypes
  import opened TcpSystem
  import opened TcpIntegrity

  const FLAG_SYN := Flags(false, true, false)
  const FLAG_SYN_ACK := Flags(false, true, true)

  // ----- what one side does ------------------------------------------------------------

  function MakeSocket(state: ConnState, isn: Word32, foreignIsn: Word32): Socket
  {
    Socket(state, true, true, false,
           Sender(isn, 0, [], [], 0, 0, 0, Ready), Receiver(foreignIsn, 0, [], [], {}, 0))
  }

  function SynPacket(isn: Word32): Packet
  {
    Packet(isn, 0, FLAG_SYN, BUFFER_SIZE, [])
  }

  /** A deleted socket, or one returned to the caller with its connection goroutines running. */
  datatype Outcome = Deleted | Returned(sock: Socket)

  /** VConnect's reaction to the first packet that reaches its socket. */
  function ConnectOutcome(k: Socket, p: Packet, checksumOk: bool): Outcome
  {
    if p.flags != FLAG_SYN_ACK || !checksumOk || Sub32(p.ackNum, k.snd.isn) != 1 then Deleted
    else Returned(k.(connState := Established,
                     snd := k.snd.(largestAck := p.ackNum, window := p.window),
                     rcv := k.rcv.(foreignIsn := p.seqNum, expected := 1)))
  }

  function ConnectReply(p: Packet): Packet
  {
    Packet(p.ackNum, Add32(p.seqNum, 1), FLAG_ACK, BUFFER_SIZE, [])
  }

  /** The socket VAccept waits with, once it has answered the SYN that opened it. */
  function AcceptSocket(isn: Word32, foreignIsn: Word32): Socket
  {
    var k := MakeSocket(SynSent, isn, foreignIsn);
    k.(rcv := k.rcv.(expected := 1))
  }

  function SynAckPacket(syn: Packet, isn: Word32): Packet
  {
    Packet(isn, Add32(syn.seqNum, 1), FLAG_SYN_ACK, BUFFER_SIZE, [])
  }

  /** VAccept's reaction to the next packet that reaches its socket. One without the ACK flag is not
      looked at, and the socket is returned as it stands. */
  function AcceptOutcome(k: Socket, p: Packet): Outcome
  {
    if !p.flags.ack then Returned(k)
    else if Sub32(p.seqNum, k.rcv.foreignIsn) != 1 || Sub32(p.ackNum, k.snd.isn) != 1 then Deleted
    else Returned(k.(connState := Established, snd := k.snd.(window := p.window)))
  }

  /** VConnect sends a SYN with its own number and connects on an intact SYN-ACK of it and on nothing else. It then expects the byte behind the
      server's number, holds its own SYN for acknowledged, takes the window offered, and answers with the third packet. */
  lemma ConnectLaw(k: Socket, p: Packet, checksumOk: bool)
    ensures var o := ConnectOutcome(k, p, checksumOk); var mine := (k.snd.isn + 1) % 0x1_0000_0000;
            && SynPacket(k.snd.isn) == Packet(k.snd.isn, 0, Flags(false, true, false), 65535, [])
            && (o.Returned? <==> checksumOk && p.flags == Flags(false, true, true) && p.ackNum == mine)
            && (o.Returned? ==>
                  && o.sock.connState == Established && o.sock.rcv == k.rcv.(foreignIsn := p.seqNum, expected := 1)
                  && o.sock.snd == k.snd.(largestAck := mine, window := p.window)
                  && o.sock.canRead == k.canRead && o.sock.canWrite == k.canWrite && o.sock.closed == k.closed
                  && ConnectReply(p) == Packet(mine, (p.seqNum + 1) % 0x1_0000_0000, Flags(false, false, true), 65535, []))
  {
    assert k.snd.isn + 1 == MOD32 ==> Add32(k.snd.isn, 1) == 0;
  }

  /** VAccept answers a SYN with its own number and the byte behind the client's. It then takes a packet without an ACK
      flag for nothing at all, and one with it only if both numbers are one behind the two initial ones. */
  lemma AcceptLaw(isn: Word32, syn: Packet, p: Packet)
    ensures var k := AcceptSocket(isn, syn.seqNum); var o := AcceptOutcome(k, p);
            var mine, yours := (isn + 1) % 0x1_0000_0000, (syn.seqNum + 1) % 0x1_0000_0000;
            && SynAckPacket(syn, isn) == Packet(isn, yours, Flags(false, true, true), 65535, [])
            && k.rcv.foreignIsn == syn.seqNum && k.rcv.expected == 1 && k.snd.isn == isn && k.snd.bytesSent == 0
            && (o == Deleted <==> p.flags.ack && (p.seqNum != yours || p.ackNum != mine))
            && (!p.flags.ack ==> o == Returned(k))
            && (p.flags.ack && o.Returned? ==> o.sock == k.(connState := Established, snd := k.snd.(window := p.window)))
  {
  }

  // ----- both sides and the network ------------------------------------------------------

  /** Waiting and Running sockets are in the program's socket map. Gone never connected, Ended did. */
  datatype Attempt = Waiting(sock: Socket) | Running(sock: Socket) | Gone(sock: Socket) | Ended(sock: Socket)

  predicate Live(c: Attempt)
  {
    c.Waiting? || c.Running?
  }

  predicate Opened(c: Attempt)
  {
    c.Running? || c.Ended?
  }

  /** The socket map has no entry for this pair of addresses and ports. */
  predicate NoneLive(attempts: seq<Attempt>)
  {
    forall i :: 0 <= i < |attempts| ==> !Live(attempts[i])
  }

  /** toServer and toClient hold every packet ever sent. */
  datatype World = World(clients: seq<Attempt>, servers: seq<Attempt>, toServer: set<Packet>, toClient: set<Packet>)

  datatype Event =
    | Connect(isn: Word32)
    | Accept(syn: Packet, isn: Word32)
    | ClientGets(i: nat, p: Packet, checksumOk: bool)
    | ServerGets(j: nat, p: Packet)
    | ClientGivesUp(i: nat)
    | ServerGivesUp(j: nat)
    | ClientEnds(i: nat)  // deleted after CLOSED or TIME_WAIT, or the program is started anew
    | ServerEnds(j: nat)
    | LaterSegment(i: nat, sent: nat, taken: nat, flags: Flags, window: Word16, data: seq<Byte>)

  /** `span` bounds how far any connection's streams ever advance, in either direction. Both VConnect and
      VAccept refuse a pair of addresses and ports that has a socket already. */
  predicate CanHappen(w: World, e: Event, span: nat)
  {
    match e
    case Connect(_) => NoneLive(w.clients)
    case Accept(syn, _) => syn in w.toServer && syn.flags == FLAG_SYN && NoneLive(w.servers)
    case ClientGets(i, p, _) => i < |w.clients| && w.clients[i].Waiting? && p in w.toClient
    case ServerGets(j, p) => j < |w.servers| && w.servers[j].Waiting? && p in w.toServer
    case ClientGivesUp(i) => i < |w.clients| && w.clients[i].Waiting?
    case ServerGivesUp(j) => j < |w.servers| && w.servers[j].Waiting?
    case ClientEnds(i) => i < |w.clients| && w.clients[i].Running?
    case ServerEnds(j) => j < |w.servers| && w.servers[j].Running?
    case LaterSegment(i, sent, taken, flags, _, _) =>
      i < |w.clients| && w.clients[i].Running? && sent <= span && taken <= span && flags in {FLAG_ACK, FLAG_FIN}
  }

  function After(w: World, e: Event, span: nat): World
    requires CanHappen(w, e, span)
  {
    match e
    case Connect(isn) =>
      w.(clients := w.clients + [Waiting(MakeSocket(SynSent, isn, 0))], toServer := w.toServer + {SynPacket(isn)})
    case Accept(syn, isn) =>
      w.(servers := w.servers + [Waiting(AcceptSocket(isn, syn.seqNum))], toClient := w.toClient + {SynAckPacket(syn, isn)})
    case ClientGets(i, p, ok) => (
      match ConnectOutcome(w.clients[i].sock, p, ok)
      case Deleted => w.(clients := w.clients[i := Gone(w.clients[i].sock)])
      case Returned(k) => w.(clients := w.clients[i := Running(k)], toServer := w.toServer + {ConnectReply(p)}))
    case ServerGets(j, p) => (
      match AcceptOutcome(w.servers[j].sock, p)
      case Deleted => w.(servers := w.servers[j := Gone(w.servers[j].sock)])
      case Returned(k) => w.(servers := w.servers[j := Running(k)]))
    case ClientGivesUp(i) => w.(clients := w.clients[i := Gone(w.clients[i].sock)])
    case ServerGivesUp(j) => w.(servers := w.servers[j := Gone(w.servers[j].sock)])
    case ClientEnds(i) => w.(clients := w.clients[i := Ended(w.clients[i].sock)])
    case ServerEnds(j) => w.(servers := w.servers[j := Ended(w.servers[j].sock)])
    case LaterSegment(i, sent, taken, flags, window, data) =>
      w.(toServer := w.toServer + {SegmentOf(w.clients[i].sock, sent, taken, flags, window, data)})
  }

  /** A packet of a running connection that has sent `sent` and taken in `taken` bytes so far. */
  function SegmentOf(k: Socket, sent: nat, taken: nat, flags: Flags, window: Word16, data: seq<Byte>): Packet
  {
    Packet(Add32(Add32(k.snd.isn, 1), sent), Add32(Add32(k.rcv.foreignIsn, 1), taken), flags, window, data)
  }

  predicate IsHistory(w: World, es: seq<Event>, span: nat)
    decreases |es|
  {
    es == [] || (CanHappen(w, es[0], span) && IsHistory(After(w, es[0], span), es[1..], span))
  }

  function Outlook(w: World, es: seq<Event>, span: nat): World
    requires IsHistory(w, es, span)
    decreases |es|
  {
    if es == [] then w else Outlook(After(w, es[0], span), es[1..], span)
  }

  const QUIET := World([], [], {}, {})

  // ----- the invariant -------------------------------------------------------------------

  ghost predicate Asked(w: World, isn: Word32)
  {
    exists i :: 0 <= i < |w.clients| && w.clients[i].sock.snd.isn == isn
  }

  ghost predicate Answered(w: World, isn: Word32, foreignIsn: Word32)
  {
    exists j :: 0 <= j < |w.servers| && w.servers[j].sock.snd.isn == isn && w.servers[j].sock.rcv.foreignIsn == foreignIsn
  }

  predicate SpokenBy(c: Attempt, seqNum: Word32, ackNum: Word32, span: nat)
  {
    && Opened(c)
    && Sub32(seqNum, Add32(c.sock.snd.isn, 1)) <= span
    && Sub32(ackNum, Add32(c.sock.rcv.foreignIsn, 1)) <= span
  }

  ghost predicate Spoken(w: World, seqNum: Word32, ackNum: Word32, span: nat)
  {
    exists i :: 0 <= i < |w.clients| && SpokenBy(w.clients[i], seqNum, ackNum, span)
  }

  ghost predicate ToServerOk(w: World, p: Packet, span: nat)
  {
    && (p.flags == FLAG_SYN ==> Asked(w, p.seqNum))
    && (p.flags.ack ==> Spoken(w, p.seqNum, p.ackNum, span))
  }

  ghost predicate ToClientOk(w: World, p: Packet)
  {
    p.flags == FLAG_SYN_ACK ==> Answered(w, p.seqNum, Sub32(p.ackNum, 1))
  }

  predicate ReadyToTalk(k: Socket)
  {
    FreshSocket(Endpoint(k, [], [], map[], false), k.rcv.foreignIsn)
  }

  ghost predicate ClientOk(w: World, c: Attempt)
  {
    && (c.Waiting? ==> c.sock == MakeSocket(SynSent, c.sock.snd.isn, 0))
    && (Opened(c) ==> ReadyToTalk(c.sock) && Answered(w, c.sock.rcv.foreignIsn, c.sock.snd.isn))
  }

  ghost predicate ServerOk(w: World, v: Attempt, span: nat)
  {
    && Asked(w, v.sock.rcv.foreignIsn)
    && (v.Waiting? ==> v.sock == AcceptSocket(v.sock.snd.isn, v.sock.rcv.foreignIsn))
    && (Opened(v) && v.sock.connState == Established ==>
          ReadyToTalk(v.sock) && Spoken(w, Add32(v.sock.rcv.foreignIsn, 1), Add32(v.sock.snd.isn, 1), span))
  }

  ghost predicate Inv(w: World, span: nat)
  {
    && (forall p :: p in w.toServer ==> ToServerOk(w, p, span))
    && (forall p :: p in w.toClient ==> ToClientOk(w, p))
    && (forall i :: 0 <= i < |w.clients| ==> ClientOk(w, w.clients[i]))
    && (forall j :: 0 <= j < |w.servers| ==> ServerOk(w, w.servers[j], span))
  }

  /** No attempt is forgotten, no initial number changes, and an opened socket stays as returned. */
  ghost predicate Extends(w: World, w': World)
  {
    && |w.clients| <= |w'.clients| && |w.servers| <= |w'.servers|
    && (forall i :: 0 <= i < |w.clients| ==>
          && w'.clients[i].sock.snd.isn == w.clients[i].sock.snd.isn
          && (Opened(w.clients[i]) ==> Opened(w'.clients[i]) && w'.clients[i].sock == w.clients[i].sock))
    && (forall j :: 0 <= j < |w.servers| ==>
          && w'.servers[j].sock.snd.isn == w.servers[j].sock.snd.isn
          && w'.servers[j].sock.rcv.foreignIsn == w.servers[j].sock.rcv.foreignIsn)
  }

  lemma AfterExtends(w: World, e: Event, span: nat)
    requires CanHappen(w, e, span)
    ensures Extends(w, After(w, e, span))
  {
  }

  lemma EvidenceStays(w: World, w': World, span: nat)
    requires Extends(w, w')
    ensures forall isn :: Asked(w, isn) ==> Asked(w', isn)
    ensures forall isn, f :: Answered(w, isn, f) ==> Answered(w', isn, f)
    ensures forall a, b :: Spoken(w, a, b, span) ==> Spoken(w', a, b, span)
  {
    forall isn | Asked(w, isn) ensures Asked(w', isn) {
      var i :| 0 <= i < |w.clients| && w.clients[i].sock.snd.isn == isn;
      assert w'.clients[i].sock.snd.isn == isn;
    }
    forall isn, f | Answered(w, isn, f) ensures Answered(w', isn, f) {
      var j :| 0 <= j < |w.servers| && w.servers[j].sock.snd.isn == isn && w.servers[j].sock.rcv.foreignIsn == f;
      assert w'.servers[j].sock.snd.isn == isn;
    }
    forall a, b | Spoken(w, a, b, span) ensures Spoken(w', a, b, span) {
      var i :| 0 <= i < |w.clients| && SpokenBy(w.clients[i], a, b, span);
      assert SpokenBy(w'.clients[i], a, b, span);
    }
  }

  // ----- every event keeps the invariant ---------------------------------------------------

  /** What is old stays accounted for; only new packets and changed attempts need an argument. */
  lemma InvKept(w: World, w': World, span: nat)
    requires Inv(w, span) && Extends(w, w')
    requires forall p :: p in w'.toServer - w.toServer ==> ToServerOk(w', p, span)
    requires forall p :: p in w'.toClient - w.toClient ==> ToClientOk(w', p)
    requires forall i :: 0 <= i < |w'.clients| ==> (i < |w.clients| && w'.clients[i] == w.clients[i]) || ClientOk(w', w'.clients[i])
    requires forall j :: 0 <= j < |w'.servers| ==> (j < |w.servers| && w'.servers[j] == w.servers[j]) || ServerOk(w', w'.servers[j], span)
    ensures Inv(w', span)
  {
    EvidenceStays(w, w', span);
    forall p | p in w'.toServer ensures ToServerOk(w', p, span) {
      if p in w.toServer { assert ToServerOk(w, p, span); }
    }
    forall p | p in w'.toClient ensures ToClientOk(w', p) {
      if p in w.toClient { assert ToClientOk(w, p); }
    }
    forall i | 0 <= i < |w'.clients| ensures ClientOk(w', w'.clients[i]) {
      if i < |w.clients| { assert ClientOk(w, w.clients[i]); }
    }
    forall j | 0 <= j < |w'.servers| ensures ServerOk(w', w'.servers[j], span) {
      if j < |w.servers| { assert ServerOk(w, w.servers[j], span); }
    }
  }

  lemma InvStep(w: World, e: Event, span: nat)
    requires Inv(w, span) && CanHappen(w, e, span)
    ensures Inv(After(w, e, span), span)
  {
    AfterExtends(w, e, span);
    EvidenceStays(w, After(w, e, span), span);
    match e
    case Connect(isn) => ConnectKeeps(w, isn, span);
    case Accept(syn, isn) => AcceptKeeps(w, syn, isn, span);
    case ClientGets(i, p, ok) => ClientGetsKeeps(w, i, p, ok, span);
    case ServerGets(j, p) => ServerGetsKeeps(w, j, p, span);
    case ClientGivesUp(i) => InvKept(w, After(w, e, span), span);
    case ServerGivesUp(j) => ServerLeavesKeeps(w, e, j, span);
    case ClientEnds(i) => ClientEndsKeeps(w, i, span);
    case ServerEnds(j) => ServerLeavesKeeps(w, e, j, span);
    case LaterSegment(i, sent, taken, flags, window, data) => LaterSegmentKeeps(w, e, span);
  }

  lemma ConnectKeeps(w: World, isn: Word32, span: nat)
    requires Inv(w, span) && NoneLive(w.clients) && Extends(w, After(w, Connect(isn), span))
    ensures Inv(After(w, Connect(isn), span), span)
  {
    var w' := After(w, Connect(isn), span);
    assert w'.clients[|w.clients|].sock.snd.isn == isn;
    assert Asked(w', isn);
    InvKept(w, w', span);
  }

  lemma ClientEndsKeeps(w: World, i: nat, span: nat)
    requires Inv(w, span) && CanHappen(w, ClientEnds(i), span) && Extends(w, After(w, ClientEnds(i), span))
    requires forall isn, f :: Answered(w, isn, f) ==> Answered(After(w, ClientEnds(i), span), isn, f)
    ensures Inv(After(w, ClientEnds(i), span), span)
  {
    assert ClientOk(w, w.clients[i]);
    InvKept(w, After(w, ClientEnds(i), span), span);
  }

  lemma ServerLeavesKeeps(w: World, e: Event, j: nat, span: nat)
    requires Inv(w, span) && CanHappen(w, e, span) && Extends(w, After(w, e, span))
    requires e == ServerGivesUp(j) || e == ServerEnds(j)
    requires forall f :: Asked(w, f) ==> Asked(After(w, e, span), f)
    requires forall a, b :: Spoken(w, a, b, span) ==> Spoken(After(w, e, span), a, b, span)
    ensures Inv(After(w, e, span), span)
  {
    assert ServerOk(w, w.servers[j], span);
    InvKept(w, After(w, e, span), span);
  }

  lemma LaterSegmentKeeps(w: World, e: Event, span: nat)
    requires Inv(w, span) && e.LaterSegment? && CanHappen(w, e, span) && Extends(w, After(w, e, span))
    ensures Inv(After(w, e, span), span)
  {
    SegmentSpoken(w, After(w, e, span), e.i, e.sent, e.taken, e.flags, e.window, e.data, span);
    InvKept(w, After(w, e, span), span);
  }

  lemma SegmentSpoken(w: World, w': World, i: nat, sent: nat, taken: nat, flags: Flags, window: Word16, data: seq<Byte>, span: nat)
    requires CanHappen(w, LaterSegment(i, sent, taken, flags, window, data), span)
    requires w' == After(w, LaterSegment(i, sent, taken, flags, window, data), span)
    ensures ToServerOk(w', SegmentOf(w.clients[i].sock, sent, taken, flags, window, data), span)
  {
    var k := w.clients[i].sock;
    Advanced(Add32(k.snd.isn, 1), sent, span);
    Advanced(Add32(k.rcv.foreignIsn, 1), taken, span);
    var q := SegmentOf(k, sent, taken, flags, window, data);
    assert SpokenBy(w'.clients[i], q.seqNum, q.ackNum, span);
  }

  lemma Advanced(a: Word32, n: nat, span: nat)
    requires n <= span
    ensures Sub32(Add32(a, n), a) <= span
  {
    assert Sub32(Add32(a, n), a) == n % MOD32 by { ModCancel(a, n); }
    assert n % MOD32 <= n;
  }

  lemma ModCancel(a: int, n: int)
    ensures ((a + n) % MOD32 - a) % MOD32 == n % MOD32
  {
    var q := (a + n) / MOD32;
    assert (a + n) % MOD32 == a + n - q * MOD32;
    ModShifted(n, -q);
  }

  lemma ModShifted(n: int, q: int)
    ensures (n + q * MOD32) % MOD32 == n % MOD32
  {
  }

  /** Adding one and taking it away again, in raw numbers. */
  lemma OneMore(a: Word32, b: Word32)
    ensures Sub32(Add32(a, 1), 1) == a
    ensures Sub32(b, a) == 1 <==> b == Add32(a, 1)
    ensures Sub32(Add32(b, 1), Add32(a, 1)) == Sub32(b, a)
  {
    assert Add32(a, 1) == if a + 1 < MOD32 then a + 1 else 0;
    assert Add32(b, 1) == if b + 1 < MOD32 then b + 1 else 0;
    assert Sub32(b, a) == if a <= b then b - a else b - a + MOD32;
  }

  lemma AcceptKeeps(w: World, syn: Packet, isn: Word32, span: nat)
    requires Inv(w, span) && CanHappen(w, Accept(syn, isn), span) && Extends(w, After(w, Accept(syn, isn), span))
    requires forall f :: Asked(w, f) ==> Asked(After(w, Accept(syn, isn), span), f)
    ensures Inv(After(w, Accept(syn, isn), span), span)
  {
    var w' := After(w, Accept(syn, isn), span);
    assert ToServerOk(w, syn, span);
    OneMore(syn.seqNum, 0);
    assert w'.servers[|w.servers|].sock.snd.isn == isn;
    assert ServerOk(w', w'.servers[|w.servers|], span) && ToClientOk(w', SynAckPacket(syn, isn));
    InvKept(w, w', span);
  }

  lemma ClientGetsKeeps(w: World, i: nat, p: Packet, ok: bool, span: nat)
    requires Inv(w, span) && CanHappen(w, ClientGets(i, p, ok), span) && Extends(w, After(w, ClientGets(i, p, ok), span))
    requires forall isn, f :: Answered(w, isn, f) ==> Answered(After(w, ClientGets(i, p, ok), span), isn, f)
    ensures Inv(After(w, ClientGets(i, p, ok), span), span)
  {
    var w' := After(w, ClientGets(i, p, ok), span);
    assert ClientOk(w, w.clients[i]);
    if w'.clients[i].Running? {
      assert ToClientOk(w, p);
      OneMore(w.clients[i].sock.snd.isn, p.ackNum);
      var q := ConnectReply(p);
      assert SpokenBy(w'.clients[i], q.seqNum, q.ackNum, span);
      assert ToServerOk(w', q, span);
    }
    InvKept(w, w', span);
  }

  /** A server that took the last ack was spoken to; any other stays what it was. */
  lemma ServerGetsOk(w: World, w': World, v: Attempt, p: Packet, v': Attempt, span: nat)
    requires v.Waiting? && ServerOk(w, v, span) && ToServerOk(w, p, span)
    requires forall f :: Asked(w, f) ==> Asked(w', f)
    requires forall a, b :: Spoken(w, a, b, span) ==> Spoken(w', a, b, span)
    requires v' == match AcceptOutcome(v.sock, p) case Deleted => Gone(v.sock) case Returned(k) => Running(k)
    ensures ServerOk(w', v', span)
  {
    OneMore(v.sock.rcv.foreignIsn, p.seqNum);
    OneMore(v.sock.snd.isn, p.ackNum);
  }

  lemma ServerGetsKeeps(w: World, j: nat, p: Packet, span: nat)
    requires Inv(w, span) && CanHappen(w, ServerGets(j, p), span) && Extends(w, After(w, ServerGets(j, p), span))
    requires forall f :: Asked(w, f) ==> Asked(After(w, ServerGets(j, p), span), f)
    requires forall a, b :: Spoken(w, a, b, span) ==> Spoken(After(w, ServerGets(j, p), span), a, b, span)
    ensures Inv(After(w, ServerGets(j, p), span), span)
  {
    var w' := After(w, ServerGets(j, p), span);
    assert ServerOk(w, w.servers[j], span) && ToServerOk(w, p, span);
    ServerGetsOk(w, w', w.servers[j], p, w'.servers[j], span);
    InvKept(w, w', span);
  }

  lemma {:induction false} InvRun(w: World, es: seq<Event>, span: nat)
    requires Inv(w, span) && IsHistory(w, es, span)
    ensures Inv(Outlook(w, es, span), span)
    decreases |es|
  {
    if es == [] {
    } else {
      InvStep(w, es[0], span);
      InvRun(After(w, es[0], span), es[1..], span);
    }
  }

  // ----- agreement -----------------------------------------------------------------------

  /** Initial numbers of one side are equal or more than `span` apart. With span 0, where no
      connection has sent anything yet, this says nothing. */
  ghost predicate Spaced(attempts: seq<Attempt>, span: nat)
  {
    forall i, j :: 0 <= i < |attempts| && 0 <= j < |attempts| ==>
      attempts[i].sock.snd.isn == attempts[j].sock.snd.isn
      || Sub32(attempts[i].sock.snd.isn, attempts[j].sock.snd.isn) > span
  }

  lemma SpacedAtZero(attempts: seq<Attempt>)
    ensures Spaced(attempts, 0)
  {
  }

  predicate Agree(c: Attempt, v: Attempt)
  {
    Opened(c) && c.sock.rcv.foreignIsn == v.sock.snd.isn && v.sock.rcv.foreignIsn == c.sock.snd.isn
  }

  /** In every history, an ESTABLISHED server socket belongs to a client that completed its connect and
      recorded this server's initial number, the server recorded that client's, and both sockets are as
      the data phase finds them: nothing sent, next expected byte 1. */
  lemma HandshakeAgreement(es: seq<Event>, span: nat, j: nat) returns (i: nat)
    requires IsHistory(QUIET, es, span)
    requires Spaced(Outlook(QUIET, es, span).clients, span) && Spaced(Outlook(QUIET, es, span).servers, span)
    requires j < |Outlook(QUIET, es, span).servers|
    requires Opened(Outlook(QUIET, es, span).servers[j]) && Outlook(QUIET, es, span).servers[j].sock.connState == Established
    ensures i < |Outlook(QUIET, es, span).clients|
    ensures Agree(Outlook(QUIET, es, span).clients[i], Outlook(QUIET, es, span).servers[j])
    ensures ReadyToTalk(Outlook(QUIET, es, span).clients[i].sock) && ReadyToTalk(Outlook(QUIET, es, span).servers[j].sock)
  {
    InvRun(QUIET, es, span);
    i := FindClient(Outlook(QUIET, es, span), span, j);
  }

  lemma FindClient(w: World, span: nat, j: nat) returns (i: nat)
    requires Inv(w, span) && Spaced(w.clients, span) && Spaced(w.servers, span)
    requires j < |w.servers| && Opened(w.servers[j]) && w.servers[j].sock.connState == Established
    ensures i < |w.clients| && Agree(w.clients[i], w.servers[j])
    ensures ReadyToTalk(w.clients[i].sock) && ReadyToTalk(w.servers[j].sock)
  {
    var v := w.servers[j].sock;
    assert ServerOk(w, w.servers[j], span);
    i :| 0 <= i < |w.clients| && SpokenBy(w.clients[i], Add32(v.rcv.foreignIsn, 1), Add32(v.snd.isn, 1), span);
    var c := w.clients[i].sock;
    assert ClientOk(w, w.clients[i]);
    assert v.rcv.foreignIsn == c.snd.isn by {
      OneMore(c.snd.isn, v.rcv.foreignIsn);
      var i' :| 0 <= i' < |w.clients| && w.clients[i'].sock.snd.isn == v.rcv.foreignIsn;
    }
    assert c.rcv.foreignIsn == v.snd.isn by {
      OneMore(c.rcv.foreignIsn, v.snd.isn);
      var j' :| 0 <= j' < |w.servers| && w.servers[j'].sock.snd.isn == c.rcv.foreignIsn && w.servers[j'].sock.rcv.foreignIsn == c.snd.isn;
    }
  }

  /** The other direction of trust: a connect that returned found a server incarnation that answered it. */
  lemma ConnectAgreement(es: seq<Event>, span: nat, i: nat) returns (j: nat)
    requires IsHistory(QUIET, es, span)
    requires i < |Outlook(QUIET, es, span).clients| && Opened(Outlook(QUIET, es, span).clients[i])
    ensures j < |Outlook(QUIET, es, span).servers|
    ensures Agree(Outlook(QUIET, es, span).clients[i], Outlook(QUIET, es, span).servers[j])
  {
    var w := Outlook(QUIET, es, span);
    InvRun(QUIET, es, span);
    var c := w.clients[i].sock;
    assert ClientOk(w, w.clients[i]);
    j :| 0 <= j < |w.servers| && w.servers[j].sock.snd.isn == c.rcv.foreignIsn && w.servers[j].sock.rcv.foreignIsn == c.snd.isn;
  }

  /** What VAccept returns is ESTABLISHED exactly when the packet it took carries the ACK flag: a
      waiting incarnation that takes any other packet is returned half open. */
  lemma AcceptEstablishedIff(es: seq<Event>, span: nat, j: nat, p: Packet)
    requires IsHistory(QUIET, es, span) && CanHappen(Outlook(QUIET, es, span), ServerGets(j, p), span)
    ensures var k := AcceptOutcome(Outlook(QUIET, es, span).servers[j].sock, p);
            k.Returned? ==> (k.sock.connState == Established <==> p.flags.ack)
  {
    InvRun(QUIET, es, span);
    assert ServerOk(Outlook(QUIET, es, span), Outlook(QUIET, es, span).servers[j], span);
  }

  // ----- building histories ------------------------------------------------------------------

  lemma {:induction false} HistorySnoc(w: World, es: seq<Event>, e: Event, span: nat)
    requires IsHistory(w, es, span) && CanHappen(Outlook(w, es, span), e, span)
    ensures IsHistory(w, es + [e], span) && Outlook(w, es + [e], span) == After(Outlook(w, es, span), e, span)
    decreases |es|
  {
    if es == [] {
      assert es + [e] == [e];
      assert [e][1..] == [];
    } else {
      assert (es + [e])[1..] == es[1..] + [e];
      HistorySnoc(After(w, es[0], span), es[1..], e, span);
    }
  }

  /** No connection has gone on to send segments. */
  predicate HandshakeOnly(es: seq<Event>)
  {
    forall i :: 0 <= i < |es| ==> !es[i].LaterSegment?
  }

  /** Some history leads to w; if `quiet`, one of handshakes only. */
  ghost predicate Happens(w: World, span: nat, quiet: bool := false)
  {
    exists es :: IsHistory(QUIET, es, span) && Outlook(QUIET, es, span) == w && (quiet ==> HandshakeOnly(es))
  }

  lemma Begin(span: nat, quiet: bool := false)
    ensures Happens(QUIET, span, quiet)
  {
    assert IsHistory(QUIET, [], span) && Outlook(QUIET, [], span) == QUIET;
  }

  lemma Then(w: World, e: Event, w': World, span: nat, quiet: bool := false)
    requires Happens(w, span, quiet) && CanHappen(w, e, span) && After(w, e, span) == w' && (quiet ==> !e.LaterSegment?)
    ensures Happens(w', span, quiet)
  {
    var es :| IsHistory(QUIET, es, span) && Outlook(QUIET, es, span) == w && (quiet ==> HandshakeOnly(es));
    HistorySnoc(QUIET, es, e, span);
    assert quiet ==> HandshakeOnly(es + [e]);
  }

  /** A SYN delivered twice does that: the server runs while the client has heard nothing. */
  lemma RepeatedSynOpens(c: Word32, s: Word32) returns (w: World)
    ensures Happens(w, 0)
    ensures |w.servers| == 1 && w.servers[0].Running? && w.servers[0].sock.connState == SynSent
    ensures |w.clients| == 1 && w.clients[0].Waiting?
  {
    var syn := SynPacket(c);
    var w1 := After(QUIET, Connect(c), 0);
    var w2 := After(w1, Accept(syn, s), 0);
    w := After(w2, ServerGets(0, syn), 0);
    Begin(0);
    Then(QUIET, Connect(c), w1, 0);
    Then(w1, Accept(syn, s), w2, 0);
    Then(w2, ServerGets(0, syn), w, 0);
  }
}
