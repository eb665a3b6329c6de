/** How far apart initial numbers must be: a segment of an earlier connection can complete a handshake it does not
    belong to, exactly when the numbers of one side lie no farther apart than streams advance. */
module HandshakeSpacing {
  import opened TcpTypes
  import opened TcpSystem
  import opened TcpIntegrity
  import opened TcpRuns
  import opened Handshake

  /** All initial numbers come from these sets. */
  ghost predicate Numbered(w: World, cs: set<Word32>, ss: set<Word32>)
  {
    && (forall i :: 0 <= i < |w.clients| ==> w.clients[i].sock.snd.isn in cs)
    && (forall j :: 0 <= j < |w.servers| ==> w.servers[j].sock.snd.isn in ss)
  }

  /** Some client that connected and this server recorded each other's numbers. */
  ghost predicate Agreed(w: World, v: Attempt)
  {
    exists i :: 0 <= i < |w.clients| && Agree(w.clients[i], v)
  }

  ghost predicate AllAgreed(w: World)
  {
    forall j :: 0 <= j < |w.servers| && Opened(w.servers[j]) && w.servers[j].sock.connState == Established ==>
      Agreed(w, w.servers[j])
  }

  /** In every history with these numbers every ESTABLISHED server belongs to a client that agrees with it. */
  ghost predicate AlwaysAgree(cs: set<Word32>, ss: set<Word32>, span: nat)
  {
    forall w :: Happens(w, span) && Numbered(w, cs, ss) ==> AllAgreed(w)
  }

  /** Two numbers are equal or more than `span` apart. */
  ghost predicate SpacedSet(ns: set<Word32>, span: nat)
  {
    forall m, n :: m in ns && n in ns ==> m == n || Sub32(m, n) > span
  }

  // ----- spaced numbers agree --------------------------------------------------------------------

  lemma SpacedAgree(w: World, cs: set<Word32>, ss: set<Word32>, span: nat)
    requires SpacedSet(cs, span) && SpacedSet(ss, span) && Happens(w, span) && Numbered(w, cs, ss)
    ensures AllAgreed(w)
  {
    var es :| IsHistory(QUIET, es, span) && Outlook(QUIET, es, span) == w;
    forall j | 0 <= j < |w.servers| && Opened(w.servers[j]) && w.servers[j].sock.connState == Established
      ensures Agreed(w, w.servers[j])
    {
      var i := HandshakeAgreement(es, span, j);
    }
  }

  // ----- two that connect and talk -------------------------------------------------------------------

  function ClientSocket(isn: Word32, foreignIsn: Word32): Socket
  {
    FreshEnd(isn, foreignIsn, Add32(isn, 1)).sock
  }

  function ServerSocket(isn: Word32, foreignIsn: Word32): Socket
  {
    FreshEnd(isn, foreignIsn, 0).sock
  }

  function SynAck(a: Word32, x: Word32): Packet
  {
    SynAckPacket(SynPacket(a), x)
  }

  /** An ack of the connection between client a and server x, after `sent` bytes one way and `taken` the other. */
  function Segment(a: Word32, x: Word32, sent: nat, taken: nat): Packet
  {
    SegmentOf(ClientSocket(a, x), sent, taken, FLAG_ACK, BUFFER_SIZE, [])
  }

  /** Client a and server x have connected, and the client has sent that segment. */
  function Talked(a: Word32, x: Word32, sent: nat, taken: nat): World
  {
    World([Running(ClientSocket(a, x))], [Running(ServerSocket(x, a))],
          {SynPacket(a), ConnectReply(SynAck(a, x)), Segment(a, x, sent, taken)}, {SynAck(a, x)})
  }

  /** The client has connected, and its reply is on the way to the server. */
  function HalfMet(a: Word32, x: Word32): World
  {
    World([Running(ClientSocket(a, x))], [Waiting(AcceptSocket(x, a))],
          {SynPacket(a), ConnectReply(SynAck(a, x))}, {SynAck(a, x)})
  }

  lemma ClientConnects(a: Word32, x: Word32, span: nat, quiet: bool := false)
    ensures Happens(HalfMet(a, x), span, quiet)
  {
    var c, v := Waiting(MakeSocket(SynSent, a, 0)), Waiting(AcceptSocket(x, a));
    var syn, sa := SynPacket(a), SynAck(a, x);
    var w1, w2 := World([c], [], {syn}, {}), World([c], [v], {syn}, {sa});
    OneMore(a, sa.ackNum);
    Begin(span, quiet);
    Then(QUIET, Connect(a), w1, span, quiet);
    Then(w1, Accept(syn, x), w2, span, quiet);
    Then(w2, ClientGets(0, sa, true), HalfMet(a, x), span, quiet);
  }

  lemma TheyTalk(a: Word32, x: Word32, sent: nat, taken: nat, span: nat)
    requires sent <= span && taken <= span
    ensures Happens(Talked(a, x, sent, taken), span)
  {
    var w := HalfMet(a, x).(servers := [Running(ServerSocket(x, a))]);
    var re := ConnectReply(SynAck(a, x));
    ClientConnects(a, x, span);
    OneMore(a, re.seqNum);
    OneMore(x, re.ackNum);
    Then(HalfMet(a, x), ServerGets(0, re), w, span);
    Then(w, LaterSegment(0, sent, taken, FLAG_ACK, BUFFER_SIZE, []), Talked(a, x, sent, taken), span);
  }

  lemma Shift(a: Word32, b: Word32, d: nat)
    requires d == Sub32(b, a)
    ensures Add32(Add32(a, 1), d) == Add32(b, 1) && Add32(Add32(a, 1), 0) == Add32(a, 1)
  {
  }

  // ----- clients' numbers too close ------------------------------------------------------------------

  /** Both programs are started anew; the next client only asks, and the segment of the first completes the handshake. */
  function ClientsConfused(a: Word32, b: Word32, x: Word32, p: Packet): World
  {
    World([Ended(ClientSocket(a, x)), Waiting(MakeSocket(SynSent, b, 0))],
          [Ended(ServerSocket(x, a)), Running(ServerSocket(x, b))],
          {SynPacket(a), ConnectReply(SynAck(a, x)), p, SynPacket(b)}, {SynAck(a, x), SynAck(b, x)})
  }

  lemma CloseClients(a: Word32, b: Word32, x: Word32, span: nat)
    requires a != b && Sub32(b, a) <= span
    ensures exists w :: Happens(w, span) && Numbered(w, {a, b}, {x}) && !AllAgreed(w)
  {
    var d := Sub32(b, a);
    var p := Segment(a, x, d, 0);
    TheyTalk(a, x, d, 0, span);
    ClientsGetConfused(a, b, x, p, d, span);
    var w := ClientsConfused(a, b, x, p);
    assert !Agreed(w, w.servers[1]);
  }

  function BothEnded(a: Word32, x: Word32, d: nat): World
  {
    Talked(a, x, d, 0).(clients := [Ended(ClientSocket(a, x))], servers := [Ended(ServerSocket(x, a))])
  }

  lemma BothEnd(a: Word32, x: Word32, d: nat, span: nat)
    requires Happens(Talked(a, x, d, 0), span)
    ensures Happens(BothEnded(a, x, d), span)
  {
    var w := Talked(a, x, d, 0).(servers := [Ended(ServerSocket(x, a))]);
    Then(Talked(a, x, d, 0), ServerEnds(0), w, span);
    Then(w, ClientEnds(0), BothEnded(a, x, d), span);
  }

  lemma ClientsGetConfused(a: Word32, b: Word32, x: Word32, p: Packet, d: nat, span: nat)
    requires d == Sub32(b, a) && p == Segment(a, x, d, 0) && Happens(Talked(a, x, d, 0), span)
    ensures Happens(ClientsConfused(a, b, x, p), span)
  {
    var w := ClientsConfused(a, b, x, p);
    var w8 := BothEnded(a, x, d).(clients := w.clients, toServer := w.toServer);
    var w9 := w.(servers := [w.servers[0], Waiting(AcceptSocket(x, b))]);
    BothEnd(a, x, d, span);
    Then(BothEnded(a, x, d), Connect(b), w8, span);
    Then(w8, Accept(SynPacket(b), x), w9, span);
    Shift(a, b, d);
    Shift(x, x, 0);
    OneMore(b, p.seqNum);
    OneMore(x, p.ackNum);
    Then(w9, ServerGets(1, p), w, span);
  }

  // ----- servers' numbers too close ------------------------------------------------------------------

  /** The server's program is started anew; a repeated SYN opens it, and a segment of the client, which still talks
      to the first server, completes the handshake. */
  function ServersConfused(a: Word32, x: Word32, y: Word32, p: Packet): World
  {
    World([Running(ClientSocket(a, x))], [Ended(ServerSocket(x, a)), Running(ServerSocket(y, a))],
          {SynPacket(a), ConnectReply(SynAck(a, x)), p}, {SynAck(a, x), SynAck(a, y)})
  }

  lemma CloseServers(a: Word32, x: Word32, y: Word32, span: nat)
    requires x != y && Sub32(y, x) <= span
    ensures exists w :: Happens(w, span) && Numbered(w, {a}, {x, y}) && !AllAgreed(w)
  {
    var d := Sub32(y, x);
    var p := Segment(a, x, 0, d);
    TheyTalk(a, x, 0, d, span);
    ServersGetConfused(a, x, y, p, d, span);
    var w := ServersConfused(a, x, y, p);
    assert !Agreed(w, w.servers[1]);
  }

  lemma ServersGetConfused(a: Word32, x: Word32, y: Word32, p: Packet, d: nat, span: nat)
    requires d == Sub32(y, x) && p == Segment(a, x, 0, d) && Happens(Talked(a, x, 0, d), span)
    ensures Happens(ServersConfused(a, x, y, p), span)
  {
    var c, v, v1 := Running(ClientSocket(a, x)), Ended(ServerSocket(x, a)), Waiting(AcceptSocket(y, a));
    var syn, sa, re := SynPacket(a), SynAck(a, x), ConnectReply(SynAck(a, x));
    var w6, w7 := World([c], [v], {syn, re, p}, {sa}), World([c], [v, v1], {syn, re, p}, {sa, SynAck(a, y)});
    Then(Talked(a, x, 0, d), ServerEnds(0), w6, span);
    Then(w6, Accept(syn, y), w7, span);
    Shift(x, y, d);
    Shift(a, a, 0);
    OneMore(a, p.seqNum);
    OneMore(y, p.ackNum);
    Then(w7, ServerGets(1, p), ServersConfused(a, x, y, p), span);
  }

  // ----- exactly when ------------------------------------------------------------------------------------

  lemma NotSpaced(ns: set<Word32>, span: nat) returns (m: Word32, n: Word32)
    requires !SpacedSet(ns, span)
    ensures m in ns && n in ns && m != n && Sub32(n, m) <= span
  {
    n, m :| n in ns && m in ns && n != m && Sub32(n, m) <= span;
  }

  /** Whatever numbers the programs draw from, and however far streams advance: every ESTABLISHED server agrees with a
      client in every history if and only if on each side numbers are equal or farther apart than that. */
  lemma AgreementIff(cs: set<Word32>, ss: set<Word32>, span: nat)
    requires cs != {} && ss != {}
    ensures AlwaysAgree(cs, ss, span) <==> SpacedSet(cs, span) && SpacedSet(ss, span)
  {
    if SpacedSet(cs, span) && SpacedSet(ss, span) {
      forall w | Happens(w, span) && Numbered(w, cs, ss) ensures AllAgreed(w) { SpacedAgree(w, cs, ss, span); }
    } else if !SpacedSet(cs, span) {
      var a, b := NotSpaced(cs, span);
      var x :| x in ss;
      CloseClients(a, b, x, span);
    } else {
      var x, y := NotSpaced(ss, span);
      var a :| a in cs;
      CloseServers(a, x, y, span);
    }
  }
}
