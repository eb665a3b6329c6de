/** From the handshake to the data phase: what the network still holds when two sockets begin to talk, and
    what a reply of another attempt does to them. */
module HandshakeNetwork {
  import opened TcpTypes
  import opened TcpSteps
  import opened TcpReassembly
  import opened TcpSending
  import opened TcpSystem
  import opened TcpIntegrity
  import opened TcpRuns
  import opened Handshake
  import opened HandshakeSpacing

  // ----- what the network holds ----------------------------------------------------------------

  function ReplyOf(k: Socket): Packet
  {
    Packet(Add32(k.snd.isn, 1), Add32(k.rcv.foreignIsn, 1), FLAG_ACK, BUFFER_SIZE, [])
  }

  ghost predicate SynOrReply(w: World, p: Packet)
  {
    p.flags == FLAG_SYN || exists i :: 0 <= i < |w.clients| && Opened(w.clients[i]) && p == ReplyOf(w.clients[i].sock)
  }

  /** Toward the server only SYNs and replies, each reply that of a client that connected and each such client
      with its reply; toward the client only SYN-ACKs. */
  ghost predicate Traced(w: World)
  {
    && (forall p :: p in w.toServer ==> SynOrReply(w, p))
    && (forall i :: 0 <= i < |w.clients| && Opened(w.clients[i]) ==> ReplyOf(w.clients[i].sock) in w.toServer)
    && (forall p :: p in w.toClient ==> p.flags == FLAG_SYN_ACK)
  }

  /** What is old stays traced; only new packets and newly connected clients need an argument. */
  lemma TracedKept(w: World, w': World)
    requires Traced(w) && Extends(w, w') && w.toServer <= w'.toServer
    requires forall p :: p in w'.toServer - w.toServer ==> SynOrReply(w', p)
    requires forall p :: p in w'.toClient - w.toClient ==> p.flags == FLAG_SYN_ACK
    requires forall i :: 0 <= i < |w'.clients| && Opened(w'.clients[i]) ==>
               (i < |w.clients| && Opened(w.clients[i])) || ReplyOf(w'.clients[i].sock) in w'.toServer
    ensures Traced(w')
  {
    forall p | p in w'.toServer ensures SynOrReply(w', p) {
      if p in w.toServer && p.flags != FLAG_SYN {
        assert SynOrReply(w, p);
        var i :| 0 <= i < |w.clients| && Opened(w.clients[i]) && p == ReplyOf(w.clients[i].sock);
        assert Opened(w'.clients[i]) && w'.clients[i].sock == w.clients[i].sock;
      }
    }
  }

  lemma TracedStep(w: World, e: Event, span: nat)
    requires Traced(w) && Inv(w, span) && CanHappen(w, e, span) && !e.LaterSegment?
    ensures Traced(After(w, e, span))
  {
    AfterExtends(w, e, span);
    if e.ClientGets? { TracedConnect(w, e.i, e.p, e.checksumOk, span); } else { TracedOther(w, e, span); }
  }

  lemma TracedOther(w: World, e: Event, span: nat)
    requires Traced(w) && CanHappen(w, e, span) && !e.LaterSegment? && !e.ClientGets? && Extends(w, After(w, e, span))
    ensures Traced(After(w, e, span))
  {
    TracedKept(w, After(w, e, span));
  }

  lemma TracedConnect(w: World, i: nat, p: Packet, ok: bool, span: nat)
    requires Traced(w) && Inv(w, span) && CanHappen(w, ClientGets(i, p, ok), span)
    requires Extends(w, After(w, ClientGets(i, p, ok), span))
    ensures Traced(After(w, ClientGets(i, p, ok), span))
  {
    var w' := After(w, ClientGets(i, p, ok), span);
    if w'.clients[i].Running? {
      ConnectsTraced(w, w', i, p, ok, span);
      ReplyTraced(w, w', i);
    } else {
      TracedKept(w, w');
    }
  }

  lemma ReplyTraced(w: World, w': World, i: nat)
    requires Traced(w) && Extends(w, w') && i < |w.clients| == |w'.clients| && w'.clients[i].Running?
    requires w'.clients == w.clients[i := w'.clients[i]] && w'.toClient == w.toClient
    requires w'.toServer == w.toServer + {ReplyOf(w'.clients[i].sock)}
    ensures Traced(w')
  {
    assert SynOrReply(w', ReplyOf(w'.clients[i].sock));
    TracedKept(w, w');
  }

  lemma ConnectsTraced(w: World, w': World, i: nat, p: Packet, ok: bool, span: nat)
    requires Inv(w, span) && CanHappen(w, ClientGets(i, p, ok), span) && w' == After(w, ClientGets(i, p, ok), span)
    requires w'.clients[i].Running?
    ensures ConnectReply(p) == ReplyOf(w'.clients[i].sock)
  {
    assert ClientOk(w, w.clients[i]);
    OneMore(w.clients[i].sock.snd.isn, p.ackNum);
  }

  /** An accepted connection starts with the reply's window and with no ack recorded. */
  predicate ServerOpen(v: Attempt)
  {
    Opened(v) && v.sock.connState == Established ==> v.sock == ServerSocket(v.sock.snd.isn, v.sock.rcv.foreignIsn)
  }

  ghost predicate ServersOpen(w: World)
  {
    forall j :: 0 <= j < |w.servers| ==> ServerOpen(w.servers[j])
  }

  lemma ReplyOpens(k: Socket, p: Packet)
    requires k == AcceptSocket(k.snd.isn, k.rcv.foreignIsn) && (p.flags.ack ==> p.window == BUFFER_SIZE)
    ensures AcceptOutcome(k, p).Returned? ==> ServerOpen(Running(AcceptOutcome(k, p).sock))
  {
  }

  lemma RepliesOpenWide(w: World, p: Packet)
    requires Traced(w) && p in w.toServer
    ensures p.flags.ack ==> p.window == BUFFER_SIZE
  {
    assert SynOrReply(w, p);
  }

  lemma WaitingServer(w: World, j: nat, span: nat)
    requires Inv(w, span) && j < |w.servers| && w.servers[j].Waiting?
    ensures w.servers[j].sock == AcceptSocket(w.servers[j].sock.snd.isn, w.servers[j].sock.rcv.foreignIsn)
  {
    assert ServerOk(w, w.servers[j], span);
  }

  lemma OneServerChanged(w: World, w': World, j: nat)
    requires ServersOpen(w) && j < |w.servers| == |w'.servers| && w'.servers == w.servers[j := w'.servers[j]]
    requires ServerOpen(w'.servers[j])
    ensures ServersOpen(w')
  {
  }

  lemma ServerGetsOpen(w: World, j: nat, p: Packet, span: nat)
    requires Traced(w) && Inv(w, span) && ServersOpen(w) && CanHappen(w, ServerGets(j, p), span)
    ensures ServersOpen(After(w, ServerGets(j, p), span))
  {
    WaitingServer(w, j, span);
    RepliesOpenWide(w, p);
    ReplyOpens(w.servers[j].sock, p);
    OneServerChanged(w, After(w, ServerGets(j, p), span), j);
  }

  lemma ServersOpenStep(w: World, e: Event, span: nat)
    requires Traced(w) && Inv(w, span) && ServersOpen(w) && CanHappen(w, e, span) && !e.LaterSegment?
    ensures ServersOpen(After(w, e, span))
  {
    if e.ServerGets? { ServerGetsOpen(w, e.j, e.p, span); }
  }

  lemma {:induction false} TracedRun(w: World, es: seq<Event>, span: nat)
    requires Traced(w) && Inv(w, span) && ServersOpen(w) && IsHistory(w, es, span) && HandshakeOnly(es)
    ensures Traced(Outlook(w, es, span)) && ServersOpen(Outlook(w, es, span)) && Inv(Outlook(w, es, span), span)
    decreases |es|
  {
    if es != [] {
      TracedStep(w, es[0], span);
      ServersOpenStep(w, es[0], span);
      InvStep(w, es[0], span);
      TracedRun(After(w, es[0], span), es[1..], span);
    }
  }

  // ----- two sockets meet ----------------------------------------------------------------------

  function Fresh(k: Socket): Endpoint
  {
    Endpoint(k, [], [], map[], false)
  }

  /** Two running sockets that recorded each other's initial numbers. */
  predicate Met(w: World, i: nat, j: nat)
  {
    && i < |w.clients| && j < |w.servers| && w.clients[i].Running? && w.servers[j].Running?
    && w.servers[j].sock.connState == Established && Agree(w.clients[i], w.servers[j])
  }

  /** The pair with the network as the handshakes left it. */
  function Meeting(w: World, i: nat, j: nat): System
    requires i < |w.clients| && j < |w.servers|
  {
    System(Fresh(w.clients[i].sock), Fresh(w.servers[j].sock), w.toServer, w.toClient)
  }

  /** The reply of every client that ever connected is harmless to a server with this initial number. */
  ghost predicate RepliesHarmless(w: World, isn: Word32)
  {
    forall k :: 0 <= k < |w.clients| && Opened(w.clients[k]) ==> Harmless(ReplyOf(w.clients[k].sock).ackNum, isn)
  }

  lemma RepliesFit(w: World, isn: Word32)
    requires Traced(w)
    ensures HandshakePackets(w.toServer, isn) <==> RepliesHarmless(w, isn)
  {
    if RepliesHarmless(w, isn) {
      forall p | p in w.toServer
        ensures !p.flags.fin && (p.flags == FLAG_ACK ==> p.data == [] && Harmless(p.ackNum, isn))
      {
        assert SynOrReply(w, p);
      }
    }
    if HandshakePackets(w.toServer, isn) {
      forall k | 0 <= k < |w.clients| && Opened(w.clients[k]) ensures Harmless(ReplyOf(w.clients[k].sock).ackNum, isn) {
        assert ReplyOf(w.clients[k].sock) in w.toServer;
      }
    }
  }

  /** Every byte that has left an in-flight list was received by the peer. */
  predicate KeepsUnreceived(f: System)
  {
    Removed(f.a.sock.snd) <= f.b.sock.rcv.expected - 1 && Removed(f.b.sock.snd) <= f.a.sock.rcv.expected - 1
  }

  /** No short run discards a byte before it is received. */
  ghost predicate NeverDiscards(s: System)
  {
    forall steps :: IsRun(s, steps) && Short(Final(s, steps)) ==> KeepsUnreceived(Final(s, steps))
  }

  lemma StartNeverDiscards(s: System)
    requires Start(s)
    ensures NeverDiscards(s)
  {
    forall steps | IsRun(s, steps) && Short(Final(s, steps)) ensures KeepsUnreceived(Final(s, steps)) {
      NoEarlyDiscard(s, steps, true);
      NoEarlyDiscard(s, steps, false);
    }
  }

  /** After any handshakes between these ports, two sockets that met never discard a byte too early if and only if
      the reply of every connect that ever returned acks no more than the SYN of this server, or is the raw
      number 0. Exactly then they are a start state of the data phase, for which all other theorems hold. */
  lemma MeetingSafeIff(es: seq<Event>, i: nat, j: nat)
    requires IsHistory(QUIET, es, 0) && HandshakeOnly(es) && Met(Outlook(QUIET, es, 0), i, j)
    ensures var w := Outlook(QUIET, es, 0);
            && (NeverDiscards(Meeting(w, i, j)) <==> RepliesHarmless(w, w.servers[j].sock.snd.isn))
            && (Start(Meeting(w, i, j)) <==> RepliesHarmless(w, w.servers[j].sock.snd.isn))
  {
    var w := Outlook(QUIET, es, 0);
    TracedRun(QUIET, es, 0);
    MeetingStarts(w, i, j);
    if RepliesHarmless(w, w.servers[j].sock.snd.isn) {
      StartNeverDiscards(Meeting(w, i, j));
    } else {
      HarmfulMeeting(w, i, j);
    }
  }

  lemma MetFacts(w: World, i: nat, j: nat)
    requires ServersOpen(w) && Inv(w, 0) && Met(w, i, j)
    ensures ReadyToTalk(w.clients[i].sock)
    ensures w.servers[j].sock == ServerSocket(w.clients[i].sock.rcv.foreignIsn, w.clients[i].sock.snd.isn)
  {
    assert ClientOk(w, w.clients[i]) && ServerOpen(w.servers[j]);
  }

  lemma PairStarts(a: Socket, b: Socket, toServer: set<Packet>, toClient: set<Packet>)
    requires ReadyToTalk(a) && b == ServerSocket(a.rcv.foreignIsn, a.snd.isn)
    requires forall p :: p in toClient ==> p.flags == FLAG_SYN_ACK
    ensures Start(System(Fresh(a), Fresh(b), toServer, toClient)) <==> HandshakePackets(toServer, b.snd.isn)
  {
  }

  lemma MeetingStarts(w: World, i: nat, j: nat)
    requires Traced(w) && ServersOpen(w) && Inv(w, 0) && Met(w, i, j)
    ensures Start(Meeting(w, i, j)) <==> RepliesHarmless(w, w.servers[j].sock.snd.isn)
  {
    RepliesFit(w, w.servers[j].sock.snd.isn);
    MetFacts(w, i, j);
    PairStarts(w.clients[i].sock, w.servers[j].sock, w.toServer, w.toClient);
  }

  /** One client's reply is the one the server took; with it alone the pair is safe. */
  lemma OneClientIsSafe(es: seq<Event>, i: nat, j: nat)
    requires IsHistory(QUIET, es, 0) && HandshakeOnly(es) && Met(Outlook(QUIET, es, 0), i, j)
    requires |Outlook(QUIET, es, 0).clients| == 1
    ensures Start(Meeting(Outlook(QUIET, es, 0), i, j))
  {
    MeetingSafeIff(es, i, j);
    var w := Outlook(QUIET, es, 0);
    RelOfRaw(w.servers[j].sock.snd.isn, 1);
  }

  // ----- a harmful reply -------------------------------------------------------------------------

  function Discarded(n: Word32, c: Word32, ackNum: Word32): Endpoint
  {
    WithSocket(ByteListed(n, c), Established, Sender(n, 1, [], [], MOD32 - 1, ackNum, BUFFER_SIZE, Pushed(1, [])))
  }

  lemma ServerHears(n: Word32, c: Word32, p: Packet, inbox: set<Packet>)
    requires p in inbox && p.flags == FLAG_ACK && p.data == [] && p.window == BUFFER_SIZE && !Harmless(p.ackNum, n)
    ensures Enabled(ByteListed(n, c), inbox, Deliver(p, true))
    ensures Act(ByteListed(n, c), inbox, Deliver(p, true)) == Outcome(Discarded(n, c, p.ackNum), {})
  {
    var it := Item(1, BytePacket(n, c));
    var rel := Sub32(p.ackNum, n);
    assert [it][1..] == [];
    assert AckLoop(Established, [], Sub32(0, 1), rel) == AckResult(Established, [], MOD32 - 1, false);
    assert AckLoop(Established, [it], 0, rel) == AckResult(Established, [], MOD32 - 1, false);
  }

  /** The handler does not ask whether an ack covers bytes never sent. So the server sends a byte, a harmful reply
      arrives, and the byte is off its list while the client has received nothing. */
  lemma HarmfulReply(s: System, n: Word32, c: Word32, p: Packet) returns (steps: seq<Step>)
    requires s.b == FreshEnd(n, c, 0) && p in s.fromA
    requires p.flags == FLAG_ACK && p.data == [] && p.window == BUFFER_SIZE && !Harmless(p.ackNum, n)
    ensures IsRun(s, steps) && Final(s, steps).a == s.a && Final(s, steps).b == Discarded(n, c, p.ackNum)
  {
    var byte, inn := BytePacket(n, c), s.fromB + {BytePacket(n, c)};
    var s1, s2 := s.(b := ByteWritten(n, c)), s.(b := ByteBurst(n, c));
    var s3, s4 := s.(b := ByteSent(n, c), fromB := inn), s.(b := ByteListed(n, c), fromB := inn);
    var f := s.(b := Discarded(n, c, p.ackNum), fromB := inn);
    Stay(s);
    WritesByte(n, s.fromA, c);
    MoveB(s, s, Write([5]), {}, s1);
    MoveB(s, s1, StartBurst, {}, s2);
    SendsByte(n, s.fromA, c);
    MoveB(s, s2, SendNext, {byte}, s3);
    MoveB(s, s3, PushItem, {}, s4);
    ServerHears(n, c, p, s.fromA);
    MoveB(s, s4, Deliver(p, true), {}, f);
    steps := Unfold(s, f);
  }

  /** The server has discarded the one byte handed to it, and the client has received nothing. */
  predicate ByteLost(f: System)
  {
    Short(f) && f.b.accepted == [5] && Removed(f.b.sock.snd) == 1 && f.a.sock.rcv.expected == 1 && Got(f.a) == []
  }

  lemma DiscardRun(w: World, i: nat, j: nat, k: nat) returns (steps: seq<Step>)
    requires Traced(w) && ServersOpen(w) && Inv(w, 0) && Met(w, i, j) && k < |w.clients| && Opened(w.clients[k])
    requires !Harmless(ReplyOf(w.clients[k].sock).ackNum, w.servers[j].sock.snd.isn)
    ensures IsRun(Meeting(w, i, j), steps) && ByteLost(Final(Meeting(w, i, j), steps))
  {
    var p := ReplyOf(w.clients[k].sock);
    assert p in w.toServer;
    MetFacts(w, i, j);
    steps := DiscardPair(w.clients[i].sock, w.servers[j].sock, w.toServer, w.toClient, p);
  }

  lemma DiscardPair(a: Socket, b: Socket, toServer: set<Packet>, toClient: set<Packet>, p: Packet)
    returns (steps: seq<Step>)
    requires ReadyToTalk(a) && b == ServerSocket(a.rcv.foreignIsn, a.snd.isn) && p in toServer
    requires p.flags == FLAG_ACK && p.data == [] && p.window == BUFFER_SIZE && !Harmless(p.ackNum, b.snd.isn)
    ensures IsRun(System(Fresh(a), Fresh(b), toServer, toClient), steps)
    ensures ByteLost(Final(System(Fresh(a), Fresh(b), toServer, toClient), steps))
  {
    steps := HarmfulReply(System(Fresh(a), Fresh(b), toServer, toClient), b.snd.isn, b.rcv.foreignIsn, p);
  }

  lemma HarmfulMeeting(w: World, i: nat, j: nat)
    requires Traced(w) && ServersOpen(w) && Inv(w, 0) && Met(w, i, j)
    requires !RepliesHarmless(w, w.servers[j].sock.snd.isn)
    ensures !NeverDiscards(Meeting(w, i, j))
  {
    var isn := w.servers[j].sock.snd.isn;
    var k :| 0 <= k < |w.clients| && Opened(w.clients[k]) && !Harmless(ReplyOf(w.clients[k].sock).ackNum, isn);
    var steps := DiscardRun(w, i, j, k);
    assert !KeepsUnreceived(Final(Meeting(w, i, j), steps));
  }

  // ----- such a history --------------------------------------------------------------------------

  const SYN1 := SynPacket(100)
  const SYN2 := SynPacket(200)
  const SYN_ACK1 := SynAckPacket(SYN1, 11)
  const SYN_ACK2 := SynAckPacket(SYN2, 10)
  const REPLY1 := ConnectReply(SYN_ACK1)
  const REPLY2 := ConnectReply(SYN_ACK2)

  /** One client has connected and ended, its server gave up before the reply arrived. */
  function Restarted(): World
  {
    World([Ended(ClientSocket(100, 11))], [Gone(AcceptSocket(11, 100))], {SYN1, REPLY1}, {SYN_ACK1})
  }

  /** The next client and the next server have met; the first client's reply is still under way. */
  function Crowded(): World
  {
    World([Ended(ClientSocket(100, 11)), Running(ClientSocket(200, 10))],
          [Gone(AcceptSocket(11, 100)), Running(ServerSocket(10, 200))],
          {SYN1, REPLY1, SYN2, REPLY2}, {SYN_ACK1, SYN_ACK2})
  }

  /** The server's wait of 10 ms runs out while the reply is under way. Then the client's program is started anew
      and hands out its ports from 2000 on again. */
  lemma FirstAttempt()
    ensures Happens(Restarted(), 0, true)
  {
    var w := HalfMet(100, 11).(servers := [Gone(AcceptSocket(11, 100))]);
    ClientConnects(100, 11, 0, true);
    Then(HalfMet(100, 11), ServerGivesUp(0), w, 0, true);
    Then(w, ClientEnds(0), Restarted(), 0, true);
  }

  /** The next client has asked and the next server has answered. */
  function AskedAgain(): World
  {
    World([Ended(ClientSocket(100, 11)), Waiting(MakeSocket(SynSent, 200, 0))],
          [Gone(AcceptSocket(11, 100)), Waiting(AcceptSocket(10, 200))],
          {SYN1, REPLY1, SYN2}, {SYN_ACK1, SYN_ACK2})
  }

  lemma SecondAttempt()
    requires Happens(Restarted(), 0, true)
    ensures Happens(AskedAgain(), 0, true)
  {
    var w := AskedAgain().(servers := Restarted().servers, toClient := Restarted().toClient);
    Then(Restarted(), Connect(200), w, 0, true);
    Then(w, Accept(SYN2, 10), AskedAgain(), 0, true);
  }

  lemma SecondMeets()
    requires Happens(AskedAgain(), 0, true)
    ensures Happens(Crowded(), 0, true)
  {
    var w := Crowded().(servers := AskedAgain().servers);
    Then(AskedAgain(), ClientGets(1, SYN_ACK2, true), w, 0, true);
    Then(w, ServerGets(1, REPLY2), Crowded(), 0, true);
  }

  /** What the condition keeps out. After this history, in which a client's program is started anew, and this run
      the server has discarded its byte, and the client it agreed with has received nothing. */
  lemma StaleReplyDiscards() returns (es: seq<Event>, steps: seq<Step>)
    ensures IsHistory(QUIET, es, 0) && HandshakeOnly(es) && Met(Outlook(QUIET, es, 0), 1, 1)
    ensures IsRun(Meeting(Outlook(QUIET, es, 0), 1, 1), steps)
    ensures ByteLost(Final(Meeting(Outlook(QUIET, es, 0), 1, 1), steps))
  {
    FirstAttempt();
    SecondAttempt();
    SecondMeets();
    es :| IsHistory(QUIET, es, 0) && Outlook(QUIET, es, 0) == Crowded() && HandshakeOnly(es);
    var s := Meeting(Crowded(), 1, 1);
    steps := DiscardPair(s.a.sock, s.b.sock, s.fromA, s.fromB, REPLY1);
  }
}
