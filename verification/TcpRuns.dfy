/** Runs of two sockets that show what the theorems over all runs exclude or leave open. */
module TcpRuns {
  import opened TcpTypes
  import opened TcpSteps
  import opened TcpReassembly
  import opened TcpSending
  import opened TcpSystem
  import opened TcpIntegrity

  // ----- building runs ------------------------------------------------------------------

  lemma {:induction false} Snoc(s: System, steps: seq<Step>, st: Step)
    requires IsRun(s, steps) && CanStep(Final(s, steps), st)
    ensures IsRun(s, steps + [st]) && Final(s, steps + [st]) == Next(Final(s, steps), st)
    decreases |steps|
  {
    if steps == [] {
      assert steps + [st] == [st];
      assert [st][1..] == [];
    } else {
      assert (steps + [st])[1..] == steps[1..] + [st];
      Snoc(Next(s, steps[0]), steps[1..], st);
    }
  }

  ghost predicate Reaches(s: System, f: System)
  {
    exists steps :: IsRun(s, steps) && Final(s, steps) == f
  }

  lemma Stay(s: System)
    ensures Reaches(s, s)
  {
    assert IsRun(s, []) && Final(s, []) == s;
  }

  /** Side a acts, sends `out`, and the system becomes f. */
  lemma MoveA(s: System, m: System, act: Action, out: set<Packet>, f: System)
    requires Reaches(s, m) && Enabled(m.a, m.fromB, act) && Act(m.a, m.fromB, act) == Outcome(f.a, out)
    requires f.b == m.b && f.fromB == m.fromB && f.fromA == m.fromA + out
    ensures Reaches(s, f)
  {
    var steps :| IsRun(s, steps) && Final(s, steps) == m;
    Snoc(s, steps, Step(true, act));
  }

  lemma MoveB(s: System, m: System, act: Action, out: set<Packet>, f: System)
    requires Reaches(s, m) && Enabled(m.b, m.fromA, act) && Act(m.b, m.fromA, act) == Outcome(f.b, out)
    requires f.a == m.a && f.fromA == m.fromA && f.fromB == m.fromB + out
    ensures Reaches(s, f)
  {
    var steps :| IsRun(s, steps) && Final(s, steps) == m;
    Snoc(s, steps, Step(false, act));
  }

  function FreshEnd(isn: Word32, foreignIsn: Word32, largestAck: Word32): Endpoint
  {
    Endpoint(Socket(Established, true, true, false,
                    Sender(isn, 0, [], [], 0, largestAck, BUFFER_SIZE, Ready),
                    Receiver(foreignIsn, 1, [], [], {}, 0)),
             [], [], map[], false)
  }

  function WithSocket(e: Endpoint, st: ConnState, x: Sender): Endpoint
  {
    e.(sock := e.sock.(connState := st, snd := x))
  }

  // ----- an acked FIN -------------------------------------------------------------------

  const FIN := Packet(1, 1, FLAG_FIN, BUFFER_SIZE, [])
  const FIN_ACK := Packet(1, 2, FLAG_ACK, BUFFER_SIZE, [])

  function ShutDown(): Endpoint
  {
    var e := FreshEnd(0, 0, 0);
    e.(sock := e.sock.(canWrite := false))
  }

  function FinSent(): Endpoint
  {
    WithSocket(ShutDown(), FinWait1, Sender(0, 1, [], [Item(1, FIN)], 0, 0, BUFFER_SIZE, Done))
  }

  function FinAcked(): Endpoint
  {
    WithSocket(ShutDown(), FinWait2, Sender(0, 1, [], [], MOD32 - 1, 2, BUFFER_SIZE, Done))
  }

  function FinHeard(): Endpoint
  {
    WithSocket(FreshEnd(0, 0, 0), CloseWait, FreshEnd(0, 0, 0).sock.snd).(finTaken := true)
  }

  lemma HearsFinAck(inbox: set<Packet>)
    requires FIN_ACK in inbox
    ensures Enabled(FinSent(), inbox, Deliver(FIN_ACK, true))
    ensures Act(FinSent(), inbox, Deliver(FIN_ACK, true)) == Outcome(FinAcked(), {})
  {
  }

  function Pair(): System
  {
    System(FreshEnd(0, 0, 0), FreshEnd(0, 0, 0), {}, {})
  }

  function OneClosed(): System
  {
    System(FinAcked(), FinHeard(), {FIN}, {FIN_ACK})
  }

  lemma ClosesOne()
    ensures Start(Pair()) && Reaches(Pair(), OneClosed())
  {
    var s1 := System(ShutDown(), FreshEnd(0, 0, 0), {}, {});
    var s2 := System(FinSent(), FreshEnd(0, 0, 0), {FIN}, {});
    var s3 := System(FinSent(), FinHeard(), {FIN}, {FIN_ACK});
    Stay(Pair());
    MoveA(Pair(), Pair(), Shutdown(false, true), {}, s1);
    MoveA(Pair(), s1, Fin, {FIN}, s2);
    MoveB(Pair(), s2, Deliver(FIN, true), {FIN_ACK}, s3);
    HearsFinAck({FIN_ACK});
    MoveA(Pair(), s3, Deliver(FIN_ACK, true), {}, OneClosed());
  }

  /** From a start to what was reached. */
  lemma Unfold(s: System, f: System) returns (steps: seq<Step>)
    requires Reaches(s, f)
    ensures IsRun(s, steps) && Final(s, steps) == f
  {
    steps :| IsRun(s, steps) && Final(s, steps) == f;
  }

  /** inFlightPacketSize below zero, first case: the FIN was never added and is subtracted when acked. */
  lemma FinWrapsCounter() returns (s: System, steps: seq<Step>)
    ensures Start(s) && IsRun(s, steps) && Short(Final(s, steps))
    ensures Final(s, steps).a.sock.snd.inFlight == [] && Final(s, steps).a.sock.snd.inFlightSize == MOD32 - 1
  {
    ClosesOne();
    s := Pair();
    steps := Unfold(s, OneClosed());
  }

  // ----- both sides close at once ----------------------------------------------------------

  const LATE_ACK := Packet(2, 2, FLAG_ACK, BUFFER_SIZE, [])

  function FinCrossed(): Endpoint
  {
    FinSent().(finTaken := true)
  }

  function Stuck(): Endpoint
  {
    FinAcked().(finTaken := true)
  }

  function BothStuck(): System
  {
    System(Stuck(), Stuck(), {FIN, LATE_ACK}, {FIN, LATE_ACK})
  }

  lemma BothSendFin()
    ensures Start(Pair()) && Reaches(Pair(), System(FinSent(), FinSent(), {FIN}, {FIN}))
  {
    var s1 := System(ShutDown(), FreshEnd(0, 0, 0), {}, {});
    var s2 := System(FinSent(), FreshEnd(0, 0, 0), {FIN}, {});
    var s3 := System(FinSent(), ShutDown(), {FIN}, {});
    Stay(Pair());
    MoveA(Pair(), Pair(), Shutdown(false, true), {}, s1);
    MoveA(Pair(), s1, Fin, {FIN}, s2);
    MoveB(Pair(), s2, Shutdown(false, true), {}, s3);
    MoveB(Pair(), s3, Fin, {FIN}, System(FinSent(), FinSent(), {FIN}, {FIN}));
  }

  lemma BothGetStuck()
    ensures Start(Pair()) && Reaches(Pair(), BothStuck())
  {
    var s4 := System(FinSent(), FinSent(), {FIN}, {FIN});
    var s5 := System(FinCrossed(), FinSent(), {FIN, LATE_ACK}, {FIN});
    var s6 := System(FinCrossed(), FinCrossed(), {FIN, LATE_ACK}, {FIN, LATE_ACK});
    var s7 := System(Stuck(), FinCrossed(), {FIN, LATE_ACK}, {FIN, LATE_ACK});
    BothSendFin();
    MoveA(Pair(), s4, Deliver(FIN, true), {LATE_ACK}, s5);
    MoveB(Pair(), s5, Deliver(FIN, true), {LATE_ACK}, s6);
    MoveA(Pair(), s6, Deliver(LATE_ACK, true), {}, s7);
    MoveB(Pair(), s7, Deliver(LATE_ACK, true), {}, BothStuck());
  }

  /** After a simultaneous close each side has taken the other's FIN in sequence and has had its own acked,
      and yet both stand in FIN_WAIT_2 with nothing left to retransmit: in FIN_WAIT_1 the peer's FIN is
      acked but not recorded. */
  lemma SimultaneousClose() returns (s: System, steps: seq<Step>)
    ensures Start(s) && IsRun(s, steps) && Short(Final(s, steps))
    ensures forall atA :: var e := At(Final(s, steps), atA);
              e.finTaken && e.sock.connState == FinWait2 && e.sock.snd.inFlight == []
  {
    BothGetStuck();
    s := Pair();
    steps := Unfold(s, BothStuck());
  }

  // ----- data for a half-closed side -----------------------------------------------------------

  const NEWS := Packet(1, 1, FLAG_ACK, BUFFER_SIZE, [7])

  function NewsWritten(): Endpoint
  {
    WithSocket(FinHeard(), CloseWait, Sender(0, 0, [7], [], 0, 0, BUFFER_SIZE, Ready)).(accepted := [7])
  }

  function NewsBurst(): Endpoint
  {
    WithSocket(NewsWritten(), CloseWait, Sender(0, 0, [], [], 0, 0, BUFFER_SIZE, Burst([7])))
  }

  function NewsSent(): Endpoint
  {
    WithSocket(NewsWritten(), CloseWait, Sender(0, 1, [], [], 0, 0, BUFFER_SIZE, Sent(Item(1, NEWS), []))).(log := map[1 := [7]])
  }

  lemma WritesNews(inbox: set<Packet>)
    ensures Enabled(FinHeard(), inbox, Write([7])) && Act(FinHeard(), inbox, Write([7])) == Outcome(NewsWritten(), {})
    ensures Enabled(NewsWritten(), inbox, StartBurst) && Act(NewsWritten(), inbox, StartBurst) == Outcome(NewsBurst(), {})
  {
    assert [] + [7] == [7];
    assert [7][..1] == [7] && [7][1..] == [];
  }

  lemma SendsNews(inbox: set<Packet>)
    ensures Enabled(NewsBurst(), inbox, SendNext) && Act(NewsBurst(), inbox, SendNext) == Outcome(NewsSent(), {NEWS})
  {
    assert [7][..1] == [7] && [7][1..] == [];
    assert SegmentItem(NewsBurst().sock.snd, NewsBurst().sock.rcv, [7]) == Item(1, NEWS);
  }

  function NewsOut(): System
  {
    System(FinAcked(), NewsSent(), {FIN}, {FIN_ACK, NEWS})
  }

  lemma NewsGoesOut()
    ensures Start(Pair()) && Reaches(Pair(), NewsOut())
  {
    var s1 := System(FinAcked(), NewsWritten(), {FIN}, {FIN_ACK});
    var s2 := System(FinAcked(), NewsBurst(), {FIN}, {FIN_ACK});
    ClosesOne();
    WritesNews({FIN});
    MoveB(Pair(), OneClosed(), Write([7]), {}, s1);
    MoveB(Pair(), s1, StartBurst, {}, s2);
    SendsNews({FIN});
    MoveB(Pair(), s2, SendNext, {NEWS}, NewsOut());
  }

  /** Half-close at work: a is in FIN_WAIT_2 and its read side is open and empty; the next byte it expects
      has been sent to it, and the handler drops the segment without an ack. */
  lemma HalfCloseDropsNews() returns (s: System, steps: seq<Step>, p: Packet)
    ensures Start(s) && IsRun(s, steps) && Short(Final(s, steps))
    ensures var f := Final(s, steps);
            && f.a.sock.connState == FinWait2 && f.a.sock.canRead && Got(f.a) == []
            && p in f.fromB && p.data == f.b.accepted == [7] && RelSeq(f.a.sock.rcv, p) == f.a.sock.rcv.expected
            && Free(f.a.sock.rcv) == BUFFER_SIZE && HandlePacket(f.a.sock, p, true) == Handled(f.a.sock, {})
  {
    NewsGoesOut();
    s, p := Pair(), NEWS;
    steps := Unfold(s, NewsOut());
  }

  // ----- a segment acked before it is counted ----------------------------------------------------

  /** A side with initial number i, whose peer's is f, and one byte 5 to send. */
  function ByteWritten(i: Word32, f: Word32 := 0): Endpoint
  {
    WithSocket(FreshEnd(i, f, 0), Established, Sender(i, 0, [5], [], 0, 0, BUFFER_SIZE, Ready)).(accepted := [5])
  }

  function ByteBurst(i: Word32, f: Word32 := 0): Endpoint
  {
    WithSocket(ByteWritten(i, f), Established, Sender(i, 0, [], [], 0, 0, BUFFER_SIZE, Burst([5])))
  }

  function BytePacket(i: Word32, f: Word32 := 0): Packet
  {
    Packet(Add32(i, 1), Add32(f, 1), FLAG_ACK, BUFFER_SIZE, [5])
  }

  function ByteSent(i: Word32, f: Word32 := 0): Endpoint
  {
    WithSocket(ByteWritten(i, f), Established,
               Sender(i, 1, [], [], 0, 0, BUFFER_SIZE, Sent(Item(1, BytePacket(i, f)), []))).(log := map[1 := [5]])
  }

  function ByteListed(i: Word32, f: Word32 := 0): Endpoint
  {
    WithSocket(ByteSent(i, f), Established,
               Sender(i, 1, [], [Item(1, BytePacket(i, f))], 0, 0, BUFFER_SIZE, Pushed(1, [])))
  }

  lemma WritesByte(i: Word32, inbox: set<Packet>, f: Word32 := 0)
    ensures Enabled(FreshEnd(i, f, 0), inbox, Write([5]))
    ensures Act(FreshEnd(i, f, 0), inbox, Write([5])) == Outcome(ByteWritten(i, f), {})
    ensures Enabled(ByteWritten(i, f), inbox, StartBurst)
    ensures Act(ByteWritten(i, f), inbox, StartBurst) == Outcome(ByteBurst(i, f), {})
  {
    assert [] + [5] == [5];
    assert [5][..1] == [5] && [5][1..] == [];
  }

  lemma SendsByte(i: Word32, inbox: set<Packet>, f: Word32 := 0)
    ensures Enabled(ByteBurst(i, f), inbox, SendNext)
    ensures Act(ByteBurst(i, f), inbox, SendNext) == Outcome(ByteSent(i, f), {BytePacket(i, f)})
    ensures Enabled(ByteSent(i, f), inbox, PushItem)
    ensures Act(ByteSent(i, f), inbox, PushItem) == Outcome(ByteListed(i, f), {})
  {
    assert [5][..1] == [5] && [5][1..] == [];
    RelOfRaw(i, 1);
    assert SegmentItem(ByteBurst(i, f).sock.snd, ByteBurst(i, f).sock.rcv, [5]) == Item(1, BytePacket(i, f));
    assert [] + [Item(1, BytePacket(i, f))] == [Item(1, BytePacket(i, f))];
  }

  function PairAt(i: Word32): System
  {
    System(FreshEnd(i, 0, 0), FreshEnd(0, i, 0), {}, {})
  }

  lemma ListsByte(i: Word32)
    ensures Start(PairAt(i)) && Reaches(PairAt(i), System(ByteListed(i), FreshEnd(0, i, 0), {BytePacket(i)}, {}))
  {
    var s := PairAt(i);
    var b := s.b;
    var s1, s2 := System(ByteWritten(i), b, {}, {}), System(ByteBurst(i), b, {}, {});
    var s3 := System(ByteSent(i), b, {BytePacket(i)}, {});
    Stay(s);
    WritesByte(i, {});
    MoveA(s, s, Write([5]), {}, s1);
    MoveA(s, s1, StartBurst, {}, s2);
    SendsByte(i, {});
    MoveA(s, s2, SendNext, {BytePacket(i)}, s3);
    MoveA(s, s3, PushItem, {}, System(ByteListed(i), b, {BytePacket(i)}, {}));
  }

  const BYTE_ACK := Packet(1, 2, FLAG_ACK, BUFFER_SIZE - 1, [])

  function ByteHeard(): Endpoint
  {
    FreshEnd(0, 0, 0).(sock := Socket(Established, true, true, false,
                                      Sender(0, 0, [], [], 0, 1, BUFFER_SIZE, Ready),
                                      Receiver(0, 2, [5], [], {}, 0)))
  }

  function ByteGone(): Endpoint
  {
    WithSocket(ByteListed(0), Established, Sender(0, 1, [], [], MOD32 - 1, 2, BUFFER_SIZE - 1, Pushed(1, [])))
  }

  lemma HearsByte(inbox: set<Packet>)
    requires BytePacket(0) in inbox
    ensures Enabled(FreshEnd(0, 0, 0), inbox, Deliver(BytePacket(0), true))
    ensures Act(FreshEnd(0, 0, 0), inbox, Deliver(BytePacket(0), true)) == Outcome(ByteHeard(), {BYTE_ACK})
  {
    var r := FreshEnd(0, 0, 0).sock.rcv;
    assert [] + [5] == [5];
    assert WriteIntoReadBuffer(r, [5]) == ByteHeard().sock.rcv;
    assert Drain(ByteHeard().sock.rcv, Established) == RcvResult(ByteHeard().sock.rcv, Established);
  }

  lemma ByteLeaves(inbox: set<Packet>)
    requires BYTE_ACK in inbox
    ensures Enabled(ByteListed(0), inbox, Deliver(BYTE_ACK, true))
    ensures Act(ByteListed(0), inbox, Deliver(BYTE_ACK, true)) == Outcome(ByteGone(), {})
  {
    var it := Item(1, BytePacket(0));
    assert [it][1..] == [];
    assert AckLoop(Established, [], Sub32(0, 1), 2) == AckResult(Established, [], MOD32 - 1, false);
    assert AckLoop(Established, [it], 0, 2) == AckResult(Established, [], MOD32 - 1, false);
  }

  /** inFlightPacketSize below zero, second case: the ack arrives between listing and counting a segment. */
  lemma LateCountWraps() returns (s: System, steps: seq<Step>)
    ensures Start(s) && IsRun(s, steps) && Short(Final(s, steps))
    ensures Final(s, steps).a.sock.snd.writer.Pushed? && Final(s, steps).a.sock.snd.inFlight == []
    ensures Final(s, steps).a.sock.snd.inFlightSize == MOD32 - 1
  {
    s := PairAt(0);
    var s4 := System(ByteListed(0), FreshEnd(0, 0, 0), {BytePacket(0)}, {});
    var s5 := System(ByteListed(0), ByteHeard(), {BytePacket(0)}, {BYTE_ACK});
    var f := System(ByteGone(), ByteHeard(), {BytePacket(0)}, {BYTE_ACK});
    ListsByte(0);
    HearsByte({BytePacket(0)});
    MoveB(s, s4, Deliver(BytePacket(0), true), {BYTE_ACK}, s5);
    ByteLeaves({BYTE_ACK});
    MoveA(s, s5, Deliver(BYTE_ACK, true), {}, f);
    steps := Unfold(s, f);
  }

  // ----- a half-closed side that hears, because raw numbers wrapped ---------------------------------

  /** One byte and a FIN from here on end at raw number 0. */
  const BRINK: Word32 := MOD32 - 2
  const LAST_FIN := Packet(0, 1, FLAG_FIN, BUFFER_SIZE, [])
  const OLD_NEWS := Packet(1, MOD32 - 1, FLAG_ACK, BUFFER_SIZE, [7])
  const FIRST_ACK := Packet(2, 0, FLAG_ACK, BUFFER_SIZE - 1, [])
  const LAST_ACK := Packet(2, 1, FLAG_ACK, BUFFER_SIZE - 1, [])

  function ByteCounted(): Endpoint
  {
    WithSocket(ByteListed(BRINK), Established,
               Sender(BRINK, 1, [], [Item(1, BytePacket(BRINK))], 1, 0, BUFFER_SIZE, Ready))
  }

  function ByteShut(): Endpoint
  {
    ByteCounted().(sock := ByteCounted().sock.(canWrite := false))
  }

  function BothItems(): seq<Item>
  {
    [Item(1, BytePacket(BRINK)), Item(2, LAST_FIN)]
  }

  function FinListed(): Endpoint
  {
    WithSocket(ByteShut(), FinWait1, Sender(BRINK, 2, [], BothItems(), 1, 0, BUFFER_SIZE, Done))
  }

  function AllAcked(): Endpoint
  {
    WithSocket(ByteShut(), FinWait2, Sender(BRINK, 2, [], [], MOD32 - 1, 1, BUFFER_SIZE - 1, Done))
  }

  function HeardAfterAll(): Endpoint
  {
    AllAcked().(sock := AllAcked().sock.(
      snd := Sender(BRINK, 2, [], [], MOD32 - 1, MOD32 - 1, BUFFER_SIZE, Done),
      rcv := Receiver(0, 2, [7], [], {}, 0)))
  }

  lemma CountsByte(inbox: set<Packet>)
    ensures Enabled(ByteListed(BRINK), inbox, CountItem)
    ensures Act(ByteListed(BRINK), inbox, CountItem) == Outcome(ByteCounted(), {})
    ensures Enabled(ByteCounted(), inbox, Shutdown(false, true))
    ensures Act(ByteCounted(), inbox, Shutdown(false, true)) == Outcome(ByteShut(), {})
  {
  }

  lemma ListsFin(inbox: set<Packet>)
    ensures Enabled(ByteShut(), inbox, Fin) && Act(ByteShut(), inbox, Fin) == Outcome(FinListed(), {LAST_FIN})
  {
    assert FinPacket(ByteShut().sock) == LAST_FIN;
    assert [Item(1, BytePacket(BRINK))] + [Item(2, LAST_FIN)] == BothItems();
  }

  lemma AllLeaves(inbox: set<Packet>)
    requires LAST_ACK in inbox
    ensures Enabled(FinListed(), inbox, Deliver(LAST_ACK, true))
    ensures Act(FinListed(), inbox, Deliver(LAST_ACK, true)) == Outcome(AllAcked(), {})
  {
    var fin := [Item(2, LAST_FIN)];
    assert BothItems()[1..] == fin && fin[1..] == [];
    assert AckLoop(FinWait2, [], Sub32(0, 1), 3) == AckResult(FinWait2, [], MOD32 - 1, false);
    assert AckLoop(FinWait1, fin, 0, 3) == AckResult(FinWait2, [], MOD32 - 1, false);
    assert AckLoop(FinWait1, BothItems(), 1, 3) == AckResult(FinWait2, [], MOD32 - 1, false);
    assert Sub32(1, BRINK) == 3;
  }

  lemma HearsOldNews(inbox: set<Packet>)
    requires OLD_NEWS in inbox
    ensures Enabled(AllAcked(), inbox, Deliver(OLD_NEWS, true))
    ensures Act(AllAcked(), inbox, Deliver(OLD_NEWS, true)).e == HeardAfterAll()
  {
    var k := AllAcked().sock;
    assert AckLoop(FinWait2, [], MOD32 - 1, 1) == AckResult(FinWait2, [], MOD32 - 1, false);
    assert Sub32(MOD32 - 1, BRINK) == 1;
    assert [] + [7] == [7];
    assert WriteIntoReadBuffer(k.rcv, [7]) == HeardAfterAll().sock.rcv;
    assert Drain(HeardAfterAll().sock.rcv, FinWait2) == RcvResult(HeardAfterAll().sock.rcv, FinWait2);
  }

  /** Side b: sends its news before it has heard anything, then hears the byte and the FIN. */
  function OldNewsWritten(): Endpoint
  {
    WithSocket(FreshEnd(0, BRINK, 0), Established, Sender(0, 0, [7], [], 0, 0, BUFFER_SIZE, Ready)).(accepted := [7])
  }

  function OldNewsBurst(): Endpoint
  {
    WithSocket(OldNewsWritten(), Established, Sender(0, 0, [], [], 0, 0, BUFFER_SIZE, Burst([7])))
  }

  function OldNewsSent(): Endpoint
  {
    WithSocket(OldNewsWritten(), Established,
               Sender(0, 1, [], [], 0, 0, BUFFER_SIZE, Sent(Item(1, OLD_NEWS), []))).(log := map[1 := [7]])
  }

  function ByteTaken(): Endpoint
  {
    OldNewsSent().(sock := OldNewsSent().sock.(
      snd := OldNewsSent().sock.snd.(largestAck := 1),
      rcv := Receiver(BRINK, 2, [5], [], {}, 0)))
  }

  function AllTaken(): Endpoint
  {
    ByteTaken().(sock := ByteTaken().sock.(connState := CloseWait), finTaken := true)
  }

  lemma WritesOldNews(inbox: set<Packet>)
    ensures Enabled(FreshEnd(0, BRINK, 0), inbox, Write([7]))
    ensures Act(FreshEnd(0, BRINK, 0), inbox, Write([7])) == Outcome(OldNewsWritten(), {})
    ensures Enabled(OldNewsWritten(), inbox, StartBurst)
    ensures Act(OldNewsWritten(), inbox, StartBurst) == Outcome(OldNewsBurst(), {})
  {
    assert [] + [7] == [7];
    assert [7][..1] == [7] && [7][1..] == [];
  }

  lemma SendsOldNews(inbox: set<Packet>)
    ensures Enabled(OldNewsBurst(), inbox, SendNext)
    ensures Act(OldNewsBurst(), inbox, SendNext) == Outcome(OldNewsSent(), {OLD_NEWS})
  {
    assert [7][..1] == [7] && [7][1..] == [];
    assert SegmentItem(OldNewsBurst().sock.snd, OldNewsBurst().sock.rcv, [7]) == Item(1, OLD_NEWS);
  }

  lemma TakesByte(inbox: set<Packet>)
    requires BytePacket(BRINK) in inbox
    ensures Enabled(OldNewsSent(), inbox, Deliver(BytePacket(BRINK), true))
    ensures Act(OldNewsSent(), inbox, Deliver(BytePacket(BRINK), true)) == Outcome(ByteTaken(), {FIRST_ACK})
  {
    var r := OldNewsSent().sock.rcv;
    assert AckLoop(Established, [], 0, 1) == AckResult(Established, [], 0, false);
    RelOfRaw(BRINK, 1);
    assert [] + [5] == [5];
    assert WriteIntoReadBuffer(r, [5]) == ByteTaken().sock.rcv;
    assert Drain(ByteTaken().sock.rcv, Established) == RcvResult(ByteTaken().sock.rcv, Established);
  }

  lemma TakesLastFin(inbox: set<Packet>)
    requires LAST_FIN in inbox
    ensures Enabled(ByteTaken(), inbox, Deliver(LAST_FIN, true))
    ensures Act(ByteTaken(), inbox, Deliver(LAST_FIN, true)) == Outcome(AllTaken(), {LAST_ACK})
  {
    assert Sub32(0, BRINK) == 2;
    assert AckPacket(ByteTaken().sock.snd, ByteTaken().sock.rcv, []) == FIRST_ACK;
  }

  lemma ClosesAtTheBrink()
    ensures Start(PairAt(BRINK))
    ensures Reaches(PairAt(BRINK), System(FinListed(), FreshEnd(0, BRINK, 0), {BytePacket(BRINK), LAST_FIN}, {}))
  {
    var s, b := PairAt(BRINK), FreshEnd(0, BRINK, 0);
    var p := BytePacket(BRINK);
    var s4, s5, s6 := System(ByteListed(BRINK), b, {p}, {}), System(ByteCounted(), b, {p}, {}), System(ByteShut(), b, {p}, {});
    ListsByte(BRINK);
    CountsByte({});
    MoveA(s, s4, CountItem, {}, s5);
    MoveA(s, s5, Shutdown(false, true), {}, s6);
    ListsFin({});
    MoveA(s, s6, Fin, {LAST_FIN}, System(FinListed(), b, {p, LAST_FIN}, {}));
  }

  lemma PeerTakesAll()
    ensures Start(PairAt(BRINK))
    ensures Reaches(PairAt(BRINK), System(FinListed(), AllTaken(), {BytePacket(BRINK), LAST_FIN}, {OLD_NEWS, FIRST_ACK, LAST_ACK}))
  {
    var s, a := PairAt(BRINK), FinListed();
    var out := {BytePacket(BRINK), LAST_FIN};
    var s7, s8, s9 := System(a, FreshEnd(0, BRINK, 0), out, {}), System(a, OldNewsWritten(), out, {}), System(a, OldNewsBurst(), out, {});
    var s10, s11 := System(a, OldNewsSent(), out, {OLD_NEWS}), System(a, ByteTaken(), out, {OLD_NEWS, FIRST_ACK});
    ClosesAtTheBrink();
    WritesOldNews(out);
    MoveB(s, s7, Write([7]), {}, s8);
    MoveB(s, s8, StartBurst, {}, s9);
    SendsOldNews(out);
    MoveB(s, s9, SendNext, {OLD_NEWS}, s10);
    TakesByte(out);
    MoveB(s, s10, Deliver(BytePacket(BRINK), true), {FIRST_ACK}, s11);
    TakesLastFin(out);
    MoveB(s, s11, Deliver(LAST_FIN, true), {LAST_ACK}, System(a, AllTaken(), out, {OLD_NEWS, FIRST_ACK, LAST_ACK}));
  }

  /** A half-closed side may hear after all when its raw numbers have wrapped: a segment sent before the
      wrap carries a raw ack above the one that closed the direction, and passes for new. */
  lemma WrappedHalfCloseHears() returns (s: System, steps: seq<Step>, p: Packet)
    ensures Start(s) && IsRun(s, steps) && Short(Final(s, steps))
    ensures var f := Final(s, steps);
            && f.a.sock.connState == FinWait2 && Got(f.a) == []
            && p in f.fromB && p.data == [7]
            && |f.a.sock.rcv.readRing| <= BUFFER_SIZE && HandlePacket(f.a.sock, p, true).sock.rcv.readRing == [7]
  {
    s, p := PairAt(BRINK), OLD_NEWS;
    var out, inn := {BytePacket(BRINK), LAST_FIN}, {OLD_NEWS, FIRST_ACK, LAST_ACK};
    var s12, s13 := System(FinListed(), AllTaken(), out, inn), System(AllAcked(), AllTaken(), out, inn);
    PeerTakesAll();
    AllLeaves(inn);
    MoveA(s, s12, Deliver(LAST_ACK, true), {}, s13);
    HearsOldNews(inn);
    steps := Unfold(s, s13);
  }
}
