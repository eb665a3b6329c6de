/** A run in which stream integrity fails. Side a sends 65534 bytes in 64 segments and, as that is one less
    than the window, two more. Side b, whose reader is slow, gets the last segment before the one before it:
    draining the queue then finds room for one byte of two. */
module TcpSpillRun {
  import opened Heap
  import opened TcpTypes
  import opened TcpSteps
  import opened TcpReassembly
  import opened TcpSending
  import opened TcpSystem
  import opened TcpIntegrity
  import opened TcpRuns

  const TOTAL := 65534
  const FULL_SEGMENTS := 63

  function Zeros(n: nat): seq<Byte>
  {
    seq(n, i => 0)
  }

  lemma ZerosSplit(n: nat, m: nat)
    requires m <= n
    ensures Zeros(n)[..m] == Zeros(m) && Zeros(n)[m..] == Zeros(n - m)
    ensures Zeros(m) + Zeros(n - m) == Zeros(n)
  {
  }

  // ----- after k full segments, each sent, listed, counted and delivered ---------------------

  function Segment(k: nat): Packet
    requires k <= FULL_SEGMENTS
  {
    Packet(1024 * k + 1, 1, FLAG_ACK, BUFFER_SIZE, if k < FULL_SEGMENTS then Zeros(1024) else Zeros(1022))
  }

  function Items(k: nat): seq<Item>
    requires k <= FULL_SEGMENTS
  {
    if k == 0 then [] else Items(k - 1) + [Item(1024 * (k - 1) + 1, Segment(k - 1))]
  }

  function Log(k: nat): map<int, seq<Byte>>
  {
    if k == 0 then map[] else Log(k - 1)[1024 * (k - 1) + 1 := Zeros(1024)]
  }

  function SegmentsSent(k: nat): set<Packet>
    requires k <= FULL_SEGMENTS
  {
    if k == 0 then {} else SegmentsSent(k - 1) + {Segment(k - 1)}
  }

  function AckOf(k: nat): Packet
    requires k <= FULL_SEGMENTS
  {
    Packet(1, 1024 * k + 1, FLAG_ACK, BUFFER_SIZE - 1024 * k, [])
  }

  function AcksSent(k: nat): set<Packet>
    requires k <= FULL_SEGMENTS
  {
    if k == 0 then {} else AcksSent(k - 1) + {AckOf(k)}
  }

  function Sending(k: nat, w: Writer, sent: Word32, items: seq<Item>, size: Word32): Endpoint
  {
    FreshEnd(0, 0, 1).(sock := FreshEnd(0, 0, 1).sock.(snd := Sender(0, sent, [], items, size, 1, BUFFER_SIZE, w)),
                       accepted := Zeros(TOTAL), log := Log(k))
  }

  function SenderAt(k: nat): Endpoint
    requires k <= FULL_SEGMENTS
  {
    Sending(k, Burst(Zeros(TOTAL - 1024 * k)), 1024 * k, Items(k), 1024 * k)
  }

  function ReceiverAt(k: nat): Endpoint
    requires k <= FULL_SEGMENTS
  {
    FreshEnd(0, 0, 1).(sock := FreshEnd(0, 0, 1).sock.(rcv := Receiver(0, 1024 * k + 1, Zeros(1024 * k), [], {}, 0)))
  }

  function FilledTo(k: nat): System
    requires k <= FULL_SEGMENTS
  {
    System(SenderAt(k), ReceiverAt(k), SegmentsSent(k), AcksSent(k))
  }

  // ----- one more segment --------------------------------------------------------------------

  function AfterSend(k: nat): Endpoint
    requires k < FULL_SEGMENTS
  {
    Sending(k + 1, Sent(Item(1024 * k + 1, Segment(k)), Zeros(TOTAL - 1024 * (k + 1))), 1024 * (k + 1), Items(k), 1024 * k)
  }

  function AfterPush(k: nat): Endpoint
    requires k < FULL_SEGMENTS
  {
    Sending(k + 1, Pushed(1024, Zeros(TOTAL - 1024 * (k + 1))), 1024 * (k + 1), Items(k + 1), 1024 * k)
  }

  lemma SendsSegment(k: nat, inbox: set<Packet>)
    requires k < FULL_SEGMENTS
    ensures Enabled(SenderAt(k), inbox, SendNext)
    ensures Act(SenderAt(k), inbox, SendNext) == Outcome(AfterSend(k), {Segment(k)})
  {
    var rest := TOTAL - 1024 * k;
    ZerosSplit(rest, 1024);
    assert rest - 1024 == TOTAL - 1024 * (k + 1);
    var x, r := SenderAt(k).sock.snd, SenderAt(k).sock.rcv;
    assert SegmentItem(x, r, Zeros(1024)) == Item(1024 * k + 1, Segment(k));
  }

  lemma ListsSegment(k: nat, inbox: set<Packet>)
    requires k < FULL_SEGMENTS
    ensures Enabled(AfterSend(k), inbox, PushItem) && Act(AfterSend(k), inbox, PushItem) == Outcome(AfterPush(k), {})
    ensures Enabled(AfterPush(k), inbox, CountItem) && Act(AfterPush(k), inbox, CountItem) == Outcome(SenderAt(k + 1), {})
  {
    assert |Zeros(TOTAL - 1024 * (k + 1))| > 0;
  }

  lemma TakesSegment(k: nat, inbox: set<Packet>)
    requires k < FULL_SEGMENTS && Segment(k) in inbox
    ensures Enabled(ReceiverAt(k), inbox, Deliver(Segment(k), true))
    ensures Act(ReceiverAt(k), inbox, Deliver(Segment(k), true)) == Outcome(ReceiverAt(k + 1), {AckOf(k + 1)})
  {
    ZerosSplit(1024 * (k + 1), 1024 * k);
    var r, r' := ReceiverAt(k).sock.rcv, ReceiverAt(k + 1).sock.rcv;
    assert WriteIntoReadBuffer(r, Zeros(1024)) == r';
    assert Drain(r', Established) == RcvResult(r', Established);
  }

  lemma FillsOneMore(s: System, k: nat, m: nat)
    requires k < FULL_SEGMENTS && m == k + 1 && Reaches(s, FilledTo(k))
    ensures Reaches(s, FilledTo(m))
  {
    var b, out, inn := ReceiverAt(k), SegmentsSent(k + 1), AcksSent(k);
    var s1, s2, s3 := System(AfterSend(k), b, out, inn), System(AfterPush(k), b, out, inn), System(SenderAt(k + 1), b, out, inn);
    SendsSegment(k, inn);
    MoveA(s, FilledTo(k), SendNext, {Segment(k)}, s1);
    ListsSegment(k, inn);
    MoveA(s, s1, PushItem, {}, s2);
    MoveA(s, s2, CountItem, {}, s3);
    TakesSegment(k, out);
    MoveB(s, s3, Deliver(Segment(k), true), {AckOf(k + 1)}, FilledTo(k + 1));
  }

  lemma {:induction false} Fills(s: System, k: nat)
    requires k <= FULL_SEGMENTS && Reaches(s, FilledTo(0))
    ensures Reaches(s, FilledTo(k))
  {
    if k > 0 {
      Fills(s, k - 1);
      FillsOneMore(s, k - 1, k);
    }
  }

  // ----- the beginning ----------------------------------------------------------------------------

  function Begin(): System
  {
    System(FreshEnd(0, 0, 1), FreshEnd(0, 0, 1), {}, {})
  }

  function AllWritten(): Endpoint
  {
    FreshEnd(0, 0, 1).(sock := FreshEnd(0, 0, 1).sock.(snd := FreshEnd(0, 0, 1).sock.snd.(writeRing := Zeros(TOTAL))),
                       accepted := Zeros(TOTAL))
  }

  lemma WritesAll(inbox: set<Packet>)
    ensures Enabled(FreshEnd(0, 0, 1), inbox, Write(Zeros(TOTAL)))
    ensures Act(FreshEnd(0, 0, 1), inbox, Write(Zeros(TOTAL))) == Outcome(AllWritten(), {})
    ensures Enabled(AllWritten(), inbox, StartBurst)
    ensures Act(AllWritten(), inbox, StartBurst) == Outcome(SenderAt(0), {})
  {
    assert |Zeros(TOTAL)| == TOTAL;
    assert [] + Zeros(TOTAL) == Zeros(TOTAL);
    assert Zeros(TOTAL)[..TOTAL] == Zeros(TOTAL) && Zeros(TOTAL)[TOTAL..] == [];
  }

  lemma ReachesFilled()
    ensures Start(Begin()) && Reaches(Begin(), FilledTo(FULL_SEGMENTS))
  {
    Stay(Begin());
    WritesAll({});
    var s1 := System(AllWritten(), FreshEnd(0, 0, 1), {}, {});
    MoveA(Begin(), Begin(), Write(Zeros(TOTAL)), {}, s1);
    assert ReceiverAt(0) == FreshEnd(0, 0, 1);
    MoveA(Begin(), s1, StartBurst, {}, FilledTo(0));
    Fills(Begin(), FULL_SEGMENTS);
  }

  // ----- the end ------------------------------------------------------------------------------------

  const OVER := Packet(65535, 1, FLAG_ACK, BUFFER_SIZE, Zeros(2))

  function AllItems(): seq<Item>
  {
    Items(FULL_SEGMENTS) + [Item(64513, Segment(FULL_SEGMENTS))]
  }

  function FullLog(): map<int, seq<Byte>>
  {
    Log(FULL_SEGMENTS)[64513 := Zeros(1022)]
  }

  function Ending(w: Writer, ring: seq<Byte>, sent: Word32, items: seq<Item>, size: Word32, accepted: seq<Byte>, log: map<int, seq<Byte>>): Endpoint
  {
    FreshEnd(0, 0, 1).(sock := FreshEnd(0, 0, 1).sock.(snd := Sender(0, sent, ring, items, size, 1, BUFFER_SIZE, w)),
                       accepted := accepted, log := log)
  }

  function LastSent(): Endpoint
  {
    Ending(Sent(Item(64513, Segment(63)), []), [], 65534, Items(63), 64512, Zeros(TOTAL), FullLog())
  }

  function LastPushed(): Endpoint
  {
    Ending(Pushed(1022, []), [], 65534, AllItems(), 64512, Zeros(TOTAL), FullLog())
  }

  function LastCounted(): Endpoint
  {
    Ending(Ready, [], 65534, AllItems(), 65534, Zeros(TOTAL), FullLog())
  }

  function MoreWritten(): Endpoint
  {
    Ending(Ready, Zeros(2), 65534, AllItems(), 65534, Zeros(65536), FullLog())
  }

  function MoreBurst(): Endpoint
  {
    Ending(Burst(Zeros(2)), [], 65534, AllItems(), 65534, Zeros(65536), FullLog())
  }

  function MoreSent(): Endpoint
  {
    Ending(Sent(Item(65535, OVER), []), [], 65536, AllItems(), 65534, Zeros(65536), FullLog()[65535 := Zeros(2)])
  }

  lemma SendsLast(inbox: set<Packet>)
    ensures Enabled(SenderAt(63), inbox, SendNext)
    ensures Act(SenderAt(63), inbox, SendNext) == Outcome(LastSent(), {Segment(63)})
  {
    assert Zeros(1022)[..1022] == Zeros(1022) && Zeros(1022)[1022..] == [];
    assert SegmentItem(SenderAt(63).sock.snd, SenderAt(63).sock.rcv, Zeros(1022)) == Item(64513, Segment(63));
  }

  lemma ListsLast(inbox: set<Packet>)
    ensures Enabled(LastSent(), inbox, PushItem) && Act(LastSent(), inbox, PushItem) == Outcome(LastPushed(), {})
    ensures Enabled(LastPushed(), inbox, CountItem) && Act(LastPushed(), inbox, CountItem) == Outcome(LastCounted(), {})
  {
  }

  lemma WritesMore(inbox: set<Packet>)
    ensures Enabled(LastCounted(), inbox, Write(Zeros(2)))
    ensures Act(LastCounted(), inbox, Write(Zeros(2))) == Outcome(MoreWritten(), {})
    ensures Enabled(MoreWritten(), inbox, StartBurst)
    ensures Act(MoreWritten(), inbox, StartBurst) == Outcome(MoreBurst(), {})
  {
    ZerosSplit(65536, TOTAL);
    assert |Zeros(2)| == 2 && [] + Zeros(2) == Zeros(2);
    assert Zeros(2)[..2] == Zeros(2) && Zeros(2)[2..] == [];
  }

  lemma SendsMore(inbox: set<Packet>)
    ensures Enabled(MoreBurst(), inbox, SendNext)
    ensures Act(MoreBurst(), inbox, SendNext) == Outcome(MoreSent(), {OVER})
  {
    assert |Zeros(2)| == 2;
    assert Zeros(2)[..2] == Zeros(2) && Zeros(2)[2..] == [];
    assert SegmentItem(MoreBurst().sock.snd, MoreBurst().sock.rcv, Zeros(2)) == Item(65535, OVER);
  }

  function Queued(): Endpoint
  {
    var r := ReceiverAt(63).sock.rcv;
    ReceiverAt(63).(sock := ReceiverAt(63).sock.(rcv := r.(early := [Entry(65535, OVER)], seen := {65535}, earlySize := 2)))
  }

  function Spilled(): Endpoint
  {
    ReceiverAt(63).(sock := ReceiverAt(63).sock.(rcv := Receiver(0, 65535, Zeros(65535), [], {65535}, 0)))
  }

  lemma QueuesOver(inbox: set<Packet>)
    requires OVER in inbox
    ensures Enabled(ReceiverAt(63), inbox, Deliver(OVER, true))
    ensures Act(ReceiverAt(63), inbox, Deliver(OVER, true)) == Outcome(Queued(), {AckOf(63)})
  {
    var r := ReceiverAt(63).sock.rcv;
    assert |Zeros(2)| == 2;
    assert Push([], Entry(65535, OVER)) == [Entry(65535, OVER)];
    assert {} + {65535} == {65535};
    assert Enqueue(r, 65535, OVER) == Queued().sock.rcv;
  }

  function Nearly(): Receiver
  {
    Queued().sock.rcv.(readRing := Zeros(65534), expected := 65535)
  }

  lemma Spills()
    ensures Drain(Nearly(), Established) == RcvResult(Spilled().sock.rcv, Established)
  {
    var r := Nearly();
    var popped := PopEarly(r);
    assert popped.early == [] && popped.earlySize == 0;
    ZerosSplit(65535, 65534);
    assert OVER.data[..1] == Zeros(1);
    assert WriteIntoReadBuffer(popped, OVER.data) == Spilled().sock.rcv;
    assert Drain(Spilled().sock.rcv, Established) == RcvResult(Spilled().sock.rcv, Established);
  }

  lemma TakesLast(inbox: set<Packet>)
    requires Segment(63) in inbox
    ensures Enabled(Queued(), inbox, Deliver(Segment(63), true))
    ensures Act(Queued(), inbox, Deliver(Segment(63), true)).e == Spilled()
  {
    ZerosSplit(65534, 64512);
    assert WriteIntoReadBuffer(Queued().sock.rcv, Zeros(1022)) == Nearly();
    Spills();
  }

  lemma SendsTheLast()
    ensures Start(Begin())
    ensures Reaches(Begin(), System(LastCounted(), ReceiverAt(63), SegmentsSent(63) + {Segment(63)}, AcksSent(63)))
  {
    var s, b, inn := Begin(), ReceiverAt(63), AcksSent(63);
    var out := SegmentsSent(63) + {Segment(63)};
    var s1, s2 := System(LastSent(), b, out, inn), System(LastPushed(), b, out, inn);
    ReachesFilled();
    SendsLast(inn);
    MoveA(s, FilledTo(63), SendNext, {Segment(63)}, s1);
    ListsLast(inn);
    MoveA(s, s1, PushItem, {}, s2);
    MoveA(s, s2, CountItem, {}, System(LastCounted(), b, out, inn));
  }

  lemma SendsTheRest()
    ensures Start(Begin())
    ensures Reaches(Begin(), System(MoreSent(), ReceiverAt(63), SegmentsSent(63) + {Segment(63), OVER}, AcksSent(63)))
  {
    var s, b, inn := Begin(), ReceiverAt(63), AcksSent(63);
    var out := SegmentsSent(63) + {Segment(63)};
    var s3, s4, s5 := System(LastCounted(), b, out, inn), System(MoreWritten(), b, out, inn), System(MoreBurst(), b, out, inn);
    SendsTheLast();
    WritesMore(inn);
    MoveA(s, s3, Write(Zeros(2)), {}, s4);
    MoveA(s, s4, StartBurst, {}, s5);
    SendsMore(inn);
    MoveA(s, s5, SendNext, {OVER}, System(MoreSent(), b, SegmentsSent(63) + {Segment(63), OVER}, inn));
  }

  /** Integrity does fail: a run from a fresh connection that spills, so that the receiving side holds one
      byte more than it has acknowledged and its reader will get that byte twice. */
  lemma SpillHappens() returns (s: System, steps: seq<Step>)
    ensures Start(s) && IsRun(s, steps) && Short(Final(s, steps))
    ensures !NoSpill(s, steps, false) && !Intact(Final(s, steps).b, Final(s, steps).a)
    ensures |Got(Final(s, steps).b)| == 65535 && Final(s, steps).b.sock.rcv.expected == 65535
  {
    s := Begin();
    var out := SegmentsSent(63) + {Segment(63), OVER};
    var s6 := System(MoreSent(), ReceiverAt(63), out, AcksSent(63));
    var s7 := System(MoreSent(), Queued(), out, AcksSent(63) + {AckOf(63)});
    SendsTheRest();
    QueuesOver(out);
    MoveB(s, s6, Deliver(OVER, true), {AckOf(63)}, s7);
    TakesLast(out);
    var acks := Act(Queued(), out, Deliver(Segment(63), true)).out;
    var f := System(MoreSent(), Spilled(), out, s7.fromB + acks);
    MoveB(s, s7, Deliver(Segment(63), true), acks, f);
    steps := Unfold(s, f);
    StreamIntegrityIff(s, steps, false);
  }
}
