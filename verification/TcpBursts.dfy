/** The writer: what it does when it looks at the window, how much it sends before it looks again, and that the
    uninterrupted loop of the socket object is one run of the separate steps. */
module TcpBursts {
  import opened TcpTypes
  import opened TcpSteps
  import opened TcpReassembly
  import opened TcpSending
  import opened TcpSystem
  import opened TcpIntegrity
  import opened TcpFlight

  // ----- what the writer does next -------------------------------------------------------------------

  function Inbox(s: System, atA: bool): set<Packet>
  {
    if atA then s.fromB else s.fromA
  }

  /** In every reachable state the writer, when it is ready, sends a FIN on an empty ring after a shutdown, starts a
      burst on bytes to send while fewer bytes are in flight than the window, and probes otherwise. Whatever it does, a
      socket that is not closed retransmits while anything is in flight. */
  lemma WriterChoice(s: System, steps: seq<Step>, atA: bool)
    requires Start(s) && IsRun(s, steps) && |At(Final(s, steps), atA).sock.rcv.readRing| <= 65535
    ensures var f := Final(s, steps); var k := At(f, atA).sock; var x := k.snd; var n := |FlightBytes(x.inFlight)|;
            && (CanStep(f, Step(atA, Fin)) <==> x.writer == Ready && x.writeRing == [] && !k.canWrite)
            && (CanStep(f, Step(atA, StartBurst)) <==> x.writer == Ready && x.writeRing != [] && n < x.window)
            && (CanStep(f, Step(atA, Probe)) <==> x.writer == Ready && x.writeRing != [] && x.window <= n)
            && (CanStep(f, Step(atA, Retransmit)) <==> x.inFlight != [] && !k.closed)
  {
    FlightRun(s, steps);
    ChoiceNow(At(Final(s, steps), atA), Inbox(Final(s, steps), atA));
  }

  lemma ChoiceNow(e: Endpoint, inbox: set<Packet>)
    requires FlightOk(e.sock.snd) && |e.sock.rcv.readRing| <= 65535
    ensures var x := e.sock.snd; var n := |FlightBytes(x.inFlight)|;
            && (Enabled(e, inbox, Fin) <==> x.writer == Ready && x.writeRing == [] && !e.sock.canWrite)
            && (Enabled(e, inbox, StartBurst) <==> x.writer == Ready && x.writeRing != [] && n < x.window)
            && (Enabled(e, inbox, Probe) <==> x.writer == Ready && x.writeRing != [] && x.window <= n)
            && (Enabled(e, inbox, Retransmit) <==> x.inFlight != [] && !e.sock.closed)
  {
    CounterFacts(e.sock.snd);
  }

  /** A header of the sending half: the number of the next byte, the next byte expected, the room left. */
  predicate HeaderOf(q: Packet, k: Socket)
  {
    && q.seqNum == (k.snd.isn + k.snd.bytesSent + 1) % 0x1_0000_0000
    && q.ackNum == (k.rcv.foreignIsn + k.rcv.expected) % 0x1_0000_0000
    && q.window == 65535 - |k.rcv.readRing|
  }

  /** What the three sending steps put on the wire, in any state. A segment takes the front of the burst, 1024 bytes or
      all that is left; a probe takes one byte from the front of the ring; a FIN takes none. Each advances bytesSent by
      its length, the FIN by one. */
  lemma SentPackets(e: Endpoint, inbox: set<Packet>, act: Action)
    requires Enabled(e, inbox, act) && (act == SendNext || act == Probe || act == Fin)
    ensures exists q :: Act(e, inbox, act).out == {q} && HeaderOf(q, e.sock)
              && SentAs(act, q, e.sock.snd, Act(e, inbox, act).e.sock.snd)
  {
    var x, r := e.sock.snd, e.sock.rcv;
    if act == SendNext {
      var q := SendSegment(x, r).writer.item.packet;
      assert Act(e, inbox, act).out == {q} && HeaderOf(q, e.sock);
      assert x.writer.rest == q.data + SendSegment(x, r).writer.rest;
    } else if act == Probe {
      var q := SendProbe(x, r).writer.item.packet;
      assert Act(e, inbox, act).out == {q} && HeaderOf(q, e.sock);
      assert x.writeRing == q.data + x.writeRing[1..];
    } else {
      assert Act(e, inbox, act).out == {FinPacket(e.sock)} && HeaderOf(FinPacket(e.sock), e.sock);
    }
  }

  predicate SentAs(act: Action, q: Packet, x: Sender, y: Sender)
  {
    if act == SendNext then
      && q.flags == Flags(false, false, true) && x.writer.Burst? && y.writer.Sent? && y.writeRing == x.writeRing
      && q.data + y.writer.rest == x.writer.rest && 0 < |q.data| <= 1024 && (|q.data| == 1024 || y.writer.rest == [])
      && y.bytesSent == (x.bytesSent + |q.data|) % 0x1_0000_0000
    else if act == Probe then
      && q.flags == Flags(false, false, true) && y.writer.ProbeSent? && q.data + y.writeRing == x.writeRing && |q.data| == 1
      && y.bytesSent == (x.bytesSent + 1) % 0x1_0000_0000
    else
      && q.flags == Flags(true, false, false) && q.data == [] && y.writer == Done && y.writeRing == x.writeRing
      && y.bytesSent == (x.bytesSent + 1) % 0x1_0000_0000
  }

  /** A burst takes the front of the ring: as many bytes as the window, or the whole ring if that is less. */
  predicate BurstTaken(x: Sender, y: Sender)
  {
    && y.writer.Burst? && y.writer.rest + y.writeRing == x.writeRing
    && 0 < |y.writer.rest| <= x.window && (|y.writer.rest| == x.window || y.writeRing == [])
    && y == x.(writeRing := y.writeRing, writer := y.writer)
  }

  lemma BurstTakes(e: Endpoint, inbox: set<Packet>)
    requires Enabled(e, inbox, StartBurst)
    ensures BurstTaken(e.sock.snd, Act(e, inbox, StartBurst).e.sock.snd)
  {
  }

  // ----- between two looks at the window -----------------------------------------------------------------

  /** The writer of the given side looks at the ring and the window again. */
  predicate Looks(st: Step, atA: bool)
  {
    st.byA == atA && (st.act == StartBurst || st.act == Probe || st.act == Fin)
  }

  predicate NoLook(steps: seq<Step>, atA: bool)
  {
    forall i :: 0 <= i < |steps| ==> !Looks(steps[i], atA)
  }

  /** What was sent and what is left of the burst. */
  function Committed(x: Sender): int
  {
    x.bytesSent + |Rest(x.writer)|
  }

  /** Nothing is taken back, and the burst shrinks by what is sent. */
  predicate Spends(x: Sender, y: Sender)
  {
    Committed(y) == Committed(x) && x.bytesSent <= y.bytesSent
  }

  lemma ActSpends(e: Endpoint, inbox: set<Packet>, act: Action)
    requires Enabled(e, inbox, act) && act != StartBurst && act != Probe && act != Fin
    requires Committed(e.sock.snd) < MOD32
    ensures Spends(e.sock.snd, Act(e, inbox, act).e.sock.snd)
  {
    if act.Deliver? { HandledSpends(e.sock, act.p, act.checksumOk); }
  }

  lemma HandledSpends(k: Socket, p: Packet, ok: bool)
    requires Free(k.rcv) >= 0
    ensures Spends(k.snd, HandlePacket(k, p, ok).sock.snd)
  {
  }

  lemma CommittedSmall(s: System, atA: bool)
    requires Flows(s)
    ensures 0 <= Committed(At(s, atA).sock.snd) < MOD32
  {
    var e := At(s, atA);
    assert SendingOk(e, if atA then s.fromA else s.fromB);
    assert Conserved(e.sock.snd, e.accepted);
  }

  lemma {:induction false} RunSpends(s: System, steps: seq<Step>, atA: bool)
    requires Flows(s) && IsRun(s, steps) && Short(Final(s, steps)) && NoLook(steps, atA)
    ensures Spends(At(s, atA).sock.snd, At(Final(s, steps), atA).sock.snd)
    decreases |steps|
  {
    if steps != [] {
      ShortAllAlong(Next(s, steps[0]), steps[1..]);
      FlowsStep(s, steps[0]);
      StepSpends(s, steps[0], atA);
      RunSpends(Next(s, steps[0]), steps[1..], atA);
    }
  }

  lemma StepSpends(s: System, st: Step, atA: bool)
    requires Flows(s) && CanStep(s, st) && !Looks(st, atA)
    ensures Spends(At(s, atA).sock.snd, At(Next(s, st), atA).sock.snd)
  {
    CommittedSmall(s, atA);
    if st.byA == atA { ActSpends(At(s, atA), Inbox(s, atA), st.act); }
  }

  /** Over all runs: from the start of a burst until the writer looks again it sends no more bytes than the window was
      then, and no more than the ring held; when it is ready again it has sent exactly the smaller of the two. */
  lemma BurstWithinWindow(s: System, before: seq<Step>, after: seq<Step>, atA: bool)
    requires Start(s) && IsRun(s, before) && CanStep(Final(s, before), Step(atA, StartBurst))
    requires IsRun(Next(Final(s, before), Step(atA, StartBurst)), after) && NoLook(after, atA)
    requires Short(Final(Next(Final(s, before), Step(atA, StartBurst)), after))
    ensures var x := At(Final(s, before), atA).sock.snd;
            var y := At(Final(Next(Final(s, before), Step(atA, StartBurst)), after), atA).sock.snd;
            var n := if x.window < |x.writeRing| then x.window else |x.writeRing|;
            && 0 <= y.bytesSent - x.bytesSent <= n
            && (y.writer == Ready ==> y.bytesSent - x.bytesSent == n)
  {
    var f := Final(s, before);
    var g := Next(f, Step(atA, StartBurst));
    ShortAllAlong(g, after);
    ShortBefore(f, Step(atA, StartBurst));
    ReachableFlows(s, before);
    FlowsStep(f, Step(atA, StartBurst));
    BurstTakes(At(f, atA), Inbox(f, atA));
    RunSpends(g, after, atA);
  }

  lemma ShortBefore(s: System, st: Step)
    requires CanStep(s, st) && Short(Next(s, st))
    ensures Short(s)
  {
    AcceptedGrows(s, st);
  }

  // ----- retransmission ----------------------------------------------------------------------------------

  /** Packet q carries on behind the first r of the bytes sent: with those that stand there, or with the FIN if that
      was all. */
  predicate CarriesOn(q: Packet, isn: Word32, sent: seq<Byte>, r: int)
  {
    && q.seqNum == (isn + 1 + r) % 0x1_0000_0000 && 0 <= r <= |sent|
    && if q.flags.fin then r == |sent| && q.data == []
       else 0 < |q.data| <= 1024 && r + |q.data| <= |sent| && q.data == sent[r..r + |q.data|]
  }

  /** The packet that goes on where the acknowledged bytes end: of the n sent bytes all but those in flight and the
      segment not yet listed. */
  ghost predicate IsFirstMissing(q: Packet, x: Sender, accepted: seq<Byte>)
  {
    var n := |accepted| - |Rest(x.writer)| - |x.writeRing|;
    0 <= n && CarriesOn(q, x.isn, accepted[..n], n - |FlightBytes(x.inFlight)| - |UnpushedBytes(x.writer)|)
  }

  /** In every reachable state a retransmission changes nothing and sends the packet with the first byte, or the FIN,
      that is not yet acknowledged. */
  lemma RetransmitsFirstMissing(s: System, steps: seq<Step>, atA: bool)
    requires Start(s) && IsRun(s, steps) && Short(Final(s, steps)) && CanStep(Final(s, steps), Step(atA, Retransmit))
    ensures var e := At(Final(s, steps), atA); var o := Act(e, Inbox(Final(s, steps), atA), Retransmit);
            o.e == e && exists q :: o.out == {q} && IsFirstMissing(q, e.sock.snd, e.accepted)
  {
    ReachableFlows(s, steps);
    RetransmitsNow(Final(s, steps), atA);
  }

  lemma RetransmitsNow(f: System, atA: bool)
    requires Flows(f) && CanStep(f, Step(atA, Retransmit))
    ensures var e := At(f, atA); var o := Act(e, Inbox(f, atA), Retransmit);
            o.e == e && exists q :: o.out == {q} && IsFirstMissing(q, e.sock.snd, e.accepted)
  {
    var e := At(f, atA);
    HeadIsFirstMissing(e.sock.snd, e.accepted, e.log, if atA then f.fromA else f.fromB);
    assert Act(e, Inbox(f, atA), Retransmit).out == {e.sock.snd.inFlight[0].packet};
  }

  lemma HeadIsFirstMissing(x: Sender, accepted: seq<Byte>, log: map<int, seq<Byte>>, net: set<Packet>)
    requires SenderOk(x, accepted, log, net) && x.inFlight != []
    ensures IsFirstMissing(x.inFlight[0].packet, x, accepted)
  {
    HeadCarriesOn(x, accepted, log, net);
    ConservedNow(x, accepted, log, net);
    assert |accepted| - |Rest(x.writer)| - |x.writeRing| == DataSent(x);
  }

  lemma HeadCarriesOn(x: Sender, accepted: seq<Byte>, log: map<int, seq<Byte>>, net: set<Packet>)
    requires SenderOk(x, accepted, log, net) && x.inFlight != []
    ensures CarriesOn(x.inFlight[0].packet, x.isn, accepted[..DataSent(x)], Removed(x))
  {
    var t := StreamOf(x, accepted, log);
    HeadInStream(x, accepted, log, net);
    assert ItemOk(x.inFlight[0], t, x.isn, net);
    HeadItem(x.inFlight, Upto(x), t, x.isn, net);
    SegmentSizes(x, accepted, log, net);
  }

  // ----- the application's three calls -----------------------------------------------------------------------

  /** A write puts its bytes behind the ring, a read takes its bytes from the front, a shutdown withdraws what it names
      and never gives anything back; none of them sends a packet. */
  lemma CallLaw(e: Endpoint, inbox: set<Packet>, act: Action)
    requires Enabled(e, inbox, act) && (act.Write? || act.Read? || act.Shutdown?)
    ensures var o := Act(e, inbox, act); var k, k' := e.sock, o.e.sock;
            && o.out == {} && k'.connState == k.connState && k'.closed == k.closed
            && k'.snd == k.snd.(writeRing := k'.snd.writeRing) && k'.rcv == k.rcv.(readRing := k'.rcv.readRing)
            && (act.Write? ==> k'.snd.writeRing == k.snd.writeRing + act.chunk && |k'.snd.writeRing| <= 65535 && k'.rcv == k.rcv)
            && (act.Read? ==> k.rcv.readRing == o.e.delivered[|e.delivered|..] + k'.rcv.readRing && e.delivered <= o.e.delivered
                              && |o.e.delivered| == |e.delivered| + act.n && k'.snd == k.snd)
            && (act.Shutdown? ==> k'.snd == k.snd && k'.rcv == k.rcv)
            && (k'.canRead <==> k.canRead && !(act.Shutdown? && act.read))
            && (k'.canWrite <==> k.canWrite && !(act.Shutdown? && act.write))
  {
    if act.Read? {
      var ring := e.sock.rcv.readRing;
      assert (e.delivered + ring[..act.n])[|e.delivered|..] == ring[..act.n];
      assert ring == ring[..act.n] + ring[act.n..];
    }
  }

  // ----- the loop as a run ---------------------------------------------------------------------------------

  /** Send, list and count one segment, with no one in between. */
  function BurstRound(x: Sender, r: Receiver): (y: Sender)
    requires x.writer.Burst? && x.writer.rest != [] && 0 <= Free(r)
    ensures AtRound(y) && |Rest(y.writer)| < |x.writer.rest|
  {
    AddFlight(PushSegment(SendSegment(x, r)))
  }

  /** Between two rounds. */
  predicate AtRound(x: Sender)
  {
    x.writer == Ready || (x.writer.Burst? && x.writer.rest != [])
  }

  /** Until the burst is used up. */
  function BurstRounds(x: Sender, r: Receiver): (y: Sender)
    requires AtRound(x) && 0 <= Free(r)
    ensures y.writer == Ready
    decreases |Rest(x.writer)|
  {
    if x.writer == Ready then x else BurstRounds(BurstRound(x, r), r)
  }

  predicate Segments(items: seq<Item>)
  {
    forall i :: 0 <= i < |items| ==> 0 < |items[i].packet.data| <= 1024
  }

  /** One round lists one segment with the front of the burst. */
  lemma RoundLists(x: Sender, r: Receiver) returns (it: Item)
    requires x.writer.Burst? && x.writer.rest != [] && 0 <= Free(r)
    ensures BurstRound(x, r).inFlight == x.inFlight + [it] && BurstRound(x, r).writeRing == x.writeRing
    ensures it.packet.data + Rest(BurstRound(x, r).writer) == x.writer.rest && 0 < |it.packet.data| <= 1024
  {
    it := SendSegment(x, r).writer.item;
    assert x.writer.rest == it.packet.data + SendSegment(x, r).writer.rest;
  }

  /** All rounds list the burst: its bytes, in order, cut into segments, behind what was in flight. */
  lemma {:induction false} RoundsList(x: Sender, r: Receiver) returns (items: seq<Item>)
    requires AtRound(x) && 0 <= Free(r)
    ensures BurstRounds(x, r).inFlight == x.inFlight + items && BurstRounds(x, r).writeRing == x.writeRing
    ensures FlightBytes(items) == Rest(x.writer) && Segments(items)
    decreases |Rest(x.writer)|
  {
    items := [];
    if x.writer != Ready {
      var it := RoundLists(x, r);
      var y := BurstRound(x, r);
      var rest := RoundsList(y, r);
      items := [it] + rest;
      OneListedFirst(x.inFlight, it, rest, BurstRounds(y, r).inFlight, Rest(y.writer), x.writer.rest);
    }
  }

  lemma OneListedFirst(before: seq<Item>, it: Item, rest: seq<Item>, all: seq<Item>, tail: seq<Byte>, whole: seq<Byte>)
    requires all == before + [it] + rest && it.packet.data + tail == whole && FlightBytes(rest) == tail
    requires Segments(rest) && 0 < |it.packet.data| <= 1024
    ensures all == before + ([it] + rest) && FlightBytes([it] + rest) == whole && Segments([it] + rest)
  {
    assert ([it] + rest)[1..] == rest;
  }

  function Rounds(n: nat): (steps: seq<Step>)
    ensures |steps| == 3 * n
  {
    if n == 0 then [] else [Step(true, SendNext), Step(true, PushItem), Step(true, CountItem)] + Rounds(n - 1)
  }

  lemma ConsRun(s: System, st: Step, rest: seq<Step>)
    requires CanStep(s, st) && IsRun(Next(s, st), rest)
    ensures IsRun(s, [st] + rest) && Final(s, [st] + rest) == Final(Next(s, st), rest)
  {
    assert ([st] + rest)[1..] == rest;
  }

  lemma ThreeSteps(s: System, x: Step, y: Step, z: Step, rest: seq<Step>, all: seq<Step>)
    requires CanStep(s, x) && CanStep(Next(s, x), y) && CanStep(Next(Next(s, x), y), z)
    requires IsRun(Next(Next(Next(s, x), y), z), rest) && all == [x, y, z] + rest
    ensures IsRun(s, all) && Final(s, all) == Final(Next(Next(Next(s, x), y), z), rest)
  {
    ConsRun(Next(Next(s, x), y), z, rest);
    ConsRun(Next(s, x), y, [z] + rest);
    ConsRun(s, x, [y] + ([z] + rest));
    assert all == [x] + ([y] + ([z] + rest));
  }

  /** What stays as it is while a sends. */
  predicate OnlySends(s: System, f: System)
  {
    f.b == s.b && f.fromB == s.fromB && f.a.sock == s.a.sock.(snd := f.a.sock.snd)
  }

  lemma RoundSteps(s: System)
    requires s.a.sock.snd.writer.Burst? && s.a.sock.snd.writer.rest != [] && |s.a.sock.rcv.readRing| <= BUFFER_SIZE
    ensures CanStep(s, Step(true, SendNext)) && CanStep(Next(s, Step(true, SendNext)), Step(true, PushItem))
    ensures CanStep(Next(Next(s, Step(true, SendNext)), Step(true, PushItem)), Step(true, CountItem))
    ensures var f := Next(Next(Next(s, Step(true, SendNext)), Step(true, PushItem)), Step(true, CountItem));
            OnlySends(s, f) && f.a.sock.snd == BurstRound(s.a.sock.snd, s.a.sock.rcv)
  {
  }

  /** One round leads to f, and any rounds from f are one more from s. */
  lemma RoundIsSteps(s: System) returns (f: System)
    requires s.a.sock.snd.writer.Burst? && s.a.sock.snd.writer.rest != [] && |s.a.sock.rcv.readRing| <= BUFFER_SIZE
    ensures OnlySends(s, f) && f.a.sock.snd == BurstRound(s.a.sock.snd, s.a.sock.rcv)
    ensures forall m: nat :: IsRun(f, Rounds(m)) ==> IsRun(s, Rounds(m + 1)) && Final(s, Rounds(m + 1)) == Final(f, Rounds(m))
  {
    RoundSteps(s);
    var x, y, z := Step(true, SendNext), Step(true, PushItem), Step(true, CountItem);
    f := Next(Next(Next(s, x), y), z);
    forall m: nat | IsRun(f, Rounds(m))
      ensures IsRun(s, Rounds(m + 1)) && Final(s, Rounds(m + 1)) == Final(f, Rounds(m))
    {
      ThreeSteps(s, x, y, z, Rounds(m), Rounds(m + 1));
    }
  }

  lemma {:induction false} RoundsAreSteps(s: System) returns (n: nat)
    requires AtRound(s.a.sock.snd) && |s.a.sock.rcv.readRing| <= BUFFER_SIZE
    ensures IsRun(s, Rounds(n)) && OnlySends(s, Final(s, Rounds(n)))
    ensures Final(s, Rounds(n)).a.sock.snd == BurstRounds(s.a.sock.snd, s.a.sock.rcv)
    decreases |Rest(s.a.sock.snd.writer)|
  {
    n := 0;
    if s.a.sock.snd.writer != Ready {
      var f := RoundIsSteps(s);
      var m := RoundsAreSteps(f);
      n := m + 1;
    }
  }

  /** The uninterrupted burst of the socket object is one of the runs all theorems speak of: the start of the burst, then
      send, list and count in turn. */
  lemma BurstIsRun(s: System) returns (n: nat)
    requires CanStep(s, Step(true, StartBurst))
    ensures IsRun(s, [Step(true, StartBurst)] + Rounds(n)) && OnlySends(s, Final(s, [Step(true, StartBurst)] + Rounds(n)))
    ensures Final(s, [Step(true, StartBurst)] + Rounds(n)).a.sock.snd == BurstRounds(BeginBurst(s.a.sock.snd), s.a.sock.rcv)
  {
    n := RoundsAreSteps(Next(s, Step(true, StartBurst)));
    ConsRun(s, Step(true, StartBurst), Rounds(n));
  }
}
