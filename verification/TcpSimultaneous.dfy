/** Both sides close: when a FIN that was acked is also recorded, and how a side that did not record it can
    still get out of FIN_WAIT_2. */
module TcpSimultaneous {
  import opened TcpTypes
  import opened TcpSteps
  import opened TcpReassembly
  import opened TcpSending
  import opened TcpSystem
  import opened TcpIntegrity
  import opened TcpTeardown
  import opened TcpHalfClose

  // ----- a FIN in sequence --------------------------------------------------------------------

  /** The reply to a FIN in sequence: an ack of everything received and of the FIN. */
  predicate AcksFin(out: set<Packet>, k: Socket)
    requires Free(k.rcv) >= 0
  {
    var a := AckPacket(k.snd, k.rcv, []);
    out == {a.(ackNum := Add32(a.ackNum, 1))}
  }

  lemma ReachesOrderly(s: System, steps: seq<Step>, atA: bool)
    requires Start(s) && IsRun(s, steps) && Short(Final(s, steps))
    ensures Orderly(SeenFrom(Final(s, steps), atA))
    ensures StateMatchesList(At(Final(s, steps), atA).sock) && Free(At(Final(s, steps), atA).sock.rcv) >= 0
  {
    StartOrderly(s);
    OrderlyRun(s, steps);
  }

  lemma RecordedUnless(k: Socket)
    requires StateMatchesList(k) && !k.closed
    ensures PeerFinTaken(TakeFin(k.connState)) <==> k.connState != FinWait1
  {
  }

  /** In every reachable state a FIN in sequence is acked, and it is recorded if and only if it does not find the
      side in FIN_WAIT_1. */
  lemma FinRecordedIff(s: System, steps: seq<Step>, atA: bool, p: Packet, ok: bool)
    requires Start(s) && IsRun(s, steps) && Short(Final(s, steps)) && FinInSequence(At(Final(s, steps), atA).sock, p, ok)
    ensures Free(At(Final(s, steps), atA).sock.rcv) >= 0
    ensures var k := At(Final(s, steps), atA).sock; var h := HandlePacket(k, p, ok);
            AcksFin(h.out, k) && (PeerFinTaken(h.sock.connState) <==> k.connState != FinWait1)
  {
    ReachesOrderly(s, steps, atA);
    RecordedUnless(At(Final(s, steps), atA).sock);
  }

  // ----- out of FIN_WAIT_2 ----------------------------------------------------------------------

  /** An intact FIN is handed to the given side. */
  predicate GetsFin(st: Step, atA: bool)
  {
    st.byA == atA && st.act.Deliver? && st.act.checksumOk && st.act.p.flags.fin
  }

  /** Side a took the peer's FIN in FIN_WAIT_1 and has had its own acked since. */
  ghost predicate Missed(s: System)
  {
    Orderly(s) && s.a.finTaken && s.a.sock.connState == FinWait2
  }

  /** All data of b is behind a, so no packet but the FIN moves a's state. */
  lemma MissedDeliver(s: System, p: Packet, ok: bool)
    requires Missed(s) && Enabled(s.a, s.fromB, Deliver(p, ok))
    ensures HandlePacket(s.a.sock, p, ok).sock.connState == if ok && p.flags.fin then TimeWait else FinWait2
  {
    var k := s.a.sock;
    ArrivalFromStream(s, p);
    if ok && p.flags == FLAG_ACK && ReceiveAck(k.snd, k.connState, p).AckTaken? {
      AckMovesList(k, p, StreamFrom(s.a), s.fromA);
      if p.data != [] { DataIsBehind(k.rcv, FinWait2, p, StreamFrom(s.b)); }
    }
  }

  lemma DataIsBehind(r: Receiver, st: ConnState, p: Packet, t: Stream)
    requires Free(r) >= 0 && FromStream(t, RelSeq(r, p), p) && p.data != [] && r.expected == End(t) && StreamOk(t)
    requires !p.flags.fin
    ensures ReceiveData(r, st, p) == RcvResult(r, st)
  {
  }

  lemma MissedStep(s: System, st: Step)
    requires Missed(s) && CanStep(s, st) && Short(Next(s, st))
    ensures Next(s, st).a.sock.connState == if GetsFin(st, true) then TimeWait else FinWait2
    ensures !GetsFin(st, true) ==> Missed(Next(s, st))
  {
    OrderlyStep(s, st);
    if st.byA {
      if st.act.Deliver? { MissedDeliver(s, st.act.p, st.act.checksumOk); } else { LocalState(s, st.act); }
    }
  }

  lemma MissedStepAt(s: System, st: Step, atA: bool)
    requires Missed(SeenFrom(s, atA)) && CanStep(s, st) && Short(Next(s, st))
    ensures At(Next(s, st), atA).sock.connState == if GetsFin(st, atA) then TimeWait else FinWait2
    ensures !GetsFin(st, atA) ==> Missed(SeenFrom(Next(s, st), atA))
  {
    MissedStep(SeenFrom(s, atA), Step(st.byA == atA, st.act));
  }

  lemma OrderlyStepAt(s: System, st: Step, atA: bool)
    requires Orderly(SeenFrom(s, atA)) && CanStep(s, st) && Short(Next(s, st))
    ensures Orderly(SeenFrom(Next(s, st), atA))
    ensures StaysOrMoves(At(s, atA).sock.connState, At(Next(s, st), atA).sock.connState)
  {
    OrderlyStep(SeenFrom(s, atA), Step(st.byA == atA, st.act));
  }

  /** TIME_WAIT is left by no step. */
  lemma {:induction false} TimeWaitStays(s: System, steps: seq<Step>, atA: bool)
    requires Orderly(SeenFrom(s, atA)) && At(s, atA).sock.connState == TimeWait && IsRun(s, steps) && Short(Final(s, steps))
    ensures At(Final(s, steps), atA).sock.connState == TimeWait
    decreases |steps|
  {
    if steps != [] {
      ShortAllAlong(Next(s, steps[0]), steps[1..]);
      OrderlyStepAt(s, steps[0], atA);
      TimeWaitStays(Next(s, steps[0]), steps[1..], atA);
    }
  }

  /** The run hands an intact FIN to the given side. */
  predicate FinRepeated(steps: seq<Step>, atA: bool)
  {
    exists i :: 0 <= i < |steps| && GetsFin(steps[i], atA)
  }

  lemma FinRepeatedRest(steps: seq<Step>, atA: bool)
    requires steps != []
    ensures FinRepeated(steps, atA) <==> GetsFin(steps[0], atA) || FinRepeated(steps[1..], atA)
  {
    if FinRepeated(steps[1..], atA) {
      var i :| 0 <= i < |steps[1..]| && GetsFin(steps[1..][i], atA);
      assert GetsFin(steps[i + 1], atA);
    }
    if FinRepeated(steps, atA) && !GetsFin(steps[0], atA) {
      var i :| 0 <= i < |steps| && GetsFin(steps[i], atA);
      assert GetsFin(steps[1..][i - 1], atA);
    }
  }

  lemma {:induction false} LeavesRun(s: System, steps: seq<Step>, atA: bool)
    requires Missed(SeenFrom(s, atA)) && IsRun(s, steps) && Short(Final(s, steps))
    ensures At(Final(s, steps), atA).sock.connState == if FinRepeated(steps, atA) then TimeWait else FinWait2
    decreases |steps|
  {
    if steps != [] {
      var s' := Next(s, steps[0]);
      ShortAllAlong(s', steps[1..]);
      MissedStepAt(s, steps[0], atA);
      OrderlyStepAt(s, steps[0], atA);
      FinRepeatedRest(steps, atA);
      if GetsFin(steps[0], atA) { TimeWaitStays(s', steps[1..], atA); } else { LeavesRun(s', steps[1..], atA); }
    }
  }

  /** For every run that leaves a side in FIN_WAIT_2 with the peer's FIN taken but not recorded: whatever follows,
      it leaves that state, for TIME_WAIT, if and only if an intact copy of the FIN is delivered to it again. */
  lemma LeavesFinWait2Iff(s: System, before: seq<Step>, after: seq<Step>, atA: bool)
    requires Start(s) && IsRun(s, before) && IsRun(Final(s, before), after) && Short(Final(Final(s, before), after))
    requires At(Final(s, before), atA).finTaken && At(Final(s, before), atA).sock.connState == FinWait2
    ensures At(Final(Final(s, before), after), atA).sock.connState == if FinRepeated(after, atA) then TimeWait else FinWait2
  {
    ShortAllAlong(Final(s, before), after);
    ReachesOrderly(s, before, atA);
    LeavesRun(Final(s, before), after, atA);
  }

  // ----- recorded, over the whole run ---------------------------------------------------------------

  /** The step hands a FIN in sequence to the given side, outside FIN_WAIT_1. */
  predicate Records(s: System, st: Step, atA: bool)
  {
    && st.byA == atA && st.act.Deliver? && FinInSequence(At(s, atA).sock, st.act.p, st.act.checksumOk)
    && At(s, atA).sock.connState != FinWait1
  }

  predicate Recording(s: System, steps: seq<Step>, atA: bool)
    requires IsRun(s, steps)
    decreases |steps|
  {
    steps != [] && (Records(s, steps[0], atA) || Recording(Next(s, steps[0]), steps[1..], atA))
  }

  /** Taken in sequence, and recorded. */
  predicate Noted(e: Endpoint)
  {
    e.finTaken && PeerFinTaken(e.sock.connState)
  }

  /** A packet that is no FIN in sequence: only one that is in FIN_WAIT_2 could still come to be recorded. */
  lemma OtherNotNoted(s: System, p: Packet, ok: bool)
    requires Orderly(s) && Enabled(s.a, s.fromB, Deliver(p, ok)) && !FinInSequence(s.a.sock, p, ok)
    requires StaysOrMoves(s.a.sock.connState, HandlePacket(s.a.sock, p, ok).sock.connState)
    ensures s.a.finTaken ==>
              (PeerFinTaken(HandlePacket(s.a.sock, p, ok).sock.connState) <==> PeerFinTaken(s.a.sock.connState))
  {
    if Missed(s) {
      MissedDeliver(s, p, ok);
      ArrivalFromStream(s, p);
    }
  }

  lemma NotedDeliver(s: System, p: Packet, ok: bool)
    requires Orderly(s) && Enabled(s.a, s.fromB, Deliver(p, ok))
    requires StaysOrMoves(s.a.sock.connState, HandlePacket(s.a.sock, p, ok).sock.connState)
    ensures Noted(StepA(s, Deliver(p, ok)).a) <==> Noted(s.a) || Records(s, Step(true, Deliver(p, ok)), true)
  {
    if FinInSequence(s.a.sock, p, ok) {
      RecordedUnless(s.a.sock);
    } else {
      OtherNotNoted(s, p, ok);
    }
  }

  lemma NotedStepA(s: System, act: Action)
    requires Orderly(s) && Enabled(s.a, s.fromB, act) && Short(StepA(s, act))
    ensures Noted(StepA(s, act).a) <==> Noted(s.a) || Records(s, Step(true, act), true)
  {
    OrderlyStepA(s, act);
    if act.Deliver? { NotedDeliver(s, act.p, act.checksumOk); } else { LocalState(s, act); }
  }

  lemma NotedStepAt(s: System, st: Step, atA: bool)
    requires Orderly(SeenFrom(s, atA)) && CanStep(s, st) && Short(Next(s, st))
    ensures Noted(At(Next(s, st), atA)) <==> Noted(At(s, atA)) || Records(s, st, atA)
  {
    if st.byA == atA { NotedStepA(SeenFrom(s, atA), st.act); }
  }

  lemma {:induction false} NotedRun(s: System, steps: seq<Step>, atA: bool)
    requires Orderly(SeenFrom(s, atA)) && IsRun(s, steps) && Short(Final(s, steps))
    ensures Noted(At(Final(s, steps), atA)) <==> Noted(At(s, atA)) || Recording(s, steps, atA)
    decreases |steps|
  {
    if steps != [] {
      var st := steps[0];
      ShortAllAlong(Next(s, st), steps[1..]);
      OrderlyStepAt(s, st, atA);
      NotedStepAt(s, st, atA);
      NotedRun(Next(s, st), steps[1..], atA);
    }
  }

  /** Over every run, a FIN that was taken in sequence is recorded if and only if some copy of it in sequence
      found the side outside FIN_WAIT_1. */
  lemma RecordedIff(s: System, steps: seq<Step>, atA: bool)
    requires Start(s) && IsRun(s, steps) && Short(Final(s, steps)) && At(Final(s, steps), atA).finTaken
    ensures PeerFinTaken(At(Final(s, steps), atA).sock.connState) <==> Recording(s, steps, atA)
  {
    StartOrderly(s);
    NotedRun(s, steps, atA);
  }

  // ----- both sides -----------------------------------------------------------------------------------

  /** The step puts neither a FIN nor data on the wire. */
  predicate Silent(act: Action)
  {
    act != Fin && act != Retransmit && act != SendNext && act != Probe
  }

  predicate AllSilent(steps: seq<Step>)
  {
    forall i :: 0 <= i < |steps| ==> Silent(steps[i].act)
  }

  ghost predicate BothHalfClosed(s: System)
  {
    Orderly(s) && HalfClosed(s.a.sock) && HalfClosed(s.b.sock)
  }

  lemma SilentActs(e: Endpoint, inbox: set<Packet>, act: Action)
    requires StateMatchesList(e.sock) && HalfClosed(e.sock) && Enabled(e, inbox, act)
    ensures Silent(act)
  {
  }

  lemma SilentStep(s: System, st: Step)
    requires BothHalfClosed(s) && CanStep(s, st) && Short(Next(s, st))
    ensures Silent(st.act) && BothHalfClosed(Next(s, st))
  {
    OrderlyStep(s, st);
    if st.byA { SilentActs(s.a, s.fromB, st.act); } else { SilentActs(s.b, s.fromA, st.act); }
  }

  lemma {:induction false} SilentRun(s: System, steps: seq<Step>)
    requires BothHalfClosed(s) && IsRun(s, steps) && Short(Final(s, steps))
    ensures AllSilent(steps)
    decreases |steps|
  {
    if steps != [] {
      ShortAllAlong(Next(s, steps[0]), steps[1..]);
      SilentStep(s, steps[0]);
      SilentRun(Next(s, steps[0]), steps[1..]);
    }
  }

  /** A simultaneous close. Whenever both sides stand in FIN_WAIT_2, each has taken the other's FIN in sequence
      and neither ever sends a FIN again: whatever follows, each of them stays there if and only if the network
      delivers it no copy of the FIN it has left over. */
  lemma BothStuckIff(s: System, before: seq<Step>, after: seq<Step>)
    requires Start(s) && IsRun(s, before) && IsRun(Final(s, before), after) && Short(Final(Final(s, before), after))
    requires forall atA :: At(Final(s, before), atA).sock.connState == FinWait2
    ensures AllSilent(after)
    ensures forall atA :: At(Final(s, before), atA).finTaken
              && At(Final(Final(s, before), after), atA).sock.connState == if FinRepeated(after, atA) then TimeWait else FinWait2
  {
    var f := Final(s, before);
    ShortAllAlong(f, after);
    ReachesOrderly(s, before, true);
    assert At(f, true) == f.a && At(f, false) == f.b;
    SilentRun(f, after);
    forall atA ensures At(f, atA).finTaken
        && At(Final(f, after), atA).sock.connState == if FinRepeated(after, atA) then TimeWait else FinWait2 {
      LeavesFinWait2Iff(s, before, after, atA);
    }
  }
}
