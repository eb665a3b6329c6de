/** The early-arrival queue over whole runs: what it holds, how often a number enters it, and that its size
    counter is the true size. */
module TcpQueue {
  import opened Heap
  import opened TcpTypes
  import opened TcpSteps
  import opened TcpReassembly
  import opened TcpSending
  import opened TcpSystem
  import opened TcpIntegrity

  /** Pending segments are disjoint pieces of the stream behind `at`, so they fit into what is left of it. */
  lemma {:induction false} QueueFits(early: seq<Entry<Packet>>, pend: map<int, Packet>, at: int, t: Stream)
    requires Ordered(early) && Represents(early, pend) && StreamOk(t) && at <= End(t)
    requires forall k :: k in pend ==> at <= k && FromStream(t, k, pend[k])
    ensures QueuedBytes(early) <= End(t) - at
    decreases |early|
  {
    if early != [] {
      var k := early[0].priority;
      HeadInMap(early, pend);
      HeadOfQueue(early, pend, k);
      var len := |pend[k].data|;
      BehindHead(pend, k, t);
      QueueFits(PopRest(early), pend - {k}, k + len, t);
      QueuedBytesPop(early);
    }
  }

  lemma HeadInMap(early: seq<Entry<Packet>>, pend: map<int, Packet>)
    requires early != [] && Ordered(early) && Represents(early, pend)
    ensures early[0].priority in pend && forall k :: k in pend ==> early[0].priority <= k
  {
    assert early[0] in multiset(early);
    forall k | k in pend ensures early[0].priority <= k {
      var e := Entry(k, pend[k]);
      assert multiset(early)[e] == 1;
      assert e in early;
      var i :| 0 <= i < |early| && early[i] == e;
      RootIsLeast(early, i);
    }
  }

  lemma BehindHead(pend: map<int, Packet>, k: int, t: Stream)
    requires k in pend && StreamOk(t) && forall j :: j in pend ==> k <= j && FromStream(t, j, pend[j])
    ensures k + |pend[k].data| <= End(t)
    ensures forall j :: j in pend - {k} ==> k + |pend[k].data| <= j && FromStream(t, j, (pend - {k})[j])
  {
    assert FromStream(t, k, pend[k]);
    forall j | j in pend - {k} ensures k + |pend[k].data| <= j { assert FromStream(t, j, pend[j]); }
  }

  lemma CountedTwice(early: seq<Entry<Packet>>, i: int, j: int)
    requires 0 <= i < j < |early| && early[i] == early[j]
    ensures multiset(early)[early[j]] >= 2
  {
    assert early == early[..j] + ([early[j]] + early[j + 1..]);
    assert early[..j][i] == early[j];
    assert early[j] in multiset(early[..j]);
  }

  lemma NoTwins(early: seq<Entry<Packet>>, pend: map<int, Packet>, i: int, j: int)
    requires Represents(early, pend) && 0 <= i < j < |early|
    ensures early[i].priority != early[j].priority
  {
    assert early[i] in multiset(early) && early[j] in multiset(early);
    if early[i] == early[j] { CountedTwice(early, i, j); }
  }

  /** A queue in order: a heap of distinct numbers behind the next expected byte, its size counter exact. */
  ghost predicate QueueOk(r: Receiver)
  {
    && Ordered(r.early)
    && (forall i :: 0 <= i < |r.early| ==> r.expected < r.early[i].priority && r.early[i].priority in r.seen)
    && (forall i, j :: 0 <= i < j < |r.early| ==> r.early[i].priority != r.early[j].priority)
    && r.earlySize == QueuedBytes(r.early)
  }

  lemma ReceiverQueue(r: Receiver, delivered: seq<Byte>, t: Stream)
    requires ReceiverOk(r, delivered, t) && StreamOk(t)
    ensures QueueOk(r) && QueuedBytes(r.early) <= |t.bytes|
  {
    QueueFacts(r, Pending(r.early), t);
  }

  lemma QueueFacts(r: Receiver, pend: map<int, Packet>, t: Stream)
    requires Ordered(r.early) && Represents(r.early, pend) && PendOk(pend, r.expected + 1, r.seen, t)
    requires StreamOk(t) && 1 <= r.expected && r.earlySize == QueuedBytes(r.early) % MOD32
    ensures QueueOk(r) && QueuedBytes(r.early) <= |t.bytes|
  {
    PendingFits(r.early, pend, r.expected, r.seen, t);
    AllDistinct(r.early, pend);
  }

  lemma PendingFits(early: seq<Entry<Packet>>, pend: map<int, Packet>, at: int, seen: set<Word32>, t: Stream)
    requires Ordered(early) && Represents(early, pend) && StreamOk(t) && PendOk(pend, at + 1, seen, t) && 1 <= at
    ensures 0 <= QueuedBytes(early) <= |t.bytes|
  {
    QueueFits(early, pend, 1, t);
    BytesNotNegative(early);
  }

  lemma AllDistinct(early: seq<Entry<Packet>>, pend: map<int, Packet>)
    requires Represents(early, pend)
    ensures forall i, j :: 0 <= i < j < |early| ==> early[i].priority != early[j].priority
  {
    forall i, j | 0 <= i < j < |early| ensures early[i].priority != early[j].priority {
      NoTwins(early, pend, i, j);
    }
  }

  lemma {:induction false} BytesNotNegative(early: seq<Entry<Packet>>)
    ensures QueuedBytes(early) >= 0
  {
    if early != [] { BytesNotNegative(early[1..]); }
  }

  /** In every reachable state the queue is in order; in particular the check for an entry that was passed
      over never fires, and earlyArrivalPacketSize is the number of bytes queued. */
  lemma QueueExact(s: System, steps: seq<Step>, atA: bool)
    requires Start(s) && IsRun(s, steps) && Short(Final(s, steps))
    ensures QueueOk(At(Final(s, steps), atA).sock.rcv)
    ensures QueuedBytes(At(Final(s, steps), atA).sock.rcv.early) <= |At(Final(s, steps), !atA).accepted|
  {
    ReachableFlows(s, steps);
    var f := Final(s, steps);
    var e, peer := At(f, atA), At(f, !atA);
    ReceiverQueue(e.sock.rcv, e.delivered, StreamFrom(peer));
  }

  // ----- each number is queued at most once ----------------------------------------------------

  /** The step puts number rel into the queue of the given side. */
  predicate Queues(s: System, st: Step, atA: bool, rel: Word32)
    requires CanStep(s, st)
  {
    rel !in At(s, atA).sock.rcv.seen && rel in At(Next(s, st), atA).sock.rcv.seen
  }

  function TimesQueued(s: System, steps: seq<Step>, atA: bool, rel: Word32): nat
    requires IsRun(s, steps)
    decreases |steps|
  {
    if steps == [] then 0
    else (if Queues(s, steps[0], atA, rel) then 1 else 0) + TimesQueued(Next(s, steps[0]), steps[1..], atA, rel)
  }

  lemma {:induction false} DrainTakesOut(r: Receiver, st: ConnState)
    requires Free(r) >= 0
    ensures Drain(r, st).rcv.seen == r.seen && multiset(Drain(r, st).rcv.early) <= multiset(r.early)
    decreases |r.early|
  {
    if |r.early| != 0 && r.early[0].priority == r.expected {
      var p := r.early[0].value;
      PopPermutes(r.early);
      DrainTakesOut(WriteIntoReadBuffer(PopEarly(r), p.data), if p.flags == FLAG_FIN then TakeFin(st) else st);
    }
  }

  /** What a receiver may do with its queue and its seen-set. */
  ghost predicate QueueMoves(r: Receiver, r': Receiver)
  {
    && r.seen <= r'.seen
    && (forall e :: e in r'.early && e !in r.early ==> e.priority in r'.seen && e.priority !in r.seen)
  }

  lemma EnqueueMoves(r: Receiver, rel: Word32, p: Packet)
    requires Ordered(r.early)
    ensures QueueMoves(r, Enqueue(r, rel, p))
  {
    if rel !in r.seen {
      PushOrders(r.early, Entry(rel, p));
      forall e | e in Enqueue(r, rel, p).early && e !in r.early ensures e.priority == rel {
        assert e in multiset(Enqueue(r, rel, p).early);
      }
    }
  }

  lemma ReceiveMoves(r: Receiver, st: ConnState, p: Packet)
    requires Ordered(r.early) && Free(r) >= 0
    ensures QueueMoves(r, ReceiveData(r, st, p).rcv) && QueueMoves(r, ReceiveFin(r, st, p).rcv)
  {
    EnqueueMoves(r, RelSeq(r, p), p);
    if Free(r) >= |p.data| {
      var r1 := WriteIntoReadBuffer(r, p.data);
      DrainTakesOut(r1, st);
      forall e | e in Drain(r1, st).rcv.early ensures e in r.early {
        assert e in multiset(Drain(r1, st).rcv.early);
        assert e in multiset(r.early);
      }
    }
  }

  lemma StepMovesA(s: System, act: Action)
    requires Ordered(s.a.sock.rcv.early) && Enabled(s.a, s.fromB, act)
    ensures QueueMoves(s.a.sock.rcv, StepA(s, act).a.sock.rcv)
  {
    var k := s.a.sock;
    if act.Deliver? {
      HandledReceiver(k, act.p, act.checksumOk);
      ReceiveMoves(k.rcv, k.connState, act.p);
      if DataIsTaken(k, act.p, act.checksumOk) {
        ReceiveMoves(k.rcv, ReceiveAck(k.snd, k.connState, act.p).connState, act.p);
      }
    }
  }

  lemma StepMoves(s: System, st: Step, atA: bool)
    requires Ordered(At(s, atA).sock.rcv.early) && CanStep(s, st)
    ensures QueueMoves(At(s, atA).sock.rcv, At(Next(s, st), atA).sock.rcv)
  {
    if st.byA == atA { StepMovesA(if st.byA then s else Flip(s), st.act); }
  }

  lemma {:induction false} OnceFrom(s: System, steps: seq<Step>, atA: bool, rel: Word32)
    requires Flows(s) && IsRun(s, steps) && Short(Final(s, steps))
    ensures TimesQueued(s, steps, atA, rel) <= if rel in At(s, atA).sock.rcv.seen then 0 else 1
    decreases |steps|
  {
    if steps != [] {
      StepMoves(s, steps[0], atA);
      ShortAllAlong(Next(s, steps[0]), steps[1..]);
      FlowsStep(s, steps[0]);
      OnceFrom(Next(s, steps[0]), steps[1..], atA, rel);
    }
  }

  /** Over every run each sequence number enters the queue at most once, and an entry appears in the queue
      only by such a step. */
  lemma QueuedOnce(s: System, steps: seq<Step>, st: Step, atA: bool, rel: Word32)
    requires Start(s) && IsRun(s, steps) && Short(Final(s, steps)) && CanStep(Final(s, steps), st)
    ensures TimesQueued(s, steps, atA, rel) <= 1
    ensures forall e :: e in At(Next(Final(s, steps), st), atA).sock.rcv.early
                        && e !in At(Final(s, steps), atA).sock.rcv.early && e.priority == rel ==>
              Queues(Final(s, steps), st, atA, rel)
  {
    StartFlow(s.a, s.b, s.fromA, s.fromB);
    StartFlow(s.b, s.a, s.fromB, s.fromA);
    OnceFrom(s, steps, atA, rel);
    ReachableFlows(s, steps);
    StepMoves(Final(s, steps), st, atA);
  }
}
