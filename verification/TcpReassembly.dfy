/** Reassembly: the early-arrival heap with its never-cleared seen-set behaves like a plain map of
    pending segments, as long as all segments are cut from one stream. */
module TcpReassembly {
  import opened Heap
  import opened TcpTypes
  import opened TcpSteps

  // ----- the stream a sender has put on the wire ---------------------------------

  /** The data bytes sent so far, the segments they were cut into (by relative sequence number,
      the first byte being number 1), and whether a FIN followed. */
  datatype Stream = Stream(bytes: seq<Byte>, log: map<int, seq<Byte>>, fin: bool)

  /** One past the last data byte: the number of the next byte, and of the FIN. */
  function End(t: Stream): int
  {
    |t.bytes| + 1
  }

  ghost predicate StreamOk(t: Stream)
  {
    && |t.bytes| + 2 < MOD32
    && (forall s :: s in t.log ==> 1 <= s && 0 < |t.log[s]| <= MAX_SEGMENT_SIZE && s + |t.log[s]| <= End(t)
                                   && t.bytes[s - 1..s - 1 + |t.log[s]|] == t.log[s])
    && (forall s, u :: s in t.log && u in t.log && s < u ==> s + |t.log[s]| <= u)
  }

  /** A stream only ever grows, at its end, and not past its FIN. */
  ghost predicate Grows(t: Stream, t': Stream)
  {
    && t.bytes <= t'.bytes
    && (forall s :: s in t.log ==> s in t'.log && t'.log[s] == t.log[s])
    && (forall s :: s in t'.log && s !in t.log ==> End(t) <= s)
    && (t.fin ==> t' == t)
  }

  ghost predicate FromStream(t: Stream, rel: int, p: Packet)
  {
    || (p.flags == FLAG_ACK && rel in t.log && t.log[rel] == p.data)
    || (p.flags == FLAG_FIN && t.fin && rel == End(t) && p.data == [])
  }

  /** Position `at` does not cut through a segment. */
  ghost predicate Boundary(t: Stream, at: int)
  {
    forall s :: s in t.log && s < at ==> s + |t.log[s]| <= at
  }

  // ----- the simple receiver: a map of pending segments ---------------------------

  datatype Reassembly = Reassembly(at: int, pend: map<int, Packet>, ring: seq<Byte>)

  function Put(x: Reassembly, data: seq<Byte>): (y: Reassembly)
    requires |x.ring| <= BUFFER_SIZE
    ensures |y.ring| <= BUFFER_SIZE && y.pend == x.pend
  {
    if |x.ring| + |data| <= BUFFER_SIZE then x.(ring := x.ring + data, at := x.at + |data|)
    else x.(ring := x.ring + data[..BUFFER_SIZE - |x.ring|])
  }

  datatype Reassembled = Reassembled(x: Reassembly, connState: ConnState)

  /** Deliver the run of pending segments that starts at `at`. */
  function DeliverRun(x: Reassembly, st: ConnState): (res: Reassembled)
    requires |x.ring| <= BUFFER_SIZE
    ensures |res.x.ring| <= BUFFER_SIZE
    decreases |x.pend|
  {
    if x.at !in x.pend then Reassembled(x, st)
    else
      var p := x.pend[x.at];
      DeliverRun(Put(x.(pend := x.pend - {x.at}), p.data), if p.flags == FLAG_FIN then TakeFin(st) else st)
  }

  function Arrive(x: Reassembly, st: ConnState, rel: int, p: Packet): (res: Reassembled)
    requires |x.ring| <= BUFFER_SIZE
    ensures |res.x.ring| <= BUFFER_SIZE
  {
    if rel == x.at then
      if |x.ring| + |p.data| <= BUFFER_SIZE then DeliverRun(Put(x, p.data), st) else Reassembled(x, st)
    else if rel > x.at && rel !in x.pend then Reassembled(x.(pend := x.pend[rel := p]), st)
    else Reassembled(x, st)
  }

  /** Bytes of a half-written segment: what the run starting at `at` leaves in the ring when a
      segment of it does not fit whole. */
  function RunSpill(x: Reassembly): (n: int)
    requires |x.ring| <= BUFFER_SIZE
    ensures n >= 0
    decreases |x.pend|
  {
    if x.at !in x.pend then 0
    else
      var data := x.pend[x.at].data;
      if |x.ring| + |data| <= BUFFER_SIZE then RunSpill(Put(x.(pend := x.pend - {x.at}), data))
      else BUFFER_SIZE - |x.ring|
  }

  // ----- how the heap represents the map -------------------------------------------

  ghost predicate Represents(early: seq<Entry<Packet>>, pend: map<int, Packet>)
  {
    forall e :: multiset(early)[e] == if e.priority in pend && pend[e.priority] == e.value then 1 else 0
  }

  ghost function Priorities(early: seq<Entry<Packet>>): set<int>
  {
    set e | e in early :: e.priority
  }

  ghost function PacketAt(early: seq<Entry<Packet>>, k: int): Packet
    requires k in Priorities(early)
  {
    var e :| e in early && e.priority == k;
    e.value
  }

  /** The map a queue stands for. */
  ghost function Pending(early: seq<Entry<Packet>>): map<int, Packet>
  {
    map k | k in Priorities(early) :: PacketAt(early, k)
  }

  lemma PendingIsRepresented(early: seq<Entry<Packet>>, pend: map<int, Packet>)
    requires Represents(early, pend)
    ensures Pending(early) == pend
  {
    var q := Pending(early);
    forall k | k in pend ensures k in q {
      var e := Entry(k, pend[k]);
      assert multiset(early)[e] == 1;
      assert e in early;
    }
    forall k | k in q ensures k in pend && q[k] == pend[k] {
      var e :| e in early && e.priority == k && e.value == q[k];
      assert multiset(early)[e] > 0;
    }
  }

  lemma HeadOfQueue(early: seq<Entry<Packet>>, pend: map<int, Packet>, at: int)
    requires Represents(early, pend) && Ordered(early)
    requires forall k :: k in pend ==> at <= k
    ensures at in pend <==> |early| > 0 && early[0].priority == at
    ensures at in pend ==> pend[at] == early[0].value && Represents(PopRest(early), pend - {at}) && Ordered(PopRest(early))
  {
    if at in pend {
      var e := Entry(at, pend[at]);
      assert multiset(early)[e] == 1;
      assert e in early;
      PopOrders(early);
      assert early[0] in multiset(early);
      assert early[0].priority in pend;
      assert early[0] == e;
    } else if |early| > 0 {
      assert early[0] in multiset(early);
      assert early[0].priority in pend;
    }
  }

  lemma PushRepresents(early: seq<Entry<Packet>>, pend: map<int, Packet>, k: int, p: Packet)
    requires Represents(early, pend) && Ordered(early) && k !in pend
    ensures Represents(Push(early, Entry(k, p)), pend[k := p]) && Ordered(Push(early, Entry(k, p)))
  {
    PushOrders(early, Entry(k, p));
  }

  // ----- the receiver's invariant ---------------------------------------------------

  /** Everything pending comes from the stream, lies at or after `at`, and was seen. */
  ghost predicate PendOk(pend: map<int, Packet>, at: int, seen: set<Word32>, t: Stream)
  {
    forall k :: k in pend ==> at <= k && k in seen && FromStream(t, k, pend[k])
  }

  ghost predicate SeenOk(pend: map<int, Packet>, at: int, seen: set<Word32>)
  {
    forall k :: k in seen && at < k ==> k in pend
  }

  /** `got` is everything handed to the ring so far: at least the stream up to `at`, and exactly
      that when no byte too many was written. */
  ghost predicate GotOk(got: seq<Byte>, at: int, t: Stream)
  {
    && 1 <= at <= End(t)
    && |got| >= at - 1
    && (|got| == at - 1 ==> got == t.bytes[..at - 1])
  }

  function QueuedBytes(early: seq<Entry<Packet>>): int
  {
    if early == [] then 0 else |early[0].value.data| + QueuedBytes(early[1..])
  }

  ghost predicate ReceiverOk(r: Receiver, delivered: seq<Byte>, t: Stream)
  {
    && |r.readRing| <= BUFFER_SIZE
    && Ordered(r.early)
    && Represents(r.early, Pending(r.early))
    && PendOk(Pending(r.early), r.expected + 1, r.seen, t)
    && SeenOk(Pending(r.early), r.expected, r.seen)
    && Boundary(t, r.expected)
    && GotOk(delivered + r.readRing, r.expected, t)
    && r.earlySize == QueuedBytes(r.early) % MOD32
  }

  ghost function View(r: Receiver): Reassembly
  {
    Reassembly(r.expected, Pending(r.early), r.readRing)
  }

  // ----- draining --------------------------------------------------------------------

  /** Bytes [at, at + |data|) of the stream, or nothing. */
  ghost predicate SegmentAt(t: Stream, at: int, data: seq<Byte>)
  {
    data == [] || (at in t.log && t.log[at] == data)
  }

  /** Passing a segment that starts at `at` moves from boundary to boundary, and keeps behind it
      only what lies behind it. */
  lemma PassSegment(t: Stream, at: int, data: seq<Byte>, pend: map<int, Packet>, seen: set<Word32>)
    requires StreamOk(t) && SegmentAt(t, at, data) && Boundary(t, at) && 1 <= at <= End(t)
    requires PendOk(pend, at + 1, seen, t) && SeenOk(pend, at, seen)
    ensures at + |data| <= End(t) && Boundary(t, at + |data|)
    ensures PendOk(pend, at + |data|, seen, t) && SeenOk(pend, at + |data|, seen)
  {
  }

  lemma DropHead(t: Stream, at: int, pend: map<int, Packet>, seen: set<Word32>)
    requires PendOk(pend, at, seen, t) && SeenOk(pend, at, seen) && at in pend
    ensures PendOk(pend - {at}, at + 1, seen, t) && SeenOk(pend - {at}, at, seen)
    ensures SegmentAt(t, at, pend[at].data)
  {
    assert FromStream(t, at, pend[at]);
  }

  lemma PutGot(x: Reassembly, data: seq<Byte>, before: seq<Byte>, t: Stream)
    requires |x.ring| <= BUFFER_SIZE && StreamOk(t) && SegmentAt(t, x.at, data)
    requires GotOk(before + x.ring, x.at, t)
    ensures GotOk(before + Put(x, data).ring, Put(x, data).at, t)
    ensures |Put(x, data).ring| - |x.ring| == Put(x, data).at - x.at + PutSpill(x, data)
  {
    if |data| <= BUFFER_SIZE - |x.ring| {
      Regroup(before, x.ring, data);
      if |before + x.ring| == x.at - 1 && data != [] { PrefixExtends(t.bytes, data, x.at - 1, x.at - 1 + |data|); }
    }
  }

  lemma Regroup(a: seq<Byte>, b: seq<Byte>, c: seq<Byte>)
    ensures a + (b + c) == a + b + c
  {
  }

  lemma PrefixExtends(bytes: seq<Byte>, data: seq<Byte>, i: int, j: int)
    requires 0 <= i <= j <= |bytes| && bytes[i..j] == data
    ensures bytes[..i] + data == bytes[..j]
  {
  }

  /** Bytes written of a segment that does not fit. */
  function PutSpill(x: Reassembly, data: seq<Byte>): int
  {
    if |data| <= BUFFER_SIZE - |x.ring| then 0 else BUFFER_SIZE - |x.ring|
  }

  /** The heap-based result and the map-based result agree. */
  ghost predicate Matches(d: RcvResult, a: Reassembled)
  {
    && d.connState == a.connState && d.rcv.expected == a.x.at && d.rcv.readRing == a.x.ring
    && Ordered(d.rcv.early) && Represents(d.rcv.early, a.x.pend)
  }

  /** One pop-and-write of the heap against one delivery from the map. */
  lemma DrainStepRefines(r: Receiver, pend: map<int, Packet>)
    requires Free(r) >= 0 && |r.early| > 0 && r.expected in pend && pend[r.expected] == r.early[0].value
    requires r.expected + |r.early[0].value.data| < MOD32
    requires Represents(PopRest(r.early), pend - {r.expected})
    ensures var r' := WriteIntoReadBuffer(PopEarly(r), r.early[0].value.data);
            var y := Put(Reassembly(r.expected, pend - {r.expected}, r.readRing), r.early[0].value.data);
            r' == r.(expected := y.at, readRing := y.ring, early := PopRest(r.early),
                     earlySize := Sub32(r.earlySize, |r.early[0].value.data|))
            && y.at == r.expected + (if |r.early[0].value.data| <= Free(r) then |r.early[0].value.data| else 0)
  {
  }

  lemma {:induction false} DrainRefines(r: Receiver, pend: map<int, Packet>, st: ConnState, t: Stream)
    requires Free(r) >= 0 && Ordered(r.early) && Represents(r.early, pend) && StreamOk(t)
    requires 1 <= r.expected <= End(t) && Boundary(t, r.expected)
    requires PendOk(pend, r.expected, r.seen, t) && SeenOk(pend, r.expected, r.seen)
    ensures Matches(Drain(r, st), DeliverRun(Reassembly(r.expected, pend, r.readRing), st))
    ensures Drain(r, st).rcv.seen == r.seen && Drain(r, st).rcv.foreignIsn == r.foreignIsn
    decreases |r.early|
  {
    HeadOfQueue(r.early, pend, r.expected);
    if r.expected in pend {
      var p := r.early[0].value;
      var r' := WriteIntoReadBuffer(PopEarly(r), p.data);
      DropHead(t, r.expected, pend, r.seen);
      PassSegment(t, r.expected, p.data, pend - {r.expected}, r.seen);
      DrainStepRefines(r, pend);
      DrainRefines(r', pend - {r.expected}, if p.flags == FLAG_FIN then TakeFin(st) else st, t);
    }
  }

  /** Between packets everything pending lies strictly beyond the next expected byte. */
  ghost predicate ReassemblyOk(x: Reassembly, seen: set<Word32>, t: Stream)
  {
    PendOk(x.pend, x.at + 1, seen, t) && SeenOk(x.pend, x.at, seen) && Boundary(t, x.at)
  }

  /** What delivering a run does to the stream received so far. */
  lemma {:induction false} DeliverRunOk(x: Reassembly, st: ConnState, before: seq<Byte>, seen: set<Word32>, t: Stream)
    requires |x.ring| <= BUFFER_SIZE && StreamOk(t)
    requires PendOk(x.pend, x.at, seen, t) && SeenOk(x.pend, x.at, seen) && Boundary(t, x.at)
    requires GotOk(before + x.ring, x.at, t)
    ensures ReassemblyOk(DeliverRun(x, st).x, seen, t)
    ensures GotOk(before + DeliverRun(x, st).x.ring, DeliverRun(x, st).x.at, t)
    ensures x.at <= DeliverRun(x, st).x.at
    decreases |x.pend|
  {
    if x.at in x.pend {
      var p := x.pend[x.at];
      var y := Put(x.(pend := x.pend - {x.at}), p.data);
      HeadDelivered(x, y, seen, t);
      PutGot(x.(pend := x.pend - {x.at}), p.data, before, t);
      DeliverRunOk(y, if p.flags == FLAG_FIN then TakeFin(st) else st, before, seen, t);
    }
  }

  /** One segment of the run, put in the ring or spilled. */
  lemma HeadDelivered(x: Reassembly, y: Reassembly, seen: set<Word32>, t: Stream)
    requires |x.ring| <= BUFFER_SIZE && StreamOk(t) && 1 <= x.at <= End(t) && x.at in x.pend
    requires PendOk(x.pend, x.at, seen, t) && SeenOk(x.pend, x.at, seen) && Boundary(t, x.at)
    requires y == Put(x.(pend := x.pend - {x.at}), x.pend[x.at].data)
    ensures x.at <= y.at <= End(t) && SegmentAt(t, x.at, x.pend[x.at].data)
    ensures PendOk(y.pend, y.at, seen, t) && SeenOk(y.pend, y.at, seen) && Boundary(t, y.at)
  {
    DropHead(t, x.at, x.pend, seen);
    PassSegment(t, x.at, x.pend[x.at].data, x.pend - {x.at}, seen);
  }

  /** The ring grows by the bytes passed, plus what a half-written segment left behind. */
  lemma {:induction false} DeliverRunSpill(x: Reassembly, st: ConnState)
    requires |x.ring| <= BUFFER_SIZE
    ensures |DeliverRun(x, st).x.ring| - |x.ring|
            == DeliverRun(x, st).x.at - x.at + RunSpill(x)
    decreases |x.pend|
  {
    if x.at in x.pend {
      var p := x.pend[x.at];
      DeliverRunSpill(Put(x.(pend := x.pend - {x.at}), p.data), if p.flags == FLAG_FIN then TakeFin(st) else st);
    }
  }

  /** A FIN in the run changes the state, and only after every byte of the stream was passed. */
  lemma {:induction false} DeliverRunFin(x: Reassembly, st: ConnState, seen: set<Word32>, t: Stream)
    requires |x.ring| <= BUFFER_SIZE && StreamOk(t) && 1 <= x.at <= End(t)
    requires PendOk(x.pend, x.at, seen, t) && SeenOk(x.pend, x.at, seen) && Boundary(t, x.at)
    ensures var a := DeliverRun(x, st);
            a.connState == st || (a.connState == TakeFin(st) && t.fin && a.x.at == End(t))
    decreases |x.pend|
  {
    if x.at in x.pend {
      var p := x.pend[x.at];
      var y := Put(x.(pend := x.pend - {x.at}), p.data);
      HeadDelivered(x, y, seen, t);
      if p.flags == FLAG_FIN {
        assert FromStream(t, x.at, p);
        assert y.at !in y.pend;
      } else {
        DeliverRunFin(y, st, seen, t);
      }
    }
  }

  // ----- the size of the queue ---------------------------------------------------------

  lemma {:induction false} QueuedBytesAppend(a: seq<Entry<Packet>>, b: seq<Entry<Packet>>)
    ensures QueuedBytes(a + b) == QueuedBytes(a) + QueuedBytes(b)
  {
    if a == [] {
      assert a + b == b;
    } else {
      assert (a + b)[1..] == a[1..] + b;
      QueuedBytesAppend(a[1..], b);
    }
  }

  lemma RemoveAt(b: seq<Entry<Packet>>, i: int)
    requires 0 <= i < |b|
    ensures multiset(b[..i] + b[i + 1..]) == multiset(b) - multiset{b[i]}
    ensures QueuedBytes(b[..i] + b[i + 1..]) == QueuedBytes(b) - |b[i].value.data|
  {
    assert b == b[..i] + ([b[i]] + b[i + 1..]);
    QueuedBytesAppend(b[..i], [b[i]] + b[i + 1..]);
    QueuedBytesAppend(b[..i], b[i + 1..]);
    assert ([b[i]] + b[i + 1..])[1..] == b[i + 1..];
  }

  lemma RestPermutes(a: seq<Entry<Packet>>, m: multiset<Entry<Packet>>, whole: multiset<Entry<Packet>>)
    requires a != [] && multiset(a) == whole && m == whole - multiset{a[0]}
    ensures multiset(a[1..]) == m
  {
    assert a == [a[0]] + a[1..];
  }

  lemma {:induction false} QueuedBytesPermutes(a: seq<Entry<Packet>>, b: seq<Entry<Packet>>)
    requires multiset(a) == multiset(b)
    ensures QueuedBytes(a) == QueuedBytes(b)
    decreases |a|
  {
    if a == [] {
      assert |multiset(b)| == 0;
    } else {
      assert a[0] in multiset(b);
      var i :| 0 <= i < |b| && b[i] == a[0];
      RemoveAt(b, i);
      var c := b[..i] + b[i + 1..];
      RestPermutes(a, multiset(c), multiset(b));
      QueuedBytesPermutes(a[1..], c);
    }
  }

  lemma QueuedBytesPush(s: seq<Entry<Packet>>, e: Entry<Packet>)
    ensures QueuedBytes(Push(s, e)) == QueuedBytes(s) + |e.value.data|
  {
    PushOrders(s, e);
    QueuedBytesPermutes(Push(s, e), s + [e]);
    QueuedBytesAppend(s, [e]);
  }

  lemma QueuedBytesPop(s: seq<Entry<Packet>>)
    requires |s| > 0
    ensures QueuedBytes(PopRest(s)) == QueuedBytes(s) - |s[0].value.data|
  {
    PopPermutes(s);
    assert multiset([s[0]] + PopRest(s)) == multiset(s) by { assert s[0] in multiset(s); }
    QueuedBytesPermutes([s[0]] + PopRest(s), s);
  }

  lemma ModShift(q: int, n: int)
    ensures Sub32(q % MOD32, n) == (q - n) % MOD32
    ensures Add32(q % MOD32, n) == (q + n) % MOD32
  {
    var k := q / MOD32;
    assert q % MOD32 == q - k * MOD32;
    WholeTurns(q - n, k);
    WholeTurns(q + n, k);
  }

  lemma WholeTurns(x: int, k: int)
    ensures (x - k * MOD32) % MOD32 == x % MOD32
  {
  }

  lemma {:induction false} DrainSize(r: Receiver, st: ConnState)
    requires Free(r) >= 0 && r.earlySize == QueuedBytes(r.early) % MOD32
    ensures Drain(r, st).rcv.earlySize == QueuedBytes(Drain(r, st).rcv.early) % MOD32
    decreases |r.early|
  {
    if |r.early| > 0 && r.early[0].priority == r.expected {
      var p := r.early[0].value;
      QueuedBytesPop(r.early);
      ModShift(QueuedBytes(r.early), |p.data|);
      DrainSize(WriteIntoReadBuffer(PopEarly(r), p.data), if p.flags == FLAG_FIN then TakeFin(st) else st);
    }
  }

  // ----- one packet --------------------------------------------------------------------

  /** Bytes written too many: 0 as long as the received stream is a prefix of the sent one. */
  function Excess(r: Receiver, delivered: seq<Byte>): int
  {
    |delivered| + |r.readRing| + 1 - r.expected
  }

  /** What accepting p would leave half-written in the ring; a caller can tell beforehand. */
  ghost function Spill(r: Receiver, p: Packet): int
    requires Free(r) >= 0
  {
    if RelSeq(r, p) == r.expected && |p.data| <= Free(r)
    then RunSpill(Put(View(r), p.data))
    else 0
  }

  lemma ViewFacts(r: Receiver, delivered: seq<Byte>, t: Stream)
    requires StreamOk(t) && ReceiverOk(r, delivered, t)
    ensures ReassemblyOk(View(r), r.seen, t)
    ensures forall k: Word32 :: r.expected < k ==> (k in r.seen <==> k in View(r).pend)
  {
  }

  lemma InOrderRefines(r: Receiver, st: ConnState, p: Packet, t: Stream)
    requires StreamOk(t) && Ordered(r.early) && Represents(r.early, Pending(r.early))
    requires ReassemblyOk(View(r), r.seen, t) && 1 <= r.expected <= End(t)
    requires |p.data| <= Free(r) && SegmentAt(t, r.expected, p.data)
    ensures Matches(Drain(WriteIntoReadBuffer(r, p.data), st), DeliverRun(Put(View(r), p.data), st))
    ensures Drain(WriteIntoReadBuffer(r, p.data), st).rcv.foreignIsn == r.foreignIsn
    ensures Drain(WriteIntoReadBuffer(r, p.data), st).rcv.seen == r.seen
  {
    PassSegment(t, r.expected, p.data, Pending(r.early), r.seen);
    var r1 := WriteIntoReadBuffer(r, p.data);
    assert Put(View(r), p.data) == Reassembly(r1.expected, Pending(r.early), r1.readRing);
    DrainRefines(r1, Pending(r.early), st, t);
  }

  /** The heap with its seen-set does exactly what the map of pending segments does. */
  lemma ReassemblyRefinement(r: Receiver, delivered: seq<Byte>, st: ConnState, p: Packet, t: Stream)
    requires StreamOk(t) && ReceiverOk(r, delivered, t) && p.data != []
    requires FromStream(t, RelSeq(r, p), p)
    ensures Matches(ReceiveData(r, st, p), Arrive(View(r), st, RelSeq(r, p), p))
    ensures ReceiveData(r, st, p).rcv.foreignIsn == r.foreignIsn
  {
    ViewFacts(r, delivered, t);
    if RelSeq(r, p) == r.expected {
      if |p.data| <= Free(r) { InOrderRefines(r, st, p, t); }
    } else if RelSeq(r, p) > r.expected && RelSeq(r, p) !in r.seen {
      PushRepresents(r.early, Pending(r.early), RelSeq(r, p), p);
    }
  }

  /** The state changes only by a FIN, and a FIN is taken only after the whole stream. */
  ghost predicate StateOk(st: ConnState, d: RcvResult, t: Stream)
  {
    d.connState == st || (d.connState == TakeFin(st) && t.fin && d.rcv.expected == End(t))
  }

  /** What one packet may do to a receiver: keep its invariant, move nextExpectedByte forward, and
      write `spill` bytes too many. */
  ghost predicate Received(r: Receiver, d: RcvResult, delivered: seq<Byte>, st: ConnState, spill: int, t: Stream)
  {
    && ReceiverOk(d.rcv, delivered, t)
    && StateOk(st, d, t)
    && r.expected <= d.rcv.expected
    && d.rcv.foreignIsn == r.foreignIsn
    && Excess(d.rcv, delivered) == Excess(r, delivered) + spill
  }

  /** From the map-based result back to the receiver's invariant. */
  lemma MatchesOk(r: Receiver, d: RcvResult, a: Reassembled, delivered: seq<Byte>, st: ConnState, spill: int, t: Stream)
    requires Matches(d, a) && d.rcv.foreignIsn == r.foreignIsn
    requires d.rcv.earlySize == QueuedBytes(d.rcv.early) % MOD32
    requires ReassemblyOk(a.x, d.rcv.seen, t) && |a.x.ring| <= BUFFER_SIZE && GotOk(delivered + a.x.ring, a.x.at, t)
    requires r.expected <= a.x.at && |a.x.ring| - |r.readRing| == a.x.at - r.expected + spill
    requires a.connState == st || (a.connState == TakeFin(st) && t.fin && a.x.at == End(t))
    ensures Received(r, d, delivered, st, spill, t)
  {
    PendingIsRepresented(d.rcv.early, a.x.pend);
  }

  /** A segment in sequence, on the map side. */
  lemma ArriveInOrderOk(x: Reassembly, data: seq<Byte>, st: ConnState, before: seq<Byte>, seen: set<Word32>, t: Stream)
    requires StreamOk(t) && ReassemblyOk(x, seen, t) && GotOk(before + x.ring, x.at, t)
    requires |x.ring| + |data| <= BUFFER_SIZE && SegmentAt(t, x.at, data)
    ensures ReassemblyOk(DeliverRun(Put(x, data), st).x, seen, t)
    ensures GotOk(before + DeliverRun(Put(x, data), st).x.ring, DeliverRun(Put(x, data), st).x.at, t)
    ensures x.at + |data| <= DeliverRun(Put(x, data), st).x.at
    ensures |DeliverRun(Put(x, data), st).x.ring| - |x.ring| == DeliverRun(Put(x, data), st).x.at - x.at
              + RunSpill(Put(x, data))
    ensures DeliverRun(Put(x, data), st).connState == st
            || (DeliverRun(Put(x, data), st).connState == TakeFin(st) && t.fin && DeliverRun(Put(x, data), st).x.at == End(t))
  {
    var y := Put(x, data);
    PassSegment(t, x.at, data, x.pend, seen);
    PutGot(x, data, before, t);
    DeliverRunOk(y, st, before, seen, t);
    DeliverRunSpill(y, st);
    DeliverRunFin(y, st, seen, t);
  }

  lemma InOrderOk(r: Receiver, delivered: seq<Byte>, st: ConnState, p: Packet, t: Stream, d: RcvResult)
    requires StreamOk(t) && ReceiverOk(r, delivered, t)
    requires |p.data| <= Free(r) && SegmentAt(t, r.expected, p.data)
    requires d == Drain(WriteIntoReadBuffer(r, p.data), st)
    ensures Received(r, d, delivered, st, RunSpill(Put(View(r), p.data)), t)
  {
    var a := DeliverRun(Put(View(r), p.data), st);
    InOrderRefines(r, st, p, t);
    DrainSize(WriteIntoReadBuffer(r, p.data), st);
    ArriveInOrderOk(View(r), p.data, st, delivered, r.seen, t);
    MatchesOk(r, d, a, delivered, st, RunSpill(Put(View(r), p.data)), t);
  }

  lemma EnqueuePendOk(x: Reassembly, seen: set<Word32>, p: Packet, t: Stream, rel: Word32)
    requires ReassemblyOk(x, seen, t) && rel > x.at && rel !in seen && FromStream(t, rel, p)
    ensures rel !in x.pend
    ensures ReassemblyOk(x.(pend := x.pend[rel := p]), seen + {rel}, t)
  {
  }

  lemma EnqueueSize(r: Receiver, rel: Word32, p: Packet)
    requires r.earlySize == QueuedBytes(r.early) % MOD32
    ensures Enqueue(r, rel, p).earlySize == QueuedBytes(Enqueue(r, rel, p).early) % MOD32
  {
    QueuedBytesPush(r.early, Entry(rel, p));
    ModShift(QueuedBytes(r.early), |p.data|);
  }

  lemma EnqueueOk(r: Receiver, delivered: seq<Byte>, st: ConnState, p: Packet, t: Stream)
    requires StreamOk(t) && ReceiverOk(r, delivered, t)
    requires RelSeq(r, p) > r.expected && FromStream(t, RelSeq(r, p), p)
    ensures Received(r, RcvResult(Enqueue(r, RelSeq(r, p), p), st), delivered, st, 0, t)
  {
    var rel := RelSeq(r, p);
    if rel !in r.seen {
      var q := Enqueue(r, rel, p);
      EnqueuePendOk(View(r), r.seen, p, t, rel);
      var x := View(r).(pend := Pending(r.early)[rel := p]);
      assert Matches(RcvResult(q, st), Reassembled(x, st)) by { PushRepresents(r.early, Pending(r.early), rel, p); }
      EnqueueSize(r, rel, p);
      MatchesOk(r, RcvResult(q, st), Reassembled(x, st), delivered, st, 0, t);
    }
  }

  /** A packet that changes nothing. */
  lemma UnchangedOk(r: Receiver, delivered: seq<Byte>, st: ConnState, t: Stream)
    requires ReceiverOk(r, delivered, t)
    ensures Received(r, RcvResult(r, st), delivered, st, 0, t)
  {
  }

  /** Receiving a data segment of the stream keeps the receiver's invariant; the bytes written too
      many grow by exactly the spill that could be computed beforehand. */
  lemma ReceiveDataOk(r: Receiver, delivered: seq<Byte>, st: ConnState, p: Packet, t: Stream)
    requires StreamOk(t) && ReceiverOk(r, delivered, t) && p.data != []
    requires FromStream(t, RelSeq(r, p), p)
    ensures Received(r, ReceiveData(r, st, p), delivered, st, Spill(r, p), t)
  {
    if RelSeq(r, p) == r.expected && |p.data| <= Free(r) {
      InOrderOk(r, delivered, st, p, t, Drain(WriteIntoReadBuffer(r, p.data), st));
    } else if RelSeq(r, p) > r.expected {
      EnqueueOk(r, delivered, st, p, t);
    } else {
      UnchangedOk(r, delivered, st, t);
    }
  }

  lemma ReceiveFinOk(r: Receiver, delivered: seq<Byte>, st: ConnState, p: Packet, t: Stream)
    requires StreamOk(t) && ReceiverOk(r, delivered, t) && p.flags == FLAG_FIN
    requires FromStream(t, RelSeq(r, p), p)
    ensures Received(r, ReceiveFin(r, st, p), delivered, st, 0, t)
    ensures ReceiveFin(r, st, p).rcv.expected == r.expected
  {
    if RelSeq(r, p) > r.expected { EnqueueOk(r, delivered, st, p, t); }
  }

  /** The sender putting more on the wire does not disturb the receiver. */
  lemma GrowthKeepsReceiver(r: Receiver, delivered: seq<Byte>, t: Stream, t': Stream)
    requires ReceiverOk(r, delivered, t) && Grows(t, t') && StreamOk(t')
    ensures ReceiverOk(r, delivered, t')
  {
    assert t'.bytes[..r.expected - 1] == t.bytes[..r.expected - 1];
    var pend := Pending(r.early);
    assert PendOk(pend, r.expected + 1, r.seen, t') by {
      forall k | k in pend ensures FromStream(t', k, pend[k]) { assert FromStream(t, k, pend[k]); }
    }
  }

  /** VRead moves bytes from the ring to the reader. */
  lemma ReadKeepsReceiver(r: Receiver, delivered: seq<Byte>, n: int, t: Stream)
    requires ReceiverOk(r, delivered, t) && 0 <= n <= |r.readRing|
    ensures ReceiverOk(r.(readRing := r.readRing[n..]), delivered + r.readRing[..n], t)
  {
    assert delivered + r.readRing[..n] + r.readRing[n..] == delivered + r.readRing;
  }
}
