/** The wire format of RIP packets: Marshal and UnmarshalRipPacket of pkg/applications/rip/rip.go. */
module RipCodec {
  import opened TcpTypes
  import opened BigEndian
  import opened RipTable
  import opened RipNetwork

  const COMMAND_REQUEST := 1
  const COMMAND_RESPONSE := 2
  const HEADER_SIZE := 4
  const ENTRY_SIZE := 12

  datatype RipPacket = RipPacket(command: Word16, entries: seq<RipEntry>)

  datatype Parsed = Ok(packet: RipPacket) | Malformed

  // ----- the format -----------------------------------------------------------------

  function EncodeEntry(e: RipEntry): (b: seq<Byte>)
    ensures |b| == ENTRY_SIZE
  {
    Put32(e.cost) + Put32(e.dest) + Put32(e.mask)
  }

  function EncodeEntries(es: seq<RipEntry>): (b: seq<Byte>)
    ensures |b| == ENTRY_SIZE * |es|
  {
    if es == [] then [] else EncodeEntry(es[0]) + EncodeEntries(es[1..])
  }

  /** The entry count is cut to 16 bits. */
  function Encode(p: RipPacket): (b: seq<Byte>)
    ensures |b| == HEADER_SIZE + ENTRY_SIZE * |p.entries|
  {
    Put16(p.command) + Put16(|p.entries| % 0x1_0000) + EncodeEntries(p.entries)
  }

  /** Packets the decoder takes. */
  predicate WellFormed(p: RipPacket)
  {
    && (p.command == COMMAND_REQUEST || p.command == COMMAND_RESPONSE)
    && (p.command == COMMAND_REQUEST ==> p.entries == [])
    && |p.entries| <= MAX_ENTRIES
    && (forall i :: 0 <= i < |p.entries| ==> p.entries[i].cost <= INFINITY)
  }

  function DecodeEntry(b: seq<Byte>): RipEntry
    requires |b| == ENTRY_SIZE
  {
    RipEntry(Get32(b[..4]), Get32(b[4..8]), Get32(b[8..]))
  }

  // ----- where each byte is -------------------------------------------------------------------

  predicate WordAt(b: seq<Byte>, o: int, w: int)
    requires 0 <= o && o + 4 <= |b|
  {
    var b0: int, b1: int, b2: int, b3: int := b[o], b[o + 1], b[o + 2], b[o + 3];
    b0 * 0x100_0000 + b1 * 0x1_0000 + b2 * 0x100 + b3 == w
  }

  /** Entry i: cost, address and mask, in that order, from byte 4 + 12 * i on. */
  predicate EntryLaidOut(b: seq<Byte>, i: int, e: RipEntry)
    requires 0 <= i && 16 + 12 * i <= |b|
  {
    WordAt(b, 4 + 12 * i, e.cost) && WordAt(b, 8 + 12 * i, e.dest) && WordAt(b, 12 + 12 * i, e.mask)
  }

  /** The whole packet, byte by byte: command, number of entries, entries, all big-endian. */
  predicate LaidOut(p: RipPacket, b: seq<Byte>)
  {
    && |b| == 4 + 12 * |p.entries|
    && (var b0: int, b1: int, b2: int, b3: int := b[0], b[1], b[2], b[3];
        b0 * 256 + b1 == p.command && b2 * 256 + b3 == |p.entries| % 65536)
    && forall i :: 0 <= i < |p.entries| ==> EntryLaidOut(b, i, p.entries[i])
  }

  predicate CostFits(b: seq<Byte>, i: int)
    requires 0 <= i && 16 + 12 * i <= |b|
  {
    b[4 + 12 * i] == 0 && b[5 + 12 * i] == 0 && b[6 + 12 * i] == 0 && b[7 + 12 * i] <= 16
  }

  /** The bytes that are a packet: a request with no entries or a response with at most 64, the count
      as announced, and no cost above 16. */
  predicate Acceptable(b: seq<Byte>)
  {
    && |b| >= 4 && b[0] == 0 && b[2] == 0
    && (var n: int := b[3];
        && |b| == 4 + 12 * n && ((b[1] == 1 && n == 0) || (b[1] == 2 && n <= 64))
        && forall i :: 0 <= i < n ==> CostFits(b, i))
  }

  /** The well-formed packets are those whose encoding is acceptable. */
  lemma WellFormedIff(p: RipPacket)
    ensures WellFormed(p) <==> Acceptable(Encode(p))
  {
    var b := Encode(p);
    EncodeLaidOut(p);
    HeaderBytes(p, b);
    if |p.entries| <= 64 { CostsFit(p, b); }
  }

  lemma HeaderBytes(p: RipPacket, b: seq<Byte>)
    requires LaidOut(p, b)
    ensures (b[0] == 0 && b[1] == 1 <==> p.command == 1) && (b[0] == 0 && b[1] == 2 <==> p.command == 2)
    ensures |p.entries| <= 64 <==> b[2] == 0 && b[3] == |p.entries| && b[3] <= 64
  {
  }

  lemma CostsFit(p: RipPacket, b: seq<Byte>)
    requires LaidOut(p, b)
    ensures (forall i :: 0 <= i < |p.entries| ==> p.entries[i].cost <= 16) <==> (forall i :: 0 <= i < |p.entries| ==> CostFits(b, i))
  {
    forall i | 0 <= i < |p.entries| ensures CostFits(b, i) <==> p.entries[i].cost <= 16 {
      assert EntryLaidOut(b, i, p.entries[i]);
      CostFitsIff(b, i, p.entries[i].cost);
    }
  }

  lemma CostFitsIff(b: seq<Byte>, i: int, cost: Word32)
    requires 0 <= i && 16 + 12 * i <= |b| && WordAt(b, 4 + 12 * i, cost)
    ensures CostFits(b, i) <==> cost <= 16
  {
  }

  lemma PutWord(w: Word32)
    ensures WordAt(Put32(w), 0, w)
  {
    var hi, lo := w / 0x1_0000, w % 0x1_0000;
    assert Put32(w) == [hi / 256, hi % 256, lo / 256, lo % 256];
  }

  lemma EncodedWords(e: RipEntry)
    ensures WordAt(EncodeEntry(e), 0, e.cost) && WordAt(EncodeEntry(e), 4, e.dest) && WordAt(EncodeEntry(e), 8, e.mask)
  {
    PutWord(e.cost);
    PutWord(e.dest);
    PutWord(e.mask);
  }

  lemma WordInside(b: seq<Byte>, o: int, k: int, w: int)
    requires 0 <= o && o + 12 <= |b| && 0 <= k <= 8 && WordAt(b[o..o + 12], k, w)
    ensures WordAt(b, o + k, w)
  {
  }

  lemma EncodedEntry(p: RipPacket, i: int)
    requires 0 <= i < |p.entries|
    ensures EntryLaidOut(Encode(p), i, p.entries[i])
  {
    var b := Encode(p);
    var o := 4 + 12 * i;
    EntryAt(p.entries, i);
    HeaderOf(p);
    assert b[o..o + 12] == b[4..][ENTRY_SIZE * i..ENTRY_SIZE * (i + 1)];
    EncodedWords(p.entries[i]);
    WordInside(b, o, 0, p.entries[i].cost);
    WordInside(b, o, 4, p.entries[i].dest);
    WordInside(b, o, 8, p.entries[i].mask);
  }

  /** The encoding is that layout. */
  lemma EncodeLaidOut(p: RipPacket)
    ensures LaidOut(p, Encode(p))
  {
    forall i | 0 <= i < |p.entries| ensures EntryLaidOut(Encode(p), i, p.entries[i]) { EncodedEntry(p, i); }
  }

  // ----- encoding loses nothing ---------------------------------------------------------

  lemma EntryRoundTrip(e: RipEntry, b: seq<Byte>)
    requires |b| == ENTRY_SIZE
    ensures DecodeEntry(EncodeEntry(e)) == e && EncodeEntry(DecodeEntry(b)) == b
  {
    var x := EncodeEntry(e);
    assert x[..4] == Put32(e.cost) && x[4..8] == Put32(e.dest) && x[8..] == Put32(e.mask);
    RoundTrip32(e.cost, b[..4]);
    RoundTrip32(e.dest, b[4..8]);
    RoundTrip32(e.mask, b[8..]);
    assert b == b[..4] + b[4..8] + b[8..];
  }

  /** Entry i sits at its offset. */
  lemma {:induction false} EntryAt(es: seq<RipEntry>, i: int)
    requires 0 <= i < |es|
    ensures EncodeEntries(es)[ENTRY_SIZE * i..ENTRY_SIZE * (i + 1)] == EncodeEntry(es[i])
    decreases |es|
  {
    var first, rest := EncodeEntry(es[0]), EncodeEntries(es[1..]);
    assert EncodeEntries(es) == first + rest;
    if i > 0 {
      EntryAt(es[1..], i - 1);
      SliceBehind(first, rest, ENTRY_SIZE * (i - 1), ENTRY_SIZE * i);
    }
  }

  lemma SliceBehind(first: seq<Byte>, rest: seq<Byte>, i: int, j: int)
    requires |first| == ENTRY_SIZE && 0 <= i <= j <= |rest|
    ensures (first + rest)[i + ENTRY_SIZE..j + ENTRY_SIZE] == rest[i..j]
  {
  }

  lemma {:induction false} EncodeAppend(es: seq<RipEntry>, e: RipEntry)
    ensures EncodeEntries(es + [e]) == EncodeEntries(es) + EncodeEntry(e)
  {
    if es == [] {
      assert es + [e] == [e];
      assert [e][1..] == [];
    } else {
      assert (es + [e])[1..] == es[1..] + [e];
      EncodeAppend(es[1..], e);
    }
  }

  /** What can be read off an encoded packet. */
  lemma HeaderOf(p: RipPacket)
    ensures Get16(Encode(p)[..2]) == p.command
    ensures Get16(Encode(p)[2..4]) == |p.entries| % 0x1_0000
    ensures Encode(p)[4..] == EncodeEntries(p.entries)
  {
    var b := Encode(p);
    assert b[..2] == Put16(p.command) && b[2..4] == Put16(|p.entries| % 0x1_0000);
    RoundTrip16(p.command, b[..2]);
    RoundTrip16(|p.entries| % 0x1_0000, b[2..4]);
  }

  lemma EncodeInjective(p: RipPacket, q: RipPacket)
    requires Encode(p) == Encode(q)
    ensures p == q
  {
    HeaderOf(p);
    HeaderOf(q);
    assert |p.entries| == |q.entries|;
    forall i | 0 <= i < |p.entries| ensures p.entries[i] == q.entries[i] {
      EntryAt(p.entries, i);
      EntryAt(q.entries, i);
      EntryRoundTrip(p.entries[i], EncodeEntry(p.entries[i]));
      EntryRoundTrip(q.entries[i], EncodeEntry(q.entries[i]));
    }
  }

  // ----- the two procedures -----------------------------------------------------------------

  method Marshal(p: RipPacket) returns (b: seq<Byte>)
    ensures b == Encode(p) && LaidOut(p, b)
  {
    EncodeLaidOut(p);
    b := Put16(p.command);
    b := b + Put16(|p.entries| % 0x1_0000);
    ghost var header := b;
    for i := 0 to |p.entries|
      invariant b == header + EncodeEntries(p.entries[..i])
    {
      EncodeAppend(p.entries[..i], p.entries[i]);
      assert p.entries[..i + 1] == p.entries[..i] + [p.entries[i]];
      b := b + Put32(p.entries[i].cost);
      b := b + Put32(p.entries[i].dest);
      b := b + Put32(p.entries[i].mask);
    }
    assert p.entries[..|p.entries|] == p.entries;
  }

  /** The entry loop: all n entries, or `good` false at the first cost above 16. */
  method ReadEntries(b: seq<Byte>, n: int) returns (entries: seq<RipEntry>, good: bool)
    requires 0 <= n && |b| == HEADER_SIZE + ENTRY_SIZE * n
    ensures good ==> |entries| == n && EncodeEntries(entries) == b[4..]
    ensures good ==> forall k :: 0 <= k < n ==> entries[k].cost <= INFINITY
    ensures !good ==> exists i :: 0 <= i < n && EntryOf(b, n, i).cost > INFINITY
  {
    entries := [];
    for i := 0 to n
      invariant |entries| == i && EncodeEntries(entries) == b[4..4 + ENTRY_SIZE * i]
      invariant forall k :: 0 <= k < i ==> entries[k].cost <= INFINITY
    {
      var e := EntryOf(b, n, i);
      if e.cost > INFINITY { return entries, false; }
      OneMoreEntry(b, entries, 4 + ENTRY_SIZE * i, 4 + ENTRY_SIZE * (i + 1));
      entries := entries + [e];
    }
    assert b[4..4 + ENTRY_SIZE * n] == b[4..];
    good := true;
  }

  lemma OneMoreEntry(b: seq<Byte>, entries: seq<RipEntry>, from: int, to: int)
    requires 4 <= from && to == from + ENTRY_SIZE <= |b| && EncodeEntries(entries) == b[4..from]
    ensures EncodeEntries(entries + [DecodeEntry(b[from..to])]) == b[4..to]
  {
    var raw := b[from..to];
    EntryRoundTrip(DecodeEntry(raw), raw);
    EncodeAppend(entries, DecodeEntry(raw));
    SplitBytes(b, from, to);
  }

  lemma SplitBytes(b: seq<Byte>, from: int, to: int)
    requires 4 <= from <= to <= |b|
    ensures b[4..to] == b[4..from] + b[from..to]
  {
  }

  function EntryOf(b: seq<Byte>, n: int, i: int): RipEntry
    requires 0 <= i < n && |b| == HEADER_SIZE + ENTRY_SIZE * n
  {
    DecodeEntry(b[4 + ENTRY_SIZE * i..4 + ENTRY_SIZE * (i + 1)])
  }

  /** The decoder is the exact inverse of the encoder on well-formed packets: what it accepts is
      well-formed and encodes to the bytes read; what it rejects is no encoding of such a packet. */
  method Unmarshal(b: seq<Byte>) returns (r: Parsed)
    ensures r.Ok? ==> WellFormed(r.packet) && Encode(r.packet) == b && LaidOut(r.packet, b)
    ensures r.Malformed? ==> NoneEncodes(b)
  {
    if |b| < HEADER_SIZE || (|b| - HEADER_SIZE) % ENTRY_SIZE != 0 {
      BadLengthRejects(b);
      return Malformed;
    }
    var command := Get16(b[..2]);
    var numEntries := Get16(b[2..4]);
    var n := (|b| - HEADER_SIZE) / ENTRY_SIZE;
    if BadHeader(command, numEntries, n) {
      BadHeaderRejects(b, n);
      return Malformed;
    }
    var entries, good := ReadEntries(b, n);
    if good {
      Rebuilds(b, entries);
      r := Ok(RipPacket(command, entries));
      EncodeLaidOut(r.packet);
    } else {
      BadCostRejects(b, n);
      r := Malformed;
    }
  }

  /** The bytes are no encoding of a well-formed packet. */
  ghost predicate NoneEncodes(b: seq<Byte>)
  {
    forall p :: WellFormed(p) ==> Encode(p) != b
  }

  lemma BadLengthRejects(b: seq<Byte>)
    requires |b| < HEADER_SIZE || (|b| - HEADER_SIZE) % ENTRY_SIZE != 0
    ensures NoneEncodes(b)
  {
    forall p | WellFormed(p) ensures Encode(p) != b { assert (ENTRY_SIZE * |p.entries|) % ENTRY_SIZE == 0; }
  }

  lemma BadHeaderRejects(b: seq<Byte>, n: int)
    requires |b| == HEADER_SIZE + ENTRY_SIZE * n && n >= 0 && BadHeader(Get16(b[..2]), Get16(b[2..4]), n)
    ensures NoneEncodes(b)
  {
    forall p | WellFormed(p) ensures Encode(p) != b { HeaderOf(p); }
  }

  lemma BadCostRejects(b: seq<Byte>, n: int)
    requires |b| == HEADER_SIZE + ENTRY_SIZE * n && n >= 0
    requires exists i :: 0 <= i < n && EntryOf(b, n, i).cost > INFINITY
    ensures NoneEncodes(b)
  {
    var i :| 0 <= i < n && EntryOf(b, n, i).cost > INFINITY;
    forall p | WellFormed(p) ensures Encode(p) != b {
      if Encode(p) == b { CostAt(p, b, i); }
    }
  }

  lemma Rebuilds(b: seq<Byte>, entries: seq<RipEntry>)
    requires |b| >= HEADER_SIZE && EncodeEntries(entries) == b[4..] && |entries| == Get16(b[2..4])
    ensures Encode(RipPacket(Get16(b[..2]), entries)) == b
  {
    RoundTrip16(0, b[..2]);
    RoundTrip16(0, b[2..4]);
    assert b == b[..2] + b[2..4] + b[4..];
  }

  /** The header tests that follow the length test; n is the number of entries that fit the bytes. */
  predicate BadHeader(command: Word16, numEntries: Word16, n: int)
  {
    || (command != COMMAND_REQUEST && command != COMMAND_RESPONSE)
    || (command == COMMAND_REQUEST && numEntries != 0)
    || n != numEntries
    || numEntries > MAX_ENTRIES
  }

  lemma CostAt(p: RipPacket, b: seq<Byte>, i: int)
    requires Encode(p) == b && 0 <= i < |p.entries|
    ensures DecodeEntry(b[4 + ENTRY_SIZE * i..4 + ENTRY_SIZE * (i + 1)]) == p.entries[i]
  {
    HeaderOf(p);
    EntryAt(p.entries, i);
    assert b[4 + ENTRY_SIZE * i..4 + ENTRY_SIZE * (i + 1)] == b[4..][ENTRY_SIZE * i..ENTRY_SIZE * (i + 1)];
    EntryRoundTrip(p.entries[i], EncodeEntry(p.entries[i]));
  }

  /** Marshal then unmarshal gives the packet back exactly when it is well-formed. */
  method RoundTrip(p: RipPacket) returns (r: Parsed)
    ensures r == if WellFormed(p) then Ok(p) else Malformed
  {
    var b := Marshal(p);
    r := Unmarshal(b);
    if r.Ok? { EncodeInjective(r.packet, p); }
  }

  // ----- which responses are taken -------------------------------------------------------------

  /** A response built from a table that RIP can reach is taken by the neighbor exactly when the table
      has at most 64 entries; a larger table yields a malformed response, at which the receiver exits. */
  lemma ResponseTakenIff(t: Topology, u: Node, tab: Table, es: seq<RipEntry>, neighbor: IP)
    requires TopologyOk(t) && TableSound(t, u, tab) && IsAdvert(es, tab, neighbor)
    ensures WellFormed(RipPacket(COMMAND_RESPONSE, es)) <==> |tab| <= MAX_ENTRIES
  {
    forall i | 0 <= i < |es| ensures es[i].cost <= INFINITY {
      assert RouteSound(t, u, es[i].dest, tab[es[i].dest]);
    }
  }
}
