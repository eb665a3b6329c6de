/** A packet that the network drops although nothing is wrong with it: its header has checksum zero. */
module ForwardingDrop {
  import opened TcpTypes
  import opened BigEndian
  import opened Checksum
  import opened RipTable
  import opened RipNetwork
  import opened RipConvergence
  import opened RipLimits
  import opened Forwarding

  /** 10.0.0.1 and 10.0.150.208. */
  const SRC: IP := 0x0a00_0001
  const DST: IP := 0x0a00_96d0

  const TCP_PROTOCOL: Byte := 6

  /** The length of a SYN: two headers of 20 bytes and no data. */
  const SYN_LEN: Word16 := 40

  function SynHeader(): IpHeader
  {
    IpHeader(SYN_LEN, MAX_HOPS, TCP_PROTOCOL, SRC, DST)
  }

  lemma FrontSum()
    ensures WordSum(Front(SynHeader())) == 0x4500 + 40 + 0x1006
  {
    var b: seq<Byte> := [0x45, 0, 0, 40, 0, 0, 0, 0, 16, 6];
    assert Put16(SYN_LEN) == [0, 40];
    assert Front(SynHeader()) == b;
    WordSumAt(b, 0x45, 0, [0, 40, 0, 0, 0, 0, 16, 6]);
    WordSumAt([0, 40, 0, 0, 0, 0, 16, 6], 0, 40, [0, 0, 0, 0, 16, 6]);
    WordSumAt([0, 0, 0, 0, 16, 6], 0, 0, [0, 0, 16, 6]);
    WordSumAt([0, 0, 16, 6], 0, 0, [16, 6]);
    WordSumAt([16, 6], 16, 6, []);
  }

  lemma BackSum()
    ensures WordSum(Back(SynHeader())) == 0x0a00 + 1 + 0x0a00 + 0x96d0
  {
    var b: seq<Byte> := [10, 0, 0, 1, 10, 0, 0x96, 0xd0];
    assert Put32(SRC) == [10, 0, 0, 1] && Put32(DST) == [10, 0, 0x96, 0xd0];
    assert Back(SynHeader()) == b;
    WordSumAt(b, 10, 0, [0, 1, 10, 0, 0x96, 0xd0]);
    WordSumAt([0, 1, 10, 0, 0x96, 0xd0], 0, 1, [10, 0, 0x96, 0xd0]);
    WordSumAt([10, 0, 0x96, 0xd0], 10, 0, [0x96, 0xd0]);
    WordSumAt([0x96, 0xd0], 0x96, 0xd0, []);
  }

  lemma SynChecksumIsZero()
    ensures HeaderChecksum(SynHeader()) == 0
  {
    FrontSum();
    BackSum();
    ZeroFrom(Front(SynHeader()), Back(SynHeader()));
  }

  // ----- the journey -----------------------------------------------------------------------------

  /** Two nodes and the link between them. */
  function OneLink(): Topology
  {
    Topology(map[SRC := 0, DST := 1], map[SRC := DST, DST := SRC])
  }

  lemma OneLinkOk()
    ensures TopologyOk(OneLink())
  {
    var t := OneLink();
    assert t.owner.Keys == {SRC, DST} && t.peer.Keys == {SRC, DST};
  }

  lemma OneLinkStart() returns (s: RipState)
    ensures Initial(OneLink(), s) && 0 in s.tables
  {
    s := RipState(map[0 := map[SRC := Route(SRC, 0)], 1 := map[DST := Route(DST, 0)]], multiset{}, multiset{});
  }

  /** A node whose tables RIP has built in 15 rounds sends a SYN to its neighbor over the direct link, and the neighbor
      drops it: the words of the header sum to 65535, so its checksum is zero. */
  lemma ZeroChecksumDrops() returns (t: Topology, s: RipState, rs: seq<RoundActs>, f: FirstHop, q: Journey)
    ensures TopologyOk(t) && Initial(t, s) && AreRounds(t, s, rs) && |rs| == INFINITY - 1
    ensures 0 in AfterRounds(t, s, rs).tables
    ensures f == SendMsg(t, 0, AfterRounds(t, s, rs).tables[0], DST, TCP_PROTOCOL, SYN_LEN)
    ensures f == ToLink(DST, SynHeader())
    ensures DST in t.owner && q == Travel(t, AfterRounds(t, s, rs).tables, t.owner[DST], f.h, HeaderAccepted)
    ensures !ChecksumsNonZero(f.h, 0) && q.end == BadChecksum
  {
    t := OneLink();
    OneLinkOk();
    SmallIsNarrow(t);
    s := OneLinkStart();
    InitialSound(t, s);
    rs := RoundsFrom(t, s, INFINITY - 1);
    RipBuildsConvergedTables(t, s, rs);
    assert t.owner[SRC] in AfterRounds(t, s, rs).tables;
    f, q := RoutingImpliesDelivery(t, AfterRounds(t, s, rs).tables, 0, DST, 1, TCP_PROTOCOL, SYN_LEN);
    SynChecksumIsZero();
  }
}
