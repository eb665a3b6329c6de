/** Hop-by-hop forwarding, pkg/network/network.go: what happens to a packet on a network whose tables
    RIP has filled. */
module Forwarding {
  import opened TcpTypes
  import opened BigEndian
  import opened Checksum
  import opened RipTable
  import opened RipNetwork
  import opened RipConvergence

  const MAX_HOPS := 16

  datatype IpHeader = IpHeader(totalLen: Word16, ttl: Byte, protocol: Byte, src: IP, dst: IP)

  function Front(h: IpHeader): (b: seq<Byte>)
    ensures |b| == 10
  {
    [0x45, 0] + Put16(h.totalLen) + [0, 0, 0, 0] + [h.ttl, h.protocol]
  }

  function Back(h: IpHeader): (b: seq<Byte>)
    ensures |b| == 8
  {
    Put32(h.src) + Put32(h.dst)
  }

  function HeaderChecksum(h: IpHeader): Word16
  {
    ComputeChecksum(WithChecksum(Front(h), Back(h), 0))
  }

  /** The next node's test on a header sent with its freshly computed checksum. */
  predicate HeaderAccepted(h: IpHeader)
  {
    Accepts(WithChecksum(Front(h), Back(h), HeaderChecksum(h)), HeaderChecksum(h))
  }

  // ----- what one node does ----------------------------------------------------------------

  predicate IsLocal(t: Topology, u: Node, d: IP)
  {
    d in t.owner && t.owner[d] == u
  }

  /** Key of IpInterfaces at node u: the far address of one of its links. */
  predicate IsLink(t: Topology, u: Node, x: IP)
    requires t.owner.Keys == t.peer.Keys
  {
    x in t.peer && t.peer[x] in t.owner && t.owner[t.peer[x]] == u
  }

  datatype Hop = Handed | Relay(next: IP, h: IpHeader) | BadChecksum | NoRoute | TtlExpired | MissingLink

  /** What a node does to decide whether a header arrived intact. */
  type HeaderTest = IpHeader -> bool

  /** HandlePacketSafe at node u, with `ok` as its header test. */
  function HandleHop(t: Topology, u: Node, tab: Table, h: IpHeader, ok: HeaderTest): Hop
    requires t.owner.Keys == t.peer.Keys
  {
    if !ok(h) then BadChecksum
    else if IsLocal(t, u, h.dst) then Handed
    else if h.dst !in tab then NoRoute
    else if h.ttl - 1 <= 0 then TtlExpired
    else if !IsLink(t, u, tab[h.dst].next) then MissingLink
    else Relay(tab[h.dst].next, h.(ttl := h.ttl - 1))
  }

  datatype FirstHop = ToSelf(h: IpHeader) | ToLink(next: IP, h: IpHeader) | NilInterface | CannotReach

  /** SendMsgToDestIP at node u: own address, then a direct link, then the table. */
  function SendMsg(t: Topology, u: Node, tab: Table, d: IP, protocol: Byte, len: Word16): FirstHop
    requires t.owner.Keys == t.peer.Keys
  {
    if IsLocal(t, u, d) then ToSelf(IpHeader(len, MAX_HOPS, protocol, d, d))
    else if IsLink(t, u, d) then ToLink(d, IpHeader(len, MAX_HOPS, protocol, t.peer[d], d))
    else if d !in tab then CannotReach
    else if IsLink(t, u, tab[d].next) then ToLink(tab[d].next, IpHeader(len, MAX_HOPS, protocol, t.peer[tab[d].next], d))
    else NilInterface
  }

  /** A packet for d leaves u over the link to f.next, from u's own address on that link. */
  ghost predicate LeavesOver(t: Topology, u: Node, d: IP, protocol: Byte, len: Word16, f: FirstHop)
    requires TopologyOk(t)
  {
    && f.ToLink? && f.h.src in t.owner && t.owner[f.h.src] == u && t.peer[f.h.src] == f.next
    && f.h == IpHeader(len, 16, protocol, f.h.src, d)
  }

  /** Any table, any destination: own addresses and direct neighbors are reached without the table, the
      rest over the link of the table's next hop; the interface is nil exactly if that is no neighbor. */
  lemma SendCases(t: Topology, u: Node, tab: Table, d: IP, protocol: Byte, len: Word16)
    requires TopologyOk(t)
    ensures var f := SendMsg(t, u, tab, d, protocol, len);
            var own := d in t.owner && t.owner[d] == u;
            var near := d in t.owner && t.owner[t.peer[d]] == u;
            && (own ==> f == ToSelf(IpHeader(len, 16, protocol, d, d)))
            && (near ==> LeavesOver(t, u, d, protocol, len, f) && f.next == d)
            && (!own && !near && d !in tab ==> f == CannotReach)
            && (!own && !near && d in tab && tab[d].next in t.owner && t.owner[t.peer[tab[d].next]] == u
                ==> LeavesOver(t, u, d, protocol, len, f) && f.next == tab[d].next)
            && (!own && !near && d in tab && !(tab[d].next in t.owner && t.owner[t.peer[tab[d].next]] == u) ==> f == NilInterface)
  {
  }

  // ----- the whole journey ------------------------------------------------------------------

  datatype Journey = Journey(path: seq<Node>, end: Hop, last: IpHeader)

  /** From the arrival of header h at node u to its end; path lists the nodes that saw the packet. */
  function Travel(t: Topology, tables: map<Node, Table>, u: Node, h: IpHeader, ok: HeaderTest): Journey
    requires t.owner.Keys == t.peer.Keys
    decreases h.ttl
  {
    if u !in tables then Journey([u], NoRoute, h)
    else
      match HandleHop(t, u, tables[u], h, ok)
      case Relay(next, h') =>
        var rest := Travel(t, tables, t.owner[next], h', ok);
        Journey([u] + rest.path, rest.end, rest.last)
      case other => Journey([u], other, h)
  }

  ghost predicate Linked(t: Topology, u: Node, v: Node)
    requires TopologyOk(t)
  {
    exists a :: a in t.owner && t.owner[a] == u && t.owner[t.peer[a]] == v
  }

  /** What ended the journey at node w, which saw header h. */
  ghost predicate EndsAt(t: Topology, tables: map<Node, Table>, w: Node, h: IpHeader, ok: HeaderTest, end: Hop)
    requires TopologyOk(t)
  {
    var own := h.dst in t.owner && t.owner[h.dst] == w;
    match end
    case Handed => ok(h) && own
    case BadChecksum => w in tables && !ok(h)
    case NoRoute => w !in tables || (!own && h.dst !in tables[w])
    case TtlExpired => !own && h.ttl <= 1
    case MissingLink => !own && w in tables && h.dst in tables[w] && !IsLink(t, w, tables[w][h.dst].next)
    case Relay(_, _) => false
  }

  /** With any tables at all, loops and dead ends included: the packet passes from neighbor to neighbor
      unchanged but for one TTL unit a hop, over no more nodes than its TTL, and ends in one of five ways. */
  lemma {:induction false} TravelEnds(t: Topology, tables: map<Node, Table>, u: Node, h: IpHeader, ok: HeaderTest)
    requires TopologyOk(t)
    ensures var q := Travel(t, tables, u, h, ok); var n := |q.path|;
            && n >= 1 && q.path[0] == u && (n == 1 || n <= h.ttl)
            && (forall i :: 0 < i < n ==> Linked(t, q.path[i - 1], q.path[i]))
            && q.last.ttl == h.ttl - (n - 1) && q.last.(ttl := h.ttl) == h
            && EndsAt(t, tables, q.path[n - 1], q.last, ok, q.end)
    decreases h.ttl
  {
    if u in tables {
      var r := HandleHop(t, u, tables[u], h, ok);
      if r.Relay? {
        TravelEnds(t, tables, t.owner[r.next], r.h, ok);
        var rest := Travel(t, tables, t.owner[r.next], r.h, ok).path;
        assert Linked(t, u, t.owner[r.next]) by { assert t.owner[t.peer[t.peer[r.next]]] == t.owner[r.next]; }
        var path := [u] + rest;
        forall i | 0 < i < |path| ensures Linked(t, path[i - 1], path[i]) {
          if i > 1 { assert Linked(t, rest[i - 2], rest[i - 1]); }
        }
      }
    }
  }

  /** Every node has right routes up to 15 hops. */
  ghost predicate Converged(t: Topology, tables: map<Node, Table>)
    requires TopologyOk(t)
  {
    && (forall a :: a in t.owner ==> t.owner[a] in tables)
    && (forall u :: u in tables ==> RightUpTo(t, u, tables[u], INFINITY - 1))
  }

  /** Every header on the way, over j more hops, passes the test. */
  ghost predicate AllPass(h: IpHeader, j: int, ok: HeaderTest)
    requires 0 <= j < h.ttl
    decreases j
  {
    ok(h) && (j == 0 || AllPass(h.(ttl := h.ttl - 1), j - 1, ok))
  }

  /** No header on the way, over j more hops, has checksum zero. */
  predicate ChecksumsNonZero(h: IpHeader, j: int)
    requires 0 <= j < h.ttl
    decreases j
  {
    HeaderChecksum(h) != 0 && (j == 0 || ChecksumsNonZero(h.(ttl := h.ttl - 1), j - 1))
  }

  lemma {:induction false} AllPassIff(h: IpHeader, j: int)
    requires 0 <= j < h.ttl
    ensures AllPass(h, j, HeaderAccepted) <==> ChecksumsNonZero(h, j)
    decreases j
  {
    AcceptedIff(h);
    if j > 0 { AllPassIff(h.(ttl := h.ttl - 1), j - 1); }
  }

  lemma AcceptedIff(h: IpHeader)
    ensures HeaderAccepted(h) <==> HeaderChecksum(h) != 0
  {
    FreshHeaderAcceptedIff(Front(h), Back(h));
  }

  /** A path that comes one hop nearer with each step. */
  ghost predicate Straight(t: Topology, path: seq<Node>, d: IP, j: int)
    requires TopologyOk(t)
  {
    && |path| == j + 1
    && forall i :: 0 <= i <= j ==> AtDistance(t, path[i], d, j - i)
  }

  ghost predicate ArrivesIn(t: Topology, q: Journey, h: IpHeader, j: int)
    requires TopologyOk(t) && 0 <= j < h.ttl
  {
    q.end == Handed && Straight(t, q.path, h.dst, j) && q.last == h.(ttl := h.ttl - j)
  }

  /** What a node with right routes does with a packet that is j > 0 hops from its goal. */
  lemma RelaysNearer(t: Topology, tables: map<Node, Table>, u: Node, h: IpHeader, j: int, ok: HeaderTest)
    requires TopologyOk(t) && Converged(t, tables) && AtDistance(t, u, h.dst, j) && 0 < j < h.ttl && j < INFINITY
    requires u in tables && ok(h)
    ensures var r := HandleHop(t, u, tables[u], h, ok);
            r.Relay? && r.h == h.(ttl := h.ttl - 1) && r.next in t.owner
            && AtDistance(t, t.owner[r.next], h.dst, j - 1) && t.owner[r.next] in tables
  {
    WithinMonotone(t, u, h.dst, j, INFINITY - 1);
    var tab := tables[u];
    assert RightUpTo(t, u, tab, INFINITY - 1);
    assert RouteExact(t, u, tab, h.dst) && RouteSound(t, u, h.dst, tab[h.dst]);
    DistanceUnique(t, u, h.dst, j, tab[h.dst].cost);
  }

  lemma {:induction false} TravelArrives(t: Topology, tables: map<Node, Table>, u: Node, h: IpHeader, j: int, ok: HeaderTest)
    requires TopologyOk(t) && Converged(t, tables) && u in tables && AtDistance(t, u, h.dst, j)
    requires 0 <= j < h.ttl && j < INFINITY && AllPass(h, j, ok)
    ensures ArrivesIn(t, Travel(t, tables, u, h, ok), h, j)
    decreases j
  {
    if j == 0 {
      assert IsLocal(t, u, h.dst);
    } else {
      RelaysNearer(t, tables, u, h, j, ok);
      var r := HandleHop(t, u, tables[u], h, ok);
      TravelArrives(t, tables, t.owner[r.next], r.h, j - 1, ok);
      StraightCons(t, u, Travel(t, tables, t.owner[r.next], r.h, ok).path, h.dst, j);
    }
  }

  lemma {:induction false} TravelFails(t: Topology, tables: map<Node, Table>, u: Node, h: IpHeader, j: int, ok: HeaderTest)
    requires TopologyOk(t) && Converged(t, tables) && u in tables && AtDistance(t, u, h.dst, j)
    requires 0 <= j < h.ttl && j < INFINITY && !AllPass(h, j, ok)
    ensures Travel(t, tables, u, h, ok).end == BadChecksum
    decreases j
  {
    if ok(h) {
      RelaysNearer(t, tables, u, h, j, ok);
      var r := HandleHop(t, u, tables[u], h, ok);
      TravelFails(t, tables, t.owner[r.next], r.h, j - 1, ok);
    }
  }

  lemma StraightCons(t: Topology, u: Node, path: seq<Node>, d: IP, j: int)
    requires TopologyOk(t) && j > 0 && AtDistance(t, u, d, j) && Straight(t, path, d, j - 1)
    ensures Straight(t, [u] + path, d, j)
  {
    var p := [u] + path;
    forall i | 0 <= i <= j ensures AtDistance(t, p[i], d, j - i) {
      if i > 0 { assert AtDistance(t, path[i - 1], d, j - 1 - (i - 1)); }
    }
  }

  /** A straight path has no loop. */
  lemma StraightIsLoopFree(t: Topology, path: seq<Node>, d: IP, j: int)
    requires TopologyOk(t) && Straight(t, path, d, j)
    ensures forall a, b :: 0 <= a < b < |path| ==> path[a] != path[b]
  {
    forall a, b | 0 <= a < b < |path| ensures path[a] != path[b] {
      if path[a] == path[b] { DistanceUnique(t, path[a], d, j - a, j - b); }
    }
  }

  /** SendMsg finds a link one hop nearer to the destination. */
  lemma SendsNearer(t: Topology, tables: map<Node, Table>, u: Node, d: IP, k: int, protocol: Byte, len: Word16)
    requires TopologyOk(t) && Converged(t, tables) && u in tables && AtDistance(t, u, d, k) && 0 < k < INFINITY
    ensures var f := SendMsg(t, u, tables[u], d, protocol, len);
            && LeavesOver(t, u, d, protocol, len, f)
            && f.next in t.owner && AtDistance(t, t.owner[f.next], d, k - 1) && t.owner[f.next] in tables
  {
    var tab := tables[u];
    if IsLink(t, u, d) {
      assert Within(t, t.owner[d], d, 0);
      WithinNeighbor(t, t.peer[d], d, 0);
      ExactCost(t, u, d, k, 1);
    } else {
      WithinMonotone(t, u, d, k, INFINITY - 1);
      assert RightUpTo(t, u, tab, INFINITY - 1);
      assert RouteExact(t, u, tab, d) && RouteSound(t, u, d, tab[d]);
      DistanceUnique(t, u, d, k, tab[d].cost);
    }
  }

  /** A packet sent k hops, under any header test: f is its first hop, q the journey from there. */
  lemma DeliveredIff(t: Topology, tables: map<Node, Table>, u: Node, d: IP, k: int, f: FirstHop, q: Journey, ok: HeaderTest)
    requires TopologyOk(t) && Converged(t, tables) && u in tables && AtDistance(t, u, d, k) && 0 < k < INFINITY
    requires f.ToLink? && f.h.dst == d && f.h.ttl == MAX_HOPS
    requires f.next in t.owner && AtDistance(t, t.owner[f.next], d, k - 1) && t.owner[f.next] in tables
    requires q == Travel(t, tables, t.owner[f.next], f.h, ok)
    ensures if AllPass(f.h, k - 1, ok) then Delivered(t, u, d, k, f.h, q) else q.end == BadChecksum
  {
    TravelEither(t, tables, t.owner[f.next], f.h, k - 1, q, ok);
    if AllPass(f.h, k - 1, ok) { ArrivedIsDelivered(t, u, d, k, f.h, q); }
  }

  lemma TravelEither(t: Topology, tables: map<Node, Table>, v: Node, h: IpHeader, j: int, q: Journey, ok: HeaderTest)
    requires TopologyOk(t) && Converged(t, tables) && v in tables && AtDistance(t, v, h.dst, j)
    requires 0 <= j < h.ttl && j < INFINITY && q == Travel(t, tables, v, h, ok)
    ensures if AllPass(h, j, ok) then ArrivesIn(t, q, h, j) else q.end == BadChecksum
  {
    if AllPass(h, j, ok) { TravelArrives(t, tables, v, h, j, ok); } else { TravelFails(t, tables, v, h, j, ok); }
  }

  lemma ArrivedIsDelivered(t: Topology, u: Node, d: IP, k: int, h: IpHeader, q: Journey)
    requires TopologyOk(t) && AtDistance(t, u, d, k) && 0 < k < INFINITY && h.dst == d && h.ttl == MAX_HOPS
    requires ArrivesIn(t, q, h, k - 1)
    ensures Delivered(t, u, d, k, h, q)
  {
    StraightCons(t, u, q.path, d, k);
    StraightIsLoopFree(t, [u] + q.path, d, k);
  }

  /** Handed over k hops away, after a loop-free path that came one hop nearer each time, as it was sent
      but for the TTL, of which 17 - k are left. */
  ghost predicate Delivered(t: Topology, u: Node, d: IP, k: int, h: IpHeader, q: Journey)
    requires TopologyOk(t)
  {
    var path := [u] + q.path;
    && q.end == Handed && Straight(t, path, d, k) && q.last.ttl == 17 - k && q.last.(ttl := h.ttl) == h
    && forall a, b :: 0 <= a < b < |path| ==> path[a] != path[b]
  }

  /** Routing implies delivery. With converged tables a packet sent from any node to any address k hops
      away, 0 < k <= 15, is handed over at the destination if and only if none of the k headers it
      travels with has checksum zero. It then came by a loop-free path of k hops with TTL 17 - k left;
      otherwise a checksum test dropped it. No node lacks a route or a link, and the TTL never expires. */
  lemma RoutingImpliesDelivery(t: Topology, tables: map<Node, Table>, u: Node, d: IP, k: int, protocol: Byte, len: Word16)
    returns (f: FirstHop, q: Journey)
    requires TopologyOk(t) && Converged(t, tables) && u in tables && AtDistance(t, u, d, k) && 0 < k < INFINITY
    ensures f == SendMsg(t, u, tables[u], d, protocol, len) && LeavesOver(t, u, d, protocol, len, f) && f.next in t.owner
    ensures q == Travel(t, tables, t.owner[f.next], f.h, HeaderAccepted)
    ensures if ChecksumsNonZero(f.h, k - 1) then Delivered(t, u, d, k, f.h, q) else q.end == BadChecksum
  {
    SendsNearer(t, tables, u, d, k, protocol, len);
    f := SendMsg(t, u, tables[u], d, protocol, len);
    q := Travel(t, tables, t.owner[f.next], f.h, HeaderAccepted);
    DeliveredIff(t, tables, u, d, k, f, q, HeaderAccepted);
    AllPassIff(f.h, k - 1);
  }

  /** The tables RIP builds are such tables. */
  lemma RipBuildsConvergedTables(t: Topology, s: RipState, rs: seq<RoundActs>)
    requires TopologyOk(t) && Initial(t, s) && AreRounds(t, s, rs) && |rs| >= INFINITY - 1
    ensures Converged(t, AfterRounds(t, s, rs).tables)
  {
    InitialSettled(t, s);
    RoundsSettle(t, s, rs, 0, |rs|);
    var f := AfterRounds(t, s, rs);
    forall u | u in f.tables ensures RightUpTo(t, u, f.tables[u], INFINITY - 1) {
      ExactIsRight(t, u, f.tables[u], INFINITY - 1);
    }
  }

  /** From the initial tables to delivery: after 15 rounds of RIP, with whatever loss, duplication,
      reordering and triggered updates the rounds allow, the delivery theorem holds of what RIP built. */
  lemma RipDelivers(t: Topology, s: RipState, rs: seq<RoundActs>, u: Node, d: IP, k: int, protocol: Byte, len: Word16)
    returns (f: FirstHop, q: Journey)
    requires TopologyOk(t) && Initial(t, s) && AreRounds(t, s, rs) && |rs| >= INFINITY - 1
    requires u in AfterRounds(t, s, rs).tables && AtDistance(t, u, d, k) && 0 < k < INFINITY
    ensures f == SendMsg(t, u, AfterRounds(t, s, rs).tables[u], d, protocol, len)
    ensures LeavesOver(t, u, d, protocol, len, f) && f.next in t.owner
    ensures q == Travel(t, AfterRounds(t, s, rs).tables, t.owner[f.next], f.h, HeaderAccepted)
    ensures if ChecksumsNonZero(f.h, k - 1) then Delivered(t, u, d, k, f.h, q) else q.end == BadChecksum
  {
    RipBuildsConvergedTables(t, s, rs);
    f, q := RoutingImpliesDelivery(t, AfterRounds(t, s, rs).tables, u, d, k, protocol, len);
  }
}
