/** A network of RIP nodes: topology, hop distance, and what every asynchronous run keeps. */
module RipNetwork {
  import opened RipTable

  type Node = int

  /** Each link joins two interface addresses; `owner` says at which node an address sits. Addresses
      are distinct and links symmetric. */
  datatype Topology = Topology(owner: map<IP, Node>, peer: map<IP, IP>)

  ghost predicate TopologyOk(t: Topology)
  {
    && t.owner.Keys == t.peer.Keys
    && (forall a :: a in t.peer ==> t.peer[a] in t.peer && t.peer[t.peer[a]] == a && t.owner[t.peer[a]] != t.owner[a])
  }

  // ----- hop distance ------------------------------------------------------------------

  /** Address d is at most k hops from node u. */
  ghost predicate Within(t: Topology, u: Node, d: IP, k: int)
    requires TopologyOk(t)
    decreases k
  {
    && 0 <= k && d in t.owner
    && (t.owner[d] == u
        || (k > 0 && exists a :: a in t.owner && t.owner[a] == u && Within(t, t.owner[t.peer[a]], d, k - 1)))
  }

  /** Address d is exactly k hops from node u. */
  ghost predicate AtDistance(t: Topology, u: Node, d: IP, k: int)
    requires TopologyOk(t)
  {
    0 <= k && Within(t, u, d, k) && (k > 0 ==> !Within(t, u, d, k - 1))
  }

  lemma {:induction false} WithinMonotone(t: Topology, u: Node, d: IP, k: int, m: int)
    requires TopologyOk(t) && Within(t, u, d, k) && k <= m
    ensures Within(t, u, d, m)
    decreases k
  {
    if t.owner[d] != u {
      var a :| a in t.owner && t.owner[a] == u && Within(t, t.owner[t.peer[a]], d, k - 1);
      WithinMonotone(t, t.owner[t.peer[a]], d, k - 1, m - 1);
    }
  }

  /** One hop over the link of interface address a. */
  lemma WithinNeighbor(t: Topology, a: IP, d: IP, k: int)
    requires TopologyOk(t) && a in t.owner && k >= 0 && Within(t, t.owner[t.peer[a]], d, k)
    ensures Within(t, t.owner[a], d, k + 1)
  {
  }

  lemma DistanceUnique(t: Topology, u: Node, d: IP, k: int, m: int)
    requires TopologyOk(t) && AtDistance(t, u, d, k) && AtDistance(t, u, d, m)
    ensures k == m
  {
    if k < m { WithinMonotone(t, u, d, k, m - 1); }
    if m < k { WithinMonotone(t, u, d, m, k - 1); }
  }

  // ----- states and steps -----------------------------------------------------------------

  /** A response on its way, from interface address src to its peer; `full` if it was built by
      SendRIPResponse rather than triggered. */
  datatype Msg = Msg(src: IP, entries: seq<RipEntry>, full: bool)

  /** Messages on the wire, split by an arbitrary line drawn at some moment: `earlier` were sent before
      it, `recent` after it. */
  datatype RipState = RipState(tables: map<Node, Table>, earlier: multiset<Msg>, recent: multiset<Msg>)

  datatype RipAction =
    | Send(m: Msg)                    // PeriodicUpdate, or the answer to a request
    | Receive(m: Msg, fromOld: bool)  // RIPHandler, with the triggered updates it sends
    | Lose(m: Msg, fromOld: bool)
    | Duplicate(m: Msg, fromOld: bool)
    | Expire(u: Node, dests: set<IP>)
    | Exit(m: Msg, fromOld: bool)     // a response too long to unmarshal ends the receiving program

  predicate OnWire(s: RipState, m: Msg, fromOld: bool)
  {
    if fromOld then m in s.earlier else m in s.recent
  }

  function Take(s: RipState, m: Msg, fromOld: bool): RipState
  {
    if fromOld then s.(earlier := s.earlier - multiset{m}) else s.(recent := s.recent - multiset{m})
  }

  ghost predicate RipEnabled(t: Topology, s: RipState, act: RipAction)
    requires TopologyOk(t)
  {
    match act
    case Send(m) =>
      m.full && m.src in t.owner && t.owner[m.src] in s.tables
      && IsAdvert(m.entries, s.tables[t.owner[m.src]], t.peer[m.src])
    case Receive(m, o) => Arrives(t, s, m, o) && |m.entries| <= MAX_ENTRIES
    case Lose(m, o) => OnWire(s, m, o)
    case Duplicate(m, o) => OnWire(s, m, o)
    case Expire(u, _) => u in s.tables
    case Exit(m, o) => Arrives(t, s, m, o) && |m.entries| > MAX_ENTRIES
  }

  /** The message is on the wire and its receiver is up. */
  predicate Arrives(t: Topology, s: RipState, m: Msg, fromOld: bool)
    requires t.owner.Keys == t.peer.Keys
  {
    OnWire(s, m, fromOld) && m.src in t.owner && t.peer[m.src] in t.owner && t.owner[t.peer[m.src]] in s.tables
  }

  /** Triggered updates of node u: to every neighbor but the one the response came from. */
  function Triggered(t: Topology, u: Node, src: IP, es: seq<RipEntry>): set<Msg>
    requires t.owner.Keys == t.peer.Keys
  {
    set a | a in t.owner && t.owner[a] == u && t.peer[a] != src :: Msg(a, es, false)
  }

  ghost function RipNext(t: Topology, s: RipState, act: RipAction): RipState
    requires TopologyOk(t) && RipEnabled(t, s, act)
  {
    match act
    case Send(m) => s.(recent := s.recent + multiset{m})
    case Receive(m, o) =>
      var u := t.owner[t.peer[m.src]];
      var tab := s.tables[u];
      var s1 := Take(s, m, o);
      s1.(tables := s.tables[u := LearnAll(tab, m.src, m.entries)],
          recent := s1.recent + multiset(Triggered(t, u, m.src, Updated(tab, m.src, m.entries))))
    case Lose(m, o) => Take(s, m, o)
    case Duplicate(m, o) =>
      if o then s.(earlier := s.earlier + multiset{m}) else s.(recent := s.recent + multiset{m})
    case Expire(u, dests) => s.(tables := s.tables[u := s.tables[u] - dests])
    case Exit(m, o) => Take(s, m, o).(tables := s.tables - {t.owner[t.peer[m.src]]})
  }

  ghost predicate IsRipRun(t: Topology, s: RipState, acts: seq<RipAction>)
    requires TopologyOk(t)
    decreases |acts|
  {
    acts == [] || (RipEnabled(t, s, acts[0]) && IsRipRun(t, RipNext(t, s, acts[0]), acts[1..]))
  }

  ghost function RipFinal(t: Topology, s: RipState, acts: seq<RipAction>): RipState
    requires TopologyOk(t) && IsRipRun(t, s, acts)
    decreases |acts|
  {
    if acts == [] then s else RipFinal(t, RipNext(t, s, acts[0]), acts[1..])
  }

  // ----- soundness: nothing is ever closer than it is ----------------------------------------

  /** An entry of node u: no cheaper than the distance, and through a neighbor that is on the way. */
  ghost predicate RouteSound(t: Topology, u: Node, d: IP, r: Route)
    requires TopologyOk(t)
  {
    && 0 <= r.cost < INFINITY
    && Within(t, u, d, r.cost)
    && (r.cost == 0 ==> t.owner[d] == u && r.next == d)
    && (r.cost > 0 ==> r.next in t.peer && t.owner[t.peer[r.next]] == u && Within(t, t.owner[r.next], d, r.cost - 1))
  }

  ghost predicate TableSound(t: Topology, u: Node, tab: Table)
    requires TopologyOk(t)
  {
    forall d :: d in tab ==> RouteSound(t, u, d, tab[d])
  }

  /** What node v may say about an address: poison, or a cost no smaller than the distance. */
  ghost predicate EntrySound(t: Topology, v: Node, e: RipEntry)
    requires TopologyOk(t)
  {
    e.cost == INFINITY || (e.cost < INFINITY && Within(t, v, e.dest, e.cost))
  }

  ghost predicate EntriesSound(t: Topology, v: Node, es: seq<RipEntry>)
    requires TopologyOk(t)
  {
    forall i :: 0 <= i < |es| ==> EntrySound(t, v, es[i])
  }

  ghost predicate MsgSound(t: Topology, m: Msg)
    requires TopologyOk(t)
  {
    m.src in t.owner && EntriesSound(t, t.owner[m.src], m.entries)
  }

  ghost predicate Sound(t: Topology, s: RipState)
    requires TopologyOk(t)
  {
    && (forall u :: u in s.tables ==> TableSound(t, u, s.tables[u]))
    && (forall m :: m in s.earlier ==> MsgSound(t, m))
    && (forall m :: m in s.recent ==> MsgSound(t, m))
  }

  /** One entry, heard at interface address t.peer[src]. */
  lemma LearnSound(t: Topology, src: IP, tab: Table, e: RipEntry)
    requires TopologyOk(t) && src in t.owner && EntrySound(t, t.owner[src], e)
    requires TableSound(t, t.owner[t.peer[src]], tab)
    ensures TableSound(t, t.owner[t.peer[src]], Learn(tab, src, e))
    ensures Changes(tab, src, e) ==> EntrySound(t, t.owner[t.peer[src]], e.(cost := NewCost(e)))
  {
    if Changes(tab, src, e) {
      WithinNeighbor(t, t.peer[src], e.dest, e.cost);
    }
  }

  lemma {:induction false} LearnAllSound(t: Topology, src: IP, tab: Table, es: seq<RipEntry>)
    requires TopologyOk(t) && src in t.owner && EntriesSound(t, t.owner[src], es)
    requires TableSound(t, t.owner[t.peer[src]], tab)
    ensures TableSound(t, t.owner[t.peer[src]], LearnAll(tab, src, es))
    ensures EntriesSound(t, t.owner[t.peer[src]], Updated(tab, src, es))
    decreases |es|
  {
    if es != [] {
      assert EntrySound(t, t.owner[src], es[0]);
      LearnSound(t, src, tab, es[0]);
      LearnAllSound(t, src, Learn(tab, src, es[0]), es[1..]);
    }
  }

  lemma SoundReceive(t: Topology, s: RipState, m: Msg, o: bool)
    requires TopologyOk(t) && Sound(t, s) && RipEnabled(t, s, Receive(m, o))
    ensures Sound(t, RipNext(t, s, Receive(m, o)))
  {
    var u := t.owner[t.peer[m.src]];
    assert MsgSound(t, m);
    LearnAllSound(t, m.src, s.tables[u], m.entries);
    var s' := RipNext(t, s, Receive(m, o));
    TriggeredSound(t, u, m.src, Updated(s.tables[u], m.src, m.entries));
    forall q | q in s'.recent ensures MsgSound(t, q) {
      if q !in s.recent { assert q in Triggered(t, u, m.src, Updated(s.tables[u], m.src, m.entries)); }
    }
  }

  lemma TriggeredSound(t: Topology, u: Node, src: IP, es: seq<RipEntry>)
    requires TopologyOk(t) && EntriesSound(t, u, es)
    ensures forall q :: q in Triggered(t, u, src, es) ==> MsgSound(t, q)
  {
  }

  lemma SoundSend(t: Topology, s: RipState, m: Msg)
    requires TopologyOk(t) && Sound(t, s) && RipEnabled(t, s, Send(m))
    ensures Sound(t, RipNext(t, s, Send(m)))
  {
  }

  lemma SoundStep(t: Topology, s: RipState, act: RipAction)
    requires TopologyOk(t) && Sound(t, s) && RipEnabled(t, s, act)
    ensures Sound(t, RipNext(t, s, act))
  {
    match act {
      case Send(m) =>
        SoundSend(t, s, m);
      case Receive(m, o) =>
        SoundReceive(t, s, m, o);
      case Lose(_, _) =>
      case Duplicate(_, _) =>
      case Expire(_, _) =>
      case Exit(_, _) =>
    }
  }

  /** Soundness over every run with lost, duplicated, reordered updates and arbitrary expiry. */
  lemma {:induction false} SoundRun(t: Topology, s: RipState, acts: seq<RipAction>)
    requires TopologyOk(t) && Sound(t, s) && IsRipRun(t, s, acts)
    ensures Sound(t, RipFinal(t, s, acts))
    decreases |acts|
  {
    if acts != [] {
      SoundStep(t, s, acts[0]);
      SoundRun(t, RipNext(t, s, acts[0]), acts[1..]);
    }
  }

  ghost predicate InitialTable(t: Topology, u: Node, tab: Table)
  {
    && (forall d :: d in tab <==> d in t.owner && t.owner[d] == u)
    && (forall d :: d in tab ==> tab[d] == Route(d, 0))
  }

  /** Start: every node knows its own addresses, nothing is on the wire. */
  ghost predicate Initial(t: Topology, s: RipState)
  {
    && s.earlier == multiset{} && s.recent == multiset{}
    && (forall a :: a in t.owner ==> t.owner[a] in s.tables)
    && (forall u :: u in s.tables ==> InitialTable(t, u, s.tables[u]))
  }

  lemma InitialTableSound(t: Topology, u: Node, tab: Table)
    requires TopologyOk(t) && InitialTable(t, u, tab)
    ensures TableSound(t, u, tab)
  {
  }

  lemma InitialSound(t: Topology, s: RipState)
    requires TopologyOk(t) && Initial(t, s)
    ensures Sound(t, s)
  {
    forall u | u in s.tables ensures TableSound(t, u, s.tables[u]) { InitialTableSound(t, u, s.tables[u]); }
  }

  lemma CostBoundsDistance(t: Topology, u: Node, d: IP, c: int, k: int)
    requires TopologyOk(t) && Within(t, u, d, c) && AtDistance(t, u, d, k)
    ensures k <= c
  {
    if c < k { WithinMonotone(t, u, d, c, k - 1); }
  }

  /** RIP soundness. In every state reachable by sends, receptions, losses, duplications, reorderings
      and expiries, every entry costs at least the hop distance k and less than 16, and leads to a
      neighbor that is on the way. */
  lemma RipSoundness(t: Topology, s: RipState, acts: seq<RipAction>, u: Node, d: IP, k: int)
    requires TopologyOk(t) && Initial(t, s) && IsRipRun(t, s, acts)
    requires u in RipFinal(t, s, acts).tables && d in RipFinal(t, s, acts).tables[u]
    ensures RouteSound(t, u, d, RipFinal(t, s, acts).tables[u][d])
    ensures AtDistance(t, u, d, k) ==> k <= RipFinal(t, s, acts).tables[u][d].cost
  {
    InitialSound(t, s);
    SoundRun(t, s, acts);
    var tab := RipFinal(t, s, acts).tables[u];
    assert TableSound(t, u, tab);
    if AtDistance(t, u, d, k) { CostBoundsDistance(t, u, d, tab[d].cost, k); }
  }

  /** The same of every cost on the wire: a poisoned entry aside, no node ever says an address is nearer
      than it is. */
  lemma AdvertsSound(t: Topology, s: RipState, acts: seq<RipAction>, m: Msg, i: int, k: int)
    requires TopologyOk(t) && Initial(t, s) && IsRipRun(t, s, acts)
    requires (m in RipFinal(t, s, acts).earlier || m in RipFinal(t, s, acts).recent) && 0 <= i < |m.entries|
    ensures m.src in t.owner && m.entries[i].cost <= INFINITY
    ensures AtDistance(t, t.owner[m.src], m.entries[i].dest, k) && m.entries[i].cost < INFINITY ==> k <= m.entries[i].cost
  {
    InitialSound(t, s);
    SoundRun(t, s, acts);
    assert MsgSound(t, m);
    var e := m.entries[i];
    assert EntrySound(t, t.owner[m.src], e);
    if AtDistance(t, t.owner[m.src], e.dest, k) && e.cost < INFINITY {
      CostBoundsDistance(t, t.owner[m.src], e.dest, e.cost, k);
    }
  }

  // ----- poisoned reverse -----------------------------------------------------------------------

  lemma {:induction false} UpdatedLeadsToSrc(tab: Table, src: IP, es: seq<RipEntry>)
    ensures forall i :: 0 <= i < |Updated(tab, src, es)| ==>
              Updated(tab, src, es)[i].dest in LearnAll(tab, src, es)
              && LearnAll(tab, src, es)[Updated(tab, src, es)[i].dest].next == src
    decreases |es|
  {
    if es != [] {
      var tab' := Learn(tab, src, es[0]);
      UpdatedLeadsToSrc(tab', src, es[1..]);
      if Changes(tab, src, es[0]) { LearnAllKeepsNext(tab', src, es[1..], es[0].dest); }
    }
  }

  lemma {:induction false} LearnAllKeepsNext(tab: Table, src: IP, es: seq<RipEntry>, d: IP)
    requires d in tab && tab[d].next == src
    ensures d in LearnAll(tab, src, es) && LearnAll(tab, src, es)[d].next == src
    decreases |es|
  {
    if es != [] { LearnAllKeepsNext(Learn(tab, src, es[0]), src, es[1..], d); }
  }

  /** No finite cost goes to the neighbor a route leads through: a full response poisons the route, and
      a triggered update is not sent there at all. */
  lemma PoisonedReverse(t: Topology, s: RipState, act: RipAction, m: Msg, i: int)
    requires TopologyOk(t) && RipEnabled(t, s, act)
    requires act == Send(m) || (act.Receive? && m in Triggered(t, t.owner[t.peer[act.m.src]], act.m.src,
               Updated(s.tables[t.owner[t.peer[act.m.src]]], act.m.src, act.m.entries)))
    requires 0 <= i < |m.entries|
    ensures m.src in t.owner && t.owner[m.src] in RipNext(t, s, act).tables
    ensures var tab := RipNext(t, s, act).tables[t.owner[m.src]];
            m.entries[i].dest in tab
            && (tab[m.entries[i].dest].next == t.peer[m.src] ==> m.entries[i].cost == INFINITY)
  {
    if act.Receive? {
      UpdatedLeadsToSrc(s.tables[t.owner[t.peer[act.m.src]]], act.m.src, act.m.entries);
    }
  }

  // ----- empty triggered updates --------------------------------------------------------------------

  function Interfaces(t: Topology, u: Node): set<IP>
  {
    set a | a in t.owner && t.owner[a] == u
  }

  /** Every node has at least n interfaces. */
  ghost predicate MinDegree(t: Topology, n: int)
  {
    forall a :: a in t.owner ==> |Interfaces(t, t.owner[a])| >= n
  }

  function WireSize(s: RipState): int
  {
    |s.earlier| + |s.recent|
  }

  lemma TriggeredCount(t: Topology, src: IP, es: seq<RipEntry>)
    requires TopologyOk(t) && src in t.owner
    ensures |Triggered(t, t.owner[t.peer[src]], src, es)| == |Interfaces(t, t.owner[t.peer[src]])| - 1
  {
    var u := t.owner[t.peer[src]];
    var others := Interfaces(t, u) - {t.peer[src]};
    assert t.peer[src] in Interfaces(t, u);
    assert forall b :: b in Interfaces(t, u) && t.peer[b] == src ==> t.peer[src] == b;
    assert Triggered(t, u, src, es) == set b | b in others :: Msg(b, es, false);
    ImageSize(others, es);
  }

  lemma {:induction false} ImageSize(xs: set<IP>, es: seq<RipEntry>)
    ensures |set b | b in xs :: Msg(b, es, false)| == |xs|
    decreases |xs|
  {
    if xs != {} {
      var x :| x in xs;
      var rest := xs - {x};
      ImageSize(rest, es);
      assert (set b | b in xs :: Msg(b, es, false)) == (set b | b in rest :: Msg(b, es, false)) + {Msg(x, es, false)};
    }
  }

  /** The handler sends a triggered update even when nothing changed. In a network where every node has
      n >= 2 interfaces each reception puts at least n - 1 messages on the wire, so without loss the
      wire never drains, and with n >= 3 every reception makes it fuller. */
  lemma UpdatesNeverDieOut(t: Topology, s: RipState, m: Msg, o: bool, n: int)
    requires TopologyOk(t) && MinDegree(t, n) && RipEnabled(t, s, Receive(m, o))
    ensures WireSize(RipNext(t, s, Receive(m, o))) >= WireSize(s) + n - 2
  {
    var u := t.owner[t.peer[m.src]];
    TriggeredCount(t, m.src, Updated(s.tables[u], m.src, m.entries));
    assert t.peer[m.src] in t.owner;
  }

  function Receptions(acts: seq<RipAction>): nat
  {
    if acts == [] then 0 else (if acts[0].Receive? then 1 else 0) + Receptions(acts[1..])
  }

  function Losses(acts: seq<RipAction>): nat
  {
    if acts == [] then 0 else (if acts[0].Lose? || acts[0].Exit? then 1 else 0) + Losses(acts[1..])
  }

  function Growth(acts: seq<RipAction>, n: int): int
  {
    if acts == [] then 0
    else (if acts[0].Receive? then n - 2 else if acts[0].Lose? || acts[0].Exit? then -1 else 0) + Growth(acts[1..], n)
  }

  lemma {:induction false} GrowthCounts(acts: seq<RipAction>, n: int)
    ensures Growth(acts, n) == Receptions(acts) * (n - 2) - Losses(acts)
  {
    if acts != [] {
      GrowthCounts(acts[1..], n);
      assert (1 + Receptions(acts[1..])) * (n - 2) == (n - 2) + Receptions(acts[1..]) * (n - 2);
    }
  }

  lemma {:induction false} GrowsAlong(t: Topology, s: RipState, acts: seq<RipAction>, n: int)
    requires TopologyOk(t) && MinDegree(t, n) && IsRipRun(t, s, acts)
    ensures WireSize(RipFinal(t, s, acts)) >= WireSize(s) + Growth(acts, n)
    decreases |acts|
  {
    if acts != [] {
      WireStep(t, s, acts[0], n);
      GrowsAlong(t, RipNext(t, s, acts[0]), acts[1..], n);
    }
  }

  /** Over a whole run only losses drain the wire. Where every node has n >= 2 interfaces, the messages on
      it grow by at least n - 2 for each reception: one message is enough to keep updates going for ever,
      and from n = 3 on they multiply. */
  lemma StormGrows(t: Topology, s: RipState, acts: seq<RipAction>, n: int)
    requires TopologyOk(t) && MinDegree(t, n) && IsRipRun(t, s, acts)
    ensures WireSize(RipFinal(t, s, acts)) >= WireSize(s) + Receptions(acts) * (n - 2) - Losses(acts)
  {
    GrowsAlong(t, s, acts, n);
    GrowthCounts(acts, n);
  }

  lemma WireStep(t: Topology, s: RipState, act: RipAction, n: int)
    requires TopologyOk(t) && MinDegree(t, n) && RipEnabled(t, s, act)
    ensures act.Receive? ==> WireSize(RipNext(t, s, act)) >= WireSize(s) + n - 2
    ensures act.Lose? || act.Exit? ==> WireSize(RipNext(t, s, act)) == WireSize(s) - 1
    ensures act.Send? || act.Duplicate? ==> WireSize(RipNext(t, s, act)) == WireSize(s) + 1
    ensures act.Expire? ==> WireSize(RipNext(t, s, act)) == WireSize(s)
  {
    if act.Receive? { UpdatesNeverDieOut(t, s, act.m, act.fromOld, n); }
  }
}
