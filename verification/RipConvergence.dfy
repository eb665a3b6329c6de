/** Convergence of RIP on a static network. Routes are exact after k rounds up to k hops, however
    updates are lost, duplicated, reordered or triggered, as long as nothing expires. */
module RipConvergence {
  import opened RipTable
  import opened RipNetwork

  // ----- exactness -----------------------------------------------------------------------

  ghost predicate RouteExact(t: Topology, u: Node, tab: Table, d: IP)
    requires TopologyOk(t)
  {
    d in tab && AtDistance(t, u, d, tab[d].cost)
  }

  /** Node u has the exact cost of every address within k hops. */
  ghost predicate NodeExact(t: Topology, u: Node, tab: Table, k: int)
    requires TopologyOk(t)
  {
    forall d :: Within(t, u, d, k) ==> RouteExact(t, u, tab, d)
  }

  /** What node v says about an address within k hops is exact, or poison. */
  ghost predicate EntryExact(t: Topology, v: Node, e: RipEntry, k: int)
    requires TopologyOk(t)
  {
    Within(t, v, e.dest, k) ==> e.cost == INFINITY || AtDistance(t, v, e.dest, e.cost)
  }

  ghost predicate EntriesExact(t: Topology, v: Node, es: seq<RipEntry>, k: int)
    requires TopologyOk(t)
  {
    forall i :: 0 <= i < |es| ==> EntryExact(t, v, es[i], k)
  }

  lemma ExactCost(t: Topology, u: Node, d: IP, c: int, k: int)
    requires TopologyOk(t) && AtDistance(t, u, d, c) && Within(t, u, d, k)
    ensures c <= k
  {
    if k < c { WithinMonotone(t, u, d, k, c - 1); }
  }

  // ----- what one entry can and cannot do ---------------------------------------------------

  /** An exact route of cost at most k + 1 is not touched by an entry that is exact up to k hops. */
  lemma ExactStays(t: Topology, src: IP, tab: Table, e: RipEntry, k: int, d: IP)
    requires TopologyOk(t) && src in t.owner && TableSound(t, t.owner[t.peer[src]], tab)
    requires EntrySound(t, t.owner[src], e) && EntryExact(t, t.owner[src], e, k)
    requires RouteExact(t, t.owner[t.peer[src]], tab, d) && tab[d].cost <= k + 1
    ensures d in Learn(tab, src, e) && Learn(tab, src, e)[d] == tab[d]
  {
    var u := t.owner[t.peer[src]];
    if Changes(tab, src, e) && e.dest == d {
      assert RouteSound(t, u, d, tab[d]);
      WithinNeighbor(t, t.peer[src], d, e.cost);
      CostBoundsDistance(t, u, d, NewCost(e), tab[d].cost);
      assert tab[d].next == src && tab[d].cost > 0;
      WithinMonotone(t, t.owner[src], d, tab[d].cost - 1, k);
      CostBoundsDistance(t, t.owner[src], d, tab[d].cost - 1, e.cost);
      assert false;
    }
  }

  /** An exact entry from a neighbor one hop nearer gives an exact route. */
  lemma ExactArrives(t: Topology, src: IP, tab: Table, e: RipEntry)
    requires TopologyOk(t) && src in t.owner && TableSound(t, t.owner[t.peer[src]], tab)
    requires e.cost < INFINITY - 1 && AtDistance(t, t.owner[t.peer[src]], e.dest, e.cost + 1)
    requires Within(t, t.owner[src], e.dest, e.cost)
    ensures RouteExact(t, t.owner[t.peer[src]], Learn(tab, src, e), e.dest)
    ensures Learn(tab, src, e)[e.dest].cost == e.cost + 1
  {
    var u := t.owner[t.peer[src]];
    if e.dest in tab {
      assert RouteSound(t, u, e.dest, tab[e.dest]);
      CostBoundsDistance(t, u, e.dest, tab[e.dest].cost, e.cost + 1);
    }
  }

  // ----- what one response can and cannot do ---------------------------------------------------

  lemma {:induction false} LearnAllKeeps(t: Topology, src: IP, tab: Table, es: seq<RipEntry>, k: int, d: IP)
    requires TopologyOk(t) && src in t.owner && TableSound(t, t.owner[t.peer[src]], tab)
    requires EntriesSound(t, t.owner[src], es) && EntriesExact(t, t.owner[src], es, k)
    requires RouteExact(t, t.owner[t.peer[src]], tab, d) && tab[d].cost <= k + 1
    ensures d in LearnAll(tab, src, es) && LearnAll(tab, src, es)[d] == tab[d]
    decreases |es|
  {
    if es != [] {
      assert EntrySound(t, t.owner[src], es[0]) && EntryExact(t, t.owner[src], es[0], k);
      LearnSound(t, src, tab, es[0]);
      ExactStays(t, src, tab, es[0], k, d);
      LearnAllKeeps(t, src, Learn(tab, src, es[0]), es[1..], k, d);
    }
  }

  lemma {:induction false} LearnAllGets(t: Topology, src: IP, tab: Table, es: seq<RipEntry>, k: int, i: int)
    requires TopologyOk(t) && src in t.owner && TableSound(t, t.owner[t.peer[src]], tab)
    requires EntriesSound(t, t.owner[src], es) && EntriesExact(t, t.owner[src], es, k)
    requires 0 <= i < |es| && es[i].cost <= k < INFINITY - 1
    requires AtDistance(t, t.owner[t.peer[src]], es[i].dest, es[i].cost + 1)
    ensures RouteExact(t, t.owner[t.peer[src]], LearnAll(tab, src, es), es[i].dest)
    decreases |es|
  {
    assert EntrySound(t, t.owner[src], es[0]);
    LearnSound(t, src, tab, es[0]);
    var tab' := Learn(tab, src, es[0]);
    if i == 0 {
      ExactArrives(t, src, tab, es[0]);
      LearnAllKeeps(t, src, tab', es[1..], k, es[0].dest);
    } else {
      LearnAllGets(t, src, tab', es[1..], k, i - 1);
    }
  }

  /** A response that is exact up to k - 1 hops leaves every route up to k hops as it is. */
  lemma NodeStays(t: Topology, src: IP, tab: Table, es: seq<RipEntry>, k: int)
    requires TopologyOk(t) && src in t.owner && TableSound(t, t.owner[t.peer[src]], tab)
    requires EntriesSound(t, t.owner[src], es) && EntriesExact(t, t.owner[src], es, k - 1)
    requires NodeExact(t, t.owner[t.peer[src]], tab, k)
    ensures NodeExact(t, t.owner[t.peer[src]], LearnAll(tab, src, es), k)
    ensures forall d :: Within(t, t.owner[t.peer[src]], d, k) ==>
              d in tab && d in LearnAll(tab, src, es) && LearnAll(tab, src, es)[d] == tab[d]
  {
    var u := t.owner[t.peer[src]];
    forall d | Within(t, u, d, k) ensures d in tab && d in LearnAll(tab, src, es) && LearnAll(tab, src, es)[d] == tab[d] {
      assert RouteExact(t, u, tab, d);
      ExactCost(t, u, d, tab[d].cost, k);
      LearnAllKeeps(t, src, tab, es, k - 1, d);
    }
  }

  /** Its triggered update says nothing about addresses within k hops. */
  lemma {:induction false} TriggeredExact(t: Topology, src: IP, tab: Table, es: seq<RipEntry>, k: int)
    requires TopologyOk(t) && src in t.owner && TableSound(t, t.owner[t.peer[src]], tab)
    requires EntriesSound(t, t.owner[src], es) && EntriesExact(t, t.owner[src], es, k - 1)
    requires NodeExact(t, t.owner[t.peer[src]], tab, k)
    ensures EntriesExact(t, t.owner[t.peer[src]], Updated(tab, src, es), k)
    decreases |es|
  {
    if es != [] {
      var u := t.owner[t.peer[src]];
      assert EntrySound(t, t.owner[src], es[0]) && EntryExact(t, t.owner[src], es[0], k - 1);
      LearnSound(t, src, tab, es[0]);
      assert LearnAll(tab, src, [es[0]]) == Learn(tab, src, es[0]);
      NodeStays(t, src, tab, [es[0]], k);
      TriggeredExact(t, src, Learn(tab, src, es[0]), es[1..], k);
    }
  }

  lemma AdvertExact(t: Topology, u: Node, tab: Table, es: seq<RipEntry>, neighbor: IP, k: int)
    requires TopologyOk(t) && NodeExact(t, u, tab, k) && IsAdvert(es, tab, neighbor)
    ensures EntriesExact(t, u, es, k)
  {
    forall i | 0 <= i < |es| ensures EntryExact(t, u, es[i], k) {
      if Within(t, u, es[i].dest, k) { assert RouteExact(t, u, tab, es[i].dest); }
    }
  }

  lemma Weaken(t: Topology, v: Node, es: seq<RipEntry>, k: int)
    requires TopologyOk(t) && EntriesExact(t, v, es, k)
    ensures EntriesExact(t, v, es, k - 1)
  {
    forall i | 0 <= i < |es| ensures EntryExact(t, v, es[i], k - 1) {
      assert EntryExact(t, v, es[i], k);
      if Within(t, v, es[i].dest, k - 1) { WithinMonotone(t, v, es[i].dest, k - 1, k); }
    }
  }

  // ----- the flush phase: everything sent before it leaves the wire -----------------------------

  ghost predicate TablesExact(t: Topology, s: RipState, k: int)
    requires TopologyOk(t)
  {
    && (forall a :: a in t.owner ==> t.owner[a] in s.tables)
    && (forall u :: u in s.tables ==> NodeExact(t, u, s.tables[u], k))
  }

  ghost predicate MsgExact(t: Topology, m: Msg, k: int)
    requires TopologyOk(t)
  {
    m.src in t.owner && EntriesExact(t, t.owner[m.src], m.entries, k)
  }

  ghost predicate WireExact(t: Topology, ms: multiset<Msg>, k: int)
    requires TopologyOk(t)
  {
    forall m :: m in ms ==> MsgExact(t, m, k)
  }

  /** Tables exact up to k hops; messages sent before the line up to k - 1, after it up to k. */
  ghost predicate Flushing(t: Topology, s: RipState, k: int)
    requires TopologyOk(t)
  {
    Sound(t, s) && TablesExact(t, s, k) && WireExact(t, s.earlier, k - 1) && WireExact(t, s.recent, k)
  }

  lemma FlushSend(t: Topology, s: RipState, m: Msg, k: int)
    requires TopologyOk(t) && Flushing(t, s, k) && RipEnabled(t, s, Send(m))
    ensures Flushing(t, RipNext(t, s, Send(m)), k)
  {
    SoundStep(t, s, Send(m));
    AdvertExact(t, t.owner[m.src], s.tables[t.owner[m.src]], m.entries, t.peer[m.src], k);
  }

  /** Node-level effect of a reception under either phase. */
  lemma ReceiveKeepsTables(t: Topology, s: RipState, m: Msg, o: bool, k: int)
    requires TopologyOk(t) && Sound(t, s) && TablesExact(t, s, k) && RipEnabled(t, s, Receive(m, o))
    requires EntriesExact(t, t.owner[m.src], m.entries, k - 1)
    ensures TablesExact(t, RipNext(t, s, Receive(m, o)), k)
    ensures forall q :: q in RipNext(t, s, Receive(m, o)).recent && q !in s.recent ==> MsgExact(t, q, k) && !q.full
  {
    var u := t.owner[t.peer[m.src]];
    assert MsgSound(t, m);
    NodeStays(t, m.src, s.tables[u], m.entries, k);
    ReceiveEmitsExact(t, s, m, o, k);
  }

  lemma ReceiveEmitsExact(t: Topology, s: RipState, m: Msg, o: bool, k: int)
    requires TopologyOk(t) && Sound(t, s) && TablesExact(t, s, k) && RipEnabled(t, s, Receive(m, o))
    requires MsgSound(t, m) && EntriesExact(t, t.owner[m.src], m.entries, k - 1)
    ensures forall q :: q in RipNext(t, s, Receive(m, o)).recent && q !in s.recent ==> MsgExact(t, q, k) && !q.full
  {
    var u := t.owner[t.peer[m.src]];
    TriggeredExact(t, m.src, s.tables[u], m.entries, k);
    var es := Updated(s.tables[u], m.src, m.entries);
    forall q | q in RipNext(t, s, Receive(m, o)).recent && q !in s.recent ensures MsgExact(t, q, k) && !q.full {
      assert q in Triggered(t, u, m.src, es);
    }
  }

  lemma FlushReceive(t: Topology, s: RipState, m: Msg, o: bool, k: int)
    requires TopologyOk(t) && Flushing(t, s, k) && RipEnabled(t, s, Receive(m, o))
    ensures Flushing(t, RipNext(t, s, Receive(m, o)), k)
  {
    SoundStep(t, s, Receive(m, o));
    if !o { assert MsgExact(t, m, k); Weaken(t, t.owner[m.src], m.entries, k); } else { assert MsgExact(t, m, k - 1); }
    ReceiveKeepsTables(t, s, m, o, k);
  }

  lemma FlushStep(t: Topology, s: RipState, act: RipAction, k: int)
    requires TopologyOk(t) && Flushing(t, s, k) && RipEnabled(t, s, act) && Quiet(act)
    ensures Flushing(t, RipNext(t, s, act), k)
  {
    match act {
      case Send(m) => FlushSend(t, s, m, k);
      case Receive(m, o) => FlushReceive(t, s, m, o, k);
      case Lose(_, _) => SoundStep(t, s, act);
      case Duplicate(_, _) => SoundStep(t, s, act);
    }
  }

  /** Nothing expires and no program ends. */
  predicate Quiet(act: RipAction)
  {
    !act.Expire? && !act.Exit?
  }

  predicate Calm(acts: seq<RipAction>)
  {
    forall i :: 0 <= i < |acts| ==> Quiet(acts[i])
  }

  lemma {:induction false} FlushRun(t: Topology, s: RipState, acts: seq<RipAction>, k: int)
    requires TopologyOk(t) && Flushing(t, s, k) && IsRipRun(t, s, acts) && Calm(acts)
    ensures Flushing(t, RipFinal(t, s, acts), k)
    decreases |acts|
  {
    if acts != [] {
      FlushStep(t, s, acts[0], k);
      FlushRun(t, RipNext(t, s, acts[0]), acts[1..], k);
    }
  }

  // ----- the hearing phase: over every link one fresh full response gets through --------------------

  /** A full response that leaves out nothing its reader could need. */
  ghost predicate Complete(t: Topology, m: Msg, k: int)
    requires TopologyOk(t) && m.src in t.owner
  {
    m.full ==> forall d :: Within(t, t.owner[m.src], d, k) && !Within(t, t.owner[t.peer[m.src]], d, k) ==>
      exists i :: 0 <= i < |m.entries| && m.entries[i].dest == d && AtDistance(t, t.owner[m.src], d, m.entries[i].cost)
  }

  ghost predicate WireComplete(t: Topology, ms: multiset<Msg>, k: int)
    requires TopologyOk(t)
  {
    forall m :: m in ms ==> m.src in t.owner && Complete(t, m, k)
  }

  /** The node across from interface a has exact routes to all that a's node has within k hops. */
  ghost predicate LearnedFrom(t: Topology, a: IP, tab: Table, k: int)
    requires TopologyOk(t) && a in t.owner
  {
    forall d :: Within(t, t.owner[a], d, k) ==> RouteExact(t, t.owner[t.peer[a]], tab, d)
  }

  ghost predicate Listening(t: Topology, s: RipState, k: int)
    requires TopologyOk(t)
  {
    && Sound(t, s) && TablesExact(t, s, k)
    && WireExact(t, s.earlier, k) && WireExact(t, s.recent, k) && WireComplete(t, s.recent, k)
  }

  ghost predicate HeardFrom(t: Topology, tables: map<Node, Table>, heard: set<IP>, k: int)
    requires TopologyOk(t)
  {
    forall a :: a in heard ==>
      a in t.owner && t.owner[t.peer[a]] in tables && LearnedFrom(t, a, tables[t.owner[t.peer[a]]], k)
  }

  /** Poisoned reverse does not get in the way: a route toward a farther neighbor is never poisoned. */
  lemma AdvertComplete(t: Topology, tab: Table, m: Msg, k: int)
    requires TopologyOk(t) && m.src in t.owner && TableSound(t, t.owner[m.src], tab)
    requires NodeExact(t, t.owner[m.src], tab, k) && IsAdvert(m.entries, tab, t.peer[m.src])
    ensures Complete(t, m, k)
  {
    var v := t.owner[m.src];
    forall d | Within(t, v, d, k) && !Within(t, t.owner[t.peer[m.src]], d, k)
      ensures exists i :: 0 <= i < |m.entries| && m.entries[i].dest == d && AtDistance(t, v, d, m.entries[i].cost)
    {
      assert RouteExact(t, v, tab, d) && RouteSound(t, v, d, tab[d]);
      ExactCost(t, v, d, tab[d].cost, k);
      var i :| 0 <= i < |m.entries| && m.entries[i].dest == d;
      if tab[d].next == t.peer[m.src] && tab[d].cost > 0 {
        WithinMonotone(t, t.owner[tab[d].next], d, tab[d].cost - 1, k);
        assert false;
      }
      assert m.entries[i].cost == tab[d].cost;
    }
  }

  lemma ListenSend(t: Topology, s: RipState, m: Msg, k: int)
    requires TopologyOk(t) && Listening(t, s, k) && RipEnabled(t, s, Send(m))
    ensures Listening(t, RipNext(t, s, Send(m)), k)
  {
    SoundStep(t, s, Send(m));
    var tab := s.tables[t.owner[m.src]];
    AdvertExact(t, t.owner[m.src], tab, m.entries, t.peer[m.src], k);
    AdvertComplete(t, tab, m, k);
  }

  lemma LearnedStays(t: Topology, a: IP, src: IP, tab: Table, es: seq<RipEntry>, k: int)
    requires TopologyOk(t) && src in t.owner && a in t.owner && t.owner[t.peer[a]] == t.owner[t.peer[src]] && k >= 0
    requires TableSound(t, t.owner[t.peer[src]], tab) && LearnedFrom(t, a, tab, k)
    requires EntriesSound(t, t.owner[src], es) && EntriesExact(t, t.owner[src], es, k)
    ensures LearnedFrom(t, a, LearnAll(tab, src, es), k)
  {
    var u := t.owner[t.peer[a]];
    forall d | Within(t, t.owner[a], d, k) ensures RouteExact(t, u, LearnAll(tab, src, es), d) {
      assert RouteExact(t, u, tab, d);
      WithinNeighbor(t, t.peer[a], d, k);
      ExactCost(t, u, d, tab[d].cost, k + 1);
      LearnAllKeeps(t, src, tab, es, k, d);
    }
  }

  /** A complete response makes its reader learn all of it. */
  lemma LearnedNow(t: Topology, m: Msg, tab: Table, k: int)
    requires TopologyOk(t) && m.src in t.owner && m.full && Complete(t, m, k) && 0 <= k < INFINITY - 1
    requires TableSound(t, t.owner[t.peer[m.src]], tab) && NodeExact(t, t.owner[t.peer[m.src]], LearnAll(tab, m.src, m.entries), k)
    requires EntriesSound(t, t.owner[m.src], m.entries) && EntriesExact(t, t.owner[m.src], m.entries, k)
    ensures LearnedFrom(t, m.src, LearnAll(tab, m.src, m.entries), k)
  {
    var v, u := t.owner[m.src], t.owner[t.peer[m.src]];
    forall d | Within(t, v, d, k) ensures RouteExact(t, u, LearnAll(tab, m.src, m.entries), d) {
      if !Within(t, u, d, k) {
        var i :| 0 <= i < |m.entries| && m.entries[i].dest == d && AtDistance(t, v, d, m.entries[i].cost);
        var c := m.entries[i].cost;
        ExactCost(t, v, d, c, k);
        WithinNeighbor(t, t.peer[m.src], d, c);
        if Within(t, u, d, c) { WithinMonotone(t, u, d, c, k); assert false; }
        LearnAllGets(t, m.src, tab, m.entries, k, i);
      }
    }
  }

  lemma ListenReceive(t: Topology, s: RipState, m: Msg, o: bool, k: int)
    requires TopologyOk(t) && Listening(t, s, k) && RipEnabled(t, s, Receive(m, o))
    ensures Listening(t, RipNext(t, s, Receive(m, o)), k)
  {
    SoundStep(t, s, Receive(m, o));
    assert MsgExact(t, m, k);
    Weaken(t, t.owner[m.src], m.entries, k);
    ReceiveKeepsTables(t, s, m, o, k);
  }

  lemma ListenStep(t: Topology, s: RipState, act: RipAction, k: int)
    requires TopologyOk(t) && Listening(t, s, k) && RipEnabled(t, s, act) && Quiet(act)
    ensures Listening(t, RipNext(t, s, act), k)
  {
    match act {
      case Send(m) => ListenSend(t, s, m, k);
      case Receive(m, o) => ListenReceive(t, s, m, o, k);
      case Lose(_, _) => ListenWire(t, s, act, k);
      case Duplicate(_, _) => ListenWire(t, s, act, k);
    }
  }

  lemma ListenWire(t: Topology, s: RipState, act: RipAction, k: int)
    requires TopologyOk(t) && Listening(t, s, k) && RipEnabled(t, s, act) && (act.Lose? || act.Duplicate?)
    ensures Listening(t, RipNext(t, s, act), k)
  {
    SoundStep(t, s, act);
    NoNewMessage(t, s, act);
  }

  lemma NoNewMessage(t: Topology, s: RipState, act: RipAction)
    requires TopologyOk(t) && RipEnabled(t, s, act) && (act.Lose? || act.Duplicate?)
    ensures RipNext(t, s, act).tables == s.tables
    ensures forall m :: m in RipNext(t, s, act).earlier ==> m in s.earlier
    ensures forall m :: m in RipNext(t, s, act).recent ==> m in s.recent
  {
    SameMembers(s.earlier, act.m);
    SameMembers(s.recent, act.m);
  }

  lemma SameMembers(ms: multiset<Msg>, m: Msg)
    ensures forall q :: q in ms - multiset{m} ==> q in ms
    ensures m in ms ==> forall q :: q in ms + multiset{m} ==> q in ms
  {
  }

  /** The interface whose fresh full response is received by this step. */
  function HeardNow(act: RipAction): set<IP>
  {
    if act.Receive? && !act.fromOld && act.m.full then {act.m.src} else {}
  }

  function HeardBy(acts: seq<RipAction>): set<IP>
  {
    if acts == [] then {} else HeardNow(acts[0]) + HeardBy(acts[1..])
  }

  lemma HearOne(t: Topology, s: RipState, a: IP, m: Msg, o: bool, k: int)
    requires TopologyOk(t) && Listening(t, s, k) && RipEnabled(t, s, Receive(m, o)) && 0 <= k < INFINITY - 1
    requires a in t.owner && t.owner[t.peer[a]] == t.owner[t.peer[m.src]]
    requires LearnedFrom(t, a, s.tables[t.owner[t.peer[a]]], k) || (a == m.src && !o && m.full)
    ensures LearnedFrom(t, a, LearnAll(s.tables[t.owner[t.peer[a]]], m.src, m.entries), k)
  {
    var u := t.owner[t.peer[m.src]];
    assert MsgSound(t, m) && MsgExact(t, m, k);
    if LearnedFrom(t, a, s.tables[u], k) {
      LearnedStays(t, a, m.src, s.tables[u], m.entries, k);
    } else {
      Weaken(t, t.owner[m.src], m.entries, k);
      NodeStays(t, m.src, s.tables[u], m.entries, k);
      LearnedNow(t, m, s.tables[u], k);
    }
  }

  lemma HearStep(t: Topology, s: RipState, heard: set<IP>, act: RipAction, k: int)
    requires TopologyOk(t) && Listening(t, s, k) && HeardFrom(t, s.tables, heard, k)
    requires RipEnabled(t, s, act) && Quiet(act) && 0 <= k < INFINITY - 1
    ensures HeardFrom(t, RipNext(t, s, act).tables, heard + HeardNow(act), k)
  {
    if act.Receive? {
      forall a | a in heard + HeardNow(act)
        ensures a in t.owner && t.owner[t.peer[a]] in RipNext(t, s, act).tables
                && LearnedFrom(t, a, RipNext(t, s, act).tables[t.owner[t.peer[a]]], k)
      {
        HearAt(t, s, heard, act.m, act.fromOld, k, a);
      }
    }
  }

  lemma HearAt(t: Topology, s: RipState, heard: set<IP>, m: Msg, o: bool, k: int, a: IP)
    requires TopologyOk(t) && Listening(t, s, k) && HeardFrom(t, s.tables, heard, k)
    requires RipEnabled(t, s, Receive(m, o)) && 0 <= k < INFINITY - 1 && a in heard + HeardNow(Receive(m, o))
    ensures a in t.owner && t.owner[t.peer[a]] in RipNext(t, s, Receive(m, o)).tables
    ensures LearnedFrom(t, a, RipNext(t, s, Receive(m, o)).tables[t.owner[t.peer[a]]], k)
  {
    if t.owner[t.peer[a]] == t.owner[t.peer[m.src]] { HearOne(t, s, a, m, o, k); }
  }

  lemma {:induction false} ListenRun(t: Topology, s: RipState, acts: seq<RipAction>, k: int)
    requires TopologyOk(t) && Listening(t, s, k) && IsRipRun(t, s, acts) && Calm(acts)
    ensures Listening(t, RipFinal(t, s, acts), k)
    decreases |acts|
  {
    if acts != [] {
      ListenStep(t, s, acts[0], k);
      ListenRun(t, RipNext(t, s, acts[0]), acts[1..], k);
    }
  }

  lemma {:induction false} HearRun(t: Topology, s: RipState, heard: set<IP>, acts: seq<RipAction>, all: set<IP>, k: int)
    requires TopologyOk(t) && Listening(t, s, k) && HeardFrom(t, s.tables, heard, k)
    requires IsRipRun(t, s, acts) && Calm(acts) && 0 <= k < INFINITY - 1
    requires all <= heard + HeardBy(acts)
    ensures HeardFrom(t, RipFinal(t, s, acts).tables, all, k)
    decreases |acts|
  {
    if acts != [] {
      ListenStep(t, s, acts[0], k);
      HearStep(t, s, heard, acts[0], k);
      HearRun(t, RipNext(t, s, acts[0]), heard + HeardNow(acts[0]), acts[1..], all, k);
    }
  }

  // ----- rounds -----------------------------------------------------------------------------------

  /** Draw the line here: everything on the wire now counts as sent earlier. */
  function Mark(s: RipState): RipState
  {
    RipState(s.tables, s.earlier + s.recent, multiset{})
  }

  /** Between rounds. */
  ghost predicate Settled(t: Topology, s: RipState, k: int)
    requires TopologyOk(t)
  {
    Sound(t, s) && TablesExact(t, s, k) && WireExact(t, s.earlier, k - 1) && WireExact(t, s.recent, k - 1)
  }

  datatype RoundActs = RoundActs(flush: seq<RipAction>, hear: seq<RipAction>)

  /** A round: first all messages of earlier rounds leave the wire, received or lost; then over every
      link, in both directions, at least one fresh full response is received. Anything else may be
      interleaved, except expiry and exits. */
  ghost predicate IsRound(t: Topology, s: RipState, r: RoundActs)
    requires TopologyOk(t)
  {
    && Calm(r.flush) && IsRipRun(t, Mark(s), r.flush) && RipFinal(t, Mark(s), r.flush).earlier == multiset{}
    && var s1 := Mark(RipFinal(t, Mark(s), r.flush));
       Calm(r.hear) && IsRipRun(t, s1, r.hear) && t.owner.Keys <= HeardBy(r.hear)
  }

  ghost function AfterRound(t: Topology, s: RipState, r: RoundActs): RipState
    requires TopologyOk(t) && IsRound(t, s, r)
  {
    RipFinal(t, Mark(RipFinal(t, Mark(s), r.flush)), r.hear)
  }

  lemma MarkFlushing(t: Topology, s: RipState, k: int)
    requires TopologyOk(t) && Settled(t, s, k)
    ensures Flushing(t, Mark(s), k)
  {
  }

  lemma WeakenWire(t: Topology, ms: multiset<Msg>, k: int)
    requires TopologyOk(t) && WireExact(t, ms, k)
    ensures WireExact(t, ms, k - 1)
  {
    forall m | m in ms ensures MsgExact(t, m, k - 1) {
      assert MsgExact(t, m, k);
      Weaken(t, t.owner[m.src], m.entries, k);
    }
  }

  lemma RoundAdvances(t: Topology, s: RipState, r: RoundActs, k: int)
    requires TopologyOk(t) && Settled(t, s, k) && IsRound(t, s, r) && 0 <= k < INFINITY - 1
    ensures Settled(t, AfterRound(t, s, r), k + 1)
  {
    var s1 := RipFinal(t, Mark(s), r.flush);
    var s2 := RipFinal(t, Mark(s1), r.hear);
    MarkFlushing(t, s, k);
    FlushRun(t, Mark(s), r.flush, k);
    assert Listening(t, Mark(s1), k);
    ListenRun(t, Mark(s1), r.hear, k);
    HearRun(t, Mark(s1), {}, r.hear, t.owner.Keys, k);
  }

  /** Once routes are exact up to 15 hops, rounds and anything else without expiry keep them so. */
  lemma RoundKeeps(t: Topology, s: RipState, r: RoundActs, k: int)
    requires TopologyOk(t) && Settled(t, s, k) && IsRound(t, s, r)
    ensures Settled(t, AfterRound(t, s, r), k)
  {
    CalmKeeps(t, s, r.flush, k);
    CalmKeeps(t, RipFinal(t, Mark(s), r.flush), r.hear, k);
  }

  lemma CalmKeeps(t: Topology, s: RipState, acts: seq<RipAction>, k: int)
    requires TopologyOk(t) && Settled(t, s, k) && IsRipRun(t, Mark(s), acts) && Calm(acts)
    ensures Settled(t, RipFinal(t, Mark(s), acts), k)
  {
    MarkFlushing(t, s, k);
    FlushRun(t, Mark(s), acts, k);
    WeakenWire(t, RipFinal(t, Mark(s), acts).recent, k);
  }

  ghost predicate AreRounds(t: Topology, s: RipState, rs: seq<RoundActs>)
    requires TopologyOk(t)
    decreases |rs|
  {
    rs == [] || (IsRound(t, s, rs[0]) && AreRounds(t, AfterRound(t, s, rs[0]), rs[1..]))
  }

  ghost function AfterRounds(t: Topology, s: RipState, rs: seq<RoundActs>): RipState
    requires TopologyOk(t) && AreRounds(t, s, rs)
    decreases |rs|
  {
    if rs == [] then s else AfterRounds(t, AfterRound(t, s, rs[0]), rs[1..])
  }

  function Cap(k: int): int
  {
    if k < INFINITY - 1 then k else INFINITY - 1
  }

  lemma RoundSettles(t: Topology, s: RipState, r: RoundActs, k: int)
    requires TopologyOk(t) && 0 <= k && Settled(t, s, Cap(k)) && IsRound(t, s, r)
    ensures Settled(t, AfterRound(t, s, r), Cap(k + 1))
  {
    if k < INFINITY - 1 { RoundAdvances(t, s, r, k); } else { RoundKeeps(t, s, r, INFINITY - 1); }
  }

  lemma {:induction false} RoundsSettle(t: Topology, s: RipState, rs: seq<RoundActs>, k: int, n: int)
    requires TopologyOk(t) && 0 <= k && Settled(t, s, Cap(k)) && AreRounds(t, s, rs) && n == k + |rs|
    ensures Settled(t, AfterRounds(t, s, rs), Cap(n))
    decreases |rs|
  {
    if rs != [] {
      RoundSettles(t, s, rs[0], k);
      RoundsSettle(t, AfterRound(t, s, rs[0]), rs[1..], k + 1, n);
    }
  }

  lemma InitialSettled(t: Topology, s: RipState)
    requires TopologyOk(t) && Initial(t, s)
    ensures Settled(t, s, 0)
  {
    InitialSound(t, s);
    forall u | u in s.tables ensures NodeExact(t, u, s.tables[u], 0) {
      assert InitialTable(t, u, s.tables[u]);
    }
  }

  /** A table that is right up to k hops: exact costs, next hops one hop nearer, nothing too cheap. */
  ghost predicate RightUpTo(t: Topology, u: Node, tab: Table, k: int)
    requires TopologyOk(t)
  {
    && TableSound(t, u, tab)
    && forall d :: Within(t, u, d, k) ==>
         && RouteExact(t, u, tab, d)
         && (tab[d].cost > 0 ==> tab[d].next in t.owner && AtDistance(t, t.owner[tab[d].next], d, tab[d].cost - 1))
  }

  lemma ExactIsRight(t: Topology, u: Node, tab: Table, k: int)
    requires TopologyOk(t) && TableSound(t, u, tab) && NodeExact(t, u, tab, k)
    ensures RightUpTo(t, u, tab, k)
    ensures k == INFINITY - 1 ==> forall d :: d in tab <==> Within(t, u, d, INFINITY - 1)
  {
    forall d | d in tab ensures Within(t, u, d, INFINITY - 1) {
      assert RouteSound(t, u, d, tab[d]);
      WithinMonotone(t, u, d, tab[d].cost, INFINITY - 1);
    }
    forall d | Within(t, u, d, k) && d in tab && tab[d].cost > 0
      ensures tab[d].next in t.owner && AtDistance(t, t.owner[tab[d].next], d, tab[d].cost - 1)
    {
      assert RouteExact(t, u, tab, d);
    }
  }

  /** Convergence. After n rounds from the initial tables a node has, for every address within
      min(n, 15) hops, an entry whose cost is the hop distance and whose next hop is one hop nearer;
      every entry it has costs at least the distance; and after 15 rounds it has entries for exactly
      the addresses within 15 hops. */
  lemma RipConverges(t: Topology, s: RipState, rs: seq<RoundActs>, u: Node)
    requires TopologyOk(t) && Initial(t, s) && AreRounds(t, s, rs) && u in AfterRounds(t, s, rs).tables
    ensures RightUpTo(t, u, AfterRounds(t, s, rs).tables[u], Cap(|rs|))
    ensures |rs| >= INFINITY - 1 ==>
              forall d :: d in AfterRounds(t, s, rs).tables[u] <==> Within(t, u, d, INFINITY - 1)
  {
    InitialSettled(t, s);
    RoundsSettle(t, s, rs, 0, |rs|);
    ExactIsRight(t, u, AfterRounds(t, s, rs).tables[u], Cap(|rs|));
  }

  // ----- a converged network does not change any more ------------------------------------------------

  lemma ConvergedNodeStays(t: Topology, src: IP, tab: Table, es: seq<RipEntry>)
    requires TopologyOk(t) && src in t.owner && TableSound(t, t.owner[t.peer[src]], tab)
    requires EntriesSound(t, t.owner[src], es) && EntriesExact(t, t.owner[src], es, INFINITY - 2)
    requires NodeExact(t, t.owner[t.peer[src]], tab, INFINITY - 1)
    ensures LearnAll(tab, src, es) == tab
  {
    var u := t.owner[t.peer[src]];
    var tab' := LearnAll(tab, src, es);
    NodeStays(t, src, tab, es, INFINITY - 1);
    LearnAllSound(t, src, tab, es);
    forall d | d in tab || d in tab' ensures Within(t, u, d, INFINITY - 1) {
      var c := if d in tab then tab[d].cost else tab'[d].cost;
      WithinMonotone(t, u, d, c, INFINITY - 1);
    }
  }

  lemma ConvergedStep(t: Topology, s: RipState, act: RipAction)
    requires TopologyOk(t) && Flushing(t, s, INFINITY - 1) && RipEnabled(t, s, act) && Quiet(act)
    ensures RipNext(t, s, act).tables == s.tables
  {
    if act.Receive? {
      var m := act.m;
      var u := t.owner[t.peer[m.src]];
      ConvergedMessage(t, s, m, act.fromOld);
      ConvergedNodeStays(t, m.src, s.tables[u], m.entries);
    } else {
      OtherTables(t, s, act);
    }
  }

  lemma OtherTables(t: Topology, s: RipState, act: RipAction)
    requires TopologyOk(t) && RipEnabled(t, s, act) && Quiet(act) && !act.Receive?
    ensures RipNext(t, s, act).tables == s.tables
  {
  }

  lemma ConvergedMessage(t: Topology, s: RipState, m: Msg, o: bool)
    requires TopologyOk(t) && Flushing(t, s, INFINITY - 1) && OnWire(s, m, o)
    ensures MsgSound(t, m) && EntriesExact(t, t.owner[m.src], m.entries, INFINITY - 2)
  {
    if o {
      assert MsgExact(t, m, INFINITY - 2);
    } else {
      assert MsgExact(t, m, INFINITY - 1);
      Weaken(t, t.owner[m.src], m.entries, INFINITY - 1);
    }
  }

  /** Once exact up to 15 hops, no run without expiry changes any cost or any next hop. */
  lemma {:induction false} ConvergedRunStays(t: Topology, s: RipState, acts: seq<RipAction>)
    requires TopologyOk(t) && Flushing(t, s, INFINITY - 1) && IsRipRun(t, s, acts) && Calm(acts)
    ensures RipFinal(t, s, acts).tables == s.tables
    decreases |acts|
  {
    if acts != [] {
      ConvergedStep(t, s, acts[0]);
      FlushStep(t, s, acts[0], INFINITY - 1);
      ConvergedRunStays(t, RipNext(t, s, acts[0]), acts[1..]);
    }
  }

  lemma StableAfterRounds(t: Topology, s: RipState, rs: seq<RoundActs>, acts: seq<RipAction>)
    requires TopologyOk(t) && Initial(t, s) && AreRounds(t, s, rs) && |rs| >= INFINITY - 1
    requires IsRipRun(t, Mark(AfterRounds(t, s, rs)), acts) && Calm(acts)
    ensures RipFinal(t, Mark(AfterRounds(t, s, rs)), acts).tables == AfterRounds(t, s, rs).tables
  {
    InitialSettled(t, s);
    RoundsSettle(t, s, rs, 0, |rs|);
    MarkFlushing(t, AfterRounds(t, s, rs), INFINITY - 1);
    ConvergedRunStays(t, Mark(AfterRounds(t, s, rs)), acts);
  }
}
