/** Triggered updates run ahead of the rounds: exactly when "after k rounds exactly the addresses within k hops"
    holds of the code. */
module RipAhead {
  import opened TcpTypes
  import opened RipTable
  import opened RipNetwork
  import opened RipConvergence
  import opened RipLockstep
  import opened RipLimits

  // ----- what a response brings and what it triggers ------------------------------------------

  predicate Names(es: seq<RipEntry>, d: IP, bound: int)
  {
    exists i :: 0 <= i < |es| && es[i].dest == d && es[i].cost < bound
  }

  predicate CostsOk(es: seq<RipEntry>)
  {
    forall i :: 0 <= i < |es| ==> es[i].cost <= INFINITY
  }

  lemma {:induction false} LearnAllKeepsEntry(tab: Table, src: IP, es: seq<RipEntry>, d: IP)
    requires d in tab
    ensures d in LearnAll(tab, src, es)
    decreases |es|
  {
    if es != [] { LearnAllKeepsEntry(Learn(tab, src, es[0]), src, es[1..], d); }
  }

  lemma {:induction false} NamedIsLearned(tab: Table, src: IP, es: seq<RipEntry>, d: IP, bound: int)
    requires CostsOk(es) && Names(es, d, bound) && bound < INFINITY
    ensures d in LearnAll(tab, src, es)
    decreases |es|
  {
    var i :| 0 <= i < |es| && es[i].dest == d && es[i].cost < bound;
    var tab' := Learn(tab, src, es[0]);
    if i == 0 {
      assert d in tab';
      LearnAllKeepsEntry(tab', src, es[1..], d);
    } else {
      assert es[1..][i - 1] == es[i];
      NamedIsLearned(tab', src, es[1..], d, bound);
    }
  }

  /** The table's route to d, if it has one, is dearer than what may come. */
  predicate Dearer(tab: Table, d: IP, bound: int)
  {
    d in tab ==> tab[d].cost > bound
  }

  /** An address that is news is passed on, one dearer. */
  lemma {:induction false} NewsIsPassedOn(tab: Table, src: IP, es: seq<RipEntry>, d: IP, bound: int)
    requires CostsOk(es) && Names(es, d, bound) && bound < INFINITY && Dearer(tab, d, bound)
    ensures Names(Updated(tab, src, es), d, bound + 1)
    decreases |es|
  {
    var tab' := Learn(tab, src, es[0]);
    var first, rest := UpdatedBy(tab, src, es[0]), Updated(tab', src, es[1..]);
    if es[0].dest == d && es[0].cost < bound {
      assert (first + rest)[0] == es[0].(cost := NewCost(es[0]));
    } else {
      var i :| 0 <= i < |es| && es[i].dest == d && es[i].cost < bound;
      assert es[1..][i - 1] == es[i];
      NewsIsPassedOn(tab', src, es[1..], d, bound);
      var j :| 0 <= j < |rest| && rest[j].dest == d && rest[j].cost < bound + 1;
      assert (first + rest)[|first| + j] == rest[j];
    }
  }

  // ----- a cascade of triggered updates ---------------------------------------------------------

  /** Nodes more than j hops from d have not heard of it. */
  ghost predicate Unheard(t: Topology, tables: map<Node, Table>, d: IP, j: int)
    requires TopologyOk(t)
  {
    forall v {:trigger Within(t, v, d, j)} :: v in tables && !Within(t, v, d, j) ==> d !in tables[v]
  }

  /** A triggered update with these entries is on its way from u to every neighbor more than j hops from d. */
  ghost predicate ToldFarther(t: Topology, wire: multiset<Msg>, u: Node, d: IP, j: int, es: seq<RipEntry>)
    requires TopologyOk(t)
  {
    forall b {:trigger Msg(b, es, false)} ::
      b in t.owner && t.owner[b] == u && !Within(t, t.owner[t.peer[b]], d, j) ==> Msg(b, es, false) in wire
  }

  /** Node u has d in its table and is telling all its neighbors that are farther from d. */
  ghost predicate Telling(t: Topology, f: RipState, u: Node, d: IP, j: int, es: seq<RipEntry>)
    requires TopologyOk(t)
  {
    && Sound(t, f) && AllUp(t, f.tables) && Unheard(t, f.tables, d, j) && u in f.tables && d in f.tables[u]
    && Names(es, d, j + 1) && |es| <= MAX_ENTRIES && ToldFarther(t, f.recent, u, d, j, es)
  }

  /** A message that names d reaches a node j hops from d for the first time. */
  lemma TellOn(t: Topology, s: RipState, m: Msg, u: Node, d: IP, j: int) returns (f: RipState, es: seq<RipEntry>)
    requires TopologyOk(t) && Sound(t, s) && AllUp(t, s.tables)
    requires RipEnabled(t, s, Receive(m, false)) && u == t.owner[t.peer[m.src]]
    requires 1 <= j < INFINITY && AtDistance(t, u, d, j) && Within(t, t.owner[m.src], d, j - 1)
    requires Names(m.entries, d, j) && Unheard(t, s.tables, d, j - 1)
    ensures f == RipNext(t, s, Receive(m, false)) && Telling(t, f, u, d, j, es)
  {
    var tab := s.tables[u];
    f := RipNext(t, s, Receive(m, false));
    es := Updated(tab, m.src, m.entries);
    assert MsgSound(t, m);
    NamedIsLearned(tab, m.src, m.entries, d, j);
    NewsIsPassedOn(tab, m.src, m.entries, d, j);
    UpdatedLength(tab, m.src, m.entries);
    SoundStep(t, s, Receive(m, false));
    UnheardOn(t, s.tables, u, LearnAll(tab, m.src, m.entries), d, j);
    WithinMonotone(t, t.owner[m.src], d, j - 1, j);
    TriggeredToAll(t, s, m, u, d, j, es, f);
  }

  lemma UnheardOn(t: Topology, tables: map<Node, Table>, u: Node, tab: Table, d: IP, j: int)
    requires TopologyOk(t) && Unheard(t, tables, d, j - 1) && Within(t, u, d, j)
    ensures Unheard(t, tables[u := tab], d, j)
  {
    forall v | v in tables[u := tab] && !Within(t, v, d, j) ensures d !in tables[u := tab][v] {
      if Within(t, v, d, j - 1) { WithinMonotone(t, v, d, j - 1, j); }
    }
  }

  lemma TriggeredToAll(t: Topology, s: RipState, m: Msg, u: Node, d: IP, j: int, es: seq<RipEntry>, f: RipState)
    requires TopologyOk(t) && RipEnabled(t, s, Receive(m, false))
    requires u == t.owner[t.peer[m.src]] && Within(t, t.owner[m.src], d, j)
    requires es == Updated(s.tables[u], m.src, m.entries) && f == RipNext(t, s, Receive(m, false))
    ensures ToldFarther(t, f.recent, u, d, j, es)
  {
    forall b | b in t.owner && t.owner[b] == u && !Within(t, t.owner[t.peer[b]], d, j)
      ensures Msg(b, es, false) in f.recent
    {
      assert t.peer[b] != m.src;
      assert Msg(b, es, false) in Triggered(t, u, m.src, es);
    }
  }

  /** The first response of d's own node names d at no cost. */
  lemma OwnResponse(t: Topology, tab: Table, b: IP, es: seq<RipEntry>, d: IP)
    requires TopologyOk(t) && b in t.owner && d in t.owner && t.owner[d] == t.owner[b] && InitialTable(t, t.owner[b], tab)
    requires IsAdvert(es, tab, t.peer[b])
    ensures Names(es, d, 1)
  {
    assert d in tab && tab[d] == Route(d, 0) && d != t.peer[b];
    var i :| 0 <= i < |es| && es[i].dest == d;
  }

  /** d's own node sends a periodic update over b. */
  lemma OwnSends(t: Topology, s: RipState, b: IP, d: IP) returns (m: Msg, s1: RipState)
    requires TopologyOk(t) && Initial(t, s) && Narrow(t) && b in t.owner && d in t.owner && t.owner[d] == t.owner[b]
    ensures m.src == b && RipEnabled(t, s, Send(m)) && s1 == RipNext(t, s, Send(m))
    ensures RipEnabled(t, s1, Receive(m, false))
    ensures Sound(t, s1) && AllUp(t, s1.tables) && s1.tables == s.tables && Names(m.entries, d, 1)
  {
    var tab := s.tables[t.owner[b]];
    InitialSound(t, s);
    assert TableSound(t, t.owner[b], tab) && InitialTable(t, t.owner[b], tab);
    NarrowTable(t, t.owner[b], tab);
    var s' := s;
    m, s' := HearOneNow(t, s, b);
    OwnResponse(t, tab, b, m.entries, d);
    s1 := RipNext(t, s, Send(m));
    SoundStep(t, s, Send(m));
  }

  lemma FirstTold(t: Topology, s: RipState, b: IP, u: Node, d: IP)
    requires TopologyOk(t) && Initial(t, s) && Narrow(t) && b in t.owner && t.owner[t.peer[b]] == u
    requires AtDistance(t, t.owner[b], d, 0) && AtDistance(t, u, d, 1)
    ensures Carried(t, s, u, d, 1)
  {
    var m, s1 := OwnSends(t, s, b, d);
    var f, es := TellOn(t, s1, m, u, d, 1);
    var acts := TwoQuiet(t, s, Send(m), Receive(m, false));
    assert RunTells(t, s, acts, u, d, 1, es);
  }

  lemma TwoQuiet(t: Topology, s: RipState, x: RipAction, y: RipAction) returns (acts: seq<RipAction>)
    requires TopologyOk(t) && RipEnabled(t, s, x) && RipEnabled(t, RipNext(t, s, x), y) && Quiet(x) && Quiet(y)
    ensures IsRipRun(t, s, acts) && Calm(acts) && RipFinal(t, s, acts) == RipNext(t, RipNext(t, s, x), y)
  {
    TwoActs(t, s, x, y);
    acts := [x, y];
  }

  /** The news has reached u. */
  ghost predicate Told(t: Topology, f: RipState, u: Node, d: IP)
    requires TopologyOk(t)
  {
    Sound(t, f) && AllUp(t, f.tables) && u in f.tables && d in f.tables[u]
  }

  ghost predicate RunTells(t: Topology, s: RipState, acts: seq<RipAction>, v: Node, d: IP, i: int, es: seq<RipEntry>)
    requires TopologyOk(t)
  {
    IsRipRun(t, s, acts) && Calm(acts) && Telling(t, RipFinal(t, s, acts), v, d, i, es)
  }

  /** Some run from s has brought the news to node v, i hops from d. */
  ghost predicate Carried(t: Topology, s: RipState, v: Node, d: IP, i: int)
    requires TopologyOk(t)
  {
    exists acts, es :: RunTells(t, s, acts, v, d, i, es)
  }

  /** Triggered updates carry it one hop on. */
  lemma CarriedOn(t: Topology, s: RipState, b: IP, u: Node, d: IP, i: int)
    requires TopologyOk(t) && 0 < i < INFINITY - 1 && b in t.owner && t.owner[t.peer[b]] == u && AtDistance(t, u, d, i + 1)
    requires AtDistance(t, t.owner[b], d, i) && Carried(t, s, t.owner[b], d, i)
    ensures Carried(t, s, u, d, i + 1)
  {
    var acts, es :| RunTells(t, s, acts, t.owner[b], d, i, es);
    var f, es' := ToldOn(t, RipFinal(t, s, acts), b, u, d, i + 1, es);
    var all := QuietSnoc(t, s, acts, Receive(Msg(b, es, false), false));
    assert RunTells(t, s, all, u, d, i + 1, es');
  }

  /** d's neighbors can be told. */
  ghost predicate NeighborsTold(t: Topology, s: RipState, d: IP)
    requires TopologyOk(t)
  {
    forall u {:trigger Carried(t, s, u, d, 1)} :: AtDistance(t, u, d, 1) ==> Carried(t, s, u, d, 1)
  }

  lemma NeighborsAreTold(t: Topology, s: RipState, d: IP)
    requires TopologyOk(t) && Initial(t, s) && Narrow(t)
    ensures NeighborsTold(t, s, d)
  {
    forall u | AtDistance(t, u, d, 1) ensures Carried(t, s, u, d, 1) {
      var b := NearerNeighbor(t, u, d, 1);
      FirstTold(t, s, b, u, d);
    }
  }

  /** One periodic update of d's node, and triggered updates along a shortest path from then on. */
  lemma {:induction false} CarriedFar(t: Topology, s: RipState, u: Node, d: IP, j: int)
    requires TopologyOk(t) && NeighborsTold(t, s, d) && 1 <= j < INFINITY && AtDistance(t, u, d, j)
    ensures Carried(t, s, u, d, j)
    decreases j
  {
    if j == 1 {
      assert Carried(t, s, u, d, 1);
    } else {
      var b := NearerNeighbor(t, u, d, j);
      CarriedFar(t, s, t.owner[b], d, j - 1);
      CarriedOn(t, s, b, u, d, j - 1);
    }
  }

  lemma QuietSnoc(t: Topology, s: RipState, acts: seq<RipAction>, act: RipAction) returns (all: seq<RipAction>)
    requires TopologyOk(t) && IsRipRun(t, s, acts) && Calm(acts) && RipEnabled(t, RipFinal(t, s, acts), act) && Quiet(act)
    ensures IsRipRun(t, s, all) && Calm(all) && RipFinal(t, s, all) == RipNext(t, RipFinal(t, s, acts), act)
  {
    var f := RipFinal(t, s, acts);
    assert IsRipRun(t, RipNext(t, f, act), []) && RipFinal(t, RipNext(t, f, act), []) == RipNext(t, f, act);
    PrependRip(t, f, act, []);
    JoinRip(t, s, acts, [act] + []);
    all := acts + ([act] + []);
  }

  lemma Cascade(t: Topology, s: RipState, u: Node, d: IP, j: int) returns (acts: seq<RipAction>, f: RipState)
    requires TopologyOk(t) && Initial(t, s) && Narrow(t) && 1 <= j < INFINITY && AtDistance(t, u, d, j)
    ensures IsRipRun(t, s, acts) && Calm(acts) && f == RipFinal(t, s, acts) && Told(t, f, u, d)
  {
    NeighborsAreTold(t, s, d);
    CarriedFar(t, s, u, d, j);
    var es;
    acts, es :| RunTells(t, s, acts, u, d, j, es);
    f := RipFinal(t, s, acts);
  }

  lemma ToldOn(t: Topology, s: RipState, b: IP, u: Node, d: IP, j: int, es: seq<RipEntry>)
    returns (f: RipState, es': seq<RipEntry>)
    requires TopologyOk(t) && 1 < j < INFINITY && AtDistance(t, u, d, j) && b in t.owner && t.owner[t.peer[b]] == u
    requires AtDistance(t, t.owner[b], d, j - 1) && Telling(t, s, t.owner[b], d, j - 1, es)
    ensures RipEnabled(t, s, Receive(Msg(b, es, false), false))
    ensures f == RipNext(t, s, Receive(Msg(b, es, false), false)) && Telling(t, f, u, d, j, es')
  {
    assert Msg(b, es, false) in s.recent;
    f, es' := TellOn(t, s, Msg(b, es, false), u, d, j);
  }

  lemma NearerNeighbor(t: Topology, u: Node, d: IP, j: int) returns (b: IP)
    requires TopologyOk(t) && 1 <= j && AtDistance(t, u, d, j)
    ensures b in t.owner && t.owner[t.peer[b]] == u && AtDistance(t, t.owner[b], d, j - 1)
  {
    var a :| a in t.owner && t.owner[a] == u && Within(t, t.owner[t.peer[a]], d, j - 1);
    b := t.peer[a];
    if j > 1 && Within(t, t.owner[b], d, j - 2) { WithinNeighbor(t, a, d, j - 2); assert false; }
  }

  // ----- entries stay ---------------------------------------------------------------------------------

  lemma StepKeepsEntry(t: Topology, s: RipState, act: RipAction, u: Node, d: IP)
    requires TopologyOk(t) && RipEnabled(t, s, act) && Quiet(act) && u in s.tables && d in s.tables[u]
    ensures u in RipNext(t, s, act).tables && d in RipNext(t, s, act).tables[u]
  {
    if act.Receive? && t.owner[t.peer[act.m.src]] == u { LearnAllKeepsEntry(s.tables[u], act.m.src, act.m.entries, d); }
  }

  lemma {:induction false} RunKeepsEntry(t: Topology, s: RipState, acts: seq<RipAction>, u: Node, d: IP)
    requires TopologyOk(t) && IsRipRun(t, s, acts) && Calm(acts) && u in s.tables && d in s.tables[u]
    ensures u in RipFinal(t, s, acts).tables && d in RipFinal(t, s, acts).tables[u]
    decreases |acts|
  {
    if acts != [] {
      StepKeepsEntry(t, s, acts[0], u, d);
      RunKeepsEntry(t, RipNext(t, s, acts[0]), acts[1..], u, d);
    }
  }

  lemma RoundKeepsEntry(t: Topology, s: RipState, r: RoundActs, u: Node, d: IP)
    requires TopologyOk(t) && IsRound(t, s, r) && u in s.tables && d in s.tables[u]
    ensures u in AfterRound(t, s, r).tables && d in AfterRound(t, s, r).tables[u]
  {
    RunKeepsEntry(t, Mark(s), r.flush, u, d);
    RunKeepsEntry(t, Mark(RipFinal(t, Mark(s), r.flush)), r.hear, u, d);
  }

  lemma {:induction false} RoundsKeepEntry(t: Topology, s: RipState, rs: seq<RoundActs>, u: Node, d: IP)
    requires TopologyOk(t) && AreRounds(t, s, rs) && u in s.tables && d in s.tables[u]
    ensures u in AfterRounds(t, s, rs).tables && d in AfterRounds(t, s, rs).tables[u]
    decreases |rs|
  {
    if rs != [] {
      RoundKeepsEntry(t, s, rs[0], u, d);
      RoundsKeepEntry(t, AfterRound(t, s, rs[0]), rs[1..], u, d);
    }
  }

  /** Whatever has happened since the start, the rest of a round can follow, and no entry gets lost in it. */
  lemma FinishRound(t: Topology, s: RipState, acts: seq<RipAction>, f: RipState, u: Node, d: IP) returns (r: RoundActs)
    requires TopologyOk(t) && Narrow(t) && s.earlier == multiset{} && s.recent == multiset{}
    requires IsRipRun(t, s, acts) && Calm(acts) && f == RipFinal(t, s, acts) && Told(t, f, u, d)
    ensures IsRound(t, s, r) && u in AfterRound(t, s, r).tables && d in AfterRound(t, s, r).tables[u]
  {
    var more := HearEverywhere(t, f);
    JoinRip(t, s, acts, more);
    HeardJoin(acts, more);
    RunKeepsEntry(t, f, more, u, d);
    CalmJoin(acts, more);
    r := RoundActs([], acts + more);
    WholeRound(t, s, r);
  }

  // ----- exactly when -------------------------------------------------------------------------------------

  ghost predicate SomeAt(t: Topology, k: int)
    requires TopologyOk(t)
  {
    exists u, d :: AtDistance(t, u, d, k)
  }

  /** After every k rounds, triggered updates included, every node has exact entries for exactly the addresses
      within k hops. */
  ghost predicate AlwaysExactly(t: Topology, s: RipState, k: int)
    requires TopologyOk(t)
  {
    forall rs :: AreRounds(t, s, rs) && |rs| == k ==> AllExactly(t, AfterRounds(t, s, rs).tables, k)
  }

  lemma RoundAhead(t: Topology, s: RipState, u: Node, d: IP, j: int) returns (r: RoundActs)
    requires TopologyOk(t) && Initial(t, s) && Narrow(t) && 1 <= j < INFINITY && AtDistance(t, u, d, j)
    ensures IsRound(t, s, r) && u in AfterRound(t, s, r).tables && d in AfterRound(t, s, r).tables[u]
  {
    var acts, f := Cascade(t, s, u, d, j);
    r := FinishRound(t, s, acts, f, u, d);
  }

  lemma RoundsAfter(t: Topology, s: RipState, r: RoundActs, u: Node, d: IP, k: int) returns (rs: seq<RoundActs>)
    requires TopologyOk(t) && Sound(t, s) && AllUp(t, s.tables) && Narrow(t) && 1 <= k && IsRound(t, s, r)
    requires u in AfterRound(t, s, r).tables && d in AfterRound(t, s, r).tables[u]
    ensures |rs| == k && AreRounds(t, s, rs) && u in AfterRounds(t, s, rs).tables && d in AfterRounds(t, s, rs).tables[u]
  {
    RoundStaysUp(t, s, r);
    var rest := RoundsFrom(t, AfterRound(t, s, r), k - 1);
    RoundsKeepEntry(t, AfterRound(t, s, r), rest, u, d);
    rs := [r] + rest;
    assert rs[1..] == rest;
  }

  /** An address j > k hops away from a node can be in its table after k rounds, and after the first already. */
  lemma EntriesRunAhead(t: Topology, s: RipState, u: Node, d: IP, j: int, k: int) returns (rs: seq<RoundActs>)
    requires TopologyOk(t) && Initial(t, s) && Narrow(t) && 1 <= k < j < INFINITY && AtDistance(t, u, d, j)
    ensures |rs| == k && AreRounds(t, s, rs) && !Within(t, u, d, k)
    ensures u in AfterRounds(t, s, rs).tables && d in AfterRounds(t, s, rs).tables[u]
  {
    var r := RoundAhead(t, s, u, d, j);
    InitialSound(t, s);
    rs := RoundsAfter(t, s, r, u, d, k);
    NotNearer(t, u, d, j, k);
  }

  lemma NotNearer(t: Topology, u: Node, d: IP, j: int, k: int)
    requires TopologyOk(t) && AtDistance(t, u, d, j) && 0 <= k < j
    ensures !Within(t, u, d, k)
  {
    if Within(t, u, d, k) { WithinMonotone(t, u, d, k, j - 1); }
  }

  /** Who is more than k hops away has someone k + 1 hops away on the path. */
  lemma {:induction false} SomeoneBetween(t: Topology, u: Node, d: IP, c: int, k: int)
    requires TopologyOk(t) && 0 <= k && Within(t, u, d, c) && !Within(t, u, d, k)
    ensures SomeAt(t, k + 1)
    decreases c
  {
    if c <= k {
      WithinMonotone(t, u, d, c, k);
    } else if Within(t, u, d, c - 1) {
      SomeoneBetween(t, u, d, c - 1, k);
    } else if c > k + 1 {
      var b := NearerNeighbor(t, u, d, c);
      if Within(t, t.owner[b], d, k) {
        WithinNeighbor(t, t.peer[b], d, k);
        WithinMonotone(t, u, d, k + 1, c - 1);
      }
      SomeoneBetween(t, t.owner[b], d, c - 1, k);
    } else {
      assert AtDistance(t, u, d, k + 1);
    }
  }

  lemma OnlyWithinUnless(t: Topology, u: Node, tab: Table, k: int)
    requires TopologyOk(t) && 0 <= k && TableSound(t, u, tab) && !SomeAt(t, k + 1)
    ensures OnlyWithin(t, u, tab, k)
  {
    forall d | d in tab ensures Within(t, u, d, k) {
      assert RouteSound(t, u, d, tab[d]);
      if !Within(t, u, d, k) { SomeoneBetween(t, u, d, tab[d].cost, k); }
    }
  }

  lemma ExactlyUnless(t: Topology, s: RipState, rs: seq<RoundActs>, k: int)
    requires TopologyOk(t) && Initial(t, s) && AreRounds(t, s, rs) && |rs| == k < INFINITY - 1 && !SomeAt(t, k + 1)
    ensures AllExactly(t, AfterRounds(t, s, rs).tables, k)
  {
    var f := AfterRounds(t, s, rs);
    InitialSettled(t, s);
    RoundsSettle(t, s, rs, 0, k);
    forall u | u in f.tables ensures ExactlyWithin(t, u, f.tables[u], k) { OnlyWithinUnless(t, u, f.tables[u], k); }
  }

  /** For 1 <= k < 15: after every k rounds of the code's RIP every node has entries for exactly the addresses within
      k hops if and only if no address is k + 1 hops from any node. */
  lemma AlwaysExactlyIff(t: Topology, s: RipState, k: int)
    requires TopologyOk(t) && Initial(t, s) && Narrow(t) && 1 <= k < INFINITY - 1
    ensures AlwaysExactly(t, s, k) <==> !SomeAt(t, k + 1)
  {
    if SomeAt(t, k + 1) {
      SomeAtRunsAhead(t, s, k);
    } else {
      forall rs | AreRounds(t, s, rs) && |rs| == k ensures AllExactly(t, AfterRounds(t, s, rs).tables, k) {
        ExactlyUnless(t, s, rs, k);
      }
    }
  }

  lemma SomeAtRunsAhead(t: Topology, s: RipState, k: int)
    requires TopologyOk(t) && Initial(t, s) && Narrow(t) && 1 <= k < INFINITY - 1 && SomeAt(t, k + 1)
    ensures !AlwaysExactly(t, s, k)
  {
    var u, d :| AtDistance(t, u, d, k + 1);
    RunsAheadAt(t, s, u, d, k);
  }

  lemma RunsAheadAt(t: Topology, s: RipState, u: Node, d: IP, k: int)
    requires TopologyOk(t) && Initial(t, s) && Narrow(t) && 1 <= k < INFINITY - 1 && AtDistance(t, u, d, k + 1)
    ensures !AlwaysExactly(t, s, k)
  {
    var rs := EntriesRunAhead(t, s, u, d, k + 1, k);
  }

  // ----- such a network ---------------------------------------------------------------------------

  /** Three nodes in a row, with the links 10-11 and 12-13. */
  function Row(): Topology
  {
    Topology(map a | a in ROW :: RowOwner(a), map a | a in ROW :: RowPeer(a))
  }

  const ROW: set<IP> := {10, 11, 12, 13}

  function RowOwner(a: IP): Node
  {
    if a < 11 then 0 else if a < 13 then 1 else 2
  }

  function RowPeer(a: IP): IP
  {
    if a == 10 then 11 else if a == 11 then 10 else if a == 12 then 13 else 12
  }

  lemma RowOk()
    ensures TopologyOk(Row())
  {
    var t := Row();
    assert t.owner.Keys == ROW && t.peer.Keys == ROW;
    forall a | a in t.peer ensures t.peer[a] in t.peer && t.peer[t.peer[a]] == a && t.owner[t.peer[a]] != t.owner[a] {
      assert a in ROW;
    }
  }

  lemma RowSize()
    ensures |Row().owner| == 4
  {
    assert Row().owner.Keys == ROW;
    assert |Row().owner| == |Row().owner.Keys|;
  }

  lemma RowDistance()
    requires TopologyOk(Row())
    ensures AtDistance(Row(), 2, 10, 2)
  {
    var t := Row();
    assert 10 in t.owner && 11 in t.owner && 13 in t.owner;
    assert Within(t, t.owner[t.peer[11]], 10, 0);
    assert Within(t, t.owner[t.peer[13]], 10, 1);
    forall a | a in t.owner && t.owner[a] == 2 ensures !Within(t, t.owner[t.peer[a]], 10, 0) {
      assert a == 13;
    }
  }

  /** There the address 10 is two hops from node 2, so the first round can leave it in that node's table. */
  lemma RowIsSuch()
    ensures TopologyOk(Row()) && Narrow(Row()) && SomeAt(Row(), 2)
  {
    RowOk();
    RowSize();
    SmallIsNarrow(Row());
    RowDistance();
  }
}
