/** Synchronous rounds of periodic updates alone, without triggered ones: here "within k hops" is not only
    covered but exact. */
module RipLockstep {
  import opened RipTable
  import opened RipNetwork
  import opened RipConvergence

  /** A response as its reader sees it. */
  datatype Update = Update(src: IP, entries: seq<RipEntry>)

  function Digest(tab: Table, inbox: seq<Update>): Table
    decreases |inbox|
  {
    if inbox == [] then tab else Digest(LearnAll(tab, inbox[0].src, inbox[0].entries), inbox[1..])
  }

  /** A full response of a neighbor of u, built from the tables at the beginning of the round. */
  ghost predicate FromNeighbor(t: Topology, tables: map<Node, Table>, u: Node, up: Update)
    requires TopologyOk(t)
  {
    && up.src in t.owner && t.owner[t.peer[up.src]] == u && t.owner[up.src] in tables
    && IsAdvert(up.entries, tables[t.owner[up.src]], t.peer[up.src]) && |up.entries| <= MAX_ENTRIES
  }

  /** u reads one response from each neighbor, in any order, and ends with tab'. */
  ghost predicate Reads(t: Topology, tables: map<Node, Table>, u: Node, inbox: seq<Update>, tab': Table)
    requires TopologyOk(t) && u in tables
  {
    && (forall i :: 0 <= i < |inbox| ==> FromNeighbor(t, tables, u, inbox[i]))
    && (forall a :: a in t.owner && t.owner[t.peer[a]] == u ==> exists i :: 0 <= i < |inbox| && inbox[i].src == a)
    && tab' == Digest(tables[u], inbox)
  }

  ghost predicate LockstepRound(t: Topology, tables: map<Node, Table>, tables': map<Node, Table>)
    requires TopologyOk(t)
  {
    && tables'.Keys == tables.Keys
    && (forall u :: u in tables ==> exists inbox :: Reads(t, tables, u, inbox, tables'[u]))
  }

  /** The table has an exact entry for each address within k hops, and no other entry. */
  ghost predicate ExactlyWithin(t: Topology, u: Node, tab: Table, k: int)
    requires TopologyOk(t)
  {
    TableSound(t, u, tab) && NodeExact(t, u, tab, k) && OnlyWithin(t, u, tab, k)
  }

  ghost predicate OnlyWithin(t: Topology, u: Node, tab: Table, k: int)
    requires TopologyOk(t)
  {
    forall d :: d in tab ==> Within(t, u, d, k)
  }

  ghost predicate AllExactly(t: Topology, tables: map<Node, Table>, k: int)
    requires TopologyOk(t)
  {
    forall u :: u in tables ==> ExactlyWithin(t, u, tables[u], k)
  }

  /** What is known of a neighbor's response when all tables are exact up to k hops. */
  lemma ResponseFacts(t: Topology, tables: map<Node, Table>, u: Node, up: Update, k: int)
    requires TopologyOk(t) && AllExactly(t, tables, k) && FromNeighbor(t, tables, u, up)
    ensures EntriesSound(t, t.owner[up.src], up.entries)
    ensures EntriesExact(t, t.owner[up.src], up.entries, k)
    ensures Complete(t, Msg(up.src, up.entries, true), k)
    ensures forall i :: 0 <= i < |up.entries| ==> Within(t, t.owner[up.src], up.entries[i].dest, k)
  {
    var v := t.owner[up.src];
    assert ExactlyWithin(t, v, tables[v], k);
    AdvertExact(t, v, tables[v], up.entries, t.peer[up.src], k);
    AdvertComplete(t, tables[v], Msg(up.src, up.entries, true), k);
  }

  lemma {:induction false} LearnAllOnlyWithin(t: Topology, src: IP, tab: Table, es: seq<RipEntry>, k: int)
    requires TopologyOk(t) && src in t.owner && k >= 0 && OnlyWithin(t, t.owner[t.peer[src]], tab, k + 1)
    requires forall i :: 0 <= i < |es| ==> Within(t, t.owner[src], es[i].dest, k)
    ensures OnlyWithin(t, t.owner[t.peer[src]], LearnAll(tab, src, es), k + 1)
    decreases |es|
  {
    if es != [] {
      WithinNeighbor(t, t.peer[src], es[0].dest, k);
      LearnAllOnlyWithin(t, src, Learn(tab, src, es[0]), es[1..], k);
    }
  }

  /** While u reads its inbox: nothing beyond k + 1 hops enters, nothing within k hops changes, and
      what was read has been learned. */
  ghost predicate Reading(t: Topology, u: Node, tab: Table, k: int)
    requires TopologyOk(t)
  {
    TableSound(t, u, tab) && NodeExact(t, u, tab, k) && OnlyWithin(t, u, tab, k + 1)
  }

  lemma ReadOne(t: Topology, tables: map<Node, Table>, u: Node, tab: Table, up: Update, k: int)
    requires TopologyOk(t) && AllExactly(t, tables, k) && FromNeighbor(t, tables, u, up) && 0 <= k < INFINITY - 1
    requires Reading(t, u, tab, k)
    ensures Reading(t, u, LearnAll(tab, up.src, up.entries), k)
    ensures LearnedFrom(t, up.src, LearnAll(tab, up.src, up.entries), k)
  {
    ResponseFacts(t, tables, u, up, k);
    LearnAllSound(t, up.src, tab, up.entries);
    Weaken(t, t.owner[up.src], up.entries, k);
    NodeStays(t, up.src, tab, up.entries, k);
    LearnAllOnlyWithin(t, up.src, tab, up.entries, k);
    LearnedNow(t, Msg(up.src, up.entries, true), tab, k);
  }

  lemma {:induction false} ReadAll(t: Topology, tables: map<Node, Table>, u: Node, tab: Table, inbox: seq<Update>, k: int)
    requires TopologyOk(t) && AllExactly(t, tables, k) && 0 <= k < INFINITY - 1 && Reading(t, u, tab, k)
    requires forall i :: 0 <= i < |inbox| ==> FromNeighbor(t, tables, u, inbox[i])
    ensures Reading(t, u, Digest(tab, inbox), k)
    decreases |inbox|
  {
    if inbox != [] {
      ReadOne(t, tables, u, tab, inbox[0], k);
      ReadAll(t, tables, u, LearnAll(tab, inbox[0].src, inbox[0].entries), inbox[1..], k);
    }
  }

  lemma {:induction false} LearnedStaysInDigest(t: Topology, tables: map<Node, Table>, u: Node, a: IP, tab: Table, inbox: seq<Update>, k: int)
    requires TopologyOk(t) && AllExactly(t, tables, k) && 0 <= k < INFINITY - 1 && Reading(t, u, tab, k)
    requires forall i :: 0 <= i < |inbox| ==> FromNeighbor(t, tables, u, inbox[i])
    requires a in t.owner && t.owner[t.peer[a]] == u
    requires LearnedFrom(t, a, tab, k) || exists i :: 0 <= i < |inbox| && inbox[i].src == a
    ensures LearnedFrom(t, a, Digest(tab, inbox), k)
    decreases |inbox|
  {
    if inbox != [] {
      var up := inbox[0];
      var tab' := LearnAll(tab, up.src, up.entries);
      ReadOne(t, tables, u, tab, up, k);
      if LearnedFrom(t, a, tab, k) {
        ResponseFacts(t, tables, u, up, k);
        LearnedStays(t, a, up.src, tab, up.entries, k);
      } else if up.src != a {
        var i :| 0 <= i < |inbox| && inbox[i].src == a;
        assert inbox[1..][i - 1].src == a;
      }
      LearnedStaysInDigest(t, tables, u, a, tab', inbox[1..], k);
    }
  }

  lemma NodeAdvances(t: Topology, tables: map<Node, Table>, u: Node, inbox: seq<Update>, k: int)
    requires TopologyOk(t) && AllExactly(t, tables, k) && 0 <= k < INFINITY - 1 && u in tables
    requires Reads(t, tables, u, inbox, Digest(tables[u], inbox))
    ensures ExactlyWithin(t, u, Digest(tables[u], inbox), k + 1)
  {
    var tab' := Digest(tables[u], inbox);
    assert ExactlyWithin(t, u, tables[u], k);
    assert OnlyWithin(t, u, tables[u], k + 1) by {
      forall d | d in tables[u] ensures Within(t, u, d, k + 1) { WithinMonotone(t, u, d, k, k + 1); }
    }
    ReadAll(t, tables, u, tables[u], inbox, k);
    forall d | Within(t, u, d, k + 1) ensures RouteExact(t, u, tab', d) {
      RouteAdvances(t, tables, u, inbox, k, d);
    }
  }

  lemma RouteAdvances(t: Topology, tables: map<Node, Table>, u: Node, inbox: seq<Update>, k: int, d: IP)
    requires TopologyOk(t) && AllExactly(t, tables, k) && 0 <= k < INFINITY - 1 && u in tables
    requires Reads(t, tables, u, inbox, Digest(tables[u], inbox))
    requires Reading(t, u, tables[u], k) && Reading(t, u, Digest(tables[u], inbox), k) && Within(t, u, d, k + 1)
    ensures RouteExact(t, u, Digest(tables[u], inbox), d)
  {
    if t.owner[d] == u {
      assert Within(t, u, d, k);
    } else {
      var a :| a in t.owner && t.owner[a] == u && Within(t, t.owner[t.peer[a]], d, k);
      LearnedStaysInDigest(t, tables, u, t.peer[a], tables[u], inbox, k);
    }
  }

  /** One synchronous round: exactly k hops become exactly k + 1. */
  lemma LockstepAdvances(t: Topology, tables: map<Node, Table>, tables': map<Node, Table>, k: int)
    requires TopologyOk(t) && AllExactly(t, tables, k) && LockstepRound(t, tables, tables') && 0 <= k < INFINITY - 1
    ensures AllExactly(t, tables', k + 1)
  {
    forall u | u in tables' ensures ExactlyWithin(t, u, tables'[u], k + 1) {
      var inbox :| Reads(t, tables, u, inbox, tables'[u]);
      NodeAdvances(t, tables, u, inbox, k);
    }
  }

  lemma {:induction false} DigestConverged(t: Topology, tables: map<Node, Table>, u: Node, inbox: seq<Update>)
    requires TopologyOk(t) && AllExactly(t, tables, INFINITY - 1) && u in tables
    requires forall i :: 0 <= i < |inbox| ==> FromNeighbor(t, tables, u, inbox[i])
    ensures Digest(tables[u], inbox) == tables[u]
    decreases |inbox|
  {
    if inbox != [] {
      var up := inbox[0];
      ResponseFacts(t, tables, u, up, INFINITY - 1);
      Weaken(t, t.owner[up.src], up.entries, INFINITY - 1);
      assert ExactlyWithin(t, u, tables[u], INFINITY - 1);
      ConvergedNodeStays(t, up.src, tables[u], up.entries);
      DigestConverged(t, tables, u, inbox[1..]);
    }
  }

  lemma LockstepRests(t: Topology, tables: map<Node, Table>, tables': map<Node, Table>)
    requires TopologyOk(t) && AllExactly(t, tables, INFINITY - 1) && LockstepRound(t, tables, tables')
    ensures tables' == tables
  {
    forall u | u in tables ensures tables'[u] == tables[u] {
      var inbox :| Reads(t, tables, u, inbox, tables'[u]);
      DigestConverged(t, tables, u, inbox);
    }
  }

  ghost predicate AllInitial(t: Topology, tables: map<Node, Table>)
    requires TopologyOk(t)
  {
    forall u :: u in tables ==> InitialTable(t, u, tables[u])
  }

  ghost predicate RoundAt(t: Topology, history: seq<map<Node, Table>>, i: int)
    requires TopologyOk(t) && 0 <= i < |history| - 1
  {
    LockstepRound(t, history[i], history[i + 1])
  }

  /** Exact convergence. After n loss-free synchronous rounds from the initial tables every node has
      entries for exactly the addresses within min(n, 15) hops, each at exactly its hop distance. */
  lemma {:induction false} LockstepConverges(t: Topology, history: seq<map<Node, Table>>, n: int)
    requires TopologyOk(t) && 0 <= n < |history|
    requires AllInitial(t, history[0])
    requires forall i :: 0 <= i < n ==> RoundAt(t, history, i)
    ensures AllExactly(t, history[n], Cap(n))
    decreases n
  {
    if n == 0 {
      LockstepStart(t, history[0]);
    } else {
      LockstepConverges(t, history, n - 1);
      assert RoundAt(t, history, n - 1);
      LockstepNext(t, history, n);
    }
  }

  lemma LockstepNext(t: Topology, history: seq<map<Node, Table>>, n: int)
    requires TopologyOk(t) && 0 < n < |history| && RoundAt(t, history, n - 1) && AllExactly(t, history[n - 1], Cap(n - 1))
    ensures AllExactly(t, history[n], Cap(n))
  {
    LockstepStep(t, history[n - 1], history[n], n - 1, n);
  }

  lemma LockstepStart(t: Topology, tables: map<Node, Table>)
    requires TopologyOk(t) && AllInitial(t, tables)
    ensures AllExactly(t, tables, 0)
  {
    forall u | u in tables ensures ExactlyWithin(t, u, tables[u], 0) {
      InitialTableSound(t, u, tables[u]);
    }
  }

  lemma LockstepStep(t: Topology, tables: map<Node, Table>, tables': map<Node, Table>, n: int, n': int)
    requires TopologyOk(t) && n >= 0 && n' == n + 1
    requires AllExactly(t, tables, Cap(n)) && LockstepRound(t, tables, tables')
    ensures AllExactly(t, tables', Cap(n'))
  {
    if n < INFINITY - 1 {
      LockstepAdvances(t, tables, tables', n);
    } else {
      LockstepRests(t, tables, tables');
    }
  }
}
