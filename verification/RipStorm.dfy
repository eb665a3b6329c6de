/** When triggered updates die out. The handler sends one to every other neighbor on each reception, even when
    nothing changed, so whether they end depends on the topology alone: exactly when it has no cycle. */
module RipStorm {
  import opened RipTable
  import opened RipNetwork
  import opened RipLimits

  /** A message sent over interface a makes its receiver send one over interface b. */
  predicate Follows(t: Topology, a: IP, b: IP)
    requires t.owner.Keys == t.peer.Keys
  {
    a in t.owner && b in t.owner && t.peer[a] in t.owner && t.owner[b] == t.owner[t.peer[a]] && b != t.peer[a]
  }

  function Followers(t: Topology, a: IP): set<IP>
    requires t.owner.Keys == t.peer.Keys
  {
    set b | b in t.owner && Follows(t, a, b)
  }

  // ----- cycles and ranks ----------------------------------------------------------------------

  function After(c: seq<IP>, i: nat): nat
  {
    if i + 1 < |c| then i + 1 else 0
  }

  predicate Link(t: Topology, c: seq<IP>, i: nat)
    requires t.owner.Keys == t.peer.Keys && i < |c|
  {
    Follows(t, c[i], c[After(c, i)])
  }

  /** A closed walk through the network that never turns back on a link. */
  ghost predicate Cycle(t: Topology, c: seq<IP>)
    requires t.owner.Keys == t.peer.Keys
  {
    c != [] && forall i :: 0 <= i < |c| ==> Link(t, c, i)
  }

  ghost predicate HasCycle(t: Topology)
    requires t.owner.Keys == t.peer.Keys
  {
    exists c :: Cycle(t, c)
  }

  ghost predicate Ranked(t: Topology, rank: map<IP, nat>)
    requires t.owner.Keys == t.peer.Keys
  {
    rank.Keys == t.owner.Keys && forall a, b :: Follows(t, a, b) ==> rank[b] < rank[a]
  }

  lemma {:induction false} RankFalls(t: Topology, rank: map<IP, nat>, c: seq<IP>, i: nat)
    requires t.owner.Keys == t.peer.Keys && Ranked(t, rank) && Cycle(t, c) && i < |c|
    ensures c[i] in rank && c[0] in rank && rank[c[i]] + i <= rank[c[0]]
  {
    if i == 0 {
      assert Link(t, c, 0);
    } else {
      RankFalls(t, rank, c, i - 1);
      assert Link(t, c, i - 1);
    }
  }

  lemma RankedHasNoCycle(t: Topology, rank: map<IP, nat>, c: seq<IP>)
    requires t.owner.Keys == t.peer.Keys && Ranked(t, rank)
    ensures !Cycle(t, c)
  {
    if Cycle(t, c) {
      var last := |c| - 1;
      assert Link(t, c, last);
      RankFalls(t, rank, c, last);
    }
  }

  /** What has been ranked so far follows only itself. */
  ghost predicate PartlyRanked(t: Topology, rank: map<IP, nat>)
    requires t.owner.Keys == t.peer.Keys
  {
    && rank.Keys <= t.owner.Keys
    && (forall a :: a in rank ==> rank[a] < |rank|)
    && (forall a, b :: a in rank && Follows(t, a, b) ==> b in rank && rank[b] < rank[a])
  }

  ghost predicate LeadsOn(t: Topology, r: set<IP>, a: IP)
    requires t.owner.Keys == t.peer.Keys
  {
    exists b :: b in r && Follows(t, a, b)
  }

  /** Interfaces that always lead on to one another. */
  ghost predicate Trap(t: Topology, r: set<IP>)
    requires t.owner.Keys == t.peer.Keys
  {
    r != {} && forall a {:trigger LeadsOn(t, r, a)} :: a in r ==> LeadsOn(t, r, a)
  }

  ghost predicate LeadsToRanked(t: Topology, rank: map<IP, nat>, a: IP)
    requires t.owner.Keys == t.peer.Keys
  {
    forall b :: Follows(t, a, b) ==> b in rank
  }

  datatype Peeled = AllRanked(rank: map<IP, nat>) | Trapped(rest: set<IP>)

  /** Rank the interfaces that lead only to ranked ones, until none or only a trap is left. */
  lemma {:induction false} Peel(t: Topology, rank: map<IP, nat>) returns (p: Peeled)
    requires t.owner.Keys == t.peer.Keys && PartlyRanked(t, rank)
    ensures p.AllRanked? ==> Ranked(t, p.rank)
    ensures p.Trapped? ==> Trap(t, p.rest)
    decreases t.owner.Keys - rank.Keys
  {
    var rest := t.owner.Keys - rank.Keys;
    if rest == {} {
      AllAreRanked(t, rank);
      p := AllRanked(rank);
    } else if a :| a in rest && LeadsToRanked(t, rank, a) {
      RankOneMore(t, rank, a);
      p := Peel(t, rank[a := |rank|]);
    } else {
      forall a | a in rest ensures LeadsOn(t, rest, a) {
        assert !LeadsToRanked(t, rank, a);
        var b :| Follows(t, a, b) && b !in rank;
        assert b in rest;
      }
      p := Trapped(rest);
    }
  }

  lemma AllAreRanked(t: Topology, rank: map<IP, nat>)
    requires t.owner.Keys == t.peer.Keys && PartlyRanked(t, rank) && t.owner.Keys - rank.Keys == {}
    ensures Ranked(t, rank)
  {
    forall a | a in t.owner.Keys ensures a in rank.Keys { assert a !in t.owner.Keys - rank.Keys; }
    forall a, b | Follows(t, a, b) ensures rank[b] < rank[a] { assert a in rank; }
  }

  lemma RankOneMore(t: Topology, rank: map<IP, nat>, a: IP)
    requires t.owner.Keys == t.peer.Keys && PartlyRanked(t, rank) && a in t.owner && a !in rank
    requires LeadsToRanked(t, rank, a)
    ensures PartlyRanked(t, rank[a := |rank|])
  {
    var rank' := rank[a := |rank|];
    assert |rank'| == |rank| + 1;
  }

  predicate WalksOn(t: Topology, w: seq<IP>, i: nat)
    requires t.owner.Keys == t.peer.Keys && i + 1 < |w|
  {
    Follows(t, w[i], w[i + 1])
  }

  lemma {:induction false} WalkIn(t: Topology, r: set<IP>, a: IP, n: nat) returns (w: seq<IP>)
    requires t.owner.Keys == t.peer.Keys && Trap(t, r) && a in r
    ensures |w| == n + 1 && w[0] == a && forall i :: 0 <= i < |w| ==> w[i] in r
    ensures forall i :: 0 <= i < n ==> WalksOn(t, w, i)
    decreases n
  {
    if n == 0 {
      w := [a];
    } else {
      assert LeadsOn(t, r, a);
      var b :| b in r && Follows(t, a, b);
      var rest := WalkIn(t, r, b, n - 1);
      w := [a] + rest;
      forall i | 0 <= i < n ensures WalksOn(t, w, i) {
        if i > 0 { assert WalksOn(t, rest, i - 1); }
      }
    }
  }

  lemma {:induction false} Pigeonhole(w: seq<IP>, r: set<IP>) returns (i: nat, j: nat)
    requires |w| > |r| && forall k :: 0 <= k < |w| ==> w[k] in r
    ensures i < j < |w| && w[i] == w[j]
    decreases |w|
  {
    if k :| 1 <= k < |w| && w[k] == w[0] {
      i, j := 0, k;
    } else {
      forall k | 0 <= k < |w[1..]| ensures w[1..][k] in r - {w[0]} { assert w[1..][k] == w[k + 1]; }
      i, j := Pigeonhole(w[1..], r - {w[0]});
      i, j := i + 1, j + 1;
    }
  }

  lemma TrapHasCycle(t: Topology, r: set<IP>)
    requires t.owner.Keys == t.peer.Keys && Trap(t, r)
    ensures HasCycle(t)
  {
    var a :| a in r;
    var w := WalkIn(t, r, a, |r|);
    var i, j := Pigeonhole(w, r);
    var c := w[i..j];
    forall k | 0 <= k < |c| ensures Link(t, c, k) {
      assert WalksOn(t, w, i + k);
    }
    assert Cycle(t, c);
  }

  /** A topology has a rank or a cycle, and not both. */
  lemma RankedIffNoCycle(t: Topology)
    requires t.owner.Keys == t.peer.Keys
    ensures (exists rank :: Ranked(t, rank)) <==> !HasCycle(t)
  {
    if HasCycle(t) {
      var c :| Cycle(t, c);
      forall rank | Ranked(t, rank) ensures false { RankedHasNoCycle(t, rank, c); }
    } else {
      assert PartlyRanked(t, map[]);
      var p := Peel(t, map[]);
      if p.Trapped? { TrapHasCycle(t, p.rest); }
    }
  }

  // ----- without a cycle: receptions are bounded ------------------------------------------------

  /** All receptions a message over interface a can lead to, its own included. */
  ghost function Cost(t: Topology, rank: map<IP, nat>, a: IP): (n: nat)
    requires t.owner.Keys == t.peer.Keys && Ranked(t, rank) && a in t.owner
    ensures n >= 1
    decreases rank[a], 1, 0
  {
    1 + CostSum(t, rank, Followers(t, a), rank[a])
  }

  ghost function CostSum(t: Topology, rank: map<IP, nat>, bs: set<IP>, k: nat): nat
    requires t.owner.Keys == t.peer.Keys && Ranked(t, rank) && forall b :: b in bs ==> b in t.owner && rank[b] < k
    decreases k, 0, |bs|
  {
    if bs == {} then 0
    else
      var b :| b in bs;
      Cost(t, rank, b) + CostSum(t, rank, bs - {b}, k)
  }

  lemma {:induction false} CostSumTakes(t: Topology, rank: map<IP, nat>, bs: set<IP>, k: nat, x: IP)
    requires t.owner.Keys == t.peer.Keys && Ranked(t, rank) && x in bs
    requires forall b :: b in bs ==> b in t.owner && rank[b] < k
    ensures CostSum(t, rank, bs, k) == Cost(t, rank, x) + CostSum(t, rank, bs - {x}, k)
    decreases |bs|
  {
    var b :| b in bs && CostSum(t, rank, bs, k) == Cost(t, rank, b) + CostSum(t, rank, bs - {b}, k);
    if b != x {
      CostSumTakes(t, rank, bs - {b}, k, x);
      CostSumTakes(t, rank, bs - {x}, k, b);
      assert bs - {b} - {x} == bs - {x} - {b};
    }
  }

  ghost predicate Known(t: Topology, ms: multiset<Msg>)
  {
    forall m :: m in ms ==> m.src in t.owner
  }

  ghost function Load(t: Topology, rank: map<IP, nat>, ms: multiset<Msg>): nat
    requires t.owner.Keys == t.peer.Keys && Ranked(t, rank) && Known(t, ms)
    decreases |ms|
  {
    if ms == multiset{} then 0
    else
      var m :| m in ms;
      Cost(t, rank, m.src) + Load(t, rank, ms - multiset{m})
  }

  lemma {:induction false} LoadTakes(t: Topology, rank: map<IP, nat>, ms: multiset<Msg>, x: Msg)
    requires t.owner.Keys == t.peer.Keys && Ranked(t, rank) && Known(t, ms) && x in ms
    ensures Load(t, rank, ms) == Cost(t, rank, x.src) + Load(t, rank, ms - multiset{x})
    decreases |ms|
  {
    var m :| m in ms && Load(t, rank, ms) == Cost(t, rank, m.src) + Load(t, rank, ms - multiset{m});
    if m != x {
      var ms1, ms2 := ms - multiset{m}, ms - multiset{x};
      assert x in ms1 && m in ms2;
      LoadTakes(t, rank, ms1, x);
      LoadTakes(t, rank, ms2, m);
      assert ms1 - multiset{x} == ms2 - multiset{m};
    }
  }

  lemma {:induction false} LoadAdds(t: Topology, rank: map<IP, nat>, ms: multiset<Msg>, more: multiset<Msg>)
    requires t.owner.Keys == t.peer.Keys && Ranked(t, rank) && Known(t, ms) && Known(t, more)
    ensures Load(t, rank, ms + more) == Load(t, rank, ms) + Load(t, rank, more)
    decreases |more|
  {
    if more == multiset{} {
      assert ms + more == ms;
    } else {
      var m :| m in more;
      LoadTakes(t, rank, more, m);
      LoadTakes(t, rank, ms + more, m);
      assert ms + more - multiset{m} == ms + (more - multiset{m});
      LoadAdds(t, rank, ms, more - multiset{m});
    }
  }

  function Outgoing(bs: set<IP>, es: seq<RipEntry>): set<Msg>
  {
    set b | b in bs :: Msg(b, es, false)
  }

  lemma OutgoingTakes(bs: set<IP>, es: seq<RipEntry>, x: IP)
    requires x in bs
    ensures Msg(x, es, false) in Outgoing(bs, es)
    ensures multiset(Outgoing(bs, es)) - multiset{Msg(x, es, false)} == multiset(Outgoing(bs - {x}, es))
  {
    assert Outgoing(bs, es) == Outgoing(bs - {x}, es) + {Msg(x, es, false)};
  }

  lemma {:induction false} OutgoingLoad(t: Topology, rank: map<IP, nat>, bs: set<IP>, k: nat, es: seq<RipEntry>)
    requires t.owner.Keys == t.peer.Keys && Ranked(t, rank) && forall b :: b in bs ==> b in t.owner && rank[b] < k
    ensures Known(t, multiset(Outgoing(bs, es)))
    ensures Load(t, rank, multiset(Outgoing(bs, es))) == CostSum(t, rank, bs, k)
    decreases |bs|
  {
    if bs == {} {
      assert Outgoing(bs, es) == {};
    } else {
      var x :| x in bs;
      OutgoingLoad(t, rank, bs - {x}, k, es);
      CostSumTakes(t, rank, bs, k, x);
      OutgoingTakes(bs, es, x);
      LoadTakes(t, rank, multiset(Outgoing(bs, es)), Msg(x, es, false));
    }
  }

  ghost predicate AllKnown(t: Topology, s: RipState)
  {
    Known(t, s.earlier) && Known(t, s.recent)
  }

  ghost function TotalLoad(t: Topology, rank: map<IP, nat>, s: RipState): nat
    requires t.owner.Keys == t.peer.Keys && Ranked(t, rank) && AllKnown(t, s)
  {
    Load(t, rank, s.earlier) + Load(t, rank, s.recent)
  }

  lemma TriggeredIsImage(t: Topology, a: IP, es: seq<RipEntry>)
    requires TopologyOk(t) && a in t.owner
    ensures Triggered(t, t.owner[t.peer[a]], a, es) == Outgoing(Followers(t, a), es)
  {
    forall b | b in t.owner && t.owner[b] == t.owner[t.peer[a]]
      ensures t.peer[b] != a <==> b != t.peer[a]
    {
      assert t.peer[t.peer[b]] == b;
    }
  }

  lemma TakeLoad(t: Topology, rank: map<IP, nat>, s: RipState, m: Msg, o: bool)
    requires t.owner.Keys == t.peer.Keys && Ranked(t, rank) && AllKnown(t, s) && OnWire(s, m, o)
    ensures AllKnown(t, Take(s, m, o)) && m.src in t.owner
    ensures TotalLoad(t, rank, Take(s, m, o)) == TotalLoad(t, rank, s) - Cost(t, rank, m.src)
  {
    LoadTakes(t, rank, if o then s.earlier else s.recent, m);
  }

  /** A reception uses up exactly one unit of the load. */
  lemma ReceptionCosts(t: Topology, rank: map<IP, nat>, s: RipState, m: Msg, o: bool)
    requires TopologyOk(t) && Ranked(t, rank) && AllKnown(t, s) && RipEnabled(t, s, Receive(m, o))
    ensures AllKnown(t, RipNext(t, s, Receive(m, o)))
    ensures TotalLoad(t, rank, RipNext(t, s, Receive(m, o))) == TotalLoad(t, rank, s) - 1
  {
    var u := t.owner[t.peer[m.src]];
    var es := Updated(s.tables[u], m.src, m.entries);
    var s1 := Take(s, m, o);
    TakeLoad(t, rank, s, m, o);
    TriggeredIsImage(t, m.src, es);
    OutgoingLoad(t, rank, Followers(t, m.src), rank[m.src], es);
    LoadAdds(t, rank, s1.recent, multiset(Triggered(t, u, m.src, es)));
  }

  /** Nothing is sent on a node's own account and nothing is duplicated. */
  predicate NoNews(acts: seq<RipAction>)
  {
    forall i :: 0 <= i < |acts| ==> !acts[i].Send? && !acts[i].Duplicate?
  }

  lemma LoadStep(t: Topology, rank: map<IP, nat>, s: RipState, act: RipAction)
    requires TopologyOk(t) && Ranked(t, rank) && AllKnown(t, s) && RipEnabled(t, s, act) && !act.Send? && !act.Duplicate?
    ensures AllKnown(t, RipNext(t, s, act))
    ensures TotalLoad(t, rank, RipNext(t, s, act)) + (if act.Receive? || act.Lose? || act.Exit? then 1 else 0) <= TotalLoad(t, rank, s)
  {
    match act {
      case Receive(m, o) => ReceptionCosts(t, rank, s, m, o);
      case Lose(m, o) => TakeLoad(t, rank, s, m, o);
      case Exit(m, o) => TakeLoad(t, rank, s, m, o);
      case Expire(_, _) =>
    }
  }

  /** Without a cycle: receptions and losses together never exceed the load at the beginning. */
  lemma {:induction false} ReceptionsBounded(t: Topology, rank: map<IP, nat>, s: RipState, acts: seq<RipAction>)
    requires TopologyOk(t) && Ranked(t, rank) && AllKnown(t, s) && IsRipRun(t, s, acts) && NoNews(acts)
    ensures AllKnown(t, RipFinal(t, s, acts))
    ensures Receptions(acts) + Losses(acts) + TotalLoad(t, rank, RipFinal(t, s, acts)) <= TotalLoad(t, rank, s)
    decreases |acts|
  {
    if acts != [] {
      LoadStep(t, rank, s, acts[0]);
      ReceptionsBounded(t, rank, RipNext(t, s, acts[0]), acts[1..]);
    }
  }

  // ----- with a cycle: they need not end ---------------------------------------------------------

  predicate OnlyReceptions(acts: seq<RipAction>)
  {
    forall i :: 0 <= i < |acts| ==> acts[i].Receive?
  }

  lemma PassesOn(t: Topology, s: RipState, m: Msg, o: bool, b: IP) returns (q: Msg)
    requires TopologyOk(t) && AllUp(t, s.tables) && OnWire(s, m, o) && |m.entries| <= MAX_ENTRIES && Follows(t, m.src, b)
    ensures RipEnabled(t, s, Receive(m, o)) && AllUp(t, RipNext(t, s, Receive(m, o)).tables)
    ensures q.src == b && |q.entries| <= MAX_ENTRIES && OnWire(RipNext(t, s, Receive(m, o)), q, false)
  {
    var u := t.owner[t.peer[m.src]];
    var es := Updated(s.tables[u], m.src, m.entries);
    UpdatedLength(s.tables[u], m.src, m.entries);
    q := Msg(b, es, false);
    assert t.peer[b] != m.src;
    assert q in Triggered(t, u, m.src, es);
  }

  ghost predicate StillOn(s: RipState, c: seq<IP>)
  {
    exists m, o :: OnWire(s, m, o) && m.src in c
  }

  /** From a message on a cycle there is a loss-free run of any length, with a message still on the cycle. */
  lemma {:induction false} Circles(t: Topology, s: RipState, c: seq<IP>, i: nat, m: Msg, o: bool, n: nat) returns (acts: seq<RipAction>)
    requires TopologyOk(t) && Cycle(t, c) && i < |c| && m.src == c[i] && |m.entries| <= MAX_ENTRIES
    requires AllUp(t, s.tables) && OnWire(s, m, o)
    ensures |acts| == n && OnlyReceptions(acts) && IsRipRun(t, s, acts)
    ensures StillOn(RipFinal(t, s, acts), c)
    decreases n
  {
    acts := [];
    if n == 0 {
      assert OnWire(s, m, o) && m.src in c;
    } else {
      var j := After(c, i);
      assert Link(t, c, i);
      var q := PassesOn(t, s, m, o, c[j]);
      var s' := RipNext(t, s, Receive(m, o));
      var rest := Circles(t, s', c, j, q, false, n - 1);
      PrependRip(t, s, Receive(m, o), rest);
      acts := [Receive(m, o)] + rest;
    }
  }

  // ----- together ------------------------------------------------------------------------------------

  /** No run of receptions alone is longer than n. */
  ghost predicate EndsWithin(t: Topology, s: RipState, n: nat)
    requires TopologyOk(t)
  {
    forall acts :: IsRipRun(t, s, acts) && OnlyReceptions(acts) ==> |acts| <= n
  }

  ghost predicate DiesOut(t: Topology, s: RipState)
    requires TopologyOk(t)
  {
    exists n: nat :: EndsWithin(t, s, n)
  }

  ghost predicate AlwaysDiesOut(t: Topology, tables: map<Node, Table>)
    requires TopologyOk(t)
  {
    forall s: RipState :: s.tables == tables && AllKnown(t, s) ==> DiesOut(t, s)
  }

  lemma {:induction false} CountReceptions(acts: seq<RipAction>)
    requires OnlyReceptions(acts)
    ensures Receptions(acts) == |acts| && Losses(acts) == 0
  {
    if acts != [] { CountReceptions(acts[1..]); }
  }

  lemma RankedDiesOut(t: Topology, rank: map<IP, nat>, s: RipState)
    requires TopologyOk(t) && Ranked(t, rank) && AllKnown(t, s)
    ensures DiesOut(t, s)
  {
    var n: nat := TotalLoad(t, rank, s);
    forall acts | IsRipRun(t, s, acts) && OnlyReceptions(acts) ensures |acts| <= n {
      ReceptionsBounded(t, rank, s, acts);
      CountReceptions(acts);
    }
    assert EndsWithin(t, s, n);
  }

  lemma CycleGoesOn(t: Topology, tables: map<Node, Table>, c: seq<IP>)
    requires TopologyOk(t) && AllUp(t, tables) && Cycle(t, c)
    ensures !AlwaysDiesOut(t, tables)
  {
    assert Link(t, c, 0);
    var m := Msg(c[0], [], false);
    var s := RipState(tables, multiset{}, multiset{m});
    assert AllKnown(t, s);
    forall n: nat ensures !EndsWithin(t, s, n) { OutlastsAny(t, s, c, m, n); }
  }

  lemma OutlastsAny(t: Topology, s: RipState, c: seq<IP>, m: Msg, n: nat)
    requires TopologyOk(t) && Cycle(t, c) && AllUp(t, s.tables) && m.src == c[0] && m.entries == [] && OnWire(s, m, false)
    ensures !EndsWithin(t, s, n)
  {
    var acts := Circles(t, s, c, 0, m, false, n + 1);
    assert IsRipRun(t, s, acts) && OnlyReceptions(acts) && |acts| > n;
  }

  /** Triggered updates die out, whatever is on the wire, if and only if the network has no cycle. */
  lemma UpdatesDieOutIff(t: Topology, tables: map<Node, Table>)
    requires TopologyOk(t) && AllUp(t, tables)
    ensures AlwaysDiesOut(t, tables) <==> !HasCycle(t)
  {
    RankedIffNoCycle(t);
    if HasCycle(t) {
      var c :| Cycle(t, c);
      CycleGoesOn(t, tables, c);
    } else {
      var rank :| Ranked(t, rank);
      forall s: RipState | s.tables == tables && AllKnown(t, s) ensures DiesOut(t, s) { RankedDiesOut(t, rank, s); }
    }
  }
}
