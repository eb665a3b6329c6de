/** The limit of 64 entries per response: exactly which networks keep it, what happens in the others, and that
    exactly in these networks rounds as the convergence theorems use them can go on. */
module RipLimits {
  import opened TcpTypes
  import opened RipTable
  import opened RipNetwork
  import opened RipConvergence
  import opened RipCodec

  // ----- narrow networks -------------------------------------------------------------------------

  /** The addresses RIP can tell node u about. */
  ghost function Reach(t: Topology, u: Node): set<IP>
    requires TopologyOk(t)
  {
    set d | d in t.owner && Within(t, u, d, INFINITY - 1)
  }

  /** No node has more than 64 addresses within 15 hops. */
  ghost predicate Narrow(t: Topology)
    requires TopologyOk(t)
  {
    forall a {:trigger Reach(t, t.owner[a])} :: a in t.owner ==> |Reach(t, t.owner[a])| <= MAX_ENTRIES
  }

  lemma {:induction false} SubsetSize(a: set<IP>, b: set<IP>)
    requires a <= b
    ensures |a| <= |b|
    decreases |a|
  {
    if a != {} {
      var x :| x in a;
      SubsetSize(a - {x}, b - {x});
    }
  }

  lemma TableInReach(t: Topology, u: Node, tab: Table)
    requires TopologyOk(t) && TableSound(t, u, tab)
    ensures tab.Keys <= Reach(t, u) && |tab| <= |Reach(t, u)|
  {
    forall d | d in tab ensures d in Reach(t, u) {
      assert RouteSound(t, u, d, tab[d]);
      WithinMonotone(t, u, d, tab[d].cost, INFINITY - 1);
    }
    SubsetSize(tab.Keys, Reach(t, u));
    assert |tab| == |tab.Keys|;
  }

  lemma SmallIsNarrow(t: Topology)
    requires TopologyOk(t) && |t.owner| <= MAX_ENTRIES
    ensures Narrow(t)
  {
    forall a | a in t.owner ensures |Reach(t, t.owner[a])| <= MAX_ENTRIES {
      SubsetSize(Reach(t, t.owner[a]), t.owner.Keys);
      assert |t.owner| == |t.owner.Keys|;
    }
  }

  /** A node that can be told anything has an interface. */
  lemma HasInterface(t: Topology, u: Node, d: IP, k: int) returns (a: IP)
    requires TopologyOk(t) && Within(t, u, d, k)
    ensures a in t.owner && t.owner[a] == u
  {
    if t.owner[d] == u {
      a := d;
    } else {
      a :| a in t.owner && t.owner[a] == u && Within(t, t.owner[t.peer[a]], d, k - 1);
    }
  }

  lemma NarrowTable(t: Topology, u: Node, tab: Table)
    requires TopologyOk(t) && Narrow(t) && TableSound(t, u, tab)
    ensures |tab| <= MAX_ENTRIES
  {
    if tab.Keys == {} {
      assert |tab| == |tab.Keys|;
    } else {
      var d :| d in tab;
      assert RouteSound(t, u, d, tab[d]);
      var a := HasInterface(t, u, d, tab[d].cost);
      TableInReach(t, u, tab);
    }
  }

  lemma {:induction false} UpdatedLength(tab: Table, src: IP, es: seq<RipEntry>)
    ensures |Updated(tab, src, es)| <= |es|
    decreases |es|
  {
    if es != [] { UpdatedLength(Learn(tab, src, es[0]), src, es[1..]); }
  }

  /** Every message on the wire is one its receiver takes. */
  ghost predicate Sized(s: RipState)
  {
    && (forall m :: m in s.earlier ==> |m.entries| <= MAX_ENTRIES)
    && (forall m :: m in s.recent ==> |m.entries| <= MAX_ENTRIES)
  }

  lemma SizedStep(t: Topology, s: RipState, act: RipAction)
    requires TopologyOk(t) && Narrow(t) && Sound(t, s) && Sized(s) && RipEnabled(t, s, act)
    ensures Sized(RipNext(t, s, act))
  {
    if act.Send? {
      NarrowTable(t, t.owner[act.m.src], s.tables[t.owner[act.m.src]]);
    } else if act.Receive? {
      SizedReceive(t, s, act.m, act.fromOld);
    }
  }

  lemma SizedReceive(t: Topology, s: RipState, m: Msg, o: bool)
    requires TopologyOk(t) && Sized(s) && RipEnabled(t, s, Receive(m, o))
    ensures Sized(RipNext(t, s, Receive(m, o)))
  {
    var u := t.owner[t.peer[m.src]];
    var es := Updated(s.tables[u], m.src, m.entries);
    UpdatedLength(s.tables[u], m.src, m.entries);
    forall q | q in RipNext(t, s, Receive(m, o)).recent ensures |q.entries| <= MAX_ENTRIES {
      if q !in s.recent { assert q in Triggered(t, u, m.src, es); }
    }
  }

  lemma {:induction false} SizedRun(t: Topology, s: RipState, acts: seq<RipAction>)
    requires TopologyOk(t) && Narrow(t) && Sound(t, s) && Sized(s) && IsRipRun(t, s, acts)
    ensures Sized(RipFinal(t, s, acts)) && Sound(t, RipFinal(t, s, acts))
    decreases |acts|
  {
    if acts != [] {
      SizedStep(t, s, acts[0]);
      SoundStep(t, s, acts[0]);
      SizedRun(t, RipNext(t, s, acts[0]), acts[1..]);
    }
  }

  /** In a narrow network every message of every run is one its receiver takes, and no program ever ends. */
  lemma NarrowNeverExits(t: Topology, s: RipState, acts: seq<RipAction>, m: Msg, o: bool)
    requires TopologyOk(t) && Initial(t, s) && IsRipRun(t, s, acts) && Narrow(t)
    ensures OnWire(RipFinal(t, s, acts), m, o) ==> WellFormed(RipPacket(COMMAND_RESPONSE, m.entries))
    ensures !RipEnabled(t, RipFinal(t, s, acts), Exit(m, o))
  {
    InitialSound(t, s);
    SizedRun(t, s, acts);
    TakenInState(t, RipFinal(t, s, acts), m, o);
  }

  lemma TakenInState(t: Topology, f: RipState, m: Msg, o: bool)
    requires TopologyOk(t) && Sound(t, f) && Sized(f)
    ensures OnWire(f, m, o) ==> WellFormed(RipPacket(COMMAND_RESPONSE, m.entries))
    ensures !RipEnabled(t, f, Exit(m, o))
  {
    if OnWire(f, m, o) {
      assert MsgSound(t, m);
    }
  }

  // ----- beyond the limit --------------------------------------------------------------------------

  /** Every table can be told to a neighbor. */
  lemma {:induction false} MakeAdvert(tab: Table, neighbor: IP) returns (es: seq<RipEntry>)
    requires forall d :: d in tab ==> 0 <= tab[d].cost < INFINITY
    ensures IsAdvert(es, tab, neighbor)
    decreases |tab|
  {
    es := [];
    if tab != map[] {
      var d :| d in tab;
      var rest := tab - {d};
      var es' := MakeAdvert(rest, neighbor);
      es := [RipEntry(AdvertCost(tab[d], neighbor), d, FULL_MASK)] + es';
      AdvertCons(tab, d, rest, neighbor, es', es);
    }
  }

  lemma AdvertCons(tab: Table, d: IP, rest: Table, neighbor: IP, es': seq<RipEntry>, es: seq<RipEntry>)
    requires d in tab && rest == tab - {d} && IsAdvert(es', rest, neighbor) && 0 <= AdvertCost(tab[d], neighbor) < MOD32
    requires es == [RipEntry(AdvertCost(tab[d], neighbor), d, FULL_MASK)] + es'
    ensures IsAdvert(es, tab, neighbor)
  {
    assert tab.Keys == rest.Keys + {d};
    assert |tab| == |rest| + 1;
    forall k | k in tab ensures exists i :: 0 <= i < |es| && es[i].dest == k {
      if k == d {
        assert es[0].dest == k;
      } else {
        var i :| 0 <= i < |es'| && es'[i].dest == k;
        assert es[i + 1].dest == k;
      }
    }
  }

  lemma PrependRip(t: Topology, s: RipState, act: RipAction, acts: seq<RipAction>)
    requires TopologyOk(t) && RipEnabled(t, s, act) && IsRipRun(t, RipNext(t, s, act), acts)
    ensures IsRipRun(t, s, [act] + acts) && RipFinal(t, s, [act] + acts) == RipFinal(t, RipNext(t, s, act), acts)
  {
    assert ([act] + acts)[1..] == acts;
  }

  /** One node with more than 64 entries is enough: its next periodic update ends the neighbor's program. */
  lemma LargeTableEndsNeighbor(t: Topology, s: RipState, a: IP) returns (acts: seq<RipAction>)
    requires TopologyOk(t) && Sound(t, s) && a in t.owner && t.owner[a] in s.tables && t.owner[t.peer[a]] in s.tables
    requires |s.tables[t.owner[a]]| > MAX_ENTRIES
    ensures IsRipRun(t, s, acts) && |acts| == 2 && acts[0].Send? && acts[1].Exit?
    ensures t.owner[t.peer[a]] !in RipFinal(t, s, acts).tables
  {
    var u := t.owner[a];
    assert TableSound(t, u, s.tables[u]);
    var es := MakeAdvert(s.tables[u], t.peer[a]);
    var m := Msg(a, es, true);
    acts := [Send(m), Exit(m, false)];
    TwoActs(t, s, Send(m), Exit(m, false));
  }

  lemma TwoActs(t: Topology, s: RipState, x: RipAction, y: RipAction)
    requires TopologyOk(t) && RipEnabled(t, s, x) && RipEnabled(t, RipNext(t, s, x), y)
    ensures IsRipRun(t, s, [x, y]) && RipFinal(t, s, [x, y]) == RipNext(t, RipNext(t, s, x), y)
  {
    var s2 := RipNext(t, RipNext(t, s, x), y);
    assert IsRipRun(t, s2, []) && RipFinal(t, s2, []) == s2;
    PrependRip(t, RipNext(t, s, x), y, []);
    assert [y] + [] == [y];
    PrependRip(t, s, x, [y]);
    assert [x] + [y] == [x, y];
  }

  // ----- passes over all interfaces -------------------------------------------------------------------

  ghost predicate AllUp(t: Topology, tables: map<Node, Table>)
  {
    forall a :: a in t.owner ==> t.owner[a] in tables
  }

  /** Some node's table is too long for a response. */
  ghost predicate Oversized(t: Topology, s: RipState)
  {
    exists a :: a in t.owner && t.owner[a] in s.tables && |s.tables[t.owner[a]]| > MAX_ENTRIES
  }

  lemma {:induction false} RunStaysUp(t: Topology, s: RipState, acts: seq<RipAction>)
    requires TopologyOk(t) && IsRipRun(t, s, acts) && Calm(acts) && AllUp(t, s.tables) && Sound(t, s)
    ensures AllUp(t, RipFinal(t, s, acts).tables) && Sound(t, RipFinal(t, s, acts))
    decreases |acts|
  {
    if acts != [] {
      SoundStep(t, s, acts[0]);
      RunStaysUp(t, RipNext(t, s, acts[0]), acts[1..]);
    }
  }

  lemma {:induction false} JoinRip(t: Topology, s: RipState, acts: seq<RipAction>, more: seq<RipAction>)
    requires TopologyOk(t) && IsRipRun(t, s, acts) && IsRipRun(t, RipFinal(t, s, acts), more)
    ensures IsRipRun(t, s, acts + more) && RipFinal(t, s, acts + more) == RipFinal(t, RipFinal(t, s, acts), more)
    decreases |acts|
  {
    if acts == [] {
      assert acts + more == more;
    } else {
      assert (acts + more)[1..] == acts[1..] + more;
      JoinRip(t, RipNext(t, s, acts[0]), acts[1..], more);
    }
  }

  lemma {:induction false} HeardJoin(acts: seq<RipAction>, more: seq<RipAction>)
    ensures HeardBy(acts + more) == HeardBy(acts) + HeardBy(more)
    decreases |acts|
  {
    if acts == [] {
      assert acts + more == more;
    } else {
      assert (acts + more)[1..] == acts[1..] + more;
      HeardJoin(acts[1..], more);
    }
  }

  lemma CalmJoin(acts: seq<RipAction>, more: seq<RipAction>)
    requires Calm(acts) && Calm(more)
    ensures Calm(acts + more)
  {
  }

  lemma LoseOne(t: Topology, s: RipState, m: Msg, o: bool)
    requires TopologyOk(t) && RipEnabled(t, s, Lose(m, o))
    ensures var s' := RipNext(t, s, Lose(m, o));
            && s'.(earlier := s.earlier, recent := s.recent) == s && |s'.earlier| + |s'.recent| < |s.earlier| + |s.recent|
            && (if o then s'.recent == s.recent else s'.earlier == s.earlier)
  {
  }

  /** Lose all that was sent before the line, or after it. */
  lemma {:induction false} LoseAll(t: Topology, s: RipState, o: bool) returns (acts: seq<RipAction>)
    requires TopologyOk(t)
    ensures IsRipRun(t, s, acts) && Calm(acts)
    ensures RipFinal(t, s, acts) == if o then s.(earlier := multiset{}) else s.(recent := multiset{})
    decreases |s.earlier| + |s.recent|
  {
    acts := [];
    var wire := if o then s.earlier else s.recent;
    if wire == multiset{} {
      assert s == if o then s.(earlier := multiset{}) else s.(recent := multiset{});
    } else {
      var m :| m in wire;
      LoseOne(t, s, m, o);
      var rest := LoseAll(t, RipNext(t, s, Lose(m, o)), o);
      PrependRip(t, s, Lose(m, o), rest);
      acts := [Lose(m, o)] + rest;
    }
  }

  /** Send one full response and receive it. */
  lemma HearOneNow(t: Topology, s: RipState, a: IP) returns (m: Msg, s': RipState)
    requires TopologyOk(t) && Sound(t, s) && AllUp(t, s.tables) && a in t.owner && |s.tables[t.owner[a]]| <= MAX_ENTRIES
    ensures m.src == a && m.full && RipEnabled(t, s, Send(m)) && RipEnabled(t, RipNext(t, s, Send(m)), Receive(m, false))
    ensures s' == RipNext(t, RipNext(t, s, Send(m)), Receive(m, false)) && Sound(t, s') && AllUp(t, s'.tables)
    ensures s'.earlier == s.earlier
  {
    var u := t.owner[a];
    assert u in s.tables && TableSound(t, u, s.tables[u]) && t.owner[t.peer[a]] in s.tables;
    var es := MakeAdvert(s.tables[u], t.peer[a]);
    m := Msg(a, es, true);
    var s1 := RipNext(t, s, Send(m));
    SoundStep(t, s, Send(m));
    s' := RipNext(t, s1, Receive(m, false));
    SoundStep(t, s1, Receive(m, false));
  }

  /** A full response over each of the given interfaces, unless a table gets too long for it. */
  lemma {:induction false} HearAll(t: Topology, s: RipState, left: set<IP>) returns (acts: seq<RipAction>, done: bool)
    requires TopologyOk(t) && Sound(t, s) && AllUp(t, s.tables) && left <= t.owner.Keys
    ensures IsRipRun(t, s, acts) && Calm(acts) && RipFinal(t, s, acts).earlier == s.earlier
    ensures if done then left <= HeardBy(acts) else Oversized(t, RipFinal(t, s, acts))
    decreases |left|
  {
    acts, done := [], true;
    if left != {} {
      var a :| a in left;
      if |s.tables[t.owner[a]]| > MAX_ENTRIES {
        done := false;
      } else {
        var m, s' := HearOneNow(t, s, a);
        var rest, more := HearAll(t, s', left - {a});
        PrependRip(t, RipNext(t, s, Send(m)), Receive(m, false), rest);
        PrependRip(t, s, Send(m), [Receive(m, false)] + rest);
        acts, done := [Send(m)] + ([Receive(m, false)] + rest), more;
        HeardTwo(Send(m), Receive(m, false), rest);
        CalmTwo(Send(m), Receive(m, false), rest);
      }
    }
  }

  lemma CalmTwo(x: RipAction, y: RipAction, rest: seq<RipAction>)
    requires Quiet(x) && Quiet(y) && Calm(rest)
    ensures Calm([x] + ([y] + rest))
  {
  }

  lemma HeardTwo(x: RipAction, y: RipAction, rest: seq<RipAction>)
    ensures HeardBy([x] + ([y] + rest)) == HeardNow(x) + (HeardNow(y) + HeardBy(rest))
  {
    assert ([x] + ([y] + rest))[1..] == [y] + rest;
    assert ([y] + rest)[1..] == rest;
  }

  lemma NarrowIsNotOversized(t: Topology, s: RipState)
    requires TopologyOk(t) && Narrow(t) && Sound(t, s)
    ensures !Oversized(t, s)
  {
    forall a | a in t.owner && t.owner[a] in s.tables ensures |s.tables[t.owner[a]]| <= MAX_ENTRIES {
      NarrowTable(t, t.owner[a], s.tables[t.owner[a]]);
    }
  }

  // ----- rounds are possible in narrow networks -----------------------------------------------------------

  /** A full response over every interface. */
  lemma HearEverywhere(t: Topology, s: RipState) returns (acts: seq<RipAction>)
    requires TopologyOk(t) && Narrow(t) && Sound(t, s) && AllUp(t, s.tables)
    ensures IsRipRun(t, s, acts) && Calm(acts) && t.owner.Keys <= HeardBy(acts)
  {
    var done: bool;
    acts, done := HearAll(t, s, t.owner.Keys);
    RunStaysUp(t, s, acts);
    NarrowIsNotOversized(t, RipFinal(t, s, acts));
  }

  /** A round can follow from every sound state in which all programs run. */
  lemma RoundPossible(t: Topology, s: RipState) returns (r: RoundActs)
    requires TopologyOk(t) && Narrow(t) && Sound(t, s) && AllUp(t, s.tables)
    ensures IsRound(t, s, r)
  {
    var flush := LoseAll(t, Mark(s), true);
    RunStaysUp(t, Mark(s), flush);
    var s1 := Mark(RipFinal(t, Mark(s), flush));
    var hear := HearEverywhere(t, s1);
    r := RoundActs(flush, hear);
  }

  lemma RoundStaysUp(t: Topology, s: RipState, r: RoundActs)
    requires TopologyOk(t) && Sound(t, s) && AllUp(t, s.tables) && IsRound(t, s, r)
    ensures Sound(t, AfterRound(t, s, r)) && AllUp(t, AfterRound(t, s, r).tables)
  {
    RunStaysUp(t, Mark(s), r.flush);
    var s1 := RipFinal(t, Mark(s), r.flush);
    RunStaysUp(t, Mark(s1), r.hear);
  }

  lemma {:induction false} RoundsFrom(t: Topology, s: RipState, n: nat) returns (rs: seq<RoundActs>)
    requires TopologyOk(t) && Narrow(t) && Sound(t, s) && AllUp(t, s.tables)
    ensures |rs| == n && AreRounds(t, s, rs)
    decreases n
  {
    rs := [];
    if n > 0 {
      var r := RoundPossible(t, s);
      RoundStaysUp(t, s, r);
      var rest := RoundsFrom(t, AfterRound(t, s, r), n - 1);
      rs := [r] + rest;
      assert rs[1..] == rest;
    }
  }

  // ----- and in no others ----------------------------------------------------------------------------------

  lemma ExactTableSize(t: Topology, u: Node, tab: Table)
    requires TopologyOk(t) && TableSound(t, u, tab) && NodeExact(t, u, tab, INFINITY - 1)
    ensures |tab| == |Reach(t, u)|
  {
    ExactIsRight(t, u, tab, INFINITY - 1);
    assert tab.Keys == Reach(t, u);
    assert |tab| == |tab.Keys|;
  }

  /** Every fresh full response over interface a is too long. */
  ghost predicate TooLong(ms: multiset<Msg>, a: IP)
  {
    forall m :: m in ms && m.full && m.src == a ==> |m.entries| > MAX_ENTRIES
  }

  lemma TooLongStep(t: Topology, s: RipState, act: RipAction, a: IP)
    requires TopologyOk(t) && RipEnabled(t, s, act) && TooLong(s.recent, a) && a in t.owner
    requires t.owner[a] in s.tables && |s.tables[t.owner[a]]| > MAX_ENTRIES
    ensures TooLong(RipNext(t, s, act).recent, a) && a !in HeardNow(act)
  {
  }

  lemma {:induction false} NeverHeard(t: Topology, s: RipState, acts: seq<RipAction>, a: IP)
    requires TopologyOk(t) && Flushing(t, s, INFINITY - 1) && IsRipRun(t, s, acts) && Calm(acts)
    requires TooLong(s.recent, a) && a in t.owner && t.owner[a] in s.tables && |s.tables[t.owner[a]]| > MAX_ENTRIES
    ensures a !in HeardBy(acts)
    decreases |acts|
  {
    if acts != [] {
      TooLongStep(t, s, acts[0], a);
      ConvergedStep(t, s, acts[0]);
      FlushStep(t, s, acts[0], INFINITY - 1);
      NeverHeard(t, RipNext(t, s, acts[0]), acts[1..], a);
    }
  }

  lemma RoundNeedsNarrow(t: Topology, s: RipState, r: RoundActs)
    requires TopologyOk(t) && Settled(t, s, INFINITY - 1) && IsRound(t, s, r)
    ensures Narrow(t)
  {
    var s1 := RipFinal(t, Mark(s), r.flush);
    CalmKeeps(t, s, r.flush, INFINITY - 1);
    MarkFlushing(t, s1, INFINITY - 1);
    forall a | a in t.owner ensures |Reach(t, t.owner[a])| <= MAX_ENTRIES {
      var u := t.owner[a];
      assert u in s1.tables && TableSound(t, u, s1.tables[u]) && NodeExact(t, u, s1.tables[u], INFINITY - 1);
      ExactTableSize(t, u, s1.tables[u]);
      if |Reach(t, u)| > MAX_ENTRIES { NeverHeard(t, Mark(s1), r.hear, a); }
    }
  }

  lemma {:induction false} LastRound(t: Topology, s: RipState, rs: seq<RoundActs>, r: RoundActs)
    requires TopologyOk(t) && AreRounds(t, s, rs + [r])
    ensures AreRounds(t, s, rs) && IsRound(t, AfterRounds(t, s, rs), r)
    decreases |rs|
  {
    if rs == [] {
      assert rs + [r] == [r];
    } else {
      assert (rs + [r])[1..] == rs[1..] + [r];
      LastRound(t, AfterRound(t, s, rs[0]), rs[1..], r);
    }
  }

  ghost predicate CanTakePlace(t: Topology, s: RipState, n: nat)
    requires TopologyOk(t)
  {
    exists rs :: |rs| == n && AreRounds(t, s, rs)
  }

  /** Any number of rounds can take place from the start if and only if the network is narrow; where they can, the
      premise of the convergence and delivery theorems can be met. */
  lemma RoundsPossibleIff(t: Topology, s: RipState)
    requires TopologyOk(t) && Initial(t, s)
    ensures (forall n: nat :: CanTakePlace(t, s, n)) <==> Narrow(t)
  {
    if Narrow(t) {
      InitialSound(t, s);
      forall n: nat ensures CanTakePlace(t, s, n) { var rs := RoundsFrom(t, s, n); }
    }
    if CanTakePlace(t, s, INFINITY) { SixteenNeedNarrow(t, s); }
  }

  lemma SixteenNeedNarrow(t: Topology, s: RipState)
    requires TopologyOk(t) && Initial(t, s) && CanTakePlace(t, s, INFINITY)
    ensures Narrow(t)
  {
    var rs :| |rs| == INFINITY && AreRounds(t, s, rs);
    var first, r := rs[..INFINITY - 1], rs[INFINITY - 1];
    assert rs == first + [r];
    LastNeedsNarrow(t, s, first, r);
  }

  lemma LastNeedsNarrow(t: Topology, s: RipState, rs: seq<RoundActs>, r: RoundActs)
    requires TopologyOk(t) && Initial(t, s) && AreRounds(t, s, rs + [r]) && |rs| == INFINITY - 1
    ensures Narrow(t)
  {
    LastRound(t, s, rs, r);
    SettledAfter(t, s, rs);
    RoundNeedsNarrow(t, AfterRounds(t, s, rs), r);
  }

  lemma SettledAfter(t: Topology, s: RipState, rs: seq<RoundActs>)
    requires TopologyOk(t) && Initial(t, s) && AreRounds(t, s, rs) && |rs| == INFINITY - 1
    ensures Settled(t, AfterRounds(t, s, rs), INFINITY - 1)
  {
    InitialSettled(t, s);
    RoundsSettle(t, s, rs, 0, |rs|);
  }

  // ----- exits ------------------------------------------------------------------------------------------------

  /** Nothing is on the wire, nothing is wrong, and all programs run. */
  ghost predicate Clean(t: Topology, s: RipState)
    requires TopologyOk(t)
  {
    Sound(t, s) && AllUp(t, s.tables) && s.earlier == multiset{} && s.recent == multiset{}
  }

  lemma WholeRound(t: Topology, s: RipState, r: RoundActs)
    requires TopologyOk(t) && s.earlier == multiset{} && s.recent == multiset{} && r.flush == []
    requires IsRipRun(t, s, r.hear) && Calm(r.hear) && t.owner.Keys <= HeardBy(r.hear)
    ensures IsRound(t, s, r) && AfterRound(t, s, r) == RipFinal(t, s, r.hear)
  {
    assert Mark(s) == s;
    assert IsRipRun(t, s, []) && RipFinal(t, s, []) == s;
  }

  /** One round that leaves nothing on the wire, or a table that is too long. */
  lemma CleanPass(t: Topology, s: RipState) returns (acts: seq<RipAction>, done: bool)
    requires TopologyOk(t) && Clean(t, s)
    ensures IsRipRun(t, s, acts) && Calm(acts)
    ensures if done then Clean(t, RipFinal(t, s, acts)) && t.owner.Keys <= HeardBy(acts)
            else Oversized(t, RipFinal(t, s, acts))
  {
    acts, done := HearAll(t, s, t.owner.Keys);
    RunStaysUp(t, s, acts);
    if done {
      var f := RipFinal(t, s, acts);
      var lose := LoseAll(t, f, false);
      JoinRip(t, s, acts, lose);
      HeardJoin(acts, lose);
      CalmJoin(acts, lose);
      acts := acts + lose;
      RunStaysUp(t, s, acts);
    }
  }

  /** n rounds as one run, unless a table gets too long. */
  lemma {:induction false} CleanPasses(t: Topology, s: RipState, n: nat)
    returns (acts: seq<RipAction>, rs: seq<RoundActs>, done: bool)
    requires TopologyOk(t) && Clean(t, s)
    ensures IsRipRun(t, s, acts) && Calm(acts)
    ensures if done then |rs| == n && AreRounds(t, s, rs) && AfterRounds(t, s, rs) == RipFinal(t, s, acts)
            else Oversized(t, RipFinal(t, s, acts))
    decreases n
  {
    acts, rs, done := [], [], true;
    if n > 0 {
      acts, done := CleanPass(t, s);
      if done {
        var r := RoundActs([], acts);
        WholeRound(t, s, r);
        var more, rest, all := CleanPasses(t, RipFinal(t, s, acts), n - 1);
        JoinRip(t, s, acts, more);
        CalmJoin(acts, more);
        acts, rs, done := acts + more, [r] + rest, all;
        assert ([r] + rest)[1..] == rest;
      }
    }
  }

  ghost predicate ExitReachable(t: Topology, s: RipState)
    requires TopologyOk(t)
  {
    exists acts, m, o :: IsRipRun(t, s, acts) && RipEnabled(t, RipFinal(t, s, acts), Exit(m, o))
  }

  lemma OversizedExitsNow(t: Topology, f: RipState)
    requires TopologyOk(t) && Sound(t, f) && AllUp(t, f.tables) && Oversized(t, f)
    ensures ExitReachable(t, f)
  {
    var a :| a in t.owner && t.owner[a] in f.tables && |f.tables[t.owner[a]]| > MAX_ENTRIES;
    var two := LargeTableEndsNeighbor(t, f, a);
    FirstOfTwo(t, f, two);
  }

  lemma FirstOfTwo(t: Topology, f: RipState, two: seq<RipAction>)
    requires TopologyOk(t) && |two| == 2 && IsRipRun(t, f, two) && two[1].Exit?
    ensures ExitReachable(t, f)
  {
    var g := RipNext(t, f, two[0]);
    assert IsRipRun(t, g, []) && RipFinal(t, g, []) == g;
    PrependRip(t, f, two[0], []);
    assert two[1..][0] == two[1];
    assert RipEnabled(t, RipFinal(t, f, [two[0]] + []), Exit(two[1].m, two[1].fromOld));
  }

  lemma OversizedExits(t: Topology, s: RipState, acts: seq<RipAction>)
    requires TopologyOk(t) && Sound(t, s) && AllUp(t, s.tables) && IsRipRun(t, s, acts) && Calm(acts)
    requires Oversized(t, RipFinal(t, s, acts))
    ensures ExitReachable(t, s)
  {
    RunStaysUp(t, s, acts);
    OversizedExitsNow(t, RipFinal(t, s, acts));
    ExitAfter(t, s, acts);
  }

  lemma ExitAfter(t: Topology, s: RipState, acts: seq<RipAction>)
    requires TopologyOk(t) && IsRipRun(t, s, acts) && ExitReachable(t, RipFinal(t, s, acts))
    ensures ExitReachable(t, s)
  {
    var f := RipFinal(t, s, acts);
    var more, m, o :| IsRipRun(t, f, more) && RipEnabled(t, RipFinal(t, f, more), Exit(m, o));
    JoinRip(t, s, acts, more);
    assert RipEnabled(t, RipFinal(t, s, acts + more), Exit(m, o));
  }

  /** Some run from the start ends a program if and only if some node has more than 64 addresses within 15 hops. */
  lemma ExitReachableIff(t: Topology, s: RipState)
    requires TopologyOk(t) && Initial(t, s)
    ensures ExitReachable(t, s) <==> !Narrow(t)
  {
    InitialSound(t, s);
    if Narrow(t) {
      forall acts, m, o | IsRipRun(t, s, acts) ensures !RipEnabled(t, RipFinal(t, s, acts), Exit(m, o)) {
        NarrowNeverExits(t, s, acts, m, o);
      }
    } else {
      var acts, rs, done := CleanPasses(t, s, INFINITY - 1);
      if done { ConvergedOversized(t, s, rs); }
      OversizedExits(t, s, acts);
    }
  }

  lemma ConvergedOversized(t: Topology, s: RipState, rs: seq<RoundActs>)
    requires TopologyOk(t) && Initial(t, s) && AreRounds(t, s, rs) && |rs| == INFINITY - 1 && !Narrow(t)
    ensures Oversized(t, AfterRounds(t, s, rs))
  {
    var a :| a in t.owner && |Reach(t, t.owner[a])| > MAX_ENTRIES;
    SettledAfter(t, s, rs);
    var f, u := AfterRounds(t, s, rs), t.owner[a];
    assert u in f.tables && TableSound(t, u, f.tables[u]) && NodeExact(t, u, f.tables[u], INFINITY - 1);
    ExactTableSize(t, u, f.tables[u]);
  }
}
