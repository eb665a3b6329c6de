/** What the tables of a running network owe to the messages received: every route through a neighbor
    costs one more than what that neighbor last said. */
module RipHeard {
  import opened RipTable
  import opened RipNetwork

  // ----- no message names an address twice ----------------------------------------------------

  function Dests(es: seq<RipEntry>): set<IP>
  {
    set i | 0 <= i < |es| :: es[i].dest
  }

  lemma {:induction false} DestsBound(es: seq<RipEntry>)
    ensures |Dests(es)| <= |es|
  {
    if es != [] {
      DestsBound(es[1..]);
      var rest := Dests(es[1..]);
      assert Dests(es) == rest + {es[0].dest} by {
        forall d | d in Dests(es) ensures d in rest + {es[0].dest} {
          var i :| 0 <= i < |es| && es[i].dest == d;
          if i > 0 { assert es[1..][i - 1].dest == d; }
        }
        forall d | d in rest ensures d in Dests(es) {
          var i :| 0 <= i < |es[1..]| && es[1..][i].dest == d;
          assert es[i + 1].dest == d;
        }
      }
    }
  }

  /** An address named twice leaves fewer addresses than entries. */
  lemma RepeatShrinks(es: seq<RipEntry>, i: int, j: int)
    requires 0 <= i < j < |es| && es[i].dest == es[j].dest
    ensures |Dests(es)| < |es|
  {
    var rest := es[..j] + es[j + 1..];
    assert Dests(es) == Dests(rest) by {
      forall d | d in Dests(es) ensures d in Dests(rest) {
        var k :| 0 <= k < |es| && es[k].dest == d;
        assert rest[if k == j then i else if k < j then k else k - 1].dest == d;
      }
      forall d | d in Dests(rest) ensures d in Dests(es) {
        var k :| 0 <= k < |rest| && rest[k].dest == d;
        assert es[if k < j then k else k + 1].dest == d;
      }
    }
    DestsBound(rest);
  }

  lemma AdvertDistinct(es: seq<RipEntry>, tab: Table, neighbor: IP)
    requires IsAdvert(es, tab, neighbor)
    ensures Distinct(es)
  {
    assert Dests(es) == tab.Keys;
    forall i, j | 0 <= i < j < |es| ensures es[i].dest != es[j].dest {
      if es[i].dest == es[j].dest { RepeatShrinks(es, i, j); }
    }
  }

  ghost predicate Orderly(s: RipState)
  {
    forall m :: m in s.earlier || m in s.recent ==> Distinct(m.entries)
  }

  lemma OrderlyStep(t: Topology, s: RipState, act: RipAction)
    requires TopologyOk(t) && Sound(t, s) && RipEnabled(t, s, act) && Orderly(s)
    ensures Orderly(RipNext(t, s, act))
  {
    if act.Send? {
      AdvertDistinct(act.m.entries, s.tables[t.owner[act.m.src]], t.peer[act.m.src]);
    } else if act.Receive? {
      var m := act.m;
      SoundCosts(t, m);
      assert Distinct(m.entries);
      UpdatedDistinct(s.tables[t.owner[t.peer[m.src]]], m.src, m.entries);
    }
  }

  lemma SoundCosts(t: Topology, m: Msg)
    requires TopologyOk(t) && MsgSound(t, m)
    ensures CostsOk(m.entries)
  {
    forall i | 0 <= i < |m.entries| ensures m.entries[i].cost <= 16 {
      assert EntrySound(t, t.owner[m.src], m.entries[i]);
    }
  }

  lemma {:induction false} OrderlyRun(t: Topology, s: RipState, acts: seq<RipAction>)
    requires TopologyOk(t) && Sound(t, s) && Orderly(s) && IsRipRun(t, s, acts)
    ensures Orderly(RipFinal(t, s, acts)) && Sound(t, RipFinal(t, s, acts))
    decreases |acts|
  {
    if acts != [] {
      OrderlyStep(t, s, acts[0]);
      SoundStep(t, s, acts[0]);
      OrderlyRun(t, RipNext(t, s, acts[0]), acts[1..]);
    }
  }

  // ----- every reception, in every run ----------------------------------------------------------

  /** From s0 to s1 node u has received m, and `up` is what it then tells its other neighbors. */
  ghost predicate Received(t: Topology, s0: RipState, s1: RipState, u: Node, m: Msg, up: seq<RipEntry>)
    requires t.owner.Keys == t.peer.Keys
  {
    && u in s0.tables && u in s1.tables && s1.tables == s0.tables[u := s1.tables[u]]
    && Heeds(s0.tables[u], s1.tables[u], m.src, m.entries)
    && (forall i :: 0 <= i < |m.entries| ==> Obeyed(s0.tables[u], s1.tables[u], m.src, m.entries[i]))
    && Announces(s0.tables[u], s1.tables[u], m.entries, up)
    && (forall a :: a in t.owner && t.owner[a] == u && t.peer[a] != m.src ==> Msg(a, up, false) in s1.recent)
  }

  lemma ReceptionStep(t: Topology, s: RipState, m: Msg, o: bool, u: Node) returns (up: seq<RipEntry>)
    requires TopologyOk(t) && RipEnabled(t, s, Receive(m, o)) && CostsOk(m.entries) && Distinct(m.entries)
    requires u == t.owner[t.peer[m.src]]
    ensures Received(t, s, RipNext(t, s, Receive(m, o)), u, m, up)
  {
    var tab := s.tables[u];
    ResponseLaws(tab, m.src, m.entries);
    up := Updated(tab, m.src, m.entries);
    forall a | a in t.owner && t.owner[a] == u && t.peer[a] != m.src
      ensures Msg(a, up, false) in RipNext(t, s, Receive(m, o)).recent
    {
      assert Msg(a, up, false) in Triggered(t, u, m.src, up);
    }
  }

  /** In every run, any response that arrives is heeded as it is: each address in it, named once, gets the
      route through the sender exactly if it had none, a dearer one, or one through that sender; all
      other routes stay. The same triggered update goes to every other neighbor, and it names exactly the
      addresses whose route changed, at their new cost. */
  lemma ReceptionLaw(t: Topology, s: RipState, acts: seq<RipAction>, m: Msg, o: bool) returns (up: seq<RipEntry>)
    requires TopologyOk(t) && Initial(t, s) && IsRipRun(t, s, acts)
    requires RipEnabled(t, RipFinal(t, s, acts), Receive(m, o))
    ensures Distinct(m.entries) && CostsOk(m.entries)
    ensures Received(t, RipFinal(t, s, acts), RipNext(t, RipFinal(t, s, acts), Receive(m, o)), t.owner[t.peer[m.src]], m, up)
  {
    InitialSound(t, s);
    OrderlyRun(t, s, acts);
    assert MsgSound(t, m);
    SoundCosts(t, m);
    up := ReceptionStep(t, RipFinal(t, s, acts), m, o, t.owner[t.peer[m.src]]);
  }

  // ----- the last word over a whole run -----------------------------------------------------------

  /** The last finite cost for d in a response, or what was known before. */
  function LastCost(es: seq<RipEntry>, d: IP, before: int): int
    decreases |es|
  {
    if es == [] then before
    else LastCost(es[1..], d, if es[0].dest == d && es[0].cost <= 14 then es[0].cost else before)
  }

  /** The last finite cost for d that interface address src has told its peer, or what was known before. */
  function Heard(acts: seq<RipAction>, src: IP, d: IP, before: int): int
    decreases |acts|
  {
    if acts == [] then before
    else Heard(acts[1..], src, d,
               if acts[0].Receive? && acts[0].m.src == src then LastCost(acts[0].m.entries, d, before) else before)
  }

  /** A route through src costs one more than `told`; -1 is for nothing told. */
  ghost predicate CostsAsTold(tab: Table, src: IP, d: IP, told: int)
  {
    d in tab && tab[d].next == src ==> told >= 0 && tab[d].cost == told + 1
  }

  lemma {:induction false} LearnAsTold(tab: Table, src: IP, es: seq<RipEntry>, d: IP, told: int)
    requires CostsOk(es) && CostsAsTold(tab, src, d, told)
    ensures CostsAsTold(LearnAll(tab, src, es), src, d, LastCost(es, d, told))
    decreases |es|
  {
    if es != [] {
      LearnAsTold(Learn(tab, src, es[0]), src, es[1..], d,
                  if es[0].dest == d && es[0].cost <= 14 then es[0].cost else told);
    }
  }

  lemma LearnElsewhere(tab: Table, src: IP, es: seq<RipEntry>, other: IP, d: IP, told: int)
    requires CostsOk(es) && CostsAsTold(tab, src, d, told) && other != src
    ensures CostsAsTold(LearnAll(tab, other, es), src, d, told)
  {
    if d in tab { LearnLeads(tab, other, es); } else { NewLeads(tab, other, es, d); }
  }

  lemma {:induction false} NewLeads(tab: Table, src: IP, es: seq<RipEntry>, d: IP)
    requires d !in tab
    ensures d in LearnAll(tab, src, es) ==> LearnAll(tab, src, es)[d].next == src
    decreases |es|
  {
    if es != [] {
      var tab1 := Learn(tab, src, es[0]);
      if d in tab1 { LearnAllKeepsNext(tab1, src, es[1..], d); } else { NewLeads(tab1, src, es[1..], d); }
    }
  }

  ghost predicate NodeAsTold(s: RipState, u: Node, src: IP, d: IP, told: int)
  {
    u in s.tables ==> CostsAsTold(s.tables[u], src, d, told)
  }

  lemma ToldStep(t: Topology, s: RipState, act: RipAction, src: IP, d: IP, told: int)
    requires TopologyOk(t) && Sound(t, s) && RipEnabled(t, s, act) && src in t.owner
    requires NodeAsTold(s, t.owner[t.peer[src]], src, d, told)
    ensures NodeAsTold(RipNext(t, s, act), t.owner[t.peer[src]], src, d,
              if act.Receive? && act.m.src == src then LastCost(act.m.entries, d, told) else told)
  {
    var u := t.owner[t.peer[src]];
    if act.Receive? {
      var m := act.m;
      assert MsgSound(t, m);
      SoundCosts(t, m);
      if m.src == src {
        LearnAsTold(s.tables[u], src, m.entries, d, told);
      } else if t.owner[t.peer[m.src]] == u {
        LearnElsewhere(s.tables[u], src, m.entries, m.src, d, told);
      }
    }
  }

  lemma {:induction false} ToldRun(t: Topology, s: RipState, acts: seq<RipAction>, src: IP, d: IP, told: int)
    requires TopologyOk(t) && Sound(t, s) && IsRipRun(t, s, acts) && src in t.owner
    requires NodeAsTold(s, t.owner[t.peer[src]], src, d, told)
    ensures NodeAsTold(RipFinal(t, s, acts), t.owner[t.peer[src]], src, d, Heard(acts, src, d, told))
    decreases |acts|
  {
    if acts != [] {
      SoundStep(t, s, acts[0]);
      ToldStep(t, s, acts[0], src, d, told);
      ToldRun(t, RipNext(t, s, acts[0]), acts[1..], src, d,
              if acts[0].Receive? && acts[0].m.src == src then LastCost(acts[0].m.entries, d, told) else told);
    }
  }

  /** In every reachable state, whatever was lost, duplicated, reordered or expired on the way, a route
      through a neighbor costs exactly one more than the last finite cost received from that neighbor:
      bad news is believed as good news is. */
  lemma RoutesCostAsLastHeard(t: Topology, s: RipState, acts: seq<RipAction>, src: IP, d: IP)
    requires TopologyOk(t) && Initial(t, s) && IsRipRun(t, s, acts) && src in t.owner
    requires var u := t.owner[t.peer[src]]; var s' := RipFinal(t, s, acts);
             u in s'.tables && d in s'.tables[u] && s'.tables[u][d].next == src
    ensures Heard(acts, src, d, -1) >= 0
    ensures RipFinal(t, s, acts).tables[t.owner[t.peer[src]]][d].cost == Heard(acts, src, d, -1) + 1
  {
    InitialSound(t, s);
    ToldRun(t, s, acts, src, d, -1);
  }
}
