/** The forwarding table and the RIP rules that change it: pkg/applications/rip/rip.go and the table
    part of pkg/network/network.go. */
module RipTable {
  import opened TcpTypes

  type IP = Word32

  const INFINITY: int := 16
  const MAX_ENTRIES := 64
  const STALE_AFTER: int := 12
  const FULL_MASK: Word32 := 0xffff_ffff

  datatype RipEntry = RipEntry(cost: Word32, dest: IP, mask: Word32)

  /** What forwarding needs of a table entry. */
  datatype Route = Route(next: IP, cost: int)

  type Table = map<IP, Route>

  // ----- the update rule -------------------------------------------------------------

  function NewCost(e: RipEntry): int
  {
    Add32(e.cost, 1)
  }

  /** The entry goes into the table and into the triggered update. */
  predicate Changes(tab: Table, src: IP, e: RipEntry)
  {
    NewCost(e) < INFINITY &&
    (e.dest !in tab || NewCost(e) < tab[e.dest].cost || (NewCost(e) > tab[e.dest].cost && tab[e.dest].next == src))
  }

  function Learn(tab: Table, src: IP, e: RipEntry): Table
  {
    if Changes(tab, src, e) then tab[e.dest := Route(src, NewCost(e))] else tab
  }

  function LearnAll(tab: Table, src: IP, es: seq<RipEntry>): Table
    decreases |es|
  {
    if es == [] then tab else LearnAll(Learn(tab, src, es[0]), src, es[1..])
  }

  function UpdatedBy(tab: Table, src: IP, e: RipEntry): seq<RipEntry>
  {
    if Changes(tab, src, e) then [e.(cost := NewCost(e))] else []
  }

  /** Entries of the triggered update. */
  function Updated(tab: Table, src: IP, es: seq<RipEntry>): seq<RipEntry>
    decreases |es|
  {
    if es == [] then []
    else UpdatedBy(tab, src, es[0]) + Updated(Learn(tab, src, es[0]), src, es[1..])
  }

  lemma Associate(a: seq<RipEntry>, b: seq<RipEntry>, c: seq<RipEntry>)
    ensures a + b + c == a + (b + c)
  {
  }

  lemma NextEntry(tab: Table, src: IP, es: seq<RipEntry>, i: int)
    requires 0 <= i < |es|
    ensures LearnAll(tab, src, es[i..]) == LearnAll(Learn(tab, src, es[i]), src, es[i + 1..])
    ensures Updated(tab, src, es[i..]) == UpdatedBy(tab, src, es[i]) + Updated(Learn(tab, src, es[i]), src, es[i + 1..])
  {
    assert es[i..][1..] == es[i + 1..];
  }

  // ----- what one response does to a table ---------------------------------------------

  /** Costs that a response may carry. */
  ghost predicate CostsOk(es: seq<RipEntry>)
  {
    forall i :: 0 <= i < |es| ==> es[i].cost <= 16
  }

  /** No address twice. */
  ghost predicate Distinct(es: seq<RipEntry>)
  {
    forall i, j :: 0 <= i < j < |es| ==> es[i].dest != es[j].dest
  }

  /** The entry says something of d, and d is still worth a route one hop further. */
  predicate Tells(e: RipEntry, d: IP)
  {
    e.dest == d && e.cost <= 14
  }

  ghost predicate SameAt(tab: Table, tab': Table, d: IP)
  {
    (d in tab' <==> d in tab) && (d in tab ==> tab'[d] == tab[d])
  }

  /** No route is removed, and one that changes leads to src from then on. */
  ghost predicate LeadsToSrc(tab: Table, tab': Table, src: IP)
  {
    forall d :: d in tab ==> d in tab' && (tab'[d] == tab[d] || tab'[d].next == src)
  }

  /** The last word of src on d: no route to d is dearer than through src, and one through src costs
      exactly one more than src says, be that better or worse than before. */
  ghost predicate Believed(tab': Table, src: IP, e: RipEntry)
  {
    e.dest in tab' && tab'[e.dest].cost <= e.cost + 1 && (tab'[e.dest].next == src ==> tab'[e.dest].cost == e.cost + 1)
  }

  ghost predicate Silent(es: seq<RipEntry>, d: IP)
  {
    forall i :: 0 <= i < |es| ==> !Tells(es[i], d)
  }

  ghost predicate LastWord(es: seq<RipEntry>, i: int)
  {
    0 <= i < |es| && es[i].cost <= 14 && Silent(es[i + 1..], es[i].dest)
  }

  /** What becomes of an address that a response names once. */
  ghost predicate Obeyed(tab: Table, tab': Table, src: IP, e: RipEntry)
  {
    if e.cost <= 14 && (e.dest !in tab || e.cost + 1 < tab[e.dest].cost || tab[e.dest].next == src)
    then e.dest in tab' && tab'[e.dest] == Route(src, e.cost + 1)
    else SameAt(tab, tab', e.dest)
  }

  /** The law of a response, with repeated entries or without: addresses it does not tell of keep their
      route, a route that changes leads to src, and the last word is believed. */
  ghost predicate Heeds(tab: Table, tab': Table, src: IP, es: seq<RipEntry>)
  {
    && LeadsToSrc(tab, tab', src)
    && (forall d :: Silent(es, d) ==> SameAt(tab, tab', d))
    && (forall i :: LastWord(es, i) ==> Believed(tab', src, es[i]))
  }

  /** The triggered update: each address whose route is new or different, once, at the cost it now has
      and with the mask it came with. */
  ghost predicate Announces(tab: Table, tab': Table, es: seq<RipEntry>, up: seq<RipEntry>)
  {
    && Distinct(up)
    && (forall k :: 0 <= k < |up| ==> up[k].dest in tab' && up[k].cost == tab'[up[k].dest].cost && !SameAt(tab, tab', up[k].dest))
    && (forall k :: 0 <= k < |up| ==> exists i :: 0 <= i < |es| && es[i].dest == up[k].dest && es[i].mask == up[k].mask)
    && (forall d :: d in tab' && !SameAt(tab, tab', d) ==> exists k :: 0 <= k < |up| && up[k].dest == d)
  }

  lemma {:induction false} LearnSplit(tab: Table, src: IP, xs: seq<RipEntry>, ys: seq<RipEntry>)
    ensures LearnAll(tab, src, xs + ys) == LearnAll(LearnAll(tab, src, xs), src, ys)
    decreases |xs|
  {
    if xs == [] {
      assert xs + ys == ys;
    } else {
      assert (xs + ys)[1..] == xs[1..] + ys;
      LearnSplit(Learn(tab, src, xs[0]), src, xs[1..], ys);
    }
  }

  lemma {:induction false} LearnLeads(tab: Table, src: IP, es: seq<RipEntry>)
    requires CostsOk(es)
    ensures LeadsToSrc(tab, LearnAll(tab, src, es), src)
    decreases |es|
  {
    if es != [] {
      LearnLeads(Learn(tab, src, es[0]), src, es[1..]);
    }
  }

  lemma {:induction false} LearnUntold(tab: Table, src: IP, es: seq<RipEntry>, d: IP)
    requires CostsOk(es) && Silent(es, d)
    ensures SameAt(tab, LearnAll(tab, src, es), d)
    decreases |es|
  {
    if es != [] {
      assert !Tells(es[0], d);
      LearnUntold(Learn(tab, src, es[0]), src, es[1..], d);
    }
  }

  /** The table at an address just before and just after its last entry. */
  lemma AroundEntry(tab: Table, src: IP, es: seq<RipEntry>, i: int)
    requires CostsOk(es) && 0 <= i < |es| && Silent(es[i + 1..], es[i].dest)
    ensures SameAt(Learn(LearnAll(tab, src, es[..i]), src, es[i]), LearnAll(tab, src, es), es[i].dest)
  {
    assert es == es[..i] + es[i..] && es[i..][1..] == es[i + 1..];
    LearnSplit(tab, src, es[..i], es[i..]);
    LearnUntold(Learn(LearnAll(tab, src, es[..i]), src, es[i]), src, es[i + 1..], es[i].dest);
  }

  lemma WordBelieved(tab: Table, src: IP, es: seq<RipEntry>, i: int)
    requires CostsOk(es) && LastWord(es, i)
    ensures Believed(LearnAll(tab, src, es), src, es[i])
  {
    AroundEntry(tab, src, es, i);
  }

  /** Every response is heeded. */
  lemma ResponseHeeded(tab: Table, src: IP, es: seq<RipEntry>)
    requires CostsOk(es)
    ensures Heeds(tab, LearnAll(tab, src, es), src, es)
  {
    LearnLeads(tab, src, es);
    forall d | Silent(es, d) ensures SameAt(tab, LearnAll(tab, src, es), d) { LearnUntold(tab, src, es, d); }
    forall i | LastWord(es, i) ensures Believed(LearnAll(tab, src, es), src, es[i]) { WordBelieved(tab, src, es, i); }
  }

  /** Where a response names an address once, the outcome is determined. */
  lemma EntryFollowed(tab: Table, src: IP, es: seq<RipEntry>, i: int)
    requires CostsOk(es) && Distinct(es) && 0 <= i < |es|
    ensures Obeyed(tab, LearnAll(tab, src, es), src, es[i])
  {
    AroundEntry(tab, src, es, i);
    LearnUntold(tab, src, es[..i], es[i].dest);
  }

  lemma {:induction false} UpdatedFrom(tab: Table, src: IP, es: seq<RipEntry>, k: int) returns (i: int)
    requires CostsOk(es) && 0 <= k < |Updated(tab, src, es)|
    ensures 0 <= i < |es| && Updated(tab, src, es)[k] == es[i].(cost := es[i].cost + 1) && es[i].cost <= 14
    ensures Distinct(es) ==> !SameAt(tab, LearnAll(tab, src, es), es[i].dest) && es[i].dest in LearnAll(tab, src, es)
    ensures Distinct(es) ==> LearnAll(tab, src, es)[es[i].dest].cost == es[i].cost + 1
    decreases |es|
  {
    var first := UpdatedBy(tab, src, es[0]);
    if k < |first| {
      i := 0;
      if Distinct(es) { EntryFollowed(tab, src, es, 0); }
    } else {
      var tab1 := Learn(tab, src, es[0]);
      i := UpdatedFrom(tab1, src, es[1..], k - |first|);
      assert Distinct(es) ==> es[0].dest != es[1..][i].dest;
      i := i + 1;
    }
  }

  lemma {:induction false} UpdatedDistinct(tab: Table, src: IP, es: seq<RipEntry>)
    requires CostsOk(es) && Distinct(es)
    ensures Distinct(Updated(tab, src, es))
    decreases |es|
  {
    if es != [] {
      var tab1 := Learn(tab, src, es[0]);
      var rest := Updated(tab1, src, es[1..]);
      UpdatedDistinct(tab1, src, es[1..]);
      forall k | 0 <= k < |rest| ensures rest[k].dest != es[0].dest {
        var i := UpdatedFrom(tab1, src, es[1..], k);
        assert es[1..][i] == es[i + 1];
      }
    }
  }

  lemma {:induction false} UpdatedCovers(tab: Table, src: IP, es: seq<RipEntry>, d: IP) returns (k: int)
    requires CostsOk(es) && d in LearnAll(tab, src, es) && !SameAt(tab, LearnAll(tab, src, es), d)
    ensures 0 <= k < |Updated(tab, src, es)| && Updated(tab, src, es)[k].dest == d
    decreases |es|
  {
    if Changes(tab, src, es[0]) && es[0].dest == d {
      k := 0;
    } else {
      var tab1 := Learn(tab, src, es[0]);
      assert SameAt(tab, tab1, d);
      k := UpdatedCovers(tab1, src, es[1..], d);
      k := k + |UpdatedBy(tab, src, es[0])|;
    }
  }

  /** The triggered update names exactly the addresses whose route changed. */
  lemma UpdateAnnounces(tab: Table, src: IP, es: seq<RipEntry>)
    requires CostsOk(es) && Distinct(es)
    ensures Announces(tab, LearnAll(tab, src, es), es, Updated(tab, src, es))
  {
    var tab' := LearnAll(tab, src, es);
    var up := Updated(tab, src, es);
    UpdatedDistinct(tab, src, es);
    forall k | 0 <= k < |up|
      ensures up[k].dest in tab' && up[k].cost == tab'[up[k].dest].cost && !SameAt(tab, tab', up[k].dest)
      ensures exists i :: 0 <= i < |es| && es[i].dest == up[k].dest && es[i].mask == up[k].mask
    {
      var i := UpdatedFrom(tab, src, es, k);
    }
    forall d | d in tab' && !SameAt(tab, tab', d) ensures exists k :: 0 <= k < |up| && up[k].dest == d {
      var k := UpdatedCovers(tab, src, es, d);
    }
  }

  lemma ResponseLaws(tab: Table, src: IP, es: seq<RipEntry>)
    requires CostsOk(es)
    ensures Heeds(tab, LearnAll(tab, src, es), src, es)
    ensures Distinct(es) ==> forall i :: 0 <= i < |es| ==> Obeyed(tab, LearnAll(tab, src, es), src, es[i])
    ensures Distinct(es) ==> Announces(tab, LearnAll(tab, src, es), es, Updated(tab, src, es))
  {
    ResponseHeeded(tab, src, es);
    if Distinct(es) {
      UpdateAnnounces(tab, src, es);
      forall i | 0 <= i < |es| ensures Obeyed(tab, LearnAll(tab, src, es), src, es[i]) { EntryFollowed(tab, src, es, i); }
    }
  }

  // ----- poisoned reverse --------------------------------------------------------------

  function AdvertCost(r: Route, neighbor: IP): int
  {
    if r.next == neighbor then INFINITY else r.cost
  }

  /** A full response to a neighbor: every table entry once, in any order. */
  ghost predicate IsAdvert(es: seq<RipEntry>, tab: Table, neighbor: IP)
  {
    && |es| == |tab|
    && (forall i :: 0 <= i < |es| ==> es[i].dest in tab && es[i].cost == AdvertCost(tab[es[i].dest], neighbor))
    && (forall d :: d in tab ==> exists i :: 0 <= i < |es| && es[i].dest == d)
  }

  // ----- the table as the program keeps it ------------------------------------------------

  datatype FwdTableEntry = FwdTableEntry(next: IP, cost: Word32, updated: int, mask: Word32)

  ghost function Routes(m: map<IP, FwdTableEntry>): Table
  {
    map d | d in m :: Route(m[d].next, m[d].cost)
  }

  /** Stale or unreachable at time `now`. */
  predicate Expired(e: FwdTableEntry, now: int)
  {
    now - e.updated > STALE_AFTER || e.cost >= INFINITY
  }

  /** Entries that differ were written at `now` for that one address and lead to src; none were removed. */
  ghost predicate ChangedBy(m: map<IP, FwdTableEntry>, m': map<IP, FwdTableEntry>, src: IP, now: int)
  {
    && m.Keys <= m'.Keys
    && forall d :: d in m' ==> (d in m && m'[d] == m[d]) || (m'[d].updated == now && m'[d].next == src && m'[d].mask == 0xffff_ffff)
  }

  /** A finite cost heard from a route's own next hop, at any cost, has renewed the route. */
  ghost predicate RenewedBy(m: map<IP, FwdTableEntry>, e: RipEntry, src: IP, now: int)
  {
    e.cost <= 14 ==> e.dest in m && (m[e.dest].next == src ==> m[e.dest].updated == now)
  }

  lemma ChangedByTrans(m0: map<IP, FwdTableEntry>, m1: map<IP, FwdTableEntry>, m2: map<IP, FwdTableEntry>, src: IP, now: int)
    requires ChangedBy(m0, m1, src, now) && ChangedBy(m1, m2, src, now)
    ensures ChangedBy(m0, m2, src, now)
  {
  }

  class FwdTable {
    var entryMap: map<IP, FwdTableEntry>

    /** InitSafe: a self entry of cost 0 for each own address. */
    constructor (own: seq<IP>, now: int)
      ensures forall d :: d in entryMap <==> d in own
      ensures forall d :: d in own ==> entryMap[d].next == d && entryMap[d].cost == 0 && entryMap[d].updated == now + 48 * 3600
      ensures forall d :: d in own ==> entryMap[d].mask == 0xffff_ffff
    {
      var m: map<IP, FwdTableEntry> := map[];
      for i := 0 to |own|
        invariant forall d :: d in m <==> d in own[..i]
        invariant forall d :: d in m ==> m[d].next == d && m[d].cost == 0 && m[d].updated == now + 48 * 3600 && m[d].mask == 0xffff_ffff
      {
        m := m[own[i] := FwdTableEntry(own[i], 0, now + 48 * 3600, FULL_MASK)];
      }
      entryMap := m;
    }

    /** The response branch of RIPHandler: the table after all entries, and the triggered update. */
    method HandleResponse(src: IP, es: seq<RipEntry>, now: int) returns (updated: seq<RipEntry>)
      requires CostsOk(es)
      modifies this
      ensures Routes(entryMap) == LearnAll(old(Routes(entryMap)), src, es)
      ensures updated == Updated(old(Routes(entryMap)), src, es)
      ensures Heeds(old(Routes(entryMap)), Routes(entryMap), src, es)
      ensures Distinct(es) ==> forall i :: 0 <= i < |es| ==> Obeyed(old(Routes(entryMap)), Routes(entryMap), src, es[i])
      ensures Distinct(es) ==> Announces(old(Routes(entryMap)), Routes(entryMap), es, updated)
      ensures ChangedBy(old(entryMap), entryMap, src, now)
      ensures forall i :: 0 <= i < |es| ==> RenewedBy(entryMap, es[i], src, now)
    {
      updated := [];
      for i := 0 to |es|
        invariant LearnAll(Routes(entryMap), src, es[i..]) == LearnAll(old(Routes(entryMap)), src, es)
        invariant updated + Updated(Routes(entryMap), src, es[i..]) == Updated(old(Routes(entryMap)), src, es)
        invariant ChangedBy(old(entryMap), entryMap, src, now)
        invariant forall k :: 0 <= k < i ==> RenewedBy(entryMap, es[k], src, now)
      {
        ghost var before := entryMap;
        var up := HandleEntry(src, es[i], now);
        ChangedByTrans(old(entryMap), before, entryMap, src, now);
        NextEntry(Routes(before), src, es, i);
        Associate(updated, up, Updated(Routes(entryMap), src, es[i + 1..]));
        updated := updated + up;
      }
      ResponseLaws(old(Routes(entryMap)), src, es);
    }

    /** One round of that loop, and what it adds to the triggered update. */
    method HandleEntry(src: IP, e: RipEntry, now: int) returns (up: seq<RipEntry>)
      requires e.cost <= INFINITY
      modifies this
      ensures up == UpdatedBy(old(Routes(entryMap)), src, e)
      ensures Routes(entryMap) == Learn(old(Routes(entryMap)), src, e)
      ensures ChangedBy(old(entryMap), entryMap, src, now) && RenewedBy(entryMap, e, src, now)
    {
      var newCost := e.cost + 1;
      if newCost >= INFINITY { return []; }
      var entry := FwdTableEntry(src, newCost, now, FULL_MASK);
      var trigUpdate := RipEntry(newCost, e.dest, e.mask);
      up := [];
      if e.dest !in entryMap {
        entryMap, up := entryMap[e.dest := entry], [trigUpdate];
      } else {
        var current := entryMap[e.dest];
        if newCost < current.cost {
          entryMap, up := entryMap[e.dest := entry], [trigUpdate];
        } else if newCost > current.cost && src == current.next {
          entryMap, up := entryMap[e.dest := entry], [trigUpdate];
        } else if newCost == current.cost && current.next == src {
          entryMap := entryMap[e.dest := entry];
        }
      }
    }

    /** SendRIPResponse: the table with the routes through the neighbor poisoned. */
    method BuildResponse(neighbor: IP) returns (es: seq<RipEntry>)
      ensures IsAdvert(es, Routes(entryMap), neighbor)
      ensures forall i :: 0 <= i < |es| ==> var e := entryMap[es[i].dest];
                es[i].mask == e.mask && es[i].cost == if e.next == neighbor then 16 else e.cost
    {
      es := [];
      var left := entryMap.Keys;
      while left != {}
        invariant left <= entryMap.Keys && |es| + |left| == |entryMap|
        invariant forall i :: 0 <= i < |es| ==>
                    es[i].dest in entryMap && es[i].cost == AdvertCost(Routes(entryMap)[es[i].dest], neighbor)
                    && es[i].mask == entryMap[es[i].dest].mask
        invariant forall d :: d in entryMap && d !in left ==> exists i :: 0 <= i < |es| && es[i].dest == d
        decreases |left|
      {
        var d :| d in left;
        var fwdEntry := entryMap[d];
        var cost := fwdEntry.cost;
        if fwdEntry.next == neighbor { cost := INFINITY; }
        ghost var before := es;
        es := es + [RipEntry(cost, d, fwdEntry.mask)];
        left := left - {d};
        forall k | k in entryMap && k !in left ensures exists i :: 0 <= i < |es| && es[i].dest == k {
          if k == d {
            assert es[|before|].dest == k;
          } else {
            var i :| 0 <= i < |before| && before[i].dest == k;
            assert es[i].dest == k;
          }
        }
      }
      assert Routes(entryMap).Keys == entryMap.Keys;
    }

    /** PeriodicExpiry: exactly the expired entries go. */
    method Expire(now: int)
      modifies this
      ensures forall d :: d in entryMap <==> d in old(entryMap) && now - old(entryMap)[d].updated <= 12 && old(entryMap)[d].cost < 16
      ensures forall d :: d in entryMap ==> entryMap[d] == old(entryMap)[d]
    {
      var toDelete: set<IP> := {};
      var left := entryMap.Keys;
      while left != {}
        invariant left <= entryMap.Keys
        invariant forall d :: d in toDelete <==> d in entryMap && d !in left && Expired(entryMap[d], now)
        invariant entryMap == old(entryMap)
        decreases |left|
      {
        var d :| d in left;
        if Expired(entryMap[d], now) { toDelete := toDelete + {d}; }
        left := left - {d};
      }
      entryMap := entryMap - toDelete;
    }
  }
}
