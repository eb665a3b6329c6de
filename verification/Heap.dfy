/** The early-arrival queue: the sift procedures of Go's container/heap, as functions on a
    sequence, and the PriorityQueue whose items carry an Index field. */
module Heap {

  datatype Entry<T> = Entry(priority: int, value: T)

  // ----- the array layout ----------------------------------------------------

  function Parent(i: int): int
  {
    (i - 1) / 2
  }

  /** Min-heap order on Priority. */
  ghost predicate Ordered<T>(s: seq<Entry<T>>)
  {
    forall i :: 0 < i < |s| ==> s[Parent(i)].priority <= s[i].priority
  }

  /** Order everywhere, except that s[i] may be out of place with its parent and children. */
  ghost predicate OrderedAround<T>(s: seq<Entry<T>>, i: int)
    requires 0 <= i < |s|
  {
    && (forall k :: 0 < k < |s| && k != i && Parent(k) != i ==> s[Parent(k)].priority <= s[k].priority)
    && (i > 0 ==> forall c :: 0 < c < |s| && Parent(c) == i ==> s[Parent(i)].priority <= s[c].priority)
  }

  function Swapped<T>(s: seq<Entry<T>>, i: int, j: int): (r: seq<Entry<T>>)
    requires 0 <= i < |s| && 0 <= j < |s|
    ensures |r| == |s|
  {
    s[i := s[j]][j := s[i]]
  }

  // ----- sift up and sift down -----------------------------------------------

  function Up<T>(s: seq<Entry<T>>, j: int): (r: seq<Entry<T>>)
    requires 0 <= j < |s|
    ensures |r| == |s|
    decreases j
  {
    if j == 0 || s[Parent(j)].priority <= s[j].priority then s
    else Up(Swapped(s, Parent(j), j), Parent(j))
  }

  /** The child that down would swap with: the right one only when strictly smaller. */
  function SmallerChild<T>(s: seq<Entry<T>>, i: int): (c: int)
    requires 0 <= i && 2 * i + 1 < |s|
    ensures i < c < |s| && Parent(c) == i
    ensures forall d :: 0 < d < |s| && Parent(d) == i ==> s[c].priority <= s[d].priority
  {
    var l := 2 * i + 1;
    if l + 1 < |s| && s[l + 1].priority < s[l].priority then l + 1 else l
  }

  predicate DownMoves<T>(s: seq<Entry<T>>, i: int)
    requires 0 <= i < |s|
  {
    2 * i + 1 < |s| && s[SmallerChild(s, i)].priority < s[i].priority
  }

  function Down<T>(s: seq<Entry<T>>, i: int): (r: seq<Entry<T>>)
    requires 0 <= i < |s|
    ensures |r| == |s|
    decreases |s| - i
  {
    if DownMoves(s, i) then Down(Swapped(s, i, SmallerChild(s, i)), SmallerChild(s, i)) else s
  }

  lemma {:induction false} UpPermutes<T>(s: seq<Entry<T>>, j: int)
    requires 0 <= j < |s|
    ensures multiset(Up(s, j)) == multiset(s)
    decreases j
  {
    if j != 0 && s[j].priority < s[Parent(j)].priority {
      UpPermutes(Swapped(s, Parent(j), j), Parent(j));
    }
  }

  lemma {:induction false} DownPermutes<T>(s: seq<Entry<T>>, i: int)
    requires 0 <= i < |s|
    ensures multiset(Down(s, i)) == multiset(s)
    decreases |s| - i
  {
    if DownMoves(s, i) {
      DownPermutes(Swapped(s, i, SmallerChild(s, i)), SmallerChild(s, i));
    }
  }

  lemma {:induction false} UpOrders<T>(s: seq<Entry<T>>, j: int)
    requires 0 <= j < |s| && OrderedAround(s, j)
    requires forall c :: 0 < c < |s| && Parent(c) == j ==> s[j].priority <= s[c].priority
    ensures Ordered(Up(s, j))
    decreases j
  {
    if j != 0 && s[j].priority < s[Parent(j)].priority {
      UpOrders(Swapped(s, Parent(j), j), Parent(j));
    }
  }

  lemma {:induction false} DownOrders<T>(s: seq<Entry<T>>, i: int)
    requires 0 <= i < |s| && OrderedAround(s, i)
    requires i == 0 || s[Parent(i)].priority <= s[i].priority || DownMoves(s, i)
    ensures Ordered(Down(s, i))
    decreases |s| - i
  {
    if DownMoves(s, i) {
      DownOrders(Swapped(s, i, SmallerChild(s, i)), SmallerChild(s, i));
    }
  }

  // ----- push, pop, fix -------------------------------------------------------

  function Push<T>(s: seq<Entry<T>>, e: Entry<T>): (r: seq<Entry<T>>)
    ensures |r| == |s| + 1
  {
    Up(s + [e], |s|)
  }

  /** What is left after popping s[0]: the last entry moves to the root and sifts down. */
  function PopRest<T>(s: seq<Entry<T>>): (r: seq<Entry<T>>)
    requires |s| > 0
    ensures |r| == |s| - 1
  {
    var n := |s| - 1;
    if n == 0 then [] else Down(Swapped(s, 0, n)[..n], 0)
  }

  /** heap.Fix: sift down, and up only when down did not move the entry. */
  function Fix<T>(s: seq<Entry<T>>, i: int): (r: seq<Entry<T>>)
    requires 0 <= i < |s|
    ensures |r| == |s|
  {
    if DownMoves(s, i) then Down(s, i) else Up(s, i)
  }

  lemma PushOrders<T>(s: seq<Entry<T>>, e: Entry<T>)
    ensures multiset(Push(s, e)) == multiset(s) + multiset{e}
    ensures Ordered(s) ==> Ordered(Push(s, e))
  {
    UpPermutes(s + [e], |s|);
    if Ordered(s) { UpOrders(s + [e], |s|); }
  }

  lemma {:induction false} RootIsLeast<T>(s: seq<Entry<T>>, i: int)
    requires Ordered(s) && 0 <= i < |s|
    ensures s[0].priority <= s[i].priority
    decreases i
  {
    if i > 0 { RootIsLeast(s, Parent(i)); }
  }

  lemma PopPermutes<T>(s: seq<Entry<T>>)
    requires |s| > 0
    ensures multiset(PopRest(s)) == multiset(s) - multiset{s[0]}
  {
    var n := |s| - 1;
    var t := Swapped(s, 0, n);
    assert t == t[..n] + [s[0]];
    assert multiset(t) == multiset(s);
    if n > 0 { DownPermutes(t[..n], 0); }
  }

  /** Pop takes a least entry, keeps the order, and loses nothing else. */
  lemma PopOrders<T>(s: seq<Entry<T>>)
    requires |s| > 0 && Ordered(s)
    ensures multiset(PopRest(s)) == multiset(s) - multiset{s[0]}
    ensures Ordered(PopRest(s))
    ensures forall e :: e in s ==> s[0].priority <= e.priority
  {
    PopPermutes(s);
    PopKeepsOrder(s);
    forall e | e in s ensures s[0].priority <= e.priority {
      var i :| 0 <= i < |s| && s[i] == e;
      RootIsLeast(s, i);
    }
  }

  lemma PopKeepsOrder<T>(s: seq<Entry<T>>)
    requires |s| > 0 && Ordered(s)
    ensures Ordered(PopRest(s))
  {
    var n := |s| - 1;
    if n > 0 { DownOrders(Swapped(s, 0, n)[..n], 0); }
  }

  /** Changing one entry's priority arbitrarily and fixing restores the order. */
  lemma FixOrders<T>(s: seq<Entry<T>>, i: int, e: Entry<T>)
    requires 0 <= i < |s| && Ordered(s)
    ensures Ordered(Fix(s[i := e], i))
    ensures multiset(Fix(s[i := e], i)) == multiset(s) - multiset{s[i]} + multiset{e}
  {
    var t := s[i := e];
    assert OrderedAround(t, i) by {
      forall c | 0 < c < |t| && Parent(c) == i && i > 0
        ensures t[Parent(i)].priority <= t[c].priority
      {
        assert s[Parent(i)].priority <= s[i].priority <= s[c].priority;
      }
    }
    if DownMoves(t, i) {
      DownOrders(t, i);
      DownPermutes(t, i);
    } else {
      UpOrders(t, i);
      UpPermutes(t, i);
    }
  }

  // ----- draining sorts -------------------------------------------------------

  function Drained<T>(s: seq<Entry<T>>): seq<Entry<T>>
    decreases |s|
  {
    if s == [] then [] else [s[0]] + Drained(PopRest(s))
  }

  /** Draining loses and invents nothing. */
  lemma {:induction false} DrainedMultiset<T>(s: seq<Entry<T>>)
    ensures multiset(Drained(s)) == multiset(s)
    decreases |s|
  {
    if s != [] {
      DrainedMultiset(PopRest(s));
      PopPermutes(s);
      assert s[0] in multiset(s);
      assert Drained(s) == [s[0]] + Drained(PopRest(s));
    }
  }

  ghost predicate Sorted<T>(s: seq<Entry<T>>)
  {
    forall i, j :: 0 <= i <= j < |s| ==> s[i].priority <= s[j].priority
  }

  lemma SortedCons<T>(x: Entry<T>, whole: seq<Entry<T>>, d: seq<Entry<T>>)
    requires Sorted(d) && multiset(d) <= multiset(whole)
    requires forall e :: e in whole ==> x.priority <= e.priority
    ensures Sorted([x] + d)
  {
    forall j | 0 <= j < |d| ensures x.priority <= d[j].priority {
      assert d[j] in multiset(d);
      assert d[j] in multiset(whole);
    }
  }

  /** Popping until empty yields the entries in non-decreasing Priority. */
  lemma {:induction false} DrainedSorted<T>(s: seq<Entry<T>>)
    requires Ordered(s)
    ensures Sorted(Drained(s))
    decreases |s|
  {
    if s != [] {
      PopOrders(s);
      DrainedSorted(PopRest(s));
      DrainedMultiset(PopRest(s));
      SortedCons(s[0], s, Drained(PopRest(s)));
    }
  }
}
