/** pkg/applications/tcp/heap.go: the slice of items with Index fields, driven by the
    sift loops of container/heap, proved against the functions of module Heap. */
module PriorityQueues {
  import opened Heap

  class TcpPacketItem<T> {
    var value: T
    var priority: int
    var index: int

    constructor (value: T, priority: int)
      ensures this.value == value && this.priority == priority && index == -1
    {
      this.value, this.priority, this.index := value, priority, -1;
    }

    ghost function View(): Entry<T>
      reads this`priority, this`value
    {
      Entry(priority, value)
    }
  }

  ghost function Views<T>(items: seq<TcpPacketItem<T>>): (r: seq<Entry<T>>)
    reads items
  {
    seq(|items|, i requires 0 <= i < |items| reads items => items[i].View())
  }

  class PriorityQueue<T> {
    var items: seq<TcpPacketItem<T>>
    ghost var members: set<TcpPacketItem<T>>

    /** No item twice, and pq[i].Index == i. */
    ghost predicate Valid()
      reads this, members
    {
      && (forall i :: 0 <= i < |items| ==> items[i] in members && items[i].index == i)
      && (forall x :: x in members ==> 0 <= x.index < |items| && items[x.index] == x)
    }

    ghost function Contents(): seq<Entry<T>>
      requires Valid()
      reads this, members
    {
      Views(items)
    }

    constructor ()
      ensures Valid() && items == [] && Contents() == []
    {
      items, members := [], {};
    }

    method Swap(i: int, j: int)
      requires Valid() && 0 <= i < |items| && 0 <= j < |items|
      modifies this`items, members`index
      ensures Valid()
      ensures items == old(items)[i := old(items[j])][j := old(items[i])]
      ensures Contents() == Swapped(old(Contents()), i, j)
    {
      items := items[i := items[j]][j := items[i]];
      items[i].index := i;
      items[j].index := j;
    }

    method SiftUp(j0: int)
      requires Valid() && 0 <= j0 < |items|
      modifies this`items, members`index
      ensures Valid()
      ensures Contents() == Up(old(Contents()), j0)
    {
      var j := j0;
      while j != 0 && items[j].priority < items[Parent(j)].priority
        invariant 0 <= j < |items| && Valid()
        invariant Up(Contents(), j) == Up(old(Contents()), j0)
        decreases j
      {
        ghost var before := Contents();
        var i := Parent(j);
        Swap(i, j);
        assert Up(before, j) == Up(Contents(), i);
        j := i;
      }
    }

    method SwapWithin(i: int, j: int, n: int)
      requires Valid() && 0 <= i < n <= |items| && 0 <= j < n
      modifies this`items, members`index
      ensures Valid() && |items| == old(|items|) && items[n..] == old(items[n..])
      ensures Views(items[..n]) == Swapped(old(Views(items[..n])), i, j)
    {
      Swap(i, j);
    }

    /** One look of down at i: the child to swap with, or n when the loop stops here. */
    method ChildToSwap(i: int, n: int) returns (c: int)
      requires Valid() && 0 <= i < n <= |items|
      ensures i < c <= n
      ensures c < n <==> DownMoves(Views(items[..n]), i)
      ensures c < n ==> c == SmallerChild(Views(items[..n]), i)
    {
      var l := 2 * i + 1;
      if l >= n { return n; }
      c := l;
      if l + 1 < n && items[l + 1].priority < items[l].priority { c := l + 1; }
      assert c == SmallerChild(Views(items[..n]), i);
      if items[i].priority <= items[c].priority { c := n; }
    }

    /** One turn of the loop of down: swap i with its child c and look again from there. */
    method SinkOnce(i: int, c: int, n: int) returns (c': int)
      requires Valid() && 0 <= i < c < n <= |items|
      requires DownMoves(Views(items[..n]), i) && c == SmallerChild(Views(items[..n]), i)
      modifies this`items, members`index
      ensures Valid() && |items| == old(|items|) && items[n..] == old(items[n..])
      ensures Down(Views(items[..n]), c) == Down(old(Views(items[..n])), i)
      ensures c < c' <= n && (c' < n <==> DownMoves(Views(items[..n]), c))
      ensures c' < n ==> c' == SmallerChild(Views(items[..n]), c)
    {
      SwapWithin(i, c, n);
      c' := ChildToSwap(c, n);
    }

    /** down(h, i0, n): sifts within items[..n] and says whether it moved anything. */
    method SiftDown(i0: int, n: int) returns (moved: bool)
      requires Valid() && 0 <= i0 < n <= |items|
      modifies this`items, members`index
      ensures Valid()
      ensures |items| == old(|items|) && items[n..] == old(items[n..])
      ensures Views(items[..n]) == Down(old(Views(items[..n])), i0)
      ensures moved == DownMoves(old(Views(items[..n])), i0)
    {
      ghost var sunk := Down(Views(items[..n]), i0);
      var i := i0;
      var c := ChildToSwap(i, n);
      moved := c < n;
      while c < n
        invariant 0 <= i < c <= n <= |items| == old(|items|) && Valid()
        invariant items[n..] == old(items[n..])
        invariant c < n <==> DownMoves(Views(items[..n]), i)
        invariant c < n ==> c == SmallerChild(Views(items[..n]), i)
        invariant Down(Views(items[..n]), i) == sunk
        decreases n - i
      {
        var next := SinkOnce(i, c, n);
        i, c := c, next;
      }
    }

    /** heap.Push: append, set the Index, sift up. */
    method HeapPush(x: TcpPacketItem<T>)
      requires Valid() && x !in members
      modifies this, members`index, x`index
      ensures Valid() && members == old(members) + {x}
      ensures Contents() == Push(old(Contents()), x.View())
    {
      ghost var before := Contents();
      x.index := |items|;
      items, members := items + [x], members + {x};
      assert Contents() == before + [x.View()];
      SiftUp(|items| - 1);
    }

    /** Pop: cut the last item off the slice. */
    method Pop() returns (x: TcpPacketItem<T>)
      requires Valid() && |items| > 0
      modifies this, members`index
      ensures x == old(items[|items| - 1]) && x.index == -1
      ensures Valid() && items == old(items[..|items| - 1]) && members == old(members) - {x}
      ensures Contents() == old(Views(items[..|items| - 1]))
    {
      var n := |items| - 1;
      x := items[n];
      items, members := items[..n], members - {x};
      x.index := -1;
    }

    /** Swap root and last item, then sift down the new root among the others. */
    method SiftRoot(n: int)
      requires Valid() && 0 <= n == |items| - 1
      modifies this`items, members`index
      ensures Valid() && |items| == n + 1 && items[n] == old(items[0])
      ensures Views(items[..n]) == PopRest(old(Contents()))
    {
      ghost var before := Contents();
      ghost var root := items[0];
      Swap(0, n);
      assert items[n..] == [root];
      assert Views(items[..n]) == Swapped(before, 0, n)[..n];
      if n > 0 { var _ := SiftDown(0, n); }
      assert items[n] == items[n..][0];
    }

    /** heap.Pop. */
    method HeapPop() returns (x: TcpPacketItem<T>)
      requires Valid() && |items| > 0
      modifies this, members`index
      ensures x == old(items[0]) && x.index == -1
      ensures Valid() && members == old(members) - {x}
      ensures Contents() == PopRest(old(Contents()))
    {
      SiftRoot(|items| - 1);
      x := Pop();
    }

    /** update: new value and priority, then heap.Fix at the item's own Index. */
    method Update(x: TcpPacketItem<T>, value: T, priority: int)
      requires Valid() && x in members
      modifies this, members`index, x
      ensures Valid() && members == old(members)
      ensures x.value == value && x.priority == priority
      ensures Contents() == Fix(old(Contents())[old(x.index) := Entry(priority, value)], old(x.index))
    {
      ghost var before := Contents();
      var i := x.index;
      x.value := value;
      x.priority := priority;
      assert Contents() == before[i := Entry(priority, value)];
      assert items[..|items|] == items;
      var moved := SiftDown(i, |items|);
      assert items[..|items|] == items;
      if !moved { SiftUp(i); }
    }
  }

  /** Any mix of the three operations keeps the heap order: the order of Contents() before a
      call implies the order after it. */
  lemma OperationsKeepOrder<T>(s: seq<Entry<T>>, e: Entry<T>, i: int)
    requires Ordered(s)
    ensures Ordered(Push(s, e))
    ensures |s| > 0 ==> Ordered(PopRest(s)) && forall x :: x in PopRest(s) ==> s[0].priority <= x.priority
    ensures 0 <= i < |s| ==> Ordered(Fix(s[i := e], i))
  {
    PushOrders(s, e);
    if |s| > 0 {
      PopOrders(s);
      forall x | x in PopRest(s) ensures s[0].priority <= x.priority {
        PopPermutes(s);
        assert x in multiset(PopRest(s));
        assert x in multiset(s);
      }
    }
    if 0 <= i < |s| { FixOrders(s, i, e); }
  }
}
