/** The port table of pkg/applications/tcp: VListen claims ports, allocatePortUnsafe hands out the
    local ports of outgoing connections by a wrapping uint16 search. */
module Ports {
  import opened TcpTypes

  const PORTS: int := 65536

  predicate IsFree(ports: set<Word16>, x: int)
  {
    (x % PORTS) !in ports
  }

  /** r is the first port at or after `next`, going round, that nobody listens on; d ports were passed over. */
  ghost predicate FirstFree(ports: set<Word16>, next: Word16, r: Word16, d: nat)
  {
    && d < PORTS && r == (next + d) % PORTS && r !in ports
    && (forall x :: next <= x < next + d ==> !IsFree(ports, x))
  }

  class TcpState {
    var ports: set<Word16>
    var nextUnusedPort: Word16

    constructor ()
      ensures ports == {} && nextUnusedPort == 2000
    {
      ports, nextUnusedPort := {}, 2000;
    }

    /** The search ends whenever some port is free, and stops at the first free one. */
    method AllocatePort() returns (res: Word16)
      requires exists q: Word16 :: q !in ports
      modifies this`nextUnusedPort
      ensures exists d :: FirstFree(ports, old(nextUnusedPort), res, d)
      ensures nextUnusedPort == (res + 1) % PORTS
    {
      ghost var start := nextUnusedPort;
      ghost var q: Word16 :| q !in ports;
      ghost var far := (q - start) % PORTS;
      ghost var d: nat := 0;
      assert (start + far) % PORTS == q;
      var inMap := nextUnusedPort in ports;
      while inMap
        invariant 0 <= d <= far && nextUnusedPort == (start + d) % PORTS
        invariant inMap == (nextUnusedPort in ports)
        invariant forall x :: start <= x < start + d ==> !IsFree(ports, x)
        decreases far - d
      {
        assert !IsFree(ports, start + d);
        nextUnusedPort := (nextUnusedPort + 1) % PORTS;
        d := d + 1;
        inMap := nextUnusedPort in ports;
      }
      res := nextUnusedPort;
      nextUnusedPort := (nextUnusedPort + 1) % PORTS;
      assert FirstFree(ports, start, res, d);
    }

    /** VListen claims a port once. */
    method VListen(port: Word16) returns (ok: bool)
      modifies this`ports
      ensures ok <==> port !in old(ports)
      ensures ports == old(ports) + {port}
    {
      if port in ports { return false; }
      ports := ports + {port};
      ok := true;
    }
  }

  // ----- consecutive allocations -----------------------------------------------------------

  /** rs are the results of consecutive allocations while the listening set stands still. */
  ghost predicate Allocations(ports: set<Word16>, next: Word16, rs: seq<Word16>)
    decreases |rs|
  {
    rs == [] || ((exists d :: FirstFree(ports, next, rs[0], d)) && Allocations(ports, (rs[0] + 1) % PORTS, rs[1..]))
  }

  /** Free ports among a, ..., b-1, counted round and round. */
  function CountFree(ports: set<Word16>, a: int, b: int): (n: int)
    requires a <= b
    ensures 0 <= n <= b - a
    decreases b - a
  {
    if a == b then 0 else CountFree(ports, a, b - 1) + (if IsFree(ports, b - 1) then 1 else 0)
  }

  lemma {:induction false} CountSplits(ports: set<Word16>, a: int, b: int, c: int)
    requires a <= b <= c
    ensures CountFree(ports, a, c) == CountFree(ports, a, b) + CountFree(ports, b, c)
    decreases c - b
  {
    if b < c { CountSplits(ports, a, b, c - 1); }
  }

  lemma {:induction false} CountShifts(ports: set<Word16>, a: int, b: int)
    requires a <= b
    ensures CountFree(ports, a + PORTS, b + PORTS) == CountFree(ports, a, b)
    decreases b - a
  {
    if a < b {
      CountShifts(ports, a, b - 1);
      assert (b + PORTS - 1) % PORTS == (b - 1) % PORTS;
    }
  }

  lemma {:induction false} NoneFree(ports: set<Word16>, a: int, b: int)
    requires a <= b && forall x :: a <= x < b ==> !IsFree(ports, x)
    ensures CountFree(ports, a, b) == 0
    decreases b - a
  {
    if a < b { NoneFree(ports, a, b - 1); }
  }

  lemma {:induction false} AllFree(a: int, b: int)
    requires a <= b
    ensures CountFree({}, a, b) == b - a
    decreases b - a
  {
    if a < b { AllFree(a, b - 1); }
  }

  /** Listening on one more port removes the one occurrence of it in less than a full turn. */
  lemma {:induction false} OneFewer(ports: set<Word16>, p: Word16, a: int, b: int, x: int)
    requires p in ports && a <= b <= a + PORTS && a <= x < a + PORTS && x % PORTS == p
    ensures CountFree(ports - {p}, a, b) == CountFree(ports, a, b) + (if x < b then 1 else 0)
    decreases b - a
  {
    if a < b {
      OneFewer(ports, p, a, b - 1, x);
      OncePerTurn(b - 1, x);
    }
  }

  lemma OncePerTurn(x: int, y: int)
    requires -PORTS < x - y < PORTS
    ensures x == y <==> x % PORTS == y % PORTS
  {
  }

  lemma {:induction false} FullTurn(ports: set<Word16>, a: int)
    ensures CountFree(ports, a, a + PORTS) == PORTS - |ports|
    decreases |ports|
  {
    if ports == {} {
      AllFree(a, a + PORTS);
    } else {
      var p :| p in ports;
      FullTurn(ports - {p}, a);
      var x := a + (p - a) % PORTS;
      assert x % PORTS == p;
      OneFewer(ports, p, a, a + PORTS, x);
    }
  }

  lemma PassedOver(ports: set<Word16>, start: int, next: Word16, r: Word16, d: nat)
    requires start % PORTS == next && FirstFree(ports, next, r, d)
    ensures (start + d) % PORTS == r && (start + d + 1) % PORTS == (r + 1) % PORTS
    ensures CountFree(ports, start, start + d) == 0
  {
    forall y | start <= y < start + d ensures !IsFree(ports, y) {
      SameMod(start, next, y - start);
      assert !IsFree(ports, next + (y - start));
    }
    NoneFree(ports, start, start + d);
    SameMod(start, next, d);
    SameMod(start + d, r, 1);
  }

  lemma SameMod(a: int, b: Word16, d: int)
    requires a % PORTS == b
    ensures (a + d) % PORTS == (b + d) % PORTS
  {
  }

  /** The allocations unrolled on a line: the k-th one stands where k free ports lie behind it. */
  lemma {:induction false} Unroll(ports: set<Word16>, start: int, next: Word16, rs: seq<Word16>) returns (xs: seq<int>)
    requires Allocations(ports, next, rs) && start % PORTS == next
    ensures |xs| == |rs|
    ensures forall k :: 0 <= k < |rs| ==> start <= xs[k] && xs[k] % PORTS == rs[k] && rs[k] !in ports
    ensures forall k :: 0 <= k < |rs| ==> CountFree(ports, start, xs[k]) == k
    decreases |rs|
  {
    if rs == [] {
      xs := [];
    } else {
      var d :| FirstFree(ports, next, rs[0], d);
      var x := start + d;
      PassedOver(ports, start, next, rs[0], d);
      var rest := Unroll(ports, x + 1, (rs[0] + 1) % PORTS, rs[1..]);
      xs := [x] + rest;
      forall k | 0 <= k < |rs|
        ensures start <= xs[k] && xs[k] % PORTS == rs[k] && rs[k] !in ports && CountFree(ports, start, xs[k]) == k
      {
        if k > 0 {
          assert xs[k] == rest[k - 1] && rs[k] == rs[1..][k - 1];
          CountSplits(ports, start, x + 1, xs[k]);
        }
      }
    }
  }

  /** The count strictly grows past a free port. */
  lemma CountGrows(ports: set<Word16>, a: int, x: int, y: int)
    requires a <= x < y && IsFree(ports, x)
    ensures CountFree(ports, a, x) < CountFree(ports, a, y)
  {
    CountSplits(ports, a, x + 1, y);
  }

  lemma WithinOneTurn(ports: set<Word16>, a: int, x: int)
    requires a <= x && CountFree(ports, a, x) < PORTS - |ports|
    ensures x < a + PORTS
  {
    if x >= a + PORTS {
      FullTurn(ports, a);
      CountSplits(ports, a, a + PORTS, x);
    }
  }

  predicate Distinct(rs: seq<Word16>)
  {
    forall i, j :: 0 <= i < j < |rs| ==> rs[i] != rs[j]
  }

  /** With a fixed listening set, consecutive allocations are pairwise distinct exactly as long as
      there are no more of them than free ports; the next one after that repeats the first. */
  lemma AllocationsDistinctIff(ports: set<Word16>, next: Word16, rs: seq<Word16>)
    requires Allocations(ports, next, rs)
    ensures |ports| <= PORTS
    ensures Distinct(rs) <==> |rs| <= PORTS - |ports|
    ensures PORTS - |ports| < |rs| ==> rs[PORTS - |ports|] == rs[0]
  {
    FullTurn(ports, next);
    var xs := Unroll(ports, next, next, rs);
    var n := PORTS - |ports|;
    if |rs| <= n {
      forall i, j | 0 <= i < j < |rs| ensures rs[i] != rs[j] {
        WithinOneTurn(ports, next, xs[i]);
        WithinOneTurn(ports, next, xs[j]);
        if rs[i] == rs[j] { OncePerTurn(xs[i], xs[j]); }
      }
    } else {
      FreeLeft(ports, rs[0]);
      Repeats(ports, next, xs[0], xs[n]);
    }
  }

  lemma FreeLeft(ports: set<Word16>, p: Word16)
    requires p !in ports
    ensures |ports| < PORTS
  {
    var q := p + PORTS;
    FullTurn(ports, p);
    CountGrows(ports, p, p, q);
  }

  lemma Repeats(ports: set<Word16>, a: int, x: int, y: int)
    requires a <= x && a <= y && IsFree(ports, x) && IsFree(ports, y)
    requires CountFree(ports, a, x) == 0 && CountFree(ports, a, y) == PORTS - |ports|
    ensures y % PORTS == x % PORTS
  {
    var z := x + PORTS;
    SameAfterTurn(x, z);
    NextTurn(ports, a, x, z);
    SameCount(ports, a, y, z);
  }

  lemma SameCount(ports: set<Word16>, a: int, y: int, z: int)
    requires a <= y && a <= z && IsFree(ports, y) && IsFree(ports, z)
    requires CountFree(ports, a, y) == CountFree(ports, a, z)
    ensures y == z
  {
    if y < z {
      CountGrows(ports, a, y, z);
    } else if y > z {
      CountGrows(ports, a, z, y);
    }
  }

  lemma SameAfterTurn(x: int, z: int)
    requires z == x + PORTS
    ensures z % PORTS == x % PORTS
  {
  }

  lemma NextTurn(ports: set<Word16>, a: int, x: int, z: int)
    requires a <= x && z == x + PORTS
    ensures CountFree(ports, a, z) == PORTS - |ports| + CountFree(ports, a, x)
  {
    FullTurn(ports, a);
    CountShifts(ports, a, x);
    CountSplits(ports, a, a + PORTS, z);
  }
}
