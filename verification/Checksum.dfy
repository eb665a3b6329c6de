/** The Internet checksum of RFC 1071 as the program uses it: for IP headers, which are re-checksummed
    at every hop, and for TCP segments, summed in three chained parts. */
module Checksum {
  import opened TcpTypes
  import opened BigEndian

  // ----- one's complement sums ---------------------------------------------------------

  /** Sum of the big-endian 16-bit words; an odd last byte counts as a high byte. */
  function WordSum(b: seq<Byte>): (n: int)
    ensures 0 <= n <= 65535 * ((|b| + 1) / 2)
  {
    if |b| == 0 then 0
    else if |b| == 1 then b[0] * 256
    else b[0] * 256 + b[1] + WordSum(b[2..])
  }

  /** ChecksumCombine of the two halves of a uint32. */
  function Fold(v: Word32): Word16
  {
    var s := v % 0x1_0000 + v / 0x1_0000;
    (s + s / 0x1_0000) % 0x1_0000
  }

  /** header.Checksum: the accumulator is a uint32. */
  function Sum16(b: seq<Byte>, initial: Word16): Word16
  {
    Fold((initial + WordSum(b)) % MOD32)
  }

  /** Buffers an IP packet can hold do not overflow the accumulator. */
  const MAX_BUFFER := 131000

  lemma FoldFacts(v: Word32)
    ensures Fold(v) % 65535 == v % 65535
    ensures Fold(v) == 0 <==> v == 0
  {
    var hi, lo := v / 0x1_0000, v % 0x1_0000;
    var s := lo + hi;
    assert v == 65535 * hi + s;
    if s >= 0x1_0000 {
      assert s / 0x1_0000 == 1;
      assert Fold(v) == s - 65535;
    } else {
      assert s / 0x1_0000 == 0;
      assert Fold(v) == s;
    }
  }

  /** Two folded sums agree exactly when the totals are congruent modulo 65535 and vanish together. */
  lemma FoldEqualIff(v: Word32, w: Word32)
    ensures Fold(v) == Fold(w) <==> v % 65535 == w % 65535 && (v == 0 <==> w == 0)
  {
    FoldFacts(v);
    FoldFacts(w);
    SameFold(Fold(v), Fold(w));
  }

  lemma SameFold(x: Word16, y: Word16)
    ensures x == y <==> x % 65535 == y % 65535 && (x == 0 <==> y == 0)
  {
    assert x % 65535 == if x == 65535 then 0 else x;
    assert y % 65535 == if y == 65535 then 0 else y;
  }

  lemma {:induction false} WordSumConcat(a: seq<Byte>, b: seq<Byte>)
    requires |a| % 2 == 0
    ensures WordSum(a + b) == WordSum(a) + WordSum(b)
    decreases |a|
  {
    if a == [] {
      assert a + b == b;
    } else {
      assert (a + b)[2..] == a[2..] + b;
      WordSumConcat(a[2..], b);
    }
  }

  /** What one byte weighs in the sum: 256 in an even place, 1 in an odd one, wherever the buffer ends. */
  lemma {:induction false} ByteWeight(b: seq<Byte>, i: int, v: Byte)
    requires 0 <= i < |b|
    ensures WordSum(b[i := v]) == WordSum(b) + (v - b[i]) * (if i % 2 == 0 then 256 else 1)
    decreases |b|
  {
    if i >= 2 {
      ByteWeight(b[2..], i - 2, v);
      assert b[i := v][2..] == b[2..][i - 2 := v];
    } else if |b| >= 2 {
      assert b[i := v][2..] == b[2..];
    }
  }

  /** A buffer of zeros sums to nothing; with ByteWeight this says what every buffer sums to. */
  lemma {:induction false} ZerosSumToZero(b: seq<Byte>)
    requires forall i :: 0 <= i < |b| ==> b[i] == 0
    ensures WordSum(b) == 0
  {
    if |b| >= 2 { ZerosSumToZero(b[2..]); }
  }

  lemma SumFits(b: seq<Byte>, initial: Word16)
    requires |b| <= MAX_BUFFER
    ensures 0 <= initial + WordSum(b) < MOD32
    ensures Sum16(b, initial) == Fold(initial + WordSum(b))
  {
    var words := (|b| + 1) / 2;
    assert words <= 65500;
    SmallMod(initial + WordSum(b));
  }

  lemma SmallMod(x: int)
    requires 0 <= x < MOD32
    ensures x % MOD32 == x
  {
  }

  lemma Sum16EqualIff(a: seq<Byte>, b: seq<Byte>)
    requires |a| <= MAX_BUFFER && |b| <= MAX_BUFFER
    ensures Sum16(a, 0) == Sum16(b, 0) <==>
              WordSum(a) % 65535 == WordSum(b) % 65535 && (WordSum(a) == 0 <==> WordSum(b) == 0)
  {
    SumFits(a, 0);
    SumFits(b, 0);
    FoldEqualIff(WordSum(a), WordSum(b));
  }

  lemma ChainedFold(v: int, z: int)
    requires 0 <= v && 0 <= z && v + z < MOD32
    ensures Fold(v) + z < MOD32 && Fold(Fold(v) + z) == Fold(v + z)
  {
    FoldFacts(v);
    CongruentSum(Fold(v), v, z);
    FoldEqualIff(Fold(v) + z, v + z);
  }

  /** Feeding one sum into the next is summing the concatenation, because the first part is even. */
  lemma ChainedSum(a: seq<Byte>, b: seq<Byte>, initial: Word16)
    requires |a| % 2 == 0 && |a| + |b| <= MAX_BUFFER
    ensures Sum16(b, Sum16(a, initial)) == Sum16(a + b, initial)
  {
    WordSumConcat(a, b);
    SumFits(a, initial);
    SumFits(a + b, initial);
    SumFits(b, Sum16(a, initial));
    ChainedFold(initial + WordSum(a), WordSum(b));
  }

  lemma CongruentSum(x: int, y: int, z: int)
    requires x % 65535 == y % 65535
    ensures (x + z) % 65535 == (y + z) % 65535
  {
    assert x - x % 65535 == 65535 * (x / 65535) && y - y % 65535 == 65535 * (y / 65535);
    assert x + z == y + z + 65535 * (x / 65535 - y / 65535);
  }

  // ----- TCP -----------------------------------------------------------------------------

  const PSEUDO_HEADER_LEN := 12
  const TCP_HEADER_LEN := 20

  /** computeTCPChecksum, on the bytes of the three parts. */
  function TcpChecksum(pseudo: seq<Byte>, hdr: seq<Byte>, payload: seq<Byte>): Word16
  {
    0xffff - Sum16(payload, Sum16(hdr, Sum16(pseudo, 0)))
  }

  /** The three chained sums are the checksum of pseudo-header, header and payload in one piece. */
  lemma TcpChecksumIsOneSum(pseudo: seq<Byte>, hdr: seq<Byte>, payload: seq<Byte>)
    requires |pseudo| == PSEUDO_HEADER_LEN && |hdr| == TCP_HEADER_LEN && |payload| <= 65535
    ensures TcpChecksum(pseudo, hdr, payload) == 0xffff - Sum16(pseudo + hdr + payload, 0)
  {
    ChainedSum(pseudo, hdr, 0);
    ChainedSum(pseudo + hdr, payload, 0);
  }

  /** A segment whose bytes changed on the way, with the checksum field kept, is accepted exactly when
      the word sums are congruent modulo 65535 and vanish together: any change of a single word other
      than 0 to 65535 or back is detected. */
  lemma TcpDetectsIff(pseudo: seq<Byte>, hdr: seq<Byte>, payload: seq<Byte>, hdr': seq<Byte>, payload': seq<Byte>)
    requires |pseudo| == PSEUDO_HEADER_LEN && |hdr| == |hdr'| == TCP_HEADER_LEN && |payload| == |payload'| <= 65535
    ensures TcpChecksum(pseudo, hdr', payload') == TcpChecksum(pseudo, hdr, payload) <==>
              var v, w := WordSum(pseudo + hdr + payload), WordSum(pseudo + hdr' + payload');
              v % 65535 == w % 65535 && (v == 0 <==> w == 0)
  {
    TcpChecksumIsOneSum(pseudo, hdr, payload);
    TcpChecksumIsOneSum(pseudo, hdr', payload');
    Sum16EqualIff(pseudo + hdr + payload, pseudo + hdr' + payload');
  }

  /** One byte of header or payload that changed on the way is always detected. */
  lemma OneByteIsDetected(pseudo: seq<Byte>, hdr: seq<Byte>, payload: seq<Byte>, hdr': seq<Byte>, payload': seq<Byte>, i: int, v: Byte)
    requires |pseudo| == PSEUDO_HEADER_LEN && |hdr| == |hdr'| == TCP_HEADER_LEN && |payload| == |payload'| <= 65535
    requires 0 <= i < |pseudo + hdr + payload| && v != (pseudo + hdr + payload)[i]
    requires pseudo + hdr' + payload' == (pseudo + hdr + payload)[i := v]
    ensures TcpChecksum(pseudo, hdr', payload') != TcpChecksum(pseudo, hdr, payload)
  {
    TcpDetectsIff(pseudo, hdr, payload, hdr', payload');
    ByteWeight(pseudo + hdr + payload, i, v);
    NotCongruent(WordSum(pseudo + hdr + payload), WordSum(pseudo + hdr' + payload'));
  }

  lemma NotCongruent(v: int, w: int)
    requires v != w && -65535 < v - w < 65535
    ensures v % 65535 != w % 65535
  {
    assert v == 65535 * (v / 65535) + v % 65535 && w == 65535 * (w / 65535) + w % 65535;
  }

  // ----- IP headers ------------------------------------------------------------------------

  /** The 20 header bytes around a checksum field. */
  function WithChecksum(front: seq<Byte>, back: seq<Byte>, cs: Word16): seq<Byte>
  {
    front + Put16(cs) + back
  }

  function ComputeChecksum(b: seq<Byte>): Word16
  {
    0xffff - Sum16(b, 0)
  }

  /** The test of HandlePacketSafe: sum the header with its own checksum as initial value. */
  predicate Accepts(b: seq<Byte>, fromHeader: Word16)
  {
    Sum16(b, fromHeader) == fromHeader
  }

  lemma WithChecksumSum(front: seq<Byte>, back: seq<Byte>, cs: Word16)
    requires |front| == 10 && |back| == 8
    ensures WordSum(WithChecksum(front, back, cs)) == WordSum(front) + cs + WordSum(back)
  {
    var mid := Put16(cs);
    assert mid[2..] == [];
    WordSumConcat(front, mid);
    WordSumConcat(front + mid, back);
  }

  /** The arithmetic of the test: v is the sum without the checksum, cs its complement. */
  lemma ComplementTest(v: int, cs: Word16)
    requires 0 <= v && v + 131070 < MOD32 && cs == 0xffff - Fold(v)
    ensures Fold(v + cs + cs) == cs <==> cs != 0
  {
    ChainedFold(v, cs + cs);
    assert Fold(v) + (cs + cs) == 65535 + cs;
    FoldAround(cs);
  }

  lemma FoldAround(cs: Word16)
    ensures Fold(65535 + cs) == if cs == 0 then 65535 else cs
  {
    if cs != 0 {
      assert (65535 + cs) / 0x1_0000 == 1;
      assert (65535 + cs) % 0x1_0000 == cs - 1;
    }
  }

  /** A freshly checksummed header passes the next node's test if and only if its checksum is not zero. */
  lemma FreshHeaderAcceptedIff(front: seq<Byte>, back: seq<Byte>)
    requires |front| == 10 && |back| == 8
    ensures var cs := ComputeChecksum(WithChecksum(front, back, 0));
            Accepts(WithChecksum(front, back, cs), cs) <==> cs != 0
  {
    var cs := ComputeChecksum(WithChecksum(front, back, 0));
    WithChecksumSum(front, back, 0);
    WithChecksumSum(front, back, cs);
    SumFits(WithChecksum(front, back, 0), 0);
    SumFits(WithChecksum(front, back, cs), cs);
    ComplementTest(WordSum(front) + WordSum(back), cs);
  }

  /** The checksum is zero when the words of the header sum to 65535. */
  lemma ZeroFrom(front: seq<Byte>, back: seq<Byte>)
    requires |front| == 10 && |back| == 8 && WordSum(front) + WordSum(back) == 65535
    ensures ComputeChecksum(WithChecksum(front, back, 0)) == 0
  {
    WithChecksumSum(front, back, 0);
    SumFits(WithChecksum(front, back, 0), 0);
    assert Fold(65535) == 65535;
  }

  lemma WordSumAt(b: seq<Byte>, hi: Byte, lo: Byte, rest: seq<Byte>)
    requires b == [hi, lo] + rest
    ensures WordSum(b) == hi * 256 + lo + WordSum(rest)
  {
    assert b[2..] == rest;
  }
}
