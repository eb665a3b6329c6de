/** encoding/binary's BigEndian for 16- and 32-bit numbers. */
module BigEndian {
  import opened TcpTypes

  function Put16(w: Word16): (b: seq<Byte>)
    ensures |b| == 2
  {
    [w / 256, w % 256]
  }

  function Get16(b: seq<Byte>): Word16
    requires |b| == 2
  {
    var hi: int, lo: int := b[0], b[1];
    hi * 256 + lo
  }

  function Put32(w: Word32): (b: seq<Byte>)
    ensures |b| == 4
  {
    Put16(w / 0x1_0000) + Put16(w % 0x1_0000)
  }

  function Get32(b: seq<Byte>): Word32
    requires |b| == 4
  {
    Get16(b[..2]) * 0x1_0000 + Get16(b[2..])
  }

  lemma RoundTrip16(w: Word16, b: seq<Byte>)
    requires |b| == 2
    ensures Get16(Put16(w)) == w && Put16(Get16(b)) == b
  {
  }

  lemma RoundTrip32(w: Word32, b: seq<Byte>)
    requires |b| == 4
    ensures Get32(Put32(w)) == w && Put32(Get32(b)) == b
  {
    var hi, lo := w / 0x1_0000, w % 0x1_0000;
    assert Put32(w)[..2] == Put16(hi) && Put32(w)[2..] == Put16(lo);
    RoundTrip16(hi, b[..2]);
    RoundTrip16(lo, b[2..]);
    var v := Get32(b);
    assert v / 0x1_0000 == Get16(b[..2]) && v % 0x1_0000 == Get16(b[2..]);
    assert b == b[..2] + b[2..];
  }
}
