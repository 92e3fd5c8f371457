/** Bytes, and unsigned integers written with the most significant byte first. */
module Bytes {

  type byte = x: int | 0 <= x < 256

  /** 256^k */
  function Power256(k: nat): (r: nat)
    ensures r >= 1
  {
    if k == 0 then 1 else 256 * Power256(k - 1)
  }

  /** The value of a big-endian byte string. */
  function BigEndian(s: seq<byte>): nat {
    if s == [] then 0 else BigEndian(s[..|s| - 1]) * 256 + s[|s| - 1] as int
  }

  /** The last `k` bytes of a number, big-endian: `byte(v >> 8), byte(v)` and the like. */
  function ToBytes(v: nat, k: nat): (s: seq<byte>)
    ensures |s| == k
  {
    if k == 0 then [] else ToBytes(v / 256, k - 1) + [v % 256]
  }

  /** A number that fits survives being written and read. */
  lemma {:induction false} BigEndianRoundTrip(v: nat, k: nat)
    requires v < Power256(k)
    ensures BigEndian(ToBytes(v, k)) == v
  {
    if k > 0 {
      BigEndianRoundTrip(v / 256, k - 1);
      assert ToBytes(v, k)[..k - 1] == ToBytes(v / 256, k - 1);
    }
  }

  /** Every byte string is the writing of its value. */
  lemma {:induction false} ToBytesRoundTrip(s: seq<byte>)
    ensures BigEndian(s) < Power256(|s|) && ToBytes(BigEndian(s), |s|) == s
  {
    if s != [] {
      ToBytesRoundTrip(s[..|s| - 1]);
    }
  }

  /** Two, three and four bytes, as the code writes them out. */
  lemma SmallWords(s: seq<byte>)
    ensures |s| == 1 ==> BigEndian(s) == s[0] as int
    ensures |s| == 2 ==> BigEndian(s) == s[0] as int * 0x100 + s[1] as int
    ensures |s| == 3 ==> BigEndian(s) == s[0] as int * 0x10000 + s[1] as int * 0x100 + s[2] as int
    ensures |s| == 4 ==> BigEndian(s) == s[0] as int * 0x1000000 + s[1] as int * 0x10000 + s[2] as int * 0x100 + s[3] as int
  {
    if |s| > 0 {
      var a := s[..|s| - 1];
      if |a| > 0 {
        var b := a[..|a| - 1];
        if |b| > 0 {
          var c := b[..|b| - 1];
          if |c| > 0 { assert |s| == 4 ==> c[..|c| - 1] == []; }
        }
      }
    }
  }

  /** The front of what remains of a message, and the rest. */
  lemma Front(data: seq<byte>, off: nat, a: seq<byte>, rest: seq<byte>)
    requires off <= |data| && data[off..] == a + rest
    ensures off + |a| <= |data| && data[off..off + |a|] == a && data[off + |a|..] == rest
  {
    assert data[off..][..|a|] == a;
    assert data[off..][|a|..] == rest;
  }

  lemma Assoc3(a: seq<byte>, b: seq<byte>, c: seq<byte>)
    ensures a + b + c == a + (b + c)
  {
  }
}
