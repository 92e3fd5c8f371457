/**
 Building blocks of the TLS presentation language (section 4 of RFC 5246): numbers, vectors with a length in
 front, lists of vectors; how the handshake messages of `zgmtls` write them into a buffer step by step, how
 they read them, and that reading undoes writing.
 */
module Wire {
  import opened Bytes
  import opened Prelude

  /** A vector with its length in `k` bytes in front of it. */
  function Vec(k: nat, s: seq<byte>): (r: seq<byte>)
    ensures |r| == k + |s|
  {
    ToBytes(|s|, k) + s
  }

  /** A list of 16-bit numbers. */
  function Words(vs: seq<nat>): (r: seq<byte>)
    ensures |r| == 2 * |vs|
  {
    if vs == [] then [] else Words(vs[..|vs| - 1]) + ToBytes(vs[|vs| - 1], 2)
  }

  function ReadWords(d: seq<byte>): (vs: seq<nat>)
    requires |d| % 2 == 0
    ensures |vs| == |d| / 2
  {
    if d == [] then [] else ReadWords(d[..|d| - 2]) + [BigEndian(d[|d| - 2..])]
  }

  predicate Small(vs: seq<nat>, bound: nat) {
    forall i :: 0 <= i < |vs| ==> vs[i] < bound
  }

  lemma {:induction false} WordsRoundTrip(vs: seq<nat>)
    requires Small(vs, 0x10000)
    ensures ReadWords(Words(vs)) == vs
  {
    if vs != [] {
      var d, v := Words(vs), vs[|vs| - 1];
      assert Small(vs[..|vs| - 1], 0x10000);
      WordsRoundTrip(vs[..|vs| - 1]);
      assert d[..|d| - 2] == Words(vs[..|vs| - 1]) && d[|d| - 2..] == ToBytes(v, 2);
      assert Power256(2) == 0x10000;
      BigEndianRoundTrip(v, 2);
    }
  }

  /** Every even number of bytes is such a list. */
  lemma {:induction false} WordsAll(d: seq<byte>)
    requires |d| % 2 == 0
    ensures Words(ReadWords(d)) == d && Small(ReadWords(d), 0x10000)
  {
    if d != [] {
      assert Power256(2) == 0x10000;
      hide ToBytes, BigEndian, Power256;
      var vs, init := ReadWords(d), ReadWords(d[..|d| - 2]);
      WordsAll(d[..|d| - 2]);
      ToBytesRoundTrip(d[|d| - 2..]);
      hide ReadWords;
      assert vs == init + [vs[|vs| - 1]] && vs[..|vs| - 1] == init;
    }
  }

  /** A list of vectors, each with its length in `k` bytes. */
  function Vecs(k: nat, ss: seq<seq<byte>>): seq<byte> {
    if ss == [] then [] else Vec(k, ss[0]) + Vecs(k, ss[1..])
  }

  /** Reading a list of vectors, for readers that take no empty one. `least` is how many bytes the reader wants
      to see before it reads a length. */
  function ReadVecs(k: nat, least: nat, empty: bool, d: seq<byte>): Option<seq<seq<byte>>>
    requires 0 < k <= least
    decreases |d|
  {
    if d == [] then Some([])
    else if |d| < least then None
    else
      var n := BigEndian(d[..k]);
      if (n == 0 && !empty) || |d| < k + n then None
      else Prepend([d[k..k + n]], ReadVecs(k, least, empty, d[k + n..]))
  }

  function Prepend(ss: seq<seq<byte>>, r: Option<seq<seq<byte>>>): Option<seq<seq<byte>>> {
    match r
    case None => None
    case Some(rest) => Some(ss + rest)
  }

  /** One vector in front of the rest. */
  lemma ReadVec(k: nat, s: seq<byte>, rest: seq<byte>)
    requires |s| < Power256(k)
    ensures var d := Vec(k, s) + rest; BigEndian(d[..k]) == |s| && d[k..k + |s|] == s && d[k + |s|..] == rest
  {
    assert (Vec(k, s) + rest)[..k] == ToBytes(|s|, k);
    hide ToBytes, BigEndian;
    BigEndianRoundTrip(|s|, k);
  }

  /** One vector and nothing else. */
  lemma VecAlone(k: nat, s: seq<byte>)
    requires |s| < Power256(k)
    ensures BigEndian(Vec(k, s)[..k]) == |s| && Vec(k, s)[k..] == s
  {
    var none: seq<byte> := [];
    assert Vec(k, s) + none == Vec(k, s);
    ReadVec(k, s, none);
    hide Vec, BigEndian;
    assert Vec(k, s)[k..k + |s|] == Vec(k, s)[k..];
  }

  /** Whether a reader accepts the list: no vector is empty unless allowed, and one that wants to see more than the
      length field gets it, which can only go wrong at the very end. */
  predicate Readable(k: nat, least: nat, empty: bool, ss: seq<seq<byte>>) {
    && (!empty ==> forall i :: 0 <= i < |ss| ==> ss[i] != [])
    && (ss != [] ==> k + |ss[|ss| - 1]| >= least)
  }

  /** Reading the first vector off. */
  lemma ReadVecsStep(k: nat, least: nat, empty: bool, s: seq<byte>, rest: seq<byte>)
    requires 0 < k <= least && |s| < Power256(k)
    ensures ReadVecs(k, least, empty, Vec(k, s) + rest) ==
              if k + |s| + |rest| < least || (s == [] && !empty) then None
              else Prepend([s], ReadVecs(k, least, empty, rest))
  {
    ReadVec(k, s, rest);
    hide BigEndian;
  }

  /** Reading the list back succeeds exactly when the reader accepts it, and then gives the list. */
  lemma {:induction false} VecsRoundTrip(k: nat, least: nat, empty: bool, ss: seq<seq<byte>>)
    requires 0 < k <= least <= 2 * k && (forall i :: 0 <= i < |ss| ==> |ss[i]| < Power256(k))
    ensures ReadVecs(k, least, empty, Vecs(k, ss)) == if Readable(k, least, empty, ss) then Some(ss) else None
  {
    if ss != [] {
      hide Vec, ReadVecs, Power256;
      var s, rest := ss[0], ss[1..];
      VecsRoundTrip(k, least, empty, rest);
      ReadVecsStep(k, least, empty, s, Vecs(k, rest));
      assert ss == [s] + rest;
      assert rest != [] ==> |Vecs(k, rest)| >= k && ss[|ss| - 1] == rest[|rest| - 1];
      assert forall i :: 0 <= i < |rest| ==> rest[i] == ss[i + 1];
      assert Readable(k, least, empty, ss) <==>
             (empty || s != []) && Readable(k, least, empty, rest) && (rest == [] ==> k + |s| >= least);
    } else {
      assert Vecs(k, ss) == [];
    }
  }

  lemma VecsCons(k: nat, least: nat, empty: bool, s: seq<byte>, rest: seq<seq<byte>>)
    requires Readable(k, least, empty, rest) && (s != [] || empty) && (rest == [] ==> k + |s| >= least)
    ensures Vecs(k, [s] + rest) == Vec(k, s) + Vecs(k, rest) && Readable(k, least, empty, [s] + rest)
  {
    var ss := [s] + rest;
    assert ss[1..] == rest;
    assert rest != [] ==> ss[|ss| - 1] == rest[|rest| - 1];
    assert forall i :: 0 < i < |ss| ==> ss[i] == rest[i - 1];
    hide Vec;
  }

  /** What the reader did to accept. */
  lemma ReadFirst(k: nat, least: nat, empty: bool, d: seq<byte>) returns (s: seq<byte>, d': seq<byte>)
    requires 0 < k <= least && d != [] && ReadVecs(k, least, empty, d).Some?
    ensures d == Vec(k, s) + d' && |s| < Power256(k) && (s != [] || empty) && k + |s| + |d'| >= least
    ensures ReadVecs(k, least, empty, d').Some? && ReadVecs(k, least, empty, d).value == [s] + ReadVecs(k, least, empty, d').value
  {
    var n := BigEndian(d[..k]);
    s, d' := d[k..k + n], d[k + n..];
    ToBytesRoundTrip(d[..k]);
    assert d == d[..k] + s + d';
    hide ToBytes, BigEndian, Power256;
  }

  /** Nothing else is read: what a reader accepts is the list it gives, printed. */
  lemma {:induction false} VecsOnly(k: nat, least: nat, empty: bool, d: seq<byte>)
    requires 0 < k <= least <= 2 * k && ReadVecs(k, least, empty, d).Some?
    ensures var ss := ReadVecs(k, least, empty, d).value;
            d == Vecs(k, ss) && Readable(k, least, empty, ss) && forall i :: 0 <= i < |ss| ==> |ss[i]| < Power256(k)
    decreases |d|
  {
    if d != [] {
      var s, d' := ReadFirst(k, least, empty, d);
      VecsOnly(k, least, empty, d');
      var rest := ReadVecs(k, least, empty, d').value;
      assert rest == [] ==> d' == [];
      hide ReadVecs, Vecs, Readable, Vec, Power256;
      VecsCons(k, least, empty, s, rest);
    }
  }

  /** So a reader accepts a byte string exactly when it is a list that the reader can read. */
  lemma VecsIff(k: nat, least: nat, empty: bool, d: seq<byte>, ss: seq<seq<byte>>)
    requires 0 < k <= least <= 2 * k
    ensures ReadVecs(k, least, empty, d) == Some(ss) <==>
              d == Vecs(k, ss) && Readable(k, least, empty, ss) && forall i :: 0 <= i < |ss| ==> |ss[i]| < Power256(k)
  {
    if forall i :: 0 <= i < |ss| ==> |ss[i]| < Power256(k) { VecsRoundTrip(k, least, empty, ss); }
    if ReadVecs(k, least, empty, d).Some? { VecsOnly(k, least, empty, d); }
    hide ReadVecs, Vecs, Power256;
  }

  /** The same for one vector with its length in front. */
  lemma VecIff(k: nat, d: seq<byte>, s: seq<byte>)
    requires k > 0
    ensures |d| >= k && BigEndian(d[..k]) == |d| - k && d[k..] == s <==> d == Vec(k, s) && |s| < Power256(k)
  {
    if |s| < Power256(k) { VecAlone(k, s); }
    if |d| >= k { ToBytesRoundTrip(d[..k]); assert d == d[..k] + d[k..]; }
    hide ToBytes, BigEndian, Power256;
  }

  /** A short vector begins with its length as one byte. */
  lemma ShortVec(s: seq<byte>)
    requires |s| < 256
    ensures Vec(1, s) == [|s| as byte] + s
  {
    OneByte(|s|);
  }

  /** A short vector in front of the rest. */
  lemma FrontVec(data: seq<byte>, off: nat, s: seq<byte>, rest: seq<byte>)
    requires off <= |data| && |s| < 256 && data[off..] == Vec(1, s) + rest
    ensures off + 1 + |s| <= |data| && data[off] as int == |s| && data[off + 1..off + 1 + |s|] == s && data[off + 1 + |s|..] == rest
  {
    ShortVec(s);
    hide Vec;
    assert [|s| as byte] + s + rest == [|s| as byte] + (s + rest);
    Front(data, off, [|s| as byte], s + rest);
    Front(data, off + 1, s, rest);
    assert data[off] == data[off..off + 1][0];
  }

  // ----- pieces of the hello messages -----------------------------------------------------------

  /** An extension: its code, and its body with the length in front. */
  function Ext(code: nat, body: seq<byte>): (r: seq<byte>)
    ensures |r| == 4 + |body|
  {
    ToBytes(code, 2) + ToBytes(|body|, 2) + body
  }

  /** `copy(x[6:38], m.random)`: cut off or filled up with zeros. */
  function Fit32(s: seq<byte>): (r: seq<byte>)
    ensures |r| == 32
  {
    if |s| >= 32 then s[..32] else s + seq(32 - |s|, i => 0)
  }

  /** The renegotiation extension; the high byte of its length is always written as zero. */
  function RenegInfo(present: bool, s: seq<byte>): seq<byte> {
    if present then ToBytes(0xff01, 2) + ([0] + ToBytes(|s| + 1, 1)) + Vec(1, s) else []
  }

  lemma RenegIsExt(s: seq<byte>)
    requires |s| <= 254
    ensures RenegInfo(true, s) == Ext(0xff01, Vec(1, s)) && Vec(1, s)[0] as int == |s| && Vec(1, s)[1..] == s
  {
    ShortVec(s);
    OneByte(0);
    assert ToBytes(|s| + 1, 2) == ToBytes(0, 1) + ToBytes(|s| + 1, 1) by { OneByte(|s| + 1); assert (|s| + 1) / 256 == 0; }
    hide ToBytes, Vec;
  }

  lemma OneByte(v: nat)
    ensures ToBytes(v, 1) == [v % 256]
  {
    assert ToBytes(v / 256, 0) == [];
  }

  // ----- writing into a buffer ------------------------------------------------------------------

  /** `copy(z, s); z = z[len(s):]` */
  method Put(x: array<byte>, z: nat, s: seq<byte>) returns (z': nat)
    requires z + |s| <= x.Length
    modifies x
    ensures z' == z + |s| && x[..z'] == old(x[..z]) + s
    ensures forall i :: z' <= i < x.Length ==> x[i] == old(x[i])
  {
    forall i | 0 <= i < |s| { x[z + i] := s[i]; }
    z' := z + |s|;
  }

  /** `z[0] = byte(v >> 8); z[1] = byte(v); z = z[2:]` */
  method PutWord(x: array<byte>, z: nat, v: nat) returns (z': nat)
    requires z + 2 <= x.Length
    modifies x
    ensures z' == z + 2 && x[..z'] == old(x[..z]) + ToBytes(v, 2)
    ensures forall i :: z' <= i < x.Length ==> x[i] == old(x[i])
  {
    x[z] := v / 256 % 256;
    x[z + 1] := v % 256;
    z' := z + 2;
    assert ToBytes(v / 256, 1) == [v / 256 % 256];
  }

  /** The same for three bytes. */
  method PutWord24(x: array<byte>, z: nat, v: nat) returns (z': nat)
    requires z + 3 <= x.Length
    modifies x
    ensures z' == z + 3 && x[..z'] == old(x[..z]) + ToBytes(v, 3)
    ensures forall i :: z' <= i < x.Length ==> x[i] == old(x[i])
  {
    x[z] := v / 0x10000 % 256;
    x[z + 1] := v / 0x100 % 256;
    x[z + 2] := v % 256;
    z' := z + 3;
    assert v / 256 / 256 == v / 0x10000;
    assert ToBytes(v / 0x10000, 1) == [v / 0x10000 % 256];
    assert ToBytes(v / 256, 2) == [v / 0x10000 % 256, v / 256 % 256];
  }

  method PutByte(x: array<byte>, z: nat, v: nat) returns (z': nat)
    requires z + 1 <= x.Length
    modifies x
    ensures z' == z + 1 && x[..z'] == old(x[..z]) + ToBytes(v, 1)
    ensures forall i :: z' <= i < x.Length ==> x[i] == old(x[i])
  {
    x[z] := v % 256;
    z' := z + 1;
    assert ToBytes(v, 1) == [v % 256];
  }

  /** The loops over 16-bit numbers. */
  method PutWords(x: array<byte>, z: nat, vs: seq<nat>) returns (z': nat)
    requires z + 2 * |vs| <= x.Length
    modifies x
    ensures z' == z + 2 * |vs| && x[..z'] == old(x[..z]) + Words(vs)
    ensures forall i :: z' <= i < x.Length ==> x[i] == old(x[i])
  {
    z' := z;
    var i := 0;
    while i < |vs|
      invariant 0 <= i <= |vs| && z' == z + 2 * i && x[..z'] == old(x[..z]) + Words(vs[..i])
      invariant forall i :: z' <= i < x.Length ==> x[i] == old(x[i])
    {
      assert vs[..i + 1][..i] == vs[..i];
      z' := PutWord(x, z', vs[i]);
      i := i + 1;
    }
    assert vs[..|vs|] == vs;
  }

  lemma {:induction false} VecsSnoc(k: nat, ss: seq<seq<byte>>, s: seq<byte>)
    ensures Vecs(k, ss + [s]) == Vecs(k, ss) + Vec(k, s)
  {
    if ss == [] {
      assert ss + [s] == [s] && [s][1..] == [];
    } else {
      assert (ss + [s])[1..] == ss[1..] + [s];
      VecsSnoc(k, ss[1..], s);
    }
  }

  lemma {:induction false} VecsLength(k: nat, ss: seq<seq<byte>>, i: nat)
    requires i <= |ss|
    ensures |Vecs(k, ss[..i])| <= |Vecs(k, ss)|
    ensures i < |ss| ==> |Vecs(k, ss[..i + 1])| == |Vecs(k, ss[..i])| + k + |ss[i]|
    decreases |ss| - i
  {
    if i < |ss| {
      VecsSnoc(k, ss[..i], ss[i]);
      assert ss[..i + 1] == ss[..i] + [ss[i]];
      VecsLength(k, ss, i + 1);
    } else {
      assert ss[..i] == ss;
    }
  }

  /** The loops over vectors: length (in one, two or three bytes), then the bytes. */
  method PutVecs(x: array<byte>, z: nat, k: nat, ss: seq<seq<byte>>) returns (z': nat)
    requires 1 <= k <= 3 && z + |Vecs(k, ss)| <= x.Length
    modifies x
    ensures z' == z + |Vecs(k, ss)| && x[..z'] == old(x[..z]) + Vecs(k, ss)
    ensures forall i :: z' <= i < x.Length ==> x[i] == old(x[i])
  {
    hide Vecs, Vec;
    z' := z;
    var i := 0;
    VecsLength(k, ss, 0);
    assert Vecs(k, ss[..0]) == [] by { EmptyVecs(k); assert ss[..0] == []; }
    while i < |ss|
      invariant 0 <= i <= |ss| && z' == z + |Vecs(k, ss[..i])| && z' <= x.Length
      invariant x[..z'] == old(x[..z]) + Vecs(k, ss[..i])
      invariant forall i :: z' <= i < x.Length ==> x[i] == old(x[i])
    {
      VecsLength(k, ss, i);
      VecsLength(k, ss, i + 1);
      VecsSnoc(k, ss[..i], ss[i]);
      assert ss[..i + 1] == ss[..i] + [ss[i]];
      z' := PutVec(x, z', k, ss[i]);
      i := i + 1;
    }
    assert ss[..|ss|] == ss;
  }

  lemma EmptyVecs(k: nat)
    ensures Vecs(k, []) == []
  {
  }

  method PutVec(x: array<byte>, z: nat, k: nat, s: seq<byte>) returns (z': nat)
    requires 1 <= k <= 3 && z + k + |s| <= x.Length
    modifies x
    ensures z' == z + k + |s| && x[..z'] == old(x[..z]) + Vec(k, s)
    ensures forall i :: z' <= i < x.Length ==> x[i] == old(x[i])
  {
    z' := PutLength(x, z, k, |s|);
    z' := Put(x, z', s);
  }

  method PutLength(x: array<byte>, z: nat, k: nat, n: nat) returns (z': nat)
    requires 1 <= k <= 3 && z + k <= x.Length
    modifies x
    ensures z' == z + k && x[..z'] == old(x[..z]) + ToBytes(n, k)
    ensures forall i :: z' <= i < x.Length ==> x[i] == old(x[i])
  {
    if k == 1 { z' := PutByte(x, z, n); } else if k == 2 { z' := PutWord(x, z, n); } else { z' := PutWord24(x, z, n); }
  }

  method PutExt(x: array<byte>, z: nat, code: nat, length: nat) returns (z': nat)
    requires z + 4 <= x.Length
    modifies x
    ensures z' == z + 4 && x[..z'] == old(x[..z]) + (ToBytes(code, 2) + ToBytes(length, 2))
    ensures forall i :: z' <= i < x.Length ==> x[i] == old(x[i])
  {
    hide ToBytes;
    z' := PutWord(x, z, code);
    z' := PutWord(x, z', length);
  }

  method PutRenegInfo(x: array<byte>, z: nat, present: bool, s: seq<byte>) returns (z': nat)
    requires z + |RenegInfo(present, s)| <= x.Length
    modifies x
    ensures z' == z + |RenegInfo(present, s)| && x[..z'] == old(x[..z]) + RenegInfo(present, s)
    ensures forall i :: z' <= i < x.Length ==> x[i] == old(x[i])
  {
    RenegLayout(x[..z], s);
    z' := z;
    if present {
      hide ToBytes, RenegInfo, Vec;
      z' := PutWord(x, z, 0xff01);
      z' := PutByte(x, z', 0);
      z' := PutByte(x, z', |s| + 1);
      z' := PutVec(x, z', 1, s);
    }
  }

  lemma RenegLayout(a: seq<byte>, s: seq<byte>)
    ensures |RenegInfo(true, s)| == 5 + |s|
    ensures a + ToBytes(0xff01, 2) + ToBytes(0, 1) + ToBytes(|s| + 1, 1) + Vec(1, s) == a + RenegInfo(true, s)
  {
    OneByte(0);
    hide ToBytes, Vec;
  }

  // ----- reading --------------------------------------------------------------------------------

  /** `int(d[0])<<8 | int(d[1])` */
  method GetWord(d: seq<byte>) returns (v: nat)
    requires |d| >= 2
    ensures v == BigEndian(d[..2])
  {
    SmallWords(d[..2]);
    v := d[0] as int * 0x100 + d[1] as int;
  }

  /** The loops that read 16-bit numbers. */
  method GetWords(d: seq<byte>) returns (vs: seq<nat>)
    requires |d| % 2 == 0
    ensures vs == ReadWords(d)
  {
    vs := [];
    var i := 0;
    while i < |d| / 2
      invariant 0 <= i <= |d| / 2 && vs == ReadWords(d[..2 * i])
    {
      assert d[..2 * i + 2][..2 * i] == d[..2 * i] && d[..2 * i + 2][2 * i..] == d[2 * i..][..2];
      var v := GetWord(d[2 * i..]);
      vs := vs + [v];
      i := i + 1;
    }
    assert d[..2 * i] == d;
  }

  /** The loops that read vectors, which give up at the first one that does not fit. */
  method GetVecs(k: nat, least: nat, empty: bool, data: seq<byte>) returns (r: Option<seq<seq<byte>>>)
    requires 1 <= k <= 3 && k <= least
    ensures r == ReadVecs(k, least, empty, data)
  {
    var d, ss := data, [];
    PrependNone(ReadVecs(k, least, empty, d));
    while d != []
      invariant ReadVecs(k, least, empty, data) == Prepend(ss, ReadVecs(k, least, empty, d))
      decreases |d|
    {
      if |d| < least { return None; }
      var n := GetLength(k, d);
      if (n == 0 && !empty) || |d| < k + n { return None; }
      PrependTwice(ss, [d[k..k + n]], ReadVecs(k, least, empty, d[k + n..]));
      ss := ss + [d[k..k + n]];
      d := d[k + n..];
    }
    var none: seq<seq<byte>> := [];
    assert ss + none == ss;
    r := Some(ss);
  }

  lemma PrependTwice(a: seq<seq<byte>>, b: seq<seq<byte>>, r: Option<seq<seq<byte>>>)
    ensures Prepend(a, Prepend(b, r)) == Prepend(a + b, r)
  {
    if r.Some? { assert a + (b + r.value) == a + b + r.value; }
  }

  lemma PrependNone(r: Option<seq<seq<byte>>>)
    ensures Prepend([], r) == r
  {
    var none: seq<seq<byte>> := [];
    if r.Some? { assert none + r.value == r.value; }
  }

  method GetLength(k: nat, d: seq<byte>) returns (n: nat)
    requires 1 <= k <= 3 && |d| >= k
    ensures n == BigEndian(d[..k])
  {
    SmallWords(d[..k]);
    if k == 1 { n := d[0] as int; }
    else if k == 2 { n := d[0] as int * 0x100 + d[1] as int; }
    else { n := d[0] as int * 0x10000 + d[1] as int * 0x100 + d[2] as int; }
  }
}
