/**
 The record layer of `zgmtls/conn.go` (section 6 of RFC 5246): sequence numbers, MAC then pad then encrypt and
 back, cutting data into records. Block ciphers, stream ciphers, AEADs and MACs are arbitrary functions; only
 that decryption inverts encryption is asked of them. CBC chaining, padding and nonces are the code's own.
 */
module RecordLayer {
  import opened Bytes
  import opened Prelude
  import opened PowerOfTwo
  import opened RecordPadding

  const HeaderLen: nat := 5
  const MaxPlaintext: nat := 16384
  const MaxCiphertext: nat := 16384 + 2048
  const BoostThreshold: nat := 128 * 1024
  const MssEstimate: nat := 1208

  const SSL30: nat := 0x0300
  const TLS10: nat := 0x0301
  const TLS11: nat := 0x0302
  const GMSSL: nat := 0x0101

  datatype Cipher =
    | NoCipher
    | Stream(keystream: nat -> byte)
    | Aead(nonceLen: nat, overhead: nat, seal: (seq<byte>, seq<byte>, seq<byte>) -> seq<byte>,
           open: (seq<byte>, seq<byte>, seq<byte>) -> Option<seq<byte>>)
    | Cbc(blockSize: nat, enc: seq<byte> -> seq<byte>, dec: seq<byte> -> seq<byte>)

  /** The tag is a function of sequence number, header and data. */
  datatype Mac = NoMac | Mac(size: nat, tag: (seq<byte>, seq<byte>, seq<byte>) -> seq<byte>)

  datatype Keys = Keys(version: nat, cipher: Cipher, mac: Mac)

  /** What changes from record to record: sequence number, position in the key stream, last block of CBC. */
  datatype Position = Position(num: seq<byte>, stream: nat, iv: seq<byte>)

  /** Decryption inverts encryption, and outputs have the right length. */
  ghost predicate Sound(k: Keys) {
    && (k.mac.Mac? ==> k.mac.size <= 512 && forall n, h, d :: |k.mac.tag(n, h, d)| == k.mac.size)
    && match k.cipher
       case NoCipher => true
       case Stream(_) => true
       case Aead(nonceLen, overhead, seal, open) =>
         nonceLen <= 8 && overhead <= 256 && forall n, p, a :: |seal(n, p, a)| == |p| + overhead && open(n, seal(n, p, a), a) == Some(p)
       case Cbc(bs, enc, dec) =>
         2 <= bs <= 256 && IsPow2(bs) && k.mac.Mac? && Block(bs, enc, dec)
  }

  function MacSize(m: Mac): nat {
    if m.Mac? then m.size else 0
  }

  // ----- exclusive or, CBC and key streams ------------------------------------------------------

  function Xor(a: byte, b: byte): byte {
    assert Pow2(8) == 256;
    ExorSmall(a, b, 8);
    Exor(a, b)
  }

  lemma XorTwice(a: byte, b: byte)
    ensures Xor(Xor(a, b), b) == a
  {
    ExorTwice(a, b);
  }

  function XorAll(a: seq<byte>, b: seq<byte>): (r: seq<byte>)
    requires |a| == |b|
    ensures |r| == |a|
  {
    seq(|a|, i requires 0 <= i < |a| => Xor(a[i], b[i]))
  }

  lemma XorAllTwice(a: seq<byte>, b: seq<byte>)
    requires |a| == |b|
    ensures XorAll(XorAll(a, b), b) == a
  {
    hide Xor;
    forall i | 0 <= i < |a| ensures XorAll(XorAll(a, b), b)[i] == a[i] { XorTwice(a[i], b[i]); }
  }

  /** `XORKeyStream` from position `pos` on. */
  function XorStream(key: nat -> byte, pos: nat, x: seq<byte>): (r: seq<byte>)
    ensures |r| == |x|
  {
    seq(|x|, i requires 0 <= i < |x| => Xor(x[i], key(pos + i)))
  }

  lemma XorStreamTwice(key: nat -> byte, pos: nat, x: seq<byte>)
    ensures XorStream(key, pos, XorStream(key, pos, x)) == x
  {
    hide Xor;
    forall i | 0 <= i < |x| ensures XorStream(key, pos, XorStream(key, pos, x))[i] == x[i] { XorTwice(x[i], key(pos + i)); }
  }

  ghost predicate Block(bs: nat, enc: seq<byte> -> seq<byte>, dec: seq<byte> -> seq<byte>) {
    && bs > 0 && (forall b {:trigger enc(b)} :: |b| == bs ==> |enc(b)| == bs)
    && (forall b {:trigger dec(b)} :: |b| == bs ==> |dec(b)| == bs) && (forall b {:trigger dec(enc(b))} :: |b| == bs ==> dec(enc(b)) == b)
  }

  /** `CryptBlocks` for encryption: whole blocks, each mixed with the block before it. */
  function CbcEncrypt(bs: nat, enc: seq<byte> -> seq<byte>, iv: seq<byte>, x: seq<byte>): (r: seq<byte>)
    decreases |x|
  {
    if bs == 0 || |x| < bs || |iv| != bs then []
    else var c := enc(XorAll(x[..bs], iv)); c + CbcEncrypt(bs, enc, c, x[bs..])
  }

  function CbcDecrypt(bs: nat, dec: seq<byte> -> seq<byte>, iv: seq<byte>, y: seq<byte>): (r: seq<byte>)
    decreases |y|
  {
    if bs == 0 || |y| < bs || |iv| != bs || |dec(y[..bs])| != bs then []
    else XorAll(dec(y[..bs]), iv) + CbcDecrypt(bs, dec, y[..bs], y[bs..])
  }

  /** The chaining value left behind: the last block of ciphertext. */
  function LastBlock(bs: nat, iv: seq<byte>, y: seq<byte>): seq<byte> {
    if |y| < bs then iv else y[|y| - bs..]
  }

  /** A whole number of blocks. */
  predicate Whole(len: nat, bs: nat) {
    len == 0 || (0 < bs <= len && Whole(len - bs, bs))
  }

  lemma {:induction false} WholeMod(len: nat, bs: nat)
    requires bs > 0
    ensures Whole(len, bs) <==> len % bs == 0
  {
    if len >= bs {
      WholeMod(len - bs, bs);
      IndexNextLap(len - bs, bs);
    } else {
      IndexSmall(len, bs);
    }
  }

  lemma {:induction false} CbcRoundTrip(bs: nat, enc: seq<byte> -> seq<byte>, dec: seq<byte> -> seq<byte>, iv: seq<byte>, x: seq<byte>)
    requires Block(bs, enc, dec) && |iv| == bs && Whole(|x|, bs)
    ensures |CbcEncrypt(bs, enc, iv, x)| == |x| && CbcDecrypt(bs, dec, iv, CbcEncrypt(bs, enc, iv, x)) == x
    decreases |x|
  {
    if x != [] {
      var c := enc(XorAll(x[..bs], iv));
      assert |c| == bs && |dec(c)| == bs && dec(c) == XorAll(x[..bs], iv);
      CbcRoundTrip(bs, enc, dec, c, x[bs..]);
      XorAllTwice(x[..bs], iv);
      var rest := CbcEncrypt(bs, enc, c, x[bs..]);
      CbcStep(bs, enc, iv, x);
      CbcUnstep(bs, dec, iv, c, rest);
      hide XorAll, CbcEncrypt, CbcDecrypt, Block;
      assert x == x[..bs] + x[bs..];
    }
  }

  lemma CbcStep(bs: nat, enc: seq<byte> -> seq<byte>, iv: seq<byte>, x: seq<byte>)
    requires 0 < bs <= |x| && |iv| == bs
    ensures var c := enc(XorAll(x[..bs], iv)); CbcEncrypt(bs, enc, iv, x) == c + CbcEncrypt(bs, enc, c, x[bs..])
  {
  }

  lemma CbcUnstep(bs: nat, dec: seq<byte> -> seq<byte>, iv: seq<byte>, c: seq<byte>, rest: seq<byte>)
    requires 0 < bs == |c| == |iv| && |dec(c)| == bs
    ensures CbcDecrypt(bs, dec, iv, c + rest) == XorAll(dec(c), iv) + CbcDecrypt(bs, dec, c, rest)
  {
    assert (c + rest)[..bs] == c && (c + rest)[bs..] == rest;
  }

  /** Encrypting in two calls is encrypting in one. */
  lemma {:induction false} CbcTwoCalls(bs: nat, enc: seq<byte> -> seq<byte>, dec: seq<byte> -> seq<byte>, iv: seq<byte>, a: seq<byte>, b: seq<byte>)
    requires Block(bs, enc, dec) && |iv| == bs && Whole(|a|, bs)
    ensures var y := CbcEncrypt(bs, enc, iv, a);
            CbcEncrypt(bs, enc, iv, a + b) == y + CbcEncrypt(bs, enc, LastBlock(bs, iv, y), b)
    decreases |a|
  {
    if a != [] {
      var c := enc(XorAll(a[..bs], iv));
      assert |c| == bs;
      assert (a + b)[..bs] == a[..bs] && (a + b)[bs..] == a[bs..] + b;
      CbcStep(bs, enc, iv, a);
      CbcStep(bs, enc, iv, a + b);
      hide CbcEncrypt, XorAll, CbcDecrypt, LastBlock;
      CbcTwoCalls(bs, enc, dec, c, a[bs..], b);
      CbcRoundTrip(bs, enc, dec, c, a[bs..]);
      hide Block;
      var y := CbcEncrypt(bs, enc, c, a[bs..]);
      LastOfTwo(bs, iv, c, y);
      Regroup(c, y, CbcEncrypt(bs, enc, LastBlock(bs, c, y), b));
    } else {
      assert a + b == b;
      assert CbcEncrypt(bs, enc, iv, a) == [];
    }
  }

  lemma LastOfTwo(bs: nat, iv: seq<byte>, c: seq<byte>, y: seq<byte>)
    requires |c| == bs > 0 && Whole(|y|, bs)
    ensures LastBlock(bs, iv, c + y) == LastBlock(bs, c, y)
  {
  }

  // ----- one record -----------------------------------------------------------------------------

  /** The explicit initialisation vector or nonce in front of the data. */
  function ExplicitLen(k: Keys): nat {
    match k.cipher
    case Cbc(bs, _, _) => if k.version >= TLS11 || k.version == GMSSL then bs else 0
    case Aead(nonceLen, _, _, _) => nonceLen
    case _ => 0
  }

  ghost predicate GoodPosition(k: Keys, pos: Position) {
    |pos.num| == 8 && (k.cipher.Cbc? ==> |pos.iv| == k.cipher.blockSize)
  }

  function Tagged(k: Keys, num: seq<byte>, head: seq<byte>, data: seq<byte>): seq<byte> {
    data + if k.mac.Mac? then k.mac.tag(num, head + ToBytes(|data|, 2), data) else []
  }

  function Nonce(explicit: seq<byte>, num: seq<byte>): seq<byte> {
    if explicit == [] then num else explicit
  }

  function AdditionalData(num: seq<byte>, head: seq<byte>, n: int): seq<byte> {
    num + head + ToBytes(n % 0x10000, 2)
  }

  function Iv(explicit: seq<byte>, pos: Position): seq<byte> {
    if explicit == [] then pos.iv else explicit
  }

  /** What the cipher makes of the data with its MAC. */
  function Covered(k: Keys, pos: Position, head: seq<byte>, explicit: seq<byte>, t: seq<byte>): seq<byte>
  {
    match k.cipher
    case NoCipher => explicit + t
    case Stream(key) => XorStream(key, pos.stream, explicit + t)
    case Aead(_, _, seal, _) => explicit + seal(Nonce(explicit, pos.num), t, AdditionalData(pos.num, head, |t|))
    case Cbc(bs, enc, _) => explicit + CbcEncrypt(bs, enc, Iv(explicit, pos), t + Padding(|t|, bs))
  }

  /** The part of a record behind its header. `head` are type and version. */
  function Sealed(k: Keys, pos: Position, head: seq<byte>, explicit: seq<byte>, data: seq<byte>): seq<byte>
  {
    Covered(k, pos, head, explicit, Tagged(k, pos.num, head, data))
  }

  function Record(head: seq<byte>, body: seq<byte>): seq<byte> {
    head + ToBytes(|body|, 2) + body
  }

  function NextStream(k: Keys, pos: Position, body: seq<byte>): nat {
    if k.cipher.Stream? then pos.stream + |body| else pos.stream
  }

  function NextIv(k: Keys, pos: Position, body: seq<byte>): seq<byte> {
    var e := ExplicitLen(k);
    if k.cipher.Cbc? && e <= |body| then LastBlock(k.cipher.blockSize, Iv(body[..e], pos), body[e..]) else pos.iv
  }

  /** The position after a record with this encrypted part. */
  function After(k: Keys, pos: Position, body: seq<byte>): Position {
    Position(ToBytes(BigEndian(pos.num) + 1, 8), NextStream(k, pos, body), NextIv(k, pos, body))
  }

  /** Decrypted payload, how much of its end is padding, and whether that is good. */
  datatype Plain = Plain(payload: seq<byte>, padding: nat, good: bool)

  ghost function Uncovered(k: Keys, pos: Position, head: seq<byte>, body: seq<byte>): Option<Plain>
  {
    match k.cipher
    case NoCipher => Some(Plain(body, 0, true))
    case Stream(key) => Some(Plain(XorStream(key, pos.stream, body), 0, true))
    case Aead(nonceLen, overhead, _, open) =>
      if |body| < nonceLen then None
      else (match open(Nonce(body[..nonceLen], pos.num), body[nonceLen..], AdditionalData(pos.num, head, |body| - nonceLen - overhead))
            case None => None
            case Some(p) => Some(Plain(p, 0, true)))
    case Cbc(bs, _, dec) =>
      var e := ExplicitLen(k);
      if bs == 0 || Index(|body|, bs) != 0 || |body| < RoundUp(e + MacSize(k.mac) + 1, bs) || |body| < e then None
      else
        var p := CbcDecrypt(bs, dec, Iv(body[..e], pos), body[e..]);
        Some(Unpadded(k.version, p))
  }

  /** SSL 3.0 does not check the contents of the padding. */
  ghost function Unpadded(version: nat, p: seq<byte>): Plain {
    var pad := if p == [] then 0 else p[|p| - 1] as int + 1;
    if version == SSL30 then (if pad <= |p| then Plain(p, pad, p != []) else Plain(p, 0, false))
    else Plain(p, pad, PaddingOk(p))
  }

  function RoundUp(a: nat, b: nat): nat
    requires b > 0
  {
    a + Index(b - Index(a, b), b)
  }

  /** Check and strip the MAC. */
  ghost function Stripped(k: Keys, num: seq<byte>, head: seq<byte>, p: Plain): Option<seq<byte>> {
    if k.mac.NoMac? then Some(p.payload)
    else
      var len := |p.payload| - k.mac.size;
      if len < 0 then None
      else
        var n := if len - p.padding < 0 then 0 else len - p.padding;
        if k.mac.tag(num, head + ToBytes(n, 2), p.payload[..n]) != p.payload[n..n + k.mac.size] || !p.good then None
        else Some(p.payload[..n])
  }

  /** What the receiver makes of a record: the data, or None for a bad_record_mac alert. */
  ghost function Opened(k: Keys, pos: Position, head: seq<byte>, body: seq<byte>): Option<seq<byte>>
  {
    match Uncovered(k, pos, head, body)
    case None => None
    case Some(p) => Stripped(k, pos.num, head, p)
  }

  // ----- decryption undoes encryption -----------------------------------------------------------

  lemma StripTagged(k: Keys, num: seq<byte>, head: seq<byte>, data: seq<byte>, pad: seq<byte>)
    requires Sound(k) && (k.mac.NoMac? ==> pad == [])
    ensures Stripped(k, num, head, Plain(Tagged(k, num, head, data) + pad, |pad|, true)) == Some(data)
  {
    var t := Tagged(k, num, head, data);
    if k.mac.Mac? {
      var n := |data|;
      assert |t| == n + k.mac.size;
      assert (t + pad)[..n] == data && (t + pad)[n..n + k.mac.size] == t[n..];
    } else {
      assert t + pad == t == data;
    }
  }

  lemma UncoverCbc(k: Keys, pos: Position, head: seq<byte>, explicit: seq<byte>, data: seq<byte>)
    requires Sound(k) && k.cipher.Cbc? && GoodPosition(k, pos) && |explicit| == ExplicitLen(k)
    ensures var t, bs := Tagged(k, pos.num, head, data), k.cipher.blockSize;
            Uncovered(k, pos, head, Sealed(k, pos, head, explicit, data)) == Some(Plain(t + Padding(|t|, bs), |Padding(|t|, bs)|, true))
  {
    var bs, enc, dec := k.cipher.blockSize, k.cipher.enc, k.cipher.dec;
    assert Block(bs, enc, dec) && 0 < bs <= 256;
    hide Sound, Tagged, CbcEncrypt, CbcDecrypt, PaddingOk, Padding, Index;
    var t := Tagged(k, pos.num, head, data);
    TaggedLength(k, pos.num, head, data);
    var x, iv := t + Padding(|t|, bs), Iv(explicit, pos);
    PaddingAccepted(t, bs);
    WholeMod(|x|, bs);
    CbcRoundTrip(bs, enc, dec, iv, x);
    hide Block;
    var y := CbcEncrypt(bs, enc, iv, x);
    var body := explicit + y;
    assert body[..|explicit|] == explicit && body[|explicit|..] == y;
    CbcLength(|t|, |x|, |explicit|, MacSize(k.mac), bs);
  }

  lemma TaggedLength(k: Keys, num: seq<byte>, head: seq<byte>, data: seq<byte>)
    requires Sound(k)
    ensures |Tagged(k, num, head, data)| == |data| + MacSize(k.mac)
  {
  }

  /** The length test of decrypt never rejects what encrypt made. */
  lemma CbcLength(t: nat, x: nat, e: nat, mac: nat, bs: nat)
    requires bs > 0 && t >= mac && x >= t + 1 && x % bs == 0 && (e == 0 || e == bs)
    ensures Index(e + x, bs) == 0 && RoundUp(e + mac + 1, bs) <= e + x
  {
    DivModUnique(e + x, bs, x / bs + e / bs, 0) by { QuotientSum(e, x, bs); }
    RoundUpLeast(e + mac + 1, bs, e + x);
  }

  lemma QuotientSum(e: nat, x: nat, bs: nat)
    requires bs > 0 && x % bs == 0 && (e == 0 || e == bs)
    ensures e + x == bs * (x / bs + e / bs)
  {
    if e == bs { DivModUnique(bs, bs, 1, 0); }
    assert bs * (x / bs + e / bs) == bs * (x / bs) + bs * (e / bs);
  }

  /** RoundUp gives the least multiple that is large enough. */
  lemma RoundUpLeast(a: nat, bs: nat, m: nat)
    requires bs > 0 && a <= m && Index(m, bs) == 0
    ensures RoundUp(a, bs) <= m
  {
    var r := Index(a, bs);
    IndexSmall(bs - r, bs);
    if r > 0 && m < a + (bs - r) {
      IndexAdd(a, m - a, bs);
      IndexSmall(r + (m - a), bs);
    }
  }

  /** The receiver in the same position gets the data back, and is in the same position again. */
  lemma OpenSealed(k: Keys, pos: Position, head: seq<byte>, explicit: seq<byte>, data: seq<byte>)
    requires Sound(k) && GoodPosition(k, pos) && |explicit| == ExplicitLen(k)
    ensures Opened(k, pos, head, Sealed(k, pos, head, explicit, data)) == Some(data)
  {
    var t := Tagged(k, pos.num, head, data);
    var none: seq<byte> := [];
    assert t + none == t;
    match k.cipher
    case NoCipher =>
      assert explicit + t == t;
      StripTagged(k, pos.num, head, data, none);
    case Stream(key) =>
      assert explicit + t == t;
      XorStreamTwice(key, pos.stream, t);
      StripTagged(k, pos.num, head, data, none);
    case Aead(nonceLen, overhead, seal, open) =>
      var c := seal(Nonce(explicit, pos.num), t, AdditionalData(pos.num, head, |t|));
      assert (explicit + c)[..nonceLen] == explicit && (explicit + c)[nonceLen..] == c;
      StripTagged(k, pos.num, head, data, none);
    case Cbc(bs, _, _) =>
      UncoverCbc(k, pos, head, explicit, data);
      hide Uncovered, Sealed;
      StripTagged(k, pos.num, head, data, Padding(|t|, bs));
  }

  // ----- one direction of a connection ----------------------------------------------------------

  /** Adding one to a number written in bytes: the trailing 255s turn to 0, the byte before them goes up. */
  lemma {:induction false} Carry(s: seq<byte>, s': seq<byte>, i: nat)
    requires i < |s| == |s'| && s[i] < 255 && s'[i] == s[i] + 1 && s'[..i] == s[..i]
    requires forall j :: i < j < |s| ==> s[j] == 255 && s'[j] == 0
    ensures BigEndian(s') == BigEndian(s) + 1
  {
    var n := |s| - 1;
    if i < n {
      assert s'[..n][..i] == s'[..i] && s[..n][..i] == s[..i];
      Carry(s[..n], s'[..n], i);
    } else {
      assert s'[..n] == s[..n];
    }
  }

  lemma {:induction false} AllOnesIsLast(s: seq<byte>)
    requires forall j :: 0 <= j < |s| ==> s[j] == 255
    ensures BigEndian(s) + 1 == Power256(|s|)
  {
    if s != [] { AllOnesIsLast(s[..|s| - 1]); }
  }

  /** A record being built or taken apart. */
  class Chunk {
    var data: seq<byte>

    constructor (d: seq<byte>)
      ensures data == d
    {
      data := d;
    }
  }

  class HalfConn {
    var keys: Keys
    var nextKeys: Option<Keys>
    const num: array<byte>
    var stream: nat
    var iv: seq<byte>

    ghost predicate Valid()
      reads this, num
    {
      num.Length == 8 && Sound(keys) && GoodPosition(keys, Pos())
    }

    function Pos(): Position
      reads this, num
    {
      Position(num[..], stream, iv)
    }

    constructor ()
      ensures Valid() && keys == Keys(TLS10, NoCipher, NoMac) && nextKeys == None && num[..] == ToBytes(0, 8) && fresh(num)
    {
      keys, nextKeys := Keys(TLS10, NoCipher, NoMac), None;
      num := new byte[8](_ => 0);
      stream, iv := 0, [];
      new;
      ZeroBytes(8);
    }

    method PrepareCipherSpec(k: Keys)
      modifies this`nextKeys
      ensures nextKeys == Some(k)
    {
      nextKeys := Some(k);
    }

    /** `changeCipherSpec`: the prepared keys take over and the sequence number starts again from zero. A CBC
        cipher comes with its first chaining value. */
    method ChangeCipherSpec(firstIv: seq<byte>) returns (ok: bool)
      requires Valid() && (nextKeys.Some? ==> Sound(nextKeys.value) && (nextKeys.value.cipher.Cbc? ==> |firstIv| == nextKeys.value.cipher.blockSize))
      modifies this, num
      ensures Valid() && ok == old(nextKeys.Some?)
      ensures if ok then keys == old(nextKeys.value) && nextKeys == None && Pos() == Position(ToBytes(0, 8), 0, firstIv)
              else keys == old(keys) && Pos() == old(Pos())
    {
      if nextKeys.None? { return false; }
      keys, nextKeys := nextKeys.value, None;
      stream, iv := 0, firstIv;
      forall i | 0 <= i < 8 { num[i] := 0; }
      ZeroBytes(8);
      ok := true;
    }

    /** `incSeq`: the next sequence number; false stands for the panic when it would wrap. */
    method IncSeq() returns (ok: bool)
      requires num.Length == 8
      modifies num
      ensures ok <==> old(BigEndian(num[..])) + 1 < Power256(8)
      ensures ok ==> num[..] == ToBytes(old(BigEndian(num[..])) + 1, 8)
    {
      ghost var s := num[..];
      var i := 7;
      while i >= 0
        invariant -1 <= i <= 7 && num[..i + 1] == s[..i + 1]
        invariant forall j :: i < j < 8 ==> s[j] == 255 && num[j] == 0
      {
        assert num[i] == num[..i + 1][i] == s[i];
        num[i] := (num[i] as int + 1) % 256;
        if num[i] != 0 {
          Carry(s, num[..], i);
          ToBytesRoundTrip(num[..]);
          return true;
        }
        i := i - 1;
      }
      AllOnesIsLast(s);
      ok := false;
    }

    /** `encrypt`: MAC, padding and encryption in place. */
    method Encrypt(b: Chunk, e: nat)
      requires Valid() && e == ExplicitLen(keys) && |b.data| >= HeaderLen + e
      requires b.data[3..5] == ToBytes(|b.data| - HeaderLen - e, 2) && BigEndian(num[..]) + 1 < Power256(8)
      modifies this`stream, this`iv, num, b
      ensures Valid()
      ensures var d := old(b.data);
              var body := Sealed(keys, old(Pos()), d[..3], d[HeaderLen..HeaderLen + e], d[HeaderLen + e..]);
              b.data == Record(d[..3], body) && Pos() == After(keys, old(Pos()), body)
    {
      hide BigEndian, ToBytes, Padding, CbcEncrypt, Sound, Covered, NextIv, NextStream, GoodPosition;
      ghost var pos, head, explicit, data := Pos(), b.data[..3], b.data[HeaderLen..HeaderLen + e], b.data[HeaderLen + e..];
      assert b.data[..HeaderLen] == head + ToBytes(|data|, 2);
      if keys.mac.Mac? {
        var tag := keys.mac.tag(num[..], b.data[..HeaderLen], b.data[HeaderLen + e..]);
        b.data := b.data + tag;
      }
      ghost var t := Tagged(keys, pos.num, head, data);
      assert b.data[HeaderLen..] == explicit + t && b.data[..3] == head;
      var body := Cover(b.data[HeaderLen..], e, b.data[..3], t, explicit);
      b.data := b.data[..3] + ToBytes(|body|, 2) + body;
      GoodAfter(keys, pos, body);
      var ok := IncSeq();
    }

    /** The switch over the kinds of ciphers. */
    method Cover(payload: seq<byte>, e: nat, head: seq<byte>, ghost t: seq<byte>, ghost explicit: seq<byte>) returns (body: seq<byte>)
      requires Valid() && e == ExplicitLen(keys) == |explicit| && payload == explicit + t
      modifies this`stream, this`iv
      ensures body == Covered(keys, old(Pos()), head, explicit, t)
      ensures stream == NextStream(keys, old(Pos()), body) && iv == NextIv(keys, old(Pos()), body)
    {
      hide BigEndian, ToBytes, Padding, CbcEncrypt, XorStream, Sound;
      assert payload[..e] == explicit && payload[e..] == t;
      match keys.cipher
      case NoCipher =>
        body := payload;
      case Stream(key) =>
        body := XorStream(key, stream, payload);
        stream := stream + |payload|;
      case Aead(_, _, seal, _) =>
        var nonce := if e == 0 then num[..] else payload[..e];
        var p := payload[e..];
        body := payload[..e] + seal(nonce, p, AdditionalData(num[..], head, |p|));
      case Cbc(bs, enc, dec) =>
        if e > 0 { iv := payload[..e]; }
        var c := CoverCbc(payload[e..]);
        body := payload[..e] + c;
        assert body[..e] == explicit && body[e..] == c;
    }

    /** The last whole blocks go through the cipher after the others, in a call of their own. */
    method CoverCbc(p: seq<byte>) returns (c: seq<byte>)
      requires num.Length == 8 && Sound(keys) && keys.cipher.Cbc? && |iv| == keys.cipher.blockSize
      modifies this`iv
      ensures c == CbcEncrypt(keys.cipher.blockSize, keys.cipher.enc, old(iv), p + Padding(|p|, keys.cipher.blockSize))
      ensures iv == LastBlock(keys.cipher.blockSize, old(iv), c)
    {
      hide Padding, CbcEncrypt;
      var bs, enc := keys.cipher.blockSize, keys.cipher.enc;
      ghost var dec, first := keys.cipher.dec, iv;
      var prefix, finalBlock := PadToBlockSize(p, bs);
      PrefixWhole(|p|, |prefix|, bs);
      CbcTwoCalls(bs, enc, dec, iv, prefix, finalBlock);
      CbcRoundTrip(bs, enc, dec, iv, prefix);
      var c1 := CbcEncrypt(bs, enc, iv, prefix);
      iv := LastBlock(bs, iv, c1);
      assert |iv| == bs;
      WholeOne(bs);
      CbcRoundTrip(bs, enc, dec, iv, finalBlock);
      var c2 := CbcEncrypt(bs, enc, iv, finalBlock);
      hide Block, Sound;
      LastOfTwo2(bs, first, c1, c2);
      iv := LastBlock(bs, iv, c2);
      c := c1 + c2;
    }

    /** `decrypt`: in place, with the check that takes the same time for every padding. */
    method Decrypt(b: Chunk) returns (ok: bool, prefixLen: nat)
      requires Valid() && HeaderLen <= |b.data| < 0x8000_0000
      requires BigEndian(num[..]) + 1 < Power256(8)
      modifies this`stream, this`iv, num, b
      ensures var head, body := old(b.data[..3]), old(b.data[HeaderLen..]);
              var r := Opened(keys, old(Pos()), head, body);
              && (ok <==> r.Some?)
              && (ok ==> Valid() && prefixLen <= |b.data| && b.data[prefixLen..] == r.value && Pos() == After(keys, old(Pos()), body))
    {
      hide BigEndian, ToBytes, Sound, Uncovered, NextIv, NextStream, GoodPosition;
      ghost var pos, head, body := Pos(), b.data[..3], b.data[HeaderLen..];
      var e := ExplicitLen(keys);
      var payload, paddingLen, good;
      ok, payload, paddingLen, good := Uncover(b.data[..3], b.data[HeaderLen..]);
      if !ok { return false, 0; }
      var n := |payload|;
      if keys.mac.Mac? {
        var macSize := keys.mac.size;
        if |payload| < macSize { return false, 0; }
        n := if |payload| - macSize - paddingLen < 0 then 0 else |payload| - macSize - paddingLen;
        var remoteMac := payload[n..n + macSize];
        var localMac := keys.mac.tag(num[..], b.data[..3] + ToBytes(n, 2), payload[..n]);
        if localMac != remoteMac || good != 255 { return false, 0; }
      }
      prefixLen := HeaderLen + e;
      b.data := b.data[..prefixLen] + payload[..n];
      GoodAfter(keys, pos, body);
      ok := IncSeq();
    }

    method Uncover(head: seq<byte>, body: seq<byte>) returns (ok: bool, payload: seq<byte>, padding: nat, good: bv8)
      requires Valid() && |body| < 0x8000_0000
      modifies this`stream, this`iv
      ensures var r := Uncovered(keys, old(Pos()), head, body);
              && (ok <==> r.Some?)
              && (ok ==> r == Some(Plain(payload, padding, good == 255)))
      ensures ok ==> stream == NextStream(keys, old(Pos()), body) && iv == NextIv(keys, old(Pos()), body) && ExplicitLen(keys) <= |body|
    {
      hide ToBytes, Sound, XorStream;
      payload, padding, good := body, 0, 255;
      match keys.cipher
      case NoCipher =>
        ok := true;
      case Stream(key) =>
        payload := XorStream(key, stream, body);
        stream := stream + |body|;
        ok := true;
      case Aead(nonceLen, overhead, _, open) =>
        if |body| < nonceLen { return false, [], 0, 0; }
        var nonce := body[..nonceLen];
        if |nonce| == 0 { nonce := num[..]; }
        var ct := body[nonceLen..];
        var p := open(nonce, ct, AdditionalData(num[..], head, |ct| - overhead));
        if p.None? { return false, [], 0, 0; }
        payload, ok := p.value, true;
      case Cbc(bs, enc, dec) =>
        ok, payload, padding, good := UncoverBlocks(body);
    }

    method UncoverBlocks(body: seq<byte>) returns (ok: bool, payload: seq<byte>, padding: nat, good: bv8)
      requires Valid() && keys.cipher.Cbc? && |body| < 0x8000_0000
      modifies this`iv
      ensures var r := Uncovered(keys, old(Pos()), [], body);
              && (ok <==> r.Some?)
              && (ok ==> r == Some(Plain(payload, padding, good == 255)))
      ensures ok ==> iv == NextIv(keys, old(Pos()), body) && ExplicitLen(keys) <= |body|
    {
      var bs, dec, e := keys.cipher.blockSize, keys.cipher.dec, ExplicitLen(keys);
      hide Sound, RoundUp, Index, CbcDecrypt, Unpadded;
      if Index(|body|, bs) != 0 || |body| < RoundUp(e + MacSize(keys.mac) + 1, bs) || |body| < e { return false, [], 0, 0; }
      if e > 0 { iv := body[..e]; }
      payload := CbcDecrypt(bs, dec, iv, body[e..]);
      iv := LastBlock(bs, iv, body[e..]);
      CbcShorter(bs, dec, Iv(body[..e], old(Pos())), body[e..]);
      padding, good := CheckPadding(keys.version, payload);
      ok := true;
    }
  }

  method CheckPadding(version: nat, p: seq<byte>) returns (padding: nat, good: bv8)
    requires |p| < 0x8000_0000
    ensures Plain(p, padding, good == 255) == Unpadded(version, p)
  {
    hide PaddingOk;
    if version == SSL30 { padding, good := ExtractPaddingSSL30(p); } else { padding, good := ExtractPadding(p); }
  }

  lemma {:induction false} CbcShorter(bs: nat, dec: seq<byte> -> seq<byte>, iv: seq<byte>, y: seq<byte>)
    requires bs > 0
    ensures |CbcDecrypt(bs, dec, iv, y)| <= |y|
    decreases |y|
  {
    if |y| >= bs { CbcShorter(bs, dec, y[..bs], y[bs..]); }
  }

  /** The next position is one that can be used again. */
  lemma GoodAfter(k: Keys, pos: Position, body: seq<byte>)
    requires GoodPosition(k, pos)
    ensures GoodPosition(k, After(k, pos, body))
  {
    hide BigEndian, ToBytes;
  }

  lemma ZeroBytes(k: nat)
    ensures ToBytes(0, k) == seq(k, i => 0)
  {
  }

  lemma WholeOne(bs: nat)
    requires bs > 0
    ensures Whole(bs, bs)
  {
    assert Whole(0, bs);
  }

  lemma PrefixWhole(n: nat, k: nat, bs: nat)
    requires bs > 0 && k == n - Index(n, bs)
    ensures Whole(k, bs)
  {
    assert k == bs * (n / bs);
    DivModUnique(k, bs, n / bs, 0);
    WholeMod(k, bs);
  }

  lemma LastOfTwo2(bs: nat, iv: seq<byte>, a: seq<byte>, b: seq<byte>)
    requires |b| == bs > 0
    ensures LastBlock(bs, iv, a + b) == LastBlock(bs, LastBlock(bs, iv, a), b) == b
  {
  }

  // ----- many records ---------------------------------------------------------------------------

  /** One record's share of the data, with the explicit IV or nonce it was sent with. */
  datatype Fragment = Fragment(explicit: seq<byte>, data: seq<byte>)

  ghost predicate GoodFragments(k: Keys, fs: seq<Fragment>) {
    forall i :: 0 <= i < |fs| ==> |fs[i].explicit| == ExplicitLen(k) && 0 < |fs[i].data| <= MaxPlaintext
  }

  function Joined(fs: seq<Fragment>): seq<byte> {
    if fs == [] then [] else Joined(fs[..|fs| - 1]) + fs[|fs| - 1].data
  }

  /** Where the sender is after these records. */
  ghost function PosAfter(k: Keys, pos: Position, head: seq<byte>, fs: seq<Fragment>): Position
  {
    if fs == [] then pos
    else var p, f := PosAfter(k, pos, head, fs[..|fs| - 1]), fs[|fs| - 1]; After(k, p, Sealed(k, p, head, f.explicit, f.data))
  }

  /** The bytes on the wire. */
  ghost function Wire(k: Keys, pos: Position, head: seq<byte>, fs: seq<Fragment>): seq<byte>
  {
    if fs == [] then []
    else
      var p, f := PosAfter(k, pos, head, fs[..|fs| - 1]), fs[|fs| - 1];
      Wire(k, pos, head, fs[..|fs| - 1]) + Record(head, Sealed(k, p, head, f.explicit, f.data))
  }

  /** What a receiver makes of the bytes: the payloads of the whole records in them, until one is bad; the bytes
      of an unfinished record stay behind. */
  datatype Received = Received(data: seq<byte>, pos: Position, rest: seq<byte>, bad: bool)

  ghost function Receive(k: Keys, pos: Position, wire: seq<byte>): Received
    decreases |wire|
  {
    if |wire| < HeaderLen then Received([], pos, wire, false)
    else
      var n := BigEndian(wire[3..5]);
      if n > MaxCiphertext then Received([], pos, wire, true)
      else if |wire| < HeaderLen + n then Received([], pos, wire, false)
      else
        var body := wire[HeaderLen..HeaderLen + n];
        match Opened(k, pos, wire[..3], body)
        case None => Received([], pos, wire, true)
        case Some(d) =>
          if |d| > MaxPlaintext then Received([], pos, wire, true)
          else var r := Receive(k, After(k, pos, body), wire[HeaderLen + n..]); r.(data := d + r.data)
  }

  lemma BodyFits(k: Keys, pos: Position, head: seq<byte>, explicit: seq<byte>, data: seq<byte>)
    requires Sound(k) && GoodPosition(k, pos) && |explicit| == ExplicitLen(k) && |data| <= MaxPlaintext
    ensures |Sealed(k, pos, head, explicit, data)| <= MaxCiphertext
  {
    TaggedLength(k, pos.num, head, data);
    if k.cipher.Cbc? {
      var t, bs := Tagged(k, pos.num, head, data), k.cipher.blockSize;
      PaddingAccepted(t, bs);
      WholeMod(|t + Padding(|t|, bs)|, bs);
      CbcRoundTrip(bs, k.cipher.enc, k.cipher.dec, Iv(explicit, pos), t + Padding(|t|, bs));
      hide CbcEncrypt, CbcDecrypt, Tagged, PaddingOk, Block;
    } else {
      hide Tagged;
    }
  }

  /** A record in front of anything is read as the data it was made of. */
  lemma ReceiveRecord(k: Keys, pos: Position, head: seq<byte>, f: Fragment, rest: seq<byte>)
    requires Sound(k) && GoodPosition(k, pos) && |head| == 3 && |f.explicit| == ExplicitLen(k) && |f.data| <= MaxPlaintext
    ensures var body := Sealed(k, pos, head, f.explicit, f.data);
            var r := Receive(k, After(k, pos, body), rest);
            Receive(k, pos, Record(head, body) + rest) == r.(data := f.data + r.data)
  {
    var body := Sealed(k, pos, head, f.explicit, f.data);
    var w := Record(head, body) + rest;
    OpenSealed(k, pos, head, f.explicit, f.data);
    BodyFits(k, pos, head, f.explicit, f.data);
    assert Power256(2) == 0x10000;
    BigEndianRoundTrip(|body|, 2);
    assert w[..3] == head && w[3..5] == ToBytes(|body|, 2) && w[HeaderLen..HeaderLen + |body|] == body && w[HeaderLen + |body|..] == rest;
    hide Sealed, Opened, After, ToBytes, BigEndian, Sound, GoodPosition;
  }

  lemma {:induction false} GoodPosAfter(k: Keys, pos: Position, head: seq<byte>, fs: seq<Fragment>)
    requires Sound(k) && GoodPosition(k, pos)
    ensures GoodPosition(k, PosAfter(k, pos, head, fs))
  {
    if fs != [] {
      GoodPosAfter(k, pos, head, fs[..|fs| - 1]);
      var p, f := PosAfter(k, pos, head, fs[..|fs| - 1]), fs[|fs| - 1];
      GoodAfter(k, p, Sealed(k, p, head, f.explicit, f.data));
    }
  }

  /** Receiver and sender in step: whatever is sent is received, in order and complete, and they are in step again. */
  lemma {:induction false} ReceiveWire(k: Keys, pos: Position, head: seq<byte>, fs: seq<Fragment>, rest: seq<byte>)
    requires Sound(k) && GoodPosition(k, pos) && |head| == 3 && GoodFragments(k, fs)
    ensures var r := Receive(k, PosAfter(k, pos, head, fs), rest);
            Receive(k, pos, Wire(k, pos, head, fs) + rest) == r.(data := Joined(fs) + r.data)
    decreases |fs|
  {
    hide Receive, Record, Sealed, After, Sound, GoodPosition;
    if fs == [] {
      assert Wire(k, pos, head, fs) + rest == rest;
      var r := Receive(k, pos, rest);
      assert Joined(fs) + r.data == r.data;
    } else {
      var n := |fs| - 1;
      var p, f := PosAfter(k, pos, head, fs[..n]), fs[n];
      var record := Record(head, Sealed(k, p, head, f.explicit, f.data));
      assert fs == fs[..n] + [f];
      FragmentAdded(k, pos, head, fs[..n], f);
      GoodPosAfter(k, pos, head, fs[..n]);
      ReceiveWire(k, pos, head, fs[..n], record + rest);
      ReceiveRecord(k, p, head, f, rest);
      hide Wire, PosAfter, Joined;
      Regroup(Wire(k, pos, head, fs[..n]), record, rest);
      Regroup(Joined(fs[..n]), f.data, Receive(k, PosAfter(k, pos, head, fs), rest).data);
    }
  }

  lemma Regroup(a: seq<byte>, b: seq<byte>, c: seq<byte>)
    ensures a + b + c == a + (b + c)
  {
  }

  // ----- writing --------------------------------------------------------------------------------

  /** The first `n` bytes of the data have been written as the records `fs`. */
  ghost predicate Progress(k: Keys, pos: Position, head: seq<byte>, data: seq<byte>, n: nat, fs: seq<Fragment>, wire: seq<byte>, now: Position) {
    && n <= |data| && |fs| <= n && GoodFragments(k, fs) && Joined(fs) == data[..n]
    && wire == Wire(k, pos, head, fs) && now == PosAfter(k, pos, head, fs)
  }

  /** How a write ends: with all of the data, for lack of random bytes, or with a failed write to the network. */
  datatype WriteEnd = Complete | NoRandom | NetError

  /** The record whose write failed, and the number of bytes after which it did. */
  datatype Cut = Cut(f: Fragment, wanted: nat)

  ghost predicate CutOk(k: Keys, data: seq<byte>, n: nat, cut: Cut) {
    var m := |cut.f.data|;
    n + m <= |data| && cut.f.data == data[n..n + m] && 0 < m <= MaxPlaintext && |cut.f.explicit| == ExplicitLen(k)
  }

  /** The record behind those of `fs`. */
  ghost function CutRecord(k: Keys, pos: Position, head: seq<byte>, fs: seq<Fragment>, f: Fragment): seq<byte> {
    Record(head, Sealed(k, PosAfter(k, pos, head, fs), head, f.explicit, f.data))
  }

  /** How the bytes for the explicit part of the `i`-th record are found: the sequence number for an AEAD, random ones for CBC. */
  predicate Explicit(k: Keys, now: Position, random: (nat, nat) -> Option<seq<byte>>, i: nat, x: seq<byte>) {
    var e := ExplicitLen(k);
    if k.cipher.Aead? && e <= |now.num| then x == now.num[..e] else if e == 0 then x == [] else random(i, e) == Some(x)
  }

  /** What a write starts from: type and version, all it has to write, the counters, and the source of random bytes. */
  datatype Write = Write(k: Keys, pos: Position, head: seq<byte>, total: nat, ramp: bool, bytes: nat, packets: nat,
                         random: (nat, nat) -> Option<seq<byte>>)

  /** The next record after those of `fs` holds all that is left, up to the limit, which grows with the records until 128 KB have
      been sent on the connection. */
  ghost predicate NextIs(w: Write, fs: seq<Fragment>, f: Fragment) {
    && |Joined(fs)| <= w.total
    && |f.data| == AtMost(w.total - |Joined(fs)|, if w.ramp && w.bytes + |Wire(w.k, w.pos, w.head, fs)| < BoostThreshold then LimitAt(w.k, w.packets + |fs|) else MaxPlaintext)
    && Explicit(w.k, PosAfter(w.k, w.pos, w.head, fs), w.random, |fs|, f.explicit)
  }

  function AtMost(a: int, b: int): int { if a > b then b else a }

  ghost predicate CutUp(w: Write, fs: seq<Fragment>) {
    forall i :: 0 <= i < |fs| ==> NextIs(w, fs[..i], fs[i])
  }

  lemma CutUpMore(w: Write, fs: seq<Fragment>, f: Fragment)
    requires CutUp(w, fs) && NextIs(w, fs, f)
    ensures CutUp(w, fs + [f])
  {
    hide NextIs;
    var l := fs + [f];
    forall i | 0 <= i < |l| ensures NextIs(w, l[..i], l[i]) {
      assert i < |fs| ==> l[..i] == fs[..i];
      assert i == |fs| ==> l[..i] == fs;
    }
  }

  ghost predicate Writing(w: Write, data: seq<byte>, n: nat, fs: seq<Fragment>, wire: seq<byte>, now: Position) {
    Progress(w.k, w.pos, w.head, data, n, fs, wire, now) && CutUp(w, fs) && w.total == |data|
  }

  lemma WritingStart(w: Write, data: seq<byte>)
    requires w.total == |data|
    ensures Writing(w, data, 0, [], [], w.pos)
  {
  }

  lemma NextFragment(w: Write, data: seq<byte>, n: nat, fs: seq<Fragment>, wire: seq<byte>, now: Position, f: Fragment)
    requires Progress(w.k, w.pos, w.head, data, n, fs, wire, now) && w.total == |data|
    requires |f.data| == AtMost(|data| - n, if w.ramp && w.bytes + |wire| < BoostThreshold then LimitAt(w.k, w.packets + |fs|) else MaxPlaintext)
    requires Explicit(w.k, now, w.random, |fs|, f.explicit)
    ensures NextIs(w, fs, f)
  {
    hide Explicit, LimitAt, Wire, PosAfter, Joined;
  }

  lemma WritingStep(w: Write, data: seq<byte>, n: nat, m: nat, fs: seq<Fragment>, wire: seq<byte>, now: Position, f: Fragment)
    requires Writing(w, data, n, fs, wire, now) && 0 < m <= MaxPlaintext && n + m <= |data|
    requires f.data == data[n..n + m] && |f.explicit| == ExplicitLen(w.k) && Explicit(w.k, now, w.random, |fs|, f.explicit)
    requires m == AtMost(|data| - n, if w.ramp && w.bytes + |wire| < BoostThreshold then LimitAt(w.k, w.packets + |fs|) else MaxPlaintext)
    ensures var body := Sealed(w.k, now, w.head, f.explicit, f.data);
            Writing(w, data, n + m, fs + [f], wire + Record(w.head, body), After(w.k, now, body))
  {
    hide Sealed, After, Record, ExplicitLen, Explicit, LimitAt;
    NextFragment(w, data, n, fs, wire, now, f);
    CutUpMore(w, fs, f);
    FragmentAdded(w.k, w.pos, w.head, fs, f);
    hide Joined, Wire, PosAfter, CutUp, NextIs;
    assert data[..n] + data[n..n + m] == data[..n + m];
  }

  lemma WritingMeans(w: Write, data: seq<byte>, n: nat, fs: seq<Fragment>, wire: seq<byte>, now: Position)
    requires Writing(w, data, n, fs, wire, now)
    ensures n <= |data| && GoodFragments(w.k, fs) && Joined(fs) == data[..n] && CutUp(w, fs)
    ensures wire == Wire(w.k, w.pos, w.head, fs) && now == PosAfter(w.k, w.pos, w.head, fs)
  {
  }

  /** Type and version; before a version is agreed on, records claim TLS 1.0. */
  function Head(typ: byte, vers: nat): (h: seq<byte>)
    requires vers < 0x10000
    ensures |h| == 3
  {
    var v := if vers == 0 then TLS10 else vers;
    [typ, v / 256, v % 256]
  }

  class Conn {
    const out: HalfConn
    var vers: nat
    var fixedSize: bool
    var bytesSent: nat
    var packetsSent: nat
    var sent: seq<byte>

    ghost predicate Valid()
      reads this, out, out.num
    {
      out.Valid()
    }

    constructor (out: HalfConn, vers: nat, fixedSize: bool)
      requires out.Valid()
      ensures Valid() && this.out == out && this.vers == vers && this.fixedSize == fixedSize && sent == []
    {
      this.out, this.vers, this.fixedSize := out, vers, fixedSize;
      bytesSent, packetsSent, sent := 0, 0, [];
    }

    /** `maxPayloadSizeForWrite`: the first records of application data are as long as SegmentPayload and LimitAt
        say; after these, and for everything else, there is only the limit of the format. */
    method MaxPayload(application: bool, e: nat) returns (n: nat)
      requires Valid() && e == ExplicitLen(out.keys)
      modifies this`packetsSent
      ensures 0 < n <= MaxPlaintext
      ensures var ramp := application && !fixedSize && bytesSent < BoostThreshold;
              packetsSent == old(packetsSent) + (if ramp then 1 else 0) && n == if ramp then LimitAt(out.keys, old(packetsSent)) else MaxPlaintext
    {
      if fixedSize || !application { return MaxPlaintext; }
      if bytesSent >= BoostThreshold { return MaxPlaintext; }
      var macSize := MacSize(out.keys.mac);
      var payloadBytes := MssEstimate - HeaderLen - e;
      match out.keys.cipher {
        case NoCipher =>
        case Stream(_) => payloadBytes := payloadBytes - macSize;
        case Aead(_, overhead, _, _) => payloadBytes := payloadBytes - overhead;
        case Cbc(bs, _, _) =>
          // payloadBytes & ^(blockSize - 1), for a power of two
          payloadBytes := payloadBytes - Index(payloadBytes, bs) - 1;
          payloadBytes := payloadBytes - macSize;
      }
      var pkt := packetsSent;
      packetsSent := packetsSent + 1;
      if pkt > 1000 { return MaxPlaintext; }
      AtLeast(payloadBytes, pkt + 1);
      n := payloadBytes * (pkt + 1);
      if n > MaxPlaintext { n := MaxPlaintext; }
    }

    /** `writeRecordLocked` for one type of record: `random` is the source of explicit IVs, `net(i)` says whether the
        i-th write to the network fails, and after how many bytes. What is on the wire in the end is a sequence of
        whole records that hold the first `n` bytes of the data, and after a failed write the part of the next record
        that still got out; that record has used up its sequence number all the same. */
    method WriteRecord(typ: byte, data: seq<byte>, random: (nat, nat) -> Option<seq<byte>>, net: nat -> Option<nat>)
        returns (n: nat, end: WriteEnd, ghost fs: seq<Fragment>, ghost cut: Cut)
      requires Valid() && vers < 0x10000 && BigEndian(out.num[..]) + |data| + 1 < Power256(8)
      requires forall i, len :: random(i, len).Some? ==> |random(i, len).value| == len
      modifies this, out`stream, out`iv, out.num
      ensures Valid() && n <= |data| && GoodFragments(out.keys, fs) && Joined(fs) == data[..n] && (end.Complete? <==> n == |data|)
      ensures out.keys == old(out.keys) && (forall j :: 0 <= j < |fs| ==> net(j).None?)
      ensures CutUp(Write(out.keys, old(out.Pos()), Head(typ, old(vers)), |data|, typ == 23 && !fixedSize, old(bytesSent), old(packetsSent), random),
                    if end.NetError? then fs + [cut.f] else fs)
      ensures (end.NoRandom? ==> random(|fs|, ExplicitLen(out.keys)).None?) && bytesSent == old(bytesSent) + |sent| - |old(sent)|
      ensures var k, pos, head := out.keys, old(out.Pos()), Head(typ, old(vers));
              if end.NetError? then
                && CutOk(k, data, n, cut) && out.Pos() == PosAfter(k, pos, head, fs + [cut.f])
                && var record := CutRecord(k, pos, head, fs, cut.f);
                   net(|fs|) == Some(cut.wanted) && sent == old(sent) + (Wire(k, pos, head, fs) + record[..Min(cut.wanted, |record|)])
              else sent == old(sent) + Wire(k, pos, head, fs) && out.Pos() == PosAfter(k, pos, head, fs)
    {
      hide Sound, GoodPosition, BigEndian, ToBytes, Sealed, After, Record, Power256, Writing, PosAfter, ExplicitLen, GoodFragments, Wire, Joined, Head;
      hide CutUp, Explicit, LimitAt;
      n, fs := 0, [];
      cut := Cut(Fragment([], []), 0);
      ghost var k, pos := out.keys, out.Pos();
      var head := Head(typ, vers);
      var i := 0;
      ghost var wire: seq<byte> := [];
      ghost var w := Write(k, pos, head, |data|, typ == 23 && !fixedSize, bytesSent, packetsSent, random);
      WritingStart(w, data);
      while n < |data|
        invariant Valid() && n <= |data| && out.keys == k && vers == old(vers) && i == |fs| <= n
        invariant sent == old(sent) + wire && Writing(w, data, n, fs, wire, out.Pos())
        invariant BigEndian(out.num[..]) + |data| + 1 < Power256(8) + n
        invariant forall j :: 0 <= j < i ==> net(j).None?
        invariant fixedSize == old(fixedSize) && bytesSent == w.bytes + |wire|
        invariant w.ramp && bytesSent < BoostThreshold ==> packetsSent == w.packets + i
      {
        ghost var now := out.Pos();
        var m, ok, written;
        ghost var f;
        m, ok, written, f := NextOne(head, data[n..], typ == 23, i, random, net(i));
        if !ok { WritingMeans(w, data, n, fs, wire, out.Pos()); end := NoRandom; return; }
        ghost var record := Record(head, Sealed(k, now, head, f.explicit, f.data));
        assert data[n..][..m] == data[n..n + m];
        WritingStep(w, data, n, m, fs, wire, now, f);
        if net(i).Some? {
          end, cut := NetError, Cut(f, net(i).value);
          WritingMeans(w, data, n, fs, wire, now);
          WritingMeans(w, data, n + m, fs + [f], wire + record, out.Pos());
          Regroup(old(sent), wire, record[..written]);
          return;
        }
        Regroup(old(sent), wire, record);
        wire := wire + record;
        fs := fs + [f];
        i, n := i + 1, n + m;
      }
      WritingMeans(w, data, n, fs, wire, out.Pos());
      end := Complete;
    }

    /** The size of the next record and its explicit part, and the record itself. */
    method NextOne(head: seq<byte>, rest: seq<byte>, application: bool, i: nat, random: (nat, nat) -> Option<seq<byte>>, fail: Option<nat>)
        returns (m: nat, ok: bool, written: nat, ghost f: Fragment)
      requires Valid() && |head| == 3 && rest != [] && BigEndian(out.num[..]) + 1 < Power256(8)
      requires forall i, len :: random(i, len).Some? ==> |random(i, len).value| == len
      modifies this`packetsSent, this`sent, this`bytesSent, out`stream, out`iv, out.num
      ensures Valid()
      ensures var ramp := application && !fixedSize && old(bytesSent) < BoostThreshold;
              && packetsSent == old(packetsSent) + (if ramp then 1 else 0) && 0 < m <= |rest| && m <= MaxPlaintext
              && m == AtMost(|rest|, if ramp then LimitAt(out.keys, old(packetsSent)) else MaxPlaintext)
      ensures !ok ==> random(i, ExplicitLen(out.keys)).None? && out.Pos() == old(out.Pos()) && sent == old(sent) && bytesSent == old(bytesSent)
      ensures ok ==>
                && f.data == rest[..m] && |f.explicit| == ExplicitLen(out.keys) && Explicit(out.keys, old(out.Pos()), random, i, f.explicit)
                && var record := Record(head, Sealed(out.keys, old(out.Pos()), head, f.explicit, f.data));
                   && written == (if fail.None? then |record| else Min(fail.value, |record|)) && sent == old(sent) + record[..written]
                   && (fail.None? ==> sent == old(sent) + record) && bytesSent == old(bytesSent) + written
                   && out.Pos() == After(out.keys, old(out.Pos()), Sealed(out.keys, old(out.Pos()), head, f.explicit, f.data))
                   && BigEndian(out.num[..]) == old(BigEndian(out.num[..])) + 1
    {
      hide Sound, GoodPosition, BigEndian, ToBytes, Sealed, After, Record, Power256, ExplicitLen, Explicit, LimitAt;
      m, written := |rest|, 0;
      f := Fragment([], []);
      var maxPayload := MaxPayload(application, ExplicitLen(out.keys));
      if m > maxPayload { m := maxPayload; }
      var explicit := ExplicitIv(i, random);
      if explicit.None? { ok := false; return; }
      f := Fragment(explicit.value, rest[..m]);
      written := SendOne(head, explicit.value, rest[..m], fail);
      ok := true;
    }

    /** The nonce of an AEAD is the sequence number; a CBC cipher needs a random vector. */
    method ExplicitIv(i: nat, random: (nat, nat) -> Option<seq<byte>>) returns (r: Option<seq<byte>>)
      requires Valid() && forall i, len :: random(i, len).Some? ==> |random(i, len).value| == len
      ensures r.Some? ==> |r.value| == ExplicitLen(out.keys) && Explicit(out.keys, out.Pos(), random, i, r.value)
      ensures r.None? ==> random(i, ExplicitLen(out.keys)).None?
    {
      var e := ExplicitLen(out.keys);
      if e == 0 { return Some([]); }
      if out.keys.cipher.Aead? { return Some(out.num[..e]); }
      r := random(i, e);
    }

    /** One round of the loop: lay out the record, encrypt it, write it. Encryption comes first, so the position moves
        on whether the write fails or not. */
    method SendOne(head: seq<byte>, explicit: seq<byte>, data: seq<byte>, fail: Option<nat>) returns (written: nat)
      requires Valid() && |head| == 3 && |explicit| == ExplicitLen(out.keys) && |data| <= MaxPlaintext
      requires BigEndian(out.num[..]) + 1 < Power256(8)
      modifies this`sent, this`bytesSent, out`stream, out`iv, out.num
      ensures Valid() && BigEndian(out.num[..]) == old(BigEndian(out.num[..])) + 1 && bytesSent == old(bytesSent) + written
      ensures var body := Sealed(out.keys, old(out.Pos()), head, explicit, data);
              && written == (if fail.None? then |Record(head, body)| else Min(fail.value, |Record(head, body)|))
              && sent == old(sent) + Record(head, body)[..written] && out.Pos() == After(out.keys, old(out.Pos()), body)
      ensures fail.None? ==> sent == old(sent) + Record(head, Sealed(out.keys, old(out.Pos()), head, explicit, data))
    {
      hide BigEndian, ToBytes, Sealed, After, Sound, GoodPosition, Record;
      var b := new Chunk(head + ToBytes(|data|, 2) + explicit + data);
      assert b.data[..3] == head && b.data[HeaderLen..HeaderLen + |explicit|] == explicit && b.data[HeaderLen + |explicit|..] == data;
      assert b.data[3..5] == ToBytes(|data|, 2);
      BigEndianRoundTrip(BigEndian(out.num[..]) + 1, 8);
      ghost var pos := out.Pos();
      out.Encrypt(b, |explicit|);
      NextNumber(out.keys, pos, Sealed(out.keys, pos, head, explicit, data));
      written := if fail.None? then |b.data| else Min(fail.value, |b.data|);
      assert b.data[..|b.data|] == b.data;
      sent := sent + b.data[..written];
      bytesSent := bytesSent + written;
    }
  }

  /** The longest data whose record fits one TCP segment. */
  function SegmentPayload(k: Keys): int
  {
    var room := MssEstimate - HeaderLen - ExplicitLen(k);
    match k.cipher
    case NoCipher => room
    case Stream(_) => room - MacSize(k.mac)
    case Aead(_, overhead, _, _) => room - overhead
    case Cbc(bs, _, _) => if bs > 0 && room >= 0 then room - Index(room, bs) - 1 - MacSize(k.mac) else room
  }

  /** The limit after `pkt` records: it grows in steps of the first one. */
  function LimitAt(k: Keys, pkt: nat): int {
    if pkt > 1000 || SegmentPayload(k) * (pkt + 1) > MaxPlaintext then MaxPlaintext else SegmentPayload(k) * (pkt + 1)
  }

  /** A record of application data fits a TCP segment exactly when its data is not longer than the first limit. */
  lemma FitsSegment(k: Keys, pos: Position, head: seq<byte>, explicit: seq<byte>, data: seq<byte>)
    requires Sound(k) && GoodPosition(k, pos) && |head| == 3 && |explicit| == ExplicitLen(k)
    requires k.cipher.NoCipher? || k.cipher.Aead? ==> k.mac.NoMac?
    ensures |Record(head, Sealed(k, pos, head, explicit, data))| <= MssEstimate <==> |data| <= SegmentPayload(k)
  {
    TaggedLength(k, pos.num, head, data);
    if k.cipher.Cbc? {
      var t, bs := Tagged(k, pos.num, head, data), k.cipher.blockSize;
      PaddingAccepted(t, bs);
      WholeMod(|t + Padding(|t|, bs)|, bs);
      CbcRoundTrip(bs, k.cipher.enc, k.cipher.dec, Iv(explicit, pos), t + Padding(|t|, bs));
      hide CbcEncrypt, CbcDecrypt, Tagged, PaddingOk, Block;
      LastMultiple(MssEstimate - HeaderLen - |explicit|, |t|, bs);
    } else {
      hide Tagged;
    }
  }

  /** With its padding `t` stays within `room` exactly when it stays below the last multiple of `bs` there. */
  lemma LastMultiple(room: nat, t: nat, bs: nat)
    requires bs > 0
    ensures t + bs - Index(t, bs) <= room <==> t < room - Index(room, bs)
  {
    var q, r, q', r' := t / bs, Index(t, bs), room / bs, Index(room, bs);
    assert t == bs * q + r && r < bs && room == bs * q' + r' && r' < bs;
    hide Index;
    if q < q' { Multiples(bs, q, q'); } else { Multiples(bs, q' - 1, q); }
  }

  lemma {:induction false} Multiples(bs: nat, low: int, high: int)
    requires low < high
    ensures bs * low + bs <= bs * high
    decreases high - low
  {
    assert bs * high == bs * (high - 1) + bs;
    if low + 1 < high { Multiples(bs, low, high - 1); }
  }

  /** The limits grow from record to record by the first one, up to that of the format, which they have after a thousand records at
      the latest. */
  lemma LimitsGrow(k: Keys, pkt: nat)
    requires 0 < SegmentPayload(k) <= MaxPlaintext
    ensures LimitAt(k, 0) == SegmentPayload(k) && LimitAt(k, pkt) <= LimitAt(k, pkt + 1) <= MaxPlaintext
    ensures LimitAt(k, pkt + 1) == if pkt >= 1000 || LimitAt(k, pkt) + SegmentPayload(k) > MaxPlaintext then MaxPlaintext
                                   else LimitAt(k, pkt) + SegmentPayload(k)
  {
    assert SegmentPayload(k) * (pkt + 2) == SegmentPayload(k) * (pkt + 1) + SegmentPayload(k);
  }

  lemma NextNumber(k: Keys, pos: Position, body: seq<byte>)
    ensures After(k, pos, body).num == ToBytes(BigEndian(pos.num) + 1, 8)
  {
  }

  lemma AtLeast(a: nat, b: nat)
    requires a > 0 && b > 0
    ensures a * b > 0
  {
  }

  lemma FragmentAdded(k: Keys, pos: Position, head: seq<byte>, fs: seq<Fragment>, f: Fragment)
    ensures var p := PosAfter(k, pos, head, fs); var body := Sealed(k, p, head, f.explicit, f.data);
            && Wire(k, pos, head, fs + [f]) == Wire(k, pos, head, fs) + Record(head, body)
            && PosAfter(k, pos, head, fs + [f]) == After(k, p, body) && Joined(fs + [f]) == Joined(fs) + f.data
  {
    hide Sealed, After, Record;
    assert (fs + [f])[..|fs|] == fs;
  }

  // ----- reading --------------------------------------------------------------------------------

  lemma ReceiveStep(k: Keys, pos: Position, w: seq<byte>, n: nat, acc: seq<byte>)
    requires |w| >= HeaderLen && n == BigEndian(w[3..5]) && n <= MaxCiphertext && HeaderLen + n <= |w|
    ensures var body := w[HeaderLen..HeaderLen + n];
            var o, r := Opened(k, pos, w[..3], body), Receive(k, After(k, pos, body), w[HeaderLen + n..]);
            Receive(k, pos, w) == if o.None? || |o.value| > MaxPlaintext then Received([], pos, w, true) else r.(data := o.value + r.data)
    ensures forall d, rest: seq<byte> :: acc + (d + rest) == acc + d + rest
  {
    hide Opened, After, BigEndian;
    forall d, rest: seq<byte> ensures acc + (d + rest) == acc + d + rest {}
  }

  /** The receiving side of readRecord, record after record: header, length check, decrypt. */
  method ReadRecords(inp: HalfConn, wire: seq<byte>) returns (data: seq<byte>, rest: seq<byte>, bad: bool)
    requires inp.Valid() && BigEndian(inp.num[..]) + |wire| + 1 < Power256(8)
    modifies inp`stream, inp`iv, inp.num
    ensures var r := Receive(inp.keys, old(inp.Pos()), wire);
            data == r.data && rest == r.rest && bad == r.bad && (!bad ==> inp.Valid() && inp.Pos() == r.pos)
    ensures inp.keys == old(inp.keys)
  {
    hide Sound, GoodPosition, BigEndian, ToBytes, Opened, After, Power256;
    ghost var k, pos := inp.keys, inp.Pos();
    data, rest, bad := [], wire, false;
    assert [] + Receive(k, pos, wire).data == Receive(k, pos, wire).data;
    while |rest| >= HeaderLen
      invariant inp.Valid() && inp.keys == k && !bad && |rest| <= |wire|
      invariant BigEndian(inp.num[..]) + |rest| + 1 < Power256(8)
      invariant var r := Receive(k, inp.Pos(), rest); Receive(k, pos, wire) == r.(data := data + r.data)
      decreases |rest|
    {
      SmallWords(rest[3..5]);
      var n := rest[3] as int * 0x100 + rest[4] as int;
      if n > MaxCiphertext { bad := true; assert data + [] == data; return; }
      if |rest| < HeaderLen + n { assert data + [] == data; return; }
      ghost var now, body := inp.Pos(), rest[HeaderLen..HeaderLen + n];
      ReceiveStep(k, now, rest, n, data);
      var b := new Chunk(rest[..HeaderLen + n]);
      assert b.data[..3] == rest[..3] && b.data[HeaderLen..] == body;
      var ok, prefixLen := inp.Decrypt(b);
      if !ok { bad := true; assert data + [] == data; return; }
      var d := b.data[prefixLen..];
      if |d| > MaxPlaintext { bad := true; assert data + [] == data; return; }
      NumberAfter(k, now, body);
      data, rest := data + d, rest[HeaderLen + n..];
    }
    assert data + [] == data;
  }

  lemma NumberAfter(k: Keys, pos: Position, body: seq<byte>)
    requires |pos.num| == 8 && BigEndian(pos.num) + 1 < Power256(8)
    ensures BigEndian(After(k, pos, body).num) == BigEndian(pos.num) + 1
  {
    hide Power256, ToBytes, BigEndian;
    BigEndianRoundTrip(BigEndian(pos.num) + 1, 8);
  }

  /** Both ends: with equal keys and in the same position, what one end writes the other end reads, byte for byte and
      in order. After a failed write the part of a record that got out waits for more, and the writer is one record
      ahead: the two ends are in the same position again exactly if no record was cut. */
  method WriteThenRead(c: Conn, inp: HalfConn, typ: byte, data: seq<byte>, random: (nat, nat) -> Option<seq<byte>>, net: nat -> Option<nat>)
      returns (got: seq<byte>, rest: seq<byte>, n: nat, end: WriteEnd, ghost fs: seq<Fragment>, ghost cut: Cut)
    requires c.Valid() && inp.Valid() && c.out != inp && c.out.num != inp.num && c.sent == []
    requires inp.keys == c.out.keys && inp.Pos() == c.out.Pos() && c.vers < 0x10000
    requires BigEndian(c.out.num[..]) + 20000 * (|data| + 1) < Power256(8)
    requires forall i, len :: random(i, len).Some? ==> |random(i, len).value| == len
    modifies c, c.out`stream, c.out`iv, c.out.num, inp`stream, inp`iv, inp.num
    ensures end.Complete? ==> got == data
    ensures inp.keys == old(inp.keys) && (end.NetError? ==> CutOk(inp.keys, data, n, cut)) && n <= |data|
    ensures var record := CutRecord(inp.keys, old(inp.Pos()), Head(typ, old(c.vers)), fs, cut.f);
            var short := end.NetError? && cut.wanted < |record|;
            && (inp.Pos() == c.out.Pos() <==> !short)
            && got == data[..if end.NetError? && !short then n + |cut.f.data| else n]
            && rest == if short then record[..cut.wanted] else []
  {
    hide BigEndian, ToBytes, Opened, After, Power256, Sealed, Wire, PosAfter, Joined, GoodPosition, Receive, Sound, Head, Record, GoodFragments;
    ghost var k, pos, head := inp.keys, inp.Pos(), Head(typ, c.vers);
    n, end, fs, cut := c.WriteRecord(typ, data, random, net);
    assert data[..|data|] == data;
    ghost var record := CutRecord(k, pos, head, fs, cut.f);
    if end.NetError? {
      CutOnWire(k, pos, head, data, n, fs, cut);
      NumberGrows(k, pos, head, fs, cut.f, data, n);
      assert c.sent == Wire(k, pos, head, fs) + record[..Min(cut.wanted, |record|)];
    } else {
      WholeOnWire(k, pos, head, data, n, fs);
      assert c.sent == Wire(k, pos, head, fs);
    }
    var bad;
    got, rest, bad := ReadRecords(inp, c.sent);
  }

  /** Whole records and nothing behind them. */
  lemma WholeOnWire(k: Keys, pos: Position, head: seq<byte>, data: seq<byte>, n: nat, fs: seq<Fragment>)
    requires Sound(k) && GoodPosition(k, pos) && |head| == 3 && GoodFragments(k, fs) && n <= |data| && Joined(fs) == data[..n]
    ensures |Wire(k, pos, head, fs)| <= 20000 * |data|
    ensures Receive(k, pos, Wire(k, pos, head, fs)) == Received(data[..n], PosAfter(k, pos, head, fs), [], false)
  {
    hide Wire, Receive, PosAfter, Sound;
    JoinedCount(fs);
    hide Joined;
    WireLength(k, pos, head, fs);
    ReceiveWire(k, pos, head, fs, []);
    ReceiveNothing(k, PosAfter(k, pos, head, fs));
    assert Wire(k, pos, head, fs) + [] == Wire(k, pos, head, fs) && data[..n] + [] == data[..n];
  }

  /** Whole records and a last one that may be cut. */
  lemma CutOnWire(k: Keys, pos: Position, head: seq<byte>, data: seq<byte>, n: nat, fs: seq<Fragment>, cut: Cut)
    requires Sound(k) && GoodPosition(k, pos) && |head| == 3 && GoodFragments(k, fs) && n <= |data| && Joined(fs) == data[..n]
    requires CutOk(k, data, n, cut)
    ensures var record := CutRecord(k, pos, head, fs, cut.f);
            var w := Wire(k, pos, head, fs) + record[..Min(cut.wanted, |record|)];
            && |w| <= 20000 * |data|
            && Receive(k, pos, w) == if cut.wanted < |record| then Received(data[..n], PosAfter(k, pos, head, fs), record[..cut.wanted], false)
                                     else Received(data[..n + |cut.f.data|], PosAfter(k, pos, head, fs + [cut.f]), [], false)
  {
    hide Wire, Receive, PosAfter, Sound, GoodFragments, GoodPosition, CutRecord, Joined;
    var record := CutRecord(k, pos, head, fs, cut.f);
    OneMore(k, pos, head, data, n, fs, cut);
    if cut.wanted < |record| {
      var part := record[..cut.wanted];
      ReceiveWire(k, pos, head, fs, part);
      ReceivePart(k, pos, head, fs, cut, data, n);
      assert data[..n] + [] == data[..n];
    } else {
      assert record[..|record|] == record;
    }
  }

  lemma GoodMore(k: Keys, fs: seq<Fragment>, f: Fragment)
    requires GoodFragments(k, fs) && |f.explicit| == ExplicitLen(k) && 0 < |f.data| <= MaxPlaintext
    ensures GoodFragments(k, fs + [f])
  {
  }

  /** The records with the cut one in full. */
  lemma OneMore(k: Keys, pos: Position, head: seq<byte>, data: seq<byte>, n: nat, fs: seq<Fragment>, cut: Cut)
    requires Sound(k) && GoodPosition(k, pos) && |head| == 3 && GoodFragments(k, fs) && n <= |data| && Joined(fs) == data[..n]
    requires CutOk(k, data, n, cut)
    ensures var w := Wire(k, pos, head, fs) + CutRecord(k, pos, head, fs, cut.f);
            && |w| <= 20000 * |data|
            && Receive(k, pos, w) == Received(data[..n + |cut.f.data|], PosAfter(k, pos, head, fs + [cut.f]), [], false)
  {
    var all, m := fs + [cut.f], n + |cut.f.data|;
    hide Wire, Receive, PosAfter, Sound, GoodPosition, Record, Sealed, Joined, After, ExplicitLen;
    GoodMore(k, fs, cut.f);
    hide GoodFragments;
    FragmentAdded(k, pos, head, fs, cut.f);
    assert Joined(all) == data[..m] by { assert data[..n] + data[n..m] == data[..m]; }
    WholeOnWire(k, pos, head, data, m, all);
  }

  /** A record that is not complete is waited for. */
  lemma ReceivePart(k: Keys, pos: Position, head: seq<byte>, fs: seq<Fragment>, cut: Cut, data: seq<byte>, n: nat)
    requires Sound(k) && GoodPosition(k, pos) && |head| == 3 && CutOk(k, data, n, cut)
    requires cut.wanted < |CutRecord(k, pos, head, fs, cut.f)|
    ensures var p, part := PosAfter(k, pos, head, fs), CutRecord(k, pos, head, fs, cut.f)[..cut.wanted];
            Receive(k, p, part) == Received([], p, part, false)
  {
    var p := PosAfter(k, pos, head, fs);
    GoodPosAfter(k, pos, head, fs);
    BodyFits(k, p, head, cut.f.explicit, cut.f.data);
    hide Sound, GoodPosition, Sealed, PosAfter, Opened;
    var body := Sealed(k, p, head, cut.f.explicit, cut.f.data);
    assert Power256(2) == 0x10000;
    BigEndianRoundTrip(|body|, 2);
    var part := Record(head, body)[..cut.wanted];
    var length := Record(head, body)[3..5];
    assert length == ToBytes(|body|, 2);
    if cut.wanted >= HeaderLen { assert part[3..5] == length; }
    hide ToBytes, BigEndian;
  }

  lemma NumberGrows(k: Keys, pos: Position, head: seq<byte>, fs: seq<Fragment>, f: Fragment, data: seq<byte>, n: nat)
    requires Sound(k) && GoodPosition(k, pos) && GoodFragments(k, fs) && n < |data| && Joined(fs) == data[..n]
    requires BigEndian(pos.num) + |data| < Power256(8)
    ensures PosAfter(k, pos, head, fs) != PosAfter(k, pos, head, fs + [f])
  {
    JoinedCount(fs);
    FragmentAdded(k, pos, head, fs, f);
    NumberIs(k, pos, head, fs);
    GoodPosAfter(k, pos, head, fs);
    hide PosAfter, Sealed, After, BigEndian, Sound, Power256;
    var p := PosAfter(k, pos, head, fs);
    NumberAfter(k, p, Sealed(k, p, head, f.explicit, f.data));
  }

  /** Every record takes one sequence number. */
  lemma {:induction false} NumberIs(k: Keys, pos: Position, head: seq<byte>, fs: seq<Fragment>)
    requires Sound(k) && GoodPosition(k, pos) && BigEndian(pos.num) + |fs| < Power256(8)
    ensures BigEndian(PosAfter(k, pos, head, fs).num) == BigEndian(pos.num) + |fs|
    decreases |fs|
  {
    if fs != [] {
      var n := |fs| - 1;
      NumberIs(k, pos, head, fs[..n]);
      GoodPosAfter(k, pos, head, fs[..n]);
      hide Sealed, After, BigEndian, Sound, Power256;
      var p := PosAfter(k, pos, head, fs[..n]);
      NumberAfter(k, p, Sealed(k, p, head, fs[n].explicit, fs[n].data));
    }
  }

  lemma ReceiveNothing(k: Keys, pos: Position)
    ensures Receive(k, pos, []) == Received([], pos, [], false)
  {
  }

  lemma {:induction false} WireLength(k: Keys, pos: Position, head: seq<byte>, fs: seq<Fragment>)
    requires Sound(k) && GoodPosition(k, pos) && |head| == 3 && GoodFragments(k, fs)
    ensures |Wire(k, pos, head, fs)| <= 20000 * |fs|
    decreases |fs|
  {
    if fs != [] {
      var n := |fs| - 1;
      GoodPosAfter(k, pos, head, fs[..n]);
      WireLength(k, pos, head, fs[..n]);
      BodyFits(k, PosAfter(k, pos, head, fs[..n]), head, fs[n].explicit, fs[n].data);
      hide Sealed, Sound;
    }
  }

  lemma {:induction false} JoinedCount(fs: seq<Fragment>)
    requires forall i :: 0 <= i < |fs| ==> |fs[i].data| > 0
    ensures |fs| <= |Joined(fs)|
  {
    if fs != [] { JoinedCount(fs[..|fs| - 1]); }
  }
}
