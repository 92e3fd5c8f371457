/**
 What the record layer of RecordLayer protects. A cipher or a MAC that is bound to everything it is given, and a network that may
 repeat, reorder, drop and relabel records: what the receiver then accepts is what the sender sent, in order.
 */
module RecordBinding {
  import opened Bytes
  import opened Prelude
  import opened RecordLayer
  import RecordPadding

  /** The AEAD opens only what it has sealed, and the sealed text determines the data and the thirteen bytes of additional data. */
  ghost predicate BoundAead(k: Keys) {
    && k.cipher.Aead?
    && (forall n, c, a :: k.cipher.open(n, c, a).Some? ==> c == k.cipher.seal(n, k.cipher.open(n, c, a).value, a))
    && (forall n, p, a, n', p', a' :: |a| == 13 && |a'| == 13 && k.cipher.seal(n, p, a) == k.cipher.seal(n', p', a') ==> p == p' && a == a')
  }

  /** For given data the tag determines the sequence number and the header. */
  ghost predicate BoundMac(k: Keys) {
    && k.mac.Mac?
    && forall d, n, h, n', h' :: |n| == 8 && |n'| == 8 && |h| == 5 && |h'| == 5 && k.mac.tag(n, h, d) == k.mac.tag(n', h', d) ==> n == n' && h == h'
  }

  lemma AdditionalDataIs(num: seq<byte>, head: seq<byte>, n: int, num': seq<byte>, head': seq<byte>, n': int)
    requires |num| == 8 == |num'| && |head| == 3 == |head'|
    ensures |AdditionalData(num, head, n)| == 13
    ensures AdditionalData(num, head, n) == AdditionalData(num', head', n') ==> num == num' && head == head'
  {
    hide ToBytes;
    var a, b := AdditionalData(num, head, n), AdditionalData(num', head', n');
    assert a[..8] == num && a[8..11] == head && b[..8] == num' && b[8..11] == head';
  }

  /** A record of an AEAD opens only under its own sequence number and its own type and version, and then it is the data. */
  lemma AeadBinds(k: Keys, pos: Position, pos': Position, head: seq<byte>, head': seq<byte>, explicit: seq<byte>, data: seq<byte>)
    requires Sound(k) && BoundAead(k) && GoodPosition(k, pos) && GoodPosition(k, pos')
    requires |head| == 3 == |head'| && |explicit| == ExplicitLen(k)
    ensures Opened(k, pos', head', Sealed(k, pos, head, explicit, data)) == if pos'.num == pos.num && head' == head then Some(data) else None
  {
    if pos'.num == pos.num && head' == head {
      OpenSealed(k, pos, head, explicit, data);
      assert Opened(k, pos', head, Sealed(k, pos, head, explicit, data)) == Opened(k, pos, head, Sealed(k, pos, head, explicit, data));
    } else {
      var nonceLen, overhead, seal, open := k.cipher.nonceLen, k.cipher.overhead, k.cipher.seal, k.cipher.open;
      var t := Tagged(k, pos.num, head, data);
      var c := seal(Nonce(explicit, pos.num), t, AdditionalData(pos.num, head, |t|));
      var body := explicit + c;
      assert body[..nonceLen] == explicit && body[nonceLen..] == c;
      AdditionalDataIs(pos.num, head, |t|, pos'.num, head', |body| - nonceLen - overhead);
      AdditionalDataIs(pos'.num, head', |body| - nonceLen - overhead, pos.num, head, |t|);
      hide Sound, Tagged, AdditionalData, Stripped;
      assert open(Nonce(explicit, pos'.num), c, AdditionalData(pos'.num, head', |body| - nonceLen - overhead)).None?;
    }
  }

  /** Without an AEAD the MAC does it: read at the same place of the key stream, or after the same block, a record opens only under its
      own sequence number, type and version. */
  lemma MacBinds(k: Keys, pos: Position, pos': Position, head: seq<byte>, head': seq<byte>, explicit: seq<byte>, data: seq<byte>)
    requires Sound(k) && BoundMac(k) && !k.cipher.Aead? && GoodPosition(k, pos) && GoodPosition(k, pos')
    requires pos'.stream == pos.stream && pos'.iv == pos.iv && |head| == 3 == |head'| && |explicit| == ExplicitLen(k)
    ensures Opened(k, pos', head', Sealed(k, pos, head, explicit, data)) == if pos'.num == pos.num && head' == head then Some(data) else None
  {
    var body := Sealed(k, pos, head, explicit, data);
    var pad := UncoverSealed(k, pos, head, explicit, data);
    assert Uncovered(k, pos', head', body) == Uncovered(k, pos, head, body);
    StripOther(k, pos.num, pos'.num, head, head', data, pad);
    hide Uncovered, Sealed, Stripped, Tagged, Sound, BoundMac;
  }

  lemma StripOther(k: Keys, num: seq<byte>, num': seq<byte>, head: seq<byte>, head': seq<byte>, data: seq<byte>, pad: seq<byte>)
    requires Sound(k) && BoundMac(k) && |num| == 8 == |num'| && |head| == 3 == |head'|
    ensures Stripped(k, num', head', Plain(Tagged(k, num, head, data) + pad, |pad|, true)) == if num' == num && head' == head then Some(data) else None
  {
    var t, n := Tagged(k, num, head, data), |data|;
    var h, h' := head + ToBytes(n, 2), head' + ToBytes(n, 2);
    hide ToBytes;
    assert h[..3] == head && h'[..3] == head';
    assert |t| == n + k.mac.size && (t + pad)[..n] == data && (t + pad)[n..n + k.mac.size] == t[n..] == k.mac.tag(num, h, data);
    assert h == h' ==> head == head';
  }

  /** What is left of a record under a cipher without authentication: data, tag and good padding. */
  lemma UncoverSealed(k: Keys, pos: Position, head: seq<byte>, explicit: seq<byte>, data: seq<byte>) returns (pad: seq<byte>)
    requires Sound(k) && k.mac.Mac? && !k.cipher.Aead? && GoodPosition(k, pos) && |explicit| == ExplicitLen(k)
    ensures Uncovered(k, pos, head, Sealed(k, pos, head, explicit, data)) == Some(Plain(Tagged(k, pos.num, head, data) + pad, |pad|, true))
  {
    var t := Tagged(k, pos.num, head, data);
    pad := [];
    assert t + pad == t && (ExplicitLen(k) == 0 ==> explicit + t == t);
    match k.cipher
    case NoCipher =>
    case Stream(key) => XorStreamTwice(key, pos.stream, t);
    case Cbc(bs, _, _) =>
      UncoverCbc(k, pos, head, explicit, data);
      pad := RecordPadding.Padding(|t|, bs);
    case Aead(_, _, _, _) =>
  }

  /** The other way round: whatever an AEAD opens is what this end would have sealed for that data, at that place and under that header. */
  lemma AeadOnlySealed(k: Keys, pos: Position, head: seq<byte>, body: seq<byte>, data: seq<byte>)
    requires Sound(k) && BoundAead(k) && k.mac.NoMac? && Opened(k, pos, head, body) == Some(data)
    ensures var e := ExplicitLen(k); e <= |body| && body == Sealed(k, pos, head, body[..e], data)
  {
    var nonceLen, overhead, seal, open := k.cipher.nonceLen, k.cipher.overhead, k.cipher.seal, k.cipher.open;
    var n, c, a := Nonce(body[..nonceLen], pos.num), body[nonceLen..], AdditionalData(pos.num, head, |body| - nonceLen - overhead);
    assert open(n, c, a) == Some(data);
    assert c == seal(n, data, a) && |c| == |data| + overhead;
    assert body == body[..nonceLen] + c;
    assert Tagged(k, pos.num, head, data) == data && |body| - nonceLen - overhead == |data|;
    hide AdditionalData, Sound, BoundAead;
  }

  /** With a MAC a record is taken exactly if what the cipher leaves is the data, the tag over sequence number, header, length and data,
      and nothing behind it but good padding. An empty record may have more padding than that, which then reaches into the tag. */
  lemma OnlyTagged(k: Keys, num: seq<byte>, head: seq<byte>, p: Plain, data: seq<byte>)
    requires Sound(k) && k.mac.Mac?
    ensures Stripped(k, num, head, p) == Some(data) <==> p.good && exists rest :: Carries(k, num, head, p, data, rest)
  {
    hide ToBytes;
    var n, tag := |data|, k.mac.tag(num, head + ToBytes(|data|, 2), data);
    if Stripped(k, num, head, p) == Some(data) {
      var rest := p.payload[n + k.mac.size..];
      assert p.payload == p.payload[..n] + p.payload[n..n + k.mac.size] + rest;
      assert Carries(k, num, head, p, data, rest);
    }
    forall rest | p.good && Carries(k, num, head, p, data, rest) ensures Stripped(k, num, head, p) == Some(data) {
      assert p.payload[..n] == data && p.payload[n..n + k.mac.size] == tag;
    }
  }

  predicate Carries(k: Keys, num: seq<byte>, head: seq<byte>, p: Plain, data: seq<byte>, rest: seq<byte>)
    requires k.mac.Mac?
  {
    && p.payload == data + k.mac.tag(num, head + ToBytes(|data|, 2), data) + rest
    && (|rest| == p.padding || (data == [] && |rest| < p.padding))
  }

  /** With a key stream, or with CBC whose vectors are not sent along, two records one after the other are one stretch of ciphertext:
      the second goes on where the first has ended. */
  lemma OneCipherStream(k: Keys, pos: Position, head: seq<byte>, a: seq<byte>, b: seq<byte>)
    requires Sound(k) && GoodPosition(k, pos) && ExplicitLen(k) == 0
    ensures var x := Sealed(k, pos, head, [], a); var next := After(k, pos, x); var y := Sealed(k, next, head, [], b);
            var t, u := Tagged(k, pos.num, head, a), Tagged(k, next.num, head, b);
            && (k.cipher.Stream? ==> x + y == XorStream(k.cipher.keystream, pos.stream, t + u))
            && (k.cipher.Cbc? ==>
                  var bs := k.cipher.blockSize;
                  bs > 0 && x + y == CbcEncrypt(bs, k.cipher.enc, pos.iv, (t + RecordPadding.Padding(|t|, bs)) + (u + RecordPadding.Padding(|u|, bs))))
  {
    hide Tagged, ToBytes, BigEndian;
    var x := Sealed(k, pos, head, [], a);
    var next := After(k, pos, x);
    var t, u := Tagged(k, pos.num, head, a), Tagged(k, next.num, head, b);
    assert [] + t == t && [] + u == u;
    match k.cipher
    case Stream(key) =>
      assert x == XorStream(key, pos.stream, t) && next.stream == pos.stream + |t|;
      StreamJoins(key, pos.stream, t, u);
    case Cbc(bs, enc, dec) =>
      var p, q := t + RecordPadding.Padding(|t|, bs), u + RecordPadding.Padding(|u|, bs);
      var c := CbcEncrypt(bs, enc, pos.iv, p);
      assert [] + c == c == x && x[0..] == x && x[..0] == [];
      assert next.iv == LastBlock(bs, pos.iv, c);
      var d := CbcEncrypt(bs, enc, next.iv, q);
      assert [] + d == d;
      RecordPadding.PaddingAccepted(t, bs);
      WholeMod(|p|, bs);
      CbcTwoCalls(bs, enc, dec, pos.iv, p, q);
    case _ =>
  }

  lemma StreamJoins(key: nat -> byte, pos: nat, a: seq<byte>, b: seq<byte>)
    ensures XorStream(key, pos, a) + XorStream(key, pos + |a|, b) == XorStream(key, pos, a + b)
  {
    hide Xor;
  }

  // ----- a run against a hostile network --------------------------------------------------------

  /** A record as it arrives: type and version, and the encrypted part. */
  datatype Arrival = Arrival(head: seq<byte>, body: seq<byte>)

  /** What the receiver takes, up to the first record that does not open, over which it gives up. */
  ghost function Accepted(k: Keys, pos: Position, arrivals: seq<Arrival>): seq<seq<byte>>
    decreases |arrivals|
  {
    if arrivals == [] then []
    else
      var r := Opened(k, pos, arrivals[0].head, arrivals[0].body);
      if r.None? then [] else [r.value] + Accepted(k, After(k, pos, arrivals[0].body), arrivals[1..])
  }

  ghost predicate IsRecord(k: Keys, pos: Position, head: seq<byte>, fs: seq<Fragment>, body: seq<byte>, j: int) {
    0 <= j < |fs| && body == Sealed(k, PosAfter(k, pos, head, fs[..j]), head, fs[j].explicit, fs[j].data)
  }

  ghost predicate FromSender(k: Keys, pos: Position, head: seq<byte>, fs: seq<Fragment>, a: Arrival) {
    |a.head| == 3 && exists j :: IsRecord(k, pos, head, fs, a.body, j)
  }

  /** The numbers of the records. */
  lemma NumberAt(k: Keys, pos: Position, head: seq<byte>, fs: seq<Fragment>, j: nat)
    requires Sound(k) && GoodPosition(k, pos) && BigEndian(pos.num) + |fs| < Power256(8) && j <= |fs|
    ensures var p := PosAfter(k, pos, head, fs[..j]); GoodPosition(k, p) && BigEndian(p.num) == BigEndian(pos.num) + j
  {
    hide PosAfter, BigEndian, Power256, Sound;
    NumberIs(k, pos, head, fs[..j]);
    GoodPosAfter(k, pos, head, fs[..j]);
  }

  /** At number `i` the record `j` is accepted exactly if it is record `i` under its own header. */
  lemma OneArrival(k: Keys, pos: Position, head: seq<byte>, fs: seq<Fragment>, p: Position, a: Arrival, i: nat, j: nat)
    requires Sound(k) && BoundAead(k) && GoodPosition(k, pos) && |head| == 3 && BigEndian(pos.num) + |fs| < Power256(8) && i <= |fs|
    requires forall x :: 0 <= x < |fs| ==> |fs[x].explicit| == ExplicitLen(k)
    requires GoodPosition(k, p) && BigEndian(p.num) == BigEndian(pos.num) + i && |a.head| == 3 && IsRecord(k, pos, head, fs, a.body, j)
    ensures Opened(k, p, a.head, a.body) == if i == j && a.head == head then Some(fs[j].data) else None
    ensures i < |fs| ==> GoodPosition(k, After(k, p, a.body)) && BigEndian(After(k, p, a.body).num) == BigEndian(pos.num) + i + 1
  {
    hide PosAfter, BigEndian, Power256, Sound, BoundAead, Opened, Sealed, After, GoodPosition;
    var q := PosAfter(k, pos, head, fs[..j]);
    NumberAt(k, pos, head, fs, j);
    AeadBinds(k, q, p, head, a.head, fs[j].explicit, fs[j].data);
    SameNumber(p.num, q.num, k, p, q);
    if i < |fs| {
      GoodAfter(k, p, a.body);
      LengthOf(k, p);
      NumberAfter(k, p, a.body);
    }
  }

  lemma LengthOf(k: Keys, p: Position)
    requires GoodPosition(k, p)
    ensures |p.num| == 8
  {
  }

  lemma SameNumber(a: seq<byte>, b: seq<byte>, k: Keys, p: Position, q: Position)
    requires GoodPosition(k, p) && GoodPosition(k, q) && a == p.num && b == q.num
    ensures a == b <==> BigEndian(a) == BigEndian(b)
  {
    ToBytesRoundTrip(a);
    ToBytesRoundTrip(b);
    hide BigEndian, ToBytes;
  }

  /** What was taken as number `x` is what the sender sent as that. */
  ghost predicate Rightly(k: Keys, pos: Position, head: seq<byte>, fs: seq<Fragment>, a: Arrival, d: seq<byte>, x: int) {
    IsRecord(k, pos, head, fs, a.body, x) && d == fs[x].data && a.head == head
  }

  /** No replay, no reordering, no gap, no change of type: when the network can only bring records of this sender, in any order, any
      number of times and under any header, then what the receiver accepts is the data of the first records, in order. */
  lemma NoReplay(k: Keys, pos: Position, head: seq<byte>, fs: seq<Fragment>, arrivals: seq<Arrival>)
    requires Sound(k) && BoundAead(k) && GoodPosition(k, pos) && |head| == 3 && BigEndian(pos.num) + |fs| < Power256(8)
    requires forall x :: 0 <= x < |fs| ==> |fs[x].explicit| == ExplicitLen(k)
    requires forall x :: 0 <= x < |arrivals| ==> FromSender(k, pos, head, fs, arrivals[x])
    ensures var r := Accepted(k, pos, arrivals);
            |r| <= |fs| && |r| <= |arrivals| && forall x :: 0 <= x < |r| ==> Rightly(k, pos, head, fs, arrivals[x], r[x], x)
  {
    hide BigEndian, Sound, BoundAead, FromSender, Power256, Rightly, GoodPosition, Accepted;
    AcceptedFrom(k, pos, head, fs, pos, arrivals, 0);
  }

  lemma {:induction false} AcceptedFrom(k: Keys, pos: Position, head: seq<byte>, fs: seq<Fragment>, p: Position, arrivals: seq<Arrival>, i: nat)
    requires Sound(k) && BoundAead(k) && GoodPosition(k, pos) && |head| == 3 && BigEndian(pos.num) + |fs| < Power256(8)
    requires forall x :: 0 <= x < |fs| ==> |fs[x].explicit| == ExplicitLen(k)
    requires forall x :: 0 <= x < |arrivals| ==> FromSender(k, pos, head, fs, arrivals[x])
    requires i <= |fs| && GoodPosition(k, p) && BigEndian(p.num) == BigEndian(pos.num) + i
    ensures var r := Accepted(k, p, arrivals);
            && i + |r| <= |fs| && |r| <= |arrivals|
            && (forall x :: 0 <= x < |r| ==> Rightly(k, pos, head, fs, arrivals[x], r[x], i + x))
    decreases |arrivals|
  {
    hide PosAfter, BigEndian, Power256, Sound, BoundAead, Opened, Sealed, After, GoodPosition, IsRecord, Rightly, FromSender;
    if arrivals != [] {
      var a := arrivals[0];
      assert FromSender(k, pos, head, fs, a);
      var j := SentAs(k, pos, head, fs, a);
      OneArrival(k, pos, head, fs, p, a, i, j);
      if i == j && a.head == head {
        var q := After(k, p, a.body);
        AcceptedFrom(k, pos, head, fs, q, arrivals[1..], i + 1);
        var s := Accepted(k, q, arrivals[1..]);
        assert Accepted(k, p, arrivals) == [fs[i].data] + s;
        hide Accepted;
        assert Rightly(k, pos, head, fs, a, fs[i].data, i) by { IsRightly(k, pos, head, fs, a, i); }
        OneMore(k, pos, head, fs, arrivals, fs[i].data, s, i);
      }
    }
  }

  lemma SentAs(k: Keys, pos: Position, head: seq<byte>, fs: seq<Fragment>, a: Arrival) returns (j: nat)
    requires FromSender(k, pos, head, fs, a)
    ensures IsRecord(k, pos, head, fs, a.body, j) && j < |fs| && |a.head| == 3
  {
    var x :| IsRecord(k, pos, head, fs, a.body, x);
    j := x;
    hide PosAfter, Sealed;
  }

  lemma IsRightly(k: Keys, pos: Position, head: seq<byte>, fs: seq<Fragment>, a: Arrival, i: nat)
    requires IsRecord(k, pos, head, fs, a.body, i) && i < |fs| && a.head == head
    ensures Rightly(k, pos, head, fs, a, fs[i].data, i)
  {
    hide IsRecord;
  }

  lemma OneMore(k: Keys, pos: Position, head: seq<byte>, fs: seq<Fragment>, arrivals: seq<Arrival>, d: seq<byte>, s: seq<seq<byte>>, i: nat)
    requires arrivals != [] && |s| < |arrivals| && Rightly(k, pos, head, fs, arrivals[0], d, i)
    requires forall x :: 0 <= x < |s| ==> Rightly(k, pos, head, fs, arrivals[1..][x], s[x], i + 1 + x)
    ensures forall x :: 0 <= x < |[d] + s| ==> Rightly(k, pos, head, fs, arrivals[x], ([d] + s)[x], i + x)
  {
    hide Rightly;
    forall x | 0 <= x < |[d] + s| ensures Rightly(k, pos, head, fs, arrivals[x], ([d] + s)[x], i + x) {
      if x > 0 { assert ([d] + s)[x] == s[x - 1] && arrivals[1..][x - 1] == arrivals[x] && i + 1 + (x - 1) == i + x; }
    }
  }

  // ----- nonces and the size of records ---------------------------------------------------------

  /** In all the records of a write no nonce is used twice, be it in front of the record or the bare sequence number. */
  lemma NonceOnce(w: Write, fs: seq<Fragment>, i: nat, j: nat)
    requires CutUp(w, fs) && Sound(w.k) && GoodPosition(w.k, w.pos) && w.k.cipher.Aead? && (w.k.cipher.nonceLen == 0 || w.k.cipher.nonceLen == 8)
    requires BigEndian(w.pos.num) + |fs| < Power256(8) && i < j < |fs|
    ensures Nonce(fs[i].explicit, PosAfter(w.k, w.pos, w.head, fs[..i]).num) != Nonce(fs[j].explicit, PosAfter(w.k, w.pos, w.head, fs[..j]).num)
  {
    assert NextIs(w, fs[..i], fs[i]) && NextIs(w, fs[..j], fs[j]);
    hide CutUp, PosAfter, Power256, Wire, LimitAt, BigEndian;
    NumberAt(w.k, w.pos, w.head, fs, i);
    NumberAt(w.k, w.pos, w.head, fs, j);
    var p, q := PosAfter(w.k, w.pos, w.head, fs[..i]), PosAfter(w.k, w.pos, w.head, fs[..j]);
    assert |p.num| == 8 == |q.num| && p.num[..8] == p.num && q.num[..8] == q.num;
    assert |fs[..i]| == i && |fs[..j]| == j;
    hide Sound;
  }

  lemma JoinedMore(fs: seq<Fragment>, f: Fragment)
    ensures |Joined(fs + [f])| == |Joined(fs)| + |f.data|
  {
    assert (fs + [f])[..|fs|] == fs;
  }

  function LimitOf(w: Write, sent: nat, i: nat): int {
    if w.ramp && w.bytes + sent < BoostThreshold then LimitAt(w.k, w.packets + i) else MaxPlaintext
  }

  lemma SizeOf(w: Write, fs: seq<Fragment>, f: Fragment)
    requires NextIs(w, fs, f)
    ensures |Joined(fs)| <= w.total && |f.data| == AtMost(w.total - |Joined(fs)|, LimitOf(w, |Wire(w.k, w.pos, w.head, fs)|, |fs|))
  {
    hide Joined, Wire, PosAfter, Explicit, LimitAt;
  }

  /** Data is cut no finer than the limits ask for: every record but the last is as long as its limit. */
  lemma OnlyLastIsShort(w: Write, fs: seq<Fragment>, i: nat)
    requires CutUp(w, fs) && i + 1 < |fs| && |fs[i + 1].data| > 0
    ensures |fs[i].data| == LimitOf(w, |Wire(w.k, w.pos, w.head, fs[..i])|, i)
  {
    hide NextIs, Wire, Joined, LimitOf;
    var a := fs[..i];
    assert NextIs(w, a, fs[i]) && NextIs(w, fs[..i + 1], fs[i + 1]);
    hide CutUp;
    assert fs[..i + 1] == a + [fs[i]];
    FullBefore(w, a, fs[i], fs[i + 1]);
  }

  lemma FullBefore(w: Write, a: seq<Fragment>, f: Fragment, g: Fragment)
    requires NextIs(w, a, f) && NextIs(w, a + [f], g) && |g.data| > 0
    ensures |f.data| == LimitOf(w, |Wire(w.k, w.pos, w.head, a)|, |a|)
  {
    hide NextIs, Wire, Joined, LimitOf;
    SizeOf(w, a, f);
    SizeOf(w, a + [f], g);
    JoinedMore(a, f);
  }

  /** The header names the type, and the version in two bytes: that of TLS 1.0 as long as none is agreed on. */
  lemma HeadIs(typ: byte, vers: nat)
    requires vers < 0x10000
    ensures Head(typ, vers)[0] == typ && BigEndian(Head(typ, vers)[1..]) == if vers == 0 then 0x0301 else vers
  {
    var h := Head(typ, vers);
    SmallWords(h[1..]);
    hide BigEndian;
  }

  // ----- such ciphers exist ---------------------------------------------------------------------

  function Thirteen(a: seq<byte>): (r: seq<byte>)
    ensures |r| == 13 && (|a| == 13 ==> r == a)
  {
    if |a| == 13 then a else seq(13, i => 0)
  }

  /** The conditions are no contradiction: an AEAD that appends the additional data meets them. */
  lemma AeadExists() returns (k: Keys)
    ensures Sound(k) && BoundAead(k)
  {
    var seal := (n: seq<byte>, p: seq<byte>, a: seq<byte>) => p + Thirteen(a);
    var open := (n: seq<byte>, c: seq<byte>, a: seq<byte>) =>
        if |c| >= 13 && c[|c| - 13..] == Thirteen(a) then Some(c[..|c| - 13]) else None;
    k := Keys(GMSSL, Aead(8, 13, seal, open), NoMac);
    hide Thirteen;
    forall n, p, a ensures |seal(n, p, a)| == |p| + 13 && open(n, seal(n, p, a), a) == Some(p) {
      var c := seal(n, p, a);
      assert c[|c| - 13..] == Thirteen(a) && c[..|c| - 13] == p;
    }
    forall n, p: seq<byte>, a: seq<byte>, n', p': seq<byte>, a': seq<byte> | |a| == 13 && |a'| == 13 && seal(n, p, a) == seal(n', p', a') ensures p == p' && a == a' {
      var c := seal(n, p, a);
      assert |p| == |p'| && c[..|p|] == p && c[..|p|] == p' && c[|p|..] == a && c[|p|..] == a';
    }
  }

  lemma MacExists() returns (k: Keys)
    ensures Sound(k) && BoundMac(k)
  {
    var tag := (n: seq<byte>, h: seq<byte>, d: seq<byte>) => Thirteen(n + h);
    k := Keys(GMSSL, NoCipher, Mac(13, tag));
    forall d, n: seq<byte>, h: seq<byte>, n': seq<byte>, h': seq<byte> |
      |n| == 8 && |n'| == 8 && |h| == 5 && |h'| == 5 && tag(n, h, d) == tag(n', h', d)
      ensures n == n' && h == h'
    {
      assert n + h == n' + h';
      assert (n + h)[..8] == n && (n' + h')[..8] == n' && (n + h)[8..] == h && (n' + h')[8..] == h';
    }
  }
}
