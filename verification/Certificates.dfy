/**
 The Certificate message (section 7.4.2 of RFC 5246, `zgmtls/handshake_messages.go`) and the GM
 CertificateRequest (section 7.4.4 of RFC 4346, `zgmtls/gm_handshake_messages.go`): printing, parsing, and
 exactly which messages survive the two.
 */
module Certificates {
  import opened Bytes
  import opened Prelude
  import opened Wire

  const Three: nat := 0x100_0000

  // ----- Certificate ----------------------------------------------------------------------------

  function MarshalledChain(certs: seq<seq<byte>>): seq<byte> {
    [11] + ToBytes(3 + |Vecs(3, certs)|, 3) + Vec(3, Vecs(3, certs))
  }

  /** The list must fill the message; a certificate is read only while four bytes are left. */
  function ParseChain(data: seq<byte>): Option<seq<seq<byte>>> {
    if |data| < 7 || |data| != BigEndian(data[4..7]) + 7 then None
    else ReadVecs(3, 4, true, data[7..])
  }

  /** An empty certificate at the very end of the list is printed but not accepted; every other list comes back. */
  lemma ChainRoundTrip(certs: seq<seq<byte>>)
    requires |Vecs(3, certs)| < Three && forall i :: 0 <= i < |certs| ==> |certs[i]| < Three
    ensures ParseChain(MarshalledChain(certs)) == if certs == [] || certs[|certs| - 1] != [] then Some(certs) else None
  {
    var v, x := Vecs(3, certs), MarshalledChain(certs);
    assert Power256(3) == Three;
    hide ToBytes, BigEndian, Vecs, ReadVecs, Power256, ParseChain;
    BigEndianRoundTrip(|v|, 3);
    VecsRoundTrip(3, 4, true, certs);
    assert Readable(3, 4, true, certs) <==> certs == [] || certs[|certs| - 1] != [];
    hide Readable;
    var head, l := [11] + ToBytes(3 + |v|, 3), ToBytes(|v|, 3);
    assert x[0..] == x == head + (l + v);
    Front(x, 0, head, l + v);
    Front(x, 4, l, v);
    ChainFrom(x, v);
  }

  lemma ChainFrom(x: seq<byte>, v: seq<byte>)
    requires |x| == 7 + |v| && BigEndian(x[4..7]) == |v| && x[7..] == v
    ensures ParseChain(x) == ReadVecs(3, 4, true, v)
  {
    hide BigEndian, ReadVecs;
  }

  /** Exactly these byte strings are accepted; type and length in front are not looked at. */
  lemma ChainIff(data: seq<byte>, certs: seq<seq<byte>>)
    ensures ParseChain(data) == Some(certs) <==>
              && |data| >= 4 && data[4..] == Vec(3, Vecs(3, certs)) && |Vecs(3, certs)| < Three
              && (certs == [] || certs[|certs| - 1] != []) && forall i :: 0 <= i < |certs| ==> |certs[i]| < Three
  {
    assert Power256(3) == Three;
    assert Readable(3, 4, true, certs) <==> certs == [] || certs[|certs| - 1] != [];
    hide BigEndian, Vec, Vecs, ReadVecs, Power256, Readable;
    if |data| >= 4 {
      var d := data[4..];
      VecIff(3, d, Vecs(3, certs));
      if |data| >= 7 {
        assert d[..3] == data[4..7] && d[3..] == data[7..];
        VecsIff(3, 4, true, data[7..], certs);
      }
    }
  }

  /** A printed message begins with its type and its length. */
  lemma ChainTypeAndLength(certs: seq<seq<byte>>)
    requires 3 + |Vecs(3, certs)| < Three
    ensures var x := MarshalledChain(certs); x[0] == 11 && BigEndian(x[1..4]) == |x| - 4
  {
    var x, l := MarshalledChain(certs), ToBytes(3 + |Vecs(3, certs)|, 3);
    assert Power256(3) == Three;
    hide Vecs, ToBytes, BigEndian;
    BigEndianRoundTrip(3 + |Vecs(3, certs)|, 3);
    assert x[1..4] == l;
  }

  method FillChain(buf: array<byte>, certs: seq<seq<byte>>, length: nat)
    requires length == 3 + |Vecs(3, certs)| && buf.Length == 4 + length
    modifies buf
    ensures buf[..] == MarshalledChain(certs)
  {
    OneByte(11);
    hide ToBytes, Vecs;
    var z := PutByte(buf, 0, 11);
    z := PutWord24(buf, z, length);
    var octets := length - 3;
    z := PutWord24(buf, z, octets);
    z := PutVecs(buf, z, 3, certs);
    assert buf[..z] == buf[..];
    Assoc3([11] + ToBytes(length, 3), ToBytes(octets, 3), Vecs(3, certs));
  }

  class CertificateMsg {
    var raw: Option<seq<byte>>
    var certificates: seq<seq<byte>>

    constructor (certs: seq<seq<byte>>)
      ensures raw == None && certificates == certs
    {
      raw, certificates := None, certs;
    }

    method Marshal() returns (x: seq<byte>)
      modifies this`raw
      ensures raw == Some(x) && x == if old(raw).Some? then old(raw).value else MarshalledChain(certificates)
    {
      if raw.Some? { return raw.value; }
      hide ToBytes, Vecs;
      var certs, i := certificates, 0;
      var sum := 0;
      while i < |certs|
        invariant 0 <= i <= |certs| && sum + 3 * i == |Vecs(3, certs[..i])|
      {
        VecsLength(3, certs, i);
        sum := sum + |certs[i]|;
        i := i + 1;
      }
      assert certs[..i] == certs;
      var length := 3 + 3 * |certs| + sum;
      var buf := new byte[4 + length](_ => 0);
      FillChain(buf, certs, length);
      raw := Some(buf[..]);
      x := buf[..];
    }

    /** Two passes: the first checks and counts, the second takes the certificates. */
    method Unmarshal(data: seq<byte>) returns (ok: bool)
      modifies this
      ensures ok <==> ParseChain(data).Some?
      ensures ok ==> raw == Some(data) && Some(certificates) == ParseChain(data)
    {
      hide BigEndian;
      if |data| < 7 { return false; }
      raw := Some(data);
      var certsLen := GetLength(3, data[4..]);
      assert data[4..][..3] == data[4..7];
      if |data| != certsLen + 7 { return false; }
      var numCerts, d := 0, data[7..];
      while certsLen > 0
        invariant certsLen == |d| && raw == Some(data)
        invariant ParseChain(data).None? <==> ReadVecs(3, 4, true, d).None?
        invariant ParseChain(data).Some? ==> |ParseChain(data).value| == numCerts + |ReadVecs(3, 4, true, d).value|
      {
        if |d| < 4 { return false; }
        var certLen := GetLength(3, d);
        if |d| < 3 + certLen { return false; }
        d := d[3 + certLen..];
        certsLen := certsLen - (3 + certLen);
        numCerts := numCerts + 1;
      }
      var certs: seq<seq<byte>>, i := [], 0;
      d := data[7..];
      PrependNone(ReadVecs(3, 4, true, d));
      while i < numCerts
        invariant raw == Some(data) && 0 <= i <= numCerts == |ParseChain(data).value| && |certs| == i && ReadVecs(3, 4, true, d).Some?
        invariant ParseChain(data) == Prepend(certs, ReadVecs(3, 4, true, d))
      {
        var certLen := GetLength(3, d);
        PrependTwice(certs, [d[3..3 + certLen]], ReadVecs(3, 4, true, d[3 + certLen..]));
        certs := certs + [d[3..3 + certLen]];
        d := d[3 + certLen..];
        i := i + 1;
      }
      assert certs + ReadVecs(3, 4, true, d).value == certs;
      certificates := certs;
      ok := true;
    }
  }

  // ----- CertificateRequest (GM) ----------------------------------------------------------------

  datatype Request = Request(types: seq<byte>, authorities: seq<seq<byte>>)

  function MarshalledRequest(m: Request): seq<byte> {
    [13] + ToBytes(3 + |m.types| + |Vecs(2, m.authorities)|, 3) + (Vec(1, m.types) + Vec(2, Vecs(2, m.authorities)))
  }

  function ParseAuthorities(types: seq<byte>, d: seq<byte>): Option<Request> {
    if |d| < 2 || |d| != 2 + BigEndian(d[..2]) then None
    else match ReadVecs(2, 2, true, d[2..])
      case None => None
      case Some(ss) => Some(Request(types, ss))
  }

  function ParseRequest(data: seq<byte>): Option<Request> {
    if |data| < 5 || BigEndian(data[1..4]) != |data| - 4 then None
    else
      var n := data[4] as nat;
      if n == 0 || |data| - 5 <= n then None else ParseAuthorities(data[5..5 + n], data[5 + n..])
  }

  /** A request with no certificate types is printed but not accepted; every other one comes back. */
  lemma RequestRoundTrip(m: Request)
    requires |m.types| < 256 && |Vecs(2, m.authorities)| < 0x10000
    requires forall i :: 0 <= i < |m.authorities| ==> |m.authorities[i]| < 0x10000
    ensures ParseRequest(MarshalledRequest(m)) == if m.types != [] then Some(m) else None
  {
    assert Power256(3) == Three && Power256(2) == 0x10000;
    hide ToBytes, BigEndian, Vecs, ReadVecs, Vec, MarshalledRequest, Power256, ParseRequest;
    AuthoritiesRead(m.authorities);
    var v := Vecs(2, m.authorities);
    RequestLayout(m);
    BigEndianRoundTrip(3 + |m.types| + |v|, 3);
    VecAlone(2, v);
    RequestFrom(m, MarshalledRequest(m), Vec(2, v), v);
  }

  lemma AuthoritiesRead(ss: seq<seq<byte>>)
    requires forall i :: 0 <= i < |ss| ==> |ss[i]| < 0x10000
    ensures ReadVecs(2, 2, true, Vecs(2, ss)) == Some(ss)
  {
    assert Power256(2) == 0x10000;
    hide Vecs, ReadVecs, Power256;
    VecsRoundTrip(2, 2, true, ss);
  }

  lemma VecIs(k: nat, s: seq<byte>)
    ensures Vec(k, s) == ToBytes(|s|, k) + s
  {
  }

  lemma RequestFrom(m: Request, x: seq<byte>, d: seq<byte>, v: seq<byte>)
    requires |x| == 7 + |m.types| + |v| && BigEndian(x[1..4]) == 3 + |m.types| + |v| && x[4] as int == |m.types|
    requires x[5..5 + |m.types|] == m.types && x[5 + |m.types|..] == d
    requires |d| == 2 + |v| && BigEndian(d[..2]) == |v| && d[2..] == v
    requires ReadVecs(2, 2, true, v) == Some(m.authorities)
    ensures ParseRequest(x) == if m.types != [] then Some(m) else None
  {
    hide BigEndian, ReadVecs;
  }

  lemma RequestLayout(m: Request)
    requires |m.types| < 256
    ensures var x, n, v := MarshalledRequest(m), |m.types|, Vecs(2, m.authorities);
            && |x| == 7 + n + |v| && x[1..4] == ToBytes(3 + n + |v|, 3) && x[4] as int == n && x[5..5 + n] == m.types && x[5 + n..] == Vec(2, v)
  {
    hide Vecs, ToBytes, Vec;
    var x, v := MarshalledRequest(m), Vecs(2, m.authorities);
    var a: seq<byte>, l, b := [13], ToBytes(3 + |m.types| + |v|, 3), Vec(1, m.types) + Vec(2, v);
    Assoc3(a, l, b);
    assert x[0..] == x;
    Front(x, 0, a, l + b);
    Front(x, 1, l, b);
    FrontVec(x, 4, m.types, Vec(2, v));
  }

  /** Exactly these byte strings are accepted: here the length in front counts, and the type does not. */
  lemma RequestIff(data: seq<byte>, m: Request)
    ensures ParseRequest(data) == Some(m) <==> IsRequest(data, m)
  {
    hide ToBytes, Vec, Vecs, ParseRequest, IsRequest;
    if ParseRequest(data) == Some(m) { RequestFound(data, m); }
    if IsRequest(data, m) { RequestTaken(data, m); }
  }

  predicate IsRequest(data: seq<byte>, m: Request) {
    && |data| >= 4 && |data| - 4 < Three && data[1..4] == ToBytes(|data| - 4, 3)
    && data[4..] == Vec(1, m.types) + Vec(2, Vecs(2, m.authorities)) && 0 < |m.types| < 256 && |Vecs(2, m.authorities)| < 0x10000
    && forall i :: 0 <= i < |m.authorities| ==> |m.authorities[i]| < 0x10000
  }

  lemma RequestTaken(data: seq<byte>, m: Request)
    requires IsRequest(data, m)
    ensures ParseRequest(data) == Some(m)
  {
    hide ToBytes, BigEndian, Vec, Vecs, ReadVecs, Power256, ParseRequest, Readable;
    TwoAndThree();
    var v := Vecs(2, m.authorities);
    BigEndianRoundTrip(|data| - 4, 3);
    FrontVec(data, 4, m.types, Vec(2, v));
    VecAlone(2, v);
    AuthoritiesRead(m.authorities);
    RequestFrom(m, data, Vec(2, v), v);
  }

  lemma TwoAndThree()
    ensures Power256(3) == Three && Power256(2) == 0x10000
  {
  }

  lemma RequestParts(data: seq<byte>, m: Request)
    requires ParseRequest(data) == Some(m)
    ensures |data| >= 5 && BigEndian(data[1..4]) == |data| - 4
    ensures var n := data[4] as nat;
            && 0 < n < |data| - 5 && m.types == data[5..5 + n]
            && var d := data[5 + n..]; |d| >= 2 && BigEndian(d[..2]) == |d| - 2 && ReadVecs(2, 2, true, d[2..]) == Some(m.authorities)
  {
    hide BigEndian, ReadVecs;
  }

  lemma RequestFound(data: seq<byte>, m: Request)
    requires ParseRequest(data) == Some(m)
    ensures IsRequest(data, m)
  {
    hide ToBytes, BigEndian, Vec, Vecs, ReadVecs, Power256, ParseRequest, Readable;
    TwoAndThree();
    RequestParts(data, m);
    var n := data[4] as nat;
    var d := data[5 + n..];
    ToBytesRoundTrip(data[1..4]);
    VecsIff(2, 2, true, d[2..], m.authorities);
    VecIff(2, d, d[2..]);
    ShortVec(m.types);
    assert data[4..] == [data[4]] + data[5..5 + n] + d;
  }

  lemma RequestTypeAndLength(m: Request)
    requires |m.types| < 256 && |Vecs(2, m.authorities)| < 0x10000
    ensures var x := MarshalledRequest(m); x[0] == 13 && BigEndian(x[1..4]) == |x| - 4
  {
    RequestLayout(m);
    assert Power256(3) == Three;
    hide Vecs, Vec, ToBytes, BigEndian;
    BigEndianRoundTrip(3 + |m.types| + |Vecs(2, m.authorities)|, 3);
  }

  method FillRequest(buf: array<byte>, m: Request, length: nat, casLength: nat)
    requires casLength == |Vecs(2, m.authorities)| && length == 3 + |m.types| + casLength && buf.Length == 4 + length
    modifies buf
    ensures buf[..] == MarshalledRequest(m)
  {
    OneByte(13);
    VecIs(2, Vecs(2, m.authorities));
    hide ToBytes, Vecs, Vec;
    var z := PutByte(buf, 0, 13);
    z := PutWord24(buf, z, length);
    z := PutVec(buf, z, 1, m.types);
    z := PutWord(buf, z, casLength);
    z := PutVecs(buf, z, 2, m.authorities);
    assert buf[..z] == buf[..];
    var head, v := [13] + ToBytes(length, 3), Vecs(2, m.authorities);
    Assoc3(head + Vec(1, m.types), ToBytes(casLength, 2), v);
    Assoc3(head, Vec(1, m.types), ToBytes(casLength, 2) + v);
  }

  class CertificateRequestMsg {
    var raw: Option<seq<byte>>
    var msg: Request

    constructor (m: Request)
      ensures raw == None && msg == m
    {
      raw, msg := None, m;
    }

    method Marshal() returns (x: seq<byte>)
      modifies this`raw
      ensures raw == Some(x) && x == if old(raw).Some? then old(raw).value else MarshalledRequest(msg)
    {
      if raw.Some? { return raw.value; }
      hide ToBytes, Vecs;
      var cas, i := msg.authorities, 0;
      var length, casLength := 1 + |msg.types| + 2, 0;
      while i < |cas|
        invariant 0 <= i <= |cas| && casLength == |Vecs(2, cas[..i])|
      {
        VecsLength(2, cas, i);
        casLength := casLength + 2 + |cas[i]|;
        i := i + 1;
      }
      assert cas[..i] == cas;
      length := length + casLength;
      var buf := new byte[4 + length](_ => 0);
      FillRequest(buf, msg, length, casLength);
      raw := Some(buf[..]);
      x := buf[..];
    }

    method Unmarshal(data: seq<byte>) returns (ok: bool)
      modifies this
      ensures raw == Some(data) && (ok <==> ParseRequest(data).Some?)
      ensures ok ==> Some(msg) == ParseRequest(data)
    {
      hide BigEndian, ReadVecs;
      raw := Some(data);
      if |data| < 5 { return false; }
      var length := GetLength(3, data[1..]);
      assert data[1..][..3] == data[1..4];
      if |data| - 4 != length { return false; }
      var n := data[4] as nat;
      var d := data[5..];
      if n == 0 || |d| <= n { return false; }
      assert d[..n] == data[5..5 + n] && d[n..] == data[5 + n..];
      msg := msg.(types := d[..n]);
      d := d[n..];
      if |d| < 2 { return false; }
      var casLength := GetWord(d);
      d := d[2..];
      if |d| < casLength { return false; }
      var cas := d[..casLength];
      assert |d| == casLength ==> cas == d;
      d := d[casLength..];
      msg := msg.(authorities := []);
      var ss := GetVecs(2, 2, true, cas);
      if ss.None? { return false; }
      msg := msg.(authorities := ss.value);
      ok := |d| == 0;
    }
  }
}
