/**
 The ServerHello message (section 7.4.1.3 of RFC 5246) as `zgmtls/handshake_messages.go` prints and parses it,
 built like ClientHello.
 */
module ServerHello {
  import opened Bytes
  import opened Prelude
  import opened Wire

  datatype Hello = Hello(
    vers: nat, random: seq<byte>, sessionId: seq<byte>, cipherSuite: nat, compressionMethod: byte,
    nextProtoNeg: bool, nextProtos: seq<seq<byte>>, ocspStapling: bool, scts: seq<seq<byte>>, ticketSupported: bool,
    secureRenegotiation: seq<byte>, secureRenegotiationSupported: bool, alpnProtocol: seq<byte>)

  const Zero: Hello := Hello(0, [], [], 0, 0, false, [], false, [], false, [], false, [])

  // ----- printing -------------------------------------------------------------------------------

  /** Protocol names longer than 255 bytes are cut when they are written ... */
  function Cut(ss: seq<seq<byte>>): (r: seq<seq<byte>>)
    ensures |r| == |ss|
  {
    seq(|ss|, i requires 0 <= i < |ss| => if |ss[i]| > 255 then ss[i][..255] else ss[i])
  }

  /** ... but counted in full, so that as many zero bytes are left at the end of the message. */
  function Pad(m: Hello): nat {
    var full, cut := |Vecs(1, m.nextProtos)|, |Vecs(1, Cut(m.nextProtos))|;
    if m.nextProtoNeg && cut <= full then full - cut else 0
  }

  function Npn(m: Hello): seq<byte> {
    if m.nextProtoNeg then ToBytes(13172, 2) + ToBytes(|Vecs(1, m.nextProtos)|, 2) + Vecs(1, Cut(m.nextProtos)) else []
  }

  function Ocsp(m: Hello): seq<byte> { if m.ocspStapling then Ext(5, []) else [] }

  function Ticket(m: Hello): seq<byte> { if m.ticketSupported then Ext(35, []) else [] }

  function Reneg(m: Hello): seq<byte> { RenegInfo(m.secureRenegotiationSupported, m.secureRenegotiation) }

  function Alpn(m: Hello): seq<byte> { if m.alpnProtocol != [] then Ext(16, Vec(2, Vec(1, m.alpnProtocol))) else [] }

  function Sct(m: Hello): seq<byte> { if m.scts != [] then Ext(18, Vec(2, Vecs(2, m.scts))) else [] }

  function Exts(m: Hello): seq<byte> { Npn(m) + Ocsp(m) + Ticket(m) + Reneg(m) + Alpn(m) + Sct(m) }

  function Zeros(n: nat): seq<byte> { seq(n, i => 0) }

  function Fixed(m: Hello): seq<byte> {
    ToBytes(m.vers, 2) + Fit32(m.random) + Vec(1, m.sessionId) + ToBytes(m.cipherSuite, 2) + [m.compressionMethod]
  }

  function Body(m: Hello): seq<byte> {
    Fixed(m) + if Exts(m) == [] then [] else ToBytes(|Exts(m)| + Pad(m), 2) + Exts(m) + Zeros(Pad(m))
  }

  function Marshalled(m: Hello): seq<byte> {
    [2] + ToBytes(|Body(m)|, 3) + Body(m)
  }

  // ----- parsing --------------------------------------------------------------------------------

  function ReadNpn(m: Hello, d: seq<byte>): Option<Hello> {
    match ReadVecs(1, 1, false, d)
    case None => None
    case Some(ss) => Some(m.(nextProtoNeg := true, nextProtos := m.nextProtos + ss))
  }

  function ReadReneg(m: Hello, d: seq<byte>): Option<Hello> {
    if d == [] || d[0] as int != |d| - 1 then None
    else Some(m.(secureRenegotiation := d[1..], secureRenegotiationSupported := true))
  }

  function ReadAlpn(m: Hello, d: seq<byte>): Option<Hello> {
    if |d| < 3 || BigEndian(d[..2]) != |d| - 2 || d[2] as int != |d| - 3 || |d| == 3 then None
    else Some(m.(alpnProtocol := d[3..]))
  }

  function ReadSct(m: Hello, d: seq<byte>): Option<Hello> {
    if |d| < 2 || |d| - 2 != BigEndian(d[..2]) || BigEndian(d[..2]) == 0 then None
    else match ReadVecs(2, 2, false, d[2..])
      case None => None
      case Some(ss) => Some(m.(scts := ss))
  }

  function Apply(m: Hello, code: nat, d: seq<byte>): Option<Hello> {
    if code == 13172 then ReadNpn(m, d)
    else if code == 5 then (if d != [] then None else Some(m.(ocspStapling := true)))
    else if code == 35 then (if d != [] then None else Some(m.(ticketSupported := true)))
    else if code == 0xff01 then ReadReneg(m, d)
    else if code == 16 then ReadAlpn(m, d)
    else if code == 18 then ReadSct(m, d)
    else Some(m)
  }

  function ParseExts(m: Hello, data: seq<byte>): Option<Hello>
    decreases |data|
  {
    if data == [] then Some(m)
    else if |data| < 4 then None
    else
      var n := BigEndian(data[2..4]);
      if |data| < 4 + n then None
      else match Apply(m, BigEndian(data[..2]), data[4..4 + n])
        case None => None
        case Some(m') => ParseExts(m', data[4 + n..])
  }

  function ParseTail(m: Hello, data: seq<byte>): Option<Hello> {
    if data == [] then Some(m)
    else if |data| < 2 || BigEndian(data[..2]) != |data| - 2 then None
    else ParseExts(m, data[2..])
  }

  function ParseStart(m: Hello, data: seq<byte>): Option<(Hello, seq<byte>)> {
    if |data| < 42 then None
    else
      var n := data[38] as nat;
      if n > 32 || |data| < 39 + n + 3 then None
      else
        var rest := data[39 + n..];
        Some((m.(vers := BigEndian(data[4..6]), random := data[6..38], sessionId := data[39..39 + n],
                 cipherSuite := BigEndian(rest[..2]), compressionMethod := rest[2],
                 nextProtoNeg := false, nextProtos := [], ocspStapling := false, scts := [], ticketSupported := false,
                 alpnProtocol := []), rest[3..]))
  }

  /** Parsing into the message value `m`, which for a new message is `Zero`. */
  function Parse(m: Hello, data: seq<byte>): Option<Hello> {
    match ParseStart(m, data)
    case None => None
    case Some((m1, rest)) => ParseTail(m1, rest)
  }

  // ----- the round trip -------------------------------------------------------------------------

  predicate WellFormed(m: Hello) {
    && m.vers < 0x10000 && |m.random| == 32 && |m.sessionId| <= 32 && m.cipherSuite < 0x10000
    && (forall i :: 0 <= i < |m.nextProtos| ==> 1 <= |m.nextProtos[i]| <= 255) && (!m.nextProtoNeg ==> m.nextProtos == [])
    && (forall i :: 0 <= i < |m.scts| ==> 1 <= |m.scts[i]| < 0x10000)
    && |m.secureRenegotiation| <= 254 && (!m.secureRenegotiationSupported ==> m.secureRenegotiation == [])
    && |m.alpnProtocol| <= 255 && |Exts(m)| < 0x10000
  }

  lemma ExtStep(a: Hello, code: nat, body: seq<byte>, rest: seq<byte>)
    requires code < 0x10000 && |body| < 0x10000
    ensures ParseExts(a, Ext(code, body) + rest) ==
              match Apply(a, code, body) case None => None case Some(a') => ParseExts(a', rest)
  {
    var d := Ext(code, body) + rest;
    assert Power256(2) == 0x10000;
    assert d[..2] == ToBytes(code, 2) && d[2..4] == ToBytes(|body|, 2);
    assert d[4..4 + |body|] == body && d[4 + |body|..] == rest;
    hide Ext, Apply, ToBytes, BigEndian;
    BigEndianRoundTrip(code, 2);
    BigEndianRoundTrip(|body|, 2);
  }

  lemma NoExt(a: Hello, rest: seq<byte>)
    ensures ParseExts(a, [] + rest) == ParseExts(a, rest)
  {
    assert [] + rest == rest;
  }

  lemma NpnStep(m: Hello, a: Hello, rest: seq<byte>)
    requires !a.nextProtoNeg && a.nextProtos == [] && |Npn(m)| < 0x10000
    requires (forall i :: 0 <= i < |m.nextProtos| ==> 1 <= |m.nextProtos[i]| <= 255) && (!m.nextProtoNeg ==> m.nextProtos == [])
    ensures ParseExts(a, Npn(m) + rest) == ParseExts(a.(nextProtoNeg := m.nextProtoNeg, nextProtos := m.nextProtos), rest)
  {
    hide ParseExts, ReadVecs, Vecs;
    if m.nextProtoNeg {
      var ss, none: seq<seq<byte>> := m.nextProtos, [];
      assert Cut(ss) == ss && none + ss == ss;
      assert Power256(1) == 256;
      VecsRoundTrip(1, 1, false, ss);
      assert Npn(m) == Ext(13172, Vecs(1, ss));
      hide Ext, Npn;
      ExtStep(a, 13172, Vecs(1, ss), rest);
    } else { NoExt(a, rest); }
  }

  lemma OcspStep(m: Hello, a: Hello, rest: seq<byte>)
    requires !a.ocspStapling
    ensures ParseExts(a, Ocsp(m) + rest) == ParseExts(a.(ocspStapling := m.ocspStapling), rest)
  {
    hide ParseExts, Ext;
    if m.ocspStapling { ExtStep(a, 5, [], rest); } else { NoExt(a, rest); }
  }

  lemma TicketStep(m: Hello, a: Hello, rest: seq<byte>)
    requires !a.ticketSupported
    ensures ParseExts(a, Ticket(m) + rest) == ParseExts(a.(ticketSupported := m.ticketSupported), rest)
  {
    hide ParseExts, Ext;
    if m.ticketSupported { ExtStep(a, 35, [], rest); } else { NoExt(a, rest); }
  }

  lemma RenegStep(m: Hello, a: Hello, rest: seq<byte>)
    requires a.secureRenegotiation == [] && !a.secureRenegotiationSupported && |m.secureRenegotiation| <= 254
    requires !m.secureRenegotiationSupported ==> m.secureRenegotiation == []
    ensures ParseExts(a, Reneg(m) + rest) ==
              ParseExts(a.(secureRenegotiation := m.secureRenegotiation, secureRenegotiationSupported := m.secureRenegotiationSupported), rest)
  {
    hide ParseExts, Ext;
    if m.secureRenegotiationSupported {
      var d := Vec(1, m.secureRenegotiation);
      RenegIsExt(m.secureRenegotiation);
      hide Ext, Vec, RenegInfo;
      ExtStep(a, 0xff01, d, rest);
    } else { NoExt(a, rest); }
  }

  lemma AlpnStep(m: Hello, a: Hello, rest: seq<byte>)
    requires a.alpnProtocol == [] && |m.alpnProtocol| <= 255
    ensures ParseExts(a, Alpn(m) + rest) == ParseExts(a.(alpnProtocol := m.alpnProtocol), rest)
  {
    hide ParseExts, Ext;
    if m.alpnProtocol != [] {
      var s, none: seq<byte> := m.alpnProtocol, [];
      var d := Vec(2, Vec(1, s));
      assert Power256(2) == 0x10000;
      assert d + none == d;
      ReadVec(2, Vec(1, s), none);
      OneByte(|s|);
      assert d[2..] == Vec(1, s) && d[2] as int == |s| && d[3..] == s;
      hide Vec, BigEndian;
      ExtStep(a, 16, d, rest);
    } else { NoExt(a, rest); }
  }

  lemma SctStep(m: Hello, a: Hello, rest: seq<byte>)
    requires a.scts == [] && |Sct(m)| < 0x10000 && (forall i :: 0 <= i < |m.scts| ==> 1 <= |m.scts[i]| < 0x10000)
    ensures ParseExts(a, Sct(m) + rest) == ParseExts(a.(scts := m.scts), rest)
  {
    hide ParseExts, Ext, ReadVecs;
    if m.scts != [] {
      var ss, none: seq<byte> := m.scts, [];
      var d := Vec(2, Vecs(2, ss));
      assert Power256(2) == 0x10000;
      assert d + none == d;
      ReadVec(2, Vecs(2, ss), none);
      assert d[2..] == Vecs(2, ss) && |Vecs(2, ss)| > 0;
      VecsRoundTrip(2, 2, false, ss);
      hide Vec, Vecs, BigEndian;
      ExtStep(a, 18, d, rest);
    } else { NoExt(a, rest); }
  }

  function Bare(m: Hello): Hello {
    Zero.(vers := m.vers, random := m.random, sessionId := m.sessionId, cipherSuite := m.cipherSuite, compressionMethod := m.compressionMethod)
  }

  lemma Assoc(a: seq<byte>, b: seq<byte>, c: seq<byte>, d: seq<byte>, e: seq<byte>, f: seq<byte>)
    ensures a + b + c + d + e + f == a + (b + (c + (d + (e + f))))
  {
  }

  lemma PieceLengths(m: Hello)
    requires |Exts(m)| < 0x10000
    ensures |Npn(m)| < 0x10000 && |Sct(m)| < 0x10000
  {
    hide Npn, Ocsp, Ticket, Reneg, Alpn, Sct;
  }

  lemma ExtsRead(m: Hello)
    requires WellFormed(m)
    ensures ParseExts(Bare(m), Exts(m)) == Some(m)
  {
    PieceLengths(m);
    assert ParseExts(m, []) == Some(m);
    hide ParseExts, Npn, Ocsp, Ticket, Reneg, Alpn, Sct;
    var none: seq<byte> := [];
    assert Sct(m) + none == Sct(m);
    Assoc(Npn(m), Ocsp(m), Ticket(m), Reneg(m), Alpn(m), Sct(m));
    var r4 := Alpn(m) + Sct(m);
    var r3 := Reneg(m) + r4;
    var r2 := Ticket(m) + r3;
    var r1 := Ocsp(m) + r2;
    var a := Bare(m);
    NpnStep(m, a, r1);
    a := a.(nextProtoNeg := m.nextProtoNeg, nextProtos := m.nextProtos);
    OcspStep(m, a, r2);
    a := a.(ocspStapling := m.ocspStapling);
    TicketStep(m, a, r3);
    a := a.(ticketSupported := m.ticketSupported);
    RenegStep(m, a, r4);
    a := a.(secureRenegotiation := m.secureRenegotiation, secureRenegotiationSupported := m.secureRenegotiationSupported);
    AlpnStep(m, a, Sct(m));
    a := a.(alpnProtocol := m.alpnProtocol);
    SctStep(m, a, none);
    assert a.(scts := m.scts) == m;
  }

  lemma TailRead(m: Hello)
    requires WellFormed(m)
    ensures Pad(m) == 0
    ensures ParseTail(Bare(m), if Exts(m) == [] then [] else ToBytes(|Exts(m)|, 2) + Exts(m)) == Some(m)
  {
    assert Cut(m.nextProtos) == m.nextProtos;
    ExtsRead(m);
    if Exts(m) == [] {
      assert ParseExts(Bare(m), []) == Some(Bare(m));
    } else {
      var none: seq<byte>, d := [], Vec(2, Exts(m));
      hide ParseExts, Exts;
      assert Power256(2) == 0x10000;
      ReadVec(2, Exts(m), none);
      assert d + none == d && d[2..] == Exts(m);
    }
  }

  lemma StartRead(m: Hello, data: seq<byte>, rest: seq<byte>)
    requires m.vers < 0x10000 && |m.random| == 32 && |m.sessionId| <= 32 && m.cipherSuite < 0x10000
    requires |data| >= 4 && data[4..] == ToBytes(m.vers, 2) + m.random + Vec(1, m.sessionId) + ToBytes(m.cipherSuite, 2) + [m.compressionMethod] + rest
    ensures ParseStart(Zero, data) == Some((Bare(m), rest))
  {
    assert Power256(2) == 0x10000;
    BigEndianRoundTrip(m.vers, 2);
    BigEndianRoundTrip(m.cipherSuite, 2);
    hide ToBytes, BigEndian, Vec, Power256;
    var v, r, s, c, k := ToBytes(m.vers, 2), m.random, Vec(1, m.sessionId), ToBytes(m.cipherSuite, 2), [m.compressionMethod];
    Assoc3(v + r + s + c, k, rest);
    Assoc3(v + r + s, c, k + rest);
    Assoc3(v + r, s, c + (k + rest));
    Assoc3(v, r, s + (c + (k + rest)));
    Front(data, 4, v, r + (s + (c + (k + rest))));
    Front(data, 6, r, s + (c + (k + rest)));
    FrontVec(data, 38, m.sessionId, c + (k + rest));
    var d := data[39 + |m.sessionId|..];
    assert d[0..] == d;
    Front(d, 0, c, k + rest);
    Front(d, 2, k, rest);
    assert d[..2] == d[0..2] && d[2] == d[2..3][0];
  }

  /** Parsing a printed ServerHello gives it back, for every combination of extensions. */
  lemma RoundTrip(m: Hello)
    requires WellFormed(m)
    ensures Parse(Zero, Marshalled(m)) == Some(m)
  {
    TailRead(m);
    var tail := if Exts(m) == [] then [] else ToBytes(|Exts(m)|, 2) + Exts(m);
    Layout(m, tail);
    hide Exts, ToBytes, Vec, ParseStart, ParseTail, Marshalled, Fit32;
    StartRead(m, Marshalled(m), tail);
  }

  lemma Layout(m: Hello, tail: seq<byte>)
    requires |m.random| == 32 && Pad(m) == 0 && tail == if Exts(m) == [] then [] else ToBytes(|Exts(m)|, 2) + Exts(m)
    ensures |Marshalled(m)| >= 4
    ensures Marshalled(m)[4..] == ToBytes(m.vers, 2) + m.random + Vec(1, m.sessionId) + ToBytes(m.cipherSuite, 2) + [m.compressionMethod] + tail
  {
    hide Exts, Pad;
    assert Fit32(m.random) == m.random;
    var x, head, none: seq<byte> := Marshalled(m), [2] + ToBytes(|Body(m)|, 3), [];
    assert Zeros(0) == [];
    hide ToBytes, Vec, Fit32, Zeros;
    assert Body(m) == Fixed(m) + tail by { if Exts(m) != [] { assert ToBytes(|Exts(m)|, 2) + Exts(m) + none == tail; } }
    hide Body;
    assert x[0..] == x;
    Front(x, 0, head, Body(m));
  }

  // ----- the code that prints -------------------------------------------------------------------

  method PutNpn(x: array<byte>, z: nat, m: Hello) returns (z': nat)
    requires z + |Npn(m)| <= x.Length
    modifies x
    ensures z' == z + |Npn(m)| && x[..z'] == old(x[..z]) + Npn(m)
    ensures forall i :: z' <= i < x.Length ==> x[i] == old(x[i])
  {
    hide ToBytes, Vecs;
    z' := z;
    if m.nextProtoNeg {
      z' := PutWord(x, z, 13172);
      z' := PutWord(x, z', |Vecs(1, m.nextProtos)|);
      z' := PutVecs(x, z', 1, Cut(m.nextProtos));
    }
  }

  method PutFlag(x: array<byte>, z: nat, code: nat, present: bool) returns (z': nat)
    requires z + (if present then 4 else 0) <= x.Length
    modifies x
    ensures z' == z + (if present then 4 else 0) && x[..z'] == old(x[..z]) + (if present then Ext(code, []) else [])
    ensures forall i :: z' <= i < x.Length ==> x[i] == old(x[i])
  {
    hide ToBytes;
    z' := z;
    if present { z' := PutExt(x, z, code, 0); }
  }

  method PutAlpn(x: array<byte>, z: nat, m: Hello) returns (z': nat)
    requires z + |Alpn(m)| <= x.Length
    modifies x
    ensures z' == z + |Alpn(m)| && x[..z'] == old(x[..z]) + Alpn(m)
    ensures forall i :: z' <= i < x.Length ==> x[i] == old(x[i])
  {
    hide ToBytes;
    z' := z;
    if m.alpnProtocol != [] {
      var l := 3 + |m.alpnProtocol|;
      z' := PutExt(x, z, 16, l);
      l := l - 2;
      z' := PutWord(x, z', l);
      l := l - 1;
      z' := PutVec(x, z', 1, m.alpnProtocol);
    }
  }

  method PutSct(x: array<byte>, z: nat, m: Hello) returns (z': nat)
    requires z + |Sct(m)| <= x.Length
    modifies x
    ensures z' == z + |Sct(m)| && x[..z'] == old(x[..z]) + Sct(m)
    ensures forall i :: z' <= i < x.Length ==> x[i] == old(x[i])
  {
    hide ToBytes, Vecs;
    z' := z;
    if m.scts != [] {
      var n := |Vecs(2, m.scts)|;
      z' := PutExt(x, z, 18, n + 2);
      z' := PutWord(x, z', n);
      z' := PutVecs(x, z', 2, m.scts);
    }
  }

  method PutExts(x: array<byte>, z: nat, m: Hello) returns (z': nat)
    requires z + |Exts(m)| <= x.Length
    modifies x
    ensures z' == z + |Exts(m)| && x[..z'] == old(x[..z]) + Exts(m)
    ensures forall i :: z' <= i < x.Length ==> x[i] == old(x[i])
  {
    hide Npn, Alpn, Sct, Ext, RenegInfo;
    Regroup(x[..z], Npn(m), Ocsp(m), Ticket(m), Reneg(m), Alpn(m), Sct(m));
    z' := PutNpn(x, z, m);
    z' := PutFlag(x, z', 5, m.ocspStapling);
    z' := PutFlag(x, z', 35, m.ticketSupported);
    z' := PutRenegInfo(x, z', m.secureRenegotiationSupported, m.secureRenegotiation);
    z' := PutAlpn(x, z', m);
    z' := PutSct(x, z', m);
  }

  lemma Regroup(a: seq<byte>, b: seq<byte>, c: seq<byte>, d: seq<byte>, e: seq<byte>, f: seq<byte>, g: seq<byte>)
    ensures a + b + c + d + e + f + g == a + (b + c + d + e + f + g)
  {
  }

  method PutFixed(x: array<byte>, z: nat, m: Hello) returns (z': nat)
    requires z + |Fixed(m)| <= x.Length
    modifies x
    ensures z' == z + |Fixed(m)| && x[..z'] == old(x[..z]) + Fixed(m)
    ensures forall i :: z' <= i < x.Length ==> x[i] == old(x[i])
  {
    hide ToBytes, Fit32;
    z' := PutWord(x, z, m.vers);
    z' := Put(x, z', Fit32(m.random));
    z' := PutVec(x, z', 1, m.sessionId);
    z' := PutWord(x, z', m.cipherSuite);
    z' := Put(x, z', [m.compressionMethod]);
  }

  lemma ExtsSize(m: Hello)
    ensures |Exts(m)| == (if m.nextProtoNeg then 4 + |Vecs(1, Cut(m.nextProtos))| else 0) + (if m.ocspStapling then 4 else 0)
              + (if m.ticketSupported then 4 else 0) + (if m.secureRenegotiationSupported then 5 + |m.secureRenegotiation| else 0)
              + (if m.alpnProtocol != [] then 7 + |m.alpnProtocol| else 0) + (if m.scts != [] then 6 + |Vecs(2, m.scts)| else 0)
  {
    hide ToBytes, Vecs;
  }

  lemma {:induction false} CutShorter(ss: seq<seq<byte>>)
    ensures |Vecs(1, Cut(ss))| <= |Vecs(1, ss)|
  {
    if ss != [] {
      assert Cut(ss)[1..] == Cut(ss[1..]);
      CutShorter(ss[1..]);
      hide Vec;
    }
  }

  /** The loops that add up the lengths of vectors. */
  method VecsLen(k: nat, ss: seq<seq<byte>>) returns (n: nat)
    ensures n == |Vecs(k, ss)|
  {
    n := 0;
    var i := 0;
    while i < |ss|
      invariant 0 <= i <= |ss| && n == |Vecs(k, ss[..i])|
    {
      VecsLength(k, ss, i);
      n := n + k + |ss[i]|;
      i := i + 1;
    }
    assert ss[..i] == ss;
  }

  method Lengths(m: Hello) returns (ok: bool, numExtensions: nat, extensionsLength: nat)
    ensures ok <==> |m.alpnProtocol| < 256
    ensures ok ==> extensionsLength + 4 * numExtensions == |Exts(m)| + Pad(m) && (numExtensions == 0 <==> |Exts(m)| == 0)
  {
    hide Exts, Vecs;
    ExtsSize(m);
    CutShorter(m.nextProtos);
    var n, l := 0, 0;
    if m.nextProtoNeg {
      l := VecsLen(1, m.nextProtos);
      n := 1;
    }
    if m.ocspStapling { n := n + 1; }
    if m.ticketSupported { n := n + 1; }
    if m.secureRenegotiationSupported { n, l := n + 1, l + 1 + |m.secureRenegotiation|; }
    if m.alpnProtocol != [] {
      if |m.alpnProtocol| >= 256 { return false, 0, 0; }
      n, l := n + 1, l + 3 + |m.alpnProtocol|;
    }
    if m.scts != [] {
      var sctLen := VecsLen(2, m.scts);
      n, l := n + 1, l + 2 + sctLen;
    }
    ok, numExtensions, extensionsLength := true, n, l;
  }

  method Fill(x: array<byte>, m: Hello, length: nat, exts: bool, extLen: nat)
    requires length == |Body(m)| && x.Length == 4 + length && extLen == |Exts(m)| + Pad(m) && (exts <==> Exts(m) != [])
    requires forall i :: 0 <= i < x.Length ==> x[i] == 0
    modifies x
    ensures x[..] == Marshalled(m)
  {
    hide Exts, Fixed, ToBytes, Pad;
    ghost var blank := x[..];
    var z := PutByte(x, 0, 2);
    OneByte(2);
    z := PutWord24(x, z, length);
    z := PutFixed(x, z, m);
    ghost var head := [2] + ToBytes(length, 3);
    assert x[..z] == head + Fixed(m);
    if exts {
      z := PutWord(x, z, extLen);
      z := PutExts(x, z, m);
      assert x[z..] == blank[z..] == Zeros(Pad(m));
      assert x[..z] + x[z..] == head + (Fixed(m) + (ToBytes(extLen, 2) + Exts(m) + Zeros(Pad(m))));
    } else {
      assert Fixed(m) == Body(m);
    }
    assert x[..z] + x[z..] == x[..];
  }

  // ----- the code that parses -------------------------------------------------------------------

  method GetExt(m: Hello, code: nat, d: seq<byte>) returns (r: Option<Hello>)
    ensures r == Apply(m, code, d)
  {
    hide ReadVecs, BigEndian;
    if code == 13172 {
      var ss := GetVecs(1, 1, false, d);
      if ss.None? { return None; }
      return Some(m.(nextProtoNeg := true, nextProtos := m.nextProtos + ss.value));
    } else if code == 5 {
      return if d != [] then None else Some(m.(ocspStapling := true));
    } else if code == 35 {
      return if d != [] then None else Some(m.(ticketSupported := true));
    } else if code == 0xff01 {
      if d == [] || d[0] as int != |d| - 1 { return None; }
      return Some(m.(secureRenegotiation := d[1..], secureRenegotiationSupported := true));
    } else if code == 16 {
      if |d| < 3 { return None; }
      var l := GetWord(d);
      if l != |d| - 2 || d[2] as int != |d| - 3 || |d| == 3 { return None; }
      return Some(m.(alpnProtocol := d[3..]));
    } else if code == 18 {
      if |d| < 2 { return None; }
      var l := GetWord(d);
      if |d| - 2 != l || l == 0 { return None; }
      var ss := GetVecs(2, 2, false, d[2..]);
      if ss.None? { return None; }
      return Some(m.(scts := ss.value));
    }
    r := Some(m);
  }

  method GetExts(m0: Hello, all: seq<byte>) returns (r: Option<Hello>)
    ensures r == ParseExts(m0, all)
  {
    hide Apply, BigEndian;
    var m, data := m0, all;
    while data != []
      invariant ParseExts(m, data) == ParseExts(m0, all)
      decreases |data|
    {
      if |data| < 4 { return None; }
      var code := GetWord(data);
      var n := GetWord(data[2..]);
      assert data[2..][..2] == data[2..4];
      if |data| < 4 + n { return None; }
      var m' := GetExt(m, code, data[4..4 + n]);
      if m'.None? { return None; }
      m, data := m'.value, data[4 + n..];
    }
    r := Some(m);
  }

  class ServerHelloMsg {
    var raw: Option<seq<byte>>
    var hello: Hello

    constructor (m: Hello)
      ensures raw == None && hello == m
    {
      raw, hello := None, m;
    }

    method Marshal() returns (r: Option<seq<byte>>)
      modifies this`raw
      ensures r == raw == if old(raw).Some? then old(raw) else if |hello.alpnProtocol| < 256 then Some(Marshalled(hello)) else None
    {
      if raw.Some? { return raw; }
      hide Exts, Fixed, ToBytes, Pad;
      var m := hello;
      var ok, num, extLen := Lengths(m);
      if !ok { return None; }
      extLen := extLen + 4 * num;
      var length := 38 + |m.sessionId|;
      if num > 0 { length := length + 2 + extLen; }
      FixedSize(m);
      var x := new byte[4 + length](_ => 0);
      Fill(x, m, length, num > 0, extLen);
      raw := Some(x[..]);
      r := raw;
    }

    method Unmarshal(data: seq<byte>) returns (ok: bool)
      modifies this
      ensures ok <==> Parse(old(hello), data).Some?
      ensures ok ==> raw == Some(data) && Some(hello) == Parse(old(hello), data)
    {
      hide ParseExts, BigEndian;
      if |data| < 42 { return false; }
      raw := Some(data);
      var v := GetWord(data[4..]);
      assert data[4..][..2] == data[4..6];
      hello := hello.(vers := v, random := data[6..38]);
      var n := data[38] as nat;
      if n > 32 || |data| < 39 + n { return false; }
      hello := hello.(sessionId := data[39..39 + n]);
      var rest := data[39 + n..];
      if |rest| < 3 { return false; }
      var suite := GetWord(rest);
      hello := hello.(cipherSuite := suite, compressionMethod := rest[2], nextProtoNeg := false, nextProtos := [],
                      ocspStapling := false, scts := [], ticketSupported := false, alpnProtocol := []);
      rest := rest[3..];
      if rest == [] { return true; }
      if |rest| < 2 { return false; }
      var l := GetWord(rest);
      if l != |rest| - 2 { return false; }
      var m := GetExts(hello, rest[2..]);
      if m.None? { return false; }
      hello := m.value;
      ok := true;
    }
  }

  lemma FixedSize(m: Hello)
    ensures |Fixed(m)| == 38 + |m.sessionId|
  {
    hide ToBytes, Fit32;
  }

  /** Both sides at work: what one prints the other parses, and then the two objects are equal, bytes included. */
  method PrintThenParse(a: ServerHelloMsg, b: ServerHelloMsg)
    requires a != b && a.raw == None && WellFormed(a.hello) && b.hello == Zero
    modifies a`raw, b
    ensures b.hello == a.hello && a.raw == b.raw == Some(Marshalled(a.hello))
  {
    RoundTrip(a.hello);
    var x := a.Marshal();
    var ok := b.Unmarshal(x.value);
  }
}
