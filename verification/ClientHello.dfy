/**
 The ClientHello message (section 7.4.1.2 of RFC 5246) as `zgmtls/handshake_messages.go` prints and parses it.
 `Marshalled` and `Parse` say what a message and a byte string mean; the class does what the code does, a
 buffer filled step by step and loops over slices; and the two undo each other.
 */
module ClientHello {
  import opened Bytes
  import opened Prelude
  import opened Wire

  datatype Hello = Hello(
    vers: nat, random: seq<byte>, sessionId: seq<byte>, cipherSuites: seq<nat>, compressionMethods: seq<byte>,
    nextProtoNeg: bool, serverName: seq<byte>, ocspStapling: bool, scts: bool, supportedCurves: seq<nat>,
    supportedPoints: seq<byte>, ticketSupported: bool, sessionTicket: seq<byte>, signatureAlgorithms: seq<nat>,
    secureRenegotiation: seq<byte>, secureRenegotiationSupported: bool, alpnProtocols: seq<seq<byte>>)

  const Zero: Hello := Hello(0, [], [], [], [], false, [], false, false, [], [], false, [], [], [], false, [])

  const Scsv: nat := 0x00ff

  // ----- printing -------------------------------------------------------------------------------

  function Npn(m: Hello): seq<byte> { if m.nextProtoNeg then Ext(13172, []) else [] }

  function Sni(m: Hello): seq<byte> { if m.serverName != [] then Ext(0, Vec(2, [0] + Vec(2, m.serverName))) else [] }

  function Ocsp(m: Hello): seq<byte> { if m.ocspStapling then Ext(5, [1, 0, 0, 0, 0]) else [] }

  function Curves(m: Hello): seq<byte> { if m.supportedCurves != [] then Ext(10, Vec(2, Words(m.supportedCurves))) else [] }

  function Points(m: Hello): seq<byte> { if m.supportedPoints != [] then Ext(11, Vec(1, m.supportedPoints)) else [] }

  function Ticket(m: Hello): seq<byte> { if m.ticketSupported then Ext(35, m.sessionTicket) else [] }

  function SigAlgs(m: Hello): seq<byte> {
    if m.signatureAlgorithms != [] then Ext(13, Vec(2, Words(m.signatureAlgorithms))) else []
  }

  function Reneg(m: Hello): seq<byte> { RenegInfo(m.secureRenegotiationSupported, m.secureRenegotiation) }

  function Alpn(m: Hello): seq<byte> { if m.alpnProtocols != [] then Ext(16, Vec(2, Vecs(1, m.alpnProtocols))) else [] }

  function Sct(m: Hello): seq<byte> { if m.scts then Ext(18, []) else [] }

  function FirstExts(m: Hello): seq<byte> { Npn(m) + Sni(m) + Ocsp(m) + Curves(m) + Points(m) }

  function LastExts(m: Hello): seq<byte> { Ticket(m) + SigAlgs(m) + Reneg(m) + Alpn(m) + Sct(m) }

  function Exts(m: Hello): seq<byte> { FirstExts(m) + LastExts(m) }

  function Fixed(m: Hello): seq<byte> {
    ToBytes(m.vers, 2) + Fit32(m.random) + Vec(1, m.sessionId) + Vec(2, Words(m.cipherSuites)) + Vec(1, m.compressionMethods)
  }

  function Body(m: Hello): seq<byte> {
    Fixed(m) + if Exts(m) == [] then [] else Vec(2, Exts(m))
  }

  function Marshalled(m: Hello): seq<byte> {
    [1] + ToBytes(|Body(m)|, 3) + Body(m)
  }

  /** The one thing marshal refuses, by a panic. */
  predicate AlpnValid(m: Hello) {
    forall i :: 0 <= i < |m.alpnProtocols| ==> 1 <= |m.alpnProtocols[i]| <= 255
  }

  // ----- parsing --------------------------------------------------------------------------------

  /** The first host name of the list; None for a malformed list. */
  function ReadNames(d: seq<byte>): Option<Option<seq<byte>>>
    decreases |d|
  {
    if d == [] then Some(None)
    else if |d| < 3 then None
    else
      var n := BigEndian(d[1..3]);
      if |d| < 3 + n then None
      else if d[0] == 0 then Some(Some(d[3..3 + n]))
      else ReadNames(d[3 + n..])
  }

  function ReadSni(m: Hello, d: seq<byte>): Option<Hello> {
    if |d| < 2 || BigEndian(d[..2]) != |d| - 2 then None
    else match ReadNames(d[2..])
      case None => None
      case Some(None) => Some(m)
      case Some(Some(name)) => Some(m.(serverName := name))
  }

  function ReadCurves(m: Hello, d: seq<byte>): Option<Hello> {
    if |d| < 2 || BigEndian(d[..2]) % 2 == 1 || |d| != BigEndian(d[..2]) + 2 then None
    else Some(m.(supportedCurves := ReadWords(d[2..])))
  }

  function ReadPoints(m: Hello, d: seq<byte>): Option<Hello> {
    if |d| < 1 || |d| != d[0] as int + 1 then None else Some(m.(supportedPoints := d[1..]))
  }

  function ReadSigAlgs(m: Hello, d: seq<byte>): Option<Hello> {
    if |d| < 2 || |d| % 2 != 0 || BigEndian(d[..2]) != |d| - 2 then None
    else Some(m.(signatureAlgorithms := ReadWords(d[2..])))
  }

  function ReadReneg(m: Hello, d: seq<byte>): Option<Hello> {
    if d == [] || d[0] as int != |d| - 1 then None
    else Some(m.(secureRenegotiation := d[1..], secureRenegotiationSupported := true))
  }

  function ReadAlpn(m: Hello, d: seq<byte>): Option<Hello> {
    if |d| < 2 || BigEndian(d[..2]) != |d| - 2 then None
    else match ReadVecs(1, 1, false, d[2..])
      case None => None
      case Some(ss) => Some(m.(alpnProtocols := m.alpnProtocols + ss))
  }

  /** One extension; unknown ones are skipped. */
  function Apply(m: Hello, code: nat, d: seq<byte>): Option<Hello> {
    if code == 0 then ReadSni(m, d)
    else if code == 13172 then (if d != [] then None else Some(m.(nextProtoNeg := true)))
    else if code == 5 then Some(m.(ocspStapling := d != [] && d[0] == 1))
    else if code == 10 then ReadCurves(m, d)
    else if code == 11 then ReadPoints(m, d)
    else if code == 35 then Some(m.(ticketSupported := true, sessionTicket := d))
    else if code == 13 then ReadSigAlgs(m, d)
    else if code == 0xff01 then ReadReneg(m, d)
    else if code == 16 then ReadAlpn(m, d)
    else if code == 18 then (if d != [] then None else Some(m.(scts := true)))
    else Some(m)
  }

  function ParseExts(m: Hello, data: seq<byte>): Option<Hello>
    decreases |data|
  {
    if data == [] then Some(m)
    else if |data| < 4 then None
    else
      var n := BigEndian(data[2..4]);
      if |data| < 4 + n then None
      else match Apply(m, BigEndian(data[..2]), data[4..4 + n])
        case None => None
        case Some(m') => ParseExts(m', data[4 + n..])
  }

  function ParseTail(m: Hello, data: seq<byte>): Option<Hello> {
    if data == [] then Some(m)
    else if |data| < 2 || BigEndian(data[..2]) != |data| - 2 then None
    else ParseExts(m, data[2..])
  }

  /** Version, random and session id. */
  function ParseStart(m: Hello, data: seq<byte>): Option<(Hello, seq<byte>)> {
    if |data| < 42 then None
    else
      var n := data[38] as nat;
      if n > 32 || |data| < 39 + n then None
      else Some((m.(vers := BigEndian(data[4..6]), random := data[6..38], sessionId := data[39..39 + n]), data[39 + n..]))
  }

  /** Cipher suites and compression methods; what is not in the message goes back to its zero value, except
      the fields of four extensions. */
  function ParseLists(m: Hello, data: seq<byte>): Option<(Hello, seq<byte>)> {
    if |data| < 2 then None
    else
      var n := BigEndian(data[..2]);
      if n % 2 == 1 || |data| < 2 + n then None
      else
        var suites, rest := ReadWords(data[2..2 + n]), data[2 + n..];
        if |rest| < 1 || |rest| < 1 + rest[0] as int then None
        else
          var k := rest[0] as nat;
          Some((m.(cipherSuites := suites, compressionMethods := rest[1..1 + k],
                   secureRenegotiationSupported := m.secureRenegotiationSupported || Scsv in suites,
                   nextProtoNeg := false, serverName := [], ocspStapling := false, ticketSupported := false, sessionTicket := [],
                   signatureAlgorithms := [], alpnProtocols := [], scts := false), rest[1 + k..]))
  }

  /** Parsing into the message value `m`, which for a new message is `Zero`. */
  function Parse(m: Hello, data: seq<byte>): Option<Hello> {
    match ParseStart(m, data)
    case None => None
    case Some((m1, d1)) =>
      match ParseLists(m1, d1)
      case None => None
      case Some((m2, d2)) => ParseTail(m2, d2)
  }

  // ----- the round trip -------------------------------------------------------------------------

  /** What section 7.4.1.2 and the lengths of the fields ask of a message. */
  predicate WellFormed(m: Hello) {
    && m.vers < 0x10000 && |m.random| == 32 && |m.sessionId| <= 32
    && Small(m.cipherSuites, 0x10000) && |m.cipherSuites| < 0x8000 && |m.compressionMethods| < 256
    && Small(m.supportedCurves, 0x10000) && |m.supportedPoints| < 256 && Small(m.signatureAlgorithms, 0x10000)
    && (!m.ticketSupported ==> m.sessionTicket == [])
    && |m.secureRenegotiation| <= 254 && (!m.secureRenegotiationSupported ==> m.secureRenegotiation == [])
    && (Scsv in m.cipherSuites ==> m.secureRenegotiationSupported)
    && AlpnValid(m) && |Exts(m)| < 0x10000
  }

  /** An extension in front of others is read, and the others after it. */
  lemma ExtStep(a: Hello, code: nat, body: seq<byte>, rest: seq<byte>)
    requires code < 0x10000 && |body| < 0x10000
    ensures ParseExts(a, Ext(code, body) + rest) ==
              match Apply(a, code, body) case None => None case Some(a') => ParseExts(a', rest)
  {
    var d := Ext(code, body) + rest;
    assert Power256(2) == 0x10000;
    assert d[..2] == ToBytes(code, 2) && d[2..4] == ToBytes(|body|, 2);
    assert d[4..4 + |body|] == body && d[4 + |body|..] == rest;
    hide Ext, Apply, ToBytes, BigEndian;
    BigEndianRoundTrip(code, 2);
    BigEndianRoundTrip(|body|, 2);
  }

  /** Nothing in front. */
  lemma NoExt(a: Hello, rest: seq<byte>)
    ensures ParseExts(a, [] + rest) == ParseExts(a, rest)
  {
    assert [] + rest == rest;
  }

  lemma NpnStep(m: Hello, a: Hello, rest: seq<byte>)
    requires !a.nextProtoNeg
    ensures ParseExts(a, Npn(m) + rest) == ParseExts(a.(nextProtoNeg := m.nextProtoNeg), rest)
  {
    hide ParseExts, Ext;
    if m.nextProtoNeg { ExtStep(a, 13172, [], rest); } else { NoExt(a, rest); }
  }

  lemma SniRead(a: Hello, name: seq<byte>)
    requires 0 < |name| < 0x10000 - 3
    ensures ReadSni(a, Vec(2, [0] + Vec(2, name))) == Some(a.(serverName := name))
  {
    assert Power256(2) == 0x10000;
    var d := Vec(2, [0] + Vec(2, name));
    var none: seq<byte> := [];
    assert d + none == d;
    ReadVec(2, [0] + Vec(2, name), none);
    var e := d[2..];
    assert e == [0] + Vec(2, name);
    assert e[1..3] == ToBytes(|name|, 2) && e[3..3 + |name|] == name;
    BigEndianRoundTrip(|name|, 2);
    hide ToBytes, BigEndian;
  }

  lemma SniStep(m: Hello, a: Hello, rest: seq<byte>)
    requires a.serverName == [] && |Sni(m)| < 0x10000
    ensures ParseExts(a, Sni(m) + rest) == ParseExts(a.(serverName := m.serverName), rest)
  {
    hide ParseExts, Ext, ReadSni;
    if m.serverName != [] {
      SniRead(a, m.serverName);
      ExtStep(a, 0, Vec(2, [0] + Vec(2, m.serverName)), rest);
    } else { NoExt(a, rest); }
  }

  lemma OcspStep(m: Hello, a: Hello, rest: seq<byte>)
    requires !a.ocspStapling
    ensures ParseExts(a, Ocsp(m) + rest) == ParseExts(a.(ocspStapling := m.ocspStapling), rest)
  {
    hide ParseExts, Ext;
    if m.ocspStapling { ExtStep(a, 5, [1, 0, 0, 0, 0], rest); } else { NoExt(a, rest); }
  }

  /** A vector of 16-bit numbers as the body of an extension. */
  lemma WordsBody(vs: seq<nat>)
    requires Small(vs, 0x10000) && 2 * |vs| < 0x10000
    ensures var d := Vec(2, Words(vs)); BigEndian(d[..2]) == |d| - 2 && ReadWords(d[2..]) == vs
  {
    assert Power256(2) == 0x10000;
    var d, none: seq<byte> := Vec(2, Words(vs)), [];
    assert d + none == d;
    ReadVec(2, Words(vs), none);
    assert d[2..] == Words(vs);
    WordsRoundTrip(vs);
  }

  lemma CurvesStep(m: Hello, a: Hello, rest: seq<byte>)
    requires a.supportedCurves == [] && Small(m.supportedCurves, 0x10000) && |Curves(m)| < 0x10000
    ensures ParseExts(a, Curves(m) + rest) == ParseExts(a.(supportedCurves := m.supportedCurves), rest)
  {
    hide ParseExts, Ext, Words, ReadWords, BigEndian, Vec;
    if m.supportedCurves != [] {
      WordsBody(m.supportedCurves);
      ExtStep(a, 10, Vec(2, Words(m.supportedCurves)), rest);
    } else { NoExt(a, rest); }
  }

  lemma PointsStep(m: Hello, a: Hello, rest: seq<byte>)
    requires a.supportedPoints == [] && |m.supportedPoints| < 256
    ensures ParseExts(a, Points(m) + rest) == ParseExts(a.(supportedPoints := m.supportedPoints), rest)
  {
    hide ParseExts, Ext;
    if m.supportedPoints != [] {
      var d := Vec(1, m.supportedPoints);
      assert ToBytes(|m.supportedPoints|, 1) == [|m.supportedPoints| % 256];
      assert d[0] as int == |m.supportedPoints| && d[1..] == m.supportedPoints;
      ExtStep(a, 11, d, rest);
    } else { NoExt(a, rest); }
  }

  lemma TicketStep(m: Hello, a: Hello, rest: seq<byte>)
    requires !a.ticketSupported && a.sessionTicket == [] && |Ticket(m)| < 0x10000
    requires !m.ticketSupported ==> m.sessionTicket == []
    ensures ParseExts(a, Ticket(m) + rest) == ParseExts(a.(ticketSupported := m.ticketSupported, sessionTicket := m.sessionTicket), rest)
  {
    hide ParseExts, Ext;
    if m.ticketSupported { ExtStep(a, 35, m.sessionTicket, rest); } else { NoExt(a, rest); }
  }

  lemma SigAlgsStep(m: Hello, a: Hello, rest: seq<byte>)
    requires a.signatureAlgorithms == [] && Small(m.signatureAlgorithms, 0x10000) && |SigAlgs(m)| < 0x10000
    ensures ParseExts(a, SigAlgs(m) + rest) == ParseExts(a.(signatureAlgorithms := m.signatureAlgorithms), rest)
  {
    hide ParseExts, Ext, Words, ReadWords, BigEndian, Vec;
    if m.signatureAlgorithms != [] {
      WordsBody(m.signatureAlgorithms);
      ExtStep(a, 13, Vec(2, Words(m.signatureAlgorithms)), rest);
    } else { NoExt(a, rest); }
  }

  lemma RenegStep(m: Hello, a: Hello, rest: seq<byte>)
    requires a.secureRenegotiation == [] && |m.secureRenegotiation| <= 254
    requires !m.secureRenegotiationSupported ==> m.secureRenegotiation == [] && !a.secureRenegotiationSupported
    ensures ParseExts(a, Reneg(m) + rest) ==
              ParseExts(a.(secureRenegotiation := m.secureRenegotiation, secureRenegotiationSupported := m.secureRenegotiationSupported), rest)
  {
    hide ParseExts, Ext;
    if m.secureRenegotiationSupported {
      var d := Vec(1, m.secureRenegotiation);
      RenegIsExt(m.secureRenegotiation);
      hide Ext, Vec, RenegInfo;
      ExtStep(a, 0xff01, d, rest);
    } else { NoExt(a, rest); }
  }

  lemma AlpnStep(m: Hello, a: Hello, rest: seq<byte>)
    requires a.alpnProtocols == [] && AlpnValid(m) && |Alpn(m)| < 0x10000
    ensures ParseExts(a, Alpn(m) + rest) == ParseExts(a.(alpnProtocols := m.alpnProtocols), rest)
  {
    hide ParseExts, Ext, ReadVecs, Vecs;
    if m.alpnProtocols != [] {
      var ss := m.alpnProtocols;
      assert Power256(2) == 0x10000 && Power256(1) == 256;
      var d, none: seq<byte>, nothing: seq<seq<byte>> := Vec(2, Vecs(1, ss)), [], [];
      assert d + none == d && nothing + ss == ss;
      ReadVec(2, Vecs(1, ss), none);
      assert d[2..] == Vecs(1, ss);
      VecsRoundTrip(1, 1, false, ss);
      hide Vec, BigEndian;
      ExtStep(a, 16, d, rest);
    } else { NoExt(a, rest); }
  }

  lemma SctStep(m: Hello, a: Hello, rest: seq<byte>)
    requires !a.scts
    ensures ParseExts(a, Sct(m) + rest) == ParseExts(a.(scts := m.scts), rest)
  {
    hide ParseExts, Ext;
    if m.scts { ExtStep(a, 18, [], rest); } else { NoExt(a, rest); }
  }

  /** The fields that are not in an extension, as they are before the extensions are read. */
  function Bare(m: Hello): Hello {
    Zero.(vers := m.vers, random := m.random, sessionId := m.sessionId, cipherSuites := m.cipherSuites,
          compressionMethods := m.compressionMethods, secureRenegotiationSupported := Scsv in m.cipherSuites)
  }

  function WithFirst(m: Hello): Hello {
    Bare(m).(nextProtoNeg := m.nextProtoNeg, serverName := m.serverName, ocspStapling := m.ocspStapling,
             supportedCurves := m.supportedCurves, supportedPoints := m.supportedPoints)
  }

  lemma PieceLengths(m: Hello)
    requires |Exts(m)| < 0x10000
    ensures |Sni(m)| < 0x10000 && |Curves(m)| < 0x10000 && |Ticket(m)| < 0x10000 && |SigAlgs(m)| < 0x10000 && |Alpn(m)| < 0x10000
  {
    hide Npn, Sni, Ocsp, Curves, Points, Ticket, SigAlgs, Reneg, Alpn, Sct;
  }

  lemma Assoc(a: seq<byte>, b: seq<byte>, c: seq<byte>, d: seq<byte>, e: seq<byte>, rest: seq<byte>)
    ensures a + b + c + d + e + rest == a + (b + (c + (d + (e + rest))))
  {
  }

  lemma FirstSteps(m: Hello, rest: seq<byte>)
    requires WellFormed(m)
    ensures ParseExts(Bare(m), FirstExts(m) + rest) == ParseExts(WithFirst(m), rest)
  {
    PieceLengths(m);
    assert Small(m.supportedCurves, 0x10000) && |m.supportedPoints| < 256;
    hide ParseExts, Npn, Sni, Ocsp, Curves, Points, Small, WellFormed;
    var r4 := Points(m) + rest;
    var r3 := Curves(m) + r4;
    var r2 := Ocsp(m) + r3;
    var r1 := Sni(m) + r2;
    Assoc(Npn(m), Sni(m), Ocsp(m), Curves(m), Points(m), rest);
    assert FirstExts(m) + rest == Npn(m) + r1;
    hide FirstExts;
    var a := Bare(m);
    NpnStep(m, a, r1);
    a := a.(nextProtoNeg := m.nextProtoNeg);
    SniStep(m, a, r2);
    a := a.(serverName := m.serverName);
    OcspStep(m, a, r3);
    a := a.(ocspStapling := m.ocspStapling);
    CurvesStep(m, a, r4);
    a := a.(supportedCurves := m.supportedCurves);
    PointsStep(m, a, rest);
  }

  lemma LastSteps(m: Hello)
    requires WellFormed(m)
    ensures ParseExts(WithFirst(m), LastExts(m)) == Some(m)
  {
    PieceLengths(m);
    assert ParseExts(m, []) == Some(m);
    assert (!m.ticketSupported ==> m.sessionTicket == []) && Small(m.signatureAlgorithms, 0x10000) && |m.secureRenegotiation| <= 254
           && (!m.secureRenegotiationSupported ==> m.secureRenegotiation == [] && Scsv !in m.cipherSuites) && AlpnValid(m);
    hide ParseExts, Ticket, SigAlgs, Reneg, Alpn, Sct, AlpnValid, Small, WellFormed;
    var none: seq<byte> := [];
    var r4 := Sct(m) + none;
    var r3 := Alpn(m) + r4;
    var r2 := Reneg(m) + r3;
    var r1 := SigAlgs(m) + r2;
    Assoc(Ticket(m), SigAlgs(m), Reneg(m), Alpn(m), Sct(m), none);
    assert LastExts(m) + none == LastExts(m);
    assert LastExts(m) == Ticket(m) + r1;
    hide LastExts;
    var a := WithFirst(m);
    TicketStep(m, a, r1);
    a := a.(ticketSupported := m.ticketSupported, sessionTicket := m.sessionTicket);
    SigAlgsStep(m, a, r2);
    a := a.(signatureAlgorithms := m.signatureAlgorithms);
    RenegStep(m, a, r3);
    a := a.(secureRenegotiation := m.secureRenegotiation, secureRenegotiationSupported := m.secureRenegotiationSupported);
    AlpnStep(m, a, r4);
    a := a.(alpnProtocols := m.alpnProtocols);
    SctStep(m, a, none);
    assert a.(scts := m.scts) == m;
  }

  lemma TailRead(m: Hello)
    requires WellFormed(m)
    ensures ParseTail(Bare(m), if Exts(m) == [] then [] else Vec(2, Exts(m))) == Some(m)
  {
    FirstSteps(m, LastExts(m));
    LastSteps(m);
    if Exts(m) == [] {
      assert FirstExts(m) + LastExts(m) == [];
      assert ParseExts(Bare(m), []) == Some(Bare(m));
    } else {
      hide ParseExts, FirstExts, LastExts, AlpnValid;
      var none: seq<byte>, d := [], Vec(2, Exts(m));
      assert Power256(2) == 0x10000;
      ReadVec(2, Exts(m), none);
      assert d + none == d && d[2..] == Exts(m);
    }
  }

  /** The fixed part in front of anything. */
  lemma StartRead(m: Hello, data: seq<byte>, rest: seq<byte>)
    requires m.vers < 0x10000 && |m.random| == 32 && |m.sessionId| <= 32 && |rest| >= 3
    requires |data| >= 4 && data[4..] == ToBytes(m.vers, 2) + m.random + Vec(1, m.sessionId) + rest
    ensures ParseStart(Zero, data) == Some((Zero.(vers := m.vers, random := m.random, sessionId := m.sessionId), rest))
  {
    assert Power256(2) == 0x10000;
    BigEndianRoundTrip(m.vers, 2);
    hide ToBytes, BigEndian, Vec, Power256;
    var v, r, s := ToBytes(m.vers, 2), m.random, Vec(1, m.sessionId);
    Assoc3(v + r, s, rest);
    Assoc3(v, r, s + rest);
    Front(data, 4, v, r + (s + rest));
    Front(data, 6, r, s + rest);
    FrontVec(data, 38, m.sessionId, rest);
  }

  lemma ListsRead(m: Hello, a: Hello, rest: seq<byte>)
    requires Small(m.cipherSuites, 0x10000) && |m.cipherSuites| < 0x8000 && |m.compressionMethods| < 256
    requires a == Zero.(vers := m.vers, random := m.random, sessionId := m.sessionId)
    ensures ParseLists(a, Vec(2, Words(m.cipherSuites)) + Vec(1, m.compressionMethods) + rest) == Some((Bare(m), rest))
  {
    assert Power256(2) == 0x10000;
    WordsRoundTrip(m.cipherSuites);
    hide ToBytes, BigEndian, Vec, Words, ReadWords, Small, ParseLists, Bare, Power256;
    var w := Words(m.cipherSuites);
    var tail := Vec(1, m.compressionMethods) + rest;
    Assoc3(Vec(2, w), Vec(1, m.compressionMethods), rest);
    ReadVec(2, w, tail);
    assert tail[0..] == tail;
    FrontVec(tail, 0, m.compressionMethods, rest);
    WithLists(m, a, Vec(2, w) + tail, w, tail, rest);
  }

  lemma WithLists(m: Hello, a: Hello, d: seq<byte>, w: seq<byte>, tail: seq<byte>, rest: seq<byte>)
    requires a == Zero.(vers := m.vers, random := m.random, sessionId := m.sessionId)
    requires |w| % 2 == 0 && |d| == 2 + |w| + |tail| && BigEndian(d[..2]) == |w| && d[2..2 + |w|] == w && d[2 + |w|..] == tail
    requires ReadWords(w) == m.cipherSuites && tail != [] && tail[0] as int == |m.compressionMethods|
    requires |tail| >= 1 + |m.compressionMethods| && tail[1..1 + |m.compressionMethods|] == m.compressionMethods
    requires tail[1 + |m.compressionMethods|..] == rest
    ensures ParseLists(a, d) == Some((Bare(m), rest))
  {
    hide BigEndian, ReadWords;
    var n := |w|;
    assert ReadWords(d[2..2 + n]) == m.cipherSuites;
    var k := |m.compressionMethods|;
    assert ParseLists(a, d).Some?;
    assert ParseLists(a, d).value.1 == rest;
  }

  /** Parsing a printed ClientHello gives it back, for every combination of extensions. */
  lemma RoundTrip(m: Hello)
    requires WellFormed(m)
    ensures Parse(Zero, Marshalled(m)) == Some(m)
  {
    var tail := if Exts(m) == [] then [] else Vec(2, Exts(m));
    var lists := Vec(2, Words(m.cipherSuites)) + Vec(1, m.compressionMethods) + tail;
    TailRead(m);
    hide Exts, Vec, ToBytes, ParseStart, ParseLists, ParseTail, Words, AlpnValid, Small;
    Layout(m, tail);
    StartRead(m, Marshalled(m), lists);
    ListsRead(m, Zero.(vers := m.vers, random := m.random, sessionId := m.sessionId), tail);
  }

  lemma Layout(m: Hello, tail: seq<byte>)
    requires |m.random| == 32 && tail == if Exts(m) == [] then [] else Vec(2, Exts(m))
    ensures |Marshalled(m)| >= 4
    ensures Marshalled(m)[4..] == ToBytes(m.vers, 2) + m.random + Vec(1, m.sessionId)
                                  + (Vec(2, Words(m.cipherSuites)) + Vec(1, m.compressionMethods) + tail)
  {
    hide Exts, Words;
    assert Fit32(m.random) == m.random;
    Regroup(ToBytes(m.vers, 2), m.random, Vec(1, m.sessionId), Vec(2, Words(m.cipherSuites)), Vec(1, m.compressionMethods), tail);
    var head := [1] + ToBytes(|Body(m)|, 3);
    hide Vec, ToBytes, Fit32;
    assert Body(m) == Fixed(m) + tail;
    assert (head + Body(m))[|head|..] == Body(m);
  }

  lemma Regroup(a: seq<byte>, b: seq<byte>, c: seq<byte>, d: seq<byte>, e: seq<byte>, tail: seq<byte>)
    ensures a + b + c + d + e + tail == a + b + c + (d + e + tail)
  {
  }

  // ----- the code that prints -------------------------------------------------------------------

  method PutNpn(x: array<byte>, z: nat, m: Hello) returns (z': nat)
    requires z + |Npn(m)| <= x.Length
    modifies x
    ensures z' == z + |Npn(m)| && x[..z'] == old(x[..z]) + Npn(m)
  {
    hide ToBytes;
    z' := z;
    if m.nextProtoNeg { z' := PutExt(x, z, 13172, 0); }
  }

  method PutSni(x: array<byte>, z: nat, m: Hello) returns (z': nat)
    requires z + |Sni(m)| <= x.Length
    modifies x
    ensures z' == z + |Sni(m)| && x[..z'] == old(x[..z]) + Sni(m)
  {
    SniLayout(x[..z], m.serverName);
    hide ToBytes, Ext, Vec;
    z' := z;
    if m.serverName != [] {
      z' := PutExt(x, z, 0, |m.serverName| + 5);
      z' := PutWord(x, z', |m.serverName| + 3);
      z' := PutByte(x, z', 0);
      z' := PutWord(x, z', |m.serverName|);
      z' := Put(x, z', m.serverName);
    }
  }

  lemma SniLayout(a: seq<byte>, name: seq<byte>)
    ensures var n, e := |name|, Ext(0, Vec(2, [0] + Vec(2, name)));
            && |e| == 9 + n
            && a + (ToBytes(0, 2) + ToBytes(n + 5, 2)) + ToBytes(n + 3, 2) + ToBytes(0, 1) + ToBytes(n, 2) + name == a + e
  {
    OneByte(0);
    hide ToBytes;
  }

  method PutOcsp(x: array<byte>, z: nat, m: Hello) returns (z': nat)
    requires z + |Ocsp(m)| <= x.Length
    modifies x
    ensures z' == z + |Ocsp(m)| && x[..z'] == old(x[..z]) + Ocsp(m)
  {
    hide ToBytes;
    z' := z;
    if m.ocspStapling {
      z' := PutExt(x, z, 5, 5);
      z' := Put(x, z', [1, 0, 0, 0, 0]);
    }
  }

  /** Both lists of 16-bit numbers. */
  method PutWordsExt(x: array<byte>, z: nat, code: nat, vs: seq<nat>) returns (z': nat)
    requires z + 6 + 2 * |vs| <= x.Length
    modifies x
    ensures z' == z + 6 + 2 * |vs| && x[..z'] == old(x[..z]) + Ext(code, Vec(2, Words(vs)))
  {
    hide ToBytes, Words;
    var l := 2 + 2 * |vs|;
    z' := PutExt(x, z, code, l);
    l := l - 2;
    z' := PutWord(x, z', l);
    z' := PutWords(x, z', vs);
  }

  method PutCurves(x: array<byte>, z: nat, m: Hello) returns (z': nat)
    requires z + |Curves(m)| <= x.Length
    modifies x
    ensures z' == z + |Curves(m)| && x[..z'] == old(x[..z]) + Curves(m)
  {
    hide ToBytes;
    z' := z;
    if m.supportedCurves != [] { z' := PutWordsExt(x, z, 10, m.supportedCurves); }
  }

  method PutPoints(x: array<byte>, z: nat, m: Hello) returns (z': nat)
    requires z + |Points(m)| <= x.Length
    modifies x
    ensures z' == z + |Points(m)| && x[..z'] == old(x[..z]) + Points(m)
  {
    hide ToBytes;
    z' := z;
    if m.supportedPoints != [] {
      z' := PutExt(x, z, 11, 1 + |m.supportedPoints|);
      z' := PutByte(x, z', |m.supportedPoints|);
      z' := Put(x, z', m.supportedPoints);
    }
  }

  method PutTicket(x: array<byte>, z: nat, m: Hello) returns (z': nat)
    requires z + |Ticket(m)| <= x.Length
    modifies x
    ensures z' == z + |Ticket(m)| && x[..z'] == old(x[..z]) + Ticket(m)
  {
    hide ToBytes;
    z' := z;
    if m.ticketSupported {
      z' := PutExt(x, z, 35, |m.sessionTicket|);
      z' := Put(x, z', m.sessionTicket);
    }
  }

  method PutSigAlgs(x: array<byte>, z: nat, m: Hello) returns (z': nat)
    requires z + |SigAlgs(m)| <= x.Length
    modifies x
    ensures z' == z + |SigAlgs(m)| && x[..z'] == old(x[..z]) + SigAlgs(m)
  {
    hide ToBytes;
    z' := z;
    if m.signatureAlgorithms != [] { z' := PutWordsExt(x, z, 13, m.signatureAlgorithms); }
  }

  /** The two lengths are filled in when the strings have been written. */
  method PutAlpn(x: array<byte>, z: nat, m: Hello) returns (z': nat)
    requires z + |Alpn(m)| <= x.Length
    modifies x
    ensures z' == z + |Alpn(m)| && x[..z'] == old(x[..z]) + Alpn(m)
  {
    hide ToBytes, Vecs;
    z' := z;
    if m.alpnProtocols != [] {
      z' := PutWord(x, z, 16);
      var lengths := z';
      ghost var start, written := x[..lengths], Vecs(1, m.alpnProtocols);
      z' := PutVecs(x, lengths + 4, 1, m.alpnProtocols);
      var n := z' - (lengths + 4);
      assert x[..lengths] == x[..z'][..lengths] == start;
      assert x[lengths + 4..z'] == x[..z'][lengths + 4..] == written;
      var _ := PutWord(x, lengths, n + 2);
      var _ := PutWord(x, lengths + 2, n);
      assert x[..lengths + 4] == start + ToBytes(n + 2, 2) + ToBytes(n, 2);
      assert x[lengths + 4..z'] == written;
      assert x[..z'] == x[..lengths + 4] + x[lengths + 4..z'];
    }
  }

  method PutSct(x: array<byte>, z: nat, m: Hello) returns (z': nat)
    requires z + |Sct(m)| <= x.Length
    modifies x
    ensures z' == z + |Sct(m)| && x[..z'] == old(x[..z]) + Sct(m)
  {
    hide ToBytes;
    z' := z;
    if m.scts { z' := PutExt(x, z, 18, 0); }
  }

  method PutExts(x: array<byte>, z: nat, m: Hello) returns (z': nat)
    requires z + |Exts(m)| <= x.Length
    modifies x
    ensures z' == z + |Exts(m)| && x[..z'] == old(x[..z]) + Exts(m)
  {
    hide FirstExts, LastExts;
    z' := PutFirst(x, z, m);
    z' := PutLast(x, z', m);
  }

  method PutFirst(x: array<byte>, z: nat, m: Hello) returns (z': nat)
    requires z + |FirstExts(m)| <= x.Length
    modifies x
    ensures z' == z + |FirstExts(m)| && x[..z'] == old(x[..z]) + FirstExts(m)
  {
    hide Npn, Sni, Ocsp, Curves, Points;
    Assoc5(x[..z], Npn(m), Sni(m), Ocsp(m), Curves(m), Points(m));
    z' := PutNpn(x, z, m);
    z' := PutSni(x, z', m);
    z' := PutOcsp(x, z', m);
    z' := PutCurves(x, z', m);
    z' := PutPoints(x, z', m);
  }

  method PutLast(x: array<byte>, z: nat, m: Hello) returns (z': nat)
    requires z + |LastExts(m)| <= x.Length
    modifies x
    ensures z' == z + |LastExts(m)| && x[..z'] == old(x[..z]) + LastExts(m)
  {
    hide Ticket, SigAlgs, RenegInfo, Alpn, Sct;
    Assoc5(x[..z], Ticket(m), SigAlgs(m), Reneg(m), Alpn(m), Sct(m));
    z' := PutTicket(x, z, m);
    z' := PutSigAlgs(x, z', m);
    z' := PutRenegInfo(x, z', m.secureRenegotiationSupported, m.secureRenegotiation);
    z' := PutAlpn(x, z', m);
    z' := PutSct(x, z', m);
  }

  lemma Assoc5(a: seq<byte>, b: seq<byte>, c: seq<byte>, d: seq<byte>, e: seq<byte>, f: seq<byte>)
    ensures a + b + c + d + e + f == a + (b + c + d + e + f)
  {
  }

  method PutFixed(x: array<byte>, z: nat, m: Hello) returns (z': nat)
    requires z + |Fixed(m)| <= x.Length
    modifies x
    ensures z' == z + |Fixed(m)| && x[..z'] == old(x[..z]) + Fixed(m)
  {
    hide ToBytes, Words, Fit32;
    ghost var a := x[..z];
    z' := PutWord(x, z, m.vers);
    z' := Put(x, z', Fit32(m.random));
    z' := PutVec(x, z', 1, m.sessionId);
    z' := PutWord(x, z', 2 * |m.cipherSuites|);
    z' := PutWords(x, z', m.cipherSuites);
    z' := PutVec(x, z', 1, m.compressionMethods);
    FixedParts(a, m);
  }

  lemma FixedParts(a: seq<byte>, m: Hello)
    ensures a + ToBytes(m.vers, 2) + Fit32(m.random) + Vec(1, m.sessionId) + ToBytes(2 * |m.cipherSuites|, 2) + Words(m.cipherSuites)
            + Vec(1, m.compressionMethods) == a + Fixed(m)
  {
    hide ToBytes, Words, Fit32;
    var w := ToBytes(2 * |m.cipherSuites|, 2) + Words(m.cipherSuites);
    assert w == Vec(2, Words(m.cipherSuites));
  }

  /** The lengths marshal computes beforehand are those of what it then writes. */
  method Lengths(m: Hello) returns (ok: bool, numExtensions: nat, extensionsLength: nat)
    ensures ok <==> AlpnValid(m)
    ensures ok ==> extensionsLength + 4 * numExtensions == |Exts(m)| && (numExtensions == 0 <==> |Exts(m)| == 0)
  {
    hide Npn, Sni, Ocsp, Curves, Points, Ticket, SigAlgs, Reneg, Alpn, Sct, Exts, Vecs, AlpnValid;
    PieceSizes(m);
    ExtsSize(m);
    ok, numExtensions, extensionsLength := false, 0, 0;
    var n, l := FirstLengths(m);
    n, l := MiddleLengths(m, n, l, |Npn(m)| + |Ocsp(m)| + |Sni(m)| + |Curves(m)| + |Points(m)|);
    var strings;
    ok, strings := AlpnLength(m);
    if !ok { return; }
    if m.alpnProtocols != [] { n, l := n + 1, l + 2 + strings; }
    if m.scts { n := n + 1; }
    numExtensions, extensionsLength := n, l;
  }

  method MiddleLengths(m: Hello, n0: nat, l0: nat, ghost done: nat) returns (n: nat, l: nat)
    requires Counted(n0, l0, done)
    ensures Counted(n, l, done + |Ticket(m)| + |SigAlgs(m)| + |Reneg(m)|)
  {
    hide Ticket, SigAlgs, Reneg, Vecs;
    PieceSizes(m);
    n, l := n0, l0;
    if m.ticketSupported { n, l := n + 1, l + |m.sessionTicket|; }
    assert Counted(n, l, done + |Ticket(m)|);
    if m.signatureAlgorithms != [] { n, l := n + 1, l + 2 + 2 * |m.signatureAlgorithms|; }
    assert Counted(n, l, done + |Ticket(m)| + |SigAlgs(m)|);
    if m.secureRenegotiationSupported { n, l := n + 1, l + 1 + |m.secureRenegotiation|; }
  }

  method FirstLengths(m: Hello) returns (n: nat, l: nat)
    ensures Counted(n, l, |Npn(m)| + |Ocsp(m)| + |Sni(m)| + |Curves(m)| + |Points(m)|)
  {
    PieceSizes(m);
    hide Npn, Sni, Ocsp, Curves, Points, Vecs;
    n, l := 0, 0;
    if m.nextProtoNeg { n := n + 1; }
    assert Counted(n, l, |Npn(m)|);
    ghost var done := |Npn(m)| + |Ocsp(m)|;
    if m.ocspStapling { n, l := n + 1, l + 5; }
    assert Counted(n, l, done);
    if m.serverName != [] { n, l := n + 1, l + 5 + |m.serverName|; }
    done := done + |Sni(m)|;
    assert Counted(n, l, done);
    if m.supportedCurves != [] { n, l := n + 1, l + 2 + 2 * |m.supportedCurves|; }
    done := done + |Curves(m)|;
    assert Counted(n, l, done);
    if m.supportedPoints != [] { n, l := n + 1, l + 1 + |m.supportedPoints|; }
  }

  /** The count and the sum of lengths agree with the bytes of the extensions counted so far. */
  ghost predicate Counted(n: nat, l: nat, bytes: nat) {
    l + 4 * n == bytes && (n == 0 <==> bytes == 0)
  }

  lemma PieceSizes(m: Hello)
    ensures |Npn(m)| == (if m.nextProtoNeg then 4 else 0) && |Ocsp(m)| == (if m.ocspStapling then 9 else 0)
    ensures |Sni(m)| == if m.serverName != [] then 9 + |m.serverName| else 0
    ensures |Curves(m)| == if m.supportedCurves != [] then 6 + 2 * |m.supportedCurves| else 0
    ensures |Points(m)| == if m.supportedPoints != [] then 5 + |m.supportedPoints| else 0
    ensures |Ticket(m)| == if m.ticketSupported then 4 + |m.sessionTicket| else 0
    ensures |SigAlgs(m)| == if m.signatureAlgorithms != [] then 6 + 2 * |m.signatureAlgorithms| else 0
    ensures |Reneg(m)| == if m.secureRenegotiationSupported then 5 + |m.secureRenegotiation| else 0
    ensures |Alpn(m)| == if m.alpnProtocols != [] then 6 + |Vecs(1, m.alpnProtocols)| else 0
    ensures |Sct(m)| == if m.scts then 4 else 0
  {
    hide ToBytes;
  }

  lemma ExtsSize(m: Hello)
    ensures |Exts(m)| == |Npn(m)| + |Sni(m)| + |Ocsp(m)| + |Curves(m)| + |Points(m)|
                         + |Ticket(m)| + |SigAlgs(m)| + |Reneg(m)| + |Alpn(m)| + |Sct(m)|
  {
    hide Npn, Sni, Ocsp, Curves, Points, Ticket, SigAlgs, Reneg, Alpn, Sct;
  }

  method AlpnLength(m: Hello) returns (ok: bool, n: nat)
    ensures ok <==> AlpnValid(m)
    ensures ok ==> n == |Vecs(1, m.alpnProtocols)|
  {
    var ss, i := m.alpnProtocols, 0;
    n := 0;
    while i < |ss|
      invariant 0 <= i <= |ss| && n == |Vecs(1, ss[..i])| && forall j :: 0 <= j < i ==> 1 <= |ss[j]| <= 255
    {
      if |ss[i]| == 0 || |ss[i]| > 255 { return false, 0; }
      VecsLength(1, ss, i);
      n := n + 1 + |ss[i]|;
      i := i + 1;
    }
    assert ss[..i] == ss;
    ok := true;
  }

  // ----- the code that parses -------------------------------------------------------------------

  method GetNames(data: seq<byte>) returns (r: Option<Option<seq<byte>>>)
    ensures r == ReadNames(data)
  {
    var d := data;
    while d != []
      invariant ReadNames(d) == ReadNames(data)
      decreases |d|
    {
      if |d| < 3 { return None; }
      var n := GetWord(d[1..]);
      assert d[1..][..2] == d[1..3];
      if |d| < 3 + n { return None; }
      if d[0] == 0 { return Some(Some(d[3..3 + n])); }
      d := d[3 + n..];
    }
    r := Some(None);
  }

  /** The switch of unmarshal: one extension with its body. */
  method GetExt(m: Hello, code: nat, d: seq<byte>) returns (r: Option<Hello>)
    ensures r == Apply(m, code, d)
  {
    hide ReadNames, ReadWords, ReadVecs, BigEndian;
    if code == 0 {
      if |d| < 2 { return None; }
      var n := GetWord(d);
      if |d| - 2 != n { return None; }
      var name := GetNames(d[2..]);
      if name.None? { return None; }
      return Some(if name.value.None? then m else m.(serverName := name.value.value));
    } else if code == 13172 {
      return if d != [] then None else Some(m.(nextProtoNeg := true));
    } else if code == 5 {
      return Some(m.(ocspStapling := d != [] && d[0] == 1));
    } else if code == 10 {
      if |d| < 2 { return None; }
      var l := GetWord(d);
      if l % 2 == 1 || |d| != l + 2 { return None; }
      var vs := GetWords(d[2..]);
      return Some(m.(supportedCurves := vs));
    } else if code == 11 {
      if |d| < 1 || |d| != d[0] as int + 1 { return None; }
      return Some(m.(supportedPoints := d[1..]));
    } else if code == 35 {
      return Some(m.(ticketSupported := true, sessionTicket := d));
    } else {
      r := GetLateExt(m, code, d);
    }
  }

  method GetLateExt(m: Hello, code: nat, d: seq<byte>) returns (r: Option<Hello>)
    requires code != 0 && code != 13172 && code != 5 && code != 10 && code != 11 && code != 35
    ensures r == Apply(m, code, d)
  {
    hide ReadNames, ReadWords, ReadVecs, BigEndian, ReadSni, ReadCurves, ReadPoints;
    if code == 13 {
      if |d| < 2 || |d| % 2 != 0 { return None; }
      var l := GetWord(d);
      if l != |d| - 2 { return None; }
      var vs := GetWords(d[2..]);
      return Some(m.(signatureAlgorithms := vs));
    } else if code == 0xff01 {
      if d == [] || d[0] as int != |d| - 1 { return None; }
      return Some(m.(secureRenegotiation := d[1..], secureRenegotiationSupported := true));
    } else if code == 16 {
      if |d| < 2 { return None; }
      var l := GetWord(d);
      if l != |d| - 2 { return None; }
      var ss := GetVecs(1, 1, false, d[2..]);
      if ss.None? { return None; }
      return Some(m.(alpnProtocols := m.alpnProtocols + ss.value));
    } else if code == 18 {
      return if d != [] then None else Some(m.(scts := true));
    }
    r := Some(m);
  }

  method GetExts(m0: Hello, all: seq<byte>) returns (r: Option<Hello>)
    ensures r == ParseExts(m0, all)
  {
    hide Apply, BigEndian;
    var m, data := m0, all;
    while data != []
      invariant ParseExts(m, data) == ParseExts(m0, all)
      decreases |data|
    {
      if |data| < 4 { return None; }
      var code := GetWord(data);
      var n := GetWord(data[2..]);
      assert data[2..][..2] == data[2..4];
      if |data| < 4 + n { return None; }
      var m' := GetExt(m, code, data[4..4 + n]);
      if m'.None? { return None; }
      m, data := m'.value, data[4 + n..];
    }
    r := Some(m);
  }

  method GetLists(m: Hello, data: seq<byte>) returns (r: Option<(Hello, seq<byte>)>)
    ensures r == ParseLists(m, data)
  {
    hide ReadWords, BigEndian;
    if |data| < 2 { return None; }
    var n := GetWord(data);
    if n % 2 == 1 || |data| < 2 + n { return None; }
    var suites := GetWords(data[2..2 + n]);
    var scsv := exists i :: 0 <= i < |suites| && suites[i] == Scsv;
    assert scsv <==> Scsv in suites;
    var rest := data[2 + n..];
    if |rest| < 1 { return None; }
    var k := rest[0] as nat;
    if |rest| < 1 + k { return None; }
    r := Some((m.(cipherSuites := suites, compressionMethods := rest[1..1 + k],
                  secureRenegotiationSupported := m.secureRenegotiationSupported || scsv,
                  nextProtoNeg := false, serverName := [], ocspStapling := false, ticketSupported := false, sessionTicket := [],
                  signatureAlgorithms := [], alpnProtocols := [], scts := false), rest[1 + k..]));
  }

  /** The body of marshal after the buffer has been made. */
  method Fill(x: array<byte>, m: Hello, length: nat, exts: bool, extLen: nat)
    requires length == |Body(m)| && x.Length == 4 + length && extLen == |Exts(m)| && (exts <==> extLen > 0)
    modifies x
    ensures x[..] == Marshalled(m)
  {
    hide Exts, Fixed, ToBytes;
    OneByte(1);
    var z := PutByte(x, 0, 1);
    z := PutWord24(x, z, length);
    z := PutFixed(x, z, m);
    ghost var head := [1] + ToBytes(length, 3);
    assert x[..z] == head + Fixed(m);
    if exts {
      z := PutWord(x, z, extLen);
      z := PutExts(x, z, m);
      assert x[..z] == head + (Fixed(m) + Vec(2, Exts(m)));
    } else {
      assert Fixed(m) == Body(m);
    }
    assert x[..z] == x[..];
  }

  /** The message object: the fields, and the bytes it was printed as or parsed from. */
  class ClientHelloMsg {
    var raw: Option<seq<byte>>
    var hello: Hello

    constructor (m: Hello)
      ensures raw == None && hello == m
    {
      raw, hello := None, m;
    }

    /** `marshal`: the bytes kept from before if there are any; None stands for the panic. The buffer it allocates is
        filled exactly. */
    method Marshal() returns (r: Option<seq<byte>>)
      modifies this`raw
      ensures r == raw == if old(raw).Some? then old(raw) else if AlpnValid(hello) then Some(Marshalled(hello)) else None
    {
      if raw.Some? { return raw; }
      hide AlpnValid, Exts, Fixed, ToBytes, Words;
      var m := hello;
      var ok, num, extLen := Lengths(m);
      if !ok { return None; }
      if num > 0 { extLen := extLen + 4 * num; }
      var length := 2 + 32 + 1 + |m.sessionId| + 2 + 2 * |m.cipherSuites| + 1 + |m.compressionMethods|;
      if num > 0 { length := length + 2 + extLen; }
      FixedSize(m);
      var x := new byte[4 + length](_ => 0);
      Fill(x, m, length, num > 0, extLen);
      raw := Some(x[..]);
      r := raw;
    }

    /** `unmarshal` into this object. */
    method Unmarshal(data: seq<byte>) returns (ok: bool)
      modifies this
      ensures ok <==> Parse(old(hello), data).Some?
      ensures ok ==> raw == Some(data) && Some(hello) == Parse(old(hello), data)
    {
      hide ParseLists, ParseExts, BigEndian;
      if |data| < 42 { return false; }
      raw := Some(data);
      var v := GetWord(data[4..]);
      assert data[4..][..2] == data[4..6];
      hello := hello.(vers := v, random := data[6..38]);
      var n := data[38] as nat;
      if n > 32 || |data| < 39 + n { return false; }
      hello := hello.(sessionId := data[39..39 + n]);
      var lists := GetLists(hello, data[39 + n..]);
      if lists.None? { return false; }
      hello := lists.value.0;
      var rest := lists.value.1;
      if rest == [] { return true; }
      if |rest| < 2 { return false; }
      var l := GetWord(rest);
      if l != |rest| - 2 { return false; }
      var m := GetExts(hello, rest[2..]);
      if m.None? { return false; }
      hello := m.value;
      ok := true;
    }
  }

  lemma FixedSize(m: Hello)
    ensures |Fixed(m)| == 38 + |m.sessionId| + 2 * |m.cipherSuites| + |m.compressionMethods|
  {
    hide ToBytes, Words, Fit32;
  }

  /** Both sides at work: what one prints the other parses, and then the two objects are equal, bytes included. */
  method PrintThenParse(a: ClientHelloMsg, b: ClientHelloMsg)
    requires a != b && a.raw == None && WellFormed(a.hello) && b.hello == Zero
    modifies a`raw, b
    ensures b.hello == a.hello && a.raw == b.raw == Some(Marshalled(a.hello))
  {
    RoundTrip(a.hello);
    var x := a.Marshal();
    var ok := b.Unmarshal(x.value);
  }
}
