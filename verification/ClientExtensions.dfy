/**
 Which byte strings ClientHello accepts. An extension block is a list of codes and bodies; a body that the code knows is accepted exactly
 when it is the printed form of something, a code it does not know makes no difference, and the message around the block is what
 the printer writes.
 */
module ClientExtensions {
  import opened Bytes
  import opened Prelude
  import opened Wire
  import opened Extensions
  import opened ClientHello

  /** The extensions one after the other. */
  function Fold(m: Hello, es: seq<Extension>): Option<Hello>
    decreases |es|
  {
    if es == [] then Some(m)
    else match Apply(m, es[0].code, es[0].body)
      case None => None
      case Some(m') => Fold(m', es[1..])
  }

  lemma {:induction false} BlockFolds(m: Hello, es: seq<Extension>)
    requires Proper(es)
    ensures ParseExts(m, Printed(es)) == Fold(m, es)
    decreases |es|
  {
    if es == [] {
      assert ParseExts(m, []) == Some(m);
    } else {
      hide Apply, ParseExts, Ext;
      ExtStep(m, es[0].code, es[0].body, Printed(es[1..]));
      match Apply(m, es[0].code, es[0].body)
      case None =>
      case Some(m') => BlockFolds(m', es[1..]);
    }
  }

  /** The first extension of a block that is accepted. */
  lemma BlockFirst(m: Hello, d: seq<byte>) returns (e: Extension, rest: seq<byte>)
    requires d != [] && ParseExts(m, d).Some?
    ensures e.code < 0x10000 && |e.body| < 0x10000 && d == Ext(e.code, e.body) + rest
    ensures Apply(m, e.code, e.body).Some? && ParseExts(m, d) == ParseExts(Apply(m, e.code, e.body).value, rest)
  {
    hide Apply, BigEndian, ToBytes, Power256;
    var n := BigEndian(d[2..4]);
    e, rest := Extension(BigEndian(d[..2]), d[4..4 + n]), d[4 + n..];
    assert Apply(m, e.code, e.body).Some? && ParseExts(m, d) == ParseExts(Apply(m, e.code, e.body).value, rest);
    hide ParseExts;
    ToBytesRoundTrip(d[..2]);
    ToBytesRoundTrip(d[2..4]);
    TwoBytes();
    assert d == d[..2] + d[2..4] + e.body + rest;
  }

  lemma {:induction false} BlockSplits(m: Hello, d: seq<byte>) returns (es: seq<Extension>)
    requires ParseExts(m, d).Some?
    ensures Proper(es) && d == Printed(es)
    decreases |d|
  {
    hide Apply, ParseExts, Ext;
    if d == [] {
      es := [];
    } else {
      var e, rest := BlockFirst(m, d);
      var more := BlockSplits(Apply(m, e.code, e.body).value, rest);
      es := [e] + more;
      assert es[1..] == more;
    }
  }

  /** A block is accepted exactly when it is a list of extensions that are accepted one after the other. */
  lemma BlockIff(m: Hello, d: seq<byte>, r: Hello)
    ensures ParseExts(m, d) == Some(r) <==> exists es :: Proper(es) && d == Printed(es) && Fold(m, es) == Some(r)
  {
    if ParseExts(m, d) == Some(r) {
      var es := BlockSplits(m, d);
      BlockFolds(m, es);
    }
    if es :| Proper(es) && d == Printed(es) && Fold(m, es) == Some(r) { BlockFolds(m, es); }
    hide ParseExts, Fold, Printed;
  }

  // ----- unknown extensions ---------------------------------------------------------------------

  /** Next protocols, server name, certificate status, curves, point formats, signature algorithms, protocols, certificate
      timestamps, ticket, renegotiation data. */
  const Codes: set<nat> := {13172, 0, 5, 10, 11, 13, 16, 18, 35, 0xff01}

  lemma {:induction false} FoldKnown(m: Hello, es: seq<Extension>)
    ensures Fold(m, es) == Fold(m, Among(Codes, es))
    decreases |es|
  {
    if es != [] {
      var e, rest := es[0], es[1..];
      assert e.code !in Codes ==> Apply(m, e.code, e.body) == Some(m) by { hide ReadSni, ReadCurves, ReadPoints, ReadSigAlgs, ReadReneg, ReadAlpn; }
      hide Apply;
      if e.code in Codes {
        assert Among(Codes, es)[0] == e && Among(Codes, es)[1..] == Among(Codes, rest);
        match Apply(m, e.code, e.body)
        case None =>
        case Some(m') => FoldKnown(m', rest);
      } else {
        assert Among(Codes, es) == Among(Codes, rest);
        FoldKnown(m, rest);
      }
    }
  }

  /** The message with another extension block. */
  function WithBlock(m: Hello, es: seq<Extension>): seq<byte> {
    var body := Fixed(m) + Vec(2, Printed(es));
    [1] + ToBytes(|body|, 3) + body
  }

  /** Extensions that the code does not know, anywhere between its own, make no difference. */
  lemma UnknownIgnored(m: Hello, es: seq<Extension>)
    requires WellFormed(m) && Proper(es) && |Printed(es)| < 0x10000 && Among(Codes, es) == Own(m)
    ensures Parse(Zero, WithBlock(m, es)) == Some(m)
  {
    assert Small(m.cipherSuites, 0x10000) && |m.cipherSuites| < 0x8000 && |m.compressionMethods| < 256 && m.vers < 0x10000
           && |m.secureRenegotiation| <= 254 && (!m.secureRenegotiationSupported ==> m.secureRenegotiation == []);
    hide Printed, Among, Fold, ParseExts, Exts, WellFormed, Small, Own;
    OwnPrinted(m);
    AmongProper(Codes, es);
    ExtsRead(m);
    BlockFolds(Bare(m), es);
    BlockFolds(Bare(m), Among(Codes, es));
    FoldKnown(Bare(m), es);
    var d := Vec(2, Printed(es));
    assert Power256(2) == 0x10000;
    VecAlone(2, Printed(es));
    assert ParseTail(Bare(m), d) == ParseExts(Bare(m), d[2..]);
    ParseAround(m, WithBlock(m, es), d);
  }

  lemma ExtsRead(m: Hello)
    requires WellFormed(m)
    ensures ParseExts(Bare(m), Exts(m)) == Some(m)
  {
    hide ParseExts, FirstExts, LastExts, WellFormed, WithFirst, Bare;
    FirstSteps(m, LastExts(m));
    LastSteps(m);
  }

  /** The parts in front of the extensions. */
  lemma ParseAround(m: Hello, x: seq<byte>, tail: seq<byte>)
    requires m.vers < 0x10000 && |m.random| == 32 && |m.sessionId| <= 32
    requires Small(m.cipherSuites, 0x10000) && |m.cipherSuites| < 0x8000 && |m.compressionMethods| < 256
    requires |x| >= 4 && x[4..] == Fixed(m) + tail
    ensures Parse(Zero, x) == ParseTail(Bare(m), tail)
  {
    hide ToBytes, Vec, ParseStart, ParseLists, ParseTail, Words, Small;
    var lists := Vec(2, Words(m.cipherSuites)) + Vec(1, m.compressionMethods) + tail;
    assert Fit32(m.random) == m.random;
    Regroup(ToBytes(m.vers, 2), m.random, Vec(1, m.sessionId), Vec(2, Words(m.cipherSuites)), Vec(1, m.compressionMethods), tail);
    StartRead(m, x, lists);
    ListsRead(m, Zero.(vers := m.vers, random := m.random, sessionId := m.sessionId), tail);
  }

  /** The printer's own extensions. */
  function FirstOwn(m: Hello): seq<Extension> {
    One(m.nextProtoNeg, 13172, []) + One(m.serverName != [], 0, Vec(2, [0] + Vec(2, m.serverName))) + One(m.ocspStapling, 5, [1, 0, 0, 0, 0])
    + One(m.supportedCurves != [], 10, Vec(2, Words(m.supportedCurves))) + One(m.supportedPoints != [], 11, Vec(1, m.supportedPoints))
  }

  function LastOwn(m: Hello): seq<Extension> {
    One(m.ticketSupported, 35, m.sessionTicket) + One(m.signatureAlgorithms != [], 13, Vec(2, Words(m.signatureAlgorithms)))
    + One(m.secureRenegotiationSupported, 0xff01, Vec(1, m.secureRenegotiation))
    + One(m.alpnProtocols != [], 16, Vec(2, Vecs(1, m.alpnProtocols))) + One(m.scts, 18, [])
  }

  function Own(m: Hello): seq<Extension> { FirstOwn(m) + LastOwn(m) }

  lemma PrintedFive(a: seq<Extension>, b: seq<Extension>, c: seq<Extension>, d: seq<Extension>, e: seq<Extension>)
    ensures Printed(a + b + c + d + e) == Printed(a) + Printed(b) + Printed(c) + Printed(d) + Printed(e)
  {
    hide Printed;
    PrintedBoth(a + b + c + d, e);
    PrintedBoth(a + b + c, d);
    PrintedBoth(a + b, c);
    PrintedBoth(a, b);
  }

  lemma OwnPrinted(m: Hello)
    requires |m.secureRenegotiation| <= 254 && (!m.secureRenegotiationSupported ==> m.secureRenegotiation == [])
    ensures Printed(Own(m)) == Exts(m)
  {
    hide Printed, One, Ext, Vec, Vecs, Words, RenegInfo;
    PrintedBoth(FirstOwn(m), LastOwn(m));
    FirstPrinted(m);
    LastPrinted(m);
    hide FirstOwn, LastOwn, FirstExts, LastExts;
  }

  lemma FirstPrinted(m: Hello)
    ensures Printed(FirstOwn(m)) == FirstExts(m)
  {
    hide Printed, One, Ext, Vec, Vecs, Words;
    PrintedOne(m.nextProtoNeg, 13172, []);
    PrintedOne(m.serverName != [], 0, Vec(2, [0] + Vec(2, m.serverName)));
    PrintedOne(m.ocspStapling, 5, [1, 0, 0, 0, 0]);
    PrintedOne(m.supportedCurves != [], 10, Vec(2, Words(m.supportedCurves)));
    PrintedOne(m.supportedPoints != [], 11, Vec(1, m.supportedPoints));
    PrintedFive(One(m.nextProtoNeg, 13172, []), One(m.serverName != [], 0, Vec(2, [0] + Vec(2, m.serverName))), One(m.ocspStapling, 5, [1, 0, 0, 0, 0]),
                One(m.supportedCurves != [], 10, Vec(2, Words(m.supportedCurves))), One(m.supportedPoints != [], 11, Vec(1, m.supportedPoints)));
  }

  lemma LastPrinted(m: Hello)
    requires |m.secureRenegotiation| <= 254 && (!m.secureRenegotiationSupported ==> m.secureRenegotiation == [])
    ensures Printed(LastOwn(m)) == LastExts(m)
  {
    RenegIsExt(m.secureRenegotiation);
    assert !m.secureRenegotiationSupported ==> Reneg(m) == [];
    hide Printed, One, Ext, Vec, Vecs, Words, RenegInfo;
    PrintedOne(m.ticketSupported, 35, m.sessionTicket);
    PrintedOne(m.signatureAlgorithms != [], 13, Vec(2, Words(m.signatureAlgorithms)));
    PrintedOne(m.secureRenegotiationSupported, 0xff01, Vec(1, m.secureRenegotiation));
    PrintedOne(m.alpnProtocols != [], 16, Vec(2, Vecs(1, m.alpnProtocols)));
    PrintedOne(m.scts, 18, []);
    PrintedFive(One(m.ticketSupported, 35, m.sessionTicket), One(m.signatureAlgorithms != [], 13, Vec(2, Words(m.signatureAlgorithms))),
                One(m.secureRenegotiationSupported, 0xff01, Vec(1, m.secureRenegotiation)),
                One(m.alpnProtocols != [], 16, Vec(2, Vecs(1, m.alpnProtocols))), One(m.scts, 18, []));
  }

  // ----- which bodies are accepted --------------------------------------------------------------

  /** An entry of a list of server names. */
  datatype Named = Named(kind: byte, name: seq<byte>)

  function Names(ns: seq<Named>): seq<byte> {
    if ns == [] then [] else [ns[0].kind] + Vec(2, ns[0].name) + Names(ns[1..])
  }

  predicate NoHost(ns: seq<Named>) {
    forall i :: 0 <= i < |ns| ==> ns[i].kind != 0 && |ns[i].name| < 0x10000
  }

  /** Entries of other kinds, and then either nothing or a host name, behind which nothing is looked at. */
  predicate NamesAre(d: seq<byte>, ns: seq<Named>, host: Option<seq<byte>>, rest: seq<byte>) {
    && NoHost(ns)
    && match host
       case None => d == Names(ns)
       case Some(h) => |h| < 0x10000 && d == Names(ns) + ([0] + Vec(2, h) + rest)
  }

  lemma OneName(kind: byte, name: seq<byte>, rest: seq<byte>)
    requires |name| < 0x10000
    ensures ReadNames([kind] + Vec(2, name) + rest) == if kind == 0 then Some(Some(name)) else ReadNames(rest)
  {
    var d := [kind] + Vec(2, name) + rest;
    assert Power256(2) == 0x10000;
    assert d[1..] == Vec(2, name) + rest;
    ReadVec(2, name, rest);
    assert d[1..3] == d[1..][..2] && d[3..3 + |name|] == d[1..][2..2 + |name|] && d[3 + |name|..] == d[1..][2 + |name|..];
    hide Vec, BigEndian;
  }

  lemma {:induction false} NamesRead(ns: seq<Named>, host: Option<seq<byte>>, rest: seq<byte>, d: seq<byte>)
    requires NamesAre(d, ns, host, rest)
    ensures ReadNames(d) == Some(host)
    decreases |ns|
  {
    hide ReadNames, Vec;
    if ns == [] {
      if host.Some? {
        OneName(0, host.value, rest);
        assert d == [0] + Vec(2, host.value) + rest;
      } else {
        assert ReadNames([]) == Some(None) by { NoNames(); }
      }
    } else {
      var tail := Names(ns[1..]) + if host.Some? then [0] + Vec(2, host.value) + rest else [];
      assert d == [ns[0].kind] + Vec(2, ns[0].name) + tail;
      OneName(ns[0].kind, ns[0].name, tail);
      assert host.None? ==> tail == Names(ns[1..]);
      NamesRead(ns[1..], host, rest, tail);
    }
  }

  lemma NoNames()
    ensures ReadNames([]) == Some(None)
  {
  }

  lemma {:induction false} NamesFound(d: seq<byte>) returns (ns: seq<Named>, rest: seq<byte>)
    requires ReadNames(d).Some?
    ensures NamesAre(d, ns, ReadNames(d).value, rest)
    decreases |d|
  {
    if d == [] {
      ns, rest := [], [];
    } else {
      var n := BigEndian(d[1..3]);
      var name := d[3..3 + n];
      ToBytesRoundTrip(d[1..3]);
      assert Power256(2) == 0x10000;
      assert d == [d[0]] + (d[1..3] + name) + d[3 + n..];
      assert Vec(2, name) == d[1..3] + name;
      hide ToBytes, BigEndian, Vec;
      if d[0] == 0 {
        ns, rest := [], d[3 + n..];
        assert Names(ns) == [];
        assert [] + ([0] + Vec(2, name) + rest) == [0] + Vec(2, name) + rest;
      } else {
        var more;
        assert ReadNames(d) == ReadNames(d[3 + n..]);
        more, rest := NamesFound(d[3 + n..]);
        ns := [Named(d[0], name)] + more;
        assert ns[1..] == more;
        NamesBehind(d[0], name, more, ReadNames(d).value, rest, d[3 + n..]);
      }
    }
  }

  lemma NamesBehind(kind: byte, name: seq<byte>, more: seq<Named>, host: Option<seq<byte>>, rest: seq<byte>, d: seq<byte>)
    requires NamesAre(d, more, host, rest) && kind != 0 && |name| < 0x10000
    ensures NamesAre([kind] + Vec(2, name) + d, [Named(kind, name)] + more, host, rest)
  {
    var ns := [Named(kind, name)] + more;
    assert ns[1..] == more;
    hide Vec;
  }

  ghost predicate SniBody(d: seq<byte>, host: Option<seq<byte>>) {
    exists e, ns, rest :: d == Vec(2, e) && |e| < 0x10000 && NamesAre(e, ns, host, rest)
  }

  ghost predicate SniMeans(m: Hello, d: seq<byte>, r: Hello) {
    exists host :: SniBody(d, host) && r == if host.None? then m else m.(serverName := host.value)
  }

  /** A second list of protocols goes behind the first. */
  ghost predicate ProtosMean(m: Hello, d: seq<byte>, r: Hello) {
    exists ss :: ProtosBodyIs(d, ss) && r == m.(alpnProtocols := m.alpnProtocols + ss)
  }

  /** What an extension says, told from what the printer writes: `r` is `m` after the extension `code` with the body `d`. */
  ghost predicate Means(m: Hello, code: nat, d: seq<byte>, r: Hello) {
    if code == 0 then SniMeans(m, d, r)
    else if code == 13172 then d == [] && r == m.(nextProtoNeg := true)
    else if code == 5 then r == m.(ocspStapling := [1] <= d)
    else if code == 10 then WordsBodyIs(d, r.supportedCurves) && r == m.(supportedCurves := r.supportedCurves)
    else if code == 11 then VecBodyIs(d, r.supportedPoints) && r == m.(supportedPoints := r.supportedPoints)
    else if code == 35 then r == m.(ticketSupported := true, sessionTicket := d)
    else if code == 13 then WordsBodyIs(d, r.signatureAlgorithms) && r == m.(signatureAlgorithms := r.signatureAlgorithms)
    else if code == 0xff01 then VecBodyIs(d, r.secureRenegotiation) && r == m.(secureRenegotiation := r.secureRenegotiation, secureRenegotiationSupported := true)
    else if code == 16 then ProtosMean(m, d, r)
    else if code == 18 then d == [] && r == m.(scts := true)
    else r == m
  }

  lemma SniIff(m: Hello, d: seq<byte>, r: Hello)
    ensures ReadSni(m, d) == Some(r) <==> Means(m, 0, d, r)
  {
    hide ReadNames, BigEndian, Vec, NamesAre, Power256;
    assert Power256(2) == 0x10000 by { TwoBytes(); }
    if ReadSni(m, d).Some? {
      VecIff(2, d, d[2..]);
      var ns, rest := NamesFound(d[2..]);
      assert SniBody(d, ReadNames(d[2..]).value);
    }
    forall host | SniBody(d, host) ensures |d| >= 2 && BigEndian(d[..2]) == |d| - 2 && ReadNames(d[2..]) == Some(host) {
      var e, ns, rest :| d == Vec(2, e) && |e| < 0x10000 && NamesAre(e, ns, host, rest);
      VecIff(2, d, e);
      NamesRead(ns, host, rest, e);
    }
    hide SniBody;
  }

  lemma CurvesIff(m: Hello, d: seq<byte>, r: Hello)
    ensures ReadCurves(m, d) == Some(r) <==> Means(m, 10, d, r)
  {
    hide BigEndian, WordsBodyIs, ReadWords;
    if |d| >= 2 && |d| % 2 == 0 { WordsIff(d, ReadWords(d[2..])); }
    WordsIff(d, r.supportedCurves);
  }

  lemma SigAlgsIff(m: Hello, d: seq<byte>, r: Hello)
    ensures ReadSigAlgs(m, d) == Some(r) <==> Means(m, 13, d, r)
  {
    hide BigEndian, WordsBodyIs, ReadWords;
    if |d| >= 2 && |d| % 2 == 0 { WordsIff(d, ReadWords(d[2..])); }
    WordsIff(d, r.signatureAlgorithms);
  }

  lemma PointsIff(m: Hello, d: seq<byte>, r: Hello)
    ensures ReadPoints(m, d) == Some(r) <==> Means(m, 11, d, r)
  {
    ShortIff(d, r.supportedPoints);
    if d != [] { ShortIff(d, d[1..]); }
    hide VecBodyIs;
  }

  lemma RenegIff(m: Hello, d: seq<byte>, r: Hello)
    ensures ReadReneg(m, d) == Some(r) <==> Means(m, 0xff01, d, r)
  {
    ShortIff(d, r.secureRenegotiation);
    if d != [] { ShortIff(d, d[1..]); }
    hide VecBodyIs;
  }

  lemma AlpnIff(m: Hello, d: seq<byte>, r: Hello)
    ensures ReadAlpn(m, d) == Some(r) <==> Means(m, 16, d, r)
  {
    hide BigEndian, ReadVecs, ProtosBodyIs;
    forall ss ensures |d| >= 2 && BigEndian(d[..2]) == |d| - 2 && ReadVecs(1, 1, false, d[2..]) == Some(ss) <==> ProtosBodyIs(d, ss) {
      ProtosIff(d, ss);
    }
  }

  /** Every body: accepted exactly when it is well formed, and then with this meaning. */
  lemma ApplyIff(m: Hello, code: nat, d: seq<byte>, r: Hello)
    ensures Apply(m, code, d) == Some(r) <==> Means(m, code, d, r)
  {
    hide ReadSni, ReadCurves, ReadPoints, ReadSigAlgs, ReadReneg, ReadAlpn, SniMeans, WordsBodyIs, VecBodyIs, ProtosMean;
    if code == 0 { SniIff(m, d, r); }
    else if code == 10 { CurvesIff(m, d, r); }
    else if code == 13 { SigAlgsIff(m, d, r); }
    else if code == 11 { PointsIff(m, d, r); }
    else if code == 0xff01 { RenegIff(m, d, r); }
    else if code == 16 { AlpnIff(m, d, r); }
  }

  // ----- which messages are accepted ------------------------------------------------------------

  /** The four bytes in front are not looked at; the rest is what the printer writes for `r`, with `es` in place of its extensions, or
      without an extension block. */
  ghost predicate Accepts(data: seq<byte>, r: Hello, es: seq<Extension>, block: bool) {
    && r.vers < 0x10000 && |r.random| == 32 && |r.sessionId| <= 32
    && Small(r.cipherSuites, 0x10000) && |r.cipherSuites| < 0x8000 && |r.compressionMethods| < 256
    && Proper(es) && |Printed(es)| < 0x10000 && (!block ==> es == [])
    && |data| >= 4 && data[4..] == Fixed(r) + (if block then Vec(2, Printed(es)) else [])
    && Fold(Bare(r), es) == Some(r)
  }

  lemma TailFound(m: Hello, d: seq<byte>) returns (es: seq<Extension>, block: bool)
    requires ParseTail(m, d).Some?
    ensures Proper(es) && |Printed(es)| < 0x10000 && (!block ==> es == []) && d == (if block then Vec(2, Printed(es)) else [])
    ensures ParseTail(m, d) == Fold(m, es)
  {
    hide ParseExts, Printed, Vec, BigEndian, Power256;
    if d == [] {
      es, block := [], false;
      assert Printed([]) == [] by { NonePrinted(); }
    } else {
      es := BlockSplits(m, d[2..]);
      BlockFolds(m, es);
      block := true;
      TwoBytes();
      VecIff(2, d, Printed(es));
    }
  }

  lemma TailIs(m: Hello, es: seq<Extension>, block: bool)
    requires Proper(es) && |Printed(es)| < 0x10000 && (!block ==> es == [])
    ensures ParseTail(m, if block then Vec(2, Printed(es)) else []) == Fold(m, es)
  {
    hide ParseExts, Printed, Vec, BigEndian, Power256;
    if block {
      TwoBytes();
      VecIff(2, Vec(2, Printed(es)), Printed(es));
      BlockFolds(m, es);
    }
  }

  lemma StartFound(d: seq<byte>)
    requires ParseStart(Zero, d).Some?
    ensures var (a, rest) := ParseStart(Zero, d).value;
            && a == Zero.(vers := a.vers, random := a.random, sessionId := a.sessionId)
            && a.vers < 0x10000 && |a.random| == 32 && |a.sessionId| <= 32 && d[4..] == ToBytes(a.vers, 2) + a.random + Vec(1, a.sessionId) + rest
  {
    ToBytesRoundTrip(d[4..6]);
    TwoBytes();
    var n := d[38] as nat;
    ShortVec(d[39..39 + n]);
    hide ToBytes, BigEndian, Vec, Power256;
    assert d[4..] == d[4..6] + d[6..38] + ([d[38]] + d[39..39 + n]) + d[39 + n..];
  }

  /** The bytes of the two lists. */
  lemma ListBytes(d: seq<byte>, n: nat, k: nat)
    requires |d| >= 2 && n == BigEndian(d[..2]) && n % 2 == 0 && |d| >= 2 + n + 1 + k && k == d[2 + n] as nat
    ensures var vs, c := ReadWords(d[2..2 + n]), d[3 + n..3 + n + k];
            && Small(vs, 0x10000) && |vs| < 0x8000 && k < 256
            && d == Vec(2, Words(vs)) + Vec(1, c) + d[3 + n + k..]
  {
    hide ToBytes, BigEndian, Vec, Power256, Words, ReadWords;
    ToBytesRoundTrip(d[..2]);
    TwoBytes();
    WordsAll(d[2..2 + n]);
    ShortVec(d[3 + n..3 + n + k]);
    assert d[..2 + n][..2] == d[..2] && d[..2 + n][2..] == d[2..2 + n];
    VecIff(2, d[..2 + n], d[2..2 + n]);
    ThreeCuts(d, 2 + n, 3 + n + k);
  }

  lemma ListsFound(a: Hello, d: seq<byte>)
    requires ParseLists(a, d).Some? && a == Zero.(vers := a.vers, random := a.random, sessionId := a.sessionId)
    ensures var (b, rest) := ParseLists(a, d).value;
            && b == Bare(b) && b.vers == a.vers && b.random == a.random && b.sessionId == a.sessionId
            && Small(b.cipherSuites, 0x10000) && |b.cipherSuites| < 0x8000 && |b.compressionMethods| < 256
            && d == Vec(2, Words(b.cipherSuites)) + Vec(1, b.compressionMethods) + rest
  {
    hide ToBytes, BigEndian, Vec, Words, ReadWords, Small;
    var n := BigEndian(d[..2]);
    var tail := d[2 + n..];
    assert tail != [] && n % 2 == 0;
    var k := tail[0] as nat;
    assert tail[1..1 + k] == d[3 + n..3 + n + k] && tail[1 + k..] == d[3 + n + k..];
    ListBytes(d, n, k);
    ListsFields(a, d, n, k);
    hide ParseLists;
  }

  lemma ListsFields(a: Hello, d: seq<byte>, n: nat, k: nat)
    requires |d| >= 2 && n == BigEndian(d[..2]) && n % 2 == 0 && |d| >= 2 + n + 1 + k && k == d[2 + n] as nat
    requires a == Zero.(vers := a.vers, random := a.random, sessionId := a.sessionId)
    ensures var vs, c := ReadWords(d[2..2 + n]), d[3 + n..3 + n + k];
            ParseLists(a, d) == Some((Bare(a.(cipherSuites := vs, compressionMethods := c)), d[3 + n + k..]))
  {
    hide BigEndian, ReadWords;
    var tail := d[2 + n..];
    assert tail[0] == d[2 + n] && tail[1..1 + k] == d[3 + n..3 + n + k] && tail[1 + k..] == d[3 + n + k..];
  }

  /** The parts outside the extensions stay as they were. */
  lemma {:induction false} FoldKeeps(m: Hello, es: seq<Extension>)
    requires Fold(m, es).Some?
    ensures Bare(Fold(m, es).value) == Bare(m)
    decreases |es|
  {
    if es != [] {
      var e := es[0];
      ApplyKeeps(m, e.code, e.body);
      hide Apply;
      FoldKeeps(Apply(m, e.code, e.body).value, es[1..]);
    }
  }

  lemma ApplyKeeps(m: Hello, code: nat, d: seq<byte>)
    requires Apply(m, code, d).Some?
    ensures Bare(Apply(m, code, d).value) == Bare(m)
  {
    var r := Apply(m, code, d).value;
    hide Apply, Means, Bare, SameBase;
    ApplyIff(m, code, d, r);
    MeansKeeps(m, code, d, r);
    BareSame(m, r);
  }

  lemma MeansKeeps(m: Hello, code: nat, d: seq<byte>, r: Hello)
    requires Means(m, code, d, r)
    ensures SameBase(m, r)
  {
    hide SniMeans, WordsBodyIs, VecBodyIs, ProtosMean;
    if code == 0 { SniKeeps(m, d, r); }
    if code == 16 { ProtosKeep(m, d, r); }
  }

  lemma SniKeeps(m: Hello, d: seq<byte>, r: Hello)
    requires SniMeans(m, d, r)
    ensures SameBase(m, r)
  {
    hide SniBody;
  }

  lemma ProtosKeep(m: Hello, d: seq<byte>, r: Hello)
    requires ProtosMean(m, d, r)
    ensures SameBase(m, r)
  {
    hide ProtosBodyIs;
  }

  lemma BareSame(m: Hello, r: Hello)
    requires SameBase(m, r)
    ensures Bare(r) == Bare(m)
  {
  }

  predicate SameBase(m: Hello, r: Hello) {
    r.vers == m.vers && r.random == m.random && r.sessionId == m.sessionId && r.cipherSuites == m.cipherSuites && r.compressionMethods == m.compressionMethods
  }

  lemma Found(data: seq<byte>) returns (es: seq<Extension>, block: bool)
    requires Parse(Zero, data).Some?
    ensures Accepts(data, Parse(Zero, data).value, es, block)
  {
    hide ParseStart, ParseLists, ParseTail, ToBytes, Vec, Words, Fold, Proper, Printed;
    StartFound(data);
    var (a, d1) := ParseStart(Zero, data).value;
    ListsFound(a, d1);
    var (b, d2) := ParseLists(a, d1).value;
    es, block := TailFound(b, d2);
    FoldKeeps(b, es);
    var r := Fold(b, es).value;
    hide Bare, Small;
    StartLength(data);
    AroundIs(data, r, d1, d2, a, b);
  }

  lemma StartLength(data: seq<byte>)
    requires ParseStart(Zero, data).Some?
    ensures |data| >= 4
  {
  }

  lemma AroundIs(data: seq<byte>, r: Hello, d1: seq<byte>, d2: seq<byte>, a: Hello, b: Hello)
    requires |data| >= 4 && |a.random| == 32 && data[4..] == ToBytes(a.vers, 2) + a.random + Vec(1, a.sessionId) + d1
    requires d1 == Vec(2, Words(b.cipherSuites)) + Vec(1, b.compressionMethods) + d2
    requires b.vers == a.vers && b.random == a.random && b.sessionId == a.sessionId && Bare(r) == Bare(b)
    ensures data[4..] == Fixed(r) + d2
    ensures r.vers == b.vers && r.random == b.random && r.sessionId == b.sessionId && r.cipherSuites == b.cipherSuites && r.compressionMethods == b.compressionMethods
  {
    hide ToBytes, Vec, Words;
    assert Fit32(r.random) == r.random;
    Regroup(ToBytes(r.vers, 2), r.random, Vec(1, r.sessionId), Vec(2, Words(r.cipherSuites)), Vec(1, r.compressionMethods), d2);
  }

  /** A new message takes exactly these byte strings, and no message twice: what it holds afterwards, printed around the extensions
      that came, is what was read. */
  lemma ParseIff(data: seq<byte>, r: Hello)
    ensures Parse(Zero, data) == Some(r) <==> exists es, block :: Accepts(data, r, es, block)
  {
    if Parse(Zero, data) == Some(r) { var es, block := Found(data); }
    forall es, block | Accepts(data, r, es, block) ensures Parse(Zero, data) == Some(r) {
      var tail := if block then Vec(2, Printed(es)) else [];
      hide Parse, Fixed, Printed, Vec, ParseTail, Fold, Small;
      ParseAround(r, data, tail);
      TailIs(Bare(r), es, block);
    }
    hide Accepts, Parse;
  }

  /** A printed message begins with its type and its length. */
  lemma TypeAndLength(m: Hello)
    requires |Body(m)| < 0x100_0000
    ensures var x := Marshalled(m); x[0] == 1 && BigEndian(x[1..4]) == |x| - 4
  {
    var x, l := Marshalled(m), ToBytes(|Body(m)|, 3);
    assert Power256(3) == 0x100_0000;
    hide Body, ToBytes, BigEndian;
    BigEndianRoundTrip(|Body(m)|, 3);
    assert x[1..4] == l;
  }
}
