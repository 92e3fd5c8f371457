/**
 Which byte strings ServerHello accepts, in the manner of ClientExtensions.
 */
module ServerExtensions {
  import opened Bytes
  import opened Prelude
  import opened Wire
  import opened Extensions
  import opened ServerHello

  /** The extensions one after the other. */
  function Fold(m: Hello, es: seq<Extension>): Option<Hello>
    decreases |es|
  {
    if es == [] then Some(m)
    else match Apply(m, es[0].code, es[0].body)
      case None => None
      case Some(m') => Fold(m', es[1..])
  }

  lemma {:induction false} BlockFolds(m: Hello, es: seq<Extension>)
    requires Proper(es)
    ensures ParseExts(m, Printed(es)) == Fold(m, es)
    decreases |es|
  {
    if es == [] {
      assert ParseExts(m, []) == Some(m);
    } else {
      hide Apply, ParseExts, Ext;
      ExtStep(m, es[0].code, es[0].body, Printed(es[1..]));
      match Apply(m, es[0].code, es[0].body)
      case None =>
      case Some(m') => BlockFolds(m', es[1..]);
    }
  }

  /** The first extension of a block that is accepted. */
  lemma BlockFirst(m: Hello, d: seq<byte>) returns (e: Extension, rest: seq<byte>)
    requires d != [] && ParseExts(m, d).Some?
    ensures e.code < 0x10000 && |e.body| < 0x10000 && d == Ext(e.code, e.body) + rest
    ensures Apply(m, e.code, e.body).Some? && ParseExts(m, d) == ParseExts(Apply(m, e.code, e.body).value, rest)
  {
    hide Apply, BigEndian, ToBytes, Power256;
    var n := BigEndian(d[2..4]);
    e, rest := Extension(BigEndian(d[..2]), d[4..4 + n]), d[4 + n..];
    assert Apply(m, e.code, e.body).Some? && ParseExts(m, d) == ParseExts(Apply(m, e.code, e.body).value, rest);
    hide ParseExts;
    ToBytesRoundTrip(d[..2]);
    ToBytesRoundTrip(d[2..4]);
    TwoBytes();
    assert d == d[..2] + d[2..4] + e.body + rest;
  }

  lemma {:induction false} BlockSplits(m: Hello, d: seq<byte>) returns (es: seq<Extension>)
    requires ParseExts(m, d).Some?
    ensures Proper(es) && d == Printed(es)
    decreases |d|
  {
    hide Apply, ParseExts, Ext;
    if d == [] {
      es := [];
    } else {
      var e, rest := BlockFirst(m, d);
      var more := BlockSplits(Apply(m, e.code, e.body).value, rest);
      es := [e] + more;
      assert es[1..] == more;
    }
  }

  // ----- unknown extensions ---------------------------------------------------------------------

  /** Next protocols, certificate status, protocol, certificate timestamps, ticket, renegotiation data. */
  const Codes: set<nat> := {13172, 5, 16, 18, 35, 0xff01}

  lemma {:induction false} FoldKnown(m: Hello, es: seq<Extension>)
    ensures Fold(m, es) == Fold(m, Among(Codes, es))
    decreases |es|
  {
    if es != [] {
      var e, rest := es[0], es[1..];
      assert e.code !in Codes ==> Apply(m, e.code, e.body) == Some(m) by { hide ReadNpn, ReadReneg, ReadAlpn, ReadSct; }
      hide Apply;
      if e.code in Codes {
        assert Among(Codes, es)[0] == e && Among(Codes, es)[1..] == Among(Codes, rest);
        match Apply(m, e.code, e.body)
        case None =>
        case Some(m') => FoldKnown(m', rest);
      } else {
        assert Among(Codes, es) == Among(Codes, rest);
        FoldKnown(m, rest);
      }
    }
  }

  /** The printer's own extensions. */
  function Own(m: Hello): seq<Extension> {
    One(m.nextProtoNeg, 13172, Vecs(1, m.nextProtos)) + One(m.ocspStapling, 5, []) + One(m.ticketSupported, 35, [])
    + One(m.secureRenegotiationSupported, 0xff01, Vec(1, m.secureRenegotiation))
    + One(m.alpnProtocol != [], 16, Vec(2, Vec(1, m.alpnProtocol))) + One(m.scts != [], 18, Vec(2, Vecs(2, m.scts)))
  }

  lemma PrintedSix(a: seq<Extension>, b: seq<Extension>, c: seq<Extension>, d: seq<Extension>, e: seq<Extension>, f: seq<Extension>)
    ensures Printed(a + b + c + d + e + f) == Printed(a) + Printed(b) + Printed(c) + Printed(d) + Printed(e) + Printed(f)
  {
    hide Printed;
    PrintedBoth(a + b + c + d + e, f);
    PrintedBoth(a + b + c + d, e);
    PrintedBoth(a + b + c, d);
    PrintedBoth(a + b, c);
    PrintedBoth(a, b);
  }

  lemma NpnIsExt(m: Hello)
    requires forall i :: 0 <= i < |m.nextProtos| ==> 1 <= |m.nextProtos[i]| <= 255
    ensures m.nextProtoNeg ==> Npn(m) == Ext(13172, Vecs(1, m.nextProtos))
  {
    assert Cut(m.nextProtos) == m.nextProtos;
    hide ToBytes, Vecs;
  }

  lemma OwnPrinted(m: Hello)
    requires WellFormed(m)
    ensures Printed(Own(m)) == Exts(m)
  {
    RenegIsExt(m.secureRenegotiation);
    NpnIsExt(m);
    assert (!m.secureRenegotiationSupported ==> Reneg(m) == []) && (!m.nextProtoNeg ==> Npn(m) == []);
    hide Printed, One, Ext, Vec, Vecs, RenegInfo, Npn;
    PrintedOne(m.nextProtoNeg, 13172, Vecs(1, m.nextProtos));
    PrintedOne(m.ocspStapling, 5, []);
    PrintedOne(m.ticketSupported, 35, []);
    PrintedOne(m.secureRenegotiationSupported, 0xff01, Vec(1, m.secureRenegotiation));
    PrintedOne(m.alpnProtocol != [], 16, Vec(2, Vec(1, m.alpnProtocol)));
    PrintedOne(m.scts != [], 18, Vec(2, Vecs(2, m.scts)));
    PrintedSix(One(m.nextProtoNeg, 13172, Vecs(1, m.nextProtos)), One(m.ocspStapling, 5, []), One(m.ticketSupported, 35, []),
               One(m.secureRenegotiationSupported, 0xff01, Vec(1, m.secureRenegotiation)),
               One(m.alpnProtocol != [], 16, Vec(2, Vec(1, m.alpnProtocol))), One(m.scts != [], 18, Vec(2, Vecs(2, m.scts))));
  }

  /** The message with another extension block. */
  function WithBlock(m: Hello, es: seq<Extension>): seq<byte> {
    var body := Fixed(m) + Vec(2, Printed(es));
    [2] + ToBytes(|body|, 3) + body
  }

  /** Extensions that the code does not know, anywhere between its own, make no difference. */
  lemma UnknownIgnored(m: Hello, es: seq<Extension>)
    requires WellFormed(m) && Proper(es) && |Printed(es)| < 0x10000 && Among(Codes, es) == Own(m)
    ensures Parse(Zero, WithBlock(m, es)) == Some(m)
  {
    assert m.vers < 0x10000 && |m.random| == 32 && |m.sessionId| <= 32 && m.cipherSuite < 0x10000;
    hide Printed, Among, Fold, ParseExts, Exts, WellFormed, Own;
    OwnPrinted(m);
    AmongProper(Codes, es);
    ExtsRead(m);
    BlockFolds(Bare(m), es);
    BlockFolds(Bare(m), Among(Codes, es));
    FoldKnown(Bare(m), es);
    TailIs(Bare(m), es, true);
    ParseAround(m, WithBlock(m, es), Vec(2, Printed(es)));
  }

  /** The parts in front of the extensions. */
  lemma ParseAround(m: Hello, x: seq<byte>, tail: seq<byte>)
    requires m.vers < 0x10000 && |m.random| == 32 && |m.sessionId| <= 32 && m.cipherSuite < 0x10000
    requires |x| >= 4 && x[4..] == Fixed(m) + tail
    ensures Parse(Zero, x) == ParseTail(Bare(m), tail)
  {
    hide ToBytes, Vec, ParseStart, ParseTail;
    assert Fit32(m.random) == m.random;
    StartRead(m, x, tail);
  }

  // ----- which bodies are accepted --------------------------------------------------------------

  /** The list of the server's protocols; a second one goes behind the first. */
  ghost predicate NpnMeans(m: Hello, d: seq<byte>, r: Hello) {
    exists ss :: NamesBodyIs(d, ss) && r == m.(nextProtoNeg := true, nextProtos := m.nextProtos + ss)
  }

  predicate NamesBodyIs(d: seq<byte>, ss: seq<seq<byte>>) {
    d == Vecs(1, ss) && forall i :: 0 <= i < |ss| ==> 1 <= |ss[i]| < 256
  }

  predicate ProtoBodyIs(d: seq<byte>, s: seq<byte>) {
    s != [] && |s| < 256 && d == Vec(2, Vec(1, s))
  }

  predicate TimestampsBodyIs(d: seq<byte>, ss: seq<seq<byte>>) {
    |Vecs(2, ss)| < 0x10000 && ss != [] && d == Vec(2, Vecs(2, ss)) && forall i :: 0 <= i < |ss| ==> 1 <= |ss[i]|
  }

  /** What an extension says, told from what the printer writes: `r` is `m` after the extension `code` with the body `d`. */
  ghost predicate Means(m: Hello, code: nat, d: seq<byte>, r: Hello) {
    if code == 13172 then NpnMeans(m, d, r)
    else if code == 5 then d == [] && r == m.(ocspStapling := true)
    else if code == 35 then d == [] && r == m.(ticketSupported := true)
    else if code == 0xff01 then VecBodyIs(d, r.secureRenegotiation) && r == m.(secureRenegotiation := r.secureRenegotiation, secureRenegotiationSupported := true)
    else if code == 16 then ProtoBodyIs(d, r.alpnProtocol) && r == m.(alpnProtocol := r.alpnProtocol)
    else if code == 18 then TimestampsBodyIs(d, r.scts) && r == m.(scts := r.scts)
    else r == m
  }

  lemma NpnIff(m: Hello, d: seq<byte>, r: Hello)
    ensures ReadNpn(m, d) == Some(r) <==> Means(m, 13172, d, r)
  {
    hide ReadVecs, Vecs, Power256;
    TwoBytes();
    forall ss ensures ReadVecs(1, 1, false, d) == Some(ss) <==> NamesBodyIs(d, ss) { VecsIff(1, 1, false, d, ss); }
    hide NamesBodyIs;
  }

  lemma RenegIff(m: Hello, d: seq<byte>, r: Hello)
    ensures ReadReneg(m, d) == Some(r) <==> Means(m, 0xff01, d, r)
  {
    ShortIff(d, r.secureRenegotiation);
    if d != [] { ShortIff(d, d[1..]); }
    hide VecBodyIs;
  }

  lemma ProtoIff(d: seq<byte>, s: seq<byte>)
    ensures |d| > 3 && BigEndian(d[..2]) == |d| - 2 && d[2] as int == |d| - 3 && d[3..] == s <==> ProtoBodyIs(d, s)
  {
    hide BigEndian, Vec, Power256;
    TwoBytes();
    VecIff(2, d, Vec(1, s));
    if |d| >= 2 {
      ShortIff(d[2..], s);
      assert |d| > 2 ==> d[2..][0] == d[2] && d[2..][1..] == d[3..];
    }
  }

  lemma AlpnIff(m: Hello, d: seq<byte>, r: Hello)
    ensures ReadAlpn(m, d) == Some(r) <==> Means(m, 16, d, r)
  {
    hide BigEndian, ProtoBodyIs;
    ProtoIff(d, r.alpnProtocol);
    if |d| > 3 { ProtoIff(d, d[3..]); }
  }

  lemma TimestampsIff(d: seq<byte>, ss: seq<seq<byte>>)
    ensures |d| >= 2 && |d| - 2 == BigEndian(d[..2]) && BigEndian(d[..2]) != 0 && ReadVecs(2, 2, false, d[2..]) == Some(ss) <==> TimestampsBodyIs(d, ss)
  {
    assert ss == [] <==> Vecs(2, ss) == [];
    hide BigEndian, Vec, Vecs, ReadVecs, Power256;
    TwoBytes();
    VecIff(2, d, Vecs(2, ss));
    if |d| >= 2 { VecsIff(2, 2, false, d[2..], ss); }
    MembersFit(2, ss);
  }

  lemma {:induction false} MembersFit(k: nat, ss: seq<seq<byte>>)
    ensures forall i :: 0 <= i < |ss| ==> |ss[i]| <= |Vecs(k, ss)|
  {
    if ss != [] {
      MembersFit(k, ss[1..]);
      assert forall i :: 0 < i < |ss| ==> ss[i] == ss[1..][i - 1];
    }
  }

  lemma SctIff(m: Hello, d: seq<byte>, r: Hello)
    ensures ReadSct(m, d) == Some(r) <==> Means(m, 18, d, r)
  {
    hide BigEndian, ReadVecs, TimestampsBodyIs;
    TimestampsIff(d, r.scts);
    if |d| >= 2 && ReadVecs(2, 2, false, d[2..]).Some? { TimestampsIff(d, ReadVecs(2, 2, false, d[2..]).value); }
  }

  /** Every body: accepted exactly when it is well formed, and then with this meaning. */
  lemma ApplyIff(m: Hello, code: nat, d: seq<byte>, r: Hello)
    ensures Apply(m, code, d) == Some(r) <==> Means(m, code, d, r)
  {
    hide ReadNpn, ReadReneg, ReadAlpn, ReadSct, NpnMeans, VecBodyIs, ProtoBodyIs, TimestampsBodyIs;
    if code == 13172 { NpnIff(m, d, r); }
    else if code == 0xff01 { RenegIff(m, d, r); }
    else if code == 16 { AlpnIff(m, d, r); }
    else if code == 18 { SctIff(m, d, r); }
  }

  // ----- which messages are accepted ------------------------------------------------------------

  /** The four bytes in front are not looked at; the rest is what the printer writes for `r`, with `es` in place of its extensions, or
      without an extension block. */
  ghost predicate Accepts(data: seq<byte>, r: Hello, es: seq<Extension>, block: bool) {
    && r.vers < 0x10000 && |r.random| == 32 && |r.sessionId| <= 32 && r.cipherSuite < 0x10000
    && Proper(es) && |Printed(es)| < 0x10000 && (!block ==> es == [])
    && |data| >= 4 && data[4..] == Fixed(r) + (if block then Vec(2, Printed(es)) else [])
    && Fold(Bare(r), es) == Some(r)
  }

  lemma TailFound(m: Hello, d: seq<byte>) returns (es: seq<Extension>, block: bool)
    requires ParseTail(m, d).Some?
    ensures Proper(es) && |Printed(es)| < 0x10000 && (!block ==> es == []) && d == (if block then Vec(2, Printed(es)) else [])
    ensures ParseTail(m, d) == Fold(m, es)
  {
    hide ParseExts, Printed, Vec, BigEndian, Power256;
    if d == [] {
      es, block := [], false;
      assert Printed([]) == [] by { NonePrinted(); }
    } else {
      es := BlockSplits(m, d[2..]);
      BlockFolds(m, es);
      block := true;
      TwoBytes();
      VecIff(2, d, Printed(es));
    }
  }

  lemma TailIs(m: Hello, es: seq<Extension>, block: bool)
    requires Proper(es) && |Printed(es)| < 0x10000 && (!block ==> es == [])
    ensures ParseTail(m, if block then Vec(2, Printed(es)) else []) == Fold(m, es)
  {
    hide ParseExts, Printed, Vec, BigEndian, Power256;
    if block {
      TwoBytes();
      VecIff(2, Vec(2, Printed(es)), Printed(es));
      BlockFolds(m, es);
    }
  }

  lemma StartBytes(d: seq<byte>, n: nat)
    requires |d| >= 42 && n == d[38] as nat && n <= 32 && |d| >= 39 + n + 3
    ensures var rest := d[39 + n..];
            && BigEndian(d[4..6]) < 0x10000 && BigEndian(rest[..2]) < 0x10000
            && d[4..] == ToBytes(BigEndian(d[4..6]), 2) + d[6..38] + Vec(1, d[39..39 + n]) + ToBytes(BigEndian(rest[..2]), 2) + [rest[2]] + rest[3..]
  {
    hide ToBytes, BigEndian, Vec, Power256;
    var rest := d[39 + n..];
    ToBytesRoundTrip(d[4..6]);
    ToBytesRoundTrip(rest[..2]);
    TwoBytes();
    ShortVec(d[39..39 + n]);
    assert rest == rest[..2] + [rest[2]] + rest[3..];
    assert d[4..] == d[4..6] + d[6..38] + ([d[38]] + d[39..39 + n]) + rest;
  }

  lemma StartFound(d: seq<byte>)
    requires ParseStart(Zero, d).Some?
    ensures var (a, rest) := ParseStart(Zero, d).value;
            && a == Bare(a) && a.vers < 0x10000 && |a.random| == 32 && |a.sessionId| <= 32 && a.cipherSuite < 0x10000
            && |d| >= 4 && d[4..] == Fixed(a) + rest
  {
    var n := d[38] as nat;
    StartBytes(d, n);
    var (a, rest) := ParseStart(Zero, d).value;
    assert Fit32(a.random) == a.random;
    hide ToBytes, BigEndian, Vec;
  }

  /** The parts outside the extensions stay as they were. */
  lemma {:induction false} FoldKeeps(m: Hello, es: seq<Extension>)
    requires Fold(m, es).Some?
    ensures SameBase(m, Fold(m, es).value)
    decreases |es|
  {
    if es != [] {
      var e := es[0];
      var m' := Apply(m, e.code, e.body).value;
      ApplyIff(m, e.code, e.body, m');
      MeansKeeps(m, e.code, e.body, m');
      hide Apply, Means;
      FoldKeeps(m', es[1..]);
    }
  }

  predicate SameBase(m: Hello, r: Hello) {
    && r.vers == m.vers && r.random == m.random && r.sessionId == m.sessionId && r.cipherSuite == m.cipherSuite
    && r.compressionMethod == m.compressionMethod
  }

  lemma MeansKeeps(m: Hello, code: nat, d: seq<byte>, r: Hello)
    requires Means(m, code, d, r)
    ensures SameBase(m, r)
  {
    hide NamesBodyIs, VecBodyIs, ProtoBodyIs, TimestampsBodyIs;
  }

  lemma BaseSame(m: Hello, r: Hello)
    requires SameBase(m, r)
    ensures Bare(r) == Bare(m) && Fixed(r) == Fixed(m)
  {
    hide Fit32, ToBytes, Vec;
  }

  lemma Found(data: seq<byte>) returns (es: seq<Extension>, block: bool)
    requires Parse(Zero, data).Some?
    ensures Accepts(data, Parse(Zero, data).value, es, block)
  {
    hide ParseStart, ParseTail, Fold, Proper, Printed, Fixed, Bare, Vec;
    StartFound(data);
    var (a, rest) := ParseStart(Zero, data).value;
    es, block := TailFound(a, rest);
    FoldKeeps(a, es);
    BaseSame(a, Fold(a, es).value);
  }

  /** A new message takes exactly these byte strings: what it holds afterwards, printed around the extensions that came, is what was
      read. */
  lemma ParseIff(data: seq<byte>, r: Hello)
    ensures Parse(Zero, data) == Some(r) <==> exists es, block :: Accepts(data, r, es, block)
  {
    if Parse(Zero, data) == Some(r) { var es, block := Found(data); }
    forall es, block | Accepts(data, r, es, block) ensures Parse(Zero, data) == Some(r) {
      var tail := if block then Vec(2, Printed(es)) else [];
      hide Parse, Fixed, Printed, Vec, ParseTail, Fold;
      ParseAround(r, data, tail);
      TailIs(Bare(r), es, block);
    }
    hide Accepts, Parse;
  }

  /** A printed message begins with its type and its length. */
  lemma TypeAndLength(m: Hello)
    requires |Body(m)| < 0x100_0000
    ensures var x := Marshalled(m); x[0] == 2 && BigEndian(x[1..4]) == |x| - 4
  {
    var x, l := Marshalled(m), ToBytes(|Body(m)|, 3);
    assert Power256(3) == 0x100_0000;
    hide Body, ToBytes, BigEndian;
    BigEndianRoundTrip(|Body(m)|, 3);
    assert x[1..4] == l;
  }
}
