/**
 The wire format of `znet/socket.go`: version byte (protocol 1 and up), message id, sequence number and data
 length as big-endian words, then the data. `Encode` is what PreparePacketFromWire writes, `Parse` what
 ParseFromRingBuffer reads, both stated on byte strings.
 */
module Framing {
  import opened Bytes
  import opened Prelude
  import opened Windows
  import Ring = RingBuffer

  const Word32: nat := 0x1_0000_0000

  /** `ProtocolVersion` 0 has a header of 12 bytes, any other version one of 13. */
  datatype Config = Config(maxData: int, maxMsgId: int, version: byte)

  /** The id is a signed 32-bit number. */
  datatype Message = Message(msgId: int, seqId: nat, data: seq<byte>)

  datatype ParseError = VersionMismatch | InvalidMsgId | InvalidLength

  datatype ParseResult =
    | NeedMore
    | Bad(err: ParseError)
    | Parsed(msg: Message, used: nat)

  function HeaderLen(cfg: Config): (h: nat)
    ensures h == 12 || h == 13
  {
    if cfg.version >= 1 then 13 else 12
  }

  /** `uint32(msgId)` and back. */
  function ToUnsigned(id: int): nat {
    id % Word32
  }

  function ToSigned(u: nat): int {
    if u < 0x8000_0000 then u else u - Word32
  }

  /** What the parser of the same configuration will accept. */
  predicate InLimits(cfg: Config, m: Message) {
    && -0x8000_0000 <= m.msgId < 0x8000_0000 && -cfg.maxMsgId <= m.msgId <= cfg.maxMsgId
    && m.seqId < Word32 && |m.data| < Word32 && |m.data| <= cfg.maxData
  }

  function VersionByte(cfg: Config): seq<byte> {
    if cfg.version >= 1 then [cfg.version] else []
  }

  function Header(cfg: Config, m: Message): (h: seq<byte>)
    ensures |h| == HeaderLen(cfg)
  {
    VersionByte(cfg) + ToBytes(ToUnsigned(m.msgId), 4) + ToBytes(m.seqId, 4) + ToBytes(|m.data|, 4)
  }

  function Encode(cfg: Config, m: Message): (s: seq<byte>)
    ensures |s| == HeaderLen(cfg) + |m.data|
  {
    Header(cfg, m) + m.data
  }

  /** The word at offset `i` of the header proper. */
  function Field(cfg: Config, s: seq<byte>, i: nat): nat
    requires |s| >= HeaderLen(cfg) && i + 4 <= 12
  {
    var o := HeaderLen(cfg) - 12 + i;
    BigEndian(s[o..o + 4])
  }

  function Parse(cfg: Config, s: seq<byte>): (r: ParseResult)
    ensures r.Parsed? ==> HeaderLen(cfg) <= r.used <= |s|
  {
    if |s| < HeaderLen(cfg) then NeedMore
    else if cfg.version >= 1 && s[0] != cfg.version then Bad(VersionMismatch)
    else
      var id, len := ToSigned(Field(cfg, s, 0)), Field(cfg, s, 8);
      if id < -cfg.maxMsgId || id > cfg.maxMsgId then Bad(InvalidMsgId)
      else if len > cfg.maxData then Bad(InvalidLength)
      else if |s| < HeaderLen(cfg) + len then NeedMore
      else Parsed(Message(id, Field(cfg, s, 4), s[HeaderLen(cfg)..HeaderLen(cfg) + len]), HeaderLen(cfg) + len)
  }

  /** What a header can say at all. */
  predicate OnWire(m: Message) {
    -0x8000_0000 <= m.msgId < 0x8000_0000 && m.seqId < Word32 && |m.data| < Word32
  }

  /** The three words of a header, whatever follows it. */
  lemma HeaderFields(cfg: Config, m: Message, rest: seq<byte>)
    requires OnWire(m)
    ensures var s := Header(cfg, m) + rest;
            && Field(cfg, s, 0) == ToUnsigned(m.msgId) && Field(cfg, s, 4) == m.seqId && Field(cfg, s, 8) == |m.data|
            && (cfg.version >= 1 ==> s[0] == cfg.version) && ToSigned(ToUnsigned(m.msgId)) == m.msgId
  {
    assert Power256(4) == Word32;
    BigEndianRoundTrip(ToUnsigned(m.msgId), 4);
    BigEndianRoundTrip(m.seqId, 4);
    BigEndianRoundTrip(|m.data|, 4);
    hide ToBytes, BigEndian, Power256;
    var v, a, b, c := VersionByte(cfg), ToBytes(ToUnsigned(m.msgId), 4), ToBytes(m.seqId, 4), ToBytes(|m.data|, 4);
    var s, o := Header(cfg, m) + rest, HeaderLen(cfg) - 12;
    Assoc3(v + a + b, c, rest);
    Assoc3(v + a, b, c + rest);
    Assoc3(v, a, b + (c + rest));
    assert s[0..] == s;
    Front(s, 0, v, a + (b + (c + rest)));
    Front(s, o, a, b + (c + rest));
    Front(s, o + 4, b, c + rest);
    Front(s, o + 8, c, rest);
  }

  /** Everything Parse says once the header is there, told from its three words. */
  lemma ParseByFields(cfg: Config, s: seq<byte>, id: int, seqId: nat, len: nat)
    requires |s| >= HeaderLen(cfg) && (cfg.version >= 1 ==> s[0] == cfg.version)
    requires id == ToSigned(Field(cfg, s, 0)) && seqId == Field(cfg, s, 4) && len == Field(cfg, s, 8)
    ensures Parse(cfg, s) ==
              if id < -cfg.maxMsgId || id > cfg.maxMsgId then Bad(InvalidMsgId)
              else if len > cfg.maxData then Bad(InvalidLength)
              else if |s| < HeaderLen(cfg) + len then NeedMore
              else Parsed(Message(id, seqId, s[HeaderLen(cfg)..HeaderLen(cfg) + len]), HeaderLen(cfg) + len)
  {
    hide Field, ToSigned;
  }

  /** Decoding an encoded message gives it back, whatever comes behind it. */
  lemma ParseEncoded(cfg: Config, m: Message, rest: seq<byte>)
    requires InLimits(cfg, m)
    ensures Parse(cfg, Encode(cfg, m) + rest) == Parsed(m, |Encode(cfg, m)|)
  {
    hide Encode, Parse;
    ParseAny(cfg, m, rest);
  }

  /** A message that is not in the limits is refused, first for its id and then for its length. */
  lemma ParseAny(cfg: Config, m: Message, rest: seq<byte>)
    requires OnWire(m)
    ensures Parse(cfg, Encode(cfg, m) + rest) ==
              if m.msgId < -cfg.maxMsgId || m.msgId > cfg.maxMsgId then Bad(InvalidMsgId)
              else if |m.data| > cfg.maxData then Bad(InvalidLength)
              else Parsed(m, |Encode(cfg, m)|)
  {
    hide Field, Header, ToSigned, ToUnsigned, Parse;
    var s := Encode(cfg, m) + rest;
    Assoc3(Header(cfg, m), m.data, rest);
    HeaderFields(cfg, m, m.data + rest);
    assert s[0..] == s;
    Front(s, 0, Header(cfg, m), m.data + rest);
    Front(s, HeaderLen(cfg), m.data, rest);
    ParseByFields(cfg, s, m.msgId, m.seqId, |m.data|);
  }

  /** So is every message of another version. */
  lemma ParseOther(cfg: Config, other: Config, m: Message, rest: seq<byte>)
    requires cfg.version >= 1 && other.version >= 1 && cfg.version != other.version
    ensures Parse(cfg, Encode(other, m) + rest) == Bad(VersionMismatch)
  {
    var s := Encode(other, m) + rest;
    assert Header(other, m)[0] == other.version by { hide ToBytes; }
    hide Header;
    assert s[0] == Header(other, m)[0];
  }

  /** Bytes are refused exactly when the header is there and no more bytes could make a message of them. */
  lemma BadIff(cfg: Config, s: seq<byte>)
    ensures Parse(cfg, s).Bad? <==> |s| >= HeaderLen(cfg) && forall more :: !Parse(cfg, s + more).Parsed?
  {
    forall more ensures Parse(cfg, s).Bad? ==> !Parse(cfg, s + more).Parsed? { ParseMore(cfg, s, more); }
    if |s| >= HeaderLen(cfg) && !Parse(cfg, s).Bad? {
      var n := HeaderLen(cfg) + Field(cfg, s, 8);
      var more: seq<byte> := if n > |s| then seq(n - |s|, i => 0) else [];
      FieldMore(cfg, s, more);
      hide Field;
      assert Parse(cfg, s + more).Parsed?;
    }
  }

  /** A frame that has not arrived completely is waited for, never rejected and never misread. */
  lemma ParsePrefix(cfg: Config, m: Message, k: nat)
    requires InLimits(cfg, m) && k < |Encode(cfg, m)|
    ensures Parse(cfg, Encode(cfg, m)[..k]).NeedMore?
  {
    var h := HeaderLen(cfg);
    if k >= h {
      hide Field, Header, ToSigned, ToUnsigned, Parse;
      var s := Encode(cfg, m)[..k];
      assert s == Header(cfg, m) + m.data[..k - h];
      HeaderFields(cfg, m, m.data[..k - h]);
      ParseByFields(cfg, s, m.msgId, m.seqId, |m.data|);
    }
  }

  /** Encoding a decoded message gives back the very bytes it was decoded from, and it is in limits. */
  lemma EncodeParsed(cfg: Config, s: seq<byte>)
    requires Parse(cfg, s).Parsed?
    ensures var r := Parse(cfg, s); Encode(cfg, r.msg) == s[..r.used] && InLimits(cfg, r.msg)
  {
    var r, o := Parse(cfg, s), HeaderLen(cfg) - 12;
    assert Power256(4) == Word32;
    ToBytesRoundTrip(s[o..o + 4]);
    ToBytesRoundTrip(s[o + 4..o + 8]);
    ToBytesRoundTrip(s[o + 8..o + 12]);
    hide ToBytes, BigEndian, Power256;
    SignRoundTrip(Field(cfg, s, 0));
    assert s[..o] == VersionByte(cfg);
    FivePieces(s, o, r.used);
    hide VersionByte;
  }

  lemma SignRoundTrip(u: nat)
    requires u < Word32
    ensures ToUnsigned(ToSigned(u)) == u && -0x8000_0000 <= ToSigned(u) < 0x8000_0000
  {
  }

  lemma FivePieces(s: seq<byte>, o: nat, n: nat)
    requires o + 12 <= n <= |s|
    ensures s[..o] + s[o..o + 4] + s[o + 4..o + 8] + s[o + 8..o + 12] + s[o + 12..n] == s[..n]
  {
  }

  /** `ParseFromRingBuffer`: a complete message is taken out of the ring, anything else is left alone. */
  method ParseFromRingBuffer(cfg: Config, rb: Ring.RingBuffer) returns (r: ParseResult)
    requires rb.Valid()
    modifies rb`read
    ensures rb.Valid() && r == Parse(cfg, old(rb.Contents()))
    ensures rb.Contents() == if r.Parsed? then old(rb.Contents())[r.used..] else old(rb.Contents())
  {
    ghost var s := rb.Contents();
    hide BigEndian, Window, Ring.GoodSize, Ring.Sub, Index;
    var hLen := HeaderLen(cfg);
    if rb.Len() < hLen { return NeedMore; }
    var off := 0;
    if cfg.version >= 1 {
      var ver, _ := rb.PeekByte(0);
      if ver != cfg.version { return Bad(VersionMismatch); }
      off := 1;
    }
    var msgId, seqId, dataLen := rb.PeekHeader12(off);
    assert msgId == Field(cfg, s, 0) && seqId == Field(cfg, s, 4) && dataLen == Field(cfg, s, 8);
    var id := ToSigned(msgId);
    ParseByFields(cfg, s, id, seqId, dataLen);
    hide Field, Parse, ToSigned;
    if id < -cfg.maxMsgId || id > cfg.maxMsgId { return Bad(InvalidMsgId); }
    if dataLen > cfg.maxData { return Bad(InvalidLength); }
    var total := hLen + dataLen;
    if rb.Len() < total { return NeedMore; }
    var data: seq<byte> := [];
    if dataLen > 0 {
      var first, second, _ := rb.PeekTwoSlices(hLen, dataLen);
      data := first + second;
    }
    assert data == s[hLen..total];
    var _ := rb.Discard(total);
    r := Parsed(Message(id, seqId, data), total);
  }

  /** `PreparePacketFromWire`: the header goes into the caller's buffer, the body is returned as it is. */
  method PreparePacket(cfg: Config, m: Message, headerBuf: array<byte>) returns (hdrLen: nat, body: seq<byte>)
    requires headerBuf.Length >= 13 && -0x8000_0000 <= m.msgId < 0x8000_0000 && m.seqId < Word32 && |m.data| < Word32
    modifies headerBuf
    ensures hdrLen == HeaderLen(cfg) && headerBuf[..hdrLen] + body == Encode(cfg, m)
  {
    hide ToBytes;
    var off := 0;
    if cfg.version >= 1 {
      headerBuf[0] := cfg.version;
      off := 1;
    }
    assert headerBuf[..off] == VersionByte(cfg);
    hide VersionByte;
    PutUint32(headerBuf, off, ToUnsigned(m.msgId));
    PutUint32(headerBuf, off + 4, m.seqId);
    PutUint32(headerBuf, off + 8, |m.data|);
    hdrLen, body := HeaderLen(cfg), m.data;
  }

  method PutUint32(a: array<byte>, off: nat, v: nat)
    requires off + 4 <= a.Length && v < Word32
    modifies a
    ensures a[..off + 4] == old(a[..off]) + ToBytes(v, 4)
  {
    a[off], a[off + 1], a[off + 2], a[off + 3] := v / 0x1000000 % 256, v / 0x10000 % 256, v / 0x100 % 256, v % 256;
    FourBytes(v);
  }

  lemma FourBytes(v: nat)
    ensures ToBytes(v, 4) == [v / 0x1000000 % 256, v / 0x10000 % 256, v / 0x100 % 256, v % 256]
  {
    assert v / 256 / 256 == v / 0x10000 && v / 0x10000 / 256 == v / 0x1000000;
    assert ToBytes(v / 0x1000000, 1) == [v / 0x1000000 % 256];
    assert ToBytes(v / 0x10000, 2) == [v / 0x1000000 % 256, v / 0x10000 % 256];
    assert ToBytes(v / 0x100, 3) == ToBytes(v / 0x10000, 2) + [v / 0x100 % 256];
  }

  // ----- streams --------------------------------------------------------------------------------

  /** What a byte string amounts to: the messages in it, the part that is not decoded, and whether decoding
      stopped at bytes that no message begins with. */
  datatype Decoded = Decoded(msgs: seq<Message>, rest: seq<byte>, bad: bool)

  function Decode(cfg: Config, s: seq<byte>): Decoded
    decreases |s|
  {
    match Parse(cfg, s)
    case NeedMore => Decoded([], s, false)
    case Bad(_) => Decoded([], s, true)
    case Parsed(m, used) => var d := Decode(cfg, s[used..]); Decoded([m] + d.msgs, d.rest, d.bad)
  }

  /** More bytes never change a verdict already reached. */
  lemma ParseMore(cfg: Config, s: seq<byte>, more: seq<byte>)
    ensures !Parse(cfg, s).NeedMore? ==> Parse(cfg, s + more) == Parse(cfg, s)
  {
    if |s| >= HeaderLen(cfg) {
      FieldMore(cfg, s, more);
      var len := Field(cfg, s, 8);
      hide Field;
      if |s| >= HeaderLen(cfg) + len {
        assert (s + more)[HeaderLen(cfg)..HeaderLen(cfg) + len] == s[HeaderLen(cfg)..HeaderLen(cfg) + len];
      }
    }
  }

  lemma FieldMore(cfg: Config, s: seq<byte>, more: seq<byte>)
    requires |s| >= HeaderLen(cfg)
    ensures Field(cfg, s + more, 0) == Field(cfg, s, 0) && Field(cfg, s + more, 4) == Field(cfg, s, 4) && Field(cfg, s + more, 8) == Field(cfg, s, 8)
  {
    var o := HeaderLen(cfg) - 12;
    assert (s + more)[o..o + 4] == s[o..o + 4];
    assert (s + more)[o + 4..o + 8] == s[o + 4..o + 8];
    assert (s + more)[o + 8..o + 12] == s[o + 8..o + 12];
  }

  /** Decoding may be done piece by piece: first what is there, then the rest of it with what comes next. */
  lemma {:induction false} DecodeMore(cfg: Config, s: seq<byte>, more: seq<byte>)
    ensures var d, e := Decode(cfg, s), Decode(cfg, Decode(cfg, s).rest + more);
            Decode(cfg, s + more) == if d.bad then Decoded(d.msgs, d.rest + more, true) else Decoded(d.msgs + e.msgs, e.rest, e.bad)
    decreases |s|
  {
    ParseMore(cfg, s, more);
    hide Parse, Decode;
    DecodeOne(cfg, s);
    DecodeOne(cfg, s + more);
    if Parse(cfg, s).Parsed? {
      var u := Parse(cfg, s).used;
      assert (s + more)[u..] == s[u..] + more;
      DecodeMore(cfg, s[u..], more);
    } else {
      var none: seq<Message> := [];
      var e := Decode(cfg, s + more);
      assert none + e.msgs == e.msgs;
    }
  }

  /** Decoding is one look of the parser, and then the rest. */
  lemma DecodeOne(cfg: Config, s: seq<byte>)
    ensures var r := Parse(cfg, s);
            Decode(cfg, s) == if !r.Parsed? then Decoded([], s, r.Bad?)
                              else var d := Decode(cfg, s[r.used..]); Decoded([r.msg] + d.msgs, d.rest, d.bad)
  {
    hide Parse;
  }

  /** The bytes of a list of messages. */
  function Stream(cfg: Config, ms: seq<Message>): seq<byte> {
    if ms == [] then [] else Encode(cfg, ms[0]) + Stream(cfg, ms[1..])
  }

  /** Any beginning of a stream decodes to a beginning of the message list; what is left is a proper beginning of
      the next message. */
  lemma {:induction false} DecodeStream(cfg: Config, ms: seq<Message>, k: nat)
    requires (forall m :: m in ms ==> InLimits(cfg, m)) && k <= |Stream(cfg, ms)|
    ensures var d := Decode(cfg, Stream(cfg, ms)[..k]);
            && !d.bad && |d.msgs| <= |ms| && d.msgs == ms[..|d.msgs|]
            && Stream(cfg, ms)[..k] == Stream(cfg, d.msgs) + d.rest
            && (if |d.msgs| == |ms| then d.rest == []
                else |d.rest| < |Encode(cfg, ms[|d.msgs|])| && d.rest == Encode(cfg, ms[|d.msgs|])[..|d.rest|])
            && (k == |Stream(cfg, ms)| ==> d.msgs == ms)
    decreases |ms|
  {
    hide Parse, Encode, Decode;
    if ms == [] {
      assert Stream(cfg, ms)[..k] == [];
      ParseEmpty(cfg);
      DecodeOne(cfg, []);
    } else {
      var e, s, tail := Encode(cfg, ms[0]), Stream(cfg, ms), Stream(cfg, ms[1..]);
      DecodeOne(cfg, s[..k]);
      if k < |e| {
        assert s[..k] == e[..k];
        ParsePrefix(cfg, ms[0], k);
        assert ms[..0] == [];
      } else {
        var t := tail[..k - |e|];
        assert s[..k] == e + t;
        ParseEncoded(cfg, ms[0], t);
        assert s[..k][|e|..] == t;
        DecodeStream(cfg, ms[1..], k - |e|);
        StreamStep(cfg, ms, Decode(cfg, t), t);
      }
    }
  }

  /** The list got from the rest of a stream, with the first message in front. */
  lemma StreamStep(cfg: Config, ms: seq<Message>, d: Decoded, t: seq<byte>)
    requires ms != [] && |d.msgs| <= |ms| - 1 && d.msgs == ms[1..][..|d.msgs|] && t == Stream(cfg, d.msgs) + d.rest
    ensures var all := [ms[0]] + d.msgs;
            && all == ms[..|all|] && Encode(cfg, ms[0]) + t == Stream(cfg, all) + d.rest
            && (|all| < |ms| ==> ms[|all|] == ms[1..][|d.msgs|])
  {
    hide Encode;
    var all := [ms[0]] + d.msgs;
    assert all[1..] == d.msgs;
    assert Encode(cfg, ms[0]) + (Stream(cfg, d.msgs) + d.rest) == Encode(cfg, ms[0]) + Stream(cfg, d.msgs) + d.rest;
  }

  lemma ParseEmpty(cfg: Config)
    ensures Parse(cfg, []).NeedMore?
  {
  }
}
