/**
 The read path of a channel in the reactor: bytes from the socket go into the ring, whole messages come out
 to the handler (`zreactor/reactor_lifecycle.go`, `znet/channel.go`). For every byte stream, cut into chunks
 in every way, the handler sees exactly what Framing.Decode makes of the stream.
 */
module Ingest {
  import opened Bytes
  import opened Prelude
  import opened PowerOfTwo
  import opened Framing
  import opened Windows
  import Ring = RingBuffer

  /** `DefaultMaxDataLength`, and the step in which the read path asks the ring to grow. */
  const DefaultMaxData: nat := 0x10_0000
  const GrowStep: nat := 0x1_0000
  const MaxRing: nat := Ring.Limit / 4

  /** `RingBufferMaxSizeForSocket`. */
  function RingMaxForSocket(cfg: Config): int {
    (if cfg.maxData <= 0 then DefaultMaxData else cfg.maxData) + HeaderLen(cfg)
  }

  /** The ring may become large enough for every frame the parser waits for. */
  predicate Roomy(cfg: Config, size: nat, maxSize: nat) {
    var need := HeaderLen(cfg) + if cfg.maxData < 0 then 0 else cfg.maxData;
    size >= need || maxSize >= need
  }

  lemma MaxForSocketIsRoomy(cfg: Config, size: nat)
    requires RingMaxForSocket(cfg) <= MaxRing
    ensures Roomy(cfg, size, NextPowerOfTwo64(RingMaxForSocket(cfg))) && NextPowerOfTwo64(RingMaxForSocket(cfg)) <= MaxRing
    ensures IsPow2(NextPowerOfTwo64(RingMaxForSocket(cfg)))
  {
    Ring.LimitIsPow2();
    assert MaxRing == Pow2(60);
    NextPowerOfTwoLeast(RingMaxForSocket(cfg), 60);
  }

  /** What the parser waits for is never as long as the largest frame. */
  lemma WaitsForLess(cfg: Config, s: seq<byte>)
    requires Parse(cfg, s).NeedMore?
    ensures |s| < HeaderLen(cfg) + if cfg.maxData < 0 then 0 else cfg.maxData
  {
  }

  /** A chunk for which Grow never clamps short. */
  predicate ChunkFits(size: nat, maxSize: nat, n: nat) {
    n <= size || 2 * n <= maxSize
  }

  lemma ChunkNeverClamps(size: nat, maxSize: nat, len: nat, n: nat)
    requires IsPow2(size) && IsPow2(maxSize) && len <= size && ChunkFits(size, maxSize, n)
    ensures !Ring.ClampShort(size, maxSize, len, n)
  {
    if size < maxSize { LessMeansHalf(size, maxSize); }
  }

  // ----- what the handler sees ------------------------------------------------------------------

  /** Decryption of a message body, and whether a failure closes the connection. */
  datatype Policy = Policy(open: seq<byte> -> Option<seq<byte>>, strict: bool)

  /** The messages handed on, in order, and whether a body that cannot be opened ended it. */
  datatype Outcome = Outcome(seen: seq<Message>, stop: bool)

  /** One message: its body is opened; if that fails it is dropped, or ends the connection. */
  function One(pol: Policy, m: Message): Outcome {
    if m.data == [] then Outcome([m], false)
    else match pol.open(m.data)
      case Some(d) => Outcome([m.(data := d)], false)
      case None => Outcome([], pol.strict)
  }

  /** One message after the other. */
  function Dispatch(pol: Policy, ms: seq<Message>): Outcome {
    if ms == [] then Outcome([], false)
    else
      var one, rest := One(pol, ms[0]), Dispatch(pol, ms[1..]);
      if one.stop then one else Outcome(one.seen + rest.seen, rest.stop)
  }

  lemma {:induction false} DispatchMore(pol: Policy, a: seq<Message>, b: seq<Message>)
    ensures var x, y := Dispatch(pol, a), Dispatch(pol, b);
            Dispatch(pol, a + b) == if x.stop then x else Outcome(x.seen + y.seen, y.stop)
  {
    hide One;
    if a == [] {
      assert a + b == b;
    } else {
      var c := a + b;
      assert c[0] == a[0] && c[1..] == a[1..] + b;
      DispatchMore(pol, a[1..], b);
      var one, x, y := One(pol, a[0]), Dispatch(pol, a[1..]), Dispatch(pol, b);
      Join(one.seen, x.seen, y.seen);
    }
  }

  /** A body that cannot be opened; a message without a body needs no opening. */
  predicate Unopened(pol: Policy, m: Message) { m.data != [] && pol.open(m.data).None? }

  /** The messages of a list that can be opened, opened. */
  function Readable(pol: Policy, ms: seq<Message>): seq<Message> {
    if ms == [] then []
    else Readable(pol, ms[..|ms| - 1]) + if Unopened(pol, ms[|ms| - 1]) then [] else [OpenedUp(pol, ms[|ms| - 1])]
  }

  function OpenedUp(pol: Policy, m: Message): Message {
    if m.data == [] || pol.open(m.data).None? then m else m.(data := pol.open(m.data).value)
  }

  /** A message that cannot be opened is left out and ends nothing, unless the policy is strict: then nothing behind it is seen. */
  lemma {:induction false} DispatchMeans(pol: Policy, ms: seq<Message>, k: nat)
    requires k <= |ms| && (forall i :: 0 <= i < k ==> !pol.strict || !Unopened(pol, ms[i])) && (k < |ms| ==> pol.strict && Unopened(pol, ms[k]))
    ensures Dispatch(pol, ms) == Outcome(Readable(pol, ms[..k]), k < |ms|)
  {
    DispatchFirst(pol, ms[..k]);
    assert ms == ms[..k] + ms[k..];
    DispatchMore(pol, ms[..k], ms[k..]);
    var none: seq<Message> := [];
    assert Readable(pol, ms[..k]) + none == Readable(pol, ms[..k]);
    assert k < |ms| ==> ms[k..][0] == ms[k];
    hide Readable;
  }

  lemma {:induction false} DispatchFirst(pol: Policy, ms: seq<Message>)
    requires forall i :: 0 <= i < |ms| ==> !pol.strict || !Unopened(pol, ms[i])
    ensures Dispatch(pol, ms) == Outcome(Readable(pol, ms), false)
  {
    if ms != [] {
      var n := |ms| - 1;
      DispatchFirst(pol, ms[..n]);
      assert ms == ms[..n] + [ms[n]];
      DispatchMore(pol, ms[..n], [ms[n]]);
      assert [ms[n]][1..] == [];
      var none: seq<Message>, one := [], One(pol, ms[n]);
      assert one.seen + none == one.seen;
    }
  }

  /** When a byte string ends the connection: over bytes that no message begins with, or, under a strict policy, over a message in front of
      them that cannot be opened. */
  lemma StopIff(cfg: Config, pol: Policy, s: seq<byte>)
    ensures Effect(cfg, pol, s).stop <==>
              Decode(cfg, s).bad || (pol.strict && exists i :: 0 <= i < |Decode(cfg, s).msgs| && Unopened(pol, Decode(cfg, s).msgs[i]))
  {
    var ms := Decode(cfg, s).msgs;
    var k := FirstSealed(pol, ms);
    DispatchMeans(pol, ms, k);
    hide Dispatch, Readable, Decode, Unopened;
  }

  lemma {:induction false} FirstSealed(pol: Policy, ms: seq<Message>) returns (k: nat)
    ensures k <= |ms| && (forall i :: 0 <= i < k ==> !pol.strict || !Unopened(pol, ms[i])) && (k < |ms| ==> pol.strict && Unopened(pol, ms[k]))
  {
    if ms == [] {
      k := 0;
    } else {
      var n := |ms| - 1;
      k := FirstSealed(pol, ms[..n]);
      if k == n && !(pol.strict && Unopened(pol, ms[n])) { k := n + 1; }
    }
  }

  lemma Join(a: seq<Message>, b: seq<Message>, c: seq<Message>)
    ensures a + b + c == a + (b + c)
  {
  }

  /** Everything that can still become of the bytes `s`. */
  function Effect(cfg: Config, pol: Policy, s: seq<byte>): Outcome {
    var d := Decode(cfg, s);
    var o := Dispatch(pol, d.msgs);
    o.(stop := o.stop || d.bad)
  }

  /** Taking the first message off. */
  lemma EffectStep(cfg: Config, pol: Policy, s: seq<byte>, more: seq<byte>)
    requires Parse(cfg, s).Parsed?
    ensures var r := Parse(cfg, s);
            var o, e := One(pol, r.msg), Effect(cfg, pol, s[r.used..] + more);
            && Effect(cfg, pol, s + more) == (if o.stop then o else Outcome(o.seen + e.seen, e.stop))
            && Decode(cfg, s + more).rest == Decode(cfg, s[r.used..] + more).rest
  {
    var r := Parse(cfg, s);
    ParseMore(cfg, s, more);
    hide Parse, One;
    assert (s + more)[r.used..] == s[r.used..] + more;
    var rest := Decode(cfg, s[r.used..] + more).msgs;
    assert Decode(cfg, s + more).msgs == [r.msg] + rest && ([r.msg] + rest)[1..] == rest;
  }

  /** Nothing whole in the ring: only more bytes can have an effect. */
  lemma EffectNone(cfg: Config, pol: Policy, s: seq<byte>)
    ensures Parse(cfg, s).NeedMore? ==> Effect(cfg, pol, s) == Outcome([], false) && Decode(cfg, s).rest == s
    ensures Parse(cfg, s).Bad? ==> forall more :: Effect(cfg, pol, s + more) == Outcome([], true)
  {
    forall more | Parse(cfg, s).Bad? ensures Effect(cfg, pol, s + more) == Outcome([], true) { ParseMore(cfg, s, more); }
  }

  /** Of the bytes `s`, `seen` has been handled and `left` remains. */
  ghost predicate Progress(cfg: Config, pol: Policy, s: seq<byte>, seen: seq<Message>, left: seq<byte>) {
    && Effect(cfg, pol, s) == Outcome(seen + Effect(cfg, pol, left).seen, Effect(cfg, pol, left).stop)
    && Decode(cfg, s).rest == Decode(cfg, left).rest
  }

  lemma ProgressStart(cfg: Config, pol: Policy, s: seq<byte>)
    ensures Progress(cfg, pol, s, [], s)
  {
  }

  /** One more look by the parser at the front `buf` of what remains. */
  lemma ProgressLook(cfg: Config, pol: Policy, s: seq<byte>, seen: seq<Message>, buf: seq<byte>, more: seq<byte>)
    requires Progress(cfg, pol, s, seen, buf + more)
    ensures Parse(cfg, buf).Bad? ==> Effect(cfg, pol, s) == Outcome(seen, true)
    ensures Parse(cfg, buf).NeedMore? && more == [] ==> Effect(cfg, pol, s) == Outcome(seen, false) && Decode(cfg, s).rest == buf
    ensures Parse(cfg, buf).Parsed? ==>
              var r := Parse(cfg, buf); var o := One(pol, r.msg);
              if o.stop then Effect(cfg, pol, s) == Outcome(seen + o.seen, true)
              else Progress(cfg, pol, s, seen + o.seen, buf[r.used..] + more)
  {
    hide Parse, Decode, Effect, One;
    EffectNone(cfg, pol, buf);
    if Parse(cfg, buf).Parsed? {
      LookParsed(cfg, pol, s, seen, buf, more);
    } else {
      var none: seq<Message> := [];
      assert seen + none == seen;
      if Parse(cfg, buf).Bad? { assert Effect(cfg, pol, buf + more) == Outcome([], true); }
      if more == [] { assert buf + more == buf; }
    }
  }

  lemma LookParsed(cfg: Config, pol: Policy, s: seq<byte>, seen: seq<Message>, buf: seq<byte>, more: seq<byte>)
    requires Progress(cfg, pol, s, seen, buf + more) && Parse(cfg, buf).Parsed?
    ensures var r := Parse(cfg, buf); var o := One(pol, r.msg);
            if o.stop then Effect(cfg, pol, s) == Outcome(seen + o.seen, true)
            else Progress(cfg, pol, s, seen + o.seen, buf[r.used..] + more)
  {
    hide Parse, Decode, Effect, One;
    EffectStep(cfg, pol, buf, more);
    var r := Parse(cfg, buf);
    var o, e := One(pol, r.msg), Effect(cfg, pol, buf[r.used..] + more);
    Join(seen, o.seen, e.seen);
  }

  /** The same when that is all there is. */
  lemma ProgressAlone(cfg: Config, pol: Policy, s: seq<byte>, seen: seq<Message>, buf: seq<byte>)
    requires Progress(cfg, pol, s, seen, buf)
    ensures Parse(cfg, buf).Bad? ==> Effect(cfg, pol, s) == Outcome(seen, true)
    ensures Parse(cfg, buf).NeedMore? ==> Effect(cfg, pol, s) == Outcome(seen, false) && Decode(cfg, s).rest == buf
    ensures Parse(cfg, buf).Parsed? ==>
              var r := Parse(cfg, buf); var o := One(pol, r.msg);
              if o.stop then Effect(cfg, pol, s) == Outcome(seen + o.seen, true) else Progress(cfg, pol, s, seen + o.seen, buf[r.used..])
  {
    hide Parse, Decode, Effect, One, Progress;
    var none: seq<byte> := [];
    assert buf + none == buf;
    ProgressLook(cfg, pol, s, seen, buf, none);
    if Parse(cfg, buf).Parsed? {
      var rest := buf[Parse(cfg, buf).used..];
      assert rest + none == rest;
    }
  }

  /** Everything whole at the front has been handled. */
  lemma ProgressDrain(cfg: Config, pol: Policy, s: seq<byte>, seen: seq<Message>, buf: seq<byte>, more: seq<byte>)
    requires Progress(cfg, pol, s, seen, buf + more)
    ensures var x := Effect(cfg, pol, buf);
            if x.stop then Effect(cfg, pol, s) == Outcome(seen + x.seen, true)
            else Progress(cfg, pol, s, seen + x.seen, Decode(cfg, buf).rest + more)
  {
    EffectPieces(cfg, pol, buf, more);
    hide Decode, Effect;
  }

  // ----- the channel ----------------------------------------------------------------------------

  class Channel {
    var rb: Ring.RingBuffer
    var closed: bool
    var handled: seq<Message>
    const cfg: Config
    const pol: Policy

    ghost predicate Valid()
      reads this, rb
    {
      && rb.Valid() && 0 < rb.maxSize <= MaxRing && rb.size <= MaxRing && IsPow2(rb.maxSize)
      && Roomy(cfg, rb.size, rb.maxSize)
    }

    ghost function Pending(): seq<byte>
      reads this, rb, rb.buf
      requires Valid()
    {
      rb.Contents()
    }

    /** What the methods below never do to the ring. */
    twostate predicate RingKept()
      reads this, rb
    {
      && rb == old(rb) && (rb.buf == old(rb.buf) || fresh(rb.buf)) && rb.maxSize == old(rb.maxSize) && old(rb.size) <= rb.size
    }

    constructor (cfg: Config, pol: Policy, initial: nat)
      requires initial <= MaxRing && RingMaxForSocket(cfg) <= MaxRing
      ensures Valid() && Pending() == [] && handled == [] && !closed && this.cfg == cfg && this.pol == pol
      ensures rb.size == NextPowerOfTwo64(initial) && fresh(rb) && fresh(rb.buf)
    {
      Ring.LimitIsPow2();
      assert MaxRing == Pow2(60);
      if initial > 0 { NextPowerOfTwoLeast(initial, 60); }
      MaxForSocketIsRoomy(cfg, NextPowerOfTwo64(initial));
      rb := new Ring.RingBuffer(initial, RingMaxForSocket(cfg));
      closed, handled := false, [];
      this.cfg, this.pol := cfg, pol;
    }

    /** `WriteToReadBuffer`: all of `p`, or as much as fits when the ring may not grow any more. */
    method WriteToReadBuffer(p: seq<byte>) returns (n: nat, err: Ring.Error)
      requires Valid() && ChunkFits(rb.size, rb.maxSize, |p|)
      modifies rb, rb.buf
      ensures Valid() && RingKept() && n <= |p| && Pending() == old(Pending()) + p[..n]
      ensures n == if closed then 0 else if old(rb.size - rb.Len()) >= |p| || Ring.Growable(old(rb.size), rb.maxSize) then |p|
                   else old(rb.size - rb.Len())
      ensures err == if closed then Ring.EOF else if n == |p| then Ring.NoError else Ring.BufferFull
    {
      if closed { assert p[..0] == []; return 0, Ring.EOF; }
      hide Window, Ring.Sub, IsPow2, Roomy;
      var written := 0;
      n := 0;
      while written < |p|
        invariant Valid() && RingKept() && written <= |p| && Pending() == old(Pending()) + p[..written]
        invariant written == 0 || (written == old(rb.size - rb.Len()) && !Ring.Growable(old(rb.size), rb.maxSize) && rb.Len() == rb.size == old(rb.size))
        invariant written == 0 ==> rb.size == old(rb.size) && rb.buf == old(rb.buf)
        decreases |p| - written
      {
        ChunkNeverClamps(rb.size, rb.maxSize, rb.Len(), |p| - written);
        var wn, e := rb.Write(p[written..]);
        assert p[..written] + p[written..][..wn] == p[..written + wn];
        written := written + wn;
        if written >= |p| { return written, Ring.NoError; }
        if e == Ring.BufferFull {
          var ok := rb.Grow(GrowStep);
          assert !ok; // a ring that is full and may not grow refuses again
        }
        if e == Ring.ShortWrite { continue; }
        return written, e;
      }
      assert p[..0] == [];
      return written, Ring.NoError;
    }

    /** `handleParsedMessage`: open the body and hand the message on; true means close. */
    method HandleParsedMessage(m: Message) returns (close: bool)
      modifies this`handled
      ensures close == One(pol, m).stop && handled == old(handled) + One(pol, m).seen
    {
      if m.data != [] {
        match pol.open(m.data)
        case None => return pol.strict;
        case Some(d) =>
          handled := handled + [m.(data := d)];
      } else {
        handled := handled + [m];
      }
      close := false;
    }

    /** `ParseAndDispatch` on an open channel: every whole message in the ring is handled; unless that ends the
        connection, less than a message is left, and room for more. The branch for a packet larger than
        the ring is never taken. */
    method ParseAndDispatch() returns (close: bool)
      requires Valid() && !closed
      modifies rb, this`handled
      ensures Valid() && RingKept()
      ensures var e := Effect(cfg, pol, old(Pending())); close == e.stop && handled == old(handled) + e.seen
      ensures !close ==> Pending() == Decode(cfg, old(Pending())).rest && rb.Len() < rb.size
      ensures rb.Len() <= old(rb.Len())
    {
      hide Window, Ring.Sub, IsPow2, Dispatch, Decode, Parse, Effect, Progress;
      ghost var s, seen: seq<Message> := Pending(), [];
      ProgressStart(cfg, pol, s);
      while true
        invariant Valid() && RingKept() && handled == old(handled) + seen && rb.Len() <= |s|
        invariant Progress(cfg, pol, s, seen, Pending())
        decreases rb.Len(), if rb.Len() == rb.size then 1 else 0
      {
        ghost var before := Pending();
        ProgressAlone(cfg, pol, s, seen, before);
        var r := ParseFromRingBuffer(cfg, rb);
        match r
        case Bad(_) => return true;
        case NeedMore =>
          WaitsForLess(cfg, before);
          if rb.Len() == rb.size {
            var ok := rb.Grow(GrowStep);
            assert ok; // otherwise: "single packet exceeds buffer capacity"
          } else {
            return false;
          }
        case Parsed(m, used) =>
          seen := seen + One(pol, m).seen;
          var stop := HandleParsedMessage(m);
          if stop { return true; }
      }
    }

    /** `writeConnBytes`: write, and when nothing fits, take the whole messages out of the ring once and go on.
        The branch that reports an ingest error is never taken. */
    method WriteConnBytes(p: seq<byte>) returns (close: bool, ghost seen: seq<Message>)
      requires Valid() && !closed && ChunkFits(rb.size, rb.maxSize, |p|)
      modifies rb, rb.buf, this`handled
      ensures Valid() && RingKept() && handled == old(handled) + seen
      ensures if close then Effect(cfg, pol, old(Pending()) + p) == Outcome(seen, true)
              else Progress(cfg, pol, old(Pending()) + p, seen, Pending())
    {
      hide Window, Ring.Sub, IsPow2, Dispatch, Decode, Parse, Effect, Progress, Roomy;
      var off, drained := 0, false;
      ghost var all := Pending() + p;
      seen := [];
      ProgressStart(cfg, pol, all);
      assert p[0..] == p;
      while off < |p|
        invariant Valid() && RingKept() && off <= |p| && handled == old(handled) + seen
        invariant drained ==> rb.Len() < rb.size
        invariant Progress(cfg, pol, all, seen, Pending() + p[off..])
        decreases |p| - off, if drained then 0 else 1
      {
        ghost var before := Pending();
        var n, err := WriteToReadBuffer(p[off..]);
        assert before + p[off..] == Pending() + p[off + n..];
        off := off + n;
        if off >= |p| { assert Pending() + p[off..] == Pending(); return false, seen; }
        if n > 0 {
          drained := false;
        } else {
          assert !drained; // otherwise: the read ingest error
          drained := true;
          ProgressDrain(cfg, pol, all, seen, Pending(), p[off..]);
          seen := seen + Effect(cfg, pol, Pending()).seen;
          var stop := ParseAndDispatch();
          if stop { return true, seen; }
        }
      }
      assert Pending() + p[off..] == Pending();
      close := false;
    }

    /** `ingestConnReadAndDispatch`, for any bytes whatever: the handler sees what decoding the bytes left from
        before together with the new ones gives, the connection is closed exactly if that says so, and the bytes
        left are those that are not decoded. */
    method Ingest(p: seq<byte>) returns (close: bool)
      requires Valid() && !closed && ChunkFits(rb.size, rb.maxSize, |p|)
      modifies rb, rb.buf, this`handled
      ensures Valid() && RingKept()
      ensures var e := Effect(cfg, pol, old(Pending()) + p); close == e.stop && handled == old(handled) + e.seen
      ensures !close ==> Pending() == Decode(cfg, old(Pending()) + p).rest && rb.Len() < rb.size
    {
      hide Window, Ring.Sub, IsPow2, Dispatch, Decode, Parse, Effect, Roomy;
      var stop, seen := WriteConnBytes(p);
      if stop { return true; }
      close := ParseAndDispatch();
    }

    /** One call of Ingest for every chunk the socket delivers, until one of them closes the connection. */
    method Receive(chunks: seq<seq<byte>>) returns (close: bool)
      requires Valid() && !closed && Parse(cfg, Pending()).NeedMore?
      requires forall c :: c in chunks ==> ChunkFits(rb.size, rb.maxSize, |c|)
      modifies this`handled, rb, rb.buf
      ensures Valid() && RingKept()
      ensures var e := Effect(cfg, pol, old(Pending()) + Flatten(chunks)); close == e.stop && handled == old(handled) + e.seen
      ensures !close ==> Pending() == Decode(cfg, old(Pending()) + Flatten(chunks)).rest
    {
      hide Window, Ring.Sub, Ring.GoodSize, IsPow2, Dispatch, Decode, Parse, Effect, Progress, Roomy, Flatten;
      close := false;
      var i := 0;
      ghost var all, seen: seq<Message> := Pending() + Flatten(chunks), [];
      ProgressStart(cfg, pol, all);
      assert chunks[0..] == chunks;
      while i < |chunks|
        invariant Valid() && RingKept() && i <= |chunks| && handled == old(handled) + seen
        invariant Progress(cfg, pol, all, seen, Pending() + Flatten(chunks[i..])) && Parse(cfg, Pending()).NeedMore?
      {
        ghost var before := Pending();
        FlattenStep(before, chunks, i);
        ProgressDrain(cfg, pol, all, seen, before + chunks[i], Flatten(chunks[i + 1..]));
        seen := seen + Effect(cfg, pol, before + chunks[i]).seen;
        close := Ingest(chunks[i]);
        if close { return; }
        EffectOfRest(cfg, pol, before + chunks[i]);
        i := i + 1;
      }
      FlattenStep(Pending(), chunks, i);
      ghost var none: seq<byte> := [];
      assert Pending() + none == Pending();
      ProgressAlone(cfg, pol, all, seen, Pending());
    }

    /** The whole-stream theorem. In-limit messages, encoded one after the other and cut anywhere into chunks
        that fit the ring, at any position of the ring counters: the handler sees exactly these messages in order,
        the bytes of an unfinished one stay in the ring, and the connection stays open. */
    method ReceiveStream(ms: seq<Message>, k: nat, chunks: seq<seq<byte>>) returns (close: bool)
      requires Valid() && !closed && Pending() == [] && forall c :: c in chunks ==> ChunkFits(rb.size, rb.maxSize, |c|)
      requires (forall m :: m in ms ==> InLimits(cfg, m)) && Openable(pol, ms)
      requires k <= |Stream(cfg, ms)| && Flatten(chunks) == Stream(cfg, ms)[..k]
      modifies this`handled, rb, rb.buf
      ensures Valid() && RingKept() && !close
      ensures exists j :: 0 <= j <= |ms| && handled == old(handled) + Opened(pol, ms[..j])
                          && Stream(cfg, ms)[..k] == Stream(cfg, ms[..j]) + Pending()
                          && (if j == |ms| then Pending() == []
                              else |Pending()| < |Encode(cfg, ms[j])| && Pending() == Encode(cfg, ms[j])[..|Pending()|])
    {
      hide Window, Ring.Sub, IsPow2, Parse, Roomy, Dispatch, Encode;
      StreamEffect(cfg, pol, ms, k);
      DecodeStream(cfg, ms, k);
      ParseEmpty(cfg);
      ghost var d := Decode(cfg, Stream(cfg, ms)[..k]);
      assert Pending() + Flatten(chunks) == Stream(cfg, ms)[..k];
      hide Decode, Effect;
      close := Receive(chunks);
      assert handled == old(handled) + Opened(pol, ms[..|d.msgs|]);
      assert Pending() == d.rest;
    }
  }

  function Flatten(chunks: seq<seq<byte>>): seq<byte> {
    if chunks == [] then [] else chunks[0] + Flatten(chunks[1..])
  }

  /** Bodies that can be opened, or whose failure is only a dropped message. */
  predicate Openable(pol: Policy, ms: seq<Message>) {
    !pol.strict || forall m :: m in ms ==> m.data == [] || pol.open(m.data).Some?
  }

  /** The messages as the handler gets them. */
  function Opened(pol: Policy, ms: seq<Message>): seq<Message> {
    Dispatch(pol, ms).seen
  }

  lemma {:induction false} OpenableNeverStops(pol: Policy, ms: seq<Message>)
    requires Openable(pol, ms)
    ensures !Dispatch(pol, ms).stop
  {
    if ms != [] {
      assert ms[0] in ms;
      OpenableNeverStops(pol, ms[1..]);
    }
  }

  /** The sender's side: every body that is not empty is encrypted. */
  function Sealed(seal: seq<byte> -> seq<byte>, ms: seq<Message>): seq<Message> {
    if ms == [] then []
    else [if ms[0].data == [] then ms[0] else ms[0].(data := seal(ms[0].data))] + Sealed(seal, ms[1..])
  }

  /** Decrypting what the sender encrypted gives the handler the sender's own messages. */
  lemma {:induction false} OpenedAreSent(pol: Policy, seal: seq<byte> -> seq<byte>, ms: seq<Message>)
    requires forall b :: pol.open(seal(b)) == Some(b) && seal(b) != []
    ensures Opened(pol, Sealed(seal, ms)) == ms && Openable(pol, Sealed(seal, ms))
  {
    if ms != [] {
      var s := Sealed(seal, ms);
      assert s[1..] == Sealed(seal, ms[1..]);
      OpenedAreSent(pol, seal, ms[1..]);
      assert pol.open(seal(ms[0].data)) == Some(ms[0].data);
      assert forall m :: m in s ==> m == s[0] || m in s[1..];
    }
  }

  /** What any beginning of a stream does. */
  lemma StreamEffect(cfg: Config, pol: Policy, ms: seq<Message>, k: nat)
    requires (forall m :: m in ms ==> InLimits(cfg, m)) && k <= |Stream(cfg, ms)| && Openable(pol, ms)
    ensures var s := Stream(cfg, ms)[..k]; var d := Decode(cfg, s);
            |d.msgs| <= |ms| && Effect(cfg, pol, s) == Outcome(Opened(pol, ms[..|d.msgs|]), false)
  {
    DecodeStream(cfg, ms, k);
    var d := Decode(cfg, Stream(cfg, ms)[..k]);
    OpenableNeverStops(pol, d.msgs);
  }

  lemma FlattenStep(before: seq<byte>, chunks: seq<seq<byte>>, i: nat)
    requires i <= |chunks|
    ensures i < |chunks| ==> before + Flatten(chunks[i..]) == before + chunks[i] + Flatten(chunks[i + 1..])
    ensures i == |chunks| ==> before + Flatten(chunks[i..]) == before + []
  {
    if i < |chunks| { assert chunks[i..][1..] == chunks[i + 1..]; }
  }

  lemma EffectOfRest(cfg: Config, pol: Policy, s: seq<byte>)
    requires !Effect(cfg, pol, s).stop
    ensures Parse(cfg, Decode(cfg, s).rest).NeedMore?
  {
    RestNeedsMore(cfg, s);
  }

  /** What is left after decoding is waiting for more. */
  lemma {:induction false} RestNeedsMore(cfg: Config, s: seq<byte>)
    requires !Decode(cfg, s).bad
    ensures Parse(cfg, Decode(cfg, s).rest).NeedMore?
    decreases |s|
  {
    if Parse(cfg, s).Parsed? { RestNeedsMore(cfg, s[Parse(cfg, s).used..]); }
  }

  /** The effect of a string and of what follows it. */
  lemma EffectPieces(cfg: Config, pol: Policy, s: seq<byte>, more: seq<byte>)
    ensures var x, d := Effect(cfg, pol, s), Decode(cfg, s);
            var y := Effect(cfg, pol, d.rest + more);
            Effect(cfg, pol, s + more) == (if x.stop then x else Outcome(x.seen + y.seen, y.stop))
    ensures !Effect(cfg, pol, s).stop ==> Decode(cfg, s + more).rest == Decode(cfg, Decode(cfg, s).rest + more).rest
  {
    var d := Decode(cfg, s);
    DecodeMore(cfg, s, more);
    DispatchMore(pol, d.msgs, Decode(cfg, d.rest + more).msgs);
    hide Decode, Dispatch;
  }
}
