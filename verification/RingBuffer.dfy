/**
 The byte ring of `znet/ringbuffer.go`: a power-of-two array with 64-bit read and write counters that are
 allowed to wrap. `Contents()` is what has been written and not read; every method is specified on it.
 */
module RingBuffer {
  import opened Prelude
  import opened PowerOfTwo
  import opened Bytes
  import opened Windows

  /** The counters are reduced modulo 2^64; sizes stay within 2^62 so that no `int` overflows. */
  const Word: nat := 0x1_0000_0000_0000_0000
  const Limit: nat := 0x4000_0000_0000_0000

  datatype Error = NoError | BufferFull | BufferEmpty | InsufficientData | ShortWrite | EOF | Failed(code: int)

  /** `a - b` on unsigned 64-bit words. */
  function Sub(a: nat, b: nat): (r: nat)
    ensures r < Word
  {
    (a - b) % Word
  }

  ghost predicate GoodSize(size: nat) {
    IsPow2(size) && size <= Limit
  }

  // ----- arithmetic of positions ----------------------------------------------------------------

  lemma LimitIsPow2()
    ensures Limit == Pow2(62) && Word == 4 * Limit
  {
    assert Pow2(10) == 1024;
    assert Pow2(20) == 1048576;
    assert Pow2(30) == 1073741824;
    assert Pow2(40) == 1099511627776;
    assert Pow2(50) == 1125899906842624;
    assert Pow2(60) == 1152921504606846976;
  }

  lemma SizeDividesWord(size: nat) returns (k: nat)
    requires GoodSize(size)
    ensures size > 0 && Word == size * k
  {
    LimitIsPow2();
    var n: nat :| size == Pow2(n);
    assert Pow2(63) == 2 * Pow2(62);
    if n >= 63 { Pow2Monotone(63, n); }
    var q := Pow2Divides(n, 62);
    k := 4 * q;
  }

  /** Reducing a counter modulo 2^64 first does not change its index. */
  lemma WrapIndex(x: nat, size: nat)
    requires GoodSize(size)
    ensures size > 0 && Index(x % Word, size) == Index(x, size)
  {
    var k := SizeDividesWord(size);
    var t, y := x / Word, x % Word;
    assert size * (k * t) == Word * t by { assert size * k * t == size * (k * t); }
    var q, r := y / size, y % size;
    assert size * (k * t + q) == size * (k * t) + size * q;
    DivModUnique(x, size, k * t + q, r);
  }

  /** A counter is its distance ahead of another one, up to one wrap. */
  lemma Distance(read: nat, write: nat)
    requires read < Word && write < Word
    ensures write == read + Sub(write, read) || write + Word == read + Sub(write, read)
  {
  }

  lemma IndexPlusWord(x: nat, size: nat)
    requires GoodSize(size)
    ensures size > 0 && Index(x + Word, size) == Index(x, size)
  {
    WrapIndex(x + Word, size);
    WrapIndex(x, size);
    assert (x + Word) % Word == x % Word;
  }

  /** A counter that has moved on by `k`: its index, and its distance to a counter behind it. */
  lemma Advanced(read: nat, write: nat, k: nat, size: nat)
    requires GoodSize(size) && read < Word && write < Word && Sub(write, read) + k < Word
    ensures size > 0 && Index((write + k) % Word, size) == Index(Index(read, size) + Sub(write, read) + k, size)
    ensures Sub((write + k) % Word, read) == Sub(write, read) + k
  {
    hide Index, GoodSize;
    WrapIndex(write + k, size);
    Distance(read, write);
    IndexPlusWord(write + k, size);
    IndexAdd(read, Sub(write, read) + k, size);
  }

  /** Moving the read counter. */
  lemma ReadAdvanced(read: nat, write: nat, k: nat, size: nat)
    requires GoodSize(size) && read < Word && write < Word && k <= Sub(write, read)
    ensures size > 0 && Index((read + k) % Word, size) == Index(Index(read, size) + k, size)
    ensures Sub(write, (read + k) % Word) == Sub(write, read) - k
  {
    hide Index, GoodSize;
    WrapIndex(read + k, size);
    IndexAdd(read, k, size);
    Distance(read, write);
  }

  // ----- the contents ---------------------------------------------------------------------------

  lemma WordId(x: nat)
    requires x < Word
    ensures (x + 0) % Word == x
  {
  }

  /** Where the contents lie, told from the two indices alone. */
  lemma Pieces(b: seq<byte>, read: nat, write: nat)
    requires GoodSize(|b|) && |b| > 0 && read < Word && write < Word && Sub(write, read) <= |b|
    ensures read == write <==> Sub(write, read) == 0
    ensures var r, w := Index(read, |b|), Index(write, |b|);
            read != write ==> Window(b, r, Sub(write, read)) == if w > r then b[r..w] else b[r..] + b[..w]
  {
    assert |b| <= Limit;
    hide Index, Window, GoodSize, Sub;
    var n := Sub(write, read);
    WordId(write);
    Distance(read, write);
    WindowPieces(b, Index(read, |b|), n);
    Advanced(read, write, 0, |b|);
    assert Index(write, |b|) == Index(Index(read, |b|) + n, |b|);
    IndexSmall(Index(read, |b|) + n, |b|);
  }

  // ----- growing --------------------------------------------------------------------------------

  /** Grow may still enlarge the array. */
  predicate Growable(size: nat, maxSize: nat) {
    maxSize == 0 || size < maxSize
  }

  /** Grow clamps to the maximum and reports success although `n` more bytes do not fit. */
  predicate ClampShort(size: nat, maxSize: nat, len: nat, n: nat) {
    size < maxSize < len + n
  }

  /** Sizes are powers of two, so the bad case needs a request larger than the whole buffer. */
  lemma NoClampWithinCapacity(size: nat, maxSize: nat, len: nat, n: nat)
    requires IsPow2(size) && IsPow2(maxSize) && len <= size && n <= size
    ensures !ClampShort(size, maxSize, len, n)
  {
    if size < maxSize { LessMeansHalf(size, maxSize); }
  }

  /** The size Grow settles on: doubled until it is enough, or the maximum. */
  ghost predicate GrownTo(old_: nat, maxSize: nat, needed: nat, size: nat) {
    && old_ < size && IsPow2(size) && (maxSize > 0 ==> size <= maxSize)
    && 2 * old_ <= size && (needed <= size || size == maxSize)
    && (size == 2 * old_ || size < 2 * needed)
  }

  /** Grow's loop: double the size until it is enough. */
  method Doubled(size: nat, needed: nat) returns (newSize: nat)
    requires GoodSize(size) && size > 0 && size < needed <= Limit
    ensures GoodSize(newSize) && 2 * size <= newSize && needed <= newSize && (newSize == 2 * size || newSize < 2 * needed)
  {
    newSize := size * 2;
    DoublePow2(size);
    while newSize < needed
      invariant IsPow2(newSize) && 2 * size <= newSize && (newSize == 2 * size || newSize < 2 * needed)
    {
      DoublePow2(newSize);
      newSize := newSize * 2;
    }
    LimitIsPow2();
    if newSize > Limit { LessMeansHalf(Limit, newSize); }
    if newSize == 2 * size { LessMeansHalf(size, Limit); }
  }

  method Copied(size: nat, first: seq<byte>, second: seq<byte>) returns (a: array<byte>)
    requires |first| + |second| <= size
    ensures fresh(a) && a.Length == size && a[..|first| + |second|] == first + second
  {
    a := new byte[size](_ => 0);
    forall i | 0 <= i < |first| { a[i] := first[i]; }
    forall i | 0 <= i < |second| { a[|first| + i] := second[i]; }
  }

  /** Contents that start at the beginning of the array. */
  lemma FromZero(b: seq<byte>, n: nat)
    requires 0 < |b| < Word && n <= |b|
    ensures Window(b, Index(0, |b|), n) == b[..n] && Sub(n, 0) == n
  {
    IndexSmall(0, |b|);
    WindowPieces(b, 0, n);
  }

  // ----- the io.Reader side ---------------------------------------------------------------------

  /** One answer of a reader that is given room for some bytes: it may use all of the room as scratch space,
      and says how many bytes at its beginning are data. */
  datatype Answer = Answer(fill: seq<byte>, n: nat, err: Error)

  /** Any reader: the answer to the i-th call with the given room. */
  type Reader = (nat, nat) -> Answer

  ghost predicate Obeys(r: Reader) {
    forall i, room :: |r(i, room).fill| == room && r(i, room).n <= room
  }

  /** What one WriteFromReader takes from the reader: up to `first` bytes before the end of the array, and
      if these came in full without an error, up to `room - first` more. */
  function Taken(r: Reader, first: nat, room: nat): (res: (seq<byte>, Error))
    requires Obeys(r) && first <= room
    ensures |res.0| <= room
  {
    var a := r(0, first);
    if a.n == first < room && a.err.NoError? then
      var b := r(1, room - first);
      (a.fill[..a.n] + b.fill[..b.n], b.err)
    else (a.fill[..a.n], a.err)
  }

  /** A reader at the front of the bytes `d` that gives all it has room for, in one read or in two. */
  ghost predicate Streams(r: Reader, d: seq<byte>, first: nat)
    requires Obeys(r)
  {
    && (var a := r(0, first); a.n == Min(first, |d|) && a.fill[..a.n] == d[..a.n] && a.err.NoError?)
    && forall k {:trigger r(1, k)} :: first <= |d| ==>
         var b := r(1, k); b.n == Min(k, |d| - first) && b.fill[..b.n] == d[first..first + b.n] && b.err.NoError?
  }

  /** Where the end of the array is makes no difference to what is taken: as much as there is room for, in order. */
  lemma TakenFromStream(r: Reader, d: seq<byte>, first: nat, room: nat)
    requires Obeys(r) && Streams(r, d, first) && first <= room
    ensures Taken(r, first, room) == (d[..Min(room, |d|)], NoError)
  {
    var a, b := r(0, first), r(1, room - first);
    if a.n == first < room {
      assert d[..first] + d[first..first + b.n] == d[..first + b.n];
    }
  }

  /** Appending to the contents by moving the write counter over freshly written bytes. */
  lemma Appended(b: seq<byte>, read: nat, write: nat, p: seq<byte>, n: nat)
    requires GoodSize(|b|) && |b| > 0 && read < Word && write < Word && Sub(write, read) + |p| <= |b| && n <= |p|
    ensures Sub((write + n) % Word, read) == Sub(write, read) + n
    ensures Window(Overwritten(b, Index(write, |b|), p), Index(read, |b|), Sub(write, read) + n)
            == Window(b, Index(read, |b|), Sub(write, read)) + p[..n]
  {
    hide Index, Window, Sub;
    assert |b| <= Limit;
    hide GoodSize;
    var start, len := Index(read, |b|), Sub(write, read);
    Advanced(read, write, 0, |b|);
    Advanced(read, write, n, |b|);
    WordId(write);
    WriteAppends(b, start, len, p);
    var b' := Overwritten(b, Index(write, |b|), p);
    assert Window(b', start, len + n) == Window(b', start, len + |p|)[..len + n];
  }

  class RingBuffer {
    var buf: array<byte>
    var size: nat
    var read: nat
    var write: nat
    var maxSize: nat

    ghost predicate Valid()
      reads this
    {
      && buf.Length == size && GoodSize(size) && size > 0 && read < Word && write < Word
      && Sub(write, read) <= size && (maxSize == 0 || IsPow2(maxSize))
    }

    function Len(): nat
      reads this
    {
      Sub(write, read)
    }

    /** What has been written and not read. */
    ghost function Contents(): (s: seq<byte>)
      reads this, buf
      requires Valid()
      ensures |s| == Len()
    {
      Window(buf[..], Index(read, size), Len())
    }

    /** `NewRingBuffer`; negative sizes, which wrap to huge unsigned ones, are not modelled. */
    constructor (wanted: nat, max: int)
      requires wanted <= Limit && max <= Limit
      ensures Valid() && Contents() == [] && fresh(buf)
      ensures size == NextPowerOfTwo64(wanted) && maxSize == if max > 0 then NextPowerOfTwo64(max) else 0
    {
      LimitIsPow2();
      var n := NextPowerOfTwo64(wanted);
      if wanted > 0 { NextPowerOfTwoLeast(wanted, 62); }
      if max > 0 { NextPowerOfTwoLeast(max, 62); }
      assert Pow2(0) == 1;
      buf := new byte[n](_ => 0);
      size, read, write := n, 0, 0;
      maxSize := if max > 0 then NextPowerOfTwo64(max) else 0;
    }

    method Reset()
      requires Valid()
      modifies this`read, this`write, buf
      ensures Valid() && Contents() == []
      ensures forall i :: 0 <= i < buf.Length ==> buf[i] == 0
    {
      read, write := 0, 0;
      forall i | 0 <= i < buf.Length { buf[i] := 0; }
    }

    /** `PeekAll`: the contents in the two pieces in which they lie. */
    method PeekAll() returns (first: seq<byte>, second: seq<byte>)
      requires Valid()
      ensures first + second == Contents() && (Len() > 0 ==> first != [])
    {
      hide Index, Window, GoodSize, Sub;
      Pieces(buf[..], read, write);
      if read == write { return [], []; }
      var r, w := Index(read, size), Index(write, size);
      if w > r { first, second := buf[r..w], []; } else { first, second := buf[r..], buf[..w]; }
    }

    /** `Grow`: never beyond the maximum, contents kept. It answers yes exactly when there was room already or
        the size may still grow, and then there is room for `n` more bytes unless it had to clamp. */
    method Grow(n: nat) returns (ok: bool)
      requires Valid() && Len() + n <= Limit
      modifies this
      ensures Valid() && Contents() == old(Contents()) && maxSize == old(maxSize)
      ensures ok <==> old(size - Len() >= n || Growable(size, maxSize))
      ensures ok ==> (size - Len() >= n <==> !ClampShort(old(size), maxSize, old(Len()), n))
      ensures if ok && old(size - Len()) < n then GrownTo(old(size), maxSize, Len() + n, size) && fresh(buf)
              else buf == old(buf) && size == old(size) && read == old(read) && write == old(write)
    {
      if size - Len() >= n { return true; }
      hide Window, Index;
      var needed := Len() + n;
      var newSize := Doubled(size, needed);
      if maxSize > 0 && newSize > maxSize {
        if maxSize > size { LessMeansHalf(size, maxSize); newSize := maxSize; } else { return false; }
      }
      hide IsPow2;
      var first, second := PeekAll();
      var newBuf := Copied(newSize, first, second);
      var len := Len();
      FromZero(newBuf[..], len);
      buf, size, read, write := newBuf, newSize, 0, len;
      ok := true;
    }

    /** `Write`. Everything is written unless the ring may not grow any more; then what fits is. In the one case
        where Grow clamps short the code overruns its own contents and leaves a ring that is not valid. */
    method Write(p: seq<byte>) returns (n: nat, err: Error)
      requires Valid() && Len() + |p| <= Limit
      modifies this, buf
      ensures (buf == old(buf) || fresh(buf)) && maxSize == old(maxSize)
      ensures !ClampShort(old(size), maxSize, old(Len()), |p|) ==>
                && Valid() && n <= |p| && Contents() == old(Contents()) + p[..n]
                && n == (if old(size - Len()) >= |p| || Growable(old(size), maxSize) then |p| else old(size - Len()))
                && err == (if n == |p| then NoError else if n > 0 then ShortWrite else BufferFull)
      ensures ClampShort(old(size), maxSize, old(Len()), |p|) ==> n == |p| && err.NoError? && Len() > size && !Valid()
      ensures if old(size - Len()) >= |p| || !Growable(old(size), maxSize) then size == old(size)
              else GrownTo(old(size), maxSize, old(Len()) + |p|, size)
    {
      hide Window, Index, Sub, IsPow2, Overwritten;
      if |p| == 0 { assert p[..0] == []; return 0, NoError; }
      var q := p;
      if size - Len() < |p| {
        var ok := Grow(|p|);
        if !ok {
          if size == Len() { assert p[..0] == []; return 0, BufferFull; }
          q := p[..size - Len()];
        }
      }
      assert q == p[..|q|];
      ghost var b := buf[..];
      if Len() + |q| <= size { Appended(b, read, write, q, |q|); assert q[..|q|] == q; }
      Advanced(read, write, |q|, size);
      CopyAround(buf, Index(write, size), q);
      write := (write + |q|) % Word;
      n, err := |q|, if |q| < |p| then ShortWrite else NoError;
    }

    /** The part of `WriteFromReader` after growing: one answer of the reader, or two around the end of the array. */
    method TakeFrom(r: Reader, room: nat) returns (n: nat, err: Error, ghost first: nat)
      requires Valid() && Obeys(r) && 0 < room <= size - Len()
      modifies this`write, buf
      ensures Valid() && 0 < first <= room
      ensures Contents() == old(Contents()) + Taken(r, first, room).0 && n == |Taken(r, first, room).0| && err == Taken(r, first, room).1
    {
      hide Window, Index, Sub, GoodSize, Overwritten;
      var pos := Index(write, size);
      ghost var b := buf[..];
      var k := if pos + room <= size then room else size - pos;
      first := k;
      var a := r(0, k);
      n, err := a.n, a.err;
      Appended(b, read, write, a.fill, n);
      CopyAround(buf, pos, a.fill);
      if a.n == k < room && err == NoError {
        var c := r(1, room - k);
        AppendedTwice(b, read, write, a.fill, c.fill, c.n);
        CopyAround(buf, 0, c.fill);
        n, err := n + c.n, c.err;
        assert a.fill[..a.n] == a.fill;
      }
      write := (write + n) % Word;
    }

    /** `WriteFromReader`: a full ring first grows; then what the reader answers is appended. EOF is held back
        when there was data. */
    method WriteFromReader(r: Reader, maxRead: int) returns (n: nat, err: Error, ghost first: nat, ghost room: nat)
      requires Valid() && Obeys(r) && Len() + 4096 <= Limit
      modifies this, buf
      ensures Valid() && (buf == old(buf) || fresh(buf)) && maxSize == old(maxSize)
      ensures if old(Len() == size && !Growable(size, maxSize)) then
                n == 0 && err.BufferFull? && Contents() == old(Contents()) && size == old(size)
              else
                && 0 < first <= room == (if 0 < maxRead < size - old(Len()) then maxRead else size - old(Len()))
                && Contents() == old(Contents()) + Taken(r, first, room).0 && n == |Taken(r, first, room).0|
                && err == (if n > 0 && Taken(r, first, room).1.EOF? then NoError else Taken(r, first, room).1)
      ensures old(Len()) < old(size) ==> size == old(size)
    {
      hide Window, Index, Sub, IsPow2, Taken;
      first, room := 0, 0;
      if Len() == size {
        var ok := Grow(4096);
        if !ok { return 0, BufferFull, 0, 0; }
      }
      var free := size - Len();
      if maxRead > 0 && maxRead < free { free := maxRead; }
      room := free;
      n, err, first := TakeFrom(r, free);
      if n > 0 && err == EOF { err := NoError; }
    }

    /** `Read`: the oldest bytes move to `p`. */
    method Read(p: array<byte>) returns (n: nat, err: Error)
      requires Valid() && p != buf
      modifies this`read, p
      ensures if old(Len()) == 0 then n == 0 && err.EOF? else n == Min(p.Length, old(Len())) && err.NoError?
      ensures Valid() && Contents() == old(Contents())[n..]
      ensures p[..n] == old(Contents())[..n] && p[n..] == old(p[n..])
    {
      hide Window, Index, Sub, GoodSize;
      Pieces(buf[..], read, write);
      if read == write { return 0, EOF; }
      n, err := Min(p.Length, Len()), NoError;
      var pos := Index(read, size);
      WindowPieces(buf[..], pos, n);
      WindowEnds(buf[..], pos, Len(), n);
      Dropped(buf[..], read, write, n);
      CopyOut(buf, pos, p, n);
      read := (read + n) % Word;
    }

    /** `Discard`: the oldest `n` bytes are dropped, or nothing if there are fewer. */
    method Discard(n: nat) returns (err: Error)
      requires Valid()
      modifies this`read
      ensures Valid() && err == (if n <= old(Len()) then NoError else InsufficientData)
      ensures Contents() == if n <= old(Len()) then old(Contents())[n..] else old(Contents())
    {
      hide Window, Index, Sub, GoodSize;
      if n > Len() { return InsufficientData; }
      Dropped(buf[..], read, write, n);
      read := (read + n) % Word;
      err := NoError;
    }

    /** `Peek`: a prefix of the contents, as long as asked for unless the array ends before. */
    method Peek(n: nat) returns (s: seq<byte>, err: Error)
      requires Valid()
      ensures err == if Len() == 0 then BufferEmpty else NoError
      ensures |s| == Min(Min(n, Len()), size - Index(read, size)) && s == Contents()[..|s|]
    {
      hide Window, Index, Sub, GoodSize;
      Pieces(buf[..], read, write);
      if read == write { return [], BufferEmpty; }
      var m := Min(n, Len());
      var pos := Index(read, size);
      err := NoError;
      WindowPieces(buf[..], pos, m);
      assert Window(buf[..], pos, m) == Contents()[..m];
      if pos + m <= size { s := buf[pos..pos + m]; } else { s := buf[pos..size]; }
    }

    /** `PeekTwoSlices`: any part of the contents, in at most two pieces. */
    method PeekTwoSlices(offset: nat, length: nat) returns (first: seq<byte>, second: seq<byte>, err: Error)
      requires Valid()
      ensures if Len() < offset + length then first == second == [] && err.InsufficientData?
              else first + second == Contents()[offset..offset + length] && err.NoError?
    {
      hide Window, Index, Sub, GoodSize;
      if Len() < offset + length { return [], [], InsufficientData; }
      Slice(buf[..], read, write, offset, length);
      var pos := Index((read + offset) % Word, size);
      WindowPieces(buf[..], pos, length);
      err := NoError;
      if pos + length <= size { first, second := buf[pos..pos + length], []; }
      else { first, second := buf[pos..size], buf[..length - (size - pos)]; }
    }

    /** `PeekBytes`: any part of the contents in one piece, copied if it lies around the end of the array. */
    method PeekBytes(offset: nat, length: nat) returns (s: seq<byte>, err: Error)
      requires Valid()
      ensures if Len() < offset + length then s == [] && err.InsufficientData?
              else s == Contents()[offset..offset + length] && err.NoError?
    {
      hide Window, Index, Sub, GoodSize;
      if Len() < offset + length { return [], InsufficientData; }
      Slice(buf[..], read, write, offset, length);
      var pos := Index((read + offset) % Word, size);
      WindowPieces(buf[..], pos, length);
      err := NoError;
      if pos + length <= size { s := buf[pos..pos + length]; }
      else { s := buf[pos..size] + buf[..length - (size - pos)]; }
    }

    /** `PeekByte`. */
    method PeekByte(offset: nat) returns (v: byte, err: Error)
      requires Valid()
      ensures if Len() < offset + 1 then v == 0 && err.InsufficientData? else v == Contents()[offset] && err.NoError?
    {
      hide Window, Index, Sub, GoodSize;
      if Len() < offset + 1 { return 0, InsufficientData; }
      Slice(buf[..], read, write, offset, 1);
      WindowPieces(buf[..], Index((read + offset) % Word, size), 1);
      assert Contents()[offset..offset + 1][0] == Contents()[offset];
      v, err := buf[Index((read + offset) % Word, size)], NoError;
    }

    /** `PeekUint32BE`. */
    method PeekUint32BE(offset: nat) returns (v: nat, err: Error)
      requires Valid()
      ensures if Len() < offset + 4 then v == 0 && err.InsufficientData?
              else v == BigEndian(Contents()[offset..offset + 4]) && err.NoError?
    {
      hide Window, Index, Sub, GoodSize;
      if Len() < offset + 4 { return 0, InsufficientData; }
      var pos := Index((read + offset) % Word, size);
      Slice(buf[..], read, write, offset, 4);
      err := NoError;
      if pos + 4 <= size {
        WindowPieces(buf[..], pos, 4);
        SmallWords(buf[pos..pos + 4]);
        v := buf[pos] as int * 0x1000000 + buf[pos + 1] as int * 0x10000 + buf[pos + 2] as int * 0x100 + buf[pos + 3] as int;
      } else {
        v := ShiftIn(pos, 0, Contents()[offset..offset + 4]);
      }
    }

    /** Four rounds of `v = v<<8 | b`, for a word around the end of the array. */
    method ShiftIn(pos: nat, from: nat, ghost s: seq<byte>) returns (v: nat)
      requires Valid() && |s| == 4 && forall i :: 0 <= i < 4 ==> s[i] == At(buf[..], pos, from + i)
      ensures v == BigEndian(s)
    {
      hide Index, Sub, GoodSize;
      v := 0;
      var i := 0;
      while i < 4
        invariant 0 <= i <= 4 && v == BigEndian(s[..i])
      {
        assert s[i] == At(buf[..], pos, from + i);
        assert s[..i + 1][..i] == s[..i];
        v := v * 256 + buf[Index(pos + (from + i), size)] as int;
        i := i + 1;
      }
      assert s[..4] == s;
    }

    /** `PeekHeader12`: three words at once; the caller has checked the length. */
    method PeekHeader12(offset: nat) returns (a: nat, b: nat, c: nat)
      requires Valid() && offset + 12 <= Len()
      ensures a == BigEndian(Contents()[offset..offset + 4])
      ensures b == BigEndian(Contents()[offset + 4..offset + 8])
      ensures c == BigEndian(Contents()[offset + 8..offset + 12])
    {
      hide Window, Index, Sub, GoodSize, BigEndian;
      var pos := Index((read + offset) % Word, size);
      Slice(buf[..], read, write, offset, 12);
      ghost var s := Contents()[offset..offset + 12];
      assert s[0..4] == Contents()[offset..offset + 4] && s[4..8] == Contents()[offset + 4..offset + 8]
             && s[8..12] == Contents()[offset + 8..offset + 12];
      if pos + 12 <= size {
        WindowPieces(buf[..], pos, 12);
        var w := buf[pos..pos + 12];
        assert w == s;
        HeaderWords(s);
        a := w[0] as int * 0x1000000 + w[1] as int * 0x10000 + w[2] as int * 0x100 + w[3] as int;
        b := w[4] as int * 0x1000000 + w[5] as int * 0x10000 + w[6] as int * 0x100 + w[7] as int;
        c := w[8] as int * 0x1000000 + w[9] as int * 0x10000 + w[10] as int * 0x100 + w[11] as int;
      } else {
        a := ShiftIn(pos, 0, s[0..4]);
        b := ShiftIn(pos, 4, s[4..8]);
        c := ShiftIn(pos, 8, s[8..12]);
      }
    }
  }

  lemma HeaderWords(s: seq<byte>)
    requires |s| == 12
    ensures BigEndian(s[0..4]) == s[0] as int * 0x1000000 + s[1] as int * 0x10000 + s[2] as int * 0x100 + s[3] as int
    ensures BigEndian(s[4..8]) == s[4] as int * 0x1000000 + s[5] as int * 0x10000 + s[6] as int * 0x100 + s[7] as int
    ensures BigEndian(s[8..12]) == s[8] as int * 0x1000000 + s[9] as int * 0x10000 + s[10] as int * 0x100 + s[11] as int
  {
    hide BigEndian;
    SmallWords(s[0..4]);
    SmallWords(s[4..8]);
    SmallWords(s[8..12]);
  }

  lemma Dropped(b: seq<byte>, read: nat, write: nat, n: nat)
    requires GoodSize(|b|) && |b| > 0 && read < Word && write < Word && n <= Sub(write, read) <= |b|
    ensures Sub(write, (read + n) % Word) == Sub(write, read) - n
    ensures Window(b, Index((read + n) % Word, |b|), Sub(write, read) - n) == Window(b, Index(read, |b|), Sub(write, read))[n..]
  {
    hide Index, Window, GoodSize, Sub;
    ReadAdvanced(read, write, n, |b|);
    WindowSlice(b, Index(read, |b|), Sub(write, read), n, Sub(write, read) - n);
    var w := Window(b, Index(read, |b|), Sub(write, read));
    assert w[n..|w|] == w[n..];
  }

  lemma Slice(b: seq<byte>, read: nat, write: nat, offset: nat, length: nat)
    requires GoodSize(|b|) && |b| > 0 && read < Word && write < Word && offset + length <= Sub(write, read) <= |b|
    ensures Window(b, Index((read + offset) % Word, |b|), length) == Window(b, Index(read, |b|), Sub(write, read))[offset..offset + length]
  {
    hide Index, Window, GoodSize, Sub;
    ReadAdvanced(read, write, offset, |b|);
    WindowSlice(b, Index(read, |b|), Sub(write, read), offset, length);
  }

  /** The second answer goes to the beginning of the array. */
  lemma AppendedTwice(b: seq<byte>, read: nat, write: nat, p: seq<byte>, q: seq<byte>, n: nat)
    requires GoodSize(|b|) && |b| > 0 && read < Word && write < Word && Sub(write, read) + |p| + |q| <= |b| && n <= |q|
    requires Index(write, |b|) + |p| == |b|
    ensures Sub((write + |p| + n) % Word, read) == Sub(write, read) + |p| + n
    ensures Window(Overwritten(Overwritten(b, Index(write, |b|), p), 0, q), Index(read, |b|), Sub(write, read) + |p| + n)
            == Window(b, Index(read, |b|), Sub(write, read)) + (p + q[..n])
  {
    hide Index, Window, GoodSize, Overwritten, Sub;
    var w, b' := (write + |p|) % Word, Overwritten(b, Index(write, |b|), p);
    Appended(b, read, write, p, |p|);
    assert p[..|p|] == p;
    WrapIndex(write + |p|, |b|);
    IndexAdd(write, |p|, |b|);
    IndexSmall(|b|, |b|);
    assert Index(w, |b|) == 0;
    Appended(b', read, w, q, n);
    WordAdd(write + |p|, n);
  }

  lemma WordAdd(x: nat, n: nat)
    ensures (x % Word + n) % Word == (x + n) % Word
  {
    IndexAdd(x, n, Word);
  }
}
