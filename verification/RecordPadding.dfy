/**
 Block padding of the record layer (section 6.2.3.2 of RFC 5246) in `zgmtls/conn.go`: the check that takes the
 same time for every content, and the padding it accepts.
 */
module RecordPadding {
  import opened Bytes
  import opened Prelude

  /** The plain definition: the last byte p is followed backwards by p more of its kind. */
  ghost predicate PaddingOk(payload: seq<byte>) {
    && payload != []
    && var n, p := |payload|, payload[|payload| - 1] as int;
       p + 1 <= n && forall k :: n - 1 - p <= k < n ==> payload[k] as int == p
  }

  // ----- words and bits -------------------------------------------------------------------------

  const Word64: int := 0x1_0000_0000_0000_0000

  /** `byte(int32(^t) >> 31)` for a 64-bit t: the sign of the low 32 bits of the complement, eight times. */
  function SignOfComplement(t: int): bv8
    requires 0 <= t < Word64
  {
    if (Word64 - 1 - t) % 0x1_0000_0000 >= 0x8000_0000 then 255 else 0
  }

  /** For differences of small numbers it tells whether the difference wrapped around. */
  lemma SignTellsOrder(a: int, b: int)
    requires 0 <= a < 0x8000_0000 && 0 <= b < 0x8000_0000
    ensures 0 <= (a - b) % Word64 < Word64
    ensures SignOfComplement((a - b) % Word64) == if b <= a then 255 else 0
  {
    if b <= a { assert (a - b) % Word64 == a - b; } else { assert (a - b) % Word64 == a - b + Word64; }
  }

  /** The bits of a byte. */
  function Bits(a: nat): bv8 {
    if a == 0 then 0 else if a % 2 == 0 then Bits(a / 2) * 2 else Bits(a / 2) * 2 + 1
  }

  lemma Doubled(v: bv8)
    requires v as int < 128
    ensures (v * 2) as int == 2 * (v as int) && (v * 2 + 1) as int == 2 * (v as int) + 1
  {
    assert v < 128;
  }

  lemma {:induction false} BitsBack(a: nat)
    requires a < 256
    ensures Bits(a) as int == a
  {
    if a > 0 {
      BitsBack(a / 2);
      Doubled(Bits(a / 2));
    }
  }

  lemma SameBits(a: byte, b: byte)
    ensures Bits(a) == Bits(b) <==> a == b
  {
    BitsBack(a);
    BitsBack(b);
  }

  /** One round of the loop clears a bit of `good` exactly when the byte is inside the padding and wrong. */
  lemma RoundKeeps(good: bv8, mask: bv8, p: bv8, b: bv8)
    requires mask == 0 || mask == 255
    ensures good & !((mask & p) ^ (mask & b)) == 255 <==> good == 255 && (mask == 0 || p == b)
  {
  }

  /** The body of the loop: `good &^= mask&paddingLen ^ mask&b`. */
  function Round(good: bv8, p: byte, b: byte, i: nat): bv8 {
    var t := (p as int - i) % Word64;
    var mask := SignOfComplement(t);
    good & !((mask & Bits(p)) ^ (mask & Bits(b)))
  }

  lemma RoundOk(good: bv8, p: byte, b: byte, i: nat)
    requires i <= 256
    ensures Round(good, p, b, i) == 255 <==> good == 255 && (i > p as int || b == p)
  {
    SignTellsOrder(p as int, i);
    SameBits(p, b);
    RoundKeeps(good, SignOfComplement((p as int - i) % Word64), Bits(p), Bits(b));
  }

  /** The last four lines spread the verdict over the whole byte. */
  function Spread(good: bv8): bv8 {
    var a := good & (good << 4);
    var b := a & (a << 2);
    var c := b & (b << 1);
    if c >= 128 then 255 else 0
  }

  lemma SpreadIs(good: bv8)
    ensures Spread(good) == if good == 255 then 255 else 0
  {
  }

  // ----- the check ------------------------------------------------------------------------------

  /** `extractPadding`: 255 exactly for valid padding and 0 otherwise, for every payload below 2^31 bytes. */
  method ExtractPadding(payload: seq<byte>) returns (toRemove: nat, good: bv8)
    requires |payload| < 0x8000_0000
    ensures good == if PaddingOk(payload) then 255 else 0
    ensures toRemove == if payload == [] then 0 else payload[|payload| - 1] as int + 1
  {
    if |payload| < 1 { return 0, 0; }
    var n := |payload|;
    var p := payload[n - 1];
    SignTellsOrder(n - 1, p as int);
    hide Round, Spread;
    good := SignOfComplement((n - 1 - p as int) % Word64);
    ghost var fits := p as int + 1 <= n;
    var toCheck := 256;
    if toCheck > n { toCheck := n; }
    var i := 0;
    while i < toCheck
      invariant 0 <= i <= toCheck
      invariant good == 255 <==> fits && forall k :: n - i <= k < n && n - 1 - p as int <= k ==> payload[k] == p
    {
      RoundOk(good, p, payload[n - 1 - i], i);
      good := Round(good, p, payload[n - 1 - i], i);
      i := i + 1;
    }
    SpreadIs(good);
    good := Spread(good);
    toRemove := p as int + 1;
  }

  /** `extractPaddingSSL30`: the contents are not checked. */
  method ExtractPaddingSSL30(payload: seq<byte>) returns (toRemove: nat, good: bv8)
    ensures if payload != [] && payload[|payload| - 1] as int + 1 <= |payload|
            then toRemove == payload[|payload| - 1] as int + 1 && good == 255 else toRemove == 0 && good == 0
  {
    if |payload| < 1 { return 0, 0; }
    var paddingLen := payload[|payload| - 1] as int + 1;
    if paddingLen > |payload| { return 0, 0; }
    return paddingLen, 255;
  }

  /** The padding that belongs behind a payload. */
  function Padding(n: nat, blockSize: nat): seq<byte> {
    if !(0 < blockSize <= 256) then []
    else var k := blockSize - Index(n, blockSize); seq(k, i => (k - 1) as byte)
  }

  /** `padToBlockSize`: whole blocks, the last of them completed with padding. */
  method PadToBlockSize(payload: seq<byte>, blockSize: nat) returns (prefix: seq<byte>, finalBlock: seq<byte>)
    requires 0 < blockSize <= 256
    ensures prefix + finalBlock == payload + Padding(|payload|, blockSize)
    ensures |finalBlock| == blockSize && |prefix| == |payload| - Index(|payload|, blockSize)
  {
    var overrun := Index(|payload|, blockSize);
    IndexAtMost(|payload|, blockSize);
    var paddingLen := blockSize - overrun;
    prefix := payload[..|payload| - overrun];
    var block := new byte[blockSize](_ => 0);
    forall i | 0 <= i < overrun { block[i] := payload[|payload| - overrun + i]; }
    var i := overrun;
    while i < blockSize
      invariant overrun <= i <= blockSize
      invariant block[..overrun] == payload[|payload| - overrun..]
      invariant forall j :: overrun <= j < i ==> block[j] as int == paddingLen - 1
    {
      block[i] := (paddingLen - 1) as byte;
      i := i + 1;
    }
    finalBlock := block[..];
    assert block[..] == block[..overrun] + Padding(|payload|, blockSize);
  }

  lemma IndexAtMost(n: nat, m: nat)
    requires m > 0
    ensures Index(n, m) <= n && exists q: nat :: n - Index(n, m) == m * q
  {
    assert n == m * (n / m) + n % m;
    assert m * (n / m) >= 0;
  }

  /** What padToBlockSize puts at the end is always accepted, with its own length, and fills whole blocks. */
  lemma PaddingAccepted(payload: seq<byte>, blockSize: nat)
    requires 0 < blockSize <= 256
    ensures var s := payload + Padding(|payload|, blockSize);
            && PaddingOk(s) && s[|s| - 1] as int + 1 == |Padding(|payload|, blockSize)|
            && |s| % blockSize == 0
  {
    var n, k := |payload|, blockSize - Index(|payload|, blockSize);
    IndexAtMost(n, blockSize);
    var q: nat :| n - Index(n, blockSize) == blockSize * q;
    assert n + k == blockSize * (q + 1);
    DivModUnique(n + k, blockSize, q + 1, 0);
  }
}
