/**
 The affine obfuscation of ids in `zencrypt/linear.go`: encryption with big integers, decryption in int64 with
 an inverse from the extended Euclidean algorithm. For every modulus: exactly when decryption undoes encryption.
 */
module Affine {
  import opened Prelude
  import opened PowerOfTwo

  const Max64: int := 0x7fff_ffff_ffff_ffff
  const Word: int := 0x1_0000_0000_0000_0000

  predicate Fits(x: int) {
    -Max64 - 1 <= x <= Max64
  }

  /** What int64 arithmetic leaves of a result. */
  function Wrap(x: int): int {
    var u := x % Word;
    if u > Max64 then u - Word else u
  }

  lemma WrapExact(x: int)
    requires Fits(x)
    ensures Wrap(x) == x
  {
  }

  /** The remainder of the language: it has the sign of the dividend. */
  function Rem(a: int, m: int): int
    requires m > 0
  {
    if a >= 0 then a % m else -((-a) % m)
  }

  // ----- parseId --------------------------------------------------------------------------------

  /** `parseId` on unbounded integers: the greatest common divisor, and factors that combine to it. */
  function ExtGcd(a: nat, b: nat): (r: (nat, int, int))
    decreases a
  {
    if a == 0 then (b, 0, 1)
    else var (g, x, y) := ExtGcd(Index(b, a), a); (g, y - Quot(b, a) * x, x)
  }

  /** `b / a`; the remainder `b % a` is `Index(b, a)`. */
  function Quot(b: nat, a: nat): nat
    requires a > 0
  {
    b / a
  }

  lemma Division(b: nat, a: nat)
    requires a > 0
    ensures b == a * Quot(b, a) + Index(b, a)
  {
  }

  /** `parseId` as it is computed: every operation in int64. */
  function ParseId(a: nat, b: nat): (int, int, int)
    decreases a
  {
    if a == 0 then (b, 0, 1)
    else var (g, x, y) := ParseId(Index(b, a), a); (g, Wrap(y - Wrap(Quot(b, a) * x)), x)
  }

  function Larger(a: nat, b: nat): nat { if a < b then b else a }

  function Abs(x: int): nat { if x < 0 then -x else x }

  lemma MulBound(q: nat, x: int, a: nat)
    requires Abs(x) <= a
    ensures Abs(q * x) <= q * a
  {
    if x >= 0 {
      assert q * a == q * x + q * (a - x);
    } else {
      assert q * a == q * -x + q * (a + x);
      assert q * -x == -(q * x);
    }
  }

  /** Bezout's identity. */
  lemma {:induction false} Bezout(a: nat, b: nat)
    ensures var (g, x, y) := ExtGcd(a, b); a * x + b * y == g
    decreases a
  {
    if a > 0 {
      hide Quot, Index;
      Bezout(Index(b, a), a);
      Division(b, a);
      var (g, x, y) := ExtGcd(Index(b, a), a);
      BezoutStep(a, b, Quot(b, a), Index(b, a), x, y, g);
    }
  }

  lemma BezoutStep(a: int, b: int, q: int, r: int, x: int, y: int, g: int)
    requires b == a * q + r && r * x + a * y == g
    ensures a * (y - q * x) + b * x == g
  {
    assert a * (y - q * x) == a * y - a * (q * x);
    assert b * x == (a * q) * x + r * x;
    assert a * (q * x) == (a * q) * x;
  }

  /** The factors stay as small as the arguments, at every level of the recursion. */
  lemma {:induction false} FactorsSmall(a: nat, b: nat)
    ensures var (g, x, y) := ExtGcd(a, b); Abs(x) <= Larger(1, b) && Abs(y) <= Larger(1, a)
    decreases a
  {
    if a > 0 {
      hide Quot, Index;
      var q, r := Quot(b, a), Index(b, a);
      FactorsSmall(r, a);
      Division(b, a);
      var (g, x, y) := ExtGcd(r, a);
      assert ExtGcd(a, b) == (g, y - q * x, x);
      assert r == 0 ==> x == 0 && y == 1;
      hide ExtGcd;
      StepSmall(a, b, q, r, x, y);
    }
  }

  /** More exactly, they are at most half as large. */
  lemma {:induction false} FactorsHalf(a: nat, b: nat)
    requires a > 0 && b >= 2
    ensures var (g, x, y) := ExtGcd(a, b); 2 * Abs(x) <= b && 2 * Abs(y) <= a
    decreases a
  {
    hide Quot, Index;
    var q, r := Quot(b, a), Index(b, a);
    Division(b, a);
    var (g, x, y) := ExtGcd(r, a);
    assert ExtGcd(a, b) == (g, y - q * x, x);
    if r > 0 {
      FactorsHalf(r, a);
      hide ExtGcd;
      HalfStep(a, b, q, r, x, y);
    } else {
      assert q * x == 0 by { assert x == 0; }
    }
  }

  lemma HalfStep(a: nat, b: nat, q: nat, r: nat, x: int, y: int)
    requires b == a * q + r && 2 * Abs(x) <= a && 2 * Abs(y) <= r
    ensures 2 * Abs(y - q * x) <= b
  {
    MulBound(q, 2 * x, a);
    assert q * (2 * x) == 2 * (q * x);
  }

  lemma StepSmall(a: nat, b: nat, q: nat, r: nat, x: int, y: int)
    requires a > 0 && b == a * q + r && r < a && Abs(x) <= a && Abs(y) <= Larger(1, r) && (r == 0 ==> x == 0 && y == 1)
    ensures Abs(q * x) <= b && Abs(y - q * x) <= Larger(1, b)
  {
    MulBound(q, x, a);
    assert x == 0 ==> q * x == 0;
  }

  /** Nothing overflows in parseId, for all arguments an int64 can hold. */
  lemma {:induction false} ParseIdExact(a: nat, b: nat)
    requires a <= Max64 && b <= Max64
    ensures ParseId(a, b) == ExtGcd(a, b)
    decreases a
  {
    if a > 0 {
      hide Quot, Index, Wrap;
      var q, r := Quot(b, a), Index(b, a);
      ParseIdExact(r, a);
      FactorsSmall(r, a);
      Division(b, a);
      var (g, x, y) := ExtGcd(r, a);
      assert ExtGcd(a, b) == (g, y - q * x, x) && ParseId(a, b) == (g, Wrap(y - Wrap(q * x)), x);
      assert r == 0 ==> x == 0 && y == 1;
      hide ExtGcd, ParseId;
      StepSmall(a, b, q, r, x, y);
      WrapExact(q * x);
      WrapExact(y - q * x);
    }
  }

  // ----- gcd ------------------------------------------------------------------------------------

  ghost predicate Divides(d: nat, n: nat) {
    exists k: nat :: n == d * k
  }

  /** `g` is the greatest common divisor of `a` and `b`: every common divisor divides it. */
  ghost predicate IsGcd(g: nat, a: nat, b: nat) {
    Divides(g, a) && Divides(g, b) && forall d: nat :: Divides(d, a) && Divides(d, b) ==> Divides(d, g)
  }

  lemma DividesStep(d: nat, a: nat, b: nat)
    requires b > 0
    ensures Divides(d, a) && Divides(d, b) <==> Divides(d, b) && Divides(d, Index(a, b))
  {
    hide Quot, Index;
    var q, r := Quot(a, b), Index(a, b);
    Division(a, b);
    if Divides(d, b) {
      var k: nat :| b == d * k;
      assert b * q == d * (k * q) by { assert d * k * q == d * (k * q); }
      if Divides(d, a) {
        var l: nat :| a == d * l;
        assert r == d * (l - k * q);
        assert l - k * q >= 0 by { if l - k * q < 0 { NegativeProduct(d, l - k * q); } }
        var m: nat := l - k * q;
        assert r == d * m;
      }
      if Divides(d, r) {
        var l: nat :| r == d * l;
        assert a == d * (k * q + l);
      }
    }
  }

  lemma NegativeProduct(d: nat, k: int)
    requires k < 0
    ensures d * k <= 0 - d
  {
    assert d * k == -(d * -k) && d * -k == d + d * (-k - 1);
  }

  lemma DividesZero(d: nat)
    ensures Divides(d, 0)
  {
    assert 0 == d * 0;
  }

  /** The loop `for b != 0 { a, b = b, a%b }`. */
  method Gcd(x: nat, y: nat) returns (g: nat)
    ensures IsGcd(g, x, y)
  {
    var a, b := x, y;
    while b != 0
      invariant forall d: nat :: (Divides(d, a) && Divides(d, b)) <==> (Divides(d, x) && Divides(d, y))
      decreases b
    {
      forall d: nat ensures (Divides(d, b) && Divides(d, Index(a, b))) <==> (Divides(d, x) && Divides(d, y)) { DividesStep(d, a, b); }
      a, b := b, Index(a, b);
    }
    g := a;
    DividesZero(g);
    assert g == g * 1;
    assert Divides(g, g);
    forall d: nat ensures Divides(d, 0) { DividesZero(d); }
  }

  lemma {:induction false} ExtGcdIsGcd(a: nat, b: nat)
    ensures IsGcd(ExtGcd(a, b).0, a, b)
    decreases a
  {
    if a == 0 {
      DividesZero(b);
      assert b == b * 1;
    } else {
      hide Quot, Index;
      ExtGcdIsGcd(Index(b, a), a);
      var g := ExtGcd(Index(b, a), a).0;
      DividesStep(g, b, a);
      forall d: nat ensures (Divides(d, a) && Divides(d, b)) <==> (Divides(d, Index(b, a)) && Divides(d, a)) { DividesStep(d, b, a); }
    }
  }

  // ----- encryption and decryption --------------------------------------------------------------

  /** `Encrypt`, with big integers. */
  function Encrypt(a: int, b: int, m: nat, id: int): (e: int)
    requires m > 0
    ensures 0 <= e < m
  {
    (id * a + b) % m
  }

  /** `Decrypt`, in int64. */
  function Decrypt(a: nat, b: int, m: nat, id: int): int
    requires m > 0
  {
    var inv := ParseId(a, m).1;
    var p := Rem(Wrap(Wrap(id - b) * inv), m);
    if p < 0 then Wrap(p + m) else p
  }

  /** The last step of Decrypt brings the remainder into range. */
  lemma RemIsMod(x: int, m: nat)
    requires m > 0
    ensures (if Rem(x, m) < 0 then Rem(x, m) + m else Rem(x, m)) == x % m
  {
    if x < 0 {
      var q, r := (-x) / m, (-x) % m;
      assert x == m * -q - r;
      if r == 0 { SameRemainder(x, 0, -q, m); } else { SameRemainder(x, m - r, -q - 1, m); }
    }
  }

  lemma SameRemainder(x: int, r: nat, q: int, m: nat)
    requires m > 0 && r < m && x == m * q + r
    ensures x % m == r
  {
    var d := x / m - q;
    assert m * d == r - x % m;
    MulAway(m, d);
  }

  /** What Decrypt computes, for every modulus: only the product may overflow. */
  lemma DecryptIs(a: nat, b: int, m: nat, id: int)
    requires 0 < a <= Max64 && 0 <= b < m <= Max64 && 0 <= id < m
    ensures Decrypt(a, b, m, id) == Wrap((id - b) * ExtGcd(a, m).1) % m
  {
    ParseIdExact(a, m);
    WrapExact(id - b);
    var p := Wrap((id - b) * ExtGcd(a, m).1);
    RemIsMod(p, m);
    hide ExtGcd, ParseId;
    if Rem(p, m) < 0 { RemRange(p, m); WrapExact(Rem(p, m) + m); }
  }

  lemma RemRange(x: int, m: nat)
    requires m > 0
    ensures 0 < Rem(x, m) + m < 2 * m
  {
  }

  /** With coprime parameters the exact product gives the id back. */
  lemma ExactProduct(a: nat, b: int, m: nat, id: int)
    requires 0 <= b < m && 0 <= id < m && ExtGcd(a, m).0 == 1
    ensures ((Encrypt(a, b, m, id) - b) * ExtGcd(a, m).1) % m == id
  {
    var e := Encrypt(a, b, m, id);
    Bezout(a, m);
    var (g, x, y) := ExtGcd(a, m);
    var k := EncryptIs(a, b, m, id);
    hide ExtGcd, Encrypt;
    CancelModulus(id, a, m, x, y, k, e - b);
    SameRemainder((e - b) * x, id, -(id * y) - k * x, m);
  }

  // ----- when decryption is right ---------------------------------------------------------------

  /** The product fits for the least and for the greatest encrypted id. */
  predicate EndsFit(b: int, m: nat, inv: int) {
    Fits((0 - b) * inv) && Fits((m - 1 - b) * inv)
  }

  /** Then it fits for all of them. */
  lemma EndsFitAll(b: int, m: nat, inv: int, e: int)
    requires EndsFit(b, m, inv) && 0 <= e < m
    ensures Fits((e - b) * inv)
  {
    var low, mid, high := (0 - b) * inv, (e - b) * inv, (m - 1 - b) * inv;
    if inv >= 0 { Between(0 - b, e - b, m - 1 - b, inv); } else { Between(0 - b, e - b, m - 1 - b, -inv); }
  }

  lemma Between(x: int, y: int, z: int, v: int)
    requires x <= y <= z && v >= 0
    ensures x * v <= y * v <= z * v
    ensures x * -v == -(x * v) && y * -v == -(y * v) && z * -v == -(z * v)
  {
    assert y * v == x * v + (y - x) * v && z * v == y * v + (z - y) * v;
  }

  /** Up to 2^32 it always fits. */
  lemma SmallEndsFit(a: nat, b: int, m: nat)
    requires 0 < a && 0 <= b < m <= 0x1_0000_0000
    ensures EndsFit(b, m, ExtGcd(a, m).1)
  {
    var x := ExtGcd(a, m).1;
    if m >= 2 {
      FactorsHalf(a, m);
      hide ExtGcd;
      ProductFits(0 - b, x, m);
      ProductFits(m - 1 - b, x, m);
    } else {
      assert b == 0 && (0 - b) * x == 0 && (m - 1 - b) * x == 0;
    }
  }

  lemma ProductFits(d: int, x: int, m: nat)
    requires Abs(d) < m <= 0x1_0000_0000 && 2 * Abs(x) <= m
    ensures Fits(d * x)
  {
    var c := Abs(d);
    Halved(c, x, m);
    Signed(d, x);
  }

  lemma Halved(c: nat, x: int, m: nat)
    requires c < m <= 0x1_0000_0000 && 2 * Abs(x) <= m
    ensures 2 * Abs(c * x) <= c * 0x1_0000_0000
  {
    MulBound(c, 2 * x, 0x1_0000_0000);
    assert c * (2 * x) == 2 * (c * x);
  }

  lemma Signed(d: int, x: int)
    ensures Abs(d * x) == Abs(Abs(d) * x)
  {
    if d < 0 { assert d * x == -(-d * x); }
  }

  /** For a power of two the overflow does not matter: the modulus divides 2^64. */
  lemma WrapModPow2(x: int, m: nat)
    requires IsPow2(m) && m <= Max64
    ensures m > 0 && Wrap(x) % m == x % m
  {
    var n: nat :| m == Pow2(n);
    WordIsPow2();
    if n > 64 { Pow2Monotone(64, n); }
    var q := Pow2Divides(n, 64);
    hide Pow2;
    var t := WrapDiffers(x);
    hide Wrap;
    assert Word * t == m * (q * t) by { assert q * m * t == m * (q * t); }
    SameMod(x, Wrap(x), q * t, m);
  }

  lemma SameMod(x: int, y: int, k: int, m: nat)
    requires m > 0 && x == y + m * k
    ensures x % m == y % m
  {
    assert m * (k + y / m) == m * k + m * (y / m);
    SameRemainder(x, y % m, k + y / m, m);
  }

  lemma WrapDiffers(x: int) returns (t: int)
    ensures x == Wrap(x) + Word * t
  {
    t := if x % Word > Max64 then x / Word + 1 else x / Word;
  }

  lemma WordIsPow2()
    ensures Pow2(64) == Word
  {
    assert Pow2(10) == 1024;
    assert Pow2(20) == 1048576;
    assert Pow2(30) == 1073741824;
    assert Pow2(40) == 1099511627776;
    assert Pow2(50) == 1125899906842624;
    assert Pow2(60) == 1152921504606846976;
  }

  /** Only powers of two divide a power of two. */
  lemma {:induction false} DivisorOfPow2(m: nat, k: nat, n: nat)
    requires m * k == Pow2(n)
    ensures IsPow2(m)
    decreases n
  {
    if n == 0 {
      MulAway(m, k);
      assert m == 1 == Pow2(0);
    } else if m % 2 == 0 {
      assert m / 2 * k == Pow2(n - 1) by { assert 2 * (m / 2) * k == 2 * (m / 2 * k); }
      DivisorOfPow2(m / 2, k, n - 1);
      HalfPow2(m);
    } else {
      OddTimes(m, k);
      DivisorOfPow2(m, k / 2, n - 1);
    }
  }

  lemma OddTimes(m: nat, k: nat)
    requires m % 2 == 1 && m * k % 2 == 0
    ensures m * k == 2 * (m * (k / 2))
  {
    var h := m * (k / 2);
    assert m * k == 2 * h + m * (k % 2) by { assert m * (2 * (k / 2)) == 2 * h; }
  }

  /** Off by one wrap, the remainder is the same only for a power of two. */
  lemma OneWrap(x: int, y: int, m: nat)
    requires m > 0 && (x == y + Word || y == x + Word) && x % m == y % m
    ensures IsPow2(m)
  {
    var k := if x > y then x / m - y / m else y / m - x / m;
    assert Word == m * k;
    WordIsPow2();
    if k < 0 { MulAway(m, k); }
    DivisorOfPow2(m, k, 64);
  }

  /** Going from 0 in steps too small to jump over a whole wrap, the first product that does not fit is off by exactly one. */
  lemma {:induction false} FirstOverflow(v: int, n: nat) returns (j: nat)
    requires Abs(v) <= Max64 && !Fits(n * v)
    ensures 0 < j <= n && (j * v == Wrap(j * v) + Word || Wrap(j * v) == j * v + Word)
    decreases n
  {
    assert n * v == (n - 1) * v + v;
    assert n > 0 by { assert 0 * v == 0; }
    if Fits((n - 1) * v) {
      j := n;
      OffByOne(n * v);
    } else {
      j := FirstOverflow(v, n - 1);
    }
  }

  lemma OffByOne(x: int)
    requires !Fits(x) && -2 * Max64 - 1 <= x <= 2 * Max64
    ensures x == Wrap(x) + Word || Wrap(x) == x + Word
  {
    if x > 0 { SameRemainder(x, x, 0, Word); } else { SameRemainder(x, x + Word, -1, Word); }
  }

  /** Where a product does not fit, some encrypted id has one that is off by one wrap. */
  lemma SomeOffByOne(b: int, m: nat, inv: int) returns (e: int)
    requires 0 <= b < m <= Max64 && Abs(inv) <= Max64 && !EndsFit(b, m, inv)
    ensures 0 <= e < m && var p := (e - b) * inv; p == Wrap(p) + Word || Wrap(p) == p + Word
  {
    if !Fits((m - 1 - b) * inv) {
      var j := FirstOverflow(inv, m - 1 - b);
      e := b + j;
    } else {
      assert (0 - b) * inv == b * -inv;
      var j := FirstOverflow(-inv, b);
      e := b - j;
      assert (e - b) * inv == j * -inv;
    }
  }

  /** Every number below a coprime modulus is the encryption of some id. */
  lemma EncryptOnto(a: nat, b: int, m: nat, e: int) returns (id: int)
    requires 0 <= b < m && 0 <= e < m && ExtGcd(a, m).0 == 1
    ensures 0 <= id < m && Encrypt(a, b, m, id) == e
  {
    Bezout(a, m);
    var (g, x, y) := ExtGcd(a, m);
    hide ExtGcd;
    var p := (e - b) * x;
    id := p % m;
    var k := p / m;
    assert id == p - m * k;
    Inverted(id, a, b, e, x, y, k, m);
    SameRemainder(id * a + b, e, -((e - b) * y) - k * a, m);
  }

  lemma Inverted(id: int, a: int, b: int, e: int, x: int, y: int, k: int, m: int)
    requires id == (e - b) * x - m * k && a * x + m * y == 1
    ensures id * a + b == m * (-((e - b) * y) - k * a) + e
  {
    var d := e - b;
    assert id * a == d * x * a - m * k * a && m * k * a == m * (k * a);
    assert d * x * a == d * (a * x) == d * (1 - m * y) == d - d * (m * y);
    assert d * (m * y) == m * (d * y);
    assert m * (-(d * y) - k * a) == -(m * (d * y)) - m * (k * a);
  }

  /** A caller can tell from the parameters whether ids survive: for every modulus an int64 can hold, decryption is
      right for all ids if and only if the parameters are coprime and either the modulus is a power of two or the
      product fits at both ends of the range. */
  lemma RoundTripIff(a: nat, b: int, m: nat)
    requires 0 < a <= Max64 && 0 <= b < m <= Max64 && m > 1
    ensures (forall id :: 0 <= id < m ==> Decrypt(a, b, m, Encrypt(a, b, m, id)) == id)
            <==> ExtGcd(a, m).0 == 1 && (IsPow2(m) || EndsFit(b, m, ExtGcd(a, m).1))
  {
    var inv := ExtGcd(a, m).1;
    hide Decrypt, Encrypt, ExtGcd, IsPow2, EndsFit;
    if ExtGcd(a, m).0 != 1 {
      var l := SameCipher(a, b, m);
      assert Decrypt(a, b, m, Encrypt(a, b, m, 0)) == 0 ==> Decrypt(a, b, m, Encrypt(a, b, m, l)) != l;
    } else if IsPow2(m) || EndsFit(b, m, inv) {
      forall id | 0 <= id < m ensures Decrypt(a, b, m, Encrypt(a, b, m, id)) == id { RoundTrip(a, b, m, id); }
    } else {
      var id := WrongAnswer(a, b, m);
      assert Decrypt(a, b, m, Encrypt(a, b, m, id)) != id;
    }
  }

  /** Decryption undoes encryption. */
  lemma RoundTrip(a: nat, b: int, m: nat, id: int)
    requires 0 < a <= Max64 && 0 <= b < m <= Max64 && 0 <= id < m && ExtGcd(a, m).0 == 1
    requires IsPow2(m) || EndsFit(b, m, ExtGcd(a, m).1)
    ensures Decrypt(a, b, m, Encrypt(a, b, m, id)) == id
  {
    var e, inv := Encrypt(a, b, m, id), ExtGcd(a, m).1;
    DecryptIs(a, b, m, e);
    ExactProduct(a, b, m, id);
    hide Decrypt, Encrypt, ExtGcd, IsPow2, Wrap;
    if IsPow2(m) { WrapModPow2((e - b) * inv, m); } else { EndsFitAll(b, m, inv, e); WrapExact((e - b) * inv); }
  }

  lemma WrongAnswer(a: nat, b: int, m: nat) returns (id: int)
    requires 0 < a <= Max64 && 0 <= b < m <= Max64 && ExtGcd(a, m).0 == 1
    requires !IsPow2(m) && !EndsFit(b, m, ExtGcd(a, m).1)
    ensures 0 <= id < m && Decrypt(a, b, m, Encrypt(a, b, m, id)) != id
  {
    var inv := ExtGcd(a, m).1;
    FactorsSmall(a, m);
    var e := SomeOffByOne(b, m, inv);
    id := EncryptOnto(a, b, m, e);
    DecryptIs(a, b, m, e);
    ExactProduct(a, b, m, id);
    hide Decrypt, Encrypt, ExtGcd, IsPow2, Wrap;
    var p := (e - b) * inv;
    if Wrap(p) % m == p % m { OneWrap(p, Wrap(p), m); }
  }

  /** Up to 2^32 nothing overflows ... */
  lemma DecryptExact(a: nat, b: int, m: nat, id: int)
    requires 0 < a <= Max64 && 0 <= b < m <= 0x1_0000_0000 && 0 <= id < m
    ensures Decrypt(a, b, m, id) == ((id - b) * ExtGcd(a, m).1) % m
    ensures Fits(id - b) && Fits((id - b) * ExtGcd(a, m).1)
  {
    hide ExtGcd, Decrypt, EndsFit, Wrap;
    DecryptIs(a, b, m, id);
    SmallEndsFit(a, b, m);
    EndsFitAll(b, m, ExtGcd(a, m).1, id);
    WrapExact((id - b) * ExtGcd(a, m).1);
  }

  /** ... so that coprime parameters are enough, and they are needed. */
  lemma CoprimeIff(a: nat, b: int, m: nat)
    requires 0 < a <= Max64 && 0 <= b < m <= 0x1_0000_0000 && m > 1
    ensures (forall id :: 0 <= id < m ==> Decrypt(a, b, m, Encrypt(a, b, m, id)) == id) <==> ExtGcd(a, m).0 == 1
  {
    hide ExtGcd, Decrypt, Encrypt, EndsFit;
    RoundTripIff(a, b, m);
    SmallEndsFit(a, b, m);
  }

  lemma EncryptIs(a: int, b: int, m: nat, id: int) returns (k: int)
    requires m > 0
    ensures Encrypt(a, b, m, id) == id * a + b - m * k
  {
    k := (id * a + b) / m;
  }

  /** `(id * a - m * k) * x` differs from `id` by a multiple of `m` when `a * x + m * y == 1`. */
  lemma CancelModulus(id: int, a: int, m: int, x: int, y: int, k: int, d: int)
    requires d == id * a - m * k && a * x + m * y == 1
    ensures d * x == m * (-(id * y) - k * x) + id
  {
    assert d * x == id * a * x - m * k * x;
    assert id * a * x == id * (a * x) == id * (1 - m * y) == id - id * (m * y);
    assert id * (m * y) == m * (id * y) && m * k * x == m * (k * x);
    assert m * (-(id * y) - k * x) == -(m * (id * y)) - m * (k * x);
  }

  lemma SameCipher(a: nat, b: int, m: nat) returns (l: nat)
    requires m > 1 && 0 <= b < m && ExtGcd(a, m).0 != 1
    ensures 0 < l < m && Encrypt(a, b, m, l) == Encrypt(a, b, m, 0)
  {
    var g := ExtGcd(a, m).0;
    ExtGcdIsGcd(a, m);
    hide ExtGcd, Encrypt;
    var k: nat :| a == g * k;
    l :| m == g * l;
    SmallerFactor(g, l, m);
    assert l * a == m * k by { assert l * (g * k) == (g * l) * k; }
    SharedFactor(a, b, m, l, k);
  }

  lemma SmallerFactor(g: nat, l: nat, m: nat)
    requires m > 1 && m == g * l && g != 1
    ensures 0 < l < m
  {
    if g >= 2 { assert g * l == 2 * l + (g - 2) * l; }
  }

  lemma SharedFactor(a: nat, b: int, m: nat, l: nat, k: nat)
    requires m > 0 && 0 <= b < m && l * a == m * k
    ensures Encrypt(a, b, m, l) == b == Encrypt(a, b, m, 0)
  {
    SameRemainder(l * a + b, b, k, m);
    SameRemainder(0 * a + b, b, 0, m);
  }

  /** A modulus for which the product overflows and decryption is wrong: 2^33 + 1. */
  lemma LargeModulusFails()
    ensures var m := 0x2_0000_0001;
            ExtGcd(2, m).0 == 1 && Decrypt(2, 0, m, Encrypt(2, 0, m, m - 1)) == 0x1_0000_0000
  {
    var m := 0x2_0000_0001;
    assert ParseId(0, 1) == (1, 0, 1) && ExtGcd(0, 1) == (1, 0, 1);
    assert Quot(2, 1) == 2 && Index(2, 1) == 0 && Quot(m, 2) == 0x1_0000_0000 && Index(m, 2) == 1;
    assert ParseId(1, 2) == (1, 1, 0) && ExtGcd(1, 2) == (1, 1, 0);
    assert ParseId(2, m) == (1, -0x1_0000_0000, 1) && ExtGcd(2, m).0 == 1;
    assert Encrypt(2, 0, m, m - 1) == 0x1_ffff_ffff;
    hide ParseId, ExtGcd, Encrypt;
  }
}
