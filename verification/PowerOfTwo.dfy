/**
 Powers of two and the shift-and-or rounding of `zqueue/queue.go`, `zcoll/shardmap.go` and
 `znet/ringbuffer.go`. Machine words are naturals with their binary digits.
 */
module PowerOfTwo {
  import opened Prelude

  function Pow2(n: nat): (r: nat)
    ensures r >= 1
  {
    if n == 0 then 1 else 2 * Pow2(n - 1)
  }

  ghost predicate IsPow2(x: nat) {
    exists n: nat :: x == Pow2(n)
  }

  function Bit(x: nat, i: nat): bool {
    if i == 0 then x % 2 == 1 else Bit(x / 2, i - 1)
  }

  /** `a | b` */
  function Or(a: nat, b: nat): nat {
    if a == 0 && b == 0 then 0
    else 2 * Or(a / 2, b / 2) + if a % 2 == 1 || b % 2 == 1 then 1 else 0
  }

  /** `a & b` */
  function And(a: nat, b: nat): nat {
    if a == 0 || b == 0 then 0
    else 2 * And(a / 2, b / 2) + if a % 2 == 1 && b % 2 == 1 then 1 else 0
  }

  /** `a ^ b` */
  function Exor(a: nat, b: nat): nat {
    if a == 0 && b == 0 then 0
    else 2 * Exor(a / 2, b / 2) + (a % 2 + b % 2) % 2
  }

  /** `x >> k` */
  function Shr(x: nat, k: nat): nat {
    if k == 0 then x else Shr(x / 2, k - 1)
  }

  /** `n |= n >> 1; n |= n >> 2; ...; n |= n >> 32` */
  function Smear(n: nat): nat {
    var a := Or(n, Shr(n, 1));
    var b := Or(a, Shr(a, 2));
    var c := Or(b, Shr(b, 4));
    var d := Or(c, Shr(c, 8));
    var e := Or(d, Shr(d, 16));
    Or(e, Shr(e, 32))
  }

  /** `nextPowerOfTwo64`: a word of 0 or 1 gives 1. */
  function NextPowerOfTwo64(n: nat): nat {
    if n <= 1 then 1 else Smear(n - 1) + 1
  }

  /** `nextPowerOfTwo`: a non-positive capacity gives 2, but a capacity of 1 stays 1. */
  function NextPowerOfTwo(n: int): nat {
    if n <= 0 then 2 else Smear(n - 1) + 1
  }

  lemma {:induction false} BitOr(a: nat, b: nat, i: nat)
    ensures Bit(Or(a, b), i) == (Bit(a, i) || Bit(b, i))
    decreases i
  {
    if a == 0 && b == 0 {
      BitZero(i);
    } else {
      var o, d := Or(a / 2, b / 2), if a % 2 == 1 || b % 2 == 1 then 1 else 0;
      assert Or(a, b) == 2 * o + d && (2 * o + d) / 2 == o && (2 * o + d) % 2 == d;
      if i > 0 {
        BitOr(a / 2, b / 2, i - 1);
        hide Or;
      }
    }
  }

  lemma {:induction false} BitZero(i: nat)
    ensures !Bit(0, i)
  {
    if i > 0 { BitZero(i - 1); }
  }

  lemma {:induction false} BitShr(x: nat, k: nat, i: nat)
    ensures Bit(Shr(x, k), i) == Bit(x, i + k)
    decreases k
  {
    if k > 0 { BitShr(x / 2, k - 1, i); }
  }

  /** The highest set bit of `x` is bit `top`, and the `w` highest bits up to it are all set. */
  ghost predicate Spread(x: nat, top: nat, w: nat) {
    forall i: nat :: (i > top ==> !Bit(x, i)) && (top < i + w && i <= top ==> Bit(x, i))
  }

  /** One `x |= x >> w` doubles the run of ones. */
  lemma SpreadTwice(x: nat, top: nat, w: nat)
    requires Spread(x, top, w) && w >= 1
    ensures Spread(Or(x, Shr(x, w)), top, 2 * w)
  {
    forall i: nat
      ensures (i > top ==> !Bit(Or(x, Shr(x, w)), i)) && (top < i + 2 * w && i <= top ==> Bit(Or(x, Shr(x, w)), i))
    {
      BitOr(x, Shr(x, w), i);
      BitShr(x, w, i);
    }
  }

  lemma {:induction false} SmallBits(x: nat, n: nat, i: nat)
    requires x < Pow2(n) && i >= n
    ensures !Bit(x, i)
    decreases i
  {
    if i == 0 {
    } else if n == 0 {
      BitZero(i);
    } else {
      SmallBits(x / 2, n - 1, i - 1);
    }
  }

  lemma {:induction false} TopBit(x: nat, n: nat)
    requires Pow2(n) <= x < 2 * Pow2(n)
    ensures Bit(x, n)
    decreases n
  {
    if n > 0 { TopBit(x / 2, n - 1); }
  }

  /** All bits below `n` set and none above: the number is one less than a power of two. */
  lemma {:induction false} AllOnes(x: nat, n: nat)
    requires forall i: nat :: Bit(x, i) <==> i < n
    ensures x + 1 == Pow2(n)
    decreases n
  {
    forall i: nat ensures Bit(x / 2, i) == Bit(x, i + 1) {}
    if n == 0 {
      NoBits(x);
    } else {
      assert Bit(x, 0);
      AllOnes(x / 2, n - 1);
    }
  }

  lemma {:induction false} NoBits(x: nat)
    requires forall i: nat :: !Bit(x, i)
    ensures x == 0
    decreases x
  {
    if x > 0 {
      assert !Bit(x, 0);
      forall i: nat ensures !Bit(x / 2, i) { assert !Bit(x, i + 1); }
      NoBits(x / 2);
    }
  }

  lemma {:induction false} Magnitude(x: nat, bound: nat) returns (n: nat)
    requires 0 < x < Pow2(bound)
    ensures n < bound && Pow2(n) <= x < 2 * Pow2(n)
  {
    if x == 1 {
      n := 0;
      assert bound > 0;
    } else {
      var m := Magnitude(x / 2, bound - 1);
      n := m + 1;
    }
  }

  /** Smearing a 64-bit word sets every bit below its highest one. */
  lemma SmearIs(m: nat, n: nat)
    requires n < 64 && Pow2(n) <= m < 2 * Pow2(n)
    ensures Smear(m) + 1 == 2 * Pow2(n)
  {
    FirstSpread(m, n);
    hide Spread, Bit, Or, Shr;
    var a := Or(m, Shr(m, 1));
    SpreadTwice(m, n, 1);
    var b := Or(a, Shr(a, 2));
    SpreadTwice(a, n, 2);
    var c := Or(b, Shr(b, 4));
    SpreadTwice(b, n, 4);
    var d := Or(c, Shr(c, 8));
    SpreadTwice(c, n, 8);
    var e := Or(d, Shr(d, 16));
    SpreadTwice(d, n, 16);
    SpreadTwice(e, n, 32);
    hide Smear;
    FullSpread(Smear(m), n);
  }

  lemma FirstSpread(m: nat, n: nat)
    requires Pow2(n) <= m < 2 * Pow2(n)
    ensures Spread(m, n, 1)
  {
    TopBit(m, n);
    forall i: nat | i > n ensures !Bit(m, i) { SmallBits(m, n + 1, i); }
    hide Bit, Pow2;
  }

  lemma FullSpread(x: nat, n: nat)
    requires n < 64 && Spread(x, n, 64)
    ensures x + 1 == 2 * Pow2(n)
  {
    hide Bit;
    forall i: nat ensures Bit(x, i) <==> i < n + 1 { assert (i > n ==> !Bit(x, i)) && (n < i + 64 && i <= n ==> Bit(x, i)); }
    hide Spread;
    AllOnes(x, n + 1);
  }

  lemma {:induction false} Pow2Monotone(m: nat, n: nat)
    requires m <= n
    ensures Pow2(m) <= Pow2(n)
    decreases n
  {
    if m < n { Pow2Monotone(m, n - 1); }
  }

  lemma {:induction false} ShrZero(k: nat)
    ensures Shr(0, k) == 0
  {
    if k > 0 { ShrZero(k - 1); }
  }

  lemma SmearZero()
    ensures Smear(0) == 0
  {
    ShrZero(1); ShrZero(2); ShrZero(4); ShrZero(8); ShrZero(16); ShrZero(32);
    hide Shr;
    assert Or(0, 0) == 0;
    hide Or;
  }

  /** The rounded value is the least power of two that is at least `n`, for every `n` up to 2^63. */
  lemma NextPowerOfTwoLeast(n: nat, w: nat)
    requires 1 <= n <= Pow2(w) && w < 64
    ensures NextPowerOfTwo(n) == NextPowerOfTwo64(n)
    ensures IsPow2(NextPowerOfTwo64(n)) && n <= NextPowerOfTwo64(n) <= Pow2(w)
    ensures forall k: nat :: n <= Pow2(k) ==> NextPowerOfTwo64(n) <= Pow2(k)
  {
    hide Smear;
    if n == 1 {
      SmearZero();
      assert Pow2(0) == 1;
    } else {
      var t := Magnitude(n - 1, w);
      SmearIs(n - 1, t);
      assert Pow2(t + 1) == 2 * Pow2(t);
      hide Pow2;
      Pow2Monotone(t + 1, w);
      forall k: nat | n <= Pow2(k) ensures Pow2(t + 1) <= Pow2(k) {
        if k <= t { Pow2Monotone(k, t); } else { Pow2Monotone(t + 1, k); }
      }
    }
  }

  /** Two different powers of two: the smaller divides, and at most halves, the larger. */
  lemma {:induction false} Pow2Divides(m: nat, n: nat) returns (q: nat)
    requires m <= n
    ensures Pow2(n) == q * Pow2(m) && q >= 1 && (m < n ==> 2 * Pow2(m) <= Pow2(n))
    decreases n
  {
    if m == n {
      q := 1;
    } else {
      var r := Pow2Divides(m, n - 1);
      q := 2 * r;
      assert Pow2(n) == 2 * (r * Pow2(m)) == (2 * r) * Pow2(m);
      Pow2Monotone(m, n - 1);
    }
  }

  lemma {:induction false} AndSelf(x: nat)
    ensures And(x, x) == x
  {
    if x > 0 { AndSelf(x / 2); }
  }

  lemma HalfPow2(x: nat)
    requires x > 0 && x % 2 == 0
    ensures IsPow2(x) <==> IsPow2(x / 2)
  {
    if IsPow2(x) {
      var n: nat :| x == Pow2(n);
      assert x / 2 == Pow2(n - 1);
    }
    if IsPow2(x / 2) {
      var n: nat :| x / 2 == Pow2(n);
      assert x == Pow2(n + 1);
    }
  }

  /** The test `x & (x - 1) == 0` of `isPowerOfTwo` is right for every positive number. */
  lemma {:induction false} AndPredZero(x: nat)
    requires x > 0
    ensures And(x, x - 1) == 0 <==> IsPow2(x)
  {
    if x == 1 {
      assert Pow2(0) == 1;
    } else if x % 2 == 1 {
      AndSelf(x / 2);
      assert (x - 1) / 2 == x / 2;
      forall n: nat ensures x != Pow2(n) {
        if n > 0 { assert Pow2(n) == 2 * Pow2(n - 1); }
      }
    } else {
      assert (x - 1) / 2 == x / 2 - 1;
      AndPredZero(x / 2);
      HalfPow2(x);
    }
  }

  lemma {:induction false} ExorSmall(a: nat, b: nat, n: nat)
    requires a < Pow2(n) && b < Pow2(n)
    ensures Exor(a, b) < Pow2(n)
    decreases n
  {
    if n > 0 { ExorSmall(a / 2, b / 2, n - 1); }
  }

  lemma ExorDigits(a: nat, b: nat)
    ensures Exor(a, b) / 2 == Exor(a / 2, b / 2) && Exor(a, b) % 2 == (a % 2 + b % 2) % 2
  {
  }

  /** The same bits twice cancel out. */
  lemma {:induction false} ExorTwice(a: nat, b: nat)
    ensures Exor(Exor(a, b), b) == a
    decreases a + b
  {
    if a == 0 && b == 0 {
      assert Exor(0, 0) == 0;
    } else {
      hide Exor;
      ExorTwice(a / 2, b / 2);
      ExorDigits(a, b);
      ExorDigits(Exor(a, b), b);
      SameDigits(Exor(Exor(a, b), b), a, b);
    }
  }

  lemma SameDigits(r: nat, a: nat, b: nat)
    requires r / 2 == a / 2 && r % 2 == ((a % 2 + b % 2) % 2 + b % 2) % 2
    ensures r == a
  {
  }

  lemma AndDigits(a: nat, b: nat)
    ensures And(a, b) / 2 == And(a / 2, b / 2) && And(a, b) % 2 == if a % 2 == 1 && b % 2 == 1 then 1 else 0
  {
  }

  lemma DoubleMod(x: nat, m: nat)
    requires m > 0
    ensures Index(x, 2 * m) == 2 * Index(x / 2, m) + x % 2
  {
    var q, r := x / 2 / m, x / 2 % m;
    assert x / 2 == m * q + r;
    assert 2 * (m * q) == (2 * m) * q;
    DivModUnique(x, 2 * m, q, 2 * r + x % 2);
  }

  /** `x & (2^n - 1)` is the remainder modulo 2^n, which is how the code reduces a counter to an index. */
  lemma {:induction false} MaskIsMod(x: nat, n: nat)
    ensures And(x, Pow2(n) - 1) == Index(x, Pow2(n))
    decreases n
  {
    if n == 0 {
      DivModUnique(x, 1, x, 0);
    } else {
      var m := Pow2(n - 1);
      assert Pow2(n) == 2 * m;
      MaskIsMod(x / 2, n - 1);
      hide And, Index, Pow2;
      DoubleMod(x, m);
      AndDigits(x, 2 * m - 1);
      assert (2 * m - 1) / 2 == m - 1 && (2 * m - 1) % 2 == 1;
    }
  }

  lemma LessMeansHalf(a: nat, b: nat)
    requires IsPow2(a) && IsPow2(b) && a < b
    ensures 2 * a <= b
  {
    var m: nat :| a == Pow2(m);
    var n: nat :| b == Pow2(n);
    if n <= m { Pow2Monotone(n, m); }
    var q := Pow2Divides(m, n);
  }

  lemma DoublePow2(a: nat)
    requires IsPow2(a)
    ensures IsPow2(2 * a)
  {
    var n: nat :| a == Pow2(n);
    assert 2 * a == Pow2(n + 1);
  }
}
