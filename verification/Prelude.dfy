/** Definitions shared by the other modules: options, ring indices and their arithmetic. */
module Prelude {

  datatype Option<+T> = None | Some(value: T)

  function Min(a: nat, b: nat): (m: nat)
    ensures m <= a && m <= b
  {
    if a < b then a else b
  }

  /** The slot of position `p` in a ring of `cap` slots; the code writes it `p & mask`. */
  function Index(p: nat, cap: nat): (i: nat)
    requires cap > 0
    ensures i < cap
  {
    p % cap
  }

  /** A nonzero multiple of `m` is at least `m` away from zero. */
  lemma MulAway(m: nat, d: int)
    ensures d >= 1 ==> m * d >= m
    ensures d <= -1 ==> m * d + m <= 0
  {
    if d >= 1 { assert m * d == m + m * (d - 1); }
    if d <= -1 { assert m * d + m == m * (d + 1); }
  }

  /** Quotient and remainder are the only pair with the defining equation. */
  lemma DivModUnique(a: nat, m: nat, q: int, r: nat)
    requires m > 0 && r < m && a == m * q + r
    ensures a / m == q && a % m == r
  {
    var d := a / m - q;
    assert m * d == r - a % m;
    MulAway(m, d);
  }

  /** Two positions less than `cap` apart never share a slot. */
  lemma IndexDistinct(p: nat, q: nat, cap: nat)
    requires p < q < p + cap
    ensures Index(p, cap) != Index(q, cap)
  {
    var k, r := p / cap, p % cap;
    if r + (q - p) < cap {
      DivModUnique(q, cap, k, r + (q - p));
    } else {
      assert q == cap * (k + 1) + (r + (q - p) - cap);
      DivModUnique(q, cap, k + 1, r + (q - p) - cap);
    }
  }

  /** One lap later a position comes back to the same slot. */
  lemma IndexNextLap(p: nat, cap: nat)
    requires cap > 0
    ensures Index(p + cap, cap) == Index(p, cap)
  {
    var k, r := p / cap, p % cap;
    assert p + cap == cap * (k + 1) + r;
    DivModUnique(p + cap, cap, k + 1, r);
  }

  /** Positions in the first two laps. */
  lemma IndexSmall(p: nat, cap: nat)
    requires cap > 0 && p < 2 * cap
    ensures Index(p, cap) == if p < cap then p else p - cap
  {
    if p < cap { DivModUnique(p, cap, 0, p); } else { DivModUnique(p, cap, 1, p - cap); }
  }

  /** Steps may be counted from the slot instead of from the position. */
  lemma IndexAdd(p: nat, k: nat, cap: nat)
    requires cap > 0
    ensures Index(Index(p, cap) + k, cap) == Index(p + k, cap)
  {
    var q, r := (p % cap + k) / cap, (p % cap + k) % cap;
    assert p + k == cap * (p / cap) + p % cap + k;
    assert cap * (p / cap) + cap * q == cap * (p / cap + q);
    DivModUnique(p + k, cap, p / cap + q, r);
  }

  /** Within a window of `cap` positions every slot belongs to exactly one position. */
  lemma WindowDistinct(from: nat, cap: nat)
    requires cap > 0
    ensures forall p, q {:trigger Index(p, cap), Index(q, cap)} ::
              from <= p < from + cap && from <= q < from + cap && p != q ==> Index(p, cap) != Index(q, cap)
  {
    forall p, q | from <= p < from + cap && from <= q < from + cap && p != q
      ensures Index(p, cap) != Index(q, cap)
    {
      if p < q { IndexDistinct(p, q, cap); } else { IndexDistinct(q, p, cap); }
    }
  }

  function Sum(ns: seq<nat>): nat {
    if ns == [] then 0 else Sum(ns[..|ns| - 1]) + ns[|ns| - 1]
  }

  lemma {:induction false} SumUpdate(ns: seq<nat>, i: nat, v: nat)
    requires i < |ns|
    ensures Sum(ns[i := v]) == Sum(ns) - ns[i] + v
  {
    var n := |ns| - 1;
    if i == n {
      assert ns[i := v][..n] == ns[..n];
    } else {
      assert ns[i := v][..n] == ns[..n][i := v];
      SumUpdate(ns[..n], i, v);
    }
  }
}
