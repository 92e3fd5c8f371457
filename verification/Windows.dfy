/** Rings kept in an array: `n` elements from some index on, around the end of the array. */
module Windows {
  import opened Prelude

  /** The element `i` places after index `start`. */
  function At<T>(b: seq<T>, start: nat, i: nat): T
    requires |b| > 0
  {
    b[Index(start + i, |b|)]
  }

  /** `n` elements of the ring from index `start` on. */
  function Window<T>(b: seq<T>, start: nat, n: nat): (r: seq<T>)
    requires |b| > 0
    ensures |r| == n
    ensures forall i :: 0 <= i < n ==> r[i] == At(b, start, i)
  {
    seq(n, i requires 0 <= i < n => At(b, start, i))
  }

  /** The two pieces in which a window lies in the array. */
  lemma WindowPieces<T>(b: seq<T>, start: nat, n: nat)
    requires start < |b| && n <= |b|
    ensures Window(b, start, n) == if start + n <= |b| then b[start..start + n] else b[start..] + b[..start + n - |b|]
  {
    hide Index;
    forall i | 0 <= i < n ensures At(b, start, i) == if start + i < |b| then b[start + i] else b[start + i - |b|] {
      IndexSmall(start + i, |b|);
    }
  }

  lemma WindowSlice<T>(b: seq<T>, start: nat, n: nat, k: nat, m: nat)
    requires |b| > 0 && k + m <= n
    ensures Window(b, Index(start + k, |b|), m) == Window(b, start, n)[k..k + m]
  {
    hide Index;
    forall j | k <= j < k + m ensures At(b, Index(start + k, |b|), j - k) == At(b, start, j) { IndexAdd(start + k, j - k, |b|); }
  }

  /** The first `k` elements of a window, and the others. */
  lemma WindowEnds<T>(b: seq<T>, head: nat, count: nat, k: nat)
    requires |b| > 0 && k <= count
    ensures Window(b, head, k) == Window(b, head, count)[..k]
    ensures Window(b, Index(head + k, |b|), count - k) == Window(b, head, count)[k..]
  {
    WindowSlice(b, head, count, k, count - k);
    var w := Window(b, head, count);
    assert w[k..k + (count - k)] == w[k..];
  }

  /** `p` written at index `pos`, in two pieces when it reaches the end of the array. */
  function Overwritten<T>(b: seq<T>, pos: nat, p: seq<T>): (r: seq<T>)
    requires pos < |b| && |p| <= |b|
    ensures |r| == |b|
  {
    if pos + |p| <= |b| then b[..pos] + p + b[pos + |p|..]
    else var k := |b| - pos; p[k..] + b[|p| - k..pos] + p[..k]
  }

  lemma OverwrittenAt<T>(b: seq<T>, pos: nat, p: seq<T>, j: nat)
    requires pos < |b| && |p| <= |b| && j < |b|
    ensures At(Overwritten(b, pos, p), pos, j) == if j < |p| then p[j] else At(b, pos, j)
  {
    hide Index;
    IndexSmall(pos + j, |b|);
  }

  /** The same element of the ring, counted from `start` and from the end of its contents. */
  lemma FromEnd<T>(b: seq<T>, start: nat, n: nat, i: nat)
    requires |b| > 0 && n <= |b|
    ensures i < n ==> At(b, start, i) == At(b, Index(start + n, |b|), |b| - n + i)
    ensures i >= n ==> At(b, start, i) == At(b, Index(start + n, |b|), i - n)
  {
    hide Index;
    if i < n {
      IndexAdd(start + n, |b| - n + i, |b|);
      IndexNextLap(start + i, |b|);
    } else {
      IndexAdd(start + n, i - n, |b|);
    }
  }

  /** Writing behind the contents appends. */
  lemma WriteAppends<T>(b: seq<T>, start: nat, n: nat, p: seq<T>)
    requires start < |b| && n + |p| <= |b|
    ensures Window(Overwritten(b, Index(start + n, |b|), p), start, n + |p|) == Window(b, start, n) + p
  {
    hide Index, Overwritten, At;
    var pos := Index(start + n, |b|);
    var b' := Overwritten(b, pos, p);
    forall i | 0 <= i < n + |p| ensures At(b', start, i) == if i < n then At(b, start, i) else p[i - n] {
      FromEnd(b, start, n, i);
      FromEnd(b', start, n, i);
      OverwrittenAt(b, pos, p, if i < n then |b| - n + i else i - n);
    }
  }

  /** Copying `q` into the array from `pos` on, around its end; more than the array holds is cut off. */
  method CopyAround<T>(a: array<T>, pos: nat, q: seq<T>)
    requires pos < a.Length
    modifies a
    ensures |q| <= a.Length ==> a[..] == Overwritten(old(a[..]), pos, q)
  {
    if pos + |q| <= a.Length {
      forall i | 0 <= i < |q| { a[pos + i] := q[i]; }
    } else {
      var k := a.Length - pos;
      forall i | 0 <= i < k { a[pos + i] := q[i]; }
      forall i | 0 <= i < Min(|q| - k, a.Length) { a[i] := q[k + i]; }
    }
  }

  /** Copying `n` bytes out of the array from `pos` on, around its end. */
  method CopyOut<T>(a: array<T>, pos: nat, p: array<T>, n: nat)
    requires pos < a.Length && n <= a.Length && n <= p.Length && p != a
    modifies p
    ensures p[..n] == if pos + n <= a.Length then a[pos..pos + n] else a[pos..] + a[..pos + n - a.Length]
    ensures p[n..] == old(p[n..])
  {
    if pos + n <= a.Length {
      forall i | 0 <= i < n { p[i] := a[pos + i]; }
    } else {
      var k := a.Length - pos;
      forall i | 0 <= i < k { p[i] := a[pos + i]; }
      forall i | 0 <= i < n - k { p[k + i] := a[i]; }
    }
  }
}
