/**
 The locked ring queue of `zqueue/queue.go`, with its two policies for a full ring. One slot always stays free.
 Calls are one after the other, as the mutex makes them.
 */
module RingQueue {
  import opened Prelude
  import opened PowerOfTwo
  import opened Windows

  datatype Policy = Resize | Drop

  /** `normalizeQueueMaxSize`. */
  function NormalMax(capacity: nat, maxSize: int): nat {
    if maxSize <= 0 then 0
    else if capacity > NextPowerOfTwo(maxSize) then capacity else NextPowerOfTwo(maxSize)
  }

  /** A ring of `size` slots can take `n` more elements, as it is or after growing. */
  predicate HasRoom(size: nat, maxSize: nat, policy: Policy, count: nat, n: nat) {
    count + n < size || (policy.Resize? && (maxSize == 0 || count + n < maxSize))
  }

  lemma RoundedUp(n: int)
    requires n <= Pow2(62)
    ensures IsPow2(NextPowerOfTwo(n)) && NextPowerOfTwo(n) > 0
  {
    assert Pow2(1) == 2;
    if n > 0 { NextPowerOfTwoLeast(n, 62); }
  }

  class Queue<T(0)> {
    var items: array<T>
    var head: nat
    var tail: nat
    var count: nat
    var closed: bool
    var maxSize: nat
    const policy: Policy

    ghost predicate Valid()
      reads this
    {
      && IsPow2(items.Length) && head < items.Length && count < items.Length && tail == Index(head + count, items.Length)
      && (maxSize > 0 ==> IsPow2(maxSize) && items.Length <= maxSize)
    }

    ghost function Contents(): (s: seq<T>)
      reads this, items
      requires Valid()
      ensures |s| == count
    {
      Window(items[..], head, count)
    }

    constructor (initialSize: int, max: int, policy: Policy)
      requires initialSize <= Pow2(62) && max <= Pow2(62)
      ensures Valid() && Contents() == [] && !closed && this.policy == policy && fresh(items)
      ensures items.Length == NextPowerOfTwo(initialSize) && maxSize == NormalMax(NextPowerOfTwo(initialSize), max)
    {
      hide Pow2;
      RoundedUp(initialSize);
      RoundedUp(max);
      hide NextPowerOfTwo;
      IndexSmall(0, NextPowerOfTwo(initialSize));
      items := new T[NextPowerOfTwo(initialSize)];
      head, tail, count, closed := 0, 0, 0, false;
      maxSize := NormalMax(NextPowerOfTwo(initialSize), max);
      this.policy := policy;
    }

    /** `resizeTo`: the elements move to the beginning of a larger ring. */
    method ResizeTo(targetSize: nat)
      requires Valid() && IsPow2(targetSize) && items.Length < targetSize && (maxSize > 0 ==> targetSize <= maxSize)
      modifies this`items, this`head, this`tail
      ensures Valid() && Contents() == old(Contents()) && items.Length == targetSize && fresh(items)
    {
      hide IsPow2, Index, Window;
      var newItems := Unrolled(targetSize);
      IndexSmall(count, targetSize);
      WindowPieces(newItems[..], 0, count);
      items, head, tail := newItems, 0, count;
    }

    method Unrolled(targetSize: nat) returns (newItems: array<T>)
      requires Valid() && items.Length < targetSize
      ensures fresh(newItems) && newItems.Length == targetSize && newItems[..count] == Contents()
    {
      hide IsPow2, Index, Window;
      var oldLen := items.Length;
      newItems := new T[targetSize];
      var curr, i := head, 0;
      ghost var b := items[..];
      IndexSmall(head, oldLen);
      while i < count
        invariant 0 <= i <= count && curr == Index(head + i, oldLen) && curr < oldLen && newItems.Length == targetSize && fresh(newItems)
        invariant items[..] == b && forall j :: 0 <= j < i ==> newItems[j] == At(b, head, j)
      {
        newItems[i] := items[curr];
        CountedUp(head, i, 1, oldLen);
        curr := Index(curr + 1, oldLen);
        i := i + 1;
      }
      assert newItems[..count] == Window(b, head, count);
    }

    /** `Enqueue`: refused when closed, or when the ring is full and may not grow. */
    method Enqueue(item: T) returns (ok: bool)
      requires Valid()
      modifies this, items
      ensures Valid() && (items == old(items) || fresh(items)) && closed == old(closed) && maxSize == old(maxSize)
      ensures ok <==> !closed && HasRoom(old(items.Length), maxSize, policy, old(count), 1)
      ensures Contents() == if ok then old(Contents()) + [item] else old(Contents())
    {
      if closed { return false; }
      hide IsPow2, Index, Window, Overwritten;
      Last(head, count, items.Length);
      var next := Index(tail + 1, items.Length);
      if next == head {
        var grown := Double();
        if !grown { return false; }
        next := Index(tail + 1, items.Length);
      }
      Place(item, next);
      ok := true;
    }

    method Place(item: T, next: nat)
      requires Valid() && count + 1 < items.Length && next == Index(tail + 1, items.Length)
      modifies this`tail, this`count, items
      ensures Valid() && Contents() == old(Contents()) + [item]
    {
      hide IsPow2, Index, Window, Overwritten;
      Appending(items[..], head, count, [item]);
      Overwrite1(items[..], tail, item);
      items[tail] := item;
      tail, count := next, count + 1;
    }

    /** What a full ring does for one more element. */
    method Double() returns (ok: bool)
      requires Valid()
      modifies this`items, this`head, this`tail
      ensures Valid() && Contents() == old(Contents()) && (items == old(items) || fresh(items))
      ensures ok <==> policy.Resize? && (maxSize == 0 || old(items.Length) < maxSize)
      ensures items.Length == (if ok then 2 * old(items.Length) else old(items.Length)) && (!ok ==> items == old(items))
    {
      if maxSize > 0 && items.Length < maxSize { LessMeansHalf(items.Length, maxSize); }
      DoublePow2(items.Length);
      hide IsPow2, Index, Window;
      match policy
      case Resize =>
        if maxSize > 0 && items.Length >= maxSize { return false; }
        ResizeTo(items.Length * 2);
        ok := true;
      case Drop => ok := false;
    }

    /** `EnqueueBatch`: all of the batch or nothing; an empty batch always succeeds. */
    method EnqueueBatch(batch: seq<T>) returns (ok: bool)
      requires Valid()
      modifies this, items
      ensures Valid() && (items == old(items) || fresh(items)) && closed == old(closed) && maxSize == old(maxSize)
      ensures ok <==> batch == [] || (!closed && HasRoom(old(items.Length), maxSize, policy, old(count), |batch|))
      ensures Contents() == if ok then old(Contents()) + batch else old(Contents())
    {
      hide IsPow2, Index, Window, Overwritten;
      if batch == [] { assert Contents() + batch == Contents(); return true; }
      if closed { return false; }
      var need := |batch|;
      if items.Length - 1 - count < need {
        if policy.Drop? { return false; }
        var target := Target(need);
        if target.None? { return false; }
        ResizeTo(target.value);
      }
      Appending(items[..], head, count, batch);
      CopyAround(items, tail, batch);
      var n, first := items.Length, items.Length - tail;
      IndexSmall(tail + need, n);
      if first >= need {
        tail := Index(tail + need, n);
      } else {
        IndexSmall(need - first, n);
        tail := Index(need - first, n);
      }
      count := count + need;
      ok := true;
    }

    /** The loop that doubles until the batch fits, or gives up at the limit. */
    method Target(need: nat) returns (r: Option<nat>)
      requires Valid() && items.Length - 1 - count < need
      ensures r.Some? <==> maxSize == 0 || count + need < maxSize
      ensures r.Some? ==> IsPow2(r.value) && items.Length < r.value && count + need < r.value && (maxSize > 0 ==> r.value <= maxSize)
    {
      var target := items.Length;
      while target - 1 - count < need
        invariant IsPow2(target) && items.Length <= target && (maxSize > 0 ==> target <= maxSize)
        decreases count + need + 1 - target
      {
        if maxSize > 0 && target < maxSize { LessMeansHalf(target, maxSize); }
        DoublePow2(target);
        hide IsPow2;
        target := target * 2;
        if maxSize > 0 && target > maxSize { return None; }
      }
      r := Some(target);
    }

    method Front() returns (r: Option<T>)
      requires Valid()
      ensures r == if count == 0 then None else Some(Contents()[0])
    {
      if count == 0 { return None; }
      IndexSmall(head, items.Length);
      assert Contents()[0] == At(items[..], head, 0);
      r := Some(items[head]);
    }

    /** `DequeueBatch` into a buffer with room for `limit`, `Dequeue` for one: the oldest elements, and how many remain. */
    method DequeueBatch(limit: nat) returns (buf: seq<T>, left: nat)
      requires Valid()
      modifies this`head, this`count
      ensures Valid() && left == count
      ensures |buf| == (if limit < old(count) then limit else old(count)) && buf == old(Contents())[..|buf|]
      ensures Contents() == old(Contents())[|buf|..]
    {
      hide IsPow2, Window, Index;
      if count == 0 { return [], 0; }
      if limit == 0 { assert Contents()[..0] == [] && Contents()[0..] == Contents(); return [], count; }
      var k := if limit > count then count else limit;
      var n := items.Length;
      buf := Oldest(k);
      WindowEnds(items[..], head, count, k);
      CountedUp(head, k, count - k, n);
      head, count := Index(head + k, n), count - k;
      left := count;
    }

    method Oldest(k: nat) returns (buf: seq<T>)
      requires Valid() && k <= count
      ensures buf == Contents()[..k]
    {
      hide IsPow2, Window, Index, At;
      ghost var b := items[..];
      WindowPieces(b, head, k);
      WindowEnds(b, head, count, k);
      var first := items.Length - head;
      if first > k { first := k; }
      buf := items[head..head + first];
      var remain := k - first;
      if remain > 0 { buf := buf + items[..remain]; }
      assert buf == Window(b, head, k);
    }

    method Close()
      requires Valid()
      modifies this`closed
      ensures Valid() && closed && Contents() == old(Contents())
    {
      closed := true;
    }
  }

  /** The slot behind the last one meets the head exactly when one slot is left. */
  lemma Last(head: nat, count: nat, n: nat)
    requires head < n && count < n
    ensures Index(Index(head + count, n) + 1, n) == head <==> count + 1 == n
  {
    IndexAdd(head + count, 1, n);
    IndexSmall(head + count + 1, n);
  }

  lemma CountedUp(head: nat, count: nat, k: nat, n: nat)
    requires n > 0
    ensures Index(Index(head + count, n) + k, n) == Index(head + count + k, n) && Index(head + count, n) < n
  {
    hide Index;
    IndexAdd(head + count, k, n);
  }

  /** Writing at the tail appends, and the tail moves along. */
  lemma Appending<T>(b: seq<T>, head: nat, count: nat, p: seq<T>)
    requires head < |b| && count + |p| < |b|
    ensures Window(Overwritten(b, Index(head + count, |b|), p), head, count + |p|) == Window(b, head, count) + p
    ensures Index(Index(head + count, |b|) + |p|, |b|) == Index(head + (count + |p|), |b|) && Index(head + count, |b|) < |b|
  {
    hide Index, Window, Overwritten;
    CountedUp(head, count, |p|, |b|);
    WriteAppends(b, head, count, p);
  }

  lemma Overwrite1<T>(b: seq<T>, pos: nat, x: T)
    requires pos < |b|
    ensures Overwritten(b, pos, [x]) == b[pos := x]
  {
  }
}
