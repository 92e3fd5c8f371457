/**
 The double-buffer queue of `zqueue/swap.go`: writers append to one slice, Pop hands the whole slice out and
 goes on with the other one. The batch that Pop returns is the queue's own array. Calls are one after the other,
 as the mutex makes them; a slice is an array with a length.
 */
module SwapQueue {

  class SmartDoubleQueue<T(0)> {
    var write: array<T>
    var writeLen: nat
    var read: array<T>
    var signal: bool
    var closed: bool
    var count: int
    var outstanding: nat
    const initCap: nat
    const maxCap: int
    const isNotify: bool
    /** Everything accepted, everything handed out, and the batch handed out last. */
    ghost var enqueued: seq<T>
    ghost var popped: seq<T>
    ghost var lent: seq<T>

    ghost predicate Valid()
      reads this, write, read
    {
      && write != read && writeLen <= write.Length && |lent| <= read.Length
      && popped + write[..writeLen] == enqueued && read[..|lent|] == lent
      && (maxCap > 0 ==> writeLen + outstanding <= maxCap) && (maxCap <= 0 ==> outstanding == 0)
      && count == if maxCap >= 0 then writeLen + outstanding else |enqueued|
    }

    constructor (wantedCap: int, maxCap: int, isNotify: bool)
      ensures Valid() && fresh(write) && fresh(read) && enqueued == popped == lent == [] && !closed
      ensures write.Length == read.Length == initCap && writeLen == outstanding == 0 && this.maxCap == maxCap && this.isNotify == isNotify && initCap == if wantedCap < 64 then 64 else wantedCap
    {
      var n := if wantedCap < 64 then 64 else wantedCap;
      initCap, this.maxCap, this.isNotify := n, maxCap, isNotify;
      write, read := new T[n], new T[n];
      writeLen, signal, closed, count, outstanding := 0, false, false, 0, 0;
      enqueued, popped, lent := [], [], [];
    }

    /** `append(q.write, items...)`: in place if the capacity allows, else in a larger array; `extra` is the
        runtime's choice of how much larger. */
    method Append(items: seq<T>, extra: nat)
      requires writeLen <= write.Length
      modifies this`write, this`writeLen, write
      ensures (write == old(write) || fresh(write)) && writeLen == old(writeLen) + |items| <= write.Length
      ensures old(writeLen) + |items| <= old(write.Length) ==> write == old(write)
      ensures write[..writeLen] == old(write[..writeLen]) + items
    {
      if writeLen + |items| > write.Length {
        var bigger := new T[writeLen + |items| + extra];
        forall i | 0 <= i < writeLen { bigger[i] := write[i]; }
        write := bigger;
      }
      forall i | 0 <= i < |items| { write[writeLen + i] := items[i]; }
      writeLen := writeLen + |items|;
    }

    /** `Enqueue` appends all or nothing; the batch that is out is not touched. */
    method Enqueue(items: seq<T>, extra: nat) returns (ok: bool)
      requires Valid()
      modifies this, write
      ensures Valid() && (write == old(write) || fresh(write)) && read == old(read)
      ensures old(writeLen) + |items| <= old(write.Length) ==> write == old(write)
      ensures ok <==> items == [] || (!closed && (maxCap > 0 ==> old(writeLen) + outstanding + |items| <= maxCap))
      ensures enqueued == (if ok then old(enqueued) + items else old(enqueued)) && popped == old(popped) && lent == old(lent)
      ensures write[..writeLen] == if ok then old(write[..writeLen]) + items else old(write[..writeLen])
      ensures closed == old(closed) && outstanding == old(outstanding)
      ensures signal == (old(signal) || (ok && items != [] && isNotify))
    {
      if items == [] { return true; }
      if closed { return false; }
      if maxCap > 0 {
        var pending := writeLen + 0 + outstanding + |items|;
        if pending > maxCap { return false; }
      }
      Append(items, extra);
      enqueued := enqueued + items;
      count := count + |items|;
      if isNotify && !closed { signal := true; }
      ok := true;
    }

    /** `Pop`: everything written since the last batch, in order, in the array it was written to. Only a Pop that
        finds something gives the array of the batch before back to the writers. */
    method Pop() returns (batch: array<T>, n: nat, ok: bool)
      requires Valid()
      modifies this
      ensures Valid() && enqueued == old(enqueued) && closed == old(closed) && signal == old(signal)
      ensures if old(writeLen) == 0 then
                n == 0 && ok == !closed && lent == old(lent) && popped == old(popped) && read == old(read) && write == old(write)
                && outstanding == old(outstanding)
              else
                && ok && batch == read == old(write) && n == old(writeLen) && lent == batch[..n] == old(write[..writeLen])
                && popped == old(popped) + batch[..n] && writeLen == 0
                && (if old(read.Length) <= initCap * 32 then write == old(read) else fresh(write))
                && outstanding == if maxCap > 0 then old(outstanding) + n else 0
    {
      if writeLen == 0 { return read, 0, !closed; }
      if maxCap > 0 && read.Length > initCap * 32 { read := new T[initCap]; }
      read, write := write, read;
      batch, n := read, writeLen;
      if write.Length > initCap * 32 { write := new T[initCap]; }
      writeLen := 0;
      if maxCap > 0 { outstanding := outstanding + n; }
      if maxCap == 0 && n > 0 { count := count - n; }
      popped, lent := popped + batch[..n], batch[..n];
      ok := true;
    }

    /** `ReleaseBatch`: gives back the quota of all batches. */
    method ReleaseBatch()
      requires Valid()
      modifies this`outstanding, this`count
      ensures Valid() && outstanding == 0
      ensures maxCap >= 0 ==> count == writeLen
    {
      var n := outstanding;
      outstanding := 0;
      if n > 0 { count := count - n; }
    }

    method Close()
      requires Valid()
      modifies this`closed, this`signal
      ensures Valid() && closed && (signal <==> old(signal) || (isNotify && !old(closed)))
    {
      if closed { return; }
      closed := true;
      if isNotify { signal := true; }
    }

    function Shows(accepted: seq<T>): View<T>
      reads this, write
      requires writeLen <= write.Length
    {
      View(write[..writeLen], outstanding, closed, [], accepted)
    }

    /** One operation; the batch, or nothing. `extra` is as for Append. */
    method Do(op: Op<T>, extra: nat, ghost accepted: seq<T>) returns (batch: seq<T>)
      requires Valid()
      modifies this, write
      ensures Valid() && (write == old(write) || write == old(read) || fresh(write)) && (read == old(read) || read == old(write))
      ensures var v := Step(maxCap, old(Shows(accepted)), op);
              Shows(v.accepted) == v.(batches := []) && v.batches == if batch == [] then [] else [batch]
      ensures (op.Take? ==> old(writeLen) == 0) ==> read == old(read) && lent == old(lent)
    {
      batch := [];
      match op
      case Put(items) =>
        var ok := Enqueue(items, extra);
        if ok { assert write[..writeLen] == old(write[..writeLen]) + items; }
      case Take =>
        var b, n, ok := Pop();
        batch := b[..n];
      case Release => ReleaseBatch();
      case Shut => Close();
    }

    /** In every state the batches handed out so far are a prefix of what was enqueued, the last one is still
        as it was handed out, and with a limit the items in the queue and in unreleased batches stay within it. */
    lemma Guarantees()
      requires Valid()
      ensures popped <= enqueued && write[..writeLen] == enqueued[|popped|..] && read[..|lent|] == lent
      ensures maxCap > 0 ==> |enqueued| - |popped| + outstanding <= maxCap
      ensures maxCap >= 0 ==> count == |enqueued| - |popped| + outstanding
    {
      assert |enqueued| == |popped| + writeLen;
    }
  }

  // ----- whole runs -----------------------------------------------------------------------------

  datatype Op<T> = Put(items: seq<T>) | Take | Release | Shut

  /** What a caller can tell: the items not handed out, the quota of unreleased batches, the batches handed out and
      the items accepted. */
  datatype View<T> = View(unread: seq<T>, out: nat, closed: bool, batches: seq<seq<T>>, accepted: seq<T>)

  predicate Accepts<T>(cap: int, v: View<T>, items: seq<T>) {
    items == [] || (!v.closed && (cap > 0 ==> |v.unread| + v.out + |items| <= cap))
  }

  function Step<T>(cap: int, v: View<T>, op: Op<T>): View<T> {
    match op
    case Put(items) => if Accepts(cap, v, items) then v.(unread := v.unread + items, accepted := v.accepted + items) else v
    case Take =>
      if v.unread == [] then v
      else v.(unread := [], out := if cap > 0 then v.out + |v.unread| else v.out, batches := v.batches + [v.unread])
    case Release => v.(out := 0)
    case Shut => v.(closed := true)
  }

  /** Operations one after the other. */
  function Run<T>(cap: int, v: View<T>, ops: seq<Op<T>>): View<T>
    decreases |ops|
  {
    if ops == [] then v else Run(cap, Step(cap, v, ops[0]), ops[1..])
  }

  /** No Pop among the operations finds anything. */
  predicate FindsNothing<T>(cap: int, v: View<T>, ops: seq<Op<T>>)
    decreases |ops|
  {
    ops == [] || ((ops[0].Take? ==> v.unread == []) && FindsNothing(cap, Step(cap, v, ops[0]), ops[1..]))
  }

  function Concat<T>(ss: seq<seq<T>>): seq<T> {
    if ss == [] then [] else Concat(ss[..|ss| - 1]) + ss[|ss| - 1]
  }

  ghost predicate Balanced<T>(cap: int, v: View<T>) {
    Concat(v.batches) + v.unread == v.accepted && (cap > 0 ==> |v.unread| + v.out <= cap)
  }

  lemma StepBalanced<T>(cap: int, v: View<T>, op: Op<T>)
    requires Balanced(cap, v)
    ensures Balanced(cap, Step(cap, v, op)) && v.accepted <= Step(cap, v, op).accepted
  {
    var w := Step(cap, v, op);
    if w.batches != v.batches { assert w.batches[..|v.batches|] == v.batches; }
  }

  /** Over every run: the batches concatenate to a prefix of what was accepted, the rest is still there in order,
      and with a limit the items there and in unreleased batches stay within it. */
  lemma {:induction false} RunBalanced<T>(cap: int, v: View<T>, ops: seq<Op<T>>)
    requires Balanced(cap, v)
    ensures Balanced(cap, Run(cap, v, ops)) && v.accepted <= Run(cap, v, ops).accepted
    decreases |ops|
  {
    if ops != [] {
      StepBalanced(cap, v, ops[0]);
      hide Step, Balanced;
      RunBalanced(cap, Step(cap, v, ops[0]), ops[1..]);
    }
  }

  /** The quota that counts for the limit is the number of items in the batches since the last Release. */
  lemma {:induction false} OutCounts<T>(cap: int, v: View<T>, ops: seq<Op<T>>)
    requires cap > 0 && forall i :: 0 <= i < |ops| ==> !ops[i].Release?
    ensures var r := Run(cap, v, ops); r.out == v.out + |Concat(r.batches)| - |Concat(v.batches)|
    decreases |ops|
  {
    if ops != [] {
      var w := Step(cap, v, ops[0]);
      if w.batches != v.batches { assert w.batches[..|v.batches|] == v.batches; }
      hide Step, Concat;
      OutCounts(cap, w, ops[1..]);
    }
  }

  /** A step looks at no batch handed out before. */
  lemma StepOnBatches<T>(cap: int, v: View<T>, op: Op<T>)
    ensures var w := Step(cap, v.(batches := []), op); Step(cap, v, op) == w.(batches := v.batches + w.batches)
  {
  }

  /** A run of the queue itself does what Run says; and as long as no Pop finds anything, the batch handed out last
      stays as it is, in its array. */
  method Use<T(0)>(q: SmartDoubleQueue<T>, ops: seq<Op<T>>, extra: nat -> nat) returns (batches: seq<seq<T>>, ghost v: View<T>)
    requires q.Valid()
    modifies q, q.write, q.read
    ensures q.Valid() && v == Run(q.maxCap, old(q.Shows([])), ops) && q.Shows(v.accepted) == v.(batches := []) && batches == v.batches
    ensures FindsNothing(q.maxCap, old(q.Shows([])), ops) ==> q.read == old(q.read) && q.lent == old(q.lent) && q.read[..|q.lent|] == q.lent
    ensures (q.write == old(q.write) || q.write == old(q.read) || fresh(q.write)) && (q.read == old(q.read) || q.read == old(q.write) || fresh(q.read))
  {
    hide Step;
    batches, v := [], q.Shows([]);
    var i := 0;
    assert ops[0..] == ops;
    while i < |ops|
      invariant 0 <= i <= |ops| && q.Valid() && q.Shows(v.accepted) == v.(batches := []) && batches == v.batches
      invariant Run(q.maxCap, v, ops[i..]) == Run(q.maxCap, old(q.Shows([])), ops)
      invariant FindsNothing(q.maxCap, old(q.Shows([])), ops) ==> FindsNothing(q.maxCap, v, ops[i..]) && q.read == old(q.read) && q.lent == old(q.lent)
      invariant q.write == old(q.write) || q.write == old(q.read) || fresh(q.write)
      invariant q.read == old(q.read) || q.read == old(q.write) || fresh(q.read)
    {
      assert ops[i..][0] == ops[i] && ops[i..][1..] == ops[i + 1..];
      var w := q.Do(ops[i], extra(i), v.accepted);
      if w != [] { batches := batches + [w]; }
      StepOnBatches(q.maxCap, v, ops[i]);
      v := Step(q.maxCap, v, ops[i]);
      i := i + 1;
    }
  }

  /** From the beginning: what a caller of a new queue gets, whatever it does. */
  method WholeRun<T(0)>(initCap: int, maxCap: int, isNotify: bool, ops: seq<Op<T>>, extra: nat -> nat) returns (batches: seq<seq<T>>, rest: seq<T>, unreleased: nat, ghost accepted: seq<T>)
    ensures accepted == Run(maxCap, View([], 0, false, [], []), ops).accepted && Concat(batches) + rest == accepted
    ensures unreleased == Run(maxCap, View([], 0, false, [], []), ops).out && (maxCap > 0 ==> |rest| + unreleased <= maxCap)
  {
    var q := new SmartDoubleQueue<T>(initCap, maxCap, isNotify);
    ghost var v;
    RunBalanced(maxCap, View([], 0, false, [], []), ops);
    batches, v := Use(q, ops, extra);
    rest, unreleased, accepted := q.write[..q.writeLen], q.outstanding, v.accepted;
  }

  /** Whatever is done with the queue between two Pops that find something leaves the batch alone. */
  method KeepBatch<T(0)>(q: SmartDoubleQueue<T>, ops: seq<Op<T>>, extra: nat -> nat) returns (batch: array<T>, n: nat)
    requires q.Valid() && q.writeLen > 0
    requires FindsNothing(q.maxCap, Step(q.maxCap, q.Shows([]), Take).(batches := []), ops)
    modifies q, q.write, q.read
    ensures q.Valid() && n == old(q.writeLen) <= batch.Length && batch[..n] == old(q.write[..q.writeLen])
  {
    var ok;
    batch, n, ok := q.Pop();
    assert batch[..n] == q.lent;
    var _, _ := Use(q, ops, extra);
  }

  /** It is no longer safe after one more Pop that finds something: the next item written goes into the array
      of the first batch. */
  method BatchIsReused<T(0)>(x: T, y: T, z: T) returns (batch: array<T>)
    ensures batch.Length > 0 && batch[0] == z
  {
    var q := new SmartDoubleQueue<T>(64, 0, false);
    var ok := q.Enqueue([x], 0);
    q.Guarantees();
    assert q.write[..q.writeLen] == [x];
    var n, second;
    batch, n, ok := q.Pop();
    assert batch.Length == 64 && batch[..n][0] == x;
    ok := q.Enqueue([y], 0);
    second, n, ok := q.Pop();
    assert q.write == batch;
    ok := q.Enqueue([z], 0);
    q.Guarantees();
    assert q.write[..q.writeLen] == [z];
    assert batch[..1][0] == z;
  }
}
