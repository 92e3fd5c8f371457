/**
 What one call on the ring of Spsc achieves while the other side rests, from any state that any schedule has reached: which
 enqueues are accepted, and how many items a dequeue delivers.
 */
module SpscAlone {
  import opened Prelude
  import opened Spsc

  // ----- enqueue --------------------------------------------------------------------------------

  /** `k` steps of the producer, the consumer resting. */
  function ProducerAlone<T>(s: State<T>, k: nat): (r: State<T>)
    requires 0 < s.cap == |s.buffer|
    ensures r.cap == s.cap && |r.buffer| == |s.buffer|
    decreases k
  {
    if k == 0 then s else ProducerAlone(Do(s, Produce), k - 1)
  }

  /** The ring has room for these items. */
  predicate HasRoom<T>(s: State<T>, items: seq<T>) {
    s.head + |items| <= s.tail + s.cap
  }

  /** A call is refused only by the step that looks at the flag and finds it set, or, for a call that does not wait, by the load
      of tail that shows too little room. */
  lemma RefusedOnlyWhen<T(!new)>(cap: nat, s: State<T>)
    requires Reachable(cap, s) && !s.producer.Ready? && 0 < s.cap == |s.buffer|
    ensures var r := Do(s, Produce);
            r.producer.Ready? && !r.accepted <==>
              || ((s.producer.CheckClosed? || s.producer.SpinClosed?) && s.closed)
              || (s.producer.LoadTail? && !s.producer.wait && !HasRoom(s, s.producer.items))
  {
    ReachableInv(cap, s);
    hide Inv, Reachable, ConsumerStep;
  }

  /** Steps left to an enqueue whose items fit. */
  function SendLeft<T>(p: Producer<T>): int {
    match p
    case Ready => 0
    case CheckClosed(items, _) => |items| + 3
    case LoadTail(items, _) => |items| + 2
    case SpinClosed(items) => |items| + 3
    case SpinTail(items) => |items| + 2
    case Copy(items, i) => |items| - i + 1
    case Publish(_) => 1
  }

  lemma SendStep<T>(s: State<T>)
    requires Inv(s) && !s.closed && !s.producer.Ready? && s.producer.items != [] && HasRoom(s, s.producer.items)
    ensures var r := Do(s, Produce);
            && Inv(r) && !r.closed && 0 <= SendLeft(r.producer) < SendLeft(s.producer)
            && (if r.producer.Ready? then r.accepted && r.log == s.log + s.producer.items
                else r.log == s.log && r.producer.items == s.producer.items && HasRoom(r, r.producer.items))
  {
    DoInv(s, Produce);
    hide DataOk, ConsumerOk, ConsumerStep;
  }

  lemma {:induction false} SendAlone<T>(s: State<T>, k: nat)
    requires Inv(s) && !s.closed && !s.producer.Ready? && s.producer.items != [] && HasRoom(s, s.producer.items)
    requires k >= SendLeft(s.producer)
    ensures 0 < s.cap == |s.buffer|
    ensures var r := ProducerAlone(s, k); r.producer.Ready? && r.accepted && r.log == s.log + s.producer.items
    decreases k
  {
    SendStep(s);
    assert 0 < s.cap == |s.buffer|;
    var r := Do(s, Produce);
    hide Inv, Do, SendLeft;
    if r.producer.Ready? { ReadyStays(r, k - 1); } else { SendAlone(r, k - 1); }
  }

  lemma {:induction false} ReadyStays<T>(s: State<T>, k: nat)
    requires 0 < s.cap == |s.buffer| && s.producer.Ready?
    ensures ProducerAlone(s, k) == s
    decreases k
  {
    if k > 0 {
      assert Do(s, Produce) == s;
      hide Do;
      ReadyStays(s, k - 1);
    }
  }

  /** What an enqueue left alone comes to: refused on a closed queue; otherwise accepted, with exactly its items at the end of the
      log, if and only if they fit, and if they do not it is refused, or waits. */
  lemma EnqueueOutcome<T(!new)>(cap: nat, s: State<T>, items: seq<T>, wait: bool, k: nat)
    requires Reachable(cap, s) && s.producer.Ready? && 0 < s.cap == |s.buffer| && k >= |items| + 3
    ensures var r := ProducerAlone(Do(s, Enqueue(items, wait)), k);
            if s.closed then r.producer.Ready? && !r.accepted && r.log == s.log
            else if items == [] || HasRoom(s, items) then r.producer.Ready? && r.accepted && r.log == s.log + items
            else if wait then !r.producer.Ready? && r.log == s.log
            else r.producer.Ready? && !r.accepted && r.log == s.log
  {
    ReachableInv(cap, s);
    var c := Do(s, Enqueue(items, wait));
    DoInv(s, Enqueue(items, wait));
    var c1 := Do(c, Produce);
    var c2 := Do(c1, Produce);
    assert s.tailCache <= s.tail;
    assert ProducerAlone(c, k) == ProducerAlone(c1, k - 1) == ProducerAlone(c2, k - 2);
    hide Inv, Reachable, ConsumerStep;
    if s.closed || items == [] {
      assert c1.producer.Ready? && s.log + [] == s.log;
      ReadyStays(c1, k - 1);
    } else if HasRoom(s, items) {
      hide Do;
      SendAlone(c, k);
    } else {
      assert c2.log == s.log && if wait then c2.producer == SpinClosed(items) else c2.producer.Ready? && !c2.accepted;
      if wait { SpinsOn(c2, k - 2); } else { ReadyStays(c2, k - 2); }
    }
  }

  lemma {:induction false} SpinsOn<T>(s: State<T>, k: nat)
    requires 0 < s.cap == |s.buffer| && (s.producer.SpinClosed? || s.producer.SpinTail?) && !s.closed && !HasRoom(s, s.producer.items)
    ensures var r := ProducerAlone(s, k); !r.producer.Ready? && r.log == s.log
    decreases k
  {
    if k > 0 {
      var r := Do(s, Produce);
      assert (r.producer.SpinClosed? || r.producer.SpinTail?) && r.producer.items == s.producer.items && r.log == s.log && !r.closed
             && HasRoom(r, r.producer.items) == HasRoom(s, s.producer.items);
      hide Do;
      SpinsOn(r, k - 1);
    }
  }

  // ----- dequeue --------------------------------------------------------------------------------

  /** `k` steps of the consumer, the producer resting. */
  function ConsumerAlone<T>(s: State<T>, k: nat): (r: State<T>)
    requires 0 < s.cap == |s.buffer|
    ensures r.cap == s.cap && |r.buffer| == |s.buffer|
    decreases k
  {
    if k == 0 then s else ConsumerAlone(Do(s, Consume), k - 1)
  }

  /** Under every schedule: a dequeue says closed only if the flag is set, and empty only if it is not. */
  lemma ReportMeans<T(!new)>(cap: nat, s: State<T>)
    requires Reachable(cap, s) && !s.consumer.Resting? && 0 < s.cap == |s.buffer|
    ensures var r := Do(s, Consume);
            r.consumer.Resting? ==> (r.outcome.Drained? ==> s.closed) && (r.outcome.Empty? ==> !s.closed)
                                    && (r.outcome.Took? <==> s.consumer.StoreTail?)
  {
    ReachableInv(cap, s);
    hide DataOk, ProducerOk, ProducerStep, Reachable;
  }

  /** The dequeue under way takes `n` items from position `base` on. */
  ghost predicate Takes<T>(s: State<T>, base: nat, n: nat) {
    match s.consumer
    case Take(_, m) => s.tail == base && m == n
    case Clear(got, _) => s.tail == base && |got| == n
    case StoreTail(got) => s.tail == base && |got| == n
    case Resting => s.outcome == Took(n) && s.tail == base + n
    case _ => false
  }

  function TakeLeft<T>(c: Consumer<T>): int {
    match c
    case Take(got, n) => 2 * n - |got| + 1
    case Clear(got, i) => |got| - i + 1
    case StoreTail(_) => 1
    case _ => 0
  }

  lemma TakesStep<T>(s: State<T>, base: nat, n: nat)
    requires Inv(s) && Takes(s, base, n) && !s.consumer.Resting?
    ensures var r := Do(s, Consume); Inv(r) && Takes(r, base, n) && r.log == s.log && 0 <= TakeLeft(r.consumer) < TakeLeft(s.consumer)
  {
    DoInv(s, Consume);
    if s.consumer.Take? { TakeInv(s); }
    ConsumerLeaves(s);
    hide DataOk, ProducerOk, ProducerStep;
  }

  lemma {:induction false} TakesAlone<T>(s: State<T>, base: nat, n: nat, k: nat)
    requires Inv(s) && Takes(s, base, n) && k >= TakeLeft(s.consumer)
    ensures 0 < s.cap == |s.buffer|
    ensures var r := ConsumerAlone(s, k); Inv(r) && r.consumer.Resting? && Takes(r, base, n) && r.log == s.log
    decreases k
  {
    assert 0 < s.cap == |s.buffer|;
    if s.consumer.Resting? {
      if k > 0 { RestStays(s, k); }
    } else {
      TakesStep(s, base, n);
      hide Inv, Do, TakeLeft, Takes;
      TakesAlone(Do(s, Consume), base, n, k - 1);
    }
  }

  lemma {:induction false} RestStays<T>(s: State<T>, k: nat)
    requires 0 < s.cap == |s.buffer| && s.consumer.Resting?
    ensures ConsumerAlone(s, k) == s
    decreases k
  {
    if k > 0 {
      assert Do(s, Consume) == s;
      hide Do;
      RestStays(s, k - 1);
    }
  }

  /** The items a dequeue finds: those its cached index shows, or, when it shows none, all there are. */
  function Found<T>(s: State<T>): nat {
    if s.tail < s.headCache then s.headCache - s.tail else if s.tail < s.head then s.head - s.tail else 0
  }

  /** What a dequeue left alone comes to: with items found it delivers as many of them as it has room for, the oldest first; with
      none it says closed or empty, or, if it waits on an open queue, goes on waiting. */
  lemma DequeueOutcome<T(!new)>(cap: nat, s: State<T>, limit: nat, wait: bool, k: nat)
    requires Reachable(cap, s) && s.consumer.Resting? && limit > 0 && 0 < s.cap == |s.buffer| && k >= 2 * limit + 5
    ensures var r, n := ConsumerAlone(Do(s, Dequeue(limit, wait)), k), Min(limit, Found(s));
            if n > 0 then
              r.consumer.Resting? && r.outcome == Took(n) && r.log == s.log && s.tail + n <= |s.log|
              && r.delivered == s.delivered + s.log[s.tail..s.tail + n]
            else if s.closed || !wait then
              r.consumer.Resting? && r.delivered == s.delivered == s.log && r.outcome == if s.closed then Drained else Empty
            else !r.consumer.Resting? && r.delivered == s.delivered == s.log
  {
    hide Reachable, Inv, Do, ConsumerAlone, CountersOk;
    ReachableInv(cap, s);
    Settled(s);
    var c := Do(s, Dequeue(limit, wait));
    DoInv(s, Dequeue(limit, wait));
    var c1 := Do(c, Consume);
    DoInv(c, Consume);
    FirstSteps(s, limit, wait, k);
    var n := Min(limit, Found(s));
    if s.tail < s.headCache {
      TakesAlone(c, s.tail, n, k);
      Delivered(s, ConsumerAlone(c, k), n);
    } else if s.tail < s.head {
      TakesAlone(c1, s.tail, n, k - 1);
      Delivered(s, ConsumerAlone(c1, k - 1), n);
    } else {
      EmptyOutcome(s, c1, limit, wait, k - 1);
    }
  }

  lemma Settled<T>(s: State<T>)
    requires Inv(s)
    ensures CountersOk(s) && |s.log| == s.head && s.tail <= s.head && s.delivered == s.log[..s.tail] && (s.head == s.tail ==> s.delivered == s.log)
  {
    hide DataOk, ProducerOk, ConsumerOk;
    if s.head == s.tail { assert s.log[..s.tail] == s.log; }
  }

  lemma FirstSteps<T>(s: State<T>, limit: nat, wait: bool, k: nat)
    requires 0 < s.cap == |s.buffer| && s.consumer.Resting? && limit > 0 && k > 0
    ensures var n, c := Min(limit, Found(s)), Do(s, Dequeue(limit, wait)); var c1 := Do(c, Consume);
            && ConsumerAlone(c, k) == ConsumerAlone(c1, k - 1)
            && (if s.tail < s.headCache then Takes(c, s.tail, n) && c.log == s.log && TakeLeft(c.consumer) == 2 * n + 1
                else if s.tail < s.head then Takes(c1, s.tail, n) && c1.log == s.log && TakeLeft(c1.consumer) == 2 * n + 1
                else c1 == s.(consumer := if wait then SpinHead(limit) else TryClosed(limit, s.head)))
  {
  }

  lemma Delivered<T>(s: State<T>, r: State<T>, n: nat)
    requires Inv(r) && r.log == s.log && r.tail == s.tail + n && s.tail <= |s.log| && s.delivered == s.log[..s.tail]
    ensures s.tail + n <= |s.log| && r.delivered == s.delivered + s.log[s.tail..s.tail + n]
  {
    hide DataOk, ProducerOk, ConsumerOk;
  }

  lemma EmptyOutcome<T>(s: State<T>, c1: State<T>, limit: nat, wait: bool, k: nat)
    requires 0 < s.cap == |s.buffer| && s.head <= s.tail && k >= 4
    requires c1 == s.(consumer := if wait then SpinHead(limit) else TryClosed(limit, s.head))
    ensures var r := ConsumerAlone(c1, k);
            && r.delivered == s.delivered
            && if s.closed || !wait then r.consumer.Resting? && r.outcome == if s.closed then Drained else Empty else !r.consumer.Resting?
  {
    var c2 := Do(c1, Consume);
    var c3 := Do(c2, Consume);
    var c4 := Do(c3, Consume);
    assert ConsumerAlone(c1, k) == ConsumerAlone(c2, k - 1) == ConsumerAlone(c3, k - 2) == ConsumerAlone(c4, k - 3);
    if !wait {
      RestStays(c2, k - 1);
    } else if s.closed {
      assert c2.consumer == PollClosed(limit) && c3.consumer == LastLook(limit) && c4.consumer.Resting?;
      RestStays(c4, k - 3);
    } else {
      hide Do, ConsumerAlone;
      WaitsOn(c1, k);
    }
  }

  lemma {:induction false} WaitsOn<T>(s: State<T>, k: nat)
    requires 0 < s.cap == |s.buffer| && s.head <= s.tail && !s.closed && (s.consumer.SpinHead? || s.consumer.PollClosed?)
    ensures var r := ConsumerAlone(s, k); !r.consumer.Resting? && r.delivered == s.delivered
    decreases k
  {
    if k > 0 {
      var r := Do(s, Consume);
      assert (r.consumer.SpinHead? || r.consumer.PollClosed?) && r.head == s.head && r.tail == s.tail && !r.closed && r.delivered == s.delivered;
      hide Do;
      WaitsOn(r, k - 1);
    }
  }
}
