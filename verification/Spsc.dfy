/**
 The bounded single-producer single-consumer ring of `zqueue/spsc.go`, as a step machine. The four
 enqueue methods are one call Enqueue(items, wait), the three dequeue methods one call
 Dequeue(limit, wait): the single-item forms do the same accesses as a batch of one. Every atomic
 access, and every copy into or clearing of one slot, is a step of its own; the indices that only
 their own thread uses (tailCache, headCache) are read and written with the step next to them.
 Positions are not reduced modulo 2^64.
 */
module Spsc {
  import opened Prelude
  import PowerOfTwo

  datatype Producer<T> =
    | Ready
    | CheckClosed(items: seq<T>, wait: bool)
    | LoadTail(items: seq<T>, wait: bool)
    | SpinClosed(items: seq<T>)
    | SpinTail(items: seq<T>)
    | Copy(items: seq<T>, i: nat)
    | Publish(items: seq<T>)

  datatype Consumer<T> =
    | Resting
    | LoadHead(limit: nat, wait: bool)
    | SpinHead(limit: nat)
    | PollClosed(limit: nat)
    | LastLook(limit: nat)
    | TryClosed(limit: nat, seen: nat)
    | Take(got: seq<T>, n: nat)
    | Clear(got: seq<T>, i: nat)
    | StoreTail(got: seq<T>)

  /** What the last finished dequeue returned: (n, true), (0, true) or (0, false). */
  datatype Outcome = NoneYet | Took(n: nat) | Empty | Drained

  /** `log` are the items published so far; `delivered` those handed to the caller of Dequeue. */
  datatype State<T> = State(cap: nat, head: nat, tail: nat, tailCache: nat, headCache: nat, closed: bool,
                            buffer: seq<Option<T>>, producer: Producer<T>, consumer: Consumer<T>,
                            accepted: bool, outcome: Outcome, log: seq<T>, delivered: seq<T>)

  datatype Action<T> =
    | Enqueue(items: seq<T>, wait: bool)
    | Produce
    | Dequeue(limit: nat, wait: bool)
    | Consume
    | Close

  /** The constructor's adjustment of the requested capacity. */
  function Capacity(requested: int): nat {
    var c := if requested < 2 then 2 else if requested > 1073741824 then 1073741824 else requested;
    if PowerOfTwo.And(c, c - 1) == 0 then c else PowerOfTwo.NextPowerOfTwo(c)
  }

  function Init<T>(cap: nat): State<T> {
    State(cap, 0, 0, 0, 0, false, seq(cap, i => None), Ready, Resting, false, NoneYet, [], [])
  }

  // ----- producer side --------------------------------------------------------------------------

  function Return<T>(s: State<T>, ok: bool): State<T> {
    s.(producer := Ready, accepted := ok)
  }

  function Fits<T>(s: State<T>, items: seq<T>, tail: nat): bool {
    s.head + |items| <= tail + s.cap
  }

  function CheckClosedStep<T>(s: State<T>, items: seq<T>, wait: bool): State<T> {
    if s.closed then Return(s, false)
    else if items == [] then Return(s, true)
    else if Fits(s, items, s.tailCache) then s.(producer := Copy(items, 0))
    else s.(producer := LoadTail(items, wait))
  }

  function LoadTailStep<T>(s: State<T>, items: seq<T>, wait: bool): State<T> {
    if Fits(s, items, s.tail) then s.(tailCache := s.tail, producer := Copy(items, 0))
    else if wait then s.(producer := SpinClosed(items))
    else Return(s, false)
  }

  function SpinTailStep<T>(s: State<T>, items: seq<T>): State<T> {
    if Fits(s, items, s.tail) then s.(tailCache := s.tail, producer := Copy(items, 0)) else s.(producer := SpinClosed(items))
  }

  function CopyStep<T>(s: State<T>, items: seq<T>, i: nat): State<T>
    requires 0 < s.cap == |s.buffer|
  {
    if i >= |items| then s else
    s.(buffer := s.buffer[Index(s.head + i, s.cap) := Some(items[i])],
       producer := if i + 1 < |items| then Copy(items, i + 1) else Publish(items))
  }

  function PublishStep<T>(s: State<T>, items: seq<T>): State<T> {
    Return(s.(head := s.head + |items|, log := s.log + items), true)
  }

  function ProducerStep<T>(s: State<T>): State<T>
    requires 0 < s.cap == |s.buffer|
  {
    match s.producer
    case Ready => s
    case CheckClosed(items, wait) => CheckClosedStep(s, items, wait)
    case LoadTail(items, wait) => LoadTailStep(s, items, wait)
    case SpinClosed(items) => if s.closed then Return(s, false) else s.(producer := SpinTail(items))
    case SpinTail(items) => SpinTailStep(s, items)
    case Copy(items, i) => CopyStep(s, items, i)
    case Publish(items) => PublishStep(s, items)
  }

  // ----- consumer side --------------------------------------------------------------------------

  function Report<T>(s: State<T>, o: Outcome): State<T> {
    s.(consumer := Resting, outcome := o)
  }

  /** Items are known to be there up to `head`: start copying out as many as there is room for. */
  function Begin<T>(s: State<T>, limit: nat, head: nat): State<T>
    requires s.tail < head
  {
    s.(headCache := head, consumer := Take([], Min(limit, head - s.tail)))
  }

  function DequeueStep<T>(s: State<T>, limit: nat, wait: bool): State<T> {
    if limit == 0 then Report(s, Empty)
    else if s.tail < s.headCache then Begin(s, limit, s.headCache)
    else s.(consumer := LoadHead(limit, wait))
  }

  function LoadHeadStep<T>(s: State<T>, limit: nat, wait: bool): State<T> {
    if s.tail < s.head then Begin(s, limit, s.head)
    else if wait then s.(consumer := SpinHead(limit))
    else s.(consumer := TryClosed(limit, s.head))
  }

  function SpinHeadStep<T>(s: State<T>, limit: nat): State<T> {
    if s.tail < s.head then Begin(s, limit, s.head) else s.(consumer := PollClosed(limit))
  }

  function TakeStep<T>(s: State<T>, got: seq<T>, n: nat): State<T>
    requires 0 < s.cap == |s.buffer|
  {
    var d := s.buffer[Index(s.tail + |got|, s.cap)];
    if d.None? then s
    else s.(consumer := if |got| + 1 < n then Take(got + [d.value], n) else Clear(got + [d.value], 0))
  }

  function ClearStep<T>(s: State<T>, got: seq<T>, i: nat): State<T>
    requires 0 < s.cap == |s.buffer|
  {
    s.(buffer := s.buffer[Index(s.tail + i, s.cap) := None],
       consumer := if i + 1 < |got| then Clear(got, i + 1) else StoreTail(got))
  }

  function StoreTailStep<T>(s: State<T>, got: seq<T>): State<T> {
    Report(s.(tail := s.tail + |got|, delivered := s.delivered + got), Took(|got|))
  }

  function ConsumerStep<T>(s: State<T>): State<T>
    requires 0 < s.cap == |s.buffer|
  {
    match s.consumer
    case Resting => s
    case LoadHead(limit, wait) => LoadHeadStep(s, limit, wait)
    case SpinHead(limit) => SpinHeadStep(s, limit)
    case PollClosed(limit) => s.(consumer := if s.closed then LastLook(limit) else SpinHead(limit))
    case LastLook(limit) => if s.head <= s.tail then Report(s, Drained) else s.(consumer := SpinHead(limit))
    case TryClosed(_, _) => Report(s, if s.closed then Drained else Empty)
    case Take(got, n) => TakeStep(s, got, n)
    case Clear(got, i) => ClearStep(s, got, i)
    case StoreTail(got) => StoreTailStep(s, got)
  }

  function Do<T>(s: State<T>, a: Action<T>): (r: State<T>)
    requires 0 < s.cap == |s.buffer|
    ensures r.cap == s.cap && |r.buffer| == |s.buffer|
  {
    match a
    case Enqueue(items, wait) => if s.producer.Ready? then s.(producer := CheckClosed(items, wait)) else s
    case Produce => ProducerStep(s)
    case Dequeue(limit, wait) => if s.consumer.Resting? then DequeueStep(s, limit, wait) else s
    case Consume => ConsumerStep(s)
    case Close => s.(closed := true)
  }

  /** Run a whole schedule. */
  function Exec<T>(s: State<T>, acts: seq<Action<T>>): (r: State<T>)
    requires 0 < s.cap == |s.buffer|
    ensures r.cap == s.cap && |r.buffer| == |s.buffer|
    decreases |acts|
  {
    if acts == [] then s else Exec(Do(s, acts[0]), acts[1..])
  }

  // ----- invariant ------------------------------------------------------------------------------

  ghost predicate ProducerOk<T>(p: Producer<T>, head: nat, limit: nat) {
    match p
    case Ready => true
    case CheckClosed(_, _) => true
    case LoadTail(items, _) => items != []
    case SpinClosed(items) => items != []
    case SpinTail(items) => items != []
    case Copy(items, i) => i < |items| && head + |items| <= limit
    case Publish(items) => items != [] && head + |items| <= limit
  }

  ghost predicate ConsumerOk<T>(c: Consumer<T>, log: seq<T>, tail: nat, headCache: nat) {
    match c
    case Resting => true
    case LoadHead(limit, _) => limit > 0 && headCache <= tail
    case SpinHead(limit) => limit > 0 && headCache <= tail
    case PollClosed(limit) => limit > 0 && headCache <= tail
    case LastLook(limit) => limit > 0 && headCache <= tail
    case TryClosed(_, seen) => seen == tail
    case Take(got, n) => |got| < n && tail + n <= headCache <= |log| && got == log[tail..tail + |got|]
    case Clear(got, i) => i < |got| && tail + |got| <= headCache <= |log| && got == log[tail..tail + |got|]
    case StoreTail(got) => got != [] && tail + |got| <= headCache <= |log| && got == log[tail..tail + |got|]
  }

  /** Items in the ring although not published yet. */
  function Written<T>(p: Producer<T>): seq<T> {
    match p
    case Copy(items, i) => if i <= |items| then items[..i] else []
    case Publish(items) => items
    case _ => []
  }

  /** Positions below this one have been cleared. */
  function Cleared<T>(c: Consumer<T>, tail: nat): nat {
    match c
    case Clear(_, i) => tail + i
    case StoreTail(got) => tail + |got|
    case _ => tail
  }

  /** Positions from `from` on are in their slots, and every other slot is back to the zero value. */
  ghost predicate DataOk<T>(cap: nat, buffer: seq<Option<T>>, whole: seq<T>, from: nat)
    requires 0 < cap == |buffer|
  {
    && (forall p {:trigger Index(p, cap)} :: from <= p < |whole| ==> buffer[Index(p, cap)] == Some(whole[p]))
    && (forall p {:trigger Index(p, cap)} :: |whole| <= p < from + cap ==> buffer[Index(p, cap)].None?)
  }

  /** The order of the four counters: each cached index is behind the real one. */
  ghost predicate CountersOk<T>(s: State<T>) {
    s.tailCache <= s.tail <= s.headCache <= s.head <= s.tail + s.cap
  }

  ghost predicate Inv<T>(s: State<T>) {
    && 0 < s.cap == |s.buffer| && |s.log| == s.head && CountersOk(s)
    && s.delivered == s.log[..s.tail] && (s.consumer.LastLook? ==> s.closed)
    && ProducerOk(s.producer, s.head, s.tailCache + s.cap)
    && ConsumerOk(s.consumer, s.log, s.tail, s.headCache)
    && DataOk(s.cap, s.buffer, s.log + Written(s.producer), Cleared(s.consumer, s.tail))
  }

  lemma InitInv<T>(cap: nat)
    requires cap > 0
    ensures Inv(Init<T>(cap))
  {
  }

  // ----- every step keeps the invariant ---------------------------------------------------------

  /** A producer step that touches neither the ring nor the published items. */
  lemma QuietProducerInv<T>(s: State<T>, p: Producer<T>, cache: nat, ok: bool)
    requires Inv(s) && Written(s.producer) == Written(p) == []
    requires s.tailCache <= cache <= s.tail && ProducerOk(p, s.head, cache + s.cap)
    ensures Inv(s.(producer := p, tailCache := cache, accepted := ok))
  {
    hide DataOk, ProducerOk, ConsumerOk;
  }

  /** Writing the next item of the ring touches a slot that holds nothing unread. */
  lemma AppendDataOk<T>(cap: nat, buffer: seq<Option<T>>, whole: seq<T>, x: T, from: nat)
    requires 0 < cap == |buffer| && from <= |whole| < from + cap && DataOk(cap, buffer, whole, from)
    ensures DataOk(cap, buffer[Index(|whole|, cap) := Some(x)], whole + [x], from)
  {
    var q := |whole|;
    forall p {:trigger Index(p, cap)} | from <= p < from + cap && p != q ensures Index(p, cap) != Index(q, cap) {
      if p < q { IndexDistinct(p, q, cap); } else { IndexDistinct(q, p, cap); }
    }
  }

  lemma CopyInv<T>(s: State<T>)
    requires Inv(s) && s.producer.Copy? && Cleared(s.consumer, s.tail) <= s.head
    ensures Inv(ProducerStep(s))
  {
    var items, i := s.producer.items, s.producer.i;
    AppendDataOk(s.cap, s.buffer, s.log + items[..i], items[i], Cleared(s.consumer, s.tail));
    assert s.log + items[..i + 1] == s.log + items[..i] + [items[i]];
    assert i + 1 == |items| ==> items[..i + 1] == items;
    hide DataOk, ConsumerOk;
  }

  lemma PublishInv<T>(s: State<T>)
    requires Inv(s) && s.producer.Publish?
    ensures Inv(ProducerStep(s))
  {
    assert s.log + s.producer.items + [] == s.log + s.producer.items;
    assert (s.log + s.producer.items)[..s.tail] == s.log[..s.tail];
    PublishConsumerOk(s.consumer, s.log, s.producer.items, s.tail, s.headCache);
    hide DataOk, ConsumerOk;
  }

  lemma PublishConsumerOk<T>(c: Consumer<T>, log: seq<T>, items: seq<T>, tail: nat, headCache: nat)
    requires ConsumerOk(c, log, tail, headCache)
    ensures ConsumerOk(c, log + items, tail, headCache)
  {
    if c.Take? || c.Clear? || c.StoreTail? {
      assert (log + items)[tail..tail + |c.got|] == log[tail..tail + |c.got|];
    }
  }

  lemma ClearedUpTo<T>(s: State<T>)
    requires Inv(s)
    ensures Cleared(s.consumer, s.tail) <= s.head
  {
  }

  lemma ProduceInv<T>(s: State<T>)
    requires Inv(s)
    ensures Inv(ProducerStep(s))
  {
    ClearedUpTo(s);
    hide Inv, CopyStep, PublishStep;
    match s.producer
    case Copy(_, _) => CopyInv(s);
    case Publish(_) => PublishInv(s);
    case _ => SearchInv(s);
  }

  lemma SearchInv<T>(s: State<T>)
    requires Inv(s) && !s.producer.Copy? && !s.producer.Publish?
    ensures Inv(ProducerStep(s))
  {
    hide DataOk, ConsumerOk;
    var s' := ProducerStep(s);
    if s' != s { QuietProducerInv(s, s'.producer, s'.tailCache, s'.accepted); }
  }

  /** A consumer step that reads but writes nothing shared. */
  lemma QuietConsumerInv<T>(s: State<T>, c: Consumer<T>, cache: nat, o: Outcome)
    requires Inv(s) && Cleared(s.consumer, s.tail) == Cleared(c, s.tail)
    requires s.headCache <= cache <= s.head && ConsumerOk(c, s.log, s.tail, cache) && (c.LastLook? ==> s.closed)
    ensures Inv(s.(consumer := c, headCache := cache, outcome := o))
  {
    hide DataOk, ProducerOk, ConsumerOk;
  }

  /** Every item the consumer copies out is the next one of the log. */
  lemma TakeInv<T>(s: State<T>)
    requires Inv(s) && s.consumer.Take?
    ensures Inv(ConsumerStep(s)) && ConsumerStep(s) != s
  {
    var got, n, p := s.consumer.got, s.consumer.n, s.tail + |s.consumer.got|;
    assert s.buffer[Index(p, s.cap)] == Some((s.log + Written(s.producer))[p]);
    assert s.log[s.tail..p + 1] == got + [s.log[p]];
    QuietConsumerInv(s, ConsumerStep(s).consumer, s.headCache, s.outcome);
  }

  lemma ClearDataOk<T>(cap: nat, buffer: seq<Option<T>>, whole: seq<T>, from: nat)
    requires 0 < cap == |buffer| && from < |whole| <= from + cap && DataOk(cap, buffer, whole, from)
    ensures DataOk(cap, buffer[Index(from, cap) := None], whole, from + 1)
  {
    IndexNextLap(from, cap);
    forall p | from < p < from + cap ensures Index(p, cap) != Index(from, cap) { IndexDistinct(from, p, cap); }
  }

  lemma ClearInv<T>(s: State<T>)
    requires Inv(s) && s.consumer.Clear?
    ensures Inv(ConsumerStep(s))
  {
    var whole := s.log + Written(s.producer);
    assert |whole| <= s.tail + s.cap;
    hide DataOk, ProducerOk, ConsumerOk;
    ClearConsumerOk(s);
    ClearDataOk(s.cap, s.buffer, whole, s.tail + s.consumer.i);
  }

  lemma ClearConsumerOk<T>(s: State<T>)
    requires s.consumer.Clear? && ConsumerOk(s.consumer, s.log, s.tail, s.headCache) && 0 < s.cap == |s.buffer|
    ensures var r := ConsumerStep(s);
            && s.consumer.i < |s.consumer.got| && ConsumerOk(r.consumer, s.log, s.tail, s.headCache) && !r.consumer.LastLook?
            && Cleared(r.consumer, s.tail) == s.tail + s.consumer.i + 1
            && r == s.(buffer := s.buffer[Index(s.tail + s.consumer.i, s.cap) := None], consumer := r.consumer)
  {
  }

  lemma StoreTailInv<T>(s: State<T>)
    requires Inv(s) && s.consumer.StoreTail?
    ensures Inv(ConsumerStep(s))
  {
    var m := s.tail + |s.consumer.got|;
    assert s.log[..m] == s.log[..s.tail] + s.log[s.tail..m];
    hide DataOk, ProducerOk;
  }

  lemma LookInv<T>(s: State<T>)
    requires Inv(s) && !s.consumer.Take? && !s.consumer.Clear? && !s.consumer.StoreTail?
    ensures Inv(ConsumerStep(s))
  {
    hide DataOk, ProducerOk;
    var s' := ConsumerStep(s);
    if s' != s { QuietConsumerInv(s, s'.consumer, s'.headCache, s'.outcome); }
  }

  lemma ConsumeInv<T>(s: State<T>)
    requires Inv(s)
    ensures Inv(ConsumerStep(s))
  {
    hide Inv, TakeStep, ClearStep, StoreTailStep;
    match s.consumer
    case Take(_, _) => TakeInv(s);
    case Clear(_, _) => ClearInv(s);
    case StoreTail(_) => StoreTailInv(s);
    case _ => LookInv(s);
  }

  lemma CallInv<T>(s: State<T>, a: Action<T>)
    requires Inv(s) && (a.Enqueue? || a.Dequeue? || a.Close?)
    ensures Inv(Do(s, a))
  {
    hide DataOk;
  }

  /** Every action keeps the invariant. */
  lemma DoInv<T>(s: State<T>, a: Action<T>)
    requires Inv(s)
    ensures Inv(Do(s, a))
  {
    hide ProducerStep, ConsumerStep;
    match a
    case Produce => hide Inv; ProduceInv(s);
    case Consume => hide Inv; ConsumeInv(s);
    case _ => hide Inv; CallInv(s, a);
  }

  lemma {:induction false} ExecInv<T>(s: State<T>, acts: seq<Action<T>>)
    requires Inv(s)
    ensures Inv(Exec(s, acts))
    decreases |acts|
  {
    if acts != [] {
      DoInv(s, acts[0]);
      hide Inv;
      ExecInv(Do(s, acts[0]), acts[1..]);
    }
  }

  // ----- main results ---------------------------------------------------------------------------

  /** A state that some schedule reaches from a new queue of `cap` slots. */
  ghost predicate Reachable<T(!new)>(cap: nat, s: State<T>) {
    cap > 0 && exists acts: seq<Action<T>> :: s == Exec(Init(cap), acts)
  }

  lemma ReachableInv<T(!new)>(cap: nat, s: State<T>)
    requires Reachable(cap, s)
    ensures Inv(s) && s.cap == cap
  {
    var acts: seq<Action<T>> :| s == Exec(Init(cap), acts);
    InitInv<T>(cap);
    ExecInv(Init(cap), acts);
  }

  /** First in, first out, with every cached index behind the real one and the ring never overfull. */
  lemma FirstInFirstOut<T(!new)>(cap: nat, s: State<T>)
    requires Reachable(cap, s)
    ensures s.tailCache <= s.tail <= s.headCache <= s.head <= s.tail + cap
    ensures s.head == |s.log| && s.delivered == s.log[..s.tail]
  {
    ReachableInv(cap, s);
  }

  /** Every unread item is in its slot, whatever the producer is copying in meanwhile, and a slot that
      holds no unread and no half-published item has been set back to the zero value. */
  lemma RingHoldsUnread<T(!new)>(cap: nat, s: State<T>, p: nat)
    requires Reachable(cap, s) && |s.buffer| == cap
    ensures Cleared(s.consumer, s.tail) <= p < s.head ==> p < |s.log| && s.buffer[Index(p, cap)] == Some(s.log[p])
    ensures s.head + |Written(s.producer)| <= p < Cleared(s.consumer, s.tail) + cap ==> s.buffer[Index(p, cap)].None?
  {
    ReachableInv(cap, s);
    hide ProducerOk, ConsumerOk, Reachable;
    var whole := s.log + Written(s.producer);
    if p < s.head { assert whole[p] == s.log[p]; }
  }

  /** A call returns true exactly when its items, all of them and in order, have become the end of the log. */
  lemma ReturnsTrueIffPublished<T(!new)>(cap: nat, s: State<T>)
    requires Reachable(cap, s) && !s.producer.Ready? && 0 < s.cap == |s.buffer|
    ensures var s' := Do(s, Produce);
            && (!s'.producer.Ready? ==> s'.log == s.log)
            && (s'.producer.Ready? ==> s'.log == s.log + if s'.accepted then s.producer.items else [])
  {
    ReachableInv(cap, s);
    hide Inv, DataOk, ConsumerOk, Reachable;
  }

  /** A batch larger than the ring is never written: the blocking form waits for Close. */
  lemma OversizedNeverWritten<T(!new)>(cap: nat, s: State<T>)
    requires Reachable(cap, s) && (s.producer.Copy? || s.producer.Publish?)
    ensures |s.producer.items| <= cap
  {
    ReachableInv(cap, s);
    hide DataOk, ConsumerOk, Reachable;
  }

  /** Past its last look at the closed flag: such a call may still publish after Close. */
  predicate Committed<T>(p: Producer<T>) {
    p.LoadTail? || p.SpinTail? || p.Copy? || p.Publish?
  }

  /** Nothing will be published any more. */
  predicate Ended<T>(s: State<T>) {
    s.closed && (Committed(s.producer) ==> |s.producer.items| > s.cap)
  }

  lemma EndedStep<T>(s: State<T>, a: Action<T>)
    requires Inv(s) && Ended(s)
    ensures Ended(Do(s, a)) && Do(s, a).log == s.log
  {
    hide DataOk, ConsumerOk;
    match a
    case Produce =>
    case Consume => hide ProducerStep; ConsumerLeaves(s);
    case _ =>
  }

  lemma ConsumerLeaves<T>(s: State<T>)
    requires 0 < s.cap == |s.buffer|
    ensures var s' := ConsumerStep(s); s'.log == s.log && s'.producer == s.producer && s'.closed == s.closed && s'.head == s.head
  {
  }

  lemma {:induction false} EndedForever<T>(s: State<T>, acts: seq<Action<T>>)
    requires Inv(s) && Ended(s)
    ensures Exec(s, acts).log == s.log
    decreases |acts|
  {
    if acts != [] {
      EndedStep(s, acts[0]);
      DoInv(s, acts[0]);
      hide Inv, Ended;
      EndedForever(Do(s, acts[0]), acts[1..]);
    }
  }

  /** A committed call that fits into an empty ring publishes when it is allowed to run. */
  lemma RunToPublish<T>(s: State<T>) returns (acts: seq<Action<T>>)
    requires Inv(s) && Committed(s.producer) && |s.producer.items| <= s.cap
    requires s.producer.LoadTail? || s.producer.SpinTail? ==> s.head == s.tail
    ensures (forall i :: 0 <= i < |acts| ==> acts[i].Produce?) && Exec(s, acts).log != s.log
    decreases if s.producer.Publish? then 0 else if s.producer.Copy? then 1 else 2,
              if s.producer.Copy? then |s.producer.items| - s.producer.i else 0
  {
    ghost var s' := Do(s, Produce);
    if s.producer.Publish? {
      acts := [Produce];
      assert Exec(s', []) == s';
      assert |s'.log| > |s.log|;
    } else {
      CommittedMoves(s);
      DoInv(s, Produce);
      hide Inv, Do;
      var rest := RunToPublish(s');
      acts := [Produce] + rest;
      assert acts[1..] == rest;
    }
  }

  lemma CommittedMoves<T>(s: State<T>)
    requires Inv(s) && Committed(s.producer) && |s.producer.items| <= s.cap && !s.producer.Publish?
    requires s.producer.LoadTail? || s.producer.SpinTail? ==> s.head == s.tail
    ensures var s' := Do(s, Produce);
            && s'.log == s.log && s'.cap == s.cap && s'.head == s.head && s'.tail == s.tail
            && (s'.producer.Copy? || s'.producer.Publish?) && s'.producer.items == s.producer.items
            && (s.producer.Copy? && s'.producer.Copy? ==> s'.producer.i == s.producer.i + 1)
  {
    hide DataOk, ConsumerOk;
  }

  /** The blocking forms look at head once more after seeing the flag, so when they report closed everything
      published has been delivered. The report is final, no schedule ever brings another item, exactly
      when no call that would fit is past its own look at the flag: in particular when the producer's side closes
      the queue between two of its calls. */
  lemma BlockingReport<T(!new)>(cap: nat, s: State<T>)
    requires Reachable(cap, s) && s.consumer.LastLook? && 0 < s.cap == |s.buffer|
    requires Do(s, Consume).consumer.Resting?
    ensures var r := Do(s, Consume);
            && r.outcome == Drained && r.delivered == r.log
            && ((forall acts: seq<Action<T>> :: Exec(r, acts).log == r.log)
                <==> (!Committed(s.producer) || |s.producer.items| > cap))
  {
    ReachableInv(cap, s);
    DoInv(s, Consume);
    var r := Do(s, Consume);
    assert r.producer == s.producer && r.closed && r.head == r.tail && r.cap == cap;
    assert r.delivered == r.log by { assert r.log[..|r.log|] == r.log; }
    hide Inv, Reachable, Do;
    if Committed(s.producer) && |s.producer.items| <= cap {
      var acts := RunToPublish(r);
    } else {
      forall acts: seq<Action<T>> ensures Exec(r, acts).log == r.log { EndedForever(r, acts); }
    }
  }

  // ----- the report of TryDequeueBatch ----------------------------------------------------------

  /** From an empty ring, some schedule publishes another item: the queue is open for the producer's next call, or its
      present call fits and is past, or will get past, its look at the flag. A blocking call that can never fit holds
      the producer up until Close. */
  predicate CanPublish<T>(s: State<T>) {
    match s.producer
    case Ready => !s.closed
    case CheckClosed(items, wait) => !s.closed && (wait ==> |items| <= s.cap)
    case LoadTail(items, wait) => |items| <= s.cap || (!wait && !s.closed)
    case SpinClosed(items) => !s.closed && |items| <= s.cap
    case SpinTail(items) => |items| <= s.cap
    case _ => true
  }

  /** An empty ring to which nothing is coming stays so. */
  lemma MuteStep<T>(s: State<T>, a: Action<T>)
    requires Inv(s) && s.head == s.tail && !CanPublish(s)
    ensures var r := Do(s, a); r.head == r.tail && !CanPublish(r)
  {
    hide DataOk;
    match a
    case Produce => hide ConsumerStep, ConsumerOk;
    case Consume => hide ProducerStep; MuteConsume(s);
    case _ => hide ProducerStep, ConsumerStep;
  }

  lemma MuteConsume<T>(s: State<T>)
    requires 0 < s.cap == |s.buffer| && s.head == s.tail <= |s.log| == s.head && s.headCache <= s.head
    requires ConsumerOk(s.consumer, s.log, s.tail, s.headCache)
    ensures var r := ConsumerStep(s);
            r.head == s.head && r.tail == s.tail && r.producer == s.producer && r.closed == s.closed && r.cap == s.cap
  {
  }

  /** A call that found, or will find, items in the ring does not come to look at the flag. */
  ghost predicate Finds<T>(s: State<T>) {
    match s.consumer
    case LoadHead(_, _) => s.tail < s.head
    case Take(_, _) => true
    case Clear(_, _) => true
    case StoreTail(_) => true
    case Resting => true
    case _ => false
  }

  lemma FindsStep<T>(s: State<T>, a: Action<T>)
    requires Inv(s) && Finds(s) && !a.Dequeue?
    ensures Finds(Do(s, a))
  {
    hide DataOk, ConsumerOk;
    if a.Produce? { hide ConsumerStep; ProducerLeaves(s); } else { hide ProducerStep; }
  }

  lemma ProducerLeaves<T>(s: State<T>)
    requires 0 < s.cap == |s.buffer|
    ensures var r := ProducerStep(s);
            r.consumer == s.consumer && r.tail == s.tail && r.head >= s.head && r.closed == s.closed && r.delivered == s.delivered
  {
  }

  /** The rest of one dequeue: whatever the producer's side does meanwhile. */
  ghost predicate OneCall<T>(acts: seq<Action<T>>) {
    forall i :: 0 <= i < |acts| ==> !acts[i].Dequeue?
  }

  /** The non-blocking call under way is about to report a closed and empty queue, and items are there. */
  ghost predicate Misled<T>(s: State<T>)
    requires 0 < s.cap == |s.buffer|
  {
    s.consumer.TryClosed? && Do(s, Consume).outcome.Drained? && Do(s, Consume).delivered != Do(s, Consume).log
  }

  lemma {:induction false} NeverMisled<T>(s: State<T>, acts: seq<Action<T>>)
    requires Inv(s) && OneCall(acts) && (Finds(s) || (s.head == s.tail && !CanPublish(s)))
    ensures !Misled(Exec(s, acts))
    decreases |acts|
  {
    if acts == [] {
      assert s.head == s.tail ==> s.log[..s.tail] == s.log;
    } else {
      DoInv(s, acts[0]);
      if Finds(s) { FindsStep(s, acts[0]); } else { MuteStep(s, acts[0]); }
      hide Inv, Do, Finds, CanPublish, Misled;
      NeverMisled(Do(s, acts[0]), acts[1..]);
    }
  }

  /** How far the producer is from a call that fits and is past its look at the flag. */
  function Distance<T>(s: State<T>): nat {
    match s.producer
    case CheckClosed(items, _) => if items != [] && |items| <= s.cap then 2 else 5
    case LoadTail(items, _) => if |items| <= s.cap then 0 else 4
    case Ready => 3
    case SpinClosed(_) => 1
    case _ => 0
  }

  lemma Approach<T>(s: State<T>, x: T)
    requires Inv(s) && s.head == s.tail && CanPublish(s) && !(Committed(s.producer) && |s.producer.items| <= s.cap)
    ensures var r := Do(s, if s.producer.Ready? then Enqueue([x], false) else Produce);
            r.head == r.tail && CanPublish(r) && r.log == s.log && Distance(r) < Distance(s)
  {
    hide DataOk, ConsumerOk, ConsumerStep;
  }

  /** Only the producer moves, and an item is published. */
  lemma {:induction false} PublishFrom<T>(s: State<T>, x: T) returns (acts: seq<Action<T>>)
    requires Inv(s) && s.head == s.tail && CanPublish(s)
    ensures (forall i :: 0 <= i < |acts| ==> acts[i].Produce? || acts[i].Enqueue?) && Exec(s, acts).log != s.log
    decreases Distance(s)
  {
    if Committed(s.producer) && |s.producer.items| <= s.cap {
      acts := RunToPublish(s);
    } else {
      var a: Action<T> := if s.producer.Ready? then Enqueue([x], false) else Produce;
      DoInv(s, a);
      Approach(s, x);
      hide Inv, Do, CanPublish, Distance;
      var rest := PublishFrom(Do(s, a), x);
      acts := [a] + rest;
      assert acts[1..] == rest;
    }
  }

  lemma {:induction false} ProducerRun<T>(s: State<T>, acts: seq<Action<T>>)
    requires 0 < s.cap == |s.buffer| && forall i :: 0 <= i < |acts| ==> acts[i].Produce? || acts[i].Enqueue?
    ensures Exec(s, acts).consumer == s.consumer && Exec(s, acts).delivered == s.delivered
    decreases |acts|
  {
    if acts != [] {
      ProducerLeaves(s);
      hide ProducerStep, ConsumerStep;
      ProducerRun(Do(s, acts[0]), acts[1..]);
    }
  }

  /** The consumer finds the ring empty, an item goes in, the queue is closed, and the consumer looks at the flag. */
  lemma Mislead<T>(s: State<T>, limit: nat, x: T) returns (acts: seq<Action<T>>)
    requires Inv(s) && s.consumer.Resting? && limit > 0 && s.head == s.tail && CanPublish(s)
    ensures OneCall(acts) && Misled(Exec(Do(s, Dequeue(limit, false)), acts))
  {
    var s1 := Do(s, Dequeue(limit, false));
    var s2 := Do(s1, Consume);
    DoInv(s, Dequeue(limit, false));
    DoInv(s1, Consume);
    assert s1.consumer == LoadHead(limit, false) && s2.consumer == TryClosed(limit, s.head) && CanPublish(s2);
    assert s2.log == s2.delivered by { assert s2.log[..s2.tail] == s2.log; }
    hide Inv, CanPublish;
    var pub := PublishFrom(s2, x);
    ProducerRun(s2, pub);
    var s3 := Exec(s2, pub);
    ExecSnoc(s2, pub, Close);
    acts := [Consume] + (pub + [Close]);
    assert acts[1..] == pub + [Close];
    assert Exec(s1, acts) == Do(s3, Close);
  }

  /** Before a non-blocking dequeue its caller can tell: under every schedule its report of a closed and empty queue is
      right if and only if there is an item already or nothing more can be published. Between two calls of the
      producer's side this means that there is an item or the queue is closed. */
  lemma TryReportIff<T(!new)>(cap: nat, s: State<T>, limit: nat, x: T)
    requires Reachable(cap, s) && s.consumer.Resting? && limit > 0 && 0 < s.cap == |s.buffer|
    ensures (forall acts: seq<Action<T>> :: OneCall(acts) ==> !Misled(Exec(Do(s, Dequeue(limit, false)), acts)))
            <==> s.tail < s.head || !CanPublish(s)
    ensures s.producer.Ready? ==> (CanPublish(s) <==> !s.closed)
  {
    ReachableInv(cap, s);
    var s1 := Do(s, Dequeue(limit, false));
    DoInv(s, Dequeue(limit, false));
    hide Reachable;
    if s.tail < s.head || !CanPublish(s) {
      assert Finds(s1) || (s1.head == s1.tail && !CanPublish(s1));
      hide Inv, Do, Finds, CanPublish, Misled;
      forall acts: seq<Action<T>> | OneCall(acts) ensures !Misled(Exec(s1, acts)) { NeverMisled(s1, acts); }
    } else {
      var acts := Mislead(s, limit, x);
    }
  }

  lemma {:induction false} ExecSnoc<T>(s: State<T>, acts: seq<Action<T>>, a: Action<T>)
    requires 0 < s.cap == |s.buffer|
    ensures Exec(s, acts + [a]) == Do(Exec(s, acts), a)
    decreases |acts|
  {
    hide Do;
    if acts == [] {
      assert acts + [a] == [a];
      assert Exec(Do(s, a), []) == Do(s, a);
    } else {
      assert (acts + [a])[0] == acts[0] && (acts + [a])[1..] == acts[1..] + [a];
      ExecSnoc(Do(s, acts[0]), acts[1..], a);
    }
  }

  lemma ReachableDo<T(!new)>(cap: nat, s: State<T>, a: Action<T>)
    requires Reachable(cap, s) && 0 < s.cap == |s.buffer|
    ensures Reachable(cap, Do(s, a))
  {
    hide Do;
    var acts: seq<Action<T>> :| s == Exec(Init(cap), acts);
    ExecSnoc(Init<T>(cap), acts, a);
  }

  /** The consumer has found the ring empty and is about to look at the flag. */
  function EmptySeen<T>(): State<T> {
    Init<T>(2).(consumer := TryClosed(1, 0))
  }

  lemma EmptySeenReachable<T(!new)>()
    ensures Reachable(2, EmptySeen<T>())
  {
    var s0 := Init<T>(2);
    assert Reachable(2, s0) by { var none: seq<Action<T>> := []; assert s0 == Exec(Init(2), none); }
    hide Reachable;
    ReachableDo(2, s0, Dequeue(1, false));
    ReachableDo(2, Do(s0, Dequeue(1, false)), Consume);
  }

  /** The loss the code allows: the item goes in, and the queue is closed, between the two loads. */
  lemma TryReportCanBeWrong<T(!new)>(x: T)
    ensures exists s: State<T> :: Reachable(2, s) && s.closed && s.consumer.Resting? && s.producer.Ready?
                                  && s.outcome == Drained && s.delivered == [] && s.log == [x]
  {
    EmptySeenReachable<T>();
    hide Reachable;
    var s2 := EmptySeen<T>();
    var s3 := Do(s2, Enqueue([x], false));
    var s4 := Do(s3, Produce);
    var s5 := Do(s4, Produce);
    var s6 := Do(s5, Produce);
    ReachableDo(2, s2, Enqueue([x], false));
    ReachableDo(2, s3, Produce);
    ReachableDo(2, s4, Produce);
    ReachableDo(2, s5, Produce);
    assert s6.log == [x] && s6.consumer == TryClosed(1, 0) && s6.delivered == [];
    ReachableDo(2, s6, Close);
    ReachableDo(2, Do(s6, Close), Consume);
  }

  /** The constructor's capacity: the least power of two not below the request, within [2, 2^30]. */
  lemma CapacityIs(requested: int)
    ensures var c := Capacity(requested);
            && PowerOfTwo.IsPow2(c) && 2 <= c <= 1073741824 && (requested <= 1073741824 ==> requested <= c)
            && (forall k: nat :: PowerOfTwo.Pow2(k) >= 2 && (PowerOfTwo.Pow2(k) >= requested || PowerOfTwo.Pow2(k) >= 1073741824) ==> PowerOfTwo.Pow2(k) >= c)
  {
    var c := if requested < 2 then 2 else if requested > 1073741824 then 1073741824 else requested;
    assert PowerOfTwo.Pow2(10) == 1024;
    assert PowerOfTwo.Pow2(20) == 1048576;
    assert PowerOfTwo.Pow2(30) == 1073741824;
    PowerOfTwo.AndPredZero(c);
    PowerOfTwo.NextPowerOfTwoLeast(c, 30);
  }
}
