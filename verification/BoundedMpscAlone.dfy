/**
 What one call on the ring of BoundedMpsc achieves while the others rest, from any state that any schedule has reached:
 how many items a dequeue delivers and an enqueue gets in. And what closing means.
 */
module BoundedMpscAlone {
  import opened Prelude
  import opened BoundedMpsc

  // ----- dequeue --------------------------------------------------------------------------------

  /** The dequeue under way will end at position `goal`: everything before is published, and there it has no more room or
      finds nothing to read. */
  ghost predicate Aims<T>(s: State<T>, goal: nat) {
    && goal <= |s.log| && (forall p :: ReadUpTo(s.consumer, s.tail) <= p < goal ==> s.log[p].published)
    && match s.consumer
       case Resting => s.tail == goal
       case Scan(base, got, limit) => base + |got| <= goal && Ends(s.log, goal, base + limit)
       case Read(base, got, limit) => base + |got| < goal && Ends(s.log, goal, base + limit)
       case Clear(base, got, limit) => base + |got| <= goal && Ends(s.log, goal, base + limit)
       case Commit(base, got) => base + |got| == goal
       case Release(_, _, _) => s.tail == goal
  }

  predicate Ends<T>(log: seq<Claim<T>>, goal: nat, end: nat) {
    goal == end || (goal < end && (goal >= |log| || !log[goal].published))
  }

  lemma AimStep<T>(s: State<T>, goal: nat)
    requires Inv(s) && Aims(s, goal)
    ensures Aims(ConsumerStep(s), goal)
  {
    if s.consumer.Scan? {
      var q := s.consumer.base + |s.consumer.got|;
      assert q <= s.head && s.released <= q && s.consumer.base == s.tail;
      if q < goal { ReadableSlot(s, q); }
      if s.slots[Index(q, s.cap)].sequence == q + 1 { StampPublished(s, q); }
    } else if s.consumer.Read? {
      ReadStep(s);
    }
    hide StampsOk, DataOk, Tracked, ProducerOk, WrittenOk;
  }

  lemma {:induction false} AimAlone<T>(s: State<T>, goal: nat, k: nat)
    requires Inv(s) && Aims(s, goal)
    ensures WellShaped(s) && Inv(ConsumerAlone(s, k)) && Aims(ConsumerAlone(s, k), goal) && ConsumerAlone(s, k).log == s.log
    decreases k
  {
    assert WellShaped(s);
    if k > 0 {
      assert Do(s, Consume) == ConsumerStep(s);
      DoInv(s, Consume);
      AimStep(s, goal);
      ConsumerStepLog(s);
      hide Inv, Aims, ConsumerStep, Do;
      AimAlone(Do(s, Consume), goal, k - 1);
    }
  }

  /** A dequeue left alone takes all it has room for and can read: if the next `n` items are published and then its room ends or
      an item is missing, it delivers exactly these, in order, and moves the tail behind them. */
  lemma BatchTakesAll<T(!new)>(cap: nat, s: State<T>, limit: nat, n: nat, k: nat)
    requires cap >= 2 && Reachable(cap, s) && WellShaped(s) && s.consumer.Resting? && limit > 0
    requires s.tail + n <= |s.log| && (forall p :: s.tail <= p < s.tail + n ==> s.log[p].published)
    requires n == limit || (n < limit && (s.tail + n == |s.log| || !s.log[s.tail + n].published))
    requires k >= 4 * Min(limit, |s.log| - s.tail) + 2
    ensures var r := ConsumerAlone(Do(s, Dequeue(limit)), k);
            && r.consumer.Resting? && r.tail == s.tail + n && r.log == s.log
            && r.delivered == s.delivered + seq(n, i requires 0 <= i < n => s.log[s.tail + i].item)
  {
    hide Inv, Reachable, Aims, Do;
    ReachableInv(cap, s);
    DequeueReturnsWhenAlone(cap, s, limit);
    AtRest(s);
    var d := Do(s, Dequeue(limit));
    DoInv(s, Dequeue(limit));
    AimBegins(s, limit, n);
    AimAlone(d, s.tail + n, k);
    var r := ConsumerAlone(d, k);
    StaysAtRest(d, 4 * Min(limit, s.head - s.tail) + 2, k);
    AtRest(r);
    AimEnds(r, s.tail + n);
    assert ItemsOf(s.log[..s.tail + n]) == ItemsOf(s.log[..s.tail]) + seq(n, i requires 0 <= i < n => s.log[s.tail + i].item);
  }

  lemma AtRest<T>(s: State<T>)
    requires Inv(s) && s.consumer.Resting?
    ensures s.tail <= |s.log| == s.head && s.delivered == ItemsOf(s.log[..s.tail])
  {
    hide StampsOk, DataOk, Tracked, ProducerOk, WrittenOk;
  }

  lemma AimBegins<T>(s: State<T>, limit: nat, n: nat)
    requires WellShaped(s) && s.consumer.Resting? && limit > 0 && s.tail + n <= |s.log|
    requires (forall p :: s.tail <= p < s.tail + n ==> s.log[p].published) && Ends(s.log, s.tail + n, s.tail + limit)
    ensures Aims(Do(s, Dequeue(limit)), s.tail + n) && Do(s, Dequeue(limit)).log == s.log
  {
  }

  lemma AimEnds<T>(r: State<T>, goal: nat)
    requires Aims(r, goal) && r.consumer.Resting?
    ensures r.tail == goal
  {
  }

  lemma {:induction false} StaysAtRest<T>(s: State<T>, m: nat, k: nat)
    requires WellShaped(s) && m <= k && ConsumerAlone(s, m).consumer.Resting?
    ensures ConsumerAlone(s, k).consumer.Resting?
    decreases k
  {
    if k > 0 {
      if m == 0 {
        assert Do(s, Consume) == s;
        hide Do;
        StaysAtRest(s, 0, k - 1);
      } else {
        hide Do;
        StaysAtRest(Do(s, Consume), m - 1, k - 1);
      }
    }
  }

  /** Under every schedule: a dequeue goes on to its end only when its room is used up, or the item it came to was not published
      at that very moment. */
  lemma StopsOnlyWhen<T(!new)>(cap: nat, s: State<T>)
    requires cap >= 2 && Reachable(cap, s) && s.consumer.Scan? && WellShaped(s)
    ensures var c := s.consumer; var q := c.base + |c.got|;
            ConsumerStep(s).consumer.Read? <==> |c.got| < c.limit && q < |s.log| && s.log[q].published
  {
    ReachableInv(cap, s);
    var q := s.consumer.base + |s.consumer.got|;
    assert q <= s.head && s.released <= q && |s.log| == s.head;
    if q < |s.log| && s.log[q].published { ReadableSlot(s, q); }
    if s.slots[Index(q, s.cap)].sequence == q + 1 { StampPublished(s, q); }
    hide Inv, Reachable;
  }

  // ----- enqueue --------------------------------------------------------------------------------

  /** Slots not taken. When the consumer rests this is the capacity less the items inside. */
  function Free<T>(s: State<T>): nat {
    if s.released + s.cap < s.head then 0 else s.released + s.cap - s.head
  }

  /** Producer `t`, alone on an open ring, will bring head to `goal`. */
  ghost predicate Gets<T>(s: State<T>, t: nat, goal: nat) {
    && !s.closed && t in s.producers && s.producers[t].done <= |s.producers[t].items|
    && var p := s.producers[t]; var left := |p.items| - p.done;
       && (p.pc.LoadLast? || p.pc.LoadFirst? || p.pc.Cas? || p.pc.Reload? ==> p.pc.h == s.head)
       && (p.pc.Idle? ==> left == 0 || Free(s) == 0) && (p.pc.Reload? ==> Free(s) == 0)
       && (Writing(p) ==> Width(p, s.cap) <= left && p.pc.h + Width(p, s.cap) == s.head)
       && goal == s.head + Min(left - Open(p, s.cap), Free(s))
  }

  /** What `t` has got in since the log was `before`: the first items of its call, in order, right behind it. */
  ghost predicate Gained<T>(s: State<T>, t: nat, before: seq<Claim<T>>, items: seq<T>) {
    var start := |before|;
    && t in s.producers && s.producers[t].items == items && start <= s.head == |s.log|
    && s.producers[t].done + Open(s.producers[t], s.cap) == s.head - start <= |items|
    && (forall q :: start <= q < s.head ==> s.log[q].item == items[q - start] && s.log[q].producer == t)
    && (forall q :: 0 <= q < start ==> s.log[q] == before[q])
  }

  lemma SearchGets<T>(s: State<T>, t: nat, goal: nat)
    requires Inv(s) && Gets(s, t, goal) && !Writing(s.producers[t]) && !s.producers[t].pc.Cas?
    ensures t in ProducerStep(s, t).producers && ProducerStep(s, t).cap == s.cap
    ensures Gets(ProducerStep(s, t), t, goal) && ProducerStep(s, t).log == s.log && ProducerStep(s, t).head == s.head
    ensures var p, p' := s.producers[t], ProducerStep(s, t).producers[t];
            p'.items == p.items && p'.done == p.done && !Writing(p')
  {
    var p := s.producers[t];
    assert ProducerOk(s.cap, s.released, s.log, t, p) && |s.log| == s.head && s.head <= s.released + s.cap && WellShaped(s);
    assert CountsOk(s.cap, p) && PcOk(s.cap, s.released, s.log, t, p);
    if p.pc.LoadFirst? { StampTells(s, p.pc.h); }
    hide Inv, ProducerOk, PlacesOk, Filling;
  }

  lemma ClaimGets<T>(s: State<T>, t: nat, goal: nat)
    requires Inv(s) && Gets(s, t, goal) && s.producers[t].pc.Cas?
    ensures var r, w := ProducerStep(s, t), Width(s.producers[t], s.cap);
            && Gets(r, t, goal) && t in r.producers && r.cap == s.cap && r.head == s.head + w && Open(r.producers[t], s.cap) == w && s.log <= r.log && |r.log| == r.head
            && r.producers[t].items == s.producers[t].items && r.producers[t].done == s.producers[t].done
            && s.producers[t].done + w <= |s.producers[t].items|
            && (forall q :: s.head <= q < r.head ==> r.log[q] == Claim(s.producers[t].items[s.producers[t].done + (q - s.head)], t, false))
  {
    var p := s.producers[t];
    assert ProducerOk(s.cap, s.released, s.log, t, p) && |s.log| == s.head && s.head <= s.released + s.cap && WellShaped(s);
    assert CountsOk(s.cap, p) && PcOk(s.cap, s.released, s.log, t, p);
    hide Inv, ProducerOk, PlacesOk, Filling;
    var w := Width(p, s.cap);
    var r := ProducerStep(s, t);
    assert r.log == s.log + seq(w, j requires 0 <= j < w => Claim(p.items[p.done + j], t, false));
  }

  lemma WriteGets<T>(s: State<T>, t: nat, goal: nat)
    requires Inv(s) && Gets(s, t, goal) && Writing(s.producers[t])
    ensures var r, p := ProducerStep(s, t), s.producers[t];
            && Gets(r, t, goal) && t in r.producers && r.cap == s.cap && r.head == s.head && |r.log| == |s.log| && r.producers[t].items == p.items
            && r.producers[t].done + Open(r.producers[t], s.cap) == p.done + Open(p, s.cap)
            && (forall q :: 0 <= q < |s.log| ==> r.log[q].item == s.log[q].item && r.log[q].producer == s.log[q].producer)
            && (forall q :: 0 <= q < |s.log| && q + Open(p, s.cap) < s.head ==> r.log[q] == s.log[q])
  {
    var p := s.producers[t];
    assert ProducerOk(s.cap, s.released, s.log, t, p) && WellShaped(s);
    assert CountsOk(s.cap, p) && PcOk(s.cap, s.released, s.log, t, p);
    assert Filling(s.cap, s.log, t, p, p.pc.h, p.pc.i);
    hide Inv, ProducerOk, PlacesOk, ProducerStep, CountsOk, Gets, PcOk;
    if p.pc.WriteData? { WriteShape(s, t); } else { PublishPlace(s, t); }
    hide Filling;
    PlaceGets(s, ProducerStep(s, t), t, goal);
  }

  lemma PlaceGets<T>(s: State<T>, r: State<T>, t: nat, goal: nat)
    requires Gets(s, t, goal) && Writing(s.producers[t]) && s.producers[t].pc.i < Width(s.producers[t], s.cap)
    requires t in r.producers && r == s.(slots := r.slots, log := r.log, producers := r.producers)
    requires var p, p' := s.producers[t], r.producers[t];
             if p.pc.WriteData? then p' == p.(pc := Publish(p.pc.h, p.pc.i))
             else p.done + Width(p, s.cap) <= |p.items|
                  && p' == if p.pc.i + 1 < Width(p, s.cap) then p.(pc := WriteData(p.pc.h, p.pc.i + 1)) else Filled(p, s.cap)
    ensures Gets(r, t, goal) && r.producers[t].items == s.producers[t].items
    ensures r.producers[t].done + Open(r.producers[t], s.cap) == s.producers[t].done + Open(s.producers[t], s.cap)
  {
  }

  lemma PublishPlace<T>(s: State<T>, t: nat)
    requires WellShaped(s) && t in s.producers && s.producers[t].pc.Publish? && CountsOk(s.cap, s.producers[t])
    requires s.producers[t].pc.i < Width(s.producers[t], s.cap) && s.producers[t].pc.h + s.producers[t].pc.i < |s.log|
    ensures var p, r := s.producers[t], ProducerStep(s, t); var q := p.pc.h + p.pc.i;
            && r == s.(slots := r.slots, log := s.log[q := s.log[q].(published := true)], producers := s.producers[t := r.producers[t]])
            && r.producers[t] == if p.pc.i + 1 < Width(p, s.cap) then p.(pc := WriteData(p.pc.h, p.pc.i + 1)) else Filled(p, s.cap)
  {
  }

  lemma GetsStep<T>(s: State<T>, t: nat, goal: nat, before: seq<Claim<T>>, items: seq<T>)
    requires Inv(s) && Gets(s, t, goal) && Gained(s, t, before, items)
    ensures Gets(ProducerStep(s, t), t, goal) && Gained(ProducerStep(s, t), t, before, items)
  {
    assert WellShaped(s);
    hide Inv, Gets, ProducerStep;
    if Writing(s.producers[t]) {
      WriteGets(s, t, goal);
    } else if s.producers[t].pc.Cas? {
      ClaimGets(s, t, goal);
      ClaimGains(s, ProducerStep(s, t), t, before, items);
    } else {
      SearchGets(s, t, goal);
    }
  }

  lemma ClaimGains<T>(s: State<T>, r: State<T>, t: nat, before: seq<Claim<T>>, items: seq<T>)
    requires Gained(s, t, before, items) && s.producers[t].pc.Cas? && t in r.producers && r.cap == s.cap
    requires r.producers[t].items == items && r.producers[t].done == s.producers[t].done && |r.log| == r.head && s.log <= r.log
    requires var w := r.head - s.head;
             && w >= 0 && s.producers[t].done + w <= |items| && Open(r.producers[t], s.cap) == w
             && (forall q :: s.head <= q < r.head ==> r.log[q] == Claim(items[s.producers[t].done + (q - s.head)], t, false))
    ensures Gained(r, t, before, items)
  {
  }

  lemma {:induction false} AloneGets<T>(s: State<T>, t: nat, goal: nat, before: seq<Claim<T>>, items: seq<T>, k: nat)
    requires Inv(s) && Gets(s, t, goal) && Gained(s, t, before, items)
    ensures WellShaped(s) && var r := Alone(s, t, k); Inv(r) && Gets(r, t, goal) && Gained(r, t, before, items)
    decreases k
  {
    assert WellShaped(s);
    if k > 0 {
      assert Do(s, Produce(t)) == ProducerStep(s, t);
      DoInv(s, Produce(t));
      GetsStep(s, t, goal, before, items);
      hide Inv, Gets, Gained, ProducerStep, Do;
      AloneGets(Do(s, Produce(t)), t, goal, before, items, k - 1);
    }
  }

  /** An enqueue left alone on an open ring gets in as many of its items as there are free slots, on consecutive positions behind
      everything claimed before, all of them published when it returns; `done` is what it answers. */
  lemma AcceptsWhatFits<T(!new)>(cap: nat, s: State<T>, t: nat, kind: Kind, items: seq<T>)
    requires cap >= 2 && Reachable(cap, s) && WellShaped(s) && !s.closed
    requires Of(s, t).pc.Idle? && (kind.Batch? || |items| == 1)
    ensures var n, r := Min(|items|, Free(s)), Alone(Do(s, Call(t, kind, items)), t, 7 * |items| + 32);
            && t in r.producers && r.producers[t].pc.Idle? && r.producers[t].done == n
            && |r.log| == |s.log| + n && (forall q :: 0 <= q < |s.log| ==> r.log[q] == s.log[q])
            && (forall j :: |s.log| <= j < |r.log| ==> r.log[j] == Claim(items[j - |s.log|], t, true))
  {
    hide Do, Reachable, Inv, Gets, Gained, Alone, Of;
    var c := Do(s, Call(t, kind, items));
    var goal := s.head + Min(|items|, Free(s));
    CallReaches(cap, s, t, kind, items);
    ReachableInv(cap, s);
    ReachableInv(cap, c);
    CallGets(s, t, kind, items);
    ReturnsWhenAlone(cap, c, t);
    AloneGets(c, t, goal, s.log, items, 7 * |items| + 32);
    var r := Alone(c, t, 7 * |items| + 32);
    AllPublished(r, t);
    Gotten(s, r, t, goal, items);
  }

  lemma Gotten<T>(s: State<T>, r: State<T>, t: nat, goal: nat, items: seq<T>)
    requires Gets(r, t, goal) && Gained(r, t, s.log, items) && r.producers[t].pc.Idle? && |s.log| <= goal
    requires forall q :: 0 <= q < |r.log| && r.log[q].producer == t ==> r.log[q].published
    ensures |r.log| == goal && r.producers[t].done == goal - |s.log| && (forall q :: 0 <= q < |s.log| ==> r.log[q] == s.log[q])
    ensures goal - |s.log| <= |items| && forall j :: |s.log| <= j < |r.log| ==> r.log[j] == Claim(items[j - |s.log|], t, true)
  {
  }

  lemma CallReaches<T(!new)>(cap: nat, s: State<T>, t: nat, kind: Kind, items: seq<T>)
    requires cap >= 2 && Reachable(cap, s) && WellShaped(s)
    ensures Reachable(cap, Do(s, Call(t, kind, items)))
  {
    hide Do;
    var acts: seq<Action<T>> :| s == Exec(Init(cap), acts);
    ExecSnoc(Init(cap), acts, Call(t, kind, items));
  }

  lemma CallGets<T>(s: State<T>, t: nat, kind: Kind, items: seq<T>)
    requires Inv(s) && WellShaped(s) && !s.closed && Of(s, t).pc.Idle? && (kind.Batch? || |items| == 1)
    ensures var c := Do(s, Call(t, kind, items));
            && |s.log| == s.head && Gets(c, t, s.head + Min(|items|, Free(s))) && Gained(c, t, s.log, items)
            && t in c.producers && c.producers[t].items == items
  {
    assert |s.log| == s.head;
    hide Inv;
    assert Do(s, Call(t, kind, items)) == Put(s, t, Begin(Of(s, t), kind, items));
    hide Do;
  }

  lemma AllPublished<T>(r: State<T>, t: nat)
    requires Inv(r) && t in r.producers && r.producers[t].pc.Idle?
    ensures forall q :: 0 <= q < |r.log| && r.log[q].producer == t ==> r.log[q].published
  {
    forall q | 0 <= q < |r.log| && r.log[q].producer == t ensures r.log[q].published {
      assert Tracked(r.cap, r.log, r.producers, q);
    }
  }

  // ----- close ----------------------------------------------------------------------------------

  /** Closed, and no call is past its look at the flag. */
  predicate Over<T>(s: State<T>) {
    s.closed && forall t :: t in s.producers ==> s.producers[t].pc.Idle? || s.producers[t].pc.LoadClosed?
  }

  lemma OverStep<T>(s: State<T>, a: Action<T>)
    requires WellShaped(s) && Over(s)
    ensures Over(Do(s, a)) && Do(s, a).log == s.log
  {
    match a
    case Consume =>
      ConsumerStepLog(s);
      ConsumerKeepsProducers(s);
      ConsumerKeepsClosed(s);
      hide ConsumerStep;
    case _ => hide ConsumerStep;
  }

  lemma ConsumerKeepsClosed<T>(s: State<T>)
    requires WellShaped(s)
    ensures ConsumerStep(s).closed == s.closed
  {
  }

  /** Close means no more items: once the calls past their look at the flag have ended, no schedule gets anything in. */
  lemma {:induction false} ClosedForever<T>(s: State<T>, acts: seq<Action<T>>)
    requires WellShaped(s) && Over(s)
    ensures Exec(s, acts).log == s.log && Over(Exec(s, acts))
    decreases |acts|
  {
    if acts != [] {
      OverStep(s, acts[0]);
      hide Over, Do;
      ClosedForever(Do(s, acts[0]), acts[1..]);
    }
  }

  // ----- what is left in the slots --------------------------------------------------------------

  /** Read but not released, or not claimed: such a position's slot holds nothing. */
  predicate Vacant<T>(s: State<T>, p: nat) {
    || (s.released <= p < ReadUpTo(s.consumer, s.tail) && !(s.consumer.Clear? && p + 1 == ReadUpTo(s.consumer, s.tail)))
    || |s.log| <= p < s.released + s.cap
  }

  ghost predicate Clean<T>(s: State<T>) {
    WellShaped(s) && forall p {:trigger Index(p, s.cap)} :: Vacant(s, p) ==> s.slots[Index(p, s.cap)].data.None?
  }

  lemma CleanProduce<T>(s: State<T>, t: nat)
    requires Inv(s) && Clean(s) && t in s.producers
    ensures Clean(ProducerStep(s, t))
  {
    if s.producers[t].pc.WriteData? {
      CleanWrite(s, t);
      hide Inv, ProducerStep, Clean;
    } else {
      DataStays(s, t);
      ProducerKeeps(s, t);
      ProducerStepLog(s, t);
      hide Inv, ProducerStep;
    }
  }

  lemma CleanWrite<T>(s: State<T>, t: nat)
    requires Inv(s) && Clean(s) && t in s.producers && s.producers[t].pc.WriteData?
    ensures Clean(ProducerStep(s, t))
  {
    WritingPlace(s, t);
    WriteShape(s, t);
    assert ConsumerOk(s.consumer, s.log, s.tail, s.released, s.delivered);
    hide Inv, ProducerStep, Filling;
    WindowDistinct(s.released, s.cap);
  }

  lemma DataStays<T>(s: State<T>, t: nat)
    requires WellShaped(s) && t in s.producers && !s.producers[t].pc.WriteData?
    ensures var r := ProducerStep(s, t);
            WellShaped(r) && |r.slots| == |s.slots| && forall k :: 0 <= k < |s.slots| ==> r.slots[k].data == s.slots[k].data
  {
  }

  lemma ProducerKeeps<T>(s: State<T>, t: nat)
    requires WellShaped(s) && t in s.producers
    ensures var r := ProducerStep(s, t); r.cap == s.cap && r.released == s.released && r.consumer == s.consumer && r.tail == s.tail
  {
  }

  lemma CleanConsume<T>(s: State<T>)
    requires Inv(s) && Clean(s)
    ensures Clean(ConsumerStep(s))
  {
    assert ConsumerOk(s.consumer, s.log, s.tail, s.released, s.delivered) && |s.log| == s.head <= s.released + s.cap && s.cap >= 2;
    if s.consumer.Read? { ReadStep(s); }
    hide Inv;
    if s.consumer.Release? {
      IndexNextLap(s.released, s.cap);
      CleanRelease(s);
      hide ConsumerStep, Clean, ConsumerOk;
    } else if s.consumer.Clear? {
      CleanClear(s);
      hide ConsumerStep, Clean, ConsumerOk;
    } else {
      CleanOther(s);
      hide ConsumerStep, Clean, ConsumerOk;
    }
  }

  lemma CleanClear<T>(s: State<T>)
    requires Clean(s) && s.consumer.Clear? && ConsumerOk(s.consumer, s.log, s.tail, s.released, s.delivered)
    ensures Clean(ConsumerStep(s))
  {
  }

  lemma CleanOther<T>(s: State<T>)
    requires Clean(s) && !s.consumer.Clear? && !s.consumer.Release? && ConsumerOk(s.consumer, s.log, s.tail, s.released, s.delivered)
    ensures Clean(ConsumerStep(s))
  {
  }

  lemma CleanRelease<T>(s: State<T>)
    requires Clean(s) && s.consumer.Release? && ConsumerOk(s.consumer, s.log, s.tail, s.released, s.delivered)
    requires s.cap >= 2 && Index(s.released + s.cap, s.cap) == Index(s.released, s.cap)
    ensures Clean(ConsumerStep(s))
  {
    var r := ConsumerStep(s);
    assert Vacant(s, s.released);
    forall p {:trigger Index(p, s.cap)} | Vacant(r, p) ensures r.slots[Index(p, s.cap)].data.None? {
      if p != s.released + s.cap { assert Vacant(s, p); }
    }
  }

  lemma CleanDo<T>(s: State<T>, a: Action<T>)
    requires Inv(s) && Clean(s)
    ensures Clean(Do(s, a))
  {
    match a
    case Produce(t) =>
      if t in s.producers { CleanProduce(s, t); }
      hide Inv, ProducerStep, ConsumerStep, Clean;
    case Consume =>
      CleanConsume(s);
      hide Inv, ProducerStep, ConsumerStep, Clean;
    case Dequeue(_) =>
      assert ConsumerOk(s.consumer, s.log, s.tail, s.released, s.delivered);
      hide Inv, ProducerStep, ConsumerStep;
    case _ => hide Inv, ProducerStep, ConsumerStep;
  }

  lemma {:induction false} CleanExec<T>(s: State<T>, acts: seq<Action<T>>)
    requires Inv(s) && Clean(s)
    ensures WellShaped(s) && Clean(Exec(s, acts))
    decreases |acts|
  {
    assert WellShaped(s);
    if acts != [] {
      DoInv(s, acts[0]);
      CleanDo(s, acts[0]);
      hide Inv, Clean, Do;
      CleanExec(Do(s, acts[0]), acts[1..]);
    }
  }

  /** In every reachable state: an item that has been read is not kept alive by its slot, and free slots are empty. */
  lemma SlotsAreCleared<T(!new)>(cap: nat, s: State<T>, p: nat)
    requires cap >= 2 && Reachable(cap, s) && Vacant(s, p) && WellShaped(s)
    ensures s.slots[Index(p, s.cap)].data.None?
  {
    var acts: seq<Action<T>> :| s == Exec(Init(cap), acts);
    InitInv<T>(cap);
    assert Clean(Init<T>(cap));
    CleanExec(Init(cap), acts);
  }
}
