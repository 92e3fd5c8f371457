/**
 The bounded multi-producer single-consumer ring of `zqueue/mpsc.go`, as a step machine: every
 atomic load, store or compare-and-swap, and every plain write to a slot, is one step. A schedule
 is any list of actions; an action that is not possible in the current state does nothing, so
 quantifying over all lists of actions quantifies over all interleavings.
 Positions count claims since creation and are not reduced modulo 2^64.
 */
module BoundedMpsc {
  import opened Prelude
  import PowerOfTwo

  datatype Slot<T> = Slot(sequence: nat, data: Option<T>)

  /** What happened to a claimed position: history only, no step ever reads it. */
  datatype Claim<T> = Claim(item: T, producer: nat, published: bool)

  /** Enqueue retries, TryEnqueue gives up, EnqueueBatch claims a run or falls back to Enqueue. */
  datatype Kind = Single | Try | Batch

  datatype Pc =
    | Idle
    | LoadClosed
    | LoadHead
    | LoadLast(h: nat)
    | LoadFirst(h: nat)
    | Reload(h: nat)
    | Cas(h: nat)
    | WriteData(h: nat, i: nat)
    | Publish(h: nat, i: nat)

  /** `done` items of the current call are accepted; `accepted` and `places` record, over all calls
      of this producer, the accepted items and the positions they were given. */
  datatype Producer<T> = Producer(pc: Pc, kind: Kind, items: seq<T>, done: nat, attempt: nat,
                                  accepted: seq<T>, places: seq<nat>)

  /** `got` are the items read by the current call, in order. */
  datatype Consumer<T> =
    | Resting
    | Scan(base: nat, got: seq<T>, limit: nat)
    | Read(base: nat, got: seq<T>, limit: nat)
    | Clear(base: nat, got: seq<T>, limit: nat)
    | Commit(base: nat, got: seq<T>)
    | Release(base: nat, got: seq<T>, i: nat)

  datatype State<T> = State(cap: nat, head: nat, tail: nat, closed: bool, slots: seq<Slot<T>>,
                            producers: map<nat, Producer<T>>, consumer: Consumer<T>,
                            log: seq<Claim<T>>, released: nat, delivered: seq<T>)

  datatype Action<T> =
    | Call(t: nat, kind: Kind, items: seq<T>)
    | Produce(t: nat)
    | Dequeue(limit: nat)
    | Consume
    | Close

  function Init<T>(cap: nat): State<T>
    requires cap > 0
  {
    State(cap, 0, 0, false, seq(cap, i requires 0 <= i < cap => Slot(i, None)), map[], Resting, [], 0, [])
  }

  // ----- producer side --------------------------------------------------------------------------

  /** EnqueueBatch is still on its fast path: three attempts, and only when the batch fits. */
  predicate Fast<T>(p: Producer<T>, cap: nat) {
    p.kind.Batch? && p.attempt < 3 && |p.items| <= cap
  }

  /** How many positions the next compare-and-swap claims. */
  function Width<T>(p: Producer<T>, cap: nat): nat {
    if Fast(p, cap) then |p.items| else 1
  }

  function Fresh<T>(): Producer<T> {
    Producer(Idle, Single, [], 0, 0, [], [])
  }

  function Of<T>(s: State<T>, t: nat): Producer<T> {
    if t in s.producers then s.producers[t] else Fresh()
  }

  /** EnqueueBatch returns 0 at once on an empty slice; the other two take exactly one item. */
  function Begin<T>(p: Producer<T>, kind: Kind, items: seq<T>): Producer<T> {
    p.(pc := if items == [] then Idle else LoadClosed, kind := kind, items := items, done := 0, attempt := 0)
  }

  /** After a failed attempt: EnqueueBatch counts attempts, Enqueue starts over, TryEnqueue returns. */
  function Again<T>(p: Producer<T>, cap: nat): Producer<T> {
    if Fast(p, cap) then p.(pc := LoadClosed, attempt := p.attempt + 1)
    else if p.kind.Try? then p.(pc := Idle)
    else p.(pc := LoadClosed)
  }

  function Put<T>(s: State<T>, t: nat, p: Producer<T>): State<T> {
    s.(producers := s.producers[t := p])
  }

  /** A successful compare-and-swap of head from `h` to `h + w`. */
  function ClaimRun<T>(s: State<T>, t: nat, h: nat): State<T>
    requires t in s.producers && s.producers[t].done + Width(s.producers[t], s.cap) <= |s.producers[t].items|
  {
    var p := s.producers[t];
    var w := Width(p, s.cap);
    s.(head := h + w,
       log := s.log + seq(w, j requires 0 <= j < w => Claim(p.items[p.done + j], t, false)),
       producers := s.producers[t := p.(pc := WriteData(h, 0), places := p.places + seq(w, j requires 0 <= j < w => h + j))])
  }

  /** The run is written: EnqueueBatch returns on the fast path, otherwise goes on to its next item. */
  function Filled<T>(p: Producer<T>, cap: nat): Producer<T>
    requires p.done + Width(p, cap) <= |p.items|
  {
    var w := Width(p, cap);
    var q := p.(done := p.done + w, accepted := p.accepted + p.items[p.done..p.done + w]);
    q.(pc := if q.done == |q.items| then Idle else LoadClosed)
  }

  function MarkPublished<T>(log: seq<Claim<T>>, p: nat): seq<Claim<T>> {
    if p < |log| then log[p := log[p].(published := true)] else log
  }

  predicate WellShaped<T>(s: State<T>) {
    s.cap > 0 && |s.slots| == s.cap
  }

  /** One step of producer `t`. */
  function ProducerStep<T>(s: State<T>, t: nat): State<T>
    requires WellShaped(s)
  {
    if t !in s.producers then s else
    var p := s.producers[t];
    var w := Width(p, s.cap);
    if w == 0 || p.done + w > |p.items| then s else
    match p.pc
    case Idle => s
    case LoadClosed => Put(s, t, p.(pc := if s.closed then Idle else LoadHead))
    case LoadHead => Put(s, t, p.(pc := if Fast(p, s.cap) then LoadLast(s.head) else LoadFirst(s.head)))
    case LoadLast(h) =>
      Put(s, t, if s.slots[Index(h + w - 1, s.cap)].sequence < h + w - 1 then p.(pc := LoadClosed, attempt := 3)
                else p.(pc := LoadFirst(h)))
    case LoadFirst(h) =>
      var q := s.slots[Index(h, s.cap)].sequence;
      Put(s, t, if q == h then p.(pc := Cas(h))
                else if q < h && !Fast(p, s.cap) && !p.kind.Try? then p.(pc := Reload(h))
                else Again(p, s.cap))
    case Reload(h) => Put(s, t, p.(pc := if s.head == h then Idle else LoadClosed))
    case Cas(h) => if s.head == h then ClaimRun(s, t, h) else Put(s, t, Again(p, s.cap))
    case WriteData(h, i) =>
      if p.done + i >= |p.items| then s else
      var k := Index(h + i, s.cap);
      Put(s.(slots := s.slots[k := s.slots[k].(data := Some(p.items[p.done + i]))]), t, p.(pc := Publish(h, i)))
    case Publish(h, i) =>
      var k := Index(h + i, s.cap);
      Put(s.(slots := s.slots[k := s.slots[k].(sequence := h + i + 1)], log := MarkPublished(s.log, h + i)), t,
          if i + 1 < w then p.(pc := WriteData(h, i + 1)) else Filled(p, s.cap))
  }

  // ----- consumer side --------------------------------------------------------------------------

  /** One step of the consumer; Dequeue is DequeueBatch with room for one item. */
  function ConsumerStep<T>(s: State<T>): State<T>
    requires WellShaped(s)
  {
    match s.consumer
    case Resting => s
    case Scan(base, got, limit) =>
      if |got| < limit && s.slots[Index(base + |got|, s.cap)].sequence == base + |got| + 1 then
        s.(consumer := Read(base, got, limit))
      else if got == [] then s.(consumer := Resting)
      else s.(consumer := Commit(base, got))
    case Read(base, got, limit) =>
      var d := s.slots[Index(base + |got|, s.cap)].data;
      if d.None? then s else s.(consumer := Clear(base, got + [d.value], limit))
    case Clear(base, got, limit) =>
      if got == [] then s else
      var k := Index(base + |got| - 1, s.cap);
      s.(slots := s.slots[k := s.slots[k].(data := None)], consumer := Scan(base, got, limit))
    case Commit(base, got) => s.(tail := base + |got|, consumer := Release(base, got, 0))
    case Release(base, got, i) =>
      var k := Index(base + i, s.cap);
      var s' := s.(slots := s.slots[k := s.slots[k].(sequence := base + i + s.cap)], released := base + i + 1);
      if i + 1 < |got| then s'.(consumer := Release(base, got, i + 1))
      else s'.(consumer := Resting, delivered := s.delivered + got)
  }

  function Do<T>(s: State<T>, a: Action<T>): (r: State<T>)
    requires WellShaped(s)
    ensures WellShaped(r)
  {
    match a
    case Call(t, kind, items) =>
      if Of(s, t).pc.Idle? && (kind.Batch? || |items| == 1) then Put(s, t, Begin(Of(s, t), kind, items)) else s
    case Produce(t) => ProducerStep(s, t)
    case Dequeue(limit) => if s.consumer.Resting? && limit > 0 then s.(consumer := Scan(s.tail, [], limit)) else s
    case Consume => ConsumerStep(s)
    case Close => s.(closed := true)
  }

  /** Run a whole schedule. */
  function Exec<T>(s: State<T>, acts: seq<Action<T>>): (r: State<T>)
    requires WellShaped(s)
    ensures WellShaped(r)
    decreases |acts|
  {
    if acts == [] then s else Exec(Do(s, acts[0]), acts[1..])
  }

  // ----- invariant ------------------------------------------------------------------------------

  function ItemsOf<T>(log: seq<Claim<T>>): (r: seq<T>)
    ensures |r| == |log|
    ensures forall i :: 0 <= i < |log| ==> r[i] == log[i].item
  {
    seq(|log|, i requires 0 <= i < |log| => log[i].item)
  }

  /** Positions below this one have been read by the consumer. */
  function ReadUpTo<T>(c: Consumer<T>, tail: nat): nat {
    match c
    case Resting => tail
    case Scan(base, got, _) => base + |got|
    case Read(base, got, _) => base + |got|
    case Clear(base, got, _) => base + |got|
    case Commit(base, got) => base + |got|
    case Release(base, got, _) => base + |got|
  }

  /** The sequence number position `p` shows while it is in the window: `p` when free, `p + 1` when filled. */
  function Stamp<T>(log: seq<Claim<T>>, p: nat): nat {
    if p < |log| && log[p].published then p + 1 else p
  }

  ghost predicate StampsOk<T>(cap: nat, slots: seq<Slot<T>>, log: seq<Claim<T>>, released: nat) {
    && cap >= 2 && |slots| == cap
    && (forall p {:trigger Index(p, cap)} :: released <= p < released + cap ==>
          slots[Index(p, cap)].sequence == Stamp(log, p))
  }

  ghost predicate DataOk<T>(cap: nat, slots: seq<Slot<T>>, log: seq<Claim<T>>, readUpTo: nat) {
    && cap >= 2 && |slots| == cap
    && (forall p {:trigger Index(p, cap)} :: readUpTo <= p < |log| && log[p].published ==>
          slots[Index(p, cap)].data == Some(log[p].item))
  }

  ghost predicate Reading<T>(log: seq<Claim<T>>, base: nat, got: seq<T>, tail: nat, released: nat, delivered: seq<T>) {
    && base == tail == released && base + |got| <= |log|
    && got == ItemsOf(log[base..base + |got|]) && delivered == ItemsOf(log[..base])
  }

  ghost predicate ConsumerOk<T>(c: Consumer<T>, log: seq<Claim<T>>, tail: nat, released: nat, delivered: seq<T>) {
    && released <= tail <= ReadUpTo(c, tail) <= |log|
    && (forall p :: 0 <= p < ReadUpTo(c, tail) ==> log[p].published)
    && match c
       case Resting => released == tail && delivered == ItemsOf(log[..tail])
       case Scan(base, got, limit) => Reading(log, base, got, tail, released, delivered) && |got| <= limit
       case Read(base, got, limit) =>
         && Reading(log, base, got, tail, released, delivered) && |got| < limit
         && base + |got| < |log| && log[base + |got|].published
       case Clear(base, got, limit) => Reading(log, base, got, tail, released, delivered) && 0 < |got| <= limit
       case Commit(base, got) => Reading(log, base, got, tail, released, delivered) && got != []
       case Release(base, got, i) =>
         && tail == base + |got| && released == base + i && i < |got|
         && got == ItemsOf(log[base..tail]) && delivered == ItemsOf(log[..base])
  }

  predicate Writing<T>(p: Producer<T>) {
    p.pc.WriteData? || p.pc.Publish?
  }

  /** Positions claimed by the call in progress and not counted as accepted yet. */
  function Open<T>(p: Producer<T>, cap: nat): nat {
    if Writing(p) then Width(p, cap) else 0
  }

  ghost predicate CountsOk<T>(cap: nat, p: Producer<T>) {
    && (!p.pc.Idle? ==> Width(p, cap) > 0 && p.done + Width(p, cap) <= |p.items|)
    && (!p.kind.Batch? ==> |p.items| <= 1)
    && p.done <= |p.items| && p.done <= |p.accepted|
    && p.accepted[|p.accepted| - p.done..] == p.items[..p.done]
  }

  /** What a producer may rely on at each point of its code. */
  ghost predicate PcOk<T>(cap: nat, released: nat, log: seq<Claim<T>>, t: nat, p: Producer<T>) {
    match p.pc
    case LoadLast(h) => h <= |log| && Fast(p, cap)
    case LoadFirst(h) => h <= |log| && (Fast(p, cap) && |log| == h ==> h + Width(p, cap) <= released + cap)
    case Reload(h) => h <= |log|
    case Cas(h) => h <= |log| && (|log| == h ==> h + Width(p, cap) <= released + cap)
    case WriteData(h, i) => Filling(cap, log, t, p, h, i)
    case Publish(h, i) => Filling(cap, log, t, p, h, i)
    case _ => true
  }

  ghost predicate ProducerOk<T>(cap: nat, released: nat, log: seq<Claim<T>>, t: nat, p: Producer<T>) {
    CountsOk(cap, p) && PlacesOk(cap, log, t, p) && PcOk(cap, released, log, t, p)
  }

  /** The positions given to `t`, in order, hold the items it was told are accepted. */
  ghost predicate PlacesOk<T>(cap: nat, log: seq<Claim<T>>, t: nat, p: Producer<T>) {
    && |p.places| == |p.accepted| + Open(p, cap)
    && (forall j, k :: 0 <= j < k < |p.places| ==> p.places[j] < p.places[k])
    && (forall j :: 0 <= j < |p.places| ==> p.places[j] < |log| && log[p.places[j]].producer == t)
    && (forall j :: 0 <= j < |p.accepted| ==> log[p.places[j]] == Claim(p.accepted[j], t, true))
  }

  /** `[h, h + w)` is claimed by `t`; the first `i` positions of it are published, the rest are not. */
  ghost predicate Filling<T>(cap: nat, log: seq<Claim<T>>, t: nat, p: Producer<T>, h: nat, i: nat) {
    var w := Width(p, cap);
    && i < w && h + w <= |log| && p.done + w <= |p.items| && |p.places| >= w
    && (forall q :: h <= q < h + w ==> log[q] == Claim(p.items[p.done + (q - h)], t, q < h + i))
    && (forall k :: |p.places| - w <= k < |p.places| ==> p.places[k] == h + (k - (|p.places| - w)))
  }

  /** A value written but not published yet is in its slot. */
  ghost predicate WrittenOk<T>(cap: nat, slots: seq<Slot<T>>, p: Producer<T>)
    requires cap > 0 && |slots| == cap
  {
    p.pc.Publish? && p.done + p.pc.i < |p.items| ==>
      slots[Index(p.pc.h + p.pc.i, cap)].data == Some(p.items[p.done + p.pc.i])
  }

  /** Position `p` is known to the producer that claimed it, who still has to publish it if it is unpublished. */
  ghost predicate Tracked<T>(cap: nat, log: seq<Claim<T>>, producers: map<nat, Producer<T>>, p: nat)
    requires p < |log|
  {
    var t := log[p].producer;
    && t in producers && p in producers[t].places
    && (!log[p].published ==>
          Writing(producers[t]) && producers[t].pc.h + producers[t].pc.i <= p < producers[t].pc.h + Width(producers[t], cap))
  }

  ghost predicate Inv<T>(s: State<T>) {
    && s.cap >= 2 && |s.slots| == s.cap && |s.log| == s.head <= s.released + s.cap
    && ConsumerOk(s.consumer, s.log, s.tail, s.released, s.delivered)
    && StampsOk(s.cap, s.slots, s.log, s.released)
    && DataOk(s.cap, s.slots, s.log, ReadUpTo(s.consumer, s.tail))
    && (forall p :: 0 <= p < s.head ==> Tracked(s.cap, s.log, s.producers, p))
    && (forall t :: t in s.producers ==> ProducerOk(s.cap, s.released, s.log, t, s.producers[t]))
    && (forall t :: t in s.producers ==> WrittenOk(s.cap, s.slots, s.producers[t]))
  }

  lemma InitInv<T>(cap: nat)
    requires cap >= 2
    ensures Inv(Init<T>(cap))
  {
    forall p | 0 <= p < cap ensures Index(p, cap) == p { DivModUnique(p, cap, 0, p); }
  }

  lemma TrackedPut<T>(s: State<T>, t: nat, p: Producer<T>)
    requires Inv(s) && !Writing(Of(s, t)) && p.places == Of(s, t).places
    ensures var ps := s.producers[t := p]; forall q :: 0 <= q < |s.log| ==> Tracked(s.cap, s.log, ps, q)
  {
    var ps := s.producers[t := p];
    forall q | 0 <= q < |s.log| ensures Tracked(s.cap, s.log, ps, q) {
      assert Tracked(s.cap, s.log, s.producers, q);
    }
  }

  /** A step that changes only what producer `t` remembers. */
  lemma LocalInv<T>(s: State<T>, t: nat, p: Producer<T>)
    requires Inv(s) && !Writing(Of(s, t)) && !Writing(p)
    requires p.places == Of(s, t).places && ProducerOk(s.cap, s.released, s.log, t, p)
    ensures Inv(Put(s, t, p))
  {
    hide ProducerOk, Tracked, ConsumerOk, StampsOk, DataOk;
    TrackedPut(s, t, p);
  }

  lemma CallInv<T>(s: State<T>, t: nat, kind: Kind, items: seq<T>)
    requires Inv(s) && Of(s, t).pc.Idle? && (kind.Batch? || |items| == 1)
    ensures Inv(Put(s, t, Begin(Of(s, t), kind, items)))
  {
    var p := Begin(Of(s, t), kind, items);
    hide ConsumerOk, StampsOk, DataOk, Tracked;
    assert PlacesOk(s.cap, s.log, t, p);
    LocalInv(s, t, p) by {
      hide PlacesOk;
      assert p.accepted[|p.accepted|..] == [] == items[..0];
    }
  }

  /** A stamp at least as high as the last position of the run proves the whole run free. */
  lemma LastFree<T>(s: State<T>, h: nat, w: nat)
    requires StampsOk(s.cap, s.slots, s.log, s.released) && s.head <= s.released + s.cap && h == s.head == |s.log|
    requires 0 < w <= s.cap && s.slots[Index(h + w - 1, s.cap)].sequence >= h + w - 1
    ensures h + w <= s.released + s.cap
  {
    if h + w > s.released + s.cap { IndexNextLap(h + w - 1 - s.cap, s.cap); }
  }

  /** What changes when a producer that claims nothing moves on. */
  lemma Move<T>(cap: nat, released: nat, log: seq<Claim<T>>, t: nat, p: Producer<T>, p': Producer<T>)
    requires ProducerOk(cap, released, log, t, p) && !Writing(p) && !Writing(p') && !p.pc.Idle?
    requires p' == p.(pc := p'.pc, attempt := p'.attempt) && p.attempt <= p'.attempt
    requires PcOk(cap, released, log, t, p')
    ensures ProducerOk(cap, released, log, t, p')
  {
  }

  lemma SearchPcOk<T>(s: State<T>, t: nat)
    requires Inv(s) && t in s.producers && !s.producers[t].pc.Idle? && !Writing(s.producers[t])
    requires !(s.producers[t].pc.Cas? && s.producers[t].pc.h == s.head)
    ensures PcOk(s.cap, s.released, s.log, t, ProducerStep(s, t).producers[t])
  {
    var p := s.producers[t];
    assert ProducerOk(s.cap, s.released, s.log, t, p);
    assert CountsOk(s.cap, p) && PcOk(s.cap, s.released, s.log, t, p) && WellShaped(s) && |s.log| == s.head;
    assert StampsOk(s.cap, s.slots, s.log, s.released) && s.released <= s.head <= s.released + s.cap;
    hide Inv, StampsOk, ProducerOk, ProducerStep, CountsOk, PcOk;
    if p.pc.LoadLast? { LastPcOk(s, t); } else if p.pc.LoadFirst? { FirstPcOk(s, t); } else { SearchOther(s, t); }
  }

  lemma LastPcOk<T>(s: State<T>, t: nat)
    requires WellShaped(s) && t in s.producers && s.producers[t].pc.LoadLast? && PcOk(s.cap, s.released, s.log, t, s.producers[t])
    requires CountsOk(s.cap, s.producers[t]) && |s.log| == s.head
    requires StampsOk(s.cap, s.slots, s.log, s.released) && s.released <= s.head <= s.released + s.cap
    ensures PcOk(s.cap, s.released, s.log, t, ProducerStep(s, t).producers[t])
  {
    var p := s.producers[t];
    var w := Width(p, s.cap);
    hide StampsOk, ProducerStep;
    if s.slots[Index(p.pc.h + w - 1, s.cap)].sequence >= p.pc.h + w - 1 && s.head == p.pc.h { LastFree(s, p.pc.h, w); }
    SearchLast(s, t);
  }

  lemma FirstPcOk<T>(s: State<T>, t: nat)
    requires WellShaped(s) && t in s.producers && s.producers[t].pc.LoadFirst? && PcOk(s.cap, s.released, s.log, t, s.producers[t])
    requires CountsOk(s.cap, s.producers[t]) && |s.log| == s.head
    requires StampsOk(s.cap, s.slots, s.log, s.released) && s.released <= s.head <= s.released + s.cap
    ensures PcOk(s.cap, s.released, s.log, t, ProducerStep(s, t).producers[t])
  {
    var p := s.producers[t];
    hide StampsOk, ProducerStep;
    if s.slots[Index(p.pc.h, s.cap)].sequence == p.pc.h && s.head == p.pc.h && !Fast(p, s.cap) { LastFree(s, p.pc.h, 1); }
    SearchFirst(s, t);
  }

  lemma SearchOther<T>(s: State<T>, t: nat)
    requires WellShaped(s) && t in s.producers && !s.producers[t].pc.Idle? && !Writing(s.producers[t])
    requires !s.producers[t].pc.LoadLast? && !s.producers[t].pc.LoadFirst? && !(s.producers[t].pc.Cas? && s.producers[t].pc.h == s.head)
    requires PcOk(s.cap, s.released, s.log, t, s.producers[t]) && |s.log| == s.head
    ensures PcOk(s.cap, s.released, s.log, t, ProducerStep(s, t).producers[t])
  {
  }

  lemma SearchLast<T>(s: State<T>, t: nat)
    requires WellShaped(s) && t in s.producers && s.producers[t].pc.LoadLast? && PcOk(s.cap, s.released, s.log, t, s.producers[t])
    requires CountsOk(s.cap, s.producers[t]) && |s.log| == s.head
    requires var p := s.producers[t]; var w := Width(p, s.cap);
             s.slots[Index(p.pc.h + w - 1, s.cap)].sequence >= p.pc.h + w - 1 && s.head == p.pc.h ==> p.pc.h + w <= s.released + s.cap
    ensures PcOk(s.cap, s.released, s.log, t, ProducerStep(s, t).producers[t])
  {
  }

  lemma SearchFirst<T>(s: State<T>, t: nat)
    requires WellShaped(s) && t in s.producers && s.producers[t].pc.LoadFirst? && PcOk(s.cap, s.released, s.log, t, s.producers[t])
    requires CountsOk(s.cap, s.producers[t]) && |s.log| == s.head
    requires var p := s.producers[t];
             s.slots[Index(p.pc.h, s.cap)].sequence == p.pc.h && s.head == p.pc.h && !Fast(p, s.cap) ==> p.pc.h + 1 <= s.released + s.cap
    ensures PcOk(s.cap, s.released, s.log, t, ProducerStep(s, t).producers[t])
  {
  }

  /** A producer that claims nothing only moves its program counter and its attempt count. */
  lemma SearchShape<T>(s: State<T>, t: nat)
    requires WellShaped(s) && t in s.producers && !s.producers[t].pc.Idle? && !Writing(s.producers[t])
    requires CountsOk(s.cap, s.producers[t]) && (s.producers[t].pc.LoadLast? ==> Fast(s.producers[t], s.cap))
    requires !(s.producers[t].pc.Cas? && s.producers[t].pc.h == s.head)
    ensures var s', p := ProducerStep(s, t), s.producers[t];
            && t in s'.producers && s' == Put(s, t, s'.producers[t]) && !Writing(s'.producers[t])
            && s'.producers[t] == p.(pc := s'.producers[t].pc, attempt := s'.producers[t].attempt)
            && p.attempt <= s'.producers[t].attempt
  {
  }

  /** The steps of a producer before it claims anything. */
  lemma SearchInv<T>(s: State<T>, t: nat)
    requires Inv(s) && t in s.producers && !Writing(s.producers[t])
    requires !(s.producers[t].pc.Cas? && s.producers[t].pc.h == s.head)
    ensures Inv(ProducerStep(s, t))
  {
    var p := s.producers[t];
    assert ProducerOk(s.cap, s.released, s.log, t, p);
    assert CountsOk(s.cap, p);
    if !p.pc.Idle? {
      assert PcOk(s.cap, s.released, s.log, t, p);
      SearchShape(s, t);
      SearchPcOk(s, t);
      hide ConsumerOk, DataOk, StampsOk, Tracked, PlacesOk, ProducerOk, PcOk, ProducerStep, CountsOk;
      var p' := ProducerStep(s, t).producers[t];
      Move(s.cap, s.released, s.log, t, p, p');
      LocalInv(s, t, p');
    }
  }

  // ----- a successful compare-and-swap ----------------------------------------------------------

  /** The facts about producers that a step by someone else keeps: the log only grows, and the only
      entries that may change are those of `except`. */
  ghost predicate LogGrows<T>(log: seq<Claim<T>>, log': seq<Claim<T>>, except: nat) {
    && |log| <= |log'|
    && (forall q :: 0 <= q < |log| && log[q].producer != except ==> log'[q] == log[q])
  }

  lemma OtherProducerOk<T>(cap: nat, released: nat, log: seq<Claim<T>>, released': nat, log': seq<Claim<T>>,
                           except: nat, t: nat, p: Producer<T>)
    requires ProducerOk(cap, released, log, t, p) && t != except
    requires LogGrows(log, log', except) && released <= released'
    ensures ProducerOk(cap, released', log', t, p)
  {
    assert PlacesOk(cap, log', t, p);
  }

  /** Every producer but `t` keeps its facts when `t` or the consumer moves. */
  lemma OthersOk<T>(s: State<T>, t: nat, released': nat, log': seq<Claim<T>>, ps': map<nat, Producer<T>>)
    requires Inv(s) && LogGrows(s.log, log', t) && s.released <= released'
    requires forall u :: u in ps' && u != t ==> u in s.producers && ps'[u] == s.producers[u]
    ensures forall u :: u in ps' && u != t ==> ProducerOk(s.cap, released', log', u, ps'[u])
  {
    hide ProducerOk, ConsumerOk, StampsOk, DataOk, Tracked, LogGrows;
    forall u | u in ps' && u != t ensures ProducerOk(s.cap, released', log', u, ps'[u]) {
      OtherProducerOk(s.cap, s.released, s.log, released', log', t, u, s.producers[u]);
    }
  }

  lemma ClaimTracked<T>(s: State<T>, t: nat)
    requires Inv(s) && t in s.producers && s.producers[t].pc == Cas(s.head)
    ensures var s' := ProducerStep(s, t); forall q :: 0 <= q < s'.head ==> Tracked(s'.cap, s'.log, s'.producers, q)
  {
    var p, s', h := s.producers[t], ProducerStep(s, t), s.head;
    var w := Width(p, s.cap);
    assert ProducerOk(s.cap, s.released, s.log, t, p);
    hide ConsumerOk, DataOk, StampsOk, PlacesOk;
    forall q | 0 <= q < s'.head ensures Tracked(s'.cap, s'.log, s'.producers, q) {
      if q < h {
        assert Tracked(s.cap, s.log, s.producers, q);
      } else {
        assert s'.producers[t].places[|p.places| + (q - h)] == q;
      }
    }
  }

  lemma ClaimPlacesOk<T>(s: State<T>, t: nat)
    requires Inv(s) && t in s.producers && s.producers[t].pc == Cas(s.head)
    ensures var s' := ProducerStep(s, t); PlacesOk(s'.cap, s'.log, t, s'.producers[t])
  {
    var p, h, s' := s.producers[t], s.head, ProducerStep(s, t);
    assert ProducerOk(s.cap, s.released, s.log, t, p);
    assert CountsOk(s.cap, p) && PlacesOk(s.cap, s.log, t, p) && |s.log| == h;
    hide Inv, PlacesOk, ProducerOk;
    var w := Width(p, s.cap);
    assert s'.log == s.log + seq(w, j requires 0 <= j < w => Claim(p.items[p.done + j], t, false));
    assert s'.producers[t] == p.(pc := WriteData(h, 0), places := p.places + seq(w, j requires 0 <= j < w => h + j));
    hide ProducerStep, CountsOk;
    MorePlacesClaimed(s.cap, s.log, t, p);
  }

  lemma MorePlacesClaimed<T>(cap: nat, log: seq<Claim<T>>, t: nat, p: Producer<T>)
    requires PlacesOk(cap, log, t, p) && !Writing(p) && p.done + Width(p, cap) <= |p.items|
    ensures var w, h := Width(p, cap), |log|;
            PlacesOk(cap, log + seq(w, j requires 0 <= j < w => Claim(p.items[p.done + j], t, false)), t,
                     p.(pc := WriteData(h, 0), places := p.places + seq(w, j requires 0 <= j < w => h + j)))
  {
  }

  lemma ClaimFilling<T>(s: State<T>, t: nat)
    requires Inv(s) && t in s.producers && s.producers[t].pc == Cas(s.head)
    ensures var s' := ProducerStep(s, t); Filling(s'.cap, s'.log, t, s'.producers[t], s.head, 0)
  {
    assert ProducerOk(s.cap, s.released, s.log, t, s.producers[t]);
    hide ConsumerOk, DataOk, StampsOk, Tracked, PlacesOk;
  }

  lemma ClaimCounts<T>(s: State<T>, t: nat)
    requires Inv(s) && t in s.producers && s.producers[t].pc == Cas(s.head)
    ensures var s' := ProducerStep(s, t);
            s'.cap == s.cap && s'.released == s.released && CountsOk(s.cap, s'.producers[t]) && s'.producers[t].pc == WriteData(s.head, 0)
  {
    assert ProducerOk(s.cap, s.released, s.log, t, s.producers[t]);
    hide Inv, PlacesOk;
  }

  /** What a successful compare-and-swap changes, and that its run is inside the free window. */
  lemma ClaimShape<T>(s: State<T>, t: nat)
    requires Inv(s) && t in s.producers && s.producers[t].pc == Cas(s.head)
    ensures var s', w := ProducerStep(s, t), Width(s.producers[t], s.cap);
            && s'.producers.Keys == s.producers.Keys && (forall u :: u in s.producers && u != t ==> s'.producers[u] == s.producers[u])
            && s' == s.(head := s.head + w, log := s'.log, producers := s'.producers)
            && |s'.log| == s'.head <= s.released + s.cap && s.log <= s'.log
            && (forall q :: s.head <= q < s'.head ==> !s'.log[q].published)
  {
    assert ProducerOk(s.cap, s.released, s.log, t, s.producers[t]);
    hide ConsumerOk, DataOk, StampsOk, Tracked, PlacesOk;
  }

  lemma ClaimSlotsOk<T>(s: State<T>, log': seq<Claim<T>>)
    requires Inv(s) && s.log <= log' && (forall q :: s.head <= q < |log'| ==> !log'[q].published)
    ensures StampsOk(s.cap, s.slots, log', s.released) && DataOk(s.cap, s.slots, log', ReadUpTo(s.consumer, s.tail))
  {
    hide Tracked, ProducerOk, ConsumerOk;
  }

  lemma ClaimInv<T>(s: State<T>, t: nat)
    requires Inv(s) && t in s.producers && s.producers[t].pc == Cas(s.head)
    ensures Inv(ProducerStep(s, t))
  {
    hide Tracked, ProducerStep, PlacesOk, CountsOk, Filling, ConsumerOk, StampsOk, DataOk, ProducerOk;
    ClaimTracked(s, t);
    ClaimProducerOk(s, t);
    ClaimShape(s, t);
    var s' := ProducerStep(s, t);
    ClaimSlotsOk(s, s'.log);
    ConsumerGrows(s, s'.log);
    OthersOk(s, t, s.released, s'.log, s'.producers);
  }

  lemma ClaimProducerOk<T>(s: State<T>, t: nat)
    requires Inv(s) && t in s.producers && s.producers[t].pc == Cas(s.head)
    ensures var s' := ProducerStep(s, t); ProducerOk(s.cap, s.released, s'.log, t, s'.producers[t]) && s'.producers[t].pc.WriteData?
  {
    hide Inv, ProducerStep, PlacesOk, CountsOk, Filling;
    ClaimPlacesOk(s, t);
    ClaimFilling(s, t);
    ClaimCounts(s, t);
  }

  /** The consumer's facts speak about published positions only, which no producer changes. */
  lemma ConsumerGrows<T>(s: State<T>, log': seq<Claim<T>>)
    requires ConsumerOk(s.consumer, s.log, s.tail, s.released, s.delivered)
    requires |s.log| <= |log'|
    requires forall q :: 0 <= q < |s.log| ==> log'[q].item == s.log[q].item && (s.log[q].published ==> log'[q].published)
    ensures ConsumerOk(s.consumer, log', s.tail, s.released, s.delivered)
  {
    assert forall n :: 0 <= n <= |s.log| ==> ItemsOf(log'[..n]) == ItemsOf(s.log[..n]);
    assert forall m, n :: 0 <= m <= n <= |s.log| ==> ItemsOf(log'[m..n]) == ItemsOf(s.log[m..n]);
  }

  // ----- writing and publishing -----------------------------------------------------------------

  /** An unpublished position is in the window, ahead of the consumer. */
  lemma Ahead<T>(s: State<T>, q: nat)
    requires Inv(s) && q < s.head && !s.log[q].published
    ensures s.released <= s.tail <= ReadUpTo(s.consumer, s.tail) <= q < s.released + s.cap
  {
    hide Tracked, ProducerOk, StampsOk, DataOk;
  }

  lemma WritingPlace<T>(s: State<T>, t: nat)
    requires Inv(s) && t in s.producers && Writing(s.producers[t])
    ensures var p := s.producers[t]; var q := p.pc.h + p.pc.i;
            && Filling(s.cap, s.log, t, p, p.pc.h, p.pc.i)
            && q < s.head && s.log[q] == Claim(p.items[p.done + p.pc.i], t, false)
            && s.released <= ReadUpTo(s.consumer, s.tail) <= q < s.released + s.cap
  {
    var p := s.producers[t];
    assert ProducerOk(s.cap, s.released, s.log, t, p);
    assert PcOk(s.cap, s.released, s.log, t, p);
    Ahead(s, p.pc.h + p.pc.i);
  }

  /** Changing the slot of an unread window position disturbs neither other readable data nor other writers. */
  lemma SlotWrite<T>(s: State<T>, q: nat, v: Slot<T>)
    requires Inv(s) && s.released <= q < s.released + s.cap && q < s.head
    ensures var slots' := s.slots[Index(q, s.cap) := v];
            && (forall p {:trigger Index(p, s.cap)} :: s.released <= p < s.released + s.cap && p != q ==>
                  slots'[Index(p, s.cap)] == s.slots[Index(p, s.cap)])
            && (forall u :: u in s.producers && (s.producers[u].pc.Publish? ==> s.producers[u].pc.h + s.producers[u].pc.i != q) ==>
                  WrittenOk(s.cap, slots', s.producers[u]))
  {
    var slots' := s.slots[Index(q, s.cap) := v];
    WindowDistinct(s.released, s.cap);
    hide ProducerOk, Tracked, ConsumerOk, DataOk, StampsOk;
    forall u | u in s.producers && s.producers[u].pc.Publish? && s.producers[u].pc.h + s.producers[u].pc.i != q
      ensures WrittenOk(s.cap, slots', s.producers[u])
    {
      WritingPlace(s, u);
      assert WrittenOk(s.cap, s.slots, s.producers[u]);
    }
  }

  lemma WriteShape<T>(s: State<T>, t: nat)
    requires WellShaped(s) && t in s.producers && s.producers[t].pc.WriteData?
    requires Filling(s.cap, s.log, t, s.producers[t], s.producers[t].pc.h, s.producers[t].pc.i)
    ensures var p := s.producers[t]; var q := p.pc.h + p.pc.i; var k := Index(q, s.cap);
            ProducerStep(s, t) == s.(slots := s.slots[k := s.slots[k].(data := Some(p.items[p.done + p.pc.i]))],
                                     producers := s.producers[t := p.(pc := Publish(p.pc.h, p.pc.i))])
  {
    assert s.log[s.producers[t].pc.h] == s.log[s.producers[t].pc.h];
  }

  lemma WriteProducerOk<T>(cap: nat, released: nat, log: seq<Claim<T>>, t: nat, p: Producer<T>)
    requires p.pc.WriteData? && ProducerOk(cap, released, log, t, p)
    ensures ProducerOk(cap, released, log, t, p.(pc := Publish(p.pc.h, p.pc.i)))
  {
    var p' := p.(pc := Publish(p.pc.h, p.pc.i));
    assert Filling(cap, log, t, p', p.pc.h, p.pc.i);
  }

  /** Data written at an unpublished position leaves stamps, readable data and the other writers alone. */
  lemma WriteSlotsOk<T>(s: State<T>, q: nat, d: T)
    requires Inv(s) && q < s.head && !s.log[q].published
    ensures var slots' := s.slots[Index(q, s.cap) := s.slots[Index(q, s.cap)].(data := Some(d))];
            StampsOk(s.cap, slots', s.log, s.released) && DataOk(s.cap, slots', s.log, ReadUpTo(s.consumer, s.tail))
  {
    Ahead(s, q);
    SlotWrite(s, q, s.slots[Index(q, s.cap)].(data := Some(d)));
    hide Tracked, ProducerOk, ConsumerOk, WrittenOk;
  }

  /** Where another producer writes is never where `t` writes. */
  lemma OtherWriter<T>(s: State<T>, t: nat, u: nat)
    requires Inv(s) && t in s.producers && u in s.producers && t != u && Writing(s.producers[t]) && Writing(s.producers[u])
    ensures s.producers[t].pc.h + s.producers[t].pc.i != s.producers[u].pc.h + s.producers[u].pc.i
  {
    hide Tracked, ProducerOk, ConsumerOk, StampsOk, DataOk, Filling;
    WritingPlace(s, t);
    WritingPlace(s, u);
  }

  lemma OtherWriters<T>(s: State<T>, t: nat)
    requires Inv(s) && t in s.producers && Writing(s.producers[t])
    ensures var q := s.producers[t].pc.h + s.producers[t].pc.i;
            forall u :: u in s.producers && u != t && s.producers[u].pc.Publish? ==>
              s.producers[u].pc.h + s.producers[u].pc.i != q
  {
    hide Tracked, ProducerOk, ConsumerOk, StampsOk, DataOk;
    forall u | u in s.producers && u != t && s.producers[u].pc.Publish?
      ensures s.producers[u].pc.h + s.producers[u].pc.i != s.producers[t].pc.h + s.producers[t].pc.i
    {
      OtherWriter(s, t, u);
    }
  }

  lemma WriteTracked<T>(s: State<T>, t: nat)
    requires Inv(s) && t in s.producers && s.producers[t].pc.WriteData?
    ensures var ps := s.producers[t := s.producers[t].(pc := Publish(s.producers[t].pc.h, s.producers[t].pc.i))];
            forall q :: 0 <= q < s.head ==> Tracked(s.cap, s.log, ps, q)
  {
    var ps := s.producers[t := s.producers[t].(pc := Publish(s.producers[t].pc.h, s.producers[t].pc.i))];
    forall q | 0 <= q < s.head ensures Tracked(s.cap, s.log, ps, q) {
      assert Tracked(s.cap, s.log, s.producers, q);
    }
  }

  lemma WriteInv<T>(s: State<T>, t: nat)
    requires Inv(s) && t in s.producers && s.producers[t].pc.WriteData?
    ensures Inv(ProducerStep(s, t))
  {
    hide ProducerStep, ConsumerOk, StampsOk, DataOk, Tracked, ProducerOk;
    var p := s.producers[t];
    WritingPlace(s, t);
    var q := p.pc.h + p.pc.i;
    WriteShape(s, t);
    hide Filling;
    WriteProducerOk(s.cap, s.released, s.log, t, p);
    WriteTracked(s, t);
    WriteSlotsOk(s, q, p.items[p.done + p.pc.i]);
    OtherWriters(s, t);
    SlotWrite(s, q, s.slots[Index(q, s.cap)].(data := Some(p.items[p.done + p.pc.i])));
  }

  /** Publishing position `q` of producer `t`: the log after it. */
  lemma PublishLog<T>(s: State<T>, t: nat)
    requires Inv(s) && t in s.producers && s.producers[t].pc.Publish?
    ensures var p := s.producers[t]; var q := p.pc.h + p.pc.i; var k := Index(q, s.cap);
            var s' := ProducerStep(s, t);
            && q < s.head && s'.log == s.log[q := s.log[q].(published := true)]
            && s' == s.(slots := s.slots[k := s.slots[k].(sequence := q + 1)], log := s'.log,
                        producers := s.producers[t := s'.producers[t]])
            && s'.producers[t] == if p.pc.i + 1 < Width(p, s.cap) then p.(pc := WriteData(p.pc.h, p.pc.i + 1)) else Filled(p, s.cap)
  {
    assert ProducerOk(s.cap, s.released, s.log, t, s.producers[t]);
    assert Filling(s.cap, s.log, t, s.producers[t], s.producers[t].pc.h, s.producers[t].pc.i);
    hide ConsumerOk, StampsOk, DataOk, Tracked;
  }

  lemma PublishSlotsOk<T>(s: State<T>, t: nat)
    requires Inv(s) && t in s.producers && s.producers[t].pc.Publish?
    ensures var s' := ProducerStep(s, t);
            && StampsOk(s.cap, s'.slots, s'.log, s.released)
            && DataOk(s.cap, s'.slots, s'.log, ReadUpTo(s.consumer, s.tail))
            && (forall u :: u in s.producers && u != t ==> WrittenOk(s.cap, s'.slots, s.producers[u]))
  {
    hide Tracked, ProducerOk, ConsumerOk, ProducerStep, Filling;
    var p := s.producers[t];
    WritingPlace(s, t);
    PublishLog(s, t);
    var q := p.pc.h + p.pc.i;
    assert WrittenOk(s.cap, s.slots, p);
    OtherWriters(s, t);
    SlotWrite(s, q, s.slots[Index(q, s.cap)].(sequence := q + 1));
  }

  lemma PublishTracked<T>(s: State<T>, t: nat)
    requires Inv(s) && t in s.producers && s.producers[t].pc.Publish?
    ensures var s' := ProducerStep(s, t); forall q :: 0 <= q < s'.head ==> Tracked(s'.cap, s'.log, s'.producers, q)
  {
    PublishLog(s, t);
    WritingPlace(s, t);
    var s' := ProducerStep(s, t);
    hide ProducerOk, ConsumerOk, ProducerStep, Filling, StampsOk, DataOk, Tracked;
    assert forall q :: 0 <= q < s'.head ==> Tracked(s.cap, s.log, s.producers, q);
    hide Inv;
    forall q | 0 <= q < s'.head ensures Tracked(s'.cap, s'.log, s'.producers, q) {
      TrackedStays(s, s', t, q);
    }
  }

  lemma TrackedStays<T>(s: State<T>, s': State<T>, t: nat, q: nat)
    requires q < |s.log| && Tracked(s.cap, s.log, s.producers, q) && t in s.producers && s.producers[t].pc.Publish?
    requires var p := s.producers[t]; var x := p.pc.h + p.pc.i;
             && x < |s.log| && s'.log == s.log[x := s.log[x].(published := true)] && s'.cap == s.cap && s.log[x].producer == t
             && t in s'.producers && s'.producers == s.producers[t := s'.producers[t]]
             && p.done + Width(p, s.cap) <= |p.items|
             && s'.producers[t] == if p.pc.i + 1 < Width(p, s.cap) then p.(pc := WriteData(p.pc.h, p.pc.i + 1)) else Filled(p, s.cap)
    ensures Tracked(s'.cap, s'.log, s'.producers, q)
  {
  }

  lemma PublishMoreOk<T>(s: State<T>, t: nat)
    requires Inv(s) && t in s.producers && s.producers[t].pc.Publish?
    requires s.producers[t].pc.i + 1 < Width(s.producers[t], s.cap)
    ensures var s' := ProducerStep(s, t); ProducerOk(s.cap, s.released, s'.log, t, s'.producers[t])
  {
    PublishLog(s, t);
    assert ProducerOk(s.cap, s.released, s.log, t, s.producers[t]);
    hide Inv, ProducerStep, PlacesOk, Filling, CountsOk;
    MorePlaces(s.cap, s.log, t, s.producers[t]);
  }

  /** The next position of the run is published ... */
  lemma MorePlaces<T>(cap: nat, log: seq<Claim<T>>, t: nat, p: Producer<T>)
    requires p.pc.Publish? && PlacesOk(cap, log, t, p) && Filling(cap, log, t, p, p.pc.h, p.pc.i) && CountsOk(cap, p)
    requires p.pc.i + 1 < Width(p, cap)
    ensures var q := p.pc.h + p.pc.i; var log', p' := log[q := log[q].(published := true)], p.(pc := WriteData(p.pc.h, p.pc.i + 1));
            PlacesOk(cap, log', t, p') && Filling(cap, log', t, p', p.pc.h, p.pc.i + 1) && CountsOk(cap, p')
  {
  }

  /** ... or the last one: the call has `w` more accepted items, at the run's positions. */
  lemma LastPlaces<T>(cap: nat, log: seq<Claim<T>>, t: nat, p: Producer<T>)
    requires p.pc.Publish? && PlacesOk(cap, log, t, p) && Filling(cap, log, t, p, p.pc.h, p.pc.i)
    requires p.pc.i + 1 == Width(p, cap)
    ensures var q := p.pc.h + p.pc.i; PlacesOk(cap, log[q := log[q].(published := true)], t, Filled(p, cap))
  {
    var q, p', n := p.pc.h + p.pc.i, Filled(p, cap), |p.accepted|;
    var log' := log[q := log[q].(published := true)];
    forall j | 0 <= j < |p'.accepted| ensures log'[p.places[j]] == Claim(p'.accepted[j], t, true) {
      if j >= n { assert p.places[j] == p.pc.h + (j - n) && p'.accepted[j] == p.items[p.done + (j - n)]; }
    }
  }

  lemma PublishLastOk<T>(s: State<T>, t: nat)
    requires Inv(s) && t in s.producers && s.producers[t].pc.Publish?
    requires s.producers[t].pc.i + 1 == Width(s.producers[t], s.cap)
    ensures var s' := ProducerStep(s, t); PlacesOk(s.cap, s'.log, t, s'.producers[t])
  {
    PublishLog(s, t);
    assert ProducerOk(s.cap, s.released, s.log, t, s.producers[t]);
    hide Inv, ProducerStep, PlacesOk, Filling, CountsOk, Filled;
    LastPlaces(s.cap, s.log, t, s.producers[t]);
  }

  lemma PublishLastCounts<T>(s: State<T>, t: nat)
    requires Inv(s) && t in s.producers && s.producers[t].pc.Publish?
    requires s.producers[t].pc.i + 1 == Width(s.producers[t], s.cap)
    ensures var s' := ProducerStep(s, t); CountsOk(s.cap, s'.producers[t]) && PcOk(s.cap, s.released, s'.log, t, s'.producers[t])
  {
    PublishLog(s, t);
    assert ProducerOk(s.cap, s.released, s.log, t, s.producers[t]);
    assert CountsOk(s.cap, s.producers[t]);
    hide Inv, ProducerOk, ProducerStep, PlacesOk, Filling, CountsOk;
    LastCounts(s.cap, s.producers[t]);
  }

  lemma LastCounts<T>(cap: nat, p: Producer<T>)
    requires p.pc.Publish? && CountsOk(cap, p)
    ensures CountsOk(cap, Filled(p, cap)) && (Filled(p, cap).pc.Idle? || Filled(p, cap).pc.LoadClosed?)
  {
    TailJoin(p.accepted, p.items, p.done, Width(p, cap));
  }

  lemma TailJoin<T>(accepted: seq<T>, items: seq<T>, done: nat, w: nat)
    requires done <= |accepted| && done + w <= |items| && accepted[|accepted| - done..] == items[..done]
    ensures (accepted + items[done..done + w])[|accepted| - done..] == items[..done + w]
  {
    assert (accepted + items[done..done + w])[|accepted| - done..] == accepted[|accepted| - done..] + items[done..done + w];
  }

  lemma PublishInv<T>(s: State<T>, t: nat)
    requires Inv(s) && t in s.producers && s.producers[t].pc.Publish?
    ensures Inv(ProducerStep(s, t))
  {
    hide ProducerStep, ConsumerOk, StampsOk, DataOk, Tracked, Filling, PlacesOk, CountsOk, PcOk;
    var s' := ProducerStep(s, t);
    PublishLog(s, t);
    PublishSlotsOk(s, t);
    PublishTracked(s, t);
    WritingPlace(s, t);
    ConsumerGrows(s, s'.log);
    if s.producers[t].pc.i + 1 < Width(s.producers[t], s.cap) {
      PublishMoreOk(s, t);
    } else {
      PublishLastOk(s, t);
      PublishLastCounts(s, t);
    }
    OthersOk(s, t, s.released, s'.log, s'.producers);
    assert ProducerOk(s'.cap, s'.released, s'.log, t, s'.producers[t]);
    hide ProducerOk;
  }

  // ----- the consumer ---------------------------------------------------------------------------

  /** A consumer step that touches neither slots nor log. */
  lemma ConsumerLocalInv<T>(s: State<T>, c: Consumer<T>, tail': nat)
    requires Inv(s) && ReadUpTo(s.consumer, s.tail) <= ReadUpTo(c, tail')
    requires ConsumerOk(c, s.log, tail', s.released, s.delivered)
    ensures Inv(s.(consumer := c, tail := tail'))
  {
    assert DataOk(s.cap, s.slots, s.log, ReadUpTo(c, tail'));
    hide ConsumerOk, StampsOk, DataOk, Tracked, ProducerOk;
  }

  lemma DequeueInv<T>(s: State<T>, limit: nat)
    requires Inv(s) && s.consumer.Resting?
    ensures Inv(s.(consumer := Scan(s.tail, [], limit)))
  {
    hide StampsOk, DataOk, Tracked, ProducerOk;
    assert ItemsOf(s.log[s.tail..s.tail + 0]) == [];
    ConsumerLocalInv(s, Scan(s.tail, [], limit), s.tail);
  }

  /** A stamp one above its position means that the position is claimed and published. */
  lemma StampPublished<T>(s: State<T>, q: nat)
    requires Inv(s) && s.released <= q <= s.head && s.slots[Index(q, s.cap)].sequence == q + 1
    ensures q < s.head && s.log[q].published
  {
    hide Tracked, ProducerOk, ConsumerOk, DataOk;
    if q == s.released + s.cap { IndexNextLap(s.released, s.cap); }
    assert s.slots[Index(s.released, s.cap)].sequence == Stamp(s.log, s.released);
  }

  lemma ScanInv<T>(s: State<T>)
    requires Inv(s) && s.consumer.Scan?
    ensures Inv(ConsumerStep(s))
  {
    var base, got, limit := s.consumer.base, s.consumer.got, s.consumer.limit;
    assert Reading(s.log, base, got, s.tail, s.released, s.delivered);
    var q := base + |got|;
    if |got| < limit && s.slots[Index(q, s.cap)].sequence == q + 1 {
      StampPublished(s, q);
      ConsumerLocalInv(s, Read(base, got, limit), s.tail);
    } else if got == [] {
      ConsumerLocalInv(s, Resting, s.tail);
    } else {
      ConsumerLocalInv(s, Commit(base, got), s.tail);
    }
  }

  lemma ReadStep<T>(s: State<T>)
    requires Inv(s) && s.consumer.Read?
    ensures var q := s.consumer.base + |s.consumer.got|;
            && q < s.head && s.slots[Index(q, s.cap)].data == Some(s.log[q].item)
            && ConsumerOk(Clear(s.consumer.base, s.consumer.got + [s.log[q].item], s.consumer.limit), s.log, s.tail, s.released, s.delivered)
  {
    hide Tracked, ProducerOk, StampsOk;
    var base, got := s.consumer.base, s.consumer.got;
    var q := base + |got|;
    assert ItemsOf(s.log[base..q + 1]) == ItemsOf(s.log[base..q]) + [s.log[q].item];
  }

  lemma ReadInv<T>(s: State<T>)
    requires Inv(s) && s.consumer.Read?
    ensures Inv(ConsumerStep(s))
  {
    ReadStep(s);
    hide Tracked, ProducerOk, StampsOk, DataOk, ConsumerOk;
    ConsumerLocalInv(s, ConsumerStep(s).consumer, s.tail);
  }

  lemma ClearInv<T>(s: State<T>)
    requires Inv(s) && s.consumer.Clear?
    ensures Inv(ConsumerStep(s))
  {
    var base, got, limit := s.consumer.base, s.consumer.got, s.consumer.limit;
    var q := base + |got| - 1;
    assert s.released <= q < s.head && s.log[q].published && q + 1 == ReadUpTo(s.consumer, s.tail);
    assert ConsumerOk(Scan(base, got, limit), s.log, s.tail, s.released, s.delivered);
    hide Tracked, ProducerOk, StampsOk, DataOk, ConsumerOk, WrittenOk;
    ClearSlots(s, q);
  }

  /** Emptying the slot just read harms nobody. */
  lemma ClearSlots<T>(s: State<T>, q: nat)
    requires Inv(s) && s.released <= q < s.head && s.log[q].published && q + 1 == ReadUpTo(s.consumer, s.tail)
    ensures var slots' := s.slots[Index(q, s.cap) := s.slots[Index(q, s.cap)].(data := None)];
            && StampsOk(s.cap, slots', s.log, s.released) && DataOk(s.cap, slots', s.log, q + 1)
            && (forall u :: u in s.producers ==> WrittenOk(s.cap, slots', s.producers[u]))
  {
    SlotWrite(s, q, s.slots[Index(q, s.cap)].(data := None));
    forall u | u in s.producers && s.producers[u].pc.Publish?
      ensures s.producers[u].pc.h + s.producers[u].pc.i != q
    {
      WritingPlace(s, u);
    }
    hide Tracked, ProducerOk, ConsumerOk;
  }

  lemma CommitInv<T>(s: State<T>)
    requires Inv(s) && s.consumer.Commit?
    ensures Inv(ConsumerStep(s))
  {
    var base, got := s.consumer.base, s.consumer.got;
    assert ConsumerOk(Release(base, got, 0), s.log, base + |got|, s.released, s.delivered);
    ConsumerLocalInv(s, Release(base, got, 0), base + |got|);
  }

  /** Releasing the oldest position moves the window up by one: its slot now belongs to the position one lap later. */
  lemma ReleaseSlots<T>(s: State<T>)
    requires Inv(s) && s.released < ReadUpTo(s.consumer, s.tail)
    ensures var slots' := s.slots[Index(s.released, s.cap) := s.slots[Index(s.released, s.cap)].(sequence := s.released + s.cap)];
            && StampsOk(s.cap, slots', s.log, s.released + 1) && DataOk(s.cap, slots', s.log, ReadUpTo(s.consumer, s.tail))
            && (forall u :: u in s.producers ==> WrittenOk(s.cap, slots', s.producers[u]))
  {
    WindowDistinct(s.released, s.cap);
    IndexNextLap(s.released, s.cap);
    hide Tracked, ProducerOk, ConsumerOk;
    forall u | u in s.producers
      ensures WrittenOk(s.cap, s.slots[Index(s.released, s.cap) := s.slots[Index(s.released, s.cap)].(sequence := s.released + s.cap)], s.producers[u])
    {
      assert WrittenOk(s.cap, s.slots, s.producers[u]);
    }
  }

  lemma ReleaseConsumerOk<T>(s: State<T>)
    requires Inv(s) && s.consumer.Release?
    ensures var s' := ConsumerStep(s); ConsumerOk(s'.consumer, s'.log, s'.tail, s'.released, s'.delivered)
    ensures ReadUpTo(ConsumerStep(s).consumer, s.tail) == s.tail == ReadUpTo(s.consumer, s.tail)
    ensures s.consumer.base + s.consumer.i == s.released < s.tail
  {
    hide Tracked, ProducerOk, StampsOk, DataOk;
    var base, got := s.consumer.base, s.consumer.got;
    assert ItemsOf(s.log[..s.tail]) == ItemsOf(s.log[..base]) + ItemsOf(s.log[base..s.tail]);
  }

  lemma ReleaseInv<T>(s: State<T>)
    requires Inv(s) && s.consumer.Release?
    ensures Inv(ConsumerStep(s))
  {
    hide Tracked, ProducerOk, StampsOk, DataOk, ConsumerOk, WrittenOk;
    var s' := ConsumerStep(s);
    ReleaseConsumerOk(s);
    ReleaseSlots(s);
    forall u | u in s.producers ensures ProducerOk(s.cap, s.released + 1, s.log, u, s.producers[u]) {
      OtherProducerOk(s.cap, s.released, s.log, s.released + 1, s.log, u + 1, u, s.producers[u]);
    }
  }

  // ----- main results ---------------------------------------------------------------------------

  /** Every action of every thread keeps the invariant. */
  lemma DoInv<T>(s: State<T>, a: Action<T>)
    requires Inv(s)
    ensures Inv(Do(s, a))
  {
    hide Inv, ProducerStep, ConsumerStep;
    match a
    case Call(t, kind, items) =>
      if Of(s, t).pc.Idle? && (kind.Batch? || |items| == 1) { CallInv(s, t, kind, items); }
    case Produce(t) => ProduceInv(s, t);
    case Dequeue(limit) => if s.consumer.Resting? && limit > 0 { DequeueInv(s, limit); }
    case Consume => ConsumeInv(s);
    case Close => CloseInv(s);
  }

  lemma CloseInv<T>(s: State<T>)
    requires Inv(s)
    ensures Inv(s.(closed := true))
  {
    hide Tracked, ProducerOk, StampsOk, DataOk, ConsumerOk;
  }

  lemma ProduceInv<T>(s: State<T>, t: nat)
    requires Inv(s)
    ensures Inv(ProducerStep(s, t))
  {
    if t in s.producers {
      var pc := s.producers[t].pc;
      if pc.WriteData? { WriteInv(s, t); }
      else if pc.Publish? { PublishInv(s, t); }
      else if pc == Cas(s.head) { ClaimInv(s, t); }
      else { hide Inv; SearchInv(s, t); }
    }
  }

  lemma ConsumeInv<T>(s: State<T>)
    requires Inv(s)
    ensures Inv(ConsumerStep(s))
  {
    hide Inv;
    match s.consumer
    case Resting =>
    case Scan(_, _, _) => ScanInv(s);
    case Read(_, _, _) => ReadInv(s);
    case Clear(_, _, _) => ClearInv(s);
    case Commit(_, _) => CommitInv(s);
    case Release(_, _, _) => ReleaseInv(s);
  }

  lemma {:induction false} ExecInv<T>(s: State<T>, acts: seq<Action<T>>)
    requires Inv(s)
    ensures Inv(Exec(s, acts))
    decreases |acts|
  {
    if acts != [] {
      DoInv(s, acts[0]);
      hide Inv;
      ExecInv(Do(s, acts[0]), acts[1..]);
    }
  }

  /** A state that some schedule reaches from an empty ring of `cap` slots. */
  ghost predicate Reachable<T(!new)>(cap: nat, s: State<T>) {
    cap > 0 && exists acts: seq<Action<T>> :: s == Exec(Init(cap), acts)
  }

  lemma ReachableInv<T(!new)>(cap: nat, s: State<T>)
    requires cap >= 2 && Reachable(cap, s)
    ensures Inv(s) && s.cap == cap
  {
    var acts: seq<Action<T>> :| s == Exec(Init(cap), acts);
    hide Inv;
    InitInv<T>(cap);
    ExecInv(Init(cap), acts);
    ExecCap(Init<T>(cap), acts);
  }

  lemma {:induction false} ExecCap<T>(s: State<T>, acts: seq<Action<T>>)
    requires WellShaped(s)
    ensures Exec(s, acts).cap == s.cap
    decreases |acts|
  {
    if acts != [] { ExecCap(Do(s, acts[0]), acts[1..]); }
  }

  /** Items come out in the order their positions were claimed, and at no time are more than `cap` of
      them inside, although head and tail move long before slots are filled or freed. */
  lemma DeliversInClaimOrder<T(!new)>(cap: nat, s: State<T>)
    requires cap >= 2 && Reachable(cap, s)
    ensures |s.log| == s.head && |s.delivered| <= s.head
    ensures forall i :: 0 <= i < |s.delivered| ==> s.delivered[i] == s.log[i].item
    ensures s.tail <= s.head <= s.tail + s.cap
  {
    ReachableInv(cap, s);
    hide Tracked, ProducerOk, StampsOk, DataOk;
  }

  /** Per producer: the accepted items sit at strictly increasing positions, one each, those are all
      the positions it ever claimed, and the last call accepted exactly `done` leading items. */
  lemma AcceptedExactlyOnce<T(!new)>(cap: nat, s: State<T>, t: nat)
    requires cap >= 2 && Reachable(cap, s) && t in s.producers && s.producers[t].pc.Idle?
    ensures var p := s.producers[t];
            && |p.places| == |p.accepted|
            && (forall j, k :: 0 <= j < k < |p.places| ==> p.places[j] < p.places[k])
            && (forall j :: 0 <= j < |p.places| ==> p.places[j] < |s.log| && s.log[p.places[j]] == Claim(p.accepted[j], t, true))
            && (forall q :: 0 <= q < |s.log| && s.log[q].producer == t ==> q in p.places)
            && p.done <= |p.items| && p.done <= |p.accepted| && p.accepted[|p.accepted| - p.done..] == p.items[..p.done]
  {
    ReachableInv(cap, s);
    var p := s.producers[t];
    assert ProducerOk(s.cap, s.released, s.log, t, p);
    forall q | 0 <= q < |s.log| && s.log[q].producer == t ensures q in p.places {
      assert Tracked(s.cap, s.log, s.producers, q);
    }
  }

  /** Every position claimed by a call that has returned is readable, whoever claimed positions around it. */
  lemma NothingLost<T(!new)>(cap: nat, s: State<T>, q: nat)
    requires cap >= 2 && Reachable(cap, s)
    requires ReadUpTo(s.consumer, s.tail) <= q < |s.log|
    requires s.log[q].producer in s.producers ==> !Writing(s.producers[s.log[q].producer])
    ensures s.slots[Index(q, s.cap)] == Slot(q + 1, Some(s.log[q].item))
  {
    ReachableInv(cap, s);
    hide ProducerOk;
    assert Tracked(s.cap, s.log, s.producers, q);
  }

  // ----- progress -------------------------------------------------------------------------------

  /** The position of the current window that shares its slot with an older one. */
  lemma {:induction false} InWindow(h: nat, low: nat, cap: nat) returns (p: nat)
    requires cap > 0 && h < low + cap
    ensures h <= p && low <= p < low + cap && Index(p, cap) == Index(h, cap) && (h >= low ==> p == h)
    decreases low + cap - h
  {
    if h >= low {
      p := h;
    } else {
      IndexNextLap(h, cap);
      p := InWindow(h + cap, low, cap);
    }
  }

  /** What the stamp of a position not beyond head says, whatever has happened since head was loaded. */
  lemma StampTells<T>(s: State<T>, h: nat)
    requires Inv(s) && h <= s.head
    ensures var q := s.slots[Index(h, s.cap)].sequence;
            && (q < h ==> h == s.head == s.released + s.cap)
            && (q > h ==> h < s.head)
  {
    assert s.released <= s.head;
    hide ConsumerOk, DataOk, Tracked, ProducerOk, WrittenOk;
    if h == s.released + s.cap {
      IndexNextLap(s.released, s.cap);
    } else {
      var p := InWindow(h, s.released, s.cap);
    }
  }

  /** Retrying means that somebody else got on: whenever a call goes back to its beginning without having claimed
      anything, head is above the value the call has loaded, except for the one time when EnqueueBatch finds too few
      free slots and changes to single items. */
  lemma RetryMeansProgress<T(!new)>(cap: nat, s: State<T>, t: nat)
    requires cap >= 2 && Reachable(cap, s) && t in s.producers && Searching(s.producers[t])
    requires t in ProducerStep(s, t).producers && ProducerStep(s, t).producers[t].pc.LoadClosed?
    ensures var p, p' := s.producers[t], ProducerStep(s, t).producers[t];
            if p.pc.LoadLast? then Fast(p, s.cap) && !Fast(p', s.cap) && p.pc.h + |p.items| > s.released + s.cap else p.pc.h < s.head
  {
    ReachableInv(cap, s);
    var p := s.producers[t];
    assert ProducerOk(s.cap, s.released, s.log, t, p);
    assert PcOk(s.cap, s.released, s.log, t, p);
    StampTells(s, p.pc.h);
    if p.pc.LoadLast? { TooFewFree(s, p.pc.h, Width(p, s.cap)); }
    hide ConsumerOk, StampsOk, DataOk, Tracked, PlacesOk, Inv, Reachable;
  }

  predicate Searching<T>(p: Producer<T>) {
    p.pc.LoadLast? || p.pc.LoadFirst? || p.pc.Cas? || p.pc.Reload?
  }

  lemma TooFewFree<T>(s: State<T>, h: nat, w: nat)
    requires Inv(s) && h <= s.head && 0 < w <= s.cap && s.slots[Index(h + w - 1, s.cap)].sequence < h + w - 1
    ensures h + w > s.released + s.cap
  {
    hide ConsumerOk, DataOk, Tracked, ProducerOk, WrittenOk;
    if h + w <= s.released + s.cap { var p := InWindow(h + w - 1, s.released, s.cap); }
  }

  /** A call gives up only for a reason: the queue was closed when it looked; or every slot was taken at the very
      moment it read the stamp, and head was still the same later; or, for TryEnqueue, somebody else got on. */
  lemma RefusalJustified<T(!new)>(cap: nat, s: State<T>, t: nat)
    requires cap >= 2 && Reachable(cap, s) && t in s.producers && !s.producers[t].pc.Idle?
    ensures var p, p' := s.producers[t], Of(ProducerStep(s, t), t);
            && (p'.pc.Idle? && p'.done < |p'.items| ==>
                  || (p.pc.LoadClosed? && s.closed) || (p.pc.Reload? && s.head == p.pc.h)
                  || (p.kind.Try? && Searching(p) && (p.pc.h < s.head || s.head == s.released + s.cap)))
            && (p.pc.LoadFirst? && p'.pc.Reload? ==> p'.pc.h == p.pc.h == s.head == s.released + s.cap)
  {
    ReachableInv(cap, s);
    var p := s.producers[t];
    assert ProducerOk(s.cap, s.released, s.log, t, p);
    assert PcOk(s.cap, s.released, s.log, t, p);
    if Searching(p) { StampTells(s, p.pc.h); }
    if Writing(p) {
      WritingGoesOn(s, t);
    } else {
      hide ConsumerOk, StampsOk, DataOk, Tracked, PlacesOk, Inv, Reachable;
    }
  }

  lemma WritingGoesOn<T>(s: State<T>, t: nat)
    requires WellShaped(s) && t in s.producers && Writing(s.producers[t]) && CountsOk(s.cap, s.producers[t])
    ensures var p' := Of(ProducerStep(s, t), t); p'.pc.Idle? ==> p'.done == |p'.items|
  {
  }

  /** EnqueueBatch tries its fast path three times at most. */
  lemma {:induction false} ThreeAttempts<T>(s: State<T>, acts: seq<Action<T>>)
    requires WellShaped(s) && forall t :: t in s.producers ==> s.producers[t].attempt <= 3
    ensures forall t :: t in Exec(s, acts).producers ==> Exec(s, acts).producers[t].attempt <= 3
    decreases |acts|
  {
    if acts != [] {
      AttemptStep(s, acts[0]);
      hide Do, WellShaped;
      ThreeAttempts(Do(s, acts[0]), acts[1..]);
    }
  }

  lemma AttemptStep<T>(s: State<T>, a: Action<T>)
    requires WellShaped(s) && forall t :: t in s.producers ==> s.producers[t].attempt <= 3
    ensures forall t :: t in Do(s, a).producers ==> Do(s, a).producers[t].attempt <= 3
  {
    match a
    case Produce(t) => ProducerAttempt(s, t);
    case Consume =>
      hide ProducerStep;
      ConsumerKeepsProducers(s);
    case _ => hide ProducerStep, ConsumerStep;
  }

  lemma ConsumerKeepsProducers<T>(s: State<T>)
    requires WellShaped(s)
    ensures ConsumerStep(s).producers == s.producers
  {
  }

  lemma ProducerAttempt<T>(s: State<T>, t: nat)
    requires WellShaped(s) && forall u :: u in s.producers ==> s.producers[u].attempt <= 3
    ensures forall u :: u in ProducerStep(s, t).producers ==> ProducerStep(s, t).producers[u].attempt <= 3
  {
  }

  /** An upper bound for the steps a call has still to take while the others rest. A loaded position that is out of
      date costs one more round. */
  function StepsLeft<T>(p: Producer<T>, head: nat, cap: nat): int {
    var left := |p.items| - p.done;
    if Fast(p, cap) then
      var round := 7 * left + 10 * (3 - p.attempt);
      match p.pc
      case Idle => 0
      case LoadClosed => round
      case LoadHead => round - 1
      case LoadLast(_) => round - 2
      case LoadFirst(_) => round - 3
      case Reload(_) => round + 1
      case Cas(_) => round - 4
      case WriteData(_, i) => 2 * (left - i)
      case Publish(_, i) => 2 * (left - i) - 1
    else
      match p.pc
      case Idle => 0
      case LoadClosed => 7 * left
      case LoadHead => 7 * left - 1
      case LoadLast(_) => 7 * left + 3
      case LoadFirst(h) => if h == head then 7 * left - 2 else 7 * left + 2
      case Reload(h) => if h == head then 7 * left - 3 else 7 * left + 1
      case Cas(h) => if h == head then 7 * left - 3 else 7 * left + 1
      case WriteData(_, _) => 7 * left - 4
      case Publish(_, _) => 7 * left - 5
  }

  lemma OwnStep<T>(s: State<T>, t: nat)
    requires Inv(s) && t in s.producers && !s.producers[t].pc.Idle? && s.producers[t].attempt <= 3
    ensures var r := ProducerStep(s, t);
            && t in r.producers && r.cap == s.cap && r.producers[t].items == s.producers[t].items && r.producers[t].attempt <= 3
            && 0 <= StepsLeft(r.producers[t], r.head, s.cap) < StepsLeft(s.producers[t], s.head, s.cap)
  {
    var p := s.producers[t];
    assert ProducerOk(s.cap, s.released, s.log, t, p);
    assert CountsOk(s.cap, p) && PcOk(s.cap, s.released, s.log, t, p);
    hide ConsumerOk, DataOk, Tracked, PlacesOk, WrittenOk;
    if Writing(p) {
      WritingStep(s, t);
    } else if Fast(p, s.cap) {
      FastStep(s, t);
    } else {
      if p.pc.LoadFirst? { StampTells(s, p.pc.h); }
      SlowStep(s, t);
    }
  }

  lemma WritingStep<T>(s: State<T>, t: nat)
    requires WellShaped(s) && t in s.producers && Writing(s.producers[t]) && s.producers[t].attempt <= 3
    requires CountsOk(s.cap, s.producers[t]) && s.producers[t].pc.i < Width(s.producers[t], s.cap)
    ensures var r := ProducerStep(s, t);
            && t in r.producers && r.cap == s.cap && r.producers[t].items == s.producers[t].items && r.producers[t].attempt <= 3
            && 0 <= StepsLeft(r.producers[t], r.head, s.cap) < StepsLeft(s.producers[t], s.head, s.cap)
  {
  }

  lemma FastStep<T>(s: State<T>, t: nat)
    requires WellShaped(s) && t in s.producers && !Writing(s.producers[t]) && !s.producers[t].pc.Idle? && Fast(s.producers[t], s.cap)
    requires CountsOk(s.cap, s.producers[t])
    ensures var r := ProducerStep(s, t);
            && t in r.producers && r.cap == s.cap && r.producers[t].items == s.producers[t].items && r.producers[t].attempt <= 3
            && 0 <= StepsLeft(r.producers[t], r.head, s.cap) < StepsLeft(s.producers[t], s.head, s.cap)
  {
  }

  lemma SlowStep<T>(s: State<T>, t: nat)
    requires WellShaped(s) && t in s.producers && !Writing(s.producers[t]) && !s.producers[t].pc.Idle? && !Fast(s.producers[t], s.cap)
    requires CountsOk(s.cap, s.producers[t]) && s.producers[t].attempt <= 3
    requires s.producers[t].pc.LoadFirst? && s.producers[t].pc.h == s.head ==> s.slots[Index(s.head, s.cap)].sequence <= s.head
    ensures var r := ProducerStep(s, t);
            && t in r.producers && r.cap == s.cap && r.producers[t].items == s.producers[t].items && r.producers[t].attempt <= 3
            && 0 <= StepsLeft(r.producers[t], r.head, s.cap) < StepsLeft(s.producers[t], s.head, s.cap)
  {
  }

  /** `k` steps of producer `t`, the others resting. */
  function Alone<T>(s: State<T>, t: nat, k: nat): State<T>
    requires WellShaped(s)
    decreases k
  {
    if k == 0 then s else Alone(Do(s, Produce(t)), t, k - 1)
  }

  lemma {:induction false} AloneIdle<T>(s: State<T>, t: nat, k: nat)
    requires Inv(s) && t in s.producers && s.producers[t].attempt <= 3 && StepsLeft(s.producers[t], s.head, s.cap) <= k
    ensures WellShaped(s) && t in Alone(s, t, k).producers && Alone(s, t, k).producers[t].pc.Idle?
    decreases k
  {
    hide Inv, Do, StepsLeft;
    AloneNext(s, t, k);
    if k > 0 { AloneIdle(Do(s, Produce(t)), t, k - 1); }
  }

  lemma AloneNext<T>(s: State<T>, t: nat, k: nat)
    requires Inv(s) && t in s.producers && s.producers[t].attempt <= 3 && StepsLeft(s.producers[t], s.head, s.cap) <= k
    ensures WellShaped(s) && (k == 0 ==> s.producers[t].pc.Idle?)
    ensures k > 0 ==>
              var r := Do(s, Produce(t));
              Inv(r) && t in r.producers && r.producers[t].attempt <= 3 && StepsLeft(r.producers[t], r.head, r.cap) <= k - 1
  {
    assert WellShaped(s);
    hide Inv, Do, StepsLeft;
    if s.producers[t].pc.Idle? { IdleStays(s, t); } else { StepAlone(s, t); }
  }

  lemma StepAlone<T>(s: State<T>, t: nat)
    requires Inv(s) && t in s.producers && !s.producers[t].pc.Idle? && s.producers[t].attempt <= 3 && WellShaped(s)
    ensures var r := Do(s, Produce(t));
            && Inv(r) && t in r.producers && r.producers[t].attempt <= 3
            && 0 <= StepsLeft(r.producers[t], r.head, r.cap) < StepsLeft(s.producers[t], s.head, s.cap)
  {
    hide Inv, ProducerStep, StepsLeft;
    OwnStep(s, t);
    DoInv(s, Produce(t));
  }

  lemma IdleStays<T>(s: State<T>, t: nat)
    requires WellShaped(s) && t in s.producers && s.producers[t].pc.Idle?
    ensures Do(s, Produce(t)) == s && StepsLeft(s.producers[t], s.head, s.cap) == 0
  {
  }

  lemma StepsBound<T>(p: Producer<T>, head: nat, cap: nat)
    requires CountsOk(cap, p)
    ensures StepsLeft(p, head, cap) <= 7 * |p.items| + 32
  {
  }

  /** A call left alone returns within 7 steps for each of its items and 32 more, however far it has come and whatever
      the others have done before. */
  lemma ReturnsWhenAlone<T(!new)>(cap: nat, s: State<T>, t: nat)
    requires cap >= 2 && Reachable(cap, s) && t in s.producers && WellShaped(s)
    ensures var r := Alone(s, t, 7 * |s.producers[t].items| + 32); t in r.producers && r.producers[t].pc.Idle?
  {
    ReachableInv(cap, s);
    var acts: seq<Action<T>> :| s == Exec(Init(cap), acts);
    ThreeAttempts(Init<T>(cap), acts);
    var p := s.producers[t];
    assert ProducerOk(s.cap, s.released, s.log, t, p);
    hide Inv, Reachable, StepsLeft, Do, CountsOk, PlacesOk, PcOk;
    StepsBound(p, s.head, s.cap);
    AloneIdle(s, t, 7 * |p.items| + 32);
  }

  /** How many steps the consumer's call has still to take while the producers rest: four for each item it can still
      take, and a few to come to its end. */
  function ConsumerLeft<T>(c: Consumer<T>, unread: nat): int {
    match c
    case Resting => 0
    case Scan(_, got, limit) => 4 * ItemsLeft(|got|, limit, unread) + |got| + 2
    case Read(_, got, limit) => 4 * ItemsLeft(|got|, limit, unread) + |got| + 1
    case Clear(_, got, limit) => 4 * ItemsLeft(|got|, limit, unread) + |got| + 3
    case Commit(_, got) => |got| + 1
    case Release(_, got, i) => |got| - i
  }

  function ItemsLeft(got: nat, limit: nat, unread: nat): nat {
    if limit < got then 0 else Min(limit - got, unread)
  }

  /** Claimed positions that the consumer has not read. */
  function UnreadCount<T>(s: State<T>): nat {
    if |s.log| < ReadUpTo(s.consumer, s.tail) then 0 else |s.log| - ReadUpTo(s.consumer, s.tail)
  }

  lemma ConsumerOwnStep<T>(s: State<T>)
    requires Inv(s) && !s.consumer.Resting?
    ensures var r := ConsumerStep(s);
            0 <= ConsumerLeft(r.consumer, UnreadCount(r)) < ConsumerLeft(s.consumer, UnreadCount(s))
  {
    hide Tracked, ProducerOk, DataOk, StampsOk;
    if s.consumer.Read? { ReadStep(s); }
    if s.consumer.Scan? && s.slots[Index(s.consumer.base + |s.consumer.got|, s.cap)].sequence == s.consumer.base + |s.consumer.got| + 1 {
      StampPublished(s, s.consumer.base + |s.consumer.got|);
    }
    assert ConsumerOk(s.consumer, s.log, s.tail, s.released, s.delivered) && WellShaped(s) && |s.log| == s.head;
    hide Inv;
    if s.consumer.Scan? || s.consumer.Read? || s.consumer.Clear? { TakingRank(s); } else { ReleasingRank(s); }
  }

  lemma TakingRank<T>(s: State<T>)
    requires WellShaped(s) && (s.consumer.Scan? || s.consumer.Read? || s.consumer.Clear?) && (s.consumer.Clear? ==> s.consumer.got != [])
    requires var c := s.consumer; var q := c.base + |c.got|;
             && |c.got| <= c.limit && q <= |s.log|
             && (c.Scan? && s.slots[Index(q, s.cap)].sequence == q + 1 ==> q < |s.log|)
             && (c.Read? ==> |c.got| < c.limit && q < |s.log| && s.slots[Index(q, s.cap)].data.Some?)
    ensures var r := ConsumerStep(s);
            0 <= ConsumerLeft(r.consumer, UnreadCount(r)) < ConsumerLeft(s.consumer, UnreadCount(s))
  {
  }

  lemma ReleasingRank<T>(s: State<T>)
    requires WellShaped(s) && (s.consumer.Commit? || s.consumer.Release?)
    requires s.consumer.got != [] && (s.consumer.Release? ==> s.consumer.i < |s.consumer.got|)
    ensures var r := ConsumerStep(s);
            0 <= ConsumerLeft(r.consumer, UnreadCount(r)) < ConsumerLeft(s.consumer, UnreadCount(s))
  {
  }

  /** `k` steps of the consumer, the producers resting. */
  function ConsumerAlone<T>(s: State<T>, k: nat): State<T>
    requires WellShaped(s)
    decreases k
  {
    if k == 0 then s else ConsumerAlone(Do(s, Consume), k - 1)
  }

  lemma {:induction false} ConsumerAloneRests<T>(s: State<T>, k: nat)
    requires Inv(s) && ConsumerLeft(s.consumer, UnreadCount(s)) <= k
    ensures WellShaped(s) && ConsumerAlone(s, k).consumer.Resting?
    decreases k
  {
    hide Inv, Do, ConsumerLeft, UnreadCount;
    ConsumerNext(s, k);
    if k > 0 { ConsumerAloneRests(Do(s, Consume), k - 1); }
  }

  lemma ConsumerNext<T>(s: State<T>, k: nat)
    requires Inv(s) && ConsumerLeft(s.consumer, UnreadCount(s)) <= k
    ensures WellShaped(s) && (k == 0 ==> s.consumer.Resting?)
    ensures k > 0 ==> var r := Do(s, Consume); Inv(r) && ConsumerLeft(r.consumer, UnreadCount(r)) <= k - 1
  {
    assert WellShaped(s);
    DoInv(s, Consume);
    assert Do(s, Consume) == ConsumerStep(s);
    if s.consumer.Resting? {
      assert ConsumerStep(s) == s && ConsumerLeft(s.consumer, UnreadCount(s)) == 0;
    } else {
      hide Inv, ConsumerStep, ConsumerLeft, UnreadCount;
      ConsumerOwnStep(s);
    }
  }

  /** Dequeue or DequeueBatch left alone returns within four of its own steps for each item in the ring it has room for,
      and two more; however far it has come, ConsumerLeft says how many are left. */
  lemma DequeueReturnsWhenAlone<T(!new)>(cap: nat, s: State<T>, limit: nat)
    requires cap >= 2 && Reachable(cap, s) && WellShaped(s)
    ensures s.tail <= s.head
    ensures s.consumer.Resting? && limit > 0 ==>
              ConsumerAlone(Do(s, Dequeue(limit)), 4 * Min(limit, s.head - s.tail) + 2).consumer.Resting?
    ensures var k := ConsumerLeft(s.consumer, UnreadCount(s)); 0 <= k && ConsumerAlone(s, k).consumer.Resting?
  {
    ReachableInv(cap, s);
    DeliversInClaimOrder(cap, s);
    assert s.consumer.Resting? ==> UnreadCount(s) == s.head - s.tail;
    var r := Do(s, Dequeue(limit));
    DoInv(s, Dequeue(limit));
    if !s.consumer.Resting? { ConsumerOwnStep(s); }
    assert s.consumer.Resting? && limit > 0 ==> ConsumerLeft(r.consumer, UnreadCount(r)) == 4 * Min(limit, s.head - s.tail) + 2;
    hide Inv, Reachable, Do, UnreadCount;
    if s.consumer.Resting? && limit > 0 { ConsumerAloneRests(r, 4 * Min(limit, s.head - s.tail) + 2); }
    ConsumerAloneRests(s, ConsumerLeft(s.consumer, UnreadCount(s)));
  }

  /** What the consumer does with the queue to itself: the oldest published item is delivered by one Dequeue. */
  lemma DequeueTakesNext<T(!new)>(cap: nat, s: State<T>)
    requires cap >= 2 && Reachable(cap, s)
    requires s.consumer.Resting? && s.tail < |s.log| && s.log[s.tail].published
    ensures var s1 := Do(Do(Do(s, Dequeue(1)), Consume), Consume);
            var s2 := Do(Do(Do(Do(s1, Consume), Consume), Consume), Consume);
            s2.consumer.Resting? && s2.tail == s.tail + 1 && s2.delivered == s.delivered + [s.log[s.tail].item]
  {
    ReachableInv(cap, s);
    ReadableSlot(s, s.tail);
    hide Inv;
    TakesOne(s);
    var s1 := Do(Do(Do(s, Dequeue(1)), Consume), Consume);
    hide Do;
    ReleasesOne(s, s1);
  }

  lemma TakesOne<T>(s: State<T>)
    requires WellShaped(s) && s.consumer.Resting? && s.tail < |s.log|
    requires s.slots[Index(s.tail, s.cap)] == Slot(s.tail + 1, Some(s.log[s.tail].item))
    ensures Do(Do(Do(s, Dequeue(1)), Consume), Consume) == s.(consumer := Clear(s.tail, [s.log[s.tail].item], 1))
  {
    var a := Do(s, Dequeue(1));
    assert a == s.(consumer := Scan(s.tail, [], 1));
    assert Do(a, Consume) == s.(consumer := Read(s.tail, [], 1));
    var none: seq<T> := [];
    assert none + [s.log[s.tail].item] == [s.log[s.tail].item];
  }

  lemma ReleasesOne<T>(s: State<T>, s1: State<T>)
    requires WellShaped(s) && s.tail < |s.log| && s1 == s.(consumer := Clear(s.tail, [s.log[s.tail].item], 1))
    ensures var s2 := Do(Do(Do(Do(s1, Consume), Consume), Consume), Consume);
            s2.consumer.Resting? && s2.tail == s.tail + 1 && s2.delivered == s.delivered + [s.log[s.tail].item]
  {
    var k := Index(s.tail, s.cap);
    var a := Do(Do(s1, Consume), Consume);
    assert a == s.(slots := s.slots[k := s.slots[k].(data := None)], consumer := Commit(s.tail, [s.log[s.tail].item]));
  }

  /** The log only grows: claims keep their item and their producer, and stay published. */
  lemma DoLog<T>(s: State<T>, a: Action<T>)
    requires Inv(s)
    ensures |s.log| <= |Do(s, a).log|
    ensures forall q :: 0 <= q < |s.log| ==>
              Do(s, a).log[q].item == s.log[q].item && (s.log[q].published ==> Do(s, a).log[q].published)
  {
    assert WellShaped(s);
    hide Inv, ConsumerStep, ProducerStep;
    match a
    case Produce(t) => ProducerStepLog(s, t);
    case Consume => ConsumerStepLog(s);
    case _ =>
  }

  lemma ProducerStepLog<T>(s: State<T>, t: nat)
    requires WellShaped(s)
    ensures |s.log| <= |ProducerStep(s, t).log|
    ensures forall q :: 0 <= q < |s.log| ==>
              ProducerStep(s, t).log[q].item == s.log[q].item && (s.log[q].published ==> ProducerStep(s, t).log[q].published)
  {
    hide Filled, Again;
  }

  lemma ConsumerStepLog<T>(s: State<T>)
    requires WellShaped(s)
    ensures ConsumerStep(s).log == s.log
  {
  }

  /** No slot is touched, by anyone, from the moment its item is published until the consumer has read it. */
  lemma UntouchedUntilRead<T(!new)>(cap: nat, s: State<T>, a: Action<T>, q: nat)
    requires cap >= 2 && Reachable(cap, s)
    requires q < |s.log| && s.log[q].published
    requires ReadUpTo(Do(s, a).consumer, Do(s, a).tail) <= q && ReadUpTo(s.consumer, s.tail) <= q
    ensures Do(s, a).slots[Index(q, s.cap)] == s.slots[Index(q, s.cap)] == Slot(q + 1, Some(s.log[q].item))
  {
    ReachableInv(cap, s);
    DoInv(s, a);
    DoLog(s, a);
    DoCap(s, a);
    hide Do, ProducerOk, Tracked;
    ReadableSlot(s, q);
    ReadableSlot(Do(s, a), q);
  }

  lemma DoCap<T>(s: State<T>, a: Action<T>)
    requires WellShaped(s)
    ensures Do(s, a).cap == s.cap
  {
  }

  lemma ReadableSlot<T>(s: State<T>, q: nat)
    requires Inv(s) && ReadUpTo(s.consumer, s.tail) <= q < |s.log| && s.log[q].published
    ensures s.slots[Index(q, s.cap)] == Slot(q + 1, Some(s.log[q].item))
  {
    hide ProducerOk, Tracked;
  }

  /** EnqueueBatch looks at two stamps only, yet when its compare-and-swap succeeds every slot of the run is free. */
  lemma BatchClaimsFreeSlots<T(!new)>(cap: nat, s: State<T>, t: nat)
    requires cap >= 2 && Reachable(cap, s) && t in s.producers && s.producers[t].pc == Cas(s.head)
    ensures var w := Width(s.producers[t], s.cap);
            && ProducerStep(s, t).head == s.head + w
            && (forall q {:trigger Index(q, s.cap)} :: s.head <= q < s.head + w ==> s.slots[Index(q, s.cap)].sequence == q)
  {
    ReachableInv(cap, s);
    ClaimShape(s, t);
    hide ProducerStep, ProducerOk, Tracked, DataOk;
  }

  // ----- the smallest capacities ----------------------------------------------------------------

  /** Every published item the consumer has not read yet is in its slot under the expected stamp. */
  ghost predicate Readable<T>(s: State<T>)
    requires WellShaped(s)
  {
    forall q {:trigger Index(q, s.cap)} :: ReadUpTo(s.consumer, s.tail) <= q < |s.log| && s.log[q].published ==>
      s.slots[Index(q, s.cap)] == Slot(q + 1, Some(s.log[q].item))
  }

  lemma {:induction false} ExecSnoc<T>(s: State<T>, acts: seq<Action<T>>, a: Action<T>)
    requires WellShaped(s)
    ensures Exec(s, acts + [a]) == Do(Exec(s, acts), a)
    decreases |acts|
  {
    hide Do;
    if acts == [] {
      assert acts + [a] == [a];
      assert Exec(Do(s, a), []) == Do(s, a);
    } else {
      assert (acts + [a])[0] == acts[0] && (acts + [a])[1..] == acts[1..] + [a];
      ExecSnoc(Do(s, acts[0]), acts[1..], a);
    }
  }

  /** Six steps of an uncontended Enqueue on a ring with a single slot. */
  lemma OneSlotEnqueue<T>(s: State<T>, acts: seq<Action<T>>, x: T) returns (acts': seq<Action<T>>)
    requires s == Exec(Init(1), acts) && s.cap == 1 && |s.slots| == 1 && |s.log| == s.head
    requires !s.closed && Of(s, 0).pc.Idle? && s.slots[0].sequence == s.head
    ensures var s' := Exec(Init(1), acts');
            && s'.cap == 1 && |s'.slots| == 1 && s'.head == s.head + 1 == |s'.log| && s'.closed == s.closed
            && Of(s', 0).pc.Idle? && s'.slots[0] == Slot(s.head + 1, Some(x))
            && s'.log == s.log + [Claim(x, 0, true)] && s'.tail == s.tail && s'.consumer == s.consumer
  {
    hide Exec;
    var a := [Call(0, Single, [x]), Produce(0), Produce(0), Produce(0), Produce(0), Produce(0), Produce(0)];
    var p := Begin(Of(s, 0), Single, [x]);
    ExecSnoc(Init(1), acts, a[0]);
    var c0 := acts + [a[0]];
    assert Exec(Init(1), c0) == Put(s, 0, p);
    ExecSnoc(Init(1), c0, a[1]);
    var c1 := c0 + [a[1]];
    var s1 := Put(s, 0, p.(pc := LoadHead));
    assert Exec(Init(1), c1) == s1;
    ExecSnoc(Init(1), c1, a[2]);
    var c2 := c1 + [a[2]];
    var s2 := Put(s, 0, p.(pc := LoadFirst(s.head)));
    assert Exec(Init(1), c2) == s2;
    ExecSnoc(Init(1), c2, a[3]);
    var c3 := c2 + [a[3]];
    assert Index(s.head, 1) == 0;
    var s3 := Put(s, 0, p.(pc := Cas(s.head)));
    assert Exec(Init(1), c3) == s3;
    acts' := OneSlotFill(s3, c3, x);
  }

  lemma OneSlotFill<T>(s: State<T>, acts: seq<Action<T>>, x: T) returns (acts': seq<Action<T>>)
    requires s == Exec(Init(1), acts) && s.cap == 1 && |s.slots| == 1 && |s.log| == s.head && s.slots[0].sequence == s.head
    requires 0 in s.producers && s.producers[0].pc == Cas(s.head)
    requires s.producers[0].kind == Single && s.producers[0].items == [x] && s.producers[0].done == 0
    ensures var s' := Exec(Init(1), acts');
            && s'.cap == 1 && |s'.slots| == 1 && s'.head == s.head + 1 == |s'.log| && s'.closed == s.closed
            && Of(s', 0).pc.Idle? && s'.slots[0] == Slot(s.head + 1, Some(x))
            && s'.log == s.log + [Claim(x, 0, true)] && s'.tail == s.tail && s'.consumer == s.consumer
  {
    hide Exec;
    ExecSnoc(Init(1), acts, Produce(0));
    var c4 := acts + [Produce(0)];
    var s4 := ClaimRun(s, 0, s.head);
    assert Exec(Init(1), c4) == s4;
    ExecSnoc(Init(1), c4, Produce(0));
    var c5 := c4 + [Produce(0)];
    assert Index(s.head, 1) == 0;
    ExecSnoc(Init(1), c5, Produce(0));
    acts' := c5 + [Produce(0)];
    assert s4.log == s.log + [Claim(x, 0, false)];
  }

  /** With one slot, the stamp of a filled slot is the stamp of a free one: the second Enqueue
      overwrites the first item before it is read. */
  lemma OneSlotOverwrites<T>(x: T) returns (acts: seq<Action<T>>)
    ensures !Readable(Exec(Init<T>(1), acts))
  {
    assert Exec(Init<T>(1), []) == Init(1);
    var a1 := OneSlotEnqueue(Init<T>(1), [], x);
    var s1 := Exec(Init<T>(1), a1);
    acts := OneSlotEnqueue(s1, a1, x);
    hide Exec;
    var s2 := Exec(Init<T>(1), acts);
    assert Index(0, 1) == 0;
    assert s2.slots[0].sequence == 2 && s2.log[0].published;
  }

  /** The ring is sound under every schedule exactly when it has at least two slots. */
  lemma SoundIffTwoSlots<T(!new)>(cap: nat, x: T)
    requires cap > 0
    ensures (forall acts: seq<Action<T>> :: Readable(Exec(Init<T>(cap), acts))) <==> cap >= 2
  {
    if cap == 1 {
      var acts := OneSlotOverwrites<T>(x);
      assert !Readable(Exec(Init<T>(cap), acts));
    } else {
      forall acts: seq<Action<T>> ensures Readable(Exec(Init<T>(cap), acts)) {
        var s := Exec(Init<T>(cap), acts);
        ReachableInv(cap, s);
        forall q | ReadUpTo(s.consumer, s.tail) <= q < |s.log| && s.log[q].published
          ensures s.slots[Index(q, s.cap)] == Slot(q + 1, Some(s.log[q].item))
        {
          ReadableSlot(s, q);
        }
      }
    }
  }

  /** NewMPSCQueue rounds the requested capacity with nextPowerOfTwo: every request but 1 gives a sound ring. */
  lemma ConstructorSoundIff<T(!new)>(n: int, w: nat, x: T)
    requires n <= PowerOfTwo.Pow2(w) && w < 64
    ensures var cap := PowerOfTwo.NextPowerOfTwo(n);
            cap > 0 && ((forall acts: seq<Action<T>> :: Readable(Exec(Init<T>(cap), acts))) <==> n != 1)
  {
    if n >= 1 {
      PowerOfTwo.NextPowerOfTwoLeast(n, w);
      if n == 1 { PowerOfTwo.SmearZero(); }
    }
    SoundIffTwoSlots<T>(PowerOfTwo.NextPowerOfTwo(n), x);
  }
}
