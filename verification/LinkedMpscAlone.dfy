/**
 What one call on the queue of LinkedMpsc achieves while the others rest, from any state that any schedule has reached; and what
 becomes of the nodes that are kept for reuse.
 */
module LinkedMpscAlone {
  import opened Prelude
  import opened LinkedMpsc

  // ----- dequeue --------------------------------------------------------------------------------

  /** `k` steps of the consumer, the producers resting. */
  function ConsumerAlone<T>(s: State<T>, k: nat): State<T>
    decreases k
  {
    if k == 0 then s else ConsumerAlone(Do(s, Consume), k - 1)
  }

  predicate Ends<T>(log: seq<Entry<T>>, goal: nat, end: int) {
    goal == end || (goal < end && (goal >= |log| || !log[goal].linked))
  }

  /** The dequeue under way will end at position `goal`: everything before is linked, and there it has no more room or finds no
      link. */
  ghost predicate Aims<T>(s: State<T>, goal: nat) {
    && s.taken <= goal <= |s.log| && (forall p :: s.taken <= p < goal ==> s.log[p].linked)
    && match s.consumer
       case Resting => s.taken == goal
       case LoadNext(got, limit) => Ends(s.log, goal, s.taken + limit - |got|)
       case ReadVal(got, limit, _) => s.taken < goal && Ends(s.log, goal, s.taken + limit - |got|)
       case ZeroVal(got, limit, _) => s.taken < goal && Ends(s.log, goal, s.taken + 1 + limit - |got|)
       case StoreTail(got, limit, _) => s.taken < goal && Ends(s.log, goal, s.taken + 1 + limit - |got|)
       case CutNext(got, limit, _) => Ends(s.log, goal, s.taken + limit - |got|)
       case CutVal(got, limit, _) => Ends(s.log, goal, s.taken + limit - |got|)
       case Recycle(got, limit, _, _) => Ends(s.log, goal, s.taken + limit - |got|)
       case Flush(_) => false
  }

  function Place<T>(c: Consumer<T>): nat {
    match c
    case Resting => 0
    case Flush(_) => 0
    case StoreTail(_, _, _) => 1
    case ZeroVal(_, _, _) => 2
    case ReadVal(_, _, _) => 3
    case LoadNext(_, _) => 4
    case Recycle(_, _, _, _) => 5
    case CutVal(_, _, _) => 6
    case CutNext(_, _, _) => 7
  }

  function Unflushed<T>(s: State<T>): nat {
    if s.consumer.Recycle? && s.consumer.flushed <= |s.cache| then |s.cache| - s.consumer.flushed else 0
  }

  lemma AimStep<T>(s: State<T>, goal: nat)
    requires Inv(s) && Aims(s, goal) && !s.consumer.Resting?
    ensures var r := ConsumerStep(s);
            && Aims(r, goal) && r.log == s.log
            && (r.taken > s.taken || (r.taken == s.taken && (Place(r.consumer) < Place(s.consumer)
                || (Place(r.consumer) == Place(s.consumer) && Unflushed(r) < Unflushed(s)))))
  {
    if s.consumer.LoadNext? { HeadLinked(s); }
    if s.consumer.ReadVal? { ReadValOk(s); }
    assert ConsumerOk(s.consumer, s.chain, s.log, s.taken, s.role, s.delivered) && SpareOk(s.pool, s.cache, Flushed(s.consumer), s.role);
    hide Inv, ChainOk, LinksOk, ValsOk;
    if s.consumer.Recycle? { AimRecycle(s, goal); } else { hide SpareOk; AimOther(s, goal); }
  }

  lemma AimRecycle<T>(s: State<T>, goal: nat)
    requires |s.chain| == |s.log| + 1 && s.taken <= |s.log| && s.consumer.Recycle? && Aims(s, goal) && s.consumer.flushed <= |s.cache|
    requires |s.consumer.got| <= s.consumer.limit
    ensures var r := ConsumerStep(s);
            && Aims(r, goal) && r.log == s.log && r.taken == s.taken
            && (Place(r.consumer) < Place(s.consumer) || (Place(r.consumer) == Place(s.consumer) && Unflushed(r) < Unflushed(s)))
  {
    hide LoadNextStep, ReadValStep, StoreTailStep, FlushStep, KeepStep, Aims;
    AimKeep(s, goal);
    if s.consumer.flushed < |s.cache| { AimFlush(s, goal); }
  }

  lemma AimFlush<T>(s: State<T>, goal: nat)
    requires s.consumer.Recycle? && s.consumer.flushed < |s.cache| && Aims(s, goal)
    ensures var r := FlushStep(s, s.consumer.flushed, s.consumer.(flushed := s.consumer.flushed + 1));
            Aims(r, goal) && r.log == s.log && r.taken == s.taken && r.consumer.Recycle? && Unflushed(r) < Unflushed(s)
  {
  }

  lemma AimKeep<T>(s: State<T>, goal: nat)
    requires s.consumer.Recycle? && |s.consumer.got| <= s.consumer.limit && Aims(s, goal)
    ensures var r := KeepStep(s, s.consumer.got, s.consumer.limit, s.consumer.spent);
            Aims(r, goal) && r.log == s.log && r.taken == s.taken && (r.consumer.Resting? || r.consumer.LoadNext?)
  {
  }

  lemma AimOther<T>(s: State<T>, goal: nat)
    requires !s.consumer.Recycle? && !s.consumer.Resting? && Aims(s, goal)
    requires |s.chain| == |s.log| + 1 && ConsumerOk(s.consumer, s.chain, s.log, s.taken, s.role, s.delivered)
    requires s.consumer.LoadNext? ==>
               s.tail in s.next && (s.next[s.tail].None? <==> (s.taken == |s.log| || !s.log[s.taken].linked))
    requires s.consumer.ReadVal? ==> s.consumer.next in s.val && s.val[s.consumer.next].Some?
    ensures var r := ConsumerStep(s);
            Aims(r, goal) && r.log == s.log && (r.taken > s.taken || (r.taken == s.taken && Place(r.consumer) < Place(s.consumer)))
  {
  }

  lemma AimDo<T>(s: State<T>, goal: nat)
    requires Inv(s) && Aims(s, goal) && !s.consumer.Resting?
    ensures var r := Do(s, Consume);
            && Inv(r) && Aims(r, goal) && r.log == s.log
            && (r.taken > s.taken || (r.taken == s.taken && (Place(r.consumer) < Place(s.consumer)
                || (Place(r.consumer) == Place(s.consumer) && Unflushed(r) < Unflushed(s)))))
  {
    AimStep(s, goal);
    DoInv(s, Consume);
    assert Do(s, Consume) == ConsumerStep(s) by { hide Inv, ConsumerStep, Aims; }
    hide Inv, ConsumerStep, Place, Unflushed, Aims, Do;
  }

  lemma AimedTaken<T>(s: State<T>, goal: nat)
    requires Aims(s, goal)
    ensures s.taken <= goal && (s.consumer.Resting? ==> s.taken == goal)
  {
  }

  lemma {:induction false} AimAlone<T>(s: State<T>, goal: nat) returns (k: nat)
    requires Inv(s) && Aims(s, goal)
    ensures var r := ConsumerAlone(s, k); Inv(r) && r.consumer.Resting? && r.taken == goal && r.log == s.log
    decreases goal - s.taken, Place(s.consumer), Unflushed(s)
  {
    hide Inv, Do, Place, Unflushed, Aims;
    AimedTaken(s, goal);
    if s.consumer.Resting? {
      k := 0;
    } else {
      AimDo(s, goal);
      AimedTaken(Do(s, Consume), goal);
      k := AimAlone(Do(s, Consume), goal);
      k := k + 1;
    }
  }

  /** A dequeue left alone takes all it has room for and can reach: if the next `n` items are linked and then its room ends or a link
      is missing, it returns after some steps and has delivered exactly these, in order. */
  lemma BatchTakesAll<T(!new)>(s: State<T>, limit: nat, n: nat) returns (k: nat)
    requires Reachable(s) && s.consumer.Resting? && limit > 0 && s.taken + n <= |s.log|
    requires (forall p :: s.taken <= p < s.taken + n ==> s.log[p].linked)
    requires n == limit || (n < limit && (s.taken + n == |s.log| || !s.log[s.taken + n].linked))
    ensures var r := ConsumerAlone(Do(s, Dequeue(limit)), k);
            && r.consumer.Resting? && r.taken == s.taken + n && r.log == s.log
            && r.delivered == s.delivered + seq(n, i requires 0 <= i < n => s.log[s.taken + i].item)
  {
    hide Reachable, Inv;
    ReachableInv(s);
    DoInv(s, Dequeue(limit));
    var d := Do(s, Dequeue(limit));
    assert Aims(d, s.taken + n) && d.log == s.log;
    hide Aims, Do, ConsumerAlone;
    k := AimAlone(d, s.taken + n);
    AtRest(s);
    AtRest(ConsumerAlone(d, k));
    assert ItemsOf(s.log[..s.taken + n]) == ItemsOf(s.log[..s.taken]) + seq(n, i requires 0 <= i < n => s.log[s.taken + i].item);
  }

  lemma AtRest<T>(s: State<T>)
    requires Inv(s) && s.consumer.Resting?
    ensures s.taken <= |s.log| && s.delivered == ItemsOf(s.log[..s.taken])
  {
    hide ChainOk, LinksOk, ValsOk, SpareOk, Awaited, ProducerOk;
  }

  // ----- enqueue --------------------------------------------------------------------------------

  /** Under every schedule: a call comes back without its items in the queue only when StopEnqueue had been called, as its first or
      its second look showed it; and a call that links has sent all its items. */
  lemma RefusedOnlyWhen<T>(s: State<T>, t: nat, node: nat)
    requires t in s.producers && !s.producers[t].pc.Idle?
    ensures var p, r := s.producers[t], ProducerStep(s, t, node);
            && t in r.producers
            && (r.producers[t].pc.Idle? ==>
                  (p.pc.Check? && s.stopped) || p.pc.UndoPut? || (p.pc.Link? && r.producers[t].sent == p.sent + p.items))
            && (r.producers[t].pc.UndoNext? ==> Undoing(p) || s.stopped)
  {
    hide GetStep, SetValStep, ChainStep, EndNilStep, SwapHead, LinkStep, UndoValStep, UndoPutStep;
    var p := s.producers[t];
    match p.pc
    case Get => GetGoes(s, t, node);
    case SetVal => BuildGoes(s, t);
    case Chain => BuildGoes(s, t);
    case EndNil => BuildGoes(s, t);
    case Swap => SendGoes(s, t);
    case Link(_, _, _) => SendGoes(s, t);
    case UndoVal(_, _) => UndoGoes(s, t);
    case UndoPut(_, _) => UndoGoes(s, t);
    case _ =>
  }

  lemma GetGoes<T>(s: State<T>, t: nat, node: nat)
    requires t in s.producers
    ensures var p, r := s.producers[t], GetStep(s, t, s.producers[t], node);
            t in r.producers && (r.producers[t].pc == p.pc || r.producers[t].pc.SetVal?)
  {
  }

  lemma BuildGoes<T>(s: State<T>, t: nat)
    requires t in s.producers
    ensures var p := s.producers[t];
            forall r | r == SetValStep(s, t, p) || r == ChainStep(s, t, p) || r == EndNilStep(s, t, p) ::
              t in r.producers && (r.producers[t].pc == p.pc || Building(r.producers[t]))
  {
  }

  lemma SendGoes<T>(s: State<T>, t: nat)
    requires t in s.producers
    ensures var p := s.producers[t];
            && (p.built != [] ==> t in SwapHead(s, t).producers && SwapHead(s, t).producers[t].pc.Link?)
            && (p.pc.Link? ==> t in LinkStep(s, t, p).producers && LinkStep(s, t, p).producers[t].sent == p.sent + p.items
                               && LinkStep(s, t, p).producers[t].pc.Idle?)
  {
  }

  lemma UndoGoes<T>(s: State<T>, t: nat)
    requires t in s.producers
    ensures s.producers[t].pc.UndoVal? ==> t in UndoValStep(s, t, s.producers[t]).producers && UndoValStep(s, t, s.producers[t]).producers[t].pc.UndoPut?
    ensures s.producers[t].pc.UndoPut? ==> t in UndoPutStep(s, t, s.producers[t]).producers
  {
  }

  /** A node that the pool may make up. */
  lemma NewNode<T>(s: State<T>) returns (n: nat)
    ensures n !in s.next && n !in s.val
  {
    n := Above(s.next.Keys + s.val.Keys);
  }

  lemma {:induction false} Above(ns: set<nat>) returns (n: nat)
    ensures forall m :: m in ns ==> m < n
    decreases ns
  {
    n := 0;
    if ns != {} {
      var m :| m in ns;
      var k := Above(ns - {m});
      n := if m < k then k else m + 1;
      forall x | x in ns ensures x < n { if x != m { assert x in ns - {m}; } }
    }
  }

  function SendLeft<T>(p: Producer<T>): int {
    var left := |p.items| - |p.built|;
    match p.pc
    case Idle => 0
    case Check => 4 * |p.items| + 5
    case Get => 4 * left + 4
    case SetVal => 4 * left + 7
    case Chain => 4 * left + 6
    case EndNil => 5
    case Recheck => 4
    case Swap => 3
    case Link(_, _, _) => 2
    case _ => 1
  }

  function AllLinked<T>(items: seq<T>, t: nat): (r: seq<Entry<T>>)
    ensures |r| == |items| && forall j :: 0 <= j < |items| ==> r[j] == Entry(items[j], t, true)
  {
    seq(|items|, j requires 0 <= j < |items| => Entry(items[j], t, true))
  }

  /** What the log will be: the items of the call at its end, or its last missing link written. */
  function Outcome<T>(s: State<T>, t: nat): seq<Entry<T>> {
    var p := Of(s, t);
    if p.pc.Link? then MarkLinked(s.log, p.pc.pos) else s.log + AllLinked(p.items, t)
  }

  predicate Sending<T>(p: Producer<T>) {
    p.pc.Check? || Building(p) || p.pc.Link?
  }

  lemma SendStep<T>(s: State<T>, t: nat, node: nat)
    requires t in s.producers && Sending(s.producers[t]) && !s.stopped && s.producers[t].items != []
    requires Building(s.producers[t]) ==> BuildOk(s.producers[t], s.next, s.val)
    requires s.producers[t].pc.Check? ==> s.producers[t].built == []
    requires node !in s.next && node !in s.val
    ensures var r := ProducerStep(s, t, node);
            if s.producers[t].pc.Link? then t in r.producers && r.producers[t].pc.Idle? && r.log == Outcome(s, t) else Nearer(s, r, t)
  {
    hide GetStep, SetValStep, ChainStep, EndNilStep, SwapHead, LinkStep, UndoValStep, UndoPutStep, BuildOk, Nearer, Outcome, Looked;
    var p := s.producers[t];
    match p.pc
    case Check => LookNearer(s, t);
    case Get => BuildCounts(p, s.next, s.val); GetNearer(s, t, node);
    case SetVal => BuildCounts(p, s.next, s.val); SetValNearer(s, t);
    case Chain => BuildCounts(p, s.next, s.val); ChainNearer(s, t);
    case EndNil => BuildCounts(p, s.next, s.val); EndNilNearer(s, t);
    case Recheck => BuildCounts(p, s.next, s.val); LookNearer(s, t);
    case Swap => BuildCounts(p, s.next, s.val); SwapNearer(s, t);
    case Link(_, _, _) => LinkEnds(s, t);
    case _ =>
  }

  /** The call of `t` goes on to the same outcome with less to do. */
  ghost predicate Nearer<T>(s: State<T>, r: State<T>, t: nat)
    requires t in s.producers
  {
    && t in r.producers && !r.stopped && r.producers[t].items == s.producers[t].items
    && Sending(r.producers[t]) && Outcome(r, t) == Outcome(s, t) && 0 <= SendLeft(r.producers[t]) < SendLeft(s.producers[t])
  }

  lemma BuildCounts<T>(p: Producer<T>, next: map<nat, Option<nat>>, val: map<nat, Option<T>>)
    requires Building(p) && BuildOk(p, next, val)
    ensures |p.built| <= |p.items| && (if p.pc.Get? then |p.built| < |p.items| else p.built != []) && (p.pc.Chain? ==> |p.built| > 1)
    ensures p.pc.EndNil? || p.pc.Recheck? || p.pc.Swap? ==> |p.built| == |p.items|
  {
  }

  lemma LookNearer<T>(s: State<T>, t: nat)
    requires t in s.producers && (s.producers[t].pc.Check? || s.producers[t].pc.Recheck?) && !s.stopped
    requires var p := s.producers[t]; if p.pc.Check? then p.built == [] && p.items != [] else p.built != []
    ensures Nearer(s, Put(s, t, Looked(s, s.producers[t])), t)
  {
    hide AllLinked;
  }

  lemma GetNearer<T>(s: State<T>, t: nat, node: nat)
    requires t in s.producers && s.producers[t].pc.Get? && !s.stopped && |s.producers[t].built| < |s.producers[t].items|
    requires node !in s.next && node !in s.val
    ensures Nearer(s, GetStep(s, t, s.producers[t], node), t)
  {
    hide AllLinked;
  }

  lemma SetValNearer<T>(s: State<T>, t: nat)
    requires t in s.producers && s.producers[t].pc.SetVal? && !s.stopped && 0 < |s.producers[t].built| <= |s.producers[t].items|
    ensures Nearer(s, SetValStep(s, t, s.producers[t]), t)
  {
    hide AllLinked;
  }

  lemma ChainNearer<T>(s: State<T>, t: nat)
    requires t in s.producers && s.producers[t].pc.Chain? && !s.stopped && 1 < |s.producers[t].built| <= |s.producers[t].items|
    ensures Nearer(s, ChainStep(s, t, s.producers[t]), t)
  {
    hide AllLinked;
  }

  lemma EndNilNearer<T>(s: State<T>, t: nat)
    requires t in s.producers && s.producers[t].pc.EndNil? && !s.stopped && s.producers[t].built != []
    ensures Nearer(s, EndNilStep(s, t, s.producers[t]), t)
  {
    hide AllLinked;
  }

  lemma SwapNearer<T>(s: State<T>, t: nat)
    requires t in s.producers && s.producers[t].pc.Swap? && !s.stopped && s.producers[t].built != [] && s.producers[t].items != []
    ensures Nearer(s, SwapHead(s, t), t)
  {
    var p := s.producers[t];
    MarkBatch(s.log, p.items, t);
    hide Batch, AllLinked, MarkLinked, Enlist;
  }

  lemma MarkBatch<T>(log: seq<Entry<T>>, items: seq<T>, t: nat)
    requires items != []
    ensures MarkLinked(log + Batch(items, t), |log|) == log + AllLinked(items, t)
  {
  }

  lemma LinkEnds<T>(s: State<T>, t: nat)
    requires t in s.producers && s.producers[t].pc.Link?
    ensures var r := LinkStep(s, t, s.producers[t]); t in r.producers && r.producers[t].pc.Idle? && r.log == Outcome(s, t)
  {
    hide MarkLinked, AllLinked;
  }

  lemma Building1<T>(s: State<T>, t: nat)
    requires Inv(s) && t in s.producers
    ensures var p := s.producers[t];
            && (!p.pc.Idle? ==> p.items != []) && (p.pc.Check? ==> p.built == []) && (Building(p) ==> BuildOk(p, s.next, s.val))
  {
    assert ProducerOk(t, s.producers[t], s.role, s.next, s.val, s.chain, s.log, s.taken);
    hide Inv, BuildOk, Owns, Linking;
  }

  lemma SendDo<T>(s: State<T>, t: nat) returns (node: nat)
    requires Inv(s) && t in s.producers && Sending(s.producers[t]) && !s.stopped
    ensures var r := Do(s, Produce(t, node));
            && Inv(r) && t in r.producers
            && (if s.producers[t].pc.Link? then r.producers[t].pc.Idle? && r.log == Outcome(s, t)
                else !r.stopped && Sending(r.producers[t]) && Outcome(r, t) == Outcome(s, t)
                     && 0 <= SendLeft(r.producers[t]) < SendLeft(s.producers[t]))
  {
    node := NewNode(s);
    Building1(s, t);
    SendStep(s, t, node);
    DoInv(s, Produce(t, node));
    assert Do(s, Produce(t, node)) == ProducerStep(s, t, node);
    hide Inv, Outcome, ProducerStep, SendLeft;
  }

  lemma {:induction false} SendAlone<T>(s: State<T>, t: nat) returns (acts: seq<Action<T>>)
    requires Inv(s) && t in s.producers && Sending(s.producers[t]) && !s.stopped
    ensures (forall i :: 0 <= i < |acts| ==> acts[i].Produce? && acts[i].t == t)
    ensures var r := Exec(s, acts); t in r.producers && r.producers[t].pc.Idle? && r.log == Outcome(s, t)
    decreases SendLeft(s.producers[t])
  {
    hide Inv, Outcome, SendLeft, Do;
    var node := SendDo(s, t);
    var a: Action<T> := Produce(t, node);
    var rest: seq<Action<T>> := [];
    if !s.producers[t].pc.Link? { rest := SendAlone(Do(s, a), t); }
    acts := [a] + rest;
    assert acts[1..] == rest;
  }

  /** What an enqueue left alone comes to: with StopEnqueue called it goes away without a trace; otherwise its items are at the end of the
      log, in order and linked. */
  lemma EnqueueOutcome<T(!new)>(s: State<T>, t: nat, items: seq<T>) returns (acts: seq<Action<T>>)
    requires Reachable(s) && Of(s, t).pc.Idle? && items != []
    ensures (forall i :: 0 <= i < |acts| ==> acts[i].Produce? && acts[i].t == t)
    ensures var r := Exec(Do(s, Enqueue(t, items)), acts);
            && t in r.producers && r.producers[t].pc.Idle?
            && r.log == if s.stopped then s.log else s.log + AllLinked(items, t)
  {
    ReachableInv(s);
    DoInv(s, Enqueue(t, items));
    var c := Do(s, Enqueue(t, items));
    assert c.producers[t].pc.Check? && c.producers[t].items == items && c.log == s.log && c.stopped == s.stopped;
    if s.stopped {
      acts := [Produce(t, 0)];
      var r := Do(c, Produce(t, 0));
      assert r.producers[t].pc.Idle? && r.log == s.log;
      assert acts[1..] == [] && Exec(r, []) == r;
      hide Inv, Reachable, Do;
    } else {
      assert Outcome(c, t) == s.log + AllLinked(items, t);
      hide Inv, Reachable, Do, Outcome;
      acts := SendAlone(c, t);
    }
  }

  // ----- nodes kept for reuse -------------------------------------------------------------------

  /** Nodes that wait for reuse hold no value, nor does one that is about to join them. */
  ghost predicate Blank<T>(s: State<T>) {
    && (forall n :: n in s.role && (s.role[n].Free? || s.role[n].Cached?) ==> n in s.val && s.val[n].None?)
    && (forall t :: t in s.producers && s.producers[t].pc.UndoPut? ==> s.producers[t].pc.node in s.val && s.val[s.producers[t].pc.node].None?)
    && (s.consumer.Recycle? ==> s.consumer.spent in s.val && s.val[s.consumer.spent].None?)
    && |s.cache| <= s.cacheCap
  }

  /** A value is written into a node of the producer's own only. */
  lemma SetValOwn<T>(s: State<T>, t: nat)
    requires Inv(s) && t in s.producers && s.producers[t].pc.SetVal?
    ensures var p := s.producers[t];
            && 0 < |p.built| <= |p.items| && p.built[|p.built| - 1] in s.role && s.role[p.built[|p.built| - 1]] == Private(t, |p.built| - 1)
    ensures s.consumer.Recycle? ==> s.consumer.spent in s.role && s.role[s.consumer.spent] == Held
    ensures forall u :: u in s.producers && s.producers[u].pc.UndoPut? ==>
              s.producers[u].pc.node in s.role && s.role[s.producers[u].pc.node].OwnedBy(u)
  {
    assert ProducerOk(t, s.producers[t], s.role, s.next, s.val, s.chain, s.log, s.taken);
    assert ConsumerOk(s.consumer, s.chain, s.log, s.taken, s.role, s.delivered);
    forall u | u in s.producers && s.producers[u].pc.UndoPut?
      ensures s.producers[u].pc.node in s.role && s.role[s.producers[u].pc.node].OwnedBy(u)
    {
      UndoOwn(s, u);
    }
    hide Inv, SentOk, Linking;
  }

  lemma UndoOwn<T>(s: State<T>, u: nat)
    requires Inv(s) && u in s.producers && s.producers[u].pc.UndoPut?
    ensures s.producers[u].pc.node in s.role && s.role[s.producers[u].pc.node].OwnedBy(u)
  {
    assert ProducerOk(u, s.producers[u], s.role, s.next, s.val, s.chain, s.log, s.taken);
    hide Inv, SentOk, Linking;
  }

  lemma BlankProduce<T>(s: State<T>, t: nat, node: nat)
    requires Inv(s) && Blank(s) && t in s.producers
    ensures Blank(ProducerStep(s, t, node))
  {
    var p := s.producers[t];
    assert s.role.Keys == s.val.Keys;
    if p.pc.SetVal? { SetValOwn(s, t); }
    hide Inv, UndoPutStep, GetStep, SetValStep, ChainStep, EndNilStep, SwapHead, LinkStep, UndoValStep, Blank;
    match p.pc
    case Idle =>
    case Get => BlankGet(s, t, node);
    case SetVal => BlankSetVal(s, t);
    case Chain => BlankLinks(s, t);
    case EndNil => BlankLinks(s, t);
    case Swap => if p.built != [] { BlankSwap(s, t); }
    case Link(_, _, _) => BlankLinks(s, t);
    case UndoVal(_, _) => BlankUndoVal(s, t);
    case UndoPut(_, _) => BlankUndoPut(s, t);
    case _ => BlankLook(s, t);
  }

  lemma BlankLook<T>(s: State<T>, t: nat)
    requires Blank(s) && t in s.producers && !s.producers[t].pc.UndoPut?
    ensures Blank(Put(s, t, Looked(s, s.producers[t])))
  {
  }

  lemma BlankGet<T>(s: State<T>, t: nat, node: nat)
    requires Blank(s) && t in s.producers && s.producers[t].pc.Get? && s.role.Keys == s.val.Keys
    ensures Blank(GetStep(s, t, s.producers[t], node))
  {
  }

  lemma BlankSetVal<T>(s: State<T>, t: nat)
    requires Blank(s) && t in s.producers && s.producers[t].pc.SetVal? && s.role.Keys == s.val.Keys
    requires var p := s.producers[t];
             && 0 < |p.built| <= |p.items| && p.built[|p.built| - 1] in s.role && s.role[p.built[|p.built| - 1]] == Private(t, |p.built| - 1)
    requires s.consumer.Recycle? ==> s.consumer.spent in s.role && s.role[s.consumer.spent] == Held
    requires forall u :: u in s.producers && s.producers[u].pc.UndoPut? ==>
               s.producers[u].pc.node in s.role && s.role[s.producers[u].pc.node].OwnedBy(u)
    ensures Blank(SetValStep(s, t, s.producers[t]))
  {
  }

  lemma BlankLinks<T>(s: State<T>, t: nat)
    requires Blank(s) && t in s.producers && !s.producers[t].pc.UndoPut?
    ensures Blank(ChainStep(s, t, s.producers[t])) && Blank(EndNilStep(s, t, s.producers[t]))
    ensures s.producers[t].pc.Link? ==> Blank(LinkStep(s, t, s.producers[t]))
  {
  }

  lemma BlankSwap<T>(s: State<T>, t: nat)
    requires Blank(s) && t in s.producers && s.producers[t].built != []
    ensures Blank(SwapHead(s, t))
  {
    hide Batch;
  }

  lemma BlankUndoVal<T>(s: State<T>, t: nat)
    requires Blank(s) && t in s.producers && s.producers[t].pc.UndoVal?
    ensures Blank(UndoValStep(s, t, s.producers[t]))
  {
  }

  lemma BlankUndoPut<T>(s: State<T>, t: nat)
    requires Blank(s) && t in s.producers && s.producers[t].pc.UndoPut?
    ensures Blank(UndoPutStep(s, t, s.producers[t]))
  {
  }

  lemma BlankConsume<T>(s: State<T>)
    requires Inv(s) && Blank(s)
    ensures Blank(ConsumerStep(s))
  {
    assert ConsumerOk(s.consumer, s.chain, s.log, s.taken, s.role, s.delivered) && s.role.Keys == s.val.Keys && s.cacheCap > 0;
    assert SpareOk(s.pool, s.cache, Flushed(s.consumer), s.role);
    assert s.consumer.CutVal? ==> s.consumer.spent in s.val;
    hide Inv, LoadNextStep, ReadValStep, StoreTailStep, FlushStep, KeepStep, ConsumerOk, SpareOk;
    if s.consumer.Recycle? || s.consumer.Flush? {
      BlankSpare(s);
    } else {
      BlankWalk(s);
    }
  }

  lemma BlankWalk<T>(s: State<T>)
    requires Blank(s) && !s.consumer.Recycle? && !s.consumer.Flush?
    ensures Blank(ConsumerStep(s))
  {
    hide FlushStep, KeepStep, LoadNextStep, ReadValStep, StoreTailStep, Blank;
    match s.consumer
    case LoadNext(got, limit) => BlankReads(s);
    case ReadVal(got, limit, n) => BlankReads(s);
    case ZeroVal(got, limit, n) => BlankZeroes(s);
    case StoreTail(got, limit, n) => BlankStoreTail(s);
    case CutNext(got, limit, spent) => BlankZeroes(s);
    case CutVal(got, limit, spent) => BlankZeroes(s);
    case _ =>
  }

  lemma BlankReads<T>(s: State<T>)
    requires Blank(s)
    ensures s.consumer.LoadNext? ==> Blank(LoadNextStep(s, s.consumer.got, s.consumer.limit))
    ensures s.consumer.ReadVal? ==> Blank(ReadValStep(s, s.consumer.got, s.consumer.limit, s.consumer.next))
  {
  }

  lemma BlankZeroes<T>(s: State<T>)
    requires Blank(s)
    ensures s.consumer.ZeroVal? ==> Blank(ConsumerStep(s))
    ensures s.consumer.CutNext? || s.consumer.CutVal? ==> Blank(ConsumerStep(s))
  {
    hide FlushStep, KeepStep, LoadNextStep, ReadValStep, StoreTailStep;
  }

  lemma BlankStoreTail<T>(s: State<T>)
    requires Blank(s) && s.consumer.StoreTail?
    ensures Blank(StoreTailStep(s, s.consumer.got, s.consumer.limit, s.consumer.next))
  {
  }

  lemma BlankSpare<T>(s: State<T>)
    requires Blank(s) && (s.consumer.Recycle? || s.consumer.Flush?) && s.cacheCap > 0
    requires SpareOk(s.pool, s.cache, Flushed(s.consumer), s.role)
    ensures Blank(ConsumerStep(s))
  {
    hide LoadNextStep, ReadValStep, StoreTailStep, FlushStep, KeepStep, Blank, SpareOk;
    match s.consumer
    case Recycle(got, limit, spent, k) =>
      if |s.cache| >= s.cacheCap && k < |s.cache| { BlankFlush(s, k, Recycle(got, limit, spent, k + 1)); } else { BlankKeep(s); }
    case Flush(k) => if k < |s.cache| { BlankFlush(s, k, Flush(k + 1)); } else { BlankEmpty(s); }
    case _ =>
  }

  lemma BlankEmpty<T>(s: State<T>)
    requires Blank(s)
    ensures Blank(s.(cache := [], consumer := Resting))
  {
  }

  lemma BlankFlush<T>(s: State<T>, k: nat, c: Consumer<T>)
    requires Blank(s) && k < |s.cache| && SpareOk(s.pool, s.cache, k, s.role)
    requires c.Recycle? ==> s.consumer.Recycle? && c.spent == s.consumer.spent
    ensures Blank(FlushStep(s, k, c))
  {
  }

  lemma BlankKeep<T>(s: State<T>)
    requires Blank(s) && s.consumer.Recycle? && s.cacheCap > 0
    ensures Blank(KeepStep(s, s.consumer.got, s.consumer.limit, s.consumer.spent))
  {
    var got, limit, spent := s.consumer.got, s.consumer.limit, s.consumer.spent;
    if |s.cache| < s.cacheCap {
      BlankCache(s, s.cache + [spent], |s.cache|);
      BlankNext(s.(cache := s.cache + [spent], role := s.role[spent := Cached(|s.cache|)]), got, limit);
    } else {
      BlankCache(s, [spent], 0);
      BlankNext(s.(cache := [spent], role := s.role[spent := Cached(0)]), got, limit);
    }
    hide Blank, Next;
  }

  lemma BlankCache<T>(s: State<T>, cache: seq<nat>, k: nat)
    requires Blank(s) && s.consumer.Recycle? && |cache| <= s.cacheCap
    ensures Blank(s.(cache := cache, role := s.role[s.consumer.spent := Cached(k)]))
  {
  }

  lemma BlankNext<T>(s: State<T>, got: seq<T>, limit: nat)
    requires Blank(s)
    ensures Blank(Next(s, got, limit))
  {
  }

  lemma BlankDo<T>(s: State<T>, a: Action<T>)
    requires Inv(s) && Blank(s)
    ensures Blank(Do(s, a))
  {
    match a
    case Produce(t, node) =>
      if t in s.producers { BlankProduce(s, t, node); }
      hide Inv, ProducerStep, ConsumerStep, Blank;
    case Consume =>
      BlankConsume(s);
      hide Inv, ProducerStep, ConsumerStep, Blank;
    case _ => hide Inv, ProducerStep, ConsumerStep;
  }

  lemma {:induction false} BlankExec<T>(s: State<T>, acts: seq<Action<T>>)
    requires Inv(s) && Blank(s)
    ensures Blank(Exec(s, acts))
    decreases |acts|
  {
    if acts != [] {
      DoInv(s, acts[0]);
      BlankDo(s, acts[0]);
      hide Inv, Blank, Do;
      BlankExec(Do(s, acts[0]), acts[1..]);
    }
  }

  lemma ReachableBlank<T(!new)>(s: State<T>)
    requires Reachable(s)
    ensures Inv(s) && Blank(s)
  {
    ReachableInv(s);
    var cacheCap: nat, acts: seq<Action<T>> :| cacheCap > 0 && s == Exec(Init(cacheCap), acts);
    InitInv<T>(cacheCap);
    assert Blank(Init<T>(cacheCap));
    hide Inv, Blank, Init, Exec;
    BlankExec(Init(cacheCap), acts);
  }

  /** In every reachable state: nodes in the pool and in the consumer's cache hold no value of anyone, and the cache stays within its
      capacity. */
  lemma SpareNodesAreBlank<T(!new)>(s: State<T>, n: nat)
    requires Reachable(s) && (n in s.pool || exists k :: Flushed(s.consumer) <= k < |s.cache| && s.cache[k] == n)
    ensures n in s.val && s.val[n].None? && |s.cache| <= s.cacheCap
  {
    ReachableBlank(s);
    assert SpareOk(s.pool, s.cache, Flushed(s.consumer), s.role);
    hide Inv;
  }

  /** Shrink left alone hands every node of the cache to the pool. */
  lemma ShrinkEmpties<T>(s: State<T>)
    requires s.consumer.Resting?
    ensures var r := ConsumerAlone(Do(s, Shrink), |s.cache| + 1);
            r.consumer.Resting? && r.cache == [] && r.pool == s.pool + (set n | n in s.cache) && r.delivered == s.delivered && r.log == s.log
  {
    FlushAlone(Do(s, Shrink), 0);
    hide Do, ConsumerAlone;
    assert s.cache[0..] == s.cache;
  }

  lemma {:induction false} FlushAlone<T>(s: State<T>, k: nat)
    requires s.consumer == Flush(k) && k <= |s.cache|
    ensures var r := ConsumerAlone(s, |s.cache| - k + 1);
            r.consumer.Resting? && r.cache == [] && r.pool == s.pool + (set n | n in s.cache[k..]) && r.delivered == s.delivered && r.log == s.log
    decreases |s.cache| - k
  {
    var r := Do(s, Consume);
    if k < |s.cache| {
      assert r.consumer == Flush(k + 1) && r.cache == s.cache && r.pool == s.pool + {s.cache[k]} && r.log == s.log;
      hide Do;
      FlushAlone(r, k + 1);
      assert s.cache[k..] == [s.cache[k]] + s.cache[k + 1..];
    } else {
      assert ConsumerAlone(r, 0) == r;
    }
  }
}
