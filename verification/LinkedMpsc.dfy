/**
 The linked multi-producer single-consumer queue of `zqueue/unboundedmpsc.go`, as a step machine:
 every atomic operation and every plain access to a node is one step, and a schedule is any list of
 actions. Nodes are natural numbers; the node pool is a set, and Get may return any pooled node or
 one never used before. TryEnqueue performs the same accesses, in the same order, as EnqueueBatch of
 one element, so both are the call Enqueue(items).
 */
module LinkedMpsc {
  import opened Prelude

  /** What a node is for at the moment: history only, no step reads it. */
  datatype Role =
    | Live(pos: nat)
    | Private(t: nat, j: nat)
    | Held
    | Cached(k: nat)
    | Free
  {
    predicate OwnedBy(u: nat) { Private? && t == u }
  }

  /** One enqueued item in swap order, and whether the link to its node has been written. */
  datatype Entry<T> = Entry(item: T, producer: nat, linked: bool)

  datatype Pc =
    | Idle
    | Check
    | Get
    | SetVal
    | Chain
    | EndNil
    | Recheck
    | Swap
    | Link(prev: nat, first: nat, pos: nat)
    | UndoNext(node: nat)
    | UndoVal(node: nat, rest: Option<nat>)
    | UndoPut(node: nat, rest: Option<nat>)

  /** `built` are the nodes obtained by the current call; the first `undone` of them were put back. */
  datatype Producer<T> = Producer(pc: Pc, items: seq<T>, built: seq<nat>, undone: nat, sent: seq<T>)

  datatype Consumer<T> =
    | Resting
    | LoadNext(got: seq<T>, limit: nat)
    | ReadVal(got: seq<T>, limit: nat, next: nat)
    | ZeroVal(got: seq<T>, limit: nat, next: nat)
    | StoreTail(got: seq<T>, limit: nat, next: nat)
    | CutNext(got: seq<T>, limit: nat, spent: nat)
    | CutVal(got: seq<T>, limit: nat, spent: nat)
    | Recycle(got: seq<T>, limit: nat, spent: nat, flushed: nat)
    | Flush(flushed: nat)

  datatype State<T> = State(next: map<nat, Option<nat>>, val: map<nat, Option<T>>, head: nat, tail: nat,
                            stopped: bool, pool: set<nat>, cache: seq<nat>, cacheCap: nat,
                            producers: map<nat, Producer<T>>, consumer: Consumer<T>,
                            log: seq<Entry<T>>, chain: seq<nat>, taken: nat, role: map<nat, Role>, delivered: seq<T>)

  /** `node` is the one Produce gets from the pool, when that is its next step. */
  datatype Action<T> =
    | Enqueue(t: nat, items: seq<T>)
    | Produce(t: nat, node: nat)
    | Dequeue(limit: nat)
    | Shrink
    | Consume
    | StopEnqueue
    | Collect(node: nat)

  /** The sentinel is node 0; `recycleCap` is 256 in the code. */
  function Init<T>(cacheCap: nat): State<T> {
    State(map[0 := None], map[0 := None], 0, 0, false, {}, [], cacheCap, map[], Resting, [], [0], 0, map[0 := Live(0)], [])
  }

  function Fresh<T>(): Producer<T> {
    Producer(Idle, [], [], 0, [])
  }

  function Of<T>(s: State<T>, t: nat): Producer<T> {
    if t in s.producers then s.producers[t] else Fresh()
  }

  function Put<T>(s: State<T>, t: nat, p: Producer<T>): State<T> {
    s.(producers := s.producers[t := p])
  }

  predicate Allocated<T>(s: State<T>, n: nat) {
    n in s.next && n in s.val
  }

  // ----- producer side --------------------------------------------------------------------------

  function Batch<T>(items: seq<T>, t: nat): (r: seq<Entry<T>>)
    ensures |r| == |items|
    ensures forall j :: 0 <= j < |items| ==> r[j] == Entry(items[j], t, j > 0)
  {
    seq(|items|, j requires 0 <= j < |items| => Entry(items[j], t, j > 0))
  }

  /** The nodes built by `t` become the live positions from `pos` on. */
  function Enlist(role: map<nat, Role>, t: nat, pos: nat): map<nat, Role> {
    map n | n in role :: if role[n].Private? && role[n].t == t then Live(pos + role[n].j) else role[n]
  }

  /** The atomic swap of head, which fixes the place of the whole batch. */
  function SwapHead<T>(s: State<T>, t: nat): State<T>
    requires t in s.producers && s.producers[t].built != []
  {
    var p := s.producers[t];
    s.(head := p.built[|p.built| - 1],
       log := s.log + Batch(p.items, t),
       chain := s.chain + p.built,
       role := Enlist(s.role, t, |s.log| + 1),
       producers := s.producers[t := p.(pc := Link(s.head, p.built[0], |s.log|), built := [])])
  }

  function MarkLinked<T>(log: seq<Entry<T>>, pos: nat): seq<Entry<T>> {
    if pos < |log| then log[pos := log[pos].(linked := true)] else log
  }

  /** Loads that decide where the call goes next. */
  function Looked<T>(s: State<T>, p: Producer<T>): Producer<T> {
    match p.pc
    case Check => p.(pc := if s.stopped then Idle else Get)
    case Recheck => if p.built == [] then p else p.(pc := if s.stopped then UndoNext(p.built[0]) else Swap)
    case UndoNext(n) => if n in s.next then p.(pc := UndoVal(n, s.next[n])) else p
    case _ => p
  }

  /** nodePool.Get: any pooled node, or a new one. */
  function GetStep<T>(s: State<T>, t: nat, p: Producer<T>, node: nat): State<T> {
    var p' := p.(pc := SetVal, built := p.built + [node]);
    var role' := s.role[node := Private(t, |p.built|)];
    if node in s.pool && Allocated(s, node) then s.(pool := s.pool - {node}, role := role', producers := s.producers[t := p'])
    else if node !in s.next && node !in s.val then
      s.(next := s.next[node := None], val := s.val[node := None], role := role', producers := s.producers[t := p'])
    else s
  }

  function SetValStep<T>(s: State<T>, t: nat, p: Producer<T>): State<T> {
    var i := |p.built|;
    if 0 < i <= |p.items| then
      s.(val := s.val[p.built[i - 1] := Some(p.items[i - 1])],
         producers := s.producers[t := p.(pc := if i > 1 then Chain else if i < |p.items| then Get else EndNil)])
    else s
  }

  function ChainStep<T>(s: State<T>, t: nat, p: Producer<T>): State<T> {
    var i := |p.built|;
    if i > 1 then
      s.(next := s.next[p.built[i - 2] := Some(p.built[i - 1])],
         producers := s.producers[t := p.(pc := if i < |p.items| then Get else EndNil)])
    else s
  }

  function EndNilStep<T>(s: State<T>, t: nat, p: Producer<T>): State<T> {
    if p.built != [] then
      s.(next := s.next[p.built[|p.built| - 1] := None], producers := s.producers[t := p.(pc := Recheck)])
    else s
  }

  function LinkStep<T>(s: State<T>, t: nat, p: Producer<T>): State<T>
    requires p.pc.Link?
  {
    s.(next := s.next[p.pc.prev := Some(p.pc.first)], log := MarkLinked(s.log, p.pc.pos),
       producers := s.producers[t := p.(pc := Idle, sent := p.sent + p.items)])
  }

  function UndoValStep<T>(s: State<T>, t: nat, p: Producer<T>): State<T>
    requires p.pc.UndoVal?
  {
    s.(val := s.val[p.pc.node := None], producers := s.producers[t := p.(pc := UndoPut(p.pc.node, p.pc.rest))])
  }

  function UndoPutStep<T>(s: State<T>, t: nat, p: Producer<T>): State<T>
    requires p.pc.UndoPut?
  {
    s.(pool := s.pool + {p.pc.node}, role := s.role[p.pc.node := Free],
       producers := s.producers[t := p.(undone := p.undone + 1, pc := if p.pc.rest.None? then Idle else UndoNext(p.pc.rest.value))])
  }

  /** One step of producer `t`. */
  function ProducerStep<T>(s: State<T>, t: nat, node: nat): State<T> {
    if t !in s.producers then s else
    var p := s.producers[t];
    match p.pc
    case Idle => s
    case Check => Put(s, t, Looked(s, p))
    case Get => GetStep(s, t, p, node)
    case SetVal => SetValStep(s, t, p)
    case Chain => ChainStep(s, t, p)
    case EndNil => EndNilStep(s, t, p)
    case Recheck => Put(s, t, Looked(s, p))
    case Swap => if p.built != [] then SwapHead(s, t) else s
    case Link(_, _, _) => LinkStep(s, t, p)
    case UndoNext(_) => Put(s, t, Looked(s, p))
    case UndoVal(_, _) => UndoValStep(s, t, p)
    case UndoPut(_, _) => UndoPutStep(s, t, p)
  }

  // ----- consumer side --------------------------------------------------------------------------

  /** After an item is taken: DequeueBatch goes on while it has room, Dequeue (limit 1) returns. */
  function Next<T>(s: State<T>, got: seq<T>, limit: nat): State<T> {
    if |got| < limit then s.(consumer := LoadNext(got, limit)) else s.(consumer := Resting, delivered := s.delivered + got)
  }

  function LoadNextStep<T>(s: State<T>, got: seq<T>, limit: nat): State<T> {
    if s.tail !in s.next then s
    else if s.next[s.tail].None? then s.(consumer := Resting, delivered := s.delivered + got)
    else s.(consumer := ReadVal(got, limit, s.next[s.tail].value))
  }

  function ReadValStep<T>(s: State<T>, got: seq<T>, limit: nat, n: nat): State<T> {
    if n in s.val && s.val[n].Some? then s.(consumer := ZeroVal(got + [s.val[n].value], limit, n)) else s
  }

  function StoreTailStep<T>(s: State<T>, got: seq<T>, limit: nat, n: nat): State<T> {
    s.(tail := n, taken := s.taken + 1, role := s.role[s.tail := Held], consumer := CutNext(got, limit, s.tail))
  }

  /** One node of the cache goes to the pool. */
  function FlushStep<T>(s: State<T>, k: nat, c: Consumer<T>): State<T>
    requires k < |s.cache|
  {
    s.(pool := s.pool + {s.cache[k]}, role := s.role[s.cache[k] := Free], consumer := c)
  }

  /** The spent sentinel is kept in the cache: appended, or alone after a flush. */
  function KeepStep<T>(s: State<T>, got: seq<T>, limit: nat, spent: nat): State<T> {
    if |s.cache| < s.cacheCap then
      Next(s.(cache := s.cache + [spent], role := s.role[spent := Cached(|s.cache|)]), got, limit)
    else
      Next(s.(cache := [spent], role := s.role[spent := Cached(0)]), got, limit)
  }

  /** One step of the consumer; Dequeue is DequeueBatch with room for one item. */
  function ConsumerStep<T>(s: State<T>): State<T> {
    match s.consumer
    case Resting => s
    case LoadNext(got, limit) => LoadNextStep(s, got, limit)
    case ReadVal(got, limit, n) => ReadValStep(s, got, limit, n)
    case ZeroVal(got, limit, n) => s.(val := s.val[n := None], consumer := StoreTail(got, limit, n))
    case StoreTail(got, limit, n) => StoreTailStep(s, got, limit, n)
    case CutNext(got, limit, spent) => s.(next := s.next[spent := None], consumer := CutVal(got, limit, spent))
    case CutVal(got, limit, spent) => s.(val := s.val[spent := None], consumer := Recycle(got, limit, spent, 0))
    case Recycle(got, limit, spent, k) =>
      if |s.cache| >= s.cacheCap && k < |s.cache| then FlushStep(s, k, Recycle(got, limit, spent, k + 1))
      else KeepStep(s, got, limit, spent)
    case Flush(k) =>
      if k < |s.cache| then FlushStep(s, k, Flush(k + 1)) else s.(cache := [], consumer := Resting)
  }

  function Do<T>(s: State<T>, a: Action<T>): State<T> {
    match a
    case Enqueue(t, items) =>
      if Of(s, t).pc.Idle? && items != [] then
        Put(s, t, Of(s, t).(pc := Check, items := items, built := [], undone := 0))
      else s
    case Produce(t, node) => ProducerStep(s, t, node)
    case Dequeue(limit) => if s.consumer.Resting? && limit > 0 then s.(consumer := LoadNext([], limit)) else s
    case Shrink => if s.consumer.Resting? then s.(consumer := Flush(0)) else s
    case Consume => ConsumerStep(s)
    case StopEnqueue => s.(stopped := true)
    case Collect(node) => s.(pool := s.pool - {node})
  }

  /** Run a whole schedule. */
  function Exec<T>(s: State<T>, acts: seq<Action<T>>): State<T>
    decreases |acts|
  {
    if acts == [] then s else Exec(Do(s, acts[0]), acts[1..])
  }

  // ----- invariant ------------------------------------------------------------------------------

  /** The live nodes, from the sentinel at `taken` to the head at `|log|`, one position each. */
  ghost predicate ChainOk<T>(chain: seq<nat>, log: seq<Entry<T>>, taken: nat, head: nat, tail: nat, role: map<nat, Role>) {
    && |chain| == |log| + 1 && taken <= |log| && chain[taken] == tail && chain[|log|] == head
    && (forall p :: taken <= p <= |log| ==> chain[p] in role && role[chain[p]] == Live(p))
  }

  /** Links between live nodes, absent exactly where a producer still has to write them. */
  ghost predicate LinksOk<T>(chain: seq<nat>, log: seq<Entry<T>>, taken: nat, next: map<nat, Option<nat>>)
    requires |chain| == |log| + 1 && taken <= |log|
  {
    && (forall p :: taken <= p <= |log| ==> chain[p] in next)
    && (forall p {:trigger next[chain[p]]} :: taken <= p < |log| ==> next[chain[p]] == if log[p].linked then Some(chain[p + 1]) else None)
    && next[chain[|log|]].None?
  }

  /** Values of the live nodes that have not been read. */
  ghost predicate ValsOk<T>(chain: seq<nat>, log: seq<Entry<T>>, unread: nat, val: map<nat, Option<T>>)
    requires |chain| == |log| + 1
  {
    forall q :: unread < q <= |log| ==> chain[q] in val && val[chain[q]] == Some(log[q - 1].item)
  }

  /** Nodes waiting for reuse: the pool, and the consumer's cache from index `flushed` on. */
  ghost predicate SpareOk(pool: set<nat>, cache: seq<nat>, flushed: nat, role: map<nat, Role>) {
    && (forall n :: n in pool ==> n in role && role[n] == Free)
    && flushed <= |cache|
    && (forall k :: flushed <= k < |cache| ==> cache[k] in role && role[cache[k]] == Cached(k))
  }

  function Flushed<T>(c: Consumer<T>): nat {
    if c.Recycle? || c.Flush? then c.flushed else 0
  }

  /** The first position whose value is still in its node. */
  function Unread<T>(c: Consumer<T>, taken: nat): nat {
    if c.StoreTail? then taken + 1 else taken
  }

  function ItemsOf<T>(log: seq<Entry<T>>): (r: seq<T>)
    ensures |r| == |log|
    ensures forall i :: 0 <= i < |log| ==> r[i] == log[i].item
  {
    seq(|log|, i requires 0 <= i < |log| => log[i].item)
  }

  ghost predicate ConsumerOk<T>(c: Consumer<T>, chain: seq<nat>, log: seq<Entry<T>>, taken: nat, role: map<nat, Role>, delivered: seq<T>)
    requires |chain| == |log| + 1 && taken <= |log|
  {
    && (forall p :: 0 <= p < taken ==> log[p].linked)
    && match c
       case Resting => delivered == ItemsOf(log[..taken])
       case Flush(_) => delivered == ItemsOf(log[..taken])
       case LoadNext(got, limit) => delivered + got == ItemsOf(log[..taken]) && |got| < limit
       case ReadVal(got, limit, n) =>
         delivered + got == ItemsOf(log[..taken]) && |got| < limit && taken < |log| && log[taken].linked && n == chain[taken + 1]
       case ZeroVal(got, limit, n) =>
         taken < |log| && delivered + got == ItemsOf(log[..taken + 1]) && |got| <= limit && log[taken].linked && n == chain[taken + 1]
       case StoreTail(got, limit, n) =>
         taken < |log| && delivered + got == ItemsOf(log[..taken + 1]) && |got| <= limit && log[taken].linked && n == chain[taken + 1]
       case CutNext(got, limit, spent) => delivered + got == ItemsOf(log[..taken]) && |got| <= limit && spent in role && role[spent] == Held
       case CutVal(got, limit, spent) => delivered + got == ItemsOf(log[..taken]) && |got| <= limit && spent in role && role[spent] == Held
       case Recycle(got, limit, spent, _) => delivered + got == ItemsOf(log[..taken]) && |got| <= limit && spent in role && role[spent] == Held
  }

  /** Items of one producer, in log order. */
  function SentBy<T>(log: seq<Entry<T>>, t: nat): seq<T> {
    if log == [] then []
    else SentBy(log[..|log| - 1], t) + if log[|log| - 1].producer == t then [log[|log| - 1].item] else []
  }

  predicate Building<T>(p: Producer<T>) {
    p.pc.Get? || p.pc.SetVal? || p.pc.Chain? || p.pc.EndNil? || p.pc.Recheck? || p.pc.Swap?
  }

  predicate Undoing<T>(p: Producer<T>) {
    p.pc.UndoNext? || p.pc.UndoVal? || p.pc.UndoPut?
  }

  /** Nodes of `p` that nobody else knows of. */
  ghost predicate Owns<T>(t: nat, p: Producer<T>, role: map<nat, Role>) {
    (Building(p) || Undoing(p)) ==>
      && p.undone <= |p.built|
      && (forall j :: p.undone <= j < |p.built| ==>
            p.built[j] in role && role[p.built[j]] == Private(t, j))
  }

  /** How far the private list of nodes is filled in. */
  ghost predicate BuildOk<T>(p: Producer<T>, next: map<nat, Option<nat>>, val: map<nat, Option<T>>) {
    var n := |p.built|;
    && p.undone == 0 && n <= |p.items| && (p.pc.Get? ==> n < |p.items|) && (!p.pc.Get? ==> n > 0)
    && (p.pc.EndNil? || p.pc.Recheck? || p.pc.Swap? ==> n == |p.items|)
    && (p.pc.Chain? ==> n > 1)
    && (forall j :: 0 <= j < n ==> p.built[j] in next && p.built[j] in val)
    && (forall j :: 0 <= j < n && (p.pc.SetVal? ==> j + 1 < n) ==> val[p.built[j]] == Some(p.items[j]))
    && (forall j {:trigger next[p.built[j]]} :: 0 <= j && j + 1 < n && (p.pc.SetVal? || p.pc.Chain? ==> j + 2 < n) ==>
          next[p.built[j]] == Some(p.built[j + 1]))
    && (p.pc.Recheck? || p.pc.Swap? ==> next[p.built[n - 1]].None?)
  }

  /** The pointer that follows node `k` of a private list. */
  function After(built: seq<nat>, k: nat): Option<nat> {
    if k + 1 < |built| then Some(built[k + 1]) else None
  }

  /** Rolling back walks the private list by its next pointers and frees each node once. */
  ghost predicate UndoOk<T>(p: Producer<T>, next: map<nat, Option<nat>>) {
    && p.undone < |p.built|
    && (p.pc.UndoNext? ==> p.pc.node == p.built[p.undone])
    && (p.pc.UndoVal? ==> p.pc.node == p.built[p.undone] && p.pc.rest == After(p.built, p.undone))
    && (p.pc.UndoPut? ==> p.pc.node == p.built[p.undone] && p.pc.rest == After(p.built, p.undone))
    && (forall j :: p.undone <= j < |p.built| ==> p.built[j] in next)
    && (forall j {:trigger next[p.built[j]]} :: p.undone <= j < |p.built| ==> next[p.built[j]] == After(p.built, j))
  }

  ghost predicate Filled<T>(p: Producer<T>, next: map<nat, Option<nat>>, val: map<nat, Option<T>>) {
    && (p.pc.Check? ==> p.built == [] && p.undone == 0)
    && (Building(p) ==> BuildOk(p, next, val))
    && (Undoing(p) ==> UndoOk(p, next))
  }

  /** A producer between its swap and its link: it alone will write the link at `pos`, to nodes that are live. */
  ghost predicate Linking<T>(t: nat, p: Producer<T>, chain: seq<nat>, log: seq<Entry<T>>, taken: nat)
    requires |chain| == |log| + 1
  {
    p.pc.Link? ==>
      && taken <= p.pc.pos < |log| && !log[p.pc.pos].linked && log[p.pc.pos].producer == t
      && chain[p.pc.pos] == p.pc.prev && chain[p.pc.pos + 1] == p.pc.first
  }

  ghost predicate SentOk<T>(t: nat, p: Producer<T>, log: seq<Entry<T>>) {
    && SentBy(log, t) == p.sent + (if p.pc.Link? then p.items else [])
    && (!p.pc.Idle? ==> p.items != [])
  }

  ghost predicate ProducerOk<T>(t: nat, p: Producer<T>, role: map<nat, Role>, next: map<nat, Option<nat>>, val: map<nat, Option<T>>,
                                chain: seq<nat>, log: seq<Entry<T>>, taken: nat)
    requires |chain| == |log| + 1
  {
    Owns(t, p, role) && Filled(p, next, val) && Linking(t, p, chain, log, taken) && SentOk(t, p, log)
  }

  /** Every missing link has a producer that is about to write it. */
  ghost predicate Awaited<T>(log: seq<Entry<T>>, producers: map<nat, Producer<T>>, p: nat)
    requires p < |log|
  {
    !log[p].linked ==>
      log[p].producer in producers && producers[log[p].producer].pc.Link? && producers[log[p].producer].pc.pos == p
  }

  ghost predicate Inv<T>(s: State<T>) {
    && s.role.Keys == s.next.Keys == s.val.Keys && s.cacheCap > 0
    && |s.chain| == |s.log| + 1 && s.taken <= |s.log|
    && (s.consumer.Recycle? && s.consumer.flushed > 0 ==> |s.cache| >= s.cacheCap)
    && ChainOk(s.chain, s.log, s.taken, s.head, s.tail, s.role)
    && LinksOk(s.chain, s.log, s.taken, s.next)
    && ValsOk(s.chain, s.log, Unread(s.consumer, s.taken), s.val)
    && SpareOk(s.pool, s.cache, Flushed(s.consumer), s.role)
    && ConsumerOk(s.consumer, s.chain, s.log, s.taken, s.role, s.delivered)
    && (forall p :: 0 <= p < |s.log| ==> Awaited(s.log, s.producers, p) && s.log[p].producer in s.producers)
    && (forall t :: t in s.producers ==> ProducerOk(t, s.producers[t], s.role, s.next, s.val, s.chain, s.log, s.taken))
  }

  lemma InitInv<T>(cacheCap: nat)
    requires cacheCap > 0
    ensures Inv(Init<T>(cacheCap))
  {
  }

  // ----- steps that change one node -------------------------------------------------------------

  /** Writing the next field of a node that is not live concerns only the producer that owns it. */
  lemma NextFrame<T>(s: State<T>, n: nat, v: Option<nat>)
    requires Inv(s) && n in s.role && !s.role[n].Live?
    ensures LinksOk(s.chain, s.log, s.taken, s.next[n := v])
    ensures forall u :: u in s.producers && !s.role[n].OwnedBy(u) ==>
              ProducerOk(u, s.producers[u], s.role, s.next[n := v], s.val, s.chain, s.log, s.taken)
  {
    hide ConsumerOk, SpareOk, ValsOk, Awaited, SentOk, Linking;
    assert forall p :: s.taken <= p <= |s.log| ==> s.chain[p] in s.next && s.chain[p] != n;
    forall u | u in s.producers && !s.role[n].OwnedBy(u)
      ensures ProducerOk(u, s.producers[u], s.role, s.next[n := v], s.val, s.chain, s.log, s.taken)
    {
      assert ProducerOk(u, s.producers[u], s.role, s.next, s.val, s.chain, s.log, s.taken);
    }
  }

  /** Writing the value of a node that is not live concerns only the producer that owns it. */
  lemma ValFrame<T>(s: State<T>, n: nat, v: Option<T>)
    requires Inv(s) && n in s.role && !s.role[n].Live?
    ensures ValsOk(s.chain, s.log, Unread(s.consumer, s.taken), s.val[n := v])
    ensures forall u :: u in s.producers && !s.role[n].OwnedBy(u) ==>
              ProducerOk(u, s.producers[u], s.role, s.next, s.val[n := v], s.chain, s.log, s.taken)
  {
    hide ConsumerOk, SpareOk, LinksOk, Awaited, SentOk, Linking;
    forall u | u in s.producers && !s.role[n].OwnedBy(u)
      ensures ProducerOk(u, s.producers[u], s.role, s.next, s.val[n := v], s.chain, s.log, s.taken)
    {
      assert ProducerOk(u, s.producers[u], s.role, s.next, s.val, s.chain, s.log, s.taken);
    }
  }

  /** Nodes whose purpose does not change keep the facts about them. */
  lemma RoleFrame<T>(s: State<T>, n: nat, r: Role)
    requires Inv(s) && !(n in s.role && s.role[n].Live?)
    ensures ChainOk(s.chain, s.log, s.taken, s.head, s.tail, s.role[n := r])
    ensures !(n in s.role && s.role[n] == Held) ==> ConsumerOk(s.consumer, s.chain, s.log, s.taken, s.role[n := r], s.delivered)
    ensures forall u :: u in s.producers && !(n in s.role && s.role[n].OwnedBy(u)) ==>
              ProducerOk(u, s.producers[u], s.role[n := r], s.next, s.val, s.chain, s.log, s.taken)
  {
    hide SpareOk, LinksOk, ValsOk, Awaited, SentOk, Linking, Filled;
    forall u | u in s.producers && !(n in s.role && s.role[n].OwnedBy(u))
      ensures ProducerOk(u, s.producers[u], s.role[n := r], s.next, s.val, s.chain, s.log, s.taken)
    {
      assert ProducerOk(u, s.producers[u], s.role, s.next, s.val, s.chain, s.log, s.taken);
    }
  }

  lemma SpareFrame<T>(s: State<T>, n: nat, r: Role)
    requires Inv(s) && !(n in s.role && (s.role[n].Cached? || s.role[n].Free?))
    ensures SpareOk(s.pool, s.cache, Flushed(s.consumer), s.role[n := r])
    ensures r == Free ==> SpareOk(s.pool + {n}, s.cache, Flushed(s.consumer), s.role[n := r])
  {
  }

  lemma FreshFrame<T>(s: State<T>, n: nat)
    requires Inv(s) && n !in s.next && n !in s.val
    ensures LinksOk(s.chain, s.log, s.taken, s.next[n := None])
    ensures ValsOk(s.chain, s.log, Unread(s.consumer, s.taken), s.val[n := None])
    ensures forall u :: u in s.producers ==> Filled(s.producers[u], s.next[n := None], s.val[n := None])
  {
    hide ConsumerOk, SpareOk, Awaited, SentOk, Linking, Owns;
    forall u | u in s.producers ensures Filled(s.producers[u], s.next[n := None], s.val[n := None]) {
      assert ProducerOk(u, s.producers[u], s.role, s.next, s.val, s.chain, s.log, s.taken);
    }
  }

  lemma AwaitedPut<T>(s: State<T>, t: nat, p: Producer<T>)
    requires Inv(s) && !Of(s, t).pc.Link?
    ensures var ps := s.producers[t := p]; forall q :: 0 <= q < |s.log| ==> Awaited(s.log, ps, q) && s.log[q].producer in ps
  {
    var ps := s.producers[t := p];
    hide ProducerOk;
    forall q | 0 <= q < |s.log| ensures Awaited(s.log, ps, q) && s.log[q].producer in ps {
      assert Awaited(s.log, s.producers, q);
    }
  }

  /** A step of `t` that touches only nodes, spares and its own record. */
  lemma Assemble<T>(s: State<T>, s': State<T>, t: nat)
    requires Inv(s) && !Of(s, t).pc.Link? && t in s'.producers
    requires s' == s.(next := s'.next, val := s'.val, pool := s'.pool, role := s'.role, producers := s.producers[t := s'.producers[t]])
    requires s'.role.Keys == s'.next.Keys == s'.val.Keys
    requires ChainOk(s.chain, s.log, s.taken, s.head, s.tail, s'.role)
    requires LinksOk(s.chain, s.log, s.taken, s'.next)
    requires ValsOk(s.chain, s.log, Unread(s.consumer, s.taken), s'.val)
    requires SpareOk(s'.pool, s.cache, Flushed(s.consumer), s'.role)
    requires ConsumerOk(s.consumer, s.chain, s.log, s.taken, s'.role, s.delivered)
    requires forall u :: u in s'.producers ==> ProducerOk(u, s'.producers[u], s'.role, s'.next, s'.val, s.chain, s.log, s.taken)
    ensures Inv(s')
  {
    AwaitedPut(s, t, s'.producers[t]);
    hide ConsumerOk, SpareOk, LinksOk, ValsOk, ChainOk, Awaited, ProducerOk;
  }

  /** A step that changes only what producer `t` remembers. */
  lemma LocalInv<T>(s: State<T>, t: nat, p: Producer<T>)
    requires Inv(s) && !Of(s, t).pc.Link?
    requires ProducerOk(t, p, s.role, s.next, s.val, s.chain, s.log, s.taken)
    ensures Inv(Put(s, t, p))
  {
    hide ConsumerOk, SpareOk, LinksOk, ValsOk, ChainOk, Awaited, ProducerOk;
    Assemble(s, Put(s, t, p), t);
  }

  lemma EnqueueInv<T>(s: State<T>, t: nat, items: seq<T>)
    requires Inv(s) && Of(s, t).pc.Idle? && items != []
    ensures Inv(Do(s, Enqueue(t, items)))
  {
    var p := Of(s, t).(pc := Check, items := items, built := [], undone := 0);
    NothingSent(s, t);
    assert Do(s, Enqueue(t, items)) == Put(s, t, p);
    hide Inv, SentBy, Do;
    LocalInv(s, t, p);
  }

  lemma NothingSent<T>(s: State<T>, t: nat)
    requires Inv(s)
    ensures SentOk(t, Of(s, t), s.log) && |s.chain| == |s.log| + 1
  {
    hide ConsumerOk, SpareOk, LinksOk, ValsOk, ChainOk, Owns, Filled, Linking, SentBy;
    if t !in s.producers { NotSent(s, t, s.log); }
  }

  /** A producer that never called has nothing in the log. */
  lemma {:induction false} NotSent<T>(s: State<T>, t: nat, log: seq<Entry<T>>)
    requires forall p :: 0 <= p < |log| ==> log[p].producer in s.producers
    requires t !in s.producers
    ensures SentBy(log, t) == []
    decreases |log|
  {
    if log != [] { NotSent(s, t, log[..|log| - 1]); }
  }

  lemma LookInv<T>(s: State<T>, t: nat)
    requires Inv(s) && t in s.producers
    requires var pc := s.producers[t].pc; pc.Check? || pc.Recheck? || pc.UndoNext?
    ensures Inv(Put(s, t, Looked(s, s.producers[t])))
  {
    var p := s.producers[t];
    assert ProducerOk(t, p, s.role, s.next, s.val, s.chain, s.log, s.taken);
    LookOk(t, p, Looked(s, p), s);
    hide Inv;
    LocalInv(s, t, Looked(s, p));
  }

  lemma LookOk<T>(t: nat, p: Producer<T>, p': Producer<T>, s: State<T>)
    requires |s.chain| == |s.log| + 1 && (p.pc.Check? || p.pc.Recheck? || p.pc.UndoNext?) && p' == Looked(s, p)
    requires ProducerOk(t, p, s.role, s.next, s.val, s.chain, s.log, s.taken)
    ensures ProducerOk(t, p', s.role, s.next, s.val, s.chain, s.log, s.taken)
  {
    hide SentBy, After, BuildOk, UndoOk;
    if p.pc.Recheck? { RollBackReady(p, s.next, s.val); }
    if p.pc.UndoNext? { UndoLooks(p, s.next); }
    if p'.pc.Get? { NothingBuilt(p', s.next, s.val); }
  }

  lemma NothingBuilt<T>(p: Producer<T>, next: map<nat, Option<nat>>, val: map<nat, Option<T>>)
    requires p.pc.Get? && p.built == [] && p.undone == 0 && p.items != []
    ensures BuildOk(p, next, val)
  {
  }

  lemma UndoLooks<T>(p: Producer<T>, next: map<nat, Option<nat>>)
    requires p.pc.UndoNext? && UndoOk(p, next)
    ensures p.pc.node in next && UndoOk(p.(pc := UndoVal(p.pc.node, next[p.pc.node])), next)
  {
  }

  /** A complete private list can be walked. */
  lemma RollBackReady<T>(p: Producer<T>, next: map<nat, Option<nat>>, val: map<nat, Option<T>>)
    requires p.pc.Recheck? && BuildOk(p, next, val)
    ensures p.built != [] && UndoOk(p.(pc := UndoNext(p.built[0])), next) && BuildOk(p.(pc := Swap), next, val)
  {
  }

  lemma GetOk<T>(t: nat, p: Producer<T>, s: State<T>, node: nat)
    requires |s.chain| == |s.log| + 1 && p.pc.Get? && ProducerOk(t, p, s.role, s.next, s.val, s.chain, s.log, s.taken)
    requires node in s.next && node in s.val && !(node in s.role && s.role[node].OwnedBy(t))
    ensures ProducerOk(t, p.(pc := SetVal, built := p.built + [node]), s.role[node := Private(t, |p.built|)],
                       s.next, s.val, s.chain, s.log, s.taken)
  {
    hide SentBy;
  }

  lemma TakeSpare<T>(s: State<T>, n: nat, r: Role)
    requires SpareOk(s.pool, s.cache, Flushed(s.consumer), s.role) && n in s.pool
    ensures n in s.role && s.role[n] == Free && SpareOk(s.pool - {n}, s.cache, Flushed(s.consumer), s.role[n := r])
  {
  }

  /** Get hands out a pooled node: it stops being spare and becomes private. */
  lemma GetPooledInv<T>(s: State<T>, t: nat, node: nat)
    requires Inv(s) && t in s.producers && s.producers[t].pc.Get? && node in s.pool
    ensures Inv(GetStep(s, t, s.producers[t], node))
  {
    hide ConsumerOk, SpareOk, LinksOk, ValsOk, ChainOk, Awaited, ProducerOk;
    var p := s.producers[t];
    var role' := s.role[node := Private(t, |p.built|)];
    TakeSpare(s, node, Private(t, |p.built|));
    assert ProducerOk(t, p, s.role, s.next, s.val, s.chain, s.log, s.taken);
    GetOk(t, p, s, node);
    RoleFrame(s, node, Private(t, |p.built|));
    Assemble(s, GetStep(s, t, p, node), t);
  }

  /** Get allocates a node nobody has seen: first as if it had always been there, then handed out. */
  lemma GetFreshInv<T>(s: State<T>, t: nat, node: nat)
    requires Inv(s) && t in s.producers && s.producers[t].pc.Get? && node !in s.next
    ensures Inv(GetStep(s, t, s.producers[t], node))
  {
    var s1 := s.(next := s.next[node := None], val := s.val[node := None], role := s.role[node := Free], pool := s.pool + {node});
    hide Inv, GetStep;
    NotYetUsed(s, node);
    SpareNewInv(s, node);
    GetPooledInv(s1, t, node);
    NewOrPooled(s, t, node);
  }

  lemma NewOrPooled<T>(s: State<T>, t: nat, node: nat)
    requires t in s.producers && node !in s.next && node !in s.val && node !in s.pool && node !in s.role
    ensures var s1 := s.(next := s.next[node := None], val := s.val[node := None], role := s.role[node := Free], pool := s.pool + {node});
            GetStep(s1, t, s.producers[t], node) == GetStep(s, t, s.producers[t], node)
  {
    assert s.pool + {node} - {node} == s.pool;
    assert s.role[node := Free][node := Private(t, |s.producers[t].built|)] == s.role[node := Private(t, |s.producers[t].built|)];
  }

  lemma NotYetUsed<T>(s: State<T>, node: nat)
    requires Inv(s) && node !in s.next
    ensures node !in s.val && node !in s.role && node !in s.pool
  {
    hide ConsumerOk, LinksOk, ValsOk, ChainOk, Awaited, ProducerOk;
  }

  lemma SpareNewInv<T>(s: State<T>, n: nat)
    requires Inv(s) && n !in s.next && n !in s.role && n !in s.val
    ensures Inv(s.(next := s.next[n := None], val := s.val[n := None], role := s.role[n := Free], pool := s.pool + {n}))
  {
    RoleFrame(s, n, Free);
    SpareFrame(s, n, Free);
    FreshFrame(s, n);
    var s' := s.(next := s.next[n := None], val := s.val[n := None], role := s.role[n := Free], pool := s.pool + {n});
    hide ConsumerOk, SpareOk, LinksOk, ValsOk, ChainOk, Awaited, SentOk, Linking, Filled, Owns;
  }

  // ----- writing private nodes ------------------------------------------------------------------

  lemma SetValOk<T>(t: nat, p: Producer<T>, s: State<T>)
    requires |s.chain| == |s.log| + 1 && p.pc.SetVal? && ProducerOk(t, p, s.role, s.next, s.val, s.chain, s.log, s.taken)
    ensures var i := |p.built|;
            && 0 < i <= |p.items| && p.built[i - 1] in s.role && s.role[p.built[i - 1]].OwnedBy(t)
            && ProducerOk(t, p.(pc := if i > 1 then Chain else if i < |p.items| then Get else EndNil), s.role, s.next,
                          s.val[p.built[i - 1] := Some(p.items[i - 1])], s.chain, s.log, s.taken)
  {
    hide SentBy;
  }

  lemma SetValInv<T>(s: State<T>, t: nat)
    requires Inv(s) && t in s.producers && s.producers[t].pc.SetVal?
    ensures Inv(SetValStep(s, t, s.producers[t]))
  {
    hide ConsumerOk, SpareOk, LinksOk, ValsOk, ChainOk, Awaited, ProducerOk;
    var p := s.producers[t];
    assert ProducerOk(t, p, s.role, s.next, s.val, s.chain, s.log, s.taken);
    SetValOk(t, p, s);
    ValFrame(s, p.built[|p.built| - 1], Some(p.items[|p.built| - 1]));
    Assemble(s, SetValStep(s, t, p), t);
  }

  lemma ChainStepOk<T>(t: nat, p: Producer<T>, s: State<T>)
    requires |s.chain| == |s.log| + 1 && p.pc.Chain? && ProducerOk(t, p, s.role, s.next, s.val, s.chain, s.log, s.taken)
    ensures var i := |p.built|;
            && i > 1 && p.built[i - 2] in s.role && s.role[p.built[i - 2]].OwnedBy(t)
            && ProducerOk(t, p.(pc := if i < |p.items| then Get else EndNil), s.role, s.next[p.built[i - 2] := Some(p.built[i - 1])],
                          s.val, s.chain, s.log, s.taken)
  {
    hide SentBy;
  }

  lemma ChainInv<T>(s: State<T>, t: nat)
    requires Inv(s) && t in s.producers && s.producers[t].pc.Chain?
    ensures Inv(ChainStep(s, t, s.producers[t]))
  {
    hide ConsumerOk, SpareOk, LinksOk, ValsOk, ChainOk, Awaited, ProducerOk;
    var p := s.producers[t];
    assert ProducerOk(t, p, s.role, s.next, s.val, s.chain, s.log, s.taken);
    ChainStepOk(t, p, s);
    NextFrame(s, p.built[|p.built| - 2], Some(p.built[|p.built| - 1]));
    Assemble(s, ChainStep(s, t, p), t);
  }

  lemma EndNilOk<T>(t: nat, p: Producer<T>, s: State<T>)
    requires |s.chain| == |s.log| + 1 && p.pc.EndNil? && ProducerOk(t, p, s.role, s.next, s.val, s.chain, s.log, s.taken)
    ensures var i := |p.built|;
            && i > 0 && p.built[i - 1] in s.role && s.role[p.built[i - 1]].OwnedBy(t)
            && ProducerOk(t, p.(pc := Recheck), s.role, s.next[p.built[i - 1] := None], s.val, s.chain, s.log, s.taken)
  {
    hide SentBy;
  }

  lemma EndNilInv<T>(s: State<T>, t: nat)
    requires Inv(s) && t in s.producers && s.producers[t].pc.EndNil?
    ensures Inv(EndNilStep(s, t, s.producers[t]))
  {
    hide ConsumerOk, SpareOk, LinksOk, ValsOk, ChainOk, Awaited, ProducerOk;
    var p := s.producers[t];
    assert ProducerOk(t, p, s.role, s.next, s.val, s.chain, s.log, s.taken);
    EndNilOk(t, p, s);
    NextFrame(s, p.built[|p.built| - 1], None);
    Assemble(s, EndNilStep(s, t, p), t);
  }

  lemma UndoValOk<T>(t: nat, p: Producer<T>, s: State<T>)
    requires |s.chain| == |s.log| + 1 && p.pc.UndoVal? && ProducerOk(t, p, s.role, s.next, s.val, s.chain, s.log, s.taken)
    ensures p.pc.node in s.role && s.role[p.pc.node].OwnedBy(t)
    ensures ProducerOk(t, p.(pc := UndoPut(p.pc.node, p.pc.rest)), s.role, s.next, s.val[p.pc.node := None], s.chain, s.log, s.taken)
  {
    hide SentBy, After, BuildOk;
  }

  lemma UndoPutOk<T>(t: nat, p: Producer<T>, s: State<T>)
    requires |s.chain| == |s.log| + 1 && p.pc.UndoPut? && ProducerOk(t, p, s.role, s.next, s.val, s.chain, s.log, s.taken)
    ensures p.pc.node in s.role && s.role[p.pc.node].OwnedBy(t)
    ensures ProducerOk(t, p.(undone := p.undone + 1, pc := if p.pc.rest.None? then Idle else UndoNext(p.pc.rest.value)),
                       s.role[p.pc.node := Free], s.next, s.val, s.chain, s.log, s.taken)
  {
    hide SentBy, BuildOk, After, UndoOk, Owns;
    assert Owns(t, p, s.role) && UndoOk(p, s.next);
    UndoSteps(t, p, s.role, s.next);
  }

  lemma UndoSteps<T>(t: nat, p: Producer<T>, role: map<nat, Role>, next: map<nat, Option<nat>>)
    requires p.pc.UndoPut? && Owns(t, p, role) && UndoOk(p, next)
    ensures p.pc.node in role && role[p.pc.node].OwnedBy(t)
    ensures var p' := p.(undone := p.undone + 1, pc := if p.pc.rest.None? then Idle else UndoNext(p.pc.rest.value));
            Owns(t, p', role[p.pc.node := Free]) && (p'.pc.UndoNext? ==> UndoOk(p', next))
  {
    assert p.pc.node == p.built[p.undone] && role[p.pc.node] == Private(t, p.undone);
    UndoWalks(p, next);
    hide UndoOk;
  }

  lemma UndoWalks<T>(p: Producer<T>, next: map<nat, Option<nat>>)
    requires p.pc.UndoPut? && UndoOk(p, next)
    ensures p.pc.rest == After(p.built, p.undone)
    ensures p.pc.rest.Some? ==> UndoOk(p.(undone := p.undone + 1, pc := UndoNext(p.pc.rest.value)), next)
  {
  }

  lemma UndoValInv<T>(s: State<T>, t: nat)
    requires Inv(s) && t in s.producers && s.producers[t].pc.UndoVal?
    ensures Inv(UndoValStep(s, t, s.producers[t]))
  {
    hide ConsumerOk, SpareOk, LinksOk, ValsOk, ChainOk, Awaited, ProducerOk;
    var p := s.producers[t];
    assert ProducerOk(t, p, s.role, s.next, s.val, s.chain, s.log, s.taken);
    UndoValOk(t, p, s);
    ValFrame(s, p.pc.node, None);
    Assemble(s, UndoValStep(s, t, p), t);
  }

  /** The roll-back of a stopped call returns its own nodes to the pool. */
  lemma UndoPutInv<T>(s: State<T>, t: nat)
    requires Inv(s) && t in s.producers && s.producers[t].pc.UndoPut?
    ensures Inv(UndoPutStep(s, t, s.producers[t]))
  {
    hide ConsumerOk, SpareOk, LinksOk, ValsOk, ChainOk, Awaited, ProducerOk;
    var p := s.producers[t];
    assert ProducerOk(t, p, s.role, s.next, s.val, s.chain, s.log, s.taken);
    UndoPutOk(t, p, s);
    RoleFrame(s, p.pc.node, Free);
    SpareFrame(s, p.pc.node, Free);
    Assemble(s, UndoPutStep(s, t, p), t);
  }

  // ----- swap and link --------------------------------------------------------------------------

  lemma {:induction false} SentByAppend<T>(log: seq<Entry<T>>, items: seq<T>, n: nat, t: nat, u: nat)
    requires n <= |items|
    ensures SentBy(log + Batch(items, t)[..n], u) == SentBy(log, u) + if u == t then items[..n] else []
  {
    var l := log + Batch(items, t)[..n];
    if n == 0 {
      assert l == log;
    } else {
      SentByAppend(log, items, n - 1, t, u);
      assert l[..|l| - 1] == log + Batch(items, t)[..n - 1] && l[|l| - 1] == Entry(items[n - 1], t, n > 1);
      hide Batch;
      assert items[..n] == items[..n - 1] + [items[n - 1]];
    }
  }

  lemma {:induction false} SentByLinked<T>(log: seq<Entry<T>>, pos: nat, u: nat)
    requires pos < |log|
    ensures SentBy(MarkLinked(log, pos), u) == SentBy(log, u)
    decreases |log|
  {
    var l := MarkLinked(log, pos);
    if pos == |log| - 1 {
      assert l[..|l| - 1] == log[..|log| - 1];
    } else {
      SentByLinked(log[..|log| - 1], pos, u);
      assert l[..|l| - 1] == MarkLinked(log[..|log| - 1], pos);
    }
  }

  lemma SwapChainOk<T>(s: State<T>, t: nat)
    requires t in s.producers && s.producers[t].built != [] && |s.producers[t].items| == |s.producers[t].built|
    requires ChainOk(s.chain, s.log, s.taken, s.head, s.tail, s.role)
    requires Building(s.producers[t]) && s.producers[t].undone == 0 && Owns(t, s.producers[t], s.role)
    ensures var s' := SwapHead(s, t); ChainOk(s'.chain, s'.log, s'.taken, s'.head, s'.tail, s'.role)
  {
    var p, s' := s.producers[t], SwapHead(s, t);
    assert |s'.chain| == |s'.log| + 1 && s'.chain == s.chain + p.built && s'.chain[|s'.log|] == s'.head;
    hide SwapHead, Batch;
    ChainAppend(s.chain, p.built, s.role, t, |s.log|, s.taken);
  }

  lemma ChainAppend(chain: seq<nat>, built: seq<nat>, role: map<nat, Role>, t: nat, n: nat, taken: nat)
    requires |chain| == n + 1 && taken <= n
    requires forall q :: taken <= q <= n ==> chain[q] in role && role[chain[q]] == Live(q)
    requires forall j :: 0 <= j < |built| ==> built[j] in role && role[built[j]] == Private(t, j)
    ensures var whole, role' := chain + built, Enlist(role, t, n + 1);
            forall q :: taken <= q <= n + |built| ==> whole[q] in role' && role'[whole[q]] == Live(q)
  {
    var whole, role' := chain + built, Enlist(role, t, n + 1);
    forall q | taken <= q <= n + |built| ensures whole[q] in role' && role'[whole[q]] == Live(q) {
      if q > n { assert whole[q] == built[q - n - 1]; }
    }
  }

  lemma SwapSpareOk<T>(s: State<T>, t: nat)
    requires t in s.producers && s.producers[t].built != [] && SpareOk(s.pool, s.cache, Flushed(s.consumer), s.role)
    requires Building(s.producers[t]) && s.producers[t].undone == 0 && Owns(t, s.producers[t], s.role)
    ensures var s' := SwapHead(s, t); SpareOk(s'.pool, s'.cache, Flushed(s'.consumer), s'.role)
  {
  }

  /** The private list about to be swapped in: linked from first to last, and ended. */
  lemma PrivateList<T>(p: Producer<T>, next: map<nat, Option<nat>>, val: map<nat, Option<T>>)
    requires p.pc.Swap? && BuildOk(p, next, val)
    ensures |p.built| == |p.items| > 0
    ensures forall j :: 0 <= j < |p.built| ==> p.built[j] in next && next[p.built[j]] == After(p.built, j)
    ensures forall j :: 0 <= j < |p.built| ==> p.built[j] in val && val[p.built[j]] == Some(p.items[j])
  {
  }

  lemma SwapLinksOk<T>(s: State<T>, t: nat)
    requires t in s.producers && s.producers[t].pc.Swap? && s.producers[t].built != [] && |s.chain| == |s.log| + 1
    requires s.taken <= |s.log| && BuildOk(s.producers[t], s.next, s.val) && LinksOk(s.chain, s.log, s.taken, s.next)
    ensures var s' := SwapHead(s, t); |s'.chain| == |s'.log| + 1 && LinksOk(s'.chain, s'.log, s'.taken, s'.next)
  {
    hide BuildOk;
    var p := s.producers[t];
    PrivateList(p, s.next, s.val);
    var s' := SwapHead(s, t);
    var m := |s.log| + 1;
    forall q | s'.taken <= q < |s'.log|
      ensures s'.chain[q] in s'.next && s'.next[s'.chain[q]] == if s'.log[q].linked then Some(s'.chain[q + 1]) else None
    {
      if q < |s.log| {
        assert s.next[s.chain[q]] == if s.log[q].linked then Some(s.chain[q + 1]) else None;
      } else if q >= m {
        assert s'.chain[q] == p.built[q - m];
        assert After(p.built, q - m) == Some(s'.chain[q + 1]);
      }
    }
    assert s'.chain[|s'.log|] == p.built[|p.built| - 1];
    hide After, SwapHead;
  }

  lemma SwapValsOk<T>(s: State<T>, t: nat)
    requires t in s.producers && s.producers[t].pc.Swap? && s.producers[t].built != [] && |s.chain| == |s.log| + 1
    requires BuildOk(s.producers[t], s.next, s.val) && ValsOk(s.chain, s.log, Unread(s.consumer, s.taken), s.val)
    ensures var s' := SwapHead(s, t); |s'.chain| == |s'.log| + 1 && ValsOk(s'.chain, s'.log, Unread(s'.consumer, s'.taken), s'.val)
  {
    hide ValsOk, After, SwapHead;
    var s', p := SwapHead(s, t), s.producers[t];
    PrivateList(p, s.next, s.val);
    SwapAppends(s, t);
    hide BuildOk;
    ValsAppend(s.chain, s.log, s'.chain, s'.log, p.built, p.items, Unread(s.consumer, s.taken), s.val);
  }

  lemma ValsAppend<T>(chain: seq<nat>, log: seq<Entry<T>>, chain': seq<nat>, log': seq<Entry<T>>, built: seq<nat>, items: seq<T>,
                      unread: nat, val: map<nat, Option<T>>)
    requires |chain| == |log| + 1 && chain' == chain + built && |log'| == |log| + |items| && |built| == |items|
    requires forall q :: 0 <= q < |log| ==> log'[q] == log[q]
    requires forall j :: 0 <= j < |items| ==> log'[|log| + j].item == items[j]
    requires forall j :: 0 <= j < |built| ==> built[j] in val && val[built[j]] == Some(items[j])
    requires ValsOk(chain, log, unread, val)
    ensures ValsOk(chain', log', unread, val)
  {
    forall q | unread < q <= |log'| ensures chain'[q] in val && val[chain'[q]] == Some(log'[q - 1].item) {
      if q > |log| {
        var j := q - |log| - 1;
        assert chain'[q] == built[j] && log'[|log| + j].item == items[j];
      }
    }
  }

  lemma SwapAppends<T>(s: State<T>, t: nat)
    requires t in s.producers && s.producers[t].built != []
    ensures var s', p := SwapHead(s, t), s.producers[t];
            && s'.chain == s.chain + p.built && |s'.log| == |s.log| + |p.items| && (forall q :: 0 <= q < |s.log| ==> s'.log[q] == s.log[q])
            && (forall j :: 0 <= j < |p.items| ==> s'.log[|s.log| + j].item == p.items[j])
            && s'.val == s.val && s'.taken == s.taken && s'.consumer == s.consumer
  {
    hide Enlist;
  }

  lemma SwapConsumerOk<T>(s: State<T>, t: nat)
    requires t in s.producers && s.producers[t].built != [] && |s.chain| == |s.log| + 1 && s.taken <= |s.log|
    requires |s.producers[t].items| == |s.producers[t].built|
    requires ConsumerOk(s.consumer, s.chain, s.log, s.taken, s.role, s.delivered)
    ensures var s' := SwapHead(s, t); ConsumerOk(s'.consumer, s'.chain, s'.log, s'.taken, s'.role, s'.delivered)
  {
    var s' := SwapHead(s, t);
    assert s'.log[..s.taken] == s.log[..s.taken];
    if s.taken < |s.log| { assert s'.log[..s.taken + 1] == s.log[..s.taken + 1]; }
  }

  lemma SwapAwaited<T>(s: State<T>, t: nat)
    requires Inv(s) && t in s.producers && s.producers[t].pc.Swap? && s.producers[t].built != []
    ensures var s' := SwapHead(s, t);
            forall q :: 0 <= q < |s'.log| ==> Awaited(s'.log, s'.producers, q) && s'.log[q].producer in s'.producers
  {
    var s' := SwapHead(s, t);
    hide ConsumerOk, SpareOk, LinksOk, ValsOk, ProducerOk;
    forall q | 0 <= q < |s'.log| ensures Awaited(s'.log, s'.producers, q) && s'.log[q].producer in s'.producers {
      if q < |s.log| { assert Awaited(s.log, s.producers, q); }
    }
  }

  /** The swapping producer: its items are in the log, and the link before them is its to write. */
  lemma SwapperOk<T>(s: State<T>, t: nat)
    requires t in s.producers && s.producers[t].pc.Swap? && s.producers[t].built != [] && |s.producers[t].items| == |s.producers[t].built|
    requires ChainOk(s.chain, s.log, s.taken, s.head, s.tail, s.role) && SentOk(t, s.producers[t], s.log)
    ensures var s' := SwapHead(s, t);
            |s'.chain| == |s'.log| + 1 && ProducerOk(t, s'.producers[t], s'.role, s'.next, s'.val, s'.chain, s'.log, s'.taken)
  {
    hide SentBy;
    var p, s' := s.producers[t], SwapHead(s, t);
    assert SentBy(s'.log, t) == p.sent + p.items by {
      SentByAppend(s.log, p.items, |p.items|, t, t);
      assert Batch(p.items, t)[..|p.items|] == Batch(p.items, t) && p.items[..|p.items|] == p.items;
    }
    assert s'.producers[t].pc.Link? && s'.producers[t].items == p.items && s'.producers[t].sent == p.sent;
    assert Linking(t, s'.producers[t], s'.chain, s'.log, s'.taken);
    hide Linking, ChainOk, SwapHead;
  }

  lemma SwapOtherOk<T>(s: State<T>, t: nat, u: nat)
    requires t in s.producers && s.producers[t].built != [] && |s.producers[t].items| == |s.producers[t].built|
    requires |s.chain| == |s.log| + 1 && u in s.producers && u != t
    requires ProducerOk(u, s.producers[u], s.role, s.next, s.val, s.chain, s.log, s.taken)
    ensures var s' := SwapHead(s, t);
            |s'.chain| == |s'.log| + 1 && ProducerOk(u, s'.producers[u], s'.role, s'.next, s'.val, s'.chain, s'.log, s'.taken)
  {
    var p := s.producers[t];
    SentByAppend(s.log, p.items, |p.items|, t, u);
    assert Batch(p.items, t)[..|p.items|] == Batch(p.items, t);
    hide SentBy, Filled;
  }

  /** What a producer about to swap has built. */
  lemma Complete<T>(s: State<T>, t: nat)
    requires Inv(s) && t in s.producers && s.producers[t].pc.Swap?
    ensures var p := s.producers[t]; p.built != [] && |p.items| == |p.built| && p.undone == 0
    ensures var p := s.producers[t]; Owns(t, p, s.role) && BuildOk(p, s.next, s.val) && SentOk(t, p, s.log)
  {
    hide ConsumerOk, SpareOk, LinksOk, ValsOk, Awaited, ChainOk, Linking, SentOk, Owns;
    assert ProducerOk(t, s.producers[t], s.role, s.next, s.val, s.chain, s.log, s.taken);
  }

  lemma SwapInv<T>(s: State<T>, t: nat)
    requires Inv(s) && t in s.producers && s.producers[t].pc.Swap?
    ensures s.producers[t].built != [] && Inv(SwapHead(s, t))
  {
    hide ConsumerOk, SpareOk, LinksOk, ValsOk, Awaited, ProducerOk, ChainOk, BuildOk, Owns, SentOk;
    Complete(s, t);
    var s' := SwapHead(s, t);
    SwapChainOk(s, t);
    SwapSpareOk(s, t);
    SwapLinksOk(s, t);
    SwapValsOk(s, t);
    SwapConsumerOk(s, t);
    SwapAwaited(s, t);
    SwapperOk(s, t);
    assert s'.role.Keys == s.role.Keys;
    forall u | u in s'.producers
      ensures ProducerOk(u, s'.producers[u], s'.role, s'.next, s'.val, s'.chain, s'.log, s'.taken)
    {
      if u != t { SwapOtherOk(s, t, u); }
    }
  }

  /** The pending link is the only thing its writer changes, and nobody else writes it. */
  lemma LinkFacts<T>(s: State<T>, t: nat)
    requires Inv(s) && t in s.producers && s.producers[t].pc.Link?
    ensures var pc := s.producers[t].pc;
            && s.taken <= pc.pos < |s.log| && !s.log[pc.pos].linked && s.log[pc.pos].producer == t
            && s.chain[pc.pos] == pc.prev && s.chain[pc.pos + 1] == pc.first
    ensures s.producers[t].pc.prev in s.role && s.role[s.producers[t].pc.prev] == Live(s.producers[t].pc.pos)
  {
    hide ConsumerOk, SpareOk, LinksOk, ValsOk, Awaited, SentOk, Filled, Owns;
    assert ProducerOk(t, s.producers[t], s.role, s.next, s.val, s.chain, s.log, s.taken);
  }

  lemma LinkLinksOk<T>(s: State<T>, pos: nat)
    requires ChainOk(s.chain, s.log, s.taken, s.head, s.tail, s.role) && LinksOk(s.chain, s.log, s.taken, s.next)
    requires s.taken <= pos < |s.log| && !s.log[pos].linked
    ensures LinksOk(s.chain, MarkLinked(s.log, pos), s.taken, s.next[s.chain[pos] := Some(s.chain[pos + 1])])
  {
    assert forall q :: s.taken <= q <= |s.log| && q != pos ==> s.chain[q] != s.chain[pos];
  }

  /** Setting a link changes no place and no item. */
  lemma LinkKeepsRest<T>(s: State<T>, pos: nat)
    requires |s.chain| == |s.log| + 1 && pos < |s.log|
    requires ChainOk(s.chain, s.log, s.taken, s.head, s.tail, s.role) && ValsOk(s.chain, s.log, Unread(s.consumer, s.taken), s.val)
    ensures ChainOk(s.chain, MarkLinked(s.log, pos), s.taken, s.head, s.tail, s.role)
    ensures ValsOk(s.chain, MarkLinked(s.log, pos), Unread(s.consumer, s.taken), s.val)
  {
  }

  lemma LinkConsumerOk<T>(s: State<T>, pos: nat)
    requires |s.chain| == |s.log| + 1 && s.taken <= |s.log| && ConsumerOk(s.consumer, s.chain, s.log, s.taken, s.role, s.delivered)
    ensures |MarkLinked(s.log, pos)| == |s.log|
    ensures ConsumerOk(s.consumer, s.chain, MarkLinked(s.log, pos), s.taken, s.role, s.delivered)
  {
    var log' := MarkLinked(s.log, pos);
    assert ItemsOf(log'[..s.taken]) == ItemsOf(s.log[..s.taken]);
    if s.taken < |s.log| { assert ItemsOf(log'[..s.taken + 1]) == ItemsOf(s.log[..s.taken + 1]); }
  }

  /** The other producers' nodes are not live, and their pending links are elsewhere. */
  lemma LinkOtherOk<T>(s: State<T>, t: nat, pos: nat, u: nat, next': map<nat, Option<nat>>)
    requires |s.chain| == |s.log| + 1 && u in s.producers && u != t && pos < |s.log| && s.log[pos].producer == t
    requires s.chain[pos] in s.role && s.role[s.chain[pos]].Live? && next' == s.next[s.chain[pos] := Some(s.chain[pos + 1])]
    requires ProducerOk(u, s.producers[u], s.role, s.next, s.val, s.chain, s.log, s.taken)
    ensures ProducerOk(u, s.producers[u], s.role, next', s.val, s.chain, MarkLinked(s.log, pos), s.taken)
  {
    SentByLinked(s.log, pos, u);
    hide SentBy;
  }

  lemma LinkerOk<T>(s: State<T>, t: nat)
    requires |s.chain| == |s.log| + 1 && t in s.producers && s.producers[t].pc.Link? && s.producers[t].pc.pos < |s.log|
    requires ProducerOk(t, s.producers[t], s.role, s.next, s.val, s.chain, s.log, s.taken)
    ensures var s' := LinkStep(s, t, s.producers[t]);
            ProducerOk(t, s'.producers[t], s'.role, s'.next, s'.val, s'.chain, s'.log, s'.taken)
  {
    SentByLinked(s.log, s.producers[t].pc.pos, t);
    hide SentBy;
  }

  lemma LinkAwaited<T>(s: State<T>, t: nat)
    requires Inv(s) && t in s.producers && s.producers[t].pc.Link?
    ensures var s' := LinkStep(s, t, s.producers[t]);
            forall q :: 0 <= q < |s'.log| ==> Awaited(s'.log, s'.producers, q) && s'.log[q].producer in s'.producers
  {
    LinkFacts(s, t);
    var s' := LinkStep(s, t, s.producers[t]);
    hide ConsumerOk, SpareOk, LinksOk, ValsOk, ProducerOk;
    forall q | 0 <= q < |s'.log| ensures Awaited(s'.log, s'.producers, q) && s'.log[q].producer in s'.producers {
      assert Awaited(s.log, s.producers, q);
    }
  }

  lemma LinkInv<T>(s: State<T>, t: nat)
    requires Inv(s) && t in s.producers && s.producers[t].pc.Link?
    ensures Inv(LinkStep(s, t, s.producers[t]))
  {
    hide ConsumerOk, SpareOk, LinksOk, ValsOk, Awaited, ProducerOk, ChainOk;
    var s' := LinkStep(s, t, s.producers[t]);
    LinkFacts(s, t);
    LinkLinksOk(s, s.producers[t].pc.pos);
    LinkKeepsRest(s, s.producers[t].pc.pos);
    LinkConsumerOk(s, s.producers[t].pc.pos);
    LinkAwaited(s, t);
    LinkerOk(s, t);
    assert s'.next.Keys == s.next.Keys;
    forall u | u in s'.producers
      ensures ProducerOk(u, s'.producers[u], s'.role, s'.next, s'.val, s'.chain, s'.log, s'.taken)
    {
      if u != t { LinkOtherOk(s, t, s.producers[t].pc.pos, u, s'.next); }
    }
  }

  lemma ProduceInv<T>(s: State<T>, t: nat, node: nat)
    requires Inv(s)
    ensures Inv(ProducerStep(s, t, node))
  {
    if t in s.producers {
      var p := s.producers[t];
      assert s.next.Keys == s.val.Keys;
      hide Inv;
      match p.pc
      case Idle =>
      case Check => LookInv(s, t);
      case Recheck => LookInv(s, t);
      case UndoNext(_) => LookInv(s, t);
      case Get =>
        if node in s.pool && Allocated(s, node) { GetPooledInv(s, t, node); }
        else if node !in s.next && node !in s.val { GetFreshInv(s, t, node); }
      case SetVal => SetValInv(s, t);
      case Chain => ChainInv(s, t);
      case EndNil => EndNilInv(s, t);
      case Swap => SwapInv(s, t);
      case Link(_, _, _) => LinkInv(s, t);
      case UndoVal(_, _) => UndoValInv(s, t);
      case UndoPut(_, _) => UndoPutInv(s, t);
    }
  }

  // ----- the consumer ---------------------------------------------------------------------------

  /** A consumer step that writes nothing shared. */
  lemma ConsumerLocalInv<T>(s: State<T>, c: Consumer<T>, delivered': seq<T>)
    requires Inv(s) && Unread(s.consumer, s.taken) <= Unread(c, s.taken) && Flushed(c) == Flushed(s.consumer) && !c.Recycle?
    requires |s.chain| == |s.log| + 1 && s.taken <= |s.log| && ConsumerOk(c, s.chain, s.log, s.taken, s.role, delivered')
    ensures Inv(s.(consumer := c, delivered := delivered'))
  {
    hide ConsumerOk, SpareOk, LinksOk, Awaited, ProducerOk, ChainOk;
  }

  lemma LoadNextInv<T>(s: State<T>)
    requires Inv(s) && s.consumer.LoadNext?
    ensures Inv(ConsumerStep(s))
  {
    hide SpareOk, Awaited, ProducerOk, ValsOk;
    var got, limit := s.consumer.got, s.consumer.limit;
    if s.next[s.tail].None? {
      ConsumerLocalInv(s, Resting, s.delivered + got);
    } else {
      ConsumerLocalInv(s, ReadVal(got, limit, s.next[s.tail].value), s.delivered);
    }
  }

  lemma ReadValOk<T>(s: State<T>)
    requires Inv(s) && s.consumer.ReadVal?
    ensures s.taken < |s.log| && s.consumer.next in s.val && s.val[s.consumer.next] == Some(s.log[s.taken].item)
    ensures ConsumerOk(ZeroVal(s.consumer.got + [s.log[s.taken].item], s.consumer.limit, s.consumer.next),
                       s.chain, s.log, s.taken, s.role, s.delivered)
  {
    hide SpareOk, Awaited, ProducerOk, LinksOk, ChainOk;
    assert ItemsOf(s.log[..s.taken + 1]) == ItemsOf(s.log[..s.taken]) + [s.log[s.taken].item];
  }

  lemma ReadValInv<T>(s: State<T>)
    requires Inv(s) && s.consumer.ReadVal?
    ensures Inv(ConsumerStep(s))
  {
    ReadValOk(s);
    hide ConsumerOk, SpareOk, LinksOk, Awaited, ProducerOk, ChainOk, ValsOk;
    ConsumerLocalInv(s, ZeroVal(s.consumer.got + [s.log[s.taken].item], s.consumer.limit, s.consumer.next), s.delivered);
  }

  /** Clearing the value just read: its node is live but its value is not needed any more. */
  lemma ZeroValOk<T>(s: State<T>)
    requires |s.chain| == |s.log| + 1 && s.taken <= |s.log| && s.consumer.ZeroVal?
    requires ChainOk(s.chain, s.log, s.taken, s.head, s.tail, s.role) && ValsOk(s.chain, s.log, s.taken, s.val)
    requires ConsumerOk(s.consumer, s.chain, s.log, s.taken, s.role, s.delivered)
    ensures s.consumer.next in s.role && s.role[s.consumer.next] == Live(s.taken + 1)
    ensures ValsOk(s.chain, s.log, s.taken + 1, s.val[s.consumer.next := None])
    ensures ConsumerOk(StoreTail(s.consumer.got, s.consumer.limit, s.consumer.next), s.chain, s.log, s.taken, s.role, s.delivered)
  {
  }

  lemma LiveValOther<T>(s: State<T>, n: nat, u: nat)
    requires |s.chain| == |s.log| + 1 && u in s.producers && n in s.role && s.role[n].Live?
    requires ProducerOk(u, s.producers[u], s.role, s.next, s.val, s.chain, s.log, s.taken)
    ensures ProducerOk(u, s.producers[u], s.role, s.next, s.val[n := None], s.chain, s.log, s.taken)
  {
    hide SentOk, Linking;
  }

  lemma ZeroValInv<T>(s: State<T>)
    requires Inv(s) && s.consumer.ZeroVal?
    ensures Inv(ConsumerStep(s))
  {
    hide ConsumerOk, SpareOk, LinksOk, Awaited, ProducerOk, ChainOk, ValsOk;
    ZeroValOk(s);
    var s' := ConsumerStep(s);
    assert s'.val.Keys == s.val.Keys;
    forall u | u in s.producers
      ensures ProducerOk(u, s.producers[u], s.role, s.next, s'.val, s.chain, s.log, s.taken)
    {
      LiveValOther(s, s.consumer.next, u);
    }
  }

  /** The consumer leaves its sentinel behind: the link it followed is written, so no producer needs that node. */
  lemma StoreTailOk<T>(s: State<T>)
    requires |s.chain| == |s.log| + 1 && s.taken <= |s.log| && s.consumer.StoreTail?
    requires ChainOk(s.chain, s.log, s.taken, s.head, s.tail, s.role) && LinksOk(s.chain, s.log, s.taken, s.next)
    requires ConsumerOk(s.consumer, s.chain, s.log, s.taken, s.role, s.delivered) && SpareOk(s.pool, s.cache, 0, s.role)
    ensures var s' := ConsumerStep(s);
            && |s'.chain| == |s'.log| + 1 && s'.taken <= |s'.log|
            && ChainOk(s'.chain, s'.log, s'.taken, s'.head, s'.tail, s'.role) && LinksOk(s'.chain, s'.log, s'.taken, s'.next)
            && ConsumerOk(s'.consumer, s'.chain, s'.log, s'.taken, s'.role, s'.delivered)
            && SpareOk(s'.pool, s'.cache, 0, s'.role) && s.log[s.taken].linked && s.tail in s.role && s.role[s.tail].Live?
  {
  }

  lemma StoreTailOther<T>(s: State<T>, u: nat)
    requires |s.chain| == |s.log| + 1 && s.taken < |s.log| && s.log[s.taken].linked && u in s.producers
    requires s.tail in s.role && s.role[s.tail].Live?
    requires ProducerOk(u, s.producers[u], s.role, s.next, s.val, s.chain, s.log, s.taken)
    ensures ProducerOk(u, s.producers[u], s.role[s.tail := Held], s.next, s.val, s.chain, s.log, s.taken + 1)
  {
    hide SentOk, Filled;
  }

  lemma StoreTailInv<T>(s: State<T>)
    requires Inv(s) && s.consumer.StoreTail?
    ensures Inv(ConsumerStep(s))
  {
    hide ConsumerOk, SpareOk, LinksOk, Awaited, ProducerOk, ChainOk, ValsOk;
    StoreTailOk(s);
    var s' := ConsumerStep(s);
    assert s'.role.Keys == s.role.Keys;
    forall u | u in s.producers
      ensures ProducerOk(u, s.producers[u], s'.role, s.next, s.val, s.chain, s.log, s'.taken)
    {
      StoreTailOther(s, u);
    }
  }

  lemma CutNextInv<T>(s: State<T>)
    requires Inv(s) && s.consumer.CutNext?
    ensures Inv(ConsumerStep(s))
  {
    hide ConsumerOk, SpareOk, LinksOk, Awaited, ProducerOk, ChainOk, ValsOk;
    CutConsumerOk(s);
    NextFrame(s, s.consumer.spent, None);
    assert ConsumerStep(s).next.Keys == s.next.Keys;
  }

  lemma CutValInv<T>(s: State<T>)
    requires Inv(s) && s.consumer.CutVal?
    ensures Inv(ConsumerStep(s))
  {
    hide ConsumerOk, SpareOk, LinksOk, Awaited, ProducerOk, ChainOk, ValsOk;
    CutConsumerOk(s);
    ValFrame(s, s.consumer.spent, None);
    assert ConsumerStep(s).val.Keys == s.val.Keys;
  }

  lemma CutConsumerOk<T>(s: State<T>)
    requires |s.chain| == |s.log| + 1 && s.taken <= |s.log| && (s.consumer.CutNext? || s.consumer.CutVal?)
    requires ConsumerOk(s.consumer, s.chain, s.log, s.taken, s.role, s.delivered)
    ensures s.consumer.spent in s.role && s.role[s.consumer.spent] == Held
    ensures ConsumerOk(ConsumerStep(s).consumer, s.chain, s.log, s.taken, s.role, s.delivered)
  {
  }

  /** Flushing hands one cached node after the other to the pool. */
  lemma FlushOk<T>(s: State<T>, k: nat)
    requires |s.chain| == |s.log| + 1 && s.taken <= |s.log| && k < |s.cache| && SpareOk(s.pool, s.cache, k, s.role)
    ensures s.cache[k] in s.role && s.role[s.cache[k]] == Cached(k)
    ensures SpareOk(s.pool + {s.cache[k]}, s.cache, k + 1, s.role[s.cache[k] := Free])
  {
  }

  lemma FlushConsumerOk<T>(s: State<T>, n: nat, c: Consumer<T>)
    requires |s.chain| == |s.log| + 1 && s.taken <= |s.log| && ConsumerOk(s.consumer, s.chain, s.log, s.taken, s.role, s.delivered)
    requires n in s.role && s.role[n].Cached?
    requires match s.consumer
             case Flush(k) => c == Flush(k + 1)
             case Recycle(got, limit, spent, k) => c == Recycle(got, limit, spent, k + 1)
             case _ => false
    ensures ConsumerOk(c, s.chain, s.log, s.taken, s.role[n := Free], s.delivered)
  {
  }

  lemma FlushInv<T>(s: State<T>, k: nat, c: Consumer<T>)
    requires Inv(s) && k == Flushed(s.consumer) < |s.cache|
    requires match s.consumer
             case Flush(_) => c == Flush(k + 1)
             case Recycle(got, limit, spent, _) => c == Recycle(got, limit, spent, k + 1) && |s.cache| >= s.cacheCap
             case _ => false
    ensures Inv(FlushStep(s, k, c))
  {
    hide ConsumerOk, SpareOk, LinksOk, Awaited, ProducerOk, ChainOk, ValsOk;
    var n := s.cache[k];
    FlushOk(s, k);
    FlushConsumerOk(s, n, c);
    RoleFrame(s, n, Free);
  }

  lemma FlushDoneInv<T>(s: State<T>)
    requires Inv(s) && s.consumer.Flush? && s.consumer.flushed == |s.cache|
    ensures Inv(ConsumerStep(s))
  {
    assert SpareOk(s.pool, [], 0, s.role);
    hide LinksOk, Awaited, ProducerOk, ChainOk, ValsOk, SpareOk;
  }

  lemma KeepSpareOk<T>(s: State<T>, spent: nat)
    requires spent in s.role && s.role[spent] == Held
    ensures SpareOk(s.pool, s.cache, 0, s.role) ==> SpareOk(s.pool, s.cache + [spent], 0, s.role[spent := Cached(|s.cache|)])
    ensures SpareOk(s.pool, s.cache, |s.cache|, s.role) ==> SpareOk(s.pool, [spent], 0, s.role[spent := Cached(0)])
  {
  }

  lemma KeepConsumerOk<T>(s: State<T>, role': map<nat, Role>)
    requires s.consumer.Recycle? && |s.chain| == |s.log| + 1 && s.taken <= |s.log|
    requires ConsumerOk(s.consumer, s.chain, s.log, s.taken, s.role, s.delivered)
    ensures s.consumer.spent in s.role && s.role[s.consumer.spent] == Held
    ensures |s.consumer.got| < s.consumer.limit ==>
              ConsumerOk(LoadNext(s.consumer.got, s.consumer.limit), s.chain, s.log, s.taken, role', s.delivered)
    ensures ConsumerOk(Resting, s.chain, s.log, s.taken, role', s.delivered + s.consumer.got)
  {
  }

  lemma KeepInv<T>(s: State<T>)
    requires Inv(s) && s.consumer.Recycle? && (|s.cache| < s.cacheCap || s.consumer.flushed == |s.cache|)
    ensures Inv(KeepStep(s, s.consumer.got, s.consumer.limit, s.consumer.spent))
  {
    hide ConsumerOk, SpareOk, LinksOk, Awaited, ProducerOk, ChainOk, ValsOk;
    var spent := s.consumer.spent;
    var r := Cached(if |s.cache| < s.cacheCap then |s.cache| else 0);
    KeepConsumerOk(s, s.role[spent := r]);
    KeepSpareOk(s, spent);
    RoleFrame(s, spent, r);
  }

  lemma ConsumeInv<T>(s: State<T>)
    requires Inv(s)
    ensures Inv(ConsumerStep(s))
  {
    hide Inv, ConsumerStep;
    match s.consumer
    case LoadNext(_, _) => LoadNextInv(s);
    case ReadVal(_, _, _) => ReadValInv(s);
    case ZeroVal(_, _, _) => ZeroValInv(s);
    case StoreTail(_, _, _) => StoreTailInv(s);
    case CutNext(_, _, _) => CutNextInv(s);
    case CutVal(_, _, _) => CutValInv(s);
    case _ => SpareInv(s);
  }

  lemma SpareInv<T>(s: State<T>)
    requires Inv(s) && (s.consumer.Resting? || s.consumer.Recycle? || s.consumer.Flush?)
    ensures Inv(ConsumerStep(s))
  {
    assert SpareOk(s.pool, s.cache, Flushed(s.consumer), s.role);
    hide Inv, FlushStep, KeepStep;
    match s.consumer
    case Recycle(got, limit, spent, k) =>
      if |s.cache| < s.cacheCap || k == |s.cache| { KeepInv(s); }
      else { FlushInv(s, k, Recycle(got, limit, spent, k + 1)); }
    case Flush(k) =>
      if k < |s.cache| { FlushInv(s, k, Flush(k + 1)); } else { FlushDoneInv(s); }
    case _ =>
  }

  /** Every action of every thread keeps the invariant. */
  lemma DoInv<T>(s: State<T>, a: Action<T>)
    requires Inv(s)
    ensures Inv(Do(s, a))
  {
    match a
    case Enqueue(t, items) => hide Inv; if Of(s, t).pc.Idle? && items != [] { EnqueueInv(s, t, items); }
    case Produce(t, node) => hide Inv; ProduceInv(s, t, node);
    case Consume => hide Inv; ConsumeInv(s);
    case _ => OtherInv(s, a);
  }

  lemma OtherInv<T>(s: State<T>, a: Action<T>)
    requires Inv(s) && (a.Dequeue? || a.Shrink? || a.StopEnqueue? || a.Collect?)
    ensures Inv(Do(s, a))
  {
    if a.Collect? { assert SpareOk(s.pool - {a.node}, s.cache, Flushed(s.consumer), s.role); }
    hide SpareOk, LinksOk, Awaited, ProducerOk, ChainOk, ValsOk;
  }

  lemma {:induction false} ExecInv<T>(s: State<T>, acts: seq<Action<T>>)
    requires Inv(s)
    ensures Inv(Exec(s, acts))
    decreases |acts|
  {
    if acts != [] {
      DoInv(s, acts[0]);
      hide Inv;
      ExecInv(Do(s, acts[0]), acts[1..]);
    }
  }

  // ----- main results ---------------------------------------------------------------------------

  /** A state that some schedule reaches from an empty queue. */
  ghost predicate Reachable<T(!new)>(s: State<T>) {
    exists acts: seq<Action<T>>, cacheCap: nat :: cacheCap > 0 && s == Exec(Init(cacheCap), acts)
  }

  lemma ReachableInv<T(!new)>(s: State<T>)
    requires Reachable(s)
    ensures Inv(s)
  {
    var acts: seq<Action<T>>, cacheCap: nat :| cacheCap > 0 && s == Exec(Init(cacheCap), acts);
    InitInv<T>(cacheCap);
    ExecInv(Init(cacheCap), acts);
  }

  /** Items come out in the order of the head swaps; `delivered` together with what the running call
      has in hand is exactly the consumed part of the log. */
  lemma DeliversInSwapOrder<T(!new)>(s: State<T>)
    requires Reachable(s)
    ensures |s.delivered| <= |s.log| && s.delivered == ItemsOf(s.log)[..|s.delivered|]
    ensures s.consumer.Resting? ==> |s.delivered| == s.taken
  {
    hide Inv;
    ReachableInv(s);
    InvConsumerOk(s);
    DeliveredPrefix(s.consumer, s.chain, s.log, s.taken, s.role, s.delivered);
  }

  lemma InvConsumerOk<T>(s: State<T>)
    requires Inv(s)
    ensures |s.chain| == |s.log| + 1 && s.taken <= |s.log|
    ensures ConsumerOk(s.consumer, s.chain, s.log, s.taken, s.role, s.delivered)
  {
    hide SpareOk, LinksOk, Awaited, ProducerOk, ChainOk, ValsOk, ConsumerOk;
  }

  lemma DeliveredPrefix<T>(c: Consumer<T>, chain: seq<nat>, log: seq<Entry<T>>, taken: nat, role: map<nat, Role>, delivered: seq<T>)
    requires |chain| == |log| + 1 && taken <= |log| && ConsumerOk(c, chain, log, taken, role, delivered)
    ensures |delivered| <= |log| && delivered == ItemsOf(log)[..|delivered|]
    ensures c.Resting? ==> |delivered| == taken
  {
    var m := if c.ZeroVal? || c.StoreTail? then taken + 1 else taken;
    assert exists got :: delivered + got == ItemsOf(log[..m]) by {
      if c.Resting? || c.Flush? { assert delivered + [] == ItemsOf(log[..m]); } else { assert delivered + c.got == ItemsOf(log[..m]); }
    }
    assert ItemsOf(log)[..m] == ItemsOf(log[..m]);
  }

  /** A producer's items are in the log in the order it enqueued them: those of its completed calls,
      and those of the call it has swapped in but not linked yet. */
  lemma SentExactlyOnce<T(!new)>(s: State<T>, t: nat)
    requires Reachable(s) && t in s.producers
    ensures SentBy(s.log, t) == s.producers[t].sent + if s.producers[t].pc.Link? then s.producers[t].items else []
  {
    ReachableInv(s);
    assert ProducerOk(t, s.producers[t], s.role, s.next, s.val, s.chain, s.log, s.taken);
  }

  /** A position whose link is missing is one whose producer stalls between its swap and its link. With
      no such producer before it, an item is reachable from tail by next pointers, with its value in place. */
  lemma NothingLost<T(!new)>(s: State<T>, p: nat)
    requires Reachable(s) && Unread(s.consumer, s.taken) <= p < |s.log|
    requires var t := s.log[p].producer; t in s.producers ==> !s.producers[t].pc.Link?
    ensures |s.chain| == |s.log| + 1 && s.taken <= |s.log|
    ensures s.chain[p] in s.next && s.next[s.chain[p]] == Some(s.chain[p + 1])
    ensures s.chain[p + 1] in s.val && s.val[s.chain[p + 1]] == Some(s.log[p].item)
    ensures s.chain[s.taken] == s.tail && s.chain[|s.log|] == s.head
  {
    ReachableInv(s);
    hide ProducerOk, SpareOk, ConsumerOk;
    assert Awaited(s.log, s.producers, p);
    assert s.next[s.chain[p]] == if s.log[p].linked then Some(s.chain[p + 1]) else None;
  }

  /** Dequeue finds the queue empty exactly when the next item is missing or its link is not written yet;
      otherwise it goes on to the next item of the log. This one load decides what Dequeue returns. */
  lemma DequeueSeesHead<T(!new)>(s: State<T>)
    requires Reachable(s) && s.consumer.LoadNext?
    ensures s.taken <= |s.log|
    ensures Do(s, Consume).consumer.Resting? <==> (s.taken == |s.log| || !s.log[s.taken].linked)
    ensures !Do(s, Consume).consumer.Resting? ==>
              var c := Do(s, Consume).consumer;
              c.ReadVal? && c.next in s.val && s.val[c.next] == Some(s.log[s.taken].item)
  {
    ReachableInv(s);
    hide Reachable, Awaited, ProducerOk, SpareOk, ConsumerOk;
    HeadLinked(s);
    hide ChainOk, LinksOk, ValsOk, Inv;
  }

  lemma HeadLinked<T>(s: State<T>)
    requires |s.chain| == |s.log| + 1 && s.taken <= |s.log| && ChainOk(s.chain, s.log, s.taken, s.head, s.tail, s.role)
    requires LinksOk(s.chain, s.log, s.taken, s.next) && ValsOk(s.chain, s.log, s.taken, s.val)
    ensures s.tail in s.next && (s.next[s.tail].None? <==> (s.taken == |s.log| || !s.log[s.taken].linked))
    ensures s.next[s.tail].Some? ==> s.next[s.tail].value in s.val && s.val[s.next[s.tail].value] == Some(s.log[s.taken].item)
  {
    assert s.tail == s.chain[s.taken];
    if s.taken < |s.log| {
      assert s.next[s.chain[s.taken]] == if s.log[s.taken].linked then Some(s.chain[s.taken + 1]) else None;
      assert s.chain[s.taken + 1] in s.val;
    }
  }

  /** A call that sees the stop flag at its second check gives back every node it took, each once. */
  lemma RollbackIsComplete<T(!new)>(s: State<T>, t: nat, node: nat)
    requires Reachable(s) && t in s.producers && s.producers[t].pc.UndoPut?
    ensures var p := s.producers[t];
            && Do(s, Produce(t, node)) == UndoPutStep(s, t, p)
            && p.pc.node !in s.pool && p.undone < |p.built| && p.pc.node == p.built[p.undone]
            && (UndoPutStep(s, t, p).producers[t].pc.Idle? <==> p.undone + 1 == |p.built|)
  {
    hide Inv, Reachable, GetStep, SetValStep, ChainStep, EndNilStep, SwapHead, LinkStep, UndoValStep, Looked, ConsumerStep, ProducerOk;
    ReachableInv(s);
    InvProducerOk(s, t);
    PutBackOk(s.producers[t], t, s.pool, s.role, s.next, s.val, s.chain, s.log, s.taken);
  }

  lemma InvProducerOk<T>(s: State<T>, t: nat)
    requires Inv(s) && t in s.producers
    ensures |s.chain| == |s.log| + 1 && ProducerOk(t, s.producers[t], s.role, s.next, s.val, s.chain, s.log, s.taken)
    ensures forall n :: n in s.pool ==> n in s.role && s.role[n] == Free
  {
    hide Awaited, LinksOk, ValsOk, ConsumerOk, ChainOk, ProducerOk;
  }

  lemma PutBackOk<T>(p: Producer<T>, t: nat, pool: set<nat>, role: map<nat, Role>, next: map<nat, Option<nat>>,
                     val: map<nat, Option<T>>, chain: seq<nat>, log: seq<Entry<T>>, taken: nat)
    requires |chain| == |log| + 1 && ProducerOk(t, p, role, next, val, chain, log, taken) && p.pc.UndoPut?
    requires forall n :: n in pool ==> n in role && role[n] == Free
    ensures p.undone < |p.built| && p.pc.node == p.built[p.undone] && p.pc.node !in pool
    ensures p.pc.rest.None? <==> p.undone + 1 == |p.built|
  {
    hide SentOk, Linking;
  }

  /** A node that Get may hand out, or that waits in the consumer's cache. */
  ghost predicate Spare<T>(s: State<T>, n: nat) {
    n in s.pool || n !in s.next || exists k :: Flushed(s.consumer) <= k < |s.cache| && s.cache[k] == n
  }

  /** Reuse is safe: a spare node is not the head, not on the live chain, not the node a stalled producer
      will still write, not the first node of its batch, and not in the hands of a producer or the consumer. */
  lemma SpareNodesAreFree<T(!new)>(s: State<T>, n: nat)
    requires Reachable(s) && Spare(s, n)
    ensures |s.chain| == |s.log| + 1 && s.taken <= |s.log|
    ensures n != s.head && n != s.tail && (forall p :: s.taken <= p <= |s.log| ==> s.chain[p] != n)
    ensures forall t :: t in s.producers && s.producers[t].pc.Link? ==> s.producers[t].pc.prev != n && s.producers[t].pc.first != n
    ensures forall t, j :: t in s.producers && Building(s.producers[t]) && 0 <= j < |s.producers[t].built| ==> s.producers[t].built[j] != n
    ensures s.consumer.CutNext? || s.consumer.CutVal? || s.consumer.Recycle? ==> s.consumer.spent != n
  {
    ReachableInv(s);
    assert !(n in s.role && (s.role[n].Live? || s.role[n].Private? || s.role[n].Held?));
    SpareNotUsed(s, n);
  }

  lemma SpareNotUsed<T>(s: State<T>, n: nat)
    requires Inv(s) && !(n in s.role && (s.role[n].Live? || s.role[n].Private? || s.role[n].Held?))
    ensures n != s.head && n != s.tail && (forall p :: s.taken <= p <= |s.log| ==> s.chain[p] != n)
    ensures forall t :: t in s.producers && s.producers[t].pc.Link? ==> s.producers[t].pc.prev != n && s.producers[t].pc.first != n
    ensures forall t, j :: t in s.producers && Building(s.producers[t]) && 0 <= j < |s.producers[t].built| ==> s.producers[t].built[j] != n
    ensures s.consumer.CutNext? || s.consumer.CutVal? || s.consumer.Recycle? ==> s.consumer.spent != n
  {
    hide SpareOk, LinksOk, ValsOk, Awaited, SentOk;
    forall t | t in s.producers
      ensures s.producers[t].pc.Link? ==> s.producers[t].pc.prev != n && s.producers[t].pc.first != n
      ensures Building(s.producers[t]) ==> forall j :: 0 <= j < |s.producers[t].built| ==> s.producers[t].built[j] != n
    {
      assert ProducerOk(t, s.producers[t], s.role, s.next, s.val, s.chain, s.log, s.taken);
    }
  }

  /** After StopEnqueue the only calls that can still put anything in are those already past their second
      check: any other step leaves the enqueued items as they are. */
  lemma StoppedStaysStopped<T>(s: State<T>, a: Action<T>)
    requires s.stopped
    ensures Do(s, a).stopped
    ensures ItemsOf(Do(s, a).log) != ItemsOf(s.log) ==> a.Produce? && a.t in s.producers && s.producers[a.t].pc.Swap?
    ensures forall t :: t in Do(s, a).producers && Do(s, a).producers[t].pc.Swap? ==>
              t in s.producers && s.producers[t].pc.Swap?
  {
    hide ProducerStep, ConsumerStep;
    match a
    case Produce(t, node) => ProducerWhenStopped(s, t, node);
    case Consume => ConsumerKeepsLog(s);
    case _ =>
  }

  lemma ProducerWhenStopped<T>(s: State<T>, t: nat, node: nat)
    requires s.stopped
    ensures ProducerStep(s, t, node).stopped
    ensures ItemsOf(ProducerStep(s, t, node).log) != ItemsOf(s.log) ==> t in s.producers && s.producers[t].pc.Swap?
    ensures forall u :: u in ProducerStep(s, t, node).producers && ProducerStep(s, t, node).producers[u].pc.Swap? ==>
              u in s.producers && s.producers[u].pc.Swap?
  {
    if t in s.producers {
      var p := s.producers[t];
      if p.pc.Link? {
        assert ItemsOf(MarkLinked(s.log, p.pc.pos)) == ItemsOf(s.log);
      } else if p.pc.Swap? {
        hide ItemsOf, Batch;
      } else {
        hide ItemsOf, Batch, SwapHead;
        QuietProducer(s, t, node);
      }
    }
  }

  predicate Quiet<T(==)>(s: State<T>, s': State<T>, t: nat) {
    && s'.stopped == s.stopped && s'.log == s.log && t in s'.producers
    && s'.producers == s.producers[t := s'.producers[t]] && !s'.producers[t].pc.Swap?
  }

  lemma QuietProducer<T>(s: State<T>, t: nat, node: nat)
    requires s.stopped && t in s.producers && !s.producers[t].pc.Swap? && !s.producers[t].pc.Link?
    ensures Quiet(s, ProducerStep(s, t, node), t)
  {
    hide Quiet, Looked, Put, GetStep, SetValStep, ChainStep, EndNilStep, UndoValStep, UndoPutStep;
    var p := s.producers[t];
    match p.pc
    case Idle => QuietIdle(s, t);
    case Get => QuietGet(s, t, p, node);
    case SetVal => QuietSetVal(s, t, p);
    case Chain => QuietChain(s, t, p);
    case EndNil => QuietEndNil(s, t, p);
    case UndoVal(_, _) => QuietUndo(s, t, p);
    case UndoPut(_, _) => QuietUndo(s, t, p);
    case _ => QuietLook(s, t);
  }

  lemma QuietIdle<T>(s: State<T>, t: nat)
    requires t in s.producers && !s.producers[t].pc.Swap?
    ensures Quiet(s, s, t)
  {
  }

  lemma QuietLook<T>(s: State<T>, t: nat)
    requires s.stopped && t in s.producers && !s.producers[t].pc.Swap?
    ensures Quiet(s, Put(s, t, Looked(s, s.producers[t])), t)
  {
  }

  lemma QuietGet<T>(s: State<T>, t: nat, p: Producer<T>, node: nat)
    requires t in s.producers && s.producers[t] == p && !p.pc.Swap?
    ensures Quiet(s, GetStep(s, t, p, node), t)
  {
  }

  lemma QuietSetVal<T>(s: State<T>, t: nat, p: Producer<T>)
    requires t in s.producers && s.producers[t] == p && !p.pc.Swap?
    ensures Quiet(s, SetValStep(s, t, p), t)
  {
  }

  lemma QuietChain<T>(s: State<T>, t: nat, p: Producer<T>)
    requires t in s.producers && s.producers[t] == p && !p.pc.Swap?
    ensures Quiet(s, ChainStep(s, t, p), t)
  {
  }

  lemma QuietEndNil<T>(s: State<T>, t: nat, p: Producer<T>)
    requires t in s.producers && s.producers[t] == p && !p.pc.Swap?
    ensures Quiet(s, EndNilStep(s, t, p), t)
  {
  }

  lemma QuietUndo<T>(s: State<T>, t: nat, p: Producer<T>)
    requires t in s.producers && s.producers[t] == p
    ensures p.pc.UndoVal? ==> Quiet(s, UndoValStep(s, t, p), t)
    ensures p.pc.UndoPut? ==> Quiet(s, UndoPutStep(s, t, p), t)
  {
  }

  lemma ConsumerKeepsLog<T>(s: State<T>)
    ensures ConsumerStep(s).log == s.log && ConsumerStep(s).producers == s.producers && ConsumerStep(s).stopped == s.stopped
  {
    hide LoadNextStep, ReadValStep, KeepStep;
    match s.consumer
    case LoadNext(got, limit) => LoadKeepsLog(s, got, limit);
    case ReadVal(got, limit, n) => ReadKeepsLog(s, got, limit, n);
    case Recycle(got, limit, spent, _) => KeepKeepsLog(s, got, limit, spent);
    case _ =>
  }

  lemma LoadKeepsLog<T>(s: State<T>, got: seq<T>, limit: nat)
    ensures var r := LoadNextStep(s, got, limit); r.log == s.log && r.producers == s.producers && r.stopped == s.stopped
  {
  }

  lemma ReadKeepsLog<T>(s: State<T>, got: seq<T>, limit: nat, n: nat)
    ensures var r := ReadValStep(s, got, limit, n); r.log == s.log && r.producers == s.producers && r.stopped == s.stopped
  {
  }

  lemma KeepKeepsLog<T>(s: State<T>, got: seq<T>, limit: nat, spent: nat)
    ensures var r := KeepStep(s, got, limit, spent); r.log == s.log && r.producers == s.producers && r.stopped == s.stopped
  {
  }
}
