/**
 Shared sending: `BaseChannel.Send` puts a message in the channel's mailbox and, on the way from idle to
 active, hands the channel to one of a few workers (`znet/shared_send_workers.go`, `znet/channel.go`).
 A step machine over all interleavings of any number of senders and workers, while the channels are open
 and the workers run. The mailboxes and the workers' queues are linked queues as proved in LinkedMpsc:
 an entry gets its place by the swap of head, becomes visible when its producer links it, and the consumer
 takes the first entry if that is linked.
 */
module SharedSend {
  import opened Prelude

  datatype Cell<M> = Cell(msg: M, from: nat, linked: bool)

  /** Who will look at the mailbox again: history only, no step reads it. */
  datatype Holder = Nobody | Sender(t: nat) | Queue(pos: nat) | Worker

  /** `log` is the mailbox since creation, its first `taken` messages dequeued; `written` went to the connection.
      `holder` and `awaited` are history. */
  datatype Channel<M> = Channel(log: seq<Cell<M>>, taken: nat, pending: bool, written: seq<M>, holder: Holder, awaited: nat)

  /** A channel in a worker's queue, put there by a sender, or by the worker itself when its turn is over. */
  datatype Token = Token(ch: nat, from: Option<nat>, linked: bool)

  datatype Pc<M> =
    | Wait
    | Pop
    | Drain(c: nat, got: seq<M>, used: nat, quota: nat)
    | Process(c: nat, got: seq<M>, used: nat, quota: nat)
    | ClearPending(c: nat, used: nat, quota: nat)
    | Recheck(c: nat, used: nat, quota: nat)
    | SetPending(c: nat, got: seq<M>, used: nat, quota: nat)
    | Requeue(c: nat)
    | RequeueLink(c: nat, pos: nat)
    | RequeueWake

  /** `notifier` is history. */
  datatype Shard<M> = Shard(tokens: seq<Token>, popped: nat, wakeup: bool, worker: Pc<M>, notifier: nat)

  datatype Sending<M> =
    | Idle
    | Swap(c: nat, msg: M)
    | Link(c: nat, pos: nat)
    | Cas(c: nat, pos: nat)
    | HookSwap(c: nat)
    | HookLink(c: nat, pos: nat)
    | Wake(c: nat, pos: nat)

  /** `ids` are the channel ids; a channel belongs to the shard of its id modulo the number of shards. */
  datatype State<M> = State(ids: seq<nat>, maxBatch: nat, channels: seq<Channel<M>>, shards: seq<Shard<M>>,
                            senders: map<nat, Sending<M>>)

  /** `tuning` is the configured number of batches per turn, which may change at any time. */
  datatype Action<M> =
    | Send(t: nat, c: nat, msg: M)
    | Step(t: nat)
    | Work(k: nat, tuning: int)

  function Init<M>(ids: seq<nat>, maxBatch: nat, shards: nat): State<M> {
    State(ids, maxBatch, seq(|ids|, i => Channel([], 0, false, [], Nobody, 0)),
          seq(shards, i => Shard([], 0, false, Wait, 0)), map[])
  }

  predicate WellShaped<M>(s: State<M>) {
    s.maxBatch > 0 && |s.shards| > 0 && |s.ids| == |s.channels|
  }

  function Route(id: nat, n: nat): (k: nat)
    requires n > 0
    ensures k < n
  {
    id % n
  }

  function ShardOf<M>(s: State<M>, c: nat): (k: nat)
    requires WellShaped(s) && c < |s.channels|
    ensures k < |s.shards|
  {
    Route(s.ids[c], |s.shards|)
  }

  function Quota(tuning: int): (q: nat)
    ensures q > 0
  {
    if tuning <= 0 then 8 else tuning
  }

  function Of<M>(senders: map<nat, Sending<M>>, t: nat): Sending<M> {
    if t in senders then senders[t] else Idle
  }

  /** The first message, if there is one and its producer has linked it. */
  predicate Available<M>(ch: Channel<M>) {
    ch.taken < |ch.log| && ch.log[ch.taken].linked
  }

  // ----- Send -----------------------------------------------------------------------------------

  function SwapStep<M>(s: State<M>, t: nat, c: nat, m: M): State<M>
    requires WellShaped(s) && c < |s.channels|
  {
    var ch := s.channels[c];
    s.(channels := s.channels[c := ch.(log := ch.log + [Cell(m, t, false)], awaited := |ch.log|)],
       senders := s.senders[t := Link(c, |ch.log|)])
  }

  function LinkStep<M>(s: State<M>, t: nat, c: nat, pos: nat): State<M>
    requires WellShaped(s) && c < |s.channels|
  {
    var ch := s.channels[c];
    if pos >= |ch.log| then s else
    s.(channels := s.channels[c := ch.(log := ch.log[pos := ch.log[pos].(linked := true)])], senders := s.senders[t := Cas(c, pos)])
  }

  /** From idle to active: only the sender that sets the flag calls the hook. */
  function CasStep<M>(s: State<M>, t: nat, c: nat): State<M>
    requires WellShaped(s) && c < |s.channels|
  {
    var ch := s.channels[c];
    if ch.pending then s.(senders := s.senders[t := Idle])
    else s.(channels := s.channels[c := ch.(pending := true, holder := Sender(t))], senders := s.senders[t := HookSwap(c)])
  }

  function HookSwapStep<M>(s: State<M>, t: nat, c: nat): State<M>
    requires WellShaped(s) && c < |s.channels|
  {
    var k := ShardOf(s, c);
    var sh := s.shards[k];
    s.(channels := s.channels[c := s.channels[c].(holder := Queue(|sh.tokens|))],
       shards := s.shards[k := sh.(tokens := sh.tokens + [Token(c, Some(t), false)], notifier := |sh.tokens|)],
       senders := s.senders[t := HookLink(c, |sh.tokens|)])
  }

  function HookLinkStep<M>(s: State<M>, t: nat, c: nat, pos: nat): State<M>
    requires WellShaped(s) && c < |s.channels|
  {
    var k := ShardOf(s, c);
    var sh := s.shards[k];
    if pos >= |sh.tokens| then s else
    s.(shards := s.shards[k := sh.(tokens := sh.tokens[pos := sh.tokens[pos].(linked := true)])], senders := s.senders[t := Wake(c, pos)])
  }

  /** The wakeup channel has room for one signal and the send does not block. */
  function WakeStep<M>(s: State<M>, t: nat, c: nat): State<M>
    requires WellShaped(s) && c < |s.channels|
  {
    var k := ShardOf(s, c);
    s.(shards := s.shards[k := s.shards[k].(wakeup := true)], senders := s.senders[t := Idle])
  }

  function SenderStep<M>(s: State<M>, t: nat): State<M>
    requires WellShaped(s)
  {
    var p := Of(s.senders, t);
    if p.Idle? || p.c >= |s.channels| then s else
    match p
    case Swap(c, m) => SwapStep(s, t, c, m)
    case Link(c, pos) => LinkStep(s, t, c, pos)
    case Cas(c, _) => CasStep(s, t, c)
    case HookSwap(c) => HookSwapStep(s, t, c)
    case HookLink(c, pos) => HookLinkStep(s, t, c, pos)
    case Wake(c, _) => WakeStep(s, t, c)
  }

  // ----- worker ---------------------------------------------------------------------------------

  function SetWorker<M>(s: State<M>, k: nat, w: Pc<M>): State<M>
    requires k < |s.shards|
  {
    s.(shards := s.shards[k := s.shards[k].(worker := w)])
  }

  /** Blocked on the wakeup channel unless a signal is there. */
  function WaitStep<M>(s: State<M>, k: nat): State<M>
    requires k < |s.shards|
  {
    if s.shards[k].wakeup then s.(shards := s.shards[k := s.shards[k].(wakeup := false, worker := Pop)]) else s
  }

  /** Take the next channel of the queue; a missing or unlinked token ends the round. */
  function PopStep<M>(s: State<M>, k: nat, tuning: int): State<M>
    requires WellShaped(s) && k < |s.shards|
  {
    var sh := s.shards[k];
    if sh.popped < |sh.tokens| && sh.tokens[sh.popped].linked then
      var c := sh.tokens[sh.popped].ch;
      if c >= |s.channels| then s else
      s.(shards := s.shards[k := sh.(popped := sh.popped + 1, worker := Drain(c, [], 0, Quota(tuning)))],
         channels := s.channels[c := s.channels[c].(holder := Worker)])
    else s.(shards := s.shards[k := sh.(worker := Wait, notifier := sh.popped)])
  }

  /** DequeueBatch, one message a step. */
  function DrainStep<M>(s: State<M>, k: nat, w: Pc<M>): State<M>
    requires k < |s.shards| && w.Drain? && w.c < |s.channels|
  {
    var ch := s.channels[w.c];
    if |w.got| < s.maxBatch && Available(ch) then
      SetWorker(s, k, Drain(w.c, w.got + [ch.log[ch.taken].msg], w.used, w.quota)).(channels := s.channels[w.c := ch.(taken := ch.taken + 1)])
    else SetWorker(s, k, if w.got == [] then ClearPending(w.c, w.used, w.quota) else Process(w.c, w.got, w.used, w.quota))
  }

  function ProcessStep<M>(s: State<M>, k: nat, w: Pc<M>): State<M>
    requires k < |s.shards| && w.Process? && w.c < |s.channels|
  {
    SetWorker(s, k, if w.used + 1 >= w.quota then Requeue(w.c) else Drain(w.c, [], w.used + 1, w.quota))
      .(channels := s.channels[w.c := s.channels[w.c].(written := s.channels[w.c].written + w.got)])
  }

  function ClearStep<M>(s: State<M>, k: nat, w: Pc<M>): State<M>
    requires k < |s.shards| && w.ClearPending? && w.c < |s.channels|
  {
    SetWorker(s, k, Recheck(w.c, w.used, w.quota)).(channels := s.channels[w.c := s.channels[w.c].(pending := false, holder := Nobody)])
  }

  /** After clearing the flag the worker looks once more for a single message. */
  function RecheckStep<M>(s: State<M>, k: nat, w: Pc<M>): State<M>
    requires k < |s.shards| && w.Recheck? && w.c < |s.channels|
  {
    var ch := s.channels[w.c];
    if Available(ch) then
      SetWorker(s, k, SetPending(w.c, [ch.log[ch.taken].msg], w.used, w.quota))
        .(channels := s.channels[w.c := ch.(taken := ch.taken + 1, holder := Worker)])
    else SetWorker(s, k, Pop).(channels := s.channels[w.c := ch.(awaited := ch.taken)])
  }

  function SetStep<M>(s: State<M>, k: nat, w: Pc<M>): State<M>
    requires k < |s.shards| && w.SetPending? && w.c < |s.channels|
  {
    SetWorker(s, k, Process(w.c, w.got, w.used, w.quota)).(channels := s.channels[w.c := s.channels[w.c].(pending := true, holder := Worker)])
  }

  /** The turn is over: back to the end of the worker's own queue. */
  function RequeueStep<M>(s: State<M>, k: nat, c: nat): State<M>
    requires k < |s.shards| && c < |s.channels|
  {
    var sh := s.shards[k];
    s.(shards := s.shards[k := sh.(tokens := sh.tokens + [Token(c, None, false)], worker := RequeueLink(c, |sh.tokens|))],
       channels := s.channels[c := s.channels[c].(holder := Queue(|sh.tokens|))])
  }

  function RequeueLinkStep<M>(s: State<M>, k: nat, pos: nat): State<M>
    requires k < |s.shards|
  {
    var sh := s.shards[k];
    if pos >= |sh.tokens| then s else
    s.(shards := s.shards[k := sh.(tokens := sh.tokens[pos := sh.tokens[pos].(linked := true)], worker := RequeueWake)])
  }

  function RequeueWakeStep<M>(s: State<M>, k: nat): State<M>
    requires k < |s.shards|
  {
    s.(shards := s.shards[k := s.shards[k].(wakeup := true, worker := Pop)])
  }

  function FlushStep<M>(s: State<M>, k: nat, w: Pc<M>): State<M>
    requires k < |s.shards| && !w.Wait? && !w.Pop? && !w.RequeueLink? && !w.RequeueWake? && w.c < |s.channels|
  {
    match w
    case Drain(_, _, _, _) => DrainStep(s, k, w)
    case Process(_, _, _, _) => ProcessStep(s, k, w)
    case ClearPending(_, _, _) => ClearStep(s, k, w)
    case Recheck(_, _, _) => RecheckStep(s, k, w)
    case SetPending(_, _, _, _) => SetStep(s, k, w)
    case Requeue(c) => RequeueStep(s, k, c)
  }

  function WorkerStep<M>(s: State<M>, k: nat, tuning: int): State<M>
    requires WellShaped(s) && k < |s.shards|
  {
    var w := s.shards[k].worker;
    match w
    case Wait => WaitStep(s, k)
    case Pop => PopStep(s, k, tuning)
    case RequeueLink(_, pos) => RequeueLinkStep(s, k, pos)
    case RequeueWake => RequeueWakeStep(s, k)
    case _ => if w.c < |s.channels| then FlushStep(s, k, w) else s
  }

  function Do<M>(s: State<M>, a: Action<M>): (r: State<M>)
    requires WellShaped(s)
    ensures r.ids == s.ids && r.maxBatch == s.maxBatch && |r.channels| == |s.channels| && |r.shards| == |s.shards|
  {
    match a
    case Send(t, c, m) =>
      if Of(s.senders, t).Idle? && c < |s.channels| then s.(senders := s.senders[t := Swap(c, m)]) else s
    case Step(t) => SenderStep(s, t)
    case Work(k, tuning) => if k < |s.shards| then WorkerStep(s, k, tuning) else s
  }

  /** Run a whole schedule. */
  function Exec<M>(s: State<M>, acts: seq<Action<M>>): (r: State<M>)
    requires WellShaped(s)
    ensures WellShaped(r)
    decreases |acts|
  {
    if acts == [] then s else Exec(Do(s, acts[0]), acts[1..])
  }

  // ----- invariant ------------------------------------------------------------------------------

  function MsgsOf<M>(log: seq<Cell<M>>): (r: seq<M>)
    ensures |r| == |log|
    ensures forall i :: 0 <= i < |log| ==> r[i] == log[i].msg
  {
    seq(|log|, i requires 0 <= i < |log| => log[i].msg)
  }

  /** The worker is busy with channel `c` and will look at its mailbox again before it leaves it. */
  predicate Active<M>(w: Pc<M>, c: nat) {
    (w.Drain? || w.Process? || w.ClearPending? || w.SetPending? || w.Requeue?) && w.c == c
  }

  predicate On<M>(w: Pc<M>, c: nat) {
    Active(w, c) || (w.Recheck? && w.c == c)
  }

  predicate Busy<M>(w: Pc<M>) {
    w.Drain? || w.Process? || w.ClearPending? || w.SetPending? || w.Requeue? || w.Recheck?
  }

  /** Messages of `c` the worker has dequeued but not written. */
  function InHand<M>(w: Pc<M>, c: nat): seq<M> {
    if (w.Drain? || w.Process? || w.SetPending?) && w.c == c then w.got else []
  }

  /** An unlinked message has a sender about to link it. */
  ghost predicate MailOk<M>(c: nat, log: seq<Cell<M>>, taken: nat, senders: map<nat, Sending<M>>) {
    && taken <= |log| && (forall p :: 0 <= p < taken ==> log[p].linked)
    && (forall p :: 0 <= p < |log| && !log[p].linked ==> Of(senders, log[p].from) == Link(c, p))
  }

  /** What was written, together with what the worker holds, is what was dequeued, in mailbox order. */
  ghost predicate FlowOk<M>(c: nat, ch: Channel<M>, w: Pc<M>) {
    ch.taken <= |ch.log| && ch.written + InHand(w, c) == MsgsOf(ch.log[..ch.taken])
  }

  ghost predicate HolderOk<M>(c: nat, h: Holder, sh: Shard<M>, senders: map<nat, Sending<M>>) {
    match h
    case Nobody => false
    case Sender(t) => Of(senders, t) == HookSwap(c)
    case Queue(pos) => sh.popped <= pos < |sh.tokens| && sh.tokens[pos].ch == c
    case Worker => Active(sh.worker, c)
  }

  /** The sender of position `awaited` has still to try the pending flag. */
  ghost predicate AwaitedOk<M>(c: nat, ch: Channel<M>, senders: map<nat, Sending<M>>) {
    && ch.awaited < |ch.log|
    && var p := Of(senders, ch.log[ch.awaited].from); p == Link(c, ch.awaited) || p == Cas(c, ch.awaited)
  }

  /** A set flag, and a message in the mailbox, always mean that somebody will come and look. */
  ghost predicate WatchedOk<M>(c: nat, ch: Channel<M>, sh: Shard<M>, senders: map<nat, Sending<M>>) {
    && (ch.pending ==> HolderOk(c, ch.holder, sh, senders))
    && (ch.taken < |ch.log| ==>
          HolderOk(c, ch.holder, sh, senders) || (sh.worker.Recheck? && sh.worker.c == c) || AwaitedOk(c, ch, senders))
  }

  ghost predicate ChannelOk<M>(c: nat, ch: Channel<M>, sh: Shard<M>, senders: map<nat, Sending<M>>) {
    && MailOk(c, ch.log, ch.taken, senders) && FlowOk(c, ch, sh.worker) && WatchedOk(c, ch, sh, senders)
  }

  /** An unlinked token has somebody about to link it; tokens are routed by channel id. */
  ghost predicate TokensOk<M>(k: nat, n: nat, ids: seq<nat>, sh: Shard<M>, senders: map<nat, Sending<M>>)
    requires n > 0
  {
    && sh.popped <= |sh.tokens|
    && (forall p :: 0 <= p < |sh.tokens| ==> sh.tokens[p].ch < |ids| && Route(ids[sh.tokens[p].ch], n) == k)
    && (forall p :: 0 <= p < sh.popped ==> sh.tokens[p].linked)
    && (forall p :: 0 <= p < |sh.tokens| && !sh.tokens[p].linked ==>
          match sh.tokens[p].from
          case None => sh.worker == RequeueLink(sh.tokens[p].ch, p)
          case Some(t) => Of(senders, t) == HookLink(sh.tokens[p].ch, p))
  }

  /** A waiting worker with something in its queue has a wakeup signal, now or soon. */
  ghost predicate WakeOk<M>(sh: Shard<M>, senders: map<nat, Sending<M>>) {
    sh.worker.Wait? && sh.popped < |sh.tokens| ==>
      || sh.wakeup
      || (&& sh.notifier < |sh.tokens| && sh.tokens[sh.notifier].from.Some?
          && var p := Of(senders, sh.tokens[sh.notifier].from.value);
             p == HookLink(sh.tokens[sh.notifier].ch, sh.notifier) || p == Wake(sh.tokens[sh.notifier].ch, sh.notifier))
  }

  /** A worker handles only the channels of its shard. */
  ghost predicate WorkerOk<M>(k: nat, n: nat, ids: seq<nat>, maxBatch: nat, sh: Shard<M>)
    requires n > 0
  {
    var w := sh.worker;
    && (!w.Wait? && !w.Pop? && !w.RequeueWake? ==> w.c < |ids| && Route(ids[w.c], n) == k)
    && (w.Drain? ==> |w.got| <= maxBatch) && (w.Process? || w.SetPending? ==> 0 < |w.got| <= maxBatch)
    && (w.RequeueLink? ==> w.pos < |sh.tokens|)
  }

  ghost predicate ShardOk<M>(k: nat, n: nat, ids: seq<nat>, maxBatch: nat, sh: Shard<M>, senders: map<nat, Sending<M>>)
    requires n > 0
  {
    TokensOk(k, n, ids, sh, senders) && WakeOk(sh, senders) && WorkerOk(k, n, ids, maxBatch, sh)
  }

  ghost predicate SenderOk<M>(t: nat, p: Sending<M>, s: State<M>)
    requires WellShaped(s)
  {
    && (!p.Idle? ==> p.c < |s.channels|)
    && match p
       case Link(c, pos) => pos < |s.channels[c].log| && s.channels[c].log[pos].from == t
       case Cas(c, pos) => pos < |s.channels[c].log| && s.channels[c].log[pos].from == t
       case HookLink(c, pos) =>
         var tokens := s.shards[ShardOf(s, c)].tokens; pos < |tokens| && tokens[pos].from == Some(t) && tokens[pos].ch == c
       case Wake(c, pos) =>
         var tokens := s.shards[ShardOf(s, c)].tokens; pos < |tokens| && tokens[pos].from == Some(t) && tokens[pos].ch == c
       case _ => true
  }

  ghost predicate Inv<M>(s: State<M>) {
    && WellShaped(s)
    && (forall c :: 0 <= c < |s.channels| ==> ChannelOk(c, s.channels[c], s.shards[ShardOf(s, c)], s.senders))
    && (forall k :: 0 <= k < |s.shards| ==> ShardOk(k, |s.shards|, s.ids, s.maxBatch, s.shards[k], s.senders))
    && (forall t :: t in s.senders ==> SenderOk(t, s.senders[t], s))
  }

  lemma InitInv<M>(ids: seq<nat>, maxBatch: nat, n: nat)
    requires maxBatch > 0 && n > 0
    ensures Inv(Init<M>(ids, maxBatch, n))
  {
  }

  // ----- sender steps ---------------------------------------------------------------------------

  /** Tokens keep their channel and origin, and the worker and its progress are the same. */
  ghost predicate TokensGrow<M>(sh: Shard<M>, sh': Shard<M>) {
    && sh'.worker == sh.worker && sh'.popped == sh.popped && |sh.tokens| <= |sh'.tokens|
    && (forall p :: 0 <= p < |sh.tokens| ==> sh'.tokens[p].ch == sh.tokens[p].ch && sh'.tokens[p].from == sh.tokens[p].from)
  }

  ghost predicate LogGrows<M>(ch: Channel<M>, ch': Channel<M>) {
    |ch.log| <= |ch'.log| && (forall p :: 0 <= p < |ch.log| ==> ch'.log[p].from == ch.log[p].from)
  }

  /** A sender that is not busy with channel `d` does not matter for it. */
  lemma OtherChannelOk<M>(d: nat, ch: Channel<M>, sh: Shard<M>, sh': Shard<M>, senders: map<nat, Sending<M>>, t: nat, x: Sending<M>)
    requires ChannelOk(d, ch, sh, senders) && TokensGrow(sh, sh')
    requires !Of(senders, t).Idle? ==> Of(senders, t).c != d
    ensures ChannelOk(d, ch, sh', senders[t := x])
  {
    hide FlowOk;
    assert FlowOk(d, ch, sh.worker);
  }

  lemma OtherShardOk<M>(k: nat, n: nat, ids: seq<nat>, maxBatch: nat, sh: Shard<M>, senders: map<nat, Sending<M>>, t: nat, x: Sending<M>)
    requires n > 0 && ShardOk(k, n, ids, maxBatch, sh, senders)
    requires (!Of(senders, t).HookLink? && !Of(senders, t).Wake?) || (Of(senders, t).c < |ids| && Route(ids[Of(senders, t).c], n) != k)
    ensures ShardOk(k, n, ids, maxBatch, sh, senders[t := x])
  {
    hide WorkerOk;
  }

  lemma OtherSenderOk<M>(u: nat, p: Sending<M>, s: State<M>, s': State<M>)
    requires WellShaped(s) && WellShaped(s') && SenderOk(u, p, s)
    requires s'.ids == s.ids && |s'.shards| == |s.shards|
    requires forall c :: 0 <= c < |s.channels| ==> LogGrows(s.channels[c], s'.channels[c])
    requires forall k :: 0 <= k < |s.shards| ==> |s.shards[k].tokens| <= |s'.shards[k].tokens|
    requires forall k, q {:trigger s'.shards[k].tokens[q]} :: 0 <= k < |s.shards| && 0 <= q < |s.shards[k].tokens| ==>
               s'.shards[k].tokens[q].ch == s.shards[k].tokens[q].ch && s'.shards[k].tokens[q].from == s.shards[k].tokens[q].from
    ensures SenderOk(u, p, s')
  {
    if !p.Idle? { assert LogGrows(s.channels[p.c], s'.channels[p.c]); }
  }

  /** Sender `t`, busy with channel `c`, takes a step: what is left to show are the parts it touches. */
  lemma SenderMove<M>(s: State<M>, t: nat, x: Sending<M>, c: nat, ch': Channel<M>, sh': Shard<M>)
    requires Inv(s) && c < |s.channels| && (Of(s.senders, t).Idle? || Of(s.senders, t).c == c)
    requires TokensGrow(s.shards[ShardOf(s, c)], sh') && LogGrows(s.channels[c], ch')
    requires ChannelOk(c, ch', sh', s.senders[t := x])
    requires ShardOk(ShardOf(s, c), |s.shards|, s.ids, s.maxBatch, sh', s.senders[t := x])
    requires SenderOk(t, x, s.(channels := s.channels[c := ch'], shards := s.shards[ShardOf(s, c) := sh'], senders := s.senders[t := x]))
    ensures Inv(s.(channels := s.channels[c := ch'], shards := s.shards[ShardOf(s, c) := sh'], senders := s.senders[t := x]))
  {
    hide ChannelOk, ShardOk, SenderOk, LogGrows;
    var k := ShardOf(s, c);
    var s' := s.(channels := s.channels[c := ch'], shards := s.shards[k := sh'], senders := s.senders[t := x]);
    OthersGrow(s, s', c, k);
    hide TokensGrow;
    forall d | 0 <= d < |s.channels| && d != c ensures ChannelOk(d, s.channels[d], s'.shards[ShardOf(s, d)], s'.senders) {
      assert TokensGrow(s.shards[ShardOf(s, d)], s'.shards[ShardOf(s, d)]) by { SameTokens(s.shards[ShardOf(s, d)]); }
      OtherChannelOk(d, s.channels[d], s.shards[ShardOf(s, d)], s'.shards[ShardOf(s, d)], s.senders, t, x);
    }
    forall j | 0 <= j < |s.shards| && j != k ensures ShardOk(j, |s.shards|, s.ids, s.maxBatch, s.shards[j], s'.senders) {
      OtherShardOk(j, |s.shards|, s.ids, s.maxBatch, s.shards[j], s.senders, t, x);
    }
    forall u | u in s.senders && u != t ensures SenderOk(u, s.senders[u], s') {
      OtherSenderOk(u, s.senders[u], s, s');
    }
  }

  lemma SameTokens<M>(sh: Shard<M>)
    ensures TokensGrow(sh, sh)
  {
  }

  lemma OthersGrow<M>(s: State<M>, s': State<M>, c: nat, k: nat)
    requires WellShaped(s) && c < |s.channels| && k < |s.shards| && |s'.channels| == |s.channels| && |s'.shards| == |s.shards|
    requires forall d :: 0 <= d < |s.channels| && d != c ==> s'.channels[d] == s.channels[d]
    requires forall j :: 0 <= j < |s.shards| && j != k ==> s'.shards[j] == s.shards[j]
    requires LogGrows(s.channels[c], s'.channels[c])
    requires |s.shards[k].tokens| <= |s'.shards[k].tokens|
    requires forall q :: 0 <= q < |s.shards[k].tokens| ==>
               s'.shards[k].tokens[q].ch == s.shards[k].tokens[q].ch && s'.shards[k].tokens[q].from == s.shards[k].tokens[q].from
    ensures forall d :: 0 <= d < |s.channels| ==> LogGrows(s.channels[d], s'.channels[d])
    ensures forall j :: 0 <= j < |s.shards| ==> |s.shards[j].tokens| <= |s'.shards[j].tokens|
    ensures forall j, q {:trigger s'.shards[j].tokens[q]} :: 0 <= j < |s.shards| && 0 <= q < |s.shards[j].tokens| ==>
              s'.shards[j].tokens[q].ch == s.shards[j].tokens[q].ch && s'.shards[j].tokens[q].from == s.shards[j].tokens[q].from
  {
  }

  lemma InvParts<M>(s: State<M>, c: nat)
    requires Inv(s) && c < |s.channels|
    ensures ChannelOk(c, s.channels[c], s.shards[ShardOf(s, c)], s.senders)
    ensures ShardOk(ShardOf(s, c), |s.shards|, s.ids, s.maxBatch, s.shards[ShardOf(s, c)], s.senders)
  {
    hide ChannelOk, ShardOk, SenderOk;
  }

  lemma InvSender<M>(s: State<M>, t: nat)
    requires Inv(s)
    ensures SenderOk(t, Of(s.senders, t), s)
  {
    hide ChannelOk, ShardOk;
  }

  lemma SwapChannelOk<M>(c: nat, ch: Channel<M>, sh: Shard<M>, senders: map<nat, Sending<M>>, t: nat, m: M)
    requires ChannelOk(c, ch, sh, senders) && Of(senders, t).Swap?
    ensures ChannelOk(c, ch.(log := ch.log + [Cell(m, t, false)], awaited := |ch.log|), sh, senders[t := Link(c, |ch.log|)])
  {
    assert (ch.log + [Cell(m, t, false)])[..ch.taken] == ch.log[..ch.taken];
  }

  lemma LinkChannelOk<M>(c: nat, ch: Channel<M>, sh: Shard<M>, senders: map<nat, Sending<M>>, t: nat, pos: nat)
    requires ChannelOk(c, ch, sh, senders) && Of(senders, t) == Link(c, pos) && pos < |ch.log| && ch.log[pos].from == t
    ensures ChannelOk(c, ch.(log := ch.log[pos := ch.log[pos].(linked := true)]), sh, senders[t := Cas(c, pos)])
  {
    var log' := ch.log[pos := ch.log[pos].(linked := true)];
    assert MsgsOf(log'[..ch.taken]) == MsgsOf(ch.log[..ch.taken]);
  }

  /** Trying the flag: after it either way somebody holds the channel. */
  lemma CasChannelOk<M>(c: nat, ch: Channel<M>, sh: Shard<M>, senders: map<nat, Sending<M>>, t: nat)
    requires ChannelOk(c, ch, sh, senders) && Of(senders, t).Cas?
    ensures ch.pending ==> ChannelOk(c, ch, sh, senders[t := Idle])
    ensures !ch.pending ==> ChannelOk(c, ch.(pending := true, holder := Sender(t)), sh, senders[t := HookSwap(c)])
  {
  }

  lemma HookChannelOk<M>(c: nat, ch: Channel<M>, sh: Shard<M>, senders: map<nat, Sending<M>>, t: nat)
    requires ChannelOk(c, ch, sh, senders) && Of(senders, t) == HookSwap(c) && sh.popped <= |sh.tokens|
    ensures ChannelOk(c, ch.(holder := Queue(|sh.tokens|)),
                      sh.(tokens := sh.tokens + [Token(c, Some(t), false)], notifier := |sh.tokens|), senders[t := HookLink(c, |sh.tokens|)])
  {
  }

  lemma HookShardOk<M>(k: nat, n: nat, ids: seq<nat>, maxBatch: nat, sh: Shard<M>, senders: map<nat, Sending<M>>, t: nat, c: nat)
    requires n > 0 && ShardOk(k, n, ids, maxBatch, sh, senders) && Of(senders, t) == HookSwap(c)
    requires c < |ids| && Route(ids[c], n) == k
    ensures ShardOk(k, n, ids, maxBatch, sh.(tokens := sh.tokens + [Token(c, Some(t), false)], notifier := |sh.tokens|),
                    senders[t := HookLink(c, |sh.tokens|)])
  {
  }

  lemma HookLinkShardOk<M>(k: nat, n: nat, ids: seq<nat>, maxBatch: nat, sh: Shard<M>, senders: map<nat, Sending<M>>, t: nat, c: nat, pos: nat)
    requires n > 0 && ShardOk(k, n, ids, maxBatch, sh, senders) && Of(senders, t) == HookLink(c, pos)
    requires pos < |sh.tokens| && sh.tokens[pos].from == Some(t) && sh.tokens[pos].ch == c
    ensures ShardOk(k, n, ids, maxBatch, sh.(tokens := sh.tokens[pos := sh.tokens[pos].(linked := true)]), senders[t := Wake(c, pos)])
  {
  }

  lemma WakeShardOk<M>(k: nat, n: nat, ids: seq<nat>, maxBatch: nat, sh: Shard<M>, senders: map<nat, Sending<M>>, t: nat)
    requires n > 0 && ShardOk(k, n, ids, maxBatch, sh, senders) && Of(senders, t).Wake?
    ensures ShardOk(k, n, ids, maxBatch, sh.(wakeup := true), senders[t := Idle])
  {
  }

  /** Token changes that the channels of the shard do not notice. */
  lemma TokensChannelOk<M>(c: nat, ch: Channel<M>, sh: Shard<M>, sh': Shard<M>, senders: map<nat, Sending<M>>, t: nat, x: Sending<M>)
    requires ChannelOk(c, ch, sh, senders) && TokensGrow(sh, sh') && (Of(senders, t).HookLink? || Of(senders, t).Wake? || Of(senders, t).Idle?)
    ensures ChannelOk(c, ch, sh', senders[t := x])
  {
    hide FlowOk;
    assert FlowOk(c, ch, sh.worker);
  }

  lemma SwapInv<M>(s: State<M>, t: nat)
    requires Inv(s) && Of(s.senders, t).Swap?
    ensures Inv(SenderStep(s, t))
  {
    InvSender(s, t);
    hide Inv, ChannelOk, ShardOk;
    var p := Of(s.senders, t);
    var c, k := p.c, ShardOf(s, p.c);
    InvParts(s, c);
    var s' := SenderStep(s, t);
    var x := s'.senders[t];
    assert s' == s.(channels := s.channels[c := s'.channels[c]], shards := s.shards[k := s.shards[k]], senders := s.senders[t := x]);
    OtherShardOk(k, |s.shards|, s.ids, s.maxBatch, s.shards[k], s.senders, t, x);
    SwapChannelOk(c, s.channels[c], s.shards[k], s.senders, t, p.msg);
    SenderMove(s, t, x, c, s'.channels[c], s.shards[k]);
  }

  lemma LinkInv<M>(s: State<M>, t: nat)
    requires Inv(s) && Of(s.senders, t).Link?
    ensures Inv(SenderStep(s, t))
  {
    InvSender(s, t);
    hide Inv, ChannelOk, ShardOk;
    var p := Of(s.senders, t);
    var c, k := p.c, ShardOf(s, p.c);
    InvParts(s, c);
    var s' := SenderStep(s, t);
    var x := s'.senders[t];
    assert s' == s.(channels := s.channels[c := s'.channels[c]], shards := s.shards[k := s.shards[k]], senders := s.senders[t := x]);
    OtherShardOk(k, |s.shards|, s.ids, s.maxBatch, s.shards[k], s.senders, t, x);
    LinkChannelOk(c, s.channels[c], s.shards[k], s.senders, t, p.pos);
    SenderMove(s, t, x, c, s'.channels[c], s.shards[k]);
  }

  lemma CasInv<M>(s: State<M>, t: nat)
    requires Inv(s) && Of(s.senders, t).Cas?
    ensures Inv(SenderStep(s, t))
  {
    InvSender(s, t);
    hide Inv, ChannelOk, ShardOk;
    var p := Of(s.senders, t);
    var c, k := p.c, ShardOf(s, p.c);
    InvParts(s, c);
    var s' := SenderStep(s, t);
    var x := s'.senders[t];
    assert s' == s.(channels := s.channels[c := s'.channels[c]], shards := s.shards[k := s.shards[k]], senders := s.senders[t := x]);
    OtherShardOk(k, |s.shards|, s.ids, s.maxBatch, s.shards[k], s.senders, t, x);
    CasChannelOk(c, s.channels[c], s.shards[k], s.senders, t);
    SenderMove(s, t, x, c, s'.channels[c], s.shards[k]);
  }

  lemma HookStepInv<M>(s: State<M>, t: nat)
    requires Inv(s) && (Of(s.senders, t).HookSwap? || Of(s.senders, t).HookLink? || Of(s.senders, t).Wake?)
    ensures Inv(SenderStep(s, t))
  {
    InvSender(s, t);
    hide Inv, ChannelOk, ShardOk;
    var p := Of(s.senders, t);
    var c, k := p.c, ShardOf(s, p.c);
    InvParts(s, c);
    var s' := SenderStep(s, t);
    var x, sh, sh' := s'.senders[t], s.shards[k], s'.shards[k];
    assert s' == s.(channels := s.channels[c := s'.channels[c]], shards := s.shards[k := sh'], senders := s.senders[t := x]);
    if p.HookSwap? {
      assert sh.popped <= |sh.tokens| by { ShardPopped(k, |s.shards|, s.ids, s.maxBatch, sh, s.senders); }
      HookChannelOk(c, s.channels[c], sh, s.senders, t);
      HookShardOk(k, |s.shards|, s.ids, s.maxBatch, sh, s.senders, t, c);
    } else {
      TokensChannelOk(c, s.channels[c], sh, sh', s.senders, t, x);
      if p.HookLink? { HookLinkShardOk(k, |s.shards|, s.ids, s.maxBatch, sh, s.senders, t, c, p.pos); }
      else { WakeShardOk(k, |s.shards|, s.ids, s.maxBatch, sh, s.senders, t); }
    }
    SenderMove(s, t, x, c, s'.channels[c], sh');
  }

  lemma ShardPopped<M>(k: nat, n: nat, ids: seq<nat>, maxBatch: nat, sh: Shard<M>, senders: map<nat, Sending<M>>)
    requires n > 0 && ShardOk(k, n, ids, maxBatch, sh, senders)
    ensures sh.popped <= |sh.tokens|
  {
  }

  lemma SendInv<M>(s: State<M>, t: nat, c: nat, m: M)
    requires Inv(s) && Of(s.senders, t).Idle? && c < |s.channels|
    ensures Inv(s.(senders := s.senders[t := Swap(c, m)]))
  {
    hide ChannelOk, ShardOk;
    var k := ShardOf(s, c);
    InvParts(s, c);
    hide Inv;
    SameTokens(s.shards[k]);
    assert s.channels[c := s.channels[c]] == s.channels && s.shards[k := s.shards[k]] == s.shards;
    TokensChannelOk(c, s.channels[c], s.shards[k], s.shards[k], s.senders, t, Swap(c, m));
    OtherShardOk(k, |s.shards|, s.ids, s.maxBatch, s.shards[k], s.senders, t, Swap(c, m));
    SenderMove(s, t, Swap(c, m), c, s.channels[c], s.shards[k]);
  }

  // ----- worker steps ---------------------------------------------------------------------------

  /** A step of a worker that is busy with no channel but `c`, before and after. */
  ghost predicate BusyWith<M>(sh: Shard<M>, sh': Shard<M>, c: nat) {
    && |sh.tokens| <= |sh'.tokens| && sh.popped <= sh'.popped <= |sh'.tokens|
    && (forall p :: 0 <= p < |sh.tokens| ==> sh'.tokens[p].ch == sh.tokens[p].ch && sh'.tokens[p].from == sh.tokens[p].from)
    && (forall p :: sh.popped <= p < sh'.popped ==> sh'.tokens[p].ch == c)
    && (forall d :: d != c ==> !On(sh.worker, d) && !On(sh'.worker, d))
  }

  lemma WorkerOtherOk<M>(d: nat, ch: Channel<M>, sh: Shard<M>, sh': Shard<M>, senders: map<nat, Sending<M>>, c: nat)
    requires ChannelOk(d, ch, sh, senders) && BusyWith(sh, sh', c) && d != c
    ensures ChannelOk(d, ch, sh', senders)
  {
    assert !On(sh.worker, d) && !On(sh'.worker, d);
    hide MailOk;
  }

  lemma WorkerMove<M>(s: State<M>, k: nat, c: nat, ch': Channel<M>, sh': Shard<M>)
    requires Inv(s) && c < |s.channels| && k == ShardOf(s, c)
    requires BusyWith(s.shards[k], sh', c) && LogGrows(s.channels[c], ch')
    requires ChannelOk(c, ch', sh', s.senders) && ShardOk(k, |s.shards|, s.ids, s.maxBatch, sh', s.senders)
    ensures Inv(s.(channels := s.channels[c := ch'], shards := s.shards[k := sh']))
  {
    hide ChannelOk, ShardOk, SenderOk, LogGrows;
    var s' := s.(channels := s.channels[c := ch'], shards := s.shards[k := sh']);
    OthersGrow(s, s', c, k);
    hide BusyWith;
    forall d | 0 <= d < |s.channels| && d != c ensures ChannelOk(d, s.channels[d], s'.shards[ShardOf(s, d)], s.senders) {
      if ShardOf(s, d) == k { WorkerOtherOk(d, s.channels[d], s.shards[k], sh', s.senders, c); }
    }
    forall u | u in s.senders ensures SenderOk(u, s.senders[u], s') {
      OtherSenderOk(u, s.senders[u], s, s');
    }
  }

  /** A step of a worker between two channels. */
  lemma WorkerQuiet<M>(s: State<M>, k: nat, sh': Shard<M>)
    requires Inv(s) && k < |s.shards|
    requires TokensGrow(s.shards[k], sh'.(worker := s.shards[k].worker))
    requires forall d :: !On(s.shards[k].worker, d) && !On(sh'.worker, d)
    requires ShardOk(k, |s.shards|, s.ids, s.maxBatch, sh', s.senders)
    ensures Inv(s.(shards := s.shards[k := sh']))
  {
    ShardPopped(k, |s.shards|, s.ids, s.maxBatch, sh', s.senders);
    hide ChannelOk, ShardOk, SenderOk;
    var s' := s.(shards := s.shards[k := sh']);
    forall d | 0 <= d < |s.channels| ensures ChannelOk(d, s.channels[d], s'.shards[ShardOf(s, d)], s.senders) {
      if ShardOf(s, d) == k { WorkerOtherOk(d, s.channels[d], s.shards[k], sh', s.senders, d + 1); }
    }
    assert forall d :: 0 <= d < |s.channels| ==> LogGrows(s.channels[d], s'.channels[d]);
    forall u | u in s.senders ensures SenderOk(u, s.senders[u], s') {
      OtherSenderOk(u, s.senders[u], s, s');
    }
  }

  lemma QuietShardOk<M>(k: nat, n: nat, ids: seq<nat>, maxBatch: nat, sh: Shard<M>, senders: map<nat, Sending<M>>)
    requires n > 0 && ShardOk(k, n, ids, maxBatch, sh, senders)
    ensures sh.worker.Wait? ==> ShardOk(k, n, ids, maxBatch, sh.(wakeup := false, worker := Pop), senders)
    ensures sh.worker.RequeueWake? ==> ShardOk(k, n, ids, maxBatch, sh.(wakeup := true, worker := Pop), senders)
    ensures sh.worker.RequeueLink? && sh.worker.pos < |sh.tokens| ==>
              ShardOk(k, n, ids, maxBatch, sh.(tokens := sh.tokens[sh.worker.pos := sh.tokens[sh.worker.pos].(linked := true)], worker := RequeueWake), senders)
  {
  }

  /** Finding nothing linked at the head of the queue: then either the queue is empty, or the sender at its
      head has still to send its wakeup. */
  lemma PopNothingOk<M>(k: nat, n: nat, ids: seq<nat>, maxBatch: nat, sh: Shard<M>, senders: map<nat, Sending<M>>)
    requires n > 0 && ShardOk(k, n, ids, maxBatch, sh, senders) && sh.worker.Pop?
    requires !(sh.popped < |sh.tokens| && sh.tokens[sh.popped].linked)
    ensures ShardOk(k, n, ids, maxBatch, sh.(worker := Wait, notifier := sh.popped), senders)
  {
  }

  lemma BetweenInv<M>(s: State<M>, k: nat, tuning: int)
    requires Inv(s) && k < |s.shards|
    requires var w := s.shards[k].worker; w.Wait? || w.RequeueWake? || w.RequeueLink?
    ensures Inv(WorkerStep(s, k, tuning))
  {
    hide ChannelOk, SenderOk, TokensOk, WakeOk;
    var sh := s.shards[k];
    assert ShardOk(k, |s.shards|, s.ids, s.maxBatch, sh, s.senders);
    QuietShardOk(k, |s.shards|, s.ids, s.maxBatch, sh, s.senders);
    hide ShardOk, WorkerOk;
    var s' := WorkerStep(s, k, tuning);
    if s' != s { WorkerQuiet(s, k, s'.shards[k]); }
  }

  lemma PopNothingInv<M>(s: State<M>, k: nat, tuning: int)
    requires Inv(s) && k < |s.shards| && s.shards[k].worker.Pop?
    requires var sh := s.shards[k]; !(sh.popped < |sh.tokens| && sh.tokens[sh.popped].linked)
    ensures Inv(WorkerStep(s, k, tuning))
  {
    hide ChannelOk, SenderOk, ShardOk;
    var sh := s.shards[k];
    assert ShardOk(k, |s.shards|, s.ids, s.maxBatch, sh, s.senders);
    PopNothingOk(k, |s.shards|, s.ids, s.maxBatch, sh, s.senders);
    WorkerQuiet(s, k, sh.(worker := Wait, notifier := sh.popped));
  }

  lemma PopShardOk<M>(k: nat, n: nat, ids: seq<nat>, maxBatch: nat, sh: Shard<M>, senders: map<nat, Sending<M>>, q: nat)
    requires n > 0 && ShardOk(k, n, ids, maxBatch, sh, senders) && sh.worker.Pop?
    requires sh.popped < |sh.tokens| && sh.tokens[sh.popped].linked
    ensures ShardOk(k, n, ids, maxBatch, sh.(popped := sh.popped + 1, worker := Drain(sh.tokens[sh.popped].ch, [], 0, q)), senders)
    ensures sh.tokens[sh.popped].ch < |ids| && Route(ids[sh.tokens[sh.popped].ch], n) == k
  {
  }

  lemma PopChannelOk<M>(c: nat, ch: Channel<M>, sh: Shard<M>, senders: map<nat, Sending<M>>, q: nat)
    requires ChannelOk(c, ch, sh, senders) && sh.worker.Pop?
    ensures ChannelOk(c, ch.(holder := Worker), sh.(popped := sh.popped + 1, worker := Drain(c, [], 0, q)), senders)
  {
    hide MailOk;
  }

  lemma PopInv<M>(s: State<M>, k: nat, tuning: int)
    requires Inv(s) && k < |s.shards| && s.shards[k].worker.Pop?
    requires var sh := s.shards[k]; sh.popped < |sh.tokens| && sh.tokens[sh.popped].linked
    ensures Inv(WorkerStep(s, k, tuning))
  {
    hide ChannelOk, SenderOk, ShardOk;
    var sh := s.shards[k];
    assert ShardOk(k, |s.shards|, s.ids, s.maxBatch, sh, s.senders);
    PopShardOk(k, |s.shards|, s.ids, s.maxBatch, sh, s.senders, Quota(tuning));
    var c := sh.tokens[sh.popped].ch;
    PopChannelOk(c, s.channels[c], sh, s.senders, Quota(tuning));
    WorkerMove(s, k, c, s.channels[c].(holder := Worker), sh.(popped := sh.popped + 1, worker := Drain(c, [], 0, Quota(tuning))));
  }

  // ----- a worker on one channel: the new channel, and the new program counter ------------------------

  lemma FlushShardOk<M>(k: nat, n: nat, ids: seq<nat>, maxBatch: nat, sh: Shard<M>, senders: map<nat, Sending<M>>, w': Pc<M>)
    requires n > 0 && ShardOk(k, n, ids, maxBatch, sh, senders)
    requires Busy(sh.worker) && !w'.Wait? && !w'.RequeueLink?
    requires !w'.Pop? && !w'.RequeueWake? ==> w'.c == sh.worker.c
    requires (w'.Drain? ==> |w'.got| <= maxBatch) && (w'.Process? || w'.SetPending? ==> 0 < |w'.got| <= maxBatch)
    ensures ShardOk(k, n, ids, maxBatch, sh.(worker := w'), senders)
  {
  }

  lemma RequeueShardOk<M>(k: nat, n: nat, ids: seq<nat>, maxBatch: nat, sh: Shard<M>, senders: map<nat, Sending<M>>)
    requires n > 0 && ShardOk(k, n, ids, maxBatch, sh, senders) && sh.worker.Requeue?
    ensures ShardOk(k, n, ids, maxBatch, sh.(tokens := sh.tokens + [Token(sh.worker.c, None, false)],
                                             worker := RequeueLink(sh.worker.c, |sh.tokens|)), senders)
  {
  }

  lemma RequeueChannelOk<M>(c: nat, ch: Channel<M>, sh: Shard<M>, senders: map<nat, Sending<M>>)
    requires ChannelOk(c, ch, sh, senders) && sh.worker == Requeue(c) && sh.popped <= |sh.tokens|
    ensures ChannelOk(c, ch.(holder := Queue(|sh.tokens|)),
                      sh.(tokens := sh.tokens + [Token(c, None, false)], worker := RequeueLink(c, |sh.tokens|)), senders)
  {
    hide MailOk;
  }

  lemma RequeueInv<M>(s: State<M>, k: nat)
    requires Inv(s) && k < |s.shards| && s.shards[k].worker.Requeue?
    ensures s.shards[k].worker.c < |s.channels| && Inv(RequeueStep(s, k, s.shards[k].worker.c))
  {
    hide ChannelOk, SenderOk, ShardOk;
    var sh := s.shards[k];
    assert ShardOk(k, |s.shards|, s.ids, s.maxBatch, sh, s.senders);
    BusyRoute(k, |s.shards|, s.ids, s.maxBatch, sh, s.senders);
    ShardPopped(k, |s.shards|, s.ids, s.maxBatch, sh, s.senders);
    var c := sh.worker.c;
    RequeueShardOk(k, |s.shards|, s.ids, s.maxBatch, sh, s.senders);
    RequeueChannelOk(c, s.channels[c], sh, s.senders);
    WorkerMove(s, k, c, s.channels[c].(holder := Queue(|sh.tokens|)),
               sh.(tokens := sh.tokens + [Token(c, None, false)], worker := RequeueLink(c, |sh.tokens|)));
  }

  lemma BusyRoute<M>(k: nat, n: nat, ids: seq<nat>, maxBatch: nat, sh: Shard<M>, senders: map<nat, Sending<M>>)
    requires n > 0 && ShardOk(k, n, ids, maxBatch, sh, senders) && Busy(sh.worker)
    ensures sh.worker.c < |ids| && Route(ids[sh.worker.c], n) == k
    ensures sh.worker.Drain? ==> |sh.worker.got| <= maxBatch
    ensures sh.worker.Process? || sh.worker.SetPending? ==> 0 < |sh.worker.got| <= maxBatch
  {
  }

  lemma MsgsSnoc<M>(log: seq<Cell<M>>, n: nat)
    requires n < |log|
    ensures MsgsOf(log[..n + 1]) == MsgsOf(log[..n]) + [log[n].msg]
  {
  }

  lemma DrainChannelOk<M>(c: nat, ch: Channel<M>, sh: Shard<M>, senders: map<nat, Sending<M>>)
    requires ChannelOk(c, ch, sh, senders) && sh.worker.Drain? && sh.worker.c == c
    ensures Available(ch) ==> ChannelOk(c, ch.(taken := ch.taken + 1),
              sh.(worker := Drain(c, sh.worker.got + [ch.log[ch.taken].msg], sh.worker.used, sh.worker.quota)), senders)
    ensures ChannelOk(c, ch, sh.(worker := Process(c, sh.worker.got, sh.worker.used, sh.worker.quota)), senders)
    ensures sh.worker.got == [] ==> ChannelOk(c, ch, sh.(worker := ClearPending(c, sh.worker.used, sh.worker.quota)), senders)
  {
    if Available(ch) { MsgsSnoc(ch.log, ch.taken); }
  }

  lemma ProcessChannelOk<M>(c: nat, ch: Channel<M>, sh: Shard<M>, senders: map<nat, Sending<M>>, w': Pc<M>)
    requires ChannelOk(c, ch, sh, senders) && sh.worker.Process? && sh.worker.c == c
    requires Active(w', c) && InHand(w', c) == []
    ensures ChannelOk(c, ch.(written := ch.written + sh.worker.got), sh.(worker := w'), senders)
  {
  }

  /** Clearing the flag is safe because the worker has not left: it will look at the mailbox once more. */
  lemma ClearChannelOk<M>(c: nat, ch: Channel<M>, sh: Shard<M>, senders: map<nat, Sending<M>>)
    requires ChannelOk(c, ch, sh, senders) && sh.worker.ClearPending? && sh.worker.c == c
    ensures ChannelOk(c, ch.(pending := false, holder := Nobody), sh.(worker := Recheck(c, sh.worker.used, sh.worker.quota)), senders)
  {
  }

  /** The second look: either it takes a message and goes on, or every message left has a sender that
      will still try the flag. */
  lemma RecheckChannelOk<M>(c: nat, ch: Channel<M>, sh: Shard<M>, senders: map<nat, Sending<M>>)
    requires ChannelOk(c, ch, sh, senders) && sh.worker.Recheck? && sh.worker.c == c
    ensures Available(ch) ==> ChannelOk(c, ch.(taken := ch.taken + 1, holder := Worker),
              sh.(worker := SetPending(c, [ch.log[ch.taken].msg], sh.worker.used, sh.worker.quota)), senders)
    ensures !Available(ch) ==> ChannelOk(c, ch.(awaited := ch.taken), sh.(worker := Pop), senders)
  {
    if Available(ch) { MsgsSnoc(ch.log, ch.taken); }
  }

  lemma SetChannelOk<M>(c: nat, ch: Channel<M>, sh: Shard<M>, senders: map<nat, Sending<M>>)
    requires ChannelOk(c, ch, sh, senders) && sh.worker.SetPending? && sh.worker.c == c
    ensures ChannelOk(c, ch.(pending := true, holder := Worker), sh.(worker := Process(c, sh.worker.got, sh.worker.used, sh.worker.quota)), senders)
  {
  }

  /** Assembling a step on channel `c`. */
  lemma FlushMove<M>(s: State<M>, k: nat, ch': Channel<M>, w': Pc<M>)
    requires Inv(s) && k < |s.shards| && Busy(s.shards[k].worker)
    requires var w := s.shards[k].worker;
             && w.c < |s.channels| && k == ShardOf(s, w.c) && !w'.Wait? && !w'.RequeueLink? && (!w'.Pop? && !w'.RequeueWake? ==> w'.c == w.c)
             && (w'.Drain? ==> |w'.got| <= s.maxBatch) && (w'.Process? || w'.SetPending? ==> 0 < |w'.got| <= s.maxBatch)
             && LogGrows(s.channels[w.c], ch') && ChannelOk(w.c, ch', s.shards[k].(worker := w'), s.senders)
    ensures Inv(s.(channels := s.channels[s.shards[k].worker.c := ch'], shards := s.shards[k := s.shards[k].(worker := w')]))
  {
    hide ChannelOk, SenderOk, ShardOk, LogGrows;
    assert ShardOk(k, |s.shards|, s.ids, s.maxBatch, s.shards[k], s.senders);
    FlushShardOk(k, |s.shards|, s.ids, s.maxBatch, s.shards[k], s.senders, w');
    ShardPopped(k, |s.shards|, s.ids, s.maxBatch, s.shards[k], s.senders);
    WorkerMove(s, k, s.shards[k].worker.c, ch', s.shards[k].(worker := w'));
  }

  lemma FlushInv<M>(s: State<M>, k: nat)
    requires Inv(s) && k < |s.shards| && Busy(s.shards[k].worker) && !s.shards[k].worker.Requeue?
    ensures s.shards[k].worker.c < |s.channels| && Inv(FlushStep(s, k, s.shards[k].worker))
  {
    hide ChannelOk, SenderOk, ShardOk;
    var sh, w := s.shards[k], s.shards[k].worker;
    assert ShardOk(k, |s.shards|, s.ids, s.maxBatch, sh, s.senders);
    BusyRoute(k, |s.shards|, s.ids, s.maxBatch, sh, s.senders);
    var c := w.c;
    var ch := s.channels[c];
    InvParts(s, c);
    hide Inv;
    var s' := FlushStep(s, k, w);
    FlushShape(s, k);
    match w {
      case Drain(_, _, _, _) => DrainChannelOk(c, ch, sh, s.senders);
      case Process(_, _, _, _) => ProcessChannelOk(c, ch, sh, s.senders, s'.shards[k].worker);
      case ClearPending(_, _, _) => ClearChannelOk(c, ch, sh, s.senders);
      case Recheck(_, _, _) => RecheckChannelOk(c, ch, sh, s.senders);
      case SetPending(_, _, _, _) => SetChannelOk(c, ch, sh, s.senders);
    }
    FlushMove(s, k, s'.channels[c], s'.shards[k].worker);
  }

  lemma FlushShape<M>(s: State<M>, k: nat)
    requires k < |s.shards| && Busy(s.shards[k].worker) && !s.shards[k].worker.Requeue? && s.shards[k].worker.c < |s.channels|
    ensures var w := s.shards[k].worker; var s' := FlushStep(s, k, w);
            && |s'.shards| == |s.shards| && |s'.channels| == |s.channels|
            && s' == s.(channels := s.channels[w.c := s'.channels[w.c]], shards := s.shards[k := s.shards[k].(worker := s'.shards[k].worker)])
            && LogGrows(s.channels[w.c], s'.channels[w.c])
  {
    var c := s.shards[k].worker.c;
    assert s.channels[c := s.channels[c]] == s.channels;
  }

  // ----- every run ------------------------------------------------------------------------------

  lemma WorkInv<M>(s: State<M>, k: nat, tuning: int)
    requires Inv(s) && k < |s.shards|
    ensures Inv(WorkerStep(s, k, tuning))
  {
    hide Inv, WaitStep, PopStep, RequeueLinkStep, RequeueWakeStep, FlushStep;
    var sh := s.shards[k];
    match sh.worker
    case Wait => BetweenInv(s, k, tuning);
    case RequeueLink(_, _) => BetweenInv(s, k, tuning);
    case RequeueWake => BetweenInv(s, k, tuning);
    case Pop => if sh.popped < |sh.tokens| && sh.tokens[sh.popped].linked { PopInv(s, k, tuning); } else { PopNothingInv(s, k, tuning); }
    case Requeue(_) => RequeueInv(s, k); FlushRequeue(s, k);
    case _ => FlushInv(s, k);
  }

  lemma FlushRequeue<M>(s: State<M>, k: nat)
    requires k < |s.shards| && s.shards[k].worker.Requeue? && s.shards[k].worker.c < |s.channels|
    ensures FlushStep(s, k, s.shards[k].worker) == RequeueStep(s, k, s.shards[k].worker.c)
  {
  }

  lemma StepInv<M>(s: State<M>, t: nat)
    requires Inv(s)
    ensures Inv(SenderStep(s, t))
  {
    hide Inv, SwapStep, LinkStep, CasStep, HookSwapStep, HookLinkStep, WakeStep;
    match Of(s.senders, t)
    case Idle =>
    case Swap(_, _) => SwapInv(s, t);
    case Link(_, _) => LinkInv(s, t);
    case Cas(_, _) => CasInv(s, t);
    case _ => HookStepInv(s, t);
  }

  /** Every step of every sender and worker keeps the invariant. */
  lemma DoInv<M>(s: State<M>, a: Action<M>)
    requires Inv(s)
    ensures Inv(Do(s, a))
  {
    hide Inv, SenderStep, WorkerStep;
    match a
    case Send(t, c, m) => if Of(s.senders, t).Idle? && c < |s.channels| { SendInv(s, t, c, m); }
    case Step(t) => StepInv(s, t);
    case Work(k, tuning) => if k < |s.shards| { WorkInv(s, k, tuning); }
  }

  lemma {:induction false} ExecInv<M>(s: State<M>, acts: seq<Action<M>>)
    requires Inv(s)
    ensures Inv(Exec(s, acts))
    decreases |acts|
  {
    if acts != [] {
      DoInv(s, acts[0]);
      hide Inv;
      ExecInv(Do(s, acts[0]), acts[1..]);
    }
  }

  ghost predicate Reachable<M(!new)>(s: State<M>) {
    exists ids: seq<nat>, maxBatch: nat, n: nat, acts: seq<Action<M>> ::
      maxBatch > 0 && n > 0 && s == Exec(Init(ids, maxBatch, n), acts)
  }

  lemma ReachableInv<M(!new)>(s: State<M>)
    requires Reachable(s)
    ensures Inv(s)
  {
    var ids: seq<nat>, maxBatch: nat, n: nat, acts: seq<Action<M>> :|
      maxBatch > 0 && n > 0 && s == Exec(Init(ids, maxBatch, n), acts);
    InitInv<M>(ids, maxBatch, n);
    ExecInv(Init(ids, maxBatch, n), acts);
  }

  // ----- main results ---------------------------------------------------------------------------

  predicate NoSender<M>(s: State<M>) {
    forall t :: t in s.senders ==> s.senders[t].Idle?
  }

  /** The worker waits for a wakeup and there is none. */
  predicate Blocked<M>(sh: Shard<M>) {
    sh.worker.Wait? && !sh.wakeup
  }

  /** Everything a channel's senders enqueued has been written, in order, and the channel is idle again. */
  ghost predicate Settled<M>(ch: Channel<M>) {
    ch.taken == |ch.log| && !ch.pending && ch.written == MsgsOf(ch.log)
  }

  /** No lost wakeup: when no Send is in progress and every worker is blocked, nothing is left behind. */
  lemma NoLostWakeup<M(!new)>(s: State<M>, c: nat)
    requires Reachable(s) && NoSender(s) && (forall k :: 0 <= k < |s.shards| ==> Blocked(s.shards[k])) && c < |s.channels|
    ensures Settled(s.channels[c])
  {
    ReachableInv(s);
    IdleSettled(s, c);
  }

  lemma IdleSettled<M>(s: State<M>, c: nat)
    requires Inv(s) && NoSender(s) && (forall k :: 0 <= k < |s.shards| ==> Blocked(s.shards[k])) && c < |s.channels|
    ensures Settled(s.channels[c])
  {
    InvParts(s, c);
    var ch := s.channels[c];
    hide Inv, MailOk, TokensOk, WorkerOk;
    assert MailOk(c, ch.log, ch.taken, s.senders) && WatchedOk(c, ch, s.shards[ShardOf(s, c)], s.senders);
    assert s.shards[ShardOf(s, c)].worker.Wait?;
    QueueEmpty(s, ShardOf(s, c));
    assert ch.taken == |ch.log| ==> ch.log[..ch.taken] == ch.log;
    assert ch.taken <= |ch.log|;
  }

  lemma QueueEmpty<M>(s: State<M>, k: nat)
    requires k < |s.shards| && NoSender(s) && Blocked(s.shards[k]) && |s.shards| > 0
    requires ShardOk(k, |s.shards|, s.ids, s.maxBatch, s.shards[k], s.senders)
    ensures s.shards[k].popped == |s.shards[k].tokens|
  {
  }

  /** A mailbox never has two consumers: the workers that are busy with a channel are one. */
  lemma OneConsumer<M(!new)>(s: State<M>, j: nat, k: nat, c: nat)
    requires Reachable(s) && j < |s.shards| && k < |s.shards| && On(s.shards[j].worker, c) && On(s.shards[k].worker, c)
    ensures j == k && c < |s.channels| && j == Route(s.ids[c], |s.shards|)
  {
    ReachableInv(s);
    hide ChannelOk, SenderOk, ShardOk;
    assert ShardOk(j, |s.shards|, s.ids, s.maxBatch, s.shards[j], s.senders);
    assert ShardOk(k, |s.shards|, s.ids, s.maxBatch, s.shards[k], s.senders);
    BusyRoute(j, |s.shards|, s.ids, s.maxBatch, s.shards[j], s.senders);
    BusyRoute(k, |s.shards|, s.ids, s.maxBatch, s.shards[k], s.senders);
  }

  /** What the connection has seen is a prefix of the mailbox order; the rest of what was dequeued is in the
      hand of the channel's own worker. */
  lemma WrittenInOrder<M(!new)>(s: State<M>, c: nat)
    requires Reachable(s) && c < |s.channels| && WellShaped(s)
    ensures var ch := s.channels[c];
            ch.taken <= |ch.log| && ch.written + InHand(s.shards[ShardOf(s, c)].worker, c) == MsgsOf(ch.log)[..ch.taken]
  {
    ReachableInv(s);
    InvParts(s, c);
    hide Inv, MailOk, WatchedOk, ShardOk;
    var ch := s.channels[c];
    assert FlowOk(c, ch, s.shards[ShardOf(s, c)].worker);
    assert MsgsOf(ch.log)[..ch.taken] == MsgsOf(ch.log[..ch.taken]);
  }

  // ----- the workers always finish --------------------------------------------------------------

  function Unread<M>(ch: Channel<M>): nat {
    if ch.taken <= |ch.log| then |ch.log| - ch.taken else 0
  }

  /** How much a worker still has to do for what it has started. */
  function Rank<M>(w: Pc<M>): nat {
    match w
    case Wait => 0
    case Pop => 10
    case Recheck(_, _, _) => 11
    case ClearPending(_, _, _) => 12
    case Process(_, got, _, _) => 13 + 95 * |got|
    case Drain(_, got, _, _) => 14 + 95 * |got|
    case SetPending(_, got, _, _) => 14 + 95 * |got|
    case RequeueWake => 23
    case RequeueLink(_, _) => 24
    case Requeue(_) => 45
  }

  function Load<M>(sh: Shard<M>): nat {
    Rank(sh.worker) + (if sh.wakeup then 12 else 0) + if sh.popped <= |sh.tokens| then 20 * (|sh.tokens| - sh.popped) else 0
  }

  function UnreadOf<M>(s: State<M>): seq<nat> {
    seq(|s.channels|, c requires 0 <= c < |s.channels| => Unread(s.channels[c]))
  }

  function LoadOf<M>(s: State<M>): seq<nat> {
    seq(|s.shards|, k requires 0 <= k < |s.shards| => Load(s.shards[k]))
  }

  function Measure<M>(s: State<M>): nat {
    100 * Sum(UnreadOf(s)) + Sum(LoadOf(s))
  }

  /** What a step at shard `k` and channel `c` does to the measure. */
  lemma MeasureMove<M>(s: State<M>, s': State<M>, c: nat, k: nat)
    requires c < |s.channels| && k < |s.shards| && |s'.channels| == |s.channels| && |s'.shards| == |s.shards|
    requires forall d :: 0 <= d < |s.channels| && d != c ==> s'.channels[d] == s.channels[d]
    requires forall j :: 0 <= j < |s.shards| && j != k ==> s'.shards[j] == s.shards[j]
    ensures Measure(s') - Measure(s) ==
              100 * (Unread(s'.channels[c]) - Unread(s.channels[c])) + Load(s'.shards[k]) - Load(s.shards[k])
  {
    SumUpdate(UnreadOf(s), c, Unread(s'.channels[c]));
    SumUpdate(LoadOf(s), k, Load(s'.shards[k]));
    assert UnreadOf(s') == UnreadOf(s)[c := Unread(s'.channels[c])];
    assert LoadOf(s') == LoadOf(s)[k := Load(s'.shards[k])];
  }

  lemma MeasureQuiet<M>(s: State<M>, s': State<M>, k: nat)
    requires k < |s.shards| && s'.channels == s.channels && |s'.shards| == |s.shards|
    requires forall j :: 0 <= j < |s.shards| && j != k ==> s'.shards[j] == s.shards[j]
    ensures Measure(s') - Measure(s) == Load(s'.shards[k]) - Load(s.shards[k])
  {
    SumUpdate(LoadOf(s), k, Load(s'.shards[k]));
    assert UnreadOf(s') == UnreadOf(s);
    assert LoadOf(s') == LoadOf(s)[k := Load(s'.shards[k])];
  }

  /** Every step of a worker that is not blocked uses up some of the work there is. */
  lemma WorkDecreases<M>(s: State<M>, k: nat, tuning: int)
    requires Inv(s) && k < |s.shards| && !Blocked(s.shards[k])
    ensures Measure(Do(s, Work(k, tuning))) < Measure(s)
  {
    hide ChannelOk, SenderOk, ShardOk, Measure;
    var sh := s.shards[k];
    assert ShardOk(k, |s.shards|, s.ids, s.maxBatch, sh, s.senders);
    if Busy(sh.worker) {
      BusyRoute(k, |s.shards|, s.ids, s.maxBatch, sh, s.senders);
      InvParts(s, sh.worker.c);
      hide Inv;
      BusyDecreases(s, k, tuning);
    } else {
      hide Inv;
      BetweenDecreases(s, k, tuning);
    }
  }

  lemma BusyDecreases<M>(s: State<M>, k: nat, tuning: int)
    requires WellShaped(s) && k < |s.shards| && Busy(s.shards[k].worker) && s.shards[k].worker.c < |s.channels|
    requires ShardOk(k, |s.shards|, s.ids, s.maxBatch, s.shards[k], s.senders)
    ensures Measure(WorkerStep(s, k, tuning)) < Measure(s)
  {
    BusyRoute(k, |s.shards|, s.ids, s.maxBatch, s.shards[k], s.senders);
    ShardPopped(k, |s.shards|, s.ids, s.maxBatch, s.shards[k], s.senders);
    hide ShardOk, Measure;
    var w := s.shards[k].worker;
    var s' := FlushStep(s, k, w);
    if w.Requeue? {
      FlushRequeue(s, k);
    } else {
      FlushShape(s, k);
      FlushLoad(s, k);
    }
    hide FlushStep;
    MeasureMove(s, s', w.c, k);
  }

  lemma FlushLoad<M>(s: State<M>, k: nat)
    requires k < |s.shards| && Busy(s.shards[k].worker) && !s.shards[k].worker.Requeue? && s.shards[k].worker.c < |s.channels|
    requires s.shards[k].worker.Process? ==> |s.shards[k].worker.got| > 0
    ensures var c, s' := s.shards[k].worker.c, FlushStep(s, k, s.shards[k].worker);
            && |s'.channels| == |s.channels| && |s'.shards| == |s.shards|
            && 100 * (Unread(s'.channels[c]) - Unread(s.channels[c])) + Load(s'.shards[k]) - Load(s.shards[k]) < 0
  {
    hide FlushStep, Rank, Unread;
    FlushShape(s, k);
    FlushRank(s, k);
  }

  lemma FlushRank<M>(s: State<M>, k: nat)
    requires k < |s.shards| && Busy(s.shards[k].worker) && !s.shards[k].worker.Requeue? && s.shards[k].worker.c < |s.channels|
    requires s.shards[k].worker.Process? ==> |s.shards[k].worker.got| > 0
    ensures var c, s' := s.shards[k].worker.c, FlushStep(s, k, s.shards[k].worker);
            && |s'.channels| == |s.channels| && |s'.shards| == |s.shards|
            && 100 * (Unread(s'.channels[c]) - Unread(s.channels[c])) + Rank(s'.shards[k].worker) - Rank(s.shards[k].worker) < 0
  {
    if s.shards[k].worker.Drain? {
      hide ProcessStep, ClearStep, RecheckStep, SetStep;
    } else if s.shards[k].worker.Recheck? {
      hide DrainStep, ProcessStep, ClearStep, SetStep;
    } else {
      hide DrainStep, RecheckStep;
    }
  }

  lemma BetweenDecreases<M>(s: State<M>, k: nat, tuning: int)
    requires WellShaped(s) && k < |s.shards| && !Busy(s.shards[k].worker) && !Blocked(s.shards[k])
    requires ShardOk(k, |s.shards|, s.ids, s.maxBatch, s.shards[k], s.senders)
    ensures Measure(WorkerStep(s, k, tuning)) < Measure(s)
  {
    hide Measure;
    var sh := s.shards[k];
    var s' := WorkerStep(s, k, tuning);
    if sh.worker.Pop? && sh.popped < |sh.tokens| && sh.tokens[sh.popped].linked {
      MeasureMove(s, s', sh.tokens[sh.popped].ch, k);
    } else {
      MeasureQuiet(s, s', k);
    }
  }

  /** The worker to move next, if there is one. */
  ghost predicate AllBlocked<M>(s: State<M>) {
    forall k :: 0 <= k < |s.shards| ==> Blocked(s.shards[k])
  }

  predicate SameMail<M(==)>(s: State<M>, s': State<M>) {
    |s'.channels| == |s.channels| && forall c :: 0 <= c < |s.channels| ==> s'.channels[c].log == s.channels[c].log
  }

  lemma WorkKeepsMail<M>(s: State<M>, k: nat, tuning: int)
    requires WellShaped(s) && k < |s.shards|
    ensures SameMail(s, Do(s, Work(k, tuning))) && Do(s, Work(k, tuning)).senders == s.senders
  {
    hide FlushStep;
    if Busy(s.shards[k].worker) && s.shards[k].worker.c < |s.channels| { FlushKeepsMail(s, k); }
  }

  lemma FlushKeepsMail<M>(s: State<M>, k: nat)
    requires k < |s.shards| && Busy(s.shards[k].worker) && s.shards[k].worker.c < |s.channels|
    ensures SameMail(s, FlushStep(s, k, s.shards[k].worker)) && FlushStep(s, k, s.shards[k].worker).senders == s.senders
  {
  }

  /** The steps of a schedule that belong to workers with something to do. */
  function Moves<M>(s: State<M>, acts: seq<Action<M>>): nat
    requires WellShaped(s)
    decreases |acts|
  {
    if acts == [] then 0 else (if CanWork(s, acts[0]) then 1 else 0) + Moves(Do(s, acts[0]), acts[1..])
  }

  predicate CanWork<M>(s: State<M>, a: Action<M>) {
    a.Work? && a.k < |s.shards| && !Blocked(s.shards[a.k])
  }

  lemma BlockedWaits<M>(s: State<M>, a: Action<M>)
    requires WellShaped(s) && a.Work? && !CanWork(s, a)
    ensures Do(s, a) == s
  {
  }

  /** Once the senders pause, whichever worker moves next: no schedule of the workers has more than Measure steps of
      workers with something to do, and where it has left them all blocked, every channel is at rest with all its
      messages written in order. */
  lemma {:induction false} EveryRunEnds<M>(s: State<M>, acts: seq<Action<M>>)
    requires Inv(s) && NoSender(s) && forall i :: 0 <= i < |acts| ==> acts[i].Work?
    ensures var r := Exec(s, acts);
            && Inv(r) && SameMail(s, r) && Moves(s, acts) + Measure(r) <= Measure(s)
            && (AllBlocked(r) ==> forall c :: 0 <= c < |r.channels| ==> Settled(r.channels[c]))
    decreases |acts|
  {
    hide Measure, Settled;
    if acts == [] {
      if AllBlocked(s) { forall c | 0 <= c < |s.channels| ensures Settled(s.channels[c]) { IdleSettled(s, c); } }
    } else {
      var a := acts[0];
      if CanWork(s, a) {
        DoInv(s, a);
        WorkDecreases(s, a.k, a.tuning);
        WorkKeepsMail(s, a.k, a.tuning);
      } else {
        BlockedWaits(s, a);
      }
      hide Inv, Do, AllBlocked;
      EveryRunEnds(Do(s, a), acts[1..]);
    }
  }

  /** As long as a worker has something to do, a schedule can be continued; so there is one that ends with all blocked. */
  lemma {:induction false} WorkersFinish<M>(s: State<M>, tuning: int) returns (acts: seq<Action<M>>)
    requires Inv(s) && NoSender(s)
    ensures |acts| <= Measure(s) && (forall i :: 0 <= i < |acts| ==> acts[i].Work?)
    ensures var r := Exec(s, acts);
            AllBlocked(r) && SameMail(s, r) && forall c :: 0 <= c < |r.channels| ==> Settled(r.channels[c])
    decreases Measure(s)
  {
    hide Measure;
    if AllBlocked(s) {
      acts := [];
      forall c | 0 <= c < |s.channels| ensures Settled(s.channels[c]) { IdleSettled(s, c); }
    } else {
      var k: nat :| k < |s.shards| && !Blocked(s.shards[k]);
      var a: Action<M> := Work(k, tuning);
      DoInv(s, a);
      WorkDecreases(s, k, tuning);
      WorkKeepsMail(s, k, tuning);
      hide Inv, Do;
      var rest := WorkersFinish(Do(s, a), tuning);
      acts := [a] + rest;
      assert acts[1..] == rest;
    }
  }
}
