/**
 What one turn of a worker of SharedSend achieves for a channel while everybody else rests, from any state that any schedule has
 reached.
 */
module SharedSendAlone {
  import opened Prelude
  import opened SharedSend

  /** `n` steps of worker `k`. */
  function Turn<M>(s: State<M>, k: nat, n: nat): (r: State<M>)
    requires WellShaped(s)
    ensures WellShaped(r)
    decreases n
  {
    if n == 0 then s else Turn(Do(s, Work(k, 0)), k, n - 1)
  }

  predicate Ends<M>(log: seq<Cell<M>>, goal: nat, end: int) {
    goal == end || (goal < end && (goal >= |log| || !log[goal].linked))
  }

  /** A turn that began at position `base`, with `q` batches of `max` messages to spend, will leave the mailbox at `goal`: everything
      before is linked, and there the quota is used up or nothing is to be had. */
  predicate Aims<M>(c: nat, ch: Channel<M>, w: Pc<M>, max: nat, q: nat, base: nat, goal: nat) {
    && base <= ch.taken <= goal <= |ch.log| && (forall p :: ch.taken <= p < goal ==> ch.log[p].linked)
    && match w
       case Drain(d, got, used, quota) =>
         && d == c && quota == q && used < q && |got| <= max && Ends(ch.log, goal, ch.taken + Batches(q - used, max) - |got|)
         && (ch.taken - |got| == base + Batches(used, max) || (got == [] && goal == ch.taken <= base + Batches(used, max)))
       case Process(d, got, used, quota) =>
         && d == c && quota == q && used < q && 0 < |got| <= max && Ends(ch.log, goal, ch.taken + Batches(q - used - 1, max))
         && ch.taken - |got| == base + Batches(used, max) && (|got| < max ==> goal == ch.taken)
       case ClearPending(d, _, quota) => d == c && quota == q && Dry(ch, goal, base + Batches(q - 1, max))
       case Recheck(d, _, quota) => !ch.pending && d == c && quota == q && Dry(ch, goal, base + Batches(q - 1, max))
       case Requeue(d) => d == c && goal == ch.taken > base + Batches(q - 1, max)
       case Pop => Dry(ch, goal, base + Batches(q - 1, max)) && !ch.pending
       case _ => false
  }

  /** Nothing to be had, before the last batch. */
  predicate Dry<M>(ch: Channel<M>, goal: nat, last: int) {
    goal == ch.taken <= last && !Available(ch)
  }

  function Batches(n: int, max: nat): int { n * max }

  lemma OneBatch(n: int, max: nat)
    ensures Batches(n + 1, max) == Batches(n, max) + max
  {
  }

  lemma FewerBatches(n: int, q: int, max: nat)
    requires n <= q
    ensures Batches(n, max) <= Batches(q, max)
  {
  }

  predicate Over<M>(w: Pc<M>) { w.Pop? || w.Requeue? }

  ghost predicate Turning<M>(s: State<M>, k: nat, c: nat, q: nat, base: nat, goal: nat) {
    && WellShaped(s) && k < |s.shards| && c < |s.channels| && q > 0 && ShardOf(s, c) == k
    && Aims(c, s.channels[c], s.shards[k].worker, s.maxBatch, q, base, goal)
  }

  /** The same mailbox as before. */
  ghost predicate SameMail<M>(s: State<M>, r: State<M>, c: nat, k: nat) {
    && |r.channels| == |s.channels| && |r.shards| == |s.shards| && r.maxBatch == s.maxBatch
    && c < |s.channels| && r.channels[c].log == s.channels[c].log
  }

  lemma DrainGoes<M>(s: State<M>, k: nat, c: nat, q: nat, base: nat, goal: nat)
    requires Turning(s, k, c, q, base, goal) && s.shards[k].worker.Drain?
    ensures var r := DrainStep(s, k, s.shards[k].worker); Turning(r, k, c, q, base, goal) && SameMail(s, r, c, k)
  {
    var w := s.shards[k].worker;
    OneBatch(q - w.used - 1, s.maxBatch);
    FewerBatches(w.used, q - 1, s.maxBatch);
    FewerBatches(0, q - w.used - 1, s.maxBatch);
    hide Batches;
  }

  lemma ProcessGoes<M>(s: State<M>, k: nat, c: nat, q: nat, base: nat, goal: nat)
    requires Turning(s, k, c, q, base, goal) && s.shards[k].worker.Process?
    ensures var r := ProcessStep(s, k, s.shards[k].worker); Turning(r, k, c, q, base, goal) && SameMail(s, r, c, k)
  {
    var w := s.shards[k].worker;
    OneBatch(w.used, s.maxBatch);
    assert Batches(0, s.maxBatch) == 0;
    hide Batches;
  }

  lemma ClearGoes<M>(s: State<M>, k: nat, c: nat, q: nat, base: nat, goal: nat)
    requires Turning(s, k, c, q, base, goal) && (s.shards[k].worker.ClearPending? || s.shards[k].worker.Recheck?)
    ensures var w := s.shards[k].worker;
            var r := if w.ClearPending? then ClearStep(s, k, w) else RecheckStep(s, k, w);
            Turning(r, k, c, q, base, goal) && SameMail(s, r, c, k)
  {
    hide Batches;
  }

  lemma TurnGoes<M>(s: State<M>, k: nat, c: nat, q: nat, base: nat, goal: nat)
    requires Turning(s, k, c, q, base, goal) && !Over(s.shards[k].worker)
    ensures var r := Do(s, Work(k, 0)); Turning(r, k, c, q, base, goal) && SameMail(s, r, c, k)
  {
    var w := s.shards[k].worker;
    assert w.Drain? || w.Process? || w.ClearPending? || w.Recheck? by { hide Batches, Dry, Ends; }
    assert w.c == c by { hide Batches, Dry, Ends; }
    hide Turning, SameMail, DrainStep, ProcessStep, ClearStep, RecheckStep;
    if w.Drain? { DrainGoes(s, k, c, q, base, goal); }
    else if w.Process? { ProcessGoes(s, k, c, q, base, goal); }
    else { ClearGoes(s, k, c, q, base, goal); }
  }

  lemma TurningIs<M>(s: State<M>, k: nat, c: nat, q: nat, base: nat, goal: nat)
    requires Turning(s, k, c, q, base, goal)
    ensures WellShaped(s) && k < |s.shards| && c < |s.channels| && ShardOf(s, c) == k
    ensures !s.shards[k].worker.Wait?
  {
    hide Batches, Dry, Ends;
  }

  lemma {:induction false} TurnAlone<M>(s: State<M>, k: nat, c: nat, q: nat, base: nat, goal: nat) returns (n: nat)
    requires Inv(s) && Turning(s, k, c, q, base, goal)
    ensures var r := Turn(s, k, n); Inv(r) && Turning(r, k, c, q, base, goal) && Over(r.shards[k].worker) && SameMail(s, r, c, k)
    decreases Measure(s)
  {
    TurningIs(s, k, c, q, base, goal);
    if Over(s.shards[k].worker) {
      hide Inv, Turning, Measure;
      n := 0;
    } else {
      var a: Action<M> := Work(k, 0);
      TurnGoes(s, k, c, q, base, goal);
      WorkDecreases(s, k, 0);
      DoInv(s, a);
      hide Inv, Turning, Measure, Over, Do;
      n := TurnAlone(Do(s, a), k, c, q, base, goal);
      n := n + 1;
    }
  }

  /** A worker that has just taken a channel off its queue writes, in this turn, all that is there up to the quota of batches: if the next
      `n` messages are linked and then the quota ends or a link is missing, exactly these have been written when the turn is over. The
      channel goes back to the queue if the last batch of the quota was used, and is idle otherwise. */
  lemma TurnTakes<M(!new)>(s: State<M>, k: nat, n: nat) returns (steps: nat)
    requires Reachable(s) && WellShaped(s) && k < |s.shards|
    requires var w := s.shards[k].worker; w.Drain? && w.got == [] && w.used == 0 && w.quota > 0 && w.c < |s.channels|
    requires var w := s.shards[k].worker; var ch := s.channels[w.c];
             && ch.taken + n <= |ch.log| && (forall p :: ch.taken <= p < ch.taken + n ==> ch.log[p].linked)
             && (n == w.quota * s.maxBatch || (n < w.quota * s.maxBatch && (ch.taken + n == |ch.log| || !ch.log[ch.taken + n].linked)))
    ensures k < |Turn(s, k, steps).shards| && s.shards[k].worker.c < |Turn(s, k, steps).channels|
    ensures var w, r := s.shards[k].worker, Turn(s, k, steps); var c, w' := w.c, r.shards[k].worker;
            && r.channels[c].log == s.channels[c].log && r.channels[c].taken == s.channels[c].taken + n
            && r.channels[c].written == MsgsOf(s.channels[c].log[..s.channels[c].taken + n])
            && (if n > (w.quota - 1) * s.maxBatch then w' == Requeue(c) else w'.Pop? && !r.channels[c].pending)
  {
    ReachableInv(s);
    var w := s.shards[k].worker;
    var c, base := w.c, s.channels[w.c].taken;
    DrainRoute(s, k);
    assert Batches(0, s.maxBatch) == 0;
    assert Turning(s, k, c, w.quota, base, base + n) by { hide Inv, Reachable; }
    steps := TurnAlone(s, k, c, w.quota, base, base + n);
    var r := Turn(s, k, steps);
    TurnEnd(r, k, c, w.quota, base, base + n);
    hide Inv, Reachable, Turning, Turn;
  }

  lemma DrainRoute<M>(s: State<M>, k: nat)
    requires Inv(s) && k < |s.shards| && s.shards[k].worker.Drain? && s.shards[k].worker.c < |s.channels|
    ensures ShardOf(s, s.shards[k].worker.c) == k
  {
    assert ShardOk(k, |s.shards|, s.ids, s.maxBatch, s.shards[k], s.senders);
    hide Inv, TokensOk, WakeOk;
  }

  lemma TurnEnd<M>(r: State<M>, k: nat, c: nat, q: nat, base: nat, goal: nat)
    requires Inv(r) && Turning(r, k, c, q, base, goal) && Over(r.shards[k].worker)
    ensures var ch := r.channels[c];
            && ch.taken == goal && ch.written == MsgsOf(ch.log[..goal])
            && (if goal > base + (q - 1) * r.maxBatch then r.shards[k].worker == Requeue(c) else r.shards[k].worker.Pop? && !ch.pending)
  {
    assert ChannelOk(c, r.channels[c], r.shards[ShardOf(r, c)], r.senders);
    hide Inv, MailOk, WatchedOk;
    var ch := r.channels[c];
    assert FlowOk(c, ch, r.shards[k].worker);
    assert ch.written + [] == ch.written;
  }
}
