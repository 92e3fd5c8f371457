/**
 Closing a channel that has its own read goroutine (`znet/channel.go`, without the shared-send hook): any
 number of Close callers, one of them possibly inside OnRead, the read loop of Start, the send goroutine
 and the goroutine that finishes a close started in a read callback. One step per atomic access; Once.Do
 blocks a second caller until the first one returns, WaitGroup.Wait blocks until the count is zero.
 Start has registered with the wait group before the first step.
 */
module ChannelClose {
  import opened Prelude

  datatype Once = NotYet | Running | Done

  /** One thread's Close: thread 0 is the read goroutine, the others are any callers. */
  datatype Call = Out | LoadClosed | AtOnce | InOnce

  /** `closeBody`, run by the one caller inside closeOnce. */
  datatype Body =
    | SetClosed
    | StopQueue
    | CloseChan
    | CloseConn
    | WaitSend
    | LoadDepth
    | SetDefer
    | Spawn
    | WaitRead
    | AtFinal
    | InFinal
    | Leave

  /** `waitReadLoopAndFinalizeClose`. */
  datatype Finisher = Asleep | Waits | Enters | Finishes | Gone

  /** `finalizeCloseTail`, run by the one caller inside closeFinalizeOnce. */
  datatype Tail = CallClose | LoadDefer | TestBuffer | PutBuffer | NilBuffer | Return

  /** `Start`: the loop, its two deferred functions, the Close at its end. */
  datatype Reader =
    | Reading
    | EnterCallback
    | InCallback
    | LeaveCallback
    | ExitLoad
    | ExitClear
    | ExitTest
    | ExitPut
    | ExitNil
    | ExitDone
    | LastClose
    | Ended

  /** `puts` counts returns of the read buffer to its pool, `closeCalls` runs of the close callback. */
  datatype State = State(
    isClose: bool, once: Once, body: Body, final: Once, tail: Tail, finisher: Finisher,
    deferred: bool, depth: nat, registered: bool, sending: bool, chanClosed: bool, connClosed: bool, stopped: bool,
    present: bool, puts: nat, closeCalls: nat, reader: Reader, pcs: seq<Call>, runner: nat)

  /** `Arrive` and `Fail` are the network's: data, or an error on the connection. */
  datatype Action =
    | Close(t: nat)
    | Step(t: nat)
    | FinisherStep
    | ReaderStep
    | SendExit
    | Arrive
    | Fail

  function Init(threads: nat, sending: bool): State {
    State(false, NotYet, SetClosed, NotYet, CallClose, Asleep, false, 0, true, sending, false, false, false,
          true, 0, 0, Reading, seq(threads + 1, i => Out), 0)
  }

  // ----- steps ----------------------------------------------------------------------------------

  /** Where each program goes next ... */
  function TailNext(tail: Tail, deferred: bool, present: bool): Tail {
    match tail
    case CallClose => LoadDefer
    case LoadDefer => if deferred then Return else TestBuffer
    case TestBuffer => if present then PutBuffer else Return
    case PutBuffer => NilBuffer
    case NilBuffer => Return
    case Return => Return
  }

  function BodyNext(b: Body, sending: bool, depth: nat, registered: bool, final: Once): Body {
    match b
    case SetClosed => StopQueue
    case StopQueue => CloseChan
    case CloseChan => CloseConn
    case CloseConn => WaitSend
    case WaitSend => if sending then WaitSend else LoadDepth
    case LoadDepth => if depth > 0 then SetDefer else WaitRead
    case SetDefer => Spawn
    case Spawn => Leave
    case WaitRead => if registered then WaitRead else AtFinal
    case AtFinal => if final.NotYet? then InFinal else if final.Done? then Leave else AtFinal
    case InFinal => if final.Done? then Leave else InFinal
    case Leave => Leave
  }

  function FinisherNext(f: Finisher, registered: bool, final: Once): Finisher {
    match f
    case Asleep => Asleep
    case Waits => if registered then Waits else Enters
    case Enters => if final.NotYet? then Finishes else if final.Done? then Gone else Enters
    case Finishes => if final.Done? then Gone else Finishes
    case Gone => Gone
  }

  /** A closed connection ends the loop; a callback returns when its own Close has returned. */
  function ReaderNext(r: Reader, deferred: bool, present: bool, connClosed: bool, closing: bool): Reader {
    match r
    case Reading => if connClosed then ExitLoad else Reading
    case EnterCallback => InCallback
    case InCallback => if closing then InCallback else LeaveCallback
    case LeaveCallback => Reading
    case ExitLoad => if deferred then ExitClear else ExitDone
    case ExitClear => ExitTest
    case ExitTest => if present then ExitPut else ExitDone
    case ExitPut => ExitNil
    case ExitNil => ExitDone
    case ExitDone => LastClose
    case LastClose => if closing then LastClose else Ended
    case Ended => Ended
  }

  /** ... and what each step does on the way. */
  function TailStep(s: State): State {
    s.(tail := TailNext(s.tail, s.deferred, s.present),
       closeCalls := if s.tail.CallClose? then s.closeCalls + 1 else s.closeCalls,
       puts := if s.tail.PutBuffer? then s.puts + 1 else s.puts,
       present := s.present && !s.tail.NilBuffer?,
       final := if s.tail.Return? then Done else s.final)
  }

  function BodyStep(s: State, t: nat): State
    requires t < |s.pcs|
  {
    if s.body.Leave? then s.(once := Done, pcs := s.pcs[t := Out])
    else if s.body.InFinal? && s.final.Running? then TailStep(s)
    else
      s.(body := BodyNext(s.body, s.sending, s.depth, s.registered, s.final),
         isClose := s.isClose || s.body.SetClosed?,
         stopped := s.stopped || s.body.StopQueue?,
         chanClosed := s.chanClosed || s.body.CloseChan?,
         connClosed := s.connClosed || s.body.CloseConn?,
         deferred := s.deferred || s.body.SetDefer?,
         finisher := if s.body.Spawn? then Waits else s.finisher,
         final := if s.body.AtFinal? && s.final.NotYet? then Running else s.final)
  }

  function FinishStep(s: State): State {
    if s.finisher.Finishes? && s.final.Running? then TailStep(s)
    else
      s.(finisher := FinisherNext(s.finisher, s.registered, s.final),
         final := if s.finisher.Enters? && s.final.NotYet? then Running else s.final)
  }

  function CallNext(c: Call, isClose: bool, once: Once): Call {
    match c
    case Out => Out
    case LoadClosed => if isClose then Out else AtOnce
    case AtOnce => if once.NotYet? then InOnce else if once.Done? then Out else AtOnce
    case InOnce => InOnce
  }

  /** One step of a Close call. */
  function CallStep(s: State, t: nat): State
    requires t < |s.pcs|
  {
    if s.pcs[t].InOnce? then BodyStep(s, t)
    else
      var first := s.pcs[t].AtOnce? && s.once.NotYet?;
      s.(pcs := s.pcs[t := CallNext(s.pcs[t], s.isClose, s.once)],
         once := if first then Running else s.once, runner := if first then t else s.runner)
  }

  /** The read goroutine: after the loop it gives the buffer back if a close asked for that, signs off from
      the wait group, and calls Close itself. */
  function ReadStep(s: State): State {
    s.(reader := ReaderNext(s.reader, s.deferred, s.present, s.connClosed, s.pcs != [] && !s.pcs[0].Out?),
       depth := if s.reader.EnterCallback? then s.depth + 1 else if s.reader.LeaveCallback? && s.depth > 0 then s.depth - 1 else s.depth,
       deferred := s.deferred && !s.reader.ExitClear?,
       puts := if s.reader.ExitPut? then s.puts + 1 else s.puts,
       present := s.present && !s.reader.ExitNil?,
       registered := s.registered && !s.reader.ExitDone?,
       pcs := if s.reader.ExitDone? && s.pcs != [] then s.pcs[0 := LoadClosed] else s.pcs)
  }

  function Do(s: State, a: Action): State {
    match a
    case Close(t) =>
      if t < |s.pcs| && s.pcs[t].Out? && (t == 0 ==> s.reader.InCallback?) then s.(pcs := s.pcs[t := LoadClosed]) else s
    case Step(t) => if t < |s.pcs| then CallStep(s, t) else s
    case FinisherStep => FinishStep(s)
    case ReaderStep => ReadStep(s)
    case SendExit => if s.chanClosed then s.(sending := false) else s
    case Arrive => if s.reader.Reading? then s.(reader := EnterCallback) else s
    case Fail => if s.reader.Reading? then s.(reader := ExitLoad) else s
  }

  function Exec(s: State, acts: seq<Action>): State
    decreases |acts|
  {
    if acts == [] then s else Exec(Do(s, acts[0]), acts[1..])
  }

  // ----- invariant ------------------------------------------------------------------------------

  /** Exactly one thread is inside closeOnce while it runs; the read goroutine closes only from a callback
      or at its very end. */
  ghost predicate OnceOk(once: Once, pcs: seq<Call>, runner: nat, reader: Reader) {
    && |pcs| > 0
    && (once.Running? ==> runner < |pcs| && pcs[runner].InOnce?)
    && (forall t :: 0 <= t < |pcs| && pcs[t].InOnce? ==> once.Running? && t == runner)
    && (!pcs[0].Out? ==> reader.InCallback? || reader.LastClose?)
  }

  ghost predicate Shut(s: State) {
    s.isClose && s.stopped && s.chanClosed && s.connClosed && !s.sending
  }

  predicate Early(b: Body) {
    b.SetClosed? || b.StopQueue? || b.CloseChan? || b.CloseConn? || b.WaitSend?
  }

  /** How far the shutting down has come. */
  ghost predicate StageOk(once: Once, b: Body, isClose: bool, stopped: bool, chanClosed: bool, connClosed: bool, sending: bool) {
    && (once.NotYet? ==> b.SetClosed?) && (once.Done? ==> b.Leave?)
    && (isClose <==> !b.SetClosed?)
    && (stopped <==> !b.SetClosed? && !b.StopQueue?)
    && (chanClosed <==> !b.SetClosed? && !b.StopQueue? && !b.CloseChan?)
    && (connClosed <==> !Early(b) || b.WaitSend?)
    && (!Early(b) ==> !sending)
  }

  predicate Looping(r: Reader) {
    r.Reading? || r.EnterCallback? || r.InCallback? || r.LeaveCallback?
  }

  predicate SignedOff(r: Reader) {
    r.LastClose? || r.Ended?
  }

  ghost predicate ReaderOk(depth: nat, registered: bool, reader: Reader, pcs: seq<Call>, isClose: bool) {
    && depth == (if reader.InCallback? || reader.LeaveCallback? then 1 else 0)
    && (registered <==> !SignedOff(reader))
    && (reader.Ended? || (reader.LastClose? && pcs != [] && pcs[0].Out?) ==> isClose)
  }

  /** Before the body has decided who finishes, nobody does; afterwards the body or the finisher, not both. */
  ghost predicate FinalOk(b: Body, final: Once, tail: Tail, f: Finisher) {
    && (match f
        case Asleep => if b.Leave? then final.Done? else if b.InFinal? then !final.NotYet? else final.NotYet?
        case Waits => b.Leave? && final.NotYet?
        case Enters => b.Leave? && final.NotYet?
        case Finishes => b.Leave? && !final.NotYet?
        case Gone => b.Leave? && final.Done?)
    && (final.NotYet? ==> tail.CallClose?) && (final.Done? ==> tail.Return?)
  }

  /** Nobody gets as far as the final part before the read goroutine has signed off. */
  ghost predicate LateOk(b: Body, final: Once, f: Finisher, registered: bool) {
    b.AtFinal? || b.InFinal? || f.Enters? || !final.NotYet? ==> !registered
  }

  /** While the body waits for the read goroutine, that one is not waiting for the body. */
  ghost predicate KeyOk(b: Body, registered: bool, pcs: seq<Call>) {
    b.WaitRead? && registered && pcs != [] ==> !pcs[0].AtOnce? && !pcs[0].InOnce?
  }

  /** The buffer is with its channel exactly until it is put back; the read loop always has it. */
  ghost predicate BufferOk(present: bool, puts: nat, reader: Reader, tail: Tail) {
    && (if reader.ExitNil? || tail.NilBuffer? then puts == 1 && present else puts == if present then 0 else 1)
    && (reader.ExitPut? || tail.PutBuffer? || Looping(reader) || reader.ExitLoad? || reader.ExitClear? ==> present)
  }

  predicate Releasing(r: Reader) {
    r.ExitTest? || r.ExitPut? || r.ExitNil?
  }

  /** The request to give the buffer back is made by a body that leaves the rest to the finisher, and the
      read goroutine withdraws it before it gives the buffer back. */
  ghost predicate RequestOk(deferred: bool, reader: Reader, b: Body) {
    && (deferred || reader.ExitClear? || Releasing(reader) ==> b.Spawn? || b.Leave?)
    && (Releasing(reader) ==> !deferred)
  }

  /** After the final part the buffer is still out exactly if the request is still standing. */
  ghost predicate LeakOk(deferred: bool, puts: nat, tail: Tail, b: Body) {
    && (tail.TestBuffer? || tail.PutBuffer? || tail.NilBuffer? ==> !deferred)
    && (puts == 1 ==> !deferred && (b.Spawn? || b.Leave? || b.InFinal?))
    && (tail.Return? ==> (puts == 0 <==> deferred))
  }

  ghost predicate Inv(s: State) {
    && OnceOk(s.once, s.pcs, s.runner, s.reader)
    && StageOk(s.once, s.body, s.isClose, s.stopped, s.chanClosed, s.connClosed, s.sending)
    && ReaderOk(s.depth, s.registered, s.reader, s.pcs, s.isClose)
    && FinalOk(s.body, s.final, s.tail, s.finisher) && LateOk(s.body, s.final, s.finisher, s.registered)
    && KeyOk(s.body, s.registered, s.pcs)
    && BufferOk(s.present, s.puts, s.reader, s.tail) && RequestOk(s.deferred, s.reader, s.body)
    && LeakOk(s.deferred, s.puts, s.tail, s.body)
    && s.closeCalls == if s.tail.CallClose? then 0 else 1
  }

  lemma InitInv(threads: nat, sending: bool)
    ensures Inv(Init(threads, sending))
  {
  }

  lemma TailInv(s: State)
    requires Inv(s) && s.final.Running?
    ensures Inv(TailStep(s))
  {
  }

  lemma FinishInv(s: State)
    requires Inv(s)
    ensures Inv(FinishStep(s))
  {
    if s.finisher.Finishes? && s.final.Running? { TailInv(s); }
    hide TailStep;
  }

  lemma BodyInv(s: State)
    requires Inv(s) && s.once.Running? && s.runner < |s.pcs|
    ensures Inv(BodyStep(s, s.runner))
  {
    if s.body.InFinal? && s.final.Running? { TailInv(s); }
    hide TailStep;
  }

  /** Trying to get into closeOnce. */
  lemma EnterInv(s: State, t: nat)
    requires Inv(s) && t < |s.pcs| && !s.pcs[t].InOnce?
    ensures Inv(CallStep(s, t))
  {
    hide BodyStep;
  }

  lemma CallInv(s: State, t: nat)
    requires Inv(s) && t < |s.pcs|
    ensures Inv(CallStep(s, t))
  {
    if s.pcs[t].InOnce? {
      assert s.once.Running? && t == s.runner;
      hide Inv, BodyStep;
      BodyInv(s);
    } else {
      EnterInv(s, t);
    }
  }

  lemma ReadInv(s: State)
    requires Inv(s)
    ensures Inv(ReadStep(s))
  {
  }

  lemma EventInv(s: State, a: Action)
    requires Inv(s) && (a.Close? || a.SendExit? || a.Arrive? || a.Fail?)
    ensures Inv(Do(s, a))
  {
  }

  /** Every step of every thread keeps the invariant. */
  lemma DoInv(s: State, a: Action)
    requires Inv(s)
    ensures Inv(Do(s, a))
  {
    hide Inv, CallStep, FinishStep, ReadStep;
    match a
    case Step(t) => if t < |s.pcs| { CallInv(s, t); }
    case FinisherStep => FinishInv(s);
    case ReaderStep => ReadInv(s);
    case _ => EventInv(s, a);
  }

  lemma {:induction false} ExecInv(s: State, acts: seq<Action>)
    requires Inv(s)
    ensures Inv(Exec(s, acts))
    decreases |acts|
  {
    if acts != [] {
      DoInv(s, acts[0]);
      hide Inv, Do;
      ExecInv(Do(s, acts[0]), acts[1..]);
    }
  }

  // ----- main results ---------------------------------------------------------------------------

  ghost predicate Reachable(s: State) {
    exists threads: nat, sending: bool, acts: seq<Action> :: s == Exec(Init(threads, sending), acts)
  }

  lemma ReachableInv(s: State)
    requires Reachable(s)
    ensures Inv(s)
  {
    var threads: nat, sending: bool, acts: seq<Action> :| s == Exec(Init(threads, sending), acts);
    InitInv(threads, sending);
    ExecInv(Init(threads, sending), acts);
  }

  /** A closer that waits for the read goroutine never meets that goroutine waiting for closeOnce. */
  lemma NoCircularWait(s: State)
    requires Reachable(s) && s.pcs != []
    requires s.once.Running? && s.body.WaitRead? && s.registered
    ensures !s.pcs[0].AtOnce? && !s.pcs[0].InOnce?
  {
    ReachableInv(s);
  }

  /** The close callback runs at most once, and only after the read loop has been left for good. */
  lemma CloseCallOnce(s: State)
    requires Reachable(s)
    ensures s.closeCalls <= 1 && (s.closeCalls == 1 ==> !s.registered && !Looping(s.reader) && Shut(s))
  {
    ReachableInv(s);
  }

  /** The read buffer goes back to its pool at most once, and never while the read loop may use it. */
  lemma BufferReturnedAtMostOnce(s: State)
    requires Reachable(s)
    ensures s.puts <= 1 && (Looping(s.reader) ==> s.puts == 0 && s.present)
  {
    ReachableInv(s);
  }

  /** A step that the program takes on its own, without news from the network and without a new Close call. */
  predicate Internal(a: Action) {
    a.Step? || a.FinisherStep? || a.ReaderStep? || a.SendExit?
  }

  ghost predicate AtRest(s: State) {
    forall a: Action :: Internal(a) ==> Do(s, a) == s
  }

  /** When nothing moves by itself any more, either nobody has closed the channel and the read goroutine
      waits for data, or every Close has returned, every goroutine has ended, the callback has run exactly
      once, and the buffer is back unless the request to the read goroutine came after its last look. */
  lemma RestMeansClosed(s: State)
    requires Reachable(s) && AtRest(s)
    ensures forall t :: 0 <= t < |s.pcs| ==> s.pcs[t].Out?
    ensures s.once.NotYet? ==> s.reader.Reading? && !s.isClose && s.closeCalls == 0 && s.puts == 0
    ensures !s.once.NotYet? ==>
              s.once.Done? && Shut(s) && s.reader.Ended? && s.closeCalls == 1 && (s.finisher.Asleep? || s.finisher.Gone?)
    ensures !s.once.NotYet? ==> (s.puts == 1 <==> !s.deferred)
  {
    ReachableInv(s);
    hide Reachable;
    NoRunner(s);
    NoFinisher(s);
    forall t | 0 <= t < |s.pcs| ensures s.pcs[t].Out? { assert Do(s, Step(t)) == s; }
    hide AtRest;
    NoCaller(s);
  }

  /** Nobody is left inside closeOnce. */
  lemma NoRunner(s: State)
    requires Inv(s) && AtRest(s)
    ensures !s.once.Running?
  {
    if s.once.Running? {
      assert Do(s, Step(s.runner)) == s;
      assert Do(s, SendExit) == s;
      assert Do(s, ReaderStep) == s;
      assert Do(s, Step(0)) == s;
      hide AtRest;
      StuckBody(s);
    }
  }

  /** The only places where the body can be held up. */
  lemma StuckBody(s: State)
    requires Inv(s) && s.once.Running? && BodyStep(s, s.runner) == s
    ensures (s.body.WaitSend? && s.sending) || (s.body.WaitRead? && s.registered)
  {
  }

  lemma NoFinisher(s: State)
    requires Inv(s) && AtRest(s) && !s.once.Running?
    ensures s.finisher.Asleep? || s.finisher.Gone?
    ensures !s.once.NotYet? ==> s.reader.Ended?
    ensures s.once.NotYet? ==> s.reader.Reading?
  {
    assert Do(s, FinisherStep) == s;
    assert Do(s, ReaderStep) == s;
    assert Do(s, Step(0)) == s;
    hide AtRest;
  }

  lemma NoCaller(s: State)
    requires Inv(s) && !s.once.Running? && (s.finisher.Asleep? || s.finisher.Gone?)
    requires s.once.NotYet? ==> s.reader.Reading?
    ensures s.once.Done? ==> s.final.Done? && (s.puts == 1 <==> !s.deferred) && s.closeCalls == 1
    ensures s.once.NotYet? ==> s.closeCalls == 0 && s.puts == 0
  {
  }

  // ----- every Close returns --------------------------------------------------------------------

  function CallRank(c: Call): nat {
    match c
    case Out => 0
    case LoadClosed => 3
    case AtOnce => 2
    case InOnce => 1
  }

  function BodyRank(b: Body): nat {
    match b
    case SetClosed => 10
    case StopQueue => 9
    case CloseChan => 8
    case CloseConn => 7
    case WaitSend => 6
    case LoadDepth => 5
    case SetDefer => 2
    case Spawn => 1
    case WaitRead => 4
    case AtFinal => 3
    case InFinal => 2
    case Leave => 0
  }

  function FinisherRank(f: Finisher): nat {
    match f
    case Asleep => 4
    case Waits => 3
    case Enters => 2
    case Finishes => 1
    case Gone => 0
  }

  function TailRank(t: Tail): nat {
    match t
    case CallClose => 5
    case LoadDefer => 4
    case TestBuffer => 3
    case PutBuffer => 2
    case NilBuffer => 1
    case Return => 0
  }

  function ReaderRank(r: Reader): nat {
    match r
    case EnterCallback => 15
    case InCallback => 14
    case LeaveCallback => 13
    case Reading => 12
    case ExitLoad => 11
    case ExitClear => 10
    case ExitTest => 9
    case ExitPut => 8
    case ExitNil => 7
    case ExitDone => 6
    case LastClose => 1
    case Ended => 0
  }

  function OnceRank(o: Once): nat {
    match o
    case NotYet => 2
    case Running => 1
    case Done => 0
  }

  function CallRanks(pcs: seq<Call>): seq<nat> {
    seq(|pcs|, t requires 0 <= t < |pcs| => CallRank(pcs[t]))
  }

  function Measure(s: State): nat {
    Sum(CallRanks(s.pcs)) + BodyRank(s.body) + FinisherRank(s.finisher) + TailRank(s.tail) + OnceRank(s.final)
    + ReaderRank(s.reader) + if s.sending then 1 else 0
  }

  lemma PcMeasure(pcs: seq<Call>, t: nat, c: Call)
    requires t < |pcs|
    ensures Sum(CallRanks(pcs[t := c])) == Sum(CallRanks(pcs)) - CallRank(pcs[t]) + CallRank(c)
  {
    SumUpdate(CallRanks(pcs), t, CallRank(c));
    assert CallRanks(pcs[t := c]) == CallRanks(pcs)[t := CallRank(c)];
  }

  lemma EnterDecreases(s: State, t: nat)
    requires t < |s.pcs| && !s.pcs[t].InOnce? && CallStep(s, t) != s
    ensures Measure(CallStep(s, t)) < Measure(s)
  {
    var c := CallStep(s, t).pcs[t];
    PcMeasure(s.pcs, t, c);
    hide CallRanks, Sum, BodyStep, BodyRank, FinisherRank, TailRank, ReaderRank, OnceRank;
  }

  lemma CallDecreases(s: State, t: nat)
    requires Inv(s) && t < |s.pcs| && CallStep(s, t) != s
    ensures Measure(CallStep(s, t)) < Measure(s)
  {
    assert s.body.Spawn? ==> s.finisher.Asleep?;
    hide Inv, BodyStep, Measure;
    if s.pcs[t].InOnce? { BodyDecreases(s, t); } else { EnterDecreases(s, t); }
  }

  lemma BodyDecreases(s: State, t: nat)
    requires t < |s.pcs| && s.pcs[t].InOnce? && BodyStep(s, t) != s && (s.body.Spawn? ==> s.finisher.Asleep?)
    ensures Measure(BodyStep(s, t)) < Measure(s)
  {
    hide CallRanks, Sum, ReaderRank;
    if s.body.Leave? {
      PcMeasure(s.pcs, t, Out);
      hide TailStep, BodyNext, BodyRank, FinisherRank, TailRank, OnceRank;
    } else if s.body.InFinal? && s.final.Running? {
      TailDecreases(s);
      hide BodyRank, FinisherRank, TailRank, OnceRank, TailNext, BodyNext;
    } else {
      BodyGoesOn(s, t);
    }
  }

  lemma BodyGoesOn(s: State, t: nat)
    requires t < |s.pcs| && !s.body.Leave? && !(s.body.InFinal? && s.final.Running?)
    requires BodyStep(s, t) != s && (s.body.Spawn? ==> s.finisher.Asleep?)
    ensures Measure(BodyStep(s, t)) < Measure(s)
  {
    BodyRankDrops(s.body, s.sending, s.depth, s.registered, s.final, s.finisher);
    hide CallRanks, Sum, ReaderRank, TailRank, TailStep, BodyNext, BodyRank, FinisherRank, OnceRank;
  }

  lemma BodyRankDrops(b: Body, sending: bool, depth: nat, registered: bool, final: Once, f: Finisher)
    requires !b.Leave? && (b.Spawn? ==> f.Asleep?)
    ensures var b', f', o := BodyNext(b, sending, depth, registered, final), if b.Spawn? then Waits else f,
                             if b.AtFinal? && final.NotYet? then Running else final;
            if b' == b then !b.SetClosed? && !b.StopQueue? && !b.CloseChan? && !b.CloseConn? && !b.SetDefer? && !b.Spawn? && o == final
            else BodyRank(b') + FinisherRank(f') + OnceRank(o) < BodyRank(b) + FinisherRank(f) + OnceRank(final)
  {
  }

  lemma ReadDecreases(s: State)
    requires ReadStep(s) != s
    ensures Measure(ReadStep(s)) < Measure(s)
  {
    if s.pcs != [] { PcMeasure(s.pcs, 0, LoadClosed); }
    hide CallRanks, Sum, BodyRank, FinisherRank, TailRank;
  }

  lemma TailDecreases(s: State)
    requires s.final.Running?
    ensures TailRank(TailStep(s).tail) + OnceRank(TailStep(s).final) < TailRank(s.tail) + OnceRank(s.final)
  {
  }

  lemma FinishDecreases(s: State)
    requires FinishStep(s) != s
    ensures Measure(FinishStep(s)) < Measure(s)
  {
    if s.finisher.Finishes? && s.final.Running? {
      TailDecreases(s);
      hide CallRanks, Sum, BodyRank, ReaderRank, FinisherRank, TailRank, OnceRank, TailNext;
    } else {
      hide CallRanks, Sum, BodyRank, ReaderRank, TailRank, TailStep;
    }
  }

  lemma SendDecreases(s: State)
    requires s.sending
    ensures Measure(s.(sending := false)) < Measure(s)
  {
    hide CallRanks, Sum, BodyRank, ReaderRank, FinisherRank, TailRank, OnceRank;
  }

  /** No program runs on by itself for ever. */
  lemma InternalDecreases(s: State, a: Action)
    requires Inv(s) && Internal(a) && Do(s, a) != s
    ensures Measure(Do(s, a)) < Measure(s)
  {
    hide Inv, CallStep, ReadStep, FinishStep, Measure;
    match a
    case Step(t) => if t < |s.pcs| { CallDecreases(s, t); }
    case ReaderStep => ReadDecreases(s);
    case FinisherStep => FinishDecreases(s);
    case SendExit => if s.sending { SendDecreases(s); }
  }

  /** The steps of a schedule that are not waiting. */
  function Moves(s: State, acts: seq<Action>): nat
    decreases |acts|
  {
    if acts == [] then 0 else (if Do(s, acts[0]) == s then 0 else 1) + Moves(Do(s, acts[0]), acts[1..])
  }

  /** However far the close has come, whoever moves next: no schedule of the program's own steps has more than
      Measure steps that move. What has been reached where none is left, RestMeansClosed says. */
  lemma {:induction false} EveryRunEnds(s: State, acts: seq<Action>)
    requires Inv(s) && forall i :: 0 <= i < |acts| ==> Internal(acts[i])
    ensures Inv(Exec(s, acts)) && Moves(s, acts) + Measure(Exec(s, acts)) <= Measure(s)
    decreases |acts|
  {
    hide Inv, Measure, Do;
    if acts != [] {
      DoInv(s, acts[0]);
      if Do(s, acts[0]) != s { InternalDecreases(s, acts[0]); }
      EveryRunEnds(Do(s, acts[0]), acts[1..]);
    }
  }

  /** As long as somebody can move, a schedule can be continued; so there is one that leads to rest. */
  lemma {:induction false} ComesToRest(s: State) returns (acts: seq<Action>)
    requires Inv(s)
    ensures |acts| <= Measure(s) && (forall i :: 0 <= i < |acts| ==> Internal(acts[i])) && AtRest(Exec(s, acts))
    decreases Measure(s)
  {
    hide Inv, Measure, Do;
    if AtRest(s) {
      acts := [];
    } else {
      var a: Action :| Internal(a) && Do(s, a) != s;
      DoInv(s, a);
      InternalDecreases(s, a);
      var rest := ComesToRest(Do(s, a));
      acts := [a] + rest;
      assert acts[1..] == rest;
    }
  }

  lemma {:induction false} ExecSnoc(s: State, acts: seq<Action>, a: Action)
    ensures Exec(s, acts + [a]) == Do(Exec(s, acts), a)
    decreases |acts|
  {
    hide Do;
    if acts == [] {
      assert acts + [a] == [a];
      assert Exec(Do(s, a), []) == Do(s, a);
    } else {
      assert (acts + [a])[0] == acts[0] && (acts + [a])[1..] == acts[1..] + [a];
      ExecSnoc(Do(s, acts[0]), acts[1..], a);
    }
  }

  lemma ReachableDo(s: State, a: Action)
    requires Reachable(s)
    ensures Reachable(Do(s, a))
  {
    hide Do;
    var threads: nat, sending: bool, acts: seq<Action> :| s == Exec(Init(threads, sending), acts);
    ExecSnoc(Init(threads, sending), acts, a);
  }

  lemma {:induction false} ReachableExec(s: State, acts: seq<Action>)
    requires Reachable(s)
    ensures Reachable(Exec(s, acts))
    decreases |acts|
  {
    hide Do, Reachable;
    if acts != [] {
      ReachableDo(s, acts[0]);
      ReachableExec(Do(s, acts[0]), acts[1..]);
    }
  }

  lemma {:induction false} StaysBegun(s: State, acts: seq<Action>)
    requires !s.once.NotYet?
    ensures !Exec(s, acts).once.NotYet?
    decreases |acts|
  {
    if acts != [] {
      StillBegun(s, acts[0]);
      hide Do;
      StaysBegun(Do(s, acts[0]), acts[1..]);
    }
  }

  lemma StillBegun(s: State, a: Action)
    requires !s.once.NotYet?
    ensures !Do(s, a).once.NotYet?
  {
    hide CallStep, FinishStep, ReadStep;
    match a
    case Step(t) => if t < |s.pcs| { CallKeepsOnce(s, t); }
    case FinisherStep => FinishKeepsOnce(s);
    case ReaderStep => ReadKeepsOnce(s);
    case _ =>
  }

  lemma CallKeepsOnce(s: State, t: nat)
    requires !s.once.NotYet? && t < |s.pcs|
    ensures !CallStep(s, t).once.NotYet? && CallStep(s, t).runner == s.runner
  {
    hide BodyStep, CallNext;
    BodyFrame(s, t);
  }

  lemma BodyFrame(s: State, t: nat)
    requires t < |s.pcs|
    ensures BodyStep(s, t).runner == s.runner && (BodyStep(s, t).once == s.once || BodyStep(s, t).once.Done?)
  {
    hide TailStep, BodyNext;
    TailKeepsOnce(s);
  }

  lemma TailKeepsOnce(s: State)
    ensures TailStep(s).once == s.once && TailStep(s).runner == s.runner
  {
    hide TailNext;
  }

  lemma FinishKeepsOnce(s: State)
    ensures FinishStep(s).once == s.once && FinishStep(s).runner == s.runner
  {
    hide TailStep, FinisherNext;
    TailKeepsOnce(s);
  }

  lemma ReadKeepsOnce(s: State)
    ensures ReadStep(s).once == s.once && ReadStep(s).runner == s.runner
  {
    hide ReaderNext;
  }

  /** A close that has begun can always be completed by the program's own steps: all Close calls return, all
      goroutines end, and the close callback has run exactly once. */
  lemma CloseCompletes(s: State) returns (acts: seq<Action>)
    requires Reachable(s) && !s.once.NotYet?
    ensures forall i :: 0 <= i < |acts| ==> Internal(acts[i])
    ensures var r := Exec(s, acts);
            && Shut(r) && r.once.Done? && r.closeCalls == 1 && r.reader.Ended?
            && forall t :: 0 <= t < |r.pcs| ==> r.pcs[t].Out?
  {
    ReachableInv(s);
    hide Inv, Reachable, AtRest;
    acts := ComesToRest(s);
    ReachableExec(s, acts);
    StaysBegun(s, acts);
    RestMeansClosed(Exec(s, acts));
  }

  // ----- when the buffer comes back -------------------------------------------------------------

  /** Nobody asks the read goroutine for the buffer any more. */
  predicate Quiet(s: State) {
    !s.deferred && !Early(s.body) && !s.body.LoadDepth? && !s.body.SetDefer?
  }

  /** The request is made, and the read goroutine has still to look. */
  predicate Asked(s: State) {
    s.deferred && (Looping(s.reader) || s.reader.ExitLoad? || s.reader.ExitClear?)
  }

  /** The body runs on the read goroutine, or that goroutine waits for it inside its callback: it cannot leave before
      the request is made. */
  predicate Held(s: State) {
    && s.once.Running? && s.pcs != []
    && ((s.runner == 0 && (Early(s.body) || s.body.LoadDepth?))
        || (s.body.SetDefer? && s.reader.InCallback? && (s.pcs[0].AtOnce? || s.pcs[0].InOnce?)))
  }

  predicate Safe(s: State) {
    !s.once.NotYet? && (Quiet(s) || Asked(s) || Held(s))
  }

  /** The read goroutine has looked for a request, found none, and will not look again. */
  predicate Passed(r: Reader) {
    r.ExitDone? || r.LastClose? || r.Ended?
  }

  predicate Missing(s: State) {
    !s.once.NotYet? && s.deferred && Passed(s.reader)
  }

  lemma TailKeepsFate(s: State)
    ensures var r := TailStep(s);
            r.once == s.once && r.deferred == s.deferred && r.body == s.body && r.reader == s.reader && r.pcs == s.pcs && r.runner == s.runner
  {
    hide TailNext;
  }

  lemma FinishKeepsFate(s: State)
    ensures var r := FinishStep(s);
            r.once == s.once && r.deferred == s.deferred && r.body == s.body && r.reader == s.reader && r.pcs == s.pcs && r.runner == s.runner
  {
    hide TailStep, FinisherNext;
    TailKeepsFate(s);
  }

  lemma BodyKeepsFate(s: State)
    requires Inv(s) && s.once.Running? && s.runner < |s.pcs|
    ensures Safe(s) ==> Safe(BodyStep(s, s.runner))
    ensures Missing(s) ==> Missing(BodyStep(s, s.runner))
  {
    hide TailStep, FinalOk, LateOk, KeyOk, BufferOk, LeakOk;
    TailKeepsFate(s);
  }

  lemma CallKeepsFate(s: State, t: nat)
    requires Inv(s) && t < |s.pcs|
    ensures Safe(s) ==> Safe(CallStep(s, t))
    ensures Missing(s) ==> Missing(CallStep(s, t))
  {
    if s.pcs[t].InOnce? {
      assert t == s.runner && s.once.Running?;
      hide Inv, BodyStep, Safe, Missing;
      BodyKeepsFate(s);
    } else {
      hide BodyStep, FinalOk, LateOk, KeyOk, BufferOk, LeakOk;
    }
  }

  lemma ReadKeepsFate(s: State)
    requires Inv(s)
    ensures Safe(s) ==> Safe(ReadStep(s))
    ensures Missing(s) ==> Missing(ReadStep(s))
  {
    hide FinalOk, LateOk, KeyOk, BufferOk, LeakOk;
  }

  lemma EventKeepsFate(s: State, a: Action)
    requires Inv(s) && (a.Close? || a.SendExit? || a.Arrive? || a.Fail?)
    ensures Safe(s) ==> Safe(Do(s, a))
    ensures Missing(s) ==> Missing(Do(s, a))
  {
    hide StageOk, ReaderOk, FinalOk, LateOk, KeyOk, BufferOk, RequestOk, LeakOk, CallStep, FinishStep, ReadStep;
  }

  /** What will become of the buffer does not change any more. */
  lemma DoKeepsFate(s: State, a: Action)
    requires Inv(s)
    ensures Safe(s) ==> Safe(Do(s, a))
    ensures Missing(s) ==> Missing(Do(s, a))
  {
    match a
    case Step(t) => hide Inv, CallStep, Safe, Missing; if t < |s.pcs| { CallKeepsFate(s, t); }
    case FinisherStep => hide Inv, FinishStep; FinishKeepsFate(s);
    case ReaderStep => hide Inv, ReadStep, Safe, Missing; ReadKeepsFate(s);
    case _ => hide Inv, Safe, Missing; EventKeepsFate(s, a);
  }

  lemma {:induction false} Fate(s: State, acts: seq<Action>)
    requires Reachable(s)
    ensures var r := Exec(s, acts);
            && (Safe(s) && AtRest(r) ==> r.puts == 1)
            && (Missing(s) && AtRest(r) ==> r.puts == 0)
    decreases |acts|
  {
    ReachableInv(s);
    if acts == [] {
      if AtRest(s) { RestMeansClosed(s); BufferReturnedAtMostOnce(s); }
    } else {
      DoKeepsFate(s, acts[0]);
      ReachableDo(s, acts[0]);
      hide Inv, Reachable, Do, Safe, Missing;
      Fate(Do(s, acts[0]), acts[1..]);
    }
  }

  /** A body on the read goroutine is in a safe place from its first step on. */
  lemma RunnerStep(s: State, a: Action)
    requires Inv(s) && (s.runner == 0 && !s.once.NotYet? ==> Safe(s))
    ensures var r := Do(s, a); r.runner == 0 && !r.once.NotYet? ==> Safe(r)
  {
    if !s.once.NotYet? {
      RunnerStays(s, a);
      DoKeepsFate(s, a);
    } else {
      assert Early(s.body);
      hide FinalOk, LateOk, KeyOk, BufferOk, RequestOk, LeakOk, BodyStep, ReadStep, FinishStep;
      match a
      case Step(t) => hide FinishStep, ReadStep;
      case FinisherStep => FinishKeepsOnce(s);
      case ReaderStep => ReadKeepsOnce(s);
      case _ =>
    }
  }

  lemma RunnerStays(s: State, a: Action)
    requires !s.once.NotYet?
    ensures Do(s, a).runner == s.runner
  {
    hide CallStep, FinishStep, ReadStep;
    match a
    case Step(t) => if t < |s.pcs| { CallKeepsOnce(s, t); }
    case FinisherStep => FinishKeepsOnce(s);
    case ReaderStep => ReadKeepsOnce(s);
    case _ =>
  }

  lemma {:induction false} RunnerExec(s: State, acts: seq<Action>)
    requires Inv(s) && (s.runner == 0 && !s.once.NotYet? ==> Safe(s))
    ensures var r := Exec(s, acts); r.runner == 0 && !r.once.NotYet? ==> Safe(r)
    decreases |acts|
  {
    if acts != [] {
      DoInv(s, acts[0]);
      RunnerStep(s, acts[0]);
      hide Inv, Do, Safe;
      RunnerExec(Do(s, acts[0]), acts[1..]);
    }
  }

  /** A close whose body runs on the read goroutine, from inside a callback or at its end, always gives the buffer
      back, whatever the others do. */
  lemma OwnCloseReturnsBuffer(s: State, acts: seq<Action>)
    requires Reachable(s) && s.runner == 0 && !s.once.NotYet?
    ensures AtRest(Exec(s, acts)) ==> Exec(s, acts).puts == 1
  {
    var threads: nat, sending: bool, before: seq<Action> :| s == Exec(Init(threads, sending), before);
    InitInv(threads, sending);
    RunnerExec(Init(threads, sending), before);
    hide Reachable, AtRest, Safe;
    Fate(s, acts);
  }

  /** For any close the load of the callback depth and the request decide. A request is in vain exactly if the read
      goroutine has already looked for one. */
  lemma RequestDecides(s: State, acts: seq<Action>)
    requires Reachable(s) && s.once.Running? && s.body.SetDefer?
    ensures var r := Exec(Do(s, Step(s.runner)), acts); AtRest(r) ==> (r.puts == 1 <==> !Passed(s.reader))
  {
    ReachableInv(s);
    var s1 := Do(s, Step(s.runner));
    ReachableDo(s, Step(s.runner));
    assert if Passed(s.reader) then Missing(s1) else Safe(s1) by { hide FinalOk, LateOk, KeyOk, BufferOk, LeakOk, TailStep; }
    hide Reachable, AtRest, Safe, Missing, Inv, Do;
    Fate(s1, acts);
  }

  /** The load: every schedule gives the buffer back if and only if no callback is running at that moment, or the read
      goroutine is itself inside a Close that has to wait for this one. */
  lemma DepthDecides(s: State)
    requires Reachable(s) && s.once.Running? && s.body.LoadDepth? && s.pcs != []
    ensures (forall acts: seq<Action> :: var r := Exec(Do(s, Step(s.runner)), acts); AtRest(r) ==> r.puts == 1)
            <==> s.depth == 0 || s.pcs[0].AtOnce? || s.pcs[0].InOnce?
  {
    ReachableInv(s);
    var s1 := Do(s, Step(s.runner));
    ReachableDo(s, Step(s.runner));
    AfterLoad(s);
    hide Reachable, AtRest, Safe, Missing, Inv, Do;
    if s.depth == 0 || s.pcs[0].AtOnce? || s.pcs[0].InOnce? {
      forall acts: seq<Action> ensures AtRest(Exec(s1, acts)) ==> Exec(s1, acts).puts == 1 { Fate(s1, acts); }
    } else {
      var acts := LostBuffer(s1);
      assert AtRest(Exec(s1, acts)) && Exec(s1, acts).puts == 0;
    }
  }

  lemma AfterLoad(s: State)
    requires Inv(s) && s.once.Running? && s.body.LoadDepth?
    ensures var s1 := Do(s, Step(s.runner));
            if s.depth == 0 || s.pcs[0].AtOnce? || s.pcs[0].InOnce? then Safe(s1) else Escapes(s1)
  {
    hide FinalOk, LateOk, KeyOk, BufferOk, LeakOk, TailStep;
  }

  /** The request is still to be made, and nothing keeps the read goroutine from leaving its loop before. */
  predicate Escapes(s: State) {
    && s.once.Running? && s.body.SetDefer? && !s.deferred && s.isClose && s.connClosed
    && s.pcs != [] && (s.pcs[0].Out? || (s.pcs[0].LoadClosed? && s.runner != 0))
    && (Looping(s.reader) || s.reader.ExitLoad?)
  }

  function EscapeRank(s: State): nat {
    ReaderRank(s.reader) + if s.pcs != [] && s.pcs[0].LoadClosed? then 1 else 0
  }

  lemma EscapeStep(s: State)
    requires Escapes(s)
    ensures var r := Do(s, if s.pcs[0].LoadClosed? then Step(0) else ReaderStep);
            && r.once.Running? && r.body.SetDefer? && (Passed(r.reader) || (Escapes(r) && EscapeRank(r) < EscapeRank(s)))
  {
    hide BodyStep;
  }

  lemma {:induction false} ReaderEscapes(s: State) returns (acts: seq<Action>)
    requires Reachable(s) && Escapes(s)
    ensures var r := Exec(s, acts); Reachable(r) && r.once.Running? && r.body.SetDefer? && Passed(r.reader)
    decreases EscapeRank(s)
  {
    var a := if s.pcs[0].LoadClosed? then Step(0) else ReaderStep;
    EscapeStep(s);
    ReachableDo(s, a);
    hide Reachable, Do, Escapes, EscapeRank;
    var s1 := Do(s, a);
    if Passed(s1.reader) {
      acts := [a];
      assert Exec(s1, []) == s1;
    } else {
      var rest := ReaderEscapes(s1);
      acts := [a] + rest;
      assert acts[1..] == rest;
    }
  }

  lemma {:induction false} ExecBoth(s: State, a: seq<Action>, b: seq<Action>)
    ensures Exec(s, a + b) == Exec(Exec(s, a), b)
    decreases |a|
  {
    hide Do;
    if a == [] {
      assert a + b == b;
    } else {
      assert (a + b)[0] == a[0] && (a + b)[1..] == a[1..] + b;
      ExecBoth(Do(s, a[0]), a[1..], b);
    }
  }

  lemma LostBuffer(s: State) returns (acts: seq<Action>)
    requires Reachable(s) && Escapes(s)
    ensures AtRest(Exec(s, acts)) && Exec(s, acts).puts == 0
  {
    hide Reachable, AtRest, Do, Inv;
    var out := ReaderEscapes(s);
    var r := Exec(s, out);
    var a := Step(r.runner);
    ReachableDo(r, a);
    ReachableInv(Do(r, a));
    var rest := ComesToRest(Do(r, a));
    RequestDecides(r, rest);
    acts := out + ([a] + rest);
    ExecBoth(s, out, [a] + rest);
    assert ([a] + rest)[1..] == rest;
    var end := Exec(s, acts);
    ReachableExec(Do(r, a), rest);
    BufferReturnedAtMostOnce(end);
  }

  // ----- the buffer may stay out ----------------------------------------------------------------

  /** Thread 1 has found the read goroutine in a callback, and not yet asked it to give the buffer back. */
  function Undecided(): State {
    Init(1, false).(reader := InCallback, depth := 1, pcs := [Out, InOnce], once := Running, runner := 1,
                    body := SetDefer, isClose := true, stopped := true, chanClosed := true, connClosed := true)
  }

  lemma UndecidedReachable()
    ensures Reachable(Undecided())
  {
    var s0 := Init(1, false);
    assert Reachable(s0) by { assert s0 == Exec(s0, []); }
    hide Reachable;
    ReachableDo(s0, Arrive);
    var s1 := Do(s0, Arrive);
    ReachableDo(s1, ReaderStep);
    var s2 := Do(s1, ReaderStep);
    ReachableDo(s2, Close(1));
    var s3 := Do(s2, Close(1));
    assert s3 == s0.(reader := InCallback, depth := 1, pcs := [Out, LoadClosed]);
    CloserRuns(s3);
  }

  lemma CloserRuns(s: State)
    requires Reachable(s) && s == Init(1, false).(reader := InCallback, depth := 1, pcs := [Out, LoadClosed])
    ensures Reachable(Undecided())
  {
    hide Reachable;
    ReachableDo(s, Step(1));
    var s1 := s.(pcs := [Out, AtOnce]);
    assert s1 == Do(s, Step(1));
    ReachableDo(s1, Step(1));
    var s2 := s.(pcs := [Out, InOnce], once := Running, runner := 1);
    assert s2 == Do(s1, Step(1));
    ReachableDo(s2, Step(1));
    BodyRuns(Do(s2, Step(1)));
  }

  lemma BodyRuns(s: State)
    requires Reachable(s) && s == Undecided().(stopped := false, chanClosed := false, connClosed := false, body := StopQueue)
    ensures Reachable(Undecided())
  {
    hide Reachable, TailStep;
    ReachableDo(s, Step(1));
    var s1 := s.(stopped := true, body := CloseChan);
    assert s1 == Do(s, Step(1));
    ReachableDo(s1, Step(1));
    var s2 := s1.(chanClosed := true, body := CloseConn);
    assert s2 == Do(s1, Step(1));
    ReachableDo(s2, Step(1));
    var s3 := s2.(connClosed := true, body := WaitSend);
    assert s3 == Do(s2, Step(1));
    ReachableDo(s3, Step(1));
    var s4 := s3.(body := LoadDepth);
    assert s4 == Do(s3, Step(1));
    ReachableDo(s4, Step(1));
    assert s4.(body := SetDefer) == Do(s4, Step(1));
  }

  /** The read goroutine leaves its loop, and finds no request. */
  function Missed(): State {
    Undecided().(reader := Ended, depth := 0, registered := false, pcs := [Out, InOnce])
  }

  lemma MissedReachable()
    ensures Reachable(Missed())
  {
    UndecidedReachable();
    var s := Undecided();
    hide Reachable;
    ReachableDo(s, ReaderStep);
    var s1 := s.(reader := LeaveCallback);
    ReachableDo(s1, ReaderStep);
    var s2 := s.(reader := Reading, depth := 0);
    ReachableDo(s2, ReaderStep);
    ReachableDo(s2.(reader := ExitLoad), ReaderStep);
    ReachableDo(s2.(reader := ExitDone), ReaderStep);
    var s3 := s2.(reader := LastClose, registered := false, pcs := [LoadClosed, InOnce]);
    assert s3 == Do(s2.(reader := ExitDone), ReaderStep);
    ReachableDo(s3, Step(0));
    assert Do(s3, Step(0)) == s3.(pcs := [Out, InOnce]);
    ReachableDo(s3.(pcs := [Out, InOnce]), ReaderStep);
  }

  /** "At most once" cannot be made "exactly once": the request may come after the read goroutine looked, and
      then nobody gives the buffer back although everything has ended. */
  lemma BufferMayStayOut()
    ensures exists s :: Reachable(s) && s.once.Done? && s.final.Done? && s.reader.Ended? && s.finisher.Gone? && s.puts == 0 && s.present
  {
    MissedReachable();
    var s := Missed();
    hide Reachable;
    ReachableDo(s, Step(1));
    var s1 := s.(deferred := true, body := Spawn);
    ReachableDo(s1, Step(1));
    var s2 := s1.(finisher := Waits, body := Leave);
    ReachableDo(s2, Step(1));
    var s3 := s2.(once := Done, pcs := [Out, Out]);
    assert s3 == Do(s2, Step(1));
    ReachableDo(s3, FinisherStep);
    ReachableDo(s3.(finisher := Enters), FinisherStep);
    var s4 := s3.(finisher := Finishes, final := Running);
    ReachableDo(s4, FinisherStep);
    ReachableDo(s4.(tail := LoadDefer, closeCalls := 1), FinisherStep);
    var s5 := s4.(tail := Return, closeCalls := 1);
    ReachableDo(s5, FinisherStep);
    ReachableDo(s5.(final := Done), FinisherStep);
    assert Do(s5.(final := Done), FinisherStep) == s5.(final := Done, finisher := Gone);
  }
}
