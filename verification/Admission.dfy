/**
 Admission of connections (`znet/server.go`): HandleAccept looks at the counter and asks the handler, AddChannel
 counts first and registers or undoes afterwards, RemoveChannel unregisters first and counts afterwards, from any
 number of goroutines at once. One step per atomic operation; channel ids are given out once.
 */
module Admission {

  datatype Pc =
    | Accept(id: nat)
    | Ask(id: nat)
    | Count(id: nat)
    | Undo(id: nat)
    | Register(id: nat)
    | Unregister(id: nat)
    | Discount(id: nat)

  /** `count` is connCount, `channels` the registered ids, `used` the ids given out so far. */
  datatype State = State(maxConn: int, count: int, channels: set<nat>, used: set<nat>, running: map<nat, Pc>, rejected: nat)

  /** A new channel comes through HandleAccept or straight to AddChannel; the handler may decline it. */
  datatype Action =
    | Arrive(t: nat, id: nat)
    | Decline(t: nat)
    | Add(t: nat, id: nat)
    | Remove(t: nat, id: nat)
    | Step(t: nat)

  function Init(maxConn: int): State {
    State(maxConn, 0, {}, {}, map[], 0)
  }

  /** The counter was raised to `n`: too many for a positive limit? */
  predicate TooMany(s: State, n: int) {
    s.maxConn > 0 && n > s.maxConn
  }

  function Done(s: State, t: nat): State {
    s.(running := s.running - {t})
  }

  /** HandleAccept answers no. */
  function TurnAway(s: State, t: nat): State {
    Done(s.(rejected := s.rejected + 1), t)
  }

  /** A rejected channel is closed, which asks for its removal; it was never registered. */
  function StepOf(s: State, t: nat, pc: Pc): State {
    match pc
    case Accept(id) => if s.maxConn > 0 && s.count >= s.maxConn then TurnAway(s, t) else s.(running := s.running[t := Ask(id)])
    case Ask(id) => s.(running := s.running[t := Count(id)])
    case Count(id) =>
      s.(count := s.count + 1, running := s.running[t := if TooMany(s, s.count + 1) then Undo(id) else Register(id)])
    case Undo(id) => s.(count := s.count - 1, rejected := s.rejected + 1, running := s.running[t := Unregister(id)])
    case Register(id) => Done(s.(channels := s.channels + {id}), t)
    case Unregister(id) =>
      if id in s.channels then s.(channels := s.channels - {id}, running := s.running[t := Discount(id)]) else Done(s, t)
    case Discount(_) => Done(s.(count := s.count - 1), t)
  }

  function Begin(s: State, t: nat, id: nat, pc: Pc): State {
    if t !in s.running && id !in s.used then s.(used := s.used + {id}, running := s.running[t := pc]) else s
  }

  function Do(s: State, a: Action): State {
    match a
    case Arrive(t, id) => Begin(s, t, id, Accept(id))
    case Decline(t) => if t in s.running && s.running[t].Ask? then TurnAway(s, t) else s
    case Add(t, id) => Begin(s, t, id, Count(id))
    case Remove(t, id) => if t !in s.running then s.(running := s.running[t := Unregister(id)]) else s
    case Step(t) => if t in s.running then StepOf(s, t, s.running[t]) else s
  }

  function Exec(s: State, acts: seq<Action>): State
    decreases |acts|
  {
    if acts == [] then s else Exec(Do(s, acts[0]), acts[1..])
  }

  // ----- invariant ------------------------------------------------------------------------------

  /** The goroutines whose part of the counter is not settled: about to undo it, to register, or to take it back. */
  datatype Kind = Undoing | Registering | Discounting

  predicate At(pc: Pc, k: Kind) {
    match k
    case Undoing => pc.Undo?
    case Registering => pc.Register?
    case Discounting => pc.Discount?
  }

  function Group(r: map<nat, Pc>, k: Kind): set<nat> { set t | t in r && At(r[t], k) }

  predicate Entering(pc: Pc) { pc.Accept? || pc.Ask? || pc.Count? || pc.Register? }

  /** An id about to be counted or registered belongs to one goroutine only, and is not registered yet. */
  ghost predicate IdsOk(s: State) {
    && s.channels <= s.used
    && (forall t :: t in s.running && Entering(s.running[t]) ==> s.running[t].id in s.used && s.running[t].id !in s.channels)
    && (forall t, u :: t in s.running && u in s.running && t != u && Entering(s.running[t]) && Entering(s.running[u]) ==>
          s.running[t].id != s.running[u].id)
  }

  ghost predicate Inv(s: State) {
    && IdsOk(s)
    && s.count == |s.channels| + |Group(s.running, Undoing)| + |Group(s.running, Registering)| + |Group(s.running, Discounting)|
    && (s.maxConn > 0 ==> |s.channels| + |Group(s.running, Registering)| + |Group(s.running, Discounting)| <= s.maxConn)
  }

  /** What moving goroutine `t` to another point does to a group. */
  lemma Moved(r: map<nat, Pc>, t: nat, pc: Pc, k: Kind)
    ensures |Group(r[t := pc], k)| == |Group(r, k)| - (if t in r && At(r[t], k) then 1 else 0) + if At(pc, k) then 1 else 0
  {
    hide At;
    var r' := r[t := pc];
    assert Group(r', k) - {t} == Group(r, k) - {t};
    Member(Group(r', k), t);
    Member(Group(r, k), t);
  }

  lemma Gone(r: map<nat, Pc>, t: nat, k: Kind)
    requires t in r
    ensures |Group(r - {t}, k)| == |Group(r, k)| - if At(r[t], k) then 1 else 0
  {
    assert Group(r - {t}, k) == Group(r, k) - {t};
    Member(Group(r, k), t);
  }

  lemma Member(s: set<nat>, t: nat)
    ensures |s| == |s - {t}| + if t in s then 1 else 0
  {
    if t in s { assert s == (s - {t}) + {t}; } else { assert s == s - {t}; }
  }

  lemma StepInv(s: State, t: nat)
    requires Inv(s) && t in s.running
    ensures Inv(StepOf(s, t, s.running[t]))
  {
    var pc := s.running[t];
    var s' := StepOf(s, t, pc);
    forall k: Kind
      ensures |Group(s.running - {t}, k)| == |Group(s.running, k)| - if At(pc, k) then 1 else 0
      ensures t in s'.running ==> |Group(s'.running, k)| == |Group(s.running, k)| - (if At(pc, k) then 1 else 0) + if At(s'.running[t], k) then 1 else 0
    {
      Gone(s.running, t, k);
      if t in s'.running {
        assert s'.running == s.running[t := s'.running[t]];
        Moved(s.running, t, s'.running[t], k);
      }
    }
    Member(s.channels, pc.id);
    StepIds(s, t);
    hide IdsOk, Group;
    if pc.Register? { assert s.channels + {pc.id} - {pc.id} == s.channels; }
  }

  lemma StepIds(s: State, t: nat)
    requires IdsOk(s) && t in s.running
    ensures IdsOk(StepOf(s, t, s.running[t]))
    ensures s.running[t].Register? ==> s.running[t].id !in s.channels
  {
  }

  /** A goroutine begins at a point where it has no part of the counter. */
  lemma BeginInv(s: State, t: nat, id: nat, pc: Pc)
    requires Inv(s) && (pc == Accept(id) || pc == Count(id))
    ensures Inv(Begin(s, t, id, pc))
  {
    forall k: Kind ensures t !in s.running ==> |Group(s.running[t := pc], k)| == |Group(s.running, k)| { Moved(s.running, t, pc, k); }
    hide Group;
  }

  lemma DeclineInv(s: State, t: nat)
    requires Inv(s) && t in s.running && s.running[t].Ask?
    ensures Inv(TurnAway(s, t))
  {
    forall k: Kind ensures |Group(s.running - {t}, k)| == |Group(s.running, k)| { Gone(s.running, t, k); }
    hide Group;
  }

  lemma DoInv(s: State, a: Action)
    requires Inv(s)
    ensures Inv(Do(s, a))
  {
    match a
    case Step(t) => if t in s.running { StepInv(s, t); }
    case Arrive(t, id) => BeginInv(s, t, id, Accept(id));
    case Decline(t) => if t in s.running && s.running[t].Ask? { DeclineInv(s, t); }
    case Add(t, id) => BeginInv(s, t, id, Count(id));
    case Remove(t, id) =>
      forall k: Kind ensures t !in s.running ==> |Group(s.running[t := Unregister(id)], k)| == |Group(s.running, k)| {
        Moved(s.running, t, Unregister(id), k);
      }
      hide Group;
  }

  lemma {:induction false} ExecInv(s: State, acts: seq<Action>)
    requires Inv(s)
    ensures Inv(Exec(s, acts))
    decreases |acts|
  {
    if acts != [] {
      DoInv(s, acts[0]);
      hide Inv, Do;
      ExecInv(Do(s, acts[0]), acts[1..]);
    }
  }

  ghost predicate Reachable(maxConn: int, s: State) {
    exists acts: seq<Action> :: s == Exec(Init(maxConn), acts)
  }

  lemma ReachableInv(maxConn: int, s: State)
    requires Reachable(maxConn, s)
    ensures Inv(s) && s.maxConn == maxConn
  {
    var acts: seq<Action> :| s == Exec(Init(maxConn), acts);
    assert Inv(Init(maxConn)) by {
      var none: map<nat, Pc> := map[];
      assert Group(none, Undoing) == {} && Group(none, Registering) == {} && Group(none, Discounting) == {};
    }
    ExecInv(Init(maxConn), acts);
    LimitStays(Init(maxConn), acts);
  }

  lemma {:induction false} LimitStays(s: State, acts: seq<Action>)
    ensures Exec(s, acts).maxConn == s.maxConn
    decreases |acts|
  {
    if acts != [] { LimitStays(Do(s, acts[0]), acts[1..]); }
  }

  // ----- main results ---------------------------------------------------------------------------

  /** In every interleaving: never more registered channels than allowed, even though the counter itself may be
      above the limit, by as many as there are goroutines about to take their increment back. */
  lemma NeverTooMany(maxConn: int, s: State)
    requires Reachable(maxConn, s) && maxConn > 0
    ensures |s.channels| <= maxConn && s.count <= maxConn + |Group(s.running, Undoing)|
    ensures |s.channels| <= s.count
  {
    ReachableInv(maxConn, s);
  }

  /** Between the first and the last atomic operation of AddChannel or RemoveChannel. */
  predicate Counted(pc: Pc) { pc.Undo? || pc.Register? || pc.Discount? }

  /** When nobody is in the middle of adding or removing, the counter is the number of registered channels. */
  lemma CountIsExact(maxConn: int, s: State)
    requires Reachable(maxConn, s) && forall t :: t in s.running ==> !Counted(s.running[t])
    ensures s.count == |s.channels|
  {
    ReachableInv(maxConn, s);
    assert Group(s.running, Undoing) == {} && Group(s.running, Registering) == {} && Group(s.running, Discounting) == {};
  }

  /** Both places turn a channel away exactly when the registered channels and the goroutines in the middle of
      adding or removing are together as many as the limit. */
  lemma RejectedIff(maxConn: int, s: State, t: nat)
    requires Reachable(maxConn, s) && maxConn > 0 && t in s.running && (s.running[t].Accept? || s.running[t].Count?)
    ensures var s' := Do(s, Step(t));
            (t in s'.running && (s'.running[t].Ask? || s'.running[t].Register?)) <==>
            |s.channels| + |Group(s.running, Undoing)| + |Group(s.running, Registering)| + |Group(s.running, Discounting)| < maxConn
  {
    ReachableInv(maxConn, s);
  }

  lemma {:induction false} ExecSnoc(s: State, acts: seq<Action>, a: Action)
    ensures Exec(s, acts + [a]) == Do(Exec(s, acts), a)
    decreases |acts|
  {
    hide Do;
    if acts == [] {
      assert acts + [a] == [a];
      assert Exec(Do(s, a), []) == Do(s, a);
    } else {
      assert (acts + [a])[0] == acts[0] && (acts + [a])[1..] == acts[1..] + [a];
      ExecSnoc(Do(s, acts[0]), acts[1..], a);
    }
  }

  lemma ReachableDo(maxConn: int, s: State, a: Action)
    requires Reachable(maxConn, s)
    ensures Reachable(maxConn, Do(s, a))
  {
    hide Do;
    var acts: seq<Action> :| s == Exec(Init(maxConn), acts);
    ExecSnoc(Init(maxConn), acts, a);
  }

  /** A goroutine that failed still has its increment in the counter when the registered channel goes away. */
  function Lingering(): State {
    Init(1).(count := 1, used := {10, 11}, running := map[2 := Undo(11)])
  }

  lemma LingeringReachable()
    ensures Reachable(1, Lingering())
  {
    var s0 := Init(1);
    assert Reachable(1, s0) by { assert s0 == Exec(s0, []); }
    hide Reachable;
    ReachableDo(1, s0, Add(1, 10));
    var s1 := s0.(used := {10}, running := map[1 := Count(10)]);
    ReachableDo(1, s1, Step(1));
    var s2 := s1.(count := 1, running := map[1 := Register(10)]);
    ReachableDo(1, s2, Step(1));
    var s3 := s2.(channels := {10}, running := map[]);
    assert s3 == Do(s2, Step(1));
    ReachableDo(1, s3, Add(2, 11));
    var s4 := s3.(used := {10, 11}, running := map[2 := Count(11)]);
    assert s4 == Do(s3, Add(2, 11));
    ReachableDo(1, s4, Step(2));
    RemovalRuns(s4.(count := 2, running := map[2 := Undo(11)]));
  }

  lemma RemovalRuns(s: State)
    requires Reachable(1, s) && s == Init(1).(count := 2, channels := {10}, used := {10, 11}, running := map[2 := Undo(11)])
    ensures Reachable(1, Lingering())
  {
    hide Reachable;
    ReachableDo(1, s, Remove(1, 10));
    var s1 := s.(running := map[2 := Undo(11), 1 := Unregister(10)]);
    ReachableDo(1, s1, Step(1));
    var s2 := s1.(channels := {}, running := map[2 := Undo(11), 1 := Discount(10)]);
    assert s2 == Do(s1, Step(1));
    ReachableDo(1, s2, Step(1));
    assert Lingering() == Do(s2, Step(1));
  }

  /** So a channel is turned away although nothing is registered, while another goroutine has not taken back its own
      failed increment. */
  lemma RejectionCanBeSpurious()
    ensures exists s :: Reachable(1, s) && s.channels == {} && s.running == map[2 := Undo(11), 3 := Count(12)]
                        && var r := Do(Do(s, Step(3)), Step(3));
                           r.rejected == s.rejected + 1 && r.channels == {} && r.running == map[2 := Undo(11), 3 := Unregister(12)]
  {
    LingeringReachable();
    hide Reachable;
    var s := Lingering();
    ReachableDo(1, s, Add(3, 12));
    var s1 := s.(used := {10, 11, 12}, running := map[2 := Undo(11), 3 := Count(12)]);
    assert s1 == Do(s, Add(3, 12));
    var s2 := Do(s1, Step(3));
    assert s2.running == map[2 := Undo(11), 3 := Undo(12)];
    assert Do(s2, Step(3)).running == map[2 := Undo(11), 3 := Unregister(12)];
  }
}
