/**
 The sharded map with expiry times of `zcoll/shardmap.go`. `Shown(k, t)` is the one map it stands for at time t:
 what has been stored and has not expired. Calls are one after the other, as the locks make them; the clock is an argument, and
 within one call a later reading is not smaller.
 */
module ShardMap {
  import opened Prelude
  import opened PowerOfTwo

  const LimitDelete: nat := 100
  const LimitCheck: nat := 1000

  /** `t` is the time of expiry; anything not positive means never. */
  datatype Item<V> = Item(value: V, t: int)

  predicate Expired<V>(i: Item<V>, now: int) {
    i.t > 0 && now > i.t
  }

  lemma {:induction false} StaysExpired<V>(i: Item<V>, now: int, later: int)
    requires Expired(i, now) && now <= later
    ensures Expired(i, later)
  {
  }

  /** `getShard`: the hash with its upper half mixed in, reduced by the mask. */
  function ShardOf(hash: nat, count: nat): nat {
    And(Exor(hash, Shr(hash, 16)), if count > 0 then count - 1 else 0)
  }

  lemma ShardInRange(hash: nat, count: nat)
    requires IsPow2(count)
    ensures ShardOf(hash, count) < count
  {
    var n: nat :| count == Pow2(n);
    MaskIsMod(Exor(hash, Shr(hash, 16)), n);
  }

  /** A clock by which a later reading is not smaller. */
  ghost predicate NeverBack(clock: nat -> int) {
    forall x: nat, y: nat :: x <= y ==> clock(x) <= clock(y)
  }

  ghost predicate NoneExpired<K(!new), V>(m: map<K, Item<V>>, now: int) {
    forall k :: k in m ==> !Expired(m[k], now)
  }

  /** The number of entries in the first `n` shards. */
  function Total<K, V>(shards: seq<map<K, Item<V>>>, n: nat): nat
    requires n <= |shards|
  {
    if n == 0 then 0 else Total(shards, n - 1) + |shards[n - 1]|
  }

  lemma {:induction false} TotalGrows<K, V>(shards: seq<map<K, Item<V>>>, n: nat, m: nat)
    requires n <= m <= |shards|
    ensures Total(shards, n) <= Total(shards, m)
    decreases m
  {
    if n < m { TotalGrows(shards, n, m - 1); }
  }

  lemma NoneEarlier<K(!new), V>(m: map<K, Item<V>>, earlier: int, now: int)
    requires NoneExpired(m, now) && earlier <= now
    ensures NoneExpired(m, earlier)
  {
  }

  /** The loop of ClearTimer over the entries of one shard, in any order, until the limits are reached. */
  method Sweep<K(==, !new), V>(m: map<K, Item<V>>, clock: nat -> int, ghost now: int, checked0: nat, deleted0: nat)
      returns (rest: map<K, Item<V>>, checked: nat, deleted: nat)
    requires deleted0 < LimitDelete && checked0 < LimitCheck && forall n :: clock(n) <= now
    ensures rest.Keys <= m.Keys && (forall k :: k in rest ==> rest[k] == m[k])
    ensures forall k :: k in m && k !in rest ==> Expired(m[k], now)
    ensures deleted <= LimitDelete && checked <= LimitCheck && |m.Keys| - |rest.Keys| == deleted - deleted0
    ensures 0 <= deleted - deleted0 <= checked - checked0 <= |m|
    ensures deleted < LimitDelete && checked < LimitCheck ==> checked - checked0 == |m|
    ensures deleted < LimitDelete && checked < LimitCheck ==>
              forall k :: k in rest ==> exists n :: checked0 <= n < checked && !Expired(rest[k], clock(n))
    ensures deleted < LimitDelete && checked < LimitCheck && NeverBack(clock) ==> NoneExpired(rest, clock(checked0))
  {
    rest, checked, deleted := m, checked0, deleted0;
    var left := m.Keys;
    while left != {}
      invariant left <= rest.Keys <= m.Keys && (forall k :: k in rest ==> rest[k] == m[k])
      invariant forall k :: k in m && k !in rest ==> Expired(m[k], now)
      invariant forall k :: k in rest && k !in left ==> exists n :: checked0 <= n < checked && !Expired(rest[k], clock(n))
      invariant deleted < LimitDelete && checked < LimitCheck && checked0 <= checked
      invariant |m.Keys| - |rest.Keys| == deleted - deleted0 && 0 <= deleted - deleted0 <= checked - checked0 == |m| - |left|
      decreases left
    {
      var k :| k in left;
      left := left - {k};
      if Expired(rest[k], clock(checked)) {
        StaysExpired(rest[k], clock(checked), now);
        ghost var keys := rest.Keys;
        rest := rest - {k};
        assert rest.Keys == keys - {k};
        deleted := deleted + 1;
      }
      assert k in rest ==> !Expired(rest[k], clock(checked));
      checked := checked + 1;
      if deleted >= LimitDelete || checked >= LimitCheck { break; }
    }
  }

  class Map<K(==, !new), V> {
    const shardCount: nat
    const hash: K -> nat
    var shards: seq<map<K, Item<V>>>

    /** Every key is in its own shard and nowhere else. */
    ghost predicate Valid()
      reads this
    {
      && |shards| == shardCount && IsPow2(shardCount)
      && forall i, k :: 0 <= i < |shards| && k in shards[i] ==> i == ShardOf(hash(k), shardCount)
    }

    function Home(k: K): nat
      reads this
    {
      ShardOf(hash(k), shardCount)
    }

    /** What is stored for a key, expired or not. */
    function Stored(k: K): Option<Item<V>>
      reads this
    {
      if Home(k) < |shards| && k in shards[Home(k)] then Some(shards[Home(k)][k]) else None
    }

    /** What the map shows for a key at time `now`. */
    function Shown(k: K, now: int): Option<Item<V>>
      reads this
    {
      if Stored(k).Some? && !Expired(Stored(k).value, now) then Stored(k) else None
    }

    constructor (wanted: int, hash: K -> nat)
      requires wanted <= 0x1_0000_0000
      ensures Valid() && (forall k :: Stored(k) == None) && this.hash == hash && shardCount == NextPowerOfTwo(wanted)
    {
      assert Pow2(1) == 2;
      PowersUpTo32();
      if wanted > 0 { NextPowerOfTwoLeast(wanted, 32); }
      shardCount := NextPowerOfTwo(wanted);
      this.hash := hash;
      shards := seq(NextPowerOfTwo(wanted), i => map[]);
    }

    /** Replacing the entry of one key, which is all that most methods do. */
    method Put(k: K, entry: Option<Item<V>>)
      requires Valid()
      modifies this`shards
      ensures Valid() && Stored(k) == entry && forall l :: l != k ==> Stored(l) == old(Stored(l))
    {
      ShardInRange(hash(k), shardCount);
      var i := Home(k);
      hide ShardOf, IsPow2;
      shards := shards[i := match entry case Some(item) => shards[i][k := item] case None => shards[i] - {k}];
    }

    /** `Store`: a value that never expires. */
    method Store(k: K, v: V)
      requires Valid()
      modifies this`shards
      ensures Valid() && forall l, t :: Shown(l, t) == if l == k then Some(Item(v, -1)) else old(Shown(l, t))
    {
      Put(k, Some(Item(v, -1)));
    }

    /** `SetExpire`: a value that is shown up to the given time. */
    method SetExpire(k: K, v: V, now: int, millis: int)
      requires Valid()
      modifies this`shards
      ensures Valid()
      ensures forall l, t :: Shown(l, t) == if l != k then old(Shown(l, t)) else if now + millis > 0 && t > now + millis then None
                                            else Some(Item(v, now + millis))
    {
      Put(k, Some(Item(v, now + millis)));
    }

    /** `Delete`. */
    method Delete(k: K)
      requires Valid()
      modifies this`shards
      ensures Valid() && forall l, t :: Shown(l, t) == if l == k then None else old(Shown(l, t))
    {
      Put(k, None);
    }

    /** `delExpire`: looks again before it deletes, so that whatever happened since the first look, only an
        expired entry goes. */
    method DelExpire(k: K, now: int)
      requires Valid()
      modifies this`shards
      ensures Valid() && forall l, t :: t >= now ==> Shown(l, t) == old(Shown(l, t))
      ensures forall l :: Stored(l) == if l == k && old(Stored(k).Some? && Expired(Stored(k).value, now)) then None else old(Stored(l))
    {
      ShardInRange(hash(k), shardCount);
      if k in shards[Home(k)] && Expired(shards[Home(k)][k], now) { Put(k, None); }
    }

    /** `Load`: what the map shows at the time of the look; a lazy deletion afterwards changes nothing that is
        shown. */
    method Load(k: K, now: int, later: int) returns (r: Option<V>)
      requires Valid() && now <= later
      modifies this`shards
      ensures Valid() && (r == match old(Shown(k, now)) case None => None case Some(item) => Some(item.value))
      ensures forall l, t :: t >= later ==> Shown(l, t) == old(Shown(l, t))
    {
      ShardInRange(hash(k), shardCount);
      if k !in shards[Home(k)] { return None; }
      var item := shards[Home(k)][k];
      if Expired(item, now) {
        DelExpire(k, later);
        return None;
      }
      r := Some(item.value);
    }

    /** `LoadAndDelete`. */
    method LoadAndDelete(k: K, now: int) returns (r: Option<V>)
      requires Valid()
      modifies this`shards
      ensures Valid() && (r == match old(Shown(k, now)) case None => None case Some(item) => Some(item.value))
      ensures forall l, t :: Shown(l, t) == if l == k then None else old(Shown(l, t))
    {
      ShardInRange(hash(k), shardCount);
      if k !in shards[Home(k)] { return None; }
      var item := shards[Home(k)][k];
      Put(k, None);
      r := if Expired(item, now) then None else Some(item.value);
    }

    /** `Expire`: a new time for a key. It acts on what is stored, shown or not: on the one map it is right for a key
        that is shown and for one that is not stored, but an entry that has expired and was not cleaned up
        comes back unless the new time has passed as well. */
    method Expire(k: K, now: int, millis: int)
      requires Valid()
      modifies this`shards
      ensures Valid()
      ensures forall l, t :: l != k ==> Shown(l, t) == old(Shown(l, t))
      ensures old(Stored(k).None?) ==> forall t :: Shown(k, t) == None
      ensures old(Stored(k).Some?) ==>
                forall t :: Shown(k, t) == if now + millis > 0 && t > now + millis then None else Some(Item(old(Stored(k).value.value), now + millis))
      ensures (old(Shown(k, now).None?) ==> Shown(k, now).None?) <==>
                !(old(Stored(k).Some? && Expired(Stored(k).value, now)) && (now + millis <= 0 || millis >= 0))
    {
      ShardInRange(hash(k), shardCount);
      if k in shards[Home(k)] {
        Put(k, Some(shards[Home(k)][k].(t := now + millis)));
      }
    }

    /** One shard, under its lock. */
    method ClearShard(i: nat, clock: nat -> int, ghost now: int, checked0: nat, deleted0: nat) returns (checked: nat, deleted: nat)
      requires Valid() && i < |shards| && (forall n :: clock(n) <= now)
      requires deleted0 < LimitDelete && checked0 < LimitCheck
      modifies this`shards
      ensures Valid() && (forall l, t :: t >= now ==> Shown(l, t) == old(Shown(l, t)))
      ensures deleted <= LimitDelete && checked <= LimitCheck
      ensures forall j :: 0 <= j < |shards| ==> shards[j].Keys <= old(shards[j].Keys) && (j != i ==> shards[j] == old(shards[j]))
      ensures |old(shards[i].Keys)| - |shards[i].Keys| == deleted - deleted0 && 0 <= deleted - deleted0 <= checked - checked0 <= |old(shards[i])|
      ensures deleted < LimitDelete && checked < LimitCheck ==> checked - checked0 == |old(shards[i])|
      ensures forall l :: Stored(l).Some? ==> Stored(l) == old(Stored(l))
      ensures forall l :: Stored(l).None? && old(Stored(l)).Some? ==> Expired(old(Stored(l)).value, now)
      ensures deleted < LimitDelete && checked < LimitCheck ==>
                forall k :: k in shards[i] ==> exists n :: checked0 <= n < checked && !Expired(shards[i][k], clock(n))
      ensures deleted < LimitDelete && checked < LimitCheck && NeverBack(clock) ==> NoneExpired(shards[i], clock(checked0))
    {
      hide ShardOf, IsPow2;
      var rest;
      rest, checked, deleted := Sweep(shards[i], clock, now, checked0, deleted0);
      shards := shards[i := rest];
    }

    /** `ClearTimer`: removes at most 100 entries and looks at no more than 1000, all of what it removes has expired,
        and unless it stopped at a limit nothing is left that had expired when it began. */
    method ClearTimer(clock: nat -> int, ghost now: int) returns (checked: nat, deleted: nat)
      requires Valid() && forall n :: clock(n) <= now
      modifies this`shards
      ensures Valid() && (forall l, t :: t >= now ==> Shown(l, t) == old(Shown(l, t)))
      ensures deleted <= LimitDelete && checked <= LimitCheck
      ensures forall l :: Stored(l).Some? ==> Stored(l) == old(Stored(l))
      ensures forall l :: Stored(l).None? && old(Stored(l)).Some? ==> Expired(old(Stored(l)).value, now)
      ensures deleted < LimitDelete && checked < LimitCheck && NeverBack(clock) ==>
                forall l :: Stored(l).Some? ==> !Expired(Stored(l).value, clock(0))
      ensures deleted <= checked <= Total(old(shards), |old(shards)|)
      ensures deleted < LimitDelete && checked < LimitCheck ==> checked == Total(old(shards), |old(shards)|)
      ensures deleted <= 100 && checked <= 1000
      ensures Total(old(shards), |old(shards)|) < 100 && NeverBack(clock) ==>
                forall l :: Stored(l).Some? ==> !Expired(Stored(l).value, clock(0))
    {
      hide ShardOf, IsPow2;
      checked, deleted := 0, 0;
      var i := 0;
      while i < shardCount
        invariant 0 <= i <= shardCount && Valid() && deleted <= LimitDelete && checked <= LimitCheck
        invariant forall l, t :: t >= now ==> Shown(l, t) == old(Shown(l, t))
        invariant forall l :: Stored(l).Some? ==> Stored(l) == old(Stored(l))
        invariant forall l :: Stored(l).None? && old(Stored(l)).Some? ==> Expired(old(Stored(l)).value, now)
        invariant deleted < LimitDelete && checked < LimitCheck && NeverBack(clock) ==>
                    forall j :: 0 <= j < i ==> NoneExpired(shards[j], clock(0))
        invariant |old(shards)| == |shards| && forall j :: i <= j < |shards| ==> shards[j] == old(shards)[j]
        invariant deleted <= checked <= Total(old(shards), i)
        invariant deleted < LimitDelete && checked < LimitCheck ==> checked == Total(old(shards), i)
      {
        TotalGrows(old(shards), i, |old(shards)|);
        if deleted >= LimitDelete || checked >= LimitCheck { return; }
        ghost var c := checked;
        checked, deleted := ClearShard(i, clock, now, checked, deleted);
        if NeverBack(clock) && NoneExpired(shards[i], clock(c)) { NoneEarlier(shards[i], clock(0), clock(c)); }
        i := i + 1;
      }
    }
  }

  // ----- whole runs -----------------------------------------------------------------------------

  datatype Op<K, V> =
    | DoStore(k: K, v: V)
    | DoSetExpire(k: K, v: V, millis: int)
    | DoExpire(k: K, millis: int)
    | DoDelete(k: K)
    | DoLoad(k: K)
    | DoLoadAndDelete(k: K)
    | DoClear(clock: nat -> int)

  /** One call, with the first and the last time at which it reads the clock. */
  datatype Call<K, V> = Call(op: Op<K, V>, now: int, end: int)

  /** One map that holds what has not expired at time `now`. */
  function Live<K, V>(m: map<K, Item<V>>, now: int): map<K, Item<V>> {
    map k | k in m && !Expired(m[k], now) :: m[k]
  }

  function StepOne<K, V>(m: map<K, Item<V>>, c: Call<K, V>): map<K, Item<V>> {
    var live := Live(m, c.now);
    match c.op
    case DoStore(k, v) => live[k := Item(v, -1)]
    case DoSetExpire(k, v, millis) => live[k := Item(v, c.now + millis)]
    case DoExpire(k, millis) => if k in live then live[k := Item(live[k].value, c.now + millis)] else live
    case DoDelete(k) => live - {k}
    case DoLoad(_) => live
    case DoLoadAndDelete(k) => live - {k}
    case DoClear(_) => live
  }

  function AnswerOne<K, V>(m: map<K, Item<V>>, c: Call<K, V>): Option<V> {
    if (c.op.DoLoad? || c.op.DoLoadAndDelete?) && c.op.k in Live(m, c.now) then Some(m[c.op.k].value) else None
  }

  function RunOne<K, V>(m: map<K, Item<V>>, calls: seq<Call<K, V>>): map<K, Item<V>>
    decreases |calls|
  {
    if calls == [] then m else RunOne(StepOne(m, calls[0]), calls[1..])
  }

  function AnswersOne<K, V>(m: map<K, Item<V>>, calls: seq<Call<K, V>>): seq<Option<V>>
    decreases |calls|
  {
    if calls == [] then [] else [AnswerOne(m, calls[0])] + AnswersOne(StepOne(m, calls[0]), calls[1..])
  }

  /** A call's readings of the clock, none of which goes back. */
  ghost predicate Timely<K, V>(c: Call<K, V>, from: int) {
    from <= c.now <= c.end && (c.op.DoClear? ==> forall n :: c.op.clock(n) <= c.end)
  }

  ghost predicate InOrder<K, V>(calls: seq<Call<K, V>>, from: int)
    decreases |calls|
  {
    calls == [] || (Timely(calls[0], from) && InOrder(calls[1..], calls[0].end))
  }

  /** Expire is called on keys that are shown only. */
  predicate ExpiresShown<K, V>(m: map<K, Item<V>>, calls: seq<Call<K, V>>)
    decreases |calls|
  {
    calls == [] || ((calls[0].op.DoExpire? ==> calls[0].op.k in Live(m, calls[0].now)) && ExpiresShown(StepOne(m, calls[0]), calls[1..]))
  }

  function ShownOne<K, V>(m: map<K, Item<V>>, k: K, t: int): Option<Item<V>> {
    if k in m && !Expired(m[k], t) then Some(m[k]) else None
  }

  lemma LiveShows<K, V>(m: map<K, Item<V>>, now: int, k: K, t: int)
    requires now <= t
    ensures ShownOne(Live(m, now), k, t) == ShownOne(m, k, t) && (k in Live(m, now) <==> ShownOne(m, k, now).Some?)
  {
  }

  /** Every run of calls whose clock does not go back, with Expire on shown keys only, gives the answers that the one map
      gives, and shows from then on what that map shows: lazy deletion and clearing are not to be seen. */
  method Use<K(==, !new), V>(m: Map<K, V>, calls: seq<Call<K, V>>, ghost from: int, ghost one: map<K, Item<V>>)
      returns (answers: seq<Option<V>>, ghost end: int, ghost one': map<K, Item<V>>)
    requires m.Valid() && InOrder(calls, from) && ExpiresShown(one, calls)
    requires forall k, t :: t >= from ==> m.Shown(k, t) == ShownOne(one, k, t)
    modifies m`shards
    ensures m.Valid() && answers == AnswersOne(one, calls) && one' == RunOne(one, calls)
    ensures forall k, t :: t >= end ==> m.Shown(k, t) == ShownOne(one', k, t)
  {
    answers, end, one' := [], from, one;
    var i := 0;
    assert calls[0..] == calls;
    while i < |calls|
      invariant 0 <= i <= |calls| && m.Valid() && InOrder(calls[i..], end) && ExpiresShown(one', calls[i..])
      invariant forall k, t :: t >= end ==> m.Shown(k, t) == ShownOne(one', k, t)
      invariant RunOne(one', calls[i..]) == RunOne(one, calls)
      invariant answers + AnswersOne(one', calls[i..]) == AnswersOne(one, calls)
    {
      assert calls[i..][0] == calls[i] && calls[i..][1..] == calls[i + 1..];
      var a := UseOne(m, calls[i], end, one');
      answers := answers + [a];
      end, one' := calls[i].end, StepOne(one', calls[i]);
      i := i + 1;
    }
  }

  method UseOne<K(==, !new), V>(m: Map<K, V>, c: Call<K, V>, ghost from: int, ghost one: map<K, Item<V>>) returns (a: Option<V>)
    requires m.Valid() && Timely(c, from) && (c.op.DoExpire? ==> c.op.k in Live(one, c.now))
    requires forall k, t :: t >= from ==> m.Shown(k, t) == ShownOne(one, k, t)
    modifies m`shards
    ensures m.Valid() && a == AnswerOne(one, c)
    ensures forall k, t :: t >= c.end ==> m.Shown(k, t) == ShownOne(StepOne(one, c), k, t)
  {
    hide ShardOf, IsPow2;
    forall k, t | t >= c.now ensures ShownOne(Live(one, c.now), k, t) == ShownOne(one, k, t) { LiveShows(one, c.now, k, t); }
    forall k ensures k in Live(one, c.now) <==> ShownOne(one, k, c.now).Some? { LiveShows(one, c.now, k, c.now); }
    a := None;
    match c.op
    case DoStore(k, v) => m.Store(k, v);
    case DoSetExpire(k, v, millis) => m.SetExpire(k, v, c.now, millis);
    case DoExpire(k, millis) =>
      assert m.Shown(k, c.now) == ShownOne(one, k, c.now);
      m.Expire(k, c.now, millis);
    case DoDelete(k) => m.Delete(k);
    case DoLoad(k) => a := m.Load(k, c.now, c.end);
    case DoLoadAndDelete(k) => a := m.LoadAndDelete(k, c.now);
    case DoClear(clock) => var _, _ := m.ClearTimer(clock, c.end);
  }

  /** An entry that ran out at time 6 is not shown at time 10, and yet Expire brings it back: the single map it
      should stand for has no such entry any more. */
  method ExpiredComesBack<K(==, !new), V>(hash: K -> nat, k: K, v: V) returns (m: Map<K, V>)
    ensures m.Shown(k, 10) == Some(Item(v, 15))
  {
    hide ShardOf, NextPowerOfTwo, IsPow2;
    m := new Map<K, V>(1, hash);
    m.SetExpire(k, v, 1, 5);
    assert m.Shown(k, 6) == Some(Item(v, 6)) && m.Stored(k) == m.Shown(k, 6);
    assert m.Shown(k, 10) == None;
    m.Expire(k, 10, 5);
    assert m.Shown(k, 10).Some?;
  }

  lemma PowersUpTo32()
    ensures Pow2(32) == 0x1_0000_0000
  {
    assert Pow2(10) == 1024;
    assert Pow2(20) == 1048576;
    assert Pow2(30) == 1073741824;
  }
}
