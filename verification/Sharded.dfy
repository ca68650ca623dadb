/**
 `ShardedLRUCache`: independent exact LRUs behind a shard selector. Each lock-atomic
 step touches one shard; a `reset` of the whole is one step per shard.
 */
module Sharded {
  import opened Text
  import opened Words
  import Lru
  import opened LruList

  /** An operation performed on one shard under that shard's lock. */
  datatype Step<K, V> = Step(shard: nat, op: Lru.Op<K, V>)

  predicate ValidShards<K(==), V>(shards: seq<Lru.Cache<K, V>>) {
    forall i :: 0 <= i < |shards| ==> Lru.Valid(shards[i])
  }

  predicate ValidTrace<K, V>(trace: seq<Step<K, V>>, n: nat) {
    forall i :: 0 <= i < |trace| ==> trace[i].shard < n
  }

  /** The sharded cache after a trace of atomic steps, and the reply to each step. */
  function RunAll<K(==), V>(shards: seq<Lru.Cache<K, V>>, trace: seq<Step<K, V>>): (seq<Lru.Cache<K, V>>, seq<Lru.Reply<V>>)
    requires ValidShards(shards) && ValidTrace(trace, |shards|)
    decreases |trace|
  {
    if trace == [] then (shards, [])
    else
      var s := trace[0];
      Lru.DoValid(shards[s.shard], s.op);
      var (c, reply) := Lru.Do(shards[s.shard], s.op);
      var (end, replies) := RunAll(shards[s.shard := c], trace[1..]);
      (end, [reply] + replies)
  }

  /** One exact LRU run on a sequence of operations: final state and replies. */
  function RunOne<K(==), V>(c: Lru.Cache<K, V>, ops: seq<Lru.Op<K, V>>): (Lru.Cache<K, V>, seq<Lru.Reply<V>>)
    requires Lru.Valid(c)
  {
    (Lru.Run(c, ops), Lru.Replies(c, ops))
  }

  /** The sub-trace of one shard. */
  function Sub<K, V>(trace: seq<Step<K, V>>, i: nat): seq<Lru.Op<K, V>> {
    if trace == [] then []
    else (if trace[0].shard == i then [trace[0].op] else []) + Sub(trace[1..], i)
  }

  /** The replies to the steps of one shard. */
  function SubReplies<K, V>(trace: seq<Step<K, V>>, replies: seq<Lru.Reply<V>>, i: nat): seq<Lru.Reply<V>>
    requires |replies| == |trace|
  {
    if trace == [] then []
    else (if trace[0].shard == i then [replies[0]] else []) + SubReplies(trace[1..], replies[1..], i)
  }

  lemma {:induction false} RunAllShape<K, V>(shards: seq<Lru.Cache<K, V>>, trace: seq<Step<K, V>>)
    requires ValidShards(shards) && ValidTrace(trace, |shards|)
    ensures var (end, replies) := RunAll(shards, trace);
            |end| == |shards| && |replies| == |trace|
    decreases |trace|
  {
    if trace != [] {
      var s := trace[0];
      Lru.DoValid(shards[s.shard], s.op);
      RunAllShape(shards[s.shard := Lru.Do(shards[s.shard], s.op).0], trace[1..]);
    }
  }

  /** On any trace each shard behaves, in state and in replies, as an exact LRU run on its own sub-trace. */
  lemma {:induction false} ShardIsLru<K, V>(shards: seq<Lru.Cache<K, V>>, trace: seq<Step<K, V>>, i: nat)
    requires ValidShards(shards) && ValidTrace(trace, |shards|) && i < |shards|
    ensures var (end, replies) := RunAll(shards, trace);
            && |end| == |shards| && |replies| == |trace|
            && (end[i], SubReplies(trace, replies, i)) == RunOne(shards[i], Sub(trace, i))
    decreases |trace|
  {
    hide Lru.Do;
    RunAllShape(shards, trace);
    if trace != [] {
      var s, rest := trace[0], trace[1..];
      Lru.DoValid(shards[s.shard], s.op);
      var (c, reply) := Lru.Do(shards[s.shard], s.op);
      var shards' := shards[s.shard := c];
      ShardIsLru(shards', rest, i);
      var (end, replies) := RunAll(shards', rest);
      assert ([reply] + replies)[1..] == replies;
      if s.shard == i {
        var ops := [s.op] + Sub(rest, i);
        assert ops == Sub(trace, i) && ops[0] == s.op && ops[1..] == Sub(rest, i);
      } else {
        assert Sub(trace, i) == Sub(rest, i);
        assert SubReplies(trace, [reply] + replies, i) == SubReplies(rest, replies, i);
      }
    }
  }

  /** Retention in the sharded cache: operations on other shards do not count against a key. */
  lemma ShardRetained<K, V>(shards: seq<Lru.Cache<K, V>>, trace: seq<Step<K, V>>, i: nat, k: K, ahead: set<K>)
    requires ValidShards(shards) && ValidTrace(trace, |shards|) && i < |shards|
    requires Lru.Has(shards[i].items, k) && Lru.Ahead(shards[i].items, k) <= ahead && k !in ahead
    requires Lru.OpErase(k) !in Sub(trace, i) && Lru.OpReset !in Sub(trace, i)
    requires |ahead + (Lru.TouchedAll(shards[i], Sub(trace, i)) - {k})| < shards[i].capacity
    ensures |RunAll(shards, trace).0| == |shards| && Lru.Has(RunAll(shards, trace).0[i].items, k)
  {
    hide RunAll, Sub, SubReplies, ValidTrace, Lru.Valid, Lru.Has, Lru.Ahead, Lru.TouchedAll, Lru.Run, Lru.Replies;
    ShardIsLru(shards, trace, i);
    Lru.Retained(shards[i], Sub(trace, i), k, ahead);
  }

  /** Values and counters of the sharded cache: each shard balances against its own operations. */
  lemma ShardBalanced<K, V>(shards: seq<Lru.Cache<K, V>>, trace: seq<Step<K, V>>, i: nat, l: Lru.Ledger<K, V>)
    requires ValidShards(shards) && ValidTrace(trace, |shards|) && i < |shards| && Lru.Balanced(shards[i], l)
    ensures |RunAll(shards, trace).0| == |shards|
    ensures Lru.Balanced(RunAll(shards, trace).0[i], Lru.RunLedger(shards[i], Sub(trace, i), l))
  {
    hide RunAll, Sub, SubReplies, ValidTrace, Lru.Valid, Lru.Balanced, Lru.RunLedger, Lru.Run, Lru.Replies;
    ShardIsLru(shards, trace, i);
    Lru.RunBalanced(shards[i], Sub(trace, i), l);
  }

  /** Interleavings with the same order on every shard end in the same state and answer every shard alike. */
  lemma Indistinguishable<K, V>(shards: seq<Lru.Cache<K, V>>, a: seq<Step<K, V>>, b: seq<Step<K, V>>)
    requires ValidShards(shards) && ValidTrace(a, |shards|) && ValidTrace(b, |shards|)
    requires forall i :: 0 <= i < |shards| ==> Sub(a, i) == Sub(b, i)
    ensures |RunAll(shards, a).1| == |a| && |RunAll(shards, b).1| == |b|
    ensures RunAll(shards, a).0 == RunAll(shards, b).0
    ensures forall i: nat :: i < |shards| ==>
              SubReplies(a, RunAll(shards, a).1, i) == SubReplies(b, RunAll(shards, b).1, i)
  {
    hide *;
    RunAllShape(shards, a);
    RunAllShape(shards, b);
    forall i: nat | i < |shards|
      ensures RunAll(shards, a).0[i] == RunAll(shards, b).0[i]
      ensures SubReplies(a, RunAll(shards, a).1, i) == SubReplies(b, RunAll(shards, b).1, i)
    {
      SameSubtrace(shards, a, b, i);
    }
  }

  lemma SameSubtrace<K, V>(shards: seq<Lru.Cache<K, V>>, a: seq<Step<K, V>>, b: seq<Step<K, V>>, i: nat)
    requires ValidShards(shards) && ValidTrace(a, |shards|) && ValidTrace(b, |shards|)
    requires i < |shards| && Sub(a, i) == Sub(b, i)
    ensures |RunAll(shards, a).0| == |shards| == |RunAll(shards, b).0|
    ensures |RunAll(shards, a).1| == |a| && |RunAll(shards, b).1| == |b|
    ensures RunAll(shards, a).0[i] == RunAll(shards, b).0[i]
    ensures SubReplies(a, RunAll(shards, a).1, i) == SubReplies(b, RunAll(shards, b).1, i)
  {
    hide RunAll, RunOne, Sub, SubReplies, ValidTrace, Lru.Valid;
    ShardIsLru(shards, a, i);
    ShardIsLru(shards, b, i);
  }

  /** With one shard the sharded cache is a plain one. */
  lemma {:induction false} OneShardIsPlain<K, V>(c: Lru.Cache<K, V>, trace: seq<Step<K, V>>)
    requires Lru.Valid(c) && ValidTrace(trace, 1)
    ensures RunAll([c], trace) == ([RunOne(c, Sub(trace, 0)).0], RunOne(c, Sub(trace, 0)).1)
    ensures |Sub(trace, 0)| == |trace|
    decreases |trace|
  {
    hide Lru.Do;
    if trace != [] {
      var s, rest := trace[0], trace[1..];
      Lru.DoValid(c, s.op);
      var (c', reply) := Lru.Do(c, s.op);
      assert [c][0 := c'] == [c'];
      OneShardIsPlain(c', rest);
      var ops := [s.op] + Sub(rest, 0);
      assert ops == Sub(trace, 0) && ops[0] == s.op && ops[1..] == Sub(rest, 0);
    }
  }

  // ----------------------------------------------------------------- objects

  class ShardedLruCache<K(==), V> {
    const shards: seq<LruCache<K, V>>
    const mask: nat
    const hasher: K -> nat
    /** Base-two logarithm of the number of shards. */
    ghost const bits: nat
    ghost const perShard: nat

    ghost predicate Valid()
      reads this, shards, set i, m | 0 <= i < |shards| && m in shards[i].repr :: m
    {
      && |shards| == mask + 1 == Pow2(bits)
      && (forall i :: 0 <= i < |shards| ==> shards[i].Valid() && shards[i].capacity == perShard)
      && (forall i, j :: 0 <= i < j < |shards| ==> shards[i] != shards[j] && shards[i].repr !! shards[j].repr)
    }

    ghost function Abs(): (r: seq<Lru.Cache<K, V>>)
      reads this, shards
      ensures |r| == |shards| && forall i :: 0 <= i < |shards| ==> r[i] == shards[i].Abs()
    {
      seq(|shards|, i requires 0 <= i < |shards| reads shards => shards[i].Abs())
    }

    /** `shard_for` */
    function Pick(k: K): (i: nat)
      requires mask + 1 == Pow2(bits)
      ensures i == Mix(hasher(k)) % (mask + 1)
    {
      MaskIsRemainder(Mix(hasher(k)), bits);
      ShardIndex(hasher(k), mask + 1)
    }

    method Get(k: K) returns (r: Option<V>)
      requires Valid()
      modifies shards[Pick(k)], shards[Pick(k)].repr
      ensures Valid()
      ensures var i := Pick(k);
              Abs() == old(Abs())[i := Lru.Get(old(Abs())[i], k).0] && r == Lru.Get(old(Abs())[i], k).1
    {
      hide Pick, Pow2, Lru.Get, LruCache.Valid, LruCache.Abs;
      r := shards[Pick(k)].Get(k);
    }

    method Put(k: K, v: V)
      requires Valid()
      modifies shards[Pick(k)], shards[Pick(k)].repr
      ensures Valid()
      ensures var i := Pick(k); Lru.Valid(old(Abs())[i]) && Abs() == old(Abs())[i := Lru.Put(old(Abs())[i], k, v)]
    {
      hide Pick, Pow2, Lru.Put, Lru.Valid, LruCache.Valid, LruCache.Abs;
      shards[Pick(k)].KeysDistinct();
      shards[Pick(k)].Put(k, v);
    }

    method Erase(k: K) returns (found: bool)
      requires Valid()
      modifies shards[Pick(k)], shards[Pick(k)].repr
      ensures Valid()
      ensures var i := Pick(k);
              Abs() == old(Abs())[i := Lru.Erase(old(Abs())[i], k).0] && found == Lru.Erase(old(Abs())[i], k).1
    {
      hide Pick, Pow2, Lru.Erase, LruCache.Valid, LruCache.Abs;
      found := shards[Pick(k)].Erase(k);
    }

    /** Resets the shards one after the other. */
    method Reset()
      requires Valid()
      modifies shards, set i, m | 0 <= i < |shards| && m in shards[i].repr :: m
      ensures Valid()
      ensures forall i :: 0 <= i < |shards| ==> Abs()[i] == Lru.Reset(old(Abs())[i])
    {
      hide Pow2, LruCache.Valid, LruCache.Abs, Lru.Reset;
      var i := 0;
      while i < |shards|
        invariant 0 <= i <= |shards| && Valid()
        invariant forall j :: 0 <= j < i ==> shards[j].Abs() == Lru.Reset(old(shards[j].Abs()))
        invariant forall j :: i <= j < |shards| ==> shards[j].Abs() == old(shards[j].Abs())
      {
        shards[i].Reset();
        i := i + 1;
      }
    }

    /** The sum of the capacities of the shards. */
    method Capacity() returns (c: nat)
      requires Valid()
      ensures c == (mask + 1) * perShard
    {
      hide Pow2;
      var i := 0;
      c := 0;
      while i < |shards|
        invariant 0 <= i <= |shards| && c == i * perShard
      {
        assert (i + 1) * perShard == i * perShard + perShard;
        c := c + shards[i].capacity;
        i := i + 1;
      }
    }

    /** A power of two shards, the least that is at least the request, sharing the total evenly. */
    constructor (total: nat, requested: nat, hasher: K -> nat)
      requires requested <= Pow2(63)
      ensures Valid() && LeastPow2(mask + 1, if requested == 0 then 1 else requested)
      ensures perShard == PerShard(total, mask + 1) && this.hasher == hasher
      ensures forall i :: 0 <= i < |shards| ==> Abs()[i] == Lru.Empty(perShard)
      ensures fresh(shards)
    {
      hide Pow2, LruCache.Valid, LeastPow2, PerShard, Lru.Empty;
      var want := if requested == 0 then 1 else requested;
      OneBelow();
      var n := RoundUpPow2(want);
      ghost var k := Exponent(n, want);
      var per := PerShard(total, n);
      var ss: seq<LruCache<K, V>> := [];
      while |ss| < n
        invariant |ss| <= n
        invariant forall i :: 0 <= i < |ss| ==> fresh(ss[i]) && ss[i].Valid() && ss[i].repr == {}
        invariant forall i :: 0 <= i < |ss| ==> ss[i].capacity == per && ss[i].Abs() == Lru.Empty(per)
        invariant forall i, j :: 0 <= i < j < |ss| ==> ss[i] != ss[j]
      {
        var c := new LruCache(per);
        ss := ss + [c];
      }
      shards, mask, this.hasher := ss, n - 1, hasher;
      bits, perShard := k, per;
    }
  }

  lemma OneBelow()
    ensures 1 <= Pow2(63)
  {
  }

  lemma Exponent(p: nat, n: nat) returns (k: nat)
    requires LeastPow2(p, n)
    ensures p == Pow2(k)
  {
    k :| k <= 63 && p == Pow2(k);
  }
}
