/**
 The reference semantics of one `LRUCache`: a sequence of entries, most recent first,
 and three counters. What exact LRU promises is proved here about the sequence; the
 linked structure of module LruList is proved against it.
 */
module Lru {
  import opened Text

  datatype Entry<K, V> = Entry(key: K, value: V)

  datatype Cache<K, V> = Cache(capacity: nat, items: seq<Entry<K, V>>, hits: nat, misses: nat, evictions: nat)

  function Keys<K, V>(items: seq<Entry<K, V>>): (r: seq<K>)
    ensures |r| == |items| && forall i :: 0 <= i < |items| ==> r[i] == items[i].key
  {
    seq(|items|, i requires 0 <= i < |items| => items[i].key)
  }

  predicate Distinct<K(==), V>(items: seq<Entry<K, V>>) {
    forall i, j :: 0 <= i < j < |items| ==> items[i].key != items[j].key
  }

  predicate Valid<K(==), V>(c: Cache<K, V>) {
    1 <= c.capacity && |c.items| <= c.capacity && Distinct(c.items)
  }

  /** Position of `k`, or the length when it is absent. */
  function Pos<K(==)>(ks: seq<K>, k: K): (i: nat)
    ensures i <= |ks| && (i < |ks| ==> ks[i] == k)
    ensures forall j :: 0 <= j < i ==> ks[j] != k
    ensures i < |ks| <==> k in ks
  {
    if ks == [] || ks[0] == k then 0 else 1 + Pos(ks[1..], k)
  }

  function IndexOf<K(==), V>(items: seq<Entry<K, V>>, k: K): (i: nat)
    ensures i <= |items| && (i < |items| ==> items[i].key == k)
    ensures forall j :: 0 <= j < i ==> items[j].key != k
    ensures i < |items| <==> Has(items, k)
  {
    Pos(Keys(items), k)
  }

  predicate Has<K(==), V>(items: seq<Entry<K, V>>, k: K) { k in Keys(items) }

  function Without<T>(s: seq<T>, i: nat): (r: seq<T>)
    requires i < |s|
    ensures |r| == |s| - 1
    ensures forall j :: 0 <= j < |r| ==> r[j] == s[if j < i then j else j + 1]
  {
    s[..i] + s[i + 1..]
  }

  /** `splice` of one node to the front. */
  function ToFront<T>(s: seq<T>, i: nat): (r: seq<T>)
    requires i < |s|
    ensures |r| == |s| && r[0] == s[i]
    ensures forall j :: 1 <= j < |r| ==> r[j] == s[if j <= i then j - 1 else j]
  {
    [s[i]] + Without(s, i)
  }

  function Empty<K(==), V>(requested: nat): (c: Cache<K, V>)
    ensures Valid(c)
  {
    Cache(if requested == 0 then 1 else requested, [], 0, 0, 0)
  }

  function Get<K(==), V>(c: Cache<K, V>, k: K): (Cache<K, V>, Option<V>) {
    var i := IndexOf(c.items, k);
    if i == |c.items| then (c.(misses := c.misses + 1), None)
    else (c.(hits := c.hits + 1, items := ToFront(c.items, i)), Some(c.items[i].value))
  }

  function Put<K(==), V>(c: Cache<K, V>, k: K, v: V): Cache<K, V>
    requires 1 <= c.capacity
  {
    var i := IndexOf(c.items, k);
    if i < |c.items| then c.(items := ToFront(c.items[i := Entry(k, v)], i))
    else if |c.items| >= c.capacity then
      c.(items := [Entry(k, v)] + c.items[..|c.items| - 1], evictions := c.evictions + 1)
    else c.(items := [Entry(k, v)] + c.items)
  }

  lemma GetCases<K, V>(c: Cache<K, V>, k: K)
    ensures var i, n := IndexOf(c.items, k), |c.items|;
            && (i < n ==> Get(c, k) == (c.(hits := c.hits + 1, items := ToFront(c.items, i)), Some(c.items[i].value)))
            && (i == n ==> Get(c, k) == (c.(misses := c.misses + 1), None))
  {
  }

  /** The three cases of `put`. */
  lemma PutCases<K, V>(c: Cache<K, V>, k: K, v: V)
    requires 1 <= c.capacity
    ensures var i, n := IndexOf(c.items, k), |c.items|;
            && (i < n ==> Put(c, k, v) == c.(items := ToFront(c.items[i := Entry(k, v)], i)))
            && (i == n && n < c.capacity ==> Put(c, k, v) == c.(items := [Entry(k, v)] + c.items))
            && (i == n >= c.capacity ==>
                  Put(c, k, v) == c.(items := [Entry(k, v)] + Without(c.items, n - 1), evictions := c.evictions + 1))
  {
    hide IndexOf, ToFront;
    var n := |c.items|;
    if n >= 1 { assert Without(c.items, n - 1) == c.items[..n - 1]; }
  }

  function Erase<K(==), V>(c: Cache<K, V>, k: K): (Cache<K, V>, bool) {
    var i := IndexOf(c.items, k);
    if i == |c.items| then (c, false) else (c.(items := Without(c.items, i)), true)
  }

  function Reset<K, V>(c: Cache<K, V>): Cache<K, V> { Cache(c.capacity, [], 0, 0, 0) }

  // -------------------------------------------------------------------- runs

  datatype Op<K, V> = OpGet(k: K) | OpPut(k: K, v: V) | OpErase(k: K) | OpReset

  /** What an operation returns. */
  datatype Reply<V> = Got(value: Option<V>) | Erased(found: bool) | Done

  function Do<K(==), V>(c: Cache<K, V>, op: Op<K, V>): (Cache<K, V>, Reply<V>)
    requires 1 <= c.capacity
  {
    match op
    case OpGet(k) => var (c', v) := Get(c, k); (c', Got(v))
    case OpPut(k, v) => (Put(c, k, v), Done)
    case OpErase(k) => var (c', b) := Erase(c, k); (c', Erased(b))
    case OpReset => (Reset(c), Done)
  }

  lemma ToFrontDistinct<K, V>(items: seq<Entry<K, V>>, i: nat)
    requires i < |items| && Distinct(items)
    ensures Distinct(ToFront(items, i))
  {
    var r := ToFront(items, i);
    forall a, b | 0 <= a < b < |r| ensures r[a].key != r[b].key {
      assert r[b] == items[if b <= i then b - 1 else b];
      assert a > 0 ==> r[a] == items[if a <= i then a - 1 else a];
    }
  }

  lemma PutValid<K, V>(c: Cache<K, V>, k: K, v: V)
    requires Valid(c)
    ensures Valid(Put(c, k, v)) && Put(c, k, v).capacity == c.capacity
  {
    var i := IndexOf(c.items, k);
    if i < |c.items| {
      var items := c.items[i := Entry(k, v)];
      assert Distinct(items);
      ToFrontDistinct(items, i);
    }
  }

  lemma DoValid<K, V>(c: Cache<K, V>, op: Op<K, V>)
    requires Valid(c)
    ensures Valid(Do(c, op).0) && Do(c, op).0.capacity == c.capacity
  {
    if op.OpPut? { PutValid(c, op.k, op.v); }
    if op.OpGet? && IndexOf(c.items, op.k) < |c.items| { ToFrontDistinct(c.items, IndexOf(c.items, op.k)); }
    hide IndexOf, Put, ToFront;
  }

  function Run<K(==), V>(c: Cache<K, V>, ops: seq<Op<K, V>>): (c': Cache<K, V>)
    requires Valid(c)
    ensures Valid(c') && c'.capacity == c.capacity
    decreases |ops|
  {
    if ops == [] then c
    else
      DoValid(c, ops[0]);
      Run(Do(c, ops[0]).0, ops[1..])
  }

  /** The reply to each operation of a run. */
  function Replies<K(==), V>(c: Cache<K, V>, ops: seq<Op<K, V>>): (r: seq<Reply<V>>)
    requires Valid(c)
    ensures |r| == |ops|
    decreases |ops|
  {
    if ops == [] then []
    else
      DoValid(c, ops[0]);
      var (c', reply) := Do(c, ops[0]);
      [reply] + Replies(c', ops[1..])
  }

  // --------------------------------------------------------------- inclusion

  /** `Read` is the proxy's read-through access: get, then on a miss put what was fetched. */
  datatype Access<K, V> = Read(k: K, fetched: V) | Write(k: K, v: V) | Remove(k: K) | Clear

  function Perform<K(==), V>(c: Cache<K, V>, a: Access<K, V>): (c': Cache<K, V>)
    requires Valid(c)
    ensures Valid(c') && c'.capacity == c.capacity
  {
    match a
    case Read(k, v) =>
      DoValid(c, OpGet(k));
      var (c1, r) := Get(c, k);
      PutValid(c1, k, v);
      if r.Some? then c1 else Put(c1, k, v)
    case Write(k, v) => PutValid(c, k, v); Put(c, k, v)
    case Remove(k) => DoValid(c, OpErase(k)); Erase(c, k).0
    case Clear => Reset(c)
  }

  function PerformAll<K(==), V>(c: Cache<K, V>, trace: seq<Access<K, V>>): (c': Cache<K, V>)
    requires Valid(c)
    ensures Valid(c') && c'.capacity == c.capacity
    decreases |trace|
  {
    if trace == [] then c else PerformAll(Perform(c, trace[0]), trace[1..])
  }

  function Drop<K(==)>(ks: seq<K>, k: K): (r: seq<K>)
  {
    var i := Pos(ks, k);
    if i < |ks| then Without(ks, i) else ks
  }

  /** The key order after `k` is put or read through: `k`, then the others as far as they fit. */
  function Touch<K(==)>(ks: seq<K>, capacity: nat, k: K): seq<K>
    requires capacity >= 1
  {
    var r := Drop(ks, k);
    [k] + if |r| < capacity then r else r[..capacity - 1]
  }

  lemma PutKeys<K, V>(c: Cache<K, V>, k: K, v: V)
    requires Valid(c)
    ensures Keys(Put(c, k, v).items) == Touch(Keys(c.items), c.capacity, k)
  {
    var i := IndexOf(c.items, k);
    if i < |c.items| {
      assert Keys(c.items[i := Entry(k, v)]) == Keys(c.items);
      ToFrontKeys(c.items[i := Entry(k, v)], i);
    } else {
      assert Drop(Keys(c.items), k) == Keys(c.items);
    }
  }

  lemma ToFrontKeys<K, V>(items: seq<Entry<K, V>>, i: nat)
    requires i < |items|
    ensures Keys(ToFront(items, i)) == ToFront(Keys(items), i)
  {
  }

  lemma ReadKeys<K, V>(c: Cache<K, V>, k: K, v: V)
    requires Valid(c)
    ensures Keys(Perform(c, Read(k, v)).items) == Touch(Keys(c.items), c.capacity, k)
    ensures Perform(c, Read(k, v)).hits == c.hits + if k in Keys(c.items) then 1 else 0
  {
    var i := IndexOf(c.items, k);
    if i < |c.items| {
      ToFrontKeys(c.items, i);
    } else {
      var c1 := Get(c, k).0;
      assert Valid(c1);
      PutKeys(c1, k, v);
    }
  }

  lemma DropPrefix<K>(p: seq<K>, l: seq<K>, k: K)
    requires p <= l
    ensures Drop(p, k) <= Drop(l, k) && (k in p ==> k in l)
  {
    var i := Pos(p, k);
    if i < |p| {
      assert Pos(l, k) == i;
    }
  }

  lemma TouchPrefix<K>(p: seq<K>, l: seq<K>, small: nat, large: nat, k: K)
    requires p <= l && 1 <= small <= large
    ensures Touch(p, small, k) <= Touch(l, large, k)
  {
    DropPrefix(p, l, k);
  }

  lemma EraseKeys<K, V>(c: Cache<K, V>, k: K)
    ensures Keys(Erase(c, k).0.items) == Drop(Keys(c.items), k)
  {
  }

  /** The smaller cache holds a prefix, in recency order, of what the larger holds, and has hit no more often. */
  predicate Included<K(==), V>(small: Cache<K, V>, large: Cache<K, V>) {
    && Valid(small) && Valid(large) && small.capacity <= large.capacity
    && Keys(small.items) <= Keys(large.items)
    && small.hits <= large.hits
  }

  lemma PerformIncluded<K, V>(small: Cache<K, V>, large: Cache<K, V>, a: Access<K, V>)
    requires Included(small, large)
    ensures Included(Perform(small, a), Perform(large, a))
  {
    var p, l := Keys(small.items), Keys(large.items);
    match a
    case Read(k, v) =>
      ReadKeys(small, k, v);
      ReadKeys(large, k, v);
      TouchPrefix(p, l, small.capacity, large.capacity, k);
      DropPrefix(p, l, k);
    case Write(k, v) =>
      PutKeys(small, k, v);
      PutKeys(large, k, v);
      TouchPrefix(p, l, small.capacity, large.capacity, k);
    case Remove(k) =>
      EraseKeys(small, k);
      EraseKeys(large, k);
      DropPrefix(p, l, k);
    case Clear =>
  }

  /**
   LRU inclusion: on any trace of writes, removals, resets and read-through accesses the
   contents of the smaller cache stay a prefix of those of the larger, so growing a cache
   never costs a hit.
   */
  lemma {:induction false} Inclusion<K, V>(small: Cache<K, V>, large: Cache<K, V>, trace: seq<Access<K, V>>)
    requires Included(small, large)
    ensures Included(PerformAll(small, trace), PerformAll(large, trace))
    decreases |trace|
  {
    if trace != [] {
      PerformIncluded(small, large, trace[0]);
      Inclusion(Perform(small, trace[0]), Perform(large, trace[0]), trace[1..]);
    }
  }

  /** When a bare get on both caches keeps the inclusion: the smaller holds the key, or is empty, or the larger misses too. */
  predicate GetsAlike<K(==), V>(small: Cache<K, V>, large: Cache<K, V>, k: K) {
    Has(small.items, k) || !Has(large.items, k) || small.items == []
  }

  /** A bare get is not a read-through access: it keeps the inclusion exactly in those cases. */
  lemma BareGetInclusion<K, V>(small: Cache<K, V>, large: Cache<K, V>, k: K)
    requires Included(small, large)
    ensures Keys(Get(small, k).0.items) <= Keys(Get(large, k).0.items) <==> GetsAlike(small, large, k)
  {
    var p, l := Keys(small.items), Keys(large.items);
    DropPrefix(p, l, k);
    if k in p { ToFrontKeys(small.items, IndexOf(small.items, k)); }
    if k in l { ToFrontKeys(large.items, IndexOf(large.items, k)); }
    if k in l && k !in p && p != [] {
      assert Keys(Get(large, k).0.items)[0] == k && Keys(Get(small, k).0.items)[0] == p[0];
    }
  }

  /** Every use of a cache: an access as above, or a bare get. */
  datatype Use<K, V> = Through(a: Access<K, V>) | Bare(k: K)

  function Apply<K(==), V>(c: Cache<K, V>, u: Use<K, V>): (c': Cache<K, V>)
    requires Valid(c)
    ensures Valid(c') && c'.capacity == c.capacity
  {
    match u
    case Through(a) => Perform(c, a)
    case Bare(k) => DoValid(c, OpGet(k)); Get(c, k).0
  }

  /** The contents are nested now and after every further use. */
  predicate NestedThroughout<K(==), V>(small: Cache<K, V>, large: Cache<K, V>, uses: seq<Use<K, V>>)
    requires Valid(small) && Valid(large)
    decreases |uses|
  {
    && Keys(small.items) <= Keys(large.items)
    && (uses != [] ==> NestedThroughout(Apply(small, uses[0]), Apply(large, uses[0]), uses[1..]))
  }

  /** Each bare get, when its turn comes, finds the caches in one of the cases that keep the inclusion. */
  predicate EachGetsAlike<K(==), V>(small: Cache<K, V>, large: Cache<K, V>, uses: seq<Use<K, V>>)
    requires Valid(small) && Valid(large)
    decreases |uses|
  {
    uses != [] ==>
      && (uses[0].Bare? ==> GetsAlike(small, large, uses[0].k))
      && EachGetsAlike(Apply(small, uses[0]), Apply(large, uses[0]), uses[1..])
  }

  /** One use: it keeps the inclusion, hits included, unless it is a bare get outside those cases. */
  lemma ApplyIncluded<K, V>(small: Cache<K, V>, large: Cache<K, V>, u: Use<K, V>)
    requires Included(small, large)
    ensures Keys(Apply(small, u).items) <= Keys(Apply(large, u).items) <==> (u.Bare? ==> GetsAlike(small, large, u.k))
    ensures (u.Bare? ==> GetsAlike(small, large, u.k)) ==> Included(Apply(small, u), Apply(large, u))
  {
    match u
    case Through(a) => PerformIncluded(small, large, a);
    case Bare(k) =>
      BareGetInclusion(small, large, k);
      DropPrefix(Keys(small.items), Keys(large.items), k);
  }

  /** Over whole traces: the inclusion holds throughout if and only if no bare get breaks it when its turn comes. */
  lemma {:induction false} InclusionIff<K, V>(small: Cache<K, V>, large: Cache<K, V>, uses: seq<Use<K, V>>)
    requires Included(small, large)
    ensures NestedThroughout(small, large, uses) <==> EachGetsAlike(small, large, uses)
    decreases |uses|
  {
    hide Apply, GetsAlike, Keys;
    if uses != [] {
      ApplyIncluded(small, large, uses[0]);
      var s, l := Apply(small, uses[0]), Apply(large, uses[0]);
      if Included(s, l) { InclusionIff(s, l, uses[1..]); }
    }
  }

  /** It does break: two puts and a bare get leave a cache of one and a cache of two with no common beginning. */
  lemma BareGetBreaks()
    ensures var ops := [OpPut(0, 0), OpPut(1, 1), OpGet(0)];
            && Keys(Run(Empty<int, int>(1), ops).items) == [1]
            && Keys(Run(Empty<int, int>(2), ops).items) == [0, 1]
  {
    hide Run;
    var s, l := Empty<int, int>(1), Empty<int, int>(2);
    DoThree(s, OpPut(0, 0), OpPut(1, 1), OpGet(0));
    DoThree(l, OpPut(0, 0), OpPut(1, 1), OpGet(0));
    TwoPuts(s);
    TwoPuts(l);
    LastGet(Put(Put(s, 0, 0), 1, 1));
    LastGet(Put(Put(l, 0, 0), 1, 1));
  }

  lemma TwoPuts(c: Cache<int, int>)
    requires c == Empty(c.capacity) && 1 <= c.capacity <= 2
    ensures Put(Put(c, 0, 0), 1, 1).items == if c.capacity == 1 then [Entry(1, 1)] else [Entry(1, 1), Entry(0, 0)]
  {
    assert Put(c, 0, 0).items == [Entry(0, 0)];
    assert !Has([Entry(0, 0)], 1);
  }

  lemma LastGet(c: Cache<int, int>)
    requires c.items == [Entry(1, 1)] || c.items == [Entry(1, 1), Entry(0, 0)]
    ensures Keys(Get(c, 0).0.items) == if |c.items| == 1 then [1] else [0, 1]
  {
    if |c.items| == 2 { assert Keys(c.items)[1] == 0; }
  }

  lemma DoThree<K, V>(c: Cache<K, V>, a: Op<K, V>, b: Op<K, V>, g: Op<K, V>)
    requires Valid(c)
    ensures Valid(Do(c, a).0) && Valid(Do(Do(c, a).0, b).0)
    ensures Run(c, [a, b, g]) == Do(Do(Do(c, a).0, b).0, g).0
  {
    hide Do;
    DoValid(c, a);
    DoValid(Do(c, a).0, b);
    assert [a, b, g][1..] == [b, g] && [b, g][1..] == [g] && [g][1..] == [];
    assert Run(Do(Do(c, a).0, b).0, [g]) == Do(Do(Do(c, a).0, b).0, g).0;
    assert Run(Do(c, a).0, [b, g]) == Run(Do(Do(c, a).0, b).0, [g]);
  }

  // --------------------------------------------------------------- retention

  /** The key an operation moves to the front, if any: a put, or a get that hits. */
  function Touched<K(==), V>(c: Cache<K, V>, op: Op<K, V>): set<K> {
    match op
    case OpPut(k, _) => {k}
    case OpGet(k) => if Has(c.items, k) then {k} else {}
    case _ => {}
  }

  function TouchedAll<K(==), V>(c: Cache<K, V>, ops: seq<Op<K, V>>): set<K>
    requires Valid(c)
    decreases |ops|
  {
    if ops == [] then {}
    else
      DoValid(c, ops[0]);
      Touched(c, ops[0]) + TouchedAll(Do(c, ops[0]).0, ops[1..])
  }

  /** The keys more recent than `k`. */
  function Ahead<K(==), V>(items: seq<Entry<K, V>>, k: K): set<K> {
    set j | 0 <= j < IndexOf(items, k) :: items[j].key
  }

  lemma {:induction false} AheadSize<K, V>(items: seq<Entry<K, V>>, n: nat)
    requires Distinct(items) && n <= |items|
    ensures |(set j | 0 <= j < n :: items[j].key)| == n
  {
    var s := set j | 0 <= j < n :: items[j].key;
    if n == 0 {
      assert s == {};
    } else {
      AheadSize(items, n - 1);
      var s' := set j | 0 <= j < n - 1 :: items[j].key;
      assert s == s' + {items[n - 1].key};
      assert items[n - 1].key !in s';
    }
  }

  lemma SubsetSize<K>(a: set<K>, b: set<K>)
    requires a <= b
    ensures |a| <= |b|
  {
    assert b == a + (b - a);
  }

  /** Moving an entry to the front puts at most its key ahead of any other. */
  lemma AheadOfFront<K, V>(items: seq<Entry<K, V>>, i: nat, k: K)
    requires i < |items| && Distinct(items) && Has(items, k)
    ensures Has(ToFront(items, i), k)
    ensures Ahead(ToFront(items, i), k) <= if items[i].key == k then {} else Ahead(items, k) + {items[i].key}
  {
    var r, n := ToFront(items, i), IndexOf(items, k);
    var m := if i == n then 0 else if n < i then n + 1 else n;
    ToFrontDistinct(items, i);
    PosIs(r, m, k);
    forall j | j in Ahead(r, k) ensures j in Ahead(items, k) + {items[i].key} {
      var x :| 0 <= x < m && r[x].key == j;
      assert x > 0 ==> r[x] == items[if x <= i then x - 1 else x];
    }
  }

  lemma PosIs<K, V>(items: seq<Entry<K, V>>, n: nat, k: K)
    requires n < |items| && items[n].key == k && Distinct(items)
    ensures Has(items, k) && IndexOf(items, k) == n
  {
    assert Keys(items)[n] == k;
  }

  /** One step keeps `k` when the keys ahead of it and the key touched are fewer than the capacity. */
  lemma RetainStep<K, V>(c: Cache<K, V>, op: Op<K, V>, k: K, ahead: set<K>)
    requires Valid(c) && Has(c.items, k) && Ahead(c.items, k) <= ahead && k !in ahead
    requires op != OpErase(k) && op != OpReset
    requires |ahead + (Touched(c, op) - {k})| < c.capacity
    ensures var c' := Do(c, op).0;
            Has(c'.items, k) && Ahead(c'.items, k) <= ahead + (Touched(c, op) - {k})
  {
    var i := IndexOf(c.items, op.k);
    hide IndexOf, Ahead, ToFront, Without;
    match op
    case OpGet(_) => if i < |c.items| { AheadOfFront(c.items, i, k); }
    case OpErase(_) => if i < |c.items| { AheadOfErased(c.items, i, k); }
    case OpPut(j, v) => if i < |c.items| { AheadOfUpdate(c, j, v, k); } else { AheadOfNew(c, j, v, k, ahead); }
  }

  lemma AheadOfUpdate<K, V>(c: Cache<K, V>, j: K, v: V, k: K)
    requires Valid(c) && Has(c.items, j) && Has(c.items, k)
    ensures Has(Put(c, j, v).items, k)
    ensures Ahead(Put(c, j, v).items, k) <= if j == k then {} else Ahead(c.items, k) + {j}
  {
    var i := IndexOf(c.items, j);
    var items' := c.items[i := Entry(j, v)];
    assert Keys(items') == Keys(c.items);
    assert Distinct(items');
    AheadSameKeys(items', c.items, k);
    hide Ahead, ToFront, Without, IndexOf;
    AheadOfFront(items', i, k);
  }

  lemma AheadSameKeys<K, V>(a: seq<Entry<K, V>>, b: seq<Entry<K, V>>, k: K)
    requires Keys(a) == Keys(b)
    ensures Ahead(a, k) == Ahead(b, k)
  {
    var n := IndexOf(a, k);
    forall j ensures j in Ahead(a, k) <==> j in Ahead(b, k) {
      if j in Ahead(a, k) { var x :| 0 <= x < n && a[x].key == j; assert Keys(a)[x] == Keys(b)[x] == b[x].key; }
      if j in Ahead(b, k) { var x :| 0 <= x < n && b[x].key == j; assert Keys(a)[x] == Keys(b)[x] == a[x].key; }
    }
  }

  lemma AheadOfErased<K, V>(items: seq<Entry<K, V>>, i: nat, k: K)
    requires i < |items| && Distinct(items) && Has(items, k) && items[i].key != k
    ensures Has(Without(items, i), k) && Ahead(Without(items, i), k) <= Ahead(items, k)
  {
    var r, n := Without(items, i), IndexOf(items, k);
    var m := if n < i then n else n - 1;
    PosIs(r, m, k);
    forall j | j in Ahead(r, k) ensures j in Ahead(items, k) {
      var x :| 0 <= x < m && r[x].key == j;
      assert r[x] == items[if x < i then x else x + 1];
    }
  }

  lemma AheadOfNew<K, V>(c: Cache<K, V>, j: K, v: V, k: K, ahead: set<K>)
    requires Valid(c) && Has(c.items, k) && !Has(c.items, j)
    requires Ahead(c.items, k) <= ahead && |ahead + {j}| < c.capacity
    ensures Has(Put(c, j, v).items, k) && Ahead(Put(c, j, v).items, k) <= ahead + {j}
  {
    var items, n := c.items, IndexOf(c.items, k);
    PositionBounded(items, j, k, ahead, c.capacity);
    var r := Put(c, j, v).items;
    PutValid(c, j, v);
    assert forall y :: 1 <= y <= n + 1 ==> r[y] == items[y - 1];
    AheadShifted(items, r, j, k);
  }

  /** The position of `k` is the number of keys ahead of it. */
  lemma PositionBounded<K, V>(items: seq<Entry<K, V>>, j: K, k: K, ahead: set<K>, n: nat)
    requires Distinct(items) && Has(items, k) && !Has(items, j)
    requires Ahead(items, k) <= ahead && |ahead + {j}| < n
    ensures IndexOf(items, k) + 1 < n
  {
    AheadSize(items, IndexOf(items, k));
    assert forall x :: 0 <= x < |items| ==> items[x].key in Keys(items);
    assert j !in Ahead(items, k);
    SubsetSize(Ahead(items, k) + {j}, ahead + {j});
  }

  lemma AheadShifted<K, V>(items: seq<Entry<K, V>>, r: seq<Entry<K, V>>, j: K, k: K)
    requires Has(items, k) && Distinct(r) && IndexOf(items, k) + 1 < |r| && r[0].key == j
    requires forall y :: 1 <= y <= IndexOf(items, k) + 1 ==> r[y] == items[y - 1]
    ensures Has(r, k) && Ahead(r, k) <= Ahead(items, k) + {j}
  {
    var n := IndexOf(items, k);
    assert r[n + 1] == items[n];
    PosIs(r, n + 1, k);
    forall x | x in Ahead(r, k) ensures x in Ahead(items, k) + {j} {
      var y :| 0 <= y < n + 1 && r[y].key == x;
      assert y > 0 ==> r[y] == items[y - 1];
    }
  }

  /**
   Retention: a key survives every run, free of its own erase and of resets, in which the keys ahead of
   it together with the other keys put or hit are fewer than the capacity.
   */
  lemma {:induction false} Retained<K, V>(c: Cache<K, V>, ops: seq<Op<K, V>>, k: K, ahead: set<K>)
    requires Valid(c) && Has(c.items, k) && Ahead(c.items, k) <= ahead && k !in ahead
    requires OpErase(k) !in ops && OpReset !in ops
    requires |ahead + (TouchedAll(c, ops) - {k})| < c.capacity
    ensures Has(Run(c, ops).items, k)
    decreases |ops|
  {
    if ops != [] {
      hide Has, Ahead, Do, Touched;
      DoValid(c, ops[0]);
      var ahead', c' := ahead + (Touched(c, ops[0]) - {k}), Do(c, ops[0]).0;
      assert ahead + (TouchedAll(c, ops) - {k}) == ahead' + (TouchedAll(c', ops[1..]) - {k});
      SubsetSize(ahead', ahead + (TouchedAll(c, ops) - {k}));
      RetainStep(c, ops[0], k, ahead);
      Retained(c', ops[1..], k, ahead');
    }
  }

  /** In particular a key just put or hit survives while fewer than `capacity` other keys are put or hit. */
  lemma JustUsedRetained<K, V>(c: Cache<K, V>, use: Op<K, V>, ops: seq<Op<K, V>>, k: K)
    requires Valid(c) && Touched(c, use) == {k}
    requires OpErase(k) !in ops && OpReset !in ops
    requires Valid(Do(c, use).0) && |TouchedAll(Do(c, use).0, ops) - {k}| < c.capacity
    ensures Has(Run(Do(c, use).0, ops).items, k)
  {
    var c' := Do(c, use).0;
    DoValid(c, use);
    assert k in Touched(c, use);
    PosIs(c'.items, 0, k);
    assert {} + (TouchedAll(c', ops) - {k}) == TouchedAll(c', ops) - {k};
    Retained(c', ops, k, {});
  }

  // ------------------------------------------------- values and bookkeeping

  /** What has been put and not erased since the last reset, and how often each thing happened since then. */
  datatype Ledger<K, V> = Ledger(last: map<K, V>, gets: nat, inserts: nat, erases: nat)

  /** The ledger after an operation: read off the operation and its reply, and, for a put, off whether the key was held. */
  function Record<K(==), V>(l: Ledger<K, V>, c: Cache<K, V>, op: Op<K, V>, reply: Reply<V>): Ledger<K, V> {
    match op
    case OpGet(_) => l.(gets := l.gets + 1)
    case OpPut(k, v) => l.(last := l.last[k := v], inserts := l.inserts + if Has(c.items, k) then 0 else 1)
    case OpErase(k) => l.(last := l.last - {k}, erases := l.erases + if reply == Erased(true) then 1 else 0)
    case OpReset => Ledger(map[], 0, 0, 0)
  }

  /** Every entry holds the last value put for its key, and the counters add up. */
  predicate Balanced<K(==), V(==)>(c: Cache<K, V>, l: Ledger<K, V>) {
    && (forall i :: 0 <= i < |c.items| ==> c.items[i].key in l.last && l.last[c.items[i].key] == c.items[i].value)
    && c.hits + c.misses == l.gets
    && |c.items| + c.evictions + l.erases == l.inserts
  }

  /** Every operation keeps the balance; a hit returns the last value put, and a miss means the key is not held. */
  lemma DoBalanced<K, V>(c: Cache<K, V>, op: Op<K, V>, l: Ledger<K, V>)
    requires Valid(c) && Balanced(c, l)
    ensures var (c', reply) := Do(c, op);
            && Balanced(c', Record(l, c, op, reply))
            && (op.OpGet? ==> reply.Got? && (reply.value.Some? <==> Has(c.items, op.k)))
            && (op.OpGet? && Has(c.items, op.k) ==> op.k in l.last && reply.value == Some(l.last[op.k]))
            && (op.OpErase? ==> reply == Erased(Has(c.items, op.k)) && !Has(c'.items, op.k))
  {
    var i := if op.OpReset? then 0 else IndexOf(c.items, op.k);
    match op
    case OpErase(k) =>
      if i < |c.items| {
        forall j | 0 <= j < |c.items| && j != i ensures c.items[j].key != k {
          if j < i { assert c.items[j].key != c.items[i].key; }
        }
      }
    case _ =>
  }

  function RunLedger<K(==), V>(c: Cache<K, V>, ops: seq<Op<K, V>>, l: Ledger<K, V>): Ledger<K, V>
    requires Valid(c)
    decreases |ops|
  {
    if ops == [] then l
    else
      DoValid(c, ops[0]);
      var (c', reply) := Do(c, ops[0]);
      RunLedger(c', ops[1..], Record(l, c, ops[0], reply))
  }

  /** Over every run from an empty cache the ledger balances. */
  lemma {:induction false} RunBalanced<K, V>(c: Cache<K, V>, ops: seq<Op<K, V>>, l: Ledger<K, V>)
    requires Valid(c) && Balanced(c, l)
    ensures Balanced(Run(c, ops), RunLedger(c, ops, l))
    decreases |ops|
  {
    if ops != [] {
      DoBalanced(c, ops[0], l);
      hide Do, Balanced, Record;
      DoValid(c, ops[0]);
      var (c', reply) := Do(c, ops[0]);
      RunBalanced(c', ops[1..], Record(l, c, ops[0], reply));
    }
  }
}
