/**
 `LRUCache` as it is built: a doubly linked list of nodes, most recent first, and an
 index from keys to nodes (the iterators). Every method is proved to act on the
 abstract value exactly as module Lru says, and to keep the identity of the nodes.
 */
module LruList {
  import opened Text
  import Lru

  class Node<K(==), V> {
    const key: K
    var value: V
    var prev: Node?<K, V>
    var next: Node?<K, V>

    constructor (key: K, value: V)
      ensures this.key == key && this.value == value
    {
      this.key, this.value, prev, next := key, value, null, null;
    }
  }

  function Ref<K(==), V>(s: seq<Node<K, V>>, i: int): (r: Node?<K, V>) {
    if 0 <= i < |s| then s[i] else null
  }

  /** The position linked to, forwards and backwards, from position `x` once position `i` is skipped. */
  function Following(i: int, x: int): int { if x == i - 1 then i + 1 else x + 1 }

  function Preceding(i: int, x: int): int { if x == i + 1 then i - 1 else x - 1 }

  /** The neighbours of the `j`-th node after the `i`-th is taken out. */
  lemma RefWithout<K, V>(was: seq<Node<K, V>>, i: nat, j: nat)
    requires i < |was| && j < |was| - 1
    ensures var ns, x := Lru.Without(was, i), if j < i then j else j + 1;
            && ns[j] == was[x]
            && Ref(ns, j + 1) == Ref(was, Following(i, x))
            && Ref(ns, j - 1) == Ref(was, Preceding(i, x))
  {
  }

  lemma EndsWithout<K, V>(was: seq<Node<K, V>>, i: nat)
    requires i < |was|
    ensures var ns, n := Lru.Without(was, i), |was|;
            && Ref(ns, 0) == Ref(was, if i == 0 then 1 else 0)
            && Ref(ns, n - 2) == Ref(was, if i == n - 1 then n - 2 else n - 1)
  {
  }

  predicate AllDistinct<K(==), V>(s: seq<Node<K, V>>) { forall i, j :: 0 <= i < j < |s| ==> s[i] != s[j] }

  lemma OnlyAt<K, V>(s: seq<Node<K, V>>, x: nat, y: int)
    requires AllDistinct(s) && x < |s| && x != y
    ensures s[x] != Ref(s, y)
  {
  }

  lemma DistinctWithout<K, V>(s: seq<Node<K, V>>, i: nat)
    requires AllDistinct(s) && i < |s|
    ensures AllDistinct(Lru.Without(s, i)) && s[i] !in Lru.Without(s, i)
  {
    var r := Lru.Without(s, i);
    forall j | 0 <= j < |r| ensures r[j] != s[i] { assert r[j] == s[if j < i then j else j + 1]; }
  }

  /** Each node is linked to its two neighbours in the sequence. */
  ghost predicate Chain<K, V>(ns: seq<Node<K, V>>)
    reads ns`next, ns`prev
  {
    && (forall i {:trigger ns[i].next} :: 0 <= i < |ns| ==> ns[i].next == Ref(ns, i + 1))
    && (forall i {:trigger ns[i].prev} :: 0 <= i < |ns| ==> ns[i].prev == Ref(ns, i - 1))
  }

  /** When the neighbours of the `i`-th node skip it, the others form a chain. */
  lemma ChainWithout<K, V>(was: seq<Node<K, V>>, i: nat)
    requires i < |was|
    requires forall x {:trigger was[x].next} :: 0 <= x < |was| ==>
               was[x].next == Ref(was, Following(i, x))
    requires forall x {:trigger was[x].prev} :: 0 <= x < |was| ==>
               was[x].prev == Ref(was, Preceding(i, x))
    ensures Chain(Lru.Without(was, i))
  {
    hide Lru.Without, Ref;
    var ns := Lru.Without(was, i);
    forall j | 0 <= j < |ns| ensures ns[j].next == Ref(ns, j + 1) && ns[j].prev == Ref(ns, j - 1) {
      RefWithout(was, i, j);
      var x := if j < i then j else j + 1;
      assert was[x].next == Ref(was, Following(i, x));
      assert was[x].prev == Ref(was, Preceding(i, x));
    }
  }

  lemma ChainFront<K, V>(n: Node<K, V>, was: seq<Node<K, V>>)
    requires n.prev == null && n.next == Ref(was, 0)
    requires forall x {:trigger was[x].next} :: 0 <= x < |was| ==> was[x].next == Ref(was, x + 1)
    requires forall x {:trigger was[x].prev} :: 0 <= x < |was| ==> was[x].prev == Ref([n] + was, x)
    ensures Chain([n] + was)
  {
    var ns := [n] + was;
    forall j | 0 <= j < |ns| ensures ns[j].next == Ref(ns, j + 1) && ns[j].prev == Ref(ns, j - 1) {
      if j > 0 {
        assert was[j - 1].next == Ref(was, j);
        assert was[j - 1].prev == Ref(ns, j - 1);
      }
    }
  }

  /** The entries the nodes hold, in order. */
  ghost predicate Holds<K, V>(ns: seq<Node<K, V>>, items: seq<Lru.Entry<K, V>>)
    reads ns`value
  {
    |items| == |ns| && forall i :: 0 <= i < |ns| ==> items[i] == Lru.Entry(ns[i].key, ns[i].value)
  }

  /** Each index entry points at the node of its key, and every node is indexed. */
  ghost predicate Indexes<K, V>(index: map<K, Node<K, V>>, ns: seq<Node<K, V>>) {
    && (forall k :: k in index ==> index[k] in ns && index[k].key == k)
    && (forall i :: 0 <= i < |ns| ==> ns[i].key in index && index[ns[i].key] == ns[i])
  }

  lemma IndexesFront<K, V>(index: map<K, Node<K, V>>, ns: seq<Node<K, V>>, i: nat)
    requires Indexes(index, ns) && i < |ns|
    ensures Indexes(index, Lru.ToFront(ns, i))
    ensures forall m :: m in Lru.ToFront(ns, i) <==> m in ns
  {
    var r := Lru.ToFront(ns, i);
    forall m | m in ns ensures m in r {
      var x :| 0 <= x < |ns| && ns[x] == m;
      assert r[if x == i then 0 else if x < i then x + 1 else x] == m;
    }
    forall j | 0 <= j < |r| ensures r[j] in ns {
      assert j > 0 ==> r[j] == ns[if j <= i then j - 1 else j];
    }
  }

  lemma IndexesWithout<K, V>(index: map<K, Node<K, V>>, ns: seq<Node<K, V>>, i: nat)
    requires Indexes(index, ns) && i < |ns| && AllDistinct(ns)
    ensures Indexes(index - {ns[i].key}, Lru.Without(ns, i))
    ensures forall m :: m in Lru.Without(ns, i) ==> m in ns
  {
    var r, index' := Lru.Without(ns, i), index - {ns[i].key};
    forall k | k in index' ensures index'[k] in r {
      var x :| 0 <= x < |ns| && ns[x] == index[k];
      assert r[if x < i then x else x - 1] == index[k];
    }
    forall j | 0 <= j < |r| ensures r[j] in ns && r[j].key in index' && index'[r[j].key] == r[j] {
      var x := if j < i then j else j + 1;
      assert r[j] == ns[x] && ns[x] != ns[i];
    }
  }

  lemma IndexesNew<K, V>(index: map<K, Node<K, V>>, ns: seq<Node<K, V>>, n: Node<K, V>)
    requires Indexes(index, ns) && n.key !in index
    ensures Indexes(index[n.key := n], [n] + ns) && n !in ns
  {
    var r, index' := [n] + ns, index[n.key := n];
    forall k | k in index' ensures index'[k] in r {
      if k != n.key {
        var x :| 0 <= x < |ns| && ns[x] == index[k];
        assert r[x + 1] == index[k];
      }
    }
  }

  class LruCache<K(==), V> {
    const capacity: nat
    var first: Node?<K, V>
    var last: Node?<K, V>
    var size: nat
    var index: map<K, Node<K, V>>
    var hits: nat
    var misses: nat
    var evictions: nat
    /** The list, front to back, and what it holds. */
    ghost var nodes: seq<Node<K, V>>
    ghost var items: seq<Lru.Entry<K, V>>
    /** The footprint: every node of the list. */
    ghost var repr: set<Node<K, V>>

    /** The links spell out `nodes`. */
    ghost predicate Linked()
      reads this`first, this`last, this`size, this`nodes, this`repr, repr`next, repr`prev
    {
      && (forall i :: 0 <= i < |nodes| ==> nodes[i] in repr)
      && AllDistinct(nodes) && Chain(nodes) && size == |nodes|
      && first == Ref(nodes, 0) && last == Ref(nodes, |nodes| - 1)
    }

    ghost predicate Valid()
      reads this, repr
    {
      Linked() && Indexes(index, nodes) && Holds(nodes, items) && 1 <= capacity && |items| == |nodes| <= capacity
    }

    ghost function Abs(): Lru.Cache<K, V>
      reads this
    {
      Lru.Cache(capacity, items, hits, misses, evictions)
    }

    constructor (requested: nat)
      ensures Valid() && Abs() == Lru.Empty(requested) && repr == {}
      ensures capacity == if requested == 0 then 1 else requested
    {
      capacity := if requested == 0 then 1 else requested;
      first, last, size, index, nodes, items := null, null, 0, map[], [], [];
      hits, misses, evictions, repr := 0, 0, 0, {};
    }

    /** Makes the neighbours of `n`, the `i`-th node, skip it. */
    method Bypass(n: Node<K, V>, ghost i: nat)
      requires forall x :: 0 <= x < |nodes| ==> nodes[x] in repr
      requires i < |nodes| && nodes[i] == n && AllDistinct(nodes)
      requires n.prev == Ref(nodes, i - 1) && n.next == Ref(nodes, i + 1)
      requires first == Ref(nodes, 0) && last == Ref(nodes, |nodes| - 1)
      modifies this`first, this`last, repr`next, repr`prev
      ensures first == Ref(nodes, if i == 0 then 1 else 0)
      ensures last == Ref(nodes, if i == |nodes| - 1 then i - 1 else |nodes| - 1)
      ensures i > 0 ==> nodes[i - 1].next == Ref(nodes, i + 1)
      ensures i + 1 < |nodes| ==> nodes[i + 1].prev == Ref(nodes, i - 1)
      ensures forall m :: m in repr && m != Ref(nodes, i - 1) ==> m.next == old(m.next)
      ensures forall m :: m in repr && m != Ref(nodes, i + 1) ==> m.prev == old(m.prev)
    {
      var p, q := n.prev, n.next;
      if p == null { first := q; } else { p.next := q; }
      if q == null { last := p; } else { q.prev := p; }
    }

    /** Takes node `n`, the `i`-th, out of the chain. */
    method Unlink(n: Node<K, V>, ghost i: nat)
      requires Linked() && i < |nodes| && nodes[i] == n
      modifies this`first, this`last, this`size, this`nodes, repr`next, repr`prev
      ensures Linked() && nodes == Lru.Without(old(nodes), i) && n !in nodes
    {
      hide Lru.Without, Ref;
      ghost var was := nodes;
      assert n.prev == Ref(was, i - 1) && n.next == Ref(was, i + 1);
      DistinctWithout(was, i);
      EndsWithout(was, i);
      Bypass(n, i);
      forall x | 0 <= x < |was|
        ensures was[x].next == Ref(was, Following(i, x))
        ensures was[x].prev == Ref(was, Preceding(i, x))
      {
        assert old(was[x].next) == Ref(was, x + 1) && old(was[x].prev) == Ref(was, x - 1);
        assert was[x] in repr;
        if x != i - 1 { OnlyAt(was, x, i - 1); }
        if x != i + 1 { OnlyAt(was, x, i + 1); }
        assert Following(i, i - 1) == i + 1 && Preceding(i, i + 1) == i - 1;
      }
      ChainWithout(was, i);
      nodes, size := Lru.Without(nodes, i), size - 1;
    }

    /** Puts node `n` in front of the chain. */
    method LinkFront(n: Node<K, V>)
      requires Linked() && n !in nodes
      modifies this`first, this`last, this`size, this`nodes, this`repr, n`next, n`prev, repr`prev
      ensures Linked() && nodes == [n] + old(nodes) && repr == old(repr) + {n}
    {
      ghost var was := nodes;
      n.prev, n.next := null, first;
      if first == null { last := n; } else { first.prev := n; }
      first := n;
      forall x | 0 <= x < |was|
        ensures was[x].next == Ref(was, x + 1)
        ensures was[x].prev == Ref([n] + was, x)
      {
        assert old(was[x].next) == Ref(was, x + 1) && old(was[x].prev) == Ref(was, x - 1);
      }
      ChainFront(n, was);
      nodes, size, repr := [n] + nodes, size + 1, repr + {n};
    }

    /** `splice` to the front: the nodes are the same objects, in a new order. */
    method Splice(n: Node<K, V>, ghost i: nat)
      requires Valid() && i < |nodes| && nodes[i] == n
      modifies this`first, this`last, this`size, this`nodes, this`items, this`repr, repr`next, repr`prev
      ensures Valid() && nodes == Lru.ToFront(old(nodes), i) && items == Lru.ToFront(old(items), i)
      ensures repr == old(repr) && forall m :: m in nodes <==> m in old(nodes)
    {
      hide Chain, Indexes, Lru.IndexOf, Lru.Without, AllDistinct, Holds;
      ghost var was := nodes;
      IndexesFront(index, was, i);
      Unlink(n, i);
      LinkFront(n);
      assert nodes == Lru.ToFront(was, i);
      items := Lru.ToFront(items, i);
      HoldsFront(was, old(items), i);
    }

    static lemma HoldsFront(ns: seq<Node<K, V>>, es: seq<Lru.Entry<K, V>>, i: nat)
      requires Holds(ns, es) && i < |ns|
      ensures Holds(Lru.ToFront(ns, i), Lru.ToFront(es, i))
    {
      var a, b := Lru.ToFront(ns, i), Lru.ToFront(es, i);
      forall j | 0 <= j < |a| ensures b[j] == Lru.Entry(a[j].key, a[j].value) {
        var x := if j == 0 then i else if j <= i then j - 1 else j;
        assert a[j] == ns[x] && b[j] == es[x];
      }
    }

    /** Where a node is, and that this is where its key is first found. */
    lemma At(n: Node<K, V>) returns (i: nat)
      requires Valid() && n in nodes
      ensures i < |nodes| && nodes[i] == n && Lru.IndexOf(items, n.key) == i
    {
      i :| 0 <= i < |nodes| && nodes[i] == n;
      KeysDistinct();
      Lru.PosIs(items, i, n.key);
    }

    lemma KeysDistinct()
      requires Valid()
      ensures Lru.Valid(Abs())
    {
      forall i, j | 0 <= i < j < |items| ensures items[i].key != items[j].key {
        assert index[nodes[i].key] == nodes[i] && index[nodes[j].key] == nodes[j];
      }
    }

    lemma Absent(k: K)
      requires Valid() && k !in index
      ensures Lru.IndexOf(items, k) == |items|
    {
      forall i | 0 <= i < |nodes| ensures items[i].key != k { assert nodes[i].key in index; }
    }

    method Get(k: K) returns (r: Option<V>)
      requires Valid()
      modifies this, repr`next, repr`prev
      ensures Valid() && index == old(index) && (Abs(), r) == Lru.Get(old(Abs()), k)
      ensures repr == old(repr) && forall m :: m in nodes <==> m in old(nodes)
    {
      hide Linked, Indexes, Lru.ToFront, Lru.IndexOf, Lru.Get;
      Lru.GetCases(Abs(), k);
      if k !in index {
        Absent(k);
        misses := misses + 1;
        return None;
      }
      var n := index[k];
      assert n in nodes && n.key == k by { Find(k); }
      ghost var i := At(n);
      hits := hits + 1;
      Splice(n, i);
      r := Some(n.value);
    }

    lemma Find(k: K)
      requires Valid() && k in index
      ensures index[k] in nodes && index[k].key == k
    {
    }

    /** The update half of `put`: the node of the key keeps its identity. */
    method Update(n: Node<K, V>, v: V)
      requires Valid() && n in nodes
      modifies this`first, this`last, this`size, this`nodes, this`items, this`repr, repr
      ensures Valid() && index == old(index) && repr == old(repr)
      ensures Abs() == Lru.Put(old(Abs()), n.key, v)
    {
      hide Linked, Indexes, Lru.ToFront, Lru.IndexOf, Lru.Put, Lru.Without;
      Lru.PutCases(Abs(), n.key, v);
      ghost var i := At(n);
      InRepr(i);
      n.value := v;
      items := items[i := Lru.Entry(n.key, v)];
      assert Holds(nodes, items) by { OnlyNode(i); }
      Splice(n, i);
    }

    lemma InRepr(i: nat)
      requires Linked() && i < |nodes|
      ensures nodes[i] in repr
    {
    }

    lemma OnlyNode(i: nat)
      requires Linked() && i < |nodes|
      ensures forall j :: 0 <= j < |nodes| && j != i ==> nodes[j] != nodes[i]
    {
    }

    /** Removes node `n`, the `i`-th, from the list and the index. */
    method Remove(n: Node<K, V>, ghost i: nat)
      requires Valid() && i < |nodes| && nodes[i] == n
      modifies this`first, this`last, this`size, this`nodes, this`items, this`index, repr`next, repr`prev
      ensures Valid() && index == old(index) - {n.key}
      ensures nodes == Lru.Without(old(nodes), i) && items == Lru.Without(old(items), i)
    {
      hide Chain, Indexes, Lru.IndexOf, Lru.Without, AllDistinct, Holds;
      ghost var was := nodes;
      IndexesWithout(index, was, i);
      index := index - {n.key};
      Unlink(n, i);
      items := Lru.Without(items, i);
      HoldsWithout(was, old(items), i);
    }

    static lemma HoldsWithout(ns: seq<Node<K, V>>, es: seq<Lru.Entry<K, V>>, i: nat)
      requires Holds(ns, es) && i < |ns|
      ensures Holds(Lru.Without(ns, i), Lru.Without(es, i))
    {
    }

    /** Adds a node for a key not held, when there is room. */
    method Insert(k: K, v: V)
      requires Valid() && k !in index && |nodes| < capacity
      modifies this`first, this`last, this`size, this`nodes, this`items, this`index, this`repr, repr`prev
      ensures Valid() && items == [Lru.Entry(k, v)] + old(items)
      ensures fresh(repr - old(repr)) && k in index && index == old(index)[k := index[k]]
    {
      hide Chain, Indexes, Lru.IndexOf, AllDistinct;
      ghost var was, es := nodes, items;
      var n := new Node(k, v);
      IndexesNew(index, was, n);
      LinkFront(n);
      index := index[k := n];
      items := [Lru.Entry(k, v)] + items;
      assert Holds(was, es);
    }

    method Put(k: K, v: V)
      requires Valid()
      modifies this, repr
      ensures Valid() && Abs() == Lru.Put(old(Abs()), k, v)
      ensures fresh(repr - old(repr))
      ensures k in index && (k in old(index) ==> index == old(index))
    {
      hide Linked, Indexes, Holds, Lru.ToFront, Lru.IndexOf, Lru.Put, Lru.Without;
      Lru.PutCases(Abs(), k, v);
      if k in index {
        Find(k);
        Update(index[k], v);
        return;
      }
      Absent(k);
      SizeAndLast();
      if size >= capacity {
        NotIndexed(k);
        Remove(last, |nodes| - 1);
        evictions := evictions + 1;
      }
      Insert(k, v);
    }

    lemma SizeAndLast()
      requires Valid()
      ensures size == |nodes| && (nodes != [] ==> last == nodes[|nodes| - 1])
    {
    }

    lemma NotIndexed(k: K)
      requires Valid() && k !in index
      ensures forall i :: 0 <= i < |nodes| ==> nodes[i].key != k
    {
    }

    method Erase(k: K) returns (found: bool)
      requires Valid()
      modifies this, repr`next, repr`prev
      ensures Valid() && repr == old(repr) && (Abs(), found) == Lru.Erase(old(Abs()), k)
      ensures k !in index && index == old(index) - {k}
    {
      hide Linked, Indexes, Holds, Lru.IndexOf, Lru.Without;
      if k !in index {
        Absent(k);
        return false;
      }
      Find(k);
      var n := index[k];
      ghost var i := At(n);
      Remove(n, i);
      found := true;
    }

    method Reset()
      requires Valid()
      modifies this
      ensures Valid() && repr == {} && Abs() == Lru.Reset(old(Abs()))
    {
      hide Chain, Indexes, Holds, AllDistinct;
      EmptyList();
      first, last, size, index, nodes, items := null, null, 0, map[], [], [];
      hits, misses, evictions, repr := 0, 0, 0, {};
    }

    static lemma EmptyList()
      ensures Chain<K, V>([]) && AllDistinct<K, V>([])
      ensures Indexes<K, V>(map[], []) && Holds<K, V>([], [])
    {
    }
  }
}
