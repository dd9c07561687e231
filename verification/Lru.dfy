/**
 A bounded least-recently-used table, kept as the `lru` crate keeps it: a hash map
 plus the order of use, most recent first.
 */
module Lru {
  import opened Common

  datatype Cache<K(==), V> = Cache(order: seq<K>, table: map<K, V>)

  function Empty<K(==), V>(): Cache<K, V> {
    Cache([], map[])
  }

  ghost predicate NoRepeat<K>(o: seq<K>) {
    forall i, j :: 0 <= i < j < |o| ==> o[i] != o[j]
  }

  /** The order lists every key of the map once. */
  ghost predicate Valid<K, V>(c: Cache<K, V>) {
    && NoRepeat(c.order)
    && (forall i :: 0 <= i < |c.order| ==> c.order[i] in c.table)
    && (forall k :: k in c.table ==> k in c.order)
  }

  /** `peek`: reads without touching the order. */
  function Peek<K(==), V>(c: Cache<K, V>, k: K): Option<V> {
    if k in c.table then Some(c.table[k]) else None
  }

  function Drop<K(==)>(order: seq<K>, k: K): seq<K> {
    if order == [] then [] else if order[0] == k then order[1..] else [order[0]] + Drop(order[1..], k)
  }

  /** `pop`. */
  function Pop<K(==), V>(c: Cache<K, V>, k: K): Cache<K, V> {
    Cache(Drop(c.order, k), c.table - {k})
  }

  function Last<K(==), V>(c: Cache<K, V>): K
    requires c.order != []
  {
    c.order[|c.order| - 1]
  }

  /** A put of a new key into a full table pushes out the least recent key. */
  predicate Evicts<K(==), V>(c: Cache<K, V>, k: K, capacity: nat) {
    k !in c.table && |c.order| >= capacity && c.order != []
  }

  /** `put` (and `get_mut` followed by a write): `k` becomes the most recent entry. */
  function Put<K(==), V>(c: Cache<K, V>, k: K, v: V, capacity: nat): Cache<K, V> {
    if Evicts(c, k, capacity) then Cache([k] + c.order[..|c.order| - 1], (c.table - {Last(c)})[k := v])
    else Cache([k] + (if k in c.table then Drop(c.order, k) else c.order), c.table[k := v])
  }

  /** `get`: a hit moves the key to the front. */
  function Touch<K(==), V>(c: Cache<K, V>, k: K): Cache<K, V> {
    if k in c.table then c.(order := [k] + Drop(c.order, k)) else c
  }

  ghost function Skip<K>(order: seq<K>, k: K, i: nat): nat {
    if order != [] && order[0] != k && i > 0 then 1 + Skip(order[1..], k, i - 1)
    else if order != [] && order[0] == k then i + 1 else i
  }

  /** Dropping a key keeps the other keys, in their order. */
  lemma {:induction false} DropAt<K>(order: seq<K>, k: K)
    ensures |Drop(order, k)| == if k in order then |order| - 1 else |order|
    ensures forall i :: 0 <= i < |Drop(order, k)| ==>
              && 0 <= Skip(order, k, i) < |order| && Drop(order, k)[i] == order[Skip(order, k, i)]
    ensures forall i, j :: 0 <= i < j < |Drop(order, k)| ==> Skip(order, k, i) < Skip(order, k, j)
    ensures forall x :: x in order && x != k ==> x in Drop(order, k)
    ensures NoRepeat(order) ==> k !in Drop(order, k)
  {
    if order != [] {
      DropAt(order[1..], k);
      var d := Drop(order, k);
      if order[0] != k {
        forall i | 0 < i < |d|
          ensures 0 <= Skip(order, k, i) < |order| && d[i] == order[Skip(order, k, i)]
          ensures Skip(order, k, i) == 1 + Skip(order[1..], k, i - 1)
        {
        }
      }
    }
  }

  lemma {:induction false} Elements<K>(order: seq<K>)
    requires NoRepeat(order)
    ensures |set k | k in order| == |order|
  {
    if order != [] {
      Elements(order[1..]);
      assert order == [order[0]] + order[1..];
      assert (set k | k in order) == (set k | k in order[1..]) + {order[0]};
    }
  }

  lemma Size<K, V>(c: Cache<K, V>)
    requires Valid(c)
    ensures |c.table.Keys| == |c.order|
  {
    Elements(c.order);
    assert c.table.Keys == set k | k in c.order;
  }

  lemma EvictValid<K, V>(c: Cache<K, V>, k: K, v: V)
    requires Valid(c) && c.order != [] && k !in c.table
    ensures Valid(Cache([k] + c.order[..|c.order| - 1], (c.table - {Last(c)})[k := v]))
  {
    var n := |c.order| - 1;
    var o, t := [k] + c.order[..n], (c.table - {Last(c)})[k := v];
    forall x | x in t ensures x in o {
      if x != k {
        var i :| 0 <= i <= n && c.order[i] == x;
        assert i < n;
        assert o[i + 1] == x;
      }
    }
  }

  lemma {:induction false} DropNoRepeat<K>(order: seq<K>, k: K)
    requires NoRepeat(order)
    ensures NoRepeat(Drop(order, k)) && k !in Drop(order, k)
    ensures forall x :: x in Drop(order, k) <==> x in order && x != k
  {
    DropAt(order, k);
    var d := Drop(order, k);
    forall i, j | 0 <= i < j < |d| ensures d[i] != d[j] {
      assert d[i] == order[Skip(order, k, i)] && d[j] == order[Skip(order, k, j)];
    }
    forall x | x in d ensures x in order {
      var i :| 0 <= i < |d| && d[i] == x;
      assert d[i] == order[Skip(order, k, i)];
    }
  }

  lemma PrependValid<K, V>(o: seq<K>, t: map<K, V>, k: K)
    requires NoRepeat(o) && k in t && k !in o
    requires forall x :: x in t <==> x == k || x in o
    ensures Valid(Cache([k] + o, t))
  {
    var p := [k] + o;
    forall i | 0 <= i < |p| ensures p[i] in t {
      assert i > 0 ==> p[i] == o[i - 1] && p[i] in o;
    }
  }

  lemma FrontValid<K, V>(c: Cache<K, V>, k: K, v: V)
    requires Valid(c)
    ensures Valid(Cache([k] + (if k in c.table then Drop(c.order, k) else c.order), c.table[k := v]))
  {
    DropNoRepeat(c.order, k);
    PrependValid(if k in c.table then Drop(c.order, k) else c.order, c.table[k := v], k);
  }

  /** A put keeps the table well formed and within its capacity. */
  lemma PutValid<K, V>(c: Cache<K, V>, k: K, v: V, capacity: nat)
    requires Valid(c) && 0 < capacity
    ensures Valid(Put(c, k, v, capacity))
    ensures |c.order| <= capacity ==> |Put(c, k, v, capacity).order| <= capacity
  {
    if Evicts(c, k, capacity) {
      EvictValid(c, k, v);
    } else {
      FrontValid(c, k, v);
      DropAt(c.order, k);
    }
  }

  lemma TouchValid<K, V>(c: Cache<K, V>, k: K)
    requires Valid(c)
    ensures Valid(Touch(c, k)) && Touch(c, k).table == c.table && |Touch(c, k).order| == |c.order|
  {
    if k in c.table {
      DropNoRepeat(c.order, k);
      DropAt(c.order, k);
      PrependValid(Drop(c.order, k), c.table, k);
    }
  }

  lemma PopValid<K, V>(c: Cache<K, V>, k: K)
    requires Valid(c)
    ensures Valid(Pop(c, k)) && |Pop(c, k).order| == if k in c.table then |c.order| - 1 else |c.order|
  {
    DropNoRepeat(c.order, k);
    DropAt(c.order, k);
  }

  /** Where two keys behind the front of the new order stood before the put. */
  lemma PutOrder<K, V>(c: Cache<K, V>, k: K, v: V, capacity: nat, i: nat, j: nat) returns (i': nat, j': nat)
    requires Valid(c)
    requires 0 < i < j < |Put(c, k, v, capacity).order|
    ensures i' < j' < |c.order|
    ensures Put(c, k, v, capacity).order[i] == c.order[i'] != k
    ensures Put(c, k, v, capacity).order[j] == c.order[j'] != k
  {
    hide NoRepeat, Drop;
    if Evicts(c, k, capacity) || k !in c.table {
      i', j' := i - 1, j - 1;
      assert c.order[i'] in c.table && c.order[j'] in c.table;
    } else {
      DropAt(c.order, k);
      i', j' := Skip(c.order, k, i - 1), Skip(c.order, k, j - 1);
      assert Drop(c.order, k)[i - 1] == c.order[i'] && Drop(c.order, k)[j - 1] == c.order[j'];
    }
  }

  /** Keys nearer the front carry later (or equal) stamps. */
  ghost predicate Recent<K>(order: seq<K>, stamp: map<K, nat>) {
    && (forall i :: 0 <= i < |order| ==> order[i] in stamp)
    && (forall i, j :: 0 <= i < j < |order| ==> stamp[order[i]] >= stamp[order[j]])
  }

  lemma SecondInOrder<K, V>(c: Cache<K, V>, k: K, v: V, capacity: nat)
    requires Valid(c) && 1 < |Put(c, k, v, capacity).order|
    ensures Put(c, k, v, capacity).order[1] in c.order
  {
    DropNoRepeat(c.order, k);
    if !Evicts(c, k, capacity) && k in c.table {
      assert Put(c, k, v, capacity).order[1] == Drop(c.order, k)[0];
    }
  }

  /** Stamping the key just put with a time not before any other keeps the table in order of stamps. */
  lemma PutRecent<K, V>(c: Cache<K, V>, stamp: map<K, nat>, k: K, v: V, capacity: nat, now: nat)
    requires Valid(c) && 0 < capacity && Recent(c.order, stamp)
    requires forall i :: 0 <= i < |c.order| ==> stamp[c.order[i]] <= now
    ensures Recent(Put(c, k, v, capacity).order, stamp[k := now])
  {
    var o, t := Put(c, k, v, capacity).order, stamp[k := now];
    forall i, j | 0 <= i < j < |o| ensures o[i] in t && o[j] in t && t[o[i]] >= t[o[j]] {
      if i > 0 {
        var i', j' := PutOrder(c, k, v, capacity, i, j);
      } else if j > 1 {
        var i', j' := PutOrder(c, k, v, capacity, 1, j);
      } else {
        SecondInOrder(c, k, v, capacity);
      }
    }
    forall i | 0 <= i < |o| ensures o[i] in t {
      if i > 0 {
        assert o[0] in t && o[i] in t;
      }
    }
  }

  /** The tail of a table kept in order of stamps carries the least stamp. */
  lemma TailLeastRecent<K, V>(c: Cache<K, V>, stamp: map<K, nat>, k: K)
    requires Valid(c) && Recent(c.order, stamp) && k in c.table
    ensures c.order != [] && k in stamp && Last(c) in stamp && Last(c) in c.table
    ensures stamp[k] >= stamp[Last(c)]
  {
    assert k in c.order;
    var i :| 0 <= i < |c.order| && c.order[i] == k;
  }
}
