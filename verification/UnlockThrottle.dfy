/**
 The per-hat throttle of unlock validations (`allow_unlock_validation_at`,
 `src/nadeo.rs`): a bounded table of the last time each account, map and hat was let
 through, and exactly what it forgets.
 */
module UnlockThrottle {
  import opened Common
  import opened Lru

  /** An account, a map and a hat. */
  type Key = nat

  datatype Call = Call(key: Key, at: nat)

  datatype Limits = Limits(capacity: nat, throttle: nat)

  /** Refused calls leave the order of use alone. */
  function Allow(l: Limits, s: Cache<Key, nat>, c: Call): (Cache<Key, nat>, bool) {
    if c.key in s.table && Since(c.at, s.table[c.key]) < l.throttle then (s, false)
    else (Put(s, c.key, c.at, l.capacity), true)
  }

  class Throttle {
    const limits: Limits
    var attempts: Cache<Key, nat>

    constructor (l: Limits)
      ensures limits == l && attempts == Empty()
    {
      limits := l;
      attempts := Empty();
    }

    method AllowAt(key: Key, now: nat) returns (allowed: bool)
      modifies this`attempts
      ensures (attempts, allowed) == Allow(limits, old(attempts), Call(key, now))
    {
      var previous := Peek(attempts, key);
      if previous.Some? && Since(now, previous.value) < limits.throttle {
        return false;
      }
      attempts := Put(attempts, key, now, limits.capacity);
      return true;
    }
  }

  // ---- a run ----

  function After(l: Limits, s: Cache<Key, nat>, calls: seq<Call>): Cache<Key, nat> {
    if calls == [] then s else Allow(l, After(l, s, calls[..|calls| - 1]), calls[|calls| - 1]).0
  }

  /** The calls that were let through. */
  function LetThrough(l: Limits, s: Cache<Key, nat>, calls: seq<Call>): seq<Call> {
    if calls == [] then [] else
      var front := calls[..|calls| - 1];
      LetThrough(l, s, front) + if Allow(l, After(l, s, front), calls[|calls| - 1]).1 then [calls[|calls| - 1]] else []
  }

  /** The keys of some calls, each once, latest first. */
  function Recency(log: seq<Call>): seq<Key> {
    if log == [] then [] else
      var last := log[|log| - 1];
      [last.key] + Drop(Recency(log[..|log| - 1]), last.key)
  }

  function LastAt(log: seq<Call>, k: Key): Option<nat> {
    if log == [] then None
    else if log[|log| - 1].key == k then Some(log[|log| - 1].at)
    else LastAt(log[..|log| - 1], k)
  }

  function Prefix(s: seq<Key>, n: nat): seq<Key> {
    if |s| <= n then s else s[..n]
  }

  /** The table is the latest `capacity` keys let through, with their latest times. */
  ghost predicate Holds(l: Limits, s: Cache<Key, nat>, log: seq<Call>) {
    && Valid(s)
    && s.order == Prefix(Recency(log), l.capacity)
    && forall k :: k in s.table ==> LastAt(log, k) == Some(s.table[k])
  }

  // ---- dropping a key from a list and from its beginning ----

  lemma {:induction false} DropBeyond(r: seq<Key>, k: Key, n: nat)
    requires n <= |r| && k !in r[..n]
    ensures n <= |Drop(r, k)| || (n == |r| && Drop(r, k) == r)
    ensures n <= |Drop(r, k)| ==> Drop(r, k)[..n] == r[..n]
  {
    if n > 0 {
      assert r[0] == r[..n][0] && r[..n][1..] == r[1..][..n - 1];
      DropBeyond(r[1..], k, n - 1);
      assert Drop(r, k) == [r[0]] + Drop(r[1..], k);
      if n <= |Drop(r, k)| {
        assert Drop(r, k)[..n] == [r[0]] + Drop(r[1..], k)[..n - 1];
        assert r[..n] == [r[0]] + r[1..][..n - 1];
      }
    }
  }

  lemma {:induction false} DropAbsent(r: seq<Key>, k: Key)
    requires k !in r
    ensures Drop(r, k) == r
  {
    if r != [] {
      DropAbsent(r[1..], k);
    }
  }

  lemma {:induction false} DropWithin(r: seq<Key>, k: Key, n: nat)
    requires 0 < n <= |r| && k in r[..n]
    ensures |Drop(r, k)| == |r| - 1
    ensures Drop(r[..n], k) == Drop(r, k)[..n - 1]
  {
    if r[0] == k {
      assert r[..n][1..] == r[1..][..n - 1];
    } else {
      assert r[..n][1..] == r[1..][..n - 1];
      assert k in r[..n][1..];
      DropWithin(r[1..], k, n - 1);
      assert Drop(r[..n], k) == [r[0]] + Drop(r[1..][..n - 1], k);
      assert Drop(r, k)[..n - 1] == [r[0]] + Drop(r[1..], k)[..n - 2];
    }
  }

  lemma {:induction false} DropSize(r: seq<Key>, k: Key)
    ensures |Drop(r, k)| == if k in r then |r| - 1 else |r|
  {
    DropAt(r, k);
  }

  lemma {:induction false} FrontOfAll(r: seq<Key>, k: Key, n: nat)
    requires |r| <= n
    ensures k in r ==> [k] + Drop(r, k) == Prefix([k] + Drop(r, k), n)
    ensures k !in r && |r| < n ==> [k] + r == Prefix([k] + Drop(r, k), n)
    ensures k !in r && |r| == n > 0 ==> [k] + r[..n - 1] == Prefix([k] + Drop(r, k), n)
  {
    DropSize(r, k);
    if k !in r {
      DropAbsent(r, k);
    }
    hide Drop;
  }

  lemma {:induction false} FrontHit(r: seq<Key>, k: Key, n: nat)
    requires 0 < n < |r| && k in r[..n]
    ensures [k] + Drop(r[..n], k) == Prefix([k] + Drop(r, k), n)
  {
    DropWithin(r, k, n);
    hide Drop;
  }

  lemma {:induction false} FrontMiss(r: seq<Key>, k: Key, n: nat)
    requires 0 < n < |r| && k !in r[..n]
    ensures [k] + r[..n][..n - 1] == Prefix([k] + Drop(r, k), n)
  {
    DropBeyond(r, k, n);
    DropSize(r, k);
    hide Drop;
    assert Drop(r, k)[..n - 1] == Drop(r, k)[..n][..n - 1] == r[..n][..n - 1];
  }

  /** Putting a key in front of the beginning of a list is the beginning of putting it in front of the list. */
  lemma {:induction false} PutInFront(r: seq<Key>, k: Key, n: nat, order: seq<Key>)
    requires 0 < n && order == Prefix(r, n)
    ensures k in order ==> [k] + Drop(order, k) == Prefix([k] + Drop(r, k), n)
    ensures k !in order && |order| < n ==> [k] + order == Prefix([k] + Drop(r, k), n)
    ensures k !in order && |order| == n ==> [k] + order[..n - 1] == Prefix([k] + Drop(r, k), n)
  {
    hide Drop;
    if |r| <= n {
      FrontOfAll(r, k, n);
    } else if k in order {
      FrontHit(r, k, n);
    } else {
      FrontMiss(r, k, n);
    }
  }

  lemma {:induction false} RecencyGrows(log: seq<Call>, c: Call)
    ensures Recency(log + [c]) == [c.key] + Drop(Recency(log), c.key)
    ensures forall k :: LastAt(log + [c], k) == if c.key == k then Some(c.at) else LastAt(log, k)
  {
    assert (log + [c])[..|log|] == log;
  }

  lemma {:induction false} PutOrders(l: Limits, s: Cache<Key, nat>, log: seq<Call>, c: Call)
    requires 0 < l.capacity && Holds(l, s, log)
    ensures Put(s, c.key, c.at, l.capacity).order == Prefix(Recency(log + [c]), l.capacity)
  {
    RecencyGrows(log, c);
    PutInFront(Recency(log), c.key, l.capacity, s.order);
    assert c.key in s.table <==> c.key in s.order;
    hide Recency, LastAt, Drop, NoRepeat;
  }

  lemma {:induction false} PutStamps(l: Limits, s: Cache<Key, nat>, log: seq<Call>, c: Call)
    requires 0 < l.capacity && Holds(l, s, log)
    ensures forall k :: k in Put(s, c.key, c.at, l.capacity).table ==>
              LastAt(log + [c], k) == Some(Put(s, c.key, c.at, l.capacity).table[k])
  {
    RecencyGrows(log, c);
    hide Recency, LastAt, Drop, Valid, Prefix;
  }

  lemma PutHolds(l: Limits, s: Cache<Key, nat>, log: seq<Call>, c: Call)
    requires 0 < l.capacity && Holds(l, s, log)
    ensures Holds(l, Put(s, c.key, c.at, l.capacity), log + [c])
  {
    PutValid(s, c.key, c.at, l.capacity);
    PutOrders(l, s, log, c);
    PutStamps(l, s, log, c);
    hide Recency, LastAt, Valid, Put, Prefix;
  }

  lemma {:induction false} RunHolds(l: Limits, calls: seq<Call>)
    requires 0 < l.capacity
    ensures Holds(l, After(l, Empty(), calls), LetThrough(l, Empty(), calls))
  {
    if calls != [] {
      var front, c := calls[..|calls| - 1], calls[|calls| - 1];
      RunHolds(l, front);
      PutHolds(l, After(l, Empty(), front), LetThrough(l, Empty(), front), c);
      hide Holds, Put;
      assert LetThrough(l, Empty(), front) + [] == LetThrough(l, Empty(), front);
    }
  }

  /**
   After any calls, a call is refused exactly when its key was let through less than the
   throttle ago and is still among the `capacity` keys let through most recently.
   */
  lemma {:induction false} RefusedIffRecentAndRemembered(l: Limits, calls: seq<Call>, c: Call)
    requires 0 < l.capacity
    ensures var log := LetThrough(l, Empty(), calls);
            !Allow(l, After(l, Empty(), calls), c).1 <==>
              && c.key in Prefix(Recency(log), l.capacity)
              && LastAt(log, c.key).Some?
              && Since(c.at, LastAt(log, c.key).value) < l.throttle
  {
    RunHolds(l, calls);
    hide After, LetThrough, Recency, LastAt, Put;
  }
}
