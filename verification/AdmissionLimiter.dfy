/**
 The fixed-window lookup limiter of `src/nadeo.rs`, whose per-account windows live
 in a bounded LRU table that forgets entries. The question is whether forgetting
 is ever visible. It is answered by comparing every run with a limiter that keeps
 an unbounded account map.
 */
module AdmissionLimiter {
  import opened Common
  import opened Lru

  type Account = nat

  datatype Window = Window(started: nat, count: nat)

  datatype Limits = Limits(capacity: nat, window: nat, globalLimit: nat, accountLimit: nat)

  datatype Call = Call(account: Account, at: nat)

  function Roll(w: Window, window: nat, now: nat): Window {
    if Since(now, w.started) >= window then Window(now, 0) else w
  }

  // ---- the shipped limiter, over the LRU table ----

  datatype State = State(global: Window, accounts: Cache<Account, Window>)

  function Fresh(at: nat): State {
    State(Window(at, 0), Empty())
  }

  function Admit(l: Limits, s: State, a: Account, now: nat): (State, bool)
    requires l.capacity > 0
  {
    var g := Roll(s.global, l.window, now);
    if g.count >= l.globalLimit then (s.(global := g), false)
    else
      match Peek(s.accounts, a)
      case None =>
        (State(g.(count := g.count + 1), Put(s.accounts, a, Window(now, 1), l.capacity)), true)
      case Some(w0) =>
        var w := Roll(w0, l.window, now);
        if w.count >= l.accountLimit then (State(g, Put(s.accounts, a, w, l.capacity)), false)
        else (State(g.(count := g.count + 1), Put(s.accounts, a, w.(count := w.count + 1), l.capacity)), true)
  }

  function Verdicts(l: Limits, s: State, calls: seq<Call>): (v: seq<bool>)
    requires l.capacity > 0
    ensures |v| == |calls|
    decreases |calls|
  {
    if calls == [] then [] else
      var (s', ok) := Admit(l, s, calls[0].account, calls[0].at);
      [ok] + Verdicts(l, s', calls[1..])
  }

  /** The limiter object: the two locked fields, updated in place. */
  class Limiter {
    const limits: Limits
    var global: Window
    var accounts: Cache<Account, Window>

    ghost function Abs(): State
      reads this
    {
      State(global, accounts)
    }

    constructor (capacity: nat, window: nat, globalLimit: nat, accountLimit: nat, now: nat)
      ensures limits == Limits(if capacity == 0 then 1 else capacity, window, globalLimit, accountLimit)
      ensures Abs() == Fresh(now)
    {
      limits := Limits(if capacity == 0 then 1 else capacity, window, globalLimit, accountLimit);
      global := Window(now, 0);
      accounts := Empty();
    }

    method AdmitAt(account: Account, now: nat) returns (admitted: bool)
      requires limits.capacity > 0
      modifies this
      ensures (Abs(), admitted) == Admit(limits, old(Abs()), account, now)
    {
      if Since(now, global.started) >= limits.window {
        global := Window(now, 0);
      }
      if global.count >= limits.globalLimit {
        return false;
      }
      var found := Peek(accounts, account);
      if found.Some? {
        var w := found.value;
        if Since(now, w.started) >= limits.window {
          w := Window(now, 0);
        }
        if w.count >= limits.accountLimit {
          accounts := Put(accounts, account, w, limits.capacity);
          return false;
        }
        accounts := Put(accounts, account, w.(count := w.count + 1), limits.capacity);
      } else {
        accounts := Put(accounts, account, Window(now, 1), limits.capacity);
      }
      global := global.(count := global.count + 1);
      return true;
    }
  }

  // ---- the reference limiter, which never forgets ----

  datatype Ref = Ref(global: Window, accounts: map<Account, Window>)

  function RefFresh(at: nat): Ref {
    Ref(Window(at, 0), map[])
  }

  function RefAdmit(l: Limits, r: Ref, a: Account, now: nat): (Ref, bool) {
    var g := Roll(r.global, l.window, now);
    if g.count >= l.globalLimit then (r.(global := g), false)
    else if a !in r.accounts then (Ref(g.(count := g.count + 1), r.accounts[a := Window(now, 1)]), true)
    else
      var w := Roll(r.accounts[a], l.window, now);
      if w.count >= l.accountLimit then (Ref(g, r.accounts[a := w]), false)
      else (Ref(g.(count := g.count + 1), r.accounts[a := w.(count := w.count + 1)]), true)
  }

  function RefVerdicts(l: Limits, r: Ref, calls: seq<Call>): (v: seq<bool>)
    ensures |v| == |calls|
    decreases |calls|
  {
    if calls == [] then [] else
      var (r', ok) := RefAdmit(l, r, calls[0].account, calls[0].at);
      [ok] + RefVerdicts(l, r', calls[1..])
  }

  /** Calls are made with non-decreasing clock readings, the first at or after `from`. */
  ghost predicate Timely(from: nat, calls: seq<Call>) {
    && (forall i :: 0 <= i < |calls| ==> from <= calls[i].at)
    && (forall i, j :: 0 <= i < j < |calls| ==> calls[i].at <= calls[j].at)
  }

  /** The two limiters after a run. */
  function After(l: Limits, s: State, calls: seq<Call>): State
    requires l.capacity > 0
    decreases |calls|
  {
    if calls == [] then s else After(l, Admit(l, s, calls[0].account, calls[0].at).0, calls[1..])
  }

  function RefAfter(l: Limits, r: Ref, calls: seq<Call>): Ref
    decreases |calls|
  {
    if calls == [] then r else RefAfter(l, RefAdmit(l, r, calls[0].account, calls[0].at).0, calls[1..])
  }

  lemma {:induction false} AfterSplit(l: Limits, s: State, r: Ref, a: seq<Call>, b: seq<Call>)
    requires l.capacity > 0
    ensures After(l, s, a + b) == After(l, After(l, s, a), b)
    ensures RefAfter(l, r, a + b) == RefAfter(l, RefAfter(l, r, a), b)
    ensures Verdicts(l, s, a + b) == Verdicts(l, s, a) + Verdicts(l, After(l, s, a), b)
    ensures RefVerdicts(l, r, a + b) == RefVerdicts(l, r, a) + RefVerdicts(l, RefAfter(l, r, a), b)
    decreases |a|
  {
    if a == [] {
      assert a + b == b;
    } else {
      assert (a + b)[1..] == a[1..] + b;
      AfterSplit(l, Admit(l, s, a[0].account, a[0].at).0, RefAdmit(l, r, a[0].account, a[0].at).0, a[1..], b);
    }
  }

  /** Rolling twice at one instant is rolling once. */
  lemma RollFirst(l: Limits, s: State, r: Ref, a: Account, now: nat)
    requires l.capacity > 0 && s.global == r.global
    ensures
      var g := Roll(r.global, l.window, now);
      && Roll(g, l.window, now) == g
      && Admit(l, s, a, now) == Admit(l, s.(global := g), a, now)
      && RefAdmit(l, r, a, now) == RefAdmit(l, r.(global := g), a, now)
  {
  }

  /** Every run gets the verdicts of the limiter that never forgets. */
  ghost predicate Exact(l: Limits)
    requires l.capacity > 0
  {
    forall start: nat, calls: seq<Call> :: Timely(start, calls) ==>
      Verdicts(l, Fresh(start), calls) == RefVerdicts(l, RefFresh(start), calls)
  }
}
