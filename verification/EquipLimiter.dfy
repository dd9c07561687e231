/**
 The hat-equip limiter of `src/queries/hats.rs`: one interval per user, kept in a
 bounded LRU table, and one fixed window for everybody. Its shipped capacity is twice
 its global limit; the theorems below say exactly what that buys.
 */
module EquipLimiter {
  import opened Common
  import opened Lru

  type User = nat

  datatype Verdict = Allowed | PerUser | Global

  datatype Limits = Limits(capacity: nat, interval: nat, window: nat, globalLimit: nat)

  datatype Call = Call(user: User, at: nat)

  datatype State = State(attempts: Cache<User, nat>, started: nat, count: nat)

  function Fresh(at: nat): State {
    State(Empty(), at, 0)
  }

  function Rolls(l: Limits, started: nat, now: nat): bool {
    Since(now, started) >= l.window
  }

  function Check(l: Limits, s: State, u: User, now: nat): (State, Verdict) {
    if u in s.attempts.table && Since(now, s.attempts.table[u]) < l.interval then (s, PerUser)
    else
      var s1 := if Rolls(l, s.started, now) then s.(started := now, count := 0) else s;
      if s1.count >= l.globalLimit then (s1, Global)
      else (State(Put(s1.attempts, u, now, l.capacity), s1.started, s1.count + 1), Allowed)
  }

  function Verdicts(l: Limits, s: State, calls: seq<Call>): (v: seq<Verdict>)
    ensures |v| == |calls|
    decreases |calls|
  {
    if calls == [] then [] else
      var (s', v) := Check(l, s, calls[0].user, calls[0].at);
      [v] + Verdicts(l, s', calls[1..])
  }

  class Limiter {
    const limits: Limits
    var attempts: Cache<User, nat>
    var globalStarted: nat
    var globalCount: nat

    ghost function Abs(): State
      reads this
    {
      State(attempts, globalStarted, globalCount)
    }

    constructor (capacity: nat, interval: nat, window: nat, globalLimit: nat, now: nat)
      ensures limits == Limits(if capacity == 0 then 1 else capacity, interval, window,
                               if globalLimit == 0 then 1 else globalLimit)
      ensures Abs() == Fresh(now)
    {
      limits := Limits(if capacity == 0 then 1 else capacity, interval, window,
                       if globalLimit == 0 then 1 else globalLimit);
      attempts := Empty();
      globalStarted, globalCount := now, 0;
    }

    method CheckAt(user: User, now: nat) returns (verdict: Verdict)
      modifies this
      ensures (Abs(), verdict) == Check(limits, old(Abs()), user, now)
    {
      var previous := Peek(attempts, user);
      if previous.Some? && Since(now, previous.value) < limits.interval {
        return PerUser;
      }
      if Since(now, globalStarted) >= limits.window {
        globalStarted := now;
        globalCount := 0;
      }
      if globalCount >= limits.globalLimit {
        return Global;
      }
      attempts := Put(attempts, user, now, limits.capacity);
      globalCount := globalCount + 1;
      return Allowed;
    }
  }

  // ---- the reference, which remembers every user ----

  datatype Ref = Ref(attempts: map<User, nat>, started: nat, count: nat)

  function RefFresh(at: nat): Ref {
    Ref(map[], at, 0)
  }

  function RefCheck(l: Limits, r: Ref, u: User, now: nat): (Ref, Verdict) {
    if u in r.attempts && Since(now, r.attempts[u]) < l.interval then (r, PerUser)
    else
      var r1 := if Rolls(l, r.started, now) then r.(started := now, count := 0) else r;
      if r1.count >= l.globalLimit then (r1, Global)
      else (Ref(r1.attempts[u := now], r1.started, r1.count + 1), Allowed)
  }

  function RefVerdicts(l: Limits, r: Ref, calls: seq<Call>): (v: seq<Verdict>)
    ensures |v| == |calls|
    decreases |calls|
  {
    if calls == [] then [] else
      var (r', v) := RefCheck(l, r, calls[0].user, calls[0].at);
      [v] + RefVerdicts(l, r', calls[1..])
  }

  ghost predicate Timely(from: nat, calls: seq<Call>) {
    && (forall i :: 0 <= i < |calls| ==> from <= calls[i].at)
    && (forall i, j :: 0 <= i < j < |calls| ==> calls[i].at <= calls[j].at)
  }

  // ---- simulation ----

  function StartedIn(r: Ref, lo: int, hi: int): set<User> {
    set u | u in r.attempts && lo <= r.attempts[u] < hi
  }

  /**
   Forgetting `u` can no longer let it through early; with the smaller table it may still
   change the reason for a refusal.
   */
  ghost predicate Dead(l: Limits, r: Ref, u: User, now: nat)
    requires u in r.attempts
  {
    || r.attempts[u] + l.interval <= now
    || (l.capacity < 2 * l.globalLimit && r.count >= l.globalLimit
        && r.attempts[u] + l.interval <= r.started + l.window)
  }

  ghost predicate Budgeted(l: Limits, r: Ref, prev: int, now: nat) {
    && r.started <= now
    && prev + l.window <= r.started
    && (forall u :: u in r.attempts ==>
          && r.attempts[u] <= now
          && (r.attempts[u] < r.started + l.window || r.attempts[u] == r.started))
    && (l.window > 0 ==>
          && r.count <= l.globalLimit
          && |StartedIn(r, r.started, r.started + l.window)| <= r.count
          && |StartedIn(r, prev, r.started)| <= l.globalLimit)
  }

  ghost predicate Mirrors(l: Limits, s: State, r: Ref, now: nat) {
    && s.started == r.started && s.count == r.count
    && Valid(s.attempts)
    && |s.attempts.order| <= l.capacity
    && (forall u :: u in s.attempts.table ==> u in r.attempts && r.attempts[u] == s.attempts.table[u])
    && (forall u :: u in r.attempts && u !in s.attempts.table ==> Dead(l, r, u, now))
  }

  ghost predicate Sim(l: Limits, s: State, r: Ref, prev: int, now: nat) {
    Budgeted(l, r, prev, now) && Mirrors(l, s, r, now) && Recent(s.attempts.order, r.attempts)
  }

  ghost predicate Roomy(l: Limits) {
    0 < l.capacity && 0 < l.globalLimit && l.interval <= l.window && 2 * l.globalLimit <= l.capacity + 1
  }

  lemma RollKeeps(l: Limits, s: State, r: Ref, prev: int, last: nat, now: nat)
    requires Sim(l, s, r, prev, last) && last <= now && Rolls(l, r.started, now)
    ensures Sim(l, s.(started := now, count := 0), r.(started := now, count := 0), r.started, now)
  {
    var r' := r.(started := now, count := 0);
    if l.window > 0 {
      assert StartedIn(r', now, now + l.window) == {};
      assert StartedIn(r', r.started, now) == StartedIn(r, r.started, r.started + l.window);
    }
  }

  lemma WaitKeeps(l: Limits, s: State, r: Ref, prev: int, last: nat, now: nat)
    requires Sim(l, s, r, prev, last) && last <= now
    ensures Sim(l, s, r, prev, now)
  {
  }

  ghost predicate EvictionHarmless(l: Limits, s: State, r: Ref, now: nat)
    requires Valid(s.attempts) && s.attempts.order != []
  {
    var t := s.attempts.table[Last(s.attempts)];
    || t + l.interval <= now
    || (l.capacity < 2 * l.globalLimit && r.count + 1 >= l.globalLimit && t + l.interval <= r.started + l.window)
  }

  /** A full table in which the tail still matters would hold more users than two windows allow. */
  lemma EvictedIsDead(l: Limits, s: State, r: Ref, prev: int, now: nat)
    requires Sim(l, s, r, prev, now) && Roomy(l)
    requires |s.attempts.order| == l.capacity && r.count < l.globalLimit && !Rolls(l, r.started, now)
    ensures EvictionHarmless(l, s, r, now)
  {
    var t := s.attempts.table[Last(s.attempts)];
    if now < t + l.interval {
      var cached := s.attempts.table.Keys;
      Size(s.attempts);
      var s0, s1 := StartedIn(r, r.started, r.started + l.window), StartedIn(r, prev, r.started);
      forall u | u in cached
        ensures u in s0 + s1
        ensures t >= r.started ==> u in s0
      {
        TailLeastRecent(s.attempts, r.attempts, u);
      }
      CardinalityMono(cached, s0 + s1);
      if t >= r.started {
        CardinalityMono(cached, s0);
        assert false;
      }
    }
  }

  lemma NewStart(r: Ref, started: nat, count: nat, u: User, now: nat, lo: int, hi: int)
    ensures |StartedIn(Ref(r.attempts[u := now], started, count), lo, hi)| <=
            |StartedIn(r, lo, hi)| + if lo <= now < hi then 1 else 0
  {
    var after := StartedIn(Ref(r.attempts[u := now], started, count), lo, hi);
    if lo <= now < hi {
      CardinalityMono(after - {u}, StartedIn(r, lo, hi));
    } else {
      CardinalityMono(after, StartedIn(r, lo, hi));
    }
  }

  lemma BudgetAfter(l: Limits, r: Ref, prev: int, u: User, now: nat)
    requires Budgeted(l, r, prev, now) && r.count < l.globalLimit
    requires !Rolls(l, r.started, now) || now == r.started
    ensures Budgeted(l, Ref(r.attempts[u := now], r.started, r.count + 1), prev, now)
  {
    NewStart(r, r.started, r.count + 1, u, now, r.started, r.started + l.window);
    NewStart(r, r.started, r.count + 1, u, now, prev, r.started);
  }

  lemma MirrorAfter(l: Limits, s: State, r: Ref, u: User, now: nat)
    requires Mirrors(l, s, r, now) && 0 < l.capacity
    requires Evicts(s.attempts, u, l.capacity) ==> EvictionHarmless(l, s, r, now)
    ensures Mirrors(l, State(Put(s.attempts, u, now, l.capacity), s.started, s.count + 1),
                    Ref(r.attempts[u := now], r.started, r.count + 1), now)
  {
    PutValid(s.attempts, u, now, l.capacity);
  }

  lemma AllowKeeps(l: Limits, s: State, r: Ref, prev: int, u: User, now: nat)
    requires Sim(l, s, r, prev, now) && Roomy(l)
    requires !Rolls(l, r.started, now) || now == r.started
    requires r.count < l.globalLimit
    ensures Sim(l, State(Put(s.attempts, u, now, l.capacity), s.started, s.count + 1),
                Ref(r.attempts[u := now], r.started, r.count + 1), prev, now)
  {
    if Evicts(s.attempts, u, l.capacity) && !Rolls(l, r.started, now) {
      EvictedIsDead(l, s, r, prev, now);
    }
    MirrorAfter(l, s, r, u, now);
    PutRecent(s.attempts, r.attempts, u, now, l.capacity, now);
    BudgetAfter(l, r, prev, u, now);
  }

  lemma SimAgrees(l: Limits, s: State, r: Ref, prev: int, u: User, now: nat)
    requires Sim(l, s, r, prev, now)
    ensures s.started == r.started && s.count == r.count
    ensures u in s.attempts.table ==> u in r.attempts && r.attempts[u] == s.attempts.table[u]
    ensures u in r.attempts && u !in s.attempts.table ==> Dead(l, r, u, now)
  {
  }

  /** The reference makes the user wait; a table that has forgotten the user refuses for the budget instead. */
  lemma StepWaiting(l: Limits, s: State, r: Ref, prev: int, u: User, now: nat)
    requires Sim(l, s, r, prev, now) && Roomy(l)
    requires u in r.attempts && Since(now, r.attempts[u]) < l.interval
    ensures RefCheck(l, r, u, now) == (r, PerUser)
    ensures Check(l, s, u, now).0 == s && Check(l, s, u, now).1 != Allowed
    ensures l.capacity >= 2 * l.globalLimit ==> Check(l, s, u, now).1 == PerUser
  {
    SimAgrees(l, s, r, prev, u, now);
    hide Sim, Put;
  }

  lemma StepServed(l: Limits, s: State, r: Ref, prev: int, u: User, now: nat)
    requires Sim(l, s, r, prev, now) && Roomy(l)
    requires !(u in r.attempts && Since(now, r.attempts[u]) < l.interval)
    ensures Check(l, s, u, now).1 == RefCheck(l, r, u, now).1
    ensures var s1 := if Rolls(l, r.started, now) then s.(started := now, count := 0) else s;
            var r1 := if Rolls(l, r.started, now) then r.(started := now, count := 0) else r;
            if r1.count >= l.globalLimit then Check(l, s, u, now).0 == s1 && RefCheck(l, r, u, now).0 == r1
            else
              && Check(l, s, u, now).0 == State(Put(s1.attempts, u, now, l.capacity), s1.started, s1.count + 1)
              && RefCheck(l, r, u, now).0 == Ref(r1.attempts[u := now], r1.started, r1.count + 1)
  {
    SimAgrees(l, s, r, prev, u, now);
    hide Sim, Put, Dead;
  }

  lemma Step(l: Limits, s: State, r: Ref, prev: int, u: User, last: nat, now: nat) returns (prev': int)
    requires Sim(l, s, r, prev, last) && last <= now && Roomy(l)
    ensures Sim(l, Check(l, s, u, now).0, RefCheck(l, r, u, now).0, prev', now)
    ensures Check(l, s, u, now).1 == Allowed <==> RefCheck(l, r, u, now).1 == Allowed
    ensures l.capacity >= 2 * l.globalLimit ==> Check(l, s, u, now).1 == RefCheck(l, r, u, now).1
  {
    hide Sim, Check, RefCheck, Put;
    WaitKeeps(l, s, r, prev, last, now);
    prev' := prev;
    if u in r.attempts && Since(now, r.attempts[u]) < l.interval {
      StepWaiting(l, s, r, prev, u, now);
    } else {
      StepServed(l, s, r, prev, u, now);
      if Rolls(l, r.started, now) {
        RollKeeps(l, s, r, prev, last, now);
        prev' := r.started;
        AllowKeeps(l, s.(started := now, count := 0), r.(started := now, count := 0), prev', u, now);
      } else if r.count < l.globalLimit {
        AllowKeeps(l, s, r, prev, u, now);
      }
    }
  }

  lemma {:induction false} SimRun(l: Limits, s: State, r: Ref, prev: int, last: nat, calls: seq<Call>)
    requires Sim(l, s, r, prev, last) && Timely(last, calls) && Roomy(l)
    ensures forall i :: 0 <= i < |calls| ==>
              (Verdicts(l, s, calls)[i] == Allowed <==> RefVerdicts(l, r, calls)[i] == Allowed)
    ensures l.capacity >= 2 * l.globalLimit ==> Verdicts(l, s, calls) == RefVerdicts(l, r, calls)
    decreases |calls|
  {
    if calls != [] {
      var c := calls[0];
      var prev' := Step(l, s, r, prev, c.user, last, c.at);
      SimRun(l, Check(l, s, c.user, c.at).0, RefCheck(l, r, c.user, c.at).0, prev', c.at, calls[1..]);
    }
  }

  lemma SimFresh(l: Limits, start: nat)
    ensures Sim(l, Fresh(start), RefFresh(start), start - l.window, start)
  {
    assert StartedIn(RefFresh(start), start, start + l.window) == {};
    assert StartedIn(RefFresh(start), start - l.window, start) == {};
  }
}
