/**
 How much the table of the equip limiter (`src/queries/hats.rs`) has to hold: the exact
 conditions, with the runs that show them tight.
 */
module EquipBounds {
  import opened Common
  import opened Lru
  import opened EquipLimiter

  // ---- spacing ----

  /** The reference never allows a user again within the interval. */
  lemma {:induction false} RefSpaced(l: Limits, r: Ref, last: nat, calls: seq<Call>, u: User, j: nat)
    requires Timely(last, calls) && j < |calls| && calls[j].user == u
    requires u in r.attempts && r.attempts[u] <= last
    requires RefVerdicts(l, r, calls)[j] == Allowed
    ensures r.attempts[u] + l.interval <= calls[j].at
    decreases |calls|
  {
    if j > 0 {
      var c := calls[0];
      RefSpaced(l, RefCheck(l, r, c.user, c.at).0, c.at, calls[1..], u, j - 1);
    }
  }

  lemma {:induction false} RefSpacing(l: Limits, r: Ref, last: nat, calls: seq<Call>, i: nat, j: nat)
    requires Timely(last, calls) && i < j < |calls| && calls[i].user == calls[j].user
    requires RefVerdicts(l, r, calls)[i] == RefVerdicts(l, r, calls)[j] == Allowed
    ensures calls[i].at + l.interval <= calls[j].at
    decreases |calls|
  {
    var c := calls[0];
    var r' := RefCheck(l, r, c.user, c.at).0;
    if i == 0 {
      RefSpaced(l, r', c.at, calls[1..], c.user, j - 1);
    } else {
      RefSpacing(l, r', c.at, calls[1..], i - 1, j - 1);
    }
  }

  // ---- the two exact statements ----

  /** Every run gets the verdicts, reasons included, of the limiter that remembers everybody. */
  ghost predicate Exact(l: Limits) {
    forall start: nat, calls: seq<Call> :: Timely(start, calls) ==>
      Verdicts(l, Fresh(start), calls) == RefVerdicts(l, RefFresh(start), calls)
  }

  ghost predicate TwoAllowed(l: Limits, start: nat, calls: seq<Call>, i: nat, j: nat) {
    && Timely(start, calls) && i < j < |calls| && calls[i].user == calls[j].user
    && Verdicts(l, Fresh(start), calls)[i] == Verdicts(l, Fresh(start), calls)[j] == Allowed
  }

  /** No run allows one user twice within the interval. */
  ghost predicate Spaced(l: Limits) {
    forall start: nat, calls: seq<Call>, i: nat, j: nat ::
      TwoAllowed(l, start, calls, i, j) ==> calls[i].at + l.interval <= calls[j].at
  }

  lemma RoomyIsSpaced(l: Limits)
    requires Roomy(l)
    ensures Spaced(l)
    ensures l.capacity >= 2 * l.globalLimit ==> Exact(l)
  {
    forall start: nat, calls: seq<Call> | Timely(start, calls)
      ensures forall i :: 0 <= i < |calls| ==>
                (Verdicts(l, Fresh(start), calls)[i] == Allowed <==>
                    RefVerdicts(l, RefFresh(start), calls)[i] == Allowed)
      ensures l.capacity >= 2 * l.globalLimit ==>
                Verdicts(l, Fresh(start), calls) == RefVerdicts(l, RefFresh(start), calls)
    {
      SimFresh(l, start);
      SimRun(l, Fresh(start), RefFresh(start), start - l.window, start, calls);
    }
    forall start: nat, calls: seq<Call>, i: nat, j: nat | TwoAllowed(l, start, calls, i, j)
      ensures calls[i].at + l.interval <= calls[j].at
    {
      RefSpacing(l, RefFresh(start), start, calls, i, j);
    }
  }

  // ---- runs that show the bounds are tight ----

  /** Users `lo..hi`, each calling once at time `t`. */
  function Burst(lo: nat, hi: nat, t: nat): (b: seq<Call>)
    requires lo <= hi
    ensures |b| == hi - lo
    ensures forall i :: 0 <= i < |b| ==> b[i] == Call(lo + i, t)
    decreases hi - lo
  {
    if lo == hi then [] else [Call(lo, t)] + Burst(lo + 1, hi, t)
  }

  function After(l: Limits, s: State, calls: seq<Call>): State
    decreases |calls|
  {
    if calls == [] then s else After(l, Check(l, s, calls[0].user, calls[0].at).0, calls[1..])
  }

  /** The table after users `0..n` were allowed one after the other: user 0 is the tail, until it is gone. */
  ghost predicate Filled(l: Limits, c: Cache<User, nat>, n: nat) {
    && Valid(c)
    && |c.order| == (if n < l.capacity then n else l.capacity)
    && (forall u :: u in c.table ==> u < n)
    && (0 < n <= l.capacity ==> Last(c) == 0)
    && (n > l.capacity ==> 0 !in c.table)
  }

  lemma FillOne(l: Limits, c: Cache<User, nat>, n: nat, t: nat)
    requires Filled(l, c, n) && 0 < l.capacity
    ensures Filled(l, Put(c, n, t, l.capacity), n + 1)
  {
    PutValid(c, n, t, l.capacity);
    var p := Put(c, n, t, l.capacity);
    if n > 0 && n < l.capacity {
      assert p.order == [n] + c.order;
    }
  }

  lemma BurstFirst(l: Limits, s: State, n: nat, m: nat, t: nat)
    requires n < m
    ensures Burst(n, m, t)[0] == Call(n, t) && Burst(n, m, t)[1..] == Burst(n + 1, m, t)
    ensures After(l, s, Burst(n, m, t)) == After(l, Check(l, s, n, t).0, Burst(n + 1, m, t))
  {
    assert Burst(n, m, t)[1..] == Burst(n + 1, m, t);
  }

  lemma NewUserAllowed(l: Limits, s: State, n: nat, t: nat)
    requires Filled(l, s.attempts, n) && !Rolls(l, s.started, t) && s.count < l.globalLimit
    ensures Check(l, s, n, t) == (State(Put(s.attempts, n, t, l.capacity), s.started, s.count + 1), Allowed)
  {
    assert n !in s.attempts.table;
  }

  /** The limiter after users `0..n` filled its table, `count` of them in the window that began at `started`. */
  ghost predicate Full(l: Limits, s: State, started: nat, count: nat, n: nat) {
    s.started == started && s.count == count && Filled(l, s.attempts, n)
  }

  lemma FillStep(l: Limits, s: State, started: nat, count: nat, n: nat, t: nat)
    requires Full(l, s, started, count, n) && 0 < l.capacity && !Rolls(l, started, t) && count < l.globalLimit
    ensures Full(l, Check(l, s, n, t).0, started, count + 1, n + 1)
  {
    NewUserAllowed(l, s, n, t);
    hide Check, Filled, Put;
    FillOne(l, s.attempts, n, t);
  }

  lemma {:induction false} FillRun(l: Limits, s: State, started: nat, count: nat, n: nat, m: nat, t: nat)
    requires Full(l, s, started, count, n) && n <= m && 0 < l.capacity
    requires !Rolls(l, started, t) && count + (m - n) <= l.globalLimit
    ensures Full(l, After(l, s, Burst(n, m, t)), started, count + (m - n), m)
    decreases m - n
  {
    hide Check, Full, Rolls;
    if n < m {
      BurstFirst(l, s, n, m, t);
      FillStep(l, s, started, count, n, t);
      FillRun(l, Check(l, s, n, t).0, started, count + 1, n + 1, m, t);
    }
  }

  lemma {:induction false} AfterSplit(l: Limits, s: State, a: seq<Call>, b: seq<Call>)
    ensures After(l, s, a + b) == After(l, After(l, s, a), b)
    ensures Verdicts(l, s, a + b) == Verdicts(l, s, a) + Verdicts(l, After(l, s, a), b)
    decreases |a|
  {
    if a == [] {
      assert a + b == b;
    } else {
      assert (a + b)[1..] == a[1..] + b;
      AfterSplit(l, Check(l, s, a[0].user, a[0].at).0, a[1..], b);
    }
  }

  /** A full budget at the end of the first window, then `more` newcomers at the start of the second. */
  function TwoBursts(l: Limits, more: nat): seq<Call>
    requires l.window > 0
  {
    Burst(0, l.globalLimit, l.window - 1) + Burst(l.globalLimit, l.globalLimit + more, l.window)
  }

  lemma SecondBurstStarts(l: Limits, s: State)
    requires Full(l, s, 0, l.globalLimit, l.globalLimit)
    requires 0 < l.capacity && 0 < l.globalLimit && 0 < l.window
    ensures Full(l, Check(l, s, l.globalLimit, l.window).0, l.window, 1, l.globalLimit + 1)
  {
    var g := l.globalLimit;
    assert g !in s.attempts.table;
    assert Check(l, s, g, l.window).0 == State(Put(s.attempts, g, l.window, l.capacity), l.window, 1);
    hide Check, Filled, Put;
    FillOne(l, s.attempts, g, l.window);
  }

  lemma SecondBurst(l: Limits, s: State, more: nat)
    requires Full(l, s, 0, l.globalLimit, l.globalLimit)
    requires 0 < l.capacity && 0 < more <= l.globalLimit && 0 < l.window
    ensures Full(l, After(l, s, Burst(l.globalLimit, l.globalLimit + more, l.window)),
                 l.window, more, l.globalLimit + more)
  {
    hide Check, Full;
    var g := l.globalLimit;
    BurstFirst(l, s, g, g + more, l.window);
    SecondBurstStarts(l, s);
    FillRun(l, Check(l, s, g, l.window).0, l.window, 1, g + 1, g + more, l.window);
  }

  lemma {:induction false} TwoBurstsState(l: Limits, more: nat)
    requires 0 < l.capacity && 0 < more <= l.globalLimit && 1 < l.window
    ensures Full(l, After(l, Fresh(0), TwoBursts(l, more)), l.window, more, l.globalLimit + more)
  {
    hide Check;
    var g := l.globalLimit;
    FillRun(l, Fresh(0), 0, 0, 0, g, l.window - 1);
    AfterSplit(l, Fresh(0), Burst(0, g, l.window - 1), Burst(g, g + more, l.window));
    SecondBurst(l, After(l, Fresh(0), Burst(0, g, l.window - 1)), more);
  }

  lemma TwoBurstsTimely(l: Limits, more: nat)
    requires l.window > 0
    ensures Timely(0, TwoBursts(l, more) + [Call(0, l.window)])
  {
    var calls := TwoBursts(l, more) + [Call(0, l.window)];
    assert forall i :: 0 <= i < |calls| ==> calls[i].at == if i < l.globalLimit then l.window - 1 else l.window;
  }

  lemma {:induction false} RefKeepsUser(l: Limits, r: Ref, calls: seq<Call>, u: User, c: Call)
    requires u in r.attempts && c.user == u
    requires forall i :: 0 <= i < |calls| ==> calls[i].user != u
    requires Since(c.at, r.attempts[u]) < l.interval
    ensures RefVerdicts(l, r, calls + [c])[|calls|] == PerUser
    decreases |calls|
  {
    if calls != [] {
      assert (calls + [c])[1..] == calls[1..] + [c];
      RefKeepsUser(l, RefCheck(l, r, calls[0].user, calls[0].at).0, calls[1..], u, c);
    }
  }

  /** User 0, gone from the table, calls again one tick later: it is not refused for being itself. */
  lemma {:induction false} ForgottenUser(l: Limits, more: nat)
    requires 0 < l.capacity < l.globalLimit + more && 0 < more <= l.globalLimit && 1 < l.window && 1 < l.interval
    ensures
      var calls := TwoBursts(l, more) + [Call(0, l.window)];
      && Verdicts(l, Fresh(0), calls)[|calls| - 1] == (if more < l.globalLimit then Allowed else Global)
      && RefVerdicts(l, RefFresh(0), calls)[|calls| - 1] == PerUser
      && Verdicts(l, Fresh(0), calls)[0] == Allowed
  {
    var b := TwoBursts(l, more);
    TwoBurstsState(l, more);
    AfterSplit(l, Fresh(0), b, [Call(0, l.window)]);
    assert b[0] == Call(0, l.window - 1);
    var r1 := RefCheck(l, RefFresh(0), 0, l.window - 1).0;
    assert (b + [Call(0, l.window)])[1..] == b[1..] + [Call(0, l.window)];
    assert forall i :: 0 <= i < |b[1..]| ==> b[1..][i].user != 0;
    RefKeepsUser(l, r1, b[1..], 0, Call(0, l.window));
  }

  /**
   The table remembers enough for every verdict and its reason exactly when it has
   room for two global budgets. The shipped 4096 and 2048 meet this with equality.
   */
  lemma ExactIffTwoBudgets(l: Limits)
    requires 0 < l.capacity && 0 < l.globalLimit && 1 < l.interval <= l.window
    ensures Exact(l) <==> l.capacity >= 2 * l.globalLimit
  {
    if l.capacity >= 2 * l.globalLimit {
      RoomyIsSpaced(l);
    } else {
      var calls := TwoBursts(l, l.globalLimit) + [Call(0, l.window)];
      ForgottenUser(l, l.globalLimit);
      TwoBurstsTimely(l, l.globalLimit);
      assert Verdicts(l, Fresh(0), calls) != RefVerdicts(l, RefFresh(0), calls);
    }
  }

  /** Two equips of one user stay an interval apart exactly when the table has room for two budgets less one. */
  lemma SpacedIffTwoBudgetsLessOne(l: Limits)
    requires 0 < l.capacity && 0 < l.globalLimit && 1 < l.interval <= l.window
    ensures Spaced(l) <==> l.capacity + 1 >= 2 * l.globalLimit
  {
    if l.capacity + 1 >= 2 * l.globalLimit {
      RoomyIsSpaced(l);
    } else {
      var more := l.globalLimit - 1;
      var calls := TwoBursts(l, more) + [Call(0, l.window)];
      ForgottenUser(l, more);
      TwoBurstsTimely(l, more);
      assert TwoAllowed(l, 0, calls, 0, |calls| - 1);
    }
  }

  /** The limiter as `src/server2.rs` configures it, in milliseconds. */
  function Shipped(): Limits {
    Limits(4096, 250, 1000, 2048)
  }

  lemma ShippedIsExactAndTight()
    ensures Exact(Shipped()) && Spaced(Shipped())
    ensures !Exact(Shipped().(capacity := 4095))
  {
    ExactIffTwoBudgets(Shipped());
    SpacedIffTwoBudgetsLessOne(Shipped());
    ExactIffTwoBudgets(Shipped().(capacity := 4095));
  }
}
