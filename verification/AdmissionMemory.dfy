/**
 Why a large enough table of the admission limiter may forget: whoever it evicts has a
 window that is over, or that will be before the global budget lets anybody in again.
 */
module AdmissionMemory {
  import opened Common
  import opened Lru
  import opened AdmissionLimiter

  /**
   Room for the accounts that can matter at once: two global budgets and whoever spent a
   whole account budget in a third.
   */
  predicate Roomy(l: Limits) {
    l.accountLimit > 0 && (l.globalLimit <= 1 || l.capacity + 1 >= 2 * l.globalLimit + l.globalLimit / l.accountLimit)
  }

  /**
   What the proof tracks beside the two limiters: when each account was last moved to
   the front, the starts of the two global windows before the current one, and who was
   admitted, how often, in each of these three.
   */
  datatype Trace = Trace(
    touched: map<Account, nat>, prev: int, prev2: int,
    in0: multiset<Account>, in1: multiset<Account>, in2: multiset<Account>)

  function RollTrace(l: Limits, r: Ref, t: Trace, now: nat): Trace {
    if Since(now, r.global.started) >= l.window
    then Trace(t.touched, r.global.started, t.prev, multiset{}, t.in0, t.in1)
    else t
  }

  function TouchTrace(t: Trace, a: Account, admitted: bool, now: nat): Trace {
    t.(touched := t.touched[a := now], in0 := if admitted then t.in0 + multiset{a} else t.in0)
  }

  function Advance(l: Limits, r: Ref, t: Trace, a: Account, now: nat): Trace {
    var t' := RollTrace(l, r, t, now);
    if Roll(r.global, l.window, now).count >= l.globalLimit then t'
    else TouchTrace(t', a, RefAdmit(l, r, a, now).1, now)
  }

  /**
   An account the table may forget: its window is over, or it will be before the
   global budget lets anybody in again.
   */
  ghost predicate Dead(l: Limits, r: Ref, a: Account, now: nat)
    requires a in r.accounts
  {
    || r.accounts[a].started + l.window <= now
    || (r.global.count >= l.globalLimit && r.accounts[a].started <= r.global.started)
  }

  ghost predicate Clocked(l: Limits, r: Ref, t: Trace, now: nat) {
    && r.global.started <= now
    && (now < r.global.started + l.window || now == r.global.started)
    && t.prev + l.window <= r.global.started
    && t.prev2 + l.window <= t.prev
    && (forall a :: a in r.accounts ==>
          && a in t.touched
          && r.accounts[a].started <= t.touched[a] <= now
          && (t.touched[a] < r.accounts[a].started + l.window || t.touched[a] == r.accounts[a].started))
  }

  /** The entry of one account against the three ledgers. */
  ghost predicate Booked(l: Limits, g: nat, t: Trace, a: Account, w: Window, touched: nat) {
    && 0 < w.count
    && (w.started >= g ==> w.count <= t.in0[a])
    && (w.started >= t.prev ==> w.count <= t.in1[a] + t.in0[a])
    && (w.started >= t.prev2 ==> w.count <= t.in2[a] + t.in1[a] + t.in0[a])
    && (touched >= g ==> t.in0[a] > 0 || w.count >= l.accountLimit)
    && (touched >= t.prev ==> t.in1[a] + t.in0[a] > 0 || w.count >= l.accountLimit)
  }

  ghost predicate Budgets(l: Limits, r: Ref, t: Trace) {
    && |t.in0| == r.global.count <= l.globalLimit
    && |t.in1| <= l.globalLimit
    && |t.in2| <= l.globalLimit
  }

  ghost predicate Ledger(l: Limits, r: Ref, t: Trace) {
    l.window > 0 ==>
      && Budgets(l, r, t)
      && (forall a :: a in r.accounts ==>
            a in t.touched && Booked(l, r.global.started, t, a, r.accounts[a], t.touched[a]))
  }

  /** The table holds a part of the reference map, and only dead accounts are missing. */
  ghost predicate Mirrors(l: Limits, s: State, r: Ref, now: nat) {
    && s.global == r.global
    && Valid(s.accounts)
    && |s.accounts.order| <= l.capacity
    && (forall a :: a in s.accounts.table ==> a in r.accounts && r.accounts[a] == s.accounts.table[a])
    && (forall a :: a in r.accounts && a !in s.accounts.table ==> Dead(l, r, a, now))
  }

  ghost predicate Sim(l: Limits, s: State, r: Ref, t: Trace, now: nat) {
    Clocked(l, r, t, now) && Ledger(l, r, t) && Mirrors(l, s, r, now) && Recent(s.accounts.order, t.touched)
  }

  lemma SimFresh(l: Limits, start: nat)
    ensures Sim(l, Fresh(start), RefFresh(start),
                Trace(map[], start - l.window, start - 2 * l.window, multiset{}, multiset{}, multiset{}), start)
  {
  }

  // ---- rolling the global window ----

  lemma RollLedger(l: Limits, r: Ref, t: Trace, last: nat, now: nat)
    requires Clocked(l, r, t, last) && Ledger(l, r, t) && last <= now
    requires l.window > 0 && Since(now, r.global.started) >= l.window
    ensures Ledger(l, r.(global := Window(now, 0)), RollTrace(l, r, t, now))
  {
    var r', t' := r.(global := Window(now, 0)), RollTrace(l, r, t, now);
    forall a | a in r'.accounts ensures a in t'.touched && Booked(l, now, t', a, r'.accounts[a], t'.touched[a]) {
      assert Booked(l, r.global.started, t, a, r.accounts[a], t.touched[a]);
      assert t'.touched[a] <= last < now;
    }
  }

  lemma RollKeeps(l: Limits, s: State, r: Ref, t: Trace, last: nat, now: nat)
    requires Sim(l, s, r, t, last) && last <= now
    ensures Sim(l, s.(global := Roll(s.global, l.window, now)), r.(global := Roll(r.global, l.window, now)),
                RollTrace(l, r, t, now), now)
  {
    hide Booked, Budgets, Valid, Recent;
    if Since(now, r.global.started) >= l.window {
      if l.window > 0 {
        RollLedger(l, r, t, last, now);
      }
    }
  }

  // ---- eviction ----

  lemma WithoutOne(m: multiset<Account>, x: Account)
    ensures |m| == |m[x := 0]| + m[x]
  {
    assert m == m[x := 0] + multiset{}[x := m[x]];
  }

  /** Accounts that stand in a ledger `n` times each are at most its size divided by `n`. */
  lemma {:induction false} MultiplesFit(m: multiset<Account>, n: nat, s: set<Account>)
    requires forall a :: a in s ==> m[a] >= n
    ensures n * |s| <= |m|
  {
    if s != {} {
      var x :| x in s;
      var k := |s - {x}|;
      MultiplesFit(m[x := 0], n, s - {x});
      WithoutOne(m, x);
      assert |s| == k + 1 && n * (k + 1) == n * k + n;
    }
  }

  lemma Exceeds(n: nat, h: nat, limit: nat)
    requires n > 0 && h > limit / n
    ensures n * h > limit
  {
    assert n * h >= n * (limit / n + 1) == n * (limit / n) + n;
  }

  ghost function Named(m: multiset<Account>): set<Account> {
    set a | a in m
  }

  /** Accounts that stand in a ledger at least `n` times. */
  ghost function Heavy(m: multiset<Account>, n: nat): set<Account> {
    set a | a in m && m[a] >= n
  }

  lemma NamedFit(m: multiset<Account>)
    ensures |Named(m)| <= |m|
  {
    MultiplesFit(m, 1, Named(m));
  }

  lemma HeavyFit(m: multiset<Account>, n: nat, limit: nat)
    requires n > 0 && |m| <= limit
    ensures |Heavy(m, n)| <= limit / n
  {
    MultiplesFit(m, n, Heavy(m, n));
    if |Heavy(m, n)| > limit / n {
      Exceeds(n, |Heavy(m, n)|, limit);
    }
  }

  lemma Covered(cached: set<Account>, a: set<Account>, b: set<Account>, c: set<Account>)
    requires cached <= a + b + c
    ensures |cached| <= |a| + |b| + |c|
  {
    CardinalityMono(cached, a + b + c);
    assert |a + b| <= |a| + |b|;
  }

  ghost predicate EvictionHarmless(l: Limits, s: State, r: Ref, count: nat, now: nat)
    requires Valid(s.accounts) && s.accounts.order != []
  {
    var w := s.accounts.table[Last(s.accounts)];
    w.started + l.window <= now || (count >= l.globalLimit && w.started <= r.global.started)
  }

  /** Every cached account was used after the tail's window began, so it stands in one of the ledgers. */
  lemma CachedIsBooked(l: Limits, s: State, r: Ref, t: Trace, now: nat, a: Account)
    requires Sim(l, s, r, t, now) && a in s.accounts.table && l.window > 0 && l.accountLimit > 0
    requires s.accounts.order != [] && now < s.accounts.table[Last(s.accounts)].started + l.window
    ensures a in Named(t.in0) || a in Named(t.in1) || a in Heavy(t.in2, l.accountLimit)
    ensures s.accounts.table[Last(s.accounts)].started > r.global.started ==>
              a in Named(t.in0) || a in Heavy(t.in1, l.accountLimit)
  {
    TailLeastRecent(s.accounts, t.touched, a);
    hide Valid, Recent;
    assert Last(s.accounts) in r.accounts && a in r.accounts;
    var e, w := r.accounts[Last(s.accounts)], r.accounts[a];
    assert e.started <= t.touched[a];
    assert Booked(l, r.global.started, t, a, w, t.touched[a]);
  }

  /** What the ledgers leave room for. */
  lemma LedgersFit(l: Limits, r: Ref, t: Trace)
    requires Budgets(l, r, t) && l.accountLimit > 0
    ensures |Named(t.in0)| <= r.global.count && |Named(t.in1)| <= l.globalLimit
    ensures |Heavy(t.in1, l.accountLimit)| <= l.globalLimit / l.accountLimit
    ensures |Heavy(t.in2, l.accountLimit)| <= l.globalLimit / l.accountLimit
  {
    NamedFit(t.in0);
    NamedFit(t.in1);
    HeavyFit(t.in1, l.accountLimit, l.globalLimit);
    HeavyFit(t.in2, l.accountLimit, l.globalLimit);
  }

  /** Nobody holds a window that began in a global window in which nobody was admitted. */
  lemma NobodyYet(l: Limits, r: Ref, t: Trace, a: Account)
    requires Ledger(l, r, t) && l.window > 0 && a in r.accounts && r.global.count == 0
    ensures r.accounts[a].started < r.global.started
  {
    assert Booked(l, r.global.started, t, a, r.accounts[a], t.touched[a]);
  }

  /**
   The heart of the argument. When a full table evicts its tail for a newcomer, the
   tail is dead: were it alive, every cached account would stand in one of the last
   three ledgers, which have no room for so many.
   */
  lemma EvictedIsDead(l: Limits, s: State, r: Ref, t: Trace, now: nat)
    requires Sim(l, s, r, t, now) && 0 < l.capacity && Roomy(l)
    requires |s.accounts.order| == l.capacity && r.global.count < l.globalLimit
    ensures EvictionHarmless(l, s, r, r.global.count + 1, now)
  {
    var e := s.accounts.table[Last(s.accounts)];
    if now < e.started + l.window {
      assert Last(s.accounts) in r.accounts && r.accounts[Last(s.accounts)] == e;
      if l.globalLimit == 1 {
        NobodyYet(l, r, t, Last(s.accounts));
      } else {
        var cached := s.accounts.table.Keys;
        var n0, n1, h1, h2 := Named(t.in0), Named(t.in1), Heavy(t.in1, l.accountLimit), Heavy(t.in2, l.accountLimit);
        Size(s.accounts);
        forall a | a in cached
          ensures a in n0 + n1 + h2
          ensures e.started > r.global.started ==> a in n0 + {} + h1
        {
          CachedIsBooked(l, s, r, t, now, a);
        }
        LedgersFit(l, r, t);
        Covered(cached, n0, n1, h2);
        if e.started > r.global.started {
          Covered(cached, n0, {}, h1);
          assert false;
        }
      }
    }
  }

  // ---- one call ----

  /** What one call does to the entry of its account, in both limiters. */
  ghost predicate Outcome(l: Limits, r: Ref, a: Account, w: Window, admitted: bool, now: nat) {
    if admitted then
      r.global.count < l.globalLimit
      && (w == Window(now, 1) || (a in r.accounts && w == r.accounts[a].(count := r.accounts[a].count + 1)))
    else a in r.accounts && w == r.accounts[a] && w.count >= l.accountLimit
  }

  function Bump(w: Window, admitted: bool): Window {
    if admitted then w.(count := w.count + 1) else w
  }

  lemma LedgerAfter(l: Limits, r: Ref, t: Trace, a: Account, w: Window, admitted: bool, now: nat)
    requires Ledger(l, r, t) && Outcome(l, r, a, w, admitted, now) && r.global.started <= now
    ensures Ledger(l, Ref(Bump(r.global, admitted), r.accounts[a := w]), TouchTrace(t, a, admitted, now))
  {
    if l.window > 0 {
      var r', t' := Ref(Bump(r.global, admitted), r.accounts[a := w]), TouchTrace(t, a, admitted, now);
      assert t'.in0[a] == t.in0[a] + if admitted then 1 else 0;
      forall x | x in r'.accounts
        ensures x in t'.touched && Booked(l, r'.global.started, t', x, r'.accounts[x], t'.touched[x])
      {
        if x in r.accounts {
          assert Booked(l, r.global.started, t, x, r.accounts[x], t.touched[x]);
        }
      }
    }
  }

  /** Touching one entry (promotion or insertion) keeps the table a mirror of the reference map. */
  lemma MirrorAfter(l: Limits, s: State, r: Ref, a: Account, w: Window, admitted: bool, now: nat)
    requires Mirrors(l, s, r, now) && 0 < l.capacity
    requires Evicts(s.accounts, a, l.capacity) ==> EvictionHarmless(l, s, r, Bump(r.global, admitted).count, now)
    ensures Mirrors(l, State(Bump(s.global, admitted), Put(s.accounts, a, w, l.capacity)),
                    Ref(Bump(r.global, admitted), r.accounts[a := w]), now)
  {
    PutValid(s.accounts, a, w, l.capacity);
  }

  lemma ClockAfter(l: Limits, r: Ref, t: Trace, a: Account, w: Window, admitted: bool, now: nat)
    requires Clocked(l, r, t, now)
    requires w.started <= now && (now < w.started + l.window || now == w.started)
    ensures Clocked(l, Ref(Bump(r.global, admitted), r.accounts[a := w]), TouchTrace(t, a, admitted, now), now)
  {
  }

  /** Moving an account to the front with its new entry. */
  lemma TouchKeeps(l: Limits, s: State, r: Ref, t: Trace, a: Account, w: Window, admitted: bool, now: nat)
    requires Sim(l, s, r, t, now) && 0 < l.capacity
    requires Outcome(l, r, a, w, admitted, now)
    requires w.started <= now && (now < w.started + l.window || now == w.started)
    requires Evicts(s.accounts, a, l.capacity) ==> EvictionHarmless(l, s, r, Bump(r.global, admitted).count, now)
    ensures Sim(l, State(Bump(s.global, admitted), Put(s.accounts, a, w, l.capacity)),
                Ref(Bump(r.global, admitted), r.accounts[a := w]), TouchTrace(t, a, admitted, now), now)
  {
    hide Booked, Budgets, Put, Valid, Recent, Outcome, EvictionHarmless;
    MirrorAfter(l, s, r, a, w, admitted, now);
    ClockAfter(l, r, t, a, w, admitted, now);
    LedgerAfter(l, r, t, a, w, admitted, now);
    assert forall i :: 0 <= i < |s.accounts.order| ==> t.touched[s.accounts.order[i]] <= now by {
      StampsBound(l, s, r, t, now);
    }
    PutRecent(s.accounts, t.touched, a, w, l.capacity, now);
  }

  lemma StampsBound(l: Limits, s: State, r: Ref, t: Trace, now: nat)
    requires Clocked(l, r, t, now) && Mirrors(l, s, r, now)
    ensures forall i :: 0 <= i < |s.accounts.order| ==>
              s.accounts.order[i] in t.touched && t.touched[s.accounts.order[i]] <= now
  {
    assert forall i :: 0 <= i < |s.accounts.order| ==> s.accounts.order[i] in r.accounts;
  }

  /** An account the table does not hold is new to the reference too, or dead there: both open a new window. */
  lemma NewVerdicts(l: Limits, s: State, r: Ref, a: Account, now: nat)
    requires Mirrors(l, s, r, now) && a !in s.accounts.table
    requires r.global == Roll(r.global, l.window, now) && r.global.count < l.globalLimit
    requires 0 < l.capacity && l.accountLimit > 0
    ensures s.global == r.global
    ensures Admit(l, s, a, now) == (State(Bump(s.global, true), Put(s.accounts, a, Window(now, 1), l.capacity)), true)
    ensures RefAdmit(l, r, a, now) == (Ref(Bump(r.global, true), r.accounts[a := Window(now, 1)]), true)
  {
    hide Put, Valid;
    assert a in r.accounts ==> Dead(l, r, a, now);
  }

  lemma StepNew(l: Limits, s: State, r: Ref, t: Trace, a: Account, now: nat)
    requires Sim(l, s, r, t, now) && a !in s.accounts.table
    requires r.global == Roll(r.global, l.window, now) && r.global.count < l.globalLimit
    requires 0 < l.capacity && Roomy(l)
    ensures Admit(l, s, a, now).1 && RefAdmit(l, r, a, now).1
    ensures Sim(l, Admit(l, s, a, now).0, RefAdmit(l, r, a, now).0, TouchTrace(t, a, true, now), now)
  {
    NewVerdicts(l, s, r, a, now);
    hide Admit, RefAdmit, Sim, Put, EvictionHarmless, Roll;
    if Evicts(s.accounts, a, l.capacity) {
      EvictionFull(l, s, r, t, a, now);
      EvictedIsDead(l, s, r, t, now);
    }
    TouchKeeps(l, s, r, t, a, Window(now, 1), true, now);
  }

  lemma EvictionFull(l: Limits, s: State, r: Ref, t: Trace, a: Account, now: nat)
    requires Sim(l, s, r, t, now) && Evicts(s.accounts, a, l.capacity)
    ensures |s.accounts.order| == l.capacity
  {
  }

  /** An account the table holds has the same window in the reference. */
  lemma KnownVerdicts(l: Limits, s: State, r: Ref, a: Account, now: nat)
    requires a in s.accounts.table && a in r.accounts && r.accounts[a] == s.accounts.table[a] && s.global == r.global
    requires r.global == Roll(r.global, l.window, now) && r.global.count < l.globalLimit
    requires 0 < l.capacity
    ensures var w := Roll(r.accounts[a], l.window, now);
            var ok := w.count < l.accountLimit;
            && Admit(l, s, a, now) == (State(Bump(s.global, ok), Put(s.accounts, a, Bump(w, ok), l.capacity)), ok)
            && RefAdmit(l, r, a, now) == (Ref(Bump(r.global, ok), r.accounts[a := Bump(w, ok)]), ok)
  {
    hide Put;
  }

  lemma KnownWindow(l: Limits, s: State, r: Ref, t: Trace, a: Account, now: nat)
    requires Sim(l, s, r, t, now) && a in s.accounts.table
    ensures s.global == r.global && a in r.accounts && r.accounts[a] == s.accounts.table[a]
    ensures r.accounts[a].started <= now && !Evicts(s.accounts, a, l.capacity)
  {
    hide Ledger, Recent;
  }

  lemma StepKnown(l: Limits, s: State, r: Ref, t: Trace, a: Account, now: nat)
    requires Sim(l, s, r, t, now) && a in s.accounts.table
    requires r.global == Roll(r.global, l.window, now) && r.global.count < l.globalLimit
    requires 0 < l.capacity && l.accountLimit > 0
    ensures Admit(l, s, a, now).1 == RefAdmit(l, r, a, now).1
    ensures Sim(l, Admit(l, s, a, now).0, RefAdmit(l, r, a, now).0,
                TouchTrace(t, a, RefAdmit(l, r, a, now).1, now), now)
  {
    hide Put, Sim, Admit, RefAdmit, Evicts;
    KnownWindow(l, s, r, t, a, now);
    KnownVerdicts(l, s, r, a, now);
    var w := Roll(r.accounts[a], l.window, now);
    var ok := w.count < l.accountLimit;
    TouchKeeps(l, s, r, t, a, Bump(w, ok), ok, now);
  }

  lemma StepRolled(l: Limits, s: State, r: Ref, t: Trace, a: Account, now: nat)
    requires Sim(l, s, r, t, now) && r.global == Roll(r.global, l.window, now)
    requires 0 < l.capacity && Roomy(l)
    ensures Admit(l, s, a, now).1 == RefAdmit(l, r, a, now).1
    ensures Sim(l, Admit(l, s, a, now).0, RefAdmit(l, r, a, now).0,
                if r.global.count >= l.globalLimit then t else TouchTrace(t, a, RefAdmit(l, r, a, now).1, now), now)
  {
    if r.global.count < l.globalLimit {
      if a in s.accounts.table {
        StepKnown(l, s, r, t, a, now);
      } else {
        StepNew(l, s, r, t, a, now);
      }
    }
  }

  /** One call: same verdict, and the invariant goes on holding. */
  lemma Step(l: Limits, s: State, r: Ref, t: Trace, a: Account, last: nat, now: nat)
    requires Sim(l, s, r, t, last) && last <= now && 0 < l.capacity && Roomy(l)
    ensures Admit(l, s, a, now).1 == RefAdmit(l, r, a, now).1
    ensures Sim(l, Admit(l, s, a, now).0, RefAdmit(l, r, a, now).0, Advance(l, r, t, a, now), now)
  {
    RollKeeps(l, s, r, t, last, now);
    assert s.global == r.global;
    RollFirst(l, s, r, a, now);
    var g := Roll(r.global, l.window, now);
    StepRolled(l, s.(global := g), r.(global := g), RollTrace(l, r, t, now), a, now);
  }

  /** On every run the table and the reference give the same verdicts. */
  lemma {:induction false} MemoryRun(l: Limits, s: State, r: Ref, t: Trace, last: nat, calls: seq<Call>)
    requires Sim(l, s, r, t, last) && Timely(last, calls) && 0 < l.capacity && Roomy(l)
    ensures Verdicts(l, s, calls) == RefVerdicts(l, r, calls)
    decreases |calls|
  {
    hide Sim, Admit, RefAdmit, Advance, Roomy;
    if calls != [] {
      var c := calls[0];
      Step(l, s, r, t, c.account, last, c.at);
      MemoryRun(l, Admit(l, s, c.account, c.at).0, RefAdmit(l, r, c.account, c.at).0,
                Advance(l, r, t, c.account, c.at), c.at, calls[1..]);
    }
  }
}
