/**
 Why a large enough account limit makes the table of the admission limiter superfluous:
 with an account limit of two global limits less one, nobody is refused on account of
 their own window, so it does not matter what the table forgets. The one exception is
 an account that was alone from the start, and a table of any size remembers that one.
 */
module AdmissionBudget {
  import opened Common
  import opened Lru
  import opened AdmissionLimiter

  predicate Lavish(l: Limits) {
    l.globalLimit >= 2 && l.accountLimit + 1 >= 2 * l.globalLimit
  }

  /**
   What the proof tracks: how many global windows have begun since the first, the start
   of the one before the current, everybody admitted so far, everybody admitted in the
   current window, and those admitted after the first instant of the current window and
   of the one before.
   */
  datatype Tally = Tally(
    age: nat, prev: int, all: multiset<Account>,
    now: multiset<Account>, late: multiset<Account>, latePrev: multiset<Account>)

  function RollTally(l: Limits, r: Ref, t: Tally, now: nat): Tally {
    if Since(now, r.global.started) >= l.window
    then Tally(t.age + 1, r.global.started, t.all, multiset{}, multiset{}, t.late)
    else t
  }

  function Count(t: Tally, r: Ref, a: Account, now: nat): Tally {
    t.(all := t.all + multiset{a}, now := t.now + multiset{a},
       late := if now > r.global.started then t.late + multiset{a} else t.late)
  }

  function Advance(l: Limits, r: Ref, t: Tally, a: Account, now: nat): Tally {
    var t' := RollTally(l, r, t, now);
    if RefAdmit(l, r, a, now).1 then Count(t', r.(global := Roll(r.global, l.window, now)), a, now) else t'
  }

  /** An entry, of either limiter, counts no more than the tallies do. */
  ghost predicate Counted(g: Window, t: Tally, a: Account, w: Window, now: nat) {
    && w.started <= now
    && (t.age <= 1 ==> w.count <= t.all[a])
    && (w.started >= g.started ==> w.count <= t.now[a])
    && (w.started > g.started ==> w.count <= t.late[a])
    && (w.started > t.prev && t.age > 0 ==> w.count <= t.latePrev[a] + t.now[a])
  }

  ghost predicate Tallied(l: Limits, g: Window, t: Tally) {
    && |t.now| == g.count <= l.globalLimit
    && (t.age == 0 ==> |t.all| <= g.count)
    && (t.age == 1 ==> |t.all| <= l.globalLimit + g.count)
    && (t.age >= 2 ==> |t.latePrev| < l.globalLimit)
  }

  /** Every window but the first is begun by a call that is let through, at its first instant. */
  ghost predicate Begun(g: Window, t: Tally, now: nat) {
    t.age > 0 ==> |t.late| < g.count || (g == Window(now, 0) && t.late == multiset{})
  }

  /** As long as only the first two windows have passed, an account that was alone is remembered. */
  ghost predicate Alone(s: State, r: Ref, t: Tally) {
    t.age <= 1 ==>
      && (forall a :: a in r.accounts ==> a in t.all)
      && (|r.accounts| <= 1 ==> s.accounts.table == r.accounts)
  }

  ghost predicate Entries(s: State, r: Ref, t: Tally, now: nat) {
    && (forall a :: a in s.accounts.table ==> Counted(r.global, t, a, s.accounts.table[a], now))
    && (forall a :: a in r.accounts ==> Counted(r.global, t, a, r.accounts[a], now))
  }

  ghost predicate Sim(l: Limits, s: State, r: Ref, t: Tally, now: nat) {
    && s.global == r.global
    && Valid(s.accounts)
    && r.global.started <= now
    && (now < r.global.started + l.window || now == r.global.started)
    && t.prev + l.window <= r.global.started
    && (l.window > 0 ==> Tallied(l, r.global, t) && Begun(r.global, t, now) && Entries(s, r, t, now) && Alone(s, r, t))
  }

  lemma SimFresh(l: Limits, start: nat)
    ensures Sim(l, Fresh(start), RefFresh(start),
                Tally(0, start - l.window, multiset{}, multiset{}, multiset{}, multiset{}), start)
  {
  }

  /** Between calls the window has been begun. */
  ghost predicate Settled(l: Limits, r: Ref, t: Tally) {
    l.window > 0 && t.age > 0 ==> |t.late| < r.global.count
  }

  lemma RollKeeps(l: Limits, s: State, r: Ref, t: Tally, last: nat, now: nat)
    requires Sim(l, s, r, t, last) && Settled(l, r, t) && last <= now
    ensures Sim(l, s.(global := Roll(s.global, l.window, now)), r.(global := Roll(r.global, l.window, now)),
                RollTally(l, r, t, now), now)
  {
    hide Valid;
  }

  lemma AtMost(m: multiset<Account>, a: Account)
    ensures m[a] <= |m|
    ensures forall b :: b != a && b in m ==> m[a] < |m|
  {
    assert |m[a := 0]| + m[a] == |m| by {
      assert m == m[a := 0] + multiset{}[a := m[a]];
    }
    forall b | b != a && b in m ensures m[a] < |m| {
      assert b in m[a := 0];
    }
  }

  /** While the global budget lasts, a running window below the account limit is no constraint. */
  lemma Unbound(l: Limits, g: Window, t: Tally, a: Account, w: Window, now: nat)
    requires Lavish(l) && Tallied(l, g, t) && Counted(g, t, a, w, now) && g.count < l.globalLimit
    requires t.prev + l.window <= g.started <= now < w.started + l.window
    ensures w.count < l.accountLimit || (t.age == 1 && g.count > 0 && forall b :: b in t.all ==> b == a)
  {
    AtMost(t.all, a);
    AtMost(t.now, a);
    AtMost(t.latePrev, a);
  }

  /** What the entry of the caller becomes: one more in a running window, or one in a new window. */
  function Next(l: Limits, table: map<Account, Window>, a: Account, now: nat): Window {
    if a in table then var w := Roll(table[a], l.window, now); w.(count := w.count + 1) else Window(now, 1)
  }

  predicate Refused(l: Limits, table: map<Account, Window>, a: Account, now: nat) {
    a in table && Roll(table[a], l.window, now).count >= l.accountLimit
  }

  /** Neither limiter refuses the account, unless it has been alone. */
  lemma RefusedOnlyAlone(l: Limits, s: State, r: Ref, t: Tally, a: Account, now: nat)
    requires Lavish(l) && Sim(l, s, r, t, now) && r.global == Roll(r.global, l.window, now)
    requires r.global.count < l.globalLimit
    requires Refused(l, s.accounts.table, a, now) || Refused(l, r.accounts, a, now)
    ensures l.window > 0 && t.age == 1 && r.global.count > 0
    ensures s.accounts.table == r.accounts
  {
    hide Valid, Counted, Tallied, Begun;
    if Refused(l, s.accounts.table, a, now) {
      Unbound(l, r.global, t, a, s.accounts.table[a], now);
    } else {
      Unbound(l, r.global, t, a, r.accounts[a], now);
    }
    assert r.accounts.Keys <= {a};
    CardinalityMono(r.accounts.Keys, {a});
  }

  lemma Admitted(l: Limits, s: State, r: Ref, a: Account, now: nat)
    requires s.global == r.global == Roll(r.global, l.window, now) && r.global.count < l.globalLimit
    requires !Refused(l, s.accounts.table, a, now) && !Refused(l, r.accounts, a, now) && l.capacity > 0
    ensures var g := r.global.(count := r.global.count + 1);
            && Admit(l, s, a, now) ==
               (State(g, Put(s.accounts, a, Next(l, s.accounts.table, a, now), l.capacity)), true)
            && RefAdmit(l, r, a, now) == (Ref(g, r.accounts[a := Next(l, r.accounts, a, now)]), true)
  {
    hide Put;
  }

  lemma StillCounted(l: Limits, r: Ref, t: Tally, a: Account, x: Account, w: Window, now: nat)
    requires Counted(r.global, t, x, w, now)
    ensures Counted(r.global.(count := r.global.count + 1), Count(t, r, a, now), x, w, now)
  {
  }

  lemma NextCounted(l: Limits, r: Ref, t: Tally, table: map<Account, Window>, a: Account, now: nat)
    requires l.window > 0 && r.global.started <= now < r.global.started + l.window
    requires t.prev + l.window <= r.global.started
    requires a in table ==> Counted(r.global, t, a, table[a], now)
    ensures Counted(r.global.(count := r.global.count + 1), Count(t, r, a, now), a, Next(l, table, a, now), now)
  {
  }

  lemma EntriesAfter(l: Limits, s: State, r: Ref, t: Tally, a: Account, now: nat)
    requires l.window > 0 && l.capacity > 0 && r.global.started <= now < r.global.started + l.window
    requires t.prev + l.window <= r.global.started && Entries(s, r, t, now)
    ensures
      var g := r.global.(count := r.global.count + 1);
      Entries(State(g, Put(s.accounts, a, Next(l, s.accounts.table, a, now), l.capacity)),
              Ref(g, r.accounts[a := Next(l, r.accounts, a, now)]), Count(t, r, a, now), now)
  {
    var g, t' := r.global.(count := r.global.count + 1), Count(t, r, a, now);
    var p := Put(s.accounts, a, Next(l, s.accounts.table, a, now), l.capacity);
    NextCounted(l, r, t, s.accounts.table, a, now);
    NextCounted(l, r, t, r.accounts, a, now);
    assert forall x :: x in p.table && x != a ==> x in s.accounts.table && p.table[x] == s.accounts.table[x];
    assert a in p.table && p.table[a] == Next(l, s.accounts.table, a, now);
    hide Next, Counted, Put, Count;
    forall x | x in p.table ensures Counted(g, t', x, p.table[x], now) {
      if x != a {
        StillCounted(l, r, t, a, x, s.accounts.table[x], now);
      }
    }
    var m := r.accounts[a := Next(l, r.accounts, a, now)];
    forall x | x in m ensures Counted(g, t', x, m[x], now) {
      if x != a {
        StillCounted(l, r, t, a, x, r.accounts[x], now);
      }
    }
  }

  lemma AloneAfter(l: Limits, s: State, r: Ref, t: Tally, a: Account, now: nat)
    requires l.capacity > 0 && Alone(s, r, t) && Valid(s.accounts)
    ensures
      var g := r.global.(count := r.global.count + 1);
      Alone(State(g, Put(s.accounts, a, Next(l, s.accounts.table, a, now), l.capacity)),
            Ref(g, r.accounts[a := Next(l, r.accounts, a, now)]), Count(t, r, a, now))
  {
    var m := r.accounts[a := Next(l, r.accounts, a, now)];
    if t.age <= 1 && |m| <= 1 {
      OnlyOne(m.Keys, a);
      assert r.accounts.Keys <= {a};
      CardinalityMono(r.accounts.Keys, {a});
      assert s.accounts.table == r.accounts;
      assert s.accounts.order != [] ==> s.accounts.order[0] in s.accounts.table;
    }
  }

  lemma OnlyOne(s: set<Account>, a: Account)
    requires a in s && |s| <= 1
    ensures s == {a}
  {
    assert |s - {a}| == 0;
  }

  lemma TalliedAfter(l: Limits, r: Ref, t: Tally, a: Account, now: nat)
    requires Tallied(l, r.global, t) && Begun(r.global, t, now) && r.global.count < l.globalLimit
    ensures Tallied(l, r.global.(count := r.global.count + 1), Count(t, r, a, now))
    ensures Begun(r.global.(count := r.global.count + 1), Count(t, r, a, now), now)
    ensures t.age > 0 ==> |Count(t, r, a, now).late| < r.global.count + 1
  {
  }

  lemma StepAdmitted(l: Limits, s: State, r: Ref, t: Tally, a: Account, now: nat)
    requires Lavish(l) && Sim(l, s, r, t, now) && r.global == Roll(r.global, l.window, now) && l.capacity > 0
    requires r.global.count < l.globalLimit
    requires !Refused(l, s.accounts.table, a, now) && !Refused(l, r.accounts, a, now)
    ensures Admit(l, s, a, now).1 && RefAdmit(l, r, a, now).1
    ensures Sim(l, Admit(l, s, a, now).0, RefAdmit(l, r, a, now).0, Count(t, r, a, now), now)
    ensures Settled(l, RefAdmit(l, r, a, now).0, Count(t, r, a, now))
  {
    Admitted(l, s, r, a, now);
    hide Admit, RefAdmit, Refused, Next, Put, Valid, Tallied, Begun, Entries, Alone, Lavish;
    PutValid(s.accounts, a, Next(l, s.accounts.table, a, now), l.capacity);
    if l.window > 0 {
      assert now < r.global.started + l.window;
      EntriesAfter(l, s, r, t, a, now);
      AloneAfter(l, s, r, t, a, now);
      TalliedAfter(l, r, t, a, now);
    }
  }

  /**
   An account that was alone and has spent its limit is refused by both, and nothing
   changes but its place in the order.
   */
  lemma StepRefused(l: Limits, s: State, r: Ref, t: Tally, a: Account, now: nat)
    requires Lavish(l) && Sim(l, s, r, t, now) && r.global == Roll(r.global, l.window, now) && l.capacity > 0
    requires r.global.count < l.globalLimit
    requires Refused(l, s.accounts.table, a, now) || Refused(l, r.accounts, a, now)
    ensures !Admit(l, s, a, now).1 && !RefAdmit(l, r, a, now).1
    ensures Sim(l, Admit(l, s, a, now).0, RefAdmit(l, r, a, now).0, t, now)
    ensures r.global.count > 0 && RefAdmit(l, r, a, now).0.global == r.global
  {
    RefusedOnlyAlone(l, s, r, t, a, now);
    var w := r.accounts[a];
    assert Roll(w, l.window, now) == w;
    assert r.accounts[a := w] == r.accounts;
    assert RefAdmit(l, r, a, now) == (Ref(r.global, r.accounts[a := w]), false);
    assert Admit(l, s, a, now) == (State(s.global, Put(s.accounts, a, w, l.capacity)), false);
    PutValid(s.accounts, a, w, l.capacity);
    assert Put(s.accounts, a, w, l.capacity).table == s.accounts.table;
  }

  lemma StepRolled(l: Limits, s: State, r: Ref, t: Tally, a: Account, now: nat)
    requires Lavish(l) && Sim(l, s, r, t, now) && r.global == Roll(r.global, l.window, now) && l.capacity > 0
    ensures Admit(l, s, a, now).1 == RefAdmit(l, r, a, now).1
    ensures var t' := if RefAdmit(l, r, a, now).1 then Count(t, r, a, now) else t;
            Sim(l, Admit(l, s, a, now).0, RefAdmit(l, r, a, now).0, t', now) && Settled(l, RefAdmit(l, r, a, now).0, t')
  {
    if r.global.count >= l.globalLimit {
      assert RefAdmit(l, r, a, now) == (r, false) && Admit(l, s, a, now) == (s, false);
    } else {
      hide Admit, RefAdmit;
      if Refused(l, s.accounts.table, a, now) || Refused(l, r.accounts, a, now) {
        StepRefused(l, s, r, t, a, now);
      } else {
        StepAdmitted(l, s, r, t, a, now);
      }
    }
  }

  lemma Step(l: Limits, s: State, r: Ref, t: Tally, a: Account, last: nat, now: nat)
    requires Lavish(l) && Sim(l, s, r, t, last) && Settled(l, r, t) && last <= now && l.capacity > 0
    ensures Admit(l, s, a, now).1 == RefAdmit(l, r, a, now).1
    ensures Sim(l, Admit(l, s, a, now).0, RefAdmit(l, r, a, now).0, Advance(l, r, t, a, now), now)
    ensures Settled(l, RefAdmit(l, r, a, now).0, Advance(l, r, t, a, now))
  {
    RollKeeps(l, s, r, t, last, now);
    RollFirst(l, s, r, a, now);
    var g := Roll(r.global, l.window, now);
    StepRolled(l, s.(global := g), r.(global := g), RollTally(l, r, t, now), a, now);
  }

  lemma {:induction false} LavishRun(l: Limits, s: State, r: Ref, t: Tally, last: nat, calls: seq<Call>)
    requires Lavish(l) && Sim(l, s, r, t, last) && Settled(l, r, t) && Timely(last, calls) && l.capacity > 0
    ensures Verdicts(l, s, calls) == RefVerdicts(l, r, calls)
    decreases |calls|
  {
    hide Sim, Settled, Admit, RefAdmit, Advance, Lavish;
    if calls != [] {
      var c := calls[0];
      Step(l, s, r, t, c.account, last, c.at);
      LavishRun(l, Admit(l, s, c.account, c.at).0, RefAdmit(l, r, c.account, c.at).0,
                Advance(l, r, t, c.account, c.at), c.at, calls[1..]);
    }
  }
}
