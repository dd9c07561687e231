/**
 What the admission limiters of `src/nadeo.rs` promise: the exact condition under which
 forgetting is invisible, and the rates they let through.
 */
module AdmissionBounds {
  import opened Common
  import opened AdmissionLimiter
  import AdmissionBudget
  import AdmissionMemory
  import AdmissionWitness

  /**
   The table remembers enough: nobody is ever let in, or the account limit is so large
   that it never matters, or there is room for two global budgets and for everybody
   who can spend a whole account budget in one window, less one.
   */
  predicate Remembers(l: Limits) {
    l.globalLimit == 0
    || (l.accountLimit > 0
        && (l.accountLimit + 1 >= 2 * l.globalLimit
            || l.capacity + 1 >= 2 * l.globalLimit + l.globalLimit / l.accountLimit))
  }

  lemma {:induction false} NobodyAdmitted(l: Limits, s: State, r: Ref, calls: seq<Call>)
    requires l.capacity > 0 && l.globalLimit == 0
    ensures Verdicts(l, s, calls) == RefVerdicts(l, r, calls)
    decreases |calls|
  {
    if calls != [] {
      var c := calls[0];
      assert !Admit(l, s, c.account, c.at).1 && !RefAdmit(l, r, c.account, c.at).1;
      hide Admit, RefAdmit;
      NobodyAdmitted(l, Admit(l, s, c.account, c.at).0, RefAdmit(l, r, c.account, c.at).0, calls[1..]);
    }
  }

  /**
   Forgetting is invisible: under that condition the LRU limiter answers every call
   sequence exactly as the limiter that never forgets.
   */
  lemma {:induction false} ForgettingIsInvisible(l: Limits, start: nat, calls: seq<Call>)
    requires 0 < l.capacity && Remembers(l) && Timely(start, calls)
    ensures Verdicts(l, Fresh(start), calls) == RefVerdicts(l, RefFresh(start), calls)
  {
    hide Verdicts, RefVerdicts, Timely, AdmissionMemory.Sim, AdmissionBudget.Sim;
    var s, r := Fresh(start), RefFresh(start);
    if l.globalLimit == 0 {
      NobodyAdmitted(l, s, r, calls);
    } else if AdmissionMemory.Roomy(l) {
      AdmissionMemory.SimFresh(l, start);
      AdmissionMemory.MemoryRun(l, s, r,
        AdmissionMemory.Trace(map[], start - l.window, start - 2 * l.window, multiset{}, multiset{}, multiset{}),
        start, calls);
    } else {
      AdmissionBudget.SimFresh(l, start);
      AdmissionBudget.LavishRun(l, s, r,
        AdmissionBudget.Tally(0, start - l.window, multiset{}, multiset{}, multiset{}, multiset{}), start, calls);
    }
  }

  /** And otherwise it is not: the condition is exact, for windows of more than three instants. */
  lemma ExactIffRemembers(l: Limits)
    requires 0 < l.capacity && (l.window >= 4 || (l.window >= 3 && l.accountLimit <= 1))
    ensures Exact(l) <==> Remembers(l)
  {
    if Remembers(l) {
      forall start: nat, calls: seq<Call> | Timely(start, calls)
        ensures Verdicts(l, Fresh(start), calls) == RefVerdicts(l, RefFresh(start), calls)
      {
        ForgettingIsInvisible(l, start, calls);
      }
    } else {
      AdmissionWitness.SomeRunTells(l);
    }
  }

  /** The record limiter and the map-author limiter as `src/nadeo.rs` configures them, in milliseconds. */
  function RecordLimits(): Limits {
    Limits(2048, 60000, 128, 16)
  }

  function MapAuthorLimits(): Limits {
    Limits(1024, 60000, 64, 8)
  }

  /** Both are exact, and would be with tables of 263 and 135 entries, but not with one less. */
  lemma ShippedAreExact()
    ensures Exact(RecordLimits()) && Exact(MapAuthorLimits())
    ensures Exact(RecordLimits().(capacity := 263)) && !Exact(RecordLimits().(capacity := 262))
    ensures Exact(MapAuthorLimits().(capacity := 135)) && !Exact(MapAuthorLimits().(capacity := 134))
  {
    hide Exact;
    ExactIffRemembers(RecordLimits());
    ExactIffRemembers(MapAuthorLimits());
    ExactIffRemembers(RecordLimits().(capacity := 263));
    ExactIffRemembers(RecordLimits().(capacity := 262));
    ExactIffRemembers(MapAuthorLimits().(capacity := 135));
    ExactIffRemembers(MapAuthorLimits().(capacity := 134));
  }

  // ---- what the verdicts mean ----

  /** How many of the calls of `who` (of anybody, for `None`) were let through in `[lo, hi)`. */
  function Admitted(calls: seq<Call>, verdicts: seq<bool>, who: Option<Account>, lo: nat, hi: nat): nat
    requires |calls| == |verdicts|
  {
    if calls == [] then 0 else
      (if verdicts[0] && (who == None || who == Some(calls[0].account)) && lo <= calls[0].at < hi then 1 else 0)
      + Admitted(calls[1..], verdicts[1..], who, lo, hi)
  }

  /** A fixed window accounts for `n` admissions in `[lo, lo + span)`: at most two windows can meet that interval. */
  ghost predicate Accounts(w: Window, limit: nat, span: nat, lo: nat, n: nat, last: nat) {
    && (n > 0 ==> lo <= last)
    && w.count <= limit
    && n <= if w.started < lo then w.count else if w.started < lo + span then limit + w.count else 2 * limit
  }

  lemma RollAccounts(w: Window, limit: nat, span: nat, lo: nat, n: nat, last: nat, now: nat)
    requires Accounts(w, limit, span, lo, n, last) && w.started <= now && last <= now
    ensures var w' := Roll(w, span, now);
            && w'.started <= now
            && Accounts(w', limit, span, lo, n, now)
            && (w'.count < limit ==>
                  Accounts(w'.(count := w'.count + 1), limit, span, lo,
                           n + (if lo <= now < lo + span then 1 else 0), now))
  {
  }

  /** The windows that matter to `who` account for the `n` admissions of `who` so far. */
  ghost predicate RateOk(l: Limits, r: Ref, who: Option<Account>, lo: nat, n: nat, last: nat) {
    && r.global.started <= last
    && (forall a :: a in r.accounts ==> r.accounts[a].started <= last)
    && (who == None ==> Accounts(r.global, l.globalLimit, l.window, lo, n, last))
    && (who.Some? && who.value in r.accounts ==> Accounts(r.accounts[who.value], l.accountLimit, l.window, lo, n, last))
    && (who.Some? && who.value !in r.accounts ==> n == 0)
  }

  predicate Hit(c: Call, ok: bool, who: Option<Account>, lo: nat, hi: nat) {
    ok && (who == None || who == Some(c.account)) && lo <= c.at < hi
  }

  lemma RateStep(l: Limits, r: Ref, last: nat, c: Call, who: Option<Account>, lo: nat, n: nat)
    requires RateOk(l, r, who, lo, n, last) && last <= c.at && l.accountLimit > 0
    ensures var (r', ok) := RefAdmit(l, r, c.account, c.at);
            RateOk(l, r', who, lo, n + (if Hit(c, ok, who, lo, lo + l.window) then 1 else 0), c.at)
  {
    hide Accounts;
    if who == None {
      RollAccounts(r.global, l.globalLimit, l.window, lo, n, last, c.at);
    } else if who.value in r.accounts {
      RollAccounts(r.accounts[who.value], l.accountLimit, l.window, lo, n, last, c.at);
      SameAccounts(r.accounts[who.value], l.accountLimit, l.window, lo, n, last, c.at);
    } else {
      NewAccounts(l.accountLimit, l.window, lo, c.at);
    }
  }

  lemma SameAccounts(w: Window, limit: nat, span: nat, lo: nat, n: nat, last: nat, now: nat)
    requires Accounts(w, limit, span, lo, n, last) && last <= now
    ensures Accounts(w, limit, span, lo, n, now)
  {
  }

  lemma NewAccounts(limit: nat, span: nat, lo: nat, now: nat)
    requires limit > 0
    ensures Accounts(Window(now, 1), limit, span, lo, if lo <= now < lo + span then 1 else 0, now)
    ensures Roll(Window(now, 0), span, now) == Window(now, 0)
  {
  }

  lemma {:induction false} RefRate(l: Limits, r: Ref, last: nat, calls: seq<Call>, who: Option<Account>, lo: nat,
                                   n: nat)
    requires Timely(last, calls) && RateOk(l, r, who, lo, n, last) && l.accountLimit > 0
    ensures n + Admitted(calls, RefVerdicts(l, r, calls), who, lo, lo + l.window)
            <= 2 * if who == None then l.globalLimit else l.accountLimit
    decreases |calls|
  {
    hide RefAdmit;
    if calls != [] {
      var c := calls[0];
      var (r', ok) := RefAdmit(l, r, c.account, c.at);
      RateStep(l, r, last, c, who, lo, n);
      hide RateOk;
      RefRate(l, r', c.at, calls[1..], who, lo, n + if Hit(c, ok, who, lo, lo + l.window) then 1 else 0);
      assert RefVerdicts(l, r, calls)[1..] == RefVerdicts(l, r', calls[1..]);
    }
  }

  // ---- the same of the shipped limiter ----

  lemma GlobalStep(l: Limits, s: State, last: nat, c: Call, lo: nat, n: nat)
    requires l.capacity > 0 && s.global.started <= last <= c.at
    requires Accounts(s.global, l.globalLimit, l.window, lo, n, last)
    ensures var (s', ok) := Admit(l, s, c.account, c.at);
            && s'.global.started <= c.at
            && Accounts(s'.global, l.globalLimit, l.window, lo,
                        n + (if Hit(c, ok, None, lo, lo + l.window) then 1 else 0), c.at)
  {
    RollAccounts(s.global, l.globalLimit, l.window, lo, n, last, c.at);
    hide Accounts;
  }

  /** The global window is never forgotten, so it bounds the rate whatever the table holds. */
  lemma {:induction false} GlobalRate(l: Limits, s: State, last: nat, calls: seq<Call>, lo: nat, n: nat)
    requires l.capacity > 0 && Timely(last, calls) && s.global.started <= last
    requires Accounts(s.global, l.globalLimit, l.window, lo, n, last)
    ensures n + Admitted(calls, Verdicts(l, s, calls), None, lo, lo + l.window) <= 2 * l.globalLimit
    decreases |calls|
  {
    hide Admit;
    if calls != [] {
      var c := calls[0];
      var (s', ok) := Admit(l, s, c.account, c.at);
      GlobalStep(l, s, last, c, lo, n);
      GlobalRate(l, s', c.at, calls[1..], lo, n + if Hit(c, ok, None, lo, lo + l.window) then 1 else 0);
      assert Verdicts(l, s, calls)[1..] == Verdicts(l, s', calls[1..]);
    }
  }

  /**
   What a caller gets from the bounded limiter: over any span one window long, wherever
   it begins, at most two global budgets in all, and, where the table remembers enough,
   two account budgets per account.
   */
  lemma {:induction false} RateBound(l: Limits, start: nat, calls: seq<Call>, a: Account, lo: nat)
    requires 0 < l.capacity && Timely(start, calls)
    ensures Admitted(calls, Verdicts(l, Fresh(start), calls), None, lo, lo + l.window) <= 2 * l.globalLimit
    ensures Remembers(l) && l.accountLimit > 0 ==>
              Admitted(calls, Verdicts(l, Fresh(start), calls), Some(a), lo, lo + l.window) <= 2 * l.accountLimit
  {
    GlobalRate(l, Fresh(start), start, calls, lo, 0);
    if Remembers(l) && l.accountLimit > 0 {
      ForgettingIsInvisible(l, start, calls);
      RefRate(l, RefFresh(start), start, calls, Some(a), lo, 0);
    }
  }

  /** One more call adds its verdict, and its admission when it falls in the interval. */
  lemma {:induction false} OneMoreCall(l: Limits, s: State, calls: seq<Call>, c: Call, lo: nat, hi: nat)
    requires l.capacity > 0
    ensures After(l, s, calls + [c]) == Admit(l, After(l, s, calls), c.account, c.at).0
    ensures Admitted(calls + [c], Verdicts(l, s, calls + [c]), None, lo, hi) ==
            Admitted(calls, Verdicts(l, s, calls), None, lo, hi)
            + if Admit(l, After(l, s, calls), c.account, c.at).1 && lo <= c.at < hi then 1 else 0
    decreases |calls|
  {
    if calls == [] {
      assert [] + [c] == [c] && [c][1..] == [];
      assert Verdicts(l, s, [c])[1..] == [];
    } else {
      var s' := Admit(l, s, calls[0].account, calls[0].at).0;
      assert (calls + [c])[1..] == calls[1..] + [c];
      OneMoreCall(l, s', calls[1..], c, lo, hi);
      assert Verdicts(l, s, calls + [c])[1..] == Verdicts(l, s', calls[1..] + [c]);
      assert Verdicts(l, s, calls)[1..] == Verdicts(l, s', calls[1..]);
    }
  }
}
