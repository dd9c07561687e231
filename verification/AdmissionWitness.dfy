/**
 Limits under which the admission limiter does not answer as one that never forgets: for
 each, a run on which account 0 is pushed out while its window still counts.
 */
module AdmissionWitness {
  import opened Common
  import opened Lru
  import opened AdmissionLimiter
  import opened AdmissionRuns

  // ---- account limits up to the global one ----

  ghost predicate Tight(l: Limits) {
    && 0 < l.capacity
    && 0 < l.accountLimit <= l.globalLimit
    && l.accountLimit + 2 <= 2 * l.globalLimit
    && l.capacity + 2 <= 2 * l.globalLimit + l.globalLimit / l.accountLimit
    && (l.window >= 4 || (l.window >= 3 && l.accountLimit == 1))
  }

  /** Accounts that can spend a whole account budget each in one window. */
  function Spenders(l: Limits): nat
    requires l.accountLimit > 0
  {
    l.globalLimit / l.accountLimit
  }

  function Delay(l: Limits): nat {
    if l.accountLimit == 1 then 1 else 2
  }

  /** The spenders fill the first window late; one of them opens the second, in vain; then account 0 comes. */
  function Opening(l: Limits): seq<Call>
    requires l.accountLimit > 0
  {
    Fill(1, Spenders(l) + 1, Delay(l) + 1, l.accountLimit) + ([Call(1, l.window)] + [Call(0, l.window + Delay(l))])
  }

  /** The spenders are refused once more, and newcomers fill the second window and all but one place of the third. */
  function Crowd(l: Limits): seq<Call>
    requires l.accountLimit > 0 && l.globalLimit > 0
  {
    var q, g := Spenders(l), l.globalLimit;
    Burst(1, q + 1, l.window + Delay(l))
    + (Burst(q + 1, q + g, l.window + Delay(l)) + Burst(q + g, q + 2 * g - 1, 2 * l.window))
  }

  lemma SpendersFit(l: Limits)
    requires 0 < l.accountLimit <= l.globalLimit
    ensures Spenders(l) > 0 && l.accountLimit * Spenders(l) <= l.globalLimit
  {
  }

  /** The reference after the opening. */
  ghost predicate Opened(l: Limits, r: Ref)
    requires l.accountLimit > 0
  {
    && r.global == Window(l.window, 1)
    && 0 in r.accounts && r.accounts[0] == Window(l.window + Delay(l), 1)
    && Spent(l, r, 1, Spenders(l) + 1, Delay(l) + 1)
    && (forall a :: a in r.accounts ==> a < Spenders(l) + 1)
  }

  lemma {:induction false} OpenerRefused(l: Limits, r: Ref)
    requires Tight(l) && r.global.started == 0 && Spent(l, r, 1, Spenders(l) + 1, Delay(l) + 1)
    requires 0 !in r.accounts && forall a :: a in r.accounts ==> a < Spenders(l) + 1
    ensures Opened(l, RefAfter(l, r, [Call(1, l.window)] + [Call(0, l.window + Delay(l))]))
  {
    SpendersFit(l);
    RefOne(l, r, 1, l.window);
    var r1 := Ref(Window(l.window, 0), r.accounts);
    assert r.accounts[1 := r.accounts[1]] == r.accounts;
    assert RefAdmit(l, r, 1, l.window).0 == r1;
    RefOne(l, r1, 0, l.window + Delay(l));
    var r2 := RefAdmit(l, r1, 0, l.window + Delay(l)).0;
    hide RefAdmit;
    RefAfterSplit(l, r, [Call(1, l.window)], [Call(0, l.window + Delay(l))]);
    assert RefAfter(l, r, [Call(1, l.window)]) == r1;
    assert RefAfter(l, r1, [Call(0, l.window + Delay(l))]) == r2;
  }

  lemma {:induction false} AfterOpening(l: Limits)
    requires Tight(l)
    ensures Opened(l, RefAfter(l, RefFresh(0), Opening(l)))
  {
    SpendersFit(l);
    var fill := Fill(1, Spenders(l) + 1, Delay(l) + 1, l.accountLimit);
    RefFill(l, RefFresh(0), 1, Spenders(l) + 1, Delay(l) + 1);
    hide RefAfter;
    RefAfterSplit(l, RefFresh(0), fill, [Call(1, l.window)] + [Call(0, l.window + Delay(l))]);
    OpenerRefused(l, RefAfter(l, RefFresh(0), fill));
  }

  /** Spenders `1..n` refused once more, then newcomers up to `m` in this window and up to `k` in the next. */
  lemma {:induction false} RefusedThenBursts(l: Limits, r: Ref, n: nat, m: nat, k: nat, s: nat, t: nat, u: nat)
    requires l.accountLimit > 0 && l.window > 0 && 1 < n <= m < k
    requires Spent(l, r, 1, n, s) && (forall a :: a in r.accounts ==> a < n)
    requires r.global.started <= t < r.global.started + l.window <= u && s <= t < s + l.window
    requires r.global.count < l.globalLimit && r.global.count + (m - n) <= l.globalLimit && k - m <= l.globalLimit
    ensures
      var calls := Burst(1, n, t) + (Burst(n, m, t) + Burst(m, k, u));
      && RefAfter(l, r, calls).global == Window(u, k - m)
      && Extends(r.accounts, RefAfter(l, r, calls).accounts, n, k)
      && Touched(l, r, calls) == Span(1, k)
  {
    RefRefused(l, r, 1, n, s, t);
    assert RefAfter(l, r, Burst(1, n, t)) == r;
    hide RefAfter, Touched, Burst, Roll, Spent;
    RefAfterSplit(l, r, Burst(1, n, t), Burst(n, m, t) + Burst(m, k, u));
    RefTwoBursts(l, r, n, m, k, t, u);
    SpanJoin(1, n, k);
  }

  lemma {:induction false} AfterCrowd(l: Limits, r: Ref)
    requires Tight(l) && Opened(l, r)
    ensures
      var r' := RefAfter(l, r, Crowd(l));
      && r'.global == Window(2 * l.window, l.globalLimit - 1)
      && 0 in r'.accounts && r'.accounts[0] == Window(l.window + Delay(l), 1)
    ensures Touched(l, r, Crowd(l)) == Span(1, Spenders(l) + 2 * l.globalLimit - 1)
  {
    hide RefAfter, Touched, Spenders, Burst;
    var q, g, t := Spenders(l), l.globalLimit, l.window + Delay(l);
    SpendersFit(l);
    RefusedThenBursts(l, r, q + 1, q + g, q + 2 * g - 1, Delay(l) + 1, t, 2 * l.window);
  }

  /** So account 0 is gone, with its window still running. */
  lemma {:induction false} ForgottenAfterCrowd(l: Limits)
    requires Tight(l) && Agree(l, Fresh(0), RefFresh(0), Opening(l) + Crowd(l))
    ensures
      var s, r := After(l, Fresh(0), Opening(l) + Crowd(l)), RefAfter(l, RefFresh(0), Opening(l) + Crowd(l));
      && s.global == r.global == Window(2 * l.window, l.globalLimit - 1)
      && 0 !in s.accounts.table
      && 0 in r.accounts && r.accounts[0] == Window(l.window + Delay(l), 1)
  {
    var p, m := Opening(l), Crowd(l);
    assert Spenders(l) + 2 * l.globalLimit - 2 >= l.capacity > 0 && l.accountLimit > 0;
    hide After, RefAfter, Agree, Touched, Opening, Crowd, Opened, Spenders, Tight;
    AfterOpening(l);
    AfterCrowd(l, RefAfter(l, RefFresh(0), p));
    RefAfterSplit(l, RefFresh(0), p, m);
    Forgotten(l, p, m, Spenders(l) + 2 * l.globalLimit - 2);
  }

  lemma {:induction false} CrowdWithin(l: Limits)
    requires Tight(l)
    ensures Within(0, 2 * l.window, Opening(l) + Crowd(l))
  {
    hide Fill, Spenders, Burst, Within;
    var q, g, w, d := Spenders(l), l.globalLimit, l.window, Delay(l);
    RepeatWithin(d + 1, 1, w, 0);
    RepeatWithin(w, 0, w + d, 0);
    FillWithin(0, 1, q + 1, d + 1, l.accountLimit);
    Join(d + 1, w, w + d, [Call(1, w)], [Call(0, w + d)]);
    Join(0, d + 1, w + d, Fill(1, q + 1, d + 1, l.accountLimit), [Call(1, w)] + [Call(0, w + d)]);
    BurstWithin(w + d, 1, q + 1, w + d);
    BurstWithin(w + d, q + 1, q + g, w + d);
    BurstWithin(w + d, q + g, q + 2 * g - 1, 2 * w);
    var b, c := Burst(q + 1, q + g, w + d), Burst(q + g, q + 2 * g - 1, 2 * w);
    Join(w + d, w + d, 2 * w, b, c);
    Join(w + d, w + d, 2 * w, Burst(1, q + 1, w + d), b + c);
    Join(0, w + d, 2 * w, Opening(l), Crowd(l));
  }

  /** With an account limit of one the next call tells. */
  lemma {:induction false} TellsOne(l: Limits)
    requires Tight(l) && l.accountLimit == 1
    ensures !Exact(l)
  {
    var calls := Opening(l) + Crowd(l);
    CrowdWithin(l);
    if Agree(l, Fresh(0), RefFresh(0), calls) {
      ForgottenAfterCrowd(l);
      hide After, RefAfter, Agree, Opening, Crowd;
      StateOne(l, After(l, Fresh(0), calls), 0, 2 * l.window);
      RefOne(l, RefAfter(l, RefFresh(0), calls), 0, 2 * l.window);
    }
    LastTells(l, calls, Call(0, 2 * l.window));
  }

  /** Otherwise account 0 is let in again, with a window that begins later than it should, and calls on. */
  function Relapse(l: Limits): seq<Call>
    requires l.accountLimit > 0
  {
    [Call(0, 2 * l.window + 1)] + Repeat(0, 3 * l.window, l.accountLimit - 1)
  }

  lemma {:induction false} RelapseState(l: Limits, s: State)
    requires l.capacity > 0 && 2 <= l.accountLimit <= l.globalLimit && l.window >= 4
    requires s.global == Window(2 * l.window, l.globalLimit - 1) && 0 !in s.accounts.table
    ensures
      var s' := After(l, s, Relapse(l));
      && s'.global == Window(3 * l.window, l.accountLimit - 1)
      && 0 in s'.accounts.table && s'.accounts.table[0] == Window(2 * l.window + 1, l.accountLimit)
  {
    var w, n := l.window, l.accountLimit - 1;
    var s1 := Admit(l, s, 0, 2 * w + 1).0;
    StateOne(l, s, 0, 2 * w + 1);
    assert After(l, s, [Call(0, 2 * w + 1)]) == s1;
    assert s1.global == Window(2 * w, l.globalLimit);
    assert 0 in s1.accounts.table && s1.accounts.table[0] == Window(2 * w + 1, 1);
    hide After, Admit, Put;
    StateSplit(l, s, [Call(0, 2 * w + 1)], Repeat(0, 3 * w, n));
    StateRepeat(l, s1, 0, 3 * w, n);
  }

  lemma {:induction false} RelapseRef(l: Limits, r: Ref)
    requires 2 <= l.accountLimit <= l.globalLimit && l.window >= 4
    requires r.global == Window(2 * l.window, l.globalLimit - 1)
    requires 0 in r.accounts && r.accounts[0] == Window(l.window + 2, 1)
    ensures
      var r' := RefAfter(l, r, Relapse(l));
      && r'.global == Window(3 * l.window, l.accountLimit - 1)
      && 0 in r'.accounts && r'.accounts[0] == Window(3 * l.window, l.accountLimit - 1)
  {
    var w, n := l.window, l.accountLimit - 1;
    var r1 := RefAdmit(l, r, 0, 2 * w + 1).0;
    RefOne(l, r, 0, 2 * w + 1);
    assert RefAfter(l, r, [Call(0, 2 * w + 1)]) == r1;
    hide RefAfter, RefAdmit;
    RefAfterSplit(l, r, [Call(0, 2 * w + 1)], Repeat(0, 3 * w, n));
    RefRepeat(l, r1, 0, 3 * w, n);
  }

  lemma {:induction false} RelapseTells(l: Limits, s: State, r: Ref)
    requires l.capacity > 0 && 2 <= l.accountLimit <= l.globalLimit && l.window >= 4
    requires s.global == r.global == Window(2 * l.window, l.globalLimit - 1)
    requires 0 !in s.accounts.table && 0 in r.accounts && r.accounts[0] == Window(l.window + 2, 1)
    ensures Admit(l, After(l, s, Relapse(l)), 0, 3 * l.window).1
         != RefAdmit(l, RefAfter(l, r, Relapse(l)), 0, 3 * l.window).1
  {
    hide After, RefAfter, Relapse;
    RelapseState(l, s);
    RelapseRef(l, r);
    StateOne(l, After(l, s, Relapse(l)), 0, 3 * l.window);
    RefOne(l, RefAfter(l, r, Relapse(l)), 0, 3 * l.window);
  }

  lemma {:induction false} TellsMany(l: Limits)
    requires Tight(l) && l.accountLimit > 1
    ensures !Exact(l)
  {
    var w := l.window;
    var a, b := Opening(l) + Crowd(l), Relapse(l);
    hide After, RefAfter, Agree, Opening, Crowd, Within, Exact;
    CrowdWithin(l);
    RepeatWithin(2 * w, 0, 2 * w + 1, 0);
    RepeatWithin(2 * w + 1, 0, 3 * w, l.accountLimit - 1);
    Join(2 * w, 2 * w + 1, 3 * w, [Call(0, 2 * w + 1)], Repeat(0, 3 * w, l.accountLimit - 1));
    Join(0, 2 * w, 3 * w, a, b);
    if Agree(l, Fresh(0), RefFresh(0), a + b) {
      AgreeSplit(l, Fresh(0), RefFresh(0), a, b);
      ForgottenAfterCrowd(l);
      RelapseTells(l, After(l, Fresh(0), a), RefAfter(l, RefFresh(0), a));
      StateSplit(l, Fresh(0), a, b);
      RefAfterSplit(l, RefFresh(0), a, b);
    }
    LastTells(l, a + b, Call(0, 3 * w));
  }

  // ---- account limits above the global one ----

  ghost predicate Loose(l: Limits) {
    && 0 < l.capacity && l.window >= 4
    && l.globalLimit < l.accountLimit
    && l.accountLimit + 2 <= 2 * l.globalLimit
    && l.capacity + 2 <= 2 * l.globalLimit
  }

  /** Account 0 and newcomers fill the first window, and newcomers all but one place of the second. */
  function Newcomers(l: Limits): seq<Call>
    requires l.globalLimit > 0
  {
    Burst(1, l.globalLimit, 3) + Burst(l.globalLimit, 2 * l.globalLimit - 1, l.window)
  }

  lemma {:induction false} ForgottenAfterNewcomers(l: Limits)
    requires Loose(l) && Agree(l, Fresh(0), RefFresh(0), [Call(0, 3)] + Newcomers(l))
    ensures
      var calls := [Call(0, 3)] + Newcomers(l);
      var s, r := After(l, Fresh(0), calls), RefAfter(l, RefFresh(0), calls);
      && s.global == r.global == Window(l.window, l.globalLimit - 1)
      && 0 !in s.accounts.table
      && 0 in r.accounts && r.accounts[0] == Window(3, 1)
      && 2 * l.globalLimit - 1 !in r.accounts
  {
    var g, p, m := l.globalLimit, [Call(0, 3)], Newcomers(l);
    RefOne(l, RefFresh(0), 0, 3);
    RefAfterCall(l, RefFresh(0), 0, 3);
    var r := Ref(Window(0, 1), map[0 := Window(3, 1)]);
    assert RefAfter(l, RefFresh(0), p) == r;
    hide After, RefAfter, Agree, Touched, Burst, Roll, RefAdmit;
    RefTwoBursts(l, r, 1, g, 2 * g - 1, 3, l.window);
    RefAfterSplit(l, RefFresh(0), p, m);
    Forgotten(l, p, m, 2 * g - 2);
  }

  /**
   Back in, account 0 fills the second window; another newcomer opens the third, so
   that account 0 fills it a little later, in a window of its own that ran out for the
   one limiter and not for the other. What it has left in the fourth tells them apart.
   */
  function Return(l: Limits): seq<Call>
    requires 0 < l.globalLimit <= l.accountLimit
  {
    [Call(0, l.window + 2)] + ([Call(2 * l.globalLimit - 1, 2 * l.window)]
    + (Repeat(0, 2 * l.window + 1, l.globalLimit - 1) + Repeat(0, 3 * l.window, l.accountLimit - l.globalLimit + 1)))
  }

  function Entering(l: Limits): seq<Call>
    requires l.globalLimit > 0
  {
    [Call(0, l.window + 2)] + [Call(2 * l.globalLimit - 1, 2 * l.window)]
  }

  /** Account 0 is gone from the table, with its window still running. */
  ghost predicate Gone(l: Limits, s: State, r: Ref)
    requires l.globalLimit > 0
  {
    && Valid(s.accounts)
    && s.global == r.global == Window(l.window, l.globalLimit - 1)
    && 0 !in s.accounts.table && 0 in r.accounts && r.accounts[0] == Window(3, 1)
  }

  /** It is back, in windows of its own by the two limiters. */
  ghost predicate Back(l: Limits, s: State, r: Ref) {
    && s.global == r.global == Window(2 * l.window, 1)
    && 0 in s.accounts.table && s.accounts.table[0] == Window(l.window + 2, 1)
    && 0 in r.accounts && r.accounts[0] == Window(3, 2)
  }

  /** Account 0 is new to the one limiter and in its old window by the other; it fills the global window. */
  lemma FirstBack(l: Limits, s: State, r: Ref)
    requires Loose(l) && l.capacity > 1 && Gone(l, s, r)
    ensures
      var s', r' := Admit(l, s, 0, l.window + 2).0, RefAdmit(l, r, 0, l.window + 2).0;
      && s'.global == r'.global == Window(l.window, l.globalLimit)
      && Front(s'.accounts, 0) && s'.accounts.table[0] == Window(l.window + 2, 1)
      && r'.accounts == r.accounts[0 := Window(3, 2)]
  {
    var w := l.window;
    StateOne(l, s, 0, w + 2);
    RefOne(l, r, 0, w + 2);
    PutValid(s.accounts, 0, Window(w + 2, 1), l.capacity);
    hide Admit, RefAdmit;
  }

  /** The most recently used entry of a table. */
  ghost predicate Front(c: Cache<Account, Window>, x: Account) {
    c.order != [] && c.order[0] == x && x in c.table && (|c.order| > 1 ==> Last(c) != x)
  }

  /** A newcomer opens the third window, and account 0 stays in the table. */
  lemma ThenOther(l: Limits, s: State, r: Ref, z: Account)
    requires Loose(l) && l.capacity > 1 && Front(s.accounts, 0) && z != 0 && z !in r.accounts
    requires s.global == r.global == Window(l.window, l.globalLimit)
    requires Admit(l, s, z, 2 * l.window).1 == RefAdmit(l, r, z, 2 * l.window).1
    ensures
      var s', r' := Admit(l, s, z, 2 * l.window).0, RefAdmit(l, r, z, 2 * l.window).0;
      && s'.global == r'.global == Window(2 * l.window, 1)
      && 0 in s'.accounts.table && s'.accounts.table[0] == s.accounts.table[0]
      && r'.accounts == r.accounts[z := Window(2 * l.window, 1)]
  {
    StateOne(l, s, z, 2 * l.window);
    RefOne(l, r, z, 2 * l.window);
    KeepsFront(l, s.accounts, z, 0);
    hide Admit, RefAdmit, Front;
  }

  lemma {:induction false} TwoCalls(l: Limits, s: State, r: Ref, c: Call, d: Call)
    requires l.capacity > 0 && Agree(l, s, r, [c] + [d])
    ensures
      var s', r' := Admit(l, s, c.account, c.at).0, RefAdmit(l, r, c.account, c.at).0;
      && After(l, s, [c] + [d]) == Admit(l, s', d.account, d.at).0
      && RefAfter(l, r, [c] + [d]) == RefAdmit(l, r', d.account, d.at).0
      && Admit(l, s', d.account, d.at).1 == RefAdmit(l, r', d.account, d.at).1
  {
    hide Admit, RefAdmit, After, RefAfter, Agree;
    var s', r' := Admit(l, s, c.account, c.at).0, RefAdmit(l, r, c.account, c.at).0;
    AfterCall(l, s, c.account, c.at);
    RefAfterCall(l, r, c.account, c.at);
    AfterCall(l, s', d.account, d.at);
    RefAfterCall(l, r', d.account, d.at);
    AgreeSplit(l, s, r, [c], [d]);
    AgreeOne(l, s', r', [d]);
    StateSplit(l, s, [c], [d]);
    RefAfterSplit(l, r, [c], [d]);
  }

  lemma {:induction false} BackIn(l: Limits, s: State, r: Ref)
    requires Loose(l) && l.capacity > 1 && Gone(l, s, r) && 2 * l.globalLimit - 1 !in r.accounts
    requires Agree(l, s, r, Entering(l))
    ensures Back(l, After(l, s, Entering(l)), RefAfter(l, r, Entering(l)))
  {
    var w, z := l.window, 2 * l.globalLimit - 1;
    hide Admit, RefAdmit, Front, After, RefAfter, Agree;
    FirstBack(l, s, r);
    TwoCalls(l, s, r, Call(0, w + 2), Call(z, 2 * w));
    ThenOther(l, Admit(l, s, 0, w + 2).0, RefAdmit(l, r, 0, w + 2).0, z);
  }

  lemma KeepsFront(l: Limits, c: Cache<Account, Window>, a: Account, x: Account)
    requires l.capacity > 1 && Front(c, x) && a != x
    ensures forall w :: x in Put(c, a, w, l.capacity).table && Put(c, a, w, l.capacity).table[x] == c.table[x]
  {
  }

  /** What account 0 has left after filling the third window, by each limiter. */
  lemma {:induction false} LeftInState(l: Limits, s: State)
    requires Loose(l) && s.global == Window(2 * l.window, 1)
    requires 0 in s.accounts.table && s.accounts.table[0] == Window(l.window + 2, 1)
    ensures
      var calls := Repeat(0, 2 * l.window + 1, l.globalLimit - 1)
                   + Repeat(0, 3 * l.window, l.accountLimit - l.globalLimit + 1);
      && After(l, s, calls).global == Window(3 * l.window, l.accountLimit - l.globalLimit + 1)
      && 0 in After(l, s, calls).accounts.table
      && After(l, s, calls).accounts.table[0] == Window(3 * l.window, l.accountLimit - l.globalLimit + 1)
  {
    var w, g, n := l.window, l.globalLimit, l.accountLimit - l.globalLimit + 1;
    hide After, Repeat, Valid;
    StateRepeat(l, s, 0, 2 * w + 1, g - 1);
    StateSplit(l, s, Repeat(0, 2 * w + 1, g - 1), Repeat(0, 3 * w, n));
    var s1 := After(l, s, Repeat(0, 2 * w + 1, g - 1));
    assert s1.accounts.table[0] == Window(w + 2, g);
    StateRepeat(l, s1, 0, 3 * w, n);
  }

  lemma {:induction false} LeftInRef(l: Limits, r: Ref)
    requires Loose(l) && r.global == Window(2 * l.window, 1)
    requires 0 in r.accounts && r.accounts[0] == Window(3, 2)
    ensures
      var calls := Repeat(0, 2 * l.window + 1, l.globalLimit - 1)
                   + Repeat(0, 3 * l.window, l.accountLimit - l.globalLimit + 1);
      && RefAfter(l, r, calls).global == Window(3 * l.window, l.accountLimit - l.globalLimit + 1)
      && 0 in RefAfter(l, r, calls).accounts
      && RefAfter(l, r, calls).accounts[0] == Window(2 * l.window + 1, l.accountLimit)
  {
    var w, g, n := l.window, l.globalLimit, l.accountLimit - l.globalLimit + 1;
    hide RefAfter, Repeat;
    RefRepeat(l, r, 0, 2 * w + 1, g - 1);
    RefAfterSplit(l, r, Repeat(0, 2 * w + 1, g - 1), Repeat(0, 3 * w, n));
    var r1 := RefAfter(l, r, Repeat(0, 2 * w + 1, g - 1));
    assert r1.accounts[0] == Window(2 * w + 1, g - 1);
    RefRepeat(l, r1, 0, 3 * w, n);
  }

  lemma {:induction false} ReturnTells(l: Limits, s: State, r: Ref)
    requires Loose(l) && l.capacity > 1 && Gone(l, s, r)
    requires 2 * l.globalLimit - 1 !in r.accounts && Agree(l, s, r, Return(l))
    ensures Admit(l, After(l, s, Return(l)), 0, 3 * l.window).1
         != RefAdmit(l, RefAfter(l, r, Return(l)), 0, 3 * l.window).1
  {
    var w, g := l.window, l.globalLimit;
    var a := Entering(l);
    var b := Repeat(0, 2 * w + 1, g - 1) + Repeat(0, 3 * w, l.accountLimit - g + 1);
    assert Return(l) == a + b;
    hide After, RefAfter, Agree, Return, Repeat, Valid, Admit, RefAdmit, Roll;
    AgreeSplit(l, s, r, a, b);
    BackIn(l, s, r);
    LeftInState(l, After(l, s, a));
    LeftInRef(l, RefAfter(l, r, a));
    StateSplit(l, s, a, b);
    RefAfterSplit(l, r, a, b);
    LeftTells(l, After(l, s, a + b), RefAfter(l, r, a + b));
  }

  lemma LeftTells(l: Limits, s: State, r: Ref)
    requires Loose(l) && s.global == r.global == Window(3 * l.window, l.accountLimit - l.globalLimit + 1)
    requires 0 in s.accounts.table
    requires s.accounts.table[0] == Window(3 * l.window, l.accountLimit - l.globalLimit + 1)
    requires 0 in r.accounts && r.accounts[0] == Window(2 * l.window + 1, l.accountLimit)
    ensures Admit(l, s, 0, 3 * l.window).1 && !RefAdmit(l, r, 0, 3 * l.window).1
  {
    hide Put;
  }

  lemma {:induction false} ReturnWithin(l: Limits)
    requires Loose(l)
    ensures Within(0, 3 * l.window, ([Call(0, 3)] + Newcomers(l)) + Return(l))
  {
    hide Burst, Repeat, Within;
    var w, g, n := l.window, l.globalLimit, l.accountLimit - l.globalLimit + 1;
    BurstWithin(3, 1, g, 3);
    BurstWithin(3, g, 2 * g - 1, w);
    Join(3, 3, w, Burst(1, g, 3), Burst(g, 2 * g - 1, w));
    RepeatWithin(0, 0, 3, 0);
    Join(0, 3, w, [Call(0, 3)], Newcomers(l));
    RepeatWithin(2 * w, 0, 2 * w + 1, g - 1);
    RepeatWithin(2 * w + 1, 0, 3 * w, n);
    var c := Repeat(0, 2 * w + 1, g - 1) + Repeat(0, 3 * w, n);
    Join(2 * w, 2 * w + 1, 3 * w, Repeat(0, 2 * w + 1, g - 1), Repeat(0, 3 * w, n));
    RepeatWithin(w + 2, 2 * g - 1, 2 * w, 0);
    Join(w + 2, 2 * w, 3 * w, [Call(2 * g - 1, 2 * w)], c);
    RepeatWithin(w, 0, w + 2, 0);
    Join(w, w + 2, 3 * w, [Call(0, w + 2)], [Call(2 * g - 1, 2 * w)] + c);
    Join(0, w, 3 * w, [Call(0, 3)] + Newcomers(l), Return(l));
  }

  lemma {:induction false} TellsLoose(l: Limits)
    requires Loose(l) && l.capacity > 1
    ensures !Exact(l)
  {
    var a, b := [Call(0, 3)] + Newcomers(l), Return(l);
    ReturnWithin(l);
    TableValid(l, a);
    hide After, RefAfter, Agree, Newcomers, Return, Within, Exact, Valid;
    if Agree(l, Fresh(0), RefFresh(0), a + b) {
      AgreeSplit(l, Fresh(0), RefFresh(0), a, b);
      ForgottenAfterNewcomers(l);
      ReturnTells(l, After(l, Fresh(0), a), RefAfter(l, RefFresh(0), a));
      StateSplit(l, Fresh(0), a, b);
      RefAfterSplit(l, RefFresh(0), a, b);
    }
    LastTells(l, a + b, Call(0, 3 * l.window));
  }

  // ---- a table of one entry ----

  /** Account 0 fills the first window; account 1, opening the second, takes its place. */
  lemma {:induction false} ForgottenAfterOne(l: Limits)
    requires Loose(l) && l.capacity == 1
    requires Agree(l, Fresh(0), RefFresh(0), Repeat(0, 1, l.globalLimit) + [Call(1, l.window)])
    ensures
      var calls := Repeat(0, 1, l.globalLimit) + [Call(1, l.window)];
      var s, r := After(l, Fresh(0), calls), RefAfter(l, RefFresh(0), calls);
      && s.global == r.global == Window(l.window, 1)
      && 0 !in s.accounts.table
      && 0 in r.accounts && r.accounts[0] == Window(1, l.globalLimit)
  {
    var g, p, m := l.globalLimit, Repeat(0, 1, l.globalLimit), [Call(1, l.window)];
    RefRepeat(l, RefFresh(0), 0, 1, g);
    var r := RefAfter(l, RefFresh(0), p);
    assert r == Ref(Window(0, g), map[0 := Window(1, g)]);
    RefOne(l, r, 1, l.window);
    var r1 := RefAdmit(l, r, 1, l.window).0;
    hide After, RefAfter, Agree, Touched, Repeat, RefAdmit;
    RefAfterCall(l, r, 1, l.window);
    assert Touched(l, r, m) == {1} == Span(1, 2);
    RefAfterSplit(l, RefFresh(0), p, m);
    Forgotten(l, p, m, 1);
  }

  lemma {:induction false} TellsSingle(l: Limits)
    requires Loose(l) && l.capacity == 1
    ensures !Exact(l)
  {
    var w, g, n := l.window, l.globalLimit, l.accountLimit - l.globalLimit;
    var a, b := Repeat(0, 1, g) + [Call(1, w)], Repeat(0, w, n);
    hide After, RefAfter, Agree, Within, Exact, Valid, Repeat;
    RepeatWithin(0, 0, 1, g);
    RepeatWithin(1, 1, w, 0);
    RepeatWithin(w, 0, w, n);
    Join(0, 1, w, Repeat(0, 1, g), [Call(1, w)]);
    Join(0, w, w, a, b);
    if Agree(l, Fresh(0), RefFresh(0), a + b) {
      AgreeSplit(l, Fresh(0), RefFresh(0), a, b);
      ForgottenAfterOne(l);
      StateSplit(l, Fresh(0), a, b);
      RefAfterSplit(l, RefFresh(0), a, b);
      SingleTells(l, After(l, Fresh(0), a), RefAfter(l, RefFresh(0), a));
    }
    LastTells(l, a + b, Call(0, w));
  }

  lemma {:induction false} SingleTells(l: Limits, s: State, r: Ref)
    requires Loose(l) && s.global == r.global == Window(l.window, 1)
    requires 0 !in s.accounts.table && 0 in r.accounts && r.accounts[0] == Window(1, l.globalLimit)
    ensures
      var calls := Repeat(0, l.window, l.accountLimit - l.globalLimit);
      Admit(l, After(l, s, calls), 0, l.window).1 != RefAdmit(l, RefAfter(l, r, calls), 0, l.window).1
  {
    var w, n := l.window, l.accountLimit - l.globalLimit;
    hide After, RefAfter, Repeat;
    StateRepeat(l, s, 0, w, n);
    RefRepeat(l, r, 0, w, n);
    StateOne(l, After(l, s, Repeat(0, w, n)), 0, w);
    RefOne(l, RefAfter(l, r, Repeat(0, w, n)), 0, w);
  }

  // ---- an account limit of zero ----

  /** Accounts `lo..hi`, one window apart. */
  function Stairs(l: Limits, lo: nat, hi: nat, t: nat): seq<Call>
    requires lo <= hi
    decreases hi - lo
  {
    if lo == hi then [] else [Call(lo, t)] + Stairs(l, lo + 1, hi, t + l.window)
  }

  function Top(l: Limits, lo: nat, hi: nat, t: nat): (end: nat)
    requires lo <= hi
    ensures t <= end
    decreases hi - lo
  {
    if lo == hi then t else Top(l, lo + 1, hi, t + l.window)
  }

  lemma {:induction false} StairsWithin(l: Limits, lo: nat, hi: nat, t: nat)
    requires lo <= hi
    ensures Within(t, Top(l, lo, hi, t), Stairs(l, lo, hi, t))
    decreases hi - lo
  {
    hide Within;
    if lo < hi {
      StairsWithin(l, lo + 1, hi, t + l.window);
      RepeatWithin(t, lo, t, 0);
      WithinFrom(t, t + l.window, Top(l, lo + 1, hi, t + l.window), Stairs(l, lo + 1, hi, t + l.window));
      Join(t, t, Top(l, lo, hi, t), [Call(lo, t)], Stairs(l, lo + 1, hi, t + l.window));
    } else {
      RepeatWithin(t, lo, t, 0);
      assert Repeat(lo, t, 0) == [];
    }
  }

  lemma WithinFrom(from: nat, lo: nat, hi: nat, calls: seq<Call>)
    requires Within(lo, hi, calls) && from <= lo
    ensures Within(from, hi, calls)
  {
  }

  /** Each newcomer is let in once, and every one of them is the most recent. */
  lemma {:induction false} RefStairs(l: Limits, r: Ref, lo: nat, hi: nat, t: nat)
    requires l.globalLimit > 0 && lo <= hi && (r.global.started + l.window <= t || r.global.count == 0)
    requires r.global.started <= t && forall a :: a in r.accounts ==> a < lo
    ensures
      var r' := RefAfter(l, r, Stairs(l, lo, hi, t));
      && (r'.global.started + l.window <= Top(l, lo, hi, t) || r'.global.count == 0)
      && r'.global.started <= Top(l, lo, hi, t)
      && (forall a :: a in r.accounts ==> a in r'.accounts)
    ensures Touched(l, r, Stairs(l, lo, hi, t)) == Span(lo, hi)
    decreases hi - lo
  {
    if lo < hi {
      var r' := RefAdmit(l, r, lo, t).0;
      assert r'.accounts == r.accounts[lo := Window(t, 1)] && r'.global.started <= t;
      var c := Stairs(l, lo, hi, t);
      assert c[0] == Call(lo, t) && c[1..] == Stairs(l, lo + 1, hi, t + l.window);
      RefStairs(l, r', lo + 1, hi, t + l.window);
    }
  }

  /** Account 0, let in once, is let in again when the table has forgotten it, and never again by the other. */
  lemma {:induction false} TellsZero(l: Limits)
    requires l.capacity > 0 && l.accountLimit == 0 && l.globalLimit > 0
    ensures !Exact(l)
  {
    var c, w := l.capacity, l.window;
    var p, m, end := [Call(0, 0)], Stairs(l, 1, c + 1, w), Top(l, 1, c + 1, w);
    var r := RefAdmit(l, RefFresh(0), 0, 0).0;
    assert RefAfter(l, RefFresh(0), p) == r && r == Ref(Window(0, 1), map[0 := Window(0, 1)]);
    StairsWithin(l, 1, c + 1, w);
    WithinFrom(0, w, end, m);
    RepeatWithin(0, 0, 0, 0);
    Join(0, 0, end, p, m);
    hide After, RefAfter, Agree, Touched, Stairs, Top, Within, Exact;
    RefStairs(l, r, 1, c + 1, w);
    RefAfterSplit(l, RefFresh(0), p, m);
    if Agree(l, Fresh(0), RefFresh(0), p + m) {
      Forgotten(l, p, m, c);
      ZeroTells(l, After(l, Fresh(0), p + m), RefAfter(l, RefFresh(0), p + m), end);
    }
    LastTells(l, p + m, Call(0, end));
  }

  lemma ZeroTells(l: Limits, s: State, r: Ref, t: nat)
    requires l.capacity > 0 && l.accountLimit == 0 && l.globalLimit > 0
    requires s.global == r.global && (r.global.started + l.window <= t || r.global.count == 0)
    requires 0 !in s.accounts.table && 0 in r.accounts
    ensures Admit(l, s, 0, t).1 != RefAdmit(l, r, 0, t).1
  {
  }

  /** Every set of limits that remembers too little has a run that tells. */
  lemma SomeRunTells(l: Limits)
    requires 0 < l.capacity && 0 < l.globalLimit && (l.window >= 4 || (l.window >= 3 && l.accountLimit <= 1))
    requires l.accountLimit > 0 ==>
               && l.accountLimit + 2 <= 2 * l.globalLimit
               && l.capacity + 2 <= 2 * l.globalLimit + l.globalLimit / l.accountLimit
    ensures !Exact(l)
  {
    hide Exact;
    if l.accountLimit == 0 {
      TellsZero(l);
    } else if l.accountLimit == 1 {
      TellsOne(l);
    } else if l.accountLimit <= l.globalLimit {
      TellsMany(l);
    } else if l.capacity > 1 {
      TellsLoose(l);
    } else {
      TellsSingle(l);
    }
  }
}
