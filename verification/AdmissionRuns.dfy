/**
 Runs of the admission limiter beside the one that never forgets: what a run pushes out of
 the table, and where bursts and repeated calls lead.
 */
module AdmissionRuns {
  import opened Common
  import opened Lru
  import opened AdmissionLimiter

  // ---- what is pushed out of the table ----

  /**
   Stamps by order of use: every key of the table has one, and the table holds, of all
   stamped accounts, those stamped last.
   */
  ghost predicate Tracks(l: Limits, c: Cache<Account, Window>, stamp: map<Account, nat>, n: nat) {
    && Valid(c)
    && |c.order| <= l.capacity
    && Recent(c.order, stamp)
    && (forall k :: k in stamp ==> stamp[k] < n)
    && (forall k, j :: k in c.table && j in stamp && k in stamp && stamp[j] > stamp[k] ==> j in c.table)
  }

  lemma InOrder(c: Cache<Account, Window>, stamp: map<Account, nat>, k: Account)
    requires Valid(c) && Recent(c.order, stamp) && k in c.table
    ensures k in stamp && c.order != [] && Last(c) in stamp && stamp[k] >= stamp[Last(c)]
  {
    TailLeastRecent(c, stamp, k);
  }

  lemma PutKeys(c: Cache<Account, Window>, a: Account, w: Window, capacity: nat)
    ensures Put(c, a, w, capacity).table.Keys
         == (if Evicts(c, a, capacity) then c.table.Keys - {Last(c)} else c.table.Keys) + {a}
  {
  }

  lemma TouchTracks(l: Limits, c: Cache<Account, Window>, stamp: map<Account, nat>, n: nat, a: Account, w: Window)
    requires Tracks(l, c, stamp, n) && l.capacity > 0
    ensures Tracks(l, Put(c, a, w, l.capacity), stamp[a := n], n + 1)
  {
    assert forall i :: 0 <= i < |c.order| ==> stamp[c.order[i]] <= n;
    hide Put, Valid, Recent, Evicts;
    PutValid(c, a, w, l.capacity);
    PutRecent(c, stamp, a, w, l.capacity, n);
    PutKeys(c, a, w, l.capacity);
    var p, stamp' := Put(c, a, w, l.capacity), stamp[a := n];
    forall k, j | k in p.table && j in stamp' && k in stamp' && stamp'[j] > stamp'[k] ensures j in p.table {
      if j != a {
        InOrder(c, stamp, k);
      }
    }
  }

  /** A call that the global window does not refuse moves its account to the front. */
  lemma AdmitPuts(l: Limits, s: State, a: Account, now: nat) returns (w: Window)
    requires l.capacity > 0 && Roll(s.global, l.window, now).count < l.globalLimit
    ensures Admit(l, s, a, now).0.accounts == Put(s.accounts, a, w, l.capacity)
    ensures Admit(l, s, a, now).0.global ==
            var g := Roll(s.global, l.window, now); if Admit(l, s, a, now).1 then g.(count := g.count + 1) else g
  {
    hide Put;
    w := Window(now, 1);
    if a in s.accounts.table {
      w := Roll(s.accounts.table[a], l.window, now);
      if w.count < l.accountLimit {
        w := w.(count := w.count + 1);
      }
    }
  }

  /** Whom a call moves to the front: its account, unless the global window refuses it. */
  function TouchedBy(l: Limits, g: Window, c: Call): set<Account> {
    if Roll(g, l.window, c.at).count < l.globalLimit then {c.account} else {}
  }

  function Touched(l: Limits, r: Ref, calls: seq<Call>): set<Account>
    decreases |calls|
  {
    if calls == [] then {}
    else TouchedBy(l, r.global, calls[0]) + Touched(l, RefAdmit(l, r, calls[0].account, calls[0].at).0, calls[1..])
  }

  function Stamped(l: Limits, g: Window, stamp: map<Account, nat>, n: nat, c: Call): map<Account, nat> {
    if TouchedBy(l, g, c) == {} then stamp else stamp[c.account := n]
  }

  lemma AdmitTracks(l: Limits, s: State, stamp: map<Account, nat>, n: nat, c: Call)
    requires l.capacity > 0 && Tracks(l, s.accounts, stamp, n)
    ensures Tracks(l, Admit(l, s, c.account, c.at).0.accounts, Stamped(l, s.global, stamp, n, c), n + 1)
  {
    if Roll(s.global, l.window, c.at).count < l.globalLimit {
      var w := AdmitPuts(l, s, c.account, c.at);
      hide Admit, Put, Tracks;
      TouchTracks(l, s.accounts, stamp, n, c.account, w);
      assert c.account in TouchedBy(l, s.global, c);
    }
  }

  /** The two limiters agree on a run from states with equal global windows. */
  ghost predicate Agree(l: Limits, s: State, r: Ref, calls: seq<Call>)
    requires l.capacity > 0
  {
    s.global == r.global && Verdicts(l, s, calls) == RefVerdicts(l, r, calls)
  }

  lemma AgreeOne(l: Limits, s: State, r: Ref, calls: seq<Call>)
    requires l.capacity > 0 && calls != [] && Agree(l, s, r, calls)
    ensures
      var c := calls[0];
      && s.global == r.global
      && Admit(l, s, c.account, c.at).1 == RefAdmit(l, r, c.account, c.at).1
      && Agree(l, Admit(l, s, c.account, c.at).0, RefAdmit(l, r, c.account, c.at).0, calls[1..])
  {
    var c := calls[0];
    var v, u := Verdicts(l, s, calls), RefVerdicts(l, r, calls);
    assert v[0] == Admit(l, s, c.account, c.at).1 && u[0] == RefAdmit(l, r, c.account, c.at).1;
    assert v[1..] == Verdicts(l, Admit(l, s, c.account, c.at).0, calls[1..]);
    assert u[1..] == RefVerdicts(l, RefAdmit(l, r, c.account, c.at).0, calls[1..]);
    hide Put;
  }

  lemma {:induction false} AgreeSplit(l: Limits, s: State, r: Ref, a: seq<Call>, b: seq<Call>)
    requires l.capacity > 0 && Agree(l, s, r, a + b)
    ensures Agree(l, s, r, a) && Agree(l, After(l, s, a), RefAfter(l, r, a), b)
    decreases |a|
  {
    if a == [] {
      assert a + b == b;
    } else {
      assert (a + b)[1..] == a[1..] + b && (a + b)[0] == a[0];
      AgreeOne(l, s, r, a + b);
      hide Admit, RefAdmit;
      AgreeSplit(l, Admit(l, s, a[0].account, a[0].at).0, RefAdmit(l, r, a[0].account, a[0].at).0, a[1..], b);
    }
  }

  lemma {:induction false} Stamps(l: Limits, s: State, stamp: map<Account, nat>, n: nat, calls: seq<Call>)
    returns (stamp': map<Account, nat>, n': nat)
    requires l.capacity > 0 && Tracks(l, s.accounts, stamp, n)
    ensures Tracks(l, After(l, s, calls).accounts, stamp', n')
    decreases |calls|
  {
    hide Tracks, Admit, Stamped;
    stamp', n' := stamp, n;
    if calls != [] {
      var c := calls[0];
      AdmitTracks(l, s, stamp, n, c);
      stamp', n' := Stamps(l, Admit(l, s, c.account, c.at).0, Stamped(l, s.global, stamp, n, c), n + 1, calls[1..]);
    }
  }

  ghost predicate Later(stamp: map<Account, nat>, seen: set<Account>, x: Account) {
    forall k :: k in seen ==> k in stamp && k != x && (x in stamp ==> stamp[k] > stamp[x])
  }

  lemma SeenLater(l: Limits, s: State, stamp: map<Account, nat>, n: nat, c: Call, seen: set<Account>, x: Account)
    requires Tracks(l, s.accounts, stamp, n) && Later(stamp, seen, x) && x !in TouchedBy(l, s.global, c)
    ensures Later(Stamped(l, s.global, stamp, n, c), seen + TouchedBy(l, s.global, c), x)
  {
  }

  lemma NoRoomLeft(l: Limits, c: Cache<Account, Window>, stamp: map<Account, nat>, n: nat, seen: set<Account>,
                   x: Account)
    requires Tracks(l, c, stamp, n) && Later(stamp, seen, x) && |seen| >= l.capacity
    ensures x !in c.table
  {
    if x in c.table {
      InOrder(c, stamp, x);
      assert seen + {x} <= c.table.Keys;
      CardinalityMono(seen + {x}, c.table.Keys);
      Size(c);
    }
  }

  /** An account is gone once as many others have been used as the table has room for. */
  lemma {:induction false} PushedOutFrom(l: Limits, s: State, r: Ref, stamp: map<Account, nat>, n: nat,
                                         calls: seq<Call>, seen: set<Account>, x: Account)
    requires l.capacity > 0 && Tracks(l, s.accounts, stamp, n) && Later(stamp, seen, x) && Agree(l, s, r, calls)
    requires x !in Touched(l, r, calls) && |seen + Touched(l, r, calls)| >= l.capacity
    ensures x !in After(l, s, calls).accounts.table
    decreases |calls|
  {
    hide Tracks, Later, Admit, RefAdmit, Agree, Stamped, TouchedBy;
    if calls == [] {
      assert seen + {} == seen;
      NoRoomLeft(l, s.accounts, stamp, n, seen, x);
    } else {
      var c := calls[0];
      var r' := RefAdmit(l, r, c.account, c.at).0;
      AgreeOne(l, s, r, calls);
      AdmitTracks(l, s, stamp, n, c);
      SeenLater(l, s, stamp, n, c, seen, x);
      assert (seen + TouchedBy(l, r.global, c)) + Touched(l, r', calls[1..]) == seen + Touched(l, r, calls);
      PushedOutFrom(l, Admit(l, s, c.account, c.at).0, r', Stamped(l, s.global, stamp, n, c), n + 1, calls[1..],
                    seen + TouchedBy(l, r.global, c), x);
    }
  }

  lemma {:induction false} PushedOut(l: Limits, start: nat, before: seq<Call>, r: Ref, calls: seq<Call>, x: Account)
    requires l.capacity > 0 && Agree(l, After(l, Fresh(start), before), r, calls)
    requires x !in Touched(l, r, calls) && |Touched(l, r, calls)| >= l.capacity
    ensures x !in After(l, After(l, Fresh(start), before), calls).accounts.table
  {
    assert Tracks(l, Fresh(start).accounts, map[], 0);
    var stamp, n := Stamps(l, Fresh(start), map[], 0, before);
    hide Tracks, Agree;
    assert {} + Touched(l, r, calls) == Touched(l, r, calls);
    PushedOutFrom(l, After(l, Fresh(start), before), r, stamp, n, calls, {}, x);
  }

  // ---- entries under repeated calls ----

  /** The window a call of `a` at `now` is counted in. */
  function Entry(l: Limits, table: map<Account, Window>, a: Account, now: nat): Window {
    if a in table then Roll(table[a], l.window, now) else Window(now, 0)
  }

  function Plus(w: Window, n: nat): Window {
    w.(count := w.count + n)
  }

  /** With an account limit above zero a new account is one whose window is empty. */
  lemma RefOne(l: Limits, r: Ref, a: Account, now: nat)
    requires l.accountLimit > 0 && Roll(r.global, l.window, now).count < l.globalLimit
    ensures
      var g, e := Roll(r.global, l.window, now), Entry(l, r.accounts, a, now);
      RefAdmit(l, r, a, now) ==
      if e.count < l.accountLimit then (Ref(Plus(g, 1), r.accounts[a := Plus(e, 1)]), true)
      else (Ref(g, r.accounts[a := e]), false)
  {
  }

  lemma StateOne(l: Limits, s: State, a: Account, now: nat)
    requires l.accountLimit > 0 && l.capacity > 0 && Roll(s.global, l.window, now).count < l.globalLimit
    ensures
      var g, e := Roll(s.global, l.window, now), Entry(l, s.accounts.table, a, now);
      Admit(l, s, a, now) ==
      if e.count < l.accountLimit then (State(Plus(g, 1), Put(s.accounts, a, Plus(e, 1), l.capacity)), true)
      else (State(g, Put(s.accounts, a, e, l.capacity)), false)
  {
    hide Put;
  }

  function Repeat(a: Account, t: nat, n: nat): (calls: seq<Call>)
    ensures |calls| == n && forall i :: 0 <= i < n ==> calls[i] == Call(a, t)
  {
    if n == 0 then [] else [Call(a, t)] + Repeat(a, t, n - 1)
  }

  lemma RepeatMore(a: Account, t: nat, n: nat)
    requires n > 0
    ensures Repeat(a, t, n) != [] && Repeat(a, t, n)[0] == Call(a, t) && Repeat(a, t, n)[1..] == Repeat(a, t, n - 1)
  {
  }

  /** Counting on in a running window. */
  lemma EntryAgain(l: Limits, w: Window, now: nat, n: nat)
    requires l.window > 0
    ensures Roll(Plus(Roll(w, l.window, now), n), l.window, now) == Plus(Roll(w, l.window, now), n)
    ensures Roll(Plus(Window(now, 0), n), l.window, now) == Plus(Window(now, 0), n)
  {
  }

  lemma {:induction false} RefRepeat(l: Limits, r: Ref, a: Account, t: nat, n: nat)
    requires l.accountLimit > 0 && l.window > 0 && n > 0
    requires Roll(r.global, l.window, t).count + n <= l.globalLimit
    requires Entry(l, r.accounts, a, t).count + n <= l.accountLimit
    ensures RefAfter(l, r, Repeat(a, t, n)) ==
            Ref(Plus(Roll(r.global, l.window, t), n), r.accounts[a := Plus(Entry(l, r.accounts, a, t), n)])
    decreases n
  {
    var g, e := Roll(r.global, l.window, t), Entry(l, r.accounts, a, t);
    RefOne(l, r, a, t);
    RepeatMore(a, t, n);
    EntryAgain(l, r.global, t, 1);
    if a in r.accounts {
      EntryAgain(l, r.accounts[a], t, 1);
    } else {
      EntryAgain(l, e, t, 1);
    }
    hide RefAdmit, Roll;
    var r' := Ref(Plus(g, 1), r.accounts[a := Plus(e, 1)]);
    assert Entry(l, r'.accounts, a, t) == Plus(e, 1);
    if n > 1 {
      RefRepeat(l, r', a, t, n - 1);
      assert r'.accounts[a := Plus(Plus(e, 1), n - 1)] == r.accounts[a := Plus(e, n)];
    }
  }

  lemma {:induction false} StateRepeat(l: Limits, s: State, a: Account, t: nat, n: nat)
    requires l.accountLimit > 0 && l.window > 0 && n > 0 && l.capacity > 0
    requires Roll(s.global, l.window, t).count + n <= l.globalLimit
    requires Entry(l, s.accounts.table, a, t).count + n <= l.accountLimit
    ensures
      var s' := After(l, s, Repeat(a, t, n));
      && s'.global == Plus(Roll(s.global, l.window, t), n)
      && s'.accounts.order != [] && s'.accounts.order[0] == a
      && a in s'.accounts.table && s'.accounts.table[a] == Plus(Entry(l, s.accounts.table, a, t), n)
    decreases n
  {
    var g, e := Roll(s.global, l.window, t), Entry(l, s.accounts.table, a, t);
    StateOne(l, s, a, t);
    RepeatMore(a, t, n);
    EntryAgain(l, s.global, t, 1);
    if a in s.accounts.table {
      EntryAgain(l, s.accounts.table[a], t, 1);
    } else {
      EntryAgain(l, e, t, 1);
    }
    var s' := State(Plus(g, 1), Put(s.accounts, a, Plus(e, 1), l.capacity));
    assert s'.accounts.order[0] == a && a in s'.accounts.table && s'.accounts.table[a] == Plus(e, 1);
    hide Admit, Roll, Put;
    assert Entry(l, s'.accounts.table, a, t) == Plus(e, 1);
    if n > 1 {
      StateRepeat(l, s', a, t, n - 1);
    }
  }

  // ---- bursts ----

  /** Accounts `lo..hi`, each calling once at time `t`. */
  function Burst(lo: nat, hi: nat, t: nat): (b: seq<Call>)
    requires lo <= hi
    ensures |b| == hi - lo && forall i :: 0 <= i < |b| ==> b[i] == Call(lo + i, t)
    decreases hi - lo
  {
    if lo == hi then [] else [Call(lo, t)] + Burst(lo + 1, hi, t)
  }

  lemma BurstMore(lo: nat, hi: nat, t: nat)
    requires lo < hi
    ensures Burst(lo, hi, t) != [] && Burst(lo, hi, t)[0] == Call(lo, t)
          && Burst(lo, hi, t)[1..] == Burst(lo + 1, hi, t)
  {
  }

  function Span(lo: nat, hi: nat): (s: set<Account>)
    requires lo <= hi
    ensures forall k :: k in s <==> lo <= k < hi
    decreases hi - lo
  {
    if lo == hi then {} else {lo} + Span(lo + 1, hi)
  }

  lemma {:induction false} SpanSize(lo: nat, hi: nat)
    requires lo <= hi
    ensures |Span(lo, hi)| == hi - lo
    decreases hi - lo
  {
    if lo < hi {
      SpanSize(lo + 1, hi);
    }
  }

  lemma {:induction false} SpanJoin(lo: nat, mid: nat, hi: nat)
    requires lo <= mid <= hi
    ensures Span(lo, mid) + Span(mid, hi) == Span(lo, hi)
  {
  }

  /** All known accounts are below `n`, and accounts below `m` have the entries they had in `old`. */
  ghost predicate Extends(was: map<Account, Window>, table: map<Account, Window>, m: nat, n: nat) {
    && (forall a :: a in table ==> a < n)
    && (forall a :: a < m ==> (a in was <==> a in table) && (a in was ==> table[a] == was[a]))
  }

  lemma {:induction false} RefAfterSplit(l: Limits, r: Ref, a: seq<Call>, b: seq<Call>)
    ensures RefAfter(l, r, a + b) == RefAfter(l, RefAfter(l, r, a), b)
    ensures Touched(l, r, a + b) == Touched(l, r, a) + Touched(l, RefAfter(l, r, a), b)
    decreases |a|
  {
    hide RefAdmit, TouchedBy;
    if a == [] {
      assert a + b == b;
    } else {
      assert (a + b)[1..] == a[1..] + b && (a + b)[0] == a[0];
      RefAfterSplit(l, RefAdmit(l, r, a[0].account, a[0].at).0, a[1..], b);
    }
  }

  /** One call as a run. */
  lemma {:induction false} AfterCall(l: Limits, s: State, a: Account, now: nat)
    requires l.capacity > 0
    ensures After(l, s, [Call(a, now)]) == Admit(l, s, a, now).0
  {
    hide Admit;
    assert [Call(a, now)][1..] == [];
  }

  lemma {:induction false} RefAfterCall(l: Limits, r: Ref, a: Account, now: nat)
    ensures RefAfter(l, r, [Call(a, now)]) == RefAdmit(l, r, a, now).0
    ensures Touched(l, r, [Call(a, now)]) == TouchedBy(l, r.global, Call(a, now))
  {
    hide RefAdmit, TouchedBy;
    assert [Call(a, now)][1..] == [];
  }

  lemma {:induction false} StateSplit(l: Limits, s: State, a: seq<Call>, b: seq<Call>)
    requires l.capacity > 0
    ensures After(l, s, a + b) == After(l, After(l, s, a), b)
    decreases |a|
  {
    hide Admit;
    if a == [] {
      assert a + b == b;
    } else {
      assert (a + b)[1..] == a[1..] + b && (a + b)[0] == a[0];
      StateSplit(l, Admit(l, s, a[0].account, a[0].at).0, a[1..], b);
    }
  }

  lemma ExtendsOne(was: map<Account, Window>, w: Window, table: map<Account, Window>, lo: nat, hi: nat)
    requires Extends(was[lo := w], table, lo + 1, hi)
    ensures Extends(was, table, lo, hi) && lo in table && table[lo] == w
  {
  }

  lemma BurstStep(l: Limits, r: Ref, lo: nat, hi: nat, t: nat)
    requires lo < hi && Roll(r.global, l.window, t).count < l.globalLimit
    ensures var r' := RefAdmit(l, r, lo, t).0;
            && RefAfter(l, r, Burst(lo, hi, t)) == RefAfter(l, r', Burst(lo + 1, hi, t))
            && Touched(l, r, Burst(lo, hi, t)) == {lo} + Touched(l, r', Burst(lo + 1, hi, t))
  {
    BurstMore(lo, hi, t);
    hide RefAdmit, Roll;
  }

  /** Newcomers are let in while the global budget lasts. */
  lemma {:induction false} RefBurst(l: Limits, r: Ref, lo: nat, hi: nat, t: nat)
    requires l.accountLimit > 0 && l.window > 0 && lo <= hi
    requires forall a :: a in r.accounts ==> a < lo
    requires Roll(r.global, l.window, t).count + (hi - lo) <= l.globalLimit
    ensures
      var r' := RefAfter(l, r, Burst(lo, hi, t));
      && (lo < hi ==> r'.global == Plus(Roll(r.global, l.window, t), hi - lo))
      && (lo == hi ==> r'.global == r.global)
      && Extends(r.accounts, r'.accounts, lo, hi)
    ensures Touched(l, r, Burst(lo, hi, t)) == Span(lo, hi)
    decreases hi - lo
  {
    if lo < hi {
      RefOne(l, r, lo, t);
      BurstStep(l, r, lo, hi, t);
      EntryAgain(l, r.global, t, 1);
      var r' := Ref(Plus(Roll(r.global, l.window, t), 1), r.accounts[lo := Window(t, 1)]);
      assert RefAdmit(l, r, lo, t).0 == r';
      assert Roll(r'.global, l.window, t) == r'.global;
      hide RefAdmit, Roll, RefAfter, Touched, Burst, Extends;
      RefBurst(l, r', lo + 1, hi, t);
      ExtendsOne(r.accounts, Window(t, 1), RefAfter(l, r, Burst(lo, hi, t)).accounts, lo, hi);
    }
  }

  /** Two bursts of newcomers, the second in a window of its own. */
  lemma {:induction false} RefTwoBursts(l: Limits, r: Ref, lo: nat, mid: nat, hi: nat, t: nat, u: nat)
    requires l.accountLimit > 0 && l.window > 0 && lo <= mid < hi
    requires forall a :: a in r.accounts ==> a < lo
    requires t < r.global.started + l.window <= u
    requires r.global.count + (mid - lo) <= l.globalLimit && hi - mid <= l.globalLimit
    ensures
      var r' := RefAfter(l, r, Burst(lo, mid, t) + Burst(mid, hi, u));
      r'.global == Window(u, hi - mid) && Extends(r.accounts, r'.accounts, lo, hi)
    ensures Touched(l, r, Burst(lo, mid, t) + Burst(mid, hi, u)) == Span(lo, hi)
  {
    hide RefAfter, Touched, Burst;
    RefBurst(l, r, lo, mid, t);
    RefAfterSplit(l, r, Burst(lo, mid, t), Burst(mid, hi, u));
    RefBurst(l, RefAfter(l, r, Burst(lo, mid, t)), mid, hi, u);
    SpanJoin(lo, mid, hi);
  }

  /** Accounts `lo..hi` have spent their limits in windows that began at `s`. */
  ghost predicate Spent(l: Limits, r: Ref, lo: nat, hi: nat, s: nat) {
    forall a :: lo <= a < hi ==> a in r.accounts && r.accounts[a] == Window(s, l.accountLimit)
  }

  /** Such accounts are refused, spend nothing, and become the most recent. */
  lemma {:induction false} RefRefused(l: Limits, r: Ref, lo: nat, hi: nat, s: nat, t: nat)
    requires l.accountLimit > 0 && l.window > 0 && lo < hi && Spent(l, r, lo, hi, s) && s <= t < s + l.window
    requires Roll(r.global, l.window, t).count < l.globalLimit
    ensures RefAfter(l, r, Burst(lo, hi, t)) == Ref(Roll(r.global, l.window, t), r.accounts)
    ensures Touched(l, r, Burst(lo, hi, t)) == Span(lo, hi)
    decreases hi - lo
  {
    RefOne(l, r, lo, t);
    BurstMore(lo, hi, t);
    EntryAgain(l, r.global, t, 0);
    var g := Roll(r.global, l.window, t);
    assert Entry(l, r.accounts, lo, t) == r.accounts[lo];
    assert r.accounts[lo := r.accounts[lo]] == r.accounts;
    assert RefAdmit(l, r, lo, t).0 == Ref(g, r.accounts);
    assert g == Plus(g, 0);
    hide RefAdmit, Roll;
    if lo + 1 < hi {
      RefRefused(l, Ref(g, r.accounts), lo + 1, hi, s, t);
    } else {
      assert Burst(hi, hi, t) == [];
    }
  }

  /** Accounts `lo..hi`, each spending its whole limit at time `t`. */
  function Fill(lo: nat, hi: nat, t: nat, n: nat): seq<Call>
    requires lo <= hi
    decreases hi - lo
  {
    if lo == hi then [] else Repeat(lo, t, n) + Fill(lo + 1, hi, t, n)
  }

  lemma OneLess(n: nat, k: nat)
    requires k > 0
    ensures n * k == n + n * (k - 1) && n * (k - 1) >= 0
  {
  }

  lemma {:induction false} RefFill(l: Limits, r: Ref, lo: nat, hi: nat, t: nat)
    requires l.accountLimit > 0 && l.window > 0 && lo <= hi
    requires forall a :: a in r.accounts ==> a < lo
    requires r.global.started <= t < r.global.started + l.window
    requires r.global.count + l.accountLimit * (hi - lo) <= l.globalLimit
    ensures
      var r' := RefAfter(l, r, Fill(lo, hi, t, l.accountLimit));
      && r'.global.started == r.global.started
      && Extends(r.accounts, r'.accounts, lo, hi)
      && Spent(l, r', lo, hi, t)
    decreases hi - lo
  {
    if lo < hi {
      var n := l.accountLimit;
      OneLess(n, hi - lo);
      RefRepeat(l, r, lo, t, n);
      RefAfterSplit(l, r, Repeat(lo, t, n), Fill(lo + 1, hi, t, n));
      var r' := RefAfter(l, r, Repeat(lo, t, n));
      assert r' == Ref(Plus(r.global, n), r.accounts[lo := Window(t, n)]);
      hide Roll, RefAfter, Repeat, RefAdmit, Entry, Extends;
      RefFill(l, r', lo + 1, hi, t);
      ExtendsOne(r.accounts, Window(t, n), RefAfter(l, r, Fill(lo, hi, t, n)).accounts, lo, hi);
    }
  }

  // ---- times ----

  /** The calls are in order of time, between `lo` and `hi`. */
  ghost predicate Within(lo: nat, hi: nat, calls: seq<Call>) {
    Timely(lo, calls) && forall i :: 0 <= i < |calls| ==> calls[i].at <= hi
  }

  lemma Join(lo: nat, mid: nat, hi: nat, a: seq<Call>, b: seq<Call>)
    requires Within(lo, mid, a) && Within(mid, hi, b) && lo <= mid <= hi
    ensures Within(lo, hi, a + b)
  {
  }

  lemma {:induction false} BurstWithin(from: nat, lo: nat, hi: nat, t: nat)
    requires lo <= hi && from <= t
    ensures Within(from, t, Burst(lo, hi, t))
  {
  }

  lemma {:induction false} RepeatWithin(from: nat, a: Account, t: nat, n: nat)
    requires from <= t
    ensures Within(from, t, Repeat(a, t, n)) && Within(from, t, [Call(a, t)])
  {
  }

  lemma {:induction false} FillWithin(from: nat, lo: nat, hi: nat, t: nat, n: nat)
    requires lo <= hi && from <= t
    ensures Within(from, t, Fill(lo, hi, t, n))
    decreases hi - lo
  {
    if lo < hi {
      RepeatWithin(from, lo, t, n);
      FillWithin(t, lo + 1, hi, t, n);
      Join(from, t, t, Repeat(lo, t, n), Fill(lo + 1, hi, t, n));
    }
  }

  /** Account 0 is gone once a run has moved `n` others to the front. */
  lemma {:induction false} Forgotten(l: Limits, before: seq<Call>, calls: seq<Call>, n: nat)
    requires l.capacity > 0 && Agree(l, Fresh(0), RefFresh(0), before + calls)
    requires Touched(l, RefAfter(l, RefFresh(0), before), calls) == Span(1, n + 1) && n >= l.capacity
    ensures 0 !in After(l, Fresh(0), before + calls).accounts.table
    ensures After(l, Fresh(0), before + calls).global == RefAfter(l, RefFresh(0), before + calls).global
  {
    hide After, RefAfter, Agree, Touched;
    SpanSize(1, n + 1);
    StateSplit(l, Fresh(0), before, calls);
    AgreeSplit(l, Fresh(0), RefFresh(0), before, calls);
    PushedOut(l, 0, before, RefAfter(l, RefFresh(0), before), calls, 0);
    AgreeEnd(l, Fresh(0), RefFresh(0), before + calls);
  }

  lemma {:induction false} TableValid(l: Limits, calls: seq<Call>)
    requires l.capacity > 0
    ensures Valid(After(l, Fresh(0), calls).accounts)
  {
    assert Tracks(l, Fresh(0).accounts, map[], 0);
    var stamp, n := Stamps(l, Fresh(0), map[], 0, calls);
  }

  lemma {:induction false} AgreeEnd(l: Limits, s: State, r: Ref, calls: seq<Call>)
    requires l.capacity > 0 && Agree(l, s, r, calls)
    ensures After(l, s, calls).global == RefAfter(l, r, calls).global
  {
    assert calls + [] == calls;
    AgreeSplit(l, s, r, calls, []);
  }

  /** A run on which the last call tells the two limiters apart, if no earlier one does. */
  lemma {:induction false} LastTells(l: Limits, calls: seq<Call>, c: Call)
    requires l.capacity > 0 && Within(0, c.at, calls)
    requires Agree(l, Fresh(0), RefFresh(0), calls) ==>
               Admit(l, After(l, Fresh(0), calls), c.account, c.at).1
               != RefAdmit(l, RefAfter(l, RefFresh(0), calls), c.account, c.at).1
    ensures !Exact(l)
  {
    var s, r := Fresh(0), RefFresh(0);
    Join(0, c.at, c.at, calls, [c]);
    hide Admit, RefAdmit;
    AfterSplit(l, s, r, calls, [c]);
    assert Verdicts(l, After(l, s, calls), [c])[0] == Admit(l, After(l, s, calls), c.account, c.at).1;
    assert RefVerdicts(l, RefAfter(l, r, calls), [c])[0] == RefAdmit(l, RefAfter(l, r, calls), c.account, c.at).1;
    assert Verdicts(l, s, calls + [c])[..|calls|] == Verdicts(l, s, calls);
    assert RefVerdicts(l, r, calls + [c])[..|calls|] == RefVerdicts(l, r, calls);
    assert Verdicts(l, s, calls + [c])[|calls|] == Verdicts(l, After(l, s, calls), [c])[0];
    assert RefVerdicts(l, r, calls + [c])[|calls|] == RefVerdicts(l, RefAfter(l, r, calls), [c])[0];
    assert Verdicts(l, s, calls + [c]) != RefVerdicts(l, r, calls + [c]);
  }
}
