/**
 Collecting (`record_collect_transition`, `src/queries/collectibles.rs`) as statements of
 concurrent transactions under row locks: reading the progress row, writing it, and
 appending the one log row of whoever collected first.
 */
module CollectLog {
  import opened Common

  type TxId = nat

  /** A user and a collectible. */
  type Key = (nat, nat)

  type Position = nat

  datatype Progress = Progress(unlockedAt: Option<nat>, collectedAt: Option<nat>)

  /** `prev` is what the first statement saw, `row` what the second wrote, `entry` what the third appends. */
  datatype Phase =
    | Begun
    | Read(prev: Option<Progress>)
    | Written(prev: Option<Progress>, row: Progress)
    | Logged(row: Progress, entry: Option<Position>)
    | Committed
    | RolledBack

  /** `at` is the transaction's own time: `now()` does not move inside it. */
  datatype Tx = Tx(pos: Position, at: nat, phase: Phase)

  /**
   What concerns one key: its committed progress and log rows, the lock on the progress
   row, the transactions that report it, and - if it was collected since the start - the
   transaction that collected it.
   */
  datatype Cell = Cell(
    row: Option<Progress>, log: Option<Position>, lock: Option<TxId>, txs: map<TxId, Tx>, collector: Option<TxId>)

  datatype Step =
    | Unlocks(at: nat)
    | Begins(t: TxId, pos: Position, at: nat)
    | Reads(t: TxId)
    | Writes(t: TxId)
    | Logs(t: TxId)
    | Commits(t: TxId)
    | RollsBack(t: TxId)

  function Coalesce(a: Option<nat>, b: nat): Option<nat> {
    if a.Some? then a else Some(b)
  }

  predicate Free(c: Cell, t: TxId) {
    c.lock == None || c.lock == Some(t)
  }

  predicate Collected(c: Cell) {
    c.row.Some? && c.row.value.collectedAt.Some?
  }

  /** The second statement: an insert, or an update that keeps every time already set. */
  function Upserted(row: Option<Progress>, at: nat): Progress {
    if row.None? then Progress(Some(at), Some(at))
    else Progress(Coalesce(row.value.unlockedAt, at), Coalesce(row.value.collectedAt, at))
  }

  function Goto(c: Cell, t: TxId, p: Phase): Cell
    requires t in c.txs
  {
    c.(txs := c.txs[t := c.txs[t].(phase := p)])
  }

  /** A statement that has to wait for the row lock is not enabled and changes nothing. */
  function Advance(c: Cell, s: Step): Cell {
    match s
    case Unlocks(at) =>
      if c.lock.Some? then c
      else if c.row.None? then c.(row := Some(Progress(Some(at), None)))
      else c.(row := Some(c.row.value.(unlockedAt := Coalesce(c.row.value.unlockedAt, at))))
    case Begins(t, pos, at) => if t in c.txs then c else c.(txs := c.txs[t := Tx(pos, at, Begun)])
    case _ => if s.t !in c.txs then c else AdvanceTx(c, s, c.txs[s.t])
  }

  function AdvanceTx(c: Cell, s: Step, tx: Tx): Cell
    requires !s.Unlocks? && !s.Begins? && s.t in c.txs && c.txs[s.t] == tx
  {
    match (s, tx.phase)
    case (Reads(t), Begun) =>
      // FOR UPDATE locks a row that is there; a row that is not there cannot be locked
      if c.row.None? then Goto(c, t, Read(None))
      else if !Free(c, t) then c
      else Goto(c, t, Read(c.row)).(lock := Some(t))
    case (Writes(t), Read(prev)) =>
      if !Free(c, t) then c else Goto(c, t, Written(prev, Upserted(c.row, tx.at))).(lock := Some(t))
    case (Logs(t), Written(prev, row)) =>
      var appends := (prev.None? || prev.value.collectedAt.None?) && c.log.None?;
      Goto(c, t, Logged(row, if appends then Some(tx.pos) else None))
    case (Commits(t), Logged(row, entry)) =>
      Goto(c, t, Committed).(
        row := Some(row),
        log := if entry.Some? then entry else c.log,
        lock := None,
        collector := if Collected(c) then c.collector else Some(t))
    case (RollsBack(t), _) =>
      if tx.phase.Committed? || tx.phase.RolledBack? then c
      else Goto(c, t, RolledBack).(lock := if c.lock == Some(t) then None else c.lock)
    case _ => c
  }

  function History(c: Cell, steps: seq<Step>): Cell
    decreases |steps|
  {
    if steps == [] then c else History(Advance(c, steps[0]), steps[1..])
  }

  // ---- the invariant ----

  /** Collected implies unlocked, and logged implies collected. */
  ghost predicate RowsSane(c: Cell) {
    && (Collected(c) ==> c.row.value.unlockedAt.Some?)
    && (c.log.Some? ==> Collected(c))
  }

  /** What has been set in the committed row is still what a transaction is about to commit. */
  ghost predicate Extends(c: Cell, row: Progress) {
    && row.unlockedAt.Some? && row.collectedAt.Some?
    && (c.row.Some? && c.row.value.unlockedAt.Some? ==> row.unlockedAt == c.row.value.unlockedAt)
    && (Collected(c) ==> row.collectedAt == c.row.value.collectedAt)
  }

  /** What had not been set is set to the transaction's own time. */
  ghost predicate Stamps(c: Cell, row: Progress, at: nat) {
    && (c.row.None? || c.row.value.unlockedAt.None? ==> row.unlockedAt == Some(at))
    && (!Collected(c) ==> row.collectedAt == Some(at))
  }

  /** The first statement saw no collected row. */
  predicate Missed(prev: Option<Progress>) {
    prev.None? || prev.value.collectedAt.None?
  }

  /**
   What an open transaction has seen still fits the committed rows; if it saw a row it
   holds it, and a row collected unseen is logged.
   */
  ghost predicate TxSane(c: Cell, t: TxId, tx: Tx) {
    match tx.phase
    case Read(prev) =>
      && (if prev.Some? then c.lock == Some(t) && c.row == prev else c.lock != Some(t))
      && (Missed(prev) && Collected(c) ==> c.log.Some?)
    case Written(prev, row) =>
      && c.lock == Some(t)
      && (prev.Some? ==> c.row == prev)
      && (Missed(prev) && Collected(c) ==> c.log.Some?)
      && Extends(c, row) && Stamps(c, row, tx.at)
    case Logged(row, entry) =>
      && c.lock == Some(t)
      && Extends(c, row) && Stamps(c, row, tx.at)
      && (if entry.Some? then entry.value == tx.pos && c.log.None? && !Collected(c) else Collected(c))
    case _ => c.lock != Some(t)
  }

  ghost predicate TxsSane(c: Cell) {
    && (c.lock.Some? ==> c.lock.value in c.txs)
    && forall t :: t in c.txs ==> TxSane(c, t, c.txs[t])
  }

  /** Collected since the start means: at the time of the collector, and logged with its position. */
  ghost predicate CollectorLogged(c: Cell) {
    c.collector.Some? ==>
      && Collected(c) && c.collector.value in c.txs && c.log == Some(c.txs[c.collector.value].pos)
      && c.row.value.collectedAt == Some(c.txs[c.collector.value].at)
  }

  ghost predicate Good(c: Cell) {
    RowsSane(c) && TxsSane(c) && CollectorLogged(c)
  }

  /** Any rows may be there at the start, also a collected one without a log row; no transaction is open. */
  ghost predicate Start(c: Cell) {
    RowsSane(c) && c.lock == None && c.txs == map[] && c.collector == None
  }

  /** Times and the log row never change once set; a log row only appears with the first collection. */
  ghost predicate Sticky(c: Cell, after: Cell) {
    && (c.row.Some? ==> after.row.Some?)
    && (c.row.Some? && c.row.value.unlockedAt.Some? ==> after.row.value.unlockedAt == c.row.value.unlockedAt)
    && (Collected(c) ==> after.row.value.collectedAt == c.row.value.collectedAt)
    && (c.log.Some? ==> after.log == c.log)
    && (Collected(c) && c.log.None? ==> after.log.None?)
    && (c.collector.Some? ==> after.collector == c.collector)
    && (!Collected(c) && Collected(after) ==> after.collector.Some?)
  }

  // ---- every step ----

  lemma UnlocksKeep(c: Cell, at: nat)
    requires Good(c)
    ensures Good(Advance(c, Unlocks(at))) && Sticky(c, Advance(c, Unlocks(at)))
  {
    var after := Advance(c, Unlocks(at));
    forall t | t in after.txs ensures TxSane(after, t, after.txs[t]) {
      assert TxSane(c, t, c.txs[t]);
    }
    hide TxSane;
  }

  lemma BeginsKeep(c: Cell, t: TxId, pos: Position, at: nat)
    requires Good(c)
    ensures Good(Advance(c, Begins(t, pos, at))) && Sticky(c, Advance(c, Begins(t, pos, at)))
  {
    var after := Advance(c, Begins(t, pos, at));
    forall u | u in after.txs ensures TxSane(after, u, after.txs[u]) {
      if u in c.txs {
        assert TxSane(c, u, c.txs[u]);
      }
    }
    hide TxSane;
  }

  /** The others, when one transaction takes or gives back the lock and the rows stay. */
  lemma OthersKeep(c: Cell, after: Cell, t: TxId)
    requires TxsSane(c) && after.row == c.row && after.log == c.log
    requires Free(c, t) || after.lock == c.lock
    requires after.lock == c.lock || after.lock == Some(t) || (after.lock == None && c.lock == Some(t))
    ensures forall u :: u in c.txs && u != t ==> TxSane(after, u, c.txs[u])
  {
    forall u | u in c.txs && u != t ensures TxSane(after, u, c.txs[u]) {
      assert TxSane(c, u, c.txs[u]);
    }
  }

  lemma LocalKeeps(c: Cell, after: Cell, t: TxId)
    requires Good(c) && t in c.txs && t in after.txs
    requires after.row == c.row && after.log == c.log && after.collector == c.collector
    requires after.txs == c.txs[t := c.txs[t].(phase := after.txs[t].phase)]
    requires Free(c, t) || after.lock == c.lock
    requires after.lock == c.lock || after.lock == Some(t) || (after.lock == None && c.lock == Some(t))
    requires TxSane(after, t, after.txs[t])
    ensures Good(after) && Sticky(c, after)
  {
    OthersKeep(c, after, t);
    hide TxSane;
  }

  lemma ReadsKeep(c: Cell, t: TxId)
    requires Good(c) && t in c.txs && c.txs[t].phase.Begun?
    ensures Good(Advance(c, Reads(t))) && Sticky(c, Advance(c, Reads(t)))
  {
    assert TxSane(c, t, c.txs[t]);
    var after := Advance(c, Reads(t));
    if after != c {
      assert TxSane(after, t, after.txs[t]);
      hide TxSane, Good, Sticky;
      LocalKeeps(c, after, t);
    }
  }

  lemma WritesKeep(c: Cell, t: TxId)
    requires Good(c) && t in c.txs && c.txs[t].phase.Read?
    ensures Good(Advance(c, Writes(t))) && Sticky(c, Advance(c, Writes(t)))
  {
    assert TxSane(c, t, c.txs[t]);
    var after := Advance(c, Writes(t));
    if after != c {
      assert TxSane(after, t, after.txs[t]);
      hide TxSane, Good, Sticky;
      LocalKeeps(c, after, t);
    }
  }

  lemma LogsKeep(c: Cell, t: TxId)
    requires Good(c) && t in c.txs && c.txs[t].phase.Written?
    ensures Good(Advance(c, Logs(t))) && Sticky(c, Advance(c, Logs(t)))
  {
    assert TxSane(c, t, c.txs[t]);
    var after := Advance(c, Logs(t));
    assert TxSane(after, t, after.txs[t]);
    hide TxSane, Good, Sticky;
    LocalKeeps(c, after, t);
  }

  lemma RollsBackKeep(c: Cell, t: TxId)
    requires Good(c) && t in c.txs
    ensures Good(Advance(c, RollsBack(t))) && Sticky(c, Advance(c, RollsBack(t)))
  {
    assert TxSane(c, t, c.txs[t]);
    var after := Advance(c, RollsBack(t));
    if after != c {
      assert TxSane(after, t, after.txs[t]);
      hide TxSane, Good, Sticky;
      LocalKeeps(c, after, t);
    }
  }

  /** A commit: nobody else has locked the row, so whoever read it unlocked saw nothing. */
  lemma CommitsKeep(c: Cell, t: TxId)
    requires Good(c) && t in c.txs && c.txs[t].phase.Logged?
    ensures Good(Advance(c, Commits(t))) && Sticky(c, Advance(c, Commits(t)))
  {
    var after := Advance(c, Commits(t));
    assert TxSane(c, t, c.txs[t]);
    forall u | u in after.txs ensures TxSane(after, u, after.txs[u]) {
      assert TxSane(c, u, c.txs[u]);
    }
    hide TxSane;
  }

  lemma AdvanceKeeps(c: Cell, s: Step)
    requires Good(c)
    ensures Good(Advance(c, s)) && Sticky(c, Advance(c, s))
  {
    hide Good;
    match s
    case Unlocks(at) => UnlocksKeep(c, at);
    case Begins(t, pos, at) => BeginsKeep(c, t, pos, at);
    case Reads(t) =>
      if t in c.txs && c.txs[t].phase.Begun? {
        ReadsKeep(c, t);
      }
    case Writes(t) =>
      if t in c.txs && c.txs[t].phase.Read? {
        WritesKeep(c, t);
      }
    case Logs(t) =>
      if t in c.txs && c.txs[t].phase.Written? {
        LogsKeep(c, t);
      }
    case Commits(t) =>
      if t in c.txs && c.txs[t].phase.Logged? {
        CommitsKeep(c, t);
      }
    case RollsBack(t) =>
      if t in c.txs {
        RollsBackKeep(c, t);
      }
  }

  lemma StickyChain(a: Cell, b: Cell, c: Cell)
    requires Sticky(a, b) && Sticky(b, c)
    ensures Sticky(a, c)
  {
  }

  lemma {:induction false} HistoryKeeps(c: Cell, steps: seq<Step>)
    requires Good(c)
    ensures Good(History(c, steps)) && Sticky(c, History(c, steps))
    decreases |steps|
  {
    if steps != [] {
      hide Good, Advance, Sticky;
      AdvanceKeeps(c, steps[0]);
      HistoryKeeps(Advance(c, steps[0]), steps[1..]);
      StickyChain(c, Advance(c, steps[0]), History(Advance(c, steps[0]), steps[1..]));
    }
  }

  // ---- all keys ----

  /** The tables: what concerns each key. Every report and every unlock touches one key. */
  type World = map<Key, Cell>

  function CellAt(w: World, k: Key): Cell {
    if k in w then w[k] else Cell(None, None, None, map[], None)
  }

  function After(w: World, steps: seq<(Key, Step)>): World
    decreases |steps|
  {
    if steps == [] then w
    else After(w[steps[0].0 := Advance(CellAt(w, steps[0].0), steps[0].1)], steps[1..])
  }

  /** The steps that concern one key. */
  function Only(steps: seq<(Key, Step)>, k: Key): seq<Step>
    decreases |steps|
  {
    if steps == [] then []
    else if steps[0].0 == k then [steps[0].1] + Only(steps[1..], k) else Only(steps[1..], k)
  }

  lemma {:induction false} KeysAreIndependent(w: World, steps: seq<(Key, Step)>, k: Key)
    ensures CellAt(After(w, steps), k) == History(CellAt(w, k), Only(steps, k))
    decreases |steps|
  {
    hide Advance;
    if steps != [] {
      var next := w[steps[0].0 := Advance(CellAt(w, steps[0].0), steps[0].1)];
      KeysAreIndependent(next, steps[1..], k);
      if steps[0].0 == k {
        assert ([steps[0].1] + Only(steps[1..], k))[1..] == Only(steps[1..], k);
      }
    }
  }

  lemma {:induction false} CellAfter(w: World, steps: seq<(Key, Step)>, k: Key)
    requires Start(CellAt(w, k))
    ensures Good(CellAt(After(w, steps), k)) && Sticky(CellAt(w, k), CellAt(After(w, steps), k))
  {
    KeysAreIndependent(w, steps, k);
    HistoryKeeps(CellAt(w, k), Only(steps, k));
  }

  // ---- what holds in every interleaving ----

  /**
   However reports interleave, statement by statement and with rollbacks: a collectible
   collected since the start has exactly the log row of the transaction that collected
   it first, with that report's position and time; and what is collected is unlocked.
   */
  lemma {:induction false} LogIsTheFirstCollectors(w: World, steps: seq<(Key, Step)>, k: Key)
    requires Start(CellAt(w, k)) && Collected(CellAt(After(w, steps), k)) && !Collected(CellAt(w, k))
    ensures var now := CellAt(After(w, steps), k);
            && now.collector.Some? && now.collector.value in now.txs
            && now.log == Some(now.txs[now.collector.value].pos)
            && now.row.value.collectedAt == Some(now.txs[now.collector.value].at)
            && now.row.value.unlockedAt.Some?
  {
    CellAfter(w, steps, k);
    hide After, TxsSane;
  }

  /**
   From any reachable state on, times and log rows never change, and a collected row
   without a log row never gains one.
   */
  lemma {:induction false} RowsAreSticky(w: World, steps: seq<(Key, Step)>, more: seq<(Key, Step)>, k: Key)
    requires Start(CellAt(w, k))
    ensures Sticky(CellAt(After(w, steps), k), CellAt(After(After(w, steps), more), k))
  {
    CellAfter(w, steps, k);
    KeysAreIndependent(After(w, steps), more, k);
    HistoryKeeps(CellAt(After(w, steps), k), Only(more, k));
  }

  /** Progress collected before there was a log never gains a log row. */
  lemma {:induction false} LegacyStaysUnlogged(w: World, steps: seq<(Key, Step)>, k: Key)
    requires Start(CellAt(w, k)) && Collected(CellAt(w, k)) && CellAt(w, k).log == None
    ensures CellAt(After(w, steps), k).log == None && Collected(CellAt(After(w, steps), k))
  {
    CellAfter(w, steps, k);
    hide After, TxsSane;
  }

  // ---- the collecting commit ----

  /** Only a commit collects: its transaction's time and position are what is recorded. */
  lemma CollectingStep(c: Cell, s: Step)
    requires Good(c) && !Collected(c) && Collected(Advance(c, s))
    ensures s.Commits? && s.t in c.txs
    ensures Advance(c, s).row.value.collectedAt == Some(c.txs[s.t].at) && Advance(c, s).log == Some(c.txs[s.t].pos)
  {
    if s.Commits? && s.t in c.txs {
      assert TxSane(c, s.t, c.txs[s.t]);
    }
  }

  /**
   What is collected at the end of a run and was not at its beginning was collected by one
   commit of the run; the time and the log row are those of its transaction, and no
   commit before it collected anything.
   */
  lemma {:induction false} OneCommitCollects(c: Cell, steps: seq<Step>) returns (i: nat)
    requires Good(c) && !Collected(c) && Collected(History(c, steps))
    ensures i < |steps| && steps[i].Commits? && !Collected(History(c, steps[..i]))
    ensures var before, now := History(c, steps[..i]), History(c, steps);
            && steps[i].t in before.txs
            && now.row.value.collectedAt == Some(before.txs[steps[i].t].at)
            && now.log == Some(before.txs[steps[i].t].pos)
    decreases |steps|
  {
    var next := Advance(c, steps[0]);
    hide Good, Advance;
    AdvanceKeeps(c, steps[0]);
    if Collected(next) {
      CollectingStep(c, steps[0]);
      HistoryKeeps(next, steps[1..]);
      i := 0;
      assert steps[..0] == [];
    } else {
      hide Sticky;
      var j := OneCommitCollects(next, steps[1..]);
      i := j + 1;
      assert steps[..i][1..] == steps[1..][..j] && steps[..i][0] == steps[0];
    }
  }

  // ---- nobody waits in vain ----

  predicate Open(p: Phase) {
    !p.Committed? && !p.RolledBack?
  }

  /** The next statement of an open transaction. */
  function NextStatement(t: TxId, p: Phase): Step
    requires Open(p)
  {
    match p
    case Begun => Reads(t)
    case Read(_) => Writes(t)
    case Written(_, _) => Logs(t)
    case Logged(_, _) => Commits(t)
  }

  lemma FreeMoves(c: Cell, t: TxId)
    requires t in c.txs && Open(c.txs[t].phase) && Free(c, t)
    ensures Advance(c, NextStatement(t, c.txs[t].phase)) != c
  {
    var after := Advance(c, NextStatement(t, c.txs[t].phase));
    assert after.txs[t].phase != c.txs[t].phase;
  }

  /** There is no deadlock: while a transaction is open, the next statement of one of them can run. */
  lemma {:induction false} NoDeadlock(c: Cell, steps: seq<Step>, t: TxId) returns (u: TxId)
    requires Start(c) && t in History(c, steps).txs && Open(History(c, steps).txs[t].phase)
    ensures var now := History(c, steps);
            u in now.txs && Open(now.txs[u].phase) && Advance(now, NextStatement(u, now.txs[u].phase)) != now
  {
    HistoryKeeps(c, steps);
    var now := History(c, steps);
    hide History, Advance;
    u := if now.lock.Some? then now.lock.value else t;
    if now.lock.Some? {
      assert TxSane(now, u, now.txs[u]);
    }
    FreeMoves(now, u);
  }

  /** An unlock of a row that nobody holds keeps the time already set, or sets its own. */
  lemma UnlockSets(c: Cell, at: nat)
    requires c.lock == None
    ensures var after := Advance(c, Unlocks(at));
            && after.row.Some?
            && after.row.value.unlockedAt
               == (if c.row.Some? && c.row.value.unlockedAt.Some? then c.row.value.unlockedAt else Some(at))
            && after.row.value.collectedAt == (if c.row.Some? then c.row.value.collectedAt else None)
            && after == c.(row := after.row)
  {
  }

  /** The statements of one report, one after the other. */
  function Report(t: TxId, pos: Position, at: nat): seq<Step> {
    [Begins(t, pos, at), Reads(t), Writes(t), Logs(t), Commits(t)]
  }

  /**
   A report of an unheld row collects it, unless it is collected already: times already set
   stay, the others are the report's; the log row is the report's if it collects and there is none.
   */
  lemma {:induction false} ReportCollects(c: Cell, t: TxId, pos: Position, at: nat)
    requires c.lock == None && t !in c.txs
    ensures var now := History(c, Report(t, pos, at));
            && now.row == Some(Progress(
                 if c.row.Some? && c.row.value.unlockedAt.Some? then c.row.value.unlockedAt else Some(at),
                 if Collected(c) then c.row.value.collectedAt else Some(at)))
            && now.log == (if !Collected(c) && c.log.None? then Some(pos) else c.log)
            && now.lock == None && t in now.txs && now.txs[t].phase == Committed
  {
    var steps := Report(t, pos, at);
    var c1 := Advance(c, steps[0]);
    var c2 := Advance(c1, steps[1]);
    var c3 := Advance(c2, steps[2]);
    var c4 := Advance(c3, steps[3]);
    assert c2.txs[t].phase == Read(c.row) && c2.row == c.row && Free(c2, t);
    assert c3.txs[t].phase == Written(c.row, Upserted(c.row, at)) && c3.lock == Some(t);
    var c5 := Advance(c4, steps[4]);
    RunsOn(c, steps[0], [steps[1]] + ([steps[2]] + ([steps[3]] + ([steps[4]] + []))));
    RunsOn(c1, steps[1], [steps[2]] + ([steps[3]] + ([steps[4]] + [])));
    RunsOn(c2, steps[2], [steps[3]] + ([steps[4]] + []));
    RunsOn(c3, steps[3], [steps[4]] + []);
    RunsOn(c4, steps[4], []);
    assert steps == [steps[0]] + ([steps[1]] + ([steps[2]] + ([steps[3]] + ([steps[4]] + []))));
    assert History(c, steps) == c5;
    hide History;
  }

  lemma {:induction false} RunsOn(c: Cell, s: Step, rest: seq<Step>)
    ensures History(c, [s] + rest) == History(Advance(c, s), rest)
    ensures rest == [] ==> History(c, [s] + rest) == Advance(c, s)
  {
    hide Advance;
    assert ([s] + rest)[1..] == rest;
  }
}
