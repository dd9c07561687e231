/**
 Minigame attempts and personal bests (`report_attempt`, `src/queries/minigames.rs`):
 the best row is kept up to date statement by statement, and is what the whole attempt
 log says. The game a report is counted for, and which scores are better there, come
 from the row on the map behind the lock.
 */
module MinigameBest {
  import opened Common
  import opened CatalogFold
  import opened Wayfinder
  import opened WayfinderRuns
  import W = WayfinderInvariant
  import M = MinigameCatalog

  /** A row of the attempt log; `finish` is the status, which is otherwise a cancel. */
  datatype Attempt = Attempt(user: User, key: Key, elapsed: int, finish: bool)

  datatype Best = Best(score: int, finishes: nat, attempts: nat)

  datatype Tables = Tables(log: seq<Attempt>, best: map<(User, Key), Best>)

  /** A report as it arrives. */
  datatype Report = Report(user: User, m: MapUid, slug: string, id: SpecId, elapsed: int, finish: bool)

  /** `lock_materialized_spec`, then the row of the game on the map. */
  function GameRow(db: Db, m: MapUid, id: SpecId, slug: string): Option<Placed<M.Game>> {
    if Materialised(db, m, id) && slug in RowsOn(db, m).games then Some(RowsOn(db, m).games[slug]) else None
  }

  function Better(lower: bool, score: int, best: Best): bool {
    best.finishes == 0 || (lower && best.score > score) || (!lower && best.score < score)
  }

  /** One attempt counted; `lower` says whether this game's lower scores are better. */
  function Counted(tables: Tables, a: Attempt, lower: bool): Tables {
    var k := (a.user, a.key);
    var counted := if k in tables.best then tables.best[k].(attempts := tables.best[k].attempts + 1) else Best(0, 0, 1);
    var best :=
      if !a.finish then counted
      else if Better(lower, a.elapsed, counted) then counted.(score := a.elapsed, finishes := counted.finishes + 1)
      else counted.(finishes := counted.finishes + 1);
    Tables(tables.log + [a], tables.best[k := best])
  }

  /** `report_attempt` on tables. */
  function Reported(db: Db, tables: Tables, r: Report): Tables {
    var row := GameRow(db, r.m, r.id, r.slug);
    if (r.finish && r.elapsed < 0) || row.None? then tables
    else Counted(tables, Attempt(r.user, row.value.key, r.elapsed, r.finish), M.LowerIsBetter(row.value.row.kind))
  }

  class Store {
    var log: seq<Attempt>
    var best: map<(User, Key), Best>

    constructor ()
      ensures log == [] && best == map[]
    {
      log := [];
      best := map[];
    }

    method ReportAttempt(db: Db, r: Report)
      modifies this
      ensures Tables(log, best) == Reported(db, old(Tables(log, best)), r)
    {
      hide GameRow;
      if r.finish && r.elapsed < 0 {
        return;
      }
      var row := GameRow(db, r.m, r.id, r.slug);
      if row.None? {
        return;
      }
      var key, lower := row.value.key, row.value.row.kind == M.Sprint;
      log := log + [Attempt(r.user, key, r.elapsed, r.finish)];
      var k := (r.user, key);
      if k in best {
        best := best[k := best[k].(attempts := best[k].attempts + 1)];
      } else {
        best := best[k := Best(0, 0, 1)];
      }
      if r.finish {
        var now := best[k];
        if now.finishes == 0 || (lower && now.score > r.elapsed) || (!lower && now.score < r.elapsed) {
          best := best[k := now.(score := r.elapsed, finishes := now.finishes + 1)];
        } else {
          best := best[k := now.(finishes := now.finishes + 1)];
        }
      }
    }
  }

  // ---- what the log says ----

  predicate Of(a: Attempt, user: User, key: Key) {
    a.user == user && a.key == key
  }

  function Attempts(log: seq<Attempt>, user: User, key: Key): nat {
    if log == [] then 0
    else Attempts(log[..|log| - 1], user, key) + if Of(log[|log| - 1], user, key) then 1 else 0
  }

  function Finishes(log: seq<Attempt>, user: User, key: Key): nat {
    if log == [] then 0
    else Finishes(log[..|log| - 1], user, key) + if Of(log[|log| - 1], user, key) && log[|log| - 1].finish then 1 else 0
  }

  /** A finish of this user and game. */
  predicate Finish(a: Attempt, user: User, key: Key) {
    Of(a, user, key) && a.finish
  }

  ghost predicate FinishedWith(log: seq<Attempt>, user: User, key: Key, score: int) {
    exists i :: 0 <= i < |log| && Finish(log[i], user, key) && log[i].elapsed == score
  }

  predicate AsGood(lower: bool, score: int, other: int) {
    if lower then score <= other else score >= other
  }

  /** As good as every finish in the log. */
  ghost predicate Unbeaten(log: seq<Attempt>, user: User, key: Key, lower: bool, score: int) {
    forall i :: 0 <= i < |log| && Finish(log[i], user, key) ==> AsGood(lower, score, log[i].elapsed)
  }

  /** Zero without a finish; otherwise a finished time that no finished time beats. */
  ghost predicate IsBest(log: seq<Attempt>, user: User, key: Key, lower: bool, score: int) {
    if Finishes(log, user, key) == 0 then score == 0
    else FinishedWith(log, user, key, score) && Unbeaten(log, user, key, lower, score)
  }

  function Score(tables: Tables, user: User, key: Key): int {
    if (user, key) in tables.best then tables.best[(user, key)].score else 0
  }

  /** The score of the row is the best of the log, in this order. */
  ghost predicate ScoreIsBest(tables: Tables, user: User, key: Key, lower: bool) {
    IsBest(tables.log, user, key, lower, Score(tables, user, key))
  }

  /** The row counts the attempts and finishes of the log, and its score is one of them, zero without a finish. */
  ghost predicate RowCounts(tables: Tables, user: User, key: Key) {
    && ((user, key) in tables.best <==> Attempts(tables.log, user, key) > 0)
    && ((user, key) in tables.best ==>
          var row := tables.best[(user, key)];
          && row.attempts == Attempts(tables.log, user, key)
          && row.finishes == Finishes(tables.log, user, key)
          && if row.finishes == 0 then row.score == 0 else FinishedWith(tables.log, user, key, row.score))
  }

  lemma {:induction false} CountsGrow(log: seq<Attempt>, a: Attempt, user: User, key: Key)
    ensures Attempts(log + [a], user, key) == Attempts(log, user, key) + if Of(a, user, key) then 1 else 0
    ensures Finishes(log + [a], user, key) == Finishes(log, user, key) + if Of(a, user, key) && a.finish then 1 else 0
    ensures Finishes(log, user, key) <= Attempts(log, user, key)
  {
    assert (log + [a])[..|log|] == log;
    FinishesAreAttempts(log, user, key);
  }

  lemma {:induction false} FinishesAreAttempts(log: seq<Attempt>, user: User, key: Key)
    ensures Finishes(log, user, key) <= Attempts(log, user, key)
  {
    if log != [] {
      FinishesAreAttempts(log[..|log| - 1], user, key);
    }
  }

  lemma {:induction false} NoneFinished(log: seq<Attempt>, user: User, key: Key, i: nat)
    requires Finishes(log, user, key) == 0 && i < |log|
    ensures !Finish(log[i], user, key)
  {
    if i < |log| - 1 {
      NoneFinished(log[..|log| - 1], user, key, i);
    }
  }

  lemma FinishedGrows(log: seq<Attempt>, a: Attempt, user: User, key: Key, score: int)
    ensures FinishedWith(log + [a], user, key, score) <==>
              FinishedWith(log, user, key, score) || (Finish(a, user, key) && a.elapsed == score)
  {
    hide Finish;
    var after := log + [a];
    assert after[|log|] == a;
    if FinishedWith(log, user, key, score) {
      var i :| 0 <= i < |log| && Finish(log[i], user, key) && log[i].elapsed == score;
      assert after[i] == log[i];
    }
  }

  lemma UnbeatenGrows(log: seq<Attempt>, a: Attempt, user: User, key: Key, lower: bool, score: int)
    ensures Unbeaten(log + [a], user, key, lower, score) <==>
              Unbeaten(log, user, key, lower, score) && (Finish(a, user, key) ==> AsGood(lower, score, a.elapsed))
  {
    hide Finish, AsGood;
    var after := log + [a];
    assert after[|log|] == a;
    assert forall i :: 0 <= i < |log| ==> after[i] == log[i];
  }

  /** An attempt that is not a finish of this user and game changes nothing about the best score. */
  lemma BestStays(log: seq<Attempt>, a: Attempt, user: User, key: Key, lower: bool, score: int)
    requires !Finish(a, user, key)
    ensures IsBest(log + [a], user, key, lower, score) <==> IsBest(log, user, key, lower, score)
  {
    CountsGrow(log, a, user, key);
    FinishedGrows(log, a, user, key, score);
    UnbeatenGrows(log, a, user, key, lower, score);
  }

  lemma UnbeatenBeats(log: seq<Attempt>, user: User, key: Key, lower: bool, x: int, y: int)
    requires Unbeaten(log, user, key, lower, y) && AsGood(lower, x, y)
    ensures Unbeaten(log, user, key, lower, x)
  {
    hide Finish;
  }

  /**
   A finish leaves the best score in the row, if and only if it is the first, the row held
   the best before, or the finish is as good as all before it.
   */
  lemma {:induction false} BestStepIff(log: seq<Attempt>, a: Attempt, lower: bool, row: Best)
    requires a.finish && row.finishes == Finishes(log, a.user, a.key)
    requires row.finishes > 0 ==> FinishedWith(log, a.user, a.key, row.score)
    ensures IsBest(log + [a], a.user, a.key, lower, if Better(lower, a.elapsed, row) then a.elapsed else row.score) <==>
              || row.finishes == 0
              || IsBest(log, a.user, a.key, lower, row.score)
              || Unbeaten(log, a.user, a.key, lower, a.elapsed)
  {
    var score := if Better(lower, a.elapsed, row) then a.elapsed else row.score;
    CountsGrow(log, a, a.user, a.key);
    FinishedGrows(log, a, a.user, a.key, score);
    UnbeatenGrows(log, a, a.user, a.key, lower, score);
    if row.finishes == 0 {
      forall i | 0 <= i < |log| ensures !Finish(log[i], a.user, a.key) {
        NoneFinished(log, a.user, a.key, i);
      }
    } else if Unbeaten(log, a.user, a.key, lower, row.score) && AsGood(lower, a.elapsed, row.score) {
      UnbeatenBeats(log, a.user, a.key, lower, a.elapsed, row.score);
    } else if Unbeaten(log, a.user, a.key, lower, a.elapsed) {
      assert AsGood(lower, a.elapsed, row.score);
    }
  }

  /** The row of this user and game before an attempt of theirs is counted. */
  function RowBefore(tables: Tables, user: User, key: Key): Best {
    if (user, key) in tables.best then tables.best[(user, key)] else Best(0, 0, 0)
  }

  lemma CountedRow(tables: Tables, a: Attempt, lower: bool, user: User, key: Key)
    ensures var row := RowBefore(tables, user, key);
            RowBefore(Counted(tables, a, lower), user, key)
            == if !Of(a, user, key) then row
               else if !a.finish then row.(attempts := row.attempts + 1)
               else Best(if Better(lower, a.elapsed, row) then a.elapsed else row.score,
                         row.finishes + 1, row.attempts + 1)
    ensures (user, key) in Counted(tables, a, lower).best <==> (user, key) in tables.best || Of(a, user, key)
  {
  }

  lemma {:induction false} CountsRead(tables: Tables, user: User, key: Key)
    requires RowCounts(tables, user, key)
    ensures var row := RowBefore(tables, user, key);
            && row.attempts == Attempts(tables.log, user, key) && row.finishes == Finishes(tables.log, user, key)
            && (if row.finishes == 0 then row.score == 0 else FinishedWith(tables.log, user, key, row.score))
            && row.score == Score(tables, user, key)
  {
    FinishesAreAttempts(tables.log, user, key);
    hide FinishedWith, Attempts, Finishes;
  }

  /** In whichever order it is counted, an attempt keeps the counts, and the score one of the finishes. */
  lemma CountedCounts(tables: Tables, a: Attempt, lower: bool, user: User, key: Key)
    requires RowCounts(tables, user, key)
    ensures RowCounts(Counted(tables, a, lower), user, key)
  {
    var row := RowBefore(tables, user, key);
    CountsRead(tables, user, key);
    CountedRow(tables, a, lower, user, key);
    CountsGrow(tables.log, a, user, key);
    FinishedGrows(tables.log, a, user, key, row.score);
    FinishedGrows(tables.log, a, user, key, a.elapsed);
    assert Counted(tables, a, lower).log == tables.log + [a];
    hide Attempts, Finishes, FinishedWith, Counted, Better;
  }

  /**
   Counted in this order, an attempt leaves the best in the row if it was there, or if it
   is a finish as good as all.
   */
  lemma CountedBest(tables: Tables, a: Attempt, lower: bool, user: User, key: Key, order: bool)
    requires RowCounts(tables, user, key) && (Finish(a, user, key) ==> lower == order)
    ensures ScoreIsBest(Counted(tables, a, lower), user, key, order) <==>
              || ScoreIsBest(tables, user, key, order)
              || (Finish(a, user, key) && Unbeaten(tables.log, user, key, order, a.elapsed))
  {
    var row := RowBefore(tables, user, key);
    CountsRead(tables, user, key);
    CountedRow(tables, a, lower, user, key);
    assert Counted(tables, a, lower).log == tables.log + [a];
    hide Attempts, Finishes, FinishedWith, Counted, Better, Unbeaten;
    if Finish(a, user, key) {
      BestStepIff(tables.log, a, order, row);
    } else {
      BestStays(tables.log, a, user, key, order, row.score);
      hide IsBest;
    }
  }

  // ---- reports among the transactions ----

  datatype World = World(db: Db, tables: Tables)

  datatype Step = Other(e: W.Event) | Reports(r: Report)

  function Advance(w: World, s: Step): World {
    match s
    case Other(e) => w.(db := W.Next(w.db, e))
    case Reports(r) => w.(tables := Reported(w.db, w.tables, r))
  }

  function Run(w: World, steps: seq<Step>): World
    decreases |steps|
  {
    if steps == [] then w else Run(Advance(w, steps[0]), steps[1..])
  }

  lemma {:induction false} RunSplit(w: World, before: seq<Step>, since: seq<Step>)
    ensures Run(w, before + since) == Run(Run(w, before), since)
    decreases |before|
  {
    hide Advance;
    if before == [] {
      assert before + since == since;
    } else {
      assert (before + since)[1..] == before[1..] + since;
      RunSplit(Advance(w, before[0]), before[1..], since);
    }
  }

  /** Whenever a finish of this user is counted for this game, the game's kind has this order. */
  ghost predicate Ordered(w: World, steps: seq<Step>, user: User, m: MapUid, slug: string, lower: bool)
    decreases |steps|
  {
    steps == [] ||
      (&& (steps[0].Reports? && steps[0].r.user == user && steps[0].r.m == m && steps[0].r.slug == slug
           && steps[0].r.finish ==>
             var row := GameRow(w.db, m, steps[0].r.id, slug);
             row.Some? ==> M.LowerIsBetter(row.value.row.kind) == lower)
       && Ordered(Advance(w, steps[0]), steps[1..], user, m, slug, lower))
  }

  /** The row behind the lock has the key of its map and slug. */
  lemma {:induction false} RowKey(db: Db, m: MapUid, id: SpecId, slug: string)
    requires W.Inv(db) && GameRow(db, m, id, slug).Some?
    ensures GameRow(db, m, id, slug).value.key == Key(OfGame, m, slug)
  {
    assert W.Run(db, []) == db;
    hide W.Inv, Parse, W.Run;
    var i := W.LockedGameIsPresent(db, [], m, id, slug);
  }

  /** What a report adds to the log, if anything. */
  lemma ReportShape(db: Db, tables: Tables, r: Report)
    requires W.Inv(db)
    ensures var row, key := GameRow(db, r.m, r.id, r.slug), Key(OfGame, r.m, r.slug);
            || Reported(db, tables, r) == tables
            || (row.Some? && Reported(db, tables, r)
                          == Counted(tables, Attempt(r.user, key, r.elapsed, r.finish),
                                     M.LowerIsBetter(row.value.row.kind)))
  {
    hide GameRow, W.Inv, Counted;
    if GameRow(db, r.m, r.id, r.slug).Some? {
      RowKey(db, r.m, r.id, r.slug);
    }
  }

  lemma ReportCounts(w: World, r: Report, user: User, key: Key)
    requires W.Inv(w.db) && RowCounts(w.tables, user, key)
    ensures RowCounts(Reported(w.db, w.tables, r), user, key)
  {
    ReportShape(w.db, w.tables, r);
    hide GameRow, Reported, RowCounts, Counted, W.Inv;
    var row := GameRow(w.db, r.m, r.id, r.slug);
    if row.Some? {
      CountedCounts(w.tables, Attempt(r.user, Key(OfGame, r.m, r.slug), r.elapsed, r.finish),
                    M.LowerIsBetter(row.value.row.kind), user, key);
    }
  }

  lemma {:induction false} CountsKept(w: World, steps: seq<Step>, user: User, key: Key)
    requires W.Inv(w.db) && RowCounts(w.tables, user, key)
    ensures W.Inv(Run(w, steps).db) && RowCounts(Run(w, steps).tables, user, key)
    decreases |steps|
  {
    hide RowCounts, Reported, W.Inv, W.Next;
    if steps != [] {
      if steps[0].Other? {
        W.NextKeeps(w.db, steps[0].e);
      } else {
        ReportCounts(w, steps[0].r, user, key);
      }
      CountsKept(Advance(w, steps[0]), steps[1..], user, key);
    }
  }

  /**
   After any transactions and reports, whatever the kinds were, the best row of a user and
   a game counts the attempts and finishes of the log, and holds the time of one of them.
   */
  lemma {:induction false} RowsCountTheLog(w: World, steps: seq<Step>, user: User, key: Key)
    requires W.Inv(w.db) && w.tables == Tables([], map[])
    ensures RowCounts(Run(w, steps).tables, user, key)
  {
    CountsKept(w, steps, user, key);
  }

  // ---- what is logged ----

  /**
   A report that is logged: its map holds the present version of its spec, verified, that
   spec has a game of its slug, and it is no finish with a negative time.
   */
  ghost predicate Playable(db: Db, r: Report) {
    && Materialised(db, r.m, r.id) && Parse(db.specs[r.id].json).Ok?
    && (exists i :: 0 <= i < |Parse(db.specs[r.id].json).value.games|
                    && Parse(db.specs[r.id].json).value.games[i].slug == r.slug)
    && (r.finish ==> r.elapsed >= 0)
  }

  /** The reports of a run that come while they are playable, in order. */
  ghost function Played(db: Db, steps: seq<Step>): seq<Attempt>
    decreases |steps|
  {
    if steps == [] then [] else
      match steps[0]
      case Other(e) => Played(W.Next(db, e), steps[1..])
      case Reports(r) =>
        (if Playable(db, r) then [Attempt(r.user, Key(OfGame, r.m, r.slug), r.elapsed, r.finish)] else [])
        + Played(db, steps[1..])
  }

  lemma {:induction false} PlayableIff(db: Db, r: Report)
    requires W.Inv(db)
    ensures Playable(db, r) <==> GameRow(db, r.m, r.id, r.slug).Some? && (r.finish ==> r.elapsed >= 0)
  {
    if Materialised(db, r.m, r.id) {
      assert W.Run(db, []) == db;
      hide W.Inv, Parse, Materialised, W.Run, RowsOn;
      var i := W.LockedGameIsPresent(db, [], r.m, r.id, r.slug);
    }
  }

  lemma LogsPlayable(db: Db, tables: Tables, r: Report)
    requires W.Inv(db)
    ensures Reported(db, tables, r).log
         == tables.log + if Playable(db, r) then [Attempt(r.user, Key(OfGame, r.m, r.slug), r.elapsed, r.finish)]
             else []
  {
    PlayableIff(db, r);
    hide Playable, W.Inv, GameRow;
    if GameRow(db, r.m, r.id, r.slug).Some? {
      RowKey(db, r.m, r.id, r.slug);
    }
  }

  /**
   The attempt log of a run is what was there, followed by exactly the playable reports in
   their order, cancels and finishes alike, each once.
   */
  lemma {:induction false} LogIsWhatWasPlayed(w: World, steps: seq<Step>)
    requires W.Inv(w.db)
    ensures Run(w, steps).tables.log == w.tables.log + Played(w.db, steps)
    decreases |steps|
  {
    hide Reported, Playable, W.Inv, W.Next;
    if steps != [] {
      if steps[0].Other? {
        W.NextKeeps(w.db, steps[0].e);
      } else {
        LogsPlayable(w.db, w.tables, steps[0].r);
      }
      LogIsWhatWasPlayed(Advance(w, steps[0]), steps[1..]);
    }
  }

  /** This finish of the log is as good as all before it. */
  ghost predicate Leads(log: seq<Attempt>, i: nat, user: User, key: Key, lower: bool)
    requires i < |log|
  {
    Finish(log[i], user, key) && Unbeaten(log[..i], user, key, lower, log[i].elapsed)
  }

  /** Some finish from the `k`-th attempt on is as good as all before it. */
  ghost predicate LeadsSince(log: seq<Attempt>, k: nat, user: User, key: Key, lower: bool) {
    exists i :: k <= i < |log| && Leads(log, i, user, key, lower)
  }

  lemma {:induction false} LogGrows(w: World, steps: seq<Step>)
    ensures w.tables.log <= Run(w, steps).tables.log
    decreases |steps|
  {
    hide W.Next, GameRow;
    if steps != [] {
      LogGrows(Advance(w, steps[0]), steps[1..]);
    }
  }

  lemma LeadsFirst(log: seq<Attempt>, a: Attempt, later: seq<Attempt>, user: User, key: Key, lower: bool)
    requires log + [a] <= later
    ensures LeadsSince(later, |log|, user, key, lower) <==>
              || (Finish(a, user, key) && Unbeaten(log, user, key, lower, a.elapsed))
              || LeadsSince(later, |log| + 1, user, key, lower)
  {
    hide Unbeaten, Finish;
    assert later[..|log|] == log && later[|log|] == (log + [a])[|log|] == a;
    assert Leads(later, |log|, user, key, lower) <==>
             Finish(a, user, key) && Unbeaten(log, user, key, lower, a.elapsed);
    hide Leads;
  }

  lemma {:induction false} ReportBest(w: World, r: Report, now: seq<Attempt>, user: User, m: MapUid, slug: string,
                                      lower: bool)
    requires W.Inv(w.db) && RowCounts(w.tables, user, Key(OfGame, m, slug))
    requires Ordered(w, [Reports(r)], user, m, slug, lower) && Reported(w.db, w.tables, r).log <= now
    ensures var key, after := Key(OfGame, m, slug), Reported(w.db, w.tables, r);
            (ScoreIsBest(after, user, key, lower) || LeadsSince(now, |after.log|, user, key, lower)) <==>
            (ScoreIsBest(w.tables, user, key, lower) || LeadsSince(now, |w.tables.log|, user, key, lower))
  {
    ReportShape(w.db, w.tables, r);
    var after := Reported(w.db, w.tables, r);
    hide GameRow, Reported, RowCounts, W.Inv, ScoreIsBest, LeadsSince, Unbeaten;
    if after != w.tables {
      var a := Attempt(r.user, Key(OfGame, r.m, r.slug), r.elapsed, r.finish);
      var order := M.LowerIsBetter(GameRow(w.db, r.m, r.id, r.slug).value.row.kind);
      CountedBest(w.tables, a, order, user, Key(OfGame, m, slug), lower);
      assert after.log == w.tables.log + [a];
      LeadsFirst(w.tables.log, a, now, user, Key(OfGame, m, slug), lower);
    }
  }

  lemma {:induction false} BestSince(w: World, steps: seq<Step>, user: User, m: MapUid, slug: string, lower: bool)
    requires W.Inv(w.db) && RowCounts(w.tables, user, Key(OfGame, m, slug))
    requires Ordered(w, steps, user, m, slug, lower)
    ensures var key, now := Key(OfGame, m, slug), Run(w, steps).tables;
            ScoreIsBest(now, user, key, lower) <==>
              ScoreIsBest(w.tables, user, key, lower) || LeadsSince(now.log, |w.tables.log|, user, key, lower)
    decreases |steps|
  {
    hide RowCounts, Reported, W.Inv, W.Next, GameRow, ScoreIsBest, Leads;
    if steps != [] {
      var after := Advance(w, steps[0]);
      LogGrows(after, steps[1..]);
      hide LeadsSince;
      if steps[0].Other? {
        W.NextKeeps(w.db, steps[0].e);
      } else {
        assert Ordered(after, [], user, m, slug, lower) && [steps[0]][1..] == [];
        ReportCounts(w, steps[0].r, user, Key(OfGame, m, slug));
        ReportBest(w, steps[0].r, Run(w, steps).tables.log, user, m, slug, lower);
      }
      BestSince(after, steps[1..], user, m, slug, lower);
    }
  }

  /**
   Whatever the kinds were before: if since then every finish of a user was counted in one
   order, the row is the best of the whole log in that order, if and only if it was so
   then, or some finish since was as good as all before it.
   */
  lemma {:induction false} BestIffBestThenOrLed(w: World, before: seq<Step>, since: seq<Step>,
                                                user: User, m: MapUid, slug: string, lower: bool)
    requires W.Inv(w.db) && w.tables == Tables([], map[])
    requires Ordered(Run(w, before), since, user, m, slug, lower)
    ensures var key, mid, now := Key(OfGame, m, slug), Run(w, before).tables, Run(w, before + since).tables;
            ScoreIsBest(now, user, key, lower) <==>
              ScoreIsBest(mid, user, key, lower) || LeadsSince(now.log, |mid.log|, user, key, lower)
  {
    CountsKept(w, before, user, Key(OfGame, m, slug));
    RunSplit(w, before, since);
    hide RowCounts, W.Inv, ScoreIsBest, LeadsSince;
    BestSince(Run(w, before), since, user, m, slug, lower);
  }

  /**
   So while all finishes of a user are counted in one order, the best row is exactly what
   the attempt log says: how often the game was played and finished, and the least
   finished time (Sprint) or the greatest (every other kind), zero without a finish.
   */
  lemma {:induction false} BestRowsMatchTheLog(w: World, steps: seq<Step>, user: User, m: MapUid, slug: string,
                                               lower: bool)
    requires W.Inv(w.db) && w.tables == Tables([], map[]) && Ordered(w, steps, user, m, slug, lower)
    ensures RowCounts(Run(w, steps).tables, user, Key(OfGame, m, slug))
    ensures ScoreIsBest(Run(w, steps).tables, user, Key(OfGame, m, slug), lower)
  {
    assert [] + steps == steps;
    RowsCountTheLog(w, steps, user, Key(OfGame, m, slug));
    BestIffBestThenOrLed(w, [], steps, user, m, slug, lower);
  }

  // ---- a run in which the kind changes ----

  /** Map 1 is bound to the spec of user 7 and shows its one game. */
  ghost predicate Lists(db: Db, kind: M.Kind, version: nat) {
    && db.ids == map[(7, "n") := 0] && db.clock == version
    && db.specs == map[0 := SpecOf7(GameSpec(kind), version)]
    && db.bindings == map[1 := Binding(0, Some(7), Some(Revision(version, 0)))]
    && GameRow(db, 1, 0, "Game") == Some(Placed(Game1(), OneGame(kind), 7, "n"))
  }

  /** User 7 uploads a spec with one game, of this kind, and binds map 1 to it. */
  function Listing(kind: M.Kind, version: nat, bound: Option<Binding>): seq<Step> {
    [Other(W.Uploads(7, "n", GameSpec(kind), 0)),
     Other(W.BindsAsAuthor(Locked(SpecOf7(GameSpec(kind), version), bound, bound.Some?), Some(7), 7, 1, 0))]
  }

  function Finishes5(elapsed: int): Step {
    Reports(Report(5, 1, "Game", 0, elapsed, true))
  }

  lemma {:induction false} RunTwo(w: World, a: Step, b: Step)
    ensures Run(w, [a, b]) == Advance(Advance(w, a), b)
  {
    hide Advance;
    assert [a, b] == [a] + [b] && [a][1..] == [] && [b][1..] == [];
    RunSplit(w, [a], [b]);
  }

  /** Map 1 is not bound, or to an older version. */
  ghost predicate Outdated(db: Db, bound: Option<Binding>, version: nat) {
    match bound
    case None => db.bindings == map[]
    case Some(b) =>
      && b.spec == 0 && b.author == Some(7) && b.revision.Some? && b.revision.value.version < version
      && db.bindings == map[1 := b]
  }

  /** Nothing but the spec of user 7 has been uploaded, if that, and this is its next version. */
  ghost predicate Continues(db: Db, version: nat) {
    && db.clock + 1 == version
    && ((db.ids == map[] && db.specs == map[] && db.nextId == 0)
        || (db.ids == map[(7, "n") := 0] && db.specs.Keys == {0}))
  }

  lemma ListedByBind(db: Db, kind: M.Kind, version: nat, bound: Option<Binding>)
    requires db.ids == map[(7, "n") := 0] && db.clock == version
    requires db.specs == map[0 := SpecOf7(GameSpec(kind), version)]
    requires Outdated(db, bound, version)
    ensures var l := Locked(SpecOf7(GameSpec(kind), version), bound, bound.Some?);
            Lists(W.Next(db, W.BindsAsAuthor(l, Some(7), 7, 1, 0)), kind, version)
  {
    GameSpecParses(kind);
    GameShown(kind);
    hide GameSpec, Parse, Rows, W.Next;
    var l := Locked(SpecOf7(GameSpec(kind), version), bound, bound.Some?);
    assert l == LockRows(db, 1, 0);
    hide LockRows;
    OwnBind(db, l, 1, 0);
    hide RowsOn, Materialised;
  }

  lemma {:induction false} Listed(w: World, kind: M.Kind, version: nat, bound: Option<Binding>)
    requires Outdated(w.db, bound, version) && Continues(w.db, version)
    ensures var now := Run(w, Listing(kind, version, bound));
            now.tables == w.tables && Lists(now.db, kind, version)
  {
    GameSpecParses(kind);
    var steps := Listing(kind, version, bound);
    hide GameSpec, Parse, Run, Strip, W.Next, Lists;
    RunTwo(w, steps[0], steps[1]);
    Uploaded(w.db, kind, version);
    ListedByBind(Advance(w, steps[0]).db, kind, version, bound);
  }

  lemma Uploaded(db: Db, kind: M.Kind, version: nat)
    requires Continues(db, version)
    ensures var after := W.Next(db, W.Uploads(7, "n", GameSpec(kind), 0));
            && after.ids == map[(7, "n") := 0] && after.clock == version
            && after.specs == map[0 := SpecOf7(GameSpec(kind), version)] && after.bindings == db.bindings
  {
    hide GameSpec, Parse, Strip, W.Next;
    GameSpecParses(kind);
    UploadFields(db, 7, "n", GameSpec(kind), 0);
  }

  lemma {:induction false} FinishListed(w: World, kind: M.Kind, version: nat, elapsed: nat)
    requires Lists(w.db, kind, version)
    ensures Run(w, [Finishes5(elapsed)])
         == World(w.db, Counted(w.tables, Attempt(5, Game1(), elapsed, true), M.LowerIsBetter(kind)))
  {
    hide GameRow, Counted;
    assert [Finishes5(elapsed)][1..] == [];
  }

  /** Two finishes of a Sprint and one of a HighJump under the same slug. */
  lemma ThreeFinishes(user: User, key: Key)
    ensures
      var a, b, c := Attempt(user, key, 5, true), Attempt(user, key, 3, true), Attempt(user, key, 4, true);
      var after := Counted(Counted(Counted(Tables([], map[]), a, true), b, true), c, false);
      after.log == [a, b, c] && Score(after, user, key) == 4 && forall lower :: !ScoreIsBest(after, user, key, lower)
  {
    var a, b, c := Attempt(user, key, 5, true), Attempt(user, key, 3, true), Attempt(user, key, 4, true);
    CountsGrow([], a, user, key);
    CountsGrow([a], b, user, key);
    CountsGrow([a, b], c, user, key);
    assert [] + [a] == [a] && [a] + [b] == [a, b] && [a, b] + [c] == [a, b, c];
    var log := [a, b, c];
    assert Finish(log[0], user, key) && Finish(log[1], user, key) && log[0].elapsed == 5 && log[1].elapsed == 3;
  }

  function SprintRun(): seq<Step> {
    (Listing(M.Sprint, 1, None) + [Finishes5(5)]) + [Finishes5(3)]
  }

  /** User 7 makes a Sprint a HighJump under the same slug, between the finishes of user 5. */
  function ChangingRun(): seq<Step> {
    (SprintRun() + Listing(M.HighJump, 2, Some(Binding(0, Some(7), Some(Revision(1, 0)))))) + [Finishes5(4)]
  }

  lemma {:induction false} AfterSprint(w: World)
    requires w == World(EmptyDb(), Tables([], map[]))
    ensures var now := Run(w, SprintRun());
            && Lists(now.db, M.Sprint, 1)
            && now.tables
               == Counted(Counted(w.tables, Attempt(5, Game1(), 5, true), true), Attempt(5, Game1(), 3, true), true)
  {
    var s := Listing(M.Sprint, 1, None);
    hide Run, Counted, Lists, Listing, Finishes5;
    RunSplit(w, s, [Finishes5(5)]);
    RunSplit(w, s + [Finishes5(5)], [Finishes5(3)]);
    Listed(w, M.Sprint, 1, None);
    hide EmptyDb;
    var w1 := Run(w, s);
    FinishListed(w1, M.Sprint, 1, 5);
    FinishListed(Run(w1, [Finishes5(5)]), M.Sprint, 1, 3);
  }

  /** A run from empty tables after which the row is the best of the log in neither order. */
  lemma ChangedKindMixesOrders()
    ensures var now := Run(World(EmptyDb(), Tables([], map[])), ChangingRun()).tables;
            && now.log == [Attempt(5, Game1(), 5, true), Attempt(5, Game1(), 3, true), Attempt(5, Game1(), 4, true)]
            && Score(now, 5, Game1()) == 4 && forall lower :: !ScoreIsBest(now, 5, Game1(), lower)
  {
    var w := World(EmptyDb(), Tables([], map[]));
    var bound := Some(Binding(0, Some(7), Some(Revision(1, 0))));
    hide Run, Counted, Listing, Finishes5, ScoreIsBest, EmptyDb, SprintRun;
    AfterSprint(w);
    RunSplit(w, SprintRun(), Listing(M.HighJump, 2, bound));
    RunSplit(w, SprintRun() + Listing(M.HighJump, 2, bound), [Finishes5(4)]);
    var w1 := Run(w, SprintRun());
    assert Outdated(w1.db, bound, 2) && Continues(w1.db, 2);
    hide Lists, Outdated, Continues;
    Listed(w1, M.HighJump, 2, bound);
    FinishListed(Run(w1, Listing(M.HighJump, 2, bound)), M.HighJump, 2, 4);
    ThreeFinishes(5, Game1());
  }

  /** Every finish in the log has a time. */
  ghost predicate FinishesTimed(log: seq<Attempt>) {
    forall i :: 0 <= i < |log| && log[i].finish ==> log[i].elapsed >= 0
  }

  lemma ReportTimed(db: Db, tables: Tables, r: Report)
    requires FinishesTimed(tables.log)
    ensures FinishesTimed(Reported(db, tables, r).log)
  {
    hide GameRow;
  }

  /** A finish reported with a negative time leaves no trace. */
  lemma {:induction false} NegativeFinishesLeaveNoTrace(w: World, steps: seq<Step>)
    requires FinishesTimed(w.tables.log)
    ensures FinishesTimed(Run(w, steps).tables.log)
    decreases |steps|
  {
    hide Reported, W.Next, FinishesTimed;
    if steps != [] {
      if steps[0].Reports? {
        ReportTimed(w.db, w.tables, steps[0].r);
      }
      NegativeFinishesLeaveNoTrace(Advance(w, steps[0]), steps[1..]);
    }
  }
}
