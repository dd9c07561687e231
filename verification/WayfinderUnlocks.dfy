/**
 Hat unlock reports (`report_unlock`, `src/queries/hats.rs`): the row is read, validated
 predicate by predicate while anything may be rebound, and locked and compared again
 before the unlock is written.
 */
module WayfinderUnlocks {
  import opened Common
  import opened Wayfinder
  import opened WayfinderInvariant
  import JsonText
  import B = WayfinderBinding

  type ReportId = nat

  /** What Nadeo is asked: has this user finished this map just now, has this user a record on that one. */
  datatype Claim = Finish | Record(uid: string)

  datatype Phase =
    | Started
    | Looked(row: Guard)
    | Validating(row: Guard, finishLeft: bool, done: nat)
    | Answered(ok: bool)

  datatype Report = Report(user: User, m: MapUid, slug: string, id: SpecId, phase: Phase)

  /** An unlock row that was written, with the row as locked in that transaction. */
  datatype Grant = Grant(report: ReportId, user: User, m: MapUid, slug: string, locked: Guard)

  datatype World = World(db: Db, reports: map<ReportId, Report>, confirmed: set<(ReportId, Claim)>, grants: seq<Grant>)

  datatype Step =
    | Other(e: Event)
    | Begin(t: ReportId, user: User, m: MapUid, slug: string, id: SpecId)
    | Reads(t: ReportId)
    | Checks(t: ReportId, allowed: bool)
    | Asks(t: ReportId, answer: bool)
    | Commits(t: ReportId)

  function Goto(w: World, t: ReportId, p: Phase): World
    requires t in w.reports
  {
    w.(reports := w.reports[t := w.reports[t].(phase := p)])
  }

  /** The next predicate of a row to validate: the finish first, then the records in order. */
  function NextClaim(row: Guard, finishLeft: bool, done: nat): Option<Claim> {
    if finishLeft then Some(Finish) else if done < |row.uids| then Some(Record(row.uids[done])) else None
  }

  function Advance(w: World, s: Step): World {
    match s
    case Other(e) => if e.Unlocks? then w else w.(db := Next(w.db, e))
    case Begin(t, user, m, slug, id) =>
      if t in w.reports then w else w.(reports := w.reports[t := Report(user, m, slug, id, Started)])
    case _ =>
      if s.t !in w.reports then w else AdvanceReport(w, s, w.reports[s.t])
  }

  function AdvanceReport(w: World, s: Step, r: Report): World
    requires !s.Other? && !s.Begin? && s.t in w.reports && w.reports[s.t] == r
  {
    match (s, r.phase)
    case (Reads(t), Started) =>
      var row := HatRow(w.db, r.m, r.id, r.slug);
      Goto(w, t, if row.None? then Answered(false) else Looked(row.value))
    case (Checks(t, allowed), Looked(row)) =>
      Goto(w, t,
        if (r.user, row.key) in w.db.unlocks then Answered(true)
        else if !allowed || (!row.finish && row.uids == []) then Answered(false)
        else Validating(row, row.finish, 0))
    case (Asks(t, answer), Validating(row, finishLeft, done)) =>
      var claim := NextClaim(row, finishLeft, done);
      if claim.None? then w
      else if !answer then Goto(w, t, Answered(false))
      else
        Goto(w, t, Validating(row, false, if finishLeft then done else done + 1))
          .(confirmed := w.confirmed + {(t, claim.value)})
    case (Commits(t), Validating(row, finishLeft, done)) =>
      if NextClaim(row, finishLeft, done).Some? then w
      else
        var locked := HatRow(w.db, r.m, r.id, r.slug);
        var (db, ok) := CommitUnlock(w.db, r.user, r.m, r.slug, r.id, row);
        Goto(w, t, Answered(ok)).(
          db := db,
          grants := if db.unlocks == w.db.unlocks || locked.None? then w.grants
                    else w.grants + [Grant(t, r.user, r.m, r.slug, locked.value)])
    case _ => w
  }

  function History(w: World, steps: seq<Step>): World
    decreases |steps|
  {
    if steps == [] then w else History(Advance(w, steps[0]), steps[1..])
  }

  // ---- the invariant ----

  /** Everything a row demands has been confirmed in this report, and it demands something. */
  ghost predicate Proved(w: World, t: ReportId, row: Guard) {
    && (row.finish || row.uids != [])
    && (row.finish ==> (t, Finish) in w.confirmed)
    && (forall i :: 0 <= i < |row.uids| ==> (t, Record(row.uids[i])) in w.confirmed)
  }

  ghost predicate ProvedSoFar(w: World, t: ReportId, row: Guard, finishLeft: bool, done: nat) {
    && (row.finish || row.uids != [])
    && done <= |row.uids|
    && (row.finish && !finishLeft ==> (t, Finish) in w.confirmed)
    && (forall i :: 0 <= i < done ==> (t, Record(row.uids[i])) in w.confirmed)
  }

  ghost predicate ReportsHonest(w: World) {
    forall t :: t in w.reports && w.reports[t].phase.Validating? ==>
      ProvedSoFar(w, t, w.reports[t].phase.row, w.reports[t].phase.finishLeft, w.reports[t].phase.done)
  }

  /** A grant was proved in its own report, which was its user's, for the row as it was locked. */
  ghost predicate GrantBacked(w: World, g: Grant) {
    && Proved(w, g.report, g.locked)
    && g.report in w.reports
    && w.reports[g.report].user == g.user && w.reports[g.report].m == g.m && w.reports[g.report].slug == g.slug
  }

  ghost predicate GrantsBacked(w: World) {
    forall i :: 0 <= i < |w.grants| ==> GrantBacked(w, w.grants[i])
  }

  ghost predicate Granted(w: World, user: User, key: Key) {
    exists i :: 0 <= i < |w.grants| && w.grants[i].user == user && w.grants[i].locked.key == key
  }

  /** Unlock rows that were not there at the start were granted. */
  ghost predicate UnlocksGranted(w: World, initial: set<(User, Key)>) {
    forall k :: k in w.db.unlocks ==> k in initial || Granted(w, k.0, k.1)
  }

  ghost predicate Good(w: World, initial: set<(User, Key)>) {
    ReportsHonest(w) && GrantsBacked(w) && UnlocksGranted(w, initial)
  }

  lemma OthersLeaveUnlocks(db: Db, e: Event)
    requires !e.Unlocks?
    ensures Next(db, e).unlocks == db.unlocks
  {
    hide Upload, DeleteSpec, CommitLocked, CommitComment, Equip, Without, Holds;
    match e
    case Uploads(user, name, json, hash) => UploadLeavesUnlocks(db, user, name, json, hash);
    case DeletesSpec(user, name) => DeleteLeavesUnlocks(db, user, name);
    case BindsAsAuthor(l, prepared, reporter, m, id) =>
      if Holds(db, l, m, id) {
        AuthorBindLeavesUnlocks(db, l, prepared, reporter, m, id);
      }
    case BindsByComment(l, m, id) =>
      if Holds(db, l, m, id) {
        CommentBindLeavesUnlocks(db, l, m, id);
      }
    case Equips(user, m, slug, readId) => EquipLeavesUnlocks(db, user, m, slug, readId);
    case _ =>
  }

  lemma UploadLeavesUnlocks(db: Db, user: User, name: string, json: JsonText.Json, hash: nat)
    ensures Upload(db, user, name, json, hash).0.unlocks == db.unlocks
  {
    hide Parse, Strip;
  }

  lemma DeleteLeavesUnlocks(db: Db, user: User, name: string)
    ensures DeleteSpec(db, user, name).0.unlocks == db.unlocks
  {
    hide IsBound;
  }

  lemma MaterialiseLeavesUnlocks(db: Db, m: MapUid, id: SpecId, cat: Catalog)
    requires id in db.specs && m in db.bindings
    ensures Materialise(db, m, id, cat).unlocks == db.unlocks
  {
    hide Rows, Kept, WornOn;
  }

  lemma AuthorBindLeavesUnlocks(db: Db, l: Locked, prepared: Option<User>, reporter: User, m: MapUid, id: SpecId)
    requires Holds(db, l, m, id)
    ensures CommitLocked(db, l, prepared, reporter, m, id).0.unlocks == db.unlocks
  {
    hide CommitLocked, Parse, Materialise, Holds, Purge, Rebind, IsVerified;
    BindAccepted(db, l, prepared, reporter, m, id);
    var r := CommitLocked(db, l, prepared, reporter, m, id).1;
    if r.Ok? && r.value.materialised {
      BindIsMaterialise(db, l, prepared, reporter, m, id);
      MaterialiseLeavesUnlocks(Rebound(db, reporter, m, id), m, id, Parse(db.specs[id].json).value);
    }
  }

  lemma CommentBindLeavesUnlocks(db: Db, l: Locked, m: MapUid, id: SpecId)
    requires Holds(db, l, m, id)
    ensures CommitComment(db, l, m, id).0.unlocks == db.unlocks
  {
    CommentShape(db, l, m, id);
    hide CommitComment, Parse, Materialise, Repointed, Synchronised, Holds;
    if CommitComment(db, l, m, id).0 != db {
      RepointedLeavesUnlocks(db, m, id, Moved(l, id));
      MaterialiseLeavesUnlocks(Repointed(db, m, id, Moved(l, id)), m, id, Parse(db.specs[id].json).value);
    }
  }

  lemma RepointedLeavesUnlocks(db: Db, m: MapUid, id: SpecId, moved: bool)
    requires id in db.specs
    ensures Repointed(db, m, id, moved).unlocks == db.unlocks
  {
    hide Purge, Rebind;
  }

  lemma EquipLeavesUnlocks(db: Db, user: User, m: MapUid, slug: string, readId: Option<SpecId>)
    ensures Equip(db, user, m, slug, readId).0.unlocks == db.unlocks
  {
    hide Materialised, MayWear;
  }

  /** Steps that touch neither unlocks nor grants and only add confirmations. */
  lemma ReportStepKeeps(w: World, after: World, t: ReportId, initial: set<(User, Key)>)
    requires Good(w, initial) && t in after.reports
    requires after.db.unlocks == w.db.unlocks && after.grants == w.grants && w.confirmed <= after.confirmed
    requires forall u :: u in w.reports ==> u in after.reports
    requires forall u :: u in after.reports && u != t ==> u in w.reports && after.reports[u] == w.reports[u]
    requires t in w.reports ==> after.reports[t] == w.reports[t].(phase := after.reports[t].phase)
    requires after.reports[t].phase.Validating? ==>
               ProvedSoFar(after, t, after.reports[t].phase.row,
                           after.reports[t].phase.finishLeft, after.reports[t].phase.done)
    ensures Good(after, initial)
  {
    forall u | u in after.reports && u != t && after.reports[u].phase.Validating?
      ensures ProvedSoFar(after, u, after.reports[u].phase.row,
                          after.reports[u].phase.finishLeft, after.reports[u].phase.done)
    {
      var p := w.reports[u].phase;
      assert ProvedSoFar(w, u, p.row, p.finishLeft, p.done);
    }
    forall i | 0 <= i < |after.grants| ensures GrantBacked(after, after.grants[i]) {
      assert GrantBacked(w, w.grants[i]);
    }
    forall k | k in after.db.unlocks ensures k in initial || Granted(after, k.0, k.1) {
      if k !in initial {
        assert Granted(w, k.0, k.1);
      }
    }
  }

  lemma OtherKeeps(w: World, e: Event, initial: set<(User, Key)>)
    requires Good(w, initial) && !e.Unlocks?
    ensures Good(w.(db := Next(w.db, e)), initial)
  {
    OthersLeaveUnlocks(w.db, e);
    hide Next;
    var after := w.(db := Next(w.db, e));
    forall i | 0 <= i < |after.grants| ensures GrantBacked(after, after.grants[i]) {
      assert GrantBacked(w, w.grants[i]);
    }
    forall u | u in after.reports && after.reports[u].phase.Validating?
      ensures ProvedSoFar(after, u, after.reports[u].phase.row,
                          after.reports[u].phase.finishLeft, after.reports[u].phase.done)
    {
      var p := w.reports[u].phase;
      assert ProvedSoFar(w, u, p.row, p.finishLeft, p.done);
    }
    forall k | k in after.db.unlocks ensures k in initial || Granted(after, k.0, k.1) {
      if k !in initial {
        assert Granted(w, k.0, k.1);
      }
    }
  }

  lemma AskKeeps(w: World, t: ReportId, answer: bool, initial: set<(User, Key)>)
    requires Good(w, initial) && t in w.reports
    ensures Good(Advance(w, Asks(t, answer)), initial)
  {
    var p := w.reports[t].phase;
    var after := Advance(w, Asks(t, answer));
    if p.Validating? && after != w {
      assert ProvedSoFar(w, t, p.row, p.finishLeft, p.done);
      hide Good, Proved, Next;
      ReportStepKeeps(w, after, t, initial);
    }
  }

  lemma StartKeeps(w: World, s: Step, initial: set<(User, Key)>)
    requires Good(w, initial) && (s.Begin? || s.Reads? || s.Checks?)
    ensures Good(Advance(w, s), initial)
  {
    hide Good, Proved, Next, HatRow;
    var after := Advance(w, s);
    if after != w {
      ReportStepKeeps(w, after, s.t, initial);
    }
  }

  // ---- the commit ----

  /** A commit that writes an unlock writes it for the validated row, which is the locked one. */
  lemma UnlockShape(db: Db, user: User, m: MapUid, slug: string, id: SpecId, validated: Guard)
    ensures var (after, ok) := CommitUnlock(db, user, m, slug, id, validated);
            after.unlocks != db.unlocks ==>
              && HatRow(db, m, id, slug) == Some(validated) && ok
              && after.unlocks == db.unlocks[(user, validated.key) := Place(m, slug)]
  {
    hide HatRow;
  }

  lemma GrantKeeps(w: World, after: World, t: ReportId, initial: set<(User, Key)>, row: Guard)
    requires Good(w, initial) && t in w.reports && Proved(w, t, row)
    requires after.confirmed == w.confirmed
    requires after.reports == w.reports[t := w.reports[t].(phase := Answered(true))]
    requires after.grants == w.grants + [Grant(t, w.reports[t].user, w.reports[t].m, w.reports[t].slug, row)]
    requires after.db.unlocks == w.db.unlocks[(w.reports[t].user, row.key) := Place(w.reports[t].m, w.reports[t].slug)]
    ensures Good(after, initial)
  {
    forall i | 0 <= i < |after.grants| ensures GrantBacked(after, after.grants[i]) {
      if i < |w.grants| {
        assert GrantBacked(w, w.grants[i]);
      }
    }
    forall u | u in after.reports && after.reports[u].phase.Validating?
      ensures ProvedSoFar(after, u, after.reports[u].phase.row,
                          after.reports[u].phase.finishLeft, after.reports[u].phase.done)
    {
      var p := w.reports[u].phase;
      assert ProvedSoFar(w, u, p.row, p.finishLeft, p.done);
    }
    UnlocksStayGranted(w, after, initial, Grant(t, w.reports[t].user, w.reports[t].m, w.reports[t].slug, row));
  }

  lemma UnlocksStayGranted(w: World, after: World, initial: set<(User, Key)>, g: Grant)
    requires UnlocksGranted(w, initial) && after.grants == w.grants + [g]
    requires after.db.unlocks == w.db.unlocks[(g.user, g.locked.key) := Place(g.m, g.slug)]
    ensures UnlocksGranted(after, initial)
  {
    forall k | k in after.db.unlocks ensures k in initial || Granted(after, k.0, k.1) {
      if k == (g.user, g.locked.key) {
        assert after.grants[|w.grants|] == g;
      } else if k !in initial {
        var i :| 0 <= i < |w.grants| && w.grants[i].user == k.0 && w.grants[i].locked.key == k.1;
        assert after.grants[i] == w.grants[i];
      }
    }
  }

  lemma CommitKeeps(w: World, t: ReportId, initial: set<(User, Key)>)
    requires Good(w, initial) && t in w.reports
    ensures Good(Advance(w, Commits(t)), initial)
  {
    var r := w.reports[t];
    var after := Advance(w, Commits(t));
    if r.phase.Validating? && NextClaim(r.phase.row, r.phase.finishLeft, r.phase.done).None? {
      assert ProvedSoFar(w, t, r.phase.row, r.phase.finishLeft, r.phase.done);
      assert Proved(w, t, r.phase.row);
      UnlockShape(w.db, r.user, r.m, r.slug, r.id, r.phase.row);
      hide Good, HatRow, CommitUnlock, Proved, ProvedSoFar;
      if after.db.unlocks == w.db.unlocks {
        ReportStepKeeps(w, after, t, initial);
      } else {
        GrantKeeps(w, after, t, initial, r.phase.row);
      }
    }
  }

  lemma AdvanceKeeps(w: World, s: Step, initial: set<(User, Key)>)
    requires Good(w, initial)
    ensures Good(Advance(w, s), initial)
  {
    hide Good, Next, AdvanceReport;
    match s
    case Other(e) =>
      if !e.Unlocks? {
        OtherKeeps(w, e, initial);
      }
    case Asks(t, answer) =>
      if t in w.reports {
        AskKeeps(w, t, answer, initial);
      }
    case Commits(t) =>
      if t in w.reports {
        CommitKeeps(w, t, initial);
      }
    case _ => StartKeeps(w, s, initial);
  }

  lemma {:induction false} HistoryKeeps(w: World, steps: seq<Step>, initial: set<(User, Key)>)
    requires Good(w, initial)
    ensures Good(History(w, steps), initial)
    decreases |steps|
  {
    hide Good, Advance;
    if steps != [] {
      AdvanceKeeps(w, steps[0], initial);
      HistoryKeeps(Advance(w, steps[0]), steps[1..], initial);
    }
  }

  // ---- what holds in every interleaving ----

  ghost predicate Start(w: World) {
    w.reports == map[] && w.confirmed == {} && w.grants == []
  }

  /**
   Every unlock row written since the start was written by a report of that very user,
   in which every finish and record the locked row demands was confirmed; whatever was
   uploaded, bound, recovered or equipped in between.
   */
  lemma UnlocksAreProved(w: World, steps: seq<Step>, user: User, key: Key) returns (i: nat)
    requires Start(w) && (user, key) in History(w, steps).db.unlocks && (user, key) !in w.db.unlocks
    ensures var now := History(w, steps);
            && i < |now.grants|
            && var g := now.grants[i];
               && g.user == user && g.locked.key == key
               && GrantBacked(now, g)
  {
    HistoryKeeps(w, steps, w.db.unlocks.Keys);
    hide History;
    var now := History(w, steps);
    assert Granted(now, user, key);
    i :| 0 <= i < |now.grants| && now.grants[i].user == user && now.grants[i].locked.key == key;
  }

  // ---- a report nobody disturbs ----

  /** How many predicates a row has. */
  function Claims(row: Guard): nat {
    |row.uids| + if row.finish then 1 else 0
  }

  /** What Nadeo answers to a report's questions, one after the other. */
  function AskAll(t: ReportId, answers: seq<bool>): seq<Step> {
    if answers == [] then [] else AskAll(t, answers[..|answers| - 1]) + [Asks(t, answers[|answers| - 1])]
  }

  lemma {:induction false} HistorySplit(w: World, a: seq<Step>, b: seq<Step>)
    ensures History(w, a + b) == History(History(w, a), b)
    decreases |a|
  {
    hide Advance;
    if a == [] {
      assert a + b == b;
    } else {
      assert (a + b)[1..] == a[1..] + b && (a + b)[0] == a[0];
      HistorySplit(Advance(w, a[0]), a[1..], b);
    }
  }

  lemma {:induction false} OneStep(w: World, s: Step)
    ensures History(w, [s]) == Advance(w, s)
  {
    hide Advance;
    assert [s][1..] == [];
  }

  predicate AllTrue(answers: seq<bool>) {
    forall i :: 0 <= i < |answers| ==> answers[i]
  }

  /** Where the first answers leave a report: at its next question, or refused. */
  ghost predicate AskedSoFar(w: World, after: World, t: ReportId, row: Guard, answers: seq<bool>)
    requires t in w.reports
  {
    && after.db == w.db && t in after.reports
    && after.reports[t] == w.reports[t].(phase := after.reports[t].phase)
    && after.reports[t].phase ==
       if !AllTrue(answers) then Answered(false)
       else if answers == [] || !row.finish then Validating(row, row.finish, |answers|)
       else Validating(row, false, |answers| - 1)
  }

  lemma AskStep(w: World, between: World, t: ReportId, row: Guard, answers: seq<bool>, next: bool)
    requires t in w.reports && AskedSoFar(w, between, t, row, answers) && |answers| < Claims(row)
    ensures AskedSoFar(w, Advance(between, Asks(t, next)), t, row, answers + [next])
  {
    assert AllTrue(answers + [next]) <==> AllTrue(answers) && next by {
      assert forall i :: 0 <= i < |answers| ==> (answers + [next])[i] == answers[i];
      assert (answers + [next])[|answers|] == next;
    }
    hide AllTrue;
  }

  lemma {:induction false} AskedAll(w: World, t: ReportId, row: Guard, answers: seq<bool>)
    requires t in w.reports && w.reports[t].phase == Validating(row, row.finish, 0) && |answers| <= Claims(row)
    ensures AskedSoFar(w, History(w, AskAll(t, answers)), t, row, answers)
    decreases |answers|
  {
    hide Advance, AllTrue;
    if answers == [] {
      NoneAsked(w, t, row);
    } else {
      var most, last := answers[..|answers| - 1], answers[|answers| - 1];
      AskedAll(w, t, row, most);
      HistorySplit(w, AskAll(t, most), [Asks(t, last)]);
      OneStep(History(w, AskAll(t, most)), Asks(t, last));
      assert most + [last] == answers;
      hide AskedSoFar;
      AskStep(w, History(w, AskAll(t, most)), t, row, most, last);
    }
  }

  lemma NoneAsked(w: World, t: ReportId, row: Guard)
    requires t in w.reports && w.reports[t].phase == Validating(row, row.finish, 0)
    ensures AskedSoFar(w, w, t, row, [])
  {
  }

  /** A report that nobody throttles, up to its first question. */
  function Opening(t: ReportId, user: User, m: MapUid, slug: string, id: SpecId): seq<Step> {
    [Begin(t, user, m, slug, id)] + [Reads(t)] + [Checks(t, true)]
  }

  lemma {:induction false} Opened(w: World, t: ReportId, user: User, m: MapUid, slug: string, id: SpecId, row: Guard)
    requires t !in w.reports && HatRow(w.db, m, id, slug) == Some(row) && Claims(row) > 0
    requires (user, row.key) !in w.db.unlocks
    ensures History(w, Opening(t, user, m, slug, id))
         == w.(reports := w.reports[t := Report(user, m, slug, id, Validating(row, row.finish, 0))])
  {
    var w1 := Advance(w, Begin(t, user, m, slug, id));
    var w2 := Advance(w1, Reads(t));
    assert w2 == w.(reports := w.reports[t := Report(user, m, slug, id, Looked(row))]);
    assert Advance(w2, Checks(t, true))
        == w.(reports := w.reports[t := Report(user, m, slug, id, Validating(row, row.finish, 0))]);
    hide Advance, HatRow;
    OneStep(w, Begin(t, user, m, slug, id));
    HistorySplit(w, [Begin(t, user, m, slug, id)], [Reads(t)]);
    OneStep(w1, Reads(t));
    HistorySplit(w, [Begin(t, user, m, slug, id)] + [Reads(t)], [Checks(t, true)]);
    OneStep(w2, Checks(t, true));
  }

  /** The last step: everything confirmed is committed, anything refused is not. */
  lemma Committed(w: World, between: World, t: ReportId, row: Guard, answers: seq<bool>)
    requires t in w.reports && AskedSoFar(w, between, t, row, answers) && |answers| == Claims(row) > 0
    requires HatRow(w.db, w.reports[t].m, w.reports[t].id, w.reports[t].slug) == Some(row)
    requires (w.reports[t].user, row.key) !in w.db.unlocks
    ensures var now, r := Advance(between, Commits(t)), w.reports[t];
            && t in now.reports && now.reports[t].phase == Answered(AllTrue(answers))
            && now.db == if AllTrue(answers)
                         then w.db.(unlocks := w.db.unlocks[(r.user, row.key) := Place(r.m, r.slug)]) else w.db
  {
    hide HatRow, AllTrue;
  }

  /**
   An unlock report for a guarded hat that the map shows and the user has not unlocked,
   disturbed by nobody, succeeds if and only if Nadeo confirms every one of the row's
   predicates; then the user has unlocked the hat, and otherwise nothing has changed.
   */
  lemma {:induction false} UnlockedIffAllConfirmed(w: World, t: ReportId, user: User, m: MapUid, slug: string,
                                                   id: SpecId,
                                                   row: Guard, answers: seq<bool>)
    requires t !in w.reports && HatRow(w.db, m, id, slug) == Some(row) && (user, row.key) !in w.db.unlocks
    requires |answers| == Claims(row) > 0
    ensures var now := History(w, (Opening(t, user, m, slug, id) + AskAll(t, answers)) + [Commits(t)]);
            && t in now.reports && now.reports[t].phase == Answered(AllTrue(answers))
            && now.db == if AllTrue(answers)
                         then w.db.(unlocks := w.db.unlocks[(user, row.key) := Place(m, slug)]) else w.db
  {
    var opening := Opening(t, user, m, slug, id);
    Opened(w, t, user, m, slug, id, row);
    var w1 := History(w, opening);
    hide Opening, Advance, HatRow, AllTrue, History;
    AskedAll(w1, t, row, answers);
    HistorySplit(w, opening, AskAll(t, answers));
    HistorySplit(w, opening + AskAll(t, answers), [Commits(t)]);
    var w2 := History(w1, AskAll(t, answers));
    OneStep(w2, Commits(t));
    hide AskedSoFar;
    Committed(w1, w2, t, row, answers);
  }

  /**
   A report of a hat that is unlocked already succeeds at once; one that is throttled, or
   of a hat not shown, fails.
   */
  lemma AnsweredAtOnce(w: World, t: ReportId, allowed: bool)
    requires t in w.reports
    ensures w.reports[t].phase.Started? && HatRow(w.db, w.reports[t].m, w.reports[t].id, w.reports[t].slug).None? ==>
              Advance(w, Reads(t)) == Goto(w, t, Answered(false))
    ensures w.reports[t].phase.Looked? && (w.reports[t].user, w.reports[t].phase.row.key) in w.db.unlocks ==>
              Advance(w, Checks(t, allowed)) == Goto(w, t, Answered(true))
    ensures w.reports[t].phase.Looked? && (w.reports[t].user, w.reports[t].phase.row.key) !in w.db.unlocks
            && (!allowed || Claims(w.reports[t].phase.row) == 0) ==>
              Advance(w, Checks(t, allowed)) == Goto(w, t, Answered(false))
  {
    hide HatRow;
  }
}
