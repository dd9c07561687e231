/**
 What binding a map reports and promises: the removed wearers, and who may bind a map to
 what, however stale the reads a bind was prepared from.
 */
module WayfinderBinding {
  import opened Common
  import opened JsonText
  import opened Wayfinder
  import opened WayfinderInvariant
  import H = HatCatalog

  // ---- removed wearers ----

  /** Exactly the users who wore something on the map before and wear nothing after. */
  ghost predicate ReportsRemoved(before: Db, after: Db, m: MapUid, removed: set<User>) {
    removed == WornOn(before, m).Keys - WornOn(after, m).Keys
  }

  ghost predicate OnlyUndresses(before: Db, after: Db, m: MapUid) {
    && (forall x :: x != m ==> WornOn(after, x) == WornOn(before, x))
    && (forall u :: u in WornOn(after, m) ==> u in WornOn(before, m) && WornOn(after, m)[u] == WornOn(before, m)[u])
  }

  lemma MaterialiseUndresses(db: Db, m: MapUid, id: SpecId, cat: Catalog)
    requires id in db.specs && m in db.bindings
    ensures OnlyUndresses(db, Materialise(db, m, id, cat), m)
  {
    hide Rows, Fits, WornOn, Kept;
    var rows := Rows(m, db.specs[id].owner, db.specs[id].name, cat);
    assert Materialise(db, m, id, cat).equipped == db.equipped[m := Kept(WornOn(db, m), rows.hats)];
    hide Materialise;
    KeepingUndresses(db, Materialise(db, m, id, cat), m, rows.hats);
  }

  lemma KeepingUndresses(db: Db, after: Db, m: MapUid, hats: map<string, Placed<H.Hat>>)
    requires after.equipped == db.equipped[m := Kept(WornOn(db, m), hats)]
    ensures OnlyUndresses(db, after, m)
  {
    hide Fits;
  }

  lemma ReboundWears(db: Db, reporter: User, m: MapUid, id: SpecId)
    ensures forall x :: x != m ==> WornOn(Rebound(db, reporter, m, id), x) == WornOn(db, x)
    ensures WornOn(Rebound(db, reporter, m, id), m) ==
            if m in db.bindings && !IsVerified(db, m) then map[] else WornOn(db, m)
  {
    hide IsVerified, Purge, Rebind;
  }

  /** Purging first and keeping what fits afterwards undresses whoever either of them undresses. */
  lemma UndressedTogether(before: Db, between: Db, after: Db, m: MapUid, purged: bool)
    requires forall x :: x != m ==> WornOn(between, x) == WornOn(before, x)
    requires WornOn(between, m) == if purged then map[] else WornOn(before, m)
    requires OnlyUndresses(between, after, m)
    ensures OnlyUndresses(before, after, m)
    ensures (if purged then WornOn(before, m).Keys else {}) + (WornOn(between, m).Keys - WornOn(after, m).Keys)
         == WornOn(before, m).Keys - WornOn(after, m).Keys
  {
    hide WornOn;
  }

  /**
   The author-present bind reports exactly the users whose hat it takes off - fresh,
   revised, recovering a legacy binding or overtaken by another bind - and touches no
   other map's wearers.
   */
  lemma AuthorBindReportsExactly(db: Db, l: Locked, prepared: Option<User>, reporter: User, m: MapUid, id: SpecId)
    requires Holds(db, l, m, id) && CommitLocked(db, l, prepared, reporter, m, id).1.Ok?
    ensures var (after, r) := CommitLocked(db, l, prepared, reporter, m, id);
            ReportsRemoved(db, after, m, r.value.removed) && OnlyUndresses(db, after, m)
  {
    hide CommitLocked, Verified, Parse, Holds;
    BindAccepted(db, l, prepared, reporter, m, id);
    if CommitLocked(db, l, prepared, reporter, m, id).1.value.materialised {
      BindIsMaterialise(db, l, prepared, reporter, m, id);
      ReboundWears(db, reporter, m, id);
      hide Rebound, Materialise;
      var between := Rebound(db, reporter, m, id);
      var after := Materialise(between, m, id, Parse(db.specs[id].json).value);
      MaterialiseUndresses(between, m, id, Parse(db.specs[id].json).value);
      UndressedTogether(db, between, after, m, m in db.bindings && !IsVerified(db, m));
      hide WornOn, OnlyUndresses;
    }
  }

  lemma MaterialiseBindings(db: Db, m: MapUid, id: SpecId, cat: Catalog)
    requires id in db.specs && m in db.bindings
    ensures Materialise(db, m, id, cat).specs == db.specs
    ensures Materialise(db, m, id, cat).bindings ==
            db.bindings[m := db.bindings[m].(revision := Some(RevisionOf(db.specs[id])))]
  {
    hide Rows, Kept;
  }

  /** What a bind that materialises does to bindings and specs. */
  lemma BindShape(db: Db, l: Locked, prepared: Option<User>, reporter: User, m: MapUid, id: SpecId)
    requires Holds(db, l, m, id) && CommitLocked(db, l, prepared, reporter, m, id).1.Ok?
    requires CommitLocked(db, l, prepared, reporter, m, id).1.value.materialised
    ensures id in db.specs
    ensures var after := CommitLocked(db, l, prepared, reporter, m, id).0;
            var author := if IsVerified(db, m) then db.bindings[m].author else Some(reporter);
            && after.specs == db.specs
            && after.bindings == db.bindings[m := Binding(id, author, Some(RevisionOf(db.specs[id])))]
  {
    hide CommitLocked, Parse, Holds, Materialise;
    BindIsMaterialise(db, l, prepared, reporter, m, id);
    MaterialiseBindings(Rebound(db, reporter, m, id), m, id, Parse(db.specs[id].json).value);
  }

  /** Everybody's hat fits the rows of this spec. */
  ghost predicate AllFit(db: Db, m: MapUid, s: Spec) {
    Parse(s.json).Ok? ==>
      var rows := Rows(m, s.owner, s.name, Parse(s.json).value);
      forall u :: u in WornOn(db, m) ==> Fits(rows.hats, WornOn(db, m)[u])
  }

  lemma MaterialiseWears(db: Db, m: MapUid, id: SpecId, cat: Catalog)
    requires id in db.specs && m in db.bindings
    ensures WornOn(Materialise(db, m, id, cat), m) ==
            Kept(WornOn(db, m), Rows(m, db.specs[id].owner, db.specs[id].name, cat).hats)
  {
    hide Rows, Kept;
  }

  lemma RepointedBindings(db: Db, m: MapUid, id: SpecId, moved: bool)
    requires id in db.specs
    ensures Repointed(db, m, id, moved).bindings == db.bindings[m := Binding(id, Some(db.specs[id].owner), None)]
  {
  }

  lemma RepointedWears(db: Db, m: MapUid, id: SpecId, moved: bool)
    requires id in db.specs
    ensures forall x :: x != m ==> WornOn(Repointed(db, m, id, moved), x) == WornOn(db, x)
    ensures WornOn(Repointed(db, m, id, moved), m) == if moved then map[] else WornOn(db, m)
  {
    hide Purge, Rebind;
  }

  lemma NoneKept(worn: map<User, Worn>, hats: map<string, Placed<H.Hat>>)
    ensures Kept(map[], hats) == map[]
    ensures worn.Keys - Kept(worn, hats).Keys == {} <==> forall u :: u in worn ==> Fits(hats, worn[u])
  {
    hide Fits;
    var gone := worn.Keys - Kept(worn, hats).Keys;
    forall u | u in worn && !Fits(hats, worn[u]) ensures u in gone {
    }
    if gone != {} {
      var u :| u in gone;
      assert u in worn && !Fits(hats, worn[u]);
    }
  }

  lemma CommentReport(db: Db, after: Db, m: MapUid, moved: bool, hats: map<string, Placed<H.Hat>>)
    requires WornOn(after, m) == Kept(if moved then map[] else WornOn(db, m), hats)
    ensures ReportsRemoved(db, after, m, if moved then WornOn(db, m).Keys else {}) <==>
              moved || forall u :: u in WornOn(db, m) ==> Fits(hats, WornOn(db, m)[u])
  {
    NoneKept(WornOn(db, m), hats);
    hide WornOn, Kept, Fits;
  }

  /** What is worn on the map after a comment bind that writes. */
  lemma CommentWears(db: Db, l: Locked, m: MapUid, id: SpecId)
    requires Holds(db, l, m, id) && !Synchronised(l, id) && Parse(db.specs[id].json).Ok?
    ensures var s := db.specs[id];
            WornOn(CommitComment(db, l, m, id).0, m)
            == Kept(if Moved(l, id) then map[] else WornOn(db, m), Rows(m, s.owner, s.name, Parse(s.json).value).hats)
  {
    CommentShape(db, l, m, id);
    hide CommitComment, Parse, Rows, Kept, Materialise, Repointed, Holds, WornOn;
    RepointedWears(db, m, id, Moved(l, id));
    MaterialiseWears(Repointed(db, m, id, Moved(l, id)), m, id, Parse(db.specs[id].json).value);
  }

  /**
   The comment bind drops what its rebind removes, so its report is exact only if it has to
   move the binding it has read, finds it synchronised, or takes off no hat.
   */
  lemma CommentBindReportsExactlyIff(db: Db, l: Locked, m: MapUid, id: SpecId)
    requires Holds(db, l, m, id) && CommitComment(db, l, m, id).1.Ok?
    ensures ReportsRemoved(db, CommitComment(db, l, m, id).0, m, CommitComment(db, l, m, id).1.value.removed) <==>
              Moved(l, id) || Synchronised(l, id) || AllFit(db, m, db.specs[id])
  {
    CommentShape(db, l, m, id);
    if !Synchronised(l, id) {
      CommentWears(db, l, m, id);
      hide CommitComment, Parse, Rows, Fits, Materialised, Materialise, Repointed, Holds, Moved;
      var s := db.specs[id];
      CommentReport(db, CommitComment(db, l, m, id).0, m, Moved(l, id),
                    Rows(m, s.owner, s.name, Parse(s.json).value).hats);
      hide WornOn, ReportsRemoved;
    }
  }

  lemma Stamping(bindings: map<MapUid, Binding>, m: MapUid, b: Binding, r: Option<Revision>)
    ensures bindings[m := b][m := b.(revision := r)] == bindings[m := b.(revision := r)]
  {
  }

  /** What a comment bind that writes does to bindings and specs. */
  lemma CommentBindings(db: Db, l: Locked, m: MapUid, id: SpecId)
    requires Holds(db, l, m, id) && !Synchronised(l, id) && Parse(db.specs[id].json).Ok?
    ensures var (after, s) := (CommitComment(db, l, m, id).0, db.specs[id]);
            && after.specs == db.specs
            && after.bindings == db.bindings[m := Binding(id, Some(s.owner), Some(RevisionOf(s)))]
  {
    CommentWrites(db, l, m, id);
    var between, cat := Repointed(db, m, id, Moved(l, id)), Parse(db.specs[id].json).value;
    hide CommitComment, Parse, Materialise, Repointed, Holds, Moved, Synchronised, RevisionOf;
    RepointedBindings(db, m, id, Moved(l, id));
    MaterialiseBindings(between, m, id, cat);
    Stamping(db.bindings, m, Binding(id, Some(db.specs[id].owner), None), Some(RevisionOf(db.specs[id])));
  }

  lemma CommentOnlyUndresses(db: Db, l: Locked, m: MapUid, id: SpecId)
    requires Holds(db, l, m, id)
    ensures OnlyUndresses(db, CommitComment(db, l, m, id).0, m)
  {
    CommentShape(db, l, m, id);
    hide CommitComment, Parse, Materialise, Repointed, Holds, Moved, Synchronised, Materialised, WornOn;
    if CommitComment(db, l, m, id).0 != db {
      var between := Repointed(db, m, id, Moved(l, id));
      RepointedWears(db, m, id, Moved(l, id));
      MaterialiseUndresses(between, m, id, Parse(db.specs[id].json).value);
      UndressedTogether(db, between, CommitComment(db, l, m, id).0, m, Moved(l, id));
    }
  }

  /**
   When the comment bind points a bound map elsewhere, whoever wears something there keeps
   it if and only if it fits the new rows and the binding was inserted after the bind had
   read that there is none: only the binding it has read makes it purge.
   */
  lemma MovedWearersSurviveIff(db: Db, l: Locked, m: MapUid, id: SpecId, u: User)
    requires Holds(db, l, m, id) && CommitComment(db, l, m, id).1.Ok?
    requires m in db.bindings && db.bindings[m].spec != id && u in WornOn(db, m)
    ensures Parse(db.specs[id].json).Ok?
    ensures u in WornOn(CommitComment(db, l, m, id).0, m) <==>
              && l.binding == None
              && Fits(Rows(m, db.specs[id].owner, db.specs[id].name, Parse(db.specs[id].json).value).hats,
                      WornOn(db, m)[u])
  {
    CommentShape(db, l, m, id);
    CommentWears(db, l, m, id);
    hide CommitComment, Parse, Rows, Fits, WornOn;
  }

  /** A successful bind leaves the map materialised for that spec. */
  lemma BindMaterialises(db: Db, l: Locked, prepared: Option<User>, reporter: User, m: MapUid, id: SpecId)
    requires Holds(db, l, m, id) && CommitLocked(db, l, prepared, reporter, m, id).1.Ok?
    ensures Materialised(CommitLocked(db, l, prepared, reporter, m, id).0, m, id)
  {
    hide CommitLocked, Parse, Materialise, Holds;
    BindAccepted(db, l, prepared, reporter, m, id);
    if CommitLocked(db, l, prepared, reporter, m, id).1.value.materialised {
      BindShape(db, l, prepared, reporter, m, id);
    }
  }

  // ---- tasks that prepare and commit ----

  type TaskId = nat

  /** `Reading`: inside the transaction, with the rows it has read and locked. */
  datatype Phase =
    | Started
    | Prepared(author: Option<User>)
    | Reading(author: Option<User>, rows: Locked)
    | Answered(result: Result<Bind, BindError>)

  datatype Task = Task(reporter: User, m: MapUid, id: SpecId, phase: Phase)

  /** A successful commit: `promoted` when it verified the binding. */
  datatype Commit = Commit(m: MapUid, id: SpecId, reporter: User, promoted: bool)

  /** `named`: the authors Nadeo has named for maps. */
  datatype World = World(db: Db, tasks: map<TaskId, Task>, named: set<(MapUid, User)>, commits: seq<Commit>)

  datatype Step =
    | Other(e: Event)
    | Begin(t: TaskId, reporter: User, m: MapUid, id: SpecId)
    | Prepares(t: TaskId, answer: Option<User>)
    | Locks(t: TaskId)
    | Commits(t: TaskId)

  /** Any transaction of others but binds, which go through tasks here; and no comment binds. */
  predicate Allowed(s: Step) {
    s.Other? ==> !s.e.BindsAsAuthor? && !s.e.BindsByComment?
  }

  function Goto(w: World, t: TaskId, p: Phase): World
    requires t in w.tasks
  {
    w.(tasks := w.tasks[t := w.tasks[t].(phase := p)])
  }

  /** The prepare gets as far as asking Nadeo. */
  predicate Consults(db: Db, reporter: User, m: MapUid, id: SpecId) {
    !(m in db.bindings && Verified(db, db.bindings[m])) && id in db.specs && db.specs[id].owner == reporter
  }

  /** The rows this task has locked are in these tables as it read them. */
  predicate LocksKept(task: Task, db: Db) {
    task.phase.Reading? ==>
      && task.id in db.specs && db.specs[task.id] == task.phase.rows.spec
      && (task.phase.rows.binding.Some? ==> BoundTo(db, task.m, task.phase.rows.binding.value))
  }

  predicate BoundTo(db: Db, m: MapUid, b: Binding) {
    m in db.bindings && db.bindings[m] == b
  }

  /** No transaction but its own changes a locked row: one that would has to wait. */
  predicate Respects(w: World, db: Db, but: Option<TaskId>) {
    forall t :: t in w.tasks && Some(t) != but ==> LocksKept(w.tasks[t], db)
  }

  /** Somebody else holds the spec row, or the binding row. */
  predicate LockedOut(w: World, t: TaskId)
    requires t in w.tasks
  {
    exists u :: u in w.tasks && u != t && w.tasks[u].phase.Reading?
      && (w.tasks[u].id == w.tasks[t].id || (w.tasks[u].m == w.tasks[t].m && w.tasks[u].phase.rows.binding.Some?))
  }

  function Advance(w: World, s: Step): World {
    match s
    case Other(e) => if Allowed(s) && Respects(w, Next(w.db, e), None) then w.(db := Next(w.db, e)) else w
    case Begin(t, reporter, m, id) =>
      if t in w.tasks then w else w.(tasks := w.tasks[t := Task(reporter, m, id, Started)])
    case Prepares(t, answer) =>
      if t !in w.tasks || !w.tasks[t].phase.Started? then w else
        var task := w.tasks[t];
        var r := Prepare(w.db, answer, task.reporter, task.m, task.id);
        Goto(w, t, if r.Ok? then Prepared(r.value) else Answered(Err(r.error)))
          .(named := if Consults(w.db, task.reporter, task.m, task.id) && answer.Some?
                     then w.named + {(task.m, answer.value)} else w.named)
    case Locks(t) =>
      if t !in w.tasks || !w.tasks[t].phase.Prepared? || LockedOut(w, t) then w else
        var task := w.tasks[t];
        Goto(w, t, if task.id !in w.db.specs then Answered(Err(SpecNotFound))
                   else Reading(task.phase.author, LockRows(w.db, task.m, task.id)))
    case Commits(t) =>
      if t !in w.tasks || !w.tasks[t].phase.Reading? then w else
        var task := w.tasks[t];
        var (db, r) := CommitLocked(w.db, task.phase.rows, task.phase.author, task.reporter, task.m, task.id);
        if !Respects(w, db, Some(t)) then w else
          Goto(w, t, Answered(r)).(
            db := db,
            commits := if r.Err? then w.commits
                       else w.commits + [Commit(task.m, task.id, task.reporter, !IsVerified(w.db, task.m))])
  }

  function History(w: World, steps: seq<Step>): World
    decreases |steps|
  {
    if steps == [] then w else History(Advance(w, steps[0]), steps[1..])
  }

  // ---- the invariant of the runs ----

  function AuthorOf(p: Phase): Option<User> {
    if p.Prepared? || p.Reading? then p.author else None
  }

  /** A prepared author was named by Nadeo for that task's map. */
  ghost predicate PreparedNamed(w: World) {
    forall t :: t in w.tasks && AuthorOf(w.tasks[t].phase).Some? ==>
      (w.tasks[t].m, AuthorOf(w.tasks[t].phase).value) in w.named
  }

  /** What a transaction has read is still so, up to a binding inserted where there was none. */
  ghost predicate ReadersHold(w: World) {
    forall t :: t in w.tasks && w.tasks[t].phase.Reading? ==>
      Holds(w.db, w.tasks[t].phase.rows, w.tasks[t].m, w.tasks[t].id)
  }

  /** Commits happened to maps that are verified now, for the spec they are bound to now. */
  ghost predicate CommitsAgree(w: World) {
    forall i :: 0 <= i < |w.commits| ==>
      IsVerified(w.db, w.commits[i].m) && w.db.bindings[w.commits[i].m].spec == w.commits[i].id
  }

  /** The commit that verified a map came from its author: the owner of the spec, whom Nadeo named. */
  ghost predicate Authorised(w: World, c: Commit) {
    && (c.m, c.reporter) in w.named
    && c.m in w.db.bindings
    && w.db.bindings[c.m].author == Some(c.reporter)
    && c.id in w.db.specs && w.db.specs[c.id].owner == c.reporter
  }

  ghost predicate PromotionsAuthorised(w: World) {
    forall i :: 0 <= i < |w.commits| && w.commits[i].promoted ==> Authorised(w, w.commits[i])
  }

  /** Some commit verified this map. */
  ghost predicate Promoted(w: World, m: MapUid) {
    exists i :: 0 <= i < |w.commits| && w.commits[i].promoted && w.commits[i].m == m
  }

  ghost predicate VerifiedArePromoted(w: World) {
    forall m :: IsVerified(w.db, m) ==> Promoted(w, m)
  }

  ghost predicate Good(w: World) {
    && Inv(w.db) && PreparedNamed(w) && ReadersHold(w)
    && CommitsAgree(w) && PromotionsAuthorised(w) && VerifiedArePromoted(w)
  }

  /** Tables in which nothing is verified yet, and no task has begun. */
  ghost predicate Start(w: World) {
    Inv(w.db) && w.tasks == map[] && w.named == {} && w.commits == [] && forall m :: !IsVerified(w.db, m)
  }

  // ---- what transactions other than binds leave alone ----

  /** Bindings, and the owners of the specs they name. */
  ghost predicate BindingsStay(before: Db, after: Db) {
    && after.bindings == before.bindings
    && forall m :: m in before.bindings && before.bindings[m].spec in before.specs ==>
         && before.bindings[m].spec in after.specs
         && after.specs[before.bindings[m].spec].owner == before.specs[before.bindings[m].spec].owner
  }

  lemma UploadShape(db: Db, user: User, name: string, json: Json, hash: nat)
    ensures var (after, r) := Upload(db, user, name, json, hash);
            && after.bindings == db.bindings
            && (r.Ok? <==> Parse(Strip(json)).Ok?)
            && (r.Err? ==> after.specs == db.specs)
            && (r.Ok? ==> after.specs == db.specs[r.value := Spec(user, name, Strip(json), db.clock + 1, hash)]
                          && r.value == if (user, name) in db.ids then db.ids[(user, name)] else db.nextId)
  {
    hide Parse, Strip;
  }

  lemma UploadLeavesBindings(db: Db, user: User, name: string, json: Json, hash: nat)
    requires Keyed(db)
    ensures BindingsStay(db, Upload(db, user, name, json, hash).0)
  {
    UploadShape(db, user, name, json, hash);
    hide Upload, Strip;
  }

  lemma DeleteSpecLeavesBindings(db: Db, user: User, name: string)
    requires Keyed(db)
    ensures BindingsStay(db, DeleteSpec(db, user, name).0)
  {
    if DeleteSpec(db, user, name).0 != db {
      assert forall m :: m in db.bindings ==> db.bindings[m].spec != db.ids[(user, name)];
    }
  }

  lemma UnlockLeavesBindings(db: Db, user: User, m: MapUid, slug: string, id: SpecId, validated: Guard)
    ensures var after := CommitUnlock(db, user, m, slug, id, validated).0;
            after.bindings == db.bindings && after.specs == db.specs
  {
    hide HatRow;
  }

  lemma UnequipLeavesBindings(db: Db, user: User, m: MapUid)
    ensures Unequip(db, user, m).0.bindings == db.bindings && Unequip(db, user, m).0.specs == db.specs
  {
  }

  lemma PutOnLeavesBindings(db: Db, user: User, m: MapUid, hat: Worn)
    ensures PutOn(db, user, m, hat).0.bindings == db.bindings && PutOn(db, user, m, hat).0.specs == db.specs
  {
  }

  lemma EquipLeavesBindings(db: Db, user: User, m: MapUid, slug: string, readId: Option<SpecId>)
    ensures var after := Equip(db, user, m, slug, readId).0; after.bindings == db.bindings && after.specs == db.specs
  {
    hide Materialised, MayWear, Unequip, PutOn;
    UnequipLeavesBindings(db, user, m);
    PutOnLeavesBindings(db, user, m, Worn(slug, HatKey(m, slug)));
  }

  lemma OthersLeaveBindings(db: Db, e: Event)
    requires Keyed(db) && !e.BindsAsAuthor? && !e.BindsByComment?
    ensures BindingsStay(db, Next(db, e))
  {
    hide Upload, DeleteSpec, CommitUnlock, Equip, Without, Keyed;
    match e
    case Uploads(user, name, json, hash) => UploadLeavesBindings(db, user, name, json, hash);
    case DeletesSpec(user, name) => DeleteSpecLeavesBindings(db, user, name);
    case Unlocks(user, m, slug, id, validated) => UnlockLeavesBindings(db, user, m, slug, id, validated);
    case Equips(user, m, slug, readId) => EquipLeavesBindings(db, user, m, slug, readId);
    case _ =>
  }

  lemma StayVerified(before: Db, after: Db)
    requires Keyed(before) && BindingsStay(before, after)
    ensures forall m :: IsVerified(after, m) <==> IsVerified(before, m)
  {
  }

  lemma HoldsOn(db: Db, after: Db, l: Locked, m: MapUid, id: SpecId)
    requires Holds(db, l, m, id)
    requires id in after.specs && after.specs[id] == l.spec
    requires l.binding.Some? ==> BoundTo(after, m, l.binding.value) && (IsVerified(after, m) <==> IsVerified(db, m))
    requires l.binding.None? && m in after.bindings ==> IsVerified(after, m)
    ensures Holds(after, l, m, id)
  {
  }

  lemma OtherReaders(w: World, db: Db)
    requires ReadersHold(w) && Respects(w, db, None) && db.bindings == w.db.bindings
    requires forall m :: IsVerified(db, m) <==> IsVerified(w.db, m)
    ensures ReadersHold(w.(db := db))
  {
    hide Holds, Verified;
    forall t | t in w.tasks && w.tasks[t].phase.Reading?
      ensures Holds(db, w.tasks[t].phase.rows, w.tasks[t].m, w.tasks[t].id)
    {
      var task := w.tasks[t];
      assert LocksKept(task, db);
      BindingRead(w.db, task.phase.rows, task.m, task.id);
      HoldsOn(w.db, db, task.phase.rows, task.m, task.id);
    }
  }

  lemma BindingRead(db: Db, l: Locked, m: MapUid, id: SpecId)
    requires Holds(db, l, m, id)
    ensures l.binding.Some? ==> BoundTo(db, m, l.binding.value)
    ensures l.binding.None? && m in db.bindings ==> IsVerified(db, m)
    ensures id in db.specs && db.specs[id] == l.spec
  {
  }

  lemma OtherKeeps(w: World, e: Event)
    requires Good(w) && !e.BindsAsAuthor? && !e.BindsByComment? && Respects(w, Next(w.db, e), None)
    ensures Good(w.(db := Next(w.db, e)))
  {
    hide Next, Verified, Inv, Holds;
    NextKeeps(w.db, e);
    assert Keyed(w.db) by { InvKeyed(w.db); }
    OthersLeaveBindings(w.db, e);
    StayVerified(w.db, Next(w.db, e));
    OtherReaders(w, Next(w.db, e));
    hide IsVerified, Respects, ReadersHold;
    var after := w.(db := Next(w.db, e));
    CommitsStay(w, after);
  }

  /** The history stays true while the bindings, the verified maps and the owners of bound specs stay. */
  lemma CommitsStay(w: World, after: World)
    requires CommitsAgree(w) && PromotionsAuthorised(w) && VerifiedArePromoted(w)
    requires after.commits == w.commits && w.named <= after.named
    requires BindingsStay(w.db, after.db) && Keyed(w.db)
    requires forall m :: IsVerified(after.db, m) <==> IsVerified(w.db, m)
    ensures CommitsAgree(after) && PromotionsAuthorised(after) && VerifiedArePromoted(after)
  {
    hide Verified;
    forall i | 0 <= i < |after.commits| && after.commits[i].promoted ensures Authorised(after, after.commits[i]) {
      assert Authorised(w, w.commits[i]);
      assert w.db.bindings[w.commits[i].m].spec == w.commits[i].id;
    }
    forall m | IsVerified(after.db, m) ensures Promoted(after, m) {
      assert Promoted(w, m);
    }
  }

  lemma InvKeyed(db: Db)
    requires Inv(db)
    ensures Keyed(db)
  {
  }

  // ---- one commit ----

  /**
   A successful commit verifies its map for its spec, keeps a binding that was verified,
   and leaves every other map's binding and every spec alone.
   */
  lemma CommitEffect(db: Db, l: Locked, prepared: Option<User>, reporter: User, m: MapUid, id: SpecId)
    requires Holds(db, l, m, id) && CommitLocked(db, l, prepared, reporter, m, id).1.Ok?
    ensures var after := CommitLocked(db, l, prepared, reporter, m, id).0;
            && after.specs == db.specs && id in db.specs
            && (forall x :: x != m ==> (x in after.bindings <==> x in db.bindings)
                                       && (x in db.bindings ==> after.bindings[x] == db.bindings[x]))
            && IsVerified(after, m) && after.bindings[m].spec == id
            && (IsVerified(db, m) ==> db.bindings[m].spec == id && after.bindings[m].author == db.bindings[m].author)
            && (!IsVerified(db, m) ==>
                  reporter == db.specs[id].owner && prepared == Some(reporter)
                      && after.bindings[m].author == Some(reporter))
  {
    hide CommitLocked, Parse, Materialise, Holds;
    BindAccepted(db, l, prepared, reporter, m, id);
    if CommitLocked(db, l, prepared, reporter, m, id).1.value.materialised {
      BindShape(db, l, prepared, reporter, m, id);
    }
  }

  lemma RefusedCommit(db: Db, l: Locked, prepared: Option<User>, reporter: User, m: MapUid, id: SpecId)
    requires CommitLocked(db, l, prepared, reporter, m, id).1.Err?
    ensures CommitLocked(db, l, prepared, reporter, m, id).0 == db
  {
    hide Parse, Materialise;
  }

  lemma CommitsKeep(w: World, t: TaskId)
    requires Good(w) && t in w.tasks && w.tasks[t].phase.Reading? && Advance(w, Commits(t)) != w
    ensures Good(Advance(w, Commits(t)))
  {
    hide CommitLocked, Inv, Verified, Holds;
    var task := w.tasks[t];
    var (db, r) := CommitLocked(w.db, task.phase.rows, task.phase.author, task.reporter, task.m, task.id);
    CommitLockedKeeps(w.db, task.phase.rows, task.phase.author, task.reporter, task.m, task.id);
    var after := Advance(w, Commits(t));
    assert Respects(w, db, Some(t));
    if r.Err? {
      RefusedCommit(w.db, task.phase.rows, task.phase.author, task.reporter, task.m, task.id);
      RefusedKeeps(w, after);
    } else {
      CommitEffect(w.db, task.phase.rows, task.phase.author, task.reporter, task.m, task.id);
      AcceptedReaders(w, t, after);
      AcceptedKeeps(w, t, after);
    }
  }

  lemma RefusedKeeps(w: World, after: World)
    requires Good(w) && after.db == w.db && after.commits == w.commits && w.named <= after.named
    requires PreparedNamed(after) && ReadersHold(after)
    ensures Good(after)
  {
    hide Inv, Verified, ReadersHold, PreparedNamed;
    assert Keyed(w.db) by { InvKeyed(w.db); }
    CommitsStay(w, after);
  }

  /** The relation between two worlds that an accepted commit establishes. */
  ghost predicate Accepted(w: World, t: TaskId, after: World)
    requires t in w.tasks
  {
    var task := w.tasks[t];
    && after.db.specs == w.db.specs && task.id in w.db.specs
    && (forall x :: x != task.m ==> (x in after.db.bindings <==> x in w.db.bindings)
                                    && (x in w.db.bindings ==> after.db.bindings[x] == w.db.bindings[x]))
    && IsVerified(after.db, task.m) && after.db.bindings[task.m].spec == task.id
    && (IsVerified(w.db, task.m) ==>
          w.db.bindings[task.m].spec == task.id && after.db.bindings[task.m].author == w.db.bindings[task.m].author)
    && (!IsVerified(w.db, task.m) ==>
          && task.reporter == w.db.specs[task.id].owner
          && (task.m, task.reporter) in w.named
          && after.db.bindings[task.m].author == Some(task.reporter))
    && after.named == w.named
    && after.commits == w.commits + [Commit(task.m, task.id, task.reporter, !IsVerified(w.db, task.m))]
  }

  /** The transactions still reading find what they have read, or a verified binding where there was none. */
  lemma AcceptedReaders(w: World, t: TaskId, after: World)
    requires t in w.tasks && ReadersHold(w) && Accepted(w, t, after) && Respects(w, after.db, Some(t))
    requires t in after.tasks && after.tasks == w.tasks[t := after.tasks[t]] && !after.tasks[t].phase.Reading?
    ensures ReadersHold(after)
  {
    hide Holds, Verified;
    forall u | u in after.tasks && after.tasks[u].phase.Reading?
      ensures Holds(after.db, after.tasks[u].phase.rows, after.tasks[u].m, after.tasks[u].id)
    {
      var task := w.tasks[u];
      assert LocksKept(task, after.db);
      BindingRead(w.db, task.phase.rows, task.m, task.id);
      if task.phase.rows.binding.Some? {
        SameBinding(w.db, after.db, task.m);
      } else if task.m != w.tasks[t].m && task.m in after.db.bindings {
        SameBinding(w.db, after.db, task.m);
      }
      HoldsOn(w.db, after.db, task.phase.rows, task.m, task.id);
    }
  }

  lemma SameBinding(db: Db, after: Db, m: MapUid)
    requires after.specs == db.specs && m in db.bindings && m in after.bindings && after.bindings[m] == db.bindings[m]
    ensures IsVerified(after, m) <==> IsVerified(db, m)
  {
  }

  lemma AcceptedAgree(w: World, t: TaskId, after: World)
    requires t in w.tasks && CommitsAgree(w) && Accepted(w, t, after)
    ensures CommitsAgree(after)
  {
    forall i | 0 <= i < |after.commits|
      ensures IsVerified(after.db, after.commits[i].m)
      ensures after.db.bindings[after.commits[i].m].spec == after.commits[i].id
    {
      if i < |w.commits| {
        assert after.commits[i] == w.commits[i];
      }
    }
  }

  lemma AcceptedAuthorised(w: World, t: TaskId, after: World)
    requires t in w.tasks && CommitsAgree(w) && PromotionsAuthorised(w) && Accepted(w, t, after)
    ensures PromotionsAuthorised(after)
  {
    forall i | 0 <= i < |after.commits| && after.commits[i].promoted ensures Authorised(after, after.commits[i]) {
      if i < |w.commits| {
        assert after.commits[i] == w.commits[i];
        assert Authorised(w, w.commits[i]);
        assert IsVerified(w.db, w.commits[i].m);
      }
    }
  }

  lemma AcceptedPromoted(w: World, t: TaskId, after: World)
    requires t in w.tasks && VerifiedArePromoted(w) && Accepted(w, t, after)
    ensures VerifiedArePromoted(after)
  {
    forall m | IsVerified(after.db, m) ensures Promoted(after, m) {
      if m == w.tasks[t].m && !IsVerified(w.db, m) {
        assert after.commits[|w.commits|].promoted && after.commits[|w.commits|].m == m;
      } else {
        assert IsVerified(w.db, m);
        var i :| 0 <= i < |w.commits| && w.commits[i].promoted && w.commits[i].m == m;
        assert after.commits[i] == w.commits[i];
      }
    }
  }

  lemma AcceptedKeeps(w: World, t: TaskId, after: World)
    requires Good(w) && t in w.tasks && Accepted(w, t, after) && Inv(after.db) && PreparedNamed(after)
          && ReadersHold(after)
    ensures Good(after)
  {
    AcceptedAgree(w, t, after);
    AcceptedAuthorised(w, t, after);
    AcceptedPromoted(w, t, after);
  }

  lemma AdvanceKeeps(w: World, s: Step)
    requires Good(w)
    ensures Good(Advance(w, s))
  {
    match s
    case Other(e) =>
      hide Next, Good, Respects;
      if Allowed(s) && Respects(w, Next(w.db, e), None) {
        OtherKeeps(w, e);
      }
    case Begin(t, reporter, m, id) =>
      hide Inv, Verified, Holds;
      RefusedKeeps(w, Advance(w, s));
    case Prepares(t, answer) =>
      hide Inv, Verified, Holds;
      if t in w.tasks && w.tasks[t].phase.Started? {
        PrepareNames(w, t, answer);
        RefusedKeeps(w, Advance(w, s));
      }
    case Locks(t) =>
      hide Inv, Verified, LockedOut, Holds;
      if t in w.tasks && w.tasks[t].phase.Prepared? {
        if w.tasks[t].id in w.db.specs {
          JustRead(w.db, w.tasks[t].m, w.tasks[t].id);
        }
        RefusedKeeps(w, Advance(w, s));
      }
    case Commits(t) =>
      if t in w.tasks && w.tasks[t].phase.Reading? && Advance(w, s) != w {
        hide Good, CommitLocked, Advance;
        CommitsKeep(w, t);
      }
  }

  lemma JustRead(db: Db, m: MapUid, id: SpecId)
    requires id in db.specs
    ensures Holds(db, LockRows(db, m, id), m, id)
  {
  }

  lemma PrepareNames(w: World, t: TaskId, answer: Option<User>)
    requires PreparedNamed(w) && t in w.tasks && w.tasks[t].phase.Started?
    ensures PreparedNamed(Advance(w, Prepares(t, answer)))
  {
    hide Verified;
  }

  lemma {:induction false} HistoryKeeps(w: World, steps: seq<Step>)
    requires Good(w)
    ensures Good(History(w, steps))
    decreases |steps|
  {
    hide Good, Advance;
    if steps != [] {
      AdvanceKeeps(w, steps[0]);
      HistoryKeeps(Advance(w, steps[0]), steps[1..]);
    }
  }

  // ---- what holds in every interleaving ----

  /**
   However prepares and commits interleave with each other and with uploads, deletions
   and hat reports: all successful commits of a map chose one spec, to which the map is
   still bound; and a map is verified only if the commit that verified it came from
   the owner of that spec, whom Nadeo named as the map's author.
   */
  lemma {:induction false} BindingsAreStickyAndAuthorised(w: World, steps: seq<Step>, i: nat, j: nat)
    requires Start(w) && i < |History(w, steps).commits| && j < |History(w, steps).commits|
    ensures var now := History(w, steps);
            var c, d := now.commits[i], now.commits[j];
            && IsVerified(now.db, c.m) && now.db.bindings[c.m].spec == c.id
            && (c.m == d.m ==> c.id == d.id)
            && (c.promoted ==> Authorised(now, c))
  {
    HistoryKeeps(w, steps);
    hide History, Inv;
  }

  lemma VerifiedHasItsPromotion(w: World, steps: seq<Step>, m: MapUid) returns (i: nat)
    requires Start(w) && IsVerified(History(w, steps).db, m)
    ensures var now := History(w, steps);
            i < |now.commits| && now.commits[i].m == m && now.commits[i].promoted && Authorised(now, now.commits[i])
            && now.db.bindings[m].spec == now.commits[i].id
  {
    HistoryKeeps(w, steps);
    hide History, Inv;
    var now := History(w, steps);
    assert Promoted(now, m);
    i :| 0 <= i < |now.commits| && now.commits[i].promoted && now.commits[i].m == m;
  }
}
