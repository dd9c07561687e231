/**
 Hat updates broadcast to a map (`src/server2.rs`): the weak registry of per-map locks,
 and the tasks that take a map's lock, change or read who wears what, and queue an
 update before they let go.
 */
module HatBroadcast {
  import opened Common
  import opened Wayfinder
  import W = WayfinderInvariant
  import B = WayfinderBinding
  import JsonText
  import H = HatCatalog
  import M = MinigameCatalog
  import C = CollectibleCatalog

  type LockId = nat
  type TaskId = nat

  /** What a task does to its map while it holds the lock. */
  datatype Op =
    | EquipHat(user: User, slug: string)
    | JoinMap(user: User)
    | LeaveMap(user: User)
    | BindMap(prepared: Option<User>, reporter: User, id: SpecId)
    | HeedComment(id: SpecId)

  /** A `HatsOnMapUpdate`: what each user named now wears; the empty slug is nothing. */
  datatype Update = Update(m: MapUid, hats: map<User, string>)

  /** From `Handle` to `Sent` a task owns a strong reference to its lock; from `Holding` on it has locked it. */
  datatype Phase =
    | Begun
    | Handle(lock: LockId)
    | Holding(lock: LockId)
    | Acted(lock: LockId, update: Option<map<User, string>>)
    | Sent(lock: LockId)
    | Ended

  datatype Task = Task(m: MapUid, op: Op, phase: Phase)

  datatype World = World(
    db: Db, registry: map<MapUid, LockId>, nextLock: LockId, tasks: map<TaskId, Task>, queue: seq<Update>)

  predicate Owns(p: Phase) {
    p.Handle? || p.Holding? || p.Acted? || p.Sent?
  }

  predicate Inside(p: Phase) {
    p.Holding? || p.Acted? || p.Sent?
  }

  // ---- the registry ----

  /** Some task still owns the lock: its weak reference upgrades. */
  predicate Live(tasks: map<TaskId, Task>, l: LockId) {
    exists t :: t in tasks && Owns(tasks[t].phase) && tasks[t].phase.lock == l
  }

  /** `for_map`: dead entries are pruned, a live one is shared, otherwise a new lock is made. */
  function ForMap(w: World, m: MapUid): (map<MapUid, LockId>, LockId, bool) {
    var live := map k | k in w.registry && Live(w.tasks, w.registry[k]) :: w.registry[k];
    if m in live then (live, live[m], false) else (live[m := w.nextLock], w.nextLock, true)
  }

  // ---- what is under the lock ----

  /** `equipped_push_entry`: what a joining user is announced with. */
  function PushEntry(db: Db, user: User, m: MapUid): Option<string> {
    var worn := WornOn(db, m);
    if user !in worn || worn[user].slug == "" then None
    else if (user, worn[user].key) !in db.unlocks || !Fits(RowsOn(db, m).hats, worn[user]) then None
    else if m !in db.bindings || !Materialised(db, m, db.bindings[m].spec) then None
    else Some(worn[user].slug)
  }

  function Nobody(users: set<User>): map<User, string> {
    map u | u in users :: ""
  }

  /** The tables after the operation, and the update it queues. */
  function Perform(db: Db, m: MapUid, op: Op, readId: Option<SpecId>): (Db, Option<map<User, string>>) {
    match op
    case EquipHat(user, slug) =>
      var (after, event) := Equip(db, user, m, slug, readId);
      (after, if event.Some? then Some(map[user := event.value]) else None)
    case JoinMap(user) =>
      var entry := PushEntry(db, user, m);
      (db, if entry.Some? then Some(map[user := entry.value]) else None)
    case LeaveMap(user) => (db, Some(Nobody({user})))
    case BindMap(prepared, reporter, id) =>
      var (after, r) := CommitAuthor(db, prepared, reporter, m, id);
      (after, if r.Ok? && r.value.removed != {} then Some(Nobody(r.value.removed)) else None)
    case HeedComment(id) =>
      var (after, r) := FollowComment(db, m, id);
      (after, if r.Ok? && r.value.removed != {} then Some(Nobody(r.value.removed)) else None)
  }

  /**
   The comment bind takes a hat off without saying so: it stays with its spec, writes it
   anew, and somebody's hat is not in the new catalog.
   */
  ghost predicate Silent(db: Db, m: MapUid, op: Op) {
    && op.HeedComment? && op.id in db.specs && Parse(db.specs[op.id].json).Ok?
    && !(m in db.bindings && db.bindings[m].spec != op.id)
    && !Materialised(db, m, op.id)
    && !B.AllFit(db, m, db.specs[op.id])
  }

  // ---- the machine ----

  datatype Step =
    | Other(e: W.Event)
    | Begin(t: TaskId, m: MapUid, op: Op)
    | GetLock(t: TaskId)
    | Acquire(t: TaskId)
    | Act(t: TaskId, readId: Option<SpecId>)
    | Send(t: TaskId)
    | Release(t: TaskId)
    | Cancel(t: TaskId)

  /** Transactions that do not take the lock: uploads, deletions and unlocks. */
  predicate Lockless(e: W.Event) {
    !e.BindsAsAuthor? && !e.BindsByComment? && !e.Equips?
  }

  function Goto(w: World, t: TaskId, p: Phase): World
    requires t in w.tasks
  {
    w.(tasks := w.tasks[t := w.tasks[t].(phase := p)])
  }

  function Advance(w: World, s: Step): World {
    match s
    case Other(e) => if Lockless(e) then w.(db := W.Next(w.db, e)) else w
    case Begin(t, m, op) => if t in w.tasks then w else w.(tasks := w.tasks[t := Task(m, op, Begun)])
    case _ => if s.t !in w.tasks then w else AdvanceTask(w, s, w.tasks[s.t])
  }

  function AdvanceTask(w: World, s: Step, task: Task): World
    requires !s.Other? && !s.Begin? && s.t in w.tasks && w.tasks[s.t] == task
  {
    match (s, task.phase)
    case (GetLock(t), Begun) =>
      var (registry, lock, isNew) := ForMap(w, task.m);
      Goto(w, t, Handle(lock)).(registry := registry, nextLock := if isNew then w.nextLock + 1 else w.nextLock)
    case (Acquire(t), Handle(lock)) =>
      if exists u :: u in w.tasks && Inside(w.tasks[u].phase) && w.tasks[u].phase.lock == lock then w
      else Goto(w, t, Holding(lock))
    case (Act(t, readId), Holding(lock)) =>
      var (db, update) := Perform(w.db, task.m, task.op, readId);
      Goto(w, t, Acted(lock, update)).(db := db)
    case (Send(t), Acted(lock, update)) =>
      Goto(w, t, Sent(lock)).(queue := if update.Some? then w.queue + [Update(task.m, update.value)] else w.queue)
    case (Release(t), Sent(_)) => Goto(w, t, Ended)
    case (Cancel(t), Begun) => Goto(w, t, Ended)
    case (Cancel(t), Handle(_)) => Goto(w, t, Ended)
    case (Cancel(t), Holding(_)) => Goto(w, t, Ended)
    case _ => w
  }

  function History(w: World, steps: seq<Step>): World
    decreases |steps|
  {
    if steps == [] then w else History(Advance(w, steps[0]), steps[1..])
  }

  // ---- what clients show ----

  function Apply(shown: map<User, string>, hats: map<User, string>): map<User, string> {
    map u | u in shown.Keys + hats.Keys && (u in hats ==> hats[u] != "") :: if u in hats then hats[u] else shown[u]
  }

  /** A client that has applied every update queued for its map. */
  function Shown(queue: seq<Update>, m: MapUid): map<User, string> {
    if queue == [] then map[] else
      var last := queue[|queue| - 1];
      var before := Shown(queue[..|queue| - 1], m);
      if last.m == m then Apply(before, last.hats) else before
  }

  /** Whoever is shown wearing a hat has exactly that hat equipped. */
  ghost predicate Truthful(db: Db, m: MapUid, shown: map<User, string>) {
    forall u :: u in shown ==> u in WornOn(db, m) && WornOn(db, m)[u].slug == shown[u]
  }

  // ---- the invariant: locks ----

  /** Owners of a map's lock own the one the registry has; ids are never shared between maps. */
  ghost predicate Registered(w: World) {
    && (forall t :: t in w.tasks && Owns(w.tasks[t].phase) ==>
          w.tasks[t].m in w.registry && w.registry[w.tasks[t].m] == w.tasks[t].phase.lock)
    && (forall m :: m in w.registry ==> w.registry[m] < w.nextLock)
    && (forall m, n :: m in w.registry && n in w.registry && m != n ==> w.registry[m] != w.registry[n])
  }

  ghost predicate Exclusive(w: World) {
    forall t, u :: t in w.tasks && u in w.tasks && t != u && Inside(w.tasks[t].phase) && Inside(w.tasks[u].phase) ==>
      w.tasks[t].phase.lock != w.tasks[u].phase.lock
  }

  // ---- the invariant: display ----

  /** A task that has acted on this map and not yet sent its update. */
  ghost predicate Unsent(w: World, t: TaskId, m: MapUid) {
    t in w.tasks && w.tasks[t].m == m && w.tasks[t].phase.Acted? && w.tasks[t].phase.update.Some?
  }

  ghost predicate Displays(w: World, m: MapUid) {
    && ((forall t :: !Unsent(w, t, m)) ==> Truthful(w.db, m, Shown(w.queue, m)))
    && (forall t :: Unsent(w, t, m) ==> Truthful(w.db, m, Apply(Shown(w.queue, m), w.tasks[t].phase.update.value)))
  }

  ghost predicate Ordered(w: World) {
    Registered(w) && Exclusive(w)
  }

  ghost predicate Truthfully(w: World) {
    forall m :: Displays(w, m)
  }

  /** This step is a comment bind that takes off a hat without saying so. */
  ghost predicate SilentStep(w: World, s: Step) {
    s.Act? && s.t in w.tasks && w.tasks[s.t].phase.Holding? && Silent(w.db, w.tasks[s.t].m, w.tasks[s.t].op)
  }

  ghost predicate NeverSilent(w: World, steps: seq<Step>)
    decreases |steps|
  {
    steps == [] || (!SilentStep(w, steps[0]) && NeverSilent(Advance(w, steps[0]), steps[1..]))
  }

  ghost predicate Start(w: World) {
    w.registry == map[] && w.tasks == map[] && w.queue == []
  }

  // ---- operations ----

  /** What an operation on a map does to who wears what there and elsewhere. */
  ghost predicate Reported(db: Db, after: Db, m: MapUid, update: Option<map<User, string>>) {
    && (forall x :: x != m ==> WornOn(after, x) == WornOn(db, x))
    && (forall u :: u in WornOn(after, m) ==>
          (u in WornOn(db, m) && WornOn(after, m)[u] == WornOn(db, m)[u])
          || (update.Some? && u in update.value && update.value[u] == WornOn(after, m)[u].slug))
    && (forall u :: u in WornOn(db, m) && (u !in WornOn(after, m) || WornOn(after, m)[u] != WornOn(db, m)[u]) ==>
          update.Some? && u in update.value)
    && (update.Some? ==> forall u :: u in update.value && update.value[u] != "" ==>
          u in WornOn(after, m) && WornOn(after, m)[u].slug == update.value[u])
  }

  lemma EquipReports(db: Db, m: MapUid, user: User, slug: string, readId: Option<SpecId>)
    ensures var (after, update) := Perform(db, m, EquipHat(user, slug), readId); Reported(db, after, m, update)
  {
    hide Equip;
    var (after, event) := Equip(db, user, m, slug, readId);
    if event.None? {
      EquipSilent(db, m, user, slug, readId);
    } else {
      EquipEffect(db, m, user, slug, readId);
      DressReports(db, after, m, user, slug);
      hide Reported;
    }
  }

  lemma DressReports(db: Db, after: Db, m: MapUid, user: User, slug: string)
    requires after.equipped ==
             db.equipped[m := if slug == "" then WornOn(db, m) - {user}
                              else WornOn(db, m)[user := Worn(slug, HatKey(m, slug))]]
    ensures Reported(db, after, m, Some(map[user := slug]))
  {
  }

  lemma EquipSilent(db: Db, m: MapUid, user: User, slug: string, readId: Option<SpecId>)
    requires Equip(db, user, m, slug, readId).1 == None
    ensures Equip(db, user, m, slug, readId).0 == db
  {
    hide Materialised, MayWear, WornOn;
  }

  lemma UnequipEffect(db: Db, m: MapUid, user: User)
    requires Unequip(db, user, m).1.Some?
    ensures Unequip(db, user, m).1 == Some("")
    ensures Unequip(db, user, m).0.equipped == db.equipped[m := WornOn(db, m) - {user}]
  {
  }

  lemma PutOnEffect(db: Db, m: MapUid, user: User, hat: Worn)
    requires PutOn(db, user, m, hat).1.Some?
    ensures PutOn(db, user, m, hat).1 == Some(hat.slug)
    ensures PutOn(db, user, m, hat).0.equipped == db.equipped[m := WornOn(db, m)[user := hat]]
  {
  }

  lemma EquipEffect(db: Db, m: MapUid, user: User, slug: string, readId: Option<SpecId>)
    requires Equip(db, user, m, slug, readId).1.Some?
    ensures Equip(db, user, m, slug, readId).1 == Some(slug)
    ensures Equip(db, user, m, slug, readId).0.equipped ==
            db.equipped[m := if slug == "" then WornOn(db, m) - {user}
                             else WornOn(db, m)[user := Worn(slug, HatKey(m, slug))]]
  {
    hide Materialised, MayWear, Unequip, PutOn, WornOn;
    if slug == "" {
      UnequipEffect(db, m, user);
    } else {
      PutOnEffect(db, m, user, Worn(slug, HatKey(m, slug)));
    }
  }

  lemma JoinReports(db: Db, m: MapUid, user: User, readId: Option<SpecId>)
    ensures var (after, update) := Perform(db, m, JoinMap(user), readId); Reported(db, after, m, update)
  {
    hide Materialised, Fits;
  }

  lemma LeaveReports(db: Db, m: MapUid, user: User, readId: Option<SpecId>)
    ensures var (after, update) := Perform(db, m, LeaveMap(user), readId); Reported(db, after, m, update)
  {
  }

  lemma RemovalReports(db: Db, after: Db, m: MapUid, removed: set<User>)
    requires B.ReportsRemoved(db, after, m, removed) && B.OnlyUndresses(db, after, m)
    ensures Reported(db, after, m, if removed != {} then Some(Nobody(removed)) else None)
  {
    hide WornOn;
    forall u | u in WornOn(db, m) && u !in WornOn(after, m) ensures u in removed {
    }
  }

  lemma BindReports(db: Db, m: MapUid, prepared: Option<User>, reporter: User, id: SpecId, readId: Option<SpecId>)
    ensures var (after, update) := Perform(db, m, BindMap(prepared, reporter, id), readId);
            Reported(db, after, m, update)
  {
    hide CommitLocked;
    if id in db.specs {
      var l := LockRows(db, m, id);
      var (after, r) := CommitLocked(db, l, prepared, reporter, m, id);
      B.JustRead(db, m, id);
      hide LockRows, Holds;
      if r.Ok? {
        B.AuthorBindReportsExactly(db, l, prepared, reporter, m, id);
        RemovalReports(db, after, m, r.value.removed);
        hide Reported;
      } else {
        B.RefusedCommit(db, l, prepared, reporter, m, id);
      }
    }
  }

  lemma CommentUpdate(db: Db, l: Locked, m: MapUid, id: SpecId)
    requires Holds(db, l, m, id) && CommitComment(db, l, m, id).1.Ok?
    ensures var (after, r) := CommitComment(db, l, m, id);
            Reported(db, after, m, if r.value.removed != {} then Some(Nobody(r.value.removed)) else None) <==>
              Moved(l, id) || Synchronised(l, id) || B.AllFit(db, m, db.specs[id])
  {
    W.CommentShape(db, l, m, id);
    hide CommitComment, Parse, B.AllFit, Materialised, Materialise, Repointed, Holds, WornOn;
    hide Reported, B.ReportsRemoved, B.OnlyUndresses;
    var (after, r) := CommitComment(db, l, m, id);
    B.CommentBindReportsExactlyIff(db, l, m, id);
    B.CommentOnlyUndresses(db, l, m, id);
    if B.ReportsRemoved(db, after, m, r.value.removed) {
      RemovalReports(db, after, m, r.value.removed);
    } else {
      SilentRemoval(db, after, m);
    }
  }

  /** A comment bind's update says everything there is to say if and only if the bind is not silent. */
  lemma CommentReports(db: Db, m: MapUid, id: SpecId, readId: Option<SpecId>)
    ensures var (after, update) := Perform(db, m, HeedComment(id), readId);
            Reported(db, after, m, update) <==> !Silent(db, m, HeedComment(id))
  {
    if id in db.specs {
      var l := LockRows(db, m, id);
      B.JustRead(db, m, id);
      W.CommentShape(db, l, m, id);
      assert Moved(l, id) <==> m in db.bindings && db.bindings[m].spec != id;
      assert Synchronised(l, id) <==> Materialised(db, m, id);
      hide CommitComment, LockRows, Parse, B.AllFit, Materialised, Materialise, Repointed, Moved, Synchronised, Holds;
      if CommitComment(db, l, m, id).1.Ok? {
        CommentUpdate(db, l, m, id);
        hide Reported;
      } else {
        hide WornOn;
      }
    } else {
      hide WornOn;
    }
  }

  /** Naming nobody is enough only when nobody loses a hat. */
  lemma SilentRemoval(db: Db, after: Db, m: MapUid)
    requires B.OnlyUndresses(db, after, m) && !B.ReportsRemoved(db, after, m, {})
    ensures !Reported(db, after, m, None)
  {
    hide WornOn;
    var gone := WornOn(db, m).Keys - WornOn(after, m).Keys;
    var u :| u in gone;
    assert u in WornOn(db, m) && u !in WornOn(after, m);
  }

  lemma PerformReports(db: Db, m: MapUid, op: Op, readId: Option<SpecId>)
    ensures var (after, update) := Perform(db, m, op, readId);
            Reported(db, after, m, update) <==> !Silent(db, m, op)
  {
    match op
    case EquipHat(user, slug) => EquipReports(db, m, user, slug, readId); hide Perform, Reported;
    case JoinMap(user) => JoinReports(db, m, user, readId); hide Perform, Reported;
    case LeaveMap(user) => LeaveReports(db, m, user, readId); hide Perform, Reported;
    case BindMap(prepared, reporter, id) => BindReports(db, m, prepared, reporter, id, readId); hide Perform, Reported;
    case HeedComment(id) => CommentReports(db, m, id, readId); hide Perform, Reported, Silent;
  }

  lemma ReportedStaysTruthful(db: Db, after: Db, m: MapUid, update: Option<map<User, string>>, shown: map<User, string>)
    requires Reported(db, after, m, update) && Truthful(db, m, shown)
    ensures Truthful(after, m, if update.Some? then Apply(shown, update.value) else shown)
  {
    hide WornOn;
  }

  // ---- every step keeps the locks in order ----

  lemma ForMapSound(w: World, m: MapUid)
    requires Registered(w)
    ensures var (registry, lock, isNew) := ForMap(w, m);
            && m in registry && registry[m] == lock
            && (forall k :: k in registry && k != m ==> k in w.registry && registry[k] == w.registry[k])
            && (if isNew then lock == w.nextLock else m in w.registry && lock == w.registry[m])
  {
    hide Live;
  }

  /** A lock someone owns is found again, not replaced. */
  lemma OwnedLockStays(w: World, m: MapUid, u: TaskId)
    requires Registered(w) && u in w.tasks && Owns(w.tasks[u].phase)
    ensures var (registry, lock, isNew) := ForMap(w, m);
            w.tasks[u].m in registry && registry[w.tasks[u].m] == w.tasks[u].phase.lock
  {
    assert Live(w.tasks, w.tasks[u].phase.lock);
    hide Live;
  }

  lemma GetLockKeeps(w: World, t: TaskId)
    requires Registered(w) && Exclusive(w) && t in w.tasks && w.tasks[t].phase.Begun?
    ensures Registered(Advance(w, GetLock(t))) && Exclusive(Advance(w, GetLock(t)))
  {
    hide Live, ForMap, Perform, W.Next, Lockless;
    var m := w.tasks[t].m;
    var (registry, lock, isNew) := ForMap(w, m);
    ForMapSound(w, m);
    forall u | u in w.tasks && Owns(w.tasks[u].phase)
      ensures w.tasks[u].m in registry && registry[w.tasks[u].m] == w.tasks[u].phase.lock
    {
      OwnedLockStays(w, m, u);
    }
  }

  /** Steps of one task that owns its lock, or lets go of it, but leave the registry alone. */
  lemma OwnerKeeps(w: World, after: World, t: TaskId)
    requires Registered(w) && Exclusive(w) && t in w.tasks && t in after.tasks
    requires after.registry == w.registry && after.nextLock == w.nextLock
    requires after.tasks == w.tasks[t := w.tasks[t].(phase := after.tasks[t].phase)]
    requires Owns(after.tasks[t].phase) ==> Owns(w.tasks[t].phase) && after.tasks[t].phase.lock == w.tasks[t].phase.lock
    requires Inside(after.tasks[t].phase) && !Inside(w.tasks[t].phase) ==>
               forall u :: u in w.tasks && Inside(w.tasks[u].phase) ==>
                   w.tasks[u].phase.lock != after.tasks[t].phase.lock
    ensures Registered(after) && Exclusive(after)
  {
  }

  lemma LocksKept(w: World, s: Step)
    requires Registered(w) && Exclusive(w)
    ensures Registered(Advance(w, s)) && Exclusive(Advance(w, s))
  {
    match s
    case Other(e) => hide W.Next, Lockless;
    case Begin(_, _, _) =>
    case GetLock(t) =>
      if t in w.tasks && w.tasks[t].phase.Begun? {
        GetLockKeeps(w, t);
        hide Advance;
      }
    case _ =>
      hide Registered, Exclusive, Advance;
      OwnerStepKeeps(w, s);
  }

  lemma OwnerStepKeeps(w: World, s: Step)
    requires Registered(w) && Exclusive(w) && !s.Other? && !s.Begin? && !s.GetLock?
    ensures Registered(Advance(w, s)) && Exclusive(Advance(w, s))
  {
    hide Registered, Exclusive, Perform, ForMap, Live, W.Next, Lockless;
    if s.t in w.tasks && Advance(w, s) != w {
      OwnerKeeps(w, Advance(w, s), s.t);
    }
  }

  // ---- every step keeps the display true ----

  /** Steps that queue nothing and change nothing anyone wears. */
  lemma SameDisplay(w: World, after: World, m: MapUid)
    requires Displays(w, m)
    requires after.queue == w.queue && WornOn(after.db, m) == WornOn(w.db, m)
    requires forall t :: Unsent(after, t, m) <==> Unsent(w, t, m)
    requires forall t :: Unsent(after, t, m) ==> after.tasks[t].phase.update == w.tasks[t].phase.update
    ensures Displays(after, m)
  {
    hide WornOn, Shown, Apply, Unsent;
    assert forall t :: Unsent(w, t, m) ==> t in w.tasks && w.tasks[t].phase.Acted? && w.tasks[t].phase.update.Some? by {
      UnsentActed(w, m);
    }
  }

  lemma UnsentActed(w: World, m: MapUid)
    ensures forall t :: Unsent(w, t, m) ==> t in w.tasks && w.tasks[t].phase.Acted? && w.tasks[t].phase.update.Some?
  {
  }

  lemma LocklessLeavesWorn(db: Db, e: W.Event)
    requires Lockless(e)
    ensures W.Next(db, e).equipped == db.equipped
  {
    hide Parse, Strip, IsBound, HatRow, Without;
  }

  lemma OtherKeeps(w: World, e: W.Event, m: MapUid)
    requires Displays(w, m) && Lockless(e)
    ensures Displays(w.(db := W.Next(w.db, e)), m)
  {
    LocklessLeavesWorn(w.db, e);
    hide W.Next, Displays;
    SameDisplay(w, w.(db := W.Next(w.db, e)), m);
  }

  /** A task that moves between two phases neither of which has an unsent update. */
  lemma QuietKeeps(w: World, after: World, t: TaskId, m: MapUid)
    requires Displays(w, m) && t in after.tasks
    requires after.db == w.db && after.queue == w.queue
    requires after.tasks == w.tasks[t := after.tasks[t]]
    requires t in w.tasks ==> !w.tasks[t].phase.Acted?
    requires !after.tasks[t].phase.Acted?
    ensures Displays(after, m)
  {
    hide Displays;
    SameDisplay(w, after, m);
  }

  /** The world after an operation has been performed. */
  lemma ActShape(w: World, t: TaskId, readId: Option<SpecId>)
    requires t in w.tasks && w.tasks[t].phase.Holding?
    ensures var task, after := w.tasks[t], Advance(w, Act(t, readId));
            var (db, update) := Perform(w.db, task.m, task.op, readId);
            && after.db == db && after.queue == w.queue
            && after.tasks == w.tasks[t := task.(phase := Acted(task.phase.lock, update))]
  {
    hide Perform;
  }

  lemma PerformElsewhere(db: Db, m: MapUid, op: Op, readId: Option<SpecId>, x: MapUid)
    requires x != m && !Silent(db, m, op)
    ensures WornOn(Perform(db, m, op, readId).0, x) == WornOn(db, x)
  {
    PerformReports(db, m, op, readId);
    hide Perform, Silent, WornOn;
  }

  /** Acting on a map whose lock one holds: nobody else has anything unsent for it. */
  lemma ActKeeps(w: World, t: TaskId, readId: Option<SpecId>, m: MapUid)
    requires Registered(w) && Exclusive(w) && Displays(w, m) && t in w.tasks && w.tasks[t].phase.Holding?
    requires !Silent(w.db, w.tasks[t].m, w.tasks[t].op)
    ensures Displays(Advance(w, Act(t, readId)), m)
  {
    var task := w.tasks[t];
    var (db, update) := Perform(w.db, task.m, task.op, readId);
    var after := Advance(w, Act(t, readId));
    ActShape(w, t, readId);
    hide Perform, Advance, Silent;
    if m != task.m {
      PerformElsewhere(w.db, task.m, task.op, readId, m);
      hide Displays, WornOn;
      SameDisplay(w, after, m);
    } else {
      PerformReports(w.db, task.m, task.op, readId);
      AloneOnMap(w, t);
      ReportedStaysTruthful(w.db, db, m, update, Shown(w.queue, m));
      hide Reported, Truthful, Apply, Shown, Registered, Exclusive;
      assert forall u :: u != t ==> !Unsent(after, u, m);
      assert Unsent(after, t, m) <==> update.Some?;
    }
  }

  /** No other task inside this map's lock. */
  lemma AloneOnMap(w: World, t: TaskId)
    requires Registered(w) && Exclusive(w) && t in w.tasks && Inside(w.tasks[t].phase)
    ensures forall u :: u in w.tasks && u != t && w.tasks[u].m == w.tasks[t].m ==> !Inside(w.tasks[u].phase)
    ensures forall u :: u != t ==> !Unsent(w, u, w.tasks[t].m)
  {
  }

  lemma {:induction false} ShownOneMore(queue: seq<Update>, x: Update, m: MapUid)
    ensures Shown(queue + [x], m) == if x.m == m then Apply(Shown(queue, m), x.hats) else Shown(queue, m)
  {
    assert (queue + [x])[..|queue|] == queue;
  }

  lemma SendKeeps(w: World, t: TaskId, m: MapUid)
    requires Registered(w) && Exclusive(w) && Displays(w, m) && t in w.tasks && w.tasks[t].phase.Acted?
    ensures Displays(Advance(w, Send(t)), m)
  {
    var task := w.tasks[t];
    var after := Advance(w, Send(t));
    if task.phase.update.Some? {
      ShownOneMore(w.queue, Update(task.m, task.phase.update.value), m);
    }
    AloneOnMap(w, t);
    hide Truthful, Apply, Shown, Registered, Exclusive, ForMap, Perform, W.Next, Lockless;
    if m == task.m {
      assert forall u :: !Unsent(after, u, m);
      if task.phase.update.Some? {
        assert Unsent(w, t, m);
      } else {
        assert forall u :: !Unsent(w, u, m);
      }
    } else {
      assert forall u :: Unsent(after, u, m) <==> Unsent(w, u, m);
    }
  }

  lemma DisplayKept(w: World, s: Step, m: MapUid)
    requires Registered(w) && Exclusive(w) && Displays(w, m) && !SilentStep(w, s)
    ensures Displays(Advance(w, s), m)
  {
    hide Displays, Registered, Exclusive, ForMap, Perform, W.Next;
    match s
    case Other(e) =>
      if Lockless(e) {
        OtherKeeps(w, e, m);
      }
    case Begin(t, _, _) =>
      if t !in w.tasks {
        QuietKeeps(w, Advance(w, s), t, m);
      }
    case Act(t, readId) =>
      if t in w.tasks && w.tasks[t].phase.Holding? {
        ActKeeps(w, t, readId, m);
      }
    case Send(t) =>
      if t in w.tasks && w.tasks[t].phase.Acted? {
        SendKeeps(w, t, m);
      }
    case GetLock(t) =>
      if t in w.tasks && w.tasks[t].phase.Begun? {
        LockTaken(w, t, m);
      }
    case _ =>
      if s.t in w.tasks && Advance(w, s) != w {
        QuietKeeps(w, Advance(w, s), s.t, m);
      }
  }

  lemma LockTaken(w: World, t: TaskId, m: MapUid)
    requires Displays(w, m) && t in w.tasks && w.tasks[t].phase.Begun?
    ensures Displays(Advance(w, GetLock(t)), m)
  {
    hide Displays, ForMap;
    SameDisplay(w, Advance(w, GetLock(t)), m);
  }

  lemma {:induction false} LocksAlwaysKept(w: World, steps: seq<Step>)
    requires Ordered(w)
    ensures Ordered(History(w, steps))
    decreases |steps|
  {
    hide Advance, Registered, Exclusive;
    if steps != [] {
      LocksKept(w, steps[0]);
      LocksAlwaysKept(Advance(w, steps[0]), steps[1..]);
    }
  }

  lemma {:induction false} DisplayAlwaysKept(w: World, steps: seq<Step>)
    requires Ordered(w) && Truthfully(w) && NeverSilent(w, steps)
    ensures Truthfully(History(w, steps))
    decreases |steps|
  {
    hide Advance, Registered, Exclusive, Displays, SilentStep;
    if steps != [] {
      LocksKept(w, steps[0]);
      forall m ensures Displays(Advance(w, steps[0]), m) {
        DisplayKept(w, steps[0], m);
      }
      DisplayAlwaysKept(Advance(w, steps[0]), steps[1..]);
    }
  }

  lemma StartIsGood(w: World)
    requires Start(w)
    ensures Ordered(w) && Truthfully(w)
  {
  }

  // ---- what holds in every interleaving ----

  /** The registry never hands out two locks for one map while either is in use, and one task at most is inside. */
  lemma {:induction false} OneLockPerMap(w: World, steps: seq<Step>, t: TaskId, u: TaskId)
    requires Start(w)
    ensures var now := History(w, steps);
            t in now.tasks && u in now.tasks && t != u && now.tasks[t].m == now.tasks[u].m
            && Owns(now.tasks[t].phase) && Owns(now.tasks[u].phase) ==>
              && now.tasks[t].phase.lock == now.tasks[u].phase.lock
              && !(Inside(now.tasks[t].phase) && Inside(now.tasks[u].phase))
  {
    StartIsGood(w);
    LocksAlwaysKept(w, steps);
    hide History, Displays;
  }

  ghost predicate LockFree(w: World, m: MapUid) {
    forall t :: t in w.tasks && w.tasks[t].m == m ==> !Inside(w.tasks[t].phase)
  }

  /**
   Whenever a map's lock is free, a client that has applied every update queued for the
   map shows nobody in a hat other than the one stored as equipped, for all
   interleavings of equips, unequips, joins, leaves, binds and comment binds, as long as
   no comment bind was silent.
   */
  lemma {:induction false} UpdatesNeverLie(w: World, steps: seq<Step>, m: MapUid, u: User)
    requires Start(w) && NeverSilent(w, steps) && LockFree(History(w, steps), m)
    ensures var now := History(w, steps);
            u in Shown(now.queue, m) ==> u in WornOn(now.db, m) && WornOn(now.db, m)[u].slug == Shown(now.queue, m)[u]
  {
    StartIsGood(w);
    DisplayAlwaysKept(w, steps);
    hide History, Shown, Registered, Exclusive, NeverSilent;
    var now := History(w, steps);
    assert Displays(now, m);
    assert forall t :: !Unsent(now, t, m);
  }

  // ---- what a join announces ----

  lemma ShownSlugNotBlank(db: Db, m: MapUid, id: SpecId, slug: string)
    requires W.Inv(db) && Materialised(db, m, id) && slug in RowsOn(db, m).hats
    ensures slug != ""
  {
    assert W.Run(db, []) == db;
    hide W.Inv, W.Run, Materialised, Parse, RowsOn;
    W.MaterialisedShowsPresentSpec(db, [], m, id);
    var s := db.specs[id];
    var hats := Parse(s.json).value.hats;
    var i := W.RowOfSlug(RowsOn(db, m).hats, OfHat, m, Stored(s.owner, s.name, hats), H.HatSlug, slug);
    HatsNotBlank(s.json, i);
  }

  lemma HatsNotBlank(json: JsonText.Json, i: nat)
    requires Parse(json).Ok? && i < |Parse(json).value.hats|
    ensures Parse(json).value.hats[i].slug != ""
  {
    hide H.Hats, M.Games, C.Collectibles;
    H.ParsedRows(json);
  }

  /**
   As long as everybody on verified maps is entitled to what they wear, whoever joins a map
   that shows the present version of its spec is announced in exactly the hat they wear
   there, and on any other map nobody is announced.
   */
  lemma JoinAnnouncesWhatIsWorn(db: Db, user: User, m: MapUid, readId: Option<SpecId>)
    requires W.Inv(db) && W.Dressed(db)
    ensures var (after, update) := Perform(db, m, JoinMap(user), readId);
            && after == db
            && update == if (exists id :: Materialised(db, m, id)) && user in WornOn(db, m)
                         then Some(map[user := WornOn(db, m)[user].slug]) else None
  {
    if exists id :: Materialised(db, m, id) {
      var id :| Materialised(db, m, id);
      assert id == db.bindings[m].spec && IsVerified(db, m);
      assert W.EntitledOn(db, m);
      if user in WornOn(db, m) {
        assert W.Entitled(db, m, user, WornOn(db, m)[user]);
        hide W.Inv, W.Dressed, Materialised, WornOn, RowsOn;
        ShownSlugNotBlank(db, m, id, WornOn(db, m)[user].slug);
      }
    }
  }

  // ---- no task waits in vain ----

  function NextStep(t: TaskId, p: Phase, readId: Option<SpecId>): Step
    requires !p.Ended?
  {
    match p
    case Begun => GetLock(t)
    case Handle(_) => Acquire(t)
    case Holding(_) => Act(t, readId)
    case Acted(_, _) => Send(t)
    case Sent(_) => Release(t)
  }

  lemma GoesOn(w: World, t: TaskId, readId: Option<SpecId>)
    requires t in w.tasks && !w.tasks[t].phase.Ended?
    requires w.tasks[t].phase.Handle? ==>
               forall u :: u in w.tasks && Inside(w.tasks[u].phase) ==> w.tasks[u].phase.lock != w.tasks[t].phase.lock
    ensures var after := Advance(w, NextStep(t, w.tasks[t].phase, readId));
            t in after.tasks && after.tasks[t].phase != w.tasks[t].phase
  {
    hide Perform, ForMap;
  }

  /** There is no deadlock: while a task is unfinished, the next step of some task can be taken. */
  lemma NoDeadlock(w: World, t: TaskId, readId: Option<SpecId>) returns (u: TaskId)
    requires t in w.tasks && !w.tasks[t].phase.Ended?
    ensures u in w.tasks && !w.tasks[u].phase.Ended?
    ensures var after := Advance(w, NextStep(u, w.tasks[u].phase, readId));
            u in after.tasks && after.tasks[u].phase != w.tasks[u].phase
  {
    u := t;
    if w.tasks[t].phase.Handle?
       && exists x :: x in w.tasks && Inside(w.tasks[x].phase) && w.tasks[x].phase.lock == w.tasks[t].phase.lock
    {
      u :| u in w.tasks && Inside(w.tasks[u].phase) && w.tasks[u].phase.lock == w.tasks[t].phase.lock;
    }
    GoesOn(w, u, readId);
  }

  /** What a task that holds the lock does to the tables and the queue. */
  lemma HolderQueuesItsUpdate(w: World, t: TaskId, readId: Option<SpecId>)
    requires t in w.tasks && w.tasks[t].phase.Holding?
    ensures var now := Advance(Advance(w, Act(t, readId)), Send(t));
            var (db, update) := Perform(w.db, w.tasks[t].m, w.tasks[t].op, readId);
            && now.db == db && t in now.tasks && now.tasks[t].phase.Sent?
            && now.queue == w.queue + (if update.Some? then [Update(w.tasks[t].m, update.value)] else [])
            && Advance(now, Release(t)).tasks[t].phase.Ended?
  {
    hide Perform;
  }

  // ---- what clients show ----

  /** The latest update of a map that names a user, as the slug it gives them. */
  function LastNamed(queue: seq<Update>, m: MapUid, u: User): Option<string> {
    if queue == [] then None
    else if queue[|queue| - 1].m == m && u in queue[|queue| - 1].hats then Some(queue[|queue| - 1].hats[u])
    else LastNamed(queue[..|queue| - 1], m, u)
  }

  /** A client shows a user in the hat that the latest update naming them gives, unless that takes it off. */
  lemma {:induction false} ShownIsLastNamed(queue: seq<Update>, m: MapUid, u: User)
    ensures u in Shown(queue, m) <==> LastNamed(queue, m, u).Some? && LastNamed(queue, m, u).value != ""
    ensures u in Shown(queue, m) ==> Shown(queue, m)[u] == LastNamed(queue, m, u).value
  {
    if queue != [] {
      ShownIsLastNamed(queue[..|queue| - 1], m, u);
    }
  }

  /** A task that has not acted yet can be dropped wherever it waits. */
  lemma WaitingTasksCanBeDropped(w: World, t: TaskId)
    requires t in w.tasks && (w.tasks[t].phase.Begun? || w.tasks[t].phase.Handle? || w.tasks[t].phase.Holding?)
    ensures var after := Advance(w, Cancel(t));
            t in after.tasks && after.tasks[t].phase.Ended? && after.db == w.db && after.queue == w.queue
  {
  }

  /** Asking for a lock prunes the registry: only locks in use stay, and the one just asked for. */
  lemma RegistryIsPruned(w: World, t: TaskId, m: MapUid)
    requires t in w.tasks && w.tasks[t].phase.Begun?
    ensures m in Advance(w, GetLock(t)).registry <==>
              m == w.tasks[t].m || (m in w.registry && Live(w.tasks, w.registry[m]))
  {
    hide Live;
  }

  lemma {:induction false} ShownAfter(queue: seq<Update>, m: MapUid, hats: map<User, string>, u: User)
    requires u in hats
    ensures var shown := Shown(queue + [Update(m, hats)], m);
            (u in shown <==> hats[u] != "") && (u in shown ==> shown[u] == hats[u])
  {
    assert (queue + [Update(m, hats)])[..|queue|] == queue;
  }

  /**
   What clients show of the user a task is about, once its update is queued: a hat that was
   put on or announced, and nobody who took theirs off, left, or lost it to a bind.
   */
  lemma UpdateIsShown(w: World, t: TaskId, readId: Option<SpecId>, u: User)
    requires t in w.tasks && w.tasks[t].phase.Holding? && W.Inv(w.db) && W.Dressed(w.db)
    ensures var now, m, op := Advance(Advance(w, Act(t, readId)), Send(t)), w.tasks[t].m, w.tasks[t].op;
            var shown := Shown(now.queue, m);
            && (op == LeaveMap(u) ==> u !in shown)
            && (op.EquipHat? && op.user == u && Equip(w.db, u, m, op.slug, readId).1.Some? ==>
                  if op.slug == "" then u !in shown else u in shown && shown[u] == op.slug)
            && (op == JoinMap(u) && u in WornOn(w.db, m) && (exists id :: Materialised(w.db, m, id)) ==>
                  u in shown && shown[u] == WornOn(w.db, m)[u].slug)
            && (op.BindMap? && u in WornOn(w.db, m) && u !in WornOn(now.db, m) ==> u !in shown)
  {
    var m, op := w.tasks[t].m, w.tasks[t].op;
    HolderQueuesItsUpdate(w, t, readId);
    var (db, update) := Perform(w.db, m, op, readId);
    UpdateNames(w.db, m, op, readId, u);
    hide Advance, Perform, W.Inv, W.Dressed, Equip, WornOn, Shown, Materialised;
    if update.Some? && u in update.value {
      ShownAfter(w.queue, m, update.value, u);
    }
  }

  lemma EquipNames(db: Db, m: MapUid, user: User, slug: string, readId: Option<SpecId>)
    ensures Equip(db, user, m, slug, readId).1 in {None, Some(slug)}
  {
    hide Materialised, MayWear, WornOn;
  }

  lemma UpdateNames(db: Db, m: MapUid, op: Op, readId: Option<SpecId>, u: User)
    requires W.Inv(db) && W.Dressed(db)
    ensures var (after, update) := Perform(db, m, op, readId);
            && (op == LeaveMap(u) ==> update.Some? && u in update.value && update.value[u] == "")
            && (op.EquipHat? && op.user == u && Equip(db, u, m, op.slug, readId).1.Some? ==>
                  update.Some? && u in update.value && update.value[u] == op.slug)
            && (op == JoinMap(u) && u in WornOn(db, m) && (exists id :: Materialised(db, m, id)) ==>
                  update.Some? && u in update.value && update.value[u] == WornOn(db, m)[u].slug
                  && WornOn(db, m)[u].slug != "")
            && (op.BindMap? && u in WornOn(db, m) && u !in WornOn(after, m) ==>
                  update.Some? && u in update.value && update.value[u] == "")
  {
    match op
    case EquipHat(user, slug) =>
      hide Equip;
      EquipNames(db, m, user, slug, readId);
    case JoinMap(user) =>
      JoinAnnouncesWhatIsWorn(db, user, m, readId);
      hide Perform, W.Inv, W.Dressed, Materialised, WornOn;
      if user in WornOn(db, m) && exists id :: Materialised(db, m, id) {
        WornSlugNotBlank(db, m, user);
      }
    case LeaveMap(user) =>
    case BindMap(prepared, reporter, id) =>
      if u in WornOn(db, m) && u !in WornOn(Perform(db, m, op, readId).0, m) {
        BindNames(db, m, prepared, reporter, id, readId, u);
      }
      hide Perform;
    case HeedComment(id) =>
      hide Perform;
  }

  lemma WornSlugNotBlank(db: Db, m: MapUid, user: User)
    requires W.Inv(db) && W.Dressed(db) && user in WornOn(db, m) && exists id :: Materialised(db, m, id)
    ensures WornOn(db, m)[user].slug != ""
  {
    var id :| Materialised(db, m, id);
    assert W.EntitledOn(db, m);
    assert W.Entitled(db, m, user, WornOn(db, m)[user]);
    hide W.Inv, W.Dressed, Materialised, WornOn, RowsOn;
    ShownSlugNotBlank(db, m, id, WornOn(db, m)[user].slug);
  }

  lemma BindNames(db: Db, m: MapUid, prepared: Option<User>, reporter: User, id: SpecId, readId: Option<SpecId>,
                  u: User)
    requires u in WornOn(db, m) && u !in WornOn(Perform(db, m, BindMap(prepared, reporter, id), readId).0, m)
    ensures var (after, update) := Perform(db, m, BindMap(prepared, reporter, id), readId);
            update.Some? && u in update.value && update.value[u] == ""
  {
    hide CommitLocked;
    if id in db.specs {
      var l := LockRows(db, m, id);
      var (after, r) := CommitLocked(db, l, prepared, reporter, m, id);
      B.JustRead(db, m, id);
      hide LockRows, Holds;
      if r.Ok? {
        B.AuthorBindReportsExactly(db, l, prepared, reporter, m, id);
        hide WornOn, B.OnlyUndresses;
        assert u in r.value.removed;
      } else {
        B.RefusedCommit(db, l, prepared, reporter, m, id);
      }
    }
  }
}
