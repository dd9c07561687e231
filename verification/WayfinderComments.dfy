/**
 What following the published comment does to a map that is already bound: when a verified
 binding moves, how long a map stays playable, and runs in which a map is taken over, a hat
 is taken off in silence, and a hat survives the move.
 */
module WayfinderComments {
  import opened Common
  import opened CatalogFold
  import opened JsonText
  import opened Wayfinder
  import opened WayfinderInvariant
  import opened WayfinderRuns
  import B = WayfinderBinding

  // ---- when a verified binding moves ----

  /** A comment bind of this map to another spec, which is there and valid. */
  predicate Moves(db: Db, e: Event, m: MapUid)
    requires m in db.bindings
  {
    && e.BindsByComment? && e.m == m && Holds(db, e.l, m, e.id)
    && e.id != db.bindings[m].spec
    && Parse(db.specs[e.id].json).Ok?
  }

  lemma CommentMoves(db: Db, l: Locked, m: MapUid, id: SpecId, x: MapUid)
    requires Holds(db, l, m, id) && IsVerified(db, x)
    ensures var after := CommitComment(db, l, m, id).0;
            && IsVerified(after, x)
            && after.bindings[x].spec == if Moves(db, BindsByComment(l, m, id), x) then id else db.bindings[x].spec
  {
    CommentStands(db, l, m, id);
    hide CommitComment, Parse;
    if !Synchronised(l, id) && Parse(db.specs[id].json).Ok? {
      B.CommentBindings(db, l, m, id);
      hide Moved, Holds, Synchronised;
    }
  }

  lemma AuthorNeverMoves(db: Db, l: Locked, prepared: Option<User>, reporter: User, m: MapUid, id: SpecId, x: MapUid)
    requires Holds(db, l, m, id) && IsVerified(db, x)
    ensures var after := CommitLocked(db, l, prepared, reporter, m, id).0;
            IsVerified(after, x) && after.bindings[x].spec == db.bindings[x].spec
  {
    hide CommitLocked, Holds;
    if CommitLocked(db, l, prepared, reporter, m, id).1.Ok? {
      B.CommitEffect(db, l, prepared, reporter, m, id);
    } else {
      B.RefusedCommit(db, l, prepared, reporter, m, id);
    }
  }

  /**
   A verified binding stays verified under every transaction, and names another spec
   afterwards if and only if the transaction is a comment bind of its map to that spec.
   */
  lemma VerifiedMovesIffCommentMoves(db: Db, e: Event, m: MapUid)
    requires Keyed(db) && IsVerified(db, m)
    ensures IsVerified(Next(db, e), m)
    ensures Next(db, e).bindings[m].spec != db.bindings[m].spec <==> Moves(db, e, m)
    ensures Moves(db, e, m) ==> Next(db, e).bindings[m].spec == e.id
  {
    hide CommitLocked, CommitComment, Upload, DeleteSpec, CommitUnlock, Equip, Without, Holds, Verified, Parse;
    match e
    case BindsByComment(l, n, id) =>
      if Holds(db, l, n, id) {
        CommentMoves(db, l, n, id, m);
      }
    case BindsAsAuthor(l, prepared, reporter, n, id) =>
      if Holds(db, l, n, id) {
        AuthorNeverMoves(db, l, prepared, reporter, n, id, m);
      }
    case _ =>
      B.OthersLeaveBindings(db, e);
      B.StayVerified(db, Next(db, e));
  }

  /** The spec of a verified map after a run: the last one a comment moved it to. */
  function Followed(db: Db, events: seq<Event>, m: MapUid, spec: SpecId): SpecId
    decreases |events|
  {
    if events == [] then spec else
      Followed(Next(db, events[0]), events[1..], m,
               if m in db.bindings && Moves(db, events[0], m) then events[0].id else spec)
  }

  /** Over whole runs, comments included: what is verified stays so, and follows the comments and nothing else. */
  lemma {:induction false} VerifiedFollowsComments(db: Db, events: seq<Event>, m: MapUid)
    requires Inv(db) && IsVerified(db, m)
    ensures IsVerified(Run(db, events), m)
    ensures Run(db, events).bindings[m].spec == Followed(db, events, m, db.bindings[m].spec)
    decreases |events|
  {
    hide Next, Moves, Keyed, Stamped, AllCurrent, Verified;
    if events != [] {
      NextKeeps(db, events[0]);
      VerifiedMovesIffCommentMoves(db, events[0], m);
      VerifiedFollowsComments(Next(db, events[0]), events[1..], m);
    }
  }

  ghost predicate NoCommentFor(events: seq<Event>, m: MapUid) {
    forall i :: 0 <= i < |events| ==> !(events[i].BindsByComment? && events[i].m == m)
  }

  /** So a run without comment binds of the map leaves its spec alone. */
  lemma {:induction false} WithoutCommentsNothingMoves(db: Db, events: seq<Event>, m: MapUid)
    requires Inv(db) && IsVerified(db, m) && NoCommentFor(events, m)
    ensures IsVerified(Run(db, events), m) && Run(db, events).bindings[m].spec == db.bindings[m].spec
    decreases |events|
  {
    hide Next, Keyed, Stamped, AllCurrent, Verified;
    if events != [] {
      NextKeeps(db, events[0]);
      VerifiedMovesIffCommentMoves(db, events[0], m);
      WithoutCommentsNothingMoves(Next(db, events[0]), events[1..], m);
    }
  }

  /** User 7 binds map 1 to a spec of theirs; user 8 has one, too. */
  function BoundRun(): seq<Event> {
    [Uploads(7, "a", Null, 0)] + [Uploads(8, "b", Null, 0)]
    + [BindsAsAuthor(Locked(Spec(7, "a", Null, 1, 0), None, false), Some(7), 7, 1, 0)]
  }

  /** The comment of the map names the spec of user 8. */
  function TakeOver(): Event {
    BindsByComment(Locked(Spec(8, "b", Null, 2, 0), Some(Binding(0, Some(7), Some(Revision(1, 0)))), true), 1, 1)
  }

  lemma Bound()
    ensures var db := Run(EmptyDb(), BoundRun());
            && db.specs == map[0 := Spec(7, "a", Null, 1, 0), 1 := Spec(8, "b", Null, 2, 0)]
            && db.bindings == map[1 := Binding(0, Some(7), Some(Revision(1, 0)))]
  {
    NothingInNull();
    hide Parse, Run, Strip;
    var e1, e2 := Uploads(7, "a", Null, 0), Uploads(8, "b", Null, 0);
    var l := Locked(Spec(7, "a", Null, 1, 0), None, false);
    var e3 := BindsAsAuthor(l, Some(7), 7, 1, 0);
    RunOne(EmptyDb(), e1);
    RunMore(EmptyDb(), [e1], e2);
    RunMore(EmptyDb(), [e1] + [e2], e3);
    UploadFields(EmptyDb(), 7, "a", Null, 0);
    UploadFields(Next(EmptyDb(), e1), 8, "b", Null, 0);
    hide Next, Upload;
    OwnBind(Next(Next(EmptyDb(), e1), e2), l, 1, 0);
    hide Shows, Materialised;
  }

  lemma EmptyStarts()
    ensures Inv(EmptyDb())
  {
  }

  /** A run after which a map that user 7 has verified for their spec belongs to a spec of user 8. */
  lemma CommentMovesVerified()
    ensures var db, after := Run(EmptyDb(), BoundRun()), Run(EmptyDb(), BoundRun() + [TakeOver()]);
            && IsVerified(db, 1) && db.bindings[1].spec in db.specs && db.specs[db.bindings[1].spec].owner == 7
            && IsVerified(after, 1) && after.bindings[1].spec == 1 && 1 in db.specs && db.specs[1].owner == 8
  {
    var db := Run(EmptyDb(), BoundRun());
    hide Run, BoundRun, TakeOver, Next, Inv;
    Bound();
    Owned(db);
    EmptyStarts();
    RunKeeps(EmptyDb(), BoundRun());
    assert Keyed(db) by { B.InvKeyed(db); }
    RunMore(EmptyDb(), BoundRun(), TakeOver());
    hide Keyed, Moves;
    VerifiedMovesIffCommentMoves(db, TakeOver(), 1);
  }

  lemma Owned(db: Db)
    requires db.specs == map[0 := Spec(7, "a", Null, 1, 0), 1 := Spec(8, "b", Null, 2, 0)]
    requires db.bindings == map[1 := Binding(0, Some(7), Some(Revision(1, 0)))]
    ensures IsVerified(db, 1) && TakeOver().id == 1 && Moves(db, TakeOver(), 1)
  {
    NothingInNull();
    hide Parse;
  }

  // ---- how long a map stays playable ----

  /** A new version of this spec. */
  predicate Outdates(db: Db, e: Event, id: SpecId)
    requires id in db.specs
  {
    e.Uploads? && (e.user, e.name) == (db.specs[id].owner, db.specs[id].name) && Parse(Strip(e.json)).Ok?
  }

  lemma SameMaterialised(db: Db, after: Db, m: MapUid, id: SpecId)
    requires after.specs == db.specs && after.bindings == db.bindings
    ensures Materialised(after, m, id) <==> Materialised(db, m, id)
  {
  }

  lemma UploadOutdates(db: Db, user: User, name: string, json: Json, hash: nat, m: MapUid, id: SpecId)
    requires Keyed(db) && Stamped(db) && Materialised(db, m, id)
    ensures Materialised(Upload(db, user, name, json, hash).0, m, id) <==>
              !Outdates(db, Uploads(user, name, json, hash), id)
  {
    B.UploadShape(db, user, name, json, hash);
    hide Strip, Upload, Parse;
  }

  lemma CommentKeepsMaterialised(db: Db, l: Locked, m: MapUid, id: SpecId, x: MapUid, other: SpecId)
    requires Holds(db, l, x, other) && Materialised(db, m, id)
    ensures Materialised(CommitComment(db, l, x, other).0, m, id) <==> !Moves(db, BindsByComment(l, x, other), m)
  {
    CommentStands(db, l, x, other);
    hide CommitComment, Parse;
    if !Synchronised(l, other) && Parse(db.specs[other].json).Ok? {
      B.CommentBindings(db, l, x, other);
    }
  }

  lemma AuthorKeepsMaterialised(db: Db, l: Locked, prepared: Option<User>, reporter: User, x: MapUid, other: SpecId,
                                m: MapUid, id: SpecId)
    requires Holds(db, l, x, other) && Materialised(db, m, id)
    ensures Materialised(CommitLocked(db, l, prepared, reporter, x, other).0, m, id)
  {
    hide CommitLocked, Holds;
    BindAccepted(db, l, prepared, reporter, x, other);
    if CommitLocked(db, l, prepared, reporter, x, other).1.Ok? {
      B.CommitEffect(db, l, prepared, reporter, x, other);
      B.BindMaterialises(db, l, prepared, reporter, x, other);
    }
  }

  lemma DeleteKeepsMaterialised(db: Db, user: User, name: string, m: MapUid, id: SpecId)
    requires Materialised(db, m, id)
    ensures Materialised(DeleteSpec(db, user, name).0, m, id)
  {
  }

  /**
   A map that shows the present version of its spec goes on showing it under every
   transaction, except exactly when the spec is uploaded anew or the map's comment moves it.
   */
  lemma StaysMaterialisedIff(db: Db, e: Event, m: MapUid, id: SpecId)
    requires Keyed(db) && Stamped(db) && Materialised(db, m, id)
    ensures Materialised(Next(db, e), m, id) <==> !Outdates(db, e, id) && !Moves(db, e, m)
  {
    hide CommitLocked, CommitComment, Upload, DeleteSpec, CommitUnlock, Equip, Without, Holds, Materialised, Keyed;
    match e
    case Uploads(user, name, json, hash) => UploadOutdates(db, user, name, json, hash, m, id);
    case DeletesSpec(user, name) => DeleteKeepsMaterialised(db, user, name, m, id);
    case BindsAsAuthor(l, prepared, reporter, x, other) =>
      if Holds(db, l, x, other) {
        AuthorKeepsMaterialised(db, l, prepared, reporter, x, other, m, id);
      }
    case BindsByComment(l, x, other) =>
      if Holds(db, l, x, other) {
        CommentKeepsMaterialised(db, l, m, id, x, other);
      }
    case Unlocks(user, x, slug, other, validated) =>
      B.UnlockLeavesBindings(db, user, x, slug, other, validated);
      SameMaterialised(db, Next(db, e), m, id);
    case Equips(user, x, slug, readId) =>
      B.EquipLeavesBindings(db, user, x, slug, readId);
      SameMaterialised(db, Next(db, e), m, id);
    case _ => SameMaterialised(db, Next(db, e), m, id);
  }

  /** No transaction of the run uploads the spec anew or moves the map. */
  ghost predicate LeftAlone(db: Db, events: seq<Event>, m: MapUid, id: SpecId)
    decreases |events|
  {
    id in db.specs && m in db.bindings
    && (events == [] ||
          (!Outdates(db, events[0], id) && !Moves(db, events[0], m)
              && LeftAlone(Next(db, events[0]), events[1..], m, id)))
  }

  lemma {:induction false} StaysMaterialised(db: Db, events: seq<Event>, m: MapUid, id: SpecId)
    requires Inv(db) && Materialised(db, m, id) && LeftAlone(db, events, m, id)
    ensures Materialised(Run(db, events), m, id)
    decreases |events|
  {
    hide Next, Outdates, Moves, Materialised, AllCurrent;
    if events != [] {
      NextKeeps(db, events[0]);
      StaysMaterialisedIff(db, events[0], m, id);
      StaysMaterialised(Next(db, events[0]), events[1..], m, id);
    }
  }

  /**
   Once a bind of the author has succeeded, and after any transactions that neither upload
   the spec anew nor move the map, every further bind of the map to that spec, by anyone
   and however prepared, and every comment that names it, changes nothing.
   */
  lemma {:induction false} BoundOnceIsBound(db: Db, l: Locked, prepared: Option<User>, reporter: User, m: MapUid,
                                            id: SpecId,
                                            events: seq<Event>, prepared': Option<User>, reporter': User)
    requires Inv(db) && Holds(db, l, m, id) && CommitLocked(db, l, prepared, reporter, m, id).1.Ok?
    requires LeftAlone(CommitLocked(db, l, prepared, reporter, m, id).0, events, m, id)
    ensures var now := Run(CommitLocked(db, l, prepared, reporter, m, id).0, events);
            && CommitAuthor(now, prepared', reporter', m, id) == (now, Ok(Bind(id, {}, false, false)))
            && FollowComment(now, m, id) == (now, Ok(Bind(id, {}, false, false)))
  {
    hide CommitLocked, Holds, LeftAlone, Run, Materialised, Inv;
    var after := CommitLocked(db, l, prepared, reporter, m, id).0;
    CommitLockedKeeps(db, l, prepared, reporter, m, id);
    B.BindMaterialises(db, l, prepared, reporter, m, id);
    StaysMaterialised(after, events, m, id);
    SynchronisedBind(Run(after, events), prepared', reporter', m, id);
  }

  lemma SynchronisedBind(db: Db, prepared: Option<User>, reporter: User, m: MapUid, id: SpecId)
    requires Materialised(db, m, id)
    ensures CommitAuthor(db, prepared, reporter, m, id) == (db, Ok(Bind(id, {}, false, false)))
    ensures FollowComment(db, m, id) == (db, Ok(Bind(id, {}, false, false)))
  {
  }

  // ---- a hat taken off in silence, and one that survives ----

  /**
   User 7 uploads a spec with a hat and binds map 1 to it; user 5 earns the hat and wears
   it; 7 uploads anew, without hats.
   */
  function DressingRun(): seq<Event> {
    ([Uploads(7, "n", HatSpec(), 0)] + DressEvents()) + [Uploads(7, "n", Null, 0)]
  }

  lemma Dressed5()
    ensures var db := Run(EmptyDb(), DressingRun());
            && db.specs == map[0 := SpecOf7(Null, 2)] && Wears5(db)
  {
    HatSpecParses();
    NothingInNull();
    hide HatSpec, Parse, Run, Strip, WornOn;
    var e1, e5 := Uploads(7, "n", HatSpec(), 0), Uploads(7, "n", Null, 0);
    RunMore(EmptyDb(), [e1] + DressEvents(), e5);
    RunSplit(EmptyDb(), [e1], DressEvents());
    RunOne(EmptyDb(), e1);
    UploadFields(EmptyDb(), 7, "n", HatSpec(), 0);
    hide Next, DressEvents;
    var db1 := Next(EmptyDb(), e1);
    Dressing(db1);
    UploadFields(Run(db1, DressEvents()), 7, "n", Null, 0);
    SameWorn(Run(db1, DressEvents()), Next(Run(db1, DressEvents()), e5));
  }

  lemma SameWorn(db: Db, after: Db)
    requires after.equipped == db.equipped
    ensures forall m :: WornOn(after, m) == WornOn(db, m)
  {
  }

  /** A run after which the comment bind takes off a hat and reports nobody. */
  lemma CommentBindForgetsWearers()
    ensures var db := Run(EmptyDb(), DressingRun());
            && 5 in WornOn(db, 1)
            && FollowComment(db, 1, 0).1 == Ok(Bind(0, {}, true, false))
            && 5 !in WornOn(FollowComment(db, 1, 0).0, 1)
  {
    hide Run, DressingRun, WornOn, FollowComment;
    Dressed5();
    Forgetting(Run(EmptyDb(), DressingRun()));
  }

  /** The lock of the comment bind finds the version before. */
  lemma StaleLock(db: Db)
    requires db.specs == map[0 := SpecOf7(Null, 2)]
    requires db.bindings == map[1 := Binding(0, Some(7), Some(Revision(1, 0)))]
    ensures var l := LockRows(db, 1, 0);
            && Holds(db, l, 1, 0) && !Synchronised(l, 0) && !Moved(l, 0)
            && FollowComment(db, 1, 0) == CommitComment(db, l, 1, 0)
  {
    hide CommitComment;
  }

  lemma NobodyKeeps(worn: map<User, Worn>)
    ensures Kept(worn, Rows(1, 7, "n", Catalog([], [], [])).hats) == map[]
  {
    assert Rows(1, 7, "n", Catalog([], [], [])).hats == map[];
  }

  lemma Forgetting(db: Db)
    requires db.specs == map[0 := SpecOf7(Null, 2)] && Wears5(db)
    ensures FollowComment(db, 1, 0).1 == Ok(Bind(0, {}, true, false)) && 5 !in WornOn(FollowComment(db, 1, 0).0, 1)
  {
    var l := LockRows(db, 1, 0);
    StaleLock(db);
    NothingInNull();
    NobodyKeeps(WornOn(db, 1));
    hide Parse, WornOn, CommitComment, FollowComment, Materialise, Repointed, LockRows, Holds, Synchronised, Moved,
         Rows, Kept;
    CommentShape(db, l, 1, 0);
    B.CommentWears(db, l, 1, 0);
  }

  lemma AuthorMovesUndress(db: Db, l: Locked, prepared: Option<User>, reporter: User, m: MapUid, id: SpecId, u: User)
    requires Holds(db, l, m, id) && m in db.bindings
    requires CommitLocked(db, l, prepared, reporter, m, id).1.Ok? && db.bindings[m].spec != id
    ensures u !in WornOn(CommitLocked(db, l, prepared, reporter, m, id).0, m)
  {
    B.CommitEffect(db, l, prepared, reporter, m, id);
    BindAccepted(db, l, prepared, reporter, m, id);
    BindIsMaterialise(db, l, prepared, reporter, m, id);
    hide CommitLocked, Parse, Materialise, Holds, Rebound, WornOn;
    B.ReboundWears(db, reporter, m, id);
    B.MaterialiseUndresses(Rebound(db, reporter, m, id), m, id, Parse(db.specs[id].json).value);
  }

  lemma OtherMapStays(db: Db, e: Event, m: MapUid)
    requires Keyed(db) && m in db.bindings
    requires (e.BindsByComment? || e.BindsAsAuthor?) ==> e.m != m || !Holds(db, e.l, e.m, e.id)
    ensures m in Next(db, e).bindings && Next(db, e).bindings[m] == db.bindings[m]
  {
    hide CommitLocked, CommitComment, Upload, DeleteSpec, CommitUnlock, Equip, Without, Holds, Parse, Keyed;
    match e
    case BindsByComment(l, n, id) =>
      if Holds(db, l, n, id) {
        B.BindingRead(db, l, n, id);
        CommentStands(db, l, n, id);
        if !Synchronised(l, id) && Parse(db.specs[id].json).Ok? {
          B.CommentBindings(db, l, n, id);
        }
      }
    case BindsAsAuthor(l, prepared, reporter, n, id) =>
      if Holds(db, l, n, id) {
        if CommitLocked(db, l, prepared, reporter, n, id).1.Ok? {
          B.CommitEffect(db, l, prepared, reporter, n, id);
        } else {
          B.RefusedCommit(db, l, prepared, reporter, n, id);
        }
      }
    case _ => B.OthersLeaveBindings(db, e);
  }

  /**
   Whatever transaction points a bound map at another spec, who wears a hat there keeps it
   if and only if a comment bind does so that has read no binding, and the hat fits.
   */
  lemma MovedMapKeepsHatIff(db: Db, e: Event, m: MapUid, u: User)
    requires Keyed(db) && m in db.bindings && u in WornOn(db, m)
    requires m in Next(db, e).bindings && Next(db, e).bindings[m].spec != db.bindings[m].spec
    ensures (e.BindsByComment? || e.BindsAsAuthor?) && e.m == m
            && e.id in db.specs && Parse(db.specs[e.id].json).Ok?
    ensures u in WornOn(Next(db, e), m) <==>
              && e.BindsByComment? && e.l.binding == None
              && Fits(Rows(m, db.specs[e.id].owner, db.specs[e.id].name, Parse(db.specs[e.id].json).value).hats,
                      WornOn(db, m)[u])
  {
    hide CommitLocked, CommitComment, Upload, DeleteSpec, CommitUnlock, Equip, Without, Holds, Parse, Rows, WornOn,
         Keyed;
    if !(e.BindsByComment? || e.BindsAsAuthor?) || e.m != m || !Holds(db, e.l, e.m, e.id) {
      OtherMapStays(db, e, m);
    } else if e.BindsByComment? {
      B.BindingRead(db, e.l, m, e.id);
      CommentTarget(db, e.l, m, e.id);
      B.MovedWearersSurviveIff(db, e.l, m, e.id, u);
    } else if CommitLocked(db, e.l, e.prepared, e.reporter, m, e.id).1.Ok? {
      B.CommitEffect(db, e.l, e.prepared, e.reporter, m, e.id);
      BindAccepted(db, e.l, e.prepared, e.reporter, m, e.id);
      BindIsMaterialise(db, e.l, e.prepared, e.reporter, m, e.id);
      AuthorMovesUndress(db, e.l, e.prepared, e.reporter, m, e.id, u);
    } else {
      B.RefusedCommit(db, e.l, e.prepared, e.reporter, m, e.id);
    }
  }

  lemma CommentTarget(db: Db, l: Locked, m: MapUid, id: SpecId)
    requires Holds(db, l, m, id) && m in db.bindings
    requires m in CommitComment(db, l, m, id).0.bindings
          && CommitComment(db, l, m, id).0.bindings[m].spec != db.bindings[m].spec
    ensures CommitComment(db, l, m, id).1.Ok? && db.bindings[m].spec != id && Parse(db.specs[id].json).Ok?
  {
    CommentShape(db, l, m, id);
    hide CommitComment, Parse, Materialise, Repointed, Holds;
    if !Synchronised(l, id) && Parse(db.specs[id].json).Ok? {
      B.CommentBindings(db, l, m, id);
    }
  }

  /** User 8 has a spec with the same hat, which the comment names; its bind has read that map 1 is not bound. */
  function OvertakenRun(): seq<Event> {
    ([Uploads(7, "n", HatSpec(), 0)] + [Uploads(8, "b", HatSpec(), 0)]) + DressEvents()
  }

  function Overtaken(): Locked {
    Locked(Spec(8, "b", HatSpec(), 2, 0), None, false)
  }

  /**
   A run in which user 7 binds the map between the reads and the upsert of a comment bind,
   and a wearer survives the move.
   */
  lemma OvertakenMoveKeepsWearers()
    ensures var db := Run(EmptyDb(), OvertakenRun());
            && Holds(db, Overtaken(), 1, 1) && IsVerified(db, 1) && db.bindings[1].spec == 0 && 5 in WornOn(db, 1)
            && var after := Next(db, BindsByComment(Overtaken(), 1, 1));
               && IsVerified(after, 1) && after.bindings[1].spec == 1
               && 5 in WornOn(after, 1)
  {
    HatSpecParses();
    hide HatSpec, Parse, Run, Strip, WornOn;
    var e1, e2 := Uploads(7, "n", HatSpec(), 0), Uploads(8, "b", HatSpec(), 0);
    RunSplit(EmptyDb(), [e1] + [e2], DressEvents());
    RunMore(EmptyDb(), [e1], e2);
    RunOne(EmptyDb(), e1);
    UploadFields(EmptyDb(), 7, "n", HatSpec(), 0);
    var db1 := Next(EmptyDb(), e1);
    UploadFields(db1, 8, "b", HatSpec(), 0);
    hide Upload, DressEvents;
    var db2 := Next(db1, e2);
    Dressing(db2);
    hide Next;
    Surviving(Run(db2, DressEvents()));
  }

  /** The reads of the overtaken bind hold, and the binding is elsewhere. */
  lemma OvertakenHolds(db: Db)
    requires db.specs == map[0 := SpecOf7(HatSpec(), 1), 1 := Spec(8, "b", HatSpec(), 2, 0)]
    requires db.bindings == map[1 := Binding(0, Some(7), Some(Revision(1, 0)))]
    ensures Holds(db, Overtaken(), 1, 1) && !Synchronised(Overtaken(), 1) && Overtaken().binding == None
    ensures IsVerified(db, 1)
    ensures Next(db, BindsByComment(Overtaken(), 1, 1)) == CommitComment(db, Overtaken(), 1, 1).0
  {
    hide HatSpec, CommitComment;
  }

  lemma HatFits()
    ensures Fits(Rows(1, 8, "b", Catalog([], [], [OneHat()])).hats, Worn("Hat-1", Hat1()))
  {
    HatShown(8, "b");
    hide Rows;
  }

  lemma Surviving(db: Db)
    requires db.specs == map[0 := SpecOf7(HatSpec(), 1), 1 := Spec(8, "b", HatSpec(), 2, 0)] && Wears5(db)
    ensures Holds(db, Overtaken(), 1, 1) && IsVerified(db, 1) && db.bindings[1].spec == 0
    ensures var after := Next(db, BindsByComment(Overtaken(), 1, 1));
            IsVerified(after, 1) && after.bindings[1].spec == 1 && 5 in WornOn(after, 1)
  {
    OvertakenHolds(db);
    HatSpecParses();
    HatFits();
    hide HatSpec, Parse, WornOn, Rows, Holds, Verified, Overtaken, Next, CommitComment, Fits, Synchronised;
    CommentShape(db, Overtaken(), 1, 1);
    hide Materialise, Repointed;
    CommentMoves(db, Overtaken(), 1, 1, 1);
    B.MovedWearersSurviveIff(db, Overtaken(), 1, 1, 5);
  }
}
