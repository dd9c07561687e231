/**
 Who may be wearing what. What was worn before bindings were verified is still in the
 tables, entitled or not: which transactions bring such wearers onto a verified map, and
 that without those everybody on a verified map wears a hat they unlocked there.
 */
module WayfinderWearers {
  import opened Common
  import opened JsonText
  import opened Wayfinder
  import opened WayfinderInvariant
  import opened WayfinderRuns
  import B = WayfinderBinding
  import H = HatCatalog

  /** This user unlocked this hat on this map. */
  predicate Unlocked(db: Db, m: MapUid, u: User, w: Worn) {
    (u, w.key) in db.unlocks && db.unlocks[(u, w.key)] == Place(m, w.slug)
  }

  /** The bind verifies its map, and leaves what is worn there for the new rows to fit or not. */
  predicate Adopts(db: Db, e: Event) {
    match e
    case BindsAsAuthor(l, prepared, reporter, m, id) =>
      && Holds(db, l, m, id) && m !in db.bindings
      && prepared == Some(reporter) && db.specs[id].owner == reporter && Parse(db.specs[id].json).Ok?
    case BindsByComment(l, m, id) =>
      && Holds(db, l, m, id) && !IsVerified(db, m) && (m in db.bindings ==> db.bindings[m].spec == id)
      && Parse(db.specs[id].json).Ok?
    case _ => false
  }

  function RowsFor(db: Db, m: MapUid, id: SpecId): map<string, Placed<H.Hat>>
    requires id in db.specs && Parse(db.specs[id].json).Ok?
  {
    Rows(m, db.specs[id].owner, db.specs[id].name, Parse(db.specs[id].json).value).hats
  }

  /** Somebody's hat fits by its slug and key, and was never unlocked. */
  ghost predicate Stowaway(db: Db, m: MapUid, hats: map<string, Placed<H.Hat>>) {
    exists u :: u in WornOn(db, m) && Fits(hats, WornOn(db, m)[u]) && !Unlocked(db, m, u, WornOn(db, m)[u])
  }

  ghost predicate AdoptsStowaway(db: Db, e: Event) {
    Adopts(db, e) && Stowaway(db, e.m, RowsFor(db, e.m, e.id))
  }

  // ---- binds ----

  lemma KeptEntitled(db: Db, after: Db, m: MapUid, hats: map<string, Placed<H.Hat>>)
    requires after.unlocks == db.unlocks && RowsOn(after, m).hats == hats
    requires WornOn(after, m) == Kept(WornOn(db, m), hats)
    ensures EntitledOn(after, m) <==> !Stowaway(db, m, hats)
    ensures EntitledOn(db, m) ==> EntitledOn(after, m)
  {
    hide WornOn, RowsOn;
    if Stowaway(db, m, hats) {
      var u :| u in WornOn(db, m) && Fits(hats, WornOn(db, m)[u]) && !Unlocked(db, m, u, WornOn(db, m)[u]);
      assert u in WornOn(after, m) && !Entitled(after, m, u, WornOn(after, m)[u]);
    } else {
      forall u | u in WornOn(after, m) ensures Entitled(after, m, u, WornOn(after, m)[u]) {
        assert Fits(hats, WornOn(db, m)[u]) && Unlocked(db, m, u, WornOn(db, m)[u]);
      }
    }
  }

  lemma MaterialiseDresses(db: Db, m: MapUid, id: SpecId, cat: Catalog)
    requires id in db.specs && m in db.bindings
    ensures var after := Materialise(db, m, id, cat);
            var hats := Rows(m, db.specs[id].owner, db.specs[id].name, cat).hats;
            && after.unlocks == db.unlocks && RowsOn(after, m).hats == hats
            && (EntitledOn(after, m) <==> !Stowaway(db, m, hats))
            && (EntitledOn(db, m) ==> EntitledOn(after, m))
            && forall x :: x != m ==> RowsOn(after, x) == RowsOn(db, x) && WornOn(after, x) == WornOn(db, x)
  {
    B.MaterialiseWears(db, m, id, cat);
    MaterialiseSplits(db, m, id, cat);
    hide Materialise, Rows, Kept, EntitledOn, Stowaway;
    KeptEntitled(db, Materialise(db, m, id, cat), m, Rows(m, db.specs[id].owner, db.specs[id].name, cat).hats);
  }

  lemma MaterialiseSplits(db: Db, m: MapUid, id: SpecId, cat: Catalog)
    requires id in db.specs && m in db.bindings
    ensures var after := Materialise(db, m, id, cat);
            && after.unlocks == db.unlocks
            && RowsOn(after, m) == Rows(m, db.specs[id].owner, db.specs[id].name, cat)
            && forall x :: x != m ==> RowsOn(after, x) == RowsOn(db, x) && WornOn(after, x) == WornOn(db, x)
  {
    hide Rows, Kept;
  }

  /** Same rows, wearers and unlocks: same entitlement. */
  lemma SameEntitled(db: Db, after: Db, m: MapUid)
    requires after.unlocks == db.unlocks && RowsOn(after, m) == RowsOn(db, m) && WornOn(after, m) == WornOn(db, m)
    ensures EntitledOn(after, m) <==> EntitledOn(db, m)
  {
    hide RowsOn, WornOn;
    forall u
      ensures u in WornOn(db, m) ==>
                (Entitled(after, m, u, WornOn(db, m)[u]) <==> Entitled(db, m, u, WornOn(db, m)[u]))
    {
    }
  }

  lemma SameStowaway(db: Db, after: Db, m: MapUid, hats: map<string, Placed<H.Hat>>)
    requires after.unlocks == db.unlocks && WornOn(after, m) == WornOn(db, m)
    ensures Stowaway(after, m, hats) <==> Stowaway(db, m, hats)
  {
    hide WornOn, Fits;
    assert forall u, w :: Unlocked(after, m, u, w) <==> Unlocked(db, m, u, w);
  }

  lemma NobodyEntitled(db: Db, m: MapUid)
    requires WornOn(db, m) == map[]
    ensures EntitledOn(db, m) && forall hats :: !Stowaway(db, m, hats)
  {
    hide WornOn;
  }

  /** An accepted bind writes the tables of its map only. */
  ghost predicate BindsOnly(db: Db, after: Db, m: MapUid) {
    && after.unlocks == db.unlocks && after.specs == db.specs
    && (forall x :: x != m ==>
          && RowsOn(after, x) == RowsOn(db, x) && WornOn(after, x) == WornOn(db, x)
          && (x in after.bindings <==> x in db.bindings) && (x in db.bindings ==> after.bindings[x] == db.bindings[x]))
    && IsVerified(after, m)
  }

  lemma AuthorBindDresses(db: Db, l: Locked, prepared: Option<User>, reporter: User, m: MapUid, id: SpecId)
    requires Holds(db, l, m, id) && CommitLocked(db, l, prepared, reporter, m, id).1.Ok?
    requires CommitLocked(db, l, prepared, reporter, m, id).1.value.materialised
    requires IsVerified(db, m) ==> EntitledOn(db, m)
    ensures var after := CommitLocked(db, l, prepared, reporter, m, id).0;
            && id in db.specs && Parse(db.specs[id].json).Ok?
            && BindsOnly(db, after, m)
            && (EntitledOn(after, m) <==> m in db.bindings || !Stowaway(db, m, RowsFor(db, m, id)))
  {
    B.CommitEffect(db, l, prepared, reporter, m, id);
    BindIsMaterialise(db, l, prepared, reporter, m, id);
    hide CommitLocked, Holds, Parse;
    var between, cat := Rebound(db, reporter, m, id), Parse(db.specs[id].json).value;
    B.ReboundWears(db, reporter, m, id);
    ReboundKeepsRows(db, reporter, m, id);
    hide Rebound, Materialise, Rows, EntitledOn, Stowaway, RowsOn, WornOn, Verified;
    MaterialiseDresses(between, m, id, cat);
    if m !in db.bindings {
      SameStowaway(db, between, m, RowsFor(db, m, id));
    } else if IsVerified(db, m) {
      SameEntitled(db, between, m);
    } else {
      NobodyEntitled(between, m);
    }
  }

  lemma ReboundKeepsRows(db: Db, reporter: User, m: MapUid, id: SpecId)
    ensures Rebound(db, reporter, m, id).unlocks == db.unlocks
    ensures forall x :: RowsOn(Rebound(db, reporter, m, id), x) == RowsOn(db, x)
  {
    hide IsVerified, Purge, Rebind, RowsOn, WornOn;
  }

  lemma RepointedKeepsRows(db: Db, m: MapUid, id: SpecId, moved: bool)
    requires id in db.specs
    ensures Repointed(db, m, id, moved).unlocks == db.unlocks
    ensures forall x :: RowsOn(Repointed(db, m, id, moved), x) == RowsOn(db, x)
  {
    hide Purge, Rebind, RowsOn, WornOn;
  }

  lemma CommentBindDresses(db: Db, l: Locked, m: MapUid, id: SpecId)
    requires Holds(db, l, m, id) && !Synchronised(l, id) && Parse(db.specs[id].json).Ok?
    requires IsVerified(db, m) ==> EntitledOn(db, m)
    ensures EntitledOn(CommitComment(db, l, m, id).0, m) <==>
              IsVerified(db, m) || Moved(l, id) || !Stowaway(db, m, RowsFor(db, m, id))
  {
    CommentWrites(db, l, m, id);
    hide CommitComment, Parse, Holds, Repointed, Materialise, Rows, EntitledOn, Stowaway, RowsOn, WornOn,
         IsVerified, Moved, Synchronised;
    RepointedDresses(db, m, id, Moved(l, id));
    MaterialiseDresses(Repointed(db, m, id, Moved(l, id)), m, id, Parse(db.specs[id].json).value);
  }

  lemma CommentBindsOnly(db: Db, l: Locked, m: MapUid, id: SpecId)
    requires Holds(db, l, m, id) && !Synchronised(l, id) && Parse(db.specs[id].json).Ok?
    ensures BindsOnly(db, CommitComment(db, l, m, id).0, m)
  {
    CommentWrites(db, l, m, id);
    CommentEffect(db, l, m, id);
    hide CommitComment, Parse, Holds, Repointed, Materialise, Rows, RowsOn, WornOn, Verified, Moved, Synchronised;
    var between, cat := Repointed(db, m, id, Moved(l, id)), Parse(db.specs[id].json).value;
    RepointedLeaves(db, m, id, Moved(l, id));
    MaterialiseSplits(between, m, id, cat);
    hide BindsOnly, IsVerified;
    OnlyThere(db, between, CommitComment(db, l, m, id).0, m);
  }

  lemma OnlyThere(db: Db, between: Db, after: Db, m: MapUid)
    requires between.unlocks == db.unlocks && after.unlocks == between.unlocks
    requires forall x :: x != m ==> RowsOn(between, x) == RowsOn(db, x) && WornOn(between, x) == WornOn(db, x)
    requires forall x :: x != m ==> RowsOn(after, x) == RowsOn(between, x) && WornOn(after, x) == WornOn(between, x)
    requires after.specs == db.specs && IsVerified(after, m)
    requires forall x :: x != m ==> (x in after.bindings <==> x in db.bindings)
                                    && (x in db.bindings ==> after.bindings[x] == db.bindings[x])
    ensures BindsOnly(db, after, m)
  {
    hide RowsOn, WornOn, IsVerified;
  }

  lemma RepointedLeaves(db: Db, m: MapUid, id: SpecId, moved: bool)
    requires id in db.specs
    ensures var between := Repointed(db, m, id, moved);
            && between.unlocks == db.unlocks
            && forall x :: x != m ==> RowsOn(between, x) == RowsOn(db, x) && WornOn(between, x) == WornOn(db, x)
  {
    B.RepointedWears(db, m, id, moved);
    RepointedKeepsRows(db, m, id, moved);
    hide Repointed, RowsOn, WornOn;
  }

  /** The upsert and the purge: what is worn is left as it is, or gone. */
  lemma RepointedDresses(db: Db, m: MapUid, id: SpecId, moved: bool)
    requires id in db.specs
    ensures var between := Repointed(db, m, id, moved);
            && between.unlocks == db.unlocks
            && (forall x :: RowsOn(between, x) == RowsOn(db, x))
            && (forall x :: x != m ==> WornOn(between, x) == WornOn(db, x))
            && (EntitledOn(between, m) <==> moved || EntitledOn(db, m))
            && forall hats :: Stowaway(between, m, hats) <==> !moved && Stowaway(db, m, hats)
  {
    B.RepointedWears(db, m, id, moved);
    RepointedKeepsRows(db, m, id, moved);
    hide Repointed, EntitledOn, Stowaway, RowsOn, WornOn;
    var between := Repointed(db, m, id, moved);
    if moved {
      NobodyEntitled(between, m);
    } else {
      SameEntitled(db, between, m);
      forall hats ensures Stowaway(between, m, hats) <==> Stowaway(db, m, hats) {
        SameStowaway(db, between, m, hats);
      }
    }
  }

  lemma CommentEffect(db: Db, l: Locked, m: MapUid, id: SpecId)
    requires Holds(db, l, m, id) && !Synchronised(l, id) && Parse(db.specs[id].json).Ok?
    ensures var after := CommitComment(db, l, m, id).0;
            && after.specs == db.specs && IsVerified(after, m)
            && (forall x :: x != m ==> (x in after.bindings <==> x in db.bindings)
                                       && (x in db.bindings ==> after.bindings[x] == db.bindings[x]))
  {
    B.CommentBindings(db, l, m, id);
    hide CommitComment, Parse, Holds, Synchronised;
  }

  // ---- one transaction ----

  lemma BindDresses(db: Db, after: Db, m: MapUid)
    requires Dressed(db) && BindsOnly(db, after, m)
    ensures Dressed(after) <==> EntitledOn(after, m)
  {
    hide EntitledOn, RowsOn, WornOn;
    if EntitledOn(after, m) {
      forall x | IsVerified(after, x) ensures EntitledOn(after, x) {
        if x != m {
          assert IsVerified(db, x);
          SameEntitled(db, after, x);
        }
      }
    }
  }

  lemma UploadLeavesWearers(db: Db, user: User, name: string, json: Json, hash: nat)
    ensures var after := Upload(db, user, name, json, hash).0;
            after.placed == db.placed && after.equipped == db.equipped && after.unlocks == db.unlocks
  {
    hide Parse, Strip;
    if Parse(Strip(json)).Err? {
      assert Upload(db, user, name, json, hash).0 == db;
    }
  }

  lemma DeleteLeavesWearers(db: Db, user: User, name: string)
    ensures var after := DeleteSpec(db, user, name).0;
            after.placed == db.placed && after.equipped == db.equipped && after.unlocks == db.unlocks
  {
    hide IsBound;
  }

  /** Uploads and deletions touch neither rows on maps, nor wearers, nor unlocks. */
  lemma OthersLeaveWearers(db: Db, e: Event)
    requires !e.BindsAsAuthor? && !e.BindsByComment? && !e.Unlocks? && !e.Equips?
    ensures Next(db, e).placed == db.placed && Next(db, e).equipped == db.equipped && Next(db, e).unlocks == db.unlocks
  {
    hide Upload, DeleteSpec, Without;
    match e
    case Uploads(user, name, json, hash) => UploadLeavesWearers(db, user, name, json, hash);
    case DeletesSpec(user, name) => DeleteLeavesWearers(db, user, name);
    case _ =>
  }

  lemma SameVerified(db: Db, after: Db)
    requires after.bindings == db.bindings && after.specs == db.specs
    ensures forall m :: IsVerified(after, m) <==> IsVerified(db, m)
  {
  }

  lemma MoreUnlocks(db: Db, after: Db, m: MapUid)
    requires EntitledOn(db, m) && after.placed == db.placed && after.equipped == db.equipped
    requires forall k :: k in db.unlocks ==> k in after.unlocks && after.unlocks[k] == db.unlocks[k]
    ensures EntitledOn(after, m)
  {
    SameTables(db, after, m);
    hide RowsOn, WornOn;
    forall u | u in WornOn(after, m) ensures Entitled(after, m, u, WornOn(after, m)[u]) {
      assert Entitled(db, m, u, WornOn(db, m)[u]);
    }
  }

  lemma SameTables(db: Db, after: Db, m: MapUid)
    requires after.placed == db.placed && after.equipped == db.equipped
    ensures RowsOn(after, m) == RowsOn(db, m) && WornOn(after, m) == WornOn(db, m)
  {
  }

  lemma UnlockLeavesTables(db: Db, user: User, m: MapUid, slug: string, id: SpecId, validated: Guard)
    ensures var after := CommitUnlock(db, user, m, slug, id, validated).0;
            after.placed == db.placed && after.equipped == db.equipped
  {
    hide HatRow;
  }

  lemma UnlockAdds(db: Db, user: User, m: MapUid, slug: string, id: SpecId, validated: Guard)
    ensures var after := CommitUnlock(db, user, m, slug, id, validated).0;
            forall k :: k in db.unlocks ==> k in after.unlocks && after.unlocks[k] == db.unlocks[k]
  {
    hide HatRow;
  }

  lemma UnlockDresses(db: Db, user: User, m: MapUid, slug: string, id: SpecId, validated: Guard)
    requires Dressed(db)
    ensures Dressed(CommitUnlock(db, user, m, slug, id, validated).0)
  {
    hide CommitUnlock, EntitledOn, IsVerified;
    var after := CommitUnlock(db, user, m, slug, id, validated).0;
    UnlockLeavesTables(db, user, m, slug, id, validated);
    UnlockAdds(db, user, m, slug, id, validated);
    B.UnlockLeavesBindings(db, user, m, slug, id, validated);
    SameVerified(db, after);
    forall x | IsVerified(after, x) ensures EntitledOn(after, x) {
      MoreUnlocks(db, after, x);
    }
  }

  /** An equip puts a hat on one user, who may wear it, or takes one off. */
  lemma EquipDresses(db: Db, user: User, m: MapUid, slug: string, readId: Option<SpecId>)
    requires Dressed(db)
    ensures Dressed(Equip(db, user, m, slug, readId).0)
  {
    EquipShape(db, user, m, slug, readId);
    var after := Equip(db, user, m, slug, readId).0;
    hide Equip, Materialised, IsVerified, EntitledOn, MayWear;
    SameVerified(db, after);
    forall x | IsVerified(after, x) ensures EntitledOn(after, x) {
      if x == m {
        WearerEntitled(db, after, user, m, slug);
      } else {
        SameEntitled(db, after, x);
      }
    }
  }

  lemma WearerEntitled(db: Db, after: Db, user: User, m: MapUid, slug: string)
    requires EntitledOn(db, m) && after.unlocks == db.unlocks && after.placed == db.placed
    requires WornOn(after, m) == WornOn(db, m) || WornOn(after, m) == WornOn(db, m) - {user}
          || (MayWear(db, user, m, slug) && WornOn(after, m) == WornOn(db, m)[user := Worn(slug, HatKey(m, slug))])
    ensures EntitledOn(after, m)
  {
    hide WornOn;
    assert RowsOn(after, m) == RowsOn(db, m);
    hide RowsOn;
    forall u | u in WornOn(after, m) ensures Entitled(after, m, u, WornOn(after, m)[u]) {
      assert u in WornOn(db, m) ==> Entitled(db, m, u, WornOn(db, m)[u]);
    }
  }

  lemma AuthorStep(db: Db, l: Locked, prepared: Option<User>, reporter: User, m: MapUid, id: SpecId)
    requires Keyed(db) && Dressed(db)
    ensures Dressed(Next(db, BindsAsAuthor(l, prepared, reporter, m, id))) <==>
            !AdoptsStowaway(db, BindsAsAuthor(l, prepared, reporter, m, id))
  {
    hide CommitLocked, Parse, EntitledOn, Stowaway, BindsOnly, Keyed, RowsFor;
    if Holds(db, l, m, id) {
      var (after, r) := CommitLocked(db, l, prepared, reporter, m, id);
      BindAccepted(db, l, prepared, reporter, m, id);
      FreshBindWrites(db, l, prepared, reporter, m, id);
      hide Holds, Verified, Materialised;
      if r.Ok? && r.value.materialised {
        AuthorBindDresses(db, l, prepared, reporter, m, id);
        BindDresses(db, after, m);
      }
    }
  }

  /** A first bind that its author has prepared is never refused but for its catalog. */
  lemma FreshBindWrites(db: Db, l: Locked, prepared: Option<User>, reporter: User, m: MapUid, id: SpecId)
    requires Holds(db, l, m, id)
    ensures Adopts(db, BindsAsAuthor(l, prepared, reporter, m, id)) ==>
              CommitLocked(db, l, prepared, reporter, m, id).1.Ok?
  {
    hide Parse, Materialise;
    if Adopts(db, BindsAsAuthor(l, prepared, reporter, m, id)) {
      WinnerDecidesTheRace(db, l, reporter, m, id);
      hide InsertFirst, PromoteUnverified, Winner;
    }
  }

  lemma CommentStep(db: Db, l: Locked, m: MapUid, id: SpecId)
    requires Dressed(db)
    ensures Dressed(Next(db, BindsByComment(l, m, id))) <==> !AdoptsStowaway(db, BindsByComment(l, m, id))
  {
    hide CommitComment, Parse, EntitledOn, Stowaway, BindsOnly, RowsFor;
    if Holds(db, l, m, id) {
      CommentShape(db, l, m, id);
      MovedMeansElsewhere(db, l, m, id);
      hide Holds, Synchronised, Moved, Verified, Materialised, Materialise, Repointed;
      if !Synchronised(l, id) && Parse(db.specs[id].json).Ok? {
        CommentBindDresses(db, l, m, id);
        CommentBindsOnly(db, l, m, id);
        BindDresses(db, CommitComment(db, l, m, id).0, m);
      }
    }
  }

  lemma MovedMeansElsewhere(db: Db, l: Locked, m: MapUid, id: SpecId)
    requires Holds(db, l, m, id)
    ensures Moved(l, id) ==> m in db.bindings && db.bindings[m].spec != id
    ensures !Moved(l, id) && !IsVerified(db, m) && m in db.bindings ==> db.bindings[m].spec == id
    ensures Synchronised(l, id) ==> IsVerified(db, m)
  {
  }

  /**
   A transaction leaves everybody on every verified map entitled to what they wear, if and
   only if it does not bring a stowaway along: it does not verify a map without taking
   off what is worn there while somebody's hat fits and was never unlocked.
   */
  lemma StaysDressedIff(db: Db, e: Event)
    requires Inv(db) && Dressed(db)
    ensures Dressed(Next(db, e)) <==> !AdoptsStowaway(db, e)
  {
    hide Upload, DeleteSpec, CommitLocked, CommitComment, CommitUnlock, Equip, Without;
    hide Keyed, Stamped, AllCurrent, Dressed;
    match e
    case BindsAsAuthor(l, prepared, reporter, m, id) => AuthorStep(db, l, prepared, reporter, m, id);
    case BindsByComment(l, m, id) => CommentStep(db, l, m, id);
    case Unlocks(user, m, slug, id, validated) => UnlockDresses(db, user, m, slug, id, validated);
    case Equips(user, m, slug, readId) => EquipDresses(db, user, m, slug, readId);
    case _ =>
      B.OthersLeaveBindings(db, e);
      B.StayVerified(db, Next(db, e));
      OthersLeaveWearers(db, e);
      SameDressed(db, Next(db, e));
  }

  lemma SameDressed(db: Db, after: Db)
    requires Dressed(db) && after.placed == db.placed && after.equipped == db.equipped && after.unlocks == db.unlocks
    requires forall m :: IsVerified(after, m) <==> IsVerified(db, m)
    ensures Dressed(after)
  {
    hide EntitledOn, IsVerified;
    forall m | IsVerified(after, m) ensures EntitledOn(after, m) {
      SameEntitled(db, after, m);
    }
  }

  // ---- the three ways aboard ----

  /** Migrated tables: user 7 has a spec with a hat, which user 5 wears on map 1 and never unlocked. */
  function Inherited(bindings: map<MapUid, Binding>): Db {
    Db(map[0 := SpecOf7(HatSpec(), 1)], map[(7, "n") := 0], 1, 1, map[], map[], map[], bindings, map[], map[],
       map[1 := map[5 := Worn("Hat-1", Hat1())]])
  }

  lemma InheritedMigrated(bindings: map<MapUid, Binding>)
    requires bindings == map[] || bindings == map[1 := Binding(0, None, None)]
    ensures Migrated(Inherited(bindings))
  {
    hide HatSpec;
  }

  lemma StowawayThere(db: Db)
    requires 0 in db.specs && db.specs[0] == SpecOf7(HatSpec(), 1) && db.unlocks == map[]
    requires WornOn(db, 1) == map[5 := Worn("Hat-1", Hat1())]
    ensures Parse(db.specs[0].json).Ok? && Stowaway(db, 1, RowsFor(db, 1, 0))
  {
    HatSpecParses();
    hide HatSpec, Parse;
    HatShown(7, "n");
    hide Rows, WornOn;
    assert Fits(RowsFor(db, 1, 0), WornOn(db, 1)[5]) && !Unlocked(db, 1, 5, WornOn(db, 1)[5]);
  }

  lemma InheritedStowaway(bindings: map<MapUid, Binding>)
    requires bindings == map[] || bindings == map[1 := Binding(0, None, None)]
    ensures var db := Inherited(bindings);
            Migrated(db) && Parse(db.specs[0].json).Ok? && Stowaway(db, 1, RowsFor(db, 1, 0))
  {
    hide HatSpec, Parse, Rows, Migrated, Stowaway, RowsFor;
    InheritedMigrated(bindings);
    StowawayThere(Inherited(bindings));
  }

  lemma Aboard(bindings: map<MapUid, Binding>, e: Event)
    requires bindings == map[] || bindings == map[1 := Binding(0, None, None)]
    requires Adopts(Inherited(bindings), e) && e.m == 1 && e.id == 0
    ensures AdoptsStowaway(Inherited(bindings), e) && !Dressed(Next(Inherited(bindings), e))
  {
    var db := Inherited(bindings);
    InheritedStowaway(bindings);
    hide Inherited, Adopts, Next, Stowaway, RowsFor, Dressed, Inv, Migrated;
    MigratedStarts(db);
    StaysDressedIff(db, e);
  }

  /** What a bind of map 1 to that spec has read. */
  function Read(binding: Option<Binding>): Locked {
    Locked(SpecOf7(HatSpec(), 1), binding, false)
  }

  lemma AuthorAboard()
    ensures var db, e := Inherited(map[]), BindsAsAuthor(Read(None), Some(7), 7, 1, 0);
            AdoptsStowaway(db, e) && !Dressed(Next(db, e))
  {
    HatSpecParses();
    hide HatSpec, Parse, Next, AdoptsStowaway, Dressed;
    Aboard(map[], BindsAsAuthor(Read(None), Some(7), 7, 1, 0));
  }

  lemma CommentAboard(bindings: map<MapUid, Binding>)
    requires bindings == map[] || bindings == map[1 := Binding(0, None, None)]
    ensures var binding := if bindings == map[] then None else Some(Binding(0, None, None));
            var db, e := Inherited(bindings), BindsByComment(Read(binding), 1, 0);
            AdoptsStowaway(db, e) && !Dressed(Next(db, e))
  {
    HatSpecParses();
    hide HatSpec, Parse, Next, AdoptsStowaway, Dressed;
    Aboard(bindings, BindsByComment(Read(if bindings == map[] then None else Some(Binding(0, None, None))), 1, 0));
  }

  /**
   Such wearers do come aboard, from tables the migration can leave: when the author of a
   map without a binding is the first to bind it, when the comment of such a map binds it,
   and when the comment verifies a legacy binding that already names its spec.
   */
  lemma StowawaysComeAboard()
    ensures var db, e := Inherited(map[]), BindsAsAuthor(Read(None), Some(7), 7, 1, 0);
            Migrated(db) && AdoptsStowaway(db, e) && !Dressed(Next(db, e))
    ensures var db, e := Inherited(map[]), BindsByComment(Read(None), 1, 0);
            Migrated(db) && AdoptsStowaway(db, e) && !Dressed(Next(db, e))
    ensures var b := Binding(0, None, None);
            var db, e := Inherited(map[1 := b]), BindsByComment(Read(Some(b)), 1, 0);
            Migrated(db) && AdoptsStowaway(db, e) && !Dressed(Next(db, e))
  {
    hide Inherited, Read, Next, AdoptsStowaway, Dressed, Migrated;
    InheritedMigrated(map[]);
    var legacy := map[1 := Binding(0, None, None)];
    assert 1 in legacy;
    InheritedMigrated(legacy);
    AuthorAboard();
    CommentAboard(map[]);
    CommentAboard(legacy);
  }

  // ---- whole runs ----

  /** No transaction of the run brings a stowaway along. */
  ghost predicate NoStowaways(db: Db, events: seq<Event>)
    decreases |events|
  {
    events == [] || (!AdoptsStowaway(db, events[0]) && NoStowaways(Next(db, events[0]), events[1..]))
  }

  /** In every state of the run everybody on a verified map is entitled to what they wear. */
  ghost predicate AlwaysDressed(db: Db, events: seq<Event>)
    decreases |events|
  {
    Dressed(db) && (events == [] || AlwaysDressed(Next(db, events[0]), events[1..]))
  }

  /**
   From the tables as the migration left them, with anybody wearing anything: in every
   state of a run everybody on a verified map is entitled to their hat, if and only if no
   transaction of the run brought a stowaway along.
   */
  lemma {:induction false} DressedIffNoStowaways(db: Db, events: seq<Event>)
    requires Migrated(db)
    ensures AlwaysDressed(db, events) <==> NoStowaways(db, events)
  {
    MigratedStarts(db);
    hide Migrated;
    DressedFrom(db, events);
  }

  lemma {:induction false} DressedFrom(db: Db, events: seq<Event>)
    requires Inv(db) && Dressed(db)
    ensures AlwaysDressed(db, events) <==> NoStowaways(db, events)
    decreases |events|
  {
    hide Next, Inv, Dressed, AdoptsStowaway;
    if events != [] {
      var after := Next(db, events[0]);
      NextKeeps(db, events[0]);
      StaysDressedIff(db, events[0]);
      if Dressed(after) {
        DressedFrom(after, events[1..]);
      } else {
        NotDressed(after, events[1..]);
      }
    }
  }

  lemma {:induction false} NotDressed(db: Db, events: seq<Event>)
    requires !Dressed(db)
    ensures !AlwaysDressed(db, events)
  {
    hide Dressed;
  }

  /**
   So without stowaways, whoever wears a hat on a verified map wears one that is on it and
   that they unlocked there.
   */
  lemma {:induction false} WearersEntitled(db: Db, events: seq<Event>, m: MapUid, u: User)
    requires Migrated(db) && NoStowaways(db, events)
    requires IsVerified(Run(db, events), m) && u in WornOn(Run(db, events), m)
    ensures Entitled(Run(db, events), m, u, WornOn(Run(db, events), m)[u])
  {
    DressedIffNoStowaways(db, events);
    hide Migrated, NoStowaways, Next, WornOn, IsVerified, Entitled;
    LastDressed(db, events);
    assert EntitledOn(Run(db, events), m);
  }

  lemma {:induction false} LastDressed(db: Db, events: seq<Event>)
    requires AlwaysDressed(db, events)
    ensures Dressed(Run(db, events))
    decreases |events|
  {
    hide Next, Dressed;
    if events != [] {
      LastDressed(Next(db, events[0]), events[1..]);
    }
  }
}
