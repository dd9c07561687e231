/**
 What every transaction on the Wayfinder tables keeps, whatever its parameters and in
 whatever order: a materialised map shows its present spec. And when whoever wears a hat
 on a verified map wears one the map has and they unlocked there.
 */
module WayfinderInvariant {
  import opened Common
  import opened JsonText
  import opened CatalogFold
  import opened CatalogSlugs
  import opened Wayfinder
  import M = MinigameCatalog
  import C = CollectibleCatalog
  import H = HatCatalog

  // ---- the invariant ----

  /** Foreign key of the bindings and unique index of the specs. */
  ghost predicate Keyed(db: Db) {
    && (forall m :: m in db.bindings ==> db.bindings[m].spec in db.specs)
    && (forall id :: id in db.specs ==> id < db.nextId)
    && (forall k :: k in db.ids ==> db.ids[k] in db.specs && (db.specs[db.ids[k]].owner, db.specs[db.ids[k]].name) == k)
    && (forall id :: id in db.specs ==>
          (db.specs[id].owner, db.specs[id].name) in db.ids && db.ids[(db.specs[id].owner, db.specs[id].name)] == id)
  }

  /** No row is stamped later than the clock. */
  ghost predicate Stamped(db: Db) {
    && (forall id :: id in db.specs ==> db.specs[id].version <= db.clock)
    && (forall m :: m in db.bindings && db.bindings[m].revision.Some? ==>
        db.bindings[m].revision.value.version <= db.clock)
  }

  /** The map shows exactly this spec. */
  ghost predicate Shows(db: Db, m: MapUid, s: Spec) {
    Parse(s.json).Ok? && RowsOn(db, m) == Rows(m, s.owner, s.name, Parse(s.json).value)
  }

  /** A map stamped with the present version of its spec shows it. */
  ghost predicate Current(db: Db, m: MapUid) {
    m in db.bindings && db.bindings[m].spec in db.specs && db.bindings[m].revision.Some?
    && db.bindings[m].revision.value.version == db.specs[db.bindings[m].spec].version
    ==> Shows(db, m, db.specs[db.bindings[m].spec])
  }

  ghost predicate AllCurrent(db: Db) {
    forall m :: m in db.bindings ==> Current(db, m)
  }

  ghost predicate Inv(db: Db) {
    Keyed(db) && Stamped(db) && AllCurrent(db)
  }

  /** What a user wears is on the map, under its own key, and unlocked by that user. */
  ghost predicate Entitled(db: Db, m: MapUid, u: User, w: Worn) {
    && w.slug in RowsOn(db, m).hats && RowsOn(db, m).hats[w.slug].key == w.key
    && (u, w.key) in db.unlocks && db.unlocks[(u, w.key)] == Place(m, w.slug)
  }

  ghost predicate EntitledOn(db: Db, m: MapUid) {
    forall u :: u in WornOn(db, m) ==> Entitled(db, m, u, WornOn(db, m)[u])
  }

  /** Everybody who wears something on a verified map is entitled to it. */
  ghost predicate Dressed(db: Db) {
    forall m :: IsVerified(db, m) ==> EntitledOn(db, m)
  }

  /**
   Tables as the migration leaves them: no binding is verified or stamped, and what was
   worn is still worn, entitled or not, on bound maps and on maps that lost their binding.
   */
  ghost predicate Migrated(db: Db) {
    && Keyed(db) && Stamped(db)
    && forall m :: m in db.bindings ==> db.bindings[m].author == None && db.bindings[m].revision == None
  }

  lemma MigratedStarts(db: Db)
    requires Migrated(db)
    ensures Inv(db) && Dressed(db)
  {
    hide Shows, EntitledOn;
  }

  // ---- events ----

  datatype Event =
    | Uploads(user: User, name: string, json: Json, hash: nat)
    | DeletesSpec(user: User, name: string)
    | DeletesGames(user: User, name: string)
    | DeletesCollectibles(user: User, name: string)
    | DeletesHats(user: User, name: string)
    | BindsAsAuthor(l: Locked, prepared: Option<User>, reporter: User, m: MapUid, id: SpecId)
    | BindsByComment(l: Locked, m: MapUid, id: SpecId)
    | Unlocks(user: User, m: MapUid, slug: string, id: SpecId, validated: Guard)
    | Equips(user: User, m: MapUid, slug: string, readId: Option<SpecId>)

  /** A bind writes only while what it has read holds. */
  function Next(db: Db, e: Event): Db {
    match e
    case Uploads(user, name, json, hash) => Upload(db, user, name, json, hash).0
    case DeletesSpec(user, name) => DeleteSpec(db, user, name).0
    case DeletesGames(user, name) => DeleteGames(db, user, name)
    case DeletesCollectibles(user, name) => DeleteCollectibles(db, user, name)
    case DeletesHats(user, name) => DeleteHats(db, user, name)
    case BindsAsAuthor(l, prepared, reporter, m, id) =>
      if Holds(db, l, m, id) then CommitLocked(db, l, prepared, reporter, m, id).0 else db
    case BindsByComment(l, m, id) =>
      if Holds(db, l, m, id) then CommitComment(db, l, m, id).0 else db
    case Unlocks(user, m, slug, id, validated) => CommitUnlock(db, user, m, slug, id, validated).0
    case Equips(user, m, slug, readId) => Equip(db, user, m, slug, readId).0
  }

  function Run(db: Db, events: seq<Event>): Db
    decreases |events|
  {
    if events == [] then db else Run(Next(db, events[0]), events[1..])
  }

  // ---- uploads and deletions ----

  lemma UploadKeysStamps(db: Db, user: User, name: string, json: Json, hash: nat)
    requires Keyed(db) && Stamped(db) && Parse(Strip(json)).Ok?
    ensures Keyed(Upload(db, user, name, json, hash).0) && Stamped(Upload(db, user, name, json, hash).0)
  {
    hide Parse, Strip;
  }

  lemma UploadShows(db: Db, user: User, name: string, json: Json, hash: nat, m: MapUid)
    requires Keyed(db) && Stamped(db) && Parse(Strip(json)).Ok? && m in db.bindings && Current(db, m)
    ensures Current(Upload(db, user, name, json, hash).0, m)
  {
    hide Parse, Strip, Shows;
    SameShow(db, Upload(db, user, name, json, hash).0, m);
  }

  lemma UploadKeeps(db: Db, user: User, name: string, json: Json, hash: nat)
    requires Inv(db)
    ensures Inv(Upload(db, user, name, json, hash).0)
  {
    hide Parse, Strip, Current, Keyed, Stamped;
    var after := Upload(db, user, name, json, hash).0;
    if Parse(Strip(json)).Ok? {
      UploadKeysStamps(db, user, name, json, hash);
      assert after.bindings == db.bindings;
      forall m | m in after.bindings ensures Current(after, m) {
        UploadShows(db, user, name, json, hash, m);
      }
    } else {
      assert after == db;
    }
  }

  /** A map's show depends on its own rows only. */
  lemma SameShow(db: Db, after: Db, m: MapUid)
    requires RowsOn(after, m) == RowsOn(db, m)
    ensures forall s :: Shows(after, m, s) <==> Shows(db, m, s)
  {
    hide Parse, Rows;
  }

  lemma DeleteSpecKeeps(db: Db, user: User, name: string)
    requires Inv(db)
    ensures Inv(DeleteSpec(db, user, name).0)
  {
    hide Shows;
    var after := DeleteSpec(db, user, name).0;
    if after != db {
      var gone := db.ids[(user, name)];
      forall m | m in after.bindings ensures after.bindings[m].spec in after.specs && Current(after, m) {
        assert db.bindings[m].spec != gone;
        assert Current(db, m);
        SameShow(db, after, m);
      }
      forall k | k in after.ids ensures after.ids[k] in after.specs {
        assert (db.specs[db.ids[k]].owner, db.specs[db.ids[k]].name) == k;
      }
    }
  }

  /** Catalog tables are rewritten before they are copied anywhere, so losing their rows harms nothing. */
  lemma CatalogRowsDoNotMatter(db: Db, games: map<SpecId, Stored<M.Game>>,
                               collectibles: map<SpecId, Stored<C.Collectible>>,
                               hats: map<SpecId, Stored<H.Hat>>)
    requires Inv(db)
    ensures Inv(db.(games := games, collectibles := collectibles, hats := hats))
  {
    hide Shows;
    var after := db.(games := games, collectibles := collectibles, hats := hats);
    forall m | m in after.bindings ensures Current(after, m) {
      assert Current(db, m);
      SameShow(db, after, m);
    }
  }

  // ---- binds ----

  /**
   What the three statements behind a bind's decision come to. Of the refusals after them
   one alone can happen: somebody else has bound the map to another spec meanwhile.
   */
  lemma WinnerDecidesTheRace(db: Db, l: Locked, reporter: User, m: MapUid, id: SpecId)
    requires Holds(db, l, m, id) && (l.verified || l.spec.owner == reporter)
    ensures var db1 := PromoteUnverified(InsertFirst(db, reporter, m, id), reporter, m, id);
            && db1 == (if IsVerified(db, m) then db else Rebind(db, m, Binding(id, Some(reporter), None)))
            && Winner(db1, m, id) == (if IsVerified(db, m) && db.bindings[m].spec != id
                                      then Some(ConflictingBinding) else None)
  {
  }

  /** The tables between rebinding and materialising. */
  function Rebound(db: Db, reporter: User, m: MapUid, id: SpecId): (r: Db)
    ensures m in r.bindings && r.specs == db.specs
    ensures r.bindings == if IsVerified(db, m) then db.bindings else db.bindings[m := Binding(id, Some(reporter), None)]
  {
    if IsVerified(db, m) then db
    else
      var db1 := Rebind(db, m, Binding(id, Some(reporter), None));
      if m in db.bindings then Purge(db1, m) else db1
  }

  /** A bind that succeeds finds the map verified for its spec, or is its author's own. */
  lemma BindAccepted(db: Db, l: Locked, prepared: Option<User>, reporter: User, m: MapUid, id: SpecId)
    requires Holds(db, l, m, id)
    ensures var (after, r) := CommitLocked(db, l, prepared, reporter, m, id);
            && (r.Err? || !r.value.materialised ==> after == db)
            && (r.Ok? && IsVerified(db, m) ==> db.bindings[m].spec == id)
            && (r.Ok? && !IsVerified(db, m) ==>
                  r.value.materialised && reporter == db.specs[id].owner && prepared == Some(reporter))
            && (r.Ok? && !r.value.materialised ==> r.value == Bind(id, {}, false, false) && Materialised(db, m, id))
  {
    hide Parse, Materialise;
    if l.verified || l.spec.owner == reporter {
      WinnerDecidesTheRace(db, l, reporter, m, id);
      hide InsertFirst, PromoteUnverified, Winner;
    }
  }

  /** A bind that writes materialises the catalog of its spec on the rebound tables. */
  lemma BindIsMaterialise(db: Db, l: Locked, prepared: Option<User>, reporter: User, m: MapUid, id: SpecId)
    requires Holds(db, l, m, id)
    requires CommitLocked(db, l, prepared, reporter, m, id).1.Ok?
    requires CommitLocked(db, l, prepared, reporter, m, id).1.value.materialised
    ensures id in db.specs && Parse(db.specs[id].json).Ok?
    ensures var (after, r) := CommitLocked(db, l, prepared, reporter, m, id);
            var db2 := Rebound(db, reporter, m, id);
            && db2.bindings[m].spec == id
            && after == Materialise(db2, m, id, Parse(db.specs[id].json).value)
            && r.value.spec == id
            && r.value.replaced == (m in db.bindings && !IsVerified(db, m))
            && r.value.removed == (if r.value.replaced then WornOn(db, m).Keys else {})
                                  + (WornOn(db2, m).Keys - WornOn(after, m).Keys)
  {
    hide Parse, Materialise;
    WinnerDecidesTheRace(db, l, reporter, m, id);
    hide InsertFirst, PromoteUnverified, Winner, WornOn;
  }

  /** Rebinding a map to a spec changes nothing anyone can see until it is materialised. */
  lemma RebindKeeps(db: Db, m: MapUid, b: Binding)
    requires Inv(db) && b.spec in db.specs && b.revision == None
    ensures Inv(Rebind(db, m, b))
  {
    hide Shows;
    var after := Rebind(db, m, b);
    forall x | x in after.bindings ensures Current(after, x) {
      if x != m {
        assert Current(db, x);
        SameShow(db, after, x);
      }
    }
  }

  lemma PurgeKeeps(db: Db, m: MapUid)
    requires Inv(db)
    ensures Inv(Purge(db, m))
  {
    hide Shows;
    var after := Purge(db, m);
    forall x | x in after.bindings ensures Current(after, x) {
      assert Current(db, x);
      SameShow(db, after, x);
    }
  }

  lemma MaterialiseShows(db: Db, m: MapUid, id: SpecId, cat: Catalog)
    requires id in db.specs && m in db.bindings && Parse(db.specs[id].json) == Ok(cat)
    ensures Shows(Materialise(db, m, id, cat), m, db.specs[id])
    ensures forall x :: x != m ==> RowsOn(Materialise(db, m, id, cat), x) == RowsOn(db, x)
  {
    hide Parse, Rows, Kept, ReplaceCatalogs;
    assert Materialise(db, m, id, cat).placed == db.placed[m := Rows(m, db.specs[id].owner, db.specs[id].name, cat)];
  }

  lemma MaterialiseKeeps(db: Db, m: MapUid, id: SpecId, cat: Catalog)
    requires Inv(db) && id in db.specs && m in db.bindings && db.bindings[m].spec == id
          && Parse(db.specs[id].json) == Ok(cat)
    ensures Inv(Materialise(db, m, id, cat))
  {
    hide Parse, Shows, Rows;
    var after := Materialise(db, m, id, cat);
    MaterialiseShows(db, m, id, cat);
    assert after.specs == db.specs && after.ids == db.ids && after.nextId == db.nextId && after.clock == db.clock;
    assert after.bindings == db.bindings[m := db.bindings[m].(revision := Some(RevisionOf(db.specs[id])))];
    forall x | x in after.bindings ensures Current(after, x) {
      if x != m {
        assert Current(db, x);
        SameShow(db, after, x);
      }
    }
  }

  lemma ReboundKeeps(db: Db, reporter: User, m: MapUid, id: SpecId)
    requires Inv(db) && id in db.specs
    ensures Inv(Rebound(db, reporter, m, id))
  {
    hide Inv, Verified;
    var b := Binding(id, Some(reporter), None);
    if !IsVerified(db, m) {
      RebindKeeps(db, m, b);
      PurgeKeeps(Rebind(db, m, b), m);
    }
  }

  lemma CommitLockedKeeps(db: Db, l: Locked, prepared: Option<User>, reporter: User, m: MapUid, id: SpecId)
    requires Inv(db) && Holds(db, l, m, id)
    ensures Inv(CommitLocked(db, l, prepared, reporter, m, id).0)
  {
    hide CommitLocked, Rebound, Parse, Materialise, Inv, Holds;
    BindAccepted(db, l, prepared, reporter, m, id);
    var r := CommitLocked(db, l, prepared, reporter, m, id).1;
    if r.Ok? && r.value.materialised {
      BindIsMaterialise(db, l, prepared, reporter, m, id);
      ReboundKeeps(db, reporter, m, id);
      MaterialiseKeeps(Rebound(db, reporter, m, id), m, id, Parse(db.specs[id].json).value);
    }
  }

  /** What a comment bind writes and reports. */
  lemma CommentShape(db: Db, l: Locked, m: MapUid, id: SpecId)
    requires Holds(db, l, m, id)
    ensures Synchronised(l, id) ==>
              Materialised(db, m, id) && CommitComment(db, l, m, id) == (db, Ok(Bind(id, {}, false, false)))
    ensures !Synchronised(l, id) && Parse(db.specs[id].json).Err? ==>
              CommitComment(db, l, m, id) == (db, Err(Invalid(Parse(db.specs[id].json).error)))
    ensures !Synchronised(l, id) && Parse(db.specs[id].json).Ok? ==>
              CommitComment(db, l, m, id) ==
              (Materialise(Repointed(db, m, id, Moved(l, id)), m, id, Parse(db.specs[id].json).value),
               Ok(Bind(id, if Moved(l, id) then WornOn(db, m).Keys else {}, true, Moved(l, id))))
  {
    hide Parse, Materialise, Repointed, WornOn;
  }

  lemma CommentWrites(db: Db, l: Locked, m: MapUid, id: SpecId)
    requires Holds(db, l, m, id) && !Synchronised(l, id) && Parse(db.specs[id].json).Ok?
    ensures CommitComment(db, l, m, id).0 ==
            Materialise(Repointed(db, m, id, Moved(l, id)), m, id, Parse(db.specs[id].json).value)
  {
    hide Parse, Materialise, Repointed, WornOn, Synchronised, Moved, Verified;
  }

  lemma CommentStands(db: Db, l: Locked, m: MapUid, id: SpecId)
    requires Holds(db, l, m, id)
    ensures Synchronised(l, id) || Parse(db.specs[id].json).Err? ==> CommitComment(db, l, m, id).0 == db
    ensures Synchronised(l, id) ==> Materialised(db, m, id)
  {
    hide Parse, Materialise, Repointed, WornOn;
  }

  lemma CommitCommentKeeps(db: Db, l: Locked, m: MapUid, id: SpecId)
    requires Inv(db) && Holds(db, l, m, id)
    ensures Inv(CommitComment(db, l, m, id).0)
  {
    CommentShape(db, l, m, id);
    hide Parse, Materialise, Inv, CommitComment, Synchronised, Holds;
    if CommitComment(db, l, m, id).0 != db {
      var b := Binding(id, Some(db.specs[id].owner), None);
      RebindKeeps(db, m, b);
      PurgeKeeps(Rebind(db, m, b), m);
      MaterialiseKeeps(Repointed(db, m, id, Moved(l, id)), m, id, Parse(db.specs[id].json).value);
    }
  }

  // ---- hats ----

  lemma CommitUnlockKeeps(db: Db, user: User, m: MapUid, slug: string, id: SpecId, validated: Guard)
    requires Inv(db)
    ensures Inv(CommitUnlock(db, user, m, slug, id, validated).0)
  {
    hide Shows, HatRow;
    var after := CommitUnlock(db, user, m, slug, id, validated).0;
    if after != db {
      forall x | x in after.bindings ensures Current(after, x) {
        assert Current(db, x);
        SameShow(db, after, x);
      }
    }
  }

  lemma EquipmentKeeps(db: Db, m: MapUid, worn: map<User, Worn>)
    requires Inv(db)
    ensures Inv(db.(equipped := db.equipped[m := worn]))
  {
    hide Shows;
    var after := db.(equipped := db.equipped[m := worn]);
    forall x | x in after.bindings ensures Current(after, x) {
      assert Current(db, x);
      SameShow(db, after, x);
    }
  }

  /** What an equip report writes, if anything. */
  lemma EquipShape(db: Db, user: User, m: MapUid, slug: string, readId: Option<SpecId>)
    ensures var after := Equip(db, user, m, slug, readId).0;
            || after == db
            || (slug == "" && after == db.(equipped := db.equipped[m := WornOn(db, m) - {user}]))
            || (slug != "" && MayWear(db, user, m, slug) && readId.Some? && Materialised(db, m, readId.value)
                && after == db.(equipped := db.equipped[m := WornOn(db, m)[user := Worn(slug, HatKey(m, slug))]]))
  {
    hide Materialised, MayWear, WornOn;
  }

  lemma EquipKeeps(db: Db, user: User, m: MapUid, slug: string, readId: Option<SpecId>)
    requires Inv(db)
    ensures Inv(Equip(db, user, m, slug, readId).0)
  {
    EquipShape(db, user, m, slug, readId);
    hide Equip, Inv, Materialised, MayWear;
    EquipmentKeeps(db, m, WornOn(db, m) - {user});
    EquipmentKeeps(db, m, WornOn(db, m)[user := Worn(slug, HatKey(m, slug))]);
  }

  lemma NextKeeps(db: Db, e: Event)
    requires Inv(db)
    ensures Inv(Next(db, e))
  {
    hide Inv, Holds, Upload, DeleteSpec, CommitLocked, CommitComment, CommitUnlock, Equip, Without;
    match e
    case Uploads(user, name, json, hash) => UploadKeeps(db, user, name, json, hash);
    case DeletesSpec(user, name) => DeleteSpecKeeps(db, user, name);
    case DeletesGames(user, name) =>
      CatalogRowsDoNotMatter(db, Without(db.games, user, name), db.collectibles, db.hats);
    case DeletesCollectibles(user, name) =>
      CatalogRowsDoNotMatter(db, db.games, Without(db.collectibles, user, name), db.hats);
    case DeletesHats(user, name) =>
      CatalogRowsDoNotMatter(db, db.games, db.collectibles, Without(db.hats, user, name));
    case BindsAsAuthor(l, prepared, reporter, m, id) =>
      if Holds(db, l, m, id) {
        CommitLockedKeeps(db, l, prepared, reporter, m, id);
      }
    case BindsByComment(l, m, id) =>
      if Holds(db, l, m, id) {
        CommitCommentKeeps(db, l, m, id);
      }
    case Unlocks(user, m, slug, id, validated) => CommitUnlockKeeps(db, user, m, slug, id, validated);
    case Equips(user, m, slug, readId) => EquipKeeps(db, user, m, slug, readId);
  }

  lemma {:induction false} RunKeeps(db: Db, events: seq<Event>)
    requires Inv(db)
    ensures Inv(Run(db, events))
    decreases |events|
  {
    hide Inv, Next;
    if events != [] {
      NextKeeps(db, events[0]);
      RunKeeps(Next(db, events[0]), events[1..]);
    }
  }

  // ---- what a map shows ----

  /** Exactly the first `k` parsed rows, each once, with the key of its kind, map and slug. */
  ghost predicate Exactly<T>(table: map<string, Placed<T>>, kind: Kind, m: MapUid, stored: Stored<T>,
                             slugOf: T -> string, k: nat)
    requires k <= |stored.rows|
  {
    && |table| == k
    && (forall i :: 0 <= i < k ==>
          var row := stored.rows[i];
          && slugOf(row) in table
          && table[slugOf(row)] == Placed(Key(kind, m, slugOf(row)), row, stored.owner, stored.name))
    && (forall slug :: slug in table ==> SlugBefore(slugOf, stored.rows, k, slug))
  }

  lemma TableStep<T>(before: map<string, Placed<T>>, kind: Kind, m: MapUid, stored: Stored<T>,
                     slugOf: T -> string, k: nat)
    requires DistinctSlugs(slugOf, stored.rows) && k < |stored.rows| && Exactly(before, kind, m, stored, slugOf, k)
    ensures var row := stored.rows[k];
            Exactly(before[slugOf(row) := Placed(Key(kind, m, slugOf(row)), row, stored.owner, stored.name)],
                    kind, m, stored, slugOf, k + 1)
  {
    SlugBeforeLater(slugOf, stored.rows, k);
    NextIsNew(slugOf, stored.rows, k);
    hide SlugBefore;
    assert slugOf(stored.rows[k]) !in before;
  }

  lemma {:induction false} TableExact<T>(kind: Kind, m: MapUid, stored: Stored<T>, slugOf: T -> string, k: nat)
    requires DistinctSlugs(slugOf, stored.rows) && k <= |stored.rows|
    ensures Exactly(TableOf(kind, m, stored, slugOf, k), kind, m, stored, slugOf, k)
  {
    hide DistinctSlugs, SlugBefore;
    if k > 0 {
      TableExact(kind, m, stored, slugOf, k - 1);
      hide Exactly;
      TableStep(TableOf(kind, m, stored, slugOf, k - 1), kind, m, stored, slugOf, k - 1);
    }
  }

  /** The rows on a map are exactly the three parsed catalogs of a spec. */
  ghost predicate ShowsExactly(db: Db, m: MapUid, s: Spec) {
    && Parse(s.json).Ok?
    && var cat := Parse(s.json).value;
       && Exactly(RowsOn(db, m).games, OfGame, m, Stored(s.owner, s.name, cat.games), M.GameSlug, |cat.games|)
       && Exactly(RowsOn(db, m).collectibles, OfCollectible, m, Stored(s.owner, s.name, cat.collectibles),
                  C.CollectibleSlug, |cat.collectibles|)
       && Exactly(RowsOn(db, m).hats, OfHat, m, Stored(s.owner, s.name, cat.hats), H.HatSlug, |cat.hats|)
  }

  lemma ParsedSlugsDistinct(json: Json)
    requires Parse(json).Ok?
    ensures DistinctSlugs(M.GameSlug, Parse(json).value.games)
    ensures DistinctSlugs(C.CollectibleSlug, Parse(json).value.collectibles)
    ensures DistinctSlugs(H.HatSlug, Parse(json).value.hats)
  {
    hide M.Games, C.Collectibles, H.Hats;
    M.ParsedRows(json);
    C.ParsedRows(json);
    H.ParsedRows(json);
  }

  lemma ShownExactly(db: Db, m: MapUid, s: Spec)
    requires Shows(db, m, s)
    ensures ShowsExactly(db, m, s)
  {
    hide Parse, DistinctSlugs, Exactly;
    ParsedSlugsDistinct(s.json);
    var cat := Parse(s.json).value;
    TableExact(OfGame, m, Stored(s.owner, s.name, cat.games), M.GameSlug, |cat.games|);
    TableExact(OfCollectible, m, Stored(s.owner, s.name, cat.collectibles), C.CollectibleSlug, |cat.collectibles|);
    TableExact(OfHat, m, Stored(s.owner, s.name, cat.hats), H.HatSlug, |cat.hats|);
  }

  /**
   In every state the transactions can reach, a map whose binding is verified and holds
   its spec's present revision shows exactly that spec's parsed catalogs.
   */
  lemma {:induction false} MaterialisedShowsPresentSpec(db: Db, events: seq<Event>, m: MapUid, id: SpecId)
    requires Inv(db) && Materialised(Run(db, events), m, id)
    ensures ShowsExactly(Run(db, events), m, Run(db, events).specs[id])
  {
    RunKeeps(db, events);
    var now := Run(db, events);
    assert Current(now, m);
    ShownExactly(now, m, now.specs[id]);
  }

  /** So a hat report that passes the lock names a hat of the present spec, and gets that hat's predicates. */
  lemma LockedHatIsPresent(db: Db, events: seq<Event>, m: MapUid, id: SpecId, slug: string) returns (i: nat)
    requires Inv(db) && HatRow(Run(db, events), m, id, slug).Some?
    ensures var s := Run(db, events).specs[id];
            && Parse(s.json).Ok? && i < |Parse(s.json).value.hats|
            && var h := Parse(s.json).value.hats[i];
               h.slug == slug && HatRow(Run(db, events), m, id, slug) == Some(Guard(HatKey(m, slug), h.finish, h.uids))
  {
    MaterialisedShowsPresentSpec(db, events, m, id);
    var now := Run(db, events);
    hide Run, Inv, Parse, Materialised;
    var hats := Parse(now.specs[id].json).value.hats;
    assert SlugBefore(H.HatSlug, hats, |hats|, slug);
    i :| 0 <= i < |hats| && H.HatSlug(hats[i]) == slug;
  }

  /** The place of a slug among the rows of a spec, and the row on the map it has become. */
  lemma RowOfSlug<T>(table: map<string, Placed<T>>, kind: Kind, m: MapUid, stored: Stored<T>,
                     slugOf: T -> string, slug: string)
    returns (i: nat)
    requires Exactly(table, kind, m, stored, slugOf, |stored.rows|) && slug in table
    ensures i < |stored.rows| && slugOf(stored.rows[i]) == slug
    ensures table[slug] == Placed(Key(kind, m, slug), stored.rows[i], stored.owner, stored.name)
  {
    assert SlugBefore(slugOf, stored.rows, |stored.rows|, slug);
    i :| 0 <= i < |stored.rows| && slugOf(stored.rows[i]) == slug;
  }

  /**
   A minigame report that passes the lock and finds its row gets a game of the present
   spec, with that game's kind, under the key of its map and slug; and every game of the
   present spec is found.
   */
  lemma LockedGameIsPresent(db: Db, events: seq<Event>, m: MapUid, id: SpecId, slug: string) returns (i: nat)
    requires Inv(db) && Materialised(Run(db, events), m, id)
    ensures var now := Run(db, events);
            && Parse(now.specs[id].json).Ok?
            && var games := Parse(now.specs[id].json).value.games;
               && (forall j :: 0 <= j < |games| ==> games[j].slug in RowsOn(now, m).games)
               && (slug in RowsOn(now, m).games ==>
                     && i < |games| && games[i].slug == slug
                     && RowsOn(now, m).games[slug]
                        == Placed(Key(OfGame, m, slug), games[i], now.specs[id].owner, now.specs[id].name))
  {
    MaterialisedShowsPresentSpec(db, events, m, id);
    var now := Run(db, events);
    hide Run, Inv, Parse, Materialised;
    var s := now.specs[id];
    var games := Parse(s.json).value.games;
    assert forall j :: 0 <= j < |games| ==> M.GameSlug(games[j]) in RowsOn(now, m).games;
    hide Exactly;
    i := 0;
    if slug in RowsOn(now, m).games {
      i := RowOfSlug(RowsOn(now, m).games, OfGame, m, Stored(s.owner, s.name, games), M.GameSlug, slug);
    }
  }

  /** The same of a collectible report. */
  lemma LockedCollectibleIsPresent(db: Db, events: seq<Event>, m: MapUid, id: SpecId, slug: string) returns (i: nat)
    requires Inv(db) && Materialised(Run(db, events), m, id)
    ensures var now := Run(db, events);
            && Parse(now.specs[id].json).Ok?
            && var items := Parse(now.specs[id].json).value.collectibles;
               && (forall j :: 0 <= j < |items| ==> items[j].slug in RowsOn(now, m).collectibles)
               && (slug in RowsOn(now, m).collectibles ==>
                     && i < |items| && items[i].slug == slug
                     && RowsOn(now, m).collectibles[slug]
                        == Placed(Key(OfCollectible, m, slug), items[i], now.specs[id].owner, now.specs[id].name))
  {
    MaterialisedShowsPresentSpec(db, events, m, id);
    var now := Run(db, events);
    hide Run, Inv, Parse, Materialised;
    var s := now.specs[id];
    var items := Parse(s.json).value.collectibles;
    assert forall j :: 0 <= j < |items| ==> C.CollectibleSlug(items[j]) in RowsOn(now, m).collectibles;
    hide Exactly;
    i := 0;
    if slug in RowsOn(now, m).collectibles {
      i := RowOfSlug(RowsOn(now, m).collectibles, OfCollectible, m, Stored(s.owner, s.name, items),
                     C.CollectibleSlug, slug);
    }
  }
}
