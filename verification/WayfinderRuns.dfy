/**
 Runs from empty tables: what uploads and binds leave behind, and a run after which user 5
 wears a hat on map 1.
 */
module WayfinderRuns {
  import opened Common
  import opened CatalogFold
  import opened JsonText
  import opened Wayfinder
  import opened WayfinderInvariant
  import B = WayfinderBinding
  import H = HatCatalog
  import M = MinigameCatalog
  import C = CollectibleCatalog

  function EmptyDb(): Db {
    Db(map[], map[], 0, 0, map[], map[], map[], map[], map[], map[], map[])
  }

  lemma {:induction false} RunSplit(db: Db, a: seq<Event>, b: seq<Event>)
    ensures Run(db, a + b) == Run(Run(db, a), b)
    decreases |a|
  {
    hide Next;
    if a == [] {
      assert a + b == b;
    } else {
      assert (a + b)[1..] == a[1..] + b && (a + b)[0] == a[0];
      RunSplit(Next(db, a[0]), a[1..], b);
    }
  }

  lemma {:induction false} RunOne(db: Db, e: Event)
    ensures Run(db, [e]) == Next(db, e)
  {
    hide Next;
    assert [e][1..] == [];
  }

  lemma {:induction false} RunMore(db: Db, a: seq<Event>, e: Event)
    ensures Run(db, a + [e]) == Next(Run(db, a), e)
  {
    hide Next, Run;
    RunSplit(db, a, [e]);
    RunOne(Run(db, a), e);
  }

  lemma UploadFields(db: Db, user: User, name: string, json: Json, hash: nat)
    requires Parse(Strip(json)).Ok?
    ensures var after := Next(db, Uploads(user, name, json, hash));
            var id := if (user, name) in db.ids then db.ids[(user, name)] else db.nextId;
            && after.specs == db.specs[id := Spec(user, name, Strip(json), db.clock + 1, hash)]
            && after.ids == db.ids[(user, name) := id] && after.clock == db.clock + 1
            && after.nextId == (if (user, name) in db.ids then db.nextId else db.nextId + 1)
            && after.bindings == db.bindings && after.unlocks == db.unlocks
            && after.placed == db.placed && after.equipped == db.equipped
  {
    hide Parse, Strip;
  }

  /** Specs, names, clock and unlocks are untouched. */
  ghost predicate SameSpecs(db: Db, after: Db) {
    && after.specs == db.specs && after.ids == db.ids && after.nextId == db.nextId && after.clock == db.clock
    && after.unlocks == db.unlocks
  }

  lemma MaterialiseLeaves(db: Db, m: MapUid, id: SpecId, cat: Catalog)
    requires id in db.specs && m in db.bindings
    ensures SameSpecs(db, Materialise(db, m, id, cat))
  {
    hide Rows, Kept;
  }

  lemma ReboundLeaves(db: Db, reporter: User, m: MapUid, id: SpecId)
    ensures SameSpecs(db, Rebound(db, reporter, m, id))
  {
    hide IsVerified;
  }

  lemma BindWrites(db: Db, l: Locked, m: MapUid, id: SpecId)
    requires id in db.specs && Parse(db.specs[id].json).Ok? && l == LockRows(db, m, id)
    requires m !in db.bindings
          || (IsVerified(db, m) && db.bindings[m].spec == id
              && db.bindings[m].revision != Some(RevisionOf(db.specs[id])))
    ensures Holds(db, l, m, id)
    ensures var (after, r) := CommitLocked(db, l, Some(db.specs[id].owner), db.specs[id].owner, m, id);
            r.Ok? && r.value.materialised
  {
    WinnerDecidesTheRace(db, l, db.specs[id].owner, m, id);
    hide Parse, Materialise, InsertFirst, PromoteUnverified, Winner;
  }

  /** A bind by the author, first or after a new upload, binds the map to the spec and shows it. */
  lemma OwnBind(db: Db, l: Locked, m: MapUid, id: SpecId)
    requires id in db.specs && Parse(db.specs[id].json).Ok? && l == LockRows(db, m, id)
    requires m !in db.bindings
          || (IsVerified(db, m) && db.bindings[m].spec == id
              && db.bindings[m].revision != Some(RevisionOf(db.specs[id])))
    ensures var s := db.specs[id];
            var after := Next(db, BindsAsAuthor(l, Some(s.owner), s.owner, m, id));
            && SameSpecs(db, after) && Materialised(after, m, id)
            && after.bindings == db.bindings[m := Binding(id, Some(s.owner), Some(RevisionOf(s)))]
            && Shows(after, m, s)
  {
    var s := db.specs[id];
    BindWrites(db, l, m, id);
    VerifiedOwner(db, m, id);
    hide CommitLocked, Parse, Materialise, Holds, LockRows, SameSpecs, Shows, Rebound, Materialised, IsVerified;
    B.BindMaterialises(db, l, Some(s.owner), s.owner, m, id);
    B.BindShape(db, l, Some(s.owner), s.owner, m, id);
    BindIsMaterialise(db, l, Some(s.owner), s.owner, m, id);
    var between := Rebound(db, s.owner, m, id);
    MaterialiseShows(between, m, id, Parse(s.json).value);
    ReboundLeaves(db, s.owner, m, id);
    MaterialiseLeaves(between, m, id, Parse(s.json).value);
    SameSpecsTwice(db, between, Materialise(between, m, id, Parse(s.json).value));
  }

  lemma VerifiedOwner(db: Db, m: MapUid, id: SpecId)
    requires id in db.specs
    ensures IsVerified(db, m) && db.bindings[m].spec == id ==> db.bindings[m].author == Some(db.specs[id].owner)
  {
  }

  lemma SameSpecsTwice(db: Db, between: Db, after: Db)
    requires SameSpecs(db, between) && SameSpecs(between, after)
    ensures SameSpecs(db, after)
  {
  }

  lemma {:induction false} TableOfOne<T>(kind: Kind, m: MapUid, stored: Stored<T>, slugOf: T -> string)
    requires |stored.rows| == 1
    ensures var slug := slugOf(stored.rows[0]);
            TableOf(kind, m, stored, slugOf, 1)
            == map[slug := Placed(Key(kind, m, slug), stored.rows[0], stored.owner, stored.name)]
  {
    assert TableOf(kind, m, stored, slugOf, 0) == map[];
  }

  // ---- a hat ----

  lemma NothingInNull()
    ensures Strip(Null) == Null && Parse(Null) == Ok(Catalog([], [], []))
  {
  }

  function OneHat(): H.Hat {
    H.Hat("Hat-1", "Hat-1", true, [])
  }

  /** A spec with one hat, guarded by a finish. */
  function HatSpec(): Json {
    H.SpecOf(WrittenOut(H.Explicit, [OneHat()]))
  }

  lemma OnlyHats(items: seq<Json>)
    ensures Strip(H.SpecOf(items)) == H.SpecOf(items)
    ensures M.Games(H.SpecOf(items)) == Ok([]) && C.Collectibles(H.SpecOf(items)) == Ok([])
  {
    var json := H.SpecOf(items);
    assert json.fields.Keys == {"hats"};
    assert json.fields - {"specId", "spec_id"} == json.fields;
    assert Get(json, "minigames") == None && Get(json, "collectibles") == None && Get(json, "collectables") == None;
  }

  lemma HatSpecParses()
    ensures Strip(HatSpec()) == HatSpec() && Parse(HatSpec()) == Ok(Catalog([], [], [OneHat()]))
  {
    assert H.Rows([OneHat()]);
    hide H.Explicit, H.Hats, H.Rows, M.Games, C.Collectibles, H.SpecOf, WrittenOut, Strip;
    H.WrittenOutReads([OneHat()]);
    OnlyHats(WrittenOut(H.Explicit, [OneHat()]));
  }

  function Hat1(): Key {
    HatKey(1, "Hat-1")
  }

  lemma HatShown(owner: User, name: string)
    ensures Rows(1, owner, name, Catalog([], [], [OneHat()])).hats ==
          map["Hat-1" := Placed(Hat1(), OneHat(), owner, name)]
  {
    TableOfOne(OfHat, 1, Stored(owner, name, [OneHat()]), H.HatSlug);
  }

  // ---- a game ----

  function OneGame(kind: M.Kind): M.Game {
    M.Game("Game", kind, "Game")
  }

  /** A spec with one game of this kind. */
  function GameSpec(kind: M.Kind): Json {
    M.SpecOf(WrittenOut(M.Explicit, [OneGame(kind)]))
  }

  lemma OnlyGames(items: seq<Json>)
    ensures Strip(M.SpecOf(items)) == M.SpecOf(items)
    ensures C.Collectibles(M.SpecOf(items)) == Ok([]) && H.Hats(M.SpecOf(items)) == Ok([])
  {
    var json := M.SpecOf(items);
    assert json.fields.Keys == {"minigames"};
    assert json.fields - {"specId", "spec_id"} == json.fields;
    assert Get(json, "hats") == None && Get(json, "collectibles") == None && Get(json, "collectables") == None;
  }

  lemma GameSpecParses(kind: M.Kind)
    ensures Strip(GameSpec(kind)) == GameSpec(kind) && Parse(GameSpec(kind)) == Ok(Catalog([OneGame(kind)], [], []))
  {
    hide M.Explicit, M.Games, C.Collectibles, H.Hats, M.SpecOf, WrittenOut, Strip;
    M.WrittenOutReads([OneGame(kind)]);
    OnlyGames(WrittenOut(M.Explicit, [OneGame(kind)]));
  }

  function Game1(): Key {
    Key(OfGame, 1, "Game")
  }

  lemma GameShown(kind: M.Kind)
    ensures Rows(1, 7, "n", Catalog([OneGame(kind)], [], [])).games
         == map["Game" := Placed(Game1(), OneGame(kind), 7, "n")]
  {
    TableOfOne(OfGame, 1, Stored(7, "n", [OneGame(kind)]), M.GameSlug);
  }

  // ---- user 5 puts on the hat of user 7 ----

  /** The spec of user 7, in some version. */
  function SpecOf7(json: Json, version: nat): Spec {
    Spec(7, "n", json, version, 0)
  }

  /** User 7 binds map 1 to the first spec there is; user 5 earns its hat and puts it on. */
  function DressEvents(): seq<Event> {
    [BindsAsAuthor(Locked(SpecOf7(HatSpec(), 1), None, false), Some(7), 7, 1, 0)]
    + [Unlocks(5, 1, "Hat-1", 0, Guard(Hat1(), true, []))]
    + [Equips(5, 1, "Hat-1", Some(0))]
  }

  /** Map 1 is bound to that spec and shows its hat, which user 5 has unlocked and wears. */
  ghost predicate Wears5(db: Db) {
    && db.bindings == map[1 := Binding(0, Some(7), Some(Revision(1, 0)))]
    && 5 in WornOn(db, 1) && WornOn(db, 1)[5] == Worn("Hat-1", Hat1())
  }

  lemma FirstUnlock(db: Db)
    requires Materialised(db, 1, 0) && db.unlocks == map[]
    requires RowsOn(db, 1).hats == map["Hat-1" := Placed(Hat1(), OneHat(), 7, "n")]
    ensures Next(db, Unlocks(5, 1, "Hat-1", 0, Guard(Hat1(), true, [])))
         == db.(unlocks := map[(5, Hat1()) := Place(1, "Hat-1")])
  {
    hide Materialised;
  }

  lemma EquipPutsOn(db: Db)
    requires Materialised(db, 1, 0) && db.unlocks == map[(5, Hat1()) := Place(1, "Hat-1")]
    requires RowsOn(db, 1).hats == map["Hat-1" := Placed(Hat1(), OneHat(), 7, "n")]
    ensures Next(db, Equips(5, 1, "Hat-1", Some(0))) == PutOn(db, 5, 1, Worn("Hat-1", Hat1())).0
  {
    hide Materialised, RowsOn, PutOn, Unequip;
  }

  lemma PutOnWears(db: Db, user: User, m: MapUid, hat: Worn)
    ensures var after := PutOn(db, user, m, hat).0; user in WornOn(after, m) && WornOn(after, m)[user] == hat
  {
  }

  lemma PutOnLeaves(db: Db, user: User, m: MapUid, hat: Worn)
    ensures SameSpecs(db, PutOn(db, user, m, hat).0) && PutOn(db, user, m, hat).0.bindings == db.bindings
  {
    hide WornOn;
  }

  lemma FirstEquip(db: Db)
    requires Materialised(db, 1, 0) && db.unlocks == map[(5, Hat1()) := Place(1, "Hat-1")]
    requires RowsOn(db, 1).hats == map["Hat-1" := Placed(Hat1(), OneHat(), 7, "n")]
    ensures var after := Next(db, Equips(5, 1, "Hat-1", Some(0)));
            && SameSpecs(db, after) && after.bindings == db.bindings
            && 5 in WornOn(after, 1) && WornOn(after, 1)[5] == Worn("Hat-1", Hat1())
  {
    hide Next, Materialised, RowsOn, PutOn, WornOn;
    EquipPutsOn(db);
    PutOnWears(db, 5, 1, Worn("Hat-1", Hat1()));
    PutOnLeaves(db, 5, 1, Worn("Hat-1", Hat1()));
  }

  lemma {:induction false} Dressing(db: Db)
    requires 0 in db.specs && db.specs[0] == SpecOf7(HatSpec(), 1) && db.bindings == map[] && db.unlocks == map[]
    ensures var after := Run(db, DressEvents());
            && after.specs == db.specs && after.ids == db.ids && after.nextId == db.nextId && after.clock == db.clock
            && Wears5(after)
  {
    HatSpecParses();
    HatShown(7, "n");
    var l := Locked(SpecOf7(HatSpec(), 1), None, false);
    hide HatSpec, Parse, Run, Rows;
    OwnBind(db, l, 1, 0);
    hide Next, WornOn, RowsOn;
    var e1 := BindsAsAuthor(l, Some(7), 7, 1, 0);
    var e2, e3 := Unlocks(5, 1, "Hat-1", 0, Guard(Hat1(), true, [])), Equips(5, 1, "Hat-1", Some(0));
    RunOne(db, e1);
    RunMore(db, [e1], e2);
    RunMore(db, [e1] + [e2], e3);
    var db1 := Next(db, e1);
    FirstUnlock(db1);
    UnlockedSame(db1, db1.(unlocks := map[(5, Hat1()) := Place(1, "Hat-1")]));
    FirstEquip(Next(db1, e2));
  }

  lemma UnlockedSame(db: Db, after: Db)
    requires after == db.(unlocks := after.unlocks)
    ensures RowsOn(after, 1) == RowsOn(db, 1) && (Materialised(after, 1, 0) <==> Materialised(db, 1, 0))
  {
  }
}
