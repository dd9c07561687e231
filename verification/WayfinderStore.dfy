/**
 The transactions on tables that are updated in place, with the loops over rows, the lists
 of removed wearers and, for the author's bind, the statements that settle a race. The
 contract of each is the function of `Wayfinder` with the same task.
 */
module WayfinderStore {
  import opened Common
  import opened JsonText
  import opened CatalogSlugs
  import opened Wayfinder
  import M = MinigameCatalog
  import C = CollectibleCatalog
  import H = HatCatalog

  // ---- statements that loop over rows ----

  /** `INSERT INTO …_on_map SELECT … FROM …_catalog`, for any of the three kinds. */
  method PlaceRows<T>(kind: Kind, m: MapUid, stored: Stored<T>, slugOf: T -> string)
    returns (table: map<string, Placed<T>>)
    ensures table == TableOf(kind, m, stored, slugOf, |stored.rows|)
  {
    table := map[];
    for i := 0 to |stored.rows|
      invariant table == TableOf(kind, m, stored, slugOf, i)
    {
      var row := stored.rows[i];
      table := table[slugOf(row) := Placed(Key(kind, m, slugOf(row)), row, stored.owner, stored.name)];
    }
  }

  /** A list that names each user of a set once. */
  ghost predicate Lists(users: seq<User>, all: set<User>) {
    && (forall i, j :: 0 <= i < j < |users| ==> users[i] != users[j])
    && (forall u :: u in users <==> u in all)
  }

  lemma ListsOneMore(users: seq<User>, all: set<User>, u: User)
    requires Lists(users, all) && u !in all
    ensures Lists(users + [u], all + {u})
  {
  }

  lemma ListsJoin(a: seq<User>, b: seq<User>, inA: set<User>, inB: set<User>)
    requires Lists(a, inA) && Lists(b, inB) && inA !! inB
    ensures Lists(a + b, inA + inB)
  {
    forall i, j | 0 <= i < j < |a + b| ensures (a + b)[i] != (a + b)[j] {
      if i < |a| <= j {
        assert a[i] in inA && b[j - |a|] in inB;
      }
    }
  }

  /** `DELETE … RETURNING user_id`: those who fit stay, the others are listed. */
  method DeleteUnfit(worn: map<User, Worn>, hats: map<string, Placed<H.Hat>>)
    returns (kept: map<User, Worn>, removed: seq<User>)
    ensures kept == Kept(worn, hats)
    ensures Lists(removed, worn.Keys - kept.Keys)
  {
    hide Fits, Lists;
    kept := map[];
    removed := [];
    NothingListed();
    var left := worn.Keys;
    ghost var gone: set<User> := {};
    while left != {}
      invariant left <= worn.Keys
      invariant forall u :: u in kept <==> u in worn && u !in left && Fits(hats, worn[u])
      invariant forall u :: u in kept ==> kept[u] == worn[u]
      invariant forall u :: u in gone <==> u in worn && u !in left && !Fits(hats, worn[u])
      invariant Lists(removed, gone)
      decreases |left|
    {
      var u :| u in left;
      if Fits(hats, worn[u]) {
        kept := kept[u := worn[u]];
      } else {
        ListsOneMore(removed, gone, u);
        removed := removed + [u];
        gone := gone + {u};
      }
      left := left - {u};
    }
    assert gone == worn.Keys - kept.Keys;
  }

  lemma NothingListed()
    ensures Lists([], {})
  {
  }

  method ListAll(users: set<User>) returns (list: seq<User>)
    ensures Lists(list, users)
  {
    list := [];
    var left := users;
    while left != {}
      invariant left <= users
      invariant Lists(list, users - left)
      decreases |left|
    {
      var u :| u in left;
      ListsOneMore(list, users - left, u);
      list := list + [u];
      assert users - (left - {u}) == users - left + {u};
      left := left - {u};
    }
  }

  // ---- what a bind answers ----

  /** `AuthoritativeBindResult`: the removed wearers are a list. */
  datatype BindReport = BindReport(spec: SpecId, removed: seq<User>, materialised: bool, replaced: bool)

  /** The report says what the specification says, each removed wearer once. */
  ghost predicate Answers(r: Result<BindReport, BindError>, expected: Result<Bind, BindError>) {
    match expected
    case Err(e) => r == Err(e)
    case Ok(b) =>
      r.Ok? && r.value.spec == b.spec && r.value.materialised == b.materialised && r.value.replaced == b.replaced
      && Lists(r.value.removed, b.removed)
  }

  class Database {
    var specs: map<SpecId, Spec>
    var ids: map<(User, string), SpecId>
    var nextId: SpecId
    var clock: nat
    var games: map<SpecId, Stored<M.Game>>
    var collectibles: map<SpecId, Stored<C.Collectible>>
    var hats: map<SpecId, Stored<H.Hat>>
    var bindings: map<MapUid, Binding>
    var placed: map<MapUid, OnMap>
    var unlocks: map<(User, Key), Place>
    var equipped: map<MapUid, map<User, Worn>>

    function Abs(): Db
      reads this
    {
      Db(specs, ids, nextId, clock, games, collectibles, hats, bindings, placed, unlocks, equipped)
    }

    constructor (db: Db)
      ensures Abs() == db
    {
      specs, ids, nextId, clock := db.specs, db.ids, db.nextId, db.clock;
      games, collectibles, hats := db.games, db.collectibles, db.hats;
      bindings, placed, unlocks, equipped := db.bindings, db.placed, db.unlocks, db.equipped;
    }

    /** The three `replace_catalog_in_tx`: the rows of one spec are deleted and inserted anew. */
    method ReplaceCatalogRows(id: SpecId, owner: User, name: string, cat: Catalog)
      modifies this`games, this`collectibles, this`hats
      ensures Abs() == ReplaceCatalogs(old(Abs()), id, owner, name, cat)
    {
      games := games[id := Stored(owner, name, cat.games)];
      collectibles := collectibles[id := Stored(owner, name, cat.collectibles)];
      hats := hats[id := Stored(owner, name, cat.hats)];
    }

    method ParseCatalogs(json: Json) returns (r: Result<Catalog, CatalogError>)
      ensures r == Parse(json)
    {
      hide M.Games, C.Collectibles, H.Hats;
      var parsedGames := M.ParseCatalogGames(json);
      if parsedGames.Err? {
        return Err(parsedGames.error);
      }
      var parsedCollectibles := C.ParseCatalogCollectibles(json);
      if parsedCollectibles.Err? {
        return Err(parsedCollectibles.error);
      }
      var parsedHats := H.ParseCatalogHats(json);
      if parsedHats.Err? {
        return Err(parsedHats.error);
      }
      return Ok(Catalog(parsedGames.value, parsedCollectibles.value, parsedHats.value));
    }

    method UpsertSpecAndCatalogs(user: User, name: string, json: Json, hash: nat)
      returns (r: Result<SpecId, CatalogError>)
      modifies this
      ensures (Abs(), r) == Upload(old(Abs()), user, name, json, hash)
    {
      hide Parse, Strip;
      var stripped := Strip(json);
      var cat := ParseCatalogs(stripped);
      if cat.Err? {
        return Err(cat.error);
      }
      var id: SpecId;
      if (user, name) in ids {
        id := ids[(user, name)];
      } else {
        id := nextId;
        nextId := nextId + 1;
        ids := ids[(user, name) := id];
      }
      clock := clock + 1;
      specs := specs[id := Spec(user, name, stripped, clock, hash)];
      ReplaceCatalogRows(id, user, name, cat.value);
      assert ids == old(ids)[(user, name) := id];
      return Ok(id);
    }

    /** False when the foreign key of the bindings refuses the deletion. */
    method DeleteSpecRow(user: User, name: string) returns (ok: bool)
      modifies this`specs, this`ids
      ensures (Abs(), ok) == DeleteSpec(old(Abs()), user, name)
      ensures !ok <==> (user, name) in old(ids) && IsBound(old(Abs()), old(ids)[(user, name)])
    {
      hide IsBound;
      if (user, name) !in ids {
        return true;
      }
      if IsBound(Abs(), ids[(user, name)]) {
        return false;
      }
      specs := specs - {ids[(user, name)]};
      ids := ids - {(user, name)};
      return true;
    }

    /** The rest of a bind: catalogs, rows on the map, wearers, stamp. */
    method MaterialiseRows(m: MapUid, id: SpecId, cat: Catalog) returns (removed: seq<User>)
      requires id in specs && m in bindings
      modifies this`games, this`collectibles, this`hats, this`placed, this`equipped, this`bindings
      ensures Abs() == Materialise(old(Abs()), m, id, cat)
      ensures Lists(removed, WornOn(old(Abs()), m).Keys - WornOn(Abs(), m).Keys)
    {
      hide TableOf, Kept;
      var s := specs[id];
      ReplaceCatalogRows(id, s.owner, s.name, cat);
      var gameTable := PlaceRows(OfGame, m, games[id], M.GameSlug);
      var collectibleTable := PlaceRows(OfCollectible, m, collectibles[id], C.CollectibleSlug);
      var hatTable := PlaceRows(OfHat, m, hats[id], H.HatSlug);
      var rows := OnMap(gameTable, collectibleTable, hatTable);
      placed := placed[m := rows];
      var kept: map<User, Worn>;
      kept, removed := DeleteUnfit(WornOn(Abs(), m), hatTable);
      equipped := equipped[m := kept];
      bindings := bindings[m := bindings[m].(revision := Some(RevisionOf(s)))];
    }

    /** Insert unless somebody was faster, promote unless it is verified, and read whose binding it is now. */
    method SettleBinding(reporter: User, m: MapUid, id: SpecId) returns (refused: Option<BindError>)
      modifies this`bindings
      ensures Abs() == PromoteUnverified(InsertFirst(old(Abs()), reporter, m, id), reporter, m, id)
      ensures refused == Winner(Abs(), m, id)
    {
      hide Verified;
      if m !in bindings && id in specs && specs[id].owner == reporter {
        bindings := bindings[m := Binding(id, Some(reporter), None)];
      }
      assert Abs() == InsertFirst(old(Abs()), reporter, m, id);
      if m in bindings && !Verified(Abs(), bindings[m]) {
        bindings := bindings[m := Binding(id, Some(reporter), None)];
      }
      if m !in bindings || bindings[m].spec !in specs {
        return Some(SpecNotFound);
      }
      if bindings[m].spec != id {
        return Some(ConflictingBinding);
      }
      return if Verified(Abs(), bindings[m]) then None else Some(AuthorVerification);
    }

    /** The transaction behind its reads; the tables may have changed since where nothing was locked. */
    method CommitAuthoritativeBind(l: Locked, prepared: Option<User>, reporter: User, m: MapUid, id: SpecId)
      returns (r: Result<BindReport, BindError>)
      modifies this
      ensures Abs() == CommitLocked(old(Abs()), l, prepared, reporter, m, id).0
      ensures Answers(r, CommitLocked(old(Abs()), l, prepared, reporter, m, id).1)
    {
      hide Parse, Materialise, InsertFirst, PromoteUnverified;
      if !l.verified {
        if l.spec.owner != reporter {
          return Err(SpecNotOwned);
        }
        if prepared != Some(l.spec.owner) {
          return Err(AuthorVerification);
        }
      } else if l.binding.Some? {
        if l.binding.value.spec != id {
          return Err(ConflictingBinding);
        }
        if l.binding.value.revision == Some(RevisionOf(l.spec)) {
          return Ok(BindReport(id, [], false, false));
        }
      }
      var cat := ParseCatalogs(l.spec.json);
      if cat.Err? {
        return Err(Invalid(cat.error));
      }
      var recovering := l.binding.Some? && !l.verified;
      var before := bindings;
      var refused := SettleBinding(reporter, m, id);
      if refused.Some? {
        bindings := before;
        return Err(refused.value);
      }
      ghost var settled := Abs();
      assert WornOn(settled, m) == WornOn(old(Abs()), m);
      var purged: seq<User> := [];
      if recovering {
        purged := ListAll(WornOn(Abs(), m).Keys);
        equipped := equipped[m := map[]];
        assert Abs() == Purge(settled, m);
      }
      ghost var between := Abs();
      var removed := MaterialiseRows(m, id, cat.value);
      ListsJoin(purged, removed, if recovering then WornOn(old(Abs()), m).Keys else {},
                WornOn(between, m).Keys - WornOn(Abs(), m).Keys);
      return Ok(BindReport(id, purged + removed, true, recovering));
    }

    /** The comment bind's transaction behind its reads; the spec row is locked. */
    method CommitCommentBind(l: Locked, m: MapUid, id: SpecId) returns (r: Result<BindReport, BindError>)
      requires id in specs && specs[id] == l.spec
      modifies this
      ensures Abs() == CommitComment(old(Abs()), l, m, id).0
      ensures Answers(r, CommitComment(old(Abs()), l, m, id).1)
    {
      hide Parse, Materialise, Verified;
      var replaced := l.binding.Some? && l.binding.value.spec != id;
      if l.binding.Some? && !replaced && l.verified && l.binding.value.revision == Some(RevisionOf(l.spec)) {
        return Ok(BindReport(id, [], false, false));
      }
      var cat := ParseCatalogs(l.spec.json);
      if cat.Err? {
        return Err(Invalid(cat.error));
      }
      bindings := bindings[m := Binding(id, Some(l.spec.owner), None)];
      var purged: seq<User> := [];
      if replaced {
        purged := ListAll(WornOn(Abs(), m).Keys);
        equipped := equipped[m := map[]];
      }
      assert Abs() == Repointed(old(Abs()), m, id, replaced);
      var unreported := MaterialiseRows(m, id, cat.value);
      return Ok(BindReport(id, purged, true, replaced));
    }

    method ReportUnlockCommit(user: User, m: MapUid, slug: string, id: SpecId, validated: Guard) returns (ok: bool)
      modifies this`unlocks
      ensures (Abs(), ok) == CommitUnlock(old(Abs()), user, m, slug, id, validated)
    {
      hide HatRow;
      var locked := HatRow(Abs(), m, id, slug);
      if locked.None? || locked.value != validated {
        return false;
      }
      if (user, validated.key) !in unlocks {
        unlocks := unlocks[(user, validated.key) := Place(m, slug)];
      }
      return true;
    }

    method ReportEquip(user: User, m: MapUid, slug: string, readId: Option<SpecId>) returns (event: Option<string>)
      modifies this`equipped
      ensures (Abs(), event) == Equip(old(Abs()), user, m, slug, readId)
    {
      hide Materialised, MayWear;
      var worn: map<User, Worn> := WornOn(Abs(), m);
      if slug == "" {
        if user !in worn {
          return None;
        }
        equipped := equipped[m := worn - {user}];
        return Some("");
      }
      if readId.None? || !Materialised(Abs(), m, readId.value) || !MayWear(Abs(), user, m, slug) {
        return None;
      }
      var hat := Worn(slug, HatKey(m, slug));
      if user in worn && worn[user] == hat {
        return None;
      }
      equipped := equipped[m := worn[user := hat]];
      return Some(slug);
    }
  }
}
