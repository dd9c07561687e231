/**
 The Wayfinder tables and the transactions on them (`src/queries/listed_maps.rs`,
 `hats.rs`, `minigames.rs`, `collectibles.rs`, `custom_map_aux_specs.rs`), each
 transaction one function from tables to tables. Tables are maps by primary key.
 */
module Wayfinder {
  import opened Common
  import opened JsonText
  import opened CatalogSlugs
  import M = MinigameCatalog
  import C = CollectibleCatalog
  import H = HatCatalog

  // Identifiers; nothing but their equality matters here.
  type User = nat
  type MapUid = nat
  type SpecId = nat

  datatype Kind = OfGame | OfCollectible | OfHat

  /** The md5 keys, taken as injective: one per kind, map and slug. */
  datatype Key = Key(kind: Kind, map_: MapUid, slug: string)

  function HatKey(m: MapUid, slug: string): Key {
    Key(OfHat, m, slug)
  }

  /** A spec row. `version` stands for `updated_at`, `hash` for the generated hash column. */
  datatype Spec = Spec(owner: User, name: string, json: Json, version: nat, hash: nat)

  datatype Revision = Revision(version: nat, hash: nat)

  /** A binding row: whose authorship was verified, and which revision was materialised. */
  datatype Binding = Binding(spec: SpecId, author: Option<User>, revision: Option<Revision>)

  datatype Catalog = Catalog(games: seq<M.Game>, collectibles: seq<C.Collectible>, hats: seq<H.Hat>)

  /** Catalog rows of one spec. */
  datatype Stored<T> = Stored(owner: User, name: string, rows: seq<T>)

  /** A catalog row copied onto a map. */
  datatype Placed<T> = Placed(key: Key, row: T, owner: User, name: string)

  datatype OnMap = OnMap(
    games: map<string, Placed<M.Game>>,
    collectibles: map<string, Placed<C.Collectible>>,
    hats: map<string, Placed<H.Hat>>)

  datatype Worn = Worn(slug: string, key: Key)

  datatype Place = Place(map_: MapUid, slug: string)

  datatype Db = Db(
    specs: map<SpecId, Spec>,
    ids: map<(User, string), SpecId>,
    nextId: SpecId,
    clock: nat,
    games: map<SpecId, Stored<M.Game>>,
    collectibles: map<SpecId, Stored<C.Collectible>>,
    hats: map<SpecId, Stored<H.Hat>>,
    bindings: map<MapUid, Binding>,
    placed: map<MapUid, OnMap>,
    unlocks: map<(User, Key), Place>,
    equipped: map<MapUid, map<User, Worn>>)

  // ---- reading the tables ----

  function RowsOn(db: Db, m: MapUid): OnMap {
    if m in db.placed then db.placed[m] else OnMap(map[], map[], map[])
  }

  function WornOn(db: Db, m: MapUid): map<User, Worn> {
    if m in db.equipped then db.equipped[m] else map[]
  }

  predicate Verified(db: Db, b: Binding) {
    b.author.Some? && b.spec in db.specs && b.author.value == db.specs[b.spec].owner
  }

  predicate IsVerified(db: Db, m: MapUid) {
    m in db.bindings && Verified(db, db.bindings[m])
  }

  function RevisionOf(s: Spec): Revision {
    Revision(s.version, s.hash)
  }

  /** `lock_materialized_spec`: the map is bound to this spec, verified, and holds its present revision. */
  predicate Materialised(db: Db, m: MapUid, id: SpecId) {
    && id in db.specs
    && m in db.bindings
    && db.bindings[m].spec == id
    && Verified(db, db.bindings[m])
    && db.bindings[m].revision == Some(RevisionOf(db.specs[id]))
  }

  /** The three catalogs of a spec, validated in this order. */
  function Parse(json: Json): Result<Catalog, CatalogError> {
    match M.Games(json)
    case Err(e) => Err(e)
    case Ok(games) =>
      match C.Collectibles(json)
      case Err(e) => Err(e)
      case Ok(collectibles) =>
        match H.Hats(json)
        case Err(e) => Err(e)
        case Ok(hats) => Ok(Catalog(games, collectibles, hats))
  }

  // ---- specs ----

  /** Identity the server injected is never stored. */
  function Strip(json: Json): Json {
    if json.Obj? then Obj(json.fields - {"specId", "spec_id"}) else json
  }

  function ReplaceCatalogs(db: Db, id: SpecId, owner: User, name: string, cat: Catalog): Db {
    db.(games := db.games[id := Stored(owner, name, cat.games)],
        collectibles := db.collectibles[id := Stored(owner, name, cat.collectibles)],
        hats := db.hats[id := Stored(owner, name, cat.hats)])
  }

  /** `upsert_spec_and_catalogs`: a new row or a new version of the old one, never half of it. */
  function Upload(db: Db, user: User, name: string, json: Json, hash: nat): (Db, Result<SpecId, CatalogError>) {
    var stripped := Strip(json);
    match Parse(stripped)
    case Err(e) => (db, Err(e))
    case Ok(cat) =>
      var id := if (user, name) in db.ids then db.ids[(user, name)] else db.nextId;
      var version := db.clock + 1;
      var db1 := db.(
        specs := db.specs[id := Spec(user, name, stripped, version, hash)],
        ids := db.ids[(user, name) := id],
        nextId := if (user, name) in db.ids then db.nextId else db.nextId + 1,
        clock := version);
      (ReplaceCatalogs(db1, id, user, name, cat), Ok(id))
  }

  predicate IsBound(db: Db, id: SpecId) {
    exists m :: m in db.bindings && db.bindings[m].spec == id
  }

  /** `delete_spec`: `ON DELETE RESTRICT` refuses a bound spec; a spec that is not there is no error. */
  function DeleteSpec(db: Db, user: User, name: string): (Db, bool) {
    if (user, name) !in db.ids then (db, true)
    else if IsBound(db, db.ids[(user, name)]) then (db, false)
    else (db.(specs := db.specs - {db.ids[(user, name)]}, ids := db.ids - {(user, name)}), true)
  }

  function Without<T>(table: map<SpecId, Stored<T>>, user: User, name: string): map<SpecId, Stored<T>> {
    map id | id in table && !(table[id].owner == user && table[id].name == name) :: table[id]
  }

  /** The catalog rows go in statements of their own, after the spec; by then the name may belong to a new spec. */
  function DeleteGames(db: Db, user: User, name: string): Db {
    db.(games := Without(db.games, user, name))
  }

  function DeleteCollectibles(db: Db, user: User, name: string): Db {
    db.(collectibles := Without(db.collectibles, user, name))
  }

  function DeleteHats(db: Db, user: User, name: string): Db {
    db.(hats := Without(db.hats, user, name))
  }

  // ---- copying a catalog onto a map ----

  /** The table the first `k` rows of a catalog become on a map. */
  function TableOf<T>(kind: Kind, m: MapUid, stored: Stored<T>, slugOf: T -> string, k: nat): map<string, Placed<T>>
    requires k <= |stored.rows|
  {
    if k == 0 then map[] else
      var row := stored.rows[k - 1];
      TableOf(kind, m, stored, slugOf, k - 1)
        [slugOf(row) := Placed(Key(kind, m, slugOf(row)), row, stored.owner, stored.name)]
  }

  /** What the map shows once a catalog has been copied onto it. */
  function Rows(m: MapUid, owner: User, name: string, cat: Catalog): OnMap {
    OnMap(TableOf(OfGame, m, Stored(owner, name, cat.games), M.GameSlug, |cat.games|),
          TableOf(OfCollectible, m, Stored(owner, name, cat.collectibles), C.CollectibleSlug, |cat.collectibles|),
          TableOf(OfHat, m, Stored(owner, name, cat.hats), H.HatSlug, |cat.hats|))
  }

  predicate Fits(hats: map<string, Placed<H.Hat>>, w: Worn) {
    w.slug in hats && hats[w.slug].key == w.key
  }

  /** Those who still wear a hat the map has. */
  function Kept(worn: map<User, Worn>, hats: map<string, Placed<H.Hat>>): map<User, Worn> {
    map u | u in worn && Fits(hats, worn[u]) :: worn[u]
  }

  /** `replace_catalog_in_tx` and `bind_map_from_catalog_in_tx` of all three kinds, and the revision stamp. */
  function Materialise(db: Db, m: MapUid, id: SpecId, cat: Catalog): Db
    requires id in db.specs && m in db.bindings
  {
    var s := db.specs[id];
    var rows := Rows(m, s.owner, s.name, cat);
    ReplaceCatalogs(db, id, s.owner, s.name, cat).(
      placed := db.placed[m := rows],
      equipped := db.equipped[m := Kept(WornOn(db, m), rows.hats)],
      bindings := db.bindings[m := db.bindings[m].(revision := Some(RevisionOf(s)))])
  }

  function Purge(db: Db, m: MapUid): (r: Db)
    ensures r.bindings == db.bindings && r.specs == db.specs
    ensures r.unlocks == db.unlocks && forall x :: RowsOn(r, x) == RowsOn(db, x)
    ensures WornOn(r, m) == map[] && forall x :: x != m ==> WornOn(r, x) == WornOn(db, x)
  {
    db.(equipped := db.equipped[m := map[]])
  }

  function Rebind(db: Db, m: MapUid, b: Binding): (r: Db)
    ensures m in r.bindings && r.specs == db.specs && r.equipped == db.equipped
    ensures r.unlocks == db.unlocks && forall x :: RowsOn(r, x) == RowsOn(db, x)
  {
    db.(bindings := db.bindings[m := b])
  }

  // ---- binding ----

  datatype BindError =
    | SpecNotFound
    | SpecNotOwned
    | AuthorMismatch
    | AuthorVerification
    | ConflictingBinding
    | Invalid(error: CatalogError)

  /** `removed`: the users told to take a hat off. */
  datatype Bind = Bind(spec: SpecId, removed: set<User>, materialised: bool, replaced: bool)

  /**
   `prepare_authoritative_bind`: unlocked reads and the author Nadeo names; the result may
   be stale when it is used.
   */
  function Prepare(db: Db, named: Option<User>, reporter: User, m: MapUid, id: SpecId)
    : Result<Option<User>, BindError>
  {
    var bound := m in db.bindings && Verified(db, db.bindings[m]);
    if bound && db.bindings[m].spec != id then Err(ConflictingBinding)
    else if id !in db.specs then Err(SpecNotFound)
    else if bound then Ok(None)
    else if db.specs[id].owner != reporter then Err(SpecNotOwned)
    else if named.None? then Err(AuthorVerification)
    else if named.value != db.specs[id].owner then Err(AuthorMismatch)
    else Ok(named)
  }

  /**
   What a bind's transaction has read when it decides: the spec row, locked; and the
   binding row, locked if there is one. Where there is none, nothing is locked, and
   somebody else may insert it before this transaction does.
   */
  datatype Locked = Locked(spec: Spec, binding: Option<Binding>, verified: bool)

  function LockRows(db: Db, m: MapUid, id: SpecId): Locked
    requires id in db.specs
  {
    if m in db.bindings then Locked(db.specs[id], Some(db.bindings[m]), Verified(db, db.bindings[m]))
    else Locked(db.specs[id], None, false)
  }

  /**
   What is still so when the transaction writes: the locked rows have not changed, and a
   binding that appeared meanwhile was inserted by another bind, so it is verified.
   */
  predicate Holds(db: Db, l: Locked, m: MapUid, id: SpecId) {
    && id in db.specs && db.specs[id] == l.spec
    && match l.binding
       case Some(b) => m in db.bindings && db.bindings[m] == b && l.verified == Verified(db, b)
       case None => !l.verified && (m in db.bindings ==> Verified(db, db.bindings[m]))
  }

  /** `INSERT … ON CONFLICT DO NOTHING`, selecting the spec only when it is the reporter's. */
  function InsertFirst(db: Db, reporter: User, m: MapUid, id: SpecId): Db {
    if m in db.bindings || id !in db.specs || db.specs[id].owner != reporter then db
    else Rebind(db, m, Binding(id, Some(reporter), None))
  }

  /** The `UPDATE` of a binding that is not verified. */
  function PromoteUnverified(db: Db, reporter: User, m: MapUid, id: SpecId): Db {
    if m !in db.bindings || Verified(db, db.bindings[m]) then db
    else Rebind(db, m, Binding(id, Some(reporter), None))
  }

  /** The binding read again: whose it is now decides. */
  function Winner(db: Db, m: MapUid, id: SpecId): Option<BindError> {
    if m !in db.bindings || db.bindings[m].spec !in db.specs then Some(SpecNotFound)
    else if db.bindings[m].spec != id then Some(ConflictingBinding)
    else if !Verified(db, db.bindings[m]) then Some(AuthorVerification)
    else None
  }

  /** `commit_authoritative_bind` behind its two reads: an error rolls everything back. */
  function CommitLocked(db: Db, l: Locked, prepared: Option<User>, reporter: User, m: MapUid, id: SpecId)
    : (Db, Result<Bind, BindError>)
  {
    if !l.verified && l.spec.owner != reporter then (db, Err(SpecNotOwned))
    else if !l.verified && prepared != Some(l.spec.owner) then (db, Err(AuthorVerification))
    else if l.verified && l.binding.Some? && l.binding.value.spec != id then (db, Err(ConflictingBinding))
    else if l.verified && l.binding.Some? && l.binding.value.revision == Some(RevisionOf(l.spec))
    then (db, Ok(Bind(id, {}, false, false)))
    else
      match Parse(l.spec.json)
      case Err(e) => (db, Err(Invalid(e)))
      case Ok(cat) =>
        var recovering := l.binding.Some? && !l.verified;
        var db1 := PromoteUnverified(InsertFirst(db, reporter, m, id), reporter, m, id);
        var refused := Winner(db1, m, id);
        if refused.Some? then (db, Err(refused.value)) else
          var db2 := if recovering then Purge(db1, m) else db1;
          var db3 := Materialise(db2, m, id, cat);
          var purged := if recovering then WornOn(db, m).Keys else {};
          (db3, Ok(Bind(id, purged + (WornOn(db2, m).Keys - WornOn(db3, m).Keys), true, recovering)))
  }

  /** The whole transaction with nobody in between. */
  function CommitAuthor(db: Db, prepared: Option<User>, reporter: User, m: MapUid, id: SpecId)
    : (Db, Result<Bind, BindError>)
  {
    if id !in db.specs then (db, Err(SpecNotFound))
    else CommitLocked(db, LockRows(db, m, id), prepared, reporter, m, id)
  }

  /** The comment points elsewhere than the binding that was read. */
  predicate Moved(l: Locked, id: SpecId) {
    l.binding.Some? && l.binding.value.spec != id
  }

  /** The binding that was read already holds the revision that was read. */
  predicate Synchronised(l: Locked, id: SpecId) {
    l.binding.Some? && !Moved(l, id) && l.verified && l.binding.value.revision == Some(RevisionOf(l.spec))
  }

  /** The upsert of a comment bind, and the purge when it has to move the binding that was read. */
  function Repointed(db: Db, m: MapUid, id: SpecId, moved: bool): (r: Db)
    requires id in db.specs
    ensures m in r.bindings && r.specs == db.specs
  {
    var db1 := Rebind(db, m, Binding(id, Some(db.specs[id].owner), None));
    if moved then Purge(db1, m) else db1
  }

  /**
   `commit_comment_bind` behind its two reads: follows the comment wherever it points; the
   wearers its rebind removes are not reported.
   */
  function CommitComment(db: Db, l: Locked, m: MapUid, id: SpecId): (Db, Result<Bind, BindError>)
    requires id in db.specs
  {
    if Synchronised(l, id) then (db, Ok(Bind(id, {}, false, false)))
    else
      match Parse(l.spec.json)
      case Err(e) => (db, Err(Invalid(e)))
      case Ok(cat) =>
        (Materialise(Repointed(db, m, id, Moved(l, id)), m, id, cat),
         Ok(Bind(id, if Moved(l, id) then WornOn(db, m).Keys else {}, true, Moved(l, id))))
  }

  /** The whole transaction with nobody in between. */
  function FollowComment(db: Db, m: MapUid, id: SpecId): (Db, Result<Bind, BindError>) {
    if id !in db.specs then (db, Err(SpecNotFound)) else CommitComment(db, LockRows(db, m, id), m, id)
  }

  // ---- hats ----

  /** What a hat report compares: the key and the unlock predicates of a row. */
  datatype Guard = Guard(key: Key, finish: bool, uids: seq<string>)

  function GuardOf(p: Placed<H.Hat>): Guard {
    Guard(p.key, p.row.finish, p.row.uids)
  }

  /** `materialized_row` and `lock_materialized_row`. */
  function HatRow(db: Db, m: MapUid, id: SpecId, slug: string): Option<Guard> {
    if Materialised(db, m, id) && slug in RowsOn(db, m).hats then Some(GuardOf(RowsOn(db, m).hats[slug])) else None
  }

  /** The transaction of `report_unlock`: only for the row that was validated; a second unlock changes nothing. */
  function CommitUnlock(db: Db, user: User, m: MapUid, slug: string, id: SpecId, validated: Guard): (Db, bool) {
    if HatRow(db, m, id, slug) != Some(validated) then (db, false)
    else if (user, validated.key) in db.unlocks then (db, true)
    else (db.(unlocks := db.unlocks[(user, validated.key) := Place(m, slug)]), true)
  }

  /** Unlocked here, under the key the map shows. */
  predicate MayWear(db: Db, user: User, m: MapUid, slug: string) {
    && slug in RowsOn(db, m).hats
    && RowsOn(db, m).hats[slug].key == HatKey(m, slug)
    && (user, HatKey(m, slug)) in db.unlocks
    && db.unlocks[(user, HatKey(m, slug))] == Place(m, slug)
  }

  function Unequip(db: Db, user: User, m: MapUid): (Db, Option<string>) {
    if user !in WornOn(db, m) then (db, None) else (db.(equipped := db.equipped[m := WornOn(db, m) - {user}]), Some(""))
  }

  /** Putting on a hat one may wear; what one wears already changes nothing. */
  function PutOn(db: Db, user: User, m: MapUid, hat: Worn): (Db, Option<string>) {
    var worn := WornOn(db, m);
    if user in worn && worn[user] == hat then (db, None)
    else (db.(equipped := db.equipped[m := worn[user := hat]]), Some(hat.slug))
  }

  /** `report_equip`: `readId` is the binding's spec as an unlocked read saw it; the answer is the slug to broadcast. */
  function Equip(db: Db, user: User, m: MapUid, slug: string, readId: Option<SpecId>): (Db, Option<string>) {
    if slug == "" then Unequip(db, user, m)
    else if readId.None? || !Materialised(db, m, readId.value) || !MayWear(db, user, m, slug) then (db, None)
    else PutOn(db, user, m, Worn(slug, HatKey(m, slug)))
  }
}
