/**
 What each transaction answers, told from the rows before it: when a bind is accepted and
 why it is refused, however old its preparation; when an equip is announced and what is
 worn afterwards; and that the hats somebody has earned stay theirs to wear.
 */
module WayfinderAnswers {
  import opened Common
  import opened CatalogFold
  import opened JsonText
  import opened Wayfinder
  import opened WayfinderInvariant
  import opened WayfinderRuns
  import B = WayfinderBinding
  import U = WayfinderUnlocks
  import K = WayfinderComments
  import H = HatCatalog
  import M = MinigameCatalog
  import C = CollectibleCatalog

  // ---- author binds ----

  /** The locked rows need no author, or the reporter is the owner and named as the author. */
  predicate Entrusted(l: Locked, prepared: Option<User>, reporter: User) {
    l.verified || (l.spec.owner == reporter && prepared == Some(reporter))
  }

  /** The map is verified, by now, for another spec. */
  predicate Elsewhere(db: Db, m: MapUid, id: SpecId) {
    IsVerified(db, m) && db.bindings[m].spec != id
  }

  /**
   A bind whose reads hold is accepted if and only if it is entrusted, the map is not
   verified for another spec, and the spec parses unless its present version is there
   already; it writes exactly when it is not.
   */
  lemma BindAcceptedIff(db: Db, l: Locked, prepared: Option<User>, reporter: User, m: MapUid, id: SpecId)
    requires Holds(db, l, m, id)
    ensures var r := CommitLocked(db, l, prepared, reporter, m, id).1;
            && (r.Ok? <==> Entrusted(l, prepared, reporter) && !Elsewhere(db, m, id)
                           && (Synchronised(l, id) || Parse(l.spec.json).Ok?))
            && (r.Ok? ==> r.value.spec == id && (r.value.materialised <==> !Synchronised(l, id)))
  {
    hide Parse, Materialise;
    if l.verified || l.spec.owner == reporter {
      WinnerDecidesTheRace(db, l, reporter, m, id);
      hide InsertFirst, PromoteUnverified, Winner;
    }
  }

  /** And each refusal says which of these fails first. */
  lemma BindRefusedIff(db: Db, l: Locked, prepared: Option<User>, reporter: User, m: MapUid, id: SpecId)
    requires Holds(db, l, m, id)
    ensures var (after, r) := CommitLocked(db, l, prepared, reporter, m, id);
            && (r.Err? ==> after == db)
            && (r == Err(SpecNotOwned) <==> !l.verified && l.spec.owner != reporter)
            && (r == Err(AuthorVerification) <==>
                  !l.verified && l.spec.owner == reporter && prepared != Some(reporter))
            && (r == Err(ConflictingBinding) <==>
                  && Entrusted(l, prepared, reporter) && Elsewhere(db, m, id)
                  && (l.verified || Parse(l.spec.json).Ok?))
            && (r.Err? && r.error.Invalid? <==>
                  && Entrusted(l, prepared, reporter) && !(l.verified && Elsewhere(db, m, id))
                  && !Synchronised(l, id) && Parse(l.spec.json).Err?)
            && (r.Err? && r.error.Invalid? ==> r.error.error == Parse(l.spec.json).error)
            && r != Err(SpecNotFound) && r != Err(AuthorMismatch)
  {
    hide Parse, Materialise;
    if l.verified || l.spec.owner == reporter {
      WinnerDecidesTheRace(db, l, reporter, m, id);
      hide InsertFirst, PromoteUnverified, Winner;
    }
  }

  /**
   A bind is prepared if and only if the map is verified for the spec, or the reporter
   owns it and Nadeo names them.
   */
  lemma PreparedIff(db: Db, named: Option<User>, reporter: User, m: MapUid, id: SpecId)
    ensures var r := Prepare(db, named, reporter, m, id);
            && (r.Ok? <==>
                  && id in db.specs && !Elsewhere(db, m, id)
                  && (IsVerified(db, m) || (db.specs[id].owner == reporter && named == Some(reporter))))
            && (r.Ok? ==> r.value == if IsVerified(db, m) then None else Some(reporter))
            && (r == Err(ConflictingBinding) <==> Elsewhere(db, m, id))
            && (r == Err(SpecNotFound) <==> !Elsewhere(db, m, id) && id !in db.specs)
            && (r == Err(SpecNotOwned) <==>
                  id in db.specs && !IsVerified(db, m) && db.specs[id].owner != reporter)
            && (r == Err(AuthorVerification) <==>
                  id in db.specs && !IsVerified(db, m) && db.specs[id].owner == reporter && named == None)
            && (r == Err(AuthorMismatch) <==>
                  id in db.specs && !IsVerified(db, m) && db.specs[id].owner == reporter
                  && named.Some? && named.value != reporter)
  {
  }

  // ---- however old the preparation ----

  /** This id belongs to this user, or is gone and will not come back. */
  ghost predicate OwnedOrGone(db: Db, id: SpecId, user: User) {
    id < db.nextId && (id in db.specs ==> db.specs[id].owner == user)
  }

  lemma UploadKeepsOwner(db: Db, user: User, name: string, json: Json, hash: nat, id: SpecId, owner: User)
    requires Keyed(db) && OwnedOrGone(db, id, owner)
    ensures OwnedOrGone(Upload(db, user, name, json, hash).0, id, owner)
  {
    hide Parse, Strip;
  }

  lemma AuthorKeepsIds(db: Db, l: Locked, prepared: Option<User>, reporter: User, m: MapUid, id: SpecId)
    requires Holds(db, l, m, id)
    ensures var after := CommitLocked(db, l, prepared, reporter, m, id).0;
            after.specs == db.specs && after.nextId == db.nextId
  {
    hide CommitLocked, Rebound, Parse, Materialise, Holds;
    BindAccepted(db, l, prepared, reporter, m, id);
    var r := CommitLocked(db, l, prepared, reporter, m, id).1;
    if r.Ok? && r.value.materialised {
      BindIsMaterialise(db, l, prepared, reporter, m, id);
      ReboundLeaves(db, reporter, m, id);
      MaterialiseLeaves(Rebound(db, reporter, m, id), m, id, Parse(db.specs[id].json).value);
    }
  }

  lemma CommentKeepsIds(db: Db, l: Locked, m: MapUid, id: SpecId)
    requires Holds(db, l, m, id)
    ensures var after := CommitComment(db, l, m, id).0; after.specs == db.specs && after.nextId == db.nextId
  {
    CommentStands(db, l, m, id);
    hide CommitComment, Parse, Materialise, Holds, Repointed, Synchronised, Moved;
    if !Synchronised(l, id) && Parse(db.specs[id].json).Ok? {
      CommentWrites(db, l, m, id);
      RepointedKeepsIds(db, m, id, Moved(l, id));
      MaterialiseLeaves(Repointed(db, m, id, Moved(l, id)), m, id, Parse(db.specs[id].json).value);
    }
  }

  lemma RepointedKeepsIds(db: Db, m: MapUid, id: SpecId, moved: bool)
    requires id in db.specs
    ensures Repointed(db, m, id, moved).specs == db.specs && Repointed(db, m, id, moved).nextId == db.nextId
  {
  }

  lemma OwnerKept(db: Db, e: Event, id: SpecId, owner: User)
    requires Keyed(db) && OwnedOrGone(db, id, owner)
    ensures OwnedOrGone(Next(db, e), id, owner)
  {
    hide Upload, CommitLocked, CommitComment, CommitUnlock, Equip, Without, Holds, Keyed, IsBound;
    match e
    case Uploads(user, name, json, hash) => UploadKeepsOwner(db, user, name, json, hash, id, owner);
    case BindsAsAuthor(l, prepared, reporter, m, other) =>
      if Holds(db, l, m, other) {
        AuthorKeepsIds(db, l, prepared, reporter, m, other);
      }
    case BindsByComment(l, m, other) =>
      if Holds(db, l, m, other) {
        CommentKeepsIds(db, l, m, other);
      }
    case Unlocks(user, m, slug, other, validated) => UnlockKeepsIds(db, user, m, slug, other, validated);
    case Equips(user, m, slug, readId) => EquipKeepsIds(db, user, m, slug, readId);
    case _ =>
  }

  lemma UnlockKeepsIds(db: Db, user: User, m: MapUid, slug: string, id: SpecId, validated: Guard)
    ensures var after := CommitUnlock(db, user, m, slug, id, validated).0;
            after.specs == db.specs && after.nextId == db.nextId
  {
    hide HatRow;
  }

  lemma EquipKeepsIds(db: Db, user: User, m: MapUid, slug: string, readId: Option<SpecId>)
    ensures var after := Equip(db, user, m, slug, readId).0; after.specs == db.specs && after.nextId == db.nextId
  {
    EquipShape(db, user, m, slug, readId);
    hide Equip, Materialised, MayWear, WornOn;
  }

  lemma {:induction false} OwnerStays(db: Db, events: seq<Event>, id: SpecId, owner: User)
    requires Inv(db) && OwnedOrGone(db, id, owner)
    ensures OwnedOrGone(Run(db, events), id, owner)
    decreases |events|
  {
    hide Next, OwnedOrGone, Stamped, AllCurrent, Keyed;
    if events != [] {
      NextKeeps(db, events[0]);
      OwnerKept(db, events[0], id, owner);
      OwnerStays(Next(db, events[0]), events[1..], id, owner);
    }
  }

  /**
   A preparation is never too old: what was prepared on some tables is accepted on any the
   transactions make of them later, comment binds included, if and only if the spec is
   still there, the map is not verified for another, and the spec parses unless its
   present version is there already.
   */
  lemma {:induction false} StalePreparationSuffices(db: Db, named: Option<User>, reporter: User, m: MapUid, id: SpecId,
                                                    events: seq<Event>)
    requires Inv(db) && Prepare(db, named, reporter, m, id).Ok?
    ensures var prepared, now := Prepare(db, named, reporter, m, id).value, Run(db, events);
            CommitAuthor(now, prepared, reporter, m, id).1.Ok? <==>
              && id in now.specs && !Elsewhere(now, m, id)
              && (Materialised(now, m, id) || Parse(now.specs[id].json).Ok?)
  {
    var prepared, now := Prepare(db, named, reporter, m, id).value, Run(db, events);
    PreparedIff(db, named, reporter, m, id);
    StaysEntrusted(db, named, reporter, m, id, events);
    if id in now.specs {
      var l := LockRows(now, m, id);
      B.JustRead(now, m, id);
      assert l.verified <==> IsVerified(now, m);
      assert l.spec == now.specs[id];
      assert Materialised(now, m, id) <==> Synchronised(l, id);
      hide Prepare, Run, Inv, CommitLocked, LockRows, Holds, Synchronised, Materialised, Parse, IsVerified;
      BindAcceptedIff(now, l, prepared, reporter, m, id);
    }
  }

  lemma {:induction false} StaysEntrusted(db: Db, named: Option<User>, reporter: User, m: MapUid, id: SpecId,
                                          events: seq<Event>)
    requires Inv(db) && Prepare(db, named, reporter, m, id).Ok?
    ensures var prepared, now := Prepare(db, named, reporter, m, id).value, Run(db, events);
            IsVerified(now, m)
            || (prepared == Some(reporter) && (id in now.specs ==> now.specs[id].owner == reporter))
  {
    PreparedIff(db, named, reporter, m, id);
    assert OwnedOrGone(db, id, db.specs[id].owner);
    hide Prepare, Run, Inv, IsVerified;
    OwnerStays(db, events, id, db.specs[id].owner);
    if IsVerified(db, m) {
      K.VerifiedFollowsComments(db, events, m);
    }
  }

  // ---- comment binds ----

  /** A comment bind is accepted if and only if the spec parses, or its present version is there already. */
  lemma CommentAcceptedIff(db: Db, l: Locked, m: MapUid, id: SpecId)
    requires Holds(db, l, m, id)
    ensures var r := CommitComment(db, l, m, id).1;
            && (r.Ok? <==> Synchronised(l, id) || Parse(l.spec.json).Ok?)
            && (r.Ok? ==> && r.value.spec == id && (r.value.materialised <==> !Synchronised(l, id))
                          && (r.value.replaced <==> Moved(l, id)))
            && (r.Err? ==> r == Err(Invalid(Parse(l.spec.json).error)))
  {
    CommentShape(db, l, m, id);
    hide CommitComment, Parse, Materialise, Repointed, WornOn;
  }

  // ---- uploads ----

  /** Stripping injected identity takes away two fields and nothing a catalog is read from. */
  lemma StrippingKeepsCatalogs(json: Json)
    ensures forall key :: Get(Strip(json), key) == if key in {"specId", "spec_id"} then None else Get(json, key)
    ensures Parse(Strip(json)) == Parse(json) && Strip(Strip(json)) == Strip(json)
  {
    assert json.Obj? ==> Strip(Strip(json)).fields == Strip(json).fields;
    hide Strip;
    GamesStripped(json);
    CollectiblesStripped(json);
    HatsStripped(json);
    hide M.Games, C.Collectibles, H.Hats;
  }

  lemma GamesStripped(json: Json)
    ensures M.Games(Strip(json)) == M.Games(json)
  {
    assert Get(Strip(json), "minigames") == Get(json, "minigames");
    hide Strip, Parsed;
  }

  lemma CollectiblesStripped(json: Json)
    ensures C.Collectibles(Strip(json)) == C.Collectibles(json)
  {
    assert Get(Strip(json), "collectibles") == Get(json, "collectibles");
    assert Get(Strip(json), "collectables") == Get(json, "collectables");
    hide Strip, Parsed;
  }

  lemma HatsStripped(json: Json)
    ensures H.Hats(Strip(json)) == H.Hats(json)
  {
    assert Get(Strip(json), "hats") == Get(json, "hats");
    hide Strip, Parsed;
  }

  /**
   An upload is accepted if and only if its catalogs parse; then the user's spec of that
   name, old or new, is this version, later than any before, and its catalogs are stored;
   otherwise nothing changes. No other spec, binding, wearer or unlock is touched.
   */
  lemma UploadAcceptedIff(db: Db, user: User, name: string, json: Json, hash: nat)
    requires Keyed(db) && Stamped(db)
    ensures var (after, r) := Upload(db, user, name, json, hash);
            && (r.Ok? <==> Parse(json).Ok?)
            && (r.Err? ==> after == db && r.error == Parse(json).error)
            && (r.Ok? ==>
                  && (user, name) in after.ids && after.ids[(user, name)] == r.value && r.value in after.specs
                  && ((user, name) in db.ids ==> r.value == db.ids[(user, name)])
                  && ((user, name) !in db.ids ==> r.value !in db.specs)
                  && var s := after.specs[r.value];
                     && (s.owner, s.name, s.hash) == (user, name, hash) && s.json == Strip(json)
                     && (forall id :: id in db.specs ==> db.specs[id].version < s.version))
  {
    StrippingKeepsCatalogs(json);
    hide Parse, Strip;
  }

  lemma UploadTouchesItsOwn(db: Db, user: User, name: string, json: Json, hash: nat)
    requires Keyed(db)
    ensures var (after, r) := Upload(db, user, name, json, hash);
            && (forall id :: id in db.specs && (db.specs[id].owner, db.specs[id].name) != (user, name) ==>
                  id in after.specs && after.specs[id] == db.specs[id])
            && after.bindings == db.bindings
  {
    B.UploadShape(db, user, name, json, hash);
    var id := if (user, name) in db.ids then db.ids[(user, name)] else db.nextId;
    assert id in db.specs ==> (db.specs[id].owner, db.specs[id].name) == (user, name);
    hide Parse, Strip, Upload, Keyed;
  }

  lemma UploadStoresCatalogs(db: Db, user: User, name: string, json: Json, hash: nat)
    requires Parse(json).Ok?
    ensures var (after, r) := Upload(db, user, name, json, hash);
            && r.Ok? && r.value in after.games && r.value in after.collectibles && r.value in after.hats
            && after.games[r.value] == Stored(user, name, Parse(json).value.games)
            && after.collectibles[r.value] == Stored(user, name, Parse(json).value.collectibles)
            && after.hats[r.value] == Stored(user, name, Parse(json).value.hats)
  {
    StrippingKeepsCatalogs(json);
    hide Parse, Strip;
  }

  /** A spec is deleted unless a map is bound to it; a deleted one is gone under its id and its name. */
  lemma DeletedIffUnbound(db: Db, user: User, name: string)
    requires Keyed(db)
    ensures var (after, ok) := DeleteSpec(db, user, name);
            var bound := (user, name) in db.ids
                         && exists m :: m in db.bindings && db.bindings[m].spec == db.ids[(user, name)];
            && (ok <==> !bound)
            && (!ok ==> after == db)
            && (ok ==> (user, name) !in after.ids
                       && (forall id :: id in after.specs <==>
                             id in db.specs && (db.specs[id].owner, db.specs[id].name) != (user, name)))
            && (forall id :: id in after.specs ==> after.specs[id] == db.specs[id])
            && (forall k :: k in db.ids && k != (user, name) ==> k in after.ids && after.ids[k] == db.ids[k])
            && after.bindings == db.bindings
  {
  }

  /** Deleting the catalog rows of a name takes away all rows under that name, and no others. */
  lemma RowsDeletedByName<T>(table: map<SpecId, Stored<T>>, user: User, name: string)
    ensures forall id :: id in Without(table, user, name) <==>
                           id in table && (table[id].owner, table[id].name) != (user, name)
    ensures forall id :: id in Without(table, user, name) ==> Without(table, user, name)[id] == table[id]
  {
  }

  // ---- unlocks ----

  /**
   An unlock report is accepted if and only if the map shows the validated hat in the
   present version of the spec; then the user has it, and otherwise nothing changes.
   */
  lemma UnlockAcceptedIff(db: Db, user: User, m: MapUid, slug: string, id: SpecId, validated: Guard)
    ensures var (after, ok) := CommitUnlock(db, user, m, slug, id, validated);
            && (ok <==> && Materialised(db, m, id) && slug in RowsOn(db, m).hats
                        && var hat := RowsOn(db, m).hats[slug];
                           validated == Guard(hat.key, hat.row.finish, hat.row.uids))
            && (forall u, k :: (u, k) in after.unlocks <==>
                  (u, k) in db.unlocks || (ok && u == user && k == validated.key))
            && (forall x :: x in db.unlocks ==> after.unlocks[x] == db.unlocks[x])
            && ((user, validated.key) !in db.unlocks && ok ==> after.unlocks[(user, validated.key)] == Place(m, slug))
  {
    hide Materialised;
  }

  // ---- equips ----

  /** The map shows a hat of this slug under the key of map and slug, and the user has unlocked it there. */
  ghost predicate Earned(db: Db, user: User, m: MapUid, slug: string) {
    && (exists hat :: hat in RowsOn(db, m).hats.Items && hat.0 == slug && hat.1.key == HatKey(m, slug))
    && (exists place :: place in db.unlocks.Items && place == ((user, HatKey(m, slug)), Place(m, slug)))
  }

  lemma EarnedIsMayWear(db: Db, user: User, m: MapUid, slug: string)
    ensures Earned(db, user, m, slug) <==> MayWear(db, user, m, slug)
  {
    if MayWear(db, user, m, slug) {
      assert (slug, RowsOn(db, m).hats[slug]) in RowsOn(db, m).hats.Items;
      assert ((user, HatKey(m, slug)), Place(m, slug)) in db.unlocks.Items;
    }
  }

  /** The hat that carries this slug on this map. */
  function HatOn(m: MapUid, slug: string): Worn {
    Worn(slug, HatKey(m, slug))
  }

  /**
   Putting on a hat is announced if and only if the binding read is materialised, the user
   has earned the hat there, and does not wear that very hat; whenever the first two hold
   the user wears it afterwards, whatever they wore before. Nobody else's hat changes.
   */
  lemma EquipAnswersIff(db: Db, user: User, m: MapUid, slug: string, readId: Option<SpecId>)
    requires slug != ""
    ensures var (after, event) := Equip(db, user, m, slug, readId);
            var may := readId.Some? && Materialised(db, m, readId.value) && Earned(db, user, m, slug);
            && (event == if may && !(user in WornOn(db, m) && WornOn(db, m)[user] == HatOn(m, slug)) then Some(slug)
                         else None)
            && WornOn(after, m) == (if may then WornOn(db, m)[user := HatOn(m, slug)] else WornOn(db, m))
            && (forall x :: x != m ==> WornOn(after, x) == WornOn(db, x))
  {
    EarnedIsMayWear(db, user, m, slug);
    hide Materialised, MayWear, Earned;
    var worn := WornOn(db, m);
    if user in worn && worn[user] == HatOn(m, slug) {
      assert worn[user := HatOn(m, slug)] == worn;
    }
  }

  /** Taking it off is announced if and only if something was worn. */
  lemma UnequipAnswersIff(db: Db, user: User, m: MapUid, readId: Option<SpecId>)
    ensures var (after, event) := Equip(db, user, m, "", readId);
            && event == (if user in WornOn(db, m) then Some("") else None)
            && WornOn(after, m) == WornOn(db, m) - {user}
            && (forall x :: x != m ==> WornOn(after, x) == WornOn(db, x))
  {
    if user !in WornOn(db, m) {
      assert WornOn(db, m) - {user} == WornOn(db, m);
    }
  }

  // ---- what is earned stays earned ----

  /** Every unlock row has the key of its own map and slug. */
  ghost predicate UnlocksKeyed(db: Db) {
    forall k :: k in db.unlocks ==> k.1 == HatKey(db.unlocks[k].map_, db.unlocks[k].slug)
  }

  lemma UnlockStep(db: Db, e: Event)
    requires Inv(db) && UnlocksKeyed(db)
    ensures UnlocksKeyed(Next(db, e))
    ensures forall k :: k in db.unlocks ==> k in Next(db, e).unlocks && Next(db, e).unlocks[k] == db.unlocks[k]
  {
    hide Inv, CommitUnlock, Upload, DeleteSpec, CommitLocked, CommitComment, Equip, Without, Holds;
    if e.Unlocks? {
      ReportStep(db, e.user, e.m, e.slug, e.id, e.validated);
    } else {
      U.OthersLeaveUnlocks(db, e);
      hide Next;
    }
  }

  lemma ReportStep(db: Db, user: User, m: MapUid, slug: string, id: SpecId, validated: Guard)
    requires Inv(db) && UnlocksKeyed(db)
    ensures var (after, ok) := CommitUnlock(db, user, m, slug, id, validated);
            && UnlocksKeyed(after)
            && (forall k :: k in db.unlocks ==> k in after.unlocks && after.unlocks[k] == db.unlocks[k])
            && (ok ==> (user, HatKey(m, slug)) in after.unlocks)
  {
    UnlockAcceptedIff(db, user, m, slug, id, validated);
    hide Inv, CommitUnlock, Materialised, RowsOn;
    if CommitUnlock(db, user, m, slug, id, validated).1 {
      ValidatedKey(db, user, m, slug, id, validated);
    }
  }

  lemma ValidatedKey(db: Db, user: User, m: MapUid, slug: string, id: SpecId, validated: Guard)
    requires Inv(db) && CommitUnlock(db, user, m, slug, id, validated).1
    ensures validated.key == HatKey(m, slug)
  {
    assert HatRow(db, m, id, slug) == Some(validated);
    assert Run(db, []) == db;
    hide Inv, CommitUnlock, HatRow, Run;
    var i := LockedHatIsPresent(db, [], m, id, slug);
  }

  lemma {:induction false} UnlocksStay(db: Db, events: seq<Event>)
    requires Inv(db) && UnlocksKeyed(db)
    ensures Inv(Run(db, events)) && UnlocksKeyed(Run(db, events))
    ensures forall k :: k in db.unlocks ==> k in Run(db, events).unlocks && Run(db, events).unlocks[k] == db.unlocks[k]
    decreases |events|
  {
    hide Next, Inv, UnlocksKeyed;
    if events != [] {
      NextKeeps(db, events[0]);
      UnlockStep(db, events[0]);
      UnlocksStay(Next(db, events[0]), events[1..]);
    }
  }

  lemma ShownIsEarned(db: Db, user: User, m: MapUid, slug: string, id: SpecId, i: nat)
    requires Inv(db) && UnlocksKeyed(db) && (user, HatKey(m, slug)) in db.unlocks
    requires Materialised(db, m, id) && Parse(db.specs[id].json).Ok?
    requires i < |Parse(db.specs[id].json).value.hats| && Parse(db.specs[id].json).value.hats[i].slug == slug
    ensures Earned(db, user, m, slug)
  {
    assert Run(db, []) == db;
    hide Inv, Run, Parse, Earned, Materialised;
    MaterialisedShowsPresentSpec(db, [], m, id);
    var s := db.specs[id];
    assert H.HatSlug(Parse(s.json).value.hats[i]) in RowsOn(db, m).hats;
    assert db.unlocks[(user, HatKey(m, slug))] == Place(m, slug);
    EarnedIsMayWear(db, user, m, slug);
  }

  /** The map shows a hat of this slug, in the present version of this spec. */
  ghost predicate Offers(db: Db, m: MapUid, id: SpecId, slug: string) {
    && Materialised(db, m, id) && Parse(db.specs[id].json).Ok?
    && var hats := Parse(db.specs[id].json).value.hats;
       exists i :: 0 <= i < |hats| && hats[i].slug == slug
  }

  lemma {:induction false} UnlockedCanBeWorn(db: Db, since: seq<Event>, user: User, m: MapUid, slug: string, id: SpecId)
    requires Inv(db) && UnlocksKeyed(db) && slug != "" && (user, HatKey(m, slug)) in db.unlocks
    requires Offers(Run(db, since), m, id, slug)
    ensures WornOn(Equip(Run(db, since), user, m, slug, Some(id)).0, m)
         == WornOn(Run(db, since), m)[user := HatOn(m, slug)]
  {
    var now := Run(db, since);
    assert id in now.specs;
    hide Run, Inv, UnlocksKeyed, Materialised, Parse, Earned, Equip, WornOn, RowsOn;
    UnlocksStay(db, since);
    var hats := Parse(now.specs[id].json).value.hats;
    var i :| 0 <= i < |hats| && hats[i].slug == slug;
    ShownIsEarned(now, user, m, slug, id, i);
    EquipAnswersIff(now, user, m, slug, Some(id));
  }

  /**
   Once a user's unlock report has been accepted, and after any transactions whatever - new
   versions, moves, deletions - the user can put the hat on whenever the map shows it in
   the present version of its spec.
   */
  lemma {:induction false} EarnedHatsCanBeWorn(db: Db, before: seq<Event>, user: User, m: MapUid, slug: string,
                                               id: SpecId, validated: Guard, since: seq<Event>, now: SpecId)
    requires Inv(db) && UnlocksKeyed(db) && slug != ""
    requires CommitUnlock(Run(db, before), user, m, slug, id, validated).1
    requires Offers(Run(CommitUnlock(Run(db, before), user, m, slug, id, validated).0, since), m, now, slug)
    ensures var worn := Run(CommitUnlock(Run(db, before), user, m, slug, id, validated).0, since);
            WornOn(Equip(worn, user, m, slug, Some(now)).0, m) == WornOn(worn, m)[user := HatOn(m, slug)]
  {
    hide Run, Inv, UnlocksKeyed, CommitUnlock, Offers, Equip, WornOn;
    UnlocksStay(db, before);
    CommitUnlockKeeps(Run(db, before), user, m, slug, id, validated);
    ReportStep(Run(db, before), user, m, slug, id, validated);
    UnlockedCanBeWorn(CommitUnlock(Run(db, before), user, m, slug, id, validated).0, since, user, m, slug, now);
  }
}
