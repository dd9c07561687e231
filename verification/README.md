# Dafny model of the game server's protocols

This project models the parts of the server in which something can go wrong in a way
that reading one function does not show: bounded-memory rate limiters, the
single-flight lookups against Nadeo, the Wayfinder binding transactions, the event
protocols of a connection and of a map, the context-flag codec, the GBX comment reader,
the time-to-live cache and its deliveries, and the minigame and collectible tables.

`dafny verify dfyconfig.toml` checks everything.

## How it is built

Code that updates something in place is a method, with its loops or on a class with the
source's fields, and is proved equal to a function of the old state: the limiters, the
tables of a verifier, the parsers, the flag codec, the cache, the Wayfinder transactions
(`WayfinderStore`), the attempt tables, the owed set. What the source promises is then
proved about those functions, over all runs.

Concurrent code is a state machine: a world, a datatype of steps, one atomic step a
function `Next` or `Advance`, and an invariant kept by every step, so that a theorem
speaks of every interleaving of any number of tasks. A step that is not enabled changes
nothing. Transactions are single steps; reads made before a transaction, without its
locks, are steps of their own, so what they saw may be stale by the time it is used. Both
binds are two steps, their locking reads and their writes, because where there is no
binding yet there is no row to lock.
Every induction is written out; none is left to the verifier's automatic induction.

| file | what it models |
|---|---|
| `Common`, `Lru`, `Divisibility` | shared datatypes, the `lru` table, number theory |
| `AdmissionLimiter`, `AdmissionMemory`, `AdmissionBudget`, `AdmissionRuns`, `AdmissionWitness`, `AdmissionBounds`, `EquipLimiter`, `EquipBounds`, `UnlockThrottle` | the limiters of `src/nadeo.rs` and `src/queries/hats.rs` |
| `SingleFlight`, `SingleFlightHits`, `SingleFlightProgress` | cached lookups with gates, admission and a semaphore: safety, what the cache answers, progress |
| `Gbx` | chunk table, fetch window, comment extraction |
| `ContextFlags` | the coefficient codec of `src/player.rs` |
| `Json`, `CatalogSlugs`, `CatalogFold`, `CatalogNumbering`, `HatCatalog`, `CollectibleCatalog`, `MinigameCatalog` | catalog parsing |
| `Wayfinder`, `WayfinderInvariant`, `WayfinderBinding`, `WayfinderRuns`, `WayfinderComments`, `WayfinderWearers`, `WayfinderUnlocks`, `WayfinderAnswers`, `WayfinderStore` | specs, bindings, materialised rows, unlocks, equipment |
| `HatBroadcast`, `DeferredUnlocks` | per-map and per-connection event protocols |
| `TtlCache` | the cache and the pings that deliver its values |
| `MinigameBest`, `CollectLog` | personal bests, first-collect log |

Time is a `nat`; calls to one limiter carry non-decreasing times, and durations are the
code's saturating differences. `updated_at` is a strictly increasing version. The md5
keys are made of kind, map and slug, so they are injective; the spec hash is any number
that arrives with an upload. A JSON number is an i64 or u64, or the real a finite float
stands for.

## What came out

- The admission limiters, with global limit G, account limit A and C table entries,
  answer as limiters that never forget if and only if nobody is ever let in (G = 0), or
  A > 0 and either A + 1 >= 2G, so that the account limit never matters, or
  C + 1 >= 2G + G / A (rounded down): room for two global budgets and for everybody who
  can spend a whole account budget in one window, less one (`ExactIffRemembers`). The
  shipped 2048/128/16 and 1024/64/8 are far inside: 263 and 135 entries would do, 262 and
  134 would not (`ShippedAreExact`). At most two global budgets pass within one window's
  time whatever the table holds.
- The equip limiter's verdicts, with their reasons, are those of an unbounded one if and
  only if the table holds two global budgets, which the shipped 4096 and 2048 meet with
  equality; the spacing of a user's equips alone needs one entry less.
- A ping that changes the map and then fails to fetch has already recorded the new map,
  so later pings do not count as a change. A client whose next answers are all old is
  then never sent the value (`FailedFirstPingIsNeverMadeUp`). What a client was last
  sent is what the cache answered if and only if the map-changing ping succeeded or some
  answer since was young (`LastSentIsLatestIff`).
- The comment-bind path reports fewer removed wearers than it removes, exactly when it
  does not move the binding it has read, writes it anew, and some wearer's hat is not in
  the new catalog (`CommentBindReportsExactlyIff`); from empty tables a hat can be taken
  off in silence (`CommentBindForgetsWearers`).
- A comment bind takes off what is worn on a map it moves, unless it had read that the
  map is not bound and somebody bound it before it wrote: then whoever wears a hat that
  fits the new rows keeps it (`MovedMapKeepsHatIff`, with a run in
  `OvertakenMoveKeepsWearers`). The map's lock keeps the two binds of a server apart; the
  recheck over HTTP (`src/moderation_http.rs:523`) does not take it.
- Recovering a legacy binding takes off every hat, because what was worn under it was
  never checked. Two other transactions verify a map and leave such wearers alone if
  their hats fit the new rows: the first bind of a map without a binding, and a comment
  bind that verifies a legacy binding for the spec it already names. Everybody on a
  verified map is entitled to their hat if and only if neither brings somebody along who
  never unlocked it (`StaysDressedIff`, `DressedIffNoStowaways`). Both can happen: the
  first bind may be the author's or the comment's (`StowawaysComeAboard`).
- A first bind reads no binding row, so nothing is locked. Of the refusals after the
  winner is read again, the conflict alone can happen, exactly when somebody else has
  bound the map to another spec meanwhile (`WinnerDecidesTheRace`).
- A preparation of a bind is never too old: whatever happens in between, it is accepted if
  and only if the spec is still there and valid and the map is not verified for another
  (`StalePreparationSuffices`). A hat once unlocked stays the user's to wear through new
  versions, moves and deletions, whenever the map shows it (`EarnedHatsCanBeWorn`).
- Two fetches of a key are the positive time to live apart once a record was found, unless
  as many other keys were used in between as the table holds (`FetchesOfRecordsAreSpaced`).
- The best row of a minigame always counts the attempts and finishes of the log and holds
  the time of one of the finishes (`RowsCountTheLog`). When an upload turns a Sprint into
  another kind under the same slug, or back, it goes on from the score of the other
  order: it is the best of the log in the new order if and only if it was so when the
  order changed, or some finish since was as good as all before it
  (`BestIffBestThenOrLed`); from empty tables it can be the best in neither
  (`ChangedKindMixesOrders`).
- Where comments and code disagree the code is followed. `src/server2.rs:1346` would
  rather send a value twice than not at all, which the failing ping above does not do.
  `src/queries/listed_maps.rs:72` calls the binding of a map immutable: a verified map
  stays verified, and its spec changes exactly by a comment bind to another valid spec
  (`VerifiedMovesIffCommentMoves`, with a run in `CommentMovesVerified`).

## Model

| member | source | states |
|---|---|---|
| `AdmissionLimiter.Limiter.AdmitAt` | src/nadeo.rs:407-429 | One call on the windows and the table in place computes the verdict and the new state of the specification; the author limiter at 244-267 is the same code |
| `AdmissionBounds.ForgettingIsInvisible` | src/nadeo.rs:407-429 | On every run with non-decreasing times the limiter answers as one that remembers every account, whenever the table remembers enough, even though refused calls promote entries too |
| `AdmissionBounds.ExactIffRemembers` | src/nadeo.rs:407-429 | For windows of four time units or more (three with an account limit of at most one), every run gets the verdicts of a limiter that never forgets if and only if G = 0, or A > 0 and A + 1 >= 2G or C + 1 >= 2G + G / A |
| `AdmissionBounds.RateBound` | src/nadeo.rs:407-429 | Any span one window long, wherever it begins, lets through at most two global budgets; and two account budgets per account where the table remembers enough |
| `AdmissionBounds.ShippedAreExact` | src/nadeo.rs:21-35 | The shipped limits are exact; with 263 and 135 entries they still would be, with one entry less they would not |
| `EquipLimiter.Limiter.CheckAt` | src/queries/hats.rs:56-75 | One check in place computes the verdict and the new state of the specification |
| `EquipBounds.ExactIffTwoBudgets` | src/queries/hats.rs:35-75 | Every run gets the verdicts, and reasons, of an unbounded limiter if and only if the table holds two global budgets |
| `EquipBounds.SpacedIffTwoBudgetsLessOne` | src/queries/hats.rs:35-75 | Two allowed equips of one user are always an interval apart if and only if the table holds two global budgets less one |
| `EquipBounds.ShippedIsExactAndTight` | src/server2.rs:100-101 | The shipped limits are exact, and with one entry less they would not be |
| `UnlockThrottle.Throttle.AllowAt` | src/nadeo.rs:460-471 | One call in place computes the verdict and the new table of the specification |
| `UnlockThrottle.RefusedIffRecentAndRemembered` | src/nadeo.rs:460-471 | After any calls a call is refused exactly when its key was let through less than the throttle ago and is among the last `capacity` distinct keys let through |
| `SingleFlight.Tables.CachedRecord` | src/nadeo.rs:370-385 | Expired entries are dropped, a refusal older than asked for is passed over, any other live entry is handed out, and hits are promoted |
| `SingleFlight.Tables.GateFor` | src/nadeo.rs:387-405 | The gate of a key, shared when it exists; a full table drops its most recently used idle gate, or refuses |
| `SingleFlight.SingleFlightPerKey` | src/nadeo.rs:431-458 | In every interleaving two tasks between acquiring and releasing their gates never have the same key |
| `SingleFlight.OwnedGateStays` | src/nadeo.rs:387-405 | A gate owned by any task stays in the bounded table under that task's key |
| `SingleFlight.GateRefusalMeansAllOwned` | src/nadeo.rs:393-401 | A lookup is refused a gate exactly when its key has none and every gate of a full table is owned |
| `SingleFlight.FetchesWithinPermits` | src/nadeo.rs:431-458 | Fetches in flight never exceed the semaphore |
| `SingleFlight.FetchesAreAdmitted` | src/nadeo.rs:431-458 | Every admission became one fetch, was given up, or is waiting; so fetches admitted within one window are at most two global budgets, whatever the table holds |
| `SingleFlight.AnswersAreAuthenticAndFresh` | src/nadeo.rs:370-500 | A finished lookup returns a reply the backend gave for that key, new or within its time to live when the task got it, and no refusal from before the caller asked |
| `SingleFlightHits.LiveReplyIsHandedOut` | src/nadeo.rs:370-458 | After any run, a lookup whose key the backend has replied for ends at its next check with the latest reply, without an admission, if that is live by the time of its kind, no refusal from before the caller asked, and fewer other keys than the table holds were used since the key was |
| `SingleFlightHits.HitsAreTheLatestReply` | src/nadeo.rs:370-458 | A check ends a lookup only with the latest reply for its key, live and not older than asked for |
| `SingleFlightHits.NoFetchWhileLive` | src/nadeo.rs:431-458 | Nobody is on the way to a fetch while the latest reply for the key could be handed out |
| `SingleFlightHits.FetchesOfRecordsAreSpaced` | src/nadeo.rs:431-458 | A key is fetched again after a record was found only when the positive time to live is over, or the record was pushed out by as many other keys as the table holds |
| `SingleFlightProgress.NoDeadlock` | src/nadeo.rs:431-458 | In every reachable state with an unfinished lookup some lookup can take its next step, be it that a fetch fails |
| `SingleFlightProgress.GateFound` | src/nadeo.rs:387-405 | The gate found is the one the key has, or a new one, in a full table in place of the most recently used gate that nobody owns |
| `SingleFlightProgress.FetchEnds` | src/nadeo.rs:443-457 | A fetch ends with the reply of the backend or its failure, gate and permit given back |
| `SingleFlightProgress.RefusedAdmissionEnds` | src/nadeo.rs:440-442 | A lookup goes on exactly when the limiter admits it, and otherwise ends with that refusal and lets go of its gate |
| `SingleFlightProgress.DroppedLetsGo` | src/nadeo.rs:431-458 | A lookup dropped anywhere holds neither gate nor permit afterwards, and leaves cache and limiter as they are |
| `Gbx.ParseHeaderChunkTable` | src/nadeo.rs:750-781 | The least start in range that holds a count of 1 to 64 and that many acceptable entries, with its end and entries; nothing when there is none; every read in bounds |
| `Gbx.CommentRange` | src/nadeo.rs:640-661 | The window fetched lies in the first thumbnail chunk, ends where it ends, is at most 64 KiB, and starts with the chunk when shorter |
| `Gbx.Find` | src/nadeo.rs:833-838 | The first occurrence at or behind a place, or none at all; an empty needle is found nowhere |
| `Gbx.ExtractComments` | src/nadeo.rs:794-831 | The loop over the two readings computes the specified answer: found, truncated or missing |
| `Gbx.SingleLengthRoundTrip` | src/nadeo.rs:794-831 | Any valid text of 1 to 32768 bytes behind a marker-free prefix, its length written once, is extracted |
| `Gbx.OneLengthReadingFails` | src/nadeo.rs:794-831 | With the length doubled the one-length reading never accepts |
| `Gbx.DoubleLengthRoundTrip` | src/nadeo.rs:794-831 | The same text with its length written twice is extracted |
| `Gbx.ExtractedMeansLaidOut` | src/nadeo.rs:794-831 | Conversely a text is only extracted from such a layout behind the first marker |
| `Gbx.ValidIffEncodesScalars` | src/nadeo.rs:794-831 | The byte ranges accepted as text are exactly the UTF-8 encodings of sequences of Unicode scalar values |
| `Gbx.TagsSpelt` | src/nadeo.rs:794-831 | The marker and the trailer are the ASCII texts |
| `Gbx.EntryBounds` | src/nadeo.rs:750-781 | Acceptable entries are those of class 0x0304 up to 256 MiB, whatever their flag bit |
| `ContextFlags.Encode` | src/player.rs:146-157 | Without overflow the word is the product of the odd coefficients of the set flags, whatever the order |
| `ContextFlags.Trim` | src/player.rs:152-155 | Shifting right until odd leaves the odd part |
| `ContextFlags.Decode` | src/player.rs:159-179 | With pairwise coprime odd parts, a flag is set exactly when its odd part divides the nonzero word |
| `ContextFlags.RoundTrip` | src/player.rs:146-179 | Decoding an encoded set of flags returns it on the live positions and clears the others |
| `ContextFlags.ShippedIndex` | src/player.rs:53-73 | The two shipped index tables invert each other |
| `ContextFlags.ShippedFits` | src/player.rs:146-157 | No 64-bit step of the shipped encoding overflows; the largest product is eight times 0x178BA59576325029 |
| `ContextFlags.ShippedIndependent` | src/player.rs:51-54 | The odd parts of the shipped coefficients are pairwise coprime and above one where live |
| `ContextFlags.ShippedRoundTrip` | src/player.rs:146-179 | Fifteen flags through the shipped codec come back, positions 3, 7, 10 and 11 false |
| `ContextFlags.CheckFlags` | src/player.rs:75-81 | The check is four divisibility tests; three of the flags it reads can never be set |
| `CatalogSlugs.DefaultCollides` | src/queries/hats.rs:164-192 | A default collides with an earlier slug exactly when number u32::MAX has been taken |
| `JsonText.BlankIsAllSpace` | src/queries/hats.rs:178-184 | A text is blank after trimming exactly when all of it is white space |
| `JsonText.TrimIsMiddle` | src/queries/hats.rs:178-184 | Trimming takes white space off both ends and nothing else |
| `JsonText.SpacesListed` | src/queries/hats.rs:178-184 | White space is twenty-five characters |
| `JsonText.PlusAndZeros` | src/queries/hats.rs:186-190 | A number behind the prefix may have a plus sign or leading zeros |
| `JsonText.NumbersAreCast` | src/queries/collectibles.rs:58-64 | Integers wrap into i64, fractions are cut, and what does not fit saturates |
| `HatCatalog.ParseUnlock` | src/queries/hats.rs:107-136 | The loop computes the specified unlock: the flag and the distinct trimmed uids, or the duplicate |
| `HatCatalog.ParseCatalogHats` | src/queries/hats.rs:151-213 | The loop with its set and counter computes the specified rows or the first error; an entry nothing guards takes its slug and number all the same |
| `HatCatalog.ParsedRows` | src/queries/hats.rs:151-213 | Distinct, nonblank, trimmed slugs; every row is guarded; its uids are distinct and trimmed |
| `HatCatalog.RowsFromEntries` | src/queries/hats.rs:151-213 | If every object entry, guarded or not, is the first to take its slug - the trimmed field, or the default one above the largest number taken so far, 1 if none, u32::MAX at the top - and no unlock repeats a uid, the rows are the guarded entries under those slugs |
| `HatCatalog.EntriesOfRows` | src/queries/hats.rs:151-213 | Conversely whatever is accepted has such slugs |
| `HatCatalog.RefusedForItsFirst` | src/queries/hats.rs:151-213 | A refused array is refused for the first entry that is blank, takes a taken slug or repeats a uid, with that error |
| `HatCatalog.UidsRead` | src/queries/hats.rs:107-148 | The uids are the nonblank strings, trimmed, in their order, refused exactly when one occurs twice, and the first that does is named |
| `HatCatalog.ArraySpellings` | src/queries/hats.rs:94-105 | The entries may stand under `items` or `games` |
| `HatCatalog.ItemsBeforeGames` | src/queries/hats.rs:94-105 | `games` is read only when `items` holds no array |
| `HatCatalog.UnlockSpellings` | src/queries/hats.rs:107-136 | Both spellings of the unlock fields mean the same |
| `HatCatalog.DefaultRefusedIffMaxTaken` | src/queries/hats.rs:162-192 | Behind accepted entries, an entry without slug is refused for its slug exactly when one of them, guarded or not, has taken `Hat-4294967295` |
| `HatCatalog.AppendingKeepsRows` | src/queries/hats.rs:151-213 | Appending never changes earlier rows of a successful parse, nor repairs a refused one |
| `HatCatalog.ReparsingChangesNothing` | src/queries/hats.rs:151-213 | Parsed rows written out explicitly and parsed again come back unchanged |
| `CollectibleCatalog.ParseCatalogCollectibles` | src/queries/collectibles.rs:58-138 | The loop computes the specified rows or the first error; scores are cut to i64 as the casts do, fractions included |
| `CollectibleCatalog.CollectPaths` | src/queries/collectibles.rs:35-56 | An item is accepted exactly when its legacy word is known, or, without one, it has a path or says nothing about paths; by unlock exactly for the flag or the word grant, by zone exactly for a zone object, a blank word or the word zone, or saying nothing |
| `CollectibleCatalog.ParsedRows` | src/queries/collectibles.rs:83-138 | Distinct, nonblank, trimmed slugs; every row has a collect path; gates are trimmed and scores fit i64 |
| `CollectibleCatalog.RowsFromItems` | src/queries/collectibles.rs:83-138 | If every item that can be collected is the first to take its slug, spelt out or the default behind the largest number taken so far, the rows are those items under those slugs |
| `CollectibleCatalog.ItemsOfRows` | src/queries/collectibles.rs:83-138 | Conversely whatever is accepted has such slugs |
| `CollectibleCatalog.RefusedForItsFirst` | src/queries/collectibles.rs:83-138 | A refused array is refused for the first item that is blank or takes a taken slug, with that error |
| `CollectibleCatalog.PickupCaseDoesNotMatter` | src/queries/collectibles.rs:39-48 | The case of the ASCII letters of the legacy word does not matter |
| `CollectibleCatalog.ArraySpellings` | src/queries/collectibles.rs:19-33 | Either spelling of the field, bare or with `items` or `games`, is read |
| `CollectibleCatalog.FirstArrayWins` | src/queries/collectibles.rs:19-33 | The second spelling is read only when the first holds no array |
| `CollectibleCatalog.FieldSpellings` | src/queries/collectibles.rs:58-78 | Both spellings of gate and score mean the same |
| `CollectibleCatalog.DefaultRefusedIffMaxTaken` | src/queries/collectibles.rs:97-121 | Behind accepted items, an item without slug is refused exactly when one of them has taken `Collectible-4294967295` |
| `CollectibleCatalog.AppendingKeepsRows` | src/queries/collectibles.rs:83-138 | Appending never changes earlier rows of a successful parse, nor repairs a refused one |
| `CollectibleCatalog.ReparsingChangesNothing` | src/queries/collectibles.rs:35-138 | Parsed rows written out in the current spelling and parsed again come back unchanged |
| `MinigameCatalog.ParseCatalogGames` | src/queries/minigames.rs:13-98 | The loop with its counters per kind computes the specified rows or the first error; a type number may be a fraction, which is cut |
| `MinigameCatalog.ParsedRows` | src/queries/minigames.rs:57-98 | Distinct, nonblank, trimmed slugs |
| `MinigameCatalog.GamesFromEntries` | src/queries/minigames.rs:57-98 | An array is accepted exactly when no entry of a known kind is blank or takes the slug of an earlier one, a missing slug being its number among the entries of its kind; the games are those entries in order; otherwise the first offending entry is named |
| `MinigameCatalog.WordDecides` | src/queries/minigames.rs:16-29 | A kind word that is not all white space decides, even an unknown one; only without one the type number is read, its fraction cut |
| `MinigameCatalog.TypesAreKinds` | src/queries/minigames.rs:31-53 | The six type numbers are kinds that words name, too |
| `MinigameCatalog.OnlyRacesAreLower` | src/queries/minigames.rs:31-53 | Lower scores are better exactly for the three words of a race |
| `MinigameCatalog.DefaultRefusedOnlyForSpeltOut` | src/queries/minigames.rs:70-88 | An entry without slug is refused only for a slug an earlier entry spelt out: defaults never meet each other |
| `MinigameCatalog.AppendingKeepsRows` | src/queries/minigames.rs:57-98 | Appending never changes earlier rows of a successful parse, nor repairs a refused one |
| `MinigameCatalog.ReparsingChangesNothing` | src/queries/minigames.rs:57-98 | Parsed rows written out explicitly and parsed again come back unchanged |
| `WayfinderStore.PlaceRows` | src/queries/hats.rs:345-362 | Copying the catalog rows of any of the three kinds onto a map builds the specified table |
| `WayfinderStore.DeleteUnfit` | src/queries/hats.rs:363-382 | Equipment that matches slug and key on the map stays; everyone else is listed once |
| `WayfinderStore.ListAll` | src/queries/hats.rs:311-338 | A purge lists every wearer once |
| `WayfinderStore.Database.SettleBinding` | src/queries/listed_maps.rs:239-297 | The three statements in place compute the specified tables and refusal, whatever the tables were |
| `WayfinderStore.Database.UpsertSpecAndCatalogs` | src/queries/custom_map_aux_specs.rs:135-168 | A new spec or a new version of the old one with its three catalogs, or nothing and the validation error |
| `WayfinderStore.Database.DeleteSpecRow` | src/queries/custom_map_aux_specs.rs:217-229 | A bound spec is not deleted and the caller is told; otherwise it is gone |
| `WayfinderStore.Database.MaterialiseRows` | src/queries/listed_maps.rs:304-330 | Catalogs, rows on the map, wearers and revision stamp as specified, with the wearers it removes |
| `WayfinderStore.Database.CommitAuthoritativeBind` | src/queries/listed_maps.rs:172-339 | Behind its reads the transaction, with a rollback when the winner refuses, is the specified one on whatever the tables have become; the owner is asked for only while the binding is unverified; each removed wearer is listed once |
| `WayfinderStore.Database.CommitCommentBind` | src/queries/listed_maps.rs:475-576 | Behind its reads the transaction is the specified one on whatever the binding has become, reporting only what the purge removed |
| `WayfinderStore.Database.ReportUnlockCommit` | src/queries/hats.rs:534-554 | An unlock is written only when the locked row equals the validated one, once |
| `WayfinderStore.Database.ReportEquip` | src/queries/hats.rs:574-671 | Equipping and unequipping as specified; the event is returned exactly when something changed, a change of hats included |
| `WayfinderInvariant.RunKeeps` | src/queries/listed_maps.rs:172-339 | Every transaction, with any parameters, keeps keys, stamps and current rows |
| `WayfinderInvariant.MaterialisedShowsPresentSpec` | src/queries/listed_maps.rs:630-668 | In every reachable state a verified map that holds its spec's revision shows exactly the parsed catalogs of the present spec, keyed by map and slug |
| `WayfinderInvariant.LockedHatIsPresent` | src/queries/hats.rs:429-455 | A hat row that passes the lock is a hat of the present spec with that hat's predicates |
| `WayfinderInvariant.LockedGameIsPresent` | src/queries/minigames.rs:231-248 | Behind the lock every game of the present spec is found, and a game found is one of that spec, with its kind, under the key of its map and slug |
| `WayfinderInvariant.LockedCollectibleIsPresent` | src/queries/collectibles.rs:264-290 | The same of collectibles |
| `WayfinderBinding.AuthorBindReportsExactly` | src/queries/listed_maps.rs:299-317 | The author-present bind reports exactly the users whose hat it takes off, and touches no other map's wearers |
| `WayfinderAnswers.BindAcceptedIff` | src/queries/listed_maps.rs:204-297 | Whenever its reads hold, an author's bind succeeds exactly when the locked binding is verified or the reporter owns the spec and was named, the map is not verified for another spec, and the spec parses or its present version is there; it writes exactly when it is not |
| `WayfinderAnswers.BindRefusedIff` | src/queries/listed_maps.rs:204-297 | Which refusal each failing condition gives; a refused bind changes nothing |
| `WayfinderAnswers.PreparedIff` | src/queries/listed_maps.rs:133-170 | When a preparation succeeds, with what, and which error each failing condition gives |
| `WayfinderAnswers.StalePreparationSuffices` | src/queries/listed_maps.rs:133-339 | A successful preparation suffices after any run of transactions, comment binds included, exactly while the spec is there and valid and the map not verified for another |
| `WayfinderAnswers.CommentAcceptedIff` | src/queries/listed_maps.rs:475-576 | A comment bind succeeds exactly when the spec parses or its present version is there, and says whether it wrote and moved |
| `WayfinderAnswers.StrippingKeepsCatalogs` | src/queries/custom_map_aux_specs.rs:69-76 | Stripping injected identity takes away those two fields and changes no catalog |
| `WayfinderAnswers.UploadAcceptedIff` | src/queries/custom_map_aux_specs.rs:135-168 | An upload is accepted exactly when its catalogs parse; then the user's spec of that name is it, in a version later than any, and otherwise nothing changes |
| `WayfinderAnswers.UploadTouchesItsOwn` | src/queries/custom_map_aux_specs.rs:135-168 | No other spec and no binding is touched |
| `WayfinderAnswers.UploadStoresCatalogs` | src/queries/custom_map_aux_specs.rs:135-168 | The three parsed catalogs are stored with it |
| `WayfinderAnswers.DeletedIffUnbound` | src/queries/custom_map_aux_specs.rs:217-229 | A spec is deleted exactly when no map is bound to it, and no other is |
| `WayfinderAnswers.RowsDeletedByName` | src/queries/hats.rs:260-272 | Deleting catalog rows takes away exactly those under the name |
| `WayfinderAnswers.EquipAnswersIff` | src/queries/hats.rs:574-671 | Putting on a hat is announced exactly when the binding read is materialised, the user has earned the hat there and does not wear that very hat; whenever the first two hold they wear it afterwards; nobody else changes |
| `WayfinderAnswers.UnequipAnswersIff` | src/queries/hats.rs:574-600 | Taking it off leaves the user without a hat and is announced exactly when one was worn |
| `WayfinderAnswers.UnlockAcceptedIff` | src/queries/hats.rs:534-554 | An unlock is written exactly when the map shows the validated hat in the present version; earlier unlocks never change |
| `WayfinderAnswers.EarnedHatsCanBeWorn` | src/queries/hats.rs:512-671 | After an accepted unlock and any transactions since, the user can put the hat on whenever the map shows it in the present version of its spec |
| `WayfinderInvariant.WinnerDecidesTheRace` | src/queries/listed_maps.rs:239-297 | Insert, conditional update and re-read come to one rebinding of an unverified map; the conflict is the one refusal they can end in, exactly when another bind of another spec was faster |
| `WayfinderBinding.CommentBindReportsExactlyIff` | src/queries/listed_maps.rs:475-576 | A successful comment bind reports exactly the users it undresses if and only if it moves the binding it has read, finds that synchronised, or every worn hat fits the new rows |
| `WayfinderComments.MovedMapKeepsHatIff` | src/queries/listed_maps.rs:299-548 | Whatever transaction points a bound map at another spec, a wearer there keeps a hat if and only if a comment bind does so that had read no binding, and the hat fits the new rows |
| `WayfinderComments.OvertakenMoveKeepsWearers` | src/queries/listed_maps.rs:490-548 | A run from empty tables in which a map is bound between the reads and the upsert of a comment bind, and a wearer survives the move |
| `WayfinderComments.CommentBindForgetsWearers` | src/queries/listed_maps.rs:526-575 | A run from empty tables - upload, bind, unlock, equip, upload - after which a comment bind takes off a hat and reports nobody |
| `WayfinderComments.VerifiedMovesIffCommentMoves` | src/queries/listed_maps.rs:69-76 | A verified map stays verified under every transaction, and its spec changes exactly by a comment bind of that map to another spec that is there and valid, to that spec |
| `WayfinderComments.VerifiedFollowsComments` | src/queries/listed_maps.rs:475-533 | Over whole runs, comment binds included, a verified map names the spec of the last such comment bind |
| `WayfinderComments.CommentMovesVerified` | src/queries/listed_maps.rs:506-533 | A run from empty tables - two uploads, the author's bind, a comment bind - that moves a verified map from its author's spec to another user's |
| `WayfinderComments.WithoutCommentsNothingMoves` | src/queries/listed_maps.rs:69-76 | So in a run without comment binds of the map, a verified map keeps its spec, as the source says of every binding |
| `WayfinderComments.StaysMaterialisedIff` | src/queries/listed_maps.rs:630-668 | A map that shows the present version of its spec goes on showing it under every transaction, except exactly when that spec is uploaded anew or the map's comment moves it |
| `WayfinderComments.BoundOnceIsBound` | src/queries/listed_maps.rs:219-232 | After a successful author's bind and any run that does neither, every further bind of the map to that spec, by anyone and however prepared, and every comment that names it, changes nothing and says so |
| `WayfinderWearers.StaysDressedIff` | src/queries/hats.rs:300-390 | A transaction keeps everybody on every verified map entitled if and only if it does not verify a map leaving alone somebody whose hat fits and was never unlocked |
| `WayfinderWearers.DressedIffNoStowaways` | src/queries/listed_maps.rs:213-303 | From the migrated tables, with anybody wearing anything, everybody on a verified map is entitled throughout a run if and only if no transaction of it does that; recovery never does |
| `WayfinderWearers.WearersEntitled` | src/queries/hats.rs:574-671 | So without those, what a user wears on a verified map is on the map under its key and was unlocked there by that user |
| `WayfinderWearers.StowawaysComeAboard` | src/queries/listed_maps.rs:299-548 | Three transactions on tables the migration can leave - the author's first bind, the comment's first bind, the comment verifying a legacy binding in place - after which somebody on a verified map wears a hat they never unlocked |
| `WayfinderBinding.BindingsAreStickyAndAuthorised` | src/queries/listed_maps.rs:133-339 | In every interleaving of prepares, locking reads, commits and other transactions, all successful commits of a map name one spec, the one it is bound to, and the verifying one came from its owner, whom Nadeo named |
| `WayfinderBinding.VerifiedHasItsPromotion` | src/queries/listed_maps.rs:133-339 | A verified map was verified by such a commit |
| `WayfinderUnlocks.UnlocksAreProved` | src/queries/hats.rs:481-555 | Every new unlock row was written by a report of that user in which every predicate of the locked row was confirmed, whatever was rebound meanwhile |
| `WayfinderUnlocks.UnlockedIffAllConfirmed` | src/queries/hats.rs:481-555 | A report of a guarded hat, disturbed by nobody, succeeds exactly when every predicate is confirmed; then the hat is unlocked, and otherwise nothing changes |
| `WayfinderUnlocks.AnsweredAtOnce` | src/queries/hats.rs:512-532 | A hat unlocked before is answered at once with success; one that is throttled, unguarded or not shown with failure |
| `HatBroadcast.OneLockPerMap` | src/server2.rs:79-90 | In every interleaving the owners of a map's lock own the same lock, and one task at most is inside |
| `HatBroadcast.PerformReports` | src/server2.rs:3910-3992 | The update an equip, join, leave, bind or comment bind queues names everyone whose hat it changes, and truly, if and only if it is not a silent comment bind |
| `HatBroadcast.UpdatesNeverLie` | src/server2.rs:3910-3998 | Whenever a map's lock is free, the queued updates together show nobody in a hat other than the stored one, comment binds included, as long as none was silent |
| `HatBroadcast.JoinAnnouncesWhatIsWorn` | src/queries/hats.rs:778-803 | While everybody on verified maps is entitled to what they wear, a join announces exactly the hat worn on a map that shows its present version, and nothing elsewhere |
| `HatBroadcast.UpdateIsShown` | src/server2.rs:3910-3998 | Once an operation's update is queued, clients show the hat put on or announced, and nobody who took theirs off, left, or lost it to a bind |
| `HatBroadcast.ShownIsLastNamed` | src/server2.rs:3910-3998 | A client shows a user as the latest update naming them says |
| `HatBroadcast.NoDeadlock` | src/server2.rs:79-90 | While a task is unfinished some task can take its next step |
| `HatBroadcast.WaitingTasksCanBeDropped` | src/server2.rs:79-90 | A task that has not acted yet can be dropped wherever it waits, without a trace |
| `HatBroadcast.RegistryIsPruned` | src/server2.rs:79-90 | Asking for a lock leaves only locks in use, and that one, in the registry |
| `DeferredUnlocks.PendingHatUnlocks.Begin` | src/server2.rs:439-449 | Accepted exactly when not owed yet and fewer than sixteen are |
| `DeferredUnlocks.PendingHatUnlocks.Remove` | src/server2.rs:459-463 | True exactly when nothing is owed for the map any more |
| `DeferredUnlocks.OwedIsBounded` | src/server2.rs:435-463 | Never more than sixteen owed, each by one task |
| `DeferredUnlocks.AcceptedIffRoom` | src/server2.rs:435-463 | After any run an 84 is accepted exactly when fewer than sixteen are under way and none for the same hat, and a 213 withheld exactly when one for its map is; neither goes unrecorded |
| `DeferredUnlocks.EveryTaskFinishes` | src/server2.rs:459-493 | However a validation ends, panic included, its task releases, and pushes when that drains the map |
| `DeferredUnlocks.InlineIffAllReleased` | src/server2.rs:4262-4289 | A 213 is answered inline exactly when every 84 accepted earlier for that map has been released |
| `DeferredUnlocks.DrainIffAllReleased` | src/server2.rs:459-493 | A release returns true exactly when with it every 84 accepted earlier for that map has been released |
| `DeferredUnlocks.OneDrainPerBusyPeriod` | src/server2.rs:459-493 | Between two draining releases of a map a new 84 was accepted |
| `DeferredUnlocks.WithheldIsAnswered` | src/server2.rs:4075-4154 | Once all tasks have ended, panics included, every withheld 213 is followed by a draining release and then by that release's push |
| `TtlCache.InnerCache.Lookup` | src/cache_util.rs:44-52 | A hit exactly within the time to live, with its age |
| `TtlCache.InnerCache.Store` | src/cache_util.rs:62-82 | Only a different value begins a new age |
| `TtlCache.InnerCache.CheckPurgeOld` | src/cache_util.rs:93-107 | Entries unchecked for too long are dropped, at most once per period |
| `TtlCache.FirstSeenBeginsTheRun` | src/cache_util.rs:39-108 | An age counts from the earliest instant since which every stored answer was equal, a removal ending that run |
| `TtlCache.ServedIffStoredWithinTtl` | src/cache_util.rs:39-52 | At every point of a run a lookup answers exactly when the latest change of its key stored a value less than the time to live before the sample, and with that value |
| `TtlCache.PurgedIffStoredLongAgo` | src/cache_util.rs:93-107 | A purge removes exactly the keys whose latest change stored a value the purge time or more before |
| `TtlCache.SentIffEnteredOrYoung` | src/server2.rs:1327-1378 | A ping whose lookup succeeds sends the value exactly when the client's ping before was not for the same map or the present run of equal answers is young |
| `TtlCache.TracksLastPinged` | src/server2.rs:1333-1345 | What a client tracks is what its latest ping was for, however that ping ended |
| `TtlCache.LastSentIsLatestIff` | src/server2.rs:1327-1378 | For a client whose samples are close enough, the last value sent is the one just answered if and only if the map-changing ping succeeded or some answer since was young |
| `TtlCache.FailedFirstPingIsNeverMadeUp` | src/server2.rs:1333-1356 | A run in which the map-changing ping fails and the client is then sent nothing |
| `MinigameBest.Store.ReportAttempt` | src/queries/minigames.rs:218-329 | The lookup behind the lock and the statements of one report, cancels and finishes, compute the specified tables |
| `MinigameBest.LogIsWhatWasPlayed` | src/queries/minigames.rs:218-281 | The attempt log of a run is exactly the reports that came while their map showed the present version of their spec with a game of their slug, cancels included, finishes with a negative time left out, in order |
| `MinigameBest.RowsCountTheLog` | src/queries/minigames.rs:218-329 | After any transactions and reports, whatever the kinds were, the best row of a user and game has the attempts and finishes of the log, and the time of one of the finishes, zero without one |
| `MinigameBest.BestStepIff` | src/queries/minigames.rs:281-326 | A finish leaves the best score of the log in the row if and only if it is the first, the row held the best before, or the finish is as good as all before it |
| `MinigameBest.BestIffBestThenOrLed` | src/queries/minigames.rs:218-329 | Over whole runs: if since some moment every finish of a user was counted in one order, the row holds the best of the whole log in that order if and only if it did at that moment, or some finish since was as good as all before it |
| `MinigameBest.BestRowsMatchTheLog` | src/queries/minigames.rs:218-329 | So while the order does not change the row is what the attempt log says: attempts, finishes, the least finished time for a Sprint and the greatest for every other kind |
| `MinigameBest.ChangedKindMixesOrders` | src/queries/minigames.rs:280-300 | A run from empty tables - upload of a Sprint, bind, two finishes, upload of another kind under the slug, bind, a finish - after which the row is the best in neither order |
| `MinigameBest.NegativeFinishesLeaveNoTrace` | src/queries/minigames.rs:227-229 | No finish with a negative time is ever logged |
| `CollectLog.LogIsTheFirstCollectors` | src/queries/collectibles.rs:302-363 | However statements interleave and roll back, a collectible collected since the start has the time and log row of the transaction that collected it first, and is unlocked |
| `CollectLog.OneCommitCollects` | src/queries/collectibles.rs:302-363 | Such a collectible was collected by one commit of the run, with its transaction's time and position, and not before |
| `CollectLog.ReportCollects` | src/queries/collectibles.rs:302-363 | A report of an unheld row collects it: times already set stay, the others are its own, and the log row is its own if it collects and there is none |
| `CollectLog.UnlockSets` | src/queries/collectibles.rs:367-388 | An unlock of an unheld row keeps the time already set, or sets its own, and nothing else |
| `CollectLog.NoDeadlock` | src/queries/collectibles.rs:302-363 | While a transaction is open the next statement of some transaction can run |
| `CollectLog.RowsAreSticky` | src/queries/collectibles.rs:302-388 | From any reachable state on, times and log rows never change, and a collected row without log never gains one |
| `CollectLog.LegacyStaysUnlogged` | src/queries/collectibles.rs:336-361 | Progress collected before there was a log never gains a log row |

## Left out

- Sockets, TLS, HTTP clients, OAuth, subsystem shutdown, logging, moderation, statistics and offline scripts: nothing hard to prove in them.
- Postgres itself: tables are maps by primary key, a transaction is a step or, in `CollectLog`, a list of statements under a row lock; a connection lost between a commit and its acknowledgement is not modelled.
- The md5 keys and the spec hash: collisions of keys are excluded; the hash may collide, since the version already tells revisions apart.
- Positions and their plausibility check: a position is one opaque value in `CollectLog`.
- The wrap of the per-kind counters of the minigame parser at 2^32 entries of one kind.
- The UTF-8 decoder of the comment reader: its validity test is modelled by the standard's byte ranges, the decoded string is the bytes.
- `AdmissionBounds.ExactIffRemembers`: stated for windows of at least four time units (three with an account limit of at most one); in shorter ones the runs that show tightness do not fit. The sufficient half, `ForgettingIsInvisible`, holds for every window.
- `EquipBounds.ExactIffTwoBudgets`: stated for an interval above one time unit and not above the window; at one unit or none the runs that show tightness do not exist.
- `HatBroadcast.UpdatesNeverLie`: the HTTP recheck of a comment, which takes no lock and drops its wearers, is left out. A task is not cancelled between its commit and its send, where the code does not wait for anything.
- `WayfinderBinding.BindingsAreStickyAndAuthorised`: no comment binds in the run, since following the latest comment moves a binding by design (`WayfinderComments` says exactly when); runs start with nothing verified. What both binds do on tables that changed behind their reads is in `WayfinderComments`, where any of them may come at any point of a run.
- `DeferredUnlocks.WithheldIsAnswered`: the outer task is not dropped before its release, which happens only at shutdown; the two validation permits only delay tasks and are not modelled. An 84 accepted after the draining release may race its push.
- `TtlCache.LastSentIsLatestIff`: one cache and one lookup per ping; a ping whose first lookup succeeds and second fails is, for the second cache, a ping that fails.
- `WayfinderStore.Database.DeleteSpecRow`: the three catalog deletions that follow it are the functions `DeleteGames`, `DeleteCollectibles` and `DeleteHats` of `Wayfinder`, each a transaction of its own, and by then the name may belong to a new spec.
- The debounce of comment lookups (`src/server2.rs:118-163`): one bounded map whose properties follow from one body.
- The listing threshold, hit counters, display names and time stamps of rows that no condition reads.
- The reads that answer clients (`get_hats_mine`, `get_hats_on_map`, leaderboards): queries over the rows whose invariants are proved here.
- The retry delays of the official-record lookup; only that each attempt asks for a reply not older than itself is kept, in the request's `negativeNotBefore`.
