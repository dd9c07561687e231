/**
 Parsing `spec.collectibles[]` (`src/queries/collectibles.rs`): collect paths with their
 legacy `pickup` spelling, slugs with default numbering, gates and unlock scores.
 */
module CollectibleCatalog {
  import opened Common
  import opened JsonText
  import opened CatalogFold
  import opened CatalogNumbering
  import opened CatalogSlugs

  /** `collect` and `zone` are the two ways to collect; `gatedBy` and `score` may be missing. */
  datatype Collectible = Collectible(
    slug: string, name: string, collect: bool, zone: bool, gatedBy: Option<string>, score: Option<I64>)

  /** The array one top-level field holds: itself, or its `items` or `games`. */
  function ArrayIn(v: Json): Option<seq<Json>> {
    if v.Arr? then Some(v.items)
    else if GetArr(v, "items").Some? then GetArr(v, "items")
    else GetArr(v, "games")
  }

  function CollectibleArray(spec: Json): Option<seq<Json>> {
    var first := Get(spec, "collectibles");
    var second := Get(spec, "collectables");
    if first.Some? && ArrayIn(first.value).Some? then ArrayIn(first.value)
    else if second.Some? then ArrayIn(second.value)
    else None
  }

  /** The items may stand under either spelling of the field, bare or under `items` or `games`. */
  lemma ArraySpellings(items: seq<Json>, field: string)
    requires field in {"collectibles", "collectables"}
    ensures CollectibleArray(Obj(map[field := Arr(items)])) == Some(items)
    ensures CollectibleArray(Obj(map[field := Obj(map["items" := Arr(items)])])) == Some(items)
    ensures CollectibleArray(Obj(map[field := Obj(map["games" := Arr(items)])])) == Some(items)
  {
  }

  /** The first spelling wins if it holds an array; otherwise the second is read. */
  lemma FirstArrayWins(v: Json, items: seq<Json>)
    ensures CollectibleArray(Obj(map["collectibles" := Arr(items), "collectables" := v])) == Some(items)
    ensures ArrayIn(v).None? ==>
              CollectibleArray(Obj(map["collectibles" := v, "collectables" := Arr(items)])) == Some(items)
  {
  }

  // ---- the fields of one item ----

  function LowerChar(c: char): char {
    if 'A' <= c <= 'Z' then 'a' + (c - 'A') else c
  }

  function Lower(s: string): string {
    if s == "" then "" else Lower(s[..|s| - 1]) + [LowerChar(s[|s| - 1])]
  }

  datatype Paths = Paths(collect: bool, zone: bool)

  /** What the legacy `pickup` field says; an unknown word says nothing can be collected. */
  function LegacyPaths(item: Json): Option<Paths> {
    var pickup := GetStr(item, "pickup");
    if pickup.None? then Some(Paths(false, Get(item, "collectOnUnlock").None? && Get(item, "zone").None?))
    else
      var word := Lower(Trim(pickup.value));
      if word == "" || word == "zone" then Some(Paths(false, true))
      else if word == "grant" then Some(Paths(true, false))
      else None
  }

  function CollectField(item: Json): bool {
    var v := Get(item, "collectOnUnlock");
    v.Some? && v.value.Bool? && v.value.flag
  }

  function ZoneField(item: Json): bool {
    var v := Get(item, "zone");
    v.Some? && v.value.Obj?
  }

  /** Neither spelling says how the item is collected. */
  predicate SaysNothing(item: Json) {
    GetStr(item, "pickup").None? && Get(item, "collectOnUnlock").None? && Get(item, "zone").None?
  }

  /** The item has this word as its legacy `pickup`. */
  predicate PickedUpBy(item: Json, words: set<string>) {
    var pickup := GetStr(item, "pickup");
    pickup.Some? && Lower(Trim(pickup.value)) in words
  }

  function CollectPaths(item: Json): (r: Option<Paths>)
    ensures r.Some? <==>
              if GetStr(item, "pickup").Some? then PickedUpBy(item, {"", "zone", "grant"})
              else CollectField(item) || ZoneField(item) || SaysNothing(item)
    ensures r.Some? ==>
              && (r.value.collect <==> CollectField(item) || PickedUpBy(item, {"grant"}))
              && (r.value.zone <==> ZoneField(item) || PickedUpBy(item, {"", "zone"}) || SaysNothing(item))
              && (r.value.collect || r.value.zone)
  {
    var legacy := LegacyPaths(item);
    if legacy.None? then None else
      var paths := Paths(CollectField(item) || legacy.value.collect, ZoneField(item) || legacy.value.zone);
      if paths.collect || paths.zone then Some(paths) else None
  }

  function ScoreOf(item: Json): Option<I64> {
    var v := GetEither(item, "unlock_score", "unlockScore");
    if v.Some? then AsI64(v.value) else None
  }

  function GateOf(item: Json): (r: Option<string>)
    ensures r.Some? ==> Canonical(r.value)
  {
    var v := GetEither(item, "gated_by", "gatedBy");
    if v.Some? && v.value.Str? && Trim(v.value.text) != "" then Some(Trim(v.value.text)) else None
  }

  /** The same letters, up to the case of the ASCII ones. */
  ghost predicate SameLetters(s: string, t: string) {
    |s| == |t| && forall i :: 0 <= i < |s| ==>
      s[i] == t[i] || ('A' <= s[i] <= 'Z' && t[i] == s[i] + ' ') || ('A' <= t[i] <= 'Z' && s[i] == t[i] + ' ')
  }

  lemma {:induction false} LoweredAlike(s: string, t: string)
    requires SameLetters(s, t)
    ensures Lower(s) == Lower(t)
  {
    if s != "" {
      LoweredAlike(s[..|s| - 1], t[..|t| - 1]);
    }
  }

  lemma {:induction false} StartTrimmedAlike(s: string, t: string)
    requires SameLetters(s, t)
    ensures SameLetters(TrimStart(s), TrimStart(t))
  {
    if s != "" && IsSpace(s[0]) {
      StartTrimmedAlike(s[1..], t[1..]);
    }
  }

  lemma {:induction false} EndTrimmedAlike(s: string, t: string)
    requires SameLetters(s, t)
    ensures SameLetters(TrimEnd(s), TrimEnd(t))
  {
    if s != "" && IsSpace(s[|s| - 1]) {
      EndTrimmedAlike(s[..|s| - 1], t[..|t| - 1]);
    }
  }

  /** The case of the ASCII letters of the legacy word does not matter. */
  lemma PickupCaseDoesNotMatter(item: Json, other: Json)
    requires GetStr(item, "pickup").Some? && GetStr(other, "pickup").Some?
    requires SameLetters(GetStr(item, "pickup").value, GetStr(other, "pickup").value)
    requires CollectField(item) == CollectField(other) && ZoneField(item) == ZoneField(other)
    ensures CollectPaths(item) == CollectPaths(other)
  {
    var s, t := GetStr(item, "pickup").value, GetStr(other, "pickup").value;
    StartTrimmedAlike(s, t);
    EndTrimmedAlike(TrimStart(s), TrimStart(t));
    LoweredAlike(Trim(s), Trim(t));
    hide Lower, Trim;
  }

  /** Both spellings of the gate and of the score mean the same. */
  lemma FieldSpellings(gate: Json, score: Json)
    ensures GateOf(Obj(map["gated_by" := gate])) == GateOf(Obj(map["gatedBy" := gate]))
    ensures ScoreOf(Obj(map["unlock_score" := score])) == ScoreOf(Obj(map["unlockScore" := score]))
    ensures GateOf(Obj(map["gated_by" := gate])).Some? <==> gate.Str? && Trim(gate.text) != ""
    ensures ScoreOf(Obj(map["unlock_score" := score])) == AsI64(score)
  {
    assert Get(Obj(map["gated_by" := gate]), "gated_by") == Some(gate);
    assert Get(Obj(map["gatedBy" := gate]), "gatedBy") == Some(gate);
  }

  // ---- the whole array ----

  const PREFIX := "Collectible-"

  function Default(next: nat): (slug: string)
    ensures Canonical(slug)
  {
    DefaultCanonical(PREFIX, next);
    DefaultSlug(PREFIX, next)
  }

  function RowOf(item: Json, slug: string, paths: Paths): Collectible
    requires Canonical(slug)
  {
    Collectible(slug, NameOf(item, slug), paths.collect, paths.zone, GateOf(item), ScoreOf(item))
  }

  function CollectibleSlug(c: Collectible): string {
    c.slug
  }

  /** One item. An item that cannot be collected takes neither a slug nor a number. */
  function Step(st: State<Collectible, nat>, item: Json): Folded<Collectible, nat> {
    if !item.Obj? || CollectPaths(item).None? then Ok(st) else
      match SlugOf(item, Default(st.numbers))
      case Err(e) => Err(e)
      case Ok(slug) =>
        if slug in st.seen then Err(DuplicateSlug(slug)) else
          Ok(State(st.parsed + [RowOf(item, slug, CollectPaths(item).value)], st.seen + {slug},
                   Advance(PREFIX, st.numbers, slug)))
  }

  /** `parse_catalog_collectibles`. */
  function Collectibles(spec: Json): Result<seq<Collectible>, CatalogError> {
    var items := CollectibleArray(spec);
    if items.None? then Ok([]) else Parsed(Step, 1, items.value)
  }

  method ParseCatalogCollectibles(spec: Json) returns (r: Result<seq<Collectible>, CatalogError>)
    ensures r == Collectibles(spec)
  {
    hide CollectPaths, SlugOf, Default, RowOf;
    var found := CollectibleArray(spec);
    if found.None? {
      return Ok([]);
    }
    var items := found.value;
    var parsed: seq<Collectible> := [];
    var seen: set<string> := {};
    var nextDefault := 1;
    var i := 0;
    while i < |items|
      invariant 0 <= i <= |items|
      invariant Fold(Step, 1, items, i) == Ok(State(parsed, seen, nextDefault))
    {
      var item := items[i];
      if item.Obj? {
        var paths := CollectPaths(item);
        if paths.Some? {
          var slug := SlugOf(item, Default(nextDefault));
          if slug.Err? {
            ErrorStays(Step, 1, items, i + 1);
            return Err(slug.error);
          }
          if slug.value in seen {
            ErrorStays(Step, 1, items, i + 1);
            return Err(DuplicateSlug(slug.value));
          }
          nextDefault := Advance(PREFIX, nextDefault, slug.value);
          seen := seen + {slug.value};
          parsed := parsed + [RowOf(item, slug.value, paths.value)];
        }
      }
      i := i + 1;
    }
    return Ok(parsed);
  }

  // ---- what a successful parse guarantees ----

  /** A row whose own explicit form would be read back unchanged. */
  ghost predicate Row(c: Collectible) {
    && Canonical(c.slug) && Canonical(c.name)
    && (c.collect || c.zone)
    && (c.gatedBy.Some? ==> Canonical(c.gatedBy.value))
  }

  ghost predicate Rows(rows: seq<Collectible>) {
    DistinctSlugs(CollectibleSlug, rows) && forall i :: 0 <= i < |rows| ==> Row(rows[i])
  }

  ghost predicate Sound(st: State<Collectible, nat>) {
    && Rows(st.parsed)
    && (forall i :: 0 <= i < |st.parsed| ==> st.parsed[i].slug in st.seen)
    && Numbered(PREFIX, st.seen, st.numbers)
  }

  lemma StepSound(st: State<Collectible, nat>, item: Json)
    requires Sound(st) && Step(st, item).Ok?
    ensures Sound(Step(st, item).value)
  {
    hide Canonical, NumberOf, Advance, DefaultSlug, NameOf, Get, CollectPaths, GateOf;
    if item.Obj? && CollectPaths(item).Some? {
      var slug := SlugOf(item, Default(st.numbers)).value;
      AdvanceNumbered(PREFIX, st.seen, st.numbers, slug);
    }
  }

  lemma {:induction false} FoldSound(items: seq<Json>, k: nat)
    requires k <= |items| && Fold(Step, 1, items, k).Ok?
    ensures Sound(Fold(Step, 1, items, k).value)
  {
    assert Sound(State([], {}, 1));
    hide Step, Sound;
    forall st, item | Sound(st) && Step(st, item).Ok? ensures Sound(Step(st, item).value) {
      StepSound(st, item);
    }
    FoldKeeps(Step, 1, Sound, items, k);
  }

  /** Distinct, nonblank, trimmed slugs; every row can be collected some way. */
  lemma ParsedRows(spec: Json)
    requires Collectibles(spec).Ok?
    ensures Rows(Collectibles(spec).value)
  {
    var items := CollectibleArray(spec);
    if items.Some? {
      FoldSound(items.value, |items.value|);
    }
  }

  // ---- the rows told from the items ----

  /** An item takes a slug and a number if it is an object that can be collected. */
  predicate Counts(item: Json) {
    item.Obj? && CollectPaths(item).Some?
  }

  function RowsOf(item: Json, slug: string): Result<seq<Collectible>, CatalogError> {
    if CollectPaths(item).None? then Ok([]) else
      var name, paths := GetStr(item, "name"), CollectPaths(item).value;
      Ok([Collectible(slug, if name.Some? && Trim(name.value) != "" then Trim(name.value) else slug,
                      paths.collect, paths.zone, GateOf(item), ScoreOf(item))])
  }

  lemma StepIsNumbered()
    ensures NumberedStep(Step, PREFIX, Counts, RowsOf)
  {
    hide CollectPaths, Advance, Trim, Decimal, GateOf, ScoreOf;
  }

  /**
   The items of an array decide its rows: it is accepted if and only if there are slugs,
   one for each item, that every item that can be collected takes before any other - the
   trimmed field, or the default behind the largest number taken before. Its rows are
   those items under those slugs.
   */
  lemma {:induction false} RowsFromItems(spec: Json, slugs: seq<string>)
    requires CollectibleArray(spec).Some? && |slugs| == |CollectibleArray(spec).value|
    requires Numbering(PREFIX, Counts, CollectibleArray(spec).value, slugs)
    ensures Collectibles(spec) == Ok(Listed(Counts, RowsOf, CollectibleArray(spec).value, slugs, |slugs|))
  {
    var items := CollectibleArray(spec).value;
    assert RowsRead(Counts, RowsOf, items, slugs, |items|);
    hide Step, RowsRead, Numbering, NumberedStep, CollectPaths;
    StepIsNumbered();
    NumberedAreRead(Step, PREFIX, Counts, RowsOf, items, slugs, |slugs|);
    hide NextBehind, Listed, TakenBefore;
  }

  lemma ItemsOfRows(spec: Json) returns (slugs: seq<string>)
    requires CollectibleArray(spec).Some? && Collectibles(spec).Ok?
    ensures |slugs| == |CollectibleArray(spec).value|
          && Numbering(PREFIX, Counts, CollectibleArray(spec).value, slugs)
  {
    hide Step, RowsRead, Numbering, NumberedStep, CollectPaths;
    StepIsNumbered();
    slugs := ReadAreNumbered(Step, PREFIX, Counts, RowsOf, CollectibleArray(spec).value,
                             |CollectibleArray(spec).value|);
  }

  /** A refused array is refused for its first item that is blank or too late, and says so. */
  lemma RefusedForItsFirst(spec: Json) returns (slugs: seq<string>)
    requires CollectibleArray(spec).Some? && Collectibles(spec).Err?
    ensures var items := CollectibleArray(spec).value;
            && |slugs| < |items| && Counts(items[|slugs|]) && Numbering(PREFIX, Counts, items, slugs)
            && Refuses(PREFIX, RowsOf, items[|slugs|], TakenBefore(Counts, items, slugs, |slugs|),
                       Collectibles(spec).error)
  {
    hide Step, RowsRead, Numbering, NumberedStep, Refuses, TakenBefore, CollectPaths;
    StepIsNumbered();
    slugs := RefusedForFirst(Step, PREFIX, Counts, RowsOf, CollectibleArray(spec).value,
                             |CollectibleArray(spec).value|);
  }

  /**
   Behind items that are accepted, an item that can be collected and has no slug is refused
   exactly when one of them has taken `Collectible-4294967295`.
   */
  lemma DefaultRefusedIffMaxTaken(items: seq<Json>, slugs: seq<string>, last: Json)
    requires |slugs| == |items| && Numbering(PREFIX, Counts, items, slugs) && Counts(last) && Get(last, "slug") == None
    ensures Collectibles(SpecOf(items + [last])).Err?
       <==> "Collectible-4294967295" in TakenBefore(Counts, items, slugs, |items|)
  {
    SpecOfItems(items + [last]);
    FoldPrefix(Step, 1, items, [last], |items|);
    assert RowsRead(Counts, RowsOf, items, slugs, |items|);
    StepIsNumbered();
    NumberedAreRead(Step, PREFIX, Counts, RowsOf, items, slugs, |items|);
    assert (items + [last])[|items|] == last;
    var st := Fold(Step, 1, items, |items|).value;
    assert Fold(Step, 1, items + [last], |items| + 1) == Step(st, last);
    LargestDefault();
    BehindIsNumbered(PREFIX, st.seen, st.numbers);
    DefaultCollides(PREFIX, st.seen, st.numbers);
    hide Fold, Numbering, RowsRead, NumberedStep, CollectPaths, NextBehind, TakenBefore, Listed, Numbered, NumberOf,
         Decimal, RowOf;
  }

  lemma LargestDefault()
    ensures DefaultSlug(PREFIX, U32_MAX) == "Collectible-4294967295"
  {
    hide Decimal;
    LargestDecimal();
  }

  // ---- appending ----

  /** A spec with these items. */
  function SpecOf(items: seq<Json>): Json {
    Obj(map["collectibles" := Arr(items)])
  }

  lemma SpecOfItems(items: seq<Json>)
    ensures Collectibles(SpecOf(items)) == Parsed(Step, 1, items)
  {
    hide Step;
    assert Get(SpecOf(items), "collectibles") == Some(Arr(items));
  }

  /** Appending items never changes the collectibles before them, and never repairs a refused spec. */
  lemma AppendingKeepsRows(items: seq<Json>, more: seq<Json>)
    ensures Collectibles(SpecOf(items)).Err? ==> Collectibles(SpecOf(items + more)) == Collectibles(SpecOf(items))
    ensures Collectibles(SpecOf(items + more)).Ok? ==>
              && Collectibles(SpecOf(items)).Ok?
              && Collectibles(SpecOf(items)).value <= Collectibles(SpecOf(items + more)).value
  {
    SpecOfItems(items);
    SpecOfItems(items + more);
    hide CollectPaths, SlugOf, Default, RowOf, Advance, Collectibles;
    assert Growing(Step);
    Appending(Step, 1, items, more);
  }

  // ---- reparsing what was parsed ----

  function Gate(c: Collectible): Json {
    if c.gatedBy.Some? then Str(c.gatedBy.value) else Null
  }

  function Score(c: Collectible): Json {
    if c.score.Some? then Num(c.score.value) else Null
  }

  function Zone(c: Collectible): Json {
    if c.zone then Obj(map[]) else Null
  }

  /** A row written out with every field explicit, in the current spelling. */
  function Explicit(c: Collectible): Json {
    Obj(map["slug" := Str(c.slug), "name" := Str(c.name), "collectOnUnlock" := Bool(c.collect), "zone" := Zone(c),
            "gated_by" := Gate(c), "unlock_score" := Score(c)])
  }

  lemma NameFields(c: Collectible)
    ensures Get(Explicit(c), "slug") == Some(Str(c.slug))
    ensures Get(Explicit(c), "name") == Some(Str(c.name))
    ensures Get(Explicit(c), "pickup") == None
  {
    assert "pickup"[0] != "slug"[0] && "pickup"[0] != "name"[0] && "pickup"[0] != "collectOnUnlock"[0]
        && "pickup"[0] != "zone"[0] && "pickup"[0] != "gated_by"[0] && "pickup"[0] != "unlock_score"[0];
  }

  lemma PathFields(c: Collectible)
    ensures Get(Explicit(c), "collectOnUnlock") == Some(Bool(c.collect))
    ensures Get(Explicit(c), "zone") == Some(Zone(c))
  {
  }

  lemma OptionalFields(c: Collectible)
    ensures Get(Explicit(c), "gated_by") == Some(Gate(c))
    ensures Get(Explicit(c), "unlock_score") == Some(Score(c))
  {
  }

  lemma ExplicitPaths(c: Collectible)
    requires Row(c)
    ensures CollectPaths(Explicit(c)) == Some(Paths(c.collect, c.zone))
  {
    NameFields(c);
    PathFields(c);
  }

  lemma ExplicitOptions(c: Collectible)
    requires Row(c)
    ensures GateOf(Explicit(c)) == c.gatedBy && ScoreOf(Explicit(c)) == c.score
  {
    OptionalFields(c);
    if c.gatedBy.Some? {
      TrimKeeps(c.gatedBy.value);
    }
  }

  lemma ExplicitRow(c: Collectible, default: string)
    requires Row(c) && Canonical(default)
    ensures SlugOf(Explicit(c), default) == Ok(c.slug) && RowOf(Explicit(c), c.slug, Paths(c.collect, c.zone)) == c
  {
    NameFields(c);
    TrimKeeps(c.slug);
    TrimKeeps(c.name);
    ExplicitOptions(c);
  }

  lemma ExplicitStep(st: State<Collectible, nat>, c: Collectible)
    requires Row(c) && c.slug !in st.seen
    ensures Step(st, Explicit(c)) == Ok(State(st.parsed + [c], st.seen + {c.slug}, Advance(PREFIX, st.numbers, c.slug)))
  {
    ExplicitPaths(c);
    ExplicitRow(c, Default(st.numbers));
  }

  lemma RowReadsBack(c: Collectible)
    requires Row(c)
    ensures ReadsBack(Step, Explicit, CollectibleSlug, c)
  {
    hide Step, Explicit, Row;
    forall st: State<Collectible, nat> | c.slug !in st.seen
      ensures Step(st, Explicit(c)) ==
              Ok(State(st.parsed + [c], st.seen + {c.slug}, Advance(PREFIX, st.numbers, c.slug)))
    {
      ExplicitStep(st, c);
    }
  }

  /** The rows of a parsed spec, written out explicitly and parsed again, come back unchanged. */
  lemma ReparsingChangesNothing(spec: Json)
    requires Collectibles(spec).Ok?
    ensures Collectibles(SpecOf(WrittenOut(Explicit, Collectibles(spec).value))) == Ok(Collectibles(spec).value)
  {
    var rows := Collectibles(spec).value;
    ParsedRows(spec);
    SpecOfItems(WrittenOut(Explicit, rows));
    hide Step, Explicit, Collectibles, Row, ReadsBack, DistinctSlugs, WrittenOut;
    forall i | 0 <= i < |rows| ensures ReadsBack(Step, Explicit, CollectibleSlug, rows[i]) {
      RowReadsBack(rows[i]);
    }
    ReparsedUnchanged(Step, 1, Explicit, CollectibleSlug, rows);
  }
}
