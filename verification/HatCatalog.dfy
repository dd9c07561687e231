/**
 Parsing `spec.hats[]` (`src/queries/hats.rs`): slugs, default numbering, unlock
 predicates, and the entries that are left out because nothing guards them.
 */
module HatCatalog {
  import opened Common
  import opened JsonText
  import opened CatalogFold
  import opened CatalogNumbering
  import opened CatalogSlugs

  datatype Hat = Hat(slug: string, name: string, finish: bool, uids: seq<string>)

  /** The entries: a bare array, or an array under `items` or `games`. */
  function HatsArray(spec: Json): Option<seq<Json>> {
    var v := Get(spec, "hats");
    if v.None? then None
    else if v.value.Arr? then Some(v.value.items)
    else if GetArr(v.value, "items").Some? then GetArr(v.value, "items")
    else GetArr(v.value, "games")
  }

  /** The entries may stand under `items` or `games`, too. */
  lemma ArraySpellings(items: seq<Json>)
    ensures HatsArray(Obj(map["hats" := Arr(items)])) == Some(items)
    ensures HatsArray(Obj(map["hats" := Obj(map["items" := Arr(items)])])) == Some(items)
    ensures HatsArray(Obj(map["hats" := Obj(map["games" := Arr(items)])])) == Some(items)
  {
  }

  /** `items` is read first, `games` only if that holds no array. */
  lemma ItemsBeforeGames(v: Json, items: seq<Json>)
    ensures HatsArray(Obj(map["hats" := Obj(map["items" := Arr(items), "games" := v])])) == Some(items)
    ensures !v.Arr? ==> HatsArray(Obj(map["hats" := Obj(map["items" := v, "games" := Arr(items)])])) == Some(items)
  {
  }

  // ---- one unlock object ----

  /** The trimmed, nonblank record uids among the first `k` values; a second occurrence is an error. */
  function UidFold(values: seq<Json>, k: nat): (r: Result<seq<string>, CatalogError>)
    requires k <= |values|
    ensures r.Ok? ==> Distinct(r.value) && forall i :: 0 <= i < |r.value| ==> Canonical(r.value[i])
  {
    if k == 0 then Ok([]) else
      var before := UidFold(values, k - 1);
      if before.Err? then before else UidStep(before.value, values[k - 1])
  }

  function UidStep(uids: seq<string>, v: Json): (r: Result<seq<string>, CatalogError>)
    requires Distinct(uids) && forall i :: 0 <= i < |uids| ==> Canonical(uids[i])
    ensures r.Ok? ==> Distinct(r.value) && forall i :: 0 <= i < |r.value| ==> Canonical(r.value[i])
  {
    if !v.Str? || Trim(v.text) == "" then Ok(uids)
    else if Trim(v.text) in uids then Err(DuplicateRecordUid(Trim(v.text)))
    else Ok(uids + [Trim(v.text)])
  }

  datatype Unlock = Unlock(finish: bool, uids: seq<string>)

  function FinishFlag(unlock: Json): bool {
    var v := GetEither(unlock, "finishThisMap", "finish_this_map");
    v.Some? && v.value.Bool? && v.value.flag
  }

  function UidValues(unlock: Json): seq<Json> {
    var v := GetEither(unlock, "recordUids", "record_uids");
    if v.Some? && v.value.Arr? then v.value.items else []
  }

  function UnlockOf(item: Json): Result<Unlock, CatalogError> {
    match Get(item, "unlock")
    case None => Ok(Unlock(false, []))
    case Some(unlock) =>
      var uids := UidFold(UidValues(unlock), |UidValues(unlock)|);
      if uids.Err? then Err(uids.error) else Ok(Unlock(FinishFlag(unlock), uids.value))
  }

  /** Both spellings of the fields of an unlock object mean the same. */
  lemma UnlockSpellings(finish: Json, uids: Json)
    ensures UnlockOf(Obj(map["unlock" := Obj(map["finishThisMap" := finish, "recordUids" := uids])]))
         == UnlockOf(Obj(map["unlock" := Obj(map["finish_this_map" := finish, "record_uids" := uids])]))
  {
    var camel := Obj(map["finishThisMap" := finish, "recordUids" := uids]);
    var snake := Obj(map["finish_this_map" := finish, "record_uids" := uids]);
    assert FinishFlag(camel) == FinishFlag(snake) && UidValues(camel) == UidValues(snake);
    assert Get(Obj(map["unlock" := camel]), "unlock") == Some(camel);
    assert Get(Obj(map["unlock" := snake]), "unlock") == Some(snake);
    hide FinishFlag, UidValues;
  }

  method ParseUnlock(item: Json) returns (r: Result<Unlock, CatalogError>)
    ensures r == UnlockOf(item)
  {
    var unlock := Get(item, "unlock");
    if unlock.None? {
      return Ok(Unlock(false, []));
    }
    var values := UidValues(unlock.value);
    var uids: seq<string> := [];
    var seen: set<string> := {};
    var i := 0;
    while i < |values|
      invariant 0 <= i <= |values|
      invariant UidFold(values, i) == Ok(uids)
      invariant forall uid :: uid in seen <==> uid in uids
    {
      if values[i].Str? && Trim(values[i].text) != "" {
        var uid := Trim(values[i].text);
        if uid in seen {
          UidErrorStays(values, i + 1);
          return Err(DuplicateRecordUid(uid));
        }
        seen := seen + {uid};
        uids := uids + [uid];
      }
      i := i + 1;
    }
    return Ok(Unlock(FinishFlag(unlock.value), uids));
  }

  lemma {:induction false} UidErrorStays(values: seq<Json>, k: nat)
    requires k <= |values| && UidFold(values, k).Err?
    ensures UidFold(values, |values|) == UidFold(values, k)
    decreases |values| - k
  {
    if k < |values| {
      UidErrorStays(values, k + 1);
    }
  }

  // ---- the whole array ----

  const PREFIX := "Hat-"

  function Default(next: nat): (slug: string)
    ensures Canonical(slug)
  {
    DefaultCanonical(PREFIX, next);
    DefaultSlug(PREFIX, next)
  }

  function HatSlug(h: Hat): string {
    h.slug
  }

  /** One entry. An entry nothing guards still takes its slug and its number. */
  function Step(st: State<Hat, nat>, item: Json): Folded<Hat, nat> {
    if !item.Obj? then Ok(st) else
      match SlugOf(item, Default(st.numbers))
      case Err(e) => Err(e)
      case Ok(slug) =>
        if slug in st.seen then Err(DuplicateSlug(slug)) else
          match UnlockOf(item)
          case Err(e) => Err(e)
          case Ok(unlock) =>
            var parsed := if !unlock.finish && unlock.uids == [] then st.parsed
                          else st.parsed + [Hat(slug, NameOf(item, slug), unlock.finish, unlock.uids)];
            Ok(State(parsed, st.seen + {slug}, Advance(PREFIX, st.numbers, slug)))
  }

  /** `parse_catalog_hats`. */
  function Hats(spec: Json): Result<seq<Hat>, CatalogError> {
    var items := HatsArray(spec);
    if items.None? then Ok([]) else Parsed(Step, 1, items.value)
  }

  method ParseCatalogHats(spec: Json) returns (r: Result<seq<Hat>, CatalogError>)
    ensures r == Hats(spec)
  {
    hide SlugOf, Default, NameOf, UnlockOf;
    var found := HatsArray(spec);
    if found.None? {
      return Ok([]);
    }
    var items := found.value;
    var parsed: seq<Hat> := [];
    var seen: set<string> := {};
    var nextDefault := 1;
    var i := 0;
    while i < |items|
      invariant 0 <= i <= |items|
      invariant Fold(Step, 1, items, i) == Ok(State(parsed, seen, nextDefault))
    {
      var item := items[i];
      if item.Obj? {
        var slug := SlugOf(item, Default(nextDefault));
        if slug.Err? {
          ErrorStays(Step, 1, items, i + 1);
          return Err(slug.error);
        }
        if slug.value in seen {
          ErrorStays(Step, 1, items, i + 1);
          return Err(DuplicateSlug(slug.value));
        }
        var unlock := ParseUnlock(item);
        if unlock.Err? {
          ErrorStays(Step, 1, items, i + 1);
          return Err(unlock.error);
        }
        nextDefault := Advance(PREFIX, nextDefault, slug.value);
        seen := seen + {slug.value};
        if unlock.value.finish || unlock.value.uids != [] {
          parsed := parsed + [Hat(slug.value, NameOf(item, slug.value), unlock.value.finish, unlock.value.uids)];
        }
      }
      i := i + 1;
    }
    return Ok(parsed);
  }

  // ---- what a successful parse guarantees ----

  /** A row whose own explicit form would be read back unchanged. */
  ghost predicate Row(h: Hat) {
    && Canonical(h.slug) && Canonical(h.name)
    && Distinct(h.uids) && (forall i :: 0 <= i < |h.uids| ==> Canonical(h.uids[i]))
    && (h.finish || h.uids != [])
  }

  ghost predicate Rows(hats: seq<Hat>) {
    DistinctSlugs(HatSlug, hats) && forall i :: 0 <= i < |hats| ==> Row(hats[i])
  }

  ghost predicate Sound(st: State<Hat, nat>) {
    && Rows(st.parsed)
    && (forall i :: 0 <= i < |st.parsed| ==> st.parsed[i].slug in st.seen)
    && Numbered(PREFIX, st.seen, st.numbers)
  }

  lemma StepSound(st: State<Hat, nat>, item: Json)
    requires Sound(st) && Step(st, item).Ok?
    ensures Sound(Step(st, item).value)
  {
    hide Canonical, NumberOf, Advance, DefaultSlug, NameOf, Get;
    if item.Obj? {
      var slug := SlugOf(item, Default(st.numbers)).value;
      AdvanceNumbered(PREFIX, st.seen, st.numbers, slug);
    }
  }

  lemma {:induction false} FoldSound(items: seq<Json>, k: nat)
    requires k <= |items| && Fold(Step, 1, items, k).Ok?
    ensures Sound(Fold(Step, 1, items, k).value)
  {
    assert Sound(State([], {}, 1));
    hide Step, Sound;
    forall st, item | Sound(st) && Step(st, item).Ok? ensures Sound(Step(st, item).value) {
      StepSound(st, item);
    }
    FoldKeeps(Step, 1, Sound, items, k);
  }

  /** Distinct, nonblank, trimmed slugs; every row is guarded by something and its uids are distinct. */
  lemma ParsedRows(spec: Json)
    requires Hats(spec).Ok?
    ensures Rows(Hats(spec).value)
  {
    var items := HatsArray(spec);
    if items.Some? {
      FoldSound(items.value, |items.value|);
    }
  }

  lemma {:induction false} UidErrorIsUid(values: seq<Json>, k: nat)
    requires k <= |values| && UidFold(values, k).Err?
    ensures UidFold(values, k).error.DuplicateRecordUid?
  {
    if k > 0 && UidFold(values, k - 1).Err? {
      UidErrorIsUid(values, k - 1);
    }
  }

  lemma UnlockErrorIsUid(item: Json)
    ensures UnlockOf(item).Err? ==> UnlockOf(item).error.DuplicateRecordUid?
  {
    if UnlockOf(item).Err? {
      var values := UidValues(Get(item, "unlock").value);
      UidErrorIsUid(values, |values|);
    }
  }

  // ---- the rows told from the entries ----

  /** An entry takes a slug and a number if it is an object, whether anything guards it or not. */
  predicate Counts(item: Json) {
    item.Obj?
  }

  /** The row of an entry: none if nothing guards it. */
  function RowsOf(item: Json, slug: string): Result<seq<Hat>, CatalogError> {
    match UnlockOf(item)
    case Err(e) => Err(e)
    case Ok(unlock) =>
      var name := GetStr(item, "name");
      if !unlock.finish && unlock.uids == [] then Ok([])
      else Ok([Hat(slug, if name.Some? && Trim(name.value) != "" then Trim(name.value) else slug,
                   unlock.finish, unlock.uids)])
  }

  lemma StepIsNumbered()
    ensures NumberedStep(Step, PREFIX, Counts, RowsOf)
  {
    hide UnlockOf, Advance, Trim, Decimal;
    assert forall st: State<Hat, nat> :: st.parsed + [] == st.parsed;
  }

  /** The nonblank strings among the first values, trimmed, in their order. */
  function Uids(values: seq<Json>, k: nat): seq<string>
    requires k <= |values|
  {
    if k == 0 then []
    else Uids(values, k - 1)
         + if values[k - 1].Str? && Trim(values[k - 1].text) != "" then [Trim(values[k - 1].text)] else []
  }

  /** An unlock object is refused if and only if a record uid occurs twice in it, and names the first that does. */
  lemma {:induction false} UidsRead(values: seq<Json>, k: nat)
    requires k <= |values|
    ensures UidFold(values, k).Ok? <==> Distinct(Uids(values, k))
    ensures UidFold(values, k).Ok? ==> UidFold(values, k).value == Uids(values, k)
    ensures UidFold(values, k).Err? ==>
              exists j :: 0 <= j < k && values[j].Str? && Trim(values[j].text) in Uids(values, j)
                          && Distinct(Uids(values, j))
                          && UidFold(values, k) == Err(DuplicateRecordUid(Trim(values[j].text)))
  {
    hide Trim;
    if k > 0 {
      UidsRead(values, k - 1);
      var before, after := Uids(values, k - 1), Uids(values, k);
      if !Distinct(before) {
        NotDistinctStays(before, after[|before|..]);
        assert after == before + after[|before|..];
      } else if values[k - 1].Str? && Trim(values[k - 1].text) != "" {
        DistinctGrows(before, Trim(values[k - 1].text));
      } else {
        assert after == before;
      }
    }
  }

  lemma NotDistinctStays(s: seq<string>, more: seq<string>)
    requires !Distinct(s)
    ensures !Distinct(s + more)
  {
    var i, j :| 0 <= i < j < |s| && s[i] == s[j];
    assert (s + more)[i] == (s + more)[j];
  }

  lemma DistinctGrows(s: seq<string>, x: string)
    requires Distinct(s)
    ensures Distinct(s + [x]) <==> x !in s
  {
    if x in s {
      var i :| 0 <= i < |s| && s[i] == x;
      assert (s + [x])[i] == (s + [x])[|s|];
    }
  }

  /**
   The entries of an array decide its rows: it is accepted if and only if there are slugs,
   one for each entry, that every object entry takes before anybody else - the trimmed
   field, or the default behind the largest number taken before, by guarded and unguarded
   entries alike - and no entry repeats a record uid. Its rows are the guarded entries
   under those slugs.
   */
  lemma {:induction false} RowsFromEntries(spec: Json, slugs: seq<string>)
    requires HatsArray(spec).Some? && |slugs| == |HatsArray(spec).value|
    requires var items := HatsArray(spec).value;
             Numbering(PREFIX, Counts, items, slugs) && RowsRead(Counts, RowsOf, items, slugs, |items|)
    ensures Hats(spec) == Ok(Listed(Counts, RowsOf, HatsArray(spec).value, slugs, |slugs|))
  {
    hide Step, RowsRead, Numbering, NumberedStep;
    StepIsNumbered();
    NumberedAreRead(Step, PREFIX, Counts, RowsOf, HatsArray(spec).value, slugs, |slugs|);
    hide NextBehind, Listed, TakenBefore;
  }

  lemma EntriesOfRows(spec: Json) returns (slugs: seq<string>)
    requires HatsArray(spec).Some? && Hats(spec).Ok?
    ensures var items := HatsArray(spec).value;
            |slugs| == |items| && Numbering(PREFIX, Counts, items, slugs)
            && RowsRead(Counts, RowsOf, items, slugs, |items|)
  {
    hide Step, RowsRead, Numbering, NumberedStep;
    StepIsNumbered();
    slugs := ReadAreNumbered(Step, PREFIX, Counts, RowsOf, HatsArray(spec).value, |HatsArray(spec).value|);
  }

  /** A refused array is refused for its first entry that is blank, too late, or repeats a uid, and says so. */
  lemma RefusedForItsFirst(spec: Json) returns (slugs: seq<string>)
    requires HatsArray(spec).Some? && Hats(spec).Err?
    ensures var items := HatsArray(spec).value;
            && |slugs| < |items| && Counts(items[|slugs|]) && Numbering(PREFIX, Counts, items, slugs)
            && RowsRead(Counts, RowsOf, items, slugs, |slugs|)
            && Refuses(PREFIX, RowsOf, items[|slugs|], TakenBefore(Counts, items, slugs, |slugs|), Hats(spec).error)
  {
    hide Step, RowsRead, Numbering, NumberedStep, Refuses, TakenBefore;
    StepIsNumbered();
    slugs := RefusedForFirst(Step, PREFIX, Counts, RowsOf, HatsArray(spec).value, |HatsArray(spec).value|);
  }

  /**
   Behind entries that are accepted, an entry without a slug is refused for its slug
   exactly when one of them, guarded or not, has taken `Hat-4294967295`.
   */
  lemma DefaultRefusedIffMaxTaken(items: seq<Json>, slugs: seq<string>, last: Json)
    requires |slugs| == |items| && Numbering(PREFIX, Counts, items, slugs)
    requires RowsRead(Counts, RowsOf, items, slugs, |items|) && last.Obj? && Get(last, "slug") == None
    ensures (Hats(SpecOf(items + [last])).Err? && Hats(SpecOf(items + [last])).error.DuplicateSlug?)
       <==> "Hat-4294967295" in TakenBefore(Counts, items, slugs, |items|)
  {
    hide Fold, Numbering, RowsRead, NumberedStep, TakenBefore, Listed, Hats, UnlockOf;
    StepIsNumbered();
    NumberedAreRead(Step, PREFIX, Counts, RowsOf, items, slugs, |items|);
    OneMoreParsed(items, last);
    MaxRefuses(Fold(Step, 1, items, |items|).value, last);
    hide Step, NextBehind;
  }

  lemma {:induction false} OneMoreParsed(items: seq<Json>, last: Json)
    requires Fold(Step, 1, items, |items|).Ok?
    ensures Hats(SpecOf(items + [last])) ==
            match Step(Fold(Step, 1, items, |items|).value, last)
            case Err(e) => Err(e)
            case Ok(st) => Ok(st.parsed)
  {
    SpecOfItems(items + [last]);
    FoldPrefix(Step, 1, items, [last], |items|);
    assert (items + [last])[|items|] == last;
    hide Step, Hats;
  }

  lemma MaxRefuses(st: State<Hat, nat>, last: Json)
    requires last.Obj? && Get(last, "slug") == None && NextBehind(PREFIX, st.seen, st.numbers)
    ensures (Step(st, last).Err? && Step(st, last).error.DuplicateSlug?) <==> "Hat-4294967295" in st.seen
  {
    LargestDefault();
    BehindIsNumbered(PREFIX, st.seen, st.numbers);
    DefaultCollides(PREFIX, st.seen, st.numbers);
    UnlockErrorIsUid(last);
    hide UnlockOf, NextBehind, Numbered, NumberOf, Decimal, Trim, Canonical;
  }

  lemma LargestDefault()
    ensures DefaultSlug(PREFIX, U32_MAX) == "Hat-4294967295"
  {
    hide Decimal;
    LargestDecimal();
  }

  // ---- appending ----

  /** A spec with these entries. */
  function SpecOf(items: seq<Json>): Json {
    Obj(map["hats" := Arr(items)])
  }

  lemma SpecOfItems(items: seq<Json>)
    ensures Hats(SpecOf(items)) == Parsed(Step, 1, items)
  {
    hide Step;
    assert Get(SpecOf(items), "hats") == Some(Arr(items));
  }

  /** Appending entries never changes the hats before them, and never repairs a refused spec. */
  lemma AppendingKeepsRows(items: seq<Json>, more: seq<Json>)
    ensures Hats(SpecOf(items)).Err? ==> Hats(SpecOf(items + more)) == Hats(SpecOf(items))
    ensures Hats(SpecOf(items + more)).Ok? ==>
              Hats(SpecOf(items)).Ok? && Hats(SpecOf(items)).value <= Hats(SpecOf(items + more)).value
  {
    SpecOfItems(items);
    SpecOfItems(items + more);
    hide UnlockOf, SlugOf, Default, NameOf, Advance, Hats;
    assert Growing(Step);
    Appending(Step, 1, items, more);
  }

  // ---- reparsing what was parsed ----

  function Strings(uids: seq<string>): (r: seq<Json>)
    ensures |r| == |uids| && forall i :: 0 <= i < |r| ==> r[i] == Str(uids[i])
  {
    if uids == [] then [] else Strings(uids[..|uids| - 1]) + [Str(uids[|uids| - 1])]
  }

  function UnlockField(h: Hat): Json {
    Obj(map["finishThisMap" := Bool(h.finish), "recordUids" := Arr(Strings(h.uids))])
  }

  /** A row written out with every field explicit. */
  function Explicit(h: Hat): Json {
    Obj(map["slug" := Str(h.slug), "name" := Str(h.name), "unlock" := UnlockField(h)])
  }

  lemma {:induction false} StringsRead(uids: seq<string>, k: nat)
    requires k <= |uids| && Distinct(uids) && forall i :: 0 <= i < |uids| ==> Canonical(uids[i])
    ensures UidFold(Strings(uids), k) == Ok(uids[..k])
  {
    if k > 0 {
      StringsRead(uids, k - 1);
      TrimKeeps(uids[k - 1]);
      assert uids[..k] == uids[..k - 1] + [uids[k - 1]];
    }
  }

  lemma ExplicitFields(h: Hat)
    ensures Get(Explicit(h), "slug") == Some(Str(h.slug))
    ensures Get(Explicit(h), "name") == Some(Str(h.name))
    ensures Get(Explicit(h), "unlock") == Some(UnlockField(h))
  {
  }

  lemma UnlockFields(h: Hat)
    ensures FinishFlag(UnlockField(h)) == h.finish
    ensures UidValues(UnlockField(h)) == Strings(h.uids)
  {
  }

  lemma ExplicitUnlock(h: Hat)
    requires Row(h)
    ensures UnlockOf(Explicit(h)) == Ok(Unlock(h.finish, h.uids))
  {
    StringsRead(h.uids, |h.uids|);
    assert h.uids[..|h.uids|] == h.uids;
    ExplicitFields(h);
    UnlockFields(h);
    UnlockFrom(Explicit(h), UnlockField(h));
  }

  lemma UnlockFrom(item: Json, unlock: Json)
    requires Get(item, "unlock") == Some(unlock)
    ensures UidFold(UidValues(unlock), |UidValues(unlock)|).Ok? ==>
              UnlockOf(item) == Ok(Unlock(FinishFlag(unlock), UidFold(UidValues(unlock), |UidValues(unlock)|).value))
  {
  }

  lemma ExplicitSlugAndName(h: Hat, default: string)
    requires Row(h) && Canonical(default)
    ensures SlugOf(Explicit(h), default) == Ok(h.slug) && NameOf(Explicit(h), h.slug) == h.name
  {
    TrimKeeps(h.slug);
    TrimKeeps(h.name);
    ExplicitFields(h);
  }

  lemma ExplicitStep(st: State<Hat, nat>, h: Hat)
    requires Row(h) && h.slug !in st.seen
    ensures Step(st, Explicit(h)) == Ok(State(st.parsed + [h], st.seen + {h.slug}, Advance(PREFIX, st.numbers, h.slug)))
  {
    ExplicitUnlock(h);
    ExplicitSlugAndName(h, Default(st.numbers));
  }

  lemma RowReadsBack(h: Hat)
    requires Row(h)
    ensures ReadsBack(Step, Explicit, HatSlug, h)
  {
    hide Step, Explicit, Row;
    forall st: State<Hat, nat> | h.slug !in st.seen
      ensures Step(st, Explicit(h)) ==
              Ok(State(st.parsed + [h], st.seen + {h.slug}, Advance(PREFIX, st.numbers, h.slug)))
    {
      ExplicitStep(st, h);
    }
  }

  /** Sound rows written out are read as they are. */
  lemma {:induction false} WrittenOutReads(hats: seq<Hat>)
    requires Rows(hats)
    ensures Hats(SpecOf(WrittenOut(Explicit, hats))) == Ok(hats)
  {
    SpecOfItems(WrittenOut(Explicit, hats));
    hide Step, Explicit, Hats, Row, ReadsBack, DistinctSlugs, WrittenOut;
    forall i | 0 <= i < |hats| ensures ReadsBack(Step, Explicit, HatSlug, hats[i]) {
      RowReadsBack(hats[i]);
    }
    ReparsedUnchanged(Step, 1, Explicit, HatSlug, hats);
  }

  /** The rows of a parsed spec, written out explicitly and parsed again, come back unchanged. */
  lemma ReparsingChangesNothing(spec: Json)
    requires Hats(spec).Ok?
    ensures Hats(SpecOf(WrittenOut(Explicit, Hats(spec).value))) == Ok(Hats(spec).value)
  {
    ParsedRows(spec);
    hide Hats;
    WrittenOutReads(Hats(spec).value);
  }
}
