/**
 Which slugs the entries of a catalog take, told from the entries alone: spelt out, or the
 default numbered behind the largest number taken before. Hats and collectibles are parsed
 by steps of this shape; the facts are proved once, for any of them.
 */
module CatalogNumbering {
  import opened Common
  import opened JsonText
  import opened CatalogSlugs
  import opened CatalogFold

  /** One above the largest number taken so far: 1 if none is, and u32::MAX at the top. */
  ghost predicate NextBehind(prefix: string, taken: set<string>, n: nat) {
    && 1 <= n <= U32_MAX
    && (forall slug :: slug in taken && NumberOf(prefix, slug).Some? ==>
          NumberOf(prefix, slug).value < n || n == U32_MAX)
    && (n == 1 || exists slug :: slug in taken && NumberOf(prefix, slug).Some?
                                 && (NumberOf(prefix, slug).value + 1 == n
                                     || NumberOf(prefix, slug).value == n == U32_MAX))
  }

  lemma NextUnique(prefix: string, taken: set<string>, n: nat, n': nat)
    requires NextBehind(prefix, taken, n) && NextBehind(prefix, taken, n')
    ensures n == n'
  {
    hide NumberOf;
  }

  lemma AdvanceBehind(prefix: string, taken: set<string>, n: nat, slug: string)
    requires NextBehind(prefix, taken, n)
    ensures NextBehind(prefix, taken + {slug}, Advance(prefix, n, slug))
  {
    NumberFits(prefix, slug);
    hide NumberOf;
    var n' := Advance(prefix, n, slug);
    if n' == n && n > 1 && n' != 1 {
      var old_ :| old_ in taken && NumberOf(prefix, old_).Some?
                  && (NumberOf(prefix, old_).value + 1 == n || NumberOf(prefix, old_).value == n == U32_MAX);
      assert old_ in taken + {slug};
    } else if n' != n {
      assert slug in taken + {slug};
    }
  }

  lemma NumberFits(prefix: string, slug: string)
    ensures NumberOf(prefix, slug).Some? ==> NumberOf(prefix, slug).value <= U32_MAX
  {
  }

  lemma BehindIsNumbered(prefix: string, taken: set<string>, n: nat)
    requires NextBehind(prefix, taken, n)
    ensures Numbered(prefix, taken, n)
  {
  }

  // ---- entries and their slugs ----

  /** The entry takes this slug behind those: the trimmed field, or the next default. */
  ghost predicate Takes(prefix: string, item: Json, taken: set<string>, slug: string) {
    match Get(item, "slug")
    case None => exists n :: NextBehind(prefix, taken, n) && slug == prefix + Decimal(n)
    case Some(value) => value.Str? && slug == Trim(value.text) && slug != ""
  }

  /** The slugs of the entries that count, before this one. */
  function TakenBefore(counts: Json -> bool, items: seq<Json>, slugs: seq<string>, k: nat): set<string>
    requires k <= |items| && k <= |slugs|
  {
    set j | 0 <= j < k && counts(items[j]) :: slugs[j]
  }

  /** Each entry that counts takes its slug, and takes it first. */
  ghost predicate Numbering(prefix: string, counts: Json -> bool, items: seq<Json>, slugs: seq<string>) {
    && |slugs| <= |items|
    && forall i :: 0 <= i < |slugs| && counts(items[i]) ==>
         var taken := TakenBefore(counts, items, slugs, i);
         Takes(prefix, items[i], taken, slugs[i]) && slugs[i] !in taken
  }

  /** The rows of the entries so far; an entry that counts may still give none. */
  function Listed<R>(counts: Json -> bool, rowsOf: (Json, string) -> Result<seq<R>, CatalogError>,
                     items: seq<Json>, slugs: seq<string>, k: nat): seq<R>
    requires k <= |items| && k <= |slugs|
  {
    if k == 0 then [] else
      Listed(counts, rowsOf, items, slugs, k - 1)
      + if counts(items[k - 1]) && rowsOf(items[k - 1], slugs[k - 1]).Ok? then rowsOf(items[k - 1], slugs[k - 1]).value
        else []
  }

  /** No entry so far is refused for anything but its slug. */
  ghost predicate RowsRead<R>(counts: Json -> bool, rowsOf: (Json, string) -> Result<seq<R>, CatalogError>,
                              items: seq<Json>, slugs: seq<string>, k: nat)
    requires k <= |items| && k <= |slugs|
  {
    forall i :: 0 <= i < k && counts(items[i]) ==> rowsOf(items[i], slugs[i]).Ok?
  }

  function SlugIn(prefix: string, item: Json, n: nat): string {
    match Get(item, "slug")
    case Some(Str(text)) => Trim(text)
    case _ => DefaultSlug(prefix, n)
  }

  /** The shape of a parser's step. */
  ghost predicate NumberedStep<R(!new)>(step: (State<R, nat>, Json) -> Folded<R, nat>, prefix: string,
                                        counts: Json -> bool, rowsOf: (Json, string) -> Result<seq<R>, CatalogError>)
  {
    forall st: State<R, nat>, item: Json ::
      step(st, item) ==
      if !counts(item) then Ok(st)
      else if BlankSlugIn(item) then Err(BlankSlug)
      else
        var slug := SlugIn(prefix, item, st.numbers);
        if slug in st.seen then Err(DuplicateSlug(slug))
        else
          match rowsOf(item, slug)
          case Err(e) => Err(e)
          case Ok(rows) => Ok(State(st.parsed + rows, st.seen + {slug}, Advance(prefix, st.numbers, slug)))
  }

  lemma TakesIsSlugIn(prefix: string, item: Json, taken: set<string>, n: nat, slug: string)
    requires NextBehind(prefix, taken, n)
    ensures Takes(prefix, item, taken, slug) <==> !BlankSlugIn(item) && slug == SlugIn(prefix, item, n)
  {
    if Get(item, "slug").None? {
      if exists n' :: NextBehind(prefix, taken, n') && slug == prefix + Decimal(n') {
        var n' :| NextBehind(prefix, taken, n') && slug == prefix + Decimal(n');
        NextUnique(prefix, taken, n, n');
      }
    }
    hide NextBehind;
  }

  lemma TakenGrows(counts: Json -> bool, items: seq<Json>, slugs: seq<string>, k: nat)
    requires k < |items| && k < |slugs|
    ensures TakenBefore(counts, items, slugs, k + 1)
         == TakenBefore(counts, items, slugs, k) + if counts(items[k]) then {slugs[k]} else {}
  {
  }

  /** The state of the fold is what the entries say. */
  ghost predicate Reads<R>(prefix: string, counts: Json -> bool, rowsOf: (Json, string) -> Result<seq<R>, CatalogError>,
                           items: seq<Json>, slugs: seq<string>, k: nat, st: Folded<R, nat>)
    requires k <= |items| && k <= |slugs|
  {
    && st.Ok?
    && st.value.parsed == Listed(counts, rowsOf, items, slugs, k)
    && st.value.seen == TakenBefore(counts, items, slugs, k)
    && NextBehind(prefix, st.value.seen, st.value.numbers)
  }

  lemma StepReads<R(!new)>(step: (State<R, nat>, Json) -> Folded<R, nat>, prefix: string, counts: Json -> bool,
                           rowsOf: (Json, string) -> Result<seq<R>, CatalogError>,
                           items: seq<Json>, slugs: seq<string>, k: nat, st: State<R, nat>)
    requires NumberedStep(step, prefix, counts, rowsOf) && k < |items| && k < |slugs|
    requires Reads(prefix, counts, rowsOf, items, slugs, k, Ok(st))
    requires counts(items[k]) ==>
               && Takes(prefix, items[k], TakenBefore(counts, items, slugs, k), slugs[k])
               && slugs[k] !in TakenBefore(counts, items, slugs, k) && rowsOf(items[k], slugs[k]).Ok?
    ensures Reads(prefix, counts, rowsOf, items, slugs, k + 1, step(st, items[k]))
  {
    TakenGrows(counts, items, slugs, k);
    assert step(st, items[k]) == step(st, items[k]);
    hide NextBehind, TakenBefore, Takes, BlankSlugIn, SlugIn;
    if counts(items[k]) {
      TakesIsSlugIn(prefix, items[k], st.seen, st.numbers, slugs[k]);
      AdvanceBehind(prefix, st.seen, st.numbers, slugs[k]);
    }
  }

  /** Entries that take their slugs and are refused for nothing else are read as their rows. */
  lemma {:induction false} NumberedAreRead<R(!new)>(step: (State<R, nat>, Json) -> Folded<R, nat>, prefix: string,
                                                    counts: Json -> bool,
                                                    rowsOf: (Json, string) -> Result<seq<R>, CatalogError>,
                                                    items: seq<Json>, slugs: seq<string>, k: nat)
    requires NumberedStep(step, prefix, counts, rowsOf) && k <= |slugs| && Numbering(prefix, counts, items, slugs)
    requires RowsRead(counts, rowsOf, items, slugs, k)
    ensures Reads(prefix, counts, rowsOf, items, slugs, k, Fold(step, 1, items, k))
  {
    assert |slugs| <= |items|;
    hide NumberedStep, Takes, NextBehind, TakenBefore, Numbering, RowsRead, Listed, Reads;
    if k == 0 {
      NothingRead(prefix, counts, rowsOf, items, slugs);
    } else {
      EntryAt(prefix, counts, rowsOf, items, slugs, k - 1);
      NumberedAreRead(step, prefix, counts, rowsOf, items, slugs, k - 1);
      ReadsIsOk(prefix, counts, rowsOf, items, slugs, k - 1, Fold(step, 1, items, k - 1));
      StepReads(step, prefix, counts, rowsOf, items, slugs, k - 1, Fold(step, 1, items, k - 1).value);
    }
  }

  lemma ReadsIsOk<R>(prefix: string, counts: Json -> bool, rowsOf: (Json, string) -> Result<seq<R>, CatalogError>,
                     items: seq<Json>, slugs: seq<string>, k: nat, st: Folded<R, nat>)
    requires k <= |items| && k <= |slugs| && Reads(prefix, counts, rowsOf, items, slugs, k, st)
    ensures st.Ok?
  {
  }

  lemma NothingRead<R>(prefix: string, counts: Json -> bool, rowsOf: (Json, string) -> Result<seq<R>, CatalogError>,
                       items: seq<Json>, slugs: seq<string>)
    ensures Reads(prefix, counts, rowsOf, items, slugs, 0, Ok(State([], {}, 1)))
  {
    NothingTaken(prefix, counts, items, slugs);
  }

  lemma EntryAt<R>(prefix: string, counts: Json -> bool, rowsOf: (Json, string) -> Result<seq<R>, CatalogError>,
                   items: seq<Json>, slugs: seq<string>, k: nat)
    requires k < |slugs| && Numbering(prefix, counts, items, slugs)
    requires RowsRead(counts, rowsOf, items, slugs, k + 1)
    ensures RowsRead(counts, rowsOf, items, slugs, k)
    ensures counts(items[k]) ==>
              && Takes(prefix, items[k], TakenBefore(counts, items, slugs, k), slugs[k])
              && slugs[k] !in TakenBefore(counts, items, slugs, k) && rowsOf(items[k], slugs[k]).Ok?
  {
    hide Takes, TakenBefore;
  }

  lemma NothingTaken(prefix: string, counts: Json -> bool, items: seq<Json>, slugs: seq<string>)
    ensures TakenBefore(counts, items, slugs, 0) == {} && NextBehind(prefix, {}, 1)
  {
  }

  lemma TakenPrefix(counts: Json -> bool, items: seq<Json>, slugs: seq<string>, slug: string, k: nat)
    requires k <= |slugs| <= |items|
    ensures TakenBefore(counts, items, slugs + [slug], k) == TakenBefore(counts, items, slugs, k)
  {
    assert forall j :: 0 <= j < k ==> (slugs + [slug])[j] == slugs[j];
  }

  lemma OneMoreSlug(prefix: string, counts: Json -> bool, items: seq<Json>, slugs: seq<string>, slug: string)
    requires Numbering(prefix, counts, items, slugs) && |slugs| < |items|
    requires var taken := TakenBefore(counts, items, slugs, |slugs|);
             counts(items[|slugs|]) ==> Takes(prefix, items[|slugs|], taken, slug) && slug !in taken
    ensures Numbering(prefix, counts, items, slugs + [slug])
  {
    hide Takes;
    forall i | 0 <= i <= |slugs|
      ensures TakenBefore(counts, items, slugs + [slug], i) == TakenBefore(counts, items, slugs, i)
    {
      TakenPrefix(counts, items, slugs, slug, i);
    }
    hide TakenBefore;
  }

  lemma OneMoreRow<R>(counts: Json -> bool, rowsOf: (Json, string) -> Result<seq<R>, CatalogError>,
                      items: seq<Json>, slugs: seq<string>, slug: string)
    requires |slugs| < |items| && RowsRead(counts, rowsOf, items, slugs, |slugs|)
    requires counts(items[|slugs|]) ==> rowsOf(items[|slugs|], slug).Ok?
    ensures RowsRead(counts, rowsOf, items, slugs + [slug], |slugs| + 1)
  {
  }

  /** Conversely what is read without an error takes its slugs. */
  lemma {:induction false} ReadAreNumbered<R(!new)>(step: (State<R, nat>, Json) -> Folded<R, nat>, prefix: string,
                                                    counts: Json -> bool,
                                                    rowsOf: (Json, string) -> Result<seq<R>, CatalogError>,
                                                    items: seq<Json>, k: nat)
    returns (slugs: seq<string>)
    requires NumberedStep(step, prefix, counts, rowsOf) && k <= |items| && Fold(step, 1, items, k).Ok?
    ensures |slugs| == k && Numbering(prefix, counts, items, slugs) && RowsRead(counts, rowsOf, items, slugs, k)
  {
    slugs := [];
    if k > 0 {
      slugs := ReadAreNumbered(step, prefix, counts, rowsOf, items, k - 1);
      NumberedAreRead(step, prefix, counts, rowsOf, items, slugs, k - 1);
      var st, item := Fold(step, 1, items, k - 1).value, items[k - 1];
      var slug := SlugIn(prefix, item, st.numbers);
      assert step(st, item).Ok?;
      hide RowsRead, Numbering, NextBehind, TakenBefore, Takes, BlankSlugIn, SlugIn;
      TakesIsSlugIn(prefix, item, st.seen, st.numbers, slug);
      OneMoreSlug(prefix, counts, items, slugs, slug);
      OneMoreRow(counts, rowsOf, items, slugs, slug);
      slugs := slugs + [slug];
    }
  }

  /** Why an entry is refused behind these slugs. */
  ghost predicate Refuses<R>(prefix: string, rowsOf: (Json, string) -> Result<seq<R>, CatalogError>,
                             item: Json, taken: set<string>, e: CatalogError)
  {
    if BlankSlugIn(item) then e == BlankSlug
    else exists slug :: Takes(prefix, item, taken, slug)
                        && if slug in taken then e == DuplicateSlug(slug) else rowsOf(item, slug) == Err(e)
  }

  /** An array is refused for its first entry that is, and for that entry's reason. */
  lemma {:induction false} RefusedForFirst<R(!new)>(step: (State<R, nat>, Json) -> Folded<R, nat>, prefix: string,
                                                    counts: Json -> bool,
                                                    rowsOf: (Json, string) -> Result<seq<R>, CatalogError>,
                                                    items: seq<Json>, n: nat)
    returns (slugs: seq<string>)
    requires NumberedStep(step, prefix, counts, rowsOf) && n <= |items| && Fold(step, 1, items, n).Err?
    ensures |slugs| < |items| && counts(items[|slugs|]) && Numbering(prefix, counts, items, slugs)
    ensures RowsRead(counts, rowsOf, items, slugs, |slugs|)
    ensures Refuses(prefix, rowsOf, items[|slugs|], TakenBefore(counts, items, slugs, |slugs|),
                    Fold(step, 1, items, n).error)
  {
    hide NumberedStep, RowsRead, Numbering, TakenBefore, Refuses;
    if Fold(step, 1, items, n - 1).Err? {
      slugs := RefusedForFirst(step, prefix, counts, rowsOf, items, n - 1);
    } else {
      slugs := ReadAreNumbered(step, prefix, counts, rowsOf, items, n - 1);
      NumberedAreRead(step, prefix, counts, rowsOf, items, slugs, n - 1);
      hide NextBehind, Listed;
      StepRefuses(step, prefix, counts, rowsOf, Fold(step, 1, items, n - 1).value, items[n - 1]);
    }
  }

  lemma StepRefuses<R(!new)>(step: (State<R, nat>, Json) -> Folded<R, nat>, prefix: string, counts: Json -> bool,
                             rowsOf: (Json, string) -> Result<seq<R>, CatalogError>, st: State<R, nat>, item: Json)
    requires NumberedStep(step, prefix, counts, rowsOf) && NextBehind(prefix, st.seen, st.numbers)
    requires step(st, item).Err?
    ensures counts(item) && Refuses(prefix, rowsOf, item, st.seen, step(st, item).error)
  {
    hide NextBehind, Takes, BlankSlugIn, SlugIn;
    TakesIsSlugIn(prefix, item, st.seen, st.numbers, SlugIn(prefix, item, st.numbers));
  }
}
