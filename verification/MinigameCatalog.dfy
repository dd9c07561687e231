/**
 Parsing `spec.minigames.games[]` (`src/queries/minigames.rs`): kinds by word or number,
 slugs with one default numbering per kind.
 */
module MinigameCatalog {
  import opened Common
  import opened JsonText
  import opened CatalogFold
  import opened CatalogSlugs

  datatype Kind = Sprint | Survival | Darts | HighJump | LongJump | MaxAvgSpeed

  datatype Game = Game(slug: string, kind: Kind, name: string)

  predicate LowerIsBetter(kind: Kind) {
    kind.Sprint?
  }

  function KindName(kind: Kind): string {
    match kind
    case Sprint => "Sprint"
    case Survival => "Survival"
    case Darts => "Darts"
    case HighJump => "HighJump"
    case LongJump => "LongJump"
    case MaxAvgSpeed => "MaxAvgSpeed"
  }

  function KindOfWord(k: string): Option<Kind> {
    if k == "Sprint" || k == "TimeTrial" || k == "PuzzleLocations" then Some(Sprint)
    else if k == "Survival" || k == "TimeOffGround" || k == "KingOfTheHill" then Some(Survival)
    else if k == "Darts" || k == "JumpAccuracy" then Some(Darts)
    else if k == "HighJump" || k == "JumpHigh" then Some(HighJump)
    else if k == "LongJump" then Some(LongJump)
    else if k == "MaxAvgSpeed" then Some(MaxAvgSpeed)
    else None
  }

  function KindOfNumber(t: int): Option<Kind> {
    if t == 1 || t == 6 then Some(Sprint)
    else if t == 2 then Some(HighJump)
    else if t == 3 then Some(Darts)
    else if t == 4 then Some(MaxAvgSpeed)
    else if t == 5 then Some(Survival)
    else None
  }

  /** A nonblank `kind` word decides, even when it is unknown; otherwise the `type` number. */
  function KindOf(game: Json): Option<Kind> {
    var word := GetStr(game, "kind");
    if word.Some? && Trim(word.value) != "" then KindOfWord(Trim(word.value))
    else
      var number := Get(game, "type");
      if number.Some? && AsI64(number.value).Some? then KindOfNumber(AsI64(number.value).value) else None
  }

  function GamesArray(spec: Json): Option<seq<Json>> {
    var m := Get(spec, "minigames");
    if m.None? then None else GetArr(m.value, "games")
  }

  type Counts = map<Kind, nat>

  function CountOf(counts: Counts, kind: Kind): nat {
    if kind in counts then counts[kind] else 0
  }

  function Default(kind: Kind, n: nat): (slug: string)
    ensures Canonical(slug)
  {
    DefaultCanonical(KindName(kind) + "-", n);
    DefaultSlug(KindName(kind) + "-", n)
  }

  function RawName(item: Json): string {
    var name := GetStr(item, "name");
    if name.Some? then name.value else ""
  }

  function GameSlug(g: Game): string {
    g.slug
  }

  /** One entry; every accepted entry of a kind counts, whether its slug was a default or not. */
  function Step(st: State<Game, Counts>, item: Json): Folded<Game, Counts> {
    if !item.Obj? || KindOf(item).None? then Ok(st) else
      var kind := KindOf(item).value;
      var next := CountOf(st.numbers, kind) + 1;
      match SlugOf(item, Default(kind, next))
      case Err(e) => Err(e)
      case Ok(slug) =>
        if slug in st.seen then Err(DuplicateSlug(slug)) else
          Ok(State(st.parsed + [Game(slug, kind, RawName(item))], st.seen + {slug}, st.numbers[kind := next]))
  }

  const NO_COUNTS: Counts := map[]

  /** `parse_catalog_games`. */
  function Games(spec: Json): Result<seq<Game>, CatalogError> {
    var items := GamesArray(spec);
    if items.None? then Ok([]) else Parsed(Step, NO_COUNTS, items.value)
  }

  method ParseCatalogGames(spec: Json) returns (r: Result<seq<Game>, CatalogError>)
    ensures r == Games(spec)
  {
    hide KindOf, SlugOf, Default, RawName;
    var found := GamesArray(spec);
    if found.None? {
      return Ok([]);
    }
    var items := found.value;
    var parsed: seq<Game> := [];
    var seen: set<string> := {};
    var counts: Counts := map[];
    var i := 0;
    while i < |items|
      invariant 0 <= i <= |items|
      invariant Fold(Step, NO_COUNTS, items, i) == Ok(State(parsed, seen, counts))
    {
      var item := items[i];
      if item.Obj? {
        var kind := KindOf(item);
        if kind.Some? {
          var next := CountOf(counts, kind.value) + 1;
          var slug := SlugOf(item, Default(kind.value, next));
          if slug.Err? {
            ErrorStays(Step, NO_COUNTS, items, i + 1);
            return Err(slug.error);
          }
          if slug.value in seen {
            ErrorStays(Step, NO_COUNTS, items, i + 1);
            return Err(DuplicateSlug(slug.value));
          }
          seen := seen + {slug.value};
          counts := counts[kind.value := next];
          parsed := parsed + [Game(slug.value, kind.value, RawName(item))];
        }
      }
      i := i + 1;
    }
    return Ok(parsed);
  }

  // ---- what a successful parse guarantees ----

  ghost predicate Rows(rows: seq<Game>) {
    DistinctSlugs(GameSlug, rows) && forall i :: 0 <= i < |rows| ==> Canonical(rows[i].slug)
  }

  ghost predicate Sound(st: State<Game, Counts>) {
    Rows(st.parsed) && forall i :: 0 <= i < |st.parsed| ==> st.parsed[i].slug in st.seen
  }

  lemma StepSound(st: State<Game, Counts>, item: Json)
    requires Sound(st) && Step(st, item).Ok?
    ensures Sound(Step(st, item).value)
  {
    hide KindOf, Canonical;
  }

  lemma {:induction false} FoldSound(items: seq<Json>, k: nat)
    requires k <= |items| && Fold(Step, NO_COUNTS, items, k).Ok?
    ensures Sound(Fold(Step, NO_COUNTS, items, k).value)
  {
    assert Sound(State([], {}, NO_COUNTS));
    hide Step, Sound;
    forall st, item | Sound(st) && Step(st, item).Ok? ensures Sound(Step(st, item).value) {
      StepSound(st, item);
    }
    FoldKeeps(Step, NO_COUNTS, Sound, items, k);
  }

  /** Distinct, nonblank, trimmed slugs. */
  lemma ParsedRows(spec: Json)
    requires Games(spec).Ok?
    ensures Rows(Games(spec).value)
  {
    var items := GamesArray(spec);
    if items.Some? {
      FoldSound(items.value, |items.value|);
    }
  }

  // ---- when a default is refused ----

  /** Some entry before the k-th spells this slug out. */
  ghost predicate SpeltOut(items: seq<Json>, k: nat, slug: string)
    requires k <= |items|
  {
    exists i :: 0 <= i < k && Get(items[i], "slug").Some? && SlugOf(items[i], "x") == Ok(slug)
  }

  /** A default that has already been handed out. */
  ghost predicate HandedOut(counts: Counts, slug: string) {
    exists kind, n: nat :: 1 <= n <= CountOf(counts, kind) && slug == Default(kind, n)
  }

  ghost predicate Explained(items: seq<Json>, k: nat, st: State<Game, Counts>)
    requires k <= |items|
  {
    forall slug :: slug in st.seen ==> SpeltOut(items, k, slug) || HandedOut(st.numbers, slug)
  }

  lemma KindNamesDiffer(kind: Kind, kind': Kind)
    requires kind != kind'
    ensures |KindName(kind)| > 1 && |KindName(kind')| > 1
    ensures KindName(kind)[0] != KindName(kind')[0] || KindName(kind)[1] != KindName(kind')[1]
  {
  }

  lemma DefaultsDiffer(kind: Kind, n: nat, kind': Kind, n': nat)
    requires kind != kind' || n != n'
    ensures Default(kind, n) != Default(kind', n')
  {
    hide KindName, Decimal;
    if kind != kind' {
      KindNamesDiffer(kind, kind');
      assert Default(kind, n)[0] == KindName(kind)[0] && Default(kind, n)[1] == KindName(kind)[1];
      assert Default(kind', n')[0] == KindName(kind')[0] && Default(kind', n')[1] == KindName(kind')[1];
    } else {
      assert Default(kind, n)[|KindName(kind)| + 1..] == Decimal(n);
      assert Default(kind, n')[|KindName(kind)| + 1..] == Decimal(n');
    }
  }

  lemma SpeltOutStays(items: seq<Json>, k: nat, slug: string)
    requires k < |items| && SpeltOut(items, k, slug)
    ensures SpeltOut(items, k + 1, slug)
  {
    var i :| 0 <= i < k && Get(items[i], "slug").Some? && SlugOf(items[i], "x") == Ok(slug);
    assert 0 <= i < k + 1 && Get(items[i], "slug").Some? && SlugOf(items[i], "x") == Ok(slug);
  }

  lemma HandedOutStays(counts: Counts, kind: Kind, slug: string)
    requires HandedOut(counts, slug)
    ensures HandedOut(counts[kind := CountOf(counts, kind) + 1], slug)
  {
    var other, n: nat :| 1 <= n <= CountOf(counts, other) && slug == Default(other, n);
    var after := counts[kind := CountOf(counts, kind) + 1];
    assert 1 <= n <= CountOf(after, other) && slug == Default(other, n);
  }

  lemma NewSlugExplained(items: seq<Json>, k: nat, counts: Counts, kind: Kind)
    requires k < |items| && KindOf(items[k]) == Some(kind)
    requires SlugOf(items[k], Default(kind, CountOf(counts, kind) + 1)).Ok?
    ensures var slug := SlugOf(items[k], Default(kind, CountOf(counts, kind) + 1)).value;
            SpeltOut(items, k + 1, slug) || HandedOut(counts[kind := CountOf(counts, kind) + 1], slug)
  {
    var n := CountOf(counts, kind) + 1;
    var slug := SlugOf(items[k], Default(kind, n)).value;
    if Get(items[k], "slug").Some? {
      assert 0 <= k < k + 1 && Get(items[k], "slug").Some? && SlugOf(items[k], "x") == Ok(slug);
    } else {
      assert 1 <= n <= CountOf(counts[kind := n], kind) && slug == Default(kind, n);
    }
  }

  lemma StepExplained(items: seq<Json>, k: nat, st: State<Game, Counts>)
    requires k < |items| && Explained(items, k, st) && Step(st, items[k]).Ok?
    ensures Explained(items, k + 1, Step(st, items[k]).value)
  {
    var after := Step(st, items[k]).value;
    forall slug | slug in after.seen ensures SpeltOut(items, k + 1, slug) || HandedOut(after.numbers, slug) {
      if slug in st.seen {
        if SpeltOut(items, k, slug) {
          SpeltOutStays(items, k, slug);
        } else if items[k].Obj? && KindOf(items[k]).Some? {
          HandedOutStays(st.numbers, KindOf(items[k]).value, slug);
        }
      } else {
        NewSlugExplained(items, k, st.numbers, KindOf(items[k]).value);
      }
    }
  }

  lemma FoldSteps(items: seq<Json>, k: nat)
    requires 0 < k <= |items| && Fold(Step, NO_COUNTS, items, k).Ok?
    ensures Fold(Step, NO_COUNTS, items, k - 1).Ok?
    ensures Step(Fold(Step, NO_COUNTS, items, k - 1).value, items[k - 1]) == Fold(Step, NO_COUNTS, items, k)
  {
  }

  lemma {:induction false} FoldExplained(items: seq<Json>, k: nat)
    requires k <= |items| && Fold(Step, NO_COUNTS, items, k).Ok?
    ensures Explained(items, k, Fold(Step, NO_COUNTS, items, k).value)
  {
    hide Step, SpeltOut, HandedOut;
    if k > 0 {
      FoldSteps(items, k);
      FoldExplained(items, k - 1);
      StepExplained(items, k - 1, Fold(Step, NO_COUNTS, items, k - 1).value);
    }
  }

  /**
   An entry without a slug is refused only for a slug that an earlier entry spelt out:
   defaults never meet each other.
   */
  lemma DefaultRefusedOnlyForSpeltOut(items: seq<Json>, k: nat)
    requires k < |items| && Fold(Step, NO_COUNTS, items, k).Ok? && items[k].Obj? && Get(items[k], "slug") == None
          && KindOf(items[k]).Some?
    requires Fold(Step, NO_COUNTS, items, k + 1).Err?
    ensures Fold(Step, NO_COUNTS, items, k + 1).error.DuplicateSlug?
          && SpeltOut(items, k, Fold(Step, NO_COUNTS, items, k + 1).error.slug)
  {
    FoldExplained(items, k);
    var st := Fold(Step, NO_COUNTS, items, k).value;
    var kind := KindOf(items[k]).value;
    var n := CountOf(st.numbers, kind) + 1;
    forall other: Kind, m: nat | 1 <= m <= CountOf(st.numbers, other) ensures Default(kind, n) != Default(other, m) {
      DefaultsDiffer(kind, n, other, m);
    }
  }

  // ---- the rows told from the entries ----

  /** An entry counts if it is an object of a known kind. */
  predicate IsGame(item: Json) {
    item.Obj? && KindOf(item).Some?
  }

  /** How many of the first entries that count are of this kind. */
  function OfKind(items: seq<Json>, k: nat, kind: Kind): nat
    requires k <= |items|
  {
    if k == 0 then 0
    else OfKind(items, k - 1, kind) + if IsGame(items[k - 1]) && KindOf(items[k - 1]).value == kind then 1 else 0
  }

  /** The slug of an entry: the trimmed field, or its number among the entries of its kind. */
  function SlugAt(items: seq<Json>, i: nat): string
    requires i < |items| && IsGame(items[i])
  {
    var kind := KindOf(items[i]).value;
    match Get(items[i], "slug")
    case Some(Str(text)) => Trim(text)
    case _ => KindName(kind) + "-" + Decimal(OfKind(items, i, kind) + 1)
  }

  function SlugsBefore(items: seq<Json>, k: nat): set<string>
    requires k <= |items|
  {
    set i | 0 <= i < k && IsGame(items[i]) :: SlugAt(items, i)
  }

  /** No entry so far is blank, and none takes a slug of an earlier one. */
  ghost predicate Fine(items: seq<Json>, k: nat)
    requires k <= |items|
  {
    forall i :: 0 <= i < k && IsGame(items[i]) ==>
      !BlankSlugIn(items[i]) && SlugAt(items, i) !in SlugsBefore(items, i)
  }

  /** The games of the first entries. */
  function Listed(items: seq<Json>, k: nat): seq<Game>
    requires k <= |items|
  {
    if k == 0 then [] else
      Listed(items, k - 1)
      + if IsGame(items[k - 1]) then [Game(SlugAt(items, k - 1), KindOf(items[k - 1]).value, RawName(items[k - 1]))]
        else []
  }

  /** The state of the fold is what the entries say. */
  ghost predicate Reads(items: seq<Json>, k: nat, st: State<Game, Counts>)
    requires k <= |items|
  {
    && st.parsed == Listed(items, k) && st.seen == SlugsBefore(items, k)
    && forall kind :: CountOf(st.numbers, kind) == OfKind(items, k, kind)
  }

  lemma SlugsGrow(items: seq<Json>, k: nat)
    requires k < |items|
    ensures SlugsBefore(items, k + 1)
         == SlugsBefore(items, k) + if IsGame(items[k]) then {SlugAt(items, k)} else {}
  {
    hide SlugAt, KindOf;
  }

  lemma SlugRead(items: seq<Json>, k: nat, st: State<Game, Counts>)
    requires k < |items| && IsGame(items[k]) && Reads(items, k, st)
    ensures var kind := KindOf(items[k]).value;
            var slug := SlugOf(items[k], Default(kind, CountOf(st.numbers, kind) + 1));
            if BlankSlugIn(items[k]) then slug == Err(BlankSlug) else slug == Ok(SlugAt(items, k))
  {
    hide KindOf, KindName, Decimal, Trim, Listed, SlugsBefore;
  }

  /** The state behind an entry that takes this slug. */
  function After(st: State<Game, Counts>, item: Json, slug: string): State<Game, Counts>
    requires IsGame(item)
  {
    var kind := KindOf(item).value;
    State(st.parsed + [Game(slug, kind, RawName(item))], st.seen + {slug},
          st.numbers[kind := CountOf(st.numbers, kind) + 1])
  }

  lemma StepOn(st: State<Game, Counts>, item: Json)
    requires IsGame(item)
    ensures var kind := KindOf(item).value;
            var slug := SlugOf(item, Default(kind, CountOf(st.numbers, kind) + 1));
            Step(st, item) ==
            match slug
            case Err(e) => Err(e)
            case Ok(slug) => if slug in st.seen then Err(DuplicateSlug(slug)) else Ok(After(st, item, slug))
  {
    hide KindOf, SlugOf, Default, RawName;
  }

  lemma ReadsGrow(items: seq<Json>, k: nat, st: State<Game, Counts>)
    requires k < |items| && Reads(items, k, st) && IsGame(items[k])
    ensures Reads(items, k + 1, After(st, items[k], SlugAt(items, k)))
  {
    CountsGrow(items, k, st, SlugAt(items, k));
    SlugsGrow(items, k);
    ListedGrows(items, k);
    AfterAdds(st, items[k], SlugAt(items, k));
    hide After, SlugAt, KindOf, SlugsBefore, RawName, Listed, OfKind, CountOf, IsGame;
  }

  lemma AfterAdds(st: State<Game, Counts>, item: Json, slug: string)
    requires IsGame(item)
    ensures After(st, item, slug).parsed == st.parsed + [Game(slug, KindOf(item).value, RawName(item))]
    ensures After(st, item, slug).seen == st.seen + {slug}
  {
  }

  lemma ReadsStay(items: seq<Json>, k: nat, st: State<Game, Counts>)
    requires k < |items| && Reads(items, k, st) && !IsGame(items[k])
    ensures Reads(items, k + 1, st)
  {
    SlugsGrow(items, k);
    ListedGrows(items, k);
    CountsStay(items, k);
    hide SlugAt, KindOf, SlugsBefore, RawName, Listed, OfKind, CountOf, IsGame;
  }

  lemma ListedGrows(items: seq<Json>, k: nat)
    requires k < |items|
    ensures IsGame(items[k]) ==>
              Listed(items, k + 1)
              == Listed(items, k) + [Game(SlugAt(items, k), KindOf(items[k]).value, RawName(items[k]))]
    ensures !IsGame(items[k]) ==> Listed(items, k + 1) == Listed(items, k)
  {
    hide SlugAt, KindOf, RawName;
  }

  lemma {:induction false} CountsGrow(items: seq<Json>, k: nat, st: State<Game, Counts>, slug: string)
    requires k < |items| && IsGame(items[k]) && Reads(items, k, st)
    ensures forall kind :: CountOf(After(st, items[k], slug).numbers, kind) == OfKind(items, k + 1, kind)
  {
    hide KindOf, Listed, SlugsBefore, RawName;
    forall kind ensures CountOf(After(st, items[k], slug).numbers, kind) == OfKind(items, k + 1, kind) {
      assert CountOf(st.numbers, kind) == OfKind(items, k, kind);
    }
  }

  lemma {:induction false} CountsStay(items: seq<Json>, k: nat)
    requires k < |items| && !IsGame(items[k])
    ensures forall kind :: OfKind(items, k + 1, kind) == OfKind(items, k, kind)
  {
    hide KindOf;
  }

  lemma StepReads(items: seq<Json>, k: nat, st: State<Game, Counts>)
    requires k < |items| && Reads(items, k, st)
    ensures !IsGame(items[k]) ==> Step(st, items[k]) == Ok(st) && Reads(items, k + 1, st)
    ensures IsGame(items[k]) && BlankSlugIn(items[k]) ==> Step(st, items[k]) == Err(BlankSlug)
    ensures IsGame(items[k]) && !BlankSlugIn(items[k]) && SlugAt(items, k) in SlugsBefore(items, k) ==>
              Step(st, items[k]) == Err(DuplicateSlug(SlugAt(items, k)))
    ensures IsGame(items[k]) && !BlankSlugIn(items[k]) && SlugAt(items, k) !in SlugsBefore(items, k) ==>
              Step(st, items[k]).Ok? && Reads(items, k + 1, Step(st, items[k]).value)
  {
    assert st.seen == SlugsBefore(items, k);
    if !IsGame(items[k]) {
      ReadsStay(items, k, st);
    } else {
      ReadsGrow(items, k, st);
      SlugRead(items, k, st);
      StepOn(st, items[k]);
      hide Step;
    }
    hide Reads, SlugAt, KindOf, SlugOf, Default, SlugsBefore, BlankSlugIn, After;
  }

  lemma {:induction false} FoldReads(items: seq<Json>, k: nat)
    requires k <= |items|
    ensures Fold(Step, NO_COUNTS, items, k).Ok? <==> Fine(items, k)
    ensures Fine(items, k) ==> Reads(items, k, Fold(Step, NO_COUNTS, items, k).value)
    ensures !Fine(items, k) ==>
              exists j :: 0 <= j < k && Fine(items, j) && IsGame(items[j])
                          && Fold(Step, NO_COUNTS, items, k)
                             == Err(if BlankSlugIn(items[j]) then BlankSlug else DuplicateSlug(SlugAt(items, j)))
                          && (BlankSlugIn(items[j]) || SlugAt(items, j) in SlugsBefore(items, j))
  {
    hide Step, SlugAt, KindOf, SlugsBefore, BlankSlugIn, Listed, OfKind;
    if k == 0 {
      NothingRead(items);
    } else {
      FoldReads(items, k - 1);
      if Fine(items, k - 1) {
        StepReads(items, k - 1, Fold(Step, NO_COUNTS, items, k - 1).value);
        hide Reads;
      } else {
        assert !Fine(items, k);
      }
    }
  }

  lemma NothingRead(items: seq<Json>)
    ensures Reads(items, 0, State([], {}, NO_COUNTS))
  {
  }

  /**
   The entries of an array decide its games: it is accepted if and only if no entry of a
   known kind is blank or takes the slug of an earlier one, a missing slug being the
   entry's number among those of its kind; its games are those entries in their order.
   */
  lemma GamesFromEntries(spec: Json)
    requires GamesArray(spec).Some?
    ensures var items := GamesArray(spec).value;
            && (Games(spec).Ok? <==> Fine(items, |items|))
            && (Games(spec).Ok? ==> Games(spec).value == Listed(items, |items|))
            && (Games(spec).Err? ==>
                  exists j :: 0 <= j < |items| && Fine(items, j) && IsGame(items[j])
                              && Games(spec) == Err(if BlankSlugIn(items[j]) then BlankSlug
                                                    else DuplicateSlug(SlugAt(items, j)))
                              && (BlankSlugIn(items[j]) || SlugAt(items, j) in SlugsBefore(items, j)))
  {
    var items := GamesArray(spec).value;
    hide Step, SlugAt, KindOf, SlugsBefore, BlankSlugIn, Fine;
    FoldReads(items, |items|);
  }

  /** A type number stands for a kind that a word names, too, and no other number for any. */
  lemma TypesAreKinds(t: int)
    ensures KindOfNumber(t)
         == match t
            case 1 => KindOfWord("TimeTrial")
            case 2 => KindOfWord("JumpHigh")
            case 3 => KindOfWord("JumpAccuracy")
            case 4 => KindOfWord("MaxAvgSpeed")
            case 5 => KindOfWord("KingOfTheHill")
            case 6 => KindOfWord("PuzzleLocations")
            case _ => None
  {
  }

  /** A nonblank word decides the kind, even an unknown one; the number is read only without it. */
  lemma WordDecides(game: Json)
    ensures var word := GetStr(game, "kind");
            if word.Some? && exists i :: 0 <= i < |word.value| && !IsSpace(word.value[i])
            then KindOf(game) == KindOfWord(Trim(word.value))
            else match Get(game, "type")
                 case Some(Num(n)) => n < I64_LIMIT ==> KindOf(game) == KindOfNumber(n)
                 case Some(Frac(x)) => 0.0 <= x < 7.0 ==> KindOf(game) == KindOfNumber(x.Floor)
                 case _ => KindOf(game) == None
  {
    var word := GetStr(game, "kind");
    if word.Some? {
      BlankIsAllSpace(word.value);
    }
    hide Trim, KindOfWord;
  }

  /** Only the words for a race make lower scores better. */
  lemma OnlyRacesAreLower(word: string)
    ensures KindOfWord(word).Some? && LowerIsBetter(KindOfWord(word).value) <==>
              word in {"Sprint", "TimeTrial", "PuzzleLocations"}
  {
  }

  // ---- appending ----

  /** A spec with these games. */
  function SpecOf(items: seq<Json>): Json {
    Obj(map["minigames" := Obj(map["games" := Arr(items)])])
  }

  lemma SpecOfItems(items: seq<Json>)
    ensures Games(SpecOf(items)) == Parsed(Step, NO_COUNTS, items)
  {
    hide Step;
    var inner := Obj(map["games" := Arr(items)]);
    assert Get(SpecOf(items), "minigames") == Some(inner);
    assert Get(inner, "games") == Some(Arr(items));
  }

  /** Appending entries never changes the games before them, and never repairs a refused spec. */
  lemma AppendingKeepsRows(items: seq<Json>, more: seq<Json>)
    ensures Games(SpecOf(items)).Err? ==> Games(SpecOf(items + more)) == Games(SpecOf(items))
    ensures Games(SpecOf(items + more)).Ok? ==>
              Games(SpecOf(items)).Ok? && Games(SpecOf(items)).value <= Games(SpecOf(items + more)).value
  {
    SpecOfItems(items);
    SpecOfItems(items + more);
    hide KindOf, SlugOf, Default, RawName, Games;
    assert Growing(Step);
    Appending(Step, NO_COUNTS, items, more);
  }

  // ---- reparsing what was parsed ----

  /** A row written out with every field explicit. */
  function Explicit(g: Game): Json {
    Obj(map["slug" := Str(g.slug), "kind" := Str(KindName(g.kind)), "name" := Str(g.name)])
  }

  lemma ExplicitFields(g: Game)
    ensures Get(Explicit(g), "slug") == Some(Str(g.slug))
    ensures GetStr(Explicit(g), "kind") == Some(KindName(g.kind))
    ensures GetStr(Explicit(g), "name") == Some(g.name)
  {
  }

  lemma KindNamesAreWords(kind: Kind)
    ensures Canonical(KindName(kind)) && KindOfWord(KindName(kind)) == Some(kind)
  {
  }

  lemma ExplicitStep(st: State<Game, Counts>, g: Game)
    requires Canonical(g.slug) && g.slug !in st.seen
    ensures Step(st, Explicit(g)) ==
            Ok(State(st.parsed + [g], st.seen + {g.slug}, st.numbers[g.kind := CountOf(st.numbers, g.kind) + 1]))
  {
    ExplicitFields(g);
    KindNamesAreWords(g.kind);
    TrimKeeps(KindName(g.kind));
    assert KindOf(Explicit(g)) == Some(g.kind);
    TrimKeeps(g.slug);
  }

  lemma RowReadsBack(g: Game)
    requires Canonical(g.slug)
    ensures ReadsBack(Step, Explicit, GameSlug, g)
  {
    hide Step, Explicit, Canonical;
    forall st: State<Game, Counts> | g.slug !in st.seen
      ensures Step(st, Explicit(g)) ==
              Ok(State(st.parsed + [g], st.seen + {g.slug}, st.numbers[g.kind := CountOf(st.numbers, g.kind) + 1]))
    {
      ExplicitStep(st, g);
    }
  }

  lemma {:induction false} WrittenOutReads(rows: seq<Game>)
    requires DistinctSlugs(GameSlug, rows) && forall i :: 0 <= i < |rows| ==> Canonical(rows[i].slug)
    ensures Games(SpecOf(WrittenOut(Explicit, rows))) == Ok(rows)
  {
    SpecOfItems(WrittenOut(Explicit, rows));
    hide Step, Explicit, Canonical, ReadsBack, Games, DistinctSlugs, WrittenOut;
    forall i | 0 <= i < |rows| ensures ReadsBack(Step, Explicit, GameSlug, rows[i]) {
      RowReadsBack(rows[i]);
    }
    ReparsedUnchanged(Step, NO_COUNTS, Explicit, GameSlug, rows);
  }

  /** The rows of a parsed spec, written out explicitly and parsed again, come back unchanged. */
  lemma ReparsingChangesNothing(spec: Json)
    requires Games(spec).Ok?
    ensures Games(SpecOf(WrittenOut(Explicit, Games(spec).value))) == Ok(Games(spec).value)
  {
    hide Games, Explicit, Canonical, DistinctSlugs;
    ParsedRows(spec);
    WrittenOutReads(Games(spec).value);
  }
}
