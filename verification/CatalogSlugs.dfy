/**
 What the three catalog parsers share: explicit slugs, default slugs numbered behind
 the largest number seen, and the error they end with.
 */
module CatalogSlugs {
  import opened Common
  import opened JsonText

  datatype CatalogError = BlankSlug | DuplicateSlug(slug: string) | DuplicateRecordUid(uid: string)

  /** An item's slug: trimmed when given, the default when the field is missing. */
  function SlugOf(item: Json, default: string): (r: Result<string, CatalogError>)
    requires Canonical(default)
    ensures r.Ok? ==> Canonical(r.value)
    ensures r.Err? ==> r.error == BlankSlug
  {
    match Get(item, "slug")
    case None => Ok(default)
    case Some(value) =>
      if value.Str? && Trim(value.text) != "" then Ok(Trim(value.text)) else Err(BlankSlug)
  }

  /** The slug field is there, and no nonblank string. */
  predicate BlankSlugIn(item: Json) {
    match Get(item, "slug")
    case None => false
    case Some(value) => !value.Str? || Trim(value.text) == ""
  }

  /** The display name of a hat or collectible: the trimmed field, or the slug when that is blank. */
  function NameOf(item: Json, slug: string): (name: string)
    requires Canonical(slug)
    ensures Canonical(name)
  {
    var name := GetStr(item, "name");
    if name.Some? && Trim(name.value) != "" then Trim(name.value) else slug
  }

  // ---- default numbering of hats and collectibles ----

  /** The number a slug reserves: the rest behind the prefix, when `parse::<u32>` accepts it. */
  function NumberOf(prefix: string, slug: string): Option<nat> {
    if prefix <= slug then ParseU32(slug[|prefix|..]) else None
  }

  function DefaultSlug(prefix: string, n: nat): string {
    prefix + Decimal(n)
  }

  /** The next default behind a slug; the increment saturates. */
  function Advance(prefix: string, next: nat, slug: string): nat {
    var number := NumberOf(prefix, slug);
    if number.None? || number.value < next then next
    else if number.value < U32_MAX then number.value + 1
    else U32_MAX
  }

  /** Every number reserved so far lies behind the next default, except that u32::MAX has nothing behind it. */
  ghost predicate Numbered(prefix: string, seen: set<string>, next: nat) {
    && 1 <= next <= U32_MAX
    && forall slug :: slug in seen && NumberOf(prefix, slug).Some? ==>
         NumberOf(prefix, slug).value < next || next == U32_MAX
  }

  lemma DefaultCanonical(prefix: string, n: nat)
    requires prefix != "" && !IsSpace(prefix[0])
    ensures Canonical(DefaultSlug(prefix, n))
  {
    var s := DefaultSlug(prefix, n);
    assert s[0] == prefix[0] && s[|s| - 1] == Decimal(n)[|Decimal(n)| - 1];
    assert IsDigit(s[|s| - 1]);
  }

  lemma DefaultNumber(prefix: string, n: nat)
    requires n <= U32_MAX
    ensures NumberOf(prefix, DefaultSlug(prefix, n)) == Some(n)
  {
    DecimalParses(n);
    assert DefaultSlug(prefix, n)[|prefix|..] == Decimal(n);
  }

  lemma AdvanceNumbered(prefix: string, seen: set<string>, next: nat, slug: string)
    requires Numbered(prefix, seen, next)
    ensures Numbered(prefix, seen + {slug}, Advance(prefix, next, slug))
  {
    assert NumberOf(prefix, slug).Some? ==> NumberOf(prefix, slug).value <= U32_MAX;
  }

  /** A default collides with an earlier slug exactly when u32::MAX itself has been taken. */
  lemma CollisionNeedsMax(prefix: string, seen: set<string>, next: nat)
    requires Numbered(prefix, seen, next)
    requires DefaultSlug(prefix, U32_MAX) in seen
    ensures next == U32_MAX
  {
    DefaultNumber(prefix, U32_MAX);
  }

  lemma DefaultCollides(prefix: string, seen: set<string>, next: nat)
    requires Numbered(prefix, seen, next)
    ensures DefaultSlug(prefix, next) in seen <==> DefaultSlug(prefix, U32_MAX) in seen
  {
    if DefaultSlug(prefix, next) in seen {
      DefaultNumber(prefix, next);
    }
    if DefaultSlug(prefix, U32_MAX) in seen {
      CollisionNeedsMax(prefix, seen, next);
    }
  }

  // ---- slugs as table keys ----

  ghost predicate Distinct(s: seq<string>) {
    forall i, j :: 0 <= i < j < |s| ==> s[i] != s[j]
  }
}
