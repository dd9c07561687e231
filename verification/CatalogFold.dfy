/**
 What the three catalog parsers have in common: a left fold over the entries of an array
 that stops at the first error. Its facts are proved once, for any step function.
 */
module CatalogFold {
  import opened Common
  import opened CatalogSlugs
  import opened JsonText

  /** The rows so far, the slugs taken, and whatever the default slugs are numbered by. */
  datatype State<R, N> = State(parsed: seq<R>, seen: set<string>, numbers: N)

  type Folded<R, N> = Result<State<R, N>, CatalogError>

  function Fold<R, N>(step: (State<R, N>, Json) -> Folded<R, N>, start: N, items: seq<Json>, k: nat): Folded<R, N>
    requires k <= |items|
  {
    if k == 0 then Ok(State([], {}, start)) else
      var before := Fold(step, start, items, k - 1);
      if before.Err? then before else step(before.value, items[k - 1])
  }

  /** The rows of a whole array. */
  function Parsed<R, N>(step: (State<R, N>, Json) -> Folded<R, N>, start: N, items: seq<Json>)
    : Result<seq<R>, CatalogError>
  {
    var end := Fold(step, start, items, |items|);
    if end.Err? then Err(end.error) else Ok(end.value.parsed)
  }

  lemma {:induction false} ErrorStays<R, N>(step: (State<R, N>, Json) -> Folded<R, N>, start: N, items: seq<Json>,
                                            k: nat)
    requires k <= |items| && Fold(step, start, items, k).Err?
    ensures Fold(step, start, items, |items|) == Fold(step, start, items, k)
    decreases |items| - k
  {
    if k < |items| {
      ErrorStays(step, start, items, k + 1);
    }
  }

  // ---- invariants ----

  ghost predicate Keeps<R(!new), N(!new)>(step: (State<R, N>, Json) -> Folded<R, N>, inv: State<R, N> -> bool) {
    forall st: State<R, N>, item: Json :: inv(st) && step(st, item).Ok? ==> inv(step(st, item).value)
  }

  lemma {:induction false} FoldKeeps<R(!new), N(!new)>(step: (State<R, N>, Json) -> Folded<R, N>, start: N,
                                                       inv: State<R, N> -> bool, items: seq<Json>, k: nat)
    requires Keeps(step, inv) && inv(State([], {}, start))
    requires k <= |items| && Fold(step, start, items, k).Ok?
    ensures inv(Fold(step, start, items, k).value)
  {
    if k > 0 {
      FoldKeeps(step, start, inv, items, k - 1);
    }
  }

  // ---- appending ----

  /** No step takes a row back. */
  ghost predicate Growing<R(!new), N(!new)>(step: (State<R, N>, Json) -> Folded<R, N>) {
    forall st: State<R, N>, item: Json :: step(st, item).Ok? ==> st.parsed <= step(st, item).value.parsed
  }

  lemma {:induction false} FoldPrefix<R, N>(step: (State<R, N>, Json) -> Folded<R, N>, start: N,
                                            items: seq<Json>, more: seq<Json>, k: nat)
    requires k <= |items|
    ensures Fold(step, start, items + more, k) == Fold(step, start, items, k)
  {
    if k > 0 {
      FoldPrefix(step, start, items, more, k - 1);
      assert (items + more)[k - 1] == items[k - 1];
    }
  }

  lemma {:induction false} FoldGrows<R(!new), N(!new)>(step: (State<R, N>, Json) -> Folded<R, N>, start: N,
                                                       items: seq<Json>, j: nat, k: nat)
    requires Growing(step) && j <= k <= |items| && Fold(step, start, items, k).Ok?
    ensures Fold(step, start, items, j).Ok?
    ensures Fold(step, start, items, j).value.parsed <= Fold(step, start, items, k).value.parsed
  {
    if j < k {
      FoldGrows(step, start, items, j, k - 1);
    }
  }

  /** Appending entries never changes the rows of the entries before them, and never repairs a refused array. */
  lemma {:induction false} Appending<R(!new), N(!new)>(step: (State<R, N>, Json) -> Folded<R, N>, start: N,
                                                       items: seq<Json>, more: seq<Json>)
    requires Growing(step)
    ensures Parsed(step, start, items).Err? ==>
              Parsed(step, start, items + more) == Parsed(step, start, items)
    ensures Parsed(step, start, items + more).Ok? ==>
              && Parsed(step, start, items).Ok?
              && Parsed(step, start, items).value <= Parsed(step, start, items + more).value
  {
    FoldPrefix(step, start, items, more, |items|);
    if Fold(step, start, items, |items|).Err? {
      ErrorStays(step, start, items + more, |items|);
    } else if Fold(step, start, items + more, |items + more|).Ok? {
      FoldGrows(step, start, items + more, |items|, |items + more|);
    }
  }

  // ---- rows written out and read back ----

  ghost predicate DistinctSlugs<R>(slugOf: R -> string, rows: seq<R>) {
    forall i, j :: 0 <= i < j < |rows| ==> slugOf(rows[i]) != slugOf(rows[j])
  }

  function WrittenOut<R>(explicit: R -> Json, rows: seq<R>): (r: seq<Json>)
    ensures |r| == |rows| && forall i :: 0 <= i < |r| ==> r[i] == explicit(rows[i])
  {
    if rows == [] then [] else WrittenOut(explicit, rows[..|rows| - 1]) + [explicit(rows[|rows| - 1])]
  }

  /** In any state that has not seen its slug, a row written out is read as that row. */
  ghost predicate ReadsBack<R(!new), N(!new)>(step: (State<R, N>, Json) -> Folded<R, N>, explicit: R -> Json,
                                              slugOf: R -> string, row: R)
  {
    forall st: State<R, N> :: slugOf(row) !in st.seen ==>
      && step(st, explicit(row)).Ok?
      && step(st, explicit(row)).value.parsed == st.parsed + [row]
      && step(st, explicit(row)).value.seen == st.seen + {slugOf(row)}
  }

  ghost predicate SlugBefore<R>(slugOf: R -> string, rows: seq<R>, k: nat, slug: string)
    requires k <= |rows|
  {
    exists i :: 0 <= i < k && slugOf(rows[i]) == slug
  }

  /** The first `k` rows have been read, and no slug but theirs is taken. */
  ghost predicate HaveRead<R, N>(r: Folded<R, N>, slugOf: R -> string, rows: seq<R>, k: nat)
    requires k <= |rows|
  {
    && r.Ok?
    && r.value.parsed == rows[..k]
    && forall slug :: slug in r.value.seen ==> SlugBefore(slugOf, rows, k, slug)
  }

  lemma SlugBeforeLater<R>(slugOf: R -> string, rows: seq<R>, k: nat)
    requires k < |rows|
    ensures forall slug :: SlugBefore(slugOf, rows, k, slug) ==> SlugBefore(slugOf, rows, k + 1, slug)
    ensures SlugBefore(slugOf, rows, k + 1, slugOf(rows[k]))
  {
  }

  lemma NextIsNew<R>(slugOf: R -> string, rows: seq<R>, k: nat)
    requires DistinctSlugs(slugOf, rows) && k < |rows|
    ensures !SlugBefore(slugOf, rows, k, slugOf(rows[k]))
  {
  }

  lemma ReadOne<R(!new), N(!new)>(step: (State<R, N>, Json) -> Folded<R, N>, explicit: R -> Json,
                                  slugOf: R -> string, rows: seq<R>, k: nat, st: State<R, N>)
    requires DistinctSlugs(slugOf, rows) && k < |rows| && ReadsBack(step, explicit, slugOf, rows[k])
    requires HaveRead(Ok(st), slugOf, rows, k)
    ensures HaveRead(step(st, explicit(rows[k])), slugOf, rows, k + 1)
  {
    SlugBeforeLater(slugOf, rows, k);
    NextIsNew(slugOf, rows, k);
    hide SlugBefore, DistinctSlugs;
    assert rows[..k + 1] == rows[..k] + [rows[k]];
  }

  lemma {:induction false} FoldReads<R(!new), N(!new)>(step: (State<R, N>, Json) -> Folded<R, N>, start: N,
                                                       explicit: R -> Json, slugOf: R -> string, rows: seq<R>, k: nat)
    requires DistinctSlugs(slugOf, rows) && k <= |rows|
    requires forall i :: 0 <= i < |rows| ==> ReadsBack(step, explicit, slugOf, rows[i])
    ensures HaveRead(Fold(step, start, WrittenOut(explicit, rows), k), slugOf, rows, k)
  {
    hide SlugBefore, DistinctSlugs, ReadsBack, WrittenOut;
    if k > 0 {
      FoldReads(step, start, explicit, slugOf, rows, k - 1);
      ReadOne(step, explicit, slugOf, rows, k - 1, Fold(step, start, WrittenOut(explicit, rows), k - 1).value);
    }
  }

  /** Rows with distinct slugs come back unchanged when they are written out and parsed again. */
  lemma {:induction false} ReparsedUnchanged<R(!new), N(!new)>(step: (State<R, N>, Json) -> Folded<R, N>, start: N,
                                                               explicit: R -> Json, slugOf: R -> string, rows: seq<R>)
    requires DistinctSlugs(slugOf, rows)
    requires forall i :: 0 <= i < |rows| ==> ReadsBack(step, explicit, slugOf, rows[i])
    ensures Parsed(step, start, WrittenOut(explicit, rows)) == Ok(rows)
  {
    FoldReads(step, start, explicit, slugOf, rows, |rows|);
    assert rows[..|rows|] == rows;
  }
}
