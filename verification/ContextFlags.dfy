/**
 The context-flag codec of `src/player.rs`: fifteen flags as a product of pairwise
 coprime coefficients in a 64-bit word, powers of two stripped.
 */
module ContextFlags {
  import opened Divisibility

  /**
   Coefficients in cypher order, the two index tables with -1 resolved to the index
   itself, and the odd part of the coefficient behind each plain flag.
   */
  datatype Table = Table(coeff: seq<nat>, plain: seq<nat>, cypher: seq<nat>, factor: seq<nat>)

  /** `context_map_cypher_to_plain` and its inverse: -1 stands for the index itself. */
  function Resolve(raw: int, index: nat): int {
    if raw == -1 then index else raw
  }

  /** The index tables are inverse permutations and no coefficient is zero. */
  ghost predicate WellFormed(t: Table) {
    && |t.coeff| == |t.plain| == |t.cypher| == |t.factor|
    && (forall i :: 0 <= i < |t.coeff| ==> t.coeff[i] > 0)
    && (forall i :: 0 <= i < |t.coeff| ==> t.plain[i] < |t.coeff| && t.cypher[t.plain[i]] == i)
    && (forall p :: 0 <= p < |t.coeff| ==> t.cypher[p] < |t.coeff| && t.plain[t.cypher[p]] == p)
    && (forall p :: 0 <= p < |t.coeff| ==> t.factor[p] == Odd(t.coeff[t.cypher[p]]))
  }

  /** Coefficients below two carry no flag. */
  predicate Live(t: Table, p: nat)
    requires p < |t.cypher| && t.cypher[p] < |t.coeff|
  {
    t.coeff[t.cypher[p]] >= 2
  }

  /** Odd parts pairwise coprime, and above one where a flag is carried. */
  ghost predicate Independent(t: Table)
    requires WellFormed(t)
  {
    && (forall p :: 0 <= p < |t.coeff| && Live(t, p) ==> t.factor[p] > 1)
    && PairwiseCoprime(t.factor)
  }

  const WORD: nat := 0x1_0000_0000_0000_0000

  // ---- the meaning of a word ----

  /** Flag `p` of a word: set exactly when its odd coefficient divides the nonzero word. */
  ghost predicate Flag(t: Table, word: nat, p: nat)
    requires WellFormed(t) && p < |t.coeff|
  {
    word != 0 && Live(t, p) && Divides(t.factor[p], word)
  }

  /** The product of the odd coefficients of the set flags. */
  function Word(t: Table, flags: seq<bool>): nat
    requires |flags| == |t.factor|
  {
    Product(t.factor, flags, |flags|)
  }

  function AllSet(n: nat): seq<bool> {
    seq(n, _ => true)
  }

  /** Every multiplication of an all-true encoding stays below 2^64. */
  ghost predicate Fits(t: Table)
    requires WellFormed(t)
  {
    forall n :: 0 <= n < |t.coeff| ==> Product(t.factor, AllSet(|t.coeff|), n) * t.coeff[t.cypher[n]] < WORD
  }

  lemma FactorsOdd(t: Table)
    requires WellFormed(t)
    ensures forall p :: 0 <= p < |t.factor| ==> t.factor[p] > 0 && t.factor[p] % 2 == 1
  {
  }

  /** A 64-bit product. */
  function Times(a: nat, b: nat): (w: nat)
    ensures w < WORD
    ensures a * b < WORD ==> w == a * b
  {
    (a * b) % WORD
  }

  /** One encoding step: the product does not wrap, and shifted right until odd it is the next word. */
  lemma {:induction false} StepFits(t: Table, flags: seq<bool>, i: nat)
    requires WellFormed(t) && i < |flags| == |t.coeff| && Fits(t) && flags[i]
    ensures 0 < Times(Product(t.factor, flags, i), t.coeff[t.cypher[i]])
    ensures Odd(Times(Product(t.factor, flags, i), t.coeff[t.cypher[i]])) == Product(t.factor, flags, i + 1)
  {
    FactorsOdd(t);
    var all, c := AllSet(|t.coeff|), t.coeff[t.cypher[i]];
    ProductOdd(t.factor, flags, i);
    ProductMono(t.factor, flags, all, i);
    MulMono(Product(t.factor, flags, i), Product(t.factor, all, i), c);
    OddMul(Product(t.factor, flags, i), c);
  }

  lemma {:induction false} StripTwo(c: nat)
    requires c > 0 && c % 2 == 0
    ensures c / 2 > 0 && Odd(c / 2) == Odd(c)
  {
  }

  lemma SkipStep(t: Table, flags: seq<bool>, i: nat)
    requires WellFormed(t) && i < |flags| == |t.coeff| && !flags[i]
    ensures 0 < Product(t.factor, flags, i)
    ensures Odd(Product(t.factor, flags, i)) == Product(t.factor, flags, i + 1)
  {
    FactorsOdd(t);
    ProductOdd(t.factor, flags, i);
  }

  /**
   `encode_context_flags`: 64-bit multiplications, each followed by shifting the
   word right until it is odd. Under `Fits` no multiplication wraps.
   */
  method Encode(t: Table, flags: seq<bool>) returns (word: nat)
    requires WellFormed(t) && |flags| == |t.coeff| && Fits(t)
    ensures word == Word(t, flags)
    ensures 0 < word < WORD
  {
    hide Product, Odd, Fits, AllSet;
    word := 1;
    EmptyProduct(t.factor, flags);
    for i := 0 to |flags|
      invariant word == Product(t.factor, flags, i) && 0 < word < WORD
    {
      if flags[i] {
        StepFits(t, flags, i);
        word := Times(word, t.coeff[t.cypher[i]]);
      } else {
        SkipStep(t, flags, i);
      }
      word := Trim(word);
    }
  }

  lemma {:induction false} EmptyProduct(f: seq<nat>, flags: seq<bool>)
    requires |f| == |flags|
    ensures Product(f, flags, 0) == 1
  {
  }

  /** The inner loop of the encoder: shift right while the lowest bit is clear. */
  method Trim(from: nat) returns (word: nat)
    requires from > 0
    ensures word == Odd(from) && 0 < word <= from
  {
    word := from;
    while word % 2 == 0
      invariant 0 < word && Odd(word) == Odd(from)
      decreases word
    {
      StripTwo(word);
      word := word / 2;
    }
  }

  /** Where decoding stands after `i` coefficients: what is left is divided by later ones as the word is. */
  ghost predicate Decoded(t: Table, word: nat, rest: nat, i: nat)
    requires WellFormed(t)
  {
    rest > 0 &&
    forall p :: 0 <= p < |t.coeff| && t.cypher[p] >= i ==> (Divides(t.factor[p], rest) <==> Divides(t.factor[p], word))
  }

  lemma HitKeepsLater(t: Table, word: nat, rest: nat, i: nat, q: nat)
    requires WellFormed(t) && Independent(t) && i < |t.coeff|
    requires Decoded(t, word, rest, i) && rest == t.factor[t.plain[i]] * q
    ensures Decoded(t, word, q, i + 1)
  {
    forall p | 0 <= p < |t.coeff| && t.cypher[p] >= i + 1
      ensures Divides(t.factor[p], q) <==> Divides(t.factor[p], word)
    {
      DivideOut(t.factor[p], t.factor[t.plain[i]], q);
    }
  }

  /** The part of a word's flags that the first `i` coefficients decide. */
  ghost predicate FlagsUpTo(t: Table, word: nat, plain: seq<bool>, i: nat)
    requires WellFormed(t)
  {
    |plain| == |t.coeff| && forall p :: 0 <= p < |plain| ==> plain[p] == (t.cypher[p] < i && Flag(t, word, p))
  }

  /** `decode_context_flags`: trial division in table order, dividing each hit out. */
  method Decode(t: Table, word: nat) returns (plain: seq<bool>)
    requires WellFormed(t) && Independent(t)
    ensures |plain| == |t.coeff|
    ensures forall p :: 0 <= p < |plain| ==> plain[p] == Flag(t, word, p)
  {
    plain := seq(|t.coeff|, _ => false);
    if word == 0 {
      return;
    }
    var rest: nat := word;
    for i := 0 to |t.coeff|
      invariant Decoded(t, word, rest, i)
      invariant FlagsUpTo(t, word, plain, i)
    {
      if t.coeff[i] < 2 {
        continue;
      }
      var c := Trim(t.coeff[i]);
      assert c == t.factor[t.plain[i]];
      DividesMod(c, rest);
      if rest % c == 0 {
        plain := plain[t.plain[i] := true];
        HitKeepsLater(t, word, rest, i, rest / c);
        rest := rest / c;
      }
    }
  }

  // ---- round trip ----

  /** Decoding an encoded set of flags gives it back on live positions and clears the others. */
  lemma RoundTrip(t: Table, flags: seq<bool>, p: nat)
    requires WellFormed(t) && Independent(t) && |flags| == |t.coeff| && p < |flags|
    ensures Flag(t, Word(t, flags), p) == (Live(t, p) && flags[p])
  {
    FactorsOdd(t);
    ProductOdd(t.factor, flags, |flags|);
    if flags[p] {
      ChosenFactorDivides(t.factor, flags, |flags|, p);
    } else if Live(t, p) {
      OtherFactorDoesNot(t.factor, flags, |flags|, p);
    }
  }

  // ---- the shipped table ----

  function Coefficients(): seq<nat> {
    [69, 59, 136, 1, 26, 77, 41, 1, 95, 53, 1, 1, 86, 62, 89]
  }

  function RawCypherToPlain(): seq<int> {
    [6, 1, 14, -1, 12, 0, 8, -1, 13, 5, -1, -1, 2, 4, 9]
  }

  function RawPlainToCypher(): seq<int> {
    [5, 1, 12, -1, 13, 9, 0, -1, 6, 14, -1, -1, 4, 8, 2]
  }

  function Shipped(): Table {
    Table(Coefficients(),
          [6, 1, 14, 3, 12, 0, 8, 7, 13, 5, 10, 11, 2, 4, 9],
          [5, 1, 12, 3, 13, 9, 0, 7, 6, 14, 10, 11, 4, 8, 2],
          [77, 59, 43, 1, 31, 53, 69, 1, 41, 89, 1, 1, 13, 95, 17])
  }

  /** The word of all fifteen flags. */
  const ALL_TRUE: nat := 0x178B_A595_7632_5029

  /** The resolved tables are what the source's lookups return, and they invert each other. */
  lemma ShippedIndex(i: nat)
    requires i < 15
    ensures Shipped().plain[i] == Resolve(RawCypherToPlain()[i], i)
          && Shipped().cypher[i] == Resolve(RawPlainToCypher()[i], i)
    ensures Shipped().plain[i] < 15 && Shipped().cypher[Shipped().plain[i]] == i
    ensures Shipped().cypher[i] < 15 && Shipped().plain[Shipped().cypher[i]] == i
  {
  }

  lemma {:induction false} OddOfTwice(n: nat)
    requires n > 0
    ensures Odd(2 * n) == Odd(n)
  {
    hide Odd;
    var m := 2 * n;
    assert m % 2 == 0 && m / 2 == n;
    StripTwo(m);
  }

  lemma {:induction false} OddOfOdd(n: nat)
    requires n % 2 == 1
    ensures Odd(n) == n
  {
  }

  lemma ShippedLengths()
    ensures var t := Shipped(); |t.coeff| == |t.plain| == |t.cypher| == |t.factor| == 15
  {
  }

  lemma OddParts()
    ensures Odd(136) == 17 && Odd(26) == 13 && Odd(86) == 43 && Odd(62) == 31
  {
    hide Odd;
    OddOfTwice(68);
    OddOfTwice(34);
    OddOfTwice(17);
    OddOfOdd(17);
    OddOfTwice(13);
    OddOfOdd(13);
    OddOfTwice(43);
    OddOfOdd(43);
    OddOfTwice(31);
    OddOfOdd(31);
  }

  lemma ShippedFactor(p: nat)
    requires p < 15
    ensures Shipped().coeff[Shipped().cypher[p]] > 0
    ensures Shipped().factor[p] == Odd(Shipped().coeff[Shipped().cypher[p]])
  {
    OddParts();
    var c := Shipped().coeff[Shipped().cypher[p]];
    assert c % 2 == 1 || c in {136, 26, 86, 62};
  }

  lemma ShippedWellFormed()
    ensures WellFormed(Shipped())
  {
    ShippedLengths();
    hide Shipped, Odd, Resolve;
    var t := Shipped();
    forall i | 0 <= i < 15
      ensures t.plain[i] < 15 && t.cypher[t.plain[i]] == i
      ensures t.cypher[i] < 15 && t.plain[t.cypher[i]] == i
      ensures t.coeff[i] > 0
      ensures t.coeff[t.cypher[i]] > 0 && t.factor[i] == Odd(t.coeff[t.cypher[i]])
    {
      ShippedIndex(i);
      ShippedFactor(t.plain[i]);
      ShippedFactor(i);
    }
  }

  /** The running words of an all-true encoding. */
  function Prefix(): seq<nat> {
    [1, 77, 4543, 195349, 195349, 6055819, 320958407, 22146130083, 22146130083, 907991333403, 80811228672867,
     80811228672867, 80811228672867, 1050545972747271, 99801867410990745, 1696631745986842665]
  }

  lemma PrefixStep(n: nat)
    requires n < 15
    ensures Prefix()[n + 1] == Prefix()[n] * Shipped().factor[n]
    ensures Shipped().cypher[n] < 15 && Prefix()[n] * Shipped().coeff[Shipped().cypher[n]] <= 8 * ALL_TRUE
  {
  }

  lemma {:induction false} PrefixIsProduct(n: nat)
    requires n <= 15
    ensures Product(Shipped().factor, AllSet(15), n) == Prefix()[n]
  {
    if n > 0 {
      PrefixIsProduct(n - 1);
      PrefixStep(n - 1);
    }
  }

  /** No 64-bit step of an encoding overflows; the largest product is eight times the all-true word. */
  lemma ShippedFits()
    ensures WellFormed(Shipped()) && Fits(Shipped())
    ensures Word(Shipped(), AllSet(15)) == ALL_TRUE
    ensures Product(Shipped().factor, AllSet(15), 14) * Shipped().coeff[Shipped().cypher[14]] == 8 * ALL_TRUE < WORD
  {
    ShippedWellFormed();
    var t := Shipped();
    forall n | 0 <= n < 15 ensures Product(t.factor, AllSet(15), n) * t.coeff[t.cypher[n]] <= 8 * ALL_TRUE {
      PrefixIsProduct(n);
      PrefixStep(n);
    }
    PrefixIsProduct(14);
    PrefixIsProduct(15);
  }

  /** For each flag, `x` and `y` with `factor * x == others * y + 1`. */
  function Certificates(): seq<(nat, nat)> {
    [(16597173430129343, 58), (22907696656530194, 47), (8258348141634172, 9), (1, 0), (45902627883098761, 26),
     (15099962139434342, 25), (21737982882839194, 61), (1, 0), (18167383359763931, 18), (14136812932095899, 66),
     (1, 0), (1, 0), (10039241100513862, 1), (8835644549737574, 47), (29353490414997278, 5)]
  }

  lemma CertificateHolds(p: nat)
    requires p < 15
    ensures var f, c := Shipped().factor[p], Certificates()[p];
            f > 0 && f * c.0 == ALL_TRUE / f * c.1 + 1
  {
  }

  /** Each odd part is coprime to the product of all the others, hence to each of them. */
  lemma ShippedPair(i: nat, j: nat)
    requires i < 15 && j < 15 && i != j
    ensures Coprime(Shipped().factor[i], Shipped().factor[j])
  {
    var fs, all := Shipped().factor, AllSet(15);
    CertificateHolds(i);
    PrefixIsProduct(15);
    ProductWithout(fs, all, 15, i);
    var others := Product(fs, all[i := false], 15);
    Quotient(ALL_TRUE, others, fs[i]);
    ChosenFactorDivides(fs, all[i := false], 15, j);
    CertifiedCoprime(fs[i], others, Certificates()[i].0, Certificates()[i].1, fs[j]);
  }

  lemma Quotient(n: nat, q: nat, f: nat)
    requires f > 0 && n == q * f
    ensures n / f == q
  {
    var k, r := n / f, n % f;
    assert n == f * k + r;
    Distribute(f, q, k);
    SmallMultiple(f, q - k, r);
  }

  lemma ShippedLive(p: nat)
    requires p < 15
    ensures Shipped().cypher[p] < 15
    ensures Live(Shipped(), p) <==> p !in {3, 7, 10, 11}
    ensures Live(Shipped(), p) ==> Shipped().factor[p] > 1
  {
  }

  lemma ShippedIndependent()
    ensures WellFormed(Shipped()) && Independent(Shipped())
  {
    ShippedWellFormed();
    var t := Shipped();
    forall i, j | 0 <= i < 15 && 0 <= j < 15 && i != j ensures Coprime(t.factor[i], t.factor[j]) {
      ShippedPair(i, j);
    }
    forall p | 0 <= p < 15 && Live(t, p) ensures t.factor[p] > 1 {
      ShippedLive(p);
    }
  }

  /** The shipped codec: fifteen flags in and out through one 64-bit word, all but the four dead positions. */
  method ShippedRoundTrip(flags: seq<bool>) returns (word: nat, plain: seq<bool>)
    requires |flags| == 15
    ensures 0 < word <= ALL_TRUE
    ensures |plain| == 15
    ensures forall p :: 0 <= p < 15 ==> plain[p] == (flags[p] && p !in {3, 7, 10, 11})
  {
    ShippedFits();
    ShippedIndependent();
    word := Encode(Shipped(), flags);
    ProductMono(Shipped().factor, flags, AllSet(15), 15);
    plain := Decode(Shipped(), word);
    forall p | 0 <= p < 15 ensures plain[p] == (flags[p] && p !in {3, 7, 10, 11}) {
      RoundTrip(Shipped(), flags, p);
      ShippedLive(p);
    }
  }

  /** `check_flags_sf_mi`: do the decoded scene flags name a map that is played and not edited? */
  method CheckFlags(sf: nat) returns (playing: bool)
    ensures playing <==> sf != 0 && sf % 53 != 0 && sf % 89 != 0 && (sf % 43 == 0 || sf % 31 == 0)
  {
    ShippedIndependent();
    var sfs := Decode(Shipped(), sf);
    FourDivisors(sf, sfs);
    if sfs[5] || sfs[7] || sfs[9] || sfs[11] {
      return false;
    }
    return sfs[2] || sfs[3] || sfs[4];
  }

  lemma FlagIsDivisor(sf: nat, p: nat, f: nat)
    requires WellFormed(Shipped()) && p < 15 && f > 0 && Shipped().factor[p] == f && Shipped().cypher[p] < 15
    ensures Flag(Shipped(), sf, p) == (sf != 0 && Live(Shipped(), p) && sf % f == 0)
  {
    hide WellFormed, Shipped, Live, Divides;
    DividesMod(f, sf);
  }

  /** Of the seven flags the check looks at three can never be set; the others are four divisors. */
  lemma FourDivisors(sf: nat, sfs: seq<bool>)
    requires WellFormed(Shipped()) && |sfs| == 15
    requires forall p :: 0 <= p < 15 ==> sfs[p] == Flag(Shipped(), sf, p)
    ensures !sfs[3] && !sfs[7] && !sfs[11]
    ensures sfs[5] == (sf != 0 && sf % 53 == 0) && sfs[9] == (sf != 0 && sf % 89 == 0)
    ensures sfs[2] == (sf != 0 && sf % 43 == 0) && sfs[4] == (sf != 0 && sf % 31 == 0)
  {
    hide WellFormed, Flag;
    FlagIsDivisor(sf, 5, 53);
    FlagIsDivisor(sf, 9, 89);
    FlagIsDivisor(sf, 2, 43);
    FlagIsDivisor(sf, 4, 31);
    DeadFlags(sf);
  }

  lemma DeadFlags(sf: nat)
    requires WellFormed(Shipped())
    ensures !Flag(Shipped(), sf, 3) && !Flag(Shipped(), sf, 7) && !Flag(Shipped(), sf, 11)
  {
  }
}
