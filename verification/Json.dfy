/**
 The JSON values and the text helpers the catalog parsers use: field access, trimming,
 decimal printing and `str::parse::<u32>`.
 */
module JsonText {
  import opened Common

  /** An integer as serde_json stores it: an i64 or a u64. */
  type JsonInt = n: int | -0x8000_0000_0000_0000 <= n < 0x1_0000_0000_0000_0000

  const I64_LIMIT := 0x8000_0000_0000_0000

  type I64 = n: int | -I64_LIMIT <= n < I64_LIMIT

  /** `Num` is an integer, `Frac` any other number: a finite float, as the real it stands for. */
  datatype Json =
    | Null
    | Bool(flag: bool)
    | Num(number: JsonInt)
    | Frac(value: real)
    | Str(text: string)
    | Arr(items: seq<Json>)
    | Obj(fields: map<string, Json>)

  function Get(v: Json, key: string): Option<Json> {
    if v.Obj? && key in v.fields then Some(v.fields[key]) else None
  }

  function GetEither(v: Json, first: string, second: string): Option<Json> {
    if Get(v, first).Some? then Get(v, first) else Get(v, second)
  }

  function GetStr(v: Json, key: string): Option<string> {
    if Get(v, key).Some? && Get(v, key).value.Str? then Some(Get(v, key).value.text) else None
  }

  function GetArr(v: Json, key: string): Option<seq<Json>> {
    if Get(v, key).Some? && Get(v, key).value.Arr? then Some(Get(v, key).value.items) else None
  }

  /** `as_u64` cast to i64: the upper half of u64 wraps around. */
  function Wrapped(n: JsonInt): (r: I64)
    ensures n < I64_LIMIT ==> r == n
  {
    if n < I64_LIMIT then n else n - 2 * I64_LIMIT
  }

  /** Toward zero. */
  function Truncated(x: real): (r: int)
    ensures x >= 0.0 ==> r as real <= x < r as real + 1.0
    ensures x <= 0.0 ==> r as real - 1.0 < x <= r as real
  {
    if x >= 0.0 then x.Floor else -(-x).Floor
  }

  /** `as_f64` cast to i64: the fraction is cut off, and what does not fit saturates. */
  function Saturated(x: real): (r: I64)
    ensures -I64_LIMIT as real <= x < I64_LIMIT as real ==> r == Truncated(x)
    ensures x >= I64_LIMIT as real ==> r == I64_LIMIT - 1
    ensures x < -I64_LIMIT as real ==> r == -I64_LIMIT
  {
    var t := Truncated(x);
    if t < -I64_LIMIT then -I64_LIMIT else if t >= I64_LIMIT then I64_LIMIT - 1 else t
  }

  /** A number as an i64: `as_i64`, else `as_u64` cast, else `as_f64` cast. */
  function AsI64(v: Json): (r: Option<I64>)
    ensures r.Some? <==> v.Num? || v.Frac?
  {
    if v.Num? then Some(Wrapped(v.number)) else if v.Frac? then Some(Saturated(v.value)) else None
  }

  // ---- trimming ----

  /** Unicode White_Space, as `str::trim` has it. */
  predicate IsSpace(c: char) {
    '\t' <= c <= '\r' || c == ' ' || c == '\U{85}' || c == '\U{A0}' || c == '\U{1680}'
    || '\U{2000}' <= c <= '\U{200A}' || c == '\U{2028}' || c == '\U{2029}' || c == '\U{202F}'
    || c == '\U{205F}' || c == '\U{3000}'
  }

  /** Those are twenty-five characters. */
  lemma SpacesListed(c: char)
    ensures IsSpace(c) <==>
              c in ['\t', '\n', '\U{B}', '\U{C}', '\r', ' ', '\U{85}', '\U{A0}', '\U{1680}', '\U{2000}', '\U{2001}',
                    '\U{2002}', '\U{2003}', '\U{2004}', '\U{2005}', '\U{2006}', '\U{2007}', '\U{2008}', '\U{2009}',
                    '\U{200A}', '\U{2028}', '\U{2029}', '\U{202F}', '\U{205F}', '\U{3000}']
  {
  }

  predicate Trimmed(s: string) {
    s == "" || (!IsSpace(s[0]) && !IsSpace(s[|s| - 1]))
  }

  /** Not blank, and without white space at either end. */
  predicate Canonical(s: string) {
    s != "" && Trimmed(s)
  }

  function TrimStart(s: string): (r: string)
    ensures r == "" || !IsSpace(r[0])
    ensures |r| <= |s|
    ensures |r| > 0 ==> r[|r| - 1] == s[|s| - 1]
  {
    if s != "" && IsSpace(s[0]) then TrimStart(s[1..]) else s
  }

  function TrimEnd(s: string): (r: string)
    ensures r == "" || !IsSpace(r[|r| - 1])
    ensures |r| <= |s|
    ensures |r| > 0 ==> r[0] == s[0]
  {
    if s != "" && IsSpace(s[|s| - 1]) then TrimEnd(s[..|s| - 1]) else s
  }

  function Trim(s: string): (r: string)
    ensures Trimmed(r)
  {
    TrimEnd(TrimStart(s))
  }

  lemma TrimKeeps(s: string)
    requires Trimmed(s)
    ensures Trim(s) == s
  {
  }

  predicate AllSpace(s: string) {
    forall i :: 0 <= i < |s| ==> IsSpace(s[i])
  }

  /** Trimming takes white space off both ends, and nothing else. */
  lemma TrimIsMiddle(s: string) returns (front: string, back: string)
    ensures s == front + Trim(s) + back && AllSpace(front) && AllSpace(back)
  {
    front := TrimmedStart(s);
    back := TrimmedEnd(TrimStart(s));
  }

  lemma {:induction false} TrimmedStart(s: string) returns (front: string)
    ensures s == front + TrimStart(s) && AllSpace(front)
  {
    front := "";
    if s != "" && IsSpace(s[0]) {
      var rest := TrimmedStart(s[1..]);
      front := [s[0]] + rest;
    }
  }

  lemma {:induction false} TrimmedEnd(s: string) returns (back: string)
    ensures s == TrimEnd(s) + back && AllSpace(back)
  {
    back := "";
    if s != "" && IsSpace(s[|s| - 1]) {
      var rest := TrimmedEnd(s[..|s| - 1]);
      back := rest + [s[|s| - 1]];
    }
  }

  /** A text is blank if and only if all of it is white space. */
  lemma BlankIsAllSpace(s: string)
    ensures Trim(s) == "" <==> AllSpace(s)
  {
    var front, back := TrimIsMiddle(s);
    var t := Trim(s);
    if t != "" {
      assert s[|front|] == t[0];
    } else {
      assert s == front + back;
    }
  }

  /** Numbers as i64: integers wrap into the range, fractions are cut. */
  lemma NumbersAreCast(v: Json)
    ensures v.Num? && v.number < I64_LIMIT ==> AsI64(v) == Some(v.number)
    ensures v.Num? && v.number >= I64_LIMIT ==> AsI64(v) == Some(v.number - 0x1_0000_0000_0000_0000)
    ensures v.Frac? && -I64_LIMIT as real <= v.value < I64_LIMIT as real ==> AsI64(v) == Some(Truncated(v.value))
    ensures v.Frac? && v.value >= I64_LIMIT as real ==> AsI64(v) == Some(I64_LIMIT - 1)
    ensures v.Frac? && v.value < -I64_LIMIT as real ==> AsI64(v) == Some(-I64_LIMIT)
  {
  }

  // ---- decimal numbers ----

  const U32_MAX: nat := 0xFFFF_FFFF

  predicate IsDigit(c: char) {
    '0' <= c <= '9'
  }

  function Digit(c: char): nat
    requires IsDigit(c)
  {
    c as nat - '0' as nat
  }

  function DigitChar(d: nat): (c: char)
    requires d < 10
    ensures IsDigit(c) && Digit(c) == d
  {
    '0' + d as char
  }

  predicate AllDigits(s: string) {
    forall i :: 0 <= i < |s| ==> IsDigit(s[i])
  }

  function Value(s: string): nat
    requires AllDigits(s)
  {
    if s == "" then 0 else 10 * Value(s[..|s| - 1]) + Digit(s[|s| - 1])
  }

  /** `str::parse::<u32>`: an optional plus sign, then digits, in range. */
  function ParseU32(s: string): Option<nat> {
    var digits := if s != "" && s[0] == '+' then s[1..] else s;
    if digits != "" && AllDigits(digits) && Value(digits) <= U32_MAX then Some(Value(digits)) else None
  }

  /** How `format!` prints a number. */
  function Decimal(n: nat): (s: string)
    ensures s != "" && AllDigits(s) && Value(s) == n
  {
    if n < 10 then
      assert [DigitChar(n)][..0] == "";
      [DigitChar(n)]
    else
      var front := Decimal(n / 10);
      var s := front + [DigitChar(n % 10)];
      assert s[..|s| - 1] == front;
      s
  }

  /** A plus sign and leading zeros are accepted and change nothing. */
  lemma {:induction false} PlusAndZeros(s: string)
    requires s != "" && s[0] != '+'
    ensures ParseU32("+" + s) == ParseU32(s)
    ensures AllDigits(s) ==> ParseU32("0" + s) == ParseU32(s)
  {
    assert ("+" + s)[1..] == s;
    if AllDigits(s) {
      ZeroInFront(s);
      assert ("0" + s)[0] == '0' && AllDigits("0" + s);
    }
  }

  lemma {:induction false} ZeroInFront(s: string)
    requires AllDigits(s)
    ensures AllDigits("0" + s) && Value("0" + s) == Value(s)
  {
    if s == "" {
      assert "0" + s == "0" && "0"[..0] == "";
    } else {
      ZeroInFront(s[..|s| - 1]);
      assert ("0" + s)[..|s|] == "0" + s[..|s| - 1];
    }
  }

  lemma OneMoreDigit(n: nat, d: nat, front: string)
    requires n > 0 && d < 10 && Decimal(n) == front
    ensures Decimal(10 * n + d) == front + [DigitChar(d)]
  {
    hide Value;
    assert (10 * n + d) / 10 == n && (10 * n + d) % 10 == d;
  }

  lemma HalfOfLargest()
    ensures Decimal(42949) == "42949"
  {
    assert Decimal(4) == "4";
    hide Decimal;
    OneMoreDigit(4, 2, "4");
    OneMoreDigit(42, 9, "42");
    OneMoreDigit(429, 4, "429");
    OneMoreDigit(4294, 9, "4294");
  }

  lemma LargestDecimal()
    ensures Decimal(U32_MAX) == "4294967295"
  {
    hide Decimal;
    HalfOfLargest();
    OneMoreDigit(42949, 6, "42949");
    OneMoreDigit(429496, 7, "429496");
    OneMoreDigit(4294967, 2, "4294967");
    OneMoreDigit(42949672, 9, "42949672");
    OneMoreDigit(429496729, 5, "429496729");
  }

  lemma {:induction false} DecimalParses(n: nat)
    requires n <= U32_MAX
    ensures ParseU32(Decimal(n)) == Some(n)
  {
    assert IsDigit(Decimal(n)[0]);
  }
}
