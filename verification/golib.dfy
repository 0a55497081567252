/**
 * The three Go standard-library calls `paperSize` relies on, modelled on strings
 * of characters: `strings.ToLower` (ASCII part), `strconv.Atoi` and
 * `(*regexp.Regexp).FindStringSubmatch` for an anchored pattern made of
 * single-character capture groups, which is the shape of `^([ab])([0-9])$`.
 */
module GoLib {
  import opened Wrappers

  // ---------------------------------------------------------------- strings

  function LowerChar(c: char): char {
    if 'A' <= c <= 'Z' then (c as int + 32) as char else c
  }

  /** `strings.ToLower`, restricted to ASCII upper-case letters. */
  function ToLower(s: string): (r: string)
    ensures |r| == |s|
    ensures forall i :: 0 <= i < |s| ==> r[i] == LowerChar(s[i])
  {
    if s == [] then [] else [LowerChar(s[0])] + ToLower(s[1..])
  }

  /** Lower-casing twice is lower-casing once. */
  lemma ToLowerIdempotent(s: string)
    ensures ToLower(ToLower(s)) == ToLower(s)
  {
  }

  // ---------------------------------------------------------------- strconv

  const MinInt64: int := -0x8000_0000_0000_0000
  const MaxInt64: int := 0x7fff_ffff_ffff_ffff

  datatype NumError = ErrSyntax | ErrRange

  predicate IsDigit(c: char) {
    '0' <= c <= '9'
  }

  predicate AllDigits(s: string) {
    forall i :: 0 <= i < |s| ==> IsDigit(s[i])
  }

  function Pow10(n: nat): (r: nat)
    ensures r >= 1
  {
    if n == 0 then 1 else 10 * Pow10(n - 1)
  }

  /** The value of a string of decimal digits, most significant first. */
  function DecimalValue(ds: string): (r: nat)
    requires AllDigits(ds)
    ensures r < Pow10(|ds|)
  {
    if ds == [] then 0
    else
      var init := ds[..|ds| - 1];
      DecimalValue(init) * 10 + (ds[|ds| - 1] as int - '0' as int)
  }

  const MaxUint64: int := 0xffff_ffff_ffff_ffff

  /** The text after an optional leading sign. */
  function Unsigned(s: string): string {
    if |s| > 0 && (s[0] == '+' || s[0] == '-') then s[1..] else s
  }

  /** The longest prefix of `s` made of decimal digits. */
  function DigitPrefix(s: string): (p: string)
    ensures AllDigits(p) && |p| <= |s| && p == s[..|p|]
    ensures |p| < |s| ==> !IsDigit(s[|p|])
  {
    if s == [] || !IsDigit(s[0]) then [] else [s[0]] + DigitPrefix(s[1..])
  }

  /** Atoi accepts an optional sign followed by at least one decimal digit. */
  predicate WellFormedInt(s: string) {
    |Unsigned(s)| > 0 && AllDigits(Unsigned(s))
  }

  /** Go's scan reports a range error as soon as the digits read so far exceed
      the unsigned 64-bit range, before it reaches a later non-digit. */
  predicate ScanOverflows(s: string) {
    DecimalValue(DigitPrefix(Unsigned(s))) > MaxUint64
  }

  /** The integer a well-formed decimal text denotes, before any range check. */
  function SignedValue(s: string): int
    requires WellFormedInt(s)
  {
    if s[0] == '-' then 0 - DecimalValue(Unsigned(s)) as int
    else DecimalValue(Unsigned(s))
  }

  /** `strconv.Atoi` on a 64-bit platform. The digits after an optional sign are
      scanned left to right: once they exceed the unsigned 64-bit range the
      result is a range error, a non-digit met before that (or no digit at all)
      is a syntax error, and a complete number outside the int64 range is a
      range error. */
  function Atoi(s: string): (r: Result<int, NumError>)
    ensures r.Ok? <==> WellFormedInt(s) && MinInt64 <= SignedValue(s) <= MaxInt64
    ensures r.Ok? ==> r.value == SignedValue(s)
    ensures r == Err(ErrSyntax) <==> !WellFormedInt(s) && !ScanOverflows(s)
    ensures r == Err(ErrRange) <==>
              ScanOverflows(s) || (WellFormedInt(s) && !(MinInt64 <= SignedValue(s) <= MaxInt64))
  {
    var negative := |s| > 0 && s[0] == '-';
    var digits := Unsigned(s);
    var prefix := DigitPrefix(digits);
    assert AllDigits(digits) ==> prefix == digits;
    if |digits| == 0 then Err(ErrSyntax)
    else if DecimalValue(prefix) > MaxUint64 then Err(ErrRange)
    else if |prefix| < |digits| then Err(ErrSyntax)
    else
      assert prefix == digits;
      var v: int := DecimalValue(digits);
      var n := if negative then -v else v;
      if n < MinInt64 || MaxInt64 < n then Err(ErrRange) else Ok(n)
  }

  function DigitChar(d: nat): char
    requires d < 10
  {
    ('0' as int + d) as char
  }

  /** The decimal digits of `n`, without leading zeros (`strconv.Itoa` of a
      non-negative number). */
  function Digits(n: nat): (ds: string)
    ensures |ds| > 0 && AllDigits(ds)
  {
    if n < 10 then [DigitChar(n)] else Digits(n / 10) + [DigitChar(n % 10)]
  }

  /** `strconv.Itoa`. */
  function Itoa(n: int): string {
    if n < 0 then "-" + Digits(-n) else Digits(n)
  }

  lemma {:induction false} DecimalValueOfDigits(n: nat)
    ensures DecimalValue(Digits(n)) == n
  {
    if n >= 10 {
      DecimalValueOfDigits(n / 10);
      var ds := Digits(n);
      assert ds[..|ds| - 1] == Digits(n / 10);
    }
  }

  /** Atoi reads back every int64 that Itoa writes. */
  lemma AtoiItoa(n: int)
    requires MinInt64 <= n <= MaxInt64
    ensures Atoi(Itoa(n)) == Ok(n)
  {
    var s := Itoa(n);
    if n < 0 {
      var ds := Digits(-n);
      DecimalValueOfDigits(-n);
      assert s[0] == '-' && s[1..] == ds;
    } else {
      DecimalValueOfDigits(n);
      assert IsDigit(s[0]);
    }
    assert WellFormedInt(s) && SignedValue(s) == n;
  }

  /** A single decimal digit always converts, to its own value. */
  lemma AtoiDigit(c: char)
    requires IsDigit(c)
    ensures Atoi([c]) == Ok(c as int - '0' as int)
  {
    assert [c][..0] == [];
  }

  /** Appending a digit keeps a lower bound, scaled by ten. */
  lemma ShiftBound(v: int, lead: int, weight: int, last: int)
    requires v >= lead * weight && last >= 0
    ensures v * 10 + last >= lead * (weight * 10)
  {
  }

  /** A number is at least its leading digit times the weight of that digit. */
  lemma {:induction false} DecimalValueAtLeast(ds: string)
    requires AllDigits(ds) && |ds| > 0
    ensures DecimalValue(ds) >= (ds[0] as int - '0' as int) * Pow10(|ds| - 1)
  {
    if |ds| > 1 {
      var init := ds[..|ds| - 1];
      DecimalValueAtLeast(init);
      assert init[0] == ds[0];
      var weight := Pow10(|init| - 1);
      assert Pow10(|ds| - 1) == weight * 10;
      ShiftBound(DecimalValue(init), ds[0] as int - '0' as int, weight, ds[|ds| - 1] as int - '0' as int);
    }
  }

  /** The scan stops at the first non-digit after a run of digits. */
  lemma {:induction false} DigitPrefixStops(t: string, rest: string)
    requires AllDigits(t)
    requires rest == [] || !IsDigit(rest[0])
    ensures DigitPrefix(t + rest) == t
  {
    if t != [] {
      assert (t + rest)[1..] == t[1..] + rest;
      DigitPrefixStops(t[1..], rest);
    } else {
      assert t + rest == rest;
    }
  }

  lemma {:induction false} Pow10Add(m: nat, n: nat)
    ensures Pow10(m + n) == Pow10(m) * Pow10(n)
  {
    if n > 0 {
      Pow10Add(m, n - 1);
    }
  }

  lemma Pow10Nineteen()
    ensures Pow10(19) == 10_000_000_000_000_000_000
  {
    assert Pow10(4) == 10_000;
    Pow10Add(4, 4);
    Pow10Add(8, 8);
    Pow10Add(16, 3);
  }

  /** Twenty nines overflow the unsigned 64-bit range before the scan reaches
      the trailing `x`, so the error is a range error. */
  lemma AtoiOverflowBeforeJunk()
    ensures Atoi("99999999999999999999x") == Err(ErrRange)
  {
    var nines := "99999999999999999999";
    assert Unsigned(nines + "x") == nines + "x";
    DigitPrefixStops(nines, "x");
    DecimalValueAtLeast(nines);
    Pow10Nineteen();
    assert ScanOverflows(nines + "x");
    assert nines + "x" == "99999999999999999999x";
  }

  /** A short number followed by `x` is a syntax error. */
  lemma AtoiJunkAfterDigits()
    ensures Atoi("-12x") == Err(ErrSyntax)
  {
    assert Unsigned("-12x") == "12" + "x";
    DigitPrefixStops("12", "x");
    assert !IsDigit(Unsigned("-12x")[2]);
  }

  /** A complete number past the int64 range is a range error. */
  lemma AtoiPastInt64()
    ensures Atoi("10000000000000000000") == Err(ErrRange)
  {
    var big := "10000000000000000000";
    assert IsDigit(big[0]);
    DecimalValueAtLeast(big);
    Pow10Nineteen();
    assert SignedValue(big) >= Pow10(19);
  }

  // ---------------------------------------------------------------- regexp

  /** `s` matches the anchored pattern whose i-th capture group is the one
      character class `classes[i]` (a string listing the allowed characters). */
  predicate MatchesClasses(classes: seq<string>, s: string) {
    |s| == |classes| && forall i :: 0 <= i < |s| ==> s[i] in classes[i]
  }

  /** The capture groups of such a pattern: one single-character group per class. */
  function Groups(classes: seq<string>, s: string): (g: Option<seq<string>>)
    ensures g.Some? <==> MatchesClasses(classes, s)
    ensures g.Some? ==> |g.value| == |s| && forall i :: 0 <= i < |s| ==> g.value[i] == [s[i]]
    decreases s
  {
    if classes == [] || s == [] then
      if classes == [] && s == [] then Some([]) else None
    else if s[0] !in classes[0] then None
    else
      match Groups(classes[1..], s[1..])
      case None => None
      case Some(rest) => Some([s[..1]] + rest)
  }

  /** `FindStringSubmatch`: empty when there is no match, otherwise the whole
      match followed by one entry per capture group. */
  function FindStringSubmatch(classes: seq<string>, s: string): (m: seq<string>)
    ensures |m| == 0 <==> !MatchesClasses(classes, s)
    ensures |m| != 0 ==> |m| == |classes| + 1 && m[0] == s
    ensures |m| != 0 ==> forall i :: 0 <= i < |s| ==> m[i + 1] == [s[i]]
  {
    match Groups(classes, s)
    case None => []
    case Some(g) => [s] + g
  }
}
