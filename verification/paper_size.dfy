/**
 * The paper-size resolver of pdf.go: a size code becomes a width/height pair.
 * Keywords are looked up as given; otherwise the lower-cased code must be a
 * series letter and one digit, and the series' 0-size is walked down that many
 * swap-and-halve steps and converted from inches to points (1/72 inch).
 *
 * The tables are the package's mutable maps of slices. `paperSize` works on the
 * slice stored in the map, not on a copy, so the class below keeps the entries
 * as arrays and the resolving method hands back, and overwrites, the very array
 * held by the table.
 */
module PaperSizes {
  import opened Wrappers
  import GoLib

  /** A width/height pair: inches in the tables, points once converted. */
  datatype Size = Size(width: real, height: real)

  const PointsPerInch: real := 72.0

  /** The series 0-sizes in inches, approximating ISO 216 A0 and B0. */
  const InitialZeroSizes: map<string, Size> := map["a" := Size(33.1, 46.8), "b" := Size(39.4, 55.7)]

  /** The keyword sizes in inches. */
  const InitialKeywordSizes: map<string, Size> := map["letter" := Size(8.5, 11.0)]

  /** The code pattern `^([ab])([0-9])$`, one character class per capture group. */
  const CodePattern: seq<string> := ["ab", "0123456789"]

  // ------------------------------------------------------------ size arithmetic

  /** One step down a series: the long side is halved and the pair turned. */
  function Step(s: Size): (r: Size)
    ensures IsSeriesShape(s) ==> IsSeriesShape(r)
  {
    Size(s.height / 2.0, s.width)
  }

  /** The size `n` steps down the series that starts at `base`. A portrait
      size at most twice as tall as wide keeps that shape at every step. */
  function HalveSteps(base: Size, n: nat): (r: Size)
    ensures IsSeriesShape(base) ==> IsSeriesShape(r)
  {
    if n == 0 then base
    else
      var prev := HalveSteps(base, n - 1);
      Step(prev)
  }

  /** Inches to PDF points. */
  function ToPoints(s: Size): (r: Size)
    ensures Area(r) == PointsPerInch * PointsPerInch * Area(s)
    ensures IsSeriesShape(r) <==> IsSeriesShape(s)
  {
    Size(s.width * PointsPerInch, s.height * PointsPerInch)
  }

  function Area(s: Size): real {
    s.width * s.height
  }

  function Pow2(n: nat): (r: real)
    ensures r >= 1.0
  {
    if n == 0 then 1.0 else 2.0 * Pow2(n - 1)
  }

  /** Portrait, and no more than twice as tall as wide: the shape of every ISO 216 size. */
  predicate IsSeriesShape(s: Size) {
    0.0 < s.width <= s.height <= 2.0 * s.width
  }

  // ------------------------------------------------------------ code classification

  /** How `paperSize` reads a code: a keyword, a series letter with its index, or neither. */
  datatype Lookup = Keyword(key: string) | Series(letter: string, index: nat) | Invalid

  /** Keywords are matched on the code as given; series codes after lower-casing. */
  function Classify(keywords: set<string>, code: string): (c: Lookup)
    ensures c.Keyword? <==> code in keywords
    ensures c.Keyword? ==> c.key == code
  {
    if code in keywords then Keyword(code)
    else
      var s := GoLib.ToLower(code);
      if |s| == 2 && (s[0] == 'a' || s[0] == 'b') && GoLib.IsDigit(s[1])
      then Series([s[0]], s[1] as int - '0' as int)
      else Invalid
  }

  // ------------------------------------------------------------ resolution on values

  datatype PaperError =
    | InvalidPaperCode(code: string)
    | ConversionFailed(cause: GoLib.NumError)
    | UnknownSeries

  /** The physical size, in inches, that a code names under the given tables. */
  function Inches(keywords: map<string, Size>, zeroSizes: map<string, Size>, code: string): Result<Size, PaperError> {
    match Classify(keywords.Keys, code)
    case Keyword(k) => Ok(keywords[k])
    case Series(l, n) => if l in zeroSizes then Ok(HalveSteps(zeroSizes[l], n)) else Err(UnknownSeries)
    case Invalid => Err(InvalidPaperCode(code))
  }

  /** What `paperSize` returns, as written: series sizes in points, keyword sizes
      exactly as stored, in inches. */
  function Resolve(keywords: map<string, Size>, zeroSizes: map<string, Size>, code: string): (r: Result<Size, PaperError>)
    ensures code in keywords ==> r == Ok(keywords[code])
    ensures match Classify(keywords.Keys, code)
      case Series(l, n) =>
        if l in zeroSizes then r == Ok(ToPoints(HalveSteps(zeroSizes[l], n))) else r == Err(UnknownSeries)
      case Invalid => r == Err(InvalidPaperCode(code))
      case Keyword(_) => true
  {
    var inches := Inches(keywords, zeroSizes, code);
    if inches.Err? || Classify(keywords.Keys, code).Keyword? then inches
    else Ok(ToPoints(inches.value))
  }

  // ------------------------------------------------------------ the package state

  function Entry(a: array<real>): Size
    requires a.Length == 2
    reads a
  {
    Size(a[0], a[1])
  }

  /** The package variables `zeroSizes` and `keywordSizes`: maps from a name to a
      two-element slice, here a two-element array. */
  class SizeTables {
    var zeroSizes: map<string, array<real>>
    var keywordSizes: map<string, array<real>>

    ghost predicate Valid()
      reads this
    {
      zeroSizes.Keys == {"a", "b"} && keywordSizes.Keys == {"letter"} &&
      zeroSizes["a"] != zeroSizes["b"] &&
      keywordSizes["letter"].Length == 2 &&
      forall k :: k in zeroSizes ==> zeroSizes[k].Length == 2 && zeroSizes[k] != keywordSizes["letter"]
    }

    function ZeroTable(): map<string, Size>
      requires Valid()
      reads this, zeroSizes.Values
    {
      map k | k in zeroSizes :: Entry(zeroSizes[k])
    }

    function KeywordTable(): map<string, Size>
      requires Valid()
      reads this, keywordSizes.Values
    {
      map k | k in keywordSizes :: Entry(keywordSizes[k])
    }

    /** The tables as the package initialises them. */
    constructor ()
      ensures Valid()
      ensures ZeroTable() == InitialZeroSizes && KeywordTable() == InitialKeywordSizes
      ensures fresh(zeroSizes.Values) && fresh(keywordSizes.Values)
    {
      var a := new real[] [33.1, 46.8];
      var b := new real[] [39.4, 55.7];
      var letter := new real[] [8.5, 11.0];
      zeroSizes := map["a" := a, "b" := b];
      keywordSizes := map["letter" := letter];
      new;
      assert Entry(a) == InitialZeroSizes["a"] && Entry(b) == InitialZeroSizes["b"];
      assert Entry(letter) == InitialKeywordSizes["letter"];
      assert ZeroTable().Keys == InitialZeroSizes.Keys;
      assert KeywordTable().Keys == InitialKeywordSizes.Keys;
    }

    /**
     * `paperSize`. On success the result is the table's own array: for a series
     * code the series entry is overwritten with the returned size, so a later
     * call for the same letter starts from it; nothing else changes.
     */
    method PaperSize(code: string) returns (r: Result<array<real>, PaperError>)
      requires Valid()
      modifies zeroSizes.Values
      ensures Valid()
      ensures KeywordTable() == old(KeywordTable())
      ensures r.Err? <==> old(Resolve(KeywordTable(), ZeroTable(), code)).Err?
      ensures r.Err? ==> r.error == old(Resolve(KeywordTable(), ZeroTable(), code)).error
      ensures r.Ok? ==> r.value.Length == 2 && Entry(r.value) == old(Resolve(KeywordTable(), ZeroTable(), code)).value
      ensures match Classify(keywordSizes.Keys, code)
        case Keyword(k) => r == Ok(keywordSizes[k]) && ZeroTable() == old(ZeroTable())
        case Series(l, _) => r == Ok(zeroSizes[l]) && ZeroTable() == old(ZeroTable())[l := Entry(zeroSizes[l])]
        case Invalid => ZeroTable() == old(ZeroTable())
    {
      ghost var keywords, zeros := KeywordTable(), ZeroTable();
      assert keywords.Keys == keywordSizes.Keys;
      if code in keywordSizes {
        return Ok(keywordSizes[code]);
      }

      var lowered := GoLib.ToLower(code);
      var m := GoLib.FindStringSubmatch(CodePattern, lowered);
      ClassifyMatchesPattern(keywordSizes.Keys, code);
      if |m| == 0 {
        return Err(InvalidPaperCode(code));
      }

      var letter := m[1];
      GoLib.AtoiDigit(lowered[1]);
      var index := GoLib.Atoi(m[2]);
      match index {
        case Err(cause) =>
          assert false;
          return Err(ConversionFailed(cause));
        case Ok(_) =>
      }

      if letter !in zeroSizes {
        // The Go code reports this with the nil conversion error.
        assert false;
        return Err(UnknownSeries);
      }
      ghost var n: nat := index.value;
      assert Classify(keywords.Keys, code) == Series(letter, n);
      assert Resolve(keywords, zeros, code) == Ok(ToPoints(HalveSteps(zeros[letter], n)));
      var size := WalkSeries(letter, index.value);
      return Ok(size);
    }

    /**
     * The tail of `paperSize` for series `letter`: the table's own array is
     * stepped `index` times down the series and converted to points in place.
     */
    method WalkSeries(letter: string, index: nat) returns (size: array<real>)
      requires Valid() && letter in zeroSizes
      modifies zeroSizes[letter]
      ensures Valid()
      ensures size == zeroSizes[letter]
      ensures ZeroTable() == old(ZeroTable())[letter := ToPoints(HalveSteps(old(ZeroTable())[letter], index))]
      ensures KeywordTable() == old(KeywordTable())
    {
      ghost var zeros := ZeroTable();
      size := zeroSizes[letter];
      ghost var base := Entry(size);
      var i := 0;
      while i < index
        invariant 0 <= i <= index
        invariant Entry(size) == HalveSteps(base, i)
        modifies size
      {
        var width := size[0];
        size[0] := size[1] / 2.0;
        size[1] := width;
        i := i + 1;
      }

      // PDF units are 1/72 inch.
      size[0] := size[0] * PointsPerInch;
      size[1] := size[1] * PointsPerInch;
      UpdatedTable(zeros, letter);
    }

    /** Overwriting one series entry leaves the other entry as it was. */
    lemma UpdatedTable(zeros: map<string, Size>, letter: string)
      requires Valid() && letter in zeroSizes
      requires zeros.Keys == zeroSizes.Keys
      requires forall k :: k in zeroSizes && k != letter ==> zeros[k] == Entry(zeroSizes[k])
      ensures ZeroTable() == zeros[letter := Entry(zeroSizes[letter])]
    {
    }
  }

  // ------------------------------------------------------------ lemmas

  /** A code is read as a series code exactly when it is no keyword and its
      lower-cased form matches `^([ab])([0-9])$`; the letter and index are
      the two capture groups. */
  lemma ClassifyMatchesPattern(keywords: set<string>, code: string)
    ensures Classify(keywords, code).Series? <==>
            code !in keywords && GoLib.MatchesClasses(CodePattern, GoLib.ToLower(code))
    ensures Classify(keywords, code).Series? ==>
            var s := GoLib.ToLower(code);
            Classify(keywords, code) == Series([s[0]], s[1] as int - '0' as int)
  {
    var s := GoLib.ToLower(code);
    if code !in keywords && |s| == 2 {
      var d := s[1];
      if GoLib.IsDigit(d) {
        assert CodePattern[1][d as int - '0' as int] == d;
      }
    }
  }

  /** Lower-casing a code that is no keyword (before or after) does not change how it is read. */
  lemma {:induction false} ClassifyIgnoresCase(keywords: set<string>, code: string)
    requires code !in keywords && GoLib.ToLower(code) !in keywords
    ensures Classify(keywords, code) == Classify(keywords, GoLib.ToLower(code))
  {
    GoLib.ToLowerIdempotent(code);
  }

  /** Two codes that lower-case alike and are no keywords resolve alike; only the
      text of the error, which quotes the code, can differ. */
  lemma ResolveIgnoresCase(keywords: map<string, Size>, zeroSizes: map<string, Size>, c1: string, c2: string)
    requires c1 !in keywords && c2 !in keywords
    requires GoLib.ToLower(c1) == GoLib.ToLower(c2)
    ensures Resolve(keywords, zeroSizes, c1).Ok? == Resolve(keywords, zeroSizes, c2).Ok?
    ensures Resolve(keywords, zeroSizes, c1).Ok? ==> Resolve(keywords, zeroSizes, c1) == Resolve(keywords, zeroSizes, c2)
  {
  }

  /** Concrete codes: series codes ignore case, the keyword does not, and
      anything but one series letter and one digit is refused. */
  lemma ClassifyExamples()
    ensures Classify(InitialKeywordSizes.Keys, "A4") == Series("a", 4)
    ensures Classify(InitialKeywordSizes.Keys, "a4") == Series("a", 4)
    ensures Classify(InitialKeywordSizes.Keys, "B0") == Series("b", 0)
    ensures Classify(InitialKeywordSizes.Keys, "letter") == Keyword("letter")
    ensures Classify(InitialKeywordSizes.Keys, "LETTER") == Invalid
    ensures Classify(InitialKeywordSizes.Keys, "") == Invalid
    ensures Classify(InitialKeywordSizes.Keys, "a") == Invalid
    ensures Classify(InitialKeywordSizes.Keys, "z9") == Invalid
    ensures Classify(InitialKeywordSizes.Keys, "a10") == Invalid
  {
    assert GoLib.LowerChar('A') == 'a';
    assert GoLib.LowerChar('B') == 'b';
  }

  /** A code accepted by `Classify` always resolves under tables holding both
      series: the conversion and missing-letter errors cannot occur. */
  lemma ResolveFailsOnlyOnInvalidCodes(keywords: map<string, Size>, zeroSizes: map<string, Size>, code: string)
    requires "a" in zeroSizes && "b" in zeroSizes
    ensures Resolve(keywords, zeroSizes, code).Err? <==> Classify(keywords.Keys, code) == Invalid
    ensures Resolve(keywords, zeroSizes, code).Err? ==> Resolve(keywords, zeroSizes, code) == Err(InvalidPaperCode(code))
  {
  }

  /** Closed form of the recurrence: after 2k steps both sides are divided by
      2^k; after 2k+1 steps the pair is also turned and the width halved once more. */
  lemma {:induction false} HalveStepsClosedForm(base: Size, k: nat)
    ensures HalveSteps(base, 2 * k) == Size(base.width / Pow2(k), base.height / Pow2(k))
    ensures HalveSteps(base, 2 * k + 1) == Size(base.height / (2.0 * Pow2(k)), base.width / Pow2(k))
  {
    if k > 0 {
      HalveStepsClosedForm(base, k - 1);
      var p := Pow2(k - 1);
      assert Pow2(k) == 2.0 * p;
      assert HalveSteps(base, 2 * k) == Step(HalveSteps(base, 2 * (k - 1) + 1));
      assert base.width / p / 2.0 == base.width / (2.0 * p);
      assert base.height / (2.0 * p) / 2.0 == base.height / (2.0 * (2.0 * p));
    }
  }

  /** Every step halves the area. */
  lemma {:induction false} HalveStepsArea(base: Size, n: nat)
    ensures Area(HalveSteps(base, n)) * Pow2(n) == Area(base)
  {
    if n > 0 {
      HalveStepsArea(base, n - 1);
      var s := HalveSteps(base, n - 1);
      assert Area(Step(s)) * 2.0 == Area(s);
      calc {
        Area(HalveSteps(base, n)) * Pow2(n);
        Area(Step(s)) * (2.0 * Pow2(n - 1));
        (Area(Step(s)) * 2.0) * Pow2(n - 1);
        Area(s) * Pow2(n - 1);
      }
    }
  }

  /** Down the series both sides shrink, never grow. */
  lemma HalveStepsShrink(base: Size, n: nat)
    requires IsSeriesShape(base)
    ensures HalveSteps(base, n + 1).width <= HalveSteps(base, n).width
    ensures HalveSteps(base, n + 1).height <= HalveSteps(base, n).height
  {
    assert IsSeriesShape(HalveSteps(base, n));
  }

  /** Every series code resolved from the initial tables names a portrait page
      no more than twice as tall as wide. */
  lemma SeriesSizesKeepShape(code: string)
    requires Classify(InitialKeywordSizes.Keys, code).Series?
    ensures Resolve(InitialKeywordSizes, InitialZeroSizes, code).Ok?
    ensures IsSeriesShape(Resolve(InitialKeywordSizes, InitialZeroSizes, code).value)
  {
    var l, n := Classify(InitialKeywordSizes.Keys, code).letter, Classify(InitialKeywordSizes.Keys, code).index;
    assert IsSeriesShape(InitialZeroSizes[l]);
  }

  /** The series code with a lower-case letter and index `i`. */
  function SeriesCode(letter: char, i: nat): string
    requires i <= 9
  {
    [letter, ('0' as int + i) as char]
  }

  /** One index further down a series is one more swap-and-halve step, in points too. */
  lemma SeriesRecurrence(keywords: map<string, Size>, zeroSizes: map<string, Size>, letter: char, i: nat)
    requires letter == 'a' || letter == 'b'
    requires [letter] in zeroSizes
    requires i < 9
    requires SeriesCode(letter, i) !in keywords && SeriesCode(letter, i + 1) !in keywords
    ensures Resolve(keywords, zeroSizes, SeriesCode(letter, i)).Ok?
    ensures Resolve(keywords, zeroSizes, SeriesCode(letter, i + 1)) ==
            Ok(Step(Resolve(keywords, zeroSizes, SeriesCode(letter, i)).value))
  {
    assert Classify(keywords.Keys, SeriesCode(letter, i)) == Series([letter], i);
    assert Classify(keywords.Keys, SeriesCode(letter, i + 1)) == Series([letter], i + 1);
  }

  lemma {:induction false} Pow2AtMost512(n: nat)
    requires n <= 9
    ensures Pow2(n) <= 512.0
    decreases 9 - n
  {
    if n < 9 {
      Pow2AtMost512(n + 1);
      assert Pow2(n + 1) == 2.0 * Pow2(n);
    } else {
      assert Pow2(9) == 512.0;
    }
  }

  /** Resolving a size again from its own result never gives it back: at most
      nine halvings cannot undo the factor of 72 on each side. */
  lemma ReResolveGrows(x: Size, n: nat)
    requires Area(x) > 0.0
    requires n <= 9
    ensures Area(ToPoints(HalveSteps(x, n))) > Area(x)
  {
    HalveStepsArea(x, n);
    Pow2AtMost512(n);
    var h := HalveSteps(x, n);
    var p := Pow2(n);
    assert Area(ToPoints(h)) == 5184.0 * Area(h);
    assert Area(h) * p == Area(x);
    assert Area(h) > 0.0;
    assert Area(h) * p <= Area(h) * 512.0;
  }

  /**
   * Two calls of `paperSize` with the same code on freshly initialised tables.
   * For a series code the second call starts from the size the first one left
   * in the table and therefore returns a different, larger size; for any other
   * code both calls agree.
   */
  method PaperSizeTwice(code: string) returns (first: Result<Size, PaperError>, second: Result<Size, PaperError>)
    ensures first == Resolve(InitialKeywordSizes, InitialZeroSizes, code)
    ensures match Classify(InitialKeywordSizes.Keys, code)
      case Series(_, n) =>
        first.Ok? && second == Ok(ToPoints(HalveSteps(first.value, n))) &&
        Area(second.value) > Area(first.value)
      case _ => second == first
  {
    var tables := new SizeTables();
    assert tables.keywordSizes.Keys == InitialKeywordSizes.Keys;
    var r := tables.PaperSize(code);
    first := if r.Ok? then Ok(Entry(r.value)) else Err(r.error);
    ghost var zerosAfter := tables.ZeroTable();
    assert first == Resolve(InitialKeywordSizes, InitialZeroSizes, code);
    r := tables.PaperSize(code);
    second := if r.Ok? then Ok(Entry(r.value)) else Err(r.error);
    assert second == Resolve(InitialKeywordSizes, zerosAfter, code);

    match Classify(InitialKeywordSizes.Keys, code)
    case Series(l, n) =>
      assert zerosAfter == InitialZeroSizes[l := first.value];
      ReResolveArea(InitialZeroSizes[l], n);
    case Keyword(_) =>
      assert zerosAfter == InitialZeroSizes;
    case Invalid =>
  }

  /** The second resolution of a series code has a larger area than the first. */
  lemma ReResolveArea(base: Size, n: nat)
    requires Area(base) > 0.0 && n <= 9
    ensures Area(ToPoints(HalveSteps(ToPoints(HalveSteps(base, n)), n))) > Area(ToPoints(HalveSteps(base, n)))
  {
    var first := ToPoints(HalveSteps(base, n));
    HalveStepsArea(base, n);
    Pow2AtMost512(n);
    assert Area(first) == 5184.0 * Area(HalveSteps(base, n));
    assert Area(HalveSteps(base, n)) > 0.0;
    ReResolveGrows(first, n);
  }

  // ------------------------------------------------------------ keyword units

  /** The size a code names, converted to points on both paths. */
  function ResolveInPoints(keywords: map<string, Size>, zeroSizes: map<string, Size>, code: string): (r: Result<Size, PaperError>)
    ensures r.Ok? <==> Resolve(keywords, zeroSizes, code).Ok?
    ensures r.Err? ==> r == Resolve(keywords, zeroSizes, code)
  {
    match Inches(keywords, zeroSizes, code)
    case Ok(s) => Ok(ToPoints(s))
    case Err(e) => Err(e)
  }

  /** As written, "letter" resolves to 8.5 x 11, the inch values, which a PDF
      reads as points; converted, it is the 612 x 792 points of a US Letter page. */
  lemma LetterResolvesToInches()
    ensures Resolve(InitialKeywordSizes, InitialZeroSizes, "letter") == Ok(Size(8.5, 11.0))
    ensures ResolveInPoints(InitialKeywordSizes, InitialZeroSizes, "letter") == Ok(Size(612.0, 792.0))
  {
  }

  /** With the keyword path converted, a keyword resolves to 72 times its stored
      size, and only keywords resolve differently from the code as written. */
  lemma ResolveInPointsUnits(keywords: map<string, Size>, zeroSizes: map<string, Size>, code: string)
    ensures code in keywords ==> ResolveInPoints(keywords, zeroSizes, code) == Ok(ToPoints(keywords[code]))
    ensures ResolveInPoints(keywords, zeroSizes, code) != Resolve(keywords, zeroSizes, code) ==> code in keywords
  {
  }

  /** Concrete series sizes from the initial tables. */
  lemma SeriesExamples()
    ensures Resolve(InitialKeywordSizes, InitialZeroSizes, "a0") == Ok(Size(2383.2, 3369.6))
    ensures Resolve(InitialKeywordSizes, InitialZeroSizes, "a2") == Ok(Size(1191.6, 1684.8))
    ensures Resolve(InitialKeywordSizes, InitialZeroSizes, "A2") == Ok(Size(1191.6, 1684.8))
  {
    assert Classify(InitialKeywordSizes.Keys, "a0") == Series("a", 0);
    assert Classify(InitialKeywordSizes.Keys, "a2") == Series("a", 2);
    assert GoLib.LowerChar('A') == 'a';
    assert Classify(InitialKeywordSizes.Keys, "A2") == Series("a", 2);
  }
}
