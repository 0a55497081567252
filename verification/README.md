# Paper sizes, top-left crops and page rotations for the `gdf` PDF tool

A Dafny model of the logic in `pdf.go` of the `gdf` command-line tool, which
crops and rotates the pages of a PDF file:

- **Paper-size resolution** (`paperSize`). A size code becomes a width/height
  pair. A keyword (`letter`) is looked up in `keywordSizes` exactly as typed.
  Any other code is lower-cased and must match `^([ab])([0-9])$`. The series'
  0-size in inches is taken from `zeroSizes` (roughly ISO 216 A0 and B0). It is
  walked down `index` swap-and-halve steps `(w, h) -> (h/2, w)` and multiplied
  by 72. The 1/72-inch unit is the default user space of ISO 32000-1,
  section 8.3.2.3. The two tables are package-level maps of slices, and
  `paperSize` works on the slice held by the map. So the result *is* the
  table entry, and a series call overwrites its series' entry. The model keeps
  the tables in a class (`PaperSizes.SizeTables`) whose entries are arrays.
  Its method `PaperSize` returns the table's own array, and its postcondition
  states the new table contents.
- **Top-left crop** (the page callback inside `Crop`). The page's MediaBox
  (ISO 32000-1, section 7.7.3.3) keeps its lower-left x and its upper y. Its
  lower y becomes `ury - height` and its right x becomes `llx + width`. A target
  larger than the page is not refused.
- **Rotation direction** (the `switch` in `cliRotate`). `right` is 90, `around`
  180 and `left` 270 degrees. Anything else is an error. The value is the
  page `Rotate` entry (ISO 32000-1, section 7.7.3.3).

Modules: `Wrappers` (Option, Result); `GoLib` (models of the Go library calls
that `paperSize` makes: `strings.ToLower`, `strconv.Atoi` and
`FindStringSubmatch` for a pattern of single-character capture groups);
`PaperSizes`; `Crop`; `Rotation`. Sizes and coordinates are Dafny `real`, so
the recurrence and the box arithmetic are exact.

Behaviour of `pdf.go` worth knowing:
- keyword lookup is case-sensitive, because only series codes are lower-cased;
- a series index is exactly one digit;
- the `landscape` flag is declared but never read, so no result is swapped;
- keyword sizes come back in inches (see Findings);
- the tables are updated in place rather than treated as constants.

## Model

| member | source | states |
|---|---|---|
| GoLib.ToLower | pdf.go:128 | the lowered code has the same length and each character is lowered on its own (ASCII letters) |
| GoLib.FindStringSubmatch | pdf.go:128-131 | no submatches exactly when the code does not match the anchored character-class pattern; otherwise the whole match then one single-character group per class |
| GoLib.Groups | pdf.go:120 | the capture groups exist exactly when each character lies in its class, and group i is character i |
| GoLib.Atoi | pdf.go:134-137 | succeeds exactly on a sign-and-digits text whose value lies in the int64 range, and returns that value; a range error exactly when the digits read before the first non-digit already exceed the unsigned 64-bit range, or the text is well formed but outside int64; a syntax error in every other failing case |
| GoLib.DigitPrefix | pdf.go:134 | the digits Atoi's scan reads: a digit-only prefix of the text, followed by a non-digit or by the end |
| GoLib.AtoiOverflowBeforeJunk | pdf.go:134-137 | twenty nines followed by `x` give a range error, since the overflow is reported before the `x` is read |
| GoLib.AtoiJunkAfterDigits | pdf.go:134-137 | `-12x` gives a syntax error |
| GoLib.AtoiPastInt64 | pdf.go:134-137 | `10000000000000000000`, well formed but past int64, gives a range error |
| GoLib.AtoiItoa | pdf.go:134 | every int64 written in decimal is read back by Atoi as itself |
| GoLib.AtoiDigit | pdf.go:133-137 | one decimal digit always converts, to its own value, so the conversion error branch cannot be taken |
| PaperSizes.Classify | pdf.go:124-126 | a code is read as a keyword exactly when it is a key of the keyword table as typed |
| PaperSizes.ClassifyMatchesPattern | pdf.go:120-133 | a code is a series code exactly when it is no keyword and its lower-cased form matches `^([ab])([0-9])$`; letter and index are the two groups |
| PaperSizes.ClassifyIgnoresCase | pdf.go:124-128 | a code that is no keyword, lower-cased or not, is read the same as its lower-cased form |
| PaperSizes.ResolveIgnoresCase | pdf.go:124-131 | two non-keyword codes that lower-case alike both succeed or both fail, and succeed with the same size |
| PaperSizes.ClassifyExamples | pdf.go:117-131 | "A4" and "a4" are series a, index 4; "letter" is a keyword but "LETTER" is refused; "", "a", "z9" and "a10" are refused |
| PaperSizes.ResolveFailsOnlyOnInvalidCodes | pdf.go:128-142 | with both series present, resolution fails exactly for codes that are neither keyword nor series, and always with the invalid-code error |
| PaperSizes.SizeTables.constructor | pdf.go:112-119 | the tables start as a = (33.1, 46.8), b = (39.4, 55.7) and letter = (8.5, 11) inches in distinct arrays |
| PaperSizes.SizeTables.PaperSize | pdf.go:123-155 | the result or error equals `Resolve` of the tables before the call; a keyword returns its own table array unchanged; a series code returns its series' table array, now holding the result, with the other entry and the keyword table unchanged |
| PaperSizes.SizeTables.WalkSeries | pdf.go:139-154 | the series' own table array is returned and now holds 72 times its old value walked `index` steps down the series; the other series entry and the keyword table are unchanged |
| PaperSizes.HalveStepsClosedForm | pdf.go:144-148 | after 2k steps both sides are divided by 2^k; after 2k+1 the pair is turned and the new width is also halved |
| PaperSizes.HalveStepsArea | pdf.go:144-148 | each swap-and-halve step halves the area |
| PaperSizes.Step | pdf.go:145-147 | one swap-and-halve step keeps a portrait size at most twice as tall as wide in that shape |
| PaperSizes.HalveSteps | pdf.go:144-148 | `n` steps down a series from a portrait base at most twice as tall as wide keep that shape at every step |
| PaperSizes.ToPoints | pdf.go:150-152 | converting to points multiplies the area by 72 × 72 and neither creates nor destroys the series shape |
| PaperSizes.Resolve | pdf.go:123-155 | what `paperSize` returns from given tables: a keyword gives its stored pair unchanged; a series code gives 72 × its series' 0-size walked `index` steps; an invalid code gives the invalid-code error |
| PaperSizes.ResolveInPoints | pdf.go:150-152 | the corrected resolution succeeds and fails on exactly the same codes as the code as written, with the same errors |
| PaperSizes.HalveStepsShrink | pdf.go:144-148 | down the series neither side grows |
| PaperSizes.SeriesSizesKeepShape | pdf.go:113-152 | every series code resolved from the initial tables succeeds and gives a portrait size at most twice as tall as wide |
| PaperSizes.SeriesRecurrence | pdf.go:144-152 | the size for index i+1 is one swap-and-halve step applied to the size for index i, in points |
| PaperSizes.SeriesExamples | pdf.go:144-152 | from the initial tables "a0" is (2383.2, 3369.6), "a2" and "A2" are (1191.6, 1684.8) points |
| PaperSizes.ReResolveGrows | pdf.go:144-152 | resolving again from a result with at most nine steps yields a strictly larger area, so the result never comes back unchanged |
| PaperSizes.PaperSizeTwice | pdf.go:139-154 | calling twice with one series code on fresh tables: the second call starts from the first result and returns a different, larger size; for keywords and invalid codes both calls agree |
| PaperSizes.LetterResolvesToInches | pdf.go:124-125 | as written, "letter" resolves to (8.5, 11), the inch values; converted it would be (612, 792) |
| PaperSizes.ResolveInPointsUnits | pdf.go:150-152 | with the keyword path also converted, a keyword resolves to 72 times its stored size, and only keywords resolve differently from the code as written |
| Crop.CropTopLeft | pdf.go:201-203 | the new box keeps the lower-left x and the upper y, and has exactly the requested width and height |
| Crop.CropIdempotent | pdf.go:202-203 | cropping the cropped box to the same size gives the same box |
| Crop.CropIsProper | pdf.go:202-203 | the cropped box is non-degenerate exactly when the width and height are positive |
| Crop.CropWithinIff | pdf.go:202-203 | the cropped box lies inside the original exactly when the target fits; a larger target is not refused and reaches past the page |
| Crop.CropLetterExample | pdf.go:202-203 | (0, 0, 612, 792) cropped to 432 x 648 is (0, 144, 432, 792) |
| Crop.CropPage | pdf.go:195-207 | a page with a MediaBox keeps the same rectangle object, updated to the top-left crop, and no error; a page without one gets the error and is unchanged |
| Rotation.Degrees | pdf.go:76-85 | right gives 90, around 180 and left 270; it succeeds for no other string, which gets the direction error message |
| Rotation.DegreesRoundTrip | pdf.go:76-85 | the direction-to-degrees table and its inverse undo each other in both directions |
| Rotation.DegreesInjective | pdf.go:76-85 | different directions give different rotations |
| Rotation.OtherDirectionsRefused | pdf.go:76-85 | the comparison is exact: "up", "Right" and "" are refused |

## Left out

- Reading, writing and page enumeration of PDF files (`NewPdfReaderFromFile`, `ToWriter`, `WriteToFile`) and `SetRotation` in `Rotate`. These are calls into the PDF library; only the box arithmetic of the page callback and the degree table are modelled.
- Crop.CropPage: a page that inherits its MediaBox from a parent node of the page tree is treated as having none. That lookup belongs to the PDF library's `GetMediaBox`, which is not part of this model.
- License loading from the environment and the `clientInitialized` flag. These are environment access and a foreign call.
- The command tree (`Node`, `Load`, `Changed`, `Setup`, `Name`), the argument plumbing of `cliCrop` and `cliRotate`, and error reporting through `output`. These are glue over the command framework. The `landscape` flag is declared there but never read.
- `float64` rounding. All sizes and coordinates are exact reals.
- GoLib.ToLower: only ASCII letters are lower-cased. No other character lower-cases to `a`, `b` or a digit, so whether a code matches the pattern is unaffected.
- GoLib.Atoi: the clamped value that Go returns together with a range error is not modelled, only the error.
- Errors are modelled as datatype values, not formatted message text. The one exception is the fixed direction message.
- The `main` entry point in `cmd/source.go`, which only hands the tool to its command runner.

## Findings

| source | as written | input that shows it | evidently intended | confidence | as-written member | corrected member |
|---|---|---|---|---|---|---|
| pdf.go:124-125 | a keyword returns its stored size in inches without the ×72 conversion applied to series codes, and `Crop` reads that as points | code "letter" gives width 8.5 and height 11, so the page is cropped to 8.5 × 11 points | 612 × 792 points, the size of a US Letter page | high; not executed | PaperSizes.LetterResolvesToInches | PaperSizes.ResolveInPointsUnits |
