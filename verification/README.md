# FaceRecognitionTester, modelled in Dafny

FaceRecognitionTester runs four OpenCV frontal-face cascade classifiers
("Default", "Alt", "Alt2", "AltTree") over a live camera feed. It draws each
classifier's running count on the video and, when the user quits, prints one
line per classifier giving its detections as a percentage of the frames seen.

The model covers the program's own logic:

- the `Classifier` record, as a class: constant name, label template, colour,
  origin and cascade, plus a mutable `counter` (`classifiers.dfy`);
- its live label `nameWithCounts` and fixed-width report line
  `nameWithPercentage`, as functions over the fields;
- the script's tally: registration of the four classifiers, one frame of the
  loop, the loop itself and the final report (`tester.dfy`).

The pieces of Python the formatting relies on are modelled separately:

- `py_text.dfy`: slicing with Python's clamping of out-of-range bounds,
  `str * n`, `str.split` on one character, and `str.format` with one
  argument;
- `numerals.dfy`: `str()` of a non-negative integer, fixed-width digit
  fields, and an exact-arithmetic stand-in for `str()` of the quotient
  `100*counter/totalFrames`.

Each Python step has a counterpart:

- `NameWithPercentage` runs the code's own steps: pad and cut the name,
  render the percentage, split it at the point, then pad or cut each part.
- It is proved equal to `ExpectedLine`, an independent definition of the
  intended line: the name in 20 columns, the three low digits of
  `(100*c) / t`, a point, the three digits of `((100*c*1000) / t) % 1000`
  (truncated, not rounded), and `" %"`. That line is 29 characters long.
- `CaptureLoop` is proved against two specification functions of the
  frames: `Totals` (the counters after the frames) and `Overlays` (the
  labels drawn on every frame). Lemmas then show that `Totals` adds up each
  classifier's per-frame hits and that frame k of `Overlays` shows the count
  after k frames.
- `RunTester` combines these: after N frames `frameCount` is N, the labels
  show the running totals, and the report lists the classifiers in
  registration order.

Facts about the code that the model keeps:

- The name column is the name followed by spaces, cut to 20 characters.
- A whole part under 100 is zero-padded, so 40 hits in 100 frames print as
  `040.000 %`.
- A zero frame count is a division by zero at FaceReconitionTester.py:60.
  The model makes `totalFrames > 0` a precondition of the report line.
- `RunTester` takes a session of at least one frame, because the
  `while True` loop cannot reach its `break` before it has finished a frame.
  From that it meets the report's precondition.

## Model

| member | source | states |
|---|---|---|
| `Classifiers.Classifier.constructor` | FaceReconitionTester.py:24-39 | name, colour, origin and cascade are the arguments; the label template is `name + " {}"`; the counter starts at 0 |
| `Classifiers.Classifier.IncrementCounter` | FaceReconitionTester.py:67-71 | the counter rises by exactly one; only the counter may change (all other fields are constants) |
| `Classifiers.Classifier.NameWithCounts` | FaceReconitionTester.py:41-46 | the label is the template `name + " {}"` filled in with the current count; for a name without braces that is `Some(name + " " + str(counter))` |
| `Classifiers.Label` | FaceReconitionTester.py:35-46 | `(name + " {}").format(count)`; for a brace-free name it is the name, a space and `str(count)` |
| `Classifiers.BraceFreeTemplate` | FaceReconitionTester.py:35 | a brace-free name's template fills in to the name, a space and the argument |
| `Classifiers.Classifier.NameWithPercentage` | FaceReconitionTester.py:48-65 | the line built by padding, `str`, `split` and slicing equals `ExpectedLine(name, counter, totalFrames)`; needs `totalFrames > 0` (division at line 60) |
| `Classifiers.NameField` | FaceReconitionTester.py:58-59 | exactly 20 characters: the first 20 of a long name, or the name followed by spaces |
| `Classifiers.WholeField` | FaceReconitionTester.py:62 | for a canonical decimal rendering of n, the three low digits of n, zero-padded on the left |
| `Classifiers.FractionField` | FaceReconitionTester.py:63 | exactly 3 characters: the first three, or the text right-padded with '0' |
| `Classifiers.ExpectedLine` | FaceReconitionTester.py:64 | the intended report line is 29 characters long |
| `Classifiers.ExpectedLineColumns` | FaceReconitionTester.py:58-64 | columns 0-19 are the name field, 20-22 denote `(100c/t) % 1000` (exactly `100c/t` below 1000 %), 23 is '.', 24-26 denote `(100000c/t) % 1000`, 27-28 are " %" |
| `Classifiers.FortyPercentLine` | FaceReconitionTester.py:48-65 | 40 hits in 100 frames print `Default             040.000 %` |
| `Classifiers.TwoThirdsLine` | FaceReconitionTester.py:60-63 | 2 hits in 3 frames print `066.666 %`: truncated, not rounded |
| `Classifiers.OverThousandPercentLine` | FaceReconitionTester.py:62 | 12 hits in 1 frame (1200 %) print `200.000 %`: only the last three integer digits |
| `PyText.Repeat` | FaceReconitionTester.py:58 | `c * n` has length n and every character is c |
| `PyText.Take` | FaceReconitionTester.py:59 | `s[:n]` is a prefix of s of length min(n, len(s)) |
| `PyText.TakeLast` | FaceReconitionTester.py:62 | `s[-n:]` is the suffix of s of length min(n, len(s)) |
| `PyText.Split` | FaceReconitionTester.py:61 | `split` yields at least one piece and no piece holds the separator |
| `PyText.JoinSplit` | FaceReconitionTester.py:61 | joining the pieces with the separator restores the string |
| `PyText.SplitAround` | FaceReconitionTester.py:61 | a separator between two separator-free strings yields exactly those two pieces |
| `PyText.Format` | FaceReconitionTester.py:46 | `str.format` with one argument: a brace-free template is copied unchanged; a result is never longer than the template plus one copy of the argument |
| `PyText.FormatLiteral` | FaceReconitionTester.py:46 | brace-free text is copied as it stands and leaves the rest of the template to format on its own |
| `PyText.FormatStrayBrace` | FaceReconitionTester.py:46 | a single `{` or `}` at the end of the template is an error (ValueError in Python) |
| `PyText.FormatSecondField` | FaceReconitionTester.py:46 | a second `{}` with only one argument is an error (IndexError in Python) |
| `PyText.FormatLiteralThenField` | FaceReconitionTester.py:35 | formatting a brace-free literal followed by `{}` gives the literal followed by the argument |
| `Numerals.Str` | FaceReconitionTester.py:46 | `str(n)` is digits only, has no leading zero and ends in the digit `n % 10` |
| `Numerals.StrValue` | FaceReconitionTester.py:46 | `str(n)` denotes n |
| `Numerals.StrOfValue` | FaceReconitionTester.py:46 | every canonical digit string is `str` of its value (the other direction of the round trip) |
| `Numerals.FixedDigitsValue` | FaceReconitionTester.py:62 | a k-digit field denotes its number modulo 10^k |
| `Numerals.ZeroPaddedSuffix` | FaceReconitionTester.py:62 | `("0"*z + str(n))[-k:]` with z >= k is exactly the k low digits of n |
| `Numerals.FractionDigitsPrefix` | FaceReconitionTester.py:63 | the first three of more truncated decimals are the three truncated decimals |
| `Numerals.TrimTrailingZeros` | FaceReconitionTester.py:60 | a prefix ending in a non-zero digit; only zeros were removed |
| `Numerals.FloatFraction` | FaceReconitionTester.py:60 | the fraction text of the modelled `str()` is at least one digit and holds no point |
| `Numerals.FloatStr` | FaceReconitionTester.py:60 | the modelled `str()` of the quotient starts and ends with a digit, and ends in '0' only as `.0`, as Python's float rendering does |
| `Numerals.FloatStrSplit` | FaceReconitionTester.py:60-61 | the rendered percentage splits at its point into `str(100c // t)` and its fraction text, so `parts[1]` exists |
| `Numerals.FloatFractionPadded` | FaceReconitionTester.py:63 | `(parts[1] + "000")[:3]` is the first three truncated decimals, whether trailing zeros were dropped or not |
| `Tester.HitTotalAppend` | FaceReconitionTester.py:110-112 | totals over consecutive runs of frames add up |
| `Tester.HitTotalMonotone` | FaceReconitionTester.py:110-112 | the total over a prefix of the frames is at most the total over all frames: counters never decrease |
| `Tester.TotalsAreHitTotals` | FaceReconitionTester.py:104-112 | the counters after a run of frames are the starting counts plus each classifier's total hits |
| `Tester.OverlayOfFrame` | FaceReconitionTester.py:98-101 | the labels of frame k are taken at the counts reached after the first k frames |
| `Tester.OverlaysShowRunningCounts` | FaceReconitionTester.py:98-112 | on frame k classifier i shows its template filled with its starting count plus its hits before frame k; for a brace-free name, `name + " " + str(count)` |
| `Tester.DrawLabels` | FaceReconitionTester.py:98-99 | one label per classifier, in registration order, each that classifier's `NameWithCounts` |
| `Tester.ProcessFrame` | FaceReconitionTester.py:98-112 | the labels show the counts before the frame, `frameCount` rises by one, each counter rises by exactly its hit count |
| `Tester.Report` | FaceReconitionTester.py:120-121 | one line per classifier, in registration order, each its `ExpectedLine` for the frame count |
| `Tester.NamesHaveNoBraces` | FaceReconitionTester.py:78-81 | none of the four registered names holds a brace, so every live label formats |
| `Tester.RegisterClassifiers` | FaceReconitionTester.py:77-81 | four distinct new classifiers with the registered names, colours, origins and cascade files, each with count 0 |
| `Tester.CaptureLoop` | FaceReconitionTester.py:84-117 | after N frames `frameCount` is N, the counters are `Totals` of their starting values over the frames, and the labels are `Overlays` of the names and starting counts |
| `Tester.SessionLabels` | FaceReconitionTester.py:97-112 | starting from zero, frame k shows each registered name followed by its hits over the frames before k |
| `Tester.RunSession` | FaceReconitionTester.py:84-121 | the loop and the report over fresh classifiers: running totals on the overlays, report line i is `ExpectedLine` of classifier i's total over the frame count |
| `Tester.RunTester` | FaceReconitionTester.py:77-121 | a whole session: the overlays show the running totals and report line i is `ExpectedLine` of classifier i's total hits over the frame count |

## Left out

- Camera capture, grayscale conversion, text and rectangle drawing, window
  display and the key poll (FaceReconitionTester.py:87-99, 111, 115-117) are
  I/O and UI. A session is given as the list of frames processed up to the
  one after which the quit key was seen. A session that is never quit, and a
  camera read that fails, are not modelled.
- `detectMultiScale` (FaceReconitionTester.py:107) is an opaque OpenCV
  detector. Each frame is represented only by the number of rectangles each
  classifier's detector returned.
- Loading the cascade files (FaceReconitionTester.py:77-81) is file I/O. A
  `Cascade` value records only the file name it was loaded from.
- Colour and origin are carried as unchanged display data.
- Python's `str()` of a float (FaceReconitionTester.py:60) is modelled with
  exact arithmetic: the truncated decimal expansion to 15 places, trailing
  zeros dropped, at least one digit kept.
- The float model leaves out shortest-repr rounding. A quotient just below a
  multiple of 0.001 can round up, so a value just below x+1 prints as
  `x+1.0`, where the model keeps the truncated `x.999`.
- The float model leaves out the exponent form Python uses below 1e-4 and
  from 1e16 up. With a one-digit mantissa (`1e-05`) `split(".")` gives one
  piece and line 63 raises IndexError. Otherwise the line shows mantissa
  digits: 1 hit in 15,000,000 frames is `6.666666666666667e-06` and prints
  `006.666 %`, where the model prints `000.000 %`.
- PyText.Format models `{}`, `{{` and `}}` only. Python's `str.format` also
  accepts numbered or named fields and format specs, which the model treats
  as errors (`None`) like a stray brace. This matters only for general
  templates: the tester's template `name + " {}"` already holds one automatic
  field and Python is given one argument. A numbered field in the name mixes
  manual and automatic numbering, an automatic one needs a second argument,
  and a named one finds no keyword, so Python raises there too.
- PyText.TakeLast gives the empty string for `n = 0`, where Python's
  `s[-0:]` is all of `s`. The tester only slices with `n = 3`.
- Tester.HitTotal and Tester.AddHits count a missing entry of a frame as
  zero. Frames always carry one count per classifier.
