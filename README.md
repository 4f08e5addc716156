# generate-large-pdf: the size-convergence controller

`generate-pdf.js` writes a PDF of a requested size in megabytes. It does not
know in advance how many bytes a page costs, so `main` measures it: it renders
a five-page calibration document, divides its byte size by its page count,
projects the page count for the target with `Math.ceil`, and then renders the
full document up to five times. It stops as soon as the file is within 5 % of
the target. The renderer `generatePDF(n)` writes a title and then one block
of filler text per pass of its loop, which its counter counts as one page, and
reports `{size, pages}`.

This project models that controller and the page-count logic of the renderer
in Dafny and proves properties of them.

- `rounding.dfy` (module `Rounding`): `Math.floor` and `Math.ceil` over exact
  reals, each characterised as the greatest / least integer on its side.
- `renderer.dfy` (module `Renderer`): `GeneratePdf`, the page loop of
  `generatePDF` as a method with a loop. The byte size of the finished file is
  an abstract function `fileSize` of the number of filler blocks written, one
  per loop pass and counted as one page (0 stands for the title-only document).
- `controller.dfy` (module `Controller`): the constants, the megabyte
  conversion, the projection, the tolerance test, the two corrections, and
  `GenerateTargetSize`, the `main` loop as a method. Ghost functions give the
  reference definition of a run: `Request(k)` is the page count that full
  render `k` asks for, `Outcome(k)` is what it reports, and `RendersUsed` is
  how many full renders the run makes.
- `scenarios.dfy` (module `Scenarios`): whole-run properties. These cover the
  discarded correction and renderers whose cost per page is constant.

Behaviour of the code, as modelled:

- Every render from the second on requests `ceil(target / (size / pages))`,
  taken from the render before it (lines 101-106). The corrections computed at
  lines 123-134 are overwritten before any render uses them. The one computed
  in the last iteration is left in `estimatedPages` when the loop ends, and
  nothing reads it. On undershoot it equals the fresh projection in exact
  arithmetic. On overshoot it can be one page lower (`CorrectionIsDiscarded`,
  `DiscardedCorrectionDiffers`).
- Nothing detects a repeated estimate. Only the cap of five renders, which the
  comment at line 94 says is there to avoid infinite loops, ends a run that
  does not converge (`OvershootRepeatsUntilCap`).
- The result is the last render (lines 109-110), not the closest one that the
  comment at lines 137-138 speaks of.
- Tolerance and iteration cap are the constants 0.05 and 5 of lines 94-95.
- The projection at line 87 is not raised to 1, unlike the overshoot correction at line 133. `sizeInMB` is never 0 (the
  `|| 1` fallback of line 6), but it can be negative. A negative target makes
  the relative difference negative, so the first render is "within tolerance".
  That render requests a page count of at most 0 and writes only the title page
  (`NegativeTargetAlwaysWithin`).
- `generatePDF(n)` with `n <= 0` reports `pages == 1`, more than it was asked
  for. Its loop body runs `max(0, n)` times and `addPage` is called
  `max(1, n) - 1` times.

## Model

| member | source | states |
|---|---|---|
| `Rounding.Floor` | generate-pdf.js:132 | `Math.floor` gives the greatest integer not above its argument |
| `Rounding.Ceil` | generate-pdf.js:87 | `Math.ceil` gives the least integer not below its argument |
| `Renderer.ContentPages` | generate-pdf.js:42-63 | the number of filler pages written is the least natural number not below the request: the request itself when it is at least 1, and none otherwise |
| `Renderer.RealizedPages` | generate-pdf.js:39-63 | the reported page counter is at least 1 and at least the request: the request itself when it is at least 1, and 1 otherwise; it equals the filler pages except for a request below 1 |
| `Renderer.Render` | generate-pdf.js:39-70 | the result `GeneratePdf` is proved to return: at least one page; `(fileSize(n), n)` for a request `n >= 1` and the title-only `(fileSize(0), 1)` otherwise; a non-empty file for `n >= 1` |
| `Renderer.GeneratePdf` | generate-pdf.js:39-70 | the reported page counter is `n` for `n >= 1` and 1 otherwise; `addPage` runs one time fewer; the size is that of a file with `max(0, n)` filler pages |
| `Controller.TargetBytes` | generate-pdf.js:9 | the target in bytes converts back to the given megabytes, and is positive exactly when they are |
| `Controller.BytesPerPage` | generate-pdf.js:82 | the cost per page times the page count gives back the size; it is positive exactly when the size is |
| `Controller.ProjectPages` | generate-pdf.js:87 | the projected page count is at least 1 exactly when the target is positive |
| `Controller.ProjectPagesIsLeast` | generate-pdf.js:87 | the projection is the least page count whose projected size reaches the target |
| `Controller.Difference` | generate-pdf.js:117 | the relative difference times the target gives back the absolute difference; it is non-negative for a positive target, non-positive for a negative one, and zero exactly when the size equals the target |
| `Controller.WithinTolerance` | generate-pdf.js:117-118 | for a positive target the stopping test holds exactly when the absolute difference is at most 5 % of the target |
| `Controller.WithinToleranceBand` | generate-pdf.js:117-118 | for a positive target the stopping test holds exactly for sizes from 95 % to 105 % of the target |
| `Controller.NegativeTargetAlwaysWithin` | generate-pdf.js:117-118 | a negative target passes the stopping test at any size |
| `Controller.OutsideToleranceMeansPositive` | generate-pdf.js:117-123 | a correction is only computed when the target is positive |
| `Controller.UndershootEstimate` | generate-pdf.js:123-128 | the additive correction exceeds the realised pages and equals the fresh projection from the same render |
| `Controller.OvershootEstimate` | generate-pdf.js:129-134 | the floor correction is at least 1 and at most the realised pages; it is below them after a strict overshoot of a render of two or more pages; it is at most one page below the fresh projection |
| `Controller.CorrectedEstimate` | generate-pdf.js:123-134 | the stored estimate is at least 1, above the realised pages on undershoot and not above them otherwise |
| `Controller.Request` | generate-pdf.js:101-108 | each full render requests at least one page exactly when the target is positive |
| `Controller.Outcome` | generate-pdf.js:108-110 | every full render reports at least one page, and a non-empty file when the target is positive |
| `Controller.RendersUsed` | generate-pdf.js:94-121 | a run makes between 1 and 5 full renders; it ends when a render is within the tolerance or after the fifth render; every render before the last was outside the tolerance |
| `Controller.GenerateTargetSize` | generate-pdf.js:78-135 | calibrates on 5 pages, projects, loops at most 5 times; the final size and pages are those of the last render; on exit the last render is within tolerance or 5 renders were made; the leftover `estimatedPages` is the last correction when outside tolerance |
| `Scenarios.CorrectionIsDiscarded` | generate-pdf.js:101-134 | render `k` requests the fresh projection from render `k - 1`; the correction stored after render `k - 1` equals it on undershoot and is at most one page below it on overshoot |
| `Scenarios.DiscardedCorrectionDiffers` | generate-pdf.js:129-133 | after a 1200-byte two-page render against 1000 bytes, the stored correction is 1 page but the next render requests 2 |
| `Scenarios.ConstantCostCalibration` | generate-pdf.js:81-82 | against a renderer of `c` bytes per page the calibration measures exactly `c` bytes per page |
| `Scenarios.ExactMultipleStopsAtFirstRender` | generate-pdf.js:81-121 | with `c` bytes per page and a target of `c * m` bytes the first render requests `m` pages, hits the target exactly, and is the only one |
| `Scenarios.ConstantCostStopsAtFirstRender` | generate-pdf.js:87-121 | with a constant cost per page and a target of at least 20 pages the first render lands in `[target, target + c)` and ends the run |
| `Scenarios.OvershootRepeatsUntilCap` | generate-pdf.js:94-135 | with 1000 bytes per page and a 500-byte target every render requests 1 page, the run makes all 5 renders, ends outside the tolerance with a 1000-byte, one-page file, and leaves a correction of 1 |
| `Scenarios.OvershootRequestsOnePage` | generate-pdf.js:101-108 | in that run every render requests exactly one page |
| `Scenarios.OvershootUsesAll` | generate-pdf.js:98-121 | in that run, the run continues from any render up to the cap |

## Left out

- The PDF library (document construction, fonts, text layout, the content of `addPage`, the filler text): a foreign library. Its only observable effect here is the byte size, which is the abstract `fileSize`.
- The file stream, `fs.statSync`, `path.resolve` and the rewriting of the output file on every render: I/O. Stream errors, which reject the promise and end the process through `main().catch`, are not modelled. `fileSize` is total, and `NonEmptyOutput` assumes that a file with filler text is not empty; the code divides by the bytes per page derived from a size at lines 87, 104, 127 and 132, so a render with filler text that reported size 0 would make line 87 or 104 compute `Infinity`, and the next `generatePDF(Infinity)` would never leave its loop (lines 42-63). `NonEmptyOutput` excludes this.
- Promise and async plumbing, `process.exit`: the model is sequential.
- All console output, the progress interval (50 or 500 pages) and `toFixed` formatting: logging only.
- Command-line parsing (`parseFloat`, the `||` defaults, the output path): `sizeInMB` is a parameter, and the model requires it to be non-zero, as the `|| 1` fallback ensures.
- Floating point: divisions, `Math.ceil` and `Math.floor` are taken over exact reals. IEEE-754 rounding, `Infinity` and `NaN` are not modelled.
- Renderer.GeneratePdf: the page counter counts loop passes. Pages that the PDF library adds on its own when text overflows are not modelled.
