# PillarCircleChecker: sample conversion and fit-to-pixel arithmetic

The checker reads a sensor's calibration reports. Each report holds samples
in native fixed-point units, full scale `MaxSampleValue = 2048`. The checker
converts every sample to a solver-space point, fits an enclosing circle
around the points, and draws points, axis guides and circle on a
1024 × 1024 canvas. This project models the arithmetic of that pipeline:

- `SampleValue` (sample_value.dfy) holds the `SampleValue` class's conversions:
  - `toRelative`: native / 2048;
  - `toAbsRelative`: relative / 2 + 0.5;
  - `toPixel`: `int(absRelative * size)`.
- `Process` (process.dfy) holds the per-report work of `process`:
  - the contour of solver points `(relative x, -relative y)`, one per sample, in sample order;
  - the canvas cell marked for each sample;
  - the axis-guide position `int(size / 2)`;
  - the fitted circle's centre `int((c / 2 + 0.5) * size)` and radius `int(radius / 2 * size)` in pixels.
- `Truncation` (truncation.dfy) defines Python's `int()` on a float, which
  rounds toward zero. It also holds the integer-division facts the pixel
  lemmas use.

Floats are modelled as `real`. Each divisor is a power of two (2048 and 2)
and the canvas size 1024 is a power of two. So the sample conversions and the
radius conversion are exact for natives of realistic size. The contour is
stored as `np.float32` (main.py:41), which holds `n / 2048` exactly only for
|n| <= 2^24. The centre formula `c / 2 + 0.5` can round for very small |c|;
see "## Left out".

`toPixel` applies `int()`, which truncates toward zero. A floor would differ
only when `(n + 2048) * size` is negative.

## Model

| member | source | states |
|---|---|---|
| `Truncation.Trunc` | main.py:28 | `int(x)` on a float: for `x >= 0` the result is the whole number at or below `x` within one, for `x < 0` the one at or above `x` within one (rounding toward zero) |
| `SampleValue.ToRelative` | main.py:11-22 | relative times 2048 gives back the native value; natives in [0, 2048] give values in [0, 1]; natives in [-2048, 2048] give values in [-1, 1] |
| `SampleValue.AbsRelative` | main.py:24-25 | the `/2 + 0.5` remap is inverted by `2r - 1`; its result is in [0, 1] exactly when its input is in [-1, 1]; -1, 0 and 1 map to 0, 1/2 and 1 |
| `SampleValue.ToAbsRelative` | main.py:24-25 | times 4096 it gives `n + 2048`; natives in [-2048, 2048] land in [0, 1] |
| `SampleValue.ToPixel` | main.py:27-28 | for natives in [-2048, 2048] and size >= 0 the pixel is in [0, size]; native 2048 gives `size`, native -2048 gives 0 |
| `SampleValue.ToPixelIsIntegerQuotient` | main.py:27-28 | the pixel equals the all-integer quotient `(n + 2048) * size / 4096` rounded toward zero |
| `SampleValue.ToPixelMonotone` | main.py:27-28 | for a fixed size >= 0, a larger native never gives a smaller pixel |
| `SampleValue.ScaleToPixel` | main.py:28 | `int(v * size)` of a value `v >= 0` on a size >= 0 is not negative, and for `v` in [0, 1] it is at most `size` |
| `SampleValue.ScaleToPixelMonotone` | main.py:28 | `int(v * size)` with size >= 0 never decreases as `v` grows |
| `Process.SolverPoint` | main.py:45-49 | a contour point times 2048 gives back `(x, -y)`; `x` keeps the sample's sign and `y` has the opposite sign (both directions); in-range samples give points in [-1, 1]² |
| `Process.BuildContour` | main.py:41-51 | exactly one point and one cell per sample, in sample order; point `i` is `(toRelative(x_i), -toRelative(y_i))`; cell `i` is the corrected marker cell and is on the canvas for in-range samples |
| `Process.MarkerCell` | main.py:47-50 | an in-range sample on a canvas of size >= 0 is marked with row and column in [0, size]; the image is flipped vertically: native y 2048 is row 0 and native y -2048 is row `size`, while native x -2048 is column 0 and native x 2048 is column `size` |
| `Process.MarkerCellOrder` | main.py:47-50 | for size >= 0, a larger x reading is never marked in a smaller column, and a larger y reading is never marked in a larger row |
| `Process.FullScaleMarkerOffCanvas` | main.py:47-50 | the in-range sample `(2048, 0)` is marked at column `size`, off the canvas, for every size > 0 |
| `Process.MarkerCellOnCanvasIff` | main.py:47-50 | as written, an in-range sample is marked on the canvas exactly when its x pixel is below `size` and its y pixel is above 0 |
| `Process.ClampedMarkerCell` | main.py:50 | corrected cell: on the canvas for every in-range sample on a canvas of size > 0, and equal to the as-written cell whenever that cell is on the canvas |
| `Process.HalfSize` | main.py:53 | `int(size / 2)` is the integer quotient of `size` by 2 rounded toward zero; for size >= 0 it is the largest `h` with `2h <= size` |
| `Process.MidpointOnAxes` | main.py:53 | the pixel of the midpoint native value 0 is the axis-guide pixel `int(size / 2)` for every size, so a sample with x 0 is marked in the vertical guide's column |
| `Process.MidpointRowOnHorizontalGuide` | main.py:50-53 | a sample with y 0 is marked in the horizontal guide's row `int(size / 2)` on an even-sized canvas, and one row below it on a positive odd-sized canvas |
| `Process.CentrePixel` | main.py:58-59 | a fitted-centre coordinate in [-1, 1] lands in [0, size] for size >= 0 |
| `Process.CentrePixelOfSample` | main.py:58-59 | the centre formula applied to a sample's relative value gives that sample's `toPixel` |
| `Process.CentreRowBesideMarkerRow` | main.py:50-59 | the centre row computed from the solver's negated y is the row of the marker for that sample when `(n + 2048) * size` is divisible by 4096, and one row above it otherwise |
| `Process.RadiusPixel` | main.py:60 | `int(radius / 2 * size)` of a radius >= 0 on a size >= 0 is not negative |
| `Process.RadiusPixelMonotone` | main.py:60 | a radius >= 0 gets a pixel radius >= 0, and a larger radius never gets a smaller pixel radius (size >= 0) |
| `Process.FitToPixel` | main.py:57-60 | centre coordinates in [-1, 1] give centre pixels in [0, size]; a non-negative radius gives a non-negative pixel radius |
| `Process.ProcessReport` | main.py:35-60 | on the 1024 canvas: one contour point per sample, equal to its solver point; one cell per sample, equal to the corrected `ClampedMarkerCell` (where main.py would raise `IndexError` at full scale, see "## Findings"); the axis guide is at 512; every in-range sample's cell is on the canvas; a sample with native x 0 is marked on the vertical axis guide and one with native y 0 on the horizontal one; the circle is `FitToPixel` of the fit, and a non-negative fitted radius gives a non-negative pixel radius |

## Left out

- `cv2.minEnclosingCircle` (main.py:57) is foreign code and is not modelled. Its result enters `FitToPixel` and `ProcessReport` as an opaque `Circle`. Covering, minimality and order independence of the fit are therefore not stated.
- The model does not state what happens with an empty report. Its empty contour goes to the OpenCV call, whose behaviour is not modelled.
- The minimum-radius, centre-offset and tolerance checks are not modelled: main.py has no pass/fail classification code.
- Report discovery and parsing (`glob.glob`, `eniUtils.readJson`, the serial-number and sample-list field lookups; main.py:32, 38-40, 44) are I/O and deserialisation. `RawSample` has only `x` and `y` because the loop reads nothing else.
- Rendering is not modelled: the canvas allocation, the pixel colour write itself, `cv2.line`, `cv2.circle` (including the `int(size / 256)` marker radius of main.py:62), `cv2.putText`, `cv2.imshow`, `cv2.waitKey` and the colour constants. It is drawing, not computation.
- The `:.2f` text formatting (main.py:65-66) and the `__main__` driver (main.py:72-73) are output glue.
- Floats are treated as exact reals. The contour points are `np.float32` (main.py:41), exact for |n| <= 2^24 only; larger natives are rounded by main.py and not by the model. For a canvas size that is not a power of two the float products could also round, and the model does not follow that rounding.
- Process.CentrePixel: computes `(c / 2 + 0.5) * size` exactly, while Python rounds `c / 2 + 0.5` to a double. For negative c with |c| <= 2^-54 the double sum rounds to 0.5, so Python gives 512 on the 1024 canvas where the model gives 511 (for example c = -2^-60). For every other float32 c with |c| < 2^53 the truncated pixel agrees; for |c| >= 2^53 the double sum drops the 0.5, which only natives beyond 2^64 can produce.
- numpy's wrap-around for negative indices is not modelled. It only matters for samples beyond full scale, where `size - y` or `x` goes negative. `ClampedMarkerCell` clamps only the upper end.

## Findings

| source | as written | input that shows it | evidently intended | confidence | as-written member | corrected member |
|---|---|---|---|---|---|---|
| main.py:47-50 | each sample is marked at `blank[size - y, x]`, where `x` and `y` are `toPixel` values that reach `size` at full scale | a sample with native x = 2048 (or y = -2048) on the 1024 × 1024 canvas: the column (or row) index is 1024, one past the last pixel, and numpy raises `IndexError` | every in-range sample is marked on the canvas, with indices at most `size - 1` | not executed; medium | `Process.FullScaleMarkerOffCanvas` | `Process.ClampedMarkerCell` |
