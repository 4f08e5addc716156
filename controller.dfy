/**
 * The size-convergence controller `main` of generate-pdf.js: calibrate the
 * bytes per page on a five-page render, project a page count for the target
 * size, then render up to five times, stopping once the file is within 5 % of
 * the target.
 *
 * All sizes and divisions are exact reals; JavaScript's doubles are not
 * modelled.
 */
module Controller {
  import opened Rounding
  import opened Renderer

  /** Bytes in one megabyte (1024 * 1024). */
  const BytesPerMB: real := 1048576.0
  /** Pages of the calibration render. */
  const CalibrationPages: int := 5
  /** At most this many full renders follow the calibration. */
  const MaxIterations: nat := 5
  /** Accepted relative distance from the target size. */
  const Tolerance: real := 0.05

  /** The target size in bytes for a size given in megabytes. */
  function TargetBytes(sizeInMB: real): (r: real)
    ensures r / BytesPerMB == sizeInMB
    ensures r > 0.0 <==> sizeInMB > 0.0
  {
    sizeInMB * 1024.0 * 1024.0
  }

  /** Bytes per page of a render: its size over its page counter. */
  function BytesPerPage(r: RenderResult): (b: real)
    requires r.pages >= 1
    ensures b >= 0.0
    ensures b > 0.0 <==> r.size > 0
    ensures b * r.pages as real == r.size as real
  {
    var b := r.size as real / r.pages as real;
    assert r.size > 0 ==> b > 0.0 by {
      if r.size > 0 {
        PositiveQuotient(r.size as real, r.pages as real);
      }
    }
    b
  }

  /** Math.ceil(target / bytesPerPage), the projected page count. */
  function ProjectPages(target: real, bytesPerPage: real): (n: int)
    requires bytesPerPage > 0.0
    ensures n >= 1 <==> target > 0.0
  {
    Ceil(target / bytesPerPage)
  }

  /**
   * The projection is the least page count whose projected size, at the given
   * bytes per page, reaches the target.
   */
  lemma ProjectPagesIsLeast(target: real, bytesPerPage: real)
    requires bytesPerPage > 0.0
    ensures ProjectPages(target, bytesPerPage) as real * bytesPerPage >= target
    ensures (ProjectPages(target, bytesPerPage) - 1) as real * bytesPerPage < target
  {
    var q := target / bytesPerPage;
    var n := Ceil(q);
    assert n == ProjectPages(target, bytesPerPage);
    assert q * bytesPerPage == target;
    ScaleMonotone(q, n as real, bytesPerPage);
    assert (n - 1) as real < q;
    ScaleStrict((n - 1) as real, q, bytesPerPage);
    assert (n - 1) as real * bytesPerPage < q * bytesPerPage;
    assert (n - 1) as real * bytesPerPage < target;
  }

  /** |size - target| / target. */
  function Difference(target: real, size: nat): (d: real)
    requires target != 0.0
    ensures d * target == (if size as real >= target then size as real - target else target - size as real)
    ensures target > 0.0 ==> d >= 0.0
    ensures target < 0.0 ==> d <= 0.0
    ensures d == 0.0 <==> size as real == target
  {
    var a := if size as real >= target then size as real - target else target - size as real;
    assert a >= 0.0;
    var q := a / target;
    assert q * target == a;
    assert target > 0.0 ==> q >= 0.0 by {
      if target > 0.0 && q < 0.0 { ScaleStrict(q, 0.0, target); }
    }
    assert target < 0.0 ==> q <= 0.0 by {
      if target < 0.0 && q > 0.0 { ScaleStrict(0.0, q, -target); }
    }
    q
  }

  /**
   * The stopping test of the loop. For a positive target it says that the
   * size is off the target by at most 5 % of the target.
   */
  predicate WithinTolerance(target: real, size: nat)
    requires target != 0.0
    ensures target > 0.0 ==>
              (WithinTolerance(target, size) <==>
                 (if size as real >= target then size as real - target else target - size as real)
                   <= Tolerance * target)
  {
    var a := if size as real >= target then size as real - target else target - size as real;
    if target > 0.0 then
      DivAtMost(a, target, Tolerance);
      Difference(target, size) <= Tolerance
    else
      Difference(target, size) <= Tolerance
  }

  /** For a positive target, the tolerance is the band from 95 % to 105 % of it. */
  lemma WithinToleranceBand(target: real, size: nat)
    requires target > 0.0
    ensures WithinTolerance(target, size) <==> 0.95 * target <= size as real <= 1.05 * target
  {
    var d := if size as real >= target then size as real - target else target - size as real;
    DivAtMost(d, target, Tolerance);
  }

  /** A negative target makes the difference negative, so every size passes. */
  lemma NegativeTargetAlwaysWithin(target: real, size: nat)
    requires target < 0.0
    ensures WithinTolerance(target, size)
  {
    var d := if size as real >= target then size as real - target else target - size as real;
    assert d >= 0.0;
    assert Difference(target, size) * target == d;
  }

  /**
   * The undershoot correction: keep the realised pages and add as many pages,
   * at the bytes per page just observed, as cover the missing bytes. In exact
   * arithmetic this is the same count a fresh projection gives.
   */
  function UndershootEstimate(target: real, r: RenderResult): (n: int)
    requires r.pages >= 1 && r.size > 0 && (r.size as real) < target
    ensures n > r.pages
    ensures n == ProjectPages(target, BytesPerPage(r))
  {
    var b := BytesPerPage(r);
    var missing := target - r.size as real;
    PositiveQuotient(r.size as real, r.pages as real);
    PositiveQuotient(missing, b);
    ShiftedQuotient(r.size as real, r.pages as real, target);
    CeilShift(target / b, r.pages);
    r.pages + Ceil(missing / b)
  }

  /**
   * The overshoot correction: floor(target / bytesPerPage), raised to 1. It
   * never exceeds the realised pages, drops below them on a strict overshoot
   * of a multi-page render, and is at most one below a fresh projection.
   */
  function OvershootEstimate(target: real, r: RenderResult): (n: int)
    requires r.pages >= 1 && r.size > 0 && (r.size as real) >= target
    ensures 1 <= n <= r.pages
    ensures (r.size as real) > target && r.pages > 1 ==> n < r.pages
    ensures target > 0.0 ==> n <= ProjectPages(target, BytesPerPage(r)) <= n + 1
  {
    var b := BytesPerPage(r);
    PositiveQuotient(r.size as real, r.pages as real);
    DivOrder(target, r.size as real, b);
    assert r.size as real / b == r.pages as real;
    FloorCeilGap(target / b);
    var n := Floor(target / b);
    if n < 1 then 1 else n
  }

  /**
   * The estimate that lines 123-134 store after a render outside the
   * tolerance: additive on undershoot, floor-and-clamp on overshoot.
   */
  function CorrectedEstimate(target: real, r: RenderResult): (n: int)
    requires r.pages >= 1 && r.size > 0
    ensures n >= 1
    ensures (r.size as real) < target ==> n > r.pages
    ensures (r.size as real) >= target ==> n <= r.pages
  {
    if (r.size as real) < target then UndershootEstimate(target, r) else OvershootEstimate(target, r)
  }

  /**
   * The page count that full render number k (counted from 0) requests: the
   * first projects from the calibration render, every later one from the
   * render just before it. A run in which a second render happens has a
   * positive target.
   */
  ghost function Request(fileSize: nat -> nat, target: real, k: nat): (n: int)
    requires NonEmptyOutput(fileSize)
    requires k == 0 || target > 0.0
    ensures n >= 1 <==> target > 0.0
  {
    var previous := if k == 0 then Render(fileSize, CalibrationPages)
                    else Render(fileSize, Request(fileSize, target, k - 1));
    ProjectPages(target, BytesPerPage(previous))
  }

  /** What full render number k reports. */
  ghost function Outcome(fileSize: nat -> nat, target: real, k: nat): (r: RenderResult)
    requires NonEmptyOutput(fileSize)
    requires k == 0 || target > 0.0
    ensures r.pages >= 1
    ensures target > 0.0 ==> r.size > 0
  {
    Render(fileSize, Request(fileSize, target, k))
  }

  /** Outside the tolerance the target is positive. */
  lemma OutsideToleranceMeansPositive(target: real, size: nat)
    requires target != 0.0 && !WithinTolerance(target, size)
    ensures target > 0.0
  {
    if target < 0.0 {
      NegativeTargetAlwaysWithin(target, size);
    }
  }

  /**
   * The number of full renders a run makes, given that render k happens:
   * the first render from k on that lands within the tolerance is the last,
   * and the fifth is the last in any case.
   */
  ghost function RendersUsed(fileSize: nat -> nat, target: real, k: nat): (n: nat)
    requires NonEmptyOutput(fileSize) && target != 0.0
    requires k < MaxIterations && (k == 0 || target > 0.0)
    ensures k < n <= MaxIterations
    ensures n == 1 || target > 0.0
    ensures WithinTolerance(target, Outcome(fileSize, target, n - 1).size) || n == MaxIterations
    ensures forall j :: k <= j < n - 1 ==> target > 0.0 && !WithinTolerance(target, Outcome(fileSize, target, j).size)
    decreases MaxIterations - k
  {
    if WithinTolerance(target, Outcome(fileSize, target, k).size) || k + 1 == MaxIterations then
      k + 1
    else
      OutsideToleranceMeansPositive(target, Outcome(fileSize, target, k).size);
      RendersUsed(fileSize, target, k + 1)
  }

  /**
   * The variables `main` keeps across its loop: the page estimate, the size
   * and page counter of the last render, and the iteration counter.
   */
  datatype ConvergenceState = ConvergenceState(
    estimatedPages: int, finalSize: nat, pageCount: int, iterations: nat)

  /**
   * main(): calibrate, project, then render until the size is within the
   * tolerance or five renders are done.
   *
   * Every render after the first uses the fresh projection from the render
   * before it (lines 101-106); the corrected estimate stored at the end of an
   * iteration outside the tolerance is overwritten before it is used, and
   * survives only after the last iteration, in `estimatedPages`.
   */
  method GenerateTargetSize(fileSize: nat -> nat, sizeInMB: real) returns (s: ConvergenceState)
    requires NonEmptyOutput(fileSize)
    requires sizeInMB != 0.0
    ensures 1 <= s.iterations <= MaxIterations
    ensures s.iterations == RendersUsed(fileSize, TargetBytes(sizeInMB), 0)
    ensures s.iterations == 1 || TargetBytes(sizeInMB) > 0.0
    ensures RenderResult(s.finalSize, s.pageCount) == Outcome(fileSize, TargetBytes(sizeInMB), s.iterations - 1)
    ensures WithinTolerance(TargetBytes(sizeInMB), s.finalSize) || s.iterations == MaxIterations
    ensures WithinTolerance(TargetBytes(sizeInMB), s.finalSize) ==>
              s.estimatedPages == Request(fileSize, TargetBytes(sizeInMB), s.iterations - 1)
    ensures !WithinTolerance(TargetBytes(sizeInMB), s.finalSize) ==>
              s.finalSize > 0 && s.estimatedPages == CorrectedEstimate(TargetBytes(sizeInMB), RenderResult(s.finalSize, s.pageCount))
  {
    var target := TargetBytes(sizeInMB);
    ghost var calls: nat;
    var calibration;
    calibration, calls := GeneratePdf(fileSize, CalibrationPages);
    var bytesPerPage := BytesPerPage(calibration);
    var estimatedPages := ProjectPages(target, bytesPerPage);

    var finalSize: nat, pageCount: int, iterations: nat := 0, 0, 0;
    while iterations < MaxIterations
      invariant iterations <= MaxIterations
      invariant iterations == 0 ==> estimatedPages == Request(fileSize, target, 0)
      invariant iterations > 0 ==>
                  target > 0.0 &&
                  RenderResult(finalSize, pageCount) == Outcome(fileSize, target, iterations - 1) &&
                  !WithinTolerance(target, finalSize) &&
                  RendersUsed(fileSize, target, 0) == RendersUsed(fileSize, target, iterations - 1) &&
                  estimatedPages == CorrectedEstimate(target, RenderResult(finalSize, pageCount))
    {
      iterations := iterations + 1;
      if iterations > 1 {
        var actualBytesPerPage := BytesPerPage(RenderResult(finalSize, pageCount));
        estimatedPages := ProjectPages(target, actualBytesPerPage);
      }
      assert estimatedPages == Request(fileSize, target, iterations - 1);

      var result;
      result, calls := GeneratePdf(fileSize, estimatedPages);
      finalSize, pageCount := result.size, result.pages;

      if WithinTolerance(target, finalSize) {
        break;
      }

      OutsideToleranceMeansPositive(target, finalSize);
      estimatedPages := CorrectedEstimate(target, result);
    }
    s := ConvergenceState(estimatedPages, finalSize, pageCount, iterations);
  }

  /** Ceil commutes with shifting by an integer. */
  lemma CeilShift(x: real, p: int)
    ensures Ceil(x - p as real) == Ceil(x) - p
  {
  }

  /** With b = s / p, (t - s) / b is t / b - p. */
  lemma ShiftedQuotient(s: real, p: real, t: real)
    requires s > 0.0 && p > 0.0
    ensures (t - s) / (s / p) == t / (s / p) - p
  {
    var b := s / p;
    assert b > 0.0;
    assert s / b == p;
  }

  /** The quotient of two positive numbers is positive. */
  lemma PositiveQuotient(x: real, y: real)
    requires x > 0.0 && y > 0.0
    ensures x / y > 0.0
  {
  }

  /** Dividing by a positive number keeps the order and the strict order. */
  lemma DivOrder(x: real, y: real, c: real)
    requires c > 0.0
    ensures x <= y ==> x / c <= y / c
    ensures x < y ==> x / c < y / c
  {
  }

  /** Multiplying both sides of x <= y by a positive factor keeps the order. */
  lemma ScaleMonotone(x: real, y: real, c: real)
    requires x <= y && c > 0.0
    ensures x * c <= y * c
  {
  }

  /** Multiplying both sides of x < y by a positive factor keeps the strict order. */
  lemma ScaleStrict(x: real, y: real, c: real)
    requires x < y && c > 0.0
    ensures x * c < y * c
  {
  }

  /** A quotient by a positive number is at most c exactly when the dividend is at most c times it. */
  lemma DivAtMost(a: real, t: real, c: real)
    requires t > 0.0
    ensures a / t <= c <==> a <= c * t
  {
    assert (a / t) * t == a;
    if a / t <= c {
      ScaleMonotone(a / t, c, t);
    } else {
      ScaleStrict(c, a / t, t);
    }
  }
}
