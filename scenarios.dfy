/**
 * Properties of whole runs of the controller: the estimate that each
 * iteration stores and then discards, and runs against renderers whose cost
 * per page is constant.
 */
module Scenarios {
  import opened Rounding
  import opened Renderer
  import opened Controller

  /**
   * The render after an iteration outside the tolerance requests the fresh
   * projection from that iteration's render, not the corrected estimate the
   * iteration stored. On undershoot the two agree in exact arithmetic; on
   * overshoot the stored value can be one page lower.
   *
   * The first ensures only unfolds `Request`. That the stored correction is
   * never rendered follows from `GenerateTargetSize`, whose contract ties every
   * render to `Outcome` and `Request`, and `Request` never uses
   * `CorrectedEstimate`. This lemma compares the two values.
   */
  lemma CorrectionIsDiscarded(fileSize: nat -> nat, target: real, k: nat)
    requires NonEmptyOutput(fileSize) && target > 0.0 && k >= 1
    ensures Request(fileSize, target, k) ==
              ProjectPages(target, BytesPerPage(Outcome(fileSize, target, k - 1)))
    ensures (Outcome(fileSize, target, k - 1).size as real) < target ==>
              CorrectedEstimate(target, Outcome(fileSize, target, k - 1)) == Request(fileSize, target, k)
    ensures (Outcome(fileSize, target, k - 1).size as real) >= target ==>
              CorrectedEstimate(target, Outcome(fileSize, target, k - 1)) <= Request(fileSize, target, k)
                <= CorrectedEstimate(target, Outcome(fileSize, target, k - 1)) + 1
  {
    var r := Outcome(fileSize, target, k - 1);
    if (r.size as real) < target {
      assert CorrectedEstimate(target, r) == UndershootEstimate(target, r);
    } else {
      assert CorrectedEstimate(target, r) == OvershootEstimate(target, r);
    }
  }

  /**
   * A render of 1200 bytes over 2 pages against a 1000-byte target: the
   * overshoot branch stores 1 page, the next render requests 2.
   */
  lemma DiscardedCorrectionDiffers()
    ensures CorrectedEstimate(1000.0, RenderResult(1200, 2)) == 1
    ensures ProjectPages(1000.0, BytesPerPage(RenderResult(1200, 2))) == 2
  {
    assert BytesPerPage(RenderResult(1200, 2)) == 600.0;
    assert 1000.0 / 600.0 == 5.0 / 3.0;
  }

  /** The cost per page the calibration render measures for a constant-cost renderer. */
  lemma ConstantCostCalibration(fileSize: nat -> nat, c: nat)
    requires c > 0
    requires forall k: nat :: fileSize(k) == c * k
    ensures NonEmptyOutput(fileSize)
    ensures BytesPerPage(Render(fileSize, CalibrationPages)) == c as real
  {
    forall k: nat | 1 <= k
      ensures fileSize(k) > 0
    {
      assert fileSize(k) == c * k;
    }
    assert Render(fileSize, CalibrationPages) == RenderResult(5 * c, 5);
  }

  /**
   * With a constant cost per page and a target that is a whole number of
   * pages, the first full render hits the target exactly and ends the run.
   */
  lemma ExactMultipleStopsAtFirstRender(fileSize: nat -> nat, c: nat, m: nat)
    requires c > 0 && m > 0
    requires forall k: nat :: fileSize(k) == c * k
    ensures NonEmptyOutput(fileSize)
    ensures Request(fileSize, (c * m) as real, 0) == m
    ensures Outcome(fileSize, (c * m) as real, 0) == RenderResult(c * m, m)
    ensures RendersUsed(fileSize, (c * m) as real, 0) == 1
  {
    ConstantCostCalibration(fileSize, c);
    var target := (c * m) as real;
    WholePages(c, m);
    CeilOfInteger(m);
    assert Request(fileSize, target, 0) == m;
    assert fileSize(m) == c * m;
    assert Outcome(fileSize, target, 0) == RenderResult(c * m, m);
    assert WithinTolerance(target, c * m) by {
      assert Difference(target, c * m) == 0.0;
    }
  }

  /**
   * With a constant cost per page and a target of at least twenty pages, the
   * first full render lands within the tolerance, at or above the target and
   * less than one page beyond it.
   */
  lemma ConstantCostStopsAtFirstRender(fileSize: nat -> nat, c: nat, target: real)
    requires c > 0 && target >= 20.0 * c as real
    requires forall k: nat :: fileSize(k) == c * k
    ensures NonEmptyOutput(fileSize)
    ensures target <= Outcome(fileSize, target, 0).size as real < target + c as real
    ensures RendersUsed(fileSize, target, 0) == 1
  {
    ConstantCostCalibration(fileSize, c);
    var n := Request(fileSize, target, 0);
    assert n == ProjectPages(target, c as real);
    ProjectPagesIsLeast(target, c as real);
    assert fileSize(n) == c * n;
    assert (c * n) as real == n as real * c as real;
    WithinToleranceBand(target, c * n);
  }

  /**
   * Against a renderer of 1000 bytes per page and a 500-byte target, every
   * full render requests one page: the run makes five identical renders and
   * ends outside the tolerance, the last correction again being one page.
   */
  lemma OvershootRepeatsUntilCap(fileSize: nat -> nat)
    requires forall k: nat :: fileSize(k) == 1000 * k
    ensures NonEmptyOutput(fileSize)
    ensures forall j :: 0 <= j < MaxIterations ==> Request(fileSize, 500.0, j) == 1
    ensures RendersUsed(fileSize, 500.0, 0) == MaxIterations
    ensures Outcome(fileSize, 500.0, MaxIterations - 1) == RenderResult(1000, 1)
    ensures !WithinTolerance(500.0, 1000)
    ensures CorrectedEstimate(500.0, RenderResult(1000, 1)) == 1
  {
    ConstantCostCalibration(fileSize, 1000);
    forall j | 0 <= j < MaxIterations
      ensures Request(fileSize, 500.0, j) == 1
    {
      OvershootRequestsOnePage(fileSize, j);
    }
    assert !WithinTolerance(500.0, 1000);
    OvershootUsesAll(fileSize, 0);
  }

  /**
   * Each request of the 500-byte run is one page. No induction is needed:
   * every render of n >= 1 pages costs 1000 bytes per page, so one unfolding
   * of `Request` and its own ensures (a positive target requests at least one
   * page) give the projection ceil(500 / 1000) = 1.
   */
  lemma OvershootRequestsOnePage(fileSize: nat -> nat, j: nat)
    requires forall k: nat :: fileSize(k) == 1000 * k
    requires NonEmptyOutput(fileSize)
    ensures Request(fileSize, 500.0, j) == 1
  {
    if j == 0 {
      assert fileSize(5) == 5000;
    } else {
      var n := Request(fileSize, 500.0, j - 1);
      assert n >= 1 && fileSize(n) == 1000 * n;
    }
  }

  /**
   * From any render j of the 500-byte run, the run goes on to the cap: every
   * render is the one-page, 1000-byte file, which is outside the tolerance.
   * No induction is needed: `RendersUsed` unfolds at most five times.
   */
  lemma OvershootUsesAll(fileSize: nat -> nat, j: nat)
    requires forall k: nat :: fileSize(k) == 1000 * k
    requires NonEmptyOutput(fileSize)
    requires j < MaxIterations
    ensures RendersUsed(fileSize, 500.0, j) == MaxIterations
  {
    forall i | j <= i < MaxIterations
      ensures Outcome(fileSize, 500.0, i) == RenderResult(1000, 1)
    {
      OvershootRequestsOnePage(fileSize, i);
    }
    assert !WithinTolerance(500.0, 1000);
  }

  /** A size of m pages at c bytes each, divided by c, is m pages. */
  lemma WholePages(c: nat, m: nat)
    requires c > 0
    ensures (c * m) as real / c as real == m as real
  {
    assert (c * m) as real == c as real * m as real;
  }
}
