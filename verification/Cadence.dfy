/** Wall-clock cadence: the loop's next deadline and the due test of a dataset,
    both of which must survive a clock that jumps backwards. */
module Cadence {
  import opened Util

  const SKEW_TOLERANCE := 300.0

  function Interval(configured: int): real { Max(1, configured) as real }

  /** Floor division of a non-negative span, as the source's `//`. */
  function WholeIntervals(span: real, step: real): int
    requires step > 0.0
  {
    (span / step).Floor
  }

  function NextDeadline(deadline: real, now: real, configured: int): real {
    var step := Interval(configured);
    if deadline > now + SKEW_TOLERANCE then now + step
    else
      var next := deadline + step;
      if next <= now then next + (WholeIntervals(now - next, step) + 1) as real * step else next
  }

  function Due(nextRun: real, delay: real, now: real): bool {
    now >= nextRun || nextRun > now + RealMax(1.0, delay) + SKEW_TOLERANCE
  }

  /** The k-th boundary after `deadline`. */
  function Boundary(deadline: real, step: real, k: int): real {
    deadline + k as real * step
  }

  lemma BoundarySum(deadline: real, step: real, a: int, b: int)
    ensures Boundary(Boundary(deadline, step, a), step, b) == Boundary(deadline, step, a + b)
  {
    assert (a + b) as real * step == a as real * step + b as real * step;
  }

  lemma BoundaryGrows(deadline: real, step: real, a: int, b: int)
    requires step > 0.0 && a <= b
    ensures Boundary(deadline, step, a) <= Boundary(deadline, step, b)
  {
    BoundarySum(deadline, step, a, b - a);
    assert (b - a) as real * step >= 0.0;
  }

  /** `x` stands for the quotient; the division itself is kept out of the proof. */
  lemma FloorOf(x: real, span: real, step: real)
    requires step > 0.0 && x * step == span && span >= 0.0
    ensures x.Floor >= 0 && Boundary(0.0, step, x.Floor) <= span < Boundary(0.0, step, x.Floor) + step
  {
    var below, above := x - x.Floor as real, x.Floor as real + 1.0 - x;
    assert below * step >= 0.0 && above * step > 0.0;
  }

  lemma FloorBounds(base: real, now: real, step: real)
    requires step > 0.0 && base <= now
    ensures var q := WholeIntervals(now - base, step);
            q >= 0 && Boundary(base, step, q) <= now < Boundary(base, step, q + 1)
  {
    FloorOf((now - base) / step, now - base, step);
    BoundarySum(base, step, WholeIntervals(now - base, step), 1);
  }

  /** Taking the boundary after the missed ones. */
  lemma SkipsMissed(deadline: real, now: real, configured: int)
    requires Boundary(deadline, Interval(configured), 1) <= now
    ensures var step := Interval(configured);
            var k := WholeIntervals(now - Boundary(deadline, step, 1), step) + 2;
            && k >= 2 && NextDeadline(deadline, now, configured) == Boundary(deadline, step, k)
            && Boundary(deadline, step, k - 1) <= now < Boundary(deadline, step, k)
  {
    var step := Interval(configured);
    var next := Boundary(deadline, step, 1);
    FloorBounds(next, now, step);
    var q := WholeIntervals(now - next, step);
    BoundarySum(deadline, step, 1, q);
    BoundarySum(deadline, step, 1, q + 1);
  }

  /** The next deadline is always ahead, never by more than one interval and the
      tolerance. Unless the skew reset fires it is the first boundary of the old
      cadence, past the current one, that lies in the future. */
  lemma NextDeadlineIsNear(deadline: real, now: real, configured: int)
    ensures var r := NextDeadline(deadline, now, configured);
            && now < r <= now + (if configured < 1 then 1 else configured) as real + 300.0
            && (deadline > now + SKEW_TOLERANCE ==> r == now + Interval(configured))
    ensures deadline <= now + SKEW_TOLERANCE ==>
              exists k ::
                k >= 1 && NextDeadline(deadline, now, configured) == Boundary(deadline, Interval(configured), k)
                          && forall j :: 1 <= j < k ==> Boundary(deadline, Interval(configured), j) <= now
  {
    var step := Interval(configured);
    if deadline <= now + SKEW_TOLERANCE {
      if Boundary(deadline, step, 1) <= now {
        SkipsMissed(deadline, now, configured);
        var k := WholeIntervals(now - Boundary(deadline, step, 1), step) + 2;
        BoundarySum(deadline, step, k - 1, 1);
        forall j | 1 <= j < k ensures Boundary(deadline, step, j) <= now {
          BoundaryGrows(deadline, step, j, k - 1);
        }
      } else {
        assert NextDeadline(deadline, now, configured) == Boundary(deadline, step, 1);
      }
    }
  }

  /** The deadlines of a loop in which the skew reset never fires. */
  ghost predicate Loop(deadlines: seq<real>, clocks: seq<real>, configured: int) {
    && |deadlines| == |clocks| + 1
    && forall i | 0 <= i < |clocks| ::
         && deadlines[i] <= clocks[i] + SKEW_TOLERANCE
         && deadlines[i + 1] == NextDeadline(deadlines[i], clocks[i], configured)
  }

  /** Over any number of cycles, however late each ends, the cadence keeps its phase
      and moves strictly forward. */
  lemma {:induction false} LoopKeepsPhase(deadlines: seq<real>, clocks: seq<real>, configured: int, n: nat)
    returns (k: int)
    requires Loop(deadlines, clocks, configured) && n < |deadlines|
    ensures k >= n && deadlines[n] == Boundary(deadlines[0], Interval(configured), k)
  {
    if n == 0 {
      k := 0;
    } else {
      var step := Interval(configured);
      var before := LoopKeepsPhase(deadlines, clocks, configured, n - 1);
      var last := deadlines[n - 1];
      assert deadlines[n] == NextDeadline(last, clocks[n - 1], configured);
      NextDeadlineIsNear(last, clocks[n - 1], configured);
      var more :| more >= 1 && deadlines[n] == Boundary(last, step, more);
      BoundarySum(deadlines[0], step, before, more);
      k := before + more;
    }
  }

  /** A dataset that is not due at one reading of the clock is due at every reading
      at least max(1, delay) + 300 seconds later, whatever happened in between. */
  lemma SuspensionIsBounded(nextRun: real, delay: real, clocks: seq<real>, i: nat, j: nat)
    requires i < |clocks| && j < |clocks| && !Due(nextRun, delay, clocks[i])
    requires clocks[j] >= clocks[i] + RealMax(1.0, delay) + SKEW_TOLERANCE
    ensures Due(nextRun, delay, clocks[j])
  {
  }

  /** After an attempt that completed at `completed`, with the delay it set, the
      dataset is held back exactly inside the window from the tolerance before the
      completion to the deadline; a larger jump back runs it at once. */
  lemma HeldBackExactly(completed: real, delay: real, now: real)
    ensures !Due(completed + delay, delay, now) <==>
            completed + delay - RealMax(1.0, delay) - 300.0 <= now < completed + delay
    ensures delay >= 1.0 ==>
              (!Due(completed + delay, delay, now) <==> completed - 300.0 <= now < completed + delay)
  {
  }
}
