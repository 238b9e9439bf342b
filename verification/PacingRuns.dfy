/** Whole runs of the pacing gate: the duty-cycle bound, the bound that survives
    crashes, and that no deadline the gate stores is ever refused as implausible. */
module PacingRuns {
  import opened Util
  import opened PacingGate

  /** Adaptive work scaled by the span each second of it must claim. */
  function Claim(rate: real, work: real): real { work * rate }

  lemma ClaimSum(rate: real, sum: real, a: real, b: real)
    requires sum == a + b
    ensures Claim(rate, sum) == Claim(rate, a) + Claim(rate, b)
  {
  }

  lemma ClaimAtMost(p: Pace, rate: real, work: real)
    requires work >= 0.0
    ensures rate <= p.stretch + 1.0 ==> Claim(rate, work) <= work + Owed(p, work)
    ensures rate <= p.stretch ==> Claim(rate, work) <= Owed(p, work)
  {
    if rate <= p.stretch + 1.0 {
      var slack := p.stretch + 1.0 - rate;
      assert slack * work >= 0.0;
      assert slack * work == p.stretch * work + work - rate * work;
    }
  }

  /** The work claims no more than the time from the first adaptive start to `until`. */
  predicate Fits(g: Gate, rate: real, work: real, until: real) {
    if g.first.None? then work == 0.0 else Claim(rate, work) <= until - g.first.value
  }

  /** At work, the earlier sessions fit before this one began; otherwise all work
      fits before the deadline that is stored. */
  predicate Paced(g: Gate, rate: real) {
    if AtWork(g) then Fits(g, rate, g.work - g.holder.value.charged, g.holder.value.begun)
    else if g.holder.Some? then
      g.holder.value.preserved <= g.deadline && Fits(g, rate, g.work, g.holder.value.preserved)
    else Fits(g, rate, g.work, g.deadline)
  }

  predicate Uncapped(p: Pace, g: Gate) {
    AtWork(g) ==> Owed(p, AtRisk(p, g.holder.value)) <= CRASH_LEASE_CAP
  }

  lemma LeaseKeepsPace(p: Pace, g: Gate, rate: real)
    requires ValidPace(p) && Clocks(p, g) && Enabled(p, g, Hold(Lease)) && Paced(g, rate)
    ensures Paced(Apply(p, g, Hold(Lease)), rate)
  {
    var g' := Apply(p, g, Hold(Lease));
    if g.holder.value.adaptive {
      assert g'.work - g'.holder.value.charged == g.work;
    }
  }

  lemma EndKeepsPace(p: Pace, g: Gate, rate: real)
    requires ValidPace(p) && Clocks(p, g) && Enabled(p, g, Hold(End)) && Paced(g, rate)
    ensures Paced(Apply(p, g, Hold(End)), rate)
  {
    var g' := Apply(p, g, Hold(End));
    if AtWork(g) {
      assert g'.work - g'.holder.value.charged == g.work - g.holder.value.charged;
    }
  }

  lemma ReleaseKeepsPace(p: Pace, g: Gate, rate: real)
    requires ValidPace(p) && Clocks(p, g) && Enabled(p, g, Hold(Release)) && Paced(g, rate)
    requires 0.0 <= rate <= p.stretch + 1.0
    ensures Paced(Apply(p, g, Hold(Release)), rate)
  {
    var s := g.holder.value;
    if s.adaptive {
      ClaimSum(rate, g.work, g.work - s.charged, s.charged);
      ClaimAtMost(p, rate, s.charged);
      Spans(p, s.charged);
    }
  }

  lemma CrashKeepsPace(p: Pace, g: Gate, spent: real, rate: real)
    requires ValidPace(p) && Clocks(p, g) && Enabled(p, g, Hold(Crash(spent))) && Paced(g, rate)
    requires LeaseHolds(p, g) && Uncapped(p, g) && 0.0 <= rate <= p.stretch
    ensures Paced(Apply(p, g, Hold(Crash(spent))), rate)
  {
    var s := g.holder.value;
    var g' := Apply(p, g, Hold(Crash(spent)));
    if AtWork(g) {
      var done := s.charged + spent;
      ClaimSum(rate, g'.work, g.work - s.charged, done);
      ClaimAtMost(p, rate, done);
      OwedGrows(p, done, AtRisk(p, s));
    }
  }

  /** Crashes are admitted only below the stretch rate and while uncapped. */
  predicate Admitted(p: Pace, g: Gate, step: Step, rate: real) {
    step.Hold? && step.action.Crash? ==> rate <= p.stretch && Uncapped(p, g)
  }

  lemma StepKeepsPace(p: Pace, g: Gate, step: Step, rate: real)
    requires ValidPace(p) && Clocks(p, g) && LeaseHolds(p, g) && Paced(g, rate)
    requires Enabled(p, g, step) && Admitted(p, g, step, rate) && 0.0 <= rate <= p.stretch + 1.0
    ensures Paced(Apply(p, g, step), rate)
  {
    if step.Hold? {
      match step.action
      case Lease => LeaseKeepsPace(p, g, rate);
      case End => EndKeepsPace(p, g, rate);
      case Release => ReleaseKeepsPace(p, g, rate);
      case Crash(spent) => CrashKeepsPace(p, g, spent, rate);
      case _ =>
    }
  }

  lemma {:induction false} RunKeepsPace(p: Pace, gs: seq<Gate>, steps: seq<Step>, rate: real, n: nat)
    requires ValidPace(p) && Run(p, gs, steps) && n < |gs| && 0.0 <= rate <= p.stretch + 1.0
    requires Clocks(p, gs[0]) && LeaseHolds(p, gs[0]) && Paced(gs[0], rate)
    requires forall i | 0 <= i < |steps| :: Admitted(p, gs[i], steps[i], rate)
    ensures Clocks(p, gs[n]) && LeaseHolds(p, gs[n]) && Paced(gs[n], rate)
  {
    if n > 0 {
      RunKeepsPace(p, gs, steps, rate, n - 1);
      StepKeepsClocks(p, gs[n - 1], steps[n - 1]);
      StepKeepsLease(p, gs[n - 1], steps[n - 1]);
      StepKeepsPace(p, gs[n - 1], steps[n - 1], rate);
    }
  }

  predicate CrashFree(step: Step) {
    !(step.Hold? && step.action.Crash?)
  }

  /** A claim at 100 / duty is a share of duty percent. */
  lemma ShareOfSpan(duty: real, work: real, span: real)
    requires 0.0 < duty <= 100.0 && Claim(100.0 / duty, work) <= span
    ensures work <= duty / 100.0 * span
  {
    var k := 100.0 / duty;
    assert work * k <= span;
    assert duty / 100.0 * k == 1.0;
    var share := duty / 100.0;
    assert share * (work * k) <= share * span;
    assert share * (work * k) == work * (share * k);
  }

  /** Duty-cycle bound: in every crash-free run of processes sharing the gate,
      whenever no adaptive session is at work, all adaptive statement time is at
      most duty percent of the span from the first adaptive start to the stored
      deadline; and while one is, the same holds of all sessions before it. */
  lemma DutyCycle(duty: real, minGap: real, timeout: real, clock: real, gs: seq<Gate>, steps: seq<Step>, n: nat)
    requires 0.0 < duty <= 100.0 && minGap >= 0.0 && timeout > 0.0 && clock >= 0.0
    requires Run(PaceOf(duty, minGap, timeout), gs, steps) && gs[0] == Start(clock) && n < |gs|
    requires forall i | 0 <= i < |steps| :: CrashFree(steps[i])
    ensures gs[n].first.None? ==> !AtWork(gs[n]) && gs[n].work == 0.0
    ensures gs[n].first.Some? && !AtWork(gs[n]) ==>
              gs[n].work <= duty / 100.0 * (gs[n].deadline - gs[n].first.value)
    ensures AtWork(gs[n]) ==>
              gs[n].work - gs[n].holder.value.charged <= duty / 100.0 * (gs[n].holder.value.begun - gs[n].first.value)
  {
    var p := PaceOf(duty, minGap, timeout);
    var g, rate := gs[n], 100.0 / duty;
    RunKeepsPace(p, gs, steps, rate, n);
    if g.first.Some? {
      if AtWork(g) {
        ShareOfSpan(duty, g.work - g.holder.value.charged, g.holder.value.begun - g.first.value);
      } else {
        ShareOfSpan(duty, g.work, g.deadline - g.first.value);
      }
    }
  }

  /** Crash lease invariant, at every point of every run, crashes included: the
      stored deadline lies at least min(3600, W * (100 / duty - 1)) after its last
      write, W being the work charged plus what a statement may still use. */
  lemma CrashLease(duty: real, minGap: real, timeout: real, clock: real, gs: seq<Gate>, steps: seq<Step>, n: nat)
    requires 0.0 < duty <= 100.0 && minGap >= 0.0 && timeout > 0.0 && clock >= 0.0
    requires Run(PaceOf(duty, minGap, timeout), gs, steps) && gs[0] == Start(clock) && n < |gs|
    ensures AtWork(gs[n]) ==>
              var atRisk := AtRisk(PaceOf(duty, minGap, timeout), gs[n].holder.value);
              gs[n].deadline - gs[n].lastWrite >= RealMin(3600.0, atRisk * (100.0 / duty - 1.0))
    ensures gs[n].deadline >= gs[n].lastWrite
  {
    var p := PaceOf(duty, minGap, timeout);
    LeaseAlways(p, gs, steps, n);
    if AtWork(gs[n]) {
      assert Owed(p, AtRisk(p, gs[n].holder.value)) == AtRisk(p, gs[n].holder.value) * (100.0 / duty - 1.0);
    }
  }

  lemma {:induction false} LeaseAlways(p: Pace, gs: seq<Gate>, steps: seq<Step>, n: nat)
    requires ValidPace(p) && Run(p, gs, steps) && n < |gs| && Clocks(p, gs[0]) && LeaseHolds(p, gs[0])
    ensures Clocks(p, gs[n]) && LeaseHolds(p, gs[n])
  {
    if n > 0 {
      LeaseAlways(p, gs, steps, n - 1);
      StepKeepsClocks(p, gs[n - 1], steps[n - 1]);
      StepKeepsLease(p, gs[n - 1], steps[n - 1]);
    }
  }

  lemma CrashShare(duty: real, work: real, span: real)
    requires 0.0 < duty < 100.0 && Claim(100.0 / duty - 1.0, work) <= span
    ensures work <= duty / (100.0 - duty) * span
  {
    var k := 100.0 / duty - 1.0;
    var share := duty / (100.0 - duty);
    assert k == (100.0 - duty) / duty;
    assert share * k == 1.0;
    assert share * (work * k) <= share * span;
    assert share * (work * k) == work * (share * k);
  }

  /** With crashes at any point, but only while the lease is below its cap, the
      whole run overruns to at most duty / (100 - duty) of the span. */
  lemma CrashedDutyCycle(duty: real, minGap: real, timeout: real, clock: real, gs: seq<Gate>, steps: seq<Step>, n: nat)
    requires 0.0 < duty < 100.0 && minGap >= 0.0 && timeout > 0.0 && clock >= 0.0
    requires Run(PaceOf(duty, minGap, timeout), gs, steps) && gs[0] == Start(clock) && n < |gs|
    requires forall i | 0 <= i < |steps| :: CrashFree(steps[i]) || Uncapped(PaceOf(duty, minGap, timeout), gs[i])
    requires gs[n].first.Some? && !AtWork(gs[n])
    ensures gs[n].work <= duty / (100.0 - duty) * (gs[n].deadline - gs[n].first.value)
  {
    var p := PaceOf(duty, minGap, timeout);
    RunKeepsPace(p, gs, steps, p.stretch, n);
    CrashShare(duty, gs[n].work, gs[n].deadline - gs[n].first.value);
  }

  // ---- the plausibility guard -------------------------------------------------

  predicate StatementsBounded(p: Pace, s: Session) {
    && s.ran <= (if s.adaptive then BATCH_LIMIT else 1)
    && (s.stage.AwaitCooldown? ==> s.ran == 0)
    && (s.stage.Running? ==> s.ran >= 1)
    && s.charged <= Claim(StatementLimit(p), (if s.stage.Running? then s.ran - 1 else s.ran) as real)
  }

  predicate Plausible(p: Pace, g: Gate) {
    && g.deadline <= g.clock + FutureLimit(p)
    && (g.holder.Some? ==> StatementsBounded(p, g.holder.value) && g.holder.value.preserved <= g.clock + FutureLimit(p))
  }

  lemma MoreRuns(limit: real, ran: real, most: real)
    requires limit >= 0.0 && 0.0 <= ran <= most
    ensures Claim(limit, ran) <= most * limit
  {
  }

  lemma BoundedCooldown(p: Pace, s: Session)
    requires ValidPace(p) && p.minGap <= MAX_FUTURE && StatementLimit(p) <= MAX_FUTURE
    requires s.charged >= 0.0 && StatementsBounded(p, s) && !s.stage.Running?
    ensures Cooldown(p, s.adaptive, s.charged) <= FutureLimit(p)
  {
    if s.adaptive {
      MoreRuns(StatementLimit(p), s.ran as real, BATCH_LIMIT as real);
      OwedGrows(p, s.charged, BATCH_LIMIT as real * StatementLimit(p));
    } else {
      MoreRuns(StatementLimit(p), s.ran as real, 1.0);
    }
  }

  lemma EndKeepsStatements(p: Pace, g: Gate)
    requires ValidPace(p) && Clocks(p, g) && Enabled(p, g, Hold(End)) && StatementsBounded(p, g.holder.value)
    ensures StatementsBounded(p, Apply(p, g, Hold(End)).holder.value)
  {
    var s := g.holder.value;
    ClaimSum(StatementLimit(p), s.ran as real, (s.ran - 1) as real, 1.0);
    assert Claim(StatementLimit(p), s.ran as real)
        == Claim(StatementLimit(p), (s.ran - 1) as real) + StatementLimit(p);
  }

  /** The holder's statements keep within their number and time. */
  lemma StepKeepsStatements(p: Pace, g: Gate, step: Step)
    requires ValidPace(p) && Clocks(p, g) && Enabled(p, g, step)
    requires g.holder.Some? ==> StatementsBounded(p, g.holder.value)
    ensures Apply(p, g, step).holder.Some? ==> StatementsBounded(p, Apply(p, g, step).holder.value)
  {
    if step == Hold(End) {
      EndKeepsStatements(p, g);
    }
  }

  lemma StepKeepsPlausible(p: Pace, g: Gate, step: Step)
    requires ValidPace(p) && p.minGap <= MAX_FUTURE && StatementLimit(p) <= MAX_FUTURE
    requires Clocks(p, g) && Plausible(p, g) && Enabled(p, g, step)
    ensures Plausible(p, Apply(p, g, step))
  {
    StepKeepsStatements(p, g, step);
    if step.Hold? {
      var s := g.holder.value;
      if step.action.Release? || step.action.Checkpoint? {
        BoundedCooldown(p, s);
      } else if step.action.Lease? || step.action.Renew? {
        assert LeaseSpan(p, s.adaptive, s.charged) <= CRASH_LEASE_CAP <= FutureLimit(p);
      }
    }
  }

  /** No false refusal: with timeouts and gaps in range and a non-decreasing clock,
      the implausible-deadline guard never rejects a deadline the gate stored, so an
      adaptive session that has waited out its cooldown may always take its lease. */
  lemma {:induction false} NeverRefused(p: Pace, clock: real, gs: seq<Gate>, steps: seq<Step>, n: nat)
    requires ValidPace(p) && p.minGap <= MAX_FUTURE && StatementLimit(p) <= MAX_FUTURE && clock >= 0.0
    requires Run(p, gs, steps) && gs[0] == Start(clock) && n < |gs|
    ensures Plausible(p, gs[n])
    ensures gs[n].holder.Some? && gs[n].holder.value.stage.AwaitCooldown?
            && gs[n].clock >= gs[n].holder.value.preserved
            ==> Enabled(p, gs[n], Hold(Lease))
    decreases n
  {
    if n > 0 {
      NeverRefused(p, clock, gs, steps, n - 1);
      LeaseAlways(p, gs, steps, n - 1);
      StepKeepsPlausible(p, gs[n - 1], steps[n - 1]);
    }
  }

  // ---- the minimum gap ---------------------------------------------------------------

  /** What the writes of a session store: a lease of the minimum gap at least, up to one
      hour, and a cooldown of the minimum gap at least and of all that is owed. */
  lemma WritesSpanTheGap(p: Pace, g: Gate, action: Action)
    requires Enabled(p, g, Hold(action))
    ensures var s, next := g.holder.value, Apply(p, g, Hold(action));
            && (action.Lease? || action.Renew? ==> next.deadline >= g.clock + RealMin(p.minGap, 3600.0))
            && (action.Checkpoint? || action.Release? ==>
                  && next.deadline >= g.clock + p.minGap
                  && next.deadline >= g.clock + (if s.adaptive then s.charged * p.stretch else s.charged))
  {
  }

  /** After a statement that ended at `end`: its session still holds the gate, or the
      stored deadline lies a whole gap later. */
  predicate GapAhead(p: Pace, g: Gate, end: real) {
    && g.clock >= end
    && (g.holder.None? || g.holder.value.stage.AwaitCooldown? ==> g.deadline >= end + p.minGap)
    && (g.holder.Some? && g.holder.value.stage.AwaitCooldown? ==> g.holder.value.preserved == g.deadline)
  }

  lemma StepKeepsGapAhead(p: Pace, g: Gate, step: Step, end: real)
    requires Enabled(p, g, step) && CrashFree(step) && GapAhead(p, g, end)
    ensures GapAhead(p, Apply(p, g, step), end)
  {
    if step.Hold? {
      WritesSpanTheGap(p, g, step.action);
    }
  }

  lemma {:induction false} RunKeepsGapAhead(p: Pace, gs: seq<Gate>, steps: seq<Step>, i: nat, n: nat)
    requires Run(p, gs, steps) && i < n < |gs| && steps[i] == Hold(End)
    requires forall j | i < j < n :: CrashFree(steps[j])
    ensures GapAhead(p, gs[n], gs[i].clock)
    decreases n
  {
    if i < n - 1 {
      RunKeepsGapAhead(p, gs, steps, i, n - 1);
      StepKeepsGapAhead(p, gs[n - 1], steps[n - 1], gs[i].clock);
    }
  }

  /** Between the end of any statement, reporting or catalog, and the next adaptive lease
      at least the minimum gap passes, whichever processes they belong to. */
  lemma GapBetweenSessions(p: Pace, gs: seq<Gate>, steps: seq<Step>, i: nat, n: nat)
    requires Run(p, gs, steps) && i < n < |steps| && steps[i] == Hold(End)
    requires forall j | i < j < n :: CrashFree(steps[j])
    requires steps[n] == Hold(Lease) && gs[n].holder.Some? && gs[n].holder.value.adaptive
    ensures gs[n].clock >= gs[i].clock + p.minGap
  {
    RunKeepsGapAhead(p, gs, steps, i, n);
    assert Enabled(p, gs[n], steps[n]);
  }

  // ---- crashes anywhere -----------------------------------------------------------

  /** A rate at which even the longest batch claims no more than the capped lease. */
  predicate Slow(p: Pace, rate: real) {
    0.0 <= rate <= p.stretch && Claim(rate, BATCH_LIMIT as real * StatementLimit(p)) <= CRASH_LEASE_CAP
  }

  /** What a dying holder may have used is at most one longest batch. */
  lemma RiskIsBounded(p: Pace, g: Gate, spent: real)
    requires ValidPace(p) && Clocks(p, g) && Enabled(p, g, Hold(Crash(spent))) && AtWork(g)
    requires StatementsBounded(p, g.holder.value)
    ensures 0.0 <= g.holder.value.charged + spent <= AtRisk(p, g.holder.value)
    ensures g.holder.value.charged + spent <= BATCH_LIMIT as real * StatementLimit(p)
  {
    var s := g.holder.value;
    if s.stage.Running? {
      ClaimSum(StatementLimit(p), s.ran as real, (s.ran - 1) as real, 1.0);
    }
    MoreRuns(StatementLimit(p), s.ran as real, BATCH_LIMIT as real);
  }

  lemma SlowCrashKeepsPace(p: Pace, g: Gate, spent: real, rate: real)
    requires ValidPace(p) && Clocks(p, g) && Enabled(p, g, Hold(Crash(spent))) && Paced(g, rate)
    requires LeaseHolds(p, g) && StatementsBounded(p, g.holder.value) && Slow(p, rate)
    ensures Paced(Apply(p, g, Hold(Crash(spent))), rate)
  {
    if AtWork(g) {
      var s := g.holder.value;
      var done := s.charged + spent;
      RiskIsBounded(p, g, spent);
      ClaimSum(rate, g.work + spent, g.work - s.charged, done);
      ClaimAtMost(p, rate, done);
      OwedGrows(p, done, AtRisk(p, s));
      ClaimGrows(rate, done, BATCH_LIMIT as real * StatementLimit(p));
    }
  }

  lemma ClaimGrows(rate: real, a: real, b: real)
    requires a <= b && rate >= 0.0
    ensures Claim(rate, a) <= Claim(rate, b)
  {
  }

  lemma {:induction false} RunKeepsSlowPace(p: Pace, gs: seq<Gate>, steps: seq<Step>, rate: real, n: nat)
    requires ValidPace(p) && Run(p, gs, steps) && n < |gs| && Slow(p, rate)
    requires Clocks(p, gs[0]) && LeaseHolds(p, gs[0]) && Paced(gs[0], rate) && gs[0].holder.None?
    ensures Clocks(p, gs[n]) && LeaseHolds(p, gs[n]) && Paced(gs[n], rate)
    ensures gs[n].holder.Some? ==> StatementsBounded(p, gs[n].holder.value)
  {
    if n > 0 {
      var g, step := gs[n - 1], steps[n - 1];
      RunKeepsSlowPace(p, gs, steps, rate, n - 1);
      StepKeepsClocks(p, g, step);
      StepKeepsLease(p, g, step);
      StepKeepsStatements(p, g, step);
      if CrashFree(step) {
        StepKeepsPace(p, g, step, rate);
      } else {
        SlowCrashKeepsPace(p, g, step.action.spent, rate);
      }
    }
  }

  /** The share of the span that crashes anywhere can add up to. */
  function CrashedShare(duty: real, timeout: real): real
    requires 0.0 < duty < 100.0
  {
    RealMax(duty / (100.0 - duty), timeout / 180.0)
  }

  lemma SlowShare(duty: real, minGap: real, timeout: real) returns (rate: real)
    requires 0.0 < duty < 100.0 && minGap >= 0.0 && timeout > 0.0
    ensures Slow(PaceOf(duty, minGap, timeout), rate) && rate * CrashedShare(duty, timeout) == 1.0
  {
    var k := 100.0 / duty - 1.0;
    assert k == (100.0 - duty) / duty;
    assert k * (duty / (100.0 - duty)) == 1.0;
    var capped := 180.0 / timeout;
    assert capped * (timeout / 180.0) == 1.0;
    if duty / (100.0 - duty) < timeout / 180.0 {
      rate := capped;
      Reciprocals(capped, timeout / 180.0, k, duty / (100.0 - duty));
    } else {
      rate := k;
      Reciprocals(k, duty / (100.0 - duty), capped, timeout / 180.0);
    }
    assert capped * timeout == 180.0;
    ClaimGrows(timeout, rate, capped);
    assert Claim(rate, 5.0 * (4.0 * timeout)) == 20.0 * Claim(timeout, rate);
  }

  lemma Reciprocals(a: real, x: real, b: real, y: real)
    requires a > 0.0 && b > 0.0 && a * x == 1.0 && b * y == 1.0 && y <= x
    ensures a <= b
  {
    assert a == a * (b * y) == a * b * y;
    assert b == b * (a * x) == a * b * x;
    assert a * b * (x - y) >= 0.0;
  }

  /** All adaptive work is at most this share of the span to the stored deadline; while
      a session is at work, all earlier work of the span to its start. */
  predicate WithinShare(g: Gate, share: real) {
    if AtWork(g) then
      g.first.Some? && g.work - g.holder.value.charged <= share * (g.holder.value.begun - g.first.value)
    else if g.first.Some? then g.work <= share * (g.deadline - g.first.value)
    else g.work == 0.0
  }

  /** With crashes anywhere, whatever the duty cycle: the share is at most the greater of
      duty / (100 - duty) and timeout / 180. */
  lemma AnyCrashDutyCycle(duty: real, minGap: real, timeout: real, clock: real, gs: seq<Gate>, steps: seq<Step>,
                          n: nat)
    requires 0.0 < duty < 100.0 && minGap >= 0.0 && timeout > 0.0 && clock >= 0.0
    requires Run(PaceOf(duty, minGap, timeout), gs, steps) && gs[0] == Start(clock) && n < |gs|
    ensures WithinShare(gs[n], CrashedShare(duty, timeout))
  {
    var rate := SlowShare(duty, minGap, timeout);
    SlowRunShare(PaceOf(duty, minGap, timeout), clock, gs, steps, rate, CrashedShare(duty, timeout), n);
  }

  lemma SlowRunShare(p: Pace, clock: real, gs: seq<Gate>, steps: seq<Step>, rate: real, share: real, n: nat)
    requires ValidPace(p) && Slow(p, rate) && rate * share == 1.0 && share > 0.0 && clock >= 0.0
    requires Run(p, gs, steps) && gs[0] == Start(clock) && n < |gs|
    ensures WithinShare(gs[n], share)
  {
    RunKeepsSlowPace(p, gs, steps, rate, n);
    var g := gs[n];
    if g.first.Some? {
      if AtWork(g) {
        InShare(rate, share, g.work - g.holder.value.charged, g.holder.value.begun - g.first.value);
      } else {
        InShare(rate, share, g.work, g.deadline - g.first.value);
      }
    }
  }

  lemma InShare(rate: real, share: real, work: real, span: real)
    requires rate * share == 1.0 && share > 0.0 && Claim(rate, work) <= span
    ensures work <= share * span
  {
    assert share * (work * rate) <= share * span;
    assert share * (work * rate) == work * (rate * share);
  }
}
