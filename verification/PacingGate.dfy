/** The pacing gate shared by every process that issues Data Connect statements:
    one lock and one stored deadline, as a step machine. Local pacing inside one
    process only delays its steps, so it needs no state here. */
module PacingGate {
  import opened Util

  const STATEMENT_PERIODS := 4.0
  const CRASH_LEASE_CAP := 3600.0
  const BATCH_LIMIT := 5
  const MAX_FUTURE := 3110400.0

  /** `stretch` is the cooldown owed per second of adaptive work; times are seconds. */
  datatype Pace = Pace(stretch: real, minGap: real, timeout: real)

  predicate ValidPace(p: Pace) {
    p.stretch >= 0.0 && p.minGap >= 0.0 && p.timeout > 0.0
  }

  /** The pace of a duty cycle given in percent: 100 / duty - 1. */
  function PaceOf(duty: real, minGap: real, timeout: real): (p: Pace)
    requires 0.0 < duty <= 100.0 && minGap >= 0.0 && timeout > 0.0
    ensures ValidPace(p) && p.stretch + 1.0 == 100.0 / duty
  {
    var k := 100.0 / duty;
    assert k * duty == 100.0;
    Pace(k - 1.0, minGap, timeout)
  }

  /** One timeout to connect and one to execute, each possibly repeated once. */
  function StatementLimit(p: Pace): (limit: real)
    ensures p.timeout > 0.0 ==> limit > 0.0
  {
    STATEMENT_PERIODS * p.timeout
  }

  /** The cooldown owed for adaptive work. */
  function Owed(p: Pace, work: real): real { work * p.stretch }

  /** The cooldown published when work is complete. */
  function Cooldown(p: Pace, adaptive: bool, charged: real): real {
    RealMax(p.minGap, if adaptive then Owed(p, charged) else charged)
  }

  /** The capped lease written before a statement starts. */
  function LeaseSpan(p: Pace, adaptive: bool, charged: real): real {
    RealMin(Cooldown(p, adaptive, charged + StatementLimit(p)), CRASH_LEASE_CAP)
  }

  /** A stored deadline farther ahead than this is refused. */
  function FutureLimit(p: Pace): real {
    RealMax(MAX_FUTURE, Owed(p, BATCH_LIMIT as real * StatementLimit(p)) + 86400.0)
  }

  /** Thirty-six days, or a day more than the longest batch can owe. */
  lemma FutureLimitIs(p: Pace)
    ensures FutureLimit(p) == RealMax(3110400.0, 20.0 * p.timeout * p.stretch + 86400.0)
  {
    assert BATCH_LIMIT as real * StatementLimit(p) == 20.0 * p.timeout;
  }

  datatype Stage =
    | AwaitCooldown
    | Leased
    | Running(since: real)
    | Finished
    | Checkpointed

  /** The lock holder. `preserved` is the deadline read under the lock, `begun` the
      time of the first lease, `charged` the statement time so far, `ran` the
      number of statements started. */
  datatype Session = Session(adaptive: bool, preserved: real, begun: real,
                             charged: real, ran: nat, stage: Stage)

  /** `deadline` is the stored value and `lastWrite` when it was written; `first`
      and `work` record the first adaptive start and all adaptive statement time. */
  datatype Gate = Gate(clock: real, deadline: real, lastWrite: real, holder: Option<Session>,
                       first: Option<real>, work: real)

  /** What the lock holder does; `spent` is all a statement cut short still uses. */
  datatype Action =
    | GiveUp
    | Lease
    | Begin
    | End
    | Checkpoint
    | Renew
    | Release
    | Crash(spent: real)

  datatype Step = Tick(delta: real) | Acquire(adaptive: bool) | Hold(action: Action)

  predicate MayAct(p: Pace, g: Gate, s: Session, action: Action) {
    match action
    case GiveUp => s.stage.AwaitCooldown?
    case Lease =>
      && s.stage.AwaitCooldown? && g.deadline - g.clock <= FutureLimit(p)
      && (s.adaptive ==> g.clock >= s.preserved)
    case Begin => s.stage.Leased? && s.ran < (if s.adaptive then BATCH_LIMIT else 1)
    case End => s.stage.Running?
    case Checkpoint => s.stage.Finished? && s.adaptive
    case Renew => s.stage.Checkpointed? && s.adaptive
    case Release => s.stage.Leased? || s.stage.Finished? || s.stage.Checkpointed?
    case Crash(spent) =>
      if s.stage.Running? then g.clock - s.stage.since <= spent <= StatementLimit(p) else spent == 0.0
  }

  predicate Enabled(p: Pace, g: Gate, step: Step) {
    match step
    case Tick(delta) =>
      && delta >= 0.0
      && (g.holder.Some? && g.holder.value.stage.Running? ==>
            g.clock + delta - g.holder.value.stage.since <= StatementLimit(p))
    case Acquire(_) => g.holder.None?
    case Hold(action) => g.holder.Some? && MayAct(p, g, g.holder.value, action)
  }

  function Write(g: Gate, deadline: real): Gate {
    g.(deadline := deadline, lastWrite := g.clock)
  }

  function Act(p: Pace, g: Gate, s: Session, action: Action): Gate
    requires g.holder == Some(s) && MayAct(p, g, s, action)
  {
    match action
    case GiveUp => g.(holder := None)
    case Lease =>
      var lease := g.clock + LeaseSpan(p, s.adaptive, 0.0);
      Write(g, if s.adaptive then lease else RealMax(s.preserved, lease))
      .(holder := Some(s.(stage := Leased, begun := g.clock)),
        first := if s.adaptive && g.first.None? then Some(g.clock) else g.first)
    case Begin => g.(holder := Some(s.(stage := Running(g.clock), ran := s.ran + 1)))
    case End =>
      var spent := g.clock - s.stage.since;
      g.(holder := Some(s.(stage := Finished, charged := s.charged + spent)),
         work := g.work + if s.adaptive then spent else 0.0)
    case Checkpoint =>
      Write(g, g.clock + Cooldown(p, true, s.charged)).(holder := Some(s.(stage := Checkpointed)))
    case Renew =>
      Write(g, g.clock + LeaseSpan(p, s.adaptive, s.charged)).(holder := Some(s.(stage := Leased)))
    case Release =>
      Write(g, RealMax(g.clock + Cooldown(p, s.adaptive, s.charged), if s.adaptive then 0.0 else s.preserved))
      .(holder := None)
    case Crash(spent) =>
      g.(holder := None, work := g.work + if s.adaptive then spent else 0.0)
  }

  function Apply(p: Pace, g: Gate, step: Step): Gate
    requires Enabled(p, g, step)
  {
    match step
    case Tick(delta) => g.(clock := g.clock + delta)
    case Acquire(adaptive) =>
      g.(holder := Some(Session(adaptive, g.deadline, g.clock, 0.0, 0, AwaitCooldown)))
    case Hold(action) => Act(p, g, g.holder.value, action)
  }

  ghost predicate Run(p: Pace, gs: seq<Gate>, steps: seq<Step>) {
    && |gs| == |steps| + 1
    && forall i | 0 <= i < |steps| :: Enabled(p, gs[i], steps[i]) && gs[i + 1] == Apply(p, gs[i], steps[i])
  }

  /** An empty gate file reads as deadline zero. */
  function Start(clock: real): Gate { Gate(clock, 0.0, 0.0, None, None, 0.0) }

  // ---- what every step keeps ------------------------------------------------

  /** An adaptive session past its first lease. */
  predicate AtWork(g: Gate) {
    g.holder.Some? && g.holder.value.adaptive && !g.holder.value.stage.AwaitCooldown?
  }

  predicate SessionClocks(p: Pace, s: Session, g: Gate) {
    && s.begun <= g.clock && 0.0 <= s.charged
    && match s.stage
       case AwaitCooldown => s.charged == 0.0 && g.deadline == s.preserved
       case Running(since) =>
         && s.begun + s.charged <= since <= g.clock && g.clock - since <= StatementLimit(p)
         && g.lastWrite <= since
       case _ => s.begun + s.charged <= g.clock
  }

  predicate Clocks(p: Pace, g: Gate) {
    && 0.0 <= g.clock && g.lastWrite <= g.clock
    && (g.holder.Some? ==> SessionClocks(p, g.holder.value, g))
    && (AtWork(g) ==> g.first.Some? && g.lastWrite >= g.holder.value.begun)
  }

  /** The work a dying holder may have caused: what is charged, plus all that a
      statement leased or running may still use. */
  function AtRisk(p: Pace, s: Session): real {
    if s.stage.Leased? || s.stage.Running? then s.charged + StatementLimit(p) else s.charged
  }

  /** The stored deadline covers the work at risk, up to the one-hour cap. */
  predicate LeaseHolds(p: Pace, g: Gate) {
    && g.lastWrite <= g.deadline
    && (AtWork(g) ==>
          g.deadline - g.lastWrite >= RealMin(CRASH_LEASE_CAP, Owed(p, AtRisk(p, g.holder.value))))
  }

  lemma OwedGrows(p: Pace, a: real, b: real)
    requires a <= b && p.stretch >= 0.0
    ensures Owed(p, a) <= Owed(p, b)
  {
  }

  lemma StepKeepsClocks(p: Pace, g: Gate, step: Step)
    requires ValidPace(p) && Enabled(p, g, step) && Clocks(p, g)
    ensures Clocks(p, Apply(p, g, step))
  {
  }

  /** The two cooldown formulas in terms of what is owed. */
  lemma Spans(p: Pace, charged: real)
    requires ValidPace(p) && charged >= 0.0
    ensures Cooldown(p, true, charged) >= Owed(p, charged) >= 0.0
    ensures LeaseSpan(p, true, charged) >= RealMin(CRASH_LEASE_CAP, Owed(p, charged + StatementLimit(p)))
    ensures LeaseSpan(p, true, charged) >= 0.0 && LeaseSpan(p, false, charged) >= 0.0
  {
    OwedGrows(p, 0.0, charged);
  }

  lemma ActionKeepsLease(p: Pace, g: Gate, action: Action)
    requires ValidPace(p) && Enabled(p, g, Hold(action)) && Clocks(p, g) && LeaseHolds(p, g)
    requires g.holder.value.adaptive && !action.GiveUp? && !action.Release? && !action.Crash?
    ensures LeaseHolds(p, Apply(p, g, Hold(action)))
  {
    var s := g.holder.value;
    var s' := Apply(p, g, Hold(action)).holder.value;
    Spans(p, s.charged);
    match action
    case Lease =>
      assert AtRisk(p, s') == s.charged + StatementLimit(p);
      assert s.charged == 0.0;
    case End =>
      OwedGrows(p, AtRisk(p, s'), AtRisk(p, s));
    case _ =>
  }

  lemma StepKeepsLease(p: Pace, g: Gate, step: Step)
    requires ValidPace(p) && Enabled(p, g, step) && Clocks(p, g) && LeaseHolds(p, g)
    ensures LeaseHolds(p, Apply(p, g, step))
  {
    if step.Hold? {
      Spans(p, g.holder.value.charged);
      if g.holder.value.adaptive && !step.action.GiveUp? && !step.action.Release? && !step.action.Crash? {
        ActionKeepsLease(p, g, step.action);
      }
    }
  }
}
