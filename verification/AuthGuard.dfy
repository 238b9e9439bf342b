/** The shared authentication guard and the callers that race around it: a caller
    samples the clock, asks the guard, attempts, samples again and records, and
    every other caller may act in between. */
module AuthGuard {
  import opened Util

  const MAX_BACKOFF := 86400.0

  /** The persisted failure count and wall-clock deadline. */
  datatype Record = Record(failures: nat, deadline: real)

  function Capped(r: Record, now: real): Record {
    r.(deadline := RealMin(r.deadline, now + MAX_BACKOFF))
  }

  function AfterFailure(r: Record, threshold: int, backoff: real, now: real): Record {
    var capped := Capped(r, now).(failures := r.failures + 1);
    if capped.failures >= threshold && backoff != 0.0
    then capped.(deadline := RealMax(capped.deadline, now + RealMin(backoff, MAX_BACKOFF)))
    else capped
  }

  /** The guard object; each method is one locked read, update and write back. */
  class Guard {
    var record: Record

    constructor ()
      ensures record == Record(0, 0.0)
    {
      record := Record(0, 0.0);
    }

    /** Asking also pulls an implausibly far deadline back to a day ahead. */
    method Blocked(now: real) returns (blocked: bool)
      modifies this
      ensures record == Capped(old(record), now)
      ensures record.failures == old(record.failures)
      ensures record.deadline <= old(record.deadline) && record.deadline <= now + MAX_BACKOFF
      ensures record.deadline == old(record.deadline) || record.deadline == now + MAX_BACKOFF
      ensures blocked <==> old(record.deadline) > now
    {
      var deadline := record.deadline;
      if now + MAX_BACKOFF < deadline {
        deadline := now + MAX_BACKOFF;
      }
      record := Record(record.failures, deadline);
      blocked := deadline > now;
    }

    method Failure(threshold: int, backoff: real, now: real) returns (failures: nat, deadline: real)
      modifies this
      ensures record == AfterFailure(old(record), threshold, backoff, now)
      ensures failures == record.failures && deadline == record.deadline
      ensures failures == old(record.failures) + 1
      ensures failures < threshold || backoff == 0.0 ==> deadline == RealMin(old(record.deadline), now + MAX_BACKOFF)
      ensures failures >= threshold && backoff > 0.0 ==>
                deadline > now && deadline >= now + RealMin(backoff, MAX_BACKOFF)
      ensures backoff >= 0.0 ==> deadline <= now + MAX_BACKOFF
    {
      failures, deadline := record.failures + 1, record.deadline;
      if now + MAX_BACKOFF < deadline {
        deadline := now + MAX_BACKOFF;
      }
      if failures >= threshold && backoff != 0.0 {
        var until := now + if backoff < MAX_BACKOFF then backoff else MAX_BACKOFF;
        if deadline < until {
          deadline := until;
        }
      }
      record := Record(failures, deadline);
    }

    method Success() returns (cleared: bool)
      modifies this
      ensures record == Record(0, 0.0)
      ensures cleared <==> old(record) != Record(0, 0.0)
    {
      cleared := record.failures != 0 || record.deadline != 0.0;
      record := Record(0, 0.0);
    }
  }

  // ---- the callers ----------------------------------------------------------------

  /** `stamp` is the clock the caller sampled before it reached the guard. */
  datatype Caller =
    | Idle
    | Asking(stamp: real)
    | Attempting
    | Rejected(stamp: real)

  /** `log` holds the stamps of the recorded failures, oldest first. */
  datatype Scene = Scene(record: Record, clock: real, callers: map<nat, Caller>, log: seq<real>)

  datatype Step =
    | Tick(delta: real)
    | Sample(who: nat)
    | Ask(who: nat)
    | Reject(who: nat)
    | OtherOutcome(who: nat)
    | RecordFailure(who: nat)

  /** `lag` bounds how long a sampled stamp waits for the guard's lock. */
  datatype Policy = Policy(threshold: int, backoff: real, lag: real)

  predicate ValidPolicy(p: Policy) {
    p.backoff > 0.0 && p.lag >= 0.0
  }

  /** How far ahead a recorded failure puts the deadline at most. */
  function Backoff(p: Policy): real {
    RealMin(p.backoff, MAX_BACKOFF)
  }

  predicate Enabled(p: Policy, s: Scene, step: Step) {
    match step
    case Tick(delta) => delta >= 0.0
    case Sample(who) => who in s.callers && s.callers[who].Idle?
    case Ask(who) => who in s.callers && s.callers[who].Asking? && s.clock - s.callers[who].stamp <= p.lag
    case Reject(who) => who in s.callers && s.callers[who].Attempting?
    case OtherOutcome(who) => who in s.callers && s.callers[who].Attempting?
    case RecordFailure(who) => who in s.callers && s.callers[who].Rejected? && s.clock - s.callers[who].stamp <= p.lag
  }

  function Apply(p: Policy, s: Scene, step: Step): Scene
    requires Enabled(p, s, step)
  {
    match step
    case Tick(delta) => s.(clock := s.clock + delta)
    case Sample(who) => s.(callers := s.callers[who := Asking(s.clock)])
    case Ask(who) =>
      var stamp := s.callers[who].stamp;
      s.(record := Capped(s.record, stamp),
         callers := s.callers[who := if s.record.deadline > stamp then Idle else Attempting])
    case Reject(who) => s.(callers := s.callers[who := Rejected(s.clock)])
    case OtherOutcome(who) => s.(callers := s.callers[who := Idle])
    case RecordFailure(who) =>
      var stamp := s.callers[who].stamp;
      s.(record := AfterFailure(s.record, p.threshold, p.backoff, stamp),
         callers := s.callers[who := Idle], log := s.log + [stamp])
  }

  ghost predicate Run(p: Policy, ss: seq<Scene>, steps: seq<Step>) {
    && |ss| == |steps| + 1
    && forall i | 0 <= i < |steps| :: Enabled(p, ss[i], steps[i]) && ss[i + 1] == Apply(p, ss[i], steps[i])
  }

  /** The failures of a log stamped in the half-open window from `t`. */
  function InWindow(log: seq<real>, t: real, length: real): nat {
    if log == [] then 0
    else InWindow(log[..|log| - 1], t, length) + (if t <= log[|log| - 1] < t + length then 1 else 0)
  }

  /** Callers that may still record a failure stamped before the window closes. */
  function Dangerous(s: Scene, t: real, length: real): set<nat> {
    set who | who in s.callers &&
              ((s.callers[who].Rejected? && t <= s.callers[who].stamp < t + length)
               || (s.callers[who].Attempting? && s.clock < t + length))
  }

  /** Stamps never lie in the future. */
  ghost predicate StampsPast(s: Scene) {
    forall who | who in s.callers ::
      && (s.callers[who].Asking? ==> s.callers[who].stamp <= s.clock)
      && (s.callers[who].Rejected? ==> s.callers[who].stamp <= s.clock)
  }

  /** Either no failure of the window is recorded yet, or the deadline shields the
      rest of the window and only callers already past the check can add to it.
      `base` is how many failures of the window were on record at the start. */
  ghost predicate Budget(p: Policy, s: Scene, t: real, length: real, base: nat, callers: set<nat>) {
    && s.callers.Keys == callers && StampsPast(s)
    && s.record.failures + 1 >= p.threshold
    && InWindow(s.log, t, length) >= base
    && (InWindow(s.log, t, length) == base
        || (s.record.deadline >= t + length && s.clock >= t
            && InWindow(s.log, t, length) - base + |Dangerous(s, t, length)| <= |callers|))
  }

  /** The windows that the deadline can shield: no longer than the backoff, and short
      enough that a stale caller cannot pull the deadline back into them. */
  predicate Shielded(p: Policy, length: real) {
    length <= Backoff(p) && length + p.lag <= MAX_BACKOFF
  }

  lemma DangerousShrinks(s: Scene, s': Scene, t: real, length: real)
    requires Dangerous(s', t, length) <= Dangerous(s, t, length)
    ensures |Dangerous(s', t, length)| <= |Dangerous(s, t, length)|
  {
    SubsetSize(Dangerous(s', t, length), Dangerous(s, t, length));
  }

  /** Recording takes its caller out of the dangerous set and brings in nobody. */
  lemma RecorderLeaves(p: Policy, s: Scene, who: nat, t: real, length: real)
    requires Enabled(p, s, RecordFailure(who))
    ensures var after, before := Dangerous(Apply(p, s, RecordFailure(who)), t, length), Dangerous(s, t, length);
            && |after| <= |before|
            && (t <= s.callers[who].stamp < t + length ==> |after| < |before|)
            && |before| <= |s.callers.Keys|
  {
    var before, after := Dangerous(s, t, length), Dangerous(Apply(p, s, RecordFailure(who)), t, length);
    assert after <= before - {who};
    SubsetSize(after, before - {who});
    SubsetSize(before, s.callers.Keys);
  }

  lemma RecordKeepsBudget(p: Policy, s: Scene, who: nat, t: real, length: real, base: nat, callers: set<nat>)
    requires ValidPolicy(p) && Shielded(p, length)
    requires Enabled(p, s, RecordFailure(who)) && Budget(p, s, t, length, base, callers)
    ensures Budget(p, Apply(p, s, RecordFailure(who)), t, length, base, callers)
  {
    var s' := Apply(p, s, RecordFailure(who));
    var stamp := s.callers[who].stamp;
    assert s'.log[..|s'.log| - 1] == s.log;
    assert s'.callers.Keys == callers;
    RecorderLeaves(p, s, who, t, length);
    RecordShields(p, s, who);
    if t <= stamp < t + length {
      assert s'.record.deadline >= t + length;
    } else if InWindow(s.log, t, length) > base {
      assert stamp + MAX_BACKOFF >= t + length;
    }
  }

  lemma RecordShields(p: Policy, s: Scene, who: nat)
    requires ValidPolicy(p) && Enabled(p, s, RecordFailure(who)) && s.record.failures + 1 >= p.threshold
    ensures var s', stamp := Apply(p, s, RecordFailure(who)), s.callers[who].stamp;
            && s'.record.failures + 1 >= p.threshold && s'.record.deadline >= stamp + Backoff(p)
            && s'.record.deadline >= RealMin(s.record.deadline, stamp + MAX_BACKOFF)
  {
  }

  lemma StepKeepsBudget(p: Policy, s: Scene, step: Step, t: real, length: real, base: nat, callers: set<nat>)
    requires ValidPolicy(p) && Shielded(p, length)
    requires Enabled(p, s, step) && Budget(p, s, t, length, base, callers)
    ensures Budget(p, Apply(p, s, step), t, length, base, callers)
  {
    if step.RecordFailure? {
      RecordKeepsBudget(p, s, step.who, t, length, base, callers);
    } else {
      var s' := Apply(p, s, step);
      assert s'.callers.Keys == callers;
      if InWindow(s.log, t, length) > base {
        assert Dangerous(s', t, length) <= Dangerous(s, t, length);
        DangerousShrinks(s, s', t, length);
      }
    }
  }

  lemma {:induction false} RunKeepsBudget(p: Policy, ss: seq<Scene>, steps: seq<Step>, t: real, length: real,
                                          base: nat, callers: set<nat>, n: nat)
    requires ValidPolicy(p) && Shielded(p, length)
    requires Run(p, ss, steps) && n < |ss| && Budget(p, ss[0], t, length, base, callers)
    ensures Budget(p, ss[n], t, length, base, callers)
    decreases n
  {
    if n > 0 {
      RunKeepsBudget(p, ss, steps, t, length, base, callers, n - 1);
      StepKeepsBudget(p, ss[n - 1], steps[n - 1], t, length, base, callers);
    }
  }

  /** A run from a state in which the next failure, at the latest, blocks. */
  ghost predicate FromThreshold(p: Policy, ss: seq<Scene>, steps: seq<Step>) {
    Run(p, ss, steps) && ss[0].record.failures + 1 >= p.threshold && StampsPast(ss[0])
  }

  /** At most one failure per caller was recorded with a stamp in the window. */
  predicate WithinBudget(first: Scene, last: Scene, t: real, length: real) {
    InWindow(last.log, t, length) - InWindow(first.log, t, length) <= |first.callers.Keys|
  }

  /** Lockout budget: from any state in which the next failure blocks, with no success
      recorded, at most one failure per caller is recorded with a stamp in any shielded
      window, despite callers already past the check. */
  lemma LockoutBudget(p: Policy, ss: seq<Scene>, steps: seq<Step>, t: real, length: real, n: nat)
    requires ValidPolicy(p) && FromThreshold(p, ss, steps) && n < |ss| && Shielded(p, length)
    ensures WithinBudget(ss[0], ss[n], t, length)
  {
    RunKeepsBudget(p, ss, steps, t, length, InWindow(ss[0].log, t, length), ss[0].callers.Keys, n);
  }

  // ---- the condition is exact ---------------------------------------------------------

  /** Every run keeps the budget of every window of this length. */
  ghost predicate AlwaysWithinBudget(p: Policy, length: real) {
    forall ss, steps, t: real, n: nat | FromThreshold(p, ss, steps) && n < |ss| ::
      WithinBudget(ss[0], ss[n], t, length)
  }

  /** A record at which the next failure blocks. */
  function Armed(p: Policy): Record {
    Record(if p.threshold > 0 then p.threshold else 0, 0.0)
  }

  /** Some steps lead from `s` to `s'`. */
  ghost predicate Leads(p: Policy, s: Scene, s': Scene) {
    exists ss, steps :: Connects(p, ss, steps, s, s')
  }

  ghost predicate Connects(p: Policy, ss: seq<Scene>, steps: seq<Step>, s: Scene, s': Scene) {
    Run(p, ss, steps) && ss[0] == s && ss[|steps|] == s'
  }

  lemma LeadsNowhere(p: Policy, s: Scene)
    ensures Leads(p, s, s)
  {
    assert Connects(p, [s], [], s, s);
  }

  lemma LeadsOn(p: Policy, s: Scene, mid: Scene, step: Step)
    requires Leads(p, s, mid) && Enabled(p, mid, step)
    ensures Leads(p, s, Apply(p, mid, step))
  {
    var ss, steps :| Connects(p, ss, steps, s, mid);
    assert Connects(p, ss + [Apply(p, mid, step)], steps + [step], s, Apply(p, mid, step));
  }

  /** An idle caller that finds the deadline passed is rejected and records it. */
  lemma Attempt(p: Policy, s: Scene, mid: Scene, who: nat) returns (s': Scene)
    requires ValidPolicy(p) && Leads(p, s, mid) && who in mid.callers && mid.callers[who].Idle?
    requires mid.record.deadline <= mid.clock
    ensures Leads(p, s, s') && s'.callers == mid.callers[who := Rejected(mid.clock)]
    ensures s'.record == mid.record && s'.clock == mid.clock && s'.log == mid.log
  {
    LeadsOn(p, s, mid, Sample(who));
    var asking := Apply(p, mid, Sample(who));
    LeadsOn(p, s, asking, Ask(who));
    var attempting := Apply(p, asking, Ask(who));
    LeadsOn(p, s, attempting, Reject(who));
    s' := Apply(p, attempting, Reject(who));
    assert s'.callers == mid.callers[who := Rejected(mid.clock)];
  }

  /** A rejected caller that still holds a stamp recent enough records its failure. */
  lemma Recorded(p: Policy, s: Scene, mid: Scene, who: nat) returns (s': Scene)
    requires ValidPolicy(p) && Leads(p, s, mid) && Enabled(p, mid, RecordFailure(who))
    ensures Leads(p, s, s') && s'.callers == mid.callers[who := Idle] && s'.clock == mid.clock
    ensures s'.log == mid.log + [mid.callers[who].stamp] && s'.record.failures == mid.record.failures + 1
    ensures mid.record.failures + 1 >= p.threshold && mid.record.deadline <= mid.callers[who].stamp ==>
              s'.record.deadline == mid.callers[who].stamp + Backoff(p)
  {
    LeadsOn(p, s, mid, RecordFailure(who));
    s' := Apply(p, mid, RecordFailure(who));
  }

  lemma NotWithin(p: Policy, length: real, s: Scene, s': Scene, t: real)
    requires Leads(p, s, s') && s.record.failures + 1 >= p.threshold && StampsPast(s)
    requires !WithinBudget(s, s', t, length)
    ensures !AlwaysWithinBudget(p, length)
  {
    var ss, steps :| Connects(p, ss, steps, s, s');
    assert FromThreshold(p, ss, steps) && !WithinBudget(ss[0], ss[|steps|], t, length);
  }

  lemma CountInWindow(log: seq<real>, t: real, length: real)
    requires forall i | 0 <= i < |log| :: t <= log[i] < t + length
    ensures InWindow(log, t, length) == |log|
  {
    if log != [] {
      CountInWindow(log[..|log| - 1], t, length);
    }
  }

  /** A window longer than the backoff: one caller waits it out and fails again. */
  lemma LongWindowFails(p: Policy, length: real)
    requires ValidPolicy(p) && length > Backoff(p)
    ensures !AlwaysWithinBudget(p, length)
  {
    var s := Scene(Armed(p), 0.0, map[0 := Idle], []);
    LeadsNowhere(p, s);
    var a := Attempt(p, s, s, 0);
    var b := Recorded(p, s, a, 0);
    LeadsOn(p, s, b, Tick(Backoff(p)));
    var c := Apply(p, b, Tick(Backoff(p)));
    var d := Attempt(p, s, c, 0);
    var e := Recorded(p, s, d, 0);
    assert e.log == [0.0, Backoff(p)];
    CountInWindow(e.log, 0.0, length);
    assert s.callers.Keys == {0};
    NotWithin(p, length, s, e, 0.0);
  }

  /** A stale caller: it sampled at zero and asks a full lag later, after the other
      caller's failure, so its cap pulls the deadline back. */
  lemma StaleAsk(p: Policy, s: Scene) returns (s': Scene)
    requires ValidPolicy(p) && p.lag + Backoff(p) > MAX_BACKOFF
    requires s == Scene(Armed(p), p.lag, map[0 := Asking(0.0), 1 := Attempting], [])
    ensures Leads(p, s, s') && s'.callers == map[0 := Idle, 1 := Idle] && s'.clock == p.lag && s'.log == [p.lag]
    ensures s'.record.deadline == MAX_BACKOFF && s'.record.failures + 1 >= p.threshold
  {
    LeadsNowhere(p, s);
    LeadsOn(p, s, s, Reject(1));
    var a := Apply(p, s, Reject(1));
    var b := Recorded(p, s, a, 1);
    assert b.callers[0] == Asking(0.0);
    LeadsOn(p, s, b, Ask(0));
    s' := Apply(p, b, Ask(0));
    assert s'.callers == map[0 := Idle, 1 := Idle];
  }

  /** After a stale ask both callers fail once more inside the window: three failures
      of two callers. */
  lemma StaleAskFails(p: Policy, length: real)
    requires ValidPolicy(p) && 0.0 < length <= Backoff(p) && length + p.lag > MAX_BACKOFF
    ensures !AlwaysWithinBudget(p, length)
  {
    var s := Scene(Armed(p), p.lag, map[0 := Asking(0.0), 1 := Attempting], []);
    var c := StaleAsk(p, s);
    var later := RealMax(p.lag, MAX_BACKOFF);
    LeadsOn(p, s, c, Tick(later - p.lag));
    var d := Apply(p, c, Tick(later - p.lag));
    assert d.clock == later;
    var e := Attempt(p, s, d, 0);
    var f := Attempt(p, s, e, 1);
    assert f.callers[0] == Rejected(later) && f.callers[1] == Rejected(later);
    var g := Recorded(p, s, f, 0);
    var h := Recorded(p, s, g, 1);
    assert h.log == [p.lag, later, later];
    CountInWindow(h.log, p.lag, length);
    assert s.callers.Keys == {0, 1};
    NotWithin(p, length, s, h, p.lag);
  }

  /** Exactly the shielded windows keep the budget in every run. */
  lemma BudgetExactly(p: Policy, length: real)
    requires ValidPolicy(p) && length > 0.0
    ensures AlwaysWithinBudget(p, length) <==> Shielded(p, length)
  {
    if Shielded(p, length) {
      forall ss, steps, t: real, n: nat | FromThreshold(p, ss, steps) && n < |ss|
        ensures WithinBudget(ss[0], ss[n], t, length)
      {
        LockoutBudget(p, ss, steps, t, length, n);
      }
    } else if length > Backoff(p) {
      LongWindowFails(p, length);
    } else {
      StaleAskFails(p, length);
    }
  }

  /** For a window of one whole backoff: it keeps the budget if and only if the backoff
      and the lag together stay within the day that a stored deadline may lie ahead. */
  lemma WholeBackoffExactly(p: Policy)
    requires 0.0 < p.backoff <= MAX_BACKOFF && p.lag >= 0.0
    ensures AlwaysWithinBudget(p, p.backoff) <==> p.backoff + p.lag <= MAX_BACKOFF
  {
    BudgetExactly(p, p.backoff);
  }

  /** The bound is reached: with two callers past the check, both may record a
      failure in the same window. */
  lemma BudgetIsTight(p: Policy, s: Scene, a: nat, b: nat) returns (s': Scene)
    requires ValidPolicy(p) && a != b && s.callers == map[a := Attempting, b := Attempting] && s.log == []
    ensures Leads(p, s, s') && s.callers.Keys == {a, b}
    ensures InWindow(s'.log, s.clock, p.backoff) == |{a, b}|
  {
    LeadsNowhere(p, s);
    LeadsOn(p, s, s, Reject(a));
    var s1 := Apply(p, s, Reject(a));
    var s2 := Recorded(p, s, s1, a);
    assert s2.callers[b].Attempting?;
    LeadsOn(p, s, s2, Reject(b));
    var s3 := Apply(p, s2, Reject(b));
    s' := Recorded(p, s, s3, b);
    assert s'.log == [s.clock, s.clock];
    CountInWindow(s'.log, s.clock, p.backoff);
  }
}
