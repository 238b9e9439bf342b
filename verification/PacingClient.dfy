/** The client's own code around the gate: taking it, the leases and checkpoints of
    a batch, and the release. A batch is shown to be a sequence of gate steps, so
    every result about runs of the gate covers it. */
module PacingClient {
  import opened Util
  import opened PacingGate

  /** What the database does with one statement: how long it takes, and whether it
      succeeds. `delay` is extra time the process spends before starting it. */
  datatype Statement = Statement(delay: real, duration: real, succeeds: bool)

  /** `Ran` gives the number of statements that succeeded. */
  datatype Outcome = NothingToDo | Refused | Ran(completed: nat)

  predicate ValidStatement(p: Pace, s: Statement) {
    s.delay >= 0.0 && 0.0 <= s.duration <= StatementLimit(p)
  }

  function TotalDuration(statements: seq<Statement>): real {
    if statements == [] then 0.0
    else TotalDuration(statements[..|statements| - 1]) + statements[|statements| - 1].duration
  }

  class SharedGate {
    const pace: Pace
    var clock: real
    var deadline: real
    var lastWrite: real
    var holder: Option<Session>
    var first: Option<real>
    var work: real

    function View(): Gate
      reads this
    {
      Gate(clock, deadline, lastWrite, holder, first, work)
    }

    /** A pause of at least the minimum gap and of what is owed, and no longer. */
    predicate IsPause(pause: real, owed: real) {
      pause >= pace.minGap && pause >= owed && (pause == pace.minGap || pause == owed)
    }

    /** Such a pause, cut to one hour. */
    predicate IsLease(lease: real, owed: real) {
      lease <= 3600.0 && (IsPause(lease, owed) || (lease == 3600.0 && (pace.minGap > 3600.0 || owed > 3600.0)))
    }

    constructor (pace: Pace, clock: real)
      ensures this.pace == pace && View() == Start(clock)
    {
      this.pace := pace;
      this.clock, deadline, lastWrite, holder, first, work := clock, 0.0, 0.0, None, None, 0.0;
    }

    method WriteDeadline(value: real)
      modifies this`deadline, this`lastWrite
      ensures deadline == value && lastWrite == clock
    {
      deadline, lastWrite := value, clock;
    }

    method Elapse(delta: real)
      requires Enabled(pace, View(), Tick(delta))
      modifies this`clock
      ensures View() == Apply(pace, old(View()), Tick(delta))
    {
      clock := clock + delta;
    }

    method Lock(adaptive: bool)
      requires Enabled(pace, View(), Acquire(adaptive))
      modifies this`holder
      ensures View() == Apply(pace, old(View()), Acquire(adaptive))
    {
      holder := Some(Session(adaptive, deadline, clock, 0.0, 0, AwaitCooldown));
    }

    /** Closing the file without a write: the stored deadline is left as it was. */
    method Abandon()
      requires Enabled(pace, View(), Hold(GiveUp))
      modifies this`holder
      ensures View() == Apply(pace, old(View()), Hold(GiveUp))
    {
      holder := None;
    }

    /** The pre-work lease, which a catalog read never lets shorten a cooldown. */
    method TakeLease()
      requires Enabled(pace, View(), Hold(Lease))
      modifies this
      ensures View() == Apply(pace, old(View()), Hold(Lease))
      ensures old(holder).value.adaptive ==> IsLease(deadline - clock, StatementLimit(pace) * pace.stretch)
      ensures !old(holder).value.adaptive ==>
                deadline >= old(holder).value.preserved
                && (deadline == old(holder).value.preserved || IsLease(deadline - clock, StatementLimit(pace)))
                && deadline - clock >= RealMin(RealMax(pace.minGap, StatementLimit(pace)), CRASH_LEASE_CAP)
    {
      var s := holder.value;
      var worstCase := StatementLimit(pace);
      var cooldown := RealMax(pace.minGap, if s.adaptive then worstCase * pace.stretch else worstCase);
      var lease := clock + RealMin(cooldown, CRASH_LEASE_CAP);
      if !s.adaptive {
        lease := RealMax(s.preserved, lease);
      }
      if s.adaptive && first == None {
        first := Some(clock);
      }
      WriteDeadline(lease);
      holder := Some(s.(stage := Leased, begun := clock));
    }

    method StartStatement()
      requires Enabled(pace, View(), Hold(Begin))
      modifies this`holder
      ensures View() == Apply(pace, old(View()), Hold(Begin))
    {
      var s := holder.value;
      holder := Some(s.(stage := Running(clock), ran := s.ran + 1));
    }

    method EndStatement() returns (duration: real)
      requires Enabled(pace, View(), Hold(End))
      modifies this`holder, this`work
      ensures duration == old(clock - holder.value.stage.since)
      ensures View() == Apply(pace, old(View()), Hold(End))
    {
      var s := holder.value;
      duration := clock - s.stage.since;
      if s.adaptive {
        work := work + duration;
      }
      holder := Some(s.(stage := Finished, charged := s.charged + duration));
    }

    method MarkCheckpoint(batchDuration: real)
      requires Enabled(pace, View(), Hold(Checkpoint)) && batchDuration == holder.value.charged
      modifies this
      ensures View() == Apply(pace, old(View()), Hold(Checkpoint))
      ensures IsPause(deadline - clock, batchDuration * pace.stretch)
    {
      WriteDeadline(clock + RealMax(pace.minGap, batchDuration * pace.stretch));
      holder := Some(holder.value.(stage := Checkpointed));
    }

    method RenewLease(batchDuration: real)
      requires Enabled(pace, View(), Hold(Renew)) && batchDuration == holder.value.charged
      modifies this
      ensures View() == Apply(pace, old(View()), Hold(Renew))
      ensures IsLease(deadline - clock, (batchDuration + StatementLimit(pace)) * pace.stretch)
    {
      var worstCase := batchDuration + StatementLimit(pace);
      WriteDeadline(clock + RealMin(RealMax(pace.minGap, worstCase * pace.stretch), CRASH_LEASE_CAP));
      holder := Some(holder.value.(stage := Leased));
    }

    method Unlock(cooldown: real)
      requires Enabled(pace, View(), Hold(Release))
      requires cooldown == Cooldown(pace, holder.value.adaptive, holder.value.charged)
      modifies this
      ensures View() == Apply(pace, old(View()), Hold(Release))
    {
      var preserved := if holder.value.adaptive then 0.0 else holder.value.preserved;
      WriteDeadline(RealMax(clock + cooldown, preserved));
      holder := None;
    }
  }

  /** The gate passed from `a` to `b` by its own steps, none of them a crash. */
  ghost predicate Advances(p: Pace, a: Gate, b: Gate) {
    exists gs: seq<Gate>, steps: seq<Step> :: Traverses(p, gs, steps, a, b)
  }

  ghost predicate Traverses(p: Pace, gs: seq<Gate>, steps: seq<Step>, a: Gate, b: Gate) {
    && Run(p, gs, steps) && gs[0] == a && gs[|steps|] == b
    && forall i | 0 <= i < |steps| :: !(steps[i].Hold? && steps[i].action.Crash?)
  }

  lemma Stays(p: Pace, a: Gate)
    ensures Advances(p, a, a)
  {
    assert Traverses(p, [a], [], a, a);
  }

  lemma Extends(p: Pace, a: Gate, b: Gate, step: Step)
    requires Advances(p, a, b) && Enabled(p, b, step) && !(step.Hold? && step.action.Crash?)
    ensures Advances(p, a, Apply(p, b, step))
  {
    var gs, steps :| Traverses(p, gs, steps, a, b);
    var c := Apply(p, b, step);
    assert Traverses(p, gs + [c], steps + [step], a, c);
  }

  class Client {
    const gate: SharedGate
    var nextQueryAt: real
    var batchActive: bool
    var batchDuration: real

    constructor (gate: SharedGate)
      ensures this.gate == gate && nextQueryAt == 0.0 && !batchActive && batchDuration == 0.0
    {
      this.gate := gate;
      nextQueryAt, batchActive, batchDuration := 0.0, false, 0.0;
    }

    /** Wait out local pacing, take the gate, refuse an implausible deadline, wait
        out the stored cooldown, lease. */
    method OpenGate(adaptive: bool) returns (leased: bool)
      requires ValidPace(gate.pace) && gate.holder == None
      modifies gate
      ensures Advances(gate.pace, old(gate.View()), gate.View())
      ensures gate.work == old(gate.work)
      ensures gate.clock == if leased && adaptive
                            then RealMax(RealMax(old(gate.clock), nextQueryAt), old(gate.deadline))
                            else RealMax(old(gate.clock), nextQueryAt)
      ensures leased <==> old(gate.deadline) - RealMax(old(gate.clock), nextQueryAt) <= FutureLimit(gate.pace)
      ensures leased ==>
                && gate.holder.Some? && gate.holder.value.adaptive == adaptive && gate.holder.value.stage.Leased?
                && gate.holder.value.charged == 0.0 && gate.holder.value.ran == 0
                && gate.holder.value.preserved == old(gate.deadline)
                && gate.deadline - gate.clock >= RealMin(gate.pace.minGap, CRASH_LEASE_CAP)
      ensures !leased ==> gate.holder == None && gate.deadline == old(gate.deadline)
    {
      ghost var was := gate.View();
      Stays(gate.pace, was);
      var localWait := nextQueryAt - gate.clock;
      if localWait > 0.0 {
        Extends(gate.pace, was, gate.View(), Tick(localWait));
        gate.Elapse(localWait);
      }
      Extends(gate.pace, was, gate.View(), Acquire(adaptive));
      gate.Lock(adaptive);
      var remaining := gate.deadline - gate.clock;
      if remaining > FutureLimit(gate.pace) {
        Extends(gate.pace, was, gate.View(), Hold(GiveUp));
        gate.Abandon();
        return false;
      }
      if remaining > 0.0 && adaptive {
        Extends(gate.pace, was, gate.View(), Tick(remaining));
        gate.Elapse(remaining);
      }
      Extends(gate.pace, was, gate.View(), Hold(Lease));
      gate.TakeLease();
      return true;
    }

    /** One statement under the gate this process holds. */
    method RunStatement(s: Statement, ghost was: Gate) returns (duration: real)
      requires ValidPace(gate.pace) && ValidStatement(gate.pace, s) && gate.holder.Some?
               && gate.holder.value.stage.Leased?
      requires gate.holder.value.ran < (if gate.holder.value.adaptive then BATCH_LIMIT else 1)
      requires Advances(gate.pace, was, gate.View())
      modifies gate
      ensures Advances(gate.pace, was, gate.View()) && duration == s.duration
      ensures gate.clock == old(gate.clock) + s.delay + s.duration
      ensures gate.work == old(gate.work) + (if old(gate.holder.value.adaptive) then s.duration else 0.0)
      ensures gate.holder == Some(old(gate.holder.value).(stage := Finished,
                                charged := old(gate.holder.value.charged) + s.duration,
                                ran := old(gate.holder.value.ran) + 1))
    {
      Extends(gate.pace, was, gate.View(), Tick(s.delay));
      gate.Elapse(s.delay);
      Extends(gate.pace, was, gate.View(), Hold(Begin));
      gate.StartStatement();
      Extends(gate.pace, was, gate.View(), Tick(s.duration));
      gate.Elapse(s.duration);
      Extends(gate.pace, was, gate.View(), Hold(End));
      duration := gate.EndStatement();
    }

    /** A single paced statement; adaptive reporting or a cheap catalog read. */
    method Query(s: Statement, adaptive: bool) returns (outcome: Outcome)
      requires ValidPace(gate.pace) && ValidStatement(gate.pace, s) && gate.holder == None && !batchActive
      modifies this`nextQueryAt, gate
      ensures Advances(gate.pace, old(gate.View()), gate.View()) && gate.holder == None
      ensures outcome.Refused? <==>
                old(gate.deadline) - RealMax(old(gate.clock), old(nextQueryAt)) > FutureLimit(gate.pace)
      ensures outcome.Refused? ==> gate.deadline == old(gate.deadline) && gate.work == old(gate.work)
      ensures !outcome.Refused? ==>
                && outcome == Ran(if s.succeeds then 1 else 0)
                && nextQueryAt == gate.clock + Cooldown(gate.pace, adaptive, s.duration)
                && gate.IsPause(nextQueryAt - gate.clock,
                                if adaptive then s.duration * gate.pace.stretch else s.duration)
                && gate.deadline >= gate.clock + gate.pace.minGap && gate.deadline >= nextQueryAt
      ensures outcome.Refused? ==> nextQueryAt == gate.clock + gate.pace.minGap
      ensures !outcome.Refused? ==>
                gate.clock == RealMax(RealMax(old(gate.clock), old(nextQueryAt)),
                                      if adaptive then old(gate.deadline) else old(gate.clock)) + s.delay + s.duration
      ensures !outcome.Refused? && adaptive ==>
                gate.deadline == RealMax(nextQueryAt, 0.0) && gate.work == old(gate.work) + s.duration
      ensures !outcome.Refused? && !adaptive ==>
                gate.deadline == RealMax(nextQueryAt, old(gate.deadline)) && gate.work == old(gate.work)
    {
      ghost var was := gate.View();
      var leased := OpenGate(adaptive);
      if !leased {
        nextQueryAt := gate.clock + gate.pace.minGap;
        return Refused;
      }
      RunPaced(s, adaptive, was);
      return Ran(if s.succeeds then 1 else 0);
    }

    /** The statement of a leased gate, its cooldown and the release. */
    method RunPaced(s: Statement, adaptive: bool, ghost was: Gate)
      requires ValidPace(gate.pace) && ValidStatement(gate.pace, s) && gate.holder.Some?
      requires gate.holder.value.stage.Leased? && gate.holder.value.adaptive == adaptive
      requires gate.holder.value.charged == 0.0 && gate.holder.value.ran == 0 && Advances(gate.pace, was, gate.View())
      modifies this`nextQueryAt, gate
      ensures Advances(gate.pace, was, gate.View()) && gate.holder == None
      ensures gate.clock == old(gate.clock) + s.delay + s.duration
      ensures gate.work == old(gate.work) + (if adaptive then s.duration else 0.0)
      ensures nextQueryAt == gate.clock + Cooldown(gate.pace, adaptive, s.duration)
      ensures gate.IsPause(nextQueryAt - gate.clock, if adaptive then s.duration * gate.pace.stretch else s.duration)
      ensures gate.deadline == RealMax(nextQueryAt, if adaptive then 0.0 else old(gate.holder.value.preserved))
    {
      var duration := RunStatement(s, was);
      assert 0.0 + duration == duration;
      CloseQuery(duration, adaptive, was);
    }

    /** The cooldown of a single statement, and the release. */
    method CloseQuery(duration: real, adaptive: bool, ghost was: Gate)
      requires ValidPace(gate.pace) && gate.holder.Some? && gate.holder.value.stage.Finished?
      requires gate.holder.value.adaptive == adaptive && gate.holder.value.charged == duration
      requires Advances(gate.pace, was, gate.View())
      modifies this`nextQueryAt, gate
      ensures Advances(gate.pace, was, gate.View()) && gate.holder == None && gate.work == old(gate.work)
      ensures gate.clock == old(gate.clock)
      ensures nextQueryAt == gate.clock + Cooldown(gate.pace, adaptive, duration)
      ensures gate.IsPause(nextQueryAt - gate.clock, if adaptive then duration * gate.pace.stretch else duration)
      ensures gate.deadline == RealMax(nextQueryAt, if adaptive then 0.0 else old(gate.holder.value.preserved))
    {
      var cooldown := RealMax(gate.pace.minGap, if adaptive then duration * gate.pace.stretch else duration);
      nextQueryAt := gate.clock + cooldown;
      Extends(gate.pace, was, gate.View(), Hold(Release));
      gate.Unlock(cooldown);
    }

    /** The batch session this client holds, ready for its next statement. */
    predicate InSession()
      reads this, gate
    {
      gate.holder.Some? && gate.holder.value.adaptive && batchDuration == gate.holder.value.charged
    }

    /** One turn of the batch loop: gap and renewed lease unless it is the first,
        the statement, and the checkpoint if it succeeded. */
    method BatchStatement(s: Statement, ghost was: Gate)
      requires ValidPace(gate.pace) && ValidStatement(gate.pace, s) && InSession()
      requires gate.holder.value.ran < BATCH_LIMIT
      requires if gate.holder.value.ran == 0 then gate.holder.value.stage.Leased?
               else gate.holder.value.stage.Checkpointed?
      requires Advances(gate.pace, was, gate.View())
      modifies this`batchDuration, gate
      ensures Advances(gate.pace, was, gate.View()) && InSession()
      ensures batchDuration == old(batchDuration) + s.duration && gate.work == old(gate.work) + s.duration
      ensures gate.holder.value.ran == old(gate.holder.value.ran) + 1
      ensures if s.succeeds then gate.holder.value.stage.Checkpointed? else gate.holder.value.stage.Finished?
      ensures gate.clock == old(gate.clock) + (if old(gate.holder.value.ran) > 0 then gate.pace.minGap else 0.0)
                            + s.delay + s.duration
      ensures s.succeeds ==> gate.IsPause(gate.deadline - gate.clock, batchDuration * gate.pace.stretch)
    {
      if gate.holder.value.ran > 0 {
        RenewAfterGap(was);
      }
      var duration := RunStatement(s, was);
      batchDuration := batchDuration + duration;
      if s.succeeds {
        Extends(gate.pace, was, gate.View(), Hold(Checkpoint));
        gate.MarkCheckpoint(batchDuration);
      }
    }

    /** The fixed gap between two statements of a batch, and the lease for the next. */
    method RenewAfterGap(ghost was: Gate)
      requires ValidPace(gate.pace) && InSession() && gate.holder.value.stage.Checkpointed?
      requires Advances(gate.pace, was, gate.View())
      modifies gate
      ensures Advances(gate.pace, was, gate.View()) && gate.work == old(gate.work)
      ensures gate.holder == Some(old(gate.holder.value).(stage := Leased))
      ensures gate.clock == old(gate.clock) + gate.pace.minGap
      ensures gate.IsLease(gate.deadline - gate.clock, (batchDuration + StatementLimit(gate.pace)) * gate.pace.stretch)
    {
      Extends(gate.pace, was, gate.View(), Tick(gate.pace.minGap));
      gate.Elapse(gate.pace.minGap);
      Extends(gate.pace, was, gate.View(), Hold(Renew));
      gate.RenewLease(batchDuration);
    }

    /** The single cooldown for the whole batch, and the release. */
    method CloseBatch(ghost was: Gate)
      requires ValidPace(gate.pace) && InSession() && Advances(gate.pace, was, gate.View())
      requires gate.holder.value.stage.Finished? || gate.holder.value.stage.Checkpointed?
      modifies this, gate
      ensures Advances(gate.pace, was, gate.View()) && gate.holder == None && gate.work == old(gate.work)
      ensures !batchActive && batchDuration == 0.0
      ensures nextQueryAt == gate.clock + Cooldown(gate.pace, true, old(batchDuration))
      ensures gate.IsPause(nextQueryAt - gate.clock, old(batchDuration) * gate.pace.stretch)
      ensures gate.clock == old(gate.clock)
      ensures gate.deadline == RealMax(nextQueryAt, 0.0)
    {
      var cooldown := RealMax(gate.pace.minGap, batchDuration * gate.pace.stretch);
      nextQueryAt := gate.clock + cooldown;
      batchActive, batchDuration := false, 0.0;
      Extends(gate.pace, was, gate.View(), Hold(Release));
      gate.Unlock(cooldown);
    }

    /** A batch: one gate session, a lease renewed before each later statement, a
        checkpoint after each success, one cooldown for the total. It stops at the
        first failing statement, whose time is still charged. An empty batch does
        nothing; one that is too long, or nested, is refused before any wait. */
    method QueryMany(statements: seq<Statement>) returns (outcome: Outcome)
      requires ValidPace(gate.pace) && gate.holder == None
      requires forall s | s in statements :: ValidStatement(gate.pace, s)
      modifies this, gate
      ensures Advances(gate.pace, old(gate.View()), gate.View()) && gate.holder == None
      ensures outcome.NothingToDo? <==> statements == []
      ensures outcome.Refused? <==>
                (statements != []
                 && (|statements| > BATCH_LIMIT || old(batchActive)
                     || old(gate.deadline) - RealMax(old(gate.clock), old(nextQueryAt)) > FutureLimit(gate.pace)))
      ensures !outcome.Ran? ==> gate.deadline == old(gate.deadline) && gate.work == old(gate.work)
      ensures !outcome.Ran? ==> nextQueryAt == old(nextQueryAt) && batchActive == old(batchActive)
      ensures outcome.Ran? ==>
                && outcome.completed <= |statements|
                && (forall i | 0 <= i < outcome.completed :: statements[i].succeeds)
                && (outcome.completed < |statements| ==> !statements[outcome.completed].succeeds)
                && var ran := statements[..Min(outcome.completed + 1, |statements|)];
                && gate.work == old(gate.work) + TotalDuration(ran)
                && nextQueryAt == gate.clock + Cooldown(gate.pace, true, TotalDuration(ran))
                && gate.IsPause(nextQueryAt - gate.clock, TotalDuration(ran) * gate.pace.stretch)
                && gate.deadline == RealMax(nextQueryAt, 0.0)
                && !batchActive && batchDuration == 0.0
    {
      ghost var was := gate.View();
      Stays(gate.pace, was);
      if statements == [] {
        return NothingToDo;
      }
      if |statements| > BATCH_LIMIT || batchActive {
        return Refused;
      }
      var leased := OpenGate(true);
      if !leased {
        return Refused;
      }
      batchActive, batchDuration := true, 0.0;
      var completed: nat, failed := RunBatch(statements, was);
      CloseBatch(was);
      return Ran(completed);
    }

    /** The statement loop of a leased batch. */
    method RunBatch(statements: seq<Statement>, ghost was: Gate) returns (completed: nat, failed: bool)
      requires ValidPace(gate.pace) && InSession() && batchDuration == 0.0 && gate.work == was.work
      requires 0 < |statements| <= BATCH_LIMIT && forall s | s in statements :: ValidStatement(gate.pace, s)
      requires gate.holder.value.ran == 0 && gate.holder.value.stage.Leased? && Advances(gate.pace, was, gate.View())
      modifies this`batchDuration, gate
      ensures Advances(gate.pace, was, gate.View()) && InSession()
      ensures completed <= |statements| && (failed <==> completed < |statements|)
      ensures forall i | 0 <= i < completed :: statements[i].succeeds
      ensures failed ==> !statements[completed].succeeds
      ensures gate.holder.value.stage.Finished? || gate.holder.value.stage.Checkpointed?
      ensures batchDuration == TotalDuration(statements[..Min(completed + 1, |statements|)])
      ensures gate.work == was.work + batchDuration
    {
      completed, failed := 0, false;
      while completed < |statements| && !failed
        invariant completed <= |statements| && (failed ==> completed < |statements| && !statements[completed].succeeds)
        invariant forall i | 0 <= i < completed :: statements[i].succeeds
        invariant Advances(gate.pace, was, gate.View()) && InSession()
        invariant gate.holder.value.ran == if failed then completed + 1 else completed
        invariant batchDuration == TotalDuration(statements[..gate.holder.value.ran])
        invariant gate.work == was.work + batchDuration
        invariant if failed then gate.holder.value.stage.Finished?
                  else if completed == 0 then gate.holder.value.stage.Leased?
                  else gate.holder.value.stage.Checkpointed?
        decreases |statements| - completed, !failed
      {
        assert statements[..completed + 1][..completed] == statements[..completed];
        BatchStatement(statements[completed], was);
        if statements[completed].succeeds {
          completed := completed + 1;
        } else {
          failed := true;
        }
      }
    }
  }
}
