/** The serialized database lane: the scheduler thread enqueues, applies shutdown
    and drains; one worker takes, admits, runs and finishes. Each step is one
    critical section or one queue operation. */
module DataConnectLane {
  import opened Util
  import opened AgingQueue

  const SCHEMA := "dataconnect_schema"

  /** Where the worker is between queue operations. `Dropping`, `Finishing` and
      `Leaving` still owe the queue a task_done; `Leaving` then ends the thread. */
  datatype Worker =
    | Dead
    | Waiting
    | Got(e: Entry)
    | Running(name: string)
    | Dropping
    | Finishing
    | Leaving

  /** What the scheduler thread is doing outside its own loop. */
  datatype Main = Ready | SyncRunning(name: string) | Draining(holding: bool)

  datatype Lane = Lane(
    queue: seq<Entry>, unfinished: nat, worker: Worker, main: Main,
    inflight: set<string>, queuedAt: set<string>, busy: bool,
    schemaReady: bool, failures: set<string>,
    async: bool, stopping: bool, shutdown: bool)

  datatype Step =
    | Enqueue(priority: int, sequence: nat, name: string, now: real)
    | RunSync(name: string)
    | EndSync
    | ApplySchema(failures: set<string>)
    | SetShutdown
    | StartWorker
    | RequestStop(sequence: nat, now: real)
    | Reap
    | DrainGet
    | DrainDone
    | EndDrain
    | Take
    | Admit
    | Finish
    | Die
    | TaskDone

  function Empty(): Lane {
    Lane([], 0, Dead, Ready, {}, {}, false, false, {}, false, false, false)
  }

  /** The check made again after dequeue, and before a synchronous run. */
  predicate Blocked(l: Lane, name: string) {
    name != SCHEMA && (!l.schemaReady || name in l.failures)
  }

  predicate RunsSchema(l: Lane) {
    l.worker == Running(SCHEMA) || l.main == SyncRunning(SCHEMA)
  }

  predicate Enabled(l: Lane, step: Step) {
    match step
    case Enqueue(_, _, name, _) => l.main.Ready? && l.async && !l.stopping && !l.shutdown && name !in l.inflight
    case RunSync(name) => l.main.Ready? && !l.async && !Blocked(l, name)
    case EndSync => l.main.SyncRunning?
    case ApplySchema(_) => RunsSchema(l)
    case SetShutdown => true
    case StartWorker => l.main.Ready? && !l.stopping && l.worker.Dead?
    case RequestStop(_, _) => l.main.Ready? && l.async
    case Reap => l.main.Ready? && l.stopping && l.worker.Dead?
    case DrainGet => l.main == Draining(false) && l.queue != []
    case DrainDone => l.main == Draining(true)
    case EndDrain => l.main == Draining(false) && l.queue == []
    case Take => l.worker.Waiting? && l.queue != []
    case Admit => l.worker.Got?
    case Finish => l.worker.Running?
    case Die => l.worker.Running?
    case TaskDone => l.worker.Dropping? || l.worker.Finishing? || l.worker.Leaving?
  }

  function OneLess(n: nat): nat { if n > 0 then n - 1 else 0 }

  ghost function Admitted(l: Lane, e: Entry): Lane {
    if e.name.None? then l.(worker := Leaving)
    else
      var name := e.name.value;
      var l' := l.(queuedAt := l.queuedAt - {name});
      if l.shutdown then l'.(inflight := l.inflight - {name}, worker := Leaving)
      else if Blocked(l, name) then l'.(inflight := l.inflight - {name}, worker := Dropping)
      else l'.(busy := true, worker := Running(name))
  }

  ghost function Apply(l: Lane, step: Step): Lane
    requires Enabled(l, step)
  {
    match step
    case Enqueue(priority, sequence, name, now) =>
      l.(inflight := l.inflight + {name}, queuedAt := l.queuedAt + {name},
         queue := l.queue + [Entry(priority, sequence, Some(name), now)], unfinished := l.unfinished + 1)
    case RunSync(name) => l.(main := SyncRunning(name))
    case EndSync => l.(main := Ready)
    case ApplySchema(failures) => l.(schemaReady := true, failures := failures)
    case SetShutdown => l.(shutdown := true)
    case StartWorker => l.(async := true, shutdown := false, worker := Waiting)
    case RequestStop(sequence, now) =>
      l.(stopping := true, queue := l.queue + [Entry(-1, sequence, None, now)], unfinished := l.unfinished + 1)
    case Reap => l.(async := false, stopping := false, main := Draining(false))
    case DrainGet => l.(queue := Without(l.queue, BestIndex(l.queue)), main := Draining(true))
    case DrainDone => l.(unfinished := OneLess(l.unfinished), main := Draining(false))
    case EndDrain => l.(busy := false, inflight := {}, queuedAt := {}, main := Ready)
    case Take => l.(worker := Got(l.queue[BestIndex(l.queue)]), queue := Without(l.queue, BestIndex(l.queue)))
    case Admit => Admitted(l, l.worker.e)
    case Finish => l.(busy := false, inflight := l.inflight - {l.worker.name}, worker := Finishing)
    case Die => l.(busy := false, inflight := l.inflight - {l.worker.name}, worker := Leaving)
    case TaskDone => l.(unfinished := OneLess(l.unfinished), worker := if l.worker.Leaving? then Dead else Waiting)
  }

  ghost predicate Run(ls: seq<Lane>, steps: seq<Step>) {
    && |ls| == |steps| + 1
    && forall i | 0 <= i < |steps| :: Enabled(ls[i], steps[i]) && ls[i + 1] == Apply(ls[i], steps[i])
  }

  // ---- what every step keeps ---------------------------------------------------

  function Names(queue: seq<Entry>): set<string> {
    set i | 0 <= i < |queue| && queue[i].name.Some? :: queue[i].name.value
  }

  ghost predicate NoRepeats(queue: seq<Entry>) {
    forall i, j | 0 <= i < j < |queue| && queue[i].name.Some? && queue[j].name.Some? :: queue[i].name != queue[j].name
  }

  /** The dataset of an item taken but not yet admitted. */
  function TakenName(l: Lane): set<string> {
    if l.worker.Got? && l.worker.e.name.Some? then {l.worker.e.name.value} else {}
  }

  function RunningName(l: Lane): set<string> {
    if l.worker.Running? then {l.worker.name} else {}
  }

  function HeldItems(l: Lane): nat {
    (if l.worker.Dead? || l.worker.Waiting? then 0 else 1) + (if l.main == Draining(true) then 1 else 0)
  }

  /** Each dataset is queued, held or running at most once and in one place. */
  ghost predicate OnePlace(l: Lane) {
    && NoRepeats(l.queue)
    && Names(l.queue) !! TakenName(l)
    && Names(l.queue) !! RunningName(l)
  }

  ghost predicate Books(l: Lane) {
    && (!l.main.Draining? ==> l.inflight == Names(l.queue) + TakenName(l) + RunningName(l))
    && (!l.main.Draining? ==> l.queuedAt == Names(l.queue) + TakenName(l))
    && l.unfinished == |l.queue| + HeldItems(l)
    && (l.busy <==> l.worker.Running?)
  }

  ghost predicate Modes(l: Lane) {
    && (l.main.Draining? ==> l.worker.Dead? && !l.async && !l.stopping)
    && (l.main.SyncRunning? ==> !l.async)
    && (!l.async ==> l.worker.Dead? && !l.stopping)
  }

  /** Whatever runs is allowed by the schema applied last. */
  ghost predicate Compatible(l: Lane) {
    && (l.worker.Running? ==> !Blocked(l, l.worker.name))
    && (l.main.SyncRunning? ==> !Blocked(l, l.main.name))
  }

  /** A requested stop has its sentinel in the queue until the worker sees it. */
  ghost predicate StopPending(l: Lane) {
    l.stopping && !l.worker.Dead? && !l.worker.Leaving? && !(l.worker.Got? && l.worker.e.name.None?) ==>
      exists i :: 0 <= i < |l.queue| && l.queue[i].name == None
  }

  ghost predicate LaneInv(l: Lane) {
    OnePlace(l) && Books(l) && Modes(l) && Compatible(l) && StopPending(l)
  }

  lemma NamesAppend(queue: seq<Entry>, e: Entry)
    ensures Names(queue + [e]) == Names(queue) + (if e.name.Some? then {e.name.value} else {})
    ensures NoRepeats(queue) && (e.name.Some? ==> e.name.value !in Names(queue)) ==> NoRepeats(queue + [e])
  {
    var longer := queue + [e];
    forall n ensures n in Names(longer) <==> n in Names(queue) || e.name == Some(n) {
      if n in Names(longer) {
        var i :| 0 <= i < |longer| && longer[i].name == Some(n);
        assert i < |queue| ==> queue[i].name == Some(n);
      }
      if n in Names(queue) {
        var i :| 0 <= i < |queue| && queue[i].name == Some(n);
        assert longer[i].name == Some(n);
      }
      if e.name == Some(n) {
        assert longer[|queue|].name == Some(n);
      }
    }
    if NoRepeats(queue) && (e.name.Some? ==> e.name.value !in Names(queue)) {
      forall i, j | 0 <= i < j < |longer| && longer[i].name.Some? && longer[j].name.Some?
        ensures longer[i].name != longer[j].name
      {
        assert queue[i].name.value in Names(queue);
      }
    }
  }

  lemma NamesWithout(queue: seq<Entry>, k: nat)
    requires k < |queue| && NoRepeats(queue)
    ensures var gone := if queue[k].name.Some? then {queue[k].name.value} else {};
            && Names(Without(queue, k)) == Names(queue) - gone
            && gone <= Names(queue)
    ensures NoRepeats(Without(queue, k))
  {
    var rest := Without(queue, k);
    forall n ensures n in Names(rest) <==> n in Names(queue) && queue[k].name != Some(n) {
      if n in Names(rest) {
        var i :| 0 <= i < |rest| && rest[i].name == Some(n);
        assert queue[if i < k then i else i + 1].name == Some(n);
      }
      if n in Names(queue) && queue[k].name != Some(n) {
        var i :| 0 <= i < |queue| && queue[i].name == Some(n);
        assert rest[if i < k then i else i - 1].name == Some(n);
      }
    }
  }

  lemma TakeKeeps(l: Lane)
    requires LaneInv(l) && Enabled(l, Take)
    ensures LaneInv(Apply(l, Take))
  {
    var best := BestIndex(l.queue);
    NamesWithout(l.queue, best);
  }

  lemma PutKeeps(l: Lane, step: Step)
    requires LaneInv(l) && Enabled(l, step) && (step.Enqueue? || step.RequestStop?)
    ensures LaneInv(Apply(l, step))
  {
    var l' := Apply(l, step);
    NamesAppend(l.queue, l'.queue[|l.queue|]);
    if step.RequestStop? {
      assert l'.queue[|l.queue|].name == None;
    }
  }

  lemma AdmitKeeps(l: Lane)
    requires LaneInv(l) && Enabled(l, Admit)
    ensures LaneInv(Apply(l, Admit))
  {
  }

  lemma DrainKeeps(l: Lane, step: Step)
    requires LaneInv(l) && Enabled(l, step) && (step.DrainGet? || step.DrainDone? || step.EndDrain?)
    ensures LaneInv(Apply(l, step))
  {
    if step.DrainGet? {
      NamesWithout(l.queue, BestIndex(l.queue));
    }
  }

  lemma StepKeeps(l: Lane, step: Step)
    requires LaneInv(l) && Enabled(l, step)
    ensures LaneInv(Apply(l, step))
  {
    if step.Take? {
      TakeKeeps(l);
    } else if step.Enqueue? || step.RequestStop? {
      PutKeeps(l, step);
    } else if step.Admit? {
      AdmitKeeps(l);
    } else if step.DrainGet? || step.DrainDone? || step.EndDrain? {
      DrainKeeps(l, step);
    }
  }

  /** Lane safety in every reachable state. */
  lemma {:induction false} LaneSafety(ls: seq<Lane>, steps: seq<Step>, n: nat)
    requires Run(ls, steps) && ls[0] == Empty() && n < |ls|
    ensures LaneInv(ls[n])
    decreases n
  {
    if n > 0 {
      LaneSafety(ls, steps, n - 1);
      StepKeeps(ls[n - 1], steps[n - 1]);
    }
  }

  /** No callback is running, at any moment of any run, for a dataset that the most
      recently applied schema rejects, even if it was queued under an older one. */
  lemma NoRejectedCallback(ls: seq<Lane>, steps: seq<Step>, n: nat)
    requires Run(ls, steps) && ls[0] == Empty() && n < |ls|
    ensures ls[n].worker.Running? && ls[n].worker.name != SCHEMA ==>
              ls[n].schemaReady && ls[n].worker.name !in ls[n].failures
    ensures ls[n].main.SyncRunning? && ls[n].main.name != SCHEMA ==>
              ls[n].schemaReady && ls[n].main.name !in ls[n].failures
    ensures !(ls[n].worker.Running? && ls[n].main.SyncRunning?)
  {
    LaneSafety(ls, steps, n);
  }

  /** A completed stop leaves nothing behind. */
  lemma StopLeavesNothing(ls: seq<Lane>, steps: seq<Step>, n: nat)
    requires Run(ls, steps) && ls[0] == Empty() && n < |steps| && steps[n].EndDrain?
    ensures var l := ls[n + 1];
            && l.queue == [] && l.unfinished == 0 && l.inflight == {} && l.queuedAt == {}
            && !l.busy && l.worker.Dead? && !l.async && !l.stopping
  {
    LaneSafety(ls, steps, n);
    LaneSafety(ls, steps, n + 1);
    assert ls[n + 1] == Apply(ls[n], steps[n]);
  }

  /** After a stop request the worker's next take is the sentinel, so no dataset
      still queued starts, however old or urgent it is. */
  lemma StopComesFirst(ls: seq<Lane>, steps: seq<Step>, n: nat)
    requires Run(ls, steps) && ls[0] == Empty() && n < |steps|
    requires ls[n].stopping && steps[n].Take?
    ensures ls[n + 1].worker.Got? && ls[n + 1].worker.e.name == None
  {
    LaneSafety(ls, steps, n);
    assert ls[n + 1] == Apply(ls[n], steps[n]);
    assert IsBest(ls[n].queue, BestIndex(ls[n].queue));
  }

  // ---- what is admitted runs ---------------------------------------------------------

  /** The failures of the schema applied last, if any was. */
  function Applied(steps: seq<Step>): Option<set<string>> {
    if steps == [] then None
    else
      var last := steps[|steps| - 1];
      if last.ApplySchema? then Some(last.failures) else Applied(steps[..|steps| - 1])
  }

  /** The schema job, or a dataset that the schema applied last accepts. */
  predicate Acceptable(name: string, steps: seq<Step>) {
    name == "dataconnect_schema" || (Applied(steps).Some? && name !in Applied(steps).value)
  }

  /** The schema in use is the one applied last. */
  ghost predicate InUse(l: Lane, applied: Option<set<string>>) {
    l.schemaReady == applied.Some? && (applied.Some? ==> l.failures == applied.value)
  }

  lemma StepKeepsInUse(l: Lane, step: Step, applied: Option<set<string>>)
    requires Enabled(l, step) && InUse(l, applied)
    ensures InUse(Apply(l, step), if step.ApplySchema? then Some(step.failures) else applied)
  {
  }

  lemma {:induction false} SchemaIsApplied(ls: seq<Lane>, steps: seq<Step>, n: nat)
    requires Run(ls, steps) && ls[0] == Empty() && n < |ls|
    ensures InUse(ls[n], Applied(steps[..n]))
  {
    if n > 0 {
      SchemaIsApplied(ls, steps, n - 1);
      assert steps[..n][..n - 1] == steps[..n - 1];
      StepKeepsInUse(ls[n - 1], steps[n - 1], Applied(steps[..n - 1]));
    }
  }

  /** Whether the last step that set a mode or cleared it has set it. */
  function ShutDown(steps: seq<Step>): bool {
    if steps == [] then false
    else
      var last := steps[|steps| - 1];
      last.SetShutdown? || (!last.StartWorker? && ShutDown(steps[..|steps| - 1]))
  }

  function StopAsked(steps: seq<Step>): bool {
    if steps == [] then false
    else
      var last := steps[|steps| - 1];
      last.RequestStop? || (!last.Reap? && StopAsked(steps[..|steps| - 1]))
  }

  function Started(steps: seq<Step>): bool {
    if steps == [] then false
    else
      var last := steps[|steps| - 1];
      last.StartWorker? || (!last.Reap? && Started(steps[..|steps| - 1]))
  }

  /** The modes of the lane are those asked for last. */
  lemma {:induction false} ModesAreAsked(ls: seq<Lane>, steps: seq<Step>, n: nat)
    requires Run(ls, steps) && ls[0] == Empty() && n < |ls|
    ensures ls[n].shutdown == ShutDown(steps[..n])
    ensures ls[n].stopping == StopAsked(steps[..n])
    ensures ls[n].async == Started(steps[..n])
  {
    if n > 0 {
      ModesAreAsked(ls, steps, n - 1);
      assert steps[..n][..n - 1] == steps[..n - 1];
      ModesStep(ls[n - 1], steps[n - 1]);
    }
  }

  lemma ModesStep(l: Lane, step: Step)
    requires Enabled(l, step)
    ensures Apply(l, step).shutdown == (step.SetShutdown? || (!step.StartWorker? && l.shutdown))
    ensures Apply(l, step).stopping == (step.RequestStop? || (!step.Reap? && l.stopping))
    ensures Apply(l, step).async == (step.StartWorker? || (!step.Reap? && l.async))
  {
  }

  /** What the worker does with an item it took. A dataset runs next and stays in flight
      if and only if no shutdown was asked for and the schema accepts it; it is discarded,
      and may be queued again, if the schema rejects it; the worker leaves on a shutdown
      and on a sentinel. */
  lemma AdmittedRuns(ls: seq<Lane>, steps: seq<Step>, n: nat)
    requires Run(ls, steps) && ls[0] == Empty() && n < |steps| && steps[n].Admit?
    ensures ls[n].worker.e.name.None? ==> ls[n + 1] == ls[n].(worker := Leaving)
    ensures ls[n].worker.e.name.Some? ==>
              var name, l' := ls[n].worker.e.name.value, ls[n + 1];
              && l'.queuedAt == ls[n].queuedAt - {name} && l'.queue == ls[n].queue
              && if ShutDown(steps[..n]) then
                   l'.worker == Leaving && l'.inflight == ls[n].inflight - {name} && !l'.busy
                 else if Acceptable(name, steps[..n]) then
                   l'.worker == Running(name) && l'.inflight == ls[n].inflight && name in l'.inflight && l'.busy
                 else l'.worker == Dropping && l'.inflight == ls[n].inflight - {name} && !l'.busy
  {
    LaneSafety(ls, steps, n);
    SchemaIsApplied(ls, steps, n);
    ModesAreAsked(ls, steps, n);
    assert Enabled(ls[n], steps[n]) && ls[n + 1] == Apply(ls[n], steps[n]);
  }

  /** A synchronous run starts only for an acceptable dataset, with no worker alive, and
      ends by itself. */
  lemma SynchronousRuns(ls: seq<Lane>, steps: seq<Step>, n: nat)
    requires Run(ls, steps) && ls[0] == Empty() && n < |steps|
    ensures steps[n].RunSync? ==>
              && Acceptable(steps[n].name, steps[..n]) && ls[n].worker.Dead? && !Started(steps[..n])
              && ls[n + 1] == ls[n].(main := SyncRunning(steps[n].name))
    ensures steps[n].EndSync? ==> ls[n].main.SyncRunning? && ls[n + 1] == ls[n].(main := Ready)
  {
    LaneSafety(ls, steps, n);
    SchemaIsApplied(ls, steps, n);
    ModesAreAsked(ls, steps, n);
    assert Enabled(ls[n], steps[n]) && ls[n + 1] == Apply(ls[n], steps[n]);
  }

  lemma LeavesStep(l: Lane, step: Step, name: string)
    requires Enabled(l, step) && name in l.inflight && name !in Apply(l, step).inflight
    ensures || (l.worker == Running(name) && (step.Finish? || step.Die?))
            || (step.Admit? && l.worker.e.name == Some(name) && (l.shutdown || Blocked(l, name)))
            || step.EndDrain?
  {
  }

  /** A dataset leaves flight after it ran, or because of a shutdown, a schema that
      rejects it, or a completed stop; nothing else loses it. */
  lemma LeavesFlightOnly(ls: seq<Lane>, steps: seq<Step>, n: nat, name: string)
    requires Run(ls, steps) && ls[0] == Empty() && n < |steps|
    requires name in ls[n].inflight && name !in ls[n + 1].inflight
    ensures || (ls[n].worker == Running(name) && (steps[n].Finish? || steps[n].Die?))
            || (steps[n].Admit? && ls[n].worker.e.name == Some(name)
                && (ShutDown(steps[..n]) || !Acceptable(name, steps[..n])))
            || steps[n].EndDrain?
  {
    SchemaIsApplied(ls, steps, n);
    ModesAreAsked(ls, steps, n);
    LeavesStep(ls[n], steps[n], name);
  }

  lemma EntersStep(l: Lane, step: Step, name: string)
    requires Enabled(l, step) && name !in l.inflight && name in Apply(l, step).inflight
    ensures step.Enqueue? && step.name == name && !l.shutdown && !l.stopping && l.async
    ensures Apply(l, step).queue == l.queue + [Entry(step.priority, step.sequence, Some(name), step.now)]
  {
  }

  /** A dataset enters flight only by being queued, behind what is queued already. */
  lemma EntersFlightOnly(ls: seq<Lane>, steps: seq<Step>, n: nat, name: string)
    requires Run(ls, steps) && ls[0] == Empty() && n < |steps|
    requires name !in ls[n].inflight && name in ls[n + 1].inflight
    ensures steps[n].Enqueue? && steps[n].name == name
    ensures !ShutDown(steps[..n]) && !StopAsked(steps[..n]) && Started(steps[..n])
    ensures ls[n + 1].queue == ls[n].queue + [Entry(steps[n].priority, steps[n].sequence, Some(name), steps[n].now)]
  {
    ModesAreAsked(ls, steps, n);
    EntersStep(ls[n], steps[n], name);
  }

  /** From taking an acceptable dataset, with the worker's own steps, it runs and is out
      of flight three steps later, its item done and the worker waiting again. */
  lemma TakenIsServed(ls: seq<Lane>, steps: seq<Step>, n: nat, name: string)
    requires Run(ls, steps) && ls[0] == Empty() && n + 3 < |ls|
    requires ls[n].worker.Got? && ls[n].worker.e.name == Some(name)
    requires !ShutDown(steps[..n]) && Acceptable(name, steps[..n])
    requires steps[n] == Admit && steps[n + 1] == Finish && steps[n + 2] == TaskDone
    ensures ls[n + 1].worker == Running(name)
    ensures ls[n + 3].worker == Waiting && ls[n + 3].inflight == ls[n].inflight - {name}
    ensures ls[n + 3].unfinished == ls[n].unfinished - 1 && !ls[n + 3].busy
  {
    AdmittedRuns(ls, steps, n);
    LaneSafety(ls, steps, n);
    assert ls[n + 1] == Apply(ls[n], steps[n]);
    assert ls[n + 2] == Apply(ls[n + 1], steps[n + 1]);
    assert ls[n + 3] == Apply(ls[n + 2], steps[n + 2]);
  }

  // ---- a stop completes --------------------------------------------------------------

  /** The steps of the scheduler thread that empty a dead lane. */
  ghost function Drain(l: Lane): seq<Step>
    decreases |l.queue|
  {
    if l.queue == [] then [EndDrain] else [DrainGet, DrainDone] + Drain(Drained(l))
  }

  ghost function Drained(l: Lane): Lane
    requires l.queue != []
  {
    l.(queue := Without(l.queue, BestIndex(l.queue)), unfinished := OneLess(l.unfinished), main := Draining(false))
  }

  /** Every step of the list can be taken, and they lead from `l` to `l'`. */
  ghost predicate Takes(l: Lane, steps: seq<Step>, l': Lane)
    decreases |steps|
  {
    if steps == [] then l' == l
    else Enabled(l, steps[0]) && Takes(Apply(l, steps[0]), steps[1..], l')
  }

  lemma {:induction false} DrainEmpties(l: Lane)
    requires l.main == Draining(false)
    ensures Takes(l, Drain(l), l.(queue := [], unfinished := Remaining(l.unfinished, |l.queue|), busy := false,
                                  inflight := {}, queuedAt := {}, main := Ready))
    decreases |l.queue|
  {
    if l.queue != [] {
      var taken := Apply(l, DrainGet);
      var done := Apply(taken, DrainDone);
      assert done == Drained(l);
      DrainEmpties(done);
      var steps := Drain(l);
      assert steps[1..][0] == DrainDone && steps[1..][1..] == Drain(done);
    } else {
      assert Drain(l)[1..] == [];
    }
  }

  function Remaining(n: nat, taken: nat): nat { if n > taken then n - taken else 0 }

  /** A new lane that has the schema in use and a shutdown asked for. */
  function Stopped(l: Lane): Lane {
    Empty().(schemaReady := l.schemaReady, failures := l.failures, shutdown := l.shutdown)
  }

  /** After a stop request, once the worker is dead, the scheduler thread can always
      complete the stop; the lane is then as new, and a new worker can be started on it. */
  lemma StopCompletes(ls: seq<Lane>, steps: seq<Step>, n: nat)
    requires Run(ls, steps) && ls[0] == Empty() && n < |ls|
    requires StopAsked(steps[..n]) && ls[n].worker.Dead? && ls[n].main.Ready?
    ensures Enabled(ls[n], Reap)
    ensures Takes(ls[n], [Reap] + Drain(Apply(ls[n], Reap)),
                  Stopped(ls[n]))
    ensures Enabled(Stopped(ls[n]), StartWorker)
    ensures var again := Apply(Stopped(ls[n]), StartWorker);
            again.worker == Waiting && again.queue == [] && again.inflight == {} && !again.shutdown
  {
    LaneSafety(ls, steps, n);
    ModesAreAsked(ls, steps, n);
    var l := Apply(ls[n], Reap);
    DrainEmpties(l);
    assert ([Reap] + Drain(l))[1..] == Drain(l);
  }
}
