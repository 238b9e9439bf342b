/** The tailing protocol as a step machine: the database (rows appear out of
    order, are purged by prefix, or the id space is rebuilt), and the collector
    (three separate reads, the cursor commit, the counter increments), with a
    failure or a crash possible between any two of its steps. */
module TailProtocol {
  import opened Util
  import opened TailView
  import opened TailCollector

  /** A row as the histories remember it; `gen` numbers the id-space rebuilds. */
  datatype Counted = Counted(gen: nat, id: int, labels: Labels)

  datatype Phase =
    | Idle
    | SawMin(minId: Option<int>)
    | SawMax(minId: Option<int>, maxId: Option<int>, gen: nat, at: real)
    | SawTail(minId: Option<int>, maxId: Option<int>, rows: seq<Group>, snap: View, gen: nat, at: real)
    | Publishing(rows: seq<Group>, batch: set<Counted>)

  /** `view`, `clock` and `gen` are the database; `cursor` is durable; `phase`
      and `counters` die with the process. The other fields are histories:
      `seen` every row visible so far in this generation, `ledger` the increments
      of all process lives, `folded` the rows behind those increments, `cut` the
      rows the backfill floor dropped, `seed` where counting last began, and
      `cursorGen`/`readAt` the generation and time of the last committed read. */
  datatype World = World(
    view: View, clock: real, gen: nat,
    cursor: Option<Cursor>,
    phase: Phase, counters: map<Labels, nat>,
    seen: View, ledger: map<Labels, nat>, folded: set<Counted>, cut: set<int>,
    seed: int, cursorGen: nat, readAt: real)

  datatype Step =
    | Appear(id: int, row: Row)
    | Purge(upTo: int)
    | Tick(delta: real)
    | Rebuild
    | ReadMin
    | ReadMax
    | ReadTail(rows: seq<Group>)
    | Commit
    | PublishBatch
    | Fail
    | Crash

  ghost function Start(clock: real): World {
    World(map[], clock, 0, None, Idle, map[], map[], map[], {}, {}, 0, 0, clock)
  }

  /** Between the first and the last read of the batch this cycle issues. */
  predicate InBatch(w: World) {
    w.phase.SawMin? || (w.phase.SawMax? && w.cursor.Some?)
  }

  predicate ReadyToCommit(w: World) {
    (w.phase.SawMax? && w.cursor.None?) || (w.phase.SawTail? && w.cursor.Some?)
  }

  ghost function PickedNow(c: Config, w: World): set<int>
    requires w.cursor.Some?
  {
    Picked(c, w.view, w.cursor.value.value, w.clock)
  }

  ghost predicate Enabled(c: Config, w: World, step: Step) {
    match step
    case Appear(id, _) => id >= 1 && id !in w.seen
    case Purge(_) => true
    case Tick(delta) => delta >= 0.0
    case Rebuild => true
    case ReadMin => w.phase.Idle?
    case ReadMax => w.phase.SawMin?
    case ReadTail(rows) =>
      w.phase.SawMax? && w.cursor.Some? && IsGrouping(w.view, PickedNow(c, w), rows)
    case Commit => ReadyToCommit(w)
    case PublishBatch => w.phase.Publishing?
    case Fail => w.phase.SawMin? || w.phase.SawMax? || w.phase.SawTail?
    case Crash => true
  }

  function RowsRead(w: World): seq<Group> {
    if w.phase.SawTail? then w.phase.rows else []
  }

  /** What the collector decides from the reads it holds. */
  function Decision(w: World): (Outcome, Cursor)
    requires ReadyToCommit(w)
  {
    Decide(w.cursor, w.phase.minId, w.phase.maxId, RowsRead(w))
  }

  ghost function BatchOf(gen: nat, snap: View, ids: set<int>): set<Counted> {
    set id | id in ids && id in snap :: Counted(gen, id, snap[id].labels)
  }

  /** The new rows at or below `newHwm` that the floor kept out of the statement. */
  function FloorCut(c: Config, snap: View, hwm: int, newHwm: int, at: real): set<int> {
    set id | id in snap && hwm < id <= newHwm && !AboveFloor(c, snap[id], at)
  }

  ghost function Committed(c: Config, w: World): World
    requires ReadyToCommit(w)
  {
    var (outcome, next) := Decision(w);
    var w' := w.(cursor := Some(next), cursorGen := w.phase.gen, readAt := w.phase.at, phase := Idle);
    match outcome
    case ColdStart => w'.(seed := next.value, cut := {})
    case CursorReset => w'.(seed := next.value, cut := {})
    case Quiet => w'
    case Advanced =>
      var hwm := w.cursor.value.value;
      w'.(phase := Publishing(w.phase.rows,
                              BatchOf(w.phase.gen, w.phase.snap, Picked(c, w.phase.snap, hwm, w.phase.at))),
          cut := w.cut + FloorCut(c, w.phase.snap, hwm, next.value, w.phase.at))
  }

  ghost function Apply(c: Config, w: World, step: Step): World
    requires Enabled(c, w, step)
  {
    match step
    case Appear(id, row) => w.(view := w.view[id := row], seen := w.seen[id := row])
    case Purge(upTo) => w.(view := Keep(w.view, set id | id in w.view && id > upTo))
    case Tick(delta) => w.(clock := w.clock + delta)
    case Rebuild => w.(view := map[], seen := map[], gen := w.gen + 1)
    case ReadMin => w.(phase := SawMin(MinId(w.view)))
    case ReadMax => w.(phase := SawMax(w.phase.minId, MaxId(w.view), w.gen, w.clock))
    case ReadTail(rows) =>
      w.(phase := SawTail(w.phase.minId, w.phase.maxId, rows, w.view, w.gen, w.clock))
    case Commit => Committed(c, w)
    case PublishBatch =>
      w.(counters := Publish(c, w.counters, w.phase.rows), ledger := Publish(c, w.ledger, w.phase.rows),
         folded := w.folded + w.phase.batch, phase := Idle)
    case Fail => w.(phase := Idle)
    case Crash => w.(phase := Idle, counters := map[])
  }

  /** A run: the worlds visited and the steps between them. */
  ghost predicate Run(c: Config, ws: seq<World>, steps: seq<Step>) {
    && |ws| == |steps| + 1
    && forall i | 0 <= i < |steps| :: Enabled(c, ws[i], steps[i]) && ws[i + 1] == Apply(c, ws[i], steps[i])
  }

  predicate TakesReset(w: World, step: Step) {
    step.Commit? && ReadyToCommit(w) && Decision(w).0.CursorReset?
  }

  /** The arrival discipline: a row becomes visible before any higher id is settled. */
  ghost predicate Timely(c: Config, w: World, step: Step) {
    step.Appear? ==> forall h | h in w.seen && h > step.id :: !Settled(c, w.seen[h], w.clock)
  }
}
