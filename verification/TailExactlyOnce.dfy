/** Exactly-once tailing in runs whose id space is not rebuilt and whose batches
    are not lost, whatever the arrival order the discipline allows. */
module TailExactlyOnce {
  import opened Util
  import opened TailView
  import opened TailCollector
  import opened TailProtocol

  /** Rows counted, including a committed batch whose increments are under way. */
  ghost function Done(w: World): set<Counted> {
    w.folded + (if w.phase.Publishing? then w.phase.batch else {})
  }

  /** The ids the cursor has covered since counting began. */
  predicate Covers(w: World, id: int) {
    w.cursor.Some? && w.seed < id <= w.cursor.value.value
  }

  /** The covered rows are counted, once and with no exception but a floor cut,
      and nothing else is. */
  ghost predicate CountedExactly(w: World) {
    && (forall id | id in w.view && Covers(w, id) ::
          Counted(w.gen, id, w.view[id].labels) in Done(w) <==> id !in w.cut)
    && (forall x | x in Done(w) && x.gen == w.gen :: Covers(w, x.id) && x.id !in w.cut)
  }

  ghost predicate ViewSeen(w: World) {
    forall id | id in w.view :: id in w.seen && w.seen[id] == w.view[id]
  }

  /** A row the cursor stands on is settled, so nothing below it is still to come. */
  ghost predicate FrontierSettled(c: Config, w: World) {
    w.cursor.Some? && w.cursor.value.value > w.seed ==>
      w.cursor.value.value in w.seen && Settled(c, w.seen[w.cursor.value.value], w.clock)
  }

  /** A tail result in hand: its rows are still the rows of the view up to the
      highest picked id, which was settled when the statement ran. */
  ghost predicate TailInHand(c: Config, w: World) {
    w.phase.SawTail? ==>
      && w.cursor.Some? && w.phase.gen == w.gen && w.phase.at <= w.clock
      && (forall id | id in w.phase.snap :: id in w.seen && w.seen[id] == w.phase.snap[id])
      && var picked := Picked(c, w.phase.snap, w.cursor.value.value, w.phase.at);
      && IsGrouping(w.phase.snap, picked, w.phase.rows)
      && (picked != {} ==> forall id | id in w.view && id <= Greatest(picked) :: id in w.phase.snap)
  }

  ghost predicate ExactInv(c: Config, w: World) {
    && ViewSeen(w)
    && (w.cursor.None? ==> !w.phase.SawTail? && !w.phase.Publishing? && forall x | x in w.folded :: x.gen < w.gen)
    && (w.cursor.Some? ==> w.cursorGen == w.gen && w.seed <= w.cursor.value.value)
    && (w.phase.SawMax? ==> w.phase.gen == w.gen)
    && (forall id | id in w.cut && w.cursor.Some? :: Covers(w, id))
    && FrontierSettled(c, w)
    && TailInHand(c, w)
    && (w.cursor.Some? ==> CountedExactly(w))
  }

  lemma StartIsExact(c: Config, clock: real)
    ensures ExactInv(c, Start(clock))
  {
  }

  lemma AppearKeeps(c: Config, w: World, step: Step)
    requires ExactInv(c, w) && Enabled(c, w, step) && Timely(c, w, step) && step.Appear?
    ensures ExactInv(c, Apply(c, w, step))
  {
    var w' := Apply(c, w, step);
    if w.cursor.Some? {
      var hwm := w.cursor.value.value;
      assert hwm > w.seed ==> hwm in w.seen && Settled(c, w.seen[hwm], w.clock);
      assert !Covers(w, step.id);
      if w.phase.SawTail? {
        var picked := Picked(c, w.phase.snap, w.cursor.value.value, w.phase.at);
        if picked != {} {
          var top := Greatest(picked);
          assert top in w.seen && Settled(c, w.seen[top], w.clock);
        }
      }
    }
  }

  /** What an advancing commit does to one row between the old and the new cursor. */
  lemma AdvanceAccounts(c: Config, w: World, id: int)
    requires ExactInv(c, w) && w.phase.SawTail? && w.phase.rows != []
    requires id in w.view && w.cursor.value.value < id <= NewHwm(w.cursor.value.value, w.phase.rows)
    ensures var hwm := w.cursor.value.value;
            var picked := Picked(c, w.phase.snap, hwm, w.phase.at);
            && id in w.phase.snap && w.phase.snap[id] == w.view[id]
            && (id in picked <==> id !in FloorCut(c, w.phase.snap, hwm, NewHwm(hwm, w.phase.rows), w.phase.at))
  {
    var hwm := w.cursor.value.value;
    var picked := Picked(c, w.phase.snap, hwm, w.phase.at);
    FoldCounts(c, w.phase.snap, picked, w.phase.rows, hwm, map[], Labels([]));
    var top := Greatest(picked);
    PickedIsSettledPrefix(c, w.phase.snap, hwm, w.phase.at, top);
    PickedIsSettledPrefix(c, w.phase.snap, hwm, w.phase.at, id);
  }

  lemma AdvanceKeeps(c: Config, w: World)
    requires ExactInv(c, w) && ReadyToCommit(w) && Decision(w).0.Advanced?
    ensures ExactInv(c, Committed(c, w))
  {
    var w' := Committed(c, w);
    var hwm := w.cursor.value.value;
    var snap, at := w.phase.snap, w.phase.at;
    var picked := Picked(c, snap, hwm, at);
    FoldCounts(c, snap, picked, w.phase.rows, hwm, map[], Labels([]));
    var newHwm := NewHwm(hwm, w.phase.rows);
    assert newHwm == Greatest(picked) && newHwm in picked;
    var batch := BatchOf(w.gen, snap, picked);
    assert Done(w') == w.folded + batch;
    var freshCut := FloorCut(c, snap, hwm, newHwm, at);
    assert w'.cut == w.cut + freshCut;
    forall id | id in w'.view && Covers(w', id)
      ensures Counted(w.gen, id, w.view[id].labels) in Done(w') <==> id !in w'.cut
    {
      if id > hwm {
        AdvanceAccounts(c, w, id);
        assert id in picked <==> Counted(w.gen, id, w.view[id].labels) in batch;
        assert Counted(w.gen, id, w.view[id].labels) !in w.folded;
      } else {
        assert Counted(w.gen, id, w.view[id].labels) !in batch;
        assert id !in freshCut;
        assert Covers(w, id);
      }
    }
    forall x | x in Done(w') && x.gen == w'.gen ensures Covers(w', x.id) && x.id !in w'.cut {
      if x in batch {
        assert x.id in picked;
        assert x.id !in freshCut;
        assert x.id > hwm;
      } else {
        assert x in Done(w);
        assert x.id <= hwm;
      }
    }
  }

  lemma CommitKeeps(c: Config, w: World)
    requires ExactInv(c, w) && ReadyToCommit(w) && !Decision(w).0.CursorReset?
    ensures ExactInv(c, Committed(c, w))
  {
    match Decision(w).0
    case ColdStart =>
      var w' := Committed(c, w);
      assert Done(w') == w.folded;
    case Quiet =>
      assert Done(Committed(c, w)) == Done(w);
    case Advanced =>
      AdvanceKeeps(c, w);
  }

  /** Every step of such a run keeps the exact count: a lost batch (a crash
      between commit and increment) and a reset are the only exclusions. */
  lemma StepKeeps(c: Config, w: World, step: Step)
    requires ExactInv(c, w) && Enabled(c, w, step) && Timely(c, w, step)
    requires !step.Rebuild? && !(step.Crash? && w.phase.Publishing?) && !TakesReset(w, step)
    ensures ExactInv(c, Apply(c, w, step))
  {
    var w' := Apply(c, w, step);
    if step.Appear? {
      AppearKeeps(c, w, step);
    } else if step.Commit? {
      CommitKeeps(c, w);
    } else {
      assert Done(w') == Done(w);
    }
  }

  /** Steps that leave the id space and every committed batch in place. */
  ghost predicate Undisturbed(c: Config, ws: seq<World>, steps: seq<Step>)
    requires |ws| >= |steps|
  {
    forall i | 0 <= i < |steps| ::
      && Timely(c, ws[i], steps[i])
      && !steps[i].Rebuild?
      && !(steps[i].Crash? && ws[i].phase.Publishing?)
  }

  lemma {:induction false} RunKeeps(c: Config, ws: seq<World>, steps: seq<Step>, n: nat)
    requires Run(c, ws, steps) && ExactInv(c, ws[0]) && n < |ws|
    requires Undisturbed(c, ws, steps)
    requires forall i | 0 <= i < |steps| :: !TakesReset(ws[i], steps[i])
    ensures ExactInv(c, ws[n])
  {
    if n > 0 {
      RunKeeps(c, ws, steps, n - 1);
      StepKeeps(c, ws[n - 1], steps[n - 1]);
    }
  }

  /** Exactly-once tailing: in every such run from boot, at every point between
      batches, a visible row in the covered range has been folded if and only if
      the floor did not cut it, and every folded row is such a row. */
  lemma ExactlyOnce(c: Config, clock: real, ws: seq<World>, steps: seq<Step>, n: nat)
    requires Run(c, ws, steps) && ws[0] == Start(clock) && n < |ws|
    requires Undisturbed(c, ws, steps)
    requires forall i | 0 <= i < |steps| :: !TakesReset(ws[i], steps[i])
    requires !ws[n].phase.Publishing?
    ensures forall id | id in ws[n].view && Covers(ws[n], id) ::
              Counted(ws[n].gen, id, ws[n].view[id].labels) in ws[n].folded <==> id !in ws[n].cut
    ensures forall x | x in ws[n].folded && x.gen == ws[n].gen :: Covers(ws[n], x.id) && x.id !in ws[n].cut
  {
    StartIsExact(c, clock);
    RunKeeps(c, ws, steps, n);
    assert Done(ws[n]) == ws[n].folded;
  }
}
