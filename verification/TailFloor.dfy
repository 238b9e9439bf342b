/** The backfill floor drops nothing when cycles are frequent enough. */
module TailFloor {
  import opened Util
  import opened TailView
  import opened TailCollector
  import opened TailProtocol
  import opened TailExactlyOnce

  /** `skew` bounds how far timestamps disagree with id order, `gap` the time
      between one committed read and the next tail read. */
  ghost predicate Prompt(c: Config, w: World, step: Step, skew: real, gap: real) {
    && (step.Appear? ==>
          && w.clock <= step.row.stamp + c.settle
          && (forall h | h in w.seen && h < step.id :: w.seen[h].stamp <= step.row.stamp + skew)
          && (forall h | h in w.seen && h > step.id :: step.row.stamp <= w.seen[h].stamp + skew))
    && (step.ReadTail? ==> w.clock <= w.readAt + gap)
  }

  /** Every visible row above `hwm` is younger than `since` less the allowances. */
  ghost predicate YoungAbove(c: Config, w: World, hwm: int, since: real, skew: real) {
    forall id | id in w.view && id > hwm :: w.view[id].stamp >= since - c.settle - skew
  }

  /** Timestamps follow id order up to `skew`. */
  ghost predicate InOrder(rows: View, skew: real) {
    forall i, j | i in rows && j in rows && i < j :: rows[i].stamp <= rows[j].stamp + skew
  }

  ghost predicate FloorInv(c: Config, w: World, skew: real) {
    && ViewSeen(w)
    && InOrder(w.seen, skew)
    && w.cut == {}
    && w.readAt <= w.clock
    && (w.cursor.Some? ==> YoungAbove(c, w, w.cursor.value.value, w.readAt, skew))
    && (w.phase.SawMax? ==> w.phase.at <= w.clock)
    && (w.phase.SawMax? && w.cursor.None? ==> YoungAbove(c, w, OrZero(w.phase.maxId), w.phase.at, skew))
    && (w.phase.SawTail? ==>
          && w.cursor.Some? && w.phase.at <= w.clock
          && (var hwm := w.cursor.value.value;
              FloorCut(c, w.phase.snap, hwm, NewHwm(hwm, w.phase.rows), w.phase.at) == {})
          && YoungAbove(c, w, NewHwm(w.cursor.value.value, w.phase.rows), w.phase.at, skew))
  }

  /** If the floor hides no new row, what a statement leaves unpicked is young. */
  lemma LeftoverIsYoung(c: Config, view: View, hwm: int, clock: real, skew: real, id: int)
    requires InOrder(view, skew) && skew >= 0.0
    requires id in NewRows(c, view, hwm, clock) && id !in Picked(c, view, hwm, clock)
    ensures view[id].stamp >= clock - c.settle - skew
  {
    PickedIsSettledPrefix(c, view, hwm, clock, id);
    var u :| u in NewRows(c, view, hwm, clock) && u <= id && !Settled(c, view[u], clock);
    assert u < id ==> view[u].stamp <= view[id].stamp + skew;
  }

  lemma EveryNewRowInWindow(c: Config, w: World, rows: seq<Group>, skew: real, gap: real)
    requires FloorInv(c, w, skew) && Enabled(c, w, ReadTail(rows)) && Prompt(c, w, ReadTail(rows), skew, gap)
    requires c.settle + skew + gap <= c.floor && skew >= 0.0
    ensures forall id | id in w.view && id > w.cursor.value.value :: AboveFloor(c, w.view[id], w.clock)
  {
    assert YoungAbove(c, w, w.cursor.value.value, w.readAt, skew);
  }

  /** A tail read in time sees every row above its cursor, and whatever it leaves
      above the new cursor is young. */
  lemma ReadTailKeeps(c: Config, w: World, rows: seq<Group>, skew: real, gap: real)
    requires FloorInv(c, w, skew) && Enabled(c, w, ReadTail(rows)) && Prompt(c, w, ReadTail(rows), skew, gap)
    requires c.settle + skew + gap <= c.floor && skew >= 0.0
    ensures FloorInv(c, Apply(c, w, ReadTail(rows)), skew)
  {
    var hwm := w.cursor.value.value;
    var picked := PickedNow(c, w);
    FoldHwm(w.view, picked, rows, hwm);
    var newHwm := NewHwm(hwm, rows);
    EveryNewRowInWindow(c, w, rows, skew, gap);
    assert InOrder(w.view, skew) && Covered(w.view, picked, rows) == picked;
    forall id | id in w.view && id > newHwm ensures w.view[id].stamp >= w.clock - c.settle - skew {
      assert newHwm >= hwm;
      assert id in NewRows(c, w.view, hwm, w.clock);
      LeftoverIsYoung(c, w.view, hwm, w.clock, skew, id);
    }
    assert YoungAbove(c, w, newHwm, w.clock, skew);
  }

  lemma AppearKeepsFloor(c: Config, w: World, step: Step, skew: real, gap: real)
    requires FloorInv(c, w, skew) && Enabled(c, w, step) && Prompt(c, w, step, skew, gap)
    requires step.Appear? && skew >= 0.0
    ensures FloorInv(c, Apply(c, w, step), skew)
  {
    var w' := Apply(c, w, step);
    assert step.row.stamp >= w.clock - c.settle;
    assert InOrder(w'.seen, skew);
  }

  lemma StepKeepsFloor(c: Config, w: World, step: Step, skew: real, gap: real)
    requires FloorInv(c, w, skew) && Enabled(c, w, step) && Prompt(c, w, step, skew, gap)
    requires c.settle + skew + gap <= c.floor && skew >= 0.0
    requires !step.Rebuild? && !TakesReset(w, step)
    ensures FloorInv(c, Apply(c, w, step), skew)
  {
    if step.ReadTail? {
      ReadTailKeeps(c, w, step.rows, skew, gap);
    } else if step.Appear? {
      AppearKeepsFloor(c, w, step, skew, gap);
    } else if step.ReadMax? && w.view != map[] {
      assert MaxId(w.view) == Some(Greatest(w.view.Keys));
    }
  }

  lemma {:induction false} RunKeepsFloor(c: Config, ws: seq<World>, steps: seq<Step>, skew: real, gap: real, n: nat)
    requires Run(c, ws, steps) && FloorInv(c, ws[0], skew) && n < |ws|
    requires c.settle + skew + gap <= c.floor && skew >= 0.0
    requires forall i | 0 <= i < |steps| ::
               Prompt(c, ws[i], steps[i], skew, gap) && !steps[i].Rebuild? && !TakesReset(ws[i], steps[i])
    ensures FloorInv(c, ws[n], skew)
  {
    if n > 0 {
      RunKeepsFloor(c, ws, steps, skew, gap, n - 1);
      StepKeepsFloor(c, ws[n - 1], steps[n - 1], skew, gap);
    }
  }

  /** Gap-free floor: with the delays bounded so that they add up to no more than
      the floor, no row is ever cut, and every tail read finds every row above its
      cursor inside the window. Crashes and failed cycles are allowed. */
  lemma GapFree(c: Config, clock: real, ws: seq<World>, steps: seq<Step>, skew: real, gap: real, n: nat)
    requires Run(c, ws, steps) && ws[0] == Start(clock) && n < |ws|
    requires c.settle + skew + gap <= c.floor && skew >= 0.0
    requires forall i | 0 <= i < |steps| ::
               Prompt(c, ws[i], steps[i], skew, gap) && !steps[i].Rebuild? && !TakesReset(ws[i], steps[i])
    ensures ws[n].cut == {}
    ensures n < |steps| && steps[n].ReadTail? ==>
              forall id | id in ws[n].view && id > ws[n].cursor.value.value ::
                AboveFloor(c, ws[n].view[id], ws[n].clock)
  {
    RunKeepsFloor(c, ws, steps, skew, gap, n);
    if n < |steps| && steps[n].ReadTail? {
      EveryNewRowInWindow(c, ws[n], steps[n].rows, skew, gap);
    }
  }

  /** Both results together: every covered visible row has been counted once. */
  lemma CompleteAndExact(c: Config, clock: real, ws: seq<World>, steps: seq<Step>, skew: real, gap: real, n: nat)
    requires Run(c, ws, steps) && ws[0] == Start(clock) && n < |ws| && !ws[n].phase.Publishing?
    requires c.settle + skew + gap <= c.floor && skew >= 0.0
    requires Undisturbed(c, ws, steps)
    requires forall i | 0 <= i < |steps| :: Prompt(c, ws[i], steps[i], skew, gap) && !TakesReset(ws[i], steps[i])
    ensures forall id | id in ws[n].view && Covers(ws[n], id) ::
              Counted(ws[n].gen, id, ws[n].view[id].labels) in ws[n].folded
  {
    GapFree(c, clock, ws, steps, skew, gap, n);
    ExactlyOnce(c, clock, ws, steps, n);
  }

  /** A tail statement can count anything at all exactly when the settle delay is
      shorter than the floor; the configured ranges also allow them to be equal. */
  lemma SettleMustBeBelowFloor(c: Config, hwm: int, clock: real)
    ensures (exists view: View :: Picked(c, view, hwm, clock) != {}) <==> c.settle < c.floor
  {
    if c.settle < c.floor {
      var id, row := hwm + 1, Row(clock - c.floor, Labels([]));
      var view: View := map[id := row];
      assert NewRows(c, view, hwm, clock) == {id};
      PickedIsSettledPrefix(c, view, hwm, clock, id);
      assert id in Picked(c, view, hwm, clock);
    } else {
      forall view: View ensures Picked(c, view, hwm, clock) == {} {
        forall id: int | id in NewRows(c, view, hwm, clock) ensures !Settled(c, view[id], clock) {
          assert view[id].stamp >= clock - c.floor;
        }
      }
    }
  }
}
