/** Crashes anywhere never count a row twice, and a rebuilt id space is picked up
    again from its bottom. */
module TailCrash {
  import opened Util
  import opened TailView
  import opened TailCollector
  import opened TailProtocol
  import opened TailExactlyOnce

  ghost function FoldedIn(c: Config, rows: set<Counted>, series: Labels): set<Counted> {
    set x | x in rows && c.bound(x.labels) == series
  }

  lemma BatchSizeStep(c: Config, gen: nat, snap: View, rest: set<int>, id: int, series: Labels)
    requires id !in rest && id in snap
    ensures BatchOf(gen, snap, rest + {id}) == BatchOf(gen, snap, rest) + {Counted(gen, id, snap[id].labels)}
    ensures var hit := if c.bound(snap[id].labels) == series then 1 else 0;
            && |FoldedIn(c, BatchOf(gen, snap, rest + {id}), series)|
               == |FoldedIn(c, BatchOf(gen, snap, rest), series)| + hit
            && |InSeries(c, snap, rest + {id}, series)| == |InSeries(c, snap, rest, series)| + hit
  {
    var one := Counted(gen, id, snap[id].labels);
    var batch := BatchOf(gen, snap, rest);
    assert one !in batch;
    assert BatchOf(gen, snap, rest + {id}) == batch + {one};
    if c.bound(one.labels) == series {
      assert FoldedIn(c, batch + {one}, series) == FoldedIn(c, batch, series) + {one};
      assert InSeries(c, snap, rest + {id}, series) == InSeries(c, snap, rest, series) + {id};
    } else {
      assert FoldedIn(c, batch + {one}, series) == FoldedIn(c, batch, series);
      assert InSeries(c, snap, rest + {id}, series) == InSeries(c, snap, rest, series);
    }
  }

  /** Counting the rows of a batch by their histories or by their ids is the same. */
  lemma {:induction false} BatchSize(c: Config, gen: nat, snap: View, ids: set<int>, series: Labels)
    requires forall id | id in ids :: id in snap
    ensures |FoldedIn(c, BatchOf(gen, snap, ids), series)| == |InSeries(c, snap, ids, series)|
  {
    if ids == {} {
      assert BatchOf(gen, snap, ids) == {};
      assert InSeries(c, snap, ids, series) == {};
      assert FoldedIn(c, {}, series) == {};
    } else {
      var id := Member(ids);
      BatchSize(c, gen, snap, ids - {id}, series);
      BatchSizeStep(c, gen, snap, ids - {id}, id, series);
      assert ids == (ids - {id}) + {id};
    }
  }

  /** No (generation, id) occurs twice among the rows counted or being counted. */
  ghost predicate OncePerId(w: World) {
    forall x, y | x in Done(w) && y in Done(w) && x.gen == y.gen && x.id == y.id :: x == y
  }

  /** The counters ever incremented hold exactly the distinct rows folded. */
  ghost predicate LedgerMatches(c: Config, w: World) {
    forall series :: CountOf(w.ledger, series) == |FoldedIn(c, w.folded, series)|
  }

  ghost predicate Pending(c: Config, ledger: map<Labels, nat>, rows: seq<Group>, batch: set<Counted>) {
    forall series ::
      CountOf(Publish(c, ledger, rows), series) == CountOf(ledger, series) + |FoldedIn(c, batch, series)|
  }

  /** The rows in hand and where the cursor stands relative to everything counted. */
  ghost predicate CursorInv(c: Config, w: World) {
    && ViewSeen(w)
    && w.cursorGen <= w.gen
    && (w.phase.SawMax? || w.phase.SawTail? ==> w.cursorGen <= w.phase.gen <= w.gen)
    && (w.phase.SawTail? ==> w.cursor.Some?)
    && (w.phase.SawTail? && w.cursor.Some? ==>
          IsGrouping(w.phase.snap, Picked(c, w.phase.snap, w.cursor.value.value, w.phase.at), w.phase.rows))
    && (w.cursor.None? ==> Done(w) == {})
    && (forall x | x in Done(w) :: x.gen <= w.cursorGen)
    && (forall x | x in Done(w) && x.gen == w.cursorGen && w.cursor.Some? :: x.id <= w.cursor.value.value)
    && OncePerId(w)
    && (w.phase.Publishing? ==> w.phase.batch !! w.folded)
  }

  ghost predicate CrashInv(c: Config, w: World) {
    && CursorInv(c, w)
    && LedgerMatches(c, w)
    && (w.phase.Publishing? ==> Pending(c, w.ledger, w.phase.rows, w.phase.batch))
  }

  /** No rebuild between the reads of one batch, and no reset of an id space some row
      of which was already counted. */
  ghost predicate Honest(w: World, step: Step) {
    && (step.Rebuild? ==> !InBatch(w))
    && (TakesReset(w, step) ==> Uncounted(w, w.phase.gen))
  }

  /** No row of this generation has been counted or is being counted. */
  ghost predicate Uncounted(w: World, gen: nat) {
    forall x | x in Done(w) :: x.gen != gen
  }

  lemma AdvanceIsNew(c: Config, w: World)
    requires CursorInv(c, w) && ReadyToCommit(w) && Decision(w).0.Advanced?
    ensures CursorInv(c, Committed(c, w))
  {
    var w' := Committed(c, w);
    var hwm := w.cursor.value.value;
    var picked := Picked(c, w.phase.snap, hwm, w.phase.at);
    var batch := BatchOf(w.phase.gen, w.phase.snap, picked);
    FoldHwm(w.phase.snap, picked, w.phase.rows, hwm);
    assert Covered(w.phase.snap, picked, w.phase.rows) == picked;
    assert Done(w') == w.folded + batch;
    forall x | x in batch ensures x.id in picked && x.gen == w.phase.gen && hwm < x.id <= NewHwm(hwm, w.phase.rows) { }
    assert NewHwm(hwm, w.phase.rows) >= hwm;
  }

  lemma AdvancePends(c: Config, w: World)
    requires CursorInv(c, w) && ReadyToCommit(w) && Decision(w).0.Advanced?
    ensures var w' := Committed(c, w); Pending(c, w'.ledger, w'.phase.rows, w'.phase.batch)
  {
    var picked := Picked(c, w.phase.snap, w.cursor.value.value, w.phase.at);
    forall series
      ensures CountOf(Publish(c, w.ledger, w.phase.rows), series)
           == CountOf(w.ledger, series) + |FoldedIn(c, BatchOf(w.phase.gen, w.phase.snap, picked), series)|
    {
      FoldCounts(c, w.phase.snap, picked, w.phase.rows, w.cursor.value.value, w.ledger, series);
      BatchSize(c, w.phase.gen, w.phase.snap, picked, series);
    }
  }

  lemma FoldedUnion(c: Config, a: set<Counted>, b: set<Counted>, series: Labels)
    requires a !! b
    ensures |FoldedIn(c, a + b, series)| == |FoldedIn(c, a, series)| + |FoldedIn(c, b, series)|
  {
    assert FoldedIn(c, a + b, series) == FoldedIn(c, a, series) + FoldedIn(c, b, series);
    DisjointUnionSize(FoldedIn(c, a, series), FoldedIn(c, b, series));
  }

  lemma PublishKeepsLedger(c: Config, w: World)
    requires CrashInv(c, w) && w.phase.Publishing?
    ensures LedgerMatches(c, Apply(c, w, PublishBatch))
  {
    var w' := Apply(c, w, PublishBatch);
    forall series ensures CountOf(w'.ledger, series) == |FoldedIn(c, w'.folded, series)| {
      FoldedUnion(c, w.folded, w.phase.batch, series);
    }
  }

  lemma SubsetOnce(w: World, w': World)
    requires OncePerId(w) && Done(w') <= Done(w)
    ensures OncePerId(w')
  {
  }

  lemma OtherCommitKeepsCursor(c: Config, w: World)
    requires CursorInv(c, w) && ReadyToCommit(w) && Honest(w, Commit) && !Decision(w).0.Advanced?
    ensures CursorInv(c, Committed(c, w))
  {
    SubsetOnce(w, Committed(c, w));
  }

  lemma OtherStepKeepsCursor(c: Config, w: World, step: Step)
    requires CursorInv(c, w) && Enabled(c, w, step) && Honest(w, step) && !step.Commit?
    ensures CursorInv(c, Apply(c, w, step))
  {
    var w' := Apply(c, w, step);
    assert Done(w') <= Done(w);
    SubsetOnce(w, w');
  }

  lemma StepKeepsCrash(c: Config, w: World, step: Step)
    requires CrashInv(c, w) && Enabled(c, w, step) && Honest(w, step)
    ensures CrashInv(c, Apply(c, w, step))
  {
    if step.Commit? && Decision(w).0.Advanced? {
      AdvanceIsNew(c, w);
      AdvancePends(c, w);
    } else if step.Commit? {
      OtherCommitKeepsCursor(c, w);
    } else {
      OtherStepKeepsCursor(c, w, step);
      if step.PublishBatch? {
        PublishKeepsLedger(c, w);
      }
    }
  }

  lemma {:induction false} RunKeepsCrash(c: Config, ws: seq<World>, steps: seq<Step>, n: nat)
    requires Run(c, ws, steps) && CrashInv(c, ws[0]) && n < |ws|
    requires forall i | 0 <= i < |steps| :: Honest(ws[i], steps[i])
    ensures CrashInv(c, ws[n])
  {
    if n > 0 {
      RunKeepsCrash(c, ws, steps, n - 1);
      StepKeepsCrash(c, ws[n - 1], steps[n - 1]);
    }
  }

  lemma StartCounts(c: Config, clock: real)
    ensures CrashInv(c, Start(clock))
  {
    var w := Start(clock);
    assert Done(w) == {};
    forall s ensures CountOf(w.ledger, s) == |FoldedIn(c, w.folded, s)| {
      assert FoldedIn(c, w.folded, s) == {};
    }
  }

  /** At most once under crashes: whatever interleaving, purge, failure, rebuild
      outside a batch or crash occurs, the increments of a series over all process
      lives equal the number of distinct rows folded into it. */
  lemma AtMostOnce(c: Config, clock: real, ws: seq<World>, steps: seq<Step>, n: nat, series: Labels)
    requires Run(c, ws, steps) && ws[0] == Start(clock) && n < |ws|
    requires forall i | 0 <= i < |steps| :: Honest(ws[i], steps[i])
    ensures CountOf(ws[n].ledger, series) == |FoldedIn(c, ws[n].folded, series)|
    ensures forall x, y | x in ws[n].folded && y in ws[n].folded && x.gen == y.gen && x.id == y.id :: x == y
  {
    StartCounts(c, clock);
    RunKeepsCrash(c, ws, steps, n);
  }

  lemma {:induction false} CountersKept(c: Config, ws: seq<World>, steps: seq<Step>, n: nat)
    requires Run(c, ws, steps) && ws[0].counters == ws[0].ledger && n < |ws|
    requires forall i | 0 <= i < |steps| :: !steps[i].Crash?
    ensures ws[n].counters == ws[n].ledger
  {
    if n > 0 {
      CountersKept(c, ws, steps, n - 1);
      assert Enabled(c, ws[n - 1], steps[n - 1]);
    }
  }

  /** Exactly once, in the counters: in a run without rebuild, crash or reset, the
      published value of a series is the number of its rows that were folded, which
      are all the covered visible rows the floor did not cut, purged ones included. */
  lemma SeriesAreExact(c: Config, clock: real, ws: seq<World>, steps: seq<Step>, n: nat, series: Labels)
    requires Run(c, ws, steps) && ws[0] == Start(clock) && n < |ws| && !ws[n].phase.Publishing?
    requires Undisturbed(c, ws, steps)
    requires forall i | 0 <= i < |steps| :: !TakesReset(ws[i], steps[i]) && !steps[i].Crash?
    ensures CountOf(ws[n].counters, series) == |FoldedIn(c, ws[n].folded, series)|
    ensures forall id | id in ws[n].view && Covers(ws[n], id) && c.bound(ws[n].view[id].labels) == series ::
              Counted(ws[n].gen, id, ws[n].view[id].labels) in FoldedIn(c, ws[n].folded, series) <==> id !in ws[n].cut
  {
    AtMostOnce(c, clock, ws, steps, n, series);
    ExactlyOnce(c, clock, ws, steps, n);
    CountersKept(c, ws, steps, n);
  }

  /** A rebuilt id space is uncounted, and stays so until a cycle that read it advances:
      whatever is committed while the view is still empty changes nothing. */
  lemma RebuiltStaysUncounted(c: Config, w: World, step: Step, gen: nat)
    requires CrashInv(c, w) && Enabled(c, w, step)
    ensures step.Rebuild? ==> Uncounted(Apply(c, w, step), w.gen + 1)
    ensures Uncounted(w, gen) && !(step.Commit? && Decision(w).0.Advanced? && w.phase.gen == gen) ==>
              Uncounted(Apply(c, w, step), gen)
    ensures step.Commit? && w.phase.SawTail? && w.phase.snap == map[] ==> !Decision(w).0.Advanced?
  {
    var w' := Apply(c, w, step);
    if step.Commit? && Decision(w).0.Advanced? {
      var batch := BatchOf(w.phase.gen, w.phase.snap, Picked(c, w.phase.snap, w.cursor.value.value, w.phase.at));
      assert Done(w') == w.folded + batch;
      FoldHwm(w.phase.snap, Picked(c, w.phase.snap, w.cursor.value.value, w.phase.at), w.phase.rows,
              w.cursor.value.value);
    } else {
      assert Done(w') <= Done(w);
    }
  }

  /** A cycle under way over an id space not counted yet, with the minimum it read. It
      fell below the anchor, or else what was read since lies below the cursor. */
  ghost predicate Reseeding(w: World, cursor: Cursor, gen: nat, minId: Option<int>) {
    && w.cursor == Some(cursor) && w.gen == gen && Uncounted(w, gen)
    && var dropped := minId.Some? && cursor.anchor > 0 && minId.value < cursor.anchor;
       match w.phase
       case SawMin(m) => m == minId
       case SawMax(m, top, g, _) => m == minId && g == gen && (dropped || Below(top, cursor))
       case SawTail(m, top, rows, _, g, _) => m == minId && g == gen && (dropped || (rows == [] && Below(top, cursor)))
       case _ => false
  }

  predicate Below(top: Option<int>, cursor: Cursor) {
    top.Some? && top.value < cursor.value
  }

  /** Neither a rebuild, a failure, a crash nor the commit itself. */
  predicate MidCycle(step: Step) {
    !step.Rebuild? && !step.Fail? && !step.Crash? && !step.Commit?
  }

  /** The first test of a reset: the id space starts below the stored anchor. */
  ghost predicate StartsBelow(w: World) {
    w.view != map[] && w.cursor.Some? && 1 <= Least(w.view.Keys) < w.cursor.value.anchor
  }

  /** The second test: until the commit every row lies below the cursor, and the maximum
      is read from a view that is not empty. */
  ghost predicate StaysBelow(ws: seq<World>, steps: seq<Step>, k: nat)
    requires k <= |steps| < |ws|
  {
    && ws[0].cursor.Some?
    && (forall i, id | 0 <= i < k && id in ws[i].view :: id < ws[0].cursor.value.value)
    && forall i | 0 <= i < k && steps[i].ReadMax? :: ws[i].view != map[]
  }

  lemma NoRowsAbove(c: Config, w: World, rows: seq<Group>)
    requires w.cursor.Some? && IsGrouping(w.view, PickedNow(c, w), rows)
    requires forall id | id in w.view :: id < w.cursor.value.value
    ensures rows == []
  {
    assert PickedNow(c, w) == {};
  }

  lemma {:induction false} CycleKeepsReseeding(c: Config, ws: seq<World>, steps: seq<Step>,
                                               cursor: Cursor, gen: nat, minId: Option<int>, n: nat)
    requires Run(c, ws, steps) && 1 <= n <= |steps| && ws[0].cursor == Some(cursor)
    requires Reseeding(ws[1], cursor, gen, minId) && ws[1].phase.SawMin?
    requires (minId.Some? && cursor.anchor > 0 && minId.value < cursor.anchor) || StaysBelow(ws, steps, n)
    requires forall i | 1 <= i < n :: MidCycle(steps[i])
    ensures Reseeding(ws[n], cursor, gen, minId)
  {
    if n > 1 {
      CycleKeepsReseeding(c, ws, steps, cursor, gen, minId, n - 1);
      assert Enabled(c, ws[n - 1], steps[n - 1]) && ws[n] == Apply(c, ws[n - 1], steps[n - 1]);
      if steps[n - 1].ReadTail? && StaysBelow(ws, steps, n) {
        NoRowsAbove(c, ws[n - 1], steps[n - 1].rows);
      }
    }
  }

  /** A cycle over an id space of which nothing was counted yet, and which either test of
      a reset recognises. Cycles may have found the rebuilt view empty before. */
  ghost predicate Recovering(c: Config, ws: seq<World>, steps: seq<Step>, k: nat) {
    && Run(c, ws, steps) && 1 <= k < |steps|
    && CrashInv(c, ws[0]) && (forall i | 0 <= i < |steps| :: Honest(ws[i], steps[i]))
    && ws[0].cursor.Some? && Uncounted(ws[0], ws[0].gen)
    && (StartsBelow(ws[0]) || StaysBelow(ws, steps, k))
    && steps[0].ReadMin? && steps[k].Commit? && forall i | 1 <= i < k :: MidCycle(steps[i])
  }

  /** Recovery: such a cycle resets and reseeds just below the bottom it read, or at zero,
      and counting is exact again. */
  lemma NextCycleReseeds(c: Config, ws: seq<World>, steps: seq<Step>, k: nat)
    requires Recovering(c, ws, steps, k)
    ensures var bottom := OrZero(MinId(ws[0].view));
            && TakesReset(ws[k], steps[k])
            && ws[k + 1].cursor == Some(Cursor(Max(0, bottom - 1), bottom)) && ws[k + 1].seed == Max(0, bottom - 1)
            && (forall x | x in ws[k + 1].folded :: x.gen < ws[k + 1].gen)
    ensures ExactInv(c, ws[k + 1])
  {
    assert ws[1] == Apply(c, ws[0], steps[0]);
    CycleKeepsReseeding(c, ws, steps, ws[0].cursor.value, ws[0].gen, MinId(ws[0].view), k);
    assert Enabled(c, ws[k], steps[k]);
    assert ws[k + 1] == Apply(c, ws[k], steps[k]);
    RunKeepsCrash(c, ws, steps, k);
    assert Done(ws[k + 1]) == ws[k + 1].folded;
  }

  /** After that commit the rows of the rebuilt space are counted exactly once, by
      the same rule as from boot. */
  lemma RecoveredExactly(c: Config, ws: seq<World>, steps: seq<Step>, k: nat, n: nat)
    requires Recovering(c, ws, steps, k) && k < n < |ws|
    requires forall i | k < i < |steps| ::
               && Timely(c, ws[i], steps[i]) && !steps[i].Rebuild? && !TakesReset(ws[i], steps[i])
               && !(steps[i].Crash? && ws[i].phase.Publishing?)
    ensures ws[n].cursor.Some? ==> CountedExactly(ws[n])
  {
    NextCycleReseeds(c, ws, steps, k);
    var tail, rest := ws[k + 1..], steps[k + 1..];
    forall i | 0 <= i < |rest|
      ensures Enabled(c, tail[i], rest[i]) && tail[i + 1] == Apply(c, tail[i], rest[i])
    {
      assert tail[i] == ws[k + 1 + i] && tail[i + 1] == ws[k + 2 + i] && rest[i] == steps[k + 1 + i];
    }
    RunKeeps(c, tail, rest, n - k - 1);
  }
}
