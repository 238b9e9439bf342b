/** When no reset can find rows counted already, so that counting at most once needs no
    assumption about the collector's decisions, only about arrivals, purges and reads. */
module TailRebuild {
  import opened Util
  import opened TailView
  import opened TailCollector
  import opened TailProtocol
  import opened TailExactlyOnce
  import opened TailCrash
  import TailReset

  /** Rows arrive in order, purges and minimum reads are orderly, and no rebuild falls
      between the reads of one batch. Crashes and failures may occur anywhere. */
  ghost predicate Regular(c: Config, w: World, step: Step) {
    Timely(c, w, step) && TailReset.Orderly(c, w, step) && (step.Rebuild? ==> !InBatch(w))
  }

  predicate Advances(w: World, step: Step) {
    step.Commit? && ReadyToCommit(w) && Decision(w).0.Advanced?
  }

  /** The first batch counted of an id space has an anchor in it: its minimum was not read
      from an empty view, unless no anchor is stored. */
  ghost predicate Anchored(w: World, step: Step) {
    Advances(w, step) && w.phase.minId.None? && Uncounted(w, w.phase.gen) ==> w.cursor.value.anchor <= 0
  }

  /** Reads in hand over the present id space, of which nothing is counted yet. */
  ghost predicate FreshReads(c: Config, w: World) {
    match w.phase
    case SawMin(minId) => minId.Some? ==> TailReset.SettledBottom(c, w, minId.value)
    case SawMax(minId, _, gen, _) =>
      w.cursor.Some? ==> gen == w.gen && (minId.Some? ==> TailReset.SettledBottom(c, w, minId.value))
    case SawTail(minId, _, rows, snap, gen, at) =>
      && w.cursor.Some?
      && if gen == w.gen then
           var picked := Picked(c, snap, w.cursor.value.value, at);
           && (minId.Some? ==> TailReset.SettledBottom(c, w, minId.value))
           && IsGrouping(snap, picked, rows) && (picked != {} ==> TailReset.Topped(c, w, Greatest(picked)))
         else gen < w.gen && (Decision(w).0.CursorReset? ==> Uncounted(w, gen))
    case _ => true
  }

  ghost predicate FreshInv(c: Config, w: World) {
    ViewSeen(w) && (forall id | id in w.seen :: id >= 1) && Uncounted(w, w.gen) && FreshReads(c, w)
  }

  /** Either the cursor stands in the present id space, or nothing of it is counted. */
  ghost predicate ResetInv(c: Config, w: World) {
    TailReset.BoundsInv(c, w) || FreshInv(c, w)
  }

  lemma ResetFindsNothing(c: Config, w: World, step: Step)
    requires ResetInv(c, w) && Enabled(c, w, step) && TakesReset(w, step)
    ensures Uncounted(w, w.phase.gen)
  {
    if TailReset.BoundsInv(c, w) {
      TailReset.NoResetDecision(c, w);
    }
  }

  lemma RebuildKeeps(c: Config, w: World)
    requires ResetInv(c, w) && CrashInv(c, w) && !InBatch(w)
    ensures FreshInv(c, Apply(c, w, Rebuild))
  {
    if TailReset.BoundsInv(c, w) && ReadyToCommit(w) {
      TailReset.NoResetDecision(c, w);
    }
  }

  /** The first batch counted puts the cursor and its anchor into the id space. */
  lemma AdvanceKeeps(c: Config, w: World)
    requires FreshInv(c, w) && Advances(w, Commit) && Anchored(w, Commit) && w.phase.gen == w.gen
    ensures TailReset.BoundsInv(c, Committed(c, w))
  {
    var hwm, w' := w.cursor.value.value, Committed(c, w);
    var picked := Picked(c, w.phase.snap, hwm, w.phase.at);
    FoldCounts(c, w.phase.snap, picked, w.phase.rows, hwm, map[], Labels([]));
    var next := w'.cursor.value;
    assert next.value == Greatest(picked) && TailReset.Topped(c, w, next.value);
    assert TailReset.SettledBottom(c, w, next.anchor);
    assert TailReset.Topped(c, w', next.value) && TailReset.SettledBottom(c, w', next.anchor);
  }

  lemma OtherCommitKeeps(c: Config, w: World)
    requires FreshInv(c, w) && ReadyToCommit(w) && (Advances(w, Commit) ==> w.phase.gen != w.gen)
    ensures FreshInv(c, Committed(c, w))
  {
    if Advances(w, Commit) {
      var batch := BatchOf(w.phase.gen, w.phase.snap, Picked(c, w.phase.snap, w.cursor.value.value, w.phase.at));
      assert Done(Committed(c, w)) <= Done(w) + batch;
    } else {
      assert Done(Committed(c, w)) <= Done(w);
    }
  }

  lemma FreshReadKeeps(c: Config, w: World, step: Step)
    requires FreshInv(c, w) && Enabled(c, w, step) && Regular(c, w, step)
    requires step.ReadMin? || step.ReadMax? || step.ReadTail?
    ensures FreshInv(c, Apply(c, w, step))
  {
    assert Done(Apply(c, w, step)) <= Done(w);
    if step.ReadTail? && PickedNow(c, w) != {} {
      assert Greatest(PickedNow(c, w)) in w.view;
    }
  }

  lemma OtherFreshKeeps(c: Config, w: World, step: Step)
    requires FreshInv(c, w) && Enabled(c, w, step) && Regular(c, w, step)
    requires !step.ReadMin? && !step.ReadMax? && !step.ReadTail? && !step.Commit? && !step.Rebuild?
    ensures FreshInv(c, Apply(c, w, step))
  {
    var w' := Apply(c, w, step);
    assert Done(w') <= Done(w);
    forall h | TailReset.Topped(c, w, h) ensures TailReset.Topped(c, w', h) {
      TailReset.ToppedKeeps(c, w, step, h);
    }
    forall m | TailReset.SettledBottom(c, w, m) ensures TailReset.SettledBottom(c, w', m) {
      TailReset.BottomKeeps(c, w, step, m);
    }
  }

  lemma StepKeepsReset(c: Config, w: World, step: Step)
    requires ResetInv(c, w) && CrashInv(c, w) && Enabled(c, w, step) && Regular(c, w, step) && Anchored(w, step)
    ensures ResetInv(c, Apply(c, w, step))
  {
    if step.Rebuild? {
      RebuildKeeps(c, w);
    } else if TailReset.BoundsInv(c, w) {
      TailReset.StepKeepsBounds(c, w, step);
    } else if step.Commit? {
      if Advances(w, step) && w.phase.gen == w.gen {
        AdvanceKeeps(c, w);
      } else {
        OtherCommitKeeps(c, w);
      }
    } else if step.ReadMin? || step.ReadMax? || step.ReadTail? {
      FreshReadKeeps(c, w, step);
    } else {
      OtherFreshKeeps(c, w, step);
    }
  }

  lemma {:induction false} RunKeepsReset(c: Config, ws: seq<World>, steps: seq<Step>, n: nat)
    requires Run(c, ws, steps) && ResetInv(c, ws[0]) && CrashInv(c, ws[0]) && n < |ws|
    requires forall i | 0 <= i < |steps| :: Regular(c, ws[i], steps[i]) && Anchored(ws[i], steps[i])
    ensures ResetInv(c, ws[n]) && CrashInv(c, ws[n])
  {
    if n > 0 {
      var w, step := ws[n - 1], steps[n - 1];
      RunKeepsReset(c, ws, steps, n - 1);
      if TakesReset(w, step) {
        ResetFindsNothing(c, w, step);
      }
      StepKeepsReset(c, w, step);
      StepKeepsCrash(c, w, step);
    }
  }

  /** At most once, with rebuilds outside batches and crashes anywhere: no reset ever finds
      a counted row of the id space it reseeds. */
  lemma RebuiltAtMostOnce(c: Config, clock: real, ws: seq<World>, steps: seq<Step>, n: nat, series: Labels)
    requires Run(c, ws, steps) && ws[0] == Start(clock) && n < |ws|
    requires forall i | 0 <= i < |steps| :: Regular(c, ws[i], steps[i]) && Anchored(ws[i], steps[i])
    ensures forall i | 0 <= i < |steps| :: Honest(ws[i], steps[i])
    ensures CountOf(ws[n].ledger, series) == |FoldedIn(c, ws[n].folded, series)|
    ensures forall x, y | x in ws[n].folded && y in ws[n].folded && x.gen == y.gen && x.id == y.id :: x == y
  {
    StartCounts(c, clock);
    forall i | 0 <= i < |steps| ensures Honest(ws[i], steps[i]) {
      RunKeepsReset(c, ws, steps, i);
      if TakesReset(ws[i], steps[i]) {
        ResetFindsNothing(c, ws[i], steps[i]);
      }
    }
    AtMostOnce(c, clock, ws, steps, n, series);
  }

  /** At most once, without a rebuild and with crashes anywhere. */
  lemma PromptAtMostOnce(c: Config, clock: real, ws: seq<World>, steps: seq<Step>, n: nat, series: Labels)
    requires Run(c, ws, steps) && ws[0] == Start(clock) && n < |ws|
    requires forall i | 0 <= i < |steps| ::
               Timely(c, ws[i], steps[i]) && TailReset.Orderly(c, ws[i], steps[i]) && !steps[i].Rebuild?
    ensures forall i | 0 <= i < |steps| :: !TakesReset(ws[i], steps[i])
    ensures CountOf(ws[n].ledger, series) == |FoldedIn(c, ws[n].folded, series)|
    ensures forall x, y | x in ws[n].folded && y in ws[n].folded && x.gen == y.gen && x.id == y.id :: x == y
  {
    forall i | 0 <= i < |steps| ensures !TakesReset(ws[i], steps[i]) {
      TailReset.RunKeepsBounds(c, ws, steps, i);
      if steps[i].Commit? && ReadyToCommit(ws[i]) {
        TailReset.NoResetDecision(c, ws[i]);
      }
    }
    AtMostOnce(c, clock, ws, steps, n, series);
  }

  // Why the anchor matters. The minimum is read while the rebuilt view is empty; rows 4
  // and 6 then appear, and row 6, above the old cursor, is counted with the old anchor.

  const SERIES := Labels(["start", "psn1"])
  const OLD := Row(0.0, SERIES)
  const NEW := Row(60.0, SERIES)
  const PAIR: View := map[4 := NEW, 6 := NEW]
  const SIX: seq<Group> := [Group(SERIES, 1, 6)]
  const BOTH: seq<Group> := [Group(SERIES, 2, 6)]

  function Plain(): Config { Config(30.0, 21600.0, labels => labels) }

  /** Some regular steps lead from `w` to `w'`. */
  ghost predicate Leads(c: Config, w: World, w': World) {
    exists ws: seq<World>, steps: seq<Step> :: Connects(c, ws, steps, w, w')
  }

  ghost predicate Connects(c: Config, ws: seq<World>, steps: seq<Step>, w: World, w': World) {
    && Run(c, ws, steps) && ws[0] == w && ws[|steps|] == w'
    && forall i | 0 <= i < |steps| :: Regular(c, ws[i], steps[i]) && !steps[i].Crash?
  }

  lemma LeadsNowhere(c: Config, w: World)
    ensures Leads(c, w, w)
  {
    assert Connects(c, [w], [], w, w);
  }

  lemma LeadsOn(c: Config, w: World, mid: World, step: Step) returns (w': World)
    requires Leads(c, w, mid) && Enabled(c, mid, step) && Regular(c, mid, step) && !step.Crash?
    ensures Leads(c, w, w') && w' == Apply(c, mid, step)
  {
    var ws, steps :| Connects(c, ws, steps, w, mid);
    w' := Apply(c, mid, step);
    var more: seq<World> := ws + [w'];
    forall i | 0 <= i < |steps|
      ensures Enabled(c, more[i], steps[i]) && more[i + 1] == Apply(c, more[i], steps[i])
      ensures Regular(c, more[i], steps[i])
    {
      assert more[i] == ws[i] && more[i + 1] == ws[i + 1];
    }
    assert Connects(c, more, steps + [step], w, w');
  }

  lemma Extremes()
    ensures PAIR.Keys == {4, 6} && Least({4, 6}) == 4 && Greatest({4, 6}) == 6 && Greatest({6}) == 6
    ensures Least({5}) == 5 && Greatest({5}) == 5
  {
    assert 4 in {4, 6} && 6 in {4, 6} && 6 in {6};
  }

  lemma PickedAbove(hwm: int)
    requires hwm in {3, 5, 6}
    ensures var picked := if hwm == 3 then {4, 6} else if hwm == 5 then {6} else {};
            var rows := if hwm == 3 then BOTH else if hwm == 5 then SIX else [];
            Picked(Plain(), PAIR, hwm, 120.0) == picked && IsGrouping(PAIR, picked, rows)
  {
    var c := Plain();
    Extremes();
    forall id ensures id in Picked(c, PAIR, hwm, 120.0) <==> id in NewRows(c, PAIR, hwm, 120.0) {
      PickedIsSettledPrefix(c, PAIR, hwm, 120.0, id);
    }
    if hwm == 3 {
      assert NewRows(c, PAIR, hwm, 120.0) == {4, 6};
      Groups({4, 6}, BOTH[0]);
    } else if hwm == 5 {
      assert NewRows(c, PAIR, hwm, 120.0) == {6};
      Groups({6}, SIX[0]);
    } else {
      assert NewRows(c, PAIR, hwm, 120.0) == {};
    }
  }

  lemma Groups(ids: set<int>, g: Group)
    requires ids <= {4, 6} && ids != {} && g == Group(SERIES, |ids|, Greatest(ids))
    ensures IsGrouping(PAIR, ids, [g])
  {
    assert Members(PAIR, ids, SERIES) == ids;
    assert [g][..0] == [] && IsPartialGrouping(PAIR, ids, [g][..0]) && !Lists([g][..0], SERIES);
    assert forall id | id in ids :: Lists([g], PAIR[id].labels);
  }

  /** The rebuilt view holds both rows; the cursor, phase and count are as given. */
  ghost predicate Now(w: World, cursor: Cursor, phase: Phase, count: nat) {
    && w.view == w.seen == PAIR && w.clock == 120.0 && w.gen == 1
    && w.cursor == Some(cursor) && w.phase == phase && CountOf(w.ledger, SERIES) == count
  }

  /** From boot to a cursor on row 5, and over the rebuild to both reads. */
  lemma OverTheRebuild() returns (w: World)
    ensures Leads(Plain(), Start(0.0), w) && w.folded == {}
    ensures Now(w, Cursor(5, 5), SawMax(None, Some(6), 1, 120.0), 0)
  {
    var c := Plain();
    Extremes();
    LeadsNowhere(c, Start(0.0));
    w := LeadsOn(c, Start(0.0), Start(0.0), Appear(5, OLD));
    assert w.view.Keys == {5};
    w := LeadsOn(c, Start(0.0), w, Tick(60.0));
    w := LeadsOn(c, Start(0.0), w, ReadMin);
    w := LeadsOn(c, Start(0.0), w, ReadMax);
    w := LeadsOn(c, Start(0.0), w, Commit);
    assert w.cursor == Some(Cursor(5, 5)) && w.phase == Idle && w.clock == 60.0;
    w := LeadsOn(c, Start(0.0), w, Rebuild);
    w := LeadsOn(c, Start(0.0), w, ReadMin);
    w := LeadsOn(c, Start(0.0), w, Appear(4, NEW));
    w := LeadsOn(c, Start(0.0), w, Appear(6, NEW));
    assert w.view == w.seen == PAIR;
    w := LeadsOn(c, Start(0.0), w, Tick(60.0));
    w := LeadsOn(c, Start(0.0), w, ReadMax);
  }

  function Above(hwm: int): (set<int>, seq<Group>) {
    if hwm == 3 then ({4, 6}, BOTH) else ({6}, SIX)
  }

  /** The tail read, the commit and the increments of a batch that picks row 6. */
  lemma CommitBatch(w: World, cursor: Cursor, phase: Phase, count: nat, ids: set<int>, rows: seq<Group>)
    returns (w': World)
    requires Leads(Plain(), Start(0.0), w) && Now(w, cursor, phase, count)
    requires phase.SawMax? && phase.gen == 1 && (phase.minId.None? || phase.minId.value >= cursor.anchor)
    requires Picked(Plain(), PAIR, cursor.value, 120.0) == ids && IsGrouping(PAIR, ids, rows)
    requires rows != [] && NewHwm(cursor.value, rows) == 6
    requires CountOf(Publish(Plain(), w.ledger, rows), SERIES) == count + |ids|
    ensures Leads(Plain(), Start(0.0), w') && w'.folded == w.folded + BatchOf(1, PAIR, ids)
    ensures Now(w', Cursor(6, if phase.minId.Some? then phase.minId.value else cursor.anchor), Idle, count + |ids|)
  {
    w' := LeadsOn(Plain(), Start(0.0), w, ReadTail(rows));
    w' := LeadsOn(Plain(), Start(0.0), w', Commit);
    w' := LeadsOn(Plain(), Start(0.0), w', PublishBatch);
  }

  lemma CountBatch(w: World, cursor: Cursor, phase: Phase, count: nat) returns (w': World)
    requires Leads(Plain(), Start(0.0), w) && Now(w, cursor, phase, count) && cursor.value in {3, 5}
    requires phase.SawMax? && phase.gen == 1 && (phase.minId.None? || phase.minId.value >= cursor.anchor)
    ensures Leads(Plain(), Start(0.0), w')
    ensures var ids := Above(cursor.value).0;
            && Now(w', Cursor(6, if phase.minId.Some? then phase.minId.value else cursor.anchor), Idle, count + |ids|)
            && w'.folded == w.folded + BatchOf(1, PAIR, ids)
  {
    var (ids, rows) := Above(cursor.value);
    PickedAbove(cursor.value);
    BatchCounts(ids, rows, cursor.value, w.ledger);
    w' := CommitBatch(w, cursor, phase, count, ids, rows);
  }

  lemma BatchCounts(ids: set<int>, rows: seq<Group>, hwm: int, ledger: map<Labels, nat>)
    requires IsGrouping(PAIR, ids, rows) && 6 in ids && ids <= {4, 6} && forall id | id in ids :: id > hwm
    ensures NewHwm(hwm, rows) == 6
    ensures CountOf(Publish(Plain(), ledger, rows), SERIES) == CountOf(ledger, SERIES) + |ids|
  {
    FoldCounts(Plain(), PAIR, ids, rows, hwm, ledger, SERIES);
    assert InSeries(Plain(), PAIR, ids, SERIES) == ids;
  }

  /** A further cycle reads the minimum 4, below the old anchor, and resets. */
  lemma ResetBelow(w: World) returns (w': World)
    requires Leads(Plain(), Start(0.0), w) && Now(w, Cursor(6, 5), Idle, 1)
    ensures Leads(Plain(), Start(0.0), w') && w'.folded == w.folded
    ensures Now(w', Cursor(3, 4), SawMax(Some(4), Some(6), 1, 120.0), 1)
  {
    var c := Plain();
    PickedAbove(6);
    Extremes();
    w' := LeadsOn(c, Start(0.0), w, ReadMin);
    w' := LeadsOn(c, Start(0.0), w', ReadMax);
    w' := LeadsOn(c, Start(0.0), w', ReadTail([]));
    w' := LeadsOn(c, Start(0.0), w', Commit);
    w' := LeadsOn(c, Start(0.0), w', ReadMin);
    w' := LeadsOn(c, Start(0.0), w', ReadMax);
  }

  /** Without the anchor of the new id space a regular run counts two rows three times. */
  lemma UnanchoredRecounts()
    ensures exists w :: Leads(Plain(), Start(0.0), w) && w.view.Keys == {4, 6} && CountOf(w.ledger, SERIES) == 3
              && w.folded == BatchOf(1, PAIR, {4, 6})
  {
    Extremes();
    var w1 := OverTheRebuild();
    var w2 := CountBatch(w1, Cursor(5, 5), w1.phase, 0);
    var w3 := ResetBelow(w2);
    var w4 := CountBatch(w3, Cursor(3, 4), w3.phase, 1);
    assert w4.folded == BatchOf(1, PAIR, {4, 6});
  }
}
