/** When the reset branch is wrong: without a rebuild it recounts, and it is taken
    only because the three reads are not one snapshot or a purge was premature. */
module TailReset {
  import opened Util
  import opened TailView
  import opened TailCollector
  import opened TailProtocol
  import opened TailExactlyOnce

  /** A commit keeps the exact count if and only if it is not a reset of a
      generation some row of which was already counted. */
  lemma CommitExactIff(c: Config, w: World)
    requires ExactInv(c, w) && ReadyToCommit(w)
    ensures CountedExactly(Committed(c, w)) <==>
            !(TakesReset(w, Commit) && exists x :: x in w.folded && x.gen == w.gen)
  {
    if Decision(w).0.CursorReset? {
      var w' := Committed(c, w);
      assert forall id :: !Covers(w', id);
      assert Done(w') == w.folded;
    } else {
      CommitKeeps(c, w);
    }
  }

  /** A commit that neither starts cold nor resets, and read no minimum. */
  predicate KeepsAnchor(w: World, step: Step) {
    step.Commit? && ReadyToCommit(w) ==>
      w.phase.minId.None? && !Decision(w).0.ColdStart? && !Decision(w).0.CursorReset?
  }

  /** Whatever its outcome, a commit that read a minimum stores it as the anchor. */
  lemma CommitAnchors(c: Config, w: World, m: int)
    requires ReadyToCommit(w) && w.phase.minId == Some(m)
    ensures AnchoredAt(Committed(c, w), m)
  {
    var next := Decision(w).1;
    assert next.anchor == m;
  }

  predicate AnchoredAt(w: World, m: int) { w.cursor.Some? && w.cursor.value.anchor == m }

  lemma AnchorStays(c: Config, w: World, step: Step, m: int)
    requires Enabled(c, w, step) && KeepsAnchor(w, step) && AnchoredAt(w, m)
    ensures AnchoredAt(Apply(c, w, step), m)
  {
    if step.Commit? {
      var next := Decision(w).1;
      assert next.anchor == w.cursor.value.anchor && Committed(c, w).cursor == Some(next);
    }
  }

  lemma {:induction false} AnchorLasts(c: Config, ws: seq<World>, steps: seq<Step>, k: nat, m: int, n: nat)
    requires Run(c, ws, steps) && k <= n < |ws| && AnchoredAt(ws[k], m)
    requires forall j | k <= j < n :: KeepsAnchor(ws[j], steps[j])
    ensures AnchoredAt(ws[n], m)
  {
    if k < n {
      AnchorLasts(c, ws, steps, k, m, n - 1);
      AnchorStays(c, ws[n - 1], steps[n - 1], m);
    }
  }

  /** The anchor is a minimum read: whatever its outcome, a commit that read a minimum
      stores it, and it stays until a commit reads another, starts cold or resets. */
  lemma AnchorIsMinimum(c: Config, ws: seq<World>, steps: seq<Step>, i: nat, m: int, n: nat)
    requires Run(c, ws, steps) && i < n < |ws|
    requires steps[i].Commit? && ReadyToCommit(ws[i]) && ws[i].phase.minId == Some(m)
    requires forall j | i < j < n :: KeepsAnchor(ws[j], steps[j])
    ensures AnchoredAt(ws[n], m)
  {
    CommitAnchors(c, ws[i], m);
    assert ws[i + 1] == Apply(c, ws[i], steps[i]);
    AnchorLasts(c, ws, steps, i + 1, m, n);
  }

  /** A row `h` that stays the top of a purge prefix: present, or purged when
      settled with everything at or below it. */
  ghost predicate Topped(c: Config, w: World, h: int) {
    || h <= 0
    || h in w.view
    || (h in w.seen && Settled(c, w.seen[h], w.clock) && forall id | id in w.view :: id > h)
  }

  ghost predicate SettledBottom(c: Config, w: World, m: int) {
    m > 0 ==> m in w.seen && Settled(c, w.seen[m], w.clock) && forall id | id in w.view :: id >= m
  }

  ghost predicate PhaseBounds(c: Config, w: World) {
    match w.phase
    case Idle => true
    case Publishing(_, _) => true
    case SawMin(minId) => minId.Some? ==> SettledBottom(c, w, minId.value)
    case SawMax(minId, maxId, _, _) =>
      && (minId.Some? ==> SettledBottom(c, w, minId.value))
      && (maxId.Some? ==> Topped(c, w, maxId.value) && maxId.value >= 1)
      && (maxId.Some? && w.cursor.Some? ==> maxId.value >= w.cursor.value.value)
    case SawTail(minId, maxId, rows, snap, _, at) =>
      && w.cursor.Some?
      && (minId.Some? ==> SettledBottom(c, w, minId.value))
      && (maxId.Some? ==> maxId.value >= w.cursor.value.value)
      && var picked := Picked(c, snap, w.cursor.value.value, at);
      && IsGrouping(snap, picked, rows)
      && (picked != {} ==> Topped(c, w, Greatest(picked)))
  }

  ghost predicate BoundsInv(c: Config, w: World) {
    && ViewSeen(w)
    && (forall id | id in w.seen :: id >= 1)
    && (w.cursor.Some? ==> Topped(c, w, w.cursor.value.value) && SettledBottom(c, w, w.cursor.value.anchor))
    && (w.phase.SawMin? && w.phase.minId.Some? && w.cursor.Some? ==> w.phase.minId.value >= w.cursor.value.anchor)
    && (w.phase.SawMax? && w.phase.minId.Some? && w.cursor.Some? ==> w.phase.minId.value >= w.cursor.value.anchor)
    && (w.phase.SawTail? && w.phase.minId.Some? && w.cursor.Some? ==> w.phase.minId.value >= w.cursor.value.anchor)
    && PhaseBounds(c, w)
  }

  /** The minimum row read is settled, and a purge removes settled rows only. */
  ghost predicate Orderly(c: Config, w: World, step: Step) {
    && (step.ReadMin? && w.view != map[] ==> Settled(c, w.view[Least(w.view.Keys)], w.clock))
    && (step.Purge? ==> forall id | id in w.view && id <= step.upTo :: Settled(c, w.view[id], w.clock))
  }

  lemma ToppedKeeps(c: Config, w: World, step: Step, h: int)
    requires Topped(c, w, h) && ViewSeen(w) && Enabled(c, w, step)
    requires Timely(c, w, step) && Orderly(c, w, step) && !step.Rebuild?
    ensures Topped(c, Apply(c, w, step), h)
  {
  }

  lemma BottomKeeps(c: Config, w: World, step: Step, m: int)
    requires SettledBottom(c, w, m) && ViewSeen(w) && Enabled(c, w, step)
    requires Timely(c, w, step) && !step.Rebuild?
    ensures SettledBottom(c, Apply(c, w, step), m)
  {
  }

  lemma NoResetDecision(c: Config, w: World)
    requires BoundsInv(c, w) && ReadyToCommit(w)
    ensures !Decision(w).0.CursorReset?
  {
  }

  lemma ReadsKeepBounds(c: Config, w: World, step: Step)
    requires BoundsInv(c, w) && Enabled(c, w, step) && Timely(c, w, step) && Orderly(c, w, step)
    requires step.ReadMin? || step.ReadMax? || step.ReadTail?
    ensures BoundsInv(c, Apply(c, w, step))
  {
    var w' := Apply(c, w, step);
    if step.ReadMax? && w.view != map[] {
      assert Greatest(w.view.Keys) in w.view;
    }
    if step.ReadTail? {
      var picked := PickedNow(c, w);
      if picked != {} {
        assert Greatest(picked) in w.view;
      }
    }
  }

  lemma CommitKeepsBounds(c: Config, w: World)
    requires BoundsInv(c, w) && ReadyToCommit(w)
    ensures BoundsInv(c, Committed(c, w))
  {
    NoResetDecision(c, w);
    if Decision(w).0.Advanced? {
      var hwm := w.cursor.value.value;
      FoldCounts(c, w.phase.snap, Picked(c, w.phase.snap, hwm, w.phase.at), w.phase.rows, hwm, map[], Labels([]));
    }
  }

  lemma StepKeepsBounds(c: Config, w: World, step: Step)
    requires BoundsInv(c, w) && Enabled(c, w, step)
    requires Timely(c, w, step) && Orderly(c, w, step) && !step.Rebuild?
    ensures BoundsInv(c, Apply(c, w, step))
  {
    if step.ReadMin? || step.ReadMax? || step.ReadTail? {
      ReadsKeepBounds(c, w, step);
    } else if step.Commit? {
      CommitKeepsBounds(c, w);
    } else {
      forall h | Topped(c, w, h) ensures Topped(c, Apply(c, w, step), h) {
        ToppedKeeps(c, w, step, h);
      }
      forall m | SettledBottom(c, w, m) ensures SettledBottom(c, Apply(c, w, step), m) {
        BottomKeeps(c, w, step, m);
      }
    }
  }

  lemma {:induction false} RunKeepsBounds(c: Config, ws: seq<World>, steps: seq<Step>, n: nat)
    requires Run(c, ws, steps) && BoundsInv(c, ws[0]) && n < |ws|
    requires forall i | 0 <= i < |steps| ::
               Timely(c, ws[i], steps[i]) && Orderly(c, ws[i], steps[i]) && !steps[i].Rebuild?
    ensures BoundsInv(c, ws[n])
  {
    if n > 0 {
      RunKeepsBounds(c, ws, steps, n - 1);
      StepKeepsBounds(c, ws[n - 1], steps[n - 1]);
    }
  }

  /** No false alarm: without a rebuild, if every minimum read is settled and
      purges remove settled rows only, the reset branch is never taken, so the
      exactly-once result holds with no assumption about resets. */
  lemma NoSpuriousReset(c: Config, clock: real, ws: seq<World>, steps: seq<Step>, n: nat)
    requires Run(c, ws, steps) && ws[0] == Start(clock) && n < |ws|
    requires Undisturbed(c, ws, steps)
    requires forall i | 0 <= i < |steps| :: Orderly(c, ws[i], steps[i])
    ensures forall i | 0 <= i < |steps| :: !TakesReset(ws[i], steps[i])
    ensures ExactInv(c, ws[n])
  {
    forall i | 0 <= i < |steps| ensures !TakesReset(ws[i], steps[i]) {
      RunKeepsBounds(c, ws, steps, i);
      if steps[i].Commit? && ReadyToCommit(ws[i]) {
        NoResetDecision(c, ws[i]);
      }
    }
    StartIsExact(c, clock);
    RunKeeps(c, ws, steps, n);
  }

  // A concrete run in which the reset branch recounts. Row 5 is the only row
  // when the minimum is read, row 4 becomes visible before the tail is read.

  const SERIES := Labels(["start", "psn1"])
  const EARLY := Row(0.0, SERIES)
  const LATE := Row(1.0, SERIES)
  const BOTH: seq<Group> := [Group(SERIES, 2, 5)]

  function Plain(): Config { Config(30.0, 21600.0, labels => labels) }

  lemma BoundsOfFive()
    ensures Least({5}) == 5 && Greatest({5}) == 5 && Least({4, 5}) == 4 && Greatest({4, 5}) == 5
  {
    assert 4 in {4, 5} && 5 in {4, 5};
  }

  lemma PickedPair(view: View, hwm: int)
    requires view == map[5 := EARLY, 4 := LATE] && 0 <= hwm
    ensures hwm <= 3 ==> Picked(Plain(), view, hwm, 60.0) == {4, 5} && IsGrouping(view, {4, 5}, BOTH)
    ensures hwm >= 5 ==> Picked(Plain(), view, hwm, 60.0) == {} && IsGrouping(view, {}, [])
  {
    var c := Plain();
    forall id ensures id in Picked(c, view, hwm, 60.0) <==> id in NewRows(c, view, hwm, 60.0) {
      PickedIsSettledPrefix(c, view, hwm, 60.0, id);
    }
    if hwm <= 3 {
      assert NewRows(c, view, hwm, 60.0) == {4, 5};
      assert Members(view, {4, 5}, SERIES) == {4, 5};
      BoundsOfFive();
      assert BOTH[..0] == [] && IsPartialGrouping(view, {4, 5}, BOTH[..0]) && !Lists(BOTH[..0], SERIES);
      assert Describes(view, {4, 5}, BOTH[0]);
      assert forall id | id in {4, 5} :: Lists(BOTH, view[id].labels);
    }
    if hwm >= 5 {
      assert NewRows(c, view, hwm, 60.0) == {};
    }
  }

  /** Some undisturbed run takes `w` to `w'`. */
  ghost predicate Leads(c: Config, w: World, w': World) {
    exists ws: seq<World>, steps: seq<Step> :: Connects(c, ws, steps, w, w')
  }

  ghost predicate Connects(c: Config, ws: seq<World>, steps: seq<Step>, w: World, w': World) {
    Run(c, ws, steps) && Undisturbed(c, ws, steps) && ws[0] == w && ws[|steps|] == w'
  }

  lemma LeadsOne(c: Config, w: World, step: Step)
    requires Enabled(c, w, step) && Timely(c, w, step) && !step.Rebuild? && !step.Crash?
    ensures Leads(c, w, Apply(c, w, step))
  {
    assert Connects(c, [w, Apply(c, w, step)], [step], w, Apply(c, w, step));
  }

  lemma LeadsOn(c: Config, w: World, w': World, w'': World)
    requires Leads(c, w, w') && Leads(c, w', w'')
    ensures Leads(c, w, w'')
  {
    var ws, s :| Connects(c, ws, s, w, w');
    var vs, t :| Connects(c, vs, t, w', w'');
    var us: seq<World> := ws + vs[1..];
    var r: seq<Step> := s + t;
    forall i | 0 <= i < |r|
      ensures Enabled(c, us[i], r[i]) && us[i + 1] == Apply(c, us[i], r[i]) && Timely(c, us[i], r[i])
      ensures !r[i].Rebuild? && !(r[i].Crash? && us[i].phase.Publishing?)
    {
      if i < |s| {
        assert us[i] == ws[i] && r[i] == s[i] && us[i + 1] == ws[i + 1];
      } else {
        assert us[i] == vs[i - |s|] && r[i] == t[i - |s|] && us[i + 1] == vs[i + 1 - |s|];
      }
    }
    assert Connects(c, us, r, w, w'');
  }

  lemma LeadsThree(c: Config, w0: World, s1: Step, s2: Step, s3: Step) returns (w: World)
    requires Enabled(c, w0, s1) && Timely(c, w0, s1) && !s1.Rebuild? && !s1.Crash?
    requires var w1 := Apply(c, w0, s1); Enabled(c, w1, s2) && Timely(c, w1, s2) && !s2.Rebuild? && !s2.Crash?
    requires var w2 := Apply(c, Apply(c, w0, s1), s2);
             Enabled(c, w2, s3) && Timely(c, w2, s3) && !s3.Rebuild? && !s3.Crash?
    ensures w == Apply(c, Apply(c, Apply(c, w0, s1), s2), s3) && Leads(c, w0, w)
  {
    var w1 := Apply(c, w0, s1);
    var w2 := Apply(c, w1, s2);
    w := Apply(c, w2, s3);
    LeadsOne(c, w0, s1);
    LeadsOne(c, w1, s2);
    LeadsOne(c, w2, s3);
    LeadsOn(c, w0, w1, w2);
    LeadsOn(c, w0, w2, w);
  }

  const PAIR: View := map[5 := EARLY, 4 := LATE]

  /** Both rows visible and settled, with the given cursor, phase and tally. */
  ghost predicate PairWorld(w: World, cursor: Cursor, phase: Phase, count: nat, folded: set<Counted>) {
    && w.view == w.seen == PAIR && w.clock == 60.0 && w.gen == 0
    && w.cursor == Some(cursor) && w.phase == phase && CountOf(w.ledger, SERIES) == count
    && w.folded == folded
  }

  const NONE: set<Counted> := {}
  const TWO: set<Counted> := {Counted(0, 4, SERIES), Counted(0, 5, SERIES)}

  lemma ColdThenStaleMinimum() returns (w: World)
    ensures Leads(Plain(), Start(0.0), w)
    ensures PairWorld(w, Cursor(0, 0), SawMax(Some(5), Some(5), 0, 0.0), 0, NONE)
  {
    var c := Plain();
    BoundsOfFive();
    var w3 := LeadsThree(c, Start(0.0), ReadMin, ReadMax, Commit);
    assert w3.cursor == Some(Cursor(0, 0)) && w3.phase == Idle;
    assert map[5 := EARLY].Keys == {5};
    assert PAIR.Keys == {4, 5};
    var w6 := LeadsThree(c, w3, Appear(5, EARLY), ReadMin, Appear(4, LATE));
    assert w6.view == PAIR;
    LeadsOne(c, w6, ReadMax);
    var w7 := Apply(c, w6, ReadMax);
    LeadsOne(c, w7, Tick(60.0));
    w := Apply(c, w7, Tick(60.0));
    LeadsOn(c, Start(0.0), w3, w6);
    LeadsOn(c, Start(0.0), w6, w7);
    LeadsOn(c, Start(0.0), w7, w);
  }

  /** A batch that finds both rows above its cursor adds two to the series. */
  lemma CountPair(w: World, cursor: Cursor, phase: Phase, count: nat, folded: set<Counted>) returns (w': World)
    requires PairWorld(w, cursor, phase, count, folded) && phase.SawMax? && phase.minId.Some? && phase.gen == 0
    requires 0 <= cursor.value <= 3 && (cursor.anchor > 0 ==> phase.minId.value >= cursor.anchor)
    ensures Leads(Plain(), w, w')
    ensures PairWorld(w', Cursor(5, phase.minId.value), Idle, count + 2, folded + TWO)
  {
    var c := Plain();
    PickedPair(PAIR, cursor.value);
    BoundsOfFive();
    FoldCounts(c, PAIR, {4, 5}, BOTH, cursor.value, w.ledger, SERIES);
    assert InSeries(c, PAIR, {4, 5}, SERIES) == {4, 5};
    assert BatchOf(0, PAIR, {4, 5}) == TWO;
    w' := LeadsThree(c, w, ReadTail(BOTH), Commit, PublishBatch);
  }

  /** With the cursor on row 5 and an anchor of 5, a minimum of 4 resets it. */
  lemma ResetPair(w: World) returns (w': World)
    requires PairWorld(w, Cursor(5, 5), Idle, 2, TWO)
    ensures Leads(Plain(), w, w')
    ensures PairWorld(w', Cursor(3, 4), SawMax(Some(4), Some(5), 0, 60.0), 2, TWO)
  {
    var c := Plain();
    BoundsOfFive();
    assert PAIR.Keys == {4, 5};
    PickedPair(PAIR, 5);
    var w3 := LeadsThree(c, w, ReadMin, ReadMax, ReadTail([]));
    w' := LeadsThree(c, w3, Commit, ReadMin, ReadMax);
    LeadsOn(c, w, w3, w');
  }

  /** With no rebuild, no crash and every row visible before a higher id settles,
      two rows can be counted four times. */
  lemma ResetRecounts()
    ensures exists w :: Leads(Plain(), Start(0.0), w) && w.view.Keys == {4, 5} && w.folded == TWO
              && CountOf(w.ledger, SERIES) == 4
  {
    var c := Plain();
    var w1 := ColdThenStaleMinimum();
    var w2 := CountPair(w1, Cursor(0, 0), w1.phase, 0, NONE);
    var w3 := ResetPair(w2);
    var w4 := CountPair(w3, Cursor(3, 4), w3.phase, 2, TWO);
    LeadsOn(c, Start(0.0), w1, w2);
    LeadsOn(c, Start(0.0), w2, w3);
    LeadsOn(c, Start(0.0), w3, w4);
    assert PAIR.Keys == {4, 5};
  }
}
