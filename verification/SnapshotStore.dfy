/** Serializing live families and restoring a payload into them. */
module SnapshotStore {
  import opened Util
  import opened Ordering
  import opened SnapshotScript
  import opened SnapshotPayload
  import opened MetricSnapshots

  function ShapesOf(families: seq<Family>): (shapes: seq<Shape>)
    ensures |shapes| == |families| && forall i | 0 <= i < |families| :: shapes[i] == families[i].shape
  {
    seq(|families|, i requires 0 <= i < |families| => families[i].shape)
  }

  function ContentsOf(board: Store<Family>, families: seq<Family>): (contents: seq<Contents>)
    requires forall f | f in families :: f in board
    ensures |contents| == |families| && forall i | 0 <= i < |families| :: contents[i] == board[families[i]].samples
  {
    seq(|families|, i requires 0 <= i < |families| => board[families[i]].samples)
  }

  predicate Listable(contents: Contents) {
    forall labels | labels in contents :: !contents[labels].Text? && LabelsFit(labels)
  }

  /** The samples of one family, unless a label is too long or a value no number. */
  method ListFamily(family: Family) returns (ok: bool, samples: seq<Sample>)
    ensures ok == Listable(family.State().samples)
    ensures ok ==> Lists(samples, family.State().samples)
  {
    ghost var contents := family.State().samples;
    samples := [];
    if !family.Labelled() {
      assert contents[NoLabels] == family.cell;
      if family.cell.Text? {
        return false, [];
      }
      return true, [Sample(NoLabels, family.cell)];
    }
    SampleCount(family);
    var todo := family.children.Keys;
    while todo != {}
      invariant todo <= family.children.Keys && |samples| + |todo| == |contents|
      invariant forall i | 0 <= i < |samples| :: samples[i].labels in contents && samples[i].labels !in todo
                                                 && contents[samples[i].labels] == samples[i].value
      invariant forall i, j | 0 <= i < j < |samples| :: samples[i].labels != samples[j].labels
      invariant forall labels | labels in contents && labels !in todo :: !contents[labels].Text? && LabelsFit(labels)
    {
      var labels :| labels in todo;
      assert contents[labels] == family.children[labels].value;
      if !LabelsFit(labels) || family.children[labels].value.Text? {
        return false, [];
      }
      samples := samples + [Sample(labels, family.children[labels].value)];
      todo := todo - {labels};
    }
    ok := true;
  }

  lemma {:induction false} CountGrows(contents: seq<Contents>, n: nat)
    requires n <= |contents|
    ensures Count(contents[..n]) <= Count(contents)
  {
    if n == |contents| {
      assert contents[..n] == contents;
    } else {
      var init := contents[..|contents| - 1];
      CountGrows(init, n);
      assert init[..n] == contents[..n];
    }
  }

  lemma NameTaken(shapes: seq<Shape>, listings: seq<seq<Sample>>, i: nat)
    requires i < |shapes| && |listings| == i
    ensures shapes[i].name in Metrics(shapes[..i], listings)
            <==> exists j :: 0 <= j < i && shapes[j].name == shapes[i].name
  {
    MetricsNames(shapes[..i], listings);
  }

  /** The first `i` families are written and pass what serialization demands. */
  ghost predicate Progress(shapes: seq<Shape>, contents: seq<Contents>, i: nat, listings: seq<seq<Sample>>,
                           metrics: map<string, Json>, total: nat)
  {
    && i <= |shapes| == |contents|
    && ListsAll(shapes[..i], listings, contents[..i]) && metrics == Metrics(shapes[..i], listings)
    && total == Count(contents[..i]) <= MAX_PERSISTED
    && (forall j | 0 <= j < i :: Storable(shapes[j], contents[j]))
    && forall j, k | 0 <= j < k < i :: shapes[j].name != shapes[k].name
  }

  /** One more family: its name is new, its samples are fit, and they fit in. */
  lemma ProgressStep(shapes: seq<Shape>, contents: seq<Contents>, i: nat, listings: seq<seq<Sample>>,
                     metrics: map<string, Json>, total: nat, samples: seq<Sample>)
    requires Progress(shapes, contents, i, listings, metrics, total) && i < |shapes|
    requires Lists(samples, contents[i]) && AllFinite(contents[i]) && Listable(contents[i])
    requires shapes[i].name != "" && shapes[i].name !in metrics
    ensures total + |samples| <= MAX_PERSISTED ==>
              Progress(shapes, contents, i + 1, listings + [samples],
                       metrics[shapes[i].name := ItemJson(shapes[i], samples)], total + |samples|)
    ensures total + |samples| > MAX_PERSISTED ==> !StorableAll(shapes, contents)
  {
    assert shapes[..i + 1][..i] == shapes[..i] && contents[..i + 1][..i] == contents[..i];
    assert (listings + [samples])[..i] == listings;
    assert Count(contents[..i + 1]) == total + |samples|;
    NameTaken(shapes, listings, i);
    CountGrows(contents, i + 1);
  }

  lemma Refused(shapes: seq<Shape>, contents: seq<Contents>, i: nat, listings: seq<seq<Sample>>,
                metrics: map<string, Json>, total: nat)
    requires Progress(shapes, contents, i, listings, metrics, total) && i < |shapes|
    requires shapes[i].name == "" || shapes[i].name in metrics || !Listable(contents[i])
    ensures !StorableAll(shapes, contents)
  {
    NameTaken(shapes, listings, i);
  }

  lemma Finished(shapes: seq<Shape>, contents: seq<Contents>, listings: seq<seq<Sample>>, metrics: map<string, Json>,
                 total: nat)
    requires Progress(shapes, contents, |shapes|, listings, metrics, total)
    ensures StorableAll(shapes, contents) && ListsAll(shapes, listings, contents)
            && metrics == Metrics(shapes, listings)
  {
    assert shapes[..|shapes|] == shapes && contents[..|shapes|] == contents;
  }

  /** A snapshot of the families, or None when one cannot be persisted: a value that
      is no finite number, a label too long, a missing or repeated name, too many samples. */
  method Serialize(families: seq<Family>) returns (payload: Option<Json>)
    ensures payload.Some? <==>
            StorableAll(ShapesOf(Dedup(families)), ContentsOf(View(Members(Dedup(families))), Dedup(families)))
    ensures payload.Some? ==>
              IsSnapshot(payload.value, ShapesOf(Dedup(families)),
                         ContentsOf(View(Members(Dedup(families))), Dedup(families)))
  {
    var distinct := Dedup(families);
    ghost var fs, board := Members(distinct), View(Members(distinct));
    var finite := ValidateFinite(distinct, fs);
    Untouched(fs);
    if !finite {
      NotStorable(distinct, board);
      return None;
    }
    ghost var listings;
    payload, listings := Gather(distinct, fs, board);
    Untouched(fs);
  }

  method Gather(distinct: seq<Family>, ghost fs: set<Family>, ghost board: Store<Family>)
    returns (payload: Option<Json>, ghost listings: seq<seq<Sample>>)
    requires fs == Members(distinct) && board == View(fs) && Sane(board)
    ensures payload.Some? <==> StorableAll(ShapesOf(distinct), ContentsOf(board, distinct))
    ensures payload.Some? ==> ListsAll(ShapesOf(distinct), listings, ContentsOf(board, distinct))
                              && payload.value == Payload(ShapesOf(distinct), listings)
  {
    var metrics, total: nat, i: nat := map[], 0, 0;
    ghost var shapes, contents := ShapesOf(distinct), ContentsOf(board, distinct);
    listings := [];
    while i < |distinct|
      invariant View(fs) == board && Progress(shapes, contents, i, listings, metrics, total)
    {
      var family := distinct[i];
      var name := family.shape.name;
      assert family in fs && contents[i] == family.State().samples && shapes[i].name == name;
      assert AllFinite(contents[i]);
      var ok, samples := ListFamily(family);
      Untouched(fs);
      if name == "" || name in metrics || !ok {
        Refused(shapes, contents, i, listings, metrics, total);
        return None, [];
      }
      ProgressStep(shapes, contents, i, listings, metrics, total, samples);
      metrics := metrics[name := ItemJson(family.shape, samples)];
      listings := listings + [samples];
      total := total + |samples|;
      i := i + 1;
      if total > MAX_PERSISTED {
        return None, [];
      }
    }
    Finished(shapes, contents, listings, metrics, total);
    payload := Some(Obj(map["version" := Num(Finite(1.0)), "metrics" := Obj(metrics)]));
  }

  lemma NotStorable(families: seq<Family>, board: Store<Family>)
    requires board.Keys == Members(families) && !Sane(board)
    ensures !StorableAll(ShapesOf(families), ContentsOf(board, families))
  {
    var f :| f in board && !AllFinite(board[f].samples);
    var i :| 0 <= i < |families| && families[i] == f;
    assert ContentsOf(board, families)[i] == board[f].samples;
  }

  // ---- restoring ------------------------------------------------------------------

  /** The writers prepared for one family. */
  function WritesOf(family: Family, samples: seq<Sample>): seq<Action<Family>> {
    if samples == [] then []
    else
      var n := |samples| - 1;
      WritesOf(family, samples[..n]) + [On(family, Set(samples[n].labels, samples[n].value))]
  }

  function Writes(families: seq<Family>, prepared: seq<seq<Sample>>): seq<Action<Family>>
    requires |prepared| == |families|
  {
    if families == [] then []
    else
      var n := |families| - 1;
      Writes(families[..n], prepared[..n]) + WritesOf(families[n], prepared[n])
  }

  /** What the checks of a restore establish of the samples of one family. */
  ghost predicate Fitting(shape: Shape, samples: seq<Sample>) {
    && (forall i | 0 <= i < |samples| :: samples[i].value.Finite? && |samples[i].labels.values| == |shape.labelnames|)
    && (shape.labelnames == [] ==> |samples| == 1)
  }

  lemma {:induction false} SamplesFit(shape: Shape, items: seq<Json>, parse: string -> Option<Value>)
    requires ReadSamples(shape, items, parse).Some?
    ensures var samples := ReadSamples(shape, items, parse).value;
            |samples| == |items| && forall i | 0 <= i < |samples| ::
              samples[i].value.Finite? && |samples[i].labels.values| == |shape.labelnames|
  {
    if items != [] {
      SamplesFit(shape, items[..|items| - 1], parse);
    }
  }

  lemma {:induction false} PreparedFits(shapes: seq<Shape>, stored: map<string, Json>, parse: string -> Option<Value>)
    requires ReadItems(shapes, stored, parse).Some?
    ensures var prepared := ReadItems(shapes, stored, parse).value;
            && |prepared| == |shapes| && Total(prepared) <= MAX_PERSISTED
            && forall i | 0 <= i < |shapes| :: Fitting(shapes[i], prepared[i])
  {
    if shapes != [] {
      var n := |shapes| - 1;
      PreparedFits(shapes[..n], stored, parse);
      SamplesFit(shapes[n], stored[shapes[n].name].fields["samples"].items, parse);
      var before := ReadItems(shapes[..n], stored, parse).value;
      var last := ReadItem(shapes[n], stored[shapes[n].name], parse).value;
      assert ReadItems(shapes, stored, parse).value == before + [last];
    }
  }

  function BlankSlot(slot: Slot): Slot {
    slot.(samples := Blank(slot.shape))
  }

  function Blanked(board: Store<Family>, families: seq<Family>): Store<Family> {
    map f | f in board :: if f !in board then Nowhere else if f in families then BlankSlot(board[f]) else board[f]
  }

  lemma BlankedStep(board: Store<Family>, families: seq<Family>)
    requires families != [] && families[|families| - 1] in board
    ensures var last, before := families[|families| - 1], Blanked(board, families[..|families| - 1]);
            last in before && Blanked(board, families) == before[last := BlankSlot(before[last])]
  {
    var n := |families| - 1;
    assert families == families[..n] + [families[n]];
  }

  lemma {:induction false} ClearsRun(board: Store<Family>, families: seq<Family>)
    requires forall f | f in families :: f in board
    ensures Run(board, Clears(families)) == Some(Blanked(board, families))
  {
    if families == [] {
      assert Blanked(board, families) == board;
    } else {
      var n := |families| - 1;
      ClearsRun(board, families[..n]);
      ClearsStep(families, n);
      RunMore(board, Clears(families[..n]), Blanked(board, families[..n]), On(families[n], Clear));
      BlankedStep(board, families);
      assert families[..n + 1] == families;
    }
  }

  function Added(board: Store<Family>, f: Family, samples: seq<Sample>): Store<Family>
    requires f in board
  {
    board[f := Plus(board[f], samples)]
  }

  function Plus(slot: Slot, samples: seq<Sample>): Slot {
    slot.(samples := slot.samples + Restored(samples))
  }

  lemma {:induction false} FamilyWritesRun(board: Store<Family>, f: Family, samples: seq<Sample>)
    requires f in board && !board[f].shape.info
    requires forall i | 0 <= i < |samples| ::
               samples[i].value.Finite? && |samples[i].labels.values| == |board[f].shape.labelnames|
    ensures Run(board, WritesOf(f, samples)) == Some(Added(board, f, samples))
  {
    if samples == [] {
      assert board[f].samples + Restored(samples) == board[f].samples;
      assert Added(board, f, samples) == board;
    } else {
      var n := |samples| - 1;
      FamilyWritesRun(board, f, samples[..n]);
      var mid, change := Added(board, f, samples[..n]), Set(samples[n].labels, samples[n].value);
      var script := WritesOf(f, samples);
      assert script[..|script| - 1] == WritesOf(f, samples[..n]) && script[|script| - 1] == On(f, change);
      AddedStep(board, f, samples);
    }
  }

  lemma AddedStep(board: Store<Family>, f: Family, samples: seq<Sample>)
    requires f in board && samples != []
    ensures var last, mid := samples[|samples| - 1], Added(board, f, samples[..|samples| - 1]);
            mid[f := Changed(mid[f], Set(last.labels, last.value))] == Added(board, f, samples)
  {
    var last, init := samples[|samples| - 1], samples[..|samples| - 1];
    assert (board[f].samples + Restored(init))[last.labels := last.value] == board[f].samples + Restored(samples);
  }

  /** The board with every listing added to its family. */
  function AddedAll(board: Store<Family>, families: seq<Family>, prepared: seq<seq<Sample>>): (out: Store<Family>)
    requires |prepared| == |families| && forall f | f in families :: f in board
    ensures out.Keys == board.Keys
  {
    if families == [] then board
    else
      var n := |families| - 1;
      Added(AddedAll(board, families[..n], prepared[..n]), families[n], prepared[n])
  }

  lemma {:induction false} AddedOnce(board: Store<Family>, families: seq<Family>, prepared: seq<seq<Sample>>, f: Family)
    requires |prepared| == |families| && (forall g | g in families :: g in board) && f in board && f !in families
    ensures AddedAll(board, families, prepared)[f] == board[f]
  {
    if families != [] {
      var n := |families| - 1;
      AddedOnce(board, families[..n], prepared[..n], f);
    }
  }

  lemma {:induction false} AddedAt(board: Store<Family>, families: seq<Family>, prepared: seq<seq<Sample>>, i: nat)
    requires |prepared| == |families| && NoDuplicates(families) && i < |families|
    requires forall g | g in families :: g in board
    ensures AddedAll(board, families, prepared)[families[i]] == Plus(board[families[i]], prepared[i])
  {
    var n := |families| - 1;
    if i == n {
      assert families[n] !in families[..n];
      AddedOnce(board, families[..n], prepared[..n], families[n]);
    } else {
      AddedAt(board, families[..n], prepared[..n], i);
    }
  }

  lemma {:induction false} WritesRun(board: Store<Family>, families: seq<Family>, prepared: seq<seq<Sample>>)
    requires |prepared| == |families| && NoDuplicates(families)
    requires forall f | f in families :: f in board && !board[f].shape.info
    requires forall i | 0 <= i < |families| :: Fitting(board[families[i]].shape, prepared[i])
    ensures Run(board, Writes(families, prepared)) == Some(AddedAll(board, families, prepared))
  {
    if families != [] {
      var n := |families| - 1;
      var init, f := families[..n], families[n];
      assert families == init + [f];
      WritesRun(board, init, prepared[..n]);
      AddedOnce(board, init, prepared[..n], f);
      FamilyWritesRun(AddedAll(board, init, prepared[..n]), f, prepared[n]);
      RunJoin(board, Writes(init, prepared[..n]), WritesOf(f, prepared[n]));
    }
  }

  /** Blank contents and a fitting listing make exactly the listed contents. */
  lemma FillsBlank(shape: Shape, samples: seq<Sample>)
    requires Fitting(shape, samples) && !shape.info
    ensures Blank(shape) + Restored(samples) == Restored(samples)
    ensures |Restored(samples)| <= |samples| && AllFinite(Restored(samples))
  {
    RestoredFrom(samples);
    RestoredFinite(samples);
    RestoredSize(samples);
    if shape.labelnames == [] {
      assert samples[0].labels == NoLabels;
    }
  }

  lemma {:induction false} RestoredFinite(samples: seq<Sample>)
    requires forall i | 0 <= i < |samples| :: samples[i].value.Finite?
    ensures AllFinite(Restored(samples))
  {
    if samples != [] {
      RestoredFinite(samples[..|samples| - 1]);
    }
  }

  lemma {:induction false} RestoredSize(samples: seq<Sample>)
    ensures |Restored(samples)| <= |samples|
  {
    if samples != [] {
      var n := |samples| - 1;
      RestoredSize(samples[..n]);
      var before, after := Restored(samples[..n]), Restored(samples);
      assert after.Keys == before.Keys + {samples[n].labels};
      assert |after| == |after.Keys| && |before| == |before.Keys|;
    }
  }

  lemma {:induction false} SamplesBounded(out: Store<Family>, families: seq<Family>, prepared: seq<seq<Sample>>)
    requires |prepared| == |families| && forall i | 0 <= i < |families| ::
               families[i] in out && |out[families[i]].samples| <= |prepared[i]|
    ensures Samples(out, families) <= Total(prepared)
  {
    if families != [] {
      var n := |families| - 1;
      SamplesBounded(out, families[..n], prepared[..n]);
    }
  }

  /** Every family holds exactly the samples prepared for it. */
  ghost predicate Holds(board: Store<Family>, families: seq<Family>, prepared: seq<seq<Sample>>) {
    && |prepared| == |families|
    && forall i | 0 <= i < |families| :: families[i] in board && board[families[i]].samples == Restored(prepared[i])
  }

  lemma RestoredSlots(board: Store<Family>, families: seq<Family>, prepared: seq<seq<Sample>>, out: Store<Family>)
    requires |prepared| == |families| && NoDuplicates(families) && board.Keys == Members(families)
    requires forall f | f in board :: !board[f].shape.info
    requires forall i | 0 <= i < |families| :: Fitting(board[families[i]].shape, prepared[i])
    requires out == AddedAll(Blanked(board, families), families, prepared)
    ensures forall i | 0 <= i < |families| ::
              && out[families[i]].samples == Restored(prepared[i])
              && |out[families[i]].samples| <= |prepared[i]| && AllFinite(out[families[i]].samples)
  {
    forall i | 0 <= i < |families|
      ensures out[families[i]].samples == Restored(prepared[i])
              && |out[families[i]].samples| <= |prepared[i]| && AllFinite(out[families[i]].samples)
    {
      AddedAt(Blanked(board, families), families, prepared, i);
      FillsBlank(board[families[i]].shape, prepared[i]);
    }
  }

  /** The commit of a prepared restore always goes through, and leaves exactly what
      was prepared, whatever was there. */
  lemma RestoreRuns(board: Store<Family>, families: seq<Family>, prepared: seq<seq<Sample>>)
    requires |prepared| == |families| && NoDuplicates(families) && board.Keys == Members(families)
    requires forall f | f in board :: !board[f].shape.info
    requires Total(prepared) <= MAX_PERSISTED
    requires forall i | 0 <= i < |families| :: Fitting(board[families[i]].shape, prepared[i])
    ensures var out := Run(board, Clears(families) + Writes(families, prepared));
            Acceptable(out, families) && Holds(out.value, families, prepared)
  {
    ClearsRun(board, families);
    var cleared := Blanked(board, families);
    RunJoin(board, Clears(families), Writes(families, prepared));
    WritesRun(cleared, families, prepared);
    var out := AddedAll(cleared, families, prepared);
    RestoredSlots(board, families, prepared, out);
    SamplesBounded(out, families, prepared);
    assert Sane(out) by {
      forall f | f in out ensures AllFinite(out[f].samples) {
        var i :| 0 <= i < |families| && families[i] == f;
      }
    }
  }

  lemma {:induction false} WritesTarget(families: seq<Family>, prepared: seq<seq<Sample>>, fs: set<Family>)
    requires |prepared| == |families| && Members(families) <= fs
    ensures Targets(Writes(families, prepared), fs)
  {
    if families != [] {
      var n := |families| - 1;
      WritesTarget(families[..n], prepared[..n], fs);
      OwnWrites(families[n], prepared[n]);
    }
  }

  lemma {:induction false} OwnWrites(f: Family, samples: seq<Sample>)
    ensures forall a | a in WritesOf(f, samples) :: a.On? && a.family == f
  {
    if samples != [] {
      OwnWrites(f, samples[..|samples| - 1]);
    }
  }

  lemma OneGroup(families: seq<Family>, writes: seq<Action<Family>>)
    requires NoDuplicates(families)
    ensures AllFamilies([Group(families, writes)]) == families && Dedup(families) == families
    ensures Script([Group(families, writes)]) + [] == Clears(families) + writes
    ensures Members(AllFamilies([Group(families, writes)])) + Members([]) == Members(families)
  {
    DedupDistinct(families);
    SingleGroup(Group(families, writes));
  }

  /** A single replacement whose writers keep to its families is undone in full. */
  lemma OneGroupUndone(families: seq<Family>, writes: seq<Action<Family>>, start: Store<Family>)
    requires start.Keys == Members(families) && NoDuplicates(families)
    ensures var groups := [Group(families, writes)];
            RolledBack(start, Done(start, Script(groups) + [])) == start
  {
    var groups := [Group(families, writes)];
    OneGroup(families, writes);
    DisciplinedAlone(groups);
    DoneStops(start, Script(groups) + []);
    AllComeBack(start, groups, [], Done(start, Script(groups) + []));
  }

  lemma DisciplinedAlone(groups: seq<Group<Family>>)
    requires |groups| == 1
    ensures Disciplined(groups)
  {
    assert groups[..1] == groups;
  }

  /** An immediate replacement, outside any observation. */
  method ReplaceNow(families: seq<Family>, writes: seq<Action<Family>>, ghost fs: set<Family>) returns (ok: bool)
    requires fs == Members(families) && AllValid(fs) && NoDuplicates(families) && Targets(writes, fs)
    modifies fs, Kids(fs)
    ensures ok == Acceptable(Run(old(View(fs)), Clears(families) + writes), families)
    ensures ok ==> Run(old(View(fs)), Clears(families) + writes) == Some(View(fs))
    ensures !ok ==> View(fs) == old(View(fs))
    ensures AllValid(fs)
  {
    OneGroup(families, writes);
    OneGroupUndone(families, writes, View(fs));
    ok := Commit([Group(families, writes)], [], [], fs);
  }

  /** A rejected payload changes nothing at all; an accepted one leaves every family
      holding exactly the prepared samples, from any prior contents. */
  method Restore(families: seq<Family>, payload: Json, parse: string -> Option<Value>, ghost fs: set<Family>)
    returns (ok: bool)
    requires fs == Members(families) && AllValid(fs) && forall f | f in fs :: !f.shape.info
    modifies fs, Kids(fs)
    ensures ok == IsPayload(ShapesOf(Dedup(families)), payload, parse)
    ensures ok == Prepared(ShapesOf(Dedup(families)), payload, parse).Some?
    ensures !ok ==> View(fs) == old(View(fs))
    ensures ok ==> Holds(View(fs), Dedup(families), Prepared(ShapesOf(Dedup(families)), payload, parse).value)
    ensures AllValid(fs)
  {
    var distinct := Dedup(families);
    DedupFacts(families);
    assert fs == Members(distinct);
    AcceptedExactly(ShapesOf(distinct), payload, parse);
    var prepared := Prepared(ShapesOf(distinct), payload, parse);
    if prepared.None? {
      return false;
    }
    PreparedFits(ShapesOf(distinct), payload.fields["metrics"].fields, parse);
    RestoreRuns(View(fs), distinct, prepared.value);
    WritesTarget(distinct, prepared.value, fs);
    ok := ReplaceNow(distinct, Writes(distinct, prepared.value), fs);
  }

  /** Across a restart: what was serialized from one set of families is accepted by
      families of the same declarations and appears there unchanged. */
  lemma SnapshotSurvives(sources: seq<Family>, before: Store<Family>, targets: seq<Family>, after: Store<Family>,
                         payload: Json, parse: string -> Option<Value>)
    requires ShapesOf(targets) == ShapesOf(sources)
    requires (forall f | f in sources :: f in before) && forall f | f in targets :: f in after
    requires StorableAll(ShapesOf(sources), ContentsOf(before, sources))
    requires IsSnapshot(payload, ShapesOf(sources), ContentsOf(before, sources))
    requires forall i | 0 <= i < |sources| :: WellFormed(ShapesOf(sources)[i], ContentsOf(before, sources)[i])
    ensures var prepared := Prepared(ShapesOf(targets), payload, parse);
            && prepared.Some?
            && (Holds(after, targets, prepared.value) ==> ContentsOf(after, targets) == ContentsOf(before, sources))
  {
    var listings :| && ListsAll(ShapesOf(sources), listings, ContentsOf(before, sources))
                    && payload == Payload(ShapesOf(sources), listings);
    RoundTrip(ShapesOf(sources), listings, ContentsOf(before, sources), parse);
  }

  predicate AllWellFormed(board: Store<Family>) {
    forall f | f in board :: WellFormed(board[f].shape, board[f].samples)
  }

  /** Every accepted change keeps as many labels as names, and a cell a cell. */
  lemma {:induction false} RunKeepsWellFormed(board: Store<Family>, script: seq<Action<Family>>)
    requires AllWellFormed(board) && Run(board, script).Some?
    ensures AllWellFormed(Run(board, script).value)
  {
    if script != [] {
      RunKeepsWellFormed(board, script[..|script| - 1]);
    }
  }
}
