/** The rollback-capable replacement of metric families on the heap: a family maps
    label tuples to child objects, and a backup copies the map but not the children. */
module MetricSnapshots {
  import opened Util
  import opened Ordering
  import opened SnapshotScript

  /** A child knows the family that made it and its label tuple. */
  class Child {
    const owner: Family
    const labels: Labels
    var value: Value

    constructor (owner: Family, labels: Labels, value: Value)
      ensures this.owner == owner && this.labels == labels && this.value == value
    {
      this.owner, this.labels, this.value := owner, labels, value;
    }
  }

  /** A family with label names has children; one without is a single cell. */
  class Family {
    const shape: Shape
    var children: map<Labels, Child>
    var cell: Value

    constructor (shape: Shape)
      ensures this.shape == shape && Valid() && State() == Slot(shape, Blank(shape)) && children == map[]
    {
      this.shape := shape;
      children := map[];
      cell := if shape.info then Text(map[]) else Finite(0.0);
    }

    predicate Labelled() { shape.labelnames != [] }

    /** Every child was made here, for the tuple it stands under. */
    ghost predicate Valid()
      reads this
    {
      && (Labelled() || children == map[])
      && forall labels | labels in children :: children[labels].owner == this && children[labels].labels == labels
    }

    function State(): Slot
      reads this, children.Values
    {
      Slot(shape, if Labelled() then
                    map labels | labels in children :: if labels in children then children[labels].value else NotFinite
                  else map[NoLabels := cell])
    }

    /** clear(), set(0) or info({}). */
    method Reset(ghost saved: Saved)
      requires Valid() && Owns(this, saved)
      modifies this
      ensures Valid() && State() == Slot(shape, Blank(shape)) && children == map[]
      ensures cell == if Labelled() then old(cell) else if shape.info then Text(map[]) else Finite(0.0)
      ensures Labelled() ==> Look(this, saved) == Moved(old(Look(this, saved)), Clear)
    {
      if Labelled() {
        children := map[];
      } else {
        cell := if shape.info then Text(map[]) else Finite(0.0);
      }
    }

    /** An existing child is written in place. */
    method WriteChild(labels: Labels, value: Value, ghost saved: Saved)
      requires Valid() && Labelled() && labels in children && Owns(this, saved)
      modifies children[labels]
      ensures children[labels].value == value
      ensures Valid() && State() == Changed(old(State()), Set(labels, value))
      ensures Look(this, saved) == Moved(old(Look(this, saved)), Set(labels, value))
    {
      children[labels].value := value;
    }

    method AddChild(labels: Labels, value: Value, ghost saved: Saved)
      requires Valid() && Labelled() && labels !in children && Owns(this, saved)
      modifies this`children
      ensures Valid() && State() == Changed(old(State()), Set(labels, value))
      ensures Look(this, saved) == Moved(old(Look(this, saved)), Set(labels, value))
      ensures labels in children && children[labels].value == value
      ensures fresh(children[labels]) && children == old(children)[labels := children[labels]]
    {
      var child := new Child(this, labels, value);
      children := children[labels := child];
    }

    method RemoveChild(labels: Labels, ghost saved: Saved)
      requires Valid() && Labelled() && labels in children && Owns(this, saved)
      modifies this`children
      ensures Valid() && State() == Changed(old(State()), Remove(labels)) && children == old(children) - {labels}
      ensures Look(this, saved) == Moved(old(Look(this, saved)), Remove(labels))
    {
      children := children - {labels};
    }

    /** The map of children put back, or the cell. */
    method Restore(saved: Saved)
      requires Valid() && Owns(this, saved) && (Labelled() || saved.children == map[])
      modifies this
      ensures Valid() && PutBack(this, saved)
    {
      if Labelled() {
        children := saved.children;
      } else {
        cell := saved.cell;
      }
    }

    /** The child that a change writes in place, if any. */
    function Target(change: Change): set<Child>
      reads this
    {
      if Labelled() && change.Set? && change.labels in children then {children[change.labels]} else {}
    }

    /** labels().set(), labels().info() or remove(); a change that raises does nothing. */
    method Change(change: Change, ghost saved: Saved, ghost kids: set<Child>)
      returns (ok: bool, ghost kids': set<Child>)
      requires Valid() && Owns(this, saved) && Within(this, kids)
      modifies this, Target(change)
      ensures Valid() && ok == Accepts(old(State()), change)
      ensures State() == if ok then Changed(old(State()), change) else old(State())
      ensures Labelled() ==>
                Look(this, saved) == if ok then Moved(old(Look(this, saved)), change) else old(Look(this, saved))
      ensures Within(this, kids') && kids <= kids' && fresh(kids' - kids)
      ensures old(Target(change)) != {} ==> children == old(children)
      ensures change.Clear? ==> ok
      ensures change.Set? ==>
                ok == (|change.labels.values| == |shape.labelnames| && (shape.info <==> change.value.Text?))
      ensures change.Remove? ==> ok == (Labelled() && change.labels in old(children))
    {
      kids' := kids;
      match change {
        case Clear =>
          ok := true;
          Reset(saved);
        case Set(labels, value) =>
          ok := |labels.values| == |shape.labelnames| && value.Text? == shape.info;
          if ok {
            if !Labelled() {
              assert labels == NoLabels;
              cell := value;
            } else if labels in children {
              WriteChild(labels, value, saved);
            } else {
              AddChild(labels, value, saved);
              kids' := kids + {children[labels]};
            }
          }
        case Remove(labels) =>
          ok := Labelled() && labels in children;
          if ok {
            RemoveChild(labels, saved);
          }
      }
    }
  }

  /** What the backup of a family holds: its map of children, or its cell. */
  datatype Saved = Saved(children: map<Labels, Child>, cell: Value)

  ghost predicate Owns(f: Family, saved: Saved) {
    forall labels | labels in saved.children ::
      saved.children[labels].owner == f && saved.children[labels].labels == labels
  }

  /** The backup was taken when the family held `before`. */
  ghost predicate Saves(saved: Saved, f: Family, before: Slot) {
    && Owns(f, saved) && before.shape == f.shape
    && if f.Labelled() then before.samples.Keys == saved.children.Keys
       else saved.children == map[] && before.samples == map[NoLabels := saved.cell]
  }

  /** The saved children of a labelled family as they are now. */
  ghost function Look(f: Family, saved: Saved): Residue
    reads f, saved.children.Values
  {
    Residue(Values(saved),
            set labels | labels in saved.children && labels in f.children
                         && f.children[labels] == saved.children[labels])
  }

  ghost function Values(saved: Saved): Contents
    reads saved.children.Values
  {
    map labels | labels in saved.children ::
      if labels in saved.children then saved.children[labels].value else NotFinite
  }

  // ---- many families --------------------------------------------------------------------

  function Members(families: seq<Family>): set<Family> {
    set f | f in families
  }

  function Kids(fs: set<Family>): set<Child>
    reads fs
  {
    set f, labels | f in fs && labels in f.children :: f.children[labels]
  }

  ghost predicate AllValid(fs: set<Family>)
    reads fs
  {
    forall f | f in fs :: f.Valid()
  }

  function View(fs: set<Family>): Store<Family>
    reads fs, Kids(fs)
  {
    map f | f in fs :: if f in fs then f.State() else Nowhere
  }

  predicate Targets(script: seq<Action<Family>>, fs: set<Family>) {
    forall a | a in script && a.On? :: a.family in fs
  }

  type Backups = map<Family, Saved>

  function SavedKids(backups: Backups): set<Child> {
    set f, labels | f in backups && labels in backups[f].children :: backups[f].children[labels]
  }

  /** The backups were taken when the families held `start`. */
  ghost predicate Secures(fs: set<Family>, backups: Backups, start: Store<Family>) {
    backups.Keys == fs && start.Keys == fs && forall f | f in fs :: Saves(backups[f], f, start[f])
  }

  ghost predicate Within(f: Family, kids: set<Child>)
    reads f
  {
    forall labels | labels in f.children :: f.children[labels] in kids
  }

  /** The families are what `done` makes of `start`, and so are the saved children;
      `kids` holds at least the children there are now. */
  ghost predicate Tracked(fs: set<Family>, kids: set<Child>, backups: Backups, start: Store<Family>,
                          done: seq<Action<Family>>)
    reads fs, Kids(fs), SavedKids(backups)
  {
    && Secures(fs, backups, start) && (forall f | f in fs :: f.Valid() && Within(f, kids))
    && Run(start, done) == Some(View(fs)) && Following(fs, {}, backups, start, done)
  }

  /** One action of a writer. */
  method Act(action: Action<Family>, ghost fs: set<Family>, ghost kids: set<Child>, ghost backups: Backups,
             ghost start: Store<Family>, ghost done: seq<Action<Family>>)
    returns (ok: bool, ghost kids': set<Child>)
    requires Tracked(fs, kids, backups, start, done) && (action.On? ==> action.family in fs)
    modifies fs, kids
    ensures ok == Run(start, done + [action]).Some?
    ensures Tracked(fs, kids', backups, start, if ok then done + [action] else done)
    ensures kids <= kids' && fresh(kids' - kids)
  {
    RunMore(start, done, View(fs), action);
    ok, kids' := false, kids;
    if action.On? {
      ghost var before := View(fs);
      ok, kids' := Alter(action.family, action.change, fs, kids, backups, start, done, before);
      ActMakes(action.family, action.change, ok, fs, kids', backups, start, done, before);
    }
  }

  /** The residues of all but perhaps one family are those of the script. */
  ghost predicate Following(fs: set<Family>, but: set<Family>, backups: Backups, start: Store<Family>,
                            done: seq<Action<Family>>)
    requires backups.Keys == start.Keys == fs
    reads fs, SavedKids(backups)
  {
    forall g | g in fs && g !in but && g.Labelled() :: Look(g, backups[g]) == Remains(start[g].samples, g, done)
  }

  /** A change of one family leaves the others as they are. */
  method Alter(f: Family, change: Change, ghost fs: set<Family>, ghost kids: set<Child>, ghost backups: Backups,
               ghost start: Store<Family>, ghost done: seq<Action<Family>>, ghost before: Store<Family>)
    returns (ok: bool, ghost kids': set<Child>)
    requires f in fs && Secures(fs, backups, start) && forall g | g in fs :: g.Valid() && Within(g, kids)
    requires Following(fs, {}, backups, start, done) && Displays(fs, {}, before)
    modifies f, f.Target(change)
    ensures ok == Accepts(before[f], change) && f.State() == if ok then Changed(before[f], change) else before[f]
    ensures f.Labelled() ==>
              Look(f, backups[f]) == var r := Remains(start[f].samples, f, done); if ok then Moved(r, change) else r
    ensures Following(fs, {f}, backups, start, done) && Displays(fs, {f}, before)
    ensures (forall g | g in fs :: g.Valid() && Within(g, kids')) && kids <= kids' && fresh(kids' - kids)
  {
    if f.Target(change) == {} {
      ok, kids' := AlterMap(f, change, fs, kids, backups, start, done, before);
    } else {
      kids' := kids;
      ok := AlterChild(f, change, fs, kids, backups, start, done, before);
    }
  }

  method AlterMap(f: Family, change: Change, ghost fs: set<Family>, ghost kids: set<Child>, ghost backups: Backups,
                  ghost start: Store<Family>, ghost done: seq<Action<Family>>, ghost before: Store<Family>)
    returns (ok: bool, ghost kids': set<Child>)
    requires f in fs && Secures(fs, backups, start) && forall g | g in fs :: g.Valid() && Within(g, kids)
    requires Following(fs, {}, backups, start, done) && Displays(fs, {}, before) && f.Target(change) == {}
    modifies f
    ensures ok == Accepts(before[f], change) && f.State() == if ok then Changed(before[f], change) else before[f]
    ensures f.Labelled() ==>
              Look(f, backups[f]) == var r := Remains(start[f].samples, f, done); if ok then Moved(r, change) else r
    ensures Following(fs, {f}, backups, start, done) && Displays(fs, {f}, before)
    ensures (forall g | g in fs :: g.Valid() && Within(g, kids')) && kids <= kids' && fresh(kids' - kids)
  {
    ok, kids' := f.Change(change, backups[f], kids);
  }

  method AlterChild(f: Family, change: Change, ghost fs: set<Family>, ghost kids: set<Child>, ghost backups: Backups,
                    ghost start: Store<Family>, ghost done: seq<Action<Family>>, ghost before: Store<Family>)
    returns (ok: bool)
    requires f in fs && Secures(fs, backups, start) && forall g | g in fs :: g.Valid() && Within(g, kids)
    requires Following(fs, {}, backups, start, done) && Displays(fs, {}, before) && f.Target(change) != {}
    modifies f.Target(change)
    ensures ok == Accepts(before[f], change) && f.State() == if ok then Changed(before[f], change) else before[f]
    ensures Look(f, backups[f]) == var r := Remains(start[f].samples, f, done); if ok then Moved(r, change) else r
    ensures Following(fs, {f}, backups, start, done) && Displays(fs, {f}, before)
    ensures forall g | g in fs :: g.Valid() && Within(g, kids)
  {
    forall g | g in fs && g != f
      ensures g.children.Values !! f.Target(change) && backups[g].children.Values !! f.Target(change)
    {
      Apart(f, change, g, backups[g]);
    }
    ok := |change.labels.values| == |f.shape.labelnames| && change.value.Text? == f.shape.info;
    if ok {
      f.WriteChild(change.labels, change.value, backups[f]);
    }
  }

  ghost predicate Displays(fs: set<Family>, but: set<Family>, board: Store<Family>)
    reads fs, Kids(fs)
  {
    board.Keys == fs && forall g | g in fs && g !in but :: g.State() == board[g]
  }

  lemma ActMakes(f: Family, change: Change, ok: bool, fs: set<Family>, kids: set<Child>, backups: Backups,
                 start: Store<Family>, done: seq<Action<Family>>, before: Store<Family>)
    requires Secures(fs, backups, start) && f in fs && Run(start, done) == Some(before) && before.Keys == fs
    requires ok == Accepts(before[f], change) && forall g | g in fs :: g.Valid() && Within(g, kids)
    requires Displays(fs, {f}, before) && f.State() == if ok then Changed(before[f], change) else before[f]
    requires f.Labelled() ==>
               Look(f, backups[f]) == var r := Remains(start[f].samples, f, done); if ok then Moved(r, change) else r
    requires Following(fs, {f}, backups, start, done)
    ensures Tracked(fs, kids, backups, start, if ok then done + [On(f, change)] else done)
  {
    ShownAs(f, fs, before);
    RunMore(start, done, before, On(f, change));
    if ok {
      forall g | g in fs && g.Labelled()
        ensures Look(g, backups[g]) == Remains(start[g].samples, g, done + [On(f, change)])
      {
        RemainsMore(start[g].samples, g, done, On(f, change));
      }
      assert Run(start, done + [On(f, change)]) == Some(View(fs));
    } else {
      assert View(fs) == before;
    }
  }

  /** Where all but one family read as before. */
  lemma ShownAs(f: Family, fs: set<Family>, before: Store<Family>)
    requires f in fs && Displays(fs, {f}, before)
    ensures View(fs) == before[f := f.State()]
  {
    forall g | g in fs ensures View(fs)[g] == before[f := f.State()][g] {
    }
  }

  /** A child written belongs to no other family. */
  lemma Apart(f: Family, change: Change, g: Family, saved: Saved)
    requires f != g && f.Valid() && g.Valid() && Owns(g, saved)
    ensures g.children.Values !! f.Target(change) && saved.children.Values !! f.Target(change)
  {
    assert forall c | c in f.Target(change) :: c.owner == f;
    assert forall c | c in g.children.Values :: c.owner == g;
    assert forall c | c in saved.children.Values :: c.owner == g;
  }

  /** A sequence of writers, up to the first exception. */
  method Write(writes: seq<Action<Family>>, ghost fs: set<Family>, ghost kids: set<Child>, ghost backups: Backups,
               ghost start: Store<Family>, ghost done: seq<Action<Family>>)
    returns (ok: bool, ghost done': seq<Action<Family>>, ghost kids': set<Child>)
    requires Tracked(fs, kids, backups, start, done) && Targets(writes, fs)
    modifies fs, kids
    ensures Tracked(fs, kids', backups, start, done') && kids <= kids' && fresh(kids' - kids)
    ensures Ended(start, done + writes, done', ok)
  {
    var i := 0;
    ok, done', kids' := true, done, kids;
    while ok && i < |writes|
      invariant i <= |writes| && kids <= kids' && fresh(kids' - kids)
      invariant Tracked(fs, kids', backups, start, done') && Along(start, done, writes, i, done', ok)
    {
      ghost var before := done';
      ok, kids' := Act(writes[i], fs, kids', backups, start, done');
      if ok {
        done' := done' + [writes[i]];
      }
      AlongMore(start, done, writes, i, before, ok);
      i := i + 1;
    }
    AlongAll(start, done, writes, i, done', ok);
  }

  /** The first `i` writes are performed, or all but the last, which raised. */
  ghost predicate Along(start: Store<Family>, done: seq<Action<Family>>, writes: seq<Action<Family>>, i: nat,
                        now: seq<Action<Family>>, ok: bool) {
    && i <= |writes| && Run(start, now).Some?
    && if ok then now == done + writes[..i] else Ended(start, done + writes, now, false)
  }

  lemma AlongMore(start: Store<Family>, done: seq<Action<Family>>, writes: seq<Action<Family>>, i: nat,
                  now: seq<Action<Family>>, ok: bool)
    requires Along(start, done, writes, i, now, true) && i < |writes|
    requires ok == Run(start, now + [writes[i]]).Some?
    ensures Along(start, done, writes, i + 1, if ok then now + [writes[i]] else now, ok)
  {
    assert done + writes[..i] + [writes[i]] == done + writes[..i + 1];
    assert (done + writes)[|done + writes[..i]|] == writes[i];
  }

  lemma AlongAll(start: Store<Family>, done: seq<Action<Family>>, writes: seq<Action<Family>>, i: nat,
                 now: seq<Action<Family>>, ok: bool)
    requires Along(start, done, writes, i, now, ok) && (ok ==> i == |writes|)
    ensures Ended(start, done + writes, now, ok)
  {
    assert writes[..|writes|] == writes;
  }

  /** The script was performed whole, or up to an action that raised. */
  ghost predicate Ended(start: Store<Family>, script: seq<Action<Family>>, done: seq<Action<Family>>, ok: bool) {
    Stops(start, script, done) && ok == (done == script)
  }

  /** The clears of one replacement. */
  method ClearAll(families: seq<Family>, ghost fs: set<Family>, ghost kids: set<Child>, ghost backups: Backups,
                  ghost start: Store<Family>, ghost done: seq<Action<Family>>)
    returns (ghost kids': set<Child>)
    requires Tracked(fs, kids, backups, start, done) && Members(families) <= fs
    modifies fs, kids
    ensures Tracked(fs, kids', backups, start, done + Clears(families)) && kids <= kids' && fresh(kids' - kids)
  {
    var i := 0;
    kids' := kids;
    assert done + [] == done;
    while i < |families|
      invariant i <= |families| && kids <= kids' && fresh(kids' - kids)
      invariant Tracked(fs, kids', backups, start, done + Clears(families[..i]))
    {
      OneClear(fs, start, done, families, i);
      var ok;
      ok, kids' := Act(On(families[i], Clear), fs, kids', backups, start, done + Clears(families[..i]));
      i := i + 1;
    }
    assert families[..|families|] == families;
  }

  lemma OneClear(fs: set<Family>, start: Store<Family>, done: seq<Action<Family>>, families: seq<Family>, i: nat)
    requires i < |families| && Members(families) <= fs && start.Keys == fs
    requires Run(start, done + Clears(families[..i])).Some? && Run(start, done + Clears(families[..i])).value.Keys == fs
    ensures done + Clears(families[..i]) + [On(families[i], Clear)] == done + Clears(families[..i + 1])
    ensures Run(start, done + Clears(families[..i + 1])).Some? && families[i] in fs
  {
    ClearsStep(families, i);
    var before := done + Clears(families[..i]);
    RunMore(start, before, Run(start, before).value, On(families[i], Clear));
    assert families[i] in Members(families);
    assert before + [On(families[i], Clear)] == done + (Clears(families[..i]) + [On(families[i], Clear)]);
  }

  lemma MembersStep(families: seq<Family>, i: nat)
    requires i < |families|
    ensures Members(families[..i + 1]) == Members(families[..i]) + {families[i]}
    ensures families[i] in Members(families)
  {
    assert families[..i + 1] == families[..i] + [families[i]];
  }

  /** One staged replacement: clear its families, run its writers. */
  method Replace(group: Group<Family>, ghost fs: set<Family>, ghost kids: set<Child>, ghost backups: Backups,
                 ghost start: Store<Family>, ghost done: seq<Action<Family>>)
    returns (ok: bool, ghost done': seq<Action<Family>>, ghost kids': set<Child>)
    requires Tracked(fs, kids, backups, start, done) && Members(group.families) <= fs && Targets(group.writes, fs)
    modifies fs, kids
    ensures Tracked(fs, kids', backups, start, done') && kids <= kids' && fresh(kids' - kids)
    ensures Ended(start, done + GroupScript(group), done', ok)
  {
    var distinct := Dedup(group.families);
    DedupFacts(group.families);
    kids' := ClearAll(distinct, fs, kids, backups, start, done);
    GroupJoins(done, group);
    ok, done', kids' := Write(group.writes, fs, kids', backups, start, done + Clears(distinct));
  }

  lemma GroupJoins(done: seq<Action<Family>>, group: Group<Family>)
    ensures done + Clears(Dedup(group.families)) + group.writes == done + GroupScript(group)
  {
  }

  ghost predicate Reachable(groups: seq<Group<Family>>, fs: set<Family>) {
    forall i | 0 <= i < |groups| :: Members(groups[i].families) <= fs && Targets(groups[i].writes, fs)
  }

  /** All staged replacements in order, up to the first exception. */
  method ReplaceAll(groups: seq<Group<Family>>, ghost fs: set<Family>, ghost kids: set<Child>, ghost backups: Backups,
                    ghost start: Store<Family>)
    returns (ok: bool, ghost done: seq<Action<Family>>, ghost kids': set<Child>)
    requires Tracked(fs, kids, backups, start, []) && Reachable(groups, fs)
    modifies fs, kids
    ensures Tracked(fs, kids', backups, start, done) && kids <= kids' && fresh(kids' - kids)
    ensures Ended(start, Script(groups), done, ok)
  {
    var i := 0;
    ok, done, kids' := true, [], kids;
    while i < |groups|
      invariant i <= |groups| && done == Script(groups[..i])
      invariant Tracked(fs, kids', backups, start, done) && kids <= kids' && fresh(kids' - kids)
    {
      ScriptSplits(groups, i);
      ScriptPrefix(groups, i + 1);
      ok, done, kids' := Replace(groups[i], fs, kids', backups, start, done);
      if !ok {
        StopsOn(start, Script(groups[..i + 1]), Script(groups), done);
        assert Ended(start, Script(groups), done, ok);
        return;
      }
      i := i + 1;
    }
    assert groups[..|groups|] == groups;
  }

  // ---- validation ---------------------------------------------------------------

  lemma SampleCount(f: Family)
    ensures |f.State().samples| == if f.Labelled() then |f.children| else 1
  {
    if f.Labelled() {
      assert f.State().samples.Keys == f.children.Keys;
      assert |f.State().samples| == |f.State().samples.Keys| && |f.children| == |f.children.Keys|;
    }
  }

  method ValidateCount(families: seq<Family>, ghost fs: set<Family>) returns (ok: bool)
    requires Members(families) <= fs
    ensures ok == (Samples(View(fs), families) <= 20_000)
  {
    var total, i := 0, 0;
    while i < |families|
      invariant i <= |families| && total == Samples(View(fs), families[..i]) <= MAX_SAMPLES
    {
      var family := families[i];
      MembersStep(families, i);
      SampleCount(family);
      assert families[..i + 1][..i] == families[..i];
      total := total + (if family.Labelled() then |family.children| else 1);
      i := i + 1;
      if total > MAX_SAMPLES {
        SamplesMonotone(View(fs), families, i);
        return false;
      }
    }
    assert families[..|families|] == families;
    ok := true;
  }

  method ValidateFinite(families: seq<Family>, ghost fs: set<Family>) returns (ok: bool)
    requires Members(families) == fs
    ensures ok == Sane(View(fs))
  {
    var i := 0;
    while i < |families|
      invariant i <= |families|
      invariant forall f | f in Members(families[..i]) :: AllFinite(View(fs)[f].samples)
    {
      var finite := FamilyFinite(families[i]);
      MembersStep(families, i);
      if !finite {
        assert families[i] in View(fs);
        return false;
      }
      i := i + 1;
    }
    assert families[..|families|] == families;
    ok := true;
  }

  method FamilyFinite(family: Family) returns (finite: bool)
    ensures finite == AllFinite(family.State().samples)
  {
    if !family.Labelled() {
      assert family.State().samples[NoLabels] == family.cell;
      return family.cell != NotFinite;
    }
    var todo := family.children.Keys;
    while todo != {}
      invariant todo <= family.children.Keys
      invariant forall labels | labels in family.children.Keys - todo :: family.children[labels].value != NotFinite
    {
      var labels :| labels in todo;
      if family.children[labels].value == NotFinite {
        assert family.State().samples[labels] == NotFinite;
        return false;
      }
      todo := todo - {labels};
    }
    finite := true;
  }

  // ---- the transaction ---------------------------------------------------------------

  function SavedAll(fs: set<Family>): Backups
    reads fs
  {
    map f | f in fs :: if f in fs then Saved(f.children, f.cell) else Saved(map[], NotFinite)
  }

  method Backup(families: seq<Family>) returns (backups: Backups)
    requires AllValid(Members(families))
    ensures Tracked(Members(families), Kids(Members(families)), backups, View(Members(families)), [])
    ensures backups == SavedAll(Members(families))
  {
    backups := SavedAll(Members(families));
    Begins(Members(families));
  }

  lemma Begins(fs: set<Family>)
    requires AllValid(fs)
    ensures Tracked(fs, Kids(fs), SavedAll(fs), View(fs), [])
  {
    var backups := SavedAll(fs);
    forall f | f in fs && f.Labelled() ensures Look(f, backups[f]) == Remains(View(fs)[f].samples, f, []) {
      assert Values(backups[f]) == View(fs)[f].samples;
      assert Look(f, backups[f]).there == View(fs)[f].samples.Keys;
    }
  }

  /** Writers outside a transaction, none of which raises. */
  method WriteAlone(writes: seq<Action<Family>>, ghost fs: set<Family>)
    requires AllValid(fs) && Targets(writes, fs) && Run(View(fs), writes).Some?
    modifies fs, Kids(fs)
    ensures AllValid(fs) && Run(old(View(fs)), writes) == Some(View(fs))
  {
    ghost var start := View(fs);
    Begins(fs);
    assert [] + writes == writes;
    var ok, done, _ := Write(writes, fs, Kids(fs), SavedAll(fs), start, []);
    StopsIsDone(start, writes, done);
  }

  ghost predicate PutBack(f: Family, saved: Saved)
    reads f
  {
    f.children == saved.children && (f.Labelled() || f.cell == saved.cell)
  }

  /** The saved children hold the values that the script left in them. */
  ghost predicate LeftBy(fs: set<Family>, backups: Backups, start: Store<Family>, done: seq<Action<Family>>)
    requires backups.Keys == start.Keys == fs
    reads SavedKids(backups)
  {
    forall f | f in fs && f.Labelled() :: Values(backups[f]) == Remains(start[f].samples, f, done).left
  }

  /** Puts back the maps and the cells; the children keep the values they have. */
  method Rollback(families: seq<Family>, backups: Backups, ghost start: Store<Family>, ghost done: seq<Action<Family>>)
    requires Secures(Members(families), backups, start) && AllValid(Members(families))
    requires LeftBy(Members(families), backups, start, done)
    modifies Members(families)
    ensures View(Members(families)) == RolledBack(start, done) && AllValid(Members(families))
    ensures forall f | f in Members(families) :: f.children == backups[f].children
  {
    var i := 0;
    while i < |families|
      invariant i <= |families| && AllValid(Members(families))
      invariant forall f | f in Members(families[..i]) :: PutBack(f, backups[f])
    {
      MembersStep(families, i);
      families[i].Restore(backups[families[i]]);
      i := i + 1;
    }
    assert families[..|families|] == families;
    RestoredView(Members(families), backups, start, done);
  }

  lemma RestoredView(fs: set<Family>, backups: Backups, start: Store<Family>, done: seq<Action<Family>>)
    requires Secures(fs, backups, start) && LeftBy(fs, backups, start, done)
    requires forall f | f in fs :: PutBack(f, backups[f])
    ensures View(fs) == RolledBack(start, done)
  {
    forall f | f in fs ensures f.State() == LeftSlot(start[f], f, done) {
      if f.Labelled() {
        assert f.State().samples == Values(backups[f]);
      }
    }
  }

  /** The staged replacements and then the writers that join the commit. */
  method PerformAll(groups: seq<Group<Family>>, extra: seq<Action<Family>>, ghost fs: set<Family>,
                    ghost kids: set<Child>, ghost backups: Backups, ghost start: Store<Family>)
    returns (ok: bool, ghost done: seq<Action<Family>>)
    requires Tracked(fs, kids, backups, start, []) && Reachable(groups, fs) && Targets(extra, fs)
    modifies fs, kids
    ensures Secures(fs, backups, start) && LeftBy(fs, backups, start, done) && AllValid(fs)
    ensures Run(start, done) == Some(View(fs)) && Ended(start, Script(groups) + extra, done, ok)
  {
    ghost var kids';
    ok, done, kids' := ReplaceAll(groups, fs, kids, backups, start);
    if ok {
      ok, done, kids' := Write(extra, fs, kids', backups, start, done);
    } else {
      StopsOn(start, Script(groups), Script(groups) + extra, done);
    }
  }

  method Validate(families: seq<Family>, replaced: seq<Family>, ghost fs: set<Family>) returns (ok: bool)
    requires Members(families) == fs && Members(replaced) <= fs
    ensures ok == Acceptable(Some(old(View(fs))), replaced) && View(fs) == old(View(fs))
  {
    ok := ValidateCount(replaced, fs);
    Untouched(fs);
    if ok {
      ok := ValidateFinite(families, fs);
      Untouched(fs);
    }
  }

  /** The whole commit. On success every family holds what the script makes of it. On
      failure every family has its children or its cell back, each child with the value
      left in it by the part of the script that was performed. */
  method Commit(groups: seq<Group<Family>>, extraFamilies: seq<Family>, extra: seq<Action<Family>>,
                ghost fs: set<Family>)
    returns (ok: bool)
    requires fs == Members(AllFamilies(groups)) + Members(extraFamilies) && AllValid(fs)
    requires Reachable(groups, fs) && Targets(extra, fs)
    modifies fs, Kids(fs)
    ensures AllValid(fs)
    ensures ok == Acceptable(Run(old(View(fs)), Script(groups) + extra), Dedup(AllFamilies(groups)))
    ensures ok ==> Run(old(View(fs)), Script(groups) + extra) == Some(View(fs))
    ensures !ok ==> View(fs) == RolledBack(old(View(fs)), Done(old(View(fs)), Script(groups) + extra))
    ensures !ok ==> forall f | f in fs :: f.children == old(f.children)
  {
    var replaced := Dedup(AllFamilies(groups));
    var families := Dedup(replaced + extraFamilies);
    FamiliesCovered(groups, extraFamilies);
    ghost var start := View(fs);
    var backups := Backup(families);
    ok := Guarded(groups, extra, families, replaced, fs, Kids(fs), backups, start);
  }

  /** The try block and its rollback. */
  method Guarded(groups: seq<Group<Family>>, extra: seq<Action<Family>>, families: seq<Family>, replaced: seq<Family>,
                 ghost fs: set<Family>, ghost kids: set<Child>, backups: Backups, ghost start: Store<Family>)
    returns (ok: bool)
    requires fs == Members(families) && Members(replaced) <= fs && Tracked(fs, kids, backups, start, [])
    requires Reachable(groups, fs) && Targets(extra, fs)
    modifies fs, kids
    ensures AllValid(fs) && ok == Acceptable(Run(start, Script(groups) + extra), replaced)
    ensures ok ==> Run(start, Script(groups) + extra) == Some(View(fs))
    ensures !ok ==> View(fs) == RolledBack(start, Done(start, Script(groups) + extra))
    ensures !ok ==> forall f | f in fs :: f.children == backups[f].children
  {
    ghost var done;
    ok, done := PerformAll(groups, extra, fs, kids, backups, start);
    StopsIsDone(start, Script(groups) + extra, done);
    if ok {
      ok := Validate(families, replaced, fs);
    }
    if !ok {
      Rollback(families, backups, start, done);
    }
  }

  lemma FamiliesCovered(groups: seq<Group<Family>>, extraFamilies: seq<Family>)
    ensures Members(Dedup(Dedup(AllFamilies(groups)) + extraFamilies))
            == Members(AllFamilies(groups)) + Members(extraFamilies)
    ensures Members(Dedup(AllFamilies(groups))) == Members(AllFamilies(groups))
  {
    DedupFacts(AllFamilies(groups));
    DedupFacts(Dedup(AllFamilies(groups)) + extraFamilies);
  }

  /** Nothing about the families depends on the other objects. */
  twostate lemma Untouched(fs: set<Family>)
    requires forall f | f in fs :: f.children == old(f.children) && f.cell == old(f.cell)
    requires forall c | c in old(Kids(fs)) :: c.value == old(c.value)
    ensures View(fs) == old(View(fs)) && Kids(fs) == old(Kids(fs)) && (old(AllValid(fs)) ==> AllValid(fs))
  {
    forall f | f in fs ensures f.State() == old(f.State()) {
      forall labels | labels in f.children ensures f.children[labels].value == old(f.children[labels].value) {
        assert f.children[labels] in old(Kids(fs));
      }
    }
  }
}
