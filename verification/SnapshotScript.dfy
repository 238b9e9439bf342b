/** What a metric replacement means: a script of clears and writes run over the
    contents of the families, without the heap. */
module SnapshotScript {
  import opened Util
  import opened Ordering

  /** A sample value; `Text` is the payload of an info family. */
  datatype Value = Finite(number: real) | NotFinite | Text(fields: map<string, string>)

  datatype Labels = Labels(values: seq<string>)

  const MAX_SAMPLES := 20000

  const NoLabels := Labels([])

  type Contents = map<Labels, Value>

  /** What a writer may do to a family. A clear stands for the replacement itself. */
  datatype Change = Clear | Set(labels: Labels, value: Value) | Remove(labels: Labels)

  /** One action on family `F`, or an exception raised by a writer. */
  datatype Action<!F> = On(family: F, change: Change) | Raise

  /** The declaration of a family; without label names it is a single cell. */
  datatype Shape = Shape(name: string, labelnames: seq<string>, info: bool)

  /** A family as published: its declaration and its samples. */
  datatype Slot = Slot(shape: Shape, samples: Contents)

  type Store<!F> = map<F, Slot>

  function Blank(shape: Shape): Contents {
    if shape.labelnames != [] then map[]
    else map[NoLabels := if shape.info then Text(map[]) else Finite(0.0)]
  }

  /** A write needs as many labels as the family has, and the kind of value it
      holds; a removal needs an existing child, which a single cell does not have. */
  predicate Accepts(slot: Slot, change: Change) {
    match change
    case Clear => true
    case Set(labels, value) => |labels.values| == |slot.shape.labelnames| && value.Text? == slot.shape.info
    case Remove(labels) => slot.shape.labelnames != [] && labels in slot.samples
  }

  function Changed(slot: Slot, change: Change): Slot {
    match change
    case Clear => slot.(samples := Blank(slot.shape))
    case Set(labels, value) => slot.(samples := slot.samples[labels := value])
    case Remove(labels) => slot.(samples := slot.samples - {labels})
  }

  /** One action over the whole store; None when it raises. */
  function Perform<F>(store: Store<F>, action: Action<F>): Option<Store<F>> {
    if action.Raise? || action.family !in store then None
    else
      var f := action.family;
      if Accepts(store[f], action.change) then Some(store[f := Changed(store[f], action.change)]) else None
  }

  /** A script stops at the first exception. */
  function Run<F>(store: Store<F>, script: seq<Action<F>>): Option<Store<F>> {
    if script == [] then Some(store)
    else
      var n := |script| - 1;
      match Run(store, script[..n])
      case None => None
      case Some(before) => Perform(before, script[n])
  }

  /** A staged replacement: its families and what its writers do. */
  datatype Group<!F> = Group(families: seq<F>, writes: seq<Action<F>>)

  function Clears<F>(families: seq<F>): seq<Action<F>> {
    if families == [] then []
    else Clears(families[..|families| - 1]) + [On(families[|families| - 1], Clear)]
  }

  function Script<F(==)>(groups: seq<Group<F>>): seq<Action<F>> {
    if groups == [] then []
    else
      var n := |groups| - 1;
      Script(groups[..n]) + Clears(Dedup(groups[n].families)) + groups[n].writes
  }

  function AllFamilies<F>(groups: seq<Group<F>>): seq<F> {
    if groups == [] then []
    else AllFamilies(groups[..|groups| - 1]) + groups[|groups| - 1].families
  }

  /** Samples held by the listed families. */
  function Samples<F>(store: Store<F>, families: seq<F>): nat {
    if families == [] then 0
    else
      var last := families[|families| - 1];
      Samples(store, families[..|families| - 1]) + (if last in store then |store[last].samples| else 0)
  }

  predicate AllFinite(contents: Contents) {
    forall labels | labels in contents :: contents[labels] != NotFinite
  }

  /** What a commit accepts: no writer raised, the replaced families stay under the
      sample limit, and no sample of any family is infinite or not a number. */
  predicate Acceptable<F(==)>(result: Option<Store<F>>, replaced: seq<F>) {
    && result.Some?
    && Samples(result.value, replaced) <= MAX_SAMPLES
    && Sane(result.value)
  }

  predicate Sane<F>(store: Store<F>) {
    forall f | f in store :: AllFinite(store[f].samples)
  }

  lemma {:induction false} RunJoin<F>(store: Store<F>, a: seq<Action<F>>, b: seq<Action<F>>)
    ensures Run(store, a + b) ==
            (match Run(store, a) case None => None case Some(mid) => Run(mid, b))
  {
    if b == [] {
      assert a + b == a;
    } else {
      var n := |b| - 1;
      assert (a + b)[..|a + b| - 1] == a + b[..n];
      assert (a + b)[|a + b| - 1] == b[n];
      RunJoin(store, a, b[..n]);
    }
  }

  /** `done` is what was performed of a script: all of it, or up to an exception. */
  ghost predicate Stops<F>(start: Store<F>, script: seq<Action<F>>, done: seq<Action<F>>) {
    && done <= script && Run(start, done).Some?
    && (done != script ==> Run(start, done + [script[|done|]]).None?)
  }

  /** The part of a script that is performed. */
  function Done<F(==)>(start: Store<F>, script: seq<Action<F>>): seq<Action<F>> {
    if script == [] then []
    else
      var n := |script| - 1;
      var before := Done(start, script[..n]);
      if before == script[..n] && Run(start, script).Some? then script else before
  }

  lemma {:induction false} PrefixRuns<F>(start: Store<F>, script: seq<Action<F>>, n: nat)
    requires n <= |script| && Run(start, script).Some?
    ensures Run(start, script[..n]).Some?
  {
    if n == |script| {
      assert script[..n] == script;
    } else {
      var init := script[..|script| - 1];
      PrefixRuns(start, init, n);
      assert init[..n] == script[..n];
    }
  }

  lemma {:induction false} DoneStops<F>(start: Store<F>, script: seq<Action<F>>)
    ensures Stops(start, script, Done(start, script))
  {
    if script != [] {
      var n := |script| - 1;
      DoneStops(start, script[..n]);
      StopsOn(start, script[..n], script, Done(start, script[..n]));
    }
  }

  /** Stopping within a part of a script is stopping the script. */
  lemma StopsOn<F>(start: Store<F>, part: seq<Action<F>>, script: seq<Action<F>>, done: seq<Action<F>>)
    requires part <= script && Stops(start, part, done)
    ensures done != part ==> Stops(start, script, done)
    ensures done == part && |script| == |part| + 1 && Run(start, script).None? ==> Stops(start, script, done)
  {
    if done == part && |script| == |part| + 1 {
      assert script == done + [script[|done|]];
    }
  }

  lemma NextFails<F>(start: Store<F>, script: seq<Action<F>>, done: seq<Action<F>>)
    requires Stops(start, script, done) && done != script
    ensures |done| < |script| && Run(start, script[..|done| + 1]).None?
  {
    assert script[..|done| + 1] == done + [script[|done|]];
  }

  lemma EarlierRuns<F>(start: Store<F>, script: seq<Action<F>>, done: seq<Action<F>>, n: nat)
    requires done <= script && Run(start, done).Some? && n <= |done|
    ensures Run(start, script[..n]).Some?
  {
    PrefixRuns(start, done, n);
    assert done[..n] == script[..n];
  }

  lemma StopsLast<F>(start: Store<F>, script: seq<Action<F>>, done: seq<Action<F>>, other: seq<Action<F>>)
    requires Stops(start, script, done) && other <= script && Run(start, other).Some?
    ensures |other| <= |done|
  {
    if |done| < |other| {
      EarlierRuns(start, script, other, |done| + 1);
      NextFails(start, script, done);
    }
  }

  lemma StopsIsDone<F>(start: Store<F>, script: seq<Action<F>>, done: seq<Action<F>>)
    requires Stops(start, script, done)
    ensures done == Done(start, script)
    ensures Run(start, script).Some? <==> done == script
  {
    DoneStops(start, script);
    StopsLast(start, script, done, Done(start, script));
    StopsLast(start, script, Done(start, script), done);
    if Run(start, script).Some? {
      StopsLast(start, script, done, script);
    }
  }

  /** Running one more action. */
  lemma RunMore<F>(start: Store<F>, done: seq<Action<F>>, mid: Store<F>, action: Action<F>)
    requires Run(start, done) == Some(mid)
    ensures Run(start, done + [action]) == Perform(mid, action)
  {
    assert (done + [action])[..|done|] == done;
  }

  lemma ClearsStep<F>(families: seq<F>, i: nat)
    requires i < |families|
    ensures Clears(families[..i + 1]) == Clears(families[..i]) + [On(families[i], Clear)]
  {
    assert families[..i + 1][..i] == families[..i];
  }

  function GroupScript<F(==)>(group: Group<F>): seq<Action<F>> {
    Clears(Dedup(group.families)) + group.writes
  }

  lemma ScriptSplits<F>(groups: seq<Group<F>>, i: nat)
    requires i < |groups|
    ensures Script(groups[..i + 1]) == Script(groups[..i]) + GroupScript(groups[i])
  {
    assert groups[..i + 1][..i] == groups[..i];
  }

  lemma SingleGroup<F>(group: Group<F>)
    ensures Script([group]) == GroupScript(group) && AllFamilies([group]) == group.families
  {
    var groups := [group];
    ScriptSplits(groups, 0);
    assert groups[..0] == [] && groups[..1] == groups;
  }

  lemma {:induction false} ScriptPrefix<F>(groups: seq<Group<F>>, i: nat)
    requires i <= |groups|
    ensures Script(groups[..i]) <= Script(groups)
    decreases |groups| - i
  {
    if i == |groups| {
      assert groups[..i] == groups;
    } else {
      ScriptSplits(groups, i);
      ScriptPrefix(groups, i + 1);
    }
  }

  /** The effect of a script on one family, looking at nothing else. */
  function Local<F(==)>(slot: Slot, family: F, script: seq<Action<F>>): Slot {
    if script == [] then slot
    else
      var n := |script| - 1;
      var before, last := Local(slot, family, script[..n]), script[n];
      if last.On? && last.family == family then Changed(before, last.change) else before
  }

  /** Every family ends with what the script did to it alone. */
  lemma {:induction false} EffectIsLocal<F>(store: Store<F>, script: seq<Action<F>>, family: F)
    requires family in store && Run(store, script).Some?
    ensures family in Run(store, script).value
    ensures Run(store, script).value[family] == Local(store[family], family, script)
  {
    if script != [] {
      EffectIsLocal(store, script[..|script| - 1], family);
    }
  }

  lemma {:induction false} LocalShape<F>(slot: Slot, family: F, script: seq<Action<F>>)
    ensures Local(slot, family, script).shape == slot.shape
  {
    if script != [] {
      LocalShape(slot, family, script[..|script| - 1]);
    }
  }

  /** Once cleared, nothing of the earlier contents is left. */
  lemma {:induction false} ClearForgets<F>(now: Slot, past: Slot, family: F, script: seq<Action<F>>)
    requires On(family, Clear) in script && now.shape == past.shape
    ensures Local(now, family, script) == Local(past, family, script)
  {
    var n := |script| - 1;
    LocalShape(now, family, script[..n]);
    LocalShape(past, family, script[..n]);
    if script[n] != On(family, Clear) {
      assert script == script[..n] + [script[n]];
      ClearForgets(now, past, family, script[..n]);
    }
  }

  lemma {:induction false} ScriptClears<F>(groups: seq<Group<F>>, family: F)
    requires family in AllFamilies(groups)
    ensures On(family, Clear) in Script(groups)
  {
    var n := |groups| - 1;
    if family in groups[n].families {
      DedupFacts(groups[n].families);
      ClearsEach(Dedup(groups[n].families), family);
    } else {
      ScriptClears(groups[..n], family);
    }
  }

  lemma {:induction false} ClearsEach<F>(families: seq<F>, family: F)
    requires family in families
    ensures On(family, Clear) in Clears(families)
  {
    var n := |families| - 1;
    if family != families[n] {
      assert families == families[..n] + [families[n]];
      ClearsEach(families[..n], family);
    }
  }

  /** A replacement leaves in every replaced family exactly what its writers put
      there, whatever was published before. */
  lemma OutputIgnoresPast<F>(store: Store<F>, groups: seq<Group<F>>, extra: seq<Action<F>>, family: F, past: Slot)
    requires family in AllFamilies(groups) && family in store && past.shape == store[family].shape
    requires Run(store, Script(groups) + extra).Some?
    ensures family in Run(store, Script(groups) + extra).value
    ensures Run(store, Script(groups) + extra).value[family]
            == Local(past, family, Script(groups) + extra)
  {
    ScriptClears(groups, family);
    EffectIsLocal(store, Script(groups) + extra, family);
    ClearForgets(store[family], past, family, Script(groups) + extra);
  }

  /** A family no action names is left as it was. */
  lemma {:induction false} UntouchedStays<F>(slot: Slot, family: F, script: seq<Action<F>>)
    requires forall a | a in script && a.On? :: a.family != family
    ensures Local(slot, family, script) == slot
  {
    if script != [] {
      UntouchedStays(slot, family, script[..|script| - 1]);
      assert script[|script| - 1] in script;
    }
  }

  // ---- what a rollback leaves --------------------------------------------------------

  /** The child that stood at `labels` at the start is still there. */
  predicate Attached<F(==)>(family: F, labels: Labels, script: seq<Action<F>>) {
    script == [] ||
    (var n := |script| - 1;
     Attached(family, labels, script[..n]) && script[n] != On(family, Clear) && script[n] != On(family, Remove(labels)))
  }

  predicate Writes<F(==)>(action: Action<F>, family: F, labels: Labels) {
    action.On? && action.family == family && action.change.Set? && action.change.labels == labels
  }

  /** The value in that child after a script: the last one written while it was there. */
  function Leftover<F(==)>(value: Value, family: F, labels: Labels, script: seq<Action<F>>): Value {
    if script == [] then value
    else
      var n := |script| - 1;
      if Writes(script[n], family, labels) && Attached(family, labels, script[..n]) then script[n].change.value
      else Leftover(value, family, labels, script[..n])
  }

  /** A family after a rollback. A single cell is put back whole; of a labelled family
      the children are put back, each with the value left in it. */
  function LeftSlot<F(==)>(slot: Slot, family: F, done: seq<Action<F>>): Slot {
    if slot.shape.labelnames == [] then slot else slot.(samples := Remains(slot.samples, family, done).left)
  }

  const Nowhere := Slot(Shape("", [], false), map[])

  function RolledBack<F(==)>(start: Store<F>, done: seq<Action<F>>): Store<F> {
    map f | f in start :: if f in start then LeftSlot(start[f], f, done) else Nowhere
  }

  /** The children saved at the start, as they are now: their values, and which of them
      still stand in their place. */
  datatype Residue = Residue(left: Contents, there: set<Labels>)

  function Moved(r: Residue, change: Change): Residue {
    match change
    case Clear => r.(there := {})
    case Set(labels, value) => if labels in r.there then r.(left := r.left[labels := value]) else r
    case Remove(labels) => r.(there := r.there - {labels})
  }

  function Remains<F(==)>(samples: Contents, family: F, script: seq<Action<F>>): Residue {
    if script == [] then Residue(samples, samples.Keys)
    else
      var n := |script| - 1;
      var before := Remains(samples, family, script[..n]);
      if script[n].On? && script[n].family == family then Moved(before, script[n].change) else before
  }

  lemma RemainsMore<F>(samples: Contents, family: F, done: seq<Action<F>>, action: Action<F>)
    ensures Remains(samples, family, done + [action])
            == if action.On? && action.family == family then Moved(Remains(samples, family, done), action.change)
               else Remains(samples, family, done)
  {
    assert (done + [action])[..|done|] == done;
  }

  /** The residue, child by child. */
  lemma {:induction false} RemainsIsLeftover<F>(samples: Contents, family: F, script: seq<Action<F>>)
    ensures var r := Remains(samples, family, script);
            && r.left.Keys == samples.Keys && r.there <= samples.Keys
            && forall labels | labels in samples ::
                 && (labels in r.there <==> Attached(family, labels, script))
                 && r.left[labels] == Leftover(samples[labels], family, labels, script)
  {
    if script != [] {
      RemainsIsLeftover(samples, family, script[..|script| - 1]);
    }
  }

  /** The value left differs only through a write that reached the child, and is then
      the last such write: the exact condition for a rollback to bring it back. */
  lemma {:induction false} LeftoverIsLastWrite<F>(value: Value, family: F, labels: Labels, script: seq<Action<F>>)
    ensures var left := Leftover(value, family, labels, script);
            || (left == value && forall i | 0 <= i < |script| :: !Reaches(script, i, family, labels))
            || exists i :: && 0 <= i < |script| && Reaches(script, i, family, labels) && left == script[i].change.value
                           && forall j | i < j < |script| :: !Reaches(script, j, family, labels)
  {
    if script != [] {
      var n := |script| - 1;
      LeftoverIsLastWrite(value, family, labels, script[..n]);
      forall i | 0 <= i < n ensures Reaches(script[..n], i, family, labels) == Reaches(script, i, family, labels) {
        assert script[..n][..i] == script[..i];
      }
    }
  }

  /** Action `i` writes the child that stood there at the start. */
  predicate Reaches<F(==)>(script: seq<Action<F>>, i: nat, family: F, labels: Labels)
    requires i < |script|
  {
    Writes(script[i], family, labels) && Attached(family, labels, script[..i])
  }

  /** No action writes the family before it is cleared. */
  predicate ClearedFirst<F(==)>(family: F, script: seq<Action<F>>) {
    forall i | 0 <= i < |script| && script[i].On? && script[i].family == family && !script[i].change.Clear? ::
      On(family, Clear) in script[..i]
  }

  lemma {:induction false} ClearDetaches<F>(family: F, labels: Labels, script: seq<Action<F>>)
    requires On(family, Clear) in script
    ensures !Attached(family, labels, script)
  {
    var n := |script| - 1;
    if script[n] != On(family, Clear) {
      assert script == script[..n] + [script[n]];
      ClearDetaches(family, labels, script[..n]);
    }
  }

  /** A family cleared before it is written comes back with labels and values. */
  lemma ClearedComesBack<F>(slot: Slot, family: F, done: seq<Action<F>>)
    requires ClearedFirst(family, done)
    ensures LeftSlot(slot, family, done) == slot
  {
    RemainsIsLeftover(slot.samples, family, done);
    forall labels | labels in slot.samples
      ensures Leftover(slot.samples[labels], family, labels, done) == slot.samples[labels]
    {
      LeftoverIsLastWrite(slot.samples[labels], family, labels, done);
      forall i | 0 <= i < |done| ensures !Reaches(done, i, family, labels) {
        if Writes(done[i], family, labels) {
          ClearDetaches(family, labels, done[..i]);
        }
      }
    }
    assert Remains(slot.samples, family, done).left == slot.samples;
  }

  lemma ClearedFirstPrefix<F>(family: F, script: seq<Action<F>>, done: seq<Action<F>>)
    requires ClearedFirst(family, script) && done <= script
    ensures ClearedFirst(family, done)
  {
    forall i | 0 <= i < |done| ensures done[..i] == script[..i] {
    }
  }

  /** The writers of a replacement write a replaced family only once it is cleared. */
  ghost predicate Disciplined<F>(groups: seq<Group<F>>) {
    forall i | 0 <= i < |groups| :: KeepsTo(groups[i].writes, AllFamilies(groups), AllFamilies(groups[..i + 1]))
  }

  predicate KeepsTo<F(==)>(writes: seq<Action<F>>, replaced: seq<F>, cleared: seq<F>) {
    forall a | a in writes && a.On? && a.family in replaced :: a.family in cleared
  }

  lemma JoinClearedFirst<F>(family: F, a: seq<Action<F>>, b: seq<Action<F>>)
    requires ClearedFirst(family, a)
    requires On(family, Clear) in a || forall x | x in b && x.On? && x.family == family :: x.change.Clear?
    ensures ClearedFirst(family, a + b)
  {
    var ab := a + b;
    forall i | 0 <= i < |ab| && ab[i].On? && ab[i].family == family && !ab[i].change.Clear?
      ensures On(family, Clear) in ab[..i]
    {
      if i < |a| {
        assert ab[..i] == a[..i];
      } else {
        assert ab[i] == b[i - |a|] && ab[..i] == a + b[..i - |a|];
      }
    }
  }

  lemma {:induction false} OnlyClears<F>(families: seq<F>)
    ensures forall a | a in Clears(families) :: a.On? && a.change.Clear?
  {
    if families != [] {
      OnlyClears(families[..|families| - 1]);
    }
  }

  lemma {:induction false} ReplacedClearedFirst<F>(groups: seq<Group<F>>, family: F, i: nat)
    requires Disciplined(groups) && family in AllFamilies(groups) && i <= |groups|
    ensures ClearedFirst(family, Script(groups[..i]))
  {
    if i > 0 {
      var group := groups[i - 1];
      ReplacedClearedFirst(groups, family, i - 1);
      ScriptSplits(groups, i - 1);
      if family in AllFamilies(groups[..i]) {
        ClearBefore(groups, family, i);
      } else {
        assert KeepsTo(group.writes, AllFamilies(groups), AllFamilies(groups[..i]));
      }
      GroupClearedFirst(family, Script(groups[..i - 1]), Dedup(group.families), group.writes);
    }
  }

  lemma GroupClearedFirst<F>(family: F, earlier: seq<Action<F>>, families: seq<F>, writes: seq<Action<F>>)
    requires ClearedFirst(family, earlier)
    requires || On(family, Clear) in earlier + Clears(families)
             || forall a | a in writes && a.On? :: a.family != family
    ensures ClearedFirst(family, earlier + (Clears(families) + writes))
  {
    OnlyClears(families);
    JoinClearedFirst(family, earlier, Clears(families));
    JoinClearedFirst(family, earlier + Clears(families), writes);
    assert earlier + Clears(families) + writes == earlier + (Clears(families) + writes);
  }

  lemma ClearBefore<F>(groups: seq<Group<F>>, family: F, i: nat)
    requires 0 < i <= |groups| && family in AllFamilies(groups[..i])
    ensures On(family, Clear) in Script(groups[..i - 1]) + Clears(Dedup(groups[i - 1].families))
  {
    assert groups[..i][..i - 1] == groups[..i - 1];
    if family in groups[i - 1].families {
      DedupFacts(groups[i - 1].families);
      ClearsEach(Dedup(groups[i - 1].families), family);
    } else {
      ScriptClears(groups[..i - 1], family);
    }
  }

  /** After a rollback every replaced family has its labels and values back. */
  lemma ReplacedComesBack<F>(start: Store<F>, groups: seq<Group<F>>, extra: seq<Action<F>>, done: seq<Action<F>>,
                             family: F)
    requires Disciplined(groups) && family in AllFamilies(groups) && family in start
    requires done <= Script(groups) + extra
    ensures RolledBack(start, done)[family] == start[family]
  {
    ReplacedClearedFirst(groups, family, |groups|);
    assert groups[..|groups|] == groups;
    ScriptClears(groups, family);
    JoinClearedFirst(family, Script(groups), extra);
    ClearedFirstPrefix(family, Script(groups) + extra, done);
    ClearedComesBack(start[family], family, done);
  }

  lemma AllComeBack<F>(start: Store<F>, groups: seq<Group<F>>, extra: seq<Action<F>>, done: seq<Action<F>>)
    requires Disciplined(groups) && done <= Script(groups) + extra
    requires forall f | f in start :: f in AllFamilies(groups)
    ensures RolledBack(start, done) == start
  {
    forall f | f in start ensures RolledBack(start, done)[f] == start[f] {
      ReplacedComesBack(start, groups, extra, done, f);
    }
  }

  /** The samples of a family, tagged with it. */
  function Tagged<F(==)>(family: F, labels: set<Labels>): set<(F, Labels)> {
    set l | l in labels :: (family, l)
  }

  lemma {:induction false} TaggedSize<F>(family: F, labels: set<Labels>)
    ensures |Tagged(family, labels)| == |labels|
  {
    if labels != {} {
      var l := Member(labels);
      TaggedSize(family, labels - {l});
      assert Tagged(family, labels) == Tagged(family, labels - {l}) + {(family, l)};
    }
  }

  function AllTagged<F(==)>(store: Store<F>, families: seq<F>): set<(F, Labels)>
    requires forall f | f in families :: f in store
  {
    set f, l | f in families && l in store[f].samples.Keys :: (f, l)
  }

  lemma AllTaggedStep<F>(store: Store<F>, families: seq<F>)
    requires families != [] && NoDuplicates(families) && forall f | f in families :: f in store
    ensures var init, last := families[..|families| - 1], families[|families| - 1];
            && (forall f | f in init :: f in store)
            && |AllTagged(store, families)| == |AllTagged(store, init)| + |store[last].samples|
  {
    var init, last := families[..|families| - 1], families[|families| - 1];
    var added := Tagged(last, store[last].samples.Keys);
    assert families == init + [last] && last !in init;
    TaggedSize(last, store[last].samples.Keys);
    assert AllTagged(store, families) == AllTagged(store, init) + added;
    DisjointUnionSize(AllTagged(store, init), added);
    assert |store[last].samples.Keys| == |store[last].samples|;
  }

  /** The count of samples: one for each label tuple of each family. */
  lemma {:induction false} SamplesAreCounted<F>(store: Store<F>, families: seq<F>)
    requires NoDuplicates(families) && forall f | f in families :: f in store
    ensures Samples(store, families) == |AllTagged(store, families)|
  {
    if families == [] {
      assert AllTagged(store, families) == {};
    } else {
      AllTaggedStep(store, families);
      SamplesAreCounted(store, families[..|families| - 1]);
    }
  }

  lemma {:induction false} SamplesMonotone<F>(store: Store<F>, families: seq<F>, n: nat)
    requires n <= |families|
    ensures Samples(store, families[..n]) <= Samples(store, families)
  {
    if n < |families| {
      var init := families[..|families| - 1];
      SamplesMonotone(store, init, n);
      assert init[..n] == families[..n];
    } else {
      assert families[..n] == families;
    }
  }
}
