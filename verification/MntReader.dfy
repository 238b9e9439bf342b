/** The event-driven reader: a stack of open elements, the open records, and the
    limits checked at every event. */
module MntReader {
  import opened Util
  import opened MntTree

  /** `stack` holds the names of the open elements, the innermost last; the open
      record of each kind counts its fields apart. */
  datatype State = State(stack: seq<Name>, elements: nat, total: Option<string>,
                         active: seq<Record>, auth: seq<Record>, detail: Record,
                         activeRecord: Option<Record>, authRecord: Option<Record>,
                         activeFields: nat, authFields: nat)

  const Initial := State([], 0, None, [], [], map[], None, None, 0, 0)

  function Top(s: State): Name {
    if s.stack == [] then Name("") else s.stack[|s.stack| - 1]
  }

  function OnStart(s: State, tag: string, attributes: seq<(string, string)>): Option<State> {
    var name := NameOf(tag);
    if s.elements + 1 > MAX_ELEMENTS || |s.stack| + 1 > MAX_DEPTH
       || (name == ACTIVE && s.activeRecord.Some?) || (name == AUTH && s.authRecord.Some?) then None
    else
      var counted := s.(elements := s.elements + 1, stack := s.stack + [name],
                        total := if s.stack == [] then TotalOf(attributes) else s.total);
      Some(if name == ACTIVE then counted.(activeRecord := Some(map[]), activeFields := 0)
           else if name == AUTH then counted.(authRecord := Some(map[]), authFields := 0)
           else counted)
  }

  /** What a completed element adds to its parent. */
  function Field(s: State, name: Name, text: string): Option<State> {
    var parent := if |s.stack| >= 2 then s.stack[|s.stack| - 2] else Name("");
    if parent == ACTIVE && s.activeRecord.Some? then
      if s.activeFields + 1 > MAX_FIELDS then None
      else Some(s.(activeFields := s.activeFields + 1, activeRecord := Some(s.activeRecord.value[name := text])))
    else if parent == AUTH && s.authRecord.Some? then
      if s.authFields + 1 > MAX_FIELDS then None
      else Some(s.(authFields := s.authFields + 1, authRecord := Some(s.authRecord.value[name := text])))
    else if |s.stack| == 2 && text != "" then Some(s.(detail := s.detail[name := text]))
    else Some(s)
  }

  /** A record ends with its element. */
  function Close(s: State, name: Name): Option<State> {
    if name == ACTIVE then
      if |s.active| >= MAX_SESSIONS then None
      else Some(s.(active := s.active + [if s.activeRecord.Some? then s.activeRecord.value else map[]],
                   activeRecord := None))
    else if name == AUTH then
      if |s.auth| >= MAX_SESSIONS then None
      else Some(s.(auth := s.auth + [if s.authRecord.Some? then s.authRecord.value else map[]], authRecord := None))
    else Some(s)
  }

  function OnEnd(s: State, tag: string, text: string): Option<State>
    requires s.stack != []
  {
    var field := Field(s, NameOf(tag), Strip(text));
    if field.None? then None
    else
      var closed := Close(field.value, NameOf(tag));
      if closed.None? then None else Some(closed.value.(stack := s.stack[..|s.stack| - 1]))
  }

  /** The parser only ends elements that are open. */
  function Step(s: State, e: Event): Option<State> {
    match e
    case Start(tag, attributes) => OnStart(s, tag, attributes)
    case End(tag, text) => if s.stack == [] then None else OnEnd(s, tag, text)
  }

  function Run(s: State, events: seq<Event>): Option<State>
    decreases |events|
  {
    if events == [] then Some(s)
    else
      var next := Step(s, events[0]);
      if next.None? then None else Run(next.value, events[1..])
  }

  lemma {:induction false} RunJoin(s: State, a: seq<Event>, b: seq<Event>)
    ensures Run(s, a + b) == (if Run(s, a).None? then None else Run(Run(s, a).value, b))
    decreases |a|
  {
    if a == [] {
      assert a + b == b;
    } else {
      assert (a + b)[1..] == a[1..] + b;
      var next := Step(s, a[0]);
      if next.Some? {
        RunJoin(next.value, a[1..], b);
      }
    }
  }

  // ---- one subtree at a time ---------------------------------------------------------

  /** A record is open exactly while an element of its kind is. */
  ghost predicate Open(s: State) {
    (s.activeRecord.Some? <==> ACTIVE in s.stack) && (s.authRecord.Some? <==> AUTH in s.stack)
  }

  /** The limits hold so far. */
  predicate Bounded(s: State) {
    && s.elements <= MAX_ELEMENTS && |s.stack| <= MAX_DEPTH
    && |s.active| <= MAX_SESSIONS && |s.auth| <= MAX_SESSIONS
    && s.activeFields <= MAX_FIELDS && s.authFields <= MAX_FIELDS
  }

  /** The field count left behind by the last record of a kind. */
  function Last(node: Node, kind: Name, n: nat): nat
    decreases node, 1
  {
    if NameOf(node.tag) == kind then |node.kids| else LastIn(node.kids, kind, n)
  }

  function LastIn(kids: seq<Node>, kind: Name, n: nat): nat
    decreases kids, 0
  {
    if kids == [] then n else LastIn(kids[1..], kind, Last(kids[0], kind, n))
  }

  /** The state after the siblings `kids`, from the recursive reading alone. */
  function After(s: State, kids: seq<Node>): State {
    var top := Top(s);
    s.(elements := s.elements + CountIn(kids),
       active := s.active + RecordsIn(kids, ACTIVE),
       auth := s.auth + RecordsIn(kids, AUTH),
       detail := if |s.stack| == 1 && top !in {ACTIVE, AUTH} then Flat(s.detail, kids) else s.detail,
       activeRecord := if top == ACTIVE && s.activeRecord.Some? then Some(Fields(s.activeRecord.value, kids))
                       else s.activeRecord,
       authRecord := if top == AUTH && s.authRecord.Some? then Some(Fields(s.authRecord.value, kids)) else s.authRecord,
       activeFields := if top == ACTIVE then s.activeFields + |kids| else LastIn(kids, ACTIVE, s.activeFields),
       authFields := if top == AUTH then s.authFields + |kids| else LastIn(kids, AUTH, s.authFields))
  }

  /** Whether the limits leave room for the siblings `kids`. */
  predicate Room(s: State, kids: seq<Node>) {
    && s.elements + CountIn(kids) <= MAX_ELEMENTS && |s.stack| + DepthIn(kids) <= MAX_DEPTH
    && |s.active| + |RecordsIn(kids, ACTIVE)| <= MAX_SESSIONS && |s.auth| + |RecordsIn(kids, AUTH)| <= MAX_SESSIONS
    && FlatlyIn(kids, s.activeRecord.Some?, s.authRecord.Some?)
    && (Top(s) == ACTIVE ==> s.activeFields + |kids| <= MAX_FIELDS)
    && (Top(s) == AUTH ==> s.authFields + |kids| <= MAX_FIELDS)
  }

  lemma {:induction false} NoneInside(kids: seq<Node>, inActive: bool, inAuth: bool, n: nat, m: nat)
    requires FlatlyIn(kids, inActive, inAuth)
    ensures inActive ==> RecordsIn(kids, ACTIVE) == [] && LastIn(kids, ACTIVE, n) == n
    ensures inAuth ==> RecordsIn(kids, AUTH) == [] && LastIn(kids, AUTH, m) == m
    ensures n <= MAX_FIELDS ==> LastIn(kids, ACTIVE, n) <= MAX_FIELDS
    ensures m <= MAX_FIELDS ==> LastIn(kids, AUTH, m) <= MAX_FIELDS
    decreases kids
  {
    if kids != [] {
      var node := kids[0];
      var name := NameOf(node.tag);
      NoneInside(node.kids, inActive || name == ACTIVE, inAuth || name == AUTH, n, m);
      NoneInside(kids[1..], inActive, inAuth, Last(node, ACTIVE, n), Last(node, AUTH, m));
    }
  }

  lemma {:induction false} ForestRuns(s: State, kids: seq<Node>)
    requires Open(s) && Bounded(s) && s.stack != []
    ensures Run(s, EventsIn(kids)).Some? <==> Room(s, kids)
    ensures Room(s, kids) ==> Run(s, EventsIn(kids)) == Some(After(s, kids)) && Bounded(After(s, kids))
    decreases kids, 0
  {
    if kids == [] {
      AfterNone(s);
    } else {
      NodeRuns(s, kids[0]);
      RunJoin(s, Events(kids[0]), EventsIn(kids[1..]));
      SplitRoom(s, kids);
      SplitAfter(s, kids);
      if Room(s, [kids[0]]) {
        ForestRuns(After(s, [kids[0]]), kids[1..]);
      }
    }
  }

  /** A non-empty list of siblings, as its first and the others. */
  lemma SplitCounts(kids: seq<Node>)
    requires kids != []
    ensures CountIn(kids) == CountIn([kids[0]]) + CountIn(kids[1..])
    ensures DepthIn(kids) == Max(DepthIn([kids[0]]), DepthIn(kids[1..]))
    ensures RecordsIn(kids, ACTIVE) == RecordsIn([kids[0]], ACTIVE) + RecordsIn(kids[1..], ACTIVE)
    ensures RecordsIn(kids, AUTH) == RecordsIn([kids[0]], AUTH) + RecordsIn(kids[1..], AUTH)
  {
    OneKid(kids[0]);
  }

  lemma SplitFields(kids: seq<Node>, into: Record)
    requires kids != []
    ensures Fields(into, kids) == Fields(Fields(into, [kids[0]]), kids[1..])
    ensures Flat(into, kids) == Flat(Flat(into, [kids[0]]), kids[1..])
  {
    OneField(kids[0], into);
  }

  lemma SplitLast(kids: seq<Node>, kind: Name, n: nat)
    requires kids != []
    ensures LastIn(kids, kind, n) == LastIn(kids[1..], kind, LastIn([kids[0]], kind, n))
  {
    OneLast(kids[0], kind, n);
  }

  lemma OneKid(node: Node)
    ensures CountIn([node]) == 1 + CountIn(node.kids) && DepthIn([node]) == 1 + DepthIn(node.kids)
    ensures RecordsIn([node], ACTIVE) == Records(node, ACTIVE) && RecordsIn([node], AUTH) == Records(node, AUTH)
  {
    assert [node][1..] == [];
  }

  lemma OneField(node: Node, into: Record)
    ensures Fields(into, [node]) == into[NameOf(node.tag) := Strip(node.text)]
    ensures Flat(into, [node]) == if Strip(node.text) == "" then into else into[NameOf(node.tag) := Strip(node.text)]
  {
    assert [node][1..] == [];
  }

  lemma OneLast(node: Node, kind: Name, n: nat)
    ensures LastIn([node], kind, n) == Last(node, kind, n)
  {
    assert [node][1..] == [];
  }

  lemma OneFlatly(node: Node, inActive: bool, inAuth: bool)
    ensures FlatlyIn([node], inActive, inAuth) <==> Flatly(node, inActive, inAuth)
  {
    assert [node][1..] == [];
  }

  lemma SplitFlatly(kids: seq<Node>, inActive: bool, inAuth: bool)
    requires kids != []
    ensures FlatlyIn(kids, inActive, inAuth)
            <==> FlatlyIn([kids[0]], inActive, inAuth) && FlatlyIn(kids[1..], inActive, inAuth)
  {
    assert [kids[0]][1..] == [];
  }

  lemma SplitRoom(s: State, kids: seq<Node>)
    requires kids != [] && Open(s) && Bounded(s) && s.stack != []
    ensures Room(s, kids) <==> Room(s, [kids[0]]) && Room(After(s, [kids[0]]), kids[1..])
    ensures Open(After(s, [kids[0]]))
  {
    SplitCounts(kids);
    SplitFlatly(kids, s.activeRecord.Some?, s.authRecord.Some?);
  }

  lemma SplitAfter(s: State, kids: seq<Node>)
    requires kids != []
    ensures After(After(s, [kids[0]]), kids[1..]) == After(s, kids)
  {
    SplitAfterCounts(s, kids);
    SplitAfterRecords(s, kids);
  }

  lemma SplitAfterCounts(s: State, kids: seq<Node>)
    requires kids != []
    ensures var one, all := After(After(s, [kids[0]]), kids[1..]), After(s, kids);
            && one.elements == all.elements && one.active == all.active && one.auth == all.auth
            && one.activeFields == all.activeFields && one.authFields == all.authFields
  {
    SplitCounts(kids);
    SplitLast(kids, ACTIVE, s.activeFields);
    SplitLast(kids, AUTH, s.authFields);
  }

  lemma SplitAfterRecords(s: State, kids: seq<Node>)
    requires kids != []
    ensures var one, all := After(After(s, [kids[0]]), kids[1..]), After(s, kids);
            one.detail == all.detail && one.activeRecord == all.activeRecord && one.authRecord == all.authRecord
  {
    SplitFields(kids, s.detail);
    if s.activeRecord.Some? {
      SplitFields(kids, s.activeRecord.value);
    }
    if s.authRecord.Some? {
      SplitFields(kids, s.authRecord.value);
    }
  }

  lemma AfterNone(s: State)
    ensures After(s, []) == s
  {
    assert s.active + [] == s.active && s.auth + [] == s.auth;
  }

  lemma RunOne(s: State, e: Event)
    ensures Run(s, [e]) == Step(s, e)
  {
    assert [e][1..] == [];
  }

  lemma {:induction false} NodeRuns(s: State, node: Node)
    requires Open(s) && Bounded(s) && s.stack != []
    ensures Run(s, Events(node)).Some? <==> Room(s, [node])
    ensures Room(s, [node]) ==> Run(s, Events(node)) == Some(After(s, [node])) && Bounded(After(s, [node]))
    decreases node, 1
  {
    var start, end := Start(node.tag, node.attributes), End(node.tag, node.text);
    RunJoin(s, [start] + EventsIn(node.kids), [end]);
    RunJoin(s, [start], EventsIn(node.kids));
    RunOne(s, start);
    Starts(s, node);
    var begun := OnStart(s, node.tag, node.attributes);
    if begun.Some? {
      ForestRuns(begun.value, node.kids);
      if Room(begun.value, node.kids) {
        InsideIsAfter(s, node);
        RunOne(Inside(s, node), end);
        Ends(s, node);
      }
    }
  }

  /** What the start of an element decides. */
  lemma Starts(s: State, node: Node)
    requires Open(s) && Bounded(s) && s.stack != []
    ensures var begun := OnStart(s, node.tag, node.attributes);
            && (Room(s, [node]) ==> begun.Some? && Room(begun.value, node.kids))
            && (begun.Some? ==> Open(begun.value) && Bounded(begun.value) && begun.value.stack != [])
  {
    OneKid(node);
    OneFlatly(node, s.activeRecord.Some?, s.authRecord.Some?);
  }

  /** The state before the end of an element, all its children read. */
  function Inside(s: State, node: Node): State {
    var name := NameOf(node.tag);
    s.(stack := s.stack + [name], elements := s.elements + Count(node),
       active := s.active + RecordsIn(node.kids, ACTIVE), auth := s.auth + RecordsIn(node.kids, AUTH),
       activeRecord := if name == ACTIVE then Some(Fields(map[], node.kids)) else s.activeRecord,
       authRecord := if name == AUTH then Some(Fields(map[], node.kids)) else s.authRecord,
       activeFields := Last(node, ACTIVE, s.activeFields), authFields := Last(node, AUTH, s.authFields))
  }

  lemma InsideIsAfter(s: State, node: Node)
    requires s.stack != [] && OnStart(s, node.tag, node.attributes).Some?
    ensures After(OnStart(s, node.tag, node.attributes).value, node.kids) == Inside(s, node)
  {
  }

  /** A record that may not be nested leaves the counts of its kind alone. */
  lemma CountsKept(s: State, node: Node)
    requires Open(s) && Bounded(s) && Flatly(node, s.activeRecord.Some?, s.authRecord.Some?)
    ensures s.activeRecord.Some? ==> Last(node, ACTIVE, s.activeFields) == s.activeFields
    ensures s.authRecord.Some? ==> Last(node, AUTH, s.authFields) == s.authFields
    ensures Last(node, ACTIVE, s.activeFields) <= MAX_FIELDS && Last(node, AUTH, s.authFields) <= MAX_FIELDS
  {
    var name := NameOf(node.tag);
    NoneInside(node.kids, s.activeRecord.Some? || name == ACTIVE, s.authRecord.Some? || name == AUTH,
               s.activeFields, s.authFields);
  }

  /** Whether the parent has room for one more field. */
  predicate FieldFits(s: State) {
    (Top(s) == ACTIVE ==> s.activeFields + 1 <= MAX_FIELDS) && (Top(s) == AUTH ==> s.authFields + 1 <= MAX_FIELDS)
  }

  /** What a completed element leaves in its parent. */
  lemma FieldInside(s: State, node: Node)
    requires Open(s) && Bounded(s) && s.stack != [] && Flatly(node, s.activeRecord.Some?, s.authRecord.Some?)
    ensures var (name, text, top) := (NameOf(node.tag), Strip(node.text), Top(s));
            Field(Inside(s, node), name, text)
            == if !FieldFits(s) then None
               else if top == ACTIVE then
                 Some(Inside(s, node).(activeFields := s.activeFields + 1,
                                       activeRecord := Some(s.activeRecord.value[name := text])))
               else if top == AUTH then
                 Some(Inside(s, node).(authFields := s.authFields + 1,
                                       authRecord := Some(s.authRecord.value[name := text])))
               else if |s.stack| == 1 && text != "" then Some(Inside(s, node).(detail := s.detail[name := text]))
               else Some(Inside(s, node))
  {
    CountsKept(s, node);
    assert Top(s) in s.stack;
    assert Inside(s, node).stack[|Inside(s, node).stack| - 2] == Top(s);
  }

  lemma RoomForOne(s: State, node: Node)
    ensures Room(s, [node]) <==>
            && s.elements + Count(node) <= MAX_ELEMENTS && |s.stack| + Depth(node) <= MAX_DEPTH
            && |s.active| + |Records(node, ACTIVE)| <= MAX_SESSIONS && |s.auth| + |Records(node, AUTH)| <= MAX_SESSIONS
            && Flatly(node, s.activeRecord.Some?, s.authRecord.Some?) && FieldFits(s)
  {
    OneKid(node);
    OneFlatly(node, s.activeRecord.Some?, s.authRecord.Some?);
  }

  lemma StartsFlatly(s: State, node: Node)
    requires Open(s) && s.stack != [] && OnStart(s, node.tag, node.attributes).Some?
    requires Room(OnStart(s, node.tag, node.attributes).value, node.kids)
    ensures Flatly(node, s.activeRecord.Some?, s.authRecord.Some?)
    ensures s.elements + Count(node) <= MAX_ELEMENTS && |s.stack| + Depth(node) <= MAX_DEPTH
  {
  }

  /** What its end decides, after its children. */
  lemma Ends(s: State, node: Node)
    requires Open(s) && Bounded(s) && s.stack != [] && OnStart(s, node.tag, node.attributes).Some?
    requires Room(OnStart(s, node.tag, node.attributes).value, node.kids)
    ensures var closed := OnEnd(Inside(s, node), node.tag, node.text);
            && (closed.Some? <==> Room(s, [node]))
            && (closed.Some? ==> closed.value == After(s, [node]) && Bounded(After(s, [node])))
  {
    StartsFlatly(s, node);
    RoomForOne(s, node);
    InsideRoom(s, node);
    FieldInside(s, node);
    if Room(s, [node]) {
      EndsAfter(s, node);
      StaysBounded(s, node);
    }
  }

  /** The children's records fit when the start went through. */
  lemma InsideRoom(s: State, node: Node)
    requires s.stack != [] && OnStart(s, node.tag, node.attributes).Some?
    requires Room(OnStart(s, node.tag, node.attributes).value, node.kids)
    ensures |Inside(s, node).active| <= MAX_SESSIONS && |Inside(s, node).auth| <= MAX_SESSIONS
  {
  }

  lemma EndsAfter(s: State, node: Node)
    requires Open(s) && Bounded(s) && s.stack != [] && Room(s, [node])
    ensures var closed := OnEnd(Inside(s, node), node.tag, node.text);
            closed.Some? && closed.value == After(s, [node])
  {
    RoomForOne(s, node);
    FieldInside(s, node);
    AfterOne(s, node);
    assert Inside(s, node).stack[..|Inside(s, node).stack| - 1] == s.stack;
  }

  lemma StaysBounded(s: State, node: Node)
    requires Open(s) && Bounded(s) && s.stack != [] && Room(s, [node])
    ensures Bounded(After(s, [node]))
  {
    RoomForOne(s, node);
    CountsKept(s, node);
    AfterOne(s, node);
  }

  /** One element more, written out. */
  lemma AfterOne(s: State, node: Node)
    ensures var (name, text, top) := (NameOf(node.tag), Strip(node.text), Top(s));
            After(s, [node])
            == s.(elements := s.elements + Count(node),
                  active := s.active + Records(node, ACTIVE), auth := s.auth + Records(node, AUTH),
                  detail := if |s.stack| == 1 && top !in {ACTIVE, AUTH} && text != "" then s.detail[name := text]
                            else s.detail,
                  activeRecord := if top == ACTIVE && s.activeRecord.Some?
                                  then Some(s.activeRecord.value[name := text]) else s.activeRecord,
                  authRecord := if top == AUTH && s.authRecord.Some?
                                then Some(s.authRecord.value[name := text]) else s.authRecord,
                  activeFields := if top == ACTIVE then s.activeFields + 1 else Last(node, ACTIVE, s.activeFields),
                  authFields := if top == AUTH then s.authFields + 1 else Last(node, AUTH, s.authFields))
  {
    OneKid(node);
    OneLast(node, ACTIVE, s.activeFields);
    OneLast(node, AUTH, s.authFields);
    OneField(node, s.detail);
    if s.activeRecord.Some? {
      OneField(node, s.activeRecord.value);
    }
    if s.authRecord.Some? {
      OneField(node, s.authRecord.value);
    }
  }

  // ---- the whole document --------------------------------------------------------------

  function ReadingOf(s: State): Reading {
    Reading(s.total, s.active, s.auth, s.detail)
  }

  lemma RootStarts(root: Node)
    ensures var begun := OnStart(Initial, root.tag, root.attributes);
            && begun.Some? && Open(begun.value) && Bounded(begun.value) && begun.value.stack == [NameOf(root.tag)]
            && (WithinLimits(root) ==> Room(begun.value, root.kids))
            && begun.value.total == TotalOf(root.attributes) && begun.value.active == begun.value.auth == []
            && begun.value.detail == map[]
  {
  }

  lemma RootEnds(root: Node)
    requires Room(OnStart(Initial, root.tag, root.attributes).value, root.kids)
    ensures var inside := After(OnStart(Initial, root.tag, root.attributes).value, root.kids);
            var closed := OnEnd(inside, root.tag, root.text);
            && (closed.Some? <==> WithinLimits(root)) && (closed.Some? ==> ReadingOf(closed.value) == Read(root))
  {
    RootStarts(root);
    var begun := OnStart(Initial, root.tag, root.attributes).value;
    var inside := After(begun, root.kids);
    assert Field(inside, NameOf(root.tag), Strip(root.text)) == Some(inside);
    assert inside.active == RecordsIn(root.kids, ACTIVE) && inside.auth == RecordsIn(root.kids, AUTH);
  }

  /** Refinement: for every element tree, the reader returns exactly when the whole
      document is within the limits, and then what it returns, read off event by
      event with completed elements dropped, is the recursive reading of the tree. */
  lemma ReaderRefines(root: Node)
    ensures Run(Initial, Events(root)).Some? <==> WithinLimits(root)
    ensures WithinLimits(root) ==> ReadingOf(Run(Initial, Events(root)).value) == Read(root)
  {
    var start, end := Start(root.tag, root.attributes), End(root.tag, root.text);
    RunJoin(Initial, [start] + EventsIn(root.kids), [end]);
    RunJoin(Initial, [start], EventsIn(root.kids));
    RunOne(Initial, start);
    RootStarts(root);
    var begun := OnStart(Initial, root.tag, root.attributes).value;
    ForestRuns(begun, root.kids);
    if Room(begun, root.kids) {
      RunOne(After(begun, root.kids), end);
      RootEnds(root);
    }
  }

  // ---- limits at every step ----------------------------------------------------------

  /** No record, open or complete, exceeds the field ceiling. */
  predicate Small(s: State) {
    && (s.activeRecord.Some? ==> |s.activeRecord.value| <= s.activeFields)
    && (s.authRecord.Some? ==> |s.authRecord.value| <= s.authFields)
    && (forall i | 0 <= i < |s.active| :: |s.active[i]| <= MAX_FIELDS)
    && forall i | 0 <= i < |s.auth| :: |s.auth[i]| <= MAX_FIELDS
  }

  lemma OneMoreKey(r: Record, name: Name, text: string)
    ensures |r[name := text]| <= |r| + 1
  {
    assert r[name := text].Keys == r.Keys + {name};
    assert |r[name := text]| == |r[name := text].Keys| && |r| == |r.Keys|;
  }

  lemma StartKeepsLimits(s: State, tag: string, attributes: seq<(string, string)>)
    requires Bounded(s) && Small(s) && OnStart(s, tag, attributes).Some?
    ensures var next := OnStart(s, tag, attributes).value;
            Bounded(next) && Small(next) && |next.stack| == |s.stack| + 1
  {
  }

  lemma FieldKeepsLimits(s: State, name: Name, text: string)
    requires Bounded(s) && Small(s) && Field(s, name, text).Some?
    ensures var next := Field(s, name, text).value;
            Bounded(next) && Small(next) && next.stack == s.stack
  {
    if s.activeRecord.Some? {
      OneMoreKey(s.activeRecord.value, name, text);
    }
    if s.authRecord.Some? {
      OneMoreKey(s.authRecord.value, name, text);
    }
  }

  lemma CloseKeepsLimits(s: State, name: Name)
    requires Bounded(s) && Small(s) && Close(s, name).Some?
    ensures var next := Close(s, name).value;
            Bounded(next) && Small(next) && next.stack == s.stack
  {
  }

  lemma StepKeepsLimits(s: State, e: Event)
    requires Bounded(s) && Small(s) && Step(s, e).Some?
    ensures Bounded(Step(s, e).value) && Small(Step(s, e).value)
    ensures |Step(s, e).value.stack| == if e.Start? then |s.stack| + 1 else |s.stack| - 1
  {
    if e.Start? {
      StartKeepsLimits(s, e.tag, e.attributes);
    } else {
      var name, text := NameOf(e.tag), Strip(e.text);
      FieldKeepsLimits(s, name, text);
      CloseKeepsLimits(Field(s, name, text).value, name);
    }
  }

  /** After any events whatever, well formed or not, all limits hold. */
  lemma {:induction false} LimitsAlwaysHold(events: seq<Event>)
    requires Run(Initial, events).Some?
    ensures var s := Run(Initial, events).value;
            Bounded(s) && Small(s)
  {
    if events != [] {
      var n := |events| - 1;
      assert events == events[..n] + [events[n]];
      RunJoin(Initial, events[..n], [events[n]]);
      LimitsAlwaysHold(events[..n]);
      RunOne(Run(Initial, events[..n]).value, events[n]);
      StepKeepsLimits(Run(Initial, events[..n]).value, events[n]);
    }
  }

  // ---- the loop over chunks ------------------------------------------------------------

  function Joined(chunks: seq<seq<Event>>): seq<Event> {
    if chunks == [] then [] else Joined(chunks[..|chunks| - 1]) + chunks[|chunks| - 1]
  }

  /** The events become available chunk by chunk; how they are cut does not matter. */
  method Parse(chunks: seq<seq<Event>>) returns (reading: Option<Reading>)
    ensures reading.None? <==> Run(Initial, Joined(chunks)).None?
    ensures reading.Some? ==> reading.value == ReadingOf(Run(Initial, Joined(chunks)).value)
  {
    var s := Initial;
    var i := 0;
    while i < |chunks|
      invariant i <= |chunks| && Run(Initial, Joined(chunks[..i])) == Some(s)
    {
      ghost var before := Joined(chunks[..i]);
      assert chunks[..i + 1][..i] == chunks[..i] && Joined(chunks[..i + 1]) == before + chunks[i];
      var chunk, j := chunks[i], 0;
      assert before + chunk[..0] == before;
      while j < |chunk|
        invariant j <= |chunk| && Run(Initial, before + chunk[..j]) == Some(s)
      {
        var next := Step(s, chunk[j]);
        OneMore(before, chunk, j, s);
        if next.None? {
          FailsHere(before, chunk, j);
          Fails(chunks, i + 1);
          return None;
        }
        s := next.value;
        j := j + 1;
      }
      assert chunk[..|chunk|] == chunk;
      i := i + 1;
    }
    assert chunks[..|chunks|] == chunks;
    reading := Some(ReadingOf(s));
  }

  lemma OneMore(before: seq<Event>, chunk: seq<Event>, j: nat, s: State)
    requires j < |chunk| && Run(Initial, before + chunk[..j]) == Some(s)
    ensures Run(Initial, before + chunk[..j + 1]) == Step(s, chunk[j])
  {
    RunOne(s, chunk[j]);
    RunJoin(Initial, before + chunk[..j], [chunk[j]]);
    assert before + chunk[..j] + [chunk[j]] == before + chunk[..j + 1];
  }

  /** Once a chunk has been refused, the document is. */
  lemma {:induction false} Fails(chunks: seq<seq<Event>>, i: nat)
    requires i <= |chunks| && Run(Initial, Joined(chunks[..i])).None?
    ensures Run(Initial, Joined(chunks)).None?
    decreases |chunks| - i
  {
    if i == |chunks| {
      assert chunks[..i] == chunks;
    } else {
      assert chunks[..i + 1][..i] == chunks[..i];
      RefusedStays(Joined(chunks[..i]), chunks[i]);
      Fails(chunks, i + 1);
    }
  }

  lemma FailsHere(before: seq<Event>, chunk: seq<Event>, j: nat)
    requires j < |chunk| && Run(Initial, before + chunk[..j + 1]).None?
    ensures Run(Initial, before + chunk).None?
  {
    RefusedStays(before + chunk[..j + 1], chunk[j + 1..]);
    assert before + chunk[..j + 1] + chunk[j + 1..] == before + chunk;
  }

  lemma RefusedStays(a: seq<Event>, b: seq<Event>)
    requires Run(Initial, a).None?
    ensures Run(Initial, a + b).None?
  {
    RunJoin(Initial, a, b);
  }
}
