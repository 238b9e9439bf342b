/** The elements that stay attached while the reader drops completed ones. The parser
    builds the tree ahead of the reader, which then detaches what it has read. */
module MntRelease {
  import opened MntTree
  import MntReader

  /** Elements are numbered in document order. `open` is the parser's path, `stack` the
      reader's; `queue` holds the events built but not yet read, and an edge leads from
      an element to a child still attached to it. */
  datatype Parser = Parser(edges: set<(nat, nat)>, open: seq<nat>, born: nat,
                           queue: seq<Event>, stack: seq<nat>, seen: nat)

  const Empty := Parser({}, [], 0, [], [], 0)

  datatype Move = Feed(event: Event) | Take

  /** A path and the number of elements so far, after one more event. */
  function Onward(path: seq<nat>, born: nat, e: Event): (seq<nat>, nat) {
    if e.Start? then (path + [born], born + 1)
    else (if path == [] then [] else path[..|path| - 1], born)
  }

  function EdgeTo(path: seq<nat>, child: nat): set<(nat, nat)> {
    if path == [] then {} else {(path[|path| - 1], child)}
  }

  /** The builder attaches a started element to the innermost open one. */
  function Grown(p: Parser, e: Event): Parser {
    var (open, born) := Onward(p.open, p.born, e);
    p.(edges := if e.Start? then p.edges + EdgeTo(p.open, p.born) else p.edges,
       open := open, born := born, queue := p.queue + [e])
  }

  /** The reader detaches a completed element from its parent and clears it. */
  function Dropped(p: Parser): Parser
    requires p.queue != []
  {
    var e := p.queue[0];
    var (stack, seen) := Onward(p.stack, p.seen, e);
    p.(edges := if e.End? && p.stack != [] then Detached(p.edges, stack, p.stack[|p.stack| - 1]) else p.edges,
       queue := p.queue[1..], stack := stack, seen := seen)
  }

  function Detached(edges: set<(nat, nat)>, parents: seq<nat>, element: nat): set<(nat, nat)> {
    set edge | edge in edges && edge.0 != element && edge !in EdgeTo(parents, element)
  }

  /** The parser ends open elements only; the reader takes an event if there is one. */
  predicate Enabled(p: Parser, move: Move) {
    if move.Feed? then move.event.Start? || p.open != [] else p.queue != []
  }

  function Moved(p: Parser, move: Move): Parser
    requires Enabled(p, move)
  {
    if move.Feed? then Grown(p, move.event) else Dropped(p)
  }

  predicate Legal(ps: seq<Parser>, moves: seq<Move>) {
    && |ps| == |moves| + 1 && ps[0] == Empty
    && forall i | 0 <= i < |moves| :: Enabled(ps[i], moves[i]) && ps[i + 1] == Moved(ps[i], moves[i])
  }

  /** The edges along a path. */
  function Chain(path: seq<nat>): set<(nat, nat)> {
    if path == [] then {} else Chain(path[..|path| - 1]) + EdgeTo(path[..|path| - 1], path[|path| - 1])
  }

  /** What unread events have attached, and the path and number they lead to. */
  datatype Ahead = Ahead(edges: set<(nat, nat)>, path: seq<nat>, born: nat)

  function Unread(path: seq<nat>, born: nat, queue: seq<Event>): Ahead {
    if queue == [] then Ahead({}, path, born)
    else
      var before, e := Unread(path, born, queue[..|queue| - 1]), queue[|queue| - 1];
      var (open, next) := Onward(before.path, before.born, e);
      Ahead(if e.Start? then before.edges + EdgeTo(before.path, before.born) else before.edges, open, next)
  }

  predicate Rising(path: seq<nat>, born: nat) {
    (forall i, j | 0 <= i < j < |path| :: path[i] < path[j]) && forall i | 0 <= i < |path| :: path[i] < born
  }

  /** The edges are those of the reader's path and those of the unread events. */
  ghost predicate Exact(p: Parser) {
    && Rising(p.stack, p.seen)
    && var ahead := Unread(p.stack, p.seen, p.queue);
       p.edges == Chain(p.stack) + ahead.edges && p.open == ahead.path && p.born == ahead.born
  }

  /** The first unread event read. */
  lemma {:induction false} UnreadFirst(path: seq<nat>, born: nat, queue: seq<Event>)
    requires queue != []
    ensures var (next, more) := Onward(path, born, queue[0]);
            var (all, rest) := (Unread(path, born, queue), Unread(next, more, queue[1..]));
            && all.path == rest.path && all.born == rest.born
            && all.edges == (if queue[0].Start? then EdgeTo(path, born) else {}) + rest.edges
  {
    var n := |queue| - 1;
    if n == 0 {
      assert queue[..0] == [] && queue[1..] == [];
    } else {
      UnreadFirst(path, born, queue[..n]);
      assert queue[..n][1..] == queue[1..][..n - 1] && queue[1..][n - 1] == queue[n] && queue[..n][0] == queue[0];
    }
  }

  /** Unread events open new elements only. */
  lemma {:induction false} UnreadPath(path: seq<nat>, born: nat, queue: seq<Event>)
    requires Rising(path, born)
    ensures var ahead := Unread(path, born, queue);
            && born <= ahead.born && Rising(ahead.path, ahead.born)
            && forall x | x in ahead.path :: x in path || born <= x
  {
    if queue != [] {
      UnreadPath(path, born, queue[..|queue| - 1]);
    }
  }

  /** And attach new elements only, to open or new ones. */
  lemma {:induction false} UnreadIsNew(path: seq<nat>, born: nat, queue: seq<Event>)
    requires Rising(path, born)
    ensures var ahead := Unread(path, born, queue);
            && |ahead.edges| <= |queue|
            && forall edge | edge in ahead.edges :: born <= edge.1 && (edge.0 in path || born <= edge.0)
  {
    if queue != [] {
      var init := queue[..|queue| - 1];
      UnreadIsNew(path, born, init);
      UnreadPath(path, born, init);
    }
  }

  lemma {:induction false} ChainFacts(path: seq<nat>, born: nat)
    requires Rising(path, born)
    ensures forall edge | edge in Chain(path) :: edge.0 in path && edge.1 in path && edge.0 < edge.1
    ensures path != [] ==> |Chain(path)| < |path|
  {
    if path != [] {
      ChainFacts(path[..|path| - 1], born);
    }
  }

  lemma FeedKeeps(p: Parser, e: Event)
    requires Exact(p)
    ensures Exact(Grown(p, e))
  {
    assert (p.queue + [e])[..|p.queue|] == p.queue;
  }

  lemma StartKeeps(p: Parser)
    requires Exact(p) && p.queue != [] && p.queue[0].Start?
    ensures Exact(Dropped(p))
  {
    var next := Dropped(p);
    UnreadFirst(p.stack, p.seen, p.queue);
    assert next.stack == p.stack + [p.seen] && next.seen == p.seen + 1 && next.queue == p.queue[1..];
    assert next.stack[..|next.stack| - 1] == p.stack;
    assert Chain(next.stack) == Chain(p.stack) + EdgeTo(p.stack, p.seen);
  }

  lemma EndKeeps(p: Parser)
    requires Exact(p) && p.queue != [] && p.queue[0].End? && p.stack != []
    ensures Exact(Dropped(p))
  {
    var next := Dropped(p);
    var ahead := Unread(next.stack, p.seen, next.queue).edges;
    UnreadFirst(p.stack, p.seen, p.queue);
    assert next.stack == p.stack[..|p.stack| - 1] && next.seen == p.seen && next.queue == p.queue[1..];
    assert p.edges == Chain(p.stack) + ahead;
    DetachExact(p.stack, p.seen, ahead, next.queue);
  }

  lemma TakeKeeps(p: Parser)
    requires Exact(p) && p.queue != [] && (p.queue[0].End? ==> p.stack != [])
    ensures Exact(Dropped(p))
  {
    if p.queue[0].Start? {
      StartKeeps(p);
    } else {
      EndKeeps(p);
    }
  }

  /** Detaching the innermost element removes the last edge of the path and no other. */
  lemma DetachExact(stack: seq<nat>, seen: nat, ahead: set<(nat, nat)>, queue: seq<Event>)
    requires stack != [] && Rising(stack, seen)
    requires ahead == Unread(stack[..|stack| - 1], seen, queue).edges
    ensures Detached(Chain(stack) + ahead, stack[..|stack| - 1], stack[|stack| - 1])
            == Chain(stack[..|stack| - 1]) + ahead
  {
    var parents, element := stack[..|stack| - 1], stack[|stack| - 1];
    ChainAvoids(parents, element);
    UnreadAvoids(parents, element, seen, queue);
    DetachLast(Chain(parents) + ahead, parents, element);
    assert Chain(stack) + ahead == (Chain(parents) + ahead) + EdgeTo(parents, element);
  }

  predicate Avoids(edges: set<(nat, nat)>, element: nat) {
    forall edge | edge in edges :: edge.0 != element && edge.1 != element
  }

  lemma ChainAvoids(parents: seq<nat>, element: nat)
    requires Rising(parents, element)
    ensures Avoids(Chain(parents), element)
  {
    ChainFacts(parents, element);
  }

  lemma UnreadAvoids(parents: seq<nat>, element: nat, seen: nat, queue: seq<Event>)
    requires Rising(parents, element) && element < seen
    ensures Avoids(Unread(parents, seen, queue).edges, element)
  {
    UnreadIsNew(parents, seen, queue);
  }

  lemma DetachLast(edges: set<(nat, nat)>, parents: seq<nat>, element: nat)
    requires Avoids(edges, element) && element !in parents
    ensures Detached(edges + EdgeTo(parents, element), parents, element) == edges
  {
  }

  /** The reader's view of the run: the events it has taken. */
  function Taken(ps: seq<Parser>, moves: seq<Move>): seq<Event>
    requires Legal(ps, moves)
  {
    if moves == [] then []
    else
      var n := |moves| - 1;
      Taken(ps[..n + 1], moves[..n]) + (if moves[n].Take? then [ps[n].queue[0]] else [])
  }

  /** The state is exact and the reader's own stack is as long as the path. */
  lemma {:induction false} RunIsExact(ps: seq<Parser>, moves: seq<Move>)
    requires Legal(ps, moves) && MntReader.Run(MntReader.Initial, Taken(ps, moves)).Some?
    ensures var p := ps[|moves|];
            Exact(p) && |p.stack| == |MntReader.Run(MntReader.Initial, Taken(ps, moves)).value.stack| <= MAX_DEPTH
  {
    MntReader.LimitsAlwaysHold(Taken(ps, moves));
    if moves != [] {
      var n := |moves| - 1;
      var before := Taken(ps[..n + 1], moves[..n]);
      if moves[n].Feed? {
        assert before + [] == before;
        RunIsExact(ps[..n + 1], moves[..n]);
        FeedKeeps(ps[n], moves[n].event);
      } else {
        var e := ps[n].queue[0];
        MntReader.RunJoin(MntReader.Initial, before, [e]);
        RunIsExact(ps[..n + 1], moves[..n]);
        var s := MntReader.Run(MntReader.Initial, before).value;
        MntReader.RunOne(s, e);
        MntReader.LimitsAlwaysHold(before);
        MntReader.StepKeepsLimits(s, e);
        TakeKeeps(ps[n]);
      }
    }
  }

  /** However the parser runs ahead, as long as no limit is exceeded: once the reader
      has caught up, exactly the path of the open elements is attached; before that, at
      most one more edge for each unread event. */
  lemma ElementsHeld(ps: seq<Parser>, moves: seq<Move>)
    requires Legal(ps, moves) && MntReader.Run(MntReader.Initial, Taken(ps, moves)).Some?
    ensures var p := ps[|moves|];
            && (p.queue == [] ==> p.edges == Chain(p.open) && |p.open| <= MAX_DEPTH)
            && |p.edges| <= MAX_DEPTH + |p.queue|
  {
    RunIsExact(ps, moves);
    var p := ps[|moves|];
    ChainFacts(p.stack, p.seen);
    UnreadIsNew(p.stack, p.seen, p.queue);
  }
}
