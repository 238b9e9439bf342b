/** The record kept of every collection attempt: outcome, consecutive failures and
    the published failure category, joined to the snapshot commit. */
module CollectorStatus {
  import opened Util
  import opened Ordering
  import opened SnapshotScript
  import opened MetricSnapshots

  datatype Failure = Failure(reason: string, detail: string)

  /** The metadata families published beside a collector's own. */
  datatype Panel = Panel(lastSuccess: Family, up: Family, current: Family, stamp: Family, streak: Family,
                         reason: Family, detail: Family)
  {
    function Families(): seq<Family> {
      [lastSuccess, up, current, stamp, streak, reason, detail]
    }

    function Own(): set<Family> {
      {lastSuccess, up, current, stamp, streak, reason, detail}
    }

    /** Seven gauges with one to four labels. */
    predicate Valid() {
      && Gauge(lastSuccess, 1) && Gauge(streak, 1)
      && Gauge(up, 2) && Gauge(current, 2) && Gauge(stamp, 2)
      && Gauge(reason, 3) && Gauge(detail, 4)
      && lastSuccess != streak && up != current && up != stamp && current != stamp
    }
  }

  predicate Gauge(f: Family, labels: nat) {
    !f.shape.info && |f.shape.labelnames| == labels
  }

  function Source(name: string): string {
    if "dataconnect_" <= name || name in ["tacacs_activity", "endpoint_fleet"] then "dataconnect"
    else if "mnt_" <= name then "mnt"
    else "rest"
  }

  /** Every dataset belongs to one of three sources, by its name. */
  lemma SourceOfName(name: string)
    ensures Source(name) == "dataconnect" <==>
            "dataconnect_" <= name || name == "tacacs_activity" || name == "endpoint_fleet"
    ensures Source(name) == "mnt" <==> "mnt_" <= name
    ensures Source(name) in {"dataconnect", "mnt", "rest"}
  {
    assert "dataconnect"[0] != "mnt"[0] && "dataconnect"[0] != "rest"[0] && "mnt"[0] != "rest"[0];
    if "mnt_" <= name {
      assert name[0] == 'm';
    }
  }

  function ReasonLabels(name: string, f: Failure): Labels {
    Labels([name, Source(name), f.reason])
  }

  function DetailLabels(name: string, f: Failure): Labels {
    Labels([name, Source(name), f.reason, f.detail])
  }

  function One(name: string): Labels { Labels([name]) }

  function Two(name: string): Labels { Labels([name, Source(name)]) }

  /** The writer that joins a successful commit. */
  function SuccessWrites(p: Panel, name: string, now: real, prior: Option<Failure>): seq<Action<Family>> {
    [On(p.lastSuccess, Set(One(name), Finite(now))),
     On(p.up, Set(Two(name), Finite(1.0))),
     On(p.current, Set(Two(name), Finite(1.0))),
     On(p.stamp, Set(Two(name), Finite(now))),
     On(p.streak, Set(One(name), Finite(0.0)))]
    + (if prior.Some? then [On(p.reason, Remove(ReasonLabels(name, prior.value)))] else [])
    + (if prior.Some? then [On(p.detail, Remove(DetailLabels(name, prior.value)))] else [])
  }

  /** What recording a failure writes, in order. */
  function FailureWrites(p: Panel, name: string, count: nat, prior: Option<Failure>, f: Failure): seq<Action<Family>> {
    [On(p.streak, Set(One(name), Finite(count as real)))] + WithdrawWrites(p, name, prior, f) + Report(p, name, f)
  }

  type Board = Store<Family>

  function Put(board: Board, f: Family, labels: Labels, value: Value): Board
    requires f in board
  {
    board[f := board[f].(samples := board[f].samples[labels := value])]
  }

  function Drop(board: Board, f: Family, labels: Labels): Board
    requires f in board
  {
    board[f := board[f].(samples := board[f].samples - {labels})]
  }

  predicate Has(board: Board, f: Family) {
    f in board && board[f].shape == f.shape
  }

  predicate Fits(board: Board, p: Panel) {
    && Has(board, p.lastSuccess) && Has(board, p.up) && Has(board, p.current) && Has(board, p.stamp)
    && Has(board, p.streak) && Has(board, p.reason) && Has(board, p.detail)
  }

  lemma RunPut(start: Board, script: seq<Action<Family>>, board: Board, f: Family, labels: Labels, value: Value)
    requires Run(start, script) == Some(board) && f in board
    requires !board[f].shape.info && !value.Text? && |labels.values| == |board[f].shape.labelnames|
    ensures Run(start, script + [On(f, Set(labels, value))]) == Some(Put(board, f, labels, value))
  {
    assert (script + [On(f, Set(labels, value))])[..|script|] == script;
  }

  lemma RunDrop(start: Board, script: seq<Action<Family>>, board: Board, f: Family, labels: Labels)
    requires Run(start, script) == Some(board) && f in board && labels in board[f].samples
    requires board[f].shape.labelnames != []
    ensures Run(start, script + [On(f, Remove(labels))]) == Some(Drop(board, f, labels))
  {
    assert (script + [On(f, Remove(labels))])[..|script|] == script;
  }

  /** The five writes of every success. */
  function Succeeded(board: Board, p: Panel, name: string, now: real): Board
    requires Fits(board, p)
  {
    var b := Put(Put(board, p.lastSuccess, One(name), Finite(now)), p.up, Two(name), Finite(1.0));
    Put(Put(Put(b, p.current, Two(name), Finite(1.0)), p.stamp, Two(name), Finite(now)), p.streak, One(name),
        Finite(0.0))
  }

  lemma SuccessRuns(board: Board, p: Panel, name: string, now: real)
    requires p.Valid() && Fits(board, p)
    ensures Run(board, SuccessWrites(p, name, now, None)) == Some(Succeeded(board, p, name, now))
  {
    var all := SuccessWrites(p, name, now, None);
    assert all[..1] == [] + [all[0]] && all[..2] == all[..1] + [all[1]] && all[..3] == all[..2] + [all[2]];
    assert all[..4] == all[..3] + [all[3]] && all == all[..4] + [all[4]];
    RunPut(board, [], board, p.lastSuccess, One(name), Finite(now));
    var b := Put(board, p.lastSuccess, One(name), Finite(now));
    RunPut(board, all[..1], b, p.up, Two(name), Finite(1.0));
    b := Put(b, p.up, Two(name), Finite(1.0));
    RunPut(board, all[..2], b, p.current, Two(name), Finite(1.0));
    b := Put(b, p.current, Two(name), Finite(1.0));
    RunPut(board, all[..3], b, p.stamp, Two(name), Finite(now));
    b := Put(b, p.stamp, Two(name), Finite(now));
    RunPut(board, all[..4], b, p.streak, One(name), Finite(0.0));
  }

  /** A success after a failure withdraws the two published explanations. */
  function AfterSuccess(board: Board, p: Panel, name: string, now: real, prior: Option<Failure>): Board
    requires Fits(board, p)
  {
    var b := Succeeded(board, p, name, now);
    if prior.None? then b
    else Drop(Drop(b, p.reason, ReasonLabels(name, prior.value)), p.detail, DetailLabels(name, prior.value))
  }

  /** A failure replaces them. */
  function AfterFailure(board: Board, p: Panel, name: string, count: nat, prior: Option<Failure>, f: Failure): Board
    requires Fits(board, p)
  {
    Reported(Withdrawn(Put(board, p.streak, One(name), Finite(count as real)), p, name, prior, f), p, name, f)
  }

  function Withdrawn(board: Board, p: Panel, name: string, prior: Option<Failure>, f: Failure): Board
    requires Fits(board, p)
  {
    var b := if prior.Some? && prior.value.reason != f.reason
             then Drop(board, p.reason, ReasonLabels(name, prior.value)) else board;
    if prior.Some? then Drop(b, p.detail, DetailLabels(name, prior.value)) else b
  }

  predicate Published(board: Board, p: Panel, name: string, prior: Option<Failure>)
    requires Fits(board, p)
  {
    prior.Some? ==>
      && ReasonLabels(name, prior.value) in board[p.reason].samples
      && DetailLabels(name, prior.value) in board[p.detail].samples
  }

  lemma SuccessAlwaysRuns(board: Board, p: Panel, name: string, now: real, prior: Option<Failure>)
    requires p.Valid() && Fits(board, p) && Published(board, p, name, prior)
    ensures Run(board, SuccessWrites(p, name, now, prior)) == Some(AfterSuccess(board, p, name, now, prior))
  {
    SuccessRuns(board, p, name, now);
    if prior.Some? {
      var sets := SuccessWrites(p, name, now, None);
      var reason, detail := ReasonLabels(name, prior.value), DetailLabels(name, prior.value);
      var b := Succeeded(board, p, name, now);
      RunDrop(board, sets, b, p.reason, reason);
      RunDrop(board, sets + [On(p.reason, Remove(reason))], Drop(b, p.reason, reason), p.detail, detail);
      assert SuccessWrites(p, name, now, prior)
             == sets + [On(p.reason, Remove(reason))] + [On(p.detail, Remove(detail))];
    }
  }

  function WithdrawWrites(p: Panel, name: string, prior: Option<Failure>, f: Failure): seq<Action<Family>> {
    (if prior.Some? && prior.value.reason != f.reason then [On(p.reason, Remove(ReasonLabels(name, prior.value)))]
     else [])
    + (if prior.Some? then [On(p.detail, Remove(DetailLabels(name, prior.value)))] else [])
  }

  lemma WithdrawRuns(start: Board, script: seq<Action<Family>>, board: Board, p: Panel, name: string,
                     prior: Option<Failure>, f: Failure)
    requires p.Valid() && Fits(board, p) && Published(board, p, name, prior) && Run(start, script) == Some(board)
    ensures Run(start, script + WithdrawWrites(p, name, prior, f)) == Some(Withdrawn(board, p, name, prior, f))
  {
    if prior.None? {
      assert script + [] == script;
    } else {
      var detail := DetailLabels(name, prior.value);
      if prior.value.reason == f.reason {
        RunDrop(start, script, board, p.detail, detail);
        assert script + WithdrawWrites(p, name, prior, f) == script + [On(p.detail, Remove(detail))];
      } else {
        var reason := ReasonLabels(name, prior.value);
        RunDrop(start, script, board, p.reason, reason);
        RunDrop(start, script + [On(p.reason, Remove(reason))], Drop(board, p.reason, reason), p.detail, detail);
        assert script + WithdrawWrites(p, name, prior, f)
            == script + [On(p.reason, Remove(reason))] + [On(p.detail, Remove(detail))];
      }
    }
  }

  lemma FailureAlwaysRuns(board: Board, p: Panel, name: string, count: nat, prior: Option<Failure>, f: Failure)
    requires p.Valid() && Fits(board, p) && Published(board, p, name, prior)
    ensures Run(board, FailureWrites(p, name, count, prior, f)) == Some(AfterFailure(board, p, name, count, prior, f))
  {
    var first := [On(p.streak, Set(One(name), Finite(count as real)))];
    RunPut(board, [], board, p.streak, One(name), Finite(count as real));
    assert [] + first == first;
    var b0 := Put(board, p.streak, One(name), Finite(count as real));
    StreakApart(board, p, name, prior, Finite(count as real));
    WithdrawRuns(board, first, b0, p, name, prior, f);
    var s1, b1 := first + WithdrawWrites(p, name, prior, f), Withdrawn(b0, p, name, prior, f);
    ReportRuns(board, s1, b1, p, name, f);
    assert FailureWrites(p, name, count, prior, f) == s1 + Report(p, name, f);
  }

  lemma StreakApart(board: Board, p: Panel, name: string, prior: Option<Failure>, value: Value)
    requires p.Valid() && Fits(board, p) && Published(board, p, name, prior)
    ensures Fits(Put(board, p.streak, One(name), value), p)
    ensures Published(Put(board, p.streak, One(name), value), p, name, prior)
  {
  }

  function Report(p: Panel, name: string, f: Failure): seq<Action<Family>> {
    [On(p.reason, Set(ReasonLabels(name, f), Finite(1.0))),
     On(p.detail, Set(DetailLabels(name, f), Finite(1.0))),
     On(p.up, Set(Two(name), Finite(0.0)))]
  }

  function Reported(board: Board, p: Panel, name: string, f: Failure): Board
    requires Fits(board, p)
  {
    var b := Put(Put(board, p.reason, ReasonLabels(name, f), Finite(1.0)), p.detail, DetailLabels(name, f),
                 Finite(1.0));
    Put(b, p.up, Two(name), Finite(0.0))
  }

  lemma ReportRuns(start: Board, script: seq<Action<Family>>, board: Board, p: Panel, name: string, f: Failure)
    requires p.Valid() && Fits(board, p) && Run(start, script) == Some(board)
    ensures Run(start, script + Report(p, name, f)) == Some(Reported(board, p, name, f))
  {
    var all := Report(p, name, f);
    RunPut(start, script, board, p.reason, ReasonLabels(name, f), Finite(1.0));
    var b1 := Put(board, p.reason, ReasonLabels(name, f), Finite(1.0));
    RunPut(start, script + [all[0]], b1, p.detail, DetailLabels(name, f), Finite(1.0));
    var b2 := Put(b1, p.detail, DetailLabels(name, f), Finite(1.0));
    RunPut(start, script + [all[0]] + [all[1]], b2, p.up, Two(name), Finite(0.0));
    assert script + all == script + [all[0]] + [all[1]] + [all[2]];
  }

  // ---- the published explanations match the record --------------------------------

  type Record = map<string, Failure>

  function Prior(record: Record, name: string): Option<Failure> {
    if name in record then Some(record[name]) else None
  }

  function ReasonTags(record: Record): set<Labels> {
    set name | name in record :: ReasonLabels(name, record[name])
  }

  function DetailTags(record: Record): set<Labels> {
    set name | name in record :: DetailLabels(name, record[name])
  }

  /** Exactly the recorded failures are published, one explanation a dataset. */
  predicate Matches(record: Record, board: Board, p: Panel)
    requires Fits(board, p)
  {
    board[p.reason].samples.Keys == ReasonTags(record) && board[p.detail].samples.Keys == DetailTags(record)
  }

  lemma TagsWithout(record: Record, name: string)
    requires name in record
    ensures ReasonTags(record - {name}) == ReasonTags(record) - {ReasonLabels(name, record[name])}
    ensures DetailTags(record - {name}) == DetailTags(record) - {DetailLabels(name, record[name])}
  {
    var less := record - {name};
    assert less[name := record[name]] == record;
    TagsWith(less, name, record[name]);
    forall n | n in less
      ensures ReasonLabels(n, less[n]) != ReasonLabels(name, record[name])
      ensures DetailLabels(n, less[n]) != DetailLabels(name, record[name])
    {
      assert ReasonLabels(n, less[n]).values[0] == n && ReasonLabels(name, record[name]).values[0] == name;
      assert DetailLabels(n, less[n]).values[0] == n && DetailLabels(name, record[name]).values[0] == name;
    }
  }

  lemma TagsWith(record: Record, name: string, f: Failure)
    requires name !in record
    ensures ReasonTags(record[name := f]) == ReasonTags(record) + {ReasonLabels(name, f)}
    ensures DetailTags(record[name := f]) == DetailTags(record) + {DetailLabels(name, f)}
  {
    var more := record[name := f];
    assert ReasonLabels(name, more[name]) in ReasonTags(more);
    assert DetailLabels(name, more[name]) in DetailTags(more);
    forall n | n in record ensures n in more && more[n] == record[n] {
    }
  }

  lemma SuccessTags(board: Board, p: Panel, name: string, now: real, prior: Option<Failure>)
    requires p.Valid() && Fits(board, p)
    ensures var after := AfterSuccess(board, p, name, now, prior);
            && Fits(after, p)
            && after[p.reason].samples.Keys
               == board[p.reason].samples.Keys - (if prior.Some? then {ReasonLabels(name, prior.value)} else {})
            && after[p.detail].samples.Keys
               == board[p.detail].samples.Keys - (if prior.Some? then {DetailLabels(name, prior.value)} else {})
  {
  }

  lemma FailureTags(board: Board, p: Panel, name: string, count: nat, prior: Option<Failure>, f: Failure)
    requires p.Valid() && Fits(board, p)
    ensures var after := AfterFailure(board, p, name, count, prior, f);
            && Fits(after, p)
            && after[p.reason].samples.Keys
               == board[p.reason].samples.Keys - (if prior.Some? then {ReasonLabels(name, prior.value)} else {})
                  + {ReasonLabels(name, f)}
            && after[p.detail].samples.Keys
               == board[p.detail].samples.Keys - (if prior.Some? then {DetailLabels(name, prior.value)} else {})
                  + {DetailLabels(name, f)}
  {
  }

  lemma PriorIsPublished(record: Record, board: Board, p: Panel, name: string)
    requires Fits(board, p) && Matches(record, board, p)
    ensures Published(board, p, name, Prior(record, name))
  {
  }

  /** A success withdraws exactly the explanation of its dataset. */
  lemma SuccessKeepsMatch(record: Record, board: Board, p: Panel, name: string, now: real)
    requires p.Valid() && Fits(board, p) && Matches(record, board, p)
    ensures Fits(AfterSuccess(board, p, name, now, Prior(record, name)), p)
    ensures Matches(record - {name}, AfterSuccess(board, p, name, now, Prior(record, name)), p)
  {
    SuccessTags(board, p, name, now, Prior(record, name));
    if name in record {
      TagsWithout(record, name);
    } else {
      assert record - {name} == record;
    }
  }

  /** A failure leaves its dataset with exactly the new explanation. */
  lemma FailureKeepsMatch(record: Record, board: Board, p: Panel, name: string, count: nat, f: Failure)
    requires p.Valid() && Fits(board, p) && Matches(record, board, p)
    ensures Fits(AfterFailure(board, p, name, count, Prior(record, name), f), p)
    ensures Matches(record[name := f], AfterFailure(board, p, name, count, Prior(record, name), f), p)
  {
    FailureTags(board, p, name, count, Prior(record, name), f);
    TagsReplace(record, name, f);
  }

  lemma TagsReplace(record: Record, name: string, f: Failure)
    ensures ReasonTags(record[name := f])
            == ReasonTags(record) - (if name in record then {ReasonLabels(name, record[name])} else {})
               + {ReasonLabels(name, f)}
    ensures DetailTags(record[name := f])
            == DetailTags(record) - (if name in record then {DetailLabels(name, record[name])} else {})
               + {DetailLabels(name, f)}
  {
    var less := record - {name};
    TagsWith(less, name, f);
    assert less[name := f] == record[name := f];
    if name in record {
      TagsWithout(record, name);
    } else {
      assert less == record;
    }
  }

  // ---- a rejected commit ----------------------------------------------------------------

  /** Staged writers write families already replaced in the same commit. */
  ghost predicate Staged(groups: seq<Group<Family>>) {
    forall i | 0 <= i < |groups| :: Targets(groups[i].writes, Members(AllFamilies(groups[..i + 1])))
  }

  lemma {:induction false} PrefixFamilies(groups: seq<Group<Family>>, i: nat)
    requires i <= |groups|
    ensures Members(AllFamilies(groups[..i])) <= Members(AllFamilies(groups))
    decreases |groups| - i
  {
    if i == |groups| {
      assert groups[..i] == groups;
    } else {
      assert groups[..i + 1][..i] == groups[..i];
      PrefixFamilies(groups, i + 1);
    }
  }

  lemma {:induction false} ScriptTargets(groups: seq<Group<Family>>, gone: set<Family>)
    requires Reachable(groups, gone)
    ensures Targets(Script(groups), gone)
  {
    if groups != [] {
      var n := |groups| - 1;
      ScriptTargets(groups[..n], gone);
      ClearsTarget(Dedup(groups[n].families));
      DedupFacts(groups[n].families);
    }
  }

  lemma {:induction false} ClearsTarget(families: seq<Family>)
    ensures Targets(Clears(families), Members(families))
  {
    if families != [] {
      ClearsTarget(families[..|families| - 1]);
    }
  }

  lemma StagedGroup(groups: seq<Group<Family>>, i: nat)
    requires Staged(groups) && i < |groups|
    ensures Members(groups[i].families) <= Members(AllFamilies(groups))
    ensures Targets(groups[i].writes, Members(AllFamilies(groups)))
    ensures KeepsTo(groups[i].writes, AllFamilies(groups), AllFamilies(groups[..i + 1]))
  {
    assert groups[..i + 1][..i] == groups[..i];
    PrefixFamilies(groups, i + 1);
  }

  lemma StagedFacts(groups: seq<Group<Family>>)
    requires Staged(groups)
    ensures Disciplined(groups)
    ensures Reachable(groups, Members(AllFamilies(groups)))
    ensures Targets(Script(groups), Members(AllFamilies(groups)))
  {
    forall i | 0 <= i < |groups|
      ensures Members(groups[i].families) <= Members(AllFamilies(groups))
              && Targets(groups[i].writes, Members(AllFamilies(groups)))
              && KeepsTo(groups[i].writes, AllFamilies(groups), AllFamilies(groups[..i + 1]))
    {
      StagedGroup(groups, i);
    }
    ScriptTargets(groups, Members(AllFamilies(groups)));
  }

  /** The staged script leaves a family it does not replace as it was. */
  lemma ScriptSkips(groups: seq<Group<Family>>, start: Board, f: Family)
    requires Staged(groups) && f in start && f !in AllFamilies(groups) && Run(start, Script(groups)).Some?
    ensures f in Run(start, Script(groups)).value && Run(start, Script(groups)).value[f] == start[f]
  {
    StagedFacts(groups);
    EffectIsLocal(start, Script(groups), f);
    UntouchedStays(start[f], f, Script(groups));
  }

  lemma ScriptSkipsPanel(groups: seq<Group<Family>>, start: Board, p: Panel)
    requires Staged(groups) && Fits(start, p) && Run(start, Script(groups)).Some? && Aside(p, groups)
    ensures var after := Run(start, Script(groups)).value;
            Fits(after, p) && forall f | f in p.Own() :: f in start && after[f] == start[f]
  {
    forall f | f in p.Own()
      ensures f in start && f in Run(start, Script(groups)).value && Run(start, Script(groups)).value[f] == start[f]
    {
      ScriptSkips(groups, start, f);
    }
  }

  /** The panel is not among the replaced families. */
  predicate Aside(p: Panel, groups: seq<Group<Family>>) {
    p.Own() !! Members(AllFamilies(groups))
  }

  /** Rolled back within its staged part, a commit leaves nothing behind. */
  lemma StagedRollsBack(groups: seq<Group<Family>>, start: Board, done: seq<Action<Family>>)
    requires Staged(groups) && done <= Script(groups)
    ensures RolledBack(start, done) == start
  {
    StagedFacts(groups);
    forall f | f in start ensures RolledBack(start, done)[f] == start[f] {
      if f in AllFamilies(groups) {
        assert Script(groups) + [] == Script(groups);
        ReplacedComesBack(start, groups, [], done, f);
      } else {
        ClearedComesBack(start[f], f, done);
      }
    }
  }

  /** A value in a child that exists. */
  function Over(board: Board, f: Family, labels: Labels, value: Value): Board
    requires f in board
  {
    if labels in board[f].samples then Put(board, f, labels, value) else board
  }

  /** Nothing took the child away. */
  predicate Stays(f: Family, labels: Labels, done: seq<Action<Family>>) {
    On(f, Clear) !in done && On(f, Remove(labels)) !in done
  }

  lemma {:induction false} StaysAttached(f: Family, labels: Labels, done: seq<Action<Family>>)
    requires Stays(f, labels, done)
    ensures Attached(f, labels, done)
  {
    if done != [] {
      StaysAttached(f, labels, done[..|done| - 1]);
    }
  }

  /** A rollback after one more write keeps that write if the child was there. */
  lemma RollSet(start: Board, done: seq<Action<Family>>, f: Family, labels: Labels, value: Value)
    requires f in start && start[f].shape.labelnames != [] && Stays(f, labels, done)
    ensures RolledBack(start, done + [On(f, Set(labels, value))]) == Over(RolledBack(start, done), f, labels, value)
  {
    StaysAttached(f, labels, done);
    RemainsIsLeftover(start[f].samples, f, done);
    RollOther(start, done, On(f, Set(labels, value)));
    RemainsMore(start[f].samples, f, done, On(f, Set(labels, value)));
    assert RolledBack(start, done + [On(f, Set(labels, value))])[f]
           == Over(RolledBack(start, done), f, labels, value)[f];
  }

  /** A removal is undone. */
  lemma RollRemove(start: Board, done: seq<Action<Family>>, f: Family, labels: Labels)
    requires f in start
    ensures RolledBack(start, done + [On(f, Remove(labels))]) == RolledBack(start, done)
  {
    RollOther(start, done, On(f, Remove(labels)));
    RemainsMore(start[f].samples, f, done, On(f, Remove(labels)));
  }

  lemma RollOther(start: Board, done: seq<Action<Family>>, action: Action<Family>)
    requires action.On?
    ensures forall g | g in start && g != action.family ::
              RolledBack(start, done + [action])[g] == RolledBack(start, done)[g]
  {
    forall g | g in start && g != action.family
      ensures RolledBack(start, done + [action])[g] == RolledBack(start, done)[g]
    {
      RemainsMore(start[g].samples, g, done, action);
    }
  }

  /** The values of the writes in the children that exist. */
  function Overlay(board: Board, writes: seq<Action<Family>>): Board {
    if writes == [] then board
    else
      var before, last := Overlay(board, writes[..|writes| - 1]), writes[|writes| - 1];
      if last.On? && last.change.Set? && last.family in before
      then Over(before, last.family, last.change.labels, last.change.value) else before
  }

  /** Values written into labelled families that `done` does not touch. */
  predicate Additions(writes: seq<Action<Family>>, start: Board, done: seq<Action<Family>>) {
    && (forall a | a in writes :: a.On? && a.change.Set? && a.family in start && start[a.family].shape.labelnames != [])
    && forall a, b | a in writes && b in done && b.On? :: a.family != b.family
  }

  lemma {:induction false} SetsRollBack(start: Board, done: seq<Action<Family>>, writes: seq<Action<Family>>)
    requires Additions(writes, start, done)
    ensures RolledBack(start, done + writes) == Overlay(RolledBack(start, done), writes)
    ensures Overlay(RolledBack(start, done), writes).Keys == start.Keys
  {
    if writes == [] {
      assert done + writes == done;
    } else {
      var n := |writes| - 1;
      var last := writes[n];
      assert writes == writes[..n] + [last];
      SetsRollBack(start, done, writes[..n]);
      assert done + writes == done + writes[..n] + [last];
      RollSet(start, done + writes[..n], last.family, last.change.labels, last.change.value);
    }
  }

  lemma {:induction false} OverlayElse(board: Board, writes: seq<Action<Family>>, f: Family)
    requires f in board && forall a | a in writes && a.On? :: a.family != f
    ensures f in Overlay(board, writes) && Overlay(board, writes)[f] == board[f]
  {
    if writes != [] {
      var n := |writes| - 1;
      assert writes == writes[..n] + [writes[n]];
      OverlayElse(board, writes[..n], f);
    }
  }

  /** A family written once. */
  lemma {:induction false} OverlayAt(board: Board, writes: seq<Action<Family>>, f: Family, labels: Labels,
                                     value: Value, i: nat)
    requires f in board && i < |writes| && writes[i] == On(f, Set(labels, value))
    requires forall j | 0 <= j < |writes| && j != i && writes[j].On? :: writes[j].family != f
    ensures f in Overlay(board, writes)
    ensures Overlay(board, writes)[f] == board[f].(samples := Kept(board[f].samples, labels, value, true))
  {
    var n := |writes| - 1;
    if i == n {
      OverlayElse(board, writes[..n], f);
    } else {
      OverlayAt(board, writes[..n], f, labels, value, i);
    }
  }

  /** The samples of a family after a failed attempt. */
  function Kept(samples: Contents, labels: Labels, value: Value, reached: bool): Contents {
    if reached && labels in samples then samples[labels := value] else samples
  }

  /** The success writer sets five values in five families. */
  lemma FiveSets(p: Panel, name: string, now: real)
    requires p.Valid()
    ensures var sets := SuccessWrites(p, name, now, None);
            && |sets| == 5
            && sets[0] == On(p.lastSuccess, Set(One(name), Finite(now)))
            && sets[1] == On(p.up, Set(Two(name), Finite(1.0)))
            && sets[2] == On(p.current, Set(Two(name), Finite(1.0)))
            && sets[3] == On(p.stamp, Set(Two(name), Finite(now)))
            && sets[4] == On(p.streak, Set(One(name), Finite(0.0)))
            && (forall i, j | 0 <= i < j < 5 :: sets[i].family != sets[j].family)
            && forall i | 0 <= i < 5 :: sets[i].family in p.Own() - {p.reason, p.detail}
  {
  }

  lemma SetsAreAdditions(groups: seq<Group<Family>>, start: Board, p: Panel, name: string, now: real)
    requires p.Valid() && Staged(groups) && Fits(start, p) && Aside(p, groups)
    ensures Additions(SuccessWrites(p, name, now, None), start, Script(groups))
  {
    StagedFacts(groups);
    FiveSets(p, name, now);
    forall a | a in SuccessWrites(p, name, now, None)
      ensures a.family in start && start[a.family].shape == a.family.shape
    {
    }
  }

  /** A rollback after the staged part and the success writer. */
  lemma SuccessRollsBack(groups: seq<Group<Family>>, start: Board, p: Panel, name: string, now: real,
                         prior: Option<Failure>)
    requires p.Valid() && Staged(groups) && Fits(start, p) && Aside(p, groups)
    ensures RolledBack(start, Script(groups) + SuccessWrites(p, name, now, prior))
            == Overlay(start, SuccessWrites(p, name, now, None))
  {
    SetsAreAdditions(groups, start, p, name, now);
    StagedRollsBack(groups, start, Script(groups));
    SetsRollBack(start, Script(groups), SuccessWrites(p, name, now, None));
    RemovalsRollBack(start, Script(groups), p, name, now, prior);
  }

  lemma RemovalsRollBack(start: Board, done: seq<Action<Family>>, p: Panel, name: string, now: real,
                         prior: Option<Failure>)
    requires p.reason in start && p.detail in start
    ensures RolledBack(start, done + SuccessWrites(p, name, now, prior))
            == RolledBack(start, done + SuccessWrites(p, name, now, None))
  {
    if prior.None? {
      return;
    }
    var sets := done + SuccessWrites(p, name, now, None);
    var reason, detail := ReasonLabels(name, prior.value), DetailLabels(name, prior.value);
    RollRemove(start, sets, p.reason, reason);
    RollRemove(start, sets + [On(p.reason, Remove(reason))], p.detail, detail);
    assert done + SuccessWrites(p, name, now, prior)
        == sets + [On(p.reason, Remove(reason))] + [On(p.detail, Remove(detail))];
  }

  // ---- one observed attempt ------------------------------------------------------------

  /** What the collector's body came to: the replacements it staged, whether it
      raised, and the failure to record if it or the commit did. */
  datatype Body = Body(staged: seq<Group<Family>>, raised: bool, cause: Failure)

  /** What a commit of the body makes of the families. */
  function Committed(board: Board, p: Panel, record: Record, name: string, body: Body, now: real): Option<Board> {
    Run(board, Script(body.staged) + SuccessWrites(p, name, now, Prior(record, name)))
  }

  predicate Accepted(board: Board, p: Panel, record: Record, name: string, body: Body, now: real) {
    !body.raised && Acceptable(Committed(board, p, record, name, body, now), Dedup(AllFamilies(body.staged)))
  }

  /** The families after a failed attempt, before the failure is recorded. */
  function Undone(board: Board, p: Panel, record: Record, name: string, body: Body, now: real): Board {
    if body.raised then board
    else RolledBack(board, Done(board, Script(body.staged) + SuccessWrites(p, name, now, Prior(record, name))))
  }

  /** The success writer was reached. */
  predicate Reached(board: Board, body: Body) {
    !body.raised && Run(board, Script(body.staged)).Some?
  }

  /** Where an attempt begins: the panel shows the record, and is not replaced. */
  ghost predicate Ready(board: Board, p: Panel, record: Record, body: Body) {
    && p.Valid() && Fits(board, p) && Matches(record, board, p)
    && Staged(body.staged) && Aside(p, body.staged)
  }

  /** A failed attempt leaves the success values exactly when its staged script ran,
      in exactly the children that existed; nothing else is left of it. */
  lemma UndoneExactly(board: Board, p: Panel, record: Record, name: string, body: Body, now: real)
    requires Ready(board, p, record, body)
    ensures Undone(board, p, record, name, body, now)
            == if Reached(board, body) then Overlay(board, SuccessWrites(p, name, now, None)) else board
  {
    var staged, writes := Script(body.staged), SuccessWrites(p, name, now, Prior(record, name));
    var done := Done(board, staged + writes);
    DoneStops(board, staged + writes);
    if Reached(board, body) {
      CommitOutcome(body.staged, board, p, record, name, now);
      StopsIsDone(board, staged + writes, done);
      SuccessRollsBack(body.staged, board, p, name, now, Prior(record, name));
    } else if !body.raised {
      StopsWithin(board, staged, writes, done);
      StagedRollsBack(body.staged, board, done);
    }
  }

  lemma StopsWithin(start: Board, part: seq<Action<Family>>, more: seq<Action<Family>>, done: seq<Action<Family>>)
    requires Stops(start, part + more, done) && Run(start, part).None?
    ensures done <= part
  {
    assert (part + more)[..|part|] == part;
    if |done| < |part| {
      assert done == (part + more)[..|done|] == part[..|done|];
    } else {
      EarlierRuns(start, part + more, done, |part|);
    }
  }

  /** The families after an attempt. */
  function Observed(board: Board, p: Panel, l: Ledger, name: string, body: Body, now: real): Option<Board> {
    if Accepted(board, p, l.record, name, body, now) then Committed(board, p, l.record, name, body, now)
    else Run(Undone(board, p, l.record, name, body, now), Recorded(p, l, name, body.cause))
  }

  /** The writes that record a failure. */
  function Recorded(p: Panel, l: Ledger, name: string, f: Failure): seq<Action<Family>> {
    FailureWrites(p, name, l.Failures(name) + 1, Prior(l.record, name), f)
  }

  predicate Shows(board: Board, f: Family, labels: Labels, number: real) {
    f in board && labels in board[f].samples && board[f].samples[labels] == Finite(number)
  }

  predicate ShowsSuccess(board: Board, p: Panel, name: string, now: real) {
    && Shows(board, p.lastSuccess, One(name), now) && Shows(board, p.streak, One(name), 0.0)
    && Shows(board, p.up, Two(name), 1.0) && Shows(board, p.current, Two(name), 1.0)
    && Shows(board, p.stamp, Two(name), now)
  }

  /** The failures in a row, the dataset down, and the explanation shown with value one. */
  predicate ShowsFailure(board: Board, p: Panel, name: string, count: nat, f: Failure) {
    && Shows(board, p.reason, ReasonLabels(name, f), 1.0) && Shows(board, p.detail, DetailLabels(name, f), 1.0)
    && Shows(board, p.streak, One(name), count as real) && Shows(board, p.up, Two(name), 0.0)
  }

  lemma SuccessShows(board: Board, p: Panel, name: string, now: real, prior: Option<Failure>)
    requires p.Valid() && Fits(board, p)
    ensures ShowsSuccess(AfterSuccess(board, p, name, now, prior), p, name, now)
  {
  }

  lemma FailureShows(board: Board, p: Panel, name: string, count: nat, prior: Option<Failure>, f: Failure)
    requires p.Valid() && Fits(board, p)
    ensures ShowsFailure(AfterFailure(board, p, name, count, prior, f), p, name, count, f)
  {
  }

  /** The success writer never raises, so the commit stands or falls with the
      collector's own families. */
  lemma CommitOutcome(groups: seq<Group<Family>>, start: Board, p: Panel, record: Record, name: string, now: real)
    requires p.Valid() && Staged(groups) && Fits(start, p) && Matches(record, start, p) && Aside(p, groups)
    ensures var result := Run(start, Script(groups) + SuccessWrites(p, name, now, Prior(record, name)));
            && (result.Some? <==> Run(start, Script(groups)).Some?)
            && (result.Some? ==> Fits(result.value, p) && Matches(record - {name}, result.value, p)
                                 && ShowsSuccess(result.value, p, name, now))
  {
    RunJoin(start, Script(groups), SuccessWrites(p, name, now, Prior(record, name)));
    if Run(start, Script(groups)).Some? {
      var mid := Run(start, Script(groups)).value;
      ScriptSkipsPanel(groups, start, p);
      assert mid[p.reason] == start[p.reason] && mid[p.detail] == start[p.detail];
      PriorIsPublished(record, mid, p, name);
      SuccessAlwaysRuns(mid, p, name, now, Prior(record, name));
      SuccessKeepsMatch(record, mid, p, name, now);
      SuccessShows(mid, p, name, now, Prior(record, name));
    }
  }

  lemma FailureLeaves(board: Board, p: Panel, name: string, count: nat, prior: Option<Failure>, f: Failure)
    requires p.Valid() && Fits(board, p)
    ensures var after := AfterFailure(board, p, name, count, prior, f);
            Leaves(board, after, p)
  {
  }

  /** What recording a failure does not touch: the success values, and other families. */
  predicate Leaves(board: Board, after: Board, p: Panel) {
    && Fits(board, p) && Fits(after, p)
    && (forall g | g in board && g !in p.Own() :: g in after && after[g] == board[g])
    && after[p.lastSuccess] == board[p.lastSuccess] && after[p.current] == board[p.current]
    && after[p.stamp] == board[p.stamp]
  }

  /** Recording a failure never raises, and replaces the explanation published. */
  lemma FailureOutcome(board: Board, p: Panel, record: Record, name: string, count: nat, f: Failure)
    requires p.Valid() && Fits(board, p) && Matches(record, board, p)
    ensures var result := Run(board, FailureWrites(p, name, count, Prior(record, name), f));
            && result.Some? && Fits(result.value, p) && Matches(record[name := f], result.value, p)
            && ShowsFailure(result.value, p, name, count, f) && Leaves(board, result.value, p)
  {
    PriorIsPublished(record, board, p, name);
    FailureAlwaysRuns(board, p, name, count, Prior(record, name), f);
    FailureKeepsMatch(record, board, p, name, count, f);
    FailureShows(board, p, name, count, Prior(record, name), f);
    FailureLeaves(board, p, name, count, Prior(record, name), f);
  }

  /** The ledger after an attempt. */
  function Entered(l: Ledger, name: string, body: Body, ok: bool): Ledger {
    if ok then l.Succeeded(name) else l.Failed(name, body.cause)
  }

  /** The panel tells the outcome, and explains exactly the recorded failures. */
  predicate Tells(after: Option<Board>, p: Panel, l: Ledger, name: string, body: Body, now: real, ok: bool) {
    && after.Some? && Fits(after.value, p) && Matches(Entered(l, name, body, ok).record, after.value, p)
    && if ok then ShowsSuccess(after.value, p, name, now)
       else ShowsFailure(after.value, p, name, l.Failures(name) + 1, body.cause)
  }

  lemma ObservedTells(board: Board, p: Panel, l: Ledger, name: string, body: Body, now: real)
    requires Ready(board, p, l.record, body)
    ensures Tells(Observed(board, p, l, name, body, now), p, l, name, body, now,
                  Accepted(board, p, l.record, name, body, now))
  {
    if Accepted(board, p, l.record, name, body, now) {
      CommitOutcome(body.staged, board, p, l.record, name, now);
    } else {
      UndoneFacts(board, p, l.record, name, body, now);
      RecordedOutcome(Undone(board, p, l.record, name, body, now), p, l, name, body.cause, p.Own());
    }
  }

  /** Other families are as they were, and the three times and marks of a success too,
      but for the children of the dataset, which show one if it was reached. */
  predicate Spared(board: Board, after: Board, p: Panel, name: string, now: real, reached: bool) {
    && Fits(board, p) && Fits(after, p)
    && (forall f | f in board && f !in p.Own() :: f in after && after[f] == board[f])
    && after[p.lastSuccess].samples == Kept(board[p.lastSuccess].samples, One(name), Finite(now), reached)
    && after[p.current].samples == Kept(board[p.current].samples, Two(name), Finite(1.0), reached)
    && after[p.stamp].samples == Kept(board[p.stamp].samples, Two(name), Finite(now), reached)
  }

  /** The published explanations are as they were too. */
  predicate Marked(board: Board, mid: Board, p: Panel, name: string, now: real, reached: bool) {
    Spared(board, mid, p, name, now, reached) && mid[p.reason] == board[p.reason] && mid[p.detail] == board[p.detail]
  }

  lemma SuccessOverlay(board: Board, p: Panel, name: string, now: real)
    requires p.Valid() && Fits(board, p)
    ensures Marked(board, Overlay(board, SuccessWrites(p, name, now, None)), p, name, now, true)
  {
    var sets := SuccessWrites(p, name, now, None);
    FiveSets(p, name, now);
    forall f | f in board && (f !in p.Own() || f in {p.reason, p.detail})
      ensures f in Overlay(board, sets) && Overlay(board, sets)[f] == board[f]
    {
      OverlayElse(board, sets, f);
    }
    OverlayAt(board, sets, p.lastSuccess, One(name), Finite(now), 0);
    OverlayAt(board, sets, p.up, Two(name), Finite(1.0), 1);
    OverlayAt(board, sets, p.current, Two(name), Finite(1.0), 2);
    OverlayAt(board, sets, p.stamp, Two(name), Finite(now), 3);
    OverlayAt(board, sets, p.streak, One(name), Finite(0.0), 4);
  }

  lemma UndoneFacts(board: Board, p: Panel, record: Record, name: string, body: Body, now: real)
    requires Ready(board, p, record, body)
    ensures var mid := Undone(board, p, record, name, body, now);
            Marked(board, mid, p, name, now, Reached(board, body)) && Matches(record, mid, p)
  {
    UndoneExactly(board, p, record, name, body, now);
    SuccessOverlay(board, p, name, now);
  }

  /** After a failed attempt the replaced families are as they were. The time of the
      last success, the freshness mark and its time stamp are as they were too, unless
      the success writer was reached: then the children of the dataset that existed
      show a success. */
  lemma FailedAttempt(board: Board, p: Panel, l: Ledger, name: string, body: Body, now: real)
    requires Ready(board, p, l.record, body) && !Accepted(board, p, l.record, name, body, now)
    ensures var after := Observed(board, p, l, name, body, now);
            after.Some? && Spared(board, after.value, p, name, now, Reached(board, body))
  {
    UndoneFacts(board, p, l.record, name, body, now);
    var mid := Undone(board, p, l.record, name, body, now);
    RecordedOutcome(mid, p, l, name, body.cause, p.Own());
    StillSpared(board, mid, Observed(board, p, l, name, body, now).value, p, name, now, Reached(board, body));
  }

  lemma StillSpared(board: Board, mid: Board, after: Board, p: Panel, name: string, now: real, reached: bool)
    requires Spared(board, mid, p, name, now, reached) && Leaves(mid, after, p)
    ensures Spared(board, after, p, name, now, reached)
  {
  }

  /** A failed attempt moves the time of an earlier success if and only if its staged
      script ran: the commit was then rejected by its validation alone. */
  lemma ClaimsSuccessExactly(board: Board, p: Panel, l: Ledger, name: string, body: Body, now: real)
    requires Ready(board, p, l.record, body) && !Accepted(board, p, l.record, name, body, now)
    requires One(name) in board[p.lastSuccess].samples && !Shows(board, p.lastSuccess, One(name), now)
    ensures var after := Observed(board, p, l, name, body, now);
            after.Some? && (Shows(after.value, p.lastSuccess, One(name), now) <==> Reached(board, body))
  {
    FailedAttempt(board, p, l, name, body, now);
  }

  /** Such an attempt: a dataset that succeeded before stages one value that is no
      number. Its time of last success is then that of the rejected attempt, and the
      dataset is marked fresh. */
  lemma RejectedClaims(board: Board, p: Panel, l: Ledger, name: string, f: Family, labels: Labels, cause: Failure,
                       now: real)
    requires p.Valid() && Fits(board, p) && Matches(l.record, board, p) && Has(board, f) && f !in p.Own()
    requires !f.shape.info && |labels.values| == |f.shape.labelnames|
    requires One(name) in board[p.lastSuccess].samples && Two(name) in board[p.current].samples
    requires Two(name) in board[p.stamp].samples
    ensures var body := Body([Group([f], [On(f, Set(labels, NotFinite))])], false, cause);
            var after := Observed(board, p, l, name, body, now);
            && !Accepted(board, p, l.record, name, body, now) && after.Some?
            && f in after.value && after.value[f] == board[f]
            && Shows(after.value, p.lastSuccess, One(name), now)
            && Shows(after.value, p.current, Two(name), 1.0) && Shows(after.value, p.stamp, Two(name), now)
  {
    var group := Group([f], [On(f, Set(labels, NotFinite))]);
    var body := Body([group], false, cause);
    PoisonRuns(board, f, labels);
    PoisonIsStaged(f, labels);
    CommitOutcome(body.staged, board, p, l.record, name, now);
    PoisonStays(board, p, l.record, name, body, f, labels, now);
    FailedAttempt(board, p, l, name, body, now);
  }

  lemma PoisonIsStaged(f: Family, labels: Labels)
    ensures var groups := [Group([f], [On(f, Set(labels, NotFinite))])];
            Staged(groups) && AllFamilies(groups) == [f]
  {
    var groups := [Group([f], [On(f, Set(labels, NotFinite))])];
    SingleGroup(groups[0]);
    assert groups[..1] == groups;
    assert f in [f];
  }

  lemma PoisonRuns(board: Board, f: Family, labels: Labels)
    requires Has(board, f) && !f.shape.info && |labels.values| == |f.shape.labelnames|
    ensures var result := Run(board, Script([Group([f], [On(f, Set(labels, NotFinite))])]));
            && result.Some? && f in result.value && labels in result.value[f].samples
            && result.value[f].samples[labels] == NotFinite && result.value.Keys == board.Keys
  {
    var write := On(f, Set(labels, NotFinite));
    SingleGroup(Group([f], [write]));
    DedupDistinct([f]);
    ClearsStep([f], 0);
    assert [f][..0] == [] && [f][..1] == [f];
    assert Script([Group([f], [write])]) == [On(f, Clear)] + [write];
    assert [] + [On(f, Clear)] == [On(f, Clear)];
    RunMore(board, [], board, On(f, Clear));
    var cleared := board[f := Changed(board[f], Clear)];
    RunMore(board, [On(f, Clear)], cleared, write);
  }

  /** The success writer does not reach the poisoned family. */
  lemma PoisonStays(board: Board, p: Panel, record: Record, name: string, body: Body, f: Family, labels: Labels,
                    now: real)
    requires f !in p.Own() && Committed(board, p, record, name, body, now).Some?
    requires Run(board, Script(body.staged)).Some?
    requires var mid := Run(board, Script(body.staged)).value;
             f in mid && labels in mid[f].samples && mid[f].samples[labels] == NotFinite
    ensures !Accepted(board, p, record, name, body, now)
  {
    var writes, mid := SuccessWrites(p, name, now, Prior(record, name)), Run(board, Script(body.staged)).value;
    RunJoin(board, Script(body.staged), writes);
    SuccessTargets(p, name, now, Prior(record, name));
    EffectIsLocal(mid, writes, f);
    UntouchedStays(mid[f], f, writes);
  }

  /** The dictionaries of the package: consecutive failures, the latest outcome, and
      the latest failure of each dataset. */
  datatype Ledger = Ledger(failures: map<string, nat>, outcomes: map<string, Option<bool>>, record: Record)
  {
    function Failures(name: string): nat {
      if name in failures then failures[name] else 0
    }

    function Outcome(name: string): Option<bool> {
      if name in outcomes then outcomes[name] else None
    }

    function Attempted(name: string): Ledger {
      this.(outcomes := outcomes[name := None])
    }

    function Failed(name: string, f: Failure): Ledger {
      Ledger(failures[name := Failures(name) + 1], outcomes[name := Some(false)], record[name := f])
    }

    function Succeeded(name: string): Ledger {
      Ledger(failures[name := 0], outcomes[name := Some(true)], record - {name})
    }
  }

  /** The entries of every other dataset are the same. */
  predicate AlikeBut(was: Ledger, now: Ledger, name: string) {
    && now.failures - {name} == was.failures - {name}
    && now.outcomes - {name} == was.outcomes - {name}
    && now.record - {name} == was.record - {name}
  }

  /** What the record says after an attempt: its outcome, the failures in a row, and an
      explanation exactly if it failed. */
  predicate AfterAttempt(was: Ledger, now: Ledger, name: string, ok: bool, cause: Failure) {
    && now.Outcome(name) == Some(ok)
    && (if ok then now.Failures(name) == 0 else now.Failures(name) == was.Failures(name) + 1)
    && (name in now.record <==> !ok) && (!ok ==> now.record[name] == cause)
    && AlikeBut(was, now, name)
  }

  // ---- the record over a history of attempts ------------------------------------------

  /** An attempt as it came out, with the failure recorded if it failed. */
  datatype Attempt = Attempt(name: string, ok: bool, cause: Failure)

  function Replayed(history: seq<Attempt>): Ledger {
    if history == [] then Ledger(map[], map[], map[])
    else
      var before, last := Replayed(history[..|history| - 1]), history[|history| - 1];
      if last.ok then before.Succeeded(last.name) else before.Failed(last.name, last.cause)
  }

  /** The attempts on one dataset. */
  function Of(history: seq<Attempt>, name: string): seq<Attempt> {
    if history == [] then []
    else
      var last := history[|history| - 1];
      Of(history[..|history| - 1], name) + (if last.name == name then [last] else [])
  }

  /** The last `count` of these attempts failed, and the one before them did not. */
  predicate EndsWithFailures(attempts: seq<Attempt>, count: nat) {
    && count <= |attempts|
    && (forall i | |attempts| - count <= i < |attempts| :: !attempts[i].ok)
    && (count < |attempts| ==> attempts[|attempts| - count - 1].ok)
  }

  /** Over any history the record tells, of each dataset, how its last attempt came out,
      how many failed since the last success, and the cause of the last if it failed. */
  lemma {:induction false} RecordTellsHistory(history: seq<Attempt>, name: string)
    ensures var l, mine := Replayed(history), Of(history, name);
            && EndsWithFailures(mine, l.Failures(name))
            && l.Outcome(name) == (if mine == [] then None else Some(mine[|mine| - 1].ok))
            && (name in l.record <==> mine != [] && !mine[|mine| - 1].ok)
            && (name in l.record ==> l.record[name] == mine[|mine| - 1].cause)
  {
    if history != [] {
      RecordTellsHistory(history[..|history| - 1], name);
    }
  }

  lemma EnteredFacts(l: Ledger, name: string, body: Body, ok: bool)
    ensures AfterAttempt(l, Entered(l, name, body, ok), name, ok, body.cause)
  {
    var next := Entered(l, name, body, ok);
    assert next.failures - {name} == l.failures - {name};
    assert next.outcomes - {name} == l.outcomes - {name};
    assert next.record - {name} == l.record - {name};
  }

  ghost predicate Explains(fs: set<Family>, p: Panel, record: Record)
    reads fs, Kids(fs)
  {
    && p.Own() <= fs && p.Valid() && AllValid(fs)
    && Fits(View(fs), p) && Matches(record, View(fs), p)
  }

  class Monitor {
    const panel: Panel
    const own: set<Family>
    var ledger: Ledger

    constructor (panel: Panel)
      ensures this.panel == panel && own == panel.Own() && ledger == Ledger(map[], map[], map[])
    {
      this.panel, own := panel, panel.Own();
      ledger := Ledger(map[], map[], map[]);
    }

    /** The published explanations are exactly the recorded failures. */
    ghost predicate Valid()
      reads this, own, Kids(own)
    {
      own == panel.Own() && Explains(own, panel, ledger.record)
    }

    method BeginAttempt(name: string)
      modifies this
      ensures ledger.Outcome(name) == None && AlikeBut(old(ledger), ledger, name)
      ensures ledger.failures == old(ledger).failures && ledger.record == old(ledger).record
    {
      ledger := ledger.Attempted(name);
    }

    /** Counts and publishes a failure in place of the previous one. */
    method RecordFailure(name: string, f: Failure)
      requires Valid()
      modifies this, own, Kids(own)
      ensures Valid() && AfterAttempt(old(ledger), ledger, name, false, f)
      ensures Run(old(View(own)), Recorded(panel, old(ledger), name, f)) == Some(View(own))
      ensures ShowsFailure(View(own), panel, name, ledger.Failures(name), f)
    {
      var next := ledger.Failed(name, f);
      EnteredFacts(ledger, name, Body([], true, f), false);
      PublishFailure(panel, ledger, name, f, own);
      Enter(next, own);
    }

    /** One observed attempt: the commit of what the body staged, with the success
        metadata; or, when the body or the commit raises, a recorded failure. `fs` are
        the replaced families and the panel's. */
    method Observe(name: string, body: Body, now: real, ghost fs: set<Family>) returns (ok: bool)
      requires Valid() && Staged(body.staged) && Aside(panel, body.staged)
      requires fs == Members(AllFamilies(body.staged)) + own && AllValid(fs)
      modifies this, fs, Kids(fs)
      ensures Valid() && AfterAttempt(old(ledger), ledger, name, ok, body.cause)
      ensures ok == Accepted(old(View(fs)), panel, old(ledger).record, name, body, now)
      ensures Observed(old(View(fs)), panel, old(ledger), name, body, now) == Some(View(fs))
    {
      ok := PublishAttempt(panel, ledger, name, body, now, fs);
      EnteredFacts(ledger, name, body, ok);
      Enter(Entered(ledger, name, body, ok), fs);
    }

    /** The dictionaries are updated after the metrics, which stay as they are. */
    method Enter(next: Ledger, ghost fs: set<Family>)
      requires own == panel.Own() && own <= fs && Explains(fs, panel, next.record)
      modifies this
      ensures ledger == next && Valid() && View(fs) == old(View(fs))
    {
      ledger := next;
      Untouched(fs);
      ExplainsPart(fs, panel, next.record);
    }
  }

  /** The panel reads the same in any set of families that includes it. */
  lemma ExplainsPart(fs: set<Family>, p: Panel, record: Record)
    requires p.Own() <= fs && AllValid(fs)
    ensures Explains(fs, p, record) <==> Explains(p.Own(), p, record)
  {
  }

  /** The metric side of an observed attempt. */
  method PublishAttempt(p: Panel, l: Ledger, name: string, body: Body, now: real, ghost fs: set<Family>)
    returns (ok: bool)
    requires Explains(p.Own(), p, l.record) && Staged(body.staged) && Aside(p, body.staged)
    requires fs == Members(AllFamilies(body.staged)) + p.Own() && AllValid(fs)
    modifies fs, Kids(fs)
    ensures Explains(fs, p, Entered(l, name, body, ok).record)
    ensures ok == Accepted(old(View(fs)), p, l.record, name, body, now)
    ensures Observed(old(View(fs)), p, l, name, body, now) == Some(View(fs))
  {
    ExplainsPart(fs, p, l.record);
    ghost var start := View(fs);
    ObservedTells(start, p, l, name, body, now);
    UndoneFacts(start, p, l.record, name, body, now);
    ok := false;
    if !body.raised {
      ok := CommitSuccess(p, l.record, name, body, now, fs);
    }
    if !ok {
      PublishFailure(p, l, name, body.cause, fs);
    }
  }

  /** The commit of a body that did not raise. */
  method CommitSuccess(p: Panel, record: Record, name: string, body: Body, now: real, ghost fs: set<Family>)
    returns (ok: bool)
    requires Explains(fs, p, record) && Staged(body.staged) && Aside(p, body.staged) && !body.raised
    requires fs == Members(AllFamilies(body.staged)) + p.Own()
    modifies fs, Kids(fs)
    ensures ok == Accepted(old(View(fs)), p, record, name, body, now)
    ensures ok ==> Committed(old(View(fs)), p, record, name, body, now) == Some(View(fs))
    ensures !ok ==> View(fs) == Undone(old(View(fs)), p, record, name, body, now) && Kids(fs) == old(Kids(fs))
    ensures AllValid(fs)
  {
    var writes := SuccessWrites(p, name, now, Prior(record, name));
    StagedFacts(body.staged);
    SuccessTargets(p, name, now, Prior(record, name));
    InPanel(p);
    ghost var start := View(fs);
    ok := Commit(body.staged, p.Families(), writes, fs);
  }

  /** The metric updates of a recorded failure. */
  method PublishFailure(p: Panel, l: Ledger, name: string, f: Failure, ghost fs: set<Family>)
    requires Explains(fs, p, l.record)
    modifies fs, Kids(fs)
    ensures Run(old(View(fs)), Recorded(p, l, name, f)) == Some(View(fs))
    ensures Explains(fs, p, l.Failed(name, f).record)
    ensures ShowsFailure(View(fs), p, name, l.Failed(name, f).Failures(name), f)
  {
    var writes := Recorded(p, l, name, f);
    RecordedOutcome(View(fs), p, l, name, f, fs);
    WriteAlone(writes, fs);
  }

  lemma RecordedOutcome(board: Board, p: Panel, l: Ledger, name: string, f: Failure, fs: set<Family>)
    requires p.Own() <= fs && p.Valid() && Fits(board, p) && Matches(l.record, board, p)
    ensures Targets(Recorded(p, l, name, f), fs)
    ensures var result := Run(board, Recorded(p, l, name, f));
            && result.Some? && Fits(result.value, p) && Matches(l.Failed(name, f).record, result.value, p)
            && ShowsFailure(result.value, p, name, l.Failed(name, f).Failures(name), f)
            && Leaves(board, result.value, p)
    ensures l.Failed(name, f).Failures(name) == l.Failures(name) + 1
  {
    FailureOutcome(board, p, l.record, name, l.Failures(name) + 1, f);
    FailureTargets(p, name, l.Failures(name) + 1, Prior(l.record, name), f);
  }

  lemma SuccessTargets(p: Panel, name: string, now: real, prior: Option<Failure>)
    ensures Targets(SuccessWrites(p, name, now, prior), p.Own())
  {
  }

  lemma FailureTargets(p: Panel, name: string, count: nat, prior: Option<Failure>, f: Failure)
    ensures Targets(FailureWrites(p, name, count, prior, f), p.Own())
  {
  }

  lemma InPanel(p: Panel)
    ensures p.Own() == Members(p.Families())
  {
    var all := p.Families();
    assert all[0] in all && all[1] in all && all[2] in all && all[3] in all && all[4] in all && all[5] in all
           && all[6] in all;
  }
}
