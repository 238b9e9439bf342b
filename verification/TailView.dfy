/** The id-ordered reporting view and the meaning of the three statements that
    one tailing cycle issues against it. */
module TailView {
  import opened Util

  /** One label tuple, in the counter's label order. */
  datatype Labels = Labels(values: seq<string>)

  datatype Row = Row(stamp: real, labels: Labels)

  type View = map<int, Row>

  /** `settle` and `floor` are seconds; `bound` is the byte-bounding of label
      values, which may merge two reported label tuples into one series. */
  datatype Config = Config(settle: real, floor: real, bound: Labels -> Labels)

  /** The clamps applied to the configured settle delay and backfill window. */
  function Configure(settleSeconds: int, backfillHours: int, bound: Labels -> Labels): (c: Config)
    ensures c.settle >= 0.0 && 3600.0 <= c.floor <= 86400.0
    ensures settleSeconds >= 0 ==> c.settle == settleSeconds as real
    ensures 1 <= backfillHours <= 24 ==> c.floor == 3600.0 * backfillHours as real
    ensures backfillHours > 24 ==> c.floor == 86400.0
    ensures (settleSeconds < 0 ==> c.settle == 0.0) && (backfillHours < 1 ==> c.floor == 3600.0)
  {
    Config(Max(0, settleSeconds) as real, (3600 * Max(1, Min(24, backfillHours))) as real, bound)
  }

  ghost function MinId(view: View): Option<int> {
    if view == map[] then None else Some(Least(view.Keys))
  }

  ghost function MaxId(view: View): Option<int> {
    if view == map[] then None else Some(Greatest(view.Keys))
  }

  predicate Settled(c: Config, row: Row, clock: real) {
    row.stamp < clock - c.settle
  }

  predicate AboveFloor(c: Config, row: Row, clock: real) {
    row.stamp >= clock - c.floor
  }

  /** The `new_rows` relation of the tail statement. */
  function NewRows(c: Config, view: View, hwm: int, clock: real): set<int> {
    set id | id in view && id > hwm && AboveFloor(c, view[id], clock)
  }

  /** The `boundary` relation: the lowest unsettled new id, else one past the top. */
  ghost function Boundary(c: Config, view: View, hwm: int, clock: real): int
    requires NewRows(c, view, hwm, clock) != {}
  {
    var newer := NewRows(c, view, hwm, clock);
    var unsettled := set id | id in newer && !Settled(c, view[id], clock);
    if unsettled != {} then Least(unsettled) else Greatest(newer) + 1
  }

  /** The ids whose rows the tail statement aggregates. */
  ghost function Picked(c: Config, view: View, hwm: int, clock: real): set<int> {
    set id | id in NewRows(c, view, hwm, clock)
             && Settled(c, view[id], clock) && id < Boundary(c, view, hwm, clock)
  }

  /** The statement's own wording and the intended one agree: it picks the
      settled new rows with no unsettled new row at or below them. */
  lemma PickedIsSettledPrefix(c: Config, view: View, hwm: int, clock: real, id: int)
    ensures id in Picked(c, view, hwm, clock) <==>
            id in NewRows(c, view, hwm, clock)
            && forall u | u in NewRows(c, view, hwm, clock) && u <= id :: Settled(c, view[u], clock)
  {
    var newer := NewRows(c, view, hwm, clock);
    if id in newer && Settled(c, view[id], clock) {
      var unsettled := set u | u in newer && !Settled(c, view[u], clock);
      if id >= Boundary(c, view, hwm, clock) {
        assert Boundary(c, view, hwm, clock) in unsettled;
      } else {
        forall u | u in newer && u <= id ensures Settled(c, view[u], clock) {
          assert u !in unsettled;
        }
      }
    }
  }

  /** One row of the aggregated result. */
  datatype Group = Group(values: Labels, events: nat, maxId: int)

  function Members(view: View, ids: set<int>, values: Labels): set<int> {
    set id | id in ids && id in view && view[id].labels == values
  }

  predicate Lists(groups: seq<Group>, values: Labels) {
    groups != [] && (groups[|groups| - 1].values == values || Lists(groups[..|groups| - 1], values))
  }

  /** One row of COUNT(*), MAX(id) over the ids with its label values. */
  ghost predicate Describes(view: View, ids: set<int>, g: Group) {
    var members := Members(view, ids, g.values);
    members != {} && g.events == |members| && g.maxId == Greatest(members)
  }

  /** Rows of the grouped statement in any order, no label tuple twice. */
  ghost predicate IsPartialGrouping(view: View, ids: set<int>, groups: seq<Group>) {
    groups == [] ||
    (var init, last := groups[..|groups| - 1], groups[|groups| - 1];
     IsPartialGrouping(view, ids, init) && !Lists(init, last.values) && Describes(view, ids, last))
  }

  /** `groups` is some ordering of SELECT ... COUNT(*), MAX(id) ... GROUP BY labels. */
  ghost predicate IsGrouping(view: View, ids: set<int>, groups: seq<Group>) {
    && IsPartialGrouping(view, ids, groups)
    && forall id | id in ids :: id in view && Lists(groups, view[id].labels)
  }

  function NewHwm(hwm: int, groups: seq<Group>): int {
    if groups == [] then hwm
    else Max(NewHwm(hwm, groups[..|groups| - 1]), groups[|groups| - 1].maxId)
  }

  function Total(groups: seq<Group>): nat {
    if groups == [] then 0 else Total(groups[..|groups| - 1]) + groups[|groups| - 1].events
  }

  function CountOf(counters: map<Labels, nat>, series: Labels): nat {
    if series in counters then counters[series] else 0
  }

  function Bump(counters: map<Labels, nat>, series: Labels, events: nat): map<Labels, nat> {
    if events == 0 then counters else counters[series := CountOf(counters, series) + events]
  }

  /** The counters after every group was added to the series of its bounded labels. */
  function Publish(c: Config, counters: map<Labels, nat>, groups: seq<Group>): map<Labels, nat> {
    if groups == [] then counters
    else
      var last := groups[|groups| - 1];
      Bump(Publish(c, counters, groups[..|groups| - 1]), c.bound(last.values), last.events)
  }

  /** The ids that fall in one of the groups. */
  function Covered(view: View, ids: set<int>, groups: seq<Group>): set<int> {
    set id | id in ids && id in view && Lists(groups, view[id].labels)
  }

  function InSeries(c: Config, view: View, ids: set<int>, series: Labels): set<int> {
    set id | id in ids && id in view && c.bound(view[id].labels) == series
  }

  lemma CoveredStep(view: View, ids: set<int>, groups: seq<Group>)
    requires IsPartialGrouping(view, ids, groups) && groups != []
    ensures var last := groups[|groups| - 1];
            var before, added := Covered(view, ids, groups[..|groups| - 1]), Members(view, ids, last.values);
            Covered(view, ids, groups) == before + added && before !! added
  {
    var init, last := groups[..|groups| - 1], groups[|groups| - 1];
    forall id | id in ids && id in view
      ensures id in Covered(view, ids, groups)
              <==> id in Covered(view, ids, init) || id in Members(view, ids, last.values)
    {
      assert Lists(groups, view[id].labels) <==> last.values == view[id].labels || Lists(init, view[id].labels);
    }
  }

  lemma NothingListed(view: View, ids: set<int>)
    ensures Covered(view, ids, []) == {}
  {
    forall id | id in ids && id in view ensures !Lists([], view[id].labels) { }
  }

  lemma SeriesStep(c: Config, view: View, before: set<int>, added: set<int>, values: Labels, series: Labels)
    requires before !! added
    requires forall id | id in added :: id in view && view[id].labels == values
    ensures |InSeries(c, view, before + added, series)|
         == |InSeries(c, view, before, series)| + (if c.bound(values) == series then |added| else 0)
  {
    var s0, s1 := InSeries(c, view, before, series), InSeries(c, view, added, series);
    assert InSeries(c, view, before + added, series) == s0 + s1;
    DisjointUnionSize(s0, s1);
    forall id | id in added ensures id in s1 <==> c.bound(values) == series {
      assert view[id].labels == values;
    }
    if c.bound(values) == series {
      assert s1 == added;
    } else {
      assert s1 == {};
    }
  }

  lemma {:induction false} FoldSums(c: Config, view: View, ids: set<int>, groups: seq<Group>,
                                    counters: map<Labels, nat>, series: Labels)
    requires IsPartialGrouping(view, ids, groups)
    ensures Total(groups) == |Covered(view, ids, groups)|
    ensures CountOf(Publish(c, counters, groups), series)
         == CountOf(counters, series) + |InSeries(c, view, Covered(view, ids, groups), series)|
  {
    if groups == [] {
      NothingListed(view, ids);
      assert InSeries(c, view, {}, series) == {};
    } else {
      var init, last := groups[..|groups| - 1], groups[|groups| - 1];
      CoveredStep(view, ids, groups);
      DisjointUnionSize(Covered(view, ids, init), Members(view, ids, last.values));
      FoldSums(c, view, ids, init, counters, series);
      SeriesStep(c, view, Covered(view, ids, init), Members(view, ids, last.values), last.values, series);
    }
  }

  lemma {:induction false} FoldHwm(view: View, ids: set<int>, groups: seq<Group>, hwm: int)
    requires IsPartialGrouping(view, ids, groups)
    requires forall id | id in ids :: id > hwm
    ensures groups == [] ==> NewHwm(hwm, groups) == hwm && Covered(view, ids, groups) == {}
    ensures groups != [] ==> NewHwm(hwm, groups) in Covered(view, ids, groups)
    ensures forall id | id in Covered(view, ids, groups) :: id <= NewHwm(hwm, groups)
  {
    if groups == [] {
      NothingListed(view, ids);
    } else {
      CoveredStep(view, ids, groups);
      FoldHwm(view, ids, groups[..|groups| - 1], hwm);
    }
  }

  /** What one fold of a cycle's result rows means in terms of the view's rows. */
  lemma FoldCounts(c: Config, view: View, ids: set<int>, groups: seq<Group>,
                   hwm: int, counters: map<Labels, nat>, series: Labels)
    requires IsGrouping(view, ids, groups)
    requires forall id | id in ids :: id > hwm
    ensures Total(groups) == |ids|
    ensures CountOf(Publish(c, counters, groups), series)
         == CountOf(counters, series) + |InSeries(c, view, ids, series)|
    ensures ids == {} <==> groups == []
    ensures NewHwm(hwm, groups) == if ids == {} then hwm else Greatest(ids)
  {
    FoldSums(c, view, ids, groups, counters, series);
    FoldHwm(view, ids, groups, hwm);
    assert Covered(view, ids, groups) == ids;
  }
}
