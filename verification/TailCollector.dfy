/** One tailing cycle after its reads: the reset test, the fold of the result
    rows, the cursor commit, and the later counter increments. */
module TailCollector {
  import opened Util
  import opened TailView

  /** `value` is the high-water id; `anchor` is the lowest id last seen. */
  datatype Cursor = Cursor(value: int, anchor: int)

  datatype Outcome = ColdStart | CursorReset | Quiet | Advanced

  type Increment = (Labels, nat)

  function OrZero(bound: Option<int>): int {
    if bound.Some? then bound.value else 0
  }

  /** A minimum below the anchor, or an empty tail with a maximum below the cursor. */
  predicate IsReset(cursor: Cursor, minId: Option<int>, maxId: Option<int>, rows: seq<Group>) {
    || (minId.Some? && cursor.anchor > 0 && minId.value < cursor.anchor)
    || (rows == [] && maxId.Some? && maxId.value < cursor.value)
  }

  function Decide(cursor: Option<Cursor>, minId: Option<int>, maxId: Option<int>, rows: seq<Group>): (Outcome, Cursor) {
    match cursor
    case None => (ColdStart, Cursor(OrZero(maxId), OrZero(minId)))
    case Some(c) =>
      if IsReset(c, minId, maxId, rows) then
        (CursorReset, Cursor(Max(0, OrZero(minId) - 1), OrZero(minId)))
      else if rows == [] then
        (Quiet, if minId.Some? then c.(anchor := minId.value) else c)
      else
        (Advanced, Cursor(NewHwm(c.value, rows), if minId.Some? then minId.value else c.anchor))
  }

  /** What one commit stores, outcome by outcome. A minimum that was read becomes the
      anchor in every one of them. */
  predicate Stores(was: Option<Cursor>, now: Cursor, outcome: Outcome, minId: Option<int>, maxId: Option<int>,
                   rows: seq<Group>)
  {
    && (minId.Some? ==> now.anchor == minId.value)
    && (outcome.ColdStart? <==> was.None?)
    && match outcome
       case ColdStart =>
         && now.value == (if maxId.Some? then maxId.value else 0)
         && (minId.None? ==> now.anchor == 0)
       case CursorReset =>
         && was.Some? && (minId.None? ==> now == Cursor(0, 0))
         && (minId.Some? ==> now.value >= 0 && now.value >= minId.value - 1 && now.value in {0, minId.value - 1})
       case Quiet =>
         && was.Some? && rows == []
         && now.value == was.value.value && (minId.None? ==> now.anchor == was.value.anchor)
       case Advanced =>
         && was.Some? && rows != []
         && (minId.None? ==> now.anchor == was.value.anchor) && IsHighest(now.value, was.value.value, rows)
  }

  /** The greatest of the old value and the ids of the rows. */
  predicate IsHighest(value: int, past: int, rows: seq<Group>) {
    && value >= past && (forall i | 0 <= i < |rows| :: rows[i].maxId <= value)
    && (value == past || exists i | 0 <= i < |rows| :: rows[i].maxId == value)
  }

  lemma {:induction false} HwmIsHighest(hwm: int, rows: seq<Group>)
    ensures IsHighest(NewHwm(hwm, rows), hwm, rows)
  {
    if rows != [] {
      var init := rows[..|rows| - 1];
      HwmIsHighest(hwm, init);
      assert rows == init + [rows[|rows| - 1]];
      if NewHwm(hwm, init) != hwm {
        var i :| 0 <= i < |init| && init[i].maxId == NewHwm(hwm, init);
        assert rows[i].maxId == NewHwm(hwm, init);
      }
    }
  }

  function Increments(c: Config, rows: seq<Group>): seq<Increment> {
    seq(|rows|, i requires 0 <= i < |rows| => (c.bound(rows[i].values), rows[i].events))
  }

  function AddAll(counters: map<Labels, nat>, increments: seq<Increment>): map<Labels, nat> {
    if increments == [] then counters
    else
      var last := increments[|increments| - 1];
      Bump(AddAll(counters, increments[..|increments| - 1]), last.0, last.1)
  }

  lemma {:induction false} AddAllIsPublish(c: Config, counters: map<Labels, nat>, rows: seq<Group>)
    ensures AddAll(counters, Increments(c, rows)) == Publish(c, counters, rows)
  {
    if rows != [] {
      var init := rows[..|rows| - 1];
      AddAllIsPublish(c, counters, init);
      assert Increments(c, rows)[..|rows| - 1] == Increments(c, init);
    }
  }

  class Tail {
    var cursor: Option<Cursor>
    var counters: map<Labels, nat>

    constructor ()
      ensures cursor == None && counters == map[]
    {
      cursor, counters := None, map[];
    }

    /** Everything up to and including the durable cursor commit. The counters are
        not touched: the increments are returned and published afterwards. */
    method CommitCycle(c: Config, minId: Option<int>, maxId: Option<int>, rows: seq<Group>)
      returns (outcome: Outcome, increments: seq<Increment>, total: nat)
      modifies this`cursor
      ensures outcome == Decide(old(cursor), minId, maxId, rows).0
      ensures cursor == Some(Decide(old(cursor), minId, maxId, rows).1)
      ensures outcome.Advanced? ==> increments == Increments(c, rows) && total == Total(rows)
      ensures !outcome.Advanced? ==> increments == [] && total == 0
      ensures outcome.CursorReset? <==>
                && old(cursor).Some?
                && ((minId.Some? && old(cursor).value.anchor > 0 && minId.value < old(cursor).value.anchor)
                    || (rows == [] && maxId.Some? && maxId.value < old(cursor).value.value))
      ensures cursor.Some? && Stores(old(cursor), cursor.value, outcome, minId, maxId, rows)
    {
      increments, total := [], 0;
      if cursor == None {
        var seed := OrZero(maxId);
        cursor := Some(Cursor(seed, OrZero(minId)));
        return ColdStart, [], 0;
      }
      var hwm, prevAnchor := cursor.value.value, cursor.value.anchor;
      var reset := minId.Some? && prevAnchor > 0 && minId.value < prevAnchor;
      if !reset && rows == [] && maxId.Some? && maxId.value < hwm {
        reset := true;
      }
      if reset {
        var reseed := Max(0, OrZero(minId) - 1);
        cursor := Some(Cursor(reseed, OrZero(minId)));
        return CursorReset, [], 0;
      }
      if rows == [] {
        if minId.Some? {
          cursor := Some(Cursor(hwm, minId.value));
        }
        return Quiet, [], 0;
      }
      var newHwm := hwm;
      for i := 0 to |rows|
        invariant increments == Increments(c, rows[..i])
        invariant total == Total(rows[..i])
        invariant newHwm == NewHwm(hwm, rows[..i])
      {
        assert rows[..i + 1][..i] == rows[..i];
        increments := increments + [(c.bound(rows[i].values), rows[i].events)];
        total := total + rows[i].events;
        newHwm := Max(newHwm, rows[i].maxId);
      }
      assert rows[..|rows|] == rows;
      HwmIsHighest(hwm, rows);
      var newAnchor := if minId.Some? then minId.value else prevAnchor;
      cursor := Some(Cursor(newHwm, newAnchor));
      return Advanced, increments, total;
    }

    /** The counter increments that follow the commit. */
    method PublishIncrements(increments: seq<Increment>)
      modifies this`counters
      ensures counters == AddAll(old(counters), increments)
    {
      for i := 0 to |increments|
        invariant counters == AddAll(old(counters), increments[..i])
      {
        assert increments[..i + 1][..i] == increments[..i];
        var (series, events) := increments[i];
        if events != 0 {
          counters := counters[series := CountOf(counters, series) + events];
        }
      }
      assert increments[..|increments|] == increments;
    }
  }
}
