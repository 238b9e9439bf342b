/** The budgeted refresh of active-session posture details: which endpoints one
    cycle fetches, and how soon every endpoint is fetched again. */
module PostureRefresh {
  import opened Util
  import opened Ordering
  import opened CacheTable

  /** Seconds a detail stays current, details rotated a cycle, requests a cycle. */
  datatype Policy = Policy(ttl: nat, rotation: nat, budget: nat)

  /** The configured values after their clamps; the rotation spreads `n` details
      evenly over the time they stay current. */
  function PolicyFor(n: nat, ttl: int, interval: int, budget: int): Policy {
    var ttl', interval' := Max(1, ttl), Max(1, interval);
    Policy(ttl', CeilDiv(n * interval', ttl'), Max(1, Min(250, budget)))
  }

  /** The clamps: at least one second and one request, at most 250 requests; and the
      rotation is the least that covers all `n` within the time they stay current. */
  lemma PolicyIsClamped(n: nat, ttl: int, interval: int, budget: int)
    ensures var p := PolicyFor(n, ttl, interval, budget);
            && 1 <= p.budget <= 250 && (1 <= budget <= 250 ==> p.budget == budget)
            && (budget > 250 ==> p.budget == 250) && (budget < 1 ==> p.budget == 1)
            && p.ttl == (if ttl < 1 then 1 else ttl)
            && p.rotation * p.ttl >= n * (if interval < 1 then 1 else interval) > (p.rotation - 1) * p.ttl
  {
    CeilDivBounds(n * Max(1, interval), Max(1, ttl));
  }

  predicate Current(rows: Rows, signatures: map<Key, string>, mac: Key) {
    mac in rows && mac in signatures && rows[mac].signature == signatures[mac]
  }

  function Mandatory(selected: seq<Key>, rows: Rows, signatures: map<Key, string>): seq<Key> {
    if selected == [] then []
    else (if Current(rows, signatures, selected[0]) then [] else [selected[0]])
         + Mandatory(selected[1..], rows, signatures)
  }

  function Unchanged(selected: seq<Key>, rows: Rows, signatures: map<Key, string>): seq<Key> {
    if selected == [] then []
    else (if Current(rows, signatures, selected[0]) then [selected[0]] else [])
         + Unchanged(selected[1..], rows, signatures)
  }

  function AgeOf(rows: Rows, mac: Key): real {
    if mac in rows then rows[mac].updatedAt else 0.0
  }

  function Older(rows: Rows): (Key, Key) -> bool {
    (a: Key, b: Key) => AgeOf(rows, a) <= AgeOf(rows, b)
  }

  function Oldest(selected: seq<Key>, rows: Rows, signatures: map<Key, string>): seq<Key> {
    SortBy(Unchanged(selected, rows, signatures), Older(rows))
  }

  function Expired(oldest: seq<Key>, rows: Rows, now: real, ttl: nat): seq<Key> {
    if oldest == [] then []
    else (if now - AgeOf(rows, oldest[0]) >= ttl as real then [oldest[0]] else [])
         + Expired(oldest[1..], rows, now, ttl)
  }

  function Take<T>(xs: seq<T>, n: nat): seq<T> { xs[..Min(n, |xs|)] }

  /** The refresh list and its budgeted slice, as the collector builds them. */
  function Planned(p: Policy, selected: seq<Key>, rows: Rows, signatures: map<Key, string>, now: real): seq<Key>
  {
    var oldest := Oldest(selected, rows, signatures);
    Take(Dedup(Mandatory(selected, rows, signatures) + Expired(oldest, rows, now, p.ttl) + Take(oldest, p.rotation)),
         p.budget)
  }

  /** Missing or changed sessions first, then the others from the oldest on. */
  function RefreshOrder(selected: seq<Key>, rows: Rows, signatures: map<Key, string>): seq<Key> {
    Mandatory(selected, rows, signatures) + Oldest(selected, rows, signatures)
  }

  lemma {:induction false} Partition(selected: seq<Key>, rows: Rows, signatures: map<Key, string>)
    ensures forall mac :: mac in Mandatory(selected, rows, signatures) <==>
                          mac in selected && !Current(rows, signatures, mac)
    ensures forall mac :: mac in Unchanged(selected, rows, signatures) <==>
                          mac in selected && Current(rows, signatures, mac)
    ensures |Mandatory(selected, rows, signatures)| + |Unchanged(selected, rows, signatures)| == |selected|
    ensures NoDuplicates(selected) ==>
              NoDuplicates(Mandatory(selected, rows, signatures)) && NoDuplicates(Unchanged(selected, rows, signatures))
  {
    if selected != [] {
      Partition(selected[1..], rows, signatures);
      assert selected == [selected[0]] + selected[1..];
    }
  }

  lemma OldestFacts(selected: seq<Key>, rows: Rows, signatures: map<Key, string>)
    requires NoDuplicates(selected)
    ensures var oldest := Oldest(selected, rows, signatures);
            && SortedBy(oldest, Older(rows)) && NoDuplicates(oldest)
            && |oldest| == |Unchanged(selected, rows, signatures)|
            && forall mac :: mac in oldest <==> mac in selected && Current(rows, signatures, mac)
  {
    var same := Unchanged(selected, rows, signatures);
    Partition(selected, rows, signatures);
    SortIsSorted(same, Older(rows));
    SameMembers(same, Oldest(selected, rows, signatures));
  }

  /** The expired endpoints are the head of the oldest-first list. */
  lemma {:induction false} ExpiredIsPrefix(oldest: seq<Key>, rows: Rows, now: real, ttl: nat)
    requires SortedBy(oldest, Older(rows))
    ensures var e := |Expired(oldest, rows, now, ttl)|;
            e <= |oldest| && Expired(oldest, rows, now, ttl) == oldest[..e]
  {
    if oldest != [] {
      if now - AgeOf(rows, oldest[0]) < ttl as real {
        NoneExpired(oldest, rows, now, ttl);
      } else {
        var rest := oldest[1..];
        ExpiredIsPrefix(rest, rows, now, ttl);
        var e := |Expired(rest, rows, now, ttl)|;
        assert oldest[..e + 1] == [oldest[0]] + rest[..e];
      }
    }
  }

  lemma {:induction false} NoneExpired(xs: seq<Key>, rows: Rows, now: real, ttl: nat)
    requires SortedBy(xs, Older(rows)) && xs != [] && now - AgeOf(rows, xs[0]) < ttl as real
    ensures Expired(xs, rows, now, ttl) == []
  {
    if |xs| > 1 {
      assert Older(rows)(xs[0], xs[1]);
      NoneExpired(xs[1..], rows, now, ttl);
    }
  }

  /** The size of the refresh list before the budget cut. */
  function Wanted(p: Policy, selected: seq<Key>, rows: Rows, signatures: map<Key, string>, now: real): nat
  {
    var oldest := Oldest(selected, rows, signatures);
    |Mandatory(selected, rows, signatures)|
    + Max(|Expired(oldest, rows, now, p.ttl)|, Min(p.rotation, |oldest|))
  }

  /** The refresh order is the selection, rearranged. */
  lemma OrderFacts(selected: seq<Key>, rows: Rows, signatures: map<Key, string>)
    requires NoDuplicates(selected)
    ensures var order := RefreshOrder(selected, rows, signatures);
            NoDuplicates(order) && |order| == |selected| && (forall mac :: mac in order <==> mac in selected)
  {
    var mandatory, oldest := Mandatory(selected, rows, signatures), Oldest(selected, rows, signatures);
    Partition(selected, rows, signatures);
    OldestFacts(selected, rows, signatures);
    JoinDistinct(mandatory, oldest);
  }

  /** The plan is a prefix of the oldest-first order, as long as the budget and the
      refresh list allow. */
  lemma PlanIsPrefix(p: Policy, selected: seq<Key>, rows: Rows, signatures: map<Key, string>, now: real)
    requires NoDuplicates(selected)
    ensures var order := RefreshOrder(selected, rows, signatures);
            var size := Min(p.budget, Wanted(p, selected, rows, signatures, now));
            && NoDuplicates(order) && |order| == |selected| && (forall mac :: mac in order <==> mac in selected)
            && size <= |order| && Planned(p, selected, rows, signatures, now) == order[..size]
  {
    var mandatory, oldest := Mandatory(selected, rows, signatures), Oldest(selected, rows, signatures);
    OrderFacts(selected, rows, signatures);
    OldestFacts(selected, rows, signatures);
    ExpiredIsPrefix(oldest, rows, now, p.ttl);
    var e, r := |Expired(oldest, rows, now, p.ttl)|, Min(p.rotation, |oldest|);
    PrefixUnion(mandatory, oldest, e, r);
    PrefixOfJoin(mandatory, oldest, Max(e, r), Min(p.budget, |mandatory| + Max(e, r)));
  }

  /** An endpoint that has to be fetched: no row, another session, or a row too old. */
  predicate Due(rows: Rows, signatures: map<Key, string>, now: real, ttl: nat, mac: Key) {
    || mac !in rows || mac !in signatures || rows[mac].signature != signatures[mac]
    || now - rows[mac].updatedAt >= ttl as real
  }

  function DueSet(selected: seq<Key>, rows: Rows, signatures: map<Key, string>, now: real, ttl: nat): set<Key> {
    set mac | mac in selected && Due(rows, signatures, now, ttl, mac)
  }

  lemma {:induction false} ExpiredAreOld(oldest: seq<Key>, rows: Rows, now: real, ttl: nat)
    ensures forall mac :: mac in Expired(oldest, rows, now, ttl) <==>
                          mac in oldest && now - AgeOf(rows, mac) >= ttl as real
  {
    if oldest != [] {
      ExpiredAreOld(oldest[1..], rows, now, ttl);
      assert oldest == [oldest[0]] + oldest[1..];
    }
  }

  lemma DueMembers(selected: seq<Key>, rows: Rows, signatures: map<Key, string>, now: real, ttl: nat, mac: Key)
    requires NoDuplicates(selected)
    ensures mac in DueSet(selected, rows, signatures, now, ttl) <==>
            mac in Mandatory(selected, rows, signatures)
            || mac in Expired(Oldest(selected, rows, signatures), rows, now, ttl)
  {
    Partition(selected, rows, signatures);
    OldestFacts(selected, rows, signatures);
    ExpiredAreOld(Oldest(selected, rows, signatures), rows, now, ttl);
  }

  /** The endpoints due are exactly the head of the refresh order. */
  lemma DueIsHead(selected: seq<Key>, rows: Rows, signatures: map<Key, string>, now: real, ttl: nat)
    requires NoDuplicates(selected)
    ensures var due := |DueSet(selected, rows, signatures, now, ttl)|;
            var order := RefreshOrder(selected, rows, signatures);
            && due <= |order| && (set mac | mac in order[..due]) == DueSet(selected, rows, signatures, now, ttl)
            && due == |Mandatory(selected, rows, signatures)|
                      + |Expired(Oldest(selected, rows, signatures), rows, now, ttl)|
  {
    var mandatory, oldest := Mandatory(selected, rows, signatures), Oldest(selected, rows, signatures);
    var expired, due := Expired(oldest, rows, now, ttl), DueSet(selected, rows, signatures, now, ttl);
    var order := RefreshOrder(selected, rows, signatures);
    OrderFacts(selected, rows, signatures);
    OldestFacts(selected, rows, signatures);
    ExpiredIsPrefix(oldest, rows, now, ttl);
    assert mandatory + expired == order[..|mandatory| + |expired|];
    forall mac ensures mac in mandatory + expired <==> mac in due {
      DueMembers(selected, rows, signatures, now, ttl, mac);
    }
    SameSize(mandatory + expired, due);
  }

  lemma SameSize(xs: seq<Key>, members: set<Key>)
    requires NoDuplicates(xs) && forall mac :: mac in xs <==> mac in members
    ensures |xs| == |members| && (set mac | mac in xs) == members
  {
    DistinctSize(xs);
    assert (set mac | mac in xs) == members;
  }

  /** What is due comes first: all of it is planned if it fits the budget, and nothing
      else is planned if it does not. */
  lemma DueComesFirst(p: Policy, selected: seq<Key>, rows: Rows, signatures: map<Key, string>, now: real)
    requires NoDuplicates(selected)
    ensures var due := DueSet(selected, rows, signatures, now, p.ttl);
            var planned := Planned(p, selected, rows, signatures, now);
            && (|due| <= p.budget ==> forall mac | mac in due :: mac in planned)
            && (|due| >= p.budget ==> |planned| == p.budget && forall mac | mac in planned :: mac in due)
  {
    var due, order := DueSet(selected, rows, signatures, now, p.ttl), RefreshOrder(selected, rows, signatures);
    DueIsHead(selected, rows, signatures, now, p.ttl);
    PlanIsPrefix(p, selected, rows, signatures, now);
    var planned := Planned(p, selected, rows, signatures, now);
    var n := |due|;
    if n <= p.budget {
      assert order[..n] == planned[..n];
      forall mac | mac in due ensures mac in planned {
        assert mac in (set m | m in order[..n]);
        assert mac in planned[..n];
      }
    }
    if n >= p.budget {
      assert planned == order[..n][..p.budget];
      forall mac | mac in planned ensures mac in due {
        assert mac in order[..n];
        assert mac in (set m | m in order[..n]);
      }
    }
  }

  // ---- cycles -----------------------------------------------------------------------

  /** One cycle in which every planned fetch succeeds. */
  function PutAll(rows: Rows, planned: seq<Key>, signatures: map<Key, string>, now: real): Rows
    requires forall mac | mac in planned :: mac in signatures
  {
    if planned == [] then rows
    else
      var last := planned[|planned| - 1];
      Put(PutAll(rows, planned[..|planned| - 1], signatures, now), last, signatures[last], now)
  }

  function Members(selected: seq<Key>): set<Key> { set mac | mac in selected }

  function AfterCycle(p: Policy, selected: seq<Key>, rows: Rows, signatures: map<Key, string>, now: real): Rows
    requires forall mac | mac in Planned(p, selected, rows, signatures, now) :: mac in signatures
  {
    Finish(PutAll(rows, Planned(p, selected, rows, signatures, now), signatures, now), Members(selected), now,
           p.ttl as real)
  }

  /** One row after a cycle: stamped and seen if it was fetched, seen if its endpoint is
      still selected, and otherwise kept as it was until it was not seen for too long. */
  ghost predicate RowAfter(was: Rows, rows: Rows, p: Policy, selected: seq<Key>, planned: seq<Key>,
                           signatures: map<Key, string>, now: real, mac: Key)
  {
    if mac in planned then
      mac in selected && mac in signatures && mac in rows && rows[mac] == Row(signatures[mac], now, now)
    else if mac in selected then
      (mac in rows <==> mac in was) && (mac in was ==> rows[mac] == was[mac].(lastSeen := now))
    else
      && (mac in rows <==> mac in was && p.ttl > 0 && was[mac].lastSeen >= now - p.ttl as real)
      && (mac in rows ==> rows[mac] == was[mac])
  }

  lemma CycleRow(p: Policy, selected: seq<Key>, rows: Rows, signatures: map<Key, string>, now: real, mac: Key)
    requires NoDuplicates(selected) && forall mac | mac in selected :: mac in signatures
    ensures forall mac | mac in Planned(p, selected, rows, signatures, now) :: mac in signatures
    ensures RowAfter(rows, AfterCycle(p, selected, rows, signatures, now), p, selected,
                     Planned(p, selected, rows, signatures, now), signatures, now, mac)
  {
    var planned := Planned(p, selected, rows, signatures, now);
    PlanIsPrefix(p, selected, rows, signatures, now);
    PutAllRows(rows, planned, signatures, now, mac);
    FinishRow(PutAll(rows, planned, signatures, now), Members(selected), now, p.ttl as real, mac);
  }

  /** The collector's cycle on the table itself. */
  method RunCycle(t: Table, p: Policy, selected: seq<Key>, signatures: map<Key, string>, now: real)
    returns (planned: seq<Key>)
    requires NoDuplicates(selected) && forall mac | mac in selected :: mac in signatures
    modifies t
    ensures planned == Planned(p, selected, old(t.rows), signatures, now)
    ensures forall mac | mac in planned :: mac in signatures
    ensures t.rows == AfterCycle(p, selected, old(t.rows), signatures, now)
    ensures forall mac :: RowAfter(old(t.rows), t.rows, p, selected, planned, signatures, now, mac)
  {
    planned := Planned(p, selected, t.rows, signatures, now);
    PlanIsPrefix(p, selected, t.rows, signatures, now);
    forall mac
      ensures RowAfter(t.rows, AfterCycle(p, selected, t.rows, signatures, now), p, selected, planned,
                       signatures, now, mac)
    {
      CycleRow(p, selected, t.rows, signatures, now, mac);
    }
    StoreAll(t, planned, signatures, now);
    t.FinishCycle(Members(selected), now, p.ttl as real);
  }

  /** The planned details, stored one at a time. */
  method StoreAll(t: Table, planned: seq<Key>, signatures: map<Key, string>, now: real)
    requires forall mac | mac in planned :: mac in signatures
    modifies t
    ensures t.rows == PutAll(old(t.rows), planned, signatures, now)
  {
    for i := 0 to |planned|
      invariant t.rows == PutAll(old(t.rows), planned[..i], signatures, now)
    {
      assert planned[..i + 1][..i] == planned[..i];
      t.PutRow(planned[i], signatures[planned[i]], now);
    }
    assert planned[..|planned|] == planned;
  }

  lemma {:induction false} PutAllRows(rows: Rows, planned: seq<Key>, signatures: map<Key, string>, now: real, mac: Key)
    requires forall m | m in planned :: m in signatures
    ensures mac in planned ==>
              mac in PutAll(rows, planned, signatures, now)
              && PutAll(rows, planned, signatures, now)[mac] == Row(signatures[mac], now, now)
    ensures mac !in planned ==> (mac in PutAll(rows, planned, signatures, now) <==> mac in rows)
    ensures mac !in planned && mac in rows ==> PutAll(rows, planned, signatures, now)[mac] == rows[mac]
  {
    if planned != [] {
      var init, last := planned[..|planned| - 1], planned[|planned| - 1];
      assert planned == init + [last];
      PutAllRows(rows, init, signatures, now, mac);
    }
  }

  /** Consecutive cycles over the same endpoints with the same session signatures. */
  ghost predicate Cycles(p: Policy, selected: seq<Key>, signatures: map<Key, string>,
                         tables: seq<Rows>, times: seq<real>)
    requires NoDuplicates(selected) && forall mac | mac in selected :: mac in signatures
  {
    && |tables| == |times| + 1
    && (forall i, j | 0 <= i < j < |times| :: times[i] < times[j])
    && forall i | 0 <= i < |times| :: CycleStep(p, selected, signatures, tables[i], times[i], tables[i + 1])
  }

  ghost predicate CycleStep(p: Policy, selected: seq<Key>, signatures: map<Key, string>, before: Rows, now: real,
                            after: Rows)
    requires NoDuplicates(selected) && forall mac | mac in selected :: mac in signatures
  {
    PlanIsPrefix(p, selected, before, signatures, now);
    after == AfterCycle(p, selected, before, signatures, now)
  }

  /** Missing, changed, or last fetched before `since`. */
  predicate Overdue(rows: Rows, signatures: map<Key, string>, since: real, mac: Key) {
    Current(rows, signatures, mac) ==> rows[mac].updatedAt < since
  }

  /** The endpoints overdue at the first cycle and not fetched in the first `k`. */
  ghost function Waiting(p: Policy, selected: seq<Key>, signatures: map<Key, string>,
                         tables: seq<Rows>, times: seq<real>, k: nat): set<Key>
    requires k <= |times| && |tables| == |times| + 1 && times != []
  {
    if k == 0 then set mac | mac in selected && Overdue(tables[0], signatures, times[0], mac)
    else Left(Waiting(p, selected, signatures, tables, times, k - 1),
              Planned(p, selected, tables[k - 1], signatures, times[k - 1]))
  }

  /** A waiting endpoint is missing, changed, or last fetched before the first
      cycle; a fetched one is current and was fetched since. */
  ghost predicate Separated(selected: seq<Key>, signatures: map<Key, string>, rows: Rows,
                            waiting: set<Key>, since: real) {
    forall mac | mac in selected ::
      if mac in waiting then Current(rows, signatures, mac) ==> rows[mac].updatedAt < since
      else Current(rows, signatures, mac) && rows[mac].updatedAt >= since
  }

  /** So in the refresh order the waiting endpoints come first. */
  lemma WaitingFirst(selected: seq<Key>, signatures: map<Key, string>, rows: Rows,
                     waiting: set<Key>, since: real, i: nat, j: nat)
    requires NoDuplicates(selected) && Separated(selected, signatures, rows, waiting, since)
    requires var order := RefreshOrder(selected, rows, signatures); i < j < |order| && order[j] in waiting
    ensures RefreshOrder(selected, rows, signatures)[i] in waiting
  {
    var mandatory, oldest := Mandatory(selected, rows, signatures), Oldest(selected, rows, signatures);
    var order := RefreshOrder(selected, rows, signatures);
    Partition(selected, rows, signatures);
    OldestFacts(selected, rows, signatures);
    if i < |mandatory| {
      assert order[i] in mandatory;
    } else {
      assert order[i] == oldest[i - |mandatory|] && order[j] == oldest[j - |mandatory|];
      assert order[i] in oldest && order[j] in oldest;
      assert Older(rows)(order[i], order[j]);
    }
  }

  lemma CycleKeepsSeparated(p: Policy, selected: seq<Key>, signatures: map<Key, string>, before: Rows, now: real,
                            waiting: set<Key>, since: real)
    requires NoDuplicates(selected) && forall mac | mac in selected :: mac in signatures
    requires Separated(selected, signatures, before, waiting, since) && since <= now
    ensures forall mac | mac in Planned(p, selected, before, signatures, now) :: mac in signatures
    ensures Separated(selected, signatures, AfterCycle(p, selected, before, signatures, now),
                      Left(waiting, Planned(p, selected, before, signatures, now)), since)
  {
    PlanIsPrefix(p, selected, before, signatures, now);
    var planned := Planned(p, selected, before, signatures, now);
    var after := AfterCycle(p, selected, before, signatures, now);
    forall mac | mac in selected
      ensures Current(after, signatures, mac) <==> mac in planned || Current(before, signatures, mac)
      ensures Current(after, signatures, mac) ==>
                after[mac].updatedAt == if mac in planned then now else before[mac].updatedAt
    {
      PutAllRows(before, planned, signatures, now, mac);
      assert mac in Members(selected);
    }
  }

  /** One cycle: unless none is left waiting, a full share of them is served. */
  lemma CycleServes(p: Policy, selected: seq<Key>, signatures: map<Key, string>, rows: Rows, now: real,
                    waiting: set<Key>, since: real)
    requires NoDuplicates(selected) && forall mac | mac in selected :: mac in signatures
    requires Separated(selected, signatures, rows, waiting, since) && forall mac | mac in waiting :: mac in selected
    requires p.budget >= p.rotation
    ensures var left := Left(waiting, Planned(p, selected, rows, signatures, now));
            left == {} || |left| <= |waiting| - p.rotation
  {
    PlanIsPrefix(p, selected, rows, signatures, now);
    var order := RefreshOrder(selected, rows, signatures);
    var size := Min(p.budget, Wanted(p, selected, rows, signatures, now));
    forall i, j | 0 <= i < j < |order| && order[j] in waiting ensures order[i] in waiting {
      WaitingFirst(selected, signatures, rows, waiting, since, i, j);
    }
    PrefixServesWaiting(order, waiting, size);
    Partition(selected, rows, signatures);
    OldestFacts(selected, rows, signatures);
    SizeFits(waiting, order, selected);
  }

  lemma {:induction false} WaitingDwindles(p: Policy, selected: seq<Key>, signatures: map<Key, string>,
                                           tables: seq<Rows>, times: seq<real>, k: nat)
    requires NoDuplicates(selected) && forall mac | mac in selected :: mac in signatures
    requires Cycles(p, selected, signatures, tables, times) && k <= |times| && times != []
    requires p.budget >= p.rotation
    ensures Separated(selected, signatures, tables[k], Waiting(p, selected, signatures, tables, times, k), times[0])
    ensures var left := Waiting(p, selected, signatures, tables, times, k);
            left == {} || |left| <= |selected| - Served(k, p.rotation)
    ensures forall mac | mac in Waiting(p, selected, signatures, tables, times, k) :: mac in selected
  {
    if k == 0 {
      DistinctSize(selected);
      SubsetSize(Waiting(p, selected, signatures, tables, times, 0), set mac | mac in selected);
    } else {
      WaitingDwindles(p, selected, signatures, tables, times, k - 1);
      var rows, now := tables[k - 1], times[k - 1];
      var waiting := Waiting(p, selected, signatures, tables, times, k - 1);
      assert CycleStep(p, selected, signatures, rows, now, tables[k]);
      CycleKeepsSeparated(p, selected, signatures, rows, now, waiting, times[0]);
      CycleServes(p, selected, signatures, rows, now, waiting, times[0]);
    }
  }

  lemma SizeFits(waiting: set<Key>, order: seq<Key>, selected: seq<Key>)
    requires NoDuplicates(selected) && |order| == |selected| && forall mac | mac in waiting :: mac in selected
    ensures |waiting| <= |order|
  {
    DistinctSize(selected);
    SubsetSize(waiting, set mac | mac in selected);
  }

  /** Cache age: with the same endpoints and signatures, all fetches succeeding and
      a budget of at least ceil(n * interval / ttl), every selected endpoint is
      fetched within ceil(ttl / interval) cycles, from any cache in which its own row,
      if current, is older than the first cycle; other rows may be stamped at will. */
  lemma EveryEndpointRefreshed(ttl: nat, interval: nat, budget: nat, selected: seq<Key>,
                               signatures: map<Key, string>, tables: seq<Rows>, times: seq<real>, mac: Key)
    requires ttl >= 1 && interval >= 1 && CeilDiv(|selected| * interval, ttl) <= budget <= 250
    requires NoDuplicates(selected) && forall m | m in selected :: m in signatures
    requires Cycles(PolicyFor(|selected|, ttl, interval, budget), selected, signatures, tables, times)
    requires |times| >= CeilDiv(ttl, interval) && mac in selected
    requires times != [] && Overdue(tables[0], signatures, times[0], mac)
    ensures exists k: nat :: k < CeilDiv(ttl, interval)
                        && WasPlanned(PolicyFor(|selected|, ttl, interval, budget), selected, signatures, tables,
                                      times, k, mac)
  {
    var p, cycles := PolicyFor(|selected|, ttl, interval, budget), CeilDiv(ttl, interval);
    CeilDivBounds(ttl, interval);
    WaitingDwindles(p, selected, signatures, tables, times, cycles);
    RotationCovers(|selected|, interval, ttl);
    var left := Waiting(p, selected, signatures, tables, times, cycles);
    assert left == {} || |left| <= 0;
    LeftWaiting(p, selected, signatures, tables, times, cycles, mac);
  }

  /** The plan of cycle `k` contains `mac`. */
  predicate WasPlanned(p: Policy, selected: seq<Key>, signatures: map<Key, string>, tables: seq<Rows>, times: seq<real>,
                       k: nat, mac: Key)
  {
    k < |times| && k < |tables| && mac in Planned(p, selected, tables[k], signatures, times[k])
  }

  /** Leaving the waiting set means having been planned. */
  lemma LeftWaiting(p: Policy, selected: seq<Key>, signatures: map<Key, string>,
                    tables: seq<Rows>, times: seq<real>, k: nat, mac: Key)
    requires k <= |times| && |tables| == |times| + 1 && times != []
    requires mac in selected && Overdue(tables[0], signatures, times[0], mac)
    requires mac !in Waiting(p, selected, signatures, tables, times, k)
    ensures exists j: nat :: j < k && WasPlanned(p, selected, signatures, tables, times, j, mac)
  {
    var plans := PlansOf(p, selected, signatures, tables, times, k);
    var first := Waiting(p, selected, signatures, tables, times, 0);
    WaitingIsChain(p, selected, signatures, tables, times, k);
    assert mac in first;
    var j := LeftAt(first, plans, mac);
    PlansAt(p, selected, signatures, tables, times, k, j);
    assert WasPlanned(p, selected, signatures, tables, times, j, mac);
  }

  /** The plans of the first `k` cycles. */
  ghost function PlansOf(p: Policy, selected: seq<Key>, signatures: map<Key, string>,
                         tables: seq<Rows>, times: seq<real>, k: nat): (plans: seq<seq<Key>>)
    requires k <= |times| && |tables| == |times| + 1
    ensures |plans| == k
  {
    if k == 0 then []
    else PlansOf(p, selected, signatures, tables, times, k - 1)
         + [Planned(p, selected, tables[k - 1], signatures, times[k - 1])]
  }

  lemma {:induction false} PlansAt(p: Policy, selected: seq<Key>, signatures: map<Key, string>,
                                   tables: seq<Rows>, times: seq<real>, k: nat, j: nat)
    requires j < k <= |times| && |tables| == |times| + 1
    ensures PlansOf(p, selected, signatures, tables, times, k)[j]
            == Planned(p, selected, tables[j], signatures, times[j])
  {
    if j < k - 1 {
      PlansAt(p, selected, signatures, tables, times, k - 1, j);
    }
  }

  /** What these plans leave waiting. */
  function LeftBy(waiting: set<Key>, plans: seq<seq<Key>>): set<Key> {
    if plans == [] then waiting else Left(LeftBy(waiting, plans[..|plans| - 1]), plans[|plans| - 1])
  }

  lemma {:induction false} WaitingIsChain(p: Policy, selected: seq<Key>, signatures: map<Key, string>,
                                          tables: seq<Rows>, times: seq<real>, k: nat)
    requires k <= |times| && |tables| == |times| + 1 && times != []
    ensures Waiting(p, selected, signatures, tables, times, k)
            == LeftBy(Waiting(p, selected, signatures, tables, times, 0),
                      PlansOf(p, selected, signatures, tables, times, k))
  {
    if k > 0 {
      WaitingIsChain(p, selected, signatures, tables, times, k - 1);
      var plans := PlansOf(p, selected, signatures, tables, times, k);
      assert plans[..k - 1] == PlansOf(p, selected, signatures, tables, times, k - 1);
    }
  }

  lemma {:induction false} LeftAt(waiting: set<Key>, plans: seq<seq<Key>>, mac: Key) returns (j: nat)
    requires mac in waiting && mac !in LeftBy(waiting, plans)
    ensures j < |plans| && mac in plans[j]
  {
    var n := |plans| - 1;
    if mac in LeftBy(waiting, plans[..n]) {
      j := n;
    } else {
      j := LeftAt(waiting, plans[..n], mac);
    }
  }
}
