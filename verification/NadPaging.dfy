/** The two-page scan of ranked activity groups, and the bounded choice of the
    devices that get their own series. */
module NadPaging {
  import opened Util
  import opened Ordering

  const PAGE_ONE_CAP := 4500
  const LAST_SEEN_CAP := 9500
  const EXPORT_CEILING := 10000
  const MAX_RESULT_ROWS := 6000

  /** Distinct positions 1 to n, as ROW_NUMBER assigns them to n groups. */
  ghost predicate IsRanking(rank: seq<nat>) {
    && (forall i | 0 <= i < |rank| :: 1 <= rank[i] <= |rank|)
    && NoDuplicates(rank)
  }

  function PageOne(volume: seq<nat>, recency: seq<nat>, limit: nat): set<nat>
    requires |volume| == |recency|
  {
    set i: nat | i < |volume| && (volume[i] <= limit || recency[i] <= PAGE_ONE_CAP)
  }

  function PageTwo(volume: seq<nat>, recency: seq<nat>, limit: nat): set<nat>
    requires |volume| == |recency|
  {
    set i: nat | i < |volume| && PAGE_ONE_CAP < recency[i] <= LAST_SEEN_CAP && volume[i] > limit
  }

  /** The total is read off a row of page one, zero when there is none. */
  function Total(volume: seq<nat>, recency: seq<nat>, limit: nat): nat
    requires |volume| == |recency|
  {
    if PageOne(volume, recency, limit) == {} then 0 else |volume|
  }

  function Scan(volume: seq<nat>, recency: seq<nat>, limit: nat): set<nat>
    requires |volume| == |recency|
  {
    PageOne(volume, recency, limit)
    + (if Total(volume, recency, limit) > PAGE_ONE_CAP then PageTwo(volume, recency, limit) else {})
  }

  function Within(rank: seq<nat>, low: nat, high: nat): set<nat> {
    set i: nat | i < |rank| && low < rank[i] <= high
  }

  /** At most as many groups hold a range of ranks as there are ranks in it. */
  lemma {:induction false} RangeBound(rank: seq<nat>, low: nat, high: nat)
    requires NoDuplicates(rank) && low <= high
    ensures |Within(rank, low, high)| <= high - low
    decreases high
  {
    if low == high {
      assert Within(rank, low, high) == {};
    } else {
      RangeBound(rank, low, high - 1);
      var less, more := Within(rank, low, high - 1), Within(rank, low, high);
      if high in rank {
        var i :| 0 <= i < |rank| && rank[i] == high;
        assert more == less + {i};
      } else {
        assert more == less;
      }
    }
  }

  /** In a ranking of n groups, exactly min(k, n) have rank at most k. */
  lemma RankCount(rank: seq<nat>, k: nat)
    requires IsRanking(rank)
    ensures |Within(rank, 0, k)| == Min(k, |rank|)
  {
    var n := |rank|;
    var all := Below(n);
    BelowFacts(n);
    assert Within(rank, 0, n) == all;
    if k >= n {
      assert Within(rank, 0, k) == all;
    } else {
      RangeBound(rank, 0, k);
      RangeBound(rank, k, n);
      assert all == Within(rank, 0, k) + Within(rank, k, n);
      DisjointUnionSize(Within(rank, 0, k), Within(rank, k, n));
    }
  }

  function Below(n: nat): set<nat> {
    if n == 0 then {} else Below(n - 1) + {n - 1}
  }

  lemma {:induction false} BelowFacts(n: nat)
    ensures |Below(n)| == n && forall i: nat :: i in Below(n) <==> i < n
  {
    if n > 0 {
      BelowFacts(n - 1);
    }
  }

  /** Page one is empty only when there is nothing to page, so the total is exact. */
  lemma TotalIsExact(volume: seq<nat>, recency: seq<nat>, limit: nat)
    requires |volume| == |recency| && IsRanking(recency)
    ensures Total(volume, recency, limit) == |volume|
  {
    RankCount(recency, 1);
    if volume != [] {
      var i := Member(Within(recency, 0, 1));
      assert i in PageOne(volume, recency, limit);
    }
  }

  /** The pages are disjoint, each stays under the row ceiling, and together they
      return exactly what one unbounded statement would: every group within the
      volume limit or the recency cap; every group, when they number at most the cap. */
  lemma ScanIsComplete(volume: seq<nat>, recency: seq<nat>, limit: nat)
    requires |volume| == |recency| && IsRanking(volume) && IsRanking(recency) && limit <= 1000
    ensures PageOne(volume, recency, limit) !! PageTwo(volume, recency, limit)
    ensures |PageOne(volume, recency, limit)| < MAX_RESULT_ROWS && |PageTwo(volume, recency, limit)| < MAX_RESULT_ROWS
    ensures forall i: nat | i < |volume| ::
              i in Scan(volume, recency, limit) <==> volume[i] <= limit || recency[i] <= LAST_SEEN_CAP
    ensures |volume| <= LAST_SEEN_CAP ==> forall i: nat | i < |volume| :: i in Scan(volume, recency, limit)
  {
    TotalIsExact(volume, recency, limit);
    PageSizes(volume, recency, limit);
  }

  lemma PageSizes(volume: seq<nat>, recency: seq<nat>, limit: nat)
    requires |volume| == |recency| && IsRanking(volume) && IsRanking(recency)
    ensures |PageOne(volume, recency, limit)| <= PAGE_ONE_CAP + limit
    ensures |PageTwo(volume, recency, limit)| <= LAST_SEEN_CAP - PAGE_ONE_CAP
  {
    var byVolume, byRecency := Within(volume, 0, limit), Within(recency, 0, PAGE_ONE_CAP);
    RangeBound(volume, 0, limit);
    RangeBound(recency, 0, PAGE_ONE_CAP);
    RangeBound(recency, PAGE_ONE_CAP, LAST_SEEN_CAP);
    SubsetSize(PageTwo(volume, recency, limit), Within(recency, PAGE_ONE_CAP, LAST_SEEN_CAP));
    assert PageOne(volume, recency, limit) == byVolume + (byRecency - byVolume);
    SubsetSize(byRecency - byVolume, byRecency);
  }

  /** Groups of the scan within the volume limit, and within the recency cap reached. */
  function Activity(volume: seq<nat>, recency: seq<nat>, limit: nat): set<nat>
    requires |volume| == |recency|
  {
    set i: nat | i in Scan(volume, recency, limit) && i < |volume| && volume[i] <= limit
  }

  function AchievedCap(total: nat): nat {
    if total > PAGE_ONE_CAP then LAST_SEEN_CAP else PAGE_ONE_CAP
  }

  function Refresh(volume: seq<nat>, recency: seq<nat>, limit: nat): set<nat>
    requires |volume| == |recency|
  {
    set i: nat | i in Scan(volume, recency, limit) && i < |recency|
                 && recency[i] <= AchievedCap(Total(volume, recency, limit))
  }

  /** The two consistency checks never fail: the volume subset has min(limit, total)
      groups, the recency subset min(cap, total). */
  lemma SubsetsAreExact(volume: seq<nat>, recency: seq<nat>, limit: nat)
    requires |volume| == |recency| && IsRanking(volume) && IsRanking(recency) && limit <= 1000
    ensures |Activity(volume, recency, limit)| == Min(limit, |volume|)
    ensures |Refresh(volume, recency, limit)| == Min(LAST_SEEN_CAP, |volume|)
  {
    TotalIsExact(volume, recency, limit);
    ScanIsComplete(volume, recency, limit);
    RankCount(volume, limit);
    RankCount(recency, AchievedCap(|volume|));
    assert Activity(volume, recency, limit) == Within(volume, 0, limit);
    assert Refresh(volume, recency, limit) == Within(recency, 0, AchievedCap(|volume|));
  }

  // ---- consuming the rows -------------------------------------------------------------

  datatype Nad = Nad(name: string)

  /** A returned group: the reported device, folded for matching, its events, and the
      time of the last one (zero when missing). */
  datatype Row = Row(reported: string, passed: nat, failed: nat, last: real)

  /** Event counts and the last event of one configured device. */
  datatype Account = Account(passed: nat, failed: nat, last: real)

  const Nothing := Account(0, 0, 0.0)

  datatype Tally = Tally(accounts: map<Nad, Account>, active: seq<Nad>)

  function Matched(rows: seq<Row>, canonical: map<string, Nad>): seq<Nad> {
    if rows == [] then []
    else
      var n := |rows| - 1;
      Matched(rows[..n], canonical) + (if rows[n].reported in canonical then [canonical[rows[n].reported]] else [])
  }

  predicate Of(row: Row, canonical: map<string, Nad>, name: Nad) {
    row.reported in canonical && canonical[row.reported] == name
  }

  function Plus(a: Account, row: Row): Account {
    Account(a.passed + row.passed, a.failed + row.failed, RealMax(a.last, row.last))
  }

  /** All rows reported for one device: the sums, and the latest time. */
  function Credit(rows: seq<Row>, canonical: map<string, Nad>, name: Nad): Account {
    if rows == [] then Nothing
    else
      var n := |rows| - 1;
      var before := Credit(rows[..n], canonical, name);
      if Of(rows[n], canonical, name) then Plus(before, rows[n]) else before
  }

  function At(accounts: map<Nad, Account>, name: Nad): Account {
    if name in accounts then accounts[name] else Nothing
  }

  /** The sum of one column over the rows of a device. */
  function Sum(rows: seq<Row>, canonical: map<string, Nad>, name: Nad, column: Row -> nat): nat {
    if rows == [] then 0
    else
      var last := rows[|rows| - 1];
      Sum(rows[..|rows| - 1], canonical, name, column) + (if Of(last, canonical, name) then column(last) else 0)
  }

  /** `last` is the greatest time of the rows of a device, or zero. */
  ghost predicate IsLatest(rows: seq<Row>, canonical: map<string, Nad>, name: Nad, last: real) {
    && last >= 0.0 && (forall i | 0 <= i < |rows| && Of(rows[i], canonical, name) :: rows[i].last <= last)
    && (last == 0.0 || exists i | 0 <= i < |rows| && Of(rows[i], canonical, name) :: rows[i].last == last)
  }

  /** What full credit is: all passed and all failed events, and the latest time. */
  lemma {:induction false} CreditIsFull(rows: seq<Row>, canonical: map<string, Nad>, name: Nad)
    ensures var a := Credit(rows, canonical, name);
            && a.passed == Sum(rows, canonical, name, (row: Row) => row.passed)
            && a.failed == Sum(rows, canonical, name, (row: Row) => row.failed)
            && IsLatest(rows, canonical, name, a.last)
  {
    if rows != [] {
      var init := rows[..|rows| - 1];
      CreditIsFull(init, canonical, name);
      assert rows == init + [rows[|rows| - 1]];
      var before := Credit(init, canonical, name).last;
      if before != 0.0 {
        var i :| 0 <= i < |init| && Of(init[i], canonical, name) && init[i].last == before;
        assert Of(rows[i], canonical, name) && rows[i].last == before;
      }
    }
  }

  /** Every device has full credit for all its rows; the active ones are those with a
      row, in the order first seen. */
  ghost predicate Tallies(t: Tally, rows: seq<Row>, canonical: map<string, Nad>) {
    && t.active == Dedup(Matched(rows, canonical))
    && (forall name :: name in t.accounts <==> name in t.active)
    && forall name :: At(t.accounts, name) == Credit(rows, canonical, name)
  }

  /** A row of a configured device counts towards it; any other changes nothing. */
  function Counted(t: Tally, row: Row, canonical: map<string, Nad>): Tally {
    if row.reported !in canonical then t
    else
      var name := canonical[row.reported];
      Tally(t.accounts[name := Plus(At(t.accounts, name), row)],
            if name in t.active then t.active else t.active + [name])
  }

  lemma CountedTallies(t: Tally, rows: seq<Row>, canonical: map<string, Nad>)
    requires rows != [] && Tallies(t, rows[..|rows| - 1], canonical)
    ensures Tallies(Counted(t, rows[|rows| - 1], canonical), rows, canonical)
  {
    var n := |rows| - 1;
    var before, row := Matched(rows[..n], canonical), rows[n];
    var next := Counted(t, row, canonical);
    if row.reported in canonical {
      DedupOneMore(before, canonical[row.reported]);
      assert Matched(rows, canonical) == before + [canonical[row.reported]];
    } else {
      assert before + [] == before;
    }
    forall name ensures At(next.accounts, name) == Credit(rows, canonical, name) {
      assert At(t.accounts, name) == Credit(rows[..n], canonical, name);
    }
    forall name ensures name in next.accounts <==> name in next.active {
      assert name in t.accounts <==> name in t.active;
    }
  }

  lemma DedupOneMore(names: seq<Nad>, name: Nad)
    ensures Dedup(names + [name]) == if name in Dedup(names) then Dedup(names) else Dedup(names) + [name]
  {
    DedupFacts(names);
    assert (names + [name])[..|names|] == names;
  }

  /** The accumulation over all rows of both pages. */
  method Accumulate(rows: seq<Row>, canonical: map<string, Nad>) returns (t: Tally)
    ensures Tallies(t, rows, canonical)
    ensures forall name | name in t.accounts ::
              && t.accounts[name].passed == Sum(rows, canonical, name, (row: Row) => row.passed)
              && t.accounts[name].failed == Sum(rows, canonical, name, (row: Row) => row.failed)
              && IsLatest(rows, canonical, name, t.accounts[name].last)
  {
    t := Tally(map[], []);
    var i := 0;
    while i < |rows|
      invariant i <= |rows| && Tallies(t, rows[..i], canonical)
    {
      assert rows[..i + 1][..i] == rows[..i];
      CountedTallies(t, rows[..i + 1], canonical);
      t := Counted(t, rows[i], canonical);
      i := i + 1;
    }
    assert rows[..|rows|] == rows;
    forall name | name in t.accounts
      ensures && t.accounts[name].passed == Sum(rows, canonical, name, (row: Row) => row.passed)
              && t.accounts[name].failed == Sum(rows, canonical, name, (row: Row) => row.failed)
              && IsLatest(rows, canonical, name, t.accounts[name].last)
    {
      CreditIsFull(rows, canonical, name);
      assert At(t.accounts, name) == Credit(rows, canonical, name);
    }
  }

  function Step(a: Account, row: Row, canonical: map<string, Nad>, name: Nad): Account {
    if Of(row, canonical, name) then Plus(a, row) else a
  }

  /** A row may be counted last. */
  lemma {:induction false} CountedLast(rows: seq<Row>, j: nat, canonical: map<string, Nad>, name: Nad)
    requires j < |rows|
    ensures Credit(rows, canonical, name)
            == Step(Credit(rows[..j] + rows[j + 1..], canonical, name), rows[j], canonical, name)
  {
    var n := |rows| - 1;
    if j == n {
      assert rows[..n] + rows[n + 1..] == rows[..n];
    } else {
      CountedLast(rows[..n], j, canonical, name);
      var without := rows[..j] + rows[j + 1..];
      assert without[..|without| - 1] == rows[..n][..j] + rows[..n][j + 1..];
      assert without[|without| - 1] == rows[n];
    }
  }

  /** The order of the rows, and so of the pages, does not change any credit. */
  lemma {:induction false} OrderDoesNotMatter(a: seq<Row>, b: seq<Row>, canonical: map<string, Nad>, name: Nad)
    requires multiset(a) == multiset(b)
    ensures Credit(a, canonical, name) == Credit(b, canonical, name)
    decreases |a|
  {
    if a != [] {
      var j := Counterpart(a, b);
      OrderDoesNotMatter(a[..|a| - 1], b[..j] + b[j + 1..], canonical, name);
      CountedLast(b, j, canonical, name);
    } else {
      assert b == [] by {
        assert |multiset(b)| == 0;
      }
    }
  }

  lemma {:induction false} ActiveAreConfigured(rows: seq<Row>, canonical: map<string, Nad>, configured: seq<Nad>)
    requires forall reported | reported in canonical :: canonical[reported] in configured
    ensures NoDuplicates(Dedup(Matched(rows, canonical)))
    ensures forall x | x in Dedup(Matched(rows, canonical)) :: x in configured
  {
    DedupFacts(Matched(rows, canonical));
    if rows != [] {
      ActiveAreConfigured(rows[..|rows| - 1], canonical, configured);
      DedupFacts(Matched(rows[..|rows| - 1], canonical));
    }
  }

  // ---- the bounded selection ---------------------------------------------------------------

  /** The configured names not among `chosen`, in their order. */
  function Rest(names: seq<Nad>, chosen: seq<Nad>): seq<Nad> {
    if names == [] then []
    else
      var n := |names| - 1;
      Rest(names[..n], chosen) + (if names[n] in chosen then [] else [names[n]])
  }

  function Take(names: seq<Nad>, count: nat): seq<Nad> {
    if |names| <= count then names else names[..count]
  }

  /** Active devices first, then the sorted inventory until the ceiling is reached. */
  method Select(active: seq<Nad>, sorted: seq<Nad>) returns (selected: seq<Nad>)
    ensures selected == Take(active + Rest(sorted, active), EXPORT_CEILING)
  {
    selected := Take(active, EXPORT_CEILING);
    var chosen := selected;
    var i := 0;
    while i < |sorted|
      invariant i <= |sorted| && selected == Take(active + Rest(sorted[..i], active), EXPORT_CEILING)
    {
      assert sorted[..i + 1][..i] == sorted[..i];
      if sorted[i] !in chosen && |selected| < EXPORT_CEILING {
        selected := selected + [sorted[i]];
      }
      i := i + 1;
    }
    assert sorted[..|sorted|] == sorted;
  }

  lemma {:induction false} RestFacts(names: seq<Nad>, chosen: seq<Nad>)
    requires NoDuplicates(names)
    ensures NoDuplicates(Rest(names, chosen))
    ensures forall x :: x in Rest(names, chosen) <==> x in names && x !in chosen
  {
    if names != [] {
      var n := |names| - 1;
      RestFacts(names[..n], chosen);
      assert names == names[..n] + [names[n]] && names[n] !in names[..n];
    }
  }

  /** The selection has no duplicates, at most the ceiling, only configured devices,
      all of them when they fit, and the active ones before the others. */
  lemma SelectionFacts(active: seq<Nad>, configured: seq<Nad>, le: (Nad, Nad) -> bool)
    requires NoDuplicates(active) && NoDuplicates(configured) && TotalPreorder(le)
    requires forall x | x in active :: x in configured
    ensures var selected := Take(active + Rest(SortBy(configured, le), active), EXPORT_CEILING);
            && NoDuplicates(selected) && |selected| == Min(EXPORT_CEILING, |configured|)
            && (forall x | x in selected :: x in configured)
            && (|configured| <= EXPORT_CEILING ==> forall x | x in configured :: x in selected)
            && forall i | 0 <= i < Min(|active|, EXPORT_CEILING) :: selected[i] == active[i]
  {
    var sorted := SortBy(configured, le);
    SortIsSorted(configured, le);
    SameMembers(configured, sorted);
    RestFacts(sorted, active);
    var whole := active + Rest(sorted, active);
    JoinDistinct(active, Rest(sorted, active));
    DistinctSize(whole);
    DistinctSize(configured);
    assert (set x | x in whole) == (set x | x in configured);
  }

  /** Every active device is selected if and only if the active ones fit. */
  lemma ActiveSelectedExactly(active: seq<Nad>, sorted: seq<Nad>)
    requires NoDuplicates(active)
    ensures (forall x | x in active :: x in Take(active + Rest(sorted, active), EXPORT_CEILING))
            <==> |active| <= EXPORT_CEILING
  {
    var whole := active + Rest(sorted, active);
    var selected := Take(whole, EXPORT_CEILING);
    if |active| <= EXPORT_CEILING {
      forall x | x in active ensures x in selected {
        var i :| 0 <= i < |active| && active[i] == x;
        assert selected[i] == x;
      }
    } else {
      var dropped := active[EXPORT_CEILING];
      assert selected == active[..EXPORT_CEILING];
      assert dropped in active && dropped !in selected;
    }
  }

  // ---- which devices the ceiling drops ---------------------------------------------------

  /** A scan: one row for each group, its two ranks, and the order in which each page
      returned its groups. */
  datatype Scanned = Scanned(groups: seq<Row>, volume: seq<nat>, recency: seq<nat>, one: seq<nat>, two: seq<nat>)

  function Listed(page: seq<nat>): set<nat> { set i | i in page }

  /** The groups of a page, each once. */
  ghost predicate Orders(page: seq<nat>, groups: set<nat>) {
    NoDuplicates(page) && Listed(page) == groups
  }

  /** Busier groups rank before others by volume, later ones by recency; ties in any order. */
  ghost predicate Agrees(s: Scanned)
    requires |s.volume| == |s.recency| == |s.groups|
  {
    forall i, j | 0 <= i < |s.groups| && 0 <= j < |s.groups| ::
      && (s.groups[i].passed + s.groups[i].failed > s.groups[j].passed + s.groups[j].failed
          ==> s.volume[i] < s.volume[j])
      && (s.groups[i].last > s.groups[j].last ==> s.recency[i] < s.recency[j])
  }

  /** The pages as the two statements return them, each in any order. */
  ghost predicate IsScan(s: Scanned, limit: nat) {
    && |s.volume| == |s.recency| == |s.groups| && IsRanking(s.volume) && IsRanking(s.recency) && Agrees(s)
    && Orders(s.one, PageOne(s.volume, s.recency, limit))
    && Orders(s.two, if Total(s.volume, s.recency, limit) > PAGE_ONE_CAP
                     then PageTwo(s.volume, s.recency, limit) else {})
  }

  predicate Inside(page: seq<nat>, n: nat) {
    forall k | 0 <= k < |page| :: page[k] < n
  }

  function RowsOf(groups: seq<Row>, page: seq<nat>): seq<Row>
    requires Inside(page, |groups|)
  {
    seq(|page|, k requires 0 <= k < |page| => groups[page[k]])
  }

  /** The second page is appended to the first. */
  function Combined(s: Scanned): seq<Row>
    requires Inside(s.one + s.two, |s.groups|)
  {
    RowsOf(s.groups, s.one + s.two)
  }

  lemma ScanFits(s: Scanned, limit: nat)
    requires IsScan(s, limit) && limit <= 1000
    ensures Inside(s.one, |s.groups|) && Inside(s.two, |s.groups|) && Inside(s.one + s.two, |s.groups|)
    ensures |s.one| <= PAGE_ONE_CAP + limit && |s.two| <= LAST_SEEN_CAP - PAGE_ONE_CAP
  {
    forall k | 0 <= k < |s.one| ensures s.one[k] < |s.groups| {
      assert s.one[k] in Listed(s.one);
    }
    forall k | 0 <= k < |s.two| ensures s.two[k] < |s.groups| {
      assert s.two[k] in Listed(s.two);
    }
    PageSize(s.one, PageOne(s.volume, s.recency, limit));
    PageSize(s.two, if Total(s.volume, s.recency, limit) > PAGE_ONE_CAP
                    then PageTwo(s.volume, s.recency, limit) else {});
    PageSizes(s.volume, s.recency, limit);
  }

  lemma PageSize(page: seq<nat>, groups: set<nat>)
    requires Orders(page, groups)
    ensures |page| == |groups|
  {
    DistinctSize(page);
    assert (set i | i in page) == groups;
  }

  lemma {:induction false} MatchedJoin(a: seq<Row>, b: seq<Row>, canonical: map<string, Nad>)
    ensures Matched(a + b, canonical) == Matched(a, canonical) + Matched(b, canonical)
  {
    if b == [] {
      assert a + b == a;
    } else {
      var n := |b| - 1;
      assert (a + b)[..|a + b| - 1] == a + b[..n];
      MatchedJoin(a, b[..n], canonical);
    }
  }

  lemma {:induction false} MatchedSize(rows: seq<Row>, canonical: map<string, Nad>)
    ensures |Matched(rows, canonical)| <= |rows|
  {
    if rows != [] {
      MatchedSize(rows[..|rows| - 1], canonical);
    }
  }

  lemma {:induction false} MatchedHas(rows: seq<Row>, canonical: map<string, Nad>, k: nat)
    requires k < |rows| && rows[k].reported in canonical
    ensures canonical[rows[k].reported] in Matched(rows, canonical)
  {
    if k < |rows| - 1 {
      MatchedHas(rows[..|rows| - 1], canonical, k);
    }
  }

  lemma {:induction false} DedupGrows(a: seq<Nad>, b: seq<Nad>)
    ensures Dedup(a) <= Dedup(a + b) && |Dedup(a + b)| <= |a| + |b|
  {
    if b == [] {
      assert a + b == a;
      DedupSize(a);
    } else {
      var n := |b| - 1;
      assert (a + b)[..|a + b| - 1] == a + b[..n];
      DedupGrows(a, b[..n]);
    }
  }

  lemma {:induction false} DedupSize(a: seq<Nad>)
    ensures |Dedup(a)| <= |a|
  {
    if a != [] {
      DedupSize(a[..|a| - 1]);
    }
  }

  /** The active devices of a scan: those of the first page come first. */
  lemma ActiveOfPages(s: Scanned, limit: nat, canonical: map<string, Nad>)
    requires IsScan(s, limit) && limit <= 1000
    ensures Inside(s.one, |s.groups|) && Inside(s.one + s.two, |s.groups|)
    ensures var first := Dedup(Matched(RowsOf(s.groups, s.one), canonical));
            var active := Dedup(Matched(Combined(s), canonical));
            && first <= active && |first| <= PAGE_ONE_CAP + limit && |active| <= LAST_SEEN_CAP + limit
  {
    ScanFits(s, limit);
    var a, b := RowsOf(s.groups, s.one), RowsOf(s.groups, s.two);
    assert Combined(s) == a + b;
    MatchedJoin(a, b, canonical);
    MatchedSize(a, canonical);
    MatchedSize(b, canonical);
    DedupSize(Matched(a, canonical));
    DedupGrows(Matched(a, canonical), Matched(b, canonical));
  }

  /** What the selection makes of a scan. */
  function Selected(s: Scanned, canonical: map<string, Nad>, sorted: seq<Nad>): seq<Nad>
    requires Inside(s.one + s.two, |s.groups|)
  {
    var active := Dedup(Matched(Combined(s), canonical));
    Take(active + Rest(sorted, active), EXPORT_CEILING)
  }

  /** The busiest `limit` and the latest 4500 groups are on the first page, and every
      configured device with a row there is selected, in whatever order the pages come. */
  lemma FirstPageIsSelected(s: Scanned, limit: nat, canonical: map<string, Nad>, sorted: seq<Nad>, i: nat)
    requires IsScan(s, limit) && limit <= 1000 && i < |s.groups| && s.groups[i].reported in canonical
    requires s.volume[i] <= limit || s.recency[i] <= PAGE_ONE_CAP
    ensures Inside(s.one + s.two, |s.groups|)
    ensures canonical[s.groups[i].reported] in Selected(s, canonical, sorted)
  {
    ActiveOfPages(s, limit, canonical);
    assert i in Listed(s.one);
    var k :| 0 <= k < |s.one| && s.one[k] == i;
    var rows, device := RowsOf(s.groups, s.one), canonical[s.groups[i].reported];
    MatchedHas(rows, canonical, k);
    DedupFacts(Matched(rows, canonical));
    HeadIsTaken(Dedup(Matched(rows, canonical)), Dedup(Matched(Combined(s), canonical)), sorted, device);
  }

  lemma HeadIsTaken(head: seq<Nad>, active: seq<Nad>, sorted: seq<Nad>, x: Nad)
    requires head <= active && |head| <= EXPORT_CEILING && x in head
    ensures x in Take(active + Rest(sorted, active), EXPORT_CEILING)
  {
    var m :| 0 <= m < |head| && head[m] == x;
    assert Take(active + Rest(sorted, active), EXPORT_CEILING)[m] == x;
  }

  /** Every device with a row of the scan is selected. */
  ghost predicate KeepsActive(s: Scanned, canonical: map<string, Nad>, sorted: seq<Nad>) {
    && Inside(s.one + s.two, |s.groups|)
    && forall x | x in Matched(Combined(s), canonical) :: x in Selected(s, canonical, sorted)
  }

  /** Exactly when they fit under the ceiling. */
  lemma KeepsActiveExactly(s: Scanned, limit: nat, canonical: map<string, Nad>, sorted: seq<Nad>)
    requires IsScan(s, limit) && limit <= 1000
    ensures Inside(s.one + s.two, |s.groups|)
    ensures KeepsActive(s, canonical, sorted) <==> |Dedup(Matched(Combined(s), canonical))| <= EXPORT_CEILING
  {
    ScanFits(s, limit);
    DedupFacts(Matched(Combined(s), canonical));
    ActiveSelectedExactly(Dedup(Matched(Combined(s), canonical)), sorted);
  }

  ghost predicate AlwaysKeepsActive(limit: nat) {
    forall s, canonical, sorted | IsScan(s, limit) :: KeepsActive(s, canonical, sorted)
  }

  /** Every scan keeps all its active devices if and only if the volume limit leaves the
      recency cap room under the ceiling. */
  lemma ActiveAlwaysKeptExactly(limit: nat)
    requires limit <= 1000
    ensures AlwaysKeepsActive(limit) <==> LAST_SEEN_CAP + limit <= EXPORT_CEILING
  {
    if LAST_SEEN_CAP + limit <= EXPORT_CEILING {
      forall s, canonical, sorted | IsScan(s, limit) ensures KeepsActive(s, canonical, sorted) {
        KeepsActiveExactly(s, limit, canonical, sorted);
        ActiveOfPages(s, limit, canonical);
      }
    } else {
      LaterIsDropped(limit, []);
    }
  }

  // The scan that drops a device: the busiest `limit` groups are the least recent, and
  // the second page returns its most recent group last.

  function Tag(i: nat): string {
    seq(i, k => 'a')
  }

  function Tags(n: nat): set<string> {
    if n == 0 then {} else Tags(n - 1) + {Tag(n - 1)}
  }

  lemma {:induction false} TagsFacts(n: nat, i: nat)
    ensures i < n ==> Tag(i) in Tags(n)
  {
    if n > 0 {
      TagsFacts(n - 1, i);
    }
  }

  function Directory(n: nat): map<string, Nad> {
    map tag | tag in Tags(n) :: Nad(tag)
  }

  function Groups(n: nat): seq<Row> {
    seq(n, i requires 0 <= i < n => Row(Tag(i), if i < LAST_SEEN_CAP then 1 else 2, 0, (n - i) as real))
  }

  function Crowd(limit: nat): Scanned {
    var n := LAST_SEEN_CAP + limit;
    Scanned(Groups(n),
            seq(n, i requires 0 <= i < n => if i < LAST_SEEN_CAP then i + 1 + limit else i + 1 - LAST_SEEN_CAP),
            seq(n, i requires 0 <= i < n => i + 1),
            seq(PAGE_ONE_CAP + limit, k requires 0 <= k => if k < PAGE_ONE_CAP then k else k + 5000),
            seq(5000, k requires 0 <= k => if k < 4999 then PAGE_ONE_CAP + 1 + k else PAGE_ONE_CAP))
  }

  lemma CrowdIsScan(limit: nat)
    requires limit <= 1000
    ensures IsScan(Crowd(limit), limit)
  {
    var s := Crowd(limit);
    TotalIsExact(s.volume, s.recency, limit);
    forall i: nat ensures i in s.one <==> i in PageOne(s.volume, s.recency, limit) {
      if i in PageOne(s.volume, s.recency, limit) {
        assert s.one[if i < PAGE_ONE_CAP then i else i - 5000] == i;
      }
    }
    forall i: nat ensures i in s.two <==> i in PageTwo(s.volume, s.recency, limit) {
      if i in PageTwo(s.volume, s.recency, limit) {
        assert s.two[if i == PAGE_ONE_CAP then 4999 else i - PAGE_ONE_CAP - 1] == i;
      }
    }
  }

  function Devices(page: seq<nat>): seq<Nad> {
    seq(|page|, k requires 0 <= k < |page| => Nad(Tag(page[k])))
  }

  lemma {:induction false} CrowdMatches(n: nat, page: seq<nat>)
    requires Inside(page, n)
    ensures Matched(RowsOf(Groups(n), page), Directory(n)) == Devices(page)
  {
    if page != [] {
      var m := |page| - 1;
      assert page == page[..m] + [page[m]];
      CrowdMatches(n, page[..m]);
      TagsFacts(n, page[m]);
      assert RowsOf(Groups(n), page)[..m] == RowsOf(Groups(n), page[..m]);
    }
  }

  lemma DevicesDistinct(page: seq<nat>)
    requires NoDuplicates(page)
    ensures NoDuplicates(Devices(page))
  {
    forall i, j | 0 <= i < j < |page| ensures Devices(page)[i] != Devices(page)[j] {
      assert |Tag(page[i])| == page[i] && |Tag(page[j])| == page[j];
    }
  }

  /** All its devices are active, in the order of the pages. */
  lemma CrowdActive(limit: nat)
    requires limit <= 1000
    ensures var s, n := Crowd(limit), LAST_SEEN_CAP + limit;
            && IsScan(s, limit) && Inside(s.one + s.two, n)
            && Matched(Combined(s), Directory(n)) == Devices(s.one + s.two)
            && Dedup(Devices(s.one + s.two)) == Devices(s.one + s.two) && NoDuplicates(Devices(s.one + s.two))
  {
    var s, n := Crowd(limit), LAST_SEEN_CAP + limit;
    CrowdIsScan(limit);
    ScanFits(s, limit);
    CrowdMatches(n, s.one + s.two);
    forall x | x in s.one ensures x !in s.two {
      assert x in Listed(s.one);
      assert x in s.two ==> x in Listed(s.two);
    }
    JoinDistinct(s.one, s.two);
    DevicesDistinct(s.one + s.two);
    DedupDistinct(Devices(s.one + s.two));
  }

  /** In that scan the device of recency rank 4501 is not selected, while one of rank
      10001 - limit is, with no more events, whatever else is configured. */
  lemma LaterIsDropped(limit: nat, sorted: seq<Nad>)
    requires 500 < limit <= 1000
    ensures var s := Crowd(limit);
            var n := LAST_SEEN_CAP + limit;
            && IsScan(s, limit) && |s.groups| == n && Inside(s.one + s.two, n)
            && s.recency[PAGE_ONE_CAP] == 4501 && s.recency[EXPORT_CEILING - limit] == 10001 - limit >= 9001
            && s.groups[PAGE_ONE_CAP].passed == s.groups[EXPORT_CEILING - limit].passed
            && Nad(Tag(PAGE_ONE_CAP)) in Matched(Combined(s), Directory(n))
            && Nad(Tag(PAGE_ONE_CAP)) !in Selected(s, Directory(n), sorted)
            && Nad(Tag(EXPORT_CEILING - limit)) in Selected(s, Directory(n), sorted)
            && !KeepsActive(s, Directory(n), sorted)
  {
    var s, n := Crowd(limit), LAST_SEEN_CAP + limit;
    CrowdActive(limit);
    var active := Devices(s.one + s.two);
    assert Selected(s, Directory(n), sorted) == active[..EXPORT_CEILING];
    assert active[n - 1] == Nad(Tag(PAGE_ONE_CAP));
    assert active[EXPORT_CEILING - 1] == Nad(Tag(EXPORT_CEILING - limit));
  }
}
