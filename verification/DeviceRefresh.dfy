/** The budgeted refresh of network-device details: the pass plan, the fetch loop
    with its failure streak, and how long a stale row can wait. */
module DeviceRefresh {
  import opened Util
  import opened Ordering

  /** Device ids, of which only identity and a total order matter. */
  type Id = nat

  /** Cached ids with the time their detail was fetched. */
  type Cache = map<Id, real>

  const REQUEST_CEILING := 10000

  /** Seconds a detail lasts, seconds between passes, and the explicit cap on
      requests, where zero or less means sizing to the work. */
  datatype Policy = Policy(ttl: nat, interval: nat, budget: int)

  predicate NeedsDetail(cache: Cache, staleBefore: real, id: Id) {
    id !in cache || cache[id] < staleBefore
  }

  /** The sort key (cached, updated_at or -1, id), compared lexicographically. */
  function Precedes(cache: Cache): (Id, Id) -> bool {
    (a: Id, b: Id) =>
      if a !in cache || b !in cache then a !in cache && (b in cache || a <= b)
      else cache[a] < cache[b] || (cache[a] == cache[b] && a <= b)
  }

  function Needing(ids: seq<Id>, cache: Cache, staleBefore: real): seq<Id> {
    if ids == [] then []
    else (if NeedsDetail(cache, staleBefore, ids[0]) then [ids[0]] else []) + Needing(ids[1..], cache, staleBefore)
  }

  function RefreshIds(ids: seq<Id>, cache: Cache, staleBefore: real): seq<Id> {
    SortBy(Needing(ids, cache, staleBefore), Precedes(cache))
  }

  function Uncached(ids: seq<Id>, cache: Cache): nat {
    if ids == [] then 0 else (if ids[0] in cache then 0 else 1) + Uncached(ids[1..], cache)
  }

  function Rotation(p: Policy, inventory: nat): nat {
    CeilDiv(inventory * Max(1, p.interval), Max(1, p.ttl))
  }

  /** Auto-sizing fetches every uncached device and a rotation slice of stale ones;
      an explicit budget is honoured as given. `rotation` is the slice. */
  function MaxRequests(p: Policy, refreshIds: seq<Id>, cache: Cache, rotation: nat): nat {
    if p.budget <= 0 then Min(REQUEST_CEILING, Uncached(refreshIds, cache) + rotation)
    else Max(1, Min(REQUEST_CEILING, p.budget))
  }

  function Planned(p: Policy, ids: seq<Id>, cache: Cache, now: real, rotation: nat): seq<Id> {
    var refreshIds := RefreshIds(ids, cache, now - Max(1, p.ttl) as real);
    refreshIds[..Min(|refreshIds|, MaxRequests(p, refreshIds, cache, rotation))]
  }

  lemma PrecedesIsTotal(cache: Cache)
    ensures TotalPreorder(Precedes(cache))
  {
  }

  lemma {:induction false} NeedingFacts(ids: seq<Id>, cache: Cache, staleBefore: real)
    ensures forall id :: id in Needing(ids, cache, staleBefore) <==> id in ids && NeedsDetail(cache, staleBefore, id)
    ensures NoDuplicates(ids) ==> NoDuplicates(Needing(ids, cache, staleBefore))
  {
    if ids != [] {
      NeedingFacts(ids[1..], cache, staleBefore);
      assert ids == [ids[0]] + ids[1..];
    }
  }

  lemma RefreshFacts(ids: seq<Id>, cache: Cache, staleBefore: real)
    requires NoDuplicates(ids)
    ensures var order := RefreshIds(ids, cache, staleBefore);
            && SortedBy(order, Precedes(cache)) && NoDuplicates(order)
            && forall id :: id in order <==> id in ids && NeedsDetail(cache, staleBefore, id)
  {
    var needing := Needing(ids, cache, staleBefore);
    NeedingFacts(ids, cache, staleBefore);
    PrecedesIsTotal(cache);
    SortIsSorted(needing, Precedes(cache));
    SameMembers(needing, RefreshIds(ids, cache, staleBefore));
  }

  /** In the refresh order the uncached ids come first, and there are `Uncached`. */
  lemma {:induction false} UncachedFirst(order: seq<Id>, cache: Cache)
    requires SortedBy(order, Precedes(cache))
    ensures Uncached(order, cache) <= |order|
    ensures forall i | 0 <= i < |order| :: order[i] !in cache <==> i < Uncached(order, cache)
  {
    if order != [] {
      var rest := order[1..];
      UncachedFirst(rest, cache);
      forall i | 0 <= i < |order| ensures order[i] !in cache <==> i < Uncached(order, cache) {
        if i > 0 {
          assert order[i] == rest[i - 1];
          assert Precedes(cache)(order[0], order[i]);
        } else if rest != [] {
          assert rest[0] == order[1];
          assert Precedes(cache)(order[0], order[1]);
        }
      }
    }
  }

  /** The plan is a prefix of an order in which the uncached devices come first. */
  lemma PlanShape(p: Policy, ids: seq<Id>, cache: Cache, now: real, rotation: nat)
    returns (order: seq<Id>, u: nat, size: nat)
    requires NoDuplicates(ids) && p.budget <= 0
    ensures SortedBy(order, Precedes(cache)) && NoDuplicates(order)
    ensures forall id :: id in order <==> id in ids && NeedsDetail(cache, now - Max(1, p.ttl) as real, id)
    ensures u <= |order| && forall i | 0 <= i < |order| :: order[i] !in cache <==> i < u
    ensures u == Uncached(RefreshIds(ids, cache, now - Max(1, p.ttl) as real), cache)
    ensures size == Min(|order|, Min(REQUEST_CEILING, u + rotation))
    ensures Planned(p, ids, cache, now, rotation) == order[..size]
  {
    order := RefreshIds(ids, cache, now - Max(1, p.ttl) as real);
    RefreshFacts(ids, cache, now - Max(1, p.ttl) as real);
    UncachedFirst(order, cache);
    u := Uncached(order, cache);
    size := Min(|order|, Min(REQUEST_CEILING, u + rotation));
  }

  /** Every device seen for the first time is fetched in the pass that sees it. */
  lemma NewDevicesFetched(p: Policy, ids: seq<Id>, cache: Cache, now: real, rotation: nat, id: Id)
    requires NoDuplicates(ids) && p.budget <= 0 && id in ids && id !in cache
    requires Uncached(RefreshIds(ids, cache, now - Max(1, p.ttl) as real), cache) + rotation <= REQUEST_CEILING
    ensures id in Planned(p, ids, cache, now, rotation)
  {
    var order, u, size := PlanShape(p, ids, cache, now, rotation);
    assert id in order;
    var i :| 0 <= i < |order| && order[i] == id;
    assert order[..size][i] == id;
  }

  /** However it is sized, a pass stays under the ceiling and fetches only devices
      that need it; an explicit budget is used in full when there is work for it. */
  lemma PlanIsBounded(p: Policy, ids: seq<Id>, cache: Cache, now: real, rotation: nat)
    requires NoDuplicates(ids)
    ensures var planned := Planned(p, ids, cache, now, rotation);
            var work := RefreshIds(ids, cache, now - Max(1, p.ttl) as real);
            && |planned| <= REQUEST_CEILING && NoDuplicates(planned)
            && (forall id | id in planned :: id in work)
            && (forall id :: id in work <==>
                  id in ids && (id !in cache || cache[id] < now - (if p.ttl < 1 then 1 else p.ttl) as real))
            && (p.budget > 0 ==> |planned| == Min(|work|, Min(REQUEST_CEILING, p.budget)))
            && (p.budget > 0 && |work| <= p.budget && |work| <= REQUEST_CEILING ==> planned == work)
  {
    RefreshFacts(ids, cache, now - Max(1, p.ttl) as real);
  }

  // ---- the fetch loop -------------------------------------------------------------

  /** How many requests are issued, given which would succeed: the loop ends early
      at the third failure in a row. */
  function Attempts(ok: seq<bool>, streak: nat): nat {
    if ok == [] then 0
    else if ok[0] then 1 + Attempts(ok[1..], 0)
    else if streak + 1 >= 3 then 1
    else 1 + Attempts(ok[1..], streak + 1)
  }

  /** Three failures in a row ending at `k`, counting `streak` before the start. */
  predicate Third(ok: seq<bool>, streak: nat, k: nat)
    requires k < |ok|
  {
    !ok[k] && (if k >= 2 then !ok[k - 1] && !ok[k - 2]
               else if k == 1 then !ok[0] && streak >= 1
               else streak >= 2)
  }

  /** The loop stops exactly at the first third consecutive failure. */
  lemma {:induction false} StopsAtThird(ok: seq<bool>, streak: nat)
    requires streak < 3
    ensures Attempts(ok, streak) <= |ok|
    ensures forall k | 0 <= k < Attempts(ok, streak) - 1 :: !Third(ok, streak, k)
    ensures ok != [] ==> Attempts(ok, streak) >= 1
    ensures ok != [] ==> (Third(ok, streak, Attempts(ok, streak) - 1) || Attempts(ok, streak) == |ok|)
  {
    if ok != [] && (ok[0] || streak + 1 < 3) {
      var next := if ok[0] then 0 else streak + 1;
      StopsAtThird(ok[1..], next);
      forall k | 0 < k < |ok| ensures Third(ok, streak, k) <==> Third(ok[1..], next, k - 1) {
        assert ok[1..][k - 1] == ok[k];
      }
    }
  }

  function Refreshed(cache: Cache, ids: seq<Id>, ok: seq<bool>, now: real): Cache
    requires |ids| <= |ok|
  {
    if ids == [] then cache
    else
      var n := |ids| - 1;
      var before := Refreshed(cache, ids[..n], ok, now);
      if ok[n] then before[ids[n] := now] else before
  }

  function Failures(ok: seq<bool>): nat {
    if ok == [] then 0 else Failures(ok[..|ok| - 1]) + (if ok[|ok| - 1] then 0 else 1)
  }

  /** The requests that failed. */
  function Failed(ok: seq<bool>, n: nat): set<nat>
    requires n <= |ok|
  {
    set i: nat | i < n && !ok[i]
  }

  lemma {:induction false} FailuresAreCounted(ok: seq<bool>)
    ensures Failures(ok) == |Failed(ok, |ok|)|
  {
    if ok == [] {
      assert Failed(ok, 0) == {};
    } else {
      var n := |ok| - 1;
      FailuresAreCounted(ok[..n]);
      assert Failed(ok, n + 1) == Failed(ok[..n], n) + (if ok[n] then {} else {n});
    }
  }

  lemma FailedOfPrefix(ok: seq<bool>, n: nat)
    requires n <= |ok|
    ensures Failures(ok[..n]) == |Failed(ok, n)|
  {
    FailuresAreCounted(ok[..n]);
    assert Failed(ok[..n], n) == Failed(ok, n);
  }

  /** Whether a request for `id` succeeded. */
  predicate Fetched(ids: seq<Id>, ok: seq<bool>, id: Id)
    requires |ids| <= |ok|
  {
    exists i | 0 <= i < |ids| :: ids[i] == id && ok[i]
  }

  /** Exactly the rows fetched are stamped; the others are as they were. */
  lemma {:induction false} RefreshedRow(cache: Cache, ids: seq<Id>, ok: seq<bool>, now: real, id: Id)
    requires |ids| <= |ok|
    ensures Fetched(ids, ok, id) ==> id in Refreshed(cache, ids, ok, now) && Refreshed(cache, ids, ok, now)[id] == now
    ensures !Fetched(ids, ok, id) ==>
              && (id in Refreshed(cache, ids, ok, now) <==> id in cache)
              && (id in cache ==> Refreshed(cache, ids, ok, now)[id] == cache[id])
  {
    if ids != [] {
      var n := |ids| - 1;
      RefreshedRow(cache, ids[..n], ok, now, id);
      assert Fetched(ids, ok, id) <==> Fetched(ids[..n], ok, id) || (ids[n] == id && ok[n]) by {
        if Fetched(ids[..n], ok, id) {
          var i :| 0 <= i < n && ids[..n][i] == id && ok[i];
          assert ids[i] == id;
        }
        if Fetched(ids, ok, id) {
          var i :| 0 <= i < |ids| && ids[i] == id && ok[i];
          assert i < n ==> ids[..n][i] == id;
        }
      }
    }
  }

  class DetailCache {
    var rows: Cache

    constructor ()
      ensures rows == map[]
    {
      rows := map[];
    }

    /** The paced detail requests of one pass; `ok[i]` is whether the i-th would
        return a usable detail. Each success is stored at once. */
    method FetchDetails(planned: seq<Id>, ok: seq<bool>, now: real) returns (attempted: nat, failures: nat)
      requires |ok| == |planned|
      modifies this
      ensures attempted == Attempts(ok, 0)
      ensures attempted <= |planned| && rows == Refreshed(old(rows), planned[..attempted], ok, now)
      ensures failures == |Failed(ok, attempted)|
      ensures forall id | Fetched(planned[..attempted], ok, id) :: id in rows && rows[id] == now
      ensures forall id | !Fetched(planned[..attempted], ok, id) ::
                (id in rows <==> id in old(rows)) && (id in old(rows) ==> rows[id] == old(rows)[id])
    {
      attempted, failures := 0, 0;
      var streak := 0;
      while attempted < |planned|
        invariant attempted <= |planned| && 0 <= streak < 3
        invariant rows == Refreshed(old(rows), planned[..attempted], ok, now)
        invariant Attempts(ok, 0) == attempted + Attempts(ok[attempted..], streak)
        invariant failures == Failures(ok[..attempted])
      {
        assert planned[..attempted + 1][..attempted] == planned[..attempted];
        assert ok[attempted..][1..] == ok[attempted + 1..];
        var id := planned[attempted];
        if ok[attempted] {
          rows := rows[id := now];
          streak := 0;
        } else {
          failures := failures + 1;
          streak := streak + 1;
        }
        attempted := attempted + 1;
        assert ok[..attempted] == ok[..attempted - 1] + [ok[attempted - 1]];
        if streak >= 3 {
          break;
        }
      }
      FailedOfPrefix(ok, attempted);
      forall id
        ensures Fetched(planned[..attempted], ok, id) ==> id in rows && rows[id] == now
        ensures !Fetched(planned[..attempted], ok, id) ==>
                  (id in rows <==> id in old(rows)) && (id in old(rows) ==> rows[id] == old(rows)[id])
      {
        RefreshedRow(old(rows), planned[..attempted], ok, now, id);
      }
    }
  }

  // ---- passes -----------------------------------------------------------------------

  function Stamp(cache: Cache, id: Id): real {
    if id in cache then cache[id] else 0.0
  }

  function PutAll(cache: Cache, ids: set<Id>, now: real): Cache {
    map id | id in cache.Keys + ids :: if id in ids then now else Stamp(cache, id)
  }

  function Members(ids: seq<Id>): set<Id> {
    set id | id in ids
  }

  /** One pass in which every request succeeds: rows listed with their detail are
      stored free of charge, the plan is fetched, removed devices are pruned. */
  ghost function AfterPass(p: Policy, ids: seq<Id>, cache: Cache, listed: set<Id>, now: real, rotation: nat): Cache {
    var known := PutAll(cache, listed, now);
    var fetched := PutAll(known, Members(Planned(p, ids, known, now, rotation)), now);
    map id | id in fetched && id in ids :: if id in ids then Stamp(fetched, id) else 0.0
  }

  /** Without failures the fetch loop stores its whole plan. */
  lemma {:induction false} AllFetched(cache: Cache, planned: seq<Id>, ok: seq<bool>, now: real, streak: nat)
    requires |planned| <= |ok| && forall i | 0 <= i < |ok| :: ok[i]
    ensures Attempts(ok, streak) == |ok|
    ensures Refreshed(cache, planned, ok, now) == PutAll(cache, Members(planned), now)
  {
    if planned != [] {
      var n := |planned| - 1;
      AllFetched(cache, planned[..n], ok, now, streak);
      assert planned == planned[..n] + [planned[n]];
    }
    AllAttempted(ok, streak);
  }

  lemma {:induction false} AllAttempted(ok: seq<bool>, streak: nat)
    requires forall i | 0 <= i < |ok| :: ok[i]
    ensures Attempts(ok, streak) == |ok|
  {
    if ok != [] {
      AllAttempted(ok[1..], 0);
    }
  }

  /** A pass as observed: its inventory, the rows listed in full, its time. */
  datatype Pass = Pass(ids: seq<Id>, listed: set<Id>, now: real)

  ghost predicate Passes(p: Policy, caches: seq<Cache>, passes: seq<Pass>) {
    && |caches| == |passes| + 1
    && (forall i, j | 0 <= i < j < |passes| :: passes[i].now <= passes[j].now)
    && (forall i | 0 <= i < |passes| :: NoDuplicates(passes[i].ids) && |passes[i].ids| >= |passes[0].ids|)
    && (forall i | 0 <= i < |passes| :: forall id | id in passes[i].listed :: id in passes[i].ids)
    && forall i | 0 <= i < |passes| :: PassStep(p, Rotation(p, |passes[i].ids|), caches[i], passes[i], caches[i + 1])
  }

  /** One pass with the rotation slice `share`, staying within the ceiling. */
  ghost predicate PassStep(p: Policy, share: nat, before: Cache, pass: Pass, after: Cache) {
    var known := PutAll(before, pass.listed, pass.now);
    && Uncached(RefreshIds(pass.ids, known, pass.now - Max(1, p.ttl) as real), known) + share <= REQUEST_CEILING
    && after == AfterPass(p, pass.ids, before, pass.listed, pass.now, share)
  }

  /** Row `x`, fetched at `since`, is still waiting: cached as it was. */
  predicate StillWaiting(cache: Cache, x: Id, since: real) {
    x in cache && cache[x] == since
  }

  /** The cached devices of the inventory that go no later than `x`. */
  function Queue(cache: Cache, ids: seq<Id>, x: Id, since: real): set<Id> {
    set id | id in ids && id in cache && (cache[id] < since || (cache[id] == since && id <= x))
  }

  /** A pass that leaves `x` waiting takes a full share out of the queue before it. */
  lemma PassServes(p: Policy, share: nat, before: Cache, pass: Pass, after: Cache, x: Id, since: real)
    requires p.budget <= 0 && NoDuplicates(pass.ids) && PassStep(p, share, before, pass, after)
    requires forall id | id in pass.listed :: id in pass.ids
    requires x in pass.ids && StillWaiting(before, x, since) && StillWaiting(after, x, since)
    requires since < pass.now - Max(1, p.ttl) as real
    ensures |Queue(after, pass.ids, x, since)| <= |Queue(before, pass.ids, x, since)| - share
  {
    var known := PutAll(before, pass.listed, pass.now);
    var order, u, size := PlanShape(p, pass.ids, known, pass.now, share);
    assert x !in pass.listed && x !in Planned(p, pass.ids, known, pass.now, share);
    assert x in order;
    var j := NotInPrefix(order, size, x);
    assert size == u + share;
    SliceServes(p, share, before, pass, after, x, since, order, u, size, j);
  }

  /** Serving the slice of the order between `u` and `size` shortens the queue by it. */
  lemma SliceServes(p: Policy, share: nat, before: Cache, pass: Pass, after: Cache, x: Id, since: real,
                    order: seq<Id>, u: nat, size: nat, j: nat)
    requires PassStep(p, share, before, pass, after) && since < pass.now
    requires var known := PutAll(before, pass.listed, pass.now);
             && SortedBy(order, Precedes(known)) && NoDuplicates(order) && u <= size <= j < |order| && order[j] == x
             && StillWaiting(known, x, since) && (forall id | id in order :: id in pass.ids)
             && (forall i | 0 <= i < |order| :: order[i] !in known <==> i < u)
             && Planned(p, pass.ids, known, pass.now, share) == order[..size]
    ensures |Queue(after, pass.ids, x, since)| <= |Queue(before, pass.ids, x, since)| - (size - u)
  {
    SliceLeavesQueue(order, PutAll(before, pass.listed, pass.now), before, pass, x, since, u, size, j);
    SliceSize(order, u, size);
    SliceInPlan(order, u, size);
    QueueLoses(p, share, before, pass, after, x, since, Members(order[u..size]));
  }

  lemma SliceInPlan(order: seq<Id>, u: nat, size: nat)
    requires u <= size <= |order|
    ensures forall id | id in Members(order[u..size]) :: id in order[..size]
  {
    forall id | id in order[u..size] ensures id in order[..size] {
      var i :| 0 <= i < size - u && order[u..size][i] == id;
      assert order[..size][u + i] == id;
    }
  }

  lemma NotInPrefix(order: seq<Id>, size: nat, x: Id) returns (j: nat)
    requires size <= |order| && x in order && x !in order[..size]
    ensures size <= j < |order| && order[j] == x
  {
    j :| 0 <= j < |order| && order[j] == x;
    assert forall i | 0 <= i < size :: order[..size][i] == order[i];
  }

  lemma SliceSize(order: seq<Id>, u: nat, size: nat)
    requires NoDuplicates(order) && u <= size <= |order|
    ensures |Members(order[u..size])| == size - u
  {
    DistinctSize(order[u..size]);
    assert Members(order[u..size]) == (set x | x in order[u..size]);
  }

  /** What a pass fetched out of the queue is no longer in it, and nothing joins. */
  lemma QueueLoses(p: Policy, share: nat, before: Cache, pass: Pass, after: Cache, x: Id, since: real, served: set<Id>)
    requires PassStep(p, share, before, pass, after) && since < pass.now
    requires forall id | id in served ::
               id in Planned(p, pass.ids, PutAll(before, pass.listed, pass.now), pass.now, share)
    requires served <= Queue(before, pass.ids, x, since)
    ensures |Queue(after, pass.ids, x, since)| <= |Queue(before, pass.ids, x, since)| - |served|
  {
    var q, q' := Queue(before, pass.ids, x, since), Queue(after, pass.ids, x, since);
    DisjointUnionSize(served, q');
    SubsetSize(served + q', q);
  }

  /** The rotation slice lies in the queue before `x`. */
  lemma SliceLeavesQueue(order: seq<Id>, known: Cache, before: Cache, pass: Pass, x: Id, since: real, u: nat,
                         size: nat, j: nat)
    requires known == PutAll(before, pass.listed, pass.now) && since < pass.now
    requires SortedBy(order, Precedes(known)) && u <= size <= j < |order| && order[j] == x
    requires StillWaiting(known, x, since) && forall id | id in order :: id in pass.ids
    requires forall i | 0 <= i < |order| :: order[i] !in known <==> i < u
    ensures forall id | id in order[u..size] :: id in Queue(before, pass.ids, x, since)
  {
    forall id | id in order[u..size] ensures id in Queue(before, pass.ids, x, since) {
      var k :| 0 <= k < size - u && order[u..size][k] == id;
      assert order[u + k] == id;
      assert Precedes(known)(order[u + k], order[j]);
      assert id in known && known[id] <= since;
      assert id !in pass.listed;
    }
  }

  /** Between passes the queue before `x` only loses devices, since anything stored
      later is newer than `x`. */
  lemma QueueShrinks(p: Policy, share: nat, before: Cache, pass: Pass, after: Cache, ids: seq<Id>, x: Id, since: real)
    requires PassStep(p, share, before, pass, after) && since < pass.now
    ensures Queue(after, ids, x, since) <= Queue(after, pass.ids, x, since)
  {
  }

  lemma StaysInQueue(cache: Cache, ids: seq<Id>, x: Id, since: real)
    requires StillWaiting(cache, x, since) && x in ids
    ensures |Queue(cache, ids, x, since)| >= 1
  {
    assert x in Queue(cache, ids, x, since);
  }

  lemma {:induction false} QueueRunsDown(p: Policy, rotation: nat, caches: seq<Cache>, passes: seq<Pass>,
                                         x: Id, since: real, k: nat)
    requires p.budget <= 0 && Passes(p, caches, passes) && 1 <= k <= |passes|
    requires rotation == Rotation(p, |passes[0].ids|)
    requires forall i | 0 <= i < |passes| :: x in passes[i].ids
    requires since < passes[0].now - Max(1, p.ttl) as real
    requires forall i | 0 <= i <= k :: StillWaiting(caches[i], x, since)
    ensures |Queue(caches[k], passes[k - 1].ids, x, since)| <= |passes[0].ids| - Served(k, rotation)
  {
    PassAt(p, rotation, caches, passes, x, since, k);
    if k == 1 {
      WholeQueue(caches[0], passes[0].ids, x, since);
      assert Served(1, rotation) == Served(0, rotation) + rotation;
    } else {
      QueueRunsDown(p, rotation, caches, passes, x, since, k - 1);
      assert passes[0].now <= passes[k - 2].now;
      QueueCarries(p, Rotation(p, |passes[k - 2].ids|), caches[k - 2], passes[k - 2], caches[k - 1], passes[k - 1].ids,
                   x, since);
    }
  }

  /** One pass of the run. */
  lemma PassAt(p: Policy, rotation: nat, caches: seq<Cache>, passes: seq<Pass>, x: Id, since: real, k: nat)
    requires p.budget <= 0 && Passes(p, caches, passes) && 1 <= k <= |passes|
    requires rotation == Rotation(p, |passes[0].ids|) && x in passes[k - 1].ids
    requires since < passes[0].now - Max(1, p.ttl) as real
    requires StillWaiting(caches[k - 1], x, since) && StillWaiting(caches[k], x, since)
    ensures |Queue(caches[k], passes[k - 1].ids, x, since)|
            <= |Queue(caches[k - 1], passes[k - 1].ids, x, since)| - rotation
  {
    var pass := passes[k - 1];
    RotationGrows(p, |passes[0].ids|, |pass.ids|);
    assert passes[0].now <= pass.now;
    PassServes(p, Rotation(p, |pass.ids|), caches[k - 1], pass, caches[k], x, since);
  }

  lemma WholeQueue(cache: Cache, ids: seq<Id>, x: Id, since: real)
    requires NoDuplicates(ids)
    ensures |Queue(cache, ids, x, since)| <= |ids|
  {
    DistinctSize(ids);
    SubsetSize(Queue(cache, ids, x, since), set id | id in ids);
  }

  /** The queue a pass starts with is no longer than the one the pass before left. */
  lemma QueueCarries(p: Policy, share: nat, before: Cache, pass: Pass, after: Cache, ids: seq<Id>, x: Id, since: real)
    requires PassStep(p, share, before, pass, after) && since < pass.now
    ensures |Queue(after, ids, x, since)| <= |Queue(after, pass.ids, x, since)|
  {
    QueueShrinks(p, share, before, pass, after, ids, x, since);
    SubsetSize(Queue(after, ids, x, since), Queue(after, pass.ids, x, since));
  }

  predicate RenewedSince(cache: Cache, x: Id, start: real) {
    x in cache && cache[x] >= start
  }

  /** A row of the inventory either waits as it was, through all passes so far, or
      carries a time of one of these passes. */
  lemma {:induction false} WaitsOrRenewed(p: Policy, caches: seq<Cache>, passes: seq<Pass>, x: Id, since: real, k: nat)
    requires Passes(p, caches, passes) && passes != [] && k <= |passes| && since < passes[0].now
    requires forall i | 0 <= i < |passes| :: x in passes[i].ids
    requires StillWaiting(caches[0], x, since)
    ensures if StillWaiting(caches[k], x, since) then forall i | 0 <= i <= k :: StillWaiting(caches[i], x, since)
            else RenewedSince(caches[k], x, passes[0].now)
  {
    if k > 0 {
      WaitsOrRenewed(p, caches, passes, x, since, k - 1);
      assert passes[0].now <= passes[k - 1].now;
      assert PassStep(p, Rotation(p, |passes[k - 1].ids|), caches[k - 1], passes[k - 1], caches[k]);
    }
  }

  /** Rotation: with auto-sizing, no failures, a non-shrinking inventory and room
      under the ceiling, a row that is stale at the first pass carries a time of these
      passes from the end of pass number ceil(ttl / slow_interval) on, new devices or
      not. */
  lemma StaleRowRefreshed(p: Policy, caches: seq<Cache>, passes: seq<Pass>, x: Id, since: real, k: nat)
    requires p.budget <= 0 && p.ttl >= 1 && p.interval >= 1 && passes != []
    requires Passes(p, caches, passes) && CeilDiv(p.ttl, p.interval) <= k <= |passes|
    requires forall i | 0 <= i < |passes| :: x in passes[i].ids
    requires StillWaiting(caches[0], x, since) && since < passes[0].now - p.ttl as real
    ensures RenewedSince(caches[k], x, passes[0].now)
  {
    var rotation, cycles := Rotation(p, |passes[0].ids|), CeilDiv(p.ttl, p.interval);
    CeilDivBounds(p.ttl, p.interval);
    RotationCovers(|passes[0].ids|, p.interval, p.ttl);
    WaitsOrRenewed(p, caches, passes, x, since, k);
    if StillWaiting(caches[k], x, since) {
      StaysInQueue(caches[cycles], passes[cycles - 1].ids, x, since);
      QueueRunsDown(p, rotation, caches, passes, x, since, cycles);
    }
  }

  /** Each pass of an auto-sized run does rotate that much: the slice is computed
      from an inventory at least as large as the first. */
  lemma RotationGrows(p: Policy, first: nat, inventory: nat)
    requires first <= inventory
    ensures Rotation(p, first) <= Rotation(p, inventory)
  {
    var i, t := Max(1, p.interval), Max(1, p.ttl);
    assert first * i <= inventory * i;
    DivGrows(first * i + t - 1, inventory * i + t - 1, t);
  }

  lemma DivGrows(a: nat, b: nat, d: nat)
    requires a <= b && d > 0
    ensures a / d <= b / d
  {
    if a / d > b / d {
      Cancel(b / d, a / d - 1, d);
    }
  }
}
