/** The lane's aging priority queue: the loop that selects an entry, the fixed key
    that selection always minimises, and freedom from starvation. */
module AgingQueue {
  import opened Util

  const AGING_SECONDS := 900.0

  /** A pending item; `name` is None for the shutdown sentinel. */
  datatype Entry = Entry(priority: int, sequence: nat, name: Option<string>, queuedAt: real)

  /** The selection key computed at `now`: aged priority, then the tie-breaks. */
  datatype Key = Key(effective: real, priority: int, queuedAt: real, sequence: nat)

  function KeyAt(e: Entry, now: real): Key {
    Key(e.priority as real - (now - e.queuedAt) / AGING_SECONDS, e.priority, e.queuedAt, e.sequence)
  }

  predicate KeyLess(a: Key, b: Key) {
    || a.effective < b.effective
    || (a.effective == b.effective &&
        (|| a.priority < b.priority
         || (a.priority == b.priority &&
             (a.queuedAt < b.queuedAt || (a.queuedAt == b.queuedAt && a.sequence < b.sequence)))))
  }

  /** The key that does not depend on the clock: 900 * priority + queued_at. */
  function Fixed(e: Entry): real {
    AGING_SECONDS * e.priority as real + e.queuedAt
  }

  /** `a` goes strictly before `b` in the clock-free order with the same tie-breaks. */
  predicate Before(a: Entry, b: Entry) {
    || Fixed(a) < Fixed(b)
    || (Fixed(a) == Fixed(b) &&
        (|| a.priority < b.priority
         || (a.priority == b.priority &&
             (a.queuedAt < b.queuedAt || (a.queuedAt == b.queuedAt && a.sequence < b.sequence)))))
  }

  /** Aging moves every entry alike: the comparison made at any time is `Before`. */
  lemma AgingIsUniform(a: Entry, b: Entry, now: real)
    ensures KeyLess(KeyAt(a, now), KeyAt(b, now)) <==> Before(a, b)
  {
    assert KeyAt(a, now).effective * AGING_SECONDS == Fixed(a) - now;
    assert KeyAt(b, now).effective * AGING_SECONDS == Fixed(b) - now;
  }

  lemma BeforeIsStrictOrder(a: Entry, b: Entry, c: Entry)
    ensures !(Before(a, b) && Before(b, a))
    ensures Before(a, b) && Before(b, c) ==> Before(a, c)
    ensures !Before(b, a) && !Before(c, b) ==> !Before(c, a)
  {
  }

  /** The index the queue must pop: the first sentinel if there is one, else the
      first entry that no other precedes. */
  ghost predicate IsBest(items: seq<Entry>, best: nat) {
    && best < |items|
    && if exists i :: 0 <= i < |items| && items[i].name == None
       then items[best].name == None && forall i | 0 <= i < best :: items[i].name != None
       else (forall i | 0 <= i < |items| :: !Before(items[i], items[best]))
            && forall i | 0 <= i < best :: Before(items[best], items[i])
  }

  lemma BestIsUnique(items: seq<Entry>, a: nat, b: nat)
    requires IsBest(items, a) && IsBest(items, b)
    ensures a == b
  {
  }

  function Without(items: seq<Entry>, i: nat): seq<Entry>
    requires i < |items|
  {
    items[..i] + items[i + 1..]
  }

  class Queue {
    var items: seq<Entry>
    var unfinishedTasks: nat

    constructor ()
      ensures items == [] && unfinishedTasks == 0
    {
      items, unfinishedTasks := [], 0;
    }

    method Put(priority: int, sequence: nat, name: Option<string>, now: real)
      modifies this
      ensures items == old(items) + [Entry(priority, sequence, name, now)]
      ensures unfinishedTasks == old(unfinishedTasks) + 1
    {
      items := items + [Entry(priority, sequence, name, now)];
      unfinishedTasks := unfinishedTasks + 1;
    }

    /** The selection loop, with the clock read once for the whole scan. */
    method FindBest(now: real) returns (bestIndex: nat)
      requires items != []
      ensures IsBest(items, bestIndex)
    {
      bestIndex := 0;
      var bestKey: Option<Key> := None;
      var index := 0;
      while index < |items|
        invariant index <= |items| && bestIndex < |items|
        invariant forall i | 0 <= i < index :: items[i].name != None
        invariant bestKey == None <==> index == 0
        invariant index > 0 ==> bestIndex < index && bestKey == Some(KeyAt(items[bestIndex], now))
        invariant index > 0 ==> forall i | 0 <= i < index :: !Before(items[i], items[bestIndex])
        invariant index > 0 ==> forall i | 0 <= i < bestIndex :: Before(items[bestIndex], items[i])
      {
        var entry := items[index];
        if entry.name == None {
          return index;
        }
        var key := KeyAt(entry, now);
        if bestKey == None || KeyLess(key, bestKey.value) {
          Displaces(items, bestIndex, index, now);
          bestKey := Some(key);
          bestIndex := index;
        } else {
          AgingIsUniform(entry, items[bestIndex], now);
        }
        index := index + 1;
      }
    }

    /** None when nothing is pending. */
    method GetNowait(now: real) returns (item: Option<Entry>)
      modifies this`items
      ensures old(items) == [] ==> item == None && items == []
      ensures old(items) != [] ==>
                exists best: nat :: IsBest(old(items), best) && item == Some(old(items)[best])
                          && items == Without(old(items), best)
    {
      if items == [] {
        return None;
      }
      var best := FindBest(now);
      item := Some(items[best]);
      items := Without(items, best);
    }

    method TaskDone()
      modifies this`unfinishedTasks
      ensures unfinishedTasks == if old(unfinishedTasks) > 0 then old(unfinishedTasks) - 1 else 0
    {
      unfinishedTasks := Max(0, unfinishedTasks - 1);
    }
  }

  /** Replacing the best so far by an entry with a smaller key keeps it best. */
  lemma Displaces(items: seq<Entry>, best: nat, index: nat, now: real)
    requires index < |items| && (index > 0 ==> best < index)
    requires index > 0 ==> KeyLess(KeyAt(items[index], now), KeyAt(items[best], now))
    requires index > 0 ==> forall i | 0 <= i < index :: !Before(items[i], items[best])
    ensures forall i | 0 <= i < index :: Before(items[index], items[i])
    ensures forall i | 0 <= i <= index :: !Before(items[i], items[index])
  {
    if index > 0 {
      AgingIsUniform(items[index], items[best], now);
      forall i | 0 <= i < index
        ensures Before(items[index], items[i]) && !Before(items[i], items[index])
      {
        BeforeIsStrictOrder(items[best], items[index], items[i]);
        BeforeIsStrictOrder(items[index], items[best], items[i]);
        BeforeIsStrictOrder(items[i], items[index], items[best]);
      }
    }
    BeforeIsStrictOrder(items[index], items[index], items[index]);
  }

  // ---- starvation freedom -----------------------------------------------------

  /** A pending entry is overtaken by nothing queued later than 900 seconds for
      each level of static priority between it and the highest one in use. */
  lemma OvertakerIsOld(items: seq<Entry>, best: nat, e: Entry, lowest: int)
    requires IsBest(items, best) && items[best].name != None && e in items
    requires items[best].priority >= lowest
    ensures items[best].queuedAt <= e.queuedAt + AGING_SECONDS * (e.priority - lowest) as real
  {
    var i :| 0 <= i < |items| && items[i] == e;
    assert !Before(e, items[best]);
    assert Fixed(items[best]) <= Fixed(e);
    assert AGING_SECONDS * items[best].priority as real >= AGING_SECONDS * lowest as real;
  }

  /** The traffic on the queue: a put, or a get that takes the best entry. */
  datatype Op = PutOp(e: Entry) | GetOp

  ghost function BestIndex(items: seq<Entry>): nat
    requires items != []
    ensures IsBest(items, BestIndex(items))
  {
    BestExists(items);
    var best: nat :| IsBest(items, best);
    best
  }

  lemma {:induction false} BestExists(items: seq<Entry>)
    requires items != []
    ensures exists best: nat :: IsBest(items, best)
  {
    var n := |items| - 1;
    if n == 0 {
      BeforeIsStrictOrder(items[0], items[0], items[0]);
      assert IsBest(items, 0);
    } else {
      var init := items[..n];
      BestExists(init);
      var b: nat :| IsBest(init, b);
      if items[b].name == None {
        assert init[b].name == None;
        assert IsBest(items, b);
      } else if items[n].name == None {
        forall i | 0 <= i < n ensures items[i].name != None {
          assert init[i] == items[i];
        }
        assert IsBest(items, n);
      } else {
        forall i | 0 <= i < n ensures items[i].name != None && !Before(items[i], items[b]) {
          assert init[i] == items[i];
        }
        AgingIsUniform(items[n], items[b], 0.0);
        if Before(items[n], items[b]) {
          Displaces(items, b, n, 0.0);
          assert IsBest(items, n);
        } else {
          assert forall i | 0 <= i < b :: init[i] == items[i];
          assert IsBest(items, b);
        }
      }
    }
  }

  ghost function After(items: seq<Entry>, op: Op): seq<Entry> {
    match op
    case PutOp(e) => items + [e]
    case GetOp => if items == [] then items else Without(items, BestIndex(items))
  }

  ghost predicate Traffic(queues: seq<seq<Entry>>, ops: seq<Op>) {
    && |queues| == |ops| + 1
    && forall i | 0 <= i < |ops| :: queues[i + 1] == After(queues[i], ops[i])
  }

  function Gets(ops: seq<Op>): nat {
    if ops == [] then 0 else Gets(ops[..|ops| - 1]) + (if ops[|ops| - 1].GetOp? then 1 else 0)
  }

  /** How many pending entries would go before `e`. */
  function Ahead(items: seq<Entry>, e: Entry): nat {
    if items == [] then 0
    else Ahead(items[..|items| - 1], e) + (if Before(items[|items| - 1], e) then 1 else 0)
  }

  lemma {:induction false} AheadConcat(a: seq<Entry>, b: seq<Entry>, e: Entry)
    ensures Ahead(a + b, e) == Ahead(a, e) + Ahead(b, e)
  {
    if b == [] {
      assert a + b == a;
    } else {
      AheadConcat(a, b[..|b| - 1], e);
      assert (a + b)[..|a + b| - 1] == a + b[..|b| - 1];
    }
  }

  lemma AheadWithout(items: seq<Entry>, i: nat, e: Entry)
    requires i < |items|
    ensures Ahead(items, e) == Ahead(Without(items, i), e) + (if Before(items[i], e) then 1 else 0)
  {
    assert items == items[..i] + [items[i]] + items[i + 1..];
    AheadConcat(items[..i] + [items[i]], items[i + 1..], e);
    AheadConcat(items[..i], [items[i]], e);
    AheadConcat(items[..i], items[i + 1..], e);
    assert [items[i]][..0] == [];
  }

  lemma {:induction false} AheadAtMostOthers(items: seq<Entry>, e: Entry)
    ensures Ahead(items, e) <= |items|
    ensures e in items ==> Ahead(items, e) < |items|
  {
    if items != [] {
      AheadAtMostOthers(items[..|items| - 1], e);
      BeforeIsStrictOrder(e, e, e);
    }
  }

  /** No put from here on can go before `e`, and none is the sentinel. */
  ghost predicate Late(ops: seq<Op>, e: Entry) {
    forall i | 0 <= i < |ops| && ops[i].PutOp? :: ops[i].e.name != None && !Before(ops[i].e, e)
  }

  ghost predicate NoSentinel(items: seq<Entry>) {
    forall i | 0 <= i < |items| :: items[i].name != None
  }

  /** `e` has been taken by one of the gets among the first `n` operations. */
  ghost predicate Served(queues: seq<seq<Entry>>, ops: seq<Op>, e: Entry, n: nat)
    requires |queues| == |ops| + 1 && n <= |ops|
  {
    exists i :: 0 <= i < n && Serves(queues[i], ops[i], e)
  }

  ghost predicate Serves(items: seq<Entry>, op: Op, e: Entry) {
    op.GetOp? && items != [] && items[BestIndex(items)] == e
  }

  /** The sequence numbers of the pending entries are distinct. */
  ghost predicate Distinct(items: seq<Entry>) {
    forall a, b | 0 <= a < b < |items| :: items[a].sequence != items[b].sequence
  }

  lemma GetServesOrAdvances(items: seq<Entry>, e: Entry)
    requires e in items && NoSentinel(items) && !Serves(items, GetOp, e)
    requires Distinct(items)
    ensures var rest := After(items, GetOp); e in rest && NoSentinel(rest) && Ahead(rest, e) == Ahead(items, e) - 1
  {
    var best := BestIndex(items);
    var k :| 0 <= k < |items| && items[k] == e;
    assert k != best;
    AheadWithout(items, best, e);
    assert Before(items[best], e) by {
      assert !Before(e, items[best]);
      assert items[best].sequence != e.sequence;
    }
    var rest := Without(items, best);
    assert rest[if k < best then k else k - 1] == e;
  }

  /** Puts are numbered upwards. */
  ghost predicate Numbered(queues: seq<seq<Entry>>, ops: seq<Op>)
    requires |queues| == |ops| + 1
  {
    forall i | 0 <= i < |ops| && ops[i].PutOp? :: Above(queues[i], ops[i].e.sequence)
  }

  predicate Above(items: seq<Entry>, sequence: nat) {
    forall k | 0 <= k < |items| :: items[k].sequence < sequence
  }

  lemma PutKeepsDistinct(items: seq<Entry>, e: Entry)
    requires Distinct(items) && Above(items, e.sequence)
    ensures Distinct(items + [e])
  {
  }

  lemma GetKeepsDistinct(items: seq<Entry>, i: nat)
    requires Distinct(items) && i < |items|
    ensures Distinct(Without(items, i))
  {
  }

  lemma {:induction false} StaysDistinct(queues: seq<seq<Entry>>, ops: seq<Op>, n: nat)
    requires Traffic(queues, ops) && n <= |ops| && Distinct(queues[0]) && Numbered(queues, ops)
    ensures Distinct(queues[n])
  {
    if n > 0 {
      StaysDistinct(queues, ops, n - 1);
      var before, op := queues[n - 1], ops[n - 1];
      assert queues[n] == After(before, op);
      if op.PutOp? {
        PutKeepsDistinct(before, op.e);
      } else if before != [] {
        GetKeepsDistinct(before, BestIndex(before));
      }
    }
  }

  /** Once nothing newly queued can go before `e`, each further get either serves
      `e` or uses up one entry that was ahead of it. */
  lemma {:induction false} EachGetAdvances(queues: seq<seq<Entry>>, ops: seq<Op>, e: Entry, n: nat)
    requires Traffic(queues, ops) && n <= |ops| && Distinct(queues[0]) && Numbered(queues, ops)
    requires e in queues[0] && NoSentinel(queues[0]) && Late(ops, e)
    ensures Served(queues, ops, e, n)
         || (e in queues[n] && NoSentinel(queues[n]) && Ahead(queues[n], e) + Gets(ops[..n]) == Ahead(queues[0], e))
  {
    if n == 0 {
      assert ops[..0] == [];
    } else {
      EachGetAdvances(queues, ops, e, n - 1);
      StaysDistinct(queues, ops, n - 1);
      assert ops[..n][..n - 1] == ops[..n - 1];
      if !Served(queues, ops, e, n) {
        assert !Served(queues, ops, e, n - 1);
        var before, op := queues[n - 1], ops[n - 1];
        assert queues[n] == After(before, op);
        if op.GetOp? {
          assert !Serves(before, op, e);
          GetServesOrAdvances(before, e);
        } else {
          AheadConcat(before, [op.e], e);
          assert [op.e][..0] == [];
        }
      }
    }
  }

  /** Starvation freedom: let `e` be pending, and let every later put happen more
      than 900 seconds per priority level after it was queued (no sentinel). Then
      `e` is among the gets as soon as there are as many gets as entries pending
      at the start: at most one get per other pending entry comes first. */
  lemma StarvationFree(queues: seq<seq<Entry>>, ops: seq<Op>, e: Entry, lowest: int)
    requires Traffic(queues, ops) && e in queues[0] && NoSentinel(queues[0])
    requires Distinct(queues[0]) && Numbered(queues, ops)
    requires forall i | 0 <= i < |ops| && ops[i].PutOp? ::
               && ops[i].e.name != None && ops[i].e.priority >= lowest
               && ops[i].e.queuedAt > e.queuedAt + AGING_SECONDS * (e.priority - lowest) as real
    requires Gets(ops) >= |queues[0]|
    ensures Served(queues, ops, e, |ops|)
  {
    forall i | 0 <= i < |ops| && ops[i].PutOp? ensures !Before(ops[i].e, e) {
      var late := ops[i].e;
      assert AGING_SECONDS * late.priority as real >= AGING_SECONDS * lowest as real;
      assert Fixed(late) > Fixed(e);
    }
    EachGetAdvances(queues, ops, e, |ops|);
    AheadAtMostOthers(queues[0], e);
    assert ops[..|ops|] == ops;
  }
}
