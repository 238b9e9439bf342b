/** Small shared vocabulary: optional values, least and greatest members of
    finite integer sets, and cardinality facts used by several protocols. */
module Util {

  datatype Option<+T> = None | Some(value: T)

  function Max(a: int, b: int): int { if a < b then b else a }

  function Min(a: int, b: int): int { if a < b then a else b }

  function RealMax(a: real, b: real): real { if a < b then b else a }

  function RealMin(a: real, b: real): real { if a < b then a else b }

  /** The integer quotient rounded up, as math.ceil(a / b) for positive b. */
  function CeilDiv(a: nat, b: nat): nat
    requires b > 0
  {
    (a + b - 1) / b
  }

  /** The entries of a map whose keys are in `keys`. */
  function Keep<K, V>(m: map<K, V>, keys: set<K>): (kept: map<K, V>)
    ensures kept.Keys == m.Keys * keys
    ensures forall k | k in kept :: kept[k] == m[k]
  {
    m - (m.Keys - keys)
  }

  lemma Member<T>(s: set<T>) returns (x: T)
    requires s != {}
    ensures x in s
  {
    x :| x in s;
  }

  lemma LeastExists(s: set<int>)
    requires s != {}
    ensures exists x :: x in s && forall y | y in s :: x <= y
  {
    var x := Member(s);
    if s != {x} {
      var rest := s - {x};
      LeastExists(rest);
      var m :| m in rest && forall y | y in rest :: m <= y;
      var least := if x < m then x else m;
      assert forall y | y in s :: y == x || y in rest;
      assert least in s && forall y | y in s :: least <= y;
    }
  }

  ghost function Least(s: set<int>): (m: int)
    requires s != {}
    ensures m in s && forall y | y in s :: m <= y
  {
    LeastExists(s);
    var x :| x in s && forall y | y in s :: x <= y;
    x
  }

  lemma GreatestExists(s: set<int>)
    requires s != {}
    ensures exists x :: x in s && forall y | y in s :: y <= x
  {
    var x := Member(s);
    if s != {x} {
      var rest := s - {x};
      GreatestExists(rest);
      var m :| m in rest && forall y | y in rest :: y <= m;
      var greatest := if x < m then m else x;
      assert forall y | y in s :: y == x || y in rest;
      assert greatest in s && forall y | y in s :: y <= greatest;
    }
  }

  ghost function Greatest(s: set<int>): (m: int)
    requires s != {}
    ensures m in s && forall y | y in s :: y <= m
  {
    GreatestExists(s);
    var x :| x in s && forall y | y in s :: y <= x;
    x
  }

  lemma SubsetSize<T>(a: set<T>, b: set<T>)
    requires a <= b
    ensures |a| <= |b|
  {
    assert b == a + (b - a);
  }

  lemma DisjointUnionSize<T>(a: set<T>, b: set<T>)
    requires a !! b
    ensures |a + b| == |a| + |b|
  {
  }
}
