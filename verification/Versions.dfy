/** Version vectors. A counter of zero is never stored, so vectors are equal exactly when the maps
    are. */
module Versions {
  import opened Prelude

  /** Node ids are opaque and only compared; their byte order is modelled by `nat`. */
  type NodeId = nat

  type Positive = c: int | c > 0 witness 1

  type Version = map<NodeId, Positive>

  const EMPTY: Version := map[]

  datatype Relation = Equal | Dominates | Dominated | Concurrent {
    function Flip(): Relation {
      match this
      case Dominates => Dominated
      case Dominated => Dominates
      case other => other
    }
  }

  function Counter(v: Version, n: NodeId): nat {
    if n in v then v[n] else 0
  }

  /** `a` is at most `b` at every node. */
  predicate Leq(a: Version, b: Version) {
    forall n :: n in a ==> a[n] <= Counter(b, n)
  }

  /** How `a` relates to `b` in the pointwise order. */
  function Compare(a: Version, b: Version): Relation {
    if Leq(a, b) then (if Leq(b, a) then Equal else Dominated)
    else if Leq(b, a) then Dominates
    else Concurrent
  }

  function Merge(a: Version, b: Version): Version {
    map n | n in a.Keys + b.Keys :: if Counter(a, n) < Counter(b, n) then Counter(b, n) else Counter(a, n)
  }

  function Incremented(v: Version, n: NodeId): Version {
    v[n := Counter(v, n) + 1]
  }

  function MergeAll(base: Version, over: seq<Version>): Version
    decreases |over|
  {
    if over == [] then base else MergeAll(Merge(base, over[0]), over[1..])
  }

  /** The comparison as the source makes it: one pass over each vector's keys. */
  method CompareByKeys(a: Version, b: Version) returns (r: Relation)
    ensures r == Compare(a, b)
  {
    var aGreater, bGreater := false, false;
    var todo := a.Keys;
    while todo != {}
      invariant todo <= a.Keys
      invariant aGreater <==> exists n :: n in a.Keys - todo && a[n] > Counter(b, n)
      invariant bGreater <==> exists n :: n in a.Keys - todo && a[n] < Counter(b, n)
      decreases todo
    {
      var n :| n in todo;
      if a[n] > Counter(b, n) {
        aGreater := true;
      } else if a[n] < Counter(b, n) {
        bGreater := true;
      }
      todo := todo - {n};
    }
    todo := b.Keys;
    while todo != {}
      invariant todo <= b.Keys
      invariant bGreater <==>
        (exists n :: n in a && a[n] < Counter(b, n)) || exists n :: n in b.Keys - todo && n !in a
      decreases todo
    {
      var n :| n in todo;
      if n !in a {
        bGreater := true;
      }
      todo := todo - {n};
    }
    assert aGreater <==> !Leq(a, b);
    assert bGreater <==> !Leq(b, a) by {
      if n :| n in b && b[n] > Counter(a, n) {
        assert n in a ==> a[n] < Counter(b, n);
      }
    }
    r := match (aGreater, bGreater)
      case (false, false) => Equal
      case (true, false) => Dominates
      case (false, true) => Dominated
      case (true, true) => Concurrent;
  }

  /** The merge as the source makes it: a copy of `a` raised key by key. */
  method MergeByKeys(a: Version, b: Version) returns (out: Version)
    ensures out == Merge(a, b)
  {
    out := a;
    var todo := b.Keys;
    while todo != {}
      invariant todo <= b.Keys
      invariant out.Keys == a.Keys + (b.Keys - todo)
      invariant forall n :: n in out ==>
        out[n] == if n in b && n !in todo then Max(Counter(a, n), b[n]) else Counter(a, n)
      decreases todo
    {
      var n :| n in todo;
      out := out[n := Max(Counter(out, n), b[n])];
      todo := todo - {n};
    }
  }

  /** The order is antisymmetric: two vectors equal everywhere are one vector. */
  lemma LeqAntisymmetric(a: Version, b: Version)
    requires Leq(a, b) && Leq(b, a)
    ensures a == b
  {
    forall n ensures n in a <==> n in b {
      assert n in a ==> a[n] <= Counter(b, n);
      assert n in b ==> b[n] <= Counter(a, n);
    }
    forall n | n in a ensures a[n] == b[n] {
      assert a[n] <= Counter(b, n) && b[n] <= Counter(a, n);
    }
  }

  /** `Equal` is equality of vectors, and the relation reads the same from the other side. */
  lemma CompareLaws(a: Version, b: Version)
    ensures Compare(a, b) == Equal <==> a == b
    ensures Compare(b, a) == Compare(a, b).Flip()
  {
    if Leq(a, b) && Leq(b, a) {
      LeqAntisymmetric(a, b);
    }
  }

  lemma CounterMerge(a: Version, b: Version, n: NodeId)
    ensures Counter(Merge(a, b), n) == Max(Counter(a, n), Counter(b, n))
  {
  }

  lemma LeqCounter(a: Version, b: Version)
    ensures Leq(a, b) <==> forall n :: Counter(a, n) <= Counter(b, n)
  {
    if forall n :: Counter(a, n) <= Counter(b, n) {
      forall n | n in a ensures a[n] <= Counter(b, n) {
        assert Counter(a, n) <= Counter(b, n);
      }
    }
  }

  lemma LeqTransitive(a: Version, b: Version, c: Version)
    requires Leq(a, b) && Leq(b, c)
    ensures Leq(a, c)
  {
    LeqCounter(a, b);
    LeqCounter(b, c);
    LeqCounter(a, c);
  }

  /** The merge is the least upper bound of its two vectors. */
  lemma MergeIsJoin(a: Version, b: Version, c: Version)
    ensures Leq(a, Merge(a, b)) && Leq(b, Merge(a, b))
    ensures Leq(a, c) && Leq(b, c) ==> Leq(Merge(a, b), c)
  {
    forall n | n in a ensures a[n] <= Counter(Merge(a, b), n) { CounterMerge(a, b, n); }
    forall n | n in b ensures b[n] <= Counter(Merge(a, b), n) { CounterMerge(a, b, n); }
  }

  /** Merging does not depend on the order of its arguments, and a vector absorbs what it covers. */
  lemma MergeLaws(a: Version, b: Version)
    ensures Merge(a, b) == Merge(b, a)
    ensures Leq(a, b) ==> Merge(a, b) == b
    ensures Merge(a, a) == a && Merge(EMPTY, a) == a
  {
    forall n ensures Counter(Merge(a, b), n) == Counter(Merge(b, a), n) {
      CounterMerge(a, b, n);
      CounterMerge(b, a, n);
    }
    if Leq(a, b) {
      MergeIsJoin(a, b, b);
      LeqCounter(b, b);
      LeqAntisymmetric(Merge(a, b), b);
    }
  }

  lemma MergeAssociative(a: Version, b: Version, c: Version)
    ensures Merge(Merge(a, b), c) == Merge(a, Merge(b, c))
  {
    var l, r := Merge(Merge(a, b), c), Merge(a, Merge(b, c));
    forall n ensures Counter(l, n) == Counter(r, n) {
      CounterMerge(Merge(a, b), c, n);
      CounterMerge(a, b, n);
      CounterMerge(a, Merge(b, c), n);
      CounterMerge(b, c, n);
    }
    LeqCounter(l, r);
    LeqCounter(r, l);
    LeqAntisymmetric(l, r);
  }

  /** The local-change rule gives a vector strictly above its input: at least it everywhere,
      and one higher at the changing node alone. */
  lemma IncrementDominates(v: Version, n: NodeId)
    ensures Compare(Incremented(v, n), v) == Dominates
    ensures forall m :: Counter(Incremented(v, n), m) == Counter(v, m) + if m == n then 1 else 0
  {
    var w := Incremented(v, n);
    assert w[n] > Counter(v, n);
  }

  /** Merging a list in order reaches exactly the pointwise maximum of its vectors. */
  lemma {:induction false} CounterMergeAll(base: Version, over: seq<Version>, n: NodeId)
    ensures Counter(base, n) <= Counter(MergeAll(base, over), n)
    ensures forall i :: 0 <= i < |over| ==> Counter(over[i], n) <= Counter(MergeAll(base, over), n)
    ensures Counter(MergeAll(base, over), n) == Counter(base, n)
            || exists i :: 0 <= i < |over| && Counter(MergeAll(base, over), n) == Counter(over[i], n)
    decreases |over|
  {
    if over != [] {
      var next := Merge(base, over[0]);
      CounterMerge(base, over[0], n);
      CounterMergeAll(next, over[1..], n);
      forall i | 0 <= i < |over|
        ensures Counter(over[i], n) <= Counter(MergeAll(base, over), n)
      {
        if i > 0 { assert over[i] == over[1..][i - 1]; }
      }
      var r := Counter(MergeAll(base, over), n);
      if r != Counter(next, n) {
        var i :| 0 <= i < |over[1..]| && r == Counter(over[1..][i], n);
        assert over[i + 1] == over[1..][i];
      } else if r != Counter(base, n) {
        assert r == Counter(over[0], n);
      }
    }
  }
}
