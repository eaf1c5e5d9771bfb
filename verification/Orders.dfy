/** Finite sets put in order. */
module Orders {
  /** `le` is a total order. */
  ghost predicate Total<T(!new)>(le: (T, T) -> bool) {
    && (forall a, b :: le(a, b) || le(b, a))
    && (forall a, b :: le(a, b) && le(b, a) ==> a == b)
    && (forall a, b, c :: le(a, b) && le(b, c) ==> le(a, c))
  }

  predicate IsLeast<T>(xs: set<T>, le: (T, T) -> bool, r: T) {
    r in xs && forall x :: x in xs ==> le(r, x)
  }

  lemma {:induction false} LeastExists<T(!new)>(xs: set<T>, le: (T, T) -> bool)
    requires xs != {} && Total(le)
    ensures exists r :: r in xs && IsLeast(xs, le, r)
  {
    var r :| r in xs;
    if xs == {r} {
      assert IsLeast(xs, le, r);
    } else {
      LeastExists(xs - {r}, le);
      var m :| m in xs - {r} && IsLeast(xs - {r}, le, m);
      assert forall x :: x in xs ==> x == r || x in xs - {r};
      assert IsLeast(xs, le, if le(r, m) then r else m);
    }
  }

  function Least<T(!new)>(xs: set<T>, le: (T, T) -> bool): (r: T)
    requires xs != {} && Total(le)
    ensures IsLeast(xs, le, r)
  {
    LeastExists(xs, le);
    var r :| r in xs && IsLeast(xs, le, r);
    r
  }

  /** The elements of a set in order. */
  function Sort<T(!new)>(xs: set<T>, le: (T, T) -> bool): seq<T>
    requires Total(le)
  {
    if xs == {} then [] else
      var m := Least(xs, le);
      [m] + Sort(xs - {m}, le)
  }

  lemma {:induction false} SortElements<T(!new)>(xs: set<T>, le: (T, T) -> bool)
    requires Total(le)
    ensures forall x :: x in Sort(xs, le) <==> x in xs
    ensures forall i, j :: 0 <= i < j < |Sort(xs, le)| ==>
              Sort(xs, le)[i] != Sort(xs, le)[j] && le(Sort(xs, le)[i], Sort(xs, le)[j])
  {
    if xs != {} {
      var m := Least(xs, le);
      SortElements(xs - {m}, le);
      var rest := Sort(xs - {m}, le);
      assert Sort(xs, le) == [m] + rest;
      assert forall j :: 0 <= j < |rest| ==> rest[j] in xs - {m};
    }
  }
}
