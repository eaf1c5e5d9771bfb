/** The winner rule and the merged record of two concurrent versions. */
module Conflict {
  import opened Prelude
  import opened Versions
  import opened Paths
  import opened Entries

  datatype Side = First | Second {
    function Other(): Side { if this == First then Second else First }
  }

  datatype Winner = Winner(side: Side, fallback: bool)

  function KindRank(k: Kind): nat {
    match k case File => 0 case Dir => 1 case Symlink => 2
  }

  /** The first rules, in order: larger stamp, live over tombstone, content change over
      touch, larger mtime, larger author. */
  function ByRules(a: Entry, b: Entry): Ordering {
    Cmp(a.stamp, b.stamp)
    .Then(CmpBool(b.deleted, a.deleted))
    .Then(CmpBool(b.MetadataOnly(), a.MetadataOnly()))
    .Then(Cmp(a.mtime, b.mtime))
    .Then(Cmp(a.modifiedBy, b.modifiedBy))
  }

  /** Every remaining content field, only to make the rule total. */
  function TotalFallback(a: Entry, b: Entry): Ordering {
    Cmp(a.hash, b.hash)
    .Then(Cmp(KindRank(a.kind), KindRank(b.kind)))
    .Then(CmpBool(a.exec, b.exec))
    .Then(Cmp(a.size, b.size))
    .Then(Cmp(a.prevHash, b.prevHash))
    .Then(CmpText(a.authorHost, b.authorHost))
  }

  function PickWinner(a: Entry, b: Entry): Winner {
    match ByRules(a, b)
    case Greater => Winner(First, false)
    case Less => Winner(Second, false)
    case Tie => Winner(if TotalFallback(a, b) == Less then Second else First, true)
  }

  /** `w`'s content fields under the pointwise maximum of both vectors. */
  function Merged(w: Entry, l: Entry): Entry {
    w.(version := Merge(w.version, l.version))
  }

  datatype Resolution = Resolution(winner: Side, merged: Entry, fallback: bool)

  function Resolve(incoming: Entry, local: Entry): Resolution {
    var w := PickWinner(incoming, local);
    Resolution(w.side,
               if w.side == First then Merged(incoming, local) else Merged(local, incoming),
               w.fallback)
  }

  /** `a` is at least `b` in the winner order: it wins, or ties, against `b`. */
  predicate AtLeast(a: Entry, b: Entry) {
    PickWinner(a, b).side == First
  }

  lemma AtLeastTotal(a: Entry, b: Entry)
    ensures AtLeast(a, b) || AtLeast(b, a)
    ensures AtLeast(a, a)
  {
    CmpTextTie(a.authorHost, b.authorHost);
    CmpTextTie(a.authorHost, a.authorHost);
  }

  /** What the rules promise, each only where those before it tie: the larger stamp wins; a live
      entry beats a tombstone; a change of content beats one of metadata alone; the later mtime
      wins; and then the larger author. So a tombstone beats a live entry only by a larger stamp. */
  lemma RulesPromise(a: Entry, b: Entry)
    ensures var w := PickWinner(a, b);
            && (a.stamp > b.stamp ==> w == Winner(First, false))
            && (a.stamp == b.stamp && !a.deleted && b.deleted ==> w == Winner(First, false))
            && (a.stamp == b.stamp && a.deleted == b.deleted ==>
                  && (a.hash != a.prevHash && b.hash == b.prevHash ==> w == Winner(First, false))
                  && ((a.hash == a.prevHash <==> b.hash == b.prevHash) ==>
                        && (a.mtime > b.mtime ==> w == Winner(First, false))
                        && (a.mtime == b.mtime && a.modifiedBy > b.modifiedBy ==> w == Winner(First, false))
                        && (a.mtime == b.mtime && a.modifiedBy == b.modifiedBy ==> w.fallback)))
    ensures PickWinner(a, b) == Winner(First, false) <==> PickWinner(b, a) == Winner(Second, false)
    ensures PickWinner(a, b).side == First && a.deleted && !b.deleted ==> a.stamp > b.stamp
  {
  }

  /** Where the rules tie, the larger hash decides, then a symlink over a directory over a file,
      then the exec bit, the larger size and the larger former hash, and last the author's host;
      and the count says so. */
  lemma FallbackPromises(a: Entry, b: Entry)
    requires ByRules(a, b) == Tie
    ensures var w := PickWinner(a, b);
            && w.fallback
            && (a.hash != b.hash ==> w.side == if a.hash > b.hash then First else Second)
            && (a.hash == b.hash ==>
                  && (a.kind == File && b.kind == Dir ==> w.side == Second)
                  && (a.kind == Dir && b.kind == Symlink ==> w.side == Second)
                  && (a.kind == File && b.kind == Symlink ==> w.side == Second)
                  && (a.kind == b.kind ==>
                        && (a.exec && !b.exec ==> w.side == First)
                        && (a.exec == b.exec ==>
                              && (a.size > b.size ==> w.side == First)
                              && (a.size == b.size && a.prevHash > b.prevHash ==> w.side == First)
                              && (a.size == b.size && a.prevHash == b.prevHash ==>
                                    (w.side == Second <==> CmpText(a.authorHost, b.authorHost) == Less)))))
  {
  }

  /** A tie in the winner order is equality of every content field. */
  lemma AtLeastAntisymmetric(a: Entry, b: Entry)
    requires AtLeast(a, b) && AtLeast(b, a) && a.path == b.path
    ensures SameFields(a, b)
  {
    CmpTextTie(a.authorHost, b.authorHost);
    assert a.deleted == b.deleted && a.exec == b.exec && a.kind == b.kind;
  }

  lemma AtLeastTransitive(a: Entry, b: Entry, c: Entry)
    requires AtLeast(a, b) && AtLeast(b, c)
    ensures AtLeast(a, c)
  {
    if ByRules(a, b) == Tie && ByRules(b, c) == Tie {
      FallbackTransitive(a, b, c);
    }
  }

  lemma FallbackTransitive(a: Entry, b: Entry, c: Entry)
    requires TotalFallback(a, b) != Less && TotalFallback(b, c) != Less
    ensures TotalFallback(a, c) != Less
  {
    CmpTextTie(a.authorHost, b.authorHost);
    CmpTextTie(b.authorHost, c.authorHost);
    CmpTextTie(a.authorHost, c.authorHost);
    if CmpText(c.authorHost, b.authorHost) != Greater && CmpText(b.authorHost, a.authorHost) != Greater {
      CmpTextTransitive(c.authorHost, b.authorHost, a.authorHost);
    }
  }

  /** The rule is symmetric: from either side the same record is chosen, the same merge
      results, and the same count of fallbacks is reported. */
  lemma ResolveSymmetric(a: Entry, b: Entry)
    requires a.path == b.path
    ensures Resolve(a, b).merged == Resolve(b, a).merged
    ensures Resolve(a, b).fallback == Resolve(b, a).fallback
    ensures !SameFields(a, b) ==> Resolve(a, b).winner == Resolve(b, a).winner.Other()
  {
    AtLeastTotal(a, b);
    var m, w := Merge(a.version, b.version), Merge(b.version, a.version);
    assert m == w;
    if AtLeast(a, b) && AtLeast(b, a) {
      AtLeastAntisymmetric(a, b);
    }
  }

  /** The merged record dominates or equals both inputs and carries the greater content. */
  lemma ResolveDominates(a: Entry, b: Entry)
    ensures Leq(a.version, Resolve(a, b).merged.version)
    ensures Leq(b.version, Resolve(a, b).merged.version)
    ensures AtLeast(Resolve(a, b).merged, a) && AtLeast(Resolve(a, b).merged, b)
    ensures SameFields(Resolve(a, b).merged, a) || SameFields(Resolve(a, b).merged, b)
  {
    MergeIsJoin(a.version, b.version, EMPTY);
    MergeIsJoin(b.version, a.version, EMPTY);
    AtLeastTotal(a, b);
    AtLeastTotal(b, a);
  }
}
