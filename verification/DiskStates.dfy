/** What a commit keeps on disk: everything outside the host's own temps stays, unchanged, where
    it was or where the commit moved it. */
module DiskStates {
  import opened Prelude
  import opened Paths
  import opened Disks

  predicate Related(a: Path, b: Path) {
    a <= b || b <= a
  }

  lemma Comparable(a: Path, b: Path, r: Path)
    requires a <= b + r
    ensures Related(a, b)
  {
    assert |b| <= |a| ==> (b + r)[..|b|] == b && a[..|b|] == b;
    assert |a| <= |b| ==> (b + r)[..|a|] == b[..|a|];
  }

  /** Everything that was in `was`, but for temps and what is at and under `root`, is still so. */
  ghost predicate Others(was: Nodes, n: Nodes, root: Path) {
    forall q :: q in was && !(TMP <= q) && !(root <= q) ==> Get(n, q) == Get(was, q)
  }

  /** `from` is above nothing that `Others` speaks of. */
  ghost predicate NotAbove(was: Nodes, root: Path, from: Path) {
    forall q :: q in was && !(TMP <= q) && !(root <= q) ==> !(from <= q)
  }

  lemma RootNotAbove(was: Nodes, root: Path)
    ensures NotAbove(was, root, root)
  {
  }

  lemma PrefixTransitive(a: Path, b: Path, c: Path)
    requires a <= b && b <= c
    ensures a <= c
  {
    assert c[..|a|] == b[..|a|];
  }

  lemma TempNotAbove(was: Nodes, root: Path, temp: Path)
    requires TMP <= temp
    ensures NotAbove(was, root, temp)
  {
    forall q | q in was && temp <= q ensures TMP <= q {
      PrefixTransitive(TMP, temp, q);
    }
  }

  lemma AbsentNotAbove(was: Nodes, root: Path, p: Path)
    requires Tree(was) && p !in was
    ensures NotAbove(was, root, p)
  {
    forall q | q in was && p <= q ensures false {
      NothingUnder(was, p, q);
    }
  }

  lemma MoveOthers(was: Nodes, n: Nodes, root: Path, from: Path, to: Path)
    requires Others(was, n, root) && Tree(n) && MayMove(n, from, to) && NotAbove(was, root, from)
    ensures Others(was, Moved(n, from, to), root)
  {
    hide Moved;
    forall q | q in was && !(TMP <= q) && !(root <= q) ensures Get(Moved(n, from, to), q) == Get(was, q) {
      assert Get(n, q) == Get(was, q) && q in n;
      if to <= q { NothingUnder(n, to, q); }
      MovedElsewhere(n, from, to, q);
    }
  }

  lemma MoveSame(was: Nodes, root: Path, n: Nodes, at: Path, from: Path, to: Path)
    requires SameTree(was, root, n, at) && Tree(n) && MayMove(n, from, to)
    requires !Related(from, at) && !Related(to, at)
    ensures SameTree(was, root, Moved(n, from, to), at)
  {
    hide Moved;
    forall r ensures Below(was, root, r) == Below(Moved(n, from, to), at, r) {
      if from <= at + r { Comparable(from, at, r); }
      if to <= at + r { Comparable(to, at, r); }
      MovedElsewhere(n, from, to, at + r);
      assert Below(was, root, r) == Below(n, at, r);
    }
  }

  lemma MoveItself(was: Nodes, root: Path, n: Nodes, from: Path, to: Path)
    requires SameTree(was, root, n, from) && Tree(n) && MayMove(n, from, to)
    ensures SameTree(was, root, Moved(n, from, to), to)
  {
    hide Moved;
    forall r ensures Below(was, root, r) == Below(Moved(n, from, to), to, r) {
      MovedThere(n, from, to, r);
      assert Below(was, root, r) == Below(n, from, r);
    }
  }

  /** One node made, changed or removed, that `was` did not have outside temps. */
  lemma TouchOthers(was: Nodes, n: Nodes, m: Nodes, root: Path, p: Path)
    requires Others(was, n, root)
    requires forall q :: q != p ==> Get(m, q) == Get(n, q)
    requires p !in was || TMP <= p || root <= p
    ensures Others(was, m, root)
  {
  }

  lemma TouchSame(was: Nodes, root: Path, n: Nodes, m: Nodes, at: Path, p: Path)
    requires SameTree(was, root, n, at)
    requires forall q :: q != p ==> Get(m, q) == Get(n, q)
    requires !(at <= p)
    ensures SameTree(was, root, m, at)
  {
    forall r ensures Below(was, root, r) == Below(m, at, r) {
      assert at <= at + r;
      assert Below(was, root, r) == Below(n, at, r);
    }
  }

  lemma SameRoot(was: Nodes, root: Path, n: Nodes, at: Path)
    requires SameTree(was, root, n, at)
    ensures Get(was, root) == Get(n, at)
  {
    assert root + [] == root && at + [] == at;
    assert Below(was, root, []) == Below(n, at, []);
  }

  lemma SameRefl(n: Nodes, p: Path)
    ensures SameTree(n, p, n, p)
  {
  }
}
