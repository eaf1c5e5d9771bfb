/** The states a write may be caught in: the old entry in place, aside behind a journal row, or
    the new one in. */
module CommitStates {
  import opened Prelude
  import opened Paths
  import opened Entries
  import opened Disks
  import opened DiskStates
  import opened Trash

  /** Where a commit sends the entry it finds in its way. */
  datatype Displace = ToTrash | ToCopy(to: Path)

  /** One commit: the disk as it began, the journal key, the path's place on disk, and where
      what it displaces goes. `spare` are the temps it may make. */
  datatype Job = Job(was: Nodes, key: RelPath, disk: Path, target: Path, displace: Displace, spare: set<Path>)

  /** What the index promises of a commit's paths: none is the folder's own. */
  ghost predicate JobOk(j: Job) {
    && Tree(j.was) && j.disk != [] && j.target != []
    && j.disk[0] != ".delocal" && j.target[0] != ".delocal" && Up(j.target) == Up(j.disk)
    && (j.displace.ToCopy? ==> j.displace.to != [] && j.displace.to[0] != ".delocal"
                               && Up(j.displace.to) == Up(j.disk) && j.displace.to != j.target
                               && j.displace.to != j.disk)
    && (forall p :: p in j.spare ==> TMP <= p)
  }

  predicate IsPlace(j: Job, place: Path) {
    match j.displace
    case ToTrash => TRASH <= place
    case ToCopy(to) => place == to
  }

  /** Everything there before is there still: at its path, or moved to a place where nothing was. */
  ghost predicate Kept(j: Job, n: Nodes) {
    && Others(j.was, n, j.disk)
    && (j.disk in j.was ==>
          exists place :: SameTree(j.was, j.disk, n, place)
                          && (place == j.disk || (IsPlace(j, place) && place !in j.was)))
  }

  /** What the host may make for itself: a temp, or a directory in the trash or above the path. */
  predicate HostsOwn(j: Job, q: Path, node: Node) {
    TMP <= q || (node == DIR && (TRASH <= q || (q <= j.disk && q != j.disk)))
  }

  /** Nothing is new but the host's own, and what is at and under `roots`. */
  ghost predicate NewOnly(j: Job, n: Nodes, roots: set<Path>) {
    forall q :: q in n && q !in j.was ==> HostsOwn(j, q, n[q]) || Under(roots, q)
  }

  ghost predicate Under(roots: set<Path>, q: Path) {
    exists r :: r in roots && r <= q
  }

  /** Exactly `node`, with nothing under it. */
  ghost predicate Holds(n: Nodes, p: Path, node: Node) {
    Get(n, p) == Some(node) && forall r :: r != [] ==> Below(n, p, r).None?
  }

  /** The path's row, if it has one, would move nothing: the path is taken, or the row's temp is
      gone and stays gone. */
  predicate Harmless(j: Job, h: Snapshot) {
    j.key in h.rows ==>
      j.disk in h.nodes || (TMP <= h.rows[j.key].temp && h.rows[j.key].temp !in h.nodes
                            && h.rows[j.key].temp !in j.spare)
  }

  /** A target that is another name than the path's on disk holds what it held. */
  predicate TargetAsWas(j: Job, n: Nodes) {
    j.target != j.disk ==> Get(n, j.target) == Get(j.was, j.target)
  }

  /** What was at the path is there, exactly, and nothing came in. */
  ghost predicate InPlaceAt(j: Job, h: Snapshot) {
    SameTree(j.was, j.disk, h.nodes, j.disk) && TargetAsWas(j, h.nodes) && Harmless(j, h)
  }

  /** What was at the path is aside at `place`, behind a row that says so and names a temp that
      is still there. */
  ghost predicate AsideAt(j: Job, h: Snapshot, place: Path, temp: Path) {
    && SameTree(j.was, j.disk, h.nodes, place) && TargetAsWas(j, h.nodes)
    && j.disk in j.was && j.disk !in h.nodes && j.disk != [] && DirAt(h.nodes, Up(j.disk))
    && IsPlace(j, place) && place !in j.was
    && j.key in h.rows && h.rows[j.key] == Row(place, temp) && temp in h.nodes && temp in j.spare
  }

  /** What was at the path is aside, where its row says if it still has one. */
  ghost predicate PutAside(j: Job, h: Snapshot, place: Path) {
    SameTree(j.was, j.disk, h.nodes, place) && IsPlace(j, place) && place !in j.was
    && (j.key in h.rows ==> h.rows[j.key].displacedTo == place)
  }

  /** What the commit brings is at the target, the path's other name on disk is free, and a row
      left there names a temp that is gone. */
  ghost predicate LandedAt(j: Job, h: Snapshot, node: Node) {
    && Holds(h.nodes, j.target, node) && (j.target != j.disk ==> j.disk !in h.nodes && j.target !in j.was)
    && (j.disk in j.was ==> exists place :: PutAside(j, h, place))
    && (j.key in h.rows ==> h.rows[j.key].temp !in h.nodes)
    && (j.key in h.rows && h.rows[j.key].temp in j.spare ==> j.disk in j.was)
  }

  // The same with all the rest of the disk: everything else is as it was, and nothing is new but
  // what the host makes for itself.

  ghost predicate Before(j: Job, h: Snapshot) {
    Tree(h.nodes) && Others(j.was, h.nodes, j.disk) && NewOnly(j, h.nodes, {}) && InPlaceAt(j, h)
  }

  ghost predicate Aside(j: Job, h: Snapshot, place: Path, temp: Path) {
    Tree(h.nodes) && Others(j.was, h.nodes, j.disk) && NewOnly(j, h.nodes, {place}) && AsideAt(j, h, place, temp)
  }

  ghost predicate Landed(j: Job, h: Snapshot, node: Node) {
    Tree(h.nodes) && Others(j.was, h.nodes, j.disk) && LandedNew(j, h) && LandedAt(j, h, node)
  }

  ghost predicate LandedNew(j: Job, h: Snapshot) {
    if j.disk in j.was then exists place :: PutAside(j, h, place) && NewOnly(j, h.nodes, {place, j.target})
    else NewOnly(j, h.nodes, {j.target})
  }

  lemma LandedKept(j: Job, h: Snapshot, node: Node)
    requires Landed(j, h, node)
    ensures Kept(j, h.nodes)
  {
    hide Others, SameTree, Tree, Holds;
    if j.disk in j.was {
      var place :| PutAside(j, h, place);
    }
  }

  /** At every moment: the old entry exactly, the new one, or aside behind its row. */
  ghost predicate Safe(j: Job, h: Snapshot, node: Node) {
    Before(j, h) || Landed(j, h, node) || exists place, temp :: Aside(j, h, place, temp)
  }

  /** What holds at every moment of a write, whatever the filesystem answers; safety needs its
      renames to report `Exists` truly. */
  ghost function Always(j: Job, node: Node, honest: bool): Snapshot -> bool {
    (h: Snapshot) => Kept(j, h.nodes) && (honest ==> Safe(j, h, node))
  }

  lemma BeforeKept(j: Job, h: Snapshot)
    requires Before(j, h)
    ensures Kept(j, h.nodes)
  {
    hide Others, SameTree, Tree;
  }

  lemma BeforeAlways(j: Job, h: Snapshot, node: Node, honest: bool)
    requires Before(j, h)
    ensures Always(j, node, honest)(h)
  {
    hide Before, Kept, Landed, Aside;
    BeforeKept(j, h);
  }

  lemma AsideKept(j: Job, h: Snapshot, place: Path, temp: Path)
    requires Aside(j, h, place, temp)
    ensures Kept(j, h.nodes)
  {
    hide Others, SameTree, Tree;
  }

  lemma AsideAlways(j: Job, h: Snapshot, place: Path, temp: Path, node: Node, honest: bool)
    requires Aside(j, h, place, temp)
    ensures Always(j, node, honest)(h)
  {
    hide Before, Kept, Landed, Aside;
    AsideKept(j, h, place, temp);
  }

  lemma LandedAlways(j: Job, h: Snapshot, node: Node, honest: bool)
    requires Landed(j, h, node)
    ensures Always(j, node, honest)(h)
  {
    hide Before, Aside, Landed, Kept;
    LandedKept(j, h, node);
  }

  // Steps among temps, and directories made for the path.

  /** `m` differs from `n` at most at `p`. */
  ghost predicate Touched(n: Nodes, m: Nodes, p: Path) {
    forall q :: q != p ==> Get(m, q) == Get(n, q)
  }

  lemma DiskNotTemp(j: Job, p: Path)
    requires JobOk(j)
    ensures TMP <= p || TRASH <= p ==> !(j.disk <= p) && !(p <= j.disk) && p != Up(j.disk)
  {
    if TMP <= p || TRASH <= p {
      assert p[0] == ".delocal";
    }
  }

  lemma TouchNew(j: Job, n: Nodes, m: Nodes, p: Path, roots: set<Path>)
    requires NewOnly(j, n, roots) && Touched(n, m, p)
    requires p in m ==> HostsOwn(j, p, m[p])
    ensures NewOnly(j, m, roots)
  {
    forall q | q in m && q !in j.was ensures HostsOwn(j, q, m[q]) || Under(roots, q) {
      if q != p { assert Get(m, q) == Get(n, q); }
    }
  }

  /** A rename brings what is new to `to`, and nothing else. */
  lemma MoveNew(j: Job, n: Nodes, from: Path, to: Path, roots: set<Path>, wider: set<Path>)
    requires NewOnly(j, n, roots) && Tree(n) && MayMove(n, from, to) && roots <= wider && to in wider
    ensures NewOnly(j, Moved(n, from, to), wider)
  {
    hide Moved, Tree;
    var m := Moved(n, from, to);
    forall q | q in m && q !in j.was ensures HostsOwn(j, q, m[q]) || Under(wider, q) {
      if !(to <= q) {
        if from <= q { MovedAway(n, from, to, q); }
        MovedElsewhere(n, from, to, q);
      }
    }
  }

  lemma TempBefore(j: Job, h: Snapshot, m: Nodes, p: Path)
    requires JobOk(j) && Before(j, h) && Tree(m) && Touched(h.nodes, m, p)
    requires p in j.spare || p == TMP
    requires j.key in h.rows && j.disk !in h.nodes ==> h.rows[j.key].temp != TMP
    ensures Before(j, Snapshot(m, h.rows))
  {
    hide Others, SameTree, Tree;
    DiskNotTemp(j, p);
    assert TMP <= p && p[0] == ".delocal";
    TouchKeeps(j, h, m, p);
    TouchNew(j, h.nodes, m, p, {});
    if j.key in h.rows && j.disk !in h.nodes {
      assert Get(m, h.rows[j.key].temp) == Get(h.nodes, h.rows[j.key].temp);
    }
  }

  lemma TouchKeeps(j: Job, h: Snapshot, m: Nodes, p: Path)
    requires Others(j.was, h.nodes, j.disk) && SameTree(j.was, j.disk, h.nodes, j.disk) && Touched(h.nodes, m, p)
    requires !(j.disk <= p) && (TMP <= p || p !in j.was)
    ensures Others(j.was, m, j.disk) && SameTree(j.was, j.disk, m, j.disk)
    ensures j.disk in m <==> j.disk in h.nodes
    ensures p != j.target && TargetAsWas(j, h.nodes) ==> TargetAsWas(j, m)
  {
    TouchOthers(j.was, h.nodes, m, j.disk, p);
    TouchSame(j.was, j.disk, h.nodes, m, j.disk, p);
    assert Get(m, j.disk) == Get(h.nodes, j.disk);
  }

  /** A directory above the path, or in the trash, that was not there, made or removed again. */
  lemma NewDirBefore(j: Job, h: Snapshot, m: Nodes, p: Path)
    requires JobOk(j) && Before(j, h) && Tree(m) && Touched(h.nodes, m, p)
    requires p !in j.was && !(j.disk <= p) && !(TMP <= p)
    requires p != j.target && (p in m ==> HostsOwn(j, p, m[p]))
    ensures Before(j, Snapshot(m, h.rows))
  {
    hide Others, SameTree, Tree, NewOnly;
    TouchKeeps(j, h, m, p);
    TouchNew(j, h.nodes, m, p, {});
    if j.key in h.rows && j.disk !in h.nodes {
      assert Get(m, h.rows[j.key].temp) == Get(h.nodes, h.rows[j.key].temp);
    }
  }

  lemma FreeNotInWas(j: Job, h: Snapshot, p: Path)
    requires JobOk(j) && Before(j, h) && p !in h.nodes && !(TMP <= p) && !(j.disk <= p)
    ensures p !in j.was
  {
  }

  // The displacement, the rename in, and putting back.

  lemma DisplacedAside(j: Job, h: Snapshot, place: Path, temp: Path)
    requires JobOk(j) && Before(j, h) && j.disk in j.was && IsPlace(j, place)
    requires MayMove(h.nodes, j.disk, place)
    requires j.key in h.rows && h.rows[j.key] == Row(place, temp) && temp in h.nodes && temp in j.spare
    ensures Aside(j, Snapshot(Moved(h.nodes, j.disk, place), h.rows), place, temp)
  {
    hide Others, SameTree, Tree, Moved;
    var n, m := h.nodes, Moved(h.nodes, j.disk, place);
    PlaceElsewhere(j, place);
    RootNotAbove(j.was, j.disk);
    MoveNew(j, n, j.disk, place, {}, {place});
    MoveOthers(j.was, n, j.disk, j.disk, place);
    MoveItself(j.was, j.disk, n, j.disk, place);
    MovedTree(n, j.disk, place);
    MovedAway(n, j.disk, place, j.disk);
    FreeNotInWas(j, h, place);
    DiskNotTemp(j, temp);
    TempElsewhere(j, place, temp);
    MovedElsewhere(n, j.disk, place, temp);
    UpStays(j, h, place);
    TargetStays(j, n, j.disk, place);
  }

  /** A move of what was at the path leaves a target of another name alone. */
  lemma TargetStays(j: Job, n: Nodes, from: Path, to: Path)
    requires JobOk(j) && Tree(n) && TargetAsWas(j, n) && MayMove(n, from, to)
    requires (from == j.disk && IsPlace(j, to)) || (IsPlace(j, from) && to == j.disk)
    ensures TargetAsWas(j, Moved(n, from, to))
  {
    hide Moved, Tree;
    PlaceElsewhere(j, if to == j.disk then from else to);
    if j.target != j.disk {
      Siblings(j.target, j.disk);
      MovedElsewhere(n, from, to, j.target);
    }
  }

  /** Siblings of different names are apart. */
  lemma Siblings(p: Path, q: Path)
    requires p != [] && q != [] && p != q && Up(p) == Up(q)
    ensures !Related(p, q) && !(p <= Up(q))
  {
    assert p == Up(p) + [p[|p| - 1]] && q == Up(q) + [q[|q| - 1]];
  }

  lemma TrashElsewhere(p: Path, place: Path)
    requires p != [] && p[0] != ".delocal" && TRASH <= place
    ensures !Related(p, place) && !(TMP <= place) && !(place <= Up(p))
  {
    assert place[0] == ".delocal" && place[1] == "trash";
  }

  lemma PlaceElsewhere(j: Job, place: Path)
    requires JobOk(j) && IsPlace(j, place)
    ensures !(j.disk <= place) && !(place <= j.disk) && !(TMP <= place) && place != [] && !(place <= Up(j.disk))
    ensures !Related(j.target, place)
  {
    hide Tree;
    if j.displace.ToCopy? {
      Siblings(place, j.disk);
      Siblings(place, j.target);
    } else {
      TrashElsewhere(j.disk, place);
      TrashElsewhere(j.target, place);
    }
  }

  lemma TempElsewhere(j: Job, place: Path, temp: Path)
    requires JobOk(j) && IsPlace(j, place) && temp in j.spare
    ensures !Related(temp, place) && !Related(temp, j.target)
  {
    assert temp[0] == ".delocal" && temp[1] == "tmp";
    if j.displace.ToTrash? { assert place[1] == "trash"; }
  }

  lemma UpStays(j: Job, h: Snapshot, place: Path)
    requires JobOk(j) && Tree(h.nodes) && j.disk in h.nodes && MayMove(h.nodes, j.disk, place) && IsPlace(j, place)
    ensures DirAt(Moved(h.nodes, j.disk, place), Up(j.disk))
  {
    PlaceElsewhere(j, place);
    assert DirAt(h.nodes, Up(j.disk)) by { assert j.disk[..|j.disk| - 1] == Up(j.disk); }
    MovedElsewhere(h.nodes, j.disk, place, Up(j.disk));
  }

  /** The rename in, over the emptied path. */
  lemma InFromAside(j: Job, h: Snapshot, place: Path, temp: Path, node: Node)
    requires JobOk(j) && Aside(j, h, place, temp) && MayMove(h.nodes, temp, j.target) && Holds(h.nodes, temp, node)
    ensures Landed(j, Snapshot(Moved(h.nodes, temp, j.target), h.rows), node)
  {
    hide Others, SameTree, Tree, Moved;
    var n, m := h.nodes, Moved(h.nodes, temp, j.target);
    PlaceElsewhere(j, place);
    TempElsewhere(j, place, temp);
    TempNotAbove(j.was, j.disk, temp);
    MoveNew(j, n, temp, j.target, {place}, {place, j.target});
    TargetOnly(j, n, temp);
    MoveOthers(j.was, n, j.disk, temp, j.target);
    MoveSame(j.was, j.disk, n, place, temp, j.target);
    MovedTree(n, temp, j.target);
    MovedAway(n, temp, j.target, temp);
    MovedHolds(n, temp, j.target, node);
    assert PutAside(j, Snapshot(m, h.rows), place);
  }

  /** The rename in leaves the path's other name free. */
  lemma TargetOnly(j: Job, n: Nodes, temp: Path)
    requires JobOk(j) && Tree(n) && MayMove(n, temp, j.target) && j.disk !in n && TMP <= temp
    ensures j.target != j.disk ==> j.disk !in Moved(n, temp, j.target)
  {
    hide Moved, Tree;
    if j.target != j.disk {
      Siblings(j.target, j.disk);
      DiskNotTemp(j, temp);
      MovedElsewhere(n, temp, j.target, j.disk);
    }
  }

  lemma MovedHolds(n: Nodes, from: Path, to: Path, node: Node)
    requires Tree(n) && MayMove(n, from, to) && Holds(n, from, node)
    ensures Holds(Moved(n, from, to), to, node)
  {
    hide Moved;
    var m := Moved(n, from, to);
    MovedThere(n, from, to, []);
    assert to + [] == to && from + [] == from;
    forall r | r != [] ensures Below(m, to, r).None? {
      MovedThere(n, from, to, r);
      assert Below(n, from, r).None?;
    }
  }

  /** The rename in, where nothing was at the path, or something still is at its other name. */
  lemma InFromBefore(j: Job, h: Snapshot, temp: Path, node: Node)
    requires JobOk(j) && Before(j, h) && j.disk !in h.nodes && temp in j.spare
    requires MayMove(h.nodes, temp, j.target) && Holds(h.nodes, temp, node)
    ensures Landed(j, Snapshot(Moved(h.nodes, temp, j.target), h.rows), node)
  {
    hide Others, SameTree, Tree, Moved;
    var n := h.nodes;
    SameRoot(j.was, j.disk, n, j.disk);
    TempNotAbove(j.was, j.disk, temp);
    MoveNew(j, n, temp, j.target, {}, {j.target});
    TargetOnly(j, n, temp);
    MoveOthers(j.was, n, j.disk, temp, j.target);
    MovedTree(n, temp, j.target);
    MovedHolds(n, temp, j.target, node);
    if j.key in h.rows {
      var t := h.rows[j.key].temp;
      TempElsewhere2(j, t);
      if temp <= t {
        MovedAway(n, temp, j.target, t);
      } else {
        MovedElsewhere(n, temp, j.target, t);
      }
    }
  }

  lemma TempElsewhere2(j: Job, t: Path)
    requires JobOk(j) && TMP <= t
    ensures !(j.target <= t)
  {
    assert t[0] == ".delocal";
  }

  /** The displaced entry goes back where it was. */
  lemma BackFromAside(j: Job, h: Snapshot, place: Path, temp: Path)
    requires JobOk(j) && Aside(j, h, place, temp) && MayMove(h.nodes, place, j.disk)
    ensures Before(j, Snapshot(Moved(h.nodes, place, j.disk), h.rows))
  {
    hide Others, SameTree, Tree, Moved;
    var n := h.nodes;
    AbsentNotAbove(j.was, j.disk, place);
    MoveOthers(j.was, n, j.disk, place, j.disk);
    MoveItself(j.was, j.disk, n, place, j.disk);
    MovedTree(n, place, j.disk);
    SameRoot(j.was, j.disk, Moved(n, place, j.disk), j.disk);
    TargetStays(j, n, place, j.disk);
    BackNew(j, n, place, {});
  }

  /** What comes back is nothing new, and leaves nothing where it was. */
  lemma BackNew(j: Job, n: Nodes, place: Path, roots: set<Path>)
    requires Tree(n) && MayMove(n, place, j.disk) && SameTree(j.was, j.disk, n, place)
    requires NewOnly(j, n, roots + {place})
    ensures NewOnly(j, Moved(n, place, j.disk), roots)
  {
    hide Moved, Tree, SameTree;
    var m := Moved(n, place, j.disk);
    MoveItself(j.was, j.disk, n, place, j.disk);
    MoveNew(j, n, place, j.disk, roots + {place}, roots + {place, j.disk});
    forall q | q in m && q !in j.was ensures HostsOwn(j, q, m[q]) || Under(roots, q) {
      if j.disk <= q { NothingNewUnder(j, m, q); }
      if place <= q { MovedAway(n, place, j.disk, q); }
    }
  }

  lemma NothingNewUnder(j: Job, n: Nodes, q: Path)
    requires SameTree(j.was, j.disk, n, j.disk) && j.disk <= q
    ensures q in n <==> q in j.was
  {
    var r := q[|j.disk|..];
    assert q == j.disk + r;
    assert Below(j.was, j.disk, r) == Below(n, j.disk, r);
  }

  lemma PlaceNotTemp(j: Job, place: Path, p: Path)
    requires JobOk(j) && IsPlace(j, place) && TMP <= p
    ensures !(place <= p)
  {
    assert p[0] == ".delocal" && p[1] == "tmp";
    if j.displace.ToTrash? { assert place[1] == "trash"; }
  }

  /** A landed commit's own temps go. */
  lemma LandedTouched(j: Job, h: Snapshot, m: Nodes, p: Path, node: Node)
    requires JobOk(j) && Landed(j, h, node) && Tree(m) && Touched(h.nodes, m, p)
    requires TMP <= p && p !in m
    ensures Landed(j, Snapshot(m, h.rows), node)
  {
    hide Tree, NewOnly;
    TouchOthers(j.was, h.nodes, m, j.disk, p);
    DiskNotTemp(j, p);
    assert Get(m, j.disk) == Get(h.nodes, j.disk);
    if j.disk in j.was {
      var place :| PutAside(j, h, place) && NewOnly(j, h.nodes, {place, j.target});
      assert !(place <= p) by { PlaceNotTemp(j, place, p); }
      TouchSame(j.was, j.disk, h.nodes, m, place, p);
      TouchNew(j, h.nodes, m, p, {place, j.target});
      assert PutAside(j, Snapshot(m, h.rows), place);
    } else {
      TouchNew(j, h.nodes, m, p, {j.target});
    }
    assert p[0] == ".delocal";
    TouchHolds(h.nodes, m, j.target, p, node);
    if j.key in h.rows {
      assert h.rows[j.key].temp != p ==> Get(m, h.rows[j.key].temp) == Get(h.nodes, h.rows[j.key].temp);
    }
  }

  lemma TouchHolds(n: Nodes, m: Nodes, at: Path, p: Path, node: Node)
    requires Holds(n, at, node) && Touched(n, m, p) && !(at <= p)
    ensures Holds(m, at, node)
  {
    assert Get(m, at) == Get(n, at);
    forall r | r != [] ensures Below(m, at, r).None? {
      assert at <= at + r;
      assert Below(n, at, r).None?;
    }
  }
}
