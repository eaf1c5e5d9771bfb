/** Deletions and a revert's moves to the trash: one rename, or an empty directory removed. */
module Removals {
  import opened Prelude
  import opened Paths
  import opened Entries
  import opened Disks
  import opened DiskStates
  import opened Trash
  import opened CommitStates
  import opened Commits

  datatype RuleSource = ByDefault | ByUser

  /** The index name of a name on disk, if it has one, and the rule that ignores an index path. */
  datatype Rules = Rules(name: string -> Option<string>, source: (Path, bool) -> Option<RuleSource>)

  function Last(p: Path): string
    requires p != []
  {
    p[|p| - 1]
  }

  /** The index path, and so the place in the trash, of what `o`'s directory holds as `name`. */
  function Inside(o: Original, name: string): Original {
    Original(o.day, o.above + [o.name], name)
  }

  /** What ignores the child at `c`; a name with no index path is ignored by nothing. */
  function SourceOf(rules: Rules, o: Original, c: Path, node: Node): Option<RuleSource>
    requires c != []
  {
    match rules.name(Last(c))
    case Some(name) => rules.source(o.above + [o.name, name], node.IsDir())
    case None => None
  }

  function Children(was: Nodes, disk: Path): set<Path> {
    set c | c in was && c != [] && Up(c) == disk
  }

  /** Everything below `root` before is below `place` now, node for node. */
  ghost predicate Carried(was: Nodes, root: Path, n: Nodes, place: Path) {
    forall r :: Below(was, root, r).Some? ==> Below(n, place, r) == Below(was, root, r)
  }

  /** A child the default rules ignore, at a place in the trash for its own path, where nothing was. */
  ghost predicate Discarded(was: Nodes, o: Original, rules: Rules, c: Path, place: Path)
    requires c in was && c != []
  {
    && place !in was && was[c].Plain? && SourceOf(rules, o, c, was[c]) == Some(ByDefault)
    && rules.name(Last(c)).Some? && PlaceFor(place, Inside(o, rules.name(Last(c)).value), was[c].o.kind)
  }

  /** Where each child of a directory is: where it was, or discarded; no two are at one place, or
      one in another. */
  ghost predicate Whereabouts(was: Nodes, disk: Path, o: Original, rules: Rules, n: Nodes, at: map<Path, Path>) {
    && at.Keys == Children(was, disk)
    && (forall c :: c in at ==> Carried(was, c, n, at[c]) && (at[c] == c || Discarded(was, o, rules, c, at[c])))
    && (forall b, c :: b in at && c in at && b != c ==> !Related(at[b], at[c]))
  }

  /** What a directory held before is where it was, or in the trash, each at a place of its own; the
      directory itself is there, or gone once nothing is left in it, and nothing is new but in the
      trash. */
  ghost predicate KeptIn(was: Nodes, disk: Path, o: Original, rules: Rules, n: Nodes) {
    && Others(was, n, disk) && (forall q :: q in n && q !in was ==> TRASH <= q)
    && (exists at :: Whereabouts(was, disk, o, rules, n, at))
    && (disk in n ==> Get(n, disk) == Get(was, disk))
  }

  // One entry to the trash, or to a conflict copy.

  ghost function ToGo(j: Job): Snapshot -> bool {
    (h: Snapshot) => Before(j, h) && j.disk in h.nodes
  }

  ghost function NothingLost(j: Job): Snapshot -> bool {
    (h: Snapshot) => Kept(j, h.nodes)
  }

  /** A job that brings nothing in. */
  ghost predicate Leaves(j: Job) {
    JobOk(j) && j.disk in j.was && j.target == j.disk
  }

  /** What was at the path is whole where it was to go, a place where nothing was, and the path is
      free. */
  ghost predicate Went(j: Job, o: Original, kind: Kind, n: Nodes) {
    && Kept(j, n) && j.disk !in n
    && exists place :: SameTree(j.was, j.disk, n, place) && place !in j.was && IsGoal(j, o, kind, place)
  }

  ghost predicate IsGoal(j: Job, o: Original, kind: Kind, place: Path) {
    match j.displace
    case ToTrash => PlaceFor(place, o, kind)
    case ToCopy(to) => place == to
  }

  lemma GoneKept(j: Job, o: Original, kind: Kind, h: Snapshot, to: Path)
    requires Leaves(j) && ToGo(j)(h) && IsGoal(j, o, kind, to) && MayMove(h.nodes, j.disk, to)
    ensures Went(j, o, kind, Moved(h.nodes, j.disk, to))
  {
    hide Others, SameTree, Tree, Moved, PlaceFor, NewOnly;
    var n := h.nodes;
    if j.displace.ToTrash? { PlaceLength(to, o, kind); }
    PlaceElsewhere(j, to);
    RootNotAbove(j.was, j.disk);
    MoveOthers(j.was, n, j.disk, j.disk, to);
    MoveItself(j.was, j.disk, n, j.disk, to);
    MovedAway(n, j.disk, to, j.disk);
    FreeNotInWas(j, h, to);
  }

  lemma GoRules(j: Job, o: Original, kind: Kind)
    requires Leaves(j) && j.displace.ToTrash?
    ensures Grows(ToGo(j), NothingLost(j)) && Moves(j.disk, o, kind, None, ToGo(j), NothingLost(j))
  {
    hide Before, Kept, Tree, Moved, PlaceFor;
    var I, J := ToGo(j), NothingLost(j);
    forall h | I(h) ensures J(h) {
      BeforeKept(j, h);
    }
    forall h, q | I(h) && TRASH <= q && MayCreate(h.nodes, q) ensures I(Snapshot(h.nodes[q := DIR], h.rows)) {
      BeforeTree(j, h);
      Created(h.nodes, q, DIR);
      TouchedBy(h.nodes, q, DIR);
      DiskNotTemp(j, q);
      TrashNotTemp(q, q);
      assert q[0] == ".delocal";
      FreeNotInWas(j, h, q);
      NewDirBefore(j, h, h.nodes[q := DIR], q);
    }
    forall h, to | I(h) && PlaceFor(to, o, kind) && MayMove(h.nodes, j.disk, to)
      ensures J(Snapshot(Moved(h.nodes, j.disk, to), h.rows))
    {
      GoneKept(j, o, kind, h, to);
    }
  }

  datatype Removal = Removed | NotRemoved(fail: Fail)

  /** One rename, with no journal row: it is all that the deletion of an entry needs. */
  method TrashEntry(d: Disk, kind: Kind, o: Original, j: Job) returns (r: Removal)
    requires d.Valid() && Leaves(j) && j.displace.ToTrash? && ToGo(j)(d.Now())
    modifies d`nodes, d`unsynced, d`rows, d`history
    ensures d.Valid() && d.rows == old(d.rows)
    ensures old(d.history) <= d.history && Since(d.history, |old(d.history)|, NothingLost(j))
    ensures if r.Removed? then Went(j, o, kind, d.nodes) else ToGo(j)(d.Now())
    ensures d.faultless && PlainlyFree(old(d.nodes), o) ==> r.Removed?
  {
    hide Before, Kept, Tree, Moved, Grows, Moves, Since, Grown, PlaceFor, Went, PlainlyFree;
    GoRules(j, o, kind);
    assert PlainPlace(o)[0] == ".delocal";
    var moved, rowed, before := MoveIn(d, j.disk, o, kind, None, ToGo(j), NothingLost(j));
    match moved {
      case InTrash(to) =>
        GoneKept(j, o, kind, Snapshot(before, d.rows), to);
        r := Removed;
      case Gone => r := NotRemoved(Changed);
      case Failed(e) => r := NotRemoved(ChangedOrLocal(e));
    }
  }

  /** Rename one entry to its conflict copy. */
  method CopyEntry(d: Disk, kind: Kind, o: Original, to: Path, j: Job) returns (r: Removal)
    requires d.Valid() && Leaves(j) && j.displace == ToCopy(to) && ToGo(j)(d.Now())
    modifies d`nodes, d`unsynced, d`history
    ensures d.Valid()
    ensures old(d.history) <= d.history && Since(d.history, |old(d.history)|, NothingLost(j))
    ensures if r.Removed? then Went(j, o, kind, d.nodes) else ToGo(j)(d.Now())
    ensures r.Removed? && kind == Dir ==> NoMountIn(d.mounts, j.disk)
    ensures d.faultless && to !in old(d.nodes) ==> r.Removed?
  {
    hide Before, Kept, Moved, Tree;
    CopyMay(j, d.nodes, to);
    if kind == Dir {
      var mounted, why := d.MountedBeneath(j.disk);
      if why.Some? {
        return NotRemoved(ChangedOrLocal(why.value));
      }
      if mounted {
        return NotRemoved(Local(Trouble));
      }
    }
    ghost var h := d.Now();
    var e := d.RenameRefusing(j.disk, to);
    if e.Some? {
      return NotRemoved(ChangedOrLocal(e.value));
    }
    GoneKept(j, o, kind, h, to);
    r := Removed;
  }

  // Directories.

  ghost predicate DirJob(was: Nodes, disk: Path) {
    Tree(was) && disk != [] && disk[0] != ".delocal"
  }

  ghost function DirKept(was: Nodes, disk: Path, o: Original, rules: Rules): Snapshot -> bool {
    (h: Snapshot) => KeptIn(was, disk, o, rules, h.nodes)
  }

  /** Children of the directory that are still where they were. */
  ghost predicate InPlace(was: Nodes, disk: Path, rest: set<Path>, n: Nodes) {
    forall b :: b in rest ==> b in was && b != [] && Up(b) == disk && Carried(was, b, n, b)
  }

  ghost function RestKept(was: Nodes, disk: Path, o: Original, rules: Rules, rest: set<Path>): Snapshot -> bool {
    (h: Snapshot) => KeptIn(was, disk, o, rules, h.nodes) && InPlace(was, disk, rest, h.nodes)
  }

  /** `c` is still to go: everything is kept, and `c` and the rest are where they were. */
  ghost function ChildToGo(was: Nodes, disk: Path, o: Original, rules: Rules, c: Path, rest: set<Path>)
    : Snapshot -> bool
  {
    (h: Snapshot) => Tree(h.nodes) && KeptIn(was, disk, o, rules, h.nodes) && InPlace(was, disk, rest + {c}, h.nodes)
  }

  lemma InPlaceAdd(was: Nodes, disk: Path, rest: set<Path>, n: Nodes, q: Path, node: Node)
    requires InPlace(was, disk, rest, n) && q !in n
    ensures InPlace(was, disk, rest, n[q := node])
  {
    hide Carried;
    forall b | b in rest ensures Carried(was, b, n[q := node], b) {
      CarriedAdd(was, b, n, b, q, node);
    }
  }

  lemma InPlaceMove(was: Nodes, disk: Path, rest: set<Path>, n: Nodes, c: Path, to: Path)
    requires InPlace(was, disk, rest, n) && Tree(n) && MayMove(n, c, to) && c !in rest && c != [] && Up(c) == disk
    ensures InPlace(was, disk, rest, Moved(n, c, to))
  {
    hide Carried, Moved, Tree;
    forall b | b in rest ensures Carried(was, b, Moved(n, c, to), b) {
      Siblings(b, c);
      RelatedSymmetric(b, c);
      CarriedMove(was, b, n, b, c, to);
    }
  }

  lemma CarriedAdd(was: Nodes, c: Path, n: Nodes, place: Path, q: Path, node: Node)
    requires Carried(was, c, n, place) && q !in n
    ensures Carried(was, c, n[q := node], place)
  {
    forall r | Below(was, c, r).Some? ensures Below(n[q := node], place, r) == Below(was, c, r) {
      assert Below(n, place, r) == Below(was, c, r);
    }
  }

  lemma KeptInAdd(was: Nodes, disk: Path, o: Original, rules: Rules, n: Nodes, q: Path, node: Node)
    requires KeptIn(was, disk, o, rules, n) && q !in n && q != disk && TRASH <= q
    ensures KeptIn(was, disk, o, rules, n[q := node])
  {
    hide Carried, Discarded;
    var m := n[q := node];
    var at :| Whereabouts(was, disk, o, rules, n, at);
    forall c | c in at ensures Carried(was, c, m, at[c]) {
      CarriedAdd(was, c, n, at[c], q, node);
    }
    assert Whereabouts(was, disk, o, rules, m, at);
  }

  lemma CarriedMove(was: Nodes, c: Path, n: Nodes, place: Path, from: Path, to: Path)
    requires Carried(was, c, n, place) && Tree(n) && MayMove(n, from, to) && !Related(from, place)
    ensures Carried(was, c, Moved(n, from, to), place)
  {
    hide Moved;
    var m := Moved(n, from, to);
    forall r | Below(was, c, r).Some? ensures Below(m, place, r) == Below(was, c, r) {
      assert Below(n, place, r) == Below(was, c, r);
      if from <= place + r { Comparable(from, place, r); }
      if to <= place + r { NothingUnder(n, to, place + r); }
      MovedElsewhere(n, from, to, place + r);
    }
  }

  lemma CarriedItself(was: Nodes, c: Path, n: Nodes, to: Path)
    requires Carried(was, c, n, c) && Tree(n) && MayMove(n, c, to)
    ensures Carried(was, c, Moved(n, c, to), to)
  {
    hide Moved;
    forall r | Below(was, c, r).Some? ensures Below(Moved(n, c, to), to, r) == Below(was, c, r) {
      MovedThere(n, c, to, r);
      assert Below(n, c, r) == Below(was, c, r);
    }
  }

  lemma CarriedThere(was: Nodes, c: Path, n: Nodes, place: Path)
    requires Carried(was, c, n, place) && c in was
    ensures place in n && n[place] == was[c]
  {
    assert c + [] == c && place + [] == place;
    assert Below(was, c, []).Some?;
  }

  lemma ChildNotTrash(disk: Path, c: Path, place: Path)
    requires disk != [] && disk[0] != ".delocal" && c != [] && Up(c) == disk && TRASH <= place
    ensures !Related(c, place) && !Related(place, c) && disk <= c && c != disk && !(disk <= place)
  {
    assert c[0] == Up(c)[0];
    assert place[0] == ".delocal";
  }

  /** Two places of one depth, one of them free, are apart. */
  lemma FreeApart(n: Nodes, place: Path, to: Path)
    requires place in n && to !in n && |place| == |to|
    ensures !Related(place, to) && !Related(to, place)
  {
    assert place <= to ==> place == to;
    assert to <= place ==> place == to;
  }

  lemma DiscardedPlace(was: Nodes, o: Original, rules: Rules, c: Path, place: Path)
    requires c in was && c != [] && Discarded(was, o, rules, c, place)
    ensures TRASH <= place && |place| == |o.above| + 5
  {
    PlaceLength(place, Inside(o, rules.name(Last(c)).value), was[c].o.kind);
  }

  /** A child goes to a free place in the trash; the others stay where they are. */
  lemma ChildGone(was: Nodes, disk: Path, o: Original, rules: Rules, n: Nodes, c: Path, to: Path)
    requires DirJob(was, disk) && c in was && c != [] && Up(c) == disk
    requires Tree(n) && KeptIn(was, disk, o, rules, n) && Carried(was, c, n, c) && MayMove(n, c, to)
    requires TRASH <= to && to !in was && Discarded(was, o, rules, c, to)
    ensures KeptIn(was, disk, o, rules, Moved(n, c, to))
  {
    hide Moved, Tree, Carried, Others, Related, Discarded;
    var m := Moved(n, c, to);
    ChildNotTrash(disk, c, to);
    ChildNotAbove(was, disk, c);
    MoveOthers(was, n, disk, c, to);
    MovedElsewhere(n, c, to, disk) by { DiskApart(disk, c, to); }
    MoveOnlyTrash(was, n, c, to);
    var at :| Whereabouts(was, disk, o, rules, n, at);
    ChildAt(was, disk, o, rules, n, at, c, to);
  }

  lemma ChildAt(was: Nodes, disk: Path, o: Original, rules: Rules, n: Nodes, at: map<Path, Path>, c: Path, to: Path)
    requires DirJob(was, disk) && c in was && c != [] && Up(c) == disk
    requires Tree(n) && Whereabouts(was, disk, o, rules, n, at) && Carried(was, c, n, c) && MayMove(n, c, to)
    requires Discarded(was, o, rules, c, to)
    ensures Whereabouts(was, disk, o, rules, Moved(n, c, to), at[c := to])
  {
    hide Moved, Tree, Carried, Related, Discarded;
    CarriedItself(was, c, n, to);
    assert c in Children(was, disk);
    forall b | b in at && b != c
      ensures Carried(was, b, Moved(n, c, to), at[b]) && !Related(at[b], to) && !Related(to, at[b])
    {
      OtherChild(was, disk, o, rules, n, b, at[b], c, to);
    }
  }

  lemma MoveOnlyTrash(was: Nodes, n: Nodes, c: Path, to: Path)
    requires Tree(n) && MayMove(n, c, to) && TRASH <= to
    requires forall q :: q in n && q !in was ==> TRASH <= q
    ensures forall q :: q in Moved(n, c, to) && q !in was ==> TRASH <= q
  {
    hide Moved, Tree;
    forall q | q in Moved(n, c, to) && q !in was ensures TRASH <= q {
      if to <= q {
        PrefixTransitive(TRASH, to, q);
      } else {
        if c <= q { MovedAway(n, c, to, q); }
        MovedElsewhere(n, c, to, q);
      }
    }
  }

  lemma DiskApart(disk: Path, c: Path, to: Path)
    requires disk != [] && disk[0] != ".delocal" && c != [] && Up(c) == disk && TRASH <= to
    ensures !(c <= disk) && !(to <= disk)
  {
    assert to[0] == ".delocal";
  }

  lemma ToIsNew(was: Nodes, disk: Path, n: Nodes, to: Path)
    requires Others(was, n, disk) && TRASH <= to && to !in n && !(disk <= to)
    ensures to !in was
  {
    assert !(TMP <= to) by { TrashNotTemp(to, to); }
  }

  lemma ChildNotAbove(was: Nodes, disk: Path, c: Path)
    requires c != [] && Up(c) == disk
    ensures NotAbove(was, disk, c)
  {
    forall q | q in was && c <= q ensures disk <= q {
      assert disk <= c;
      PrefixTransitive(disk, c, q);
    }
  }

  lemma OtherChild(was: Nodes, disk: Path, o: Original, rules: Rules, n: Nodes, b: Path, place: Path, c: Path, to: Path)
    requires DirJob(was, disk) && Tree(n) && MayMove(n, c, to)
    requires b in was && b != [] && c in was && c != [] && b != c && Up(b) == disk && Up(c) == disk
    requires Carried(was, b, n, place) && (place == b || Discarded(was, o, rules, b, place))
    requires Discarded(was, o, rules, c, to)
    ensures Carried(was, b, Moved(n, c, to), place) && !Related(place, to) && !Related(to, place)
  {
    hide Moved, Tree, Carried, Related, Discarded;
    DiscardedPlace(was, o, rules, c, to);
    if place == b {
      Siblings(b, c);
      ChildNotTrash(disk, b, to);
    } else {
      DiscardedPlace(was, o, rules, b, place);
      ChildNotTrash(disk, c, place);
      CarriedThere(was, b, n, place);
      FreeApart(n, place, to);
    }
    assert !Related(c, place) by { RelatedSymmetric(b, c); }
    CarriedMove(was, b, n, place, c, to);
  }

  lemma RelatedSymmetric(a: Path, b: Path)
    ensures Related(a, b) == Related(b, a)
  {
  }

  lemma ChildRules(was: Nodes, disk: Path, o: Original, rules: Rules, c: Path, rest: set<Path>)
    requires DirJob(was, disk) && c in was && c != [] && Up(c) == disk && c !in rest
    requires was[c].Plain? && SourceOf(rules, o, c, was[c]) == Some(ByDefault) && rules.name(Last(c)).Some?
    ensures Grows(ChildToGo(was, disk, o, rules, c, rest), RestKept(was, disk, o, rules, rest))
    ensures Moves(c, Inside(o, rules.name(Last(c)).value), was[c].o.kind, None,
                  ChildToGo(was, disk, o, rules, c, rest), RestKept(was, disk, o, rules, rest))
  {
    hide KeptIn, Tree, Moved, Carried, PlaceFor;
    var I, J := ChildToGo(was, disk, o, rules, c, rest), RestKept(was, disk, o, rules, rest);
    forall h, q | I(h) && TRASH <= q && MayCreate(h.nodes, q) ensures I(Snapshot(h.nodes[q := DIR], h.rows)) {
      assert q[0] == ".delocal";
      Created(h.nodes, q, DIR);
      KeptInAdd(was, disk, o, rules, h.nodes, q, DIR);
      InPlaceAdd(was, disk, rest + {c}, h.nodes, q, DIR);
    }
    var its := Inside(o, rules.name(Last(c)).value);
    forall h, to | I(h) && PlaceFor(to, its, was[c].o.kind) && MayMove(h.nodes, c, to)
      ensures J(Snapshot(Moved(h.nodes, c, to), h.rows))
    {
      PlaceLength(to, its, was[c].o.kind);
      assert c in rest + {c};
      ChildNotTrash(disk, c, to);
      OthersOf(was, disk, o, rules, h.nodes);
      ToIsNew(was, disk, h.nodes, to);
      ChildGone(was, disk, o, rules, h.nodes, c, to);
      InPlaceMove(was, disk, rest, h.nodes, c, to);
    }
  }

  lemma OthersOf(was: Nodes, disk: Path, o: Original, rules: Rules, n: Nodes)
    requires KeptIn(was, disk, o, rules, n)
    ensures Others(was, n, disk)
  {
  }

  /** The entry at `c` in `o`'s directory has an index path there, and such a rule ignores it, as the
      directory or other thing that it is. */
  ghost predicate IgnoredAs(rules: Rules, o: Original, c: Path, node: Node, source: RuleSource) {
    && c != [] && rules.name(Last(c)).Some?
    && rules.source(o.above + [o.name, rules.name(Last(c)).value], node.Plain? && node.o.kind == Dir) == Some(source)
  }

  /** Only the default rules ignore what the directory holds. */
  ghost predicate AllDefault(n: Nodes, disk: Path, o: Original, rules: Rules) {
    forall c :: c in Children(n, disk) ==> IgnoredAs(rules, o, c, n[c], ByDefault)
  }

  /** Some rule ignores each thing the directory holds, and a user's rule one of them. */
  ghost predicate SomeUser(n: Nodes, disk: Path, o: Original, rules: Rules) {
    && (forall c :: c in Children(n, disk) ==>
          IgnoredAs(rules, o, c, n[c], ByDefault) || IgnoredAs(rules, o, c, n[c], ByUser))
    && (exists c :: c in Children(n, disk) && IgnoredAs(rules, o, c, n[c], ByUser))
  }

  /** What a directory holds, if only the default rules ignore it all: anything else stops its
      removal, a name that has no index path included. A file a user rule ignores is reported as
      such. */
  method Holdings(d: Disk, disk: Path, o: Original, rules: Rules)
    returns (children: set<Path>, fail: Option<Fail>)
    requires d.Valid() && disk != []
    ensures fail.None? ==> children == Children(d.nodes, disk) && AllDefault(d.nodes, disk, o, rules)
    ensures fail == Some(HoldsIgnored) ==> SomeUser(d.nodes, disk, o, rules)
    ensures d.faultless && DirAt(d.nodes, disk) ==>
              (fail.None? <==> AllDefault(d.nodes, disk, o, rules))
              && (fail == Some(HoldsIgnored) <==> SomeUser(d.nodes, disk, o, rules))
  {
    children, fail := {}, None;
    var unread := d.Fault();
    if unread.Some? { return {}, Some(Changed); }
    var listed, e := d.ReadDir(disk);
    if e.Some? { return {}, Some(ChangedOrLocal(e.value)); }
    assert listed == Children(d.nodes, disk);
    var todo, users := listed, {};
    while todo != {}
      invariant todo <= listed && children + users + todo == listed
      invariant forall c :: c in children ==> SourceOf(rules, o, c, d.nodes[c]) == Some(ByDefault)
      invariant forall c :: c in users ==> SourceOf(rules, o, c, d.nodes[c]) == Some(ByUser)
      decreases todo
    {
      var q :| q in todo;
      todo := todo - {q};
      if rules.name(Last(q)).None? { return {}, Some(Changed); }
      var node, why := d.Lstat(q);
      if node.None? {
        if why != Missing { return {}, Some(ChangedOrLocal(why)); }
      } else {
        match SourceOf(rules, o, q, node.value) {
          case Some(ByDefault) => children := children + {q};
          case Some(ByUser) => users := users + {q};
          case None => return {}, Some(Changed);
        }
      }
    }
    if users != {} {
      var c :| c in users;
      assert c in listed && SourceOf(rules, o, c, d.nodes[c]) == Some(ByUser);
      fail := Some(HoldsIgnored);
    }
  }

  /** Remove a directory if it is empty, what only the default rules ignore inside having gone to
      the trash first. Whatever fails, nothing is lost or replaced; and nothing moves if the
      directory holds anything else. */
  method RemoveDirectory(d: Disk, disk: Path, o: Original, rules: Rules)
    returns (fail: Option<Fail>)
    requires d.Valid() && DirJob(d.nodes, disk) && DirAt(d.nodes, disk)
    modifies d`nodes, d`unsynced, d`rows, d`history
    ensures d.Valid() && KeptIn(old(d.nodes), disk, o, rules, d.nodes) && d.rows == old(d.rows)
    ensures old(d.history) <= d.history && Since(d.history, |old(d.history)|, DirKept(old(d.nodes), disk, o, rules))
    ensures fail.None? ==> disk !in d.nodes && AllDefault(old(d.nodes), disk, o, rules)
    ensures fail.None? ==> NoMountWithin(d.mounts, old(d.nodes), disk)
    ensures !AllDefault(old(d.nodes), disk, o, rules) ==> d.nodes == old(d.nodes)
    ensures fail == Some(HoldsIgnored) ==> SomeUser(old(d.nodes), disk, o, rules)
    ensures d.faultless && (IsEmptyDir(old(d.nodes), disk) || AllCanGo(old(d.nodes), disk, o, rules)) ==> fail.None?
    ensures d.faultless && SomeUser(old(d.nodes), disk, o, rules) && !IsEmptyDir(old(d.nodes), disk) ==>
              fail == Some(HoldsIgnored)
  {
    hide KeptIn, Tree, Moved, Carried, Since, Grows, Moves, Grown, AllDefault, SomeUser, RoomFor, NoMountWithin;
    ghost var was := d.nodes;
    SinceNone(d.history, DirKept(was, disk, o, rules));
    KeptAtFirst(was, disk, o, rules);
    var e := d.RemoveDir(disk);
    if e.None? {
      EmptyGone(was, disk, o, rules, was);
      SinceOne(old(d.history), old(d.history), d.Now(), DirKept(was, disk, o, rules));
      EmptyDefault(was, disk, o, rules);
      NoneWithin(d.mounts, was, disk);
      return None;
    }
    if e != Some(NotEmpty) && e != Some(Exists) {
      return Some(ChangedOrLocal(e.value));
    }
    var children, stopped := Holdings(d, disk, o, rules);
    if stopped.Some? {
      return stopped;
    }
    fail := TrashAll(d, disk, children, o, rules, was, old(d.history));
    if fail.Some? {
      return;
    }
    ghost var n, b := d.nodes, d.history;
    AllWent(was, disk, o, rules, n);
    NoneWithin(d.mounts, was, disk);
    e := d.RemoveDir(disk);
    if e.Some? {
      return Some(ChangedOrLocal(e.value));
    }
    EmptyGone(was, disk, o, rules, n);
    SinceOne(old(d.history), b, d.Now(), DirKept(was, disk, o, rules));
  }

  /** Each thing a directory holds has a free place of its own in the trash, by its plain name. */
  ghost predicate RoomFor(n: Nodes, cs: set<Path>, o: Original, rules: Rules) {
    && (forall c :: c in cs ==>
          c != [] && rules.name(Last(c)).Some? && PlainlyFree(n, Inside(o, rules.name(Last(c)).value)))
    && (forall b, c :: b in cs && c in cs && b != c && b != [] && c != [] ==>
          rules.name(Last(b)) != rules.name(Last(c)))
  }

  /** Only the default rules ignore what the directory holds, and nothing stands in the way of its
      going to the trash. */
  ghost predicate AllCanGo(n: Nodes, disk: Path, o: Original, rules: Rules) {
    && AllDefault(n, disk, o, rules) && RoomFor(n, Children(n, disk), o, rules)
    && forall c :: c in Children(n, disk) ==> n[c].Plain?
  }

  /** Once all that the directory held is gone from it, it is empty. */
  lemma AllWent(was: Nodes, disk: Path, o: Original, rules: Rules, n: Nodes)
    requires Tree(was) && Tree(n) && KeptIn(was, disk, o, rules, n)
    requires DirAt(was, disk) && disk != [] && disk[0] != ".delocal"
    requires forall c :: c in Children(was, disk) ==> c !in n
    ensures disk in n ==> IsEmptyDir(n, disk)
  {
    hide Others, Whereabouts;
    if disk in n {
      assert Get(n, disk) == Get(was, disk);
      forall q | q in n && disk <= q ensures q == disk {
        if |q| > |disk| { ChildAbove(n, disk, q); }
      }
    }
  }

  lemma ChildAbove(n: Nodes, disk: Path, q: Path)
    requires Tree(n) && q in n && disk <= q && |q| > |disk| > 0
    ensures var c := q[..|disk| + 1]; c in n && c != [] && Up(c) == disk && c[0] == disk[0]
  {
    var c := q[..|disk| + 1];
    assert |q| > |c| ==> DirAt(n, q[..|c|]);
    assert |q| == |c| ==> q == c;
  }

  /** The others still have their places once one has gone to its own. */
  lemma RoomAfter(n: Nodes, before: Nodes, c: Path, rest: set<Path>, o: Original, rules: Rules)
    requires Tree(n) && Tree(before) && RoomFor(n, rest + {c}, o, rules) && c !in rest && c != [] && c[0] != ".delocal"
    requires var p := Inside(o, rules.name(Last(c)).value);
             Grown(n, before) && ShallowOnly(n, before, |p.above| + 3) && MayMove(before, c, PlainPlace(p))
    ensures RoomFor(Moved(before, c, PlainPlace(Inside(o, rules.name(Last(c)).value))), rest, o, rules)
  {
    hide Moved, Tree;
    var p := Inside(o, rules.name(Last(c)).value);
    var m := Moved(before, c, PlainPlace(p));
    forall b | b in rest
      ensures b != [] && rules.name(Last(b)).Some? && PlainlyFree(m, Inside(o, rules.name(Last(b)).value))
    {
      var q := Inside(o, rules.name(Last(b)).value);
      assert b in rest + {c} && c in rest + {c};
      RoomStays(n, before, c, p, q);
    }
  }

  lemma RoomStays(n: Nodes, before: Nodes, c: Path, p: Original, q: Original)
    requires Tree(n) && Tree(before) && c != [] && c[0] != ".delocal"
    requires p.day == q.day && p.above == q.above && p.name != q.name && PlainlyFree(n, q)
    requires Grown(n, before) && ShallowOnly(n, before, |p.above| + 3) && MayMove(before, c, PlainPlace(p))
    ensures PlainlyFree(Moved(before, c, PlainPlace(p)), q)
  {
    hide Moved, Tree;
    var m := Moved(before, c, PlainPlace(p));
    PlainGrown(n, before, q.day, q.above);
    assert Up(TRASH)[0] == ".delocal" && PlainPlace(p)[0] == ".delocal";
    MovedElsewhere(before, c, PlainPlace(p), Up(TRASH));
    forall i | 0 <= i <= |q.above| + 1 ensures NoFile(m, TRASH + ([q.day] + q.above)[..i]) {
      var r := TRASH + ([q.day] + q.above)[..i];
      assert r[0] == ".delocal" && NoFile(before, r) && |r| < |PlainPlace(p)|;
      MovedElsewhere(before, c, PlainPlace(p), r);
    }
    var place := PlainPlace(q);
    assert Get(before, place) == Get(n, place);
    assert place[0] == ".delocal" && |place| == |PlainPlace(p)|;
    assert place[|place| - 1] == q.name && PlainPlace(p)[|place| - 1] == p.name;
    MovedElsewhere(before, c, PlainPlace(p), place);
  }

  /** No disk is mounted at or beneath a directory that the directory holds. */
  ghost predicate NoMountWithin(mounts: set<Path>, n: Nodes, disk: Path) {
    forall m :: m in mounts && DirAt(n, m) && disk <= m ==> m == disk
  }

  lemma NoneWithin(mounts: set<Path>, n: Nodes, disk: Path)
    requires Tree(n) && disk != []
    requires forall c :: c in Children(n, disk) && n[c].IsDir() ==> forall m :: m in mounts ==> !(c <= m)
    ensures NoMountWithin(mounts, n, disk)
  {
    forall m | m in mounts && DirAt(n, m) && disk <= m ensures m == disk {
      if |m| > |disk| {
        ChildAbove(n, disk, m);
        AboveDir(n, m[..|disk| + 1], m);
      }
    }
  }

  lemma EmptyDefault(n: Nodes, disk: Path, o: Original, rules: Rules)
    requires IsEmptyDir(n, disk)
    ensures AllDefault(n, disk, o, rules)
  {
    assert forall c :: c != [] && Up(c) == disk ==> disk <= c && c != disk;
    assert Children(n, disk) == {};
  }

  lemma KeptAtFirst(was: Nodes, disk: Path, o: Original, rules: Rules)
    ensures KeptIn(was, disk, o, rules, was)
    ensures forall c :: Carried(was, c, was, c)
  {
    var at := map c | c in Children(was, disk) :: c;
    forall b, c | b in at && c in at && b != c ensures !Related(at[b], at[c]) {
      Siblings(b, c);
    }
    assert Whereabouts(was, disk, o, rules, was, at);
  }

  /** Only an empty directory goes: nothing it held before can still have been in it. */
  lemma EmptyGone(was: Nodes, disk: Path, o: Original, rules: Rules, n: Nodes)
    requires KeptIn(was, disk, o, rules, n) && IsEmptyDir(n, disk) && disk != [] && disk[0] != ".delocal"
    ensures KeptIn(was, disk, o, rules, n - {disk})
  {
    hide Carried, Discarded;
    var at :| Whereabouts(was, disk, o, rules, n, at);
    forall c | c in at ensures Carried(was, c, n - {disk}, at[c]) {
      if at[c] != c { DiscardedPlace(was, o, rules, c, at[c]); }
      StillCarried(was, disk, n, c, at[c]);
    }
    assert Whereabouts(was, disk, o, rules, n - {disk}, at);
  }

  lemma StillCarried(was: Nodes, disk: Path, n: Nodes, c: Path, place: Path)
    requires Carried(was, c, n, place) && IsEmptyDir(n, disk)
    requires disk != [] && disk[0] != ".delocal"
    requires c != [] && Up(c) == disk && (place == c || TRASH <= place)
    ensures Carried(was, c, n - {disk}, place)
  {
    var m := n - {disk};
    forall r | Below(was, c, r).Some? ensures Below(m, place, r) == Below(was, c, r) {
      assert Below(n, place, r) == Below(was, c, r);
      assert place != c ==> (place + r)[0] == ".delocal";
    }
  }

  /** Each child in turn goes to the trash. */
  method TrashAll(d: Disk, disk: Path, children: set<Path>, o: Original, rules: Rules,
                  ghost was: Nodes, ghost start: seq<Snapshot>)
    returns (fail: Option<Fail>)
    requires d.Valid() && DirJob(was, disk) && d.nodes == was && children == Children(was, disk)
    requires AllDefault(was, disk, o, rules)
    requires start <= d.history && Since(d.history, |start|, DirKept(was, disk, o, rules))
    modifies d`nodes, d`unsynced, d`rows, d`history
    ensures d.Valid() && KeptIn(was, disk, o, rules, d.nodes) && d.rows == old(d.rows) && fail != Some(HoldsIgnored)
    ensures start <= d.history && Since(d.history, |start|, DirKept(was, disk, o, rules))
    ensures fail.None? ==> (forall c :: c in children ==> c !in d.nodes) && Get(d.nodes, disk) == Get(was, disk)
    ensures fail.None? ==> forall c :: c in children && was[c].IsDir() ==> forall m :: m in d.mounts ==> !(c <= m)
    ensures d.faultless && AllCanGo(was, disk, o, rules) ==> fail.None?
  {
    hide KeptIn, Tree, Moved, Since, Carried, RoomFor;
    KeptAtFirst(was, disk, o, rules);
    var todo := children;
    fail := None;
    ghost var room := d.faultless && AllCanGo(was, disk, o, rules);
    while todo != {}
      invariant todo <= children && d.Valid() && KeptIn(was, disk, o, rules, d.nodes) && d.rows == old(d.rows)
      invariant InPlace(was, disk, todo, d.nodes) && fail.None?
      invariant forall c :: c in children && c !in todo ==> c !in d.nodes
      invariant forall c :: c in children && c !in todo && was[c].IsDir() ==> forall m :: m in d.mounts ==> !(c <= m)
      invariant room ==> RoomFor(d.nodes, todo, o, rules)
      invariant Get(d.nodes, disk) == Get(was, disk)
      invariant start <= d.history && Since(d.history, |start|, DirKept(was, disk, o, rules))
      decreases todo
    {
      var c :| c in todo;
      ghost var all := todo;
      todo := todo - {c};
      assert todo + {c} == all && todo + {c} <= children;
      fail := TrashChild(d, disk, c, o, rules, was, start, todo);
      if fail.Some? {
        return;
      }
    }
  }

  method TrashChild(d: Disk, disk: Path, c: Path, o: Original, rules: Rules,
                    ghost was: Nodes, ghost start: seq<Snapshot>, ghost rest: set<Path>)
    returns (fail: Option<Fail>)
    requires d.Valid() && DirJob(was, disk) && KeptIn(was, disk, o, rules, d.nodes)
    requires c in was && c != [] && Up(c) == disk && c !in rest && InPlace(was, disk, rest + {c}, d.nodes)
    requires SourceOf(rules, o, c, was[c]) == Some(ByDefault)
    requires start <= d.history && Since(d.history, |start|, DirKept(was, disk, o, rules))
    modifies d`nodes, d`unsynced, d`rows, d`history
    ensures d.Valid() && KeptIn(was, disk, o, rules, d.nodes) && d.rows == old(d.rows) && fail != Some(HoldsIgnored)
    ensures fail.None? ==> InPlace(was, disk, rest, d.nodes) && c !in d.nodes
    ensures forall q :: q in d.nodes && q !in old(d.nodes) ==> TRASH <= q
    ensures Get(d.nodes, disk) == Get(old(d.nodes), disk)
    ensures fail.None? && was[c].IsDir() ==> forall m :: m in d.mounts ==> !(c <= m)
    ensures d.faultless && was[c].Plain? && RoomFor(old(d.nodes), rest + {c}, o, rules) ==>
              fail.None? && RoomFor(d.nodes, rest, o, rules)
    ensures start <= d.history && Since(d.history, |start|, DirKept(was, disk, o, rules))
  {
    hide KeptIn, Tree, Moved, Carried, Since, Grows, Moves, Grown, PlaceFor, RoomFor, ShallowOnly;
    ghost var n := d.nodes;
    if RoomFor(n, rest + {c}, o, rules) { RoomOf(n, rest + {c}, c, o, rules); }
    assert c in rest + {c};
    CarriedThere(was, c, d.nodes, c);
    var node, e := d.Lstat(c);
    if node.None? {
      return Some(ChangedOrLocal(e));
    }
    if node.value.Special? {
      return Some(Changed);
    }
    if node.value.IsDir() {
      if c in d.mounts {
        return Some(Local(Trouble));
      }
      var mounted, unread := d.MountedBeneath(c);
      if unread.Some? {
        return Some(ChangedOrLocal(unread.value));
      }
      if mounted {
        return Some(Local(Trouble));
      }
    }
    ChildRules(was, disk, o, rules, c, rest);
    ghost var had := d.history;
    var moved, rowed, before := MoveIn(d, c, Inside(o, rules.name(Last(c)).value), node.value.o.kind, None,
                                       ChildToGo(was, disk, o, rules, c, rest), RestKept(was, disk, o, rules, rest));
    RestGivesAll(d.history, |had|, was, disk, o, rules, rest);
    SinceMore(start, had, d.history, DirKept(was, disk, o, rules));
    NewInTrash(n, if moved.InTrash? then before else d.nodes);
    match moved {
      case InTrash(to) =>
        PlaceLength(to, Inside(o, rules.name(Last(c)).value), node.value.o.kind);
        ChildMoved(n, before, c, to);
        DiskStays(n, before, disk, c, to);
        if d.faultless && RoomFor(n, rest + {c}, o, rules) { RoomAfter(n, before, c, rest, o, rules); }
        fail := None;
      case Gone => fail := Some(Changed);
      case Failed(why) => fail := Some(ChangedOrLocal(why));
    }
  }

  lemma RoomOf(n: Nodes, cs: set<Path>, c: Path, o: Original, rules: Rules)
    requires RoomFor(n, cs, o, rules) && c in cs
    ensures rules.name(Last(c)).Some? && PlainlyFree(n, Inside(o, rules.name(Last(c)).value))
    ensures PlainPlace(Inside(o, rules.name(Last(c)).value))[0] == ".delocal"
  {
  }

  lemma NewInTrash(n: Nodes, m: Nodes)
    requires Grown(n, m)
    ensures forall q :: q in m && q !in n ==> TRASH <= q
    ensures forall q :: !(TRASH <= q) ==> Get(m, q) == Get(n, q)
  {
  }

  lemma DiskStays(n: Nodes, before: Nodes, disk: Path, c: Path, to: Path)
    requires Tree(before) && MayMove(before, c, to) && TRASH <= to && Grown(n, before)
    requires c != [] && Up(c) == disk && disk != [] && disk[0] != ".delocal"
    ensures Get(Moved(before, c, to), disk) == Get(n, disk)
  {
    hide Moved, Tree;
    MovedElsewhere(before, c, to, disk);
  }

  lemma ChildMoved(n: Nodes, before: Nodes, c: Path, to: Path)
    requires Tree(before) && MayMove(before, c, to) && TRASH <= to
    requires forall q :: q in before && q !in n ==> TRASH <= q
    ensures c !in Moved(before, c, to)
    ensures forall q :: q in Moved(before, c, to) && q !in n ==> TRASH <= q
  {
    hide Moved, Tree;
    MovedAway(before, c, to, c);
    forall q | q in Moved(before, c, to) && q !in n ensures TRASH <= q {
      if to <= q {
        PrefixTransitive(TRASH, to, q);
      } else if c <= q {
        MovedAway(before, c, to, q);
      } else {
        MovedElsewhere(before, c, to, q);
      }
    }
  }

  lemma RestGivesAll(history: seq<Snapshot>, from: nat, was: Nodes, disk: Path, o: Original, rules: Rules,
                     rest: set<Path>)
    requires Since(history, from, RestKept(was, disk, o, rules, rest))
    ensures Since(history, from, DirKept(was, disk, o, rules))
  {
    hide KeptIn, InPlace;
  }

  // The two operations.

  /** The path is a directory that is to go to the trash: it goes only once it is empty. */
  predicate Empties(j: Job) {
    DirAt(j.was, j.disk) && j.displace.ToTrash?
  }

  /** Whatever fails, nothing is lost or replaced: the entry is whole, where it was or where it was
      to go; or, of a directory going to the trash, all that it held is, each at its own place. */
  ghost predicate Lossless(j: Job, o: Original, rules: Rules, n: Nodes) {
    if Empties(j) then KeptIn(j.was, j.disk, o, rules, n) else Kept(j, n)
  }

  ghost function AlwaysLossless(j: Job, o: Original, rules: Rules): Snapshot -> bool {
    (h: Snapshot) => Lossless(j, o, rules, h.nodes)
  }

  /** What a deletion that succeeds leaves: no entry at the path, and what was there where it was to
      go. What is no entry stays. */
  ghost predicate Gone(j: Job, o: Original, rules: Rules, n: Nodes) {
    if IsEntry(j) then
      && j.disk !in n
      && (if Empties(j) then AllDefault(j.was, j.disk, o, rules) else Went(j, o, j.was[j.disk].o.kind, n))
    else n == j.was
  }

  /** What one that fails leaves: the entry as it was, or a directory that still holds anything but
      what the default rules ignore. */
  ghost predicate Stayed(j: Job, o: Original, rules: Rules, h: Snapshot) {
    if Empties(j) then AllDefault(j.was, j.disk, o, rules) || h.nodes == j.was
    else if j.disk in j.was then Before(j, h)
    else h.nodes == j.was
  }

  /** Nothing on the disk stands in the way: the copy's path or the path's plain place in the trash
      is free, or the directory is empty, or can be made so. */
  ghost predicate Free(j: Job, o: Original, rules: Rules) {
    if Empties(j) then IsEmptyDir(j.was, j.disk) || AllCanGo(j.was, j.disk, o, rules) else SpotFree(j, o, j.was)
  }

  lemma AtFirst(j: Job, o: Original, rules: Rules, h: Snapshot)
    requires JobOk(j) && j.was == h.nodes && j.target == j.disk
    ensures Lossless(j, o, rules, h.nodes) && Stayed(j, o, rules, h)
    ensures j.disk in j.was ==> ToGo(j)(h)
  {
    KeptAtFirst(j.was, j.disk, o, rules);
    SameRefl(h.nodes, j.disk);
  }

  /** A deletion received: the entry the engine expected goes to the trash or its conflict copy, a
      directory only if it is empty. What is no entry is not the path's, and stays. */
  method RemovePath(d: Disk, expected: Option<Observed>, o: Original, rules: Rules, j: Job)
    returns (fail: Option<Fail>)
    requires d.Valid() && JobOk(j) && j.target == j.disk && j.was == d.nodes
    modifies d`nodes, d`unsynced, d`rows, d`history
    ensures d.Valid() && d.rows == old(d.rows) && Lossless(j, o, rules, d.nodes)
    ensures if fail.None? then Gone(j, o, rules, d.nodes) else Stayed(j, o, rules, d.Now())
    ensures old(d.history) <= d.history && Since(d.history, |old(d.history)|, AlwaysLossless(j, o, rules))
    ensures fail.None? && IsEntry(j) ==> ClearOfMounts(d.mounts, j.was, j.disk)
    ensures d.faultless && Meets(expected, j.was, j.disk) && (expected.None? || Free(j, o, rules)) ==> fail.None?
    ensures fail.None? ==> Meets(expected, j.was, j.disk)
    ensures !Meets(expected, j.was, j.disk) ==> fail.Some? && d.nodes == j.was
  {
    hide Before, Kept, KeptIn, Tree, Moved, Guard, Since, Stayed, Lossless, Gone, AllDefault, Went, Free, Unmounted,
         ClearOfMounts, NoMountWithin;
    GuardMeets(expected, d.nodes, j.disk);
    AtFirst(j, o, rules, d.Now());
    SinceNone(d.history, AlwaysLossless(j, o, rules));
    var found, why := Look(d, j.disk);
    if found.None? {
      return Some(why);
    }
    TrulySeen(d.nodes, j.disk, found.value);
    if !Guard(expected, SeenIn(found.value)) {
      return Some(Changed);
    }
    if !found.value.Entry? {
      NoEntry(j, o, rules, d.nodes);
      return None;
    }
    fail := Take(d, found.value.seen.kind, o, rules, j);
    if fail.None? { TakenClear(d.mounts, j.was, j.disk, found.value); }
  }

  lemma TakenClear(mounts: set<Path>, n: Nodes, disk: Path, found: Found)
    requires Tree(n) && Unmounted(mounts, n, disk, found) && Truly(n, disk, found) && found.Entry?
    requires found.seen.kind == Dir ==> NoMountWithin(mounts, n, disk)
    ensures ClearOfMounts(mounts, n, disk)
  {
    forall m | m in mounts && m != [] && DirAt(n, m) ensures !Related(m, disk) {
      if disk <= m { AboveDir(n, disk, m); }
    }
  }

  lemma NoEntry(j: Job, o: Original, rules: Rules, n: Nodes)
    requires j.was == n && (j.disk in n ==> n[j.disk] == Special)
    ensures Gone(j, o, rules, n)
  {
  }

  method Take(d: Disk, kind: Kind, o: Original, rules: Rules, j: Job)
    returns (fail: Option<Fail>)
    requires d.Valid() && Leaves(j) && j.was == d.nodes && d.nodes[j.disk].Plain? && d.nodes[j.disk].o.kind == kind
    modifies d`nodes, d`unsynced, d`rows, d`history
    ensures d.Valid() && d.rows == old(d.rows) && Lossless(j, o, rules, d.nodes)
    ensures if fail.None? then Gone(j, o, rules, d.nodes) else Stayed(j, o, rules, d.Now())
    ensures old(d.history) <= d.history && Since(d.history, |old(d.history)|, AlwaysLossless(j, o, rules))
    ensures fail.None? && kind == Dir ==> NoMountWithin(d.mounts, j.was, j.disk)
    ensures d.faultless && Free(j, o, rules) ==> fail.None?
  {
    hide Kept, KeptIn, Tree, Moved, Since, AllDefault, Before, PlainlyFree;
    AtFirst(j, o, rules, d.Now());
    var r;
    match j.displace {
      case ToTrash =>
        if kind == Dir {
          fail := RemoveDirectory(d, j.disk, o, rules);
          SameAlways(j, o, rules, d.history, |old(d.history)|);
          return;
        }
        r := TrashEntry(d, kind, o, j);
      case ToCopy(to) =>
        r := CopyEntry(d, kind, o, to, j);
    }
    SameAlways(j, o, rules, d.history, |old(d.history)|);
    match r {
      case Removed => fail := None;
      case NotRemoved(why) =>
        BeforeKept(j, d.Now());
        fail := Some(why);
    }
  }

  lemma SameAlways(j: Job, o: Original, rules: Rules, history: seq<Snapshot>, from: nat)
    requires Since(history, from, if Empties(j) then DirKept(j.was, j.disk, o, rules) else NothingLost(j))
    ensures Since(history, from, AlwaysLossless(j, o, rules))
  {
    hide Kept, KeptIn;
  }

  predicate IsEntry(j: Job) {
    j.disk in j.was && j.was[j.disk].Plain?
  }

  /** A revert throws away the entry it expects, and no other. With nothing at the path there is
      nothing to do. */
  method MoveToTrash(d: Disk, expected: Observed, o: Original, rules: Rules, j: Job)
    returns (fail: Option<Fail>)
    requires d.Valid() && JobOk(j) && j.target == j.disk && j.was == d.nodes && j.displace.ToTrash?
    modifies d`nodes, d`unsynced, d`rows, d`history
    ensures d.Valid() && d.rows == old(d.rows) && Lossless(j, o, rules, d.nodes)
    ensures if fail.None? then Gone(j, o, rules, d.nodes) else Stayed(j, o, rules, d.Now())
    ensures old(d.history) <= d.history && Since(d.history, |old(d.history)|, AlwaysLossless(j, o, rules))
    ensures fail.None? && IsEntry(j) ==> ClearOfMounts(d.mounts, j.was, j.disk)
    ensures d.faultless && (IsEntry(j) ==> LooksLike(expected, j.was[j.disk].o) && Free(j, o, rules)) ==> fail.None?
    ensures fail.None? && IsEntry(j) ==> LooksLike(expected, j.was[j.disk].o)
    ensures IsEntry(j) && !LooksLike(expected, j.was[j.disk].o) ==> fail.Some? && d.nodes == j.was
  {
    hide Before, Kept, KeptIn, Tree, Moved, Since, Stayed, Lossless, Gone, AllDefault, Went, Free, Unmounted,
         ClearOfMounts, NoMountWithin;
    if IsEntry(j) { UnchangedByLooks(expected, j.was[j.disk].o); }
    AtFirst(j, o, rules, d.Now());
    SinceNone(d.history, AlwaysLossless(j, o, rules));
    var found, why := Look(d, j.disk);
    if found.None? {
      return Some(why);
    }
    if !found.value.Entry? {
      NoEntry(j, o, rules, d.nodes);
      return None;
    }
    if !expected.UnchangedByStat(found.value.seen) {
      return Some(Changed);
    }
    fail := Take(d, found.value.seen.kind, o, rules, j);
    if fail.None? { TakenClear(d.mounts, j.was, j.disk, found.value); }
  }
}
