/** After a crash: what the start makes of journal rows, and what the running host makes of open
    ones. Each row is undone by itself, so several are as safe as one, and a start that is itself
    cut short leaves what the next one starts from. */
module Recovery {
  import opened Prelude
  import opened Paths
  import opened Entries
  import opened Disks
  import opened DiskStates
  import opened Trash
  import opened CommitStates
  import opened Commits

  /** A row is resolved, or stays open and its path is reported as skipped. */
  datatype Resolution = Resolved | StillOpen

  /** A journal row, the commit that wrote it, and what that commit brings. */
  datatype Undoing = Undoing(j: Job, row: Row, node: Node)

  ghost predicate UndoOk(u: Undoing) {
    JobOk(u.j) && TMP <= u.row.temp
  }

  predicate RowAs(u: Undoing, h: Snapshot) {
    u.j.key in h.rows ==> h.rows[u.j.key] == u.row
  }

  ghost predicate LandedFrom(u: Undoing, h: Snapshot) {
    && LandedAt(u.j, h, u.node) && u.row.temp !in h.nodes
    && (u.j.disk in u.j.was ==> PutAside(u.j, h, u.row.displacedTo))
  }

  /** The path holds exactly what was there and nothing came in, or exactly what the commit
      brought, its other name on disk being free. */
  ghost predicate Rests(u: Undoing, h: Snapshot) {
    InPlaceAt(u.j, h) || LandedFrom(u, h)
  }

  ghost predicate IsAside(u: Undoing, h: Snapshot) {
    AsideAt(u.j, h, u.row.displacedTo, u.row.temp)
  }

  /** What the commit brought is in, and what was at the path is back at its other name. */
  ghost predicate SideBySide(u: Undoing, h: Snapshot) {
    && SameTree(u.j.was, u.j.disk, h.nodes, u.j.disk) && u.j.disk in u.j.was
    && u.j.target != u.j.disk && u.j.target !in u.j.was && Holds(h.nodes, u.j.target, u.node)
    && u.row.temp !in h.nodes && u.row.displacedTo !in h.nodes
  }

  /** Where a write's crash may leave the row's paths. */
  ghost predicate SafeFrom(u: Undoing, h: Snapshot) {
    RowAs(u, h) && (Rests(u, h) || IsAside(u, h))
  }

  /** What a start, or the running host, may find. */
  ghost predicate Recoverable(u: Undoing, h: Snapshot) {
    RowAs(u, h) && (Rests(u, h) || IsAside(u, h) || SideBySide(u, h))
  }

  lemma SafeRecoverable(j: Job, h: Snapshot, node: Node)
    requires Safe(j, h, node) && j.key in h.rows
    ensures SafeFrom(Undoing(j, h.rows[j.key], node), h)
    ensures Landed(j, h, node) ==> LandedFrom(Undoing(j, h.rows[j.key], node), h)
  {
    hide Others, SameTree, Tree, Holds, NewOnly;
    if Landed(j, h, node) && j.disk in j.was {
      var place :| PutAside(j, h, place);
    }
  }

  // One row's step: what was aside goes back, and the row goes.

  predicate WentBack(u: Undoing, n: Nodes, m: Nodes) {
    MayMove(n, u.row.displacedTo, u.j.disk) && m == Moved(n, u.row.displacedTo, u.j.disk)
  }

  /** What the commit displaced is where its row says. */
  ghost predicate Displaces(u: Undoing, a: Snapshot) {
    IsAside(u, a) || (LandedFrom(u, a) && u.j.disk in u.j.was)
  }

  ghost predicate Stepped(u: Undoing, a: Snapshot, b: Snapshot) {
    && (b.nodes == a.nodes || (Displaces(u, a) && WentBack(u, a.nodes, b.nodes)))
    && (b.rows == a.rows || b.rows == a.rows - {u.j.key})
  }

  /** What holds at every moment of an undo that began at `a`; if it looks at the temp first, only
      what is aside goes back. */
  ghost function Moment(u: Undoing, a: Snapshot, looks: bool): Snapshot -> bool {
    (h: Snapshot) => Tree(h.nodes) && Recoverable(u, h) && Stepped(u, a, h)
                     && (looks && h.nodes != a.nodes ==> IsAside(u, a))
  }

  lemma AsideBack(u: Undoing, a: Snapshot, m: Nodes)
    requires UndoOk(u) && Tree(a.nodes) && IsAside(u, a) && WentBack(u, a.nodes, m)
    ensures InPlaceAt(u.j, Snapshot(m, a.rows)) && u.j.disk in m
  {
    hide SameTree, Tree, Moved;
    MoveItself(u.j.was, u.j.disk, a.nodes, u.row.displacedTo, u.j.disk);
    TargetStays(u.j, a.nodes, u.row.displacedTo, u.j.disk);
    SameRoot(u.j.was, u.j.disk, m, u.j.disk);
  }

  lemma LandedBack(u: Undoing, a: Snapshot, m: Nodes)
    requires UndoOk(u) && Tree(a.nodes) && LandedFrom(u, a) && u.j.disk in u.j.was && WentBack(u, a.nodes, m)
    ensures SideBySide(u, Snapshot(m, a.rows))
  {
    hide SameTree, Tree, Moved;
    var n, place := a.nodes, u.row.displacedTo;
    MoveItself(u.j.was, u.j.disk, n, place, u.j.disk);
    MovedAway(n, place, u.j.disk, place);
    PlaceElsewhere(u.j, place);
    Siblings(u.j.target, u.j.disk);
    HoldsBeside(n, place, u.j.disk, u.j.target, u.node);
    DiskNotTemp(u.j, u.row.temp);
    PlaceNotTemp(u.j, place, u.row.temp);
    MovedElsewhere(n, place, u.j.disk, u.row.temp);
  }

  lemma HoldsBeside(n: Nodes, from: Path, to: Path, at: Path, node: Node)
    requires Tree(n) && MayMove(n, from, to) && Holds(n, at, node) && !Related(from, at) && !Related(to, at)
    ensures Holds(Moved(n, from, to), at, node)
  {
    hide Moved, Tree;
    MovedElsewhere(n, from, to, at);
    forall r | r != [] ensures Below(Moved(n, from, to), at, r).None? {
      if from <= at + r { Comparable(from, at, r); }
      if to <= at + r { Comparable(to, at, r); }
      MovedElsewhere(n, from, to, at + r);
      assert Below(n, at, r).None?;
    }
  }

  /** A move back is from aside, or, if nobody looked at the temp, from landed. */
  lemma BackFrom(u: Undoing, a: Snapshot, m: Nodes)
    requires UndoOk(u) && Tree(a.nodes) && u.j.key in a.rows && SafeFrom(u, a) && WentBack(u, a.nodes, m)
    requires u.row.temp in a.nodes || u.row.temp in u.j.spare
    ensures if LandedFrom(u, a) then SideBySide(u, Snapshot(m, a.rows)) && u.row.temp !in a.nodes
            else IsAside(u, a) && InPlaceAt(u.j, Snapshot(m, a.rows))
  {
    hide Tree, Moved, Holds;
    assert !InPlaceAt(u.j, a);
    if LandedFrom(u, a) {
      LandedBack(u, a, m);
    } else {
      AsideBack(u, a, m);
    }
  }

  lemma RowsFewer(u: Undoing, h: Snapshot, key: RelPath)
    requires Recoverable(u, h)
    ensures Recoverable(u, Snapshot(h.nodes, h.rows - {key})) || (u.j.key == key && IsAside(u, h))
    ensures Rests(u, h) ==> Rests(u, Snapshot(h.nodes, h.rows - {key}))
    ensures SafeFrom(u, h) ==> SafeFrom(u, Snapshot(h.nodes, h.rows - {key})) || (u.j.key == key && IsAside(u, h))
    ensures SideBySide(u, h) ==> SideBySide(u, Snapshot(h.nodes, h.rows - {key}))
    ensures InPlaceAt(u.j, h) ==> InPlaceAt(u.j, Snapshot(h.nodes, h.rows - {key}))
    ensures LandedFrom(u, h) ==> LandedFrom(u, Snapshot(h.nodes, h.rows - {key}))
  {
    hide SameTree, Holds;
    var t := Snapshot(h.nodes, h.rows - {key});
    if LandedFrom(u, h) {
      assert u.j.disk in u.j.was ==> PutAside(u.j, t, u.row.displacedTo);
    }
    if InPlaceAt(u.j, h) {
      assert Harmless(u.j, t);
    }
  }

  /** With no rename possible for want of the path or of what was displaced, nothing is aside. */
  lemma NoWayBack(u: Undoing, h: Snapshot)
    requires Recoverable(u, h)
    requires u.j.disk in h.nodes || u.row.displacedTo !in h.nodes || u.row.temp !in h.nodes
             || u.j.disk == [] || !DirAt(h.nodes, Up(u.j.disk))
    ensures Rests(u, h) || SideBySide(u, h)
  {
    hide Holds, InPlaceAt, LandedFrom, SideBySide;
    if IsAside(u, h) {
      SameRoot(u.j.was, u.j.disk, h.nodes, u.row.displacedTo);
    }
  }

  /** The directories a landed commit's entries are in. */
  function LandedDirs(disk: Path, displacedTo: Path): seq<Path>
  {
    if DirOf(displacedTo) == DirOf(disk) then [DirOf(disk)] else [DirOf(disk), DirOf(displacedTo)]
  }

  /** They will keep the commit over a crash, unless they are gone. */
  ghost predicate SyncedOrGone(dirs: seq<Path>, n: Nodes, unsynced: set<Path>) {
    forall p :: p in dirs ==> p !in unsynced || !DirAt(n, p)
  }

  /** The journal's undo of one row at the daemon's start. Every moment of it is one the next start
      could begin from. */
  method UndoRow(d: Disk, u: Undoing) returns (r: Resolution)
    requires d.Valid() && UndoOk(u) && d.honest && u.j.key in d.rows && Recoverable(u, d.Now())
    modifies d`nodes, d`unsynced, d`rows, d`history
    ensures d.Valid() && Stepped(u, old(d.Now()), d.Now()) && Recoverable(u, d.Now())
    ensures d.nodes != old(d.nodes) ==> old(IsAside(u, d.Now()))
    ensures old(SafeFrom(u, d.Now())) ==> SafeFrom(u, d.Now())
    ensures r.Resolved? <==> u.j.key !in d.rows
    ensures d.faultless && d.nodes != old(d.nodes) ==>
              DirOf(u.j.disk) !in d.unsynced && DirOf(u.row.displacedTo) !in d.unsynced
    ensures d.nodes != old(d.nodes) ==> forall m :: m in d.mounts && m != [] && m <= u.j.disk ==> m == u.j.disk
    ensures r.Resolved? && u.row.displacedTo in old(d.nodes) && u.row.temp !in old(d.nodes) ==>
              SyncedOrGone([DirOf(u.j.disk), DirOf(u.row.displacedTo)], d.nodes, d.unsynced)
    ensures d.faultless ==> r.Resolved?
    ensures old(d.history) <= d.history && Since(d.history, |old(d.history)|, Moment(u, old(d.Now()), true))
  {
    hide Recoverable, SafeFrom, Rests, SideBySide, IsAside, Moved, Tree, Since;
    ghost var a := d.Now();
    SinceNone(d.history, Moment(u, a, true));
    assert d.rows[u.j.key] == u.row by { RowSame(u, a); }
    var row := d.rows[u.j.key];
    var there, e := d.Lstat(row.displacedTo);
    if there.None? {
      if e != Missing {
        return StillOpen;
      }
      NoWayBack(u, a);
      r := Drop(d, u, a, true, d.history);
      return;
    }
    var temp;
    temp, e := d.Lstat(row.temp);
    if temp.None? {
      if e != Missing {
        return StillOpen;
      }
      NoWayBack(u, a);
      r := SyncAndDrop(d, u, a, true, d.history);
      return;
    }
    r := GoBack(d, u);
  }

  /** What is aside with its temp still there goes back, if its path is empty and can be reached. */
  method GoBack(d: Disk, u: Undoing) returns (r: Resolution)
    requires d.Valid() && UndoOk(u) && d.honest && u.j.key in d.rows && Recoverable(u, d.Now())
    requires u.row.temp in d.nodes && d.rows[u.j.key] == u.row
    modifies d`nodes, d`unsynced, d`rows, d`history
    ensures d.Valid() && Stepped(u, old(d.Now()), d.Now()) && Recoverable(u, d.Now())
    ensures d.nodes != old(d.nodes) ==> old(IsAside(u, d.Now()))
    ensures old(SafeFrom(u, d.Now())) ==> SafeFrom(u, d.Now())
    ensures r.Resolved? <==> u.j.key !in d.rows
    ensures d.faultless && d.nodes != old(d.nodes) ==>
              DirOf(u.j.disk) !in d.unsynced && DirOf(u.row.displacedTo) !in d.unsynced
    ensures d.nodes != old(d.nodes) ==> forall m :: m in d.mounts && m != [] && m <= u.j.disk ==> m == u.j.disk
    ensures d.faultless ==> r.Resolved?
    ensures old(d.history) <= d.history && Since(d.history, |old(d.history)|, Moment(u, old(d.Now()), true))
  {
    hide Recoverable, SafeFrom, Rests, SideBySide, IsAside, Moved, Tree, Since;
    ghost var a := d.Now();
    SinceNone(d.history, Moment(u, a, true));
    var row := d.rows[u.j.key];
    var w := Walk(d, u.j.disk);
    if w.Crossed? || w.Unwalked? {
      return StillOpen;
    }
    if w.Lost? || w.Barred? {
      NoWayBack(u, a);
      r := Drop(d, u, a, true, d.history);
      return;
    }
    OverOrFree(u, a);
    var failed := d.RenameRefusing(row.displacedTo, u.j.disk);
    if failed.None? {
      BackWithTemp(u, a, d.nodes);
      SinceOne(old(d.history), old(d.history), d.Now(), Moment(u, a, true));
      var unsynced := d.Sync(Up(u.j.disk));
      unsynced := d.Sync(DirOf(row.displacedTo));
      r := Drop(d, u, a, true, old(d.history));
    } else if failed == Some(Exists) || failed == Some(Missing) {
      NoWayBack(u, a);
      r := Drop(d, u, a, true, d.history);
    } else {
      r := StillOpen;
    }
  }

  lemma RowSame(u: Undoing, h: Snapshot)
    requires Recoverable(u, h)
    ensures RowAs(u, h)
  {
  }

  lemma OverOrFree(u: Undoing, h: Snapshot)
    requires UndoOk(u) && Recoverable(u, h) && u.j.key in h.rows && u.row.temp in h.nodes
    ensures u.j.disk in h.nodes || !(u.row.displacedTo <= u.j.disk)
  {
    hide SameTree, Holds, Tree;
    if IsAside(u, h) { PlaceElsewhere(u.j, u.row.displacedTo); }
  }

  /** With the temp there, only an entry that is aside can go back. */
  lemma BackWithTemp(u: Undoing, a: Snapshot, m: Nodes)
    requires UndoOk(u) && Tree(a.nodes) && Tree(m) && u.j.key in a.rows && Recoverable(u, a)
    requires WentBack(u, a.nodes, m) && u.row.temp in a.nodes
    ensures IsAside(u, a) && Rests(u, Snapshot(m, a.rows)) && SafeFrom(u, Snapshot(m, a.rows))
    ensures Moment(u, a, true)(Snapshot(m, a.rows))
  {
    hide Tree, Moved, IsAside, InPlaceAt, LandedAt;
    assert !SideBySide(u, a);
    BackFrom(u, a, m);
  }

  lemma BesideAlone(u: Undoing, h: Snapshot)
    requires SideBySide(u, h)
    ensures !SafeFrom(u, h) && !LandedFrom(u, h) && !InPlaceAt(u.j, h) && !IsAside(u, h)
  {
    SameRoot(u.j.was, u.j.disk, h.nodes, u.j.disk);
  }

  /** The row goes with the start's writes, or stays for the next start. */
  method Drop(d: Disk, u: Undoing, ghost a: Snapshot, ghost looks: bool, ghost start: seq<Snapshot>)
    returns (r: Resolution)
    requires d.Valid() && u.j.key in d.rows && Stepped(u, a, d.Now()) && d.rows == a.rows
    requires looks && d.nodes != a.nodes ==> IsAside(u, a)
    requires RowAs(u, d.Now()) && (Rests(u, d.Now()) || SideBySide(u, d.Now()))
    requires start <= d.history && Since(d.history, |start|, Moment(u, a, looks))
    modifies d`rows, d`history
    ensures d.Valid() && Stepped(u, a, d.Now()) && Recoverable(u, d.Now())
    ensures old(SafeFrom(u, d.Now())) ==> SafeFrom(u, d.Now())
    ensures r.Resolved? <==> u.j.key !in d.rows
    ensures d.faultless ==> r.Resolved?
    ensures start <= d.history && Since(d.history, |start|, Moment(u, a, looks))
  {
    hide Rests, SideBySide, Tree, Since, IsAside, Moved;
    ghost var h, had := d.Now(), d.history;
    RowsFewer(u, h, u.j.key);
    if SideBySide(u, h) { BesideAlone(u, h); }
    var e := d.DropRow(u.j.key);
    if e.None? {
      SinceOne(start, had, d.Now(), Moment(u, a, looks));
      return Resolved;
    }
    r := StillOpen;
  }

  /** A landed commit's directories are made durable before its row goes. */
  method SyncAndDrop(d: Disk, u: Undoing, ghost a: Snapshot, ghost looks: bool, ghost start: seq<Snapshot>)
    returns (r: Resolution)
    requires d.Valid() && u.j.key in d.rows && Stepped(u, a, d.Now()) && d.rows == a.rows
    requires looks && d.nodes != a.nodes ==> IsAside(u, a)
    requires RowAs(u, d.Now()) && (Rests(u, d.Now()) || SideBySide(u, d.Now()))
    requires start <= d.history && Since(d.history, |start|, Moment(u, a, looks))
    modifies d`unsynced, d`rows, d`history
    ensures d.Valid() && Stepped(u, a, d.Now()) && Recoverable(u, d.Now()) && d.nodes == old(d.nodes)
    ensures old(SafeFrom(u, d.Now())) ==> SafeFrom(u, d.Now())
    ensures r.Resolved? <==> u.j.key !in d.rows
    ensures r.Resolved? && d.honest ==> SyncedOrGone([DirOf(u.j.disk), DirOf(u.row.displacedTo)], d.nodes, d.unsynced)
    ensures d.faultless ==> r.Resolved?
    ensures start <= d.history && Since(d.history, |start|, Moment(u, a, looks))
  {
    hide Rests, SideBySide, Tree, Since, IsAside, Moved;
    var synced := SyncLanded(d, LandedDirs(u.j.disk, u.row.displacedTo));
    if !synced {
      return StillOpen;
    }
    r := Drop(d, u, a, looks, start);
  }

  // Several rows: undoing one leaves the paths of the others alone.

  ghost predicate EndsApart(u: Undoing, v: Undoing) {
    && !Related(u.j.disk, v.j.disk) && !Related(u.j.disk, v.j.target)
    && !Related(u.j.target, v.j.disk) && !Related(u.j.target, v.j.target)
  }

  /** `u`'s paths are no part of `v`'s, and while what either displaced is not back, neither is
      the place it is at. */
  ghost predicate Apart(u: Undoing, v: Undoing, h: Snapshot) {
    && u.j.key != v.j.key && EndsApart(u, v)
    && (!InPlaceAt(u.j, h) ==> !Related(u.row.displacedTo, v.j.disk) && !Related(u.row.displacedTo, v.j.target))
    && (!InPlaceAt(v.j, h) ==> !Related(u.j.disk, v.row.displacedTo) && !Related(u.j.target, v.row.displacedTo))
    && (!InPlaceAt(u.j, h) && !InPlaceAt(v.j, h) ==> !Related(u.row.displacedTo, v.row.displacedTo))
  }

  lemma OtherInPlace(u: Undoing, v: Undoing, a: Snapshot, b: Snapshot)
    requires UndoOk(u) && UndoOk(v) && Tree(a.nodes) && Apart(u, v, a) && IsPlace(v.j, v.row.displacedTo)
    requires WentBack(v, a.nodes, b.nodes) && b.rows == a.rows && !InPlaceAt(v.j, a)
    requires InPlaceAt(u.j, a)
    ensures InPlaceAt(u.j, b)
  {
    hide Tree, Moved, SameTree, Related;
    var n, from, to := a.nodes, v.row.displacedTo, v.j.disk;
    Flip(u, v);
    MoveSame(u.j.was, u.j.disk, n, u.j.disk, from, to);
    NodeApart(n, from, to, u.j.target);
    NodeApart(n, from, to, u.j.disk);
    if u.j.key in a.rows && u.j.disk !in a.nodes {
      TempStays(v, n, a.rows[u.j.key].temp);
    }
  }

  lemma Flip(u: Undoing, v: Undoing)
    ensures forall p, q :: Related(p, q) == Related(q, p)
  {
  }

  lemma NodeApart(n: Nodes, from: Path, to: Path, q: Path)
    requires Tree(n) && MayMove(n, from, to) && !Related(from, q) && !Related(to, q)
    ensures Get(Moved(n, from, to), q) == Get(n, q)
  {
    hide Moved, Tree;
    MovedElsewhere(n, from, to, q);
  }

  /** No move back touches a temp. */
  lemma TempStays(v: Undoing, n: Nodes, temp: Path)
    requires UndoOk(v) && Tree(n) && TMP <= temp && IsPlace(v.j, v.row.displacedTo)
    requires MayMove(n, v.row.displacedTo, v.j.disk)
    ensures Get(Moved(n, v.row.displacedTo, v.j.disk), temp) == Get(n, temp)
  {
    hide Moved, Tree;
    DiskNotTemp(v.j, temp);
    PlaceNotTemp(v.j, v.row.displacedTo, temp);
    MovedElsewhere(n, v.row.displacedTo, v.j.disk, temp);
  }

  lemma OtherAside(u: Undoing, v: Undoing, a: Snapshot, b: Snapshot)
    requires UndoOk(u) && UndoOk(v) && Tree(a.nodes) && Apart(u, v, a) && IsPlace(v.j, v.row.displacedTo)
    requires WentBack(v, a.nodes, b.nodes) && b.rows == a.rows && !InPlaceAt(v.j, a)
    requires IsAside(u, a) && !InPlaceAt(u.j, a)
    ensures IsAside(u, b)
  {
    hide Tree, Moved, SameTree, Related, InPlaceAt;
    var n, from, to := a.nodes, v.row.displacedTo, v.j.disk;
    Flip(u, v);
    MoveSame(u.j.was, u.j.disk, n, u.row.displacedTo, from, to);
    NodeApart(n, from, to, u.j.target);
    NodeApart(n, from, to, u.j.disk);
    TempStays(v, n, u.row.temp);
    UpApart(n, from, to, u.j.disk);
  }

  lemma UpApart(n: Nodes, from: Path, to: Path, p: Path)
    requires Tree(n) && MayMove(n, from, to) && p != [] && !Related(from, p) && !Related(to, p)
    ensures Get(Moved(n, from, to), Up(p)) == Get(n, Up(p))
  {
    hide Moved, Tree;
    assert Up(p) <= p;
    MovedElsewhere(n, from, to, Up(p));
  }

  lemma OtherLanded(u: Undoing, v: Undoing, a: Snapshot, b: Snapshot)
    requires UndoOk(u) && UndoOk(v) && Tree(a.nodes) && Apart(u, v, a) && IsPlace(v.j, v.row.displacedTo)
    requires WentBack(v, a.nodes, b.nodes) && b.rows == a.rows && !InPlaceAt(v.j, a)
    requires LandedFrom(u, a) && RowAs(u, a) && !InPlaceAt(u.j, a)
    ensures LandedFrom(u, b)
  {
    hide Tree, Moved, SameTree, Related, InPlaceAt, Holds;
    var n, from, to := a.nodes, v.row.displacedTo, v.j.disk;
    Flip(u, v);
    if u.j.disk in u.j.was {
      MoveSame(u.j.was, u.j.disk, n, u.row.displacedTo, from, to);
      assert PutAside(u.j, b, u.row.displacedTo);
    }
    HoldsBeside(n, from, to, u.j.target, u.node);
    NodeApart(n, from, to, u.j.disk);
    TempStays(v, n, u.row.temp);
  }

  lemma OtherSideBySide(u: Undoing, v: Undoing, a: Snapshot, b: Snapshot)
    requires UndoOk(u) && UndoOk(v) && Tree(a.nodes) && Apart(u, v, a) && IsPlace(v.j, v.row.displacedTo)
    requires WentBack(v, a.nodes, b.nodes) && b.rows == a.rows && !InPlaceAt(v.j, a)
    requires SideBySide(u, a) && !InPlaceAt(u.j, a)
    ensures SideBySide(u, b)
  {
    hide Tree, Moved, SameTree, Related, InPlaceAt, Holds;
    var n, from, to := a.nodes, v.row.displacedTo, v.j.disk;
    Flip(u, v);
    MoveSame(u.j.was, u.j.disk, n, u.j.disk, from, to);
    HoldsBeside(n, from, to, u.j.target, u.node);
    TempStays(v, n, u.row.temp);
    NodeApart(n, from, to, u.row.displacedTo);
  }

  ghost predicate SameKind(u: Undoing, a: Snapshot, b: Snapshot) {
    && (SafeFrom(u, a) ==> SafeFrom(u, b)) && (Rests(u, a) ==> Rests(u, b))
    && (SideBySide(u, a) ==> SideBySide(u, b))
  }

  /** One row's move back leaves another row's paths as they were. */
  lemma OtherMoved(u: Undoing, v: Undoing, a: Snapshot, b: Snapshot)
    requires UndoOk(u) && UndoOk(v) && Tree(a.nodes) && Apart(u, v, a) && IsPlace(v.j, v.row.displacedTo)
    requires WentBack(v, a.nodes, b.nodes) && b.rows == a.rows && !InPlaceAt(v.j, a)
    requires Recoverable(u, a)
    ensures Recoverable(u, b) && (InPlaceAt(u.j, a) ==> InPlaceAt(u.j, b))
    ensures SameKind(u, a, b)
  {
    hide Tree, Moved, Related, InPlaceAt, LandedFrom, IsAside, SideBySide, Apart;
    if SideBySide(u, a) { BesideAlone(u, a); }
    if InPlaceAt(u.j, a) {
      OtherInPlace(u, v, a, b);
    } else if LandedFrom(u, a) {
      OtherLanded(u, v, a, b);
    } else if IsAside(u, a) {
      OtherAside(u, v, a, b);
    } else {
      OtherSideBySide(u, v, a, b);
    }
  }

  lemma FreedThere(u: Undoing, a: Snapshot, m: Nodes)
    requires Displaces(u, a) && WentBack(u, a.nodes, m)
    ensures !InPlaceAt(u.j, a) && IsPlace(u.j, u.row.displacedTo)
  {
    hide Moved, Tree;
    if InPlaceAt(u.j, a) { SameRoot(u.j.was, u.j.disk, a.nodes, u.j.disk); }
  }

  // The start.

  ghost predicate AllOk(us: seq<Undoing>) {
    forall i :: 0 <= i < |us| ==> UndoOk(us[i])
  }

  ghost predicate AllRecoverable(us: seq<Undoing>, h: Snapshot) {
    forall i :: 0 <= i < |us| ==> Recoverable(us[i], h)
  }

  ghost predicate AllApart(us: seq<Undoing>, h: Snapshot) {
    forall i, k :: 0 <= i < |us| && 0 <= k < |us| && i != k ==> Apart(us[i], us[k], h)
  }

  /** Rows with unrelated paths, each where a crash may leave it, or a start that was cut short. */
  ghost predicate Startable(us: seq<Undoing>, h: Snapshot) {
    Tree(h.nodes) && AllRecoverable(us, h) && AllApart(us, h)
  }

  /** One row's step and another row. */
  lemma OtherKept(u: Undoing, v: Undoing, a: Snapshot, b: Snapshot)
    requires UndoOk(u) && UndoOk(v) && Tree(a.nodes) && Apart(u, v, a) && Stepped(v, a, b)
    requires Recoverable(u, a)
    ensures Recoverable(u, b) && (InPlaceAt(u.j, a) ==> InPlaceAt(u.j, b)) && SameKind(u, a, b)
  {
    hide Tree, Moved, Recoverable, SafeFrom, SideBySide, IsAside, InPlaceAt, Rests, Displaces, EndsApart;
    var t := Snapshot(b.nodes, a.rows);
    if b.nodes != a.nodes {
      FreedThere(v, a, b.nodes);
      OtherMoved(u, v, a, t);
    }
    RowsFewer(u, t, v.j.key);
  }

  lemma StepKeeps(us: seq<Undoing>, i: nat, a: Snapshot, b: Snapshot)
    requires AllOk(us) && i < |us| && Startable(us, a) && Tree(b.nodes)
    requires Stepped(us[i], a, b) && Recoverable(us[i], b)
    ensures Startable(us, b)
    ensures forall k :: 0 <= k < |us| && k != i ==> SameKind(us[k], a, b)
  {
    hide Tree, Stepped, Recoverable, InPlaceAt, SameKind, Apart, UndoOk;
    forall k | 0 <= k < |us|
      ensures Recoverable(us[k], b) && (InPlaceAt(us[k].j, a) ==> InPlaceAt(us[k].j, b))
      ensures k != i ==> SameKind(us[k], a, b)
    {
      if k != i {
        OtherKept(us[k], us[i], a, b);
      } else {
        if InPlaceAt(us[i].j, a) { InPlaceStays(us[i], a, b); }
      }
    }
    forall k, l | 0 <= k < |us| && 0 <= l < |us| && k != l ensures Apart(us[k], us[l], b) {
      StillApart(us[k], us[l], a, b);
    }
  }

  lemma InPlaceStays(u: Undoing, a: Snapshot, b: Snapshot)
    requires Stepped(u, a, b) && Recoverable(u, a) && InPlaceAt(u.j, a)
    ensures InPlaceAt(u.j, b)
  {
    hide Moved, InPlaceAt, Recoverable, Displaces;
    if b.nodes != a.nodes { FreedThere(u, a, b.nodes); }
    RowsFewer(u, a, u.j.key);
  }

  lemma StillApart(u: Undoing, v: Undoing, a: Snapshot, b: Snapshot)
    requires Apart(u, v, a)
    requires InPlaceAt(u.j, a) ==> InPlaceAt(u.j, b)
    requires InPlaceAt(v.j, a) ==> InPlaceAt(v.j, b)
    ensures Apart(u, v, b)
  {
    hide InPlaceAt, EndsApart;
  }

  predicate Elsewhere(us: seq<Undoing>, q: Path) {
    forall i :: 0 <= i < |us| ==> !(us[i].j.disk <= q) && !(us[i].row.displacedTo <= q)
  }

  /** Nothing but the rows' own paths differs, and rows are only dropped. */
  ghost predicate OnlyUndone(us: seq<Undoing>, a: Snapshot, b: Snapshot) {
    && (forall q :: Elsewhere(us, q) ==> Get(b.nodes, q) == Get(a.nodes, q))
    && b.rows.Keys <= a.rows.Keys && (forall key :: key in b.rows ==> b.rows[key] == a.rows[key])
    && (forall key :: key in a.rows && key !in b.rows ==> exists i :: 0 <= i < |us| && us[i].j.key == key)
  }

  lemma OneUndone(us: seq<Undoing>, i: nat, h: Snapshot, a: Snapshot, b: Snapshot)
    requires i < |us| && Tree(a.nodes) && Stepped(us[i], a, b) && OnlyUndone(us, h, a)
    ensures OnlyUndone(us, h, b)
  {
    hide Tree, Moved, Displaces;
    forall q | Elsewhere(us, q) ensures Get(b.nodes, q) == Get(h.nodes, q) {
      if b.nodes != a.nodes {
        MovedElsewhere(a.nodes, us[i].row.displacedTo, us[i].j.disk, q);
      }
    }
  }

  lemma NothingUndone(us: seq<Undoing>, h: Snapshot)
    ensures OnlyUndone(us, h, h)
  {
  }

  lemma EachRecoverable(us: seq<Undoing>, h: Snapshot)
    requires Startable(us, h)
    ensures Tree(h.nodes) && forall i :: 0 <= i < |us| ==> Recoverable(us[i], h)
  {
  }

  /** With no row left, nothing is aside. */
  lemma RestsUnrowed(u: Undoing, h: Snapshot)
    requires SafeFrom(u, h) && u.j.key !in h.rows
    ensures Rests(u, h)
  {
  }

  ghost function StartMoment(us: seq<Undoing>): Snapshot -> bool {
    (h: Snapshot) => Startable(us, h)
  }

  lemma MomentsStartable(us: seq<Undoing>, i: nat, a: Snapshot, looks: bool, history: seq<Snapshot>, from: nat)
    requires AllOk(us) && i < |us| && Startable(us, a)
    requires Since(history, from, Moment(us[i], a, looks))
    ensures Since(history, from, StartMoment(us))
  {
    hide Startable, Tree, Recoverable, Stepped, IsAside;
    forall k | from <= k < |history| ensures Startable(us, history[k]) {
      assert Moment(us[i], a, looks)(history[k]);
      StepKeeps(us, i, a, history[k]);
    }
  }

  /** A start over the journal's rows. However many there are, each path that a write's crash left
      holds exactly what was there or what its commit brought, or its row stays and it is reported
      as skipped: never, where no call fails, and nothing else changes. Every moment of the start
      is again one that a start may find, so it may itself be cut short any number of times. */
  method Start(h: Snapshot, us: seq<Undoing>, faultless: bool, mounts: set<Path>) returns (d: Disk)
    requires faultless ==> mounts == {}
    requires AllOk(us) && Startable(us, h)
    ensures fresh(d) && d.Valid() && Startable(us, d.Now())
    ensures forall i :: 0 <= i < |us| && SafeFrom(us[i], h) ==>
              if us[i].j.key in d.rows then SafeFrom(us[i], d.Now()) else Rests(us[i], d.Now())
    ensures faultless ==> forall i :: 0 <= i < |us| ==> us[i].j.key !in d.rows
    ensures OnlyUndone(us, h, d.Now())
    ensures Since(d.history, 0, StartMoment(us))
  {
    hide Startable, Tree, Displaces, WentBack, Since, OnlyUndone, SafeFrom, Recoverable;
    EachRecoverable(us, h);
    d := new Disk(h.nodes, h.rows, true, faultless, mounts);
    SinceNone([], StartMoment(us));
    NothingUndone(us, h);
    for i := 0 to |us|
      invariant fresh(d) && d.Valid() && d.honest && d.faultless == faultless
      invariant Startable(us, d.Now()) && OnlyUndone(us, h, d.Now())
      invariant forall k :: 0 <= k < |us| && SafeFrom(us[k], h) ==> SafeFrom(us[k], d.Now())
      invariant faultless ==> forall k :: 0 <= k < i ==> us[k].j.key !in d.rows
      invariant Since(d.history, 0, StartMoment(us))
    {
      if us[i].j.key in d.rows {
        ghost var a, had := d.Now(), d.history;
        EachRecoverable(us, a);
        var r := UndoRow(d, us[i]);
        MomentsStartable(us, i, a, true, d.history, |had|);
        StepKeeps(us, i, a, d.Now());
        OneUndone(us, i, h, a, d.Now());
        SinceMore([], had, d.history, StartMoment(us));
      }
    }
    forall i | 0 <= i < |us| && SafeFrom(us[i], d.Now()) && us[i].j.key !in d.rows ensures Rests(us[i], d.Now()) {
      RestsUnrowed(us[i], d.Now());
    }
  }

  // One row and all the rest of the disk.

  /** The path holds exactly what was there, or what the commit brought, and the rest of the disk
      is as it was. */
  ghost predicate Settled(j: Job, h: Snapshot, node: Node) {
    Before(j, h) || Landed(j, h, node)
  }

  /** Both the old entry and the new one are there, side by side, and the rest is as it was. */
  ghost predicate Doubled(u: Undoing, h: Snapshot) {
    && Tree(h.nodes) && Others(u.j.was, h.nodes, u.j.disk) && NewOnly(u.j, h.nodes, {u.j.target})
    && SideBySide(u, h)
  }

  lemma LandedAll(u: Undoing, h: Snapshot)
    requires Landed(u.j, h, u.node) && u.j.key in h.rows && h.rows[u.j.key] == u.row && u.j.disk in u.j.was
    ensures PutAside(u.j, h, u.row.displacedTo)
    ensures NewOnly(u.j, h.nodes, {u.j.target} + {u.row.displacedTo})
  {
    hide Others, SameTree, Tree, Holds, NewOnly;
    var place :| PutAside(u.j, h, place) && NewOnly(u.j, h.nodes, {place, u.j.target});
    assert {place, u.j.target} == {u.j.target} + {u.row.displacedTo};
  }

  lemma BackGlobally(u: Undoing, a: Snapshot, m: Nodes)
    requires UndoOk(u) && Safe(u.j, a, u.node) && u.j.key in a.rows && a.rows[u.j.key] == u.row
    requires Displaces(u, a) && WentBack(u, a.nodes, m)
    ensures if LandedFrom(u, a) then Doubled(u, Snapshot(m, a.rows)) else Before(u.j, Snapshot(m, a.rows))
  {
    hide Others, SameTree, Tree, Holds, NewOnly, Moved;
    FreedThere(u, a, m);
    var n, place := a.nodes, u.row.displacedTo;
    if LandedFrom(u, a) {
      assert Landed(u.j, a, u.node);
      LandedAll(u, a);
      MovedTree(n, place, u.j.disk);
      AbsentNotAbove(u.j.was, u.j.disk, place);
      MoveOthers(u.j.was, n, u.j.disk, place, u.j.disk);
      BackNew(u.j, n, place, {u.j.target});
      LandedBack(u, a, m);
    } else {
      assert Aside(u.j, a, place, u.row.temp);
      BackFromAside(u.j, a, place, u.row.temp);
    }
  }

  lemma DropGlobally(j: Job, h: Snapshot, node: Node)
    requires Settled(j, h, node)
    ensures Settled(j, Snapshot(h.nodes, h.rows - {j.key}), node)
  {
    hide Others, SameTree, Tree, Holds, NewOnly;
    var t := Snapshot(h.nodes, h.rows - {j.key});
    if Before(j, h) {
      assert Before(j, t);
    } else {
      if j.disk in j.was {
        var place :| PutAside(j, h, place) && NewOnly(j, h.nodes, {place, j.target});
        assert PutAside(j, t, place);
      }
      assert Landed(j, t, node);
    }
  }

  /** An undo of one row after a write's crash leaves the rest of the disk as it was. */
  lemma SteppedGlobally(u: Undoing, a: Snapshot, b: Snapshot)
    requires UndoOk(u) && Safe(u.j, a, u.node) && u.j.key in a.rows && a.rows[u.j.key] == u.row
    requires Stepped(u, a, b) && Recoverable(u, b)
    ensures if SideBySide(u, b) then Doubled(u, b) else Safe(u.j, b, u.node)
    ensures Rests(u, b) ==> Settled(u.j, b, u.node)
  {
    hide Tree, Holds, Moved, Before, Landed, Aside, Recoverable, Rests, SideBySide, LandedFrom, IsAside, Doubled;
    if b.nodes != a.nodes {
      BackGlobally(u, a, b.nodes);
      var t := Snapshot(b.nodes, a.rows);
      if LandedFrom(u, a) {
        DoubledAlone(u, t, b);
      } else {
        DropGlobally(u.j, t, u.node);
        SettledAlone(u, b);
      }
    } else if Settled(u.j, a, u.node) {
      DropGlobally(u.j, a, u.node);
      SettledAlone(u, b);
    } else {
      AsideOrLanded(u, a, b);
    }
  }

  lemma DoubledAlone(u: Undoing, t: Snapshot, b: Snapshot)
    requires Doubled(u, t) && t.nodes == b.nodes
    ensures Doubled(u, b) && SideBySide(u, b) && !Rests(u, b)
  {
    hide Others, Tree, NewOnly;
    SameRoot(u.j.was, u.j.disk, b.nodes, u.j.disk);
  }

  lemma SettledAlone(u: Undoing, h: Snapshot)
    requires Settled(u.j, h, u.node)
    ensures !SideBySide(u, h)
  {
    hide Others, Tree, NewOnly;
    if SideBySide(u, h) { SameRoot(u.j.was, u.j.disk, h.nodes, u.j.disk); }
  }

  /** Where nothing moved and the row of an entry that was aside may have gone. */
  lemma AsideOrLanded(u: Undoing, a: Snapshot, b: Snapshot)
    requires Safe(u.j, a, u.node) && !Settled(u.j, a, u.node) && u.j.key in a.rows && a.rows[u.j.key] == u.row
    requires b.nodes == a.nodes && (b.rows == a.rows || b.rows == a.rows - {u.j.key}) && Recoverable(u, b)
    ensures !SideBySide(u, b) && Safe(u.j, b, u.node) && (Rests(u, b) ==> Settled(u.j, b, u.node))
  {
    hide Others, Tree, Holds, SameTree;
    var place, temp :| Aside(u.j, a, place, temp);
    if SideBySide(u, b) || InPlaceAt(u.j, b) { SameRoot(u.j.was, u.j.disk, b.nodes, u.j.disk); }
    if u.j.key in b.rows {
      assert Aside(u.j, b, place, temp);
    }
  }

  // A write's crash, and the start after it.

  ghost function SafeMoment(j: Job, node: Node): Snapshot -> bool {
    (h: Snapshot) => Safe(j, h, node)
  }

  lemma MomentsSafe(u: Undoing, a: Snapshot, history: seq<Snapshot>, from: nat)
    requires UndoOk(u) && Safe(u.j, a, u.node) && u.j.key in a.rows && a.rows[u.j.key] == u.row
    requires Since(history, from, Moment(u, a, true))
    ensures Since(history, from, SafeMoment(u.j, u.node))
  {
    hide Tree, Recoverable, Stepped, Safe, SideBySide, IsAside, UndoOk;
    forall k | from <= k < |history| ensures Safe(u.j, history[k], u.node) {
      assert Moment(u, a, true)(history[k]);
      LookedSafe(u, a, history[k]);
    }
  }

  lemma LookedSafe(u: Undoing, a: Snapshot, b: Snapshot)
    requires UndoOk(u) && Safe(u.j, a, u.node) && u.j.key in a.rows && a.rows[u.j.key] == u.row
    requires Stepped(u, a, b) && Recoverable(u, b) && (b.nodes != a.nodes ==> IsAside(u, a))
    ensures Safe(u.j, b, u.node) && (Rests(u, b) ==> Settled(u.j, b, u.node))
  {
    hide Tree, Holds, Moved, Before, Landed, Aside, Recoverable, Rests, LandedAt;
    SteppedGlobally(u, a, b);
    if SideBySide(u, b) {
      if b.nodes != a.nodes {
        SafeTree(u.j, a, u.node);
        AsideBack(u, a, b.nodes);
        NotBeside(u, b);
      } else {
        SafeNotBeside(u, a, b);
      }
    }
  }

  lemma NotBeside(u: Undoing, h: Snapshot)
    requires TargetAsWas(u.j, h.nodes)
    ensures !SideBySide(u, h)
  {
  }

  lemma SafeNotBeside(u: Undoing, a: Snapshot, b: Snapshot)
    requires Safe(u.j, a, u.node) && b.nodes == a.nodes
    ensures !SideBySide(u, b)
  {
    hide Others, Tree, NewOnly;
    if SideBySide(u, b) { SameRoot(u.j.was, u.j.disk, b.nodes, u.j.disk); }
  }

  /** The process died, leaving the disk and the journal as `h`, and starts again: if every moment
      of its write was safe, the path holds exactly what was there or what the commit brought, with
      the rest of the disk as it was, or its row stays open and the path is reported as skipped. It
      is never silently empty, and every moment of the start is as safe. */
  method StartAfter(h: Snapshot, j: Job, node: Node, faultless: bool, mounts: set<Path>)
    returns (d: Disk, r: Resolution)
    requires faultless ==> mounts == {}
    requires JobOk(j) && Safe(j, h, node) && (j.key in h.rows ==> TMP <= h.rows[j.key].temp)
    ensures fresh(d) && d.Valid()
    ensures r.Resolved? ==> Settled(j, d.Now(), node) && j.key !in d.rows
    ensures r.StillOpen? ==> j.key in d.rows && Safe(j, d.Now(), node) && !faultless
    ensures Since(d.history, 0, SafeMoment(j, node))
  {
    hide Tree, Before, Landed, Aside, Since, Stepped, Recoverable, SafeFrom, Rests, IsAside, Safe, Settled;
    SafeTree(j, h, node);
    d := new Disk(h.nodes, h.rows, true, faultless, mounts);
    SinceNone([], SafeMoment(j, node));
    if j.key in h.rows {
      var u := Undoing(j, h.rows[j.key], node);
      SafeRecoverable(j, h, node);
      SafeIsRecoverable(u, h);
      r := UndoRow(d, u);
      MomentsSafe(u, h, d.history, 0);
      LookedSafe(u, h, d.Now());
      if r.Resolved? { RestsUnrowed(u, d.Now()); }
    } else {
      SafeUnrowed(j, h, node);
      r := Resolved;
    }
  }

  lemma SafeTree(j: Job, h: Snapshot, node: Node)
    requires Safe(j, h, node)
    ensures Tree(h.nodes)
  {
  }

  lemma SafeIsRecoverable(u: Undoing, h: Snapshot)
    requires SafeFrom(u, h)
    ensures Recoverable(u, h)
  {
  }

  lemma SafeUnrowed(j: Job, h: Snapshot, node: Node)
    requires Safe(j, h, node) && j.key !in h.rows
    ensures Settled(j, h, node)
  {
  }

  /** Every moment of a write is one the start recovers from. */
  lemma EveryMomentSafe(history: seq<Snapshot>, from: nat, i: nat, j: Job, node: Node)
    requires Since(history, from, Always(j, node, true)) && from <= i < |history|
    ensures Safe(j, history[i], node) && Kept(j, history[i].nodes)
    ensures j.key in history[i].rows ==> SafeFrom(Undoing(j, history[i].rows[j.key], node), history[i])
  {
    hide Safe, Kept, SafeFrom;
    if j.key in history[i].rows {
      SafeRecoverable(j, history[i], node);
    }
  }

  // The running host.

  /** An open entry says what the durable row says. */
  ghost predicate OpenAs(u: Undoing, open: map<RelPath, Open>, h: Snapshot) {
    && u.j.key in open && u.j.key in h.rows
    && (open[u.j.key].Displaced? ==>
          open[u.j.key] == Displaced(u.row.displacedTo, u.j.disk, u.row.temp) && u.row.temp in u.j.spare)
    && (open[u.j.key].Unsynced? ==> u.row.temp !in h.nodes)
  }

  /** Before any commit at the path, and before each scan: the running host resolves its open
      row. An unresolved one stays open, so the path is reported as skipped. `stat` is what the
      look at the temp answered, if it did not find one, and `back` what the rename back did.

      A commit that landed stays so, unless the look at its temp fails with anything but that it
      is gone, what is at the path has another name on disk than it was written by, and the rename
      back succeeds. Then the old entry comes back beside the new one. */
  method ResolveOne(d: Disk, u: Undoing)
    returns (r: Resolution, ghost stat: Option<IoError>, ghost back: Option<IoError>)
    requires d.Valid() && UndoOk(u) && d.honest && SafeFrom(u, d.Now()) && OpenAs(u, d.open, d.Now())
    modifies d`nodes, d`unsynced, d`rows, d`history, d`open
    ensures d.Valid() && Stepped(u, old(d.Now()), d.Now()) && Recoverable(u, d.Now())
    ensures r.Resolved? ==> d.open == old(d.open) - {u.j.key} && (Rests(u, d.Now()) || SideBySide(u, d.Now()))
    ensures r.StillOpen? ==>
              u.j.key in d.open && d.nodes == old(d.nodes) && SafeFrom(u, d.Now()) && OpenAs(u, d.open, d.Now())
    ensures forall k :: k != u.j.key ==>
              (k in d.open <==> k in old(d.open)) && (k in d.open ==> d.open[k] == old(d.open)[k])
    ensures r.Resolved? && old(d.open[u.j.key].Unsynced?) ==>
              SyncedOrGone(old(d.open[u.j.key].dirs), d.nodes, d.unsynced)
    ensures r.Resolved? && old(d.open[u.j.key].Displaced?) && stat == Some(Missing) ==>
              SyncedOrGone([DirOf(u.j.disk), DirOf(u.row.displacedTo)], d.nodes, d.unsynced)
    ensures d.faultless ==> r.Resolved? && !SideBySide(u, d.Now())
    ensures SideBySide(u, d.Now()) <==> old(LandedFrom(u, d.Now()) && d.open[u.j.key].Displaced?)
                                        && stat != Some(Missing) && u.j.disk !in old(d.nodes) && back.None?
    ensures old(LandedFrom(u, d.Now())) ==>
              (LandedFrom(u, d.Now()) <==> old(d.open[u.j.key].Unsynced?) || stat == Some(Missing)
                                           || u.j.disk in old(d.nodes) || u.j.disk == u.j.target || back.Some?)
    ensures old(d.history) <= d.history && Since(d.history, |old(d.history)|, Moment(u, old(d.Now()), false))
  {
    hide Recoverable, Rests, SideBySide, IsAside, LandedFrom, Moved, Tree, Since, Displaces;
    ghost var a := d.Now();
    SinceNone(d.history, Moment(u, a, false));
    OneKind(u, a);
    stat, back := None, None;
    var open := d.open[u.j.key];
    if open.Displaced? {
      var temp, e := d.Lstat(open.temp);
      if temp.None? {
        stat := Some(e);
        if e == Missing {
          open := Unsynced(LandedDirs(u.j.disk, open.now));
          d.open := d.open[u.j.key := open];
        }
      }
    }
    match open {
      case Unsynced(dirs) =>
        var synced := SyncLanded(d, dirs);
        if !synced {
          return StillOpen, stat, back;
        }
        NoWayBack(u, a);
        r := Close(d, u, a, d.history);
      case Displaced(now, from, temp) =>
        if d.faultless { OverOrFree(u, a); }
        var e := d.RenameRefusing(now, from);
        back := e;
        if e.None? {
          BackUnlooked(u, a, d.nodes);
          SinceOne(old(d.history), old(d.history), d.Now(), Moment(u, a, false));
          r := Close(d, u, a, old(d.history));
          if SideBySide(u, d.Now()) { BesideAlone(u, d.Now()); }
        } else if e == Some(Exists) || e == Some(Missing) {
          NoWayBack(u, a);
          r := Close(d, u, a, d.history);
        } else {
          r := StillOpen;
        }
    }
  }

  lemma OneKind(u: Undoing, h: Snapshot)
    requires SafeFrom(u, h)
    ensures Recoverable(u, h) && !SideBySide(u, h) && RowAs(u, h)
    ensures LandedFrom(u, h) ==> u.row.temp !in h.nodes && (u.j.disk == u.j.target ==> u.j.disk in h.nodes)
  {
    if SideBySide(u, h) { BesideAlone(u, h); }
  }

  /** Without a look at the temp, a landed commit's displaced entry can go back too. */
  lemma BackUnlooked(u: Undoing, a: Snapshot, m: Nodes)
    requires UndoOk(u) && Tree(a.nodes) && Tree(m) && u.j.key in a.rows && SafeFrom(u, a)
    requires WentBack(u, a.nodes, m) && u.row.temp in u.j.spare
    ensures u.j.disk !in a.nodes && Stepped(u, a, Snapshot(m, a.rows)) && Moment(u, a, false)(Snapshot(m, a.rows))
    ensures if LandedFrom(u, a) then SideBySide(u, Snapshot(m, a.rows)) else Rests(u, Snapshot(m, a.rows))
    ensures SideBySide(u, Snapshot(m, a.rows)) ==> LandedFrom(u, a) && !LandedFrom(u, Snapshot(m, a.rows))
  {
    hide Tree, Moved, InPlaceAt, IsAside;
    BackFrom(u, a, m);
    if LandedFrom(u, a) {
      BesideAlone(u, Snapshot(m, a.rows));
    } else {
      OneKind(u, Snapshot(m, a.rows));
    }
  }

  /** The row is dropped at once, and the path is open no more even if that fails: the report
      carries the row's removal. */
  method Close(d: Disk, u: Undoing, ghost a: Snapshot, ghost start: seq<Snapshot>) returns (r: Resolution)
    requires d.Valid() && u.j.key in d.rows && Stepped(u, a, d.Now()) && d.rows == a.rows
    requires RowAs(u, d.Now()) && (Rests(u, d.Now()) || SideBySide(u, d.Now()))
    requires start <= d.history && Since(d.history, |start|, Moment(u, a, false))
    modifies d`rows, d`history, d`open
    ensures d.Valid() && r.Resolved? && d.open == old(d.open) - {u.j.key}
    ensures Stepped(u, a, d.Now()) && Recoverable(u, d.Now())
    ensures SideBySide(u, d.Now()) == old(SideBySide(u, d.Now()))
    ensures old(Rests(u, d.Now())) ==> Rests(u, d.Now())
    ensures old(LandedFrom(u, d.Now())) ==> LandedFrom(u, d.Now())
    ensures start <= d.history && Since(d.history, |start|, Moment(u, a, false))
  {
    hide Rests, Tree, Since, IsAside, Moved, Displaces, LandedFrom, Holds;
    d.open := d.open - {u.j.key};
    ghost var h, had := d.Now(), d.history;
    RowsFewer(u, h, u.j.key);
    var e := d.DropRow(u.j.key);
    if e.None? {
      SinceOne(start, had, d.Now(), Moment(u, a, false));
    }
    r := Resolved;
  }

  /** The move back without a look at the temp, and all the rest of the disk: a commit that had
      not landed is undone; one that had, under another name, keeps what it brought, and what was
      at the path comes back beside it. */
  lemma MovedBackAnyway(u: Undoing, a: Snapshot, m: Nodes)
    requires UndoOk(u) && Safe(u.j, a, u.node) && u.j.key in a.rows && a.rows[u.j.key] == u.row
    requires u.row.temp in u.j.spare && WentBack(u, a.nodes, m)
    ensures if Landed(u.j, a, u.node)
            then Doubled(u, Snapshot(m, a.rows)) && Holds(m, u.j.target, u.node) && u.j.target != u.j.disk
            else Before(u.j, Snapshot(m, a.rows))
  {
    hide Others, SameTree, Tree, Holds, NewOnly, Moved, Before, Landed, Aside, Recoverable, Rests;
    SafeTree(u.j, a, u.node);
    SafeRecoverable(u.j, a, u.node);
    SafeKinds(u, a);
    BackFrom(u, a, m);
    BackGlobally(u, a, m);
  }

  lemma SafeKinds(u: Undoing, a: Snapshot)
    requires Safe(u.j, a, u.node) && u.j.key in a.rows && a.rows[u.j.key] == u.row
    ensures LandedFrom(u, a) && u.j.target != u.j.disk ==> Landed(u.j, a, u.node)
    ensures Landed(u.j, a, u.node) ==> LandedFrom(u, a)
  {
    hide Others, SameTree, Tree, NewOnly;
    SafeRecoverable(u.j, a, u.node);
  }

  lemma OpenStays(u: Undoing, v: Undoing, open: map<RelPath, Open>, now: map<RelPath, Open>, a: Snapshot, b: Snapshot)
    requires UndoOk(u) && UndoOk(v) && Tree(a.nodes) && u.j.key != v.j.key && Stepped(v, a, b)
    requires OpenAs(u, open, a) && u.j.key in now && now[u.j.key] == open[u.j.key]
    ensures OpenAs(u, now, b)
  {
    hide Moved, Tree, Displaces, UndoOk, JobOk;
    if b.nodes != a.nodes {
      FreedThere(v, a, b.nodes);
      assert TMP <= u.row.temp by { TempUnderTmp(u); }
      TempStays(v, a.nodes, u.row.temp);
    }
  }

  lemma TempUnderTmp(u: Undoing)
    requires UndoOk(u)
    ensures TMP <= u.row.temp
  {
  }

  /** Where the running host's resolving has got to: `i` rows have been seen to. */
  ghost predicate ResolvedTo(us: seq<Undoing>, i: nat, open: map<RelPath, Open>, h: Snapshot, faultless: bool) {
    && (forall k :: 0 <= k < |us| ==>
          if us[k].j.key in open then SafeFrom(us[k], h) && OpenAs(us[k], open, h)
          else Rests(us[k], h) || SideBySide(us[k], h))
    && (forall k :: i <= k < |us| ==> us[k].j.key in open)
    && (faultless ==> forall k :: 0 <= k < i && k < |us| ==> us[k].j.key !in open && Rests(us[k], h))
  }

  lemma ResolvedOneMore(us: seq<Undoing>, i: nat, open: map<RelPath, Open>, now: map<RelPath, Open>,
                        a: Snapshot, b: Snapshot, faultless: bool)
    requires AllOk(us) && i < |us| && Startable(us, a) && Stepped(us[i], a, b)
    requires ResolvedTo(us, i, open, a, faultless)
    requires forall k :: k != us[i].j.key ==> (k in now <==> k in open) && (k in now ==> now[k] == open[k])
    requires forall k :: 0 <= k < |us| && k != i ==> SameKind(us[k], a, b)
    requires if us[i].j.key in now then SafeFrom(us[i], b) && OpenAs(us[i], now, b)
             else Rests(us[i], b) || SideBySide(us[i], b)
    requires faultless ==> us[i].j.key !in now && Rests(us[i], b)
    ensures ResolvedTo(us, i + 1, now, b, faultless)
  {
    hide Tree, Stepped, SafeFrom, Rests, SideBySide, OpenAs, UndoOk, Recoverable;
    forall k | 0 <= k < |us| && k != i
      ensures us[k].j.key != us[i].j.key
      ensures us[k].j.key in now ==> OpenAs(us[k], now, b)
    {
      assert Apart(us[k], us[i], a);
      if us[k].j.key in now {
        OpenStays(us[k], us[i], open, now, a, b);
      }
    }
  }

  lemma AllOpen(us: seq<Undoing>, open: map<RelPath, Open>, h: Snapshot)
    requires forall i :: 0 <= i < |us| ==> OpenAs(us[i], open, h)
    ensures forall i :: 0 <= i < |us| ==> us[i].j.key in open
  {
  }

  /** Before each scan: every open row that can be resolved is, whatever the others do. */
  method ResolveAll(d: Disk, us: seq<Undoing>)
    requires d.Valid() && d.honest && AllOk(us) && Startable(us, d.Now())
    requires forall i :: 0 <= i < |us| ==> SafeFrom(us[i], d.Now()) && OpenAs(us[i], d.open, d.Now())
    modifies d`nodes, d`unsynced, d`rows, d`history, d`open
    ensures d.Valid() && Startable(us, d.Now()) && OnlyUndone(us, old(d.Now()), d.Now())
    ensures forall i :: 0 <= i < |us| ==>
              if us[i].j.key in d.open then SafeFrom(us[i], d.Now()) && OpenAs(us[i], d.open, d.Now())
              else Rests(us[i], d.Now()) || SideBySide(us[i], d.Now())
    ensures d.faultless ==> forall i :: 0 <= i < |us| ==> us[i].j.key !in d.open && Rests(us[i], d.Now())
    ensures old(d.history) <= d.history && Since(d.history, |old(d.history)|, StartMoment(us))
  {
    hide Startable, Tree, Displaces, WentBack, Since, OnlyUndone, SafeFrom, Recoverable, Rests, SideBySide, OpenAs,
         IsAside, LandedFrom, SameKind;
    ghost var was, start := d.Now(), d.history;
    SinceNone(start, StartMoment(us));
    NothingUndone(us, was);
    AllOpen(us, d.open, d.Now());
    for i := 0 to |us|
      invariant d.Valid() && Startable(us, d.Now()) && OnlyUndone(us, was, d.Now())
      invariant ResolvedTo(us, i, d.open, d.Now(), d.faultless)
      invariant start <= d.history && Since(d.history, |start|, StartMoment(us))
    {
      ghost var a, had, open := d.Now(), d.history, d.open;
      var r, stat, back := ResolveOne(d, us[i]);
      MomentsStartable(us, i, a, false, d.history, |had|);
      StepKeeps(us, i, a, d.Now());
      OneUndone(us, i, was, a, d.Now());
      SinceMore(start, had, d.history, StartMoment(us));
      ResolvedOneMore(us, i, open, d.open, a, d.Now(), d.faultless);
    }
  }

  // The input at which a landed commit's path ends up with both entries.

  const FOLDER := map[[] := DIR, [".delocal"] := DIR, TMP := DIR, TRASH := DIR]
  const PLACE := [".delocal", "trash", "x"]
  const TEMP := [".delocal", "tmp", "t"]

  lemma FolderTree(a: Node, b: Node)
    ensures Tree(FOLDER[["old"] := a]) && Tree(FOLDER[["old"] := a][TEMP := b])
  {
    forall p, k | (p in FOLDER || p == ["old"] || p == TEMP) && 0 <= k < |p|
      ensures DirAt(FOLDER[["old"] := a], p[..k])
    {
      assert p[..0] == [];
      assert |p| >= 2 ==> p[..1] == [".delocal"];
      assert |p| == 3 ==> p[..2] == TMP;
    }
    assert forall p :: p in FOLDER[["old"] := a][TEMP := b] ==> p in FOLDER || p == ["old"] || p == TEMP;
  }

  function Full(held: Node, came: Node): Nodes {
    FOLDER[["old"] := held][TEMP := came]
  }

  function TheJob(held: Node): Job {
    Job(FOLDER[["old"] := held], "new", ["old"], ["new"], ToTrash, {TEMP})
  }

  const THE_ROWS: map<RelPath, Row> := map["new" := Row(PLACE, TEMP)]

  /** A write whose path has another name on disk than in the index, decomposed say, about to move
      what is there to the trash, with its temp ready. */
  lemma BeforeBoth(held: Node, came: Node)
    ensures JobOk(TheJob(held)) && Before(TheJob(held), Snapshot(Full(held, came), THE_ROWS))
    ensures Holds(Full(held, came), TEMP, came)
  {
    hide Tree;
    FolderTree(held, came);
    var j, n := TheJob(held), Full(held, came);
    assert Up(j.disk) == [] && Up(j.target) == [];
    forall r ensures Below(j.was, j.disk, r) == Below(n, j.disk, r) {
      assert (j.disk + r)[0] == "old";
    }
    forall r | r != [] ensures Below(n, TEMP, r).None? {
      assert |TEMP + r| > 3;
    }
  }

  lemma BothMoves(held: Node, came: Node)
    ensures var n := Full(held, came);
            var aside := Moved(n, ["old"], PLACE);
            && MayMove(n, ["old"], PLACE) && MayMove(aside, TEMP, ["new"])
            && MayMove(Moved(aside, TEMP, ["new"]), PLACE, ["old"])
  {
    hide Tree, Moved;
    FolderTree(held, came);
    var n := Full(held, came);
    assert Up(PLACE) == TRASH && Up(["new"]) == [] && Up(["old"]) == [];
    assert PLACE[0] == ".delocal" && TEMP[0] == ".delocal" && PLACE[1] == "trash" && TEMP[1] == "tmp";
    var aside := Moved(n, ["old"], PLACE);
    MovedTree(n, ["old"], PLACE);
    MovedElsewhere(n, ["old"], PLACE, TEMP);
    MovedElsewhere(n, ["old"], PLACE, ["new"]);
    MovedElsewhere(n, ["old"], PLACE, []);
    MovedThere(n, ["old"], PLACE, []);
    MovedAway(n, ["old"], PLACE, ["old"]);
    assert PLACE + [] == PLACE && ["old"] + [] == ["old"];
    MovedElsewhere(aside, TEMP, ["new"], PLACE);
    MovedElsewhere(aside, TEMP, ["new"], ["old"]);
    MovedElsewhere(aside, TEMP, ["new"], []);
  }

  /** Whatever the two entries are: a commit landed, and with its temp's stat failing both can come
      to be there. */
  lemma BothCanBe(held: Node, came: Node)
    ensures exists u: Undoing, a: Snapshot, m: Nodes ::
              && u.node == came && UndoOk(u) && Landed(u.j, a, came) && u.j.key in a.rows && a.rows[u.j.key] == u.row
              && u.row.temp in u.j.spare && WentBack(u, a.nodes, m) && Doubled(u, Snapshot(m, a.rows))
  {
    hide Tree, Moved, Before, Aside, Landed, Holds, Doubled, LandedFrom;
    var j, n := TheJob(held), Full(held, came);
    var u := Undoing(j, Row(PLACE, TEMP), came);
    BeforeBoth(held, came);
    BothMoves(held, came);
    var aside := Snapshot(Moved(n, ["old"], PLACE), THE_ROWS);
    AsideStep(j, TEMP, came, true, Snapshot(n, THE_ROWS), PLACE);
    InFromAside(j, aside, PLACE, TEMP, came);
    var a := Snapshot(Moved(aside.nodes, TEMP, ["new"]), THE_ROWS);
    var m := Moved(a.nodes, PLACE, ["old"]);
    assert Safe(j, a, came);
    MovedBackAnyway(u, a, m);
  }
}
