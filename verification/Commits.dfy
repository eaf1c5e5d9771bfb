/** The commit path: a write in two renames behind a journal row, with every step undone or
    recorded when a later one fails. */
module Commits {
  import opened Prelude
  import opened Versions
  import opened Paths
  import opened Entries
  import opened Disks
  import opened DiskStates
  import opened Trash
  import opened CommitStates

  /** A path at or beneath a mount point, or one a commit left empty, is not looked at again for the
      report. */
  datatype Fail = Changed | Local(e: IoError) | OnMount | Blind(reason: IoError) | HoldsIgnored

  /** An error at the path or at a rename's target: the path changed, or a local failure. */
  function ChangedOrLocal(e: IoError): Fail {
    if e == Missing || e == Exists || e == NotEmpty || e == NotADirectory then Changed else Local(e)
  }

  /** Only an error that says the path is not as it was found reads as a change; an error of the
      trash's own directories never does. */
  lemma ErrorsMean(e: IoError)
    ensures ChangedOrLocal(e) == (if e in {Missing, Exists, NotEmpty, NotADirectory} then Changed else Local(e))
    ensures ChangedOrLocal(OwnTrouble(e)).Local? && (ChangedOrLocal(e).Local? ==> OwnTrouble(e) == e)
  {
  }

  datatype Found = Nothing | MissingFrom(first: nat) | Unreachable | TakenBy | Entry(seen: Observed)

  function SeenIn(found: Found): Option<Observed> {
    match found case Entry(seen) => Some(seen) case _ => None
  }

  /** What the engine expected against what is there. */
  predicate Guard(expected: Option<Observed>, seen: Option<Observed>) {
    match (expected, seen)
    case (None, None) => true
    case (Some(e), Some(s)) => e.UnchangedByStat(s)
    case _ => false
  }

  /** What is at the path is what was expected: no entry, or one that nothing visible tells from it. */
  ghost predicate Meets(expected: Option<Observed>, n: Nodes, disk: Path) {
    match expected
    case None => disk in n ==> n[disk] == Special
    case Some(e) => disk in n && n[disk].Plain? && LooksLike(e, n[disk].o)
  }

  lemma GuardMeets(expected: Option<Observed>, n: Nodes, disk: Path)
    ensures Guard(expected, SeenAt(n, disk)) <==> Meets(expected, n, disk)
  {
    if expected.Some? && SeenAt(n, disk).Some? {
      UnchangedByLooks(expected.value, n[disk].o);
    }
  }

  lemma UnchangedByLooks(was: Observed, seen: Observed)
    ensures was.UnchangedByStat(seen) <==> LooksLike(was, seen)
  {
  }

  /** What `found` says is so. */
  predicate Truly(n: Nodes, disk: Path, found: Found) {
    match found
    case Nothing => disk !in n
    case MissingFrom(first) =>
      1 <= first < |disk| && disk !in n && disk[..first] !in n && (first > 1 ==> DirAt(n, disk[..first - 1]))
    case Unreachable => disk !in n
    case TakenBy => disk in n && n[disk] == Special
    case Entry(seen) => disk in n && n[disk] == Plain(seen)
  }

  lemma NothingBelow(n: Nodes, disk: Path, k: nat)
    requires Tree(n) && 0 < k < |disk| && !DirAt(n, disk[..k])
    ensures disk !in n && !DirAt(n, Up(disk))
  {
    if k < |disk| - 1 { assert Up(disk)[..k] == disk[..k]; }
  }

  /** What a look that meets no trouble has to compare with what is expected. */
  function SeenAt(n: Nodes, disk: Path): Option<Observed> {
    if disk in n && n[disk].Plain? then Some(n[disk].o) else None
  }

  lemma TrulySeen(n: Nodes, disk: Path, found: Found)
    requires Truly(n, disk, found)
    ensures SeenIn(found) == SeenAt(n, disk)
  {
  }

  /** Nothing above the path is in its way. */
  ghost predicate ClearAbove(n: Nodes, disk: Path) {
    DirAt(n, []) && forall k :: 0 <= k < |disk| ==> NoFile(n, disk[..k])
  }

  datatype Walked = Reached | Lost(first: nat) | Barred | Crossed | Unwalked(e: IoError)

  /** Nothing is mounted at a directory above the path, as far down as `len` names. */
  ghost predicate ClearUpTo(mounts: set<Path>, disk: Path, len: nat) {
    forall m :: m in mounts && m != [] && m <= disk ==> |m| >= len
  }

  /** The walk from the root to the path's parent, stopping at a mount point. */
  method Walk(d: Disk, disk: Path) returns (w: Walked)
    requires d.Valid() && disk != []
    ensures w.Lost? || w.Barred? ==> disk !in d.nodes && !DirAt(d.nodes, Up(disk))
    ensures w.Lost? ==> 1 <= w.first < |disk| && disk[..w.first] !in d.nodes
                        && (w.first > 1 ==> DirAt(d.nodes, disk[..w.first - 1]))
    ensures w.Reached? && |disk| > 1 ==> DirAt(d.nodes, Up(disk))
    ensures w.Reached? || w.Lost? ==> ClearUpTo(d.mounts, disk, if w.Lost? then w.first else |disk|)
    ensures w.Crossed? ==> exists m :: m in d.mounts && m != [] && m <= disk && m != disk
    ensures d.faultless ==> !w.Crossed? && !w.Unwalked? && (w.Barred? ==> !ClearAbove(d.nodes, disk))
    ensures DirAt(d.nodes, []) ==>
              (w.Lost? ==> DirAt(d.nodes, disk[..w.first - 1])) && (w.Reached? ==> DirAt(d.nodes, Up(disk)))
  {
    var k := 1;
    assert disk[..0] == [];
    while k < |disk|
      invariant ClearUpTo(d.mounts, disk, k)
      invariant 1 <= k <= |disk| && (DirAt(d.nodes, []) || k > 1 ==> DirAt(d.nodes, disk[..k - 1]))
    {
      assert forall m :: m <= disk && |m| == k ==> m == disk[..k];
      var node, e := d.Lstat(disk[..k]);
      if node.Some? && !node.value.IsDir() {
        NothingBelow(d.nodes, disk, k);
        return Barred;
      }
      if node.None? {
        if e == Missing || e == NotADirectory {
          NothingBelow(d.nodes, disk, k);
          return if e == Missing then Lost(k) else Barred;
        }
        return Unwalked(e);
      }
      if disk[..k] in d.mounts {
        return Crossed;
      }
      k := k + 1;
    }
    w := Reached;
  }

  /** Nothing is mounted above what was found, nor at it if it is a directory. */
  ghost predicate Unmounted(mounts: set<Path>, n: Nodes, disk: Path, found: Found) {
    found.Nothing? || found.MissingFrom? || found.Entry? ==>
      forall m :: m in mounts && m != [] && m <= disk ==> !DirAt(n, m)
  }

  /** What is missing from a depth on is no mounted directory there. */
  lemma MissingUnmounted(mounts: set<Path>, n: Nodes, disk: Path, first: nat)
    requires Tree(n) && 1 <= first <= |disk| && disk[..first] !in n && ClearUpTo(mounts, disk, first)
    ensures forall m :: m in mounts && m != [] && m <= disk ==> !DirAt(n, m)
  {
    forall m | m in mounts && m != [] && m <= disk ensures !DirAt(n, m) {
      assert m == disk[..|m|] && m[..first] == disk[..first];
      NothingUnder(n, disk[..first], m);
    }
  }

  /** The walk to the path's parent, then the path itself. */
  method Look(d: Disk, disk: Path) returns (found: Option<Found>, fail: Fail)
    requires d.Valid() && disk != []
    ensures found.Some? ==> Truly(d.nodes, disk, found.value)
    ensures d.faultless ==> found.Some?
    ensures d.faultless && ClearAbove(d.nodes, disk) ==> !found.value.Unreachable?
    ensures found.Some? && DirAt(d.nodes, []) ==>
              (found.value.MissingFrom? ==> DirAt(d.nodes, disk[..found.value.first - 1]))
              && (found.value.Nothing? ==> DirAt(d.nodes, Up(disk)))
    ensures found == Some(Nothing) && |disk| > 1 ==> DirAt(d.nodes, Up(disk))
    ensures found.Some? ==> Unmounted(d.mounts, d.nodes, disk, found.value)
  {
    fail := Changed;
    var w := Walk(d, disk);
    match w {
      case Lost(first) =>
        MissingUnmounted(d.mounts, d.nodes, disk, first);
        return Some(MissingFrom(first)), fail;
      case Barred => return Some(Unreachable), fail;
      case Crossed => return None, OnMount;
      case Unwalked(e) => return None, Local(e);
      case Reached =>
    }
    assert forall m :: m in d.mounts && m != [] && m <= disk ==> m == disk;
    var node, e := d.Lstat(disk);
    if node.None? {
      if e == Missing || e == NotADirectory {
        return Some(Nothing), fail;
      }
      return None, Local(e);
    }
    match node.value {
      case Special => found := Some(TakenBy);
      case Plain(seen) =>
        if seen.kind == Dir && disk in d.mounts {
          return None, OnMount;
        }
        found := Some(Found.Entry(seen));
    }
  }

  /** What a write renames in. */
  datatype Incoming = FileIn(temp: Path) | LinkIn(link: Path, temp: Path) | DirIn(dir: Path) {
    function At(): Path {
      match this case FileIn(temp) => temp case LinkIn(link, _) => link case DirIn(dir) => dir
    }
  }

  /** The node a write leaves at its path, given the fetched file. */
  function IncomingNode(entry: Entries.Entry, fetched: Observed): Node {
    match entry.kind
    case Dir => DIR
    case File => Plain(fetched.(mtime := entry.mtime, exec := entry.exec))
    case Symlink => Plain(Observed(Symlink, fetched.size, 0, false, entry.hash))
  }

  predicate IsFile(n: Nodes, p: Path) {
    p in n && n[p].Plain? && n[p].o.kind == File
  }

  /** The temps of a write: the fetched file, if it has one, and a fresh name. */
  ghost predicate TempsOk(j: Job, temp: Option<Path>, scratch: Path) {
    && j.spare == {scratch} + (if temp.Some? then {temp.value} else {})
    && TMP <= scratch && scratch != TMP
    && (temp.Some? ==> TMP <= temp.value && temp.value != TMP && !Related(temp.value, scratch))
  }

  /** A file comes in as it was fetched, and anything else as made afresh. */
  predicate Fits(incoming: Incoming, kind: Kind, scratch: Path) {
    match incoming
    case FileIn(_) => kind == File
    case LinkIn(link, _) => kind == Symlink && link == scratch
    case DirIn(dir) => kind == Dir && dir == scratch
  }

  /** What comes in is among the write's temps. */
  predicate TempsOf(incoming: Incoming, j: Job) {
    && incoming.At() in j.spare && incoming.At() != TMP
    && (incoming.LinkIn? ==> incoming.temp in j.spare && incoming.temp != TMP)
  }

  /** What the write is to leave at its path, if the fetched file is there to make it from. */
  ghost predicate Brings(n: Nodes, entry: Entries.Entry, temp: Option<Path>, node: Node) {
    && (entry.kind == Dir ==> node == DIR)
    && (temp.Some? && IsFile(n, temp.value) ==> node == IncomingNode(entry, n[temp.value].o))
  }

  /** Nothing stands in the way of readying what comes in. */
  predicate CanReady(n: Nodes, entry: Entries.Entry, temp: Option<Path>, scratch: Path) {
    && DirAt(n, Up(TMP)) && NoFile(n, TMP) && scratch != [] && Up(scratch) == TMP
    && (entry.kind != Dir ==>
          temp.Some? && IsFile(n, temp.value) && (entry.kind == Symlink ==> n[temp.value].o.hash == entry.hash))
  }

  /** Nothing but temps differs. */
  ghost predicate OnlyTemps(n: Nodes, m: Nodes) {
    forall q :: !(TMP <= q) ==> Get(m, q) == Get(n, q)
  }

  lemma TempsRefl(n: Nodes)
    ensures OnlyTemps(n, n)
  {
  }

  lemma TempsTrans(a: Nodes, b: Nodes, c: Nodes)
    requires OnlyTemps(a, b) && OnlyTemps(b, c)
    ensures OnlyTemps(a, c)
  {
  }

  lemma OnlyTempsMore(a: Nodes, n: Nodes, m: Nodes, p: Path)
    requires OnlyTemps(a, n) && Touched(n, m, p) && TMP <= p
    ensures OnlyTemps(a, m)
  {
  }

  ghost predicate RowBelowTmp(j: Job, rows: map<RelPath, Row>) {
    j.key in rows ==> rows[j.key].temp != TMP
  }

  lemma TouchedBy(n: Nodes, p: Path, node: Node)
    ensures Touched(n, n[p := node], p) && Touched(n, n - {p}, p)
  {
  }

  /** One change among the temps: still before the commit. */
  lemma TempStep(j: Job, h: Snapshot, m: Nodes, p: Path, node: Node, honest: bool,
                 a: seq<Snapshot>, b: seq<Snapshot>)
    requires JobOk(j) && Before(j, h) && Tree(m) && Touched(h.nodes, m, p) && (p in j.spare || p == TMP)
    requires RowBelowTmp(j, h.rows)
    requires a <= b && Since(b, |a|, Always(j, node, honest))
    ensures Before(j, Snapshot(m, h.rows))
    ensures a <= b + [Snapshot(m, h.rows)] && Since(b + [Snapshot(m, h.rows)], |a|, Always(j, node, honest))
  {
    hide Before, Always, Since, Tree, Touched;
    assert j.key in h.rows ==> h.rows[j.key].temp != TMP;
    TempBefore(j, h, m, p);
    BeforeAlways(j, Snapshot(m, h.rows), node, honest);
    SinceOne(a, b, Snapshot(m, h.rows), Always(j, node, honest));
  }

  /** Ready what comes in, touching nothing at the path: a file's mode and mtime set, a symlink or
      an empty directory made among the temps. */
  method Ready(d: Disk, entry: Entries.Entry, temp: Option<Path>, scratch: Path, ghost j: Job, ghost node: Node)
    returns (incoming: Option<Incoming>, e: IoError)
    requires d.Valid() && JobOk(j) && TempsOk(j, temp, scratch) && Before(j, d.Now()) && RowBelowTmp(j, d.rows)
    requires scratch !in d.nodes && Brings(d.nodes, entry, temp, node)
    modifies d`nodes, d`unsynced, d`history
    ensures d.Valid() && Before(j, d.Now())
    ensures old(d.history) <= d.history && Since(d.history, |old(d.history)|, Always(j, node, d.honest))
    ensures incoming.Some? ==> TempsOf(incoming.value, j) && Holds(d.nodes, incoming.value.At(), node)
    ensures OnlyTemps(old(d.nodes), d.nodes)
    ensures incoming.Some? ==> entry.kind == Dir || Fetched(entry, temp, old(d.nodes))
    ensures incoming.Some? ==> Fits(incoming.value, entry.kind, scratch)
    ensures d.faultless && incoming.None? ==> scratch !in d.nodes
    ensures d.faultless && CanReady(old(d.nodes), entry, temp, scratch) ==> incoming.Some?
  {
    hide Before, Always, Since, Tree, Touched, Holds, OnlyTemps;
    TempsRefl(d.nodes);
    SinceNone(d.history, Always(j, node, d.honest));
    if entry.kind == Dir {
      incoming, e := ReadyNew(d, DirIn(scratch), DIR, temp, scratch, j);
      return;
    }
    if temp.None? {
      return None, Trouble;
    }
    var stat, why := d.Lstat(temp.value);
    if stat.None? {
      return None, why;
    }
    if !IsFile(d.nodes, temp.value) {
      return None, Trouble;
    }
    if entry.kind == File {
      incoming, e := ReadyFile(d, entry, temp.value, scratch, j, node);
      return;
    }
    var o := d.nodes[temp.value].o;
    if o.hash != entry.hash {
      return None, Trouble;
    }
    incoming, e := ReadyNew(d, LinkIn(scratch, temp.value), IncomingNode(entry, o), temp, scratch, j);
    if incoming.Some? {
      var unsynced := d.Sync(TMP);
      if unsynced.Some? {
        ghost var made := d.nodes;
        Discard(d, incoming.value, j, node, old(d.history));
        TempsTrans(old(d.nodes), made, d.nodes);
        return None, unsynced.value;
      }
    }
  }

  method ReadyFile(d: Disk, entry: Entries.Entry, temp: Path, scratch: Path, ghost j: Job, ghost node: Node)
    returns (incoming: Option<Incoming>, e: IoError)
    requires d.Valid() && JobOk(j) && TempsOk(j, Some(temp), scratch) && Before(j, d.Now()) && RowBelowTmp(j, d.rows)
    requires IsFile(d.nodes, temp) && node == IncomingNode(entry, d.nodes[temp].o) && entry.kind == File
    modifies d`nodes, d`unsynced, d`history
    ensures d.Valid() && Before(j, d.Now())
    ensures old(d.history) <= d.history && Since(d.history, |old(d.history)|, Always(j, node, d.honest))
    ensures incoming.Some? ==> incoming.value == FileIn(temp) && Holds(d.nodes, temp, node)
    ensures OnlyTemps(old(d.nodes), d.nodes)
    ensures incoming.Some? ==> temp !in d.unsynced
    ensures d.faultless ==> incoming.Some?
  {
    hide Before, Always, Since, Touched, Holds, Tree, OnlyTemps;
    TempsRefl(d.nodes);
    SinceNone(d.history, Always(j, node, d.honest));
    incoming, e := None, Trouble;
    var o := d.nodes[temp].o;
    if o.exec != entry.exec {
      ghost var h, b := d.Now(), d.history;
      var failed := d.SetAttributes(temp, Plain(o.(exec := entry.exec)));
      if failed.Some? { return None, failed.value; }
      TouchedBy(h.nodes, temp, Plain(o.(exec := entry.exec)));
      TempStep(j, h, d.nodes, temp, node, d.honest, old(d.history), b);
      OnlyTempsMore(old(d.nodes), h.nodes, d.nodes, temp);
    }
    ghost var h, b := d.Now(), d.history;
    o := d.nodes[temp].o;
    var failed := d.SetAttributes(temp, Plain(o.(mtime := entry.mtime)));
    if failed.Some? { return None, failed.value; }
    TouchedBy(h.nodes, temp, Plain(o.(mtime := entry.mtime)));
    TempStep(j, h, d.nodes, temp, node, d.honest, old(d.history), b);
    OnlyTempsMore(old(d.nodes), h.nodes, d.nodes, temp);
    var unsynced := d.Sync(temp);
    if unsynced.Some? { return None, unsynced.value; }
    var kept, why := d.Lstat(temp);
    if kept.None? { return None, why; }
    LeafHolds(d.nodes, temp);
    incoming := Some(FileIn(temp));
  }

  lemma LeafHolds(n: Nodes, p: Path)
    requires Tree(n) && p in n && !n[p].IsDir()
    ensures Holds(n, p, n[p])
  {
    forall r | r != [] ensures Below(n, p, r).None? {
      assert (p + r)[..|p|] == p && |p| < |p + r|;
      assert p + r in n ==> DirAt(n, (p + r)[..|p|]);
    }
  }

  /** A symlink or an empty directory, made among the temps. */
  method ReadyNew(d: Disk, what: Incoming, node: Node, temp: Option<Path>, scratch: Path, ghost j: Job)
    returns (incoming: Option<Incoming>, e: IoError)
    requires d.Valid() && JobOk(j) && TempsOk(j, temp, scratch) && Before(j, d.Now()) && RowBelowTmp(j, d.rows)
    requires what.At() == scratch && scratch !in d.nodes
    modifies d`nodes, d`unsynced, d`history
    ensures d.Valid() && Before(j, d.Now())
    ensures old(d.history) <= d.history && Since(d.history, |old(d.history)|, Always(j, node, d.honest))
    ensures incoming.Some? ==> incoming.value == what && Holds(d.nodes, scratch, node)
    ensures OnlyTemps(old(d.nodes), d.nodes)
    ensures d.faultless && incoming.None? ==> scratch !in d.nodes
    ensures d.faultless && DirAt(old(d.nodes), Up(TMP)) && NoFile(old(d.nodes), TMP) && Up(scratch) == TMP ==>
              incoming.Some?
  {
    hide Before, Always, Since, Touched, Holds, OnlyTemps;
    TempsRefl(d.nodes);
    SinceNone(d.history, Always(j, node, d.honest));
    incoming, e := None, Trouble;
    var dir, why := d.Lstat(TMP);
    if dir.Some? && !dir.value.IsDir() { return None, NotADirectory; }
    if dir.None? {
      if why != Missing { return None, why; }
      ghost var h, b := d.Now(), d.history;
      var made := d.CreateDir(TMP);
      if made.Some? && made != Some(Exists) { return None, made.value; }
      if made.None? {
        TouchedBy(h.nodes, TMP, DIR);
        TempStep(j, h, d.nodes, TMP, node, d.honest, old(d.history), b);
        OnlyTempsMore(old(d.nodes), h.nodes, d.nodes, TMP);
      }
    }
    ghost var h, b := d.Now(), d.history;
    var made := d.Create(scratch, node);
    if made.Some? { return None, made.value; }
    TouchedBy(h.nodes, scratch, node);
    TempStep(j, h, d.nodes, scratch, node, d.honest, old(d.history), b);
    OnlyTempsMore(old(d.nodes), h.nodes, d.nodes, scratch);
    FreshHolds(h.nodes, scratch, node);
    incoming := Some(what);
  }

  lemma FreshHolds(n: Nodes, p: Path, node: Node)
    requires Tree(n) && p !in n
    ensures Holds(n[p := node], p, node)
  {
    var m := n[p := node];
    forall r | r != [] ensures Below(m, p, r).None? {
      assert p <= p + r;
      NothingUnder(n, p, p + r);
    }
  }

  /** What was made among the temps is there, and can be removed. */
  ghost predicate CanDrop(incoming: Incoming, n: Nodes) {
    match incoming
    case FileIn(_) => false
    case LinkIn(link, _) => link in n && !n[link].IsDir()
    case DirIn(dir) => IsEmptyDir(n, dir)
  }

  /** After a failure: what the commit made among the temps goes; a fetched file stays. */
  method DropTemp(d: Disk, incoming: Incoming) returns (gone: bool)
    requires d.Valid() && incoming.At() != []
    modifies d`nodes, d`unsynced, d`history
    ensures d.Valid()
    ensures if gone then Touched(old(d.nodes), d.nodes, incoming.At()) && incoming.At() !in d.nodes
                         && d.history == old(d.history) + [d.Now()]
            else d.nodes == old(d.nodes) && d.history == old(d.history)
    ensures d.faultless && CanDrop(incoming, old(d.nodes)) ==> gone
  {
    hide Tree;
    var e := Some(Trouble);
    match incoming {
      case LinkIn(link, _) => e := d.RemoveFile(link);
      case DirIn(dir) => e := d.RemoveDir(dir);
      case FileIn(_) =>
    }
    gone := e.None?;
  }

  /** The commit made it itself, as a directory or as what is none. */
  ghost predicate MadeFor(incoming: Incoming, node: Node) {
    !incoming.FileIn? && node.IsDir() == incoming.DirIn?
  }

  lemma HoldsLeaf(n: Nodes, p: Path, node: Node)
    requires Holds(n, p, node)
    ensures p in n && n[p] == node && (node.IsDir() ==> IsEmptyDir(n, p))
  {
    assert Get(n, p) == Some(node);
    forall q | q in n && p <= q ensures q == p {
      var r := q[|p|..];
      assert q == p + r && (r == [] || Below(n, p, r).None?);
    }
  }

  method Discard(d: Disk, incoming: Incoming, ghost j: Job, ghost node: Node, ghost start: seq<Snapshot>)
    requires d.Valid() && JobOk(j) && Before(j, d.Now()) && RowBelowTmp(j, d.rows)
    requires incoming.At() in j.spare
    requires start <= d.history && Since(d.history, |start|, Always(j, node, d.honest))
    modifies d`nodes, d`unsynced, d`history
    ensures d.Valid() && Before(j, d.Now()) && OnlyTemps(old(d.nodes), d.nodes)
    ensures start <= d.history && Since(d.history, |start|, Always(j, node, d.honest))
    ensures d.faultless && MadeFor(incoming, node) && Holds(old(d.nodes), incoming.At(), node) ==>
              incoming.At() !in d.nodes
  {
    hide Before, Always, Since, Touched, Tree, OnlyTemps, Holds;
    TempsRefl(d.nodes);
    if Holds(d.nodes, incoming.At(), node) { HoldsLeaf(d.nodes, incoming.At(), node); }
    ghost var h, b := d.Now(), d.history;
    var gone := DropTemp(d, incoming);
    if gone {
      OnlyTempsMore(h.nodes, h.nodes, d.nodes, incoming.At());
      TempStep(j, h, d.nodes, incoming.At(), node, d.honest, start, b);
    }
  }

  /** The same where what was displaced stays aside: everything is kept. */
  method DiscardAside(d: Disk, incoming: Incoming, place: Path, ghost j: Job, ghost node: Node,
                      ghost start: seq<Snapshot>)
    requires d.Valid() && JobOk(j) && Aside(j, d.Now(), place, incoming.At()) && !d.honest
    requires start <= d.history && Since(d.history, |start|, Always(j, node, d.honest))
    modifies d`nodes, d`unsynced, d`history
    ensures d.Valid() && Kept(j, d.nodes) && j.disk !in d.nodes
    ensures start <= d.history && Since(d.history, |start|, Always(j, node, d.honest))
  {
    hide Aside, Since, Touched, Tree, Kept, Before, Landed;
    ghost var h, b := d.Now(), d.history;
    EmptyAside(j, h, place, incoming.At());
    AsideKept(j, h, place, incoming.At());
    AsideTemp(j, h, place, incoming.At());
    var gone := DropTemp(d, incoming);
    if gone {
      KeptTouched(j, h.nodes, d.nodes, incoming.At());
      StillEmpty(j, h.nodes, d.nodes, incoming.At());
      SinceOne(start, b, d.Now(), Always(j, node, d.honest));
    }
  }

  lemma EmptyAside(j: Job, h: Snapshot, place: Path, temp: Path)
    requires Aside(j, h, place, temp)
    ensures j.disk !in h.nodes && j.disk in j.was
  {
  }

  lemma StillEmpty(j: Job, n: Nodes, m: Nodes, p: Path)
    requires JobOk(j) && TMP <= p && Touched(n, m, p) && j.disk !in n
    ensures j.disk !in m
  {
    DiskNotTemp(j, p);
    assert Get(m, j.disk) == Get(n, j.disk);
  }

  lemma NotBefore(j: Job, h: Snapshot)
    requires j.disk in j.was && j.disk !in h.nodes
    ensures !Before(j, h)
  {
    if Before(j, h) { StillThere(j, h); }
  }

  lemma AsideTemp(j: Job, h: Snapshot, place: Path, temp: Path)
    requires JobOk(j) && Aside(j, h, place, temp)
    ensures temp in j.spare && TMP <= temp && temp != []
  {
  }

  lemma KeptTouched(j: Job, n: Nodes, m: Nodes, p: Path)
    requires JobOk(j) && Kept(j, n) && TMP <= p && Touched(n, m, p)
    ensures Kept(j, m)
  {
    hide Tree;
    TouchOthers(j.was, n, m, j.disk, p);
    DiskNotTemp(j, p);
    if j.disk in j.was {
      var place :| SameTree(j.was, j.disk, n, place)
                   && (place == j.disk || (IsPlace(j, place) && place !in j.was));
      if place != j.disk { PlaceNotTemp(j, place, p); }
      TouchSame(j.was, j.disk, n, m, place, p);
    }
  }

  // Parents.

  /** A directory above the path, made or removed again. */
  lemma ParentStep(j: Job, h: Snapshot, m: Nodes, k: nat, node: Node, honest: bool,
                   a: seq<Snapshot>, b: seq<Snapshot>)
    requires JobOk(j) && Before(j, h) && Tree(m) && 0 < k < |j.disk|
    requires Touched(h.nodes, m, j.disk[..k]) && j.disk[..k] !in j.was
    requires j.disk[..k] in m ==> m[j.disk[..k]] == DIR
    requires a <= b && Since(b, |a|, Always(j, node, honest))
    ensures Before(j, Snapshot(m, h.rows))
    ensures a <= b + [Snapshot(m, h.rows)] && Since(b + [Snapshot(m, h.rows)], |a|, Always(j, node, honest))
  {
    hide Before, Always, Since, Tree, Touched;
    assert j.disk[..k][0] == j.disk[0];
    assert |j.target| == |j.disk| by { assert |Up(j.target)| == |Up(j.disk)|; }
    NewDirBefore(j, h, m, j.disk[..k]);
    BeforeAlways(j, Snapshot(m, h.rows), node, honest);
    SinceOne(a, b, Snapshot(m, h.rows), Always(j, node, honest));
  }

  /** Directories this commit made above its path: nothing of before. */
  ghost predicate Own(j: Job, made: seq<nat>) {
    forall k :: k in made ==> 0 < k < |j.disk| && j.disk[..k] !in j.was
  }

  /** What is `len` names deep or more is as it was. */
  ghost predicate DeeperSame(a: Nodes, b: Nodes, len: nat) {
    forall q: Path :: |q| >= len ==> Get(b, q) == Get(a, q)
  }

  lemma DeeperTouched(a: Nodes, n: Nodes, m: Nodes, p: Path, len: nat)
    requires DeeperSame(a, n, len) && Touched(n, m, p) && |p| < len
    ensures DeeperSame(a, m, len)
  {
  }

  lemma DeeperMore(a: Nodes, n: Nodes, m: Nodes, p: Path)
    requires DeeperSame(a, n, |p|) && Touched(n, m, p)
    ensures DeeperSame(a, m, |p| + 1)
  {
  }

  lemma DeeperLess(a: Nodes, n: Nodes, len: nat)
    requires DeeperSame(a, n, len)
    ensures DeeperSame(a, n, len + 1)
  {
  }

  /** Of the directories above the path, from `first` to `k`, those that were not there were made. */
  ghost predicate MadeAll(disk: Path, first: nat, k: nat, was: Nodes, made: seq<nat>) {
    k <= |disk| && forall i :: first <= i < k && disk[..i] !in was ==> i in made
  }

  lemma NoneMade(disk: Path, first: nat, was: Nodes)
    requires first <= |disk|
    ensures MadeAll(disk, first, first, was, [])
  {
  }

  lemma MadeOne(disk: Path, first: nat, k: nat, was: Nodes, made: seq<nat>)
    requires MadeAll(disk, first, k, was, made) && k < |disk|
    ensures MadeAll(disk, first, k + 1, was, made + [k])
  {
  }

  lemma FoundOne(disk: Path, first: nat, k: nat, was: Nodes, n: Nodes, made: seq<nat>)
    requires MadeAll(disk, first, k, was, made) && k < |disk| && DeeperSame(was, n, k + 1) && DirAt(n, disk[..k])
    requires Get(n, disk[..k]) == Get(was, disk[..k])
    ensures MadeAll(disk, first, k + 1, was, made)
  {
  }

  lemma DeeperAt(a: Nodes, n: Nodes, p: Path)
    requires DeeperSame(a, n, |p|)
    ensures Get(n, p) == Get(a, p)
  {
  }

  lemma DeeperTrans(a: Nodes, n: Nodes, m: Nodes, few: nat, len: nat)
    requires DeeperSame(a, n, few) && DeeperSame(n, m, len) && few <= len
    ensures DeeperSame(a, m, len)
  {
  }

  lemma ClearAt(was: Nodes, n: Nodes, disk: Path, k: nat)
    requires ClearAbove(was, disk) && DeeperSame(was, n, k) && k < |disk|
    ensures NoFile(n, disk[..k])
  {
    assert NoFile(was, disk[..k]);
    assert Get(n, disk[..k]) == Get(was, disk[..k]);
  }

  lemma NothingMade(j: Job, n: Nodes, k: nat)
    ensures Own(j, []) && SameTemps(j, n, n) && DeeperSame(n, n, k)
  {
  }

  lemma OwnMore(j: Job, made: seq<nat>, k: nat)
    requires Own(j, made) && 0 < k < |j.disk| && j.disk[..k] !in j.was
    ensures Own(j, made + [k])
  {
  }

  lemma TempsSame(j: Job, a: Nodes, b: Nodes, c: Nodes)
    requires SameTemps(j, a, b) && SameTemps(j, b, c)
    ensures SameTemps(j, a, c)
  {
  }

  /** One directory above the path: made, or found to be one. */
  method MakeParent(d: Disk, k: nat, j: Job, ghost node: Node, ghost start: seq<Snapshot>)
    returns (isNew: bool, fail: Option<Fail>)
    requires d.Valid() && JobOk(j) && Before(j, d.Now()) && 0 < k < |j.disk|
    requires start <= d.history && Since(d.history, |start|, Always(j, node, d.honest))
    modifies d`nodes, d`unsynced, d`history
    ensures d.Valid() && Before(j, d.Now()) && SameTemps(j, old(d.nodes), d.nodes)
    ensures start <= d.history && Since(d.history, |start|, Always(j, node, d.honest))
    ensures if isNew then Touched(old(d.nodes), d.nodes, j.disk[..k]) && j.disk[..k] !in j.was
            else d.nodes == old(d.nodes)
    ensures fail.None? ==> DirAt(d.nodes, j.disk[..k])
    ensures fail.Some? ==> !isNew && (d.faultless ==> fail == Some(Changed))
    ensures d.faultless && DirAt(old(d.nodes), j.disk[..k - 1]) && NoFile(old(d.nodes), j.disk[..k]) ==> fail.None?
  {
    hide Before, Always, Since, Tree, Touched, SameTemps, JobOk;
    ghost var h, b := d.Now(), d.history;
    assert Up(j.disk[..k]) == j.disk[..k - 1];
    assert SameTemps(j, d.nodes, d.nodes) by { NothingMade(j, d.nodes, 0); }
    isNew, fail := false, None;
    var e := d.CreateDir(j.disk[..k]);
    if e.None? {
      TouchedBy(h.nodes, j.disk[..k], DIR);
      NotOfBefore(j, h, k);
      ParentStep(j, h, d.nodes, k, node, d.honest, start, b);
      ParentKeepsTemps(j, h.nodes, h.nodes, d.nodes, k);
      isNew := true;
    } else if e == Some(Exists) {
      var stat, why := d.Lstat(j.disk[..k]);
      if stat.None? || !stat.value.IsDir() {
        fail := Some(Changed);
      }
    } else {
      fail := Some(ChangedOrLocal(e.value));
    }
  }

  /** Make the directories from the first missing one down to the path's parent. */
  method MakeParents(d: Disk, first: nat, j: Job, ghost node: Node)
    returns (made: seq<nat>, fail: Option<Fail>)
    requires d.Valid() && JobOk(j) && Before(j, d.Now()) && 1 <= first < |j.disk|
    modifies d`nodes, d`unsynced, d`history
    ensures d.Valid() && Before(j, d.Now()) && Own(j, made) && SameTemps(j, old(d.nodes), d.nodes)
    ensures old(d.history) <= d.history && Since(d.history, |old(d.history)|, Always(j, node, d.honest))
    ensures DeeperSame(old(d.nodes), d.nodes, |j.disk|)
    ensures fail.None? ==> MadeAll(j.disk, first, |j.disk|, old(d.nodes), made)
    ensures d.faultless && fail.Some? ==> fail == Some(Changed)
    ensures old(NoneMine(j, d.nodes)) ==>
              if fail.None? then AllMine(j, d.nodes, made, |j.disk|) else d.faultless ==> NoneMine(j, d.nodes)
    ensures d.faultless && DirAt(old(d.nodes), j.disk[..first - 1])
            && ClearAbove(old(d.nodes), j.disk) ==>
              fail.None? && DirAt(d.nodes, Up(j.disk))
  {
    hide Before, Always, Since, Tree, Touched, Own, SameTemps, DeeperSame, ClearAbove, JobOk, ChangedOrLocal, MadeAll,
         AllMine, NoneMine, DirAt;
    ghost var mine := NoneMine(j, d.nodes);
    if mine { MineStart(j, d.nodes, first); }
    assert MadeAll(j.disk, first, first, d.nodes, []) by { NoneMade(j.disk, first, d.nodes); }
    ghost var plain := d.faultless && DirAt(d.nodes, j.disk[..first - 1]) && ClearAbove(d.nodes, j.disk);
    NothingMade(j, d.nodes, first);
    SinceNone(d.history, Always(j, node, d.honest));
    made, fail := [], None;
    var k := first;
    while k < |j.disk|
      invariant 1 <= k <= |j.disk| && d.Valid() && Before(j, d.Now()) && Own(j, made)
      invariant SameTemps(j, old(d.nodes), d.nodes)
      invariant old(d.history) <= d.history && Since(d.history, |old(d.history)|, Always(j, node, d.honest))
      invariant DeeperSame(old(d.nodes), d.nodes, k)
      invariant first <= k && (plain ==> DirAt(d.nodes, j.disk[..k - 1]))
      invariant MadeAll(j.disk, first, k, old(d.nodes), made)
      invariant mine ==> AllMine(j, d.nodes, made, k)
    {
      ghost var n := d.nodes;
      DeeperAt(old(d.nodes), n, j.disk[..k]);
      if plain { ClearAt(old(d.nodes), n, j.disk, k); }
      var isNew, stopped := MakeParent(d, k, j, node, old(d.history));
      TempsSame(j, old(d.nodes), n, d.nodes);
      if stopped.Some? {
        ghost var m := d.nodes;
        fail := stopped;
        if mine { MineBound(j, m, made, k); }
        UndoParents(d, made, j, node, old(d.history));
        TempsSame(j, old(d.nodes), m, d.nodes);
        DeeperTrans(old(d.nodes), m, d.nodes, k, |j.disk|);
        NothingMade(j, d.nodes, first);
        made := [];
        return;
      }
      if isNew {
        DeeperMore(old(d.nodes), n, d.nodes, j.disk[..k]);
        if mine { MineMore(j, n, d.nodes, made, k); }
        OwnMore(j, made, k);
        MadeOne(j.disk, first, k, old(d.nodes), made);
        made := made + [k];
      } else {
        DeeperLess(old(d.nodes), d.nodes, k);
        if mine { MineDeeper(j, n, made, k); }
        FoundOne(j.disk, first, k, old(d.nodes), d.nodes, made);
      }
      k := k + 1;
    }
  }

  lemma NotOfBefore(j: Job, h: Snapshot, k: nat)
    requires JobOk(j) && Before(j, h) && 0 < k < |j.disk| && j.disk[..k] !in h.nodes
    ensures j.disk[..k] !in j.was
  {
    assert j.disk[..k][0] == j.disk[0];
    FreeNotInWas(j, h, j.disk[..k]);
  }

  /** The commit's temps are as they were. */
  ghost predicate SameTemps(j: Job, n: Nodes, m: Nodes) {
    forall p :: TMP <= p ==> Get(n, p) == Get(m, p)
  }

  lemma ParentKeepsTemps(j: Job, a: Nodes, n: Nodes, m: Nodes, k: nat)
    requires JobOk(j) && SameTemps(j, a, n) && 0 < k < |j.disk| && Touched(n, m, j.disk[..k])
    ensures SameTemps(j, a, m)
  {
    assert j.disk[..k][0] == j.disk[0];
  }

  /** Remove what this commit made above its path, lowest first; what is not empty stays. */
  method UndoParents(d: Disk, made: seq<nat>, j: Job, ghost node: Node, ghost start: seq<Snapshot>)
    requires d.Valid() && JobOk(j) && Before(j, d.Now()) && Own(j, made)
    requires start <= d.history && Since(d.history, |start|, Always(j, node, d.honest))
    modifies d`nodes, d`unsynced, d`history
    ensures d.Valid() && Before(j, d.Now()) && SameTemps(j, old(d.nodes), d.nodes)
    ensures DeeperSame(old(d.nodes), d.nodes, |j.disk|)
    ensures start <= d.history && Since(d.history, |start|, Always(j, node, d.honest))
    ensures d.faultless && old(AllMine(j, d.nodes, made, |j.disk|)) ==> NoneMine(j, d.nodes)
    ensures forall q :: q in d.nodes ==> q in old(d.nodes)
  {
    hide Before, Always, Since, Tree, Touched, AllMine;
    ghost var mine := d.faultless && AllMine(j, d.nodes, made, |j.disk|);
    var i := |made|;
    assert made[..|made|] == made;
    while i > 0
      invariant DeeperSame(old(d.nodes), d.nodes, |j.disk|)
      invariant 0 <= i <= |made| && (mine ==> AllMine(j, d.nodes, made[..i], |j.disk|))
      invariant forall q :: q in d.nodes ==> q in old(d.nodes)
      invariant d.Valid() && Before(j, d.Now()) && SameTemps(j, old(d.nodes), d.nodes)
      invariant start <= d.history && Since(d.history, |start|, Always(j, node, d.honest))
    {
      i := i - 1;
      assert made[i] in made;
      ghost var h, b := d.Now(), d.history;
      if mine { MineEmpty(j, h, made, i, |j.disk|); }
      var e := d.RemoveDir(j.disk[..made[i]]);
      if mine { MineFewer(j, h.nodes, d.nodes, made, i, |j.disk|); }
      if e.None? {
        TouchedBy(h.nodes, j.disk[..made[i]], DIR);
        ParentStep(j, h, d.nodes, made[i], node, d.honest, start, b);
        ParentKeepsTemps(j, old(d.nodes), h.nodes, d.nodes, made[i]);
        DeeperTouched(old(d.nodes), h.nodes, d.nodes, j.disk[..made[i]], |j.disk|);
      }
    }
    if mine { MineDone(j, d.nodes, made); }
  }

  lemma MineDone(j: Job, n: Nodes, made: seq<nat>)
    requires AllMine(j, n, made[..0], |j.disk|)
    ensures NoneMine(j, n)
  {
  }

  /** Of the directories above the path, those that are there and were not before are among `made`,
      which lists them from the top down to depth `k`. */
  ghost predicate AllMine(j: Job, n: Nodes, made: seq<nat>, k: nat) {
    && (forall a, b :: 0 <= a < b < |made| ==> made[a] < made[b])
    && (forall a :: 0 <= a < |made| ==> made[a] < k)
    && (forall m: nat {:trigger j.disk[..m]} :: 0 < m < |j.disk| && j.disk[..m] in n && j.disk[..m] !in j.was ==>
          m in made)
  }

  ghost predicate NoneMine(j: Job, n: Nodes) {
    AllMine(j, n, [], 0)
  }

  lemma MineSame(j: Job, n: Nodes, m: Nodes, made: seq<nat>, k: nat)
    requires JobOk(j) && AllMine(j, n, made, k) && OnlyTemps(n, m)
    ensures AllMine(j, m, made, k)
  {
    forall i: nat | 0 < i < |j.disk| ensures Get(m, j.disk[..i]) == Get(n, j.disk[..i]) {
      assert j.disk[..i][0] == j.disk[0];
    }
  }

  lemma NoneSame(j: Job, n: Nodes, m: Nodes)
    requires JobOk(j) && NoneMine(j, n) && OnlyTemps(n, m)
    ensures NoneMine(j, m)
  {
    hide AllMine;
    MineSame(j, n, m, [], 0);
  }

  lemma MineAtFirst(j: Job)
    ensures NoneMine(j, j.was)
  {
  }

  lemma MineMore(j: Job, n: Nodes, m: Nodes, made: seq<nat>, k: nat)
    requires AllMine(j, n, made, k) && k < |j.disk| && Touched(n, m, j.disk[..k])
    ensures AllMine(j, m, made + [k], k + 1)
  {
    forall i: nat | 0 < i < |j.disk| && i != k ensures Get(m, j.disk[..i]) == Get(n, j.disk[..i]) {
      assert |j.disk[..i]| != |j.disk[..k]|;
    }
    forall i: nat | 0 < i < |j.disk| && j.disk[..i] in m && j.disk[..i] !in j.was ensures i in made + [k] {
      if i != k { assert i in made; }
    }
  }

  lemma MineStart(j: Job, n: Nodes, k: nat)
    requires NoneMine(j, n)
    ensures AllMine(j, n, [], k)
  {
  }

  lemma MineBound(j: Job, n: Nodes, made: seq<nat>, k: nat)
    requires AllMine(j, n, made, k) && k <= |j.disk|
    ensures AllMine(j, n, made, |j.disk|)
  {
  }

  lemma MineDeeper(j: Job, n: Nodes, made: seq<nat>, k: nat)
    requires AllMine(j, n, made, k)
    ensures AllMine(j, n, made, k + 1)
  {
  }

  /** The lowest of the directories a commit made holds nothing, and can be removed. */
  lemma MineEmpty(j: Job, h: Snapshot, made: seq<nat>, i: nat, k: nat)
    requires JobOk(j) && Before(j, h) && Own(j, made) && i < |made| && made[i] <= |j.disk|
    requires AllMine(j, h.nodes, made[..i + 1], k)
    ensures j.disk[..made[i]] in h.nodes ==> IsEmptyDir(h.nodes, j.disk[..made[i]])
  {
    hide Others, SameTree;
    var p := j.disk[..made[i]];
    assert made[i] in made;
    if p in h.nodes {
      assert HostsOwn(j, p, h.nodes[p]) && p[0] == j.disk[0];
      forall q | q in h.nodes && p <= q ensures q == p {
        NothingUnder(j.was, p, q);
        assert HostsOwn(j, q, h.nodes[q]) && q[0] == j.disk[0];
        assert q == j.disk[..|q|];
        assert |q| in made[..i + 1];
      }
    }
  }

  lemma MineFewer(j: Job, n: Nodes, m: Nodes, made: seq<nat>, i: nat, k: nat)
    requires i < |made| && made[i] <= |j.disk| && AllMine(j, n, made[..i + 1], k)
    requires j.disk[..made[i]] !in m && (forall q :: q in m ==> q in n)
    ensures AllMine(j, m, made[..i], k)
  {
    forall x: nat | 0 < x < |j.disk| && j.disk[..x] in m && j.disk[..x] !in j.was ensures x in made[..i] {
      assert x in made[..i + 1];
      var a :| 0 <= a < i + 1 && made[..i + 1][a] == x;
      assert a < i ==> made[..i][a] == x;
    }
    forall a, b | 0 <= a < b < i ensures made[..i][a] < made[..i][b] {
      assert made[..i + 1][a] < made[..i + 1][b];
    }
    forall a | 0 <= a < i ensures made[..i][a] < k {
      assert made[..i + 1][a] < k;
    }
  }

  // Displacing.

  /** Before a displacement: the old entry in place, and what comes in ready at `temp`. */
  ghost function AboutToMove(j: Job, temp: Path, node: Node): Snapshot -> bool {
    (h: Snapshot) => Before(j, h) && j.disk in h.nodes && Holds(h.nodes, temp, node)
  }

  lemma GrowStep(j: Job, temp: Path, node: Node, h: Snapshot, q: Path)
    requires JobOk(j) && temp in j.spare && AboutToMove(j, temp, node)(h) && TRASH <= q && MayCreate(h.nodes, q)
    ensures AboutToMove(j, temp, node)(Snapshot(h.nodes[q := DIR], h.rows))
  {
    hide Before, Holds, Tree, Touched;
    var m := h.nodes[q := DIR];
    BeforeTree(j, h);
    Created(h.nodes, q, DIR);
    TouchedBy(h.nodes, q, DIR);
    DiskNotTemp(j, q);
    TrashNotTemp(q, temp);
    assert q[0] == ".delocal";
    FreeNotInWas(j, h, q);
    NewDirBefore(j, h, m, q);
    TouchHolds(h.nodes, m, temp, q, node);
  }

  lemma BeforeTree(j: Job, h: Snapshot)
    requires Before(j, h)
    ensures Tree(h.nodes)
  {
  }

  lemma TrashNotTemp(q: Path, temp: Path)
    requires TRASH <= q
    ensures !(TMP <= q) && (TMP <= temp ==> !(temp <= q))
  {
    assert q[1] == "trash";
  }

  lemma RowBefore(j: Job, h: Snapshot, row: Row)
    requires Before(j, h) && j.disk in h.nodes
    ensures Before(j, Snapshot(h.nodes, h.rows[j.key := row]))
  {
    hide Others, SameTree, Tree;
  }

  lemma AsideStep(j: Job, temp: Path, node: Node, honest: bool, h: Snapshot, to: Path)
    requires JobOk(j) && j.disk in j.was && temp in j.spare && AboutToMove(j, temp, node)(h) && IsPlace(j, to)
    requires MayMove(h.nodes, j.disk, to) && j.key in h.rows && h.rows[j.key] == Row(to, temp)
    ensures Aside(j, Snapshot(Moved(h.nodes, j.disk, to), h.rows), to, temp)
    ensures Holds(Moved(h.nodes, j.disk, to), temp, node)
    ensures Always(j, node, honest)(Snapshot(Moved(h.nodes, j.disk, to), h.rows))
  {
    hide Before, Tree, Moved, Aside, Always;
    BeforeTree(j, h);
    assert temp in h.nodes by { assert Get(h.nodes, temp) == Some(node); }
    DisplacedAside(j, h, to, temp);
    AsideAlways(j, Snapshot(Moved(h.nodes, j.disk, to), h.rows), to, temp, node, honest);
    HoldsElsewhere(j, h.nodes, to, temp, node);
  }

  lemma HoldsElsewhere(j: Job, n: Nodes, to: Path, temp: Path, node: Node)
    requires JobOk(j) && Tree(n) && MayMove(n, j.disk, to) && IsPlace(j, to) && temp in j.spare && Holds(n, temp, node)
    ensures Holds(Moved(n, j.disk, to), temp, node)
  {
    hide Moved, Tree;
    var m := Moved(n, j.disk, to);
    DiskNotTemp(j, temp);
    TempElsewhere(j, to, temp);
    MovedElsewhere(n, j.disk, to, temp);
    forall r | r != [] ensures Below(m, temp, r).None? {
      if j.disk <= temp + r { Comparable(j.disk, temp, r); }
      if to <= temp + r { Comparable(to, temp, r); }
      MovedElsewhere(n, j.disk, to, temp + r);
      assert Below(n, temp, r).None?;
    }
  }

  lemma TrashRules(j: Job, o: Original, kind: Kind, temp: Path, node: Node, honest: bool)
    requires JobOk(j) && j.displace.ToTrash? && j.disk in j.was && temp in j.spare
    ensures Grows(AboutToMove(j, temp, node), Always(j, node, honest))
    ensures Moves(j.disk, o, kind, Some(Journal(j.key, temp)), AboutToMove(j, temp, node), Always(j, node, honest))
  {
    hide Before, Holds, Tree, Always, Moved, PlaceFor;
    var I, J := AboutToMove(j, temp, node), Always(j, node, honest);
    forall h | I(h) ensures J(h) {
      BeforeAlways(j, h, node, honest);
    }
    forall h, q | I(h) && TRASH <= q && MayCreate(h.nodes, q) ensures I(Snapshot(h.nodes[q := DIR], h.rows)) {
      GrowStep(j, temp, node, h, q);
    }
    forall h, to | I(h) && TRASH <= to ensures I(Snapshot(h.nodes, h.rows[j.key := Row(to, temp)])) {
      RowBefore(j, h, Row(to, temp));
    }
    var journal := Some(Journal(j.key, temp));
    forall h, to | I(h) && PlaceFor(to, o, kind) && MayMove(h.nodes, j.disk, to) && RowFor(h, journal, to)
      ensures J(Snapshot(Moved(h.nodes, j.disk, to), h.rows))
    {
      PlaceLength(to, o, kind);
      AsideStep(j, temp, node, honest, h, to);
    }
  }

  /** Where the commit is to send what is at its path is free. */
  ghost predicate SpotFree(j: Job, o: Original, n: Nodes) {
    match j.displace
    case ToTrash => PlainlyFree(n, o)
    case ToCopy(to) => to !in n
  }

  lemma CopyMay(j: Job, n: Nodes, to: Path)
    requires JobOk(j) && j.displace == ToCopy(to) && Tree(n) && j.disk in n
    ensures to !in n ==> MayMove(n, j.disk, to)
  {
    Siblings(j.disk, to);
    assert j.disk[..|j.disk| - 1] == Up(j.disk);
  }

  /** No disk is mounted inside the directory. */
  ghost predicate NoMountIn(mounts: set<Path>, dir: Path) {
    forall m :: m in mounts ==> !(dir <= m && m != dir)
  }

  /** Move what is at the path aside, behind its durable journal row. */
  method SetAside(d: Disk, seen: Observed, o: Original, temp: Path, j: Job, ghost node: Node)
    returns (place: Option<Path>, fail: Fail)
    requires d.Valid() && JobOk(j) && j.disk in j.was && temp in j.spare
    requires AboutToMove(j, temp, node)(d.Now()) && RowBelowTmp(j, d.rows) && temp != TMP
    modifies d`nodes, d`unsynced, d`rows, d`history
    ensures RowBelowTmp(j, d.rows)
    ensures d.Valid() && old(d.history) <= d.history && Since(d.history, |old(d.history)|, Always(j, node, d.honest))
    ensures place.Some? ==> Aside(j, d.Now(), place.value, temp) && Holds(d.nodes, temp, node)
    ensures place.None? ==> AboutToMove(j, temp, node)(d.Now())
    ensures place.Some? ==> match j.displace
                            case ToTrash => PlaceFor(place.value, o, seen.kind)
                            case ToCopy(to) => place.value == to
    ensures place.Some? && seen.kind == Dir ==> NoMountIn(d.mounts, j.disk)
    ensures d.faultless && SpotFree(j, o, old(d.nodes)) ==> place.Some?
  {
    hide Before, Holds, Tree, Always, Since, Moved, Aside, Grows, Moves, RowsKept, Grown, PlaceFor, PlainlyFree;
    assert PlainPlace(o)[0] == ".delocal";
    SinceNone(d.history, Always(j, node, d.honest));
    if seen.kind == Dir {
      var mounted, e := d.MountedBeneath(j.disk);
      if e.Some? {
        return None, ChangedOrLocal(e.value);
      }
      if mounted {
        return None, Local(Trouble);
      }
    }
    match j.displace {
      case ToTrash =>
        TrashRules(j, o, seen.kind, temp, node, d.honest);
        ghost var rows := d.rows;
        var moved, rowed, before := MoveIn(d, j.disk, o, seen.kind, Some(Journal(j.key, temp)),
                                           AboutToMove(j, temp, node), Always(j, node, d.honest));
        RowsBelowTmp(j, rows, d.rows, temp, rowed);
        match moved {
          case InTrash(to) =>
            PlaceLength(to, o, seen.kind);
            AsideStep(j, temp, node, d.honest, Snapshot(before, d.rows), to);
            return Some(to), Changed;
          case Gone => return None, Changed;
          case Failed(e) => return None, ChangedOrLocal(e);
        }
      case ToCopy(to) =>
        place, fail := SetAsideCopy(d, to, temp, j, node);
    }
  }

  lemma RowsBelowTmp(j: Job, was: map<RelPath, Row>, rows: map<RelPath, Row>, temp: Path, rowed: bool)
    requires RowBelowTmp(j, was) && RowsKept(was, rows, Some(Journal(j.key, temp)), rowed) && temp != TMP
    ensures RowBelowTmp(j, rows)
  {
  }

  method SetAsideCopy(d: Disk, to: Path, temp: Path, j: Job, ghost node: Node)
    returns (place: Option<Path>, fail: Fail)
    requires d.Valid() && JobOk(j) && j.disk in j.was && temp in j.spare && j.displace == ToCopy(to)
    requires AboutToMove(j, temp, node)(d.Now()) && RowBelowTmp(j, d.rows) && temp != TMP
    modifies d`nodes, d`unsynced, d`rows, d`history
    ensures RowBelowTmp(j, d.rows)
    ensures d.Valid() && old(d.history) <= d.history && Since(d.history, |old(d.history)|, Always(j, node, d.honest))
    ensures place.Some? ==> Aside(j, d.Now(), place.value, temp) && Holds(d.nodes, temp, node)
    ensures place.None? ==> AboutToMove(j, temp, node)(d.Now())
    ensures place.Some? ==> place.value == to
    ensures d.faultless && to !in old(d.nodes) ==> place.Some?
  {
    hide Before, Holds, Tree, Always, Since, Moved, Aside;
    CopyMay(j, d.nodes, to);
    SinceNone(d.history, Always(j, node, d.honest));
    ghost var h, b := d.Now(), d.history;
    var e := d.PutRow(j.key, Row(to, temp));
    if e.Some? {
      return None, Local(e.value);
    }
    RowBefore(j, h, Row(to, temp));
    BeforeAlways(j, d.Now(), node, d.honest);
    SinceOne(old(d.history), b, d.Now(), Always(j, node, d.honest));
    h, b := d.Now(), d.history;
    e := d.RenameRefusing(j.disk, to);
    if e.Some? {
      return None, ChangedOrLocal(e.value);
    }
    AsideStep(j, temp, node, d.honest, h, to);
    SinceOne(old(d.history), b, d.Now(), Always(j, node, d.honest));
    place, fail := Some(to), Changed;
  }

  /** After a failed rename in: the displaced entry goes back, only if its path is empty. */
  datatype Back = Returned | PathTaken | Stranded

  method PutBack(d: Disk, place: Path, temp: Path, j: Job, ghost node: Node, ghost start: seq<Snapshot>)
    returns (back: Back)
    requires d.Valid() && JobOk(j) && Aside(j, d.Now(), place, temp)
    requires start <= d.history && Since(d.history, |start|, Always(j, node, d.honest))
    modifies d`nodes, d`unsynced, d`history, d`open
    ensures d.Valid() && start <= d.history && Since(d.history, |start|, Always(j, node, d.honest))
    ensures back.Returned? ==> Before(j, d.Now()) && j.disk in d.nodes
                               && (old(Holds(d.nodes, temp, node)) ==> Holds(d.nodes, temp, node))
    ensures d.faultless ==> back.Returned?
    ensures back.PathTaken? ==> Aside(j, d.Now(), place, temp) && !d.honest
    ensures back.Stranded? ==> Aside(j, d.Now(), place, temp)
    ensures d.open == if back.Stranded? then old(d.open)[j.key := Displaced(place, j.disk, temp)] else old(d.open)
  {
    hide Before, Tree, Always, Since, Moved, Holds, Aside;
    ghost var h, b := d.Now(), d.history;
    BackMay(j, h, place, temp);
    var e := d.RenameRefusing(place, j.disk);
    if e.None? {
      if Holds(h.nodes, temp, node) { HoldsBack(j, h, place, temp, node); }
      BackFromAside(j, h, place, temp);
      BeforeAlways(j, d.Now(), node, d.honest);
      SinceOne(start, b, d.Now(), Always(j, node, d.honest));
      BackThere(j, h.nodes, place);
      return Returned;
    }
    if e == Some(Exists) {
      return PathTaken;
    }
    d.open := d.open[j.key := Displaced(place, j.disk, temp)];
    back := Stranded;
  }

  lemma BackMay(j: Job, h: Snapshot, place: Path, temp: Path)
    requires JobOk(j) && Aside(j, h, place, temp)
    ensures MayMove(h.nodes, place, j.disk)
  {
    SameRoot(j.was, j.disk, h.nodes, place);
    PlaceElsewhere(j, place);
  }

  lemma HoldsBack(j: Job, h: Snapshot, place: Path, temp: Path, node: Node)
    requires JobOk(j) && Aside(j, h, place, temp) && MayMove(h.nodes, place, j.disk) && Holds(h.nodes, temp, node)
    ensures Holds(Moved(h.nodes, place, j.disk), temp, node)
  {
    hide Moved, Tree, Others, SameTree;
    var n, m := h.nodes, Moved(h.nodes, place, j.disk);
    DiskNotTemp(j, temp);
    TempElsewhere(j, place, temp);
    MovedElsewhere(n, place, j.disk, temp);
    forall r | r != [] ensures Below(m, temp, r).None? {
      if j.disk <= temp + r { Comparable(j.disk, temp, r); }
      if place <= temp + r { Comparable(place, temp, r); }
      MovedElsewhere(n, place, j.disk, temp + r);
      assert Below(n, temp, r).None?;
    }
  }

  lemma BackThere(j: Job, n: Nodes, place: Path)
    requires Tree(n) && MayMove(n, place, j.disk)
    ensures j.disk in Moved(n, place, j.disk)
  {
    hide Moved, Tree;
    MovedThere(n, place, j.disk, []);
    assert j.disk + [] == j.disk && place + [] == place;
  }

  // The write.

  datatype Outcome =
    /** Landed; the journal row goes with the report, unless a sync failed. */
    | Applied(rowGone: bool, synced: bool)
    | Failure(fail: Fail, rowGone: bool)

  /** Nothing may be at the conflict-copy path. */
  method CopyFree(d: Disk, displace: Displace) returns (fail: Option<Fail>)
    ensures d.faultless && fail.Some? ==> fail == Some(Changed)
    ensures d.faultless ==> (fail.None? <==> displace.ToCopy? ==> displace.to !in d.nodes)
  {
    fail := None;
    if displace.ToCopy? {
      var node, e := d.Lstat(displace.to);
      if node.Some? {
        fail := Some(Changed);
      } else if e != Missing && e != NotADirectory {
        fail := Some(Local(e));
      }
    }
  }

  lemma HoldsThrough(j: Job, a: Nodes, b: Nodes, temp: Path, node: Node)
    requires SameTemps(j, a, b) && TMP <= temp && Holds(a, temp, node)
    ensures Holds(b, temp, node)
  {
    assert Get(b, temp) == Get(a, temp);
    forall r | r != [] ensures Below(b, temp, r).None? {
      assert TMP <= temp + r;
      assert Below(a, temp, r).None?;
    }
  }

  lemma StillThere(j: Job, h: Snapshot)
    requires Before(j, h)
    ensures j.disk in h.nodes <==> j.disk in j.was
  {
    SameRoot(j.was, j.disk, h.nodes, j.disk);
  }

  /** Nothing that the write made is left, above its path or among the temps. */
  ghost predicate CleanedUp(j: Job, n: Nodes, kind: Kind, scratch: Path) {
    && (forall k: nat {:trigger j.disk[..k]} :: 0 < k < |j.disk| && j.disk[..k] !in j.was ==> j.disk[..k] !in n)
    && (kind != File ==> scratch !in n)
  }

  lemma CleanNow(j: Job, n: Nodes, kind: Kind, scratch: Path)
    requires NoneMine(j, n) && (kind != File ==> scratch !in n)
    ensures CleanedUp(j, n, kind, scratch)
  {
  }

  lemma CleanWhereOver(j: Job, n: Nodes)
    requires Tree(j.was) && j.disk in j.was
    ensures NoneMine(j, n)
  {
    AllAbove(j.was, j.disk);
  }

  /** No mounted directory is at the path, above it or beneath it. */
  ghost predicate ClearOfMounts(mounts: set<Path>, n: Nodes, disk: Path) {
    forall m :: m in mounts && m != [] && DirAt(n, m) ==> !Related(m, disk)
  }

  lemma MountsClear(mounts: set<Path>, n: Nodes, disk: Path, found: Found)
    requires Tree(n) && Unmounted(mounts, n, disk, found) && Truly(n, disk, found)
    requires found.Nothing? || found.MissingFrom? || found.Entry?
    requires found.Entry? && found.seen.kind == Dir ==> NoMountIn(mounts, disk)
    ensures ClearOfMounts(mounts, n, disk)
  {
    forall m | m in mounts && m != [] && DirAt(n, m) ensures !Related(m, disk) {
      if disk <= m { AboveDir(n, disk, m); }
    }
  }

  lemma AboveDir(n: Nodes, p: Path, q: Path)
    requires Tree(n) && DirAt(n, q) && p <= q
    ensures DirAt(n, p)
  {
    assert q[..|p|] == p;
    assert |p| < |q| ==> DirAt(n, q[..|p|]);
    assert |p| == |q| ==> p == q;
  }

  /** What a look found that a write can go on from, and what that says of the directories above. */
  ghost predicate GoesOn(n: Nodes, disk: Path, found: Found) {
    && disk != [] && Truly(n, disk, found) && !found.Unreachable? && !found.TakenBy?
    && (found.Nothing? && |disk| > 1 ==> DirAt(n, Up(disk)))
    && (DirAt(n, []) ==>
          (found.MissingFrom? ==> DirAt(n, disk[..found.first - 1])) && (found.Nothing? ==> DirAt(n, Up(disk))))
  }

  /** A write. At every moment, whatever the calls answer, everything that was there is there
      still, at its path or moved to where nothing was; and if renames report `Exists` truly the
      path is never silently empty. What is applied is durable, or its row is held open; and where
      no call fails a write that is not applied leaves nothing of its own. */
  method Write(d: Disk, entry: Entries.Entry, expected: Option<Observed>, o: Original,
               temp: Option<Path>, scratch: Path, j: Job, ghost node: Node)
    returns (r: Outcome, ghost lied: bool)
    requires d.Valid() && JobOk(j) && TempsOk(j, temp, scratch) && j.was == d.nodes
    requires Before(j, d.Now()) && RowBelowTmp(j, d.rows)
    requires scratch !in d.nodes && Brings(d.nodes, entry, temp, node)
    modifies d`nodes, d`unsynced, d`rows, d`history, d`open
    ensures d.Valid() && Kept(j, d.nodes)
    ensures old(d.history) <= d.history && Since(d.history, |old(d.history)|, Always(j, node, d.honest))
    ensures r.Applied? ==> Landed(j, d.Now(), node)
    ensures r.Failure? ==> (lied <==> !(Before(j, d.Now()) || IsStranded(j, d.Now(), d.open, r)))
    ensures lied ==> !d.honest && LeftEmpty(j, d.Now(), d.open, r)
    ensures r.Applied? ==> Meets(expected, j.was, j.disk) && Brought(entry, temp, old(d.nodes), node)
    ensures r.Applied? ==> Reports(j, d.Now(), old(d.open), d.open, r) && (r.synced ==> Durable(j, d.Now(), d.unsynced))
    ensures !Meets(expected, j.was, j.disk) ==>
              r.Failure? && d.nodes == j.was && d.rows == old(d.rows) && d.open == old(d.open)
    ensures d.faultless && !Meets(expected, j.was, j.disk) ==> r == Failure(Changed, false)
    ensures r.Failure? ==> OpenAfter(j, old(d.open), d.open, r)
    ensures r.Applied? ==> ClearOfMounts(d.mounts, j.was, j.disk)
    ensures d.faultless && r.Failure? ==> Before(j, d.Now()) && CleanedUp(j, d.nodes, entry.kind, scratch)
    ensures d.faultless && MayWrite(j, entry, expected, o, temp, scratch) ==> r.Applied? && r.synced
    ensures d.faultless && r.Failure? && Roomy(j, entry, o, temp, scratch) ==> r.fail == Changed
  {
    hide Before, Tree, Always, Since, Landed, Kept, Guard, ClearAbove, Durable, NoneMine, CleanedUp, Meets, Brought,
         Brings, MayBring, Reports, ClearOfMounts, Unmounted, OpenAfter, Roomy;
    lied := false;
    SinceNone(d.history, Always(j, node, d.honest));
    BeforeKept(j, d.Now());
    MineAtFirst(j);
    CleanNow(j, d.nodes, entry.kind, scratch);
    var found, fail := Look(d, j.disk);
    assert forall f :: OpenAfter(j, d.open, d.open, Failure(f, false)) by { NoneOpened(j, d.open); }
    if found.None? {
      return Failure(fail, false), false;
    }
    TrulySeen(d.nodes, j.disk, found.value);
    GuardMeets(expected, d.nodes, j.disk);
    MayBringMeans(j, entry, o, temp, scratch);
    if found.value.Unreachable? || found.value.TakenBy? || !Guard(expected, SeenIn(found.value)) {
      return Failure(Changed, false), false;
    }
    var taken := CopyFree(d, j.displace);
    if taken.Some? {
      return Failure(taken.value, false), false;
    }
    r, lied := Bring(d, entry, found.value, o, temp, scratch, j, node);
  }

  lemma MayBringMeans(j: Job, entry: Entries.Entry, o: Original, temp: Option<Path>, scratch: Path)
    ensures MayBring(j, entry, o, temp, scratch) ==>
              && (j.disk in j.was ==> j.was[j.disk].Plain?) && ClearAbove(j.was, j.disk)
              && (j.displace.ToCopy? ==> j.displace.to !in j.was)
  {
  }

  /** What is as expected is written over: what comes in is readied, and goes in. */
  method Bring(d: Disk, entry: Entries.Entry, found: Found, o: Original, temp: Option<Path>, scratch: Path,
               j: Job, ghost node: Node)
    returns (r: Outcome, ghost lied: bool)
    requires d.Valid() && JobOk(j) && TempsOk(j, temp, scratch) && j.was == d.nodes
    requires Before(j, d.Now()) && RowBelowTmp(j, d.rows)
    requires scratch !in d.nodes && Brings(d.nodes, entry, temp, node) && GoesOn(d.nodes, j.disk, found)
    requires Unmounted(d.mounts, d.nodes, j.disk, found)
    modifies d`nodes, d`unsynced, d`rows, d`history, d`open
    ensures d.Valid() && Kept(j, d.nodes)
    ensures old(d.history) <= d.history && Since(d.history, |old(d.history)|, Always(j, node, d.honest))
    ensures r.Applied? ==> Landed(j, d.Now(), node) && Brought(entry, temp, old(d.nodes), node)
    ensures r.Failure? ==> (lied <==> !(Before(j, d.Now()) || IsStranded(j, d.Now(), d.open, r)))
    ensures lied ==> !d.honest && LeftEmpty(j, d.Now(), d.open, r)
    ensures r.Applied? ==> Reports(j, d.Now(), old(d.open), d.open, r) && (r.synced ==> Durable(j, d.Now(), d.unsynced))
    ensures r.Failure? ==> OpenAfter(j, old(d.open), d.open, r)
    ensures r.Applied? ==> ClearOfMounts(d.mounts, j.was, j.disk)
    ensures d.faultless && r.Failure? ==> Before(j, d.Now()) && CleanedUp(j, d.nodes, entry.kind, scratch)
    ensures d.faultless && MayBring(j, entry, o, temp, scratch) ==> r.Applied? && r.synced
    ensures d.faultless && r.Failure? && Roomy(j, entry, o, temp, scratch) ==> r.fail == Changed
  {
    hide Before, Holds, Tree, Always, Since, Moved, Aside, Landed, Kept, Touched, CanReady, ClearAbove,
         IsStranded, LeftEmpty, NoMountIn, MadeFor, Durable, DurableFrom, NoneMine, CleanedUp, OnlyTemps,
         SpotFree, Brought, Fetched, Brings, ClearOfMounts, Unmounted, OpenAfter, Reports;
    BroughtBy(d.nodes, entry, temp, node);
    lied := false;
    var incoming, e := Ready(d, entry, temp, scratch, j, node);
    BeforeKept(j, d.Now());
    MineAtFirst(j);
    NoneSame(j, j.was, d.nodes);
    if incoming.None? {
      if d.faultless { CleanNow(j, d.nodes, entry.kind, scratch); }
      OpenSame(j, d.open, Failure(Local(e), false));
      return Failure(Local(e), false), false;
    }
    BringsMade(old(d.nodes), entry, temp, node, incoming.value, scratch);
    StillThere(j, d.Now());
    AfterTemps(j, o, j.was, d.nodes);
    ghost var start := old(d.history);
    if found.Entry? {
      r, lied := Replace(d, found.seen, o, incoming.value, j, node, start);
      CleanWhereOver(j, d.nodes);
    } else {
      var first := if found.MissingFrom? then Some(found.first) else None;
      if first.Some? {
        AfterTempsAt(j, j.was, d.nodes, first.value - 1);
        AfterTempsAt(j, j.was, d.nodes, first.value);
      }
      AfterTempsAt(j, j.was, d.nodes, |j.disk| - 1);
      if MayBring(j, entry, o, temp, scratch) { ClearRoot(j.was, j.disk); }
      r := Add(d, first, incoming.value, j, node, start);
      if r.Applied? && r.synced { DurableNew(j, d.Now(), first, d.unsynced); }
      SameOpen(j, d.Now(), d.open, r);
    }
    if d.faultless && r.Failure? { CleanNow(j, d.nodes, entry.kind, scratch); }
    if r.Applied? { MountsClear(d.mounts, j.was, j.disk, found); }
  }

  lemma BringsMade(n: Nodes, entry: Entries.Entry, temp: Option<Path>, node: Node, incoming: Incoming, scratch: Path)
    requires Brings(n, entry, temp, node) && Fits(incoming, entry.kind, scratch)
    requires entry.kind == Dir || Fetched(entry, temp, n)
    ensures entry.kind != File ==> MadeFor(incoming, node) && incoming.At() == scratch
  {
  }

  lemma DurableNew(j: Job, h: Snapshot, first: Option<nat>, unsynced: set<Path>)
    requires JobOk(j) && j.disk !in j.was && DurableFrom(j.disk, Deepest(j.disk, first), unsynced)
    requires first.Some? ==> 1 <= first.value < |j.disk|
                             && (first.value > 1 ==> DirAt(j.was, j.disk[..first.value - 1]))
    requires first.None? && |j.disk| > 1 ==> DirAt(j.was, Up(j.disk))
    ensures Durable(j, h, unsynced)
  {
    forall k: nat | k < |j.disk| && j.disk[..k + 1] !in j.was ensures j.disk[..k] !in unsynced {
      var deep := Deepest(j.disk, first);
      if k < deep {
        assert first.None? ==> j.disk[..deep] == Up(j.disk);
        ShallowerThere(j.was, j.disk, k + 1, deep);
      }
    }
  }

  lemma ShallowerThere(n: Nodes, disk: Path, k: nat, deep: nat)
    requires Tree(n) && k <= deep <= |disk| && disk[..deep] in n
    ensures disk[..k] in n
  {
    assert disk[..deep][..k] == disk[..k];
    if k < deep { assert DirAt(n, disk[..deep][..k]); }
  }

  lemma DurableOver(j: Job, h: Snapshot, unsynced: set<Path>)
    requires JobOk(j) && j.disk in j.was && Up(j.disk) !in unsynced
    requires j.key in h.rows && h.rows[j.key].displacedTo != [] && Up(h.rows[j.key].displacedTo) !in unsynced
    ensures Durable(j, h, unsynced)
  {
    AllAbove(j.was, j.disk);
  }

  lemma AllAbove(n: Nodes, disk: Path)
    requires Tree(n) && disk in n
    ensures forall m {:trigger disk[..m]} :: 0 <= m <= |disk| ==> disk[..m] in n
  {
    assert disk[..|disk|] == disk;
    forall m: nat | m <= |disk| ensures disk[..m] in n {
      ShallowerThere(n, disk, m, |disk|);
    }
  }

  /** The fetched file is there, and is the one an entry asks for. */
  ghost predicate Fetched(entry: Entries.Entry, temp: Option<Path>, n: Nodes) {
    && temp.Some? && temp.value in n && n[temp.value].Plain? && n[temp.value].o.kind == File
    && (entry.kind == Symlink ==> n[temp.value].o.hash == entry.hash)
  }

  /** `node` is what `entry` says: an empty directory, a symlink to the target asked for, or the
      fetched file's content with the entry's modification time and exec bit. */
  ghost predicate Brought(entry: Entries.Entry, temp: Option<Path>, n: Nodes, node: Node) {
    && node.Plain? && node.o.kind == entry.kind
    && (entry.kind == Dir ==> node.o.size == 0 && node.o.mtime == 0 && !node.o.exec && node.o.hash == EMPTY_HASH)
    && (entry.kind != Dir ==> Fetched(entry, temp, n) && node.o.hash == n[temp.value].o.hash
                              && node.o.size == n[temp.value].o.size)
    && (entry.kind == File ==> node.o.mtime == entry.mtime && node.o.exec == entry.exec)
    && (entry.kind == Symlink ==> node.o.mtime == 0 && !node.o.exec)
  }

  lemma BroughtBy(n: Nodes, entry: Entries.Entry, temp: Option<Path>, node: Node)
    requires Brings(n, entry, temp, node)
    ensures entry.kind == Dir || Fetched(entry, temp, n) ==> Brought(entry, temp, n, node)
  {
  }

  /** Nothing on the disk stands in the way of a write: what is expected is there, what comes in can
      be readied, and every place it needs is free. */
  ghost predicate MayWrite(j: Job, entry: Entries.Entry, expected: Option<Observed>, o: Original,
                           temp: Option<Path>, scratch: Path) {
    Meets(expected, j.was, j.disk) && MayBring(j, entry, o, temp, scratch)
  }

  /** What comes in can be readied, and what is at the path has a free place to go to. */
  ghost predicate Roomy(j: Job, entry: Entries.Entry, o: Original, temp: Option<Path>, scratch: Path) {
    CanReady(j.was, entry, temp, scratch) && (j.disk in j.was ==> SpotFree(j, o, j.was))
  }

  ghost predicate MayBring(j: Job, entry: Entries.Entry, o: Original, temp: Option<Path>, scratch: Path) {
    && (j.disk in j.was ==> j.was[j.disk].Plain? && SpotFree(j, o, j.was))
    && (j.displace.ToCopy? ==> j.displace.to !in j.was) && (j.target != j.disk ==> j.target !in j.was)
    && ClearAbove(j.was, j.disk) && CanReady(j.was, entry, temp, scratch)
  }

  lemma ClearRoot(n: Nodes, disk: Path)
    requires ClearAbove(n, disk)
    ensures DirAt(n, [])
  {
  }

  lemma AfterTempsAt(j: Job, n: Nodes, m: Nodes, k: nat)
    requires JobOk(j) && OnlyTemps(n, m) && k <= |j.disk|
    ensures Get(m, j.disk[..k]) == Get(n, j.disk[..k])
    ensures k == |j.disk| - 1 ==> j.disk[..k] == Up(j.disk)
  {
    assert k > 0 ==> j.disk[..k][0] == j.disk[0];
  }

  /** What a write needs is still free once what comes in is ready. */
  lemma AfterTemps(j: Job, o: Original, n: Nodes, m: Nodes)
    requires JobOk(j) && OnlyTemps(n, m)
    ensures SpotFree(j, o, n) ==> SpotFree(j, o, m)
    ensures ClearAbove(n, j.disk) ==> ClearAbove(m, j.disk)
    ensures Get(m, j.target) == Get(n, j.target)
  {
    hide PlainlyFree;
    if ClearAbove(n, j.disk) {
      forall k | 0 <= k < |j.disk| ensures NoFile(m, j.disk[..k]) {
        AfterTempsAt(j, n, m, k);
        assert NoFile(n, j.disk[..k]);
      }
      AfterTempsAt(j, n, m, 0);
      assert j.disk[..0] == [];
    }
    match j.displace {
      case ToTrash => if PlainlyFree(n, o) { PlainAfterTemps(o, n, m); }
      case ToCopy(to) => assert Get(m, to) == Get(n, to);
    }
  }

  lemma PlainAfterTemps(o: Original, n: Nodes, m: Nodes)
    requires PlainlyFree(n, o) && OnlyTemps(n, m)
    ensures PlainlyFree(m, o)
  {
    assert Get(m, Up(TRASH)) == Get(n, Up(TRASH));
    forall i | 0 <= i <= |o.above| + 1 ensures NoFile(m, TRASH + ([o.day] + o.above)[..i]) {
      var p := TRASH + ([o.day] + o.above)[..i];
      assert p[1] == "trash" && NoFile(n, p);
      assert Get(m, p) == Get(n, p);
    }
    assert PlainPlace(o)[1] == "trash";
    assert Get(m, PlainPlace(o)) == Get(n, PlainPlace(o));
  }

  /** The rename back found the path taken though it was free: nothing is at the path, and nothing
      says so. */
  ghost predicate LeftEmpty(j: Job, h: Snapshot, open: map<RelPath, Open>, r: Outcome) {
    r.Failure? && r.rowGone && j.key !in open && j.disk in j.was && j.disk !in h.nodes
  }

  /** What a write left aside is held open: the path is reported as skipped, never as absent. */
  ghost predicate IsStranded(j: Job, h: Snapshot, open: map<RelPath, Open>, r: Outcome) {
    && r.Failure? && r.fail.Blind? && !r.rowGone
    && j.key in open && open[j.key].Displaced? && open[j.key].back == j.disk
    && Aside(j, h, open[j.key].now, open[j.key].temp)
  }

  /** A write where nothing is at the path. */
  method Add(d: Disk, first: Option<nat>, incoming: Incoming, j: Job, ghost node: Node, ghost start: seq<Snapshot>)
    returns (r: Outcome)
    requires d.Valid() && JobOk(j) && Before(j, d.Now()) && j.disk !in j.was && RowBelowTmp(j, d.rows)
    requires first.Some? ==> 1 <= first.value < |j.disk| && j.disk[..first.value] !in d.nodes
    requires TempsOf(incoming, j) && Holds(d.nodes, incoming.At(), node)
    requires start <= d.history && Since(d.history, |start|, Always(j, node, d.honest))
    modifies d`nodes, d`unsynced, d`history, d`open
    ensures d.Valid() && Kept(j, d.nodes)
    ensures start <= d.history && Since(d.history, |start|, Always(j, node, d.honest))
    ensures r.Applied? ==> Landed(j, d.Now(), node)
    ensures r.Failure? ==> Before(j, d.Now())
    ensures d.open == old(d.open) && !r.rowGone
    ensures r.Applied? && r.synced ==> DurableFrom(j.disk, Deepest(j.disk, first), d.unsynced)
    ensures d.faultless && r.Failure? ==> r.fail == Changed && (old(NoneMine(j, d.nodes)) ==> NoneMine(j, d.nodes))
    ensures d.faultless && r.Failure? && MadeFor(incoming, node) ==> incoming.At() !in d.nodes
    ensures d.faultless && ClearAbove(old(d.nodes), j.disk) && j.target !in old(d.nodes)
            && DirAt(old(d.nodes), if first.Some? then j.disk[..first.value - 1] else Up(j.disk)) ==>
              r.Applied? && r.synced
  {
    hide Before, Holds, Tree, Always, Since, Moved, Landed, Kept, Touched, ClearAbove, DeeperSame, MadeAll, SyncedBut,
         DurableFrom, SameTemps, AllMine, NoneMine, OnlyTemps, MadeFor;
    var made := [];
    if first.Some? {
      ghost var had, were := d.history, d.nodes;
      var fail;
      made, fail := MakeParents(d, first.value, j, node);
      SinceMore(start, had, d.history, Always(j, node, d.honest));
      BeforeKept(j, d.Now());
      HoldsThrough(j, were, d.nodes, incoming.At(), node);
      if fail.Some? {
        ghost var n := d.nodes;
        Discard(d, incoming, j, node, start);
        if NoneMine(j, n) { NoneSame(j, n, d.nodes); }
        BeforeKept(j, d.Now());
        return Failure(fail.value, false);
      }
    } else {
      assert Own(j, made);
      if NoneMine(j, d.nodes) { MineStart(j, d.nodes, |j.disk|); }
    }
    if first.Some? { TargetAsDeep(j, old(d.nodes), d.nodes); }
    r := GoIn(d, first, made, incoming, j, node, start, old(d.nodes));
  }

  /** What is ready goes in, where nothing is and the directories above are. */
  method GoIn(d: Disk, first: Option<nat>, made: seq<nat>, incoming: Incoming, j: Job, ghost node: Node,
              ghost start: seq<Snapshot>, ghost had: Nodes)
    returns (r: Outcome)
    requires d.Valid() && JobOk(j) && Before(j, d.Now()) && j.disk !in j.was && RowBelowTmp(j, d.rows) && Own(j, made)
    requires first.Some? ==> 1 <= first.value < |j.disk| && j.disk[..first.value] !in had
                             && MadeAll(j.disk, first.value, |j.disk|, had, made)
    requires Tree(had) && TempsOf(incoming, j) && Holds(d.nodes, incoming.At(), node)
    requires start <= d.history && Since(d.history, |start|, Always(j, node, d.honest))
    modifies d`nodes, d`unsynced, d`history
    ensures d.Valid() && Kept(j, d.nodes) && !r.rowGone
    ensures start <= d.history && Since(d.history, |start|, Always(j, node, d.honest))
    ensures r.Applied? ==> Landed(j, d.Now(), node)
    ensures r.Failure? ==> Before(j, d.Now())
    ensures r.Applied? && r.synced ==> DurableFrom(j.disk, Deepest(j.disk, first), d.unsynced)
    ensures d.faultless && r.Failure? ==>
              r.fail == Changed && (old(AllMine(j, d.nodes, made, |j.disk|)) ==> NoneMine(j, d.nodes))
    ensures d.faultless && r.Failure? && MadeFor(incoming, node) ==> incoming.At() !in d.nodes
    ensures d.faultless && j.target !in old(d.nodes) && DirAt(old(d.nodes), Up(j.disk)) ==> r.Applied? && r.synced
  {
    hide Before, Holds, Tree, Always, Since, Moved, Landed, Kept, Touched, MadeAll, SyncedBut, ChangedDirs, DurableFrom,
         AllMine, NoneMine, OnlyTemps;
    StillThere(j, d.Now());
    ghost var h, b := d.Now(), d.history;
    InMay(j, d.nodes, incoming.At(), node);
    var e := d.RenameRefusing(incoming.At(), j.target);
    if e.Some? {
      Discard(d, incoming, j, node, start);
      if AllMine(j, h.nodes, made, |j.disk|) { MineSame(j, h.nodes, d.nodes, made, |j.disk|); }
      UndoParents(d, made, j, node, start);
      BeforeKept(j, d.Now());
      return Failure(ChangedOrLocal(e.value), false);
    }
    InFromBefore(j, h, incoming.At(), node);
    LandedAlways(j, d.Now(), node, d.honest);
    SinceOne(start, b, d.Now(), Always(j, node, d.honest));
    var changed := ChangedDirs(j.disk, first, made);
    var synced := SyncAll(d, changed + [Up(j.disk), TMP]);
    ghost var left := d.unsynced;
    Finish(d, incoming, j, node, start);
    LandedKept(j, d.Now(), node);
    if synced { AllChanged(j, first, had, made, changed, left, d.unsynced); }
    r := Applied(false, synced);
  }

  /** How far down the path's directories were there already. */
  ghost function Deepest(disk: Path, first: Option<nat>): int {
    if first.Some? then first.value - 1 else |disk| - 1
  }

  ghost predicate DurableFrom(disk: Path, from: int, unsynced: set<Path>) {
    forall k: nat :: from <= k < |disk| ==> disk[..k] !in unsynced
  }

  /** The directories new ones were made in, and those new ones. */
  function ChangedDirs(disk: Path, first: Option<nat>, made: seq<nat>): (dirs: seq<Path>)
    requires (forall k :: k in made ==> k < |disk|) && (first.Some? ==> 1 <= first.value < |disk|)
    ensures first.Some? ==> disk[..first.value - 1] in dirs && forall k :: k in made ==> disk[..k] in dirs
  {
    if first.None? then []
    else
      var dirs := seq(|made|, i requires 0 <= i < |made| => (assert made[i] in made; disk[..made[i]]));
      assert forall i :: 0 <= i < |made| ==> made[i] in made && dirs[i] == disk[..made[i]];
      [disk[..first.value - 1]] + dirs
  }

  lemma AllChanged(j: Job, first: Option<nat>, was: Nodes, made: seq<nat>, changed: seq<Path>,
                   left: set<Path>, now: set<Path>)
    requires JobOk(j) && Tree(was) && Own(j, made) && SyncedBut(left, now)
    requires first.Some? ==> 1 <= first.value < |j.disk| && j.disk[..first.value] !in was
                             && MadeAll(j.disk, first.value, |j.disk|, was, made)
    requires changed == ChangedDirs(j.disk, first, made)
    requires forall p :: p in changed + [Up(j.disk), TMP] ==> p !in left
    ensures DurableFrom(j.disk, Deepest(j.disk, first), now)
  {
    forall k: nat | Deepest(j.disk, first) <= k < |j.disk| ensures j.disk[..k] !in now {
      assert j.disk[..|j.disk| - 1] == Up(j.disk);
      if first.Some? && k >= first.value {
        assert j.disk[..k][..first.value] == j.disk[..first.value];
        NothingUnder(was, j.disk[..first.value], j.disk[..k]);
        assert k in made;
      }
      assert j.disk[..k] in changed + [Up(j.disk), TMP];
      assert k > 0 ==> j.disk[..k][0] == j.disk[0];
    }
  }

  lemma TargetAsDeep(j: Job, n: Nodes, m: Nodes)
    requires JobOk(j) && DeeperSame(n, m, |j.disk|)
    ensures Get(m, j.target) == Get(n, j.target)
  {
    assert |Up(j.target)| == |Up(j.disk)|;
  }

  /** What is ready can go in, where nothing is in its place. */
  lemma InMay(j: Job, n: Nodes, temp: Path, node: Node)
    requires JobOk(j) && temp in j.spare && Holds(n, temp, node)
    ensures j.target !in n && DirAt(n, Up(j.disk)) ==> MayMove(n, temp, j.target)
  {
    assert Get(n, temp) == Some(node);
    assert temp[0] == ".delocal";
  }

  /** Nothing became unsynced but among the temps. */
  ghost predicate SyncedBut(was: set<Path>, now: set<Path>) {
    forall p :: p in now ==> p in was || TMP <= p
  }

  /** Each directory that the commit made something in, down to the path's own, will keep it over a
      crash; and so will the two directories of what it displaced. */
  ghost predicate Durable(j: Job, h: Snapshot, unsynced: set<Path>) {
    && (forall k: nat :: k < |j.disk| && j.disk[..k + 1] !in j.was ==> j.disk[..k] !in unsynced)
    && (j.disk in j.was ==>
          j.disk != [] && Up(j.disk) !in unsynced
          && j.key in h.rows && h.rows[j.key].displacedTo != [] && Up(h.rows[j.key].displacedTo) !in unsynced)
  }

  /** A commit that displaced something leaves its row to the host: gone with the report if all is
      durable, and otherwise open until it is. Nothing else opens or closes. */
  ghost predicate Reports(j: Job, h: Snapshot, was: map<RelPath, Open>, open: map<RelPath, Open>, r: Outcome)
    requires r.Applied?
  {
    if j.disk !in j.was then open == was && !r.rowGone
    else
      && r.rowGone == r.synced && j.disk != [] && j.key in h.rows && h.rows[j.key].displacedTo != []
      && open == if r.synced then was - {j.key}
                 else was[j.key := Unsynced([Up(j.disk), Up(h.rows[j.key].displacedTo)])]
  }

  /** What changed is made durable before the report; an error is noted, and undoes nothing. */
  method SyncAll(d: Disk, dirs: seq<Path>) returns (synced: bool)
    modifies d`unsynced
    ensures d.unsynced <= old(d.unsynced)
    ensures synced ==> forall p :: p in dirs ==> p !in d.unsynced
    ensures d.faultless ==> synced
  {
    synced := true;
    for i := 0 to |dirs|
      invariant d.unsynced <= old(d.unsynced)
      invariant synced ==> forall p :: p in dirs[..i] ==> p !in d.unsynced
      invariant d.faultless ==> synced
    {
      assert dirs[..i + 1] == dirs[..i] + [dirs[i]];
      var e := d.Sync(dirs[i]);
      if e.Some? {
        synced := false;
      }
    }
    assert dirs[..|dirs|] == dirs;
  }

  /** Sync the directories that a landed commit changed. Where none is any more, nothing needs it. */
  method SyncLanded(d: Disk, dirs: seq<Path>) returns (synced: bool)
    modifies d`unsynced
    ensures d.unsynced <= old(d.unsynced)
    ensures synced && d.honest ==> forall p :: p in dirs ==> p !in d.unsynced || !DirAt(d.nodes, p)
    ensures d.faultless ==> synced
  {
    for i := 0 to |dirs|
      invariant d.unsynced <= old(d.unsynced)
      invariant d.honest ==> forall p :: p in dirs[..i] ==> p !in d.unsynced || !DirAt(d.nodes, p)
    {
      assert dirs[..i + 1] == dirs[..i] + [dirs[i]];
      var e := d.Sync(dirs[i]);
      if e.Some? && e != Some(Missing) && e != Some(NotADirectory) {
        return false;
      }
    }
    assert dirs[..|dirs|] == dirs;
    synced := true;
  }

  /** Once a symlink is in, the fetched file with its target is of no more use. */
  method Finish(d: Disk, incoming: Incoming, ghost j: Job, ghost node: Node, ghost start: seq<Snapshot>)
    requires d.Valid() && JobOk(j) && Landed(j, d.Now(), node)
    requires incoming.LinkIn? ==> incoming.temp in j.spare && incoming.temp != TMP
    requires start <= d.history && Since(d.history, |start|, Always(j, node, d.honest))
    modifies d`nodes, d`unsynced, d`history
    ensures d.Valid() && Landed(j, d.Now(), node) && SyncedBut(old(d.unsynced), d.unsynced)
    ensures d.faultless && incoming.LinkIn? && IsFile(old(d.nodes), incoming.temp) ==> incoming.temp !in d.nodes
    ensures start <= d.history && Since(d.history, |start|, Always(j, node, d.honest))
  {
    hide Always, Since, Landed, Tree;
    if incoming.LinkIn? {
      ghost var h, b := d.Now(), d.history;
      var e := d.RemoveFile(incoming.temp);
      if e.None? {
        UpTemp(incoming.temp);
        TouchedBy(h.nodes, incoming.temp, DIR);
        LandedTouched(j, h, d.nodes, incoming.temp, node);
        LandedAlways(j, d.Now(), node, d.honest);
        SinceOne(start, b, d.Now(), Always(j, node, d.honest));
      }
    }
  }

  lemma UpTemp(p: Path)
    requires TMP <= p && p != TMP
    ensures TMP <= Up(p)
  {
  }

  /** A write over what is at the path: two renames behind a journal row. */
  method Replace(d: Disk, seen: Observed, o: Original, incoming: Incoming, j: Job, ghost node: Node,
                 ghost start: seq<Snapshot>)
    returns (r: Outcome, ghost lied: bool)
    requires d.Valid() && JobOk(j) && Before(j, d.Now()) && RowBelowTmp(j, d.rows)
    requires j.disk in j.was && j.disk in d.nodes
    requires TempsOf(incoming, j) && Holds(d.nodes, incoming.At(), node)
    requires start <= d.history && Since(d.history, |start|, Always(j, node, d.honest))
    modifies d`nodes, d`unsynced, d`rows, d`history, d`open
    ensures d.Valid() && Kept(j, d.nodes)
    ensures start <= d.history && Since(d.history, |start|, Always(j, node, d.honest))
    ensures r.Applied? ==> Landed(j, d.Now(), node) && Reports(j, d.Now(), old(d.open), d.open, r)
    ensures r.Applied? && r.synced ==> Durable(j, d.Now(), d.unsynced)
    ensures r.Failure? ==> (lied <==> !(Before(j, d.Now()) || IsStranded(j, d.Now(), d.open, r)))
    ensures lied ==> !d.honest && LeftEmpty(j, d.Now(), d.open, r)
    ensures r.Applied? && seen.kind == Dir ==> NoMountIn(d.mounts, j.disk)
    ensures r.Failure? ==> OpenAfter(j, old(d.open), d.open, r)
    ensures d.faultless && r.Failure? ==> Before(j, d.Now()) && (MadeFor(incoming, node) ==> incoming.At() !in d.nodes)
    ensures d.faultless && SpotFree(j, o, old(d.nodes)) && (j.target != j.disk ==> j.target !in old(d.nodes)) ==>
              r.Applied? && r.synced
    ensures d.faultless && SpotFree(j, o, old(d.nodes)) && r.Failure? ==> r == Failure(Changed, true)
  {
    hide Before, Holds, Tree, Always, Since, Moved, Landed, Kept, Touched, Aside, SpotFree, Durable, OnlyTemps,
         IsStranded, LeftEmpty, NoMountIn, SyncedBut, MadeFor;
    TargetOf(j, d.Now());
    lied := false;
    ghost var had := d.history;
    var place, fail := SetAside(d, seen, o, incoming.At(), j, node);
    SinceMore(start, had, d.history, Always(j, node, d.honest));
    if place.None? {
      Discard(d, incoming, j, node, start);
      BeforeKept(j, d.Now());
      d.open := d.open - {j.key};
      return Failure(fail, true), false;
    }
    AsidePlace(j, d.Now(), place.value, incoming.At());
    ghost var h, b := d.Now(), d.history;
    TargetAside(j, h, place.value, incoming.At());
    InMay(j, d.nodes, incoming.At(), node);
    var e := d.RenameRefusing(incoming.At(), j.target);
    if e.Some? {
      r, lied := Undo(d, e.value, place.value, incoming, j, node, start);
      return;
    }
    InFromAside(j, h, place.value, incoming.At(), node);
    LandedAlways(j, d.Now(), node, d.honest);
    SinceOne(start, b, d.Now(), Always(j, node, d.honest));
    var synced := SyncAll(d, [Up(j.disk), Up(place.value), TMP]);
    ghost var left := d.unsynced;
    Finish(d, incoming, j, node, start);
    LandedKept(j, d.Now(), node);
    NotTemps(j, place.value, left, d.unsynced);
    d.open := if synced then d.open - {j.key} else d.open[j.key := Unsynced([Up(j.disk), Up(place.value)])];
    r := Applied(synced, synced);
    if synced { DurableOver(j, d.Now(), d.unsynced); }
  }

  /** A commit that failed opens its path only if it left it empty, and closes it if its row goes. */
  ghost predicate OpenAfter(j: Job, was: map<RelPath, Open>, open: map<RelPath, Open>, r: Outcome)
    requires r.Failure?
  {
    open == if r.rowGone then was - {j.key}
            else if r.fail.Blind? && j.key in open then was[j.key := open[j.key]]
            else was
  }

  lemma OpenSame(j: Job, open: map<RelPath, Open>, r: Outcome)
    requires r.Failure? && !r.rowGone
    ensures OpenAfter(j, open, open, r)
  {
    assert j.key in open ==> open[j.key := open[j.key]] == open;
  }

  lemma SameOpen(j: Job, h: Snapshot, open: map<RelPath, Open>, r: Outcome)
    requires j.disk !in j.was && !r.rowGone
    ensures if r.Applied? then Reports(j, h, open, open, r) else OpenAfter(j, open, open, r)
  {
    if r.Failure? { OpenSame(j, open, r); }
  }

  lemma NoneOpened(j: Job, open: map<RelPath, Open>)
    ensures forall f :: OpenAfter(j, open, open, Failure(f, false))
  {
    forall f ensures OpenAfter(j, open, open, Failure(f, false)) {
      OpenSame(j, open, Failure(f, false));
    }
  }

  lemma TargetOf(j: Job, h: Snapshot)
    requires Before(j, h)
    ensures TargetAsWas(j, h.nodes)
  {
  }

  lemma TargetAside(j: Job, h: Snapshot, place: Path, temp: Path)
    requires Aside(j, h, place, temp)
    ensures TargetAsWas(j, h.nodes) && j.disk !in h.nodes && DirAt(h.nodes, Up(j.disk))
  {
  }

  lemma NotTemps(j: Job, place: Path, left: set<Path>, now: set<Path>)
    requires JobOk(j) && IsPlace(j, place) && place != [] && SyncedBut(left, now)
    ensures Up(j.disk) !in left ==> Up(j.disk) !in now
    ensures Up(place) !in left ==> Up(place) !in now
  {
    assert |Up(place)| >= 2 ==> Up(place)[0] == place[0] && Up(place)[1] == place[1];
    assert |Up(j.disk)| >= 2 ==> Up(j.disk)[0] == j.disk[0];
  }

  lemma AsidePlace(j: Job, h: Snapshot, place: Path, temp: Path)
    requires JobOk(j) && Aside(j, h, place, temp)
    ensures place != [] && IsPlace(j, place) && j.key in h.rows && h.rows[j.key].displacedTo == place
  {
    hide Others, SameTree, Tree;
    PlaceElsewhere(j, place);
  }

  /** The rename in failed: put back what was displaced, or hold the path open. */
  method Undo(d: Disk, e: IoError, place: Path, incoming: Incoming, j: Job, ghost node: Node,
              ghost start: seq<Snapshot>)
    returns (r: Outcome, ghost lied: bool)
    requires d.Valid() && JobOk(j) && Aside(j, d.Now(), place, incoming.At()) && RowBelowTmp(j, d.rows)
    requires Holds(d.nodes, incoming.At(), node)
    requires start <= d.history && Since(d.history, |start|, Always(j, node, d.honest))
    modifies d`nodes, d`unsynced, d`history, d`open
    ensures d.Valid() && Kept(j, d.nodes) && r.Failure?
    ensures start <= d.history && Since(d.history, |start|, Always(j, node, d.honest))
    ensures lied <==> !(Before(j, d.Now()) || IsStranded(j, d.Now(), d.open, r))
    ensures lied ==> !d.honest && LeftEmpty(j, d.Now(), d.open, r)
    ensures OpenAfter(j, old(d.open), d.open, r) && (r.fail.Blind? || r.fail == ChangedOrLocal(e))
    ensures d.faultless ==> !r.fail.Blind? && r.rowGone
    ensures d.faultless ==> Before(j, d.Now()) && (MadeFor(incoming, node) ==> incoming.At() !in d.nodes)
  {
    hide Before, Tree, Always, Since, Aside, Kept, Holds;
    AsideTemp(j, d.Now(), place, incoming.At());
    var back := PutBack(d, place, incoming.At(), j, node, start);
    lied := back.PathTaken?;
    match back {
      case Returned =>
        Discard(d, incoming, j, node, start);
        BeforeKept(j, d.Now());
        d.open := d.open - {j.key};
        r := Failure(ChangedOrLocal(e), true);
      case PathTaken =>
        EmptyAside(j, d.Now(), place, incoming.At());
        DiscardAside(d, incoming, place, j, node, start);
        NotBefore(j, d.Now());
        d.open := d.open - {j.key};
        r := Failure(ChangedOrLocal(e), true);
      case Stranded =>
        AsideKept(j, d.Now(), place, incoming.At());
        r := Failure(Blind(if ChangedOrLocal(e).Local? then e else Trouble), false);
    }
  }
}
