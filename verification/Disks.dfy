/** A folder's filesystem as a map from paths to nodes, the calls a commit makes on it, and the
    commit journal. Any call can fail with any error and then changes nothing; every change is
    recorded, so that what a crash would leave at any moment can be spoken of. */
module Disks {
  import opened Prelude
  import opened Paths
  import opened Entries

  /** A path on disk, by components from the folder root. */
  type Path = seq<string>

  /** An entry, or something that is none: a FIFO, a socket, a device. */
  datatype Node = Plain(o: Observed) | Special {
    predicate IsDir() { Plain? && o.kind == Dir }
  }

  const DIR := Plain(Observed(Dir, 0, 0, false, EMPTY_HASH))

  type Nodes = map<Path, Node>

  const TMP: Path := [".delocal", "tmp"]
  const TRASH: Path := [".delocal", "trash"]

  datatype IoError = Exists | Missing | NotEmpty | NotADirectory | Unsupported | Full | Trouble

  /** A journal row: where what was at the path goes, and the temp its commit renames in. */
  datatype Row = Row(displacedTo: Path, temp: Path)

  /** Why a row is open: what a commit displaced is not back, or a landed commit is unsynced. */
  datatype Open =
    | Displaced(now: Path, back: Path, temp: Path)
    | Unsynced(dirs: seq<Path>)

  datatype Snapshot = Snapshot(nodes: Nodes, rows: map<RelPath, Row>)

  function Get(n: Nodes, p: Path): Option<Node> {
    if p in n then Some(n[p]) else None
  }

  /** The node `r` below `p`. */
  function Below(n: Nodes, p: Path, r: Path): Option<Node> {
    Get(n, p + r)
  }

  function Up(p: Path): Path
    requires p != []
  {
    p[..|p| - 1]
  }

  predicate DirAt(n: Nodes, p: Path) {
    p in n && n[p].IsDir()
  }

  /** Everything above a node is a directory. */
  ghost predicate Tree(n: Nodes) {
    forall p, k :: p in n && 0 <= k < |p| ==> DirAt(n, p[..k])
  }

  /** What is below `p` in `n` is what is below `q` in `m`, node for node. */
  ghost predicate SameTree(n: Nodes, p: Path, m: Nodes, q: Path) {
    forall r :: Below(n, p, r) == Below(m, q, r)
  }

  /** A rename: everything at and under `from` goes to `to`. */
  function Moved(n: Nodes, from: Path, to: Path): Nodes {
    map q | q in (set p | p in n && !(from <= p)) + (set p | p in n && from <= p :: to + p[|from|..])
            && ((to <= q && from + q[|to|..] in n) || q in n) ::
      if to <= q && from + q[|to|..] in n then n[from + q[|to|..]] else n[q]
  }

  /** Nothing is under a path where there is nothing. */
  lemma NothingUnder(n: Nodes, p: Path, q: Path)
    requires Tree(n) && p !in n && p <= q
    ensures q !in n
  {
    assert q[..|p|] == p && (|p| == |q| ==> q[..|p|] == q);
    assert q in n && |p| < |q| ==> DirAt(n, q[..|p|]);
  }

  predicate MayMove(n: Nodes, from: Path, to: Path) {
    from in n && to !in n && to != [] && DirAt(n, Up(to)) && !(from <= to)
  }

  lemma MovedElsewhere(n: Nodes, from: Path, to: Path, q: Path)
    requires Tree(n) && MayMove(n, from, to) && !(from <= q) && !(to <= q)
    ensures Get(Moved(n, from, to), q) == Get(n, q)
  {
  }

  lemma MovedThere(n: Nodes, from: Path, to: Path, r: Path)
    requires Tree(n) && MayMove(n, from, to)
    ensures Below(Moved(n, from, to), to, r) == Below(n, from, r)
  {
    var q := to + r;
    assert q[|to|..] == r;
    NothingUnder(n, to, q);
    assert (from + r)[|from|..] == r;
  }

  lemma MovedAway(n: Nodes, from: Path, to: Path, q: Path)
    requires Tree(n) && MayMove(n, from, to) && from <= q
    ensures q !in Moved(n, from, to)
  {
    if to <= from { NothingUnder(n, to, from); }
    assert |to| <= |q| ==> q[..|from|] == from;
  }

  lemma MovedTree(n: Nodes, from: Path, to: Path)
    requires Tree(n) && MayMove(n, from, to)
    ensures Tree(Moved(n, from, to))
  {
    var m := Moved(n, from, to);
    forall p, k | p in m && 0 <= k < |p| ensures DirAt(m, p[..k]) {
      MovedAbove(n, from, to, p, k);
    }
  }

  lemma UnderWhole(a: Path, p: Path, k: nat)
    requires k <= |p|
    ensures a <= p[..k] ==> a <= p
  {
    assert a <= p[..k] ==> p[..k][..|a|] == p[..|a|];
  }

  lemma MovedAbove(n: Nodes, from: Path, to: Path, p: Path, k: nat)
    requires Tree(n) && MayMove(n, from, to) && p in Moved(n, from, to) && k < |p|
    ensures DirAt(Moved(n, from, to), p[..k])
  {
    var m := Moved(n, from, to);
    if to <= p {
      var r := p[|to|..];
      assert p == to + r;
      MovedThere(n, from, to, r);
      if k >= |to| {
        assert p[..k] == to + r[..k - |to|];
        assert (from + r)[..|from| + (k - |to|)] == from + r[..k - |to|];
        MovedThere(n, from, to, r[..k - |to|]);
      } else {
        assert p[..k] == to[..k];
        AboveTarget(n, from, to, k);
      }
    } else {
      if from <= p { MovedAway(n, from, to, p); }
      MovedElsewhere(n, from, to, p);
      assert DirAt(n, p[..k]);
      UnderWhole(from, p, k);
      UnderWhole(to, p, k);
      MovedElsewhere(n, from, to, p[..k]);
    }
  }

  /** The directories above a rename's target stay. */
  lemma AboveTarget(n: Nodes, from: Path, to: Path, k: nat)
    requires Tree(n) && MayMove(n, from, to) && k < |to|
    ensures DirAt(Moved(n, from, to), to[..k])
  {
    var q := to[..k];
    assert DirAt(n, q) by {
      if k < |Up(to)| { assert Up(to)[..k] == q; } else { assert Up(to) == q; }
    }
    UnderWhole(from, to, k);
    MovedElsewhere(n, from, to, q);
  }

  /** The directory a change at `p` is in. */
  function DirOf(p: Path): Path {
    if p == [] then [] else Up(p)
  }

  /** What a rename leaves unsynced: both directories, and what was so under its new name. */
  ghost function StillUnsynced(unsynced: set<Path>, from: Path, to: Path): set<Path>
    requires from != [] && to != []
  {
    (set p | p in unsynced :: if from <= p then to + p[|from|..] else p) + {Up(from), Up(to)}
  }

  class Disk {
    var nodes: Nodes
    var rows: map<RelPath, Row>
    ghost var history: seq<Snapshot>

    /** Files and directories that changed since they were last synced: a crash may undo it. */
    ghost var unsynced: set<Path>

    /** Paths whose row is open while the host runs, and what resolves each. */
    var open: map<RelPath, Open>

    /** A rename reports `Exists` and `Missing` only where they are so. */
    const honest: bool

    /** Nothing is mounted, and a call fails only over what is on the disk. */
    const faultless: bool

    /** The directories that other disks are mounted at. */
    const mounts: set<Path>

    ghost predicate Valid()
      reads this
    {
      Tree(nodes) && (faultless ==> mounts == {})
    }

    ghost function Now(): Snapshot
      reads this
    {
      Snapshot(nodes, rows)
    }

    constructor (nodes: Nodes, rows: map<RelPath, Row>, honest: bool, faultless: bool, mounts: set<Path>)
      requires Tree(nodes) && (faultless ==> mounts == {})
      ensures Valid() && this.nodes == nodes && this.rows == rows && history == []
      ensures this.honest == honest && this.faultless == faultless && this.mounts == mounts && unsynced == {}
    {
      this.nodes, this.rows, history, open, unsynced := nodes, rows, [], map[], {};
      this.honest, this.faultless, this.mounts := honest, faultless, mounts;
    }

    /** Whether a call fails, and how. */
    method Fault() returns (e: Option<IoError>)
      ensures faultless ==> e.None?
    {
      var fails: bool := *;
      if fails && !faultless {
        var k: IoError := *;
        e := Some(k);
      } else {
        e := None;
      }
    }

    /** What is at `p`; `Missing`, or that something above is no directory, only if nothing is. */
    method Lstat(p: Path) returns (node: Option<Node>, e: IoError)
      ensures node.Some? ==> p in nodes && node.value == nodes[p]
      ensures node.None? && (e == Missing || e == NotADirectory) ==> p !in nodes
      ensures node.None? ==> e != Exists
      ensures faultless && node.None? ==> e == Missing
    {
      var f := Fault();
      if f.Some? {
        var gone := f.value == Missing || f.value == NotADirectory;
        return None, if (gone && p in nodes) || f.value == Exists then Trouble else f.value;
      }
      node, e := Get(nodes, p), Missing;
    }

    /** Rename if nothing is at `to`. */
    method RenameNoReplace(from: Path, to: Path) returns (e: Option<IoError>)
      requires Valid()
      modifies this`nodes, this`unsynced, this`history
      ensures Valid()
      ensures e.None? ==> MayMove(old(nodes), from, to) && nodes == Moved(old(nodes), from, to)
                          && unsynced == StillUnsynced(old(unsynced), from, to)
      ensures e.None? ==> history == old(history) + [Now()]
      ensures e.Some? ==> nodes == old(nodes) && history == old(history) && unsynced == old(unsynced)
      ensures honest && e == Some(Exists) ==> to in nodes
      ensures honest && e == Some(Missing) ==> from !in nodes || to == [] || !DirAt(nodes, Up(to))
      ensures faultless ==> (e.None? <==> MayMove(old(nodes), from, to))
      ensures faultless && e.Some? && (to in nodes || !(from <= to)) ==> e == Some(Exists) || e == Some(Missing)
      ensures faultless ==> e != Some(Unsupported)
    {
      var f := Fault();
      if f.Some? {
        if honest && ((f.value == Exists && to !in nodes)
                      || (f.value == Missing && from in nodes && to != [] && DirAt(nodes, Up(to)))) {
          return Some(Trouble);
        }
        return f;
      }
      if from !in nodes || to == [] || !DirAt(nodes, Up(to)) {
        return Some(Missing);
      }
      if to in nodes {
        return Some(Exists);
      }
      if from <= to {
        return Some(Trouble);
      }
      MovedTree(nodes, from, to);
      nodes := Moved(nodes, from, to);
      unsynced := StillUnsynced(unsynced, from, to);
      history := history + [Now()];
      e := None;
    }

    /** A plain rename: a file at `to` is replaced. */
    method Rename(from: Path, to: Path) returns (e: Option<IoError>)
      requires Valid()
      modifies this`nodes, this`unsynced, this`history
      ensures Valid()
      ensures e.None? && to !in old(nodes) ==>
                MayMove(old(nodes), from, to) && nodes == Moved(old(nodes), from, to)
                && unsynced == StillUnsynced(old(unsynced), from, to)
      ensures e.None? ==> history == old(history) + [Now()]
      ensures e.Some? ==> nodes == old(nodes) && history == old(history) && unsynced == old(unsynced)
      ensures honest && e == Some(Exists) ==> to in nodes
      ensures honest && e == Some(Missing) ==> from !in nodes || to == [] || !DirAt(nodes, Up(to))
    {
      if to !in nodes {
        e := RenameNoReplace(from, to);
        return;
      }
      if from in nodes && !nodes[to].IsDir() && !(from <= to) && !nodes[from].IsDir() && from != to {
        var node := nodes[from];
        LeafReplaced(nodes, from, to);
        nodes := (nodes - {from})[to := node];
        unsynced := if from != [] && to != [] then StillUnsynced(unsynced, from, to) else unsynced;
        history := history + [Now()];
        return None;
      }
      e := Some(Trouble);
    }

    static lemma LeafReplaced(n: Nodes, from: Path, to: Path)
      requires Tree(n) && from in n && to in n && !n[from].IsDir() && !n[to].IsDir()
      ensures Tree((n - {from})[to := n[from]])
    {
      var m := (n - {from})[to := n[from]];
      forall p, k | p in m && 0 <= k < |p| ensures DirAt(m, p[..k]) {
        assert p in n && DirAt(n, p[..k]);
      }
    }

    /** Rename without replacing: where the filesystem cannot refuse, a fresh check and a plain
        rename. */
    method RenameRefusing(from: Path, to: Path) returns (e: Option<IoError>)
      requires Valid()
      modifies this`nodes, this`unsynced, this`history
      ensures Valid()
      ensures e.None? ==> MayMove(old(nodes), from, to) && nodes == Moved(old(nodes), from, to)
                          && unsynced == StillUnsynced(old(unsynced), from, to)
      ensures e.None? ==> history == old(history) + [Now()]
      ensures e.Some? ==> nodes == old(nodes) && history == old(history) && unsynced == old(unsynced)
      ensures honest && e == Some(Exists) ==> to in nodes
      ensures honest && e == Some(Missing) ==> from !in nodes || to == [] || !DirAt(nodes, Up(to))
      ensures faultless ==> (e.None? <==> MayMove(old(nodes), from, to))
      ensures faultless && e.Some? && (to in nodes || !(from <= to)) ==> e == Some(Exists) || e == Some(Missing)
      ensures faultless ==> e != Some(Unsupported)
    {
      e := RenameNoReplace(from, to);
      if e != Some(Unsupported) {
        return;
      }
      var node, why := Lstat(to);
      if node.Some? {
        return Some(Exists);
      }
      if why == Missing {
        e := Rename(from, to);
      } else {
        e := Some(why);
      }
    }

    /** Make one directory where nothing is. */
    method CreateDir(p: Path) returns (e: Option<IoError>)
      requires Valid()
      modifies this`nodes, this`unsynced, this`history
      ensures Valid()
      ensures e.None? ==> MayCreate(old(nodes), p) && nodes == old(nodes)[p := DIR]
      ensures e.None? ==> history == old(history) + [Now()]
      ensures unsynced == if e.None? then old(unsynced) + {DirOf(p)} else old(unsynced)
      ensures e.Some? ==> nodes == old(nodes) && history == old(history)
      ensures faultless ==> (e.None? <==> MayCreate(old(nodes), p))
      ensures faultless && p in old(nodes) ==> e == Some(Exists)
      ensures faultless && e.Some? ==> e == Some(Exists) || e == Some(Missing)
    {
      e := Create(p, DIR);
    }

    /** Make a node where nothing is: a directory, or a symlink. */
    method Create(p: Path, node: Node) returns (e: Option<IoError>)
      requires Valid()
      modifies this`nodes, this`unsynced, this`history
      ensures Valid()
      ensures e.None? ==> MayCreate(old(nodes), p) && nodes == old(nodes)[p := node]
      ensures e.None? ==> history == old(history) + [Now()]
      ensures unsynced == if e.None? then old(unsynced) + {DirOf(p)} else old(unsynced)
      ensures e.Some? ==> nodes == old(nodes) && history == old(history)
      ensures faultless ==> (e.None? <==> MayCreate(old(nodes), p))
      ensures faultless && p in old(nodes) ==> e == Some(Exists)
      ensures faultless && e.Some? ==> e == Some(Exists) || e == Some(Missing)
    {
      e := Fault();
      if e.Some? {
        return;
      }
      if !MayCreate(nodes, p) {
        return Some(if p in nodes then Exists else Missing);
      }
      Created(nodes, p, node);
      nodes := nodes[p := node];
      unsynced := unsynced + {DirOf(p)};
      history := history + [Now()];
    }

    /** Remove an empty directory. */
    method RemoveDir(p: Path) returns (e: Option<IoError>)
      requires Valid() && p != []
      modifies this`nodes, this`unsynced, this`history
      ensures Valid()
      ensures e.None? ==> IsEmptyDir(old(nodes), p) && nodes == old(nodes) - {p}
      ensures e.None? ==> history == old(history) + [Now()]
      ensures unsynced == if e.None? then old(unsynced) + {DirOf(p)} else old(unsynced)
      ensures e.Some? ==> nodes == old(nodes) && history == old(history)
      ensures faultless ==> (e.None? <==> IsEmptyDir(old(nodes), p))
      ensures faultless && e.Some? && DirAt(nodes, p) ==> e == Some(NotEmpty)
    {
      e := Fault();
      if e.Some? {
        return;
      }
      if !DirAt(nodes, p) {
        return Some(if p in nodes then NotADirectory else Missing);
      }
      if exists q :: q in nodes && p <= q && q != p {
        return Some(NotEmpty);
      }
      LeafRemoved(nodes, p);
      nodes := nodes - {p};
      unsynced := unsynced + {DirOf(p)};
      history := history + [Now()];
    }

    /** Remove a file or symlink. */
    method RemoveFile(p: Path) returns (e: Option<IoError>)
      requires Valid()
      modifies this`nodes, this`unsynced, this`history
      ensures Valid()
      ensures e.None? ==> p in old(nodes) && !old(nodes)[p].IsDir() && nodes == old(nodes) - {p}
      ensures e.None? ==> history == old(history) + [Now()]
      ensures unsynced == if e.None? then old(unsynced) + {DirOf(p)} else old(unsynced)
      ensures e.Some? ==> nodes == old(nodes) && history == old(history)
      ensures faultless ==> (e.None? <==> p in old(nodes) && !old(nodes)[p].IsDir())
    {
      e := Fault();
      if e.Some? {
        return;
      }
      if p !in nodes || nodes[p].IsDir() {
        return Some(Missing);
      }
      LeafRemoved(nodes, p);
      nodes := nodes - {p};
      unsynced := unsynced + {DirOf(p)};
      history := history + [Now()];
    }

    /** Set a file's mode or mtime. */
    method SetAttributes(p: Path, node: Node) returns (e: Option<IoError>)
      requires Valid() && !node.IsDir()
      modifies this`nodes, this`unsynced, this`history
      ensures Valid()
      ensures e.None? ==> p in old(nodes) && !old(nodes)[p].IsDir() && nodes == old(nodes)[p := node]
      ensures e.None? ==> history == old(history) + [Now()]
      ensures unsynced == if e.None? then old(unsynced) + {p} else old(unsynced)
      ensures e.Some? ==> nodes == old(nodes) && history == old(history)
      ensures faultless ==> (e.None? <==> p in old(nodes) && !old(nodes)[p].IsDir())
    {
      e := Fault();
      if e.Some? {
        return;
      }
      if p !in nodes || nodes[p].IsDir() {
        return Some(Missing);
      }
      LeafChanged(nodes, p, node);
      nodes := nodes[p := node];
      unsynced := unsynced + {p};
      history := history + [Now()];
    }

    /** Sync a file or a directory: what changed in it outlasts a crash, unless this fails. */
    method Sync(p: Path) returns (e: Option<IoError>)
      modifies this`unsynced
      ensures unsynced == if e.None? then old(unsynced) - {p} else old(unsynced)
      ensures honest && (e == Some(Missing) || e == Some(NotADirectory)) ==> !DirAt(nodes, p)
      ensures faultless ==> e.None?
    {
      e := Fault();
      if e.None? {
        unsynced := unsynced - {p};
      } else if honest && (e.value == Missing || e.value == NotADirectory) && DirAt(nodes, p) {
        e := Some(Trouble);
      }
    }

    /** Whether a disk is mounted inside a directory, if all of it can be listed. */
    method MountedBeneath(dir: Path) returns (mounted: bool, e: Option<IoError>)
      ensures e.None? ==> (mounted <==> exists m :: m in mounts && dir <= m && m != dir)
      ensures faultless ==> e.None?
    {
      e := Fault();
      mounted := e.None? && exists m :: m in mounts && dir <= m && m != dir;
    }

    /** The names of what is directly in a directory. */
    method ReadDir(p: Path) returns (children: set<Path>, e: Option<IoError>)
      ensures faultless ==> (e.None? <==> DirAt(nodes, p))
      ensures e.None? ==> DirAt(nodes, p) && children == set q | q in nodes && q != [] && Up(q) == p
    {
      e := Fault();
      children := {};
      if e.None? {
        if DirAt(nodes, p) {
          children := set q | q in nodes && q != [] && Up(q) == p;
        } else {
          e := Some(NotADirectory);
        }
      }
    }

    /** A journal row made durable, or not. */
    method PutRow(p: RelPath, row: Row) returns (e: Option<IoError>)
      requires Valid()
      modifies this`rows, this`history
      ensures Valid()
      ensures e.None? ==> rows == old(rows)[p := row] && history == old(history) + [Now()]
      ensures e.Some? ==> rows == old(rows) && history == old(history)
      ensures faultless ==> e.None?
    {
      e := Fault();
      if e.None? {
        rows := rows[p := row];
        history := history + [Now()];
      }
    }

    /** A journal row dropped durably, or not. */
    method DropRow(p: RelPath) returns (e: Option<IoError>)
      requires Valid()
      modifies this`rows, this`history
      ensures Valid()
      ensures e.None? ==> rows == old(rows) - {p} && history == old(history) + [Now()]
      ensures e.Some? ==> rows == old(rows) && history == old(history)
      ensures faultless ==> e.None?
    {
      e := Fault();
      if e.None? {
        rows := rows - {p};
        history := history + [Now()];
      }
    }
  }

  predicate MayCreate(n: Nodes, p: Path) {
    p !in n && p != [] && DirAt(n, Up(p))
  }

  predicate IsEmptyDir(n: Nodes, p: Path) {
    DirAt(n, p) && forall q :: q in n && p <= q ==> q == p
  }

  lemma Created(n: Nodes, p: Path, node: Node)
    requires Tree(n) && MayCreate(n, p)
    ensures Tree(n[p := node])
  {
    var m := n[p := node];
    forall q, k | q in m && 0 <= k < |q| ensures DirAt(m, q[..k]) {
      if q == p {
        if k < |p| - 1 {
          assert Up(p)[..k] == p[..k];
        } else {
          assert p[..k] == Up(p);
        }
      }
    }
  }

  lemma LeafRemoved(n: Nodes, p: Path)
    requires Tree(n) && p in n && (n[p].IsDir() ==> IsEmptyDir(n, p))
    ensures Tree(n - {p})
  {
    var m := n - {p};
    forall q, k | q in m && 0 <= k < |q| ensures DirAt(m, q[..k]) {
      assert DirAt(n, q[..k]);
      assert q[..k] <= q;
    }
  }

  lemma LeafChanged(n: Nodes, p: Path, node: Node)
    requires Tree(n) && p in n && !n[p].IsDir()
    ensures Tree(n[p := node])
  {
    var m := n[p := node];
    forall q, k | q in m && 0 <= k < |q| ensures DirAt(m, q[..k]) {
      assert DirAt(n, q[..k]);
    }
  }
}
