/** A scan: an explicit-stack walk of the tree on disk, whose silence about a path means that
    nothing is there. */
module Scanner {
  import opened Prelude
  import opened Paths
  import opened Entries
  import opened DiskNames

  /** What is on disk: a static tree. A directory's device tells mount points from the rest. */
  datatype Thing =
    | FileThing(size: nat, mtime: int, exec: bool, hash: ContentHash)
    | LinkThing(size: nat, hash: ContentHash)
    | DirThing(device: nat, children: seq<Child>)
    | OtherThing

  datatype Child = Child(name: string, thing: Thing)

  function KindOf(t: Thing): Option<Kind> {
    match t
    case FileThing(_, _, _, _) => Some(File)
    case LinkThing(_, _) => Some(Symlink)
    case DirThing(_, _) => Some(Dir)
    case OtherThing => None
  }

  datatype SkipReason = Io | PermissionDenied | CoincidingNames | Unstable | Ignored

  datatype State = Observation(seen: Observed) | Unchanged | Skipped(reason: SkipReason)

  datatype Report = Report(path: RelPath, state: State)

  /** Errors a call can meet on a tree that does not change: anything but not-found. */
  datatype Error = Permission | NotThatKind | Trouble

  /** The calls on an entry: its stat, and then opening, listing, reading or hashing it. */
  datatype Call = Stating | Reading

  function SkippedFor(e: Error): State {
    Skipped(match e case Permission => PermissionDenied case NotThatKind => Unstable case Trouble => Io)
  }

  /** What a scan is given: the live records, the paths with an open journal row, the rules asked
      of one entry, the root's device and normal forms; which calls fail, which files changed too
      recently to hash, and why the rules could not be read, if they could not. */
  datatype Env = Env(live: map<RelPath, Entry>, open: set<RelPath>, ignoresEntry: (RelPath, bool) -> bool,
                     device: nat, nfc: Nfc, fault: (RelPath, Call) -> Option<Error>,
                     unsettled: set<RelPath>, unruled: Option<Error>)
  {
    /** Whether a row that is open skips the path. */
    predicate IsOpen(p: RelPath) {
      exists o :: o in open && (o == p || IsAncestor(o, p))
    }

    predicate UnchangedAt(p: RelPath, seen: Observed) {
      p in live && live[p].UnchangedByStat(seen)
    }

    function Fast(p: RelPath, seen: Observed): State {
      if UnchangedAt(p, seen) then Unchanged else Observation(seen)
    }

    /** The path is ignored, or a directory above it is. */
    predicate Ignores(p: RelPath, isDir: bool) {
      IgnoresAbove(p) || ignoresEntry(p, isDir)
    }

    predicate IgnoresAbove(p: RelPath)
      decreases |p|
    {
      match Parent(p)
      case None => false
      case Some(above) =>
        ParentJoin(p);
        ignoresEntry(above, true) || IgnoresAbove(above)
    }
  }

  ghost predicate AtOrAbove(q: RelPath, p: RelPath) {
    q == p || IsAncestor(q, p)
  }

  /** A path is ignored exactly if a rule matches it, or a directory above it. */
  lemma {:induction false} IgnoredBy(env: Env, p: RelPath, isDir: bool)
    ensures env.IgnoresAbove(p) <==> exists a :: IsAncestor(a, p) && env.ignoresEntry(a, true)
    ensures env.Ignores(p, isDir)
       <==> env.ignoresEntry(p, isDir) || exists a :: IsAncestor(a, p) && env.ignoresEntry(a, true)
    decreases |p|
  {
    ParentJoin(p);
    if Parent(p).Some? {
      var above := Parent(p).value;
      IgnoredBy(env, above, true);
      forall a | IsAncestor(a, above) ensures IsAncestor(a, p) {
        AncestorTransitive(a, above, p);
      }
    }
  }

  /** An ignored directory ignores everything beneath it. */
  lemma IgnoredBeneath(env: Env, a: RelPath, p: RelPath)
    requires IsAncestor(a, p) && env.Ignores(a, true)
    ensures env.IgnoresAbove(p)
  {
    IgnoredBy(env, a, true);
    IgnoredBy(env, p, true);
    if !env.ignoresEntry(a, true) {
      var b :| IsAncestor(b, a) && env.ignoresEntry(b, true);
      AncestorTransitive(b, a, p);
    }
  }

  // What may be said of an entry.

  /** What there is to see of it. */
  ghost function Sight(t: Thing): Observed
    requires !t.OtherThing?
  {
    match t
    case FileThing(size, mtime, exec, hash) => Observed(File, size, mtime, exec, hash)
    case LinkThing(size, hash) => Observed(Symlink, size, 0, false, hash)
    case DirThing(_, _) => Observed(Dir, 0, 0, false, 0)
  }

  /** The live record at the path says so already, as far as can be told without hashing. */
  ghost predicate Recorded(env: Env, p: RelPath, seen: Observed) {
    p in env.live && !env.live[p].deleted &&
    var e := env.live[p];
    LooksLike(Observed(e.kind, e.size, e.mtime, e.exec, e.hash), seen)
  }

  ghost predicate SkipsWith(e: Option<Error>, why: SkipReason) {
    || (e == Some(Permission) && why == PermissionDenied)
    || (e == Some(NotThatKind) && why == Unstable)
    || (e == Some(Trouble) && why == Io)
  }

  /** What a scan that looks at the entry may report: what it saw, if the record does not say so
      already; that it does; or the reason why it could not tell. A file that looks as recorded
      is not read, nor is one that changed too recently. */
  ghost predicate SaysOf(env: Env, t: Thing, p: RelPath, state: State) {
    if env.fault(p, Stating).Some? then
      state.Skipped? && SkipsWith(env.fault(p, Stating), state.reason)
    else
      !t.OtherThing? &&
      if t.FileThing? && Recorded(env, p, Sight(t)) then state == Unchanged
      else if t.FileThing? && p in env.unsettled then state == Skipped(Unstable)
      else if env.fault(p, Reading).Some? then state.Skipped? && SkipsWith(env.fault(p, Reading), state.reason)
      else if Recorded(env, p, Sight(t)) then state == Unchanged
      else state == Observation(Sight(t))
  }

  // Where an entry is on disk.

  /** `t` is on disk at index path `p`, at or beneath `c` in the directory `parent`. */
  ghost predicate OnDiskAt(nfc: Nfc, c: Child, parent: Option<RelPath>, p: RelPath, t: Thing)
    decreases c
  {
    var n := NameOf(nfc, parent, c.name);
    n.AtPath? &&
    ((n.path == p && c.thing == t && !t.OtherThing?)
     || (c.thing.DirThing? && OnDiskIn(nfc, c.thing.children, Some(n.path), p, t)))
  }

  ghost predicate OnDiskIn(nfc: Nfc, cs: seq<Child>, parent: Option<RelPath>, p: RelPath, t: Thing)
    decreases cs
  {
    exists i :: 0 <= i < |cs| && OnDiskAt(nfc, cs[i], parent, p, t)
  }

  lemma {:induction false} BeneathAt(nfc: Nfc, c: Child, parent: Option<RelPath>, p: RelPath, t: Thing)
    requires OnDiskAt(nfc, c, parent, p, t)
    ensures AtOrAbove(NameOf(nfc, parent, c.name).path, p)
    decreases c
  {
    var n := NameOf(nfc, parent, c.name);
    if c.thing.DirThing? && OnDiskIn(nfc, c.thing.children, Some(n.path), p, t) {
      var i :| 0 <= i < |c.thing.children| && OnDiskAt(nfc, c.thing.children[i], Some(n.path), p, t);
      var m := NameOf(nfc, Some(n.path), c.thing.children[i].name);
      BeneathAt(nfc, c.thing.children[i], Some(n.path), p, t);
      if p != m.path { AncestorTransitive(n.path, m.path, p); }
    }
  }

  // What a walk reaches.

  function Names(cs: seq<Child>): seq<string> {
    seq(|cs|, i requires 0 <= i < |cs| => cs[i].name)
  }

  /** The name is that of an index path, alone in its directory, and no open row skips it. */
  ghost predicate Meets(env: Env, cs: seq<Child>, at: Option<RelPath>, i: nat, p: RelPath) {
    && i < |cs| && MapsTo(env.nfc, at, cs[i].name, p)
    && !Clashes(env.nfc, at, Names(cs), i) && !env.IsOpen(p)
  }

  /** A directory that is gone into: no rule ignores it, it is on the root's device, and it can be
      stated and listed. */
  ghost predicate Enters(env: Env, cs: seq<Child>, at: Option<RelPath>, i: nat, p: RelPath) {
    && Meets(env, cs, at, i, p)
    && cs[i].thing.DirThing? && cs[i].thing.device == env.device && !env.ignoresEntry(p, true)
    && env.fault(p, Stating).None? && env.fault(p, Reading).None?
  }

  /** `cs`, at index path `at`, is what `root` lists, or what a directory the walk goes into from
      there lists. */
  ghost predicate Reaches(env: Env, root: seq<Child>, from: Option<RelPath>, cs: seq<Child>, at: Option<RelPath>)
    decreases root
  {
    || (cs == root && at == from)
    || exists i: nat, p :: i < |root| && Enters(env, root, from, i, p) && root[i].thing.DirThing?
                           && Reaches(env, root[i].thing.children, Some(p), cs, at)
  }

  lemma {:induction false} ReachesDeeper(env: Env, root: seq<Child>, from: Option<RelPath>,
                                         cs: seq<Child>, at: Option<RelPath>, i: nat, p: RelPath)
    requires Reaches(env, root, from, cs, at) && Enters(env, cs, at, i, p)
    ensures Reaches(env, root, from, cs[i].thing.children, Some(p))
    decreases root
  {
    hide Enters;
    if cs == root && at == from {
      assert i < |root| && root[i].thing.DirThing? by { EntersDir(env, cs, at, i, p); }
      assert Reaches(env, root[i].thing.children, Some(p), cs[i].thing.children, Some(p));
    } else {
      var j: nat, q :| j < |root| && Enters(env, root, from, j, q) && root[j].thing.DirThing?
                       && Reaches(env, root[j].thing.children, Some(q), cs, at);
      ReachesDeeper(env, root[j].thing.children, Some(q), cs, at, i, p);
    }
  }

  lemma EntersDir(env: Env, cs: seq<Child>, at: Option<RelPath>, i: nat, p: RelPath)
    requires Enters(env, cs, at, i, p)
    ensures i < |cs| && cs[i].thing.DirThing? && MapsTo(env.nfc, at, cs[i].name, p)
  {
  }

  /** What the walk reaches is on disk where it says. */
  lemma {:induction false} ReachedOnDisk(env: Env, root: seq<Child>, from: Option<RelPath>,
                                         cs: seq<Child>, at: Option<RelPath>, i: nat, p: RelPath)
    requires Reaches(env, root, from, cs, at)
    requires i < |cs| && MapsTo(env.nfc, at, cs[i].name, p) && !cs[i].thing.OtherThing?
    ensures OnDiskIn(env.nfc, root, from, p, cs[i].thing)
    decreases root
  {
    hide Enters, NameOf;
    if cs == root && at == from {
      assert OnDiskAt(env.nfc, root[i], from, p, cs[i].thing);
    } else {
      var j: nat, q :| j < |root| && Enters(env, root, from, j, q) && root[j].thing.DirThing?
                       && Reaches(env, root[j].thing.children, Some(q), cs, at);
      ReachedOnDisk(env, root[j].thing.children, Some(q), cs, at, i, p);
      EntersDir(env, root, from, j, q);
      assert OnDiskAt(env.nfc, root[j], from, p, cs[i].thing);
    }
  }

  // Why a path is reported.

  ghost predicate IsLive(env: Env, p: RelPath) {
    p in env.live && !env.live[p].deleted
  }

  /** A directory on another device than the root's is on disk at the path. */
  ghost predicate Foreign(env: Env, root: seq<Child>, m: RelPath) {
    exists t: Thing :: t.DirThing? && t.device != env.device && OnDiskIn(env.nfc, root, None, m, t)
  }

  /** The walk looked at an entry at the path; what it says is so, and the name the entry has on
      disk is kept if it is not the path's own. No rule ignored the entry, as far as it could tell
      what it is, and it was no mount point. */
  ghost predicate SaidAt(env: Env, root: seq<Child>, kept: seq<(RelPath, string)>, cs: seq<Child>,
                         at: Option<RelPath>, i: nat, r: Report) {
    && Reaches(env, root, None, cs, at) && Meets(env, cs, at, i, r.path) && i < |cs|
    && SaysOf(env, cs[i].thing, r.path, r.state)
    && (cs[i].name != FileName(r.path) ==> (r.path, cs[i].name) in kept)
    && (if env.fault(r.path, Stating).Some?
        then !(env.ignoresEntry(r.path, false) && env.ignoresEntry(r.path, true))
        else !env.ignoresEntry(r.path, cs[i].thing.DirThing?)
             && (cs[i].thing.DirThing? ==> cs[i].thing.device == env.device))
  }

  ghost predicate Said(env: Env, root: seq<Child>, kept: seq<(RelPath, string)>, r: Report) {
    exists cs: seq<Child>, at, i: nat :: SaidAt(env, root, kept, cs, at, i, r)
  }

  /** A directory the walk lists has two names for the path. */
  ghost predicate Coincide(env: Env, root: seq<Child>, p: RelPath) {
    exists cs: seq<Child>, at, i: nat, j: nat ::
      Reaches(env, root, None, cs, at) && i < j < |cs|
      && MapsTo(env.nfc, at, cs[i].name, p) && MapsTo(env.nfc, at, cs[j].name, p)
  }

  /** The record is frozen: a rule ignores it, or it is at or beneath a mount point. */
  ghost predicate Frozen(env: Env, root: seq<Child>, p: RelPath) {
    && IsLive(env, p)
    && ((exists m :: AtOrAbove(m, p) && Foreign(env, root, m)) || env.Ignores(p, env.live[p].kind == Dir))
  }

  /** With the rules unknown, a path at the top that is on disk, or has a live record at or
      beneath it. */
  ghost predicate AtTop(env: Env, root: seq<Child>, p: RelPath) {
    || (exists i: nat :: i < |root| && MapsTo(env.nfc, None, root[i].name, p))
    || (Parent(p) == None && exists q :: IsLive(env, q) && AtOrAbove(p, q))
  }

  /** Why a scan may report what it does. */
  ghost predicate Grounds(env: Env, root: seq<Child>, kept: seq<(RelPath, string)>, r: Report) {
    if env.unruled.Some? then
      AtTop(env, root, r.path)
      && r.state == Skipped(if env.unruled == Some(Permission) then PermissionDenied else Io)
    else
      || (env.IsOpen(r.path) && r.state == Skipped(Io))
      || Said(env, root, kept, r)
      || (Coincide(env, root, r.path) && r.state == Skipped(CoincidingNames))
      || (Frozen(env, root, r.path) && !env.IsOpen(r.path) && r.state == Skipped(Ignored))
  }

  lemma KeptMore(env: Env, root: seq<Child>, kept: seq<(RelPath, string)>, more: seq<(RelPath, string)>, r: Report)
    requires Grounds(env, root, kept, r)
    ensures Grounds(env, root, kept + more, r)
  {
    hide Reaches, Meets, SaysOf, Coincide, Frozen, Env.IsOpen, AtTop;
    if env.unruled.None? && Said(env, root, kept, r) {
      var cs, at, i: nat :| SaidAt(env, root, kept, cs, at, i, r);
      assert SaidAt(env, root, kept + more, cs, at, i, r);
    }
  }

  /** A kept name is one that an entry the walk met has on disk, and not its path's own. */
  ghost predicate RightlyKept(env: Env, root: seq<Child>, path: RelPath, disk: string) {
    && disk != FileName(path)
    && exists cs: seq<Child>, at, i: nat ::
         Reaches(env, root, None, cs, at) && Meets(env, cs, at, i, path) && i < |cs| && cs[i].name == disk
  }

  /** A name differs exactly if it is not the last component of its path. */
  lemma DiffersFromName(nfc: Nfc, parent: Option<RelPath>, disk: string)
    requires NameOf(nfc, parent, disk).AtPath?
    ensures NameOf(nfc, parent, disk).differs <==> disk != FileName(NameOf(nfc, parent, disk).path)
  {
    JoinParent(parent, nfc(disk).value);
  }

  /** A name marked as coinciding has another of its directory's beside it, and one that is not
      is alone at its path. */
  lemma MarkedMeans(env: Env, root: seq<Child>, cs: seq<Child>, at: Option<RelPath>, i: nat)
    requires Reaches(env, root, None, cs, at) && i < |cs|
    ensures var m := Marked(env.nfc, at, Names(cs), i);
            && (m.AtPath? ==> MapsTo(env.nfc, at, cs[i].name, m.path) && !Clashes(env.nfc, at, Names(cs), i)
                              && m == NameOf(env.nfc, at, cs[i].name))
            && (m.Unseen? && m.why.Coincides? ==>
                  Coincide(env, root, m.why.path) && MapsTo(env.nfc, at, cs[i].name, m.why.path))
            && (m.Reserved? || (m.Unseen? && !m.why.Coincides?) ==> !NameOf(env.nfc, at, cs[i].name).AtPath?)
  {
    hide Reaches;
    NeverCoincides(env.nfc, at, cs[i].name);
    hide NameOf;
    assert Names(cs)[i] == cs[i].name;
    if Clashes(env.nfc, at, Names(cs), i) {
      var p := NameOf(env.nfc, at, cs[i].name).path;
      var j :| 0 <= j < |Names(cs)| && j != i && NameOf(env.nfc, at, Names(cs)[j]).AtPath?
               && NameOf(env.nfc, at, Names(cs)[j]).path == p;
      assert Names(cs)[j] == cs[j].name;
      assert MapsTo(env.nfc, at, cs[i].name, p) && MapsTo(env.nfc, at, cs[j].name, p);
      var a: nat, b: nat := if i < j then i else j, if i < j then j else i;
      assert Reaches(env, root, None, cs, at) && a < b < |cs| && MapsTo(env.nfc, at, cs[a].name, p)
             && MapsTo(env.nfc, at, cs[b].name, p);
    }
  }

  lemma NeverCoincides(nfc: Nfc, parent: Option<RelPath>, disk: string)
    ensures NameOf(nfc, parent, disk).Unseen? ==> !NameOf(nfc, parent, disk).why.Coincides?
  {
  }

  // What a scan that finished says.

  /** The scan cannot know what is at the path: a row is open or a rule ignores it, or a directory
      above it is on another device, or cannot be stated or listed. */
  ghost predicate Unknowable(env: Env, root: seq<Child>, p: RelPath, k: Kind) {
    || env.IsOpen(p) || env.Ignores(p, k == Dir)
    || exists q, t: Thing :: OnDiskIn(env.nfc, root, None, q, t) && Opaque(env, q, t)
                      && (IsAncestor(q, p) || (q == p && k == Dir))
  }

  ghost predicate Opaque(env: Env, q: RelPath, t: Thing) {
    t.DirThing? && (t.device != env.device || env.fault(q, Stating).Some? || env.fault(q, Reading).Some?)
  }

  /** Nothing at or above the path keeps the scan from telling what is there: no open row, no
      failing call, no file just changed, no two names for one path, no mount point, no rule. */
  ghost predicate Clear(env: Env, root: seq<Child>, p: RelPath) {
    forall q :: AtOrAbove(q, p) ==>
      && q !in env.open && q !in env.unsettled
      && env.fault(q, Stating).None? && env.fault(q, Reading).None?
      && !Coincide(env, root, q) && !Foreign(env, root, q)
      && (forall t :: OnDiskIn(env.nfc, root, None, q, t) ==> !env.ignoresEntry(q, t.DirThing?))
      && (IsLive(env, q) ==> !env.ignoresEntry(q, env.live[q].kind == Dir))
      && (q != p ==> !env.ignoresEntry(q, true))
  }
}
