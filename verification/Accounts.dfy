/** What a walk has accounted for, and what it has left to look at. */
module Accounts {
  import opened Prelude
  import opened Paths
  import opened Entries
  import opened DiskNames
  import opened Scanner

  // Termination.

  function Size(t: Thing): nat
    decreases t
  {
    if t.DirThing? then 1 + SizeAll(t.children) else 0
  }

  /** The steps a directory's names take, with everything beneath them. */
  function SizeAll(cs: seq<Child>): nat
    decreases cs
  {
    if cs == [] then 0 else 1 + Size(cs[0].thing) + SizeAll(cs[1..])
  }

  /** A directory the walk is in, and its names that are still to come. */
  datatype Level = Level(index: Option<RelPath>, todo: seq<Child>, names: seq<Name>, coinciding: set<RelPath>)

  function StackSize(stack: seq<Level>): nat {
    if stack == [] then 0
    else 1 + SizeAll(stack[|stack| - 1].todo) + StackSize(stack[..|stack| - 1])
  }

  // What is accounted for.

  ghost predicate Reported(reports: seq<Report>, p: RelPath) {
    exists r :: r in reports && r.path == p
  }

  ghost predicate SkippedAt(reports: seq<Report>, p: RelPath) {
    exists r :: r in reports && r.path == p && r.state.Skipped?
  }

  /** A skip at the path, or above it. */
  ghost predicate SkippedOver(reports: seq<Report>, p: RelPath) {
    exists r :: r in reports && r.state.Skipped? && AtOrAbove(r.path, p)
  }

  ghost predicate Covered(reports: seq<Report>, p: RelPath) {
    Reported(reports, p) || SkippedOver(reports, p)
  }

  ghost predicate UnderMount(mounts: seq<RelPath>, p: RelPath) {
    exists m :: m in mounts && AtOrAbove(m, p)
  }

  /** Nothing keeps it from being told apart: it can be stated and, if it is a directory, it is on
      the root's device and can be listed. */
  ghost predicate Plain(env: Env, p: RelPath, t: Thing) {
    && env.fault(p, Stating).None?
    && (t.DirThing? ==> t.device == env.device && env.fault(p, Reading).None?)
  }

  /** Reported if nothing keeps it from being told apart, and otherwise under a skip, or to be
      skipped after the walk: under a rule or at or beneath a mount point. */
  ghost predicate Handled(env: Env, reports: seq<Report>, mounts: seq<RelPath>, p: RelPath, t: Thing) {
    || (Reported(reports, p) && Plain(env, p, t))
    || SkippedOver(reports, p)
    || UnderMount(mounts, p)
    || env.Ignores(p, t.DirThing?)
  }

  /** What is left of a directory the walk went into, each name marked as its whole directory
      marks it. */
  ghost predicate LeftOf(env: Env, root: seq<Child>, l: Level, cs: seq<Child>) {
    && Reaches(env, root, None, cs, l.index)
    && |l.names| == |l.todo| <= |cs| && l.todo == cs[|cs| - |l.todo|..]
    && (forall i: nat :: i < |l.todo| ==>
          l.names[i] == Marked(env.nfc, l.index, Names(cs), |cs| - |l.todo| + i))
  }

  ghost predicate Listed(env: Env, root: seq<Child>, l: Level) {
    exists cs: seq<Child> :: LeftOf(env, root, l, cs)
  }

  /** The paths reported as coinciding were skipped. */
  ghost predicate LevelOk(env: Env, root: seq<Child>, l: Level, reports: seq<Report>) {
    Listed(env, root, l) && forall q :: q in l.coinciding ==> SkippedAt(reports, q)
  }

  ghost predicate Left(nfc: Nfc, stack: seq<Level>, p: RelPath, t: Thing) {
    exists i :: 0 <= i < |stack| && OnDiskIn(nfc, stack[i].todo, stack[i].index, p, t)
  }

  /** Whatever is on disk is handled, or still to be met. */
  ghost predicate Accounted(env: Env, root: seq<Child>, stack: seq<Level>, reports: seq<Report>, mounts: seq<RelPath>) {
    forall p, t :: OnDiskIn(env.nfc, root, None, p, t) ==>
      Handled(env, reports, mounts, p, t) || Left(env.nfc, stack, p, t)
  }

  /** Reports and mounts only grow. */
  lemma HandledStays(env: Env, reports: seq<Report>, mounts: seq<RelPath>, more: seq<Report>, ms: seq<RelPath>,
                     p: RelPath, t: Thing)
    requires Handled(env, reports, mounts, p, t)
    ensures Handled(env, reports + more, mounts + ms, p, t)
  {
    if Reported(reports, p) && Plain(env, p, t) {
      var r :| r in reports && r.path == p;
      assert r in reports + more;
    } else if SkippedOver(reports, p) {
      var r :| r in reports && r.state.Skipped? && AtOrAbove(r.path, p);
      assert r in reports + more;
    } else if UnderMount(mounts, p) {
      var m :| m in mounts && AtOrAbove(m, p);
      assert m in mounts + ms;
    }
  }

  lemma LevelStays(env: Env, root: seq<Child>, l: Level, reports: seq<Report>, more: seq<Report>)
    requires LevelOk(env, root, l, reports)
    ensures LevelOk(env, root, l, reports + more)
  {
    forall q | q in l.coinciding ensures SkippedAt(reports + more, q) {
      var r :| r in reports && r.path == q && r.state.Skipped?;
      assert r in reports + more;
    }
  }

  /** How one child is dealt with: everything at and beneath it is handled, or it is entered. */
  ghost predicate Dealt(env: Env, c: Child, parent: Option<RelPath>, entered: bool,
                        reports: seq<Report>, mounts: seq<RelPath>) {
    forall p, t :: OnDiskAt(env.nfc, c, parent, p, t) ==>
      || Handled(env, reports, mounts, p, t)
      || (entered && NameOf(env.nfc, parent, c.name).AtPath? && c.thing.DirThing?
          && OnDiskIn(env.nfc, c.thing.children, Some(NameOf(env.nfc, parent, c.name).path), p, t))
  }

  lemma SkipDeals(env: Env, c: Child, parent: Option<RelPath>, reports: seq<Report>, mounts: seq<RelPath>)
    requires NameOf(env.nfc, parent, c.name).AtPath?
    requires SkippedAt(reports, NameOf(env.nfc, parent, c.name).path)
    ensures Dealt(env, c, parent, false, reports, mounts)
  {
    var q := NameOf(env.nfc, parent, c.name).path;
    forall p, t | OnDiskAt(env.nfc, c, parent, p, t) ensures Handled(env, reports, mounts, p, t) {
      BeneathAt(env.nfc, c, parent, p, t);
      var r :| r in reports && r.path == q && r.state.Skipped?;
      assert SkippedOver(reports, p);
    }
  }

  lemma RuleDeals(env: Env, c: Child, parent: Option<RelPath>, reports: seq<Report>, mounts: seq<RelPath>)
    requires NameOf(env.nfc, parent, c.name).AtPath?
    requires var q := NameOf(env.nfc, parent, c.name).path;
             env.ignoresEntry(q, c.thing.DirThing?)
    ensures Dealt(env, c, parent, false, reports, mounts)
  {
    var q := NameOf(env.nfc, parent, c.name).path;
    forall p, t | OnDiskAt(env.nfc, c, parent, p, t) ensures Handled(env, reports, mounts, p, t) {
      BeneathAt(env.nfc, c, parent, p, t);
      if p == q && c.thing == t {
        assert env.ignoresEntry(p, t.DirThing?);
      } else {
        DeeperThan(env.nfc, c, parent, p, t);
        IgnoredBeneath(env, q, p);
      }
    }
  }

  /** What is on disk beneath a child, and not at it, is strictly beneath its path. */
  lemma DeeperThan(nfc: Nfc, c: Child, parent: Option<RelPath>, p: RelPath, t: Thing)
    requires OnDiskAt(nfc, c, parent, p, t)
    requires !(p == NameOf(nfc, parent, c.name).path && c.thing == t)
    ensures c.thing.DirThing? && IsAncestor(NameOf(nfc, parent, c.name).path, p)
  {
    var n := NameOf(nfc, parent, c.name);
    var i :| 0 <= i < |c.thing.children| && OnDiskAt(nfc, c.thing.children[i], Some(n.path), p, t);
    var m := NameOf(nfc, Some(n.path), c.thing.children[i].name);
    BeneathAt(nfc, c.thing.children[i], Some(n.path), p, t);
    if p != m.path { AncestorTransitive(n.path, m.path, p); }
  }

  lemma MountDeals(env: Env, c: Child, parent: Option<RelPath>, reports: seq<Report>, mounts: seq<RelPath>)
    requires NameOf(env.nfc, parent, c.name).AtPath? && NameOf(env.nfc, parent, c.name).path in mounts
    ensures Dealt(env, c, parent, false, reports, mounts)
  {
    forall p, t | OnDiskAt(env.nfc, c, parent, p, t) ensures Handled(env, reports, mounts, p, t) {
      BeneathAt(env.nfc, c, parent, p, t);
    }
  }

  /** A report at a plain entry that is not entered handles it; at one that is entered, itself. */
  lemma ReportDeals(env: Env, c: Child, parent: Option<RelPath>, reports: seq<Report>, mounts: seq<RelPath>)
    requires NameOf(env.nfc, parent, c.name).AtPath?
    requires Reported(reports, NameOf(env.nfc, parent, c.name).path)
    requires Plain(env, NameOf(env.nfc, parent, c.name).path, c.thing)
    ensures Dealt(env, c, parent, c.thing.DirThing?, reports, mounts)
  {
    var q := NameOf(env.nfc, parent, c.name).path;
    forall p, t | OnDiskAt(env.nfc, c, parent, p, t)
      ensures Handled(env, reports, mounts, p, t)
              || (c.thing.DirThing? && OnDiskIn(env.nfc, c.thing.children, Some(q), p, t))
    {
    }
  }

  lemma NothingDeals(env: Env, c: Child, parent: Option<RelPath>, reports: seq<Report>, mounts: seq<RelPath>)
    requires !NameOf(env.nfc, parent, c.name).AtPath? || c.thing.OtherThing?
    ensures Dealt(env, c, parent, false, reports, mounts)
  {
  }

  /** What a finished scan says of a path that is clear: something is there exactly if there is a
      report or a skip; a report is of what is there, and says `Unchanged` exactly if the record
      says so already; and no skip is above. */
  ghost predicate Tells(env: Env, root: seq<Child>, reports: seq<Report>, p: RelPath) {
    && (Covered(reports, p) <==> exists t :: OnDiskIn(env.nfc, root, None, p, t))
    && (forall r :: r in reports && r.path == p ==> ToldOf(env, root, p, r.state))
    && (forall r :: r in reports && IsAncestor(r.path, p) ==> !r.state.Skipped?)
  }

  ghost predicate ToldOf(env: Env, root: seq<Child>, p: RelPath, state: State) {
    exists t: Thing :: OnDiskIn(env.nfc, root, None, p, t) && !t.OtherThing?
      && state == if Recorded(env, p, Sight(t)) then Unchanged else Observation(Sight(t))
  }

  /** At a clear path, and above it, a report is of what is there. */
  lemma ClearTold(env: Env, root: seq<Child>, kept: seq<(RelPath, string)>, p: RelPath, r: Report)
    requires env.unruled.None? && Clear(env, root, p) && Grounds(env, root, kept, r) && AtOrAbove(r.path, p)
    ensures ToldOf(env, root, r.path, r.state)
  {
    hide Reaches, NameOf, Coincide, Foreign, OnDiskIn, Recorded;
    var q := r.path;
    NotOpen(env, root, p, q);
    NotFrozen(env, root, p, q);
    var cs: seq<Child>, at, i: nat :| SaidAt(env, root, kept, cs, at, i, r);
    ReachedOnDisk(env, root, None, cs, at, i, q);
  }

  lemma NotOpen(env: Env, root: seq<Child>, p: RelPath, q: RelPath)
    requires Clear(env, root, p) && AtOrAbove(q, p)
    ensures !env.IsOpen(q)
  {
    hide OnDiskIn, Coincide, Foreign;
    if env.IsOpen(q) {
      var o :| o in env.open && (o == q || IsAncestor(o, q));
      AtOrAboveTransitive(o, q, p);
    }
  }

  lemma AtOrAboveTransitive(a: RelPath, b: RelPath, c: RelPath)
    requires AtOrAbove(a, b) && AtOrAbove(b, c)
    ensures AtOrAbove(a, c)
  {
    if a != b && b != c { AncestorTransitive(a, b, c); }
  }

  lemma NotFrozen(env: Env, root: seq<Child>, p: RelPath, q: RelPath)
    requires Clear(env, root, p) && AtOrAbove(q, p)
    ensures !Frozen(env, root, q)
    ensures forall m :: AtOrAbove(m, q) ==> !Foreign(env, root, m)
    ensures forall a :: IsAncestor(a, q) ==> !env.ignoresEntry(a, true)
  {
    hide OnDiskIn, Coincide, Foreign;
    forall m | AtOrAbove(m, q) ensures !Foreign(env, root, m) && (m != q ==> !env.ignoresEntry(m, true)) {
      AtOrAboveTransitive(m, q, p);
    }
    IgnoredBy(env, q, true);
    IgnoredBy(env, q, false);
  }

  /** At a clear path the scan tells what is there, if everything on disk is handled. */
  lemma ClearTells(env: Env, root: seq<Child>, kept: seq<(RelPath, string)>, reports: seq<Report>,
                   mounts: seq<RelPath>, p: RelPath)
    requires env.unruled.None? && Clear(env, root, p)
    requires forall r :: r in reports ==> Grounds(env, root, kept, r)
    requires forall m :: m in mounts ==> Foreign(env, root, m)
    requires forall q, t :: OnDiskIn(env.nfc, root, None, q, t) ==> Handled(env, reports, mounts, q, t)
    ensures Tells(env, root, reports, p)
  {
    hide Grounds, Foreign, OnDiskIn, Coincide, Recorded;
    forall r | r in reports && AtOrAbove(r.path, p)
      ensures ToldOf(env, root, r.path, r.state) && !r.state.Skipped?
    {
      ClearTold(env, root, kept, p, r);
    }
    forall t | OnDiskIn(env.nfc, root, None, p, t) ensures Covered(reports, p) {
      assert AtOrAbove(p, p);
      NotFrozen(env, root, p, p);
      IgnoredBy(env, p, t.DirThing?);
      assert Handled(env, reports, mounts, p, t);
    }
  }

  /** What is live and on disk, of the recorded kind, is reported or skipped. */
  lemma LiveCovered(env: Env, reports: seq<Report>, mounts: seq<RelPath>, p: RelPath, t: Thing)
    requires IsLive(env, p) && Handled(env, reports, mounts, p, t) && KindOf(t) == Some(env.live[p].kind)
    requires UnderMount(mounts, p) || env.Ignores(p, env.live[p].kind == Dir) ==> SkippedOver(reports, p)
    ensures Covered(reports, p)
  {
  }

  /** What the scan cannot know is skipped, on disk or not. */
  lemma UnknowableSkipped(env: Env, root: seq<Child>, reports: seq<Report>, mounts: seq<RelPath>, p: RelPath)
    requires IsLive(env, p) && Unknowable(env, root, p, env.live[p].kind)
    requires forall q, t :: OnDiskIn(env.nfc, root, None, q, t) ==> Handled(env, reports, mounts, q, t)
    requires env.IsOpen(p) || UnderMount(mounts, p) || env.Ignores(p, env.live[p].kind == Dir) ==>
               SkippedOver(reports, p)
    ensures SkippedOver(reports, p)
  {
    hide OnDiskIn, Env.Ignores, Env.IsOpen;
    if !env.IsOpen(p) && !env.Ignores(p, env.live[p].kind == Dir) {
      var q, t: Thing :| OnDiskIn(env.nfc, root, None, q, t) && Opaque(env, q, t)
                  && (IsAncestor(q, p) || (q == p && env.live[p].kind == Dir));
      assert Handled(env, reports, mounts, q, t) && !Plain(env, q, t);
      if SkippedOver(reports, q) {
        var r :| r in reports && r.state.Skipped? && AtOrAbove(r.path, q);
        AtOrAboveTransitive(r.path, q, p);
      } else if UnderMount(mounts, q) {
        var m :| m in mounts && AtOrAbove(m, q);
        AtOrAboveTransitive(m, q, p);
      } else if IsAncestor(q, p) {
        IgnoredBeneath(env, q, p);
        AboveIgnores(env, p, env.live[p].kind == Dir);
      }
    }
  }

  lemma AboveIgnores(env: Env, p: RelPath, isDir: bool)
    requires env.IgnoresAbove(p)
    ensures env.Ignores(p, isDir)
  {
  }
}
