/** The walk itself, and what it reports of tracked paths it did not reach. */
module Scans {
  import opened Prelude
  import opened Paths
  import opened Entries
  import opened DiskNames
  import opened Scanner
  import opened Accounts

  /** Everything on disk is accounted for once a level's first child is dealt with. */
  lemma StepAccounted(env: Env, root: seq<Child>, base: seq<Level>, level: Level, next: Level, pushed: seq<Level>,
                      reports: seq<Report>, mounts: seq<RelPath>, more: seq<Report>, ms: seq<RelPath>)
    requires Accounted(env, root, base + [level], reports, mounts)
    requires level.todo != [] && next.todo == level.todo[1..] && next.index == level.index
    requires pushed == [] || (pushed == [pushed[0]] && NameOf(env.nfc, level.index, level.todo[0].name).AtPath?
                              && pushed[0].index == Some(NameOf(env.nfc, level.index, level.todo[0].name).path)
                              && level.todo[0].thing.DirThing? && pushed[0].todo == level.todo[0].thing.children)
    requires Dealt(env, level.todo[0], level.index, pushed != [], reports + more, mounts + ms)
    ensures Accounted(env, root, base + [next] + pushed, reports + more, mounts + ms)
  {
    hide Handled, NameOf;
    var stack := base + [next] + pushed;
    forall p, t | OnDiskIn(env.nfc, root, None, p, t)
      ensures Handled(env, reports + more, mounts + ms, p, t) || Left(env.nfc, stack, p, t)
    {
      if Handled(env, reports, mounts, p, t) {
        HandledStays(env, reports, mounts, more, ms, p, t);
      } else {
        var i :| 0 <= i < |base + [level]|
                 && OnDiskIn(env.nfc, (base + [level])[i].todo, (base + [level])[i].index, p, t);
        if i < |base| {
          assert stack[i] == base[i] == (base + [level])[i];
        } else {
          LastLevel(env, base, level, next, pushed, reports + more, mounts + ms, p, t);
        }
      }
    }
  }

  lemma LastLevel(env: Env, base: seq<Level>, level: Level, next: Level, pushed: seq<Level>,
                  reports: seq<Report>, mounts: seq<RelPath>, p: RelPath, t: Thing)
    requires level.todo != [] && next.todo == level.todo[1..] && next.index == level.index
    requires pushed == [] || (pushed == [pushed[0]] && NameOf(env.nfc, level.index, level.todo[0].name).AtPath?
                              && pushed[0].index == Some(NameOf(env.nfc, level.index, level.todo[0].name).path)
                              && level.todo[0].thing.DirThing? && pushed[0].todo == level.todo[0].thing.children)
    requires Dealt(env, level.todo[0], level.index, pushed != [], reports, mounts)
    requires OnDiskIn(env.nfc, level.todo, level.index, p, t)
    ensures Handled(env, reports, mounts, p, t) || Left(env.nfc, base + [next] + pushed, p, t)
  {
    hide Handled, NameOf, OnDiskAt;
    var stack := base + [next] + pushed;
    var j :| 0 <= j < |level.todo| && OnDiskAt(env.nfc, level.todo[j], level.index, p, t);
    if j > 0 {
      assert next.todo[j - 1] == level.todo[j];
      assert stack[|base|] == next;
    } else if pushed != [] {
      assert stack[|base| + 1] == pushed[0];
    }
  }

  lemma StackShrinks(base: seq<Level>, level: Level, next: Level, pushed: seq<Level>)
    requires level.todo != [] && next.todo == level.todo[1..]
    requires pushed == [] || (pushed == [pushed[0]] && level.todo[0].thing.DirThing?
                              && pushed[0].todo == level.todo[0].thing.children)
    ensures StackSize(base + [next] + pushed) < StackSize(base + [level])
  {
    assert (base + [level])[..|base|] == base;
    assert (base + [next])[..|base|] == base;
    if pushed == [] {
      assert base + [next] + pushed == base + [next];
    } else {
      var stack := base + [next] + pushed;
      assert stack[..|stack| - 1] == base + [next] && stack[|stack| - 1] == pushed[0];
      assert StackSize(stack) == 1 + SizeAll(pushed[0].todo) + StackSize(base + [next]);
      assert Size(level.todo[0].thing) == 1 + SizeAll(pushed[0].todo);
    }
  }

  class Walker {
    const env: Env

    /** What the root lists: what is held open for the walk. */
    const root: seq<Child>
    var reports: seq<Report>
    var mounts: seq<RelPath>

    /** The open rows' paths that have had their skip. */
    var skippedOpen: set<RelPath>
    var diskNames: seq<(RelPath, string)>
    var unobservable: seq<Unobservable>

    /** Every report has its grounds, and what was noted beside the reports is so. */
    ghost predicate Valid()
      reads this
    {
      && (forall o :: o in skippedOpen ==> SkippedAt(reports, o))
      && (forall r :: r in reports ==> Grounds(env, root, diskNames, r))
      && (forall m :: m in mounts ==> Foreign(env, root, m))
      && (forall d :: d in diskNames ==> RightlyKept(env, root, d.0, d.1))
    }

    constructor (env: Env, root: seq<Child>)
      ensures Valid() && this.env == env && this.root == root
      ensures reports == [] && mounts == [] && skippedOpen == {} && diskNames == []
    {
      this.env, this.root := env, root;
      reports, mounts, skippedOpen, diskNames, unobservable := [], [], {}, [], [];
    }

    method Ready(path: RelPath, state: State)
      requires Valid() && Grounds(env, root, diskNames, Report(path, state))
      modifies this`reports
      ensures Valid() && reports == old(reports) + [Report(path, state)]
      ensures state.Skipped? ==> SkippedAt(reports, path)
      ensures Reported(reports, path)
    {
      hide Grounds, Foreign, RightlyKept;
      ghost var was := reports;
      reports := reports + [Report(path, state)];
      assert Report(path, state) in reports;
      forall o | o in skippedOpen ensures SkippedAt(reports, o) {
        var r :| r in was && r.path == o && r.state.Skipped?;
        assert r in reports;
      }
    }

    method SkipOpen(path: RelPath)
      requires Valid() && env.unruled.None? && env.IsOpen(path)
      modifies this`reports, this`skippedOpen
      ensures Valid() && reports == old(reports) + [Report(path, Skipped(Io))]
      ensures skippedOpen == old(skippedOpen) + {path} && SkippedAt(reports, path)
    {
      hide Said, Coincide, Frozen, Foreign, RightlyKept;
      Ready(path, Skipped(Io));
      skippedOpen := skippedOpen + {path};
    }

    method KeepName(path: RelPath, disk: string, differs: bool)
      requires Valid() && (differs ==> RightlyKept(env, root, path, disk))
      modifies this`diskNames
      ensures Valid() && diskNames == old(diskNames) + if differs then [(path, disk)] else []
    {
      hide Grounds, Foreign, RightlyKept;
      if differs {
        forall r | r in reports ensures Grounds(env, root, diskNames + [(path, disk)], r) {
          KeptMore(env, root, diskNames, [(path, disk)], r);
        }
        diskNames := diskNames + [(path, disk)];
      }
    }

    method NoteMount(path: RelPath)
      requires Valid() && Foreign(env, root, path)
      modifies this`mounts
      ensures Valid() && mounts == old(mounts) + [path] && path in mounts
    {
      hide Grounds, Foreign, RightlyKept;
      mounts := mounts + [path];
    }

    /** One report more, at the path. */
    static ghost predicate AddedAt(before: seq<Report>, after: seq<Report>, path: RelPath) {
      && |after| == |before| + 1 && before <= after
      && after[|before|].path == path
    }

    /** No report is made: it is ignored, whatever it may be, or neither a file, a symlink nor a
        directory, or a mount point. */
    ghost predicate LeftOut(t: Thing, path: RelPath) {
      && !env.IsOpen(path)
      && if env.fault(path, Stating).Some? then env.ignoresEntry(path, false) && env.ignoresEntry(path, true)
         else t.OtherThing? || env.ignoresEntry(path, t.DirThing?) || (t.DirThing? && t.device != env.device)
    }

    /** What the walk says of an entry it met has its grounds. */
    static lemma SaidGrounds(env: Env, root: seq<Child>, kept: seq<(RelPath, string)>, cs: seq<Child>,
                             at: Option<RelPath>, i: nat, r: Report)
      requires env.unruled.None? && SaidAt(env, root, kept, cs, at, i, r)
      ensures Grounds(env, root, kept, r)
    {
    }

    static lemma FaultGrounds(env: Env, root: seq<Child>, kept: seq<(RelPath, string)>, cs: seq<Child>,
                              at: Option<RelPath>, i: nat, path: RelPath, fault: Error)
      requires env.unruled.None? && Reaches(env, root, None, cs, at) && i < |cs| && Meets(env, cs, at, i, path)
      requires env.fault(path, Stating) == Some(fault)
      requires !(env.ignoresEntry(path, false) && env.ignoresEntry(path, true))
      requires cs[i].name != FileName(path) ==> (path, cs[i].name) in kept
      ensures Grounds(env, root, kept, Report(path, SkippedFor(fault)))
    {
      SaidGrounds(env, root, kept, cs, at, i, Report(path, SkippedFor(fault)));
    }

    /** The name an entry has on disk is kept exactly if it is not its path's own. */
    lemma RightName(cs: seq<Child>, at: Option<RelPath>, i: nat, path: RelPath, differs: bool)
      requires Reaches(env, root, None, cs, at) && Meets(env, cs, at, i, path) && i < |cs|
      requires NameOf(env.nfc, at, cs[i].name) == AtPath(path, differs)
      ensures differs <==> cs[i].name != FileName(path)
      ensures differs ==> RightlyKept(env, root, path, cs[i].name)
    {
      DiffersFromName(env.nfc, at, cs[i].name);
    }

    /** The fast path compares what the record says. */
    static lemma FastTells(env: Env, path: RelPath, seen: Observed)
      ensures env.UnchangedAt(path, seen) <==> Recorded(env, path, seen)
    {
      if path in env.live { UnchangedLooksLike(env.live[path], seen, seen); }
    }

    /** Look at one entry, whose name is an index path's and alone there; `entered` if it is a
        directory to walk into. */
    method LookAt(ghost cs: seq<Child>, ghost i: nat, c: Child, parent: Option<RelPath>, path: RelPath, differs: bool)
      returns (entered: bool)
      requires Valid() && env.unruled.None? && Reaches(env, root, None, cs, parent) && i < |cs| && c == cs[i]
      requires NameOf(env.nfc, parent, c.name) == AtPath(path, differs) && !Clashes(env.nfc, parent, Names(cs), i)
      modifies this`reports, this`mounts, this`skippedOpen, this`diskNames
      ensures Valid() && old(mounts) <= mounts
      ensures entered <==> Enters(env, cs, parent, i, path)
      ensures Dealt(env, c, parent, entered, reports, mounts)
      ensures if LeftOut(c.thing, path) then reports == old(reports) else AddedAt(old(reports), reports, path)
    {
      hide NameOf, Dealt, Clashes, Reaches, Grounds, Env.IsOpen, SkippedAt, Reported, Foreign, RightlyKept,
           Valid, FileName;
      entered := false;
      if env.IsOpen(path) {
        SkipOpen(path);
        SkipDeals(env, c, parent, reports, mounts);
        return;
      }
      assert Meets(env, cs, parent, i, path);
      var e := env.fault(path, Stating);
      if e.Some? {
        if env.ignoresEntry(path, false) && env.ignoresEntry(path, true) {
          RuleDeals(env, c, parent, reports, mounts);
        } else {
          RightName(cs, parent, i, path, differs);
          KeepName(path, c.name, differs);
          FaultGrounds(env, root, diskNames, cs, parent, i, path, e.value);
          Ready(path, SkippedFor(e.value));
          SkipDeals(env, c, parent, reports, mounts);
        }
        return;
      }
      if c.thing.OtherThing? {
        NothingDeals(env, c, parent, reports, mounts);
        return;
      }
      if env.ignoresEntry(path, c.thing.DirThing?) {
        RuleDeals(env, c, parent, reports, mounts);
        return;
      }
      if c.thing.DirThing? && c.thing.device != env.device {
        assert Foreign(env, root, path) by { OnAnotherDevice(env, root, cs, parent, i, path); }
        NoteMount(path);
        MountDeals(env, c, parent, reports, mounts);
        return;
      }
      RightName(cs, parent, i, path, differs);
      KeepName(path, c.name, differs);
      match c.thing {
        case DirThing(_, _) =>
          entered := EnterDir(cs, i, c, parent, path);
        case LinkThing(size, hash) =>
          LookAtLink(cs, i, c, parent, path);
        case FileThing(_, _, _, _) =>
          LookAtFile(cs, i, c, parent, path);
      }
    }

    static lemma OnAnotherDevice(env: Env, root: seq<Child>, cs: seq<Child>, at: Option<RelPath>, i: nat, p: RelPath)
      requires Reaches(env, root, None, cs, at) && i < |cs| && MapsTo(env.nfc, at, cs[i].name, p)
      requires cs[i].thing.DirThing? && cs[i].thing.device != env.device
      ensures Foreign(env, root, p)
    {
      ReachedOnDisk(env, root, None, cs, at, i, p);
    }

    /** What reading a symlink or listing a directory lets the walk say. */
    static lemma ReadSays(env: Env, t: Thing, path: RelPath, seen: Observed)
      requires env.fault(path, Stating).None? && (t.LinkThing? || t.DirThing?) && seen == Sight(t)
      ensures var e := env.fault(path, Reading);
              SaysOf(env, t, path, if e.None? then env.Fast(path, seen) else SkippedFor(e.value))
    {
      FastTells(env, path, seen);
    }

    /** Met, stated and kept under its name, and for no rule and no other device to leave out. */
    ghost predicate Wanted(cs: seq<Child>, i: nat, at: Option<RelPath>, path: RelPath)
      reads this
    {
      && env.unruled.None? && Reaches(env, root, None, cs, at) && Meets(env, cs, at, i, path) && i < |cs|
      && (cs[i].name != FileName(path) ==> (path, cs[i].name) in diskNames)
      && env.fault(path, Stating).None? && !env.ignoresEntry(path, cs[i].thing.DirThing?)
      && (cs[i].thing.DirThing? ==> cs[i].thing.device == env.device)
    }

    /** A directory is reported only when its contents could be listed. */
    method EnterDir(ghost cs: seq<Child>, ghost i: nat, c: Child, parent: Option<RelPath>, path: RelPath)
      returns (entered: bool)
      requires Valid() && Wanted(cs, i, parent, path) && c == cs[i] && c.thing.DirThing?
      modifies this`reports
      ensures Valid() && (entered <==> env.fault(path, Reading).None?)
      ensures AddedAt(old(reports), reports, path)
      ensures Dealt(env, c, parent, entered, reports, mounts)
    {
      hide NameOf, Dealt, Reaches, Meets, Valid, SaysOf, SkippedAt, Reported, Grounds, FileName;
      var e := env.fault(path, Reading);
      var seen := Observed(Dir, 0, 0, false, EMPTY_HASH);
      entered := e.None?;
      var state := if entered then env.Fast(path, seen) else SkippedFor(e.value);
      ReadSays(env, c.thing, path, seen);
      WantedGrounds(cs, i, parent, path, state);
      Ready(path, state);
      if entered {
        ReportDeals(env, c, parent, reports, mounts);
      } else {
        SkipDeals(env, c, parent, reports, mounts);
      }
    }

    lemma WantedGrounds(cs: seq<Child>, i: nat, at: Option<RelPath>, path: RelPath, state: State)
      requires Wanted(cs, i, at, path) && SaysOf(env, cs[i].thing, path, state)
      ensures Grounds(env, root, diskNames, Report(path, state))
      ensures NameOf(env.nfc, at, cs[i].name).AtPath? && NameOf(env.nfc, at, cs[i].name).path == path
    {
      hide NameOf, SaysOf, Reaches, Grounds, Clashes, Env.IsOpen;
      SaidGrounds(env, root, diskNames, cs, at, i, Report(path, state));
    }

    /** A symlink's content is its target. */
    method LookAtLink(ghost cs: seq<Child>, ghost i: nat, c: Child, parent: Option<RelPath>, path: RelPath)
      requires Valid() && Wanted(cs, i, parent, path) && c == cs[i] && c.thing.LinkThing?
      modifies this`reports
      ensures Valid()
      ensures AddedAt(old(reports), reports, path)
      ensures Dealt(env, c, parent, false, reports, mounts)
    {
      hide NameOf, Dealt, Reaches, Meets, Valid, SaysOf, SkippedAt, Reported, Grounds, FileName;
      var e := env.fault(path, Reading);
      var seen := Observed(Symlink, c.thing.size, 0, false, c.thing.hash);
      var state := if e.None? then env.Fast(path, seen) else SkippedFor(e.value);
      ReadSays(env, c.thing, path, seen);
      WantedGrounds(cs, i, parent, path, state);
      Ready(path, state);
      ReportDeals(env, c, parent, reports, mounts);
    }

    /** A file whose stat is as recorded needs no hash; one still changing is put off. */
    method LookAtFile(ghost cs: seq<Child>, ghost i: nat, c: Child, parent: Option<RelPath>, path: RelPath)
      requires Valid() && Wanted(cs, i, parent, path) && c == cs[i] && c.thing.FileThing?
      modifies this`reports
      ensures Valid()
      ensures AddedAt(old(reports), reports, path)
      ensures Dealt(env, c, parent, false, reports, mounts)
    {
      hide NameOf, Dealt, Reaches, Meets, Valid, SkippedAt, Reported, Grounds, FileName;
      var seen := Observed(File, c.thing.size, c.thing.mtime, c.thing.exec, EMPTY_HASH);
      FastTells(env, path, seen);
      var state;
      if env.UnchangedAt(path, seen) {
        state := Unchanged;
      } else if path in env.unsettled {
        state := Skipped(Unstable);
      } else {
        var e := env.fault(path, Reading);
        state := if e.None? then Observation(seen.(hash := c.thing.hash)) else SkippedFor(e.value);
      }
      WantedGrounds(cs, i, parent, path, state);
      Ready(path, state);
      ReportDeals(env, c, parent, reports, mounts);
    }

    /** One name of the level on top of the stack. */
    method Step(level: Level) returns (next: Level, entered: bool, path: RelPath)
      requires Valid() && env.unruled.None? && level.todo != [] && LevelOk(env, root, level, reports)
      modifies this`reports, this`mounts, this`skippedOpen, this`diskNames, this`unobservable
      ensures Valid() && old(reports) <= reports && old(mounts) <= mounts
      ensures next.todo == level.todo[1..] && next.index == level.index && LevelOk(env, root, next, reports)
      ensures Dealt(env, level.todo[0], level.index, entered, reports, mounts)
      ensures unobservable == old(unobservable) + if level.names[0].Unseen? then [level.names[0].why] else []
      ensures entered ==> level.todo[0].thing.DirThing?
                          && NameOf(env.nfc, level.index, level.todo[0].name).AtPath?
                          && path == NameOf(env.nfc, level.index, level.todo[0].name).path
                          && Reaches(env, root, None, level.todo[0].thing.children, Some(path))
    {
      hide NameOf, Marked, Dealt, SkippedAt, Reaches, Clashes, LeftOut, Grounds, Foreign, RightlyKept, Enters;
      var c, name := level.todo[0], level.names[0];
      ghost var cs: seq<Child> :| LeftOf(env, root, level, cs);
      ghost var i: nat := |cs| - |level.todo|;
      assert c == cs[i] && name == Marked(env.nfc, level.index, Names(cs), i + 0);
      MarkedMeans(env, root, cs, level.index, i);
      ghost var before := reports;
      next := level.(todo := level.todo[1..], names := level.names[1..]);
      entered, path := false, "";
      match name {
        case Reserved =>
          NothingDeals(env, c, level.index, reports, mounts);
        case AtPath(q, differs) =>
          path := q;
          entered := LookAt(cs, i, c, level.index, q, differs);
          if entered {
            EntersDir(env, cs, level.index, i, q);
            ReachesDeeper(env, root, None, cs, level.index, i, q);
          }
        case Unseen(why) =>
          if why.Coincides? {
            var q := why.path;
            if q !in level.coinciding {
              CoincideGrounds(env, root, diskNames, q);
              Ready(q, Skipped(CoincidingNames));
            }
            SkipDeals(env, c, level.index, reports, mounts);
            next := next.(coinciding := level.coinciding + {q});
          } else {
            NothingDeals(env, c, level.index, reports, mounts);
          }
          unobservable := unobservable + [why];
      }
      NextListed(env, root, level, next, cs);
      NextSkipped(level, next, before, reports);
    }

    static lemma CoincideGrounds(env: Env, root: seq<Child>, kept: seq<(RelPath, string)>, q: RelPath)
      requires env.unruled.None? && Coincide(env, root, q)
      ensures Grounds(env, root, kept, Report(q, Skipped(CoincidingNames)))
    {
    }

    static lemma NextListed(env: Env, root: seq<Child>, level: Level, next: Level, cs: seq<Child>)
      requires LeftOf(env, root, level, cs) && level.todo != []
      requires next.todo == level.todo[1..] && next.names == level.names[1..] && next.index == level.index
      ensures Listed(env, root, next)
    {
      hide Reaches, Marked;
      forall k: nat | k < |next.todo|
        ensures next.names[k] == Marked(env.nfc, next.index, Names(cs), |cs| - |next.todo| + k)
      {
        assert next.names[k] == level.names[k + 1];
      }
      assert LeftOf(env, root, next, cs);
    }

    static lemma NextSkipped(level: Level, next: Level, before: seq<Report>, after: seq<Report>)
      requires forall q :: q in level.coinciding ==> SkippedAt(before, q)
      requires before <= after
      requires forall q :: q in next.coinciding && q !in level.coinciding ==> SkippedAt(after, q)
      ensures forall q :: q in next.coinciding ==> SkippedAt(after, q)
    {
      forall q | q in next.coinciding ensures SkippedAt(after, q) {
        if q in level.coinciding {
          var r :| r in before && r.path == q && r.state.Skipped?;
          assert r in after;
        }
      }
    }

    /** The walk below the root, on a stack of its own: what it holds is always all that is still
        to be looked at. */
    method Walk()
      requires Valid() && env.unruled.None?
      modifies this`reports, this`mounts, this`skippedOpen, this`diskNames, this`unobservable
      ensures Valid() && Accounted(env, root, [], reports, mounts)
    {
      hide NameOf, Dealt, SkippedAt, Handled, OnDiskIn, OnDiskAt, Valid, Reaches, Listed;
      assert Reaches(env, root, None, root, None) by { ReachesItself(env, root); }
      var level := NewLevel(None, root);
      var stack := [level];
      FirstAccounted(env, root, level, reports, mounts);
      while stack != []
        invariant Valid() && Accounted(env, root, stack, reports, mounts)
        invariant forall i :: 0 <= i < |stack| ==> LevelOk(env, root, stack[i], reports)
        decreases StackSize(stack)
      {
        ghost var were, had := reports, mounts;
        ghost var base := stack[..|stack| - 1];
        var top := stack[|stack| - 1];
        assert stack == base + [top];
        if top.todo == [] {
          DoneAccounted(env, root, base, top, reports, mounts);
          stack := stack[..|stack| - 1];
          continue;
        }
        var next, entered, path := Step(top);
        var pushed := [];
        if entered {
          var inner := NewLevel(Some(path), top.todo[0].thing.children);
          pushed := [inner];
        }
        Extended(were, reports);
        Extended(had, mounts);
        StepAccounted(env, root, base, top, next, pushed, were, had, reports[|were|..], mounts[|had|..]);
        StackShrinks(base, top, next, pushed);
        LevelsStay(env, root, base, were, reports);
        stack := stack[..|stack| - 1] + [next] + pushed;
      }
    }

    static lemma ReachesItself(env: Env, root: seq<Child>)
      ensures Reaches(env, root, None, root, None)
    {
    }

    static lemma Extended<T>(a: seq<T>, b: seq<T>)
      requires a <= b
      ensures a + b[|a|..] == b
    {
    }

    static lemma LevelsStay(env: Env, root: seq<Child>, stack: seq<Level>, before: seq<Report>, after: seq<Report>)
      requires before <= after && forall i :: 0 <= i < |stack| ==> LevelOk(env, root, stack[i], before)
      ensures forall i :: 0 <= i < |stack| ==> LevelOk(env, root, stack[i], after)
    {
      hide LevelOk;
      forall i | 0 <= i < |stack| ensures LevelOk(env, root, stack[i], after) {
        LevelStays(env, root, stack[i], before, after[|before|..]);
        Extended(before, after);
      }
    }

    static lemma FirstAccounted(env: Env, root: seq<Child>, level: Level, reports: seq<Report>, mounts: seq<RelPath>)
      requires level.todo == root && level.index == None
      ensures Accounted(env, root, [level], reports, mounts)
    {
      hide OnDiskIn, Handled;
      forall p, t | OnDiskIn(env.nfc, root, None, p, t) ensures Left(env.nfc, [level], p, t) {
        assert OnDiskIn(env.nfc, [level][0].todo, [level][0].index, p, t);
      }
    }

    static lemma DoneAccounted(env: Env, root: seq<Child>, base: seq<Level>, top: Level,
                               reports: seq<Report>, mounts: seq<RelPath>)
      requires Accounted(env, root, base + [top], reports, mounts) && top.todo == []
      ensures Accounted(env, root, base, reports, mounts)
    {
      hide Handled, OnDiskAt;
      forall p, t | OnDiskIn(env.nfc, root, None, p, t)
        ensures Handled(env, reports, mounts, p, t) || Left(env.nfc, base, p, t)
      {
        if !Handled(env, reports, mounts, p, t) {
          var i :| 0 <= i < |base + [top]|
                   && OnDiskIn(env.nfc, (base + [top])[i].todo, (base + [top])[i].index, p, t);
          assert i < |base| && base[i] == (base + [top])[i];
        }
      }
    }

    method NewLevel(index: Option<RelPath>, children: seq<Child>) returns (l: Level)
      requires Reaches(env, root, None, children, index)
      ensures l.index == index && l.todo == children && l.coinciding == {} && LevelOk(env, root, l, reports)
    {
      hide NameOf, Marked, Reaches;
      var names := NameDir(env.nfc, index, Names(children));
      l := Level(index, children, names, {});
      assert LeftOf(env, root, l, children);
    }

    /** Every path with an open row that no skip covers yet is reported, on disk or not. */
    method OpenRecords()
      requires Valid() && env.unruled.None?
      modifies this`reports, this`skippedOpen
      ensures Valid() && old(reports) <= reports
      ensures forall p :: env.IsOpen(p) ==> SkippedOver(reports, p)
    {
      hide SkippedAt, Grounds, Foreign, RightlyKept;
      var todo := env.open;
      while todo != {}
        invariant todo <= env.open && Valid() && old(reports) <= reports
        invariant forall o :: o in env.open && o !in todo ==> OpenCovered(skippedOpen, o)
        decreases todo
      {
        var o :| o in todo;
        if !(exists done :: done in skippedOpen && (done == o || IsAncestor(done, o))) {
          ghost var were := skippedOpen;
          SkipOpen(o);
          assert forall done :: done in were ==> done in skippedOpen;
        }
        todo := todo - {o};
      }
      forall p | env.IsOpen(p) ensures SkippedOver(reports, p) {
        OpenCovers(p);
      }
    }

    ghost static predicate OpenCovered(skippedOpen: set<RelPath>, o: RelPath) {
      exists done :: done in skippedOpen && (done == o || IsAncestor(done, o))
    }

    lemma OpenCovers(p: RelPath)
      requires forall o :: o in skippedOpen ==> SkippedAt(reports, o)
      requires env.IsOpen(p) && forall o :: o in env.open ==> OpenCovered(skippedOpen, o)
      ensures SkippedOver(reports, p)
    {
      var o :| o in env.open && (o == p || IsAncestor(o, p));
      assert OpenCovered(skippedOpen, o);
      var done :| done in skippedOpen && (done == o || IsAncestor(done, o));
      AtOrAboveTransitive(done, o, p);
      assert SkippedAt(reports, done);
      var r :| r in reports && r.path == done && r.state.Skipped?;
    }

    /** Live, and left alone by the walk: at or beneath a mount point it met, or ignored. */
    ghost predicate Unwalked(p: RelPath)
      reads this
    {
      IsLive(env, p) && (UnderMount(mounts, p) || env.Ignores(p, env.live[p].kind == Dir))
    }

    /** Skips for what is tracked but was not walked: ignored paths, and those on a mount. */
    method IgnoredRecords()
      requires Valid() && env.unruled.None? && forall p :: env.IsOpen(p) ==> SkippedOver(reports, p)
      modifies this`reports
      ensures Valid() && old(reports) <= reports
      ensures forall r :: r in reports && r !in old(reports) ==>
                r.state == Skipped(Ignored) && !env.IsOpen(r.path) && Unwalked(r.path)
      ensures forall p :: Unwalked(p) ==> SkippedOver(reports, p)
    {
      hide SkippedOver, Env.Ignores, Env.IsOpen, Grounds, Foreign, RightlyKept;
      var todo := env.live.Keys;
      ghost var were := reports;
      while todo != {}
        invariant todo <= env.live.Keys && Valid() && were <= reports
        invariant forall r :: r in reports && r !in were ==>
                    r.state == Skipped(Ignored) && !env.IsOpen(r.path) && Unwalked(r.path)
        invariant forall p :: p !in todo && Unwalked(p) ==> SkippedOver(reports, p)
        decreases todo
      {
        var p :| p in todo;
        todo := todo - {p};
        ghost var had := reports;
        if !env.live[p].deleted {
          if env.IsOpen(p) {
            assert SkippedOver(were, p);
            SkipsStay(were, reports);
          } else if (exists m :: m in mounts && (m == p || IsAncestor(m, p)))
                    || env.Ignores(p, env.live[p].kind == Dir) {
            assert Grounds(env, root, diskNames, Report(p, Skipped(Ignored))) by { FrozenGrounds(p); }
            Ready(p, Skipped(Ignored));
            AtItself(reports, p);
          }
        }
        SkipsStay(had, reports);
      }
    }

    lemma FrozenGrounds(p: RelPath)
      requires env.unruled.None? && Unwalked(p) && !env.IsOpen(p)
      requires forall m :: m in mounts ==> Foreign(env, root, m)
      ensures Grounds(env, root, diskNames, Report(p, Skipped(Ignored)))
    {
      hide Foreign, Said, Coincide;
    }

    static lemma AtItself(reports: seq<Report>, p: RelPath)
      requires SkippedAt(reports, p)
      ensures SkippedOver(reports, p)
    {
    }

    static lemma SkipsStay(before: seq<Report>, after: seq<Report>)
      requires before <= after
      ensures forall p :: SkippedOver(before, p) ==> SkippedOver(after, p)
      ensures forall p :: SkippedAt(before, p) ==> SkippedAt(after, p)
    {
      forall p | SkippedOver(before, p) ensures SkippedOver(after, p) {
        var r :| r in before && r.state.Skipped? && AtOrAbove(r.path, p);
        assert r in after;
      }
      forall q | SkippedAt(before, q) ensures SkippedAt(after, q) {
        var r :| r in before && r.path == q && r.state.Skipped?;
        assert r in after;
      }
    }

    /** The ignore file could not be read: every top-level path on disk or tracked is skipped. */
    method SkipTop()
      requires Valid() && env.unruled.Some?
      modifies this`reports
      ensures Valid() && old(reports) <= reports
      ensures forall p :: IsLive(env, p) ==> SkippedOver(reports, p)
      ensures forall p, i: nat :: i < |root| && MapsTo(env.nfc, None, root[i].name, p) ==> SkippedAt(reports, p)
    {
      hide SkippedAt, SkippedOver, NameOf, Grounds;
      var names := NameDir(env.nfc, None, Names(root));
      var onDisk := set i | 0 <= i < |names| && names[i].AtPath? :: names[i].path;
      var twice := set i | 0 <= i < |names| && names[i].Unseen? && names[i].why.Coincides? :: names[i].why.path;
      var tracked := set p | p in env.live && !env.live[p].deleted :: TopOf(p);
      var top := onDisk + twice + tracked;
      AllAtTop(names, onDisk + twice, tracked);
      var todo := top;
      while todo != {}
        invariant todo <= top && Valid() && old(reports) <= reports
        invariant forall q :: q in top && q !in todo ==> SkippedAt(reports, q)
        decreases todo
      {
        var q :| q in todo;
        ghost var had := reports;
        var why := if env.unruled.value.Permission? then PermissionDenied else Io;
        TopGrounds(env, root, diskNames, q);
        Ready(q, Skipped(why));
        SkipsStay(had, reports);
        todo := todo - {q};
      }
      forall p | p in env.live && !env.live[p].deleted ensures SkippedOver(reports, p) {
        TopAbove(p);
        TopCovers(reports, p);
      }
    }

    static lemma TopGrounds(env: Env, root: seq<Child>, kept: seq<(RelPath, string)>, q: RelPath)
      requires env.unruled.Some? && AtTop(env, root, q)
      ensures var why := if env.unruled.value.Permission? then PermissionDenied else Io;
              Grounds(env, root, kept, Report(q, Skipped(why)))
    {
    }

    /** The paths skipped are those at the top. */
    lemma AllAtTop(names: seq<Name>, listed: set<RelPath>, tracked: set<RelPath>)
      requires |names| == |root| && forall i: nat :: i < |root| ==> names[i] == Marked(env.nfc, None, Names(root), i)
      requires listed == (set i | 0 <= i < |names| && names[i].AtPath? :: names[i].path)
                         + set i | 0 <= i < |names| && names[i].Unseen? && names[i].why.Coincides? :: names[i].why.path
      requires tracked == set p | p in env.live && !env.live[p].deleted :: TopOf(p)
      ensures forall q :: q in listed + tracked ==> AtTop(env, root, q)
      ensures forall p, i: nat :: i < |root| && MapsTo(env.nfc, None, root[i].name, p) ==> p in listed
    {
      hide NameOf, Marked;
      ReachesItself(env, root);
      forall i: nat | i < |root|
        ensures names[i].AtPath? ==> MapsTo(env.nfc, None, root[i].name, names[i].path)
        ensures names[i].Unseen? && names[i].why.Coincides? ==> MapsTo(env.nfc, None, root[i].name, names[i].why.path)
        ensures forall p :: MapsTo(env.nfc, None, root[i].name, p) ==> p in listed
      {
        MarkedMeans(env, root, root, None, i);
      }
      forall p | p in env.live && !env.live[p].deleted ensures AtTop(env, root, TopOf(p)) {
        TopAbove(p);
      }
    }

    /** The first component of a path. */
    static function TopOf(p: RelPath): RelPath
      decreases |p|
    {
      match Parent(p)
      case None => p
      case Some(above) => ParentJoin(p); TopOf(above)
    }

    static lemma {:induction false} TopAbove(p: RelPath)
      ensures AtOrAbove(TopOf(p), p) && Parent(TopOf(p)) == None
      decreases |p|
    {
      if Parent(p).Some? {
        ParentJoin(p);
        TopAbove(Parent(p).value);
        if TopOf(p) != Parent(p).value { AncestorTransitive(TopOf(p), Parent(p).value, p); }
      }
    }

    static lemma TopCovers(reports: seq<Report>, p: RelPath)
      requires SkippedAt(reports, TopOf(p)) && AtOrAbove(TopOf(p), p)
      ensures SkippedOver(reports, p)
    {
    }

    /** On disk, and of the kind the live record has. */
    ghost predicate StillThere(p: RelPath, t: Thing) {
      IsLive(env, p) && OnDiskIn(env.nfc, root, None, p, t) && KindOf(t) == Some(env.live[p].kind)
    }

    /** A scan, on a static tree whose calls may fail in any way but not-found. It finishes if the
        root, its marker and its names could be had at the start, and the marker is still there at
        the end. Whatever it reports has its grounds. Finished, it is silent about no tracked path
        whose entry of the same kind is on disk, nor about one where it cannot know, on disk or
        not; and of a path that nothing keeps it from telling it says what is there, or nothing if
        nothing is. */
    method Run(rooted: bool, marked: bool) returns (finished: bool)
      requires Valid()
      modifies this`reports, this`mounts, this`skippedOpen, this`diskNames, this`unobservable
      ensures Valid() && (finished <==> rooted && marked) && (!rooted ==> reports == old(reports))
      ensures finished && env.unruled.None? ==>
                && (forall p, t :: StillThere(p, t) ==> Covered(reports, p))
                && (forall p :: IsLive(env, p) && Unknowable(env, root, p, env.live[p].kind) ==>
                      SkippedOver(reports, p))
                && (forall p :: Clear(env, root, p) ==> Tells(env, root, reports, p))
      ensures finished && env.unruled.Some? ==>
                && (forall p :: IsLive(env, p) ==> SkippedOver(reports, p))
                && (forall p, i: nat :: i < |root| && MapsTo(env.nfc, None, root[i].name, p) ==> SkippedAt(reports, p))
    {
      hide SkippedAt, SkippedOver, Covered, Handled, OnDiskIn, Clear, Tells, Unknowable, Env.IsOpen, Env.Ignores;
      finished := rooted && marked;
      if !rooted {
        return;
      }
      if env.unruled.Some? {
        SkipTop();
      } else {
        Walk();
        ghost var were := reports;
        assert forall p, t :: OnDiskIn(env.nfc, root, None, p, t) ==> Handled(env, reports, mounts, p, t);
        OpenRecords();
        ghost var opens := reports;
        IgnoredRecords();
        SkipsStay(opens, reports);
        StillHandled(env, were, reports, mounts);
        Finished();
      }
    }

    lemma Finished()
      requires Valid() && env.unruled.None?
      requires forall p, t :: OnDiskIn(env.nfc, root, None, p, t) ==> Handled(env, reports, mounts, p, t)
      requires forall p :: env.IsOpen(p) ==> SkippedOver(reports, p)
      requires forall p :: Unwalked(p) ==> SkippedOver(reports, p)
      ensures forall p, t :: StillThere(p, t) ==> Covered(reports, p)
      ensures forall p :: IsLive(env, p) && Unknowable(env, root, p, env.live[p].kind) ==> SkippedOver(reports, p)
      ensures forall p :: Clear(env, root, p) ==> Tells(env, root, reports, p)
    {
      hide SkippedAt, SkippedOver, Covered, Handled, OnDiskIn, Clear, Tells, Unknowable, Env.IsOpen, Env.Ignores,
        Grounds, Foreign, UnderMount;
      forall p, t | StillThere(p, t) ensures Covered(reports, p) {
        LiveCovered(env, reports, mounts, p, t);
      }
      forall p | IsLive(env, p) && Unknowable(env, root, p, env.live[p].kind) ensures SkippedOver(reports, p) {
        UnknowableSkipped(env, root, reports, mounts, p);
      }
      forall p | Clear(env, root, p) ensures Tells(env, root, reports, p) {
        ClearTells(env, root, diskNames, reports, mounts, p);
      }
    }

    static lemma StillHandled(env: Env, before: seq<Report>, after: seq<Report>, mounts: seq<RelPath>)
      requires before <= after
      ensures forall p, t :: Handled(env, before, mounts, p, t) ==> Handled(env, after, mounts, p, t)
    {
      forall p, t | Handled(env, before, mounts, p, t) ensures Handled(env, after, mounts, p, t) {
        HandledStays(env, before, mounts, after[|before|..], [], p, t);
        Extended(before, after);
        assert mounts + [] == mounts;
      }
    }
  }
}
