/** The want-list, updated in place. Each method is tied to the value model, whose properties are
    proved in WantRuns.dfy, WantRefusals.dfy and WantGate.dfy. `stored` is the host's table of
    wants, updated only by what the list reports. */
module WantLists {
  import opened Prelude
  import opened Versions
  import opened Paths
  import opened Entries
  import opened Classify
  import opened Persistence
  import opened Wants
  import opened Dispatching
  import Orders
  import R = WantRuns

  function Noted(changed: seq<RelPath>): set<RelPath> {
    set p | p in changed
  }

  /** Wants are kept by their paths, and the host's table differs from them only at paths noted
      as changed. */
  ghost predicate Good(s: List, changed: seq<RelPath>, stored: map<RelPath, Want>) {
    Keyed(s) && Mirrors(stored, s.wants, Noted(changed))
  }

  /** Only the want at `p` may differ. */
  ghost predicate SameBut(s: List, t: List, p: RelPath) {
    forall q :: q != p ==>
      (q in t.wants <==> q in s.wants) && (q in t.wants && q in s.wants ==> t.wants[q] == s.wants[q])
  }

  lemma GoodAt(s: List, t: List, changed: seq<RelPath>, more: seq<RelPath>, stored: map<RelPath, Want>, p: RelPath)
    requires Good(s, changed, stored) && SameBut(s, t, p)
    requires p in t.wants ==> t.wants[p].Path() == p
    requires Noted(more) == Noted(changed) + {p}
    ensures Good(t, more, stored)
  {
  }

  lemma GoodReleased(s: List, t: List, changed: seq<RelPath>, stored: map<RelPath, Want>)
    requires Good(s, changed, stored) && t.wants == s.wants
    ensures Good(t, changed, stored)
  {
  }

  function Count(perPeer: map<NodeId, nat>, n: NodeId): nat {
    if n in perPeer then perPeer[n] else 0
  }

  /** Where `p` comes first. */
  function FirstAt(ps: seq<RelPath>, p: RelPath): (r: nat)
    requires p in ps
    ensures r < |ps| && ps[r] == p && p !in ps[..r]
  {
    if ps[0] == p then 0
    else
      var r := 1 + FirstAt(ps[1..], p);
      assert ps[..r] == [ps[0]] + ps[1..][..r - 1];
      r
  }

  /** The distinct paths in order of first change. */
  function Firsts(ps: seq<RelPath>): seq<RelPath> {
    if ps == [] then []
    else
      var rest, p := ps[..|ps| - 1], ps[|ps| - 1];
      if p in rest then Firsts(rest) else Firsts(rest) + [p]
  }

  lemma FirstAtPrefix(ps: seq<RelPath>, last: RelPath, p: RelPath)
    requires p in ps + [last]
    ensures FirstAt(ps + [last], p) == if p in ps then FirstAt(ps, p) else |ps|
  {
    var r := FirstAt(ps + [last], p);
    if p in ps {
      var q := FirstAt(ps, p);
      assert (ps + [last])[q] == p;
      InPrefix(ps);
      InPrefix(ps + [last]);
    }
  }

  lemma InPrefix(s: seq<RelPath>)
    ensures forall i, n :: 0 <= i < n <= |s| ==> s[i] in s[..n]
  {
    forall i, n | 0 <= i < n <= |s| ensures s[i] in s[..n] {
      assert s[..n][i] == s[i];
    }
  }

  lemma {:induction false} FirstsInOrder(ps: seq<RelPath>)
    ensures forall p :: p in Firsts(ps) <==> p in ps
    ensures forall i, j :: 0 <= i < j < |Firsts(ps)| ==> FirstAt(ps, Firsts(ps)[i]) < FirstAt(ps, Firsts(ps)[j])
  {
    if ps != [] {
      var rest, last := ps[..|ps| - 1], ps[|ps| - 1];
      assert ps == rest + [last];
      FirstsInOrder(rest);
      forall p | p in ps ensures FirstAt(ps, p) == if p in rest then FirstAt(rest, p) else |rest| {
        FirstAtPrefix(rest, last, p);
      }
    }
  }

  class WantList {
    var wants: map<RelPath, Want>
    var changed: seq<RelPath>
    var released: map<RelPath, Version>
    ghost var stored: map<RelPath, Want>

    function State(): List
      reads this
    {
      List(wants, released)
    }

    ghost predicate Valid()
      reads this
    {
      Good(State(), changed, stored)
    }

    constructor ()
      ensures Valid() && State() == R.NOTHING && stored == map[]
    {
      wants, changed, released, stored := map[], [], map[], map[];
    }

    method Note(path: RelPath)
      modifies this`changed
      ensures Noted(changed) == Noted(old(changed)) + {path}
    {
      if changed == [] || changed[|changed| - 1] != path {
        changed := changed + [path];
      }
    }

    /** The want at a path becomes `want`. */
    method Put(path: RelPath, want: Want)
      requires Valid() && want.Path() == path
      modifies this`wants, this`changed
      ensures Valid() && State() == SetWant(old(State()), path, want)
    {
      hide Good;
      GoodPut(State(), changed, stored, path, want);
      ghost var before := changed;
      wants := wants[path := want];
      Note(path);
      GoodMore(State(), before + [path], changed, stored);
    }

    static lemma GoodPut(s: List, changed: seq<RelPath>, stored: map<RelPath, Want>, p: RelPath, w: Want)
      requires Good(s, changed, stored) && w.Path() == p
      ensures Good(SetWant(s, p, w), changed + [p], stored)
    {
      GoodAt(s, SetWant(s, p, w), changed, changed + [p], stored, p);
    }

    static lemma GoodMore(s: List, changed: seq<RelPath>, more: seq<RelPath>, stored: map<RelPath, Want>)
      requires Good(s, changed, stored) && Noted(changed) <= Noted(more)
      ensures Good(s, more, stored)
    {
    }

    /** Drop the want at `path`. */
    method Remove(path: RelPath) returns (want: Option<Want>)
      requires Valid()
      modifies this`wants, this`changed
      ensures Valid() && State() == Wants.Remove(old(State()), path)
      ensures want == if path in old(wants) then Some(old(wants)[path]) else None
    {
      hide Good;
      want := if path in wants then Some(wants[path]) else None;
      if want.Some? {
        GoodRemove(State(), changed, stored, path);
        ghost var before := changed;
        wants := wants - {path};
        Note(path);
        GoodMore(State(), before + [path], changed, stored);
      } else {
        assert wants - {path} == wants;
      }
    }

    static lemma GoodRemove(s: List, changed: seq<RelPath>, stored: map<RelPath, Want>, p: RelPath)
      requires Good(s, changed, stored)
      ensures Good(Wants.Remove(s, p), changed + [p], stored)
    {
      GoodAt(s, Wants.Remove(s, p), changed, changed + [p], stored, p);
    }

    static lemma KeyedPath(s: List, changed: seq<RelPath>, stored: map<RelPath, Want>, p: RelPath)
      requires Good(s, changed, stored) && p in s.wants
      ensures s.wants[p].Path() == p
    {
    }

    method SetState(path: RelPath, state: WantState)
      requires Valid()
      modifies this`wants, this`changed
      ensures Valid() && State() == Wants.SetState(old(State()), path, state)
    {
      hide Good;
      if path in wants && wants[path].state != state {
        KeyedPath(State(), changed, stored, path);
        Put(path, wants[path].(state := state));
      } else {
        assert path in wants ==> wants[path := wants[path].(state := state)] == wants;
      }
    }

    /** One state after another for every want of a set. */
    method SetStates(paths: set<RelPath>, state: WantState)
      requires Valid() && paths <= wants.Keys
      modifies this`wants, this`changed
      ensures Valid() && State() == SetEach(old(State()), paths, state)
    {
      hide Good, SetEach, Wants.SetState;
      SetNone(State(), paths, state);
      var todo := paths;
      assert paths - todo == {};
      while todo != {}
        invariant Valid() && todo <= paths && paths <= wants.Keys
        invariant State() == SetEach(old(State()), paths - todo, state)
        decreases todo
      {
        var path :| path in todo;
        ghost var done := paths - todo;
        SetState(path, state);
        SetOneMore(old(State()), done, path, state);
        SetNone(old(State()), done + {path}, state);
        todo := todo - {path};
        assert paths - todo == done + {path};
      }
      assert paths - {} == paths;
    }

    static lemma SetNone(s: List, ps: set<RelPath>, state: WantState)
      ensures SetEach(s, {}, state) == s
      ensures SetEach(s, ps, state).wants.Keys == s.wants.Keys
    {
    }

    static lemma SetOneMore(s: List, ps: set<RelPath>, p: RelPath, state: WantState)
      requires p in s.wants
      ensures Wants.SetState(SetEach(s, ps, state), p, state) == SetEach(s, ps + {p}, state)
    {
    }

    /** A rule takes a want off the list; a commit in flight keeps the path. */
    method Take(path: RelPath) returns (want: Option<Want>)
      requires Valid()
      modifies this`wants, this`changed, this`released
      ensures Valid() && State() == Wants.Take(old(State()), path)
      ensures want == if path in old(wants) then Some(old(wants)[path]) else None
    {
      hide Good;
      want := Remove(path);
      if want.Some? && want.value.state.Committing? {
        ghost var before := State();
        released := released[path := want.value.Version()];
        GoodReleased(before, State(), changed, stored);
      }
      assert State() == Wants.Take(old(State()), path);
    }

    /** The host reported a commit: true if it is one a rule released, whose report is discarded. */
    method ReleasedReported(path: RelPath, version: Version) returns (ok: bool)
      requires Valid()
      modifies this`released
      ensures Valid() && State() == Wants.ReleasedReported(old(State()), path, version)
      ensures ok <==> IsReleased(old(State()), path, version)
    {
      ok := path in released && released[path] == version;
      if ok {
        released := released - {path};
      }
    }

    method ClearRestoring(path: RelPath)
      requires Valid()
      modifies this`wants, this`changed
      ensures Valid() && State() == Wants.ClearRestoring(old(State()), path)
    {
      hide Good;
      if path in wants && wants[path].restoring {
        KeyedPath(State(), changed, stored, path);
        Put(path, wants[path].(restoring := false, trashed := None));
      }
    }

    /** An accepted item arrives; handed back if it does not get in. */
    method Insert(item: ApplyItem, received: Entry, batch: nat, source: NodeId, seqHigh: nat,
                  marked: Option<set<NodeId>>) returns (refused: Option<ApplyItem>)
      requires Valid()
      modifies this`wants, this`changed
      ensures Valid()
      ensures State() == Wants.Insert(old(State()), item, received, batch, source, seqHigh, marked)
      ensures refused == if InsertRefused(old(State()), item) then Some(item) else None
    {
      hide Good;
      var path := item.entry.path;
      var restoring := marked.Some?;
      var trashed := None;
      if path in wants {
        var existing := wants[path];
        KeyedPath(State(), changed, stored, path);
        if item.entry.version == existing.Version() {
          existing := existing.(sources := existing.sources + {source});
          match marked {
            case Some(others) =>
              existing := existing.(restoring := true, sources := existing.sources + others);
            case None =>
          }
          Put(path, existing);
          SameVersionInsert(old(State()), item, received, batch, source, seqHigh, marked, existing);
          return None;
        }
        var relation := Versions.CompareByKeys(item.entry.version, existing.Version());
        if relation != Dominates || existing.Busy() {
          return Some(item);
        }
        restoring := restoring || existing.restoring;
        if existing.restoring {
          trashed := existing.trashed;
        }
      }
      var want := NewWant(item, received, batch, source, seqHigh);
      want := want.(restoring := restoring, trashed := trashed);
      match marked {
        case Some(others) => want := want.(sources := want.sources + others);
        case None => assert want.sources + {} == want.sources;
      }
      Put(path, want);
      refused := None;
    }

    static lemma SameVersionInsert(s: List, item: ApplyItem, received: Entry, batch: nat, source: NodeId,
                                   seqHigh: nat, marked: Option<set<NodeId>>, w: Want)
      requires item.entry.path in s.wants && item.entry.version == s.wants[item.entry.path].Version()
      requires var had := s.wants[item.entry.path];
               w == had.(sources := if marked.Some? then had.sources + {source} + marked.value
                                    else had.sources + {source},
                         restoring := had.restoring || marked.Some?)
      ensures Wants.Insert(s, item, received, batch, source, seqHigh, marked) == SetWant(s, item.entry.path, w)
    {
      var had := s.wants[item.entry.path];
      assert had.sources + {source} + {} == had.sources + {source};
    }

    /** `teller` turned out to have the content `hash` for `path`. */
    method NoteAnnounced(path: RelPath, hash: ContentHash, teller: NodeId)
      requires Valid()
      modifies this`wants, this`changed
      ensures Valid() && State() == Wants.NoteAnnounced(old(State()), path, hash, teller)
    {
      hide Good, Lift;
      if hash == EMPTY_HASH || path !in wants || wants[path].entry.hash != hash {
        return;
      }
      var want := wants[path];
      KeyedPath(State(), changed, stored, path);
      var told := want.(sources := want.sources + {teller}, refused := want.refused - {teller});
      if told != want {
        Put(path, told);
      } else {
        assert wants[path := told] == wants;
      }
      Release(path, None);
    }

    /** The refusals of a want that another took the place of. */
    method KeepRefusals(path: RelPath, hash: ContentHash, refused: map<NodeId, int>)
      requires Valid()
      modifies this`wants, this`changed
      ensures Valid() && State() == Wants.KeepRefusals(old(State()), path, hash, refused)
    {
      hide Good;
      if path !in wants || wants[path].entry.hash != hash || refused == map[] {
        return;
      }
      KeyedPath(State(), changed, stored, path);
      Put(path, wants[path].(refused := wants[path].refused + refused));
    }

    /** Lift one source's exclusion, or every exclusion. */
    method Release(path: RelPath, only: Option<NodeId>)
      requires Valid()
      modifies this`wants, this`changed
      ensures Valid()
      ensures State() == if path in old(wants) then SetWant(old(State()), path, Lift(old(wants)[path], only))
                         else old(State())
    {
      hide Good;
      if path !in wants {
        return;
      }
      var want := wants[path];
      KeyedPath(State(), changed, stored, path);
      var lifted;
      match only {
        case Some(peer) =>
          lifted := peer in want.excluded;
          want := want.(excluded := want.excluded - {peer});
        case None =>
          lifted := want.excluded != map[];
          want := want.(excluded := map[]);
      }
      if !lifted && !want.state.GaveUp? {
        assert wants[path := wants[path]] == wants;
        return;
      }
      var mismatches := |want.excluded|;
      want := want.(mismatches := mismatches);
      if want.state.GaveUp? && mismatches < 2 {
        want := want.(state := Wanted);
      }
      Put(path, want);
    }

    /** A member connected: its exclusions are lifted. */
    method Reconnected(peer: NodeId)
      requires Valid()
      modifies this`wants, this`changed
      ensures Valid() && State() == Wants.Reconnected(old(State()), peer)
    {
      hide Good, Lift;
      var todo := set p | p in wants && peer in wants[p].excluded;
      ghost var paths := todo;
      while todo != {}
        invariant Valid() && todo <= paths && wants.Keys == old(wants).Keys && released == old(released)
        invariant forall p :: p in wants ==>
                    wants[p] == if p in paths - todo then Lift(old(wants)[p], Some(peer)) else old(wants)[p]
        decreases todo
      {
        var path :| path in todo;
        Release(path, Some(peer));
        todo := todo - {path};
      }
      assert State() == Wants.Reconnected(old(State()), peer);
    }

    method InsertReverted(want: Want)
      requires Valid()
      modifies this`wants, this`changed
      ensures Valid() && State() == Wants.InsertReverted(old(State()), want)
    {
      hide Good;
      Put(want.Path(), want);
    }

    method RememberTrashed(path: RelPath, trashed: Option<Observed>)
      requires Valid()
      modifies this`wants, this`changed
      ensures Valid() && State() == Wants.RememberTrashed(old(State()), path, trashed)
    {
      hide Good;
      if trashed.Some? && path in wants && wants[path].restoring && wants[path].trashed.None? {
        KeyedPath(State(), changed, stored, path);
        Put(path, wants[path].(trashed := trashed));
      }
    }

    /** The process restarted: released commits died with it, and every want is restored. */
    method Restarted()
      requires Valid()
      modifies this`wants, this`changed, this`released
      ensures Valid() && State() == Wants.Restarted(old(State()))
    {
      hide Good, RestoredWant;
      ghost var before := State();
      released := map[];
      GoodReleased(before, State(), changed, stored);
      var todo := wants.Keys;
      while todo != {}
        invariant Valid() && todo <= wants.Keys && wants.Keys == before.wants.Keys && released == map[]
        invariant forall p :: p in wants ==>
                    wants[p] == if p in todo then before.wants[p] else RestoredWant(before.wants[p])
        decreases todo
      {
        var path :| path in todo;
        KeyedPath(State(), changed, stored, path);
        RestoredPath(wants[path]);
        Put(path, RestoredWant(wants[path]));
        todo := todo - {path};
      }
      assert State() == Wants.Restarted(before);
    }

    static lemma RestoredPath(w: Want)
      ensures RestoredWant(w).Path() == w.Path()
    {
    }

    /** The host reports on a fetch; the want as the report leaves it, `None` if it was ignored. */
    method Fetched(now: int, path: RelPath, version: Version, report: FetchReport) returns (want: Option<Want>)
      requires Valid()
      modifies this`wants, this`changed
      ensures Valid() && State() == FetchedAt(old(State()), now, path, version, report)
      ensures want == if AwaitsFetch(old(State()), path, version) then Some(wants[path]) else None
    {
      hide Good, ExclusionBackoff;
      if path !in wants || !wants[path].state.Fetching? || wants[path].Version() != version {
        return None;
      }
      var w := wants[path];
      KeyedPath(State(), changed, stored, path);
      var from := w.state.from;
      match report {
        case Served =>
          w := w.(fetched := true, state := Wanted);
        case NotAvailable =>
          w := w.(refused := w.refused[from := now + REFUSAL_NANOS], answered := w.answered + {from},
                  state := Wanted);
        case HashMismatch =>
          var strikes := Strikes(w, from) + 1;
          w := w.(strikes := w.strikes[from := strikes],
                  excluded := w.excluded[from := now + ExclusionBackoff(strikes)]);
          w := w.(mismatches := |w.excluded|);
          w := w.(state := if w.mismatches >= 2 then GaveUp else Wanted);
        case FetchFailed(error) =>
          want := FetchFailing(now, path, version, error, None);
          return;
      }
      Put(path, w);
      want := Some(w);
    }

    /** A fetch failed on this machine; ignored if the want no longer waits for it. */
    method FetchFailing(now: int, path: RelPath, version: Version, error: LocalError, withSeq: Option<nat>)
      returns (want: Option<Want>)
      requires Valid()
      modifies this`wants, this`changed
      ensures Valid() && State() == FetchFailedAt(old(State()), now, path, version, error, withSeq)
      ensures want == if AwaitsFetch(old(State()), path, version) then Some(wants[path]) else None
    {
      hide Good, Wants.Failed;
      if path !in wants || !wants[path].state.Fetching? || wants[path].Version() != version {
        return None;
      }
      want := Failed(now, path, version, error, withSeq);
    }

    /** A fetch or commit of the want failed on this machine. */
    method Failed(now: int, path: RelPath, version: Version, error: LocalError, withSeq: Option<nat>)
      returns (want: Option<Want>)
      requires Valid()
      modifies this`wants, this`changed
      ensures Valid() && State() == Wants.Failed(old(State()), now, path, version, error, withSeq)
      ensures want == if path in old(wants) && old(wants)[path].Version() == version then Some(wants[path]) else None
      ensures want.Some? ==> path in wants
    {
      hide Good, ExclusionBackoff;
      if path !in wants || wants[path].Version() != version {
        return None;
      }
      var w := wants[path];
      KeyedPath(State(), changed, stored, path);
      if error.Io? || error.FullDisk? {
        w := w.(fetched := false);
      }
      match error {
        case Io =>
          w := w.(localRetries := w.localRetries + 1);
          w := w.(state := LocalRetry(now + ExclusionBackoff(w.localRetries)));
        case FullDisk => w := w.(state := DiskFull);
        case CaseCollision(other) =>
          w := w.(state := match withSeq case Some(n) => Collides(other, n) case None => Wanted);
        case IgnoredFiles => w := w.(state := HoldsIgnored);
      }
      Put(path, w);
      want := Some(w);
    }

    method DirObserving(path: RelPath)
      requires Valid()
      modifies this`wants, this`changed
      ensures Valid() && State() == DirObserved(old(State()), path)
    {
      hide Good;
      if path in wants && wants[path].state.HoldsIgnored? {
        SetState(path, Wanted);
      }
    }

    method PauseInbound()
      requires Valid()
      modifies this`wants, this`changed
      ensures Valid() && State() == Wants.PauseInbound(old(State()))
    {
      hide Good;
      SetStates(Startable(State()), DiskFull);
    }

    method ResumeInbound()
      requires Valid()
      modifies this`wants, this`changed
      ensures Valid() && State() == Wants.ResumeInbound(old(State()))
    {
      hide Good;
      SetStates(WaitingForSpace(State()), Wanted);
    }

    method ReleaseCollisions(live: map<RelPath, nat>)
      requires Valid()
      modifies this`wants, this`changed
      ensures Valid() && State() == Wants.ReleaseCollisions(old(State()), live)
    {
      hide Good;
      SetStates(Recollided(State(), live), Wanted);
    }

    method Progress(now: int, path: RelPath, version: Version)
      requires Valid()
      modifies this`wants, this`changed
      ensures Valid() && State() == Wants.Progress(old(State()), now, path, version)
    {
      hide Good;
      if path in wants && wants[path].Version() == version && wants[path].state.Fetching? {
        KeyedPath(State(), changed, stored, path);
        Put(path, wants[path].(state := Fetching(wants[path].state.from, now + FETCH_STALL_NANOS)));
      }
    }

    method PeerGone(peer: NodeId)
      requires Valid()
      modifies this`wants, this`changed
      ensures Valid() && State() == Wants.PeerGone(old(State()), peer)
    {
      hide Good;
      SetStates(FetchingFrom(State(), peer), Wanted);
    }

    method ReleaseWaiting()
      requires Valid()
      modifies this`wants, this`changed
      ensures Valid() && State() == Wants.ReleaseWaiting(old(State()))
    {
      hide Good;
      SetStates(DoneWaiting(State()), Wanted);
    }

    /** The wants noted as changed, first changed first; `None` stands for one that is gone. Once it
        has them, the host's table is the want-list. */
    method DrainChanges() returns (rows: seq<(RelPath, Option<Want>)>)
      requires Valid()
      modifies this`changed, this`stored
      ensures Valid() && State() == old(State()) && changed == []
      ensures rows == RowsAt(Firsts(old(changed)), wants)
      ensures stored == wants
    {
      var order := FirstChanges(changed);
      rows := RowsAt(order, wants);
      ghost var table := map p | p in changed :: if p in wants then Some(wants[p]) else None;
      DrainedMirror(stored, wants, Noted(changed), table);
      stored := Applied(stored, table);
      changed := [];
    }

    static method FirstChanges(changed: seq<RelPath>) returns (order: seq<RelPath>)
      ensures order == Firsts(changed)
    {
      order := [];
      var seen := {};
      for k := 0 to |changed|
        invariant seen == Noted(changed[..k]) && order == Firsts(changed[..k])
      {
        var p := changed[k];
        assert changed[..k + 1] == changed[..k] + [p];
        assert p in changed[..k] <==> p in seen;
        if p !in seen {
          order := order + [p];
          seen := seen + {p};
        }
      }
      assert changed[..|changed|] == changed;
    }

    // Time.

    /** Exclusions of one want whose time is up, one after another. */
    method LiftDueAt(path: RelPath, now: int)
      requires Valid() && path in wants
      modifies this`wants, this`changed
      ensures Valid() && State() == SetWant(old(State()), path, LiftDue(old(wants)[path], now))
    {
      hide Good, Lift, Recounted;
      ghost var w := wants[path];
      var due := Due(wants[path].excluded, now);
      var todo, done := due, {};
      assert State() == SetWant(State(), path, LiftSet(w, {}));
      while todo != {}
        invariant Valid() && todo !! done && todo + done == due && path in wants
        invariant State() == SetWant(old(State()), path, LiftSet(w, done))
        decreases todo
      {
        var n :| n in todo;
        LiftOneMore(w, done, n);
        Release(path, Some(n));
        todo, done := todo - {n}, done + {n};
      }
      assert done == due;
    }

    /** The exclusions of `ns` lifted together. */
    static function LiftSet(w: Want, ns: set<NodeId>): Want {
      if ns == {} then w else Recounted(w.(excluded := w.excluded - ns))
    }

    static lemma RecountTwice(w: Want, e: map<NodeId, int>, f: map<NodeId, int>)
      requires |f| <= |e|
      ensures Recounted(Recounted(w.(excluded := e)).(excluded := f)) == Recounted(w.(excluded := f))
    {
    }

    static lemma OneLess(e: map<NodeId, int>, n: NodeId)
      ensures |e - {n}| <= |e|
    {
      assert |e - {n}| == |(e - {n}).Keys| && |e| == |e.Keys|;
      R.SubsetSize((e - {n}).Keys, e.Keys);
    }

    static lemma LiftsOne(w: Want, n: NodeId)
      requires n in w.excluded
      ensures Lift(w, Some(n)) == Recounted(w.(excluded := w.excluded - {n}))
    {
    }

    static lemma LiftOneMore(w: Want, ns: set<NodeId>, n: NodeId)
      requires n in w.excluded && n !in ns
      ensures Lift(LiftSet(w, ns), Some(n)) == LiftSet(w, ns + {n})
    {
      hide Recounted, Lift;
      var e := w.excluded - ns;
      assert n in ns + {n};
      assert w.excluded - (ns + {n}) == e - {n};
      if ns == {} {
        assert e == w.excluded;
        LiftsOne(w, n);
      } else {
        RecountedExcluded(w.(excluded := e));
        LiftsOne(Recounted(w.(excluded := e)), n);
        OneLess(e, n);
        RecountTwice(w, e, e - {n});
      }
    }

    static lemma RecountedExcluded(w: Want)
      ensures Recounted(w).excluded == w.excluded
    {
    }

    method LiftAllDue(now: int)
      requires Valid()
      modifies this`wants, this`changed
      ensures Valid() && released == old(released) && wants.Keys == old(wants).Keys
      ensures forall p :: p in wants ==> wants[p] == LiftDue(old(wants)[p], now)
    {
      hide Good, LiftDue;
      var todo := wants.Keys;
      while todo != {}
        invariant Valid() && todo <= wants.Keys && wants.Keys == old(wants).Keys && released == old(released)
        invariant forall p :: p in wants ==>
                    wants[p] == if p in todo then old(wants)[p] else LiftDue(old(wants)[p], now)
        decreases todo
      {
        var path :| path in todo;
        LiftDueAt(path, now);
        todo := todo - {path};
      }
    }

    static function Unrefused(w: Want, now: int): Want {
      w.(refused := w.refused - Due(w.refused, now))
    }

    static lemma UnrefusedIs(w: Want, left: map<NodeId, int>, now: int)
      requires left == w.refused - Due(w.refused, now)
      ensures Unrefused(w, now) == w.(refused := left)
    {
    }

    /** Refusals whose hour is up end. */
    method EndRefusals(now: int)
      requires Valid()
      modifies this`wants, this`changed
      ensures Valid() && released == old(released) && wants.Keys == old(wants).Keys
      ensures forall p :: p in wants ==>
                wants[p] == Unrefused(old(wants)[p], now)
    {
      hide Good, Unrefused;
      var todo := wants.Keys;
      while todo != {}
        invariant Valid() && todo <= wants.Keys && wants.Keys == old(wants).Keys && released == old(released)
        invariant forall p :: p in wants ==>
                    wants[p] == if p in todo then old(wants)[p] else Unrefused(old(wants)[p], now)
        decreases todo
      {
        var path :| path in todo;
        var left := wants[path].refused - Due(wants[path].refused, now);
        UnrefusedIs(wants[path], left, now);
        if left != wants[path].refused {
          KeyedPath(State(), changed, stored, path);
          Put(path, wants[path].(refused := left));
        }
        todo := todo - {path};
      }
    }

    static function Stalled(s: List, now: int): set<RelPath> {
      set p | p in s.wants && s.wants[p].state.Fetching? && s.wants[p].state.deadline <= now
    }

    static function Overdue(s: List, now: int): set<RelPath> {
      set p | p in s.wants && s.wants[p].state.Committing? && !s.wants[p].state.overdue
              && s.wants[p].state.deadline <= now
    }

    static function Retried(s: List, now: int): set<RelPath> {
      set p | p in s.wants && s.wants[p].state.LocalRetry? && s.wants[p].state.until <= now
    }

    static function Late(w: Want): Want {
      if w.state.Committing? then w.(state := Committing(w.state.deadline, true)) else w
    }

    method MarkOverdue(paths: set<RelPath>)
      requires Valid() && paths <= wants.Keys
      modifies this`wants, this`changed
      ensures Valid() && released == old(released) && wants.Keys == old(wants).Keys
      ensures forall p :: p in wants ==> wants[p] == if p in paths then Late(old(wants)[p]) else old(wants)[p]
    {
      hide Good;
      var todo := paths;
      while todo != {}
        invariant Valid() && todo <= paths <= wants.Keys && wants.Keys == old(wants).Keys && released == old(released)
        invariant forall p :: p in wants ==>
                    wants[p] == if p in paths && p !in todo then Late(old(wants)[p]) else old(wants)[p]
        decreases todo
      {
        var path :| path in todo;
        SetState(path, Late(wants[path]).state);
        todo := todo - {path};
      }
    }

    /** The stalled and the retried of `s` wanted again. */
    static function Rewanted(s: List, now: int): List {
      var t := SetEach(s, Stalled(s, now), Wanted);
      SetEach(t, Retried(t, now), Wanted)
    }

    static lemma RewantedThenLate(s: List, now: int, p: RelPath)
      requires p in s.wants
      ensures p in Rewanted(s, now).wants
      ensures Timed(s.wants[p], now)
           == if p in Overdue(s, now) then Late(Rewanted(s, now).wants[p]) else Rewanted(s, now).wants[p]
    {
      hide Rewanted;
      RewantedAt(s, now, p);
    }

    static lemma RewantedAt(s: List, now: int, p: RelPath)
      requires p in s.wants
      ensures p in Rewanted(s, now).wants
      ensures Rewanted(s, now).wants[p]
           == if p in Stalled(s, now) || p in Retried(s, now) then s.wants[p].(state := Wanted) else s.wants[p]
    {
    }

    /** Deadlines and backoffs that have passed. */
    method TimeOut(now: int)
      requires Valid()
      modifies this`wants, this`changed
      ensures Valid() && released == old(released) && wants.Keys == old(wants).Keys
      ensures forall p :: p in wants ==> wants[p] == Timed(old(wants)[p], now)
    {
      hide Good, Timed, Stalled, Retried, Overdue, Late;
      ghost var s := State();
      var late := Overdue(State(), now);
      OverdueListed(State(), now);
      SetStates(Stalled(State(), now), Wanted);
      SetStates(Retried(State(), now), Wanted);
      MarkOverdue(late);
      forall p | p in wants ensures wants[p] == Timed(s.wants[p], now) {
        RewantedThenLate(s, now, p);
      }
    }

    static lemma OverdueListed(s: List, now: int)
      ensures Overdue(s, now) <= s.wants.Keys && Stalled(s, now) <= s.wants.Keys
      ensures forall t: List :: Retried(t, now) <= t.wants.Keys
    {
    }

    /** Lifting exclusions moves no deadline. */
    static predicate SameTimes(w: Want, v: Want) {
      (w.state.Fetching? || w.state.Committing? || v.state.Fetching? || v.state.Committing?)
        ==> w.state == v.state
    }

    static lemma LiftTimes(w: Want, now: int)
      ensures SameTimes(w, LiftDue(w, now)) && LiftDue(w, now).refused == w.refused
    {
    }

    static lemma SameDeadlines(s: List, t: List, now: int)
      requires s.wants.Keys == t.wants.Keys && forall p :: p in s.wants ==> SameTimes(s.wants[p], t.wants[p])
      ensures Stalled(s, now) == Stalled(t, now) && Overdue(s, now) == Overdue(t, now)
    {
    }

    /** Time passed. Reports the fetches that stalled and the commits that became overdue. */
    method Expire(now: int) returns (stalled: seq<RelPath>, overdue: seq<RelPath>)
      requires Valid()
      modifies this`wants, this`changed
      ensures Valid() && State() == Wants.Expire(old(State()), now)
      ensures stalled == Sorted(Stalled(old(State()), now))
      ensures overdue == Sorted(Overdue(old(State()), now))
    {
      hide Good, LiftDue, Due, Timed, Stalled, Overdue;
      LiftAllDue(now);
      EndRefusals(now);
      forall p | p in wants
        ensures SameTimes(old(wants)[p], wants[p])
        ensures Timed(wants[p], now) == ExpiredWant(old(wants)[p], now)
      {
        LiftTimes(old(wants)[p], now);
      }
      SameDeadlines(old(State()), State(), now);
      stalled, overdue := Sorted(Stalled(State(), now)), Sorted(Overdue(State(), now));
      TimeOut(now);
      assert State() == Wants.Expire(old(State()), now);
    }

    // Dispatching.

    static function NotedFrom(s: List, ps: set<RelPath>, n: NodeId): set<RelPath> {
      set p | p in ps && p in FetchingFrom(s, n)
    }

    static function NotedFetches(s: List, ps: set<RelPath>): set<RelPath> {
      set p | p in ps && p in FetchingAll(s)
    }

    /** The loop's counters are the numbers of fetches in progress. */
    ghost static predicate Counts(s: List, perPeer: map<NodeId, nat>, total: nat) {
      total == |FetchingAll(s)| && forall n :: Count(perPeer, n) == |FetchingFrom(s, n)|
    }

    method CountFetches() returns (perPeer: map<NodeId, nat>, total: nat)
      ensures Counts(State(), perPeer, total)
    {
      hide NotedFetches, NotedFrom, FetchingAll, FetchingFrom;
      NotedAll(State());
      perPeer, total := map[], 0;
      var todo, done := wants.Keys, {};
      while todo != {}
        invariant todo !! done && todo + done == wants.Keys
        invariant total == |NotedFetches(State(), done)|
        invariant forall n :: Count(perPeer, n) == |NotedFrom(State(), done, n)|
        decreases todo
      {
        var p :| p in todo;
        CountOneMore(State(), done, p);
        if wants[p].state.Fetching? {
          var from := wants[p].state.from;
          perPeer := perPeer[from := Count(perPeer, from) + 1];
          total := total + 1;
        }
        todo, done := todo - {p}, done + {p};
      }
      assert done == wants.Keys;
    }

    static lemma NotedAll(s: List)
      ensures NotedFetches(s, {}) == {} && NotedFetches(s, s.wants.Keys) == FetchingAll(s)
      ensures forall n :: NotedFrom(s, {}, n) == {} && NotedFrom(s, s.wants.Keys, n) == FetchingFrom(s, n)
    {
      assert NotedFetches(s, s.wants.Keys) == FetchingAll(s);
      assert forall n :: NotedFrom(s, s.wants.Keys, n) == FetchingFrom(s, n);
    }

    static predicate FetchesFrom(w: Want, n: NodeId) {
      w.state.Fetching? && w.state.from == n
    }

    static lemma CountOneMore(s: List, ps: set<RelPath>, p: RelPath)
      requires p in s.wants && p !in ps
      ensures |NotedFetches(s, ps + {p})| == |NotedFetches(s, ps)| + if s.wants[p].state.Fetching? then 1 else 0
      ensures forall n :: |NotedFrom(s, ps + {p}, n)|
                       == |NotedFrom(s, ps, n)| + if FetchesFrom(s.wants[p], n) then 1 else 0
    {
      var was := NotedFetches(s, ps);
      assert NotedFetches(s, ps + {p}) == if s.wants[p].state.Fetching? then was + {p} else was;
      forall n ensures |NotedFrom(s, ps + {p}, n)|
                    == |NotedFrom(s, ps, n)| + if p in FetchingFrom(s, n) then 1 else 0
      {
        CountOneFrom(s, ps, p, n);
      }
    }

    static lemma CountOneFrom(s: List, ps: set<RelPath>, p: RelPath, n: NodeId)
      requires p in s.wants && p !in ps
      ensures |NotedFrom(s, ps + {p}, n)| == |NotedFrom(s, ps, n)| + if p in FetchingFrom(s, n) then 1 else 0
    {
      var was := NotedFrom(s, ps, n);
      assert NotedFrom(s, ps + {p}, n) == if p in FetchingFrom(s, n) then was + {p} else was;
    }

    /** The first source, best first, with a free slot. */
    static method FirstFree(allowed: set<NodeId>, peers: Peers, perPeer: map<NodeId, nat>, max: nat)
      returns (node: Option<NodeId>)
      ensures var free := set n | n in allowed && Count(perPeer, n) < max;
              node == if free == {} then None else Some(Best(free, peers))
    {
      PeerOrderTotal(peers);
      var ranked := Orders.Sort(allowed, PeerOrder(peers));
      Orders.SortElements(allowed, PeerOrder(peers));
      ghost var free := set n | n in allowed && Count(perPeer, n) < max;
      var i := 0;
      while i < |ranked|
        invariant 0 <= i <= |ranked|
        invariant forall j :: 0 <= j < i ==> ranked[j] !in free
      {
        if Count(perPeer, ranked[i]) < max {
          FirstIsBest(ranked, i, free, peers);
          return Some(ranked[i]);
        }
        i := i + 1;
      }
      assert free == {} by {
        forall n | n in allowed ensures n !in free {
          assert n in ranked;
        }
      }
      node := None;
    }

    static lemma FirstIsBest(ranked: seq<NodeId>, i: nat, free: set<NodeId>, peers: Peers)
      requires i < |ranked| && ranked[i] in free
      requires forall j :: 0 <= j < i ==> ranked[j] !in free
      requires forall n :: n in free ==> n in ranked
      requires forall j, k :: 0 <= j < k < |ranked| ==> PeerOrder(peers)(ranked[j], ranked[k])
      ensures Best(free, peers) == ranked[i]
    {
      hide PeerOrder;
      PeerOrderTotal(peers);
      var b := Best(free, peers);
      assert b in ranked;
      var k :| 0 <= k < |ranked| && ranked[k] == b;
      assert k == i || PeerOrder(peers)(ranked[i], ranked[k]);
      assert PeerOrder(peers)(b, ranked[i]);
    }

    /** One want takes the best free source, or stays wanted. */
    method AssignOne(path: RelPath, now: int, rules: Rules, peers: Peers, perPeer: map<NodeId, nat>, total: nat)
      returns (steps: seq<WantStep>, after: map<NodeId, nat>, sum: nat)
      requires Valid() && path in wants && MayFetch(wants[path]) && Counts(State(), perPeer, total)
      modifies this`wants, this`changed
      ensures Valid() && (State(), steps) == Assign(old(State()), path, now, rules, peers)
      ensures Counts(State(), after, sum)
    {
      hide Good, Counts;
      after, sum, steps := perPeer, total, [];
      FreeByCounts(State(), path, rules, peers, perPeer, total);
      SameCounts(State(), path, perPeer, total);
      if total >= rules.maxPerFolder {
        SetState(path, Wanted);
        return;
      }
      var node := FirstFree(Allowed(wants[path], rules, peers), peers, perPeer, rules.maxPerPeer);
      match node {
        case None => SetState(path, Wanted);
        case Some(n) =>
          OneMoreCounts(State(), path, n, now + FETCH_STALL_NANOS, perPeer, total);
          after, sum := perPeer[n := Count(perPeer, n) + 1], total + 1;
          steps := [WantStep.Fetch(path, wants[path].Version(), n)];
          SetState(path, Fetching(n, now + FETCH_STALL_NANOS));
      }
    }

    static lemma FreeByCounts(s: List, p: RelPath, rules: Rules, peers: Peers, perPeer: map<NodeId, nat>, total: nat)
      requires p in s.wants && Counts(s, perPeer, total)
      ensures total == |FetchingAll(s)|
      ensures Free(s, p, rules, peers)
           == set n | n in Allowed(s.wants[p], rules, peers) && Count(perPeer, n) < rules.maxPerPeer
    {
    }

    static lemma SameCounts(s: List, p: RelPath, perPeer: map<NodeId, nat>, total: nat)
      requires p in s.wants && !s.wants[p].state.Fetching? && Counts(s, perPeer, total)
      ensures Counts(Wants.SetState(s, p, Wanted), perPeer, total)
    {
      var t := Wants.SetState(s, p, Wanted);
      assert FetchingAll(t) == FetchingAll(s);
      assert forall n :: FetchingFrom(t, n) == FetchingFrom(s, n);
    }

    static lemma OneMoreCounts(s: List, p: RelPath, n: NodeId, deadline: int, perPeer: map<NodeId, nat>, total: nat)
      requires p in s.wants && !s.wants[p].state.Fetching? && Counts(s, perPeer, total)
      ensures Counts(Wants.SetState(s, p, Fetching(n, deadline)), perPeer[n := Count(perPeer, n) + 1], total + 1)
    {
      hide FetchingFrom, FetchingAll, Wants.SetState;
      var t := Wants.SetState(s, p, Fetching(n, deadline));
      R.OneMoreInAll(s, p, n, deadline);
      forall m ensures |FetchingFrom(t, m)| == |FetchingFrom(s, m)| + if m == n then 1 else 0 {
        R.OneMoreFrom(s, p, n, deadline, m);
      }
    }

    /** Fetch slots in order. */
    method AssignEach(order: seq<RelPath>, now: int, rules: Rules, peers: Peers,
                      perPeer: map<NodeId, nat>, total: nat)
      returns (steps: seq<WantStep>)
      requires Valid() && Distinct(order) && R.AllMayFetch(State(), order) && Counts(State(), perPeer, total)
      modifies this`wants, this`changed
      ensures Valid() && (State(), steps) == AssignAll(old(State()), order, now, rules, peers)
    {
      hide Good, Counts, MayFetch, Distinct, R.ChangedAt, Assign;
      ghost var all := AssignAll(State(), order, now, rules, peers);
      var counts, sum := perPeer, total;
      steps := [];
      var i := 0;
      assert order[0..] == order && [] + all.1 == all.1;
      while i < |order|
        invariant 0 <= i <= |order| && Valid()
        invariant Distinct(order[i..]) && R.AllMayFetch(State(), order[i..]) && Counts(State(), counts, sum)
        invariant var rest := AssignAll(State(), order[i..], now, rules, peers);
                  all == (rest.0, steps + rest.1)
      {
        ghost var before, left := State(), order[i..];
        assert left[0] == order[i] && left[1..] == order[i + 1..] && order[i] in left;
        AssignNext(before, left, now, rules, peers);
        var more;
        more, counts, sum := AssignOne(order[i], now, rules, peers, counts, sum);
        ghost var rest := AssignAll(State(), left[1..], now, rules, peers);
        assert steps + (more + rest.1) == (steps + more) + rest.1;
        steps := steps + more;
        i := i + 1;
      }
      assert order[i..] == [] && steps + [] == steps;
    }

    /** The first of `ps` is assigned, then the rest. */
    static lemma AssignNext(s: List, ps: seq<RelPath>, now: int, rules: Rules, peers: Peers)
      requires ps != [] && Distinct(ps) && R.AllMayFetch(s, ps)
      ensures ps[0] in s.wants && MayFetch(s.wants[ps[0]])
      ensures var (t, steps) := Assign(s, ps[0], now, rules, peers);
              && Distinct(ps[1..]) && R.AllMayFetch(t, ps[1..])
              && AssignAll(s, ps, now, rules, peers)
                 == (AssignAll(t, ps[1..], now, rules, peers).0,
                     steps + AssignAll(t, ps[1..], now, rules, peers).1)
    {
      hide MayFetch, Distinct;
      assert ps[0] in ps;
      var t := Assign(s, ps[0], now, rules, peers).0;
      AssignElsewhere(s, ps[0], now, rules, peers);
      R.RestMayFetch(s, t, ps);
    }

    static lemma AssignElsewhere(s: List, p: RelPath, now: int, rules: Rules, peers: Peers)
      requires p in s.wants
      ensures R.ChangedAt(s, Assign(s, p, now, rules, peers).0, p)
    {
    }

    /** Every want with its content in hand, in order. */
    method CommitEach(order: seq<RelPath>, now: int) returns (steps: seq<WantStep>)
      requires Valid() && Distinct(order) && R.AllCouldStart(State(), order)
      modifies this`wants, this`changed
      ensures Valid() && (State(), steps) == CommitAll(old(State()), order, now)
    {
      hide Good, CouldStart, Distinct, R.ChangedAt, CommitOne;
      ghost var all := CommitAll(State(), order, now);
      steps := [];
      var i := 0;
      assert order[0..] == order && [] + all.1 == all.1;
      while i < |order|
        invariant 0 <= i <= |order| && Valid()
        invariant Distinct(order[i..]) && R.AllCouldStart(State(), order[i..])
        invariant var rest := CommitAll(State(), order[i..], now);
                  all == (rest.0, steps + rest.1)
      {
        ghost var before, left := State(), order[i..];
        assert left[0] == order[i] && left[1..] == order[i + 1..] && order[i] in left;
        CommitNext(before, left, now);
        var more := CommitAt(order[i], now);
        ghost var rest := CommitAll(State(), left[1..], now);
        assert steps + (more + rest.1) == (steps + more) + rest.1;
        steps := steps + more;
        i := i + 1;
      }
      assert order[i..] == [] && steps + [] == steps;
    }

    static lemma CommitNext(s: List, ps: seq<RelPath>, now: int)
      requires ps != [] && Distinct(ps) && R.AllCouldStart(s, ps)
      ensures ps[0] in s.wants && CouldStart(s.wants[ps[0]])
      ensures var (t, steps) := CommitOne(s, ps[0], now);
              && Distinct(ps[1..]) && R.AllCouldStart(t, ps[1..])
              && CommitAll(s, ps, now) == (CommitAll(t, ps[1..], now).0, steps + CommitAll(t, ps[1..], now).1)
    {
      hide CouldStart, Distinct, CommitOne;
      assert ps[0] in ps;
      R.CommitOneElsewhere(s, ps[0], now);
      R.RestCouldStart(s, CommitOne(s, ps[0], now).0, ps);
    }

    /** One want: deferred behind another, blocked, adopted, or handed to the host. */
    method CommitAt(path: RelPath, now: int) returns (steps: seq<WantStep>)
      requires Valid() && path in wants
      modifies this`wants, this`changed
      ensures Valid() && (State(), steps) == CommitOne(old(State()), path, now)
    {
      hide Good, Gated, StuckAhead;
      var want := wants[path];
      var on := WaitsFor(State(), want);
      if on.Some? {
        SetState(path, WaitingFor(on.value));
        return [];
      }
      if Gated(State(), want) || path in released {
        SetState(path, Blocked);
        return [];
      }
      if want.mode == IndexOnly {
        var removed := Remove(path);
        return [Adopt(want)];
      }
      SetState(path, Committing(now + COMMIT_DEADLINE_NANOS, false));
      steps := [Commit(want)];
    }

    /** Wants without an allowed source are without source, or deferred. */
    method ReselectAll(rules: Rules, peers: Peers)
      requires Valid()
      modifies this`wants, this`changed
      ensures Valid() && State() == Reselect(old(State()), rules, peers)
    {
      hide Good, Reselected;
      var todo := wants.Keys;
      while todo != {}
        invariant Valid() && todo <= wants.Keys && wants.Keys == old(wants).Keys && released == old(released)
        invariant forall p :: p in wants ==>
                    wants[p] == if p in todo then old(wants)[p] else Reselected(old(wants)[p], rules, peers)
        decreases todo
      {
        var path :| path in todo;
        OnlyReselected(wants[path], rules, peers);
        SetState(path, Reselected(wants[path], rules, peers).state);
        todo := todo - {path};
      }
      assert State() == Reselect(old(State()), rules, peers);
    }

    static lemma OnlyReselected(w: Want, rules: Rules, peers: Peers)
      ensures Reselected(w, rules, peers) == w.(state := Reselected(w, rules, peers).state)
    {
    }

    /** What to do next for every want. */
    method DispatchAll(now: int, rules: Rules, peers: Peers) returns (steps: seq<WantStep>)
      requires Valid()
      modifies this`wants, this`changed
      ensures Valid() && (State(), steps) == Dispatch(old(State()), now, rules, peers)
    {
      hide Good, Counts, Fetchable, BestSources, FetchOrder, Reselect, CommitOrder, Distinct, MayFetch,
        CouldStart, Reselected, DoneWaiting;
      ReleaseWaiting();
      var perPeer, total := CountFetches();
      ghost var waited := State();
      R.FetchOrderFacts(State(), rules, peers);
      var order := Orders.Sort(Fetchable(State(), rules, peers), FetchOrder(BestSources(State(), rules, peers), peers));
      ReselectAll(rules, peers);
      ReselectCounts(waited, rules, peers, perPeer, total);
      var fetches := AssignEach(order, now, rules, peers, perPeer, total);
      assert (State(), fetches) == FetchPass(waited, now, rules, peers);
      CommitOrderFacts(State());
      R.OrderCouldStart(State());
      var commits := CommitEach(CommitOrder(State()), now);
      steps := fetches + commits;
    }

    static lemma ReselectFetching(s: List, rules: Rules, peers: Peers)
      ensures FetchingAll(Reselect(s, rules, peers)) == FetchingAll(s)
      ensures forall n :: FetchingFrom(Reselect(s, rules, peers), n) == FetchingFrom(s, n)
    {
      hide Reselected;
      var t := Reselect(s, rules, peers);
      forall p | p in s.wants
        ensures t.wants[p].state.Fetching? == s.wants[p].state.Fetching?
        ensures s.wants[p].state.Fetching? ==> t.wants[p].state == s.wants[p].state
      {
        ReselectedFetching(s.wants[p], rules, peers);
      }
    }

    static lemma ReselectedFetching(w: Want, rules: Rules, peers: Peers)
      ensures Reselected(w, rules, peers).state.Fetching? == w.state.Fetching?
      ensures w.state.Fetching? ==> Reselected(w, rules, peers).state == w.state
    {
    }

    static lemma ReselectCounts(s: List, rules: Rules, peers: Peers, perPeer: map<NodeId, nat>, total: nat)
      requires Counts(s, perPeer, total)
      ensures Counts(Reselect(s, rules, peers), perPeer, total)
    {
      hide Reselect, FetchingAll, FetchingFrom;
      ReselectFetching(s, rules, peers);
    }
  }
}
