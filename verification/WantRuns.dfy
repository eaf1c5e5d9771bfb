/** Runs of the want-list against a host: at most one commit per path, fetch slots within the
    rules, and refusals that hold. */
module WantRuns {
  import opened Prelude
  import opened Versions
  import opened Paths
  import opened Entries
  import opened Classify
  import opened Wants
  import opened Dispatching
  import Orders

  datatype Op =
    | Inserting(item: ApplyItem, received: Entry, batch: nat, source: NodeId, seqHigh: nat,
                marked: Option<set<NodeId>>)
    | Taking(path: RelPath)
    | Removing(path: RelPath)
    | InsertingReverted(want: Want)
    | ClearingMark(path: RelPath)
    | Remembering(path: RelPath, trashed: Option<Observed>)
    | Announcing(path: RelPath, hash: ContentHash, teller: NodeId)
    | KeepingRefusals(path: RelPath, hash: ContentHash, refused: map<NodeId, int>)
    | Reconnecting(peer: NodeId)
    | FetchReported(now: int, path: RelPath, version: Version, report: FetchReport)
    | FetchFailing(now: int, path: RelPath, version: Version, error: LocalError, withSeq: Option<nat>)
    | CommitDone(path: RelPath, version: Version)
    | CommitFailed(now: int, path: RelPath, version: Version, error: LocalError, withSeq: Option<nat>)
    | DirObserving(path: RelPath)
    | Pausing
    | Resuming
    | Recolliding(live: map<RelPath, nat>)
    | Progressing(now: int, path: RelPath, version: Version)
    | Expiring(now: int)
    | PeerLeaving(peer: NodeId)
    | Restarting
    | Dispatches(now: int, peers: Peers)

  /** A commit's report, as a caller delivers it: discarded if a rule released the commit, else
      the want goes, or waits as the failure says. */
  function Step(s: List, op: Op, rules: Rules): List {
    match op
    case Inserting(item, received, batch, source, seqHigh, marked) =>
      Insert(s, item, received, batch, source, seqHigh, marked)
    case Taking(p) => Take(s, p)
    case Removing(p) => Remove(s, p)
    case InsertingReverted(w) => InsertReverted(s, w)
    case ClearingMark(p) => ClearRestoring(s, p)
    case Remembering(p, trashed) => RememberTrashed(s, p, trashed)
    case Announcing(p, hash, teller) => NoteAnnounced(s, p, hash, teller)
    case KeepingRefusals(p, hash, refused) => KeepRefusals(s, p, hash, refused)
    case Reconnecting(peer) => Reconnected(s, peer)
    case FetchReported(now, p, v, report) => FetchedAt(s, now, p, v, report)
    case FetchFailing(now, p, v, error, withSeq) => FetchFailedAt(s, now, p, v, error, withSeq)
    case CommitDone(p, v) => if IsReleased(s, p, v) then ReleasedReported(s, p, v) else Remove(s, p)
    case CommitFailed(now, p, v, error, withSeq) =>
      if IsReleased(s, p, v) then ReleasedReported(s, p, v) else Failed(s, now, p, v, error, withSeq)
    case DirObserving(p) => DirObserved(s, p)
    case Pausing => PauseInbound(s)
    case Resuming => ResumeInbound(s)
    case Recolliding(live) => ReleaseCollisions(s, live)
    case Progressing(now, p, v) => Progress(s, now, p, v)
    case Expiring(now) => Expire(s, now)
    case PeerLeaving(peer) => PeerGone(s, peer)
    case Restarting => Restarted(s)
    case Dispatches(now, peers) => Dispatch(s, now, rules, peers).0
  }

  function StepsOf(s: List, op: Op, rules: Rules): seq<WantStep> {
    match op
    case Dispatches(now, peers) => Dispatch(s, now, rules, peers).1
    case _ => []
  }

  predicate IsCommitting(s: List, p: RelPath) {
    p in s.wants && s.wants[p].state.Committing?
  }

  /** What callers keep to: a committing want is removed or overwritten only on its report, the
      host reports only commits it was given, a want a revert makes starts wanted with nothing in
      hand, and refusals are carried over only to a want just made, which fetches nothing and refuses no one. */
  predicate Enabled(s: List, out: map<RelPath, Version>, op: Op) {
    match op
    case Removing(p) => !IsCommitting(s, p)
    case InsertingReverted(w) => w.state.Wanted? && !w.fetched && !IsCommitting(s, w.Path())
    case KeepingRefusals(p, _, _) => p in s.wants ==> !s.wants[p].state.Fetching? && s.wants[p].refused == map[]
    case CommitDone(p, v) => p in out && out[p] == v
    case CommitFailed(_, p, v, _, _) => p in out && out[p] == v
    case _ => true
  }

  /** The commits the host was given and has not reported. */
  function After(out: map<RelPath, Version>, step: WantStep): map<RelPath, Version> {
    match step
    case Commit(w) => out[w.Path() := w.Version()]
    case _ => out
  }

  function AfterAll(out: map<RelPath, Version>, steps: seq<WantStep>): map<RelPath, Version>
    decreases |steps|
  {
    if steps == [] then out else AfterAll(After(out, steps[0]), steps[1..])
  }

  function NextOut(s: List, out: map<RelPath, Version>, op: Op, rules: Rules): map<RelPath, Version> {
    match op
    case CommitDone(p, _) => out - {p}
    case CommitFailed(_, p, _, _, _) => out - {p}
    case Restarting => map[]
    case _ => AfterAll(out, StepsOf(s, op, rules))
  }

  /** The commit the want-list knows the host to have for a path. */
  function HostAt(s: List, p: RelPath): Option<Version> {
    if p in s.released then Some(s.released[p])
    else if IsCommitting(s, p) then Some(s.wants[p].Version())
    else None
  }

  /** The want-list's own account of the host's commits. */
  function HostHas(s: List): map<RelPath, Version> {
    map p | p in s.wants.Keys + s.released.Keys && HostAt(s, p).Some? :: HostAt(s, p).value
  }

  /** No step is a commit, or an index-only adoption, of a path the host has a commit for. */
  predicate OnlyFree(out: map<RelPath, Version>, steps: seq<WantStep>)
    decreases |steps|
  {
    steps == [] ||
    ((match steps[0] case Fetch(_, _, _) => true
                     case Commit(w) => w.Path() !in out
                     case Adopt(w) => w.Path() !in out)
     && OnlyFree(After(out, steps[0]), steps[1..]))
  }

  predicate FetchSound(w: Want) {
    w.state.Fetching? ==>
      w.state.from in w.sources && w.state.from !in w.excluded && w.state.from !in w.refused
  }

  /** Released commits hold paths no want is committing at. */
  ghost predicate Apart(s: List) {
    forall p :: p in s.released ==> !IsCommitting(s, p)
  }

  ghost predicate Sound(s: List) {
    forall p :: p in s.wants ==> FetchSound(s.wants[p])
  }

  ghost predicate WithinSlots(s: List, rules: Rules) {
    && |FetchingAll(s)| <= rules.maxPerFolder
    && forall n :: |FetchingFrom(s, n)| <= rules.maxPerPeer
  }

  ghost predicate Inv(s: List, out: map<RelPath, Version>, rules: Rules) {
    Accounted(s, out) && WithinSlots(s, rules)
  }

  /** The list agrees with what the host was given. */
  ghost predicate Accounted(s: List, out: map<RelPath, Version>) {
    Keyed(s) && Apart(s) && Sound(s) && out == HostHas(s)
  }

  // Steps that start nothing.

  /** What a step that starts nothing does to a want that stays. */
  predicate Kept(w: Want, v: Want) {
    && v.Path() == w.Path() && v.Version() == w.Version()
    && v.state.Committing? == w.state.Committing?
    && (v.state.Fetching? ==> w.state.Fetching? && v.state.from == w.state.from)
    && (FetchSound(w) ==> FetchSound(v))
  }

  /** From `s` to `t`: wants stay as they are kept, or start as wanted, and no commit starts,
      ends or loses its want. */
  ghost predicate Quiet(s: List, t: List) {
    && t.released == s.released
    && (forall p :: IsCommitting(s, p) ==> p in t.wants && Kept(s.wants[p], t.wants[p]))
    && (forall p :: p in t.wants ==>
          || (p in s.wants && Kept(s.wants[p], t.wants[p]))
          || (t.wants[p].state.Wanted? && t.wants[p].Path() == p && !IsCommitting(s, p)))
  }

  lemma SubsetSize<T>(a: set<T>, b: set<T>)
    requires a <= b
    ensures |a| <= |b|
  {
    assert b == a + (b - a);
  }

  /** Every fetch of `t` is one of `s`. */
  ghost predicate NoNewFetch(s: List, t: List) {
    forall p :: p in t.wants && t.wants[p].state.Fetching? ==>
      p in s.wants && s.wants[p].state.Fetching? && s.wants[p].state.from == t.wants[p].state.from
  }

  lemma FewerFetches(s: List, t: List, rules: Rules)
    requires NoNewFetch(s, t) && WithinSlots(s, rules)
    ensures WithinSlots(t, rules)
  {
    assert FetchingAll(t) <= FetchingAll(s);
    SubsetSize(FetchingAll(t), FetchingAll(s));
    forall n ensures |FetchingFrom(t, n)| <= |FetchingFrom(s, n)| {
      assert FetchingFrom(t, n) <= FetchingFrom(s, n);
      SubsetSize(FetchingFrom(t, n), FetchingFrom(s, n));
    }
  }

  lemma QuietInv(s: List, t: List, out: map<RelPath, Version>, rules: Rules)
    requires Inv(s, out, rules) && Quiet(s, t)
    ensures Inv(t, out, rules)
  {
    QuietCommits(s, t);
    FewerFetches(s, t, rules);
  }

  lemma QuietAt(s: List, t: List, p: RelPath)
    requires Keyed(s) && Sound(s) && Quiet(s, t)
    ensures HostAt(t, p) == HostAt(s, p) && IsCommitting(s, p) == IsCommitting(t, p)
    ensures p in t.wants ==> t.wants[p].Path() == p && FetchSound(t.wants[p])
  {
  }

  lemma QuietCommits(s: List, t: List)
    requires Keyed(s) && Apart(s) && Sound(s) && Quiet(s, t)
    ensures Keyed(t) && Apart(t) && Sound(t) && HostHas(t) == HostHas(s)
  {
    hide Kept, HostAt, FetchSound;
    forall p
      ensures HostAt(t, p) == HostAt(s, p) && IsCommitting(s, p) == IsCommitting(t, p)
      ensures p in t.wants ==> t.wants[p].Path() == p && FetchSound(t.wants[p])
    {
      QuietAt(s, t, p);
    }
    forall p ensures p in HostHas(t) <==> p in HostHas(s) {
      HostKeys(s, p);
      HostKeys(t, p);
    }
  }

  lemma SetWantQuiet(s: List, p: RelPath, w: Want)
    requires if p in s.wants then Kept(s.wants[p], w) || (w.state.Wanted? && w.Path() == p && !IsCommitting(s, p))
             else w.state.Wanted? && w.Path() == p
    ensures Quiet(s, SetWant(s, p, w))
  {
  }

  lemma StateKept(w: Want, state: WantState)
    requires !state.Fetching? && !state.Committing? && !w.state.Committing?
    ensures Kept(w, w.(state := state))
  {
  }

  lemma SetEachQuiet(s: List, ps: set<RelPath>, state: WantState)
    requires !state.Fetching? && !state.Committing?
    requires forall p :: p in ps ==> !IsCommitting(s, p)
    ensures Quiet(s, SetEach(s, ps, state))
  {
    hide Kept;
    forall p | p in s.wants ensures Kept(s.wants[p], SetEach(s, ps, state).wants[p]) {
      if p in ps {
        assert !IsCommitting(s, p);
        StateKept(s.wants[p], state);
      } else {
        SameKept(s.wants[p]);
      }
    }
  }

  predicate StartsNothing(op: Op) {
    !op.Taking? && !op.CommitDone? && !op.CommitFailed? && !op.Restarting? && !op.Dispatches?
  }

  lemma RecountedKept(w: Want, excluded: map<NodeId, int>)
    requires excluded.Keys <= w.excluded.Keys
    ensures Kept(w, Recounted(w.(excluded := excluded)))
  {
  }

  lemma LiftKept(w: Want, only: Option<NodeId>)
    ensures Kept(w, Lift(w, only))
  {
    hide Kept, Recounted;
    SameKept(w);
    match only
    case Some(n) => RecountedKept(w, w.excluded - {n});
    case None => RecountedKept(w, map[]);
  }

  lemma ExpiredKept(w: Want, now: int)
    ensures Kept(w, ExpiredWant(w, now))
  {
    SameKept(w);
    RecountedKept(w, w.excluded - Due(w.excluded, now));
    TimedKept(LiftDue(w, now), w.refused - Due(w.refused, now), now);
  }

  /** What is left of an expiry once exclusions are lifted. */
  lemma TimedKept(w: Want, refused: map<NodeId, int>, now: int)
    requires refused.Keys <= w.refused.Keys
    ensures Kept(w, Timed(w.(refused := refused), now))
  {
  }

  lemma AnnouncedKept(w: Want, teller: NodeId)
    ensures Kept(w, Announced(w, teller))
  {
    LiftKept(w.(sources := w.sources + {teller}, refused := w.refused - {teller}), None);
  }

  lemma FailedKept(w: Want, now: int, error: LocalError, withSeq: Option<nat>)
    requires !w.state.Committing?
    ensures Kept(w, FailedWant(w, now, error, withSeq))
  {
  }

  lemma FetchedKept(w: Want, now: int, report: FetchReport)
    requires w.state.Fetching?
    ensures Kept(w, FetchedWant(w, now, report))
  {
    if report.FetchFailed? { FailedKept(w, now, report.error, None); }
  }

  lemma ExpireQuiet(s: List, now: int)
    ensures Quiet(s, Expire(s, now))
  {
    hide Kept, ExpiredWant;
    forall p | p in s.wants ensures Kept(s.wants[p], ExpiredWant(s.wants[p], now)) {
      ExpiredKept(s.wants[p], now);
    }
  }

  lemma ReconnectQuiet(s: List, peer: NodeId)
    ensures Quiet(s, Reconnected(s, peer))
  {
    hide Kept, Lift;
    forall p | p in s.wants ensures Kept(s.wants[p], ReconnectedWant(s.wants[p], peer)) {
      LiftKept(s.wants[p], Some(peer));
      SameKept(s.wants[p]);
    }
  }

  lemma SameKept(w: Want)
    ensures Kept(w, w)
  {
  }

  predicate AtOneWant(op: Op) {
    op.ClearingMark? || op.Remembering? || op.Announcing? || op.KeepingRefusals?
    || op.FetchReported? || op.FetchFailing? || op.DirObserving? || op.Progressing?
  }

  /** From `s` to `t`, at most the want at `p` changed, and it was kept. */
  ghost predicate KeptAt(s: List, t: List, p: RelPath) {
    t == s || (p in s.wants && p in t.wants && t == SetWant(s, p, t.wants[p]) && Kept(s.wants[p], t.wants[p]))
  }

  lemma ReportKept(s: List, now: int, p: RelPath, v: Version, report: FetchReport)
    ensures KeptAt(s, FetchedAt(s, now, p, v, report), p)
  {
    hide FetchedWant, Kept;
    if AwaitsFetch(s, p, v) { FetchedKept(s.wants[p], now, report); }
  }

  lemma FailureKept(s: List, now: int, p: RelPath, v: Version, error: LocalError, withSeq: Option<nat>)
    ensures KeptAt(s, FetchFailedAt(s, now, p, v, error, withSeq), p)
  {
    hide FailedWant, Kept;
    if AwaitsFetch(s, p, v) { FailedKept(s.wants[p], now, error, withSeq); }
  }

  lemma NoteKept(s: List, p: RelPath, hash: ContentHash, teller: NodeId)
    ensures KeptAt(s, NoteAnnounced(s, p, hash, teller), p)
  {
    hide Announced, Kept;
    if WantsContent(s, p, hash) { AnnouncedKept(s.wants[p], teller); }
  }

  lemma OneWantKept(s: List, op: Op, rules: Rules)
    requires Enabled(s, HostHas(s), op) && AtOneWant(op)
    ensures KeptAt(s, Step(s, op, rules), op.path)
  {
    match op
    case Announcing(p, hash, teller) => NoteKept(s, p, hash, teller);
    case FetchReported(now, p, v, report) => ReportKept(s, now, p, v, report);
    case FetchFailing(now, p, v, error, withSeq) => FailureKept(s, now, p, v, error, withSeq);
    case ClearingMark(_) =>
    case Remembering(_, _) =>
    case KeepingRefusals(_, _, _) =>
    case DirObserving(_) =>
    case Progressing(_, _, _) =>
  }

  lemma InsertQuiet(s: List, item: ApplyItem, received: Entry, batch: nat, source: NodeId, seqHigh: nat,
                    marked: Option<set<NodeId>>)
    requires Keyed(s)
    ensures Quiet(s, Insert(s, item, received, batch, source, seqHigh, marked))
  {
    hide Compare;
    var p := item.entry.path;
    var t := Insert(s, item, received, batch, source, seqHigh, marked);
    if t != s { SetWantQuiet(s, p, t.wants[p]); }
  }

  lemma ListQuiet(s: List, op: Op, rules: Rules)
    requires op.Pausing? || op.Resuming? || op.Recolliding? || op.PeerLeaving?
    ensures Quiet(s, Step(s, op, rules))
  {
    match op
    case Pausing => SetEachQuiet(s, Startable(s), DiskFull);
    case Resuming => SetEachQuiet(s, WaitingForSpace(s), Wanted);
    case Recolliding(live) => SetEachQuiet(s, Recollided(s, live), Wanted);
    case PeerLeaving(peer) => SetEachQuiet(s, FetchingFrom(s, peer), Wanted);
  }

  lemma StepQuiet(s: List, op: Op, rules: Rules)
    requires Keyed(s) && Enabled(s, HostHas(s), op) && StartsNothing(op)
    ensures Quiet(s, Step(s, op, rules))
  {
    hide Kept;
    if AtOneWant(op) {
      OneWantKept(s, op, rules);
      KeptAtQuiet(s, Step(s, op, rules), op.path);
    } else if op.Inserting? {
      InsertQuiet(s, op.item, op.received, op.batch, op.source, op.seqHigh, op.marked);
    } else if op.InsertingReverted? {
      SetWantQuiet(s, op.want.Path(), op.want);
    } else if op.Expiring? {
      ExpireQuiet(s, op.now);
    } else if op.Reconnecting? {
      ReconnectQuiet(s, op.peer);
    } else if op.Removing? {
      RemoveQuiet(s, op.path);
    } else {
      ListQuiet(s, op, rules);
    }
  }

  lemma RemoveQuiet(s: List, p: RelPath)
    requires !IsCommitting(s, p)
    ensures Quiet(s, Remove(s, p))
  {
  }

  lemma KeptAtQuiet(s: List, t: List, p: RelPath)
    requires KeptAt(s, t, p)
    ensures Quiet(s, t)
  {
    if t != s { SetWantQuiet(s, p, t.wants[p]); }
  }

  // Steps that end or hand over a commit.

  /** Only path `p` may differ between `s` and `t`. */
  ghost predicate ChangedAt(s: List, t: List, p: RelPath) {
    forall q :: q != p ==>
      && (q in t.wants <==> q in s.wants) && (q in t.wants && q in s.wants ==> t.wants[q] == s.wants[q])
      && (q in t.released <==> q in s.released)
      && (q in t.released && q in s.released ==> t.released[q] == s.released[q])
  }

  function With(out: map<RelPath, Version>, p: RelPath, v: Option<Version>): map<RelPath, Version> {
    match v case None => out - {p} case Some(u) => out[p := u]
  }

  lemma HostElsewhere(s: List, t: List, p: RelPath, q: RelPath)
    requires ChangedAt(s, t, p) && q != p
    ensures HostAt(t, q) == HostAt(s, q)
  {
  }

  lemma HostKeys(s: List, p: RelPath)
    ensures p in HostHas(s) <==> HostAt(s, p).Some?
    ensures p in HostHas(s) ==> HostHas(s)[p] == HostAt(s, p).value
  {
  }

  lemma HostChangedAt(s: List, t: List, p: RelPath)
    requires ChangedAt(s, t, p)
    ensures HostHas(t) == With(HostHas(s), p, HostAt(t, p))
  {
    hide ChangedAt, HostAt, HostHas;
    forall q ensures q in HostHas(t) <==> q in With(HostHas(s), p, HostAt(t, p))
      ensures q in HostHas(t) ==> HostHas(t)[q] == With(HostHas(s), p, HostAt(t, p))[q]
    {
      HostKeys(s, q);
      HostKeys(t, q);
      if q != p { HostElsewhere(s, t, p, q); }
    }
  }

  lemma ChangedAccounted(s: List, t: List, p: RelPath, out: map<RelPath, Version>)
    requires Accounted(s, out) && ChangedAt(s, t, p)
    requires p in t.wants ==> t.wants[p].Path() == p && FetchSound(t.wants[p])
    requires p in t.released ==> !IsCommitting(t, p)
    ensures Accounted(t, With(out, p, HostAt(t, p)))
  {
    hide HostHas, HostAt;
    HostChangedAt(s, t, p);
  }

  lemma TakeInv(s: List, p: RelPath, out: map<RelPath, Version>, rules: Rules)
    requires Inv(s, out, rules)
    ensures Inv(Take(s, p), out, rules)
  {
    hide WithinSlots, Accounted, HostHas;
    if p in s.wants {
      TakeAccounted(s, p, out);
      FewerFetches(s, Take(s, p), rules);
    }
  }

  lemma TakeAccounted(s: List, p: RelPath, out: map<RelPath, Version>)
    requires Accounted(s, out) && p in s.wants
    ensures Accounted(Take(s, p), out) && NoNewFetch(s, Take(s, p))
  {
    hide HostHas;
    ChangedAccounted(s, Take(s, p), p, out);
    HostChangedAt(s, s, p);
    assert HostAt(Take(s, p), p) == HostAt(s, p);
  }

  lemma RestartedAt(s: List, p: RelPath)
    requires p in s.wants
    ensures var w := Restarted(s).wants[p];
            w.Path() == s.wants[p].Path() && !w.state.Committing? && !w.state.Fetching?
  {
  }

  lemma RestartInv(s: List, out: map<RelPath, Version>, rules: Rules)
    requires Inv(s, out, rules)
    ensures Inv(Restarted(s), map[], rules)
  {
    hide WithinSlots, RestoredWant;
    var t := Restarted(s);
    forall p | p in t.wants
      ensures t.wants[p].Path() == p && !t.wants[p].state.Committing? && !t.wants[p].state.Fetching?
    {
      RestartedAt(s, p);
    }
    FewerFetches(s, t, rules);
    assert HostHas(t) == map[];
  }

  /** A report the host owes: for a released commit, or for a want that is committing. */
  lemma ReportedCommit(s: List, p: RelPath, v: Version)
    requires Apart(s) && p in HostHas(s) && HostHas(s)[p] == v
    ensures IsReleased(s, p, v) || (p !in s.released && IsCommitting(s, p) && s.wants[p].Version() == v)
    ensures IsReleased(s, p, v) ==> !IsCommitting(s, p)
  {
  }

  lemma ReleasedAccounted(s: List, p: RelPath, v: Version, out: map<RelPath, Version>)
    requires Accounted(s, out) && IsReleased(s, p, v)
    ensures Accounted(ReleasedReported(s, p, v), out - {p})
    ensures NoNewFetch(s, ReleasedReported(s, p, v))
  {
    hide HostHas;
    ChangedAccounted(s, ReleasedReported(s, p, v), p, out);
  }

  lemma RemovedAccounted(s: List, p: RelPath, out: map<RelPath, Version>)
    requires Accounted(s, out) && p !in s.released
    ensures Accounted(Remove(s, p), out - {p}) && NoNewFetch(s, Remove(s, p))
  {
    hide HostHas;
    ChangedAccounted(s, Remove(s, p), p, out);
  }

  /** A committing want's state becomes one that is not. */
  lemma EndedAccounted(s: List, p: RelPath, w: Want, out: map<RelPath, Version>)
    requires Accounted(s, out) && p !in s.released
    requires w.Path() == p && !w.state.Committing? && !w.state.Fetching?
    ensures Accounted(SetWant(s, p, w), out - {p}) && NoNewFetch(s, SetWant(s, p, w))
  {
    hide HostHas;
    ChangedAccounted(s, SetWant(s, p, w), p, out);
  }

  lemma DoneInv(s: List, p: RelPath, v: Version, out: map<RelPath, Version>, rules: Rules)
    requires Inv(s, out, rules) && p in out && out[p] == v
    ensures Inv(Step(s, CommitDone(p, v), rules), out - {p}, rules)
  {
    hide WithinSlots, HostHas;
    ReportedCommit(s, p, v);
    if IsReleased(s, p, v) {
      ReleasedAccounted(s, p, v, out);
    } else {
      RemovedAccounted(s, p, out);
    }
    FewerFetches(s, Step(s, CommitDone(p, v), rules), rules);
  }

  lemma FailedRests(w: Want, now: int, error: LocalError, withSeq: Option<nat>)
    ensures FailedWant(w, now, error, withSeq).Path() == w.Path()
    ensures !FailedWant(w, now, error, withSeq).state.Committing?
    ensures !FailedWant(w, now, error, withSeq).state.Fetching?
  {
  }

  lemma FailedInv(s: List, op: Op, out: map<RelPath, Version>, rules: Rules)
    requires Inv(s, out, rules) && op.CommitFailed? && Enabled(s, out, op)
    ensures Inv(Step(s, op, rules), out - {op.path}, rules)
  {
    hide WithinSlots, HostHas, FailedWant, Sound, Apart, ReleasedReported, NoNewFetch;
    var p := op.path;
    ReportedCommit(s, p, op.version);
    if IsReleased(s, p, op.version) {
      ReleasedAccounted(s, p, op.version, out);
    } else {
      FailedRests(s.wants[p], op.now, op.error, op.withSeq);
      EndedAccounted(s, p, FailedWant(s.wants[p], op.now, op.error, op.withSeq), out);
    }
    FewerFetches(s, Step(s, op, rules), rules);
  }

  // Dispatching.

  lemma UnchangedHost(s: List, t: List, p: RelPath, out: map<RelPath, Version>)
    requires Accounted(s, out) && ChangedAt(s, t, p) && HostAt(t, p) == HostAt(s, p)
    requires p in t.wants ==> t.wants[p].Path() == p && FetchSound(t.wants[p])
    requires p in t.released ==> !IsCommitting(t, p)
    ensures Accounted(t, out)
  {
    hide HostHas, HostAt;
    ChangedAccounted(s, t, p, out);
    HostChangedAt(s, s, p);
  }

  /** A fetch starting at `p` from `n` is one more from `n`. */
  lemma OneMoreFrom(s: List, p: RelPath, n: NodeId, deadline: int, m: NodeId)
    requires p in s.wants && !s.wants[p].state.Fetching?
    ensures |FetchingFrom(SetState(s, p, Fetching(n, deadline)), m)|
         == |FetchingFrom(s, m)| + if m == n then 1 else 0
  {
    var was := FetchingFrom(s, m);
    assert FetchingFrom(SetState(s, p, Fetching(n, deadline)), m) == if m == n then was + {p} else was;
  }

  lemma OneMoreInAll(s: List, p: RelPath, n: NodeId, deadline: int)
    requires p in s.wants && !s.wants[p].state.Fetching?
    ensures |FetchingAll(SetState(s, p, Fetching(n, deadline)))| == |FetchingAll(s)| + 1
  {
    assert FetchingAll(SetState(s, p, Fetching(n, deadline))) == FetchingAll(s) + {p};
  }

  lemma OneFetchMore(s: List, p: RelPath, n: NodeId, deadline: int, rules: Rules)
    requires p in s.wants && !s.wants[p].state.Fetching? && WithinSlots(s, rules)
    requires |FetchingAll(s)| < rules.maxPerFolder && |FetchingFrom(s, n)| < rules.maxPerPeer
    ensures WithinSlots(SetState(s, p, Fetching(n, deadline)), rules)
  {
    hide FetchingFrom, FetchingAll, SetState;
    var t := SetState(s, p, Fetching(n, deadline));
    OneMoreInAll(s, p, n, deadline);
    forall m ensures |FetchingFrom(t, m)| <= rules.maxPerPeer {
      OneMoreFrom(s, p, n, deadline, m);
    }
  }

  lemma AssignAccounted(s: List, p: RelPath, now: int, rules: Rules, peers: Peers, out: map<RelPath, Version>)
    requires Accounted(s, out) && p in s.wants && MayFetch(s.wants[p])
    ensures Accounted(Assign(s, p, now, rules, peers).0, out)
    ensures ChangedAt(s, Assign(s, p, now, rules, peers).0, p)
  {
    hide HostHas, Best, Classify.ClassifyEntry;
    UnchangedHost(s, Assign(s, p, now, rules, peers).0, p, out);
  }

  lemma AssignSlots(s: List, p: RelPath, now: int, rules: Rules, peers: Peers)
    requires WithinSlots(s, rules) && p in s.wants && MayFetch(s.wants[p])
    ensures WithinSlots(Assign(s, p, now, rules, peers).0, rules)
  {
    hide WithinSlots;
    var t := Assign(s, p, now, rules, peers).0;
    if t.wants[p].state.Fetching? {
      OneFetchMore(s, p, t.wants[p].state.from, now + FETCH_STALL_NANOS, rules);
    } else {
      FewerFetches(s, t, rules);
    }
  }

  /** A fetch names an allowed source of the want at its path. */
  predicate FromAllowed(s: List, step: WantStep, rules: Rules, peers: Peers) {
    step.Fetch? && step.path in s.wants && step.from in Allowed(s.wants[step.path], rules, peers)
    && step.version == s.wants[step.path].Version()
  }

  ghost predicate AllAllowed(s: List, steps: seq<WantStep>, rules: Rules, peers: Peers) {
    forall i :: 0 <= i < |steps| ==> FromAllowed(s, steps[i], rules, peers)
  }

  /** Wants are as they were but for their states. */
  ghost predicate OnlyStates(s: List, t: List) {
    && t.released == s.released && t.wants.Keys <= s.wants.Keys
    && forall p :: p in t.wants ==> t.wants[p] == s.wants[p].(state := t.wants[p].state)
  }

  lemma AssignAllowed(s: List, p: RelPath, now: int, rules: Rules, peers: Peers)
    requires p in s.wants
    ensures AllAllowed(s, Assign(s, p, now, rules, peers).1, rules, peers)
    ensures OnlyStates(s, Assign(s, p, now, rules, peers).0)
  {
  }

  lemma AllowedMoves(s: List, t: List, steps: seq<WantStep>, rules: Rules, peers: Peers)
    requires OnlyStates(s, t) && AllAllowed(t, steps, rules, peers)
    ensures AllAllowed(s, steps, rules, peers)
  {
    forall i | 0 <= i < |steps| ensures FromAllowed(s, steps[i], rules, peers) {
      assert FromAllowed(t, steps[i], rules, peers);
    }
  }

  ghost predicate AllMayFetch(s: List, ps: seq<RelPath>) {
    forall p :: p in ps ==> p in s.wants && MayFetch(s.wants[p])
  }

  lemma RestMayFetch(s: List, t: List, ps: seq<RelPath>)
    requires ps != [] && Distinct(ps) && AllMayFetch(s, ps) && ChangedAt(s, t, ps[0])
    ensures Distinct(ps[1..]) && AllMayFetch(t, ps[1..])
  {
    forall p | p in ps[1..] ensures p in t.wants && MayFetch(t.wants[p]) {
      assert p in ps && p != ps[0];
    }
  }

  lemma {:induction false} AssignAllInv(s: List, ps: seq<RelPath>, now: int, rules: Rules, peers: Peers,
                                        out: map<RelPath, Version>)
    requires Inv(s, out, rules) && Distinct(ps) && AllMayFetch(s, ps)
    ensures Inv(AssignAll(s, ps, now, rules, peers).0, out, rules)
    decreases |ps|
  {
    hide Inv, Assign, MayFetch, Distinct, ChangedAt;
    if ps != [] {
      assert ps[0] in ps;
      var t := Assign(s, ps[0], now, rules, peers).0;
      AssignInv(s, ps[0], now, rules, peers, out);
      RestMayFetch(s, t, ps);
      AssignAllInv(t, ps[1..], now, rules, peers, out);
    }
  }

  lemma AssignInv(s: List, p: RelPath, now: int, rules: Rules, peers: Peers, out: map<RelPath, Version>)
    requires Inv(s, out, rules) && p in s.wants && MayFetch(s.wants[p])
    ensures Inv(Assign(s, p, now, rules, peers).0, out, rules)
    ensures ChangedAt(s, Assign(s, p, now, rules, peers).0, p)
  {
    hide Accounted, WithinSlots, Assign;
    AssignAccounted(s, p, now, rules, peers, out);
    AssignSlots(s, p, now, rules, peers);
  }

  lemma {:induction false} AssignAllAllowed(s: List, ps: seq<RelPath>, now: int, rules: Rules, peers: Peers)
    requires forall p :: p in ps ==> p in s.wants
    ensures AllAllowed(s, AssignAll(s, ps, now, rules, peers).1, rules, peers)
    ensures OnlyStates(s, AssignAll(s, ps, now, rules, peers).0)
    ensures AssignAll(s, ps, now, rules, peers).0.wants.Keys == s.wants.Keys
    decreases |ps|
  {
    if ps != [] {
      var (t, steps) := Assign(s, ps[0], now, rules, peers);
      AssignAllowed(s, ps[0], now, rules, peers);
      AssignAllAllowed(t, ps[1..], now, rules, peers);
      AllowedMoves(s, t, AssignAll(t, ps[1..], now, rules, peers).1, rules, peers);
    }
  }

  lemma ReselectedKept(w: Want, rules: Rules, peers: Peers)
    ensures Kept(w, Reselected(w, rules, peers))
    ensures Reselected(w, rules, peers) == w.(state := Reselected(w, rules, peers).state)
  {
  }

  lemma ReselectQuiet(s: List, rules: Rules, peers: Peers)
    ensures Quiet(s, Reselect(s, rules, peers))
    ensures OnlyStates(s, Reselect(s, rules, peers))
    ensures Reselect(s, rules, peers).wants.Keys == s.wants.Keys
  {
    hide Kept, Reselected;
    forall p | p in s.wants
      ensures Kept(s.wants[p], Reselected(s.wants[p], rules, peers))
      ensures Reselected(s.wants[p], rules, peers)
           == s.wants[p].(state := Reselected(s.wants[p], rules, peers).state)
    {
      ReselectedKept(s.wants[p], rules, peers);
    }
  }

  lemma WaitingQuiet(s: List)
    ensures Quiet(s, ReleaseWaiting(s)) && OnlyStates(s, ReleaseWaiting(s))
    ensures ReleaseWaiting(s).wants.Keys == s.wants.Keys
  {
    hide Gates;
    SetEachQuiet(s, DoneWaiting(s), Wanted);
  }

  lemma FetchOrderFacts(s: List, rules: Rules, peers: Peers)
    ensures Orders.Total(FetchOrder(BestSources(s, rules, peers), peers))
    ensures var ps := Orders.Sort(Fetchable(s, rules, peers), FetchOrder(BestSources(s, rules, peers), peers));
            Distinct(ps) && AllMayFetch(Reselect(s, rules, peers), ps)
  {
    hide FetchOrder, BestSources, MayFetch;
    var best := BestSources(s, rules, peers);
    FetchOrderTotal(best, peers);
    Orders.SortElements(Fetchable(s, rules, peers), FetchOrder(best, peers));
  }

  lemma FetchPassInv(s: List, now: int, rules: Rules, peers: Peers, out: map<RelPath, Version>)
    requires Inv(s, out, rules)
    ensures Inv(FetchPass(s, now, rules, peers).0, out, rules)
    ensures AllAllowed(s, FetchPass(s, now, rules, peers).1, rules, peers)
    ensures OnlyStates(s, FetchPass(s, now, rules, peers).0)
  {
    hide Inv, Quiet, FetchOrder, BestSources, Fetchable, Reselect, FromAllowed;
    var best := BestSources(s, rules, peers);
    var ps := Orders.Sort(Fetchable(s, rules, peers), FetchOrder(best, peers)) by {
      FetchOrderTotal(best, peers);
    }
    FetchOrderFacts(s, rules, peers);
    ReselectQuiet(s, rules, peers);
    var t := Reselect(s, rules, peers);
    QuietInv(s, t, out, rules);
    AssignAllInv(t, ps, now, rules, peers, out);
    AssignAllAllowed(t, ps, now, rules, peers);
    AllowedMoves(s, t, AssignAll(t, ps, now, rules, peers).1, rules, peers);
  }

  lemma {:induction false} FetchesFree(out: map<RelPath, Version>, steps: seq<WantStep>)
    requires forall i :: 0 <= i < |steps| ==> steps[i].Fetch?
    ensures OnlyFree(out, steps) && AfterAll(out, steps) == out
    decreases |steps|
  {
    if steps != [] { FetchesFree(out, steps[1..]); }
  }

  lemma {:induction false} FreeAppend(out: map<RelPath, Version>, a: seq<WantStep>, b: seq<WantStep>)
    ensures AfterAll(out, a + b) == AfterAll(AfterAll(out, a), b)
    ensures OnlyFree(out, a + b) <==> OnlyFree(out, a) && OnlyFree(AfterAll(out, a), b)
    decreases |a|
  {
    if a == [] {
      assert a + b == b;
    } else {
      assert (a + b)[1..] == a[1..] + b;
      FreeAppend(After(out, a[0]), a[1..], b);
    }
  }

  /** The three outcomes for one want with its content in hand. */
  ghost predicate Outcome(s: List, p: RelPath, now: int, t: List, steps: seq<WantStep>)
    requires p in s.wants
  {
    || (steps == [] && p in t.wants && t == SetState(s, p, t.wants[p].state)
        && !t.wants[p].state.Committing? && !t.wants[p].state.Fetching?)
    || (steps == [Adopt(s.wants[p])] && p !in s.released && t == Remove(s, p))
    || (steps == [Commit(s.wants[p])] && p !in s.released
        && t == SetState(s, p, Committing(now + COMMIT_DEADLINE_NANOS, false)))
  }

  lemma CommitOneOutcome(s: List, p: RelPath, now: int)
    requires p in s.wants
    ensures Outcome(s, p, now, CommitOne(s, p, now).0, CommitOne(s, p, now).1)
  {
    hide Gates, StuckAhead;
  }

  lemma CommitOneAccounted(s: List, p: RelPath, now: int, out: map<RelPath, Version>)
    requires Accounted(s, out) && p in s.wants && CouldStart(s.wants[p])
    ensures var (t, steps) := CommitOne(s, p, now);
            OnlyFree(out, steps) && Accounted(t, AfterAll(out, steps))
  {
    hide HostHas, CommitOne;
    var (t, steps) := CommitOne(s, p, now);
    CommitOneOutcome(s, p, now);
    HostKeys(s, p);
    HostChangedAt(s, s, p);
    ChangedAccounted(s, t, p, out);
  }

  lemma OutcomeElsewhere(s: List, p: RelPath, now: int, t: List, steps: seq<WantStep>)
    requires p in s.wants && Outcome(s, p, now, t, steps)
    ensures ChangedAt(s, t, p) && NoNewFetch(s, t) && OnlyStates(s, t)
  {
  }

  lemma CommitOneElsewhere(s: List, p: RelPath, now: int)
    requires p in s.wants && CouldStart(s.wants[p])
    ensures ChangedAt(s, CommitOne(s, p, now).0, p)
    ensures NoNewFetch(s, CommitOne(s, p, now).0)
    ensures OnlyStates(s, CommitOne(s, p, now).0)
  {
    hide CommitOne, Outcome;
    CommitOneOutcome(s, p, now);
    OutcomeElsewhere(s, p, now, CommitOne(s, p, now).0, CommitOne(s, p, now).1);
  }

  ghost predicate AllCouldStart(s: List, ps: seq<RelPath>) {
    forall p :: p in ps ==> p in s.wants && CouldStart(s.wants[p])
  }

  lemma RestCouldStart(s: List, t: List, ps: seq<RelPath>)
    requires ps != [] && Distinct(ps) && AllCouldStart(s, ps) && ChangedAt(s, t, ps[0])
    ensures Distinct(ps[1..]) && AllCouldStart(t, ps[1..])
  {
    forall p | p in ps[1..] ensures p in t.wants && CouldStart(t.wants[p]) {
      assert p in ps && p != ps[0];
    }
  }

  lemma {:induction false} CommitAllInv(s: List, ps: seq<RelPath>, now: int, rules: Rules, out: map<RelPath, Version>)
    requires Accounted(s, out) && WithinSlots(s, rules) && Distinct(ps) && AllCouldStart(s, ps)
    ensures var (t, steps) := CommitAll(s, ps, now);
            && OnlyFree(out, steps) && Accounted(t, AfterAll(out, steps)) && WithinSlots(t, rules)
            && OnlyStates(s, t)
    decreases |ps|
  {
    hide Accounted, WithinSlots, CommitOne, CouldStart, ChangedAt, NoNewFetch;
    if ps != [] {
      assert ps[0] in ps;
      var (t, steps) := CommitOne(s, ps[0], now);
      CommitOneAccounted(s, ps[0], now, out);
      CommitOneElsewhere(s, ps[0], now);
      FewerFetches(s, t, rules);
      RestCouldStart(s, t, ps);
      CommitAllInv(t, ps[1..], now, rules, AfterAll(out, steps));
      FreeAppend(out, steps, CommitAll(t, ps[1..], now).1);
    }
  }

  /** Dispatching starts commits and adoptions only at paths the host has no commit for, keeps
      its account of the host's commits, and keeps within the slots. */
  lemma DispatchInv(s: List, now: int, rules: Rules, peers: Peers, out: map<RelPath, Version>)
    requires Inv(s, out, rules)
    ensures var (t, steps) := Dispatch(s, now, rules, peers);
            Inv(t, AfterAll(out, steps), rules) && OnlyFree(out, steps) && OnlyStates(s, t)
  {
    hide Accounted, WithinSlots, FetchPass, CommitOrder, Quiet, ReleaseWaiting, CouldStart, FromAllowed;
    var a := ReleaseWaiting(s);
    WaitingQuiet(s);
    QuietInv(s, a, out, rules);
    var (b, fetches) := FetchPass(a, now, rules, peers);
    FetchPassInv(a, now, rules, peers, out);
    FetchStepsOnly(a, fetches, rules, peers);
    FetchesFree(out, fetches);
    CommitOrderFacts(b);
    OrderCouldStart(b);
    CommitAllInv(b, CommitOrder(b), now, rules, out);
    FreeAppend(out, fetches, CommitAll(b, CommitOrder(b), now).1);
  }

  lemma FetchStepsOnly(s: List, steps: seq<WantStep>, rules: Rules, peers: Peers)
    requires AllAllowed(s, steps, rules, peers)
    ensures forall i :: 0 <= i < |steps| ==> steps[i].Fetch?
  {
    forall i | 0 <= i < |steps| ensures steps[i].Fetch? {
      assert FromAllowed(s, steps[i], rules, peers);
    }
  }

  lemma OrderCouldStart(s: List)
    ensures AllCouldStart(s, CommitOrder(s))
  {
    hide CommitOrder;
    CommitOrderFacts(s);
  }

  // Runs.

  /** One step keeps the account of the host's commits and the slots, and starts nothing at a
      path the host has a commit for. */
  lemma StepInv(s: List, op: Op, out: map<RelPath, Version>, rules: Rules)
    requires Inv(s, out, rules) && Enabled(s, out, op)
    ensures Inv(Step(s, op, rules), NextOut(s, out, op, rules), rules)
    ensures OnlyFree(out, StepsOf(s, op, rules))
  {
    hide WithinSlots, Quiet;
    if StartsNothing(op) {
      StepQuiet(s, op, rules);
      QuietInv(s, Step(s, op, rules), out, rules);
    } else if op.Dispatches? {
      DispatchInv(s, op.now, rules, op.peers, out);
    } else if op.Taking? {
      TakeInv(s, op.path, out, rules);
    } else if op.Restarting? {
      RestartInv(s, out, rules);
    } else if op.CommitDone? {
      DoneInv(s, op.path, op.version, out, rules);
    } else {
      FailedInv(s, op, out, rules);
    }
  }

  /** A run its callers and its host keep to. */
  predicate CanRun(s: List, out: map<RelPath, Version>, ops: seq<Op>, rules: Rules)
    decreases |ops|
  {
    ops == [] ||
    (Enabled(s, out, ops[0])
     && CanRun(Step(s, ops[0], rules), NextOut(s, out, ops[0], rules), ops[1..], rules))
  }

  /** Every dispatch of the run starts commits and adoptions only at paths the host has no
      unreported commit for. */
  ghost predicate OneCommitPerPath(s: List, out: map<RelPath, Version>, ops: seq<Op>, rules: Rules)
    decreases |ops|
  {
    ops == [] ||
    (OnlyFree(out, StepsOf(s, ops[0], rules))
     && OneCommitPerPath(Step(s, ops[0], rules), NextOut(s, out, ops[0], rules), ops[1..], rules))
  }

  /** Every state of the run keeps its fetches within the rules, each from a source that is
      neither excluded nor refused. */
  ghost predicate FetchesWithinRules(s: List, ops: seq<Op>, rules: Rules)
    decreases |ops|
  {
    WithinSlots(s, rules) && Sound(s)
    && (ops == [] || FetchesWithinRules(Step(s, ops[0], rules), ops[1..], rules))
  }

  lemma {:induction false} RunSafe(s: List, out: map<RelPath, Version>, ops: seq<Op>, rules: Rules)
    requires Inv(s, out, rules) && CanRun(s, out, ops, rules)
    ensures OneCommitPerPath(s, out, ops, rules) && FetchesWithinRules(s, ops, rules)
    decreases |ops|
  {
    hide WithinSlots, Step, Enabled, NextOut, StepsOf;
    if ops != [] {
      StepInv(s, ops[0], out, rules);
      RunSafe(Step(s, ops[0], rules), NextOut(s, out, ops[0], rules), ops[1..], rules);
    }
  }

  const NOTHING := List(map[], map[])

  /** From an empty want-list, over every run. */
  lemma EveryRunSafe(ops: seq<Op>, rules: Rules)
    requires CanRun(NOTHING, map[], ops, rules)
    ensures OneCommitPerPath(NOTHING, map[], ops, rules) && FetchesWithinRules(NOTHING, ops, rules)
  {
    assert FetchingAll(NOTHING) == {};
    forall n ensures FetchingFrom(NOTHING, n) == {} {
    }
    assert HostHas(NOTHING) == map[];
    RunSafe(NOTHING, map[], ops, rules);
  }
}
