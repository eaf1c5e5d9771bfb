/** What each report, rule and passing of time makes of a want, field by field. */
module WantMeanings {
  import opened Prelude
  import opened Versions
  import opened Paths
  import opened Entries
  import opened Classify
  import opened Wants

  const SECOND := 1_000_000_000

  /** What a want is for never changes while it stays. */
  ghost predicate SameTask(w: Want, v: Want) {
    && v.entry == w.entry && v.received == w.received && v.mode == w.mode && v.conflict == w.conflict
    && v.batch == w.batch && v.source == w.source && v.seqHigh == w.seqHigh && v.reset == w.reset
  }

  /** Whom it may ask, and what its sources did so far, are as they were. */
  ghost predicate SameSources(w: Want, v: Want) {
    && v.sources == w.sources && v.refused == w.refused && v.excluded == w.excluded && v.strikes == w.strikes
    && v.mismatches == w.mismatches && v.answered == w.answered
  }

  ghost predicate SameMarks(w: Want, v: Want) {
    v.restoring == w.restoring && v.trashed == w.trashed
  }

  ghost function StrikesOf(w: Want, n: NodeId): nat {
    if n in w.strikes then w.strikes[n] else 0
  }

  /** Only content that was served is in hand, and then the want is wanted for its commit. */
  lemma ServedMeans(w: Want, now: int, report: FetchReport)
    requires w.state.Fetching?
    ensures var v := FetchedWant(w, now, report);
            && SameTask(w, v) && SameMarks(w, v) && v.sources == w.sources
            && (!w.fetched && v.fetched <==> !w.fetched && report == Served)
            && (report == Served ==> v.fetched && v.state == Wanted && SameSources(w, v)
                                     && v.localRetries == w.localRetries)
  {
    hide ExclusionBackoff, FailedWant;
    match report
    case FetchFailed(error) => { FailedMeans(w, now, error, None); }
    case _ => {}
  }

  /** A source that lacks the content is not to be asked for an hour; it has answered. */
  lemma NotAvailableMeans(w: Want, now: int)
    requires w.state.Fetching?
    ensures var v, n := FetchedWant(w, now, NotAvailable), w.state.from;
            && v.state == Wanted && v.fetched == w.fetched && v.localRetries == w.localRetries
            && v.refused == w.refused[n := now + 3_600 * SECOND] && v.answered == w.answered + {n}
            && v.excluded == w.excluded && v.strikes == w.strikes && v.mismatches == w.mismatches
  {
  }

  /** Content that does not have the hash is not in hand; its source is struck once more and
      excluded for a minute at least and an hour at most, twice as long each time; and the want
      gives up exactly if two sources or more are then excluded. */
  lemma MismatchMeans(w: Want, now: int)
    requires w.state.Fetching?
    ensures var v, n := FetchedWant(w, now, HashMismatch), w.state.from;
            && v.fetched == w.fetched && v.localRetries == w.localRetries
            && v.refused == w.refused && v.answered == w.answered
            && StrikesOf(v, n) == StrikesOf(w, n) + 1 && v.strikes - {n} == w.strikes - {n}
            && n in v.excluded && v.excluded - {n} == w.excluded - {n}
            && now + 60 * SECOND <= v.excluded[n] <= now + 3_600 * SECOND
            && (StrikesOf(w, n) == 0 ==> v.excluded[n] == now + 60 * SECOND)
            && (v.excluded[n] < now + 3_600 * SECOND ==>
                  v.excluded[n] == now + 60 * SECOND * Pow2(StrikesOf(w, n)))
            && v.mismatches == |v.excluded|
            && v.state == if |v.excluded| >= 2 then GaveUp else Wanted
  {
    hide ExclusionBackoff, Pow2, FetchedWant;
    var n, strikes := w.state.from, StrikesOf(w, w.state.from) + 1;
    MismatchIs(w, now);
    BackoffBounds(strikes);
    SetElsewhere(w.strikes, n, strikes);
    SetElsewhere(w.excluded, n, now + ExclusionBackoff(strikes));
  }

  lemma MismatchIs(w: Want, now: int)
    requires w.state.Fetching?
    ensures var n, strikes := w.state.from, StrikesOf(w, w.state.from) + 1;
            var excluded := w.excluded[n := now + ExclusionBackoff(strikes)];
            FetchedWant(w, now, HashMismatch)
            == w.(strikes := w.strikes[n := strikes], excluded := excluded, mismatches := |excluded|,
                  state := if |excluded| >= 2 then GaveUp else Wanted)
  {
    hide ExclusionBackoff;
  }

  lemma SetElsewhere<K, V>(m: map<K, V>, k: K, v: V)
    ensures m[k := v] - {k} == m - {k} && m[k := v][k] == v
  {
  }

  /** An exclusion and a retry's backoff last between a minute and an hour. */
  lemma BackoffBounds(strikes: nat)
    requires strikes >= 1
    ensures 60 * SECOND <= ExclusionBackoff(strikes) <= 3_600 * SECOND
    ensures strikes == 1 ==> ExclusionBackoff(strikes) == 60 * SECOND
    ensures ExclusionBackoff(strikes) < 3_600 * SECOND ==> ExclusionBackoff(strikes) == 60 * SECOND * Pow2(strikes - 1)
  {
    PowersGrow(16);
    assert Pow2(0) == 1;
  }

  /** A failure on this machine blames no source. Where the disk failed, content that may be gone
      is forgotten; the want is retried later, waits for space, for the colliding path to change, or
      for the directory to be looked at. */
  lemma FailedMeans(w: Want, now: int, error: LocalError, withSeq: Option<nat>)
    ensures var v := FailedWant(w, now, error, withSeq);
            && SameTask(w, v) && SameSources(w, v) && SameMarks(w, v)
            && v.fetched == (w.fetched && !error.Io? && !error.FullDisk?)
            && v.localRetries == w.localRetries + (if error.Io? then 1 else 0)
            && (error == Io ==> v.state.LocalRetry? && now + 60 * SECOND <= v.state.until <= now + 3_600 * SECOND)
            && (error == Io && v.state.until < now + 3_600 * SECOND ==>
                  v.state.until == now + 60 * SECOND * Pow2(w.localRetries))
            && (error == FullDisk ==> v.state == DiskFull)
            && (error.CaseCollision? ==>
                  v.state == if withSeq.Some? then Collides(error.at, withSeq.value) else Wanted)
            && (error == IgnoredFiles ==> v.state == HoldsIgnored)
  {
    BackoffBounds(w.localRetries + 1);
  }

  /** Another item comes for the path: one that strictly dominates what the want there is for, and
      that finds no commit under way and none ordered by a revert. */
  ghost predicate Supersedes(s: List, item: ApplyItem) {
    var p := item.entry.path;
    p in s.wants ==>
      var w := s.wants[p];
      && Leq(w.entry.version, item.entry.version) && !Leq(item.entry.version, w.entry.version)
      && !w.state.Committing? && w.reset.None? && w.mode != Trash
  }

  ghost predicate OnlyAt(s: List, t: List, p: RelPath) {
    t.wants - {p} == s.wants - {p} && t.released == s.released
  }

  ghost function MarkedBy(marked: Option<set<NodeId>>): set<NodeId> {
    if marked.Some? then marked.value else {}
  }

  /** An item for the version the want is for adds a source; one that supersedes it makes a fresh
      want, which knows its source and its author and takes over the restoring mark; any other
      changes nothing. */
  lemma InsertMeans(s: List, item: ApplyItem, received: Entry, batch: nat, source: NodeId, seqHigh: nat,
                    marked: Option<set<NodeId>>)
    ensures var t, p := Insert(s, item, received, batch, source, seqHigh, marked), item.entry.path;
            && OnlyAt(s, t, p)
            && (if p in s.wants && s.wants[p].entry.version == item.entry.version then
                  p in t.wants && GainsSource(s.wants[p], t.wants[p], source, marked)
                else if Supersedes(s, item) then
                  p in t.wants && IsFresh(t.wants[p], item, received, batch, source, seqHigh, marked)
                  && t.wants[p].restoring == (marked.Some? || (p in s.wants && s.wants[p].restoring))
                  && t.wants[p].trashed == (if p in s.wants && s.wants[p].restoring then s.wants[p].trashed else None)
                else t == s)
  {
    if Place(item) in s.wants {
      CompareLaws(item.entry.version, s.wants[Place(item)].entry.version);
    }
  }

  ghost function Place(item: ApplyItem): RelPath { item.entry.path }

  ghost predicate GainsSource(w: Want, v: Want, source: NodeId, marked: Option<set<NodeId>>) {
    && SameTask(w, v) && v.sources == w.sources + {source} + MarkedBy(marked)
    && v.refused == w.refused && v.excluded == w.excluded && v.strikes == w.strikes
    && v.mismatches == w.mismatches && v.answered == w.answered && v.localRetries == w.localRetries
    && v.fetched == w.fetched && v.state == w.state && v.trashed == w.trashed
    && v.restoring == (w.restoring || marked.Some?)
  }

  ghost predicate IsFresh(v: Want, item: ApplyItem, received: Entry, batch: nat, source: NodeId, seqHigh: nat,
                          marked: Option<set<NodeId>>) {
    && v.entry == item.entry && v.received == received && v.mode == item.mode && v.conflict == item.conflict
    && v.batch == batch && v.source == source && v.seqHigh == seqHigh && v.reset == None
    && v.sources == {source, item.entry.modifiedBy} + MarkedBy(marked)
    && v.refused == map[] && v.excluded == map[] && v.strikes == map[] && v.mismatches == 0 && v.answered == {}
    && v.localRetries == 0 && !v.fetched && v.state == Wanted
  }

  /** A rule takes a want: it goes, and a commit of its in flight is one the host still owes a
      report for. */
  lemma TakeMeans(s: List, p: RelPath)
    ensures var t := Take(s, p);
            && t.wants == s.wants - {p} && t.released - {p} == s.released - {p}
            && (p in s.wants && s.wants[p].state.Committing? ==>
                  p in t.released && t.released[p] == s.wants[p].entry.version)
            && (!(p in s.wants && s.wants[p].state.Committing?) ==> t.released == s.released)
  {
  }

  /** The marks a want has: an observation at its path ends both, and the file that was trashed is
      remembered once, by a restoring want. */
  lemma MarksMean(s: List, p: RelPath, trashed: Option<Observed>)
    ensures var c := ClearRestoring(s, p);
            && OnlyAt(s, c, p) && (p in c.wants <==> p in s.wants)
            && (p in s.wants ==>
                  && SameTask(s.wants[p], c.wants[p]) && SameSources(s.wants[p], c.wants[p])
                  && c.wants[p].state == s.wants[p].state && c.wants[p].fetched == s.wants[p].fetched
                  && !c.wants[p].restoring
                  && c.wants[p].trashed == if s.wants[p].restoring then None else s.wants[p].trashed)
    ensures var r := RememberTrashed(s, p, trashed);
            && OnlyAt(s, r, p) && (p in r.wants <==> p in s.wants)
            && (p in s.wants ==>
                  && SameTask(s.wants[p], r.wants[p]) && SameSources(s.wants[p], r.wants[p])
                  && r.wants[p].state == s.wants[p].state && r.wants[p].fetched == s.wants[p].fetched
                  && r.wants[p].restoring == s.wants[p].restoring
                  && r.wants[p].trashed
                     == if s.wants[p].restoring && s.wants[p].trashed == None then trashed else s.wants[p].trashed)
  {
  }

  /** A want whose exclusions are those of `excluded` now: it has as many mismatches, and one that
      had given up is wanted again with fewer than two. */
  ghost predicate LiftedTo(w: Want, v: Want, excluded: map<NodeId, int>) {
    && SameTask(w, v) && SameMarks(w, v) && v.strikes == w.strikes && v.answered == w.answered
    && v.localRetries == w.localRetries && v.fetched == w.fetched
    && v.excluded == excluded
    && (v.mismatches == |excluded| || (v.excluded == w.excluded && v.mismatches == w.mismatches))
    && v.state == if w.state == GaveUp && |excluded| < 2 then Wanted else w.state
  }

  /** The content a want is after is announced: the teller is a source, and refused no more; every
      exclusion is lifted. Nothing else is told of it. */
  lemma AnnouncedMeans(s: List, p: RelPath, hash: ContentHash, teller: NodeId)
    ensures var t := NoteAnnounced(s, p, hash, teller);
            if hash != 0 && p in s.wants && s.wants[p].entry.hash == hash then
              && OnlyAt(s, t, p) && p in t.wants
              && LiftedTo(s.wants[p], t.wants[p], map[])
              && t.wants[p].sources == s.wants[p].sources + {teller}
              && t.wants[p].refused == s.wants[p].refused - {teller}
            else t == s
  {
    hide Announced, LiftedTo;
    if p in s.wants { AnnouncedLifts(s.wants[p], teller); }
  }

  lemma AnnouncedLifts(w: Want, teller: NodeId)
    ensures var v := Announced(w, teller);
            && LiftedTo(w, v, map[]) && v.sources == w.sources + {teller} && v.refused == w.refused - {teller}
  {
    hide Lift, LiftedTo;
    var told := w.(sources := w.sources + {teller}, refused := w.refused - {teller});
    LiftsAll(told);
    AlsoLifted(w, told, Lift(told, None));
  }

  lemma LiftsAll(w: Want)
    ensures var v := Lift(w, None);
            LiftedTo(w, v, map[]) && v.sources == w.sources && v.refused == w.refused
  {
    hide SameTask, SameMarks;
    SameBoth(w, Lift(w, None));
  }

  lemma SameBoth(w: Want, v: Want)
    requires v == w.(excluded := v.excluded, mismatches := v.mismatches, state := v.state)
    ensures SameTask(w, v) && SameMarks(w, v)
  {
  }

  lemma AlsoLifted(w: Want, told: Want, v: Want)
    requires told == w.(sources := told.sources, refused := told.refused) && LiftedTo(told, v, map[])
    ensures LiftedTo(w, v, map[])
  {
  }

  /** A member that reconnects is excluded by no want any more. */
  lemma ReconnectedMeans(s: List, peer: NodeId, p: RelPath)
    requires p in s.wants
    ensures var t := Reconnected(s, peer);
            && t.wants.Keys == s.wants.Keys && t.released == s.released
            && (peer in s.wants[p].excluded ==>
                  LiftedTo(s.wants[p], t.wants[p], s.wants[p].excluded - {peer})
                  && t.wants[p].sources == s.wants[p].sources && t.wants[p].refused == s.wants[p].refused)
            && (peer !in s.wants[p].excluded ==> t.wants[p] == s.wants[p])
  {
  }

  /** After a restart nothing is in hand, nothing is in flight, and no report is owed. */
  lemma RestartMeans(s: List, p: RelPath)
    requires p in s.wants
    ensures var t := Restarted(s);
            && t.wants.Keys == s.wants.Keys && t.released == map[]
            && var w, v := s.wants[p], t.wants[p];
               && SameTask(w, v) && SameSources(w, v) && SameMarks(w, v) && v.localRetries == w.localRetries
               && !v.fetched
               && v.state == if w.state.Fetching? || w.state.Committing? || w.state == Blocked then Wanted else w.state
  {
  }

  /** Those that are over by `now` are gone, and the others stay as they are. */
  ghost predicate Outlasts(left: map<NodeId, int>, times: map<NodeId, int>, now: int) {
    && left.Keys <= times.Keys
    && forall n :: n in times ==> (n in left <==> times[n] > now) && (n in left ==> left[n] == times[n])
  }

  /** Time passes: exclusions and refusals end when they are over, and so do a stalled fetch and a
      retry's backoff; a commit past its deadline is overdue, and keeps its path. */
  lemma TimeMeans(s: List, now: int, p: RelPath)
    requires p in s.wants
    ensures var t := Expire(s, now);
            && t.wants.Keys == s.wants.Keys && t.released == s.released
            && var w, v := s.wants[p], t.wants[p];
               && SameTask(w, v) && SameMarks(w, v) && v.sources == w.sources && v.strikes == w.strikes
               && v.answered == w.answered && v.localRetries == w.localRetries && v.fetched == w.fetched
               && Outlasts(v.excluded, w.excluded, now) && Outlasts(v.refused, w.refused, now)
               && v.mismatches == (if v.excluded == w.excluded then w.mismatches else |v.excluded|)
               && v.state == StateAt(w, now, v.excluded)
  {
    hide ExpiredWant, StateAt, Outlasts;
    ExpiredMeans(s.wants[p], now);
  }

  lemma ExpiredMeans(w: Want, now: int)
    ensures var v := ExpiredWant(w, now);
            && SameTask(w, v) && SameMarks(w, v) && v.sources == w.sources && v.strikes == w.strikes
            && v.answered == w.answered && v.localRetries == w.localRetries && v.fetched == w.fetched
            && Outlasts(v.excluded, w.excluded, now) && Outlasts(v.refused, w.refused, now)
            && v.mismatches == (if v.excluded == w.excluded then w.mismatches else |v.excluded|)
            && v.state == StateAt(w, now, v.excluded)
  {
    hide LiftDue, Timed, Due, Outlasts;
    var a := LiftDue(w, now);
    var b := a.(refused := w.refused - Due(w.refused, now));
    LiftDueMeans(w, now);
    DueOutlasts(w.refused, now);
    TimedMeans(b, now);
  }

  lemma DueOutlasts(times: map<NodeId, int>, now: int)
    ensures Outlasts(times - Due(times, now), times, now)
    ensures Due(times, now) == {} <==> times - Due(times, now) == times
  {
    if n :| n in Due(times, now) { assert n in times && n !in times - Due(times, now); }
  }

  lemma LiftDueMeans(w: Want, now: int)
    ensures var v := LiftDue(w, now);
            && SameTask(w, v) && SameMarks(w, v) && v.sources == w.sources && v.strikes == w.strikes
            && v.answered == w.answered && v.localRetries == w.localRetries && v.fetched == w.fetched
            && v.refused == w.refused && Outlasts(v.excluded, w.excluded, now)
            && v.mismatches == (if v.excluded == w.excluded then w.mismatches else |v.excluded|)
            && v.state == if w.state == GaveUp && v.excluded != w.excluded && |v.excluded| < 2 then Wanted else w.state
  {
    DueOutlasts(w.excluded, now);
  }

  lemma TimedMeans(w: Want, now: int)
    ensures var v := Timed(w, now);
            && v == w.(state := v.state)
            && (w.state != GaveUp ==> v.state == StateAt(w, now, w.excluded))
            && (w.state == GaveUp ==> v.state == GaveUp)
  {
  }

  ghost function StateAt(w: Want, now: int, excluded: map<NodeId, int>): WantState {
    match w.state
    case GaveUp => if excluded != w.excluded && |excluded| < 2 then Wanted else GaveUp
    case Fetching(from, deadline) => if now >= deadline then Wanted else w.state
    case LocalRetry(until) => if now >= until then Wanted else w.state
    case Committing(deadline, overdue) => Committing(deadline, overdue || now >= deadline)
    case other => other
  }

  /** Every want is as it was but for its state, which is what `state` says. */
  ghost predicate StatesAre(s: List, t: List, state: RelPath -> WantState) {
    && t.wants.Keys == s.wants.Keys && t.released == s.released
    && forall p :: p in s.wants ==> t.wants[p] == s.wants[p].(state := state(p))
  }

  /** A pause defers what could start a fetch or a commit, and resuming makes that wanted again;
      neither touches what the host has in hand or what waits for something else. */
  lemma PauseMeans(s: List)
    ensures StatesAre(s, PauseInbound(s), p =>
              if p in s.wants && (s.wants[p].state == Wanted || s.wants[p].state == Blocked
                                  || s.wants[p].state.Deferred? || s.wants[p].state == NoSource) then DiskFull
              else if p in s.wants then s.wants[p].state else Wanted)
    ensures StatesAre(s, ResumeInbound(s), p =>
              if p in s.wants && s.wants[p].state != DiskFull then s.wants[p].state else Wanted)
  {
  }

  /** A collision is over once the record it names is another, or gone. */
  lemma CollisionsMean(s: List, live: map<RelPath, nat>)
    ensures StatesAre(s, ReleaseCollisions(s, live), p =>
              if p in s.wants && !(s.wants[p].state.Collides?
                                   && (s.wants[p].state.with in live ==>
                                         live[s.wants[p].state.with] != s.wants[p].state.withSeq))
              then s.wants[p].state else Wanted)
  {
  }

  /** A fetch is over once its peer is gone. */
  lemma PeerGoneMeans(s: List, peer: NodeId)
    ensures StatesAre(s, PeerGone(s, peer), p =>
              if p in s.wants && !(s.wants[p].state.Fetching? && s.wants[p].state.from == peer)
              then s.wants[p].state else Wanted)
  {
  }

  /** A wait is over once what it waits for is not there, or does not hold it. */
  lemma WaitsMean(s: List)
    ensures StatesAre(s, ReleaseWaiting(s), p =>
              if p in s.wants && !(s.wants[p].state.WaitingFor?
                                   && (s.wants[p].state.on in s.wants ==>
                                         !Holds(s.wants[p], s.wants[s.wants[p].state.on])))
              then s.wants[p].state else Wanted)
  {
    hide Gates, Holds;
    forall p | p in s.wants && s.wants[p].state.WaitingFor? && s.wants[p].state.on in s.wants
      ensures Gates(s.wants[p], s.wants[s.wants[p].state.on]) == Holds(s.wants[p], s.wants[s.wants[p].state.on])
    {
      GatesMeans(s.wants[p], s.wants[s.wants[p].state.on]);
    }
  }

  /** One want holds another: a directory is deleted only after what is deleted beneath it, and
      anything else is made only after the directories above it are, and after what a revert moves
      to the trash above it went. */
  ghost predicate Holds(w: Want, other: Want) {
    var deletes, otherDeletes := w.entry.deleted || w.mode == Trash, other.entry.deleted || other.mode == Trash;
    || (deletes && w.entry.kind == Dir && otherDeletes && IsAncestor(w.entry.path, other.entry.path))
    || (!deletes && !otherDeletes && other.entry.kind == Dir && IsAncestor(other.entry.path, w.entry.path))
    || (!deletes && other.mode == Trash && IsAncestor(other.entry.path, w.entry.path))
  }

  lemma GatesMeans(w: Want, other: Want)
    ensures Gates(w, other) <==> Holds(w, other)
  {
  }

  /** A report or an observation for one path changes the state of one want, if it is the one meant. */
  lemma OneStateMeans(s: List, now: int, p: RelPath, v: Version)
    ensures StatesAre(s, DirObserved(s, p), q =>
              if q in s.wants && !(q == p && s.wants[q].state == HoldsIgnored) then s.wants[q].state else Wanted)
    ensures StatesAre(s, Progress(s, now, p, v), q =>
              if q == p && p in s.wants && s.wants[p].state.Fetching? && s.wants[p].entry.version == v
              then Fetching(s.wants[p].state.from, now + 60 * SECOND)
              else if q in s.wants then s.wants[q].state else Wanted)
    ensures var t := ReleasedReported(s, p, v);
            && t.wants == s.wants
            && t.released == if p in s.released && s.released[p] == v then s.released - {p} else s.released
  {
  }

  /** A report reaches the want that waits for it: fetching, and for that version. */
  lemma ReportReaches(s: List, now: int, p: RelPath, v: Version, report: FetchReport)
    ensures var t := FetchedAt(s, now, p, v, report);
            if p in s.wants && s.wants[p].state.Fetching? && s.wants[p].entry.version == v
            then OnlyAt(s, t, p) && p in t.wants && t.wants[p] == FetchedWant(s.wants[p], now, report)
            else t == s
  {
  }

  lemma FailureReaches(s: List, now: int, p: RelPath, v: Version, error: LocalError, withSeq: Option<nat>)
    ensures var t := Failed(s, now, p, v, error, withSeq);
            if p in s.wants && s.wants[p].entry.version == v
            then OnlyAt(s, t, p) && p in t.wants && t.wants[p] == FailedWant(s.wants[p], now, error, withSeq)
            else t == s
    ensures FetchFailedAt(s, now, p, v, error, withSeq)
         == if p in s.wants && s.wants[p].state.Fetching? then Failed(s, now, p, v, error, withSeq) else s
  {
  }

  /** A failure of the disk that a fetch reports comes to the same. */
  lemma FetchFailureMeans(w: Want, now: int, error: LocalError)
    requires w.state.Fetching?
    ensures FetchedWant(w, now, FetchFailed(error)) == FailedWant(w, now, error, None)
  {
  }
}
