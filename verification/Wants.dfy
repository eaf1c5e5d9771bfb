/** The want-list as a value: one want per path, the commits a rule released while the host
    still runs them, and every step that changes them except dispatching. */
module Wants {
  import opened Prelude
  import opened Versions
  import opened Paths
  import opened Entries
  import opened Classify

  const NANOS_PER_SECOND := 1_000_000_000
  const FETCH_STALL_NANOS := 60 * NANOS_PER_SECOND
  const COMMIT_DEADLINE_NANOS := 30 * NANOS_PER_SECOND
  const EXCLUSION_NANOS := 60 * NANOS_PER_SECOND
  const EXCLUSION_CAP_NANOS := 60 * 60 * NANOS_PER_SECOND
  const REFUSAL_NANOS := 60 * 60 * NANOS_PER_SECOND

  datatype Tier = Lan | Direct | Relay

  datatype WantState =
    | Wanted
    | Blocked
    | Deferred(need: Tier)
    | NoSource
    | Fetching(from: NodeId, deadline: int)
    | Committing(deadline: int, overdue: bool)
    | GaveUp
    | LocalRetry(until: int)
    | DiskFull
    | Collides(with: RelPath, withSeq: nat)
    | WaitingFor(on: RelPath)
    | HoldsIgnored
  {
    predicate InFlight() {
      Wanted? || Blocked? || Fetching? || Committing?
    }
  }

  datatype Want = Want(
    entry: Entry, received: Entry, mode: ApplyMode, conflict: Option<Displaced>,
    batch: nat, source: NodeId, seqHigh: nat,
    sources: set<NodeId>, refused: map<NodeId, int>, excluded: map<NodeId, int>,
    strikes: map<NodeId, nat>, mismatches: nat, localRetries: nat,
    fetched: bool, restoring: bool, trashed: Option<Observed>, answered: set<NodeId>,
    reset: Option<Observed>, state: WantState)
  {
    function Path(): RelPath { entry.path }

    function Version(): Version { entry.version }

    predicate NeedsFetch() { mode == Fetch && !fetched }

    predicate IsDelete() { entry.deleted || mode == Trash }

    predicate IsDirCreate() { !IsDelete() && entry.kind == Dir }

    predicate IsTrash() { mode == Trash }

    /** A commit is in flight, or will be from the moment a revert ordered it. */
    predicate Busy() { state.Committing? || reset.Some? || IsTrash() }
  }

  /** The want-list, without its change log. */
  datatype List = List(wants: map<RelPath, Want>, released: map<RelPath, Version>)

  function NewWant(item: ApplyItem, received: Entry, batch: nat, source: NodeId, seqHigh: nat): Want {
    Want(item.entry, received, item.mode, item.conflict, batch, source, seqHigh,
         {source, item.entry.modifiedBy}, map[], map[], map[], 0, 0, false, false, None, {}, None, Wanted)
  }

  /** The ordering gate: whether `want` is held until `other` has committed. */
  predicate Gates(want: Want, other: Want) {
    if want.IsDelete() then
      want.entry.kind == Dir && other.IsDelete() && IsAncestor(want.Path(), other.Path())
    else
      IsAncestor(other.Path(), want.Path()) && (other.IsDirCreate() || other.IsTrash())
  }

  function Pow2(n: nat): (r: nat)
    ensures r >= 1
  {
    if n == 0 then 1 else 2 * Pow2(n - 1)
  }

  /** How long a source stays excluded for its `strikes`th failure. */
  function ExclusionBackoff(strikes: nat): int {
    var doublings := if strikes == 0 then 0 else if strikes - 1 > 16 then 16 else strikes - 1;
    var nanos := EXCLUSION_NANOS * Pow2(doublings);
    if nanos < EXCLUSION_CAP_NANOS then nanos else EXCLUSION_CAP_NANOS
  }

  /** The backoff starts at a minute, doubles on each repeat, and stops at an hour. */
  lemma BackoffDoubles(strikes: nat)
    requires strikes >= 1
    ensures ExclusionBackoff(1) == EXCLUSION_NANOS
    ensures ExclusionBackoff(strikes + 1)
         == if 2 * ExclusionBackoff(strikes) < EXCLUSION_CAP_NANOS then 2 * ExclusionBackoff(strikes)
            else EXCLUSION_CAP_NANOS
    ensures strikes >= 7 ==> ExclusionBackoff(strikes) == EXCLUSION_CAP_NANOS
  {
    assert Pow2(0) == 1;
    PowersGrow(if strikes - 1 > 16 then 16 else strikes - 1);
  }

  lemma {:induction false} PowersGrow(n: nat)
    ensures Pow2(n + 1) == 2 * Pow2(n)
    ensures n >= 6 ==> Pow2(n) >= 64
  {
    if n > 6 {
      PowersGrow(n - 1);
    } else if n == 6 {
      assert Pow2(3) == 8 && Pow2(6) == 64;
    }
  }

  // One want.

  function SetState(s: List, p: RelPath, state: WantState): List {
    if p in s.wants then s.(wants := s.wants[p := s.wants[p].(state := state)]) else s
  }

  function SetWant(s: List, p: RelPath, w: Want): List {
    s.(wants := s.wants[p := w])
  }

  function Remove(s: List, p: RelPath): List {
    s.(wants := s.wants - {p})
  }

  /** A rule takes a want off the list; a commit in flight keeps its path. */
  function Take(s: List, p: RelPath): List {
    if p !in s.wants then s
    else
      var w := s.wants[p];
      List(s.wants - {p}, if w.state.Committing? then s.released[p := w.Version()] else s.released)
  }

  /** A host report for a commit: whether it is one a rule released. */
  predicate IsReleased(s: List, p: RelPath, v: Version) {
    p in s.released && s.released[p] == v
  }

  function ReleasedReported(s: List, p: RelPath, v: Version): List {
    if IsReleased(s, p, v) then s.(released := s.released - {p}) else s
  }

  function ClearRestoring(s: List, p: RelPath): List {
    if p in s.wants && s.wants[p].restoring
    then SetWant(s, p, s.wants[p].(restoring := false, trashed := None))
    else s
  }

  function Others(marked: Option<set<NodeId>>): set<NodeId> {
    match marked case None => {} case Some(nodes) => nodes
  }

  /** An item does not get in: the want there is not dominated by it, or its commit is under way. */
  predicate InsertRefused(s: List, item: ApplyItem) {
    var p := item.entry.path;
    p in s.wants && item.entry.version != s.wants[p].Version()
    && (Compare(item.entry.version, s.wants[p].Version()) != Dominates || s.wants[p].Busy())
  }

  /** An accepted item arrives: its want gains a source, is replaced, or stays. */
  function Insert(s: List, item: ApplyItem, received: Entry, batch: nat, source: NodeId, seqHigh: nat,
                  marked: Option<set<NodeId>>): List {
    var p := item.entry.path;
    if p in s.wants && item.entry.version == s.wants[p].Version() then
      var w := s.wants[p];
      SetWant(s, p, w.(sources := w.sources + {source} + Others(marked),
                       restoring := w.restoring || marked.Some?))
    else if InsertRefused(s, item) then s
    else
      var kept := p in s.wants && s.wants[p].restoring;
      var w := NewWant(item, received, batch, source, seqHigh);
      SetWant(s, p, w.(restoring := marked.Some? || kept,
                       trashed := if kept then s.wants[p].trashed else None,
                       sources := w.sources + Others(marked)))
  }

  /** The mismatch count after exclusions are lifted; below two, a want that had given up is
      revived. */
  function Recounted(w: Want): Want {
    var n := |w.excluded|;
    w.(mismatches := n, state := if w.state.GaveUp? && n < 2 then Wanted else w.state)
  }

  /** What lifting does: one source's exclusion, or every exclusion. */
  function Lift(w: Want, only: Option<NodeId>): Want {
    match only
    case Some(n) =>
      if n !in w.excluded && !w.state.GaveUp? then w
      else Recounted(w.(excluded := w.excluded - {n}))
    case None =>
      if w.excluded == map[] && !w.state.GaveUp? then w
      else Recounted(w.(excluded := map[]))
  }

  /** The effect of an announcement of the wanted content by `teller` on a want. */
  function Announced(w: Want, teller: NodeId): Want {
    Lift(w.(sources := w.sources + {teller}, refused := w.refused - {teller}), None)
  }

  predicate WantsContent(s: List, p: RelPath, hash: ContentHash) {
    hash != EMPTY_HASH && p in s.wants && s.wants[p].entry.hash == hash
  }

  function NoteAnnounced(s: List, p: RelPath, hash: ContentHash, teller: NodeId): List {
    if WantsContent(s, p, hash) then SetWant(s, p, Announced(s.wants[p], teller)) else s
  }

  /** A want for the same content takes over the refusals of the one before it. */
  function KeepRefusals(s: List, p: RelPath, hash: ContentHash, refused: map<NodeId, int>): List {
    if p in s.wants && s.wants[p].entry.hash == hash && refused != map[]
    then SetWant(s, p, s.wants[p].(refused := s.wants[p].refused + refused))
    else s
  }

  function ReconnectedWant(w: Want, peer: NodeId): Want {
    if peer in w.excluded then Lift(w, Some(peer)) else w
  }

  function Reconnected(s: List, peer: NodeId): List {
    s.(wants := map p | p in s.wants :: ReconnectedWant(s.wants[p], peer))
  }

  function InsertReverted(s: List, w: Want): List {
    SetWant(s, w.Path(), w)
  }

  function RememberTrashed(s: List, p: RelPath, trashed: Option<Observed>): List {
    if trashed.Some? && p in s.wants && s.wants[p].restoring && s.wants[p].trashed.None?
    then SetWant(s, p, s.wants[p].(trashed := trashed))
    else s
  }

  /** After a restart transient states are wanted, and what was fetched must be again. */
  function RestoredWant(w: Want): Want {
    w.(fetched := false,
       state := if w.state.Fetching? || w.state.Committing? || w.state.Blocked? then Wanted else w.state)
  }

  function Restarted(s: List): List {
    List(map p | p in s.wants :: RestoredWant(s.wants[p]), map[])
  }

  datatype LocalError = Io | FullDisk | CaseCollision(at: RelPath) | IgnoredFiles

  datatype FetchReport = Served | NotAvailable | HashMismatch | FetchFailed(error: LocalError)

  function FailedWant(w: Want, now: int, error: LocalError, withSeq: Option<nat>): Want {
    match error
    case Io => w.(fetched := false, localRetries := w.localRetries + 1,
                  state := LocalRetry(now + ExclusionBackoff(w.localRetries + 1)))
    case FullDisk => w.(fetched := false, state := DiskFull)
    case CaseCollision(at) =>
      w.(state := match withSeq case Some(n) => Collides(at, n) case None => Wanted)
    case IgnoredFiles => w.(state := HoldsIgnored)
  }

  /** A fetch or commit of version `v` failed on this machine. */
  function Failed(s: List, now: int, p: RelPath, v: Version, error: LocalError, withSeq: Option<nat>): List {
    if p in s.wants && s.wants[p].Version() == v
    then SetWant(s, p, FailedWant(s.wants[p], now, error, withSeq))
    else s
  }

  function Strikes(w: Want, n: NodeId): nat {
    if n in w.strikes then w.strikes[n] else 0
  }

  function FetchedWant(w: Want, now: int, report: FetchReport): Want
    requires w.state.Fetching?
  {
    var n := w.state.from;
    match report
    case Served => w.(fetched := true, state := Wanted)
    case NotAvailable =>
      w.(refused := w.refused[n := now + REFUSAL_NANOS], answered := w.answered + {n}, state := Wanted)
    case HashMismatch =>
      var strikes := Strikes(w, n) + 1;
      var excluded := w.excluded[n := now + ExclusionBackoff(strikes)];
      w.(strikes := w.strikes[n := strikes], excluded := excluded, mismatches := |excluded|,
         state := if |excluded| >= 2 then GaveUp else Wanted)
    case FetchFailed(error) => FailedWant(w, now, error, None)
  }

  predicate AwaitsFetch(s: List, p: RelPath, v: Version) {
    p in s.wants && s.wants[p].state.Fetching? && s.wants[p].Version() == v
  }

  /** The host reports on a fetch; a report no want waits for changes nothing. */
  function FetchedAt(s: List, now: int, p: RelPath, v: Version, report: FetchReport): List {
    if AwaitsFetch(s, p, v) then SetWant(s, p, FetchedWant(s.wants[p], now, report)) else s
  }

  function FetchFailedAt(s: List, now: int, p: RelPath, v: Version, error: LocalError, withSeq: Option<nat>): List {
    if AwaitsFetch(s, p, v) then Failed(s, now, p, v, error, withSeq) else s
  }

  function DirObserved(s: List, p: RelPath): List {
    if p in s.wants && s.wants[p].state.HoldsIgnored? then SetState(s, p, Wanted) else s
  }

  /** The same change of state for every want of a set. */
  function SetEach(s: List, ps: set<RelPath>, state: WantState): List {
    s.(wants := map p | p in s.wants :: if p in ps then s.wants[p].(state := state) else s.wants[p])
  }

  predicate CouldStart(w: Want) {
    w.state.Wanted? || w.state.Blocked? || w.state.Deferred? || w.state.NoSource?
  }

  function Startable(s: List): set<RelPath> {
    set p | p in s.wants && CouldStart(s.wants[p])
  }

  function PauseInbound(s: List): List {
    SetEach(s, Startable(s), DiskFull)
  }

  function WaitingForSpace(s: List): set<RelPath> {
    set p | p in s.wants && s.wants[p].state.DiskFull?
  }

  function ResumeInbound(s: List): List {
    SetEach(s, WaitingForSpace(s), Wanted)
  }

  /** Collisions whose other path was written since. `live` is the sequence number of every
      live record. */
  function Recollided(s: List, live: map<RelPath, nat>): set<RelPath> {
    set p | p in s.wants && s.wants[p].state.Collides?
            && !(s.wants[p].state.with in live && live[s.wants[p].state.with] == s.wants[p].state.withSeq)
  }

  function ReleaseCollisions(s: List, live: map<RelPath, nat>): List {
    SetEach(s, Recollided(s, live), Wanted)
  }

  function Progress(s: List, now: int, p: RelPath, v: Version): List {
    if AwaitsFetch(s, p, v)
    then SetState(s, p, Fetching(s.wants[p].state.from, now + FETCH_STALL_NANOS))
    else s
  }

  function FetchingFrom(s: List, n: NodeId): set<RelPath> {
    set p | p in s.wants && s.wants[p].state.Fetching? && s.wants[p].state.from == n
  }

  function PeerGone(s: List, peer: NodeId): List {
    SetEach(s, FetchingFrom(s, peer), Wanted)
  }

  /** Wants waiting for another that gates them no more. */
  function DoneWaiting(s: List): set<RelPath> {
    set p | p in s.wants && s.wants[p].state.WaitingFor?
            && !(s.wants[p].state.on in s.wants && Gates(s.wants[p], s.wants[s.wants[p].state.on]))
  }

  function ReleaseWaiting(s: List): List {
    SetEach(s, DoneWaiting(s), Wanted)
  }

  // Time.

  function Due(times: map<NodeId, int>, now: int): set<NodeId> {
    set n | n in times && times[n] <= now
  }

  /** Exclusions whose backoff has run out are lifted. */
  function LiftDue(w: Want, now: int): Want {
    var due := Due(w.excluded, now);
    if due == {} then w else Recounted(w.(excluded := w.excluded - due))
  }

  /** A fetch past its stall deadline and a retry past its backoff are wanted again; a commit
      past its deadline is overdue but keeps its path. */
  function Timed(w: Want, now: int): Want {
    match w.state
    case Fetching(_, deadline) => if deadline <= now then w.(state := Wanted) else w
    case LocalRetry(until) => if until <= now then w.(state := Wanted) else w
    case Committing(deadline, overdue) =>
      if !overdue && deadline <= now then w.(state := Committing(deadline, true)) else w
    case _ => w
  }

  /** What the passing of time does to a want. */
  function ExpiredWant(w: Want, now: int): Want {
    Timed(LiftDue(w, now).(refused := w.refused - Due(w.refused, now)), now)
  }

  function Expire(s: List, now: int): List {
    s.(wants := map p | p in s.wants :: ExpiredWant(s.wants[p], now))
  }
}
