/** The per-folder index as a value: one record per path, tombstones included, this
    machine's `seq` counter, and the local changes not yet announced. The class in
    Index.dfy updates the same fields in place and is proved against these functions. */
module IndexModel {
  import opened Prelude
  import opened Versions
  import opened Paths
  import opened Entries

  /** An entry with this machine's sequence number for it. */
  datatype IndexRecord = IndexRecord(entry: Entry, seqNo: nat)

  /** The record peers last saw at a path with an unannounced change, if they saw one. */
  datatype Pending = Pending(announced: Option<IndexRecord>, exempt: bool)

  datatype ChangeKind = Add | Modify | Delete

  datatype LocalChange = LocalChange(kind: ChangeKind, record: IndexRecord)

  datatype Reverted = Reverted(path: RelPath, current: Option<Entry>, restored: Option<IndexRecord>)

  datatype IndexState = IndexState(
    own: NodeId,
    host: string,
    records: map<RelPath, IndexRecord>,
    seqNo: nat,
    pending: map<RelPath, Pending>,
    announcedSeq: nat)
  {
    function Get(path: RelPath): Option<IndexRecord> {
      if path in records then Some(records[path]) else None
    }

    function Live(path: RelPath): Option<IndexRecord> {
      if path in records && !records[path].entry.deleted then Some(records[path]) else None
    }

    /** What peers last saw at the path: the kept record of a pending change, else the record. */
    function Base(path: RelPath): Option<IndexRecord> {
      if path in pending then pending[path].announced else Get(path)
    }

    /** The hash of the last version of the path peers could have seen. */
    function AnnouncedHash(path: RelPath): ContentHash {
      HashOf(Base(path))
    }
  }

  function Empty(own: NodeId, host: string): IndexState {
    IndexState(own, host, map[], 0, map[], 0)
  }

  function HashOf(r: Option<IndexRecord>): ContentHash {
    if r.Some? then r.value.entry.hash else EMPTY_HASH
  }

  predicate IsLive(r: Option<IndexRecord>) {
    r.Some? && !r.value.entry.deleted
  }

  /** How an unannounced path differs from its announced record. */
  function Between(announcedLive: bool, nowLive: bool): ChangeKind {
    if !nowLive then Delete else if announcedLive then Modify else Add
  }

  function VersionOf(r: Option<IndexRecord>): Version {
    if r.Some? then r.value.entry.version else EMPTY
  }

  /** The stamp of a change that replaces `previous`. */
  function StampFor(previous: Option<IndexRecord>, kind: Kind, mtime: int, contentChanged: bool): int {
    match previous
    case Some(r) =>
      if contentChanged && kind == File then Max(mtime, r.entry.stamp + 1) else r.entry.stamp + 1
    case None => if kind == File then mtime else 1
  }

  /** Record a local change: a new `seq`, and a pending row keeping what peers last saw. */
  function Write(s: IndexState, entry: Entry): IndexState {
    s.(seqNo := s.seqNo + 1,
       pending := s.pending[entry.path := Pending(s.Base(entry.path), false)],
       records := s.records[entry.path := IndexRecord(entry, s.seqNo + 1)])
  }

  /** The change `Write` reports for `entry`. */
  function ChangeOf(s: IndexState, entry: Entry): LocalChange {
    LocalChange(Between(IsLive(s.Base(entry.path)), !entry.deleted), IndexRecord(entry, s.seqNo + 1))
  }

  /** The entry an observation makes, `None` if the record already says so. */
  function Observe(s: IndexState, path: RelPath, seen: Observed): Option<Entry> {
    var o := seen.Normalised();
    var previous := s.Get(path);
    if IsLive(previous) && previous.value.entry.Observation() == o then None
    else
      var prevHash := s.AnnouncedHash(path);
      Some(Entry(path, o.kind, o.size, o.mtime,
                 StampFor(previous, o.kind, o.mtime, o.hash != prevHash),
                 o.exec, o.hash, prevHash,
                 Incremented(VersionOf(previous), s.own), false, s.own, s.host))
  }

  /** The tombstone of a live entry no longer there, `None` if nothing live was. */
  function ObserveAbsent(s: IndexState, path: RelPath, at: int): Option<Entry> {
    var previous := s.Live(path);
    if previous.None? then None
    else
      var e := previous.value.entry;
      Some(Entry(path, e.kind, 0, at, e.stamp + 1, false, EMPTY_HASH, s.AnnouncedHash(path),
                 Incremented(e.version, s.own), true, s.own, s.host))
  }

  /** The record of a displaced losing file at its conflict path. */
  function ConflictCopy(s: IndexState, path: RelPath, loser: Entry): Entry {
    var previous := s.Get(path);
    Entry(path, loser.kind, loser.size, loser.mtime,
          StampFor(previous, loser.kind, loser.mtime, true),
          loser.exec, loser.hash, s.AnnouncedHash(path),
          Incremented(VersionOf(previous), s.own), false, s.own, s.host)
  }

  /** A deny's bump: the local content above every version in `over`. */
  function BumpOver(s: IndexState, path: RelPath, over: seq<Version>, overStamp: Option<int>, at: int): Entry {
    var local := s.Get(path);
    var version := Incremented(MergeAll(VersionOf(local), over), s.own);
    var prevHash := s.AnnouncedHash(path);
    var stamp := 1 + match (local, overStamp)
      case (Some(r), Some(o)) => Max(r.entry.stamp, o)
      case (Some(r), None) => r.entry.stamp
      case (None, Some(o)) => o
      case (None, None) => 0;
    match local
    case Some(r) =>
      r.entry.(version := version, prevHash := prevHash, stamp := stamp,
               modifiedBy := s.own, authorHost := s.host)
    case None =>
      Entry(path, File, 0, at, stamp, false, EMPTY_HASH, prevHash, version, true, s.own, s.host)
  }

  /** May `entry` be adopted: it dominates or equals what the record holds. */
  predicate Adoptable(s: IndexState, entry: Entry) {
    entry.path in s.records ==> Leq(s.records[entry.path].entry.version, entry.version)
  }

  /** The index takes a committed remote entry over as it is, with a new `seq`. */
  function Adopt(s: IndexState, entry: Entry): IndexState {
    s.(seqNo := s.seqNo + 1,
       pending := s.pending - {entry.path},
       records := s.records[entry.path := IndexRecord(entry, s.seqNo + 1)])
  }

  /** Everything written so far is announced. */
  function MarkAnnounced(s: IndexState): IndexState {
    s.(pending := map[], announcedSeq := s.seqNo)
  }

  /** Every record is its announced one again, or none if there never was one. */
  function RevertPending(s: IndexState): IndexState {
    s.(pending := map[],
       records := map p | p in s.records && s.Base(p).Some? :: s.Base(p).value)
  }

  /** Records written since the last batch. */
  function Unannounced(s: IndexState): set<IndexRecord> {
    set p | p in s.records && s.records[p].seqNo > s.announcedSeq :: s.records[p]
  }

  /** What catch-up may send a peer that holds everything up to `after`: each path's base, if
      this machine has announced it. */
  function AnnouncedSince(s: IndexState, after: nat): set<IndexRecord> {
    set p | p in s.records && s.Base(p).Some? && after < s.Base(p).value.seqNo <= s.announcedSeq
      :: s.Base(p).value
  }

  /** What the fields agree on: keys are paths, every pending path has a record, sequence
      numbers are below the counter and held by one path only, an unannounced change is above
      the last batch, and its `prevHash` is what peers last saw. */
  ghost predicate Valid(s: IndexState) {
    && s.announcedSeq <= s.seqNo
    && s.pending.Keys <= s.records.Keys
    && (forall p :: p in s.records ==> RecordAt(s, p, s.records[p]))
    && (forall p :: p in s.pending ==> PendingAt(s, p, s.pending[p]))
    && (forall p, q, k :: Uses(s, p, k) && Uses(s, q, k) ==> p == q)
  }

  /** The record at `p`, or the one kept for it, has number `k`. */
  ghost predicate Uses(s: IndexState, p: RelPath, k: int) {
    || (p in s.records && s.records[p].seqNo == k)
    || (p in s.pending && s.pending[p].announced.Some? && s.pending[p].announced.value.seqNo == k)
  }

  ghost predicate RecordAt(s: IndexState, p: RelPath, r: IndexRecord) {
    r.entry.path == p && 0 < r.seqNo <= s.seqNo
  }

  ghost predicate PendingAt(s: IndexState, p: RelPath, row: Pending)
    requires p in s.records
  {
    && s.records[p].seqNo > s.announcedSeq
    && s.records[p].entry.prevHash == HashOf(row.announced)
    && (row.announced.Some? ==>
          RecordAt(s, p, row.announced.value) && row.announced.value.seqNo < s.records[p].seqNo)
  }

  /** A local change keeps the index well formed. */
  lemma WriteValid(s: IndexState, e: Entry)
    requires Valid(s) && e.prevHash == s.AnnouncedHash(e.path)
    ensures Valid(Write(s, e))
  {
    var t := Write(s, e);
    forall p, k | Uses(t, p, k) && !(p == e.path && k == s.seqNo + 1)
      ensures Uses(s, p, k)
    {
    }
    forall p | p in t.records ensures RecordAt(t, p, t.records[p]) {
      assert p != e.path ==> RecordAt(s, p, s.records[p]);
    }
    forall p | p in t.pending ensures PendingAt(t, p, t.pending[p]) {
      assert p in s.pending ==> PendingAt(s, p, s.pending[p]);
      assert p in s.records ==> RecordAt(s, p, s.records[p]);
    }
    UsesBelow(s);
  }

  lemma UsesBelow(s: IndexState)
    requires Valid(s)
    ensures forall p, k :: Uses(s, p, k) ==> k <= s.seqNo
  {
    forall p, k | Uses(s, p, k) ensures k <= s.seqNo {
      assert p in s.records ==> RecordAt(s, p, s.records[p]);
      assert p in s.pending ==> PendingAt(s, p, s.pending[p]);
    }
  }

  lemma AdoptValid(s: IndexState, e: Entry)
    requires Valid(s)
    ensures Valid(Adopt(s, e))
  {
    var t := Adopt(s, e);
    forall p, k | Uses(t, p, k) && !(p == e.path && k == s.seqNo + 1)
      ensures Uses(s, p, k)
    {
    }
    forall p | p in t.records ensures RecordAt(t, p, t.records[p]) {
      assert p != e.path ==> RecordAt(s, p, s.records[p]);
    }
    forall p | p in t.pending ensures PendingAt(t, p, t.pending[p]) {
      assert PendingAt(s, p, s.pending[p]);
    }
    UsesBelow(s);
  }

  lemma RevertValid(s: IndexState)
    requires Valid(s)
    ensures Valid(RevertPending(s))
  {
    var t := RevertPending(s);
    forall p, k | Uses(t, p, k) ensures Uses(s, p, k) {
    }
    forall p | p in t.records ensures RecordAt(t, p, t.records[p]) {
      assert RecordAt(s, p, s.records[p]);
      assert p in s.pending ==> PendingAt(s, p, s.pending[p]);
    }
  }

  lemma MarkValid(s: IndexState)
    requires Valid(s)
    ensures Valid(MarkAnnounced(s))
  {
    var t := MarkAnnounced(s);
    forall p, k | Uses(t, p, k) ensures Uses(s, p, k) {
    }
    forall p | p in t.records ensures RecordAt(t, p, t.records[p]) {
      assert RecordAt(s, p, s.records[p]);
    }
  }
}
