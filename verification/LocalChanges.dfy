/** Runs of local changes between two announcements, and what `revert` makes of them. */
module LocalChanges {
  import opened Prelude
  import opened Versions
  import opened Paths
  import opened Entries
  import opened IndexModel

  datatype LocalOp =
    | Seen(path: RelPath, seen: Observed)
    | Gone(path: RelPath, at: int)
    | GoneUnrecoverable(path: RelPath, at: int)
    | Copied(path: RelPath, loser: Entry)
    | Denied(path: RelPath, over: seq<Version>, overStamp: Option<int>, at: int)

  /** The entry the operation writes, if it changes anything. */
  function EntryOf(s: IndexState, op: LocalOp): Option<Entry> {
    match op
    case Seen(path, seen) => Observe(s, path, seen)
    case Gone(path, at) => ObserveAbsent(s, path, at)
    case GoneUnrecoverable(path, at) => ObserveAbsent(s, path, at)
    case Copied(path, loser) => Some(ConflictCopy(s, path, loser))
    case Denied(path, over, overStamp, at) => Some(BumpOver(s, path, over, overStamp, at))
  }

  function Apply(s: IndexState, op: LocalOp): IndexState {
    match EntryOf(s, op)
    case None => s
    case Some(e) =>
      if op.GoneUnrecoverable? then Exempt(Write(s, e), e.path) else Write(s, e)
  }

  function Exempt(s: IndexState, p: RelPath): IndexState
    requires p in s.pending
  {
    s.(pending := s.pending[p := s.pending[p].(exempt := true)])
  }

  function Run(s: IndexState, ops: seq<LocalOp>): IndexState
    decreases |ops|
  {
    if ops == [] then s
    else Run(Apply(s, ops[0]), ops[1..])
  }

  /** The coalesced kind of the pending change at `p`. */
  function PendingKind(s: IndexState, p: RelPath): ChangeKind
    requires p in s.pending && p in s.records
  {
    Between(IsLive(s.pending[p].announced), !s.records[p].entry.deleted)
  }

  /** A local operation writes only at its own path, above the record there, and steps from
      what peers last saw. */
  lemma EntryOfFacts(s: IndexState, op: LocalOp)
    requires Valid(s)
    ensures EntryOf(s, op).Some? ==>
              var e := EntryOf(s, op).value;
              && e.path == op.path && e.prevHash == s.AnnouncedHash(e.path)
              && (e.path in s.records ==>
                    e.stamp > s.records[e.path].entry.stamp
                    && Compare(e.version, s.records[e.path].entry.version) == Dominates)
  {
    if EntryOf(s, op).Some? && op.path in s.records {
      var was := s.records[op.path].entry.version;
      assert RecordAt(s, op.path, s.records[op.path]);
      IncrementDominates(was, s.own);
      if op.Denied? {
        MergeAllAbove(was, op.over);
        var m := MergeAll(was, op.over);
        IncrementDominates(m, s.own);
        LeqCounter(was, m);
        LeqCounter(m, Incremented(m, s.own));
        LeqTransitive(was, m, Incremented(m, s.own));
        assert Counter(Incremented(m, s.own), s.own) > Counter(was, s.own);
        LeqCounter(Incremented(m, s.own), was);
      }
    } else if EntryOf(s, op).Some? {
    }
  }

  lemma MergeAllAbove(base: Version, over: seq<Version>)
    ensures Leq(base, MergeAll(base, over))
  {
    forall n | n in base ensures base[n] <= Counter(MergeAll(base, over), n) {
      CounterMergeAll(base, over, n);
    }
  }

  lemma ExemptKeeps(s: IndexState, p: RelPath)
    requires Valid(s) && p in s.pending
    ensures var t := Exempt(s, p);
            && Valid(t) && t.pending.Keys == s.pending.Keys && t.announcedSeq == s.announcedSeq && t.own == s.own
            && (forall q :: t.Base(q) == s.Base(q)) && forall q :: t.Get(q) == s.Get(q)
  {
    var t := Exempt(s, p);
    forall q, k | Uses(t, q, k) ensures Uses(s, q, k) {
    }
    forall q | q in t.pending ensures PendingAt(t, q, t.pending[q]) {
      assert PendingAt(s, q, s.pending[q]);
    }
    forall q | q in t.records ensures RecordAt(t, q, t.records[q]) {
      assert RecordAt(s, q, s.records[q]);
    }
  }

  lemma ApplyKeeps(s: IndexState, op: LocalOp)
    requires Valid(s)
    ensures Valid(Apply(s, op))
    ensures forall p :: Apply(s, op).Base(p) == s.Base(p)
    ensures Apply(s, op).announcedSeq == s.announcedSeq && Apply(s, op).own == s.own
    ensures s.pending.Keys <= Apply(s, op).pending.Keys
    ensures forall p :: p !in Apply(s, op).pending ==> Apply(s, op).Get(p) == s.Get(p)
  {
    hide EntryOf, Valid, Write, Exempt, IndexState.Base, IndexState.Get;
    EntryOfFacts(s, op);
    if EntryOf(s, op).Some? {
      var e := EntryOf(s, op).value;
      WriteValid(s, e);
      WriteKeeps(s, e);
      if op.GoneUnrecoverable? {
        ExemptKeeps(Write(s, e), e.path);
      }
    }
  }

  lemma WriteKeeps(s: IndexState, e: Entry)
    ensures var t := Write(s, e);
            && e.path in t.pending && s.pending.Keys <= t.pending.Keys
            && t.announcedSeq == s.announcedSeq && t.own == s.own
            && (forall p :: t.Base(p) == s.Base(p)) && (forall p :: p !in t.pending ==> t.Get(p) == s.Get(p))
  {
  }

  /** Whatever local changes happen, each path keeps its base: so nothing catch-up may send
      changes, and `revert` leads back to the same records whenever it comes. */
  lemma {:induction false} RunKeeps(s: IndexState, ops: seq<LocalOp>)
    requires Valid(s)
    ensures Valid(Run(s, ops))
    ensures forall p :: Run(s, ops).Base(p) == s.Base(p)
    ensures Run(s, ops).announcedSeq == s.announcedSeq
    ensures forall p :: p !in Run(s, ops).pending ==> Run(s, ops).Get(p) == s.Get(p)
    ensures s.pending.Keys <= Run(s, ops).pending.Keys
    ensures forall k :: AnnouncedSince(Run(s, ops), k) == AnnouncedSince(s, k)
    ensures RevertPending(Run(s, ops)).records == RevertPending(s).records
    decreases |ops|
  {
    var t := Run(s, ops);
    if ops != [] {
      var next := Apply(s, ops[0]);
      ApplyKeeps(s, ops[0]);
      RunKeeps(next, ops[1..]);
    }
    SameBase(s, t);
  }

  /** What catch-up may send, and where `revert` leads, depend only on the bases. */
  lemma SameBase(s: IndexState, t: IndexState)
    requires Valid(s) && Valid(t) && s.announcedSeq == t.announcedSeq
    requires forall p :: t.Base(p) == s.Base(p)
    ensures forall k :: AnnouncedSince(t, k) == AnnouncedSince(s, k)
    ensures RevertPending(t).records == RevertPending(s).records
  {
    BaseNeedsRecord(s);
    BaseNeedsRecord(t);
    forall k: nat ensures AnnouncedSince(t, k) == AnnouncedSince(s, k) {
      forall r | r in AnnouncedSince(s, k) ensures r in AnnouncedSince(t, k) {
        var p :| p in s.records && s.Base(p) == Some(r) && k < r.seqNo <= s.announcedSeq;
        assert t.Base(p) == Some(r) && p in t.records;
      }
      forall r | r in AnnouncedSince(t, k) ensures r in AnnouncedSince(s, k) {
        var p :| p in t.records && t.Base(p) == Some(r) && k < r.seqNo <= t.announcedSeq;
        assert s.Base(p) == Some(r) && p in s.records;
      }
    }
    assert RevertPending(t).records.Keys == RevertPending(s).records.Keys;
  }

  lemma BaseNeedsRecord(s: IndexState)
    requires Valid(s)
    ensures forall p :: s.Base(p).Some? ==> p in s.records
  {
  }

  /** Revert is invisible to peers. From a just-announced index, through any run of local
      changes, catch-up sends what it sent before; each pending row steps from the announced
      record, in hash and kind; and `revert` restores every record, sequence number included,
      leaving nothing to announce. */
  lemma RevertIsInvisible(s: IndexState, ops: seq<LocalOp>)
    requires Valid(s) && s.pending == map[] && s.announcedSeq == s.seqNo
    ensures var t := Run(s, ops);
            && (forall k :: AnnouncedSince(t, k) == AnnouncedSince(s, k))
            && (forall p :: p in t.pending ==>
                  && p in t.records
                  && t.pending[p].announced == s.Get(p)
                  && t.records[p].entry.prevHash == HashOf(s.Get(p))
                  && PendingKind(t, p) == Between(IsLive(s.Get(p)), !t.records[p].entry.deleted))
            && RevertPending(t).records == s.records
            && RevertPending(t).pending == map[]
            && Unannounced(RevertPending(t)) == {}
  {
    var t := Run(s, ops);
    RunKeeps(s, ops);
    assert RevertPending(s).records == s.records;
    forall p | p in t.pending
      ensures p in t.records && t.pending[p].announced == s.Get(p)
      ensures t.records[p].entry.prevHash == HashOf(s.Get(p))
    {
      assert PendingAt(t, p, t.pending[p]);
      assert t.Base(p) == s.Base(p);
    }
    forall p | p in s.records ensures s.records[p].seqNo <= s.announcedSeq {
      assert RecordAt(s, p, s.records[p]);
    }
  }
}
