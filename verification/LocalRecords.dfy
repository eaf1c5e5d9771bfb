/** What the index says after a local change: field by field, what was seen, found gone, copied or
    denied, and nothing else. */
module LocalRecords {
  import opened Prelude
  import opened Versions
  import opened Paths
  import opened Entries
  import opened IndexModel
  import opened LocalChanges

  /** What there is to see of an entry, in its own fields. */
  ghost function Fields(e: Entry): Observed {
    Observed(e.kind, e.size, e.mtime, e.exec, e.hash)
  }

  /** The vector one change of this machine's makes: one more at its own node, the same elsewhere. */
  ghost predicate OneMore(v: Version, was: Version, own: NodeId) {
    forall n :: Counter(v, n) == Counter(was, n) + if n == own then 1 else 0
  }

  ghost function VersionAt(s: IndexState, p: RelPath): Version {
    if p in s.records then s.records[p].entry.version else map[]
  }

  /** What peers last saw at the path, if they saw anything. */
  ghost function LastSeen(s: IndexState, p: RelPath): Option<IndexRecord> {
    if p in s.pending then s.pending[p].announced
    else if p in s.records then Some(s.records[p])
    else None
  }

  /** The hash a change at the path steps from: that of what peers last saw, and nothing's hash if
      they saw nothing. */
  ghost function StepsFrom(s: IndexState, p: RelPath): ContentHash {
    match LastSeen(s, p) case Some(r) => r.entry.hash case None => 0
  }

  /** This machine's own change at the path, stepping from what peers last saw. */
  ghost predicate IsOwn(s: IndexState, p: RelPath, e: Entry) {
    && e.path == p && e.modifiedBy == s.own && e.authorHost == s.host && e.prevHash == StepsFrom(s, p)
  }

  /** The stamp is past the record's; that of a file whose content changed, at least its mtime too;
      and a new path starts from its mtime, or one. */
  ghost predicate Stamped(s: IndexState, p: RelPath, e: Entry, changed: bool) {
    if p in s.records then
      var was := s.records[p].entry.stamp;
      && e.stamp > was
      && (e.kind == File && changed ==> e.stamp >= e.mtime && (e.stamp == e.mtime || e.stamp == was + 1))
      && (e.kind != File || !changed ==> e.stamp == was + 1)
    else if e.kind == File then e.stamp == e.mtime
    else e.stamp == 1
  }

  /** The record at the path is `e`, with the next number; the row keeps what peers last saw; and
      nothing else changed. */
  ghost predicate Wrote(s: IndexState, t: IndexState, p: RelPath, exempt: bool) {
    && t.seqNo == s.seqNo + 1 && p in t.records && t.records[p].seqNo == t.seqNo
    && p in t.pending && t.pending[p] == Pending(LastSeen(s, p), exempt)
    && t.records - {p} == s.records - {p} && t.pending - {p} == s.pending - {p}
    && t.own == s.own && t.host == s.host && t.announcedSeq == s.announcedSeq
  }

  lemma ChangeWrites(s: IndexState, op: LocalOp)
    requires Valid(s)
    ensures Apply(s, op) == s || Wrote(s, Apply(s, op), op.path, op.GoneUnrecoverable?)
    ensures EntryOf(s, op).None? <==> Apply(s, op) == s
    ensures EntryOf(s, op).Some? ==> Apply(s, op).records[op.path].entry == EntryOf(s, op).value
  {
    hide EntryOf, Valid, Wrote, Write, Exempt;
    EntryOfFacts(s, op);
    if EntryOf(s, op).Some? { EntryWrites(s, EntryOf(s, op).value); }
  }

  lemma EntryWrites(s: IndexState, e: Entry)
    ensures var t := Write(s, e);
            && Wrote(s, t, e.path, false) && Wrote(s, Exempt(t, e.path), e.path, true)
            && t.records[e.path].entry == e && Exempt(t, e.path).records == t.records
    ensures Write(s, e) != s && Exempt(Write(s, e), e.path) != s
  {
    var t := Write(s, e);
    var x := Exempt(t, e.path);
    assert t.records - {e.path} == s.records - {e.path};
    assert t.pending - {e.path} == s.pending - {e.path} && x.pending - {e.path} == s.pending - {e.path};
    assert t.seqNo == s.seqNo + 1 && x.seqNo == s.seqNo + 1;
  }

  /** What was seen is what the index says is there, whatever it said before. Nothing is written
      exactly if it says so already. */
  lemma SeenIsRecorded(s: IndexState, p: RelPath, seen: Observed)
    requires Valid(s)
    ensures var t := Apply(s, Seen(p, seen));
            && p in t.records && !t.records[p].entry.deleted && Plainly(seen, Fields(t.records[p].entry))
            && (t == s <==> p in s.records && !s.records[p].entry.deleted && Plainly(seen, Fields(s.records[p].entry)))
            && (t != s ==>
                  var e := t.records[p].entry;
                  && Wrote(s, t, p, false) && IsOwn(s, p, e) && OneMore(e.version, VersionAt(s, p), s.own)
                  && Stamped(s, p, e, e.hash != StepsFrom(s, p)))
  {
    NormalisedPlainly(seen);
    ChangeWrites(s, Seen(p, seen));
    IncrementDominates(VersionAt(s, p), s.own);
    assert VersionOf(s.Get(p)) == VersionAt(s, p);
  }

  /** What is gone is not there any more: where it was live there is a tombstone of its kind,
      without content, and nothing is written where it was not. */
  lemma GoneIsRecorded(s: IndexState, op: LocalOp)
    requires Valid(s) && (op.Gone? || op.GoneUnrecoverable?)
    ensures var t, p := Apply(s, op), op.path;
            && (p in t.records ==> t.records[p].entry.deleted)
            && (t == s <==> !(p in s.records && !s.records[p].entry.deleted))
            && (t != s ==>
                  var was, e := s.records[p].entry, t.records[p].entry;
                  && Wrote(s, t, p, op.GoneUnrecoverable?) && IsOwn(s, p, e)
                  && OneMore(e.version, was.version, s.own) && e.stamp == was.stamp + 1
                  && e.deleted && Fields(e) == Observed(was.kind, 0, op.at, false, 0))
  {
    ChangeWrites(s, op);
    IncrementDominates(VersionAt(s, op.path), s.own);
  }

  /** A conflict copy is there with the loser's content, as this machine's own change. */
  lemma CopyIsRecorded(s: IndexState, p: RelPath, loser: Entry)
    requires Valid(s)
    ensures var t := Apply(s, Copied(p, loser));
            && Wrote(s, t, p, false) && !t.records[p].entry.deleted
            && var e := t.records[p].entry;
               && Fields(e) == Fields(loser) && IsOwn(s, p, e)
               && OneMore(e.version, VersionAt(s, p), s.own) && Stamped(s, p, e, true)
  {
    ChangeWrites(s, Copied(p, loser));
    IncrementDominates(VersionAt(s, p), s.own);
    assert VersionOf(s.Get(p)) == VersionAt(s, p);
  }

  /** The largest of the counters a node has. */
  ghost predicate IsLargest(k: nat, was: Version, over: seq<Version>, n: NodeId) {
    && k >= Counter(was, n) && (forall i :: 0 <= i < |over| ==> k >= Counter(over[i], n))
    && (k == Counter(was, n) || exists i :: 0 <= i < |over| && k == Counter(over[i], n))
  }

  /** A deny leaves what is there as it was, or a tombstone where nothing was, above the record and
      every version it bumps over, and no further. */
  lemma DenyIsRecorded(s: IndexState, p: RelPath, over: seq<Version>, overStamp: Option<int>, at: int)
    requires Valid(s)
    ensures var t := Apply(s, Denied(p, over, overStamp, at));
            && Wrote(s, t, p, false)
            && var e := t.records[p].entry;
               && (p in s.records ==> e.deleted == s.records[p].entry.deleted
                                      && Fields(e) == Fields(s.records[p].entry))
               && (p !in s.records ==> e.deleted && Fields(e) == Observed(File, 0, at, false, 0))
               && e.modifiedBy == s.own && e.authorHost == s.host && e.prevHash == StepsFrom(s, p)
               && (forall n :: Counter(e.version, n) >= (if n == s.own then 1 else 0)
                               && IsLargest(Counter(e.version, n) - (if n == s.own then 1 else 0),
                                             VersionAt(s, p), over, n))
               && (p in s.records ==> e.stamp > s.records[p].entry.stamp)
               && (overStamp.Some? ==> e.stamp > overStamp.value)
               && (if p in s.records && e.stamp == s.records[p].entry.stamp + 1 then true
                   else if overStamp.Some? then e.stamp == overStamp.value + 1
                   else p !in s.records && e.stamp == 1)
  {
    ChangeWrites(s, Denied(p, over, overStamp, at));
    var m := MergeAll(VersionAt(s, p), over);
    IncrementDominates(m, s.own);
    assert VersionOf(s.Get(p)) == VersionAt(s, p);
    forall n ensures IsLargest(Counter(m, n), VersionAt(s, p), over, n) {
      CounterMergeAll(VersionAt(s, p), over, n);
    }
  }

  /** What a change is reported as: a deletion, a path peers have nothing live at, or another
      version of one they have. */
  lemma ChangeIsOf(s: IndexState, e: Entry)
    ensures var c, last := ChangeOf(s, e), LastSeen(s, e.path);
            && c.record == IndexRecord(e, s.seqNo + 1)
            && (c.kind == Delete <==> e.deleted)
            && (c.kind == Add <==> !e.deleted && (last.None? || last.value.entry.deleted))
  {
  }
}
