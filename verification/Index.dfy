/** The per-folder index, updated in place. Each method is tied to the value model, whose
    properties are proved in IndexModel.dfy, LocalChanges.dfy, Replication.dfy and
    Announcing.dfy. `stored` is the host's table of pending rows, updated only by what the
    index reports; `received` is every range each peer's batches covered. */
module Indexes {
  import opened Prelude
  import opened Versions
  import opened Paths
  import opened Entries
  import opened Batches
  import opened Watermarks
  import opened Persistence
  import A = Announcing
  import L = LocalChanges
  import M = IndexModel

  type IndexRecord = M.IndexRecord
  type Pending = M.Pending

  lemma LeastSeq(rs: set<IndexRecord>)
    requires rs != {}
    ensures exists r :: r in rs && forall q :: q in rs ==> r.seqNo <= q.seqNo
  {
    var r :| r in rs;
    if rs != {r} {
      LeastSeq(rs - {r});
      var m :| m in rs - {r} && forall q :: q in rs - {r} ==> m.seqNo <= q.seqNo;
      assert forall q :: q in rs ==> q == r || q in rs - {r};
      if r.seqNo <= m.seqNo {
        assert forall q :: q in rs ==> r.seqNo <= q.seqNo;
      } else {
        assert forall q :: q in rs ==> m.seqNo <= q.seqNo;
      }
    }
  }

  class Index {
    const own: NodeId
    const host: string
    var records: map<RelPath, IndexRecord>
    var seqNo: nat
    var peerSeq: map<NodeId, Watermark>
    var pending: map<RelPath, Pending>
    var pendingChanged: set<RelPath>
    var announcedSeq: nat
    var announcedTracked: nat
    ghost var stored: map<RelPath, Pending>
    ghost var received: map<NodeId, set<Range>>

    function State(): M.IndexState
      reads this
    {
      M.IndexState(own, host, records, seqNo, pending, announcedSeq)
    }

    ghost predicate Valid()
      reads this
    {
      && M.Valid(State())
      && Mirrors(stored, pending, pendingChanged)
      && peerSeq.Keys == received.Keys
      && forall n :: n in peerSeq ==> Describes(peerSeq[n], received[n])
    }

    constructor (own: NodeId, host: string)
      ensures Valid() && State() == M.Empty(own, host) && stored == map[] && received == map[]
    {
      this.own, this.host := own, host;
      records, seqNo, pending, announcedSeq, announcedTracked := map[], 0, map[], 0, 0;
      peerSeq, pendingChanged, stored, received := map[], {}, map[], map[];
    }

    /** Live entries that are not directories. */
    function TrackedCount(): nat
      reads this
    {
      |set p | p in records && !records[p].entry.deleted && records[p].entry.kind != Dir|
    }

    static lemma RowNoted(stored: map<RelPath, Pending>, pending: map<RelPath, Pending>, changed: set<RelPath>,
                          path: RelPath, row: Pending)
      requires Mirrors(stored, pending, changed)
      ensures Mirrors(stored, pending[path := row], changed + {path})
    {
    }

    /** Record a local change; the path's pending change, if any, is an ordinary one again. */
    method Write(entry: Entry) returns (change: M.LocalChange)
      requires Valid() && entry.prevHash == State().AnnouncedHash(entry.path)
      modifies this`records, this`seqNo, this`pending, this`pendingChanged
      ensures Valid() && State() == M.Write(old(State()), entry)
      ensures change == M.ChangeOf(old(State()), entry)
      ensures entry.path in pending && pendingChanged == old(pendingChanged) + {entry.path}
    {
      hide M.Valid, Describes, Mirrors;
      RowNoted(stored, pending, pendingChanged, entry.path, M.Pending(State().Base(entry.path), false));
      M.WriteValid(State(), entry);
      seqNo := seqNo + 1;
      var path := entry.path;
      var previous := if path in records then Some(records[path]) else None;
      pendingChanged := pendingChanged + {path};
      if path !in pending {
        pending := pending[path := M.Pending(previous, false)];
      }
      pending := pending[path := pending[path].(exempt := false)];
      var kind := M.Between(M.IsLive(pending[path].announced), !entry.deleted);
      var record := M.IndexRecord(entry, seqNo);
      records := records[path := record];
      change := M.LocalChange(kind, record);
      assert State() == M.Write(old(State()), entry);
    }

    /** The scanner saw `seen` at `path`. */
    method Observe(path: RelPath, seen: Observed) returns (change: Option<M.LocalChange>)
      requires Valid()
      modifies this`records, this`seqNo, this`pending, this`pendingChanged
      ensures Valid() && State() == L.Apply(old(State()), L.Seen(path, seen))
      ensures change == Reported(old(State()), L.Seen(path, seen))
    {
      var o := seen.Normalised();
      if path in records && !records[path].entry.deleted && records[path].entry.Observation() == o {
        return None;
      }
      var previous := if path in records then Some(records[path]) else None;
      var version := Incremented(M.VersionOf(previous), own);
      var prevHash := State().AnnouncedHash(path);
      var stamp := M.StampFor(previous, o.kind, o.mtime, o.hash != prevHash);
      var entry := Entry(path, o.kind, o.size, o.mtime, stamp, o.exec, o.hash, prevHash, version,
                         false, own, host);
      var c := Write(entry);
      change := Some(c);
    }

    /** What a local operation reports. */
    static function Reported(s: M.IndexState, op: L.LocalOp): Option<M.LocalChange> {
      match L.EntryOf(s, op)
      case None => None
      case Some(e) => Some(M.ChangeOf(s, e))
    }

    /** The scanner found nothing at `path`. */
    method ObserveAbsent(path: RelPath, at: int) returns (change: Option<M.LocalChange>)
      requires Valid()
      modifies this`records, this`seqNo, this`pending, this`pendingChanged
      ensures Valid() && State() == L.Apply(old(State()), L.Gone(path, at))
      ensures change == Reported(old(State()), L.Gone(path, at))
      ensures change.Some? ==> path in pending && path in pendingChanged
    {
      if path !in records || records[path].entry.deleted {
        return None;
      }
      var e := records[path].entry;
      var entry := Entry(path, e.kind, 0, at, e.stamp + 1, false, EMPTY_HASH,
                         State().AnnouncedHash(path), Incremented(e.version, own), true, own, host);
      var c := Write(entry);
      change := Some(c);
    }

    /** A tombstone for content no member holds: exempt from the sender's pre-check. */
    method ObserveAbsentUnrecoverable(path: RelPath, at: int) returns (change: Option<M.LocalChange>)
      requires Valid()
      modifies this`records, this`seqNo, this`pending, this`pendingChanged
      ensures Valid() && State() == L.Apply(old(State()), L.GoneUnrecoverable(path, at))
      ensures change == Reported(old(State()), L.GoneUnrecoverable(path, at))
    {
      change := ObserveAbsent(path, at);
      if change.None? {
        return;
      }
      if path in pending {
        L.ExemptKeeps(State(), path);
        pending := pending[path := pending[path].(exempt := true)];
        pendingChanged := pendingChanged + {path};
      }
    }

    /** A losing edit is kept as a record of its own. */
    method RecordConflictCopy(path: RelPath, loser: Entry) returns (change: M.LocalChange)
      requires Valid()
      modifies this`records, this`seqNo, this`pending, this`pendingChanged
      ensures Valid() && State() == L.Apply(old(State()), L.Copied(path, loser))
      ensures Some(change) == Reported(old(State()), L.Copied(path, loser))
    {
      var previous := if path in records then Some(records[path]) else None;
      var stamp := M.StampFor(previous, loser.kind, loser.mtime, true);
      var entry := Entry(path, loser.kind, loser.size, loser.mtime, stamp, loser.exec, loser.hash,
                         State().AnnouncedHash(path), Incremented(M.VersionOf(previous), own),
                         false, own, host);
      change := Write(entry);
    }

    /** A deny: this machine's content above every version in `over`. */
    method BumpOver(path: RelPath, over: seq<Version>, overStamp: Option<int>, at: int)
      returns (change: M.LocalChange)
      requires Valid()
      modifies this`records, this`seqNo, this`pending, this`pendingChanged
      ensures Valid() && State() == L.Apply(old(State()), L.Denied(path, over, overStamp, at))
      ensures Some(change) == Reported(old(State()), L.Denied(path, over, overStamp, at))
    {
      if path in records { assert M.RecordAt(State(), path, records[path]); }
      var version := if path in records then records[path].entry.version else EMPTY;
      var i := 0;
      while i < |over|
        invariant 0 <= i <= |over|
        invariant MergeAll(version, over[i..])
               == MergeAll(if path in records then records[path].entry.version else EMPTY, over)
      {
        assert over[i..][1..] == over[i + 1..];
        version := Merge(version, over[i]);
        i := i + 1;
      }
      change := Write(M.BumpOver(State(), path, over, overStamp, at).(version := Incremented(version, own)));
    }

    /** A remote entry has landed and the index takes it over; refused, and `None`, if it does
        not dominate or equal the record. */
    method Adopt(entry: Entry) returns (adopted: Option<IndexRecord>)
      requires Valid()
      modifies this`records, this`seqNo, this`pending, this`pendingChanged
      ensures Valid()
      ensures adopted.Some? <==> old(M.Adoptable(State(), entry))
      ensures State() == if adopted.Some? then M.Adopt(old(State()), entry) else old(State())
      ensures adopted.Some? ==> adopted.value == State().records[entry.path]
    {
      if CanAdopt(entry) {
        M.AdoptValid(State(), entry);
        seqNo := seqNo + 1;
        if entry.path in pending {
          pending := pending - {entry.path};
          pendingChanged := pendingChanged + {entry.path};
        } else {
          assert pending - {entry.path} == pending;
        }
        records := records[entry.path := M.IndexRecord(entry, seqNo)];
        adopted := Some(records[entry.path]);
      } else {
        adopted := None;
      }
    }

    predicate CanAdopt(entry: Entry)
      reads this
    {
      entry.path !in records || Leq(records[entry.path].entry.version, entry.version)
    }

    /** Everything written so far has been announced. */
    method MarkAnnounced()
      requires Valid()
      modifies this`pending, this`pendingChanged, this`announcedSeq, this`announcedTracked
      ensures Valid() && State() == M.MarkAnnounced(old(State()))
      ensures announcedTracked == TrackedCount()
    {
      M.MarkValid(State());
      pendingChanged := pendingChanged + pending.Keys;
      pending := map[];
      announcedSeq := seqNo;
      announcedTracked := TrackedCount();
    }

    /** Undo every unannounced local change; what happened at each path, in path order. */
    method RevertPending() returns (out: seq<M.Reverted>)
      requires Valid()
      modifies this`records, this`pending, this`pendingChanged
      ensures Valid() && State() == M.RevertPending(old(State()))
      ensures IsReport(old(State()), Sorted(old(pending).Keys), out)
    {
      M.RevertValid(State());
      pendingChanged := pendingChanged + pending.Keys;
      records, out := PutBack(State(), Sorted(pending.Keys));
      pending := map[];
    }

    /** At each path, in the order given, the record that went and the one that came back. */
    static predicate IsReport(s: M.IndexState, order: seq<RelPath>, out: seq<M.Reverted>) {
      && |out| == |order|
      && forall i :: 0 <= i < |out| ==>
           && order[i] in s.pending && order[i] in s.records
           && out[i] == M.Reverted(order[i], Some(s.records[order[i]].entry), s.pending[order[i]].announced)
    }

    /** The records once those at `done` went and what peers last saw came back. */
    static function PutBackAt(s: M.IndexState, done: seq<RelPath>): map<RelPath, IndexRecord> {
      map p | p in s.records && (p in done ==> s.Base(p).Some?) :: if p in done then s.Base(p).value else s.records[p]
    }

    /** Each pending path in turn: its record goes, and what peers last saw comes back. */
    static method PutBack(s: M.IndexState, order: seq<RelPath>)
      returns (records: map<RelPath, IndexRecord>, out: seq<M.Reverted>)
      requires M.Valid(s) && order == Sorted(s.pending.Keys)
      ensures records == M.RevertPending(s).records
      ensures IsReport(s, order, out)
    {
      hide Sorted;
      SortedElements(s.pending.Keys);
      L.BaseNeedsRecord(s);
      records, out := s.records, [];
      assert s.records == PutBackAt(s, order[..0]);
      for i := 0 to |order|
        invariant records == PutBackAt(s, order[..i])
        invariant IsReport(s, order[..i], out)
      {
        var p := order[i];
        var row := s.pending[p];
        var current := if p in records then Some(records[p].entry) else None;
        assert order[..i + 1] == order[..i] + [p] && p !in order[..i];
        records := records - {p};
        if row.announced.Some? {
          records := records[p := row.announced.value];
        }
        out := out + [M.Reverted(p, current, row.announced)];
      }
      assert order[..|order|] == order;
    }

    /** Records by sequence number. */
    static method SortBySeq(rs: set<IndexRecord>) returns (out: seq<IndexRecord>)
      requires forall a, b :: a in rs && b in rs && a.seqNo == b.seqNo ==> a == b
      ensures forall i, j :: 0 <= i < j < |out| ==> out[i].seqNo < out[j].seqNo
      ensures forall r :: r in out <==> r in rs
    {
      var todo := rs;
      out := [];
      while todo != {}
        invariant todo <= rs
        invariant forall r :: r in out <==> r in rs - todo
        invariant forall i, j :: 0 <= i < j < |out| ==> out[i].seqNo < out[j].seqNo
        invariant forall r, q :: r in out && q in todo ==> r.seqNo < q.seqNo
        decreases todo
      {
        LeastSeq(todo);
        var r :| r in todo && forall q :: q in todo ==> r.seqNo <= q.seqNo;
        out := out + [r];
        todo := todo - {r};
      }
    }

    /** What the next batches are to carry, by sequence number, with each one's kind. */
    method Unannounced() returns (out: seq<Outgoing>)
      requires Valid()
      ensures A.Lists(out, M.Unannounced(State()))
      ensures forall o :: o in out ==> o.kind == A.KindAt(State(), o.record.entry.path)
    {
      var mine := set p | p in records && records[p].seqNo > announcedSeq :: records[p];
      assert mine == M.Unannounced(State());
      forall a, b | a in mine && b in mine && a.seqNo == b.seqNo ensures a == b {
        var p :| p in records && records[p] == a;
        var q :| q in records && records[q] == b;
        assert M.Uses(State(), p, a.seqNo) && M.Uses(State(), q, b.seqNo);
      }
      var sorted := SortBySeq(mine);
      out := seq(|sorted|, i requires 0 <= i < |sorted| reads this =>
        Outgoing(sorted[i], A.KindAt(State(), sorted[i].entry.path)));
      Listed(sorted, out, mine);
    }

    static lemma Listed(sorted: seq<IndexRecord>, out: seq<Outgoing>, rs: set<IndexRecord>)
      requires |out| == |sorted| && forall i :: 0 <= i < |out| ==> out[i].record == sorted[i]
      requires forall i, j :: 0 <= i < j < |sorted| ==> sorted[i].seqNo < sorted[j].seqNo
      requires forall r :: r in sorted <==> r in rs
      ensures A.Lists(out, rs)
    {
      forall r | r in rs ensures exists o :: o in out && o.record == r {
        var i :| 0 <= i < |sorted| && sorted[i] == r;
        assert out[i] in out;
      }
    }

    /** What catch-up sends a peer that has everything up to `after`, in sequence order. */
    method AnnouncedSince(after: nat) returns (out: seq<Outgoing>)
      requires Valid()
      ensures A.Lists(out, M.AnnouncedSince(State(), after))
      ensures forall o :: o in out ==> o.kind == None
    {
      var mine := set p | p in records && State().Base(p).Some?
                          && after < State().Base(p).value.seqNo <= announcedSeq :: State().Base(p).value;
      assert mine == M.AnnouncedSince(State(), after);
      forall a, b | a in mine && b in mine && a.seqNo == b.seqNo ensures a == b {
        var p :| p in records && State().Base(p) == Some(a);
        var q :| q in records && State().Base(q) == Some(b);
        assert M.Uses(State(), p, a.seqNo) && M.Uses(State(), q, b.seqNo);
      }
      var sorted := SortBySeq(mine);
      out := seq(|sorted|, i requires 0 <= i < |sorted| => Outgoing(sorted[i], None));
      Listed(sorted, out, mine);
    }

    /** A batch from `peer` covering `(low, high]` arrived. */
    method ReceivedRange(peer: NodeId, low: nat, high: nat)
      requires Valid() && low < high
      modifies this`peerSeq, this`received
      ensures Valid()
      ensures peer in received && received == old(received)[peer :=
                (if peer in old(received) then old(received)[peer] else {}) + {Range(low, high)}]
    {
      var w := if peer in peerSeq then peerSeq[peer] else START;
      ghost var had := if peer in received then received[peer] else {};
      var after := Watermarks.ReceivedRange(w, low, high, had);
      peerSeq := peerSeq[peer := after];
      received := received[peer := had + {Range(low, high)}];
    }

    /** The rows noted as changed, in path order; `None` stands for one that is gone. Once it has
        them, the host's table is the pending set. */
    method PendingChanges() returns (rows: seq<(RelPath, Option<Pending>)>)
      requires Valid()
      modifies this`pendingChanged, this`stored
      ensures Valid() && State() == old(State())
      ensures rows == RowsAt(Sorted(old(pendingChanged)), pending) && pendingChanged == {}
      ensures stored == pending
    {
      rows := RowsAt(Sorted(pendingChanged), pending);
      ghost var table := map p | p in pendingChanged :: if p in pending then Some(pending[p]) else None;
      DrainedMirror(stored, pending, pendingChanged, table);
      stored := Applied(stored, table);
      pendingChanged := {};
    }
  }
}
