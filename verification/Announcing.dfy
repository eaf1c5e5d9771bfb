/** One sender, one receiver, and a transport that loses, repeats and reorders batches: the
    receiver's contiguous watermark never passes a record it was not sent. */
module Announcing {
  import opened Prelude
  import opened Versions
  import opened Paths
  import opened Entries
  import opened IndexModel
  import opened LocalChanges
  import opened Batches
  import opened Watermarks

  /** The sender's index, every batch it ever formed, and the receiver: what it holds of the
      sender's sequence space, and the batches it has processed. */
  datatype Link = Link(sender: IndexState, formed: set<Batch>, held: Watermark, processed: set<Batch>)

  /** The kind an unannounced record travels with: none for an adopted record or an
      unrecoverable tombstone. */
  function KindAt(s: IndexState, p: RelPath): Option<ChangeKind> {
    if p in s.pending && p in s.records && !s.pending[p].exempt then Some(PendingKind(s, p)) else None
  }

  /** A record travels with no kind if it was adopted, or is a tombstone for content nobody holds;
      otherwise with what it is to peers: gone, new, or another version of what they have. */
  lemma KindAtMeans(s: IndexState, p: RelPath)
    requires p in s.records
    ensures var k := KindAt(s, p);
            && (k == None <==> p !in s.pending || s.pending[p].exempt)
            && (k == Some(Delete) <==> k != None && s.records[p].entry.deleted)
            && (k == Some(Add) <==>
                  k != None && !s.records[p].entry.deleted
                  && (s.pending[p].announced == None || s.pending[p].announced.value.entry.deleted))
  {
  }

  /** `rs` lists exactly the records `from`, by sequence number. */
  ghost predicate Lists(rs: seq<Outgoing>, from: set<IndexRecord>) {
    && (forall i, j :: 0 <= i < j < |rs| ==> rs[i].record.seqNo < rs[j].record.seqNo)
    && (forall o :: o in rs ==> o.record in from)
    && (forall r :: r in from ==> exists o :: o in rs && o.record == r)
  }

  datatype Action =
    | Change(op: LocalOp)
    | Landed(entry: Entry)
    | Undone
    | Announced(rs: seq<Outgoing>, id: nat, now: int)
    | CatchUp(ack: nat, rs: seq<Outgoing>, id: nat, now: int)
    | Processed(batch: Batch, held: Watermark)

  function RangesOf(bs: set<Batch>): set<Range> {
    set b | b in bs :: Range(b.seqLow, b.seqHigh)
  }

  function SetOfBatches(bs: seq<Batch>): set<Batch> {
    set b | b in bs
  }

  /** Any formed batch may be processed at any time, again, or never. */
  ghost predicate Enabled(s: Link, a: Action) {
    match a
    case Change(_) => true
    case Landed(e) => Adoptable(s.sender, e)
    case Undone => true
    case Announced(rs, _, _) =>
      Lists(rs, Unannounced(s.sender)) && forall o :: o in rs ==> o.kind == KindAt(s.sender, o.record.entry.path)
    case CatchUp(ack, rs, _, _) =>
      Lists(rs, AnnouncedSince(s.sender, ack)) && forall o :: o in rs ==> o.kind == None
    case Processed(b, held) =>
      b in s.formed && Describes(held, RangesOf(s.processed) + {Range(b.seqLow, b.seqHigh)})
  }

  function Step(s: Link, a: Action): Link {
    match a
    case Change(op) => s.(sender := Apply(s.sender, op))
    case Landed(e) => s.(sender := Adopt(s.sender, e))
    case Undone => s.(sender := RevertPending(s.sender))
    case Announced(rs, id, now) =>
      s.(sender := MarkAnnounced(s.sender),
         formed := s.formed + SetOfBatches(Form(id, s.sender.own, now, rs, s.sender.announcedSeq)))
    case CatchUp(ack, rs, id, now) =>
      s.(formed := s.formed + SetOfBatches(Form(id, s.sender.own, now, rs, ack)))
    case Processed(b, held) => s.(held := held, processed := s.processed + {b})
  }

  ghost predicate Initial(s: Link) {
    Valid(s.sender) && s.formed == {} && s.processed == {} && s.held == START
  }

  ghost predicate CanRun(s: Link, actions: seq<Action>)
    decreases |actions|
  {
    actions == [] || (Enabled(s, actions[0]) && CanRun(Step(s, actions[0]), actions[1..]))
  }

  function Exec(s: Link, actions: seq<Action>): Link
    decreases |actions|
  {
    if actions == [] then s else Exec(Step(s, actions[0]), actions[1..])
  }

  /** A batch holds every record the sender now stands by whose number is in its range. */
  ghost predicate Complete(s: IndexState, b: Batch) {
    && b.seqLow < b.seqHigh <= s.announcedSeq
    && forall r :: r in AnnouncedSince(s, 0) && b.seqLow < r.seqNo <= b.seqHigh ==> r.entry in b.entries
  }

  ghost predicate Inv(s: Link) {
    && Valid(s.sender)
    && (forall b :: b in s.formed ==> Complete(s.sender, b))
    && s.processed <= s.formed
    && Describes(s.held, RangesOf(s.processed))
  }

  /** Every batch's range lies above `low` and ends at a record of the run. */
  lemma {:induction false} FormRanges(id: nat, source: NodeId, now: int, rs: seq<Outgoing>, low: nat, b: Batch)
    requires Increasing(rs, low) && b in Form(id, source, now, rs, low)
    ensures low <= b.seqLow < b.seqHigh
    ensures exists o :: o in rs && o.record.seqNo == b.seqHigh
    decreases |rs|
  {
    var n := TakeFrom(rs, 1);
    var tail := Form(id + 1, source, now, rs[n..], rs[n - 1].record.seqNo);
    if b in tail {
      FormRanges(id + 1, source, now, rs[n..], rs[n - 1].record.seqNo, b);
    } else {
      assert b == MakeBatch(id, source, now, low, rs[..n]);
      assert rs[n - 1] in rs;
    }
  }

  /** Standing by less, or by records numbered past every batch, leaves batches complete. */
  lemma CompleteKept(s: IndexState, t: IndexState, b: Batch)
    requires Complete(s, b) && s.announcedSeq <= t.announcedSeq
    requires forall r :: r in AnnouncedSince(t, 0) && r.seqNo <= s.announcedSeq ==> r in AnnouncedSince(s, 0)
    ensures Complete(t, b)
  {
  }

  /** The batches of a run that lists what is to be sent above `low` are complete. */
  lemma FormedComplete(t: IndexState, rs: seq<Outgoing>, low: nat, id: nat, now: int, source: NodeId, b: Batch)
    requires Increasing(rs, low) && b in Form(id, source, now, rs, low)
    requires forall o :: o in rs ==> o.record.seqNo <= t.announcedSeq
    requires forall r :: r in AnnouncedSince(t, 0) && r.seqNo > low ==> exists o :: o in rs && o.record == r
    ensures Complete(t, b)
  {
    FormRanges(id, source, now, rs, low, b);
    forall r | r in AnnouncedSince(t, 0) && b.seqLow < r.seqNo <= b.seqHigh ensures r.entry in b.entries {
      var o :| o in rs && o.record == r;
      FormCovers(id, source, now, rs, low, b, o);
    }
  }

  lemma AnnounceKeeps(s: Link, rs: seq<Outgoing>, id: nat, now: int)
    requires Inv(s) && Enabled(s, Announced(rs, id, now))
    ensures Inv(Step(s, Announced(rs, id, now)))
  {
    var st, t := s.sender, MarkAnnounced(s.sender);
    MarkValid(st);
    assert Increasing(rs, st.announcedSeq) by {
      forall i | 0 <= i < |rs| ensures st.announcedSeq < rs[i].record.seqNo {
        assert rs[i] in rs;
      }
    }
    UnannouncedFacts(st);
    forall b | b in s.formed ensures Complete(t, b) { CompleteKept(st, t, b); }
    forall b | b in Form(id, st.own, now, rs, st.announcedSeq) ensures Complete(t, b) {
      FormedComplete(t, rs, st.announcedSeq, id, now, st.own, b);
    }
  }

  /** What an announcement adds to what is stood by is exactly the unannounced records. */
  lemma UnannouncedFacts(s: IndexState)
    requires Valid(s)
    ensures forall r :: r in AnnouncedSince(MarkAnnounced(s), 0) ==>
              if r.seqNo <= s.announcedSeq then r in AnnouncedSince(s, 0) else r in Unannounced(s)
    ensures forall r :: r in Unannounced(s) ==> r.seqNo <= s.seqNo
  {
    var t := MarkAnnounced(s);
    forall r | r in AnnouncedSince(t, 0)
      ensures if r.seqNo <= s.announcedSeq then r in AnnouncedSince(s, 0) else r in Unannounced(s)
    {
      var p :| p in t.records && t.Base(p) == Some(r) && 0 < r.seqNo <= t.announcedSeq;
      assert s.records[p] == r;
      assert p in s.pending ==> PendingAt(s, p, s.pending[p]);
      if r.seqNo <= s.announcedSeq { assert s.Base(p) == Some(r); }
    }
    forall r | r in Unannounced(s) ensures r.seqNo <= s.seqNo {
      var p :| p in s.records && s.records[p] == r;
      assert RecordAt(s, p, r);
    }
  }

  lemma CatchUpKeeps(s: Link, ack: nat, rs: seq<Outgoing>, id: nat, now: int)
    requires Inv(s) && Enabled(s, CatchUp(ack, rs, id, now))
    ensures Inv(Step(s, CatchUp(ack, rs, id, now)))
  {
    var st := s.sender;
    assert Increasing(rs, ack) by {
      forall i | 0 <= i < |rs| ensures ack < rs[i].record.seqNo {
        assert rs[i] in rs;
      }
    }
    assert forall r :: r in AnnouncedSince(st, 0) && r.seqNo > ack ==> r in AnnouncedSince(st, ack);
    forall b | b in Form(id, st.own, now, rs, ack) ensures Complete(st, b) {
      FormedComplete(st, rs, ack, id, now, st.own, b);
    }
  }

  lemma LandedKeeps(s: Link, e: Entry)
    requires Inv(s)
    ensures Inv(Step(s, Landed(e)))
  {
    var st, t := s.sender, Adopt(s.sender, e);
    AdoptValid(st, e);
    forall r | r in AnnouncedSince(t, 0) ensures r in AnnouncedSince(st, 0) {
      var p :| p in t.records && t.Base(p) == Some(r) && 0 < r.seqNo <= t.announcedSeq;
      assert p != e.path;
      assert st.Base(p) == Some(r) && p in st.records;
    }
    forall b | b in s.formed ensures Complete(t, b) { CompleteKept(st, t, b); }
  }

  lemma UndoneKeeps(s: Link)
    requires Inv(s)
    ensures Inv(Step(s, Undone))
  {
    var st, t := s.sender, RevertPending(s.sender);
    RevertValid(st);
    BaseNeedsRecord(st);
    SameBase(st, t);
  }

  lemma StepKeeps(s: Link, a: Action)
    requires Inv(s) && Enabled(s, a)
    ensures Inv(Step(s, a))
  {
    match a
    case Change(op) =>
      ApplyKeeps(s.sender, op);
      SameBase(s.sender, Apply(s.sender, op));
    case Landed(e) => LandedKeeps(s, e);
    case Undone => UndoneKeeps(s);
    case Announced(rs, id, now) => AnnounceKeeps(s, rs, id, now);
    case CatchUp(ack, rs, id, now) => CatchUpKeeps(s, ack, rs, id, now);
    case Processed(b, held) =>
      assert RangesOf(s.processed + {b}) == RangesOf(s.processed) + {Range(b.seqLow, b.seqHigh)};
  }

  lemma {:induction false} RunKeeps(s: Link, actions: seq<Action>)
    requires Inv(s) && CanRun(s, actions)
    ensures Inv(Exec(s, actions))
    decreases |actions|
  {
    if actions != [] {
      StepKeeps(s, actions[0]);
      RunKeeps(Step(s, actions[0]), actions[1..]);
    }
  }

  /** Nothing is missed. Whatever was lost, repeated or reordered, and whatever changed, landed
      or was reverted meanwhile: every announced record the sender now stands by, numbered at
      or below the receiver's contiguous watermark, was in a batch the receiver processed. */
  lemma NothingMissed(start: Link, actions: seq<Action>, r: IndexRecord)
    requires Initial(start) && CanRun(start, actions)
    requires var s := Exec(start, actions);
             r in AnnouncedSince(s.sender, 0) && r.seqNo <= s.held.contiguous
    ensures exists b :: b in Exec(start, actions).processed && r.entry in b.entries
  {
    assert RangesOf({}) == {};
    RunKeeps(start, actions);
    var s := Exec(start, actions);
    assert Covered(RangesOf(s.processed), r.seqNo);
    var range :| range in RangesOf(s.processed) && range.low < r.seqNo <= range.high;
    var b :| b in s.processed && Range(b.seqLow, b.seqHigh) == range;
    assert Complete(s.sender, b);
  }

  /** The watermark never runs ahead of the announcements: an acknowledgement is always a number
      the sender has announced up to. */
  lemma WatermarkBehindAnnounced(start: Link, actions: seq<Action>)
    requires Initial(start) && CanRun(start, actions)
    ensures var s := Exec(start, actions); s.held.contiguous <= s.sender.announcedSeq
  {
    assert RangesOf({}) == {};
    RunKeeps(start, actions);
    var s := Exec(start, actions);
    var w := s.held.contiguous;
    if w >= 1 {
      assert Covered(RangesOf(s.processed), w);
      var range :| range in RangesOf(s.processed) && range.low < w <= range.high;
      var b :| b in s.processed && Range(b.seqLow, b.seqHigh) == range;
      assert Complete(s.sender, b);
    }
  }
}
