/** N machines exchanging entries: local changes, denies, announcements, deliveries of
    anything ever sent (in any order, any number of times, or never) and reverts. What a machine
    accepts it may adopt much later, when its record has moved on. The design's central claim is
    that a record is a function of its vector, so machines that resolve conflicts alone still
    agree. */
module Replication {
  import opened Prelude
  import opened Versions
  import opened Paths
  import opened Entries
  import opened Conflict
  import opened IndexModel
  import opened LocalChanges
  import opened Classify

  /** `flight` is what each machine has classified and still wants: its commits run meanwhile. */
  datatype System = System(nodes: map<NodeId, IndexState>, sent: set<Entry>, flight: map<NodeId, set<Entry>>)

  function InFlight(s: System, n: NodeId): set<Entry> {
    if n in s.flight then s.flight[n] else {}
  }

  datatype Action =
    | Change(node: NodeId, op: LocalOp)
    | Announce(node: NodeId)
    /** Classified, and adopted at once. */
    | Deliver(node: NodeId, entry: Entry)
    /** Classified: what comes of it is wanted. */
    | Accept(node: NodeId, entry: Entry)
    /** A wanted entry's commit is reported: the index adopts it, or refuses what no longer covers
        its record. */
    | Land(node: NodeId, wanted: Entry)
    | Abandon(node: NodeId, wanted: Entry)
    /** Wants at reverted paths were classified against records that are gone; they go too. */
    | Revert(node: NodeId)

  ghost predicate Initial(s: System) {
    s.sent == {} && s.flight == map[] && forall n :: n in s.nodes ==> s.nodes[n] == Empty(n, s.nodes[n].host)
  }

  /** A deny bumps over quarantined versions, each of which was received and so once sent. */
  ghost predicate BumpsOverSent(sent: set<Entry>, op: LocalOp) {
    op.Denied? ==> exists held: seq<Entry> ::
      && (forall i :: 0 <= i < |held| ==> held[i] in sent && held[i].path == op.path)
      && op.over == VersionsOf(held) && op.overStamp == MaxStamp(held)
  }

  function VersionsOf(held: seq<Entry>): seq<Version> {
    seq(|held|, i requires 0 <= i < |held| => held[i].version)
  }

  function StampsOf(held: seq<Entry>): seq<int> {
    seq(|held|, i requires 0 <= i < |held| => held[i].stamp)
  }

  function MaxStamp(held: seq<Entry>): Option<int> {
    Largest(StampsOf(held))
  }

  ghost predicate Enabled(s: System, a: Action) {
    a.node in s.nodes &&
    match a
    case Change(_, op) => BumpsOverSent(s.sent, op)
    case Deliver(_, e) => e in s.sent
    case Accept(_, e) => e in s.sent
    case Land(n, m) => m in InFlight(s, n)
    case _ => true
  }

  /** The records a batch would carry, local changes and adopted records alike. */
  function BatchEntries(s: IndexState): set<Entry> {
    set r | r in Unannounced(s) :: r.entry
  }

  function Step(s: System, a: Action): System
    requires a.node in s.nodes
  {
    var st := s.nodes[a.node];
    match a
    case Change(n, op) => s.(nodes := s.nodes[n := Apply(st, op)])
    case Announce(n) =>
      s.(nodes := s.nodes[n := MarkAnnounced(st)], sent := s.sent + BatchEntries(st))
    case Deliver(n, e) => s.(nodes := s.nodes[n := Receive(st, e)])
    case Accept(n, e) => s.(flight := s.flight[n := InFlight(s, n) + Wanted(st, e)])
    case Land(n, m) =>
      s.(nodes := if Adoptable(st, m) then s.nodes[n := Adopt(st, m)] else s.nodes,
         flight := s.flight[n := InFlight(s, n) - {m}])
    case Abandon(n, m) => s.(flight := s.flight[n := InFlight(s, n) - {m}])
    case Revert(n) =>
      s.(nodes := s.nodes[n := RevertPending(st)],
         flight := s.flight[n := set m | m in InFlight(s, n) && m.path !in st.pending])
  }

  function Wanted(st: IndexState, e: Entry): set<Entry> {
    match ClassifyEntry(st, e).item case None => {} case Some(item) => {item.entry}
  }

  ghost predicate CanRun(s: System, actions: seq<Action>)
    decreases |actions|
  {
    actions == [] || (Enabled(s, actions[0]) && CanRun(Step(s, actions[0]), actions[1..]))
  }

  ghost function Exec(s: System, actions: seq<Action>): System
    requires CanRun(s, actions)
    decreases |actions|
  {
    if actions == [] then s else Exec(Step(s, actions[0]), actions[1..])
  }

  /** Held by some machine, kept in one of its pending rows, wanted by it, or ever sent. */
  ghost predicate Exists(s: System, e: Entry) {
    || e in s.sent
    || (exists n :: n in s.nodes && e in InFlight(s, n))
    || exists n, p :: n in s.nodes && At(s.nodes[n], p, e)
  }

  ghost predicate At(s: IndexState, p: RelPath, e: Entry) {
    || (p in s.records && s.records[p].entry == e)
    || (p in s.pending && s.pending[p].announced.Some? && s.pending[p].announced.value.entry == e)
  }

  // The invariant. A log gives each (path, node, counter) the change made under it; a record is
  // the greatest, in the winner order, of the changes its vector covers.

  datatype Event = Event(path: RelPath, node: NodeId, count: nat)

  type Log = map<Event, Entry>

  ghost predicate Covers(e: Entry, ev: Event) {
    ev.path == e.path && 1 <= ev.count <= Counter(e.version, ev.node)
  }

  ghost predicate Bounds(e: Entry, log: Log, ev: Event) {
    ev in log && log[ev].path == e.path && AtLeast(e, log[ev])
  }

  ghost predicate Justified(e: Entry, log: Log) {
    && (forall ev :: Covers(e, ev) ==> Bounds(e, log, ev))
    && (exists ev :: Covers(e, ev) && ev in log && SameFields(log[ev], e))
  }

  /** How far node `n`'s own counter at `p` may have been seen by others. */
  function Seen(s: System, n: NodeId, p: RelPath): nat
    requires n in s.nodes
  {
    Counter(VersionOf(s.nodes[n].Base(p)), n)
  }

  /** No counter of `e` is beyond what its node has let others see; `except` is `e`'s holder,
      whose own counter may still be unannounced. */
  ghost predicate BoundedBySeen(s: System, e: Entry, except: Option<NodeId>) {
    forall n :: n in s.nodes && Some(n) != except ==> Counter(e.version, n) <= Seen(s, n, e.path)
  }

  /** What holds of one node, over any property `J` of records. */
  ghost predicate NodeInv(s: System, J: Entry -> bool, n: NodeId)
    requires n in s.nodes
  {
    var st := s.nodes[n];
    && st.own == n && Valid(st)
    && (forall p, e :: At(st, p, e) ==> J(e) && BoundedBySeen(s, e, Some(n)))
    && Ahead(s, n) && BaseSent(s, n)
  }

  /** A pending record's own counter is past what others have seen. */
  ghost predicate Ahead(s: System, n: NodeId)
    requires n in s.nodes
  {
    forall p :: p in s.nodes[n].pending && p in s.nodes[n].records ==>
      Counter(s.nodes[n].records[p].entry.version, n) > Seen(s, n, p)
  }

  /** What a node stands by as announced was sent. */
  ghost predicate BaseSent(s: System, n: NodeId)
    requires n in s.nodes
  {
    var st := s.nodes[n];
    forall p :: st.Base(p).Some? && st.Base(p).value.seqNo <= st.announcedSeq
      ==> st.Base(p).value.entry in s.sent
  }

  ghost predicate SentInv(s: System, J: Entry -> bool) {
    forall e :: e in s.sent ==> J(e) && BoundedBySeen(s, e, None)
  }

  ghost predicate Inv(s: System, J: Entry -> bool) {
    SentInv(s, J) && forall n :: n in s.nodes ==> NodeInv(s, J, n)
  }

  /** What a machine wants is justified like a record, and no further ahead than its record is: a
      change it folds in is there still, or others have seen it. */
  ghost predicate FlightInv(s: System, J: Entry -> bool) {
    forall n, m :: n in s.nodes && m in InFlight(s, n) ==> Flies(s, J, n, m)
  }

  ghost predicate Flies(s: System, J: Entry -> bool, n: NodeId, m: Entry)
    requires n in s.nodes
  {
    J(m) && BoundedBySeen(s, m, Some(n)) && Counter(m.version, n) <= OwnCounter(s, n, m.path)
  }

  function OwnCounter(s: System, n: NodeId, p: RelPath): nat
    requires n in s.nodes
  {
    Counter(VersionOf(s.nodes[n].Get(p)), n)
  }

  ghost predicate Whole(s: System, J: Entry -> bool) {
    Inv(s, J) && FlightInv(s, J)
  }

  // Justified records.

  /** The heart of the claim: two justified records of one path with one vector are one record. */
  lemma JustifiedUnique(x: Entry, y: Entry, log: Log)
    requires Justified(x, log) && Justified(y, log)
    requires x.path == y.path && x.version == y.version
    ensures x == y
  {
    var ex :| Covers(x, ex) && ex in log && SameFields(log[ex], x);
    var ey :| Covers(y, ey) && ey in log && SameFields(log[ey], y);
    assert Bounds(y, log, ex) && Bounds(x, log, ey);
    assert AtLeast(y, x) && AtLeast(x, y);
    AtLeastAntisymmetric(x, y);
  }

  /** Reusing a counter nobody has seen leaves every other record justified. */
  lemma JustifiedFrame(e: Entry, log: Log, ev: Event, x: Entry)
    requires Justified(e, log) && !Covers(e, ev)
    ensures Justified(e, log[ev := x])
  {
    var w :| Covers(e, w) && w in log && SameFields(log[w], e);
    assert Covers(e, w) && w in log[ev := x] && SameFields(log[ev := x][w], e);
    forall v | Covers(e, v) ensures Bounds(e, log[ev := x], v) {
      assert Bounds(e, log, v);
    }
  }

  /** A resolved pair is justified: its vector covers exactly what either covered. */
  lemma JustifiedMerge(a: Entry, b: Entry, log: Log)
    requires Justified(a, log) && Justified(b, log) && a.path == b.path
    ensures Justified(Resolve(a, b).merged, log)
  {
    var m := Resolve(a, b).merged;
    ResolveDominates(a, b);
    MergeLaws(a.version, b.version);
    assert m.version == Merge(a.version, b.version);
    hide Resolve, AtLeast, Merge;
    forall ev | Covers(m, ev) ensures Bounds(m, log, ev) {
      CounterMerge(a.version, b.version, ev.node);
      var x := if Covers(a, ev) then a else b;
      assert Bounds(x, log, ev);
      AtLeastTransitive(m, x, log[ev]);
    }
    var x := if SameFields(m, a) then a else b;
    var w :| Covers(x, w) && w in log && SameFields(log[w], x);
    CounterMerge(a.version, b.version, w.node);
    assert Covers(m, w) && w in log && SameFields(log[w], m);
  }

  /** A new change is justified by its own event: its stamp is past everything it covers. */
  lemma JustifiedChange(e: Entry, base: Option<IndexRecord>, held: seq<Entry>, n: NodeId, log: Log)
    requires base.Some? ==> RanksAbove(e, base.value.entry, log)
    requires forall i :: 0 <= i < |held| ==> RanksAbove(e, held[i], log)
    requires e.version == Incremented(MergeAll(VersionOf(base), VersionsOf(held)), n)
    ensures Justified(e, log[Event(e.path, n, Counter(e.version, n)) := e])
  {
    var own := Event(e.path, n, Counter(e.version, n));
    var log' := log[own := e];
    var m := MergeAll(VersionOf(base), VersionsOf(held));
    IncrementDominates(m, n);
    AtLeastTotal(e, e);
    assert Covers(e, own) && own in log' && SameFields(log'[own], e);
    forall ev | Covers(e, ev) ensures Bounds(e, log', ev) {
      if ev != own {
        assert 1 <= ev.count <= Counter(m, ev.node);
        CounterMergeAll(VersionOf(base), VersionsOf(held), ev.node);
        if Counter(m, ev.node) == Counter(VersionOf(base), ev.node) {
          RankAboveCovered(e, base.value.entry, log, ev);
        } else {
          var i :| 0 <= i < |held| && Counter(m, ev.node) == Counter(VersionsOf(held)[i], ev.node);
          RankAboveCovered(e, held[i], log, ev);
        }
      }
    }
  }

  /** `x` is a justified record of `e`'s path with a smaller stamp. */
  ghost predicate RanksAbove(e: Entry, x: Entry, log: Log) {
    Justified(x, log) && x.path == e.path && e.stamp > x.stamp
  }

  lemma RankAboveCovered(e: Entry, x: Entry, log: Log, ev: Event)
    requires RanksAbove(e, x, log) && Covers(x, ev)
    ensures Bounds(e, log, ev)
  {
    assert Bounds(x, log, ev);
  }

  lemma {:induction false} MaxStampBounds(held: seq<Entry>)
    ensures MaxStamp(held).None? <==> held == []
    ensures forall i :: 0 <= i < |held| ==> MaxStamp(held).Some? && held[i].stamp <= MaxStamp(held).value
    decreases |held|
  {
    if held != [] {
      assert StampsOf(held)[1..] == StampsOf(held[1..]);
      MaxStampBounds(held[1..]);
      forall i | 0 <= i < |held| ensures held[i].stamp <= MaxStamp(held).value {
        if i > 0 { assert held[i] == held[1..][i - 1]; }
      }
    }
  }

  // Every step keeps the invariant.

  /** The other nodes: nothing of theirs changes, and others only see more. */
  lemma OthersKeep(s: System, t: System, J: Entry -> bool, K: Entry -> bool, n: NodeId, m: NodeId)
    requires m in s.nodes && m != n && NodeInv(s, J, m)
    requires t.nodes.Keys == s.nodes.Keys && t.nodes[m] == s.nodes[m] && s.sent <= t.sent
    requires forall k, p :: k in s.nodes ==> Seen(s, k, p) <= Seen(t, k, p)
    requires forall p, e :: At(s.nodes[m], p, e) ==> K(e)
    ensures NodeInv(t, K, m)
  {
    assert forall p :: Seen(s, m, p) == Seen(t, m, p);
  }

  lemma RevertKeeps(s: System, J: Entry -> bool, n: NodeId)
    requires Inv(s, J) && n in s.nodes
    ensures Inv(Step(s, Revert(n)), J)
  {
    var t := Step(s, Revert(n));
    var st, st' := s.nodes[n], t.nodes[n];
    assert NodeInv(s, J, n);
    RevertValid(st);
    BaseNeedsRecord(st);
    assert forall p :: st'.Base(p) == st.Base(p);
    assert forall m, p :: m in s.nodes ==> Seen(t, m, p) == Seen(s, m, p);
    forall p, e | At(st', p, e) ensures J(e) && BoundedBySeen(t, e, Some(n)) {
      assert At(st, p, e);
      assert BoundedBySeen(s, e, Some(n));
    }
    assert NodeInv(t, J, n);
    forall m | m in t.nodes && m != n ensures NodeInv(t, J, m) {
      OthersKeep(s, t, J, J, n, m);
    }
  }

  lemma AnnounceKeeps(s: System, J: Entry -> bool, n: NodeId)
    requires Inv(s, J) && n in s.nodes
    ensures Inv(Step(s, Announce(n)), J)
  {
    var t := Step(s, Announce(n));
    var st, st' := s.nodes[n], t.nodes[n];
    assert NodeInv(s, J, n);
    MarkValid(st);
    SeenGrows(s, J, n);
    forall e | e in t.sent ensures J(e) && BoundedBySeen(t, e, None) {
      if e !in s.sent {
        var p := BatchEntryAt(st, e);
        assert At(st, p, e);
        assert Seen(t, n, p) == Counter(e.version, n);
      }
    }
    forall p, e | At(st', p, e) ensures J(e) && BoundedBySeen(t, e, Some(n)) {
      assert At(st, p, e);
      assert BoundedBySeen(s, e, Some(n));
    }
    AnnouncedBaseSent(s, J, n);
    forall m | m in t.nodes && m != n ensures NodeInv(t, J, m) {
      OthersKeep(s, t, J, J, n, m);
    }
  }

  lemma BatchEntryAt(st: IndexState, e: Entry) returns (p: RelPath)
    requires Valid(st) && e in BatchEntries(st)
    ensures p in st.records && st.records[p].entry == e && e.path == p
  {
    var r :| r in Unannounced(st) && r.entry == e;
    p :| p in st.records && st.records[p] == r;
    assert RecordAt(st, p, r);
  }

  lemma AnnouncedBaseSent(s: System, J: Entry -> bool, n: NodeId)
    requires Inv(s, J) && n in s.nodes
    ensures BaseSent(Step(s, Announce(n)), n)
  {
    var st, t := s.nodes[n], Step(s, Announce(n));
    assert NodeInv(s, J, n);
    forall p | p in st.records ensures st.records[p].entry in t.sent {
      var r := st.records[p];
      if r.seqNo > st.announcedSeq {
        assert r in Unannounced(st);
      } else {
        assert p in st.pending ==> PendingAt(st, p, st.pending[p]);
        assert st.Base(p) == Some(r);
      }
    }
  }

  /** Announcing shows others every own counter. */
  lemma SeenGrows(s: System, J: Entry -> bool, n: NodeId)
    requires Inv(s, J) && n in s.nodes
    ensures forall m, p :: m in s.nodes ==> Seen(s, m, p) <= Seen(Step(s, Announce(n)), m, p)
  {
    assert NodeInv(s, J, n);
    var t := Step(s, Announce(n));
    forall m, p | m in s.nodes ensures Seen(s, m, p) <= Seen(t, m, p) {
      if m == n && p in s.nodes[n].pending {
        assert t.nodes[n].Base(p) == s.nodes[n].Get(p);
      }
    }
  }

  lemma DeliverKeeps(s: System, log: Log, n: NodeId, e: Entry)
    requires Inv(s, By(log)) && n in s.nodes && e in s.sent
    ensures Inv(Step(s, Deliver(n, e)), By(log))
  {
    var st := s.nodes[n];
    var c := ClassifyEntry(st, e).item;
    assert NodeInv(s, By(log), n);
    ItemDominates(st, e);
    if c.None? {
      assert Step(s, Deliver(n, e)) == s;
    } else {
      ItemJustified(s, log, n, e);
      AdoptKeeps(s, By(log), n, c.value.entry);
    }
  }

  ghost function By(log: Log): Entry -> bool {
    e => Justified(e, log)
  }

  lemma ItemJustified(s: System, log: Log, n: NodeId, e: Entry)
    requires Inv(s, By(log)) && n in s.nodes && e in s.sent
    requires ClassifyEntry(s.nodes[n], e).item.Some?
    ensures var m := ClassifyEntry(s.nodes[n], e).item.value.entry;
            Justified(m, log) && BoundedBySeen(s, m, Some(n))
  {
    hide Justified;
    var st := s.nodes[n];
    var m := ClassifyEntry(st, e).item.value.entry;
    assert NodeInv(s, By(log), n);
    ItemDominates(st, e);
    if st.Get(e.path).Some? {
      var l := st.records[e.path].entry;
      assert At(st, e.path, l) && RecordAt(st, e.path, st.records[e.path]);
      assert By(log)(l) && By(log)(e);
      ItemOfJustified(st, l, e, log);
      forall k | k in s.nodes && k != n ensures Counter(m.version, k) <= Seen(s, k, m.path) {
        CounterMerge(l.version, e.version, k);
      }
    } else {
      assert By(log)(e);
    }
  }

  lemma ItemOfJustified(st: IndexState, l: Entry, e: Entry, log: Log)
    requires Justified(l, log) && Justified(e, log) && l.path == e.path
    requires st.Get(e.path).Some? && st.records[e.path].entry == l && ClassifyEntry(st, e).item.Some?
    ensures Justified(ClassifyEntry(st, e).item.value.entry, log)
  {
    if Compare(e.version, l.version) == Concurrent {
      MergedItem(st, l, e);
      JustifiedMerge(e, l, log);
    }
  }

  lemma AdoptKeeps(s: System, J: Entry -> bool, n: NodeId, m: Entry)
    requires Inv(s, J) && n in s.nodes
    requires J(m) && BoundedBySeen(s, m, Some(n)) && Adoptable(s.nodes[n], m)
    ensures Inv(s.(nodes := s.nodes[n := Adopt(s.nodes[n], m)]), J)
  {
    var t := s.(nodes := s.nodes[n := Adopt(s.nodes[n], m)]);
    AdoptSeen(s, J, n, m);
    AdoptedNode(s, J, n, m);
    forall x | x in s.sent ensures BoundedBySeen(t, x, None) {
      assert BoundedBySeen(s, x, None);
    }
    forall k | k in t.nodes && k != n ensures NodeInv(t, J, k) {
      OthersKeep(s, t, J, J, n, k);
    }
  }

  lemma AdoptedNode(s: System, J: Entry -> bool, n: NodeId, m: Entry)
    requires n in s.nodes && NodeInv(s, J, n)
    requires J(m) && BoundedBySeen(s, m, Some(n)) && Adoptable(s.nodes[n], m)
    ensures NodeInv(s.(nodes := s.nodes[n := Adopt(s.nodes[n], m)]), J, n)
  {
    var t := s.(nodes := s.nodes[n := Adopt(s.nodes[n], m)]);
    var st, st' := s.nodes[n], t.nodes[n];
    AdoptValid(st, m);
    AdoptSeen(s, J, n, m);
    forall p, e | At(st', p, e) ensures J(e) && BoundedBySeen(t, e, Some(n)) {
      assert At(st, p, e) || e == m;
      assert BoundedBySeen(s, e, Some(n));
    }
    forall p ensures p != m.path ==> st'.Base(p) == st.Base(p) {
    }
    assert st'.Base(m.path) == Some(IndexRecord(m, st.seqNo + 1));
  }

  lemma AdoptSeen(s: System, J: Entry -> bool, n: NodeId, m: Entry)
    requires n in s.nodes && NodeInv(s, J, n) && Adoptable(s.nodes[n], m)
    ensures forall k, p :: k in s.nodes ==>
              Seen(s, k, p) <= Seen(s.(nodes := s.nodes[n := Adopt(s.nodes[n], m)]), k, p)
  {
    var st := s.nodes[n];
    BaseNeedsRecord(st);
    if m.path in st.records {
      LeqCounter(st.records[m.path].entry.version, m.version);
      assert m.path in st.pending ==>
        Counter(st.records[m.path].entry.version, n) > Seen(s, n, m.path);
    }
  }

  // Local changes.

  /** The held entries a change's vector folds in: those a deny bumps over. */
  ghost function HeldOf(s: System, op: LocalOp): (held: seq<Entry>)
    requires BumpsOverSent(s.sent, op)
    ensures forall i :: 0 <= i < |held| ==> held[i] in s.sent && held[i].path == op.path
    ensures if op.Denied? then op.over == VersionsOf(held) && op.overStamp == MaxStamp(held)
            else held == []
  {
    if op.Denied? then
      var held: seq<Entry> :|
        (forall i :: 0 <= i < |held| ==> held[i] in s.sent && held[i].path == op.path)
        && op.over == VersionsOf(held) && op.overStamp == MaxStamp(held);
      held
    else []
  }

  lemma ChangeShape(st: IndexState, op: LocalOp, held: seq<Entry>)
    requires Valid(st) && EntryOf(st, op).Some?
    requires if op.Denied? then op.over == VersionsOf(held) && op.overStamp == MaxStamp(held)
             else held == []
    ensures var e := EntryOf(st, op).value;
            && e.path == op.path
            && e.version == Incremented(MergeAll(VersionOf(st.Get(op.path)), VersionsOf(held)), st.own)
            && (st.Get(op.path).Some? ==> e.stamp > st.records[op.path].entry.stamp)
            && (forall i :: 0 <= i < |held| ==> e.stamp > held[i].stamp)
  {
    EntryOfFacts(st, op);
    MaxStampBounds(held);
    if !op.Denied? { assert VersionsOf(held) == []; }
  }

  /** A change's own counter is one past the record's: what it bumps over reaches no further. */
  lemma ChangeCounter(s: System, J: Entry -> bool, n: NodeId, op: LocalOp, held: seq<Entry>)
    requires Inv(s, J) && n in s.nodes
    requires forall i :: 0 <= i < |held| ==> held[i] in s.sent && held[i].path == op.path
    ensures var m := MergeAll(VersionOf(s.nodes[n].Get(op.path)), VersionsOf(held));
            && Counter(m, n) == Counter(VersionOf(s.nodes[n].Get(op.path)), n)
            && Seen(s, n, op.path) <= Counter(m, n)
            && (forall k :: k in s.nodes && k != n ==> Counter(m, k) <= Seen(s, k, op.path))
  {
    var st := s.nodes[n];
    assert NodeInv(s, J, n);
    BaseNeedsRecord(st);
    var base := VersionOf(st.Get(op.path));
    var m := MergeAll(base, VersionsOf(held));
    assert Seen(s, n, op.path) <= Counter(base, n);
    if st.Get(op.path).Some? {
      assert RecordAt(st, op.path, st.records[op.path]);
      assert At(st, op.path, st.records[op.path].entry);
    }
    forall k | k in s.nodes ensures k != n ==> Counter(m, k) <= Seen(s, k, op.path)
      ensures k == n ==> Counter(m, n) == Counter(base, n)
    {
      CounterMergeAll(base, VersionsOf(held), k);
      if Counter(m, k) != Counter(base, k) {
        var i :| 0 <= i < |held| && Counter(m, k) == Counter(VersionsOf(held)[i], k);
        assert BoundedBySeen(s, held[i], None);
      }
    }
  }

  /** The write `op` makes at node `n` is above everything seen: `K` holds of its entry, and of
      every record that does not cover its event. */
  ghost predicate FreshWrite(s: System, J: Entry -> bool, K: Entry -> bool, n: NodeId, op: LocalOp)
    requires n in s.nodes && EntryOf(s.nodes[n], op).Some?
  {
    var e := EntryOf(s.nodes[n], op).value;
    && e.path == op.path && K(e) && BoundedBySeen(s, e, Some(n))
    && Counter(e.version, n) > Counter(VersionOf(s.nodes[n].Get(op.path)), n)
    && Counter(e.version, n) > Seen(s, n, e.path)
    && (forall x :: J(x) && !Covers(x, OwnEvent(e, n)) ==> K(x))
  }

  ghost function OwnEvent(e: Entry, n: NodeId): Event {
    Event(e.path, n, Counter(e.version, n))
  }

  lemma WrittenCounters(s: System, J: Entry -> bool, K: Entry -> bool, n: NodeId, op: LocalOp)
    requires n in s.nodes && NodeInv(s, J, n) && EntryOf(s.nodes[n], op).Some? && FreshWrite(s, J, K, n, op)
    ensures var t := Step(s, Change(n, op));
            forall k, p :: k in s.nodes ==>
              Seen(t, k, p) == Seen(s, k, p) && OwnCounter(s, k, p) <= OwnCounter(t, k, p)
  {
    var t := Step(s, Change(n, op));
    ApplyKeeps(s.nodes[n], op);
    assert forall p :: Seen(t, n, p) == Seen(s, n, p);
    forall p ensures OwnCounter(s, n, p) <= OwnCounter(t, n, p) {
      assert p != op.path ==> t.nodes[n].Get(p) == s.nodes[n].Get(p);
    }
  }

  lemma WriteKeeps(s: System, J: Entry -> bool, K: Entry -> bool, n: NodeId, op: LocalOp)
    requires Inv(s, J) && n in s.nodes && EntryOf(s.nodes[n], op).Some?
    requires FreshWrite(s, J, K, n, op)
    ensures Inv(Step(s, Change(n, op)), K)
  {
    hide EntryOf, Apply;
    var t := Step(s, Change(n, op));
    var ev := OwnEvent(EntryOf(s.nodes[n], op).value, n);
    assert NodeInv(s, J, n);
    WrittenCounters(s, J, K, n, op);
    WrittenNode(s, J, K, n, op);
    forall x | x in s.sent ensures K(x) && BoundedBySeen(t, x, None) {
      assert BoundedBySeen(s, x, None);
      assert !Covers(x, ev);
    }
    forall k | k in t.nodes && k != n ensures NodeInv(t, K, k) {
      forall p, x | At(s.nodes[k], p, x) ensures K(x) {
        assert NodeInv(s, J, k);
        assert BoundedBySeen(s, x, Some(k));
        assert !Covers(x, ev);
      }
      OthersKeep(s, t, J, K, n, k);
    }
  }

  lemma WrittenOld(st: IndexState, op: LocalOp, p: RelPath, x: Entry)
    requires EntryOf(st, op).Some? && At(Apply(st, op), p, x)
    ensures x == EntryOf(st, op).value || At(st, p, x)
  {
    hide EntryOf;
  }

  lemma WrittenRecord(st: IndexState, op: LocalOp)
    requires EntryOf(st, op).Some?
    ensures var e := EntryOf(st, op).value;
            && e.path in Apply(st, op).records && Apply(st, op).records[e.path].entry == e
            && (forall p :: p != e.path ==> Apply(st, op).Get(p) == st.Get(p))
            && (forall p :: p != e.path && p in Apply(st, op).pending ==> p in st.pending)
  {
    hide EntryOf;
  }

  /** What the machine holds after the change: the new entry, or what it held, which others see no
      less of. */
  lemma WrittenAt(s: System, J: Entry -> bool, K: Entry -> bool, n: NodeId, op: LocalOp, p: RelPath, x: Entry)
    requires n in s.nodes && NodeInv(s, J, n) && EntryOf(s.nodes[n], op).Some?
    requires FreshWrite(s, J, K, n, op) && At(Step(s, Change(n, op)).nodes[n], p, x)
    ensures K(x) && BoundedBySeen(Step(s, Change(n, op)), x, Some(n))
  {
    hide EntryOf, Apply, Valid, At, Ahead, BaseSent;
    var st := s.nodes[n];
    var e := EntryOf(st, op).value;
    WrittenCounters(s, J, K, n, op);
    WrittenOld(st, op, p, x);
    if x != e {
      assert BoundedBySeen(s, x, Some(n));
      OwnDoesNotCover(st, p, x, OwnEvent(e, n));
    }
  }

  lemma WrittenNode(s: System, J: Entry -> bool, K: Entry -> bool, n: NodeId, op: LocalOp)
    requires n in s.nodes && NodeInv(s, J, n) && EntryOf(s.nodes[n], op).Some?
    requires FreshWrite(s, J, K, n, op)
    ensures NodeInv(Step(s, Change(n, op)), K, n)
  {
    hide EntryOf, Apply, Valid, At, BoundedBySeen;
    var t := Step(s, Change(n, op));
    var st, st' := s.nodes[n], t.nodes[n];
    ApplyKeeps(st, op);
    WrittenCounters(s, J, K, n, op);
    WrittenRecord(st, op);
    forall p, x | At(st', p, x) ensures K(x) && BoundedBySeen(t, x, Some(n)) {
      WrittenAt(s, J, K, n, op, p, x);
    }
    assert forall p :: st'.Get(p) == st.Get(p) && p in st'.records ==>
      p in st.records && st'.records[p] == st.records[p];
  }

  lemma OwnDoesNotCover(st: IndexState, p: RelPath, x: Entry, ev: Event)
    requires Valid(st) && At(st, p, x) && ev.node == st.own
    requires ev.count > Counter(VersionOf(st.Get(ev.path)), ev.node)
    requires ev.count > Counter(VersionOf(st.Base(ev.path)), ev.node)
    ensures !Covers(x, ev)
  {
    assert p in st.records ==> RecordAt(st, p, st.records[p]);
    assert p in st.pending ==> PendingAt(st, p, st.pending[p]);
  }

  lemma ChangeKeeps(s: System, log: Log, n: NodeId, op: LocalOp) returns (log': Log)
    requires Whole(s, By(log)) && n in s.nodes && BumpsOverSent(s.sent, op)
    ensures Whole(Step(s, Change(n, op)), By(log'))
  {
    var st := s.nodes[n];
    if EntryOf(st, op).None? {
      log' := log;
      assert Step(s, Change(n, op)) == s;
    } else {
      var e := EntryOf(st, op).value;
      log' := log[OwnEvent(e, n) := e];
      ChangeFresh(s, log, n, op, HeldOf(s, op));
      WriteKeeps(s, By(log), By(log'), n, op);
      ChangeFlights(s, By(log), By(log'), n, op);
    }
  }

  lemma ChangeFresh(s: System, log: Log, n: NodeId, op: LocalOp, held: seq<Entry>)
    requires Inv(s, By(log)) && n in s.nodes && EntryOf(s.nodes[n], op).Some?
    requires forall i :: 0 <= i < |held| ==> held[i] in s.sent && held[i].path == op.path
    requires if op.Denied? then op.over == VersionsOf(held) && op.overStamp == MaxStamp(held)
             else held == []
    ensures var e := EntryOf(s.nodes[n], op).value;
            FreshWrite(s, By(log), By(log[OwnEvent(e, n) := e]), n, op)
  {
    var st := s.nodes[n];
    var e := EntryOf(st, op).value;
    assert NodeInv(s, By(log), n);
    ChangeShape(st, op, held);
    ChangeCounter(s, By(log), n, op, held);
    IncrementDominates(MergeAll(VersionOf(st.Get(op.path)), VersionsOf(held)), n);
    ChangeJustified(s, log, n, op, held);
    FrameAll(log, OwnEvent(e, n), e);
  }

  lemma FrameAll(log: Log, ev: Event, e: Entry)
    ensures forall x :: By(log)(x) && !Covers(x, ev) ==> By(log[ev := e])(x)
  {
    forall x | By(log)(x) && !Covers(x, ev) ensures By(log[ev := e])(x) {
      JustifiedFrame(x, log, ev, e);
    }
  }

  lemma ChangeJustified(s: System, log: Log, n: NodeId, op: LocalOp, held: seq<Entry>)
    requires Inv(s, By(log)) && n in s.nodes && EntryOf(s.nodes[n], op).Some?
    requires forall i :: 0 <= i < |held| ==> held[i] in s.sent && held[i].path == op.path
    requires if op.Denied? then op.over == VersionsOf(held) && op.overStamp == MaxStamp(held)
             else held == []
    ensures var e := EntryOf(s.nodes[n], op).value;
            Justified(e, log[OwnEvent(e, n) := e])
  {
    var st := s.nodes[n];
    assert NodeInv(s, By(log), n);
    ChangeShape(st, op, held);
    var e := EntryOf(st, op).value;
    if st.Get(op.path).Some? {
      var b := st.records[op.path].entry;
      assert At(st, op.path, b) && RecordAt(st, op.path, st.records[op.path]);
      assert By(log)(b);
    }
    forall i | 0 <= i < |held| ensures RanksAbove(e, held[i], log) {
      assert By(log)(held[i]);
    }
    JustifiedChange(e, st.Get(op.path), held, n, log);
  }

  // What is wanted and not yet adopted.

  /** Nothing new is wanted, and no machine's record or what others saw of it falls back. */
  lemma FlightsKeep(s: System, t: System, J: Entry -> bool, K: Entry -> bool)
    requires FlightInv(s, J) && t.nodes.Keys == s.nodes.Keys
    requires forall n :: n in s.nodes ==> InFlight(t, n) <= InFlight(s, n)
    requires forall n, p :: n in s.nodes ==> Seen(s, n, p) <= Seen(t, n, p)
    requires forall n, m :: n in s.nodes && m in InFlight(t, n) ==> OwnCounter(s, n, m.path) <= OwnCounter(t, n, m.path)
    requires forall n, m :: n in s.nodes && m in InFlight(t, n) && Flies(s, J, n, m) ==> K(m)
    ensures FlightInv(t, K)
  {
    forall n, m | n in t.nodes && m in InFlight(t, n) ensures Flies(t, K, n, m) {
      assert Flies(s, J, n, m);
    }
  }

  lemma RevertFlights(s: System, J: Entry -> bool, n: NodeId)
    requires Whole(s, J) && n in s.nodes
    ensures FlightInv(Step(s, Revert(n)), J)
  {
    var t := Step(s, Revert(n));
    var st, st' := s.nodes[n], t.nodes[n];
    assert NodeInv(s, J, n);
    BaseNeedsRecord(st);
    assert forall p :: st'.Base(p) == st.Base(p);
    assert forall m, p :: m in s.nodes ==> Seen(t, m, p) == Seen(s, m, p);
    assert forall p :: p !in st.pending ==> st'.Get(p) == st.Get(p);
    FlightsKeep(s, t, J, J);
  }

  lemma AnnounceFlights(s: System, J: Entry -> bool, n: NodeId)
    requires Whole(s, J) && n in s.nodes
    ensures FlightInv(Step(s, Announce(n)), J)
  {
    SeenGrows(s, J, n);
    FlightsKeep(s, Step(s, Announce(n)), J, J);
  }

  lemma AdoptFlights(s: System, t: System, J: Entry -> bool, n: NodeId, m: Entry)
    requires Whole(s, J) && n in s.nodes && Adoptable(s.nodes[n], m)
    requires t.nodes == s.nodes[n := Adopt(s.nodes[n], m)]
    requires forall k :: k in s.nodes ==> InFlight(t, k) <= InFlight(s, k)
    ensures FlightInv(t, J)
  {
    assert NodeInv(s, J, n);
    AdoptSeen(s, J, n, m);
    if m.path in s.nodes[n].records {
      LeqCounter(s.nodes[n].records[m.path].entry.version, m.version);
    }
    assert forall k, p :: k in s.nodes ==>
      Seen(t, k, p) == Seen(s.(nodes := s.nodes[n := Adopt(s.nodes[n], m)]), k, p);
    FlightsKeep(s, t, J, J);
  }

  lemma DeliverFlights(s: System, log: Log, n: NodeId, e: Entry)
    requires Whole(s, By(log)) && n in s.nodes && e in s.sent
    ensures FlightInv(Step(s, Deliver(n, e)), By(log))
  {
    var st := s.nodes[n];
    var c := ClassifyEntry(st, e).item;
    assert NodeInv(s, By(log), n);
    ItemDominates(st, e);
    if c.None? {
      assert Step(s, Deliver(n, e)) == s;
    } else {
      AdoptFlights(s, Step(s, Deliver(n, e)), By(log), n, c.value.entry);
    }
  }

  /** What a delivery makes reaches no further ahead than the record it was classified against. */
  lemma AcceptedFlies(s: System, log: Log, n: NodeId, e: Entry)
    requires Whole(s, By(log)) && n in s.nodes && e in s.sent && ClassifyEntry(s.nodes[n], e).item.Some?
    ensures Flies(s, By(log), n, ClassifyEntry(s.nodes[n], e).item.value.entry)
  {
    hide Justified, FlightInv;
    var st := s.nodes[n];
    assert NodeInv(s, By(log), n);
    ItemJustified(s, log, n, e);
    ItemDominates(st, e);
    BaseNeedsRecord(st);
    assert BoundedBySeen(s, e, None);
    var local := VersionOf(st.Get(e.path));
    CounterMerge(local, e.version, n);
    BaseBelow(s, By(log), n, e.path);
  }

  lemma BaseBelow(s: System, J: Entry -> bool, n: NodeId, p: RelPath)
    requires n in s.nodes && NodeInv(s, J, n)
    ensures Seen(s, n, p) <= OwnCounter(s, n, p)
  {
    BaseNeedsRecord(s.nodes[n]);
  }

  lemma AcceptKeeps(s: System, log: Log, n: NodeId, e: Entry)
    requires Whole(s, By(log)) && n in s.nodes && e in s.sent
    ensures Whole(Step(s, Accept(n, e)), By(log))
  {
    hide Justified, ClassifyEntry;
    var t := Step(s, Accept(n, e));
    SameNodes(s, t, By(log));
    forall k, m | k in t.nodes && m in InFlight(t, k) ensures Flies(t, By(log), k, m) {
      if m !in InFlight(s, k) { AcceptedFlies(s, log, n, e); }
      assert Flies(s, By(log), k, m);
    }
  }

  lemma SameNodes(s: System, t: System, J: Entry -> bool)
    requires Inv(s, J) && t.nodes == s.nodes && t.sent == s.sent
    ensures Inv(t, J)
  {
    forall n | n in t.nodes ensures NodeInv(t, J, n) {
      assert NodeInv(s, J, n);
    }
    forall e | e in t.sent ensures BoundedBySeen(t, e, None) {
      assert BoundedBySeen(s, e, None);
    }
  }

  lemma LandKeeps(s: System, J: Entry -> bool, n: NodeId, m: Entry)
    requires Whole(s, J) && n in s.nodes && m in InFlight(s, n)
    ensures Whole(Step(s, Land(n, m)), J)
  {
    hide Inv;
    var t := Step(s, Land(n, m));
    assert Flies(s, J, n, m);
    if Adoptable(s.nodes[n], m) {
      AdoptKeeps(s, J, n, m);
      SameNodes(s.(nodes := s.nodes[n := Adopt(s.nodes[n], m)]), t, J);
      AdoptFlights(s, t, J, n, m);
    } else {
      SameNodes(s, t, J);
      FlightsKeep(s, t, J, J);
    }
  }

  lemma AbandonKeeps(s: System, J: Entry -> bool, n: NodeId, m: Entry)
    requires Whole(s, J) && n in s.nodes
    ensures Whole(Step(s, Abandon(n, m)), J)
  {
    hide Inv;
    var t := Step(s, Abandon(n, m));
    SameNodes(s, t, J);
    FlightsKeep(s, t, J, J);
  }

  /** A local change is beyond what anything wanted covers, at any machine. */
  lemma FlightNotCovered(s: System, J: Entry -> bool, n: NodeId, e: Entry, k: NodeId, m: Entry)
    requires n in s.nodes && k in s.nodes && Flies(s, J, k, m)
    requires Counter(e.version, n) > OwnCounter(s, n, e.path) && Counter(e.version, n) > Seen(s, n, e.path)
    ensures !Covers(m, OwnEvent(e, n))
  {
  }

  lemma ChangeFlights(s: System, J: Entry -> bool, K: Entry -> bool, n: NodeId, op: LocalOp)
    requires Whole(s, J) && n in s.nodes && EntryOf(s.nodes[n], op).Some?
    requires FreshWrite(s, J, K, n, op)
    ensures FlightInv(Step(s, Change(n, op)), K)
  {
    hide EntryOf, Apply;
    var t := Step(s, Change(n, op));
    var e := EntryOf(s.nodes[n], op).value;
    assert NodeInv(s, J, n);
    WrittenCounters(s, J, K, n, op);
    forall k, m | k in s.nodes && m in InFlight(t, k) && Flies(s, J, k, m) ensures K(m) {
      FlightNotCovered(s, J, n, e, k, m);
    }
    FlightsKeep(s, t, J, K) by { hide NodeInv, SentInv, FreshWrite; }
  }

  lemma StepKeeps(s: System, log: Log, a: Action) returns (log': Log)
    requires Whole(s, By(log)) && Enabled(s, a)
    ensures Whole(Step(s, a), By(log'))
  {
    hide Inv, FlightInv;
    log' := log;
    match a
    case Change(n, op) => log' := ChangeKeeps(s, log, n, op);
    case Announce(n) =>
      AnnounceKeeps(s, By(log), n);
      AnnounceFlights(s, By(log), n);
    case Deliver(n, e) =>
      DeliverKeeps(s, log, n, e);
      DeliverFlights(s, log, n, e);
    case Accept(n, e) => AcceptKeeps(s, log, n, e);
    case Land(n, m) => LandKeeps(s, By(log), n, m);
    case Abandon(n, m) => AbandonKeeps(s, By(log), n, m);
    case Revert(n) =>
      RevertKeeps(s, By(log), n);
      RevertFlights(s, By(log), n);
  }

  lemma {:induction false} RunKeeps(s: System, log: Log, actions: seq<Action>) returns (log': Log)
    requires Whole(s, By(log)) && CanRun(s, actions)
    ensures Whole(Exec(s, actions), By(log'))
    decreases |actions|
  {
    hide Inv, FlightInv, Step;
    log' := log;
    if actions != [] {
      log' := StepKeeps(s, log, actions[0]);
      log' := RunKeeps(Step(s, actions[0]), log', actions[1..]);
    }
  }

  lemma InitialInv(s: System)
    requires Initial(s)
    ensures Whole(s, By(map[]))
  {
    forall n | n in s.nodes ensures NodeInv(s, By(map[]), n) {
      assert s.nodes[n] == Empty(n, s.nodes[n].host);
    }
  }

  /** Agreement. In every reachable state, any two records of one path with equal vectors are
      equal in every field, whether a machine holds them, keeps them in a pending row, still wants
      them, or ever sent them; although `revert` lets a machine use a discarded counter again. */
  lemma Agreement(start: System, actions: seq<Action>, x: Entry, y: Entry)
    requires Initial(start) && CanRun(start, actions)
    requires Exists(Exec(start, actions), x) && Exists(Exec(start, actions), y)
    requires x.path == y.path && x.version == y.version
    ensures x == y
  {
    InitialInv(start);
    var log := RunKeeps(start, map[], actions);
    ExistingJustified(Exec(start, actions), log, x);
    ExistingJustified(Exec(start, actions), log, y);
    JustifiedUnique(x, y, log);
  }

  lemma ExistingJustified(s: System, log: Log, e: Entry)
    requires Whole(s, By(log)) && Exists(s, e)
    ensures Justified(e, log)
  {
    if e in s.sent {
      assert By(log)(e);
    } else if n :| n in s.nodes && e in InFlight(s, n) {
      assert Flies(s, By(log), n, e);
    } else {
      var n, p :| n in s.nodes && At(s.nodes[n], p, e);
      assert NodeInv(s, By(log), n);
      assert By(log)(e);
    }
  }
}
