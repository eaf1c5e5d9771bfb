/** Taking sent entries in any order, any number of times, leads to one record. */
module Convergence {
  import opened Prelude
  import opened Versions
  import opened Paths
  import opened Entries
  import opened IndexModel
  import opened Classify
  import R = Replication

  function ReceiveAll(s: IndexState, es: seq<Entry>): IndexState
    decreases |es|
  {
    if es == [] then s else ReceiveAll(Receive(s, es[0]), es[1..])
  }

  /** The join of `v` and the vectors in `es` at `p`. */
  function JoinAt(v: Version, p: RelPath, es: seq<Entry>): Version
    decreases |es|
  {
    if es == [] then v
    else JoinAt(if es[0].path == p then Merge(v, es[0].version) else v, p, es[1..])
  }

  function EntryAt(s: IndexState, p: RelPath): Option<Entry> {
    if p in s.records then Some(s.records[p].entry) else None
  }

  /** It is the least vector above `v` and every one of them, so only which entries count. */
  lemma {:induction false} JoinIsLeast(v: Version, p: RelPath, es: seq<Entry>, w: Version)
    ensures Leq(JoinAt(v, p, es), w) <==>
              Leq(v, w) && forall e :: e in es && e.path == p ==> Leq(e.version, w)
    decreases |es|
  {
    if es != [] {
      var next := if es[0].path == p then Merge(v, es[0].version) else v;
      JoinIsLeast(next, p, es[1..], w);
      MergeIsJoin(v, es[0].version, w);
      assert forall e :: e in es <==> e == es[0] || e in es[1..];
      if Leq(next, w) && es[0].path == p {
        LeqTransitive(v, next, w);
        LeqTransitive(es[0].version, next, w);
      }
    }
  }

  lemma JoinOfSameElements(v: Version, p: RelPath, xs: seq<Entry>, ys: seq<Entry>)
    requires forall e :: e in xs <==> e in ys
    ensures JoinAt(v, p, xs) == JoinAt(v, p, ys)
  {
    var x, y := JoinAt(v, p, xs), JoinAt(v, p, ys);
    LeqCounter(x, x);
    LeqCounter(y, y);
    JoinIsLeast(v, p, xs, x);
    JoinIsLeast(v, p, ys, x);
    JoinIsLeast(v, p, xs, y);
    JoinIsLeast(v, p, ys, y);
    LeqAntisymmetric(x, y);
  }

  /** One delivery raises the vector at the entry's path to the join, and no other. */
  lemma ReceiveVersion(s: IndexState, e: Entry, p: RelPath)
    requires Valid(s)
    ensures Valid(Receive(s, e))
    ensures VersionOf(Receive(s, e).Get(p)) == JoinAt(VersionOf(s.Get(p)), p, [e])
    ensures Receive(s, e).Get(p).None? <==> s.Get(p).None? && e.path != p
  {
    ItemDominates(s, e);
    var c := ClassifyEntry(s, e).item;
    if c.Some? {
      AdoptValid(s, c.value.entry);
    } else if e.path == p {
      MergeLaws(e.version, VersionOf(s.Get(p)));
      MergeLaws(VersionOf(s.Get(p)), e.version);
    }
    var v := VersionOf(s.Get(p));
    assert [e][1..] == [];
    assert JoinAt(v, p, [e]) == if e.path == p then Merge(v, e.version) else v;
  }

  lemma {:induction false} ReceiveAllVersion(s: IndexState, es: seq<Entry>, p: RelPath)
    requires Valid(s)
    ensures Valid(ReceiveAll(s, es))
    ensures VersionOf(ReceiveAll(s, es).Get(p)) == JoinAt(VersionOf(s.Get(p)), p, es)
    ensures ReceiveAll(s, es).Get(p).None? <==> s.Get(p).None? && forall e :: e in es ==> e.path != p
    decreases |es|
  {
    if es != [] {
      ReceiveVersion(s, es[0], p);
      ReceiveAllVersion(Receive(s, es[0]), es[1..], p);
      var v := VersionOf(s.Get(p));
      assert [es[0]][1..] == [];
      assert JoinAt(v, p, [es[0]]) == if es[0].path == p then Merge(v, es[0].version) else v;
      assert forall e :: e in es <==> e == es[0] || e in es[1..];
    }
  }

  /** Deliveries keep every record justified by the same log. */
  lemma {:induction false} DeliverAll(s: R.System, log: R.Log, n: NodeId, es: seq<Entry>) returns (t: R.System)
    requires R.Inv(s, R.By(log)) && n in s.nodes
    requires forall e :: e in es ==> e in s.sent
    ensures R.Inv(t, R.By(log)) && t.nodes == s.nodes[n := ReceiveAll(s.nodes[n], es)]
    decreases |es|
  {
    hide R.Inv, Receive;
    if es == [] {
      t := s;
      assert t.nodes == s.nodes[n := s.nodes[n]];
    } else {
      R.DeliverKeeps(s, log, n, es[0]);
      assert es[0] in es;
      t := DeliverAll(R.Step(s, R.Deliver(n, es[0])), log, n, es[1..]);
    }
  }

  lemma JustifiedAfter(s: R.System, log: R.Log, n: NodeId, es: seq<Entry>, p: RelPath)
    requires R.Inv(s, R.By(log)) && n in s.nodes
    requires forall e :: e in es ==> e in s.sent
    requires p in ReceiveAll(s.nodes[n], es).records
    ensures var e := ReceiveAll(s.nodes[n], es).records[p].entry;
            e.path == p && R.Justified(e, log)
  {
    var t := DeliverAll(s, log, n, es);
    assert R.NodeInv(t, R.By(log), n);
    var e := t.nodes[n].records[p].entry;
    assert R.At(t.nodes[n], p, e);
    assert RecordAt(t.nodes[n], p, t.nodes[n].records[p]);
    assert R.By(log)(e);
  }

  /** Convergence. Let two machines of a reachable system take any collections of sent entries.
      If their joins at a path agree, so do their records there, in every field; the record's
      vector is that join. */
  lemma Converge(start: R.System, actions: seq<R.Action>, a: NodeId, b: NodeId,
                 xs: seq<Entry>, ys: seq<Entry>, p: RelPath)
    requires R.Initial(start) && R.CanRun(start, actions)
    requires a in R.Exec(start, actions).nodes && b in R.Exec(start, actions).nodes
    requires forall e :: e in xs || e in ys ==> e in R.Exec(start, actions).sent
    requires var s := R.Exec(start, actions);
             JoinAt(VersionOf(s.nodes[a].Get(p)), p, xs) == JoinAt(VersionOf(s.nodes[b].Get(p)), p, ys)
    ensures var s := R.Exec(start, actions);
            && VersionOf(ReceiveAll(s.nodes[a], xs).Get(p)) == JoinAt(VersionOf(s.nodes[a].Get(p)), p, xs)
            && EntryAt(ReceiveAll(s.nodes[a], xs), p) == EntryAt(ReceiveAll(s.nodes[b], ys), p)
  {
    R.InitialInv(start);
    var log := R.RunKeeps(start, map[], actions);
    var s := R.Exec(start, actions);
    assert R.NodeInv(s, R.By(log), a) && R.NodeInv(s, R.By(log), b);
    ReceiveAllVersion(s.nodes[a], xs, p);
    ReceiveAllVersion(s.nodes[b], ys, p);
    var x, y := EntryAt(ReceiveAll(s.nodes[a], xs), p), EntryAt(ReceiveAll(s.nodes[b], ys), p);
    if x.Some? {
      JustifiedAfter(s, log, a, xs, p);
      JustifiedNonEmpty(x.value, log);
    }
    if y.Some? {
      JustifiedAfter(s, log, b, ys, p);
      JustifiedNonEmpty(y.value, log);
    }
    if x.Some? && y.Some? {
      R.JustifiedUnique(x.value, y.value, log);
    }
  }

  lemma JustifiedNonEmpty(e: Entry, log: R.Log)
    requires R.Justified(e, log)
    ensures e.version != EMPTY
  {
    var ev :| R.Covers(e, ev) && ev in log && SameFields(log[ev], e);
  }

  /** In particular neither order nor repetition matters. */
  lemma OrderIrrelevant(start: R.System, actions: seq<R.Action>, n: NodeId, xs: seq<Entry>, ys: seq<Entry>, p: RelPath)
    requires R.Initial(start) && R.CanRun(start, actions) && n in R.Exec(start, actions).nodes
    requires forall e :: e in xs <==> e in ys
    requires forall e :: e in xs ==> e in R.Exec(start, actions).sent
    ensures var st := R.Exec(start, actions).nodes[n];
            EntryAt(ReceiveAll(st, xs), p) == EntryAt(ReceiveAll(st, ys), p)
  {
    JoinOfSameElements(VersionOf(R.Exec(start, actions).nodes[n].Get(p)), p, xs, ys);
    Converge(start, actions, n, n, xs, ys, p);
  }

  /** Along the way adoption never refuses: at every point of every delivery order, whatever
      classification emits strictly dominates the record it is to replace. */
  lemma NeverRefused(start: R.System, actions: seq<R.Action>, n: NodeId, xs: seq<Entry>, i: nat)
    requires R.Initial(start) && R.CanRun(start, actions) && n in R.Exec(start, actions).nodes
    requires i < |xs|
    ensures var st := ReceiveAll(R.Exec(start, actions).nodes[n], xs[..i]);
            var c := ClassifyEntry(st, xs[i]).item;
            c.Some? ==>
              && Adoptable(st, c.value.entry)
              && (xs[i].path in st.records ==>
                    Compare(c.value.entry.version, st.records[xs[i].path].entry.version) == Dominates)
  {
    R.InitialInv(start);
    var log := R.RunKeeps(start, map[], actions);
    var s := R.Exec(start, actions);
    assert R.NodeInv(s, R.By(log), n);
    ReceiveAllVersion(s.nodes[n], xs[..i], xs[i].path);
    ItemDominates(ReceiveAll(s.nodes[n], xs[..i]), xs[i]);
  }

  /** A machine's unannounced change is never overwritten outright: nothing sent dominates it,
      so a delivery at its path merges with it or leaves it. */
  lemma PendingNotDominated(start: R.System, actions: seq<R.Action>, n: NodeId, e: Entry)
    requires R.Initial(start) && R.CanRun(start, actions) && n in R.Exec(start, actions).nodes
    requires e in R.Exec(start, actions).sent
    ensures var st := R.Exec(start, actions).nodes[n];
            e.path in st.pending && e.path in st.records ==>
              !Leq(st.records[e.path].entry.version, e.version)
  {
    R.InitialInv(start);
    var log := R.RunKeeps(start, map[], actions);
    var s := R.Exec(start, actions);
    var st := s.nodes[n];
    assert R.NodeInv(s, R.By(log), n) && R.BoundedBySeen(s, e, None);
    if e.path in st.pending && e.path in st.records {
      LeqCounter(st.records[e.path].entry.version, e.version);
      assert Counter(e.version, n) <= R.Seen(s, n, e.path);
    }
  }

  /** Catch-up sends nothing that was not sent in a batch before: a paused folder leaks none of
      its pending changes. */
  lemma CatchUpSendsOnlySent(start: R.System, actions: seq<R.Action>, n: NodeId, after: nat, r: IndexRecord)
    requires R.Initial(start) && R.CanRun(start, actions) && n in R.Exec(start, actions).nodes
    requires r in AnnouncedSince(R.Exec(start, actions).nodes[n], after)
    ensures r.entry in R.Exec(start, actions).sent
  {
    R.InitialInv(start);
    var log := R.RunKeeps(start, map[], actions);
    var s := R.Exec(start, actions);
    assert R.NodeInv(s, R.By(log), n);
    var p :| p in s.nodes[n].records && s.nodes[n].Base(p) == Some(r)
             && r.seqNo <= s.nodes[n].announcedSeq;
  }
}
