/** Runs of the quarantine, and its rebuilding from the rows a host persisted. */
module QuarantineRuns {
  import opened Prelude
  import Orders
  import opened Versions
  import opened Paths
  import opened Entries
  import opened QuarantineModel
  import R = Replication
  import L = LocalChanges

  // Returning denied items.

  function NumberOrder(): (nat, nat) -> bool {
    (m, n) => m <= n
  }

  /** A set of numbers in order. */
  function InOrder(ns: set<nat>): (out: seq<nat>)
    ensures forall n :: n in out <==> n in ns
    ensures forall i, j :: 0 <= i < j < |out| ==> out[i] < out[j]
  {
    assert Orders.Total(NumberOrder());
    Orders.SortElements(ns, NumberOrder());
    var out := Orders.Sort(ns, NumberOrder());
    assert forall i, j :: 0 <= i < j < |out| ==> NumberOrder()(out[i], out[j]);
    out
  }

  function ReinstateAll(s: Quarantine, rows: seq<HeldRow>): Quarantine {
    if rows == [] then s else Reinstate(ReinstateAll(s, rows[..|rows| - 1]), rows[|rows| - 1])
  }

  /** The denied rows in the order of their denies. */
  function DeniedRows(s: Quarantine): (rows: seq<HeldRow>)
    ensures |rows| == |InOrder(s.denied.Keys)|
    ensures forall i :: 0 <= i < |rows| ==> rows[i] == s.denied[InOrder(s.denied.Keys)[i]]
  {
    var order := InOrder(s.denied.Keys);
    seq(|order|, i requires 0 <= i < |order| => s.denied[order[i]])
  }

  /** A revert discarded the denies' bumps: every denied item is held again. */
  function ReturnDenied(s: Quarantine): Quarantine {
    ReinstateAll(s.(denied := map[]), DeniedRows(s))
  }

  lemma {:induction false} ReinstateAllValid(s: Quarantine, rows: seq<HeldRow>)
    requires Valid(s) && forall row :: row in rows ==> RowValid(row)
    ensures Valid(ReinstateAll(s, rows)) && ReinstateAll(s, rows).denied == s.denied
    ensures forall row :: row in rows ==> row.item.batch in ReinstateAll(s, rows).items
    ensures forall b :: b in s.items ==> b in ReinstateAll(s, rows).items
  {
    if rows != [] {
      var prefix := rows[..|rows| - 1];
      var row := rows[|rows| - 1];
      ReinstateAllValid(s, prefix);
      ReinstateValid(ReinstateAll(s, prefix), row);
      ReinstateHolds(ReinstateAll(s, prefix), row);
      forall r | r in rows ensures r.item.batch in ReinstateAll(s, rows).items {
        assert r == row || r in prefix;
      }
    }
  }

  lemma ReinstateHolds(s: Quarantine, row: HeldRow)
    requires Valid(s) && RowValid(row)
    ensures row.item.batch in Reinstate(s, row).items
  {
    var b := row.item.batch;
    SortedElements(row.versions.Keys);
    var rs := RecsOfVersions(row.versions, Sorted(row.versions.Keys));
    RecordAllGrew(s, rs, b);
    RecordAllGrew(RecordAll(s, rs, b), RecsOf(row.item.entries), b);
    if b in s.items {
      RecsOfVersionsPaths(row.versions, Sorted(row.versions.Keys));
      GrewAhead(s, RecordAll(s, rs, b), b, PathsOf(rs));
      JoinAllValid(RecordAll(s, rs, b), b, EntriesOf(row.item.entries), PathsOf(rs));
    }
  }

  lemma ReturnDeniedValid(s: Quarantine)
    requires Valid(s)
    ensures Valid(ReturnDenied(s)) && ReturnDenied(s).denied == map[]
    ensures forall at :: at in s.denied ==> s.denied[at].item.batch in ReturnDenied(s).items
    ensures forall b :: b in s.items ==> b in ReturnDenied(s).items
  {
    CarriedValid(s, s.(denied := map[]));
    forall row | row in DeniedRows(s) ensures RowValid(row) {
    }
    ReinstateAllValid(s.(denied := map[]), DeniedRows(s));
    var order := InOrder(s.denied.Keys);
    forall at | at in s.denied ensures s.denied[at].item.batch in ReturnDenied(s).items {
      var i :| 0 <= i < |order| && order[i] == at;
      assert DeniedRows(s)[i] in DeniedRows(s);
    }
  }

  // Where quarantined versions come from.

  function RecsFrom(taken: set<Entry>): set<Rec> {
    set e | e in taken :: RecOf(e)
  }

  ghost predicate ItemFrom(item: HeldItem, from: set<Rec>) {
    forall p :: p in item.entries ==> RecOf(item.entries[p]) in from
  }

  ghost predicate ListFrom(p: RelPath, qs: seq<Quarantined>, from: set<Rec>) {
    forall q :: q in qs ==> Rec(p, q.version, q.stamp) in from
  }

  ghost predicate RowFrom(row: HeldRow, from: set<Rec>) {
    ItemFrom(row.item, from) && forall p :: p in row.versions ==> ListFrom(p, row.versions[p], from)
  }

  ghost predicate VersionsFrom(s: Quarantine, from: set<Rec>) {
    forall p, x :: x in s.At(p) ==> Rec(p, x.q.version, x.q.stamp) in from
  }

  /** Every version and entry, held or denied, is one of `from`. */
  ghost predicate Sourced(s: Quarantine, from: set<Rec>) {
    && VersionsFrom(s, from)
    && (forall b :: b in s.items ==> ItemFrom(s.items[b], from))
    && (forall at :: at in s.denied ==> RowFrom(s.denied[at], from))
  }

  lemma RecordSourced(s: Quarantine, r: Rec, b: BatchId, from: set<Rec>)
    requires Sourced(s, from) && r in from
    ensures Sourced(Record(s, r, b), from)
  {
    var t := Record(s, r, b);
    forall p, x | x in t.At(p) ensures Rec(p, x.q.version, x.q.stamp) in from {
      if x !in s.At(p) {
        assert p == r.path;
      }
    }
  }

  lemma {:induction false} RecordAllSourced(s: Quarantine, rs: seq<Rec>, b: BatchId, from: set<Rec>)
    requires Sourced(s, from) && forall r :: r in rs ==> r in from
    ensures Sourced(RecordAll(s, rs, b), from)
    decreases |rs|
  {
    if rs != [] {
      RecordSourced(s, rs[0], b, from);
      RecordAllSourced(Record(s, rs[0], b), rs[1..], b, from);
    }
  }

  lemma JoinSourced(s: Quarantine, b: BatchId, e: Entry, from: set<Rec>)
    requires Sourced(s, from) && b in s.items && RecOf(e) in from
    ensures Sourced(JoinEntry(s, b, e), from)
  {
    RecordSourced(s, RecOf(e), b, from);
    var t := Record(s, RecOf(e), b);
    assert forall p :: JoinEntry(s, b, e).At(p) == t.At(p);
  }

  lemma {:induction false} JoinAllSourced(s: Quarantine, b: BatchId, es: seq<Entry>, from: set<Rec>)
    requires Sourced(s, from) && b in s.items && forall e :: e in es ==> RecOf(e) in from
    ensures Sourced(JoinAll(s, b, es), from)
    decreases |es|
  {
    if es != [] {
      JoinSourced(s, b, es[0], from);
      JoinAllSourced(JoinEntry(s, b, es[0]), b, es[1..], from);
    }
  }

  lemma HoldSourced(s: Quarantine, item: HeldItem, from: set<Rec>)
    requires Sourced(s, from) && ItemFrom(item, from)
    ensures Sourced(Hold(s, item), from)
  {
    SortedElements(item.entries.Keys);
    if item.batch in s.items {
      JoinAllSourced(s, item.batch, EntriesOf(item.entries), from);
    } else {
      var t := RecordAll(s, RecsOf(item.entries), item.batch);
      RecordAllSourced(s, RecsOf(item.entries), item.batch, from);
      assert forall p :: Hold(s, item).At(p) == t.At(p);
    }
  }

  lemma {:induction false} WithoutSubset(xs: seq<Indexed>, b: BatchId)
    ensures forall x :: x in Without(xs, b) ==> x in xs
    ensures forall q :: q in Only(xs, b) ==> Indexed(b, q) in xs
  {
    if xs != [] {
      WithoutSubset(xs[1..], b);
      assert xs[0] == Indexed(xs[0].batch, xs[0].q);
    }
  }

  lemma ReleaseSourced(s: Quarantine, b: BatchId, from: set<Rec>)
    requires Sourced(s, from) && b in s.items
    ensures Sourced(Release(s, b), from)
  {
    var t := Release(s, b);
    forall p, x | x in t.At(p) ensures Rec(p, x.q.version, x.q.stamp) in from {
      WithoutSubset(s.At(p), b);
      assert x in s.At(p);
    }
  }

  lemma RowSourced(s: Quarantine, b: BatchId, from: set<Rec>)
    requires Sourced(s, from) && b in s.items
    ensures RowFrom(RowOf(s, b), from)
  {
    var row := RowOf(s, b);
    forall p | p in row.versions ensures ListFrom(p, row.versions[p], from) {
      WithoutSubset(s.At(p), b);
      forall q | q in row.versions[p] ensures Rec(p, q.version, q.stamp) in from {
        assert Indexed(b, q) in s.At(p);
      }
    }
  }

  lemma DenySourced(s: Quarantine, b: BatchId, from: set<Rec>)
    requires Sourced(s, from) && b in s.items
    ensures Sourced(Deny(s, b), from)
  {
    RowSourced(s, b, from);
    ReleaseSourced(s, b, from);
    assert forall p :: Deny(s, b).At(p) == Release(s, b).At(p);
  }

  lemma {:induction false} RecsOfVersionsFrom(versions: map<RelPath, seq<Quarantined>>, order: seq<RelPath>,
                                              from: set<Rec>)
    requires forall p :: p in order ==> p in versions && ListFrom(p, versions[p], from)
    ensures forall r :: r in RecsOfVersions(versions, order) ==> r in from
  {
    if order != [] {
      RecsOfVersionsFrom(versions, order[1..], from);
      assert ListFrom(order[0], versions[order[0]], from);
      forall r | r in RecsOfHeld(order[0], versions[order[0]]) ensures r in from {
      }
    }
  }

  lemma ReinstateSourced(s: Quarantine, row: HeldRow, from: set<Rec>)
    requires Sourced(s, from) && RowFrom(row, from)
    ensures Sourced(Reinstate(s, row), from)
  {
    SortedElements(row.versions.Keys);
    var rs := RecsOfVersions(row.versions, Sorted(row.versions.Keys));
    RecsOfVersionsFrom(row.versions, Sorted(row.versions.Keys), from);
    RecordAllSourced(s, rs, row.item.batch, from);
    HoldSourced(RecordAll(s, rs, row.item.batch), row.item, from);
  }

  lemma {:induction false} ReinstateAllSourced(s: Quarantine, rows: seq<HeldRow>, from: set<Rec>)
    requires Sourced(s, from) && forall row :: row in rows ==> RowFrom(row, from)
    ensures Sourced(ReinstateAll(s, rows), from)
  {
    if rows != [] {
      ReinstateAllSourced(s, rows[..|rows| - 1], from);
      ReinstateSourced(ReinstateAll(s, rows[..|rows| - 1]), rows[|rows| - 1], from);
    }
  }

  lemma SourcedWithout(s: Quarantine, from: set<Rec>)
    requires Sourced(s, from)
    ensures Sourced(s.(denied := map[]), from)
  {
    assert forall p :: s.(denied := map[]).At(p) == s.At(p);
  }

  function VersionsAt(s: Quarantine, p: RelPath): seq<Version> {
    seq(|s.At(p)|, i requires 0 <= i < |s.At(p)| => s.At(p)[i].q.version)
  }

  function StampsAt(s: Quarantine, p: RelPath): seq<int> {
    seq(|s.At(p)|, i requires 0 <= i < |s.At(p)| => s.At(p)[i].q.stamp)
  }

  lemma {:induction false} Originals(p: RelPath, xs: seq<Indexed>, taken: set<Entry>) returns (held: seq<Entry>)
    requires forall x :: x in xs ==> Rec(p, x.q.version, x.q.stamp) in RecsFrom(taken)
    ensures |held| == |xs|
    ensures forall i :: 0 <= i < |held| ==>
              held[i] in taken && held[i].path == p && held[i].version == xs[i].q.version
              && held[i].stamp == xs[i].q.stamp
  {
    if xs == [] {
      held := [];
    } else {
      var rest := Originals(p, xs[1..], taken);
      assert xs[0] in xs;
      var e :| e in taken && RecOf(e) == Rec(p, xs[0].q.version, xs[0].q.stamp);
      held := [e] + rest;
      assert held[1..] == rest;
    }
  }

  /** A deny over what is quarantined at a path bumps over entries that were taken in: the
      condition the replicated system puts on denies. */
  lemma DenyBumpsOverTaken(s: Quarantine, p: RelPath, taken: set<Entry>, sent: set<Entry>, at: int)
    requires Sourced(s, RecsFrom(taken)) && taken <= sent
    ensures R.BumpsOverSent(sent, L.Denied(p, VersionsAt(s, p), Largest(StampsAt(s, p)), at))
  {
    var held := Originals(p, s.At(p), taken);
    assert VersionsAt(s, p) == R.VersionsOf(held);
    assert StampsAt(s, p) == R.StampsOf(held);
  }

  // Runs.

  datatype Op =
    | Holding(item: HeldItem)
    | Joining(batch: BatchId, entry: Entry)
    | Releasing(batch: BatchId)
    | Denying(batch: BatchId)
    | Forgetting
    | Returning

  function Apply(s: Quarantine, op: Op): Quarantine {
    match op
    case Holding(item) => Hold(s, item)
    case Joining(b, e) => if b in s.items then JoinEntry(s, b, e) else s
    case Releasing(b) => if b in s.items then Release(s, b) else s
    case Denying(b) => if b in s.items then Deny(s, b) else s
    case Forgetting => ForgetDenied(s)
    case Returning => ReturnDenied(s)
  }

  /** The entries an operation brings in. */
  function Takes(op: Op): set<Entry> {
    match op
    case Holding(item) => set p | p in item.entries :: item.entries[p]
    case Joining(_, e) => {e}
    case _ => {}
  }

  function Run(s: Quarantine, ops: seq<Op>): Quarantine {
    if ops == [] then s else Apply(Run(s, ops[..|ops| - 1]), ops[|ops| - 1])
  }

  function TakenBy(ops: seq<Op>): set<Entry> {
    if ops == [] then {} else TakenBy(ops[..|ops| - 1]) + Takes(ops[|ops| - 1])
  }

  /** A held item's entries are keyed by their paths. */
  ghost predicate OpOk(op: Op) {
    op.Holding? ==> WellKeyed(op.item.entries)
  }

  lemma ApplyValid(s: Quarantine, op: Op)
    requires Valid(s) && OpOk(op)
    ensures Valid(Apply(s, op))
  {
    match op
    case Holding(item) => HoldValid(s, item);
    case Joining(b, e) => if b in s.items { JoinKeeps(s, b, e); }
    case Releasing(b) => if b in s.items { ReleaseValid(s, b); }
    case Denying(b) => if b in s.items { DenyValid(s, b); }
    case Forgetting => ForgetValid(s);
    case Returning => ReturnDeniedValid(s);
  }

  lemma ApplySourced(s: Quarantine, op: Op, from: set<Rec>)
    requires Valid(s) && Sourced(s, from) && RecsFrom(Takes(op)) <= from
    ensures Sourced(Apply(s, op), from)
  {
    match op
    case Holding(item) =>
      forall p | p in item.entries ensures RecOf(item.entries[p]) in from {
        assert item.entries[p] in Takes(op);
        assert RecOf(item.entries[p]) in RecsFrom(Takes(op));
      }
      HoldSourced(s, item, from);
    case Joining(b, e) =>
      assert RecOf(e) in RecsFrom({e});
      if b in s.items { JoinSourced(s, b, e, from); }
    case Releasing(b) => if b in s.items { ReleaseSourced(s, b, from); }
    case Denying(b) => if b in s.items { DenySourced(s, b, from); }
    case Forgetting => SourcedWithout(s, from);
    case Returning =>
      SourcedWithout(s, from);
      ReinstateAllSourced(s.(denied := map[]), DeniedRows(s), from);
  }

  lemma SourcedMore(s: Quarantine, few: set<Rec>, many: set<Rec>)
    requires Sourced(s, few) && few <= many
    ensures Sourced(s, many)
  {
  }

  /** In every run the quarantine is in step and holds only what was brought in. */
  lemma {:induction false} RunKeeps(ops: seq<Op>)
    requires forall op :: op in ops ==> OpOk(op)
    ensures Valid(Run(NOTHING_HELD, ops))
    ensures Sourced(Run(NOTHING_HELD, ops), RecsFrom(TakenBy(ops)))
  {
    if ops != [] {
      var prefix := ops[..|ops| - 1];
      var op := ops[|ops| - 1];
      RunKeeps(prefix);
      ApplyValid(Run(NOTHING_HELD, prefix), op);
      SourcedMore(Run(NOTHING_HELD, prefix), RecsFrom(TakenBy(prefix)), RecsFrom(TakenBy(ops)));
      ApplySourced(Run(NOTHING_HELD, prefix), op, RecsFrom(TakenBy(ops)));
    }
  }
}
