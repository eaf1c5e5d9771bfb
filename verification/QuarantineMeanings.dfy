/** What each step leaves in quarantine: which versions are held for which item, and what the item
    stores. */
module QuarantineMeanings {
  import opened Prelude
  import opened Versions
  import opened Paths
  import opened Entries
  import opened QuarantineModel
  import opened QuarantineRuns

  /** Item `b` has version `v` quarantined at the path. */
  ghost predicate Has(s: Quarantine, p: RelPath, b: BatchId, v: Version) {
    exists x :: x in s.At(p) && x.batch == b && x.q.version == v
  }

  /** No item has one version twice at a path. */
  ghost predicate Once(s: Quarantine) {
    forall p, i, j :: 0 <= i < j < |s.At(p)| ==>
      !(s.At(p)[i].batch == s.At(p)[j].batch && s.At(p)[i].q.version == s.At(p)[j].q.version)
  }

  /** From `s` to `t` nothing was lost from any list, and what came is of item `b`, one of `rs`, and
      later than all before it; and none came twice. */
  ghost predicate Adds(s: Quarantine, t: Quarantine, b: BatchId, rs: set<Rec>) {
    && t.denied == s.denied && s.arrivals <= t.arrivals && (Once(s) ==> Once(t))
    && (forall p, x :: x in s.At(p) ==> x in t.At(p))
    && (forall p, x :: x in t.At(p) && x !in s.At(p) ==>
          x.batch == b && Rec(p, x.q.version, x.q.stamp) in rs && s.arrivals < x.q.arrival <= t.arrivals)
  }

  ghost predicate HasAll(s: Quarantine, b: BatchId, rs: set<Rec>) {
    forall r :: r in rs ==> Has(s, r.path, b, r.version)
  }

  lemma RecordOnce(s: Quarantine, r: Rec, b: BatchId)
    requires Once(s)
    ensures Once(Record(s, r, b))
  {
    var t := Record(s, r, b);
    if t != s {
      var added := Indexed(b, Quarantined(r.version, r.stamp, s.arrivals + 1));
      forall p, i, j | 0 <= i < j < |t.At(p)|
        ensures !(t.At(p)[i].batch == t.At(p)[j].batch && t.At(p)[i].q.version == t.At(p)[j].q.version)
      {
        if p == r.path {
          assert t.At(p) == s.At(p) + [added];
          assert s.At(p)[i] in s.At(p) && t.At(p)[i] == s.At(p)[i];
          assert !(s.At(p)[i].batch == b && s.At(p)[i].q.version == r.version);
        } else {
          assert t.At(p) == s.At(p);
        }
      }
    }
  }

  lemma SameLists(s: Quarantine, t: Quarantine)
    requires t.versions == s.versions
    ensures Once(s) <==> Once(t)
  {
    assert forall p :: t.At(p) == s.At(p);
  }

  lemma NothingAdded(s: Quarantine, b: BatchId)
    ensures Adds(s, s, b, {}) && HasAll(s, b, {})
  {
  }

  lemma AddsTransitive(s: Quarantine, t: Quarantine, u: Quarantine, b: BatchId, rs: set<Rec>, qs: set<Rec>)
    requires Adds(s, t, b, rs) && Adds(t, u, b, qs)
    ensures Adds(s, u, b, rs + qs)
  {
    forall p, x | x in u.At(p) && x !in s.At(p)
      ensures x.batch == b && Rec(p, x.q.version, x.q.stamp) in rs + qs && s.arrivals < x.q.arrival <= u.arrivals
    {
      if x !in t.At(p) { assert t.arrivals < x.q.arrival; }
    }
  }

  lemma StillHas(s: Quarantine, t: Quarantine, b: BatchId, rs: set<Rec>, qs: set<Rec>)
    requires Adds(s, t, b, rs) && HasAll(s, b, qs)
    ensures HasAll(t, b, qs)
  {
    forall r | r in qs ensures Has(t, r.path, b, r.version) {
      var x :| x in s.At(r.path) && x.batch == b && x.q.version == r.version;
      assert x in t.At(r.path);
    }
  }

  lemma SameAdds(s: Quarantine, t: Quarantine, u: Quarantine, b: BatchId, rs: set<Rec>)
    requires Adds(s, t, b, rs) && HasAll(t, b, rs)
    requires u.versions == t.versions && u.denied == t.denied && u.arrivals == t.arrivals
    ensures Adds(s, u, b, rs) && HasAll(u, b, rs)
  {
    SameLists(t, u);
    assert forall p :: u.At(p) == t.At(p);
    hide Once;
    forall r | r in rs ensures Has(u, r.path, b, r.version) {
      assert Has(t, r.path, b, r.version);
    }
  }

  lemma RecordAdds(s: Quarantine, r: Rec, b: BatchId)
    ensures Adds(s, Record(s, r, b), b, {r}) && HasAll(Record(s, r, b), b, {r})
    ensures Record(s, r, b).items == s.items
    ensures Record(s, r, b).arrivals - s.arrivals == |Record(s, r, b).At(r.path)| - |s.At(r.path)|
  {
    var t := Record(s, r, b);
    if Once(s) { RecordOnce(s, r, b); }
    hide Once;
    if t == s {
      assert Has(s, r.path, b, r.version);
    } else {
      var added := Indexed(b, Quarantined(r.version, r.stamp, s.arrivals + 1));
      assert t.At(r.path) == s.At(r.path) + [added];
      assert added in t.At(r.path);
    }
  }

  ghost function SetOf(rs: seq<Rec>): set<Rec> {
    set r | r in rs
  }

  lemma {:induction false} RecordAllAdds(s: Quarantine, rs: seq<Rec>, b: BatchId)
    ensures Adds(s, RecordAll(s, rs, b), b, SetOf(rs)) && HasAll(RecordAll(s, rs, b), b, SetOf(rs))
    ensures RecordAll(s, rs, b).items == s.items
    decreases |rs|
  {
    hide Adds, Has, Record;
    if rs == [] {
      NothingAdded(s, b);
      assert SetOf(rs) == {};
    } else {
      var t, u := Record(s, rs[0], b), RecordAll(s, rs, b);
      RecordAdds(s, rs[0], b);
      RecordAllAdds(t, rs[1..], b);
      AddsTransitive(s, t, u, b, {rs[0]}, SetOf(rs[1..]));
      StillHas(t, u, b, SetOf(rs[1..]), {rs[0]});
      assert SetOf(rs) == {rs[0]} + SetOf(rs[1..]);
    }
  }

  /** Of an entry that comes and the one stored at its path the item keeps the one that came, unless
      the stored one is not covered by it. */
  ghost function Kept(stored: map<RelPath, Entry>, e: Entry): Entry {
    if e.path in stored && !Leq(stored[e.path].version, e.version) then stored[e.path] else e
  }

  /** The same item but for what it stores. */
  ghost predicate SameItem(a: HeldItem, b: HeldItem) {
    b == a.(entries := b.entries)
  }

  /** An entry that joins an item is quarantined for it, whether stored or not, and nothing else is. */
  lemma JoinMeans(s: Quarantine, b: BatchId, e: Entry)
    requires b in s.items
    ensures var t := JoinEntry(s, b, e);
            && Adds(s, t, b, {RecOfEntry(e)}) && Has(t, e.path, b, e.version)
            && b in t.items && t.items - {b} == s.items - {b} && SameItem(s.items[b], t.items[b])
            && t.items[b].entries == s.items[b].entries[e.path := Kept(s.items[b].entries, e)]
  {
    hide Adds, Has, Record;
    var r := RecOf(e);
    RecordAdds(s, r, b);
    SameAdds(s, Record(s, r, b), JoinEntry(s, b, e), b, {r});
    assert r in {r};
    if e.path in s.items[b].entries && !Leq(s.items[b].entries[e.path].version, e.version) {
      assert s.items[b].entries[e.path := s.items[b].entries[e.path]] == s.items[b].entries;
    }
  }

  ghost function RecOfEntry(e: Entry): Rec {
    Rec(e.path, e.version, e.stamp)
  }

  ghost function RecsIn(es: set<Entry>): set<Rec> {
    set e | e in es :: RecOfEntry(e)
  }

  ghost predicate OnePerPath(es: seq<Entry>) {
    forall i, j :: 0 <= i < j < |es| ==> es[i].path != es[j].path
  }

  /** What joining every one of `es` leaves stored: each path's own entry, where there is one. */
  ghost predicate StoresJoined(before: map<RelPath, Entry>, after: map<RelPath, Entry>, es: seq<Entry>) {
    && (forall p :: p in after <==> p in before || Comes(es, p))
    && (forall e :: e in es && e.path in after ==> after[e.path] == Kept(before, e))
    && (forall p :: p in before && p in after && !Comes(es, p) ==> after[p] == before[p])
  }

  /** The entries join the item: each is quarantined for it, and stored or not as `Kept` says. */
  ghost predicate Joins(s: Quarantine, t: Quarantine, b: BatchId, es: seq<Entry>) {
    && Adds(s, t, b, RecsIn(set e | e in es)) && HasAll(t, b, RecsIn(set e | e in es))
    && b in s.items && b in t.items && t.items - {b} == s.items - {b} && SameItem(s.items[b], t.items[b])
    && StoresJoined(s.items[b].entries, t.items[b].entries, es)
  }

  lemma {:induction false} JoinAllMeans(s: Quarantine, b: BatchId, es: seq<Entry>)
    requires b in s.items && OnePerPath(es)
    ensures Joins(s, JoinAll(s, b, es), b, es)
    decreases |es|
  {
    hide Joins, JoinEntry, SameItem, Adds, Has;
    if es == [] {
      NothingJoins(s, b, es);
    } else {
      var t := JoinEntry(s, b, es[0]);
      JoinMeans(s, b, es[0]);
      JoinAllMeans(t, b, es[1..]);
      OneMoreJoins(s, t, JoinAll(s, b, es), b, es);
    }
  }

  lemma NothingJoins(s: Quarantine, b: BatchId, es: seq<Entry>)
    requires b in s.items && es == []
    ensures Joins(s, s, b, es)
  {
    hide Once;
    assert (set e | e in es) == {};
  }

  lemma OneMoreJoins(s: Quarantine, t: Quarantine, u: Quarantine, b: BatchId, es: seq<Entry>)
    requires es != [] && OnePerPath(es) && Joins(t, u, b, es[1..])
    requires Adds(s, t, b, {RecOfEntry(es[0])}) && Has(t, es[0].path, b, es[0].version)
    requires b in s.items && t.items - {b} == s.items - {b} && SameItem(s.items[b], t.items[b])
    requires t.items[b].entries == s.items[b].entries[es[0].path := Kept(s.items[b].entries, es[0])]
    ensures Joins(s, u, b, es)
  {
    hide StoresJoined, Adds, Has;
    var first, rest := {RecOfEntry(es[0])}, RecsIn(set e | e in es[1..]);
    AddsTransitive(s, t, u, b, first, rest);
    StillHas(t, u, b, rest, first);
    assert (set e | e in es) == {es[0]} + set e | e in es[1..];
    assert RecsIn(set e | e in es) == first + rest;
    JoinedStores(s.items[b].entries, t.items[b].entries, u.items[b].entries, es);
  }

  ghost predicate Comes(es: seq<Entry>, p: RelPath) {
    exists e :: e in es && e.path == p
  }

  lemma JoinedStores(a: map<RelPath, Entry>, b: map<RelPath, Entry>, c: map<RelPath, Entry>, es: seq<Entry>)
    requires es != [] && OnePerPath(es) && b == a[es[0].path := Kept(a, es[0])] && StoresJoined(b, c, es[1..])
    ensures StoresJoined(a, c, es)
  {
    hide Kept, OnePerPath;
    ComesFirst(es);
    forall p ensures p in c <==> p in a || Comes(es, p) {
      assert p in c <==> p in b || Comes(es[1..], p);
    }
    forall e | e in es && e.path in c ensures c[e.path] == Kept(a, e) {
      if e in es[1..] {
        OtherPath(es, e);
        KeptElsewhere(a, es[0].path, Kept(a, es[0]), e);
      } else {
        assert e == es[0] && !Comes(es[1..], e.path) by { FirstPath(es); }
      }
    }
    forall p | p in a && p in c && !Comes(es, p) ensures c[p] == a[p] {
      assert p in b && !Comes(es[1..], p);
    }
  }

  lemma ComesFirst(es: seq<Entry>)
    requires es != []
    ensures forall p :: Comes(es, p) <==> p == es[0].path || Comes(es[1..], p)
    ensures forall e :: e in es <==> e == es[0] || e in es[1..]
  {
    assert es == [es[0]] + es[1..];
  }

  lemma OtherPath(es: seq<Entry>, e: Entry)
    requires es != [] && OnePerPath(es) && e in es[1..]
    ensures e.path != es[0].path
  {
    var i :| 0 <= i < |es[1..]| && es[1..][i] == e;
    assert es[i + 1] == e;
  }

  lemma FirstPath(es: seq<Entry>)
    requires es != [] && OnePerPath(es)
    ensures !Comes(es[1..], es[0].path)
  {
    forall e | e in es[1..] ensures e.path != es[0].path {
      OtherPath(es, e);
    }
  }

  lemma KeptElsewhere(a: map<RelPath, Entry>, p: RelPath, x: Entry, e: Entry)
    requires e.path != p
    ensures Kept(a[p := x], e) == Kept(a, e)
  {
  }

  lemma EntriesInOrder(entries: map<RelPath, Entry>)
    requires WellKeyed(entries)
    ensures OnePerPath(EntriesOf(entries))
    ensures forall e :: e in EntriesOf(entries) <==> e in entries.Values
  {
    SortedElements(entries.Keys);
    hide Sorted;
    var order := Sorted(entries.Keys);
    forall e | e in entries.Values ensures e in EntriesOf(entries) {
      var p :| p in entries && entries[p] == e;
      var i :| 0 <= i < |order| && order[i] == p;
      assert EntriesOf(entries)[i] == e;
    }
    forall e | e in EntriesOf(entries) ensures e in entries.Values {
      var i :| 0 <= i < |order| && EntriesOf(entries)[i] == e;
      assert order[i] in entries && entries[order[i]] == e;
    }
  }

  lemma RecsInOrder(entries: map<RelPath, Entry>)
    ensures SetOf(RecsOf(entries)) == RecsIn(entries.Values)
  {
    SortedElements(entries.Keys);
    hide Sorted;
    var order := Sorted(entries.Keys);
    forall r | r in RecsIn(entries.Values) ensures r in RecsOf(entries) {
      var e :| e in entries.Values && RecOfEntry(e) == r;
      var p :| p in entries && entries[p] == e;
      var i :| 0 <= i < |order| && order[i] == p;
      assert RecsOf(entries)[i] == r;
    }
    forall r | r in RecsOf(entries) ensures r in RecsIn(entries.Values) {
      var i :| 0 <= i < |order| && RecsOf(entries)[i] == r;
      assert order[i] in entries && entries[order[i]] in entries.Values;
    }
  }

  /** Holding an item quarantines every entry of it, and nothing else. A new item is stored as it
      is; one held already under its id keeps what it is, and of two entries at a path the one that
      came unless it does not cover the other. */
  lemma HoldMeans(s: Quarantine, item: HeldItem)
    requires WellKeyed(item.entries)
    ensures var t, b := Hold(s, item), item.batch;
            && Adds(s, t, b, RecsIn(item.entries.Values)) && HasAll(t, b, RecsIn(item.entries.Values))
            && b in t.items && t.items - {b} == s.items - {b}
            && (b !in s.items ==> t.items[b] == item)
            && (b in s.items ==> SameItem(s.items[b], t.items[b])
                                 && StoresMerged(s.items[b].entries, t.items[b].entries, item.entries))
  {
    hide Adds, HasAll, StoresJoined, StoresMerged, RecsOf, EntriesOf;
    EntriesInOrder(item.entries);
    RecsInOrder(item.entries);
    if item.batch in s.items {
      JoinAllMeans(s, item.batch, EntriesOf(item.entries));
      assert (set e | e in EntriesOf(item.entries)) == item.entries.Values;
      MergedStores(s.items[item.batch].entries, Hold(s, item).items[item.batch].entries, item.entries);
    } else {
      var t := RecordAll(s, RecsOf(item.entries), item.batch);
      RecordAllAdds(s, RecsOf(item.entries), item.batch);
      SameAdds(s, t, Hold(s, item), item.batch, SetOf(RecsOf(item.entries)));
      StoredElsewhere(s.items, item.batch, item);
    }
  }

  lemma StoredElsewhere(items: map<BatchId, HeldItem>, b: BatchId, item: HeldItem)
    ensures items[b := item] - {b} == items - {b}
  {
  }

  /** Each path's entry is the one that came, the one stored, or of both the one that is kept. */
  ghost predicate StoresMerged(before: map<RelPath, Entry>, after: map<RelPath, Entry>, came: map<RelPath, Entry>) {
    && after.Keys == before.Keys + came.Keys
    && forall p :: p in after ==> after[p] == if p in came then Kept(before, came[p]) else before[p]
  }

  lemma MergedStores(before: map<RelPath, Entry>, after: map<RelPath, Entry>, came: map<RelPath, Entry>)
    requires WellKeyed(came) && StoresJoined(before, after, EntriesOf(came))
    ensures StoresMerged(before, after, came)
  {
    hide EntriesOf, Kept, Sorted, OnePerPath;
    EntriesInOrder(came);
    forall p | p in came ensures came[p] in EntriesOf(came) && came[p].path == p {
      assert came[p] in came.Values;
    }
    forall e | e in EntriesOf(came) ensures e.path in came && came[e.path] == e {
      assert e in came.Values;
    }
  }

  /** A released item is gone with every version it held, and nothing else is. */
  lemma ReleaseMeans(s: Quarantine, b: BatchId)
    requires Valid(s) && b in s.items
    ensures var t := Release(s, b);
            && t.items == s.items - {b} && t.denied == s.denied && t.arrivals == s.arrivals
            && (forall p, x :: x in t.At(p) <==> x in s.At(p) && x.batch != b)
            && (Once(s) ==> Once(t))
  {
    if Once(s) { ReleaseOnce(s, b); }
    hide Once;
    forall p ensures forall x :: x in Release(s, b).At(p) <==> x in s.At(p) && x.batch != b {
      ReleasedAt(s, b, p);
    }
  }

  lemma ReleaseOnce(s: Quarantine, b: BatchId)
    requires Valid(s) && b in s.items && Once(s)
    ensures Once(Release(s, b))
  {
    hide InStep;
    var t := Release(s, b);
    forall p, i, j | 0 <= i < j < |t.At(p)|
      ensures !(t.At(p)[i].batch == t.At(p)[j].batch && t.At(p)[i].q.version == t.At(p)[j].q.version)
    {
      var x, y := t.At(p)[i], t.At(p)[j];
      ReleasedAt(s, b, p);
      ReleasedLists(s, b, p);
      assert x in t.At(p) && y in t.At(p) && x.q.arrival < y.q.arrival;
      var k :| 0 <= k < |s.At(p)| && s.At(p)[k] == x;
      var l :| 0 <= l < |s.At(p)| && s.At(p)[l] == y;
      assert k != l;
    }
  }

  lemma ReleasedAt(s: Quarantine, b: BatchId, p: RelPath)
    requires Valid(s) && b in s.items
    ensures forall x :: x in Release(s, b).At(p) <==> x in s.At(p) && x.batch != b
  {
    var t := Release(s, b);
    if p in s.versions { WithoutFacts(s.versions[p], b, s.arrivals); }
    if p in s.items[b].entries {
      assert t.At(p) == Without(s.At(p), b);
    } else {
      assert !BatchAt(s, p, b);
      assert t.At(p) == s.At(p);
    }
  }

  /** A denied item's row is the item and, at each of its paths, every version it held there; it
      goes as a released one does, and is kept under the next arrival number. */
  lemma DenyMeans(s: Quarantine, b: BatchId)
    requires Valid(s) && b in s.items
    ensures var t := Deny(s, b);
            && t.items == s.items - {b} && t.arrivals == s.arrivals + 1
            && (forall p, x :: x in t.At(p) <==> x in s.At(p) && x.batch != b)
            && t.denied.Keys == s.denied.Keys + {t.arrivals}
            && (forall at :: at in s.denied && at != t.arrivals ==> t.denied[at] == s.denied[at])
            && var row := t.denied[t.arrivals];
               && row.item == s.items[b] && row.versions.Keys == s.items[b].entries.Keys
               && forall p, q :: p in row.versions ==> (q in row.versions[p] <==> Indexed(b, q) in s.At(p))
  {
    hide Valid, Release, Only;
    var t, u := Deny(s, b), Release(s, b);
    ReleaseMeans(s, b);
    forall p ensures forall x :: x in Deny(s, b).At(p) <==> x in s.At(p) && x.batch != b {
      ReleasedAt(s, b, p);
      assert t.At(p) == u.At(p);
    }
    forall p, q | p in s.items[b].entries ensures q in Only(s.At(p), b) <==> Indexed(b, q) in s.At(p) {
      OnlyIs(s.At(p), b, q);
    }
  }

  lemma {:induction false} OnlyIs(xs: seq<Indexed>, b: BatchId, q: Quarantined)
    ensures q in Only(xs, b) <==> Indexed(b, q) in xs
  {
    if xs != [] {
      OnlyIs(xs[1..], b, q);
      assert xs[0] == Indexed(xs[0].batch, xs[0].q);
    }
  }

  // What comes back.

  /** Every version of a row, with the path it was held at. */
  ghost predicate InRow(row: HeldRow, r: Rec) {
    r.path in row.versions && exists q :: q in row.versions[r.path] && q.version == r.version && q.stamp == r.stamp
  }

  lemma {:induction false} RowVersions(versions: map<RelPath, seq<Quarantined>>, order: seq<RelPath>, r: Rec)
    requires forall p :: p in order ==> p in versions
    ensures r in RecsOfVersions(versions, order)
       <==> r.path in order && exists q :: q in versions[r.path] && q.version == r.version && q.stamp == r.stamp
  {
    if order != [] {
      RowVersions(versions, order[1..], r);
      var p := order[0];
      var held := versions[p];
      if r.path == p {
        if q :| q in held && q.version == r.version && q.stamp == r.stamp {
          var i :| 0 <= i < |held| && held[i] == q;
          assert RecsOfHeld(p, held)[i] == r;
        }
      }
      assert order == [p] + order[1..];
    }
  }

  lemma RowRecsAre(row: HeldRow)
    ensures forall r :: r in RowRecs(row) <==> InRow(row, r)
  {
    SortedElements(row.versions.Keys);
    forall r ensures r in RowRecs(row) <==> InRow(row, r) {
      RowVersions(row.versions, Sorted(row.versions.Keys), r);
    }
  }

  /** A row put back is held again, with every version it had, as later arrivals than all before;
      what the item stores is as if it had come again. */
  lemma ReinstateMeans(s: Quarantine, row: HeldRow)
    requires WellKeyed(row.item.entries)
    ensures var t, b := Reinstate(s, row), row.item.batch;
            && Adds(s, t, b, SetOf(RowRecs(row)) + RecsIn(row.item.entries.Values))
            && (forall r :: InRow(row, r) ==> Has(t, r.path, b, r.version))
            && HasAll(t, b, RecsIn(row.item.entries.Values))
            && b in t.items && t.items - {b} == s.items - {b}
            && (b !in s.items ==> t.items[b] == row.item)
            && (b in s.items ==> SameItem(s.items[b], t.items[b])
                                 && StoresMerged(s.items[b].entries, t.items[b].entries, row.item.entries))
  {
    var b, rs := row.item.batch, RowRecs(row);
    var u, t := RecordAll(s, rs, b), Reinstate(s, row);
    RowRecsAre(row);
    RecordAllAdds(s, rs, b);
    HoldMeans(u, row.item);
    AddsTransitive(s, u, t, b, SetOf(rs), RecsIn(row.item.entries.Values));
    StillHas(u, t, b, RecsIn(row.item.entries.Values), SetOf(rs));
    forall r | InRow(row, r) ensures Has(t, r.path, b, r.version) {
      assert r in SetOf(rs);
    }
  }

  /** Nothing is lost, and what came is of one of the rows and later than all before. */
  ghost predicate Returns(s: Quarantine, t: Quarantine, rows: seq<HeldRow>) {
    && t.denied == s.denied && s.arrivals <= t.arrivals && (Once(s) ==> Once(t))
    && (forall p, x :: x in s.At(p) ==> x in t.At(p))
    && (forall p, x :: x in t.At(p) && x !in s.At(p) ==>
          s.arrivals < x.q.arrival <= t.arrivals && OfRows(rows, x.batch))
  }

  ghost predicate OfRows(rows: seq<HeldRow>, b: BatchId) {
    exists i :: 0 <= i < |rows| && rows[i].item.batch == b
  }

  lemma {:induction false} ReinstateAllMeans(s: Quarantine, rows: seq<HeldRow>)
    requires forall row :: row in rows ==> WellKeyed(row.item.entries)
    ensures var t := ReinstateAll(s, rows);
            && Returns(s, t, rows)
            && forall i, r :: 0 <= i < |rows| && InRow(rows[i], r) ==> Has(t, r.path, rows[i].item.batch, r.version)
  {
    hide Reinstate, RowRecs, RecsIn, HasAll, StoresMerged, Once;
    var t := ReinstateAll(s, rows);
    if rows != [] {
      var few, row := rows[..|rows| - 1], rows[|rows| - 1];
      var u, rs := ReinstateAll(s, few), SetOf(RowRecs(row)) + RecsIn(row.item.entries.Values);
      assert row in rows && forall r :: r in few ==> r in rows;
      ReinstateAllMeans(s, few);
      ReinstateMeans(u, row);
      forall b | OfRows(few, b) ensures OfRows(rows, b) {
        var i :| 0 <= i < |few| && few[i].item.batch == b;
        assert rows[i].item.batch == b;
      }
      forall i, r | 0 <= i < |rows| && InRow(rows[i], r) ensures Has(t, r.path, rows[i].item.batch, r.version) {
        if i < |few| {
          assert few[i] == rows[i];
          var x :| x in u.At(r.path) && x.batch == rows[i].item.batch && x.q.version == r.version;
          assert x in t.At(r.path);
        }
      }
    }
  }

  ghost predicate WasDenied(s: Quarantine, b: BatchId) {
    exists at :: at in s.denied && s.denied[at].item.batch == b
  }

  /** After a revert every version every denied item had is quarantined for it again, nothing that
      was held is lost, and nothing but denied items' versions came. */
  lemma ReturnMeans(s: Quarantine)
    requires Valid(s)
    ensures var t := ReturnDenied(s);
            && t.denied == map[] && (Once(s) ==> Once(t))
            && (forall p, x :: x in s.At(p) ==> x in t.At(p))
            && (forall p, x :: x in t.At(p) && x !in s.At(p) ==>
                  x.q.arrival > s.arrivals && WasDenied(s, x.batch))
            && (forall at, r :: at in s.denied && InRow(s.denied[at], r) ==>
                  Has(t, r.path, s.denied[at].item.batch, r.version))
  {
    hide Valid, ReinstateAll, Returns, InRow;
    var bare, rows := s.(denied := map[]), DeniedRows(s);
    RowsAre(s);
    ReinstateAllMeans(bare, rows);
    BareReturns(s, bare, ReturnDenied(s), rows);
  }

  /** The denied rows are those, each at its place among the numbers. */
  lemma RowsAre(s: Quarantine)
    requires Valid(s)
    ensures forall row :: row in DeniedRows(s) ==> WellKeyed(row.item.entries)
    ensures forall at :: at in s.denied ==> exists i :: 0 <= i < |DeniedRows(s)| && DeniedRows(s)[i] == s.denied[at]
    ensures forall b :: OfRows(DeniedRows(s), b) ==> WasDenied(s, b)
  {
    hide Ordered, InStep, InOrder, DeniedRows;
    var rows, order := DeniedRows(s), InOrder(s.denied.Keys);
    forall row | row in rows ensures WellKeyed(row.item.entries) {
      var i :| 0 <= i < |rows| && rows[i] == row;
      assert order[i] in s.denied && RowValid(s.denied[order[i]]);
    }
    forall at | at in s.denied ensures exists i :: 0 <= i < |rows| && rows[i] == s.denied[at] {
      var i :| 0 <= i < |order| && order[i] == at;
      assert rows[i] == s.denied[at];
    }
    forall b | OfRows(rows, b) ensures WasDenied(s, b) {
      var i :| 0 <= i < |rows| && rows[i].item.batch == b;
      assert order[i] in s.denied;
    }
  }

  lemma BareReturns(s: Quarantine, bare: Quarantine, t: Quarantine, rows: seq<HeldRow>)
    requires bare == s.(denied := map[]) && Returns(bare, t, rows)
    ensures t.denied == map[] && (Once(s) ==> Once(t))
    ensures forall p, x :: x in s.At(p) ==> x in t.At(p)
    ensures forall p, x :: x in t.At(p) && x !in s.At(p) ==> x.q.arrival > s.arrivals && OfRows(rows, x.batch)
  {
    SameLists(s, bare);
    hide Once;
    forall p ensures bare.At(p) == s.At(p) {
    }
  }

  /** Rows come back in order: what comes back for an item that no later row is of is earlier than
      what comes back for one that no earlier row is of. */
  lemma {:induction false} ReturnedInOrder(s: Quarantine, rows: seq<HeldRow>, k: nat, p: RelPath, q: RelPath,
                                           x: Indexed, y: Indexed)
    requires (forall row :: row in rows ==> WellKeyed(row.item.entries)) && k <= |rows|
    requires !OfRows(rows[k..], x.batch) && !OfRows(rows[..k], y.batch)
    requires x in ReinstateAll(s, rows).At(p) && x !in s.At(p)
    requires y in ReinstateAll(s, rows).At(q) && y !in s.At(q)
    ensures x.q.arrival < y.q.arrival
    decreases |rows|
  {
    hide Once, Reinstate, RowRecs, RecsIn, HasAll, StoresMerged, SameItem, InRow;
    if k == |rows| {
      assert rows[..k] == rows;
      ReinstateAllMeans(s, rows);
    } else {
      var few, row := rows[..|rows| - 1], rows[|rows| - 1];
      var t := ReinstateAll(s, few);
      assert row in rows && forall r :: r in few ==> r in rows;
      ReinstateAllMeans(s, few);
      ReinstateMeans(t, row);
      assert rows[k..][|rows| - 1 - k] == row;
      assert few[..k] == rows[..k];
      forall i | 0 <= i < |few[k..]| ensures few[k..][i].item.batch != x.batch {
        assert rows[k..][i] == few[k..][i];
      }
      if y in t.At(q) { ReturnedInOrder(s, few, k, p, q, x, y); }
    }
  }
}
