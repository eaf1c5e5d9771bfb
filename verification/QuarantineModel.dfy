/** The quarantine as a value: held items, every version they hold in arrival order per path,
    denied items a revert may still return, and the arrival counter. */
module QuarantineModel {
  import opened Prelude
  import opened Versions
  import opened Paths
  import opened Entries
  import Orders

  type BatchId = nat

  datatype HeldItem = HeldItem(batch: BatchId, source: NodeId, seqHigh: nat, heldAt: int, reason: nat,
                               entries: map<RelPath, Entry>)

  datatype Quarantined = Quarantined(version: Version, stamp: int, arrival: nat)

  /** A quarantined version with the item it belongs to. */
  datatype Indexed = Indexed(batch: BatchId, q: Quarantined)

  datatype HeldRow = HeldRow(item: HeldItem, versions: map<RelPath, seq<Quarantined>>)

  datatype HeldState = Held | Denied(at: nat)

  datatype RowKey = RowKey(batch: BatchId, state: HeldState)

  /** By batch, a held row first, then the denied by arrival. */
  predicate KeyLeq(a: RowKey, b: RowKey) {
    a.batch < b.batch
    || (a.batch == b.batch && (a.state.Held? || (b.state.Denied? && a.state.at <= b.state.at)))
  }

  function KeyOrder(): (RowKey, RowKey) -> bool {
    (a, b) => KeyLeq(a, b)
  }

  lemma KeyOrderTotal()
    ensures Orders.Total(KeyOrder())
  {
    assert forall a, b :: KeyLeq(a, b) || KeyLeq(b, a);
    assert forall a, b :: KeyLeq(a, b) && KeyLeq(b, a) ==> a == b;
    assert forall a, b, c :: KeyLeq(a, b) && KeyLeq(b, c) ==> KeyLeq(a, c);
  }

  /** A set of keys in key order. */
  function SortedKeys(keys: set<RowKey>): seq<RowKey> {
    KeyOrderTotal();
    Orders.Sort(keys, KeyOrder())
  }

  lemma SortedKeysElements(keys: set<RowKey>)
    ensures forall k :: k in SortedKeys(keys) <==> k in keys
    ensures forall i, j :: 0 <= i < j < |SortedKeys(keys)| ==>
              SortedKeys(keys)[i] != SortedKeys(keys)[j] && KeyLeq(SortedKeys(keys)[i], SortedKeys(keys)[j])
  {
    KeyOrderTotal();
    Orders.SortElements(keys, KeyOrder());
    var out := SortedKeys(keys);
    assert forall i, j :: 0 <= i < j < |out| ==> KeyOrder()(out[i], out[j]);
  }

  datatype Quarantine = Quarantine(
    items: map<BatchId, HeldItem>,
    versions: map<RelPath, seq<Indexed>>,
    denied: map<nat, HeldRow>,
    arrivals: nat)
  {
    function At(p: RelPath): seq<Indexed> {
      if p in versions then versions[p] else []
    }
  }

  const NOTHING_HELD := Quarantine(map[], map[], map[], 0)

  /** A version to record at a path. */
  datatype Rec = Rec(path: RelPath, version: Version, stamp: int)

  predicate Holds(xs: seq<Indexed>, b: BatchId, v: Version) {
    exists x :: x in xs && x.batch == b && x.q.version == v
  }

  /** Quarantine a version for item `b`, with the next arrival number, unless `b` holds it there. */
  function Record(s: Quarantine, r: Rec, b: BatchId): Quarantine {
    if Holds(s.At(r.path), b, r.version) then s
    else s.(arrivals := s.arrivals + 1,
            versions := s.versions[r.path :=
              s.At(r.path) + [Indexed(b, Quarantined(r.version, r.stamp, s.arrivals + 1))]])
  }

  function RecordAll(s: Quarantine, rs: seq<Rec>, b: BatchId): Quarantine
    decreases |rs|
  {
    if rs == [] then s else RecordAll(Record(s, rs[0], b), rs[1..], b)
  }

  function RecOf(e: Entry): Rec { Rec(e.path, e.version, e.stamp) }

  /** The versions of an item's stored entries, in path order. */
  function RecsOf(entries: map<RelPath, Entry>): seq<Rec> {
    var order := Sorted(entries.Keys);
    SortedElements(entries.Keys);
    seq(|order|, i requires 0 <= i < |order| => RecOf(entries[order[i]]))
  }

  /** An item an entry joins: of it and the entry stored at its path, the item keeps the entry
      unless the stored one covers more. */
  function Joined(item: HeldItem, e: Entry): HeldItem {
    if e.path !in item.entries || Leq(item.entries[e.path].version, e.version)
    then item.(entries := item.entries[e.path := e])
    else item
  }

  /** An entry joins an item: its version is quarantined even if the entry is not stored. */
  function JoinEntry(s: Quarantine, b: BatchId, e: Entry): Quarantine
    requires b in s.items
  {
    var t := Record(s, RecOf(e), b);
    t.(items := t.items[b := Joined(t.items[b], e)])
  }

  function JoinAll(s: Quarantine, b: BatchId, es: seq<Entry>): Quarantine
    requires b in s.items
    decreases |es|
  {
    if es == [] then s else JoinAll(JoinEntry(s, b, es[0]), b, es[1..])
  }

  function EntriesOf(entries: map<RelPath, Entry>): seq<Entry> {
    var order := Sorted(entries.Keys);
    SortedElements(entries.Keys);
    seq(|order|, i requires 0 <= i < |order| => entries[order[i]])
  }

  /** Hold an item, or let its entries join the one already held under its id. */
  function Hold(s: Quarantine, item: HeldItem): Quarantine {
    if item.batch in s.items then JoinAll(s, item.batch, EntriesOf(item.entries))
    else
      var t := RecordAll(s, RecsOf(item.entries), item.batch);
      t.(items := t.items[item.batch := item])
  }

  function Without(xs: seq<Indexed>, b: BatchId): seq<Indexed> {
    if xs == [] then [] else
      (if xs[0].batch == b then [] else [xs[0]]) + Without(xs[1..], b)
  }

  function Only(xs: seq<Indexed>, b: BatchId): seq<Quarantined> {
    if xs == [] then [] else
      (if xs[0].batch == b then [xs[0].q] else []) + Only(xs[1..], b)
  }

  /** Remove an item and every version it held. */
  function Release(s: Quarantine, b: BatchId): Quarantine
    requires b in s.items
  {
    var paths := s.items[b].entries.Keys;
    s.(items := s.items - {b},
       versions := map p | p in s.versions && (p in paths ==> Without(s.versions[p], b) != []) ::
         if p in paths then Without(s.versions[p], b) else s.versions[p])
  }

  /** The item with every version it holds. */
  function RowOf(s: Quarantine, b: BatchId): HeldRow
    requires b in s.items
  {
    HeldRow(s.items[b], map p | p in s.items[b].entries :: Only(s.At(p), b))
  }

  /** Take an item out like `Release`, keeping it as denied under the next arrival number. */
  function Deny(s: Quarantine, b: BatchId): Quarantine
    requires b in s.items
  {
    var t := Release(s, b);
    t.(arrivals := s.arrivals + 1, denied := s.denied[s.arrivals + 1 := RowOf(s, b)])
  }

  function ForgetDenied(s: Quarantine): Quarantine {
    s.(denied := map[])
  }

  function RecsOfHeld(p: RelPath, held: seq<Quarantined>): seq<Rec> {
    seq(|held|, i requires 0 <= i < |held| => Rec(p, held[i].version, held[i].stamp))
  }

  function RecsOfVersions(versions: map<RelPath, seq<Quarantined>>, order: seq<RelPath>): seq<Rec>
    requires forall p :: p in order ==> p in versions
  {
    if order == [] then []
    else RecsOfHeld(order[0], versions[order[0]]) + RecsOfVersions(versions, order[1..])
  }

  /** Every version of a row, path by path. */
  function RowRecs(row: HeldRow): seq<Rec> {
    SortedElements(row.versions.Keys);
    RecsOfVersions(row.versions, Sorted(row.versions.Keys))
  }

  /** A denied item is held once more, its versions newer arrivals than all others. */
  function Reinstate(s: Quarantine, row: HeldRow): Quarantine {
    Hold(RecordAll(s, RowRecs(row), row.item.batch), row.item)
  }

  /** Every row, held and denied, as it is persisted. */
  function Rows(s: Quarantine): map<RowKey, HeldRow> {
    (map b | b in s.items :: RowKey(b, Held) := RowOf(s, b))
    + (map at | at in s.denied :: RowKey(s.denied[at].item.batch, Denied(at)) := s.denied[at])
  }

  // Invariants.

  ghost predicate Ascending(xs: seq<Indexed>, top: int) {
    && (forall i, j :: 0 <= i < j < |xs| ==> xs[i].q.arrival < xs[j].q.arrival)
    && (forall x :: x in xs ==> x.q.arrival <= top)
  }

  ghost predicate WellKeyed(entries: map<RelPath, Entry>) {
    forall p :: p in entries ==> entries[p].path == p
  }

  /** Each path's list is non-empty and in strictly increasing arrival order. */
  ghost predicate Ordered(s: Quarantine) {
    forall p :: p in s.versions ==> s.versions[p] != [] && Ascending(s.versions[p], s.arrivals)
  }

  ghost predicate BatchAt(s: Quarantine, p: RelPath, b: BatchId) {
    exists x :: x in s.At(p) && x.batch == b
  }

  /** A batch has a version at a path exactly when it is a held item with an entry there. */
  ghost predicate InStep(s: Quarantine) {
    forall p, b :: BatchAt(s, p, b) <==> b in s.items && p in s.items[b].entries
  }

  ghost predicate RowValid(row: HeldRow) {
    WellKeyed(row.item.entries) && row.versions.Keys == row.item.entries.Keys
  }

  ghost predicate Valid(s: Quarantine) {
    && Ordered(s) && InStep(s)
    && (forall b :: b in s.items ==> s.items[b].batch == b && WellKeyed(s.items[b].entries))
    && (forall at :: at in s.denied ==> at <= s.arrivals && RowValid(s.denied[at]))
  }

  // Recording versions for one batch.

  /** From `s` to `t`, versions of batch `b` were added at `paths`, at the end of their lists. */
  ghost predicate Grew(s: Quarantine, t: Quarantine, b: BatchId, paths: set<RelPath>) {
    && t.items == s.items && t.denied == s.denied && s.arrivals <= t.arrivals
    && Ordered(t)
    && (forall p, c :: BatchAt(t, p, c) <==> BatchAt(s, p, c) || (c == b && p in paths))
    && (forall p, c :: c != b ==> Only(t.At(p), c) == Only(s.At(p), c))
  }

  lemma {:induction false} OnlyAppend(xs: seq<Indexed>, ys: seq<Indexed>, b: BatchId)
    ensures Only(xs + ys, b) == Only(xs, b) + Only(ys, b)
  {
    if xs == [] {
      assert xs + ys == ys;
    } else {
      assert (xs + ys)[1..] == xs[1..] + ys;
      OnlyAppend(xs[1..], ys, b);
    }
  }

  lemma RecordGrew(s: Quarantine, r: Rec, b: BatchId)
    requires Ordered(s)
    ensures Grew(s, Record(s, r, b), b, {r.path})
  {
    var t := Record(s, r, b);
    if t == s {
      var x :| x in s.At(r.path) && x.batch == b && x.q.version == r.version;
      assert BatchAt(s, r.path, b);
    } else {
      var added := Indexed(b, Quarantined(r.version, r.stamp, s.arrivals + 1));
      assert t.At(r.path) == s.At(r.path) + [added];
      assert added in t.At(r.path);
      forall p, c ensures BatchAt(t, p, c) <==> BatchAt(s, p, c) || (c == b && p in {r.path}) {
        if BatchAt(s, p, c) {
          var x :| x in s.At(p) && x.batch == c;
          assert x in t.At(p);
        }
      }
      forall p, c | c != b ensures Only(t.At(p), c) == Only(s.At(p), c) {
        if p == r.path {
          OnlyAppend(s.At(p), [added], c);
          assert Only([added], c) == [];
        }
      }
    }
  }

  lemma GrewTransitive(s: Quarantine, t: Quarantine, u: Quarantine, b: BatchId, ps: set<RelPath>, qs: set<RelPath>)
    requires Grew(s, t, b, ps) && Grew(t, u, b, qs)
    ensures Grew(s, u, b, ps + qs)
  {
  }

  function PathsOf(rs: seq<Rec>): set<RelPath> {
    set r | r in rs :: r.path
  }

  lemma {:induction false} RecordAllGrew(s: Quarantine, rs: seq<Rec>, b: BatchId)
    requires Ordered(s)
    ensures Grew(s, RecordAll(s, rs, b), b, PathsOf(rs))
    decreases |rs|
  {
    if rs == [] {
      assert PathsOf(rs) == {};
    } else {
      RecordGrew(s, rs[0], b);
      RecordAllGrew(Record(s, rs[0], b), rs[1..], b);
      GrewTransitive(s, Record(s, rs[0], b), RecordAll(s, rs, b), b, {rs[0].path}, PathsOf(rs[1..]));
      assert PathsOf(rs) == {rs[0].path} + PathsOf(rs[1..]);
    }
  }

  lemma RecsOfPaths(entries: map<RelPath, Entry>)
    requires WellKeyed(entries)
    ensures PathsOf(RecsOf(entries)) == entries.Keys
  {
    var order := Sorted(entries.Keys);
    SortedElements(entries.Keys);
    var rs := RecsOf(entries);
    forall p | p in entries ensures p in PathsOf(rs) {
      var i :| 0 <= i < |order| && order[i] == p;
      assert rs[i] in rs && rs[i].path == p;
    }
    forall p | p in PathsOf(rs) ensures p in entries {
      var r :| r in rs && r.path == p;
    }
  }

  /** In step, but for versions of batch `b` at `extra` that its item has no entry for yet. */
  ghost predicate InStepBut(s: Quarantine, b: BatchId, extra: set<RelPath>) {
    forall p, c :: BatchAt(s, p, c) <==>
      (c in s.items && p in s.items[c].entries) || (c == b && p in extra)
  }

  ghost predicate ItemsValid(s: Quarantine) {
    forall b :: b in s.items ==> s.items[b].batch == b && WellKeyed(s.items[b].entries)
  }

  ghost predicate DeniedValid(s: Quarantine) {
    forall at :: at in s.denied ==> at <= s.arrivals && RowValid(s.denied[at])
  }

  ghost predicate ValidBut(s: Quarantine, b: BatchId, extra: set<RelPath>) {
    Ordered(s) && InStepBut(s, b, extra) && ItemsValid(s) && DeniedValid(s)
  }

  lemma ValidButNothing(s: Quarantine, b: BatchId)
    ensures Valid(s) <==> ValidBut(s, b, {})
  {
    if Valid(s) {
      assert InStepBut(s, b, {});
    }
  }

  lemma CaughtUp(s: Quarantine, b: BatchId, extra: set<RelPath>)
    requires ValidBut(s, b, extra)
    requires extra != {} ==> b in s.items && extra <= s.items[b].entries.Keys
    ensures Valid(s)
  {
  }

  /** Storing the batch's item with entries at the recorded paths keeps the quarantine in step. */
  lemma GrewThenStored(s: Quarantine, t: Quarantine, b: BatchId, paths: set<RelPath>, item: HeldItem,
                       extra: set<RelPath>)
    requires ValidBut(s, b, extra) && Grew(s, t, b, paths)
    requires item.batch == b && WellKeyed(item.entries)
    requires item.entries.Keys == paths + if b in s.items then s.items[b].entries.Keys else {}
    ensures ValidBut(t.(items := t.items[b := item]), b, extra)
  {
    var u := t.(items := t.items[b := item]);
    assert forall p, c :: BatchAt(u, p, c) <==> BatchAt(t, p, c);
    forall p, c ensures BatchAt(u, p, c) <==>
                        (c in u.items && p in u.items[c].entries) || (c == b && p in extra)
    {
      assert BatchAt(t, p, c) <==> BatchAt(s, p, c) || (c == b && p in paths);
      assert BatchAt(s, p, c) <==> (c in s.items && p in s.items[c].entries) || (c == b && p in extra);
    }
  }

  /** No row but those of batch `b`'s held item changed. */
  ghost predicate SameOthers(s: Quarantine, t: Quarantine, b: BatchId) {
    && t.denied == s.denied
    && (forall c :: c != b ==> (c in t.items <==> c in s.items))
    && (forall c :: c != b && c in s.items && c in t.items ==> RowOf(t, c) == RowOf(s, c))
  }

  lemma SameOthersTransitive(s: Quarantine, t: Quarantine, u: Quarantine, b: BatchId)
    requires SameOthers(s, t, b) && SameOthers(t, u, b)
    ensures SameOthers(s, u, b)
  {
  }

  lemma GrewSameOthers(s: Quarantine, t: Quarantine, b: BatchId, paths: set<RelPath>, item: HeldItem)
    requires Grew(s, t, b, paths)
    ensures SameOthers(s, t.(items := t.items[b := item]), b)
  {
  }

  lemma JoinedItem(item: HeldItem, e: Entry)
    requires WellKeyed(item.entries)
    ensures WellKeyed(Joined(item, e).entries) && Joined(item, e).batch == item.batch
    ensures Joined(item, e).entries.Keys == item.entries.Keys + {e.path}
  {
  }

  lemma JoinValid(s: Quarantine, b: BatchId, e: Entry, extra: set<RelPath>)
    requires ValidBut(s, b, extra) && b in s.items
    ensures ValidBut(JoinEntry(s, b, e), b, extra) && b in JoinEntry(s, b, e).items
    ensures JoinEntry(s, b, e).items[b].entries.Keys == s.items[b].entries.Keys + {e.path}
    ensures SameOthers(s, JoinEntry(s, b, e), b)
  {
    var t := Record(s, RecOf(e), b);
    var item := Joined(s.items[b], e);
    assert s.items[b].batch == b && WellKeyed(s.items[b].entries);
    JoinedItem(s.items[b], e);
    RecordGrew(s, RecOf(e), b);
    GrewThenStored(s, t, b, {e.path}, item, extra);
    GrewSameOthers(s, t, b, {e.path}, item);
  }

  function PathsIn(es: seq<Entry>): set<RelPath> {
    set e | e in es :: e.path
  }

  lemma {:induction false} JoinAllValid(s: Quarantine, b: BatchId, es: seq<Entry>, extra: set<RelPath>)
    requires ValidBut(s, b, extra) && b in s.items
    ensures ValidBut(JoinAll(s, b, es), b, extra) && b in JoinAll(s, b, es).items
    ensures JoinAll(s, b, es).items[b].entries.Keys == s.items[b].entries.Keys + PathsIn(es)
    ensures SameOthers(s, JoinAll(s, b, es), b)
    decreases |es|
  {
    if es == [] {
      assert PathsIn(es) == {};
    } else {
      JoinValid(s, b, es[0], extra);
      JoinAllValid(JoinEntry(s, b, es[0]), b, es[1..], extra);
      SameOthersTransitive(s, JoinEntry(s, b, es[0]), JoinAll(s, b, es), b);
      assert PathsIn(es) == {es[0].path} + PathsIn(es[1..]);
    }
  }

  lemma EntriesOfPaths(entries: map<RelPath, Entry>)
    requires WellKeyed(entries)
    ensures PathsIn(EntriesOf(entries)) == entries.Keys
  {
    var order := Sorted(entries.Keys);
    SortedElements(entries.Keys);
    var es := EntriesOf(entries);
    forall p | p in entries ensures p in PathsIn(es) {
      var i :| 0 <= i < |order| && order[i] == p;
      assert es[i] in es && es[i].path == p;
    }
  }

  /** Holding an item with entries wherever its versions were put ahead of it catches up. */
  lemma HoldAfter(s: Quarantine, item: HeldItem, extra: set<RelPath>)
    requires ValidBut(s, item.batch, extra) && extra <= item.entries.Keys
    requires WellKeyed(item.entries)
    ensures Valid(Hold(s, item)) && SameOthers(s, Hold(s, item), item.batch)
  {
    if item.batch in s.items {
      JoinAllValid(s, item.batch, EntriesOf(item.entries), extra);
      EntriesOfPaths(item.entries);
    } else {
      var rs := RecsOf(item.entries);
      RecordAllGrew(s, rs, item.batch);
      RecsOfPaths(item.entries);
      GrewThenStored(s, RecordAll(s, rs, item.batch), item.batch, item.entries.Keys, item, extra);
      GrewSameOthers(s, RecordAll(s, rs, item.batch), item.batch, item.entries.Keys, item);
    }
    CaughtUp(Hold(s, item), item.batch, extra);
  }

  lemma HoldValid(s: Quarantine, item: HeldItem)
    requires Valid(s) && WellKeyed(item.entries)
    ensures Valid(Hold(s, item)) && SameOthers(s, Hold(s, item), item.batch)
  {
    ValidButNothing(s, item.batch);
    HoldAfter(s, item, {});
  }

  lemma JoinKeeps(s: Quarantine, b: BatchId, e: Entry)
    requires Valid(s) && b in s.items
    ensures Valid(JoinEntry(s, b, e)) && SameOthers(s, JoinEntry(s, b, e), b)
  {
    ValidButNothing(s, b);
    JoinValid(s, b, e, {});
    ValidButNothing(JoinEntry(s, b, e), b);
  }

  // Taking items out.

  lemma {:induction false} WithoutFacts(xs: seq<Indexed>, b: BatchId, top: int)
    requires Ascending(xs, top)
    ensures Ascending(Without(xs, b), top)
    ensures forall x :: x in Without(xs, b) <==> x in xs && x.batch != b
    ensures forall c :: Only(Without(xs, b), c) == if c == b then [] else Only(xs, c)
  {
    if xs != [] {
      WithoutFacts(xs[1..], b, top);
      forall c ensures Only(Without(xs, b), c) == if c == b then [] else Only(xs, c) {
        OnlyAppend(if xs[0].batch == b then [] else [xs[0]], Without(xs[1..], b), c);
      }
      assert forall x :: x in xs <==> x == xs[0] || x in xs[1..];
      assert forall x :: x in xs[1..] ==> xs[0].q.arrival < x.q.arrival;
    }
  }

  lemma ReleasedLists(s: Quarantine, b: BatchId, p: RelPath)
    requires Valid(s) && b in s.items
    ensures Ascending(Release(s, b).At(p), s.arrivals)
    ensures forall c :: BatchAt(Release(s, b), p, c) <==> c != b && BatchAt(s, p, c)
    ensures forall c :: c != b ==> Only(Release(s, b).At(p), c) == Only(s.At(p), c)
  {
    var t := Release(s, b);
    if p in s.versions {
      WithoutFacts(s.versions[p], b, s.arrivals);
    }
    if p in s.items[b].entries {
      assert t.At(p) == Without(s.At(p), b);
    } else {
      assert t.At(p) == s.At(p);
      assert !BatchAt(s, p, b);
    }
  }

  lemma ReleaseOrdered(s: Quarantine, b: BatchId)
    requires Valid(s) && b in s.items
    ensures Ordered(Release(s, b))
  {
    var t := Release(s, b);
    forall p | p in t.versions ensures t.versions[p] != [] && Ascending(t.versions[p], s.arrivals) {
      ReleasedLists(s, b, p);
      assert t.At(p) == t.versions[p];
    }
  }

  lemma ReleaseInStep(s: Quarantine, b: BatchId)
    requires Valid(s) && b in s.items
    ensures InStep(Release(s, b))
  {
    var t := Release(s, b);
    forall p, c ensures BatchAt(t, p, c) <==> c in t.items && p in t.items[c].entries {
      ReleasedLists(s, b, p);
      assert BatchAt(s, p, c) <==> c in s.items && p in s.items[c].entries;
    }
  }

  lemma ReleaseOthers(s: Quarantine, b: BatchId)
    requires Valid(s) && b in s.items
    ensures SameOthers(s, Release(s, b), b)
  {
    var t := Release(s, b);
    forall c | c != b && c in s.items ensures RowOf(t, c) == RowOf(s, c) {
      forall p | p in s.items[c].entries ensures Only(t.At(p), c) == Only(s.At(p), c) {
        ReleasedLists(s, b, p);
      }
      assert RowOf(t, c).versions == RowOf(s, c).versions;
    }
  }

  lemma ReleaseValid(s: Quarantine, b: BatchId)
    requires Valid(s) && b in s.items
    ensures Valid(Release(s, b)) && SameOthers(s, Release(s, b), b)
  {
    ReleaseOrdered(s, b);
    ReleaseInStep(s, b);
    ReleaseOthers(s, b);
  }

  /** The arrival counter may move on and denied rows come and go without touching what is held. */
  lemma CarriedOver(s: Quarantine, t: Quarantine, b: BatchId, extra: set<RelPath>)
    requires t.items == s.items && t.versions == s.versions && s.arrivals <= t.arrivals
    requires Ordered(s) && InStepBut(s, b, extra)
    ensures Ordered(t) && InStepBut(t, b, extra)
    ensures forall c :: c in s.items ==> RowOf(t, c) == RowOf(s, c)
  {
    assert forall p :: t.At(p) == s.At(p);
    assert forall p, c :: BatchAt(t, p, c) <==> BatchAt(s, p, c);
  }

  lemma CarriedValid(s: Quarantine, t: Quarantine)
    requires t.items == s.items && t.versions == s.versions && s.arrivals <= t.arrivals
    requires Valid(s) && DeniedValid(t)
    ensures Valid(t)
    ensures SameOthers(s, t.(denied := s.denied), 0)
    ensures forall b :: SameOthers(s, t.(denied := s.denied), b)
  {
    ValidButNothing(s, 0);
    CarriedOver(s, t, 0, {});
    assert ItemsValid(t);
    ValidButNothing(t, 0);
    CarriedOver(s, t.(denied := s.denied), 0, {});
  }

  lemma DenyValid(s: Quarantine, b: BatchId)
    requires Valid(s) && b in s.items
    ensures Valid(Deny(s, b)) && b !in Deny(s, b).items
    ensures Deny(s, b).denied == s.denied[s.arrivals + 1 := RowOf(s, b)]
    ensures s.arrivals + 1 !in s.denied
    ensures SameOthers(s, Deny(s, b).(denied := s.denied), b)
  {
    ReleaseValid(s, b);
    var t := Release(s, b);
    var u := Deny(s, b);
    assert RowValid(RowOf(s, b)) by { assert WellKeyed(s.items[b].entries); }
    assert DeniedValid(u);
    CarriedValid(t, u);
    SameOthersTransitive(s, t, u.(denied := s.denied), b);
  }

  lemma ForgetValid(s: Quarantine)
    requires Valid(s)
    ensures Valid(ForgetDenied(s))
    ensures forall b :: SameOthers(s, ForgetDenied(s).(denied := s.denied), b)
  {
    CarriedValid(s, ForgetDenied(s));
  }

  // Putting items back.

  lemma {:induction false} RecsOfVersionsPaths(versions: map<RelPath, seq<Quarantined>>, order: seq<RelPath>)
    requires forall p :: p in order ==> p in versions
    ensures PathsOf(RecsOfVersions(versions, order)) <= versions.Keys
  {
    if order != [] {
      RecsOfVersionsPaths(versions, order[1..]);
      forall r | r in RecsOfVersions(versions, order) ensures r.path in versions {
        if r in RecsOfVersions(versions, order[1..]) {
          assert r.path in PathsOf(RecsOfVersions(versions, order[1..]));
        }
      }
    }
  }

  lemma GrewAhead(s: Quarantine, t: Quarantine, b: BatchId, paths: set<RelPath>)
    requires Valid(s) && Grew(s, t, b, paths)
    ensures ValidBut(t, b, paths)
  {
    forall p, c ensures BatchAt(t, p, c) <==>
                        (c in t.items && p in t.items[c].entries) || (c == b && p in paths)
    {
      assert BatchAt(s, p, c) <==> c in s.items && p in s.items[c].entries;
    }
  }

  lemma GrewOthers(s: Quarantine, t: Quarantine, b: BatchId, paths: set<RelPath>)
    requires Grew(s, t, b, paths)
    ensures SameOthers(s, t, b)
  {
  }

  lemma ReinstateValid(s: Quarantine, row: HeldRow)
    requires Valid(s) && RowValid(row)
    ensures Valid(Reinstate(s, row)) && SameOthers(s, Reinstate(s, row), row.item.batch)
  {
    var b := row.item.batch;
    SortedElements(row.versions.Keys);
    var rs := RecsOfVersions(row.versions, Sorted(row.versions.Keys));
    RecsOfVersionsPaths(row.versions, Sorted(row.versions.Keys));
    RecordAllGrew(s, rs, b);
    var t := RecordAll(s, rs, b);
    GrewAhead(s, t, b, PathsOf(rs));
    GrewOthers(s, t, b, PathsOf(rs));
    HoldAfter(t, row.item, PathsOf(rs));
    SameOthersTransitive(s, t, Hold(t, row.item), b);
  }

  // Lookup.

  /** The item an incoming entry belongs to: the first with a version it dominates or equals. */
  function Matching(xs: seq<Indexed>, v: Version): Option<BatchId> {
    if xs == [] then None
    else if Leq(xs[0].q.version, v) then Some(xs[0].batch)
    else Matching(xs[1..], v)
  }

  lemma {:induction false} MatchingEarliest(xs: seq<Indexed>, v: Version, top: int)
    requires Ascending(xs, top)
    ensures Matching(xs, v).None? <==> forall x :: x in xs ==> !Leq(x.q.version, v)
    ensures Matching(xs, v).Some? ==>
              exists x :: x in xs && x.batch == Matching(xs, v).value && Leq(x.q.version, v)
                          && (forall y :: y in xs && Leq(y.q.version, v) ==> x.q.arrival <= y.q.arrival)
  {
    if xs != [] {
      assert forall x :: x in xs <==> x == xs[0] || x in xs[1..];
      assert forall x :: x in xs[1..] ==> xs[0].q.arrival < x.q.arrival;
      if !Leq(xs[0].q.version, v) {
        MatchingEarliest(xs[1..], v, top);
      } else {
        assert xs[0] in xs;
      }
    }
  }

  /** Matching never names an item that is not held, or one with no entry at the path. */
  lemma MatchingNamesHeld(s: Quarantine, p: RelPath, v: Version)
    requires Valid(s) && Matching(s.At(p), v).Some?
    ensures Matching(s.At(p), v).value in s.items
    ensures p in s.items[Matching(s.At(p), v).value].entries
  {
    MatchingEarliest(s.At(p), v, s.arrivals);
    assert BatchAt(s, p, Matching(s.At(p), v).value);
  }
}
