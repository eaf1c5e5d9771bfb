/** The quarantine, updated in place. Each method is tied to the value model, whose properties
    are proved in QuarantineModel.dfy, QuarantineRuns.dfy and QuarantineRebuild.dfy. `stored` is
    the host's table of rows, updated only by what the quarantine reports as changed. */
module Quarantines {
  import opened Prelude
  import opened Versions
  import opened Paths
  import opened Entries
  import opened Persistence
  import opened M = QuarantineModel
  import B = QuarantineRebuild
  import R = QuarantineRuns

  /** The row of a key, if it has one. */
  function RowAt(s: M.Quarantine, k: RowKey): (r: Option<HeldRow>)
    ensures r == if k in Rows(s) then Some(Rows(s)[k]) else None
  {
    B.RowKeys(s, k);
    match k.state
    case Held => if k.batch in s.items then Some(RowOf(s, k.batch)) else None
    case Denied(at) =>
      if at in s.denied && s.denied[at].item.batch == k.batch then Some(s.denied[at]) else None
  }

  /** A noted denied row is named by an arrival number taken by a deny of its own batch. */
  ghost predicate NotedOk(s: M.Quarantine, changed: set<RowKey>) {
    forall k :: k in changed && k.state.Denied? ==>
      k.state.at <= s.arrivals && (k.state.at in s.denied ==> s.denied[k.state.at].item.batch == k.batch)
  }

  /** The quarantine is in step, and the host's table differs from it only at noted rows. */
  ghost predicate Good(s: M.Quarantine, changed: set<RowKey>, stored: map<RowKey, HeldRow>) {
    M.Valid(s) && NotedOk(s, changed) && Mirrors(stored, Rows(s), changed)
  }

  lemma MirrorsMore(stored: map<RowKey, HeldRow>, s: M.Quarantine, t: M.Quarantine,
                    changed: set<RowKey>, more: set<RowKey>)
    requires Mirrors(stored, Rows(s), changed)
    requires forall k :: k !in changed + more ==> RowAt(s, k) == RowAt(t, k)
    ensures Mirrors(stored, Rows(t), changed + more)
  {
  }

  lemma SameRow(s: M.Quarantine, t: M.Quarantine, b: BatchId, k: RowKey)
    requires SameOthers(s, t, b) && k != RowKey(b, Held)
    ensures RowAt(s, k) == RowAt(t, k)
  {
  }

  /** Only the row of one held batch changed, so noting it is enough. */
  lemma OneRowChanged(s: M.Quarantine, t: M.Quarantine, changed: set<RowKey>,
                      stored: map<RowKey, HeldRow>, b: BatchId)
    requires Good(s, changed, stored) && SameOthers(s, t, b) && M.Valid(t) && s.arrivals <= t.arrivals
    ensures Good(t, changed + {RowKey(b, Held)}, stored)
  {
    hide M.Valid, RowAt, Mirrors, Rows, SameOthers;
    forall k | k !in changed + {RowKey(b, Held)} ensures RowAt(s, k) == RowAt(t, k) {
      SameRow(s, t, b, k);
    }
    MirrorsMore(stored, s, t, changed, {RowKey(b, Held)});
    NotedStill(s, t, changed, b);
  }

  lemma NotedStill(s: M.Quarantine, t: M.Quarantine, changed: set<RowKey>, b: BatchId)
    requires NotedOk(s, changed) && SameOthers(s, t, b) && s.arrivals <= t.arrivals
    ensures NotedOk(t, changed + {RowKey(b, Held)})
  {
  }

  lemma JoinGood(s: M.Quarantine, changed: set<RowKey>, stored: map<RowKey, HeldRow>, b: BatchId, e: Entry)
    requires Good(s, changed, stored) && b in s.items
    ensures Good(JoinEntry(s, b, e), changed + {RowKey(b, Held)}, stored)
  {
    JoinKeeps(s, b, e);
    OneRowChanged(s, JoinEntry(s, b, e), changed, stored, b);
  }

  lemma RecordMoves(s: M.Quarantine, rs: seq<Rec>, b: BatchId)
    ensures s.arrivals <= RecordAll(s, rs, b).arrivals && RecordAll(s, rs, b).items == s.items
    decreases |rs|
  {
    if rs != [] { RecordMoves(M.Record(s, rs[0], b), rs[1..], b); }
  }

  lemma JoinMoves(s: M.Quarantine, b: BatchId, es: seq<Entry>)
    requires b in s.items
    ensures s.arrivals <= JoinAll(s, b, es).arrivals
    decreases |es|
  {
    if es != [] { JoinMoves(JoinEntry(s, b, es[0]), b, es[1..]); }
  }

  lemma JoinStays(s: M.Quarantine, b: BatchId, e: Entry)
    requires b in s.items
    ensures b in JoinEntry(s, b, e).items && JoinEntry(s, b, e).denied == s.denied
  {
  }

  /** An empty set has nothing to sort, and only an empty set. */
  lemma SortedNone(entries: map<RelPath, Entry>)
    ensures Sorted(entries.Keys) == [] <==> entries == map[]
  {
    SortedElements(entries.Keys);
    if Sorted(entries.Keys) == [] { assert entries.Keys == {}; }
  }

  lemma HoldMoves(s: M.Quarantine, item: HeldItem)
    ensures s.arrivals <= M.Hold(s, item).arrivals
  {
    if item.batch in s.items {
      JoinMoves(s, item.batch, EntriesOf(item.entries));
    } else {
      RecordMoves(s, RecsOf(item.entries), item.batch);
    }
  }

  function HoldNotes(s: M.Quarantine, item: HeldItem): set<RowKey> {
    if item.batch in s.items && item.entries == map[] then {} else {RowKey(item.batch, Held)}
  }

  lemma HoldGood(s: M.Quarantine, changed: set<RowKey>, stored: map<RowKey, HeldRow>, item: HeldItem)
    requires Good(s, changed, stored) && WellKeyed(item.entries)
    ensures Good(M.Hold(s, item), changed + HoldNotes(s, item), stored)
  {
    if HoldNotes(s, item) == {} {
      assert Sorted(item.entries.Keys) == [];
      return;
    }
    HoldValid(s, item);
    HoldMoves(s, item);
    OneRowChanged(s, M.Hold(s, item), changed, stored, item.batch);
  }

  lemma ReleaseGood(s: M.Quarantine, changed: set<RowKey>, stored: map<RowKey, HeldRow>, b: BatchId)
    requires Good(s, changed, stored) && b in s.items
    ensures Good(M.Release(s, b), changed + {RowKey(b, Held)}, stored)
  {
    ReleaseValid(s, b);
    OneRowChanged(s, M.Release(s, b), changed, stored, b);
  }

  lemma DenyGood(s: M.Quarantine, changed: set<RowKey>, stored: map<RowKey, HeldRow>, b: BatchId)
    requires Good(s, changed, stored) && b in s.items
    ensures Good(M.Deny(s, b), changed + {RowKey(b, Held)} + {RowKey(b, Denied(s.arrivals + 1))}, stored)
  {
    hide M.Valid, RowAt, Mirrors, Rows, M.Deny;
    var t := M.Deny(s, b);
    var key := RowKey(b, Denied(s.arrivals + 1));
    DenyValid(s, b);
    forall k | k !in changed + {RowKey(b, Held), key} ensures RowAt(s, k) == RowAt(t, k) {
      DenyRow(s, b, k);
    }
    MirrorsMore(stored, s, t, changed, {RowKey(b, Held), key});
    DenyNoted(s, changed, b);
    assert changed + {RowKey(b, Held)} + {key} == changed + {RowKey(b, Held), key};
  }

  lemma DenyNoted(s: M.Quarantine, changed: set<RowKey>, b: BatchId)
    requires NotedOk(s, changed) && M.Valid(s) && b in s.items
    ensures NotedOk(M.Deny(s, b), changed + {RowKey(b, Held), RowKey(b, Denied(s.arrivals + 1))})
  {
  }

  lemma DenyRow(s: M.Quarantine, b: BatchId, k: RowKey)
    requires M.Valid(s) && b in s.items
    requires k != RowKey(b, Held) && k != RowKey(b, Denied(s.arrivals + 1))
    ensures RowAt(s, k) == RowAt(M.Deny(s, b), k)
  {
    DenyValid(s, b);
    var t := M.Deny(s, b).(denied := s.denied);
    if k.state.Held? && k.batch in s.items {
      assert RowOf(t, k.batch) == RowOf(s, k.batch);
      RowOfCarried(t, M.Deny(s, b), k.batch);
    } else if k.state.Denied? && k.state.at == s.arrivals + 1 {
      assert M.Deny(s, b).denied[k.state.at].item.batch == b;
    }
  }

  lemma RowOfCarried(s: M.Quarantine, t: M.Quarantine, b: BatchId)
    requires s.items == t.items && s.versions == t.versions && b in s.items
    ensures RowOf(s, b) == RowOf(t, b)
  {
    assert forall p :: s.At(p) == t.At(p);
  }

  function DeniedKeys(s: M.Quarantine): set<RowKey> {
    set at | at in s.denied :: RowKey(s.denied[at].item.batch, Denied(at))
  }

  lemma ForgetGood(s: M.Quarantine, changed: set<RowKey>, stored: map<RowKey, HeldRow>)
    requires Good(s, changed, stored)
    ensures Good(M.ForgetDenied(s), changed + DeniedKeys(s), stored)
  {
    var t := M.ForgetDenied(s);
    ForgetValid(s);
    forall k | k !in changed + DeniedKeys(s) ensures RowAt(s, k) == RowAt(t, k) {
      if k.state.Held? && k.batch in s.items {
        RowOfCarried(s, t, k.batch);
      } else if k.state.Denied? && k.state.at in s.denied {
        assert RowKey(s.denied[k.state.at].item.batch, k.state) in DeniedKeys(s);
      }
    }
    MirrorsMore(stored, s, t, changed, DeniedKeys(s));
  }

  lemma ReinstateNone(s: M.Quarantine, rows: seq<HeldRow>)
    ensures R.ReinstateAll(s, rows[..0]) == s
  {
  }

  lemma ReinstateStep(s: M.Quarantine, rows: seq<HeldRow>, i: nat)
    requires i < |rows|
    ensures R.ReinstateAll(s, rows[..i + 1]) == M.Reinstate(R.ReinstateAll(s, rows[..i]), rows[i])
  {
    assert rows[..i + 1][..i] == rows[..i];
  }

  lemma DeniedRowsValid(s: M.Quarantine, changed: set<RowKey>, stored: map<RowKey, HeldRow>)
    requires Good(s, changed, stored)
    ensures forall i :: 0 <= i < |R.DeniedRows(s)| ==> RowValid(R.DeniedRows(s)[i])
  {
  }

  lemma ReinstateGood(s: M.Quarantine, changed: set<RowKey>, stored: map<RowKey, HeldRow>, row: HeldRow)
    requires Good(s, changed, stored) && RowValid(row)
    ensures Good(M.Reinstate(s, row), changed + HoldNotes(s, row.item), stored)
    ensures HoldNotes(RecordAll(s, RowRecs(row), row.item.batch), row.item) == HoldNotes(s, row.item)
  {
    hide Good;
    RecordMoves(s, RowRecs(row), row.item.batch);
    if HoldNotes(s, row.item) == {} {
      assert EntriesOf(row.item.entries) == [] && RowRecs(row) == [];
      assert changed + {} == changed;
    } else {
      ReinstateChanged(s, changed, stored, row);
    }
  }

  lemma ReinstateChanged(s: M.Quarantine, changed: set<RowKey>, stored: map<RowKey, HeldRow>, row: HeldRow)
    requires Good(s, changed, stored) && RowValid(row)
    ensures Good(M.Reinstate(s, row), changed + {RowKey(row.item.batch, Held)}, stored)
  {
    ReinstateValid(s, row);
    RecordMoves(s, RowRecs(row), row.item.batch);
    HoldMoves(RecordAll(s, RowRecs(row), row.item.batch), row.item);
    OneRowChanged(s, M.Reinstate(s, row), changed, stored, row.item.batch);
  }

  class Quarantine {
    var items: map<BatchId, HeldItem>
    var versions: map<RelPath, seq<Indexed>>
    var denied: map<nat, HeldRow>
    var arrivals: nat
    var changed: set<RowKey>
    ghost var stored: map<RowKey, HeldRow>

    function State(): M.Quarantine
      reads this
    {
      M.Quarantine(items, versions, denied, arrivals)
    }

    ghost predicate Valid()
      reads this
    {
      Good(State(), changed, stored)
    }

    constructor ()
      ensures Valid() && State() == NOTHING_HELD && stored == map[]
    {
      items, versions, denied, arrivals, changed, stored := map[], map[], map[], 0, {}, map[];
    }

    /** Rebuild from persisted rows and the arrival counter; nothing is noted as changed. Rows a
        quarantine reported give that quarantine back. */
    constructor FromRows(rows: map<RowKey, HeldRow>, arrivals: nat)
      ensures forall s :: M.Valid(s) && Rows(s) == rows && s.arrivals == arrivals ==>
                State() == s && Valid()
      ensures changed == {} && stored == rows
    {
      var q := B.FromRows(rows, arrivals);
      items, versions, denied, this.arrivals := q.items, q.versions, q.denied, q.arrivals;
      changed, stored := {}, rows;
    }

    /** Every row, held and denied: the persisted part. */
    function AllRows(): map<RowKey, HeldRow>
      reads this
    {
      Rows(State())
    }

    /** Of the items that hold a version the entry covers at its path, the first to arrive. */
    method Matching(entry: Entry) returns (batch: Option<BatchId>)
      requires Valid()
      ensures batch == M.Matching(State().At(entry.path), entry.version)
      ensures batch.Some? ==> batch.value in items && entry.path in items[batch.value].entries
    {
      var list := State().At(entry.path);
      var i := 0;
      while i < |list| && !Leq(list[i].q.version, entry.version)
        invariant 0 <= i <= |list|
        invariant M.Matching(list[i..], entry.version)
               == M.Matching(list, entry.version)
      {
        assert list[i..][1..] == list[i + 1..];
        i := i + 1;
      }
      batch := if i < |list| then Some(list[i].batch) else None;
      if batch.Some? {
        MatchingNamesHeld(State(), entry.path, entry.version);
      }
    }

    /** The largest stamp quarantined at `path`. */
    method MaxStampAt(path: RelPath) returns (stamp: Option<int>)
      ensures stamp == Largest(R.StampsAt(State(), path))
      ensures stamp.None? <==> State().At(path) == []
      ensures stamp.Some? ==> exists x :: x in State().At(path) && x.q.stamp == stamp.value
      ensures forall x :: x in State().At(path) ==> stamp.Some? && x.q.stamp <= stamp.value
    {
      var list := State().At(path);
      ghost var stamps := R.StampsAt(State(), path);
      stamp := None;
      var i := |list|;
      while i > 0
        invariant 0 <= i <= |list| && stamp == Largest(stamps[i..])
        invariant stamp.None? <==> i == |list|
        invariant stamp.Some? ==> exists x :: x in list && x.q.stamp == stamp.value
        invariant forall x :: x in list[i..] ==> stamp.Some? && x.q.stamp <= stamp.value
      {
        i := i - 1;
        assert stamps[i..][1..] == stamps[i + 1..] && list[i] in list;
        assert forall x :: x in list[i..] <==> x == list[i] || x in list[i + 1..];
        stamp := match stamp
          case None => Some(list[i].q.stamp)
          case Some(m) => Some(Max(list[i].q.stamp, m));
      }
      assert list[0..] == list && stamps[0..] == stamps;
    }

    /** Quarantine a version for item `batch`, unless the item holds it there. */
    method Record(path: RelPath, version: Version, stamp: int, batch: BatchId)
      modifies this`versions, this`arrivals
      ensures State() == M.Record(old(State()), Rec(path, version, stamp), batch)
    {
      var list := State().At(path);
      if !(exists x :: x in list && x.batch == batch && x.q.version == version) {
        arrivals := arrivals + 1;
        versions := versions[path := list + [Indexed(batch, Quarantined(version, stamp, arrivals))]];
      }
    }

    /** An entry joins an item; false if there is no such item. */
    method Join(batch: BatchId, entry: Entry) returns (ok: bool)
      modifies this`items, this`versions, this`arrivals, this`changed
      ensures ok <==> batch in old(items)
      ensures State() == if ok then JoinEntry(old(State()), batch, entry) else old(State())
      ensures changed == old(changed) + if ok then {RowKey(batch, Held)} else {}
      ensures old(Valid()) ==> Valid()
    {
      hide Good;
      if batch !in items {
        return false;
      }
      if Valid() {
        JoinGood(State(), changed, stored, batch, entry);
      }
      Record(entry.path, entry.version, entry.stamp, batch);
      changed := changed + {RowKey(batch, Held)};
      var item := items[batch];
      if entry.path !in item.entries || Leq(item.entries[entry.path].version, entry.version) {
        item := item.(entries := item.entries[entry.path := entry]);
      }
      items := items[batch := item];
      ok := true;
      assert State() == JoinEntry(old(State()), batch, entry);
    }

    /** Hold an item; under an id already held its entries join instead of replacing. */
    method Hold(item: HeldItem)
      modifies this`items, this`versions, this`arrivals, this`changed
      ensures State() == M.Hold(old(State()), item)
      ensures changed == old(changed) + HoldNotes(old(State()), item)
      ensures old(Valid()) && WellKeyed(item.entries) ==> Valid()
    {
      hide Good;
      if Valid() && WellKeyed(item.entries) {
        HoldGood(State(), changed, stored, item);
      }
      var order := Sorted(item.entries.Keys);
      SortedElements(item.entries.Keys);
      if item.batch in items {
        SortedNone(item.entries);
        JoinEach(item, order);
      } else {
        RecordEach(item, order);
        changed := changed + {RowKey(item.batch, Held)};
        items := items[item.batch := item];
        assert State() == M.Hold(old(State()), item);
      }
    }

    method JoinEach(item: HeldItem, order: seq<RelPath>)
      requires item.batch in items && order == Sorted(item.entries.Keys)
      modifies this`items, this`versions, this`arrivals, this`changed
      ensures State() == JoinAll(old(State()), item.batch, EntriesOf(item.entries))
      ensures changed == old(changed) + if order == [] then {} else {RowKey(item.batch, Held)}
    {
      hide Good, JoinEntry;
      ghost var es := EntriesOf(item.entries);
      SortedElements(item.entries.Keys);
      var i := 0;
      while i < |order|
        invariant 0 <= i <= |order| && item.batch in items && denied == old(denied)
        invariant JoinAll(State(), item.batch, es[i..]) == old(JoinAll(State(), item.batch, es))
        invariant changed == old(changed) + if i == 0 then {} else {RowKey(item.batch, Held)}
      {
        assert es[i..][1..] == es[i + 1..];
        JoinStays(State(), item.batch, es[i]);
        var ok := Join(item.batch, item.entries[order[i]]);
        i := i + 1;
      }
    }

    method RecordEach(item: HeldItem, order: seq<RelPath>)
      requires order == Sorted(item.entries.Keys)
      modifies this`versions, this`arrivals
      ensures State() == RecordAll(old(State()), RecsOf(item.entries), item.batch)
    {
      ghost var rs := RecsOf(item.entries);
      SortedElements(item.entries.Keys);
      var i := 0;
      while i < |order|
        invariant 0 <= i <= |order|
        invariant RecordAll(State(), rs[i..], item.batch) == old(RecordAll(State(), rs, item.batch))
      {
        assert rs[i..][1..] == rs[i + 1..];
        var entry := item.entries[order[i]];
        Record(entry.path, entry.version, entry.stamp, item.batch);
        i := i + 1;
      }
    }

    /** Remove an item and every version it held. */
    method Release(batch: BatchId) returns (item: Option<HeldItem>)
      modifies this`items, this`versions, this`changed
      ensures item == if batch in old(items) then Some(old(items)[batch]) else None
      ensures State() == if item.Some? then M.Release(old(State()), batch) else old(State())
      ensures changed == old(changed) + if item.Some? then {RowKey(batch, Held)} else {}
      ensures old(Valid()) ==> Valid()
    {
      hide Good;
      if batch !in items {
        return None;
      }
      if Valid() {
        ReleaseGood(State(), changed, stored, batch);
      }
      item := Some(items[batch]);
      changed := changed + {RowKey(batch, Held)};
      versions := Purged(versions, items[batch].entries.Keys, batch);
      items := items - {batch};
      assert State() == M.Release(old(State()), batch);
    }

    /** The lists at `paths` without a batch's versions, empty lists dropped. */
    static method Purged(lists: map<RelPath, seq<Indexed>>, paths: set<RelPath>, batch: BatchId)
      returns (out: map<RelPath, seq<Indexed>>)
      ensures out == map p | p in lists && (p in paths ==> Without(lists[p], batch) != []) ::
                if p in paths then Without(lists[p], batch) else lists[p]
    {
      out := lists;
      var todo := paths;
      while todo != {}
        invariant todo <= paths
        invariant out == map p | p in lists && (p in paths - todo ==> Without(lists[p], batch) != []) ::
                    if p in paths - todo then Without(lists[p], batch) else lists[p]
        decreases todo
      {
        var p :| p in todo;
        if p in out {
          out := out[p := Without(out[p], batch)];
          if out[p] == [] {
            out := out - {p};
          }
        }
        todo := todo - {p};
      }
    }

    /** Take an item out, kept as denied under the next arrival number. */
    method Deny(batch: BatchId) returns (ok: bool)
      requires Valid()
      modifies this`items, this`versions, this`changed, this`denied, this`arrivals
      ensures Valid()
      ensures ok <==> batch in old(items)
      ensures State() == if ok then M.Deny(old(State()), batch) else old(State())
    {
      hide Good;
      if batch !in items {
        return false;
      }
      DenyGood(State(), changed, stored, batch);
      var row := RowOf(State(), batch);
      var item := Release(batch);
      arrivals := arrivals + 1;
      changed := changed + {RowKey(batch, Denied(arrivals))};
      denied := denied[arrivals := row];
      ok := true;
      assert State() == M.Deny(old(State()), batch);
    }

    /** The denies were announced: no revert can return their items now. */
    method ForgetDenied()
      requires Valid()
      modifies this`changed, this`denied
      ensures Valid() && State() == M.ForgetDenied(old(State()))
    {
      hide Good, DeniedKeys;
      ForgetGood(State(), changed, stored);
      changed := changed + DeniedKeys(State());
      denied := map[];
      assert State() == M.ForgetDenied(old(State()));
    }

    /** Put a denied item back: its versions arrive again. */
    method Reinstate(row: HeldRow)
      modifies this`items, this`versions, this`arrivals, this`changed
      ensures State() == M.Reinstate(old(State()), row)
      ensures old(Valid()) && RowValid(row) ==> Valid()
    {
      hide Good, RowValid;
      if Valid() && RowValid(row) {
        ReinstateGood(State(), changed, stored, row);
      }
      RecordRow(row);
      Hold(row.item);
    }

    method RecordRow(row: HeldRow)
      modifies this`versions, this`arrivals
      ensures State() == RecordAll(old(State()), RowRecs(row), row.item.batch)
    {
      hide M.Record, Sorted;
      var batch := row.item.batch;
      var order := Sorted(row.versions.Keys);
      SortedElements(row.versions.Keys);
      ghost var all := RecordAll(State(), RecsOfVersions(row.versions, order), batch);
      var i := 0;
      while i < |order|
        invariant 0 <= i <= |order|
        invariant RecordAll(State(), RecsOfVersions(row.versions, order[i..]), batch) == all
      {
        assert order[i..][1..] == order[i + 1..];
        RecordHeld(order[i], row.versions[order[i]], batch, RecsOfVersions(row.versions, order[i + 1..]));
        i := i + 1;
      }
    }

    /** A row's versions at one path, in order. */
    method RecordHeld(path: RelPath, held: seq<Quarantined>, batch: BatchId, ghost rest: seq<Rec>)
      modifies this`versions, this`arrivals
      ensures RecordAll(State(), rest, batch) == old(RecordAll(State(), RecsOfHeld(path, held) + rest, batch))
    {
      hide M.Record;
      ghost var recs := RecsOfHeld(path, held);
      assert recs[0..] == recs;
      var j := 0;
      while j < |held|
        invariant 0 <= j <= |held|
        invariant RecordAll(State(), recs[j..] + rest, batch) == old(RecordAll(State(), recs + rest, batch))
      {
        assert recs[j..] + rest == [recs[j]] + (recs[j + 1..] + rest);
        Record(path, held[j].version, held[j].stamp, batch);
        j := j + 1;
      }
      assert recs[j..] + rest == rest;
    }

    /** A revert undid the denies: the items come back, first denied first, and are reported so. */
    method ReturnDenied() returns (returned: seq<(BatchId, nat)>)
      requires Valid()
      modifies this`items, this`versions, this`arrivals, this`changed, this`denied
      ensures Valid() && State() == R.ReturnDenied(old(State()))
      ensures |returned| == |R.DeniedRows(old(State()))|
      ensures forall i :: 0 <= i < |returned| ==> returned[i] == Counted(R.DeniedRows(old(State()))[i])
    {
      hide Good, RowValid;
      ForgetGood(State(), changed, stored);
      DeniedRowsValid(State(), changed, stored);
      var rows := R.DeniedRows(State());
      // Every denied row goes, so all are noted before the first comes back.
      changed := changed + DeniedKeys(State());
      denied := map[];
      assert State() == M.ForgetDenied(old(State()));
      returned := ReinstateEach(rows);
    }

    method ReinstateEach(rows: seq<HeldRow>) returns (returned: seq<(BatchId, nat)>)
      requires Valid() && forall i :: 0 <= i < |rows| ==> RowValid(rows[i])
      modifies this`items, this`versions, this`arrivals, this`changed
      ensures Valid() && State() == R.ReinstateAll(old(State()), rows)
      ensures |returned| == |rows|
      ensures forall i :: 0 <= i < |returned| ==> returned[i] == Counted(rows[i])
    {
      hide Good, RowValid, M.Reinstate, R.ReinstateAll;
      returned := [];
      ReinstateNone(State(), rows);
      var i := 0;
      while i < |rows|
        invariant 0 <= i <= |rows| && Valid()
        invariant State() == R.ReinstateAll(old(State()), rows[..i])
        invariant |returned| == i && forall j :: 0 <= j < i ==> returned[j] == Counted(rows[j])
      {
        ReinstateStep(old(State()), rows, i);
        returned := returned + [Counted(rows[i])];
        Reinstate(rows[i]);
        i := i + 1;
      }
      assert rows[..i] == rows;
    }

    static function Counted(row: HeldRow): (BatchId, nat) {
      (row.item.batch, |row.item.entries|)
    }

    /** The rows noted as changed, in key order; `None` stands for one that is gone. Once it has
        them, the host's table is this quarantine's rows. */
    method DrainChanges() returns (rows: seq<(RowKey, Option<HeldRow>)>)
      requires Valid()
      modifies this`changed, this`stored
      ensures Valid() && State() == old(State())
      ensures changed == {} && rows == RowsAt(SortedKeys(old(changed)), AllRows())
      ensures stored == AllRows()
    {
      hide SortedKeys, Reported, M.Valid, Rows;
      SortedKeysElements(changed);
      var keys := SortedKeys(changed);
      rows := seq(|keys|, i requires 0 <= i < |keys| reads this => (keys[i], Reported(keys[i])));
      EachReported();
      ghost var table := map k | k in changed :: Reported(k);
      assert rows == RowsAt(keys, AllRows());
      DrainedMirror(stored, AllRows(), changed, table);
      stored := Applied(stored, table);
      changed := {};
    }

    lemma EachReported()
      requires Valid()
      ensures forall k :: k in changed ==> Reported(k) == if k in AllRows() then Some(AllRows()[k]) else None
    {
      forall k | k in changed ensures Reported(k) == RowAt(State(), k) {
      }
    }

    /** A row as the drain reads it: a denied one by its arrival number alone. */
    function Reported(k: RowKey): Option<HeldRow>
      reads this
    {
      match k.state
      case Held => if k.batch in items then Some(RowOf(State(), k.batch)) else None
      case Denied(at) => if at in denied then Some(denied[at]) else None
    }
  }
}
