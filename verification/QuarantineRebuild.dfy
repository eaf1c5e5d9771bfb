/** Rebuilding a quarantine from its persisted rows, in whatever order they come. */
module QuarantineRebuild {
  import opened Prelude
  import opened Paths
  import opened QuarantineModel

  function Tagged(qs: seq<Quarantined>, b: BatchId): seq<Indexed> {
    seq(|qs|, i requires 0 <= i < |qs| => Indexed(b, qs[i]))
  }

  /** One row put back, its versions at the end of each path's list. */
  function LoadRow(q: Quarantine, k: RowKey, row: HeldRow): Quarantine {
    match k.state
    case Held =>
      q.(items := q.items[k.batch := row.item],
         versions := map p | p in q.versions.Keys + row.versions.Keys ::
           q.At(p) + if p in row.versions then Tagged(row.versions[p], k.batch) else [])
    case Denied(at) => q.(denied := q.denied[at := row])
  }

  function Loaded(rows: map<RowKey, HeldRow>, order: seq<RowKey>, arrivals: nat): Quarantine
    requires forall k :: k in order ==> k in rows
  {
    if order == [] then NOTHING_HELD.(arrivals := arrivals)
    else
      var k := order[|order| - 1];
      LoadRow(Loaded(rows, order[..|order| - 1], arrivals), k, rows[k])
  }

  predicate Before(x: Indexed, y: Indexed) { x.q.arrival <= y.q.arrival }

  ghost predicate NonDecreasing(xs: seq<Indexed>) {
    forall i, j :: 0 <= i < j < |xs| ==> Before(xs[i], xs[j])
  }

  /** `t` is `q` with every path's list put in arrival order. */
  ghost predicate SortedLists(q: Quarantine, t: Quarantine) {
    && t.items == q.items && t.denied == q.denied && t.arrivals == q.arrivals
    && t.versions.Keys == q.versions.Keys
    && forall p :: p in q.versions ==>
         NonDecreasing(t.versions[p]) && multiset(t.versions[p]) == multiset(q.versions[p])
  }

  /** `order` lists `keys`, each once. */
  ghost predicate Listing(order: seq<RowKey>, keys: set<RowKey>) {
    && (forall k :: k in order <==> k in keys)
    && (forall i, j :: 0 <= i < j < |order| ==> order[i] != order[j])
  }

  lemma ListingPrefix(order: seq<RowKey>, keys: set<RowKey>)
    requires Listing(order, keys) && order != []
    ensures var k := order[|order| - 1]; k in keys && Listing(order[..|order| - 1], keys - {k})
  {
    var k := order[|order| - 1];
    forall l | l in keys - {k} ensures l in order[..|order| - 1] {
      var i :| 0 <= i < |order| && order[i] == l;
      assert order[..|order| - 1][i] == l;
    }
  }

  /** An insertion sort by arrival. */
  method SortByArrival(xs: seq<Indexed>) returns (out: seq<Indexed>)
    ensures NonDecreasing(out) && multiset(out) == multiset(xs)
  {
    out := [];
    for i := 0 to |xs|
      invariant NonDecreasing(out) && multiset(out) == multiset(xs[..i])
    {
      assert xs[..i + 1] == xs[..i] + [xs[i]];
      out := Insert(out, xs[i]);
    }
    assert xs[..|xs|] == xs;
  }

  lemma Inserted(xs: seq<Indexed>, x: Indexed, i: nat)
    requires NonDecreasing(xs) && i <= |xs|
    requires forall j :: i <= j < |xs| ==> !Before(xs[j], x)
    requires i > 0 ==> Before(xs[i - 1], x)
    ensures NonDecreasing(xs[..i] + [x] + xs[i..])
    ensures multiset(xs[..i] + [x] + xs[i..]) == multiset(xs) + multiset{x}
  {
    var out := xs[..i] + [x] + xs[i..];
    assert xs == xs[..i] + xs[i..];
    forall a, b | 0 <= a < b < |out| ensures Before(out[a], out[b]) {
      if a < i - 1 {
        assert Before(xs[a], xs[i - 1]);
      }
      if b < i {
        assert Before(xs[a], xs[b]);
      } else if b > i {
        assert a < i ==> Before(xs[a], xs[b - 1]);
        assert a > i ==> Before(xs[a - 1], xs[b - 1]);
      }
    }
  }

  method Insert(xs: seq<Indexed>, x: Indexed) returns (out: seq<Indexed>)
    requires NonDecreasing(xs)
    ensures NonDecreasing(out) && multiset(out) == multiset(xs) + multiset{x}
  {
    var i := |xs|;
    while 0 < i && !Before(xs[i - 1], x)
      invariant 0 <= i <= |xs|
      invariant forall j :: i <= j < |xs| ==> !Before(xs[j], x)
    {
      i := i - 1;
    }
    Inserted(xs, x, i);
    out := xs[..i] + [x] + xs[i..];
  }

  lemma {:induction false} OnlyTagged(qs: seq<Quarantined>, b: BatchId)
    ensures forall c :: Only(Tagged(qs, b), c) == if c == b then qs else []
  {
    if qs != [] {
      OnlyTagged(qs[1..], b);
      assert Tagged(qs, b)[1..] == Tagged(qs[1..], b);
    }
  }

  lemma {:induction false} OnlyCounts(xs: seq<Indexed>, x: Indexed)
    ensures multiset(xs)[x] == multiset(Only(xs, x.batch))[x.q]
  {
    if xs != [] {
      OnlyCounts(xs[1..], x);
      assert xs == [xs[0]] + xs[1..];
      assert xs[0] == Indexed(xs[0].batch, xs[0].q) && x == Indexed(x.batch, x.q);
    }
  }

  /** Two lists with the same versions for every batch hold the same versions. */
  lemma SameByBatch(xs: seq<Indexed>, ys: seq<Indexed>)
    requires forall b :: Only(xs, b) == Only(ys, b)
    ensures multiset(xs) == multiset(ys)
  {
    forall x: Indexed ensures multiset(xs)[x] == multiset(ys)[x] {
      OnlyCounts(xs, x);
      OnlyCounts(ys, x);
    }
  }

  lemma SortedFirst(xs: seq<Indexed>, ys: seq<Indexed>, top: int)
    requires NonDecreasing(xs) && Ascending(ys, top) && multiset(xs) == multiset(ys) && xs != []
    ensures ys != [] && xs[0] == ys[0]
  {
    assert xs[0] in multiset(ys);
    var k :| 0 <= k < |ys| && ys[k] == xs[0];
    assert ys[0] in multiset(xs);
    var j :| 0 <= j < |xs| && xs[j] == ys[0];
    assert j == 0 || Before(xs[0], xs[j]);
    assert k == 0;
  }

  /** Only one list of given versions with distinct arrivals is in arrival order. */
  lemma {:induction false} SortedUnique(xs: seq<Indexed>, ys: seq<Indexed>, top: int)
    requires NonDecreasing(xs) && Ascending(ys, top) && multiset(xs) == multiset(ys)
    ensures xs == ys
  {
    hide NonDecreasing, Ascending;
    if xs == [] {
      assert |multiset(ys)| == |ys|;
    } else {
      SortedFirst(xs, ys, top);
      SortedRest(xs, ys, top);
      SortedUnique(xs[1..], ys[1..], top);
      assert xs == [xs[0]] + xs[1..] && ys == [ys[0]] + ys[1..];
    }
  }

  lemma SortedRest(xs: seq<Indexed>, ys: seq<Indexed>, top: int)
    requires NonDecreasing(xs) && Ascending(ys, top) && multiset(xs) == multiset(ys)
    requires xs != [] && ys != [] && xs[0] == ys[0]
    ensures NonDecreasing(xs[1..]) && Ascending(ys[1..], top) && multiset(xs[1..]) == multiset(ys[1..])
  {
    hide Ascending;
    assert NonDecreasing(xs[1..]);
    RestAscends(ys, top);
    RestCounts(xs);
    RestCounts(ys);
  }

  lemma RestAscends(ys: seq<Indexed>, top: int)
    requires Ascending(ys, top) && ys != []
    ensures Ascending(ys[1..], top)
  {
    assert forall y :: y in ys[1..] ==> y in ys;
  }

  lemma RestCounts(xs: seq<Indexed>)
    requires xs != []
    ensures multiset(xs[1..]) == multiset(xs) - multiset{xs[0]}
  {
    assert xs == [xs[0]] + xs[1..];
  }

  lemma {:induction false} OnlyNone(xs: seq<Indexed>, b: BatchId)
    ensures Only(xs, b) == [] <==> forall x :: x in xs ==> x.batch != b
  {
    if xs != [] {
      OnlyNone(xs[1..], b);
      assert forall x :: x in xs <==> x == xs[0] || x in xs[1..];
    }
  }

  lemma RowKeys(s: Quarantine, k: RowKey)
    ensures k in Rows(s) <==> match k.state
                              case Held => k.batch in s.items
                              case Denied(at) => at in s.denied && s.denied[at].item.batch == k.batch
    ensures k in Rows(s) ==> Rows(s)[k] == match k.state
                                           case Held => RowOf(s, k.batch)
                                           case Denied(at) => s.denied[at]
  {
  }

  ghost predicate ItemsSoFar(s: Quarantine, order: seq<RowKey>, q: Quarantine) {
    && (forall b :: b in q.items <==> RowKey(b, Held) in order)
    && (forall b :: b in q.items && b in s.items ==> q.items[b] == s.items[b])
  }

  function DeniedKey(s: Quarantine, at: nat): RowKey
    requires at in s.denied
  {
    RowKey(s.denied[at].item.batch, Denied(at))
  }

  ghost predicate DeniedSoFar(s: Quarantine, order: seq<RowKey>, q: Quarantine) {
    && (forall at :: at in q.denied ==> at in s.denied && q.denied[at] == s.denied[at])
    && (forall at :: at in s.denied ==> (at in q.denied <==> DeniedKey(s, at) in order))
  }

  ghost predicate ListsSoFar(s: Quarantine, order: seq<RowKey>, q: Quarantine) {
    forall p, b :: Only(q.At(p), b) == if RowKey(b, Held) in order then Only(s.At(p), b) else []
  }

  /** A held row of `order` has versions at `p`. */
  ghost predicate NamedBy(s: Quarantine, order: seq<RowKey>, p: RelPath) {
    exists b :: RowKey(b, Held) in order && b in s.items && p in s.items[b].entries
  }

  ghost predicate PathsSoFar(s: Quarantine, order: seq<RowKey>, q: Quarantine) {
    forall p :: p in q.versions <==> NamedBy(s, order, p)
  }

  /** The rows of `order` put back give the held items, denied items and versions they name. */
  ghost predicate LoadedSoFar(s: Quarantine, order: seq<RowKey>, q: Quarantine) {
    ItemsSoFar(s, order, q) && DeniedSoFar(s, order, q) && ListsSoFar(s, order, q) && PathsSoFar(s, order, q)
  }

  lemma LoadedLists(s: Quarantine, q: Quarantine, b: BatchId, p: RelPath)
    requires Valid(s) && b in s.items
    requires Only(q.At(p), b) == []
    ensures Only(LoadRow(q, RowKey(b, Held), RowOf(s, b)).At(p), b) == Only(s.At(p), b)
    ensures forall c :: c != b ==>
              Only(LoadRow(q, RowKey(b, Held), RowOf(s, b)).At(p), c) == Only(q.At(p), c)
  {
    LoadedList(q, RowKey(b, Held), RowOf(s, b), p);
    if p in s.items[b].entries {
      OnlyExtended(q.At(p), Only(s.At(p), b), b);
    } else {
      assert !BatchAt(s, p, b);
      OnlyNone(s.At(p), b);
    }
  }

  lemma LoadedList(q: Quarantine, k: RowKey, row: HeldRow, p: RelPath)
    requires k.state.Held?
    ensures LoadRow(q, k, row).At(p)
         == if p in row.versions then q.At(p) + Tagged(row.versions[p], k.batch) else q.At(p)
  {
    assert q.At(p) + [] == q.At(p);
  }

  lemma OnlyExtended(xs: seq<Indexed>, qs: seq<Quarantined>, b: BatchId)
    requires Only(xs, b) == []
    ensures Only(xs + Tagged(qs, b), b) == qs
    ensures forall c :: c != b ==> Only(xs + Tagged(qs, b), c) == Only(xs, c)
  {
    OnlyTagged(qs, b);
    forall c ensures Only(xs + Tagged(qs, b), c) == Only(xs, c) + Only(Tagged(qs, b), c) {
      OnlyAppend(xs, Tagged(qs, b), c);
    }
  }

  lemma HeldListsLoaded(s: Quarantine, order: seq<RowKey>, q: Quarantine, b: BatchId)
    requires Valid(s) && b in s.items && RowKey(b, Held) !in order && ListsSoFar(s, order, q)
    ensures ListsSoFar(s, order + [RowKey(b, Held)], LoadRow(q, RowKey(b, Held), RowOf(s, b)))
  {
    var t := LoadRow(q, RowKey(b, Held), RowOf(s, b));
    var more := order + [RowKey(b, Held)];
    forall p, c ensures Only(t.At(p), c) == if RowKey(c, Held) in more then Only(s.At(p), c) else [] {
      assert RowKey(c, Held) in more <==> c == b || RowKey(c, Held) in order;
      assert Only(q.At(p), b) == [];
      LoadedLists(s, q, b, p);
    }
  }

  lemma HeldPathsLoaded(s: Quarantine, order: seq<RowKey>, q: Quarantine, b: BatchId)
    requires b in s.items && PathsSoFar(s, order, q)
    ensures PathsSoFar(s, order + [RowKey(b, Held)], LoadRow(q, RowKey(b, Held), RowOf(s, b)))
  {
    var t := LoadRow(q, RowKey(b, Held), RowOf(s, b));
    var more := order + [RowKey(b, Held)];
    assert forall c :: RowKey(c, Held) in more <==> c == b || RowKey(c, Held) in order;
    forall p ensures p in t.versions <==> NamedBy(s, more, p) {
      if p in s.items[b].entries {
        assert NamedBy(s, more, p);
      } else if NamedBy(s, order, p) {
        var c :| RowKey(c, Held) in order && c in s.items && p in s.items[c].entries;
        assert RowKey(c, Held) in more;
      }
    }
  }

  lemma LoadedHeld(s: Quarantine, order: seq<RowKey>, q: Quarantine, b: BatchId)
    requires Valid(s) && b in s.items && RowKey(b, Held) !in order && LoadedSoFar(s, order, q)
    ensures LoadedSoFar(s, order + [RowKey(b, Held)], LoadRow(q, RowKey(b, Held), RowOf(s, b)))
  {
    HeldListsLoaded(s, order, q, b);
    HeldPathsLoaded(s, order, q, b);
  }

  lemma LoadedDenied(s: Quarantine, order: seq<RowKey>, q: Quarantine, at: nat)
    requires at in s.denied && LoadedSoFar(s, order, q)
    ensures LoadedSoFar(s, order + [DeniedKey(s, at)], LoadRow(q, DeniedKey(s, at), s.denied[at]))
  {
    var more := order + [DeniedKey(s, at)];
    var t := LoadRow(q, DeniedKey(s, at), s.denied[at]);
    assert forall p :: t.At(p) == q.At(p);
    assert forall b :: RowKey(b, Held) in more <==> RowKey(b, Held) in order;
    assert PathsSoFar(s, more, t) by {
      forall p ensures NamedBy(s, more, p) <==> NamedBy(s, order, p) {
      }
    }
  }

  lemma {:induction false} LoadedByOrder(s: Quarantine, order: seq<RowKey>, keys: set<RowKey>)
    requires Valid(s) && Listing(order, keys) && keys <= Rows(s).Keys
    ensures LoadedSoFar(s, order, Loaded(Rows(s), order, s.arrivals))
    ensures Loaded(Rows(s), order, s.arrivals).arrivals == s.arrivals
    decreases |order|
  {
    hide LoadedSoFar, Valid, Rows, LoadRow;
    if order == [] {
      NothingLoaded(s);
    } else {
      var k := order[|order| - 1];
      var prefix := order[..|order| - 1];
      ListingPrefix(order, keys);
      LoadedByOrder(s, prefix, keys - {k});
      LoadedNext(s, prefix, Loaded(Rows(s), prefix, s.arrivals), k);
      assert order == prefix + [k];
    }
  }

  lemma NothingLoaded(s: Quarantine)
    ensures LoadedSoFar(s, [], NOTHING_HELD.(arrivals := s.arrivals))
  {
    assert forall p :: !NamedBy(s, [], p);
  }

  lemma LoadedNext(s: Quarantine, order: seq<RowKey>, q: Quarantine, k: RowKey)
    requires Valid(s) && LoadedSoFar(s, order, q) && k in Rows(s) && k !in order
    ensures LoadedSoFar(s, order + [k], LoadRow(q, k, Rows(s)[k]))
    ensures LoadRow(q, k, Rows(s)[k]).arrivals == q.arrivals
  {
    RowKeys(s, k);
    match k.state
    case Held => LoadedHeld(s, order, q, k.batch);
    case Denied(at) => LoadedDenied(s, order, q, at);
  }

  lemma AllListed(s: Quarantine, order: seq<RowKey>)
    requires Listing(order, Rows(s).Keys)
    ensures forall b :: RowKey(b, Held) in order <==> b in s.items
    ensures forall at :: at in s.denied ==> DeniedKey(s, at) in order
  {
    forall b ensures b in s.items <==> RowKey(b, Held) in order {
      RowKeys(s, RowKey(b, Held));
    }
    forall at | at in s.denied ensures DeniedKey(s, at) in order {
      RowKeys(s, DeniedKey(s, at));
    }
  }

  lemma AllPaths(s: Quarantine, order: seq<RowKey>)
    requires Valid(s) && forall b :: RowKey(b, Held) in order <==> b in s.items
    ensures forall p :: NamedBy(s, order, p) <==> p in s.versions
  {
    forall p ensures NamedBy(s, order, p) <==> p in s.versions {
      if p in s.versions {
        var x := s.versions[p][0];
        assert x in s.At(p);
        assert BatchAt(s, p, x.batch);
        assert RowKey(x.batch, Held) in order;
      }
    }
  }

  lemma AllVersions(s: Quarantine, order: seq<RowKey>, q: Quarantine, p: RelPath)
    requires Valid(s) && ListsSoFar(s, order, q)
    requires forall b :: RowKey(b, Held) in order <==> b in s.items
    ensures multiset(q.At(p)) == multiset(s.At(p))
  {
    forall b ensures Only(q.At(p), b) == Only(s.At(p), b) {
      if b !in s.items {
        assert !BatchAt(s, p, b);
        OnlyNone(s.At(p), b);
      }
    }
    SameByBatch(q.At(p), s.At(p));
  }

  /** Rebuilding a quarantine from its rows and arrival counter, read in any order, gives it
      back exactly. */
  lemma Rebuilt(s: Quarantine, order: seq<RowKey>, t: Quarantine)
    requires Valid(s) && Listing(order, Rows(s).Keys)
    requires SortedLists(Loaded(Rows(s), order, s.arrivals), t)
    ensures t == s
  {
    LoadedByOrder(s, order, Rows(s).Keys);
    var q := Loaded(Rows(s), order, s.arrivals);
    AllListed(s, order);
    RebuiltKeys(s, order, q);
    RebuiltLists(s, order, q, t);
  }

  lemma RebuiltLists(s: Quarantine, order: seq<RowKey>, q: Quarantine, t: Quarantine)
    requires Valid(s) && ListsSoFar(s, order, q) && SortedLists(q, t)
    requires forall b :: RowKey(b, Held) in order <==> b in s.items
    requires q.versions.Keys == s.versions.Keys
    ensures t.versions == s.versions
  {
    forall p | p in s.versions ensures t.versions[p] == s.versions[p] {
      RebuiltList(s, order, q, t, p);
    }
  }

  lemma RebuiltKeys(s: Quarantine, order: seq<RowKey>, q: Quarantine)
    requires Valid(s) && LoadedSoFar(s, order, q)
    requires forall b :: RowKey(b, Held) in order <==> b in s.items
    requires forall at :: at in s.denied ==> DeniedKey(s, at) in order
    ensures q.items == s.items && q.denied == s.denied && q.versions.Keys == s.versions.Keys
  {
    hide Valid;
    AllPaths(s, order);
    assert q.items.Keys == s.items.Keys;
    assert q.denied.Keys == s.denied.Keys;
  }

  lemma RebuiltList(s: Quarantine, order: seq<RowKey>, q: Quarantine, t: Quarantine, p: RelPath)
    requires Valid(s) && ListsSoFar(s, order, q) && SortedLists(q, t)
    requires forall b :: RowKey(b, Held) in order <==> b in s.items
    requires p in s.versions && p in q.versions
    ensures t.versions[p] == s.versions[p]
  {
    AllVersions(s, order, q, p);
    assert q.At(p) == q.versions[p] && s.At(p) == s.versions[p];
    SortedUnique(t.versions[p], s.versions[p], s.arrivals);
  }

  method SortLists(q: Quarantine) returns (t: Quarantine)
    ensures SortedLists(q, t)
  {
    var lists := q.versions;
    var todo := lists.Keys;
    while todo != {}
      invariant lists.Keys == q.versions.Keys && todo <= lists.Keys
      invariant forall p :: p in todo ==> lists[p] == q.versions[p]
      invariant forall p :: p in q.versions && p !in todo ==>
                  NonDecreasing(lists[p]) && multiset(lists[p]) == multiset(q.versions[p])
      decreases todo
    {
      var p :| p in todo;
      var list := SortByArrival(lists[p]);
      lists := lists[p := list];
      todo := todo - {p};
    }
    t := q.(versions := lists);
  }

  /** The rows put back one by one, then every list sorted by arrival. */
  method FromRows(rows: map<RowKey, HeldRow>, arrivals: nat) returns (t: Quarantine)
    ensures t.arrivals == arrivals
    ensures forall s :: Valid(s) && Rows(s) == rows && s.arrivals == arrivals ==> t == s
  {
    ghost var order := [];
    var q := NOTHING_HELD.(arrivals := arrivals);
    var todo := rows.Keys;
    while todo != {}
      invariant todo <= rows.Keys
      invariant Listing(order, rows.Keys - todo)
      invariant q == Loaded(rows, order, arrivals) && q.arrivals == arrivals
      decreases todo
    {
      var k :| k in todo;
      q := LoadRow(q, k, rows[k]);
      assert (order + [k])[..|order|] == order;
      order := order + [k];
      todo := todo - {k};
    }
    t := SortLists(q);
    forall s | Valid(s) && Rows(s) == rows && s.arrivals == arrivals ensures t == s {
      Rebuilt(s, order, t);
    }
  }
}
