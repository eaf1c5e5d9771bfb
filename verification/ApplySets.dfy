/** The candidates of one received batch: its last entry per path, classified, in path order. */
module ApplySets {
  import opened Prelude
  import opened Versions
  import opened Paths
  import opened Entries
  import opened IndexModel
  import opened Classify
  import C = Convergence

  /** The last entry per path: the highest in sequence, as the batch is in that order. */
  function Last(es: seq<Entry>): (m: map<RelPath, Entry>)
    ensures forall p :: p in m ==> m[p] in es && m[p].path == p
    ensures forall e :: e in es ==> e.path in m
  {
    if es == [] then map[]
    else
      var e := es[|es| - 1];
      assert forall d :: d in es ==> d in es[..|es| - 1] || d == e;
      Last(es[..|es| - 1])[e.path := e]
  }

  function Items(s: IndexState, m: map<RelPath, Entry>, ps: seq<RelPath>): seq<ApplyItem>
    requires forall p :: p in ps ==> p in m
  {
    if ps == [] then []
    else
      var p := ps[|ps| - 1];
      Items(s, m, ps[..|ps| - 1]) + match ClassifyEntry(s, m[p]).item case Some(item) => [item] case None => []
  }

  /** How many of the paths fall back on the last rule of the winner order. */
  function Fallbacks(s: IndexState, m: map<RelPath, Entry>, ps: seq<RelPath>): nat
    requires forall p :: p in ps ==> p in m
  {
    if ps == [] then 0
    else
      Fallbacks(s, m, ps[..|ps| - 1]) + if ClassifyEntry(s, m[ps[|ps| - 1]]).fallback then 1 else 0
  }

  datatype ApplySet = ApplySet(items: seq<ApplyItem>, ignored: nat, duplicates: nat, fallbacks: nat)

  /** Every path's last entry is an item or counted as ignored, and every earlier one is counted
      as a duplicate. */
  method Apply(s: IndexState, es: seq<Entry>) returns (r: ApplySet)
    ensures r.items == (SortedElements(Last(es).Keys); Items(s, Last(es), Sorted(Last(es).Keys)))
    ensures r.fallbacks == (SortedElements(Last(es).Keys); Fallbacks(s, Last(es), Sorted(Last(es).Keys)))
    ensures |r.items| + r.ignored == |Last(es)|
    ensures |Last(es)| + r.duplicates == |es|
  {
    hide ClassifyEntry, Sorted;
    var last, duplicates := LastByPath(es);
    var order := Sorted(last.Keys);
    SortedElements(last.Keys);
    SortedCount(last.Keys);
    KeysCount(last);
    var items, ignored, fallbacks := ClassifyEach(s, last, order);
    r := ApplySet(items, ignored, duplicates, fallbacks);
  }

  method LastByPath(es: seq<Entry>) returns (last: map<RelPath, Entry>, duplicates: nat)
    ensures last == Last(es) && |last| + duplicates == |es|
  {
    hide Last;
    last, duplicates := map[], 0;
    assert last == Last(es[..0]) by { NothingLast(es[..0]); }
    for i := 0 to |es|
      invariant last == Last(es[..i]) && |last| + duplicates == i
    {
      LastMore(es[..i], es[i]);
      assert es[..i + 1] == es[..i] + [es[i]];
      OneMore(last, es[i]);
      if es[i].path in last {
        duplicates := duplicates + 1;
      }
      last := last[es[i].path := es[i]];
    }
    assert es[..|es|] == es;
  }

  lemma NothingLast(es: seq<Entry>)
    ensures es == [] ==> Last(es) == map[]
  {
  }

  lemma LastMore(es: seq<Entry>, e: Entry)
    ensures Last(es + [e]) == Last(es)[e.path := e]
  {
    assert (es + [e])[..|es|] == es;
  }

  lemma OneMore(m: map<RelPath, Entry>, e: Entry)
    ensures |m[e.path := e]| == |m| + if e.path in m then 0 else 1
  {
    KeysCount(m);
    KeysCount(m[e.path := e]);
    assert m[e.path := e].Keys == m.Keys + {e.path};
    if e.path in m { assert m.Keys + {e.path} == m.Keys; }
  }

  method ClassifyEach(s: IndexState, last: map<RelPath, Entry>, order: seq<RelPath>)
    returns (items: seq<ApplyItem>, ignored: nat, fallbacks: nat)
    requires forall p :: p in order ==> p in last
    ensures items == Items(s, last, order) && fallbacks == Fallbacks(s, last, order)
    ensures |items| + ignored == |order|
  {
    hide ClassifyEntry;
    items, ignored, fallbacks := [], 0, 0;
    for i := 0 to |order|
      invariant items == Items(s, last, order[..i]) && fallbacks == Fallbacks(s, last, order[..i])
      invariant |items| + ignored == i
    {
      assert order[..i + 1][..i] == order[..i];
      var c := ClassifyEntry(s, last[order[i]]);
      if c.fallback {
        fallbacks := fallbacks + 1;
      }
      match c.item {
        case Some(item) => items := items + [item];
        case None => ignored := ignored + 1;
      }
    }
    assert order[..|order|] == order;
  }

  lemma KeysCount(m: map<RelPath, Entry>)
    ensures |m.Keys| == |m|
  {
  }

  lemma {:induction false} SortedCount(ps: set<RelPath>)
    ensures |Sorted(ps)| == |ps|
  {
    SortedElements(ps);
    var out := Sorted(ps);
    NoRepeats(out);
    assert (set p | p in out) == ps;
  }

  lemma {:induction false} NoRepeats(out: seq<RelPath>)
    requires forall i, j :: 0 <= i < j < |out| ==> out[i] != out[j]
    ensures |set p | p in out| == |out|
  {
    if out != [] {
      var rest := out[..|out| - 1];
      NoRepeats(rest);
      assert (set p | p in out) == (set p | p in rest) + {out[|out| - 1]};
      assert out[|out| - 1] !in rest;
    }
  }

  function AdoptAll(s: IndexState, items: seq<ApplyItem>): IndexState {
    if items == [] then s else Adopt(AdoptAll(s, items[..|items| - 1]), items[|items| - 1].entry)
  }

  /** The items keep the order of the paths, each at its own path. */
  lemma {:induction false} ItemsAtPaths(s: IndexState, m: map<RelPath, Entry>, ps: seq<RelPath>)
    requires Valid(s) && forall p :: p in ps ==> p in m && m[p].path == p
    ensures forall item :: item in Items(s, m, ps) ==> item.entry.path in ps
  {
    if ps != [] {
      var p := ps[|ps| - 1];
      ItemsAtPaths(s, m, ps[..|ps| - 1]);
      ItemDominates(s, m[p]);
    }
  }

  lemma ClassifiedAlike(s: IndexState, e: Entry)
    requires Valid(s)
    ensures C.EntryAt(Receive(s, e), e.path)
         == match ClassifyEntry(s, e).item case None => C.EntryAt(s, e.path) case Some(item) => Some(item.entry)
  {
    ItemDominates(s, e);
  }

  /** Adopting a batch's items leaves each of its paths with what receiving its last entry there
      leaves, and every other path alone. */
  lemma {:induction false} AdoptsLast(s: IndexState, m: map<RelPath, Entry>, ps: seq<RelPath>, q: RelPath)
    requires Valid(s) && forall p :: p in ps ==> p in m && m[p].path == p
    requires forall i, j :: 0 <= i < j < |ps| ==> ps[i] != ps[j]
    ensures C.EntryAt(AdoptAll(s, Items(s, m, ps)), q)
         == if q in ps then C.EntryAt(Receive(s, m[q]), q) else C.EntryAt(s, q)
  {
    hide ClassifyEntry, Valid;
    if ps != [] {
      var p := ps[|ps| - 1];
      var rest := ps[..|ps| - 1];
      AdoptsLast(s, m, rest, q);
      assert p !in rest;
      assert q in ps <==> q in rest || q == p;
      ClassifiedAlike(s, m[p]);
      AtPath(s, m[p]);
      var few := Items(s, m, rest);
      match ClassifyEntry(s, m[p]).item {
        case None => assert Items(s, m, ps) == few;
        case Some(item) =>
          assert Items(s, m, ps) == few + [item];
          assert (few + [item])[..|few|] == few;
      }
    }
  }

  lemma AtPath(s: IndexState, e: Entry)
    requires Valid(s)
    ensures ClassifyEntry(s, e).item.Some? ==> ClassifyEntry(s, e).item.value.entry.path == e.path
  {
    ItemDominates(s, e);
  }
}
