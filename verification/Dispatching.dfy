/** What dispatching decides: which source each fetch is given, then
    commits and index-only adoptions past the ordering gate. */
module Dispatching {
  import opened Prelude
  import opened Versions
  import opened Paths
  import opened Orders
  import opened Wants
  import Classify

  /** The rules the want-list reads. */
  datatype Rules = Rules(directLimit: nat, relayLimit: nat, maxPerPeer: nat, maxPerFolder: nat)

  type Peers = map<NodeId, Tier>

  datatype WantStep =
    | Fetch(path: RelPath, version: Version, from: NodeId)
    | Commit(want: Want)
    | Adopt(want: Want)

  predicate Allows(t: Tier, rules: Rules, size: nat) {
    match t
    case Lan => true
    case Direct => size <= rules.directLimit
    case Relay => size <= rules.relayLimit
  }

  function TierRank(t: Tier): nat {
    match t case Lan => 0 case Direct => 1 case Relay => 2
  }

  /** Sources that may be asked: connected, neither excluded nor refused. */
  function Candidates(w: Want, peers: Peers): set<NodeId> {
    set n | n in w.sources && n !in w.excluded && n !in w.refused && n in peers
  }

  /** The candidates whose connection carries a file of this size. */
  function Allowed(w: Want, rules: Rules, peers: Peers): set<NodeId> {
    set n | n in Candidates(w, peers) && Allows(peers[n], rules, w.entry.size)
  }

  /** The least demanding tier that would carry the file. */
  function Need(rules: Rules, size: nat): Tier {
    if Allows(Relay, rules, size) then Relay
    else if Allows(Direct, rules, size) then Direct
    else Lan
  }

  function RankOf(peers: Peers, n: NodeId): nat {
    if n in peers then TierRank(peers[n]) else 3
  }

  /** Best tier first, ties by smaller node id. */
  function PeerOrder(peers: Peers): (NodeId, NodeId) -> bool {
    (a: NodeId, b: NodeId) => RankOf(peers, a) < RankOf(peers, b) || (RankOf(peers, a) == RankOf(peers, b) && a <= b)
  }

  lemma PeerOrderTotal(peers: Peers)
    ensures Total(PeerOrder(peers))
  {
  }

  function Best(ns: set<NodeId>, peers: Peers): (n: NodeId)
    requires ns != {}
    ensures n in ns
  {
    PeerOrderTotal(peers);
    Least(ns, PeerOrder(peers))
  }

  /** The place of a want among those to be fetched. */
  function FetchOrder(best: map<RelPath, NodeId>, peers: Peers): (RelPath, RelPath) -> bool {
    (p, q) => FetchBefore(best, peers, p, q)
  }

  function BestAt(best: map<RelPath, NodeId>, p: RelPath): NodeId {
    if p in best then best[p] else 0
  }

  predicate FetchBefore(best: map<RelPath, NodeId>, peers: Peers, p: RelPath, q: RelPath) {
    Cmp(RankOf(peers, BestAt(best, p)), RankOf(peers, BestAt(best, q)))
    .Then(Cmp(BestAt(best, p), BestAt(best, q)))
    .Then(CmpText(p, q)) != Greater
  }

  lemma FetchOrderTotal(best: map<RelPath, NodeId>, peers: Peers)
    ensures Total(FetchOrder(best, peers))
  {
    var le := FetchOrder(best, peers);
    forall p, q ensures le(p, q) || le(q, p) {
      CmpTextTie(p, q);
    }
    forall p, q | le(p, q) && le(q, p) ensures p == q {
      CmpTextTie(p, q);
    }
    forall p, q, r | le(p, q) && le(q, r) ensures le(p, r) {
      if CmpText(p, q) != Greater && CmpText(q, r) != Greater {
        CmpTextTransitive(p, q, r);
      }
    }
  }

  predicate MayFetch(w: Want) {
    w.NeedsFetch() && (w.state.Wanted? || w.state.Deferred? || w.state.NoSource?)
  }

  /** Wants to be fetched that have an allowed source. */
  function Fetchable(s: List, rules: Rules, peers: Peers): set<RelPath> {
    set p | p in s.wants && MayFetch(s.wants[p]) && Allowed(s.wants[p], rules, peers) != {}
  }

  function BestSources(s: List, rules: Rules, peers: Peers): map<RelPath, NodeId> {
    map p | p in Fetchable(s, rules, peers) :: Best(Allowed(s.wants[p], rules, peers), peers)
  }

  function Reselected(w: Want, rules: Rules, peers: Peers): Want {
    if !MayFetch(w) || Allowed(w, rules, peers) != {} then w
    else if Candidates(w, peers) == {} then w.(state := NoSource)
    else w.(state := Deferred(Need(rules, w.entry.size)))
  }

  /** Wants without an allowed source are without source, or deferred. */
  function Reselect(s: List, rules: Rules, peers: Peers): List {
    s.(wants := map p | p in s.wants :: Reselected(s.wants[p], rules, peers))
  }

  function FetchingAll(s: List): set<RelPath> {
    set p | p in s.wants && s.wants[p].state.Fetching?
  }

  /** The allowed sources with a free slot. */
  function Free(s: List, p: RelPath, rules: Rules, peers: Peers): set<NodeId>
    requires p in s.wants
  {
    set n | n in Allowed(s.wants[p], rules, peers) && |FetchingFrom(s, n)| < rules.maxPerPeer
  }

  /** One want takes the best free source, or stays wanted. */
  function Assign(s: List, p: RelPath, now: int, rules: Rules, peers: Peers): (List, seq<WantStep>)
    requires p in s.wants
  {
    if |FetchingAll(s)| >= rules.maxPerFolder || Free(s, p, rules, peers) == {}
    then (SetState(s, p, Wanted), [])
    else
      var n := Best(Free(s, p, rules, peers), peers);
      (SetState(s, p, Fetching(n, now + FETCH_STALL_NANOS)), [Fetch(p, s.wants[p].Version(), n)])
  }

  function AssignAll(s: List, ps: seq<RelPath>, now: int, rules: Rules, peers: Peers): (List, seq<WantStep>)
    requires forall p :: p in ps ==> p in s.wants
    decreases |ps|
  {
    if ps == [] then (s, [])
    else
      var (t, steps) := Assign(s, ps[0], now, rules, peers);
      var (u, more) := AssignAll(t, ps[1..], now, rules, peers);
      (u, steps + more)
  }

  /** Wants that hold `w` at the gate and are not in flight themselves. */
  function StuckAhead(s: List, w: Want): set<RelPath> {
    set p | p in s.wants && Gates(w, s.wants[p]) && !s.wants[p].state.InFlight()
  }

  predicate Shorter(p: RelPath, q: RelPath) {
    |p| < |q| || (|p| == |q| && CmpText(p, q) != Greater)
  }

  predicate Longer(p: RelPath, q: RelPath) {
    |p| > |q| || (|p| == |q| && CmpText(p, q) != Less)
  }

  function ShortestFirst(): (RelPath, RelPath) -> bool { Shorter }

  function LongestFirst(): (RelPath, RelPath) -> bool { Longer }

  lemma LengthOrdersTotal()
    ensures Total(ShortestFirst()) && Total(LongestFirst())
  {
    forall p, q ensures CmpText(p, q) == Tie <==> p == q
      ensures CmpText(q, p) == CmpText(p, q).Flip()
    {
      CmpTextTie(p, q);
    }
    forall p, q, r ensures Shorter(p, q) && Shorter(q, r) ==> Shorter(p, r)
      ensures Longer(p, q) && Longer(q, r) ==> Longer(p, r)
    {
      if CmpText(p, q) != Greater && CmpText(q, r) != Greater { CmpTextTransitive(p, q, r); }
      if CmpText(p, q) != Less && CmpText(q, r) != Less { CmpTextTransitive(r, q, p); }
    }
  }

  /** The want `w` waits for, deferred: the nearest of those. */
  function WaitsFor(s: List, w: Want): (on: Option<RelPath>)
    ensures on.None? <==> StuckAhead(s, w) == {}
    ensures on.Some? ==> on.value in StuckAhead(s, w)
  {
    LengthOrdersTotal();
    var stuck := StuckAhead(s, w);
    if stuck == {} then None
    else if w.IsDelete() then Some(Least(stuck, ShortestFirst()))
    else Some(Least(stuck, LongestFirst()))
  }

  predicate Gated(s: List, w: Want) {
    exists p :: p in s.wants && Gates(w, s.wants[p])
  }

  /** One want with its content in hand: what becomes of it, and what the host is asked. */
  function CommitOne(s: List, p: RelPath, now: int): (List, seq<WantStep>)
    requires p in s.wants
  {
    var w := s.wants[p];
    var on := WaitsFor(s, w);
    if on.Some? then (SetState(s, p, WaitingFor(on.value)), [])
    else if Gated(s, w) || p in s.released then (SetState(s, p, Blocked), [])
    else if w.mode == Classify.IndexOnly then (Remove(s, p), [Adopt(w)])
    else (SetState(s, p, Committing(now + COMMIT_DEADLINE_NANOS, false)), [Commit(w)])
  }

  function CommitAll(s: List, ps: seq<RelPath>, now: int): (List, seq<WantStep>)
    requires forall p :: p in ps ==> p in s.wants
    requires Distinct(ps)
    decreases |ps|
  {
    if ps == [] then (s, [])
    else
      var (t, steps) := CommitOne(s, ps[0], now);
      var (u, more) := CommitAll(t, ps[1..], now);
      (u, steps + more)
  }

  predicate MayCommit(w: Want) {
    !w.NeedsFetch() && CouldStart(w)
  }

  function Creates(s: List): set<RelPath> {
    set p | p in s.wants && MayCommit(s.wants[p]) && !s.wants[p].IsDelete()
  }

  function Deletes(s: List): set<RelPath> {
    set p | p in s.wants && MayCommit(s.wants[p]) && s.wants[p].IsDelete()
  }

  function Reversed(ps: seq<RelPath>): (out: seq<RelPath>)
    ensures |out| == |ps| && forall i :: 0 <= i < |ps| ==> out[|ps| - 1 - i] == ps[i]
    ensures forall p :: p in out <==> p in ps
  {
    var out := seq(|ps|, i requires 0 <= i < |ps| => ps[|ps| - 1 - i]);
    assert forall i :: 0 <= i < |ps| ==> out[|ps| - 1 - i] == ps[i];
    assert forall p :: p in ps ==> p in out by {
      forall p | p in ps ensures p in out {
        var i :| 0 <= i < |ps| && ps[i] == p;
        assert out[|ps| - 1 - i] == p;
      }
    }
    out
  }

  /** Creates parents first, then deletes children first. */
  function CommitOrder(s: List): seq<RelPath> {
    Sorted(Creates(s)) + Reversed(Sorted(Deletes(s)))
  }

  ghost predicate Distinct(ps: seq<RelPath>) {
    forall i, j :: 0 <= i < j < |ps| ==> ps[i] != ps[j]
  }

  lemma CommitOrderFacts(s: List)
    ensures forall p :: p in CommitOrder(s) <==> p in s.wants && MayCommit(s.wants[p])
    ensures Distinct(CommitOrder(s))
  {
    hide MayCommit, Want.IsDelete, Sorted;
    SortedElements(Creates(s));
    SortedElements(Deletes(s));
    ReversedDistinct(Sorted(Deletes(s)));
    DistinctAppend(Sorted(Creates(s)), Reversed(Sorted(Deletes(s))));
  }

  lemma DistinctAppend(ps: seq<RelPath>, qs: seq<RelPath>)
    requires Distinct(ps) && Distinct(qs) && forall p :: p in ps ==> p !in qs
    ensures Distinct(ps + qs)
  {
    assert forall i :: 0 <= i < |ps| ==> (ps + qs)[i] in ps;
    assert forall j :: |ps| <= j < |ps + qs| ==> (ps + qs)[j] in qs;
  }

  lemma ReversedDistinct(ps: seq<RelPath>)
    requires Distinct(ps)
    ensures Distinct(Reversed(ps))
  {
    var out := Reversed(ps);
    forall i, j | 0 <= i < j < |out| ensures out[i] != out[j] {
      assert out[i] == ps[|ps| - 1 - i] && out[j] == ps[|ps| - 1 - j];
    }
  }

  function FetchPass(s: List, now: int, rules: Rules, peers: Peers): (r: (List, seq<WantStep>))
  {
    var best := BestSources(s, rules, peers);
    FetchOrderTotal(best, peers);
    SortElements(Fetchable(s, rules, peers), FetchOrder(best, peers));
    AssignAll(Reselect(s, rules, peers), Sort(Fetchable(s, rules, peers), FetchOrder(best, peers)),
              now, rules, peers)
  }

  function CommitPass(s: List, now: int): (List, seq<WantStep>) {
    CommitOrderFacts(s);
    CommitAll(s, CommitOrder(s), now)
  }

  /** What to do next for every want. */
  function Dispatch(s: List, now: int, rules: Rules, peers: Peers): (List, seq<WantStep>) {
    var (t, fetches) := FetchPass(ReleaseWaiting(s), now, rules, peers);
    var (u, commits) := CommitPass(t, now);
    (u, fetches + commits)
  }

  // What the choices mean.

  /** A fetch goes to the best free source: no other free one is on a better tier, or on the same
      tier with a smaller id. */
  lemma AssignsBest(s: List, p: RelPath, now: int, rules: Rules, peers: Peers)
    requires p in s.wants && Assign(s, p, now, rules, peers).1 != []
    ensures var n := Assign(s, p, now, rules, peers).1[0].from;
            && n in Free(s, p, rules, peers)
            && forall m :: m in Free(s, p, rules, peers) ==>
                 RankOf(peers, n) < RankOf(peers, m) || (RankOf(peers, n) == RankOf(peers, m) && n <= m)
  {
    PeerOrderTotal(peers);
    var n := Best(Free(s, p, rules, peers), peers);
    forall m | m in Free(s, p, rules, peers) ensures PeerOrder(peers)(n, m) {
    }
  }

  /** A want deferred for its size names a tier that would carry it, and no less demanding one
      would. */
  lemma DeferralNamesTier(w: Want, rules: Rules, peers: Peers)
    requires MayFetch(w) && Candidates(w, peers) != {} && Allowed(w, rules, peers) == {}
    ensures Reselected(w, rules, peers).state.Deferred?
    ensures var need := Reselected(w, rules, peers).state.need;
            && Allows(need, rules, w.entry.size)
            && forall t :: TierRank(t) > TierRank(need) ==> !Allows(t, rules, w.entry.size)
  {
  }

  /** Creates are taken parents first and deletes children first, all creates before any delete. */
  lemma CommitOrderNests(s: List, i: nat, j: nat)
    requires Keyed(s) && i < j < |CommitOrder(s)|
    ensures CommitOrder(s)[i] in s.wants && CommitOrder(s)[j] in s.wants
    ensures var a, b := s.wants[CommitOrder(s)[i]], s.wants[CommitOrder(s)[j]];
            && (a.IsDelete() ==> b.IsDelete())
            && (!b.IsDelete() ==> !IsAncestor(b.Path(), a.Path()))
            && (a.IsDelete() ==> !IsAncestor(a.Path(), b.Path()))
  {
    hide MayCommit, Want.IsDelete, Sorted;
    var down, up := Sorted(Creates(s)), Sorted(Deletes(s));
    SortedElements(Creates(s));
    SortedElements(Deletes(s));
    var order := CommitOrder(s);
    assert forall k :: 0 <= k < |down| ==> order[k] == down[k] && order[k] in down;
    assert forall k :: |down| <= k < |order| ==>
        order[k] == up[|up| - 1 - (k - |down|)] && order[k] in up by {
      forall k | |down| <= k < |order| ensures order[k] == up[|up| - 1 - (k - |down|)] {
        assert order[k] == Reversed(up)[k - |down|];
        assert Reversed(up)[|up| - 1 - (|up| - 1 - (k - |down|))] == up[|up| - 1 - (k - |down|)];
      }
    }
  }

  ghost predicate Keyed(s: List) {
    forall p :: p in s.wants ==> s.wants[p].Path() == p
  }

  /** A want waits, deferred, for the nearest that holds it: a create for its deepest waiting
      ancestor, a deletion for the shallowest waiting deletion beneath it. */
  lemma WaitsForNearest(s: List, w: Want)
    requires WaitsFor(s, w).Some?
    ensures forall q :: q in StuckAhead(s, w) ==>
              if w.IsDelete() then |WaitsFor(s, w).value| <= |q| else |q| <= |WaitsFor(s, w).value|
  {
    LengthOrdersTotal();
    var on := WaitsFor(s, w).value;
    forall q | q in StuckAhead(s, w)
      ensures if w.IsDelete() then ShortestFirst()(on, q) else LongestFirst()(on, q)
    {
    }
  }
}
