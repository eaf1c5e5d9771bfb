/** What dispatching makes of one want, field by field. */
module DispatchMeanings {
  import opened Prelude
  import opened Versions
  import opened Paths
  import opened Entries
  import Classify
  import opened Orders
  import opened Wants
  import opened WantMeanings
  import opened Dispatching
  import opened WantRuns

  /** A connection over the local network carries a file of any size; one over the internet, direct
      or relayed, a file of its own limit at most. */
  lemma AllowsMeans(rules: Rules, size: nat)
    ensures Allows(Lan, rules, size)
    ensures Allows(Direct, rules, size) <==> !(size > rules.directLimit)
    ensures Allows(Relay, rules, size) <==> !(size > rules.relayLimit)
  {
  }

  /** A source that may be asked for a want now: connected, neither excluded nor refused. */
  ghost predicate Askable(w: Want, peers: Peers, n: NodeId) {
    n in w.sources && n in peers && !(n in w.excluded) && !(n in w.refused)
  }

  /** It is asked for a file of this size over a connection that carries it. */
  ghost predicate Carries(w: Want, rules: Rules, peers: Peers, n: NodeId) {
    && Askable(w, peers, n)
    && (peers[n] == Direct ==> w.entry.size <= rules.directLimit)
    && (peers[n] == Relay ==> w.entry.size <= rules.relayLimit)
  }

  /** A want is still to be fetched: its content is to come from a peer and did not yet, and it
      waits for nothing but a source, or a better one. */
  ghost predicate ToFetch(w: Want) {
    w.mode == Classify.Fetch && !w.fetched && (w.state == Wanted || w.state == NoSource || w.state.Deferred?)
  }

  /** A want still to be fetched has no source exactly if none may be asked, and is deferred exactly
      if some may but none carries the file. Nothing else about it changes, nor any other want. */
  lemma ReselectedMeans(s: List, rules: Rules, peers: Peers, p: RelPath)
    requires p in s.wants
    ensures var t := Reselect(s, rules, peers);
            && t.wants.Keys == s.wants.Keys && t.released == s.released
            && t.wants[p] == s.wants[p].(state := t.wants[p].state)
            && SelectedTo(s.wants[p], rules, peers, t.wants[p].state)
    ensures p in Fetchable(s, rules, peers) <==>
              ToFetch(s.wants[p]) && exists n :: Carries(s.wants[p], rules, peers, n)
  {
    hide Allows, Need;
    SourcesMean(s.wants[p], rules, peers);
  }

  ghost predicate SelectedTo(w: Want, rules: Rules, peers: Peers, state: WantState) {
    if !ToFetch(w) || exists n :: Carries(w, rules, peers, n) then state == w.state
    else if exists n :: Askable(w, peers, n) then state.Deferred?
    else state == NoSource
  }

  lemma SourcesMean(w: Want, rules: Rules, peers: Peers)
    ensures forall n :: n in Candidates(w, peers) <==> Askable(w, peers, n)
    ensures forall n :: n in Allowed(w, rules, peers) <==> Carries(w, rules, peers, n)
    ensures Candidates(w, peers) == {} <==> !exists n :: Askable(w, peers, n)
    ensures Allowed(w, rules, peers) == {} <==> !exists n :: Carries(w, rules, peers, n)
  {
    forall n ensures n in Allowed(w, rules, peers) <==> Carries(w, rules, peers, n) {
      AllowsMeans(rules, w.entry.size);
    }
    assert Candidates(w, peers) != {} ==> exists n :: n in Candidates(w, peers);
    assert Allowed(w, rules, peers) != {} ==> exists n :: n in Allowed(w, rules, peers);
  }

  /** A source has a slot for one more fetch. */
  ghost predicate HasSlot(s: List, rules: Rules, n: NodeId) {
    |FetchesFrom(s, n)| < rules.maxPerPeer
  }

  ghost function FetchesFrom(s: List, n: NodeId): set<RelPath> {
    set p | p in s.wants && s.wants[p].state.Fetching? && s.wants[p].state.from == n
  }

  ghost function Fetches(s: List): set<RelPath> {
    set p | p in s.wants && s.wants[p].state.Fetching?
  }

  /** A want whose turn it is fetches, with a minute to make progress, exactly if the folder has a
      slot left and so has a source that carries its file; the host is asked for that version from
      that source. Else it stays wanted, and the host is asked nothing. */
  lemma AssignMeans(s: List, p: RelPath, now: int, rules: Rules, peers: Peers)
    requires p in s.wants
    ensures var (t, steps) := Assign(s, p, now, rules, peers);
            && OnlyAt(s, t, p) && p in t.wants && t.wants[p] == s.wants[p].(state := t.wants[p].state)
            && (if |Fetches(s)| < rules.maxPerFolder
                   && exists n :: Carries(s.wants[p], rules, peers, n) && HasSlot(s, rules, n) then
                  && t.wants[p].state.Fetching? && t.wants[p].state.deadline == now + 60 * SECOND
                  && Carries(s.wants[p], rules, peers, t.wants[p].state.from)
                  && HasSlot(s, rules, t.wants[p].state.from)
                  && steps == [Fetch(p, s.wants[p].entry.version, t.wants[p].state.from)]
                else t.wants[p].state == Wanted && steps == [])
  {
    hide Allows, Best;
    var w := s.wants[p];
    SourcesMean(w, rules, peers);
    assert FetchesFrom(s, 0) == FetchingFrom(s, 0);
    forall n ensures n in Free(s, p, rules, peers) <==> Carries(w, rules, peers, n) && HasSlot(s, rules, n) {
      assert FetchesFrom(s, n) == FetchingFrom(s, n);
    }
    assert Fetches(s) == FetchingAll(s);
    assert Free(s, p, rules, peers) != {} ==> exists n :: n in Free(s, p, rules, peers);
  }

  /** Another want holds this one, and is not about to move by itself. */
  ghost predicate HeldByIdle(s: List, w: Want, q: RelPath) {
    && q in s.wants && Holds(w, s.wants[q])
    && !(s.wants[q].state == Wanted || s.wants[q].state == Blocked
         || s.wants[q].state.Fetching? || s.wants[q].state.Committing?)
  }

  ghost predicate Held(s: List, w: Want) {
    exists q :: q in s.wants && Holds(w, s.wants[q])
  }

  /** A want with its content in hand, or with none to fetch: it waits for one that holds it and is
      idle; else it is blocked while another holds it or the host has a commit for its path; else
      the host commits it, with half a minute to say so, or adopts it where only the index is
      behind, and then it is off the list. */
  lemma CommitOneMeans(s: List, p: RelPath, now: int)
    requires p in s.wants
    ensures var (t, steps), w := CommitOne(s, p, now), s.wants[p];
            && OnlyAt(s, t, p)
            && (p in t.wants ==> t.wants[p] == w.(state := t.wants[p].state))
            && (p in t.wants ==> steps == if t.wants[p].state.Committing? then [Commit(w)] else [])
            && (if exists q :: HeldByIdle(s, w, q) then
                  p in t.wants && t.wants[p].state.WaitingFor? && HeldByIdle(s, w, t.wants[p].state.on)
                else if Held(s, w) || p in s.released then p in t.wants && t.wants[p].state == Blocked
                else if w.mode == Classify.IndexOnly then p !in t.wants && steps == [Adopt(w)]
                else p in t.wants && t.wants[p].state == Committing(now + 30 * SECOND, false))
  {
    hide Gates, Holds, WaitsFor;
    var w := s.wants[p];
    HoldersMean(s, w);
    var on := WaitsFor(s, w);
    assert on.Some? ==> HeldByIdle(s, w, on.value);
    assert on.None? ==> forall q :: q !in StuckAhead(s, w);
  }

  lemma HoldersMean(s: List, w: Want)
    ensures forall q :: q in StuckAhead(s, w) <==> HeldByIdle(s, w, q)
    ensures Gated(s, w) <==> Held(s, w)
  {
    hide Gates, Holds;
    forall q | q in s.wants ensures Gates(w, s.wants[q]) <==> Holds(w, s.wants[q]) {
      GatesMeans(w, s.wants[q]);
    }
  }

  /** The wants to fetch are taken by the tier of their best source, then by that source's id, then
      by path. */
  lemma FetchOrderMeans(best: map<RelPath, NodeId>, peers: Peers, p: RelPath, q: RelPath)
    requires p in best && q in best && best[p] in peers && best[q] in peers
    ensures FetchBefore(best, peers, p, q) <==>
              var a, b := TierRank(peers[best[p]]), TierRank(peers[best[q]]);
              || a < b
              || (a == b && best[p] < best[q])
              || (a == b && best[p] == best[q] && CmpText(p, q) != Greater)
    ensures TierRank(Lan) < TierRank(Direct) < TierRank(Relay)
  {
  }

  /** What is committed: what has its content, or needs none, and could start. */
  lemma MayCommitMeans(w: Want)
    ensures MayCommit(w) <==>
              && (w.mode == Classify.Fetch ==> w.fetched)
              && (w.state == Wanted || w.state == Blocked || w.state == NoSource || w.state.Deferred?)
    ensures MayFetch(w) <==> ToFetch(w)
  {
  }

  // No slot stays idle.

  /** Nothing more can be done about fetching a want now: it fetches, or the folder has no slot
      left, or no source that carries its file has. */
  ghost predicate Satisfied(s: List, p: RelPath, rules: Rules, peers: Peers) {
    p in s.wants
    && (|| s.wants[p].state.Fetching?
        || |Fetches(s)| >= rules.maxPerFolder
        || forall n :: Carries(s.wants[p], rules, peers, n) ==> !HasSlot(s, rules, n))
  }

  /** Every fetch of `s` goes on in `t`, and no want's sources change. */
  ghost predicate GoesOn(s: List, t: List) {
    && (forall p :: p in s.wants && s.wants[p].state.Fetching? ==>
          p in t.wants && t.wants[p].state == s.wants[p].state)
    && forall p :: p in s.wants && p in t.wants ==> t.wants[p] == s.wants[p].(state := t.wants[p].state)
  }

  lemma Unmoved(s: List)
    ensures GoesOn(s, s)
  {
  }

  lemma GoesOnOn(s: List, t: List, u: List)
    requires GoesOn(s, t) && GoesOn(t, u) && s.wants.Keys == t.wants.Keys == u.wants.Keys
    ensures GoesOn(s, u)
  {
  }

  lemma MoreFetches(s: List, t: List)
    requires GoesOn(s, t)
    ensures Fetches(s) <= Fetches(t) && forall n :: FetchesFrom(s, n) <= FetchesFrom(t, n)
  {
  }

  /** What could not be fetched stays so while more fetches start. */
  lemma StaysSatisfied(s: List, t: List, p: RelPath, rules: Rules, peers: Peers)
    requires GoesOn(s, t) && Satisfied(s, p, rules, peers) && p in t.wants
    ensures Satisfied(t, p, rules, peers)
  {
    hide Carries, Fetches, FetchesFrom;
    MoreFetches(s, t);
    SubsetSize(Fetches(s), Fetches(t));
    forall n ensures HasSlot(t, rules, n) ==> HasSlot(s, rules, n) {
      SubsetSize(FetchesFrom(s, n), FetchesFrom(t, n));
    }
    CarriesAnyway(s.wants[p], t.wants[p], rules, peers);
  }

  lemma CarriesAnyway(w: Want, v: Want, rules: Rules, peers: Peers)
    requires v == w.(state := v.state)
    ensures forall n :: Carries(v, rules, peers, n) <==> Carries(w, rules, peers, n)
  {
  }

  lemma AssignServes(s: List, p: RelPath, now: int, rules: Rules, peers: Peers)
    requires p in s.wants && !s.wants[p].state.Fetching?
    ensures var t := Assign(s, p, now, rules, peers).0;
            && GoesOn(s, t) && t.wants.Keys == s.wants.Keys && Satisfied(t, p, rules, peers)
            && forall q :: q in s.wants && q != p ==> t.wants[q] == s.wants[q]
  {
    hide Assign, Carries, Fetches, FetchesFrom;
    var t := Assign(s, p, now, rules, peers).0;
    AssignMeans(s, p, now, rules, peers);
    OnlyThere(s, t, p);
    if !t.wants[p].state.Fetching? {
      CarriesAnyway(s.wants[p], t.wants[p], rules, peers);
      SameFetches(s, t, p);
    }
  }

  lemma OnlyThere(s: List, t: List, p: RelPath)
    requires OnlyAt(s, t, p)
    ensures forall q :: q != p ==> (q in t.wants <==> q in s.wants)
    ensures forall q :: q != p && q in s.wants ==> t.wants[q] == s.wants[q]
  {
    forall q | q != p
      ensures q in t.wants <==> q in s.wants
      ensures q in s.wants ==> t.wants[q] == s.wants[q]
    {
      assert q in t.wants <==> q in t.wants - {p};
      assert q in s.wants <==> q in s.wants - {p};
      if q in s.wants { assert (t.wants - {p})[q] == (s.wants - {p})[q]; }
    }
  }

  lemma SameFetches(s: List, t: List, p: RelPath)
    requires OnlyAt(s, t, p)
    requires p in s.wants ==> !s.wants[p].state.Fetching?
    requires p in t.wants ==> !t.wants[p].state.Fetching?
    ensures Fetches(t) == Fetches(s) && forall n :: FetchesFrom(t, n) == FetchesFrom(s, n)
  {
    OnlyThere(s, t, p);
  }

  ghost predicate NoneFetching(s: List, ps: seq<RelPath>) {
    forall p :: p in ps ==> p in s.wants && !s.wants[p].state.Fetching?
  }

  lemma {:induction false} AssignAllServes(s: List, ps: seq<RelPath>, now: int, rules: Rules, peers: Peers)
    requires NoneFetching(s, ps) && Distinct(ps)
    ensures var t := AssignAll(s, ps, now, rules, peers).0;
            && GoesOn(s, t) && t.wants.Keys == s.wants.Keys
            && forall p :: p in ps ==> Satisfied(t, p, rules, peers)
    decreases |ps|
  {
    hide Assign, Satisfied, GoesOn, FetchesFrom, Fetches;
    if ps == [] {
      Unmoved(s);
    } else {
      assert ps[0] in ps;
      var t := Assign(s, ps[0], now, rules, peers).0;
      AssignServes(s, ps[0], now, rules, peers);
      assert forall p :: p in ps[1..] ==> p in ps && p != ps[0];
      AssignAllServes(t, ps[1..], now, rules, peers);
      GoesOnOn(s, t, AssignAll(t, ps[1..], now, rules, peers).0);
      StaysSatisfied(t, AssignAll(t, ps[1..], now, rules, peers).0, ps[0], rules, peers);
      assert ps == [ps[0]] + ps[1..];
    }
  }

  lemma FetchPassServes(s: List, now: int, rules: Rules, peers: Peers, p: RelPath)
    requires p in s.wants && ToFetch(s.wants[p]) && exists n :: Carries(s.wants[p], rules, peers, n)
    ensures var t := FetchPass(s, now, rules, peers).0;
            && p in t.wants && Satisfied(t, p, rules, peers) && t.wants[p] == s.wants[p].(state := t.wants[p].state)
  {
    hide Satisfied, FetchOrder, BestSources, Fetchable, Reselect, MayFetch;
    var best := BestSources(s, rules, peers);
    FetchOrderTotal(best, peers);
    var ps := Sort(Fetchable(s, rules, peers), FetchOrder(best, peers));
    FetchOrderFacts(s, rules, peers);
    SortElements(Fetchable(s, rules, peers), FetchOrder(best, peers));
    var a := Reselect(s, rules, peers);
    ReselectedMeans(s, rules, peers, p);
    forall q | q in ps ensures q in a.wants && !a.wants[q].state.Fetching? {
      NotYetFetching(a.wants[q]);
    }
    AssignAllServes(a, ps, now, rules, peers);
  }

  lemma NotYetFetching(w: Want)
    requires MayFetch(w)
    ensures !w.state.Fetching?
  {
  }

  lemma CommitOneGoesOn(s: List, q: RelPath, now: int)
    requires q in s.wants && MayCommit(s.wants[q])
    ensures var t := CommitOne(s, q, now).0;
            && Fetches(t) == Fetches(s) && (forall n :: FetchesFrom(t, n) == FetchesFrom(s, n))
            && OnlyAt(s, t, q)
  {
    hide CommitOne, HeldByIdle, Held, Fetches, FetchesFrom;
    CommitOneMeans(s, q, now);
    SameFetches(s, CommitOne(s, q, now).0, q);
  }

  ghost predicate Committable(s: List, ps: seq<RelPath>) {
    forall q :: q in ps ==> q in s.wants && MayCommit(s.wants[q])
  }

  lemma {:induction false} CommitAllServes(s: List, ps: seq<RelPath>, now: int, rules: Rules, peers: Peers, p: RelPath)
    requires Committable(s, ps) && Distinct(ps) && p !in ps && Satisfied(s, p, rules, peers)
    ensures var t := CommitAll(s, ps, now).0;
            && Satisfied(t, p, rules, peers) && t.wants[p] == s.wants[p]
    decreases |ps|
  {
    hide CommitOne, Carries, Fetches, FetchesFrom, MayCommit, OnlyAt;
    if ps != [] {
      assert ps[0] in ps;
      var t := CommitOne(s, ps[0], now).0;
      CommitOneGoesOn(s, ps[0], now);
      OnlyThere(s, t, ps[0]);
      assert forall q :: q in ps[1..] ==> q in ps && q != ps[0];
      CommitAllServes(t, ps[1..], now, rules, peers, p);
    }
  }

  /** No slot stays idle: after a dispatch, a want whose content is still to come, and that waits
      for nothing but a source, fetches if some connected source carries its file, unless the
      folder or every such source is out of slots. */
  lemma NoIdleSlot(s: List, now: int, rules: Rules, peers: Peers, p: RelPath)
    requires p in s.wants && ToFetch(s.wants[p]) && exists n :: Carries(s.wants[p], rules, peers, n)
    ensures var t := Dispatch(s, now, rules, peers).0;
            && Satisfied(t, p, rules, peers) && t.wants[p] == s.wants[p].(state := t.wants[p].state)
  {
    hide Satisfied, FetchPass, CommitOrder, MayCommit, DoneWaiting, Carries;
    var a := ReleaseWaiting(s);
    StaysToFetch(s, p);
    var b := FetchPass(a, now, rules, peers).0;
    FetchPassServes(a, now, rules, peers, p);
    CommitOrderFacts(b);
    MustFetchFirst(a.wants[p], b.wants[p]);
    CommitAllServes(b, CommitOrder(b), now, rules, peers, p);
  }

  lemma MustFetchFirst(w: Want, v: Want)
    requires ToFetch(w) && v == w.(state := v.state)
    ensures !MayCommit(v)
  {
  }

  lemma StaysToFetch(s: List, p: RelPath)
    requires p in s.wants && ToFetch(s.wants[p])
    ensures p in ReleaseWaiting(s).wants && ReleaseWaiting(s).wants[p] == s.wants[p]
  {
    hide Gates;
  }
}
