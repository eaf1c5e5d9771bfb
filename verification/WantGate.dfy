/** The ordering gate never deadlocks, and what one dispatch commits is independent. */
module WantGate {
  import opened Prelude
  import opened Versions
  import opened Paths
  import opened Wants
  import opened Dispatching
  import opened WantRuns

  /** Deletions come first, deepest first, then creates, shallowest first. */
  function Rank(w: Want): int {
    if w.IsDelete() then -1 - |w.Path()| else |w.Path()|
  }

  lemma GatesRank(w: Want, other: Want)
    requires Gates(w, other)
    ensures Rank(other) < Rank(w)
  {
  }

  lemma {:induction false} ChainDescends(c: seq<Want>, k: nat)
    requires 0 <= k < |c| && forall i :: 0 <= i < |c| - 1 ==> Gates(c[i], c[i + 1])
    ensures Rank(c[k]) <= Rank(c[0]) - k
  {
    if k > 0 {
      ChainDescends(c, k - 1);
      assert Gates(c[k - 1], c[k - 1 + 1]);
      GatesRank(c[k - 1], c[k]);
    }
  }

  /** The next want around a circle. */
  function Around(c: seq<Want>, i: nat): Want
    requires i < |c|
  {
    if i + 1 < |c| then c[i + 1] else c[0]
  }

  /** No circle of wants waits on itself. */
  lemma GateAcyclic(c: seq<Want>)
    requires c != []
    ensures exists i: nat :: i < |c| && !Gates(c[i], Around(c, i))
  {
    hide Gates;
    var last := |c| - 1;
    if i :| 0 <= i < last && !Gates(c[i], Around(c, i)) {
    } else {
      forall i | 0 <= i < |c| - 1 ensures Gates(c[i], c[i + 1]) {
        assert Gates(c[i], Around(c, i));
      }
      ChainDescends(c, last);
      if Gates(c[last], c[0]) { GatesRank(c[last], c[0]); }
      assert !Gates(c[last], Around(c, last));
    }
  }

  ghost predicate Lowest(s: List, ps: set<RelPath>, p: RelPath) {
    p in ps && p in s.wants && forall q :: q in ps && q in s.wants ==> Rank(s.wants[p]) <= Rank(s.wants[q])
  }

  lemma {:induction false} LowestExists(s: List, ps: set<RelPath>)
    requires ps != {} && ps <= s.wants.Keys
    ensures exists p :: Lowest(s, ps, p)
  {
    var p :| p in ps;
    if ps == {p} {
      assert Lowest(s, ps, p);
    } else {
      LowestExists(s, ps - {p});
      var q :| Lowest(s, ps - {p}, q);
      assert forall r :: r in ps ==> r == p || r in ps - {p};
      assert Lowest(s, ps, if Rank(s.wants[p]) <= Rank(s.wants[q]) then p else q);
    }
  }

  /** Some want of any list waits on nothing. */
  lemma SomeUngated(s: List)
    requires s.wants != map[]
    ensures exists p :: p in s.wants && !Gated(s, s.wants[p])
  {
    assert s.wants.Keys != {};
    LowestExists(s, s.wants.Keys);
    var p :| Lowest(s, s.wants.Keys, p);
    if Gated(s, s.wants[p]) {
      var q :| q in s.wants && Gates(s.wants[p], s.wants[q]);
      GatesRank(s.wants[p], s.wants[q]);
    }
  }

  // Progress.

  /** Every want has its content and waits only on the gate, and no released commit holds a path. */
  ghost predicate AllReady(s: List) {
    && s.released == map[] && Keyed(s)
    && forall p :: p in s.wants ==> !s.wants[p].NeedsFetch() && (s.wants[p].state.Wanted? || s.wants[p].state.Blocked?)
  }

  ghost predicate AllMoving(s: List) {
    && s.released == map[] && Keyed(s)
    && forall p :: p in s.wants ==>
         && !s.wants[p].NeedsFetch()
         && (s.wants[p].state.Wanted? || s.wants[p].state.Blocked? || s.wants[p].state.Committing?)
  }

  /** With content in hand everywhere, a dispatch is its commit pass. */
  lemma OnlyCommits(s: List, now: int, rules: Rules, peers: Peers)
    requires AllReady(s)
    ensures Dispatch(s, now, rules, peers) == CommitPass(s, now)
  {
    hide CommitPass;
    assert ReleaseWaiting(s) == s by {
      hide Gates;
      assert DoneWaiting(s) == {};
    }
    assert FetchPass(s, now, rules, peers) == (s, []) by { NothingToFetch(s, now, rules, peers); }
    var commits := CommitPass(s, now);
    assert [] + commits.1 == commits.1;
  }

  lemma NothingToFetch(s: List, now: int, rules: Rules, peers: Peers)
    requires AllReady(s)
    ensures FetchPass(s, now, rules, peers) == (s, [])
  {
    hide Allowed, Candidates, FetchOrder, BestSources;
    assert Fetchable(s, rules, peers) == {};
    assert Reselect(s, rules, peers) == s;
    FetchOrderTotal(BestSources(s, rules, peers), peers);
  }

  lemma NoneStuck(s: List, w: Want)
    requires AllMoving(s)
    ensures StuckAhead(s, w) == {}
  {
    hide Gates;
  }

  /** With everything moving, a want commits or is adopted exactly if it is not gated. */
  lemma CommitOneMoving(s: List, p: RelPath, now: int)
    requires AllMoving(s) && p in s.wants && CouldStart(s.wants[p])
    ensures AllMoving(CommitOne(s, p, now).0)
    ensures CommitOne(s, p, now).1 == [] <==> Gated(s, s.wants[p])
  {
    hide Gates, StuckAhead;
    NoneStuck(s, s.wants[p]);
  }

  lemma StaysUngated(s: List, t: List, p: RelPath)
    requires OnlyStates(s, t) && p in s.wants && p in t.wants && !Gated(s, s.wants[p])
    ensures !Gated(t, t.wants[p])
  {
    forall q | q in t.wants ensures Gates(t.wants[p], t.wants[q]) == Gates(s.wants[p], s.wants[q]) {
    }
  }

  lemma {:induction false} CommitAllProgress(s: List, ps: seq<RelPath>, now: int, p: RelPath)
    requires AllMoving(s) && Distinct(ps) && AllCouldStart(s, ps)
    requires p in ps && p in s.wants && !Gated(s, s.wants[p])
    ensures CommitAll(s, ps, now).1 != []
    decreases |ps|
  {
    hide Gated, CommitOne, CouldStart, AllMoving;
    assert ps[0] in ps;
    var (t, steps) := CommitOne(s, ps[0], now);
    CommitOneMoving(s, ps[0], now);
    if ps[0] != p {
      CommitOneElsewhere(s, ps[0], now);
      RestCouldStart(s, t, ps);
      StaysUngated(s, t, p);
      assert p in ps[1..];
      CommitAllProgress(t, ps[1..], now, p);
    }
  }

  /** When every want has its content, and no released commit holds a path, a dispatch of a
      list that is not empty emits a step. */
  lemma NeverStuck(s: List, now: int, rules: Rules, peers: Peers)
    requires AllReady(s) && s.wants != map[]
    ensures Dispatch(s, now, rules, peers).1 != []
  {
    hide Gated, Dispatch, CommitOrder;
    OnlyCommits(s, now, rules, peers);
    SomeUngated(s);
    var p :| p in s.wants && !Gated(s, s.wants[p]);
    CommitOrderFacts(s);
    CommitAllProgress(s, CommitOrder(s), now, p);
  }

  // Emptying the list.

  function CommitPaths(steps: seq<WantStep>): set<RelPath> {
    set st | st in steps && st.Commit? :: st.want.Path()
  }

  /** The host reports every commit of a dispatch done. */
  function ReportAll(s: List, steps: seq<WantStep>, rules: Rules): List
    decreases |steps|
  {
    if steps == [] then s
    else
      var t := match steps[0]
        case Commit(w) => Step(s, CommitDone(w.Path(), w.Version()), rules)
        case _ => s;
      ReportAll(t, steps[1..], rules)
  }

  /** One dispatch, and the reports of what it committed. */
  function Round(s: List, now: int, rules: Rules, peers: Peers): List {
    var (t, steps) := Dispatch(s, now, rules, peers);
    ReportAll(t, steps, rules)
  }

  lemma {:induction false} ReportAllRemoves(s: List, steps: seq<WantStep>, rules: Rules)
    requires s.released == map[]
    ensures ReportAll(s, steps, rules) == List(s.wants - CommitPaths(steps), map[])
    decreases |steps|
  {
    if steps == [] {
      assert CommitPaths(steps) == {};
    } else {
      var here: set<RelPath> := match steps[0] case Commit(w) => {w.Path()} case _ => {};
      var t := List(s.wants - here, map[]);
      assert s.wants - {} == s.wants;
      assert steps[0].Commit? ==> t == Step(s, CommitDone(steps[0].want.Path(), steps[0].want.Version()), rules);
      ReportAllRemoves(t, steps[1..], rules);
      assert steps == [steps[0]] + steps[1..];
      assert CommitPaths(steps) == here + CommitPaths(steps[1..]);
      assert s.wants - here - CommitPaths(steps[1..]) == s.wants - CommitPaths(steps);
    }
  }

  function StepPath(step: WantStep): RelPath {
    match step
    case Fetch(p, _, _) => p
    case Commit(w) => w.Path()
    case Adopt(w) => w.Path()
  }

  /** Where a pass leaves a want: gone if adopted, committing only if the pass committed it. */
  ghost predicate Accounts(s: List, t: List, steps: seq<WantStep>) {
    && (forall p :: IsCommitting(t, p) ==> IsCommitting(s, p) || p in CommitPaths(steps))
    && (forall st :: st in steps ==>
          StepPath(st) in s.wants && (StepPath(st) in t.wants ==> StepPath(st) in CommitPaths(steps)))
  }

  lemma AccountsTransitive(s: List, t: List, u: List, a: seq<WantStep>, b: seq<WantStep>)
    requires Accounts(s, t, a) && Accounts(t, u, b) && OnlyStates(s, t) && OnlyStates(t, u)
    ensures Accounts(s, u, a + b)
  {
    assert CommitPaths(a + b) == CommitPaths(a) + CommitPaths(b);
  }

  lemma CommitOneAccounts(s: List, p: RelPath, now: int)
    requires Keyed(s) && p in s.wants && CouldStart(s.wants[p])
    ensures Accounts(s, CommitOne(s, p, now).0, CommitOne(s, p, now).1)
  {
    hide CommitOne;
    CommitOneOutcome(s, p, now);
    var steps := CommitOne(s, p, now).1;
    if steps == [Commit(s.wants[p])] {
      assert steps[0] in steps;
      assert CommitPaths(steps) == {p};
    }
  }

  lemma {:induction false} CommitAllAccounts(s: List, ps: seq<RelPath>, now: int)
    requires AllMoving(s) && Distinct(ps) && AllCouldStart(s, ps)
    ensures Accounts(s, CommitAll(s, ps, now).0, CommitAll(s, ps, now).1)
    ensures AllMoving(CommitAll(s, ps, now).0) && OnlyStates(s, CommitAll(s, ps, now).0)
    decreases |ps|
  {
    hide CommitOne, CouldStart, Accounts, AllMoving;
    if ps == [] {
      assert Accounts(s, s, []) by { NothingAccounts(s); }
    } else {
      assert ps[0] in ps;
      var (t, steps) := CommitOne(s, ps[0], now);
      CommitOneMoving(s, ps[0], now);
      CommitOneElsewhere(s, ps[0], now);
      MovingKeyed(s);
      CommitOneAccounts(s, ps[0], now);
      RestCouldStart(s, t, ps);
      CommitAllAccounts(t, ps[1..], now);
      AccountsTransitive(s, t, CommitAll(t, ps[1..], now).0, steps, CommitAll(t, ps[1..], now).1);
    }
  }

  lemma NothingAccounts(s: List)
    ensures Accounts(s, s, [])
  {
  }

  lemma MovingKeyed(s: List)
    requires AllMoving(s)
    ensures Keyed(s)
  {
  }

  /** A round leaves the rest ready, and shortens the list. */
  lemma RoundShrinks(s: List, now: int, rules: Rules, peers: Peers)
    requires AllReady(s)
    ensures AllReady(Round(s, now, rules, peers))
    ensures Round(s, now, rules, peers).wants.Keys <= s.wants.Keys
    ensures s.wants != map[] ==> Round(s, now, rules, peers).wants.Keys < s.wants.Keys
  {
    hide Dispatch, CommitOrder, Gates, CouldStart, Distinct;
    var (t, steps) := Dispatch(s, now, rules, peers);
    OnlyCommits(s, now, rules, peers);
    CommitOrderFacts(s);
    CommitAllAccounts(s, CommitOrder(s), now);
    ReportAllRemoves(t, steps, rules);
    if s.wants != map[] {
      NeverStuck(s, now, rules, peers);
      var p := StepPath(steps[0]);
      assert steps[0] in steps;
      assert p in s.wants && p !in Round(s, now, rules, peers).wants;
    }
  }

  function Rounds(s: List, now: int, rules: Rules, peers: Peers, k: nat): List
    decreases k
  {
    if k == 0 then s else Rounds(Round(s, now, rules, peers), now, rules, peers, k - 1)
  }

  lemma SmallerSet<T>(a: set<T>, b: set<T>)
    requires a < b
    ensures |a| < |b|
  {
    assert b == a + (b - a);
    assert b - a != {};
  }

  /** Dispatching again and again, every commit reported done, empties the list in as many
      rounds as it has wants. */
  lemma {:induction false} RoundsEmpty(s: List, now: int, rules: Rules, peers: Peers, k: nat)
    requires AllReady(s) && |s.wants.Keys| <= k
    ensures Rounds(s, now, rules, peers, k).wants == map[]
    decreases k
  {
    hide Round, AllReady;
    if k > 0 {
      RoundShrinks(s, now, rules, peers);
      if s.wants == map[] {
        assert Round(s, now, rules, peers).wants.Keys <= {};
      } else {
        SmallerSet(Round(s, now, rules, peers).wants.Keys, s.wants.Keys);
      }
      RoundsEmpty(Round(s, now, rules, peers), now, rules, peers, k - 1);
    }
  }

  // Independence.

  /** No commit of `steps` is gated by a commit under way in `s`. */
  ghost predicate ClearOf(s: List, steps: seq<WantStep>) {
    forall st, p :: st in steps && st.Commit? && IsCommitting(s, p) ==> !Gates(st.want, s.wants[p])
  }

  ghost predicate Independent(steps: seq<WantStep>) {
    forall a, b :: a in steps && b in steps && a.Commit? && b.Commit? ==> !Gates(a.want, b.want)
  }

  lemma NotSelf(w: Want)
    ensures !Gates(w, w)
  {
  }

  lemma {:induction false} CommitAllIndependent(s: List, ps: seq<RelPath>, now: int)
    requires Distinct(ps) && AllCouldStart(s, ps)
    ensures var steps := CommitAll(s, ps, now).1;
            ClearOf(s, steps) && Independent(steps) && OfWants(s, ps, steps)
    decreases |ps|
  {
    hide CommitOne, CouldStart, Gates;
    if ps != [] {
      assert ps[0] in ps;
      var (t, steps) := CommitOne(s, ps[0], now);
      CommitOneElsewhere(s, ps[0], now);
      CommitOneOutcome(s, ps[0], now);
      RestCouldStart(s, t, ps);
      var more := CommitAll(t, ps[1..], now).1;
      CommitAllIndependent(t, ps[1..], now);
      OfWantsBefore(s, t, ps, more);
      NotCommittingYet(s, ps[0]);
      ClearBefore(s, t, ps[0], more);
      FirstUngated(s, ps[0], now);
      JoinIndependent(s, t, ps, steps, more);
    }
  }

  /** Every commit of `steps` is of a want of `s` at one of `ps`, as it stands. */
  ghost predicate OfWants(s: List, ps: seq<RelPath>, steps: seq<WantStep>) {
    forall st :: st in steps && st.Commit? ==> exists p :: p in ps && p in s.wants && s.wants[p] == st.want
  }

  lemma OfWantsBefore(s: List, t: List, ps: seq<RelPath>, steps: seq<WantStep>)
    requires ps != [] && Distinct(ps) && ChangedAt(s, t, ps[0]) && OfWants(t, ps[1..], steps)
    ensures OfWants(s, ps, steps)
  {
    forall st | st in steps && st.Commit? ensures exists p :: p in ps && p in s.wants && s.wants[p] == st.want {
      var p :| p in ps[1..] && p in t.wants && t.wants[p] == st.want;
      assert p in ps && p != ps[0];
    }
  }

  lemma NotCommittingYet(s: List, p: RelPath)
    requires p in s.wants && CouldStart(s.wants[p])
    ensures !IsCommitting(s, p)
  {
  }

  lemma ClearBefore(s: List, t: List, p: RelPath, steps: seq<WantStep>)
    requires ChangedAt(s, t, p) && !IsCommitting(s, p) && ClearOf(t, steps)
    ensures ClearOf(s, steps)
  {
    hide Gates;
    forall st, q | st in steps && st.Commit? && IsCommitting(s, q) ensures !Gates(st.want, s.wants[q]) {
      assert IsCommitting(t, q) && t.wants[q] == s.wants[q];
    }
  }

  /** A want is committed only if nothing on the list gates it. */
  lemma FirstUngated(s: List, p: RelPath, now: int)
    requires p in s.wants
    ensures CommitOne(s, p, now).1 == [Commit(s.wants[p])] ==> !Gated(s, s.wants[p])
  {
    hide Gates;
  }

  lemma JoinIndependent(s: List, t: List, ps: seq<RelPath>, a: seq<WantStep>, b: seq<WantStep>)
    requires ps != [] && ps[0] in s.wants
    requires ClearOf(s, b) && ClearOf(t, b) && Independent(b) && OfWants(s, ps, b)
    requires a == [] || a == [Adopt(s.wants[ps[0]])]
             || (a == [Commit(s.wants[ps[0]])] && !Gated(s, s.wants[ps[0]])
                 && IsCommitting(t, ps[0]) && t.wants[ps[0]] == s.wants[ps[0]].(state := t.wants[ps[0]].state))
    ensures ClearOf(s, a + b) && Independent(a + b) && OfWants(s, ps, a + b)
  {
    assert forall st :: st in a + b <==> st in a || st in b;
    if a == [Commit(s.wants[ps[0]])] {
      var w := s.wants[ps[0]];
      assert ps[0] in ps;
      forall st | st in b && st.Commit? ensures !Gates(st.want, w) && !Gates(w, st.want) {
        StateUnread(st.want, w, t.wants[ps[0]]);
        var p :| p in ps && p in s.wants && s.wants[p] == st.want;
      }
      NotSelf(w);
      hide Gates;
    }
  }

  lemma StateUnread(w: Want, other: Want, moved: Want)
    requires moved == other.(state := moved.state)
    ensures Gates(w, other) == Gates(w, moved)
  {
  }

  /** Two commits of one dispatch never wait on each other. */
  lemma CommitsIndependent(s: List, now: int, rules: Rules, peers: Peers, out: map<RelPath, Version>)
    requires Inv(s, out, rules)
    ensures Independent(Dispatch(s, now, rules, peers).1)
  {
    hide Inv, Gates, CommitOrder, FetchPass, ReleaseWaiting, Quiet;
    var a := ReleaseWaiting(s);
    WaitingQuiet(s);
    QuietInv(s, a, out, rules);
    var (b, fetches) := FetchPass(a, now, rules, peers);
    FetchPassInv(a, now, rules, peers, out);
    FetchStepsOnly(a, fetches, rules, peers);
    CommitOrderFacts(b);
    OrderCouldStart(b);
    CommitAllIndependent(b, CommitOrder(b), now);
    var commits := CommitAll(b, CommitOrder(b), now).1;
    assert forall st :: st in fetches + commits && st.Commit? ==> st in commits;
  }
}
