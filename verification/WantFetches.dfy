/** Over runs: a source that sent bad content is left alone for its time, and nothing is committed
    that no source has served. */
module WantFetches {
  import opened Prelude
  import opened Versions
  import opened Paths
  import opened Entries
  import opened Wants
  import opened Dispatching
  import opened WantRuns
  import WantMeanings
  import WantRefusals
  import Classify

  // Exclusions.

  /** The want at `p` has `n` excluded until `until` or later. */
  predicate Excluded(s: List, p: RelPath, n: NodeId, until: int) {
    p in s.wants && n in s.wants[p].excluded && s.wants[p].excluded[n] >= until
  }

  /** The exclusion is lifted: the content is announced, the source reconnects, or its time is up. */
  predicate EndsExclusion(s: List, op: Op, p: RelPath, n: NodeId)
    requires p in s.wants && n in s.wants[p].excluded
  {
    match op
    case Announcing(q, hash, _) => q == p && hash != 0 && hash == s.wants[p].entry.hash
    case Reconnecting(peer) => peer == n
    case Expiring(now) => s.wants[p].excluded[n] <= now
    case _ => false
  }

  /** What a report makes of a want leaves alone the exclusions of those it does not come from. */
  lemma ReportExclusions(w: Want, now: int, report: FetchReport, n: NodeId)
    requires w.state.Fetching? && n in w.excluded && n != w.state.from
    ensures n in FetchedWant(w, now, report).excluded && FetchedWant(w, now, report).excluded[n] == w.excluded[n]
  {
    hide FailedWant;
    if report.FetchFailed? { WantMeanings.FailedMeans(w, now, report.error, None); }
  }

  lemma ReportedExclusions(s: List, op: Op, rules: Rules, p: RelPath, n: NodeId, until: int)
    requires Sound(s) && Excluded(s, p, n, until)
    requires op.FetchReported? || op.FetchFailing? || op.CommitFailed?
    ensures Excluded(Step(s, op, rules), p, n, until)
  {
    hide FetchedWant, FailedWant;
    var w := s.wants[p];
    assert FetchSound(w);
    if op.FetchReported? {
      if w.state.Fetching? { ReportExclusions(w, op.now, op.report, n); }
    } else {
      WantMeanings.FailedMeans(w, op.now, op.error, op.withSeq);
    }
  }

  lemma DispatchExclusions(s: List, op: Op, rules: Rules, out: map<RelPath, Version>, p: RelPath, n: NodeId, until: int)
    requires Inv(s, out, rules) && op.Dispatches? && Excluded(s, p, n, until)
    ensures p in Step(s, op, rules).wants ==> Excluded(Step(s, op, rules), p, n, until)
  {
    hide Dispatch, Inv;
    DispatchInv(s, op.now, rules, op.peers, out);
  }

  lemma LiftingExclusions(s: List, op: Op, rules: Rules, p: RelPath, n: NodeId, until: int)
    requires Excluded(s, p, n, until) && (op.Announcing? || op.Reconnecting? || op.Expiring?)
    ensures Excluded(Step(s, op, rules), p, n, until) <==> !EndsExclusion(s, op, p, n)
  {
    hide NoteAnnounced, Reconnected, Expire, WantMeanings.StateAt;
    if op.Announcing? {
      WantMeanings.AnnouncedMeans(s, op.path, op.hash, op.teller);
      if op.path != p { Elsewhere(s.wants, NoteAnnounced(s, op.path, op.hash, op.teller).wants, op.path, p); }
    } else if op.Reconnecting? {
      WantMeanings.ReconnectedMeans(s, op.peer, p);
    } else {
      WantMeanings.TimeMeans(s, op.now, p);
    }
  }

  lemma Elsewhere(a: map<RelPath, Want>, b: map<RelPath, Want>, p: RelPath, q: RelPath)
    requires a - {p} == b - {p} && p != q
    ensures q in a <==> q in b
    ensures q in a ==> a[q] == b[q]
  {
    assert q in a - {p} <==> q in a;
    assert q in b - {p} <==> q in b;
    if q in a { assert (a - {p})[q] == a[q] && (b - {p})[q] == b[q]; }
  }

  lemma InsertExclusions(s: List, op: Op, rules: Rules, p: RelPath, n: NodeId, until: int)
    requires op.Inserting? && Excluded(s, p, n, until) && !WantRefusals.Replaces(s, op, p, rules)
    ensures Excluded(Step(s, op, rules), p, n, until)
  {
    hide Want.Busy, Compare;
  }

  lemma OtherExclusions(s: List, op: Op, rules: Rules, out: map<RelPath, Version>, p: RelPath, n: NodeId, until: int)
    requires Enabled(s, out, op) && Excluded(s, p, n, until) && !WantRefusals.Replaces(s, op, p, rules)
    requires !op.Dispatches? && !op.FetchReported? && !op.FetchFailing? && !op.CommitFailed?
    requires !op.Announcing? && !op.Reconnecting? && !op.Expiring? && !op.Inserting?
    ensures Excluded(Step(s, op, rules), p, n, until)
  {
    hide DoneWaiting, Startable, WaitingForSpace, Recollided, FetchingFrom, Gates;
  }

  /** While the want stays, its exclusion of a source ends only in one of those ways. */
  lemma ExclusionEnds(s: List, op: Op, rules: Rules, out: map<RelPath, Version>, p: RelPath, n: NodeId, until: int)
    requires Inv(s, out, rules) && Enabled(s, out, op) && Excluded(s, p, n, until)
    requires !WantRefusals.Replaces(s, op, p, rules)
    ensures Excluded(Step(s, op, rules), p, n, until) <==> !EndsExclusion(s, op, p, n)
  {
    hide WithinSlots, HostHas, Apart, Keyed, Step, Enabled;
    if op.Dispatches? {
      hide Sound, Accounted;
      DispatchExclusions(s, op, rules, out, p, n, until);
      assert p in Step(s, op, rules).wants by { StillWanted(s, op, rules, p); }
    } else if op.Announcing? || op.Reconnecting? || op.Expiring? {
      hide Sound, Accounted;
      LiftingExclusions(s, op, rules, p, n, until);
    } else if op.FetchReported? || op.FetchFailing? || op.CommitFailed? {
      ReportedExclusions(s, op, rules, p, n, until);
    } else if op.Inserting? {
      InsertExclusions(s, op, rules, p, n, until);
    } else {
      OtherExclusions(s, op, rules, out, p, n, until);
    }
  }

  lemma StillWanted(s: List, op: Op, rules: Rules, p: RelPath)
    requires op.Dispatches? && !WantRefusals.Replaces(s, op, p, rules)
    ensures p in Step(s, op, rules).wants
  {
    hide Dispatch;
  }

  /** A dispatch never asks an excluded source. */
  lemma DispatchAsksNoExcluded(s: List, now: int, rules: Rules, peers: Peers, out: map<RelPath, Version>,
                               p: RelPath, n: NodeId, until: int)
    requires Inv(s, out, rules) && Excluded(s, p, n, until)
    ensures WantRefusals.NotAsked(Dispatch(s, now, rules, peers).1, p, n)
  {
    hide Inv, FetchPass, CommitPass, ReleaseWaiting, Quiet;
    var a := ReleaseWaiting(s);
    WaitingQuiet(s);
    QuietInv(s, a, out, rules);
    var (b, fetches) := FetchPass(a, now, rules, peers);
    FetchPassInv(a, now, rules, peers, out);
    forall i | 0 <= i < |fetches| ensures !(fetches[i].Fetch? && fetches[i].path == p && fetches[i].from == n) {
      assert FromAllowed(a, fetches[i], rules, peers);
    }
    WantRefusals.CommitsAskNone(b, now, p, n);
  }

  /** A run in which the want at `p` stays, and its exclusion of `n` until `until` is not lifted. */
  predicate Standing(s: List, ops: seq<Op>, rules: Rules, p: RelPath, n: NodeId, until: int)
    decreases |ops|
  {
    ops == [] ||
    (&& !WantRefusals.Replaces(s, ops[0], p, rules)
     && (ops[0].Announcing? ==> !(ops[0].path == p && WantsContent(s, p, ops[0].hash)))
     && (ops[0].Reconnecting? ==> ops[0].peer != n)
     && (ops[0].Expiring? ==> ops[0].now < until)
     && Standing(Step(s, ops[0], rules), ops[1..], rules, p, n, until))
  }

  lemma {:induction false} ExcludedThroughout(s: List, out: map<RelPath, Version>, ops: seq<Op>, rules: Rules,
                                              p: RelPath, n: NodeId, until: int)
    requires Inv(s, out, rules) && CanRun(s, out, ops, rules)
    requires Excluded(s, p, n, until) && Standing(s, ops, rules, p, n, until)
    ensures WantRefusals.NeverAsks(s, ops, rules, p, n)
    decreases |ops|
  {
    hide Inv, Step, WantRefusals.Replaces, NextOut;
    if ops != [] {
      ExclusionEnds(s, ops[0], rules, out, p, n, until);
      StepInv(s, ops[0], out, rules);
      if ops[0].Dispatches? {
        DispatchAsksNoExcluded(s, ops[0].now, rules, ops[0].peers, out, p, n, until);
      }
      ExcludedThroughout(Step(s, ops[0], rules), NextOut(s, out, ops[0], rules), ops[1..], rules, p, n, until);
    }
  }

  /** Bad content is not asked for again at once: after a source sent content without the hash, no
      dispatch of any run asks it for that want until its backoff, of a minute at least, is over,
      unless the content is announced or the source reconnects. */
  lemma NoEarlyRetry(s: List, out: map<RelPath, Version>, now: int, p: RelPath, v: Version, ops: seq<Op>,
                     rules: Rules, until: int)
    requires Inv(s, out, rules) && AwaitsFetch(s, p, v)
    requires var t := FetchedAt(s, now, p, v, HashMismatch);
             && CanRun(t, out, ops, rules) && until <= now + 60 * 1_000_000_000
             && Standing(t, ops, rules, p, s.wants[p].state.from, until)
    ensures WantRefusals.NeverAsks(FetchedAt(s, now, p, v, HashMismatch), ops, rules, p, s.wants[p].state.from)
  {
    hide Inv, FetchedWant;
    var op := FetchReported(now, p, v, HashMismatch);
    var t := FetchedAt(s, now, p, v, HashMismatch);
    StepInv(s, op, out, rules);
    WantMeanings.MismatchMeans(s.wants[p], now);
    ExcludedThroughout(t, out, ops, rules, p, s.wants[p].state.from, until);
  }

  // What is in hand.

  /** The want at `p` is to fetch version `v`, and has its content in hand. */
  predicate InHand(s: List, p: RelPath, v: Version) {
    p in s.wants && s.wants[p].entry.version == v && s.wants[p].mode == Classify.Fetch && s.wants[p].fetched
  }

  /** The host reports that a source served the version. */
  predicate IsServed(op: Op, p: RelPath, v: Version) {
    op.FetchReported? && op.path == p && op.version == v && op.report == Served
  }

  lemma ReportInHand(s: List, op: Op, rules: Rules, p: RelPath, v: Version)
    requires (op.FetchReported? || op.FetchFailing? || op.CommitFailed?) && !IsServed(op, p, v) && !InHand(s, p, v)
    ensures !InHand(Step(s, op, rules), p, v)
  {
    hide FetchedWant, FailedWant;
    if p in s.wants {
      if op.FetchReported? {
        if s.wants[p].state.Fetching? { WantMeanings.ServedMeans(s.wants[p], op.now, op.report); }
      } else {
        WantMeanings.FailedMeans(s.wants[p], op.now, op.error, op.withSeq);
      }
    }
  }

  /** What is announced, lifted or over leaves what is in hand as it is. */
  lemma LiftInHand(s: List, op: Op, rules: Rules, p: RelPath, v: Version)
    requires (op.Announcing? || op.Reconnecting? || op.Expiring?) && !InHand(s, p, v)
    ensures !InHand(Step(s, op, rules), p, v)
  {
    hide NoteAnnounced, Reconnected, Expire, WantMeanings.StateAt, WantMeanings.LiftedTo, WantMeanings.Outlasts;
    SameKeys(s, op);
    if op.Announcing? {
      WantMeanings.AnnouncedMeans(s, op.path, op.hash, op.teller);
      var t := NoteAnnounced(s, op.path, op.hash, op.teller);
      if t != s {
        if op.path == p {
          LiftedSame(s.wants[p], t.wants[p], map[]);
        } else {
          Elsewhere(s.wants, t.wants, op.path, p);
        }
      }
    } else if p in s.wants {
      if op.Reconnecting? {
        WantMeanings.ReconnectedMeans(s, op.peer, p);
        if op.peer in s.wants[p].excluded {
          LiftedSame(s.wants[p], Reconnected(s, op.peer).wants[p], s.wants[p].excluded - {op.peer});
        }
      } else {
        WantMeanings.TimeMeans(s, op.now, p);
      }
    }
  }

  lemma LiftedSame(w: Want, v: Want, excluded: map<NodeId, int>)
    requires WantMeanings.LiftedTo(w, v, excluded)
    ensures v.fetched == w.fetched && v.mode == w.mode && v.entry == w.entry
  {
  }

  lemma InsertInHand(s: List, op: Op, rules: Rules, p: RelPath, v: Version)
    requires op.Inserting? && !InHand(s, p, v)
    ensures !InHand(Step(s, op, rules), p, v)
  {
    hide Insert, WantMeanings.Supersedes;
    WantMeanings.InsertMeans(s, op.item, op.received, op.batch, op.source, op.seqHigh, op.marked);
    var t := Insert(s, op.item, op.received, op.batch, op.source, op.seqHigh, op.marked);
    if op.item.entry.path != p { Elsewhere(s.wants, t.wants, op.item.entry.path, p); }
  }

  /** What takes, keeps or sets aside wants brings nothing into hand. */
  lemma OtherInHand(s: List, op: Op, rules: Rules, out: map<RelPath, Version>, p: RelPath, v: Version)
    requires Enabled(s, out, op) && !InHand(s, p, v)
    requires !op.Dispatches? && !op.FetchReported? && !op.FetchFailing? && !op.CommitFailed?
    requires !op.Announcing? && !op.Reconnecting? && !op.Expiring? && !op.Inserting?
    ensures !InHand(Step(s, op, rules), p, v)
  {
    hide Startable, WaitingForSpace, Recollided, FetchingFrom;
  }

  lemma DispatchKeepsHand(s: List, op: Op, rules: Rules, out: map<RelPath, Version>, p: RelPath, v: Version)
    requires Inv(s, out, rules) && op.Dispatches? && !InHand(s, p, v)
    ensures !InHand(Step(s, op, rules), p, v)
  {
    hide Inv, Dispatch;
    DispatchInv(s, op.now, rules, op.peers, out);
  }

  /** Content comes into hand only by a source serving it. */
  lemma OnlyServedInHand(s: List, op: Op, rules: Rules, out: map<RelPath, Version>, p: RelPath, v: Version)
    requires Inv(s, out, rules) && Enabled(s, out, op) && !IsServed(op, p, v) && !InHand(s, p, v)
    ensures !InHand(Step(s, op, rules), p, v)
  {
    hide Inv, Enabled, Step, InHand, IsServed;
    if op.Dispatches? {
      DispatchKeepsHand(s, op, rules, out, p, v);
    } else if op.FetchReported? || op.FetchFailing? || op.CommitFailed? {
      ReportInHand(s, op, rules, p, v);
    } else if op.Announcing? || op.Reconnecting? || op.Expiring? {
      LiftInHand(s, op, rules, p, v);
    } else if op.Inserting? {
      InsertInHand(s, op, rules, p, v);
    } else {
      OtherInHand(s, op, rules, out, p, v);
    }
  }

  lemma SameKeys(s: List, op: Op)
    ensures op.Reconnecting? ==> Reconnected(s, op.peer).wants.Keys == s.wants.Keys
    ensures op.Expiring? ==> Expire(s, op.now).wants.Keys == s.wants.Keys
  {
  }

  /** A commit the host is given has its content in hand, if it is one that needs any. */
  ghost predicate AllInHand(s: List, steps: seq<WantStep>) {
    forall i :: 0 <= i < |steps| && steps[i].Commit? && steps[i].want.mode == Classify.Fetch ==>
      InHand(s, steps[i].want.entry.path, steps[i].want.entry.version)
  }

  lemma InHandMoves(s: List, t: List, steps: seq<WantStep>)
    requires OnlyStates(s, t) && AllInHand(t, steps)
    ensures AllInHand(s, steps)
  {
    forall i | 0 <= i < |steps| && steps[i].Commit? && steps[i].want.mode == Classify.Fetch
      ensures InHand(s, steps[i].want.entry.path, steps[i].want.entry.version)
    {
      assert InHand(t, steps[i].want.entry.path, steps[i].want.entry.version);
    }
  }

  ghost predicate AllReady(s: List, ps: seq<RelPath>) {
    forall p :: p in ps ==> p in s.wants && s.wants[p].entry.path == p && CouldStart(s.wants[p])
                            && (s.wants[p].mode == Classify.Fetch ==> s.wants[p].fetched)
  }

  lemma RestReady(s: List, t: List, ps: seq<RelPath>)
    requires ps != [] && Distinct(ps) && AllReady(s, ps) && ChangedAt(s, t, ps[0])
    ensures Distinct(ps[1..]) && AllReady(t, ps[1..])
  {
    forall p | p in ps[1..]
      ensures p in t.wants && t.wants[p].entry.path == p && CouldStart(t.wants[p])
      ensures t.wants[p].mode == Classify.Fetch ==> t.wants[p].fetched
    {
      assert p in ps && p != ps[0];
    }
  }

  lemma {:induction false} CommitsInHand(s: List, ps: seq<RelPath>, now: int)
    requires Distinct(ps) && AllReady(s, ps)
    ensures AllInHand(s, CommitAll(s, ps, now).1)
    decreases |ps|
  {
    hide CommitOne, ChangedAt, OnlyStates, CouldStart;
    if ps != [] {
      assert ps[0] in ps;
      var (t, steps) := CommitOne(s, ps[0], now);
      CommitOneOutcome(s, ps[0], now);
      CommitOneElsewhere(s, ps[0], now);
      RestReady(s, t, ps);
      CommitsInHand(t, ps[1..], now);
      InHandMoves(s, t, CommitAll(t, ps[1..], now).1);
    }
  }

  lemma DispatchInHand(s: List, now: int, rules: Rules, peers: Peers, out: map<RelPath, Version>)
    requires Inv(s, out, rules)
    ensures AllInHand(s, Dispatch(s, now, rules, peers).1)
  {
    hide Inv, FetchPass, CommitOrder, ReleaseWaiting, Quiet, CouldStart, OnlyStates, FromAllowed;
    var a := ReleaseWaiting(s);
    WaitingQuiet(s);
    QuietInv(s, a, out, rules);
    var (b, fetches) := FetchPass(a, now, rules, peers);
    FetchPassInv(a, now, rules, peers, out);
    FetchStepsOnly(a, fetches, rules, peers);
    CommitOrderFacts(b);
    assert AllReady(b, CommitOrder(b)) by { PathsOf(b, out, rules); }
    CommitsInHand(b, CommitOrder(b), now);
    InHandMoves(a, b, CommitAll(b, CommitOrder(b), now).1);
    InHandMoves(s, a, CommitAll(b, CommitOrder(b), now).1);
  }

  lemma PathsOf(s: List, out: map<RelPath, Version>, rules: Rules)
    requires Inv(s, out, rules)
    ensures forall p :: p in s.wants ==> s.wants[p].entry.path == p
  {
    forall p | p in s.wants ensures s.wants[p].entry.path == p {
      assert s.wants[p].Path() == p;
    }
  }

  /** No dispatch of the run commits fetched content of version `v` at `p`. */
  predicate NeverCommits(s: List, ops: seq<Op>, rules: Rules, p: RelPath, v: Version)
    decreases |ops|
  {
    ops == [] ||
    ((forall i :: 0 <= i < |StepsOf(s, ops[0], rules)| ==>
        var step := StepsOf(s, ops[0], rules)[i];
        !(step.Commit? && step.want.mode == Classify.Fetch
          && step.want.entry.path == p && step.want.entry.version == v))
     && NeverCommits(Step(s, ops[0], rules), ops[1..], rules, p, v))
  }

  /** Nothing is committed unserved: in no run from a list that has the content of a version not in
      hand is that version committed as fetched, unless a source was reported to have served it. */
  lemma {:induction false} NothingUnserved(s: List, out: map<RelPath, Version>, ops: seq<Op>, rules: Rules,
                                           p: RelPath, v: Version)
    requires Inv(s, out, rules) && CanRun(s, out, ops, rules) && !InHand(s, p, v)
    requires forall i :: 0 <= i < |ops| ==> !IsServed(ops[i], p, v)
    ensures NeverCommits(s, ops, rules, p, v)
    decreases |ops|
  {
    hide Inv, Step, NextOut, Dispatch;
    if ops != [] {
      OnlyServedInHand(s, ops[0], rules, out, p, v);
      StepInv(s, ops[0], out, rules);
      if ops[0].Dispatches? {
        DispatchInHand(s, ops[0].now, rules, ops[0].peers, out);
      }
      NothingUnserved(Step(s, ops[0], rules), NextOut(s, out, ops[0], rules), ops[1..], rules, p, v);
    }
  }

  /** Nothing is in hand in a list that starts empty, nor after a restart: what was served before it
      does not count. */
  lemma NothingInHand(s: List, p: RelPath, v: Version)
    ensures !InHand(NOTHING, p, v) && !InHand(Restarted(s), p, v)
  {
    if p in s.wants { WantMeanings.RestartMeans(s, p); }
  }
}
