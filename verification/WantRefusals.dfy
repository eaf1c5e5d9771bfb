/** A source that answered that it lacks the content is not asked again for an hour. */
module WantRefusals {
  import opened Prelude
  import opened Versions
  import opened Paths
  import opened Entries
  import opened Wants
  import opened Dispatching
  import opened WantRuns

  /** The want at `p` may not ask `n` before `until`. */
  predicate Barred(s: List, p: RelPath, n: NodeId, until: int) {
    p in s.wants && n in s.wants[p].refused && s.wants[p].refused[n] >= until
  }

  /** The want at `p` goes, or another takes its place. */
  predicate Replaces(s: List, op: Op, p: RelPath, rules: Rules) {
    match op
    case Inserting(item, _, _, _, _, _) =>
      item.entry.path == p && p in s.wants && item.entry.version != s.wants[p].Version()
      && !InsertRefused(s, item)
    case Taking(q) => q == p
    case Removing(q) => q == p
    case InsertingReverted(w) => w.Path() == p
    case CommitDone(q, v) => q == p && !IsReleased(s, q, v)
    case Dispatches(now, peers) => p !in Dispatch(s, now, rules, peers).0.wants
    case _ => false
  }

  /** The refusal ends: the source announces the wanted content, or its time is up. */
  predicate Lifts(s: List, op: Op, p: RelPath, n: NodeId, until: int)
    requires Barred(s, p, n, until)
  {
    match op
    case Announcing(q, hash, teller) => q == p && teller == n && WantsContent(s, p, hash)
    case Expiring(now) => s.wants[p].refused[n] <= now
    case _ => false
  }

  predicate SameRefusals(s: List, t: List, p: RelPath) {
    p in s.wants && p in t.wants && t.wants[p].refused == s.wants[p].refused
  }

  lemma DispatchRefusals(s: List, now: int, rules: Rules, peers: Peers, out: map<RelPath, Version>, p: RelPath)
    requires Inv(s, out, rules) && p in s.wants
    ensures p in Dispatch(s, now, rules, peers).0.wants ==> SameRefusals(s, Dispatch(s, now, rules, peers).0, p)
  {
    hide Dispatch, Inv;
    DispatchInv(s, now, rules, peers, out);
  }

  lemma LiftRefusals(w: Want, now: int)
    ensures LiftDue(w, now).refused == w.refused
  {
  }

  lemma TimedRefusals(w: Want, now: int)
    ensures Timed(w, now).refused == w.refused
  {
  }

  lemma TimeRefusals(w: Want, now: int)
    ensures ExpiredWant(w, now).refused == w.refused - Due(w.refused, now)
  {
    hide LiftDue, Timed, Due;
    LiftRefusals(w, now);
    TimedRefusals(LiftDue(w, now).(refused := w.refused - Due(w.refused, now)), now);
  }

  lemma FailedRefusals(w: Want, now: int, error: LocalError, withSeq: Option<nat>)
    ensures FailedWant(w, now, error, withSeq).refused == w.refused
  {
  }

  lemma FetchedRefusals(w: Want, now: int, report: FetchReport, n: NodeId)
    requires w.state.Fetching? && n in w.refused && n != w.state.from
    ensures n in FetchedWant(w, now, report).refused
    ensures FetchedWant(w, now, report).refused[n] == w.refused[n]
  {
    if report.FetchFailed? { FailedRefusals(w, now, report.error, None); }
  }

  lemma ReportRefusals(s: List, op: Op, rules: Rules, p: RelPath, n: NodeId, until: int)
    requires Sound(s) && Barred(s, p, n, until)
    requires op.FetchReported? || op.FetchFailing? || op.CommitFailed?
    ensures Barred(Step(s, op, rules), p, n, until)
  {
    hide FetchedWant, FailedWant;
    var w := s.wants[p];
    assert FetchSound(w);
    if op.FetchReported? {
      if w.state.Fetching? { FetchedRefusals(w, op.now, op.report, n); }
    } else {
      FailedRefusals(w, op.now, op.error, op.withSeq);
    }
  }

  /** While the want stays, its refusal of a source ends only in one of those ways. */
  lemma RefusalEnds(s: List, op: Op, rules: Rules, out: map<RelPath, Version>, p: RelPath, n: NodeId, until: int)
    requires Inv(s, out, rules) && Enabled(s, out, op) && Barred(s, p, n, until) && !Replaces(s, op, p, rules)
    ensures Barred(Step(s, op, rules), p, n, until) <==> !Lifts(s, op, p, n, until)
  {
    hide Dispatch, WithinSlots, HostHas, Apart, Keyed, ExclusionBackoff, Gates;
    if op.Dispatches? {
      DispatchRefusals(s, op.now, rules, op.peers, out, p);
    } else if op.Expiring? {
      hide ExpiredWant;
      TimeRefusals(s.wants[p], op.now);
    } else if op.FetchReported? || op.FetchFailing? || op.CommitFailed? {
      ReportRefusals(s, op, rules, p, n, until);
    } else {
      OtherRefusals(s, op, rules, out, p, n, until);
    }
  }

  lemma OtherRefusals(s: List, op: Op, rules: Rules, out: map<RelPath, Version>, p: RelPath, n: NodeId, until: int)
    requires Enabled(s, out, op) && Barred(s, p, n, until) && !Replaces(s, op, p, rules)
    requires !op.Dispatches? && !op.Expiring? && !op.FetchReported? && !op.FetchFailing? && !op.CommitFailed?
    ensures Barred(Step(s, op, rules), p, n, until) <==> !Lifts(s, op, p, n, until)
  {
    hide Gates, Compare, DoneWaiting;
    if op.Inserting? {
      hide Want.Busy;
    } else if op.Reconnecting? {
      hide Recounted;
      ReconnectedRefusals(s.wants[p], op.peer);
    } else if op.Announcing? {
      hide Recounted;
      AnnouncedRefusals(s.wants[p], op.teller);
    }
  }

  lemma RecountedRefusals(w: Want)
    ensures Recounted(w).refused == w.refused
  {
  }

  lemma ReconnectedRefusals(w: Want, peer: NodeId)
    ensures ReconnectedWant(w, peer).refused == w.refused
  {
    hide Recounted;
    RecountedRefusals(w.(excluded := w.excluded - {peer}));
  }

  lemma AnnouncedRefusals(w: Want, teller: NodeId)
    ensures Announced(w, teller).refused == w.refused - {teller}
  {
    hide Recounted;
    RecountedRefusals(w.(sources := w.sources + {teller}, refused := w.refused - {teller}, excluded := map[]));
  }

  /** A dispatch never asks a refused source. */
  lemma DispatchAsksNoRefused(s: List, now: int, rules: Rules, peers: Peers, out: map<RelPath, Version>,
                              p: RelPath, n: NodeId, until: int)
    requires Inv(s, out, rules) && Barred(s, p, n, until)
    ensures NotAsked(Dispatch(s, now, rules, peers).1, p, n)
  {
    hide Inv, FetchPass, CommitPass, ReleaseWaiting, Quiet;
    var a := ReleaseWaiting(s);
    WaitingQuiet(s);
    QuietInv(s, a, out, rules);
    var (b, fetches) := FetchPass(a, now, rules, peers);
    FetchPassInv(a, now, rules, peers, out);
    FetchesAskNone(a, fetches, rules, peers, p, n);
    CommitsAskNone(b, now, p, n);
  }

  predicate NotAsked(steps: seq<WantStep>, p: RelPath, n: NodeId) {
    forall i :: 0 <= i < |steps| ==> !(steps[i].Fetch? && steps[i].path == p && steps[i].from == n)
  }

  lemma FetchesAskNone(s: List, steps: seq<WantStep>, rules: Rules, peers: Peers, p: RelPath, n: NodeId)
    requires AllAllowed(s, steps, rules, peers) && p in s.wants && n in s.wants[p].refused
    ensures NotAsked(steps, p, n)
  {
    forall i | 0 <= i < |steps| ensures !(steps[i].Fetch? && steps[i].path == p && steps[i].from == n) {
      assert FromAllowed(s, steps[i], rules, peers);
    }
  }

  lemma CommitsAskNone(s: List, now: int, p: RelPath, n: NodeId)
    ensures NotAsked(CommitPass(s, now).1, p, n)
  {
    CommitOrderFacts(s);
    CommitStepsAskNone(s, CommitOrder(s), now, p, n);
  }

  lemma {:induction false} CommitStepsAskNone(s: List, ps: seq<RelPath>, now: int, p: RelPath, n: NodeId)
    requires Distinct(ps) && forall q :: q in ps ==> q in s.wants
    ensures NotAsked(CommitAll(s, ps, now).1, p, n)
    decreases |ps|
  {
    hide CommitOne;
    if ps != [] {
      CommitOneOutcome(s, ps[0], now);
      CommitStepsAskNone(CommitOne(s, ps[0], now).0, ps[1..], now, p, n);
    }
  }

  /** A run in which the want at `p` stays, time stays before `until`, and `n` does not
      announce the content. */
  predicate Undisturbed(s: List, ops: seq<Op>, rules: Rules, p: RelPath, n: NodeId, until: int)
    decreases |ops|
  {
    ops == [] ||
    (&& !Replaces(s, ops[0], p, rules)
     && (ops[0].Announcing? ==> !(ops[0].path == p && ops[0].teller == n && WantsContent(s, p, ops[0].hash)))
     && (ops[0].Expiring? ==> ops[0].now < until)
     && Undisturbed(Step(s, ops[0], rules), ops[1..], rules, p, n, until))
  }

  /** No dispatch of the run fetches the want at `p` from `n`. */
  predicate NeverAsks(s: List, ops: seq<Op>, rules: Rules, p: RelPath, n: NodeId)
    decreases |ops|
  {
    ops == [] ||
    (NotAsked(StepsOf(s, ops[0], rules), p, n) && NeverAsks(Step(s, ops[0], rules), ops[1..], rules, p, n))
  }

  lemma {:induction false} BarredThroughout(s: List, out: map<RelPath, Version>, ops: seq<Op>, rules: Rules,
                                            p: RelPath, n: NodeId, until: int)
    requires Inv(s, out, rules) && CanRun(s, out, ops, rules)
    requires Barred(s, p, n, until) && Undisturbed(s, ops, rules, p, n, until)
    ensures NeverAsks(s, ops, rules, p, n)
    decreases |ops|
  {
    hide Inv, Step, Replaces, NextOut;
    if ops != [] {
      RefusalEnds(s, ops[0], rules, out, p, n, until);
      StepInv(s, ops[0], out, rules);
      if ops[0].Dispatches? {
        DispatchAsksNoRefused(s, ops[0].now, rules, ops[0].peers, out, p, n, until);
      }
      BarredThroughout(Step(s, ops[0], rules), NextOut(s, out, ops[0], rules), ops[1..], rules, p, n, until);
    }
  }

  /** No request storm: once a source has answered `NotAvailable` at `now`, no dispatch of any
      run asks it for that want within the hour unless it announces the content first. */
  lemma NoRequestStorm(s: List, out: map<RelPath, Version>, now: int, p: RelPath, v: Version, ops: seq<Op>,
                       rules: Rules)
    requires Inv(s, out, rules) && AwaitsFetch(s, p, v)
    requires var t := FetchedAt(s, now, p, v, NotAvailable);
             && CanRun(t, out, ops, rules)
             && Undisturbed(t, ops, rules, p, s.wants[p].state.from, now + REFUSAL_NANOS)
    ensures NeverAsks(FetchedAt(s, now, p, v, NotAvailable), ops, rules, p, s.wants[p].state.from)
  {
    hide Inv;
    var op := FetchReported(now, p, v, NotAvailable);
    var t := FetchedAt(s, now, p, v, NotAvailable);
    StepInv(s, op, out, rules);
    BarredThroughout(t, out, ops, rules, p, s.wants[p].state.from, now + REFUSAL_NANOS);
  }

  /** A want made in place of another for the same content refuses who the other refused, for as
      long as the other did. */
  lemma RefusalsCarriedOver(s: List, out: map<RelPath, Version>, p: RelPath, hash: ContentHash,
                            refused: map<NodeId, int>, rules: Rules, n: NodeId, until: int)
    requires Enabled(s, out, KeepingRefusals(p, hash, refused)) && p in s.wants
    ensures Barred(Step(s, KeepingRefusals(p, hash, refused), rules), p, n, until) <==>
            s.wants[p].entry.hash == hash && n in refused && refused[n] >= until
  {
    assert map[] + refused == refused;
  }
}
