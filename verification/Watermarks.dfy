/** What a machine holds of one peer's sequence space: a contiguous watermark, and the ranges
    received above a gap. */
module Watermarks {
  /** A received range `(low, high]`. */
  datatype Range = Range(low: nat, high: nat)

  datatype Watermark = Watermark(contiguous: nat, ranges: map<nat, nat>)

  const START := Watermark(0, map[])

  ghost predicate Covered(received: set<Range>, k: int) {
    exists r :: r in received && r.low < k <= r.high
  }

  /** Everything up to `m` was received. */
  ghost predicate AllCovered(received: set<Range>, m: int) {
    forall k :: 1 <= k <= m ==> Covered(received, k)
  }

  ghost predicate Proper(received: set<Range>) {
    forall r :: r in received ==> r.low < r.high
  }

  /** `w` holds the watermark and the gapped ranges of what was received, and nothing else. */
  ghost predicate Describes(w: Watermark, received: set<Range>) {
    && Proper(received) && AllCovered(received, w.contiguous)
    && !Covered(received, w.contiguous + 1)
    && (forall l :: l in w.ranges ==> l > w.contiguous && Range(l, w.ranges[l]) in received)
    && (forall r :: r in received && r.low > w.contiguous ==> r.low in w.ranges && r.high <= w.ranges[r.low])
  }

  /** The state while ranges are still being absorbed: nothing received is lost. */
  ghost predicate Absorbing(w: Watermark, received: set<Range>) {
    && Proper(received) && AllCovered(received, w.contiguous)
    && (forall l :: l in w.ranges ==> Range(l, w.ranges[l]) in received)
    && (forall r :: r in received ==>
          r.high <= w.contiguous || (r.low in w.ranges && r.high <= w.ranges[r.low]))
  }

  /** One more range: it raises the watermark, and then every stored range that it now reaches
      does, or it is stored itself. */
  method ReceivedRange(w: Watermark, low: nat, high: nat, ghost received: set<Range>)
    returns (out: Watermark)
    requires low < high && Describes(w, received)
    ensures Describes(out, received + {Range(low, high)})
  {
    out := w;
    ghost var now := received + {Range(low, high)};
    assert forall k :: Covered(received, k) ==> Covered(now, k);
    if high <= w.contiguous {
      return;
    }
    if low <= w.contiguous {
      out := out.(contiguous := high);
    } else {
      var kept := if low in w.ranges && high < w.ranges[low] then w.ranges[low] else high;
      out := out.(ranges := out.ranges[low := kept]);
    }
    AbsorbingAfter(w, received, low, high);
    while exists l :: l in out.ranges && l <= out.contiguous
      invariant Absorbing(out, now)
      decreases |out.ranges|
    {
      var l :| l in out.ranges && l <= out.contiguous;
      var h := out.ranges[l];
      AbsorbOne(out, now, l);
      out := Watermark(if out.contiguous < h then h else out.contiguous, out.ranges - {l});
    }
    AbsorbedDescribes(out, now);
  }

  /** The state after a range is taken in, before anything is absorbed. */
  function Taken(w: Watermark, low: nat, high: nat): Watermark {
    if low <= w.contiguous then w.(contiguous := high)
    else w.(ranges := w.ranges[low := if low in w.ranges && high < w.ranges[low] then w.ranges[low] else high])
  }

  lemma AbsorbingAfter(w: Watermark, received: set<Range>, low: nat, high: nat)
    requires Describes(w, received) && low < high && high > w.contiguous
    ensures Absorbing(Taken(w, low, high), received + {Range(low, high)})
  {
    var t, now := Taken(w, low, high), received + {Range(low, high)};
    forall k | 1 <= k <= t.contiguous ensures Covered(now, k) {
      if k <= w.contiguous {
        assert Covered(received, k);
        var r :| r in received && r.low < k <= r.high;
        assert r in now;
      } else {
        assert Range(low, high) in now;
      }
    }
    forall r | r in received && r.low <= w.contiguous ensures r.high <= w.contiguous {
      assert !(r.low < w.contiguous + 1 <= r.high);
    }
  }

  lemma AbsorbOne(w: Watermark, now: set<Range>, l: nat)
    requires Absorbing(w, now) && l in w.ranges && l <= w.contiguous
    ensures Absorbing(Watermark(if w.contiguous < w.ranges[l] then w.ranges[l] else w.contiguous,
                                w.ranges - {l}), now)
    ensures |w.ranges - {l}| < |w.ranges|
  {
    var h := w.ranges[l];
    assert (w.ranges - {l}).Keys == w.ranges.Keys - {l};
    assert |(w.ranges - {l}).Keys| < |w.ranges.Keys|;
    forall k | w.contiguous < k <= h ensures Covered(now, k) {
      assert Range(l, h) in now;
    }
  }

  lemma AbsorbedDescribes(w: Watermark, now: set<Range>)
    requires Absorbing(w, now) && forall l :: l in w.ranges ==> l > w.contiguous
    ensures Describes(w, now)
  {
  }

  /** The watermark is the largest `w` with `(0, w]` fully received, and with the stored ranges
      it covers exactly what was received. */
  lemma WatermarkExact(w: Watermark, received: set<Range>)
    requires Describes(w, received)
    ensures forall m :: AllCovered(received, m) ==> m <= w.contiguous
    ensures forall k :: k >= 1 ==>
              (Covered(received, k) <==>
                 k <= w.contiguous || exists l :: l in w.ranges && l < k <= w.ranges[l])
  {
    forall m | AllCovered(received, m) ensures m <= w.contiguous {
      assert 1 <= w.contiguous + 1 <= m ==> Covered(received, w.contiguous + 1);
    }
    forall k | k > w.contiguous && Covered(received, k)
      ensures exists l :: l in w.ranges && l < k <= w.ranges[l]
    {
      var r :| r in received && r.low < k <= r.high;
      assert !(r.low < w.contiguous + 1 <= r.high);
      assert r.low in w.ranges;
    }
  }

  /** One received set has one description: order and repetition leave no trace. */
  lemma DescriptionUnique(a: Watermark, b: Watermark, received: set<Range>)
    requires Describes(a, received) && Describes(b, received)
    ensures a == b
  {
    WatermarkExact(a, received);
    WatermarkExact(b, received);
    assert a.ranges.Keys == b.ranges.Keys;
    forall l | l in a.ranges ensures a.ranges[l] == b.ranges[l] {
      assert Range(l, a.ranges[l]) in received && Range(l, b.ranges[l]) in received;
    }
  }

  function SetOf(rs: seq<Range>): set<Range> {
    set r | r in rs
  }

  /** Receiving any sequence of ranges, from nothing. */
  method ReceiveAll(rs: seq<Range>) returns (w: Watermark)
    requires forall r :: r in rs ==> r.low < r.high
    ensures Describes(w, SetOf(rs))
  {
    w := START;
    for i := 0 to |rs|
      invariant Describes(w, SetOf(rs[..i]))
    {
      w := ReceivedRange(w, rs[i].low, rs[i].high, SetOf(rs[..i]));
      assert rs[i] in rs;
      assert SetOf(rs[..i + 1]) == SetOf(rs[..i]) + {rs[i]};
    }
    assert rs[..|rs|] == rs;
  }
}
