/** Batch formation: a run of records split on sequence numbers into batches that chain. */
module Batches {
  import opened Prelude
  import opened Versions
  import opened Paths
  import opened Entries
  import opened IndexModel

  const MAX_BATCH_ENTRIES: nat := 10_000
  const MAX_BATCH_BYTES: nat := 4 * 1024 * 1024
  const ENTRY_ALLOWANCE: nat := 256
  const MAX_PATH_LEN: nat := 4096

  /** A record to announce, with the coalesced kind of a local change. */
  datatype Outgoing = Outgoing(record: IndexRecord, kind: Option<ChangeKind>)

  datatype Summary = Summary(adds: nat, mods: nat, dels: nat, bytes: nat) {
    function Plus(o: Summary): Summary {
      Summary(adds + o.adds, mods + o.mods, dels + o.dels, bytes + o.bytes)
    }
  }

  datatype Batch = Batch(id: nat, source: NodeId, createdAt: int,
                         seqLow: nat, seqHigh: nat, entries: seq<Entry>, summary: Summary)

  function EstimatedBytes(e: Entry): nat {
    |e.path| + ENTRY_ALLOWANCE
  }

  /** What one record adds to the summary: adds always, modifications and deletions only if
      they changed content, adopted records never. */
  function CountOne(o: Outgoing): Summary {
    var e := o.record.entry;
    match o.kind
    case None => Summary(0, 0, 0, 0)
    case Some(Add) => Summary(1, 0, 0, e.size)
    case Some(Modify) => if e.MetadataOnly() then Summary(0, 0, 0, 0) else Summary(0, 1, 0, e.size)
    case Some(Delete) => if e.MetadataOnly() then Summary(0, 0, 0, 0) else Summary(0, 0, 1, 0)
  }

  /** A new path counts as added, with its bytes; another version as modified, with its bytes, and
      a tombstone as a deletion, but only if content changed; and nothing else counts. */
  lemma CountMeans(o: Outgoing)
    ensures var e, n := o.record.entry, CountOne(o);
            && n.adds == (if o.kind == Some(Add) then 1 else 0)
            && n.mods == (if o.kind == Some(Modify) && e.hash != e.prevHash then 1 else 0)
            && n.dels == (if o.kind == Some(Delete) && e.hash != e.prevHash then 1 else 0)
            && n.bytes == (n.adds + n.mods) * e.size
  {
  }

  function Summarise(rs: seq<Outgoing>): Summary {
    if rs == [] then Summary(0, 0, 0, 0)
    else Summarise(rs[..|rs| - 1]).Plus(CountOne(rs[|rs| - 1]))
  }

  function Bytes(rs: seq<Outgoing>): nat {
    if rs == [] then 0 else Bytes(rs[..|rs| - 1]) + EstimatedBytes(rs[|rs| - 1].record.entry)
  }

  function EntriesOf(rs: seq<Outgoing>): seq<Entry> {
    seq(|rs|, i requires 0 <= i < |rs| => rs[i].record.entry)
  }

  /** The first `n` records make an acceptable batch: a single one always does. */
  predicate Fits(rs: seq<Outgoing>, n: nat)
    requires n <= |rs|
  {
    n <= MAX_BATCH_ENTRIES && (n <= 1 || Bytes(rs[..n]) <= MAX_BATCH_BYTES)
  }

  /** The longest prefix from `n` on that still fits. */
  function TakeFrom(rs: seq<Outgoing>, n: nat): (r: nat)
    requires 1 <= n <= |rs| && Fits(rs, n)
    ensures n <= r <= |rs| && Fits(rs, r)
    ensures r < |rs| ==> !Fits(rs, r + 1)
    decreases |rs| - n
  {
    if n < |rs| && Fits(rs, n + 1) then TakeFrom(rs, n + 1) else n
  }

  /** How many records the next batch takes. */
  method BatchLen(rs: seq<Outgoing>) returns (n: nat)
    requires rs != []
    ensures n == TakeFrom(rs, 1) && 1 <= n <= |rs|
  {
    var bytes := 0;
    var i: nat := 0;
    while i < |rs|
      invariant i <= |rs| && bytes == Bytes(rs[..i])
      invariant i >= 1 ==> Fits(rs, i) && TakeFrom(rs, i) == TakeFrom(rs, 1)
    {
      assert rs[..i + 1][..i] == rs[..i];
      bytes := bytes + EstimatedBytes(rs[i].record.entry);
      if i == MAX_BATCH_ENTRIES || (i > 0 && bytes > MAX_BATCH_BYTES) {
        return i;
      }
      i := i + 1;
    }
    n := |rs|;
  }

  function MakeBatch(id: nat, source: NodeId, now: int, low: nat, chunk: seq<Outgoing>): Batch
    requires chunk != []
  {
    Batch(id, source, now, low, chunk[|chunk| - 1].record.seqNo, EntriesOf(chunk), Summarise(chunk))
  }

  function Form(id: nat, source: NodeId, now: int, rs: seq<Outgoing>, low: nat): seq<Batch>
    decreases |rs|
  {
    if rs == [] then []
    else
      var n := TakeFrom(rs, 1);
      [MakeBatch(id, source, now, low, rs[..n])]
      + Form(id + 1, source, now, rs[n..], rs[n - 1].record.seqNo)
  }

  /** Collect a chunk's entries, counting each local change. */
  method Collect(chunk: seq<Outgoing>) returns (entries: seq<Entry>, summary: Summary)
    ensures entries == EntriesOf(chunk) && summary == Summarise(chunk)
  {
    entries, summary := [], Summary(0, 0, 0, 0);
    for i := 0 to |chunk|
      invariant entries == EntriesOf(chunk[..i]) && summary == Summarise(chunk[..i])
    {
      assert chunk[..i + 1][..i] == chunk[..i];
      summary := summary.Plus(CountOne(chunk[i]));
      entries := entries + [chunk[i].record.entry];
    }
    assert chunk[..|chunk|] == chunk;
  }

  /** The source's loop: cut a chunk, count it, chain its range to the last one's. */
  method FormBatches(base: nat, source: NodeId, now: int, rs: seq<Outgoing>, seqLow: nat)
    returns (batches: seq<Batch>)
    ensures batches == Form(base, source, now, rs, seqLow)
  {
    hide Form, TakeFrom, Summarise, EntriesOf;
    batches := [];
    var rest, low := rs, seqLow;
    while rest != []
      invariant batches + Form(base + |batches|, source, now, rest, low)
             == Form(base, source, now, rs, seqLow)
      decreases |rest|
    {
      var n := BatchLen(rest);
      var entries, summary := Collect(rest[..n]);
      var high := rest[n - 1].record.seqNo;
      var b := Batch(base + |batches|, source, now, low, high, entries, summary);
      FormNext(base + |batches|, source, now, rest, low, n);
      ghost var tail := Form(base + |batches| + 1, source, now, rest[n..], high);
      assert batches + ([b] + tail) == (batches + [b]) + tail;
      batches := batches + [b];
      rest, low := rest[n..], high;
    }
    FormNone(base + |batches|, source, now, rest, low);
  }

  lemma FormNone(id: nat, source: NodeId, now: int, rs: seq<Outgoing>, low: nat)
    ensures rs == [] ==> Form(id, source, now, rs, low) == []
  {
  }

  lemma FormNext(id: nat, source: NodeId, now: int, rs: seq<Outgoing>, low: nat, n: nat)
    requires rs != [] && n == TakeFrom(rs, 1)
    ensures Form(id, source, now, rs, low)
         == [MakeBatch(id, source, now, low, rs[..n])]
          + Form(id + 1, source, now, rs[n..], rs[n - 1].record.seqNo)
  {
  }

  ghost predicate Increasing(rs: seq<Outgoing>, low: int) {
    && (forall i :: 0 <= i < |rs| ==> low < rs[i].record.seqNo)
    && (forall i, j :: 0 <= i < j < |rs| ==> rs[i].record.seqNo < rs[j].record.seqNo)
  }

  function Flatten(bs: seq<Batch>): seq<Entry> {
    if bs == [] then [] else bs[0].entries + Flatten(bs[1..])
  }

  function TotalSummary(bs: seq<Batch>): Summary {
    if bs == [] then Summary(0, 0, 0, 0) else bs[0].summary.Plus(TotalSummary(bs[1..]))
  }

  /** Ranges chain from `low`, and none is empty. */
  ghost predicate Chained(bs: seq<Batch>, low: nat) {
    && (bs != [] ==> bs[0].seqLow == low)
    && (forall i :: 0 <= i < |bs| ==> bs[i].seqLow < bs[i].seqHigh)
    && (forall i :: 0 <= i < |bs| - 1 ==> bs[i + 1].seqLow == bs[i].seqHigh)
  }

  lemma SummariseAppend(a: seq<Outgoing>, b: seq<Outgoing>)
    ensures Summarise(a + b) == Summarise(a).Plus(Summarise(b))
  {
    if b == [] {
      assert a + b == a;
    } else {
      assert (a + b)[..|a + b| - 1] == a + b[..|b| - 1];
      SummariseAppend(a, b[..|b| - 1]);
    }
  }

  lemma Cons(b: Batch, bs: seq<Batch>)
    ensures Flatten([b] + bs) == b.entries + Flatten(bs)
    ensures TotalSummary([b] + bs) == b.summary.Plus(TotalSummary(bs))
  {
    assert ([b] + bs)[1..] == bs;
  }

  lemma EntriesAppend(a: seq<Outgoing>, b: seq<Outgoing>)
    ensures EntriesOf(a + b) == EntriesOf(a) + EntriesOf(b)
  {
  }

  /** Formation loses, repeats and reorders nothing: the batches give back the run, and every
      counted change is counted in exactly one batch's summary. */
  lemma {:induction false} FormPartitions(id: nat, source: NodeId, now: int, rs: seq<Outgoing>, low: nat)
    ensures Flatten(Form(id, source, now, rs, low)) == EntriesOf(rs)
    ensures TotalSummary(Form(id, source, now, rs, low)) == Summarise(rs)
    decreases |rs|
  {
    if rs != [] {
      var chunk, rest, next := FormUnfold(id, source, now, rs, low);
      FormPartitions(id + 1, source, now, rest, next);
      Cons(MakeBatch(id, source, now, low, chunk), Form(id + 1, source, now, rest, next));
      EntriesAppend(chunk, rest);
      SummariseAppend(chunk, rest);
    }
  }

  lemma FormUnfold(id: nat, source: NodeId, now: int, rs: seq<Outgoing>, low: nat)
    returns (chunk: seq<Outgoing>, rest: seq<Outgoing>, next: nat)
    requires rs != []
    ensures chunk != [] && rs == chunk + rest
    ensures Form(id, source, now, rs, low)
         == [MakeBatch(id, source, now, low, chunk)] + Form(id + 1, source, now, rest, next)
  {
    var n := TakeFrom(rs, 1);
    chunk, rest, next := rs[..n], rs[n..], rs[n - 1].record.seqNo;
  }

  /** The ranges chain from `low` to the last record's number, and ids follow on. */
  lemma {:induction false} FormChains(id: nat, source: NodeId, now: int, rs: seq<Outgoing>, low: nat)
    requires Increasing(rs, low)
    ensures Chained(Form(id, source, now, rs, low), low)
    ensures EndsAt(Form(id, source, now, rs, low), rs)
    ensures Numbered(Form(id, source, now, rs, low), id, source)
    decreases |rs|
  {
    hide Chained, EndsAt, Numbered, TakeFrom, Form;
    if rs == [] {
      FormNone(id, source, now, rs, low);
      NothingChains(id, source, rs, low);
    } else {
      var n := TakeFrom(rs, 1);
      var next := rs[n - 1].record.seqNo;
      var tail := Form(id + 1, source, now, rs[n..], next);
      FormNext(id, source, now, rs, low, n);
      FormChains(id + 1, source, now, rs[n..], next);
      ChainCons(MakeBatch(id, source, now, low, rs[..n]), tail, rs, n, id, source);
    }
  }

  lemma NothingChains(id: nat, source: NodeId, rs: seq<Outgoing>, low: nat)
    requires rs == []
    ensures Chained([], low) && EndsAt([], rs) && Numbered([], id, source)
  {
  }

  ghost predicate EndsAt(bs: seq<Batch>, rs: seq<Outgoing>) {
    (rs == [] <==> bs == []) && (bs != [] && rs != [] ==> bs[|bs| - 1].seqHigh == rs[|rs| - 1].record.seqNo)
  }

  ghost predicate Numbered(bs: seq<Batch>, id: nat, source: NodeId) {
    forall i :: 0 <= i < |bs| ==> bs[i].id == id + i && bs[i].source == source
  }

  lemma ChainCons(b: Batch, bs: seq<Batch>, rs: seq<Outgoing>, n: nat, id: nat, source: NodeId)
    requires b.seqLow < b.seqHigh && Chained(bs, b.seqHigh)
    requires 0 < n <= |rs| && EndsAt(bs, rs[n..]) && b.seqHigh == rs[n - 1].record.seqNo
    requires b.id == id && b.source == source && Numbered(bs, id + 1, source)
    ensures Chained([b] + bs, b.seqLow) && EndsAt([b] + bs, rs) && Numbered([b] + bs, id, source)
  {
    if n < |rs| { assert rs[n..][|rs| - n - 1] == rs[|rs| - 1]; }
  }

  /** Each batch holds exactly the records of the run whose numbers lie in its range. */
  lemma {:induction false} FormCovers(id: nat, source: NodeId, now: int, rs: seq<Outgoing>, low: nat,
                                      b: Batch, r: Outgoing)
    requires Increasing(rs, low) && r in rs
    requires b in Form(id, source, now, rs, low) && b.seqLow < r.record.seqNo <= b.seqHigh
    ensures r.record.entry in b.entries
    decreases |rs|
  {
    hide TakeFrom, Form;
    var n := TakeFrom(rs, 1);
    var next := rs[n - 1].record.seqNo;
    var tail := Form(id + 1, source, now, rs[n..], next);
    var first := MakeBatch(id, source, now, low, rs[..n]);
    FormNext(id, source, now, rs, low, n);
    assert b == first || b in tail;
    var k :| 0 <= k < |rs| && rs[k] == r;
    if k < n {
      if b in tail { TailAbove(id + 1, source, now, rs[n..], next); }
      assert b.entries[k] == r.record.entry;
    } else {
      assert first.seqHigh == next;
      assert rs[n..][k - n] == r;
      FormCovers(id + 1, source, now, rs[n..], next, b, r);
    }
  }

  lemma {:induction false} TailAbove(id: nat, source: NodeId, now: int, rs: seq<Outgoing>, low: nat)
    requires Increasing(rs, low)
    ensures forall b :: b in Form(id, source, now, rs, low) ==> low <= b.seqLow
    decreases |rs|
  {
    if rs != [] {
      var n := TakeFrom(rs, 1);
      TailAbove(id + 1, source, now, rs[n..], rs[n - 1].record.seqNo);
    }
  }

  /** Every batch takes at least one record and keeps both limits, and takes as many as it can:
      short of the entry limit, the next batch's first entry would not have fitted. */
  lemma {:induction false} FormSizes(id: nat, source: NodeId, now: int, rs: seq<Outgoing>, low: nat)
    requires forall o :: o in rs ==> |o.record.entry.path| <= MAX_PATH_LEN
    ensures var bs := Form(id, source, now, rs, low);
            && (forall b :: b in bs ==> WithinLimits(b))
            && Greedy(bs)
    decreases |rs|
  {
    if rs != [] {
      var n := TakeFrom(rs, 1);
      var next := rs[n - 1].record.seqNo;
      var bs := Form(id, source, now, rs, low);
      var tail := Form(id + 1, source, now, rs[n..], next);
      FormSizes(id + 1, source, now, rs[n..], next);
      FirstSize(id, source, now, rs, low);
      assert bs[1..] == tail;
    }
  }

  /** No batch but the last could have taken the next batch's first entry. */
  ghost predicate Greedy(bs: seq<Batch>) {
    |bs| > 1 ==> CouldTakeNoMore(bs[0], bs[1]) && Greedy(bs[1..])
  }

  ghost predicate WithinLimits(b: Batch) {
    1 <= |b.entries| <= MAX_BATCH_ENTRIES && EntryBytes(b.entries) <= MAX_BATCH_BYTES
  }

  ghost predicate CouldTakeNoMore(b: Batch, next: Batch) {
    || |b.entries| == MAX_BATCH_ENTRIES
    || (next.entries != [] && EntryBytes(b.entries + [next.entries[0]]) > MAX_BATCH_BYTES)
  }

  lemma FirstSize(id: nat, source: NodeId, now: int, rs: seq<Outgoing>, low: nat)
    requires rs != []
    requires forall o :: o in rs ==> |o.record.entry.path| <= MAX_PATH_LEN
    ensures var bs := Form(id, source, now, rs, low);
            WithinLimits(bs[0]) && (|bs| > 1 ==> CouldTakeNoMore(bs[0], bs[1]))
  {
    var n := TakeFrom(rs, 1);
    BytesOfEntries(rs[..n]);
    if n == 1 {
      assert rs[..1][..0] == [];
      assert Bytes(rs[..1]) == EstimatedBytes(rs[0].record.entry);
    }
    if n < |rs| {
      BytesOfEntries(rs[..n + 1]);
      assert EntriesOf(rs[..n + 1]) == EntriesOf(rs[..n]) + [rs[n].record.entry];
      var m := TakeFrom(rs[n..], 1);
      assert EntriesOf(rs[n..][..m])[0] == rs[n].record.entry;
    }
  }

  function EntryBytes(es: seq<Entry>): nat {
    if es == [] then 0 else EntryBytes(es[..|es| - 1]) + EstimatedBytes(es[|es| - 1])
  }

  lemma BytesOfEntries(rs: seq<Outgoing>)
    ensures EntryBytes(EntriesOf(rs)) == Bytes(rs)
  {
    if rs != [] {
      BytesOfEntries(rs[..|rs| - 1]);
      assert EntriesOf(rs)[..|rs| - 1] == EntriesOf(rs[..|rs| - 1]);
    }
  }
}
