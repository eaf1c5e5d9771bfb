/** What a received entry becomes against the index: nothing, the entry, or a merge. */
module Classify {
  import opened Prelude
  import opened Versions
  import opened Paths
  import opened Entries
  import opened IndexModel
  import Conflict
  import ConflictNames

  datatype ApplyMode = Fetch | Direct | MetadataOnly | IndexOnly | Trash

  /** Where a displaced losing file goes, and the record it had. */
  datatype Displaced = Displaced(path: RelPath, loser: Entry)

  datatype ApplyItem = ApplyItem(entry: Entry, mode: ApplyMode, conflict: Option<Displaced>)

  datatype Classified = Classified(item: Option<ApplyItem>, fallback: bool)

  const NOTHING := Classified(None, false)

  /** What an entry that dominates asks of the host, given what is recorded. */
  function ModeFor(incoming: Entry, local: Option<IndexRecord>): ApplyMode {
    if local.Some? && local.value.entry.SameContent(incoming) then
      if incoming.kind == File && !incoming.deleted then MetadataOnly else IndexOnly
    else if incoming.deleted || incoming.kind == Dir then Direct
    else Fetch
  }

  function Item(entry: Entry, mode: ApplyMode, conflict: Option<Displaced>, fallback: bool): Classified {
    Classified(Some(ApplyItem(entry, mode, conflict)), fallback)
  }

  function ClassifyEntry(s: IndexState, incoming: Entry): Classified {
    var local := s.Get(incoming.path);
    if local.None? then Item(incoming, ModeFor(incoming, local), None, false)
    else
      var l := local.value.entry;
      match Compare(incoming.version, l.version)
      case Dominates => Item(incoming, ModeFor(incoming, local), None, false)
      case Equal => NOTHING
      case Dominated => NOTHING
      case Concurrent =>
        if l.SameContent(incoming) then Identical(l, incoming) else Conflicting(s, l, incoming)
  }

  /** Concurrent with identical content: the merge, with the winner's fields. */
  function Identical(local: Entry, incoming: Entry): Classified {
    var m := Conflict.Resolve(incoming, local).merged;
    Item(m, if m.kind == File && !m.deleted && m.mtime != local.mtime then MetadataOnly else IndexOnly,
         None, false)
  }

  /** Concurrent with different content: the local file stays, or is displaced for the winner. */
  function Conflicting(s: IndexState, local: Entry, incoming: Entry): Classified {
    var r := Conflict.Resolve(incoming, local);
    if r.winner == Conflict.Second then Item(r.merged, IndexOnly, None, r.fallback)
    else
      var copy := ConflictNames.ConflictCopyName(local);
      Item(r.merged,
           if r.merged.deleted || r.merged.kind == Dir then Direct else Fetch,
           if local.deleted || copy.None? || s.Live(copy.value).Some? then None
           else Some(Displaced(copy.value, local)),
           r.fallback)
  }

  /** Classify, and adopt what comes of it: what a receiver that accepts does in the end. */
  function Receive(s: IndexState, incoming: Entry): IndexState {
    match ClassifyEntry(s, incoming).item
    case None => s
    case Some(item) => Adopt(s, item.entry)
  }

  /** Every item `ClassifyEntry` emits is at the incoming path, strictly dominates the local
      record, and covers the incoming version; nothing is emitted exactly when the local record
      already covers it. Adoption therefore never refuses. */
  lemma ItemDominates(s: IndexState, incoming: Entry)
    requires Valid(s)
    ensures var c := ClassifyEntry(s, incoming).item;
            var local := VersionOf(s.Get(incoming.path));
            && (c.None? <==> s.Get(incoming.path).Some? && Leq(incoming.version, local))
            && (c.Some? ==>
                  && c.value.entry.path == incoming.path
                  && c.value.entry.version == Merge(local, incoming.version)
                  && Adoptable(s, c.value.entry)
                  && (s.Get(incoming.path).Some? ==>
                        Compare(c.value.entry.version, local) == Dominates))
  {
    var local := s.Get(incoming.path);
    MergeLaws(EMPTY, incoming.version);
    if local.Some? {
      var l := local.value.entry;
      assert RecordAt(s, incoming.path, local.value);
      CompareLaws(incoming.version, l.version);
      if Compare(incoming.version, l.version) == Concurrent {
        MergedItem(s, l, incoming);
        MergeStrict(l.version, incoming.version);
      } else {
        MergeLaws(l.version, incoming.version);
      }
    }
  }

  lemma MergedItem(s: IndexState, l: Entry, incoming: Entry)
    requires l.path == incoming.path
    ensures Identical(l, incoming).item.Some?
    ensures Identical(l, incoming).item.value.entry == Conflict.Resolve(incoming, l).merged
    ensures Conflicting(s, l, incoming).item.Some?
    ensures Conflicting(s, l, incoming).item.value.entry == Conflict.Resolve(incoming, l).merged
    ensures Conflict.Resolve(incoming, l).merged.path == incoming.path
    ensures Conflict.Resolve(incoming, l).merged.version == Merge(l.version, incoming.version)
  {
    MergeLaws(l.version, incoming.version);
  }

  /** Merging in what is not covered strictly raises a vector. */
  lemma MergeStrict(a: Version, b: Version)
    ensures Leq(a, Merge(a, b))
    ensures !Leq(b, a) ==> Compare(Merge(a, b), a) == Dominates
  {
    MergeIsJoin(a, b, a);
    if Leq(Merge(a, b), a) { LeqTransitive(b, Merge(a, b), a); }
  }

  /** Nothing live is recorded at the path. */
  ghost predicate NothingLive(s: IndexState, p: RelPath) {
    p in s.records ==> s.records[p].entry.deleted
  }

  /** What an item asks of the host. Content is fetched, or a directory made or an entry deleted,
      exactly if the local record does not say what the item's entry says; and where it does,
      nothing is but a live file's times, which are set if they differ or the entry comes as it is. */
  lemma ModeMeans(s: IndexState, incoming: Entry)
    requires Valid(s)
    ensures var c := ClassifyEntry(s, incoming).item;
            c.Some? ==>
              var m, mode, r := c.value.entry, c.value.mode, s.records;
              var said := m.path in r && SaysTheSame(r[m.path].entry, m);
              && (mode == Fetch <==> !said && !m.deleted && m.kind != Dir)
              && (mode == Direct <==> !said && (m.deleted || m.kind == Dir))
              && (mode == MetadataOnly <==>
                    said && !m.deleted && m.kind == File
                    && (Compare(incoming.version, r[m.path].entry.version) == Dominates
                        || (Compare(incoming.version, r[m.path].entry.version) == Concurrent
                            && SaysTheSame(r[m.path].entry, incoming) && m.mtime != r[m.path].entry.mtime)))
              && mode != Trash
  {
    ItemDominates(s, incoming);
    var local := s.Get(incoming.path);
    if local.Some? {
      var l := local.value.entry;
      assert RecordAt(s, incoming.path, local.value);
      CompareLaws(incoming.version, l.version);
      MergedItem(s, l, incoming);
      SameContentSays(l, incoming);
    }
  }

  /** A live local file, directory or symlink that lost a conflict over content is displaced to
      its copy's path, exactly if nothing live is there; and nothing else is ever displaced. */
  lemma CopyForLosers(s: IndexState, incoming: Entry)
    requires Valid(s)
    ensures var c, p := ClassifyEntry(s, incoming).item, incoming.path;
            c.Some? && c.value.conflict.Some? <==>
              && p in s.records && !s.records[p].entry.deleted
              && Compare(incoming.version, s.records[p].entry.version) == Concurrent
              && !SaysTheSame(s.records[p].entry, incoming)
              && Conflict.PickWinner(incoming, s.records[p].entry).side == Conflict.First
              && ConflictNames.ConflictCopyName(s.records[p].entry).Some?
              && NothingLive(s, ConflictNames.ConflictCopyName(s.records[p].entry).value)
    ensures var c, p := ClassifyEntry(s, incoming).item, incoming.path;
            c.Some? && c.value.conflict.Some? ==>
              && c.value.conflict.value.loser == s.records[p].entry
              && Some(c.value.conflict.value.path) == ConflictNames.ConflictCopyName(s.records[p].entry)
              && SameFields(c.value.entry, incoming)
  {
    hide Conflict.PickWinner, ConflictNames.ConflictCopyName;
    var local := s.Get(incoming.path);
    if local.Some? {
      assert RecordAt(s, incoming.path, local.value);
      SameContentSays(local.value.entry, incoming);
    }
  }

  /** A fallback is counted exactly for a conflict over content that none of the rules decides. */
  lemma FallbackMeans(s: IndexState, incoming: Entry)
    requires Valid(s)
    ensures var p := incoming.path;
            ClassifyEntry(s, incoming).fallback <==>
              && p in s.records && Compare(incoming.version, s.records[p].entry.version) == Concurrent
              && !SaysTheSame(s.records[p].entry, incoming)
              && var l := s.records[p].entry;
                 && l.stamp == incoming.stamp && l.deleted == incoming.deleted
                 && (l.hash == l.prevHash <==> incoming.hash == incoming.prevHash)
                 && l.mtime == incoming.mtime && l.modifiedBy == incoming.modifiedBy
  {
    if incoming.path in s.records {
      SameContentSays(s.records[incoming.path].entry, incoming);
    }
  }
}
