/** Index entries and content equality. Hashes are opaque ordered values, so they are
    numbers here; the all-zero hash is the least one. */
module Entries {
  import opened Versions
  import opened Paths

  type ContentHash = nat

  const EMPTY_HASH: ContentHash := 0

  datatype Kind = File | Dir | Symlink

  /** What the scanner saw at a path. */
  datatype Observed = Observed(kind: Kind, size: nat, mtime: int, exec: bool, hash: ContentHash) {
    /** The field rules of the kind: directories carry nothing, symlinks no mtime or exec bit. */
    function Normalised(): Observed {
      match kind
      case Dir => Observed(Dir, 0, 0, false, EMPTY_HASH)
      case Symlink => this.(exec := false, mtime := 0)
      case File => this
    }

    /** The scan's fast path and the commit's guard: nothing visible without hashing changed. */
    predicate UnchangedByStat(seen: Observed) {
      kind == seen.kind &&
      match seen.kind
      case File => size == seen.size && mtime == seen.mtime && exec == seen.exec
      case Dir => true
      case Symlink => hash == seen.hash
    }
  }

  datatype Entry = Entry(
    path: RelPath, kind: Kind, size: nat, mtime: int, stamp: int, exec: bool,
    hash: ContentHash, prevHash: ContentHash, version: Version, deleted: bool,
    modifiedBy: NodeId, authorHost: string)
  {
    function Observation(): Observed {
      Observed(kind, size, mtime, exec, hash)
    }

    predicate UnchangedByStat(seen: Observed) {
      !deleted && Observation().UnchangedByStat(seen)
    }

    predicate MetadataOnly() {
      hash == prevHash
    }

    predicate SameContent(other: Entry) {
      if deleted || other.deleted then deleted && other.deleted
      else kind == other.kind && hash == other.hash && (kind == File ==> exec == other.exec)
    }
  }

  /** Equal in every field but the vector. */
  predicate SameFields(a: Entry, b: Entry) {
    a.(version := b.version) == b
  }

  /** Nothing tells the two apart without hashing: a file's size, modification time and exec bit,
      a symlink's target, a directory's being one. */
  ghost predicate LooksLike(a: Observed, b: Observed) {
    && a.kind == b.kind
    && (a.kind == File ==> a.size == b.size && a.mtime == b.mtime && a.exec == b.exec)
    && (a.kind == Symlink ==> a.hash == b.hash)
  }

  /** The fast path and the guard let through exactly what nothing tells apart, and a tombstone
      lets through nothing. */
  lemma UnchangedLooksLike(e: Entry, was: Observed, seen: Observed)
    ensures was.UnchangedByStat(seen) <==> LooksLike(was, seen)
    ensures e.UnchangedByStat(seen) <==>
              !e.deleted && LooksLike(Observed(e.kind, e.size, e.mtime, e.exec, e.hash), seen)
  {
  }

  /** Two entries say the same of what is at their path: both that nothing is, or one kind, one
      content and, for files, one exec bit. */
  ghost predicate SaysTheSame(a: Entry, b: Entry) {
    || (a.deleted && b.deleted)
    || (!a.deleted && !b.deleted && a.kind == b.kind && a.hash == b.hash && (a.kind == File ==> a.exec == b.exec))
  }

  lemma SameContentSays(a: Entry, b: Entry)
    ensures a.SameContent(b) <==> SaysTheSame(a, b)
  {
  }

  /** `b` is what `a` says once a directory's and a symlink's other fields are left out. */
  ghost predicate Plainly(a: Observed, b: Observed) {
    && b.kind == a.kind
    && (a.kind != Dir ==> b.size == a.size && b.hash == a.hash)
    && (a.kind == Dir ==> b.size == 0 && b.hash == EMPTY_HASH)
    && (a.kind == File ==> b.mtime == a.mtime && b.exec == a.exec)
    && (a.kind != File ==> b.mtime == 0 && !b.exec)
  }

  lemma NormalisedPlainly(a: Observed)
    ensures Plainly(a, a.Normalised())
  {
  }

  /** Content equality is an equivalence: the identical-content merge may be chained. */
  lemma SameContentEquivalence(a: Entry, b: Entry, c: Entry)
    ensures a.SameContent(a)
    ensures a.SameContent(b) ==> b.SameContent(a)
    ensures a.SameContent(b) && b.SameContent(c) ==> a.SameContent(c)
  {
  }
}
