/** Moving an entry into the trash: the day's directories, a free number, and a rename that
    replaces nothing. */
module Trash {
  import opened Prelude
  import opened Paths
  import opened Entries
  import opened Disks
  import ConflictNames

  const MAX_NUMBER: nat := 0xFFFF_FFFF

  /** The `n`th choice of a name for `name` in a directory of the trash. */
  function Numbered(name: string, kind: Kind, n: nat): string {
    if n == 0 then name
    else
      var split := ConflictNames.SplitName(name, kind);
      ConflictNames.Fit(split.0, "~" + ConflictNames.Digits(n), split.1, MAX_COMPONENT_LEN)
  }

  /** A numbered name fits where the name did, and keeps its number whole. */
  lemma NumberedFits(name: string, kind: Kind, n: nat)
    requires |name| <= MAX_COMPONENT_LEN && n <= MAX_NUMBER
    ensures |Numbered(name, kind, n)| <= MAX_COMPONENT_LEN
    ensures n > 0 ==> exists stem, ext :: Numbered(name, kind, n) == stem + ("~" + ConflictNames.Digits(n)) + ext
                                          && stem <= ConflictNames.SplitName(name, kind).0
                                          && ext <= ConflictNames.SplitName(name, kind).1
  {
    if n > 0 {
      assert ConflictNames.PowerOfTen(5) == 100_000;
      assert ConflictNames.PowerOfTen(10) == 10_000_000_000;
      ConflictNames.FewDigits(n, 10);
      var split := ConflictNames.SplitName(name, kind);
      ConflictNames.FitFacts(split.0, "~" + ConflictNames.Digits(n), split.1, MAX_COMPONENT_LEN);
    }
  }

  function PlaceAt(parent: Path, name: string, kind: Kind, n: nat): Path {
    TRASH + parent + [Numbered(name, kind, n)]
  }

  /** `part` is `name`, as itself or under a number. */
  ghost predicate NamedFor(part: string, name: string) {
    exists n: nat :: n <= MAX_NUMBER && part == Numbered(name, Dir, n)
  }

  /** `at` is where the trash keeps what came from under `above`: the day's directory, then one
      directory for each name, in order. */
  ghost predicate Houses(at: Path, day: string, above: seq<string>) {
    && |at| == |above| + 1 && at[0] == day
    && (forall i :: 0 <= i < |above| ==> NamedFor(at[i + 1], above[i]))
  }

  lemma HousesDay(day: string, above: seq<string>)
    ensures Houses([day], day, above[..0])
  {
  }

  lemma HousesMore(at: Path, next: Path, day: string, above: seq<string>, k: nat, n: nat)
    requires k < |above| && Houses(at, day, above[..k]) && n <= MAX_NUMBER
    requires next == at + [Numbered(above[k], Dir, n)]
    ensures Houses(next, day, above[..k + 1])
  {
    forall j | 0 < j < |next| ensures NamedFor(next[j], above[j - 1]) {
      if j < |at| {
        assert NamedFor(at[(j - 1) + 1], above[..k][j - 1]);
      }
    }
  }

  /** Where an index path goes in the trash: the day, and the path's components. */
  datatype Original = Original(day: string, above: seq<string>, name: string)

  /** `place` is one for the index path `o`. */
  ghost predicate PlaceFor(place: Path, o: Original, kind: Kind) {
    exists parent, n: nat :: n <= MAX_NUMBER && Houses(parent, o.day, o.above)
                             && place == PlaceAt(parent, o.name, kind, n)
  }

  lemma PlaceIsFor(parent: Path, o: Original, kind: Kind, n: nat)
    requires Houses(parent, o.day, o.above) && n <= MAX_NUMBER
    ensures PlaceFor(PlaceAt(parent, o.name, kind, n), o, kind)
  {
  }

  lemma PlaceLength(place: Path, o: Original, kind: Kind)
    requires PlaceFor(place, o, kind)
    ensures |place| == |o.above| + 4 && TRASH <= place
  {
  }

  predicate Taken(d: Nodes, parent: Path, name: string, kind: Kind, n: nat) {
    PlaceAt(parent, name, kind, n) in d
  }

  /** The taken numbers from `start` on have no gaps. */
  ghost predicate NoGaps(d: Nodes, parent: Path, name: string, kind: Kind, start: nat) {
    forall i: nat, j: nat :: start <= i < j && Taken(d, parent, name, kind, j) ==> Taken(d, parent, name, kind, i)
  }

  method IsTaken(d: Disk, parent: Path, name: string, kind: Kind, n: nat) returns (taken: Option<bool>, e: IoError)
    ensures taken.Some? ==> taken.value == Taken(d.nodes, parent, name, kind, n)
    ensures d.faultless ==> taken.Some?
  {
    var node, why := d.Lstat(PlaceAt(parent, name, kind, n));
    if node.Some? {
      return Some(true), why;
    }
    taken, e := if why == Missing then Some(false) else None, why;
  }

  /** A free number at or after `start`: galloping to one, then halving back. It is the lowest if
      the taken numbers have no gaps. */
  method FreeNumber(d: Disk, parent: Path, name: string, kind: Kind, start: nat) returns (n: Option<nat>, e: IoError)
    requires start <= MAX_NUMBER
    ensures n.Some? ==> start <= n.value <= MAX_NUMBER && !Taken(d.nodes, parent, name, kind, n.value)
    ensures n.Some? && NoGaps(d.nodes, parent, name, kind, start) ==>
              forall i: nat :: start <= i < n.value ==> Taken(d.nodes, parent, name, kind, i)
    ensures d.faultless && !Taken(d.nodes, parent, name, kind, start) ==> n == Some(start)
  {
    hide Taken;
    var taken;
    taken, e := IsTaken(d, parent, name, kind, start);
    if taken == Some(false) { return Some(start), e; }
    if taken.None? { return None, e; }
    var low, step := start, 1;
    var high := low;
    while true
      invariant start <= low <= MAX_NUMBER && step >= 1
      invariant Taken(d.nodes, parent, name, kind, low)
      decreases MAX_NUMBER - low
    {
      var candidate := low + step;
      if candidate > MAX_NUMBER {
        return None, Trouble;
      }
      taken, e := IsTaken(d, parent, name, kind, candidate);
      if taken.None? { return None, e; }
      if taken == Some(false) {
        high := candidate;
        break;
      }
      low, step := candidate, step * 2;
    }
    while high - low > 1
      invariant start <= low < high <= MAX_NUMBER
      invariant Taken(d.nodes, parent, name, kind, low) && !Taken(d.nodes, parent, name, kind, high)
      decreases high - low
    {
      var mid := low + (high - low) / 2;
      taken, e := IsTaken(d, parent, name, kind, mid);
      if taken.None? { return None, e; }
      if taken == Some(true) {
        low := mid;
      } else {
        high := mid;
      }
    }
    n := Some(high);
  }

  // What a move may pass through. `I` holds until its rename, `J` at every moment.

  ghost predicate Since(history: seq<Snapshot>, k: nat, J: Snapshot -> bool) {
    forall i :: k <= i < |history| ==> J(history[i])
  }

  lemma SinceMore(a: seq<Snapshot>, b: seq<Snapshot>, c: seq<Snapshot>, J: Snapshot -> bool)
    requires a <= b <= c && Since(b, |a|, J) && Since(c, |b|, J)
    ensures a <= c && Since(c, |a|, J)
  {
    forall i | |a| <= i < |c| ensures J(c[i]) {
      if i < |b| { assert b[i] == c[i]; }
    }
  }

  lemma SinceOne(a: seq<Snapshot>, b: seq<Snapshot>, h: Snapshot, J: Snapshot -> bool)
    requires a <= b && Since(b, |a|, J) && J(h)
    ensures a <= b + [h] && Since(b + [h], |a|, J)
  {
  }

  /** `I` survives a directory made in the trash, and gives `J`. */
  ghost predicate Grows(I: Snapshot -> bool, J: Snapshot -> bool) {
    && (forall h :: I(h) ==> J(h))
    && (forall h, q :: I(h) && TRASH <= q && MayCreate(h.nodes, q) ==> I(Snapshot(h.nodes[q := DIR], h.rows)))
  }

  /** The row a journalled move makes durable before each rename. */
  datatype Journal = Journal(key: RelPath, temp: Path)

  /** `I` survives the row, and the rename then gives `J`. */
  ghost predicate Moves(from: Path, o: Original, kind: Kind, journal: Option<Journal>,
                        I: Snapshot -> bool, J: Snapshot -> bool) {
    && (forall h, to :: I(h) && TRASH <= to && journal.Some? ==>
          I(Snapshot(h.nodes, h.rows[journal.value.key := Row(to, journal.value.temp)])))
    && (forall h, to :: I(h) && PlaceFor(to, o, kind) && MayMove(h.nodes, from, to) && RowFor(h, journal, to) ==>
          J(Snapshot(Moved(h.nodes, from, to), h.rows)))
  }

  predicate RowFor(h: Snapshot, journal: Option<Journal>, to: Path) {
    journal.Some? ==> journal.value.key in h.rows && h.rows[journal.value.key] == Row(to, journal.value.temp)
  }

  /** Nothing changed but for directories made in the trash. */
  ghost predicate Grown(n: Nodes, m: Nodes) {
    forall q :: if q in n then q in m && m[q] == n[q] else q in m ==> TRASH <= q && m[q] == DIR
  }

  datatype Directory = Made | Found | Occupied

  /** A directory is at `p`, or can be made there. */
  predicate Usable(n: Nodes, p: Path) {
    if p in n then n[p].IsDir() else MayCreate(n, p)
  }

  /** Where the trash's directories for a path are to be, under their plain names, nothing else is. */
  ghost predicate PlainParents(n: Nodes, day: string, above: seq<string>) {
    DirAt(n, Up(TRASH)) && forall i :: 0 <= i <= |above| + 1 ==> NoFile(n, TRASH + ([day] + above)[..i])
  }

  function PlainPlace(o: Original): Path {
    TRASH + ([o.day] + o.above) + [o.name]
  }

  /** And the path's own plain place among them is free. */
  ghost predicate PlainlyFree(n: Nodes, o: Original) {
    PlainParents(n, o.day, o.above) && PlainPlace(o) !in n
  }

  predicate NoFile(n: Nodes, p: Path) {
    p in n ==> n[p].IsDir()
  }

  lemma GrownRefl(n: Nodes)
    ensures Grown(n, n)
  {
  }

  lemma GrownMore(a: Nodes, b: Nodes, c: Nodes)
    requires Grown(a, b) && Grown(b, c)
    ensures Grown(a, c)
  {
  }

  lemma PlainGrown(n: Nodes, m: Nodes, day: string, above: seq<string>)
    requires PlainParents(n, day, above) && Grown(n, m)
    ensures PlainParents(m, day, above)
  {
    forall i | 0 <= i <= |above| + 1 ensures NoFile(m, TRASH + ([day] + above)[..i]) {
      assert NoFile(n, TRASH + ([day] + above)[..i]);
    }
  }

  lemma PlainAt(n: Nodes, day: string, above: seq<string>, i: nat)
    requires PlainParents(n, day, above) && i <= |above| + 1
    ensures DirAt(n, Up(TRASH)) && NoFile(n, TRASH + ([day] + above)[..i])
  {
  }

  /** Make sure `TRASH + at` is a directory. */
  method EnsureDir(d: Disk, at: Path, ghost I: Snapshot -> bool, ghost J: Snapshot -> bool)
    returns (what: Option<Directory>, e: IoError)
    requires d.Valid() && Grows(I, J) && I(d.Now())
    modifies d`nodes, d`unsynced, d`history
    ensures d.Valid() && I(d.Now()) && Grown(old(d.nodes), d.nodes)
    ensures old(d.history) <= d.history && Since(d.history, |old(d.history)|, J)
    ensures what == Some(Made) || what == Some(Found) ==> DirAt(d.nodes, TRASH + at)
    ensures forall q :: q != TRASH + at ==> Get(d.nodes, q) == Get(old(d.nodes), q)
    ensures d.faultless && Usable(old(d.nodes), TRASH + at) ==> what == Some(Made) || what == Some(Found)
  {
    var path := TRASH + at;
    assert TRASH <= path;
    var node, why := d.Lstat(path);
    if node.Some? {
      return Some(if node.value.IsDir() then Found else Occupied), why;
    }
    if why != Missing {
      return None, why;
    }
    var made := d.CreateDir(path);
    if made.Some? {
      return None, made.value;
    }
    what, e := Some(Made), why;
  }

  /** The trash and the day's directory in it. */
  method DayDir(d: Disk, day: string, ghost I: Snapshot -> bool, ghost J: Snapshot -> bool)
    returns (made: bool, e: IoError)
    requires d.Valid() && Grows(I, J) && I(d.Now())
    modifies d`nodes, d`unsynced, d`history
    ensures d.Valid() && I(d.Now()) && Grown(old(d.nodes), d.nodes)
    ensures old(d.history) <= d.history && Since(d.history, |old(d.history)|, J)
    ensures made ==> DirAt(d.nodes, TRASH + [day])
    ensures forall q: Path :: |q| > 3 ==> Get(d.nodes, q) == Get(old(d.nodes), q)
    ensures d.faultless && PlainParents(old(d.nodes), day, []) ==> made
  {
    hide Grows, Since, Tree, Grown, PlainParents;
    ghost var plain := d.faultless && PlainParents(d.nodes, day, []);
    assert TRASH + [] == TRASH && Up(TRASH + [day]) == TRASH;
    assert ([day] + [])[..0] == [] && ([day] + [])[..1] == [day];
    if plain { PlainAt(d.nodes, day, [], 0); }
    var what;
    what, e := EnsureDir(d, [], I, J);
    if what.None? || what == Some(Occupied) { return false, if what.None? then e else Trouble; }
    assert what == Some(what.value) && (what.value.Made? || what.value.Found?);
    if plain {
      PlainGrown(old(d.nodes), d.nodes, day, []);
      PlainAt(d.nodes, day, [], 1);
    }
    ghost var first, m := d.history, d.nodes;
    what, e := EnsureDir(d, [day], I, J);
    GrownMore(old(d.nodes), m, d.nodes);
    SinceMore(old(d.history), first, d.history, J);
    if what.None? || what == Some(Occupied) { return false, if what.None? then e else Trouble; }
    assert what == Some(what.value) && (what.value.Made? || what.value.Found?);
    made := true;
  }

  lemma PlainFirst(n: Nodes, day: string, above: seq<string>)
    requires PlainParents(n, day, above)
    ensures PlainParents(n, day, [])
  {
    forall i | 0 <= i <= 1 ensures NoFile(n, TRASH + ([day] + [])[..i]) {
      assert ([day] + [])[..i] == ([day] + above)[..i];
    }
  }

  /** The next of the plain directories has nothing else in its place. */
  lemma PlainNext(was: Nodes, n: Nodes, day: string, above: seq<string>, i: nat)
    requires PlainParents(was, day, above) && Grown(was, n) && i < |above|
    ensures NoFile(n, TRASH + ([day] + above)[..i + 1] + [above[i]])
    ensures ([day] + above)[..i + 2] == ([day] + above)[..i + 1] + [above[i]]
  {
    hide PlainParents, Grown;
    PlainGrown(was, n, day, above);
    PlainAt(n, day, above, i + 2);
    var full := [day] + above;
    assert full[..i + 2] == full[..i + 1] + [above[i]];
    assert TRASH + full[..i + 2] == TRASH + full[..i + 1] + [above[i]];
  }

  /** The directories an entry goes into, under the day's: where they are in the trash. */
  method Parents(d: Disk, day: string, above: seq<string>, ghost I: Snapshot -> bool, ghost J: Snapshot -> bool)
    returns (at: Option<Path>, e: IoError)
    requires d.Valid() && Grows(I, J) && I(d.Now())
    modifies d`nodes, d`unsynced, d`history
    ensures d.Valid() && I(d.Now()) && Grown(old(d.nodes), d.nodes)
    ensures old(d.history) <= d.history && Since(d.history, |old(d.history)|, J)
    ensures at.Some? ==> DirAt(d.nodes, TRASH + at.value) && Houses(at.value, day, above)
    ensures forall q: Path :: |q| > |above| + 3 ==> Get(d.nodes, q) == Get(old(d.nodes), q)
    ensures d.faultless && PlainParents(old(d.nodes), day, above) ==> at == Some([day] + above)
  {
    hide Grows, Since, Tree, Houses, NamedFor, Grown, PlainParents;
    ghost var was := d.nodes;
    ghost var plain := d.faultless && PlainParents(was, day, above);
    ghost var full := [day] + above;
    if plain { PlainFirst(was, day, above); }
    var made;
    made, e := DayDir(d, day, I, J);
    if !made { return None, e; }
    var here: Path := [day];
    HousesDay(day, above);
    assert full[..1] == [day];
    for i := 0 to |above|
      invariant d.Valid() && I(d.Now()) && Grown(was, d.nodes)
      invariant old(d.history) <= d.history && Since(d.history, |old(d.history)|, J)
      invariant DirAt(d.nodes, TRASH + here) && Houses(here, day, above[..i])
      invariant |here| == i + 1 && forall q: Path :: |q| > i + 3 ==> Get(d.nodes, q) == Get(was, q)
      invariant plain ==> here == full[..i + 1]
    {
      ghost var before, m := d.history, d.nodes;
      if plain { PlainNext(was, d.nodes, day, above, i); }
      var next;
      ghost var n;
      next, e, n := NextDir(d, here, above[i], I, J);
      GrownMore(was, m, d.nodes);
      SinceMore(old(d.history), before, d.history, J);
      if next.None? { return None, e; }
      HousesMore(here, next.value, day, above, i, n);
      here := next.value;
    }
    assert above[..|above|] == above && full[..|above| + 1] == full;
    at := Some(here);
  }

  /** A directory for one name: the name itself, or the first numbered one that is no other's. */
  method NextDir(d: Disk, here: Path, name: string, ghost I: Snapshot -> bool, ghost J: Snapshot -> bool)
    returns (at: Option<Path>, e: IoError, ghost number: nat)
    requires d.Valid() && Grows(I, J) && I(d.Now())
    modifies d`nodes, d`unsynced, d`history
    ensures d.Valid() && I(d.Now()) && Grown(old(d.nodes), d.nodes)
    ensures old(d.history) <= d.history && Since(d.history, |old(d.history)|, J)
    ensures at.Some? ==> DirAt(d.nodes, TRASH + at.value)
    ensures at.Some? ==> number <= MAX_NUMBER && at.value == here + [Numbered(name, Dir, number)]
    ensures forall q: Path :: |q| != |here| + 3 ==> Get(d.nodes, q) == Get(old(d.nodes), q)
    ensures d.faultless && DirAt(old(d.nodes), TRASH + here) && NoFile(old(d.nodes), TRASH + here + [name]) ==>
              at == Some(here + [name])
  {
    hide Grows, Since, Tree, Grown;
    GrownRefl(d.nodes);
    ghost var plain := d.faultless && DirAt(d.nodes, TRASH + here) && NoFile(d.nodes, TRASH + here + [name]);
    assert Up(TRASH + here + [name]) == TRASH + here;
    SinceNone(d.history, J);
    number := 0;
    var n := 0;
    while n <= MAX_NUMBER
      invariant d.Valid() && I(d.Now()) && Grown(old(d.nodes), d.nodes)
      invariant old(d.history) <= d.history && Since(d.history, |old(d.history)|, J)
      invariant forall q: Path :: |q| != |here| + 3 ==> Get(d.nodes, q) == Get(old(d.nodes), q)
      invariant plain ==> n == 0 && d.nodes == old(d.nodes)
    {
      var next := here + [Numbered(name, Dir, n)];
      ghost var before, m := d.history, d.nodes;
      assert TRASH + next == TRASH + here + [Numbered(name, Dir, n)] && Up(TRASH + next) == TRASH + here;
      var what;
      what, e := EnsureDir(d, next, I, J);
      GrownMore(old(d.nodes), m, d.nodes);
      SinceMore(old(d.history), before, d.history, J);
      if what.None? { return None, e, 0; }
      if what == Some(Found) {
        var listed, why := d.ReadDir(TRASH + here);
        if why.Some? { return None, why.value, 0; }
        if TRASH + next in listed { return Some(next), e, n; }
      } else if what == Some(Made) {
        return Some(next), e, n;
      }
      n := n + 1;
    }
    at, e := None, Trouble;
  }

  lemma SinceNone(a: seq<Snapshot>, J: Snapshot -> bool)
    ensures Since(a, |a|, J)
  {
  }

  /** An error in the trash's own directories is never the commit's path changing underneath. */
  function OwnTrouble(e: IoError): IoError {
    if e == Missing || e == NotADirectory || e == Exists || e == NotEmpty then Trouble else e
  }

  /** What is more than `len` names deep is as it was. */
  ghost predicate ShallowOnly(n: Nodes, m: Nodes, len: nat) {
    forall q: Path :: |q| > len ==> Get(m, q) == Get(n, q)
  }

  datatype Moving = InTrash(place: Path) | Gone | Failed(error: IoError)

  /** Journal rows are as they were, but for a journalled move's own. */
  ghost predicate RowsKept(was: map<RelPath, Row>, rows: map<RelPath, Row>, journal: Option<Journal>, rowed: bool) {
    if rowed then
      && journal.Some? && rows.Keys == was.Keys + {journal.value.key}
      && (forall k :: k in was && k != journal.value.key ==> rows[k] == was[k])
      && rows[journal.value.key].temp == journal.value.temp
    else rows == was
  }

  lemma RowsPut(was: map<RelPath, Row>, rows: map<RelPath, Row>, journal: Option<Journal>, rowed: bool, to: Path)
    requires RowsKept(was, rows, journal, rowed) && journal.Some?
    ensures RowsKept(was, rows[journal.value.key := Row(to, journal.value.temp)], journal, true)
  {
  }

  /** Move what is at `from` into the trash, to a place that is free for the index path `o`. A
      journalled move makes its row durable before each rename; nothing in the trash is replaced.
      `rowed` says a row was made durable, and `before` is the disk just before the rename. */
  method MoveIn(d: Disk, from: Path, o: Original, kind: Kind, journal: Option<Journal>,
                ghost I: Snapshot -> bool, ghost J: Snapshot -> bool)
    returns (moved: Moving, rowed: bool, ghost before: Nodes)
    requires d.Valid() && Grows(I, J) && Moves(from, o, kind, journal, I, J) && I(d.Now())
    modifies d`nodes, d`unsynced, d`rows, d`history
    ensures d.Valid() && old(d.history) <= d.history && Since(d.history, |old(d.history)|, J)
    ensures RowsKept(old(d.rows), d.rows, journal, rowed)
    ensures !moved.InTrash? ==> I(d.Now()) && Grown(old(d.nodes), d.nodes)
    ensures moved.InTrash? ==>
              && J(d.Now()) && RowFor(d.Now(), journal, moved.place)
              && I(Snapshot(before, d.rows)) && Tree(before) && MayMove(before, from, moved.place)
              && d.nodes == Moved(before, from, moved.place)
    ensures moved.InTrash? ==> PlaceFor(moved.place, o, kind) && Grown(old(d.nodes), before)
                               && ShallowOnly(old(d.nodes), before, |o.above| + 3)
    ensures d.faultless && PlainlyFree(old(d.nodes), o) && from in old(d.nodes) && !(from <= PlainPlace(o)) ==>
              moved == InTrash(PlainPlace(o))
  {
    hide Grows, Moves, Moved, Tree, Since, RowsKept, Grown, NoGaps, Houses, Taken, MayMove, PlainlyFree, PlaceFor,
         PlaceAt, PlainPlace;
    ghost var first := d.nodes;
    ghost var plain := d.faultless && PlainlyFree(first, o) && from in first && !(from <= PlainPlace(o));
    if plain { PlainIsParents(first, o); }
    rowed, before := false, d.nodes;
    assert RowsKept(d.rows, d.rows, journal, false) by { RowsSame(d.rows, journal); }
    var parent, e := Parents(d, o.day, o.above, I, J);
    if parent.None? {
      return Failed(OwnTrouble(e)), rowed, before;
    }
    if plain { PlainTarget(first, d.nodes, o, kind, from); }
    assert ShallowOnly(first, d.nodes, |o.above| + 3);
    var fromN := 0;
    while fromN <= MAX_NUMBER
      invariant d.Valid() && I(d.Now()) && Grown(old(d.nodes), d.nodes)
      invariant ShallowOnly(old(d.nodes), d.nodes, |o.above| + 3)
      invariant plain ==> fromN == 0 && parent.value == [o.day] + o.above
                          && !Taken(d.nodes, parent.value, o.name, kind, 0)
                          && MayMove(d.nodes, from, PlaceAt(parent.value, o.name, kind, 0))
      invariant old(d.history) <= d.history && Since(d.history, |old(d.history)|, J)
      invariant RowsKept(old(d.rows), d.rows, journal, rowed)
      decreases MAX_NUMBER - fromN
    {
      var n;
      n, e := FreeNumber(d, parent.value, o.name, kind, fromN);
      if n.None? {
        return Failed(OwnTrouble(e)), rowed, before;
      }
      var place := PlaceAt(parent.value, o.name, kind, n.value);
      PlaceIsFor(parent.value, o, kind, n.value);
      before := d.nodes;
      var done;
      done, rowed := MoveTo(d, from, o, kind, journal, place, rowed, I, J, old(d.history), old(d.rows));
      if done.Some? {
        return done.value, rowed, before;
      }
      fromN := n.value + 1;
    }
    moved := Failed(Trouble);
  }

  /** One try at one place: moved there, or given up for good, or `None` if the place was taken. */
  method MoveTo(d: Disk, from: Path, o: Original, kind: Kind, journal: Option<Journal>, place: Path, already: bool,
                ghost I: Snapshot -> bool, ghost J: Snapshot -> bool,
                ghost start: seq<Snapshot>, ghost rows: map<RelPath, Row>)
    returns (moved: Option<Moving>, rowed: bool)
    requires d.Valid() && Grows(I, J) && Moves(from, o, kind, journal, I, J) && I(d.Now()) && PlaceFor(place, o, kind)
    requires start <= d.history && Since(d.history, |start|, J) && RowsKept(rows, d.rows, journal, already)
    modifies d`nodes, d`unsynced, d`rows, d`history
    ensures d.Valid() && start <= d.history && Since(d.history, |start|, J) && RowsKept(rows, d.rows, journal, rowed)
    ensures if moved.Some? && moved.value.InTrash? then
              && moved.value.place == place && J(d.Now()) && RowFor(d.Now(), journal, place)
              && I(Snapshot(old(d.nodes), d.rows)) && MayMove(old(d.nodes), from, place)
              && d.nodes == Moved(old(d.nodes), from, place)
            else I(d.Now()) && d.nodes == old(d.nodes)
    ensures d.faultless && MayMove(old(d.nodes), from, place) ==> moved == Some(InTrash(place))
  {
    hide Grows, Moves, Moved, Tree, Since, RowsKept, MayMove, PlaceFor, RowFor;
    PlaceLength(place, o, kind);
    var stopped;
    stopped, rowed := PutFirst(d, from, o, kind, journal, place, already, I, J, start, rows);
    if stopped.Some? {
      return Some(Failed(stopped.value)), rowed;
    }
    ghost var was, had := d.Now(), d.history;
    var failed := d.RenameRefusing(from, place);
    if failed.None? {
      MoveStep(was, from, o, kind, journal, I, J, place);
      SinceOne(start, had, d.Now(), J);
      SameRow(was, d.Now(), journal, place);
      return Some(InTrash(place)), rowed;
    }
    if failed == Some(Exists) {
      return None, rowed;
    }
    var node, why := d.Lstat(from);
    if node.None? && (why == Missing || why == NotADirectory) {
      return Some(Gone), rowed;
    }
    moved := Some(Failed(OwnTrouble(failed.value)));
  }

  lemma SameRow(a: Snapshot, b: Snapshot, journal: Option<Journal>, to: Path)
    requires RowFor(a, journal, to) && a.rows == b.rows
    ensures RowFor(b, journal, to)
  {
  }

  lemma PlainIsParents(n: Nodes, o: Original)
    requires PlainlyFree(n, o)
    ensures PlainParents(n, o.day, o.above)
  {
  }

  lemma PlainTarget(was: Nodes, n: Nodes, o: Original, kind: Kind, from: Path)
    requires PlainlyFree(was, o) && from in was && !(from <= PlainPlace(o)) && Grown(was, n)
    requires DirAt(n, TRASH + ([o.day] + o.above))
    requires forall q: Path :: |q| > |o.above| + 3 ==> Get(n, q) == Get(was, q)
    ensures PlaceAt([o.day] + o.above, o.name, kind, 0) == PlainPlace(o)
    ensures !Taken(n, [o.day] + o.above, o.name, kind, 0)
    ensures MayMove(n, from, PlaceAt([o.day] + o.above, o.name, kind, 0))
  {
    assert Get(n, PlainPlace(o)) == Get(was, PlainPlace(o));
    assert Up(PlainPlace(o)) == TRASH + ([o.day] + o.above);
  }

  lemma RowsSame(rows: map<RelPath, Row>, journal: Option<Journal>)
    ensures RowsKept(rows, rows, journal, false)
  {
  }

  /** The row of a journalled move, durable before its rename. */
  method PutFirst(d: Disk, from: Path, o: Original, kind: Kind, journal: Option<Journal>, place: Path, already: bool,
                  ghost I: Snapshot -> bool, ghost J: Snapshot -> bool,
                  ghost start: seq<Snapshot>, ghost rows: map<RelPath, Row>)
    returns (stopped: Option<IoError>, rowed: bool)
    requires d.Valid() && Grows(I, J) && Moves(from, o, kind, journal, I, J) && I(d.Now()) && TRASH <= place
    requires start <= d.history && Since(d.history, |start|, J) && RowsKept(rows, d.rows, journal, already)
    modifies d`rows, d`history
    ensures d.Valid() && I(d.Now()) && RowsKept(rows, d.rows, journal, rowed)
    ensures start <= d.history && Since(d.history, |start|, J)
    ensures stopped.None? ==> RowFor(d.Now(), journal, place)
    ensures d.faultless ==> stopped.None?
  {
    hide Grows, Moves, Tree, Since, RowsKept;
    stopped, rowed := None, already;
    if journal.Some? {
      RowStep(d.Now(), from, o, kind, journal, I, J, place);
      ghost var had, were := d.history, d.rows;
      stopped := d.PutRow(journal.value.key, Row(place, journal.value.temp));
      if stopped.None? {
        GivesJ(d.Now(), I, J);
        SinceOne(start, had, d.Now(), J);
        RowsPut(rows, were, journal, already, place);
        rowed := true;
      }
    }
  }

  lemma RowStep(h: Snapshot, from: Path, o: Original, kind: Kind, journal: Option<Journal>,
                I: Snapshot -> bool, J: Snapshot -> bool, to: Path)
    requires Moves(from, o, kind, journal, I, J) && I(h) && TRASH <= to && journal.Some?
    ensures I(Snapshot(h.nodes, h.rows[journal.value.key := Row(to, journal.value.temp)]))
  {
  }

  lemma GivesJ(h: Snapshot, I: Snapshot -> bool, J: Snapshot -> bool)
    requires Grows(I, J) && I(h)
    ensures J(h)
  {
  }

  lemma MoveStep(h: Snapshot, from: Path, o: Original, kind: Kind, journal: Option<Journal>,
                 I: Snapshot -> bool, J: Snapshot -> bool, to: Path)
    requires Moves(from, o, kind, journal, I, J) && I(h) && PlaceFor(to, o, kind)
    requires MayMove(h.nodes, from, to) && RowFor(h, journal, to)
    ensures J(Snapshot(Moved(h.nodes, from, to), h.rows))
  {
  }
}
