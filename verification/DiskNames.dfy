/** How a name a directory lists becomes an index path. Unicode is abstract: `nfc` gives a name's
    normal form, or nothing if it is not UTF-8. */
module DiskNames {
  import opened Prelude
  import opened Paths

  const MAX_PATH_LEN: nat := 4096

  type Nfc = string -> Option<string>

  datatype Unobservable = NotUtf8 | NameTooLong | PathTooLong | Coincides(path: RelPath) | NotAName

  datatype Name = AtPath(path: RelPath, differs: bool) | Reserved | Unseen(why: Unobservable)

  /** One name on its own: it never coincides. */
  function NameOf(nfc: Nfc, parent: Option<RelPath>, disk: string): (n: Name)
    ensures n.Unseen? ==> !n.why.Coincides?
    ensures n.AtPath? && parent.Some? ==> IsAncestor(parent.value, n.path)
  {
    if nfc(disk).None? then Unseen(NotUtf8)
    else if '/' in disk then Unseen(NotAName)
    else
      var name := nfc(disk).value;
      var path := Join(parent, name);
      if |name| > MAX_COMPONENT_LEN then Unseen(NameTooLong)
      else if |path| > MAX_PATH_LEN then Unseen(PathTooLong)
      else if name == "" || name == "." || name == ".." || '\0' in name || '/' in name then Unseen(NotAName)
      else if parent.None? && name == RESERVED_DIR then Reserved
      else AtPath(path, name != disk)
  }

  /** A name is an entry's exactly if its normal form, joined to its directory's path, is a path
      an entry may have and not too long a one; the name kept beside it is the one that differs.
      Only the folder's own directory, at the root, is reserved. */
  lemma NameMeans(nfc: Nfc, parent: Option<RelPath>, disk: string)
    requires parent.Some? ==> IsPath(parent.value)
    ensures var n, form := NameOf(nfc, parent, disk), nfc(disk);
            && (n.AtPath? <==> form.Some? && '/' !in disk && '/' !in form.value
                               && IsPath(Join(parent, form.value)) && |Join(parent, form.value)| <= MAX_PATH_LEN)
            && (n.AtPath? ==> n.path == Join(parent, form.value) && (n.differs <==> form.value != disk))
            && (n.Reserved? <==> form == Some(RESERVED_DIR) && parent.None? && '/' !in disk)
  {
    hide IsPath;
    if nfc(disk).Some? && '/' !in nfc(disk).value {
      JoinIsPath(parent, nfc(disk).value);
    }
  }

  /** Two names of one directory map to one path. */
  predicate Clashes(nfc: Nfc, parent: Option<RelPath>, names: seq<string>, i: nat)
    requires i < |names|
  {
    NameOf(nfc, parent, names[i]).AtPath? &&
    exists j :: 0 <= j < |names| && j != i && NameOf(nfc, parent, names[j]).AtPath?
                && NameOf(nfc, parent, names[j]).path == NameOf(nfc, parent, names[i]).path
  }

  function Marked(nfc: Nfc, parent: Option<RelPath>, names: seq<string>, i: nat): Name
    requires i < |names|
  {
    if Clashes(nfc, parent, names, i) then Unseen(Coincides(NameOf(nfc, parent, names[i]).path))
    else NameOf(nfc, parent, names[i])
  }

  /** How many names so far map to each path. */
  function Count(counts: map<RelPath, nat>, p: RelPath): nat {
    if p in counts then counts[p] else 0
  }

  ghost function Mapping(nfc: Nfc, parent: Option<RelPath>, names: seq<string>, p: RelPath): set<nat> {
    set j: nat | j < |names| && NameOf(nfc, parent, names[j]).AtPath? && NameOf(nfc, parent, names[j]).path == p
  }

  /** Every name of one directory, those whose paths coincide marked, in the order listed. */
  method NameDir(nfc: Nfc, parent: Option<RelPath>, names: seq<string>) returns (out: seq<Name>)
    ensures |out| == |names|
    ensures forall i: nat :: i < |names| ==> out[i] == Marked(nfc, parent, names, i)
  {
    hide NameOf, Mapping, Clashes;
    NoneYet(nfc, parent);
    assert names[..0] == [];
    var counts: map<RelPath, nat> := map[];
    for i := 0 to |names|
      invariant forall p :: Count(counts, p) == |Mapping(nfc, parent, names[..i], p)|
    {
      OneMore(nfc, parent, names, i);
      ghost var before := counts;
      var n := NameOf(nfc, parent, names[i]);
      if n.AtPath? {
        counts := counts[n.path := Count(counts, n.path) + 1];
      }
      forall p ensures Count(counts, p) == |Mapping(nfc, parent, names[..i + 1], p)| {
        assert Count(before, p) == |Mapping(nfc, parent, names[..i], p)|;
        assert |Mapping(nfc, parent, names[..i + 1], p)|
            == |Mapping(nfc, parent, names[..i], p)| + if MapsTo(nfc, parent, names[i], p) then 1 else 0;
      }
    }
    assert names[..|names|] == names;
    out := [];
    for i := 0 to |names|
      invariant |out| == i
      invariant forall k: nat :: k < i ==> out[k] == Marked(nfc, parent, names, k)
    {
      var n := NameOf(nfc, parent, names[i]);
      ClashCounts(nfc, parent, names, i);
      out := out + [if n.AtPath? && Count(counts, n.path) > 1 then Unseen(Coincides(n.path)) else n];
    }
  }

  predicate MapsTo(nfc: Nfc, parent: Option<RelPath>, disk: string, p: RelPath) {
    NameOf(nfc, parent, disk).AtPath? && NameOf(nfc, parent, disk).path == p
  }

  lemma NoneYet(nfc: Nfc, parent: Option<RelPath>)
    ensures forall p :: |Mapping(nfc, parent, [], p)| == 0
  {
    assert forall p :: Mapping(nfc, parent, [], p) == {};
  }

  lemma OneMoreAt(nfc: Nfc, parent: Option<RelPath>, names: seq<string>, i: nat, p: RelPath)
    requires i < |names|
    ensures |Mapping(nfc, parent, names[..i + 1], p)|
         == |Mapping(nfc, parent, names[..i], p)| + if MapsTo(nfc, parent, names[i], p) then 1 else 0
  {
    hide NameOf;
    var was := Mapping(nfc, parent, names[..i], p);
    assert names[..i + 1][i] == names[i];
    assert Mapping(nfc, parent, names[..i + 1], p) == if MapsTo(nfc, parent, names[i], p) then was + {i} else was;
  }

  lemma OneMore(nfc: Nfc, parent: Option<RelPath>, names: seq<string>, i: nat)
    requires i < |names|
    ensures forall p :: |Mapping(nfc, parent, names[..i + 1], p)|
                     == |Mapping(nfc, parent, names[..i], p)| + if MapsTo(nfc, parent, names[i], p) then 1 else 0
  {
    hide NameOf, Mapping, MapsTo;
    forall p ensures |Mapping(nfc, parent, names[..i + 1], p)|
                  == |Mapping(nfc, parent, names[..i], p)| + if MapsTo(nfc, parent, names[i], p) then 1 else 0
    {
      OneMoreAt(nfc, parent, names, i, p);
    }
  }

  /** A name clashes exactly if more than one maps to its path. */
  lemma ClashCounts(nfc: Nfc, parent: Option<RelPath>, names: seq<string>, i: nat)
    requires i < |names|
    ensures Clashes(nfc, parent, names, i)
       <==> NameOf(nfc, parent, names[i]).AtPath?
            && |Mapping(nfc, parent, names, NameOf(nfc, parent, names[i]).path)| > 1
  {
    hide NameOf;
    if !NameOf(nfc, parent, names[i]).AtPath? { return; }
    var all := Mapping(nfc, parent, names, NameOf(nfc, parent, names[i]).path);
    assert i in all;
    if Clashes(nfc, parent, names, i) {
      var j: nat :| j < |names| && j != i && NameOf(nfc, parent, names[j]).AtPath?
                    && NameOf(nfc, parent, names[j]).path == NameOf(nfc, parent, names[i]).path;
      assert {i, j} <= all;
      assert all == {i, j} + (all - {i, j});
    } else {
      assert all == {i};
    }
  }
}
