/** Byte strings and entry paths: relative, forward slashes, held as the string itself. */
module Paths {
  import opened Prelude
  import Orders

  /** The byte order of strings. */
  function CmpText(a: string, b: string): Ordering {
    if a == [] && b == [] then Tie
    else if a == [] then Less
    else if b == [] then Greater
    else if a[0] != b[0] then (if a[0] < b[0] then Less else Greater)
    else CmpText(a[1..], b[1..])
  }

  lemma CmpTextTie(a: string, b: string)
    ensures CmpText(a, b) == Tie <==> a == b
    ensures CmpText(b, a) == CmpText(a, b).Flip()
  {
    if a != [] && b != [] && a[0] == b[0] {
      CmpTextTie(a[1..], b[1..]);
      assert a == [a[0]] + a[1..] && b == [b[0]] + b[1..];
    }
  }

  lemma {:induction false} CmpTextTransitive(a: string, b: string, c: string)
    requires CmpText(a, b) != Greater && CmpText(b, c) != Greater
    ensures CmpText(a, c) != Greater
    ensures CmpText(a, c) == Tie ==> CmpText(a, b) == Tie && CmpText(b, c) == Tie
  {
    if a != [] && b != [] && c != [] && a[0] == b[0] == c[0] {
      CmpTextTransitive(a[1..], b[1..], c[1..]);
    }
  }

  type RelPath = string

  /** The longest component, and the directory at the root no entry may be under. */
  const MAX_COMPONENT_LEN: nat := 255
  const RESERVED_DIR := ".delocal"

  /** `a` is a proper ancestor directory of `b`. */
  predicate IsAncestor(a: RelPath, b: RelPath) {
    |a| < |b| && a <= b && b[|a|] == '/'
  }

  lemma AncestorTransitive(a: RelPath, b: RelPath, c: RelPath)
    requires IsAncestor(a, b) && IsAncestor(b, c)
    ensures IsAncestor(a, c)
  {
    assert c[..|b|] == b;
    assert c[|a|] == b[|a|];
  }

  /** Two ancestors of one path are one above the other. */
  lemma AncestorsNest(a: RelPath, b: RelPath, c: RelPath)
    requires IsAncestor(a, c) && IsAncestor(b, c) && a != b
    ensures IsAncestor(a, b) || IsAncestor(b, a)
  {
    assert c[..|a|] == a && c[..|b|] == b;
    if |a| < |b| {
      assert b[..|a|] == c[..|a|];
      assert b[|a|] == c[|a|];
    } else if |b| < |a| {
      assert a[..|b|] == c[..|b|];
      assert a[|b|] == c[|b|];
    }
  }

  /** The order of paths puts every directory before its contents. */
  lemma {:induction false} AncestorFirst(a: RelPath, b: RelPath)
    requires IsAncestor(a, b)
    ensures CmpText(a, b) == Less
  {
    if a != [] {
      assert b[1..][|a[1..]|] == b[|a|];
      assert b[..|a|] == a;
      assert b[1..][..|a| - 1] == a[1..];
      AncestorFirst(a[1..], b[1..]);
    }
  }

  /** The position of the last `c` in `s`, -1 if there is none. */
  function LastIndex(s: string, c: char): (i: int)
    ensures -1 <= i < |s|
    ensures i >= 0 ==> s[i] == c
    ensures forall j :: i < j < |s| ==> s[j] != c
  {
    if s == [] then -1
    else if s[|s| - 1] == c then |s| - 1
    else LastIndex(s[..|s| - 1], c)
  }

  function FileName(p: RelPath): string {
    p[LastIndex(p, '/') + 1..]
  }

  function Parent(p: RelPath): Option<RelPath> {
    var i := LastIndex(p, '/');
    if i < 0 then None else Some(p[..i])
  }

  function Join(parent: Option<RelPath>, name: string): RelPath {
    match parent
    case None => name
    case Some(p) => p + "/" + name
  }

  /** A path is its parent joined with its name, and the parent is its nearest ancestor. */
  lemma ParentJoin(p: RelPath)
    ensures Join(Parent(p), FileName(p)) == p
    ensures Parent(p).Some? ==> IsAncestor(Parent(p).value, p)
    ensures forall a :: IsAncestor(a, p) ==>
              Parent(p).Some? && (a == Parent(p).value || IsAncestor(a, Parent(p).value))
  {
    var i := LastIndex(p, '/');
    if i >= 0 {
      assert p == p[..i] + [p[i]] + p[i + 1..];
    }
    forall a | IsAncestor(a, p)
      ensures Parent(p).Some? && (a == Parent(p).value || IsAncestor(a, Parent(p).value))
    {
      assert p[|a|] == '/';
      if a != p[..i] {
        AncestorsNest(a, p[..i], p);
      }
    }
  }

  lemma JoinParent(parent: Option<RelPath>, name: string)
    requires '/' !in name
    ensures Parent(Join(parent, name)) == parent
    ensures FileName(Join(parent, name)) == name
  {
    var p := Join(parent, name);
    var i := LastIndex(p, '/');
    if parent.Some? {
      assert p[|parent.value|] == '/';
      assert forall j :: |parent.value| < j < |p| ==> p[j] == name[j - |parent.value| - 1];
      assert p[..i] == parent.value;
    }
  }

  predicate IsComponent(c: string) {
    c != "" && c != "." && c != ".." && |c| <= MAX_COMPONENT_LEN && '\0' !in c && '/' !in c
  }

  /** What an entry's path may be: proper components, the first not the folder's own. */
  predicate IsPath(p: RelPath) {
    && IsComponent(FileName(p))
    && match Parent(p)
       case None => p != RESERVED_DIR
       case Some(q) => IsPath(q)
  }

  /** One component joined to a path is a path exactly if it is a proper one, and not the folder's
      own directory at the root. */
  lemma JoinIsPath(parent: Option<RelPath>, name: string)
    requires '/' !in name && (parent.Some? ==> IsPath(parent.value))
    ensures IsPath(Join(parent, name)) <==> IsComponent(name) && (parent.None? ==> name != RESERVED_DIR)
  {
    JoinParent(parent, name);
  }

  function TextOrder(): (string, string) -> bool {
    (a, b) => CmpText(a, b) != Greater
  }

  lemma TextOrderTotal()
    ensures Orders.Total(TextOrder())
  {
    forall a, b ensures CmpText(a, b) == Tie <==> a == b
      ensures CmpText(b, a) == CmpText(a, b).Flip()
    {
      CmpTextTie(a, b);
    }
    forall a, b, c | CmpText(a, b) != Greater && CmpText(b, c) != Greater
      ensures CmpText(a, c) != Greater
    {
      CmpTextTransitive(a, b, c);
    }
  }

  /** A set of paths in path order. */
  function Sorted(ps: set<RelPath>): seq<RelPath> {
    TextOrderTotal();
    Orders.Sort(ps, TextOrder())
  }

  lemma SortedElements(ps: set<RelPath>)
    ensures forall p :: p in Sorted(ps) <==> p in ps
    ensures forall i, j :: 0 <= i < j < |Sorted(ps)| ==>
              Sorted(ps)[i] != Sorted(ps)[j] && !IsAncestor(Sorted(ps)[j], Sorted(ps)[i])
  {
    TextOrderTotal();
    Orders.SortElements(ps, TextOrder());
    var out := Sorted(ps);
    forall i, j | 0 <= i < j < |out| ensures !IsAncestor(out[j], out[i]) {
      assert TextOrder()(out[i], out[j]);
      CmpTextTie(out[i], out[j]);
      if IsAncestor(out[j], out[i]) { AncestorFirst(out[j], out[i]); }
    }
  }
}
