/** Small shared vocabulary: optional values and integer maxima. */
module Prelude {
  datatype Option<+T> = None | Some(value: T)

  datatype Ordering = Less | Tie | Greater {
    function Then(next: Ordering): Ordering { if this == Tie then next else this }

    function Flip(): Ordering {
      match this case Less => Greater case Tie => Tie case Greater => Less
    }
  }

  function Cmp(a: int, b: int): Ordering {
    if a < b then Less else if a == b then Tie else Greater
  }

  function CmpBool(a: bool, b: bool): Ordering {
    if a == b then Tie else if b then Less else Greater
  }

  function Max(a: int, b: int): int { if a < b then b else a }

  /** The largest of a list, if it has any. */
  function Largest(xs: seq<int>): Option<int> {
    if xs == [] then None
    else match Largest(xs[1..])
      case None => Some(xs[0])
      case Some(m) => Some(Max(xs[0], m))
  }
}
