/** Value types shared by the result analysis and the runner: puzzle grids,
    the two-attempt prediction record of the submission format, and Option
    for JSON values that may be `null` or missing. */
module Grids {

  /** A JSON value that may be absent (`null`, or a missing key read with `.get`). */
  datatype Option<+T> = None | Some(value: T) {
    function GetOr(default: T): T {
      match this
      case Some(v) => v
      case None => default
    }
  }

  /** A puzzle grid: a list of rows of colour codes. Equality is structural,
      as Python's `==` on nested lists. */
  type Grid = seq<seq<int>>

  /** One submission entry: the dictionary with the optional keys `attempt_1`
      and `attempt_2`. A missing key and a `null` value read the same through
      `.get`, so both are `None` here. */
  datatype Pack = Pack(attempt1: Option<Grid>, attempt2: Option<Grid>)

  /** The empty dictionary `{}`: neither attempt present. */
  const EmptyPack: Pack := Pack(None, None)

  /** The predictions of one puzzle: one entry per test input, each entry a
      Pack or `null`. */
  type Preds = seq<Option<Pack>>

  /** Python truthiness of an attempt value: `None` and the empty list are false. */
  predicate Truthy(a: Option<Grid>) {
    a.Some? && |a.value| > 0
  }
}
