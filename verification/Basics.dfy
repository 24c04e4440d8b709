/** What several modules share. */
module Basics {

  datatype Option<+T> = None | Some(value: T)

  // The int of Java and of C.
  const TWO_TO_THE_31 := 0x8000_0000

  type Int32 = x: int | -TWO_TO_THE_31 <= x < TWO_TO_THE_31

  function One(b: bool): nat { if b then 1 else 0 }

  ghost predicate Distinct<T>(s: seq<T>) {
    forall i, j | 0 <= i < j < |s| :: s[i] != s[j]
  }
}
