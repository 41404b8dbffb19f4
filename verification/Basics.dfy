/** What several modules share. */
module Basics {
  datatype Option<T> = None | Some(value: T)

  ghost predicate Distinct<T>(q: seq<T>) { forall i, j :: 0 <= i < j < |q| ==> q[i] != q[j] }
}

/** The scheduler's numbers. */
module Constants {
  const PRIORITIES := 5
  const NORMAL := 2
  const UI := 4
  const DEFAULT_SLICE := 10
  const AGING_THRESHOLD := 100

  /** One past the largest tick count. */
  const WORD := 0x1_0000_0000_0000_0000
}
