/** Plain option and result values, how a call to a dependency goes, and sequences without repeats. */
module Wrappers {
  datatype Option<+T> = None | Some(value: T)

  datatype Result<+T, +E> = Ok(value: T) | Err(error: E)

  /** How a call to a dependency goes: well, without any effect, or with its effect but no reply. */
  datatype Fault = NoFault | NoEffect | ReplyLost

  ghost predicate Distinct<T(!new)>(s: seq<T>) {
    forall i, j :: 0 <= i < j < |s| ==> s[i] != s[j]
  }
}
