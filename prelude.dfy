/** Small building blocks shared by the modules of the analyser. */
module Prelude {

  /** Success or failure, for the operations of the analyser that raise. */
  datatype Result<+T, +E> = Ok(value: T) | Err(error: E)

  /** Python's slice `s[:k]`: the first k elements, or all of them when there are fewer. */
  function Take<T>(s: seq<T>, k: nat): (r: seq<T>)
    ensures |r| == if |s| < k then |s| else k
    ensures r == s[..|r|]
  {
    if |s| < k then s else s[..k]
  }
}
