/** Small vocabulary shared by the model's modules. */
module Common {
  datatype Option<+T> = None | Some(value: T)

  function Min(a: real, b: real): real { if b < a then b else a }

  function Max(a: real, b: real): real { if b > a then b else a }

  function Abs(a: real): real { if a < 0.0 then -a else a }

  /** Python's `max(low, min(high, x))`. */
  function Clamp(low: real, high: real, x: real): (r: real)
    ensures low <= high ==> low <= r <= high
    ensures low <= x <= high ==> r == x
  {
    Max(low, Min(high, x))
  }

  /** The elements of `s` at the given positions, in that order. */
  function Select<T>(s: seq<T>, at: seq<nat>): (r: seq<T>)
    requires forall k | 0 <= k < |at| :: at[k] < |s|
    ensures |r| == |at| && forall k | 0 <= k < |at| :: r[k] == s[at[k]]
  {
    seq(|at|, k requires 0 <= k < |at| => s[at[k]])
  }
}
