/** Small shared vocabulary. */
module Basics {

  datatype Option<+T> = None | Some(value: T)

  /** The smaller of two lengths. */
  function Min(a: nat, b: nat): (m: nat)
    ensures m <= a && m <= b && (m == a || m == b)
  {
    if a <= b then a else b
  }
}
