/** Byte strings as bit vectors, for the hash functions. */
module Octets {

  function Zeros(n: nat): (s: seq<bv8>)
    ensures |s| == n
  {
    seq(n, _ => 0)
  }
}
