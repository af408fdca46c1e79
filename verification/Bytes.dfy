// Bytes and the failure-or-value type shared by the components.
module Bytes {
  type byte = x: int | 0 <= x < 256

  datatype Option<+T> = None | Some(value: T)

  // The byte at index i of a memory image. The C code reads past the end of a
  // block when its last token is cut short; what lies beyond the image is 0.
  function Fetch(mem: seq<byte>, i: nat): byte {
    if i < |mem| then mem[i] else 0
  }

  lemma SliceOfSlice(s: seq<byte>, p: nat, q: nat, i: nat, j: nat)
    requires p <= q <= |s| && i <= j <= q - p
    ensures s[p..q][i..j] == s[p + i..p + j]
  {
    var a, b := s[p..q][i..j], s[p + i..p + j];
    assert forall k {:trigger a[k]} :: 0 <= k < |a| ==> a[k] == b[k];
  }
}
