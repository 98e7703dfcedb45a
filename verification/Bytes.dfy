/** Byte sequences and copies into byte arrays. */
module Bytes {
  import opened Types

  function Patch(a: seq<byte>, at: int, bs: seq<byte>): (r: seq<byte>)
    requires 0 <= at && at + |bs| <= |a|
    ensures |r| == |a|
  {
    a[..at] + bs + a[at + |bs|..]
  }

  lemma {:induction false} PatchHere(a: seq<byte>, at: int, bs: seq<byte>, i: int)
    requires 0 <= i <= at && at + |bs| <= |a|
    ensures Patch(a, at, bs)[i..at + |bs|] == a[i..at] + bs
  {
  }

  method Memcpy(a: array<byte>, at: int, bs: seq<byte>)
    requires 0 <= at && at + |bs| <= a.Length
    modifies a
    ensures a[..] == Patch(old(a[..]), at, bs)
  {
    forall i | 0 <= i < |bs| { a[at + i] := bs[i]; }
  }

  lemma {:induction false} SubSlice(a: seq<byte>, p: int, q: int, i: int, l: int)
    requires 0 <= p <= q <= |a| && 0 <= i && 0 <= l && i + l <= q - p
    ensures a[p..q][i..i + l] == a[p + i..p + i + l]
  {
    var b, c := a[p..q][i..i + l], a[p + i..p + i + l];
    forall x | 0 <= x < l ensures b[x] == c[x] { assert a[p..q][i + x] == a[p + i + x]; }
  }

  lemma {:induction false} SliceJoin(stream: seq<byte>, i: nat, j: nat, k: nat)
    requires i <= j <= k <= |stream|
    ensures stream[i..j] + stream[j..k] == stream[i..k]
  {
  }

  lemma {:induction false} SliceArea(area: array<byte>, from: int, l: nat)
    requires 0 <= from && from + l <= area.Length
    ensures area[..][from..from + l] == area[from..from + l]
  {
  }
}
