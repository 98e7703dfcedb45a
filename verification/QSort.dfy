/** `qsortBleaf`: quick sort of slot positions by key, moving a hole instead of swapping. */
module QSort {
  import opened Types

  predicate InRange(s: seq<int>, n: nat) {
    forall i :: 0 <= i < |s| ==> 0 <= s[i] < n
  }

  /** Positions `a..b` hold slots in key order. */
  predicate SortedBy(ent: seq<IdxEntry>, s: seq<int>, a: int, b: int)
    requires 0 <= a <= b <= |s| && InRange(s, |ent|)
  {
    forall i, j :: a <= i < j < b ==> ent[s[i]].k <= ent[s[j]].k
  }

  /** Filling the hole at `l` from position `r`, and then the new hole at `r` with `v`, is a swap. */
  lemma {:induction false} MoveHole(s: seq<int>, l: int, r: int, v: int)
    requires 0 <= l < |s| && 0 <= r < |s| && l != r
    ensures multiset(s[l := s[r]][r := v]) == multiset(s[l := v])
  {
    var a, b := s[l := v], s[l := s[r]][r := v];
    assert b == a[l := a[r]][r := a[l]];
  }

  lemma {:induction false} ThreeParts(s: seq<int>, a: nat, b: nat)
    requires a <= b <= |s|
    ensures multiset(s) == multiset(s[..a]) + multiset(s[a..b]) + multiset(s[b..])
  {
    assert s == s[..a] + s[a..b] + s[b..];
  }

  /** A permutation that keeps both ends permutes the middle. */
  lemma {:induction false} MiddlePermuted(s: seq<int>, t: seq<int>, a: nat, b: nat)
    requires |s| == |t| && a <= b <= |s| && s[..a] == t[..a] && s[b..] == t[b..] && multiset(s) == multiset(t)
    ensures multiset(s[a..b]) == multiset(t[a..b])
  {
    ThreeParts(s, a, b);
    ThreeParts(t, a, b);
    Cancel(multiset(s[..a]), multiset(s[a..b]), multiset(t[a..b]), multiset(s[b..]));
  }

  lemma {:induction false} Cancel(a: multiset<int>, b: multiset<int>, c: multiset<int>, d: multiset<int>)
    requires a + b + d == a + c + d
    ensures b == c
  {
    forall x ensures b[x] == c[x] {
      assert (a + b + d)[x] == (a + c + d)[x];
    }
  }

  /** Every element of a permuted stretch was in the stretch before. */
  lemma {:induction false} PermutedFrom(s: seq<int>, t: seq<int>, i: nat) returns (j: nat)
    requires multiset(s) == multiset(t) && i < |t|
    ensures j < |s| && s[j] == t[i]
  {
    assert t[i] in multiset(t);
    assert t[i] in s;
    j :| 0 <= j < |s| && s[j] == t[i];
  }

  lemma {:induction false} InRangePermuted(s: seq<int>, t: seq<int>, n: nat)
    requires multiset(s) == multiset(t) && InRange(s, n)
    ensures InRange(t, n)
  {
    forall i | 0 <= i < |t| ensures 0 <= t[i] < n {
      var j := PermutedFrom(s, t, i);
    }
  }

  /**
   * The partition loop with the pivot slot `v` taken out: `s` with `v` in the hole is a permutation of `was`,
   * everything left of `l` is at most the pivot, everything right of `r` above it.
   */
  ghost predicate Parting(ent: seq<IdxEntry>, was: seq<int>, s: seq<int>, start: int, end: int, l: int, r: int, hole: int, v: int) {
    && |s| == |was| && 0 <= start <= l <= r <= end < |s| && 0 <= hole < |s| && 0 <= v < |ent|
    && InRange(s, |ent|) && multiset(s[hole := v]) == multiset(was)
    && (forall i :: 0 <= i < start || end < i < |s| ==> s[i] == was[i])
    && (forall i :: start <= i < l ==> ent[s[i]].k <= ent[v].k)
    && (forall i :: r < i <= end ==> ent[v].k < ent[s[i]].k)
  }

  lemma {:induction false} MoveLeft(ent: seq<IdxEntry>, was: seq<int>, s: seq<int>, start: int, end: int, l: int, r: int, v: int)
    requires Parting(ent, was, s, start, end, l, r, l, v) && l < r && ent[s[r]].k <= ent[v].k
    ensures Parting(ent, was, s[l := s[r]], start, end, l + 1, r, r, v)
  {
    MoveHole(s, l, r, v);
  }

  lemma {:induction false} MoveRight(ent: seq<IdxEntry>, was: seq<int>, s: seq<int>, start: int, end: int, l: int, r: int, v: int)
    requires Parting(ent, was, s, start, end, l, r, r, v) && l < r && ent[v].k < ent[s[l]].k
    ensures Parting(ent, was, s[r := s[l]], start, end, l, r - 1, l, v)
  {
    MoveHole(s, r, l, v);
  }

  lemma {:induction false} Narrow(ent: seq<IdxEntry>, was: seq<int>, s: seq<int>, start: int, end: int, l: int, r: int, hole: int, v: int)
    requires Parting(ent, was, s, start, end, l, r, hole, v)
    ensures 0 <= l <= r < |s| && 0 <= v < |ent| && 0 <= s[l] < |ent| && 0 <= s[r] < |ent|
    ensures l < r && ent[v].k < ent[s[r]].k ==> Parting(ent, was, s, start, end, l, r - 1, hole, v)
    ensures l < r && ent[s[l]].k <= ent[v].k ==> Parting(ent, was, s, start, end, l + 1, r, hole, v)
  {
  }

  /** From the right past the slots with larger keys; the first other one goes into the hole, and its place becomes the hole. */
  method FromRight(ent: seq<IdxEntry>, ghost was: seq<int>, start: int, end: int, l0: int, r0: int, v: int, pos: array<int>)
    returns (l: int, r: int)
    requires Parting(ent, was, pos[..], start, end, l0, r0, l0, v)
    modifies pos
    ensures Parting(ent, was, pos[..], start, end, l, r, r, v) && (l0 < r0 ==> r - l < r0 - l0)
  {
    hide Parting;
    l, r := l0, r0;
    Narrow(ent, was, pos[..], start, end, l, r, l, v);
    while l < r && ent[pos[r]].k > ent[v].k
      invariant l <= r < pos.Length && 0 <= pos[r] < |ent| && Parting(ent, was, pos[..], start, end, l, r, l, v) && r <= r0
    {
      Narrow(ent, was, pos[..], start, end, l, r, l, v);
      r := r - 1;
      Narrow(ent, was, pos[..], start, end, l, r, l, v);
    }
    if l < r {
      MoveLeft(ent, was, pos[..], start, end, l, r, v);
      ghost var s := pos[..];
      pos[l] := pos[r];
      assert pos[..] == s[l := s[r]];
      l := l + 1;
    }
  }

  /** From the left past the slots with keys no larger; the first other one goes into the hole, and its place becomes the hole. */
  method FromLeft(ent: seq<IdxEntry>, ghost was: seq<int>, start: int, end: int, l0: int, r0: int, v: int, pos: array<int>)
    returns (l: int, r: int)
    requires Parting(ent, was, pos[..], start, end, l0, r0, r0, v)
    modifies pos
    ensures Parting(ent, was, pos[..], start, end, l, r, l, v) && r - l <= r0 - l0
  {
    hide Parting;
    l, r := l0, r0;
    Narrow(ent, was, pos[..], start, end, l, r, r, v);
    while l < r && ent[pos[l]].k <= ent[v].k
      invariant l <= r < pos.Length && 0 <= pos[l] < |ent| && Parting(ent, was, pos[..], start, end, l, r, r, v) && l0 <= l
    {
      Narrow(ent, was, pos[..], start, end, l, r, r, v);
      l := l + 1;
      Narrow(ent, was, pos[..], start, end, l, r, r, v);
    }
    if l < r {
      MoveRight(ent, was, pos[..], start, end, l, r, v);
      ghost var s := pos[..];
      pos[r] := pos[l];
      assert pos[..] == s[r := s[l]];
      r := r - 1;
    }
  }

  /** Keys left of position `l` are at most the key there, keys right of it are above. */
  predicate Parted(ent: seq<IdxEntry>, s: seq<int>, start: int, l: int, end: int)
    requires 0 <= start <= l <= end < |s| && InRange(s, |ent|)
  {
    && (forall i :: start <= i < l ==> ent[s[i]].k <= ent[s[l]].k)
    && (forall i :: l < i <= end ==> ent[s[l]].k < ent[s[i]].k)
  }

  /** `t` is a permutation of `s` that moves nothing outside `start..end`. */
  predicate Rearranged(s: seq<int>, t: seq<int>, start: int, end: int) {
    |s| == |t| && multiset(s) == multiset(t) && forall i :: 0 <= i < |s| && (i < start || end < i) ==> t[i] == s[i]
  }

  /** The partition step: the pivot goes to its final place `l`. */
  method Partition(ent: seq<IdxEntry>, start: int, end: int, pos: array<int>) returns (l: int)
    requires 0 <= start < end < pos.Length && InRange(pos[..], |ent|)
    modifies pos
    ensures start <= l <= end && InRange(pos[..], |ent|)
    ensures Rearranged(old(pos[..]), pos[..], start, end)
    ensures Parted(ent, pos[..], start, l, end)
  {
    var posStart := pos[start];
    l := start;
    var r := end;
    ghost var was := pos[..];
    assert was[l := posStart] == was;
    while l < r
      invariant Parting(ent, was, pos[..], start, end, l, r, l, posStart)
      decreases r - l
    {
      l, r := FromRight(ent, was, start, end, l, r, posStart, pos);
      l, r := FromLeft(ent, was, start, end, l, r, posStart, pos);
    }
    ghost var s := pos[..];
    pos[l] := posStart;
    assert pos[..] == s[l := posStart];
  }

  /** The keys of a stretch, compared with a bound, do not change when the stretch is permuted. */
  lemma {:induction false} BoundPermuted(ent: seq<IdxEntry>, s: seq<int>, t: seq<int>, a: nat, b: nat, key: Key, above: bool)
    requires |s| == |t| && a <= b <= |s| && InRange(s, |ent|) && InRange(t, |ent|)
    requires multiset(s[a..b]) == multiset(t[a..b])
    requires forall i :: a <= i < b ==> if above then key < ent[s[i]].k else ent[s[i]].k <= key
    ensures forall i :: a <= i < b ==> if above then key < ent[t[i]].k else ent[t[i]].k <= key
  {
    forall i | a <= i < b ensures if above then key < ent[t[i]].k else ent[t[i]].k <= key {
      assert t[a..b][i - a] == t[i];
      var j := PermutedFrom(s[a..b], t[a..b], i - a);
      assert s[a..b][j] == s[a + j];
    }
  }

  /** `t` permutes `s` within the stretch `a..b`. */
  predicate Within(s: seq<int>, t: seq<int>, a: int, b: int) {
    && |s| == |t| && 0 <= a <= b <= |s| && multiset(s) == multiset(t) && s[..a] == t[..a] && s[b..] == t[b..]
  }

  /** `qsortBleaf`: sorts `pos[start..end]` (both inclusive) by key. */
  method QSortBleaf(ent: seq<IdxEntry>, start: int, end: int, pos: array<int>)
    requires 0 <= start <= end + 1 <= pos.Length && InRange(pos[..], |ent|)
    modifies pos
    ensures InRange(pos[..], |ent|) && SortedBy(ent, pos[..], start, end + 1)
    ensures Within(old(pos[..]), pos[..], start, end + 1)
    decreases end - start + 1
  {
    hide Within, SortedBy, Parted, Rearranged, InRange;
    if start >= end {
      Short(ent, pos[..], start, end + 1);
      return;
    }
    ghost var s0 := pos[..];
    var l := Partition(ent, start, end, pos);
    ghost var s1 := pos[..];
    QSortBleaf(ent, start, l - 1, pos);
    ghost var s2 := pos[..];
    QSortBleaf(ent, l + 1, end, pos);
    SortedJoin(ent, s1, s2, pos[..], start, l, end);
    WithinJoin(s0, s1, s2, pos[..], start, l, end);
  }

  lemma {:induction false} Short(ent: seq<IdxEntry>, s: seq<int>, a: int, b: int)
    requires 0 <= a <= b <= |s| && b <= a + 1 && InRange(s, |ent|)
    ensures SortedBy(ent, s, a, b) && Within(s, s, a, b)
  {
  }

  lemma {:induction false} WithinJoin(s0: seq<int>, s1: seq<int>, s2: seq<int>, s3: seq<int>, start: nat, l: nat, end: nat)
    requires start <= l <= end < |s1| == |s0|
    requires Rearranged(s0, s1, start, end)
    requires Within(s1, s2, start, l) && Within(s2, s3, l + 1, end + 1)
    ensures Within(s0, s3, start, end + 1)
  {
    hide Within;
    WithinAt(s1, s2, start, l);
    WithinAt(s2, s3, l + 1, end + 1);
    WithinIntro(s0, s3, start, end + 1);
  }

  lemma {:induction false} WithinAt(s: seq<int>, t: seq<int>, a: int, b: int)
    requires Within(s, t, a, b)
    ensures |s| == |t| && 0 <= a <= b <= |s| && multiset(s) == multiset(t)
    ensures forall i :: 0 <= i < a || b <= i < |s| ==> s[i] == t[i]
  {
    assert forall i | 0 <= i < a :: s[i] == s[..a][i] && t[i] == t[..a][i];
    assert forall i | b <= i < |s| :: s[i] == s[b..][i - b] && t[i] == t[b..][i - b];
  }

  lemma {:induction false} WithinIntro(s: seq<int>, t: seq<int>, a: int, b: int)
    requires |s| == |t| && 0 <= a <= b <= |s| && multiset(s) == multiset(t)
    requires forall i :: 0 <= i < a || b <= i < |s| ==> s[i] == t[i]
    ensures Within(s, t, a, b)
  {
  }

  lemma {:induction false} SortedJoin(ent: seq<IdxEntry>, s1: seq<int>, s2: seq<int>, s3: seq<int>, start: nat, l: nat, end: nat)
    requires start <= l <= end < |s1| && |s1| == |s2| == |s3|
    requires InRange(s1, |ent|) && InRange(s2, |ent|) && InRange(s3, |ent|)
    requires Within(s1, s2, start, l) && Within(s2, s3, l + 1, end + 1)
    requires Parted(ent, s1, start, l, end)
    requires SortedBy(ent, s2, start, l) && SortedBy(ent, s3, l + 1, end + 1)
    ensures SortedBy(ent, s3, start, end + 1)
  {
    var key := ent[s1[l]].k;
    Bounds(ent, s1, s2, start, l, key, false);
    WithinAt(s1, s2, start, l);
    WithinAt(s2, s3, l + 1, end + 1);
    Bounds(ent, s2, s3, l + 1, end + 1, key, true);
    hide Within;
  }

  lemma {:induction false} Bounds(ent: seq<IdxEntry>, s: seq<int>, t: seq<int>, a: nat, b: nat, key: Key, above: bool)
    requires Within(s, t, a, b) && InRange(s, |ent|) && InRange(t, |ent|)
    requires forall i :: a <= i < b ==> if above then key < ent[s[i]].k else ent[s[i]].k <= key
    ensures forall i :: a <= i < b ==> if above then key < ent[t[i]].k else ent[t[i]].k <= key
  {
    MiddlePermuted(s, t, a, b);
    BoundPermuted(ent, s, t, a, b, key, above);
  }

  // ---------------------------------------------------------------- permutations of 0..n

  function Iota(n: nat): (s: seq<int>)
    ensures |s| == n && forall i :: 0 <= i < n ==> s[i] == i
  {
    if n == 0 then [] else Iota(n - 1) + [n - 1]
  }

  lemma {:induction false} IotaCount(n: nat, x: int)
    ensures multiset(Iota(n))[x] == if 0 <= x < n then 1 else 0
  {
    if n > 0 { IotaCount(n - 1, x); }
  }

  lemma {:induction false} PermutationFacts(s: seq<int>, n: nat)
    requires multiset(s) == multiset(Iota(n))
    ensures forall i, j :: 0 <= i < j < |s| ==> s[i] != s[j]
    ensures forall x :: 0 <= x < n ==> x in s
    ensures InRange(s, n)
  {
    forall i, j | 0 <= i < j < |s| ensures s[i] != s[j] {
      IotaCount(n, s[j]);
      assert s == s[..j] + s[j..];
      assert multiset(s)[s[j]] == multiset(s[..j])[s[j]] + multiset(s[j..])[s[j]];
      assert s[j..][0] == s[j] && s[..j][i] == s[i];
      assert s[i] in s[..j] && s[j] in s[j..];
    }
    forall x | 0 <= x < n ensures x in s {
      IotaCount(n, x);
      assert x in multiset(s);
    }
    InRangePermuted(Iota(n), s, n);
  }
}
