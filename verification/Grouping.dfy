/** Cutting a sequence into groups of a fixed size, the last one possibly shorter: how bulkload spreads keys over leaves and children over nodes. */
module Grouping {
  import opened Types
  import opened Levels
  import opened MemPool

  type Size = n: int | n > 0 witness 1

  /** `ceiling(a, b)` */
  function Ceiling(a: nat, b: Size): nat { (a + b - 1) / b }

  function Grouped<T>(A: seq<T>, F: Size): seq<seq<T>>
    decreases |A|
  {
    if A == [] then [] else if |A| <= F then [A] else [A[..F]] + Grouped(A[F..], F)
  }

  function Flat<T>(G: seq<seq<T>>): seq<T> {
    if G == [] then [] else G[0] + Flat(G[1..])
  }

  lemma {:induction false} GroupedFlat<T>(A: seq<T>, F: Size)
    ensures Flat(Grouped(A, F)) == A
    decreases |A|
  {
    if A == [] {
    } else if |A| <= F {
      assert [A][1..] == [];
    } else {
      GroupedFlat(A[F..], F);
      var G := Grouped(A, F);
      assert G[0] == A[..F] && G[1..] == Grouped(A[F..], F);
    }
  }

  // ---------------------------------------------------------------- how many groups

  lemma {:induction false} CeilingStep(a: nat, b: Size)
    ensures a == 0 ==> Ceiling(a, b) == 0
    ensures 0 < a <= b ==> Ceiling(a, b) == 1
    ensures a > b ==> Ceiling(a, b) == 1 + Ceiling(a - b, b)
  {
    if a == 0 {
      Quotient(b - 1, b, 0);
    } else if a <= b {
      Quotient(a + b - 1, b, 1);
    } else {
      var q := (a - b + b - 1) / b;
      QuotientOf(a - b + b - 1, b);
      assert (q + 1) * b == q * b + b;
      Quotient(a + b - 1, b, q + 1);
    }
  }

  lemma {:induction false} QuotientOf(x: nat, b: Size)
    ensures (x / b) * b <= x < (x / b) * b + b
  {
  }

  lemma {:induction false} Quotient(x: nat, b: Size, q: nat)
    requires q * b <= x < q * b + b
    ensures x / b == q
  {
    QuotientOf(x, b);
    var p := x / b;
    if p < q { Less(p, q, b); }
    if q < p { Less(q, p, b); }
  }

  lemma {:induction false} Less(p: nat, q: nat, b: Size)
    requires p < q
    ensures p * b + b <= q * b
  {
    assert (q - p - 1) * b >= 0;
    assert (q - p - 1) * b == q * b - p * b - b;
  }

  lemma {:induction false} GroupCount<T>(A: seq<T>, F: Size)
    ensures |Grouped(A, F)| == Ceiling(|A|, F)
    decreases |A|
  {
    CeilingStep(|A|, F);
    if |A| > F { GroupCount(A[F..], F); }
  }

  lemma {:induction false} CeilingGrows(a: nat, b: nat, F: Size)
    requires a <= b
    ensures Ceiling(a, F) <= Ceiling(b, F)
    decreases b
  {
    CeilingStep(a, F);
    CeilingStep(b, F);
    if a > F {
      CeilingGrows(a - F, b - F, F);
    }
  }

  lemma {:induction false} CeilingHalf(a: nat, F: Size)
    requires F >= 2
    ensures Ceiling(a, F) <= (a + 1) / 2 && (a > 0 ==> Ceiling(a, F) > 0)
    decreases a
  {
    CeilingStep(a, F);
    if a > F { CeilingHalf(a - F, F); }
  }

  // ---------------------------------------------------------------- levels of groups

  /** The number of nodes on level `l` of a load of `n` keys. */
  function CountAt(n: nat, lf: Size, F: Size, l: nat): nat {
    if l == 0 then Ceiling(n, lf) else Ceiling(CountAt(n, lf, F, l - 1), F)
  }

  lemma {:induction false} CountsAre(count: seq<nat>, n: nat, lf: Size, F: Size, l: nat)
    requires l < |count| && count[0] == Ceiling(n, lf) && forall i :: 0 < i < |count| ==> count[i] == Ceiling(count[i - 1], F)
    ensures count[l] == CountAt(n, lf, F, l)
    decreases l
  {
    if l > 0 { CountsAre(count, n, lf, F, l - 1); }
  }

  lemma {:induction false} CountsAll(count: seq<nat>, n: nat, lf: Size, F: Size)
    requires count != [] && count[0] == Ceiling(n, lf) && forall i :: 0 < i < |count| ==> count[i] == Ceiling(count[i - 1], F)
    ensures forall l :: 0 <= l < |count| ==> count[l] == CountAt(n, lf, F, l)
  {
    forall l | 0 <= l < |count| ensures count[l] == CountAt(n, lf, F, l) { CountsAre(count, n, lf, F, l); }
  }

  /** A load of `k` keys comes down to one node on `level`, and not before. */
  predicate JoinsAt(k: nat, lf: Size, F: Size, level: nat) {
    CountAt(k, lf, F, level) == 1 && forall l :: 0 <= l < level ==> CountAt(k, lf, F, l) > 1
  }

  // ---------------------------------------------------------------- one element more

  /** The last group can take another element. */
  predicate Open<T>(G: seq<seq<T>>, F: Size) {
    G != [] && |G[|G| - 1]| < F
  }

  /** Every group but the last has `F` elements, and none is empty. */
  predicate Even<T>(G: seq<seq<T>>, F: Size) {
    (forall j :: 0 <= j < |G| - 1 ==> |G[j]| == F) && forall j :: 0 <= j < |G| ==> 0 < |G[j]| <= F
  }

  lemma {:induction false} GroupedEven<T>(A: seq<T>, F: Size)
    ensures Even(Grouped(A, F), F)
    decreases |A|
  {
    if |A| > F {
      GroupedEven(A[F..], F);
      var G, R := Grouped(A, F), Grouped(A[F..], F);
      assert forall j :: 0 < j < |G| ==> G[j] == R[j - 1];
    }
  }

  function Extended<T>(G: seq<seq<T>>, F: Size, e: T): seq<seq<T>> {
    if Open(G, F) then G[|G| - 1 := G[|G| - 1] + [e]] else G + [[e]]
  }

  lemma {:induction false} GroupedMore<T>(A: seq<T>, F: Size, e: T)
    ensures Grouped(A + [e], F) == Extended(Grouped(A, F), F, e)
    decreases |A|
  {
    if A == [] {
      assert A + [e] == [e];
    } else if |A| < F {
    } else if |A| == F {
      assert (A + [e])[..F] == A && (A + [e])[F..] == [e];
      assert Grouped([e], F) == [[e]];
    } else {
      var R := Grouped(A[F..], F);
      GroupedMore(A[F..], F, e);
      assert (A + [e])[..F] == A[..F] && (A + [e])[F..] == A[F..] + [e];
      ExtendedCons(A[..F], R, F, e);
      GroupsThere(A[F..], F);
    }
  }

  lemma {:induction false} GroupsThere<T>(A: seq<T>, F: Size)
    requires A != []
    ensures Grouped(A, F) != []
  {
  }

  lemma {:induction false} ExtendedCons<T>(a: seq<T>, R: seq<seq<T>>, F: Size, e: T)
    ensures R != [] ==> Extended([a] + R, F, e) == [a] + Extended(R, F, e)
  {
    if R != [] {
      var G := [a] + R;
      assert G[|G| - 1] == R[|R| - 1];
    }
  }

  /** Where a group's elements come from. */
  lemma {:induction false} GroupAt<T>(A: seq<T>, F: Size, j: nat)
    requires j < |Grouped(A, F)|
    ensures 0 <= j * F < |A| && Grouped(A, F)[j] == A[j * F..if j * F + F <= |A| then j * F + F else |A|]
    decreases |A|
  {
    if |A| <= F {
      assert j == 0;
      assert A[0..|A|] == A;
    } else if j == 0 {
    } else {
      var R := A[F..];
      GroupAt(R, F, j - 1);
      assert (j - 1) * F + F == j * F;
      var p := (j - 1) * F;
      var q := if p + F <= |R| then p + F else |R|;
      assert R[p..q] == A[p + F..q + F];
    }
  }

  // ---------------------------------------------------------------- the level above

  /** The nodes of a level whose children are `A`: node `j` is at `base` + `j`, its low key is its first child's. */
  function Above(A: seq<IdxEntry>, F: Size, base: Ptr, size: nat): seq<IdxEntry> {
    var G := Grouped(A, F);
    seq(|G|, j requires 0 <= j < |G| => IdxEntry(if G[j] == [] then 0 else G[j][0].k, NodeAt(base, j, size)))
  }

  lemma {:induction false} AboveMore(A: seq<IdxEntry>, F: Size, base: Ptr, size: nat, e: IdxEntry)
    ensures Above(A + [e], F, base, size) ==
      if Open(Grouped(A, F), F) then Above(A, F, base, size) else Above(A, F, base, size) + [IdxEntry(e.k, NodeAt(base, |Grouped(A, F)|, size))]
  {
    GroupedMore(A, F, e);
    GroupedEven(A, F);
    var G, G' := Grouped(A, F), Grouped(A + [e], F);
    hide Grouped;
    if Open(G, F) {
      assert forall j :: 0 <= j < |G| ==> G'[j] != [] && G[j] != [] && G'[j][0] == G[j][0];
    }
  }

  /** The children of the level are the nodes' kids, one node after the other. */
  lemma {:induction false} AboveExpands(g: Graph, A: seq<IdxEntry>, F: Size, base: Ptr, size: nat)
    requires forall j :: 0 <= j < |Grouped(A, F)| ==> Kids(g, Above(A, F, base, size)[j]) == Grouped(A, F)[j]
    ensures ExpandAll(g, Above(A, F, base, size)) == A
  {
    FlatExpands(g, Above(A, F, base, size), Grouped(A, F));
    GroupedFlat(A, F);
  }

  lemma {:induction false} FlatExpands(g: Graph, L: seq<IdxEntry>, G: seq<seq<IdxEntry>>)
    requires |L| == |G| && forall j :: 0 <= j < |L| ==> Kids(g, L[j]) == G[j]
    ensures ExpandAll(g, L) == Flat(G)
    decreases |L|
  {
    hide Kids;
    if L != [] {
      forall j | 0 <= j < |L| - 1 ensures Kids(g, L[1..][j]) == G[1..][j] { assert L[1..][j] == L[j + 1] && G[1..][j] == G[j + 1]; }
      FlatExpands(g, L[1..], G[1..]);
    }
  }
}
